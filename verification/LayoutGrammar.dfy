/** The language of layout files: which texts `parse_layout_override` accepts and
    what they say, in terms of their lines, words and numbers. */
module LayoutGrammar {
  import opened Wrappers
  import opened PipelineLayout

  predicate Blank(s: string) {
    forall i :: 0 <= i < |s| ==> s[i] == ' ' || 9 <= s[i] as int <= 13
  }

  predicate Solid(s: string) {
    |s| >= 1 && forall i :: 0 <= i < |s| ==> !(s[i] == ' ' || 9 <= s[i] as int <= 13)
  }

  predicate Digits(s: string) {
    |s| >= 1 && forall i :: 0 <= i < |s| ==> '0' <= s[i] <= '9'
  }

  /** No digit follows. */
  predicate EndsNumber(rest: string) {
    rest == "" || !('0' <= rest[0] <= '9')
  }

  predicate EndsWord(rest: string) {
    rest == "" || rest[0] == ' ' || 9 <= rest[0] as int <= 13
  }

  /** `n` is the 32-bit number stored for these decimal digits: modulo 2^32, or all
      ones when they exceed 64 bits. */
  predicate Stored(negative: bool, v: nat, n: nat) {
    && n < 0x1_0000_0000
    && if v >= 0x1_0000_0000_0000_0000 then n == 0xffffffff
       else if negative then (n + v) % 0x1_0000_0000 == 0
       else (v - n) % 0x1_0000_0000 == 0
  }

  predicate NumberParts(s: string, space: string, sign: string, digits: string, n: nat, rest: string) {
    && s == space + (sign + (digits + rest)) && Blank(space) && sign in {"", "+", "-"}
    && Digits(digits) && EndsNumber(rest) && AllDigits(digits) && Stored(sign == "-", Value(digits), n)
  }

  /** Blanks, an optional sign and digits, with the value `n`, then `rest`. */
  ghost predicate Number(s: string, n: nat, rest: string) {
    exists space, sign, digits :: NumberParts(s, space, sign, digits, n, rest)
  }

  predicate WordParts(s: string, space: string, word: string, rest: string, room: nat) {
    && s == space + (word + rest) && Blank(space) && Solid(word) && |word| <= room
    && (|word| == room || EndsWord(rest))
  }

  /** Blanks and a word of at most `room` characters, then `rest`. */
  ghost predicate Word(s: string, word: string, rest: string, room: nat) {
    exists space :: WordParts(s, space, word, rest, room)
  }

  // ---------------------------------------------------- scanning is this

  lemma {:induction false} SkipBlank(space: string, t: string)
    requires Blank(space) && (t == "" || !IsSpace(t[0]))
    ensures SkipSpaces(space + t) == t
  {
    if space == "" {
      assert space + t == t;
    } else {
      assert (space + t)[1..] == space[1..] + t;
      SkipBlank(space[1..], t);
    }
  }

  lemma BlankCons(c: char, space: string)
    requires IsSpace(c) && Blank(space)
    ensures Blank([c] + space)
  {
  }

  lemma {:induction false} SkipSplits(s: string) returns (space: string)
    ensures s == space + SkipSpaces(s) && Blank(space)
    ensures SkipSpaces(s) == "" || !IsSpace(SkipSpaces(s)[0])
    decreases |s|
  {
    space := "";
    if s != "" && IsSpace(s[0]) {
      var first, rest := [s[0]], s[1..];
      assert s == first + rest && SkipSpaces(s) == SkipSpaces(rest);
      hide SkipSpaces, Blank;
      var more := SkipSplits(rest);
      BlankCons(s[0], more);
      space := first + more;
      assert first + (more + SkipSpaces(rest)) == space + SkipSpaces(rest);
    }
  }

  lemma StoredIsUnique(negative: bool, v: nat, n: nat)
    ensures Stored(negative, v, n) <==> Unsigned(negative, v) == n
  {
    var m: int := 0x1_0000_0000;
    if v < 0x1_0000_0000_0000_0000 {
      if negative {
        NegatedResidue(v, n, 0x1_0000_0000_0000_0000 - v, m);
      } else {
        Residue(v, n, m);
      }
    }
  }

  lemma Residue(v: int, n: int, m: int)
    requires m == 0x1_0000_0000
    ensures 0 <= n < m && (v - n) % m == 0 <==> v % m == n
  {
  }

  lemma NegatedResidue(v: int, n: int, w: int, m: int)
    requires m == 0x1_0000_0000 && w == 0x1_0000_0000_0000_0000 - v
    ensures 0 <= n < m && (n + v) % m == 0 <==> w % m == n
  {
  }

  lemma {:induction false} DigitsEnd(s: string)
    ensures EndsNumber(s[|TakeDigits(s)|..])
  {
    if s != "" && IsDigit(s[0]) {
      DigitsEnd(s[1..]);
      assert s[|TakeDigits(s)|..] == s[1..][|TakeDigits(s[1..])|..];
    }
  }

  /** `%u` reads exactly the numbers. */
  lemma ScansNumber(s: string, n: nat, rest: string)
    ensures ScanUnsigned(s) == Some((n, rest)) <==> Number(s, n, rest)
  {
    if ScanUnsigned(s) == Some((n, rest)) {
      NumberIsScanned(s, n, rest);
    }
    forall space, sign, digits | NumberParts(s, space, sign, digits, n, rest)
      ensures ScanUnsigned(s) == Some((n, rest))
    {
      PartsAreScanned(s, space, sign, digits, n, rest);
    }
  }

  lemma SignSplits(t: string) returns (sign: string, digits: string)
    requires ScanUnsigned(t).Some? && t == SkipSpaces(t)
    ensures sign in {"", "+", "-"} && Digits(digits) && EndsNumber(ScanUnsigned(t).value.1)
    ensures t == sign + (digits + ScanUnsigned(t).value.1)
    ensures AllDigits(digits) && ScanUnsigned(t).value.0 == Unsigned(sign == "-", Value(digits))
  {
    hide Value, Unsigned, SkipSpaces;
    sign := if t[0] == '-' then "-" else if t[0] == '+' then "+" else "";
    var u := t[|sign|..];
    digits := TakeDigits(u);
    DigitsEnd(u);
    hide TakeDigits;
    assert u == digits + u[|digits|..];
    assert t == sign + u;
  }

  lemma SkipTwice(s: string)
    ensures SkipSpaces(SkipSpaces(s)) == SkipSpaces(s) && ScanUnsigned(SkipSpaces(s)) == ScanUnsigned(s)
  {
    hide TakeDigits, Value, Unsigned;
    var space := SkipSplits(s);
    var t := SkipSpaces(s);
    assert SkipSpaces(t) == t;
  }

  lemma NumberIsScanned(s: string, n: nat, rest: string)
    requires ScanUnsigned(s) == Some((n, rest))
    ensures Number(s, n, rest)
  {
    hide SkipSpaces, ScanUnsigned, Value, Stored, Unsigned;
    var space := SkipSplits(s);
    SkipTwice(s);
    var sign, digits := SignSplits(SkipSpaces(s));
    StoredIsUnique(sign == "-", Value(digits), n);
    assert NumberParts(s, space, sign, digits, n, rest);
  }

  lemma PartsAreScanned(s: string, space: string, sign: string, digits: string, n: nat, rest: string)
    requires NumberParts(s, space, sign, digits, n, rest)
    ensures ScanUnsigned(s) == Some((n, rest))
  {
    var u := digits + rest;
    var t := sign + u;
    assert u[0] == digits[0];
    assert t[0] == if sign == "" then u[0] else sign[0];
    SkipBlank(space, t);
    TakeAllDigits(digits, rest);
    StoredIsUnique(sign == "-", Value(digits), n);
    hide SkipSpaces, TakeDigits, Value, Stored;
    assert t[|sign|..] == u;
    assert u[|digits|..] == rest;
  }

  lemma {:induction false} TakesWord(word: string, rest: string, room: nat)
    requires (word == "" || Solid(word)) && |word| <= room && (|word| == room || EndsWord(rest))
    ensures TakeWord(word + rest, room) == word
  {
    if word == "" {
      assert word + rest == rest;
    } else {
      assert (word + rest)[1..] == word[1..] + rest;
      TakesWord(word[1..], rest, room - 1);
    }
  }

  lemma {:induction false} WordEnds(s: string, room: nat)
    ensures var word := TakeWord(s, room);
      && (word == "" || Solid(word)) && |word| <= room && (|word| == room || EndsWord(s[|word|..]))
  {
    if !(room == 0 || s == "" || IsSpace(s[0])) {
      WordEnds(s[1..], room - 1);
      var word := TakeWord(s, room);
      assert s[|word|..] == s[1..][|word| - 1..];
    }
  }

  /** `%63s` and `%31s` read exactly the words. */
  lemma ScansWord(s: string, word: string, rest: string, room: nat)
    requires room > 0
    ensures ScanWord(s, room) == Some((word, rest)) <==> Word(s, word, rest, room)
  {
    if ScanWord(s, room) == Some((word, rest)) {
      var space := SkipSplits(s);
      var t := SkipSpaces(s);
      WordEnds(t, room);
      assert t == word + rest;
      hide SkipSpaces, TakeWord;
      assert WordParts(s, space, word, rest, room);
    }
    forall space | WordParts(s, space, word, rest, room)
      ensures ScanWord(s, room) == Some((word, rest))
    {
      var t := word + rest;
      assert t[0] == word[0];
      SkipBlank(space, t);
      TakesWord(word, rest, room);
      hide SkipSpaces, TakeWord;
      assert t[|word|..] == rest;
    }
  }

  // ------------------------------------------------------- what a line says

  predicate NoNul(s: string) {
    forall i :: 0 <= i < |s| ==> s[i] != '\0'
  }

  predicate LineParts(line: string, space: string, t: string, tail: string) {
    && line == space + (t + tail) && Blank(space) && NoNul(t)
    && (t == "" || !(t[0] == ' ' || 9 <= t[0] as int <= 13)) && (tail == "" || tail[0] == '\0')
  }

  /** `t` is the line from its first character that is not blank, up to a NUL. */
  ghost predicate Says(line: string, t: string) {
    exists space, tail :: LineParts(line, space, t, tail)
  }

  /** `t` sets this key to the number. */
  ghost predicate SetsKey(t: string, key: string, n: nat) {
    exists after, rest :: t == key + after && Number(after, n, rest)
  }

  ghost predicate BindingParts(t: string, f: BindingFields, a: string, b: string, c: string, d: string, e: string, r: string) {
    && t == "binding" + a && Number(a, f.set_, b) && Number(b, f.number, c) && Word(c, f.name, d, 63)
    && Number(d, f.count, e) && Word(e, f.stage, r, 31)
  }

  /** `t` is a binding with these fields, in this order. */
  ghost predicate Binds(t: string, f: BindingFields) {
    exists a, b, c, d, e, r :: BindingParts(t, f, a, b, c, d, e, r)
  }

  lemma {:induction false} CutAtNul(a: string, tail: string)
    requires NoNul(a) && (tail == "" || tail[0] == '\0')
    ensures CString(a + tail) == a
  {
    if a == "" {
      assert a + tail == tail;
    } else {
      assert (a + tail)[1..] == a[1..] + tail;
      CutAtNul(a[1..], tail);
    }
  }

  lemma {:induction false} NulSplits(s: string) returns (tail: string)
    ensures s == CString(s) + tail && NoNul(CString(s)) && (tail == "" || tail[0] == '\0')
  {
    if s == "" || s[0] == '\0' {
      tail := s;
    } else {
      tail := NulSplits(s[1..]);
      assert s == [s[0]] + s[1..];
    }
  }

  lemma NoNulParts(a: string, b: string)
    ensures NoNul(a + b) <==> NoNul(a) && NoNul(b)
  {
    if NoNul(a + b) {
      assert forall i :: 0 <= i < |a| ==> a[i] == (a + b)[i];
      assert forall i :: 0 <= i < |b| ==> b[i] == (a + b)[|a| + i];
    }
  }

  lemma BlankHasNoNul(space: string)
    requires Blank(space)
    ensures NoNul(space)
  {
  }

  lemma CursorHasParts(line: string)
    ensures Says(line, SkipSpaces(CString(line)))
  {
    hide SkipSpaces, CString, NoNul, Blank;
    var tail := NulSplits(line);
    var space := SkipSplits(CString(line));
    var t := SkipSpaces(CString(line));
    NoNulParts(space, t);
    assert line == space + (t + tail);
    assert LineParts(line, space, t, tail);
  }

  lemma PartsAreCursor(line: string, space: string, t: string, tail: string)
    requires LineParts(line, space, t, tail)
    ensures SkipSpaces(CString(line)) == t
  {
    hide SkipSpaces, CString, NoNul, Blank;
    BlankHasNoNul(space);
    NoNulParts(space, t);
    CutAtNul(space + t, tail);
    assert line == (space + t) + tail;
    SkipBlank(space, t);
  }

  lemma CursorSays(line: string, t: string)
    ensures SkipSpaces(CString(line)) == t <==> Says(line, t)
  {
    CursorHasParts(line);
    hide SkipSpaces, CString, LineParts;
    if Says(line, t) {
      var space, tail :| LineParts(line, space, t, tail);
      PartsAreCursor(line, space, t, tail);
    }
  }

  lemma ScansKey(t: string, key: string, n: nat)
    ensures ScanKey(t, key) == Some(n) <==> SetsKey(t, key, n)
  {
    hide ScanUnsigned, Number;
    if ScanKey(t, key) == Some(n) {
      var after := t[|key|..];
      assert t == key + after;
      ScansNumber(after, n, ScanUnsigned(after).value.1);
    }
    forall after, rest | t == key + after && Number(after, n, rest)
      ensures ScanKey(t, key) == Some(n)
    {
      ScansNumber(after, n, rest);
      assert t[..|key|] == key && t[|key|..] == after;
    }
  }

  lemma ScansBinding(t: string, f: BindingFields)
    ensures ScanBinding(t) == Some(f) <==> Binds(t, f)
  {
    if ScanBinding(t) == Some(f) {
      BindingSplits(t, f);
    }
    forall a, b, c, d, e, r | BindingParts(t, f, a, b, c, d, e, r)
      ensures ScanBinding(t) == Some(f)
    {
      hide ScanUnsigned, ScanWord, Number, Word;
      assert t[..7] == "binding" && t[7..] == a;
      ScansNumber(a, f.set_, b);
      ScansNumber(b, f.number, c);
      ScansWord(c, f.name, d, 63);
      ScansNumber(d, f.count, e);
      ScansWord(e, f.stage, r, 31);
    }
  }

  lemma BindingSplits(t: string, f: BindingFields)
    requires ScanBinding(t) == Some(f)
    ensures Binds(t, f)
  {
    hide ScanUnsigned, ScanWord, Number, Word;
    var a := t[7..];
    assert |"binding"| == 7 && t == "binding" + a;
    var b := ScanUnsigned(a).value.1;
    var c := ScanUnsigned(b).value.1;
    var d := ScanWord(c, 63).value.1;
    var e := ScanUnsigned(d).value.1;
    var r := ScanWord(e, 31).value.1;
    ScansNumber(a, f.set_, b);
    ScansNumber(b, f.number, c);
    ScansWord(c, f.name, d, 63);
    ScansNumber(d, f.count, e);
    ScansWord(e, f.stage, r, 31);
    assert BindingParts(t, f, a, b, c, d, e, r);
  }

  // -------------------------------------------------- what a line does

  /** The descriptor types by their VkDescriptorType value. */
  const NAMES := ["sampler", "combined_image_sampler", "sampled_image", "storage_image", "uniform_texel_buffer",
                  "storage_texel_buffer", "uniform_buffer", "storage_buffer", "uniform_buffer_dynamic",
                  "storage_buffer_dynamic", "input_attachment"]

  const KEYS := {"set_count=", "push_constants=", "pipeline_flags=", "required_subgroup_size="}

  datatype Meaning = Nothing | Key(key: string, n: nat) | Bind(set_: nat, binding: Binding)

  ghost predicate Means(line: string, m: Meaning) {
    exists t :: Says(line, t) && TextMeans(t, m)
  }

  /** Nothing for an empty text or a comment; else one of the four keys with its
      number, or a binding of a known type, in range and for the compute stage. */
  ghost predicate TextMeans(t: string, m: Meaning) {
    match m
    case Nothing => t == "" || t[0] == '#'
    case Key(key, n) => key in KEYS && SetsKey(t, key, n)
    case Bind(set_, b) =>
      && b.descriptor < |NAMES| && set_ < 8 && b.number < 64 && b.count > 0
      && Binds(t, BindingFields(set_, b.number, NAMES[b.descriptor], b.count, "compute"))
  }

  /** The override with one of its four numbers set. */
  function WithKey(o: Override, key: string, n: nat): Override {
    if key == "set_count=" then o.(setCount := n)
    else if key == "push_constants=" then o.(pushCount := n)
    else if key == "pipeline_flags=" then o.(flags := n)
    else if key == "required_subgroup_size=" then o.(subgroup := n)
    else o
  }

  /** What a line with this meaning makes of an override. */
  predicate Does(o: Override, m: Meaning, next: Override)
    requires |o.bindings| == 8
  {
    match m
    case Nothing => next == o
    case Key(key, n) =>
      next == WithKey(o, key, n)
    case Bind(set_, b) =>
      && set_ < 8 && |o.bindings[set_]| < 64
      && next == o.(bindings := o.bindings[set_ := o.bindings[set_] + [b]])
  }

  lemma NamesAreTypes(name: string, k: nat)
    ensures DescriptorType(name) == Some(k) <==> k < |NAMES| && NAMES[k] == name
  {
    if k < |NAMES| {
      NameOfType(k);
      TypeNameIsRead(k);
    }
    if DescriptorType(name) == Some(k) {
      DescriptorName(name, k);
    }
  }

  lemma NameOfType(k: nat)
    requires k < |NAMES|
    ensures NAMES[k] == TypeName(k)
  {
  }

  lemma DescriptorName(name: string, k: nat)
    requires DescriptorType(name) == Some(k)
    ensures k < |NAMES| && NAMES[k] == name
  {
  }

  lemma KeyStarts(t: string, key: string, n: nat)
    requires SetsKey(t, key, n)
    ensures |key| <= |t| && t[..|key|] == key
  {
    hide Number;
    var after, rest :| t == key + after && Number(after, n, rest);
  }

  lemma BindingStarts(t: string, f: BindingFields)
    requires Binds(t, f)
    ensures |t| >= 7 && t[..7] == "binding" && t[0] == 'b'
  {
    hide Number, Word;
    var a, b, c, d, e, r :| BindingParts(t, f, a, b, c, d, e, r);
    assert t[0] == "binding"[0];
  }

  predicate StartsWith(t: string, key: string) {
    |key| <= |t| && t[..|key|] == key
  }

  /** At most one of the five words begins the text, and none is a comment. */
  lemma OneStart(t: string)
    ensures StartsWith(t, SET_COUNT) ==> t[0] == 's'
    ensures StartsWith(t, PUSH_CONSTANTS) ==> t[0] == 'p' && t[1] == 'u'
    ensures StartsWith(t, PIPELINE_FLAGS) ==> t[0] == 'p' && t[1] == 'i'
    ensures StartsWith(t, SUBGROUP_SIZE) ==> t[0] == 'r'
    ensures StartsWith(t, BINDING) ==> t[0] == 'b'
  {
    KeysArePrintable();
    forall key, i | StartsWith(t, key) && 0 <= i < |key|
      ensures t[i] == key[i]
    {
      assert t[..|key|][i] == key[i];
    }
    hide StartsWith;
    assert StartsWith(t, SET_COUNT) ==> t[0] == SET_COUNT[0];
    assert StartsWith(t, PUSH_CONSTANTS) ==> t[0] == PUSH_CONSTANTS[0] && t[1] == PUSH_CONSTANTS[1];
    assert StartsWith(t, PIPELINE_FLAGS) ==> t[0] == PIPELINE_FLAGS[0] && t[1] == PIPELINE_FLAGS[1];
    assert StartsWith(t, SUBGROUP_SIZE) ==> t[0] == SUBGROUP_SIZE[0];
    assert StartsWith(t, BINDING) ==> t[0] == BINDING[0];
  }

  lemma KeyNeedsStart(t: string, key: string)
    ensures ScanKey(t, key).Some? ==> StartsWith(t, key)
  {
  }

  /** The key that begins the text is the only one that is read. */
  lemma OneKey(t: string, key: string, n: nat)
    requires key in KEYS && SetsKey(t, key, n)
    ensures t != "" && t[0] != '#' && ScanKey(t, key) == Some(n)
    ensures forall other :: other in KEYS && other != key ==> ScanKey(t, other).None?
  {
    DistinctKeys();
    KeyStarts(t, key, n);
    hide ScanKey, SetsKey, StartsWith;
    KeyNeedsStart(t, SET_COUNT);
    KeyNeedsStart(t, PUSH_CONSTANTS);
    KeyNeedsStart(t, PIPELINE_FLAGS);
    KeyNeedsStart(t, SUBGROUP_SIZE);
    KeyIsStart(t, key);
    OneStart(t);
    ScansKey(t, key, n);
  }

  lemma KeyIsDone(o: Override, line: string, key: string, n: nat)
    requires |o.bindings| == 8 && key in KEYS && SetsKey(SkipSpaces(CString(line)), key, n)
    ensures ParseLine(o, line) == Some(WithKey(o, key, n))
  {
    assert SET_COUNT in KEYS && PUSH_CONSTANTS in KEYS && PIPELINE_FLAGS in KEYS && SUBGROUP_SIZE in KEYS;
    var t := SkipSpaces(CString(line));
    hide SkipSpaces, CString, ScanKey, ScanBinding, SetsKey;
    OneKey(t, key, n);
    OrderedKeys(o, line, t, key, n);
  }

  lemma OrderedKeys(o: Override, line: string, t: string, key: string, n: nat)
    requires |o.bindings| == 8 && t == SkipSpaces(CString(line)) && t != "" && t[0] != '#'
    requires key == SET_COUNT || key == PUSH_CONSTANTS || key == PIPELINE_FLAGS || key == SUBGROUP_SIZE
    requires ScanKey(t, key) == Some(n)
    requires key == SET_COUNT || ScanKey(t, SET_COUNT).None?
    requires key == PUSH_CONSTANTS || ScanKey(t, PUSH_CONSTANTS).None?
    requires key == PIPELINE_FLAGS || ScanKey(t, PIPELINE_FLAGS).None?
    requires key == SUBGROUP_SIZE || ScanKey(t, SUBGROUP_SIZE).None?
    ensures ParseLine(o, line) == Some(WithKey(o, key, n))
  {
    DistinctKeys();
    hide SkipSpaces, CString, ScanKey, ScanBinding, AddBinding;
  }

  lemma KeyIsStart(t: string, key: string)
    requires |key| <= |t| && t[..|key|] == key
    ensures StartsWith(t, key)
  {
  }

  lemma BindingIsDone(o: Override, line: string, set_: nat, b: Binding)
    requires |o.bindings| == 8 && TextMeans(SkipSpaces(CString(line)), Bind(set_, b))
    ensures forall next :: Does(o, Bind(set_, b), next) ==> ParseLine(o, line) == Some(next)
  {
    var t := SkipSpaces(CString(line));
    var f := BindingFields(set_, b.number, NAMES[b.descriptor], b.count, "compute");
    BindingStarts(t, f);
    NamesAreTypes(NAMES[b.descriptor], b.descriptor);
    hide SkipSpaces, CString, ScanKey, ScanBinding, Binds, DescriptorType, StartsWith;
    KeyNeedsStart(t, SET_COUNT);
    KeyNeedsStart(t, PUSH_CONSTANTS);
    KeyNeedsStart(t, PIPELINE_FLAGS);
    KeyNeedsStart(t, SUBGROUP_SIZE);
    OneStart(t);
    ScansBinding(t, f);
  }

  /** A text with this meaning is read with this effect. */
  lemma MeaningIsDone(o: Override, line: string, m: Meaning, next: Override)
    requires |o.bindings| == 8 && TextMeans(SkipSpaces(CString(line)), m) && Does(o, m, next)
    ensures ParseLine(o, line) == Some(next)
  {
    match m
    case Nothing =>
    case Key(key, n) =>
      hide SkipSpaces, CString, SetsKey, ParseLine, WithKey;
      KeyIsDone(o, line, key, n);
    case Bind(set_, b) =>
      hide *;
      BindingIsDone(o, line, set_, b);
  }

  lemma DistinctKeys()
    ensures SET_COUNT != PUSH_CONSTANTS && SET_COUNT != PIPELINE_FLAGS && SET_COUNT != SUBGROUP_SIZE
    ensures PUSH_CONSTANTS != PIPELINE_FLAGS && PUSH_CONSTANTS != SUBGROUP_SIZE && PIPELINE_FLAGS != SUBGROUP_SIZE
  {
    KeysArePrintable();
  }

  /** What is read has a meaning with this effect. */
  lemma DoneIsMeaning(o: Override, line: string, next: Override) returns (m: Meaning)
    requires |o.bindings| == 8 && ParseLine(o, line) == Some(next)
    ensures TextMeans(SkipSpaces(CString(line)), m) && Does(o, m, next)
  {
    var t := SkipSpaces(CString(line));
    DistinctKeys();
    hide SkipSpaces, CString, ScanKey, ScanBinding, SetsKey, Binds, DescriptorType;
    if t == "" || t[0] == '#' {
      m := Nothing;
    } else if ScanKey(t, SET_COUNT).Some? {
      m := Key(SET_COUNT, ScanKey(t, SET_COUNT).value);
      ScansKey(t, SET_COUNT, m.n);
    } else if ScanKey(t, PUSH_CONSTANTS).Some? {
      m := Key(PUSH_CONSTANTS, ScanKey(t, PUSH_CONSTANTS).value);
      ScansKey(t, PUSH_CONSTANTS, m.n);
    } else if ScanKey(t, PIPELINE_FLAGS).Some? {
      m := Key(PIPELINE_FLAGS, ScanKey(t, PIPELINE_FLAGS).value);
      ScansKey(t, PIPELINE_FLAGS, m.n);
    } else if ScanKey(t, SUBGROUP_SIZE).Some? {
      m := Key(SUBGROUP_SIZE, ScanKey(t, SUBGROUP_SIZE).value);
      ScansKey(t, SUBGROUP_SIZE, m.n);
    } else {
      var f := ScanBinding(t).value;
      var k := DescriptorType(f.name).value;
      m := Bind(f.set_, Binding(f.number, k, f.count));
      NamesAreTypes(f.name, k);
      ScansBinding(t, f);
    }
  }

  /** A line is accepted exactly if it has a meaning that can be done, and does that. */
  lemma LineExactly(o: Override, line: string, next: Override)
    requires |o.bindings| == 8
    ensures ParseLine(o, line) == Some(next) <==> exists m :: Means(line, m) && Does(o, m, next)
  {
    hide ParseLine, Says, TextMeans, Does;
    var t := SkipSpaces(CString(line));
    CursorSays(line, t);
    if ParseLine(o, line) == Some(next) {
      var m := DoneIsMeaning(o, line, next);
      assert Means(line, m);
    }
    forall m | Means(line, m) && Does(o, m, next)
      ensures ParseLine(o, line) == Some(next)
    {
      var u :| Says(line, u) && TextMeans(u, m);
      CursorSays(line, u);
      MeaningIsDone(o, line, m, next);
    }
  }

  // ------------------------------------------------- what a file says

  function Concat(lines: seq<string>): string {
    if lines == [] then "" else lines[0] + Concat(lines[1..])
  }

  /** At most 255 characters, cut only after a newline, when full, or at the end. */
  predicate OneLine(line: string, last: bool) {
    && 1 <= |line| <= 255 && (forall i :: 0 <= i < |line| - 1 ==> line[i] != '\n')
    && (last || line[|line| - 1] == '\n' || |line| == 255)
  }

  predicate IsLines(text: string, lines: seq<string>) {
    text == Concat(lines) && forall i :: 0 <= i < |lines| ==> OneLine(lines[i], i == |lines| - 1)
  }

  /** The last number given to a key, or `n`. */
  function Last(ms: seq<Meaning>, key: string, n: nat): nat {
    if ms == [] then n else Last(ms[1..], key, if ms[0].Key? && ms[0].key == key then ms[0].n else n)
  }

  /** The bindings of one set, in file order. */
  function Of(ms: seq<Meaning>, set_: nat): seq<Binding> {
    if ms == [] then []
    else (if ms[0].Bind? && ms[0].set_ == set_ then [ms[0].binding] else []) + Of(ms[1..], set_)
  }

  /** The meanings of the lines, one by one. */
  ghost predicate Mean(lines: seq<string>, ms: seq<Meaning>) {
    |ms| == |lines| && forall i :: 0 <= i < |lines| ==> Means(lines[i], ms[i])
  }

  ghost predicate Fit(o: Override, ms: seq<Meaning>)
    requires |o.bindings| == 8
  {
    forall k :: 0 <= k < 8 ==> |o.bindings[k]| + |Of(ms, k)| <= 64
  }

  /** An override after lines with these meanings. */
  function Then(o: Override, ms: seq<Meaning>): (r: Override)
    requires |o.bindings| == 8
    ensures |r.bindings| == 8
  {
    Override(Last(ms, "set_count=", o.setCount), Last(ms, "push_constants=", o.pushCount),
             Last(ms, "pipeline_flags=", o.flags), Last(ms, "required_subgroup_size=", o.subgroup),
             seq(8, k requires 0 <= k < 8 => o.bindings[k] + Of(ms, k)))
  }

  predicate Bounded(o: Override) {
    |o.bindings| == 8 && forall k :: 0 <= k < 8 ==> |o.bindings[k]| <= 64
  }

  lemma {:induction false} TakesLine(line: string, rest: string, room: nat)
    requires 1 <= |line| <= room && forall i :: 0 <= i < |line| - 1 ==> line[i] != '\n'
    requires rest == "" || line[|line| - 1] == '\n' || |line| == room
    ensures TakeLine(line + rest, room) == line
  {
    var s := line + rest;
    assert s[0] == line[0] && s[1..] == line[1..] + rest;
    if |line| > 1 {
      TakesLine(line[1..], rest, room - 1);
      assert line == [line[0]] + line[1..];
    } else if line[0] != '\n' {
      assert s[1..] == rest;
      assert TakeLine(rest, room - 1) == "";
      assert line == [line[0]];
    } else {
      assert line == "\n";
    }
  }

  /** The first line of a file is what `fgets` returns. */
  lemma FirstLine(text: string, lines: seq<string>)
    requires IsLines(text, lines) && lines != []
    ensures text != "" && TakeLine(text, LINE_ROOM) == lines[0]
    ensures text[|lines[0]|..] == Concat(lines[1..]) && IsLines(Concat(lines[1..]), lines[1..])
  {
    var rest := Concat(lines[1..]);
    assert OneLine(lines[0], 0 == |lines| - 1);
    if |lines| > 1 {
      assert rest == lines[1] + Concat(lines[1..][1..]);
    }
    TakesLine(lines[0], rest, LINE_ROOM);
    assert text == lines[0] + rest;
    hide TakeLine;
    forall i | 0 <= i < |lines| - 1
      ensures OneLine(lines[1..][i], i == |lines[1..]| - 1)
    {
      assert OneLine(lines[i + 1], i + 1 == |lines| - 1);
    }
  }

  lemma ConsMean(lines: seq<string>, m: Meaning, ms: seq<Meaning>)
    requires lines != []
    ensures Mean(lines, [m] + ms) <==> Means(lines[0], m) && Mean(lines[1..], ms)
  {
    hide Means;
    var all := [m] + ms;
    if Means(lines[0], m) && Mean(lines[1..], ms) {
      forall i | 0 <= i < |lines|
        ensures Means(lines[i], all[i])
      {
        if i > 0 { assert Means(lines[1..][i - 1], ms[i - 1]); }
      }
    }
    if Mean(lines, all) {
      assert Means(lines[0], all[0]);
      forall i | 0 <= i < |lines| - 1
        ensures Means(lines[1..][i], ms[i])
      {
        assert Means(lines[i + 1], all[i + 1]);
      }
    }
  }

  lemma ConsThen(o: Override, m: Meaning, ms: seq<Meaning>, next: Override)
    requires Bounded(o) && Does(o, m, next)
    ensures Bounded(next) && Then(o, [m] + ms) == Then(next, ms) && (Fit(o, [m] + ms) <==> Fit(next, ms))
  {
    var all := [m] + ms;
    assert all[1..] == ms;
    forall k | 0 <= k < 8
      ensures o.bindings[k] + Of(all, k) == next.bindings[k] + Of(ms, k)
    {
    }
  }

  /** A binding that does not fit ends the reading. */
  lemma FitsOne(o: Override, m: Meaning, ms: seq<Meaning>, line: string) returns (next: Override)
    requires Bounded(o) && Fit(o, [m] + ms) && Means(line, m)
    ensures Does(o, m, next)
  {
    assert ([m] + ms)[1..] == ms;
    match m
    case Nothing => next := o;
    case Key(key, n) =>
      next := WithKey(o, key, n);
    case Bind(set_, b) =>
      hide Binds, Says;
      assert set_ < 8;
      assert |Of([m] + ms, set_)| >= 1;
      next := o.(bindings := o.bindings[set_ := o.bindings[set_] + [b]]);
  }

  lemma {:induction false} LinesAreDone(o: Override, text: string, lines: seq<string>, ms: seq<Meaning>)
    requires IsLines(text, lines) && Bounded(o) && Mean(lines, ms) && Fit(o, ms)
    ensures ParseLines(o, text) == Some(Then(o, ms))
    decreases |lines|
  {
    hide ParseLine, TakeLine, Means, Does, IsLines;
    if lines != [] {
      FirstLine(text, lines);
      var m, more := ms[0], ms[1..];
      assert ms == [m] + more;
      ConsMean(lines, m, more);
      var next := FitsOne(o, m, more, lines[0]);
      ConsThen(o, m, more, next);
      LineExactly(o, lines[0], next);
      LinesAreDone(next, Concat(lines[1..]), lines[1..], more);
    } else {
      NoLines(o, text);
    }
  }

  lemma NoLines(o: Override, text: string)
    requires Bounded(o) && IsLines(text, [])
    ensures text == "" && Then(o, []) == o && Fit(o, []) && Mean([], [])
  {
    forall k | 0 <= k < 8
      ensures Then(o, []).bindings[k] == o.bindings[k]
    {
      assert o.bindings[k] + [] == o.bindings[k];
    }
    assert Then(o, []).bindings == o.bindings;
  }

  lemma {:induction false} DoneAreLines(o: Override, text: string, lines: seq<string>, final: Override) returns (ms: seq<Meaning>)
    requires IsLines(text, lines) && Bounded(o) && ParseLines(o, text) == Some(final)
    ensures Mean(lines, ms) && Fit(o, ms) && final == Then(o, ms)
    decreases |lines|
  {
    hide ParseLine, TakeLine, Means, Does, IsLines;
    if lines != [] {
      FirstLine(text, lines);
      var next := ParseLine(o, lines[0]).value;
      LineExactly(o, lines[0], next);
      var m :| Means(lines[0], m) && Does(o, m, next);
      ConsThen(o, m, [], next);
      var more := DoneAreLines(next, Concat(lines[1..]), lines[1..], final);
      ConsThen(o, m, more, next);
      ConsMean(lines, m, more);
      ms := [m] + more;
    } else {
      NoLines(o, text);
      ms := [];
    }
  }

  /** The meanings of a file that is accepted: at most 64 bindings a set, one to
      eight sets, and none of them empty. */
  ghost predicate Accepted(lines: seq<string>, ms: seq<Meaning>) {
    && Mean(lines, ms) && (forall k :: 0 <= k < 8 ==> |Of(ms, k)| <= 64)
    && 1 <= Last(ms, "set_count=", 0) <= 8
    && forall k :: 0 <= k < Last(ms, "set_count=", 0) ==> Of(ms, k) != []
  }

  /** `parse_layout_override` over every text: it accepts exactly the files whose
      lines each say something allowed and together name one to eight sets with 1 to
      64 bindings each; and reads the last number of every key and the bindings of
      every set in file order. */
  lemma ParsesExactly(text: string, lines: seq<string>, o: Override)
    requires IsLines(text, lines)
    ensures Parse(text) == Some(o) <==>
      exists ms ::
        && Accepted(lines, ms)
        && o == Override(Last(ms, "set_count=", 0), Last(ms, "push_constants=", 0), Last(ms, "pipeline_flags=", 0),
                         Last(ms, "required_subgroup_size=", 0),
                         [Of(ms, 0), Of(ms, 1), Of(ms, 2), Of(ms, 3), Of(ms, 4), Of(ms, 5), Of(ms, 6), Of(ms, 7)])
  {
    hide Mean, IsLines, ParseLines;
    if Parse(text) == Some(o) {
      var ms := DoneAreLines(ZERO, text, lines, o);
      ThenFromZero(ms);
      assert Accepted(lines, ms);
    }
    forall ms | Accepted(lines, ms)
      ensures ParseLines(ZERO, text) == Some(Then(ZERO, ms)) && Complete(Then(ZERO, ms))
    {
      ThenFromZero(ms);
      LinesAreDone(ZERO, text, lines, ms);
    }
    forall ms {
      ThenFromZero(ms);
    }
  }

  lemma ThenFromZero(ms: seq<Meaning>)
    ensures Bounded(ZERO)
    ensures Then(ZERO, ms) ==
      Override(Last(ms, "set_count=", 0), Last(ms, "push_constants=", 0), Last(ms, "pipeline_flags=", 0),
               Last(ms, "required_subgroup_size=", 0),
               [Of(ms, 0), Of(ms, 1), Of(ms, 2), Of(ms, 3), Of(ms, 4), Of(ms, 5), Of(ms, 6), Of(ms, 7)])
    ensures Fit(ZERO, ms) <==> forall k :: 0 <= k < 8 ==> |Of(ms, k)| <= 64
    ensures forall k :: 0 <= k < 8 ==> Then(ZERO, ms).bindings[k] == Of(ms, k)
  {
    hide Of, Last;
    forall k | 0 <= k < 8
      ensures ZERO.bindings[k] == [] && Then(ZERO, ms).bindings[k] == Of(ms, k)
    {
      assert [] + Of(ms, k) == Of(ms, k);
    }
  }

  /** Every text is split into lines in this way. */
  lemma {:induction false} LinesExist(text: string) returns (lines: seq<string>)
    ensures IsLines(text, lines)
    decreases |text|
  {
    if text == "" {
      lines := [];
    } else {
      var line := TakeLine(text, LINE_ROOM);
      LineIsCut(text, LINE_ROOM);
      var rest := text[|line|..];
      var more := LinesExist(rest);
      lines := [line] + more;
      assert lines[1..] == more && text == line + rest;
      hide TakeLine;
      forall i | 0 <= i < |lines|
        ensures OneLine(lines[i], i == |lines| - 1)
      {
        if i > 0 { assert OneLine(more[i - 1], i - 1 == |more| - 1); }
      }
    }
  }

  lemma {:induction false} LineIsCut(text: string, room: nat)
    requires text != "" && room > 0
    ensures var line := TakeLine(text, room);
      && 1 <= |line| <= room && (forall i :: 0 <= i < |line| - 1 ==> line[i] != '\n')
      && (|line| == |text| || line[|line| - 1] == '\n' || |line| == room)
  {
    if text[0] != '\n' && room > 1 && |text| > 1 {
      LineIsCut(text[1..], room - 1);
    }
  }
}
