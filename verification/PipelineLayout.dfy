/** The pipeline layout file: `layout_text` (vulkan_pipeline_snapshot.py) prints
    it, `parse_layout_override` (vulkan-compute-replay.c) reads it back. */
module PipelineLayout {
  import opened Wrappers

  const MAX_SETS := 8
  const MAX_BINDINGS := 64
  const LINE_ROOM := 255
  const TYPE_COUNT := 11

  datatype Binding = Binding(number: nat, descriptor: nat, count: nat)

  /** The captured call: its descriptor sets, pipeline flags and subgroup size. */
  datatype Capture = Capture(sets: seq<seq<Binding>>, flags: nat, subgroup: nat)

  predicate ValidSet(s: seq<Binding>) {
    && 1 <= |s| <= 64
    && (forall i :: 0 <= i < |s| ==> s[i].number <= 63 && s[i].descriptor <= 10 && 1 <= s[i].count <= 1024)
    && forall i, j :: 0 <= i < j < |s| ==> s[i].number != s[j].number
  }

  /** What `validate` demands of these fields (the last line only repeats, for
      all sets at once, that descriptor types are at most 10). */
  predicate Validated(c: Capture) {
    && 1 <= |c.sets| <= 8 && (forall i :: 0 <= i < |c.sets| ==> ValidSet(c.sets[i]))
    && c.flags <= 0xffffffff && c.flags / 4 % 2 == 0 && c.subgroup <= 128
    && KnownTypes(c.sets)
  }

  // ------------------------------------------------------- the printer

  function DigitChar(d: nat): (c: char)
    requires d < 10
    ensures IsDigit(c) && DigitValue(c) == d
  {
    '0' + d as char
  }

  predicate IsDigit(c: char) {
    '0' <= c <= '9'
  }

  function DigitValue(c: char): nat
    requires IsDigit(c)
  {
    (c - '0') as nat
  }

  /** Decimal text of a number. */
  function Decimal(n: nat): string {
    if n < 10 then [DigitChar(n)] else Decimal(n / 10) + [DigitChar(n % 10)]
  }

  /** The Python table DESCRIPTORS. */
  function TypeName(k: nat): string
    requires k < TYPE_COUNT
  {
    match k
    case 0 => "sampler"
    case 1 => "combined_image_sampler"
    case 2 => "sampled_image"
    case 3 => "storage_image"
    case 4 => "uniform_texel_buffer"
    case 5 => "storage_texel_buffer"
    case 6 => "uniform_buffer"
    case 7 => "storage_buffer"
    case 8 => "uniform_buffer_dynamic"
    case 9 => "storage_buffer_dynamic"
    case _ => "input_attachment"
  }

  const COMMENT := "# Captured at the " + "actual vkCreate" + "ComputePipelines" + " call."
  const SET_COUNT := "set_count="
  const PUSH_CONSTANTS := "push_constants="
  const PIPELINE_FLAGS := "pipeline_flags="
  const SUBGROUP_SIZE := "required_subgroup_size="
  const BINDING := "binding"
  const COMPUTE := "compute"

  function BindingLine(set_: nat, b: Binding): string
    requires b.descriptor < TYPE_COUNT
  {
    BINDING + " " + Decimal(set_) + " " + Decimal(b.number) + " " + TypeName(b.descriptor)
    + " " + Decimal(b.count) + " " + COMPUTE
  }

  function SetLines(set_: nat, bindings: seq<Binding>): seq<string>
    requires forall i :: 0 <= i < |bindings| ==> bindings[i].descriptor < TYPE_COUNT
  {
    seq(|bindings|, i requires 0 <= i < |bindings| => BindingLine(set_, bindings[i]))
  }

  predicate KnownTypes(sets: seq<seq<Binding>>) {
    forall s, i :: 0 <= s < |sets| && 0 <= i < |sets[s]| ==> sets[s][i].descriptor < TYPE_COUNT
  }

  /** The binding lines of the sets from `from` on. */
  function BindingLines(sets: seq<seq<Binding>>, from: nat): seq<string>
    requires from <= |sets| && KnownTypes(sets)
    decreases |sets| - from
  {
    if from == |sets| then [] else SetLines(from, sets[from]) + BindingLines(sets, from + 1)
  }

  function HeaderLines(c: Capture): seq<string> {
    [COMMENT, SET_COUNT + Decimal(|c.sets|), PUSH_CONSTANTS + "0", PIPELINE_FLAGS + Decimal(c.flags),
     SUBGROUP_SIZE + Decimal(c.subgroup)]
  }

  /** Every line ends with a newline: `"\n".join(lines) + "\n"`. */
  function Joined(lines: seq<string>): string {
    if lines == [] then "" else lines[0] + "\n" + Joined(lines[1..])
  }

  function Text(c: Capture): string
    requires KnownTypes(c.sets)
  {
    Joined(HeaderLines(c) + BindingLines(c.sets, 0))
  }

  /** `layout_text` */
  method LayoutText(c: Capture) returns (text: string)
    requires KnownTypes(c.sets)
    ensures text == Text(c)
  {
    hide BindingLine, HeaderLines, Joined;
    var lines := HeaderLines(c);
    for set_ := 0 to |c.sets|
      invariant lines + BindingLines(c.sets, set_) == HeaderLines(c) + BindingLines(c.sets, 0)
    {
      ghost var start := lines;
      for i := 0 to |c.sets[set_]|
        invariant lines == start + SetLines(set_, c.sets[set_])[..i]
      {
        lines := lines + [BindingLine(set_, c.sets[set_][i])];
      }
      assert lines == start + SetLines(set_, c.sets[set_]);
      assert lines + BindingLines(c.sets, set_ + 1) == start + BindingLines(c.sets, set_);
    }
    assert lines == HeaderLines(c) + BindingLines(c.sets, 0);
    text := Joined(lines);
  }

  // --------------------------------------------- the C library's scanning

  predicate IsSpace(c: char) {
    c == ' ' || 9 <= c as int <= 13
  }

  function SkipSpaces(s: string): string {
    if s != "" && IsSpace(s[0]) then SkipSpaces(s[1..]) else s
  }

  /** `fgets` with room for 255 characters: up to and including a newline. */
  function TakeLine(text: string, room: nat): (line: string)
    ensures |line| <= |text| && line == text[..|line|]
    ensures text != "" && room > 0 ==> line != ""
  {
    if room == 0 || text == "" then ""
    else if text[0] == '\n' then "\n"
    else [text[0]] + TakeLine(text[1..], room - 1)
  }

  /** A C string ends at its first NUL. */
  function CString(s: string): string {
    if s == "" || s[0] == '\0' then "" else [s[0]] + CString(s[1..])
  }

  function Literal(s: string, literal: string): Option<string> {
    if |literal| <= |s| && s[..|literal|] == literal then Some(s[|literal|..]) else None
  }

  predicate AllDigits(d: string) {
    forall i :: 0 <= i < |d| ==> IsDigit(d[i])
  }

  function TakeDigits(s: string): (d: string)
    ensures |d| <= |s| && d == s[..|d|] && AllDigits(d)
  {
    if s != "" && IsDigit(s[0]) then [s[0]] + TakeDigits(s[1..]) else ""
  }

  function Value(d: string): nat
    requires AllDigits(d)
  {
    if d == "" then 0 else 10 * Value(d[..|d| - 1]) + DigitValue(d[|d| - 1])
  }

  /** glibc's `%u` on a 64-bit platform: strtoul, saturated, then cut to 32 bits. */
  function Unsigned(negative: bool, n: nat): nat {
    if n >= 0x1_0000_0000_0000_0000 then 0xffffffff
    else if negative then (0x1_0000_0000_0000_0000 - n) % 0x1_0000_0000
    else n % 0x1_0000_0000
  }

  function ScanUnsigned(s: string): Option<(nat, string)> {
    var t := SkipSpaces(s);
    var signed := t != "" && (t[0] == '-' || t[0] == '+');
    var u := if signed then t[1..] else t;
    var digits := TakeDigits(u);
    if digits == "" then None
    else Some((Unsigned(signed && t[0] == '-', Value(digits)), u[|digits|..]))
  }

  function TakeWord(s: string, room: nat): (word: string)
    ensures |word| <= |s| && word == s[..|word|]
  {
    if room == 0 || s == "" || IsSpace(s[0]) then "" else [s[0]] + TakeWord(s[1..], room - 1)
  }

  function ScanWord(s: string, room: nat): Option<(string, string)> {
    var t := SkipSpaces(s);
    var word := TakeWord(t, room);
    if word == "" then None else Some((word, t[|word|..]))
  }

  /** `sscanf(cursor, "key=%u", &value) == 1` */
  function ScanKey(s: string, key: string): Option<nat> {
    var rest :- Literal(s, key);
    var scanned :- ScanUnsigned(rest);
    Some(scanned.0)
  }

  datatype BindingFields = BindingFields(set_: nat, number: nat, name: string, count: nat, stage: string)

  /** `sscanf(cursor, "binding %u %u %63s %u %31s", ...) == 5` */
  function ScanBinding(s: string): Option<BindingFields> {
    var a :- Literal(s, BINDING);
    var b :- ScanUnsigned(a);
    var c :- ScanUnsigned(b.1);
    var d :- ScanWord(c.1, 63);
    var e :- ScanUnsigned(d.1);
    var f :- ScanWord(e.1, 31);
    Some(BindingFields(b.0, c.0, d.0, e.0, f.0))
  }

  /** `descriptor_type_name`; the values are those of VkDescriptorType. */
  function DescriptorType(name: string): Option<nat> {
    if name == "sampler" then Some(0)
    else if name == "combined_image_sampler" then Some(1)
    else if name == "sampled_image" then Some(2)
    else if name == "storage_image" then Some(3)
    else if name == "uniform_texel_buffer" then Some(4)
    else if name == "storage_texel_buffer" then Some(5)
    else if name == "uniform_buffer" then Some(6)
    else if name == "uniform_buffer_dynamic" then Some(8)
    else if name == "storage_buffer" then Some(7)
    else if name == "storage_buffer_dynamic" then Some(9)
    else if name == "input_attachment" then Some(10)
    else None
  }

  // -------------------------------------------------------- the parser

  /** LayoutOverride, by value; `bindings` always has eight entries. */
  datatype Override = Override(
    setCount: nat, pushCount: nat, flags: nat, subgroup: nat, bindings: seq<seq<Binding>>)

  const ZERO := Override(0, 0, 0, 0, [[], [], [], [], [], [], [], []])

  function AddBinding(o: Override, f: BindingFields): Option<Override>
    requires |o.bindings| == MAX_SETS
  {
    if f.set_ >= MAX_SETS || f.number >= MAX_BINDINGS || |o.bindings[f.set_]| >= MAX_BINDINGS
       || f.count == 0 || f.stage != COMPUTE then None
    else
      var descriptor :- DescriptorType(f.name);
      Some(o.(bindings := o.bindings[f.set_ := o.bindings[f.set_] + [Binding(f.number, descriptor, f.count)]]))
  }

  /** One line of the file. */
  function ParseLine(o: Override, line: string): (r: Option<Override>)
    requires |o.bindings| == MAX_SETS
    ensures r.Some? ==> |r.value.bindings| == MAX_SETS
  {
    var s := SkipSpaces(CString(line));
    if s == "" || s[0] == '#' then Some(o)
    else if ScanKey(s, SET_COUNT).Some? then Some(o.(setCount := ScanKey(s, SET_COUNT).value))
    else if ScanKey(s, PUSH_CONSTANTS).Some? then Some(o.(pushCount := ScanKey(s, PUSH_CONSTANTS).value))
    else if ScanKey(s, PIPELINE_FLAGS).Some? then Some(o.(flags := ScanKey(s, PIPELINE_FLAGS).value))
    else if ScanKey(s, SUBGROUP_SIZE).Some? then Some(o.(subgroup := ScanKey(s, SUBGROUP_SIZE).value))
    else
      var f :- ScanBinding(s);
      AddBinding(o, f)
  }

  function ParseLines(o: Override, text: string): (r: Option<Override>)
    requires |o.bindings| == MAX_SETS
    ensures r.Some? ==> |r.value.bindings| == MAX_SETS
    decreases |text|
  {
    if text == "" then Some(o)
    else
      var line := TakeLine(text, LINE_ROOM);
      var next :- ParseLine(o, line);
      ParseLines(next, text[|line|..])
  }

  predicate Complete(o: Override)
    requires |o.bindings| == MAX_SETS
  {
    1 <= o.setCount <= MAX_SETS && forall i :: 0 <= i < o.setCount ==> o.bindings[i] != []
  }

  function Parse(text: string): Option<Override> {
    var o :- ParseLines(ZERO, text);
    if Complete(o) then Some(o) else None
  }

  // ------------------------------------------------------- round trip

  predicate NoLeadingDigit(s: string) {
    s == "" || !IsDigit(s[0])
  }

  lemma {:induction false} DecimalValue(n: nat)
    ensures AllDigits(Decimal(n)) && Decimal(n) != "" && Value(Decimal(n)) == n
  {
    if n >= 10 {
      DecimalValue(n / 10);
      var d := Decimal(n);
      assert d[..|d| - 1] == Decimal(n / 10) && d[|d| - 1] == DigitChar(n % 10);
    } else {
      assert Decimal(n)[..0] == "";
    }
  }

  lemma {:induction false} DecimalLength(n: nat, places: nat, bound: nat)
    requires places >= 1 && n < bound && (places == 1 ==> bound == 10)
    requires places > 1 ==> bound % 10 == 0 && DecimalBound(places, bound)
    ensures |Decimal(n)| <= places
    decreases places
  {
    if n >= 10 {
      DecimalLength(n / 10, places - 1, bound / 10);
    }
  }

  /** `bound` is the `places`-th power of ten. */
  predicate DecimalBound(places: nat, bound: nat) {
    if places <= 1 then places == 1 && bound == 10
    else bound % 10 == 0 && DecimalBound(places - 1, bound / 10)
  }

  lemma {:induction false} TakeAllDigits(d: string, rest: string)
    requires AllDigits(d) && NoLeadingDigit(rest)
    ensures TakeDigits(d + rest) == d
  {
    if d == "" {
      assert d + rest == rest;
    } else {
      assert (d + rest)[1..] == d[1..] + rest;
      TakeAllDigits(d[1..], rest);
      assert d == [d[0]] + d[1..];
    }
  }

  /** `%u` reads back a printed 32-bit number, with or without a space before it. */
  lemma ScanDecimal(n: nat, rest: string)
    requires n <= 0xffffffff && NoLeadingDigit(rest)
    ensures ScanUnsigned(Decimal(n) + rest) == Some((n, rest))
    ensures ScanUnsigned(" " + Decimal(n) + rest) == Some((n, rest))
  {
    hide Decimal, Value, TakeDigits;
    DecimalValue(n);
    TakeAllDigits(Decimal(n), rest);
    var s := Decimal(n) + rest;
    assert s[|Decimal(n)|..] == rest;
    assert s[0] == Decimal(n)[0] && IsDigit(s[0]);
    assert SkipSpaces(s) == s;
    var t := " " + Decimal(n) + rest;
    assert t[0] == ' ' && t[1..] == s;
    assert SkipSpaces(t) == s;
  }

  predicate IsWord(s: string) {
    forall i :: 0 <= i < |s| ==> !IsSpace(s[i]) && s[i] != '\0'
  }

  lemma {:induction false} TakeWholeWord(word: string, rest: string, room: nat)
    requires IsWord(word) && |word| <= room && rest != "" && IsSpace(rest[0])
    ensures TakeWord(word + rest, room) == word
  {
    if word == "" {
      assert word + rest == rest;
    } else {
      assert (word + rest)[1..] == word[1..] + rest;
      TakeWholeWord(word[1..], rest, room - 1);
    }
  }

  lemma ScanWholeWord(word: string, rest: string, room: nat)
    requires word != "" && IsWord(word) && |word| <= room && rest != "" && IsSpace(rest[0])
    ensures ScanWord(" " + word + rest, room) == Some((word, rest))
  {
    hide TakeWord;
    TakeWholeWord(word, rest, room);
    var s, t := word + rest, " " + word + rest;
    assert t[0] == ' ' && t[1..] == s && s[|word|..] == rest;
    assert s[0] == word[0];
    assert SkipSpaces(s) == s && SkipSpaces(t) == s;
  }

  /** A line of the printer: on one line, no NUL, short enough for the buffer. */
  predicate Printable(s: string) {
    forall i :: 0 <= i < |s| ==> s[i] != '\n' && s[i] != '\0'
  }

  lemma PrintableDecimal(n: nat)
    ensures Printable(Decimal(n))
  {
    DecimalValue(n);
    hide Decimal, Value;
  }

  lemma {:induction false} TakeWholeLine(line: string, rest: string, room: nat)
    requires Printable(line) && |line| < room
    ensures TakeLine(line + "\n" + rest, room) == line + "\n"
  {
    var s := line + "\n" + rest;
    if line == "" {
      assert s[0] == '\n';
    } else {
      assert s[1..] == line[1..] + "\n" + rest;
      TakeWholeLine(line[1..], rest, room - 1);
      assert line + "\n" == [line[0]] + (line[1..] + "\n");
    }
  }

  lemma {:induction false} WholeCString(s: string)
    requires forall i :: 0 <= i < |s| ==> s[i] != '\0'
    ensures CString(s) == s
  {
    if s != "" {
      WholeCString(s[1..]);
    }
  }

  /** The lines one after the other, without the buffer. */
  function ParseEach(o: Override, lines: seq<string>): (r: Option<Override>)
    requires |o.bindings| == MAX_SETS
    ensures r.Some? ==> |r.value.bindings| == MAX_SETS
    decreases |lines|
  {
    if lines == [] then Some(o)
    else
      var next :- ParseLine(o, lines[0] + "\n");
      ParseEach(next, lines[1..])
  }

  lemma {:induction false} ParseJoined(o: Override, lines: seq<string>)
    requires |o.bindings| == MAX_SETS
    requires forall i :: 0 <= i < |lines| ==> Printable(lines[i]) && |lines[i]| < LINE_ROOM
    ensures ParseLines(o, Joined(lines)) == ParseEach(o, lines)
    decreases |lines|
  {
    hide ParseLine, TakeLine;
    if lines != [] {
      var line, rest := lines[0] + "\n", Joined(lines[1..]);
      var text := line + rest;
      assert Joined(lines) == text;
      TakeWholeLine(lines[0], rest, LINE_ROOM);
      assert text[|line|..] == rest;
      var next := ParseLine(o, line);
      if next.Some? {
        ParseJoined(next.value, lines[1..]);
      }
    }
  }

  lemma {:induction false} ParseEachConcat(o: Override, a: seq<string>, b: seq<string>)
    requires |o.bindings| == MAX_SETS
    ensures ParseEach(o, a + b) ==
      if ParseEach(o, a).None? then None else ParseEach(ParseEach(o, a).value, b)
    decreases |a|
  {
    hide ParseLine;
    if a == [] {
      assert a + b == b;
    } else {
      assert (a + b)[1..] == a[1..] + b;
      var next := ParseLine(o, a[0] + "\n");
      if next.Some? {
        ParseEachConcat(next.value, a[1..], b);
      }
    }
  }

  lemma LineCursor(line: string)
    requires Printable(line) && line != "" && !IsSpace(line[0])
    ensures SkipSpaces(CString(line + "\n")) == line + "\n"
  {
    hide CString;
    var s := line + "\n";
    WholeCString(s);
    assert s[0] == line[0];
  }

  lemma ScanOwnKey(key: string, n: nat)
    requires n <= 0xffffffff
    ensures ScanKey(key + Decimal(n) + "\n", key) == Some(n)
  {
    hide ScanUnsigned, Decimal;
    var s := key + Decimal(n) + "\n";
    assert s == key + (Decimal(n) + "\n");
    assert s[..|key|] == key && s[|key|..] == Decimal(n) + "\n";
    ScanDecimal(n, "\n");
  }

  lemma OtherKey(s: string, key: string, i: nat)
    requires i < |s| && i < |key| && s[i] != key[i]
    ensures Literal(s, key).None?
  {
    if |key| <= |s| {
      assert s[..|key|][i] == s[i];
    }
  }

  predicate Letters(s: string) {
    forall i :: 0 <= i < |s| ==> s[i] == '_' || 'a' <= s[i] <= 'z'
  }

  lemma LettersAreWords(s: string)
    requires Letters(s)
    ensures IsWord(s) && Printable(s)
  {
  }

  lemma ShortTypeName(k: nat)
    requires k < 4
    ensures Letters(TypeName(k)) && 0 < |TypeName(k)| <= 22
  {
  }

  lemma MiddleTypeName(k: nat)
    requires 4 <= k < 8
    ensures Letters(TypeName(k)) && 0 < |TypeName(k)| <= 22
  {
  }

  lemma LongTypeName(k: nat)
    requires 8 <= k < TYPE_COUNT
    ensures Letters(TypeName(k)) && 0 < |TypeName(k)| <= 22
  {
  }

  lemma TypeNameIsWord(k: nat)
    requires k < TYPE_COUNT
    ensures IsWord(TypeName(k)) && Printable(TypeName(k)) && 0 < |TypeName(k)| <= 22
  {
    hide TypeName;
    if k < 4 {
      ShortTypeName(k);
    } else if k < 8 {
      MiddleTypeName(k);
    } else {
      LongTypeName(k);
    }
    LettersAreWords(TypeName(k));
  }

  lemma TypeNameIsRead(k: nat)
    requires k < TYPE_COUNT
    ensures DescriptorType(TypeName(k)) == Some(k)
  {
    assert |"sampler"| == 7 && |"combined_image_sampler"| == 22 && |"sampled_image"| == 13;
    assert |"storage_image"| == 13 && |"uniform_texel_buffer"| == 20 && |"storage_texel_buffer"| == 20;
    assert |"uniform_buffer"| == 14 && |"storage_buffer"| == 14 && |"uniform_buffer_dynamic"| == 22;
    assert |"storage_buffer_dynamic"| == 22 && |"input_attachment"| == 16;
    assert "sampled_image"[1] == 'a' && "storage_image"[1] == 't';
    assert "uniform_texel_buffer"[0] == 'u' && "storage_texel_buffer"[0] == 's';
    assert "uniform_buffer"[0] == 'u' && "storage_buffer"[0] == 's';
    assert "combined_image_sampler"[0] == 'c' && "uniform_buffer_dynamic"[0] == 'u' && "storage_buffer_dynamic"[0] == 's';
  }

  lemma KeysArePrintable()
    ensures Printable(SET_COUNT) && Printable(PUSH_CONSTANTS) && Printable(PIPELINE_FLAGS)
    ensures Printable(SUBGROUP_SIZE) && Printable(BINDING) && Printable(COMPUTE) && IsWord(COMPUTE)
    ensures |SET_COUNT| == 10 && |PUSH_CONSTANTS| == 15 && |PIPELINE_FLAGS| == 15
    ensures |SUBGROUP_SIZE| == 23 && |BINDING| == 7 && |COMPUTE| == 7
    ensures SET_COUNT[0] == 's' && PUSH_CONSTANTS[0] == 'p' && PUSH_CONSTANTS[1] == 'u'
    ensures PIPELINE_FLAGS[0] == 'p' && PIPELINE_FLAGS[1] == 'i' && SUBGROUP_SIZE[0] == 'r' && BINDING[0] == 'b'
  {
  }

  lemma CommentIsPrintable()
    ensures Printable(COMMENT) && |COMMENT| == 55 && COMMENT[0] == '#'
  {
    var a, b, c, d := "# Captured at the ", "actual vkCreate", "ComputePipelines", " call.";
    assert Printable(a) && Printable(b) && Printable(c) && Printable(d);
    assert COMMENT == a + b + c + d;
    assert a[0] == '#';
  }

  lemma BindingIsScanned(set_: nat, b: Binding)
    requires set_ <= 0xffffffff && b.number <= 0xffffffff && b.count <= 0xffffffff && b.descriptor < TYPE_COUNT
    ensures ScanBinding(BindingLine(set_, b) + "\n") ==
      Some(BindingFields(set_, b.number, TypeName(b.descriptor), b.count, COMPUTE))
  {
    hide ScanUnsigned, ScanWord, Decimal, TypeName;
    KeysArePrintable();
    TypeNameIsWord(b.descriptor);
    var r5 := "\n";
    var r4 := " " + COMPUTE + r5;
    var r3 := " " + Decimal(b.count) + r4;
    var r2 := " " + TypeName(b.descriptor) + r3;
    var r1 := " " + Decimal(b.number) + r2;
    var r0 := " " + Decimal(set_) + r1;
    var s := BindingLine(set_, b) + "\n";
    assert s == BINDING + r0;
    assert s[..|BINDING|] == BINDING && s[|BINDING|..] == r0;
    ScanDecimal(set_, r1);
    ScanDecimal(b.number, r2);
    ScanWholeWord(TypeName(b.descriptor), r3, 63);
    ScanDecimal(b.count, r4);
    ScanWholeWord(COMPUTE, r5, 31);
  }

  /** How the parser reads each kind of line the printer writes. */
  lemma BindingIsStored(o: Override, set_: nat, b: Binding)
    requires |o.bindings| == MAX_SETS && set_ < MAX_SETS && b.number < MAX_BINDINGS && b.descriptor < TYPE_COUNT
    requires 1 <= b.count <= 0xffffffff && |o.bindings[set_]| < MAX_BINDINGS
    requires Printable(BindingLine(set_, b))
    ensures ParseLine(o, BindingLine(set_, b) + "\n") ==
      Some(o.(bindings := o.bindings[set_ := o.bindings[set_] + [b]]))
  {
    var line := BindingLine(set_, b);
    KeysArePrintable();
    hide CString, SkipSpaces, ScanUnsigned, ScanBinding, DescriptorType, TypeName;
    assert line[0] == 'b';
    assert line + "\n" != "" && (line + "\n")[0] == 'b';
    LineCursor(line);
    OtherKey(line + "\n", SET_COUNT, 0);
    OtherKey(line + "\n", PUSH_CONSTANTS, 0);
    OtherKey(line + "\n", PIPELINE_FLAGS, 0);
    OtherKey(line + "\n", SUBGROUP_SIZE, 0);
    hide Literal;
    BindingIsScanned(set_, b);
    TypeNameIsRead(b.descriptor);
  }

  lemma KeyLines(o: Override, n: nat)
    requires |o.bindings| == MAX_SETS && n <= 0xffffffff
    requires Printable(SET_COUNT + Decimal(n)) && Printable(PUSH_CONSTANTS + Decimal(n))
    requires Printable(PIPELINE_FLAGS + Decimal(n)) && Printable(SUBGROUP_SIZE + Decimal(n))
    ensures ParseLine(o, SET_COUNT + Decimal(n) + "\n") == Some(o.(setCount := n))
    ensures ParseLine(o, PUSH_CONSTANTS + Decimal(n) + "\n") == Some(o.(pushCount := n))
    ensures ParseLine(o, PIPELINE_FLAGS + Decimal(n) + "\n") == Some(o.(flags := n))
    ensures ParseLine(o, SUBGROUP_SIZE + Decimal(n) + "\n") == Some(o.(subgroup := n))
  {
    KeysArePrintable();
    hide CString, SkipSpaces, ScanUnsigned, ScanBinding, Decimal;
    var a, b := SET_COUNT + Decimal(n), PUSH_CONSTANTS + Decimal(n);
    var c, d := PIPELINE_FLAGS + Decimal(n), SUBGROUP_SIZE + Decimal(n);
    assert a[0] == 's' && b[0] == c[0] == 'p' && b[1] == 'u' && c[1] == 'i' && d[0] == 'r';
    LineCursor(a);
    LineCursor(b);
    LineCursor(c);
    LineCursor(d);
    ScanOwnKey(SET_COUNT, n);
    ScanOwnKey(PUSH_CONSTANTS, n);
    ScanOwnKey(PIPELINE_FLAGS, n);
    ScanOwnKey(SUBGROUP_SIZE, n);
    OtherKey(b + "\n", SET_COUNT, 0);
    OtherKey(c + "\n", SET_COUNT, 0);
    OtherKey(c + "\n", PUSH_CONSTANTS, 1);
    OtherKey(d + "\n", SET_COUNT, 0);
    OtherKey(d + "\n", PUSH_CONSTANTS, 0);
    OtherKey(d + "\n", PIPELINE_FLAGS, 0);
  }

  lemma CommentIsSkipped(o: Override)
    requires |o.bindings| == MAX_SETS
    ensures ParseLine(o, COMMENT + "\n") == Some(o)
  {
    CommentIsPrintable();
    hide CString, SkipSpaces, ScanKey, ScanBinding;
    LineCursor(COMMENT);
    assert (COMMENT + "\n")[0] == '#';
  }

  predicate Fits(line: string) {
    Printable(line) && |line| < LINE_ROOM
  }

  lemma BindingFits(set_: nat, b: Binding)
    requires set_ < 10 && b.number < 100 && b.count < 10000 && b.descriptor < TYPE_COUNT
    ensures Fits(BindingLine(set_, b))
  {
    KeysArePrintable();
    TypeNameIsWord(b.descriptor);
    PrintableDecimal(set_);
    PrintableDecimal(b.number);
    PrintableDecimal(b.count);
    DecimalLength(set_, 1, 10);
    DecimalLength(b.number, 2, 100);
    DecimalLength(b.count, 4, 10000);
    hide Decimal, TypeName;
  }

  lemma KeyFits(key: string, n: nat)
    requires Printable(key) && |key| <= 23 && n <= 0xffffffff
    ensures Fits(key + Decimal(n))
  {
    PrintableDecimal(n);
    DecimalLength(n, 10, 10000000000);
    hide Decimal;
  }

  /** The sets read after the first `n`: the others are still empty. */
  function Filled(sets: seq<seq<Binding>>, n: nat): (r: seq<seq<Binding>>)
    requires n <= |sets| <= MAX_SETS
    ensures |r| == MAX_SETS && r[..n] == sets[..n] && forall i :: n <= i < MAX_SETS ==> r[i] == []
  {
    sets[..n] + ZERO.bindings[n..]
  }

  lemma HeaderFits(c: Capture)
    requires Validated(c)
    ensures forall i :: 0 <= i < |HeaderLines(c)| ==> Fits(HeaderLines(c)[i])
  {
    KeysArePrintable();
    CommentIsPrintable();
    KeyFits(SET_COUNT, |c.sets|);
    KeyFits(PUSH_CONSTANTS, 0);
    KeyFits(PIPELINE_FLAGS, c.flags);
    KeyFits(SUBGROUP_SIZE, c.subgroup);
    assert Decimal(0) == "0";
    hide Decimal, Printable;
  }

  lemma PrintableKeys(n: nat)
    ensures Printable(SET_COUNT + Decimal(n)) && Printable(PUSH_CONSTANTS + Decimal(n))
    ensures Printable(PIPELINE_FLAGS + Decimal(n)) && Printable(SUBGROUP_SIZE + Decimal(n))
  {
    KeysArePrintable();
    PrintableDecimal(n);
    hide Decimal;
  }

  lemma ParseFirst(o: Override, line: string, rest: seq<string>)
    requires |o.bindings| == MAX_SETS && ParseLine(o, line + "\n").Some?
    ensures ParseEach(o, [line] + rest) == ParseEach(ParseLine(o, line + "\n").value, rest)
  {
    hide ParseLine;
    assert ([line] + rest)[1..] == rest;
  }

  predicate Reads(o: Override, line: string, next: Override)
    requires |o.bindings| == MAX_SETS
  {
    ParseLine(o, line + "\n") == Some(next)
  }

  lemma FiveLines(o: Override, p: Override, q: Override, r: Override, a: string, b: string, c: string, d: string, e: string)
    requires |o.bindings| == |p.bindings| == |q.bindings| == MAX_SETS
    requires Reads(o, a, o) && Reads(o, b, p) && Reads(p, c, p) && Reads(p, d, q) && Reads(q, e, r)
    ensures ParseEach(o, [a, b, c, d, e]) == Some(r)
  {
    hide ParseLine;
    assert ParseEach(r, []) == Some(r);
    hide ParseEach;
    ParseFirst(q, e, []);
    ParseFirst(p, d, [e] + []);
    ParseFirst(p, c, [d] + ([e] + []));
    ParseFirst(o, b, [c] + ([d] + ([e] + [])));
    ParseFirst(o, a, [b] + ([c] + ([d] + ([e] + []))));
    assert [a, b, c, d, e] == [a] + ([b] + ([c] + ([d] + ([e] + []))));
  }

  lemma HeaderIsRead(c: Capture)
    requires Validated(c)
    ensures ParseEach(ZERO, HeaderLines(c)) == Some(Override(|c.sets|, 0, c.flags, c.subgroup, ZERO.bindings))
  {
    assert Decimal(0) == "0";
    PrintableKeys(|c.sets|);
    PrintableKeys(0);
    PrintableKeys(c.flags);
    PrintableKeys(c.subgroup);
    hide ParseLine, Decimal, Printable, ParseEach;
    var o1 := ZERO.(setCount := |c.sets|);
    var o3 := o1.(flags := c.flags);
    var o4 := o3.(subgroup := c.subgroup);
    CommentIsSkipped(ZERO);
    KeyLines(ZERO, |c.sets|);
    KeyLines(o1, 0);
    KeyLines(o1, c.flags);
    KeyLines(o3, c.subgroup);
    FiveLines(ZERO, o1, o3, o4, COMMENT, SET_COUNT + Decimal(|c.sets|), PUSH_CONSTANTS + "0",
              PIPELINE_FLAGS + Decimal(c.flags), SUBGROUP_SIZE + Decimal(c.subgroup));
  }

  lemma {:induction false} SetIsRead(o: Override, set_: nat, s: seq<Binding>, k: nat)
    requires |o.bindings| == MAX_SETS && set_ < MAX_SETS && o.bindings[set_] == []
    requires ValidSet(s) && k <= |s|
    ensures ParseEach(o, SetLines(set_, s)[..k]) == Some(o.(bindings := o.bindings[set_ := s[..k]]))
    decreases k
  {
    hide ParseLine, BindingLine;
    var lines := SetLines(set_, s);
    if k == 0 {
      assert o.bindings[set_ := s[..0]] == o.bindings;
    } else {
      SetIsRead(o, set_, s, k - 1);
      var last := lines[k - 1];
      assert lines[..k] == lines[..k - 1] + [last];
      ParseEachConcat(o, lines[..k - 1], [last]);
      BindingFits(set_, s[k - 1]);
      var before := o.(bindings := o.bindings[set_ := s[..k - 1]]);
      BindingIsStored(before, set_, s[k - 1]);
      assert s[..k - 1] + [s[k - 1]] == s[..k];
      assert [last][1..] == [];
      assert before.bindings[set_ := s[..k]] == o.bindings[set_ := s[..k]];
    }
  }

  lemma {:induction false} SetsAreRead(o: Override, sets: seq<seq<Binding>>, from: nat)
    requires from <= |sets| <= MAX_SETS && KnownTypes(sets)
    requires forall i :: 0 <= i < |sets| ==> ValidSet(sets[i])
    requires |o.bindings| == MAX_SETS && o.bindings == Filled(sets, from)
    ensures ParseEach(o, BindingLines(sets, from)) == Some(o.(bindings := Filled(sets, |sets|)))
    decreases |sets| - from
  {
    hide ParseLine, BindingLine, ValidSet;
    if from < |sets| {
      var lines := SetLines(from, sets[from]);
      SetIsRead(o, from, sets[from], |sets[from]|);
      assert lines[..|sets[from]|] == lines && sets[from][..|sets[from]|] == sets[from];
      var next := o.(bindings := o.bindings[from := sets[from]]);
      assert next.bindings == Filled(sets, from + 1);
      ParseEachConcat(o, lines, BindingLines(sets, from + 1));
      SetsAreRead(next, sets, from + 1);
    }
  }

  lemma {:induction false} BindingsFit(sets: seq<seq<Binding>>, from: nat)
    requires from <= |sets| <= MAX_SETS && KnownTypes(sets)
    requires forall i :: 0 <= i < |sets| ==> ValidSet(sets[i])
    ensures forall i :: 0 <= i < |BindingLines(sets, from)| ==> Fits(BindingLines(sets, from)[i])
    decreases |sets| - from
  {
    hide Fits, BindingLine;
    if from < |sets| {
      forall i | 0 <= i < |sets[from]|
        ensures Fits(SetLines(from, sets[from])[i])
      {
        BindingFits(from, sets[from][i]);
      }
      BindingsFit(sets, from + 1);
    }
  }

  /** Every validated capture comes back: same sets, binding order, types,
      counts, pipeline flags and subgroup size, and no push constants. */
  lemma RoundTrip(c: Capture)
    requires Validated(c)
    ensures Parse(Text(c)) == Some(Override(|c.sets|, 0, c.flags, c.subgroup, Filled(c.sets, |c.sets|)))
  {
    hide ParseLines, ParseEach, Joined, Printable, ValidSet, Decimal, BindingLine;
    var header, bindings := HeaderLines(c), BindingLines(c.sets, 0);
    HeaderIsRead(c);
    HeaderFits(c);
    BindingsFit(c.sets, 0);
    hide HeaderLines;
    var lines := header + bindings;
    assert forall i :: 0 <= i < |lines| ==> Fits(lines[i]);
    ParseJoined(ZERO, lines);
    ParseEachConcat(ZERO, header, bindings);
    var o := Override(|c.sets|, 0, c.flags, c.subgroup, ZERO.bindings);
    assert o.bindings == Filled(c.sets, 0);
    SetsAreRead(o, c.sets, 0);
    var final := o.(bindings := Filled(c.sets, |c.sets|));
    forall i | 0 <= i < |c.sets|
      ensures final.bindings[i] != []
    {
      assert final.bindings[i] == final.bindings[..|c.sets|][i] == c.sets[i];
      assert ValidSet(c.sets[i]) && |c.sets[i]| >= 1 by { NonemptySet(c, i); }
    }
  }

  lemma NonemptySet(c: Capture, i: nat)
    requires Validated(c) && i < |c.sets|
    ensures ValidSet(c.sets[i]) && |c.sets[i]| >= 1
  {
  }

  /** So the file determines the captured layout. */
  lemma TextIsInjective(a: Capture, b: Capture)
    requires Validated(a) && Validated(b)
    requires Text(a) == Text(b)
    ensures a == b
  {
    hide Parse, Text;
    RoundTrip(a);
    RoundTrip(b);
    assert a.sets == Filled(a.sets, |a.sets|)[..|a.sets|];
    assert b.sets == Filled(b.sets, |b.sets|)[..|b.sets|];
  }

  class LayoutOverride {
    var setCount: nat
    var pushCount: nat
    var flags: nat
    var subgroup: nat
    const counts: array<nat>
    const slots: array2<Binding>

    ghost predicate Valid()
      reads counts
    {
      && counts.Length == MAX_SETS && slots.Length0 == MAX_SETS && slots.Length1 == MAX_BINDINGS
      && forall i :: 0 <= i < MAX_SETS ==> counts[i] <= MAX_BINDINGS
    }

    /** The first `n` stored bindings of set `i`. */
    ghost function Row(i: nat, n: nat): (r: seq<Binding>)
      requires i < slots.Length0 && n <= slots.Length1
      reads slots
      ensures |r| == n && forall j :: 0 <= j < n ==> r[j] == slots[i, j]
    {
      if n == 0 then [] else Row(i, n - 1) + [slots[i, n - 1]]
    }

    ghost function Rows(n: nat): (r: seq<seq<Binding>>)
      requires Valid() && n <= MAX_SETS
      reads counts, slots
      ensures |r| == n && forall i :: 0 <= i < n ==> r[i] == Row(i, counts[i])
    {
      if n == 0 then [] else Rows(n - 1) + [Row(n - 1, counts[n - 1])]
    }

    ghost function View(): (o: Override)
      requires Valid()
      reads this, counts, slots
      ensures |o.bindings| == MAX_SETS
    {
      Override(setCount, pushCount, flags, subgroup, Rows(MAX_SETS))
    }

    constructor ()
      ensures Valid() && fresh(counts) && fresh(slots) && View() == ZERO
    {
      setCount, pushCount, flags, subgroup := 0, 0, 0, 0;
      counts := new nat[MAX_SETS](i => 0);
      slots := new Binding[MAX_SETS, MAX_BINDINGS]((i, j) => Binding(0, 0, 0));
      new;
      assert View().bindings == ZERO.bindings;
    }

    /** Stores one binding at the end of its set. */
    method Append(f: BindingFields) returns (ok: bool)
      requires Valid()
      modifies counts, slots
      ensures Valid()
      ensures !ok ==> View() == old(View())
      ensures ok <==> AddBinding(old(View()), f).Some?
      ensures ok ==> View() == AddBinding(old(View()), f).value
    {
      if f.set_ >= MAX_SETS || f.number >= MAX_BINDINGS || counts[f.set_] >= MAX_BINDINGS
         || f.count == 0 || f.stage != COMPUTE {
        return false;
      }
      var descriptor := DescriptorType(f.name);
      if descriptor.None? {
        return false;
      }
      ghost var before := View();
      slots[f.set_, counts[f.set_]] := Binding(f.number, descriptor.value, f.count);
      counts[f.set_] := counts[f.set_] + 1;
      ghost var after := AddBinding(before, f).value.bindings;
      forall i | 0 <= i < MAX_SETS
        ensures Row(i, counts[i]) == after[i]
      {
        assert i != f.set_ ==> Row(i, counts[i]) == before.bindings[i];
        assert Row(i, counts[i]) == after[i];
      }
      assert View().bindings == after;
      ok := true;
    }

    /** `parse_layout_override` on a freshly zeroed structure. */
    method ParseFile(text: Option<string>) returns (ok: bool)
      requires Valid() && View() == ZERO
      modifies this, counts, slots
      ensures Valid()
      ensures ok <==> text.Some? && Parse(text.value).Some?
      ensures ok ==> View() == Parse(text.value).value
    {
      hide CString, SkipSpaces, ScanKey, ScanBinding, AddBinding;
      if text.None? {
        return false;
      }
      var rest := text.value;
      while rest != ""
        invariant Valid()
        invariant ParseLines(View(), rest) == ParseLines(ZERO, text.value)
        decreases |rest|
      {
        var line := TakeLine(rest, LINE_ROOM);
        rest := rest[|line|..];
        var cursor := SkipSpaces(CString(line));
        if cursor == "" || cursor[0] == '#' {
          continue;
        }
        var value := ScanKey(cursor, SET_COUNT);
        if value.Some? {
          setCount := value.value;
          continue;
        }
        value := ScanKey(cursor, PUSH_CONSTANTS);
        if value.Some? {
          pushCount := value.value;
          continue;
        }
        value := ScanKey(cursor, PIPELINE_FLAGS);
        if value.Some? {
          flags := value.value;
          continue;
        }
        value := ScanKey(cursor, SUBGROUP_SIZE);
        if value.Some? {
          subgroup := value.value;
          continue;
        }
        var fields := ScanBinding(cursor);
        if fields.None? {
          return false;
        }
        var stored := Append(fields.value);
        if !stored {
          return false;
        }
      }
      if setCount == 0 || setCount > MAX_SETS {
        return false;
      }
      for i := 0 to setCount
        invariant forall j :: 0 <= j < i ==> counts[j] != 0
      {
        if counts[i] == 0 {
          assert View().bindings[i] == [];
          return false;
        }
      }
      assert forall j :: 0 <= j < setCount ==> |View().bindings[j]| == counts[j];
      ok := true;
    }
  }
}
