/** The two SPIR-V instruction walkers: over 32-bit words
    (analyze_vulkan_driver_entries.py) and over bytes (check-shader-output.py).
    The physical layout is that of the SPIR-V specification, section 2.3. */
module Spirv {
  import opened Wrappers

  const MAGIC: Word := 0x07230203
  const ENTRY_POINT := 15
  const MAX_BYTES := 2 * 1024 * 1024

  newtype Word = x: int | 0 <= x < 0x1_0000_0000

  datatype Instruction = Instruction(opcode: int, operands: seq<Word>)

  /** The little-endian word at a byte offset. */
  function WordAt(data: Bytes, at: nat): Word
    requires at + 4 <= |data|
  {
    (data[at] as int + 256 * data[at + 1] as int + 65536 * data[at + 2] as int + 16777216 * data[at + 3] as int) as Word
  }

  function WordBytes(w: Word): (r: Bytes)
    ensures |r| == 4
  {
    var n := w as int;
    [(n % 256) as Byte, (n / 256 % 256) as Byte, (n / 65536 % 256) as Byte, (n / 16777216) as Byte]
  }

  lemma Digits(b: nat, rest: nat)
    requires b < 256
    ensures (b + 256 * rest) % 256 == b && (b + 256 * rest) / 256 == rest
  {
  }

  lemma NestedDivisions(n: nat)
    ensures n / 65536 == n / 256 / 256 && n / 16777216 == n / 256 / 256 / 256
  {
  }

  lemma BytesOfWord(data: Bytes, at: nat)
    requires at + 4 <= |data|
    ensures WordBytes(WordAt(data, at)) == data[at..at + 4]
  {
    var b0, b1, b2, b3 := data[at] as nat, data[at + 1] as nat, data[at + 2] as nat, data[at + 3] as nat;
    var n := WordAt(data, at) as int;
    Digits(b0, b1 + 256 * (b2 + 256 * b3));
    Digits(b1, b2 + 256 * b3);
    Digits(b2, b3);
    NestedDivisions(n);
  }

  lemma WordOfBytes(w: Word)
    ensures WordAt(WordBytes(w), 0) == w
  {
    var n := w as int;
    NestedDivisions(n);
  }

  /** `struct.unpack` of the whole file. */
  function Words(data: Bytes): (r: seq<Word>)
    requires |data| % 4 == 0
    ensures |r| == |data| / 4
    ensures forall i :: 0 <= i < |r| ==> r[i] == WordAt(data, 4 * i)
  {
    seq(|data| / 4, i requires 0 <= i < |data| / 4 => WordAt(data, 4 * i))
  }

  function WordsBytes(words: seq<Word>): (r: Bytes)
    ensures |r| == 4 * |words|
  {
    if words == [] then [] else WordBytes(words[0]) + WordsBytes(words[1..])
  }

  /** The two halves of an instruction's first word. */
  function Opcode(w: Word): (r: nat)
    ensures r < 65536
  {
    w as int % 65536
  }

  function Length(w: Word): (r: nat)
    ensures r < 65536
  {
    w as int / 65536
  }

  // ------------------------------------------------- reference encoding

  predicate WellFormed(i: Instruction) {
    0 <= i.opcode < 65536 && 1 + |i.operands| < 65536
  }

  function FirstWord(i: Instruction): (w: Word)
    requires WellFormed(i)
    ensures Opcode(w) == i.opcode && Length(w) == 1 + |i.operands|
  {
    ((1 + |i.operands|) * 65536 + i.opcode) as Word
  }

  function Encode(instructions: seq<Instruction>): seq<Word>
    requires forall i :: i in instructions ==> WellFormed(i)
  {
    if instructions == [] then []
    else
      var first := instructions[0];
      [FirstWord(first)] + first.operands + Encode(instructions[1..])
  }

  function InstructionAt(words: seq<Word>, offset: nat): Instruction
    requires offset < |words| && 0 < Length(words[offset]) <= |words| - offset
  {
    Instruction(Opcode(words[offset]), words[offset + 1..offset + Length(words[offset])])
  }

  /** The instructions from a word offset on; None where a walker raises. */
  function Decode(words: seq<Word>, offset: nat): Option<seq<Instruction>>
    requires offset <= |words|
    decreases |words| - offset
  {
    if offset == |words| then Some([])
    else
      var length := Length(words[offset]);
      if length == 0 || offset + length > |words| then None
      else
        var rest :- Decode(words, offset + length);
        Some([InstructionAt(words, offset)] + rest)
  }

  /** Every well-formed instruction stream is recovered from its words. */
  lemma {:induction false} DecodeEncode(prefix: seq<Word>, instructions: seq<Instruction>)
    requires forall i :: i in instructions ==> WellFormed(i)
    ensures Decode(prefix + Encode(instructions), |prefix|) == Some(instructions)
    decreases |instructions|
  {
    var words := prefix + Encode(instructions);
    hide FirstWord, Opcode, Length;
    if instructions != [] {
      var first := instructions[0];
      var head := [FirstWord(first)] + first.operands;
      var next := prefix + head;
      assert words == next + Encode(instructions[1..]);
      DecodeEncode(next, instructions[1..]);
      assert words[|prefix|] == FirstWord(first);
      assert words[|prefix| + 1..|next|] == first.operands;
      assert instructions == [first] + instructions[1..];
    }
  }

  /** Conversely an accepted stream is nothing but its instructions: no word is
      skipped, shared or left over. */
  lemma {:induction false} EncodeDecode(words: seq<Word>, offset: nat)
    requires offset <= |words| && Decode(words, offset).Some?
    ensures forall i :: i in Decode(words, offset).value ==> WellFormed(i)
    ensures Encode(Decode(words, offset).value) == words[offset..]
    decreases |words| - offset
  {
    if offset < |words| {
      var length := Length(words[offset]);
      var all := Decode(words, offset).value;
      EncodeDecode(words, offset + length);
      assert all[1..] == Decode(words, offset + length).value;
      assert FirstWord(all[0]) == words[offset];
      assert words[offset..] == [words[offset]] + words[offset + 1..offset + length] + words[offset + length..];
    }
  }

  /** A walk that has already stepped over `seen`. */
  function Prepend(seen: seq<Instruction>, rest: Option<seq<Instruction>>): Option<seq<Instruction>> {
    if rest.None? then None else Some(seen + rest.value)
  }

  lemma PrependStep(seen: seq<Instruction>, i: Instruction, rest: Option<seq<Instruction>>)
    ensures Prepend(seen + [i], rest) == Prepend(seen, Prepend([i], rest))
    ensures rest.Some? ==> i in Prepend(seen + [i], rest).value
  {
    if rest.Some? {
      assert seen + [i] + rest.value == seen + ([i] + rest.value);
      assert (seen + [i] + rest.value)[|seen|] == i;
    }
  }

  lemma PrependEnds(seen: seq<Instruction>, rest: Option<seq<Instruction>>)
    ensures Prepend(seen, Some([])) == Some(seen)
    ensures Prepend([], rest) == rest
  {
    assert seen + [] == seen;
    assert rest.Some? ==> [] + rest.value == rest.value;
  }

  /** One step of the word walk: a bad length ends it, a good one consumes one
      instruction. */
  lemma WalkStep(words: seq<Word>, seen: seq<Instruction>, offset: nat)
    requires offset < |words|
    ensures var length := Length(words[offset]);
      if length == 0 || offset + length > |words| then Decode(words, offset).None?
      else
        var i := InstructionAt(words, offset);
        && Prepend(seen, Decode(words, offset)) == Prepend(seen + [i], Decode(words, offset + length))
        && (Decode(words, offset).Some? ==> i in Prepend(seen, Decode(words, offset)).value)
  {
    hide Length, Opcode;
    var length := Length(words[offset]);
    if length != 0 && offset + length <= |words| {
      PrependStep(seen, InstructionAt(words, offset), Decode(words, offset + length));
    }
  }

  lemma DecodeEnd(words: seq<Word>)
    ensures Decode(words, |words|) == Some([])
  {
  }

  // -------------------------------------------------- the byte walker

  /** `count` words read one by one from a byte offset. */
  function WordsAt(data: Bytes, at: nat, count: nat): (r: seq<Word>)
    requires at + 4 * count <= |data|
    ensures |r| == count
    ensures forall i :: 0 <= i < count ==> r[i] == WordAt(data, at + 4 * i)
  {
    seq(count, i requires 0 <= i < count => WordAt(data, at + 4 * i))
  }

  /** The instructions the byte walker steps over, from a byte offset on. */
  function DecodeBytes(data: Bytes, offset: nat): Option<seq<Instruction>>
    requires |data| % 4 == 0 && offset % 4 == 0 && offset <= |data|
    decreases |data| - offset
  {
    hide WordAt, Opcode, Length;
    if offset == |data| then Some([])
    else
      var count, opcode := Length(WordAt(data, offset)), Opcode(WordAt(data, offset));
      if count == 0 || offset + count * 4 > |data| then None
      else
        var rest :- DecodeBytes(data, offset + count * 4);
        Some([Instruction(opcode, WordsAt(data, offset + 4, count - 1))] + rest)
  }

  lemma SameOperands(data: Bytes, at: nat, count: nat)
    requires |data| % 4 == 0 && at + count <= |data| / 4
    ensures WordsAt(data, 4 * at, count) == Words(data)[at..at + count]
  {
  }

  /** Both walkers stop at the same boundaries and accept the same files. */
  lemma {:induction false} WalkersAgree(data: Bytes, at: nat)
    requires |data| % 4 == 0 && at <= |data| / 4
    ensures DecodeBytes(data, 4 * at) == Decode(Words(data), at)
    decreases |data| - at
  {
    hide WordAt, Opcode, Length;
    if at < |data| / 4 {
      var words := Words(data);
      var count := Length(words[at]);
      if count != 0 && at + count <= |words| {
        assert 4 * at + count * 4 == 4 * (at + count);
        WalkersAgree(data, at + count);
        SameOperands(data, at + 1, count - 1);
      }
    }
  }

  lemma {:induction false} WordsOfBytes(words: seq<Word>)
    ensures Words(WordsBytes(words)) == words
  {
    if words != [] {
      WordsOfBytes(words[1..]);
      var data, tail := WordsBytes(words), WordsBytes(words[1..]);
      WordOfBytes(words[0]);
      forall i | 0 <= i < |words|
        ensures WordAt(data, 4 * i) == words[i]
      {
        if i > 0 {
          assert data[4..] == tail;
          assert data[4 * i..4 * i + 4] == tail[4 * (i - 1)..4 * (i - 1) + 4];
          assert WordAt(data, 4 * i) == WordAt(tail, 4 * (i - 1)) == Words(tail)[i - 1];
        }
      }
    }
  }

  /** Encoding a module to bytes and walking it either way gives it back. */
  lemma ModuleRoundTrip(header: seq<Word>, instructions: seq<Instruction>)
    requires |header| == 5
    requires forall i :: i in instructions ==> WellFormed(i)
    ensures var data := WordsBytes(header + Encode(instructions));
      Decode(Words(data), 5) == Some(instructions) && DecodeBytes(data, 20) == Some(instructions)
  {
    WordsOfBytes(header + Encode(instructions));
    DecodeEncode(header, instructions);
    WalkersAgree(WordsBytes(header + Encode(instructions)), 5);
  }

  // ---------------------------------------------------- the two checks

  /** `split(b"\0", 1)[0]` */
  function UntilNul(data: Bytes): Bytes {
    if data == [] || data[0] == 0 then [] else [data[0]] + UntilNul(data[1..])
  }

  predicate NamedEntry(ascii: Bytes -> Option<string>, i: Instruction) {
    |i.operands| >= 3 && ascii(UntilNul(WordsBytes(i.operands[2..]))).Some?
  }

  /** The execution model and name an OpEntryPoint declares. */
  function EntryOf(ascii: Bytes -> Option<string>, i: Instruction): (Word, string)
    requires NamedEntry(ascii, i)
  {
    (i.operands[0], ascii(UntilNul(WordsBytes(i.operands[2..]))).value)
  }

  function Entries(ascii: Bytes -> Option<string>, instructions: seq<Instruction>): Option<set<(Word, string)>> {
    if instructions == [] then Some({})
    else
      var i := instructions[|instructions| - 1];
      var before :- Entries(ascii, instructions[..|instructions| - 1]);
      if i.opcode != ENTRY_POINT then Some(before)
      else if !NamedEntry(ascii, i) then None
      else Some(before + {EntryOf(ascii, i)})
  }

  /** What the recursion computes: every entry point must be named, and the
      result is exactly the set of their declarations. */
  lemma {:induction false} EntriesAreTheDeclarations(ascii: Bytes -> Option<string>, s: seq<Instruction>)
    ensures Entries(ascii, s).Some? <==> forall i :: i in s && i.opcode == ENTRY_POINT ==> NamedEntry(ascii, i)
    ensures Entries(ascii, s).Some? ==>
      forall e :: e in Entries(ascii, s).value <==>
        exists i :: i in s && i.opcode == ENTRY_POINT && NamedEntry(ascii, i) && EntryOf(ascii, i) == e
  {
    if s != [] {
      var last := s[|s| - 1];
      EntriesAreTheDeclarations(ascii, s[..|s| - 1]);
      assert s == s[..|s| - 1] + [last];
      assert last in s;
    }
  }

  lemma UnnamedEntry(ascii: Bytes -> Option<string>, s: Option<seq<Instruction>>, i: Instruction)
    requires s.Some? ==> i in s.value
    requires i.opcode == ENTRY_POINT && !NamedEntry(ascii, i)
    ensures s.Some? ==> Entries(ascii, s.value).None?
  {
    if s.Some? {
      EntriesAreTheDeclarations(ascii, s.value);
    }
  }

  lemma {:induction false} SliceBytes(data: Bytes, from: nat, to: nat)
    requires |data| % 4 == 0 && from <= to <= |data| / 4
    ensures WordsBytes(Words(data)[from..to]) == data[4 * from..4 * to]
    decreases |data| / 4 - from
  {
    if from < to {
      SliceBytes(data, from + 1, to);
      var s := Words(data)[from..to];
      assert s[1..] == Words(data)[from + 1..to];
      BytesOfWord(data, 4 * from);
      hide WordAt, WordBytes;
      assert data[4 * from..4 * to] == data[4 * from..4 * from + 4] + data[4 * (from + 1)..4 * to];
    }
  }

  /** The bytes the source slices out as a name are those of the operands. */
  lemma NameBytes(data: Bytes, offset: nat)
    requires |data| % 4 == 0 && offset < |data| / 4
    requires 4 <= Length(Words(data)[offset]) <= |data| / 4 - offset
    ensures data[(offset + 3) * 4..(offset + Length(Words(data)[offset])) * 4]
      == WordsBytes(InstructionAt(Words(data), offset).operands[2..])
  {
    hide WordAt, Opcode, Length;
    var words := Words(data);
    var to := offset + Length(words[offset]);
    SliceBytes(data, offset + 3, to);
    assert InstructionAt(words, offset).operands[2..] == words[offset + 3..to];
  }

  lemma EntriesEmpty(ascii: Bytes -> Option<string>)
    ensures Entries(ascii, []) == Some({})
  {
  }

  lemma EntriesAppend(ascii: Bytes -> Option<string>, s: seq<Instruction>, i: Instruction)
    requires Entries(ascii, s).Some?
    requires i.opcode == ENTRY_POINT ==> NamedEntry(ascii, i)
    ensures Entries(ascii, s + [i]) ==
      Some(if i.opcode == ENTRY_POINT then Entries(ascii, s).value + {EntryOf(ascii, i)} else Entries(ascii, s).value)
  {
    assert (s + [i])[..|s|] == s;
  }

  /** The entry points a file declares; None where `spirv_entries` raises. */
  function DeclaredEntries(data: Bytes, ascii: Bytes -> Option<string>): Option<set<(Word, string)>> {
    if 20 <= |data| <= MAX_BYTES && |data| % 4 == 0 && Words(data)[0] == MAGIC then
      var instructions :- Decode(Words(data), 5);
      Entries(ascii, instructions)
    else None
  }

  /** `spirv_entries` */
  method SpirvEntries(data: Bytes, ascii: Bytes -> Option<string>) returns (r: Option<set<(Word, string)>>)
    ensures r == DeclaredEntries(data, ascii)
  {
    hide WordAt, WordsBytes, UntilNul, Length, Opcode, Entries, Decode;
    if |data| < 20 || |data| > MAX_BYTES || |data| % 4 != 0 {
      return None;
    }
    var words := Words(data);
    if words[0] != MAGIC {
      return None;
    }
    var entries: set<(Word, string)> := {};
    var offset := 5;
    ghost var seen: seq<Instruction> := [];
    ghost var total := Decode(words, 5);
    PrependEnds([], total);
    assert Entries(ascii, []) == Some({}) by { EntriesEmpty(ascii); }
    while offset < |words|
      invariant 5 <= offset <= |words|
      invariant Entries(ascii, seen) == Some(entries)
      invariant total == Prepend(seen, Decode(words, offset))
    {
      var opcode, length := Opcode(words[offset]), Length(words[offset]);
      WalkStep(words, seen, offset);
      if length == 0 || offset + length > |words| {
        return None;
      }
      ghost var i := InstructionAt(words, offset);
      if opcode == ENTRY_POINT {
        if length < 4 {
          UnnamedEntry(ascii, total, i);
          return None;
        }
        NameBytes(data, offset);
        var name := ascii(UntilNul(data[(offset + 3) * 4..(offset + length) * 4]));
        if name.None? {
          UnnamedEntry(ascii, total, i);
          return None;
        }
        entries := entries + {(words[offset + 1], name.value)};
      }
      EntriesAppend(ascii, seen, i);
      seen := seen + [i];
      offset := offset + length;
    }
    assert Decode(words, offset) == Some([]) by { DecodeEnd(words); }
    PrependEnds(seen, None);
    r := Some(entries);
  }

  /** The header fields `check_spirv` accepts. */
  predicate ValidHeader(data: Bytes)
    requires |data| >= 20
  {
    && WordAt(data, 0) == MAGIC && 0x00010000 <= WordAt(data, 4) <= 0x00010600
    && WordAt(data, 12) != 0 && WordAt(data, 16) == 0
  }

  predicate HasEntryPoint(instructions: seq<Instruction>) {
    exists i :: i in instructions && i.opcode == ENTRY_POINT
  }

  /** `check_spirv` accepts: a valid header, then whole instructions up to the
      last byte, at least one of them an entry point. */
  predicate AcceptedModule(data: Bytes) {
    hide WordAt;
    && 20 <= |data| && |data| % 4 == 0 && ValidHeader(data)
    && DecodeBytes(data, 20).Some? && HasEntryPoint(DecodeBytes(data, 20).value)
  }

  /** One step of the byte walk. */
  lemma ByteStep(data: Bytes, seen: seq<Instruction>, offset: nat)
    requires |data| % 4 == 0 && offset % 4 == 0 && offset < |data|
    ensures var count, opcode := Length(WordAt(data, offset)), Opcode(WordAt(data, offset));
      if count == 0 || offset + count * 4 > |data| then DecodeBytes(data, offset).None?
      else
        Prepend(seen, DecodeBytes(data, offset)) ==
          Prepend(seen + [Instruction(opcode, WordsAt(data, offset + 4, count - 1))], DecodeBytes(data, offset + count * 4))
  {
    hide WordAt, Opcode, Length;
    var count, opcode := Length(WordAt(data, offset)), Opcode(WordAt(data, offset));
    if count != 0 && offset + count * 4 <= |data| {
      var i := Instruction(opcode, WordsAt(data, offset + 4, count - 1));
      PrependStep(seen, i, DecodeBytes(data, offset + count * 4));
    }
  }

  lemma EntryPointAppend(seen: seq<Instruction>, i: Instruction)
    ensures HasEntryPoint(seen + [i]) <==> HasEntryPoint(seen) || i.opcode == ENTRY_POINT
  {
    assert forall j :: j in seen + [i] <==> j in seen || j == i;
  }

  lemma BytesEnd(data: Bytes)
    requires |data| % 4 == 0
    ensures DecodeBytes(data, |data|) == Some([])
  {
  }

  /** `check_spirv`: false where it raises. */
  method CheckSpirv(data: Bytes) returns (ok: bool)
    ensures ok <==> AcceptedModule(data)
  {
    hide WordAt, Opcode, Length, DecodeBytes, HasEntryPoint, ValidHeader;
    if |data| < 20 || |data| % 4 != 0 || !ValidHeader(data) {
      return false;
    }
    PrependEnds([], DecodeBytes(data, 20));
    var offset, entryPoint := 20, false;
    ghost var seen: seq<Instruction> := [];
    assert !HasEntryPoint([]) by { NoEntryPoint(); }
    while offset < |data|
      invariant 20 <= offset <= |data| && offset % 4 == 0
      invariant entryPoint <==> HasEntryPoint(seen)
      invariant DecodeBytes(data, 20) == Prepend(seen, DecodeBytes(data, offset))
    {
      var word := WordAt(data, offset);
      var wordCount, opcode := Length(word), Opcode(word);
      ByteStep(data, seen, offset);
      if wordCount == 0 || offset + wordCount * 4 > |data| {
        return false;
      }
      ghost var i := Instruction(opcode, WordsAt(data, offset + 4, wordCount - 1));
      EntryPointAppend(seen, i);
      seen := seen + [i];
      entryPoint := entryPoint || opcode == ENTRY_POINT;
      offset := offset + wordCount * 4;
    }
    BytesEnd(data);
    PrependEnds(seen, None);
    ok := entryPoint;
  }

  lemma NoEntryPoint()
    ensures !HasEntryPoint([])
  {
  }

  /** The checker and the entry reader compared: on a file of at most 2 MiB with
      an acceptable header and named entry points only, the checker accepts
      exactly when the reader finds at least one entry. */
  lemma ChecksAgree(data: Bytes, ascii: Bytes -> Option<string>)
    requires 20 <= |data| <= MAX_BYTES && |data| % 4 == 0 && ValidHeader(data)
    requires var d := DecodeBytes(data, 20);
      d.Some? ==> forall i :: i in d.value && i.opcode == ENTRY_POINT ==> NamedEntry(ascii, i)
    ensures AcceptedModule(data) <==> DeclaredEntries(data, ascii).Some? && DeclaredEntries(data, ascii).value != {}
  {
    hide WordAt, NamedEntry, EntryOf;
    WalkersAgree(data, 5);
    var d := DecodeBytes(data, 20);
    if d.Some? {
      EntriesAreTheDeclarations(ascii, d.value);
      if HasEntryPoint(d.value) {
        var i :| i in d.value && i.opcode == ENTRY_POINT;
        assert EntryOf(ascii, i) in Entries(ascii, d.value).value;
      }
    }
  }

  // ---------------------------------------------- the checks, over bytes

  /** An instruction's bytes: opcode and word count, low byte first, then operands. */
  function InstructionBytes(i: Instruction): Bytes
    requires WellFormed(i)
  {
    var n := 1 + |i.operands|;
    [(i.opcode % 256) as Byte, (i.opcode / 256) as Byte, (n % 256) as Byte, (n / 256) as Byte] + WordsBytes(i.operands)
  }

  function Stream(instructions: seq<Instruction>): Bytes
    requires forall i :: i in instructions ==> WellFormed(i)
  {
    if instructions == [] then [] else InstructionBytes(instructions[0]) + Stream(instructions[1..])
  }

  predicate IsStream(data: Bytes, instructions: seq<Instruction>) {
    (forall i :: i in instructions ==> WellFormed(i)) && data == Stream(instructions)
  }

  lemma FirstBytes(i: Instruction)
    requires WellFormed(i)
    ensures WordBytes(FirstWord(i)) == InstructionBytes(i)[..4]
  {
    var n := 1 + |i.operands|;
    var w := FirstWord(i) as int;
    var lo, hi, a, b := i.opcode % 256, i.opcode / 256, n % 256, n / 256;
    assert w == lo + 256 * (hi + 256 * (a + 256 * b));
    Digits(lo, hi + 256 * (a + 256 * b));
    Digits(hi, a + 256 * b);
    Digits(a, b);
    NestedDivisions(w);
  }

  lemma {:induction false} WordsBytesConcat(a: seq<Word>, b: seq<Word>)
    ensures WordsBytes(a + b) == WordsBytes(a) + WordsBytes(b)
    decreases |a|
  {
    hide WordBytes;
    if a == [] {
      assert a + b == b;
    } else {
      assert (a + b)[1..] == a[1..] + b;
      WordsBytesConcat(a[1..], b);
    }
  }

  lemma {:induction false} StreamIsEncoding(instructions: seq<Instruction>)
    requires forall i :: i in instructions ==> WellFormed(i)
    ensures Stream(instructions) == WordsBytes(Encode(instructions))
    decreases |instructions|
  {
    hide WordBytes, FirstWord, InstructionBytes, WellFormed;
    if instructions != [] {
      var first := instructions[0];
      StreamIsEncoding(instructions[1..]);
      WordsBytesConcat([FirstWord(first)] + first.operands, Encode(instructions[1..]));
      WordsBytesConcat([FirstWord(first)], first.operands);
      OneWord(FirstWord(first));
      FirstBytes(first);
      assert InstructionBytes(first) == WordBytes(FirstWord(first)) + WordsBytes(first.operands) by { TailBytes(first); }
    }
  }

  lemma OneWord(w: Word)
    ensures WordsBytes([w]) == WordBytes(w)
  {
    assert [w][1..] == [];
    assert WordsBytes([w]) == WordBytes(w) + [];
  }

  lemma TailBytes(i: Instruction)
    requires WellFormed(i) && WordBytes(FirstWord(i)) == InstructionBytes(i)[..4]
    ensures InstructionBytes(i) == WordBytes(FirstWord(i)) + WordsBytes(i.operands)
  {
    hide WordBytes, FirstWord;
  }

  /** A file is walked to the end exactly if it is the bytes of instructions, which
      are then the ones found. */
  lemma WalksStream(data: Bytes, instructions: seq<Instruction>)
    requires 20 <= |data| && |data| % 4 == 0
    ensures Decode(Words(data), 5) == Some(instructions) <==> IsStream(data[20..], instructions)
  {
    hide WordAt, Opcode, Length, WellFormed, FirstWord, InstructionBytes, WordBytes;
    var words := Words(data);
    if Decode(words, 5) == Some(instructions) {
      EncodeDecode(words, 5);
      StreamIsEncoding(instructions);
      assert words[5..] == words[5..|data| / 4];
      SliceBytes(data, 5, |data| / 4);
      assert data[20..] == data[4 * 5..4 * (|data| / 4)];
    }
    if IsStream(data[20..], instructions) {
      StreamIsEncoding(instructions);
      var code := Encode(instructions);
      WordsOfBytes(code);
      LaterWords(data, 5);
      assert words == words[..5] + code;
      DecodeEncode(words[..5], instructions);
    }
  }

  lemma LaterWords(data: Bytes, from: nat)
    requires |data| % 4 == 0 && from <= |data| / 4
    ensures Words(data[4 * from..]) == Words(data)[from..]
  {
    var rest := data[4 * from..];
    forall i | 0 <= i < |rest| / 4
      ensures Words(rest)[i] == Words(data)[from..][i]
    {
      var a, b := 4 * i, 4 * (from + i);
      assert rest[a] == data[b] && rest[a + 1] == data[b + 1] && rest[a + 2] == data[b + 2] && rest[a + 3] == data[b + 3];
    }
  }

  /** The header `check_spirv` accepts, byte by byte: the magic number, a version
      from 1.0 to 1.6, a bound that is not zero and schema zero. */
  predicate GoodHeader(data: Bytes) {
    && |data| >= 20 && data[..4] == [0x03, 0x02, 0x23, 0x07]
    && data[7] == 0 && data[6] == 1 && (data[5] < 6 || (data[5] == 6 && data[4] == 0))
    && data[12..16] != [0, 0, 0, 0] && data[16..20] == [0, 0, 0, 0]
  }

  lemma Zero(data: Bytes, at: nat)
    requires at + 4 <= |data|
    ensures WordAt(data, at) == 0 <==> data[at..at + 4] == [0, 0, 0, 0]
  {
    assert data[at..at + 4] == [data[at], data[at + 1], data[at + 2], data[at + 3]];
  }

  lemma MagicBytes(data: Bytes)
    requires |data| >= 4
    ensures WordAt(data, 0) == MAGIC <==> data[..4] == [0x03, 0x02, 0x23, 0x07]
  {
    assert data[..4] == [data[0], data[1], data[2], data[3]];
  }

  lemma VersionBytes(data: Bytes)
    requires |data| >= 8
    ensures 0x00010000 <= WordAt(data, 4) <= 0x00010600 <==>
      data[7] == 0 && data[6] == 1 && (data[5] < 6 || (data[5] == 6 && data[4] == 0))
  {
  }

  lemma HeaderExactly(data: Bytes)
    requires |data| >= 20
    ensures ValidHeader(data) <==> GoodHeader(data)
  {
    hide WordAt;
    MagicBytes(data);
    VersionBytes(data);
    Zero(data, 12);
    Zero(data, 16);
  }

  /** `check_spirv` accepts exactly the files that are a good header and the bytes of
      instructions, one of them an entry point. */
  lemma CheckExactly(data: Bytes)
    ensures AcceptedModule(data) <==>
      && GoodHeader(data) && |data| % 4 == 0
      && exists instructions: seq<Instruction>, k ::
           IsStream(data[20..], instructions) && 0 <= k < |instructions| && instructions[k].opcode == 15
  {
    if |data| >= 20 && |data| % 4 == 0 {
      HeaderExactly(data);
      WalkersAgree(data, 5);
      var d := Decode(Words(data), 5);
      forall instructions: seq<Instruction>
        ensures d == Some(instructions) <==> IsStream(data[20..], instructions)
      {
        WalksStream(data, instructions);
      }
      hide WordAt, ValidHeader, GoodHeader, IsStream, Decode;
      if d.Some? && HasEntryPoint(d.value) {
        var i :| i in d.value && i.opcode == ENTRY_POINT;
        var k :| 0 <= k < |d.value| && d.value[k] == i;
        assert IsStream(data[20..], d.value) && d.value[k].opcode == 15;
      }
      forall instructions: seq<Instruction>, k
        | IsStream(data[20..], instructions) && 0 <= k < |instructions| && instructions[k].opcode == 15
        ensures d.Some? && HasEntryPoint(d.value)
      {
        assert instructions[k] in instructions;
      }
    }
  }

  /** `name` is what the bytes spell before their first zero. */
  predicate NameIs(ascii: Bytes -> Option<string>, data: Bytes, name: string) {
    exists n ::
      && 0 <= n <= |data| && (forall i :: 0 <= i < n ==> data[i] != 0) && (n < |data| ==> data[n] == 0)
      && ascii(data[..n]) == Some(name)
  }

  /** The instruction declares an entry point: its execution model, and after the
      function its name. */
  predicate Declares(ascii: Bytes -> Option<string>, i: Instruction, model: Word, name: string) {
    && i.opcode == 15 && |i.operands| >= 3 && i.operands[0] == model
    && NameIs(ascii, WordsBytes(i.operands[2..]), name)
  }

  lemma {:induction false} CutAtZero(data: Bytes, n: nat)
    ensures n <= |data| && (forall i :: 0 <= i < n ==> data[i] != 0) && (n < |data| ==> data[n] == 0) <==> |UntilNul(data)| == n
    ensures |UntilNul(data)| <= |data| && UntilNul(data) == data[..|UntilNul(data)|]
    decreases |data|
  {
    if data != [] && data[0] != 0 {
      if 0 < n <= |data| {
        CutAtZero(data[1..], n - 1);
        assert forall i :: 0 <= i < |data| - 1 ==> data[1..][i] == data[i + 1];
        assert (forall i :: 0 <= i < n ==> data[i] != 0) <==> forall i :: 0 <= i < n - 1 ==> data[1..][i] != 0;
      } else {
        CutAtZero(data[1..], 0);
      }
    }
  }

  lemma EntryDeclares(ascii: Bytes -> Option<string>, i: Instruction, model: Word, name: string)
    ensures Declares(ascii, i, model, name) <==> i.opcode == 15 && NamedEntry(ascii, i) && EntryOf(ascii, i) == (model, name)
  {
    if |i.operands| >= 3 {
      var data := WordsBytes(i.operands[2..]);
      forall n: nat {
        CutAtZero(data, n);
      }
      var n := |UntilNul(data)|;
      CutAtZero(data, n);
      hide UntilNul, WordsBytes;
      assert data[..n] == UntilNul(data);
    }
  }

  /** `spirv_entries` over every file: it succeeds exactly on the magic number and the
      bytes of instructions whose entry points all have a name, and returns exactly
      what they declare. */
  lemma EntriesExactly(data: Bytes, ascii: Bytes -> Option<string>, entries: set<(Word, string)>)
    ensures DeclaredEntries(data, ascii) == Some(entries) <==>
      && 20 <= |data| <= 2097152 && |data| % 4 == 0 && data[..4] == [0x03, 0x02, 0x23, 0x07]
      && exists instructions: seq<Instruction> ::
           && IsStream(data[20..], instructions)
           && AllDeclare(ascii, instructions) && AreDeclared(ascii, instructions, entries)
  {
    if 20 <= |data| <= MAX_BYTES && |data| % 4 == 0 {
      MagicBytes(data);
      var d := Decode(Words(data), 5);
      forall instructions: seq<Instruction>
        ensures d == Some(instructions) <==> IsStream(data[20..], instructions)
      {
        WalksStream(data, instructions);
      }
      hide WordAt, IsStream, Decode, AllDeclare, AreDeclared, Entries;
      if d.Some? {
        DeclarationsExactly(ascii, d.value, entries);
      }
    }
  }

  /** Every entry point has a declaration. */
  ghost predicate AllDeclare(ascii: Bytes -> Option<string>, s: seq<Instruction>) {
    forall i :: i in s && i.opcode == 15 ==> exists model, name :: Declares(ascii, i, model, name)
  }

  /** The entries are the declarations. */
  ghost predicate AreDeclared(ascii: Bytes -> Option<string>, s: seq<Instruction>, entries: set<(Word, string)>) {
    forall model, name :: (model, name) in entries <==> exists i :: i in s && Declares(ascii, i, model, name)
  }

  lemma DeclarationsExactly(ascii: Bytes -> Option<string>, s: seq<Instruction>, entries: set<(Word, string)>)
    ensures Entries(ascii, s) == Some(entries) <==> AllDeclare(ascii, s) && AreDeclared(ascii, s, entries)
  {
    EntriesAreTheDeclarations(ascii, s);
    hide Declares, NamedEntry, EntryOf, Entries;
    forall i: Instruction, model: Word, name: string
      ensures Declares(ascii, i, model, name) <==> i.opcode == 15 && NamedEntry(ascii, i) && EntryOf(ascii, i) == (model, name)
    {
      EntryDeclares(ascii, i, model, name);
    }
    forall i | i in s && i.opcode == 15 && NamedEntry(ascii, i)
      ensures exists model, name :: Declares(ascii, i, model, name)
    {
      var (model, name) := EntryOf(ascii, i);
      assert Declares(ascii, i, model, name);
    }
    if Entries(ascii, s).Some? {
      var found := Entries(ascii, s).value;
      forall model, name
        ensures (model, name) in found <==> exists i :: i in s && Declares(ascii, i, model, name)
      {
      }
      if AreDeclared(ascii, s, entries) {
        forall e: (Word, string)
          ensures e in entries <==> e in found
        {
          assert e == (e.0, e.1);
        }
        assert entries == found;
      }
    }
  }
}
