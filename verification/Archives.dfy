/** The ELF header reader and the two `ar` readers (inspect_usd_dependencies.py,
    check-ufbx-fbx.py). Text decoding is a parameter, shared by both readers. */
module Archives {
  import opened Wrappers

  const ELF_MAGIC: Bytes := [0x7f, 0x45, 0x4c, 0x46]
  const AR_MAGIC: Bytes := [0x21, 0x3c, 0x61, 0x72, 0x63, 0x68, 0x3e, 0x0a]
  const HEADER_END: Bytes := [0x60, 0x0a]
  const NAME_END: Bytes := [0x2f, 0x0a]
  const AARCH64 := 183

  // ---------------------------------------------------------------- ELF

  datatype ElfInfo = ElfInfo(bits: int, little: bool, machine: int, elfType: int)

  function Read16(data: Bytes, at: nat, little: bool): int
    requires at + 1 < |data|
  {
    if little then data[at] as int + 256 * data[at + 1] as int else 256 * data[at] as int + data[at + 1] as int
  }

  /** `elf_info`: None where the source raises ValueError. */
  function ElfHeader(data: Bytes): Option<ElfInfo> {
    if |data| < 20 || data[..4] != ELF_MAGIC then None
    else if !(1 <= data[4] <= 2 && 1 <= data[5] <= 2) then None
    else if |data| < (if data[4] == 2 then 64 else 52) then None
    else
      var little := data[5] == 1;
      Some(ElfInfo(if data[4] == 2 then 64 else 32, little, Read16(data, 18, little), Read16(data, 16, little)))
  }

  /** `target_elf`; an undecodable member has no architecture at all. */
  predicate TargetElf(info: Option<ElfInfo>, types: set<int>) {
    info.Some? && info.value.machine == AARCH64 && info.value.bits == 64 && info.value.little
    && info.value.elfType in types
  }

  /** The member checks of `verify_static_archive`. */
  predicate RelocatableBody(body: Bytes) {
    && |body| >= 20 && body[..6] == ELF_MAGIC + [2, 1]
    && Read16(body, 16, true) == 1 && Read16(body, 18, true) == AARCH64
  }

  // ---------------------------------------------------------------- ar

  /** Python's text decoding, which both readers call on the same bytes:
      ASCII decode and strip, UTF-8 decode, and `int`. */
  datatype Codec = Codec(
    ascii: Bytes -> Option<string>,
    utf8: Bytes -> Option<string>,
    number: string -> Option<int>)

  datatype Chunk = Chunk(header: Bytes, name: string, body: Bytes)
  datatype Member = Member(name: string, body: Bytes)

  /** What one header means: a long-name table, an index, or a member. */
  datatype Meaning = Table | Index | Object(member: Member)

  predicate IsDigits(s: string) {
    s != "" && forall i :: 0 <= i < |s| ==> '0' <= s[i] <= '9'
  }

  predicate StartsWith<T(==)>(s: seq<T>, prefix: seq<T>) {
    |prefix| <= |s| && s[..|prefix|] == prefix
  }

  function StripTail<T(==)>(s: seq<T>, tail: T): seq<T> {
    if s != [] && s[|s| - 1] == tail then StripTail(s[..|s| - 1], tail) else s
  }

  /** `bytes.find(b"/\n", start)` */
  function FindNameEnd(names: Bytes, start: nat): (r: int)
    ensures r == -1 || start <= r <= |names| - 2
    decreases |names| - start
  {
    if start + 2 > |names| then -1
    else if names[start..start + 2] == NAME_END then start
    else FindNameEnd(names, start + 1)
  }

  /** Padded length of a chunk. */
  function Span(size: nat): nat {
    60 + size + size % 2
  }

  /** Reads one header and its body, with the length and padding checks. */
  function ChunkAt(c: Codec, data: Bytes, offset: nat): (r: Option<Chunk>)
    requires offset < |data|
    ensures r.Some? ==>
      && offset + Span(|r.value.body|) <= |data|
      && r.value.header == data[offset..offset + 60]
      && r.value.body == data[offset + 60..offset + 60 + |r.value.body|]
  {
    if offset + 60 > |data| || data[offset + 58..offset + 60] != HEADER_END then None
    else
      var header := data[offset..offset + 60];
      var digits :- c.ascii(header[48..58]);
      var size :- c.number(digits);
      if size < 0 || offset + 60 + size > |data| then None
      else
        var name :- c.ascii(header[..16]);
        if offset + Span(size) > |data| then None
        else Some(Chunk(header, name, data[offset + 60..offset + 60 + size]))
  }

  /** The naming rules: GNU tables and indices, BSD and GNU long names. */
  function MeaningOf(c: Codec, chunk: Chunk, names: Bytes): Option<Meaning> {
    var name, body := chunk.name, chunk.body;
    if name == "//" then Some(Table)
    else if name == "/" || name == "/SYM64/" then Some(Index)
    else if StartsWith(name, "#1/") then
      var count :- c.number(name[3..]);
      if !(0 <= count <= |body|) then None
      else
        var text :- c.utf8(StripTail(body[..count], 0));
        Some(Object(Member(text, body[count..])))
    else if StartsWith(name, "/") && IsDigits(name[1..]) then
      var start :- c.number(name[1..]);
      if !(0 <= start < |names|) then None
      else
        var end := FindNameEnd(names, start);
        if end < start then None
        else
          var text :- c.utf8(names[start..end]);
          Some(Object(Member(text, body)))
    else Some(Object(Member(StripTail(name, '/'), body)))
  }

  /** The members found from `offset` on. Both readers walk the data this way. */
  function Walk(c: Codec, data: Bytes, offset: nat, names: Bytes): Option<seq<Member>>
    requires offset <= |data|
    decreases |data| - offset
  {
    if offset == |data| then Some([])
    else
      var chunk :- ChunkAt(c, data, offset);
      var meaning :- MeaningOf(c, chunk, names);
      var rest :- Walk(c, data, offset + Span(|chunk.body|), if meaning.Table? then chunk.body else names);
      Some(if meaning.Object? then [meaning.member] + rest else rest)
  }

  function AllMembers(c: Codec, data: Bytes): Option<seq<Member>> {
    if StartsWith(data, AR_MAGIC) then Walk(c, data, 8, []) else None
  }

  const SYMDEF := "__.SYMDEF"

  datatype Described = Described(name: string, info: Option<ElfInfo>)

  function Describe(members: seq<Member>): seq<Described> {
    if members == [] then []
    else if StartsWith(members[0].name, SYMDEF) then Describe(members[1..])
    else [Described(members[0].name, ElfHeader(members[0].body))] + Describe(members[1..])
  }

  function NamesOf(members: seq<Member>): seq<string> {
    seq(|members|, i requires 0 <= i < |members| => members[i].name)
  }

  /** The value of `archive_info`, over the members the walk finds. */
  function Summary(c: Codec, data: Bytes): Option<seq<Described>> {
    var members :- AllMembers(c, data);
    var described := Describe(members);
    if described == [] then None else Some(described)
  }

  lemma DescribeConcat(a: seq<Member>, b: seq<Member>)
    ensures Describe(a + b) == Describe(a) + Describe(b)
  {
    if a == [] {
      assert a + b == b;
    } else {
      assert (a + b)[1..] == a[1..] + b;
      DescribeConcat(a[1..], b);
    }
  }

  /** `archive_info`: the loop that advances `offset` and appends members. */
  method ArchiveInfo(c: Codec, data: Bytes) returns (r: Option<seq<Described>>)
    ensures r == Summary(c, data)
  {
    hide ChunkAt, MeaningOf;
    if !StartsWith(data, AR_MAGIC) {
      return None;
    }
    var offset, names := 8, [];
    var members: seq<Described> := [];
    ghost var seen: seq<Member> := [];
    while offset < |data|
      invariant 8 <= offset <= |data|
      invariant members == Describe(seen)
      invariant Walk(c, data, 8, []).Some? <==> Walk(c, data, offset, names).Some?
      invariant Walk(c, data, 8, []).Some? ==> Walk(c, data, 8, []).value == seen + Walk(c, data, offset, names).value
    {
      var chunk := ChunkAt(c, data, offset);
      if chunk.None? {
        return None;
      }
      var meaning := MeaningOf(c, chunk.value, names);
      if meaning.None? {
        return None;
      }
      offset := offset + Span(|chunk.value.body|);
      match meaning.value
      case Table => names := chunk.value.body;
      case Index =>
      case Object(member) =>
        DescribeConcat(seen, [member]);
        assert [member][1..] == [];
        seen := seen + [member];
        if !StartsWith(member.name, SYMDEF) {
          members := members + [Described(member.name, ElfHeader(member.body))];
        }
    }
    assert seen + [] == seen;
    r := if members == [] then None else Some(members);
  }

  /** `verify_static_archive`: the second reader, which stops at the first bad member. */
  method VerifyStaticArchive(c: Codec, data: Bytes) returns (r: Option<seq<string>>)
    ensures r.Some? <==>
      && AllMembers(c, data).Some? && AllMembers(c, data).value != []
      && forall m :: m in AllMembers(c, data).value ==> RelocatableBody(m.body)
    ensures r.Some? ==> r.value == NamesOf(AllMembers(c, data).value)
  {
    hide ChunkAt, MeaningOf;
    if !StartsWith(data, AR_MAGIC) {
      return None;
    }
    var offset, table := 8, [];
    var names: seq<string> := [];
    ghost var seen: seq<Member> := [];
    while offset < |data|
      invariant 8 <= offset <= |data|
      invariant names == NamesOf(seen)
      invariant forall m :: m in seen ==> RelocatableBody(m.body)
      invariant Walk(c, data, 8, []).Some? <==> Walk(c, data, offset, table).Some?
      invariant Walk(c, data, 8, []).Some? ==> Walk(c, data, 8, []).value == seen + Walk(c, data, offset, table).value
    {
      var chunk := ChunkAt(c, data, offset);
      if chunk.None? {
        return None;
      }
      var meaning := MeaningOf(c, chunk.value, table);
      if meaning.None? {
        return None;
      }
      offset := offset + Span(|chunk.value.body|);
      match meaning.value
      case Table => table := chunk.value.body;
      case Index =>
      case Object(member) =>
        ghost var before := seen;
        seen := seen + [member];
        assert member == seen[|before|];
        if !RelocatableBody(member.body) {
          assert Walk(c, data, 8, []).Some? ==> member in Walk(c, data, 8, []).value;
          return None;
        }
        names := names + [member.name];
    }
    assert seen + [] == seen;
    r := if names == [] then None else Some(names);
  }

  // ------------------------------------------------------- properties

  /** The chunks of an accepted archive, in file order. */
  function Chunks(c: Codec, data: Bytes, offset: nat, names: Bytes): seq<Chunk>
    requires offset <= |data| && Walk(c, data, offset, names).Some?
    decreases |data| - offset
  {
    if offset == |data| then []
    else
      var chunk := ChunkAt(c, data, offset).value;
      var meaning := MeaningOf(c, chunk, names).value;
      [chunk] + Chunks(c, data, offset + Span(|chunk.body|), if meaning.Table? then chunk.body else names)
  }

  /** A file assembled from headers, bodies and one padding byte per odd body. */
  predicate Tiles(data: Bytes, chunks: seq<Chunk>) {
    if chunks == [] then data == []
    else
      var h, b := chunks[0].header, chunks[0].body;
      && |h| == 60 && |data| >= Span(|b|)
      && data[..60] == h && data[60..60 + |b|] == b
      && Tiles(data[Span(|b|)..], chunks[1..])
  }

  /** No byte of an accepted archive is skipped or read twice: after the magic
      the file is exactly its headers, bodies and padding. */
  lemma {:induction false} AcceptedIsTiled(c: Codec, data: Bytes, offset: nat, names: Bytes)
    requires offset <= |data| && Walk(c, data, offset, names).Some?
    ensures Tiles(data[offset..], Chunks(c, data, offset, names))
    decreases |data| - offset
  {
    hide ChunkAt, MeaningOf;
    if offset < |data| {
      var chunk := ChunkAt(c, data, offset).value;
      var meaning := MeaningOf(c, chunk, names).value;
      var next := offset + Span(|chunk.body|);
      AcceptedIsTiled(c, data, next, if meaning.Table? then chunk.body else names);
      assert data[offset..][Span(|chunk.body|)..] == data[next..];
      assert data[offset..][..60] == chunk.header;
      assert data[offset..][60..60 + |chunk.body|] == chunk.body;
      var chunks := Chunks(c, data, offset, names);
      assert chunks[1..] == Chunks(c, data, next, if meaning.Table? then chunk.body else names);
    }
  }

  /** The two member checks differ only in the length they demand. */
  lemma MemberChecksAgree(body: Bytes)
    ensures TargetElf(ElfHeader(body), {1}) <==> RelocatableBody(body) && |body| >= 64
  {
    if |body| >= 20 {
      assert body[..6][..4] == body[..4];
      if body[..6] == ELF_MAGIC + [2, 1] {
        assert body[..6][4] == body[4] && body[..6][5] == body[5];
        assert body[..4] == ELF_MAGIC;
      }
      if body[..4] == ELF_MAGIC && body[4] == 2 && body[5] == 1 {
        assert body[..6] == body[..4] + [body[4], body[5]];
      }
    }
  }

  lemma {:induction false} DescribePlain(members: seq<Member>)
    requires forall m :: m in members ==> !StartsWith(m.name, SYMDEF)
    ensures |Describe(members)| == |members|
    ensures forall i :: 0 <= i < |members| ==>
      Describe(members)[i] == Described(members[i].name, ElfHeader(members[i].body))
  {
    if members != [] {
      DescribePlain(members[1..]);
    }
  }

  /** For an archive without `__.SYMDEF` members, everything `archive_info`
      reports is an AArch64 relocatable exactly when the other reader's checks
      hold of every member and every member has a full 64-byte ELF header; the
      names agree. */
  lemma {:induction false} ReadersAgree(c: Codec, data: Bytes)
    requires AllMembers(c, data).Some?
    requires forall m :: m in AllMembers(c, data).value ==> !StartsWith(m.name, SYMDEF)
    ensures (Summary(c, data).Some? && forall d :: d in Summary(c, data).value ==> TargetElf(d.info, {1}))
      <==> (AllMembers(c, data).value != []
            && forall m :: m in AllMembers(c, data).value ==> RelocatableBody(m.body) && |m.body| >= 64)
    ensures Summary(c, data).Some? ==>
      && |Summary(c, data).value| == |AllMembers(c, data).value|
      && forall i :: 0 <= i < |AllMembers(c, data).value| ==>
           Summary(c, data).value[i].name == NamesOf(AllMembers(c, data).value)[i]
  {
    var members := AllMembers(c, data).value;
    DescribePlain(members);
    forall m: Member {
      MemberChecksAgree(m.body);
    }
    var described := Describe(members);
    if forall d :: d in described ==> TargetElf(d.info, {1}) {
      forall m | m in members
        ensures RelocatableBody(m.body) && |m.body| >= 64
      {
        var i :| 0 <= i < |members| && members[i] == m;
        assert described[i] in described;
      }
    }
  }
}
