/** The `ar` format read by both archive readers, as a file of pieces: what the
    walk accepts and which members it finds, without offsets. */
module ArchiveFormat {
  import opened Wrappers
  import opened Archives

  /** A header, a body, and the padding after an odd body. */
  datatype Piece = Piece(header: Bytes, body: Bytes, pad: Bytes)

  function PieceBytes(p: Piece): Bytes {
    p.header + (p.body + p.pad)
  }

  function Assemble(pieces: seq<Piece>): Bytes {
    if pieces == [] then [] else PieceBytes(pieces[0]) + Assemble(pieces[1..])
  }

  /** A 60-byte header that ends in "`\n" and whose size field is the body's length. */
  ghost predicate GoodPiece(c: Codec, p: Piece, name: string) {
    && |p.header| == 60 && p.header[58] == 0x60 && p.header[59] == 0x0a
    && (exists digits :: c.ascii(p.header[48..58]) == Some(digits) && c.number(digits) == Some(|p.body|))
    && c.ascii(p.header[..16]) == Some(name) && |p.pad| == |p.body| % 2
  }

  /** `s` without its trailing `tail`s has `n` elements. */
  predicate TrimsTo<T(==)>(s: seq<T>, tail: T, n: int) {
    && 0 <= n <= |s| && (forall i :: n <= i < |s| ==> s[i] == tail) && (n > 0 ==> s[n - 1] != tail)
  }

  predicate NameEndAt(names: Bytes, i: int) {
    0 <= i && i + 1 < |names| && names[i] == 0x2f && names[i + 1] == 0x0a
  }

  /** The first "/\n" from `start` on. */
  predicate FirstEnd(names: Bytes, start: int, end: int) {
    start <= end && NameEndAt(names, end) && forall i :: start <= i < end ==> !NameEndAt(names, i)
  }

  predicate BsdName(name: string) {
    |name| >= 3 && name[0] == '#' && name[1] == '1' && name[2] == '/'
  }

  predicate GnuName(name: string) {
    |name| >= 2 && name[0] == '/' && forall i :: 1 <= i < |name| ==> '0' <= name[i] <= '9'
  }

  /** A member whose name is the first `count` bytes of the body, less trailing NULs. */
  ghost predicate BsdMember(c: Codec, name: string, body: Bytes, m: Member)
    requires BsdName(name)
  {
    exists count, n ::
      && c.number(name[3..]) == Some(count) && 0 <= count <= |body| && TrimsTo(body[..count], 0, n)
      && c.utf8(body[..count][..n]) == Some(m.name) && m.body == body[count..]
  }

  /** A member whose name starts at a position of the table and ends at the next "/\n". */
  ghost predicate GnuMember(c: Codec, name: string, body: Bytes, table: Bytes, m: Member)
    requires GnuName(name)
  {
    exists start, end ::
      && c.number(name[1..]) == Some(start) && 0 <= start < |table| && FirstEnd(table, start, end)
      && c.utf8(table[start..end]) == Some(m.name) && m.body == body
  }

  predicate PlainMember(name: string, body: Bytes, m: Member) {
    |m.name| <= |name| && m.name == name[..|m.name|] && TrimsTo(name, '/', |m.name|) && m.body == body
  }

  /** What a piece with this name stands for: a table or an index is no member. */
  ghost predicate Finds(c: Codec, name: string, body: Bytes, table: Bytes, m: Option<Member>) {
    if name in {"//", "/", "/SYM64/"} then m.None?
    else
      && m.Some?
      && if BsdName(name) then BsdMember(c, name, body, m.value)
         else if GnuName(name) then GnuMember(c, name, body, table, m.value)
         else PlainMember(name, body, m.value)
  }

  /** The pieces, one by one, with the latest table before each. */
  ghost predicate Reads(c: Codec, pieces: seq<Piece>, table: Bytes, names: seq<string>, found: seq<Option<Member>>) {
    && |names| == |found| == |pieces|
    && (pieces != [] ==>
          && GoodPiece(c, pieces[0], names[0]) && Finds(c, names[0], pieces[0].body, table, found[0])
          && Reads(c, pieces[1..], if names[0] == "//" then pieces[0].body else table, names[1..], found[1..]))
  }

  function Present(found: seq<Option<Member>>): seq<Member> {
    if found == [] then [] else (if found[0].Some? then [found[0].value] else []) + Present(found[1..])
  }

  // ---------------------------------------------------------- one piece

  lemma {:induction false} StripTrims<T>(s: seq<T>, tail: T, n: int)
    ensures TrimsTo(s, tail, n) <==> n >= 0 && |StripTail(s, tail)| == n
    ensures |StripTail(s, tail)| <= |s| && StripTail(s, tail) == s[..|StripTail(s, tail)|]
    decreases |s|
  {
    if s != [] && s[|s| - 1] == tail {
      StripTrims(s[..|s| - 1], tail, n);
      var t := s[..|s| - 1];
      if TrimsTo(s, tail, n) {
        assert n != |s|;
        assert TrimsTo(t, tail, n);
      }
    }
  }

  lemma {:induction false} EndIsFirst(names: Bytes, start: nat, end: int)
    requires start <= end
    ensures FindNameEnd(names, start) == end <==> FirstEnd(names, start, end)
    decreases |names| - start
  {
    if start + 2 <= |names| {
      assert NameEndAt(names, start) <==> names[start..start + 2] == NAME_END by {
        assert names[start..start + 2] == [names[start], names[start + 1]];
      }
      if !NameEndAt(names, start) && start < end {
        EndIsFirst(names, start + 1, end);
      }
    }
  }

  lemma BsdMeans(c: Codec, chunk: Chunk, m: Member)
    requires BsdName(chunk.name)
    ensures BsdMember(c, chunk.name, chunk.body, m) <==>
      var count := c.number(chunk.name[3..]);
      && count.Some? && 0 <= count.value <= |chunk.body|
      && c.utf8(StripTail(chunk.body[..count.value], 0)) == Some(m.name) && m.body == chunk.body[count.value..]
  {
    var count := c.number(chunk.name[3..]);
    if count.Some? && 0 <= count.value <= |chunk.body| {
      var head := chunk.body[..count.value];
      forall n {
        StripTrims(head, 0, n);
      }
      var n := |StripTail(head, 0)|;
      assert TrimsTo(head, 0, n);
    }
  }

  lemma GnuMeans(c: Codec, chunk: Chunk, table: Bytes, m: Member)
    requires GnuName(chunk.name)
    ensures GnuMember(c, chunk.name, chunk.body, table, m) <==>
      var start := c.number(chunk.name[1..]);
      && start.Some? && 0 <= start.value < |table| && FindNameEnd(table, start.value) >= start.value
      && c.utf8(table[start.value..FindNameEnd(table, start.value)]) == Some(m.name) && m.body == chunk.body
  {
    hide FirstEnd, FindNameEnd;
    var start := c.number(chunk.name[1..]);
    if start.Some? && 0 <= start.value < |table| {
      var found := FindNameEnd(table, start.value);
      if found >= start.value {
        EndIsFirst(table, start.value, found);
      }
      forall end: int | FirstEnd(table, start.value, end)
        ensures end == found >= start.value
      {
        assert start.value <= end by { FirstIsLater(table, start.value, end); }
        EndIsFirst(table, start.value, end);
      }
    }
  }

  lemma FirstIsLater(names: Bytes, start: int, end: int)
    requires FirstEnd(names, start, end)
    ensures start <= end
  {
  }

  function MemberOf(x: Meaning): Option<Member> {
    if x.Object? then Some(x.member) else None
  }

  lemma NameForms(name: string)
    ensures StartsWith(name, "#1/") <==> BsdName(name)
    ensures name != "/" ==> (StartsWith(name, "/") && IsDigits(name[1..]) <==> GnuName(name))
  {
    if |name| >= 3 {
      assert name[..3] == [name[0], name[1], name[2]];
    }
    if |name| >= 1 {
      assert name[..1] == [name[0]];
      assert forall i :: 1 <= i < |name| ==> name[i] == name[1..][i - 1];
    }
  }

  lemma PlainMeans(name: string, body: Bytes, m: Member)
    ensures PlainMember(name, body, m) <==> m == Member(StripTail(name, '/'), body)
  {
    StripTrims(name, '/', |m.name|);
  }

  /** The naming rules decide exactly what a piece stands for. */
  lemma MeaningExactly(c: Codec, chunk: Chunk, table: Bytes, m: Option<Member>)
    ensures var meaning := MeaningOf(c, chunk, table);
      && (meaning.Some? && MemberOf(meaning.value) == m <==> Finds(c, chunk.name, chunk.body, table, m))
      && (meaning.Some? ==> (meaning.value.Table? <==> chunk.name == "//"))
  {
    NameForms(chunk.name);
    hide StripTail, FindNameEnd, BsdName, GnuName, BsdMember, GnuMember, PlainMember;
    if m.Some? {
      if BsdName(chunk.name) {
        BsdMeans(c, chunk, m.value);
      } else if GnuName(chunk.name) {
        GnuMeans(c, chunk, table, m.value);
      } else {
        PlainMeans(chunk.name, chunk.body, m.value);
      }
    }
  }

  lemma PieceIsRead(c: Codec, data: Bytes, offset: nat, p: Piece, rest: Bytes, name: string)
    requires offset <= |data| && data[offset..] == PieceBytes(p) + rest && GoodPiece(c, p, name)
    ensures offset < |data| && ChunkAt(c, data, offset) == Some(Chunk(p.header, name, p.body))
    ensures offset + Span(|p.body|) <= |data| && data[offset + Span(|p.body|)..] == rest
  {
    var s := data[offset..];
    assert |PieceBytes(p)| == Span(|p.body|) && |s| == |PieceBytes(p)| + |rest|;
    assert s[..60] == p.header && data[offset..offset + 60] == s[..60];
    assert s[60..60 + |p.body|] == p.body && data[offset + 60..offset + 60 + |p.body|] == s[60..60 + |p.body|];
    assert p.header[58..60] == [p.header[58], p.header[59]];
    assert data[offset + 58..offset + 60] == p.header[58..60];
    assert data[offset + Span(|p.body|)..] == s[Span(|p.body|)..];
  }

  lemma ReadIsPiece(c: Codec, data: Bytes, offset: nat) returns (p: Piece)
    requires offset < |data| && ChunkAt(c, data, offset).Some?
    ensures var chunk := ChunkAt(c, data, offset).value;
      && GoodPiece(c, p, chunk.name) && p.body == chunk.body
      && data[offset..] == PieceBytes(p) + data[offset + Span(|chunk.body|)..]
  {
    var chunk := ChunkAt(c, data, offset).value;
    var n := |chunk.body|;
    p := Piece(chunk.header, chunk.body, data[offset + 60 + n..offset + Span(n)]);
    assert chunk.header[58..60] == data[offset + 58..offset + 60];
    assert chunk.header[58] == chunk.header[58..60][0] && chunk.header[59] == chunk.header[58..60][1];
    assert data[offset..] == data[offset..offset + 60] + (data[offset + 60..offset + 60 + n]
      + (data[offset + 60 + n..offset + Span(n)] + data[offset + Span(n)..]));
  }

  lemma {:induction false} WalkReads(c: Codec, data: Bytes, offset: nat, table: Bytes)
    returns (pieces: seq<Piece>, names: seq<string>, found: seq<Option<Member>>)
    requires offset <= |data| && Walk(c, data, offset, table).Some?
    ensures data[offset..] == Assemble(pieces) && Reads(c, pieces, table, names, found)
    ensures Walk(c, data, offset, table).value == Present(found)
    decreases |data| - offset
  {
    hide ChunkAt, MeaningOf, GoodPiece, Finds;
    pieces, names, found := [], [], [];
    if offset < |data| {
      var chunk := ChunkAt(c, data, offset).value;
      var meaning := MeaningOf(c, chunk, table).value;
      MeaningExactly(c, chunk, table, MemberOf(meaning));
      var p := ReadIsPiece(c, data, offset);
      var next := if meaning.Table? then chunk.body else table;
      var pieces', names', found' := WalkReads(c, data, offset + Span(|chunk.body|), next);
      pieces, names, found := [p] + pieces', [chunk.name] + names', [MemberOf(meaning)] + found';
      assert pieces[1..] == pieces' && names[1..] == names' && found[1..] == found';
      assert Reads(c, pieces, table, names, found);
      assert data[offset..] == Assemble(pieces);
    } else {
      assert data[offset..] == [];
    }
  }

  lemma WalkStep(c: Codec, data: Bytes, offset: nat, table: Bytes, chunk: Chunk, m: Option<Member>, rest: seq<Member>)
    requires offset < |data| && ChunkAt(c, data, offset) == Some(chunk) && offset + Span(|chunk.body|) <= |data|
    requires MeaningOf(c, chunk, table).Some? && MemberOf(MeaningOf(c, chunk, table).value) == m
    requires MeaningOf(c, chunk, table).value.Table? <==> chunk.name == "//"
    requires Walk(c, data, offset + Span(|chunk.body|), if chunk.name == "//" then chunk.body else table) == Some(rest)
    ensures Walk(c, data, offset, table) == Some((if m.Some? then [m.value] else []) + rest)
  {
    hide ChunkAt, MeaningOf;
    assert [] + rest == rest;
  }

  lemma {:induction false} ReadsWalk(c: Codec, data: Bytes, offset: nat, table: Bytes,
                                     pieces: seq<Piece>, names: seq<string>, found: seq<Option<Member>>)
    requires offset <= |data| && data[offset..] == Assemble(pieces) && Reads(c, pieces, table, names, found)
    ensures Walk(c, data, offset, table) == Some(Present(found))
    decreases |pieces|
  {
    hide ChunkAt, MeaningOf, GoodPiece, Finds, Walk, MemberOf, Span;
    if pieces == [] {
      assert |data[offset..]| == 0;
      WalkEnds(c, data, table);
    } else {
      var p, name := pieces[0], names[0];
      PieceIsRead(c, data, offset, p, Assemble(pieces[1..]), name);
      var chunk := Chunk(p.header, name, p.body);
      MeaningExactly(c, chunk, table, found[0]);
      ReadsWalk(c, data, offset + Span(|p.body|), if name == "//" then p.body else table, pieces[1..], names[1..], found[1..]);
      WalkStep(c, data, offset, table, chunk, found[0], Present(found[1..]));
    }
  }

  lemma WalkEnds(c: Codec, data: Bytes, table: Bytes)
    ensures Walk(c, data, |data|, table) == Some([])
  {
  }

  /** An archive is accepted, with these members, exactly if it is the magic and then
      pieces that each have a good header and stand for a table, an index or the next
      of the members. */
  lemma ArchiveExactly(c: Codec, data: Bytes, members: seq<Member>)
    ensures AllMembers(c, data) == Some(members) <==>
      exists pieces, names, found ::
        && data == [0x21, 0x3c, 0x61, 0x72, 0x63, 0x68, 0x3e, 0x0a] + Assemble(pieces)
        && Reads(c, pieces, [], names, found) && members == Present(found)
  {
    hide Walk, Reads, Assemble;
    if AllMembers(c, data) == Some(members) {
      var pieces, names, found := WalkReads(c, data, 8, []);
      assert data == data[..8] + data[8..];
    }
    forall pieces, names, found
      | data == [0x21, 0x3c, 0x61, 0x72, 0x63, 0x68, 0x3e, 0x0a] + Assemble(pieces) && Reads(c, pieces, [], names, found)
      ensures AllMembers(c, data) == Some(Present(found))
    {
      assert data[..8] == AR_MAGIC && data[8..] == Assemble(pieces);
      ReadsWalk(c, data, 8, [], pieces, names, found);
    }
  }

  predicate IsSymdef(m: Member) {
    |m.name| >= 9 && m.name[..9] == "__.SYMDEF"
  }

  /** The positions of the members not named `__.SYMDEF...`, ascending. */
  predicate Selects(members: seq<Member>, kept: seq<nat>) {
    && (forall j, k :: 0 <= j < k < |kept| ==> kept[j] < kept[k])
    && (forall k :: 0 <= k < |kept| ==> kept[k] < |members| && !IsSymdef(members[kept[k]]))
    && forall i: nat :: i < |members| && !IsSymdef(members[i]) ==> i in kept
  }

  predicate DescribesAt(members: seq<Member>, kept: seq<nat>, described: seq<Described>) {
    && |described| == |kept|
    && forall k :: 0 <= k < |kept| ==>
         kept[k] < |members| && described[k] == Described(members[kept[k]].name, ElfHeader(members[kept[k]].body))
  }

  lemma SelectsMore(front: seq<Member>, m: Member, kept: seq<nat>)
    requires Selects(front, kept)
    ensures Selects(front + [m], if IsSymdef(m) then kept else kept + [|front|])
  {
    hide IsSymdef;
    var members, more := front + [m], if IsSymdef(m) then kept else kept + [|front|];
    forall i: nat | i < |members| && !IsSymdef(members[i])
      ensures i in more
    {
      if i < |front| {
        assert members[i] == front[i] && i in kept;
      } else {
        assert more[|kept|] == i;
      }
    }
  }

  lemma DescribesMore(front: seq<Member>, m: Member, kept: seq<nat>, described: seq<Described>)
    requires DescribesAt(front, kept, described)
    ensures DescribesAt(front + [m], kept, described)
    ensures DescribesAt(front + [m], kept + [|front|], described + [Described(m.name, ElfHeader(m.body))])
  {
    hide ElfHeader;
  }

  lemma DescribeOne(m: Member)
    ensures Describe([m]) == if IsSymdef(m) then [] else [Described(m.name, ElfHeader(m.body))]
  {
    assert |SYMDEF| == 9;
    assert [m][1..] == [];
  }

  /** `archive_info` describes, in order, the members not named `__.SYMDEF...`. */
  lemma {:induction false} DescribesExactly(members: seq<Member>) returns (kept: seq<nat>)
    ensures Selects(members, kept) && DescribesAt(members, kept, Describe(members))
    decreases |members|
  {
    hide IsSymdef, Selects, DescribesAt, Describe, ElfHeader;
    if members == [] {
      kept := [];
      NothingSelected();
    } else {
      var front, m := members[..|members| - 1], members[|members| - 1];
      var before := DescribesExactly(front);
      assert members == front + [m];
      DescribeConcat(front, [m]);
      DescribeOne(m);
      SelectsMore(front, m, before);
      DescribesMore(front, m, before, Describe(front));
      kept := if IsSymdef(m) then before else before + [|front|];
      assert Describe(front) + [] == Describe(front);
    }
  }

  lemma NothingSelected()
    ensures Selects([], []) && DescribesAt([], [], Describe([]))
  {
  }

  /** The header fields, byte by byte. */
  lemma ElfExactly(data: Bytes, info: ElfInfo)
    ensures ElfHeader(data) == Some(info) <==>
      && |data| >= 20 && data[0] == 0x7f && data[1] == 0x45 && data[2] == 0x4c && data[3] == 0x46
      && ((data[4] == 1 && info.bits == 32 && |data| >= 52) || (data[4] == 2 && info.bits == 64 && |data| >= 64))
      && ((data[5] == 1 && info.little) || (data[5] == 2 && !info.little))
      && info.elfType == (if info.little then data[16] as int + 256 * data[17] as int else data[17] as int + 256 * data[16] as int)
      && info.machine == (if info.little then data[18] as int + 256 * data[19] as int else data[19] as int + 256 * data[18] as int)
  {
    if |data| >= 20 {
      assert data[..4] == [data[0], data[1], data[2], data[3]];
    }
  }

  /** The member checks of `verify_static_archive`, byte by byte. */
  lemma RelocatableExactly(body: Bytes)
    ensures RelocatableBody(body) <==>
      && |body| >= 20 && body[..6] == [0x7f, 0x45, 0x4c, 0x46, 2, 1]
      && body[16] == 1 && body[17] == 0 && body[18] == 183 && body[19] == 0
  {
  }
}
