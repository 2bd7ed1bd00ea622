/** When the answers of `Inspector.file` cannot depend on the order of queries:
    the exact condition, over every order a script may list its references in. */
module InspectionOrder {
  import opened Wrappers
  import opened Archives
  import opened DependencyInspector

  /** Two files that differ at most in the order of a linker script's names. */
  predicate SameUpToOrder(a: File, b: File) {
    && a.size == b.size && a.nulInPrefix == b.nulInPrefix && a.executable == b.executable
    && (a.body == b.body
        || (a.body.Plain? && b.body.Plain? && a.body.interpreter == b.body.interpreter
            && a.body.script.Some? && b.body.script.Some?
            && multiset(a.body.script.value) == multiset(b.body.script.value)))
  }

  ghost predicate Reordered(a: World, b: World) {
    && a.resolved == b.resolved && a.sibling == b.sibling && a.files.Keys == b.files.Keys
    && forall id :: id in a.files ==> SameUpToOrder(a.files[id], b.files[id])
  }

  /** A new inspector answers every query with the meaning of its key. */
  ghost predicate AnswersAreExact(w: World, keys: seq<Key>) {
    && |Queries(w, map[], keys).0| == |keys|
    && forall i :: 0 <= i < |keys| ==> (Queries(w, map[], keys).0[i] <==> Verified(w, keys[i]))
  }

  lemma ReorderedBack(a: World, b: World)
    requires Reordered(a, b)
    ensures Reordered(b, a)
  {
  }

  lemma SameNames(s: seq<string>, t: seq<string>)
    requires multiset(s) == multiset(t)
    ensures |s| == |t| && forall x :: x in s <==> x in t
  {
    assert |s| == |multiset(s)| && |t| == |multiset(t)|;
    forall x
      ensures x in s <==> x in t
    {
      assert x in s <==> x in multiset(s);
    }
  }

  /** Order apart, both worlds find the same in a file. */
  lemma SameFinding(a: World, b: World, key: Key)
    requires Reordered(a, b)
    ensures Inspect(a, key).Settled? ==> Inspect(b, key) == Inspect(a, key)
    ensures Inspect(a, key).Needs? ==>
      && Inspect(b, key).Needs? && Inspect(b, key).unlessBlocked == Inspect(a, key).unlessBlocked
      && forall r :: r in Inspect(a, key).refs <==> r in Inspect(b, key).refs
  {
    if HasFile(a, key) {
      var f, g := a.files[a.resolved[key.path]], b.files[b.resolved[key.path]];
      assert SameUpToOrder(f, g);
      hide StartsWith;
      if f.body.Plain? && f.body.script.Some? {
        SameNames(f.body.script.value, g.body.script.value);
        if key.kind.SharedLibrary? {
          var s, t := f.body.script.value, g.body.script.value;
          SameScript(a, b, key, s, t);
          if f.size > 0 {
            ScriptFinding(a, key);
            ScriptFinding(b, key);
          }
        }
      }
    }
  }

  function ReferencesOf(w: World, key: Key, names: seq<string>): (r: seq<Key>) {
    seq(|names|, i requires 0 <= i < |names| => Key(w.sibling(key.path, names[i]), SharedLibrary))
  }

  predicate Blocked(names: seq<string>) {
    exists i :: 0 <= i < |names| && StartsWith(names[i], "-")
  }

  lemma ScriptFinding(w: World, key: Key)
    requires HasFile(w, key) && key.kind.SharedLibrary?
    requires var f := w.files[w.resolved[key.path]]; f.size > 0 && f.body.Plain? && f.body.script.Some?
    ensures var f := w.files[w.resolved[key.path]];
      Inspect(w, key) ==
        if f.body.script.value != [] && f.size <= 4096 && !Blocked(f.body.script.value)
        then Needs(ReferencesOf(w, key, f.body.script.value), true) else Settled(false)
  {
    hide StartsWith;
    var f := w.files[w.resolved[key.path]];
    var names := f.body.script.value;
    assert Blocked(names) <==> !forall i :: 0 <= i < |names| ==> !StartsWith(names[i], "-");
    if Inspect(w, key).Needs? {
      assert Inspect(w, key).refs == ReferencesOf(w, key, names);
    }
  }

  lemma SameScript(a: World, b: World, key: Key, s: seq<string>, t: seq<string>)
    requires a.sibling == b.sibling && forall x :: x in s <==> x in t
    ensures Blocked(s) <==> Blocked(t)
    ensures forall r :: r in ReferencesOf(a, key, s) <==> r in ReferencesOf(b, key, t)
  {
    hide StartsWith;
    OneWay(a, b, key, s, t);
    OneWay(b, a, key, t, s);
  }

  lemma OneWay(a: World, b: World, key: Key, s: seq<string>, t: seq<string>)
    requires a.sibling == b.sibling && forall x :: x in s ==> x in t
    ensures Blocked(s) ==> Blocked(t)
    ensures forall r :: r in ReferencesOf(a, key, s) ==> r in ReferencesOf(b, key, t)
  {
    hide StartsWith;
    if Blocked(s) {
      var i :| 0 <= i < |s| && StartsWith(s[i], "-");
      var name := s[i];
      assert name in s && name in t;
      var j :| 0 <= j < |t| && t[j] == name;
    }
    forall r | r in ReferencesOf(a, key, s)
      ensures r in ReferencesOf(b, key, t)
    {
      var i :| 0 <= i < |s| && ReferencesOf(a, key, s)[i] == r;
      var name := s[i];
      assert name in s && name in t;
      var j :| 0 <= j < |t| && t[j] == name;
      assert ReferencesOf(b, key, t)[j] == r;
    }
  }

  lemma {:induction false} SamePass(a: World, b: World, key: Key, n: nat)
    requires Reordered(a, b) && PassWithin(a, key, n)
    ensures PassWithin(b, key, n)
    decreases n
  {
    SameFinding(a, b, key);
    hide Inspect;
    if Inspect(a, key).Needs? {
      forall r | r in Inspect(b, key).refs
        ensures PassWithin(b, r, n - 1)
      {
        SamePass(a, b, r, n - 1);
      }
    }
  }

  lemma SameVerified(a: World, b: World, key: Key)
    requires Reordered(a, b)
    ensures Verified(a, key) <==> Verified(b, key)
  {
    ReorderedBack(a, b);
    if Verified(a, key) {
      var n: nat :| PassWithin(a, key, n);
      SamePass(a, b, key, n);
    }
    if Verified(b, key) {
      var n: nat :| PassWithin(b, key, n);
      SamePass(b, a, key, n);
    }
  }

  lemma SameLoops(a: World, b: World)
    requires Reordered(a, b) && NoVerifiedLoop(a)
    ensures NoVerifiedLoop(b)
  {
    hide Inspect, Verified;
    forall chain | IsSimpleLoop(b, chain)
      ensures !Verified(b, chain[|chain| - 1])
    {
      forall i | 0 <= i < |chain| - 1
        ensures Refers(a, chain[i], chain[i + 1])
      {
        assert Refers(b, chain[i], chain[i + 1]);
        SameFinding(a, b, chain[i]);
      }
      assert IsSimpleLoop(a, chain);
      SameVerified(a, b, chain[|chain| - 1]);
    }
  }

  // ------------------------------------ a loop followed without detours

  /** The first reference of each of the first `n` keys is the next key. */
  predicate Straight(w: World, chain: seq<Key>, n: nat)
    requires n < |chain|
  {
    forall i :: 0 <= i < n ==>
      Inspect(w, chain[i]).Needs? && Inspect(w, chain[i]).refs != [] && Inspect(w, chain[i]).refs[0] == chain[i + 1]
  }

  function ToFront(s: seq<string>, m: nat): (t: seq<string>)
    requires m < |s|
    ensures |t| == |s| && t[0] == s[m] && multiset(t) == multiset(s)
  {
    assert s == s[..m] + [s[m]] + s[m + 1..];
    [s[m]] + s[..m] + s[m + 1..]
  }

  /** One file's script with the name of a given reference moved to the front. */
  lemma BringForward(w: World, key: Key, next: Key) returns (f: File)
    requires Refers(w, key, next)
    ensures HasFile(w, key) && SameUpToOrder(w.files[w.resolved[key.path]], f)
    ensures var v := w.(files := w.files[w.resolved[key.path] := f]);
      Inspect(v, key).Needs? && Inspect(v, key).refs != [] && Inspect(v, key).refs[0] == next
  {
    hide StartsWith;
    f := w.files[w.resolved[key.path]];
    if key.kind.SharedLibrary? {
      var names := f.body.script.value;
      var m :| 0 <= m < |names| && Inspect(w, key).refs[m] == next;
      var moved := ToFront(names, m);
      SameNames(names, moved);
      f := f.(body := Plain(Some(moved), f.body.interpreter));
      NotBlocked(names, moved);
    } else {
      assert w.files[w.resolved[key.path] := f] == w.files;
    }
  }

  lemma NotBlocked(names: seq<string>, moved: seq<string>)
    requires forall x :: x in names <==> x in moved
    requires forall i :: 0 <= i < |names| ==> !StartsWith(names[i], "-")
    ensures forall i :: 0 <= i < |moved| ==> !StartsWith(moved[i], "-")
  {
    hide StartsWith;
    forall i | 0 <= i < |moved|
      ensures !StartsWith(moved[i], "-")
    {
      var name := moved[i];
      assert name in moved && name in names;
      var j :| 0 <= j < |names| && names[j] == name;
    }
  }

  lemma ReorderedTwice(a: World, b: World, id: FileId, f: File)
    requires Reordered(a, b) && id in b.files && SameUpToOrder(b.files[id], f)
    ensures Reordered(a, b.(files := b.files[id := f]))
  {
  }

  lemma OtherFile(w: World, id: FileId, f: File, key: Key)
    requires key.path in w.resolved && w.resolved[key.path] != id && id in w.files
    ensures Inspect(w.(files := w.files[id := f]), key) == Inspect(w, key)
  {
  }

  /** Any simple loop is straight in some order of the references. */
  lemma {:induction false} Straighten(w: World, chain: seq<Key>, n: nat) returns (v: World)
    requires IsSimpleLoop(w, chain) && n < |chain|
    ensures Reordered(w, v) && Straight(v, chain, n)
    decreases n
  {
    hide Inspect;
    if n == 0 {
      v := w;
    } else {
      var u := Straighten(w, chain, n - 1);
      var key := chain[n - 1];
      assert Refers(w, key, chain[n]);
      SameFinding(w, u, key);
      var f := BringForward(u, key, chain[n]);
      var id := u.resolved[key.path];
      v := u.(files := u.files[id := f]);
      ReorderedTwice(w, u, id, f);
      forall i | 0 <= i < n - 1
        ensures Inspect(v, chain[i]) == Inspect(u, chain[i])
      {
        assert Refers(w, chain[i], chain[i + 1]);
        HasFileIfReferring(w, chain[i], chain[i + 1]);
        assert !SameFile(w, chain[i], key);
        OtherFile(u, id, f, chain[i]);
      }
    }
  }

  lemma HasFileIfReferring(w: World, a: Key, b: Key)
    requires Refers(w, a, b)
    ensures HasFile(w, a)
  {
  }

  lemma FilesOf(w: World, chain: seq<Key>)
    requires IsChain(w, chain)
    ensures forall i :: 0 <= i < |chain| - 1 ==> HasFile(w, chain[i])
  {
    forall i | 0 <= i < |chain| - 1
      ensures HasFile(w, chain[i])
    {
      assert Refers(w, chain[i], chain[i + 1]);
      HasFileIfReferring(w, chain[i], chain[i + 1]);
    }
  }

  /** The files of the first `n` keys. */
  function Below(w: World, chain: seq<Key>, n: nat): seq<FileId>
    requires n < |chain| && forall i :: 0 <= i < |chain| - 1 ==> HasFile(w, chain[i])
  {
    seq(n, i requires 0 <= i < n && HasFile(w, chain[i]) => w.resolved[chain[i].path])
  }

  lemma FirstReferenceStays(w: World, refs: seq<Key>, ancestors: seq<FileId>, k: Key)
    requires refs != [] && k in FileStatus(w, map[], refs[0], ancestors).1
    ensures k in RefsStatus(w, map[], refs, ancestors).1
    ensures RefsStatus(w, map[], refs, ancestors).1[k] == FileStatus(w, map[], refs[0], ancestors).1[k]
  {
    hide FileStatus;
  }

  lemma BlockedStatus(w: World, key: Key, ancestors: seq<FileId>)
    requires key.path in w.resolved && w.resolved[key.path] in ancestors
    ensures FileStatus(w, map[], key, ancestors).1 == map[key := false]
  {
    hide Inspect;
  }

  lemma NeedsStatus(w: World, key: Key, ancestors: seq<FileId>, k: Key)
    requires HasFile(w, key) && w.resolved[key.path] !in ancestors && Inspect(w, key).Needs? && k != key
    requires k in RefsStatus(w, map[], Inspect(w, key).refs, ancestors + [w.resolved[key.path]]).1
    ensures k in FileStatus(w, map[], key, ancestors).1
    ensures FileStatus(w, map[], key, ancestors).1[k]
      == RefsStatus(w, map[], Inspect(w, key).refs, ancestors + [w.resolved[key.path]]).1[k]
  {
    hide Inspect, RefsStatus;
  }

  /** Down a straight loop the last key is met while its file is on the stack. */
  lemma {:induction false} LastIsBlocked(w: World, chain: seq<Key>, n: nat)
    requires IsSimpleLoop(w, chain) && Straight(w, chain, |chain| - 1) && n < |chain| && chain[0] != chain[|chain| - 1]
    requires forall i :: 0 <= i < |chain| - 1 ==> HasFile(w, chain[i])
    ensures var last, c := chain[|chain| - 1], FileStatus(w, map[], chain[n], Below(w, chain, n)).1;
      last in c && !c[last]
    decreases |chain| - n
  {
    hide Inspect, FileStatus, RefsStatus;
    var last, below := chain[|chain| - 1], Below(w, chain, n);
    if n == |chain| - 1 {
      assert below[0] == w.resolved[last.path];
      BlockedStatus(w, last, below);
    } else {
      LastIsBlocked(w, chain, n + 1);
      var id := w.resolved[chain[n].path];
      assert Below(w, chain, n + 1) == below + [id];
      FirstReferenceStays(w, Inspect(w, chain[n]).refs, below + [id], last);
      assert id !in below by {
        forall i | 0 <= i < n
          ensures below[i] != id
        {
          assert !SameFile(w, chain[i], chain[n]);
        }
      }
      assert n > 0 ==> !SameFile(w, chain[0], chain[n]);
      NeedsStatus(w, chain[n], below, last);
    }
  }

  /** A key that refers back to itself is never verified. */
  lemma {:induction false} NoReturnToVerified(w: World, chain: seq<Key>, n: nat)
    requires |chain| >= 2 && IsChain(w, chain) && chain[0] == chain[|chain| - 1]
    ensures !PassWithin(w, chain[0], n)
    decreases n
  {
    hide Inspect;
    if PassWithin(w, chain[0], n) {
      ChainHeights(w, chain, n);
      NoReturnToVerified(w, chain, n - |chain| + 1);
    }
  }

  /** So a verified loop gives a wrong answer, in some order, to the second query. */
  lemma VerifiedLoopMisleads(w: World, chain: seq<Key>) returns (v: World, keys: seq<Key>)
    requires IsSimpleLoop(w, chain) && Verified(w, chain[|chain| - 1])
    ensures Reordered(w, v) && !AnswersAreExact(v, keys)
  {
    hide Inspect, FileStatus, Refers;
    var last := chain[|chain| - 1];
    v := Straighten(w, chain, |chain| - 1);
    if chain[0] == last {
      var n: nat :| PassWithin(w, last, n);
      NoReturnToVerified(w, chain, n);
    }
    StillALoop(w, v, chain);
    FilesOf(v, chain);
    LastIsBlocked(v, chain, 0);
    SameVerified(w, v, last);
    assert Below(v, chain, 0) == [];
    keys := [chain[0], last];
    TwoQueries(v, map[], chain[0], last);
    CachedStatus(v, FileStatus(v, map[], chain[0], []).1, last, []);
    assert Queries(v, map[], keys).0[1] == false;
    assert keys[1] == last;
  }

  lemma StillALoop(a: World, b: World, chain: seq<Key>)
    requires Reordered(a, b) && IsSimpleLoop(a, chain)
    ensures IsSimpleLoop(b, chain)
  {
    hide Inspect;
    forall i | 0 <= i < |chain| - 1
      ensures Refers(b, chain[i], chain[i + 1])
    {
      assert Refers(a, chain[i], chain[i + 1]);
      SameFinding(a, b, chain[i]);
    }
  }

  /** Query order never matters, however the scripts order their names, exactly
      when no simple loop of references comes back to a file under a verified key. */
  lemma ExactInEveryOrder(w: World)
    ensures NoVerifiedLoop(w) <==> forall v, keys :: Reordered(w, v) ==> AnswersAreExact(v, keys)
  {
    hide Reordered, Queries, Verified;
    if NoVerifiedLoop(w) {
      forall v, keys | Reordered(w, v)
        ensures AnswersAreExact(v, keys)
      {
        SameLoops(w, v);
        QueriesAreExact(v, map[], keys);
      }
    } else {
      var chain :| IsSimpleLoop(w, chain) && Verified(w, chain[|chain| - 1]);
      var v, keys := VerifiedLoopMisleads(w, chain);
    }
  }
}
