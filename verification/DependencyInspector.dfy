/** `Inspector.file`: a memoised recursive check of libraries, linker scripts
    and script interpreters. Paths are already absolute and normalised. */
module DependencyInspector {
  import opened Wrappers
  import opened Archives

  type Path = string
  type FileId = nat

  datatype Kind = SharedLibrary | StaticLibrary | Tool | TextInput

  datatype Key = Key(path: Path, kind: Kind)

  /** What the first bytes of a file turn out to be. */
  datatype Body =
    | Archive(members: Option<seq<Described>>)
    | Elf(info: Option<ElfInfo>)
    | Plain(script: Option<seq<string>>, interpreter: Option<Path>)

  datatype File = File(size: nat, nulInPrefix: bool, body: Body, executable: bool)

  /** `resolved` maps a path to the file it finally names (absent when
      resolution raises), `files` holds the regular files, and `sibling` is
      `path.parent / name`: it looks at the path, not at the resolved file. */
  datatype World = World(
    resolved: map<Path, FileId>,
    files: map<FileId, File>,
    sibling: (Path, string) -> Path)

  /** Either the file alone decides, or it passes when all references do. */
  datatype Finding = Settled(ok: bool) | Needs(refs: seq<Key>, unlessBlocked: bool)

  predicate HasFile(w: World, key: Key) {
    key.path in w.resolved && w.resolved[key.path] in w.files
  }

  function Inspect(w: World, key: Key): Finding {
    if !HasFile(w, key) then Settled(false)
    else
      var f := w.files[w.resolved[key.path]];
      if f.size == 0 then Settled(false)
      else if key.kind.TextInput? then Settled(!f.nulInPrefix)
      else
        match f.body
        case Archive(members) =>
          Settled(key.kind.StaticLibrary? && members.Some? && forall m :: m in members.value ==> TargetElf(m.info, {1}))
        case Elf(info) =>
          Settled(!key.kind.StaticLibrary? && TargetElf(info, if key.kind.Tool? then {2, 3} else {3})
                  && (key.kind.Tool? ==> f.executable))
        case Plain(script, interpreter) =>
          if key.kind.SharedLibrary? then
            if script.Some? && script.value != [] && f.size <= 4096
               && forall i :: 0 <= i < |script.value| ==> !StartsWith(script.value[i], "-")
            then Needs(seq(|script.value|, i requires 0 <= i < |script.value| =>
                   Key(w.sibling(key.path, script.value[i]), SharedLibrary)), true)
            else Settled(false)
          else if key.kind.Tool? && interpreter.Some? then
            Needs([Key(interpreter.value, Tool)], f.executable)
          else Settled(false)
  }

  // ------------------------------------------------ what PASS should mean

  /** A key passes with a reference tree of height at most `n`. */
  ghost predicate PassWithin(w: World, key: Key, n: nat)
    decreases n
  {
    n > 0 && match Inspect(w, key)
      case Settled(ok) => ok
      case Needs(refs, ok) => ok && forall r :: r in refs ==> PassWithin(w, r, n - 1)
  }

  /** Verified: some finite tree of references passes at every node. */
  ghost predicate Verified(w: World, key: Key) {
    exists n: nat :: PassWithin(w, key, n)
  }

  lemma {:induction false} PassGrows(w: World, key: Key, m: nat, n: nat)
    requires m <= n && PassWithin(w, key, m)
    ensures PassWithin(w, key, n)
    decreases n
  {
    if Inspect(w, key).Needs? {
      forall r | r in Inspect(w, key).refs
        ensures PassWithin(w, r, n - 1)
      {
        PassGrows(w, r, m - 1, n - 1);
      }
    }
  }

  lemma {:induction false} CommonHeight(w: World, refs: seq<Key>) returns (n: nat)
    requires forall r :: r in refs ==> Verified(w, r)
    ensures forall r :: r in refs ==> PassWithin(w, r, n)
  {
    n := 0;
    for i := 0 to |refs|
      invariant forall j :: 0 <= j < i ==> PassWithin(w, refs[j], n)
    {
      assert Verified(w, refs[i]);
      var m: nat :| PassWithin(w, refs[i], m);
      var top := if m < n then n else m;
      PassGrows(w, refs[i], m, top);
      forall j | 0 <= j < i
        ensures PassWithin(w, refs[j], top)
      {
        PassGrows(w, refs[j], n, top);
      }
      n := top;
    }
  }

  /** One application of the rule: locally valid, and all references verified. */
  ghost predicate Rule(w: World, key: Key, holds: Key -> bool) {
    match Inspect(w, key)
    case Settled(ok) => ok
    case Needs(refs, ok) => ok && forall r :: r in refs ==> holds(r)
  }

  /** Verified is a fixpoint of the rule ... */
  lemma VerifiedIsFixpoint(w: World, key: Key)
    ensures Verified(w, key) <==>
      match Inspect(w, key)
      case Settled(ok) => ok
      case Needs(refs, ok) => ok && forall r :: r in refs ==> Verified(w, r)
  {
    match Inspect(w, key)
    case Settled(ok) =>
      assert ok ==> PassWithin(w, key, 1);
    case Needs(refs, ok) =>
      if ok && forall r :: r in refs ==> Verified(w, r) {
        var n := CommonHeight(w, refs);
        assert PassWithin(w, key, n + 1);
      }
      if Verified(w, key) {
        var n: nat :| PassWithin(w, key, n);
        assert forall r :: r in refs ==> PassWithin(w, r, n - 1);
      }
  }

  /** ... and the least one: whatever is closed under the rule contains it. */
  lemma {:induction false} VerifiedIsLeast(w: World, holds: Key -> bool, key: Key, n: nat)
    requires forall k :: Rule(w, k, holds) ==> holds(k)
    requires PassWithin(w, key, n)
    ensures holds(key)
    decreases n
  {
    if Inspect(w, key).Needs? {
      forall r | r in Inspect(w, key).refs
        ensures holds(r)
      {
        VerifiedIsLeast(w, holds, r, n - 1);
      }
    }
    assert Rule(w, key, holds);
  }

  // ------------------------------------------------------ the algorithm

  type Cache = map<Key, bool>

  /** The memoised, ancestor-threading evaluation as a function of the cache. */
  function FileStatus(w: World, cache: Cache, key: Key, ancestors: seq<FileId>): (r: (bool, Cache))
    ensures key in r.1 && r.1[key] == r.0
    ensures forall k :: k in cache ==> k in r.1 && r.1[k] == cache[k]
    decreases w.files.Keys - Elements(ancestors), 0
  {
    if key in cache then (cache[key], cache)
    else if key.path !in w.resolved || w.resolved[key.path] in ancestors then (false, cache[key := false])
    else
      match Inspect(w, key)
      case Settled(ok) => (ok, cache[key := ok])
      case Needs(refs, ok) =>
        var id := w.resolved[key.path];
        assert id in w.files.Keys - Elements(ancestors);
        assert w.files.Keys - Elements(ancestors + [id]) < w.files.Keys - Elements(ancestors);
        var (all, inner) := RefsStatus(w, cache, refs, ancestors + [id]);
        (all && ok, inner[key := all && ok])
  }

  /** All references are checked, in order, whatever the earlier ones gave. */
  function RefsStatus(w: World, cache: Cache, refs: seq<Key>, ancestors: seq<FileId>): (r: (bool, Cache))
    ensures forall k :: k in cache ==> k in r.1 && r.1[k] == cache[k]
    ensures forall k :: k in refs ==> k in r.1
    ensures r.0 <==> forall k :: k in refs ==> k in r.1 && r.1[k]
    decreases w.files.Keys - Elements(ancestors), 1 + |refs|
  {
    if refs == [] then (true, cache)
    else
      var (first, c) := FileStatus(w, cache, refs[0], ancestors);
      var (rest, d) := RefsStatus(w, c, refs[1..], ancestors);
      assert refs == [refs[0]] + refs[1..];
      (first && rest, d)
  }

  // ------------------------------------------ what is decided about a file

  /** An AArch64 ELF64 little-endian object of one of these types. */
  predicate Aarch64(info: Option<ElfInfo>, types: set<int>) {
    info.Some? && info.value.bits == 64 && info.value.little && info.value.machine == 183 && info.value.elfType in types
  }

  /** What a key must be, kind by kind, for PASS, given which references pass:
      a reference statement in terms of the file's own fields. */
  ghost predicate Deserves(w: World, key: Key, passes: Key -> bool) {
    && key.path in w.resolved && w.resolved[key.path] in w.files
    && var f := w.files[w.resolved[key.path]];
    && f.size > 0
    && match key.kind
       case TextInput => !f.nulInPrefix
       case StaticLibrary =>
         f.body.Archive? && f.body.members.Some?
         && forall i :: 0 <= i < |f.body.members.value| ==> Aarch64(f.body.members.value[i].info, {1})
       case SharedLibrary =>
         || (f.body.Elf? && Aarch64(f.body.info, {3}))
         || (f.body.Plain? && f.body.script.Some? && |f.body.script.value| >= 1 && f.size <= 4096
             && forall i :: 0 <= i < |f.body.script.value| ==>
                  var name := f.body.script.value[i];
                  !(|name| >= 1 && name[0] == '-') && passes(Key(w.sibling(key.path, name), SharedLibrary)))
       case Tool =>
         || (f.body.Elf? && Aarch64(f.body.info, {2, 3}) && f.executable)
         || (f.body.Plain? && f.body.interpreter.Some? && f.executable && passes(Key(f.body.interpreter.value, Tool)))
  }

  lemma DashIsPrefix(name: string)
    ensures StartsWith(name, "-") <==> |name| >= 1 && name[0] == '-'
  {
    assert |name| >= 1 ==> name[..1] == [name[0]];
  }

  /** One step of the check decides what the file deserves. */
  lemma InspectDecides(w: World, key: Key, passes: Key -> bool)
    ensures Rule(w, key, passes) <==> Deserves(w, key, passes)
  {
    hide StartsWith;
    if HasFile(w, key) {
      var f := w.files[w.resolved[key.path]];
      match f.body
      case Archive(members) =>
        if members.Some? {
          forall i | 0 <= i < |members.value|
            ensures members.value[i] in members.value
          {
          }
        }
      case Elf(_) =>
      case Plain(script, interpreter) =>
        if key.kind.SharedLibrary? && script.Some? && f.size > 0 {
          ScriptDecides(w, key, script.value, passes);
        }
    }
  }

  lemma ScriptDecides(w: World, key: Key, names: seq<string>, passes: Key -> bool)
    requires HasFile(w, key) && key.kind.SharedLibrary?
    requires var f := w.files[w.resolved[key.path]]; f.body.Plain? && f.body.script == Some(names) && f.size > 0
    ensures Rule(w, key, passes) <==>
      && |names| >= 1 && w.files[w.resolved[key.path]].size <= 4096
      && forall i :: 0 <= i < |names| ==>
           !(|names[i]| >= 1 && names[i][0] == '-') && passes(Key(w.sibling(key.path, names[i]), SharedLibrary))
  {
    forall i | 0 <= i < |names| {
      DashIsPrefix(names[i]);
    }
    hide StartsWith;
    if Inspect(w, key).Needs? {
      var refs := Inspect(w, key).refs;
      forall i | 0 <= i < |names|
        ensures refs[i] in refs && refs[i] == Key(w.sibling(key.path, names[i]), SharedLibrary)
      {
      }
    }
  }

  /** Verified, spelled out: what the file's own fields and its verified references say. */
  lemma VerifiedExactly(w: World, key: Key)
    ensures Verified(w, key) <==> Deserves(w, key, k => Verified(w, k))
  {
    var verified: Key -> bool := k => Verified(w, k);
    VerifiedIsFixpoint(w, key);
    InspectDecides(w, key, verified);
    hide Verified, Inspect, Deserves;
  }

  /** The status of a key not asked before, spelled out: its file is not on the
      stack, and it deserves PASS given the statuses stored for its references. */
  lemma StatusExactly(w: World, cache: Cache, key: Key, ancestors: seq<FileId>)
    requires key !in cache
    ensures var (ok, after) := FileStatus(w, cache, key, ancestors);
      ok <==>
        && (key.path in w.resolved ==> w.resolved[key.path] !in ancestors)
        && Deserves(w, key, k => k in after && after[k])
  {
    var (ok, after) := FileStatus(w, cache, key, ancestors);
    var stored: Key -> bool := k => k in after && after[k];
    InspectDecides(w, key, stored);
    hide Deserves;
    if key.path in w.resolved && w.resolved[key.path] !in ancestors && Inspect(w, key).Needs? {
      StoredReferences(w, cache, key, ancestors);
    }
  }

  lemma StoredReferences(w: World, cache: Cache, key: Key, ancestors: seq<FileId>)
    requires key !in cache && HasFile(w, key) && w.resolved[key.path] !in ancestors && Inspect(w, key).Needs?
    ensures var (ok, after) := FileStatus(w, cache, key, ancestors);
      && (forall r :: r in Inspect(w, key).refs ==> r in after)
      && (ok <==> Inspect(w, key).unlessBlocked && forall r :: r in Inspect(w, key).refs ==> after[r])
  {
    hide Inspect;
    RefsBlock(w, cache, Inspect(w, key).refs, ancestors + [w.resolved[key.path]]);
  }

  /** Keys of files on the call stack are only ever stored as blocked. */
  predicate BlocksAncestors(w: World, before: Cache, after: Cache, ancestors: seq<FileId>) {
    forall k :: k in after && k !in before && k.path in w.resolved && w.resolved[k.path] in ancestors ==> !after[k]
  }

  lemma {:induction false} FileBlocks(w: World, cache: Cache, key: Key, ancestors: seq<FileId>)
    ensures BlocksAncestors(w, cache, FileStatus(w, cache, key, ancestors).1, ancestors)
    decreases w.files.Keys - Elements(ancestors), 0
  {
    if key !in cache && key.path in w.resolved && w.resolved[key.path] !in ancestors && Inspect(w, key).Needs? {
      var deeper := ancestors + [w.resolved[key.path]];
      assert w.resolved[key.path] in w.files.Keys - Elements(ancestors);
      assert w.files.Keys - Elements(deeper) < w.files.Keys - Elements(ancestors);
      RefsBlock(w, cache, Inspect(w, key).refs, deeper);
      assert forall a :: a in ancestors ==> a in deeper;
    }
  }

  lemma {:induction false} RefsBlock(w: World, cache: Cache, refs: seq<Key>, ancestors: seq<FileId>)
    ensures BlocksAncestors(w, cache, RefsStatus(w, cache, refs, ancestors).1, ancestors)
    decreases w.files.Keys - Elements(ancestors), 1 + |refs|
  {
    if refs != [] {
      FileBlocks(w, cache, refs[0], ancestors);
      RefsBlock(w, FileStatus(w, cache, refs[0], ancestors).1, refs[1..], ancestors);
    }
  }

  // -------------------------------------- soundness, for every world

  ghost predicate Sound(w: World, cache: Cache) {
    forall k :: k in cache && cache[k] ==> Verified(w, k)
  }

  /** Fail-closed: whatever the cache held, the ancestors and the symbolic
      links, PASS is only ever reported and stored for verified keys. */
  lemma {:induction false} FileIsSound(w: World, cache: Cache, key: Key, ancestors: seq<FileId>)
    requires Sound(w, cache)
    ensures Sound(w, FileStatus(w, cache, key, ancestors).1)
    decreases w.files.Keys - Elements(ancestors), 0
  {
    if key !in cache && key.path in w.resolved && w.resolved[key.path] !in ancestors {
      VerifiedIsFixpoint(w, key);
      match Inspect(w, key)
      case Settled(ok) =>
      case Needs(refs, ok) =>
        var deeper := ancestors + [w.resolved[key.path]];
        assert w.resolved[key.path] in w.files.Keys - Elements(ancestors);
        assert w.files.Keys - Elements(deeper) < w.files.Keys - Elements(ancestors);
        RefsAreSound(w, cache, refs, deeper);
    }
  }

  lemma {:induction false} RefsAreSound(w: World, cache: Cache, refs: seq<Key>, ancestors: seq<FileId>)
    requires Sound(w, cache)
    ensures Sound(w, RefsStatus(w, cache, refs, ancestors).1)
    decreases w.files.Keys - Elements(ancestors), 1 + |refs|
  {
    if refs != [] {
      FileIsSound(w, cache, refs[0], ancestors);
      RefsAreSound(w, FileStatus(w, cache, refs[0], ancestors).1, refs[1..], ancestors);
    }
  }

  // ----------------------------------- completeness, and when it fails

  predicate Refers(w: World, from: Key, to: Key) {
    Inspect(w, from).Needs? && to in Inspect(w, from).refs
  }

  predicate IsChain(w: World, chain: seq<Key>) {
    forall i :: 0 <= i < |chain| - 1 ==> Refers(w, chain[i], chain[i + 1])
  }

  predicate SameFile(w: World, a: Key, b: Key) {
    a.path in w.resolved && b.path in w.resolved && w.resolved[a.path] == w.resolved[b.path]
  }

  /** A chain that comes back to the file it started from under another path. */
  predicate IsLoop(w: World, chain: seq<Key>) {
    |chain| >= 2 && IsChain(w, chain) && SameFile(w, chain[0], chain[|chain| - 1])
  }

  /** It visits no other file twice. */
  predicate IsSimpleLoop(w: World, chain: seq<Key>) {
    && IsLoop(w, chain)
    && forall i, j :: 0 <= i < j < |chain| - 1 ==> !SameFile(w, chain[i], chain[j])
  }

  /** No simple loop comes back to its first file at a key that is verified. */
  ghost predicate NoVerifiedLoop(w: World) {
    forall chain :: IsSimpleLoop(w, chain) ==> !Verified(w, chain[|chain| - 1])
  }

  ghost predicate Exact(w: World, cache: Cache) {
    forall k :: k in cache ==> (cache[k] <==> Verified(w, k))
  }

  /** `stack` is the call stack: the keys whose files are the ancestors. */
  ghost predicate IsStack(w: World, stack: seq<Key>, ancestors: seq<FileId>) {
    && |stack| == |ancestors| && IsChain(w, stack) && NoDuplicates(ancestors)
    && forall i :: 0 <= i < |stack| ==> stack[i].path in w.resolved && w.resolved[stack[i].path] == ancestors[i]
  }

  lemma ChainTail(w: World, chain: seq<Key>, i: nat)
    requires IsChain(w, chain) && i <= |chain|
    ensures IsChain(w, chain[i..])
  {
    hide Refers;
  }

  /** A key whose file is on the stack closes a simple loop. */
  lemma OnTheStack(w: World, key: Key, ancestors: seq<FileId>, stack: seq<Key>)
    requires NoVerifiedLoop(w) && IsStack(w, stack, ancestors) && IsChain(w, stack + [key])
    requires key.path in w.resolved && w.resolved[key.path] in ancestors
    ensures !Verified(w, key)
  {
    hide Verified, Refers;
    var whole := stack + [key];
    var i :| 0 <= i < |ancestors| && ancestors[i] == w.resolved[key.path];
    var chain := whole[i..];
    ChainTail(w, whole, i);
    forall j, k | 0 <= j < k < |chain| - 1
      ensures !SameFile(w, chain[j], chain[k])
    {
      assert chain[j] == stack[i + j] && chain[k] == stack[i + k];
      assert ancestors[i + j] != ancestors[i + k];
    }
    assert chain[0] == stack[i] && chain[|chain| - 1] == key;
    hide IsChain, NoDuplicates;
    assert IsSimpleLoop(w, chain);
  }

  lemma {:induction false} FileIsExact(w: World, cache: Cache, key: Key, ancestors: seq<FileId>, stack: seq<Key>)
    requires NoVerifiedLoop(w) && Exact(w, cache)
    requires IsStack(w, stack, ancestors) && IsChain(w, stack + [key])
    ensures Exact(w, FileStatus(w, cache, key, ancestors).1)
    decreases w.files.Keys - Elements(ancestors), 0
  {
    VerifiedIsFixpoint(w, key);
    if key in cache || key.path !in w.resolved {
    } else if w.resolved[key.path] in ancestors {
      OnTheStack(w, key, ancestors, stack);
    } else if Inspect(w, key).Needs? {
      var deeper := ancestors + [w.resolved[key.path]];
      assert w.resolved[key.path] in w.files.Keys - Elements(ancestors);
      assert w.files.Keys - Elements(deeper) < w.files.Keys - Elements(ancestors);
      RefsAreExact(w, cache, Inspect(w, key).refs, deeper, stack + [key]);
    }
  }

  lemma {:induction false} RefsAreExact(w: World, cache: Cache, refs: seq<Key>, ancestors: seq<FileId>, stack: seq<Key>)
    requires NoVerifiedLoop(w) && Exact(w, cache)
    requires IsStack(w, stack, ancestors) && stack != []
    requires forall r :: r in refs ==> Refers(w, stack[|stack| - 1], r)
    ensures Exact(w, RefsStatus(w, cache, refs, ancestors).1)
    decreases w.files.Keys - Elements(ancestors), 1 + |refs|
  {
    if refs != [] {
      var chain := stack + [refs[0]];
      forall i | 0 <= i < |chain| - 1
        ensures Refers(w, chain[i], chain[i + 1])
      {
        if i < |stack| - 1 {
          assert Refers(w, stack[i], stack[i + 1]);
        } else {
          assert refs[0] in refs && chain[i + 1] == refs[0];
        }
      }
      assert forall r :: r in refs[1..] ==> r in refs;
      FileIsExact(w, cache, refs[0], ancestors, stack);
      RefsAreExact(w, FileStatus(w, cache, refs[0], ancestors).1, refs[1..], ancestors, stack);
    }
  }

  /** A sequence of top-level queries against one inspector. */
  function Queries(w: World, cache: Cache, keys: seq<Key>): (seq<bool>, Cache)
    decreases |keys|
  {
    if keys == [] then ([], cache)
    else
      var (first, c) := FileStatus(w, cache, keys[0], []);
      var (rest, d) := Queries(w, c, keys[1..]);
      ([first] + rest, d)
  }

  /** Order never matters: over any sequence of queries each answer is the
      cache-free, ancestor-free meaning of its key. */
  lemma {:induction false} QueriesAreExact(w: World, cache: Cache, keys: seq<Key>)
    requires NoVerifiedLoop(w) && Exact(w, cache)
    ensures |Queries(w, cache, keys).0| == |keys|
    ensures forall i :: 0 <= i < |keys| ==> (Queries(w, cache, keys).0[i] <==> Verified(w, keys[i]))
    ensures Exact(w, Queries(w, cache, keys).1)
    decreases |keys|
  {
    if keys != [] {
      FileIsExact(w, cache, keys[0], [], []);
      var (first, c) := FileStatus(w, cache, keys[0], []);
      QueriesAreExact(w, c, keys[1..]);
    }
  }

  /** What a caller can check: references are found relative to the path, so
      two names of one file must lead to the same files. */
  ghost predicate ReferencesFollowFiles(w: World) {
    forall p, q, name :: p in w.resolved && q in w.resolved && w.resolved[p] == w.resolved[q] ==>
      SameFile(w, Key(w.sibling(p, name), SharedLibrary), Key(w.sibling(q, name), SharedLibrary))
      || (w.sibling(p, name) !in w.resolved && w.sibling(q, name) !in w.resolved)
  }

  lemma {:induction false} StatusFollowsFile(w: World, a: Key, b: Key, n: nat)
    requires ReferencesFollowFiles(w)
    requires a.kind == b.kind && (SameFile(w, a, b) || (a.path !in w.resolved && b.path !in w.resolved))
    requires PassWithin(w, a, n)
    ensures PassWithin(w, b, n)
    decreases n
  {
    if Inspect(w, a).Needs? {
      var ra, rb := Inspect(w, a).refs, Inspect(w, b).refs;
      forall r | r in rb
        ensures PassWithin(w, r, n - 1)
      {
        var i :| 0 <= i < |rb| && rb[i] == r;
        assert ra[i] in ra;
        StatusFollowsFile(w, ra[i], rb[i], n - 1);
      }
    }
  }

  lemma {:induction false} ChainHeights(w: World, chain: seq<Key>, n: nat)
    requires |chain| >= 1 && IsChain(w, chain) && PassWithin(w, chain[0], n)
    ensures n >= |chain| && PassWithin(w, chain[|chain| - 1], n - |chain| + 1)
    ensures chain[|chain| - 1].kind == chain[0].kind
    decreases |chain|
  {
    if |chain| > 1 {
      assert Refers(w, chain[0], chain[1]);
      var tail := chain[1..];
      assert IsChain(w, tail) by {
        assert forall i :: 0 <= i < |tail| ==> tail[i] == chain[i + 1];
      }
      ChainHeights(w, tail, n - 1);
    }
  }

  lemma {:induction false} KindsAlongChain(w: World, chain: seq<Key>)
    requires |chain| >= 1 && IsChain(w, chain)
    ensures chain[|chain| - 1].kind == chain[0].kind
    decreases |chain|
  {
    if |chain| > 1 {
      assert Refers(w, chain[|chain| - 2], chain[|chain| - 1]);
      var front := chain[..|chain| - 1];
      assert IsChain(w, front);
      KindsAlongChain(w, front);
    }
  }

  lemma {:induction false} LoopsNeverPass(w: World, chain: seq<Key>, n: nat)
    requires ReferencesFollowFiles(w) && IsLoop(w, chain)
    ensures !PassWithin(w, chain[|chain| - 1], n)
    decreases n
  {
    if PassWithin(w, chain[|chain| - 1], n) {
      KindsAlongChain(w, chain);
      StatusFollowsFile(w, chain[|chain| - 1], chain[0], n);
      ChainHeights(w, chain, n);
      LoopsNeverPass(w, chain, n - |chain| + 1);
    }
  }

  /** So the caller's condition suffices for exactness. */
  lemma FollowingFilesSuffices(w: World)
    requires ReferencesFollowFiles(w)
    ensures NoVerifiedLoop(w)
  {
    forall chain | IsSimpleLoop(w, chain)
      ensures !Verified(w, chain[|chain| - 1])
    {
      if Verified(w, chain[|chain| - 1]) {
        var n: nat :| PassWithin(w, chain[|chain| - 1], n);
        LoopsNeverPass(w, chain, n);
      }
    }
  }

  // A linker script reached through a symbolic link in another directory:
  // /lib/l.so links to /opt/r.so, whose text names "x.so".
  const LIBRARY := ElfInfo(64, true, AARCH64, 3)

  const LINKED := World(
    map["/lib/l.so" := 1, "/opt/r.so" := 1, "/lib/x.so" := 2, "/opt/x.so" := 3],
    map[1 := File(12, false, Plain(Some(["x.so"]), None), false),
        2 := File(20, false, Plain(Some(["../opt/r.so"]), None), false),
        3 := File(64, true, Elf(Some(LIBRARY)), false)],
    (path: Path, name: string) =>
      if path == "/lib/l.so" then "/lib/x.so" else if path == "/opt/r.so" then "/opt/x.so" else "/opt/r.so")

  const LINK := Key("/lib/l.so", SharedLibrary)
  const REAL := Key("/opt/r.so", SharedLibrary)

  const NEAR := Key("/lib/x.so", SharedLibrary)
  const FAR := Key("/opt/x.so", SharedLibrary)

  /** Query order matters in that world: asking for the link first blocks both
      names of the script, asking for the script first passes both. */
  lemma OrderCanMatter()
    ensures Queries(LINKED, map[], [REAL, LINK]).0 == [true, true]
    ensures Queries(LINKED, map[], [LINK, REAL]).0 == [false, false]
  {
    LinkedIsScript();
    ScriptFirst(LINKED, LINK, NEAR, REAL, FAR);
    LinkFirst(LINKED, LINK, NEAR, REAL, FAR);
  }

  predicate LinkedScript(w: World, link: Key, near: Key, target: Key, far: Key) {
    && link != target && near != target && link != near
    && HasFile(w, link) && HasFile(w, near) && HasFile(w, target) && HasFile(w, far)
    && SameFile(w, link, target) && !SameFile(w, near, target) && !SameFile(w, far, target)
    && Inspect(w, link) == Needs([near], true) && Inspect(w, near) == Needs([target], true)
    && Inspect(w, target) == Needs([far], true) && Inspect(w, far) == Settled(true)
  }

  lemma PathsDiffer()
    ensures LINK != REAL && NEAR != REAL && LINK != NEAR && FAR != LINK && FAR != REAL && FAR != NEAR
  {
    assert LINK.path[1] == NEAR.path[1] == 'l' && REAL.path[1] == FAR.path[1] == 'o';
    assert LINK.path[5] == 'l' && REAL.path[5] == 'r' && NEAR.path[5] == FAR.path[5] == 'x';
  }

  lemma LinkedFiles()
    ensures var r := LINKED.resolved;
      && LINK.path in r && REAL.path in r && NEAR.path in r && FAR.path in r
      && r[LINK.path] == r[REAL.path] == 1 && r[NEAR.path] == 2 && r[FAR.path] == 3
    ensures LINKED.sibling(LINK.path, "x.so") == NEAR.path && LINKED.sibling(REAL.path, "x.so") == FAR.path
    ensures LINKED.sibling(NEAR.path, "../opt/r.so") == REAL.path
  {
    PathsDiffer();
  }

  lemma ScriptNames(w: World, key: Key, name: string, target: Path)
    requires HasFile(w, key) && key.kind.SharedLibrary? && name != "" && name[0] != '-'
    requires w.files[w.resolved[key.path]].body == Plain(Some([name]), None)
    requires 0 < w.files[w.resolved[key.path]].size <= 4096 && w.sibling(key.path, name) == target
    ensures Inspect(w, key) == Needs([Key(target, SharedLibrary)], true)
  {
    assert name[..1][0] == name[0] && "-"[0] == '-';
    assert !StartsWith(name, "-");
  }

  lemma LinkedIsScript()
    ensures LinkedScript(LINKED, LINK, NEAR, REAL, FAR)
  {
    PathsDiffer();
    LinkedFiles();
    assert "x.so"[0] == 'x' && "../opt/r.so"[0] == '.';
    hide StartsWith, Inspect;
    ScriptNames(LINKED, REAL, "x.so", FAR.path);
    ScriptNames(LINKED, LINK, "x.so", NEAR.path);
    ScriptNames(LINKED, NEAR, "../opt/r.so", REAL.path);
    assert Inspect(LINKED, FAR) == Settled(true) by { FarPasses(); }
  }

  lemma FarPasses()
    ensures Inspect(LINKED, FAR) == Settled(true)
  {
    LinkedFiles();
  }

  lemma ScriptFirst(w: World, link: Key, near: Key, target: Key, far: Key)
    requires LinkedScript(w, link, near, target, far)
    ensures Queries(w, map[], [target, link]).0 == [true, true]
  {
    hide Inspect, FileStatus, Queries, RefsStatus;
    var id := w.resolved[target.path];
    OneReference(w, map[], target, far, []);
    assert FileStatus(w, map[], far, [] + [id]) == (true, map[far := true]) by { LeafStatus(w, far, true, [] + [id]); }
    var passed := FileStatus(w, map[], target, []).1;
    assert passed == map[far := true, target := true];
    if link == far {
      CachedStatus(w, passed, link, []);
    } else {
      OneReference(w, passed, link, near, []);
      if near == far {
        CachedStatus(w, passed, near, [] + [id]);
      } else {
        OneReference(w, passed, near, target, [] + [id]);
        CachedStatus(w, passed, target, [] + [id] + [w.resolved[near.path]]);
      }
    }
    TwoQueries(w, map[], target, link);
  }

  lemma LinkFirst(w: World, link: Key, near: Key, target: Key, far: Key)
    requires LinkedScript(w, link, near, target, far)
    ensures Queries(w, map[], [link, target]).0 == [false, false]
  {
    hide Inspect, FileStatus, Queries, RefsStatus;
    var id := w.resolved[target.path];
    OneReference(w, map[], link, near, []);
    OneReference(w, map[], near, target, [] + [id]);
    OnStack(w, map[], target, [] + [id] + [w.resolved[near.path]]);
    var blocked := FileStatus(w, map[], link, []).1;
    CachedStatus(w, blocked, target, []);
    TwoQueries(w, map[], link, target);
  }

  lemma LeafStatus(w: World, key: Key, ok: bool, ancestors: seq<FileId>)
    requires HasFile(w, key) && w.resolved[key.path] !in ancestors && Inspect(w, key) == Settled(ok)
    ensures FileStatus(w, map[], key, ancestors) == (ok, map[key := ok])
  {
    hide Inspect;
  }

  lemma CachedStatus(w: World, cache: Cache, key: Key, ancestors: seq<FileId>)
    requires key in cache
    ensures FileStatus(w, cache, key, ancestors) == (cache[key], cache)
  {
    hide Inspect;
  }

  lemma OnStack(w: World, cache: Cache, key: Key, ancestors: seq<FileId>)
    requires key !in cache && HasFile(w, key) && w.resolved[key.path] in ancestors
    ensures FileStatus(w, cache, key, ancestors) == (false, cache[key := false])
  {
    hide Inspect;
  }

  lemma TwoQueries(w: World, cache: Cache, a: Key, b: Key)
    ensures Queries(w, cache, [a, b]).0 ==
      var (first, c) := FileStatus(w, cache, a, []); [first, FileStatus(w, c, b, []).0]
  {
    hide Inspect, FileStatus;
    var (first, c) := FileStatus(w, cache, a, []);
    assert [a, b][1..] == [b] && [b][1..] == [];
    assert Queries(w, c, [b]).0 == [FileStatus(w, c, b, []).0] + [];
  }

  lemma OneReference(w: World, cache: Cache, key: Key, r: Key, ancestors: seq<FileId>)
    requires key !in cache && HasFile(w, key) && w.resolved[key.path] !in ancestors
    requires Inspect(w, key) == Needs([r], true)
    ensures FileStatus(w, cache, key, ancestors) ==
      var (ok, inner) := FileStatus(w, cache, r, ancestors + [w.resolved[key.path]]); (ok, inner[key := ok])
  {
    var deeper := ancestors + [w.resolved[key.path]];
    var (ok, inner) := FileStatus(w, cache, r, deeper);
    assert [r][1..] == [];
    assert RefsStatus(w, inner, [], deeper) == (true, inner);
    assert RefsStatus(w, cache, [r], deeper) == (ok, inner);
  }

  class Inspector {
    const w: World
    var cache: Cache

    constructor (w: World)
      ensures this.w == w && cache == map[]
    {
      this.w := w;
      cache := map[];
    }

    method File(key: Key, ancestors: seq<FileId>) returns (ok: bool)
      modifies this
      ensures (ok, cache) == FileStatus(w, old(cache), key, ancestors)
      decreases w.files.Keys - Elements(ancestors)
    {
      if key in cache {
        return cache[key];
      }
      ok := false;
      if key.path in w.resolved && w.resolved[key.path] !in ancestors {
        match Inspect(w, key)
        case Settled(verdict) =>
          ok := verdict;
        case Needs(refs, unlessBlocked) =>
          var id := w.resolved[key.path];
          ghost var before := cache;
          assert id in w.files.Keys - Elements(ancestors);
          assert w.files.Keys - Elements(ancestors + [id]) < w.files.Keys - Elements(ancestors);
          var all := true;
          assert refs[0..] == refs;
          for i := 0 to |refs|
            invariant RefsStatus(w, before, refs, ancestors + [id]) ==
              var rest := RefsStatus(w, cache, refs[i..], ancestors + [id]); (all && rest.0, rest.1)
          {
            assert refs[i..][1..] == refs[i + 1..];
            var status := this.File(refs[i], ancestors + [id]);
            all := all && status;
          }
          ok := all && unlessBlocked;
      }
      cache := cache[key := ok];
    }
  }
}
