/** stage_report.py: scoped stage evidence. A report pins its evidence files and
    its prerequisite reports by SHA-256; validation rechecks the whole graph. */
module StageReport {
  import opened Wrappers

  type Path = string

  const SCHEMA_VERSION := 1
  const MAX_DEPTH := 32

  datatype Json =
    | Null
    | Bool(b: bool)
    | Int(n: int)
    | Str(s: string)
    | List(items: seq<Json>)
    | Obj(fields: map<string, Json>)

  /** What the code takes from its platform. `Path` values are resolved; `decode`
      is None where JSON reading raises; `resolve(value, base)` is
      `(base / value).resolve()`; `strip` and `fromisoformat` are predicates. */
  datatype World = World(
    hash: Bytes -> string,
    encode: Json -> Bytes,
    decode: Bytes -> Option<Json>,
    resolve: (string, Path) -> Option<Path>,
    relative: (Path, Path) -> string,
    parent: Path -> Path,
    blank: string -> bool,
    zonedTime: string -> bool)

  /** The regular files. */
  type Files = map<Path, Bytes>

  ghost predicate CollisionFree(w: World) {
    forall a, b :: w.hash(a) == w.hash(b) ==> a == b
  }

  // ------------------------------------------------------- report content

  function Field(j: Json, key: string): Json {
    if j.Obj? && key in j.fields then j.fields[key] else Null
  }

  predicate Text(w: World, j: Json) {
    j.Str? && !w.blank(j.s)
  }

  predicate IsDigest(s: string) {
    |s| == 64 && forall i :: 0 <= i < 64 ==> '0' <= s[i] <= '9' || 'a' <= s[i] <= 'f'
  }

  /** `_resolve` */
  function Resolve(w: World, value: Json, base: Path): Option<Path> {
    if Text(w, value) then w.resolve(value.s, base) else None
  }

  datatype Pin = Pin(path: Path, checksum: string)

  /** `_file_identity` */
  function FileIdentity(w: World, record: Json, base: Path): Option<Pin> {
    if !record.Obj? then None
    else
      var path :- Resolve(w, Field(record, "path"), base);
      var checksum := Field(record, "sha256");
      if checksum.Str? && IsDigest(checksum.s) then Some(Pin(path, checksum.s)) else None
  }

  /** The fields `_content_errors` reads. */
  datatype Content = Content(
    schema: Json, stageId: Json, scope: Json, createdAt: Json, exitCode: Json, command: Json,
    sources: Json, required: Json, checks: Json, evidence: Json, prerequisites: Json)

  function ContentOf(report: Json): Content {
    Content(Field(report, "schema_version"), Field(report, "stage_id"), Field(report, "scope"),
            Field(report, "created_at"), Field(report, "exit_code"), Field(report, "command"),
            Field(report, "sources"), Field(report, "required_checks"), Field(report, "checks"),
            Field(report, "evidence"), Field(report, "prerequisites"))
  }

  predicate IdentityOk(w: World, c: Content, id: string, scope: string) {
    && c.schema == Int(SCHEMA_VERSION)
    && !w.blank(id) && c.stageId == Str(id)
    && !w.blank(scope) && c.scope == Str(scope)
    && c.createdAt.Str? && w.zonedTime(c.createdAt.s)
    && c.exitCode == Int(0)
  }

  predicate CommandOk(w: World, c: Content) {
    && c.command.List? && c.command.items != [] && Text(w, c.command.items[0])
    && forall i :: 0 <= i < |c.command.items| ==> c.command.items[i].Str?
  }

  predicate SourceOk(w: World, name: string, source: Json) {
    !w.blank(name) && source.Obj? && Text(w, Field(source, "location")) && Text(w, Field(source, "revision"))
  }

  predicate SourcesOk(w: World, c: Content) {
    && c.sources.Obj? && c.sources.fields.Keys != {}
    && forall n :: n in c.sources.fields.Keys ==> SourceOk(w, n, c.sources.fields[n])
  }

  predicate NamesOk(w: World, required: Json) {
    && required.List? && required.items != []
    && forall i :: 0 <= i < |required.items| ==> Text(w, required.items[i])
  }

  predicate ChecksOk(w: World, c: Content) {
    && NamesOk(w, c.required) && NoDuplicates(c.required.items)
    && c.checks.Obj? && c.checks.fields.Keys != {}
    && (forall i :: 0 <= i < |c.required.items| ==>
          c.required.items[i].Str? && c.required.items[i].s in c.checks.fields)
    && forall n :: n in c.checks.fields.Keys ==>
      !w.blank(n) && Str(n) in c.required.items && c.checks.fields[n] == Str("PASS")
  }

  /** One evidence record: not the report itself, present, and unchanged. */
  predicate EvidenceOk(w: World, files: Files, name: string, record: Json, path: Path) {
    var pin := FileIdentity(w, record, w.parent(path));
    !w.blank(name) && pin.Some? && pin.value.path != path
    && pin.value.path in files && w.hash(files[pin.value.path]) == pin.value.checksum
  }

  predicate AllEvidenceOk(w: World, files: Files, c: Content, path: Path) {
    && c.evidence.Obj? && c.evidence.fields.Keys != {}
    && (c.checks.Obj? ==> c.checks.fields.Keys <= c.evidence.fields.Keys)
    && forall n :: n in c.evidence.fields.Keys ==> EvidenceOk(w, files, n, c.evidence.fields[n], path)
  }

  /** A report together with what its referrer expects of it. */
  datatype Link = Link(path: Path, id: string, scope: string, checksum: Option<string>)

  /** A prerequisite record, read relative to the report that holds it. */
  function LinkOf(w: World, record: Json, path: Path): Option<Link> {
    if record.Obj? && Text(w, Field(record, "stage_id")) && Text(w, Field(record, "scope")) then
      var pin :- FileIdentity(w, record, w.parent(path));
      Some(Link(pin.path, Field(record, "stage_id").s, Field(record, "scope").s, Some(pin.checksum)))
    else None
  }

  /** Every record is readable and no stage is listed twice. */
  predicate RecordsOk(w: World, c: Content, path: Path) {
    && c.prerequisites.List?
    && (forall i :: 0 <= i < |c.prerequisites.items| ==> LinkOf(w, c.prerequisites.items[i], path).Some?)
    && forall i, j :: 0 <= i < j < |c.prerequisites.items| ==>
      Field(c.prerequisites.items[i], "stage_id") != Field(c.prerequisites.items[j], "stage_id")
  }

  /** Everything `_content_errors` checks short of opening the prerequisites. */
  predicate LocalContentOk(w: World, files: Files, c: Content, link: Link) {
    && IdentityOk(w, c, link.id, link.scope) && CommandOk(w, c) && SourcesOk(w, c) && ChecksOk(w, c)
    && AllEvidenceOk(w, files, c, link.path) && RecordsOk(w, c, link.path)
  }

  /** The prerequisites of a report, as links. */
  function Prerequisites(w: World, c: Content, path: Path): seq<Link>
    requires RecordsOk(w, c, path)
  {
    seq(|c.prerequisites.items|, i requires 0 <= i < |c.prerequisites.items| =>
      LinkOf(w, c.prerequisites.items[i], path).value)
  }

  /** The report document behind a link, when `_validate_file` can read it. */
  function Document(w: World, files: Files, link: Link): Option<Json> {
    if link.path !in files then None
    else if link.checksum.Some? && w.hash(files[link.path]) != link.checksum.value then None
    else
      var report :- w.decode(files[link.path]);
      if report.Obj? then Some(report) else None
  }

  predicate SaysPass(report: Json) {
    Field(report, "status") == Str("PASS") && Field(report, "errors") == List([])
  }

  /** `_content_errors` is empty. */
  predicate ContentOk(w: World, files: Files, c: Content, link: Link, ancestors: seq<Path>)
    decreases MAX_DEPTH - |ancestors|, 1
  {
    && LocalContentOk(w, files, c, link)
    && var next := Prerequisites(w, c, link.path);
       forall i :: 0 <= i < |next| ==> Accepts(w, files, next[i], ancestors)
  }

  /** `_validate_file` returns the report. */
  predicate Accepts(w: World, files: Files, link: Link, ancestors: seq<Path>)
    decreases MAX_DEPTH - |ancestors|, 0
  {
    && link.path !in ancestors && |ancestors| < MAX_DEPTH
    && var report := Document(w, files, link);
       && report.Some? && SaysPass(report.value)
       && ContentOk(w, files, ContentOf(report.value), link, ancestors + [link.path])
  }

  // --------------------------------------- acceptance, chain by chain

  /** The report itself is sound: readable under its pin, PASS, exact identity,
      checks and evidence in order, prerequisite records readable. */
  predicate Sound(w: World, files: Files, link: Link) {
    var report := Document(w, files, link);
    report.Some? && SaysPass(report.value) && LocalContentOk(w, files, ContentOf(report.value), link)
  }

  /** The links a sound report leads to. */
  function Next(w: World, files: Files, link: Link): seq<Link> {
    if Sound(w, files, link) then Prerequisites(w, ContentOf(Document(w, files, link).value), link.path) else []
  }

  predicate IsChain(w: World, files: Files, chain: seq<Link>) {
    chain != [] && forall i :: 0 <= i < |chain| - 1 ==> chain[i + 1] in Next(w, files, chain[i])
  }

  function PathsOf(chain: seq<Link>): seq<Path> {
    seq(|chain|, i requires 0 <= i < |chain| => chain[i].path)
  }

  /** One chain below `ancestors`: short enough, never back at a report already
      on it, and ending in a sound report. */
  predicate ChainOk(w: World, files: Files, chain: seq<Link>, ancestors: seq<Path>)
    requires chain != []
  {
    && |ancestors| + |chain| <= 32
    && NoDuplicates(PathsOf(chain))
    && (forall i :: 0 <= i < |chain| ==> chain[i].path !in ancestors)
    && Sound(w, files, chain[|chain| - 1])
  }

  lemma AcceptsUnfolds(w: World, files: Files, link: Link, ancestors: seq<Path>)
    ensures Accepts(w, files, link, ancestors) <==>
      && link.path !in ancestors && |ancestors| < MAX_DEPTH && Sound(w, files, link)
      && forall i :: 0 <= i < |Next(w, files, link)| ==>
           Accepts(w, files, Next(w, files, link)[i], ancestors + [link.path])
  {
    hide IdentityOk, CommandOk, SourcesOk, ChecksOk, AllEvidenceOk, SaysPass, Document, Prerequisites, ContentOf;
    var deeper := ancestors + [link.path];
    if link.path !in ancestors && |ancestors| < MAX_DEPTH && Sound(w, files, link) {
      var c := ContentOf(Document(w, files, link).value);
      assert Next(w, files, link) == Prerequisites(w, c, link.path);
      assert Accepts(w, files, link, ancestors) <==> ContentOk(w, files, c, link, deeper);
    }
  }

  lemma {:induction false} AcceptedChain(w: World, files: Files, chain: seq<Link>, ancestors: seq<Path>)
    requires IsChain(w, files, chain) && Accepts(w, files, chain[0], ancestors)
    ensures ChainOk(w, files, chain, ancestors)
    decreases |chain|
  {
    hide Accepts, Sound, Next;
    AcceptsUnfolds(w, files, chain[0], ancestors);
    if |chain| > 1 {
      var tail, deeper := chain[1..], ancestors + [chain[0].path];
      assert chain[1] in Next(w, files, chain[0]);
      var i :| 0 <= i < |Next(w, files, chain[0])| && Next(w, files, chain[0])[i] == chain[1];
      assert IsChain(w, files, tail) by {
        assert forall k :: 0 <= k < |tail| ==> tail[k] == chain[k + 1];
      }
      hide IsChain, ChainOk;
      AcceptedChain(w, files, tail, deeper);
      LongerChainOk(w, files, chain, ancestors);
    } else {
      assert PathsOf(chain) == [chain[0].path];
    }
  }

  lemma LongerChainOk(w: World, files: Files, chain: seq<Link>, ancestors: seq<Path>)
    requires |chain| > 1 && chain[0].path !in ancestors
    requires ChainOk(w, files, chain[1..], ancestors + [chain[0].path])
    ensures ChainOk(w, files, chain, ancestors)
  {
    hide Sound;
    var tail, deeper := chain[1..], ancestors + [chain[0].path];
    assert forall k :: 0 <= k < |tail| ==> tail[k].path !in deeper && PathsOf(tail)[k] == PathsOf(chain)[k + 1];
    assert chain[0].path in deeper;
    forall i, j | 0 <= i < j < |chain|
      ensures PathsOf(chain)[i] != PathsOf(chain)[j]
    {
      assert PathsOf(tail)[j - 1] == PathsOf(chain)[j] && tail[j - 1].path !in deeper;
      if i > 0 {
        assert PathsOf(tail)[i - 1] == PathsOf(chain)[i];
      }
    }
    forall i | 0 <= i < |chain|
      ensures chain[i].path !in ancestors
    {
      assert i > 0 ==> tail[i - 1].path !in deeper;
    }
  }

  lemma ChainExtends(w: World, files: Files, link: Link, chain: seq<Link>)
    requires IsChain(w, files, chain) && chain[0] in Next(w, files, link)
    ensures IsChain(w, files, [link] + chain)
  {
    hide Next;
    var longer := [link] + chain;
    forall k | 0 <= k < |longer| - 1
      ensures longer[k + 1] in Next(w, files, longer[k])
    {
      if k > 0 {
        assert longer[k] == chain[k - 1] && longer[k + 1] == chain[k];
      }
    }
  }

  lemma ShorterChainOk(w: World, files: Files, link: Link, chain: seq<Link>, ancestors: seq<Path>)
    requires chain != [] && ChainOk(w, files, [link] + chain, ancestors)
    ensures ChainOk(w, files, chain, ancestors + [link.path])
  {
    hide Sound;
    var longer := [link] + chain;
    assert forall k :: 0 <= k < |chain| ==> longer[k + 1] == chain[k];
    assert forall k :: 0 <= k < |chain| ==> PathsOf(chain)[k] == PathsOf(longer)[k + 1];
    forall k | 0 <= k < |chain|
      ensures chain[k].path !in ancestors + [link.path]
    {
      assert PathsOf(longer)[0] != PathsOf(longer)[k + 1];
      assert longer[k + 1].path !in ancestors;
    }
  }

  lemma {:induction false} ChainsSuffice(w: World, files: Files, link: Link, ancestors: seq<Path>)
    requires forall chain :: IsChain(w, files, chain) && chain[0] == link ==> ChainOk(w, files, chain, ancestors)
    ensures Accepts(w, files, link, ancestors)
    decreases MAX_DEPTH - |ancestors|
  {
    hide Accepts, Sound, Next;
    AcceptsUnfolds(w, files, link, ancestors);
    assert IsChain(w, files, [link]);
    assert ChainOk(w, files, [link], ancestors);
    var deeper := ancestors + [link.path];
    forall i | 0 <= i < |Next(w, files, link)|
      ensures Accepts(w, files, Next(w, files, link)[i], deeper)
    {
      var child := Next(w, files, link)[i];
      forall chain | IsChain(w, files, chain) && chain[0] == child
        ensures ChainOk(w, files, chain, deeper)
      {
        hide ChainOk;
        ChainExtends(w, files, link, chain);
        assert ([link] + chain)[0] == link;
        ShorterChainOk(w, files, link, chain, ancestors);
      }
      ChainsSuffice(w, files, child, deeper);
    }
  }

  /** A report is accepted exactly when every prerequisite chain from it is at
      most 32 reports long, never returns to a report on it, and ends in a sound
      report: PASS, exact identity, unchanged evidence. */
  lemma AcceptedByChains(w: World, files: Files, root: Link)
    ensures Accepts(w, files, root, []) <==>
      forall chain :: IsChain(w, files, chain) && chain[0] == root ==> ChainOk(w, files, chain, [])
  {
    hide Accepts, Sound, Next, ChainOk;
    if Accepts(w, files, root, []) {
      forall chain | IsChain(w, files, chain) && chain[0] == root
        ensures ChainOk(w, files, chain, [])
      {
        AcceptedChain(w, files, chain, []);
      }
    }
    if forall chain :: IsChain(w, files, chain) && chain[0] == root ==> ChainOk(w, files, chain, []) {
      ChainsSuffice(w, files, root, []);
    }
  }

  // ------------------------------------------------- tamper evidence

  predicate IsEvidence(w: World, files: Files, link: Link, p: Path) {
    && Sound(w, files, link)
    && var c := ContentOf(Document(w, files, link).value);
       exists n :: n in c.evidence.fields.Keys && FileIdentity(w, c.evidence.fields[n], w.parent(link.path)).value.path == p
  }

  /** `p` is opened when the graph below `link` is validated to depth `n`. */
  predicate Reads(w: World, files: Files, link: Link, n: nat, p: Path)
    decreases n
  {
    || p == link.path
    || IsEvidence(w, files, link, p)
    || (n > 0 && exists i :: 0 <= i < |Next(w, files, link)| && Reads(w, files, Next(w, files, link)[i], n - 1, p))
  }

  predicate SameAt(a: Files, b: Files, p: Path) {
    p in a && p in b && a[p] == b[p]
  }

  lemma SoundTransfers(w: World, a: Files, b: Files, link: Link)
    requires Sound(w, a, link) && SameAt(a, b, link.path)
    requires forall p :: IsEvidence(w, a, link, p) ==> SameAt(a, b, p)
    ensures Sound(w, b, link) && Next(w, b, link) == Next(w, a, link)
  {
    hide IdentityOk, CommandOk, SourcesOk, ChecksOk, RecordsOk, Prerequisites;
    var c := ContentOf(Document(w, a, link).value);
    forall n | n in c.evidence.fields.Keys
      ensures EvidenceOk(w, b, n, c.evidence.fields[n], link.path)
    {
      assert EvidenceOk(w, a, n, c.evidence.fields[n], link.path);
      assert IsEvidence(w, a, link, FileIdentity(w, c.evidence.fields[n], w.parent(link.path)).value.path);
    }
  }

  lemma SoundEvidence(w: World, files: Files, link: Link, n: string)
    requires Sound(w, files, link)
    requires n in ContentOf(Document(w, files, link).value).evidence.fields
    ensures EvidenceOk(w, files, n, ContentOf(Document(w, files, link).value).evidence.fields[n], link.path)
  {
    hide IdentityOk, CommandOk, SourcesOk, ChecksOk, RecordsOk, EvidenceOk;
  }

  lemma SoundPinsEvidence(w: World, a: Files, b: Files, link: Link, p: Path)
    requires CollisionFree(w) && Sound(w, a, link) && Sound(w, b, link) && SameAt(a, b, link.path)
    requires IsEvidence(w, a, link, p)
    ensures SameAt(a, b, p)
  {
    hide IdentityOk, CommandOk, SourcesOk, ChecksOk, RecordsOk, FileIdentity;
    var c := ContentOf(Document(w, a, link).value);
    assert forall n :: n in c.evidence.fields.Keys ==> EvidenceOk(w, a, n, c.evidence.fields[n], link.path);
    assert c.evidence.fields.Keys != {};
    var n :| n in c.evidence.fields.Keys && FileIdentity(w, c.evidence.fields[n], w.parent(link.path)).value.path == p;
    SoundEvidence(w, a, link, n);
    SoundEvidence(w, b, link, n);
  }

  lemma NextIsPinned(w: World, files: Files, link: Link, i: nat)
    requires i < |Next(w, files, link)|
    ensures Next(w, files, link)[i].checksum.Some?
  {
    hide IdentityOk, CommandOk, SourcesOk, ChecksOk, AllEvidenceOk;
  }

  /** The reports below the root of an accepted graph are read under their own
      pins, so only the root's bytes have to be given. */
  lemma {:induction false} SameGraph(w: World, a: Files, b: Files, link: Link, ancestors: seq<Path>, n: nat)
    requires CollisionFree(w) && |ancestors| + n == MAX_DEPTH
    requires Accepts(w, a, link, ancestors) && SameAt(a, b, link.path)
    ensures Accepts(w, b, link, ancestors) <==> forall p :: Reads(w, a, link, n, p) ==> SameAt(a, b, p)
    decreases n
  {
    hide Accepts, Sound, Next, IsEvidence, SameAt;
    AcceptsUnfolds(w, a, link, ancestors);
    AcceptsUnfolds(w, b, link, ancestors);
    var deeper := ancestors + [link.path];
    if forall p :: Reads(w, a, link, n, p) ==> SameAt(a, b, p) {
      assert forall p :: IsEvidence(w, a, link, p) ==> Reads(w, a, link, n, p);
      SoundTransfers(w, a, b, link);
      forall i | 0 <= i < |Next(w, a, link)|
        ensures Accepts(w, b, Next(w, a, link)[i], deeper)
      {
        var child := Next(w, a, link)[i];
        assert forall p :: Reads(w, a, child, n - 1, p) ==> Reads(w, a, link, n, p);
        assert Reads(w, a, child, n - 1, child.path);
        SameGraph(w, a, b, child, deeper, n - 1);
      }
    }
    if Accepts(w, b, link, ancestors) {
      forall p | Reads(w, a, link, n, p)
        ensures SameAt(a, b, p)
      {
        if IsEvidence(w, a, link, p) {
          SoundPinsEvidence(w, a, b, link, p);
        } else if p != link.path {
          var i :| 0 <= i < |Next(w, a, link)| && Reads(w, a, Next(w, a, link)[i], n - 1, p);
          SameNext(w, a, b, link);
          PinnedBytes(w, a, b, Next(w, a, link)[i], deeper);
          NextIsPinned(w, a, link, i);
          SameGraph(w, a, b, Next(w, a, link)[i], deeper, n - 1);
        }
      }
    }
  }

  lemma SameNext(w: World, a: Files, b: Files, link: Link)
    requires Sound(w, a, link) && Sound(w, b, link) && SameAt(a, b, link.path)
    ensures Next(w, a, link) == Next(w, b, link)
  {
    hide LocalContentOk, Prerequisites, SaysPass;
  }

  lemma PinnedBytes(w: World, a: Files, b: Files, link: Link, ancestors: seq<Path>)
    requires CollisionFree(w) && Accepts(w, a, link, ancestors) && Accepts(w, b, link, ancestors)
    ensures link.checksum.Some? ==> SameAt(a, b, link.path)
  {
    hide LocalContentOk, SaysPass;
  }

  /** Merkle property, in both directions: once a root report is accepted in one
      file system, another one holding the same root bytes accepts it exactly
      when every prerequisite report and evidence file below it is identical. */
  lemma RootPinsEverything(w: World, a: Files, b: Files, root: Link)
    requires CollisionFree(w)
    requires Accepts(w, a, root, []) && SameAt(a, b, root.path)
    ensures Accepts(w, b, root, []) <==> forall p :: Reads(w, a, root, MAX_DEPTH, p) ==> SameAt(a, b, p)
  {
    hide Accepts;
    SameGraph(w, a, b, root, [], MAX_DEPTH);
  }

  // -------------------------------------------------- writing a report

  datatype Input = Input(id: string, scope: string, path: string)

  /** The arguments of `write_report`, with the clock reading. */
  datatype Request = Request(
    id: string, scope: string, createdAt: string, exitCode: Json, required: Json, checks: Json,
    evidence: map<string, string>, sources: Json, command: Json, prerequisites: seq<Input>)

  /** `_snapshot`: a missing file stays in the record with a null digest. */
  function Snapshot(w: World, files: Files, value: string, cwd: Path, base: Path): map<string, Json> {
    var path := Resolve(w, Str(value), cwd);
    if path.None? then map["path" := Str(value), "sha256" := Null]
    else
      map["path" := Str(w.relative(path.value, base)),
          "sha256" := if path.value in files then Str(w.hash(files[path.value])) else Null]
  }

  function Draft(w: World, files: Files, cwd: Path, r: Request, path: Path): Content {
    var base := w.parent(path);
    Content(Int(SCHEMA_VERSION), Str(r.id), Str(r.scope), Str(r.createdAt), r.exitCode, r.command, r.sources,
            r.required, r.checks,
            Obj(map n | n in r.evidence :: Obj(Snapshot(w, files, r.evidence[n], cwd, base))),
            List(seq(|r.prerequisites|, i requires 0 <= i < |r.prerequisites| =>
              Obj(map["stage_id" := Str(r.prerequisites[i].id), "scope" := Str(r.prerequisites[i].scope)]
                  + Snapshot(w, files, r.prerequisites[i].path, cwd, base)))))
  }

  /** The document that is written, for the errors found in its content. */
  function Report(c: Content, errors: seq<string>): Json {
    Obj(map[
      "schema_version" := c.schema, "stage_id" := c.stageId, "scope" := c.scope, "created_at" := c.createdAt,
      "exit_code" := c.exitCode, "required_checks" := c.required, "checks" := c.checks,
      "evidence" := c.evidence, "sources" := c.sources, "command" := c.command,
      "prerequisites" := c.prerequisites,
      "status" := Str(if errors == [] then "PASS" else "FAIL"),
      "errors" := List(seq(|errors|, i requires 0 <= i < |errors| => Str(errors[i])))])
  }

  lemma KeysDiffer()
    ensures |"scope"| == 5 && |"checks"| == 6 && |"status"| == 6 && |"errors"| == 6 && |"sources"| == 7
    ensures |"command"| == 7 && |"stage_id"| == 8 && |"evidence"| == 8 && |"exit_code"| == 9
    ensures |"created_at"| == 10 && |"prerequisites"| == 13 && |"schema_version"| == 14 && |"required_checks"| == 15
    ensures "stage_id" != "evidence" && "sources" != "command"
    ensures "checks" != "status" && "checks" != "errors" && "status" != "errors" && "PASS" != "FAIL"
  {
    assert "stage_id"[0] == 's' && "evidence"[0] == 'e' && "sources"[0] == 's' && "command"[0] == 'c';
    assert "checks"[0] == 'c' && "status"[0] == 's' && "errors"[0] == 'e';
    assert "PASS"[0] == 'P' && "FAIL"[0] == 'F';
  }

  lemma ReportFields(c: Content, errors: seq<string>)
    ensures var r := Report(c, errors);
      && Field(r, "schema_version") == c.schema && Field(r, "stage_id") == c.stageId
      && Field(r, "scope") == c.scope && Field(r, "created_at") == c.createdAt
      && Field(r, "exit_code") == c.exitCode && Field(r, "required_checks") == c.required
  {
    KeysDiffer();
  }

  lemma MoreReportFields(c: Content, errors: seq<string>)
    ensures var r := Report(c, errors);
      && Field(r, "checks") == c.checks && Field(r, "evidence") == c.evidence
      && Field(r, "sources") == c.sources && Field(r, "command") == c.command
      && Field(r, "prerequisites") == c.prerequisites
      && Field(r, "status") == Str(if errors == [] then "PASS" else "FAIL")
      && Field(r, "errors") == List(seq(|errors|, i requires 0 <= i < |errors| => Str(errors[i])))
  {
    KeysDiffer();
  }

  lemma ReportContent(c: Content, errors: seq<string>)
    ensures ContentOf(Report(c, errors)) == c
    ensures SaysPass(Report(c, errors)) <==> errors == []
  {
    ReportFields(c, errors);
    MoreReportFields(c, errors);
    hide Report, Field;
    assert "PASS" != "FAIL" by { assert "PASS"[0] == 'P' && "FAIL"[0] == 'F'; }
  }

  // ------------------------------------- writer and validator agree

  ghost predicate FaithfulJson(w: World) {
    forall j {:trigger w.encode(j)} :: w.decode(w.encode(j)) == Some(j)
  }

  lemma ReadsExist(w: World, files: Files, link: Link, ancestors: seq<Path>, n: nat)
    requires CollisionFree(w) && |ancestors| + n == MAX_DEPTH && Accepts(w, files, link, ancestors)
    ensures forall p :: Reads(w, files, link, n, p) ==> p in files
  {
    hide Accepts, Reads;
    assert link.path in files by { AcceptedExists(w, files, link, ancestors); }
    SameGraph(w, files, files, link, ancestors, n);
    forall p | Reads(w, files, link, n, p)
      ensures p in files
    {
      assert SameAt(files, files, p);
    }
  }

  lemma AcceptedExists(w: World, files: Files, link: Link, ancestors: seq<Path>)
    requires Accepts(w, files, link, ancestors)
    ensures link.path in files && link.path !in ancestors
  {
    hide LocalContentOk, SaysPass;
  }

  /** The write changes a file that validation opens below `child`. */
  predicate Disturbs(w: World, files: Files, child: Link, path: Path, bytes: Bytes) {
    Reads(w, files, child, MAX_DEPTH - 1, path) && !(path in files && files[path] == bytes)
  }

  /** Writing `path` disturbs an accepted prerequisite only if `path` is read
      below it and its bytes change. */
  lemma PrerequisiteSurvives(w: World, files: Files, child: Link, path: Path, bytes: Bytes)
    requires CollisionFree(w) && Accepts(w, files, child, [path])
    ensures Accepts(w, files[path := bytes], child, [path]) <==> !Disturbs(w, files, child, path, bytes)
  {
    hide Accepts, Reads;
    var n, after := MAX_DEPTH - 1, files[path := bytes];
    AcceptedExists(w, files, child, [path]);
    ReadsExist(w, files, child, [path], n);
    SameGraph(w, files, after, child, [path], n);
    if !Disturbs(w, files, child, path, bytes) {
      forall p | Reads(w, files, child, n, p)
        ensures SameAt(files, after, p)
      {
      }
    } else {
      assert Reads(w, files, child, n, path) && !SameAt(files, after, path);
    }
  }

  lemma OwnEvidenceSurvives(w: World, files: Files, c: Content, link: Link, bytes: Bytes)
    requires LocalContentOk(w, files, c, link)
    ensures LocalContentOk(w, files[link.path := bytes], c, link)
  {
    hide IdentityOk, CommandOk, SourcesOk, ChecksOk, RecordsOk, FileIdentity;
  }

  /** `validate_report` accepts what `write_report` has just written, for the
      same stage and scope, exactly when the writer recorded PASS and the output
      was not evidence below a prerequisite, unless the write left it as it was. */
  lemma WriterAndValidatorAgree(w: World, files: Files, c: Content, path: Path, id: string, scope: string, errors: seq<string>)
    requires CollisionFree(w) && FaithfulJson(w)
    requires errors == [] <==> ContentOk(w, files, c, Link(path, id, scope, None), [path])
    ensures var bytes := w.encode(Report(c, errors));
      Accepts(w, files[path := bytes], Link(path, id, scope, None), []) <==>
        && errors == []
        && forall i :: 0 <= i < |Prerequisites(w, c, path)| ==>
             !Disturbs(w, files, Prerequisites(w, c, path)[i], path, bytes)
  {
    hide IdentityOk, CommandOk, SourcesOk, ChecksOk, AllEvidenceOk, RecordsOk;
    hide SaysPass, Report, ContentOf, Disturbs, Prerequisites, Accepts;
    var link, bytes := Link(path, id, scope, None), w.encode(Report(c, errors));
    var after := files[path := bytes];
    ReportContent(c, errors);
    assert Document(w, after, link) == Some(Report(c, errors)) by { assert Report(c, errors).Obj? by { IsObject(c, errors); } }
    WholeDocument(w, after, link, c, errors);
    if errors == [] {
      OwnEvidenceSurvives(w, files, c, link, bytes);
      var next := Prerequisites(w, c, path);
      forall i | 0 <= i < |next|
        ensures Accepts(w, after, next[i], [path]) <==> !Disturbs(w, files, next[i], path, bytes)
      {
        PrerequisiteSurvives(w, files, next[i], path, bytes);
      }
    }
  }

  lemma IsObject(c: Content, errors: seq<string>)
    ensures Report(c, errors).Obj?
  {
  }

  lemma WholeDocument(w: World, files: Files, link: Link, c: Content, errors: seq<string>)
    requires Document(w, files, link) == Some(Report(c, errors))
    ensures Accepts(w, files, link, []) <==> errors == [] && ContentOk(w, files, c, link, [link.path])
  {
    ReportContent(c, errors);
    hide LocalContentOk, SaysPass, Report, ContentOf, Prerequisites;
    assert [] + [link.path] == [link.path];
  }

  // ------------------------------------------- what a snapshot pins

  ghost predicate FaithfulPaths(w: World) {
    forall p, base :: !w.blank(w.relative(p, base)) && w.resolve(w.relative(p, base), base) == Some(p)
  }

  /** The record `write_report` stores for a file passes the check made when it
      is read back exactly when the file exists and is not the report itself. */
  lemma SnapshotIsEvidence(w: World, files: Files, name: string, value: string, cwd: Path, path: Path)
    requires FaithfulPaths(w)
    requires var p := Resolve(w, Str(value), cwd); p.Some? && p.value in files ==> IsDigest(w.hash(files[p.value]))
    ensures EvidenceOk(w, files, name, Obj(Snapshot(w, files, value, cwd, w.parent(path))), path) <==>
      var p := Resolve(w, Str(value), cwd);
      !w.blank(name) && p.Some? && p.value != path && p.value in files
  {
    var p := Resolve(w, Str(value), cwd);
    var record := Snapshot(w, files, value, cwd, w.parent(path));
    assert "path" != "sha256" by { assert |"path"| == 4 && |"sha256"| == 6; }
    hide IsDigest;
    if p.Some? && p.value in files {
      assert FileIdentity(w, Obj(record), w.parent(path)) == Some(Pin(p.value, w.hash(files[p.value])));
    } else {
      assert FileIdentity(w, Obj(record), w.parent(path)).None?;
    }
  }

  // --------------------------------------------- what a sound report is

  predicate NonblankText(w: World, j: Json) {
    j.Str? && !w.blank(j.s)
  }

  predicate ProperCommand(w: World, command: Json) {
    && command.List? && |command.items| >= 1 && NonblankText(w, command.items[0])
    && forall i :: 0 <= i < |command.items| ==> command.items[i].Str?
  }

  predicate ProperSources(w: World, sources: Json) {
    && sources.Obj? && sources.fields.Keys != {}
    && forall n :: n in sources.fields.Keys ==>
         && !w.blank(n) && sources.fields[n].Obj?
         && "location" in sources.fields[n].fields && NonblankText(w, sources.fields[n].fields["location"])
         && "revision" in sources.fields[n].fields && NonblankText(w, sources.fields[n].fields["revision"])
  }

  /** The required checks are distinct names, exactly those reported, and all PASS. */
  ghost predicate ProperChecks(w: World, required: Json, checks: Json) {
    && required.List? && |required.items| >= 1
    && (forall i :: 0 <= i < |required.items| ==> NonblankText(w, required.items[i]))
    && (forall i, j :: 0 <= i < j < |required.items| ==> required.items[i] != required.items[j])
    && checks.Obj? && checks.fields.Keys != {}
    && (forall n :: Str(n) in required.items <==> n in checks.fields.Keys)
    && forall n :: n in checks.fields.Keys ==> checks.fields[n] == Str("PASS")
  }

  predicate HexDigit(c: char) {
    '0' <= c <= '9' || 'a' <= c <= 'f'
  }

  /** The record's path leads from `base` to `p`, and its digest is `digest`. */
  predicate Names(w: World, record: Json, base: Path, p: Path, digest: string) {
    && record.Obj? && "path" in record.fields && NonblankText(w, record.fields["path"])
    && w.resolve(record.fields["path"].s, base) == Some(p)
    && "sha256" in record.fields && record.fields["sha256"] == Str(digest)
    && |digest| == 64 && forall i :: 0 <= i < 64 ==> HexDigit(digest[i])
  }

  /** The record names a file other than `path` that has the digest recorded. */
  ghost predicate NamesFile(w: World, files: Files, record: Json, path: Path) {
    exists p, digest :: Names(w, record, w.parent(path), p, digest) && p != path && p in files && w.hash(files[p]) == digest
  }

  /** The prerequisite record of the report at `path` asks for `next`. */
  predicate AsksFor(w: World, record: Json, path: Path, next: Link) {
    && next.checksum.Some? && Names(w, record, w.parent(path), next.path, next.checksum.value)
    && "stage_id" in record.fields && record.fields["stage_id"] == Str(next.id) && !w.blank(next.id)
    && "scope" in record.fields && record.fields["scope"] == Str(next.scope) && !w.blank(next.scope)
  }

  predicate ProperIdentity(w: World, fields: map<string, Json>, link: Link) {
    && {"schema_version", "stage_id", "scope", "created_at", "exit_code", "status", "errors"} <= fields.Keys
    && fields["schema_version"] == Int(1) && fields["exit_code"] == Int(0)
    && fields["status"] == Str("PASS") && fields["errors"] == List([])
    && fields["stage_id"] == Str(link.id) && !w.blank(link.id)
    && fields["scope"] == Str(link.scope) && !w.blank(link.scope)
    && fields["created_at"].Str? && w.zonedTime(fields["created_at"].s)
  }

  ghost predicate ProperEvidence(w: World, files: Files, evidence: Json, checks: Json, path: Path) {
    && evidence.Obj? && evidence.fields.Keys != {} && (checks.Obj? ==> checks.fields.Keys <= evidence.fields.Keys)
    && forall n :: n in evidence.fields.Keys ==> !w.blank(n) && NamesFile(w, files, evidence.fields[n], path)
  }

  ghost predicate Readable(w: World, record: Json, path: Path) {
    exists next :: AsksFor(w, record, path, next)
  }

  ghost predicate ProperRecords(w: World, records: Json, path: Path) {
    && records.List?
    && (forall i :: 0 <= i < |records.items| ==> Readable(w, records.items[i], path))
    && forall i, j, a, b ::
         0 <= i < j < |records.items| && AsksFor(w, records.items[i], path, a) && AsksFor(w, records.items[j], path, b) ==>
           a.id != b.id
  }

  /** The report's fields are in order, each condition in terms of the document. */
  ghost predicate Proper(w: World, files: Files, fields: map<string, Json>, link: Link) {
    && ProperIdentity(w, fields, link)
    && {"command", "sources", "required_checks", "checks", "evidence", "prerequisites"} <= fields.Keys
    && ProperCommand(w, fields["command"]) && ProperSources(w, fields["sources"])
    && ProperChecks(w, fields["required_checks"], fields["checks"])
    && ProperEvidence(w, files, fields["evidence"], fields["checks"], link.path)
    && ProperRecords(w, fields["prerequisites"], link.path)
  }

  lemma IdentityNames(w: World, record: Json, base: Path, p: Path, digest: string)
    ensures FileIdentity(w, record, base) == Some(Pin(p, digest)) <==> Names(w, record, base, p, digest)
  {
  }

  lemma EvidenceNames(w: World, files: Files, name: string, record: Json, path: Path)
    ensures EvidenceOk(w, files, name, record, path) <==> !w.blank(name) && NamesFile(w, files, record, path)
  {
    hide FileIdentity, Names;
    var pin := FileIdentity(w, record, w.parent(path));
    if pin.Some? {
      IdentityNames(w, record, w.parent(path), pin.value.path, pin.value.checksum);
    }
    forall p, digest | Names(w, record, w.parent(path), p, digest)
      ensures pin == Some(Pin(p, digest))
    {
      IdentityNames(w, record, w.parent(path), p, digest);
    }
  }

  lemma LinkIsAskedFor(w: World, record: Json, path: Path, next: Link)
    ensures LinkOf(w, record, path) == Some(next) <==> AsksFor(w, record, path, next)
  {
    hide FileIdentity, Names;
    if next.checksum.Some? {
      IdentityNames(w, record, w.parent(path), next.path, next.checksum.value);
    }
    assert FileIdentity(w, record, w.parent(path)).Some? ==> record.Obj? by { HasIdentity(w, record, w.parent(path)); }
    assert next.checksum.Some? && Names(w, record, w.parent(path), next.path, next.checksum.value) ==> record.Obj? by {
      HasIdentity(w, record, w.parent(path));
    }
  }

  lemma HasIdentity(w: World, record: Json, base: Path)
    ensures FileIdentity(w, record, base).Some? ==> record.Obj?
  {
  }

  lemma SourceMeans(w: World, name: string, source: Json)
    ensures SourceOk(w, name, source) <==>
      && !w.blank(name) && source.Obj?
      && "location" in source.fields && NonblankText(w, source.fields["location"])
      && "revision" in source.fields && NonblankText(w, source.fields["revision"])
  {
  }

  lemma ContentSources(w: World, c: Content)
    ensures SourcesOk(w, c) <==> ProperSources(w, c.sources)
  {
    hide SourceOk, NonblankText;
    if c.sources.Obj? {
      forall n | n in c.sources.fields.Keys {
        SourceMeans(w, n, c.sources.fields[n]);
      }
    }
  }

  lemma ContentChecks(w: World, c: Content)
    ensures ChecksOk(w, c) <==> ProperChecks(w, c.required, c.checks)
  {
    if c.required.List? {
      assert forall i :: 0 <= i < |c.required.items| ==> c.required.items[i] in c.required.items;
    }
  }

  lemma ContentEvidence(w: World, files: Files, c: Content, path: Path)
    ensures AllEvidenceOk(w, files, c, path) <==> ProperEvidence(w, files, c.evidence, c.checks, path)
  {
    hide EvidenceOk, NamesFile;
    if c.evidence.Obj? {
      forall n | n in c.evidence.fields.Keys
        ensures EvidenceOk(w, files, n, c.evidence.fields[n], path) <==> !w.blank(n) && NamesFile(w, files, c.evidence.fields[n], path)
      {
        EvidenceNames(w, files, n, c.evidence.fields[n], path);
      }
    }
  }

  lemma LinkNamesStage(w: World, record: Json, path: Path)
    requires LinkOf(w, record, path).Some?
    ensures Field(record, "stage_id") == Str(LinkOf(w, record, path).value.id)
  {
    hide FileIdentity;
  }

  predicate AsksOnlyFor(w: World, record: Json, path: Path, next: Link) {
    && AsksFor(w, record, path, next) && Field(record, "stage_id") == Str(next.id)
    && LinkOf(w, record, path) == Some(next)
  }

  lemma RecordAsks(w: World, record: Json, path: Path)
    ensures LinkOf(w, record, path).Some? <==> Readable(w, record, path)
    ensures LinkOf(w, record, path).Some? ==> AsksOnlyFor(w, record, path, LinkOf(w, record, path).value)
    ensures forall next :: AsksFor(w, record, path, next) ==> AsksOnlyFor(w, record, path, next)
  {
    if LinkOf(w, record, path).Some? {
      LinkIsAskedFor(w, record, path, LinkOf(w, record, path).value);
      LinkNamesStage(w, record, path);
    }
    forall next | AsksFor(w, record, path, next)
      ensures AsksOnlyFor(w, record, path, next)
    {
      LinkIsAskedFor(w, record, path, next);
      LinkNamesStage(w, record, path);
    }
  }

  lemma ContentRecords(w: World, c: Content, path: Path)
    ensures RecordsOk(w, c, path) <==> ProperRecords(w, c.prerequisites, path)
  {
    if c.prerequisites.List? {
      var records := c.prerequisites.items;
      forall i | 0 <= i < |records|
        ensures LinkOf(w, records[i], path).Some? <==> Readable(w, records[i], path)
        ensures LinkOf(w, records[i], path).Some? ==> AsksOnlyFor(w, records[i], path, LinkOf(w, records[i], path).value)
        ensures forall next :: AsksFor(w, records[i], path, next) ==> AsksOnlyFor(w, records[i], path, next)
      {
        hide LinkOf, AsksFor, AsksOnlyFor, Readable;
        RecordAsks(w, records[i], path);
      }
      hide LinkOf, AsksFor, Readable;
      if RecordsOk(w, c, path) {
        assert forall i :: 0 <= i < |records| ==> LinkOf(w, records[i], path).Some? && Readable(w, records[i], path);
        forall i, j, a, b | 0 <= i < j < |records| && AsksFor(w, records[i], path, a) && AsksFor(w, records[j], path, b)
          ensures a.id != b.id
        {
          assert AsksOnlyFor(w, records[i], path, a) && AsksOnlyFor(w, records[j], path, b);
        }
        assert ProperRecords(w, c.prerequisites, path);
      }
      if ProperRecords(w, c.prerequisites, path) {
        forall i, j | 0 <= i < j < |records|
          ensures Field(records[i], "stage_id") != Field(records[j], "stage_id")
        {
          assert LinkOf(w, records[i], path).Some?;
          assert LinkOf(w, records[j], path).Some?;
        }
      }
    }
  }

  lemma ContentIdentity(w: World, report: Json, link: Link)
    requires report.Obj?
    ensures SaysPass(report) && IdentityOk(w, ContentOf(report), link.id, link.scope) <==> ProperIdentity(w, report.fields, link)
  {
  }

  lemma SoundParts(w: World, files: Files, link: Link, report: Json)
    requires report.Obj?
    ensures SaysPass(report) && LocalContentOk(w, files, ContentOf(report), link) <==> Proper(w, files, report.fields, link)
  {
    var c := ContentOf(report);
    NothingIsProper(w, files, link.path);
    hide SaysPass, IdentityOk, SourcesOk, ChecksOk, AllEvidenceOk, RecordsOk;
    hide ProperIdentity, ProperCommand, ProperSources, ProperChecks, ProperEvidence, ProperRecords;
    ContentIdentity(w, report, link);
    ContentCommand(w, c);
    ContentSources(w, c);
    ContentChecks(w, c);
    ContentEvidence(w, files, c, link.path);
    ContentRecords(w, c, link.path);
  }

  lemma ContentCommand(w: World, c: Content)
    ensures CommandOk(w, c) <==> ProperCommand(w, c.command)
  {
  }

  lemma NothingIsProper(w: World, files: Files, path: Path)
    ensures !ProperCommand(w, Null) && !ProperSources(w, Null) && !ProperRecords(w, Null, path)
    ensures forall j :: !ProperChecks(w, Null, j) && !ProperChecks(w, j, Null) && !ProperEvidence(w, files, Null, j, path)
  {
  }

  /** A report is sound exactly if its file has the pinned digest and is a document
      whose fields are in order. */
  lemma SoundExactly(w: World, files: Files, link: Link)
    ensures Sound(w, files, link) <==>
      && link.path in files && (link.checksum.Some? ==> w.hash(files[link.path]) == link.checksum.value)
      && w.decode(files[link.path]).Some? && w.decode(files[link.path]).value.Obj?
      && Proper(w, files, w.decode(files[link.path]).value.fields, link)
  {
    var report := Document(w, files, link);
    if report.Some? {
      hide SaysPass, LocalContentOk, ContentOf, Proper;
      SoundParts(w, files, link, report.value);
    }
  }

  lemma LinksAt(w: World, c: Content, path: Path)
    requires RecordsOk(w, c, path)
    ensures var all, records := Prerequisites(w, c, path), c.prerequisites.items;
      |all| == |records| && forall i :: 0 <= i < |all| ==> LinkOf(w, records[i], path) == Some(all[i])
  {
    hide LinkOf;
  }

  lemma NextAreLinks(w: World, files: Files, link: Link, fields: map<string, Json>, records: seq<Json>)
    requires Sound(w, files, link) && link.path in files && w.decode(files[link.path]) == Some(Obj(fields))
    requires "prerequisites" in fields && fields["prerequisites"] == List(records)
    ensures var all := Next(w, files, link);
      |all| == |records| && forall i :: 0 <= i < |all| ==> LinkOf(w, records[i], link.path) == Some(all[i])
  {
    var c := ContentOf(Obj(fields));
    assert c.prerequisites == List(records);
    hide SaysPass, LinkOf, ContentOf, IdentityOk, SourcesOk, CommandOk, ChecksOk, AllEvidenceOk, RecordsOk, Prerequisites;
    assert RecordsOk(w, c, link.path) && Next(w, files, link) == Prerequisites(w, c, link.path);
    hide Next, Sound, Document, LocalContentOk;
    LinksAt(w, c, link.path);
  }

  /** The reports a sound one leads to are those its records ask for. */
  lemma NextExactly(w: World, files: Files, link: Link, fields: map<string, Json>, records: seq<Json>, next: Link)
    requires Sound(w, files, link) && link.path in files && w.decode(files[link.path]) == Some(Obj(fields))
    requires "prerequisites" in fields && fields["prerequisites"] == List(records)
    ensures next in Next(w, files, link) <==> exists i :: 0 <= i < |records| && AsksFor(w, records[i], link.path, next)
  {
    hide SaysPass, LocalContentOk, LinkOf, AsksFor;
    var all := Next(w, files, link);
    assert |all| == |records| && forall i :: 0 <= i < |all| ==> LinkOf(w, records[i], link.path) == Some(all[i]) by {
      NextAreLinks(w, files, link, fields, records);
    }
    forall i | 0 <= i < |records|
      ensures LinkOf(w, records[i], link.path) == Some(next) <==> AsksFor(w, records[i], link.path, next)
    {
      LinkIsAskedFor(w, records[i], link.path, next);
    }
    hide Next, Sound, Document;
    if i :| 0 <= i < |records| && AsksFor(w, records[i], link.path, next) {
      assert all[i] == next;
    }
  }

  // -------------------------------------------- what a request comes to

  /** A file named by the caller, as it is recorded: its path relative to the report
      and its digest, or the name as given and no digest. */
  predicate RecordsFile(w: World, files: Files, value: string, cwd: Path, base: Path, record: Json) {
    var p := if w.blank(value) then None else w.resolve(value, cwd);
    && record.Obj? && "path" in record.fields && "sha256" in record.fields
    && record.fields["path"] == Str(if p.Some? then w.relative(p.value, base) else value)
    && record.fields["sha256"] == if p.Some? && p.value in files then Str(w.hash(files[p.value])) else Null
  }

  /** The document written for a request: each field is that argument, and every
      evidence and prerequisite record is that of the file asked for. */
  ghost predicate Documents(w: World, files: Files, cwd: Path, r: Request, path: Path, errors: seq<string>, d: Json) {
    var base := w.parent(path);
    && Field(d, "schema_version") == Int(1) && Field(d, "stage_id") == Str(r.id) && Field(d, "scope") == Str(r.scope)
    && Field(d, "created_at") == Str(r.createdAt) && Field(d, "exit_code") == r.exitCode
    && Field(d, "required_checks") == r.required && Field(d, "checks") == r.checks
    && Field(d, "sources") == r.sources && Field(d, "command") == r.command
    && Field(d, "status") == Str(if errors == [] then "PASS" else "FAIL")
    && Field(d, "errors").List? && |Field(d, "errors").items| == |errors|
    && (forall i :: 0 <= i < |errors| ==> Field(d, "errors").items[i] == Str(errors[i]))
    && var evidence, prerequisites := Field(d, "evidence"), Field(d, "prerequisites");
    && evidence.Obj? && evidence.fields.Keys == r.evidence.Keys
    && (forall n :: n in r.evidence ==> RecordsFile(w, files, r.evidence[n], cwd, base, evidence.fields[n]))
    && prerequisites.List? && |prerequisites.items| == |r.prerequisites|
    && forall i :: 0 <= i < |r.prerequisites| ==>
         && RecordsFile(w, files, r.prerequisites[i].path, cwd, base, prerequisites.items[i])
         && Field(prerequisites.items[i], "stage_id") == Str(r.prerequisites[i].id)
         && Field(prerequisites.items[i], "scope") == Str(r.prerequisites[i].scope)
  }

  lemma RecordKeys()
    ensures "path" != "sha256" && "path" != "scope" && "path" != "stage_id"
    ensures "sha256" != "scope" && "sha256" != "stage_id" && "scope" != "stage_id"
  {
    assert |"path"| == 4 && |"scope"| == 5 && |"sha256"| == 6 && |"stage_id"| == 8;
  }

  lemma SnapshotRecords(w: World, files: Files, value: string, cwd: Path, base: Path, id: string, scope: string)
    ensures RecordsFile(w, files, value, cwd, base, Obj(Snapshot(w, files, value, cwd, base)))
    ensures var record := Obj(map["stage_id" := Str(id), "scope" := Str(scope)] + Snapshot(w, files, value, cwd, base));
      && RecordsFile(w, files, value, cwd, base, record)
      && Field(record, "stage_id") == Str(id) && Field(record, "scope") == Str(scope)
  {
    RecordKeys();
  }

  lemma DraftRecords(w: World, files: Files, cwd: Path, r: Request, path: Path)
    ensures var c, base := Draft(w, files, cwd, r, path), w.parent(path);
      && c.evidence.Obj? && c.evidence.fields.Keys == r.evidence.Keys
      && (forall n :: n in r.evidence ==> RecordsFile(w, files, r.evidence[n], cwd, base, c.evidence.fields[n]))
      && c.prerequisites.List? && |c.prerequisites.items| == |r.prerequisites|
      && forall i :: 0 <= i < |r.prerequisites| ==>
           && RecordsFile(w, files, r.prerequisites[i].path, cwd, base, c.prerequisites.items[i])
           && Field(c.prerequisites.items[i], "stage_id") == Str(r.prerequisites[i].id)
           && Field(c.prerequisites.items[i], "scope") == Str(r.prerequisites[i].scope)
  {
    hide RecordsFile, Snapshot, Field;
    var c := Draft(w, files, cwd, r, path);
    forall n | n in r.evidence
      ensures RecordsFile(w, files, r.evidence[n], cwd, w.parent(path), c.evidence.fields[n])
    {
      SnapshotRecords(w, files, r.evidence[n], cwd, w.parent(path), "", "");
    }
    forall i | 0 <= i < |r.prerequisites|
      ensures RecordsFile(w, files, r.prerequisites[i].path, cwd, w.parent(path), c.prerequisites.items[i])
      ensures Field(c.prerequisites.items[i], "stage_id") == Str(r.prerequisites[i].id)
      ensures Field(c.prerequisites.items[i], "scope") == Str(r.prerequisites[i].scope)
    {
      SnapshotRecords(w, files, r.prerequisites[i].path, cwd, w.parent(path), r.prerequisites[i].id, r.prerequisites[i].scope);
    }
  }

  /** The draft with any errors is the document of its request. */
  lemma WrittenDocument(w: World, files: Files, cwd: Path, r: Request, path: Path, errors: seq<string>)
    ensures Documents(w, files, cwd, r, path, errors, Report(Draft(w, files, cwd, r, path), errors))
  {
    hide Report, RecordsFile, Field, Snapshot;
    var c := Draft(w, files, cwd, r, path);
    ReportFields(c, errors);
    MoreReportFields(c, errors);
    DraftRecords(w, files, cwd, r, path);
  }

  /** The file a caller's name leads to, when it exists. */
  predicate LeadsTo(w: World, files: Files, value: string, cwd: Path, p: Path) {
    !w.blank(value) && w.resolve(value, cwd) == Some(p) && p in files
  }

  /** A prerequisite asked for leads to a report accepted for its stage and scope. */
  ghost predicate AcceptedInput(w: World, files: Files, cwd: Path, input: Input, path: Path) {
    && !w.blank(input.id) && !w.blank(input.scope)
    && exists p ::
         && LeadsTo(w, files, input.path, cwd, p)
         && Accepts(w, files, Link(p, input.id, input.scope, Some(w.hash(files[p]))), [path])
  }

  /** The prerequisites of a request are all in order. */
  ghost predicate WarrantedPrerequisites(w: World, files: Files, cwd: Path, r: Request, path: Path) {
    && (forall i, j :: 0 <= i < j < |r.prerequisites| ==> r.prerequisites[i].id != r.prerequisites[j].id)
    && forall i :: 0 <= i < |r.prerequisites| ==> AcceptedInput(w, files, cwd, r.prerequisites[i], path)
  }

  predicate WarrantedIdentity(w: World, r: Request) {
    && !w.blank(r.id) && !w.blank(r.scope) && w.zonedTime(r.createdAt) && r.exitCode == Int(0)
    && ProperCommand(w, r.command)
  }

  ghost predicate WarrantedFiles(w: World, files: Files, cwd: Path, r: Request, path: Path) {
    && r.evidence.Keys != {} && (r.checks.Obj? ==> r.checks.fields.Keys <= r.evidence.Keys)
    && forall n :: n in r.evidence.Keys ==>
         !w.blank(n) && exists p :: LeadsTo(w, files, r.evidence[n], cwd, p) && p != path
  }

  /** What a request must be for PASS, in terms of its arguments and the files. */
  ghost predicate Warranted(w: World, files: Files, cwd: Path, r: Request, path: Path) {
    && WarrantedIdentity(w, r) && ProperSources(w, r.sources) && ProperChecks(w, r.required, r.checks)
    && WarrantedFiles(w, files, cwd, r, path) && WarrantedPrerequisites(w, files, cwd, r, path)
  }

  lemma WarrantedEvidence(w: World, files: Files, cwd: Path, n: string, value: string, path: Path)
    requires FaithfulPaths(w) && forall p :: p in files ==> IsDigest(w.hash(files[p]))
    ensures EvidenceOk(w, files, n, Obj(Snapshot(w, files, value, cwd, w.parent(path))), path) <==>
      !w.blank(n) && exists p :: LeadsTo(w, files, value, cwd, p) && p != path
  {
    SnapshotIsEvidence(w, files, n, value, cwd, path);
    hide EvidenceOk, Snapshot, FaithfulPaths, IsDigest;
    var p := Resolve(w, Str(value), cwd);
    if p.Some? && p.value in files {
      assert LeadsTo(w, files, value, cwd, p.value);
    }
  }

  lemma WarrantedRecord(w: World, files: Files, cwd: Path, input: Input, path: Path)
    requires FaithfulPaths(w) && forall p :: p in files ==> IsDigest(w.hash(files[p]))
    ensures var record := Obj(map["stage_id" := Str(input.id), "scope" := Str(input.scope)]
                              + Snapshot(w, files, input.path, cwd, w.parent(path)));
      (LinkOf(w, record, path).Some? && Accepts(w, files, LinkOf(w, record, path).value, [path])) <==>
        AcceptedInput(w, files, cwd, input, path)
  {
    RecordKeys();
    var p := Resolve(w, Str(input.path), cwd);
    var record := Obj(map["stage_id" := Str(input.id), "scope" := Str(input.scope)]
                      + Snapshot(w, files, input.path, cwd, w.parent(path)));
    hide Accepts, IsDigest;
    if p.Some? && p.value in files {
      assert LeadsTo(w, files, input.path, cwd, p.value);
      assert FileIdentity(w, record, w.parent(path)) == Some(Pin(p.value, w.hash(files[p.value])));
    } else {
      assert FileIdentity(w, record, w.parent(path)).None?;
    }
  }

  lemma DraftPrerequisites(w: World, files: Files, cwd: Path, r: Request, path: Path)
    requires FaithfulPaths(w) && forall p :: p in files ==> IsDigest(w.hash(files[p]))
    ensures var c := Draft(w, files, cwd, r, path);
      && c.prerequisites.List?
      && (RecordsAccepted(w, files, c.prerequisites.items, |c.prerequisites.items|, path, [path]) <==>
            WarrantedPrerequisites(w, files, cwd, r, path))
  {
    hide Accepts, LinkOf, AcceptedInput, FaithfulPaths, IsDigest, Snapshot, RecordsFile, Field;
    var c := Draft(w, files, cwd, r, path);
    DraftRecords(w, files, cwd, r, path);
    forall i | 0 <= i < |r.prerequisites|
      ensures
        (LinkOf(w, c.prerequisites.items[i], path).Some?
         && Accepts(w, files, LinkOf(w, c.prerequisites.items[i], path).value, [path]))
        <==> AcceptedInput(w, files, cwd, r.prerequisites[i], path)
    {
      WarrantedRecord(w, files, cwd, r.prerequisites[i], path);
    }
    assert forall i, j :: 0 <= i < j < |r.prerequisites| ==>
      (Field(c.prerequisites.items[i], "stage_id") == Field(c.prerequisites.items[j], "stage_id") <==>
         r.prerequisites[i].id == r.prerequisites[j].id);
    hide Draft;
  }

  lemma DraftEvidence(w: World, files: Files, cwd: Path, r: Request, path: Path)
    requires FaithfulPaths(w) && forall p :: p in files ==> IsDigest(w.hash(files[p]))
    ensures AllEvidenceOk(w, files, Draft(w, files, cwd, r, path), path) <==> WarrantedFiles(w, files, cwd, r, path)
  {
    hide EvidenceOk, LeadsTo, FaithfulPaths, IsDigest, Snapshot;
    var c := Draft(w, files, cwd, r, path);
    assert c.evidence.fields.Keys == r.evidence.Keys;
    forall n | n in r.evidence.Keys
      ensures EvidenceOk(w, files, n, c.evidence.fields[n], path) <==>
        !w.blank(n) && exists p :: LeadsTo(w, files, r.evidence[n], cwd, p) && p != path
    {
      WarrantedEvidence(w, files, cwd, n, r.evidence[n], path);
    }
  }

  lemma DraftIdentity(w: World, files: Files, cwd: Path, r: Request, path: Path)
    ensures var c := Draft(w, files, cwd, r, path);
      IdentityOk(w, c, r.id, r.scope) && CommandOk(w, c) <==> WarrantedIdentity(w, r)
  {
    hide Snapshot;
  }

  /** `write_report` records PASS exactly if the request warrants it: its own arguments
      are in order, every evidence file exists apart from the output, and every
      requested prerequisite is a report accepted for its stage and scope. */
  lemma RecordedPassExactly(w: World, files: Files, cwd: Path, r: Request, path: Path)
    requires FaithfulPaths(w) && forall p :: p in files ==> IsDigest(w.hash(files[p]))
    ensures ContentOk(w, files, Draft(w, files, cwd, r, path), Link(path, r.id, r.scope, None), [path]) <==>
      Warranted(w, files, cwd, r, path)
  {
    ContentParts(w, files, Draft(w, files, cwd, r, path), Link(path, r.id, r.scope, None), [path]);
    assert Warranted(w, files, cwd, r, path) <==>
      && WarrantedIdentity(w, r) && ProperSources(w, r.sources) && ProperChecks(w, r.required, r.checks)
      && WarrantedFiles(w, files, cwd, r, path) && WarrantedPrerequisites(w, files, cwd, r, path);
    hide *;
    DraftIdentity(w, files, cwd, r, path);
    ContentSources(w, Draft(w, files, cwd, r, path));
    ContentChecks(w, Draft(w, files, cwd, r, path));
    DraftEvidence(w, files, cwd, r, path);
    DraftPrerequisites(w, files, cwd, r, path);
  }

  /** A written document: that of its request, recording PASS when it is warranted. */
  ghost predicate Writes(w: World, files: Files, cwd: Path, r: Request, path: Path, errors: seq<string>, d: Json) {
    && d == Report(Draft(w, files, cwd, r, path), errors) && Documents(w, files, cwd, r, path, errors, d)
    && (errors == [] <==> ContentOk(w, files, Draft(w, files, cwd, r, path), Link(path, r.id, r.scope, None), [path]))
    && (FaithfulPaths(w) && (forall p :: p in files ==> IsDigest(w.hash(files[p]))) ==>
          (errors == [] <==> Warranted(w, files, cwd, r, path)))
  }

  lemma DraftIsWritten(w: World, files: Files, cwd: Path, r: Request, path: Path, errors: seq<string>)
    requires errors == [] <==> ContentOk(w, files, Draft(w, files, cwd, r, path), Link(path, r.id, r.scope, None), [path])
    ensures Writes(w, files, cwd, r, path, errors, Report(Draft(w, files, cwd, r, path), errors))
  {
    hide Documents, Warranted, FaithfulPaths, IsDigest, ContentOk, Draft, Report;
    WrittenDocument(w, files, cwd, r, path, errors);
    if FaithfulPaths(w) && forall p :: p in files ==> IsDigest(w.hash(files[p])) {
      RecordedPassExactly(w, files, cwd, r, path);
    }
  }

  // ------------------------------------------------ the source's loops

  function Note(errors: seq<string>, ok: bool, error: string): seq<string> {
    if ok then errors else errors + [error]
  }

  method SourceErrors(w: World, c: Content) returns (errors: seq<string>)
    ensures errors == [] <==> SourcesOk(w, c)
  {
    errors := [];
    if !c.sources.Obj? || c.sources.fields.Keys == {} {
      return ["source provenance is required"];
    }
    var todo := c.sources.fields.Keys;
    while todo != {}
      invariant todo <= c.sources.fields.Keys
      invariant errors == [] <==> forall n :: n in c.sources.fields.Keys - todo ==> SourceOk(w, n, c.sources.fields[n])
    {
      var name :| name in todo;
      todo := todo - {name};
      errors := Note(errors, SourceOk(w, name, c.sources.fields[name]), "source requires location and revision");
    }
  }

  method CheckErrors(w: World, c: Content) returns (errors: seq<string>)
    ensures errors == [] <==> ChecksOk(w, c)
  {
    errors := [];
    var required: seq<Json> := [];
    if !NamesOk(w, c.required) {
      errors := ["required_checks must be a nonempty list of names"];
    } else {
      required := c.required.items;
      errors := Note(errors, NoDuplicates(required), "required_checks contains duplicate names");
    }
    var checks: map<string, Json> := map[];
    if !c.checks.Obj? || c.checks.fields.Keys == {} {
      errors := errors + ["at least one named check is required"];
    } else {
      checks := c.checks.fields;
    }
    ghost var start := errors;
    for i := 0 to |required|
      invariant errors == [] <==>
        start == [] && forall j :: 0 <= j < i ==> required[j].Str? && required[j].s in checks
    {
      errors := Note(errors, required[i].Str? && required[i].s in checks, "missing required check");
    }
    start := errors;
    var todo := checks.Keys;
    while todo != {}
      invariant todo <= checks.Keys
      invariant errors == [] <==>
        && start == []
        && forall n :: n in checks.Keys - todo ==>
             !w.blank(n) && Str(n) in required && checks[n] == Str("PASS")
    {
      var name :| name in todo;
      todo := todo - {name};
      errors := Note(errors, !w.blank(name) && Str(name) in required, "undeclared check");
      errors := Note(errors, checks[name] == Str("PASS"), "check is not PASS");
    }
  }

  method EvidenceErrors(w: World, files: Files, c: Content, path: Path) returns (errors: seq<string>)
    ensures errors == [] && ChecksOk(w, c) <==> AllEvidenceOk(w, files, c, path) && ChecksOk(w, c)
  {
    hide EvidenceOk, NoDuplicates;
    errors := [];
    var evidence: map<string, Json> := map[];
    if !c.evidence.Obj? || c.evidence.fields.Keys == {} {
      errors := ["at least one evidence file is required"];
    } else {
      evidence := c.evidence.fields;
    }
    var names := if c.checks.Obj? then c.checks.fields.Keys else {};
    if NamesOk(w, c.required) {
      names := names + set i | 0 <= i < |c.required.items| :: c.required.items[i].s;
    }
    ghost var all, start := names, errors;
    while names != {}
      invariant names <= all
      invariant errors == [] <==> start == [] && all - names <= evidence.Keys
    {
      var name :| name in names;
      names := names - {name};
      errors := Note(errors, name in evidence, "missing evidence for check");
    }
    start := errors;
    var todo := evidence.Keys;
    while todo != {}
      invariant todo <= evidence.Keys
      invariant errors == [] <==>
        && start == []
        && forall n :: n in evidence.Keys - todo ==> EvidenceOk(w, files, n, evidence[n], path)
    {
      var name :| name in todo;
      todo := todo - {name};
      errors := Note(errors, EvidenceOk(w, files, name, evidence[name], path), "evidence");
    }
  }

  predicate NamesStage(w: World, record: Json) {
    record.Obj? && Text(w, Field(record, "stage_id")) && Text(w, Field(record, "scope"))
  }

  /** The first `n` prerequisite records are readable, of distinct stages, and
      lead to accepted reports. */
  predicate RecordsAccepted(w: World, files: Files, records: seq<Json>, n: nat, path: Path, ancestors: seq<Path>)
    requires n <= |records|
  {
    && (forall j :: 0 <= j < n ==>
          LinkOf(w, records[j], path).Some? && Accepts(w, files, LinkOf(w, records[j], path).value, ancestors))
    && forall j, k :: 0 <= j < k < n ==> Field(records[j], "stage_id") != Field(records[k], "stage_id")
  }

  lemma ContentParts(w: World, files: Files, c: Content, link: Link, ancestors: seq<Path>)
    ensures ContentOk(w, files, c, link, ancestors) <==>
      && IdentityOk(w, c, link.id, link.scope) && CommandOk(w, c) && SourcesOk(w, c) && ChecksOk(w, c)
      && AllEvidenceOk(w, files, c, link.path) && c.prerequisites.List?
      && RecordsAccepted(w, files, c.prerequisites.items, |c.prerequisites.items|, link.path, ancestors)
  {
    hide IdentityOk, CommandOk, SourcesOk, ChecksOk, AllEvidenceOk, LinkOf, Accepts;
    if RecordsOk(w, c, link.path) {
      var next := Prerequisites(w, c, link.path);
      assert forall i :: 0 <= i < |next| ==> next[i] == LinkOf(w, c.prerequisites.items[i], link.path).value;
    }
  }

  method PrerequisiteErrors(w: World, files: Files, records: seq<Json>, path: Path, ancestors: seq<Path>)
    returns (errors: seq<string>)
    ensures errors == [] <==> RecordsAccepted(w, files, records, |records|, path, ancestors)
    decreases MAX_DEPTH - |ancestors|, 1
  {
    hide FileIdentity, Accepts;
    errors := [];
    var seen: set<Json> := {};
    for i := 0 to |records|
      invariant errors == [] ==> seen == set j | 0 <= j < i :: Field(records[j], "stage_id")
      invariant errors == [] <==> RecordsAccepted(w, files, records, i, path, ancestors)
    {
      var id := Field(records[i], "stage_id");
      if !NamesStage(w, records[i]) {
        errors := errors + ["expected stage_id and scope are required"];
      } else if id in seen {
        errors := errors + ["duplicate prerequisite stage_id"];
      } else {
        seen := seen + {id};
        var next := LinkOf(w, records[i], path);
        if next.None? {
          errors := errors + ["prerequisite path or digest"];
        } else {
          var report := ValidateFile(w, files, next.value, ancestors);
          errors := Note(errors, report.Some?, "prerequisite");
        }
      }
    }
  }

  /** `_content_errors` */
  method ContentErrors(w: World, files: Files, c: Content, link: Link, ancestors: seq<Path>) returns (errors: seq<string>)
    ensures errors == [] <==> ContentOk(w, files, c, link, ancestors)
    decreases MAX_DEPTH - |ancestors|, 2
  {
    hide IdentityOk, CommandOk, SourcesOk, ChecksOk, AllEvidenceOk, ContentOk, RecordsAccepted;
    ContentParts(w, files, c, link, ancestors);
    errors := Note([], IdentityOk(w, c, link.id, link.scope), "schema, identity, timestamp or exit code");
    errors := Note(errors, CommandOk(w, c), "command must be a nonempty argv list");
    var more := SourceErrors(w, c);
    errors := errors + more;
    more := CheckErrors(w, c);
    errors := errors + more;
    more := EvidenceErrors(w, files, c, link.path);
    errors := errors + more;
    if !c.prerequisites.List? {
      return errors + ["prerequisites must be an explicit list"];
    }
    more := PrerequisiteErrors(w, files, c.prerequisites.items, link.path, ancestors);
    errors := errors + more;
  }

  /** `_validate_file`: the report, or None where it raises. */
  method ValidateFile(w: World, files: Files, link: Link, ancestors: seq<Path>) returns (r: Option<Json>)
    ensures r.Some? <==> Accepts(w, files, link, ancestors)
    ensures r.Some? ==> r == Document(w, files, link)
    decreases MAX_DEPTH - |ancestors|, 0
  {
    hide LocalContentOk, SaysPass, Document;
    if link.path in ancestors || |ancestors| >= MAX_DEPTH {
      return None;
    }
    var report := Document(w, files, link);
    if report.None? {
      return None;
    }
    var errors := ContentErrors(w, files, ContentOf(report.value), link, ancestors + [link.path]);
    errors := Note(errors, SaysPass(report.value), "report status is not PASS or errors are recorded");
    r := if errors == [] then report else None;
  }

  class FileStore {
    var files: Files

    constructor (files: Files)
      ensures this.files == files
    {
      this.files := files;
    }

    /** `write_report`: one atomic replacement of the output file. */
    method WriteReport(w: World, cwd: Path, output: string, r: Request) returns (report: Option<Json>)
      modifies this
      ensures var path := if w.blank(output) then None else w.resolve(output, cwd);
        if path.None? then report.None? && files == old(files)
        else
          && report.Some? && files == old(files)[path.value := w.encode(report.value)]
          && exists errors :: Writes(w, old(files), cwd, r, path.value, errors, report.value)
    {
      hide Draft, ContentOk, Report;
      var path := Resolve(w, Str(output), cwd);
      if path.None? {
        return None;
      }
      var c := Draft(w, files, cwd, r, path.value);
      var errors := ContentErrors(w, files, c, Link(path.value, r.id, r.scope, None), [path.value]);
      report := Some(Report(c, errors));
      hide Writes;
      DraftIsWritten(w, files, cwd, r, path.value, errors);
      files := files[path.value := w.encode(report.value)];
    }
  }
}
