/** What `stage_report.py` cannot promise: a write that undoes the acceptance it
    records, and sources that acceptance does not tie to a report. */
module ReportLimits {
  import opened Wrappers
  import opened StageReport

  // ------------------------------------- a write that does disturb

  /** A record of a file with this digest, as `_snapshot` makes it. */
  function Pinned(w: World, p: Path, base: Path, digest: string): Json {
    Obj(map["path" := Str(w.relative(p, base)), "sha256" := Str(digest)])
  }

  /** The same for a prerequisite of stage and scope `word`. */
  function PinnedStage(w: World, p: Path, base: Path, digest: string, word: string): Json {
    Obj(map["stage_id" := Str(word), "scope" := Str(word), "path" := Str(w.relative(p, base)), "sha256" := Str(digest)])
  }

  lemma PinnedIdentity(w: World, p: Path, base: Path, digest: string, word: string)
    requires FaithfulPaths(w) && IsDigest(digest)
    ensures FileIdentity(w, Pinned(w, p, base, digest), base) == Some(Pin(p, digest))
    ensures FileIdentity(w, PinnedStage(w, p, base, digest, word), base) == Some(Pin(p, digest))
  {
    assert |"path"| == 4 && |"scope"| == 5 && |"sha256"| == 6 && |"stage_id"| == 8;
    hide IsDigest;
  }

  lemma RecordLeads(w: World, path: Path, child: Path, word: string, digest: string)
    requires FaithfulPaths(w) && !w.blank(word) && IsDigest(digest)
    ensures LinkOf(w, PinnedStage(w, child, w.parent(path), digest, word), path) == Some(Link(child, word, word, Some(digest)))
  {
    PinnedIdentity(w, child, w.parent(path), digest, word);
    assert |"path"| == 4 && |"scope"| == 5 && |"sha256"| == 6 && |"stage_id"| == 8;
    hide FileIdentity, IsDigest;
  }

  /** A smallest acceptable content: one source, one passed check, one file. */
  function Minimal(word: string, time: string, evidence: Json, prerequisites: seq<Json>): Content {
    Content(Int(SCHEMA_VERSION), Str(word), Str(word), Str(time), Int(0), List([Str(word)]),
            Obj(map[word := Obj(map["location" := Str(word), "revision" := Str(word)])]),
            List([Str(word)]), Obj(map[word := Str("PASS")]), Obj(map[word := evidence]), List(prerequisites))
  }

  lemma MinimalSource(w: World, word: string)
    requires !w.blank(word)
    ensures SourceOk(w, word, Obj(map["location" := Str(word), "revision" := Str(word)]))
  {
    assert "location" != "revision" by { assert "location"[0] == 'l' && "revision"[0] == 'r'; }
  }

  lemma MinimalIsSound(w: World, files: Files, word: string, time: string, link: Link, evidence: Json, p: Path,
                       prerequisites: seq<Json>)
    requires !w.blank(word) && w.zonedTime(time) && link.id == link.scope == word
    requires FileIdentity(w, evidence, w.parent(link.path)) == Some(Pin(p, w.hash(if p in files then files[p] else [])))
    requires p != link.path && p in files
    requires RecordsOk(w, Minimal(word, time, evidence, prerequisites), link.path)
    ensures LocalContentOk(w, files, Minimal(word, time, evidence, prerequisites), link)
  {
    hide FileIdentity, SourceOk, RecordsOk;
    MinimalSource(w, word);
    var c := Minimal(word, time, evidence, prerequisites);
    assert EvidenceOk(w, files, word, evidence, link.path);
    assert c.checks.fields.Keys == c.evidence.fields.Keys == c.sources.fields.Keys == {word};
    assert c.required.items[0] == Str(word);
  }

  /** A written report without prerequisites is accepted where its content is in order. */
  lemma WrittenIsAccepted(w: World, files: Files, c: Content, link: Link, ancestors: seq<Path>)
    requires FaithfulJson(w) && LocalContentOk(w, files, c, link) && c.prerequisites == List([])
    requires link.path in files && files[link.path] == w.encode(Report(c, []))
    requires link.checksum.Some? ==> link.checksum.value == w.hash(files[link.path])
    requires link.path !in ancestors && |ancestors| < MAX_DEPTH
    ensures Document(w, files, link) == Some(Report(c, []))
    ensures Accepts(w, files, link, ancestors) && Sound(w, files, link)
  {
    ReportContent(c, []);
    IsObject(c, []);
    hide SaysPass, Report, ContentOf, IdentityOk, CommandOk, SourcesOk, ChecksOk, AllEvidenceOk;
    AcceptsUnfolds(w, files, link, ancestors);
    assert Next(w, files, link) == [];
  }

  lemma NamedEvidence(w: World, files: Files, c: Content, link: Link, n: string, p: Path)
    requires Sound(w, files, link) && Document(w, files, link) == Some(Report(c, []))
    requires c.evidence.Obj? && n in c.evidence.fields
    requires FileIdentity(w, c.evidence.fields[n], w.parent(link.path)) == Some(Pin(p, w.hash(if p in files then files[p] else [])))
    ensures IsEvidence(w, files, link, p)
  {
    ReportContent(c, []);
    hide Sound, Report, ContentOf, FileIdentity;
    SoundEvidence(w, files, link, n);
    assert n in c.evidence.fields.Keys;
  }

  /** The content of a prerequisite that has the file `path`, still empty, as evidence. */
  function Below(w: World, path: Path, child: Path, word: string, time: string): Content {
    Minimal(word, time, Pinned(w, path, w.parent(child), w.hash([])), [])
  }

  lemma NoRecords(w: World, c: Content, path: Path)
    requires c.prerequisites == List([])
    ensures RecordsOk(w, c, path)
  {
  }

  lemma BelowIsAccepted(w: World, files: Files, path: Path, child: Path, word: string, time: string, link: Link)
    requires FaithfulPaths(w) && FaithfulJson(w) && !w.blank(word) && w.zonedTime(time) && IsDigest(w.hash([]))
    requires path != child && path in files && files[path] == []
    requires child in files && files[child] == w.encode(Report(Below(w, path, child, word, time), []))
    requires link == Link(child, word, word, Some(w.hash(files[child])))
    ensures Accepts(w, files, link, [path]) && IsEvidence(w, files, link, path)
  {
    var evidence := Pinned(w, path, w.parent(child), w.hash([]));
    var c := Below(w, path, child, word, time);
    assert c == Minimal(word, time, evidence, []) && c.evidence == Obj(map[word := evidence]) && c.prerequisites == List([]);
    hide *;
    NoRecords(w, c, link.path);
    PinnedIdentity(w, path, w.parent(child), w.hash([]), word);
    MinimalIsSound(w, files, word, time, link, evidence, path, []);
    WrittenIsAccepted(w, files, c, link, [path]);
    NamedEvidence(w, files, c, link, word, path);
  }

  lemma OnePrerequisite(w: World, files: Files, c: Content, link: Link, record: Json, next: Link)
    requires LocalContentOk(w, files, c, link) && c.prerequisites == List([record])
    requires LinkOf(w, record, link.path) == Some(next) && Accepts(w, files, next, [link.path])
    ensures ContentOk(w, files, c, link, [link.path]) && Prerequisites(w, c, link.path) == [next]
  {
    hide LinkOf, Accepts, IdentityOk, CommandOk, SourcesOk, ChecksOk, AllEvidenceOk;
  }

  lemma OneRecord(w: World, c: Content, record: Json, path: Path)
    requires c.prerequisites == List([record]) && LinkOf(w, record, path).Some?
    ensures RecordsOk(w, c, path)
  {
    hide LinkOf;
  }

  /** The bytes of that prerequisite. */
  function BelowBytes(w: World, path: Path, child: Path, word: string, time: string): Bytes {
    w.encode(Report(Below(w, path, child, word, time), []))
  }

  /** The content written at `path`: `note` is its evidence, `child` its prerequisite. */
  function Above(w: World, path: Path, child: Path, note: Path, digest: string, word: string, time: string): Content {
    Minimal(word, time, Pinned(w, note, w.parent(path), w.hash([])), [PinnedStage(w, child, w.parent(path), digest, word)])
  }

  lemma AboveIsSound(w: World, files: Files, path: Path, child: Path, note: Path, digest: string, word: string, time: string)
    requires FaithfulPaths(w) && !w.blank(word) && w.zonedTime(time) && IsDigest(digest) && IsDigest(w.hash([]))
    requires note != path && note in files && files[note] == []
    ensures var c := Above(w, path, child, note, digest, word, time);
      && LocalContentOk(w, files, c, Link(path, word, word, None))
      && c.prerequisites == List([PinnedStage(w, child, w.parent(path), digest, word)])
      && LinkOf(w, PinnedStage(w, child, w.parent(path), digest, word), path) == Some(Link(child, word, word, Some(digest)))
      && RecordsOk(w, c, path)
  {
    var c, record := Above(w, path, child, note, digest, word, time), PinnedStage(w, child, w.parent(path), digest, word);
    var evidence := Pinned(w, note, w.parent(path), w.hash([]));
    assert c == Minimal(word, time, evidence, [record]) && c.prerequisites == List([record]);
    hide *;
    RecordLeads(w, path, child, word, digest);
    PinnedIdentity(w, note, w.parent(path), w.hash([]), word);
    OneRecord(w, c, record, path);
    MinimalIsSound(w, files, word, time, Link(path, word, word, None), evidence, note, [record]);
  }

  /** A report with PASS at `path`, above that prerequisite, does not outlive its own
      writing. */
  lemma WriteDisturbs(w: World, files: Files, path: Path, child: Path, note: Path, word: string, time: string)
    requires CollisionFree(w) && FaithfulJson(w) && FaithfulPaths(w)
    requires !w.blank(word) && w.zonedTime(time) && path != child && note != path
    requires IsDigest(w.hash([])) && IsDigest(w.hash(BelowBytes(w, path, child, word, time)))
    requires path in files && files[path] == [] && note in files && files[note] == []
    requires child in files && files[child] == BelowBytes(w, path, child, word, time)
    ensures var c := Above(w, path, child, note, w.hash(files[child]), word, time);
      && ContentOk(w, files, c, Link(path, word, word, None), [path])
      && (w.encode(Report(c, [])) != [] ==>
            !Accepts(w, files[path := w.encode(Report(c, []))], Link(path, word, word, None), []))
  {
    assert files[child] == w.encode(Report(Below(w, path, child, word, time), []));
    hide *;
    var digest := w.hash(files[child]);
    var c := Above(w, path, child, note, digest, word, time);
    var link, next := Link(path, word, word, None), Link(child, word, word, Some(digest));
    AboveIsSound(w, files, path, child, note, digest, word, time);
    BelowIsAccepted(w, files, path, child, word, time, next);
    OnePrerequisite(w, files, c, link, PinnedStage(w, child, w.parent(path), digest, word), next);
    if w.encode(Report(c, [])) != [] {
      OverwrittenEvidence(w, files, c, link, next);
    }
  }

  /** The disturbance is real: in any such world there are files in which a report
      is written with PASS at `path` and then not accepted, because `path` was
      evidence of its prerequisite. */
  lemma WriteCanDisturb(w: World, path: Path, child: Path, note: Path, word: string, time: string)
    returns (files: Files, c: Content)
    requires CollisionFree(w) && FaithfulJson(w) && FaithfulPaths(w)
    requires !w.blank(word) && w.zonedTime(time) && path != child && note != path && note != child
    requires IsDigest(w.hash([])) && IsDigest(w.hash(BelowBytes(w, path, child, word, time)))
    requires forall j {:trigger w.encode(j)} :: w.encode(j) != []
    ensures ContentOk(w, files, c, Link(path, word, word, None), [path])
    ensures !Accepts(w, files[path := w.encode(Report(c, []))], Link(path, word, word, None), [])
  {
    hide *;
    files := map[path := [], child := BelowBytes(w, path, child, word, time), note := []];
    c := Above(w, path, child, note, w.hash(files[child]), word, time);
    WriteDisturbs(w, files, path, child, note, word, time);
  }

  /** Overwriting the evidence of the one prerequisite. */
  lemma OverwrittenEvidence(w: World, files: Files, c: Content, link: Link, next: Link)
    requires CollisionFree(w) && FaithfulJson(w) && link.checksum.None?
    requires ContentOk(w, files, c, link, [link.path]) && RecordsOk(w, c, link.path) && Prerequisites(w, c, link.path) == [next]
    requires IsEvidence(w, files, next, link.path) && link.path in files && files[link.path] != w.encode(Report(c, []))
    ensures !Accepts(w, files[link.path := w.encode(Report(c, []))], link, [])
  {
    hide ContentOk, Accepts, IsEvidence, Report, RecordsOk, Prerequisites;
    WriterAndValidatorAgree(w, files, c, link.path, link.id, link.scope, []);
    assert Reads(w, files, next, MAX_DEPTH - 1, link.path);
    assert Disturbs(w, files, Prerequisites(w, c, link.path)[0], link.path, w.encode(Report(c, [])));
  }

  // --------------------------------------------- what acceptance leaves open

  lemma Unpinned(w: World, files: Files, link: Link)
    requires Sound(w, files, link)
    ensures Sound(w, files, link.(checksum := None)) && Next(w, files, link.(checksum := None)) == Next(w, files, link)
  {
    hide IdentityOk, CommandOk, SourcesOk, ChecksOk, AllEvidenceOk, SaysPass, ContentOf, Prerequisites, RecordsOk;
    assert Document(w, files, link.(checksum := None)) == Document(w, files, link);
  }

  /** What is accepted as a prerequisite is accepted on its own. */
  lemma AcceptedAlone(w: World, files: Files, link: Link, ancestors: seq<Path>)
    requires Accepts(w, files, link, ancestors)
    ensures Accepts(w, files, link.(checksum := None), [])
  {
    hide Accepts, Sound, Next, ChainOk;
    forall chain | IsChain(w, files, chain) && chain[0] == link
      ensures ChainOk(w, files, chain, [])
    {
      AcceptedChain(w, files, chain, ancestors);
      ShorterAncestors(w, files, chain, ancestors);
    }
    ChainsSuffice(w, files, link, []);
    AcceptsUnfolds(w, files, link, []);
    Unpinned(w, files, link);
    AcceptsUnfolds(w, files, link.(checksum := None), []);
  }

  lemma ShorterAncestors(w: World, files: Files, chain: seq<Link>, ancestors: seq<Path>)
    requires chain != [] && ChainOk(w, files, chain, ancestors)
    ensures ChainOk(w, files, chain, [])
  {
    hide Sound;
  }

  /** The content with another revision of one source and no prerequisites. */
  function Resourced(c: Content, name: string, revision: string): Content
    requires c.sources.Obj? && name in c.sources.fields && c.sources.fields[name].Obj?
  {
    var source := c.sources.fields[name].fields["revision" := Str(revision)];
    c.(sources := Obj(c.sources.fields[name := Obj(source)]), prerequisites := List([]))
  }

  lemma ResourcedSource(w: World, name: string, source: Json, revision: string)
    requires SourceOk(w, name, source) && !w.blank(revision)
    ensures source.Obj? && SourceOk(w, name, Obj(source.fields["revision" := Str(revision)]))
  {
    assert "location" != "revision" by { assert "location"[0] == 'l' && "revision"[0] == 'r'; }
  }

  lemma ResourcedSources(w: World, c: Content, name: string, revision: string)
    requires SourcesOk(w, c) && name in c.sources.fields && !w.blank(revision)
    ensures c.sources.fields[name].Obj? && SourcesOk(w, Resourced(c, name, revision))
  {
    assert SourceOk(w, name, c.sources.fields[name]);
    ResourcedSource(w, name, c.sources.fields[name], revision);
    hide SourceOk;
  }

  lemma ResourcedIsSound(w: World, files: Files, c: Content, link: Link, name: string, revision: string, bytes: Bytes)
    requires LocalContentOk(w, files, c, link)
    requires c.sources.Obj? && name in c.sources.fields && c.sources.fields[name].Obj? && !w.blank(revision)
    ensures LocalContentOk(w, files[link.path := bytes], Resourced(c, name, revision), link)
  {
    assert SourcesOk(w, c) by { hide SourcesOk; }
    ResourcedSources(w, c, name, revision);
    OwnEvidenceSurvives(w, files, c, link, bytes);
    hide LocalContentOk, SourcesOk;
    SamePartsSound(w, files[link.path := bytes], c, Resourced(c, name, revision), link);
  }

  lemma SamePartsSound(w: World, files: Files, c: Content, other: Content, link: Link)
    requires LocalContentOk(w, files, c, link)
    requires other == c.(sources := other.sources, prerequisites := List([])) && SourcesOk(w, other)
    ensures LocalContentOk(w, files, other, link)
  {
    hide SourceOk, EvidenceOk, LinkOf, NoDuplicates;
  }

  /** Some source of an acceptable content, and a revision it does not have. */
  lemma AnotherRevision(w: World, files: Files, c: Content, link: Link) returns (name: string, revision: string)
    requires LocalContentOk(w, files, c, link) && !w.blank("0") && !w.blank("1")
    ensures c.sources.Obj? && name in c.sources.fields && c.sources.fields[name].Obj? && !w.blank(revision)
    ensures Resourced(c, name, revision).sources != c.sources
  {
    hide IdentityOk, CommandOk, ChecksOk, AllEvidenceOk, RecordsOk, SourceOk;
    name :| name in c.sources.fields.Keys;
    var source := c.sources.fields[name];
    assert SourceOk(w, name, source);
    assert source.Obj? by { SourceIsObject(w, name, source); }
    revision := if Field(source, "revision") == Str("0") then "1" else "0";
    assert Field(Resourced(c, name, revision).sources.fields[name], "revision") == Str(revision);
    assert "0"[0] != "1"[0];
  }

  lemma SourceIsObject(w: World, name: string, source: Json)
    requires SourceOk(w, name, source)
    ensures source.Obj?
  {
  }

  /** Sources are free: where a report is accepted, another one of the same stage
      and scope with other sources could stand in its place. */
  lemma SourcesVary(w: World, files: Files, link: Link) returns (bytes: Bytes)
    requires FaithfulJson(w) && !w.blank("0") && !w.blank("1")
    requires Accepts(w, files, link, []) && link.checksum.None?
    ensures var g := files[link.path := bytes];
      && Accepts(w, g, link, [])
      && Document(w, files, link).Some? && Document(w, g, link).Some?
      && Field(Document(w, g, link).value, "sources") != Field(Document(w, files, link).value, "sources")
  {
    AcceptsUnfolds(w, files, link, []);
    var doc := Document(w, files, link).value;
    var c := ContentOf(doc);
    assert c.sources == Field(doc, "sources");
    assert LocalContentOk(w, files, c, link) by { hide LocalContentOk, SaysPass; }
    hide Accepts, Sound, Next, Document, ContentOf, LocalContentOk, Field, Report, Resourced;
    var name, revision := AnotherRevision(w, files, c, link);
    var other := Resourced(c, name, revision);
    bytes := w.encode(Report(other, []));
    ResourcedIsSound(w, files, c, link, name, revision, bytes);
    assert other.prerequisites == List([]) by { NoPrerequisites(c, name, revision); }
    WrittenIsAccepted(w, files[link.path := bytes], other, link, []);
    MoreReportFields(other, []);
  }

  lemma NoPrerequisites(c: Content, name: string, revision: string)
    requires c.sources.Obj? && name in c.sources.fields && c.sources.fields[name].Obj?
    ensures Resourced(c, name, revision).prerequisites == List([])
  {
  }
}
