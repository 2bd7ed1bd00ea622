/** runtime_entry_report.py: `capture` pins the inputs of a run, `finalize`
    rechecks them and the endpoint report. Files may change between any two
    reads, so every read has its own answer. */
module RuntimeEntry {
  import opened Wrappers
  import S = StageReport
  import L = ReportLimits

  datatype Label = Wheel | Wrapper | Evaluator | StageWriter | Provenance | EntryReporter

  const LABELS: seq<Label> := [Wheel, Wrapper, Evaluator, StageWriter, Provenance, EntryReporter]

  datatype FileRecord = FileRecord(path: string, sha256: string)

  type Manifest = map<Label, FileRecord>

  /** The platform of the stage reports, and the manifest's JSON text. `decode` is
      None where reading or the schema, label and type checks raise. */
  datatype World = World(stage: S.World, encode: Manifest -> Bytes, decode: Bytes -> Option<Manifest>)

  predicate IsAnyCaseDigest(s: string) {
    |s| == 64 && forall i :: 0 <= i < 64 ==> '0' <= s[i] <= '9' || 'a' <= s[i] <= 'f' || 'A' <= s[i] <= 'F'
  }

  function Lower(s: string): string {
    if s == "" then ""
    else [if 'A' <= s[0] <= 'F' then s[0] - 'A' + 'a' else s[0]] + Lower(s[1..])
  }

  /** No collisions, and a manifest's text reads back as the manifest. */
  ghost predicate Faithful(w: World) {
    && S.CollisionFree(w.stage)
    && forall m {:trigger w.encode(m)} :: AllLabels(m) ==> w.decode(w.encode(m)) == Some(m)
  }

  predicate AllLabels(m: Manifest) {
    forall i :: 0 <= i < |LABELS| ==> LABELS[i] in m
  }

  // ------------------------------------------------------------- capture

  /** The records of the first `n` arguments; `read(i)` is what reading the file
      of argument `i` gives. None where the source raises. */
  function Records(w: World, files: seq<(Label, string)>, read: nat -> Option<Bytes>, n: nat): Option<Manifest>
    requires n <= |files|
    decreases n
  {
    if n == 0 then Some(map[])
    else
      var m :- Records(w, files, read, n - 1);
      var (key, path) := files[n - 1];
      if key in m then None
      else
        var bytes :- read(n - 1);
        Some(m[key := FileRecord(path, w.stage.hash(bytes))])
  }

  /** `capture`: the manifest it writes, unless the output exists already; what it
      prints is the manifest's digest. */
  function Capture(w: World, occupied: bool, files: seq<(Label, string)>, read: nat -> Option<Bytes>): Option<Manifest> {
    if occupied then None
    else
    var m :- Records(w, files, read, |files|);
    if AllLabels(m) then Some(m) else None
  }

  method CaptureInputs(w: World, occupied: bool, files: seq<(Label, string)>, read: nat -> Option<Bytes>)
    returns (r: Option<(Bytes, string)>)
    ensures r == match Capture(w, occupied, files, read)
                 case None => None
                 case Some(m) => Some((w.encode(m), w.stage.hash(w.encode(m))))
  {
    if occupied {
      return None;
    }
    var records: Manifest := map[];
    for i := 0 to |files|
      invariant Records(w, files, read, i) == Some(records)
    {
      var (key, path) := files[i];
      var content := read(i);
      if key in records || content.None? {
        RecordsFail(w, files, read, i + 1, |files|);
        return None;
      }
      records := records[key := FileRecord(path, w.stage.hash(content.value))];
    }
    if !AllLabels(records) {
      return None;
    }
    var encoded := w.encode(records);
    r := Some((encoded, w.stage.hash(encoded)));
  }

  lemma {:induction false} RecordsFail(w: World, files: seq<(Label, string)>, read: nat -> Option<Bytes>, m: nat, n: nat)
    requires m <= n <= |files| && Records(w, files, read, m).None?
    ensures Records(w, files, read, n).None?
    decreases n
  {
    if m < n {
      RecordsFail(w, files, read, m, n - 1);
    }
  }

  /** Each record holds the digest of the bytes read for that label. */
  lemma {:induction false} RecordsPin(w: World, files: seq<(Label, string)>, read: nat -> Option<Bytes>, n: nat)
    requires n <= |files| && Records(w, files, read, n).Some?
    ensures forall i :: 0 <= i < n ==>
      && read(i).Some? && files[i].0 in Records(w, files, read, n).value
      && Records(w, files, read, n).value[files[i].0] == FileRecord(files[i].1, w.stage.hash(read(i).value))
    ensures forall l :: l in Records(w, files, read, n).value ==> exists i :: 0 <= i < n && files[i].0 == l
    decreases n
  {
    if n > 0 {
      RecordsPin(w, files, read, n - 1);
      assert files[n - 1].0 !in Records(w, files, read, n - 1).value;
    }
  }

  predicate DistinctLabels(files: seq<(Label, string)>, n: nat)
    requires n <= |files|
  {
    forall i, j :: 0 <= i < j < n ==> files[i].0 != files[j].0
  }

  predicate AllRead(read: nat -> Option<Bytes>, n: nat) {
    forall i: nat :: i < n ==> read(i).Some?
  }

  predicate Repeated(files: seq<(Label, string)>, n: nat)
    requires n < |files|
  {
    exists i :: 0 <= i < n && files[i].0 == files[n].0
  }

  lemma DistinctStep(files: seq<(Label, string)>, n: nat)
    requires n < |files|
    ensures DistinctLabels(files, n + 1) <==> DistinctLabels(files, n) && !Repeated(files, n)
  {
  }

  lemma RecordedLabel(w: World, files: seq<(Label, string)>, read: nat -> Option<Bytes>, n: nat)
    requires n < |files| && Records(w, files, read, n).Some?
    ensures files[n].0 in Records(w, files, read, n).value <==> Repeated(files, n)
  {
    RecordsPin(w, files, read, n);
    hide Records;
  }

  lemma {:induction false} RecordsSucceed(w: World, files: seq<(Label, string)>, read: nat -> Option<Bytes>, n: nat)
    requires n <= |files|
    ensures Records(w, files, read, n).Some? <==> DistinctLabels(files, n) && AllRead(read, n)
    decreases n
  {
    hide DistinctLabels, Repeated;
    if n == 0 {
      assert DistinctLabels(files, 0) by { NothingRepeated(files); }
    } else {
      RecordsSucceed(w, files, read, n - 1);
      DistinctStep(files, n - 1);
      if Records(w, files, read, n - 1).Some? {
        RecordedLabel(w, files, read, n - 1);
      }
    }
  }

  lemma NothingRepeated(files: seq<(Label, string)>)
    ensures DistinctLabels(files, 0)
  {
  }

  /** Each file read is recorded under its label with its path and digest. */
  predicate RecordsFiles(w: World, files: seq<(Label, string)>, read: nat -> Option<Bytes>, m: Manifest) {
    forall i: nat :: i < |files| ==>
      && read(i).Some? && files[i].0 in m && m[files[i].0] == FileRecord(files[i].1, w.stage.hash(read(i).value))
  }

  /** `capture` succeeds exactly on a free output and six readable files, one for
      each label, and then records the digest of each. */
  lemma CapturesExactly(w: World, occupied: bool, files: seq<(Label, string)>, read: nat -> Option<Bytes>)
    ensures var m := Capture(w, occupied, files, read);
      && (m.Some? <==>
            && !occupied && DistinctLabels(files, |files|) && AllRead(read, |files|)
            && (set i | 0 <= i < |files| :: files[i].0) == SIX)
      && (m.Some? ==> m.value.Keys == SIX && RecordsFiles(w, files, read, m.value))
  {
    RecordsSucceed(w, files, read, |files|);
    var m := Records(w, files, read, |files|);
    if m.Some? {
      RecordsPin(w, files, read, |files|);
      hide Records;
      assert m.value.Keys == set i | 0 <= i < |files| :: files[i].0;
      AllSix(m.value);
    }
  }

  // ------------------------------------------------------------ finalize

  /** Where the endpoint report lies, what stage and scope it must have, and the
      temporary report that is written beside the destination. */
  datatype Endpoint = Endpoint(path: string, id: string, scope: string, pending: string)

  /** What one `write_report` reads: each evidence file when it is recorded and
      when it is checked again, the endpoint report when it is recorded, and every
      file its validation as a prerequisite opens. */
  datatype Write = Write(
    manifest: Option<Bytes>, manifestAgain: Option<Bytes>,
    input: Label -> Option<Bytes>, inputAgain: Label -> Option<Bytes>,
    child: Option<Bytes>, files: S.Files, otherContent: bool)

  /** What every read of one `finalize` gives, in order: the manifest, the inputs,
      the endpoint report's digest, every file its validation opens, its digest
      again, and the one or two writes. `occupied`: the output exists at the start;
      `linked`: it does not at the end. */
  datatype Tape = Tape(
    occupied: bool, manifest: Option<Bytes>, input: Label -> Option<Bytes>,
    childBefore: Option<Bytes>, validated: S.Files, childAfter: Option<Bytes>,
    first: Write, second: Write, linked: bool)

  datatype Check = OuterExit | ManifestCheck | Input(key: Label) | EndpointCheck

  datatype InputState = InputState(passed: set<Check>, expected: map<Label, string>, expectedManifest: Option<string>)

  /** A usable record: an absolute path and a well-formed digest. */
  predicate RecordOk(r: FileRecord) {
    r.path != "" && r.path[0] == '/' && S.IsDigest(r.sha256)
  }

  function ReadManifest(w: World, t: Tape, pinned: string): Option<Manifest> {
    if !IsAnyCaseDigest(pinned) then None
    else
      var bytes :- t.manifest;
      if w.stage.hash(bytes) != Lower(pinned) then None
      else
        var m :- w.decode(bytes);
        if AllLabels(m) then Some(m) else None
  }

  predicate InputOk(w: World, t: Tape, m: Manifest, l: Label)
    requires l in m
  {
    RecordOk(m[l]) && t.input(l).Some? && w.stage.hash(t.input(l).value) == m[l].sha256
  }

  /** The labels whose file still has its recorded digest, among the first `n`. */
  function PassedInputs(w: World, t: Tape, m: Manifest, n: nat): set<Check>
    requires n <= |LABELS| && AllLabels(m)
  {
    if n == 0 then {}
    else PassedInputs(w, t, m, n - 1) + if InputOk(w, t, m, LABELS[n - 1]) then {Input(LABELS[n - 1])} else {}
  }

  /** The digests to compare again once the report is written. */
  function ExpectedInputs(m: Manifest, n: nat): map<Label, string>
    requires n <= |LABELS| && AllLabels(m)
  {
    if n == 0 then map[]
    else
      var before, l := ExpectedInputs(m, n - 1), LABELS[n - 1];
      if RecordOk(m[l]) then before[l := m[l].sha256] else before
  }

  predicate Listed(l: Label, n: nat)
    requires n <= |LABELS|
  {
    exists i :: 0 <= i < n && LABELS[i] == l
  }

  lemma {:induction false} PassedIs(w: World, t: Tape, m: Manifest, n: nat, l: Label)
    requires n <= |LABELS| && AllLabels(m) && l in m
    ensures Input(l) in PassedInputs(w, t, m, n) <==> Listed(l, n) && InputOk(w, t, m, l)
    decreases n
  {
    hide InputOk;
    if n > 0 {
      PassedIs(w, t, m, n - 1, l);
      assert Listed(l, n) <==> Listed(l, n - 1) || LABELS[n - 1] == l;
    }
  }

  lemma {:induction false} ExpectedIs(m: Manifest, n: nat, l: Label)
    requires n <= |LABELS| && AllLabels(m)
    ensures l in ExpectedInputs(m, n) <==> Listed(l, n) && l in m && RecordOk(m[l])
    ensures l in ExpectedInputs(m, n) ==> ExpectedInputs(m, n)[l] == m[l].sha256
    decreases n
  {
    hide RecordOk;
    if n > 0 {
      ExpectedIs(m, n - 1, l);
      assert Listed(l, n) <==> Listed(l, n - 1) || LABELS[n - 1] == l;
    }
  }

  /** `_input_state` */
  function Inputs(w: World, t: Tape, pinned: string): InputState {
    match ReadManifest(w, t, pinned)
    case None => InputState({}, map[], None)
    case Some(m) =>
      InputState({ManifestCheck} + PassedInputs(w, t, m, |LABELS|), ExpectedInputs(m, |LABELS|), Some(Lower(pinned)))
  }

  method InputStateLoop(w: World, t: Tape, pinned: string) returns (r: InputState)
    ensures r == Inputs(w, t, pinned)
  {
    hide IsAnyCaseDigest, Lower, RecordOk;
    var m := ReadManifest(w, t, pinned);
    if m.None? {
      return InputState({}, map[], None);
    }
    var passed: set<Check> := {ManifestCheck};
    var expected: map<Label, string> := map[];
    for i := 0 to |LABELS|
      invariant passed == {ManifestCheck} + PassedInputs(w, t, m.value, i)
      invariant expected == ExpectedInputs(m.value, i)
    {
      var key := LABELS[i];
      if RecordOk(m.value[key]) {
        expected := expected[key := m.value[key].sha256];
        var actual := t.input(key);
        if actual.Some? && w.stage.hash(actual.value) == m.value[key].sha256 {
          passed := passed + {Input(key)};
        }
      }
    }
    r := InputState(passed, expected, Some(Lower(pinned)));
  }

  /** The endpoint report as a prerequisite, or on its own. */
  function Child(e: Endpoint, checksum: Option<string>): S.Link {
    S.Link(e.path, e.id, e.scope, checksum)
  }

  /** The endpoint report validates, and its digest is the same before and after. */
  predicate EndpointOk(w: World, e: Endpoint, t: Tape) {
    && t.childBefore.Some? && S.Accepts(w.stage, t.validated, Child(e, None), []) && t.childAfter.Some?
    && w.stage.hash(t.childAfter.value) == w.stage.hash(t.childBefore.value)
  }

  function Digest(w: World, bytes: Option<Bytes>): Option<string> {
    if bytes.None? then None else Some(w.stage.hash(bytes.value))
  }

  predicate Unchanged(w: World, snapshot: Option<Bytes>, recheck: Option<Bytes>) {
    snapshot.Some? && recheck.Some? && w.stage.hash(recheck.value) == w.stage.hash(snapshot.value)
  }

  /** `write_report` finds no content error beyond checks and exit code: every
      evidence file still matches what was just recorded, and so does the endpoint
      report, which is validated below the pending one. */
  predicate ContentOk(w: World, e: Endpoint, o: Write) {
    && Unchanged(w, o.manifest, o.manifestAgain)
    && (forall i :: 0 <= i < |LABELS| ==> Unchanged(w, o.input(LABELS[i]), o.inputAgain(LABELS[i])))
    && o.child.Some? && S.Accepts(w.stage, o.files, Child(e, Some(w.stage.hash(o.child.value))), [e.pending])
    && o.otherContent
  }

  /** Some digest the first write recorded differs from the one it was checked against. */
  predicate LateErrors(w: World, t: Tape, s: InputState) {
    || (s.expectedManifest.Some? && Digest(w, t.first.manifest) != s.expectedManifest)
    || (exists l :: l in s.expected && Digest(w, t.first.input(l)) != Some(s.expected[l]))
    || (t.childBefore.Some? && Digest(w, t.first.child) != Digest(w, t.childBefore))
  }

  /** `verified["sources"]` of the first validation. */
  function SourcesOf(w: World, e: Endpoint, files: S.Files): S.Json {
    var document := S.Document(w.stage, files, Child(e, None));
    if document.None? then S.Null else S.Field(document.value, "sources")
  }

  /** The published report: its status, the digests it records, and its sources
      (None for the reporter's own, which stand in for an unverified endpoint). */
  datatype Final = Final(
    pass: bool, manifest: Option<string>, inputs: map<Label, Option<string>>, endpoint: Option<string>,
    sources: Option<S.Json>)

  /** What a report written from these reads records. */
  function Recorded(w: World, o: Write, s: InputState, pass: bool, sources: Option<S.Json>): Final {
    Final(pass, Digest(w, o.manifest), map l | l in s.expected :: Digest(w, o.input(l)), Digest(w, o.child), sources)
  }

  /** `finalize`: None where it raises. A report with late errors, or with a content
      error although all checks passed, is written again from new reads with a
      nonzero exit code, which makes it FAIL. */
  function Finalize(w: World, e: Endpoint, t: Tape, exitCode: int, pinned: string): Option<Final> {
    if t.occupied || !t.linked then None
    else
      var s := Inputs(w, t, pinned);
      var allPassed := exitCode == 0 && ManifestCheck in s.passed && EndpointOk(w, e, t)
        && forall i :: 0 <= i < |LABELS| ==> Input(LABELS[i]) in s.passed;
      var sources := if EndpointOk(w, e, t) then Some(SourcesOf(w, e, t.validated)) else None;
      var pass := allPassed && ContentOk(w, e, t.first);
      if LateErrors(w, t, s) || (allPassed && !pass) then Some(Recorded(w, t.second, s, false, sources))
      else Some(Recorded(w, t.first, s, pass, sources))
  }

  predicate Passes(w: World, e: Endpoint, t: Tape, exitCode: int, pinned: string) {
    Finalize(w, e, t, exitCode, pinned).Some? && Finalize(w, e, t, exitCode, pinned).value.pass
  }

  /** The check of every expected digest after the first write. */
  method CheckLate(w: World, t: Tape, s: InputState) returns (late: bool)
    ensures late <==> LateErrors(w, t, s)
  {
    hide Digest;
    late := s.expectedManifest.Some? && Digest(w, t.first.manifest) != s.expectedManifest;
    var todo := s.expected.Keys;
    ghost var before := late;
    while todo != {}
      invariant todo <= s.expected.Keys
      invariant late <==>
        || before
        || exists l :: l in s.expected.Keys - todo && Digest(w, t.first.input(l)) != Some(s.expected[l])
    {
      var l :| l in todo;
      todo := todo - {l};
      late := late || Digest(w, t.first.input(l)) != Some(s.expected[l]);
    }
    late := late || (t.childBefore.Some? && Digest(w, t.first.child) != Digest(w, t.childBefore));
  }

  /** `finalize`, step by step. */
  method FinalizeRun(w: World, e: Endpoint, t: Tape, exitCode: int, pinned: string) returns (r: Option<Final>)
    ensures r == Finalize(w, e, t, exitCode, pinned)
  {
    hide EndpointOk, ContentOk, Digest, ReadManifest, PassedInputs, ExpectedInputs, LateErrors, SourcesOf;
    if t.occupied {
      return None;
    }
    var passed: set<Check> := {};
    if exitCode == 0 {
      passed := passed + {OuterExit};
    }
    var state := InputStateLoop(w, t, pinned);
    passed := passed + state.passed;
    var sources: Option<S.Json> := None;
    if EndpointOk(w, e, t) {
      sources := Some(SourcesOf(w, e, t.validated));
      passed := passed + {EndpointCheck};
    }
    var all := OuterExit in passed && ManifestCheck in passed && EndpointCheck in passed;
    for i := 0 to |LABELS|
      invariant all <==>
        && OuterExit in passed && ManifestCheck in passed && EndpointCheck in passed
        && forall j :: 0 <= j < i ==> Input(LABELS[j]) in passed
    {
      all := all && Input(LABELS[i]) in passed;
    }
    assert forall c :: c in state.passed ==> c == ManifestCheck || c.Input? by { PassedKinds(w, t, pinned); }
    var outerFailure := if exitCode != 0 then exitCode else 1;
    var rootExit := if all then 0 else outerFailure;
    var report := Recorded(w, t.first, state, rootExit == 0 && all && ContentOk(w, e, t.first), sources);
    var late := CheckLate(w, t, state);
    if late || (!report.pass && rootExit == 0) {
      rootExit := outerFailure;
      report := Recorded(w, t.second, state, rootExit == 0 && all && ContentOk(w, e, t.second), sources);
    }
    if !t.linked {
      return None;
    }
    r := Some(report);
  }

  lemma PassedKinds(w: World, t: Tape, pinned: string)
    ensures forall c :: c in Inputs(w, t, pinned).passed ==> c == ManifestCheck || c.Input?
  {
    hide ReadManifest, ExpectedInputs, PassedInputs;
    if ReadManifest(w, t, pinned).Some? {
      ManifestDigest(w, t, pinned);
      OnlyInputs(w, t, ReadManifest(w, t, pinned).value, |LABELS|);
    }
  }

  lemma {:induction false} OnlyInputs(w: World, t: Tape, m: Manifest, n: nat)
    requires n <= |LABELS| && AllLabels(m)
    ensures forall c :: c in PassedInputs(w, t, m, n) ==> c.Input?
    decreases n
  {
    hide InputOk;
    if n > 0 {
      OnlyInputs(w, t, m, n - 1);
    }
  }

  // ------------------------------------------------------------- results

  lemma {:induction false} LowerKeeps(s: string)
    requires forall i :: 0 <= i < |s| ==> !('A' <= s[i] <= 'F')
    ensures Lower(s) == s
  {
    if s != "" {
      LowerKeeps(s[1..]);
    }
  }

  /** The manifest is the pinned one and every input still has its recorded digest. */
  predicate AllInputsOk(w: World, t: Tape, pinned: string) {
    var m := ReadManifest(w, t, pinned);
    m.Some? && forall i :: 0 <= i < |LABELS| ==> LABELS[i] in m.value && InputOk(w, t, m.value, LABELS[i])
  }

  lemma PassMeansAllInputs(w: World, e: Endpoint, t: Tape, exitCode: int, pinned: string)
    requires Passes(w, e, t, exitCode, pinned)
    ensures exitCode == 0 && EndpointOk(w, e, t) && ContentOk(w, e, t.first) && !LateErrors(w, t, Inputs(w, t, pinned))
    ensures AllInputsOk(w, t, pinned)
    ensures Finalize(w, e, t, exitCode, pinned).value
      == Recorded(w, t.first, Inputs(w, t, pinned), true, Some(SourcesOf(w, e, t.validated)))
  {
    hide ContentOk, LateErrors, EndpointOk, InputOk, ReadManifest, PassedInputs, ExpectedInputs, SourcesOf, Digest, Lower;
    assert ReadManifest(w, t, pinned).Some?;
    var m := ReadManifest(w, t, pinned).value;
    assert AllLabels(m) by { ManifestDigest(w, t, pinned); }
    forall i | 0 <= i < |LABELS|
      ensures InputOk(w, t, m, LABELS[i])
    {
      PassedIs(w, t, m, |LABELS|, LABELS[i]);
      assert Input(LABELS[i]) in Inputs(w, t, pinned).passed;
    }
  }

  lemma ManifestDigest(w: World, t: Tape, pinned: string)
    requires ReadManifest(w, t, pinned).Some?
    ensures t.manifest.Some? && w.stage.hash(t.manifest.value) == Lower(pinned) && AllLabels(ReadManifest(w, t, pinned).value)
  {
    hide Lower, IsAnyCaseDigest;
  }

  /** A PASS under the digest that `capture` printed: whatever changed between the
      reads, each recorded input is byte for byte the captured one. */
  lemma PassPinsInputs(w: World, e: Endpoint, occupied: bool, files: seq<(Label, string)>, read: nat -> Option<Bytes>,
                       t: Tape, exitCode: int)
    requires Faithful(w) && Capture(w, occupied, files, read).Some?
    requires S.IsDigest(w.stage.hash(w.encode(Capture(w, occupied, files, read).value)))
    requires Passes(w, e, t, exitCode, w.stage.hash(w.encode(Capture(w, occupied, files, read).value)))
    ensures t.first.manifest == Some(w.encode(Capture(w, occupied, files, read).value))
    ensures forall i :: 0 <= i < |files| ==>
      && t.first.input(files[i].0) == read(i) && t.first.inputAgain(files[i].0) == read(i) && t.input(files[i].0) == read(i)
  {
    var m := Capture(w, occupied, files, read).value;
    var pinned := w.stage.hash(w.encode(m));
    CaptureRecords(w, occupied, files, read);
    PassMeansAllInputs(w, e, t, exitCode, pinned);
    PinnedManifest(w, t, m);
    hide Passes, Capture, Faithful, ReadManifest, InputOk, ContentOk, LateErrors, Inputs;
    forall i | 0 <= i < |files|
      ensures t.first.input(files[i].0) == read(i) && t.first.inputAgain(files[i].0) == read(i) && t.input(files[i].0) == read(i)
    {
      EveryLabel(files[i].0);
      assert InputOk(w, t, m, files[i].0);
      InputPinned(w, e, t, pinned, m, files[i].0, read(i).value);
    }
    ManifestSnapshot(w, t, m);
  }

  lemma CaptureRecords(w: World, occupied: bool, files: seq<(Label, string)>, read: nat -> Option<Bytes>)
    requires Capture(w, occupied, files, read).Some?
    ensures AllLabels(Capture(w, occupied, files, read).value)
    ensures forall i :: 0 <= i < |files| ==>
      && read(i).Some? && files[i].0 in Capture(w, occupied, files, read).value
      && Capture(w, occupied, files, read).value[files[i].0].sha256 == w.stage.hash(read(i).value)
  {
    RecordsPin(w, files, read, |files|);
    hide Records;
  }

  lemma PinnedManifest(w: World, t: Tape, m: Manifest)
    requires Faithful(w) && AllLabels(m) && ReadManifest(w, t, w.stage.hash(w.encode(m))).Some?
    requires S.IsDigest(w.stage.hash(w.encode(m)))
    ensures Lower(w.stage.hash(w.encode(m))) == w.stage.hash(w.encode(m))
    ensures ReadManifest(w, t, w.stage.hash(w.encode(m))) == Some(m)
  {
    var pinned := w.stage.hash(w.encode(m));
    LowerKeeps(pinned);
    hide Lower, S.IsDigest, IsAnyCaseDigest, AllLabels;
    assert t.manifest.value == w.encode(m);
  }

  lemma ManifestSnapshot(w: World, t: Tape, m: Manifest)
    requires Faithful(w) && Lower(w.stage.hash(w.encode(m))) == w.stage.hash(w.encode(m))
    requires ReadManifest(w, t, w.stage.hash(w.encode(m))) == Some(m)
    requires !LateErrors(w, t, Inputs(w, t, w.stage.hash(w.encode(m))))
    ensures t.first.manifest == Some(w.encode(m))
  {
    hide ReadManifest, PassedInputs, ExpectedInputs, S.IsDigest;
  }

  lemma InputPinned(w: World, e: Endpoint, t: Tape, pinned: string, m: Manifest, l: Label, bytes: Bytes)
    requires Faithful(w) && AllLabels(m) && l in m && m[l].sha256 == w.stage.hash(bytes)
    requires ReadManifest(w, t, pinned) == Some(m) && InputOk(w, t, m, l)
    requires ContentOk(w, e, t.first) && !LateErrors(w, t, Inputs(w, t, pinned))
    ensures t.first.input(l) == Some(bytes) && t.first.inputAgain(l) == Some(bytes) && t.input(l) == Some(bytes)
  {
    hide ReadManifest, ExpectedInputs, PassedInputs;
    ExpectedIs(m, |LABELS|, l);
    EveryLabel(l);
    var s := Inputs(w, t, pinned);
    assert l in s.expected && s.expected[l] == w.stage.hash(bytes);
    assert Digest(w, t.first.input(l)) == Some(w.stage.hash(bytes));
    var i :| 0 <= i < |LABELS| && LABELS[i] == l;
    assert Unchanged(w, t.first.input(LABELS[i]), t.first.inputAgain(LABELS[i]));
  }

  /** A PASS pins the endpoint report and everything below it: one byte string is
      digested before and after the first validation, recorded and accepted again,
      and a file system holding it accepts it exactly if it agrees on every report
      and evidence file that was opened below it. */
  lemma PassPinsEndpoint(w: World, e: Endpoint, t: Tape, exitCode: int, pinned: string)
    requires S.CollisionFree(w.stage) && Passes(w, e, t, exitCode, pinned)
    ensures t.childBefore.Some? && t.childAfter == t.first.child == t.childBefore
    ensures e.path in t.first.files && Some(t.first.files[e.path]) == t.childBefore
    ensures Finalize(w, e, t, exitCode, pinned).value.endpoint == Some(w.stage.hash(t.childBefore.value))
    ensures S.Accepts(w.stage, t.first.files, Child(e, None), [])
    ensures forall b: S.Files :: e.path in b && Some(b[e.path]) == t.childBefore ==>
      (S.Accepts(w.stage, b, Child(e, None), []) <==>
        forall p :: S.Reads(w.stage, t.first.files, Child(e, None), S.MAX_DEPTH, p) ==> S.SameAt(t.first.files, b, p))
  {
    PassMeansAllInputs(w, e, t, exitCode, pinned);
    hide Passes, Finalize, LateErrors, AllInputsOk, S.Accepts, S.Reads, S.SameAt;
    var link := Child(e, Some(w.stage.hash(t.first.child.value)));
    SameChild(w, t, pinned);
    L.AcceptedAlone(w.stage, t.first.files, link, [e.pending]);
    AcceptedBytes(w, t.first.files, link, [e.pending]);
    forall b: S.Files | e.path in b && Some(b[e.path]) == t.childBefore
      ensures S.Accepts(w.stage, b, Child(e, None), []) <==>
        forall p :: S.Reads(w.stage, t.first.files, Child(e, None), S.MAX_DEPTH, p) ==> S.SameAt(t.first.files, b, p)
    {
      assert S.SameAt(t.first.files, b, e.path) by { SameBytes(t.first.files, b, e.path); }
      S.RootPinsEverything(w.stage, t.first.files, b, Child(e, None));
    }
  }

  lemma SameBytes(a: S.Files, b: S.Files, p: string)
    requires p in a && p in b && a[p] == b[p]
    ensures S.SameAt(a, b, p)
  {
  }

  lemma SameChild(w: World, t: Tape, pinned: string)
    requires t.childBefore.Some? && !LateErrors(w, t, Inputs(w, t, pinned))
    ensures Digest(w, t.first.child) == Digest(w, t.childBefore)
  {
    hide ReadManifest;
  }

  lemma AcceptedBytes(w: World, files: S.Files, link: S.Link, ancestors: seq<string>)
    requires S.Accepts(w.stage, files, link, ancestors) && link.checksum.Some?
    ensures link.path in files && w.stage.hash(files[link.path]) == link.checksum.value
  {
    hide S.LocalContentOk, S.SaysPass;
  }

  // -------------------------------------- what a PASS leaves open: the sources

  /** The first validation, reading `g`, accepts the endpoint report. */
  predicate AcceptedFrom(w: World, e: Endpoint, g: S.Files) {
    S.Accepts(w.stage, g, Child(e, None), [])
  }

  /** The run passes when the first validation reads `g` and all else is the same. */
  predicate PassesFrom(w: World, e: Endpoint, t: Tape, exitCode: int, pinned: string, g: S.Files) {
    Passes(w, e, t.(validated := g), exitCode, pinned)
  }

  /** The sources it then records. */
  function SourcesFrom(w: World, e: Endpoint, t: Tape, exitCode: int, pinned: string, g: S.Files): Option<S.Json>
    requires PassesFrom(w, e, t, exitCode, pinned, g)
  {
    Finalize(w, e, t.(validated := g), exitCode, pinned).value.sources
  }

  /** Every check that needs only the manifest and the inputs has passed. */
  predicate InputsPass(s: InputState) {
    ManifestCheck in s.passed && forall i :: 0 <= i < |LABELS| ==> Input(LABELS[i]) in s.passed
  }

  /** When a run passes, and what it then publishes. */
  lemma PassConditions(w: World, e: Endpoint, t: Tape, exitCode: int, pinned: string)
    ensures var s := Inputs(w, t, pinned);
      && (Passes(w, e, t, exitCode, pinned) <==>
            && !t.occupied && t.linked && exitCode == 0 && InputsPass(s)
            && EndpointOk(w, e, t) && ContentOk(w, e, t.first) && !LateErrors(w, t, s))
      && (Passes(w, e, t, exitCode, pinned) ==>
            Finalize(w, e, t, exitCode, pinned).value
              == Recorded(w, t.first, s, true, Some(SourcesOf(w, e, t.validated))))
  {
    hide Inputs, ContentOk, SourcesOf, EndpointOk, LateErrors, Digest;
  }

  lemma RecordedSources(w: World, o: Write, s: InputState, pass: bool, x: Option<S.Json>, y: Option<S.Json>)
    ensures Recorded(w, o, s, pass, y) == Recorded(w, o, s, pass, x).(sources := y)
  {
  }

  lemma EndpointFrom(w: World, e: Endpoint, t: Tape, g: S.Files)
    requires EndpointOk(w, e, t)
    ensures EndpointOk(w, e, t.(validated := g)) <==> AcceptedFrom(w, e, g)
  {
    hide S.Accepts;
  }

  lemma LateFrom(w: World, t: Tape, s: InputState, g: S.Files)
    ensures LateErrors(w, t.(validated := g), s) <==> LateErrors(w, t, s)
  {
  }

  /** With another first validation the run passes exactly if that one accepts, and
      only the sources differ. */
  lemma OtherValidation(w: World, e: Endpoint, t: Tape, exitCode: int, pinned: string, g: S.Files)
    requires Passes(w, e, t, exitCode, pinned)
    ensures PassesFrom(w, e, t, exitCode, pinned, g) <==> AcceptedFrom(w, e, g)
    ensures PassesFrom(w, e, t, exitCode, pinned, g) ==>
      Finalize(w, e, t.(validated := g), exitCode, pinned).value
        == Finalize(w, e, t, exitCode, pinned).value.(sources := Some(SourcesOf(w, e, g)))
  {
    hide Inputs, ContentOk, SourcesOf, AcceptedFrom, EndpointOk, LateErrors, Recorded, Passes, Finalize, InputsPass;
    var u, s := t.(validated := g), Inputs(w, t, pinned);
    PassConditions(w, e, t, exitCode, pinned);
    PassConditions(w, e, u, exitCode, pinned);
    SameInputState(w, t, u, pinned);
    EndpointFrom(w, e, t, g);
    LateFrom(w, t, s, g);
    RecordedSources(w, t.first, s, true, Some(SourcesOf(w, e, t.validated)), Some(SourcesOf(w, e, g)));
  }

  lemma SameInputState(w: World, t: Tape, u: Tape, pinned: string)
    requires t.manifest == u.manifest && t.input == u.input
    ensures Inputs(w, u, pinned) == Inputs(w, t, pinned)
  {
    hide RecordOk, PassedInputs, ExpectedInputs, IsAnyCaseDigest, Lower;
    if ReadManifest(w, t, pinned).Some? {
      SameInputs(w, t, u, ReadManifest(w, t, pinned).value, |LABELS|);
    }
  }

  /** Over all tapes: a PASS determines the sources it copies exactly when no other
      files that the first validation may have read are accepted with other ones. */
  lemma SourcesFixedExactly(w: World, e: Endpoint, t: Tape, exitCode: int, pinned: string, possible: S.Files -> bool)
    requires Passes(w, e, t, exitCode, pinned)
    ensures
      (forall g :: possible(g) && PassesFrom(w, e, t, exitCode, pinned, g) ==>
         SourcesFrom(w, e, t, exitCode, pinned, g) == Finalize(w, e, t, exitCode, pinned).value.sources)
      <==> (forall g :: possible(g) && AcceptedFrom(w, e, g) ==> SourcesOf(w, e, g) == SourcesOf(w, e, t.validated))
  {
    PassMeansAllInputs(w, e, t, exitCode, pinned);
    assert Finalize(w, e, t, exitCode, pinned).value.sources == Some(SourcesOf(w, e, t.validated));
    forall g
      ensures PassesFrom(w, e, t, exitCode, pinned, g) <==> AcceptedFrom(w, e, g)
      ensures PassesFrom(w, e, t, exitCode, pinned, g) ==>
        SourcesFrom(w, e, t, exitCode, pinned, g) == Some(SourcesOf(w, e, g))
    {
      hide Passes, Finalize, AcceptedFrom, SourcesOf, Inputs, EndpointOk, ContentOk, AllInputsOk, LateErrors, Recorded;
      OtherValidation(w, e, t, exitCode, pinned, g);
    }
    hide Passes, Finalize, AcceptedFrom, SourcesOf, PassesFrom, SourcesFrom;
  }

  /** The condition that meets the promise: if the first validation read the bytes
      that were digested, the sources are those of the pinned report. */
  lemma UnchangedEndpointFixesSources(w: World, e: Endpoint, t: Tape, exitCode: int, pinned: string)
    requires S.CollisionFree(w.stage) && Passes(w, e, t, exitCode, pinned)
    requires e.path in t.validated && Some(t.validated[e.path]) == t.childBefore
    ensures Finalize(w, e, t, exitCode, pinned).value.sources == Some(SourcesOf(w, e, t.first.files))
  {
    hide S.Accepts, S.Reads, Passes, Finalize, EndpointOk, ContentOk, LateErrors, AllInputsOk;
    PassMeansAllInputs(w, e, t, exitCode, pinned);
    PassPinsEndpoint(w, e, t, exitCode, pinned);
  }

  /** And without it no PASS determines them: for every tape that passes there is
      another one, differing only in the endpoint bytes the first validation reads,
      with the same pinned endpoint, also PASS, and with other sources. */
  lemma SourcesAreNotPinned(w: World, e: Endpoint, t: Tape, exitCode: int, pinned: string) returns (bytes: Bytes)
    requires S.FaithfulJson(w.stage) && !w.stage.blank("0") && !w.stage.blank("1")
    requires Passes(w, e, t, exitCode, pinned)
    ensures var g := t.validated[e.path := bytes];
      && AcceptedFrom(w, e, t.validated) && AcceptedFrom(w, e, g) && PassesFrom(w, e, t, exitCode, pinned, g)
      && SourcesFrom(w, e, t, exitCode, pinned, g) != Finalize(w, e, t, exitCode, pinned).value.sources
      && Finalize(w, e, t.(validated := g), exitCode, pinned).value.endpoint
         == Finalize(w, e, t, exitCode, pinned).value.endpoint
  {
    PassMeansAllInputs(w, e, t, exitCode, pinned);
    hide Passes, Finalize, Inputs, S.Accepts, ContentOk, LateErrors, AllInputsOk, Recorded;
    bytes := L.SourcesVary(w.stage, t.validated, Child(e, None));
    OtherValidation(w, e, t, exitCode, pinned, t.validated[e.path := bytes]);
    assert Recorded(w, t.first, Inputs(w, t, pinned), true, Some(SourcesOf(w, e, t.validated))).sources
      == Some(SourcesOf(w, e, t.validated)) by { TheSources(w, t.first, Inputs(w, t, pinned), SourcesOf(w, e, t.validated)); }
  }

  lemma TheSources(w: World, o: Write, s: InputState, sources: S.Json)
    ensures Recorded(w, o, s, true, Some(sources)).sources == Some(sources)
  {
  }

  lemma {:induction false} SameInputs(w: World, t: Tape, u: Tape, m: Manifest, n: nat)
    requires n <= |LABELS| && AllLabels(m) && t.input == u.input
    ensures PassedInputs(w, t, m, n) == PassedInputs(w, u, m, n)
    decreases n
  {
    hide RecordOk;
    if n > 0 {
      SameInputs(w, t, u, m, n - 1);
    }
  }

  /** Conversely nothing but a real problem blocks: unchanged inputs, manifest and
      endpoint, acceptable content and a zero exit code give PASS. */
  lemma UnchangedPasses(w: World, e: Endpoint, t: Tape, pinned: string)
    requires !t.occupied && t.linked
    requires AllInputsOk(w, t, pinned) && EndpointOk(w, e, t) && ContentOk(w, e, t.first)
    requires forall i :: 0 <= i < |LABELS| ==> t.first.input(LABELS[i]) == t.input(LABELS[i])
    requires t.first.manifest == t.manifest && t.first.child == t.childBefore
    ensures Passes(w, e, t, 0, pinned)
  {
    hide ReadManifest, ContentOk, InputOk, PassedInputs, ExpectedInputs, Lower, SourcesOf, EndpointOk;
    AllAreExpected(w, t, pinned);
  }

  /** Every label passes, and no digest is late. */
  lemma AllAreExpected(w: World, t: Tape, pinned: string)
    requires AllInputsOk(w, t, pinned)
    requires forall i :: 0 <= i < |LABELS| ==> t.first.input(LABELS[i]) == t.input(LABELS[i])
    requires t.first.manifest == t.manifest && t.first.child == t.childBefore
    ensures ManifestCheck in Inputs(w, t, pinned).passed
    ensures forall i :: 0 <= i < |LABELS| ==> Input(LABELS[i]) in Inputs(w, t, pinned).passed
    ensures !LateErrors(w, t, Inputs(w, t, pinned))
  {
    var m := ReadManifest(w, t, pinned).value;
    ManifestDigest(w, t, pinned);
    hide ReadManifest, InputOk, PassedInputs, ExpectedInputs, Lower;
    forall i | 0 <= i < |LABELS|
      ensures Input(LABELS[i]) in PassedInputs(w, t, m, |LABELS|)
    {
      PassedIs(w, t, m, |LABELS|, LABELS[i]);
    }
    forall l | l in ExpectedInputs(m, |LABELS|)
      ensures Digest(w, t.first.input(l)) == Some(ExpectedInputs(m, |LABELS|)[l])
    {
      ExpectedIs(m, |LABELS|, l);
      var i :| 0 <= i < |LABELS| && LABELS[i] == l;
      assert InputOk(w, t, m, LABELS[i]);
      InputDigest(w, t, m, l);
    }
  }

  lemma InputDigest(w: World, t: Tape, m: Manifest, l: Label)
    requires l in m && InputOk(w, t, m, l)
    ensures Digest(w, t.input(l)) == Some(m[l].sha256)
  {
    hide RecordOk;
  }

  lemma EveryLabel(l: Label)
    ensures Listed(l, |LABELS|)
  {
    match l
    case Wheel => assert LABELS[0] == l;
    case Wrapper => assert LABELS[1] == l;
    case Evaluator => assert LABELS[2] == l;
    case StageWriter => assert LABELS[3] == l;
    case Provenance => assert LABELS[4] == l;
    case EntryReporter => assert LABELS[5] == l;
  }

  // -------------------------------------- what is published, from the reads

  /** The digest is the pinned digits in lower case. */
  predicate Spells(pinned: string, digest: string) {
    && |pinned| == 64 && |digest| == 64
    && forall i :: 0 <= i < 64 ==>
         if 'A' <= pinned[i] <= 'F' then digest[i] == pinned[i] - 'A' + 'a'
         else ('0' <= pinned[i] <= '9' || 'a' <= pinned[i] <= 'f') && digest[i] == pinned[i]
  }

  predicate Has(w: World, bytes: Option<Bytes>, digest: string) {
    match bytes
    case None => false
    case Some(b) => w.stage.hash(b) == digest
  }

  predicate Digests(w: World, bytes: Option<Bytes>, digest: Option<string>) {
    match digest
    case None => bytes.None?
    case Some(d) => Has(w, bytes, d)
  }

  const SIX: set<Label> := {Wheel, Wrapper, Evaluator, StageWriter, Provenance, EntryReporter}

  /** The manifest read is the pinned one, and lists `m` with all six labels. */
  predicate PinnedAs(w: World, t: Tape, pinned: string, m: Manifest) {
    && t.manifest.Some? && Spells(pinned, w.stage.hash(t.manifest.value))
    && w.decode(t.manifest.value) == Some(m) && m.Keys == SIX
  }

  /** `m` is the manifest that was read, if it is the pinned one. */
  ghost predicate ManifestRead(w: World, t: Tape, pinned: string, m: Option<Manifest>) {
    match m
    case Some(found) => PinnedAs(w, t, pinned, found)
    case None => forall found :: !PinnedAs(w, t, pinned, found)
  }

  /** A record with an absolute path and 64 lower-case hexadecimal digits. */
  predicate Usable(r: FileRecord) {
    && |r.path| > 0 && r.path[0] == '/' && |r.sha256| == 64
    && forall i :: 0 <= i < 64 ==> '0' <= r.sha256[i] <= '9' || 'a' <= r.sha256[i] <= 'f'
  }

  /** Every input still has its recorded digest. */
  predicate InputsStand(w: World, t: Tape, m: Manifest) {
    forall l :: l in m.Keys ==> Usable(m[l]) && Has(w, t.input(l), m[l].sha256)
  }

  /** The endpoint report is accepted, between two reads with one digest. */
  predicate EndpointStands(w: World, e: Endpoint, t: Tape) {
    && t.childBefore.Some? && Has(w, t.childAfter, w.stage.hash(t.childBefore.value))
    && S.Accepts(w.stage, t.validated, S.Link(e.path, e.id, e.scope, None), [])
  }

  /** Some file recorded by the first write is not what was checked before. */
  predicate Moved(w: World, t: Tape, m: Option<Manifest>) {
    || (m.Some? && t.manifest.Some? && !Has(w, t.first.manifest, w.stage.hash(t.manifest.value)))
    || (m.Some? && exists l :: l in m.value.Keys && Usable(m.value[l]) && !Has(w, t.first.input(l), m.value[l].sha256))
    || (t.childBefore.Some? && !Has(w, t.first.child, w.stage.hash(t.childBefore.value)))
  }

  /** What a write recorded is the same when it is checked again. */
  predicate WriteStands(w: World, e: Endpoint, o: Write) {
    && o.manifest.Some? && Has(w, o.manifestAgain, w.stage.hash(o.manifest.value))
    && (forall l :: l in SIX ==> o.input(l).Some? && Has(w, o.inputAgain(l), w.stage.hash(o.input(l).value)))
    && o.child.Some?
    && S.Accepts(w.stage, o.files, S.Link(e.path, e.id, e.scope, Some(w.stage.hash(o.child.value))), [e.pending])
    && o.otherContent
  }

  /** The sources field of the document at the endpoint. */
  ghost predicate SourcesAt(w: World, e: Endpoint, files: S.Files, sources: S.Json) {
    exists fields ::
      && e.path in files && w.stage.decode(files[e.path]) == Some(S.Obj(fields))
      && "sources" in fields && fields["sources"] == sources
  }

  /** The digest of each input with a usable record, as it was read for the write. */
  predicate RecordsInputs(w: World, m: Option<Manifest>, o: Write, inputs: map<Label, Option<string>>) {
    && (forall l :: l in inputs <==> m.Some? && l in m.value.Keys && Usable(m.value[l]))
    && forall l :: l in inputs ==> Digests(w, o.input(l), inputs[l])
  }

  /** The published report in terms of the reads: PASS exactly if everything stood
      before the write, nothing moved, and what was written stands; else a report
      whose reads moved, or that should have passed, is the second one. */
  ghost predicate FinalIs(w: World, e: Endpoint, t: Tape, exitCode: int, m: Option<Manifest>, f: Final) {
    var good := exitCode == 0 && m.Some? && InputsStand(w, t, m.value) && EndpointStands(w, e, t);
    var again := Moved(w, t, m) || (good && !WriteStands(w, e, t.first));
    var o := if again then t.second else t.first;
    && (f.pass <==> good && !again)
    && Digests(w, o.manifest, f.manifest) && Digests(w, o.child, f.endpoint)
    && RecordsInputs(w, m, o, f.inputs)
    && (f.sources.Some? <==> EndpointStands(w, e, t))
    && (f.sources.Some? ==> SourcesAt(w, e, t.validated, f.sources.value))
  }

  lemma {:induction false} LowerAt(s: string)
    ensures |Lower(s)| == |s|
    ensures forall i :: 0 <= i < |s| ==> Lower(s)[i] == if 'A' <= s[i] <= 'F' then s[i] - 'A' + 'a' else s[i]
  {
    if s != "" {
      LowerAt(s[1..]);
    }
  }

  lemma LowerSpells(pinned: string, digest: string)
    ensures IsAnyCaseDigest(pinned) && Lower(pinned) == digest <==> Spells(pinned, digest)
  {
    LowerAt(pinned);
    hide Lower;
  }

  lemma AllSix(m: Manifest)
    ensures AllLabels(m) <==> m.Keys == SIX
  {
    if AllLabels(m) {
      forall l
        ensures l in SIX ==> l in m
        ensures l in m ==> l in SIX
      {
        EveryLabel(l);
        var i :| 0 <= i < |LABELS| && LABELS[i] == l;
      }
    }
  }

  lemma ManifestIs(w: World, t: Tape, pinned: string, m: Option<Manifest>)
    requires ManifestRead(w, t, pinned, m)
    ensures ReadManifest(w, t, pinned) == m
  {
    if t.manifest.Some? {
      LowerSpells(pinned, w.stage.hash(t.manifest.value));
      if w.decode(t.manifest.value).Some? {
        AllSix(w.decode(t.manifest.value).value);
      }
    }
    hide Lower, Spells, IsAnyCaseDigest, AllLabels;
    var found := ReadManifest(w, t, pinned);
    if found.Some? {
      assert PinnedAs(w, t, pinned, found.value);
    }
  }

  lemma InputStands(w: World, t: Tape, m: Manifest, l: Label)
    requires l in m
    ensures InputOk(w, t, m, l) <==> Usable(m[l]) && Has(w, t.input(l), m[l].sha256)
    ensures RecordOk(m[l]) <==> Usable(m[l])
  {
  }

  /** The digests of the usable records. */
  predicate UsableDigests(m: Option<Manifest>, expected: map<Label, string>) {
    && (forall l :: l in expected <==> m.Some? && l in m.value.Keys && Usable(m.value[l]))
    && forall l :: l in expected ==> m.Some? && l in m.value.Keys && expected[l] == m.value[l].sha256
  }

  lemma ExpectedAre(m: Manifest)
    requires m.Keys == SIX && AllLabels(m)
    ensures UsableDigests(Some(m), ExpectedInputs(m, |LABELS|))
  {
    hide Usable, RecordOk, ExpectedInputs, Listed, AllLabels;
    forall l
      ensures l in m.Keys
      ensures l in ExpectedInputs(m, |LABELS|) <==> Usable(m[l])
      ensures l in ExpectedInputs(m, |LABELS|) ==> ExpectedInputs(m, |LABELS|)[l] == m[l].sha256
    {
      EveryLabel(l);
      AllSixHas(l);
      ExpectedIs(m, |LABELS|, l);
      UsableIsOk(m[l]);
    }
  }

  lemma UsableIsOk(r: FileRecord)
    ensures RecordOk(r) <==> Usable(r)
  {
  }

  lemma PassedAre(w: World, t: Tape, m: Manifest)
    requires m.Keys == SIX && AllLabels(m)
    ensures (forall i :: 0 <= i < |LABELS| ==> Input(LABELS[i]) in PassedInputs(w, t, m, |LABELS|)) <==> InputsStand(w, t, m)
  {
    hide Usable, RecordOk, InputOk, Has, PassedInputs, Listed, AllLabels;
    forall l
      ensures l in m.Keys
      ensures Input(l) in PassedInputs(w, t, m, |LABELS|) <==> Usable(m[l]) && Has(w, t.input(l), m[l].sha256)
    {
      EveryLabel(l);
      AllSixHas(l);
      PassedIs(w, t, m, |LABELS|, l);
      InputStands(w, t, m, l);
    }
    AllPassed(PassedInputs(w, t, m, |LABELS|));
  }

  lemma InputsAre(w: World, t: Tape, pinned: string, m: Option<Manifest>)
    requires ReadManifest(w, t, pinned) == m && (m.Some? ==> m.value.Keys == SIX)
    ensures InputsPass(Inputs(w, t, pinned)) <==> m.Some? && InputsStand(w, t, m.value)
    ensures UsableDigests(m, Inputs(w, t, pinned).expected)
  {
    var s := Inputs(w, t, pinned);
    if m.Some? {
      AllSix(m.value);
      ManifestDigest(w, t, pinned);
      assert s.expected == ExpectedInputs(m.value, |LABELS|) && s.passed == {ManifestCheck} + PassedInputs(w, t, m.value, |LABELS|);
      hide ReadManifest, Inputs, InputsStand, PassedInputs, ExpectedInputs, AllLabels, UsableDigests;
      ExpectedAre(m.value);
      PassedAre(w, t, m.value);
    } else {
      assert s.expected == map[] && s.passed == {};
    }
  }

  lemma AllSixHas(l: Label)
    ensures l in SIX
  {
  }

  lemma AllPassed(passed: set<Check>)
    ensures (forall i :: 0 <= i < |LABELS| ==> Input(LABELS[i]) in passed) <==> forall l: Label :: Input(l) in passed
  {
    if forall i :: 0 <= i < |LABELS| ==> Input(LABELS[i]) in passed {
      forall l: Label
        ensures Input(l) in passed
      {
        EveryLabel(l);
        var i :| 0 <= i < |LABELS| && LABELS[i] == l;
      }
    }
  }

  lemma EndpointStood(w: World, e: Endpoint, t: Tape)
    ensures EndpointOk(w, e, t) <==> EndpointStands(w, e, t)
  {
    hide S.Accepts;
  }

  lemma WriteStood(w: World, e: Endpoint, o: Write)
    ensures ContentOk(w, e, o) <==> WriteStands(w, e, o)
  {
    hide S.Accepts;
    if ContentOk(w, e, o) {
      forall l | l in SIX
        ensures o.input(l).Some? && Has(w, o.inputAgain(l), w.stage.hash(o.input(l).value))
      {
        EveryLabel(l);
        var i :| 0 <= i < |LABELS| && LABELS[i] == l;
        assert Unchanged(w, o.input(LABELS[i]), o.inputAgain(LABELS[i]));
      }
    }
  }

  lemma LateMoved(w: World, t: Tape, pinned: string, m: Option<Manifest>)
    requires ReadManifest(w, t, pinned) == m
    requires UsableDigests(m, Inputs(w, t, pinned).expected)
    ensures LateErrors(w, t, Inputs(w, t, pinned)) <==> Moved(w, t, m)
  {
    if m.Some? {
      ManifestDigest(w, t, pinned);
    }
    hide ReadManifest, PassedInputs, ExpectedInputs, Lower, Usable;
    var s := Inputs(w, t, pinned);
    forall bytes: Option<Bytes>, d
      ensures Digest(w, bytes) != Some(d) <==> !Has(w, bytes, d)
    {
    }
  }

  lemma SourcesAreAt(w: World, e: Endpoint, t: Tape)
    requires EndpointStands(w, e, t)
    ensures SourcesAt(w, e, t.validated, SourcesOf(w, e, t.validated))
  {
    var link := Child(e, None);
    S.AcceptsUnfolds(w.stage, t.validated, link, []);
    S.SoundExactly(w.stage, t.validated, link);
    hide S.Accepts, S.Sound;
    var fields := w.stage.decode(t.validated[e.path]).value.fields;
    assert "sources" in fields by { hide S.ProperSources, S.ProperChecks, S.ProperEvidence, S.ProperRecords; }
  }

  lemma Publishes(w: World, e: Endpoint, t: Tape, exitCode: int, pinned: string)
    ensures var s := Inputs(w, t, pinned);
      var good := exitCode == 0 && InputsPass(s) && EndpointOk(w, e, t);
      var again := LateErrors(w, t, s) || (good && !ContentOk(w, e, t.first));
      Finalize(w, e, t, exitCode, pinned) ==
        if t.occupied || !t.linked then None
        else
          Some(Recorded(w, if again then t.second else t.first, s, good && !again,
                        if EndpointOk(w, e, t) then Some(SourcesOf(w, e, t.validated)) else None))
  {
    hide Inputs, ContentOk, SourcesOf, EndpointOk, LateErrors, Recorded;
  }

  lemma RecordedIs(w: World, o: Write, s: InputState, pass: bool, sources: Option<S.Json>)
    ensures var f := Recorded(w, o, s, pass, sources);
      && f.pass == pass && f.sources == sources && Digests(w, o.manifest, f.manifest) && Digests(w, o.child, f.endpoint)
      && forall m :: UsableDigests(m, s.expected) ==> RecordsInputs(w, m, o, f.inputs)
  {
    hide Usable;
    var f := Recorded(w, o, s, pass, sources);
    assert forall l :: l in f.inputs ==> Digests(w, o.input(l), f.inputs[l]);
    assert f.inputs.Keys == s.expected.Keys;
    forall m | UsableDigests(m, s.expected)
      ensures RecordsInputs(w, m, o, f.inputs)
    {
      assert forall l :: l in f.inputs <==> l in s.expected;
    }
  }

  /** What `finalize` publishes over every tape of reads: nothing when the output
      exists before or cannot be linked, and else the report the reads determine. */
  lemma FinalExactly(w: World, e: Endpoint, t: Tape, exitCode: int, pinned: string, m: Option<Manifest>)
    requires ManifestRead(w, t, pinned, m)
    ensures Finalize(w, e, t, exitCode, pinned).None? <==> t.occupied || !t.linked
    ensures Finalize(w, e, t, exitCode, pinned).Some? ==>
      FinalIs(w, e, t, exitCode, m, Finalize(w, e, t, exitCode, pinned).value)
  {
    ManifestIs(w, t, pinned, m);
    assert m.Some? ==> m.value.Keys == SIX;
    Publishes(w, e, t, exitCode, pinned);
    hide ManifestRead, Moved, WriteStands, EndpointStands, InputsStand, EndpointOk, ContentOk, LateErrors, Inputs, ReadManifest;
    hide SourcesOf, SourcesAt, UsableDigests, InputsPass, Recorded, Finalize, Digests, RecordsInputs, S.Accepts;
    InputsAre(w, t, pinned, m);
    EndpointStood(w, e, t);
    WriteStood(w, e, t.first);
    LateMoved(w, t, pinned, m);
    if EndpointStands(w, e, t) {
      SourcesAreAt(w, e, t);
    }
    if !t.occupied && t.linked {
      var s := Inputs(w, t, pinned);
      var f := Finalize(w, e, t, exitCode, pinned).value;
      var good := exitCode == 0 && InputsPass(s) && EndpointOk(w, e, t);
      var again := LateErrors(w, t, s) || (good && !ContentOk(w, e, t.first));
      RecordedIs(w, if again then t.second else t.first, s, good && !again,
                 if EndpointOk(w, e, t) then Some(SourcesOf(w, e, t.validated)) else None);
    }
  }
}
