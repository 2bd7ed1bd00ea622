/** InterchangeFbxStaticParser.cpp: loads a scene, publishes its description and
    its mesh payloads as files, and never serves a stale or altered result. */
module StaticParser {
  import opened Wrappers

  type Path = string
  type Files = map<Path, Bytes>

  // ------------------------------------------- what the platform answers

  datatype Settings = Settings(convertScene: bool, frontX: bool, convertUnit: bool, keepNamespace: bool)

  /** Registered backends, whether one made a session, whether it accepted the
      scene, and the serialized scene description. */
  datatype LoadAnswer = LoadAnswer(
    backends: nat, created: bool, accepted: bool, description: Bytes, serialized: bool)

  datatype FetchAnswer = FetchAnswer(ok: bool, uid: string, bytes: Bytes)

  /** File-system outcomes of one save: directory made, writer created, bytes that
      reached the file, writer closed without error, file readable. */
  datatype Io = Io(directory: bool, writable: bool, landed: Bytes, closed: bool, readable: bool)

  // --------------------------------------------------- the parser, by value

  datatype Scene = Scene(filename: string, settings: Settings)

  datatype Parser = Parser(
    session: Option<Scene>, loaded: bool, settings: Settings, source: string,
    resultPath: Path, payloads: map<string, Path>, messages: seq<string>, nextId: nat)

  /** The parser, the files, and the bytes it has reported as published. */
  datatype System = System(parser: Parser, files: Files, published: Files)

  /** `SaveVerified`: success, and the files afterwards. */
  function Save(files: Files, bytes: Bytes, path: Path, reuse: bool, io: Io): (bool, Files) {
    if bytes == [] then (false, files)
    else if path in files then (reuse && io.readable && files[path] == bytes, files)
    else if !io.directory || !io.writable then (false, files)
    else (io.closed && io.readable && io.landed == bytes, files[path := io.landed])
  }

  function Reset(p: Parser): Parser {
    p.(session := None, loaded := false, source := "", resultPath := "", payloads := map[], messages := [])
  }

  function SetConvertSettings(p: Parser, s: Settings): Parser {
    Reset(p).(settings := s)
  }

  /** `LoadFbxFile` into a container. */
  function LoadScene(p: Parser, filename: string, a: LoadAnswer): Parser {
    var q := Reset(p).(source := filename);
    if a.backends != 1 || !a.created || !a.accepted then q.(messages := ["load"])
    else q.(session := Some(Scene(filename, p.settings)), loaded := true)
  }

  function SceneName(id: nat): string {
    "SceneDescription-" + IdText(id) + ".itc"
  }

  function IdText(n: nat): string {
    if n < 10 then ["0123456789"[n]] else IdText(n / 10) + ["0123456789"[n % 10]]
  }

  /** `FPaths::Combine` with a full folder path. */
  function Combine(folder: string, name: string): Path {
    folder + "/" + name
  }

  /** `LoadFbxFile` with a result folder. */
  function LoadFile(s: System, filename: string, folder: string, a: LoadAnswer, io: Io): System {
    var p := LoadScene(s.parser, filename, a);
    if !p.loaded then s.(parser := p)
    else
      var path := Combine(folder, SceneName(p.nextId));
      var q := p.(nextId := p.nextId + 1);
      if folder == "" || !a.serialized then s.(parser := Reset(q).(messages := ["scene"]))
      else
        var (ok, files) := Save(s.files, a.description, path, false, io);
        if !ok then System(Reset(q).(messages := ["scene"]), files, s.published)
        else System(q.(resultPath := path), files, s.published[path := a.description])
  }

  predicate ValidUid(uid: string) {
    |uid| == 64 && forall i :: 0 <= i < 64 ==> '0' <= uid[i] <= '9' || 'a' <= uid[i] <= 'f'
  }

  function PayloadPath(folder: string, uid: string): Path {
    Combine(folder, uid + ".payload")
  }

  function Refuse(p: Parser, uid: string): Parser {
    p.(payloads := if uid == "" then p.payloads else p.payloads - {uid}, messages := ["mesh"])
  }

  /** `FetchMeshPayload`: the identity it returns ("" on failure). */
  function FetchMesh(s: System, folder: string, a: FetchAnswer, io: Io): (string, System) {
    var p := s.parser.(messages := []);
    if !p.loaded || p.session.None? || folder == "" then ("", s.(parser := Refuse(p, "")))
    else if !a.ok || !ValidUid(a.uid) then ("", s.(parser := Refuse(p, a.uid)))
    else
      var path := PayloadPath(folder, a.uid);
      if a.uid in p.payloads && p.payloads[a.uid] == path && path !in s.files then ("", s.(parser := Refuse(p, a.uid)))
      else
        var (ok, files) := Save(s.files, a.bytes, path, true, io);
        if !ok then ("", System(Refuse(p, a.uid), files, s.published))
        else (a.uid, System(p.(payloads := p.payloads[a.uid := path]), files, s.published[path := a.bytes]))
  }

  /** Generic and animation payloads are refused. */
  function FetchUnsupported(p: Parser): Parser {
    p.(messages := ["unsupported"])
  }

  const FRESH := Parser(None, false, Settings(true, false, true, false), "", "", map[], [], 0)

  // ----------------------------------------------------------- the store

  /** No file already there has changed. */
  predicate Keeps(before: Files, after: Files) {
    forall p :: p in before ==> p in after && after[p] == before[p]
  }

  /** Loaded means a session; unloaded means nothing to serve; every result
      named by the parser holds exactly the bytes published under that name. */
  predicate Consistent(s: System) {
    && (s.parser.loaded <==> s.parser.session.Some?)
    && (!s.parser.loaded ==> s.parser.payloads == map[] && s.parser.resultPath == "")
    && Keeps(s.published, s.files)
    && (s.parser.resultPath != "" ==> s.parser.resultPath in s.published)
    && forall u :: u in s.parser.payloads ==> s.parser.payloads[u] in s.published
  }

  /** Every operation of the parser, as one step. */
  datatype Action =
    | DoReset
    | DoSettings(settings: Settings)
    | DoLoadScene(filename: string, load: LoadAnswer)
    | DoLoad(filename: string, folder: string, load: LoadAnswer, io: Io)
    | DoFetch(folder: string, fetch: FetchAnswer, io: Io)
    | DoUnsupported

  function Act(s: System, a: Action): System {
    match a
    case DoReset => s.(parser := Reset(s.parser))
    case DoSettings(settings) => s.(parser := SetConvertSettings(s.parser, settings))
    case DoLoadScene(filename, load) => s.(parser := LoadScene(s.parser, filename, load))
    case DoLoad(filename, folder, load, io) => LoadFile(s, filename, folder, load, io)
    case DoFetch(folder, fetch, io) => FetchMesh(s, folder, fetch, io).1
    case DoUnsupported => s.(parser := FetchUnsupported(s.parser))
  }

  function Run(s: System, actions: seq<Action>): System {
    if actions == [] then s else Act(Run(s, actions[..|actions| - 1]), actions[|actions| - 1])
  }

  lemma SaveKeeps(files: Files, bytes: Bytes, path: Path, reuse: bool, io: Io)
    ensures Keeps(files, Save(files, bytes, path, reuse, io).1)
    ensures Save(files, bytes, path, reuse, io).0 ==>
      bytes != [] && path in Save(files, bytes, path, reuse, io).1 && Save(files, bytes, path, reuse, io).1[path] == bytes
  {
  }

  lemma LoadKeeps(s: System, filename: string, folder: string, a: LoadAnswer, io: Io)
    requires Consistent(s)
    ensures var t := LoadFile(s, filename, folder, a, io); Consistent(t) && Keeps(s.files, t.files)
  {
    hide Save, SceneName, Combine;
    SaveKeeps(s.files, a.description, Combine(folder, SceneName(s.parser.nextId)), false, io);
  }

  lemma FetchKeeps(s: System, folder: string, a: FetchAnswer, io: Io)
    requires Consistent(s)
    ensures var t := FetchMesh(s, folder, a, io).1; Consistent(t) && Keeps(s.files, t.files)
  {
    hide Save, PayloadPath, ValidUid;
    SaveKeeps(s.files, a.bytes, PayloadPath(folder, a.uid), true, io);
  }

  lemma ActKeeps(s: System, a: Action)
    requires Consistent(s)
    ensures Consistent(Act(s, a)) && Keeps(s.files, Act(s, a).files)
  {
    match a
    case DoLoad(filename, folder, load, io) =>
      LoadKeeps(s, filename, folder, load, io);
    case DoFetch(folder, fetch, io) =>
      FetchKeeps(s, folder, fetch, io);
    case _ =>
  }

  lemma KeepsTransitive(a: Files, b: Files, c: Files)
    requires Keeps(a, b) && Keeps(b, c)
    ensures Keeps(a, c)
  {
  }

  /** Over every run, whatever the backend and the file system answer: the state
      stays consistent and no existing file's content is ever changed. */
  lemma {:induction false} EveryRunKeepsTheStore(s: System, actions: seq<Action>)
    requires Consistent(s)
    ensures Consistent(Run(s, actions)) && Keeps(s.files, Run(s, actions).files)
    decreases |actions|
  {
    hide Act, Consistent, Keeps;
    if actions != [] {
      var front := actions[..|actions| - 1];
      EveryRunKeepsTheStore(s, front);
      ActKeeps(Run(s, front), actions[|actions| - 1]);
      KeepsTransitive(s.files, Run(s, front).files, Run(s, actions).files);
    } else {
      assert Keeps(s.files, s.files) by { KeepsItself(s.files); }
    }
  }

  lemma KeepsItself(files: Files)
    ensures Keeps(files, files)
  {
  }

  /** Repeating a successful fetch with the same answer changes nothing at all. */
  lemma RepeatedFetch(s: System, folder: string, a: FetchAnswer, io: Io, again: Io)
    requires Consistent(s) && FetchMesh(s, folder, a, io).0 != "" && again.readable
    ensures FetchMesh(FetchMesh(s, folder, a, io).1, folder, a, again) == FetchMesh(s, folder, a, io)
  {
    hide ValidUid, PayloadPath;
    SaveKeeps(s.files, a.bytes, PayloadPath(folder, a.uid), true, io);
    var (uid, t) := FetchMesh(s, folder, a, io);
    assert t.published[PayloadPath(folder, a.uid) := a.bytes] == t.published;
    assert t.parser.payloads[a.uid := PayloadPath(folder, a.uid)] == t.parser.payloads;
  }

  /** A fetch succeeds exactly when a scene is loaded, the folder is given, the
      backend answers with a valid identity and nonempty bytes, and the payload
      file either already holds these bytes or can be written completely. */
  lemma FetchSucceeds(s: System, folder: string, a: FetchAnswer, io: Io)
    requires Consistent(s)
    ensures FetchMesh(s, folder, a, io).0 != "" <==>
      && s.parser.loaded && folder != "" && a.ok && ValidUid(a.uid) && a.bytes != []
      && var path := PayloadPath(folder, a.uid);
         io.readable && if path in s.files then s.files[path] == a.bytes
                        else io.directory && io.writable && io.closed && io.landed == a.bytes
  {
    hide Combine;
    assert ValidUid(a.uid) ==> a.uid != "";
    if a.uid in s.parser.payloads {
      assert s.parser.payloads[a.uid] in s.files;
    }
  }

  // ------------------------------------------------------ the classes

  class FileStore {
    var files: Files
    ghost var published: Files

    constructor (files: Files)
      ensures this.files == files && published == map[]
    {
      this.files, published := files, map[];
    }

    method SaveVerified(bytes: Bytes, path: Path, reuse: bool, io: Io) returns (ok: bool)
      modifies this`files, this`published
      ensures (ok, files) == Save(old(files), bytes, path, reuse, io)
      ensures published == if ok then old(published)[path := bytes] else old(published)
    {
      if bytes == [] {
        return false;
      }
      if path in files {
        var existing := files[path];
        ok := reuse && io.readable && existing == bytes;
        if ok { published := published[path := bytes]; }
        return;
      }
      if !io.directory {
        return false;
      }
      if !io.writable {
        return false;
      }
      files := files[path := io.landed];
      if !io.closed {
        return false;
      }
      var readback := files[path];
      ok := io.readable && readback == bytes;
      if ok { published := published[path := bytes]; }
    }
  }

  class FbxParser {
    var session: Option<Scene>
    var loaded: bool
    var settings: Settings
    var source: string
    var resultPath: Path
    var payloads: map<string, Path>
    var messages: seq<string>
    var nextId: nat
    const store: FileStore

    function View(): Parser
      reads this
    {
      Parser(session, loaded, settings, source, resultPath, payloads, messages, nextId)
    }

    ghost function Whole(): System
      reads this, store
    {
      System(View(), store.files, store.published)
    }

    constructor (store: FileStore)
      ensures this.store == store && View() == FRESH
    {
      this.store := store;
      session, loaded, settings, source := None, false, Settings(true, false, true, false), "";
      resultPath, payloads, messages, nextId := "", map[], [], 0;
    }

    method Clear()
      modifies this
      ensures View() == Reset(old(View()))
    {
      session, loaded, source, resultPath, payloads, messages := None, false, "", "", map[], [];
    }

    method Configure(s: Settings)
      modifies this
      ensures View() == SetConvertSettings(old(View()), s)
    {
      Clear();
      settings := s;
    }

    method Load(filename: string, a: LoadAnswer)
      modifies this
      ensures View() == LoadScene(old(View()), filename, a)
    {
      Clear();
      source := filename;
      if a.backends == 1 && a.created {
        session := Some(Scene(filename, settings));
      }
      if session.None? || !a.accepted {
        session := None;
        messages := messages + ["load"];
        return;
      }
      loaded := true;
    }

    method LoadToFolder(filename: string, folder: string, a: LoadAnswer, io: Io)
      modifies this, store
      ensures Whole() == LoadFile(old(Whole()), filename, folder, a, io)
    {
      hide Save, SceneName, Combine;
      Load(filename, a);
      if !loaded {
        return;
      }
      var path := Combine(folder, SceneName(nextId));
      nextId := nextId + 1;
      if folder == "" || !a.serialized {
        Clear();
        messages := messages + ["scene"];
        return;
      }
      var saved := store.SaveVerified(a.description, path, false, io);
      if !saved {
        Clear();
        messages := messages + ["scene"];
        return;
      }
      resultPath := path;
    }

    method Fetch(folder: string, a: FetchAnswer, io: Io) returns (id: string)
      modifies this, store
      ensures (id, Whole()) == FetchMesh(old(Whole()), folder, a, io)
    {
      hide Save, PayloadPath, ValidUid;
      messages := [];
      var uid := "";
      if !loaded || session.None? {
      } else if folder == "" {
      } else {
        uid := a.uid;
        if a.ok && ValidUid(uid) {
          var path := PayloadPath(folder, uid);
          if uid in payloads && payloads[uid] == path && path !in store.files {
          } else {
            var saved := store.SaveVerified(a.bytes, path, true, io);
            if saved {
              payloads := payloads[uid := path];
              return uid;
            }
          }
        }
      }
      if uid != "" {
        payloads := payloads - {uid};
      }
      messages := messages + ["mesh"];
      assert messages == ["mesh"];
      id := "";
    }

    method FetchOther()
      modifies this
      ensures View() == FetchUnsupported(old(View()))
    {
      messages := [];
      messages := messages + ["unsupported"];
    }
  }
}
