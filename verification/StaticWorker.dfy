/** InterchangeWorkerStatic.cpp: the command loop that runs parser tasks for the
    editor process and answers each of them. */
module StaticWorker {
  import opened Wrappers
  import opened StaticParser

  const TRANSLATOR := "FBX"

  datatype LoadCommand = LoadCommand(translator: string, filename: string, settings: Settings)
  datatype MeshCommand = MeshCommand(translator: string, key: string)

  /** A task's JSON, as the four command readers see it. */
  datatype Task = Task(
    index: int, load: Option<LoadCommand>, animation: Option<string>,
    mesh: Option<MeshCommand>, generic: Option<string>)

  /** What the backend and the file system answer while one task runs. */
  datatype Environment = Environment(load: LoadAnswer, fetch: FetchAnswer, io: Io)

  datatype Completed = Completed(index: int, ok: bool, path: Path, messages: seq<string>)

  predicate IsLoad(t: Task) {
    t.load.Some? && t.load.value.translator == TRANSLATOR
  }

  predicate IsAnimation(t: Task) {
    !IsLoad(t) && t.animation == Some(TRANSLATOR)
  }

  predicate IsMesh(t: Task) {
    !IsLoad(t) && !IsAnimation(t) && t.mesh.Some? && t.mesh.value.translator == TRANSLATOR
  }

  predicate IsGeneric(t: Task) {
    !IsLoad(t) && !IsAnimation(t) && !IsMesh(t) && t.generic == Some(TRANSLATOR)
  }

  /** The common tail: a result only without messages and with a nonempty file. */
  function Finish(index: int, s: System, path: Path): Completed {
    var m := s.parser.messages;
    if m == [] && path != "" && path in s.files && |s.files[path]| > 0 then Completed(index, true, path, [])
    else Completed(index, false, "", if m == [] then ["Parser did not publish a verified result file"] else m)
  }

  /** `ExecuteStaticTask` */
  function Execute(s: System, t: Task, folder: string, e: Environment): (Completed, System) {
    if IsLoad(t) then
      var c := t.load.value;
      var u := LoadFile(s.(parser := SetConvertSettings(s.parser, c.settings)), c.filename, folder, e.load, e.io);
      (Finish(t.index, u, u.parser.resultPath), u)
    else if IsAnimation(t) then
      var u := s.(parser := FetchUnsupported(s.parser));
      (Finish(t.index, u, ""), u)
    else if IsMesh(t) then
      var (id, u) := FetchMesh(s, folder, e.fetch, e.io);
      (Finish(t.index, u, if id != "" && id in u.parser.payloads then u.parser.payloads[id] else ""), u)
    else if IsGeneric(t) then
      var u := s.(parser := FetchUnsupported(s.parser));
      (Finish(t.index, u, ""), u)
    else (Completed(t.index, false, "", ["Invalid static Worker command or translator"]), s)
  }

  // ------------------------------------------------- what a task answers

  /** A load answers ProcessOk exactly when the scene ends up loaded, and then
      with a file holding this scene's description. */
  lemma LoadAnswers(s: System, t: Task, folder: string, e: Environment)
    requires Consistent(s) && IsLoad(t)
    ensures var (c, u) := Execute(s, t, folder, e);
      && (c.ok <==> u.parser.loaded)
      && (c.ok ==> c.path in u.files && u.files[c.path] == e.load.description && c.path in u.published)
  {
    hide Save, SceneName, IdText;
    SaveKeeps(s.files, e.load.description, Combine(folder, SceneName(s.parser.nextId)), false, e.io);
    assert Combine(folder, SceneName(s.parser.nextId)) != "";
  }

  /** A mesh task answers ProcessOk exactly when the fetch succeeds, and then with
      a file holding the bytes the backend gave for this very request. */
  lemma MeshAnswers(s: System, t: Task, folder: string, e: Environment)
    requires Consistent(s) && IsMesh(t)
    ensures var (c, u) := Execute(s, t, folder, e);
      && (c.ok <==> FetchMesh(s, folder, e.fetch, e.io).0 != "")
      && (c.ok ==> s.parser.loaded && c.path in u.files && u.files[c.path] == e.fetch.bytes && c.path in u.published)
      && u.parser.loaded == s.parser.loaded
  {
    hide Save, ValidUid;
    SaveKeeps(s.files, e.fetch.bytes, PayloadPath(folder, e.fetch.uid), true, e.io);
    assert PayloadPath(folder, e.fetch.uid) != "";
  }

  /** The task commands a static FBX load. */
  predicate Loads(t: Task) {
    match t.load
    case None => false
    case Some(c) => c.translator == "FBX"
  }

  /** The task fetches a mesh: it is no load and no animation query. */
  predicate FetchesMesh(t: Task) {
    match t.mesh
    case None => false
    case Some(c) => c.translator == "FBX" && !Loads(t) && (t.animation.Some? ==> t.animation.value != "FBX")
  }

  /** The one backend made a session and accepted the scene. */
  predicate SceneAccepted(a: LoadAnswer) {
    a.backends == 1 && a.created && a.accepted
  }

  /** A new file can be started at the target. */
  predicate CanStart(files: Files, target: Path, bytes: Bytes, io: Io) {
    bytes != [] && target !in files && io.directory && io.writable
  }

  /** What a load does, over the task and the platform's answers. It is ok exactly if
      the one backend made a session that accepted the scene and its description was
      serialized, written to a new file, closed and read back. Then the scene in
      effect is this file's, with the command's four settings; otherwise nothing is
      loaded and nothing of an earlier scene is left to serve. */
  lemma LoadExactly(s: System, t: Task, folder: string, e: Environment)
    requires Loads(t)
    ensures
      var (c, u) := Execute(s, t, folder, e);
      var (a, io, command, p) := (e.load, e.io, t.load.value, u.parser);
      var target := folder + "/" + ("SceneDescription-" + IdText(s.parser.nextId) + ".itc");
      var starts := SceneAccepted(a) && folder != "" && a.serialized && CanStart(s.files, target, a.description, io);
      && (c.ok <==> starts && io.closed && io.readable && io.landed == a.description)
      && (c.ok ==> p == Parser(Some(Scene(command.filename, command.settings)), true, command.settings,
                               command.filename, target, map[], [], s.parser.nextId + 1))
      && (c.ok ==> c.path == target && u.files == s.files[target := a.description])
      && (c.ok ==> u.published == s.published[target := a.description] && c.messages == [])
      && (!c.ok ==> !p.loaded && p.session == None && p.payloads == map[] && p.resultPath == "" && p.settings == command.settings)
      && (!c.ok ==> c.messages != [] && c.path == "" && u.published == s.published)
      && (!c.ok ==> u.files == if starts then s.files[target := io.landed] else s.files)
      && p.nextId == s.parser.nextId + (if SceneAccepted(a) then 1 else 0)
  {
    hide IdText, FetchMesh, FetchUnsupported;
    assert folder + "/" + ("SceneDescription-" + IdText(s.parser.nextId) + ".itc") == Combine(folder, SceneName(s.parser.nextId));
  }

  /** A SHA-256 in lower-case hexadecimal. */
  predicate IsIdentity(uid: string) {
    |uid| == 64 && forall c :: c in uid ==> c in "0123456789abcdef"
  }

  lemma ValidIsIdentity(uid: string)
    ensures ValidUid(uid) <==> IsIdentity(uid)
  {
    if IsIdentity(uid) {
      forall i | 0 <= i < 64 ensures '0' <= uid[i] <= '9' || 'a' <= uid[i] <= 'f' {
        assert uid[i] in uid;
      }
    } else if ValidUid(uid) {
      forall c | c in uid ensures c in "0123456789abcdef" {
        IsHexDigit(c);
      }
    }
  }

  lemma IsHexDigit(c: char)
    requires '0' <= c <= '9' || 'a' <= c <= 'f'
    ensures c in "0123456789abcdef"
  {
    if c <= '9' {
      assert "0123456789abcdef"[c as int - 48] == c;
    } else {
      assert "0123456789abcdef"[c as int - 87] == c;
    }
  }

  /** What a fetch does to the system, and whether it gives an identity. */
  ghost predicate Fetched(s: System, folder: string, a: FetchAnswer, io: Io, ok: bool, u: System) {
    var target := folder + "/" + (a.uid + ".payload");
    var asked := s.parser.loaded && folder != "";
    var named := asked && a.ok && IsIdentity(a.uid) && a.bytes != [];
    var starts := named && CanStart(s.files, target, a.bytes, io);
    && (ok <==> || (named && target in s.files && io.readable && s.files[target] == a.bytes)
                || (starts && io.closed && io.readable && io.landed == a.bytes))
    && (ok ==> u.parser == s.parser.(payloads := s.parser.payloads[a.uid := target], messages := []))
    && (ok ==> u.files == s.files[target := a.bytes] && u.published == s.published[target := a.bytes])
    && (!ok ==> u.parser == s.parser.(payloads := u.parser.payloads, messages := u.parser.messages))
    && (!ok ==> u.parser.payloads == if asked && a.uid != "" then s.parser.payloads - {a.uid} else s.parser.payloads)
    && (!ok ==> u.files == (if starts then s.files[target := io.landed] else s.files) && u.published == s.published)
  }

  lemma FetchIs(s: System, folder: string, a: FetchAnswer, io: Io)
    requires Consistent(s)
    ensures var (id, u) := FetchMesh(s, folder, a, io);
      && Fetched(s, folder, a, io, id != "", u) && (id != "" ==> id == a.uid)
      && (id == "" <==> u.parser.messages != [])
  {
    ValidIsIdentity(a.uid);
    assert folder + "/" + (a.uid + ".payload") == PayloadPath(folder, a.uid);
    assert IsIdentity(a.uid) ==> a.uid != "";
    hide ValidUid, IsIdentity, PayloadPath;
  }

  /** What a mesh task does. It is ok exactly if a scene is loaded and the backend's
      bytes, under a valid identity, are what the payload file already holds or could
      be written completely. A refusal leaves the loaded scene and drops the payload
      of the identity the backend named. */
  lemma MeshExactly(s: System, t: Task, folder: string, e: Environment)
    requires Consistent(s) && FetchesMesh(t)
    ensures var (c, u) := Execute(s, t, folder, e);
      && Fetched(s, folder, e.fetch, e.io, c.ok, u)
      && (c.ok ==> c.path == folder + "/" + (e.fetch.uid + ".payload") && c.messages == [])
      && (!c.ok ==> c.path == "" && c.messages != [] && c.messages == u.parser.messages)
  {
    FetchIs(s, folder, e.fetch, e.io);
    assert IsMesh(t);
    hide IsMesh, FetchesMesh, FetchMesh, LoadFile, SetConvertSettings, FetchUnsupported, IsIdentity;
  }

  /** Every other task fails and changes nothing but the messages. */
  lemma OthersExactly(s: System, t: Task, folder: string, e: Environment)
    requires !Loads(t) && !FetchesMesh(t)
    ensures var (c, u) := Execute(s, t, folder, e);
      && !c.ok && c.path == "" && c.messages != []
      && u == s.(parser := s.parser.(messages := u.parser.messages))
  {
  }

  lemma ExecuteKeeps(s: System, t: Task, folder: string, e: Environment)
    requires Consistent(s)
    ensures var (c, u) := Execute(s, t, folder, e);
      Consistent(u) && Keeps(s.files, u.files) && c.index == t.index
  {
    hide Save, SceneName, IdText, ValidUid, PayloadPath, LoadFile, FetchMesh;
    if IsLoad(t) {
      var r := s.(parser := SetConvertSettings(s.parser, t.load.value.settings));
      assert Consistent(r);
      LoadKeeps(r, t.load.value.filename, folder, e.load, e.io);
    } else {
      FetchKeeps(s, folder, e.fetch, e.io);
    }
  }

  // -------------------------------------------------- sequences of tasks

  /** A task together with what happens while it runs. */
  datatype Job = Job(task: Task, environment: Environment)

  function After(s: System, jobs: seq<Job>, folder: string, n: nat): System
    requires n <= |jobs|
  {
    if n == 0 then s else Execute(After(s, jobs, folder, n - 1), jobs[n - 1].task, folder, jobs[n - 1].environment).1
  }

  function Answer(s: System, jobs: seq<Job>, folder: string, n: nat): Completed
    requires n < |jobs|
  {
    Execute(After(s, jobs, folder, n), jobs[n].task, folder, jobs[n].environment).0
  }

  lemma {:induction false} AfterConsistent(s: System, jobs: seq<Job>, folder: string, n: nat)
    requires n <= |jobs| && Consistent(s)
    ensures Consistent(After(s, jobs, folder, n)) && Keeps(s.files, After(s, jobs, folder, n).files)
    decreases n
  {
    hide Execute, Consistent, Keeps;
    if n > 0 {
      AfterConsistent(s, jobs, folder, n - 1);
      var before := After(s, jobs, folder, n - 1);
      ExecuteKeeps(before, jobs[n - 1].task, folder, jobs[n - 1].environment);
      KeepsTransitive(s.files, before.files, After(s, jobs, folder, n).files);
    } else {
      KeepsItself(s.files);
    }
  }

  /** Task `i` is the latest load before task `n`, and was answered ProcessOk. */
  predicate LatestLoadOk(s: System, jobs: seq<Job>, folder: string, i: nat, n: nat)
    requires i < n <= |jobs|
  {
    && IsLoad(jobs[i].task) && Answer(s, jobs, folder, i).ok
    && forall k :: i < k < n ==> !IsLoad(jobs[k].task)
  }

  /** The scene in effect after `n` tasks comes from the latest load, and that
      load was answered ProcessOk. */
  lemma {:induction false} LoadedByLatestLoad(s: System, jobs: seq<Job>, folder: string, n: nat)
    requires n <= |jobs| && Consistent(s) && !s.parser.loaded
    ensures After(s, jobs, folder, n).parser.loaded <==>
      exists i :: 0 <= i < n && LatestLoadOk(s, jobs, folder, i, n)
    decreases n
  {
    hide Execute, Consistent, IsLoad;
    if n > 0 {
      LoadedByLatestLoad(s, jobs, folder, n - 1);
      AfterConsistent(s, jobs, folder, n - 1);
      var before, t, e := After(s, jobs, folder, n - 1), jobs[n - 1].task, jobs[n - 1].environment;
      if IsLoad(t) {
        LoadAnswers(before, t, folder, e);
        assert Answer(s, jobs, folder, n - 1).ok <==> After(s, jobs, folder, n).parser.loaded;
        assert LatestLoadOk(s, jobs, folder, n - 1, n) <==> Answer(s, jobs, folder, n - 1).ok;
      } else {
        StaysLoaded(before, t, folder, e);
        var m := n - 1;
        forall i | 0 <= i < n
          ensures LatestLoadOk(s, jobs, folder, i, n) <==> i < m && LatestLoadOk(s, jobs, folder, i, m)
        {
          hide Answer;
        }
        hide LatestLoadOk;
      }
    }
  }

  lemma StaysLoaded(s: System, t: Task, folder: string, e: Environment)
    requires Consistent(s) && !IsLoad(t)
    ensures Execute(s, t, folder, e).1.parser.loaded == s.parser.loaded
  {
    if IsMesh(t) {
      MeshAnswers(s, t, folder, e);
    } else {
      OthersExactly(s, t, folder, e);
    }
  }

  /** The scene in effect is the file the latest load named, under its settings. */
  lemma {:induction false} SceneOfLatestLoad(s: System, jobs: seq<Job>, folder: string, i: nat, n: nat)
    requires i < n <= |jobs| && Consistent(s) && LatestLoadOk(s, jobs, folder, i, n)
    ensures var load := jobs[i].task.load;
      load.Some? && After(s, jobs, folder, n).parser.session == Some(Scene(load.value.filename, load.value.settings))
    decreases n
  {
    hide Execute, Consistent;
    var before, t, e := After(s, jobs, folder, n - 1), jobs[n - 1].task, jobs[n - 1].environment;
    AfterConsistent(s, jobs, folder, n - 1);
    if i == n - 1 {
      LoadExactly(before, t, folder, e);
    } else {
      var m := n - 1;
      assert LatestLoadOk(s, jobs, folder, i, m);
      SceneOfLatestLoad(s, jobs, folder, i, n - 1);
      KeepsScene(before, t, folder, e);
    }
  }

  lemma KeepsScene(s: System, t: Task, folder: string, e: Environment)
    requires Consistent(s) && !IsLoad(t)
    ensures Execute(s, t, folder, e).1.parser.session == s.parser.session
  {
    if IsMesh(t) {
      MeshExactly(s, t, folder, e);
    } else {
      OthersExactly(s, t, folder, e);
    }
    hide *;
  }

  lemma JobNeedsLatestLoad(s: System, jobs: seq<Job>, folder: string, n: nat)
    requires n < |jobs| && Consistent(s) && !s.parser.loaded
    requires IsMesh(jobs[n].task) && Answer(s, jobs, folder, n).ok
    ensures exists i :: 0 <= i < n && LatestLoadOk(s, jobs, folder, i, n)
  {
    AfterConsistent(s, jobs, folder, n);
    MeshAnswers(After(s, jobs, folder, n), jobs[n].task, folder, jobs[n].environment);
    hide Execute, Consistent, IsLoad;
    LoadedByLatestLoad(s, jobs, folder, n);
  }

  // ------------------------------------------------------ the command loop

  datatype Command = Ping | BackPing | RunTask(task: Task, environment: Environment) | Terminate | Unknown

  /** One pass of the loop: the peer is alive and the connection valid; the
      command received, if any; the idle deadline has passed; the send works. */
  datatype Round = Round(alive: bool, command: Option<Command>, idle: bool, sends: bool)

  /** Messages handed to the connection, whether or not they get through. */
  datatype Message = PingSent | PongSent | Done(completed: Completed) | ErrorSent

  /** Result of `Run` so far: None while the loop is still going. */
  datatype Progress = Progress(result: Option<bool>, sent: seq<Message>, system: System)

  /** The arguments and connection checks before the loop. */
  datatype Start = Start(validArguments: bool, connected: bool, validIdle: bool, versionError: bool, sends: bool)

  function Begin(start: Start, s: System): Progress {
    if !start.validArguments || !start.connected || !start.validIdle then Progress(Some(false), [], s)
    else if start.versionError then Progress(Some(false), [ErrorSent], s)
    else if !start.sends then Progress(Some(false), [PingSent], s)
    else Progress(None, [PingSent], s)
  }

  function Send(p: Progress, r: Round, m: Message, s: System): Progress {
    Progress(if r.sends then None else Some(false), p.sent + [m], s)
  }

  function Pass(p: Progress, r: Round, folder: string): Progress {
    if p.result.Some? then p
    else if !r.alive then p.(result := Some(false))
    else
      match r.command
      case None => if r.idle then p.(result := Some(false)) else p
      case Some(Ping) => Send(p, r, PongSent, p.system)
      case Some(BackPing) => p
      case Some(RunTask(t, e)) =>
        var (c, s) := Execute(p.system, t, folder, e);
        Send(p, r, Done(c), s)
      case Some(Terminate) => p.(result := Some(true))
      case Some(Unknown) => Send(p, r, ErrorSent, p.system)
  }

  function Loop(p: Progress, rounds: seq<Round>, n: nat, folder: string): Progress
    requires n <= |rounds|
  {
    if n == 0 then p else Pass(Loop(p, rounds, n - 1, folder), rounds[n - 1], folder)
  }

  /** Round `i` runs a task: the loop is still going and the command arrives. */
  predicate Processes(p: Progress, rounds: seq<Round>, i: nat, folder: string)
    requires i < |rounds|
  {
    Loop(p, rounds, i, folder).result.None? && rounds[i].alive
    && rounds[i].command.Some? && rounds[i].command.value.RunTask?
  }

  /** Indices of the tasks processed in the first `n` rounds, in arrival order. */
  function TaskIndices(p: Progress, rounds: seq<Round>, n: nat, folder: string): seq<int>
    requires n <= |rounds|
  {
    if n == 0 then []
    else TaskIndices(p, rounds, n - 1, folder)
         + if Processes(p, rounds, n - 1, folder) then [rounds[n - 1].command.value.task.index] else []
  }

  /** The jobs processed in the first `n` rounds, in arrival order. */
  function Jobs(p: Progress, rounds: seq<Round>, n: nat, folder: string): seq<Job>
    requires n <= |rounds|
  {
    if n == 0 then []
    else Jobs(p, rounds, n - 1, folder)
         + if Processes(p, rounds, n - 1, folder)
           then [Job(rounds[n - 1].command.value.task, rounds[n - 1].command.value.environment)] else []
  }

  function AnsweredIndices(sent: seq<Message>): seq<int> {
    if sent == [] then []
    else AnsweredIndices(sent[..|sent| - 1])
         + if sent[|sent| - 1].Done? then [sent[|sent| - 1].completed.index] else []
  }

  lemma ExecuteIndex(s: System, t: Task, folder: string, e: Environment)
    ensures Execute(s, t, folder, e).0.index == t.index
  {
    hide LoadFile, FetchMesh;
  }

  lemma PassAnswers(p: Progress, r: Round, folder: string)
    ensures AnsweredIndices(Pass(p, r, folder).sent) == AnsweredIndices(p.sent) +
      if p.result.None? && r.alive && r.command.Some? && r.command.value.RunTask? then [r.command.value.task.index] else []
  {
    hide Execute, AnsweredIndices;
    if p.result.None? && r.alive && r.command.Some? {
      match r.command.value
      case RunTask(t, e) =>
        ExecuteIndex(p.system, t, folder, e);
        SentAppend(p.sent, Done(Execute(p.system, t, folder, e).0));
      case Ping => SentAppend(p.sent, PongSent);
      case Unknown => SentAppend(p.sent, ErrorSent);
      case _ =>
    }
  }

  /** One answer per processed task, carrying its index, in arrival order. */
  lemma {:induction false} EveryTaskIsAnswered(p: Progress, rounds: seq<Round>, n: nat, folder: string)
    requires n <= |rounds|
    ensures AnsweredIndices(Loop(p, rounds, n, folder).sent)
      == AnsweredIndices(p.sent) + TaskIndices(p, rounds, n, folder)
    decreases n
  {
    hide Pass, AnsweredIndices;
    if n > 0 {
      EveryTaskIsAnswered(p, rounds, n - 1, folder);
      PassAnswers(Loop(p, rounds, n - 1, folder), rounds[n - 1], folder);
    }
  }

  lemma {:induction false} AfterPrefix(s: System, jobs: seq<Job>, more: seq<Job>, folder: string, n: nat)
    requires n <= |jobs|
    ensures After(s, jobs + more, folder, n) == After(s, jobs, folder, n)
    decreases n
  {
    hide Execute;
    if n > 0 {
      AfterPrefix(s, jobs, more, folder, n - 1);
    }
  }

  /** The loop's state is that of its jobs, run one after the other; so what
      holds over task sequences holds over every command stream. */
  lemma {:induction false} LoopRunsItsJobs(p: Progress, rounds: seq<Round>, n: nat, folder: string)
    requires n <= |rounds|
    ensures var jobs := Jobs(p, rounds, n, folder);
      Loop(p, rounds, n, folder).system == After(p.system, jobs, folder, |jobs|)
    decreases n
  {
    hide Execute;
    if n > 0 {
      LoopRunsItsJobs(p, rounds, n - 1, folder);
      var before := Jobs(p, rounds, n - 1, folder);
      if Processes(p, rounds, n - 1, folder) {
        var more := [Job(rounds[n - 1].command.value.task, rounds[n - 1].command.value.environment)];
        AfterPrefix(p.system, before, more, folder, |before|);
        assert (before + more)[|before|] == more[0];
      } else {
        assert before + [] == before;
      }
    }
  }

  /** The answers among the messages, in the order they were sent. */
  function Dones(sent: seq<Message>): seq<Completed> {
    if sent == [] then []
    else
      Dones(sent[..|sent| - 1])
      + if sent[|sent| - 1].Done? then [sent[|sent| - 1].completed] else []
  }

  lemma DonesAppend(sent: seq<Message>, m: Message)
    ensures Dones(sent + [m]) == Dones(sent) + if m.Done? then [m.completed] else []
  {
    assert (sent + [m])[..|sent|] == sent;
  }

  function Answers(s: System, jobs: seq<Job>, folder: string): seq<Completed> {
    seq(|jobs|, i requires 0 <= i < |jobs| => Answer(s, jobs, folder, i))
  }

  lemma PassDones(p: Progress, r: Round, folder: string)
    ensures Dones(Pass(p, r, folder).sent) == Dones(p.sent) +
      if p.result.None? && r.alive && r.command.Some? && r.command.value.RunTask?
      then [Execute(p.system, r.command.value.task, folder, r.command.value.environment).0] else []
  {
    hide Execute, Dones;
    if p.result.None? && r.alive && r.command.Some? {
      match r.command.value
      case RunTask(t, e) => DonesAppend(p.sent, Done(Execute(p.system, t, folder, e).0));
      case Ping => DonesAppend(p.sent, PongSent);
      case Unknown => DonesAppend(p.sent, ErrorSent);
      case _ =>
    }
  }

  lemma AnswersAppend(s: System, jobs: seq<Job>, job: Job, folder: string)
    ensures Answers(s, jobs + [job], folder) ==
      Answers(s, jobs, folder) + [Execute(After(s, jobs, folder, |jobs|), job.task, folder, job.environment).0]
  {
    hide Execute, After;
    forall i | 0 <= i < |jobs|
      ensures Answer(s, jobs + [job], folder, i) == Answer(s, jobs, folder, i)
    {
      AfterPrefix(s, jobs, [job], folder, i);
    }
    AfterPrefix(s, jobs, [job], folder, |jobs|);
  }

  /** What the loop sends as answers are exactly the answers of its tasks, run one
      after the other. */
  lemma {:induction false} DonesAreAnswers(p: Progress, rounds: seq<Round>, n: nat, folder: string)
    requires n <= |rounds|
    ensures Dones(Loop(p, rounds, n, folder).sent)
      == Dones(p.sent) + Answers(p.system, Jobs(p, rounds, n, folder), folder)
    decreases n
  {
    hide Execute, Pass, Dones, After, Answer;
    if n > 0 {
      DonesAreAnswers(p, rounds, n - 1, folder);
      var before, jobs := Loop(p, rounds, n - 1, folder), Jobs(p, rounds, n - 1, folder);
      PassDones(before, rounds[n - 1], folder);
      LoopRunsItsJobs(p, rounds, n - 1, folder);
      if Processes(p, rounds, n - 1, folder) {
        AnswersAppend(p.system, jobs, Job(rounds[n - 1].command.value.task, rounds[n - 1].command.value.environment), folder);
      } else {
        assert jobs + [] == jobs;
      }
    }
  }

  lemma BeginHasNoAnswers(start: Start, s: System)
    ensures Dones(Begin(start, s).sent) == [] && Begin(start, s).system == s
  {
    DonesAppend([], PingSent);
    DonesAppend([], ErrorSent);
    assert [] + [PingSent] == [PingSent] && [] + [ErrorSent] == [ErrorSent];
  }

  /** No stale state, over every command stream: an answer to a mesh task is ok only
      if the answer to the latest load before it was; after a failed load none is,
      until a later load succeeds. */
  lemma MeshNeedsLatestLoad(start: Start, s: System, rounds: seq<Round>, n: nat, folder: string, k: nat)
    requires n <= |rounds| && Consistent(s) && !s.parser.loaded
    requires k < |Dones(Loop(Begin(start, s), rounds, n, folder).sent)|
    ensures var jobs, done := Jobs(Begin(start, s), rounds, n, folder), Dones(Loop(Begin(start, s), rounds, n, folder).sent);
      && |done| == |jobs|
      && (IsMesh(jobs[k].task) && done[k].ok ==>
            exists i :: 0 <= i < k && IsLoad(jobs[i].task) && done[i].ok && forall j :: i < j < k ==> !IsLoad(jobs[j].task))
  {
    hide Consistent, Loop, Jobs, IsLoad, IsMesh, Answer, Dones, Begin;
    var p := Begin(start, s);
    var jobs := Jobs(p, rounds, n, folder);
    BeginHasNoAnswers(start, s);
    DonesAreAnswers(p, rounds, n, folder);
    var done := Dones(Loop(p, rounds, n, folder).sent);
    assert done == Answers(s, jobs, folder);
    if IsMesh(jobs[k].task) && done[k].ok {
      JobNeedsLatestLoad(s, jobs, folder, k);
      var i :| 0 <= i < k && LatestLoadOk(s, jobs, folder, i, k);
      assert done[i] == Answer(s, jobs, folder, i);
    }
  }

  lemma SentAppend(sent: seq<Message>, m: Message)
    ensures AnsweredIndices(sent + [m]) == AnsweredIndices(sent) + if m.Done? then [m.completed.index] else []
  {
    assert (sent + [m])[..|sent|] == sent;
  }

  /** The loop is still going at round `i` and receives Terminate. */
  predicate TerminatesAt(p: Progress, rounds: seq<Round>, i: nat, folder: string)
    requires i < |rounds|
  {
    Loop(p, rounds, i, folder).result.None? && rounds[i].alive && rounds[i].command == Some(Terminate)
  }

  lemma PassResult(p: Progress, r: Round, folder: string)
    ensures Pass(p, r, folder).result == Some(true) <==>
      p.result == Some(true) || (p.result.None? && r.alive && r.command == Some(Terminate))
  {
    hide Execute;
  }

  /** The loop returns true exactly on a received Terminate. */
  lemma {:induction false} TrueOnlyOnTerminate(p: Progress, rounds: seq<Round>, n: nat, folder: string)
    requires n <= |rounds| && p.result != Some(true)
    ensures Loop(p, rounds, n, folder).result == Some(true) <==>
      exists i :: 0 <= i < n && TerminatesAt(p, rounds, i, folder)
    decreases n
  {
    hide Pass;
    if n > 0 {
      TrueOnlyOnTerminate(p, rounds, n - 1, folder);
      PassResult(Loop(p, rounds, n - 1, folder), rounds[n - 1], folder);
      assert TerminatesAt(p, rounds, n - 1, folder) <==>
        Loop(p, rounds, n - 1, folder).result.None? && rounds[n - 1].alive && rounds[n - 1].command == Some(Terminate);
    }
  }

  /** Round `r` lets the loop go on. */
  predicate GoesOn(r: Round) {
    && r.alive
    && match r.command
       case None => !r.idle
       case Some(BackPing) => true
       case Some(Terminate) => false
       case Some(_) => r.sends
  }

  predicate Starts(start: Start) {
    start.validArguments && start.connected && start.validIdle && !start.versionError && start.sends
  }

  function Reply(s: System, command: Option<Command>, folder: string): seq<Message> {
    match command
    case Some(Ping) => [PongSent]
    case Some(RunTask(t, e)) => [Done(Execute(s, t, folder, e).0)]
    case Some(Unknown) => [ErrorSent]
    case _ => []
  }

  lemma PassGoesOn(p: Progress, r: Round, folder: string)
    ensures Pass(p, r, folder).result.None? <==> p.result.None? && GoesOn(r)
    ensures p.result.None? && r.alive ==> Pass(p, r, folder).sent == p.sent + Reply(p.system, r.command, folder)
  {
    hide Execute;
  }

  /** The loop is still going exactly after a good start and rounds that each let it
      go on: the peer alive, no Terminate, no idle deadline passed, no failed send. */
  lemma {:induction false} GoesOnExactly(start: Start, s: System, rounds: seq<Round>, n: nat, folder: string)
    requires n <= |rounds|
    ensures Loop(Begin(start, s), rounds, n, folder).result.None? <==>
      Starts(start) && forall i :: 0 <= i < n ==> GoesOn(rounds[i])
    decreases n
  {
    hide Pass, GoesOn;
    if n > 0 {
      GoesOnExactly(start, s, rounds, n - 1, folder);
      PassGoesOn(Loop(Begin(start, s), rounds, n - 1, folder), rounds[n - 1], folder);
    }
  }

  /** A round the loop reaches, the peer being alive, sends the reply to its command. */
  lemma RoundReplies(p: Progress, rounds: seq<Round>, n: nat, folder: string)
    requires n < |rounds| && Loop(p, rounds, n, folder).result.None? && rounds[n].alive
    ensures Loop(p, rounds, n + 1, folder).sent ==
      Loop(p, rounds, n, folder).sent + Reply(Loop(p, rounds, n, folder).system, rounds[n].command, folder)
  {
    hide Pass, Reply;
    PassGoesOn(Loop(p, rounds, n, folder), rounds[n], folder);
  }

  class Worker {
    const folder: string
    const parser: FbxParser
    var sent: seq<Message>

    constructor (folder: string, store: FileStore)
      ensures this.folder == folder && fresh(parser) && parser.store == store && parser.View() == FRESH && sent == []
    {
      this.folder := folder;
      parser := new FbxParser(store);
      sent := [];
    }

    method ExecuteTask(t: Task, e: Environment) returns (c: Completed)
      modifies parser, parser.store
      ensures (c, parser.Whole()) == Execute(old(parser.Whole()), t, folder, e)
    {
      hide LoadFile, FetchMesh;
      var path := "";
      if IsLoad(t) {
        parser.Configure(t.load.value.settings);
        parser.LoadToFolder(t.load.value.filename, folder, e.load, e.io);
        path := parser.resultPath;
      } else if IsAnimation(t) {
        parser.FetchOther();
      } else if IsMesh(t) {
        var id := parser.Fetch(folder, e.fetch, e.io);
        if id != "" && id in parser.payloads {
          path := parser.payloads[id];
        }
      } else if IsGeneric(t) {
        parser.FetchOther();
      } else {
        return Completed(t.index, false, "", ["Invalid static Worker command or translator"]);
      }
      var messages := parser.messages;
      if messages == [] && path != "" && path in parser.store.files && |parser.store.files[path]| > 0 {
        c := Completed(t.index, true, path, []);
      } else {
        if messages == [] {
          messages := messages + ["Parser did not publish a verified result file"];
        }
        c := Completed(t.index, false, "", messages);
      }
      assert c == Finish(t.index, parser.Whole(), path);
    }

    ghost function Now(result: Option<bool>): Progress
      reads this, parser, parser.store
    {
      Progress(result, sent, parser.Whole())
    }

    /** `Run`, over the rounds the connection delivers; None if they end first. */
    method Run(start: Start, rounds: seq<Round>) returns (result: Option<bool>)
      requires sent == []
      modifies this, parser, parser.store
      ensures Now(result) == Loop(Begin(start, old(parser.Whole())), rounds, |rounds|, folder)
    {
      hide Execute;
      ghost var first := Begin(start, parser.Whole());
      if !start.validArguments || !start.connected || !start.validIdle {
        Stopped(first, rounds, 0, folder);
        return Some(false);
      }
      if start.versionError {
        sent := sent + [ErrorSent];
        Stopped(first, rounds, 0, folder);
        return Some(false);
      }
      sent := sent + [PingSent];
      if !start.sends {
        Stopped(first, rounds, 0, folder);
        return Some(false);
      }
      for n := 0 to |rounds|
        invariant Now(None) == Loop(first, rounds, n, folder)
      {
        var r := rounds[n];
        if !r.alive {
          Stopped(first, rounds, n + 1, folder);
          return Some(false);
        }
        if r.command.None? {
          if r.idle {
            Stopped(first, rounds, n + 1, folder);
            return Some(false);
          }
          continue;
        }
        match r.command.value {
          case Ping =>
            sent := sent + [PongSent];
          case BackPing =>
            continue;
          case RunTask(t, e) =>
            var completed := ExecuteTask(t, e);
            sent := sent + [Done(completed)];
          case Terminate =>
            Stopped(first, rounds, n + 1, folder);
            return Some(true);
          case Unknown =>
            sent := sent + [ErrorSent];
        }
        if !r.sends {
          Stopped(first, rounds, n + 1, folder);
          return Some(false);
        }
      }
      result := None;
    }
  }

  /** Once `Run` has returned, later input changes nothing. */
  lemma {:induction false} Stopped(p: Progress, rounds: seq<Round>, n: nat, folder: string)
    requires n <= |rounds| && Loop(p, rounds, n, folder).result.Some?
    ensures Loop(p, rounds, |rounds|, folder) == Loop(p, rounds, n, folder)
    decreases |rounds| - n
  {
    hide Execute;
    if n < |rounds| {
      Stopped(p, rounds, n + 1, folder);
    }
  }
}
