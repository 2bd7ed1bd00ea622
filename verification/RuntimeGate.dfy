/** check_carla_runtime.py, `run_gate`: a gate that names the check in progress,
    records what passed, and cleans up after itself wherever it stops. */
module RuntimeGate {
  import opened Wrappers
  import opened TickLoop
  import Q = AlignedQueue
  import StageReport

  const ACTOR_WARMUP := 2

  // ------------------------------------------------------ the whole gate

  datatype Mode = Rpc | SensorMode | ActorMode

  datatype Check =
    | Environment | Provenance | Permission | Handshake | World | SyncSettings | Ticks
    | SensorSetup | Alignment | Camera | Lidar | ActorSetup | VehicleMotion | WalkerMotion | Cleanup

  datatype Status = Missing | Passed | Failed

  type Actor = nat

  /** A step that may raise: applying the settings, spawning an actor, what remains
      of `_spawn_actors` after the last spawn, a tick (numbered from 1), the stages of
      a measured tick in sensor mode, the two checks after the loop, or anything else. */
  datatype Site =
    | ApplySite | SpawnSite(actor: Actor) | ReturnSite
    | TickSite(n: nat) | AlignSite(n: nat) | ImageSite(n: nat) | PointsSite(n: nat) | OverflowSite | ChangeSite
    | Other

  /** What the body of the gate does, step by step: name the active check, do
      something that may raise, record a PASS, own a spawned actor, mark that new
      settings are about to be applied, or receive the spawned vehicle, Traffic
      Manager and controller from `_spawn_actors`. */
  datatype Op = Enter(check: Check) | Try(site: Site) | Pass(check: Check) | Own(actor: Actor) | Attempt | Receive

  const ACT := Try(Other)

  /** The checks of a mode's own. */
  function OwnChecks(mode: Mode): set<Check> {
    match mode
    case Rpc => {}
    case SensorMode => {SensorSetup, Alignment, Camera, Lidar}
    case ActorMode => {ActorSetup, VehicleMotion, WalkerMotion}
  }

  function Required(mode: Mode): set<Check> {
    {Environment, Provenance, Permission, Handshake, World, SyncSettings, Ticks, Cleanup} + OwnChecks(mode)
  }

  function Prologue(): seq<Op> {
    [Enter(Environment), ACT, Pass(Environment), Enter(Provenance), ACT, Pass(Provenance),
     Enter(Permission), ACT, Pass(Permission), Enter(Handshake), ACT, Pass(Handshake),
     Enter(World), ACT, Pass(World), Enter(SyncSettings), ACT, Attempt, Try(ApplySite), ACT, Pass(SyncSettings)]
  }

  function Setup(mode: Mode): seq<Op> {
    match mode
    case Rpc => []
    case SensorMode =>
      [Enter(SensorSetup), ACT, Try(SpawnSite(0)), Own(0), ACT, Try(SpawnSite(1)), Own(1), ACT, Pass(SensorSetup)]
    case ActorMode =>
      [Enter(ActorSetup), ACT, Try(SpawnSite(0)), Own(0), ACT, Try(SpawnSite(1)), Own(1), ACT, Try(SpawnSite(2)), Own(2),
       Try(ReturnSite), Receive, Pass(ActorSetup)]
  }

  function Warmup(mode: Mode): nat {
    match mode
    case Rpc => 0
    case SensorMode => Q.WARMUP
    case ActorMode => ACTOR_WARMUP
  }

  function TickOps(mode: Mode, n: nat): seq<Op> {
    if n == 0 then []
    else TickOps(mode, n - 1) + [Enter(Ticks), Try(TickSite(n))] + MeasureOps(mode, n)
  }

  function MeasureOps(mode: Mode, n: nat): seq<Op> {
    if mode.SensorMode? && n > Q.WARMUP then
      [Enter(Alignment), Try(AlignSite(n)), Enter(Camera), Try(ImageSite(n)), Enter(Lidar), Try(PointsSite(n))]
    else []
  }

  function Epilogue(mode: Mode): seq<Op> {
    [Pass(Ticks)]
    + match mode
      case Rpc => []
      case SensorMode =>
        [Enter(Alignment), Try(OverflowSite), Pass(Alignment), Pass(Lidar), Enter(Camera), Try(ChangeSite), Pass(Camera)]
      case ActorMode =>
        [ACT, Enter(VehicleMotion), ACT, Pass(VehicleMotion), Enter(WalkerMotion), ACT, Pass(WalkerMotion)]
  }

  /** The body of `run_gate`; the step after the setup reads the tick baseline. */
  function Plan(mode: Mode, ticks: nat): seq<Op> {
    Prologue() + Setup(mode) + [ACT] + TickOps(mode, Warmup(mode) + ticks) + Epilogue(mode)
  }

  datatype Body = Body(
    checks: map<Check, Status>, active: Check, owned: seq<Actor>, attempted: bool, received: bool, raised: bool)

  function Do(b: Body, op: Op, fails: bool): Body {
    if b.raised then b
    else
      match op
      case Enter(check) => b.(active := check)
      case Try(_) => if fails then b.(raised := true, checks := b.checks[b.active := Failed]) else b
      case Pass(check) => b.(checks := b.checks[check := Passed])
      case Own(actor) => b.(owned := b.owned + [actor])
      case Attempt => b.(attempted := true)
      case Receive => b.(received := true)
  }

  /** Which steps of a body raise, by position and site. */
  type Fails = (nat, Site) -> bool

  predicate FailsAt(fails: Fails, i: nat, op: Op) {
    op.Try? && fails(i, op.site)
  }

  /** The body, up to the first step that raises. */
  function Execute(b: Body, plan: seq<Op>, fails: Fails): Body {
    if plan == [] then b
    else
      var last := |plan| - 1;
      Do(Execute(b, plan[..last], fails), plan[last], FailsAt(fails, last, plan[last]))
  }

  function Initial(mode: Mode): Body {
    Body(map c | c in Required(mode) :: Missing, Environment, [], false, false, false)
  }

  // ------------------------------------------------------------- cleanup

  datatype Call =
    | StopController(actor: Actor) | TrafficManagerOff | AutopilotOff
    | StopActor(actor: Actor) | Destroy(actor: Actor) | Restore

  /** How the cleanup calls turn out. A destroy that is not acknowledged and a
      restore after which the settings read differ count as broken. */
  datatype Answers = Answers(
    listening: Actor -> bool, raises: Call -> bool, acknowledged: Actor -> bool, original: nat, settingsRead: nat)

  predicate Broken(a: Answers, c: Call) {
    a.raises(c) || (c.Destroy? && !a.acknowledged(c.actor)) || (c.Restore? && a.settingsRead != a.original)
  }

  /** One actor: stopped if it is listening, then destroyed. */
  function ActorCall(a: Answers, x: Actor): seq<Call> {
    (if a.listening(x) then [StopActor(x)] else []) + [Destroy(x)]
  }

  function ActorCalls(a: Answers, owned: seq<Actor>): seq<Call> {
    if owned == [] then [] else ActorCall(a, owned[|owned| - 1]) + ActorCalls(a, owned[..|owned| - 1])
  }

  /** Calls on what `_spawn_actors` returned, if it returned. */
  function ReceivedCalls(b: Body): seq<Call> {
    if !b.received then []
    else if b.owned == [] then [TrafficManagerOff, AutopilotOff]
    else [StopController(b.owned[|b.owned| - 1]), TrafficManagerOff, AutopilotOff]
  }

  /** The calls of the `finally` block, in order. */
  function CleanupCalls(b: Body, a: Answers): seq<Call> {
    ReceivedCalls(b) + ActorCalls(a, b.owned) + if b.attempted then [Restore] else []
  }

  function Failures(a: Answers, calls: seq<Call>): seq<Call> {
    if calls == [] then []
    else Failures(a, calls[..|calls| - 1]) + if Broken(a, calls[|calls| - 1]) then [calls[|calls| - 1]] else []
  }

  /** The final checks: cleanup, then the files rehashed after the run. */
  function Finish(b: Body, a: Answers, provenanceSame: bool, clientSame: bool): map<Check, Status> {
    var c := b.checks[Cleanup := if Failures(a, CleanupCalls(b, a)) == [] then Passed else Failed];
    var d := if provenanceSame then c else c[Provenance := Failed];
    if clientSame then d else d[Handshake := Failed]
  }

  predicate AllPassed(checks: map<Check, Status>) {
    forall c :: c in checks ==> checks[c] == Passed
  }

  class Gate {
    var calls: seq<Call>
    var errors: seq<Call>

    constructor ()
      ensures calls == [] && errors == []
    {
      calls, errors := [], [];
    }

    method Attempt(c: Call, a: Answers)
      modifies this
      ensures calls == old(calls) + [c]
      ensures errors == old(errors) + if Broken(a, c) then [c] else []
    {
      calls := calls + [c];
      if a.raises(c) {
        errors := errors + [c];
      } else if c.Destroy? && !a.acknowledged(c.actor) {
        errors := errors + [c];
      } else if c.Restore? && a.settingsRead != a.original {
        errors := errors + [c];
      }
    }

    /** The loop over `reversed(owned)`. */
    method DestroyOwned(owned: seq<Actor>, a: Answers)
      requires errors == Failures(a, calls)
      modifies this
      ensures calls == old(calls) + ActorCalls(a, owned) && errors == Failures(a, calls)
    {
      hide Broken, Failures, ActorCall;
      var i := |owned|;
      assert owned[..i] == owned;
      while i > 0
        invariant 0 <= i <= |owned|
        invariant calls + ActorCalls(a, owned[..i]) == old(calls) + ActorCalls(a, owned)
        invariant errors == Failures(a, calls)
      {
        i := i - 1;
        assert owned[..i + 1][..i] == owned[..i];
        ghost var here, rest := calls, ActorCalls(a, owned[..i]);
        StopAndDestroy(owned[i], a);
        assert here + (ActorCall(a, owned[i]) + rest) == calls + rest;
      }
      assert calls + [] == calls;
    }

    method StopAndDestroy(x: Actor, a: Answers)
      requires errors == Failures(a, calls)
      modifies this
      ensures calls == old(calls) + ActorCall(a, x) && errors == Failures(a, calls)
    {
      hide Broken, Failures;
      if a.listening(x) {
        Step(StopActor(x), a);
      }
      Step(Destroy(x), a);
    }

    /** The `finally` block: every call is attempted, whatever the others do. */
    method CleanUp(b: Body, a: Answers) returns (status: Status)
      requires calls == [] && errors == []
      modifies this
      ensures calls == CleanupCalls(b, a) && errors == Failures(a, CleanupCalls(b, a))
      ensures status == if errors == [] then Passed else Failed
    {
      hide Broken, Failures;
      assert Failures(a, []) == [] by { NoCallsNoFailures(a); }
      if b.received {
        if b.owned != [] {
          Step(StopController(b.owned[|b.owned| - 1]), a);
        }
        Step(TrafficManagerOff, a);
        Step(AutopilotOff, a);
      }
      assert calls == ReceivedCalls(b);
      DestroyOwned(b.owned, a);
      if b.attempted {
        Step(Restore, a);
      }
      assert calls == CleanupCalls(b, a);
      status := if errors == [] then Passed else Failed;
    }

    method Step(c: Call, a: Answers)
      requires errors == Failures(a, calls)
      modifies this
      ensures calls == old(calls) + [c] && errors == Failures(a, calls)
    {
      FailuresAppend(a, calls, c);
      Attempt(c, a);
    }
  }

  lemma NoCallsNoFailures(a: Answers)
    ensures Failures(a, []) == []
  {
  }

  lemma FailuresAppend(a: Answers, calls: seq<Call>, c: Call)
    ensures Failures(a, calls + [c]) == Failures(a, calls) + if Broken(a, c) then [c] else []
  {
    assert (calls + [c])[..|calls|] == calls;
  }

  // ------------------------------------------------------------- results

  function Destroyed(calls: seq<Call>): seq<Actor> {
    if calls == [] then []
    else (if calls[0].Destroy? then [calls[0].actor] else []) + Destroyed(calls[1..])
  }

  function Reversed(s: seq<Actor>): seq<Actor> {
    if s == [] then [] else [s[|s| - 1]] + Reversed(s[..|s| - 1])
  }

  lemma DestroyedHead(c: Call, rest: seq<Call>)
    ensures Destroyed([c] + rest) == (if c.Destroy? then [c.actor] else []) + Destroyed(rest)
  {
    var calls := [c] + rest;
    assert calls[0] == c && calls[1..] == rest;
  }

  lemma {:induction false} DestroyedConcat(x: seq<Call>, y: seq<Call>)
    ensures Destroyed(x + y) == Destroyed(x) + Destroyed(y)
    decreases |x|
  {
    if x == [] {
      assert x + y == y;
    } else {
      hide Destroyed;
      assert x == [x[0]] + x[1..] && x + y == [x[0]] + (x[1..] + y);
      DestroyedHead(x[0], x[1..]);
      DestroyedHead(x[0], x[1..] + y);
      DestroyedConcat(x[1..], y);
    }
  }

  lemma OneActorDestroyed(a: Answers, x: Actor)
    ensures Destroyed(ActorCall(a, x)) == [x] && Restore !in ActorCall(a, x)
  {
    assert Destroyed([Destroy(x)]) == [x] by { DestroyedHead(Destroy(x), []); assert [Destroy(x)] + [] == [Destroy(x)]; }
    DestroyedHead(StopActor(x), [Destroy(x)]);
    hide Destroyed;
    assert !a.listening(x) ==> ActorCall(a, x) == [Destroy(x)];
  }

  lemma {:induction false} ActorsDestroyed(a: Answers, owned: seq<Actor>)
    ensures Destroyed(ActorCalls(a, owned)) == Reversed(owned) && Restore !in ActorCalls(a, owned)
    decreases |owned|
  {
    if owned != [] {
      var last := owned[|owned| - 1];
      ActorsDestroyed(a, owned[..|owned| - 1]);
      OneActorDestroyed(a, last);
      DestroyedConcat(ActorCall(a, last), ActorCalls(a, owned[..|owned| - 1]));
      hide Destroyed, ActorCall;
    }
  }

  /** Wherever the body stopped: destroy is attempted once for each owned actor,
      last spawned first, and the settings are restored exactly if an apply had
      been attempted. */
  lemma CleanupIsComplete(b: Body, a: Answers)
    ensures Destroyed(CleanupCalls(b, a)) == Reversed(b.owned)
    ensures Restore in CleanupCalls(b, a) <==> b.attempted
  {
    ActorsDestroyed(a, b.owned);
    var x, z := ReceivedCalls(b), if b.attempted then [Restore] else [];
    DestroyedConcat(x + ActorCalls(a, b.owned), z);
    DestroyedConcat(x, ActorCalls(a, b.owned));
    assert Destroyed(x) == [] && Restore !in x by { ReceivedDestroyNothing(b); }
    assert Destroyed(z) == [];
    hide ActorCalls, Destroyed, ReceivedCalls;
  }

  lemma {:induction false} NoDestroys(calls: seq<Call>)
    requires forall i :: 0 <= i < |calls| ==> !calls[i].Destroy?
    ensures Destroyed(calls) == []
    decreases |calls|
  {
    if calls != [] {
      NoDestroys(calls[1..]);
    }
  }

  lemma ReceivedDestroyNothing(b: Body)
    ensures Destroyed(ReceivedCalls(b)) == [] && Restore !in ReceivedCalls(b)
  {
    NoDestroys(ReceivedCalls(b));
  }

  lemma {:induction false} NoFailures(a: Answers, calls: seq<Call>)
    ensures Failures(a, calls) == [] <==> forall c :: c in calls ==> !Broken(a, c)
    decreases |calls|
  {
    if calls != [] {
      NoFailures(a, calls[..|calls| - 1]);
      assert calls == calls[..|calls| - 1] + [calls[|calls| - 1]];
    }
  }

  lemma {:induction false} DestroyListed(calls: seq<Call>, x: Actor)
    ensures x in Destroyed(calls) <==> Destroy(x) in calls
    decreases |calls|
  {
    if calls != [] {
      DestroyListed(calls[1..], x);
      assert calls == [calls[0]] + calls[1..];
    }
  }

  lemma {:induction false} ReversedHasSame(s: seq<Actor>, x: Actor)
    ensures x in Reversed(s) <==> x in s
    decreases |s|
  {
    if s != [] {
      ReversedHasSame(s[..|s| - 1], x);
      assert s == s[..|s| - 1] + [s[|s| - 1]];
    }
  }

  lemma NotBroken(a: Answers, c: Call)
    ensures Broken(a, c) <==>
      match c
      case Destroy(x) => a.raises(c) || !a.acknowledged(x)
      case Restore => a.raises(c) || a.settingsRead != a.original
      case _ => a.raises(c)
  {
  }

  /** Cleanup PASS means what it says: no call made raised, every destroy was
      acknowledged, and after a restore the settings read are the original ones. */
  lemma CleanupPassed(b: Body, a: Answers)
    ensures var calls := CleanupCalls(b, a);
      Failures(a, calls) == [] <==>
        && (forall c :: c in calls ==> !a.raises(c))
        && (forall x :: x in b.owned ==> a.acknowledged(x))
        && (b.attempted ==> a.settingsRead == a.original)
  {
    var calls := CleanupCalls(b, a);
    NoFailures(a, calls);
    CleanupIsComplete(b, a);
    hide CleanupCalls, Failures;
    forall x
      ensures x in b.owned <==> Destroy(x) in calls
    {
      ReversedHasSame(b.owned, x);
      DestroyListed(calls, x);
    }
    forall c
      ensures Broken(a, c) <==>
        match c
        case Destroy(x) => a.raises(c) || !a.acknowledged(x)
        case Restore => a.raises(c) || a.settingsRead != a.original
        case _ => a.raises(c)
    {
      NotBroken(a, c);
    }
  }

  /** Every stop is followed by the destroy of that actor. */
  ghost predicate StopsThenDestroys(calls: seq<Call>) {
    forall i, x :: 0 <= i < |calls| && calls[i] == StopActor(x) ==> i + 1 < |calls| && calls[i + 1] == Destroy(x)
  }

  lemma StopsConcat(a: seq<Call>, b: seq<Call>)
    requires StopsThenDestroys(a) && StopsThenDestroys(b)
    ensures StopsThenDestroys(a + b)
  {
    var calls := a + b;
    forall i, x | 0 <= i < |calls| && calls[i] == StopActor(x)
      ensures i + 1 < |calls| && calls[i + 1] == Destroy(x)
    {
      assert if i < |a| then a[i] == StopActor(x) else b[i - |a|] == StopActor(x);
    }
  }

  predicate IsReturned(c: Call) {
    c.StopController? || c.TrafficManagerOff? || c.AutopilotOff?
  }

  lemma {:induction false} ActorsStopFirst(a: Answers, owned: seq<Actor>)
    ensures StopsThenDestroys(ActorCalls(a, owned))
    decreases |owned|
  {
    if owned != [] {
      ActorsStopFirst(a, owned[..|owned| - 1]);
      var first, rest := ActorCall(a, owned[|owned| - 1]), ActorCalls(a, owned[..|owned| - 1]);
      var calls := first + rest;
      forall i, x | 0 <= i < |calls| && calls[i] == StopActor(x)
        ensures i + 1 < |calls| && calls[i + 1] == Destroy(x)
      {
        if i >= |first| {
          assert rest[i - |first|] == StopActor(x);
        }
      }
    }
  }

  /** The order of the cleanup: what `_spawn_actors` returned first, with the controller
      before the Traffic Manager and that before the autopilot; then the actors, each
      stopped before it is destroyed; and the settings last. */
  lemma CleanupOrder(b: Body, a: Answers)
    ensures var calls := CleanupCalls(b, a);
      && StopsThenDestroys(calls)
      && (forall i, j :: 0 <= i < |calls| && 0 <= j < |calls| && IsReturned(calls[i]) && !IsReturned(calls[j]) ==> i < j)
      && (forall i, j :: 0 <= i <= j < |calls| && calls[i] == AutopilotOff ==> calls[j] == AutopilotOff || !IsReturned(calls[j]))
      && (forall i, j :: 0 <= i <= j < |calls| && calls[i] == TrafficManagerOff ==> !calls[j].StopController?)
      && forall i :: 0 <= i < |calls| && calls[i] == Restore ==> i == |calls| - 1
  {
    var first, middle := ReceivedCalls(b), ActorCalls(a, b.owned);
    var last := if b.attempted then [Restore] else [];
    var calls := first + middle + last;
    ActorsStopFirst(a, b.owned);
    OnlyActorCalls(a, b.owned);
    assert forall c :: c in first ==> IsReturned(c);
    hide ActorCalls;
    StopsConcat(first, middle);
    StopsConcat(first + middle, last);
    assert CleanupCalls(b, a) == calls;
    hide StopsThenDestroys, CleanupCalls;
    assert forall c :: c in middle ==> !IsReturned(c) && c != Restore;
    assert forall c :: c in last ==> c == Restore;
    assert first == [] || first == [TrafficManagerOff, AutopilotOff]
      || (first[0].StopController? && first == [first[0], TrafficManagerOff, AutopilotOff]);
    hide IsReturned, ReceivedCalls;
    ThreeParts(first, middle, last);
  }

  /** Where each part of the cleanup stands. */
  lemma ThreeParts(first: seq<Call>, middle: seq<Call>, last: seq<Call>)
    requires first == [] || first == [TrafficManagerOff, AutopilotOff]
      || (first[0].StopController? && first == [first[0], TrafficManagerOff, AutopilotOff])
    requires forall c :: c in middle ==> !IsReturned(c) && c != Restore
    requires |last| <= 1 && forall c :: c in last ==> c == Restore
    ensures var calls := first + middle + last;
      && (forall i, j :: 0 <= i < |calls| && 0 <= j < |calls| && IsReturned(calls[i]) && !IsReturned(calls[j]) ==> i < j)
      && (forall i, j :: 0 <= i <= j < |calls| && calls[i] == AutopilotOff ==> calls[j] == AutopilotOff || !IsReturned(calls[j]))
      && (forall i, j :: 0 <= i <= j < |calls| && calls[i] == TrafficManagerOff ==> !calls[j].StopController?)
      && forall i :: 0 <= i < |calls| && calls[i] == Restore ==> i == |calls| - 1
  {
    var calls := first + middle + last;
    forall i | 0 <= i < |calls|
      ensures if i < |first| then calls[i] == first[i] && IsReturned(calls[i])
              else if i < |first| + |middle| then !IsReturned(calls[i]) && calls[i] != Restore
              else i == |calls| - 1 && calls[i] == Restore
    {
      if |first| <= i < |first| + |middle| {
        assert middle[i - |first|] in middle;
      } else if |first| + |middle| <= i {
        assert last[i - |first| - |middle|] in last;
      }
    }
  }

  function Passes(plan: seq<Op>): set<Check> {
    set i | 0 <= i < |plan| && plan[i].Pass? :: plan[i].check
  }

  predicate Names(plan: seq<Op>, checks: set<Check>) {
    forall i :: 0 <= i < |plan| && (plan[i].Enter? || plan[i].Pass?) ==> plan[i].check in checks
  }

  /** What is kept while a plan with these names runs. */
  predicate Outcome(b: Body, checks: set<Check>, passed: set<Check>) {
    && b.checks.Keys == checks && b.active in checks && b.active != Cleanup
    && (b.raised ==> b.checks[b.active] == Failed)
    && (!b.raised ==> forall c :: c in passed ==> c in checks && b.checks[c] == Passed)
  }

  lemma DoOutcome(b: Body, op: Op, fails: bool, checks: set<Check>, passed: set<Check>)
    requires Outcome(b, checks, passed)
    requires op.Enter? || op.Pass? ==> op.check in checks && op.check != Cleanup
    ensures Outcome(Do(b, op, fails), checks, passed + if op.Pass? then {op.check} else {})
  {
  }

  lemma LastPass(plan: seq<Op>)
    requires plan != []
    ensures var last := plan[|plan| - 1];
      Passes(plan) == Passes(plan[..|plan| - 1]) + if last.Pass? then {last.check} else {}
  {
    var front, last := plan[..|plan| - 1], plan[|plan| - 1];
    forall c | c in Passes(plan)
      ensures c in Passes(front) || last == Pass(c)
    {
      var i :| 0 <= i < |plan| && plan[i].Pass? && plan[i].check == c;
      assert i < |front| ==> front[i] == plan[i];
    }
    forall c | c in Passes(front)
      ensures c in Passes(plan)
    {
      var i :| 0 <= i < |front| && front[i].Pass? && front[i].check == c;
      assert plan[i] == front[i];
    }
    if last.Pass? {
      assert plan[|plan| - 1].Pass?;
    }
  }

  /** Running a plan: a completed one has passed its checks, one that raised has
      left its active check failed for good. */
  lemma {:induction false} ExecuteOutcome(b: Body, plan: seq<Op>, fails: Fails, checks: set<Check>)
    requires Outcome(b, checks, {}) && !b.raised
    requires Names(plan, checks - {Cleanup})
    ensures Outcome(Execute(b, plan, fails), checks, Passes(plan))
    decreases |plan|
  {
    hide Outcome, Do;
    if plan == [] {
      assert Passes(plan) == {};
    } else {
      var front, last := plan[..|plan| - 1], plan[|plan| - 1];
      assert Names(front, checks - {Cleanup});
      ExecuteOutcome(b, front, fails, checks);
      LastPass(plan);
      hide Passes;
      DoOutcome(Execute(b, front, fails), last, FailsAt(fails, |plan| - 1, last), checks, Passes(front));
    }
  }

  lemma {:induction false} TickNames(mode: Mode, n: nat)
    ensures Names(TickOps(mode, n), Required(mode) - {Cleanup})
    decreases n
  {
    if n > 0 {
      TickNames(mode, n - 1);
    }
  }

  /** Naming and passing checks, plan by plan. */
  lemma Joined(a: seq<Op>, b: seq<Op>, checks: set<Check>)
    ensures Passes(a) + Passes(b) <= Passes(a + b)
    ensures Names(a, checks) && Names(b, checks) ==> Names(a + b, checks)
  {
    forall c | c in Passes(a)
      ensures c in Passes(a + b)
    {
      var i :| 0 <= i < |a| && a[i].Pass? && a[i].check == c;
      assert (a + b)[i] == a[i];
    }
    forall c | c in Passes(b)
      ensures c in Passes(a + b)
    {
      var i :| 0 <= i < |b| && b[i].Pass? && b[i].check == c;
      assert (a + b)[|a| + i] == b[i];
    }
  }

  lemma Listed(plan: seq<Op>, i: nat)
    requires i < |plan| && plan[i].Pass?
    ensures plan[i].check in Passes(plan)
  {
  }

  lemma ProloguePasses()
    ensures Passes(Prologue()) >= {Environment, Provenance, Permission, Handshake, World, SyncSettings}
  {
    var p := Prologue();
    Listed(p, 2);
    Listed(p, 5);
    Listed(p, 8);
    Listed(p, 11);
    Listed(p, 14);
    Listed(p, 20);
    hide Passes;
  }

  lemma ModePasses(mode: Mode)
    ensures Passes(Setup(mode)) + Passes(Epilogue(mode)) >= {Ticks} + OwnChecks(mode)
  {
    var p, e := Setup(mode), Epilogue(mode);
    Listed(e, 0);
    if mode.SensorMode? {
      Listed(p, 8);
      Listed(e, 3);
      Listed(e, 4);
      Listed(e, 7);
    } else if mode.ActorMode? {
      Listed(p, 12);
      Listed(e, 4);
      Listed(e, 7);
    }
    hide Passes;
  }

  lemma PartsName(mode: Mode)
    ensures Names(Prologue(), Required(mode) - {Cleanup}) && Names(Setup(mode), Required(mode) - {Cleanup})
    ensures Names(Epilogue(mode), Required(mode) - {Cleanup}) && Names([ACT], Required(mode) - {Cleanup})
  {
  }

  /** The body names only required checks, and passes all of them but cleanup. */
  lemma PlanCovers(mode: Mode, ticks: nat)
    ensures Names(Plan(mode, ticks), Required(mode) - {Cleanup})
    ensures Passes(Plan(mode, ticks)) >= Required(mode) - {Cleanup}
  {
    var t, checks := TickOps(mode, Warmup(mode) + ticks), Required(mode) - {Cleanup};
    TickNames(mode, Warmup(mode) + ticks);
    ProloguePasses();
    ModePasses(mode);
    PartsName(mode);
    hide Passes, TickOps, Names, Prologue, Setup, Epilogue, Warmup;
    var a := Prologue() + Setup(mode);
    Joined(Prologue(), Setup(mode), checks);
    Joined(a, [ACT], checks);
    Joined(a + [ACT], t, checks);
    Joined(a + [ACT] + t, Epilogue(mode), checks);
  }

  lemma FinishPasses(b: Body, a: Answers, provenanceSame: bool, clientSame: bool, checks: set<Check>)
    requires Outcome(b, checks, checks - {Cleanup})
    requires Cleanup in checks && Provenance in checks && Handshake in checks
    ensures AllPassed(Finish(b, a, provenanceSame, clientSame)) <==>
      !b.raised && Failures(a, CleanupCalls(b, a)) == [] && provenanceSame && clientSame
  {
    hide Failures, CleanupCalls;
    var f := Finish(b, a, provenanceSame, clientSame);
    assert f[Cleanup] == if Failures(a, CleanupCalls(b, a)) == [] then Passed else Failed;
    assert !provenanceSame ==> f[Provenance] == Failed;
    assert !clientSame ==> f[Handshake] == Failed;
    assert b.raised ==> f[b.active] == Failed;
  }

  /** The overall status is PASS exactly when no step of the body raised, cleanup
      had no failure, and the rehashed files are unchanged. */
  lemma GatePasses(mode: Mode, ticks: nat, fails: Fails, a: Answers, provenanceSame: bool, clientSame: bool)
    ensures var b := Execute(Initial(mode), Plan(mode, ticks), fails);
      AllPassed(Finish(b, a, provenanceSame, clientSame)) <==>
        !b.raised && Failures(a, CleanupCalls(b, a)) == [] && provenanceSame && clientSame
  {
    hide Plan, Passes, Names, AllPassed, Finish, Execute, Failures, CleanupCalls;
    PlanCovers(mode, ticks);
    assert Initial(mode).checks.Keys == Required(mode);
    ExecuteOutcome(Initial(mode), Plan(mode, ticks), fails, Required(mode));
    FinishPasses(Execute(Initial(mode), Plan(mode, ticks), fails), a, provenanceSame, clientSame, Required(mode));
  }

  // ------------------------------------------------- the sensor gate

  function Sites(plan: seq<Op>): set<Site> {
    set i | 0 <= i < |plan| && plan[i].Try? :: plan[i].site
  }

  predicate NothingFails(plan: seq<Op>, fails: Fails) {
    forall i :: 0 <= i < |plan| ==> !FailsAt(fails, i, plan[i])
  }

  /** The body raises exactly when one of its steps does. */
  lemma {:induction false} RaisedExactly(b: Body, plan: seq<Op>, fails: Fails)
    requires !b.raised
    ensures Execute(b, plan, fails).raised <==> !NothingFails(plan, fails)
    decreases |plan|
  {
    if plan != [] {
      var last := |plan| - 1;
      RaisedExactly(b, plan[..last], fails);
      assert NothingFails(plan, fails) <==> NothingFails(plan[..last], fails) && !FailsAt(fails, last, plan[last]) by {
        assert forall i :: 0 <= i < last ==> plan[..last][i] == plan[i];
      }
    }
  }

  // ------------------------------------------- cleanup, by what was reached

  /** The run gets past the first `n` steps. */
  predicate Reached(plan: seq<Op>, fails: Fails, n: nat)
    requires n <= |plan|
  {
    forall j :: 0 <= j < n ==> !FailsAt(fails, j, plan[j])
  }

  /** The run comes to this step, whether or not it raises there. */
  predicate Entered(plan: seq<Op>, fails: Fails, site: Site) {
    exists i :: 0 <= i < |plan| && plan[i] == Try(site) && Reached(plan, fails, i)
  }

  /** The run gets past this step. */
  predicate Returned(plan: seq<Op>, fails: Fails, site: Site) {
    exists i :: 0 <= i < |plan| && plan[i] == Try(site) && !fails(i, site) && Reached(plan, fails, i)
  }

  predicate Marked(plan: seq<Op>, fails: Fails, op: Op) {
    exists i :: 0 <= i < |plan| && plan[i] == op && Reached(plan, fails, i)
  }

  lemma MarkedLast(plan: seq<Op>, fails: Fails, op: Op)
    requires plan != []
    ensures var last := |plan| - 1;
      Marked(plan, fails, op) <==>
        Marked(plan[..last], fails, op) || (plan[last] == op && NothingFails(plan[..last], fails))
  {
    hide FailsAt;
    var last := |plan| - 1;
    assert forall j :: 0 <= j < last ==> plan[..last][j] == plan[j];
    if Marked(plan[..last], fails, op) {
      var i :| 0 <= i < last && plan[..last][i] == op && Reached(plan[..last], fails, i);
      assert plan[i] == op && Reached(plan, fails, i);
    }
    if Marked(plan, fails, op) {
      var i :| 0 <= i < |plan| && plan[i] == op && Reached(plan, fails, i);
      assert i < last ==> Reached(plan[..last], fails, i);
    }
    if plan[last] == op && NothingFails(plan[..last], fails) {
      assert Reached(plan, fails, last);
    }
  }

  /** What the body has marked by the time it ends. */
  lemma {:induction false} Marks(b: Body, plan: seq<Op>, fails: Fails)
    requires !b.raised
    ensures var e := Execute(b, plan, fails);
      && (e.attempted <==> b.attempted || Marked(plan, fails, Attempt))
      && (e.received <==> b.received || Marked(plan, fails, Receive))
      && forall x :: x in e.owned <==> x in b.owned || Marked(plan, fails, Own(x))
    decreases |plan|
  {
    hide FailsAt;
    if plan != [] {
      var last := |plan| - 1;
      Marks(b, plan[..last], fails);
      RaisedExactly(b, plan[..last], fails);
      MarkedLast(plan, fails, Attempt);
      MarkedLast(plan, fails, Receive);
      forall x {
        MarkedLast(plan, fails, Own(x));
      }
      hide Marked, NothingFails;
    }
  }

  /** The status of a check when the body ends, by what the run reached: PASS exactly
      if the run came to its PASS and did not raise while it was active again. */
  lemma {:induction false} PassedExactly(b: Body, plan: seq<Op>, fails: Fails, c: Check)
    requires !b.raised && (c in b.checks ==> b.checks[c] != Passed)
    ensures var e := Execute(b, plan, fails);
      (c in e.checks && e.checks[c] == Passed) <==> Marked(plan, fails, Op.Pass(c)) && !(e.raised && e.active == c)
    decreases |plan|
  {
    hide FailsAt, Marked;
    if plan != [] {
      var last := |plan| - 1;
      PassedExactly(b, plan[..last], fails, c);
      RaisedExactly(b, plan[..last], fails);
      MarkedLast(plan, fails, Op.Pass(c));
      hide NothingFails;
    } else {
      assert !Marked(plan, fails, Op.Pass(c)) by { NothingMarked(fails, Op.Pass(c)); }
    }
  }

  lemma NothingMarked(fails: Fails, op: Op)
    ensures !Marked([], fails, op)
  {
  }

  /** The final status of each check: cleanup is PASS exactly without failures, and the
      others keep their PASS unless the files behind two of them have changed. */
  lemma FinishExactly(b: Body, a: Answers, provenanceSame: bool, clientSame: bool, c: Check)
    requires c in b.checks && Provenance in b.checks && Handshake in b.checks && Cleanup in b.checks
    ensures var f := Finish(b, a, provenanceSame, clientSame);
      && f.Keys == b.checks.Keys
      && (f[c] == Passed <==>
            && (if c == Cleanup then Failures(a, CleanupCalls(b, a)) == [] else b.checks[c] == Passed)
            && (c == Provenance ==> provenanceSame) && (c == Handshake ==> clientSame))
  {
    hide Failures, CleanupCalls;
  }

  /** Actors are owned in ascending order, and the last before the return is 2. */
  predicate OwnsAscend(plan: seq<Op>) {
    && (forall i, j :: 0 <= i < j < |plan| && plan[i].Own? && plan[j].Own? ==> plan[i].actor < plan[j].actor)
    && (forall i :: 0 <= i < |plan| && plan[i].Own? ==> plan[i].actor <= 2)
    && forall i :: 0 <= i < |plan| && plan[i] == Try(ReturnSite) ==> exists k :: 0 <= k < i && plan[k] == Own(2)
  }

  predicate OwnsNothing(plan: seq<Op>) {
    forall i :: 0 <= i < |plan| ==> !plan[i].Own? && plan[i] != Try(ReturnSite)
  }

  lemma {:induction false} TicksOwnNothing(mode: Mode, n: nat)
    ensures OwnsNothing(TickOps(mode, n))
    decreases n
  {
    if n > 0 {
      TicksOwnNothing(mode, n - 1);
    }
  }

  lemma PlanAscends(mode: Mode, ticks: nat)
    ensures OwnsAscend(Plan(mode, ticks))
  {
    var p, u, t, e := Prologue(), Setup(mode), TickOps(mode, Warmup(mode) + ticks), Epilogue(mode);
    assert Plan(mode, ticks) == p + u + ([ACT] + t + e);
    TicksOwnNothing(mode, Warmup(mode) + ticks);
    EndsOwnNothing(mode);
    SetupAscends(mode);
    NothingBetween(t, e);
    hide *;
    Surrounded(p, u, [ACT] + t + e);
  }

  lemma NothingBetween(t: seq<Op>, e: seq<Op>)
    requires OwnsNothing(t) && OwnsNothing(e)
    ensures OwnsNothing([ACT] + t + e)
  {
  }

  lemma EndsOwnNothing(mode: Mode)
    ensures OwnsNothing(Prologue()) && OwnsNothing(Epilogue(mode))
  {
  }

  lemma SetupAscends(mode: Mode)
    ensures OwnsAscend(Setup(mode))
  {
    if mode.ActorMode? {
      assert Setup(mode)[9] == Own(2);
    }
  }

  lemma Surrounded(a: seq<Op>, u: seq<Op>, b: seq<Op>)
    requires OwnsNothing(a) && OwnsAscend(u) && OwnsNothing(b)
    ensures OwnsAscend(a + u + b)
  {
    var c := a + u + b;
    assert forall i :: 0 <= i < |a| ==> c[i] == a[i];
    assert forall i :: |a| <= i < |a| + |u| ==> c[i] == u[i - |a|];
    assert forall i :: |a| + |u| <= i < |c| ==> c[i] == b[i - |a| - |u|];
    forall i | 0 <= i < |c| && c[i] == Try(ReturnSite)
      ensures exists k :: 0 <= k < i && c[k] == Own(2)
    {
      var k :| 0 <= k < i - |a| && u[k] == Own(2);
      assert c[|a| + k] == Own(2);
    }
  }

  /** Everything owned is owned by a step of the plan, in ascending order. */
  predicate OwnedBy(owned: seq<Actor>, plan: seq<Op>) {
    && (forall i, j :: 0 <= i < j < |owned| ==> owned[i] < owned[j])
    && forall x :: x in owned ==> exists i :: 0 <= i < |plan| && plan[i] == Own(x)
  }

  lemma OwnedMore(owned: seq<Actor>, plan: seq<Op>)
    requires plan != [] && OwnsAscend(plan) && OwnedBy(owned, plan[..|plan| - 1])
    ensures OwnedBy(owned, plan)
    ensures plan[|plan| - 1].Own? ==> OwnedBy(owned + [plan[|plan| - 1].actor], plan)
  {
    var last := |plan| - 1;
    forall x | x in owned
      ensures exists i :: 0 <= i < last && plan[i] == Own(x)
    {
      var i :| 0 <= i < last && plan[..last][i] == Own(x);
      assert plan[i] == Own(x);
    }
    if plan[last].Own? {
      forall x | x in owned
        ensures x < plan[last].actor
      {
        var i :| 0 <= i < last && plan[i] == Own(x);
        assert plan[i].actor < plan[last].actor;
      }
      var more := owned + [plan[last].actor];
      assert plan[last] == Own(plan[last].actor);
      assert forall i :: 0 <= i < |owned| ==> owned[i] in owned;
      forall i, j | 0 <= i < j < |more|
        ensures more[i] < more[j]
      {
        assert more[i] in owned;
      }
    }
  }

  lemma {:induction false} OwnedAscend(b: Body, plan: seq<Op>, fails: Fails)
    requires b.owned == [] && OwnsAscend(plan)
    ensures OwnedBy(Execute(b, plan, fails).owned, plan)
    decreases |plan|
  {
    if plan != [] {
      FrontAscends(plan);
      hide OwnsAscend, OwnedBy, FailsAt;
      OwnedAscend(b, plan[..|plan| - 1], fails);
      OwnedMore(Execute(b, plan[..|plan| - 1], fails).owned, plan);
    }
  }

  lemma FrontAscends(plan: seq<Op>)
    requires plan != [] && OwnsAscend(plan)
    ensures OwnsAscend(plan[..|plan| - 1])
  {
    var front := plan[..|plan| - 1];
    forall i | 0 <= i < |front| && front[i] == Try(ReturnSite)
      ensures exists k :: 0 <= k < i && front[k] == Own(2)
    {
      assert plan[i] == Try(ReturnSite);
      var k :| 0 <= k < i && plan[k] == Own(2);
      assert front[k] == Own(2);
    }
  }

  /** When `_spawn_actors` has returned, the last owned actor is the controller, 2. */
  lemma ControllerIsLast(mode: Mode, ticks: nat, fails: Fails)
    requires Returned(Plan(mode, ticks), fails, ReturnSite)
    ensures var owned := Execute(Initial(mode), Plan(mode, ticks), fails).owned;
      owned != [] && owned[|owned| - 1] == 2
  {
    hide Plan, FailsAt;
    var plan, b := Plan(mode, ticks), Initial(mode);
    PlanAscends(mode, ticks);
    var i :| 0 <= i < |plan| && plan[i] == Try(ReturnSite) && !fails(i, ReturnSite) && Reached(plan, fails, i);
    var k :| 0 <= k < i && plan[k] == Own(2);
    assert Reached(plan, fails, k);
    assert Marked(plan, fails, Own(2));
    Marks(b, plan, fails);
    OwnedAscend(b, plan, fails);
    var owned := Execute(b, plan, fails).owned;
    hide Execute;
    var last := owned[|owned| - 1];
    assert last in owned;
    var j :| 0 <= j < |plan| && plan[j] == Own(last);
    assert plan[j].actor <= 2;
    assert 2 in owned;
  }

  /** `mark` stands directly before the step `site`, and only there. */
  predicate JustBefore(plan: seq<Op>, mark: Op, site: Site) {
    && (forall i :: 0 <= i < |plan| && plan[i] == mark ==> i + 1 < |plan| && plan[i + 1] == Try(site))
    && forall i :: 0 <= i < |plan| && plan[i] == Try(site) ==> i > 0 && plan[i - 1] == mark
  }

  /** `mark` stands directly after the step `site`, and only there. */
  predicate JustAfter(plan: seq<Op>, mark: Op, site: Site) {
    && (forall i :: 0 <= i < |plan| && plan[i] == mark ==> i > 0 && plan[i - 1] == Try(site))
    && forall i :: 0 <= i < |plan| && plan[i] == Try(site) ==> i + 1 < |plan| && plan[i + 1] == mark
  }

  /** The settings flag is raised before they are applied; an actor is owned once
      spawned; the actors are received once `_spawn_actors` has returned. */
  ghost predicate Ordered(plan: seq<Op>) {
    && JustBefore(plan, Attempt, ApplySite)
    && JustAfter(plan, Receive, ReturnSite)
    && forall x: Actor :: JustAfter(plan, Own(x), SpawnSite(x))
  }

  lemma BeforeConcat(a: seq<Op>, b: seq<Op>, mark: Op, site: Site)
    requires JustBefore(a, mark, site) && JustBefore(b, mark, site)
    ensures JustBefore(a + b, mark, site)
  {
    var c := a + b;
    assert forall i :: 0 <= i < |a| ==> c[i] == a[i];
    assert forall i :: |a| <= i < |c| ==> c[i] == b[i - |a|];
  }

  lemma AfterConcat(a: seq<Op>, b: seq<Op>, mark: Op, site: Site)
    requires JustAfter(a, mark, site) && JustAfter(b, mark, site)
    ensures JustAfter(a + b, mark, site)
  {
    var c := a + b;
    assert forall i :: 0 <= i < |a| ==> c[i] == a[i];
    assert forall i :: |a| <= i < |c| ==> c[i] == b[i - |a|];
  }

  lemma OrderedConcat(a: seq<Op>, b: seq<Op>)
    requires Ordered(a) && Ordered(b)
    ensures Ordered(a + b)
  {
    hide JustBefore, JustAfter;
    BeforeConcat(a, b, Attempt, ApplySite);
    AfterConcat(a, b, Receive, ReturnSite);
    forall x: Actor
      ensures JustAfter(a + b, Own(x), SpawnSite(x))
    {
      AfterConcat(a, b, Own(x), SpawnSite(x));
    }
  }

  predicate PlainOp(op: Op) {
    match op
    case Attempt => false
    case Receive => false
    case Own(_) => false
    case Try(site) => !site.ApplySite? && !site.ReturnSite? && !site.SpawnSite?
    case _ => true
  }

  predicate Plain(plan: seq<Op>) {
    forall i :: 0 <= i < |plan| ==> PlainOp(plan[i])
  }

  lemma PlainIsOrdered(plan: seq<Op>)
    requires Plain(plan)
    ensures Ordered(plan)
  {
  }

  lemma {:induction false} TicksPlain(mode: Mode, n: nat)
    ensures Plain(TickOps(mode, n))
    decreases n
  {
    if n > 0 {
      TicksPlain(mode, n - 1);
    }
  }

  lemma PrologueOrdered()
    ensures Ordered(Prologue())
  {
    var p := Prologue();
    var a, b, c := p[..17], [Attempt, Try(ApplySite)], p[19..];
    assert Plain(a) && Plain(c);
    assert p == a + b + c;
    hide Prologue;
    PlainIsOrdered(a);
    PlainIsOrdered(c);
    assert Ordered(b);
    hide Ordered;
    OrderedConcat(a, b);
    OrderedConcat(a + b, c);
  }

  lemma FirstSpawnOrdered(check: Check)
    ensures Ordered([Enter(check), ACT, Try(SpawnSite(0)), Own(0)])
  {
  }

  lemma NextSpawnOrdered(x: Actor)
    ensures Ordered([ACT, Try(SpawnSite(x)), Own(x)])
  {
  }

  lemma EndsOrdered(check: Check)
    ensures Ordered([]) && Ordered([ACT]) && Ordered([ACT, Pass(check)]) && Ordered([Pass(check)])
  {
    assert Plain([]) && Plain([ACT]) && Plain([ACT, Pass(check)]) && Plain([Pass(check)]);
    hide *;
    PlainIsOrdered([]);
    PlainIsOrdered([ACT]);
    PlainIsOrdered([ACT, Pass(check)]);
    PlainIsOrdered([Pass(check)]);
  }

  lemma ReturnOrdered()
    ensures Ordered([Try(ReturnSite), Receive])
  {
  }

  lemma SensorSetupOrdered()
    ensures Ordered(Setup(SensorMode))
  {
    var a := [Enter(SensorSetup), ACT, Try(SpawnSite(0)), Own(0)];
    var b, c := [ACT, Try(SpawnSite(1)), Own(1)], [ACT, Pass(SensorSetup)];
    assert Setup(SensorMode) == a + b + c;
    hide *;
    FirstSpawnOrdered(SensorSetup);
    NextSpawnOrdered(1);
    EndsOrdered(SensorSetup);
    OrderedConcat(a, b);
    OrderedConcat(a + b, c);
  }

  lemma ActorSetupOrdered()
    ensures Ordered(Setup(ActorMode))
  {
    var a := [Enter(ActorSetup), ACT, Try(SpawnSite(0)), Own(0)];
    var b, c := [ACT, Try(SpawnSite(1)), Own(1)], [ACT, Try(SpawnSite(2)), Own(2)];
    var d, e := [Try(ReturnSite), Receive], [Pass(ActorSetup)];
    assert Setup(ActorMode) == a + b + c + d + e;
    hide *;
    FirstSpawnOrdered(ActorSetup);
    NextSpawnOrdered(1);
    NextSpawnOrdered(2);
    EndsOrdered(ActorSetup);
    ReturnOrdered();
    OrderedConcat(a, b);
    OrderedConcat(a + b, c);
    OrderedConcat(a + b + c, d);
    OrderedConcat(a + b + c + d, e);
  }

  lemma PartsOrdered(mode: Mode, n: nat)
    ensures Ordered(Setup(mode)) && Ordered(TickOps(mode, n)) && Ordered(Epilogue(mode)) && Ordered([ACT])
  {
    TicksPlain(mode, n);
    assert Plain(Epilogue(mode));
    assert mode.Rpc? ==> Setup(mode) == [];
    hide *;
    PlainIsOrdered(TickOps(mode, n));
    PlainIsOrdered(Epilogue(mode));
    EndsOrdered(Ticks);
    SensorSetupOrdered();
    ActorSetupOrdered();
  }

  lemma PlanOrdered(mode: Mode, ticks: nat)
    ensures Ordered(Plan(mode, ticks))
  {
    var n := Warmup(mode) + ticks;
    var a, b, t, e := Prologue(), Setup(mode), TickOps(mode, n), Epilogue(mode);
    assert Plan(mode, ticks) == a + b + [ACT] + t + e;
    hide *;
    PrologueOrdered();
    PartsOrdered(mode, n);
    OrderedConcat(a, b);
    OrderedConcat(a + b, [ACT]);
    OrderedConcat(a + b + [ACT], t);
    OrderedConcat(a + b + [ACT] + t, e);
  }

  lemma BeforeIsEntered(plan: seq<Op>, fails: Fails, mark: Op, site: Site)
    requires JustBefore(plan, mark, site) && !mark.Try?
    ensures Marked(plan, fails, mark) <==> Entered(plan, fails, site)
  {
    if Marked(plan, fails, mark) {
      var i :| 0 <= i < |plan| && plan[i] == mark && Reached(plan, fails, i);
      assert Reached(plan, fails, i + 1);
    }
    if Entered(plan, fails, site) {
      var i :| 0 <= i < |plan| && plan[i] == Try(site) && Reached(plan, fails, i);
      assert Reached(plan, fails, i - 1);
    }
  }

  lemma AfterIsReturned(plan: seq<Op>, fails: Fails, mark: Op, site: Site)
    requires JustAfter(plan, mark, site)
    ensures Marked(plan, fails, mark) <==> Returned(plan, fails, site)
  {
    if Marked(plan, fails, mark) {
      var i :| 0 <= i < |plan| && plan[i] == mark && Reached(plan, fails, i);
      assert Reached(plan, fails, i - 1) && !FailsAt(fails, i - 1, plan[i - 1]);
    }
    if Returned(plan, fails, site) {
      var i :| 0 <= i < |plan| && plan[i] == Try(site) && !fails(i, site) && Reached(plan, fails, i);
      assert Reached(plan, fails, i + 1);
    }
  }

  lemma CallsListed(b: Body, a: Answers)
    ensures forall x :: Destroy(x) in CleanupCalls(b, a) <==> x in b.owned
    ensures forall x :: StopActor(x) in CleanupCalls(b, a) <==> x in b.owned && a.listening(x)
    ensures TrafficManagerOff in CleanupCalls(b, a) <==> b.received
    ensures AutopilotOff in CleanupCalls(b, a) <==> b.received
    ensures forall x :: StopController(x) in CleanupCalls(b, a) <==>
      b.received && b.owned != [] && x == b.owned[|b.owned| - 1]
  {
    var last: seq<Call> := if b.attempted then [Restore] else [];
    var calls := ReceivedCalls(b) + ActorCalls(a, b.owned) + last;
    assert CleanupCalls(b, a) == calls;
    assert forall c :: c in last ==> c == Restore;
    hide CleanupCalls, ActorCalls, ReceivedCalls;
    OnlyActorCalls(a, b.owned);
    ReceivedListed(b);
    assert forall c :: c in calls <==> c in ReceivedCalls(b) || c in ActorCalls(a, b.owned) || c in last;
    forall x
      ensures Destroy(x) in calls <==> x in b.owned
    {
      OwnedIsDestroyed(b, a, x);
    }
  }

  lemma ReceivedListed(b: Body)
    ensures forall c :: c in ReceivedCalls(b) <==>
      && b.received
      && match c
         case StopController(x) => b.owned != [] && x == b.owned[|b.owned| - 1]
         case TrafficManagerOff => true
         case AutopilotOff => true
         case _ => false
  {
  }

  lemma OwnedIsDestroyed(b: Body, a: Answers, x: Actor)
    ensures Destroy(x) in CleanupCalls(b, a) <==> x in b.owned
  {
    hide CleanupCalls;
    CleanupIsComplete(b, a);
    ReversedHasSame(b.owned, x);
    DestroyListed(CleanupCalls(b, a), x);
  }

  lemma {:induction false} OnlyActorCalls(a: Answers, owned: seq<Actor>)
    ensures forall c :: c in ActorCalls(a, owned) ==> c.StopActor? || c.Destroy?
    ensures forall x :: StopActor(x) in ActorCalls(a, owned) <==> x in owned && a.listening(x)
    decreases |owned|
  {
    if owned != [] {
      OnlyActorCalls(a, owned[..|owned| - 1]);
      assert owned == owned[..|owned| - 1] + [owned[|owned| - 1]];
    }
  }

  /** Cleanup in terms of the run, wherever it raises: the settings are restored
      exactly if the run came to applying them, also if that very step raises; an
      actor is destroyed exactly if its spawn returned; the controller, the Traffic
      Manager and the autopilot are stopped exactly if `_spawn_actors` returned. */
  lemma CleanupFollowsTheRun(mode: Mode, ticks: nat, fails: Fails, a: Answers)
    ensures var plan, calls := Plan(mode, ticks), CleanupCalls(Execute(Initial(mode), Plan(mode, ticks), fails), a);
      && (Restore in calls <==> Entered(plan, fails, ApplySite))
      && (forall x :: Destroy(x) in calls <==> Returned(plan, fails, SpawnSite(x)))
      && (forall x :: StopActor(x) in calls <==> Returned(plan, fails, SpawnSite(x)) && a.listening(x))
      && (TrafficManagerOff in calls <==> Returned(plan, fails, ReturnSite))
      && (AutopilotOff in calls <==> Returned(plan, fails, ReturnSite))
      && forall x :: StopController(x) in calls <==> Returned(plan, fails, ReturnSite) && x == 2
  {
    hide Plan, Execute, CleanupCalls, Reached, Entered, Returned, Marked, JustBefore, JustAfter;
    var plan, b := Plan(mode, ticks), Execute(Initial(mode), Plan(mode, ticks), fails);
    PlanOrdered(mode, ticks);
    Marks(Initial(mode), plan, fails);
    BeforeIsEntered(plan, fails, Attempt, ApplySite);
    AfterIsReturned(plan, fails, Receive, ReturnSite);
    forall x: Actor {
      AfterIsReturned(plan, fails, Own(x), SpawnSite(x));
    }
    CallsListed(b, a);
    CleanupIsComplete(b, a);
    if Returned(plan, fails, ReturnSite) {
      ControllerIsLast(mode, ticks, fails);
    }
  }

  // --------------------------------------------- which check is blamed

  /** The check a named step belongs to. */
  function CheckOf(mode: Mode, site: Site): Check
    requires site != Other
  {
    match site
    case ApplySite => SyncSettings
    case SpawnSite(_) => if mode.SensorMode? then SensorSetup else ActorSetup
    case ReturnSite => ActorSetup
    case TickSite(_) => Ticks
    case AlignSite(_) => Alignment
    case OverflowSite => Alignment
    case ImageSite(_) => Camera
    case ChangeSite => Camera
    case PointsSite(_) => Lidar
  }

  /** `c` is the check entered last before step `i`. */
  predicate Under(plan: seq<Op>, i: nat, c: Check)
    requires i <= |plan|
  {
    exists k :: 0 <= k < i && plan[k] == Enter(c) && forall j :: k < j < i ==> !plan[j].Enter?
  }

  /** Every named step stands under its check, entered in the same part of the plan. */
  predicate Blames(mode: Mode, plan: seq<Op>) {
    forall i :: 0 <= i < |plan| && plan[i].Try? && plan[i].site != Other ==> Under(plan, i, CheckOf(mode, plan[i].site))
  }

  lemma UnderConcat(a: seq<Op>, b: seq<Op>, i: nat, c: Check)
    requires i <= |a|
    ensures Under(a, i, c) ==> Under(a + b, i, c)
  {
    if Under(a, i, c) {
      var k :| 0 <= k < i && a[k] == Enter(c) && forall j :: k < j < i ==> !a[j].Enter?;
      assert (a + b)[k] == Enter(c);
    }
  }

  lemma UnderShift(a: seq<Op>, b: seq<Op>, i: nat, c: Check)
    requires i <= |b|
    ensures Under(b, i, c) ==> Under(a + b, |a| + i, c)
  {
    if Under(b, i, c) {
      var k :| 0 <= k < i && b[k] == Enter(c) && forall j :: k < j < i ==> !b[j].Enter?;
      assert (a + b)[|a| + k] == Enter(c);
      assert forall j :: |a| + k < j < |a| + i ==> (a + b)[j] == b[j - |a|];
    }
  }

  lemma BlamesConcat(mode: Mode, a: seq<Op>, b: seq<Op>)
    requires Blames(mode, a) && Blames(mode, b)
    ensures Blames(mode, a + b)
  {
    hide Under, CheckOf;
    var c := a + b;
    forall i | 0 <= i < |c| && c[i].Try? && c[i].site != Other
      ensures Under(c, i, CheckOf(mode, c[i].site))
    {
      if i < |a| {
        UnderConcat(a, b, i, CheckOf(mode, c[i].site));
      } else {
        UnderShift(a, b, i - |a|, CheckOf(mode, c[i].site));
      }
    }
  }

  lemma UnderAt(plan: seq<Op>, k: nat, i: nat)
    requires k < i <= |plan| && plan[k].Enter? && forall j :: k < j < i ==> !plan[j].Enter?
    ensures Under(plan, i, plan[k].check)
  {
  }

  lemma PrologueBlames(mode: Mode)
    ensures Blames(mode, Prologue())
  {
    UnderAt(Prologue(), 15, 18);
    hide Under;
  }

  lemma SensorSetupBlames()
    ensures Blames(SensorMode, Setup(SensorMode))
  {
    var p := Setup(SensorMode);
    UnderAt(p, 0, 2);
    UnderAt(p, 0, 5);
    hide Under;
  }

  lemma ActorSetupBlames()
    ensures Blames(ActorMode, Setup(ActorMode))
  {
    var p := Setup(ActorMode);
    UnderAt(p, 0, 2);
    UnderAt(p, 0, 5);
    UnderAt(p, 0, 8);
    UnderAt(p, 0, 10);
    hide Under;
  }

  lemma SetupBlames(mode: Mode)
    ensures Blames(mode, Setup(mode))
  {
    SensorSetupBlames();
    ActorSetupBlames();
    hide Under;
  }

  lemma EpilogueBlames(mode: Mode)
    ensures Blames(mode, Epilogue(mode)) && Blames(mode, [ACT])
  {
    if mode.SensorMode? {
      UnderAt(Epilogue(mode), 1, 2);
      UnderAt(Epilogue(mode), 5, 6);
    }
    hide Under;
  }

  lemma OneTickBlames(mode: Mode, n: nat)
    ensures Blames(mode, [Enter(Ticks), Try(TickSite(n))]) && Blames(mode, MeasureOps(mode, n))
  {
    UnderAt([Enter(Ticks), Try(TickSite(n))], 0, 1);
    if mode.SensorMode? && n > Q.WARMUP {
      UnderAt(MeasureOps(mode, n), 0, 1);
      UnderAt(MeasureOps(mode, n), 2, 3);
      UnderAt(MeasureOps(mode, n), 4, 5);
    }
    hide Under;
  }

  lemma {:induction false} TicksBlame(mode: Mode, n: nat)
    ensures Blames(mode, TickOps(mode, n))
    decreases n
  {
    if n > 0 {
      hide Blames, MeasureOps;
      TicksBlame(mode, n - 1);
      OneTickBlames(mode, n);
      BlamesConcat(mode, TickOps(mode, n - 1), [Enter(Ticks), Try(TickSite(n))]);
      BlamesConcat(mode, TickOps(mode, n - 1) + [Enter(Ticks), Try(TickSite(n))], MeasureOps(mode, n));
    }
  }

  lemma PlanBlames(mode: Mode, ticks: nat)
    ensures Blames(mode, Plan(mode, ticks))
  {
    var n := Warmup(mode) + ticks;
    var a, b, t, e := Prologue(), Setup(mode), TickOps(mode, n), Epilogue(mode);
    assert Plan(mode, ticks) == a + b + [ACT] + t + e;
    hide *;
    PrologueBlames(mode);
    SetupBlames(mode);
    TicksBlame(mode, n);
    EpilogueBlames(mode);
    BlamesConcat(mode, a, b);
    BlamesConcat(mode, a + b, [ACT]);
    BlamesConcat(mode, a + b + [ACT], t);
    BlamesConcat(mode, a + b + [ACT] + t, e);
  }

  lemma {:induction false} ActiveIs(b: Body, plan: seq<Op>, fails: Fails, i: nat, k: nat)
    requires !b.raised && k < i <= |plan| && Reached(plan, fails, i)
    requires plan[k].Enter? && forall j :: k < j < i ==> !plan[j].Enter?
    ensures !Execute(b, plan[..i], fails).raised && Execute(b, plan[..i], fails).active == plan[k].check
    decreases i
  {
    hide FailsAt;
    var last := i - 1;
    assert plan[..i][..last] == plan[..last] && plan[..i][last] == plan[last];
    RaisedExactly(b, plan[..i], fails);
    RaisedExactly(b, plan[..last], fails);
    assert NothingFails(plan[..i], fails) && NothingFails(plan[..last], fails);
    if k < last {
      ActiveIs(b, plan, fails, last, k);
    }
  }

  lemma {:induction false} RaisedStays(b: Body, plan: seq<Op>, fails: Fails, i: nat)
    requires i <= |plan| && Execute(b, plan[..i], fails).raised
    ensures Execute(b, plan, fails) == Execute(b, plan[..i], fails)
    decreases |plan|
  {
    hide FailsAt;
    if i < |plan| {
      var last := |plan| - 1;
      assert plan[..last][..i] == plan[..i];
      RaisedStays(b, plan[..last], fails, i);
    } else {
      assert plan[..i] == plan;
    }
  }

  /** A step that raises fails its own check: the settings, the setup, the ticks, the
      alignment, the camera or the LiDAR. */
  lemma RaiseFailsItsCheck(mode: Mode, ticks: nat, fails: Fails, i: nat)
    requires var plan := Plan(mode, ticks);
      i < |plan| && plan[i].Try? && plan[i].site != Other && fails(i, plan[i].site) && Reached(plan, fails, i)
    ensures var b := Execute(Initial(mode), Plan(mode, ticks), fails);
      b.raised && b.active == CheckOf(mode, Plan(mode, ticks)[i].site)
      && b.active in b.checks && b.checks[b.active] == Failed
  {
    hide Plan, CheckOf, Reached;
    var plan, b := Plan(mode, ticks), Initial(mode);
    PlanBlames(mode, ticks);
    var k :| 0 <= k < i && plan[k] == Enter(CheckOf(mode, plan[i].site)) && forall j :: k < j < i ==> !plan[j].Enter?;
    ActiveIs(b, plan, fails, i, k);
    assert plan[..i + 1][..i] == plan[..i] && plan[..i + 1][i] == plan[i];
    RaisedStays(b, plan, fails, i + 1);
  }

  /** The actors a mode spawns. */
  function Actors(mode: Mode): nat {
    match mode
    case Rpc => 0
    case SensorMode => 2
    case ActorMode => 3
  }

  /** Every mode applies the settings and spawns its actors. */
  lemma PlanActs(mode: Mode, ticks: nat)
    ensures ApplySite in Sites(Plan(mode, ticks))
    ensures forall x :: 0 <= x < Actors(mode) ==> SpawnSite(x) in Sites(Plan(mode, ticks))
    ensures mode.ActorMode? ==> ReturnSite in Sites(Plan(mode, ticks))
  {
    var p, u, t, e := Prologue(), Setup(mode), TickOps(mode, Warmup(mode) + ticks), Epilogue(mode);
    assert Plan(mode, ticks) == p + u + [ACT] + t + e;
    PartsAct(mode);
    hide Sites, Plan, Prologue, Setup, TickOps, Epilogue, Warmup;
    SitesConcat(p, u);
    SitesConcat(p + u, [ACT]);
    SitesConcat(p + u + [ACT], t);
    SitesConcat(p + u + [ACT] + t, e);
  }

  lemma SiteAt(plan: seq<Op>, i: nat)
    requires i < |plan| && plan[i].Try?
    ensures plan[i].site in Sites(plan)
  {
  }

  lemma PartsAct(mode: Mode)
    ensures ApplySite in Sites(Prologue())
    ensures forall x :: 0 <= x < Actors(mode) ==> SpawnSite(x) in Sites(Setup(mode))
    ensures mode.ActorMode? ==> ReturnSite in Sites(Setup(mode))
  {
    hide Sites;
    SiteAt(Prologue(), 18);
    if mode.SensorMode? {
      SiteAt(Setup(mode), 2);
      SiteAt(Setup(mode), 5);
    }
    if mode.ActorMode? {
      SiteAt(Setup(mode), 2);
      SiteAt(Setup(mode), 5);
      SiteAt(Setup(mode), 8);
      SiteAt(Setup(mode), 10);
    }
  }

  /** Where the sensor data of a run make its body raise. */
  predicate SensorRaises(baseline: WorldTime, ticks: seq<Tick>, site: Site) {
    match site
    case TickSite(n) =>
      1 <= n <= |ticks| && SensorTicks(baseline, ticks, n - 1).Some?
      && TickRaises(SensorTicks(baseline, ticks, n - 1).value, ticks[n - 1])
    case AlignSite(n) =>
      Measured(baseline, ticks, n) && AlignRaises(SensorTicks(baseline, ticks, n - 1).value, ticks[n - 1])
    case ImageSite(n) => Measured(baseline, ticks, n) && ticks[n - 1].image.None?
    case PointsSite(n) => Measured(baseline, ticks, n) && !ticks[n - 1].points
    case OverflowSite =>
      SensorTicks(baseline, ticks, |ticks|).Some? && Overflowed(SensorTicks(baseline, ticks, |ticks|).value)
    case ChangeSite =>
      SensorTicks(baseline, ticks, |ticks|).Some? && |SensorTicks(baseline, ticks, |ticks|).value.images| < 2
    case _ => false
  }

  /** Tick `n` is measured, and the run gets past its snapshot. */
  predicate Measured(baseline: WorldTime, ticks: seq<Tick>, n: nat) {
    && Q.WARMUP < n <= |ticks| && SensorTicks(baseline, ticks, n - 1).Some?
    && !TickRaises(SensorTicks(baseline, ticks, n - 1).value, ticks[n - 1])
  }

  lemma SitesConcat(a: seq<Op>, b: seq<Op>)
    ensures Sites(a + b) == Sites(a) + Sites(b)
  {
    forall site
      ensures site in Sites(a + b) <==> site in Sites(a) || site in Sites(b)
    {
      if site in Sites(a) {
        var i :| 0 <= i < |a| && a[i].Try? && a[i].site == site;
        assert (a + b)[i] == a[i];
      }
      if site in Sites(b) {
        var i :| 0 <= i < |b| && b[i].Try? && b[i].site == site;
        assert (a + b)[|a| + i] == b[i];
      }
    }
  }

  /** The sites of one tick of the sensor mode. */
  function SitesOfTick(n: nat): set<Site> {
    {TickSite(n)} + if n > Q.WARMUP then {AlignSite(n), ImageSite(n), PointsSite(n)} else {}
  }

  lemma OneTickSites(n: nat)
    ensures Sites([Enter(Ticks), Try(TickSite(n))]) + Sites(MeasureOps(SensorMode, n)) >= SitesOfTick(n)
  {
    var a, b := [Enter(Ticks), Try(TickSite(n))], MeasureOps(SensorMode, n);
    assert a[1].site in Sites(a);
    if n > Q.WARMUP {
      assert b[1].site in Sites(b) && b[3].site in Sites(b) && b[5].site in Sites(b);
    }
  }

  lemma {:induction false} TickSites(m: nat, n: nat)
    requires 1 <= m <= n
    ensures SitesOfTick(m) <= Sites(TickOps(SensorMode, n))
    decreases n
  {
    hide Sites, MeasureOps, SitesOfTick;
    var before := TickOps(SensorMode, n - 1);
    var tick := [Enter(Ticks), Try(TickSite(n))];
    SitesConcat(before, tick);
    SitesConcat(before + tick, MeasureOps(SensorMode, n));
    if m < n {
      TickSites(m, n - 1);
    } else {
      OneTickSites(n);
    }
  }

  lemma PlanSites(requested: nat)
    ensures forall n :: 1 <= n <= 10 + requested ==> SitesOfTick(n) <= Sites(Plan(SensorMode, requested))
    ensures {OverflowSite, ChangeSite} <= Sites(Plan(SensorMode, requested))
  {
    var all := Q.WARMUP + requested;
    var t, e := TickOps(SensorMode, all), Epilogue(SensorMode);
    assert e[2].site in Sites(e) && e[6].site in Sites(e);
    hide Sites, TickOps, Epilogue, Prologue, Setup, SitesOfTick;
    var head := Prologue() + Setup(SensorMode) + [ACT];
    SitesConcat(head, t);
    SitesConcat(head + t, e);
    assert Plan(SensorMode, requested) == head + t + e;
    forall n | 1 <= n <= all
      ensures SitesOfTick(n) <= Sites(Plan(SensorMode, requested))
    {
      TickSites(n, all);
    }
  }

  /** The tick loop completes exactly when the sensor data raise at no site. */
  lemma {:induction false} TicksComplete(baseline: WorldTime, ticks: seq<Tick>, n: nat)
    requires n <= |ticks|
    requires forall m, site :: 1 <= m <= n && site in SitesOfTick(m) ==> !SensorRaises(baseline, ticks, site)
    ensures SensorTicks(baseline, ticks, n).Some?
    decreases n
  {
    hide TickRaises, AlignRaises, ValidateSnapshot, CameraFrame, LidarFrame;
    if n > 0 {
      TicksComplete(baseline, ticks, n - 1);
      assert TickSite(n) in SitesOfTick(n);
      assert !SensorRaises(baseline, ticks, TickSite(n));
      if n > Q.WARMUP {
        assert AlignSite(n) in SitesOfTick(n) && ImageSite(n) in SitesOfTick(n) && PointsSite(n) in SitesOfTick(n);
        assert !SensorRaises(baseline, ticks, AlignSite(n));
        assert !SensorRaises(baseline, ticks, ImageSite(n)) && !SensorRaises(baseline, ticks, PointsSite(n));
      }
    }
  }

  lemma CompleteRaisesNowhere(baseline: WorldTime, ticks: seq<Tick>, site: Site)
    requires SensorRun(baseline, ticks).Some?
    ensures !SensorRaises(baseline, ticks, site)
  {
    hide TickRaises, AlignRaises, ValidateSnapshot, CameraFrame, LidarFrame;
    if (site.TickSite? || site.AlignSite? || site.ImageSite? || site.PointsSite?) && 1 <= site.n <= |ticks| {
      if SensorTicks(baseline, ticks, site.n).None? {
        FailedTicksStay(baseline, ticks, site.n, |ticks|);
      }
    }
  }

  function SensorFails(baseline: WorldTime, ticks: seq<Tick>, other: Fails): Fails {
    (i: nat, site: Site) => SensorRaises(baseline, ticks, site) || other(i, site)
  }

  /** The body of the sensor gate goes through exactly when the tick loop completes
      on its data and nothing else it does raises. */
  lemma SensorBody(baseline: WorldTime, ticks: seq<Tick>, requested: nat, other: Fails)
    requires |ticks| == 10 + requested
    ensures var plan := Plan(SensorMode, requested);
      !Execute(Initial(SensorMode), plan, SensorFails(baseline, ticks, other)).raised <==>
        SensorRun(baseline, ticks).Some? && NothingFails(plan, other)
  {
    hide Plan, Execute, SensorRaises, SensorRun, SensorTicks, SitesOfTick;
    var plan, fails := Plan(SensorMode, requested), SensorFails(baseline, ticks, other);
    RaisedExactly(Initial(SensorMode), plan, fails);
    if SensorRun(baseline, ticks).Some? {
      forall site {
        CompleteRaisesNowhere(baseline, ticks, site);
      }
    }
    if NothingFails(plan, fails) {
      forall site | site in Sites(plan)
        ensures !SensorRaises(baseline, ticks, site)
      {
        var i :| 0 <= i < |plan| && plan[i].Try? && plan[i].site == site;
        assert !FailsAt(fails, i, plan[i]);
      }
      PlanSites(requested);
      hide Sites;
      TicksComplete(baseline, ticks, |ticks|);
      LastChecks(baseline, ticks);
      forall i | 0 <= i < |plan|
        ensures !FailsAt(other, i, plan[i])
      {
        assert !FailsAt(fails, i, plan[i]);
      }
    }
  }

  lemma LastChecks(baseline: WorldTime, ticks: seq<Tick>)
    requires SensorTicks(baseline, ticks, |ticks|).Some?
    requires !SensorRaises(baseline, ticks, OverflowSite) && !SensorRaises(baseline, ticks, ChangeSite)
    ensures SensorRun(baseline, ticks).Some?
  {
    hide SensorTicks;
  }

  /** A sensor gate with all checks PASS has one sample for each requested tick, of
      exactly the consecutive frames after warm-up, camera and LiDAR of that frame. */
  lemma SensorsPassIsAligned(baseline: WorldTime, ticks: seq<Tick>, requested: nat, other: Fails, a: Answers,
                             provenanceSame: bool, clientSame: bool)
    requires |ticks| == 10 + requested
    requires var b := Execute(Initial(SensorMode), Plan(SensorMode, requested), SensorFails(baseline, ticks, other));
      AllPassed(Finish(b, a, provenanceSame, clientSame))
    ensures SensorRun(baseline, ticks).Some?
    ensures var samples := SensorRun(baseline, ticks).value;
      |samples| == requested && forall i :: 0 <= i < requested ==> SampleOf(samples[i], baseline, i)
  {
    hide Plan, Execute, SensorFails, SensorRun, AllPassed, Finish, SampleOf, Initial;
    GatePasses(SensorMode, requested, SensorFails(baseline, ticks, other), a, provenanceSame, clientSame);
    SensorBody(baseline, ticks, requested, other);
    SamplesAreAligned(baseline, ticks);
  }

  /** The report `run_gate` returns: its exit code is zero only for all checks
      PASS, so a report that records no content error means just that. */
  lemma PassReport(w: StageReport.World, files: StageReport.Files, cwd: string, r: StageReport.Request, path: string,
                   checks: map<Check, Status>)
    requires r.exitCode == StageReport.Int(if AllPassed(checks) then 0 else 1)
    requires StageReport.ContentOk(w, files, StageReport.Draft(w, files, cwd, r, path),
                                   StageReport.Link(path, r.id, r.scope, None), [path])
    ensures AllPassed(checks)
  {
    var c, link := StageReport.Draft(w, files, cwd, r, path), StageReport.Link(path, r.id, r.scope, None);
    StageReport.ContentParts(w, files, c, link, [path]);
    hide StageReport.ContentOk, StageReport.RecordsAccepted, AllPassed;
  }

  /** So a sensors PASS is evidence of aligned samples. */
  lemma SensorReportIsAligned(w: StageReport.World, files: StageReport.Files, cwd: string, r: StageReport.Request,
                              path: string, baseline: WorldTime, ticks: seq<Tick>, requested: nat, other: Fails,
                              a: Answers, provenanceSame: bool, clientSame: bool)
    requires |ticks| == 10 + requested
    requires var b := Execute(Initial(SensorMode), Plan(SensorMode, requested), SensorFails(baseline, ticks, other));
      r.exitCode == StageReport.Int(if AllPassed(Finish(b, a, provenanceSame, clientSame)) then 0 else 1)
    requires StageReport.ContentOk(w, files, StageReport.Draft(w, files, cwd, r, path),
                                   StageReport.Link(path, r.id, r.scope, None), [path])
    ensures SensorRun(baseline, ticks).Some?
    ensures var samples := SensorRun(baseline, ticks).value;
      |samples| == requested && forall i :: 0 <= i < requested ==> SampleOf(samples[i], baseline, i)
  {
    hide Plan, Execute, SensorFails, SensorRun, AllPassed, Finish, SampleOf, Initial, StageReport.ContentOk;
    var b := Execute(Initial(SensorMode), Plan(SensorMode, requested), SensorFails(baseline, ticks, other));
    PassReport(w, files, cwd, r, path, Finish(b, a, provenanceSame, clientSame));
    SensorsPassIsAligned(baseline, ticks, requested, other, a, provenanceSame, clientSame);
  }
}
