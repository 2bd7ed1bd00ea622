/** analyze_vulkan_cache_lifecycle.py: replays the enter and return events of
    many threads, tracking which caches and objects live, which object handles
    are queued, which calls are open and which uses of one cache overlap. */
module CacheLifecycle {
  import opened Wrappers

  type Handle = string
  type Thread = string

  const NULL_HANDLE: Handle := "0x0"

  datatype Kind = Module | Layout | Pass | Descriptor

  datatype Operation =
    | Create | Destroy | Merge | GetData | Graphics | Compute
    | ObjectCreate(kind: Kind) | ObjectEnqueue(kind: Kind) | ObjectDestroy(kind: Kind)

  datatype Phase = Enter | Return

  datatype Event = Event(
    operation: Operation, phase: Phase, thread: Thread, cache: Handle, other: Handle, result: int)

  predicate IsUse(o: Operation) {
    o.Graphics? || o.Compute? || o.GetData? || o.Merge?
  }

  // ------------------------------------------------- the analyzer's state

  datatype Call = Call(sequence: nat, operation: Operation, thread: Thread, cache: Handle, submitted: Handle)

  datatype Reason =
    | UnobservedEnqueue | UnobservedCache | UnobservedSource | DestroyDuringUse
    | DuplicateCreate | DuplicateObjectCreate | UnobservedObjectDestroy

  datatype Anomaly = Anomaly(sequence: nat, reason: Reason, handle: Handle)
  datatype Overlap = Overlap(sequence: nat, cache: Handle, operation: Operation, concurrent: set<Operation>)

  /** `pending` keeps the insertion order of the source's dictionary. */
  datatype State = State(
    pending: seq<Call>, live: set<Handle>, objects: set<(Kind, Handle)>, queued: set<(Kind, Handle)>,
    overlaps: seq<Overlap>, invalid: seq<Anomaly>, created: nat)

  const START := State([], {}, {}, {}, [], [], 0)

  /** Position of the open call of a thread and operation, or |p|. */
  function Find(p: seq<Call>, thread: Thread, o: Operation): (k: nat)
    ensures k <= |p|
    ensures k < |p| ==> p[k].thread == thread && p[k].operation == o
    ensures forall j :: 0 <= j < k ==> !(p[j].thread == thread && p[j].operation == o)
  {
    if p == [] then 0
    else if p[0].thread == thread && p[0].operation == o then 0
    else 1 + Find(p[1..], thread, o)
  }

  function Remove<T>(s: seq<T>, k: nat): seq<T>
    requires k < |s|
  {
    s[..k] + s[k + 1..]
  }

  function OpenUses(p: seq<Call>, cache: Handle): set<Operation> {
    set k | 0 <= k < |p| && IsUse(p[k].operation) && p[k].cache == cache :: p[k].operation
  }

  function Flag(invalid: seq<Anomaly>, bad: bool, sequence: nat, reason: Reason, handle: Handle): seq<Anomaly> {
    if bad then invalid + [Anomaly(sequence, reason, handle)] else invalid
  }

  function CallOf(sequence: nat, e: Event, submits: bool): Call {
    Call(sequence, e.operation, e.thread, e.cache,
         if (e.operation.Graphics? || e.operation.Compute?) && submits then e.other else e.cache)
  }

  function StepEnqueue(s: State, sequence: nat, e: Event): State
    requires e.operation.ObjectEnqueue?
  {
    var item := (e.operation.kind, e.cache);
    s.(invalid := Flag(s.invalid, !e.phase.Return? || item !in s.objects, sequence, UnobservedEnqueue, e.cache),
       queued := s.queued + {item})
  }

  function StepEnter(s: State, sequence: nat, e: Event, submits: bool): Option<State> {
    if Find(s.pending, e.thread, e.operation) < |s.pending| then None
    else
      var o, c := e.operation, e.cache;
      var a := Flag(s.invalid, (o.Destroy? || IsUse(o)) && c != NULL_HANDLE && c !in s.live, sequence, UnobservedCache, c);
      var b := Flag(a, o.Merge? && e.other != NULL_HANDLE && e.other !in s.live, sequence, UnobservedSource, e.other);
      var d := Flag(b, o.Destroy? && OpenUses(s.pending, c) != {}, sequence, DestroyDuringUse, c);
      var concurrent := OpenUses(s.pending, c);
      Some(s.(pending := s.pending + [CallOf(sequence, e, submits)], invalid := d,
              overlaps := if IsUse(o) && c != NULL_HANDLE && concurrent != {}
                          then s.overlaps + [Overlap(sequence, c, o, concurrent)] else s.overlaps))
  }

  function StepReturn(s: State, sequence: nat, e: Event): Option<State> {
    var k, o, c := Find(s.pending, e.thread, e.operation), e.operation, e.cache;
    if k == |s.pending| then None
    else if !o.Create? && !o.ObjectCreate? && c != s.pending[k].cache then None
    else
      var s := s.(pending := Remove(s.pending, k));
      match o
      case Create =>
        if e.result == 0 && c != NULL_HANDLE then
          Some(s.(invalid := Flag(s.invalid, c in s.live, sequence, DuplicateCreate, c),
                  live := s.live + {c}, created := s.created + 1))
        else Some(s)
      case Destroy => Some(if c != NULL_HANDLE then s.(live := s.live - {c}) else s)
      case ObjectCreate(kind) =>
        if c != NULL_HANDLE then
          Some(s.(invalid := Flag(s.invalid, (kind, c) in s.objects, sequence, DuplicateObjectCreate, c),
                  objects := s.objects + {(kind, c)}, queued := s.queued - {(kind, c)}))
        else Some(s)
      case ObjectDestroy(kind) =>
        Some(s.(invalid := Flag(s.invalid, (kind, c) !in s.objects, sequence, UnobservedObjectDestroy, c),
                objects := s.objects - {(kind, c)}, queued := s.queued - {(kind, c)}))
      case _ => Some(s)
  }

  function Step(s: State, sequence: nat, e: Event, submits: bool): Option<State> {
    if e.operation.ObjectEnqueue? then Some(StepEnqueue(s, sequence, e))
    else if e.phase.Enter? then StepEnter(s, sequence, e, submits)
    else StepReturn(s, sequence, e)
  }

  /** The state after the first `n` events; None where the source raises. */
  function Replay(events: seq<Event>, n: nat, submits: bool): Option<State>
    requires n <= |events|
  {
    if n == 0 then Some(START)
    else
      var s :- Replay(events, n - 1, submits);
      Step(s, n, events[n - 1], submits)
  }

  lemma {:induction false} ReplayFails(events: seq<Event>, m: nat, n: nat, submits: bool)
    requires m <= n <= |events| && Replay(events, m, submits).None?
    ensures Replay(events, n, submits).None?
    decreases n
  {
    hide Step;
    if m < n {
      ReplayFails(events, m, n - 1, submits);
    }
  }

  /** The event loop of `analyze`. */
  method Analyze(events: seq<Event>, submits: bool) returns (r: Option<State>)
    ensures r == Replay(events, |events|, submits)
  {
    hide Find, OpenUses;
    var pending: seq<Call> := [];
    var live: set<Handle> := {};
    var objects: set<(Kind, Handle)>, queued: set<(Kind, Handle)> := {}, {};
    var overlaps: seq<Overlap>, invalid: seq<Anomaly> := [], [];
    var created := 0;
    for i := 0 to |events|
      invariant Replay(events, i, submits) == Some(State(pending, live, objects, queued, overlaps, invalid, created))
    {
      var e, sequence := events[i], i + 1;
      var o, c := e.operation, e.cache;
      if o.ObjectEnqueue? {
        invalid := Flag(invalid, !e.phase.Return? || (o.kind, c) !in objects, sequence, UnobservedEnqueue, c);
        queued := queued + {(o.kind, c)};
      } else if e.phase.Enter? {
        if Find(pending, e.thread, o) < |pending| {
          ReplayFails(events, i + 1, |events|, submits);
          return None;
        }
        var concurrent := OpenUses(pending, c);
        if o.Destroy? || IsUse(o) {
          invalid := Flag(invalid, c != NULL_HANDLE && c !in live, sequence, UnobservedCache, c);
        }
        invalid := Flag(invalid, o.Merge? && e.other != NULL_HANDLE && e.other !in live, sequence, UnobservedSource, e.other);
        invalid := Flag(invalid, o.Destroy? && concurrent != {}, sequence, DestroyDuringUse, c);
        pending := pending + [CallOf(sequence, e, submits)];
        if IsUse(o) && c != NULL_HANDLE && concurrent != {} {
          overlaps := overlaps + [Overlap(sequence, c, o, concurrent)];
        }
      } else {
        var k := Find(pending, e.thread, o);
        if k == |pending| || (!o.Create? && !o.ObjectCreate? && c != pending[k].cache) {
          ReplayFails(events, i + 1, |events|, submits);
          return None;
        }
        pending := Remove(pending, k);
        match o {
          case Create =>
            if e.result == 0 && c != NULL_HANDLE {
              invalid := Flag(invalid, c in live, sequence, DuplicateCreate, c);
              live := live + {c};
              created := created + 1;
            }
          case Destroy =>
            if c != NULL_HANDLE {
              live := live - {c};
            }
          case ObjectCreate(kind) =>
            if c != NULL_HANDLE {
              invalid := Flag(invalid, (kind, c) in objects, sequence, DuplicateObjectCreate, c);
              objects := objects + {(kind, c)};
              queued := queued - {(kind, c)};
            }
          case ObjectDestroy(kind) =>
            invalid := Flag(invalid, (kind, c) !in objects, sequence, UnobservedObjectDestroy, c);
            objects := objects - {(kind, c)};
            queued := queued - {(kind, c)};
          case _ =>
        }
      }
    }
    r := Some(State(pending, live, objects, queued, overlaps, invalid, created));
  }

  // -------------------------------------------------- what the log says

  /** Operations that read or write a pipeline cache. */
  predicate Uses(o: Operation) {
    o in {Graphics, Compute, GetData, Merge}
  }

  predicate Creates(e: Event, c: Handle) {
    e.operation.Create? && e.phase.Return? && e.result == 0 && e.cache == c && c != "0x0"
  }

  predicate Destroys(e: Event, c: Handle) {
    e.operation.Destroy? && e.phase.Return? && e.cache == c
  }

  predicate CreatesObject(e: Event, o: (Kind, Handle)) {
    e.operation == ObjectCreate(o.0) && e.phase.Return? && e.cache == o.1 && o.1 != "0x0"
  }

  predicate DestroysObject(e: Event, o: (Kind, Handle)) {
    e.operation == ObjectDestroy(o.0) && e.phase.Return? && e.cache == o.1
  }

  predicate Enqueues(e: Event, o: (Kind, Handle)) {
    e.operation == ObjectEnqueue(o.0) && e.cache == o.1
  }

  /** A successful create return with no later destroy return. */
  predicate Live(events: seq<Event>, n: nat, c: Handle)
    requires n <= |events|
  {
    exists i :: 0 <= i < n && Creates(events[i], c) && forall j :: i < j < n ==> !Destroys(events[j], c)
  }

  predicate LiveObject(events: seq<Event>, n: nat, o: (Kind, Handle))
    requires n <= |events|
  {
    exists i :: 0 <= i < n && CreatesObject(events[i], o) && forall j :: i < j < n ==> !DestroysObject(events[j], o)
  }

  predicate QueuedObject(events: seq<Event>, n: nat, o: (Kind, Handle))
    requires n <= |events|
  {
    exists i :: 0 <= i < n && Enqueues(events[i], o)
      && forall j :: i < j < n ==> !CreatesObject(events[j], o) && !DestroysObject(events[j], o)
  }

  predicate Opens(e: Event) {
    !e.operation.ObjectEnqueue? && e.phase.Enter?
  }

  predicate Closes(e: Event, start: Event) {
    !e.operation.ObjectEnqueue? && e.phase.Return? && e.thread == start.thread && e.operation == start.operation
  }

  /** Call `i` has been entered and has not returned within the first `n` events:
      position `n` lies inside its span. */
  predicate Open(events: seq<Event>, n: nat, i: nat)
    requires n <= |events|
  {
    i < n && Opens(events[i]) && forall j :: i < j < n ==> !Closes(events[j], events[i])
  }

  // ------------------------------------ the live, object and queued sets

  /** One event's effect on the three sets, element by element. */
  lemma StepSets(s: State, sequence: nat, e: Event, submits: bool)
    requires "0x0" !in s.live && Step(s, sequence, e, submits).Some?
    ensures var t := Step(s, sequence, e, submits).value;
      && (forall c :: c in t.live <==> Creates(e, c) || (c in s.live && !Destroys(e, c)))
      && (forall o :: o in t.objects <==> CreatesObject(e, o) || (o in s.objects && !DestroysObject(e, o)))
      && forall o :: o in t.queued <==>
        Enqueues(e, o) || (o in s.queued && !CreatesObject(e, o) && !DestroysObject(e, o))
  {
    hide Find, OpenUses, Flag, Remove;
  }

  /** At every event index the three sets are exactly what the history says. */
  lemma {:induction false} SetsAreHistory(events: seq<Event>, n: nat, submits: bool)
    requires n <= |events| && Replay(events, n, submits).Some?
    ensures var s := Replay(events, n, submits).value;
      && (forall c :: c in s.live <==> Live(events, n, c))
      && (forall o :: o in s.objects <==> LiveObject(events, n, o))
      && forall o :: o in s.queued <==> QueuedObject(events, n, o)
    decreases n
  {
    hide Step, Creates, Destroys, CreatesObject, DestroysObject, Enqueues;
    if n > 0 {
      SetsAreHistory(events, n - 1, submits);
      NullNeverLives(events, n - 1);
      var s, e := Replay(events, n - 1, submits).value, events[n - 1];
      StepSets(s, n, e, submits);
      hide Live, LiveObject, QueuedObject;
      forall c
        ensures c in Replay(events, n, submits).value.live <==> Live(events, n, c)
      {
        LiveStep(events, n - 1, c);
      }
      forall o
        ensures o in Replay(events, n, submits).value.objects <==> LiveObject(events, n, o)
      {
        ObjectStep(events, n - 1, o);
      }
      forall o
        ensures o in Replay(events, n, submits).value.queued <==> QueuedObject(events, n, o)
      {
        QueuedStep(events, n - 1, o);
      }
    }
  }

  lemma NullNeverLives(events: seq<Event>, n: nat)
    requires n <= |events|
    ensures !Live(events, n, "0x0")
  {
  }

  lemma LiveStep(events: seq<Event>, n: nat, c: Handle)
    requires n < |events|
    ensures Live(events, n + 1, c) <==> Creates(events[n], c) || (Live(events, n, c) && !Destroys(events[n], c))
  {
    if Live(events, n + 1, c) {
      var i :| 0 <= i < n + 1 && Creates(events[i], c) && forall j :: i < j < n + 1 ==> !Destroys(events[j], c);
      assert i == n || (Live(events, n, c) && !Destroys(events[n], c));
    }
    if Creates(events[n], c) {
      assert Live(events, n + 1, c);
    }
  }

  lemma ObjectStep(events: seq<Event>, n: nat, o: (Kind, Handle))
    requires n < |events|
    ensures LiveObject(events, n + 1, o) <==>
      CreatesObject(events[n], o) || (LiveObject(events, n, o) && !DestroysObject(events[n], o))
  {
    if LiveObject(events, n + 1, o) {
      var i :| 0 <= i < n + 1 && CreatesObject(events[i], o) && forall j :: i < j < n + 1 ==> !DestroysObject(events[j], o);
      assert i == n || (LiveObject(events, n, o) && !DestroysObject(events[n], o));
    }
    if CreatesObject(events[n], o) {
      assert LiveObject(events, n + 1, o);
    }
  }

  lemma QueuedStep(events: seq<Event>, n: nat, o: (Kind, Handle))
    requires n < |events|
    ensures QueuedObject(events, n + 1, o) <==>
      Enqueues(events[n], o)
      || (QueuedObject(events, n, o) && !CreatesObject(events[n], o) && !DestroysObject(events[n], o))
  {
    if QueuedObject(events, n + 1, o) {
      var i :| 0 <= i < n + 1 && Enqueues(events[i], o)
        && forall j :: i < j < n + 1 ==> !CreatesObject(events[j], o) && !DestroysObject(events[j], o);
      assert i == n || (QueuedObject(events, n, o) && !CreatesObject(events[n], o) && !DestroysObject(events[n], o));
    }
    if Enqueues(events[n], o) {
      assert QueuedObject(events, n + 1, o);
    }
  }

  /** While nothing anomalous is recorded, every queued handle is live. */
  lemma {:induction false} QueuedAreLive(events: seq<Event>, n: nat, submits: bool)
    requires n <= |events| && Replay(events, n, submits).Some? && Replay(events, n, submits).value.invalid == []
    ensures Replay(events, n, submits).value.queued <= Replay(events, n, submits).value.objects
    decreases n
  {
    hide Find, OpenUses, Remove;
    if n > 0 {
      QueuedAreLive(events, n - 1, submits);
    }
  }

  // ------------------------------------------------ the pending calls

  /** `c` carries the entering event's fields; graphics and compute calls submit the
      event's other handle when the marker names the submitted cache. */
  predicate Enters(c: Call, e: Event, submits: bool) {
    && c.operation == e.operation && c.thread == e.thread && c.cache == e.cache
    && c.submitted == (if submits && e.operation in {Graphics, Compute} then e.other else e.cache)
  }

  /** `c` records the call entered at its sequence number, still open at `n`. */
  predicate IsOpenCall(events: seq<Event>, n: nat, c: Call, submits: bool)
    requires n <= |events|
  {
    1 <= c.sequence <= n && Open(events, n, c.sequence - 1) && Enters(c, events[c.sequence - 1], submits)
  }

  predicate HasCall(p: seq<Call>, sequence: nat) {
    exists a :: 0 <= a < |p| && p[a].sequence == sequence
  }

  predicate Ascending(p: seq<Call>) {
    forall a, b :: 0 <= a < b < |p| ==> p[a].sequence < p[b].sequence
  }

  /** `p` lists exactly the open calls, oldest first. */
  predicate PendingIs(events: seq<Event>, n: nat, p: seq<Call>, submits: bool)
    requires n <= |events|
  {
    && Ascending(p)
    && (forall a :: 0 <= a < |p| ==> IsOpenCall(events, n, p[a], submits))
    && forall i: nat :: i < n && Open(events, n, i) ==> HasCall(p, i + 1)
  }

  /** No thread is ever twice inside the same operation. */
  predicate DistinctKeys(p: seq<Call>) {
    forall a, b :: 0 <= a < b < |p| ==> !(p[a].thread == p[b].thread && p[a].operation == p[b].operation)
  }

  predicate SameKey(e: Event, c: Call) {
    c.thread == e.thread && c.operation == e.operation
  }

  lemma OpenStep(events: seq<Event>, n: nat, i: nat)
    requires n < |events| && i <= n
    ensures Open(events, n + 1, i) <==>
      if i == n then Opens(events[n]) else Open(events, n, i) && !Closes(events[n], events[i])
  {
  }

  lemma CallStep(events: seq<Event>, n: nat, c: Call, submits: bool)
    requires n < |events| && IsOpenCall(events, n, c, submits)
    ensures IsOpenCall(events, n + 1, c, submits) <==>
      !(events[n].phase.Return? && !events[n].operation.ObjectEnqueue? && SameKey(events[n], c))
  {
    OpenStep(events, n, c.sequence - 1);
  }

  lemma NewCall(events: seq<Event>, n: nat, submits: bool)
    requires n < |events| && Opens(events[n])
    ensures var c := CallOf(n + 1, events[n], submits);
      IsOpenCall(events, n + 1, c, submits) && SameKey(events[n], c) && c.sequence == n + 1
  {
    OpenStep(events, n, n);
  }

  lemma HasCallKept(p: seq<Call>, q: seq<Call>, sequence: nat)
    requires HasCall(p, sequence)
    requires forall a :: 0 <= a < |p| && p[a].sequence == sequence ==> p[a] in q
    ensures HasCall(q, sequence)
  {
    var a :| 0 <= a < |p| && p[a].sequence == sequence;
    var k :| 0 <= k < |q| && q[k] == p[a];
  }

  lemma EnterPending(events: seq<Event>, n: nat, p: seq<Call>, submits: bool)
    requires n < |events| && Opens(events[n]) && PendingIs(events, n, p, submits)
    ensures PendingIs(events, n + 1, p + [CallOf(n + 1, events[n], submits)], submits)
  {
    var c := CallOf(n + 1, events[n], submits);
    var q := p + [c];
    NewCall(events, n, submits);
    assert Ascending(q) by {
      assert forall a :: 0 <= a < |p| ==> p[a].sequence <= n by { hide Open; }
      hide IsOpenCall, HasCall, CallOf;
    }
    hide HasCall, Ascending, CallOf;
    forall a | 0 <= a < |q|
      ensures IsOpenCall(events, n + 1, q[a], submits)
    {
      hide IsOpenCall;
      if a < |p| { CallStep(events, n, p[a], submits); }
    }
    hide IsOpenCall;
    var m := n + 1;
    forall i: nat | i < m && Open(events, m, i)
      ensures HasCall(q, i + 1)
    {
      OpenStep(events, n, i);
      if i < n {
        HasCallKept(p, q, i + 1);
      } else {
        assert q[|p|] == c;
        Found(q, |p|);
      }
    }
  }

  lemma Found(p: seq<Call>, a: nat)
    requires a < |p|
    ensures HasCall(p, p[a].sequence)
  {
  }

  lemma RemoveAt(p: seq<Call>, k: nat)
    requires k < |p|
    ensures forall a :: 0 <= a < |p| - 1 ==> Remove(p, k)[a] == p[if a < k then a else a + 1]
    ensures forall a :: 0 <= a < |p| && a != k ==> p[a] in Remove(p, k)
    ensures Ascending(p) ==> Ascending(Remove(p, k))
    ensures DistinctKeys(p) ==> DistinctKeys(Remove(p, k))
  {
    var q := Remove(p, k);
    forall a | 0 <= a < |p| && a != k
      ensures p[a] in q
    {
      assert p[a] == q[if a < k then a else a - 1];
    }
  }

  lemma ReturnPending(events: seq<Event>, n: nat, p: seq<Call>, k: nat, submits: bool)
    requires n < |events| && events[n].phase.Return? && !events[n].operation.ObjectEnqueue?
    requires PendingIs(events, n, p, submits) && DistinctKeys(p)
    requires k < |p| && SameKey(events[n], p[k])
    ensures PendingIs(events, n + 1, Remove(p, k), submits) && DistinctKeys(Remove(p, k))
  {
    var q := Remove(p, k);
    RemoveAt(p, k);
    hide HasCall, Ascending, Remove;
    forall a | 0 <= a < |q|
      ensures IsOpenCall(events, n + 1, q[a], submits)
    {
      hide IsOpenCall;
      CallStep(events, n, p[if a < k then a else a + 1], submits);
    }
    var m := n + 1;
    hide DistinctKeys;
    forall i: nat | i < m && Open(events, m, i)
      ensures HasCall(q, i + 1)
    {
      OpenStep(events, n, i);
      hide Open;
      assert !Closes(events[n], events[i]);
      forall a | 0 <= a < |p| && p[a].sequence == i + 1
        ensures p[a] in q
      {
        assert IsOpenCall(events, n, p[a], submits);
        assert a != k;
      }
      HasCallKept(p, q, i + 1);
    }
  }

  lemma EnqueuePending(events: seq<Event>, n: nat, p: seq<Call>, submits: bool)
    requires n < |events| && events[n].operation.ObjectEnqueue? && PendingIs(events, n, p, submits)
    ensures PendingIs(events, n + 1, p, submits)
  {
    hide IsOpenCall, HasCall, Ascending;
    forall a | 0 <= a < |p|
      ensures IsOpenCall(events, n + 1, p[a], submits)
    {
      CallStep(events, n, p[a], submits);
    }
    var m := n + 1;
    forall i: nat | i < m && Open(events, m, i)
      ensures HasCall(p, i + 1)
    {
      OpenStep(events, n, i);
    }
  }

  /** One event's effect on the pending calls. */
  lemma StepPending(s: State, sequence: nat, e: Event, submits: bool)
    requires Step(s, sequence, e, submits).Some?
    ensures var k, q := Find(s.pending, e.thread, e.operation), Step(s, sequence, e, submits).value.pending;
      if e.operation.ObjectEnqueue? then q == s.pending
      else if e.phase.Enter? then k == |s.pending| && q == s.pending + [CallOf(sequence, e, submits)]
      else k < |s.pending| && q == Remove(s.pending, k)
  {
    hide Find, OpenUses, Flag, Remove, CallOf;
  }

  /** `pending_operations` is exactly the unreturned enters, in sequence order,
      and no two of them have the same thread and operation. */
  lemma {:induction false} PendingIsOpenCalls(events: seq<Event>, n: nat, submits: bool)
    requires n <= |events| && Replay(events, n, submits).Some?
    ensures PendingIs(events, n, Replay(events, n, submits).value.pending, submits)
    ensures DistinctKeys(Replay(events, n, submits).value.pending)
    decreases n
  {
    hide PendingIs, Step, CallOf;
    if n == 0 {
      assert PendingIs(events, 0, [], submits) by { NothingPending(events, submits); }
    } else {
      PendingIsOpenCalls(events, n - 1, submits);
      var s, e := Replay(events, n - 1, submits).value, events[n - 1];
      StepPending(s, n, e, submits);
      if e.operation.ObjectEnqueue? {
        EnqueuePending(events, n - 1, s.pending, submits);
      } else if e.phase.Enter? {
        EnterPending(events, n - 1, s.pending, submits);
        NewCall(events, n - 1, submits);
      } else {
        ReturnPending(events, n - 1, s.pending, Find(s.pending, e.thread, e.operation), submits);
      }
    }
  }

  lemma NothingPending(events: seq<Event>, submits: bool)
    ensures PendingIs(events, 0, [], submits)
  {
  }

  /** The events of the first `n` that created a cache. */
  function Creations(events: seq<Event>, n: nat): set<nat>
    requires n <= |events|
  {
    set i: nat | i < n && Creates(events[i], events[i].cache)
  }

  /** `created_caches` is the number of create returns with result 0 and a handle. */
  lemma {:induction false} CreationsAreCounted(events: seq<Event>, n: nat, submits: bool)
    requires n <= |events| && Replay(events, n, submits).Some?
    ensures Replay(events, n, submits).value.created == |Creations(events, n)|
    decreases n
  {
    hide Step;
    if n > 0 {
      CreationsAreCounted(events, n - 1, submits);
      StepCreated(Replay(events, n - 1, submits).value, n, events[n - 1], submits);
      hide Creates;
      var before := Creations(events, n - 1);
      assert Creations(events, n) ==
        if Creates(events[n - 1], events[n - 1].cache) then before + {n - 1} else before;
    }
  }

  lemma StepCreated(s: State, sequence: nat, e: Event, submits: bool)
    requires Step(s, sequence, e, submits).Some?
    ensures Step(s, sequence, e, submits).value.created == s.created + if Creates(e, e.cache) then 1 else 0
  {
    hide Find, OpenUses, Flag, Remove, CallOf;
  }

  function Count(events: seq<Event>, n: nat, phase: Phase): nat
    requires n <= |events|
  {
    if n == 0 then 0
    else Count(events, n - 1, phase)
         + if !events[n - 1].operation.ObjectEnqueue? && events[n - 1].phase == phase then 1 else 0
  }

  /** Calls are conserved: entered is returned plus still pending. */
  lemma {:induction false} CallsAreConserved(events: seq<Event>, n: nat, submits: bool)
    requires n <= |events| && Replay(events, n, submits).Some?
    ensures Count(events, n, Enter) == Count(events, n, Return) + |Replay(events, n, submits).value.pending|
    decreases n
  {
    hide Step;
    if n > 0 {
      CallsAreConserved(events, n - 1, submits);
      StepPending(Replay(events, n - 1, submits).value, n, events[n - 1], submits);
    }
  }

  // --------------------------------------------- when the replay raises

  predicate HasKey(events: seq<Event>, n: nat, e: Event, j: nat)
    requires n <= |events|
  {
    Open(events, n, j) && events[j].thread == e.thread && events[j].operation == e.operation
  }

  /** Event `i` respects the call discipline of its thread. */
  predicate Admissible(events: seq<Event>, i: nat)
    requires i < |events|
  {
    var e := events[i];
    if e.operation.ObjectEnqueue? then true
    else if e.phase.Enter? then forall j: nat :: j < i ==> !HasKey(events, i, e, j)
    else
      exists j: nat :: j < i && HasKey(events, i, e, j)
        && (e.operation.Create? || e.operation.ObjectCreate? || e.cache == events[j].cache)
  }

  /** Looking a key up in `pending` finds the open call with that key. */
  lemma FoundIsOpen(events: seq<Event>, n: nat, p: seq<Call>, submits: bool, e: Event)
    requires n <= |events| && PendingIs(events, n, p, submits)
    requires Find(p, e.thread, e.operation) < |p|
    ensures var c := p[Find(p, e.thread, e.operation)];
      1 <= c.sequence <= n && HasKey(events, n, e, c.sequence - 1) && Enters(c, events[c.sequence - 1], submits)
  {
    hide Open, Ascending, HasCall;
    assert IsOpenCall(events, n, p[Find(p, e.thread, e.operation)], submits);
  }

  lemma FindUnique(p: seq<Call>, a: nat)
    requires a < |p| && DistinctKeys(p)
    ensures Find(p, p[a].thread, p[a].operation) == a
  {
  }

  lemma ListedAt(events: seq<Event>, n: nat, p: seq<Call>, submits: bool, j: nat) returns (a: nat)
    requires n <= |events| && PendingIs(events, n, p, submits) && Open(events, n, j)
    ensures a < |p| && p[a].sequence == j + 1 && Enters(p[a], events[j], submits)
  {
    hide Ascending;
    assert HasCall(p, j + 1);
    a :| 0 <= a < |p| && p[a].sequence == j + 1;
    hide Open;
    assert IsOpenCall(events, n, p[a], submits);
  }

  lemma OpenIsFound(events: seq<Event>, n: nat, p: seq<Call>, submits: bool, e: Event, j: nat)
    requires n <= |events| && PendingIs(events, n, p, submits) && DistinctKeys(p)
    requires HasKey(events, n, e, j)
    ensures Find(p, e.thread, e.operation) < |p| && p[Find(p, e.thread, e.operation)].sequence == j + 1
  {
    hide PendingIs, DistinctKeys, Open, Find;
    var a := ListedAt(events, n, p, submits, j);
    FindUnique(p, a);
  }

  /** The analysis goes through exactly when every event is admissible. */
  lemma {:induction false} ReplaySucceeds(events: seq<Event>, n: nat, submits: bool)
    requires n <= |events|
    ensures Replay(events, n, submits).Some? <==> forall i :: 0 <= i < n ==> Admissible(events, i)
    decreases n
  {
    hide Admissible, PendingIs;
    if n > 0 {
      ReplaySucceeds(events, n - 1, submits);
      if Replay(events, n - 1, submits).Some? {
        PendingIsOpenCalls(events, n - 1, submits);
        StepSucceeds(events, n - 1, Replay(events, n - 1, submits).value, submits);
      }
    }
  }

  lemma StepSucceeds(events: seq<Event>, n: nat, s: State, submits: bool)
    requires n < |events| && PendingIs(events, n, s.pending, submits) && DistinctKeys(s.pending)
    ensures Step(s, n + 1, events[n], submits).Some? <==> Admissible(events, n)
  {
    hide PendingIs, DistinctKeys, OpenUses, Flag, Remove, Open;
    var e, p := events[n], s.pending;
    var k := Find(p, e.thread, e.operation);
    if k < |p| {
      FoundIsOpen(events, n, p, submits, e);
    }
    forall j: nat | j < n && HasKey(events, n, e, j)
      ensures k < |p| && p[k].sequence == j + 1
    {
      OpenIsFound(events, n, p, submits, e, j);
    }
  }

  // ------------------------------------------------------- overlaps

  /** Call `j` uses cache `c` and is still open when event `i` happens. */
  predicate OpenUse(events: seq<Event>, i: nat, c: Handle, j: nat)
    requires i <= |events|
  {
    Open(events, i, j) && Uses(events[j].operation) && events[j].cache == c
  }

  lemma OpenUsesAreHistory(events: seq<Event>, n: nat, p: seq<Call>, submits: bool, c: Handle)
    requires n <= |events| && PendingIs(events, n, p, submits)
    ensures forall o :: o in OpenUses(p, c) <==> exists j: nat :: OpenUse(events, n, c, j) && events[j].operation == o
    ensures OpenUses(p, c) != {} <==> exists j: nat :: OpenUse(events, n, c, j)
  {
    if OpenUses(p, c) != {} {
      var o :| o in OpenUses(p, c);
    }
    forall o | o in OpenUses(p, c)
      ensures exists j: nat :: OpenUse(events, n, c, j) && events[j].operation == o
    {
      hide Open, Ascending, HasCall;
      var k :| 0 <= k < |p| && Uses(p[k].operation) && p[k].cache == c && p[k].operation == o;
      assert IsOpenCall(events, n, p[k], submits);
      assert OpenUse(events, n, c, p[k].sequence - 1);
    }
    hide PendingIs, Open;
    forall j: nat | OpenUse(events, n, c, j)
      ensures events[j].operation in OpenUses(p, c)
    {
      var a := ListedAt(events, n, p, submits, j);
    }
  }

  /** Event `i` enters a use of a cache that another open call is using. */
  ghost predicate OverlapAt(events: seq<Event>, i: nat)
    requires i < |events|
  {
    && Opens(events[i]) && Uses(events[i].operation) && events[i].cache != "0x0"
    && exists j: nat :: OpenUse(events, i, events[i].cache, j)
  }

  /** `o` describes the overlap at its event: which operations were open. */
  ghost predicate Describes(events: seq<Event>, n: nat, o: Overlap)
    requires n <= |events|
  {
    && 1 <= o.sequence <= n && OverlapAt(events, o.sequence - 1)
    && o.cache == events[o.sequence - 1].cache && o.operation == events[o.sequence - 1].operation
    && forall op :: op in o.concurrent <==>
         exists j: nat :: OpenUse(events, o.sequence - 1, o.cache, j) && events[j].operation == op
  }

  predicate Reported(overlaps: seq<Overlap>, sequence: nat) {
    exists k :: 0 <= k < |overlaps| && overlaps[k].sequence == sequence
  }

  lemma StepOverlaps(events: seq<Event>, n: nat, s: State, submits: bool)
    requires n < |events| && PendingIs(events, n, s.pending, submits)
    requires Step(s, n + 1, events[n], submits).Some?
    ensures var t := Step(s, n + 1, events[n], submits).value.overlaps;
      if OverlapAt(events, n) then
        |t| == |s.overlaps| + 1 && t[..|s.overlaps|] == s.overlaps
        && t[|s.overlaps|].sequence == n + 1 && Describes(events, n + 1, t[|s.overlaps|])
      else t == s.overlaps
  {
    hide PendingIs, Find, Flag, Remove, CallOf, OpenUse, OpenUses;
    OpenUsesAreHistory(events, n, s.pending, submits, events[n].cache);
  }

  /** Overlap detection is exact: one report for each event that enters a use of a
      cache already in use, in event order, describing it. */
  lemma {:induction false} OverlapsAreHistory(events: seq<Event>, n: nat, submits: bool)
    requires n <= |events| && Replay(events, n, submits).Some?
    ensures var s := Replay(events, n, submits).value.overlaps;
      && (forall k :: 0 <= k < |s| ==> Describes(events, n, s[k]))
      && (forall i: nat :: i < n && OverlapAt(events, i) ==> Reported(s, i + 1))
      && forall j, k :: 0 <= j < k < |s| ==> s[j].sequence < s[k].sequence
    decreases n
  {
    hide Step, OverlapAt, PendingIs;
    if n > 0 {
      OverlapsAreHistory(events, n - 1, submits);
      PendingIsOpenCalls(events, n - 1, submits);
      StepOverlaps(events, n - 1, Replay(events, n - 1, submits).value, submits);
      var old_, new_ := Replay(events, n - 1, submits).value.overlaps, Replay(events, n, submits).value.overlaps;
      assert forall k :: 0 <= k < |old_| ==> new_[k] == old_[k];
      forall k | 0 <= k < |new_|
        ensures Describes(events, n, new_[k])
      {
        if k < |old_| { assert Describes(events, n - 1, old_[k]); }
      }
      forall j, k | 0 <= j < k < |new_|
        ensures new_[j].sequence < new_[k].sequence
      {
        assert Describes(events, n - 1, old_[j]);
      }
      forall i: nat | i < n && OverlapAt(events, i)
        ensures Reported(new_, i + 1)
      {
        if i < n - 1 {
          var k :| 0 <= k < |old_| && old_[k].sequence == i + 1;
          assert new_[k].sequence == i + 1;
        } else {
          assert new_[|old_|].sequence == i + 1;
        }
      }
    }
  }

  /** The spans [enter, return) of two calls have a position in common. */
  predicate SpansMeet(events: seq<Event>, n: nat, i: nat, j: nat)
    requires n <= |events|
  {
    exists t: nat :: t <= n && Open(events, t, i) && Open(events, t, j)
  }

  lemma {:induction false} OpenEarlier(events: seq<Event>, m: nat, n: nat, i: nat)
    requires i < m <= n <= |events| && Open(events, n, i)
    ensures Open(events, m, i)
  {
  }

  /** Calls `i` and `j`, entered in this order, use one non-null cache. */
  predicate UsePair(events: seq<Event>, n: nat, i: nat, j: nat)
    requires n <= |events|
  {
    && i < j < n && Opens(events[i]) && Opens(events[j])
    && Uses(events[i].operation) && Uses(events[j].operation)
    && events[i].cache == events[j].cache && events[j].cache != "0x0"
  }

  /** A report at the later enter names the operation of the earlier one. */
  predicate ReportsPair(events: seq<Event>, s: seq<Overlap>, i: nat, j: nat)
    requires i < |events|
  {
    exists k :: 0 <= k < |s| && s[k].sequence == j + 1 && events[i].operation in s[k].concurrent
  }

  lemma OpenIsPast(events: seq<Event>, n: nat, i: nat)
    requires n <= |events| && Open(events, n, i)
    ensures i < n
  {
  }

  lemma OpenUseMeets(events: seq<Event>, n: nat, i: nat, j: nat)
    requires j < n <= |events| && OverlapAt(events, j) && OpenUse(events, j, events[j].cache, i)
    ensures UsePair(events, n, i, j) && SpansMeet(events, n, i, j)
  {
    var t := j + 1;
    OpenStep(events, j, i);
    OpenStep(events, j, j);
    assert Open(events, t, i) && Open(events, t, j);
  }

  lemma MeetingIsOpenUse(events: seq<Event>, n: nat, i: nat, j: nat)
    requires n <= |events| && UsePair(events, n, i, j) && SpansMeet(events, n, i, j)
    ensures OverlapAt(events, j) && OpenUse(events, j, events[j].cache, i)
  {
    var t: nat :| t <= n && Open(events, t, i) && Open(events, t, j);
    OpenIsPast(events, t, j);
    OpenEarlier(events, j, t, i);
    assert OpenUse(events, j, events[j].cache, i);
  }

  lemma DescribedOperation(events: seq<Event>, n: nat, o: Overlap, i: nat)
    requires n <= |events| && Describes(events, n, o)
    requires OpenUse(events, o.sequence - 1, events[o.sequence - 1].cache, i)
    ensures i < |events| && events[i].operation in o.concurrent
  {
    hide OverlapAt;
  }

  lemma OverlapIsReported(events: seq<Event>, n: nat, submits: bool, i: nat, j: nat)
    requires j < n <= |events| && Replay(events, n, submits).Some?
    requires OverlapAt(events, j) && OpenUse(events, j, events[j].cache, i) && i < |events|
    ensures ReportsPair(events, Replay(events, n, submits).value.overlaps, i, j)
  {
    hide Replay, OpenUse, OverlapAt, Describes;
    OverlapsAreHistory(events, n, submits);
    var s := Replay(events, n, submits).value.overlaps;
    assert Reported(s, j + 1);
    var k :| 0 <= k < |s| && s[k].sequence == j + 1;
    assert Describes(events, n, s[k]);
    DescribedOperation(events, n, s[k], i);
  }

  lemma ReportIsPair(events: seq<Event>, n: nat, submits: bool, k: nat, o: Operation) returns (i: nat)
    requires n <= |events| && Replay(events, n, submits).Some?
    requires var s := Replay(events, n, submits).value.overlaps; k < |s| && o in s[k].concurrent
    ensures var j := Replay(events, n, submits).value.overlaps[k].sequence - 1;
      j >= 0 && UsePair(events, n, i, j) && SpansMeet(events, n, i, j) && events[i].operation == o
  {
    hide Replay, OverlapAt, SpansMeet, Opens;
    OverlapsAreHistory(events, n, submits);
    var s := Replay(events, n, submits).value.overlaps;
    assert Describes(events, n, s[k]);
    var j: nat := s[k].sequence - 1;
    i :| OpenUse(events, j, s[k].cache, i) && events[i].operation == o;
    OpenUseMeets(events, n, i, j);
  }

  /** Two uses of one non-null cache with meeting spans are reported at the
      later enter, under the operation of the earlier one; and whatever is
      reported comes from such a pair. */
  lemma MeetingUsesAreReported(events: seq<Event>, n: nat, submits: bool)
    requires n <= |events| && Replay(events, n, submits).Some?
    ensures var s := Replay(events, n, submits).value.overlaps;
      && (forall i: nat, j: nat :: UsePair(events, n, i, j) && SpansMeet(events, n, i, j) ==> ReportsPair(events, s, i, j))
      && forall k, o :: 0 <= k < |s| && o in s[k].concurrent ==>
           exists i: nat, j: nat ::
             j + 1 == s[k].sequence && UsePair(events, n, i, j) && SpansMeet(events, n, i, j) && events[i].operation == o
  {
    hide Replay, SpansMeet, OverlapAt, OpenUse, Opens;
    var s := Replay(events, n, submits).value.overlaps;
    forall i: nat, j: nat | UsePair(events, n, i, j) && SpansMeet(events, n, i, j)
      ensures ReportsPair(events, s, i, j)
    {
      MeetingIsOpenUse(events, n, i, j);
      OverlapIsReported(events, n, submits, i, j);
    }
    forall k, o | 0 <= k < |s| && o in s[k].concurrent
      ensures exists i: nat, j: nat ::
        j + 1 == s[k].sequence && UsePair(events, n, i, j) && SpansMeet(events, n, i, j) && events[i].operation == o
    {
      var i := ReportIsPair(events, n, submits, k, o);
      assert UsePair(events, n, i, s[k].sequence - 1);
    }
  }

  // ------------------------------------------------------ anomalies

  /** Event `i` is anomalous for this reason, in terms of the history alone. */
  ghost predicate AnomalousAt(events: seq<Event>, i: nat, reason: Reason, h: Handle)
    requires i < |events|
  {
    var e := events[i];
    match reason
    case UnobservedEnqueue =>
      e.operation.ObjectEnqueue? && h == e.cache
      && (!e.phase.Return? || !LiveObject(events, i, (e.operation.kind, h)))
    case UnobservedCache =>
      Opens(e) && (e.operation.Destroy? || Uses(e.operation)) && h == e.cache != "0x0" && !Live(events, i, h)
    case UnobservedSource =>
      Opens(e) && e.operation.Merge? && h == e.other != "0x0" && !Live(events, i, h)
    case DestroyDuringUse =>
      Opens(e) && e.operation.Destroy? && h == e.cache && exists j: nat :: OpenUse(events, i, h, j)
    case DuplicateCreate => Creates(e, h) && Live(events, i, h)
    case DuplicateObjectCreate =>
      e.operation.ObjectCreate? && CreatesObject(e, (e.operation.kind, h)) && LiveObject(events, i, (e.operation.kind, h))
    case UnobservedObjectDestroy =>
      e.operation.ObjectDestroy? && DestroysObject(e, (e.operation.kind, h)) && !LiveObject(events, i, (e.operation.kind, h))
  }

  /** The same, in terms of the analyzer's state. */
  predicate FlaggedIn(s: State, e: Event, reason: Reason, h: Handle) {
    match reason
    case UnobservedEnqueue =>
      e.operation.ObjectEnqueue? && h == e.cache && (!e.phase.Return? || (e.operation.kind, h) !in s.objects)
    case UnobservedCache =>
      Opens(e) && (e.operation.Destroy? || Uses(e.operation)) && h == e.cache != "0x0" && h !in s.live
    case UnobservedSource => Opens(e) && e.operation.Merge? && h == e.other != "0x0" && h !in s.live
    case DestroyDuringUse => Opens(e) && e.operation.Destroy? && h == e.cache && OpenUses(s.pending, h) != {}
    case DuplicateCreate => Creates(e, h) && h in s.live
    case DuplicateObjectCreate =>
      e.operation.ObjectCreate? && CreatesObject(e, (e.operation.kind, h)) && (e.operation.kind, h) in s.objects
    case UnobservedObjectDestroy =>
      e.operation.ObjectDestroy? && DestroysObject(e, (e.operation.kind, h)) && (e.operation.kind, h) !in s.objects
  }

  lemma FlagAdds(invalid: seq<Anomaly>, bad: bool, sequence: nat, reason: Reason, h: Handle, a: Anomaly)
    ensures a in Flag(invalid, bad, sequence, reason, h) <==> a in invalid || (bad && a == Anomaly(sequence, reason, h))
  {
  }

  lemma StepFlags(s: State, sequence: nat, e: Event, submits: bool, a: Anomaly)
    requires Step(s, sequence, e, submits).Some?
    ensures a in Step(s, sequence, e, submits).value.invalid <==>
      a in s.invalid || (a.sequence == sequence && FlaggedIn(s, e, a.reason, a.handle))
  {
    hide Find, OpenUses, Flag, Remove, CallOf;
    forall invalid, bad, reason, h
      ensures a in Flag(invalid, bad, sequence, reason, h) <==> a in invalid || (bad && a == Anomaly(sequence, reason, h))
    {
      FlagAdds(invalid, bad, sequence, reason, h, a);
    }
  }

  lemma FlaggedIsAnomalous(events: seq<Event>, n: nat, submits: bool, reason: Reason, h: Handle)
    requires n < |events| && Replay(events, n, submits).Some?
    ensures FlaggedIn(Replay(events, n, submits).value, events[n], reason, h) <==> AnomalousAt(events, n, reason, h)
  {
    if reason.DestroyDuringUse? {
      PendingIsOpenCalls(events, n, submits);
      OpenUsesAreHistory(events, n, Replay(events, n, submits).value.pending, submits, h);
      hide Replay, OpenUses, OpenUse, PendingIs, DistinctKeys;
    } else {
      SetsAreHistory(events, n, submits);
      hide Replay, Live, LiveObject, QueuedObject, Creates, CreatesObject, DestroysObject;
    }
  }

  /** The recorded anomalies are exactly those of the history: event, reason and
      handle. */
  lemma {:induction false} AnomaliesAreHistory(events: seq<Event>, n: nat, submits: bool, a: Anomaly)
    requires n <= |events| && Replay(events, n, submits).Some?
    ensures a in Replay(events, n, submits).value.invalid <==>
      1 <= a.sequence <= n && AnomalousAt(events, a.sequence - 1, a.reason, a.handle)
    decreases n
  {
    hide Step, AnomalousAt, FlaggedIn;
    if n > 0 {
      AnomaliesAreHistory(events, n - 1, submits, a);
      StepFlags(Replay(events, n - 1, submits).value, n, events[n - 1], submits, a);
      FlaggedIsAnomalous(events, n - 1, submits, a.reason, a.handle);
    }
  }

  /** Recorded once each, in event order, up to a sequence number. */
  predicate Chronicle(invalid: seq<Anomaly>, sequence: nat) {
    && (forall a :: a in invalid ==> a.sequence <= sequence)
    && NoDuplicates(invalid)
    && forall i, j :: 0 <= i < j < |invalid| ==> invalid[i].sequence <= invalid[j].sequence
  }

  /** Nothing is recorded yet for this event and reason. */
  predicate Unrecorded(invalid: seq<Anomaly>, sequence: nat, reason: Reason) {
    forall a :: a in invalid ==> !(a.sequence == sequence && a.reason == reason)
  }

  lemma FlagChronicle(invalid: seq<Anomaly>, bad: bool, sequence: nat, reason: Reason, h: Handle, other: Reason)
    requires Chronicle(invalid, sequence) && Unrecorded(invalid, sequence, reason)
    ensures Chronicle(Flag(invalid, bad, sequence, reason, h), sequence)
    ensures other != reason && Unrecorded(invalid, sequence, other) ==>
      Unrecorded(Flag(invalid, bad, sequence, reason, h), sequence, other)
  {
    var added := Anomaly(sequence, reason, h);
    assert added !in invalid;
    assert forall i :: 0 <= i < |invalid| ==> invalid[i] in invalid;
  }

  lemma StepChronicle(s: State, sequence: nat, e: Event, submits: bool)
    requires sequence > 0 && Chronicle(s.invalid, sequence - 1) && Step(s, sequence, e, submits).Some?
    ensures Chronicle(Step(s, sequence, e, submits).value.invalid, sequence)
  {
    assert Chronicle(s.invalid, sequence);
    assert forall r :: Unrecorded(s.invalid, sequence, r);
    hide Find, OpenUses, Flag, Remove, CallOf, Chronicle, Unrecorded;
    forall bad, reason, h
      ensures Chronicle(Flag(s.invalid, bad, sequence, reason, h), sequence)
    {
      FlagChronicle(s.invalid, bad, sequence, reason, h, reason);
    }
    if !e.operation.ObjectEnqueue? && e.phase.Enter? {
      var o, c := e.operation, e.cache;
      var cacheGone := (o.Destroy? || IsUse(o)) && c != "0x0" && c !in s.live;
      var sourceGone := o.Merge? && e.other != "0x0" && e.other !in s.live;
      FlagChronicle(s.invalid, cacheGone, sequence, UnobservedCache, c, UnobservedSource);
      FlagChronicle(s.invalid, cacheGone, sequence, UnobservedCache, c, DestroyDuringUse);
      var a := Flag(s.invalid, cacheGone, sequence, UnobservedCache, c);
      FlagChronicle(a, sourceGone, sequence, UnobservedSource, e.other, DestroyDuringUse);
      var b := Flag(a, sourceGone, sequence, UnobservedSource, e.other);
      FlagChronicle(b, o.Destroy? && OpenUses(s.pending, c) != {}, sequence, DestroyDuringUse, c, DestroyDuringUse);
    }
  }

  /** Each anomaly is recorded once, and the records are in event order. */
  lemma {:induction false} AnomaliesOnceInOrder(events: seq<Event>, n: nat, submits: bool)
    requires n <= |events| && Replay(events, n, submits).Some?
    ensures Chronicle(Replay(events, n, submits).value.invalid, n)
    decreases n
  {
    hide Step, Chronicle;
    if n > 0 {
      AnomaliesOnceInOrder(events, n - 1, submits);
      StepChronicle(Replay(events, n - 1, submits).value, n, events[n - 1], submits);
    } else {
      assert Chronicle([], 0) by { NothingChronicled(); }
    }
  }

  lemma NothingChronicled()
    ensures Chronicle([], 0)
  {
  }

  /** `invalid` is empty exactly when no event is anomalous. */
  lemma CleanLog(events: seq<Event>, n: nat, submits: bool)
    requires n <= |events| && Replay(events, n, submits).Some?
    ensures Replay(events, n, submits).value.invalid == [] <==>
      forall i: nat, reason, h :: i < n ==> !AnomalousAt(events, i, reason, h)
  {
    hide AnomalousAt, Replay;
    var invalid := Replay(events, n, submits).value.invalid;
    if invalid != [] {
      AnomaliesAreHistory(events, n, submits, invalid[0]);
    }
    forall i: nat, reason, h | i < n && AnomalousAt(events, i, reason, h)
      ensures invalid != []
    {
      AnomaliesAreHistory(events, n, submits, Anomaly(i + 1, reason, h));
    }
  }

  /** The fault marker's operation, cache and thread never match two calls. */
  lemma FaultMatchIsUnique(events: seq<Event>, n: nat, submits: bool, a: nat, b: nat)
    requires n <= |events| && Replay(events, n, submits).Some?
    requires var p := Replay(events, n, submits).value.pending;
      a < |p| && b < |p| && p[a].operation == p[b].operation && p[a].cache == p[b].cache && p[a].thread == p[b].thread
    ensures a == b
  {
    PendingIsOpenCalls(events, n, submits);
  }

  // ------------------------------------------------ the fault's verdict

  /** The fault marker: its call, the handles it names, and the module of each
      shader stage; "" where it has none. */
  datatype Marker = Marker(
    kind: Operation, thread: Option<Thread>, cache: Option<Handle>, submitted: Option<Handle>,
    shader: Handle, layout: Handle, pass: Handle, stages: seq<Handle>)

  datatype Status = Status(kind: Kind, handle: Handle, live: bool, queued: bool)

  datatype Verdict = Verdict(
    clean: bool, fault: Call, submitted: Handle, cacheLive: bool, objects: seq<Status>,
    onCache: seq<Overlap>, during: seq<Overlap>)

  function Matches(p: seq<Call>, m: Marker): seq<Call> {
    if p == [] then []
    else
      (if p[0].operation == m.kind && Some(p[0].cache) == m.cache && Some(p[0].thread) == m.thread then [p[0]] else [])
      + Matches(p[1..], m)
  }

  function Named(kind: Kind, handle: Handle): seq<(Kind, Handle)> {
    if handle == "" then [] else [(kind, handle)]
  }

  /** The objects the marker names; passes and stage modules only for graphics. */
  function FaultHandles(m: Marker): seq<(Kind, Handle)> {
    Named(Module, m.shader) + Named(Layout, m.layout)
    + if m.kind.Graphics? then Named(Pass, m.pass) + seq(|m.stages|, i requires 0 <= i < |m.stages| => (Module, m.stages[i]))
      else []
  }

  predicate ObjectsObserved(events: seq<Event>) {
    exists i :: 0 <= i < |events| && (events[i].operation.ObjectCreate? || events[i].operation.ObjectDestroy?)
  }

  function Statuses(handles: seq<(Kind, Handle)>, s: State): seq<Status> {
    seq(|handles|, i requires 0 <= i < |handles| =>
      Status(handles[i].0, handles[i].1, handles[i] in s.objects, handles[i] in s.queued))
  }

  function Since(overlaps: seq<Overlap>, cache: Handle, sequence: nat): seq<Overlap> {
    if overlaps == [] then []
    else
      (if overlaps[0].cache == cache && overlaps[0].sequence >= sequence then [overlaps[0]] else [])
      + Since(overlaps[1..], cache, sequence)
  }

  predicate AllLive(objects: seq<Status>) {
    forall i :: 0 <= i < |objects| ==> objects[i].live
  }

  /** The end of `analyze`: the verdict on the fault from the replayed state. */
  function Judge(events: seq<Event>, s: State, m: Marker): Option<Verdict> {
    var matches := Matches(s.pending, m);
    if |matches| != 1 then None
    else
      var fault := matches[0];
      var submitted := if m.submitted.Some? then m.submitted.value else fault.cache;
      if fault.submitted != submitted && submitted != NULL_HANDLE then None
      else if m.submitted.Some? && submitted == NULL_HANDLE
              && !(1 <= fault.sequence <= |events| && events[fault.sequence - 1].other == NULL_HANDLE)
      then None
      else
        var objects := if ObjectsObserved(events) then Statuses(FaultHandles(m), s) else [];
        var cacheLive := fault.cache == NULL_HANDLE || fault.cache in s.live;
        Some(Verdict(s.invalid == [] && cacheLive && AllLive(objects),
                     fault, submitted, cacheLive, objects,
                     Since(s.overlaps, fault.cache, 0), Since(s.overlaps, fault.cache, fault.sequence)))
  }

  /** The marker decides which handle a graphics or compute call submits. */
  method Report(events: seq<Event>, m: Marker) returns (v: Option<Verdict>)
    ensures var s := Replay(events, |events|, m.submitted.Some?);
      v == if s.None? then None else Judge(events, s.value, m)
  {
    var s := Analyze(events, m.submitted.Some?);
    v := if s.None? then None else Judge(events, s.value, m);
  }

  /** Call `i` is the marker's: same operation, cache and thread, entered and never
      returned; and the two agree on the cache that was submitted. */
  predicate FaultCall(events: seq<Event>, m: Marker, i: nat) {
    && Open(events, |events|, i)
    && var e := events[i];
       && m.kind == e.operation && m.cache == Some(e.cache) && m.thread == Some(e.thread)
       && match m.submitted
          case None => true
          case Some(h) =>
            if h == "0x0" then e.other == "0x0"
            else h == if e.operation in {Graphics, Compute} then e.other else e.cache
  }

  /** The marker names this object of its pipeline. */
  predicate NamesObject(m: Marker, o: (Kind, Handle)) {
    match o.0
    case Module => (o.1 == m.shader && o.1 != "") || (m.kind.Graphics? && o.1 in m.stages)
    case Layout => o.1 == m.layout && o.1 != ""
    case Pass => m.kind.Graphics? && o.1 == m.pass && o.1 != ""
    case Descriptor => false
  }

  lemma HandlesAreNamed(m: Marker, o: (Kind, Handle))
    ensures o in FaultHandles(m) <==> NamesObject(m, o)
  {
    var stages := seq(|m.stages|, i requires 0 <= i < |m.stages| => (Module, m.stages[i]));
    assert o in stages <==> o.0 == Module && o.1 in m.stages by {
      if o.0 == Module && o.1 in m.stages {
        var i :| 0 <= i < |m.stages| && m.stages[i] == o.1;
        assert stages[i] == o;
      }
    }
  }

  predicate Fits(c: Call, m: Marker) {
    m.kind == c.operation && m.cache == Some(c.cache) && m.thread == Some(c.thread)
  }

  lemma {:induction false} MatchesFit(p: seq<Call>, m: Marker)
    requires DistinctKeys(p)
    ensures |Matches(p, m)| <= 1
    ensures forall c :: c in Matches(p, m) <==> c in p && Fits(c, m)
    decreases |p|
  {
    if p != [] {
      MatchesFit(p[1..], m);
      assert p == [p[0]] + p[1..];
      forall c | c in p[1..] && Fits(c, m)
        ensures !Fits(p[0], m)
      {
        var k :| 0 <= k < |p[1..]| && p[1..][k] == c;
        assert p[k + 1] == c;
      }
      if Matches(p[1..], m) != [] {
        assert Matches(p[1..], m)[0] in Matches(p[1..], m);
      }
    }
  }

  lemma {:induction false} SinceListed(overlaps: seq<Overlap>, cache: Handle, sequence: nat, o: Overlap)
    ensures o in Since(overlaps, cache, sequence) <==> o in overlaps && o.cache == cache && o.sequence >= sequence
    decreases |overlaps|
  {
    if overlaps != [] {
      SinceListed(overlaps[1..], cache, sequence, o);
      assert overlaps == [overlaps[0]] + overlaps[1..];
    }
  }

  /** An open call that fits the marker, and whose submitted cache agrees. */
  lemma CallIsFault(events: seq<Event>, m: Marker, c: Call)
    requires IsOpenCall(events, |events|, c, m.submitted.Some?)
    ensures FaultCall(events, m, c.sequence - 1) <==>
      && Fits(c, m)
      && (m.submitted.Some? ==>
            if m.submitted.value == NULL_HANDLE then events[c.sequence - 1].other == NULL_HANDLE
            else c.submitted == m.submitted.value)
  {
    hide Open;
  }

  lemma MatchIsOpen(events: seq<Event>, p: seq<Call>, m: Marker)
    requires PendingIs(events, |events|, p, m.submitted.Some?) && DistinctKeys(p) && Matches(p, m) != []
    ensures |Matches(p, m)| == 1 && Fits(Matches(p, m)[0], m)
    ensures IsOpenCall(events, |events|, Matches(p, m)[0], m.submitted.Some?)
  {
    hide Fits, IsOpenCall, Matches;
    MatchesFit(p, m);
    var c := Matches(p, m)[0];
    assert c in Matches(p, m);
    var a :| 0 <= a < |p| && p[a] == c;
  }

  lemma FaultIsMatch(events: seq<Event>, p: seq<Call>, m: Marker, i: nat)
    requires PendingIs(events, |events|, p, m.submitted.Some?) && DistinctKeys(p) && FaultCall(events, m, i)
    ensures Matches(p, m) != [] && Matches(p, m)[0].sequence == i + 1
  {
    hide Matches, IsOpenCall, PendingIs, DistinctKeys, Open;
    var a := ListedAt(events, |events|, p, m.submitted.Some?, i);
    MatchesFit(p, m);
    assert p[a] in Matches(p, m);
    assert |Matches(p, m)| == 1;
  }

  lemma JudgesMatch(events: seq<Event>, s: State, m: Marker)
    requires |Matches(s.pending, m)| == 1 && Fits(Matches(s.pending, m)[0], m)
    requires IsOpenCall(events, |events|, Matches(s.pending, m)[0], m.submitted.Some?)
    ensures var c, v := Matches(s.pending, m)[0], Judge(events, s, m);
      && (v.Some? <==> FaultCall(events, m, c.sequence - 1))
      && (v.Some? ==> v.value.fault == c)
  {
    CallIsFault(events, m, Matches(s.pending, m)[0]);
    hide Matches, FaultCall, Statuses, FaultHandles, Since, ObjectsObserved, Open;
  }

  /** The verdict is on the open call of the marker, and there is none without one. */
  lemma JudgesFault(events: seq<Event>, s: State, m: Marker)
    requires PendingIs(events, |events|, s.pending, m.submitted.Some?) && DistinctKeys(s.pending)
    ensures Judge(events, s, m).None? <==> forall i: nat :: !FaultCall(events, m, i)
    ensures forall i: nat :: FaultCall(events, m, i) ==>
      && Judge(events, s, m).Some? && Judge(events, s, m).value.fault.sequence == i + 1
      && IsOpenCall(events, |events|, Judge(events, s, m).value.fault, m.submitted.Some?)
  {
    if Matches(s.pending, m) == [] {
      assert Judge(events, s, m).None?;
    } else {
      MatchIsOpen(events, s.pending, m);
      assert Matches(s.pending, m)[0].sequence >= 1;
      JudgesMatch(events, s, m);
    }
    hide Judge, Matches, FaultCall, PendingIs, DistinctKeys, IsOpenCall;
    forall i: nat | FaultCall(events, m, i)
      ensures Matches(s.pending, m) != [] && Matches(s.pending, m)[0].sequence == i + 1
    {
      FaultIsMatch(events, s.pending, m, i);
    }
  }

  /** The marker's objects with whether they live and are queued at the end of the log,
      if the log has any object's creation or destruction. */
  ghost predicate ObjectsAre(events: seq<Event>, m: Marker, objects: seq<Status>) {
    var observed := exists j :: 0 <= j < |events| && (events[j].operation.ObjectCreate? || events[j].operation.ObjectDestroy?);
    forall t :: t in objects <==>
      && observed && NamesObject(m, (t.kind, t.handle))
      && (t.live <==> LiveObject(events, |events|, (t.kind, t.handle)))
      && (t.queued <==> QueuedObject(events, |events|, (t.kind, t.handle)))
  }

  /** The marker's objects live at the end of the log, if it has any object's creation
      or destruction. */
  ghost predicate ObjectsLive(events: seq<Event>, m: Marker) {
    (exists j :: 0 <= j < |events| && (events[j].operation.ObjectCreate? || events[j].operation.ObjectDestroy?)) ==>
      forall o :: NamesObject(m, o) ==> LiveObject(events, |events|, o)
  }

  ghost predicate NothingAnomalous(events: seq<Event>) {
    forall i: nat, reason, h :: i < |events| ==> !AnomalousAt(events, i, reason, h)
  }

  /** The verdict field by field, in terms of the log and the marker. */
  ghost predicate VerdictIs(events: seq<Event>, m: Marker, i: nat, v: Verdict, overlaps: seq<Overlap>)
    requires FaultCall(events, m, i)
  {
    var e := events[i];
    && v.fault.sequence == i + 1 && Enters(v.fault, e, m.submitted.Some?)
    && v.submitted == (if m.submitted.Some? then m.submitted.value else e.cache)
    && (v.cacheLive <==> e.cache == "0x0" || Live(events, |events|, e.cache))
    && ObjectsAre(events, m, v.objects)
    && (forall o :: o in v.onCache <==> o in overlaps && o.cache == e.cache)
    && (forall o :: o in v.during <==> o in overlaps && o.cache == e.cache && o.sequence > i)
    && (v.clean <==> NothingAnomalous(events) && v.cacheLive && ObjectsLive(events, m))
  }

  lemma StatusesAre(events: seq<Event>, s: State, m: Marker)
    requires forall o :: o in s.objects <==> LiveObject(events, |events|, o)
    requires forall o :: o in s.queued <==> QueuedObject(events, |events|, o)
    ensures var objects := Statuses(FaultHandles(m), s);
      && (forall t :: t in objects <==>
            NamesObject(m, (t.kind, t.handle))
            && (t.live <==> LiveObject(events, |events|, (t.kind, t.handle)))
            && (t.queued <==> QueuedObject(events, |events|, (t.kind, t.handle))))
      && (AllLive(objects) <==> forall o :: NamesObject(m, o) ==> LiveObject(events, |events|, o))
  {
    hide LiveObject, QueuedObject, FaultHandles, NamesObject;
    var handles := FaultHandles(m);
    var objects := Statuses(handles, s);
    forall o
      ensures o in handles <==> NamesObject(m, o)
    {
      HandlesAreNamed(m, o);
    }
    forall t: Status | NamesObject(m, (t.kind, t.handle))
      && (t.live <==> LiveObject(events, |events|, (t.kind, t.handle)))
      && (t.queued <==> QueuedObject(events, |events|, (t.kind, t.handle)))
      ensures t in objects
    {
      var i :| 0 <= i < |handles| && handles[i] == (t.kind, t.handle);
      assert objects[i] == t;
    }
    if AllLive(objects) {
      forall o | NamesObject(m, o)
        ensures LiveObject(events, |events|, o)
      {
        var i :| 0 <= i < |handles| && handles[i] == o;
        assert objects[i].live;
      }
    }
  }

  lemma ObjectsJudged(events: seq<Event>, s: State, m: Marker)
    requires forall o :: o in s.objects <==> LiveObject(events, |events|, o)
    requires forall o :: o in s.queued <==> QueuedObject(events, |events|, o)
    ensures var objects := if ObjectsObserved(events) then Statuses(FaultHandles(m), s) else [];
      ObjectsAre(events, m, objects) && (AllLive(objects) <==> ObjectsLive(events, m))
  {
    StatusesAre(events, s, m);
    assert AllLive([]);
    hide LiveObject, QueuedObject, FaultHandles, NamesObject, Statuses, AllLive;
  }

  lemma JudgeFields(events: seq<Event>, s: State, m: Marker)
    ensures Judge(events, s, m).Some? ==>
      var v := Judge(events, s, m).value;
      var objects := if ObjectsObserved(events) then Statuses(FaultHandles(m), s) else [];
      && v.submitted == (if m.submitted.Some? then m.submitted.value else v.fault.cache)
      && v.cacheLive == (v.fault.cache == NULL_HANDLE || v.fault.cache in s.live) && v.objects == objects
      && v.onCache == Since(s.overlaps, v.fault.cache, 0) && v.during == Since(s.overlaps, v.fault.cache, v.fault.sequence)
      && (v.clean <==> s.invalid == [] && v.cacheLive && AllLive(objects))
  {
    hide Matches, Statuses, FaultHandles, Since, ObjectsObserved, AllLive;
  }

  lemma OverlapsSince(events: seq<Event>, s: State, m: Marker, cache: Handle, i: nat)
    ensures forall o :: o in Since(s.overlaps, cache, 0) <==> o in s.overlaps && o.cache == cache
    ensures forall o :: o in Since(s.overlaps, cache, i + 1) <==> o in s.overlaps && o.cache == cache && o.sequence > i
  {
    forall o
      ensures o in Since(s.overlaps, cache, 0) <==> o in s.overlaps && o.cache == cache
      ensures o in Since(s.overlaps, cache, i + 1) <==> o in s.overlaps && o.cache == cache && o.sequence > i
    {
      SinceListed(s.overlaps, cache, 0, o);
      SinceListed(s.overlaps, cache, i + 1, o);
    }
  }

  lemma NothingFlagged(events: seq<Event>, submits: bool)
    requires Replay(events, |events|, submits).Some?
    ensures Replay(events, |events|, submits).value.invalid == [] <==> NothingAnomalous(events)
  {
    hide Replay, AnomalousAt;
    CleanLog(events, |events|, submits);
  }

  lemma JudgesVerdict(events: seq<Event>, s: State, m: Marker, i: nat)
    requires FaultCall(events, m, i) && Judge(events, s, m).Some?
    requires var v := Judge(events, s, m).value; v.fault.sequence == i + 1 && Enters(v.fault, events[i], m.submitted.Some?)
    requires events[i].cache in s.live <==> Live(events, |events|, events[i].cache)
    requires s.invalid == [] <==> NothingAnomalous(events)
    requires var objects := if ObjectsObserved(events) then Statuses(FaultHandles(m), s) else [];
      ObjectsAre(events, m, objects) && (AllLive(objects) <==> ObjectsLive(events, m))
    ensures VerdictIs(events, m, i, Judge(events, s, m).value, s.overlaps)
  {
    assert i < |events|;
    hide Judge, FaultHandles, Statuses, Live, Since, AllLive, ObjectsObserved;
    hide FaultCall, NothingAnomalous, ObjectsAre, ObjectsLive;
    JudgeFields(events, s, m);
    OverlapsSince(events, s, m, events[i].cache, i);
  }

  lemma FaultIsPast(events: seq<Event>, m: Marker, i: nat)
    requires FaultCall(events, m, i)
    ensures i < |events|
  {
  }

  lemma CacheIsHistory(events: seq<Event>, submits: bool, i: nat)
    requires Replay(events, |events|, submits).Some? && i < |events|
    ensures events[i].cache in Replay(events, |events|, submits).value.live <==> Live(events, |events|, events[i].cache)
  {
    hide Replay, Live;
    SetsAreHistory(events, |events|, submits);
  }

  lemma ReplayedObjects(events: seq<Event>, submits: bool, m: Marker)
    requires Replay(events, |events|, submits).Some?
    ensures var s := Replay(events, |events|, submits).value;
      var objects := if ObjectsObserved(events) then Statuses(FaultHandles(m), s) else [];
      ObjectsAre(events, m, objects) && (AllLive(objects) <==> ObjectsLive(events, m))
  {
    hide Replay, Live, LiveObject, QueuedObject, ObjectsObserved, Statuses, FaultHandles, AllLive, ObjectsLive, ObjectsAre;
    SetsAreHistory(events, |events|, submits);
    ObjectsJudged(events, Replay(events, |events|, submits).value, m);
  }

  /** What `analyze` concludes of a log it replays: there is a verdict exactly if some
      unreturned call is the marker's. It is clean exactly if nothing in the log is
      anomalous and the call's cache and every object the marker names live at its end. */
  lemma JudgesExactly(events: seq<Event>, m: Marker)
    requires Replay(events, |events|, m.submitted.Some?).Some?
    ensures var s := Replay(events, |events|, m.submitted.Some?).value;
      && (Judge(events, s, m).None? <==> forall i: nat :: !FaultCall(events, m, i))
      && forall i: nat :: FaultCall(events, m, i) ==>
           Judge(events, s, m).Some? && VerdictIs(events, m, i, Judge(events, s, m).value, s.overlaps)
  {
    hide Replay, Judge, FaultCall, VerdictIs, PendingIs, DistinctKeys, Open;
    var n, submits := |events|, m.submitted.Some?;
    var s := Replay(events, n, submits).value;
    PendingIsOpenCalls(events, n, submits);
    JudgesFault(events, s, m);
    forall i: nat | FaultCall(events, m, i)
      ensures VerdictIs(events, m, i, Judge(events, s, m).value, s.overlaps)
    {
      assert i < |events| by { FaultIsPast(events, m, i); }
      CacheIsHistory(events, submits, i);
      NothingFlagged(events, submits);
      ReplayedObjects(events, submits, m);
      hide ObjectsAre, ObjectsLive, ObjectsObserved, AllLive, Statuses, FaultHandles, NothingAnomalous, Live;
      JudgesVerdict(events, s, m, i);
    }
  }
}
