/** check_carla_runtime.py, `AlignedQueue`: sensor callbacks fill a bounded queue
    from which the gate takes the packet of each world frame. */
module AlignedQueue {
  import opened Wrappers

  const QUEUE_SIZE := 32
  const WARMUP := 10

  datatype Packet = Packet(frame: int, stamp: real)

  datatype Failure = OverflowBefore | OverflowAt(frame: int)

  // --------------------------------------------- one thread at a time

  datatype Queue = Queue(
    packets: seq<Packet>, overflow: bool, failure: Option<Failure>, closed: bool, stale: nat)

  const EMPTY := Queue([], false, None, false, 0)

  /** `__call__` */
  function Deliver(q: Queue, p: Packet): Queue {
    if q.failure.Some? then q
    else if q.overflow then q.(failure := Some(OverflowBefore))
    else if q.closed then q
    else if |q.packets| >= QUEUE_SIZE then q.(overflow := true, failure := Some(OverflowAt(p.frame)))
    else q.(packets := q.packets + [p])
  }

  function DeliverAll(q: Queue, packets: seq<Packet>): Queue
    decreases |packets|
  {
    if packets == [] then q else DeliverAll(Deliver(q, packets[0]), packets[1..])
  }

  /** One pass of the waiting loop: the packets delivered before the overflow
      check, whether the deadline has passed, the packets delivered before `get`
      returns or gives up, and those delivered before the last check. */
  datatype Wait = Wait(early: seq<Packet>, expired: bool, middle: seq<Packet>, late: seq<Packet>)

  const QUIET := Wait([], false, [], [])

  /** The loop of `frame`, while `waits` says what happens around each pass; after
      them nothing more arrives, and an empty queue times out. */
  function Take(q: Queue, expected: int, waits: seq<Wait>): (Option<Packet>, Queue)
    decreases |waits|, |q.packets|
  {
    var (w, rest) := if waits == [] then (QUIET, []) else (waits[0], waits[1..]);
    var a := DeliverAll(q, w.early);
    if a.overflow || w.expired then (None, a)
    else
      var b := DeliverAll(a, w.middle);
      if b.packets == [] then (None, b)
      else
        var p, c := b.packets[0], DeliverAll(b.(packets := b.packets[1..]), w.late);
        if p.frame < 0 then (None, c)
        else if p.frame < expected then Take(c.(stale := c.stale + 1), expected, rest)
        else if p.frame != expected || c.overflow then (None, c)
        else (Some(p), c)
  }

  /** `frame`: None where it raises. */
  function Frame(q: Queue, expected: int, waits: seq<Wait>): (Option<Packet>, Queue) {
    if q.failure.Some? || q.overflow then (None, q) else Take(q, expected, waits)
  }

  class Stream {
    var packets: seq<Packet>
    var overflow: bool
    var failure: Option<Failure>
    var closed: bool
    var stale: nat

    function View(): Queue
      reads this
    {
      Queue(packets, overflow, failure, closed, stale)
    }

    constructor ()
      ensures View() == EMPTY
    {
      packets, overflow, failure, closed, stale := [], false, None, false, 0;
    }

    method Call(p: Packet)
      modifies this
      ensures View() == Deliver(old(View()), p)
    {
      if failure.Some? {
        return;
      }
      if overflow {
        failure := Some(OverflowBefore);
        return;
      }
      if closed {
        return;
      }
      if |packets| < QUEUE_SIZE {
        packets := packets + [p];
      } else {
        overflow := true;
        failure := Some(OverflowAt(p.frame));
      }
    }

    method CallEach(packets: seq<Packet>)
      modifies this
      ensures View() == DeliverAll(old(View()), packets)
    {
      hide Deliver;
      for i := 0 to |packets|
        invariant DeliverAll(View(), packets[i..]) == DeliverAll(old(View()), packets)
      {
        assert packets[i..][0] == packets[i] && packets[i..][1..] == packets[i + 1..];
        Call(packets[i]);
      }
    }

    method NextFrame(expected: int, waits: seq<Wait>) returns (r: Option<Packet>)
      modifies this
      ensures (r, View()) == Frame(old(View()), expected, waits)
    {
      hide DeliverAll;
      if failure.Some? || overflow {
        return None;
      }
      var coming := waits;
      NothingDelivered(View());
      while true
        invariant Frame(old(View()), expected, waits) == Take(View(), expected, coming)
        decreases |coming|, |packets|
      {
        var w := if coming == [] then QUIET else coming[0];
        NothingDelivered(View());
        coming := if coming == [] then [] else coming[1..];
        CallEach(w.early);
        if overflow || w.expired {
          return None;
        }
        NothingDelivered(View());
        CallEach(w.middle);
        if packets == [] {
          return None;
        }
        var packet := packets[0];
        packets := packets[1..];
        NothingDelivered(View());
        CallEach(w.late);
        if packet.frame < 0 {
          return None;
        }
        if packet.frame < expected {
          stale := stale + 1;
          continue;
        }
        if packet.frame != expected || overflow {
          return None;
        }
        return Some(packet);
      }
    }
  }

  lemma NothingDelivered(q: Queue)
    ensures DeliverAll(q, []) == q
  {
  }

  function Arrivals(waits: seq<Wait>): seq<Packet> {
    if waits == [] then [] else waits[0].early + waits[0].middle + waits[0].late + Arrivals(waits[1..])
  }

  lemma {:induction false} DeliveriesAreBounded(q: Queue, packets: seq<Packet>)
    requires |q.packets| <= QUEUE_SIZE
    ensures var t := DeliverAll(q, packets);
      && |t.packets| <= QUEUE_SIZE && t.stale == q.stale && (q.overflow ==> t.overflow)
      && forall p :: p in t.packets ==> p in q.packets || p in packets
    decreases |packets|
  {
    if packets != [] {
      DeliveriesAreBounded(Deliver(q, packets[0]), packets[1..]);
    }
  }

  /** The packet handed out is of the frame asked for, and was queued or arrived;
      never more than 32 are held. */
  lemma {:induction false} NeverMisaligned(q: Queue, expected: int, waits: seq<Wait>)
    requires |q.packets| <= QUEUE_SIZE
    ensures var (r, t) := Take(q, expected, waits);
      && (r.Some? ==> r.value.frame == expected && !t.overflow && (r.value in q.packets || r.value in Arrivals(waits)))
      && |t.packets| <= QUEUE_SIZE && t.stale >= q.stale
    decreases |waits|, |q.packets|
  {
    hide Deliver, DeliverAll;
    var (w, rest) := if waits == [] then (QUIET, []) else (waits[0], waits[1..]);
    NothingDelivered(q);
    DeliveriesAreBounded(q, w.early);
    var a := DeliverAll(q, w.early);
    DeliveriesAreBounded(a, w.middle);
    var b := DeliverAll(a, w.middle);
    if !a.overflow && !w.expired && b.packets != [] {
      NothingDelivered(b.(packets := b.packets[1..]));
      DeliveriesAreBounded(b.(packets := b.packets[1..]), w.late);
      var c := DeliverAll(b.(packets := b.packets[1..]), w.late);
      if 0 <= b.packets[0].frame < expected {
        NeverMisaligned(c.(stale := c.stale + 1), expected, rest);
      }
    }
  }

  // ------------------------------------------------ one packet per frame

  /** Packets of consecutive frames from `first` on. */
  predicate InOrder(packets: seq<Packet>, first: int) {
    forall i :: 0 <= i < |packets| ==> packets[i].frame == first + i
  }

  /** Nothing happens in the first `n` passes. */
  predicate Still(waits: seq<Wait>, n: nat) {
    forall k :: 0 <= k < n && k < |waits| ==> waits[k] == QUIET
  }

  /** Within the `stale` passes over older packets and the one after them exactly
      the packet `p` arrives, no later than the last `get`. */
  predicate Comes(waits: seq<Wait>, stale: nat, p: Packet)
    decreases |waits|
  {
    && waits != [] && !waits[0].expired
    && (|| (waits[0].early + waits[0].middle == [p] && waits[0].late == [] && Still(waits[1..], stale))
        || (stale > 0 && waits[0].early + waits[0].middle == [] && waits[0].late == [p] && Still(waits[1..], stale))
        || (stale > 0 && waits[0] == QUIET && Comes(waits[1..], stale - 1, p)))
  }

  /** The most packets queued at any moment of `Take`. */
  function TakePeak(q: Queue, expected: int, waits: seq<Wait>): nat
    decreases |waits|, |q.packets|
  {
    var (w, rest) := if waits == [] then (QUIET, []) else (waits[0], waits[1..]);
    var a := DeliverAll(q, w.early);
    if a.overflow || w.expired then Larger(|q.packets|, |a.packets|)
    else
      var b := DeliverAll(a, w.middle);
      if b.packets == [] then Larger(|q.packets|, |a.packets|)
      else
        var p, c := b.packets[0], DeliverAll(b.(packets := b.packets[1..]), w.late);
        var here := Larger(|q.packets|, Larger(|a.packets|, Larger(|b.packets|, |c.packets|)));
        if 0 <= p.frame < expected then Larger(here, TakePeak(c.(stale := c.stale + 1), expected, rest)) else here
  }

  function Larger(a: nat, b: nat): nat {
    if a < b then b else a
  }

  /** All that is queued or arrives is `older` packets of the frames before
      `expected` and the one of `expected`: the older ones are dropped. */
  predicate OneAhead(q: Queue, expected: int, waits: seq<Wait>, p: Packet, older: nat) {
    && !q.overflow && q.failure.None? && !q.closed && older < QUEUE_SIZE - 1 && expected >= older && p.frame == expected
    && ((q.packets != [] && q.packets[|q.packets| - 1] == p && |q.packets| == older + 1
         && InOrder(q.packets, expected - older) && Still(waits, older + 1))
        || (|q.packets| == older && InOrder(q.packets, expected - older) && Comes(waits, older, p)))
  }

  lemma DeliverOne(q: Queue, p: Packet)
    requires !q.overflow && q.failure.None? && !q.closed && |q.packets| < QUEUE_SIZE
    ensures DeliverAll(q, [p]) == q.(packets := q.packets + [p])
    ensures DeliverAll(q, []) == q
  {
    assert [p][1..] == [];
    NothingDelivered(Deliver(q, p));
  }

  lemma EitherHalf(a: seq<Packet>, b: seq<Packet>, p: Packet)
    requires a + b == [p]
    ensures (a == [p] && b == []) || (a == [] && b == [p])
  {
    if |a| == 1 {
      assert a == (a + b)[..1];
    } else {
      assert b == a + b;
    }
  }

  /** What arrives in one pass before `get`, and what after it. */
  predicate Brings(w: Wait, before: seq<Packet>, after: seq<Packet>) {
    !w.expired && w.early + w.middle == before && w.late == after
  }

  lemma PassEffect(q: Queue, w: Wait, before: seq<Packet>, after: seq<Packet>, p: Packet)
    requires !q.overflow && q.failure.None? && !q.closed && |q.packets| < QUEUE_SIZE
    requires Brings(w, before, after) && (before == [] || before == [p]) && (after == [] || after == [p])
    requires before == [] || after == []
    requires q.packets + before != []
    ensures var a := DeliverAll(q, w.early);
      && !a.overflow && |a.packets| <= |q.packets| + |before|
      && var b := DeliverAll(a, w.middle);
      && b == q.(packets := q.packets + before)
      && DeliverAll(b.(packets := b.packets[1..]), w.late) == q.(packets := (q.packets + before)[1..] + after)
  {
    if before == [p] {
      EitherHalf(w.early, w.middle, p);
    }
    DeliverOne(q, p);
    hide DeliverAll, Deliver;
    NothingDelivered(q.(packets := q.packets + before));
    var rest := q.(packets := (q.packets + before)[1..]);
    DeliverOne(rest, p);
    assert q.packets + [] == q.packets && rest.packets + [] == rest.packets;
  }

  /** One unfolding of the loop over a pass that brings these packets. */
  lemma TakeStep(q: Queue, expected: int, waits: seq<Wait>, before: seq<Packet>, after: seq<Packet>, p: Packet)
    requires !q.overflow && q.failure.None? && !q.closed && |q.packets| < QUEUE_SIZE && q.packets + before != []
    requires Brings(if waits == [] then QUIET else waits[0], before, after)
    requires (before == [] || before == [p]) && (after == [] || after == [p]) && (before == [] || after == [])
    ensures var head, c := (q.packets + before)[0], q.(packets := (q.packets + before)[1..] + after);
      var rest := if waits == [] then [] else waits[1..];
      && (0 <= head.frame < expected ==>
            && Take(q, expected, waits) == Take(c.(stale := c.stale + 1), expected, rest)
            && TakePeak(q, expected, waits)
               <= Larger(|q.packets| + |before| + |after|, TakePeak(c.(stale := c.stale + 1), expected, rest)))
      && (head.frame == expected >= 0 ==>
            && Take(q, expected, waits) == (Some(head), c)
            && TakePeak(q, expected, waits) <= |q.packets| + |before| + |after|)
  {
    PassEffect(q, if waits == [] then QUIET else waits[0], before, after, p);
    hide DeliverAll, Deliver;
  }

  lemma {:induction false} TakesOwn(q: Queue, expected: int, waits: seq<Wait>, p: Packet, older: nat)
    requires OneAhead(q, expected, waits, p, older)
    ensures Take(q, expected, waits) == (Some(p), q.(packets := [], stale := q.stale + older))
    ensures TakePeak(q, expected, waits) <= older + 1
    decreases older
  {
    hide DeliverAll, Deliver, Take, TakePeak;
    var (w, rest) := if waits == [] then (QUIET, []) else (waits[0], waits[1..]);
    var before := if |q.packets| == older && w.early + w.middle == [p] then [p] else [];
    var after := if |q.packets| == older && before == [] && w.late == [p] then [p] else [];
    assert Brings(w, before, after);
    assert [] + before == before && q.packets + [] == q.packets;
    assert older == 0 ==> (q.packets + before) == [p] && after == [];

    TakeStep(q, expected, waits, before, after, p);
    if older > 0 {
      var c := q.(packets := (q.packets + before)[1..] + after, stale := q.stale + 1);
      assert (q.packets + before)[0].frame == expected - older;
      assert OneAhead(c, expected, rest, p, older - 1);
      TakesOwn(c, expected, rest, p, older - 1);
    }
  }

  // ------------------------------------- callbacks and consumer interleaved

  /** Where a callback thread is: between calls; past its failure, overflow or
      closed check; turned away by one of the two failure branches. */
  datatype Callback =
    | Free
    | NoFailure(packet: Packet)
    | NoOverflow(packet: Packet)
    | Putting(packet: Packet)
    | TooLate
    | Refused(packet: Packet)
    | Full(packet: Packet)

  /** Where the gate is inside `frame`. */
  datatype Consumer =
    | Idle
    | Begun(expected: int)
    | Waiting(expected: int)
    | Ready(expected: int)
    | Holding(expected: int, packet: Packet)

  /** What became of a packet taken from the queue. */
  datatype Fate = Returned(expected: int) | Stale(expected: int) | Rejected(expected: int)

  datatype Taken = Taken(packet: Packet, fate: Fate)

  /** The shared queue, the threads, and the history of packets in and out. */
  datatype System = System(
    packets: seq<Packet>, overflow: bool, failure: Option<Failure>, closed: bool,
    consumer: Consumer, callbacks: seq<Callback>, enqueued: seq<Packet>, taken: seq<Taken>)

  /** A callback is entered or moves on; the queue is closed; the consumer enters
      `frame`, passes its second check or the loop's, gets a packet, gives up, or
      decides about the packet it holds. */
  datatype Step =
    | Enter(thread: nat, packet: Packet)
    | Advance(thread: nat)
    | Close
    | Begin(expected: int)
    | Proceed
    | Head
    | Get
    | TimeOut
    | Settle

  function SetThread(s: System, i: nat, c: Callback): System
    requires i < |s.callbacks|
  {
    s.(callbacks := s.callbacks[i := c])
  }

  function Outcome(s: System, fate: Fate): System
    requires s.consumer.Holding?
  {
    s.(consumer := Idle, taken := s.taken + [Taken(s.consumer.packet, fate)])
  }

  /** The next access of a callback to the shared flags or the queue. */
  function Move(s: System, i: nat): System
    requires i < |s.callbacks|
  {
    match s.callbacks[i]
    case Free => s
    case NoFailure(p) => SetThread(s, i, if s.overflow then TooLate else NoOverflow(p))
    case NoOverflow(p) => SetThread(s, i, if s.closed then Free else Putting(p))
    case Putting(p) =>
      if |s.packets| >= QUEUE_SIZE then SetThread(s, i, Refused(p))
      else SetThread(s, i, Free).(packets := s.packets + [p], enqueued := s.enqueued + [p])
    case TooLate => SetThread(s, i, Free).(failure := Some(OverflowBefore))
    case Refused(p) => SetThread(s, i, Full(p)).(overflow := true)
    case Full(p) => SetThread(s, i, Free).(failure := Some(OverflowAt(p.frame)))
  }

  /** One access to shared state; a step that is not enabled changes nothing. */
  function Do(s: System, step: Step): System {
    match step
    case Enter(i, p) =>
      if i >= |s.callbacks| || !s.callbacks[i].Free? || s.failure.Some? then s else SetThread(s, i, NoFailure(p))
    case Advance(i) => if i >= |s.callbacks| then s else Move(s, i)
    case Close => s.(closed := true)
    case Begin(e) => if !s.consumer.Idle? || s.failure.Some? then s else s.(consumer := Begun(e))
    case Proceed =>
      if !s.consumer.Begun? then s
      else s.(consumer := if s.overflow then Idle else Waiting(s.consumer.expected))
    case Head =>
      if !s.consumer.Waiting? then s
      else s.(consumer := if s.overflow then Idle else Ready(s.consumer.expected))
    case Get =>
      if !s.consumer.Ready? || s.packets == [] then s
      else s.(consumer := Holding(s.consumer.expected, s.packets[0]), packets := s.packets[1..])
    case TimeOut =>
      if s.consumer.Waiting? || s.consumer.Ready? then s.(consumer := Idle) else s
    case Settle =>
      if !s.consumer.Holding? then s
      else
        var e, p := s.consumer.expected, s.consumer.packet;
        if p.frame < 0 || p.frame > e then Outcome(s, Rejected(e))
        else if p.frame < e then Outcome(s, Stale(e)).(consumer := Waiting(e))
        else if s.overflow then Outcome(s, Rejected(e))
        else Outcome(s, Returned(e))
  }

  function Run(s: System, steps: seq<Step>): System {
    if steps == [] then s else Do(Run(s, steps[..|steps| - 1]), steps[|steps| - 1])
  }

  function PacketsOf(taken: seq<Taken>): seq<Packet> {
    seq(|taken|, i requires 0 <= i < |taken| => taken[i].packet)
  }

  function Held(c: Consumer): seq<Packet> {
    if c.Holding? then [c.packet] else []
  }

  /** Bounded; every packet ever enqueued is, in order, returned, stale, rejected,
      held or still queued; only packets of the awaited frame are returned. */
  predicate Conserved(s: System) {
    && |s.packets| <= QUEUE_SIZE
    && s.enqueued == PacketsOf(s.taken) + Held(s.consumer) + s.packets
    && (forall t :: t in s.taken ==>
          match t.fate
          case Returned(e) => t.packet.frame == e
          case Stale(e) => 0 <= t.packet.frame < e
          case Rejected(e) => t.packet.frame < 0 || t.packet.frame > e || s.overflow)
    && (s.failure.Some? ==> s.overflow)
    && forall i :: 0 <= i < |s.callbacks| && (s.callbacks[i].Full? || s.callbacks[i].TooLate?) ==> s.overflow
  }

  lemma PacketsAppend(taken: seq<Taken>, t: Taken)
    ensures PacketsOf(taken + [t]) == PacketsOf(taken) + [t.packet]
  {
  }

  lemma GetConserves(s: System)
    requires Conserved(s)
    ensures Conserved(Do(s, Get))
  {
    hide PacketsOf;
    if s.consumer.Ready? && s.packets != [] {
      assert s.packets == [s.packets[0]] + s.packets[1..];
      var head := PacketsOf(s.taken);
      assert head + [] + s.packets == head + [s.packets[0]] + s.packets[1..];
    }
  }

  lemma SettleConserves(s: System)
    requires Conserved(s)
    ensures Conserved(Do(s, Settle))
  {
    if s.consumer.Holding? {
      PacketsAppend(s.taken, Do(s, Settle).taken[|s.taken|]);
      hide PacketsOf;
      assert Do(s, Settle).enqueued == PacketsOf(Do(s, Settle).taken) + [] + s.packets;
    }
  }

  lemma AdvanceConserves(s: System, i: nat)
    requires Conserved(s)
    ensures Conserved(Do(s, Advance(i)))
  {
    hide PacketsOf, Held;
    if i < |s.callbacks| && s.callbacks[i].Putting? {
      var head, p := PacketsOf(s.taken) + Held(s.consumer), s.callbacks[i].packet;
      assert head + (s.packets + [p]) == (head + s.packets) + [p];
    }
  }

  lemma DoConserves(s: System, step: Step)
    requires Conserved(s)
    ensures Conserved(Do(s, step))
  {
    hide PacketsOf;
    match step
    case Advance(i) =>
      AdvanceConserves(s, i);
    case Get =>
      GetConserves(s);
    case Settle =>
      SettleConserves(s);
    case _ =>
      hide Move;
  }

  /** For any number of callback threads and every interleaving of their steps
      with the consumer's. */
  lemma {:induction false} EveryRunConserves(s: System, steps: seq<Step>)
    requires Conserved(s)
    ensures Conserved(Run(s, steps))
    decreases |steps|
  {
    hide Do, Conserved;
    if steps != [] {
      EveryRunConserves(s, steps[..|steps| - 1]);
      DoConserves(Run(s, steps[..|steps| - 1]), steps[|steps| - 1]);
    }
  }

  function ReturnedCount(taken: seq<Taken>): nat {
    if taken == [] then 0
    else ReturnedCount(taken[..|taken| - 1]) + if taken[|taken| - 1].fate.Returned? then 1 else 0
  }

  /** Overflow is final: it is never cleared and no packet is returned after it. */
  lemma {:induction false} NothingAfterOverflow(s: System, steps: seq<Step>)
    requires s.overflow
    ensures Run(s, steps).overflow && ReturnedCount(Run(s, steps).taken) == ReturnedCount(s.taken)
    decreases |steps|
  {
    hide Do, ReturnedCount;
    if steps != [] {
      NothingAfterOverflow(s, steps[..|steps| - 1]);
      StepAfterOverflow(Run(s, steps[..|steps| - 1]), steps[|steps| - 1]);
    }
  }

  lemma StepAfterOverflow(s: System, step: Step)
    requires s.overflow
    ensures Do(s, step).overflow && ReturnedCount(Do(s, step).taken) == ReturnedCount(s.taken)
  {
    hide ReturnedCount;
    if step.Settle? && s.consumer.Holding? {
      hide Move, SetThread;
      CountAppend(s.taken, Do(s, step).taken[|s.taken|]);
    } else {
      assert Do(s, step).taken == s.taken;
    }
  }

  lemma CountAppend(taken: seq<Taken>, t: Taken)
    ensures ReturnedCount(taken + [t]) == ReturnedCount(taken) + if t.fate.Returned? then 1 else 0
  {
    assert (taken + [t])[..|taken|] == taken;
  }

  /** At most one callback: it finds the flags as it left them. */
  predicate Serial(s: System) {
    && |s.callbacks| <= 1
    && (s.callbacks == [] ==> s.failure.None?)
    && forall i :: 0 <= i < |s.callbacks| ==>
         match s.callbacks[i]
         case Free => s.overflow <==> s.failure.Some?
         case TooLate => false
         case Full(_) => s.overflow && s.failure.None?
         case _ => !s.overflow && s.failure.None?
  }

  lemma SerialStep(s: System, step: Step)
    requires Serial(s)
    ensures Serial(Do(s, step)) && (s.failure.Some? ==> Do(s, step).failure == s.failure)
  {
  }

  lemma {:induction false} FirstFailureIsKept(s: System, steps: seq<Step>)
    requires Serial(s)
    ensures Serial(Run(s, steps)) && (s.failure.Some? ==> Run(s, steps).failure == s.failure)
    decreases |steps|
  {
    hide Do, Serial;
    if steps != [] {
      FirstFailureIsKept(s, steps[..|steps| - 1]);
      SerialStep(Run(s, steps[..|steps| - 1]), steps[|steps| - 1]);
    }
  }

  /** Whatever the number of callbacks, a failure is never cleared. */
  lemma {:induction false} FailureNeverClears(s: System, steps: seq<Step>)
    requires s.failure.Some?
    ensures Run(s, steps).failure.Some?
    decreases |steps|
  {
    if steps != [] {
      FailureNeverClears(s, steps[..|steps| - 1]);
    }
  }

  // ------------------------------------------- when the first failure stays

  /** A new queue, called back by `n` threads. */
  function Fresh(n: nat): System {
    System([], false, None, false, Idle, seq(n, _ => Free), [], [])
  }

  /** Whatever happens after a failure, it stays the one recorded. */
  ghost predicate Sticky(s: System) {
    forall steps, more :: Run(s, steps).failure.Some? ==> Run(s, steps + more).failure == Run(s, steps).failure
  }

  lemma {:induction false} RunConcat(s: System, steps: seq<Step>, more: seq<Step>)
    ensures Run(s, steps + more) == Run(Run(s, steps), more)
    decreases |more|
  {
    hide Do;
    if more == [] {
      assert steps + more == steps;
    } else {
      RunConcat(s, steps, more[..|more| - 1]);
      assert (steps + more)[..|steps + more| - 1] == steps + more[..|more| - 1];
    }
  }

  lemma RunTwo(s: System, a: Step, b: Step)
    ensures Run(s, [a, b]) == Do(Do(s, a), b)
  {
    hide Do;
    assert [a, b][..1] == [a] && [a][..0] == [];
    assert Run(s, []) == s;
    assert Run(s, [a]) == Do(s, a);
  }

  /** One whole call: entered, then failure, overflow and closed checks and `put`. */
  function Delivery(thread: nat, p: Packet): seq<Step> {
    [Enter(thread, p), Advance(thread)] + [Advance(thread), Advance(thread)]
  }

  lemma DeliverySteps(s: System, i: nat, p: Packet)
    ensures Run(s, Delivery(i, p)) == Do(Do(Do(Do(s, Enter(i, p)), Advance(i)), Advance(i)), Advance(i))
  {
    hide Do;
    RunConcat(s, [Enter(i, p), Advance(i)], [Advance(i), Advance(i)]);
    RunTwo(s, Enter(i, p), Advance(i));
    RunTwo(Run(s, [Enter(i, p), Advance(i)]), Advance(i), Advance(i));
  }

  predicate Quiet(s: System) {
    !s.overflow && s.failure.None? && !s.closed
  }

  lemma Checks(s: System, i: nat, p: Packet)
    requires Quiet(s) && i < |s.callbacks| && s.callbacks[i].Free?
    ensures Do(Do(Do(s, Enter(i, p)), Advance(i)), Advance(i)) == s.(callbacks := s.callbacks[i := Putting(p)])
  {
    var c := s.callbacks;
    var entered, checked := s.(callbacks := c[i := NoFailure(p)]), s.(callbacks := c[i := NoOverflow(p)]);
    assert Do(s, Enter(i, p)) == entered;
    assert Do(entered, Advance(i)) == checked by {
      assert c[i := NoFailure(p)][i := NoOverflow(p)] == c[i := NoOverflow(p)];
    }
    assert c[i := NoOverflow(p)][i := Putting(p)] == c[i := Putting(p)];
  }

  lemma Puts(s: System, i: nat, p: Packet)
    requires Quiet(s) && i < |s.callbacks| && s.callbacks[i].Free?
    ensures Do(s.(callbacks := s.callbacks[i := Putting(p)]), Advance(i)) ==
      if |s.packets| < QUEUE_SIZE then s.(packets := s.packets + [p], enqueued := s.enqueued + [p])
      else s.(callbacks := s.callbacks[i := Refused(p)])
  {
    var c := s.callbacks;
    assert c[i := Putting(p)][i := Free] == c && c[i := Putting(p)][i := Refused(p)] == c[i := Refused(p)];
  }

  /** A delivery that meets no flag ends in the queue, or refused by a full one. */
  lemma OneDelivery(s: System, i: nat, p: Packet)
    requires Quiet(s) && i < |s.callbacks| && s.callbacks[i].Free?
    ensures Run(s, Delivery(i, p)) ==
      if |s.packets| < QUEUE_SIZE then s.(packets := s.packets + [p], enqueued := s.enqueued + [p])
      else s.(callbacks := s.callbacks[i := Refused(p)])
  {
    hide Do, Run, Delivery, Quiet;
    DeliverySteps(s, i, p);
    Checks(s, i, p);
    Puts(s, i, p);
  }

  /** Nothing has been refused: the flags are clear and the threads free. */
  predicate Open(s: System, threads: nat, n: nat) {
    && |s.packets| == n && Quiet(s) && |s.callbacks| == threads
    && forall i :: 0 <= i < threads ==> s.callbacks[i].Free?
  }

  /** `n` packets delivered by thread 0 while nobody reads. */
  function Fill(n: nat): seq<Step> {
    if n == 0 then [] else Fill(n - 1) + Delivery(0, Packet(n, 0.0))
  }

  lemma FillStep(s: System, threads: nat, n: nat, p: Packet)
    requires Open(s, threads, n) && threads >= 1 && n < QUEUE_SIZE
    ensures Open(Run(s, Delivery(0, p)), threads, n + 1)
  {
    hide Run, Delivery;
    OneDelivery(s, 0, p);
  }

  lemma FillMore(threads: nat, n: nat)
    requires threads >= 1 && 0 < n <= QUEUE_SIZE && Open(Run(Fresh(threads), Fill(n - 1)), threads, n - 1)
    ensures Open(Run(Fresh(threads), Fill(n)), threads, n)
  {
    var last := Packet(n, 0.0);
    assert Fill(n) == Fill(n - 1) + Delivery(0, last);
    hide *;
    RunConcat(Fresh(threads), Fill(n - 1), Delivery(0, last));
    FillStep(Run(Fresh(threads), Fill(n - 1)), threads, n - 1, last);
  }

  lemma FillNone(threads: nat)
    ensures Open(Run(Fresh(threads), Fill(0)), threads, 0)
  {
    assert Run(Fresh(threads), []) == Fresh(threads);
    hide Do;
  }

  lemma {:induction false} Filled(threads: nat, n: nat)
    requires threads >= 1 && n <= QUEUE_SIZE
    ensures Open(Run(Fresh(threads), Fill(n)), threads, n)
  {
    hide *;
    if n == 0 {
      FillNone(threads);
    } else {
      Filled(threads, n - 1);
      FillMore(threads, n);
    }
  }

  /** A refused callback sets the overflow flag, then the failure. */
  lemma RefusedFails(s: System, i: nat)
    requires i < |s.callbacks| && s.callbacks[i].Refused?
    ensures var t := Run(s, [Advance(i), Advance(i)]);
      t.failure == Some(OverflowAt(s.callbacks[i].packet.frame)) && t.callbacks == s.callbacks[i := Free]
  {
    RunTwo(s, Advance(i), Advance(i));
    hide Run;
    var c, p := s.callbacks, s.callbacks[i].packet;
    assert c[i := Full(p)][i := Free] == c[i := Free];
  }

  /** Two callbacks that both find the queue full. */
  function TwoRefused(): seq<Step> {
    Fill(QUEUE_SIZE) + Delivery(0, Packet(33, 0.0)) + Delivery(1, Packet(34, 0.0))
  }

  lemma BothRefused(threads: nat)
    requires threads >= 2
    ensures var t := Run(Fresh(threads), TwoRefused());
      |t.callbacks| == threads && t.callbacks[0] == Refused(Packet(33, 0.0)) && t.callbacks[1] == Refused(Packet(34, 0.0))
  {
    hide Fill, Run, Do, Delivery, Fresh;
    var s, a, b := Fresh(threads), Packet(33, 0.0), Packet(34, 0.0);
    var full := Fill(QUEUE_SIZE);
    Filled(threads, QUEUE_SIZE);
    RunConcat(s, full, Delivery(0, a));
    RunConcat(s, full + Delivery(0, a), Delivery(1, b));
    TwoRefusals(Run(s, full), threads, a, b);
  }

  lemma TwoRefusals(s: System, threads: nat, a: Packet, b: Packet)
    requires Open(s, threads, QUEUE_SIZE) && threads >= 2
    ensures var t := Run(Run(s, Delivery(0, a)), Delivery(1, b));
      |t.callbacks| == threads && t.callbacks[0] == Refused(a) && t.callbacks[1] == Refused(b)
  {
    hide Run, Delivery;
    OneDelivery(s, 0, a);
    OneDelivery(Run(s, Delivery(0, a)), 1, b);
  }

  /** With any two callbacks the failure for frame 33 is replaced by that for
      frame 34. */
  lemma ConcurrentFailureIsReplaced(threads: nat)
    requires threads >= 2
    ensures var steps := TwoRefused() + [Advance(0), Advance(0)];
      && Run(Fresh(threads), steps).failure == Some(OverflowAt(33))
      && Run(Fresh(threads), steps + [Advance(1), Advance(1)]).failure == Some(OverflowAt(34))
  {
    var s, both := Fresh(threads), TwoRefused();
    BothRefused(threads);
    hide TwoRefused, Run, Do;
    RunConcat(s, both, [Advance(0), Advance(0)]);
    RunConcat(s, both + [Advance(0), Advance(0)], [Advance(1), Advance(1)]);
    RefusedFails(Run(s, both), 0);
    RefusedFails(Run(s, both + [Advance(0), Advance(0)]), 1);
  }

  /** The promise that the first failure is sticky holds exactly while at most one
      thread calls back. */
  lemma FirstFailureIsSticky(threads: nat)
    ensures Sticky(Fresh(threads)) <==> threads <= 1
  {
    hide Run, Do, TwoRefused;
    if threads <= 1 {
      forall steps, more
        ensures Run(Fresh(threads), steps).failure.Some? ==>
          Run(Fresh(threads), steps + more).failure == Run(Fresh(threads), steps).failure
      {
        FirstFailureIsKept(Fresh(threads), steps);
        FirstFailureIsKept(Run(Fresh(threads), steps), more);
        RunConcat(Fresh(threads), steps, more);
      }
    } else {
      ConcurrentFailureIsReplaced(threads);
      var steps, more := TwoRefused() + [Advance(0), Advance(0)], [Advance(1), Advance(1)];
      assert Run(Fresh(threads), steps + more).failure != Run(Fresh(threads), steps).failure;
    }
  }
}
