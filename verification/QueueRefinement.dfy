/** The serial queue of `AlignedQueue` against its interleaved one: each whole call,
    and each whole `frame`, is a run of single accesses. */
module QueueRefinement {
  import opened Wrappers
  import opened AlignedQueue

  function StaleCount(taken: seq<Taken>): nat {
    if taken == [] then 0
    else StaleCount(taken[..|taken| - 1]) + if taken[|taken| - 1].fate.Stale? then 1 else 0
  }

  /** What the queue's owner sees of a system. */
  function Seen(s: System): Queue {
    Queue(s.packets, s.overflow, s.failure, s.closed, StaleCount(s.taken))
  }

  /** One callback thread, between calls. */
  predicate Alone(s: System) {
    s.callbacks == [Free]
  }

  /** Only the shared queue and flags may differ. */
  predicate OnlyQueue(s: System, t: System) {
    t == s.(packets := t.packets, overflow := t.overflow, failure := t.failure, enqueued := t.enqueued)
  }

  // -------------------------------------------------------- one callback

  /** A call and as many accesses as the longest one makes. */
  function Call(p: Packet): seq<Step> {
    [Enter(0, p), Advance(0)] + ([Advance(0), Advance(0)] + [Advance(0), Advance(0)])
  }

  lemma CallSteps(s: System, p: Packet)
    ensures var t := Do(Do(Do(s, Enter(0, p)), Advance(0)), Advance(0));
      Run(s, Call(p)) == Do(Do(Do(t, Advance(0)), Advance(0)), Advance(0))
  {
    hide Do;
    RunConcat(s, [Enter(0, p), Advance(0)], [Advance(0), Advance(0)] + [Advance(0), Advance(0)]);
    RunTwo(s, Enter(0, p), Advance(0));
    var t := Do(Do(s, Enter(0, p)), Advance(0));
    RunConcat(t, [Advance(0), Advance(0)], [Advance(0), Advance(0)]);
    RunTwo(t, Advance(0), Advance(0));
    RunTwo(Do(Do(t, Advance(0)), Advance(0)), Advance(0), Advance(0));
  }

  predicate At(s: System, c: Callback) {
    s.callbacks == [c]
  }

  lemma Moves(s: System, c: Callback)
    requires At(s, c)
    ensures Do(s, Advance(0)) ==
      match c
      case Free => s
      case NoFailure(p) => s.(callbacks := [if s.overflow then TooLate else NoOverflow(p)])
      case NoOverflow(p) => s.(callbacks := [if s.closed then Free else Putting(p)])
      case Putting(p) =>
        if |s.packets| >= 32 then s.(callbacks := [Refused(p)])
        else s.(callbacks := [Free], packets := s.packets + [p], enqueued := s.enqueued + [p])
      case TooLate => s.(callbacks := [Free], failure := Some(OverflowBefore))
      case Refused(p) => s.(callbacks := [Full(p)], overflow := true)
      case Full(p) => s.(callbacks := [Free], failure := Some(OverflowAt(p.frame)))
  {
    assert forall d: Callback :: s.callbacks[0 := d] == [d];
  }

  lemma Enters(s: System, p: Packet)
    requires Alone(s)
    ensures Do(s, Enter(0, p)) == if s.failure.Some? then s else s.(callbacks := [NoFailure(p)])
  {
    assert s.callbacks[0 := NoFailure(p)] == [NoFailure(p)];
  }

  /** Six accesses of one callback. */
  lemma SixAccesses(s: System, p: Packet)
    requires Alone(s)
    ensures var t := Do(Do(Do(Do(Do(Do(s, Enter(0, p)), Advance(0)), Advance(0)), Advance(0)), Advance(0)), Advance(0));
      Alone(t) && OnlyQueue(s, t) && Seen(t) == Deliver(Seen(s), p)
  {
    hide Do, StaleCount;
    Enters(s, p);
    var a := Do(s, Enter(0, p));
    Moves(a, a.callbacks[0]);
    var b := Do(a, Advance(0));
    Moves(b, b.callbacks[0]);
    var c := Do(b, Advance(0));
    Moves(c, c.callbacks[0]);
    var d := Do(c, Advance(0));
    Moves(d, d.callbacks[0]);
    var e := Do(d, Advance(0));
    Moves(e, e.callbacks[0]);
  }

  /** A call of a single thread, run alone, is `Deliver`. */
  lemma CallIsDeliver(s: System, p: Packet)
    requires Alone(s)
    ensures var t := Run(s, Call(p)); Alone(t) && OnlyQueue(s, t) && Seen(t) == Deliver(Seen(s), p)
  {
    hide *;
    CallSteps(s, p);
    SixAccesses(s, p);
  }

  function Calls(packets: seq<Packet>): seq<Step> {
    if packets == [] then [] else Call(packets[0]) + Calls(packets[1..])
  }

  lemma {:induction false} CallsAreDeliveries(s: System, packets: seq<Packet>)
    requires Alone(s)
    ensures var t := Run(s, Calls(packets));
      Alone(t) && OnlyQueue(s, t) && Seen(t) == DeliverAll(Seen(s), packets)
    decreases |packets|
  {
    hide Do, Call, Deliver, Seen;
    if packets != [] {
      CallIsDeliver(s, packets[0]);
      RunConcat(s, Call(packets[0]), Calls(packets[1..]));
      CallsAreDeliveries(Run(s, Call(packets[0])), packets[1..]);
    }
  }

  // ------------------------------------------------------ one `frame`

  lemma RunOne(s: System, steps: seq<Step>, step: Step)
    ensures Run(s, steps + [step]) == Do(Run(s, steps), step)
  {
    hide Do;
    assert (steps + [step])[..|steps|] == steps;
  }

  lemma StaleAppend(taken: seq<Taken>, t: Taken)
    ensures StaleCount(taken + [t]) == StaleCount(taken) + if t.fate.Stale? then 1 else 0
  {
    assert (taken + [t])[..|taken|] == taken;
  }

  /** What the consumer hands out: `r` as the last packet taken, or none. */
  predicate Gives(s: System, t: System, expected: int, r: Option<Packet>) {
    && ReturnedCount(t.taken) == ReturnedCount(s.taken) + (if r.Some? then 1 else 0)
    && (r.Some? ==> t.taken != [] && t.taken[|t.taken| - 1] == Taken(r.value, Returned(expected)))
  }

  /** The end of a run of the consumer: it is idle again, with this result. */
  predicate Ends(s: System, t: System, expected: int, result: (Option<Packet>, Queue)) {
    Alone(t) && t.consumer.Idle? && Seen(t) == result.1 && Gives(s, t, expected, result.0)
  }

  /** Deliveries while the consumer stays where it is. */
  lemma Deliveries(s: System, steps: seq<Step>, packets: seq<Packet>) returns (t: System)
    requires Alone(Run(s, steps))
    ensures t == Run(s, steps + Calls(packets)) && Alone(t)
    ensures t.consumer == Run(s, steps).consumer && t.taken == Run(s, steps).taken
    ensures Seen(t) == DeliverAll(Seen(Run(s, steps)), packets)
  {
    hide Run, Calls, DeliverAll, Seen, Alone;
    RunConcat(s, steps, Calls(packets));
    CallsAreDeliveries(Run(s, steps), packets);
    t := Run(s, steps + Calls(packets));
  }

  lemma Heads(s: System, expected: int)
    requires s.consumer == Waiting(expected)
    ensures Do(s, Head) == s.(consumer := if s.overflow then Idle else Ready(expected))
    ensures Do(s, TimeOut) == s.(consumer := Idle)
  {
  }

  lemma Gets(s: System, expected: int)
    requires s.consumer == Ready(expected)
    ensures Do(s, TimeOut) == s.(consumer := Idle)
    ensures s.packets != [] ==> Do(s, Get) == s.(consumer := Holding(expected, s.packets[0]), packets := s.packets[1..])
  {
  }

  lemma Settles(s: System, expected: int, p: Packet)
    requires s.consumer == Holding(expected, p)
    ensures var t := Do(s, Settle);
      if p.frame < 0 || p.frame > expected || (p.frame == expected && s.overflow) then
        t == s.(consumer := Idle, taken := s.taken + [Taken(p, Rejected(expected))])
      else if p.frame < expected then
        t == s.(consumer := Waiting(expected), taken := s.taken + [Taken(p, Stale(expected))])
      else t == s.(consumer := Idle, taken := s.taken + [Taken(p, Returned(expected))])
  {
  }

  lemma SeenSettled(s: System, t: System, fate: Fate, p: Packet)
    requires t == s.(consumer := t.consumer, taken := s.taken + [Taken(p, fate)])
    ensures Seen(t) == if fate.Stale? then Seen(s).(stale := Seen(s).stale + 1) else Seen(s)
    ensures ReturnedCount(t.taken) == ReturnedCount(s.taken) + if fate.Returned? then 1 else 0
    ensures t.taken[|t.taken| - 1] == Taken(p, fate)
  {
    StaleAppend(s.taken, Taken(p, fate));
    CountAppend(s.taken, Taken(p, fate));
    hide StaleCount, ReturnedCount;
  }

  /** A pass up to `get`: the run so far, the packets seen, and whether it goes on. */
  lemma PassUntilGet(s: System, expected: int, w: Wait) returns (steps: seq<Step>, t: System)
    requires Alone(s) && s.consumer == Waiting(expected)
    ensures t == Run(s, steps) && Alone(t) && t.taken == s.taken
    ensures var a := DeliverAll(Seen(s), w.early);
      var b := DeliverAll(a, w.middle);
      if a.overflow || w.expired then t.consumer.Idle? && Seen(t) == a
      else if b.packets == [] then t.consumer.Idle? && Seen(t) == b
      else t.consumer == Holding(expected, b.packets[0]) && Seen(t) == b.(packets := b.packets[1..])
  {
    hide Run, Calls, Do, DeliverAll, StaleCount;
    RunNothing(s);
    var s1 := Deliveries(s, [], w.early);
    steps := [] + Calls(w.early);
    Heads(s1, expected);
    RunOne(s, steps, Head);
    steps := steps + [Head];
    t := Do(s1, Head);
    if !s1.overflow {
      Gets(t, expected);
      if w.expired {
        RunOne(s, steps, TimeOut);
        steps := steps + [TimeOut];
        t := Do(t, TimeOut);
      } else {
        var s3 := Deliveries(s, steps, w.middle);
        steps := steps + Calls(w.middle);
        Gets(s3, expected);
        var last := if s3.packets == [] then TimeOut else Get;
        RunOne(s, steps, last);
        steps := steps + [last];
        t := Do(s3, last);
      }
    }
  }

  lemma RunNothing(s: System)
    ensures Run(s, []) == s
  {
  }

  /** The waiting loop is a run of single accesses of the two threads. */
  lemma {:induction false} TakeIsARun(s: System, expected: int, waits: seq<Wait>) returns (steps: seq<Step>)
    requires Alone(s) && s.consumer == Waiting(expected)
    ensures Ends(s, Run(s, steps), expected, Take(Seen(s), expected, waits))
    decreases |waits|, |s.packets|
  {
    hide Run, Calls, Do, DeliverAll, StaleCount, ReturnedCount;
    var (w, rest) := if waits == [] then (QUIET, []) else (waits[0], waits[1..]);
    var t: System;
    steps, t := PassUntilGet(s, expected, w);
    if t.consumer.Holding? {
      var p := t.consumer.packet;
      var u := Deliveries(s, steps, w.late);
      steps := steps + Calls(w.late);
      Settles(u, expected, p);
      RunOne(s, steps, Settle);
      steps := steps + [Settle];
      var v := Do(u, Settle);
      SeenSettled(u, v, v.taken[|v.taken| - 1].fate, p);
      if 0 <= p.frame < expected {
        assert waits == [] ==> |v.packets| < |s.packets| by {
          NothingArrives(s, w, waits);
          NothingDelivered(Seen(t));
        }
        var more := TakeIsARun(v, expected, rest);
        RunConcat(s, steps, more);
        steps := steps + more;
      }
    }
  }

  lemma NothingArrives(s: System, w: Wait, waits: seq<Wait>)
    requires waits == [] ==> w == QUIET
    ensures waits == [] ==> DeliverAll(DeliverAll(Seen(s), w.early), w.middle) == Seen(s)
  {
    NothingDelivered(Seen(s));
  }

  lemma Begins(s: System, expected: int)
    requires s.consumer.Idle?
    ensures var t := Do(s, Begin(expected));
      && t == (if s.failure.Some? then s else s.(consumer := Begun(expected)))
      && (s.failure.None? ==> Do(t, Proceed) == s.(consumer := if s.overflow then Idle else Waiting(expected)))
  {
  }

  /** Every serial `frame`, whatever arrives around its passes, is a run of single
      accesses of the consumer and one callback thread: the same queue is left, and
      the same packet is handed out. So what holds over every run holds of it. */
  lemma FrameIsARun(s: System, expected: int, waits: seq<Wait>) returns (steps: seq<Step>)
    requires Alone(s) && s.consumer.Idle?
    ensures Ends(s, Run(s, steps), expected, Frame(Seen(s), expected, waits))
  {
    hide Run, Do, Take, StaleCount, ReturnedCount;
    Begins(s, expected);
    if s.failure.Some? {
      steps := [];
      RunNothing(s);
    } else {
      steps := [Begin(expected), Proceed];
      RunTwo(s, Begin(expected), Proceed);
      var t := Run(s, steps);
      if !s.overflow {
        var more := TakeIsARun(t, expected, waits);
        RunConcat(s, steps, more);
        steps := steps + more;
      }
    }
  }
}
