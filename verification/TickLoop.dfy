/** check_carla_runtime.py: world ticks with bounded drift, and sensor samples of
    the right frames. */
module TickLoop {
  import opened Wrappers
  import Q = AlignedQueue

  const STEP := 0.05
  const TOLERANCE := 0.0001

  function Abs(r: real): real {
    if r < 0.0 then -r else r
  }

  // -------------------------------------------------------------- ticks

  datatype Snapshot = Snapshot(frame: int, stampFrame: int, elapsed: real, delta: real)
  datatype WorldTime = WorldTime(frame: int, elapsed: real, delta: real)

  /** `validate_snapshot`: None where it raises. */
  function ValidateSnapshot(s: Snapshot, previous: Option<WorldTime>, tick: Option<int>): Option<WorldTime> {
    if s.frame < 0 || s.stampFrame != s.frame || s.elapsed < 0.0 || s.delta < 0.0 then None
    else if tick.Some? && tick.value != s.frame then None
    else if previous.Some?
      && !(s.frame == previous.value.frame + 1 && s.elapsed > previous.value.elapsed
           && Abs(s.elapsed - previous.value.elapsed - STEP) <= TOLERANCE && Abs(s.delta - STEP) <= TOLERANCE)
    then None
    else Some(WorldTime(s.frame, s.elapsed, s.delta))
  }

  /** The conditions spelled out: consistent stamps, the ticked frame, and against the
      previous snapshot the next frame, advancing by one step within the tolerance. */
  lemma SnapshotAccepted(s: Snapshot, previous: Option<WorldTime>, tick: Option<int>)
    ensures ValidateSnapshot(s, previous, tick).Some? <==>
      && s.frame >= 0 && s.stampFrame == s.frame && s.elapsed >= 0.0 && s.delta >= 0.0
      && (tick.Some? ==> tick.value == s.frame)
      && (previous.Some? ==>
            var p := previous.value;
            && s.frame == p.frame + 1 && s.elapsed > p.elapsed
            && p.elapsed + 0.0499 <= s.elapsed <= p.elapsed + 0.0501 && 0.0499 <= s.delta <= 0.0501)
    ensures ValidateSnapshot(s, previous, tick).Some? ==>
      ValidateSnapshot(s, previous, tick).value == WorldTime(s.frame, s.elapsed, s.delta)
  {
  }

  /** Everything one tick of the sensor mode brings: the frame `world.tick`
      returns, the snapshot, the packets delivered to each stream since the tick
      began and while the gate waits, and the verdicts on the two payloads. */
  datatype Tick = Tick(
    frame: int, snapshot: Snapshot, camera: seq<Q.Packet>, lidar: seq<Q.Packet>,
    cameraWaits: seq<Q.Wait>, lidarWaits: seq<Q.Wait>, image: Option<string>, points: bool)

  /** The world time after `n` validated ticks. */
  function WorldAfter(baseline: WorldTime, ticks: seq<Tick>, n: nat): Option<WorldTime>
    requires n <= |ticks|
    decreases n
  {
    if n == 0 then Some(baseline)
    else
      var previous :- WorldAfter(baseline, ticks, n - 1);
      ValidateSnapshot(ticks[n - 1].snapshot, Some(previous), Some(ticks[n - 1].frame))
  }

  /** Single-tick tolerances add up, no more: after `n` ticks the frame is exact
      and the elapsed time has drifted by at most n tolerances. */
  lemma {:induction false} DriftIsBounded(baseline: WorldTime, ticks: seq<Tick>, n: nat)
    requires n <= |ticks| && WorldAfter(baseline, ticks, n).Some?
    ensures var now := WorldAfter(baseline, ticks, n).value;
      && now.frame == baseline.frame + n
      && Abs(now.elapsed - (baseline.elapsed + STEP * n as real)) <= TOLERANCE * n as real
      && (n > 0 ==> now.elapsed > baseline.elapsed)
    decreases n
  {
    if n > 0 {
      DriftIsBounded(baseline, ticks, n - 1);
      assert STEP * n as real == STEP * (n - 1) as real + STEP;
      assert TOLERANCE * n as real == TOLERANCE * (n - 1) as real + TOLERANCE;
    }
  }

  // ------------------------------------------------------ sensor samples

  datatype Sample = Sample(frame: int, elapsed: real, camera: Q.Packet, lidar: Q.Packet)

  datatype Sensors = Sensors(
    previous: WorldTime, camera: Q.Queue, lidar: Q.Queue, samples: seq<Sample>, images: set<string>)

  predicate Healthy(q: Q.Queue) {
    q.failure.None? && !q.overflow
  }

  /** `_packet_frame` */
  predicate OfWorld(p: Q.Packet, w: WorldTime) {
    p.frame >= 0 && p.frame == w.frame && Abs(p.stamp - w.elapsed) <= TOLERANCE
  }

  /** The stage `ticks` of a pass raises: an unhealthy stream or a bad snapshot. */
  predicate TickRaises(s: Sensors, a: Tick) {
    !Healthy(s.camera) || !Healthy(s.lidar) || ValidateSnapshot(a.snapshot, Some(s.previous), Some(a.frame)).None?
  }

  function CameraFrame(s: Sensors, a: Tick): (Option<Q.Packet>, Q.Queue) {
    Q.Frame(Q.DeliverAll(s.camera, a.camera), a.frame, a.cameraWaits)
  }

  function LidarFrame(s: Sensors, a: Tick): (Option<Q.Packet>, Q.Queue) {
    Q.Frame(Q.DeliverAll(s.lidar, a.lidar), a.frame, a.lidarWaits)
  }

  /** The stage `alignment` of a pass raises. */
  predicate AlignRaises(s: Sensors, a: Tick)
    requires !TickRaises(s, a)
  {
    var now := ValidateSnapshot(a.snapshot, Some(s.previous), Some(a.frame)).value;
    var c, l := CameraFrame(s, a).0, LidarFrame(s, a).0;
    c.None? || l.None? || !OfWorld(c.value, now) || !OfWorld(l.value, now)
  }

  /** One pass of the tick loop in sensor mode: None where it raises. */
  function SensorTick(s: Sensors, index: nat, a: Tick): Option<Sensors> {
    if TickRaises(s, a) then None
    else
      var now := ValidateSnapshot(a.snapshot, Some(s.previous), Some(a.frame)).value;
      if index < Q.WARMUP then
        Some(Sensors(now, Q.DeliverAll(s.camera, a.camera), Q.DeliverAll(s.lidar, a.lidar), s.samples, s.images))
      else if AlignRaises(s, a) || a.image.None? || !a.points then None
      else
        var (c, camera) := CameraFrame(s, a);
        var (l, lidar) := LidarFrame(s, a);
        Some(Sensors(now, camera, lidar, s.samples + [Sample(a.frame, now.elapsed, c.value, l.value)],
                     s.images + {a.image.value}))
  }

  function SensorTicks(baseline: WorldTime, ticks: seq<Tick>, n: nat): Option<Sensors>
    requires n <= |ticks|
    decreases n
  {
    if n == 0 then Some(Sensors(baseline, Q.EMPTY, Q.EMPTY, [], {}))
    else
      var s :- SensorTicks(baseline, ticks, n - 1);
      SensorTick(s, n - 1, ticks[n - 1])
  }

  /** A pass goes through exactly when both streams were healthy, the snapshot is
      accepted and, once measuring, both streams give a packet of the snapshot's frame
      and time, a varying image and valid points. */
  lemma PassExactly(s: Sensors, index: nat, a: Tick)
    ensures SensorTick(s, index, a).Some? <==>
      && s.camera.failure.None? && !s.camera.overflow && s.lidar.failure.None? && !s.lidar.overflow
      && var now := ValidateSnapshot(a.snapshot, Some(s.previous), Some(a.frame));
      && now.Some?
      && (index >= 10 ==>
            var c := Q.Frame(Q.DeliverAll(s.camera, a.camera), a.frame, a.cameraWaits).0;
            var l := Q.Frame(Q.DeliverAll(s.lidar, a.lidar), a.frame, a.lidarWaits).0;
            && c.Some? && l.Some?
            && c.value.frame == l.value.frame == now.value.frame >= 0
            && -0.0001 <= c.value.stamp - now.value.elapsed <= 0.0001
            && -0.0001 <= l.value.stamp - now.value.elapsed <= 0.0001
            && a.image.Some? && a.points)
    ensures SensorTick(s, index, a).Some? ==>
      var t := SensorTick(s, index, a).value;
      && t.samples[..|s.samples|] == s.samples && |t.samples| == |s.samples| + (if index >= 10 then 1 else 0)
      && t.images == (if index >= 10 then s.images + {a.image.value} else s.images)
      && t.previous == ValidateSnapshot(a.snapshot, Some(s.previous), Some(a.frame)).value
      && var (c, l) := (Q.DeliverAll(s.camera, a.camera), Q.DeliverAll(s.lidar, a.lidar));
      && t.camera == (if index >= 10 then Q.Frame(c, a.frame, a.cameraWaits).1 else c)
      && t.lidar == (if index >= 10 then Q.Frame(l, a.frame, a.lidarWaits).1 else l)
      && (index >= 10 ==>
            var x := t.samples[|s.samples|];
            && x.frame == a.frame && x.elapsed == t.previous.elapsed
            && Q.Frame(c, a.frame, a.cameraWaits).0 == Some(x.camera) && Q.Frame(l, a.frame, a.lidarWaits).0 == Some(x.lidar))
  {
    hide Q.Frame, Q.DeliverAll, ValidateSnapshot;
  }

  predicate Overflowed(s: Sensors) {
    s.camera.overflow || s.lidar.overflow
  }

  /** The checks after the loop: no overflow, and the images change. */
  function SensorRun(baseline: WorldTime, ticks: seq<Tick>): Option<seq<Sample>> {
    var s :- SensorTicks(baseline, ticks, |ticks|);
    if Overflowed(s) || |s.images| < 2 then None else Some(s.samples)
  }

  lemma {:induction false} ImagesAre(baseline: WorldTime, ticks: seq<Tick>, n: nat)
    requires n <= |ticks| && SensorTicks(baseline, ticks, n).Some?
    ensures forall v :: v in SensorTicks(baseline, ticks, n).value.images <==>
      exists i :: 10 <= i < n && ticks[i].image == Some(v)
    decreases n
  {
    hide SensorTick;
    if n > 0 {
      ImagesAre(baseline, ticks, n - 1);
      PassExactly(SensorTicks(baseline, ticks, n - 1).value, n - 1, ticks[n - 1]);
    }
  }

  lemma TwoMembers<T>(s: set<T>)
    ensures |s| >= 2 <==> exists u, v :: u in s && v in s && u != v
  {
    if |s| >= 2 {
      assert s != {};
      var u :| u in s;
      var rest := s - {u};
      assert |rest| == |s| - 1;
      assert rest != {};
      var v :| v in rest;
      assert u in s && v in s && u != v;
    }
    if u, v :| u in s && v in s && u != v {
      assert s == (s - {u, v}) + {u, v};
      assert |s| == |s - {u, v}| + 2;
    }
  }

  /** Two measured ticks show different images. */
  predicate Varying(ticks: seq<Tick>) {
    exists i, j :: 10 <= i < |ticks| && 10 <= j < |ticks| && DifferentImages(ticks[i], ticks[j])
  }

  predicate DifferentImages(a: Tick, b: Tick) {
    a.image.Some? && b.image.Some? && a.image.value != b.image.value
  }

  /** The run completes exactly when every tick goes through, neither stream has
      overflowed, and the images vary. */
  lemma RunExactly(baseline: WorldTime, ticks: seq<Tick>)
    ensures SensorRun(baseline, ticks).Some? <==>
      && SensorTicks(baseline, ticks, |ticks|).Some?
      && !SensorTicks(baseline, ticks, |ticks|).value.camera.overflow
      && !SensorTicks(baseline, ticks, |ticks|).value.lidar.overflow
      && Varying(ticks)
  {
    hide SensorTicks;
    if SensorTicks(baseline, ticks, |ticks|).Some? {
      var images := SensorTicks(baseline, ticks, |ticks|).value.images;
      ImagesAre(baseline, ticks, |ticks|);
      TwoMembers(images);
      if |images| >= 2 {
        var u, v :| u in images && v in images && u != v;
        var i :| 10 <= i < |ticks| && ticks[i].image == Some(u);
        var j :| 10 <= j < |ticks| && ticks[j].image == Some(v);
        assert DifferentImages(ticks[i], ticks[j]);
      }
      if Varying(ticks) {
        var i, j :| 10 <= i < |ticks| && 10 <= j < |ticks| && DifferentImages(ticks[i], ticks[j]);
        var u, v := ticks[i].image.value, ticks[j].image.value;
        assert ticks[i].image == Some(u) && ticks[j].image == Some(v);
        assert u in images && v in images;
      }
    }
  }

  lemma {:induction false} FailedTicksStay(baseline: WorldTime, ticks: seq<Tick>, m: nat, n: nat)
    requires m <= n <= |ticks| && SensorTicks(baseline, ticks, m).None?
    ensures SensorTicks(baseline, ticks, n).None?
    decreases n
  {
    hide SensorTick;
    if m < n {
      FailedTicksStay(baseline, ticks, m, n - 1);
    }
  }

  /** The tick loop of `run_gate` in sensor mode. */
  method RunSensorTicks(baseline: WorldTime, ticks: seq<Tick>) returns (samples: Option<seq<Sample>>)
    ensures samples == SensorRun(baseline, ticks)
  {
    hide Q.Deliver, Q.Frame, Q.DeliverAll, ValidateSnapshot;
    var camera := new Q.Stream();
    var lidar := new Q.Stream();
    var previous := baseline;
    var taken: seq<Sample> := [];
    var images: set<string> := {};
    for index := 0 to |ticks|
      invariant camera != lidar && fresh(camera) && fresh(lidar)
      invariant SensorTicks(baseline, ticks, index) ==
        Some(Sensors(previous, camera.View(), lidar.View(), taken, images))
    {
      var a := ticks[index];
      ghost var next := SensorTicks(baseline, ticks, index + 1);
      if next.None? {
        FailedTicksStay(baseline, ticks, index + 1, |ticks|);
      }
      if camera.failure.Some? || camera.overflow || lidar.failure.Some? || lidar.overflow {
        return None;
      }
      camera.CallEach(a.camera);
      lidar.CallEach(a.lidar);
      var now := ValidateSnapshot(a.snapshot, Some(previous), Some(a.frame));
      if now.None? {
        return None;
      }
      previous := now.value;
      if index < Q.WARMUP {
        continue;
      }
      var c := camera.NextFrame(a.frame, a.cameraWaits);
      if c.None? {
        return None;
      }
      var l := lidar.NextFrame(a.frame, a.lidarWaits);
      if l.None? || !OfWorld(c.value, now.value) || !OfWorld(l.value, now.value) || a.image.None? || !a.points {
        return None;
      }
      images := images + {a.image.value};
      taken := taken + [Sample(a.frame, now.value.elapsed, c.value, l.value)];
    }
    if camera.overflow || lidar.overflow || |images| < 2 {
      return None;
    }
    samples := Some(taken);
  }

  /** The `i`-th sample is that of the `i`-th measured tick: the requested
      consecutive frame, with both packets of that frame and its time. */
  predicate SampleOf(x: Sample, baseline: WorldTime, i: nat) {
    var n := 11 + i;
    && x.frame == baseline.frame + n
    && x.camera.frame == x.frame && x.lidar.frame == x.frame
    && Abs(x.camera.stamp - x.elapsed) <= TOLERANCE && Abs(x.lidar.stamp - x.elapsed) <= TOLERANCE
    && Abs(x.elapsed - (baseline.elapsed + STEP * n as real)) <= TOLERANCE * n as real
  }

  lemma {:induction false} SamplesSoFar(baseline: WorldTime, ticks: seq<Tick>, n: nat)
    requires n <= |ticks| && SensorTicks(baseline, ticks, n).Some?
    ensures var s := SensorTicks(baseline, ticks, n).value;
      && WorldAfter(baseline, ticks, n) == Some(s.previous)
      && |s.samples| == (if n <= 10 then 0 else n - 10)
      && forall i :: 0 <= i < |s.samples| ==> SampleOf(s.samples[i], baseline, i)
    decreases n
  {
    hide Q.Frame, Q.DeliverAll, ValidateSnapshot, SampleOf;
    if n > 0 {
      SamplesSoFar(baseline, ticks, n - 1);
      DriftIsBounded(baseline, ticks, n);
      var s := SensorTicks(baseline, ticks, n).value;
      if n > 10 {
        NewSample(s.samples[n - 11], baseline, ticks, n);
      }
    }
  }

  lemma NewSample(x: Sample, baseline: WorldTime, ticks: seq<Tick>, n: nat)
    requires 10 < n <= |ticks| && WorldAfter(baseline, ticks, n).Some?
    requires var now := WorldAfter(baseline, ticks, n).value;
      x.frame == ticks[n - 1].frame && x.elapsed == now.elapsed && OfWorld(x.camera, now) && OfWorld(x.lidar, now)
    ensures SampleOf(x, baseline, n - 11)
  {
    DriftIsBounded(baseline, ticks, n);
  }

  /** A sensor run that completes has one sample for each requested tick, of
      exactly the consecutive frames after warm-up. */
  lemma SamplesAreAligned(baseline: WorldTime, ticks: seq<Tick>)
    requires SensorRun(baseline, ticks).Some? && |ticks| >= 10
    ensures var samples := SensorRun(baseline, ticks).value;
      && |samples| == |ticks| - 10
      && forall i :: 0 <= i < |samples| ==> SampleOf(samples[i], baseline, i)
  {
    SamplesSoFar(baseline, ticks, |ticks|);
  }

  /** A stream's one packet of tick `n`, delivered before the gate waits for it or
      while it does; a warm-up packet is only delivered. */
  ghost predicate OnePacket(packets: seq<Q.Packet>, waits: seq<Q.Wait>, frame: int, n: nat) {
    var older := if n == 10 then 10 else 0;
    || (|packets| == 1 && packets[0].frame == frame && (n >= 10 ==> Q.Still(waits, older + 1)))
    || (n >= 10 && packets == [] && exists p: Q.Packet :: p.frame == frame && Q.Comes(waits, older, p))
  }

  /** One in-order packet per tick on each stream. */
  ghost predicate InTurn(baseline: WorldTime, ticks: seq<Tick>) {
    forall n :: 0 <= n < |ticks| ==>
      && OnePacket(ticks[n].camera, ticks[n].cameraWaits, baseline.frame + n + 1, n)
      && OnePacket(ticks[n].lidar, ticks[n].lidarWaits, baseline.frame + n + 1, n)
  }

  /** A stream before tick `n`: the warm-up packets, then nothing but their count. */
  predicate Backlog(q: Q.Queue, first: int, n: nat) {
    && Healthy(q) && !q.closed
    && |q.packets| == (if n <= 10 then n else 0) && Q.InOrder(q.packets, first)
    && q.stale == if n <= 10 then 0 else 10
  }

  /** The most packets a stream holds during tick `n`. */
  function PeakDuring(q: Q.Queue, packets: seq<Q.Packet>, frame: int, waits: seq<Q.Wait>, n: nat): nat {
    var filled := Q.DeliverAll(q, packets);
    Q.Larger(|filled.packets|, if n < 10 then 0 else Q.TakePeak(filled, frame, waits))
  }

  lemma StreamTick(q: Q.Queue, packets: seq<Q.Packet>, waits: seq<Q.Wait>, first: int, n: nat)
    requires first > 0 && Backlog(q, first, n) && OnePacket(packets, waits, first + n, n)
    ensures n < 10 ==> Backlog(Q.DeliverAll(q, packets), first, n + 1)
    ensures n >= 10 ==>
      var (r, t) := Q.Frame(Q.DeliverAll(q, packets), first + n, waits);
      r.Some? && r.value.frame == first + n && Backlog(t, first, n + 1)
    ensures PeakDuring(q, packets, first + n, waits, n) <= 11
  {
    hide Q.DeliverAll, Q.Deliver, Q.Take, Q.TakePeak, Q.Comes, Q.Still;
    if |packets| == 1 {
      assert packets == [packets[0]];
      Q.DeliverOne(q, packets[0]);
    } else {
      Q.NothingDelivered(q);
    }
    if n >= 10 {
      var filled := Q.DeliverAll(q, packets);
      var older := if n == 10 then 10 else 0;
      var p: Q.Packet :| p.frame == first + n && (if |packets| == 1 then p == packets[0] else Q.Comes(waits, older, p));
      Q.TakesOwn(filled, first + n, waits, p, older);
    }
  }

  lemma {:induction false} BacklogIsKept(baseline: WorldTime, ticks: seq<Tick>, n: nat)
    requires n <= |ticks| && baseline.frame >= 0 && InTurn(baseline, ticks)
    requires SensorTicks(baseline, ticks, n).Some?
    ensures var s := SensorTicks(baseline, ticks, n).value;
      Backlog(s.camera, baseline.frame + 1, n) && Backlog(s.lidar, baseline.frame + 1, n)
    decreases n
  {
    hide Q.Frame, Q.DeliverAll, OnePacket, Backlog, PeakDuring, InTurn;
    var first := baseline.frame + 1;
    SamplesSoFar(baseline, ticks, n);
    DriftIsBounded(baseline, ticks, n);
    if n == 0 {
      EmptyBacklog(first);
    } else {
      BacklogIsKept(baseline, ticks, n - 1);
      var before, a := SensorTicks(baseline, ticks, n - 1).value, ticks[n - 1];
      TurnOf(baseline, ticks, n - 1);
      StreamTick(before.camera, a.camera, a.cameraWaits, first, n - 1);
      StreamTick(before.lidar, a.lidar, a.lidarWaits, first, n - 1);
    }
  }

  /** With one in-order packet per tick and stream, arriving before or during the
      wait, no queue ever holds more than 11 packets or overflows, exactly the 10
      warm-up packets end up stale, and no measured tick fails for want of its
      packet. */
  lemma ScheduleNeverOverflows(baseline: WorldTime, ticks: seq<Tick>, n: nat)
    requires n <= |ticks| && baseline.frame >= 0 && InTurn(baseline, ticks)
    requires SensorTicks(baseline, ticks, n).Some?
    ensures var s := SensorTicks(baseline, ticks, n).value;
      && Backlog(s.camera, baseline.frame + 1, n) && Backlog(s.lidar, baseline.frame + 1, n)
      && (n < |ticks| ==>
            var a, frame := ticks[n], baseline.frame + n + 1;
            && PeakDuring(s.camera, a.camera, frame, a.cameraWaits, n) <= 11
            && PeakDuring(s.lidar, a.lidar, frame, a.lidarWaits, n) <= 11
            && (n >= 10 && !TickRaises(s, a) ==>
                  && a.frame == frame && CameraFrame(s, a).0.Some? && LidarFrame(s, a).0.Some?
                  && CameraFrame(s, a).0.value.frame == frame && LidarFrame(s, a).0.value.frame == frame))
  {
    hide Q.Frame, Q.DeliverAll, OnePacket, Backlog, PeakDuring, InTurn, SensorTicks, TickRaises;
    var first := baseline.frame + 1;
    var s := SensorTicks(baseline, ticks, n).value;
    FrameSoFar(baseline, ticks, n);
    BacklogIsKept(baseline, ticks, n);
    if n < |ticks| {
      TurnOf(baseline, ticks, n);
      if !TickRaises(s, ticks[n]) {
        TickFrame(s, ticks[n]);
      }
      StreamTick(s.camera, ticks[n].camera, ticks[n].cameraWaits, first, n);
      StreamTick(s.lidar, ticks[n].lidar, ticks[n].lidarWaits, first, n);
    }
  }

  lemma FrameSoFar(baseline: WorldTime, ticks: seq<Tick>, n: nat)
    requires n <= |ticks| && SensorTicks(baseline, ticks, n).Some?
    ensures SensorTicks(baseline, ticks, n).value.previous.frame == baseline.frame + n
  {
    SamplesSoFar(baseline, ticks, n);
    DriftIsBounded(baseline, ticks, n);
    hide SensorTicks, SampleOf;
  }

  lemma TickFrame(s: Sensors, a: Tick)
    requires !TickRaises(s, a)
    ensures a.frame == s.previous.frame + 1
  {
  }

  lemma EmptyBacklog(first: int)
    ensures Backlog(Q.EMPTY, first, 0)
  {
  }

  lemma TurnOf(baseline: WorldTime, ticks: seq<Tick>, n: nat)
    requires n < |ticks| && InTurn(baseline, ticks)
    ensures OnePacket(ticks[n].camera, ticks[n].cameraWaits, baseline.frame + 1 + n, n)
    ensures OnePacket(ticks[n].lidar, ticks[n].lidarWaits, baseline.frame + 1 + n, n)
  {
    hide OnePacket;
  }
}
