/** The bounded graphics trace: recorded by `GraphicsTrace.stop`
    (gdb_vulkan_fault_capture.py), judged by `trace_analysis`
    (vulkan_fault_snapshot.py). */
module FaultTrace {
  import opened Wrappers

  const CAPACITY := 256
  const BUDGET := 1000000

  type Address = string

  const NULL_ADDRESS: Address := "0x0"

  datatype Pipeline = Pipeline(address: Address, keys: Option<seq<int>>)
  datatype Command = Command(list: Option<Address>, address: Option<Address>)

  /** What a breakpoint reads from its frame. */
  datatype Record =
    | Bind(context: Address, pipeline: Pipeline, submitted: Pipeline, command: Command)
    | Parameters(context: Address, shader: Address, pipeline: Pipeline, command: Command)

  datatype Event = Event(sequence: int, thread: int, record: Record)

  datatype Trace = Trace(count: int, dropped: int, events: seq<Event>, errors: nat)

  // ------------------------------------------------------- the recorder

  /** One breakpoint hit: not of interest, read, or unreadable. */
  datatype Hit = Skipped | Captured(thread: int, record: Record) | Unreadable

  const EMPTY := Trace(0, 0, [], 0)

  function Stop(t: Trace, hit: Hit): Trace {
    match hit
    case Skipped => t
    case Unreadable => t.(errors := t.errors + 1)
    case Captured(thread, record) =>
      if t.count >= BUDGET then t.(errors := t.errors + 1)
      else
        var e := Event(t.count + 1, thread, record);
        if |t.events| == CAPACITY then Trace(t.count + 1, t.dropped + 1, t.events[1..] + [e], t.errors)
        else t.(count := t.count + 1, events := t.events + [e])
  }

  function Recorded(hits: seq<Hit>): Trace {
    if hits == [] then EMPTY else Stop(Recorded(hits[..|hits| - 1]), hits[|hits| - 1])
  }

  class GraphicsTrace {
    var eventCount: int
    var droppedEvents: int
    var events: seq<Event>
    var errors: nat

    function View(): Trace
      reads this
    {
      Trace(eventCount, droppedEvents, events, errors)
    }

    constructor ()
      ensures View() == EMPTY
    {
      eventCount, droppedEvents, events, errors := 0, 0, [], 0;
    }

    /** Returns true to halt the inferior. */
    method OnStop(hit: Hit) returns (halt: bool)
      modifies this
      ensures View() == Stop(old(View()), hit)
      ensures halt <==> errors > old(errors)
    {
      if hit.Skipped? {
        return false;
      }
      if hit.Unreadable? || eventCount >= BUDGET {
        errors := errors + 1;
        return true;
      }
      eventCount := eventCount + 1;
      var event := Event(eventCount, hit.thread, hit.record);
      if |events| == CAPACITY {
        events := events[1..];
        droppedEvents := droppedEvents + 1;
      }
      events := events + [event];
      halt := false;
    }
  }

  /** The unbounded log of the same hits: every captured record up to the budget. */
  function Log(hits: seq<Hit>): seq<Event> {
    if hits == [] then []
    else
      var log, hit := Log(hits[..|hits| - 1]), hits[|hits| - 1];
      if hit.Captured? && |log| < BUDGET then log + [Event(|log| + 1, hit.thread, hit.record)] else log
  }

  /** Over every run the ring is the end of the log, with exact accounting. */
  lemma {:induction false} RingIsEndOfLog(hits: seq<Hit>)
    ensures var t, log := Recorded(hits), Log(hits);
      && t.count == |log| <= 1000000 && t.dropped == |log| - |t.events|
      && |t.events| == (if |log| < 256 then |log| else 256)
      && t.events == log[t.dropped..]
      && forall i :: 0 <= i < |log| ==> log[i].sequence == i + 1
    decreases |hits|
  {
    if hits != [] {
      RingIsEndOfLog(hits[..|hits| - 1]);
      var t, log := Recorded(hits), Log(hits);
      var before := Recorded(hits[..|hits| - 1]);
      if hits[|hits| - 1].Captured? && before.count < BUDGET {
        var old_ := Log(hits[..|hits| - 1]);
        assert log[..|old_|] == old_;
        assert t.events == log[t.dropped..];
      }
    }
  }

  /** The hits that could not be recorded: unreadable, or past a million events. */
  function Lost(hits: seq<Hit>): set<nat> {
    set i: nat | i < |hits| && (hits[i].Unreadable? || (hits[i].Captured? && |Log(hits[..i])| >= 1000000))
  }

  /** `errors` counts them, and nothing else: the tracer halts at each. */
  lemma {:induction false} ErrorsAreLostHits(hits: seq<Hit>)
    ensures Recorded(hits).errors == |Lost(hits)|
    decreases |hits|
  {
    if hits != [] {
      var last := |hits| - 1;
      var front := hits[..last];
      ErrorsAreLostHits(front);
      RingIsEndOfLog(front);
      assert Recorded(hits) == Stop(Recorded(front), hits[last]);
      hide Recorded, Log;
      var lost := hits[last].Unreadable? || (hits[last].Captured? && |Log(front)| >= 1000000);
      assert forall i: nat :: i < last ==> front[..i] == hits[..i];
      assert Lost(hits) == if lost then Lost(front) + {last} else Lost(front);
    }
  }

  // ------------------------------------------------------- the analysis

  /** The fault: the binding's context, shader, stage and pipeline, the command
      being executed, and the faulting thread. */
  datatype Fault = Fault(
    context: Option<Address>, shader: Option<Address>, stage: Option<int>,
    pipelineAddress: Option<Address>, pipelineKeys: Option<seq<int>>, command: Command, thread: Option<int>)

  datatype Correlation = Correlation(
    parameterSequence: int, bindSequence: int, commandObserved: bool,
    bindPipeline: Address, bindKey: int, parameterKey: int, appliedAsSubmitted: bool,
    bindMatchesFault: bool, parameterMatchesFault: bool, bindList: Option<Address>, parameterList: Option<Address>,
    sameList: Option<bool>, sameThread: bool)

  datatype Analysis = Rejected | NotEnabled | NotCorrelated | Correlated(c: Correlation)

  predicate Known(a: Option<Address>) {
    a.Some? && a.value != NULL_ADDRESS
  }

  predicate Absent(a: Option<Address>) {
    a.None? || a.value == ""
  }

  predicate IsParameter(e: Event, f: Fault) {
    && e.record.Parameters? && Some(e.record.context) == f.context && Some(e.record.shader) == f.shader
    && e.record.command.list == f.command.list && Some(e.thread) == f.thread
    && (Absent(f.command.address) || Absent(e.record.command.address) || e.record.command.address == f.command.address)
  }

  predicate IsBind(e: Event, f: Fault, before: int) {
    e.record.Bind? && e.sequence < before && Some(e.record.context) == f.context
  }

  /** `parameters[-1]` of the filtered list. */
  function LastParameter(events: seq<Event>, f: Fault): Option<Event> {
    if events == [] then None
    else if IsParameter(events[|events| - 1], f) then Some(events[|events| - 1])
    else LastParameter(events[..|events| - 1], f)
  }

  function LastBind(events: seq<Event>, f: Fault, before: int): Option<Event> {
    if events == [] then None
    else if IsBind(events[|events| - 1], f, before) then Some(events[|events| - 1])
    else LastBind(events[..|events| - 1], f, before)
  }

  predicate FiveKeys(p: Pipeline) {
    p.keys.Some? && |p.keys.value| == 5
  }

  predicate MatchesFault(p: Pipeline, f: Fault) {
    Some(p.address) == f.pipelineAddress && p.keys == f.pipelineKeys
  }

  /** The conclusions drawn from the chosen bind and parameter events. */
  function Conclude(bind: Event, parameter: Event, f: Fault): Analysis {
    var b, p := bind.record, parameter.record;
    if f.stage.None? || !(0 <= f.stage.value < 5) || !FiveKeys(b.pipeline) || !FiveKeys(p.pipeline) || !b.Bind?
    then NotCorrelated
    else
      Correlated(Correlation(
        parameter.sequence, bind.sequence,
        !Absent(f.command.address) && p.command.address == f.command.address,
        b.pipeline.address, b.pipeline.keys.value[f.stage.value], p.pipeline.keys.value[f.stage.value],
        b.pipeline == b.submitted, MatchesFault(b.pipeline, f), MatchesFault(p.pipeline, f),
        b.command.list, f.command.list,
        if Absent(b.command.list) then None else Some(b.command.list == f.command.list),
        bind.thread == parameter.thread))
  }

  /** The correlation over a list of events, however long. */
  function Correlate(events: seq<Event>, f: Fault): Analysis {
    if !Known(f.context) || !Known(f.shader) || !Known(f.command.list) then NotCorrelated
    else
      var parameter := LastParameter(events, f);
      if parameter.None? then NotCorrelated
      else
        var bind := LastBind(events, f, parameter.value.sequence);
        if bind.None? then NotCorrelated else Conclude(bind.value, parameter.value, f)
  }

  /** `trace_analysis` of a report that has a trace. */
  function Analyze(enabled: bool, t: Trace, f: Fault): Analysis {
    if |t.events| > CAPACITY || !(0 <= t.count <= BUDGET) || t.dropped < 0 || t.count != |t.events| + t.dropped
    then Rejected
    else if !enabled then
      if t.events != [] || t.count != 0 || t.errors != 0 then Rejected else NotEnabled
    else if exists i :: 0 <= i < |t.events| && t.events[i].sequence != t.dropped + 1 + i then Rejected
    else Correlate(t.events, f)
  }

  // ------------------------------------------- what a correlation means

  /** Counts add up and the retained events are numbered on from the dropped ones. */
  ghost predicate Accounted(t: Trace) {
    && |t.events| <= 256 && 0 <= t.count <= 1000000 && 0 <= t.dropped && t.count == t.dropped + |t.events|
    && forall k :: 0 <= k < |t.events| ==> t.events[k].sequence == t.dropped + 1 + k
  }

  /** The event sets the parameters of the fault's shader on the fault's context,
      command list and thread, and names no other command node. */
  predicate SetsFaultShader(e: Event, f: Fault) {
    match e.record
    case Bind(_, _, _, _) => false
    case Parameters(context, shader, _, command) =>
      && f.context == Some(context) && f.shader == Some(shader)
      && f.command.list == command.list && f.thread == Some(e.thread)
      && (command.address in {None, Some("")} || f.command.address in {None, Some(""), command.address})
  }

  predicate BindsFaultContext(e: Event, f: Fault) {
    match e.record
    case Bind(context, _, _, _) => f.context == Some(context)
    case Parameters(_, _, _, _) => false
  }

  /** The pair of events a conclusion is about: `i` is the last that sets the fault's
      shader, and `j` the last bind of its context before it; both carry five keys. */
  ghost predicate FaultPair(events: seq<Event>, f: Fault, i: int, j: int) {
    && 0 <= j < i < |events|
    && SetsFaultShader(events[i], f) && (forall k :: i < k < |events| ==> !SetsFaultShader(events[k], f))
    && BindsFaultContext(events[j], f) && (forall k :: j < k < i ==> !BindsFaultContext(events[k], f))
    && (forall k :: k in {i, j} ==>
          events[k].record.pipeline.keys.Some? && |events[k].record.pipeline.keys.value| == 5)
  }

  /** The fault's context, shader and command list are addresses other than null,
      and its stage is one of the five. */
  predicate Identified(f: Fault) {
    && f.context.Some? && f.context.value != "0x0" && f.shader.Some? && f.shader.value != "0x0"
    && f.command.list.Some? && f.command.list.value != "0x0"
    && f.stage.Some? && 0 <= f.stage.value <= 4
  }

  ghost predicate FromPair(c: Correlation, events: seq<Event>, f: Fault, i: int, j: int)
    requires FaultPair(events, f, i, j)
  {
    && Identified(f) && Concludes(c, events[j], events[i], f)
  }

  /** Each conclusion as it follows from the parameter event, the bind and the fault. */
  ghost predicate Concludes(c: Correlation, bind: Event, parameter: Event, f: Fault)
    requires bind.record.Bind? && parameter.record.Parameters? && Identified(f)
    requires bind.record.pipeline.keys.Some? && |bind.record.pipeline.keys.value| == 5
    requires parameter.record.pipeline.keys.Some? && |parameter.record.pipeline.keys.value| == 5
  {
    var bound, drawn, stage := bind.record.pipeline, parameter.record.pipeline, f.stage.value;
    && c.parameterSequence == parameter.sequence && c.bindSequence == bind.sequence
    && (c.commandObserved <==>
          f.command.address !in {None, Some("")} && parameter.record.command.address == f.command.address)
    && c.bindPipeline == bound.address
    && c.bindKey == bound.keys.value[stage] && c.parameterKey == drawn.keys.value[stage]
    && (c.appliedAsSubmitted <==> bind.record.submitted == bound)
    && (c.bindMatchesFault <==> f.pipelineAddress == Some(bound.address) && f.pipelineKeys == bound.keys)
    && (c.parameterMatchesFault <==> f.pipelineAddress == Some(drawn.address) && f.pipelineKeys == drawn.keys)
    && c.bindList == bind.record.command.list && c.parameterList == f.command.list
    && (c.sameList.None? <==> bind.record.command.list in {None, Some("")})
    && (c.sameList.Some? ==> (c.sameList.value <==> bind.record.command.list == f.command.list))
    && (c.sameThread <==> bind.thread == parameter.thread)
  }

  predicate Ascending(events: seq<Event>) {
    forall i, j :: 0 <= i < j < |events| ==> events[i].sequence < events[j].sequence
  }

  lemma {:induction false} LastParameterIs(events: seq<Event>, f: Fault)
    ensures LastParameter(events, f).None? ==> forall k :: 0 <= k < |events| ==> !SetsFaultShader(events[k], f)
    ensures LastParameter(events, f).Some? ==>
      exists i ::
        && 0 <= i < |events| && events[i] == LastParameter(events, f).value && SetsFaultShader(events[i], f)
        && forall k :: i < k < |events| ==> !SetsFaultShader(events[k], f)
    decreases |events|
  {
    if events != [] {
      var front := events[..|events| - 1];
      LastParameterIs(front, f);
      assert SetsFaultShader(events[|events| - 1], f) <==> IsParameter(events[|events| - 1], f);
      assert forall k :: 0 <= k < |front| ==> front[k] == events[k];
      hide SetsFaultShader, IsParameter;
    }
  }

  lemma {:induction false} LastBindIs(events: seq<Event>, f: Fault, before: int)
    ensures LastBind(events, f, before).None? ==>
      forall k :: 0 <= k < |events| && events[k].sequence < before ==> !BindsFaultContext(events[k], f)
    ensures LastBind(events, f, before).Some? ==>
      exists j ::
        && 0 <= j < |events| && events[j] == LastBind(events, f, before).value
        && BindsFaultContext(events[j], f) && events[j].sequence < before
        && forall k :: j < k < |events| && events[k].sequence < before ==> !BindsFaultContext(events[k], f)
    decreases |events|
  {
    if events != [] {
      var front := events[..|events| - 1];
      LastBindIs(front, f, before);
      assert IsBind(events[|events| - 1], f, before) <==>
        BindsFaultContext(events[|events| - 1], f) && events[|events| - 1].sequence < before;
      assert forall k :: 0 <= k < |front| ==> front[k] == events[k];
      hide BindsFaultContext, IsBind;
    }
  }

  /** The two events are the last of their kinds, so there is at most one such pair. */
  lemma OnlyPair(events: seq<Event>, f: Fault, i: int, j: int)
    requires Ascending(events) && 0 <= i < |events| && 0 <= j < |events|
    requires SetsFaultShader(events[i], f) && forall k :: i < k < |events| ==> !SetsFaultShader(events[k], f)
    requires BindsFaultContext(events[j], f) && events[j].sequence < events[i].sequence
    requires forall k :: j < k < |events| && events[k].sequence < events[i].sequence ==> !BindsFaultContext(events[k], f)
    ensures FaultPair(events, f, i, j) <==> FiveKeys(events[i].record.pipeline) && FiveKeys(events[j].record.pipeline)
    ensures forall k, l :: FaultPair(events, f, k, l) ==> k == i && l == j
  {
    hide SetsFaultShader, BindsFaultContext;
    assert j < i;
  }

  lemma NoPair(events: seq<Event>, f: Fault, i: int)
    requires Ascending(events) && 0 <= i < |events|
    requires SetsFaultShader(events[i], f) && forall k :: i < k < |events| ==> !SetsFaultShader(events[k], f)
    requires forall k :: 0 <= k < |events| && events[k].sequence < events[i].sequence ==> !BindsFaultContext(events[k], f)
    ensures forall k, l :: !FaultPair(events, f, k, l)
  {
    hide SetsFaultShader, BindsFaultContext;
  }

  lemma ConcludeMeans(bind: Event, parameter: Event, f: Fault)
    requires bind.record.Bind? && parameter.record.Parameters? && Known(f.context) && Known(f.shader) && Known(f.command.list)
    ensures Conclude(bind, parameter, f).Correlated? <==>
      && Identified(f)
      && bind.record.pipeline.keys.Some? && |bind.record.pipeline.keys.value| == 5
      && parameter.record.pipeline.keys.Some? && |parameter.record.pipeline.keys.value| == 5
    ensures Conclude(bind, parameter, f).Correlated? ==> Concludes(Conclude(bind, parameter, f).c, bind, parameter, f)
    ensures !Conclude(bind, parameter, f).Correlated? ==> Conclude(bind, parameter, f) == NotCorrelated
  {
  }

  /** A correlation is reported exactly for a fault that is identified and has its
      pair of events, and every conclusion is drawn from that pair. */
  lemma CorrelatesExactly(events: seq<Event>, f: Fault)
    requires Ascending(events)
    ensures Correlate(events, f).Correlated? <==> Identified(f) && exists i, j :: FaultPair(events, f, i, j)
    ensures !Correlate(events, f).Correlated? ==> Correlate(events, f) == NotCorrelated
    ensures Correlate(events, f).Correlated? ==>
      forall i, j :: FaultPair(events, f, i, j) ==> FromPair(Correlate(events, f).c, events, f, i, j)
  {
    hide SetsFaultShader, BindsFaultContext, LastParameter, LastBind, Conclude;
    LastParameterIs(events, f);
    var parameter := LastParameter(events, f);
    if parameter.Some? && Known(f.context) && Known(f.shader) && Known(f.command.list) {
      var i :| 0 <= i < |events| && events[i] == parameter.value && SetsFaultShader(events[i], f)
               && forall k :: i < k < |events| ==> !SetsFaultShader(events[k], f);
      LastBindIs(events, f, events[i].sequence);
      var bind := LastBind(events, f, events[i].sequence);
      if bind.Some? {
        var j :| 0 <= j < |events| && events[j] == bind.value
                 && BindsFaultContext(events[j], f) && events[j].sequence < events[i].sequence
                 && forall k :: j < k < |events| && events[k].sequence < events[i].sequence ==> !BindsFaultContext(events[k], f);
        Kinds(events, f, i, j);
        ConcludeMeans(events[j], events[i], f);
        OnlyPair(events, f, i, j);
      } else {
        NoPair(events, f, i);
      }
    }
  }

  lemma Kinds(events: seq<Event>, f: Fault, i: int, j: int)
    requires 0 <= i < |events| && 0 <= j < |events| && SetsFaultShader(events[i], f) && BindsFaultContext(events[j], f)
    ensures events[i].record.Parameters? && events[j].record.Bind?
  {
  }

  /** The analysis of any trace: refused when its counts or its numbering are wrong
      or it was disabled and is not empty, and otherwise a correlation exactly for
      an identified fault with its pair of retained events. */
  lemma AnalyzeExactly(enabled: bool, t: Trace, f: Fault)
    ensures Analyze(enabled, t, f) == Rejected <==>
      || !(|t.events| <= 256 && 0 <= t.count <= 1000000 && 0 <= t.dropped && t.count == t.dropped + |t.events|)
      || (enabled && !Accounted(t))
      || (!enabled && !(t.events == [] && t.count == 0 && t.errors == 0))
    ensures Analyze(enabled, t, f) == NotEnabled <==> !enabled && t == EMPTY
    ensures Analyze(enabled, t, f).Correlated? <==>
      enabled && Accounted(t) && Identified(f) && exists i, j :: FaultPair(t.events, f, i, j)
    ensures Analyze(enabled, t, f).Correlated? ==>
      forall i, j :: FaultPair(t.events, f, i, j) ==> FromPair(Analyze(enabled, t, f).c, t.events, f, i, j)
  {
    hide Correlate, Identified, FaultPair, Concludes;
    if Accounted(t) {
      CorrelatesExactly(t.events, f);
    }
  }

  /** What the tracer writes is never rejected, however many hits there were. */
  lemma TracerIsNeverRejected(hits: seq<Hit>, f: Fault)
    ensures Analyze(true, Recorded(hits), f) == Correlate(Recorded(hits).events, f)
    ensures Analyze(false, EMPTY, f) == NotEnabled
  {
    hide Correlate;
    RingIsEndOfLog(hits);
  }

  lemma {:induction false} ParameterInSuffix(old_: seq<Event>, kept: seq<Event>, f: Fault)
    ensures LastParameter(old_ + kept, f) ==
      if LastParameter(kept, f).Some? then LastParameter(kept, f) else LastParameter(old_, f)
    decreases |kept|
  {
    hide IsParameter;
    if kept == [] {
      assert old_ + kept == old_;
    } else {
      assert (old_ + kept)[..|old_ + kept| - 1] == old_ + kept[..|kept| - 1];
      ParameterInSuffix(old_, kept[..|kept| - 1], f);
    }
  }

  lemma {:induction false} BindInSuffix(old_: seq<Event>, kept: seq<Event>, f: Fault, before: int)
    ensures LastBind(old_ + kept, f, before) ==
      if LastBind(kept, f, before).Some? then LastBind(kept, f, before) else LastBind(old_, f, before)
    decreases |kept|
  {
    hide IsBind;
    if kept == [] {
      assert old_ + kept == old_;
    } else {
      assert (old_ + kept)[..|old_ + kept| - 1] == old_ + kept[..|kept| - 1];
      BindInSuffix(old_, kept[..|kept| - 1], f, before);
    }
  }

  lemma {:induction false} ParameterIsListed(events: seq<Event>, f: Fault)
    ensures LastParameter(events, f).Some? ==> LastParameter(events, f).value in events
    decreases |events|
  {
    if events != [] {
      ParameterIsListed(events[..|events| - 1], f);
    }
  }

  lemma {:induction false} BindIsListed(events: seq<Event>, f: Fault, before: int)
    ensures LastBind(events, f, before).Some? ==>
      LastBind(events, f, before).value in events && LastBind(events, f, before).value.sequence < before
    decreases |events|
  {
    if events != [] {
      BindIsListed(events[..|events| - 1], f, before);
    }
  }

  lemma ConcludeSequence(bind: Event, parameter: Event, f: Fault)
    ensures Conclude(bind, parameter, f) == NotCorrelated
      || (Conclude(bind, parameter, f).Correlated? && Conclude(bind, parameter, f).c.bindSequence == bind.sequence)
  {
  }

  lemma SuffixAgrees(old_: seq<Event>, kept: seq<Event>, dropped: int, f: Fault)
    requires forall e :: e in old_ ==> e.sequence <= dropped
    requires forall e :: e in kept ==> e.sequence > dropped
    ensures var ring, log := Correlate(kept, f), Correlate(old_ + kept, f);
      && (ring.Correlated? <==> log.Correlated? && log.c.bindSequence > dropped)
      && (ring.Correlated? ==> ring == log)
  {
    hide IsParameter, IsBind, LastParameter, LastBind, Conclude;
    ParameterInSuffix(old_, kept, f);
    ParameterIsListed(old_, f);
    ParameterIsListed(kept, f);
    var parameter := LastParameter(old_ + kept, f);
    if parameter.Some? {
      var before := parameter.value.sequence;
      BindInSuffix(old_, kept, f, before);
      BindIsListed(old_, f, before);
      BindIsListed(kept, f, before);
      var bind := LastBind(old_ + kept, f, before);
      if bind.Some? {
        ConcludeSequence(bind.value, parameter.value, f);
      }
    }
  }

  /** The bounded ring against the unbounded log: the ring reports a correlation
      exactly when the log does and the chosen bind was not dropped; then all its
      conclusions are those of the log. */
  lemma RingAgreesWithLog(hits: seq<Hit>, f: Fault)
    ensures var ring, log := Correlate(Recorded(hits).events, f), Correlate(Log(hits), f);
      && (ring.Correlated? <==> log.Correlated? && log.c.bindSequence > Recorded(hits).dropped)
      && (ring.Correlated? ==> ring == log)
  {
    RingIsEndOfLog(hits);
    hide Recorded, Log, Correlate;
    var t, log := Recorded(hits), Log(hits);
    assert log == log[..t.dropped] + t.events;
    SuffixAgrees(log[..t.dropped], t.events, t.dropped, f);
  }

  /** Over every run: what is reported of the ring, in terms of the log of all hits.
      The fault's pair of logged events is reported exactly when its bind is retained. */
  lemma RunCorrelatesExactly(hits: seq<Hit>, f: Fault)
    ensures var ring, log := Analyze(true, Recorded(hits), f), Log(hits);
      && (ring.Correlated? <==>
            Identified(f) && exists i, j :: FaultPair(log, f, i, j) && j >= Recorded(hits).dropped)
      && (ring.Correlated? ==> forall i, j :: FaultPair(log, f, i, j) ==> FromPair(ring.c, log, f, i, j))
  {
    RingIsEndOfLog(hits);
    TracerIsNeverRejected(hits, f);
    RingAgreesWithLog(hits, f);
    hide Recorded, Log, Analyze, Correlate, Identified, FaultPair, Concludes;
    CorrelatesExactly(Log(hits), f);
    forall i, j | FaultPair(Log(hits), f, i, j) && Correlate(Log(hits), f).Correlated?
      ensures Correlate(Log(hits), f).c.bindSequence == j + 1
    {
      PairSequence(Correlate(Log(hits), f).c, Log(hits), f, i, j);
    }
  }

  lemma PairSequence(c: Correlation, events: seq<Event>, f: Fault, i: int, j: int)
    requires FaultPair(events, f, i, j) && FromPair(c, events, f, i, j)
    ensures 0 <= j < |events| && c.bindSequence == events[j].sequence
  {
  }
}
