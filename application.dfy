/**
 * `Application`: the single application instance, its message queue, its lazily created layout
 * manager and the tick its run loop repeats.
 *
 * A tick drains the dispatcher's buckets in rank order around input, layout and render. Each bucket
 * is processed once; its operations are not removed, so they run again in every later tick. When a
 * bucket's batch throws, the tick stops there and the exception leaves `tick`. Native calls (GLFW,
 * OpenGL, `RenderContext`) and the empty protected hooks are events in the trace, and `Phase(k)`
 * marks the point where bucket `k` is processed. One thread is modelled; whether the window wants
 * to close is an input of each tick.
 */
module App {
  import opened Wrappers
  import opened Events
  import opened Geometry
  import opened Layout
  import opened Dispatch

  /** A message in the queue. `processMessage` ignores every kind. */
  datatype Message = NullMessage | WakeApplication | OtherMessage(id: nat)

  datatype AppError =
      /** The constructor's `UnsupportedOperationException`. */
    | MultipleInstances
      /** `run(null)`: an `IllegalArgumentException`. */
    | NullWindow
      /** A tick's dispatcher batch threw. */
    | OperationsFailed(error: DispatchError)

  /** How a tick ended. */
  datatype TickOutcome =
      /** The window asked to close: shutdown was requested and the tick returned early. */
    | Closed
      /** The batch of bucket `rank` threw `error`; nothing after it ran. */
    | Failed(rank: Priority, error: DispatchError)
      /** Every stage ran. */
    | Ticked

  // ---------------------------------------------------------------- the trace of a tick

  /** What processing one bucket records and throws: the batch's trace and its aggregated failure. */
  datatype Batch = Batch(events: seq<Event>, error: Option<DispatchError>)

  /** Processing the operations `list` once, in order. */
  function BatchOf(list: seq<DispatcherOperation>): Batch {
    Batch(Runs(list), Aggregated(list))
  }

  /** A batch throws exactly when one of its operations fails, and records each operation's run in order. */
  lemma BatchOfFacts(list: seq<DispatcherOperation>)
    ensures BatchOf(list).error.None? <==> forall op :: op in list ==> !op.work.fails
    ensures |BatchOf(list).events| == |list|
    ensures forall i :: 0 <= i < |list| ==> BatchOf(list).events[i] == WorkRan(list[i].work.id, EXECUTING)
  {
    AggregatedIffSomeFails(list);
    forall i | 0 <= i < |list| ensures Runs(list)[i] == WorkRan(list[i].work.id, EXECUTING) {
      RunsAt(list, i);
    }
  }

  /**
   * What a tick depends on: the batch of each bucket, the number of queued messages, the close
   * request, whether a layout manager exists.
   */
  datatype TickSetting = TickSetting(batches: seq<Batch>, messages: nat, close: bool, managed: bool)

  /** The setting of a tick over the buckets `b`. */
  function SettingOf(b: seq<seq<DispatcherOperation>>, messages: nat, close: bool, managed: bool): (s: TickSetting)
    requires |b| == 8
    ensures |s.batches| == 8 && forall k {:trigger BatchOf(b[k])} :: 0 <= k < 8 ==> s.batches[k] == BatchOf(b[k])
  {
    TickSetting(seq(8, k requires 0 <= k < 8 => BatchOf(b[k])), messages, close, managed)
  }

  /** `processMessages()`: the queue is visited from its last message to its first. */
  function Visits(n: nat): seq<Event> {
    if n == 0 then [] else [MessageVisited(n - 1)] + Visits(n - 1)
  }

  /** One element of the render loop: open, begin, render, close, end. */
  function RenderBlock(e: UIElement): seq<Event> {
    [OpenRender(e), BeginRender, Render(e), Event.CloseRender(e), EndRender]
  }

  /** The render loop over `rendered`, in that order. */
  function RenderBlocks(rendered: seq<UIElement>): seq<Event> {
    if rendered == [] then [] else RenderBlocks(rendered[..|rendered| - 1]) + RenderBlock(rendered[|rendered| - 1])
  }

  /** The render stage: the frame is cleared, then, with a manager, its render loop runs in the window and the buffers are swapped. */
  function RenderEvents(managed: bool, rendered: seq<UIElement>): seq<Event> {
    [GlClear] + (if managed then [SetActiveWindow(true)] + RenderBlocks(rendered) + [SetActiveWindow(false), SwapBuffers] else [])
  }

  /** The events a tick records after bucket `k` was processed without throwing, and before the next bucket. */
  function Between(k: Priority, s: TickSetting, rendered: seq<UIElement>): seq<Event> {
    match k
    case 0 => Visits(s.messages) + [WindowTick] + (if s.close then [PostEmptyEvent] else [])
    case 1 => [InputsPre]
    case 2 => [InputsPost] + (if s.managed then [LayoutUpdate(true)] else [])
    case 3 => RenderEvents(s.managed, rendered)
    case 4 => [RenderPost]
    case 7 => [GlClear]
    case _ => []
  }

  /** Bucket `k` of a tick: its marker, its batch, and what follows when the batch did not throw. */
  function StageEvents(k: Priority, s: TickSetting, rendered: seq<UIElement>): seq<Event>
    requires |s.batches| == 8
  {
    [Phase(k)] + s.batches[k].events + (if s.batches[k].error.None? then Between(k, s, rendered) else [])
  }

  /** The batch of bucket `k` throws. */
  predicate Throws(s: TickSetting, k: Priority)
    requires |s.batches| == 8
  {
    s.batches[k].error.Some?
  }

  /** The bucket at which a tick stops: the first whose batch throws, 0 on a close request, else the last. */
  function Last(s: TickSetting): Priority
    requires |s.batches| == 8
  {
    if Throws(s, 0) || s.close then 0
    else if Throws(s, 1) then 1
    else if Throws(s, 2) then 2
    else if Throws(s, 3) then 3
    else if Throws(s, 4) then 4
    else if Throws(s, 5) then 5
    else if Throws(s, 6) then 6
    else 7
  }

  /** How a tick with setting `s` ends. */
  function Outcome(s: TickSetting): TickOutcome
    requires |s.batches| == 8
  {
    var k := Last(s);
    if Throws(s, k) then Failed(k, s.batches[k].error.value)
    else if s.close then Closed
    else Ticked
  }

  /** The stages from `k` up to the one where the tick stops. */
  function From(k: Priority, s: TickSetting, rendered: seq<UIElement>): seq<Event>
    requires |s.batches| == 8
    decreases 8 - k
  {
    StageEvents(k, s, rendered) + (if k < Last(s) then From(k + 1, s, rendered) else [])
  }

  /**
   * A tick stops at a stage whose batch throws, or at the pre-tick stage on a close request: the
   * trace `t1` recorded from `t0` through that stage is all of it.
   */
  lemma StopAt(k: Priority, s: TickSetting, rendered: seq<UIElement>, t0: seq<Event>, t1: seq<Event>)
    requires |s.batches| == 8 && k <= Last(s) && (Throws(s, k) || (k == APP_PRE_TICK && s.close))
    requires t1 == t0 + [Phase(k)] + s.batches[k].events + (if Throws(s, k) then [] else Between(k, s, rendered))
    ensures Last(s) == k
    ensures t1 == t0 + From(k, s, rendered)
    ensures Outcome(s) == if Throws(s, k) then Failed(k, s.batches[k].error.value) else Closed
  {
  }

  /**
   * A stage before the last whose batch does not throw is followed by the next: `t1` recorded from
   * `t0` through stage `k` and `t2` from `t1` through the rest make up the stages from `k` on.
   */
  lemma GoOn(k: Priority, s: TickSetting, rendered: seq<UIElement>, t0: seq<Event>, t1: seq<Event>, t2: seq<Event>)
    requires |s.batches| == 8 && k <= Last(s) && k < APP_POST_TICK && !Throws(s, k) && !(k == APP_PRE_TICK && s.close)
    requires t1 == t0 + [Phase(k)] + s.batches[k].events + Between(k, s, rendered)
    requires t2 == t1 + From(k + 1, s, rendered)
    ensures k + 1 <= Last(s)
    ensures t2 == t0 + From(k, s, rendered)
  {
    var stage := StageEvents(k, s, rendered);
    assert k < Last(s);
    assert From(k, s, rendered) == stage + From(k + 1, s, rendered);
    assert t0 + (stage + From(k + 1, s, rendered)) == t0 + stage + From(k + 1, s, rendered);
  }

  /** A stage before the last whose batch does not throw is not the last. */
  lemma Continues(s: TickSetting, k: Priority)
    requires |s.batches| == 8 && k <= Last(s) && k < APP_POST_TICK && !Throws(s, k) && !(k == APP_PRE_TICK && s.close)
    ensures k + 1 <= Last(s)
  {
  }

  /** The post-tick stage, when its batch does not throw, ends a tick that ran through. */
  lemma EndAt(s: TickSetting, rendered: seq<UIElement>, t0: seq<Event>, t1: seq<Event>)
    requires |s.batches| == 8 && Last(s) == APP_POST_TICK && !Throws(s, APP_POST_TICK)
    requires t1 == t0 + [Phase(APP_POST_TICK)] + s.batches[APP_POST_TICK].events + [GlClear]
    ensures t1 == t0 + From(APP_POST_TICK, s, rendered)
    ensures Outcome(s) == Ticked
  {
  }

  /** A tick that ended as `r` went past the stage of bucket `k`. */
  predicate Passed(r: TickOutcome, k: Priority) {
    r == Ticked || (r.Failed? && r.rank > k)
  }

  /** The whole trace of a tick. */
  function TickEvents(s: TickSetting, rendered: seq<UIElement>): seq<Event>
    requires |s.batches| == 8
  {
    From(APP_PRE_TICK, s, rendered)
  }

  /** How a tick ends when the buckets are `b` and the window's close request is `close`. */
  function TickOutcomeOf(b: seq<seq<DispatcherOperation>>, close: bool): TickOutcome
    requires |b| == 8
  {
    OutcomeFrom(b, close, APP_PRE_TICK)
  }

  /**
   * How a tick over the buckets `b` ends once it reaches bucket `k`, bucket by bucket: at the first
   * batch that throws, at the pre-tick stage on a close request, or after the post-tick stage.
   */
  function OutcomeFrom(b: seq<seq<DispatcherOperation>>, close: bool, k: Priority): TickOutcome
    requires |b| == 8
    decreases 8 - k
  {
    if Aggregated(b[k]).Some? then Failed(k, Aggregated(b[k]).value)
    else if k == APP_PRE_TICK && close then Closed
    else if k == APP_POST_TICK then Ticked
    else OutcomeFrom(b, close, k + 1)
  }

  /**
   * Over the buckets `b`, a tick ends as `onClose` on a close request and as `onOpen` otherwise: the
   * outcome of a tick depends on the buckets and on nothing else but the close request.
   */
  ghost predicate Forecasts(b: seq<seq<DispatcherOperation>>, onClose: TickOutcome, onOpen: TickOutcome)
    requires |b| == 8
  {
    forall close: bool {:trigger TickOutcomeOf(b, close)} :: TickOutcomeOf(b, close) == if close then onClose else onOpen
  }

  /** The outcomes of successive ticks, one per close request in `closes`, given the two a tick can have. */
  function TickOutcomes(closes: seq<bool>, onClose: TickOutcome, onOpen: TickOutcome): (outs: seq<TickOutcome>)
    ensures |outs| == |closes|
    ensures forall j :: 0 <= j < |closes| ==> outs[j] == if closes[j] then onClose else onOpen
  {
    seq(|closes|, j requires 0 <= j < |closes| => if closes[j] then onClose else onOpen)
  }

  /**
   * How many ticks `run` performs when successive ticks would end as `outs` and the shutdown flag is
   * `marked` at the start: it stops after the first tick that threw or closed the window, or after the
   * first tick when the flag was already set. When `outs` runs out first, the run is still going.
   */
  function RunLength(outs: seq<TickOutcome>, marked: bool): (n: nat)
    ensures n <= |outs|
    ensures outs != [] ==> 0 < n
  {
    if outs == [] then 0
    else if marked || outs[0] != Ticked then 1
    else 1 + RunLength(outs[1..], marked)
  }

  /** One more tick of a run that has not stopped yet: it either stops the run or leaves the rest to go. */
  lemma RunLengthStep(outs: seq<TickOutcome>, i: nat)
    requires i < |outs| && RunLength(outs, false) == i + RunLength(outs[i..], false)
    ensures outs[i] != Ticked ==> RunLength(outs, false) == i + 1
    ensures outs[i] == Ticked ==> RunLength(outs, false) == i + 1 + RunLength(outs[i + 1..], false)
  {
    assert outs[i..][1..] == outs[i + 1..];
  }

  /** What `run` gives its caller: the exception of the batch that threw, or the ticks it performed. */
  function RunResult(ticks: nat, failure: Option<DispatchError>): (r: Result<nat, AppError>)
    ensures r.Ok? <==> failure.None?
    ensures r.Ok? ==> r.value == ticks
  {
    match failure
    case Some(e) => Err(OperationsFailed(e))
    case None => Ok(ticks)
  }

  /** The run stops after tick `n - 1`. */
  predicate StopsAt(outs: seq<TickOutcome>, marked: bool, n: nat) {
    0 < n <= |outs| && (marked || outs[n - 1] != Ticked)
  }

  /** The ranks of the `Phase` markers in `events`, in order. */
  function Phases(events: seq<Event>): seq<nat> {
    if events == [] then [] else (if events[0].Phase? then [events[0].rank] else []) + Phases(events[1..])
  }

  /** The ranks `lo..hi`. */
  function Span(lo: nat, hi: nat): seq<nat>
    decreases hi - lo
  {
    if lo > hi then [] else [lo] + Span(lo + 1, hi)
  }

  // ---------------------------------------------------------------- lemmas about the trace

  lemma {:induction false} PhasesAppend(a: seq<Event>, b: seq<Event>)
    ensures Phases(a + b) == Phases(a) + Phases(b)
    decreases |a|
  {
    if a != [] {
      assert (a + b)[0] == a[0];
      assert (a + b)[1..] == a[1..] + b;
      PhasesAppend(a[1..], b);
    } else {
      assert a + b == b;
    }
  }

  /** A trace without markers has no phases. */
  lemma {:induction false} NoPhaseEvents(events: seq<Event>)
    requires forall i :: 0 <= i < |events| ==> !events[i].Phase?
    ensures Phases(events) == []
    decreases |events|
  {
    if events != [] {
      NoPhaseEvents(events[1..]);
    }
  }

  lemma NoPhasesInVisits(n: nat)
    ensures Phases(Visits(n)) == []
  {
    VisitsNewestFirst(n);
    NoPhaseEvents(Visits(n));
  }

  lemma {:induction false} NoPhasesInRenderBlocks(rendered: seq<UIElement>)
    ensures Phases(RenderBlocks(rendered)) == []
    decreases |rendered|
  {
    if rendered != [] {
      var e := rendered[|rendered| - 1];
      NoPhasesInRenderBlocks(rendered[..|rendered| - 1]);
      NoPhaseEvents(RenderBlock(e));
      PhasesAppend(RenderBlocks(rendered[..|rendered| - 1]), RenderBlock(e));
    }
  }

  lemma NoPhasesBetween(k: Priority, s: TickSetting, rendered: seq<UIElement>)
    ensures Phases(Between(k, s, rendered)) == []
  {
    if k == 0 {
      var tail := [WindowTick] + (if s.close then [PostEmptyEvent] else []);
      NoPhasesInVisits(s.messages);
      NoPhaseEvents(tail);
      PhasesAppend(Visits(s.messages), tail);
      assert Between(k, s, rendered) == Visits(s.messages) + tail;
    } else if k == 3 && s.managed {
      var head := [GlClear, SetActiveWindow(true)];
      var tail := [SetActiveWindow(false), SwapBuffers];
      NoPhasesInRenderBlocks(rendered);
      NoPhaseEvents(head);
      NoPhaseEvents(tail);
      PhasesAppend(head, RenderBlocks(rendered));
      PhasesAppend(head + RenderBlocks(rendered), tail);
      assert Between(k, s, rendered) == head + RenderBlocks(rendered) + tail;
    } else {
      NoPhaseEvents(Between(k, s, rendered));
    }
  }

  lemma StagePhases(k: Priority, s: TickSetting, rendered: seq<UIElement>)
    requires |s.batches| == 8 && Phases(s.batches[k].events) == []
    ensures Phases(StageEvents(k, s, rendered)) == [k]
  {
    var after := if s.batches[k].error.None? then Between(k, s, rendered) else [];
    NoPhasesBetween(k, s, rendered);
    PhasesAppend([Phase(k)], s.batches[k].events);
    PhasesAppend([Phase(k)] + s.batches[k].events, after);
  }

  /** No batch of `s` records a marker. */
  predicate Unmarked(s: TickSetting)
    requires |s.batches| == 8
  {
    forall k :: 0 <= k < 8 ==> Phases(s.batches[k].events) == []
  }

  /** The batches of a setting over buckets record no marker: only the tick marks its stages. */
  lemma SettingUnmarked(b: seq<seq<DispatcherOperation>>, messages: nat, close: bool, managed: bool)
    requires |b| == 8
    ensures Unmarked(SettingOf(b, messages, close, managed))
  {
    var s := SettingOf(b, messages, close, managed);
    forall k | 0 <= k < 8 ensures Phases(s.batches[k].events) == [] {
      BatchOfFacts(b[k]);
      NoPhaseEvents(s.batches[k].events);
    }
  }

  lemma {:induction false} FromPhases(k: Priority, s: TickSetting, rendered: seq<UIElement>)
    requires |s.batches| == 8 && Unmarked(s) && k <= Last(s)
    ensures Phases(From(k, s, rendered)) == Span(k, Last(s))
    decreases 8 - k
  {
    StagePhases(k, s, rendered);
    if k < Last(s) {
      FromPhases(k + 1, s, rendered);
      PhasesAppend(StageEvents(k, s, rendered), From(k + 1, s, rendered));
    } else {
      assert From(k, s, rendered) == StageEvents(k, s, rendered);
    }
  }

  /**
   * Within one tick the buckets are processed once each, in rank order, from `APP_PRE_TICK` up to the
   * bucket where the tick stops; a close request stops it before `INPUT_PRE`, and a tick that runs
   * through processes all eight.
   */
  lemma TickPhaseOrder(s: TickSetting, rendered: seq<UIElement>)
    requires |s.batches| == 8 && Unmarked(s)
    ensures Phases(TickEvents(s, rendered)) == Span(APP_PRE_TICK, Last(s))
    ensures Outcome(s) == Ticked ==> Phases(TickEvents(s, rendered)) == [0, 1, 2, 3, 4, 5, 6, 7]
    ensures Outcome(s) == Closed ==> Phases(TickEvents(s, rendered)) == [APP_PRE_TICK]
  {
    FromPhases(APP_PRE_TICK, s, rendered);
    OutcomeStops(s);
    SpanAll();
  }

  /** A tick that ran through stops at the last bucket; one that closed stops at the first. */
  lemma OutcomeStops(s: TickSetting)
    requires |s.batches| == 8
    ensures Outcome(s) == Ticked ==> Last(s) == APP_POST_TICK
    ensures Outcome(s) == Closed ==> Last(s) == APP_PRE_TICK
  {
  }

  lemma SpanAll()
    ensures Span(0, 0) == [0]
    ensures Span(0, 7) == [0, 1, 2, 3, 4, 5, 6, 7]
  {
    assert Span(5, 7) == [5, 6, 7];
    assert Span(2, 7) == [2, 3, 4, 5, 6, 7];
  }

  /** A tick ends as its first throwing batch says, else closed on a close request, else ticked through. */
  lemma OutcomeCases(s: TickSetting)
    requires |s.batches| == 8
    ensures Outcome(s).Failed? <==> exists k: Priority :: Throws(s, k) && (k == 0 || !s.close)
    ensures Outcome(s).Failed? ==>
              Throws(s, Outcome(s).rank) &&
              Some(Outcome(s).error) == s.batches[Outcome(s).rank].error &&
              forall k: Priority :: k < Outcome(s).rank ==> !Throws(s, k)
    ensures Outcome(s) == Closed <==> s.close && !Throws(s, 0)
  {
  }

  /** A tick goes past the stage of bucket `k` exactly when it stops at a later one. */
  lemma PassedIffLater(s: TickSetting, k: Priority)
    requires |s.batches| == 8 && k < APP_POST_TICK
    ensures Passed(Outcome(s), k) <==> k < Last(s)
  {
  }

  /**
   * A close request is acted on right after the pre-tick bucket, the messages and the window's tick:
   * shutdown posts its wake-up and nothing of input, layout or render follows.
   */
  lemma CloseReturnsEarly(s: TickSetting, rendered: seq<UIElement>)
    requires |s.batches| == 8 && s.close && !Throws(s, 0)
    ensures Outcome(s) == Closed
    ensures TickEvents(s, rendered) ==
      [Phase(APP_PRE_TICK)] + s.batches[0].events + Visits(s.messages) + [WindowTick, PostEmptyEvent]
  {
  }

  /** How a tick ends depends only on the batches and the close request. */
  lemma OutcomeOfSetting(b: seq<seq<DispatcherOperation>>, messages: nat, close: bool, managed: bool)
    requires |b| == 8
    ensures Outcome(SettingOf(b, messages, close, managed)) == TickOutcomeOf(b, close)
  {
    OutcomeFromLast(b, SettingOf(b, messages, close, managed), APP_PRE_TICK);
  }

  /** Walking the buckets from any stage the tick reaches finds where it stops and how. */
  lemma {:induction false} OutcomeFromLast(b: seq<seq<DispatcherOperation>>, s: TickSetting, k: Priority)
    requires Settles(s, b) && k <= Last(s)
    ensures OutcomeFrom(b, s.close, k) == Outcome(s)
    decreases 8 - k
  {
    assert s.batches[k] == BatchOf(b[k]);
    if k < Last(s) {
      Continues(s, k);
      OutcomeFromLast(b, s, k + 1);
    }
  }

  /** With every bucket empty a tick closes on a close request and otherwise runs through. */
  lemma {:induction false} EmptyBucketsOutcome(close: bool, k: Priority)
    ensures OutcomeFrom(NO_OPERATIONS, close, k) == if close && k == APP_PRE_TICK then Closed else Ticked
    decreases 8 - k
  {
    assert Aggregated(NO_OPERATIONS[k]) == None;
    if k < APP_POST_TICK {
      EmptyBucketsOutcome(close, k + 1);
    }
  }

  /**
   * `run` exits after the first tick that threw or after which the shutdown flag is set, and only
   * then; every tick before it ran through.
   */
  lemma {:induction false} RunExitsAfterFlag(outs: seq<TickOutcome>, marked: bool)
    ensures forall j :: 0 <= j < RunLength(outs, marked) - 1 ==> !marked && outs[j] == Ticked
    ensures RunLength(outs, marked) < |outs| ==> StopsAt(outs, marked, RunLength(outs, marked))
  {
    if outs != [] && !marked && outs[0] == Ticked {
      var rest := outs[1..];
      RunExitsAfterFlag(rest, marked);
      forall j | 0 <= j < RunLength(outs, marked) - 1
        ensures outs[j] == Ticked
      {
        if j > 0 {
          assert outs[j] == rest[j - 1];
        }
      }
      if RunLength(outs, marked) < |outs| {
        assert outs[RunLength(outs, marked) - 1] == rest[RunLength(rest, marked) - 1];
      }
    } else {
      assert RunLength(outs, marked) <= 1;
    }
  }

  /** `processMessages` visits the newest message first and every message once. */
  lemma {:induction false} VisitsNewestFirst(n: nat)
    ensures |Visits(n)| == n
    ensures forall k :: 0 <= k < n ==> Visits(n)[k] == MessageVisited(n - 1 - k)
  {
    if n > 0 {
      VisitsNewestFirst(n - 1);
    }
  }

  /** Element `i` of the render loop goes through open, begin, render, close and end, in five consecutive events. */
  lemma {:induction false} RenderBlocksAt(rendered: seq<UIElement>, i: nat)
    requires i < |rendered|
    ensures |RenderBlocks(rendered)| == 5 * |rendered|
    ensures RenderBlocks(rendered)[5 * i .. 5 * i + 5] == RenderBlock(rendered[i])
    decreases |rendered|
  {
    var init := rendered[..|rendered| - 1];
    if i < |rendered| - 1 {
      RenderBlocksAt(init, i);
      assert RenderBlocks(rendered)[5 * i .. 5 * i + 5] == RenderBlocks(init)[5 * i .. 5 * i + 5];
    } else if init != [] {
      RenderBlocksAt(init, 0);
    }
  }

  // ---------------------------------------------------------------- the application

  /** The static `Application.CURRENT`. */
  class CurrentApplication {
    var current: Option<Application>

    constructor()
      ensures current.None?
    {
      current := None;
    }
  }

  /**
   * `new Application()`: refused when an application already exists; otherwise the new instance,
   * with an empty message queue and nothing running, becomes the current one.
   */
  method NewApplication(slot: CurrentApplication) returns (r: Result<Application, AppError>)
    modifies slot
    ensures old(slot.current).Some? ==> r == Err(MultipleInstances) && slot.current == old(slot.current)
    ensures old(slot.current).None? ==>
      r.Ok? && fresh(r.value) && slot.current == Some(r.value) &&
      r.value.dispatcher.None? && r.value.mainWindow.None? && r.value.layoutManager.None? &&
      r.value.messageQueue == [] && !r.value.isRunning && !r.value.isMarkedForShutdown
  {
    if slot.current.Some? {
      return Err(MultipleInstances);
    }
    var app := new Application();
    slot.current := Some(app);
    r := Ok(app);
  }

  /** The order in which a `HashSet` is walked, which the source leaves unspecified: each member once. */
  method Enumerate(s: set<UIElement>) returns (q: seq<UIElement>)
    ensures Distinct(q) && forall x :: x in q <==> x in s
  {
    q := [];
    var rest := s;
    while rest != {}
      invariant rest <= s && Distinct(q)
      invariant forall x :: x in q <==> x in s - rest
      decreases |rest|
    {
      var x :| x in rest;
      assert x !in q;
      q := q + [x];
      rest := rest - {x};
    }
  }

  /**
   * The render loop `for (element : layoutManager.getRenderList())`: each element of the render set
   * once, opened, begun, rendered, closed (which clears its render-dirty flag) and ended.
   */
  method RenderAll(lm: ContextLayoutManager, trace: Trace) returns (rendered: seq<UIElement>)
    modifies lm.renderList, trace
    ensures Distinct(rendered) && forall x :: x in rendered <==> x in lm.renderList
    ensures trace.events == old(trace.events) + RenderBlocks(rendered)
    ensures forall x :: x in rendered ==> x.State() == old(x.State()).(isRenderDirty := false)
  {
    rendered := Enumerate(lm.renderList);
    RenderEach(rendered, lm.renderList, trace);
  }

  /** The loop of `RenderAll` over the walk order `rendered` of the render set `s`. */
  method RenderEach(rendered: seq<UIElement>, ghost s: set<UIElement>, trace: Trace)
    requires Distinct(rendered) && forall x :: x in rendered ==> x in s
    modifies s, trace
    ensures trace.events == old(trace.events) + RenderBlocks(rendered)
    ensures forall j :: 0 <= j < |rendered| ==> rendered[j].State() == old(rendered[j].State()).(isRenderDirty := false)
  {
    for i := 0 to |rendered|
      invariant trace.events == old(trace.events) + RenderBlocks(rendered[..i])
      invariant forall j :: 0 <= j < i ==> rendered[j].State() == old(rendered[j].State()).(isRenderDirty := false)
      invariant forall j :: i <= j < |rendered| ==> rendered[j].State() == old(rendered[j].State())
    {
      RenderElement(rendered[i], trace);
      RenderBlocksSnoc(rendered, i);
    }
    assert rendered[..|rendered|] == rendered;
  }

  lemma RenderBlocksSnoc(rendered: seq<UIElement>, i: nat)
    requires i < |rendered|
    ensures RenderBlocks(rendered[..i + 1]) == RenderBlocks(rendered[..i]) + RenderBlock(rendered[i])
  {
    assert rendered[..i + 1][..i] == rendered[..i];
  }

  /** One pass of the render loop. */
  method RenderElement(element: UIElement, trace: Trace)
    modifies element, trace
    ensures element.State() == old(element.State()).(isRenderDirty := false)
    ensures trace.events == old(trace.events) + RenderBlock(element)
  {
    trace.Emit(OpenRender(element));
    trace.Emit(BeginRender);
    trace.Emit(Render(element));
    element.CloseRender(trace);
    trace.Emit(EndRender);
  }

  /** The setting `s` has the batches of the buckets `b`. */
  ghost predicate Settles(s: TickSetting, b: seq<seq<DispatcherOperation>>) {
    |b| == 8 && |s.batches| == 8 && forall k: Priority {:trigger BatchOf(b[k])} :: s.batches[k] == BatchOf(b[k])
  }

  /** `getQueue().process(k)`, marked in the trace, as the tick's setting `s` describes it. */
  method ProcessPhase(q: DispatchQueue, k: Priority, ghost s: TickSetting, ghost b: seq<seq<DispatcherOperation>>,
                      trace: Trace)
    returns (err: Option<DispatchError>)
    requires Settles(s, b) && q.Buckets() == b
    modifies q.Operations(), trace
    ensures err == s.batches[k].error
    ensures trace.events == old(trace.events) + [Phase(k)] + s.batches[k].events
  {
    assert b[k] == q.GetList(k);
    err := ProcessMarked(q, k, trace);
    assert BatchOf(b[k]) == s.batches[k];
  }

  /** The bucket's batch, after its marker. */
  method ProcessMarked(q: DispatchQueue, k: Priority, trace: Trace) returns (err: Option<DispatchError>)
    modifies q.Operations(), trace
    ensures err == Aggregated(q.GetList(k))
    ensures trace.events == old(trace.events) + [Phase(k)] + Runs(q.GetList(k))
  {
    trace.Emit(Phase(k));
    assert forall op :: op in q.GetList(k) ==> op in q.Operations();
    err := q.Process(k, trace);
  }

  /**
   * The idle stages of a tick from bucket `k` on (`APPLICATION_IDLE`, `CONTEXT_IDLE`, `APP_POST_TICK`),
   * ending with `glClear`.
   */
  method IdleStages(q: DispatchQueue, k: Priority, ghost s: TickSetting, ghost b: seq<seq<DispatcherOperation>>,
                    ghost rendered: seq<UIElement>, trace: Trace)
    returns (r: TickOutcome)
    requires APPLICATION_IDLE <= k && Settles(s, b) && q.Buckets() == b && Last(s) >= k
    modifies q.Operations(), trace
    ensures r == Outcome(s)
    ensures trace.events == old(trace.events) + From(k, s, rendered)
    decreases APP_POST_TICK - k
  {
    var err := ProcessPhase(q, k, s, b, trace);
    if err.Some? {
      StopAt(k, s, rendered, old(trace.events), trace.events);
      return Failed(k, err.value);
    }
    if k == APP_POST_TICK {
      trace.Emit(GlClear);
      EndAt(s, rendered, old(trace.events), trace.events);
      return Ticked;
    }
    Continues(s, k);
    ghost var t1 := trace.events;
    assert t1 == old(trace.events) + [Phase(k)] + s.batches[k].events + Between(k, s, rendered);
    r := IdleStages(q, k + 1, s, b, rendered, trace);
    assert trace.events == t1 + From(k + 1, s, rendered);
    GoOn(k, s, rendered, old(trace.events), t1, trace.events);
    assert trace.events == old(trace.events) + From(k, s, rendered);
  }

  class Application {
    var dispatcher: Option<Dispatcher>
    var mainWindow: Option<UIElement>
    var isRunning: bool
    var isMarkedForShutdown: bool
    var layoutManager: Option<ContextLayoutManager>
    var messageQueue: seq<Message>

    constructor()
      ensures dispatcher.None? && mainWindow.None? && layoutManager.None? && messageQueue == []
      ensures !isRunning && !isMarkedForShutdown
    {
      dispatcher := None;
      mainWindow := None;
      isRunning := false;
      isMarkedForShutdown := false;
      layoutManager := None;
      messageQueue := [];
    }

    /** What the layout stage and the render loop of a tick may change. */
    function ManagerFrame(): set<object>
      reads this, if layoutManager.Some? then {layoutManager.value} else {}
    {
      if layoutManager.Some? then {layoutManager.value} + layoutManager.value.arrangeList + layoutManager.value.renderList
      else {}
    }

    /** `pushMessageInternal(message)`: queued, then the event loop is woken. */
    method PushMessageInternal(message: Message, trace: Trace)
      modifies this, trace
      ensures messageQueue == old(messageQueue) + [message]
      ensures trace.events == old(trace.events) + [PostEmptyEvent]
      ensures dispatcher == old(dispatcher) && mainWindow == old(mainWindow) && layoutManager == old(layoutManager)
      ensures isRunning == old(isRunning) && isMarkedForShutdown == old(isMarkedForShutdown)
    {
      messageQueue := messageQueue + [message];
      trace.Emit(PostEmptyEvent);
    }

    /** `shutdown()`: the shutdown flag is set and a null message wakes the event loop. */
    method Shutdown(trace: Trace)
      modifies this, trace
      ensures isMarkedForShutdown
      ensures messageQueue == old(messageQueue) + [NullMessage]
      ensures trace.events == old(trace.events) + [PostEmptyEvent]
      ensures dispatcher == old(dispatcher) && mainWindow == old(mainWindow) && layoutManager == old(layoutManager)
      ensures isRunning == old(isRunning)
    {
      isMarkedForShutdown := true;
      PushMessageInternal(NullMessage, trace);
    }

    /**
     * `getCurrentLayoutManager()`: the manager of the current tick, created on first request, which
     * also posts a null message to wake the event loop.
     */
    method GetCurrentLayoutManager(trace: Trace) returns (lm: ContextLayoutManager)
      modifies this, trace
      ensures layoutManager == Some(lm)
      ensures old(layoutManager).Some? ==>
        lm == old(layoutManager).value && messageQueue == old(messageQueue) && trace.events == old(trace.events)
      ensures old(layoutManager).None? ==>
        fresh(lm) && lm.arrangeList == {} && lm.renderList == {} && !lm.isInactive &&
        messageQueue == old(messageQueue) + [NullMessage] && trace.events == old(trace.events) + [PostEmptyEvent]
      ensures dispatcher == old(dispatcher) && mainWindow == old(mainWindow)
      ensures isRunning == old(isRunning) && isMarkedForShutdown == old(isMarkedForShutdown)
    {
      if layoutManager.None? {
        var created := new ContextLayoutManager();
        layoutManager := Some(created);
        PushMessageInternal(NullMessage, trace);
      }
      lm := layoutManager.value;
    }

    /**
     * `mainWindow.show()`: the window is marked as never laid out, `validate(true)` is recorded, and
     * `updateLayout()` measures it, dirty, against `windowSize`, so the measure always runs. The
     * manager is asked for only when that measure queues the window for rendering, and is created
     * then if there is none.
     */
    method ShowMainWindow(windowSize: WindowRect, core: (UIElement, Rect) -> Rect, trace: Trace)
      requires mainWindow.Some?
      modifies this, trace, mainWindow.value, ManagerFrame()
      ensures dispatcher == old(dispatcher) && mainWindow == old(mainWindow)
      ensures isRunning == old(isRunning) && isMarkedForShutdown == old(isMarkedForShutdown)
      ensures var w := mainWindow.value;
        var s := old(w.State()).(hasNeverUpdatedLayout := true, isLayoutDirty := true);
        w.State() == Measured(s, windowSize, core(w, windowSize)) &&
        w.layoutRect == core(w, windowSize) && w.lastLayoutRect == old(w.layoutRect) &&
        !w.hasNeverUpdatedLayout && !w.isLayoutDirty && !w.isUpdatingLayout
      ensures var w := mainWindow.value;
        var queued := MeasureQueuesRender(old(w.State()).(hasNeverUpdatedLayout := true, isLayoutDirty := true),
                                          windowSize, core(w, windowSize));
        (layoutManager.Some? <==> old(layoutManager).Some? || queued) &&
        (old(layoutManager).Some? ==>
           layoutManager == old(layoutManager) && messageQueue == old(messageQueue) &&
           trace.events == old(trace.events) + [Validated(w, true)] &&
           layoutManager.value.arrangeList == old(layoutManager.value.arrangeList) &&
           layoutManager.value.isInactive == old(layoutManager.value.isInactive) &&
           layoutManager.value.renderList == old(layoutManager.value.renderList) + (if queued then {w} else {})) &&
        (old(layoutManager).None? && queued ==>
           fresh(layoutManager.value) && layoutManager.value.arrangeList == {} && layoutManager.value.renderList == {w} &&
           messageQueue == old(messageQueue) + [NullMessage] &&
           trace.events == old(trace.events) + [Validated(w, true), PostEmptyEvent]) &&
        (old(layoutManager).None? && !queued ==>
           messageQueue == old(messageQueue) && trace.events == old(trace.events) + [Validated(w, true)])
    {
      var w := mainWindow.value;
      w.hasNeverUpdatedLayout := true;
      trace.Emit(Validated(w, true));
      w.isLayoutDirty := true;
      var queued := MeasureQueuesRender(w.State(), windowSize, core(w, windowSize));
      var lm;
      if layoutManager.Some? || queued {
        lm := GetCurrentLayoutManager(trace);
      } else {
        // Nothing asks for a manager: the measure runs against one that nobody keeps and leaves it empty.
        lm := new ContextLayoutManager();
      }
      var _ := w.Measure(windowSize, lm, core);
    }

    /** `processMessages()`: every queued message is visited, newest first, and none is removed. */
    method ProcessMessages(trace: Trace)
      modifies trace
      ensures trace.events == old(trace.events) + Visits(|messageQueue|)
    {
      var i: int := |messageQueue| - 1;
      while i >= 0
        invariant -1 <= i < |messageQueue|
        invariant old(trace.events) + Visits(|messageQueue|) == trace.events + Visits(i + 1)
      {
        trace.Emit(MessageVisited(i));
        i := i - 1;
      }
    }

    /**
     * The layout stage of a tick: with a manager, it is made active, `updateLayout()` is called, and
     * it is made inactive; without one nothing happens.
     */
    method LayoutStage(windowSize: WindowRect, core: (UIElement, Rect) -> Rect, trace: Trace)
      requires mainWindow.Some?
      modifies ManagerFrame(), mainWindow.value, trace
      ensures layoutManager.None? ==> trace.events == old(trace.events)
      ensures layoutManager.Some? ==>
        var lm := layoutManager.value;
        lm.isInactive && trace.events == old(trace.events) + [LayoutUpdate(true)] &&
        lm.arrangeList == old(lm.arrangeList) &&
        old(lm.renderList) <= lm.renderList <= old(lm.renderList) + old(lm.arrangeList) + {mainWindow.value}
      ensures layoutManager == old(layoutManager) && RenderFrame() <= old(ManagerFrame()) + {mainWindow.value}
    {
      if layoutManager.Some? {
        var lm := layoutManager.value;
        lm.SetActive();
        trace.Emit(LayoutUpdate(lm.IsActive()));
        var order := Enumerate(lm.arrangeList);
        var _ := UpdateLayout(lm, mainWindow.value, windowSize, order, core);
        lm.SetInactive();
      }
    }

    /**
     * `run(mainWindow)`, on the thread `currentThread`, with `closes` the answers of `shouldClose()` in
     * successive ticks; it reports how many ticks ran. A null window is refused before anything
     * changes. Otherwise the window is kept, a dispatcher owned by the current thread is created, the
     * application runs, the window is shown, and the run loop repeats the tick until it stops. Since the dispatcher is new,
     * its buckets are empty: no tick throws, and the run stops right after the first close request.
     */
    method Run(window: Option<UIElement>, currentThread: nat, closes: seq<bool>, windowSize: WindowRect,
               core: (UIElement, Rect) -> Rect, trace: Trace)
      returns (r: Result<nat, AppError>, stopped: bool)
      modifies this, trace, ManagerFrame(), if window.Some? then {window.value} else {}
      ensures window.None? ==>
        r == Err(NullWindow) && !stopped && trace.events == old(trace.events) &&
        dispatcher == old(dispatcher) && mainWindow == old(mainWindow) && isRunning == old(isRunning)
      ensures window.Some? ==>
        mainWindow == window && dispatcher.Some? && fresh(dispatcher.value) && dispatcher.value.thread == currentThread
      ensures window.Some? ==>
        var n := RunLength(TickOutcomes(closes, Closed, Ticked), old(isMarkedForShutdown));
        r == Ok(n) && isRunning == !stopped &&
        (stopped <==> 0 < n && (old(isMarkedForShutdown) || closes[n - 1])) &&
        (!stopped ==> n == |closes|) &&
        (forall j :: 0 <= j < n - 1 ==> !closes[j])
    {
      if window.None? {
        return Err(NullWindow), false;
      }
      mainWindow := window;
      var d := new Dispatcher(currentThread);
      dispatcher := Some(d);
      isRunning := true;
      ShowMainWindow(windowSize, core, trace);
      assert Forecasts(NO_OPERATIONS, Closed, Ticked) by {
        forall close: bool ensures TickOutcomeOf(NO_OPERATIONS, close) == if close then Closed else Ticked {
          EmptyBucketsOutcome(close, APP_PRE_TICK);
        }
      }
      var ticks, failure;
      ticks, failure, stopped := RunLoop(closes, Closed, Ticked, windowSize, core, trace);
      RunExitsAfterFlag(TickOutcomes(closes, Closed, Ticked), old(isMarkedForShutdown));
      r := RunResult(ticks, failure);
    }

    /**
     * The `do { tick(); ... } while (true)` loop of `run` and its `finally` block, over the close
     * requests `closes`, counting the ticks, when a tick ends as `onClose` on a close request and as
     * `onOpen` otherwise: a tick that threw ends the loop with its error, a tick after which the
     * shutdown flag is set ends it normally, and otherwise `glfwWaitEvents()` is called before the
     * next tick. When the loop ends the application stops running, the window is disposed and GLFW is
     * terminated; when `closes` runs out first, the run is still going.
     */
    method RunLoop(closes: seq<bool>, ghost onClose: TickOutcome, ghost onOpen: TickOutcome, windowSize: WindowRect,
                   core: (UIElement, Rect) -> Rect, trace: Trace)
      returns (ticks: nat, failure: Option<DispatchError>, stopped: bool)
      requires dispatcher.Some? && mainWindow.Some?
      requires Forecasts(dispatcher.value.queue.Buckets(), onClose, onOpen)
      modifies this, trace, dispatcher.value.queue.Operations(), ManagerFrame(), mainWindow.value
      ensures var outs := TickOutcomes(closes, onClose, onOpen);
        ticks == RunLength(outs, old(isMarkedForShutdown)) &&
        (stopped <==> StopsAt(outs, old(isMarkedForShutdown), ticks)) &&
        failure == (if stopped && outs[ticks - 1].Failed? then Some(outs[ticks - 1].error) else None) &&
        isMarkedForShutdown == (old(isMarkedForShutdown) || (0 < ticks && outs[ticks - 1] == Closed))
      ensures stopped ==>
        !isRunning && |trace.events| >= 2 && trace.events[|trace.events| - 2..] == [WindowDisposed, GlfwTerminated]
      ensures !stopped ==> isRunning == old(isRunning)
      ensures dispatcher == old(dispatcher) && mainWindow == old(mainWindow)
    {
      ghost var b := dispatcher.value.queue.Buckets();
      ghost var outs := TickOutcomes(closes, onClose, onOpen);
      QueueOutsideFrame(dispatcher.value.queue);
      failure, stopped := None, false;
      if closes == [] {
        return 0, None, false;
      }
      var last;
      last, stopped := LoopStep(closes[0], b, onClose, onOpen, windowSize, core, trace);
      ticks := 1;
      if !stopped {
        assert outs[1..] == TickOutcomes(closes[1..], onClose, onOpen);
        var more, next;
        more, next, stopped := RunTicks(closes[1..], b, onClose, onOpen, windowSize, core, trace);
        if more > 0 {
          last := next;
        }
        ticks := 1 + more;
      }
      if stopped {
        failure := if last.Failed? then Some(last.error) else None;
        Finally(trace);
      }
    }

    /**
     * The run loop after its first pass, which left no layout manager behind and the shutdown flag
     * unset: passes over the close requests `closes` until one stops the loop; `last` is the outcome
     * of the last tick that ran.
     */
    method RunTicks(closes: seq<bool>, ghost b: seq<seq<DispatcherOperation>>, ghost onClose: TickOutcome,
                    ghost onOpen: TickOutcome, windowSize: WindowRect, core: (UIElement, Rect) -> Rect, trace: Trace)
      returns (ticks: nat, last: TickOutcome, stopped: bool)
      requires dispatcher.Some? && mainWindow.Some? && layoutManager.None? && !isMarkedForShutdown
      requires dispatcher.value.queue.Buckets() == b && Forecasts(b, onClose, onOpen)
      modifies this, trace, dispatcher.value.queue.Operations(), mainWindow.value
      ensures var outs := TickOutcomes(closes, onClose, onOpen);
        ticks == RunLength(outs, false) && (stopped <==> StopsAt(outs, false, ticks)) &&
        (0 < ticks ==> last == outs[ticks - 1])
      ensures isMarkedForShutdown == (0 < ticks && last == Closed)
      ensures dispatcher == old(dispatcher) && mainWindow == old(mainWindow) && isRunning == old(isRunning)
    {
      ghost var outs := TickOutcomes(closes, onClose, onOpen);
      ticks, last, stopped := 0, Ticked, false;
      while ticks < |closes| && !stopped
        invariant 0 <= ticks <= |closes|
        invariant 0 < ticks ==> last == outs[ticks - 1]
        invariant dispatcher == old(dispatcher) && mainWindow == old(mainWindow) && isRunning == old(isRunning)
        invariant dispatcher.value.queue.Buckets() == b
        invariant stopped <==> 0 < ticks && last != Ticked
        invariant isMarkedForShutdown == (0 < ticks && last == Closed)
        invariant !stopped ==> layoutManager.None?
        invariant !stopped ==> RunLength(outs, false) == ticks + RunLength(outs[ticks..], false)
        invariant stopped ==> RunLength(outs, false) == ticks
      {
        RunLengthStep(outs, ticks);
        last, stopped := LoopStep(closes[ticks], b, onClose, onOpen, windowSize, core, trace);
        ticks := ticks + 1;
      }
    }

    /** The `finally` block of `run`: the application stops running, the window is disposed and GLFW is terminated. */
    method Finally(trace: Trace)
      modifies this, trace
      ensures !isRunning && trace.events == old(trace.events) + [WindowDisposed, GlfwTerminated]
      ensures dispatcher == old(dispatcher) && mainWindow == old(mainWindow)
      ensures isMarkedForShutdown == old(isMarkedForShutdown)
    {
      isRunning := false;
      trace.Emit(WindowDisposed);
      trace.Emit(GlfwTerminated);
    }

    /** No layout object is the dispatcher's queue. */
    lemma QueueOutsideFrame(q: DispatchQueue)
      ensures q !in ManagerFrame()
    {
    }

    /**
     * One pass of the run loop, seen from the loop: `tick()`, then the loop ends if the tick threw or
     * the shutdown flag is set, and otherwise waits for events with `glfwWaitEvents()`.
     */
    method LoopStep(close: bool, ghost b: seq<seq<DispatcherOperation>>, ghost onClose: TickOutcome,
                    ghost onOpen: TickOutcome, windowSize: WindowRect, core: (UIElement, Rect) -> Rect, trace: Trace)
      returns (r: TickOutcome, stopped: bool)
      requires dispatcher.Some? && mainWindow.Some? && dispatcher.value.queue.Buckets() == b
      requires Forecasts(b, onClose, onOpen)
      modifies this, trace, dispatcher.value.queue.Operations(), ManagerFrame(), mainWindow.value
      ensures r == if close then onClose else onOpen
      ensures dispatcher == old(dispatcher) && mainWindow == old(mainWindow) && isRunning == old(isRunning)
      ensures dispatcher.value.queue.Buckets() == old(dispatcher.value.queue.Buckets())
      ensures isMarkedForShutdown == (old(isMarkedForShutdown) || r == Closed)
      ensures stopped <==> old(isMarkedForShutdown) || r != Ticked
      ensures !stopped ==> layoutManager.None? && |trace.events| > 0 && trace.events[|trace.events| - 1] == WaitEvents
    {
      r := TickOnce(close, windowSize, core, trace);
      stopped := r.Failed? || isMarkedForShutdown;
      if !stopped {
        trace.Emit(WaitEvents);
      }
    }

    /** One `tick()`: its outcome, and what the run loop reads after it. */
    method TickOnce(close: bool, windowSize: WindowRect, core: (UIElement, Rect) -> Rect, trace: Trace)
      returns (r: TickOutcome)
      requires dispatcher.Some? && mainWindow.Some?
      modifies this, trace, dispatcher.value.queue.Operations(), ManagerFrame(), mainWindow.value
      ensures r == TickOutcomeOf(old(dispatcher.value.queue.Buckets()), close)
      ensures dispatcher == old(dispatcher) && mainWindow == old(mainWindow) && isRunning == old(isRunning)
      ensures isMarkedForShutdown == (old(isMarkedForShutdown) || r == Closed)
      ensures r == Ticked ==> layoutManager.None?
      ensures dispatcher.value.queue.Buckets() == old(dispatcher.value.queue.Buckets())
    {
      ghost var b := dispatcher.value.queue.Buckets();
      OutcomeOfSetting(b, |messageQueue|, close, layoutManager.Some?);
      var rendered;
      ghost var q := dispatcher.value.queue;
      r, rendered := Tick(close, windowSize, core, trace);
    }

    /** What a tick depends on, read at its start. */
    function Setting(close: bool): (s: TickSetting)
      requires dispatcher.Some?
      reads this, dispatcher.value.queue
      ensures Settles(s, dispatcher.value.queue.Buckets())
    {
      SettingOf(dispatcher.value.queue.Buckets(), |messageQueue|, close, layoutManager.Some?)
    }

    /** The objects the render stage changes: the manager's render set. */
    function RenderFrame(): set<object>
      reads this, if layoutManager.Some? then {layoutManager.value} else {}
    {
      if layoutManager.Some? then layoutManager.value.renderList else {}
    }

    /**
     * `tick()`, with `close` what the main window's `shouldClose()` answers. The stages run in rank
     * order and stop at the first batch that throws; a close request stops the tick after the
     * pre-tick bucket, the messages and the window's tick. The layout manager is updated while
     * active and left inactive, its render set is walked, and it is dropped once `RENDER_POST` has
     * run; a batch that throws before that leaves it in place.
     */
    method Tick(close: bool, windowSize: WindowRect, core: (UIElement, Rect) -> Rect, trace: Trace)
      returns (r: TickOutcome, rendered: seq<UIElement>)
      requires dispatcher.Some? && mainWindow.Some?
      modifies this, trace, dispatcher.value.queue.Operations(), ManagerFrame(), mainWindow.value
      ensures r == Outcome(old(Setting(close)))
      ensures trace.events == old(trace.events) + TickEvents(old(Setting(close)), rendered)
      ensures dispatcher == old(dispatcher) && mainWindow == old(mainWindow) && isRunning == old(isRunning)
      ensures isMarkedForShutdown == (old(isMarkedForShutdown) || r == Closed)
      ensures messageQueue == old(messageQueue) + (if r == Closed then [NullMessage] else [])
      ensures layoutManager == if Passed(r, RENDER_POST) then None else old(layoutManager)
      ensures old(layoutManager).Some? && Passed(r, INPUT_POST) ==> old(layoutManager).value.isInactive
      ensures old(layoutManager).Some? && Passed(r, RENDER_PRE) ==>
        Distinct(rendered) && (forall x :: x in rendered <==> x in old(layoutManager).value.renderList) &&
        forall x :: x in rendered ==> !x.isRenderDirty
      ensures !(old(layoutManager).Some? && Passed(r, RENDER_PRE)) ==> rendered == []
    {
      ghost var s := Setting(close);
      var q := dispatcher.value.queue;
      ghost var b := q.Buckets();
      r, rendered := TickStages(q, s, b, close, windowSize, core, trace);
    }

    /**
     * The part of a tick after the pre-tick bucket: `processMessages()`, the window's `onAppTick()`, and
     * `shutdown()` when the window should close, `close` being what `shouldClose()` answers.
     */
    method WindowTickStage(close: bool, trace: Trace)
      modifies this, trace
      ensures trace.events == old(trace.events) + Visits(|old(messageQueue)|) + [WindowTick] + (if close then [PostEmptyEvent] else [])
      ensures isMarkedForShutdown == (old(isMarkedForShutdown) || close)
      ensures messageQueue == old(messageQueue) + (if close then [NullMessage] else [])
      ensures dispatcher == old(dispatcher) && mainWindow == old(mainWindow) && layoutManager == old(layoutManager)
      ensures isRunning == old(isRunning)
    {
      ProcessMessages(trace);
      trace.Emit(WindowTick);
      if close {
        ghost var t := trace.events;
        Shutdown(trace);
        assert trace.events == t + [PostEmptyEvent];
      }
    }

    /** The stages of a tick from `APP_PRE_TICK` on: the pre-tick bucket, the messages, the window's tick, then the rest. */
    method TickStages(q: DispatchQueue, ghost s: TickSetting, ghost b: seq<seq<DispatcherOperation>>, close: bool,
                      windowSize: WindowRect, core: (UIElement, Rect) -> Rect, trace: Trace)
      returns (r: TickOutcome, rendered: seq<UIElement>)
      requires dispatcher.Some? && q == dispatcher.value.queue && mainWindow.Some?
      requires Settles(s, b) && q.Buckets() == b && s.managed == layoutManager.Some? && s.messages == |messageQueue| &&
               s.close == close
      modifies this, trace, q.Operations(), ManagerFrame(), mainWindow.value
      ensures r == Outcome(s)
      ensures trace.events == old(trace.events) + TickEvents(s, rendered)
      ensures dispatcher == old(dispatcher) && mainWindow == old(mainWindow) && isRunning == old(isRunning)
      ensures isMarkedForShutdown == (old(isMarkedForShutdown) || r == Closed)
      ensures messageQueue == old(messageQueue) + (if r == Closed then [NullMessage] else [])
      ensures layoutManager == if Passed(r, RENDER_POST) then None else old(layoutManager)
      ensures old(layoutManager).Some? && Passed(r, INPUT_POST) ==> old(layoutManager).value.isInactive
      ensures old(layoutManager).Some? && Passed(r, RENDER_PRE) ==>
        Distinct(rendered) && (forall x :: x in rendered <==> x in old(layoutManager).value.renderList) &&
        forall x :: x in rendered ==> !x.isRenderDirty
      ensures !(old(layoutManager).Some? && Passed(r, RENDER_PRE)) ==> rendered == []
    {
      var err := ProcessPhase(q, APP_PRE_TICK, s, b, trace);
      if err.Some? {
        StopAt(APP_PRE_TICK, s, [], old(trace.events), trace.events);
        return Failed(APP_PRE_TICK, err.value), [];
      }
      WindowTickStage(close, trace);
      if close {
        StopAt(APP_PRE_TICK, s, [], old(trace.events), trace.events);
        return Closed, [];
      }
      Continues(s, APP_PRE_TICK);
      ghost var t1 := trace.events;
      assert t1 == old(trace.events) + [Phase(APP_PRE_TICK)] + s.batches[APP_PRE_TICK].events + Between(APP_PRE_TICK, s, []);
      r, rendered := TickFromInput(q, s, b, windowSize, core, trace);
      assert trace.events == t1 + From(INPUT_PRE, s, rendered);
      GoOn(APP_PRE_TICK, s, rendered, old(trace.events), t1, trace.events);
      assert trace.events == old(trace.events) + TickEvents(s, rendered);
    }

    /** The stages of a tick from `INPUT_PRE` on: input, layout, render, idle. */
    method TickFromInput(q: DispatchQueue, ghost s: TickSetting, ghost b: seq<seq<DispatcherOperation>>,
                         windowSize: WindowRect, core: (UIElement, Rect) -> Rect, trace: Trace)
      returns (r: TickOutcome, rendered: seq<UIElement>)
      requires dispatcher.Some? && q == dispatcher.value.queue && mainWindow.Some?
      requires Settles(s, b) && q.Buckets() == b && s.managed == layoutManager.Some? && Last(s) >= INPUT_PRE
      modifies this, trace, q.Operations(), ManagerFrame(), mainWindow.value
      ensures r == Outcome(s)
      ensures trace.events == old(trace.events) + From(INPUT_PRE, s, rendered)
      ensures dispatcher == old(dispatcher) && mainWindow == old(mainWindow) && isRunning == old(isRunning)
      ensures isMarkedForShutdown == old(isMarkedForShutdown) && messageQueue == old(messageQueue)
      ensures layoutManager == if Passed(r, RENDER_POST) then None else old(layoutManager)
      ensures old(layoutManager).Some? && Passed(r, INPUT_POST) ==> old(layoutManager).value.isInactive
      ensures old(layoutManager).Some? && Passed(r, RENDER_PRE) ==>
        Distinct(rendered) && (forall x :: x in rendered <==> x in old(layoutManager).value.renderList) &&
        forall x :: x in rendered ==> !x.isRenderDirty
      ensures !(old(layoutManager).Some? && Passed(r, RENDER_PRE)) ==> rendered == []
    {
      var err := ProcessPhase(q, INPUT_PRE, s, b, trace);
      if err.Some? {
        StopAt(INPUT_PRE, s, [], old(trace.events), trace.events);
        return Failed(INPUT_PRE, err.value), [];
      }
      Continues(s, INPUT_PRE);
      trace.Emit(InputsPre);
      ghost var t1 := trace.events;
      assert t1 == old(trace.events) + [Phase(INPUT_PRE)] + s.batches[INPUT_PRE].events + Between(INPUT_PRE, s, []);
      r, rendered := TickFromLayout(q, s, b, windowSize, core, trace);
      assert trace.events == t1 + From(INPUT_POST, s, rendered);
      GoOn(INPUT_PRE, s, rendered, old(trace.events), t1, trace.events);
      assert trace.events == old(trace.events) + From(INPUT_PRE, s, rendered);
    }

    /** The stages of a tick from `INPUT_POST` on: the layout stage follows the input batch. */
    method TickFromLayout(q: DispatchQueue, ghost s: TickSetting, ghost b: seq<seq<DispatcherOperation>>,
                          windowSize: WindowRect, core: (UIElement, Rect) -> Rect, trace: Trace)
      returns (r: TickOutcome, rendered: seq<UIElement>)
      requires dispatcher.Some? && q == dispatcher.value.queue && mainWindow.Some?
      requires Settles(s, b) && q.Buckets() == b && s.managed == layoutManager.Some? && Last(s) >= INPUT_POST
      modifies this, trace, q.Operations(), ManagerFrame(), mainWindow.value
      ensures r == Outcome(s)
      ensures trace.events == old(trace.events) + From(INPUT_POST, s, rendered)
      ensures dispatcher == old(dispatcher) && mainWindow == old(mainWindow) && isRunning == old(isRunning)
      ensures isMarkedForShutdown == old(isMarkedForShutdown) && messageQueue == old(messageQueue)
      ensures layoutManager == if Passed(r, RENDER_POST) then None else old(layoutManager)
      ensures old(layoutManager).Some? && Passed(r, INPUT_POST) ==> old(layoutManager).value.isInactive
      ensures old(layoutManager).Some? && Passed(r, RENDER_PRE) ==>
        Distinct(rendered) && (forall x :: x in rendered <==> x in old(layoutManager).value.renderList) &&
        forall x :: x in rendered ==> !x.isRenderDirty
      ensures !(old(layoutManager).Some? && Passed(r, RENDER_PRE)) ==> rendered == []
    {
      var err := ProcessPhase(q, INPUT_POST, s, b, trace);
      if err.Some? {
        StopAt(INPUT_POST, s, [], old(trace.events), trace.events);
        return Failed(INPUT_POST, err.value), [];
      }
      Continues(s, INPUT_POST);
      ghost var t := trace.events;
      trace.Emit(InputsPost);
      LayoutStage(windowSize, core, trace);
      if s.managed {
        assert t + ([InputsPost] + [LayoutUpdate(true)]) == t + [InputsPost] + [LayoutUpdate(true)];
      }
      ghost var t1 := trace.events;
      assert t1 == old(trace.events) + [Phase(INPUT_POST)] + s.batches[INPUT_POST].events + Between(INPUT_POST, s, []);
      r, rendered := TickFromRender(q, s, b, trace);
      assert trace.events == t1 + From(RENDER_PRE, s, rendered);
      GoOn(INPUT_POST, s, rendered, old(trace.events), t1, trace.events);
      assert trace.events == old(trace.events) + From(INPUT_POST, s, rendered);
    }

    /** The stages of a tick from `RENDER_PRE` on; the manager is dropped after `RENDER_POST`. */
    method TickFromRender(q: DispatchQueue, ghost s: TickSetting, ghost b: seq<seq<DispatcherOperation>>, trace: Trace)
      returns (r: TickOutcome, rendered: seq<UIElement>)
      requires dispatcher.Some? && q == dispatcher.value.queue
      requires Settles(s, b) && q.Buckets() == b && s.managed == layoutManager.Some? && Last(s) >= RENDER_PRE
      modifies this, trace, q.Operations(), RenderFrame()
      ensures r == Outcome(s)
      ensures trace.events == old(trace.events) + From(RENDER_PRE, s, rendered)
      ensures dispatcher == old(dispatcher) && mainWindow == old(mainWindow) && isRunning == old(isRunning)
      ensures isMarkedForShutdown == old(isMarkedForShutdown) && messageQueue == old(messageQueue)
      ensures layoutManager == if Passed(r, RENDER_POST) then None else old(layoutManager)
      ensures old(layoutManager).Some? && Passed(r, RENDER_PRE) ==>
        Distinct(rendered) && (forall x :: x in rendered <==> x in old(layoutManager).value.renderList) &&
        forall x :: x in rendered ==> !x.isRenderDirty
      ensures !(old(layoutManager).Some? && Passed(r, RENDER_PRE)) ==> rendered == []
    {
      var err := ProcessPhase(q, RENDER_PRE, s, b, trace);
      if err.Some? {
        StopAt(RENDER_PRE, s, [], old(trace.events), trace.events);
        return Failed(RENDER_PRE, err.value), [];
      }
      Continues(s, RENDER_PRE);
      rendered := RenderStage(trace);
      ghost var t1 := trace.events;
      assert t1 == old(trace.events) + [Phase(RENDER_PRE)] + s.batches[RENDER_PRE].events + Between(RENDER_PRE, s, rendered);
      r := TickFromRenderPost(q, s, b, rendered, trace);
      assert trace.events == t1 + From(RENDER_POST, s, rendered);
      GoOn(RENDER_PRE, s, rendered, old(trace.events), t1, trace.events);
      assert trace.events == old(trace.events) + From(RENDER_PRE, s, rendered);
    }

    /** The stages of a tick from `RENDER_POST` on; the manager is dropped once `RENDER_POST` has run. */
    method TickFromRenderPost(q: DispatchQueue, ghost s: TickSetting, ghost b: seq<seq<DispatcherOperation>>,
                              ghost rendered: seq<UIElement>, trace: Trace)
      returns (r: TickOutcome)
      requires Settles(s, b) && q.Buckets() == b && Last(s) >= RENDER_POST
      modifies this, trace, q.Operations()
      ensures r == Outcome(s)
      ensures trace.events == old(trace.events) + From(RENDER_POST, s, rendered)
      ensures dispatcher == old(dispatcher) && mainWindow == old(mainWindow) && isRunning == old(isRunning)
      ensures isMarkedForShutdown == old(isMarkedForShutdown) && messageQueue == old(messageQueue)
      ensures layoutManager == if Passed(r, RENDER_POST) then None else old(layoutManager)
      ensures Passed(r, RENDER_PRE)
    {
      var err := ProcessPhase(q, RENDER_POST, s, b, trace);
      if err.Some? {
        StopAt(RENDER_POST, s, rendered, old(trace.events), trace.events);
        return Failed(RENDER_POST, err.value);
      }
      Continues(s, RENDER_POST);
      trace.Emit(RenderPost);
      layoutManager := None;
      ghost var t1 := trace.events;
      assert t1 == old(trace.events) + [Phase(RENDER_POST)] + s.batches[RENDER_POST].events + Between(RENDER_POST, s, rendered);
      r := IdleStages(q, APPLICATION_IDLE, s, b, rendered, trace);
      assert trace.events == t1 + From(APPLICATION_IDLE, s, rendered);
      GoOn(RENDER_POST, s, rendered, old(trace.events), t1, trace.events);
      assert trace.events == old(trace.events) + From(RENDER_POST, s, rendered);
    }

    /**
     * What follows `RENDER_PRE`: `processRenderPre()` clears the frame, then, with a manager, the
     * render loop runs between setting and clearing the active window, and the buffers are swapped.
     */
    method RenderStage(trace: Trace) returns (rendered: seq<UIElement>)
      modifies RenderFrame(), trace
      ensures trace.events == old(trace.events) + RenderEvents(layoutManager.Some?, rendered)
      ensures layoutManager.None? ==> rendered == []
      ensures layoutManager.Some? ==>
        Distinct(rendered) && (forall x :: x in rendered <==> x in layoutManager.value.renderList) &&
        forall x :: x in rendered ==> !x.isRenderDirty
    {
      trace.Emit(GlClear);
      rendered := [];
      if layoutManager.Some? {
        trace.Emit(SetActiveWindow(true));
        rendered := RenderAll(layoutManager.value, trace);
        trace.Emit(SetActiveWindow(false));
        trace.Emit(SwapBuffers);
      }
    }
  }
}
