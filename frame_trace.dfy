/**
 * One frame of the render-thread hand-off, as the sequence of observable
 * events that `DrawFrameTask::run` produces: calls into the canvas context and
 * the timing sink, the release of the waiting producer (`Unblock`), and the
 * reports to the hint session. The functions here say which trace a frame
 * produces; the lemmas state the hand-off rules as properties of that trace.
 */
module FrameTrace {
  import opened Optional
  import opened SyncResult
  import opened PerformanceHint

  /** The identity of a `DeferredLayerUpdater` (its address in the source). */
  type LayerId = nat

  datatype Rect = Rect(left: int, top: int, right: int, bottom: int)

  /** The entries of the frame-info array that the task reads. */
  datatype FrameInfo = FrameInfo(
    vsync: int,
    intendedVsync: int,
    frameTimelineVsyncId: int,
    frameDeadline: int,
    frameInterval: int,
    frameStartTime: int)

  /**
   * Everything the frame learns from outside the task: the three clock
   * readings, the answers of the canvas context and of `prepareTree`, the
   * dequeue time `draw()` returns, and the process-wide target CPU percentage.
   */
  datatype FrameEnv = FrameEnv(
    queuedAt: int,
    runStart: int,
    makeCurrent: bool,
    hasSurface: bool,
    tree: TreeOutput,
    dequeueBufferDuration: int,
    now: int,
    targetCpuTimePercentage: int)

  /** What the producer left in the task for the render thread to consume. */
  datatype Staged = Staged(
    layers: seq<LayerId>,
    frameInfo: FrameInfo,
    contentDrawBounds: Rect,
    syncQueued: int,
    hasFrameCompleteCallback: bool,
    hasFrameCallback: bool)

  /** The hint-session state carried from frame to frame. */
  datatype HintState = HintState(lastTargetWorkDuration: int, lastDequeueBufferDuration: int)

  datatype Event =
    | Post
    | VsyncReceived(vsync: int, intendedVsync: int, vsyncId: int, frameDeadline: int, frameInterval: int)
    | MakeCurrent
    | UnpinImages
    | ApplyLayer(layer: LayerId)
    | SetContentDrawBounds(bounds: Rect)
    | PrepareTree(syncQueued: int)
    | AddFrameCompleteListener
    | Unblock
    | EnqueueFrameWork
    | Draw
    | WaitOnFences
    | UpdateTargetWorkDuration(target: int)
    | ReportActualWorkDuration(actual: int)

  predicate IsDrawStep(e: Event) {
    e == Draw || e == WaitOnFences
  }

  /** The events that release the producer or finish the GPU work of the frame. */
  predicate IsGate(e: Event) {
    e == Unblock || IsDrawStep(e)
  }

  predicate IsHint(e: Event) {
    e.UpdateTargetWorkDuration? || e.ReportActualWorkDuration?
  }

  // ---------------------------------------------------------------------
  // The trace of one frame

  /** One `apply()` per queued layer, in queue order. */
  function ApplyEvents(layers: seq<LayerId>): (t: seq<Event>)
    ensures |t| == |layers|
    ensures forall i :: 0 <= i < |t| ==> t[i] == ApplyLayer(layers[i])
    decreases |layers|
  {
    if layers == [] then []
    else ApplyEvents(layers[..|layers| - 1]) + [ApplyLayer(layers[|layers| - 1])]
  }

  /** The events of `syncFrameState`, from the vsync report to `prepareTree`. */
  function SyncPhaseEvents(s: Staged): (t: seq<Event>)
  {
    var fi := s.frameInfo;
    [VsyncReceived(fi.vsync, fi.intendedVsync, fi.frameTimelineVsyncId, fi.frameDeadline, fi.frameInterval),
     MakeCurrent, UnpinImages]
    + ApplyEvents(s.layers)
    + [SetContentDrawBounds(s.contentDrawBounds), PrepareTree(s.syncQueued)]
  }

  /** `canDrawThisFrame` as `run` sees it after `syncFrameState`. */
  function CanDrawThisFrame(env: FrameEnv): (b: bool)
  {
    FinalCanDrawThisFrame(env.hasSurface, env.makeCurrent, env.tree)
  }

  /**
   * The part of `run` after sync: the early or late release of the producer
   * around exactly one of `draw` and `waitOnFences`.
   */
  function DrawPhaseEvents(canUnblockUiThread: bool, hasFrameCallback: bool, canDrawThisFrame: bool): (t: seq<Event>)
  {
    (if canUnblockUiThread then [Unblock] else [])
    + (if hasFrameCallback then [EnqueueFrameWork] else [])
    + [if canDrawThisFrame then Draw else WaitOnFences]
    + (if canUnblockUiThread then [] else [Unblock])
  }

  /** This frame's dequeue-buffer wait: what `draw()` returned, or 0 when the frame was not drawn. */
  function DequeueDuration(env: FrameEnv): (d: int)
  {
    if CanDrawThisFrame(env) then env.dequeueBufferDuration else 0
  }

  /** This frame's target work duration. */
  function FrameTarget(s: Staged, env: FrameEnv): (target: int)
  {
    TargetWorkDuration(s.frameInfo.frameDeadline, s.frameInfo.intendedVsync, env.targetCpuTimePercentage)
  }

  /** This frame's actual work duration. */
  function FrameActual(s: Staged, h: HintState, env: FrameEnv): (actual: int)
  {
    ActualWorkDuration(env.now - s.frameInfo.frameStartTime, env.runStart - s.syncQueued,
                       h.lastDequeueBufferDuration, DequeueDuration(env))
  }

  /** The target report if it is forwarded, then the actual report if it is sane. */
  function HintReports(lastTargetWorkDuration: int, target: int, actual: int): (t: seq<Event>)
  {
    (if ForwardsTarget(lastTargetWorkDuration, target) then [UpdateTargetWorkDuration(target)] else [])
    + (if InSanityRange(actual) then [ReportActualWorkDuration(actual)] else [])
  }

  /** The reports to the hint session; none unless both callbacks are set. */
  function HintEvents(hintCallbacksSet: bool, s: Staged, h: HintState, env: FrameEnv): (t: seq<Event>)
  {
    if !hintCallbacksSet then []
    else HintReports(h.lastTargetWorkDuration, FrameTarget(s, env), FrameActual(s, h, env))
  }

  /** The sync phase followed by the hand-over of the frame-complete callback. */
  function PreDrawEvents(s: Staged): (t: seq<Event>)
  {
    SyncPhaseEvents(s) + (if s.hasFrameCompleteCallback then [AddFrameCompleteListener] else [])
  }

  /** The whole trace of one `run`. */
  function RunEvents(s: Staged, hintCallbacksSet: bool, h: HintState, env: FrameEnv): (t: seq<Event>)
  {
    PreDrawEvents(s)
    + DrawPhaseEvents(env.tree.prepareTextures, s.hasFrameCallback, CanDrawThisFrame(env))
    + HintEvents(hintCallbacksSet, s, h, env)
  }

  /** The hint state the next frame starts from. */
  function NextHintState(hintCallbacksSet: bool, s: Staged, h: HintState, env: FrameEnv): (h': HintState)
    ensures h'.lastDequeueBufferDuration == (if CanDrawThisFrame(env) then env.dequeueBufferDuration else 0)
    ensures h'.lastTargetWorkDuration != h.lastTargetWorkDuration ==>
              hintCallbacksSet && InSanityRange(h'.lastTargetWorkDuration)
              && h'.lastTargetWorkDuration == FrameTarget(s, env)
    ensures hintCallbacksSet && ForwardsTarget(h.lastTargetWorkDuration, FrameTarget(s, env)) ==>
              h'.lastTargetWorkDuration == FrameTarget(s, env)
  {
    HintState(
      if hintCallbacksSet then NextLastTarget(h.lastTargetWorkDuration, FrameTarget(s, env))
      else h.lastTargetWorkDuration,
      DequeueDuration(env))
  }

  // ---------------------------------------------------------------------
  // Reading a trace

  function Count(t: seq<Event>, e: Event): (n: nat)
    decreases |t|
  {
    if t == [] then 0 else Count(t[..|t| - 1], e) + (if t[|t| - 1] == e then 1 else 0)
  }

  /** The values `pick` extracts from the trace, in trace order. */
  function Select<U>(t: seq<Event>, pick: Event -> Option<U>): (r: seq<U>)
    decreases |t|
  {
    if t == [] then []
    else Select(t[..|t| - 1], pick) + (match pick(t[|t| - 1]) case Some(u) => [u] case None => [])
  }

  function AppliedLayer(e: Event): (l: Option<LayerId>) {
    if e.ApplyLayer? then Some(e.layer) else None
  }

  function ForwardedTarget(e: Event): (target: Option<int>) {
    if e.UpdateTargetWorkDuration? then Some(e.target) else None
  }

  function ReportedActual(e: Event): (actual: Option<int>) {
    if e.ReportActualWorkDuration? then Some(e.actual) else None
  }

  /** The layers applied, in order. */
  function Applied(t: seq<Event>): (layers: seq<LayerId>) {
    Select(t, AppliedLayer)
  }

  /** The target durations forwarded to the hint session, in order. */
  function Targets(t: seq<Event>): (targets: seq<int>) {
    Select(t, ForwardedTarget)
  }

  /** The actual durations reported to the hint session, in order. */
  function Actuals(t: seq<Event>): (actuals: seq<int>) {
    Select(t, ReportedActual)
  }

  lemma {:induction false} CountAppend(a: seq<Event>, b: seq<Event>, e: Event)
    ensures Count(a + b, e) == Count(a, e) + Count(b, e)
    decreases |b|
  {
    if b != [] {
      assert (a + b)[..|a + b| - 1] == a + b[..|b| - 1];
      CountAppend(a, b[..|b| - 1], e);
    } else {
      assert a + b == a;
    }
  }

  lemma {:induction false} SelectAppend<U>(a: seq<Event>, b: seq<Event>, pick: Event -> Option<U>)
    ensures Select(a + b, pick) == Select(a, pick) + Select(b, pick)
    decreases |b|
  {
    if b != [] {
      assert (a + b)[..|a + b| - 1] == a + b[..|b| - 1];
      SelectAppend(a, b[..|b| - 1], pick);
    } else {
      assert a + b == a;
    }
  }

  lemma {:induction false} CountAbsent(t: seq<Event>, e: Event)
    requires forall i :: 0 <= i < |t| ==> t[i] != e
    ensures Count(t, e) == 0
    decreases |t|
  {
    if t != [] {
      var init := t[..|t| - 1];
      assert forall i :: 0 <= i < |init| ==> init[i] == t[i];
      CountAbsent(init, e);
    }
  }

  lemma {:induction false} SelectAbsent<U>(t: seq<Event>, pick: Event -> Option<U>)
    requires forall i :: 0 <= i < |t| ==> pick(t[i]).None?
    ensures Select(t, pick) == []
    decreases |t|
  {
    if t != [] {
      var init := t[..|t| - 1];
      assert forall i :: 0 <= i < |init| ==> init[i] == t[i];
      SelectAbsent(init, pick);
    }
  }

  lemma {:induction false} AppliedApplyEvents(layers: seq<LayerId>)
    ensures Applied(ApplyEvents(layers)) == layers
    decreases |layers|
  {
    if layers != [] {
      var init := layers[..|layers| - 1];
      AppliedApplyEvents(init);
      SelectAppend(ApplyEvents(init), [ApplyLayer(layers[|layers| - 1])], AppliedLayer);
      assert Select([ApplyLayer(layers[|layers| - 1])], AppliedLayer) == [layers[|layers| - 1]];
      assert init + [layers[|layers| - 1]] == layers;
    }
  }

  // ---------------------------------------------------------------------
  // Where the events of a run sit

  predicate IsSyncStep(e: Event) {
    e.VsyncReceived? || e == MakeCurrent || e == UnpinImages || e.ApplyLayer?
    || e.SetContentDrawBounds? || e.PrepareTree?
  }

  /**
   * Before the draw phase there is no release, draw step or hint report; the
   * layers are applied at positions 3 to 2 + n, after `makeCurrent` and
   * `unpinImages` and before the single `prepareTree`, at position 4 + n.
   */
  lemma PreDrawLayout(s: Staged)
    ensures var p := PreDrawEvents(s); var n := |s.layers|;
      && |p| >= n + 5
      && (forall i :: 0 <= i < |p| ==> !IsGate(p[i]) && !IsHint(p[i]))
      && (forall i :: 0 <= i < |p| ==> (p[i].ApplyLayer? <==> 3 <= i < 3 + n))
      && (forall i :: 3 <= i < 3 + n ==> p[i] == ApplyLayer(s.layers[i - 3]))
      && (forall i :: 0 <= i < |p| ==> (p[i].PrepareTree? <==> i == 4 + n))
      && (forall i :: 0 <= i < |p| ==> (p[i] == MakeCurrent || p[i] == UnpinImages ==> i < 3))
  {
    var p := PreDrawEvents(s);
    var sync := SyncPhaseEvents(s);
    var n := |s.layers|;
    var apply := ApplyEvents(s.layers);
    forall i | 0 <= i < |p|
      ensures !IsGate(p[i]) && !IsHint(p[i])
      ensures p[i].ApplyLayer? <==> 3 <= i < 3 + n
      ensures 3 <= i < 3 + n ==> p[i] == ApplyLayer(s.layers[i - 3])
      ensures p[i].PrepareTree? <==> i == 4 + n
      ensures p[i] == MakeCurrent || p[i] == UnpinImages ==> i < 3
    {
      if i < 3 {
        assert p[i] == sync[i];
      } else if i < 3 + n {
        assert p[i] == sync[i] == apply[i - 3];
      } else if i < 5 + n {
        assert p[i] == sync[i];
      } else {
        assert p[i] == AddFrameCompleteListener;
      }
    }
  }

  /**
   * The sync phase: the vsync report, `makeCurrent`, `unpinImages`, one apply
   * per queued layer, the content bounds, and `prepareTree` last.
   */
  lemma SyncPhaseShape(s: Staged)
    ensures var t := SyncPhaseEvents(s); var n := |s.layers|;
      && |t| == n + 5
      && t[0] == VsyncReceived(s.frameInfo.vsync, s.frameInfo.intendedVsync, s.frameInfo.frameTimelineVsyncId,
                               s.frameInfo.frameDeadline, s.frameInfo.frameInterval)
      && t[1] == MakeCurrent && t[2] == UnpinImages
      && t[3..3 + n] == ApplyEvents(s.layers)
      && t[n + 3] == SetContentDrawBounds(s.contentDrawBounds)
      && t[n + 4] == PrepareTree(s.syncQueued)
  {
    var t := SyncPhaseEvents(s);
    var n := |s.layers|;
    var head: seq<Event> := [t[0], MakeCurrent, UnpinImages];
    assert t == head + ApplyEvents(s.layers)
              + [SetContentDrawBounds(s.contentDrawBounds), PrepareTree(s.syncQueued)];
    assert t[3..3 + n] == ApplyEvents(s.layers);
  }

  /**
   * The draw phase: the release comes first exactly when textures were
   * prepared and last otherwise; the frame callback is enqueued only if set;
   * `draw` runs exactly when the frame can be drawn and `waitOnFences` exactly
   * when it cannot.
   */
  lemma DrawPhaseShape(canUnblockUiThread: bool, hasFrameCallback: bool, canDrawThisFrame: bool)
    ensures var t := DrawPhaseEvents(canUnblockUiThread, hasFrameCallback, canDrawThisFrame);
      && |t| == (if hasFrameCallback then 3 else 2)
      && (t[0] == Unblock <==> canUnblockUiThread)
      && (t[|t| - 1] == Unblock <==> !canUnblockUiThread)
      && (EnqueueFrameWork in t <==> hasFrameCallback)
      && (Draw in t <==> canDrawThisFrame)
      && (WaitOnFences in t <==> !canDrawThisFrame)
  {
  }

  /**
   * The hint reports: at most two, the target one exactly when the target is
   * forwarded, the actual one exactly when it is sane, the target one first.
   */
  lemma HintReportsShape(lastTargetWorkDuration: int, target: int, actual: int)
    ensures var t := HintReports(lastTargetWorkDuration, target, actual);
      && |t| <= 2
      && (UpdateTargetWorkDuration(target) in t <==> ForwardsTarget(lastTargetWorkDuration, target))
      && (ReportActualWorkDuration(actual) in t <==> InSanityRange(actual))
      && (|t| == 2 ==> t[0].UpdateTargetWorkDuration? && t[1].ReportActualWorkDuration?)
      && (forall i :: 0 <= i < |t| ==> IsHint(t[i]))
  {
  }

  /** The draw phase holds only releases, the frame callback and the draw step. */
  lemma DrawPhaseLayout(canUnblockUiThread: bool, hasFrameCallback: bool, canDrawThisFrame: bool)
    ensures var d := DrawPhaseEvents(canUnblockUiThread, hasFrameCallback, canDrawThisFrame);
      forall i :: 0 <= i < |d| ==> !IsSyncStep(d[i]) && !IsHint(d[i])
  {
  }

  /** The hint step holds only hint reports. */
  lemma HintLayout(hintCallbacksSet: bool, s: Staged, h: HintState, env: FrameEnv)
    ensures var t := HintEvents(hintCallbacksSet, s, h, env);
      forall i :: 0 <= i < |t| ==> IsHint(t[i])
  {
  }

  /** A run's trace is the pre-draw events, the draw phase and the hint step, in that order. */
  lemma RunEventsAt(s: Staged, hintCallbacksSet: bool, h: HintState, env: FrameEnv)
    ensures var t := RunEvents(s, hintCallbacksSet, h, env);
      var p := PreDrawEvents(s);
      var d := DrawPhaseEvents(env.tree.prepareTextures, s.hasFrameCallback, CanDrawThisFrame(env));
      var x := HintEvents(hintCallbacksSet, s, h, env);
      && |t| == |p| + |d| + |x|
      && (forall i :: 0 <= i < |p| ==> t[i] == p[i])
      && (forall i :: |p| <= i < |p| + |d| ==> t[i] == d[i - |p|])
      && (forall i :: |p| + |d| <= i < |t| ==> t[i] == x[i - |p| - |d|])
  {
  }

  // ---------------------------------------------------------------------
  // The hand-off rules

  lemma GateCount(s: Staged, hintCallbacksSet: bool, h: HintState, env: FrameEnv, e: Event)
    requires IsGate(e)
    ensures Count(RunEvents(s, hintCallbacksSet, h, env), e)
         == Count(DrawPhaseEvents(env.tree.prepareTextures, s.hasFrameCallback, CanDrawThisFrame(env)), e)
  {
    var p := PreDrawEvents(s);
    var d := DrawPhaseEvents(env.tree.prepareTextures, s.hasFrameCallback, CanDrawThisFrame(env));
    var x := HintEvents(hintCallbacksSet, s, h, env);
    PreDrawLayout(s);
    HintLayout(hintCallbacksSet, s, h, env);
    CountAbsent(p, e);
    CountAbsent(x, e);
    CountAppend(p, d, e);
    CountAppend(p + d, x, e);
  }

  /** Appending one event adds one occurrence exactly when it is the counted event. */
  lemma CountSnoc(t: seq<Event>, x: Event, e: Event)
    ensures Count(t + [x], e) == Count(t, e) + (if x == e then 1 else 0)
  {
    assert (t + [x])[..|t|] == t;
  }

  /** An event that is present only under a condition occurs once when the condition holds. */
  lemma CountOptional(b: bool, x: Event, e: Event)
    ensures Count(if b then [x] else [], e) == if b && x == e then 1 else 0
  {
    if b {
      CountSnoc([], x, e);
    }
  }

  /** Counting over the draw phase's four parts. */
  lemma CountFourParts(u: seq<Event>, fc: seq<Event>, step: Event, v: seq<Event>, e: Event)
    ensures Count(u + fc + [step] + v, e) == Count(u, e) + Count(fc, e) + (if step == e then 1 else 0) + Count(v, e)
  {
    CountAppend(u, fc, e);
    CountSnoc(u + fc, step, e);
    CountAppend(u + fc + [step], v, e);
  }

  /** How often an event occurs in the draw phase. */
  lemma DrawPhaseCount(canUnblockUiThread: bool, hasFrameCallback: bool, canDrawThisFrame: bool, e: Event)
    ensures Count(DrawPhaseEvents(canUnblockUiThread, hasFrameCallback, canDrawThisFrame), e)
         == (if e == Unblock then 1 else 0)
          + (if hasFrameCallback && e == EnqueueFrameWork then 1 else 0)
          + (if e == (if canDrawThisFrame then Draw else WaitOnFences) then 1 else 0)
  {
    CountOptional(canUnblockUiThread, Unblock, e);
    CountOptional(hasFrameCallback, EnqueueFrameWork, e);
    CountOptional(!canUnblockUiThread, Unblock, e);
    CountFourParts(if canUnblockUiThread then [Unblock] else [],
                   if hasFrameCallback then [EnqueueFrameWork] else [],
                   if canDrawThisFrame then Draw else WaitOnFences,
                   if canUnblockUiThread then [] else [Unblock], e);
  }

  /** The draw phase holds one release and one draw step. */
  lemma DrawPhaseCounts(canUnblockUiThread: bool, hasFrameCallback: bool, canDrawThisFrame: bool)
    ensures var d := DrawPhaseEvents(canUnblockUiThread, hasFrameCallback, canDrawThisFrame);
      && Count(d, Unblock) == 1
      && Count(d, Draw) == (if canDrawThisFrame then 1 else 0)
      && Count(d, WaitOnFences) == (if canDrawThisFrame then 0 else 1)
  {
    DrawPhaseCount(canUnblockUiThread, hasFrameCallback, canDrawThisFrame, Unblock);
    DrawPhaseCount(canUnblockUiThread, hasFrameCallback, canDrawThisFrame, Draw);
    DrawPhaseCount(canUnblockUiThread, hasFrameCallback, canDrawThisFrame, WaitOnFences);
  }

  /** Every run releases the producer exactly once and runs exactly one of `draw` and `waitOnFences`. */
  lemma UnblocksExactlyOnce(s: Staged, hintCallbacksSet: bool, h: HintState, env: FrameEnv)
    ensures Count(RunEvents(s, hintCallbacksSet, h, env), Unblock) == 1
    ensures Count(RunEvents(s, hintCallbacksSet, h, env), Draw) == (if CanDrawThisFrame(env) then 1 else 0)
    ensures Count(RunEvents(s, hintCallbacksSet, h, env), WaitOnFences) == (if CanDrawThisFrame(env) then 0 else 1)
  {
    GateCount(s, hintCallbacksSet, h, env, Unblock);
    GateCount(s, hintCallbacksSet, h, env, Draw);
    GateCount(s, hintCallbacksSet, h, env, WaitOnFences);
    DrawPhaseCounts(env.tree.prepareTextures, s.hasFrameCallback, CanDrawThisFrame(env));
  }

  /**
   * When `prepareTextures` succeeded the producer is released before the draw
   * step; when the texture cache ran out it is released only after it. Either
   * way the release comes after `prepareTree`.
   */
  lemma UnblockOrdering(s: Staged, hintCallbacksSet: bool, h: HintState, env: FrameEnv)
    ensures var t := RunEvents(s, hintCallbacksSet, h, env);
      forall i, j :: 0 <= i < |t| && 0 <= j < |t| && t[i] == Unblock && IsDrawStep(t[j]) ==>
        (i < j <==> env.tree.prepareTextures)
    ensures var t := RunEvents(s, hintCallbacksSet, h, env);
      forall i, j :: 0 <= i < |t| && 0 <= j < |t| && t[i].PrepareTree? && t[j] == Unblock ==> i < j
  {
    UnblockAroundDrawStep(s, hintCallbacksSet, h, env);
    UnblockAfterPrepareTree(s, hintCallbacksSet, h, env);
  }

  /** Inside the draw phase the release is first when textures were prepared, else last. */
  lemma DrawPhaseOrder(canUnblockUiThread: bool, hasFrameCallback: bool, canDrawThisFrame: bool)
    ensures var d := DrawPhaseEvents(canUnblockUiThread, hasFrameCallback, canDrawThisFrame);
      forall i, j :: 0 <= i < |d| && 0 <= j < |d| && d[i] == Unblock && IsDrawStep(d[j]) ==>
        (i < j <==> canUnblockUiThread)
  {
    var d := DrawPhaseEvents(canUnblockUiThread, hasFrameCallback, canDrawThisFrame);
    var ds := if canDrawThisFrame then Draw else WaitOnFences;
    var fc: seq<Event> := if hasFrameCallback then [EnqueueFrameWork] else [];
    if canUnblockUiThread {
      assert d == [Unblock] + fc + [ds];
    } else {
      assert d == fc + [ds] + [Unblock];
    }
  }

  /** In a run, releases and draw steps sit in the draw phase, at their place in it. */
  lemma GatesInDrawPhase(s: Staged, hintCallbacksSet: bool, h: HintState, env: FrameEnv)
    ensures var t := RunEvents(s, hintCallbacksSet, h, env);
      var p := PreDrawEvents(s);
      var d := DrawPhaseEvents(env.tree.prepareTextures, s.hasFrameCallback, CanDrawThisFrame(env));
      forall i :: 0 <= i < |t| && IsGate(t[i]) ==> |p| <= i < |p| + |d| && t[i] == d[i - |p|]
  {
    var t := RunEvents(s, hintCallbacksSet, h, env);
    var p := PreDrawEvents(s);
    var d := DrawPhaseEvents(env.tree.prepareTextures, s.hasFrameCallback, CanDrawThisFrame(env));
    var x := HintEvents(hintCallbacksSet, s, h, env);
    PreDrawLayout(s);
    HintLayout(hintCallbacksSet, s, h, env);
    RunEventsAt(s, hintCallbacksSet, h, env);
    forall i | 0 <= i < |t| && !(|p| <= i < |p| + |d|) ensures !IsGate(t[i]) {
      if i < |p| {
        assert t[i] == p[i];
      } else {
        assert t[i] == x[i - |p| - |d|];
      }
    }
  }

  lemma UnblockAroundDrawStep(s: Staged, hintCallbacksSet: bool, h: HintState, env: FrameEnv)
    ensures var t := RunEvents(s, hintCallbacksSet, h, env);
      forall i, j :: 0 <= i < |t| && 0 <= j < |t| && t[i] == Unblock && IsDrawStep(t[j]) ==>
        (i < j <==> env.tree.prepareTextures)
  {
    GatesInDrawPhase(s, hintCallbacksSet, h, env);
    DrawPhaseOrder(env.tree.prepareTextures, s.hasFrameCallback, CanDrawThisFrame(env));
    var t := RunEvents(s, hintCallbacksSet, h, env);
    var p := PreDrawEvents(s);
    var d := DrawPhaseEvents(env.tree.prepareTextures, s.hasFrameCallback, CanDrawThisFrame(env));
    forall i, j | 0 <= i < |t| && 0 <= j < |t| && t[i] == Unblock && IsDrawStep(t[j])
      ensures i < j <==> env.tree.prepareTextures
    {
      assert IsGate(t[i]) && IsGate(t[j]);
      assert d[i - |p|] == Unblock && IsDrawStep(d[j - |p|]);
    }
  }

  lemma UnblockAfterPrepareTree(s: Staged, hintCallbacksSet: bool, h: HintState, env: FrameEnv)
    ensures var t := RunEvents(s, hintCallbacksSet, h, env);
      forall i, j :: 0 <= i < |t| && 0 <= j < |t| && t[i].PrepareTree? && t[j] == Unblock ==> i < j
  {
    GatesInDrawPhase(s, hintCallbacksSet, h, env);
    DrawPhaseLayout(env.tree.prepareTextures, s.hasFrameCallback, CanDrawThisFrame(env));
    HintLayout(hintCallbacksSet, s, h, env);
    RunEventsAt(s, hintCallbacksSet, h, env);
    var t := RunEvents(s, hintCallbacksSet, h, env);
    var p := PreDrawEvents(s);
    var d := DrawPhaseEvents(env.tree.prepareTextures, s.hasFrameCallback, CanDrawThisFrame(env));
    var x := HintEvents(hintCallbacksSet, s, h, env);
    // `prepareTree` belongs to the pre-draw events.
    forall i | |p| <= i < |t| ensures !t[i].PrepareTree? {
      if i < |p| + |d| {
        assert t[i] == d[i - |p|];
      } else {
        assert t[i] == x[i - |p| - |d|];
      }
    }
  }

  /** Selecting from a run's trace selects from its three parts in turn. */
  lemma SelectRunEvents<U>(s: Staged, hintCallbacksSet: bool, h: HintState, env: FrameEnv, pick: Event -> Option<U>)
    ensures Select(RunEvents(s, hintCallbacksSet, h, env), pick)
         == Select(PreDrawEvents(s), pick)
          + Select(DrawPhaseEvents(env.tree.prepareTextures, s.hasFrameCallback, CanDrawThisFrame(env)), pick)
          + Select(HintEvents(hintCallbacksSet, s, h, env), pick)
  {
    var p := PreDrawEvents(s);
    var d := DrawPhaseEvents(env.tree.prepareTextures, s.hasFrameCallback, CanDrawThisFrame(env));
    var x := HintEvents(hintCallbacksSet, s, h, env);
    assert RunEvents(s, hintCallbacksSet, h, env) == p + d + x;
    SelectAppend(p, d, pick);
    SelectAppend(p + d, x, pick);
  }

  /** The layers applied before the draw phase are the queued layers, in order. */
  lemma AppliedBeforeDraw(s: Staged)
    ensures Applied(PreDrawEvents(s)) == s.layers
  {
    var fi := s.frameInfo;
    var head := [VsyncReceived(fi.vsync, fi.intendedVsync, fi.frameTimelineVsyncId, fi.frameDeadline, fi.frameInterval),
                 MakeCurrent, UnpinImages];
    var tail := [SetContentDrawBounds(s.contentDrawBounds), PrepareTree(s.syncQueued)];
    var cb: seq<Event> := if s.hasFrameCompleteCallback then [AddFrameCompleteListener] else [];
    var apply := ApplyEvents(s.layers);
    AppliedApplyEvents(s.layers);
    SelectAbsent(head, AppliedLayer);
    SelectAbsent(tail, AppliedLayer);
    SelectAbsent(cb, AppliedLayer);
    assert SyncPhaseEvents(s) == head + apply + tail;
    SelectAppend(head, apply, AppliedLayer);
    assert Select(head + apply, AppliedLayer) == s.layers;
    SelectAppend(head + apply, tail, AppliedLayer);
    assert Select(SyncPhaseEvents(s), AppliedLayer) == s.layers;
    SelectAppend(SyncPhaseEvents(s), cb, AppliedLayer);
  }

  /** During sync every queued layer is applied once, in queue order. */
  lemma LayersAppliedInQueueOrder(s: Staged, hintCallbacksSet: bool, h: HintState, env: FrameEnv)
    ensures Applied(RunEvents(s, hintCallbacksSet, h, env)) == s.layers
  {
    var d := DrawPhaseEvents(env.tree.prepareTextures, s.hasFrameCallback, CanDrawThisFrame(env));
    var x := HintEvents(hintCallbacksSet, s, h, env);
    DrawPhaseLayout(env.tree.prepareTextures, s.hasFrameCallback, CanDrawThisFrame(env));
    HintLayout(hintCallbacksSet, s, h, env);
    AppliedBeforeDraw(s);
    SelectAbsent(d, AppliedLayer);
    SelectAbsent(x, AppliedLayer);
    SelectRunEvents(s, hintCallbacksSet, h, env, AppliedLayer);
  }

  /**
   * The layers are applied after the context was made current and images
   * unpinned, and before `prepareTree`.
   */
  lemma LayersAppliedBeforePrepareTree(s: Staged, hintCallbacksSet: bool, h: HintState, env: FrameEnv)
    ensures var t := RunEvents(s, hintCallbacksSet, h, env);
      forall i, j :: 0 <= i < |t| && 0 <= j < |t| && t[i].ApplyLayer? && t[j].PrepareTree? ==> i < j
    ensures var t := RunEvents(s, hintCallbacksSet, h, env);
      forall i, j ::
        0 <= i < |t| && 0 <= j < |t| && (t[i] == MakeCurrent || t[i] == UnpinImages) && t[j].ApplyLayer?
        ==> i < j
  {
    var t := RunEvents(s, hintCallbacksSet, h, env);
    var p := PreDrawEvents(s);
    var d := DrawPhaseEvents(env.tree.prepareTextures, s.hasFrameCallback, CanDrawThisFrame(env));
    var x := HintEvents(hintCallbacksSet, s, h, env);
    PreDrawLayout(s);
    DrawPhaseLayout(env.tree.prepareTextures, s.hasFrameCallback, CanDrawThisFrame(env));
    HintLayout(hintCallbacksSet, s, h, env);
    RunEventsAt(s, hintCallbacksSet, h, env);
    // Sync steps occur only before the draw phase.
    forall i | 0 <= i < |t| ensures (i < |p| ==> t[i] == p[i]) && (|p| <= i ==> !IsSyncStep(t[i])) {
      if i < |p| {
      } else if i < |p| + |d| {
        assert t[i] == d[i - |p|];
      } else {
        assert t[i] == x[i - |p| - |d|];
      }
    }
  }

  /** What the hint step forwards and reports. */
  lemma HintStepReports(hintCallbacksSet: bool, s: Staged, h: HintState, env: FrameEnv)
    ensures var target := FrameTarget(s, env);
      Select(HintEvents(hintCallbacksSet, s, h, env), ForwardedTarget)
      == (if hintCallbacksSet && ForwardsTarget(h.lastTargetWorkDuration, target) then [target] else [])
    ensures var actual := FrameActual(s, h, env);
      Select(HintEvents(hintCallbacksSet, s, h, env), ReportedActual)
      == (if hintCallbacksSet && InSanityRange(actual) then [actual] else [])
  {
    if hintCallbacksSet {
      var target := FrameTarget(s, env);
      var actual := FrameActual(s, h, env);
      var up: seq<Event> := if ForwardsTarget(h.lastTargetWorkDuration, target) then [UpdateTargetWorkDuration(target)] else [];
      var rep: seq<Event> := if InSanityRange(actual) then [ReportActualWorkDuration(actual)] else [];
      assert HintEvents(hintCallbacksSet, s, h, env) == up + rep;
      SelectAppend(up, rep, ForwardedTarget);
      SelectAppend(up, rep, ReportedActual);
    }
  }

  /** The target forwarded in a frame: at most one, and only when both callbacks are set and it is sane and new. */
  lemma TargetForwarding(s: Staged, hintCallbacksSet: bool, h: HintState, env: FrameEnv)
    ensures Targets(RunEvents(s, hintCallbacksSet, h, env))
         == (if hintCallbacksSet && ForwardsTarget(h.lastTargetWorkDuration, FrameTarget(s, env))
             then [FrameTarget(s, env)] else [])
  {
    var p := PreDrawEvents(s);
    var d := DrawPhaseEvents(env.tree.prepareTextures, s.hasFrameCallback, CanDrawThisFrame(env));
    PreDrawLayout(s);
    DrawPhaseLayout(env.tree.prepareTextures, s.hasFrameCallback, CanDrawThisFrame(env));
    SelectAbsent(p, ForwardedTarget);
    SelectAbsent(d, ForwardedTarget);
    SelectRunEvents(s, hintCallbacksSet, h, env, ForwardedTarget);
    HintStepReports(hintCallbacksSet, s, h, env);
  }

  /** The actual duration reported in a frame: exactly when both callbacks are set and it is sane. */
  lemma ActualReporting(s: Staged, hintCallbacksSet: bool, h: HintState, env: FrameEnv)
    ensures Actuals(RunEvents(s, hintCallbacksSet, h, env))
         == (if hintCallbacksSet && InSanityRange(FrameActual(s, h, env))
             then [FrameActual(s, h, env)] else [])
  {
    var p := PreDrawEvents(s);
    var d := DrawPhaseEvents(env.tree.prepareTextures, s.hasFrameCallback, CanDrawThisFrame(env));
    PreDrawLayout(s);
    DrawPhaseLayout(env.tree.prepareTextures, s.hasFrameCallback, CanDrawThisFrame(env));
    SelectAbsent(p, ReportedActual);
    SelectAbsent(d, ReportedActual);
    SelectRunEvents(s, hintCallbacksSet, h, env, ReportedActual);
    HintStepReports(hintCallbacksSet, s, h, env);
  }

  /**
   * A second frame whose deadline span and CPU percentage equal those of a
   * frame that forwarded its target does not forward it again.
   */
  lemma RepeatedFrameDoesNotReforward(s1: Staged, s2: Staged, h: HintState, env1: FrameEnv, env2: FrameEnv)
    requires s2.frameInfo.frameDeadline - s2.frameInfo.intendedVsync
          == s1.frameInfo.frameDeadline - s1.frameInfo.intendedVsync
    requires env2.targetCpuTimePercentage == env1.targetCpuTimePercentage
    requires ForwardsTarget(h.lastTargetWorkDuration, FrameTarget(s1, env1))
    ensures Targets(RunEvents(s1, true, h, env1)) == [FrameTarget(s1, env1)]
    ensures Targets(RunEvents(s2, true, NextHintState(true, s1, h, env1), env2)) == []
  {
    var target := FrameTarget(s1, env1);
    assert FrameTarget(s2, env2) == target;
    var h' := NextHintState(true, s1, h, env1);
    assert h'.lastTargetWorkDuration == target;
    assert !ForwardsTarget(h'.lastTargetWorkDuration, FrameTarget(s2, env2));
    TargetForwarding(s1, true, h, env1);
    TargetForwarding(s2, true, h', env2);
  }
}
