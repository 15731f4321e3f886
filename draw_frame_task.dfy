/**
 * `DrawFrameTask`: the object through which the producer (UI) thread hands a
 * frame to the render thread. It keeps the queue of pending layer updates, the
 * SyncResult bitmask of the current frame, and the hint-session state carried
 * from frame to frame. The blocking post-and-wait is sequential here: `run`
 * executes inside `DrawFrame`, and the moment the producer is released is the
 * `Unblock` event in `trace`.
 */
module RenderThread {
  import opened SyncResult
  import opened PerformanceHint
  import opened FrameTrace

  // ---------------------------------------------------------------------
  // The layer-update queue

  /** The queue after pushing `layer`: unchanged if it is already queued, else with it appended. */
  function WithLayer(q: seq<LayerId>, layer: LayerId): (r: seq<LayerId>)
    ensures q <= r && layer in r
    ensures |r| == if layer in q then |q| else |q| + 1
  {
    if layer in q then q else q + [layer]
  }

  /** The queue with the first entry equal to `layer` taken out. */
  function RemoveFirst(q: seq<LayerId>, layer: LayerId): (r: seq<LayerId>)
    ensures |r| == if layer in q then |q| - 1 else |q|
    ensures forall x :: x in r ==> x in q
    decreases |q|
  {
    if q == [] then []
    else if q[0] == layer then q[1..]
    else [q[0]] + RemoveFirst(q[1..], layer)
  }

  predicate NoDuplicates(q: seq<LayerId>) {
    forall i, j :: 0 <= i < j < |q| ==> q[i] != q[j]
  }

  /** Pushing a layer twice has the effect of pushing it once. */
  lemma PushIsIdempotent(q: seq<LayerId>, layer: LayerId)
    ensures WithLayer(WithLayer(q, layer), layer) == WithLayer(q, layer)
    ensures layer in WithLayer(q, layer)
  {
  }

  /** Pushing keeps the queue free of duplicates, and adds exactly the pushed layer. */
  lemma PushKeepsNoDuplicates(q: seq<LayerId>, layer: LayerId)
    requires NoDuplicates(q)
    ensures NoDuplicates(WithLayer(q, layer))
    ensures forall x :: x in WithLayer(q, layer) <==> x in q || x == layer
  {
  }

  /** The queue after pushing each layer of `ls` in turn. */
  function PushAll(q: seq<LayerId>, ls: seq<LayerId>): (r: seq<LayerId>)
    ensures |r| <= |q| + |ls|
    decreases |ls|
  {
    if ls == [] then q else PushAll(WithLayer(q, ls[0]), ls[1..])
  }

  /** Pushing layers that are new and distinct appends them in push order. */
  lemma {:induction false} PushAllDistinct(q: seq<LayerId>, ls: seq<LayerId>)
    requires NoDuplicates(q + ls)
    ensures PushAll(q, ls) == q + ls
    decreases |ls|
  {
    if ls != [] {
      assert (q + ls)[|q|] == ls[0];
      assert ls[0] !in q by {
        forall i | 0 <= i < |q| ensures q[i] != ls[0] {
          assert (q + ls)[i] == q[i];
        }
      }
      assert q + [ls[0]] + ls[1..] == q + ls;
      PushAllDistinct(q + [ls[0]], ls[1..]);
    }
  }

  /**
   * Pushing any layers, repeated ones included, keeps a duplicate-free queue
   * duplicate-free, keeps what was queued at the front, and queues exactly the
   * old layers and the pushed ones.
   */
  lemma {:induction false} PushAllKeepsNoDuplicates(q: seq<LayerId>, ls: seq<LayerId>)
    requires NoDuplicates(q)
    ensures NoDuplicates(PushAll(q, ls))
    ensures q <= PushAll(q, ls)
    ensures forall x :: x in PushAll(q, ls) <==> x in q || x in ls
    decreases |ls|
  {
    if ls != [] {
      var q' := WithLayer(q, ls[0]);
      PushKeepsNoDuplicates(q, ls[0]);
      PushAllKeepsNoDuplicates(q', ls[1..]);
      assert q <= q';
      assert forall x :: x in ls <==> x == ls[0] || x in ls[1..] by {
        assert ls == [ls[0]] + ls[1..];
      }
    }
  }

  /** Removal takes out the first match only, keeping everything else in order. */
  lemma {:induction false} RemoveFirstAt(q: seq<LayerId>, layer: LayerId, k: nat)
    requires k < |q| && q[k] == layer && layer !in q[..k]
    ensures RemoveFirst(q, layer) == q[..k] + q[k + 1..]
    decreases k
  {
    if k > 0 {
      assert q[0] == q[..k][0];
      assert layer !in q[1..][..k - 1] by {
        assert q[1..][..k - 1] == q[..k][1..];
      }
      var t := q[1..];
      RemoveFirstAt(t, layer, k - 1);
      assert RemoveFirst(q, layer) == [q[0]] + RemoveFirst(t, layer);
      assert t[..k - 1] == q[1..k];
      assert t[k..] == q[k + 1..];
      assert [q[0]] + q[1..k] == q[..k];
      assert [q[0]] + (q[1..k] + q[k + 1..]) == ([q[0]] + q[1..k]) + q[k + 1..];
    }
  }

  /** Removing a layer that is not queued changes nothing. */
  lemma {:induction false} RemoveFirstAbsent(q: seq<LayerId>, layer: LayerId)
    requires layer !in q
    ensures RemoveFirst(q, layer) == q
    decreases |q|
  {
    if q != [] {
      RemoveFirstAbsent(q[1..], layer);
      assert [q[0]] + q[1..] == q;
    }
  }

  /** Removal takes out exactly one occurrence, if there is one. */
  lemma {:induction false} RemoveFirstMultiset(q: seq<LayerId>, layer: LayerId)
    ensures multiset(RemoveFirst(q, layer)) == multiset(q) - multiset{layer}
    decreases |q|
  {
    if q != [] {
      assert q == [q[0]] + q[1..];
      if q[0] != layer {
        RemoveFirstMultiset(q[1..], layer);
      }
    }
  }

  /** Removing a freshly pushed layer gives back the queue as it was. */
  lemma RemoveUndoesPush(q: seq<LayerId>, layer: LayerId)
    requires layer !in q
    ensures RemoveFirst(WithLayer(q, layer), layer) == q
  {
    RemoveFirstAt(q + [layer], layer, |q|);
    assert (q + [layer])[..|q|] == q;
  }

  /** Dropping the entry at `k` from a duplicate-free queue drops every copy of it and keeps the rest distinct. */
  lemma WithoutIndexNoDuplicates(q: seq<LayerId>, k: nat)
    requires NoDuplicates(q) && k < |q|
    ensures q[k] !in q[..k] + q[k + 1..]
    ensures NoDuplicates(q[..k] + q[k + 1..])
  {
    var r := q[..k] + q[k + 1..];
    forall i | 0 <= i < |r| ensures r[i] == q[if i < k then i else i + 1] {
    }
    forall i, j | 0 <= i < j < |r| ensures r[i] != r[j] {
      assert r[i] == q[if i < k then i else i + 1];
      assert r[j] == q[if j < k then j else j + 1];
    }
  }

  /** In a queue without duplicates, removal leaves no copy of the layer behind. */
  lemma RemoveFromNoDuplicates(q: seq<LayerId>, layer: LayerId)
    requires NoDuplicates(q)
    ensures layer !in RemoveFirst(q, layer)
    ensures NoDuplicates(RemoveFirst(q, layer))
  {
    if layer in q {
      var k :| 0 <= k < |q| && q[k] == layer;
      assert layer !in q[..k];
      RemoveFirstAt(q, layer, k);
      WithoutIndexNoDuplicates(q, k);
    } else {
      RemoveFirstAbsent(q, layer);
    }
  }

  /** A frame whose queue was filled by pushing distinct layers applies each of them once, in push order. */
  lemma PushedLayersApplied(ls: seq<LayerId>, s: Staged, hintCallbacksSet: bool, h: HintState, env: FrameEnv)
    requires NoDuplicates(ls) && s.layers == PushAll([], ls)
    ensures Applied(RunEvents(s, hintCallbacksSet, h, env)) == ls
  {
    assert [] + ls == ls;
    PushAllDistinct([], ls);
    LayersAppliedInQueueOrder(s, hintCallbacksSet, h, env);
  }

  /** However often the layers were pushed, the frame applies every pushed layer and none of them twice. */
  lemma RepeatedPushesAppliedOnce(ls: seq<LayerId>, s: Staged, hintCallbacksSet: bool, h: HintState, env: FrameEnv)
    requires s.layers == PushAll([], ls)
    ensures NoDuplicates(Applied(RunEvents(s, hintCallbacksSet, h, env)))
    ensures forall x :: x in Applied(RunEvents(s, hintCallbacksSet, h, env)) <==> x in ls
  {
    PushAllKeepsNoDuplicates([], ls);
    LayersAppliedInQueueOrder(s, hintCallbacksSet, h, env);
  }

  // ---------------------------------------------------------------------
  // The task

  lemma AppendAssociates(t: seq<Event>, p: seq<Event>, d: seq<Event>, x: seq<Event>)
    ensures t + p + d + x == t + (p + d + x)
  {
  }

  class DrawFrameTask {
    /** Whether a canvas context has been set (`mContext != nullptr`). */
    var hasContext: bool
    var hasUpdateTargetWorkDuration: bool
    var hasReportActualWorkDuration: bool
    var layers: seq<LayerId>
    var frameInfo: FrameInfo
    var contentDrawBounds: Rect
    var syncQueued: int
    var syncResult: Bits
    var hasFrameCompleteCallback: bool
    var hasFrameCallback: bool
    var lastTargetWorkDuration: int
    var lastDequeueBufferDuration: int
    /** What the task has done so far, oldest first. */
    var trace: seq<Event>

    /** What the producer has left for the next frame. */
    function Pending(): Staged
      reads this
    {
      Staged(layers, frameInfo, contentDrawBounds, syncQueued, hasFrameCompleteCallback, hasFrameCallback)
    }

    function Hint(): HintState
      reads this
    {
      HintState(lastTargetWorkDuration, lastDequeueBufferDuration)
    }

    predicate HintCallbacksSet()
      reads this
    {
      hasUpdateTargetWorkDuration && hasReportActualWorkDuration
    }

    constructor ()
      ensures !hasContext && !hasUpdateTargetWorkDuration && !hasReportActualWorkDuration
      ensures layers == [] && contentDrawBounds == Rect(0, 0, 0, 0) && syncResult == OK
      ensures !hasFrameCompleteCallback && !hasFrameCallback
      ensures lastTargetWorkDuration == 0 && lastDequeueBufferDuration == 0
      ensures trace == []
    {
      hasContext := false;
      hasUpdateTargetWorkDuration, hasReportActualWorkDuration := false, false;
      layers := [];
      frameInfo := FrameInfo(0, 0, 0, 0, 0, 0);
      contentDrawBounds := Rect(0, 0, 0, 0);
      syncQueued := 0;
      syncResult := OK;
      hasFrameCompleteCallback, hasFrameCallback := false, false;
      lastTargetWorkDuration, lastDequeueBufferDuration := 0, 0;
      trace := [];
    }

    method SetContext(context: bool)
      modifies this`hasContext
      ensures hasContext == context
    {
      hasContext := context;
    }

    method SetHintSessionCallbacks(updateTargetWorkDuration: bool, reportActualWorkDuration: bool)
      modifies this`hasUpdateTargetWorkDuration, this`hasReportActualWorkDuration
      ensures hasUpdateTargetWorkDuration == updateTargetWorkDuration
      ensures hasReportActualWorkDuration == reportActualWorkDuration
    {
      hasUpdateTargetWorkDuration := updateTargetWorkDuration;
      hasReportActualWorkDuration := reportActualWorkDuration;
    }

    method PushLayerUpdate(layer: LayerId)
      requires hasContext
      modifies this`layers
      ensures layers == WithLayer(old(layers), layer)
    {
      var i := 0;
      while i < |layers|
        invariant 0 <= i <= |layers|
        invariant forall j :: 0 <= j < i ==> layers[j] != layer
      {
        if layers[i] == layer {
          return;
        }
        i := i + 1;
      }
      layers := layers + [layer];
    }

    method RemoveLayerUpdate(layer: LayerId)
      modifies this`layers
      ensures layers == RemoveFirst(old(layers), layer)
    {
      var i := 0;
      while i < |layers|
        invariant 0 <= i <= |layers|
        invariant layer !in layers[..i]
        invariant layers == old(layers)
      {
        if layers[i] == layer {
          RemoveFirstAt(layers, layer, i);
          layers := layers[..i] + layers[i + 1..];
          return;
        }
        assert layers[..i + 1] == layers[..i] + [layers[i]];
        i := i + 1;
      }
      assert layers[..i] == layers;
      RemoveFirstAbsent(layers, layer);
    }

    method UnblockUiThread()
      modifies this`trace
      ensures trace == old(trace) + [Unblock]
    {
      trace := trace + [Unblock];
    }

    /** The layer loop of the sync step: applies every queued update in order, then clears the queue. */
    method ApplyLayerUpdates()
      modifies this`layers, this`trace
      ensures layers == []
      ensures trace == old(trace) + ApplyEvents(old(layers))
    {
      var i := 0;
      while i < |layers|
        invariant 0 <= i <= |layers|
        invariant layers == old(layers)
        invariant trace == old(trace) + ApplyEvents(layers[..i])
      {
        assert layers[..i + 1][..i] == layers[..i];
        trace := trace + [ApplyLayer(layers[i])];
        i := i + 1;
      }
      assert layers[..i] == layers;
      layers := [];
    }

    /**
     * The tail of the sync step: ORs in the flags for a missing surface or a
     * stopped context, a needed UI redraw and a dropped frame, and gives the
     * final answer to whether the frame can be drawn.
     */
    method RecordSyncFlags(hasSurface: bool, canDraw: bool, out: TreeOutput) returns (canDrawThisFrame: bool)
      modifies this`syncResult
      ensures canDrawThisFrame == FinalCanDrawThisFrame(hasSurface, canDraw, out)
      ensures syncResult == old(syncResult) | SyncFlags(hasSurface, canDraw, out)
    {
      canDrawThisFrame := out.canDrawThisFrame;
      if !hasSurface || !canDraw {
        if !hasSurface {
          syncResult := syncResult | LostSurfaceRewardIfFound;
        } else {
          syncResult := syncResult | ContextIsStopped;
        }
        canDrawThisFrame := false;
      }
      if out.hasAnimations {
        if out.requiresUiRedraw {
          syncResult := syncResult | UIRedrawRequired;
        }
      }
      if !canDrawThisFrame {
        syncResult := syncResult | FrameDropped;
      }
    }

    method SyncFrameState(env: FrameEnv) returns (canUnblockUiThread: bool, canDrawThisFrame: bool)
      requires hasContext
      modifies this`layers, this`syncResult, this`trace
      ensures canUnblockUiThread == env.tree.prepareTextures
      ensures canDrawThisFrame == CanDrawThisFrame(env)
      ensures syncResult == old(syncResult) | SyncFlags(env.hasSurface, env.makeCurrent, env.tree)
      ensures layers == []
      ensures trace == old(trace) + SyncPhaseEvents(old(Pending()))
    {
      trace := trace + [VsyncReceived(frameInfo.vsync, frameInfo.intendedVsync, frameInfo.frameTimelineVsyncId,
                                      frameInfo.frameDeadline, frameInfo.frameInterval)];
      var canDraw := env.makeCurrent;
      trace := trace + [MakeCurrent, UnpinImages];
      ApplyLayerUpdates();
      trace := trace + [SetContentDrawBounds(contentDrawBounds), PrepareTree(syncQueued)];

      canDrawThisFrame := RecordSyncFlags(env.hasSurface, canDraw, env.tree);
      canUnblockUiThread := env.tree.prepareTextures;
    }

    /**
     * The part of `run` after the copies are taken, up to the hint step. It
     * changes no field but `trace`, which records the calls into the render
     * context and the release of the producer.
     */
    method DrawUnlocked(canUnblockUiThread: bool, callback: bool, canDrawThisFrame: bool, env: FrameEnv)
      returns (dequeueBufferDuration: int)
      modifies this`trace
      ensures dequeueBufferDuration == if canDrawThisFrame then env.dequeueBufferDuration else 0
      ensures trace == old(trace) + DrawPhaseEvents(canUnblockUiThread, callback, canDrawThisFrame)
    {
      if canUnblockUiThread {
        UnblockUiThread();
      }
      if callback {
        trace := trace + [EnqueueFrameWork];
      }
      dequeueBufferDuration := 0;
      if canDrawThisFrame {
        dequeueBufferDuration := env.dequeueBufferDuration;
        trace := trace + [Draw];
      } else {
        trace := trace + [WaitOnFences];
      }
      if !canUnblockUiThread {
        UnblockUiThread();
      }
    }

    /**
     * The hint step of `run`: forwards the target work duration when it is sane
     * and new, then reports the actual work duration when it is sane.
     */
    method ReportWorkDurations(env: FrameEnv, intendedVsync: int, frameDeadline: int, frameStartTime: int,
                               syncDelayDuration: int, dequeueBufferDuration: int)
      modifies this`lastTargetWorkDuration, this`trace
      ensures var target := TargetWorkDuration(frameDeadline, intendedVsync, env.targetCpuTimePercentage);
        var actual := ActualWorkDuration(env.now - frameStartTime, syncDelayDuration,
                                         lastDequeueBufferDuration, dequeueBufferDuration);
        && lastTargetWorkDuration == NextLastTarget(old(lastTargetWorkDuration), target)
        && trace == old(trace) + HintReports(old(lastTargetWorkDuration), target, actual)
    {
      var targetWorkDuration := frameDeadline - intendedVsync;
      targetWorkDuration := TruncDiv(targetWorkDuration * env.targetCpuTimePercentage, 100);
      if targetWorkDuration > SanityCheckLowerBound
         && targetWorkDuration < SanityCheckUpperBound
         && targetWorkDuration != lastTargetWorkDuration
      {
        lastTargetWorkDuration := targetWorkDuration;
        trace := trace + [UpdateTargetWorkDuration(targetWorkDuration)];
      }
      var frameDuration := env.now - frameStartTime;
      var overlap := if syncDelayDuration <= lastDequeueBufferDuration then syncDelayDuration
                     else lastDequeueBufferDuration;
      var actualDuration := frameDuration - overlap - dequeueBufferDuration;
      if actualDuration > SanityCheckLowerBound && actualDuration < SanityCheckUpperBound {
        trace := trace + [ReportActualWorkDuration(actualDuration)];
      }
    }

    /**
     * The scoped block at the start of `run`: the sync step, then the hand-over
     * of the frame-complete callback to the render context.
     */
    method SyncAndAttachListener(env: FrameEnv) returns (canUnblockUiThread: bool, canDrawThisFrame: bool)
      requires hasContext
      modifies this`layers, this`syncResult, this`trace, this`hasFrameCompleteCallback
      ensures canUnblockUiThread == env.tree.prepareTextures
      ensures canDrawThisFrame == CanDrawThisFrame(env)
      ensures syncResult == old(syncResult) | SyncFlags(env.hasSurface, env.makeCurrent, env.tree)
      ensures layers == [] && !hasFrameCompleteCallback
      ensures trace == old(trace) + PreDrawEvents(old(Pending()))
    {
      canUnblockUiThread, canDrawThisFrame := SyncFrameState(env);
      if hasFrameCompleteCallback {
        trace := trace + [AddFrameCompleteListener];
        hasFrameCompleteCallback := false;
      }
    }

    method Run(env: FrameEnv)
      requires hasContext
      modifies this
      ensures trace == old(trace) + RunEvents(old(Pending()), old(HintCallbacksSet()), old(Hint()), env)
      ensures syncResult == old(syncResult) | SyncFlags(env.hasSurface, env.makeCurrent, env.tree)
      ensures Hint() == NextHintState(old(HintCallbacksSet()), old(Pending()), old(Hint()), env)
      ensures layers == [] && !hasFrameCompleteCallback && !hasFrameCallback
      ensures hasContext && HintCallbacksSet() == old(HintCallbacksSet())
      ensures hasUpdateTargetWorkDuration == old(hasUpdateTargetWorkDuration)
      ensures hasReportActualWorkDuration == old(hasReportActualWorkDuration)
      ensures frameInfo == old(frameInfo) && contentDrawBounds == old(contentDrawBounds)
      ensures syncQueued == old(syncQueued)
    {
      ghost var s, h, t0 := Pending(), Hint(), trace;
      var syncDelayDuration := env.runStart - syncQueued;
      var canUnblockUiThread, canDrawThisFrame := SyncAndAttachListener(env);

      // Copies of what is needed once the producer may be running again.
      var callback := hasFrameCallback;
      hasFrameCallback := false;
      var intendedVsync := frameInfo.intendedVsync;
      var frameDeadline := frameInfo.frameDeadline;
      var frameStartTime := frameInfo.frameStartTime;

      var dequeueBufferDuration := DrawUnlocked(canUnblockUiThread, callback, canDrawThisFrame, env);
      ghost var t1 := trace;
      if hasUpdateTargetWorkDuration && hasReportActualWorkDuration {
        ReportWorkDurations(env, intendedVsync, frameDeadline, frameStartTime,
                            syncDelayDuration, dequeueBufferDuration);
      }
      lastDequeueBufferDuration := dequeueBufferDuration;
      AppendAssociates(t0, PreDrawEvents(s),
                       DrawPhaseEvents(env.tree.prepareTextures, s.hasFrameCallback, CanDrawThisFrame(env)),
                       trace[|t1|..]);
    }

    method PostAndWait(env: FrameEnv)
      requires hasContext
      modifies this
      ensures trace == old(trace) + [Post] + RunEvents(old(Pending()), old(HintCallbacksSet()), old(Hint()), env)
      ensures syncResult == old(syncResult) | SyncFlags(env.hasSurface, env.makeCurrent, env.tree)
      ensures Hint() == NextHintState(old(HintCallbacksSet()), old(Pending()), old(Hint()), env)
      ensures layers == [] && !hasFrameCompleteCallback && !hasFrameCallback
      ensures hasContext && HintCallbacksSet() == old(HintCallbacksSet())
      ensures hasUpdateTargetWorkDuration == old(hasUpdateTargetWorkDuration)
      ensures hasReportActualWorkDuration == old(hasReportActualWorkDuration)
      ensures frameInfo == old(frameInfo) && contentDrawBounds == old(contentDrawBounds)
      ensures syncQueued == old(syncQueued)
    {
      trace := trace + [Post];
      Run(env);
    }

    method DrawFrame(env: FrameEnv) returns (result: Bits)
      requires hasContext
      modifies this
      ensures result == syncResult == SyncFlags(env.hasSurface, env.makeCurrent, env.tree)
      ensures syncQueued == env.queuedAt
      ensures trace == old(trace) + [Post]
                     + RunEvents(old(Pending()).(syncQueued := env.queuedAt), old(HintCallbacksSet()), old(Hint()), env)
      ensures Hint() == NextHintState(old(HintCallbacksSet()), old(Pending()).(syncQueued := env.queuedAt),
                                      old(Hint()), env)
      ensures layers == [] && !hasFrameCompleteCallback && !hasFrameCallback
      ensures hasContext && HintCallbacksSet() == old(HintCallbacksSet())
      ensures hasUpdateTargetWorkDuration == old(hasUpdateTargetWorkDuration)
      ensures hasReportActualWorkDuration == old(hasReportActualWorkDuration)
      ensures frameInfo == old(frameInfo) && contentDrawBounds == old(contentDrawBounds)
    {
      syncResult := OK;
      syncQueued := env.queuedAt;
      PostAndWait(env);
      result := syncResult;
    }
  }
}
