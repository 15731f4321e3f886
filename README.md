# DrawFrameTask and ListValidator, modelled in Dafny

The project models two parts of the Android platform.

**`DrawFrameTask`** (libs/hwui/renderthread/DrawFrameTask.cpp) is how the UI thread gives a frame to the render thread.
- The UI thread queues layer updates and calls `drawFrame`. The task then runs on the render thread.
- The render thread syncs the frame's state: it applies the queued layer updates, prepares the render-node tree and derives the SyncResult bitmask.
- It releases the waiting UI thread either before the draw or after it.
- It draws the frame, or waits on fences when it cannot draw.
- Last, it reports the frame's target and actual work duration to the performance-hint session.

The model is the class `RenderThread.DrawFrameTask`. Its methods mirror the source and update its fields in place: the layer queue, the sync result, the staged frame data and the hint state carried from frame to frame, plus `trace`. The trace records in order the calls into the canvas context and the layer updaters, the release of the UI thread (`Unblock`) and the hint reports. Two calls are not recorded: `hasSurface()`, whose answer is read from `FrameEnv`, and `getFrameNumber()`, whose value only feeds the frame callback. The module `FrameTrace` defines as functions the trace of one `run` (`RunEvents`) and the hint state it leaves behind (`NextHintState`). Its lemmas state the hand-off rules as properties of that trace:
- one release per frame, before or after the draw;
- exactly one draw step;
- layers applied in queue order, before `prepareTree`;
- the target forwarded only when it is sane and new;
- the actual duration reported only when it is sane.

`Run`, `DrawFrame` and the other methods are proved to produce exactly that trace and state.

The outside world is a parameter, `FrameEnv`. It holds:
- the three monotonic clock readings (when the frame was queued, when `run` started, when the hint step ran);
- the answers of `makeCurrent` and `hasSurface`;
- what `prepareTree` reports;
- the dequeue time `draw()` returns;
- the process-wide target CPU percentage.

**`ListValidator.validate`** (core/java/android/provider/settings/validators/ListValidator.java) is modelled as a pure function in the module `ListValidation`. The subclass hooks `isEntryValid` and `isItemValid` are function-valued fields. A null argument is `None` of an `Option<string>`. The result records the outcome, which is a boolean or a `NullPointerException`, and the items consulted, in order. The module `JavaSplit` models Java's `String.split(",")` with limit 0. It splits on the literal comma. When there is no comma at all, the whole string is the only item, so `""` gives `[""]`. Otherwise trailing empty items are dropped, so `","` gives no items and `"a,,"` gives `["a"]`.

The SyncResult flag values and the initial values of the two hint fields come from DrawFrameTask.h, which is not part of this model:
- OK = 0, UIRedrawRequired = 1, LostSurfaceRewardIfFound = 2, ContextIsStopped = 4, FrameDropped = 8;
- both hint fields start at 0.

Files:
- option.dfy: `Option`.
- sync_result.dfy: the flag bits and the flags one sync adds.
- perf_hint.dfy: the hint arithmetic.
- frame_trace.dfy: the trace of a frame and its lemmas.
- draw_frame_task.dfy: the layer queue and the class.
- java_split.dfy: `String.split(",")`.
- list_validator.dfy: the validator.

## Model

| member | source | states |
|---|---|---|
| RenderThread.DrawFrameTask.constructor | libs/hwui/renderthread/DrawFrameTask.cpp:34-38 | a new task has no context, an empty layer queue, zero content bounds, an `OK` sync result, neither frame callback, neither hint callback and zero hint state |
| RenderThread.DrawFrameTask.SetContext | libs/hwui/renderthread/DrawFrameTask.cpp:42-47 | records whether a canvas context is set and changes nothing else |
| RenderThread.DrawFrameTask.SetHintSessionCallbacks | libs/hwui/renderthread/DrawFrameTask.cpp:49-53 | records which of the two hint callbacks are set |
| RenderThread.DrawFrameTask.PushLayerUpdate | libs/hwui/renderthread/DrawFrameTask.cpp:55-65 | needs a context; the queue is unchanged if the layer is already in it, else the layer is appended at the end |
| RenderThread.PushIsIdempotent | libs/hwui/renderthread/DrawFrameTask.cpp:58-64 | pushing the same layer twice is the same as pushing it once, and the layer is then queued |
| RenderThread.PushKeepsNoDuplicates | libs/hwui/renderthread/DrawFrameTask.cpp:58-64 | a duplicate-free queue stays duplicate-free, and it gains exactly the pushed layer |
| RenderThread.WithLayer | libs/hwui/renderthread/DrawFrameTask.cpp:58-64 | the queue after a push keeps the old queue as a prefix and holds the layer; it grows by one exactly when the layer was absent |
| RenderThread.PushAll | libs/hwui/renderthread/DrawFrameTask.cpp:55-65 | pushing several layers in turn grows the queue by at most their number |
| RenderThread.PushAllDistinct | libs/hwui/renderthread/DrawFrameTask.cpp:55-65 | pushing new, distinct layers appends them in push order |
| RenderThread.PushAllKeepsNoDuplicates | libs/hwui/renderthread/DrawFrameTask.cpp:55-65 | pushing any layers, repeats included, keeps a duplicate-free queue duplicate-free, keeps the old queue in front, and queues exactly the old and the pushed layers |
| RenderThread.PushedLayersApplied | libs/hwui/renderthread/DrawFrameTask.cpp:55-65 | after pushing distinct layers into an empty queue, the next run applies each exactly once, in push order |
| RenderThread.RepeatedPushesAppliedOnce | libs/hwui/renderthread/DrawFrameTask.cpp:55-65 | however often layers were pushed, the next run applies every pushed layer and none twice |
| RenderThread.RemoveFirst | libs/hwui/renderthread/DrawFrameTask.cpp:67-74 | the queue after a removal is one shorter exactly when the layer was queued, and holds nothing that was not queued |
| RenderThread.WithoutIndexNoDuplicates | libs/hwui/renderthread/DrawFrameTask.cpp:70 | erasing index k from a duplicate-free queue removes every copy of that entry and keeps the queue duplicate-free |
| RenderThread.DrawFrameTask.RemoveLayerUpdate | libs/hwui/renderthread/DrawFrameTask.cpp:67-74 | the queue loses its first entry equal to the layer and keeps the rest in order; nothing changes when the layer is absent |
| RenderThread.RemoveFirstAt | libs/hwui/renderthread/DrawFrameTask.cpp:68-72 | when the first match is at index k, removal is the queue without index k |
| RenderThread.RemoveFirstAbsent | libs/hwui/renderthread/DrawFrameTask.cpp:68-73 | removing a layer that is not queued leaves the queue unchanged |
| RenderThread.RemoveFirstMultiset | libs/hwui/renderthread/DrawFrameTask.cpp:67-74 | removal takes out exactly one occurrence of the layer if there is one, and nothing else |
| RenderThread.RemoveUndoesPush | libs/hwui/renderthread/DrawFrameTask.cpp:55-74 | removing a freshly pushed layer restores the queue |
| RenderThread.RemoveFromNoDuplicates | libs/hwui/renderthread/DrawFrameTask.cpp:67-74 | in a duplicate-free queue removal leaves no copy of the layer, and the queue stays duplicate-free |
| RenderThread.DrawFrameTask.DrawFrame | libs/hwui/renderthread/DrawFrameTask.cpp:76-84 | needs a context; stamps the queue time and returns exactly the flags of this frame's sync, whatever earlier frames set; the trace gains the post and one run |
| RenderThread.DrawFrameTask.PostAndWait | libs/hwui/renderthread/DrawFrameTask.cpp:86-90 | posts the run and returns once it is done: the trace gains `Post` followed by the run's events |
| RenderThread.DrawFrameTask.Run | libs/hwui/renderthread/DrawFrameTask.cpp:92-163 | the trace gains exactly `RunEvents` of the staged frame; the sync flags are OR-ed into the result; the hint state becomes `NextHintState`; the queue and both frame callbacks are cleared; the frame info, bounds, queue time and hint callbacks are kept |
| RenderThread.DrawFrameTask.SyncAndAttachListener | libs/hwui/renderthread/DrawFrameTask.cpp:97-108 | runs the sync step, then hands the frame-complete callback to the context and clears it |
| RenderThread.DrawFrameTask.DrawUnlocked | libs/hwui/renderthread/DrawFrameTask.cpp:118-139 | changes no field of the task but the trace: it releases the UI thread before or after exactly one of draw and wait-on-fences, and returns the dequeue time, 0 when not drawn |
| RenderThread.DrawFrameTask.ReportWorkDurations | libs/hwui/renderthread/DrawFrameTask.cpp:143-161 | forwards the target when it is sane and new and then records it; reports the actual duration when sane |
| RenderThread.DrawFrameTask.SyncFrameState | libs/hwui/renderthread/DrawFrameTask.cpp:165-206 | the trace gains the vsync report, `makeCurrent`, `unpinImages`, one apply per queued layer, the content bounds and `prepareTree`; the queue is emptied; exactly the sync flags are OR-ed in; returns `prepareTextures` and the final can-draw |
| RenderThread.DrawFrameTask.RecordSyncFlags | libs/hwui/renderthread/DrawFrameTask.cpp:186-203 | ORs exactly the sync flags into the result and returns the final can-draw |
| RenderThread.DrawFrameTask.ApplyLayerUpdates | libs/hwui/renderthread/DrawFrameTask.cpp:177-180 | applies every queued layer once, in queue order, and then clears the queue |
| RenderThread.DrawFrameTask.UnblockUiThread | libs/hwui/renderthread/DrawFrameTask.cpp:208-211 | appends exactly one `Unblock` to the trace |
| SyncResult.FinalCanDrawThisFrame | libs/hwui/renderthread/DrawFrameTask.cpp:186-194 | the frame can be drawn only if there is a surface, `makeCurrent` succeeded and `prepareTree` allowed it; with a surface and a successful `makeCurrent` the answer is exactly what `prepareTree` reported |
| SyncResult.SyncFlags | libs/hwui/renderthread/DrawFrameTask.cpp:186-203 | LostSurfaceRewardIfFound iff there is no surface; ContextIsStopped iff there is a surface but `makeCurrent` failed; never both; UIRedrawRequired iff animations need a UI redraw; FrameDropped iff the final can-draw is false; no other bit |
| SyncResult.SyncOnlyAddsFlags | libs/hwui/renderthread/DrawFrameTask.cpp:79-84 | OR-ing in the sync flags keeps every flag already set, and from `OK` it gives exactly the sync flags |
| FrameTrace.ApplyEvents | libs/hwui/renderthread/DrawFrameTask.cpp:177-179 | one apply event per queued layer, at the layer's position |
| FrameTrace.AppliedApplyEvents | libs/hwui/renderthread/DrawFrameTask.cpp:177-179 | the layers read back from the apply events are the queue |
| FrameTrace.NextHintState | libs/hwui/renderthread/DrawFrameTask.cpp:150-162 | the next dequeue time is this frame's, 0 if not drawn; the last target changes only when both callbacks are set, and only to this frame's sane target; with both callbacks set and a sane, new target it becomes that target |
| FrameTrace.SyncPhaseShape | libs/hwui/renderthread/DrawFrameTask.cpp:165-182 | the sync part of a run is the vsync report, `makeCurrent`, `unpinImages`, one apply per queued layer, the content bounds and `prepareTree`, at those positions |
| FrameTrace.DrawPhaseShape | libs/hwui/renderthread/DrawFrameTask.cpp:117-139 | the draw part has two events, three with a frame callback; it starts with the release iff `prepareTextures`, ends with it otherwise; it holds `enqueueFrameWork` iff there is a frame callback, `draw` iff the frame can be drawn and `waitOnFences` otherwise |
| FrameTrace.HintReportsShape | libs/hwui/renderthread/DrawFrameTask.cpp:143-161 | the hint step holds at most two reports, only hint reports; it forwards the target iff it is sane and new, reports the actual duration iff it is sane, and a forward comes before the report |
| FrameTrace.DrawPhaseCount | libs/hwui/renderthread/DrawFrameTask.cpp:117-139 | in the draw part, the release occurs once, `enqueueFrameWork` once iff there is a frame callback, and the draw step once; no other event |
| FrameTrace.UnblocksExactlyOnce | libs/hwui/renderthread/DrawFrameTask.cpp:119-139 | every run releases the UI thread exactly once, draws exactly when it can draw, and otherwise waits on fences exactly once |
| FrameTrace.DrawPhaseCounts | libs/hwui/renderthread/DrawFrameTask.cpp:119-139 | the phase after the copies holds one release and one draw step, which is `draw` or `waitOnFences` by can-draw |
| FrameTrace.GateCount | libs/hwui/renderthread/DrawFrameTask.cpp:92-163 | releases and draw steps occur in a run only in the phase after the copies |
| FrameTrace.UnblockOrdering | libs/hwui/renderthread/DrawFrameTask.cpp:117-139 | the release precedes the draw step iff `prepareTextures` is true; `prepareTree` always precedes the release |
| FrameTrace.DrawPhaseOrder | libs/hwui/renderthread/DrawFrameTask.cpp:119-139 | within the draw part, the release precedes the draw step iff `prepareTextures` |
| FrameTrace.GatesInDrawPhase | libs/hwui/renderthread/DrawFrameTask.cpp:92-163 | every release and draw step of a run lies in its draw part |
| FrameTrace.UnblockAroundDrawStep | libs/hwui/renderthread/DrawFrameTask.cpp:117-139 | over a whole run, the release precedes the draw step iff `prepareTextures` |
| FrameTrace.UnblockAfterPrepareTree | libs/hwui/renderthread/DrawFrameTask.cpp:92-163 | over a whole run, `prepareTree` precedes the release |
| FrameTrace.PreDrawLayout | libs/hwui/renderthread/DrawFrameTask.cpp:165-206 | the events before the draw phase hold no release, draw step or hint report; the applies are exactly at positions 3 to 2+n, in queue order; `prepareTree` is at position 4+n; `makeCurrent` and `unpinImages` come before position 3 |
| FrameTrace.DrawPhaseLayout | libs/hwui/renderthread/DrawFrameTask.cpp:117-139 | the phase after the copies holds no sync step and no hint report |
| FrameTrace.HintLayout | libs/hwui/renderthread/DrawFrameTask.cpp:143-161 | the hint step holds only hint reports |
| FrameTrace.RunEventsAt | libs/hwui/renderthread/DrawFrameTask.cpp:92-163 | a run's trace is the sync part, the draw part and the hint part, in that order |
| FrameTrace.SelectRunEvents | libs/hwui/renderthread/DrawFrameTask.cpp:92-163 | the events picked from a run are the events picked from its three parts in turn |
| FrameTrace.AppliedBeforeDraw | libs/hwui/renderthread/DrawFrameTask.cpp:177-182 | the layers applied before the draw phase are exactly the queue, in order |
| FrameTrace.LayersAppliedInQueueOrder | libs/hwui/renderthread/DrawFrameTask.cpp:177-182 | over a whole run, the applied layers are exactly the queued layers, once each and in queue order |
| FrameTrace.LayersAppliedBeforePrepareTree | libs/hwui/renderthread/DrawFrameTask.cpp:173-182 | every apply follows `makeCurrent` and `unpinImages` and precedes `prepareTree` |
| FrameTrace.HintStepReports | libs/hwui/renderthread/DrawFrameTask.cpp:143-161 | the hint step forwards the target iff both callbacks are set and the target is sane and new; it reports the actual duration iff both callbacks are set and it is sane |
| FrameTrace.TargetForwarding | libs/hwui/renderthread/DrawFrameTask.cpp:143-153 | a run forwards at most one target, and exactly when both callbacks are set and the target is sane and differs from the last one |
| FrameTrace.ActualReporting | libs/hwui/renderthread/DrawFrameTask.cpp:143-160 | a run reports the actual duration exactly when both callbacks are set and it lies in the sanity window |
| FrameTrace.RepeatedFrameDoesNotReforward | libs/hwui/renderthread/DrawFrameTask.cpp:146-153 | after a target is forwarded, a next frame with the same span and percentage forwards nothing |
| PerformanceHint.TruncDiv | libs/hwui/renderthread/DrawFrameTask.cpp:147 | C++ integer division by a positive divisor: the quotient rounds toward zero |
| PerformanceHint.TruncDivRoundsTowardZero | libs/hwui/renderthread/DrawFrameTask.cpp:146-147 | a negative span gives a quotient rounded toward zero, unlike Dafny's `/` |
| PerformanceHint.TargetWorkDuration | libs/hwui/renderthread/DrawFrameTask.cpp:146-147 | the span times the percentage, divided by 100 rounding toward zero: for a non-negative product r is the largest with 100 r at most the product, for a negative one the smallest with 100 r at least it |
| PerformanceHint.InSanityRange | libs/hwui/renderthread/DrawFrameTask.cpp:148-149 | a sane duration is positive, and no duration at or outside either bound of the window is sane |
| PerformanceHint.ForwardsTarget | libs/hwui/renderthread/DrawFrameTask.cpp:148-150 | a forwarded target is positive and sane, and a target equal to the last one is never forwarded |
| PerformanceHint.NextLastTarget | libs/hwui/renderthread/DrawFrameTask.cpp:148-152 | the result is the old last target or the new target; it differs from the old one iff the target is forwarded; the target is never forwarded again against the result |
| PerformanceHint.RepeatedTargetNotForwarded | libs/hwui/renderthread/DrawFrameTask.cpp:148-152 | a frame that repeats the previous frame's target leaves the last target unchanged: applying the update twice with the same target equals applying it once |
| PerformanceHint.SanityWindowIsOpen | libs/hwui/renderthread/DrawFrameTask.cpp:144-150 | both bounds of the window, 100000 and 10000000000 ns, are excluded, and their inner neighbours are included |
| PerformanceHint.TargetExample | libs/hwui/renderthread/DrawFrameTask.cpp:144-153 | a 16 ms span at 70 % gives 11.2 ms, which is forwarded the first time only |
| PerformanceHint.ActualWorkDuration | libs/hwui/renderthread/DrawFrameTask.cpp:154-157 | the frame's duration minus this frame's dequeue wait and minus the smaller of the sync delay and the previous dequeue wait |
| JavaSplit.SplitAtCommas | core/java/android/provider/settings/validators/ListValidator.java:38 | the pieces between commas: at least one, none containing a comma |
| JavaSplit.JoinSplitAtCommas | core/java/android/provider/settings/validators/ListValidator.java:38 | joining the pieces with commas gives back the string |
| JavaSplit.SplitAtCommasJoin | core/java/android/provider/settings/validators/ListValidator.java:38 | splitting a comma-join of comma-free pieces gives back the pieces |
| JavaSplit.SplitAtCommasNoComma | core/java/android/provider/settings/validators/ListValidator.java:38 | a string without a comma is its own only piece |
| JavaSplit.SplitAtCommasCons | core/java/android/provider/settings/validators/ListValidator.java:38 | splitting `a,b` with comma-free `a` gives `a` followed by the pieces of `b` |
| JavaSplit.DropTrailingEmpty | core/java/android/provider/settings/validators/ListValidator.java:38 | the longest prefix whose last piece is non-empty; only empty pieces follow it |
| JavaSplit.Split | core/java/android/provider/settings/validators/ListValidator.java:38 | `split(",")`: no item contains a comma; a string without a comma comes back whole as the only item |
| JavaSplit.SplitSpec | core/java/android/provider/settings/validators/ListValidator.java:38 | with a comma, the items are the pieces up to the last non-empty one, and only empty pieces are dropped |
| JavaSplit.SplitRestores | core/java/android/provider/settings/validators/ListValidator.java:38 | the items joined with commas, plus the dropped empty pieces, give back the string |
| JavaSplit.SplitExamplesShort | core/java/android/provider/settings/validators/ListValidator.java:38 | `""` gives `[""]` and `","` gives no items |
| JavaSplit.SplitExamplesTrailing | core/java/android/provider/settings/validators/ListValidator.java:38 | `"a,,"` gives `["a"]`: trailing empty items are dropped |
| JavaSplit.SplitExamplesLeading | core/java/android/provider/settings/validators/ListValidator.java:38 | `",a"` gives `["", "a"]` and `"ab,c"` gives `["ab", "c"]`: a leading empty item is kept |
| ListValidation.CheckItems | core/java/android/provider/settings/validators/ListValidator.java:39-44 | true iff every item is valid; the items consulted are a prefix of the list: all of them on true, and on false up to and including the first invalid one |
| ListValidation.ListValidator.Validate | core/java/android/provider/settings/validators/ListValidator.java:34-45 | false with no item consulted when the entry is invalid; a `NullPointerException` for a null value that passes the entry check; otherwise whether every item of the split is valid |
| ListValidation.ValidateTrueIff | core/java/android/provider/settings/validators/ListValidator.java:34-45 | `validate` returns true iff the entry is valid and every item of the split is valid |
| ListValidation.ValidateConsultsInOrder | core/java/android/provider/settings/validators/ListValidator.java:39-42 | items are checked in split order, stopping at the first invalid item |
| ListValidation.ValidateIgnoresRegex | core/java/android/provider/settings/validators/ListValidator.java:30-31 | the regex given to the constructor does not affect the result |
| ListValidation.ValidateSplitsOnLiteralComma | core/java/android/provider/settings/validators/ListValidator.java:38 | when the stored regex is `\|`, `"a\|b"` is valid and is consulted as the one item `"a\|b"`; `"a,,"` is valid; `",a"` is invalid after consulting only its empty first item |
| ListValidation.AllItemsValidMeansEntryCheck | core/java/android/provider/settings/validators/ListValidator.java:34-45 | when every item is valid, `validate` of a non-null value is the entry check |

## Left out

- The mutex, the condition variable and the render-thread queue are not modelled. `PostAndWait` runs `Run` to completion, and releasing the UI thread is the `Unblock` event. Blocking, waking and interleaving with the UI thread are not modelled.
- RenderThread.DrawFrameTask.DrawUnlocked, SyncAndAttachListener, ApplyLayerUpdates, RecordSyncFlags and ReportWorkDurations are blocks of `run` and `syncFrameState` split out as methods of their own. The statements and their order are the source's.
- The canvas context, the GPU and the timing sink are oracles. This covers `makeCurrent`, `hasSurface`, `prepareTree`, `draw`, `waitOnFences`, `unpinImages`, `setContentDrawBounds`, `vsyncReceived` and `DeferredLayerUpdater::apply`. Their answers are fields of `FrameEnv`. Every listed call except `hasSurface` is an event in the trace. `hasSurface` has no event; the model only reads its answer from `FrameEnv`.
- `hasSurface()` is called twice in `syncFrameState`. The model reads it once.
- `systemTime(SYSTEM_TIME_MONOTONIC)` gives three clock readings, `queuedAt`, `runStart` and `now`. `Properties::targetCpuTimePercentage` is a parameter.
- The frame callback and the frame-complete callback are closures. They are reduced to whether they are set, and to the `EnqueueFrameWork` and `AddFrameCompleteListener` events. The frame number passed to the callback is not modelled.
- `removeLayerUpdate` has no per-layer trace event.
- The frame-info array is reduced to the six entries the task reads. The render thread pointer and the target node are not modelled. `setContext` keeps only whether the context is null.
- PerformanceHint.TargetWorkDuration, ActualWorkDuration and RenderThread.DrawFrameTask.Run: the durations are unbounded integers. The int64 overflow of the source is not modelled. Its truncating division is.
- FrameTrace.RunEvents, SyncPhaseEvents, DrawPhaseEvents, HintReports and HintEvents have no `ensures` of their own. Their properties are stated by the lemmas RunEventsAt, SyncPhaseShape, DrawPhaseShape, HintReportsShape and HintLayout, so callers do not pay for them at every use.
- `ATRACE_*` tracing is left out. The `LOG_ALWAYS_FATAL_IF` checks are preconditions that a context is set.
- The concrete `ListValidator` subclasses are not modelled, and neither is the Java regex engine. The two hooks are arbitrary total functions. `validate` never uses the stored regex. A hook that throws is not modelled.
