/**
 * The SyncResult bitmask that `drawFrame` hands back to the producer. The flag
 * values are those of the `SyncResult` enum in DrawFrameTask.h (which is not
 * part of this model); the flags are independent bits.
 */
module SyncResult {

  type Bits = bv32

  const OK: Bits := 0
  const UIRedrawRequired: Bits := 1
  const LostSurfaceRewardIfFound: Bits := 2
  const ContextIsStopped: Bits := 4
  const FrameDropped: Bits := 8

  const AllFlags: Bits := UIRedrawRequired | LostSurfaceRewardIfFound | ContextIsStopped | FrameDropped

  predicate Has(r: Bits, flag: Bits) {
    r & flag != 0
  }

  /** What `prepareTree` reports about the frame (TreeInfo::out and TreeInfo::prepareTextures). */
  datatype TreeOutput = TreeOutput(
    canDrawThisFrame: bool,
    hasAnimations: bool,
    requiresUiRedraw: bool,
    prepareTextures: bool)

  /** `info.out.canDrawThisFrame` once a missing surface or a stopped context has forced it off. */
  function FinalCanDrawThisFrame(hasSurface: bool, canDraw: bool, out: TreeOutput): (b: bool)
    ensures b ==> hasSurface && canDraw && out.canDrawThisFrame
    ensures hasSurface && canDraw ==> b == out.canDrawThisFrame
  {
    if !hasSurface || !canDraw then false else out.canDrawThisFrame
  }

  /**
   * The flags that `syncFrameState` ORs into the result, given whether the
   * context has a surface, whether `makeCurrent` succeeded, and what
   * `prepareTree` reported.
   */
  function SyncFlags(hasSurface: bool, canDraw: bool, out: TreeOutput): (r: Bits)
    ensures Has(r, LostSurfaceRewardIfFound) <==> !hasSurface
    ensures Has(r, ContextIsStopped) <==> hasSurface && !canDraw
    ensures Has(r, UIRedrawRequired) <==> out.hasAnimations && out.requiresUiRedraw
    ensures Has(r, FrameDropped) <==> !FinalCanDrawThisFrame(hasSurface, canDraw, out)
    ensures !(Has(r, LostSurfaceRewardIfFound) && Has(r, ContextIsStopped))
    ensures r & !AllFlags == 0
  {
    var surface := if !hasSurface then LostSurfaceRewardIfFound
                   else if !canDraw then ContextIsStopped
                   else OK;
    var redraw := if out.hasAnimations && out.requiresUiRedraw then UIRedrawRequired else OK;
    var dropped := if !FinalCanDrawThisFrame(hasSurface, canDraw, out) then FrameDropped else OK;
    surface | redraw | dropped
  }

  /**
   * ORing the sync flags into a result never clears a flag already set, and
   * from `OK` it gives exactly the sync flags.
   */
  lemma SyncOnlyAddsFlags(r: Bits, hasSurface: bool, canDraw: bool, out: TreeOutput)
    ensures var r' := r | SyncFlags(hasSurface, canDraw, out);
      && (Has(r, UIRedrawRequired) ==> Has(r', UIRedrawRequired))
      && (Has(r, LostSurfaceRewardIfFound) ==> Has(r', LostSurfaceRewardIfFound))
      && (Has(r, ContextIsStopped) ==> Has(r', ContextIsStopped))
      && (Has(r, FrameDropped) ==> Has(r', FrameDropped))
      && (r == OK ==> r' == SyncFlags(hasSurface, canDraw, out))
  {
  }
}
