/**
 * The SurfaceControl renderer of the web view (RendererSurfaceControl.cpp).
 *
 * Buffers produced by WebKit are shown on an Android surface by transactions.
 * At most one transaction is waiting for the compositor's commit at any time:
 * later ones queue up and are applied one by one as commits arrive. While no
 * surface exists, only the newest buffer is kept, as pending, and is shown
 * when the surface asks to be redrawn. The compositor, the surface and the
 * WebKit view are modelled by the effects the renderer has on them: the
 * transactions it applies, in order, and the buffer notifications it sends
 * to the view.
 */
module SurfaceRenderer {
  import opened Wrappers

  /** A `WPEBufferAndroid` and the hardware buffer it wraps (null when it has none). */
  datatype Buffer = Buffer(id: nat, hardwareBuffer: Option<nat>)

  /**
   * A surface transaction. A buffer transaction shows `buffer` and, once the
   * compositor is done with it, releases `bufferToRelease`; its commit reports
   * `buffer` as rendered. A redraw transaction shows the front buffer again
   * and reports nothing on commit.
   */
  datatype Transaction =
    | BufferTransaction(hardwareBuffer: Option<nat>, fenceFd: int, bufferToRelease: Option<Buffer>, buffer: Buffer)
    | RedrawTransaction(frontHardwareBuffer: nat)

  /** A notification to the WPE view: a buffer may be reused, or has been rendered. */
  datatype ViewEvent = BufferReleased(buffer: Buffer) | BufferRendered(buffer: Buffer)

  class RendererSurfaceControl {
    var surface: Option<nat>
    var width: nat
    var height: nat
    var pendingTransactionQueue: seq<Transaction>
    var numTransactionCommitOrAckPending: nat
    var currentFrameBuffer: Option<Buffer>
    var pendingCommitBuffer: Option<Buffer>
    var pendingCommitFenceFd: Option<int>
    var frontBuffer: Option<Buffer>
    /** Whether a WPE view is attached to receive buffer notifications. */
    const hasView: bool
    /** The transactions applied to the compositor, in order. */
    var applied: seq<Transaction>
    /** The notifications sent to the view, in order. */
    var viewEvents: seq<ViewEvent>
    /** The release fences set on buffers by `wpe_buffer_set_release_fence`, in order. */
    var releaseFences: seq<(Buffer, int)>

    /**
     * At most one transaction awaits its commit, and transactions wait in the
     * queue only while one does.
     */
    predicate Valid()
      reads this
    {
      numTransactionCommitOrAckPending <= 1
      && (pendingTransactionQueue != [] ==> numTransactionCommitOrAckPending == 1)
    }

    /** The notification `wpe_view_buffer_released` sends, if a view is attached. */
    function Released(b: Buffer): seq<ViewEvent>
      reads this
    {
      if hasView then [BufferReleased(b)] else []
    }

    constructor (width: nat, height: nat, hasView: bool)
      ensures Valid()
      ensures this.width == width && this.height == height && this.hasView == hasView
      ensures surface.None? && pendingTransactionQueue == [] && numTransactionCommitOrAckPending == 0
      ensures currentFrameBuffer.None? && pendingCommitBuffer.None? && pendingCommitFenceFd.None? && frontBuffer.None?
      ensures applied == [] && viewEvents == [] && releaseFences == []
    {
      this.width := width;
      this.height := height;
      this.hasView := hasView;
      surface := None;
      pendingTransactionQueue := [];
      numTransactionCommitOrAckPending := 0;
      currentFrameBuffer := None;
      pendingCommitBuffer := None;
      pendingCommitFenceFd := None;
      frontBuffer := None;
      applied := [];
      viewEvents := [];
      releaseFences := [];
    }

    /** `onSurfaceCreated`: a new surface; transactions queued for the old one are dropped. */
    method OnSurfaceCreated(window: nat)
      requires Valid()
      modifies this`surface, this`numTransactionCommitOrAckPending, this`pendingTransactionQueue
      ensures Valid()
      ensures surface == Some(window)
      ensures numTransactionCommitOrAckPending == 0 && pendingTransactionQueue == []
    {
      surface := Some(window);
      numTransactionCommitOrAckPending := 0;
      while pendingTransactionQueue != []
        invariant surface == Some(window) && numTransactionCommitOrAckPending == 0
        decreases |pendingTransactionQueue|
      {
        pendingTransactionQueue := pendingTransactionQueue[1..];
      }
    }

    /** `onSurfaceChanged`: only the size changes. */
    method OnSurfaceChanged(format: int, width: nat, height: nat)
      requires Valid()
      modifies this`width, this`height
      ensures Valid()
      ensures this.width == width && this.height == height
    {
      this.width := width;
      this.height := height;
    }

    /** `onSurfaceDestroyed`: the surface and the front buffer are gone. */
    method OnSurfaceDestroyed()
      requires Valid()
      modifies this`surface, this`frontBuffer
      ensures Valid()
      ensures surface.None? && frontBuffer.None?
    {
      frontBuffer := None;
      surface := None;
    }

    /**
     * `applyBufferTransaction`: `wpeBuffer` becomes the current frame and the
     * previous current frame is the buffer the transaction releases. The
     * transaction is applied at once when none awaits its commit, and queued
     * otherwise.
     */
    method ApplyBufferTransaction(hardwareBuffer: Option<nat>, wpeBuffer: Buffer, fenceFd: int)
      requires Valid() && surface.Some?
      modifies this`currentFrameBuffer, this`pendingTransactionQueue, this`numTransactionCommitOrAckPending, this`applied
      ensures Valid()
      ensures currentFrameBuffer == Some(wpeBuffer)
      ensures var t := BufferTransaction(hardwareBuffer, fenceFd, old(currentFrameBuffer), wpeBuffer);
        if old(numTransactionCommitOrAckPending) > 0 then
          pendingTransactionQueue == old(pendingTransactionQueue) + [t]
          && numTransactionCommitOrAckPending == old(numTransactionCommitOrAckPending)
          && applied == old(applied)
        else
          pendingTransactionQueue == old(pendingTransactionQueue)
          && numTransactionCommitOrAckPending == 1
          && applied == old(applied) + [t]
    {
      var bufferToRelease := currentFrameBuffer;
      currentFrameBuffer := Some(wpeBuffer);
      var transaction := BufferTransaction(hardwareBuffer, fenceFd, bufferToRelease, wpeBuffer);
      if numTransactionCommitOrAckPending > 0 {
        pendingTransactionQueue := pendingTransactionQueue + [transaction];
      } else {
        numTransactionCommitOrAckPending := numTransactionCommitOrAckPending + 1;
        applied := applied + [transaction];
      }
    }

    /**
     * `commitBuffer`. Without a surface the buffer becomes the pending one
     * (the previous pending buffer is released when a view is attached) and
     * the current frame and front buffer are dropped. With a surface any
     * pending buffer is released and the buffer is shown.
     */
    method CommitBuffer(hardwareBuffer: nat, wpeBuffer: Buffer, fenceFd: int)
      requires Valid()
      modifies this
      ensures Valid()
      ensures surface == old(surface) && width == old(width) && height == old(height)
      ensures old(surface).None? ==>
        pendingCommitBuffer == Some(wpeBuffer) && pendingCommitFenceFd == Some(fenceFd)
        && currentFrameBuffer.None? && frontBuffer.None?
        && pendingTransactionQueue == old(pendingTransactionQueue)
        && numTransactionCommitOrAckPending == old(numTransactionCommitOrAckPending)
        && applied == old(applied)
        && viewEvents == old(viewEvents)
             + (if old(pendingCommitBuffer).Some? then Released(old(pendingCommitBuffer).value) else [])
             + (if old(currentFrameBuffer).Some? then Released(old(currentFrameBuffer).value) else [])
      ensures old(surface).Some? ==>
        pendingCommitBuffer.None?
        && (old(pendingCommitBuffer).Some? ==> pendingCommitFenceFd.None?)
        && (old(pendingCommitBuffer).None? ==> pendingCommitFenceFd == old(pendingCommitFenceFd))
        && frontBuffer == old(frontBuffer)
        && currentFrameBuffer == Some(wpeBuffer)
        && viewEvents == old(viewEvents) + (if old(pendingCommitBuffer).Some? then Released(old(pendingCommitBuffer).value) else [])
        && var t := BufferTransaction(Some(hardwareBuffer), fenceFd, old(currentFrameBuffer), wpeBuffer);
           if old(numTransactionCommitOrAckPending) > 0 then
             pendingTransactionQueue == old(pendingTransactionQueue) + [t] && applied == old(applied)
           else
             pendingTransactionQueue == old(pendingTransactionQueue) && applied == old(applied) + [t]
             && numTransactionCommitOrAckPending == 1
    {
      if surface.None? {
        if pendingCommitBuffer.Some? && hasView {
          viewEvents := viewEvents + [BufferReleased(pendingCommitBuffer.value)];
          pendingCommitBuffer := None;
        }
        pendingCommitBuffer := Some(wpeBuffer);
        pendingCommitFenceFd := Some(fenceFd);
        if currentFrameBuffer.Some? {
          if hasView {
            viewEvents := viewEvents + [BufferReleased(currentFrameBuffer.value)];
          }
          currentFrameBuffer := None;
        }
        frontBuffer := None;
        return;
      }
      if pendingCommitBuffer.Some? {
        if hasView {
          viewEvents := viewEvents + [BufferReleased(pendingCommitBuffer.value)];
        }
        pendingCommitBuffer := None;
        pendingCommitFenceFd := None;
      }
      ApplyBufferTransaction(Some(hardwareBuffer), wpeBuffer, fenceFd);
    }

    /**
     * `onSurfaceRedrawNeeded`. A pending buffer (one with a hardware buffer) is
     * shown with its fence and stops being pending. Otherwise the front buffer
     * is shown again, but only when no transaction awaits its commit.
     */
    method OnSurfaceRedrawNeeded()
      requires Valid()
      modifies this
      ensures Valid()
      ensures surface == old(surface) && width == old(width) && height == old(height)
      ensures frontBuffer == old(frontBuffer) && viewEvents == old(viewEvents)
      ensures old(surface).None? ==>
        pendingCommitBuffer == old(pendingCommitBuffer) && pendingCommitFenceFd == old(pendingCommitFenceFd)
        && currentFrameBuffer == old(currentFrameBuffer) && applied == old(applied)
        && pendingTransactionQueue == old(pendingTransactionQueue)
        && numTransactionCommitOrAckPending == old(numTransactionCommitOrAckPending)
      ensures old(surface).Some? && old(pendingCommitBuffer).Some? ==>
        var b := old(pendingCommitBuffer).value;
        if b.hardwareBuffer.None? then
          pendingCommitBuffer == old(pendingCommitBuffer) && pendingCommitFenceFd == old(pendingCommitFenceFd)
          && currentFrameBuffer == old(currentFrameBuffer) && applied == old(applied)
          && pendingTransactionQueue == old(pendingTransactionQueue)
          && numTransactionCommitOrAckPending == old(numTransactionCommitOrAckPending)
        else
          var fence := if old(pendingCommitFenceFd).Some? then old(pendingCommitFenceFd).value else -1;
          var t := BufferTransaction(b.hardwareBuffer, fence, old(currentFrameBuffer), b);
          pendingCommitBuffer.None? && pendingCommitFenceFd.None? && currentFrameBuffer == Some(b)
          && if old(numTransactionCommitOrAckPending) > 0 then
               pendingTransactionQueue == old(pendingTransactionQueue) + [t] && applied == old(applied)
             else
               pendingTransactionQueue == old(pendingTransactionQueue) && applied == old(applied) + [t]
               && numTransactionCommitOrAckPending == 1
      ensures old(surface).Some? && old(pendingCommitBuffer).None? ==>
        pendingCommitBuffer == old(pendingCommitBuffer) && pendingCommitFenceFd == old(pendingCommitFenceFd)
        && currentFrameBuffer == old(currentFrameBuffer)
        && pendingTransactionQueue == old(pendingTransactionQueue)
        && if old(frontBuffer).Some? && old(numTransactionCommitOrAckPending) == 0
              && old(frontBuffer).value.hardwareBuffer.Some? then
             numTransactionCommitOrAckPending == 1
             && applied == old(applied) + [RedrawTransaction(old(frontBuffer).value.hardwareBuffer.value)]
           else
             numTransactionCommitOrAckPending == old(numTransactionCommitOrAckPending) && applied == old(applied)
    {
      if surface.None? {
        return;
      }
      if pendingCommitBuffer.Some? {
        var bufferToCommit := pendingCommitBuffer.value;
        if bufferToCommit.hardwareBuffer.None? {
          return;
        }
        var fenceFd := if pendingCommitFenceFd.Some? then pendingCommitFenceFd.value else -1;
        pendingCommitBuffer := None;
        pendingCommitFenceFd := None;
        ApplyBufferTransaction(bufferToCommit.hardwareBuffer, bufferToCommit, fenceFd);
        return;
      }
      if frontBuffer.Some? {
        if numTransactionCommitOrAckPending > 0 {
          return;
        }
        var hardwareBuffer := frontBuffer.value.hardwareBuffer;
        if hardwareBuffer.None? {
          return;
        }
        numTransactionCommitOrAckPending := numTransactionCommitOrAckPending + 1;
        applied := applied + [RedrawTransaction(hardwareBuffer.value)];
      }
    }

    /**
     * `onTransActionAckOnBrowserThread`: the compositor is done with the buffer
     * a transaction released. The fence of the first surface stat, when there
     * is one (`releaseFence`), is set on the buffer so that the web process
     * waits for it before reusing the buffer; the buffer stops being the front
     * buffer and the view may reuse it.
     */
    method OnTransactionAck(releasedBuffer: Option<Buffer>, releaseFence: Option<int>)
      requires Valid()
      modifies this`frontBuffer, this`viewEvents, this`releaseFences
      ensures Valid()
      ensures releasedBuffer.None? ==>
        frontBuffer == old(frontBuffer) && viewEvents == old(viewEvents) && releaseFences == old(releaseFences)
      ensures releasedBuffer.Some? ==>
        && frontBuffer == (if old(frontBuffer) == releasedBuffer then None else old(frontBuffer))
        && viewEvents == old(viewEvents) + Released(releasedBuffer.value)
        && releaseFences == old(releaseFences) + (if releaseFence.Some? then [(releasedBuffer.value, releaseFence.value)] else [])
    {
      if releasedBuffer.Some? {
        var buffer := releasedBuffer.value;
        if releaseFence.Some? {
          releaseFences := releaseFences + [(buffer, releaseFence.value)];
        }
        if frontBuffer == Some(buffer) {
          frontBuffer := None;
        }
        if hasView {
          viewEvents := viewEvents + [BufferReleased(buffer)];
        }
      }
    }

    /**
     * `onTransactionCommittedOnBrowserThread`: a rendered buffer becomes the
     * front buffer and is reported to the view; the in-flight count drops
     * (never below zero) and the next queued transaction, if any, is applied.
     */
    method OnTransactionCommitted(renderedBuffer: Option<Buffer>)
      requires Valid()
      modifies this`frontBuffer, this`viewEvents, this`numTransactionCommitOrAckPending,
               this`pendingTransactionQueue, this`applied
      ensures Valid()
      ensures frontBuffer == if renderedBuffer.Some? then renderedBuffer else old(frontBuffer)
      ensures viewEvents == old(viewEvents) + (if renderedBuffer.Some? && hasView then [BufferRendered(renderedBuffer.value)] else [])
      ensures old(pendingTransactionQueue) == [] ==>
        pendingTransactionQueue == [] && applied == old(applied) && numTransactionCommitOrAckPending == 0
      ensures old(pendingTransactionQueue) != [] ==>
        pendingTransactionQueue == old(pendingTransactionQueue)[1..]
        && applied == old(applied) + [old(pendingTransactionQueue)[0]]
        && numTransactionCommitOrAckPending == 1
    {
      if renderedBuffer.Some? {
        frontBuffer := renderedBuffer;
        if hasView {
          viewEvents := viewEvents + [BufferRendered(renderedBuffer.value)];
        }
      }
      if numTransactionCommitOrAckPending > 0 {
        numTransactionCommitOrAckPending := numTransactionCommitOrAckPending - 1;
      }
      if pendingTransactionQueue != [] {
        numTransactionCommitOrAckPending := numTransactionCommitOrAckPending + 1;
        applied := applied + [pendingTransactionQueue[0]];
        pendingTransactionQueue := pendingTransactionQueue[1..];
      }
    }
  }
}
