/**
 * The latest-frame buffer of `Recording` (mediti_collector/main.py). The capture thread, its lock and
 * its join are sequentialised: each iteration of the thread's `run` loop is one call of `CaptureStep`,
 * interleaved by the caller with `CopyFrame`; what the video source returns is the step's input.
 */
module Capture {
  import opened Wrappers

  /** What one `capture.read()` produced: a frame, `ret == False`, or an exception it raised. */
  datatype ReadResult<F> = Frame(frame: F) | NotOk | Raised(error: string)

  /** The capture thread: not yet started (`_thread is None`), running its loop, or finished. */
  datatype ThreadState = NotStarted | Running | Finished

  /** The message of the `RuntimeError` raised when `read()` reports failure. */
  const READ_FAILED := "read() from VideoCapture returned False"

  class Recording<F> {
    /** `_frame`: the most recently published frame, `None` before the first one. */
    var frame: Option<F>
    /** `_shutdown`: set by `__exit__`, observed by the capture loop at its head. */
    var shutdown: bool
    /** `_thread_err`: the exception that ended the capture loop, if any. */
    var threadErr: Option<string>
    var thread: ThreadState
    /** Every frame the capture loop has published, oldest first. */
    ghost var published: seq<F>

    ghost predicate Valid()
      reads this
    {
      && frame == (if published == [] then None else Some(published[|published| - 1]))
      && (threadErr.Some? ==> thread == Finished)
    }

    /** `Recording.__init__`: no frame, no error, no thread. */
    constructor ()
      ensures Valid()
      ensures frame == None && published == []
      ensures !shutdown && threadErr == None && thread == NotStarted
    {
      frame := None;
      shutdown := false;
      threadErr := None;
      thread := NotStarted;
      published := [];
    }

    /** `__enter__`: starts the capture loop. */
    method Enter()
      requires Valid() && thread == NotStarted
      modifies this`thread
      ensures Valid() && thread == Running
    {
      thread := Running;
    }

    /**
     * One iteration of the capture loop in `run`: leave the loop if `_shutdown` is set, otherwise read
     * and either publish the frame or record the error and end the loop (a failed read is not retried).
     */
    method CaptureStep(read: ReadResult<F>)
      requires Valid()
      modifies this
      ensures Valid() && shutdown == old(shutdown)
      ensures old(thread) != Running ==> thread == old(thread) && unchanged(this)
      ensures old(thread) == Running && old(shutdown) ==>
                thread == Finished && published == old(published) && threadErr == old(threadErr)
      ensures old(thread) == Running && !old(shutdown) ==>
                match read
                case Frame(f) =>
                  thread == Running && published == old(published) + [f] && threadErr == old(threadErr)
                case NotOk =>
                  thread == Finished && published == old(published) && threadErr == Some(READ_FAILED)
                case Raised(e) =>
                  thread == Finished && published == old(published) && threadErr == Some(e)
    {
      if thread != Running {
        return;
      }
      if shutdown {
        thread := Finished;
        return;
      }
      match read
      case Frame(f) =>
        frame := Some(f);
        published := published + [f];
      case NotOk =>
        threadErr := Some(READ_FAILED);
        thread := Finished;
      case Raised(e) =>
        threadErr := Some(e);
        thread := Finished;
    }

    /**
     * `copy_frame`: `None` before any frame has been published, otherwise (a copy of) the most recent
     * one. Frames are values here, so the copy is equal to the published frame and shares nothing.
     */
    method CopyFrame() returns (r: Option<F>)
      requires Valid()
      ensures published == [] ==> r == None
      ensures published != [] ==> r == Some(published[|published| - 1])
    {
      r := frame;
    }

    /**
     * `__exit__`: set `_shutdown`, join the thread (which finishes the iteration it is in, whose read
     * outcome is `inFlight`, or none if it was at its loop head), then re-raise a recorded error.
     */
    method Exit(inFlight: Option<ReadResult<F>>) returns (r: Outcome<string>)
      requires Valid()
      modifies this
      ensures Valid() && shutdown && thread != Running
      ensures old(thread) == NotStarted ==> thread == NotStarted
      ensures (old(thread) != Running || inFlight.None? || inFlight.value.Frame?) ==>
                threadErr == old(threadErr)
      ensures old(thread) == Running && inFlight.Some? && inFlight.value.Frame? ==>
                published == old(published) + [inFlight.value.frame]
      ensures old(thread) == Running && inFlight.Some? && inFlight.value.NotOk? ==>
                threadErr == Some(READ_FAILED)
      ensures old(thread) == Running && inFlight.Some? && inFlight.value.Raised? ==>
                threadErr == Some(inFlight.value.error)
      ensures (old(thread) != Running || inFlight.None? || !inFlight.value.Frame?) ==>
                published == old(published)
      ensures r.Fail? <==> threadErr.Some?
      ensures r.Fail? ==> r.error == threadErr.value
    {
      shutdown := true;
      if thread == Running {
        if inFlight.Some? {
          match inFlight.value
          case Frame(f) =>
            frame := Some(f);
            published := published + [f];
          case NotOk =>
            threadErr := Some(READ_FAILED);
          case Raised(e) =>
            threadErr := Some(e);
        }
        thread := Finished;
      }
      if threadErr.Some? {
        r := Fail(threadErr.value);
      } else {
        r := Pass;
      }
    }
  }

  /** A client of the specifications: a frame that was published is what a later copy returns. */
  method CopyAfterPublish<F>(f: F, g: F) returns (before: Option<F>, after: Option<F>)
    ensures before == None && after == Some(g)
  {
    var rec := new Recording<F>();
    before := rec.CopyFrame();
    rec.Enter();
    rec.CaptureStep(Frame(f));
    rec.CaptureStep(Frame(g));
    after := rec.CopyFrame();
    var outcome := rec.Exit(None);
    assert outcome == Pass;
  }
}
