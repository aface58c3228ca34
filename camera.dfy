/**
 * The camera adapter, reduced to its flags: whether the stream reference holds
 * a capture stream, how many earlier streams were dropped from that reference
 * with their tracks still running, whether the preview is active, and the
 * single error message it publishes. The host's answer to `getUserMedia` and
 * `play()` is a parameter.
 */
module Camera {
  import opened Wrappers

  const CameraError: string := "Failed to access camera"

  /** How one `startCamera()` attempt ends on the host. */
  datatype AcquireOutcome =
    | AccessFailed        // getUserMedia rejected: no stream
    | GrantedNoSink       // stream obtained, but no video element is mounted
    | GrantedPlayFailed   // stream obtained and bound, but play() rejected
    | GrantedPlaying      // stream obtained, bound and playing

  class CameraFeed {
    var isActive: bool
    var error: Option<string>
    /** The stream reference holds a capture stream (not yet released). */
    var streamHeld: bool
    /**
     * Streams whose reference a later grant overwrote without stopping their
     * tracks: nothing can release them any more.
     */
    var leaked: nat

    /** An active preview always has a stream behind it. */
    ghost predicate Valid()
      reads this
    {
      isActive ==> streamHeld
    }

    constructor ()
      ensures Valid() && !isActive && error == None && !streamHeld && leaked == 0
    {
      isActive := false;
      error := None;
      streamHeld := false;
      leaked := 0;
    }

    /**
     * `startCamera()`: clear the error, then record the outcome of the
     * acquisition. A granted stream replaces the reference without stopping a
     * stream it already held, which then leaks.
     */
    method StartCamera(outcome: AcquireOutcome)
      requires Valid()
      modifies this
      ensures Valid()
      ensures streamHeld == (outcome != AccessFailed || old(streamHeld))
      ensures isActive == (outcome == GrantedPlaying || old(isActive))
      ensures error == if outcome == AccessFailed || outcome == GrantedPlayFailed then Some(CameraError) else None
      ensures leaked == old(leaked) + if outcome != AccessFailed && old(streamHeld) then 1 else 0
    {
      error := None;
      if outcome != AccessFailed {
        if streamHeld {
          leaked := leaked + 1;
        }
        streamHeld := true;
      }
      match outcome {
        case AccessFailed =>
          error := Some(CameraError);
        case GrantedNoSink =>
        case GrantedPlayFailed =>
          error := Some(CameraError);
        case GrantedPlaying =>
          isActive := true;
      }
    }

    /**
     * `stopCamera()`: release the referenced stream and deactivate; safe when
     * already stopped. Leaked streams stay leaked.
     */
    method StopCamera()
      requires Valid()
      modifies this`isActive, this`streamHeld
      ensures Valid() && !isActive && !streamHeld
    {
      streamHeld := false;
      isActive := false;
    }
  }
}
