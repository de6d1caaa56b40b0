/**
  The server's handler and the client's frame step composed: what a client in remote mode
  shows for each outcome on the server.

  The one fact taken from gRPC rather than from either script: a handler that sets a
  status other than OK makes the client's call raise, and the response it returned is
  dropped (`Deliver`).
*/
module Pipeline {
  import opened Wrappers
  import opened LandmarkWire
  import opened GestureService
  import opened OffloadControl

  /** What the client's stub call yields for the handler's status and landmark field. */
  function Deliver(status: StatusCode, landmarks: seq<real>): RemoteReply<real> {
    if status == Ok then Response(landmarks) else CallFailed
  }

  /** The reply a remote-mode client receives when the server's inference has this outcome. */
  function Serve(outcome: Inference): RemoteReply<real> {
    Deliver(ResponseStatus(outcome), ResponseLandmarks(outcome))
  }

  /** A hand of 21 landmarks found on the server reaches the client unchanged and in order. */
  lemma HandRoundTrip(hands: seq<seq<Landmark<real>>>, local: LocalInference)
    requires |hands| > 0 && |hands[0]| == LANDMARK_COUNT
    ensures FrameHand(false, local, Serve(Inferred(hands))) == Shown(Some(Hand(hands[0], Project(hands[0]))))
  {
    DecodeFlatten(hands[0]);
  }

  /** A hand with any other number of landmarks is sent, but the client shows nothing. */
  lemma OtherLandmarkCountDropped(hands: seq<seq<Landmark<real>>>, local: LocalInference)
    requires |hands| > 0 && |hands[0]| != LANDMARK_COUNT
    ensures FrameHand(false, local, Serve(Inferred(hands))) == Shown(None)
  {
  }

  /** "No hand" and an undecodable image both reach the client as 21 landmarks at the origin. */
  lemma NoHandShownAtOrigin(outcome: Inference, local: LocalInference)
    requires outcome == Inferred([]) || outcome == ImageUndecodable
    ensures FrameHand(false, local, Serve(outcome)).Shown?
    ensures FrameHand(false, local, Serve(outcome)).hand.Some?
    ensures forall i :: 0 <= i < LANDMARK_COUNT ==>
      FrameHand(false, local, Serve(outcome)).hand.value.landmarks[i] == Landmark(0.0, 0.0, 0.0)
  {
    ZeroPayloadDecodesToOrigin(ZeroFill());
  }

  /** An exception on the server makes the client's call fail: it shows nothing and turns local. */
  lemma ServerExceptionDemotesClient(st: ControllerState, local: LocalInference)
    requires !st.useLocal
    ensures FrameHand(st.useLocal, local, Serve(Raised)) == Shown(None)
    ensures AfterFrame(st, Serve(Raised)).useLocal
    ensures AfterFrame(st, Serve(Raised)).channelGen == st.channelGen
  {
  }
}
