/**
  The gesture server's `GestureService.DetectHand` handler (server/server.py:24-62).

  Image decoding and MediaPipe inference are opaque: a request is modelled by the outcome
  they produce. The handler fills the response's landmark field and, on an exception,
  sets the call's status on the servicer context.
*/
module GestureService {
  import opened LandmarkWire

  /** What decoding and inference make of one request's image. */
  datatype Inference =
    | ImageUndecodable                                  // cv2.imdecode returned None
    | Inferred(hands: seq<seq<Landmark<real>>>)         // multi_hand_landmarks; empty means no hand
    | Raised                                            // any exception inside the try block

  datatype StatusCode = Ok | Internal

  /** Details string set with the INTERNAL status ("inference failed"). */
  const INFERENCE_FAILED: string := "推理失败"

  /** The response filler used for "no hand", an undecodable image and an exception alike. */
  function ZeroFill(): (r: seq<real>)
    ensures |r| == PAYLOAD_LENGTH
    ensures forall k :: 0 <= k < |r| ==> r[k] == 0.0
  {
    seq(PAYLOAD_LENGTH, _ => 0.0)
  }

  /** The landmark field of the response to a request with the given outcome. */
  function ResponseLandmarks(outcome: Inference): (r: seq<real>)
    ensures outcome.Inferred? && |outcome.hands| > 0 ==> |r| == 3 * |outcome.hands[0]|
    ensures !(outcome.Inferred? && |outcome.hands| > 0) ==> r == ZeroFill()
  {
    match outcome
    case Inferred(hands) => if |hands| > 0 then Flatten(hands[0]) else ZeroFill()
    case _ => ZeroFill()
  }

  /** The status the handler leaves on the context (the context starts at OK). */
  function ResponseStatus(outcome: Inference): StatusCode {
    if outcome.Raised? then Internal else Ok
  }

  /** gRPC's servicer context: the only state the handler changes besides its response. */
  class ServicerContext {
    var code: StatusCode
    var details: string

    constructor ()
      ensures code == Ok && details == []
    {
      code := Ok;
      details := [];
    }
  }

  /** The loop that extends `landmarks` with [x, y, z] for each landmark of the first hand. */
  method CollectLandmarks(hand: seq<Landmark<real>>) returns (landmarks: seq<real>)
    ensures landmarks == Flatten(hand)
  {
    landmarks := [];
    var i := 0;
    while i < |hand|
      invariant 0 <= i <= |hand|
      invariant landmarks == Flatten(hand[..i])
    {
      var lm := hand[i];
      landmarks := landmarks + [lm.x, lm.y, lm.z];
      i := i + 1;
      assert hand[..i][..i - 1] == hand[..i - 1];
    }
    assert hand[..i] == hand;
  }

  /** The handler: returns the response's landmark field and records an error status on the context. */
  method DetectHand(outcome: Inference, context: ServicerContext) returns (landmarks: seq<real>)
    modifies context
    ensures landmarks == ResponseLandmarks(outcome)
    ensures old(context.code) == Ok ==> context.code == ResponseStatus(outcome)
    ensures outcome.Raised? ==> context.code == Internal && context.details == INFERENCE_FAILED
    ensures !outcome.Raised? ==> context.code == old(context.code) && context.details == old(context.details)
  {
    match outcome
    case ImageUndecodable =>
      landmarks := ZeroFill();
    case Inferred(hands) =>
      if |hands| > 0 {
        landmarks := CollectLandmarks(hands[0]);
      } else {
        landmarks := ZeroFill();
      }
    case Raised =>
      context.code := Internal;
      context.details := INFERENCE_FAILED;
      landmarks := ZeroFill();
  }

  /** A detected hand is sent as the concatenation of its landmarks' [x, y, z], 3 values per landmark. */
  lemma HandPayload(hands: seq<seq<Landmark<real>>>, i: nat)
    requires |hands| > 0 && i < |hands[0]|
    ensures |ResponseLandmarks(Inferred(hands))| == 3 * |hands[0]|
    ensures ResponseLandmarks(Inferred(hands))[3 * i .. 3 * i + 3] == Coords(hands[0][i])
  {
    FlattenAt(hands[0], i);
  }

  /** With no hand detected the response is exactly 63 zeros with an OK status. */
  lemma NoHandIsZeroFilled()
    ensures ResponseLandmarks(Inferred([])) == ZeroFill()
    ensures ResponseStatus(Inferred([])) == Ok
  {
  }

  /** An undecodable image gets exactly the no-hand response: the client cannot tell them apart. */
  lemma UndecodableLooksLikeNoHand()
    ensures ResponseLandmarks(ImageUndecodable) == ResponseLandmarks(Inferred([]))
    ensures ResponseStatus(ImageUndecodable) == ResponseStatus(Inferred([]))
  {
  }

  /** An exception sets INTERNAL while the payload is still the 63 zeros. */
  lemma ExceptionStillZeroFilled()
    ensures ResponseStatus(Raised) == Internal
    ensures ResponseLandmarks(Raised) == ResponseLandmarks(Inferred([]))
  {
  }
}
