/**
  The landmark payload exchanged between the gesture server and the client.

  The server flattens the landmarks of one hand into [x0, y0, z0, x1, y1, z1, ...]
  (server/server.py:44-48); the client accepts only a payload of exactly 63 values and
  rebuilds 21 (x, y, z) landmarks plus their 2-D (x, y) projection
  (client/client.py:144-158). The reshape does not look at the values, so it is
  modelled over an arbitrary element type.
*/
module LandmarkWire {
  import opened Wrappers

  /** Landmarks of one hand in MediaPipe's hand model. */
  const LANDMARK_COUNT: nat := 21
  /** Length of the only payload the client decodes: 21 landmarks times (x, y, z). */
  const PAYLOAD_LENGTH: nat := 63

  datatype Landmark<T> = Landmark(x: T, y: T, z: T)
  datatype Point<T> = Point(x: T, y: T)

  /** A decoded hand: its 3-D landmarks and the 2-D points the client draws. */
  datatype Hand<T> = Hand(landmarks: seq<Landmark<T>>, points: seq<Point<T>>)

  /** What the client's remote call yields: a response's landmark field, or an exception. */
  datatype RemoteReply<T> = Response(landmarks: seq<T>) | CallFailed

  function Coords<T>(l: Landmark<T>): seq<T> {
    [l.x, l.y, l.z]
  }

  /** The server's flattening: the coordinates of each landmark, in order. */
  function Flatten<T>(lms: seq<Landmark<T>>): (r: seq<T>)
    ensures |r| == 3 * |lms|
  {
    if lms == [] then [] else Flatten(lms[..|lms| - 1]) + Coords(lms[|lms| - 1])
  }

  /** The 2-D projection `[(lm.x, lm.y) for lm in ...]`. */
  function Project<T>(lms: seq<Landmark<T>>): (r: seq<Point<T>>)
    ensures |r| == |lms|
    ensures forall i :: 0 <= i < |lms| ==> r[i].x == lms[i].x && r[i].y == lms[i].y
  {
    seq(|lms|, i requires 0 <= i < |lms| => Point(lms[i].x, lms[i].y))
  }

  /** The client's decoding of a response: only a payload of 63 values yields a hand. */
  function Decode<T>(payload: seq<T>): (r: Option<Hand<T>>)
    ensures r.Some? <==> |payload| == PAYLOAD_LENGTH
    ensures r.Some? ==> |r.value.landmarks| == LANDMARK_COUNT && |r.value.points| == LANDMARK_COUNT
  {
    if |payload| != PAYLOAD_LENGTH then None
    else
      var lms := seq(LANDMARK_COUNT, i requires 0 <= i < LANDMARK_COUNT =>
                       Landmark(payload[3 * i], payload[3 * i + 1], payload[3 * i + 2]));
      Some(Hand(lms, Project(lms)))
  }

  /** Landmark i of a flattened payload sits at positions 3i, 3i+1, 3i+2. */
  lemma {:induction false} FlattenAt<T>(lms: seq<Landmark<T>>, i: nat)
    requires i < |lms|
    ensures Flatten(lms)[3 * i] == lms[i].x
    ensures Flatten(lms)[3 * i + 1] == lms[i].y
    ensures Flatten(lms)[3 * i + 2] == lms[i].z
  {
    var n := |lms| - 1;
    assert Flatten(lms) == Flatten(lms[..n]) + Coords(lms[n]);
    if i < n {
      FlattenAt(lms[..n], i);
    }
  }

  /** Decoded landmark i is (r[3i], r[3i+1], r[3i+2]) and decoded point i is (r[3i], r[3i+1]). */
  lemma DecodeLayout<T>(payload: seq<T>, i: nat)
    requires |payload| == PAYLOAD_LENGTH && i < LANDMARK_COUNT
    ensures Decode(payload).Some?
    ensures Decode(payload).value.landmarks[i] == Landmark(payload[3 * i], payload[3 * i + 1], payload[3 * i + 2])
    ensures Decode(payload).value.points[i] == Point(payload[3 * i], payload[3 * i + 1])
  {
  }

  /** Flattening 21 landmarks and decoding the result gives back the same landmarks, in order. */
  lemma DecodeFlatten<T>(lms: seq<Landmark<T>>)
    requires |lms| == LANDMARK_COUNT
    ensures Decode(Flatten(lms)) == Some(Hand(lms, Project(lms)))
  {
    var hand := Decode(Flatten(lms)).value;
    forall i | 0 <= i < LANDMARK_COUNT
      ensures hand.landmarks[i] == lms[i]
    {
      FlattenAt(lms, i);
    }
    assert hand.landmarks == lms;
  }

  /** Every well-formed payload is the flattening of the landmarks it decodes to. */
  lemma FlattenDecode<T>(payload: seq<T>)
    requires |payload| == PAYLOAD_LENGTH
    ensures Decode(payload).Some? && Flatten(Decode(payload).value.landmarks) == payload
  {
    var lms := Decode(payload).value.landmarks;
    var r := Flatten(lms);
    forall k | 0 <= k < PAYLOAD_LENGTH
      ensures r[k] == payload[k]
    {
      FlattenAt(lms, k / 3);
    }
  }

  /** Payloads of any length other than 63, including a hand with another landmark count, yield nothing. */
  lemma WrongLengthYieldsNothing<T>(lms: seq<Landmark<T>>)
    requires |lms| != LANDMARK_COUNT
    ensures Decode(Flatten(lms)) == None
  {
  }

  /** The all-zero payload still decodes into 21 landmarks at the origin. */
  lemma ZeroPayloadDecodesToOrigin(payload: seq<real>)
    requires |payload| == PAYLOAD_LENGTH
    requires forall k :: 0 <= k < |payload| ==> payload[k] == 0.0
    ensures Decode(payload).Some?
    ensures forall i :: 0 <= i < LANDMARK_COUNT ==> Decode(payload).value.landmarks[i] == Landmark(0.0, 0.0, 0.0)
  {
  }
}
