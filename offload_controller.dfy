/**
  The client's offload controller (client/client.py:45-56, 80-106, 123-163).

  The globals `use_local`, `last_network_check`, `channel` and `stub` become the fields of
  one OffloadController object. Recreating the channel and the stub is recorded by the
  counter `channelGen`. The clock reading and the probe's outcome (a latency in
  milliseconds or a failed connection) are inputs. The probe thread and the main loop
  are modelled as one sequence of steps.
*/
module OffloadControl {
  import opened Wrappers
  import opened LandmarkWire

  /** Probes run at most once per this many seconds. */
  const PROBE_INTERVAL: real := 3.0
  /** Above this latency (ms) a remote client demotes itself to local inference. */
  const DEMOTE_ABOVE_MS: real := 100.0
  /** Below this latency (ms) a local client promotes itself to remote inference. */
  const PROMOTE_BELOW_MS: real := 50.0

  /** Result of one connection attempt: its latency in ms, or an exception. */
  datatype ProbeOutcome = Connected(latencyMs: real) | Unreachable

  /** The controller's state: mode, time of the last probe, and how often the channel was built. */
  datatype ControllerState = ControllerState(useLocal: bool, lastCheck: real, channelGen: nat)

  /** One step of the client: a probe attempt at a clock reading, or a failed remote call. */
  datatype Event = Probe(now: real, outcome: ProbeOutcome) | RemoteCallFailure

  /** Module start: remote mode, no probe yet, the first channel built. */
  function InitialState(): ControllerState {
    ControllerState(false, 0.0, 0)
  }

  /** A probe runs only once 3 s have passed since the last one. */
  predicate ProbeDue(st: ControllerState, now: real) {
    !(now - st.lastCheck < PROBE_INTERVAL)
  }

  /** One iteration of `check_and_switch`. */
  function AfterProbe(st: ControllerState, now: real, outcome: ProbeOutcome): ControllerState {
    if !ProbeDue(st, now) then st
    else
      var checked := st.(lastCheck := now);
      match outcome
      case Connected(ping) =>
        if ping > DEMOTE_ABOVE_MS && !st.useLocal then checked.(useLocal := true)
        else if ping < PROMOTE_BELOW_MS && st.useLocal then
          checked.(useLocal := false, channelGen := st.channelGen + 1)
        else checked
      case Unreachable =>
        if !st.useLocal then checked.(useLocal := true) else checked
  }

  /** The main loop's `except` branch: a failed remote call forces local mode. */
  function AfterRemoteFailure(st: ControllerState): ControllerState {
    st.(useLocal := true)
  }

  function Apply(st: ControllerState, e: Event): ControllerState {
    match e
    case Probe(now, outcome) => AfterProbe(st, now, outcome)
    case RemoteCallFailure => AfterRemoteFailure(st)
  }

  /** The state after a sequence of steps. */
  function Run(st: ControllerState, events: seq<Event>): ControllerState
    decreases |events|
  {
    if events == [] then st else Run(Apply(st, events[0]), events[1..])
  }

  /** The mode (`useLocal`) after each step of a sequence. */
  function ModeTrace(st: ControllerState, events: seq<Event>): (modes: seq<bool>)
    ensures |modes| == |events|
    decreases |events|
  {
    if events == [] then []
    else [Apply(st, events[0]).useLocal] + ModeTrace(Apply(st, events[0]), events[1..])
  }

  /** The clock readings at which a probe actually ran. */
  function ProbeTimes(st: ControllerState, events: seq<Event>): seq<real>
    decreases |events|
  {
    if events == [] then []
    else
      var e := events[0];
      (if e.Probe? && ProbeDue(st, e.now) then [e.now] else [])
        + ProbeTimes(Apply(st, e), events[1..])
  }

  /** How many times a mode sequence goes from local (true) to remote (false). */
  function Promotions(wasLocal: bool, modes: seq<bool>): nat
    decreases |modes|
  {
    if modes == [] then 0
    else (if wasLocal && !modes[0] then 1 else 0) + Promotions(modes[0], modes[1..])
  }

  /** What local MediaPipe inference yields for a frame: the hands it found, or an exception. */
  datatype LocalInference = LocalHands(hands: seq<seq<Landmark<real>>>) | LocalRaised

  /** A frame either shows the landmarks it got (if any), or an exception escapes the main
      loop and ends the client. */
  datatype FrameResult = Shown(hand: Option<Hand<real>>) | ClientStopped

  /** What one frame yields: the first local hand, the decoded remote reply, nothing after a
      failed call, or the end of the client when local inference raises (it is not in a `try`). */
  function FrameHand(useLocal: bool, local: LocalInference, reply: RemoteReply<real>): FrameResult {
    if useLocal then
      match local
      case LocalHands(hands) =>
        if |hands| > 0 then Shown(Some(Hand(hands[0], Project(hands[0])))) else Shown(None)
      case LocalRaised => ClientStopped
    else
      match reply
      case Response(payload) => Shown(Decode(payload))
      case CallFailed => Shown(None)
  }

  /** The state after one frame of the main loop. */
  function AfterFrame(st: ControllerState, reply: RemoteReply<real>): ControllerState {
    if !st.useLocal && reply.CallFailed? then AfterRemoteFailure(st) else st
  }

  class OffloadController {
    var useLocal: bool
    var lastNetworkCheck: real
    var channelGen: nat

    function State(): ControllerState
      reads this
    {
      ControllerState(useLocal, lastNetworkCheck, channelGen)
    }

    constructor ()
      ensures State() == InitialState()
    {
      useLocal := false;
      lastNetworkCheck := 0.0;
      channelGen := 0;
    }

    /** One iteration of `check_and_switch`; `probed` says whether the connection was attempted. */
    method CheckAndSwitch(now: real, outcome: ProbeOutcome) returns (probed: bool)
      modifies this
      ensures probed <==> ProbeDue(old(State()), now)
      ensures State() == AfterProbe(old(State()), now, outcome)
    {
      if now - lastNetworkCheck < PROBE_INTERVAL {
        return false;
      }
      lastNetworkCheck := now;
      probed := true;
      match outcome
      case Connected(ping) =>
        if ping > DEMOTE_ABOVE_MS && !useLocal {
          useLocal := true;
        } else if ping < PROMOTE_BELOW_MS && useLocal {
          useLocal := false;
          channelGen := channelGen + 1;
        }
      case Unreachable =>
        if !useLocal {
          useLocal := true;
        }
    }

    /** The main loop's `except` branch after a failed `DetectHand` call. */
    method RemoteCallFailed()
      modifies this
      ensures State() == AfterRemoteFailure(old(State()))
    {
      useLocal := true;
    }

    /** One frame: dispatch on the mode read at its start; a failed remote call demotes. */
    method ProcessFrame(local: LocalInference, reply: RemoteReply<real>) returns (result: FrameResult)
      modifies this
      ensures result == FrameHand(old(useLocal), local, reply)
      ensures State() == AfterFrame(old(State()), reply)
    {
      if useLocal {
        match local
        case LocalHands(hands) =>
          if |hands| > 0 {
            result := Shown(Some(Hand(hands[0], Project(hands[0]))));
          } else {
            result := Shown(None);
          }
        case LocalRaised =>
          result := ClientStopped;
      } else {
        match reply
        case Response(payload) =>
          result := Shown(Decode(payload));
        case CallFailed =>
          result := Shown(None);
          RemoteCallFailed();
      }
    }

    /** The probe thread and the failure branch interleaved into one sequence of steps. */
    method RunEvents(events: seq<Event>)
      modifies this
      ensures State() == Run(old(State()), events)
    {
      var i := 0;
      while i < |events|
        invariant 0 <= i <= |events|
        invariant Run(State(), events[i..]) == Run(old(State()), events)
      {
        assert events[i..][1..] == events[i + 1..];
        match events[i] {
          case Probe(now, outcome) =>
            var _ := CheckAndSwitch(now, outcome);
          case RemoteCallFailure =>
            RemoteCallFailed();
        }
        i := i + 1;
      }
    }
  }

  // ----- one probe -----

  /** The start state is remote with no probe yet, so a probe at any clock reading >= 3 s runs. */
  lemma FirstProbeNotRateLimited(now: real)
    requires now >= PROBE_INTERVAL
    ensures !InitialState().useLocal && InitialState().lastCheck == 0.0
    ensures ProbeDue(InitialState(), now)
  {
  }

  /** Within 3 s of the last probe, nothing is probed and nothing changes. */
  lemma RateLimitedProbeIsNoOp(st: ControllerState, now: real, outcome: ProbeOutcome)
    requires now - st.lastCheck < PROBE_INTERVAL
    ensures AfterProbe(st, now, outcome) == st
  {
  }

  /** Once due, a probe records its clock reading whatever its outcome. */
  lemma DueProbeRecordsTime(st: ControllerState, now: real, outcome: ProbeOutcome)
    requires ProbeDue(st, now)
    ensures AfterProbe(st, now, outcome).lastCheck == now
  {
  }

  /** Hysteresis in closed form: after a due probe the client is local exactly when the probe
      failed, the latency exceeded 100 ms, or it was already local and the latency was not below 50 ms. */
  lemma ProbeModeDecision(st: ControllerState, now: real, outcome: ProbeOutcome)
    requires ProbeDue(st, now)
    ensures AfterProbe(st, now, outcome).useLocal <==>
      (outcome.Unreachable? || outcome.latencyMs > DEMOTE_ABOVE_MS
       || (st.useLocal && outcome.latencyMs >= PROMOTE_BELOW_MS))
  {
  }

  /** Latency above 100 ms while remote demotes without touching the channel. */
  lemma HighLatencyDemotes(st: ControllerState, now: real, ping: real)
    requires ProbeDue(st, now) && !st.useLocal && ping > DEMOTE_ABOVE_MS
    ensures AfterProbe(st, now, Connected(ping)).useLocal
    ensures AfterProbe(st, now, Connected(ping)).channelGen == st.channelGen
  {
  }

  /** Latency below 50 ms while local promotes and recreates the channel exactly once. */
  lemma LowLatencyPromotes(st: ControllerState, now: real, ping: real)
    requires ProbeDue(st, now) && st.useLocal && ping < PROMOTE_BELOW_MS
    ensures !AfterProbe(st, now, Connected(ping)).useLocal
    ensures AfterProbe(st, now, Connected(ping)).channelGen == st.channelGen + 1
  {
  }

  /** Dead zone: a latency in [50, 100] ms never changes the mode or the channel. */
  lemma DeadZoneKeepsMode(st: ControllerState, now: real, ping: real)
    requires PROMOTE_BELOW_MS <= ping <= DEMOTE_ABOVE_MS
    ensures AfterProbe(st, now, Connected(ping)).useLocal == st.useLocal
    ensures AfterProbe(st, now, Connected(ping)).channelGen == st.channelGen
  {
  }

  /** High latency while already local, or low latency while already remote, changes nothing but the time. */
  lemma RedundantSignalIsNoOp(st: ControllerState, now: real, ping: real)
    requires (st.useLocal && ping > DEMOTE_ABOVE_MS) || (!st.useLocal && ping < PROMOTE_BELOW_MS)
    ensures AfterProbe(st, now, Connected(ping)).useLocal == st.useLocal
    ensures AfterProbe(st, now, Connected(ping)).channelGen == st.channelGen
  {
  }

  /** A failed probe forces local mode (a no-op when already local) and never rebuilds the channel. */
  lemma FailedProbeForcesLocal(st: ControllerState, now: real)
    requires ProbeDue(st, now)
    ensures AfterProbe(st, now, Unreachable).useLocal
    ensures AfterProbe(st, now, Unreachable).channelGen == st.channelGen
    ensures st.useLocal ==> AfterProbe(st, now, Unreachable) == st.(lastCheck := now)
  {
  }

  /** The channel is rebuilt by a step exactly when that step goes from local to remote. */
  lemma ChannelRebuiltExactlyOnPromotion(st: ControllerState, e: Event)
    ensures Apply(st, e).channelGen == st.channelGen + (if st.useLocal && !Apply(st, e).useLocal then 1 else 0)
  {
  }

  // ----- frames -----

  /** A failed remote call forces local mode and yields no landmarks for that frame,
      even when the local model would have found a hand: the frame is not retried locally. */
  lemma RemoteFailureDropsFrame(st: ControllerState, local: LocalInference)
    requires !st.useLocal
    ensures FrameHand(st.useLocal, local, CallFailed) == Shown(None)
    ensures AfterFrame(st, CallFailed) == st.(useLocal := true)
  {
  }

  /** A remote frame yields a hand exactly when the reply carries 63 values. */
  lemma RemoteFrameNeeds63Values(payload: seq<real>, local: LocalInference)
    ensures FrameHand(false, local, Response(payload)).Shown?
    ensures FrameHand(false, local, Response(payload)).hand.Some? <==> |payload| == PAYLOAD_LENGTH
  {
  }

  /** Only local inference can end the client: an exception there is never caught, while
      every remote frame, failed call included, is shown and the loop goes on. */
  lemma ClientStopsOnlyOnLocalException(useLocal: bool, local: LocalInference, reply: RemoteReply<real>)
    ensures FrameHand(useLocal, local, reply) == ClientStopped <==> useLocal && local == LocalRaised
  {
  }

  /** A local frame shows the first hand found, with its (x, y) points, or nothing. */
  lemma LocalFrameShowsFirstHand(hands: seq<seq<Landmark<real>>>, reply: RemoteReply<real>)
    ensures FrameHand(true, LocalHands(hands), reply).Shown?
    ensures FrameHand(true, LocalHands(hands), reply).hand.Some? <==> |hands| > 0
    ensures |hands| > 0 ==> FrameHand(true, LocalHands(hands), reply).hand.value.landmarks == hands[0]
  {
  }

  // ----- sequences of steps -----

  /** Every channel rebuild in a run matches one local-to-remote change of the observed mode. */
  lemma {:induction false} ChannelGenCountsPromotions(st: ControllerState, events: seq<Event>)
    ensures Run(st, events).channelGen == st.channelGen + Promotions(st.useLocal, ModeTrace(st, events))
    decreases |events|
  {
    if events != [] {
      var next := Apply(st, events[0]);
      ChannelRebuiltExactlyOnPromotion(st, events[0]);
      ChannelGenCountsPromotions(next, events[1..]);
    }
  }

  /** Probes whose latencies all lie in the dead zone never change the mode or the channel. */
  lemma {:induction false} DeadZoneRunKeepsMode(st: ControllerState, events: seq<Event>)
    requires forall k :: 0 <= k < |events| ==>
      (events[k].Probe? && events[k].outcome.Connected?
       && PROMOTE_BELOW_MS <= events[k].outcome.latencyMs <= DEMOTE_ABOVE_MS)
    ensures Run(st, events).useLocal == st.useLocal
    ensures Run(st, events).channelGen == st.channelGen
    decreases |events|
  {
    if events != [] {
      DeadZoneRunKeepsMode(Apply(st, events[0]), events[1..]);
    }
  }

  /** A probe that runs in state st and measures a latency below 50 ms. */
  predicate FastDueProbe(st: ControllerState, e: Event) {
    e.Probe? && ProbeDue(st, e.now) && e.outcome.Connected? && e.outcome.latencyMs < PROMOTE_BELOW_MS
  }

  /** A failed remote call, or a probe that runs in state st and fails or measures above 100 ms. */
  predicate SlowDueProbeOrFailure(st: ControllerState, e: Event) {
    || e.RemoteCallFailure?
    || (e.Probe? && ProbeDue(st, e.now) && (e.outcome.Unreachable? || e.outcome.latencyMs > DEMOTE_ABOVE_MS))
  }

  /** The states before step k of a run, seen from the run of its tail. */
  lemma RunPrefixes(st: ControllerState, events: seq<Event>, k: nat)
    requires 0 < k <= |events|
    ensures Run(st, events[..k]) == Run(Apply(st, events[0]), events[1..][..k - 1])
  {
    assert events[..k][1..] == events[1..][..k - 1];
  }

  /** Once local, the client stays local until a due probe measures a latency below 50 ms. */
  lemma {:induction false} LocalUntilFastProbe(st: ControllerState, events: seq<Event>)
    requires st.useLocal
    requires forall k :: 0 <= k < |events| ==> !FastDueProbe(Run(st, events[..k]), events[k])
    ensures Run(st, events).useLocal
    ensures Run(st, events).channelGen == st.channelGen
    decreases |events|
  {
    if events != [] {
      assert events[..0] == [];
      var next := Apply(st, events[0]);
      forall k | 0 <= k < |events| - 1
        ensures !FastDueProbe(Run(next, events[1..][..k]), events[1..][k])
      {
        RunPrefixes(st, events, k + 1);
      }
      LocalUntilFastProbe(next, events[1..]);
    }
  }

  /** Once remote, the client stays remote until a failed remote call, or a due probe that fails
      or measures a latency above 100 ms. */
  lemma {:induction false} RemoteUntilSlowOrFailure(st: ControllerState, events: seq<Event>)
    requires !st.useLocal
    requires forall k :: 0 <= k < |events| ==> !SlowDueProbeOrFailure(Run(st, events[..k]), events[k])
    ensures !Run(st, events).useLocal
    ensures Run(st, events).channelGen == st.channelGen
    decreases |events|
  {
    if events != [] {
      assert events[..0] == [];
      var next := Apply(st, events[0]);
      forall k | 0 <= k < |events| - 1
        ensures !SlowDueProbeOrFailure(Run(next, events[1..][..k]), events[1..][k])
      {
        RunPrefixes(st, events, k + 1);
      }
      RemoteUntilSlowOrFailure(next, events[1..]);
    }
  }

  /** Rate limit: the first probe of a run comes at least 3 s after the last recorded one, each
      later probe at least 3 s after the previous, and the state records the last probe's time. */
  lemma {:induction false} ProbesAreSpaced(st: ControllerState, events: seq<Event>)
    ensures var times := ProbeTimes(st, events);
      && (|times| > 0 ==> times[0] - st.lastCheck >= PROBE_INTERVAL)
      && (forall k :: 0 <= k < |times| - 1 ==> times[k + 1] - times[k] >= PROBE_INTERVAL)
      && Run(st, events).lastCheck == (if |times| > 0 then times[|times| - 1] else st.lastCheck)
    decreases |events|
  {
    if events != [] {
      var e := events[0];
      var next := Apply(st, e);
      ProbesAreSpaced(next, events[1..]);
      var rest := ProbeTimes(next, events[1..]);
      if e.Probe? && ProbeDue(st, e.now) {
        assert next.lastCheck == e.now;
        assert ProbeTimes(st, events) == [e.now] + rest;
      } else {
        assert next.lastCheck == st.lastCheck;
        assert ProbeTimes(st, events) == rest;
      }
    }
  }

  /** Probes of 40, 30, 120 and 20 ms, 3 s apart from a fresh start: remote, remote, local,
      then remote again, because 20 ms while local promotes. */
  lemma ProbeScenario()
    ensures var events := [Probe(3.0, Connected(40.0)), Probe(6.0, Connected(30.0)),
                           Probe(9.0, Connected(120.0)), Probe(12.0, Connected(20.0))];
      ModeTrace(InitialState(), events) == [false, false, true, false]
      && Run(InitialState(), events).channelGen == 1
  {
  }
}
