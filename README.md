# HandSync offload core in Dafny

HandSync runs hand-landmark detection on camera frames either on the device (local mode)
or on a gRPC gesture server (remote mode). This project models the decision logic of the
two Python scripts and proves properties of it:

- **Offload controller** (`offload_controller.dfy`, module `OffloadControl`). The client
  keeps the globals `use_local`, `last_network_check`, `channel` and `stub`. Here they are
  the fields of a class `OffloadController`, with a counter `channelGen` standing for
  "channel and stub recreated". The probe loop `check_and_switch` is rate-limited to one
  probe per 3 s. It demotes to local mode above 100 ms and promotes to remote mode below
  50 ms. A failed probe forces local mode. A failed remote call in the main loop also
  forces local mode. `ControllerState` and the functions `AfterProbe`,
  `AfterRemoteFailure`, `Run` and `FrameHand` are the specification. The class methods are
  proved against them, and the lemmas state the properties.
- **Landmark wire codec** (`landmark_wire.dfy`, module `LandmarkWire`). The server flattens
  a hand into `[x0, y0, z0, x1, ...]`. The client accepts only 63 values and rebuilds 21
  landmarks plus their `(x, y)` points. It is generic in the element type.
- **Gesture handler** (`gesture_service.dfy`, module `GestureService`). `DetectHand`
  builds the response: the flattened first hand, or 63 zeros for no hand, an undecodable
  image or an exception. On an exception it also sets INTERNAL and "推理失败" on the
  servicer context.
- **Tunnel address extraction** (`tunnel_address.dfy`, module `TunnelAddress`). For each
  line of the tunnel client's output, the line is stripped. If it contains `tcp://`, the
  group of the leftmost match of `tcp://([a-z0-9.-]+:\d+)` is reported. The matcher is
  written by hand. It is proved equal to a declarative leftmost, greedy reading of the
  expression, and that reading is proved to fix the result uniquely.
- **End to end** (`pipeline.dfy`, module `Pipeline`). The handler composed with the
  client's frame step.

Inputs stand in for what the scripts read from the outside world: the clock reading
(`time.time()`, seconds), the probe's latency in ms or its failure, MediaPipe's list of
hands or its exception, and the outcome of the remote call. Times and latencies are `real`. The model only
compares and subtracts them.

Behaviour of the code worth noting, each proved in the model:

- An all-zero payload, which the server sends for "no hand", is decoded into 21 landmarks
  at the origin. The client only logs a warning (client/client.py:145-146). See
  `LandmarkWire.ZeroPayloadDecodesToOrigin`.
- A failed remote call does not retry the frame locally. That frame shows nothing, and
  later frames run locally (client/client.py:161-163). See
  `OffloadControl.RemoteFailureDropsFrame`.
- An exception in local inference (client/client.py:128-129) is not inside any `try`. It
  escapes the main loop and ends the client, so the release at client/client.py:202-204
  is never reached. A remote frame never ends the client. See
  `OffloadControl.ClientStopsOnlyOnLocalException`.
- Probes of 40, 30, 120 and 20 ms from a fresh start give the modes remote, remote,
  local, remote: a probe below 50 ms while local promotes (client/client.py:97-101).
  See `OffloadControl.ProbeScenario`.
- A server-side decode failure is sent exactly like "no hand": 63 zeros with status OK
  (server/server.py:30-34, server/server.py:50-52). See
  `GestureService.UndecodableLooksLikeNoHand`.

## Model

| member | source | states |
|---|---|---|
| `OffloadControl.AfterProbe` | client/client.py:83-105 | the state after one `check_and_switch` iteration: unchanged within 3 s, else the time recorded and the hysteresis or failure branch applied |
| `OffloadControl.AfterRemoteFailure` | client/client.py:163 | the state after the failure branch: local mode, nothing else changed |
| `OffloadControl.FrameHand` | client/client.py:123-163 | what one frame yields: the first local hand with its (x, y) points, the decoded remote reply, nothing after a failed call, or the end of the client when local inference raises |
| `OffloadControl.AfterFrame` | client/client.py:126-163 | the state after one frame: demoted only when remote and the call failed |
| `OffloadControl.OffloadController.constructor` | client/client.py:45-56 | start state: remote mode (`use_local = False`), `last_network_check = 0`, first channel |
| `OffloadControl.OffloadController.CheckAndSwitch` | client/client.py:83-105 | one probe iteration: reports whether the probe ran (3 s rate limit) and leaves the state `AfterProbe` gives |
| `OffloadControl.OffloadController.RemoteCallFailed` | client/client.py:161-163 | the `except` branch sets local mode and changes nothing else |
| `OffloadControl.OffloadController.ProcessFrame` | client/client.py:123-163 | one frame dispatches on the mode read at its start: local hands (or the client stops on a local exception) or the decoded reply; a failed call demotes |
| `OffloadControl.OffloadController.RunEvents` | client/client.py:82-106 | a sequence of probe steps and call failures ends in the state `Run` gives |
| `OffloadControl.FirstProbeNotRateLimited` | client/client.py:54-56 | the start state is remote with `last_network_check = 0`, so a probe at any clock reading of at least 3 s runs |
| `OffloadControl.RateLimitedProbeIsNoOp` | client/client.py:84-86 | within 3 s of the last probe nothing is probed and the whole state is unchanged |
| `OffloadControl.DueProbeRecordsTime` | client/client.py:87 | a probe that runs records its clock reading, whatever its outcome |
| `OffloadControl.ProbeModeDecision` | client/client.py:94-105 | after a probe that runs, local mode holds iff the probe failed, latency > 100 ms, or it was local and latency >= 50 ms |
| `OffloadControl.HighLatencyDemotes` | client/client.py:94-96 | latency > 100 ms while remote sets local mode without recreating the channel |
| `OffloadControl.LowLatencyPromotes` | client/client.py:97-101 | latency < 50 ms while local sets remote mode and recreates the channel exactly once |
| `OffloadControl.DeadZoneKeepsMode` | client/client.py:94-99 | latency in [50, 100] ms never changes the mode or the channel |
| `OffloadControl.RedundantSignalIsNoOp` | client/client.py:94-99 | latency > 100 ms while local, or < 50 ms while remote, changes neither mode nor channel |
| `OffloadControl.FailedProbeForcesLocal` | client/client.py:102-105 | a failed probe sets local mode, only the time changes when already local, and the channel is never recreated |
| `OffloadControl.ChannelRebuiltExactlyOnPromotion` | client/client.py:97-101 | any step recreates the channel iff it goes from local to remote, and then exactly once |
| `OffloadControl.RemoteFailureDropsFrame` | client/client.py:161-163 | a failed remote call yields no landmarks for that frame, even when a local hand exists, and sets local mode |
| `OffloadControl.RemoteFrameNeeds63Values` | client/client.py:144-160 | a remote frame is shown, and yields a hand iff the reply holds exactly 63 values |
| `OffloadControl.ClientStopsOnlyOnLocalException` | client/client.py:126-163 | a frame ends the client iff the mode is local and local inference raises (client.py:128-129 are outside any `try`); every remote frame, failed call included, goes on |
| `OffloadControl.LocalFrameShowsFirstHand` | client/client.py:126-136 | a local frame is shown, yields a hand iff MediaPipe found one, and that hand is the first one found |
| `OffloadControl.ChannelGenCountsPromotions` | client/client.py:97-101 | over any run, channel recreations equal the local-to-remote changes of the observed mode |
| `OffloadControl.DeadZoneRunKeepsMode` | client/client.py:94-99 | a run of probes all in [50, 100] ms keeps mode and channel |
| `OffloadControl.LocalUntilFastProbe` | client/client.py:94-105 | once local, the client stays local, with the same channel, until a probe that runs measures < 50 ms |
| `OffloadControl.RemoteUntilSlowOrFailure` | client/client.py:94-105 | once remote, it stays remote, with the same channel, until a failed call, or a probe that runs and fails or measures > 100 ms |
| `OffloadControl.ProbesAreSpaced` | client/client.py:83-87 | probes that run are at least 3 s after the recorded last probe and after each other; the state keeps the last probe's time |
| `OffloadControl.ProbeScenario` | client/client.py:94-101 | probes of 40, 30, 120, 20 ms 3 s apart give modes remote, remote, local, remote and one channel rebuild |
| `LandmarkWire.Flatten` | server/server.py:44-47 | the flattened payload has 3 values per landmark |
| `LandmarkWire.Project` | client/client.py:158 | the 2-D points: one per landmark, point i being landmark i's (x, y) |
| `LandmarkWire.Decode` | client/client.py:144-160 | a hand is decoded iff the payload has 63 values, and then it has 21 landmarks and 21 points |
| `LandmarkWire.FlattenAt` | server/server.py:45-47 | landmark i's x, y, z sit at positions 3i, 3i+1, 3i+2 of the flattened payload |
| `LandmarkWire.DecodeLayout` | client/client.py:150-158 | decoded landmark i is (r[3i], r[3i+1], r[3i+2]) and point i is (r[3i], r[3i+1]) |
| `LandmarkWire.DecodeFlatten` | client/client.py:149-158 | decoding the flattening of 21 landmarks gives them back in order, with their 2-D points |
| `LandmarkWire.FlattenDecode` | client/client.py:149-154 | every 63-value payload is the flattening of the landmarks it decodes to |
| `LandmarkWire.WrongLengthYieldsNothing` | client/client.py:159-160 | a hand with any landmark count other than 21 decodes to nothing |
| `LandmarkWire.ZeroPayloadDecodesToOrigin` | client/client.py:145-158 | an all-zero payload still decodes to 21 landmarks, all at (0, 0, 0) |
| `GestureService.ZeroFill` | server/server.py:52 | the filler is 63 values, all 0.0 |
| `GestureService.ResponseLandmarks` | server/server.py:25-62 | the response's landmark field: 3 values per landmark of the first hand, otherwise the 63 zeros |
| `GestureService.ResponseStatus` | server/server.py:56-59 | the status left on the context: INTERNAL after an exception, otherwise OK |
| `GestureService.ServicerContext.constructor` | server/server.py:25 | a call's context starts with status OK and no details |
| `GestureService.CollectLandmarks` | server/server.py:44-47 | the `extend` loop yields exactly the flattening of the hand |
| `GestureService.DetectHand` | server/server.py:25-62 | the handler's landmark field is `ResponseLandmarks`; from status OK it leaves `ResponseStatus`; only an exception sets INTERNAL and "推理失败" |
| `GestureService.HandPayload` | server/server.py:42-48 | with a hand, the payload has 3 values per landmark and landmark i's [x, y, z] at 3i..3i+3 |
| `GestureService.NoHandIsZeroFilled` | server/server.py:50-52 | with no hand, the payload is the 63 zeros and the status stays OK |
| `GestureService.UndecodableLooksLikeNoHand` | server/server.py:30-34 | an undecodable image gets the same payload and status as no hand |
| `GestureService.ExceptionStillZeroFilled` | server/server.py:56-62 | an exception sets INTERNAL and still sends the 63 zeros |
| `TunnelAddress.RunEnd` | server/server.py:82 | the end of a run of class characters: all before it are in the class, the one at it is not |
| `TunnelAddress.MatchAt` | server/server.py:82 | a match attempt at one position ends past the scheme and within the line |
| `TunnelAddress.SearchFrom` | server/server.py:82 | a found span starts at or after the start position and lies within the line |
| `TunnelAddress.Search` | server/server.py:82-84 | `re.search(...).group(1)`: the group found is at least 3 characters and fits in the line after the scheme |
| `TunnelAddress.Strip` | server/server.py:79 | `line.strip()`: a slice of the line with only white space outside it, and neither starting nor ending with white space |
| `TunnelAddress.AddressOf` | server/server.py:79-84 | one iteration of the output loop: the address reported for one line, at least 3 characters |
| `TunnelAddress.AddressesIn` | server/server.py:78-84 | the addresses the whole loop reports, in line order, at most one per line |
| `TunnelAddress.TrailingStart` | server/server.py:79 | the start of the trailing white space that `strip()` removes |
| `TunnelAddress.ScanTunnelOutput` | server/server.py:78-84 | the loop reports `AddressesIn(lines)`, at most one per line, and each is host:port shaped |
| `TunnelAddress.RunEndIsFirst` | server/server.py:82 | a class run ended by a non-member or the line's end is exactly what `RunEnd` finds |
| `TunnelAddress.RunEndIsLongest` | server/server.py:82 | `RunEnd` reaches past every class run starting at the same place (greedy `+`) |
| `TunnelAddress.MatchAtCorrect` | server/server.py:82 | a match attempt succeeds iff the expression matches there, and returns the longest end |
| `TunnelAddress.SearchFromCorrect` | server/server.py:82 | the scan returns the leftmost match, longest at its start, or none when nothing matches |
| `TunnelAddress.SearchMeetsSpec` | server/server.py:82-84 | the hand-written matcher returns what `re.search(...).group(1)` specifies |
| `TunnelAddress.SearchResultUnique` | server/server.py:82-84 | the specification admits only one result per line |
| `TunnelAddress.SearchShape` | server/server.py:82-84 | a reported group is [a-z0-9.-]+ then ':' then digits, and the line contains `tcp://` |
| `TunnelAddress.MatchesInStripped` | server/server.py:79 | every match in a line lies inside its stripped part, at the same offset, and conversely |
| `TunnelAddress.SearchResultOfStripped` | server/server.py:79-82 | the search result of the stripped line is also the search result of the whole line |
| `TunnelAddress.StripKeepsSearch` | server/server.py:79-82 | stripping does not change what the search finds |
| `TunnelAddress.AddressOfIsSearch` | server/server.py:79-84 | per line, strip plus the `tcp://` test plus the search equals the search on the raw line |
| `TunnelAddress.NoSchemeNoAddress` | server/server.py:80 | a line without `tcp://` yields no address |
| `TunnelAddress.AddressShape` | server/server.py:80-84 | a reported address is host:port shaped and is the group of the leftmost match in the line |
| `Pipeline.Deliver` | client/client.py:141-142 | what the stub call yields: the response's landmarks when the status is OK, a raised error otherwise |
| `Pipeline.Serve` | server/server.py:25-62 | the reply a remote-mode client receives for a server-side outcome |
| `Pipeline.HandRoundTrip` | client/client.py:144-158 | a 21-landmark hand found by the server (server.py:42-48) reaches a remote client unchanged and in order |
| `Pipeline.OtherLandmarkCountDropped` | client/client.py:159-160 | a server hand of any other size is shown as nothing |
| `Pipeline.NoHandShownAtOrigin` | client/client.py:144-158 | "no hand" and an undecodable image (server.py:30-34, 50-52) both show as 21 landmarks at the origin |
| `Pipeline.ServerExceptionDemotesClient` | client/client.py:161-163 | a server exception (server.py:56-62) fails the client's call: nothing shown, local mode, same channel |

## Left out

- Camera capture, flip and resize, JPEG encoding, drawing and windows: I/O and UI.
- MediaPipe inference on both sides: a foreign library. Its outcome is an input: a list of hands or an exception (`GestureService.Inference` on the server, `OffloadControl.LocalInference` on the client).
- What happens after a local inference exception ends the client (`OffloadControl.ClientStopped`): the skipped release of the camera, windows and MediaPipe at client/client.py:202-204 and the performance report. These are I/O.
- gRPC transport, channel options, server start-up and the `ssh` tunnel subprocess: network plumbing. The model uses one fact about gRPC: a handler status other than OK makes the client's call raise, and the response is dropped (`Pipeline.Deliver`).
- The socket probe to 8.8.8.8:53 and its timing: the latency in ms, or the failure, is an input.
- `time.sleep` between iterations: it only paces the loop. The clock readings are inputs.
- `OffloadControl.AfterProbe`: a promotion always completes. The bare `except:` at client/client.py:102 also covers the `print` and the channel and stub creation at client/client.py:98-101; if one of them raised after `use_local = False`, the source would fall back to local mode and keep the old channel. The model does not capture that path, because gRPC creates channels lazily and an unprintable message would already fail at start-up.
- The probe thread and the main loop share globals without a lock. The model runs their steps one after another in a single sequence and does not model races.
- The CPU and memory monitor thread and all performance statistics (FPS, averages, the energy estimate): OS calls and floating-point arithmetic.
- Log output (`print`), including the client's all-zero warning, which does not affect decoding.
- client/local_gesture.py: a stand-alone camera loop with no decision logic.
- Float precision: the server sends Python floats and the client stores them in float32 landmark fields. The codec is generic in the element type and does not model rounding.
- `TunnelAddress.IsDigit` stands for `\d` on ASCII digits only. Python's `\d` on `str` also matches other Unicode decimal digits.
- The tunnel loop prints every address it finds. The model collects them in a sequence.
