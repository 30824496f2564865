# MonitorHop, verified

MonitorHop lets one keyboard, mouse and clipboard control several machines. Its hard logic is a handful of small
state machines; this project models them in Dafny and proves what they promise over whole runs.

`dafny verify dfyconfig.toml` checks everything.

## What is modelled

**Clipboard transfer** (`ClipboardFrames`, `ClipboardTransfer`, `ClipboardProgress`, `ClipboardSessions`,
`ClipboardBounds`, `WireBytes`). The frame codec, the chunker and `ClipboardAssembler`. The assembler is a class whose
`Push` moves its table as the function `Pushed` says; for honest frames that function refines a small reference machine
that only remembers which chunk indexes came since the Begin that opened an id. The end-to-end theorem quantifies
over every sequence of datagrams drawn from the encodings of any payloads, so it covers loss, duplication,
reordering, interleaving and retransmission. SHA-256 and UTF-8 validity are function parameters; nothing relies on
collision freedom. `WireBytes` reads every datagram again at fixed offsets, in numbers, and shows the decoder to agree.

**Fixed event codec** (`EventCodec`, `WireBytes`). The 21-byte events, with floats as bit patterns, and the bytes of
each.

**Capture wrapper** (`CaptureModel`, `PressGauge`, `WallPress`, `VirtualCursor`, `LateCursor`, `EntryDepth`,
`WarpTargets`, `CaptureState`, `CaptureRuns`, `CaptureCursor`, `CaptureStream`). `CaptureStream.InputCapture` is the
object with the original's fields; each method is proved to move the value `Model()` as the functions of `CaptureState`
and `CaptureModel` say. Over runs of those functions: the handle maps and the fan-out of events, the wall-press gauge,
the late seeding of the guest cursor and the two warp maps.

**Keys across the link** (`KeyLog`, `KeyFlow`, `CaptureSession`, `CaptureController`, `KeyLink`, `KeyLinkLayouts`,
`KeyLinkDestroy`, `KeyLinkStranding`, `EmulationState`, `EmulationDevice`, `EmulationSession`). The capture task and the
emulation side, again as objects proved against functions, composed with the capture wrapper, the backend's capture and
what has been sent. `KeyFlow` is the protocol reduced to messages, active client, pressed keys and release bind.

**Everything else across the link** (`ForwardedInput`, `HostReleases`, `SessionReports`, `EmulationInput`,
`ReceivedInput`, `LinkMotion`). Over the same sessions, field by field and without the functions that compute it: what
each step sends to whom, what the host's backend is told and where a warp puts the cursor, what is remembered of the
peers' reports, what the client's backend is told, and the pointer's motion from the one backend to the other.

**Smaller machines**: address selection with hysteresis (`AddressSelection`, `ClientRegistry`), clipboard polling
(`ClipboardPoll`) and the tray icon's bounding-box crop (`TrayIcon`).

Runs are sequences of states: `states[n + 1]` is the result of step `n` in `states[n]`. Hash sets are drained in
an order that is a parameter, any enumeration of the set. Deadlines elapse at arbitrary moments.

## Where the code falls short of the natural statement

For each of these the condition that decides is proved to be the exact one, and failing inputs or runs are given.

- The frame encoder accepts any nonzero chunk count, the decoder only the exact one: `EncodeThenDecode`,
  `WrongCountIsEncodedButRejected`. An Ack's flag byte may be anything: `DecodeThenEncode`.
- A Begin does not cancel a pending AutoRelease: `ArmedMeansPressureExactly`, `BeginKeepsStaleArm`.
- A motion along the wall drops the pressure: `MotionAlongWallResets`.
- Two file lists have one identity whenever their paths, broken into lines, are the same lines: `JoinedAlikeExactly`,
  `LineBreakMerges`.
- A Begin at a Left or Top peer whose extent is 0 or at least 2^31 places the guest cursor off the peer's screen, until
  the next motion brings it back: `BeginOnScreenExactly`, `CaptureOnScreenExactly`.
- Learning the peer's bounds late and knowing them at Begin place the guest cursor alike iff the seed plus all motions
  in between, clamped once, lies in the span those motions leave: `LateAgreesExactly`, `OvershootSplitsLateFromEager`.
- A bounds report that shrinks the peer during a capture leaves the guest cursor where it was: `BoundsOnScreenExactly`.
- The fallback used when no warp target can be computed lies on the edge opposite to the warp target's:
  `FallbackIsOnTheOppositeEdge`.
- A release does not drain queued event copies, so a Default handle behind another handle receives keys after its
  Leave: `SoundLayoutsExactly`.
- Destroying a capture tells nobody. If its client was being controlled, it stays the active one although the backend's
  capture ends or goes on for other handles, and the next client entered takes its place without a farewell. So
  all clients are left in order, whatever follows, iff the client was not the active one (`DestroyIsOrderlyExactly`),
  and none keeps a key iff it was not, or held none (`DestroyIsUnstuckExactly`). Both cover a handle alone at its
  position as well as one that shares it.
- The capture task panics when it looks up a handle that is not registered. Where nothing that can follow does so yet,
  destroying a capture keeps it that way iff its client's connection is closed and no event other than an AutoRelease
  is queued for it: `DestroyPanicsExactly`. Either cause alone has its exact condition too. A message of the destroyed client panics iff it
  reports bounds or sensitivity while no other client is controlled (`MessagePanicsExactly`); draining the queue panics
  iff a copy for the handle is looked up (`DrainPanicsExactly`), which with a capture under way and the release bind
  not down is iff there is one (`DrainWhileCapturingPanicsExactly`).
- Host and client disagree about key states other than 0 and 1 and about codes above 249: `CoveredExactlyWhenAgreed`.
- A release bind changed to keys that are already down fires one event late. A Leave finds a key still held iff the
  event that completes the bind is the key-up of a key its client holds: `RunCleanExactlyWhenSpoken`,
  `LeavesAreCleanExactly`. A change of bind makes that possible for the next event iff the new bind is fully down and
  some key outside it is too: `RebindMattersExactly`.
- Address selection can return to an address it left iff twice the measurement error reaches the required gain:
  `FlapsExactly`.
- The comment at input-capture/src/clipboard.rs:41-47 says suppressed content leaves `last_content` alone; the code
  records it (lines 157-175). The model follows the code: `RecordedExactly`, and `NoReemission` shows why it matters.

## Model

| member | source | states |
|---|---|---|
| ClipboardFrames.EncodeClipboardFrame | monitorhop-proto/src/lib.rs:655-711 | the frame encoder, loop by loop, gives the specified layout or the specified error |
| ClipboardFrames.DecodeClipboardFrame | monitorhop-proto/src/lib.rs:713-780 | the cursor-driven decoder computes `DecodeFrame` on every input without reading out of range |
| ClipboardFrames.ReadArray | monitorhop-proto/src/lib.rs:782-791 | reading N bytes either advances the cursor by N and yields them or fails, exactly when fewer remain |
| ClipboardFrames.DecodeExact | monitorhop-proto/src/lib.rs:713-780 | a datagram decodes to a frame iff it is that frame's wire form, the Ack flag being any byte of the right truth value |
| ClipboardFrames.EncodeThenDecode | monitorhop-proto/src/lib.rs:655-780 | an encoded frame decodes to itself iff a Begin's chunk count is the ceiling; otherwise it is rejected |
| ClipboardFrames.DecodeThenEncode | monitorhop-proto/src/lib.rs:655-780 | re-encoding an accepted datagram gives it back, up to an Ack's nonzero flag byte |
| ClipboardFrames.WrongCountIsEncodedButRejected | monitorhop-proto/src/lib.rs:667-669 | a concrete Begin that the encoder accepts and the decoder rejects |
| ClipboardTransfer.EncodeClipboardPayload | monitorhop-proto/src/lib.rs:608-646 | the payload encoder succeeds iff the fingerprint has at most 256 bytes and the content at most 2097152 for text, 67108864 otherwise; then with one Begin and the exact number of chunks, none over its size bound |
| ClipboardTransfer.BeginsAreWithinLimits | monitorhop-proto/src/lib.rs:648-653 | the decoder accepts a Begin only within the same numbers |
| ClipboardTransfer.ChunksRejoin | monitorhop-proto/src/lib.rs:628-644 | chunk data in index order concatenates to the content |
| ClipboardTransfer.FramesAreAccepted | monitorhop-proto/src/lib.rs:608-646 | every frame of a sendable payload passes the decoder's checks, the count equation included |
| ClipboardTransfer.DatagramSize | monitorhop-proto/src/lib.rs:687-709 | Begins are at most 308 bytes and chunks at most 1135, so the 1200-byte check never fires |
| ClipboardTransfer.ClipboardAssembler.Push | monitorhop-proto/src/lib.rs:825-911 | one push moves the table and answers as `Pushed` says, early returns included |
| ClipboardBounds.RunStaysBounded | monitorhop-proto/src/lib.rs:736-756 | after any decoded frames, honest or not: at most 4 open ids, each with the right number of slots, one of them empty, and at most 4\*59919\*1120 stored bytes |
| ClipboardBounds.RunStaysBoundedByKind | monitorhop-proto/src/lib.rs:648-653 | and per transfer at most 1873\*1120 bytes of text, 59919\*1120 of anything else |
| ClipboardBounds.PushOutcomes | monitorhop-proto/src/lib.rs:829-907 | for any table and frame: a transfer returned has the declared length and hash and closes its id, capacity and index errors leave the table alone, a wrong length is reported before a wrong hash, anything else adds a chunk or opens an id empty, and no other id is touched |
| ClipboardBounds.RejectedTransferReopens | monitorhop-proto/src/lib.rs:838-907 | a length or hash mismatch closes the id and leaves room, so a new Begin opens it afresh |
| ClipboardBounds.ResendIsDelivered | monitorhop-proto/src/lib.rs:838-907 | and the resend is delivered: from any table with the id closed and room, a Begin and each chunk in any order, whatever comes on other ids |
| ClipboardProgress.DeliveredExactlyWhenComplete | monitorhop-proto/src/lib.rs:829-907 | in the reference machine delivery happens at exactly the piece that completes the set received since the opening |
| ClipboardProgress.OpenHistory | monitorhop-proto/src/lib.rs:838-870 | an open id remembers exactly the pieces since the Begin that opened it; earlier ones are forgotten, repeated Begins keep progress |
| ClipboardProgress.OpeningsAreDeliveredOnce | monitorhop-proto/src/lib.rs:829-907 | openings of an id equal its deliveries, plus one if it is still open |
| ClipboardSessions.PushRefines | monitorhop-proto/src/lib.rs:829-907 | on honest frames one push of the assembler is one step of the reference machine, with the same outcome |
| ClipboardSessions.RunRefines | monitorhop-proto/src/lib.rs:824-912 | the same over every run |
| ClipboardSessions.HonestDatagramsDecode | monitorhop-proto/src/lib.rs:713-780 | no datagram of an honest sender is rejected by the decoder |
| ClipboardSessions.EndToEnd | monitorhop-proto/src/lib.rs:608-912 | any schedule of honest datagrams: every transfer returned is the payload of its id, and the only error is a fifth open id |
| ClipboardSessions.DeliveredExactlyWhenComplete | monitorhop-proto/src/lib.rs:872-907 | the assembler returns a transfer exactly when its last missing chunk arrives |
| ClipboardSessions.DeliveredOncePerOpening | monitorhop-proto/src/lib.rs:829-907 | a transfer is returned once per accepted Begin that opened it, the last one possibly still pending |
| ClipboardSessions.OpenTransferDelivers | monitorhop-proto/src/lib.rs:872-907 | in any table, an open transfer holding only its payload's chunks is returned once each of them arrives, whatever comes on other ids |
| ClipboardSessions.AllChunksDeliver | monitorhop-proto/src/lib.rs:872-907 | so is every open transfer of an honest run |
| WireBytes.DecodesByOffset | monitorhop-proto/src/lib.rs:713-780 | the decoder's result is the one read at fixed offsets: which datagrams are refused with which error, and where each field of an accepted one stands |
| WireBytes.EncodesByOffset | monitorhop-proto/src/lib.rs:655-711 | what the encoder refuses with which error, and that anything else stands at the same offsets |
| WireBytes.WireIsEventBytes | monitorhop-proto/src/lib.rs:228-254 | the type byte of every event and its fields, in order and width, most significant byte first |
| WireBytes.RefusedEvents | monitorhop-proto/src/lib.rs:309-396 | a buffer is refused iff its type is above 15, with one of two errors, or it names a side above 3 |
| EventCodec.EncodeEvent | monitorhop-proto/src/lib.rs:398-500 | the buffer encoder writes the wire form, reports its length and leaves a buffer that decodes to the event |
| EventCodec.DecodeEvent | monitorhop-proto/src/lib.rs:309-396 | the slice-splitting decoder computes `Decode` and never splits past the buffer |
| EventCodec.EncodeUint | monitorhop-proto/src/lib.rs:524-537 | one integer is appended big-endian and the amount grows by its width |
| EventCodec.DecodeUint | monitorhop-proto/src/lib.rs:506-516 | undoes `EncodeUint`: the integer it yields fits its width, and its big-endian bytes followed by the rest are the slice |
| EventCodec.DecodeInvertsEncode | monitorhop-proto/src/lib.rs:309-500 | every non-clipboard event decodes from its encoding bit for bit, whatever pads the buffer |
| EventCodec.EncodeInvertsDecode | monitorhop-proto/src/lib.rs:309-500 | an accepted buffer starts with the encoding of its event, except that a last boolean byte comes back as 1 iff it was not 0 |
| EventCodec.DecodeIgnoresPadding | monitorhop-proto/src/lib.rs:309-396 | decoding depends only on the bytes the event occupies |
| EventCodec.TagFits | monitorhop-proto/src/lib.rs:15 | no tag's fields overrun the 21-byte buffer |
| EventCodec.TagsAreDisjoint | monitorhop-proto/src/lib.rs:228-254 | no tag is accepted by both the event decoder and the clipboard frame decoder |
| PressGauge.RunKeepsInv | input-capture/src/lib.rs:655-717 | depth and pressure are never negative, and pressure means depth 0 |
| PressGauge.PressureIsExact | input-capture/src/lib.rs:672-701 | the pressure is exactly the motion left unabsorbed since the last interior motion, Begin or release |
| PressGauge.OvershootTelescopes | input-capture/src/lib.rs:672-701 | over an unbroken overshooting run the pressure is minus the sum of the starting depth and the deltas |
| PressGauge.ArmedByOvershoot | input-capture/src/lib.rs:685-717 | an armed AutoRelease was armed by an overshooting run of at least the threshold, with no interior motion, release or firing since |
| PressGauge.ArmedExactly | input-capture/src/lib.rs:685-717 | and iff there was such a run: smaller overshoots, a new threshold or a Begin do not disarm it |
| PressGauge.ZeroThresholdNeverArms | input-capture/src/lib.rs:655-657 | with threshold 0 nothing is ever armed |
| PressGauge.LongOutwardRunArms | input-capture/src/lib.rs:672-717 | outward motions, idle steps between them, of at least extent plus threshold in all always arm |
| PressGauge.ArmedMeansPressureExactly | input-capture/src/lib.rs:595-604 | armed means pressure over the threshold throughout a run iff no Begin comes while armed |
| PressGauge.MotionAlongWallResets | input-capture/src/lib.rs:685-695 | at the wall pressure grows iff the motion has an outward component, and is dropped otherwise |
| WallPress.StepRefines | input-capture/src/lib.rs:593-725 | every step of the wrapper's cursor model is a step of the gauge |
| WallPress.RunRefines | input-capture/src/lib.rs:506-725 | so is every run, and the gauge's facts hold of the wrapper |
| WallPress.RunKeepsInv | input-capture/src/lib.rs:506-717 | in every reachable state depth and pressure are well formed, a pending AutoRelease has a captured position, and sensitivities are positive |
| WallPress.FiringWasArmed | input-capture/src/lib.rs:796-821 | a deadline that fires was armed by an overshoot, with no interior motion, release or firing since |
| WallPress.LongOutwardRunArms | input-capture/src/lib.rs:655-717 | from Begin at a peer of known size, a long enough outward run arms the AutoRelease, whatever keys, scrolls, reports and motions elsewhere come in between |
| WallPress.ReleaseStaysIdle | input-capture/src/lib.rs:506-516 | after a release nothing is tracked, whatever comes, until the next Begin |
| WallPress.BeginKeepsStaleArm | input-capture/src/lib.rs:595-604 | a concrete run in which a Begin at another position inherits an armed AutoRelease |
| VirtualCursor.LateSeeding | input-capture/src/lib.rs:355-378 | bounds that arrive late put the cursor at its seed plus every motion since Begin, clamped once, and empty the buffer |
| LateCursor.WalkIsOneClamp | input-capture/src/lib.rs:628-653 | clamping the cursor at every motion comes to clamping it once, to the span of the motions |
| LateCursor.LateAgreesExactly | input-capture/src/lib.rs:355-378 | when late bounds arrive, the late run and the one that knew them at Begin agree on the cursor iff one clamp lands in the span of the motions in between |
| LateCursor.LateAgreesWithEager | input-capture/src/lib.rs:355-378 | and then they agree from there on, whatever happens |
| LateCursor.StartsInsideLandsInSpan | input-capture/src/lib.rs:632-651 | as they do whenever every motion starts on the peer's screen |
| LateCursor.OvershootSplitsLateFromEager | input-capture/src/lib.rs:632-651 | a concrete pair of runs that disagree because a motion left the rectangle and came back |
| VirtualCursor.StaysOnScreen | input-capture/src/lib.rs:632-635 | once on the peer's screen the cursor stays there while the capture is undisturbed |
| VirtualCursor.LateSeedStaysOnScreen | input-capture/src/lib.rs:355-378 | from late bounds on the cursor is on the peer's screen |
| VirtualCursor.BeginOnScreenExactly | input-capture/src/lib.rs:478-482 | a Begin places the cursor on the peer's screen iff it falls back to the midpoint, or comes from the Right or Bottom, or the extent is between 1 and 2^31 - 1 |
| VirtualCursor.CaptureOnScreenExactly | input-capture/src/lib.rs:524-653 | at any later point of the capture the cursor is on the screen iff it was placed there or a motion came since |
| VirtualCursor.ZeroSizedPeerSeedsOffScreen | input-capture/src/lib.rs:478-482 | a Begin at a peer of width zero seeds the cursor at -1 |
| VirtualCursor.BoundsOnScreenExactly | input-capture/src/lib.rs:355-378 | after a bounds report during the capture the cursor is on the screen iff it was inside the new size already, or is placed only now |
| EntryDepth.DepthIsEntryDistance | input-capture/src/lib.rs:247-258 | on all four sides the depth is the cursor's distance from the edge it entered through, scaled by the sensitivity, until it leaves |
| WarpTargets.RoundTripBound | input-capture/src/lib.rs:469-586 | scaling an offset to the guest and back never passes it and loses less than host/peer + 1, for all sizes on which the casts do not saturate |
| WarpTargets.WarpRoundTrip | input-capture/src/lib.rs:552-586 | entering and leaving at once lands on the facing host edge within that bound, for all positions and origins |
| WarpTargets.FallbackIsOnTheOppositeEdge | input-capture/src/lib.rs:534-542 | the fallback is half way along the edge opposite to the warp target iff no cast wraps and the guest has an extent |
| CaptureRuns.RunStaysConsistent | input-capture/src/lib.rs:262-294 | the two handle maps are inverse, without empty or duplicate lists, and backend create and destroy calls alternate with the live positions being the map's keys |
| CaptureRuns.PollAnswers | input-capture/src/lib.rs:788-836 | what a poll answers, from the queue, the deadline and the arrival alone: ended or failed iff the backend did, pending iff it was quiet or its event has no handle, else the first copy |
| CaptureRuns.FanOutIsConserved | input-capture/src/lib.rs:788-876 | copies handed out plus copies waiting are the copies queued, in order |
| CaptureRuns.EventReachesEachHandleOnce | input-capture/src/lib.rs:851-876 | between two consumed events exactly the first one's copies are handed out, one per handle, in list order |
| CaptureCursor.WallIsReachable | input-capture/src/lib.rs:796-849 | a run of the wrapper goes through the `WallPress` run made of its operations' steps one after the other, with the same cursor model between operations |
| CaptureCursor.FiringWasArmed | input-capture/src/lib.rs:796-821 | a deadline firing at a poll was armed by the poll that consumed the last motion of a long enough overshoot, with no release or firing since |
| CaptureCursor.LongOutwardRunArms | input-capture/src/lib.rs:655-849 | polls that consume outward motions of at least extent plus threshold since a Begin leave the AutoRelease armed, whatever else happens in between |
| CaptureCursor.RunKeepsWallInv | input-capture/src/lib.rs:593-725 | the wall-press invariant holds in every reachable state of the wrapper |
| CaptureStream.InputCapture.constructor | input-capture/src/lib.rs:746-767 | a new wrapper is empty and tracks nothing |
| CaptureStream.InputCapture.Create | input-capture/src/lib.rs:262-274 | registers a handle, asks the backend only for a new position and keeps the maps inverse |
| CaptureStream.InputCapture.Destroy | input-capture/src/lib.rs:277-294 | unregisters a handle, takes down an emptied position and keeps the maps inverse |
| CaptureStream.InputCapture.Release | input-capture/src/lib.rs:297-316 | computes the warp target before clearing keys and tracking state, then releases the backend with it |
| CaptureStream.InputCapture.ReleaseNoHostWarp | input-capture/src/lib.rs:326-334 | the same without a warp target |
| CaptureStream.InputCapture.SetPeerBounds | input-capture/src/lib.rs:355-378 | caches bounds and seeds a waiting cursor |
| CaptureStream.InputCapture.SetPeerSensitivity | input-capture/src/lib.rs:393-402 | stores positive factors only |
| CaptureStream.InputCapture.ResetWallPressState | input-capture/src/lib.rs:506-516 | clears every tracking field but threshold, bounds and sensitivities |
| CaptureStream.InputCapture.BeginCapture | input-capture/src/lib.rs:595-604 | a Begin restarts depth, pressure, cursor and buffer and keeps the pending flag |
| CaptureStream.InputCapture.TrackCursor | input-capture/src/lib.rs:628-653 | one motion clamps a placed cursor or is buffered |
| CaptureStream.InputCapture.AccumulatePressure | input-capture/src/lib.rs:672-717 | one motion's effect on depth, pressure and the pending AutoRelease |
| CaptureStream.InputCapture.TrackWallPress | input-capture/src/lib.rs:593-725 | one event's effect on all tracking fields, early returns included |
| CaptureStream.InputCapture.TakePressedKeys | input-capture/src/lib.rs:736-738 | drains the pressed keys |
| CaptureStream.InputCapture.UpdatePressedKeys | input-capture/src/lib.rs:774-782 | state 1 adds a scancode, any other removes it, codes that name none are ignored |
| CaptureStream.InputCapture.RouteEvent | input-capture/src/lib.rs:838-875 | keys and tracking first, then no, one or many copies |
| CaptureStream.InputCapture.PollNext | input-capture/src/lib.rs:788-876 | queued copies, then a fired deadline, then the backend |
| EmulationState.RunStaysFaithful | input-emulation/src/lib.rs:184-362 | key events per handle and key alternate starting with a press, and the recorded sets hold exactly the keys last pressed |
| EmulationState.ClosedHandleIsBalanced | input-emulation/src/lib.rs:287-294 | after destroy presses equal releases for every key of the handle |
| EmulationState.TerminationBalances | input-emulation/src/lib.rs:296-301 | after terminate nothing is registered or held and presses equal releases everywhere |
| EmulationState.RunKeepsHandlesAlive | input-emulation/src/lib.rs:277-294 | the backend's create and destroy calls alternate per handle and the handles alive there are the registered ones |
| EmulationInput.InputComesOut | input-emulation/src/lib.rs:184-264 | over every run the backend gets the events fed to a handle other than keys once, in order: motion scaled, scroll negated iff natural scroll is on, momentum dropped iff the platform is not macOS, the rest unchanged |
| EmulationInput.KeyHasItsCause | input-emulation/src/lib.rs:255-340 | every key event the backend gets was fed to that handle just so, or is the key-up of a key it held at a release |
| EmulationInput.TotalsAreScaled | input-emulation/src/lib.rs:225-254 | with fixed preferences the motion it gets is the sensitivity times the motion fed, and its scroll totals are the negated ones iff natural scroll is on |
| EmulationDevice.InputEmulation.UpdatePressedKeys | input-emulation/src/lib.rs:350-362 | answers whether the event changes what the handle holds, and records it |
| EmulationDevice.InputEmulation.Feed | input-emulation/src/lib.rs:184-264 | post-processing, momentum drop and the filter for doubled keys |
| EmulationDevice.InputEmulation.Open | input-emulation/src/lib.rs:277-285 | registers a handle once, with no key held |
| EmulationDevice.InputEmulation.ReleaseKeys | input-emulation/src/lib.rs:316-340 | a key-up for each held key, then zero modifiers, also for an unknown handle |
| EmulationDevice.InputEmulation.Close | input-emulation/src/lib.rs:287-294 | releases the keys, then forgets the handle if it was registered |
| EmulationDevice.InputEmulation.TerminateAll | input-emulation/src/lib.rs:296-301 | closes each registered handle, then the backend |
| EmulationSession.ReceivedHolds | monitorhop/src/emulation.rs:755-774 | input from an address changes what it holds exactly as the events say, and nothing else |
| EmulationSession.RemovedHolds | monitorhop/src/emulation.rs:775-779 | removing an address leaves it holding nothing and others untouched |
| ReceivedInput.AddressGetsItsInput | monitorhop/src/emulation.rs:749-805 | over all the handles an address ever had, the backend gets its input once, in order, as its latest preferences say: a Leave or a silence does not lose them |
| ReceivedInput.AddressTotalsAreScaled | monitorhop/src/emulation.rs:749-805 | with fixed preferences the motion and scroll totals are those received, scaled and negated as they say |
| KeyLog.ClientHolds | monitorhop/src/emulation.rs:755-779 | a client's emulator holds for the host what the messages read so far say, or less after a silence |
| KeyLog.DrainedClientHolds | monitorhop/src/emulation.rs:755-779 | a client that has read everything sent to it holds what the log says |
| KeyFlow.RunStaysSettled | monitorhop/src/capture.rs:520-563 | clients that are not controlled hold nothing, and each Leave to a client is preceded by an Enter since the last |
| KeyFlow.RunStaysCovered | input-capture/src/lib.rs:774-782 | the controlled client holds nothing that is not pressed, for key events both sides read alike |
| KeyFlow.CoveredExactlyWhenAgreed | input-emulation/src/lib.rs:350-362 | a key event keeps that true iff it is state 0, or state 1 on a code up to 249 |
| KeyFlow.RunStaysMatched | input-capture/src/lib.rs:774-782 | the controlled client holds exactly the keys pressed, for such events |
| KeyFlow.RunCleanExactly | monitorhop/src/capture.rs:533-561 | every Leave follows zero modifiers and a state in which its client holds nothing, iff each farewell flushed all its client held |
| KeyFlow.RunCleanExactlyWhenSpoken | monitorhop/src/capture.rs:401-439 | for key events both sides read alike, iff no key-up of a held key ever completed the chord |
| KeyFlow.RunStaysClean | monitorhop/src/capture.rs:533-561 | so every Leave is clean if no rebind is to keys already down with another key down beside them |
| KeyFlow.RebindMattersExactly | monitorhop/src/capture.rs:387-389 | a rebind lets the next event spoil a farewell iff it is to keys already down with another key down beside them |
| KeyFlow.InconsiderateRebindLeavesAKeyToLeave | monitorhop/src/capture.rs:387-389 | a concrete run where a bind changed to pressed keys leaves a key to the Leave |
| KeyLink.NoStuckKeys | monitorhop/src/capture.rs:401-563 | over every session with a sound layout: uncontrolled clients hold nothing, nothing is held after any release, and two Leaves to a client have an Enter between them |
| KeyLink.HeldKeysArePressed | monitorhop/src/capture.rs:401-500 | for codes up to 249 and states 0 and 1, the controlled client holds exactly what is pressed on the host, the others nothing |
| KeyLink.LeavesAreClean | monitorhop/src/capture.rs:520-563 | then every Leave comes after key-ups for all its client held and zero modifiers, if every rebind is considerate |
| KeyLink.LeavesAreCleanExactly | monitorhop/src/capture.rs:401-563 | and whatever the rebinds, iff no key-up of a held key completed the chord |
| KeyLink.DrainedClientHoldsOnlyPressedKeys | monitorhop/src/capture.rs:520-563 | the same for the emulator at the far end of the link |
| KeyLink.YieldedHandlesAreRegistered | monitorhop/src/capture.rs:211-225 | looking up the handle of a handed-out event panics only if it is a copy queued for a handle destroyed since |
| KeyLink.StepEffect | monitorhop/src/capture.rs:296-500 | every poll, peer message and request is one effect of the key flow |
| KeyLinkLayouts.SoundLayoutsExactly | input-capture/src/lib.rs:277-316 | with a release bind set, a layout never leaves a key stuck iff every Default handle comes first at its position |
| KeyLinkLayouts.UnsoundLayoutsGetStuck | monitorhop/src/capture.rs:441-479 | otherwise a key-down queued for a later Default handle is forwarded after the farewell |
| KeyLinkDestroy.StepPanicsExactly | monitorhop/src/capture.rs:211-225 | which polls, peer messages and requests panic, by the registered handles alone |
| KeyLinkDestroy.CrashFreeExactly | monitorhop/src/capture.rs:296-500 | nothing that can follow a state panics iff every client with an open connection and every handle with queued input is registered |
| KeyLinkDestroy.DestroyPanicsExactly | monitorhop/src/capture.rs:374-386 | nothing that can follow the destruction of a capture panics iff its client's connection is closed and no input is queued for it |
| KeyLinkDestroy.MessagePanicsExactly | monitorhop/src/capture.rs:306-353 | a message of the destroyed client panics iff it reports bounds or sensitivity while no other client is controlled |
| KeyLinkDestroy.DrainPanicsExactly | monitorhop/src/capture.rs:211-225 | draining the queue right after the destruction panics iff a copy for the handle will be looked up |
| KeyLinkDestroy.DrainWhileCapturingPanicsExactly | monitorhop/src/capture.rs:374-386 | with a capture under way and the chord not down, iff any copy is queued for it |
| KeyLinkStranding.DestroyIsOrderlyExactly | monitorhop/src/capture.rs:374-386 | after a capture is destroyed, every continuation leaves all clients in order and without keys iff its client was not active |
| KeyLinkStranding.DestroyIsUnstuckExactly | monitorhop/src/capture.rs:441-447 | and no continuation leaves a client a key iff its client was not active or held none |
| ForwardedInput.StepSends | monitorhop/src/capture.rs:401-563 | exactly what each step sends: the event handed out for a Default handle, for a Begin an Enter and the known cursor, or the whole farewell |
| ForwardedInput.InputIsPassedOn | monitorhop/src/capture.rs:578-587 | at any time the input a client was sent since its Enter is the input handed out for it since that Begin, in order and unchanged |
| ForwardedInput.MotionIsConserved | monitorhop/src/capture.rs:578-587 | so the motion sent is the motion handed out |
| ForwardedInput.EnterHasItsBegin | monitorhop/src/capture.rs:449-499 | every Enter names the side across from the registration of the client a Begin was handed out for; every cursor follows such an Enter, and its fractions times the host's extents are the clipped offsets |
| LinkMotion.MotionCrossesTheLink | monitorhop/src/capture.rs:578-587 | the motion a drained client's backend is told to make is the motion handed out for it, scaled by its sensitivity, however often it was left and entered |
| HostReleases.BackendIsTold | monitorhop/src/capture.rs:401-518 | exactly what each step tells the backend: a peer's Leave or a handover releases without a warp; the chord, an AutoRelease or an empty side with the cursor on the facing edge, as far along as the guest's, if it is placed |
| HostReleases.RefusedSendReleases | monitorhop/src/capture.rs:473-479 | a refused message ends the capture without a farewell, with that warp |
| HostReleases.EntersOnTheEdge | input-capture/src/lib.rs:469-486 | a Begin with a known cursor places the guest cursor on its entry edge, as far along as the host's |
| SessionReports.SessionIsKept | monitorhop/src/capture.rs:306-394 | each step keeps or replaces what is known of each side, the settings and the captures, and which notices it gives, by the step alone |
| SessionReports.LatestReportIsKnown | monitorhop/src/capture.rs:339-353 | what is known of a side is what its registered peer last reported while it was heeded, until a capture there is destroyed |
| CaptureController.CaptureTask.NotifyPeerOfLeave | monitorhop/src/capture.rs:520-563 | the farewell, for the drained keys in whatever order, and nothing without an active client |
| CaptureController.CaptureTask.ReleaseCapture | monitorhop/src/capture.rs:502-505 | farewell, then a release with the host-side warp |
| CaptureController.CaptureTask.ReleaseCaptureHandover | monitorhop/src/capture.rs:512-518 | farewell, then a release without it |
| CaptureController.CaptureTask.Forward | monitorhop/src/capture.rs:441-499 | activation, the forwarded message, release on a failed send, the cursor position after an Enter |
| CaptureController.CaptureTask.HandleCaptureEvent | monitorhop/src/capture.rs:401-500 | chord, AutoRelease, EnterOnly handles and forwarding, in that order |
| CaptureController.CaptureTask.HandlePeerMessage | monitorhop/src/capture.rs:306-366 | only the active client is heeded; its Leave hands over |
| CaptureController.CaptureTask.HandleRequest | monitorhop/src/capture.rs:367-394 | the service's requests, errors of the backend included |
| CaptureController.CaptureTask.RemoveCapture | monitorhop/src/capture.rs:201-203 | keeps every other registration |
| AddressSelection.RunStaysFolded | monitorhop/src/client.rs:180-232 | candidates are the union of their sources and nothing is remembered about other addresses, over all setters |
| AddressSelection.EverySetterStores | monitorhop/src/client.rs:180-536 | over all setters each stores what it was given, field by field, and leaves the rest |
| AddressSelection.LowestLatencyAddr | monitorhop/src/client.rs:440-451 | the best reachable address, or none iff none is reachable |
| AddressSelection.UpgradeExactly | monitorhop/src/client.rs:458-472 | an upgrade is recommended iff a reachable candidate is twice as fast and 15 ms better; it is a current candidate and the best of all |
| AddressSelection.NoAddressIsRevisited | monitorhop/src/client.rs:458-472 | with errors under half the gain no switch returns to an earlier address |
| AddressSelection.SwitchesAreBounded | monitorhop/src/client.rs:458-472 | and a run over n addresses switches at most n - 1 times |
| AddressSelection.LargerErrorsFlap | monitorhop/src/client.rs:459 | for every larger error a run that switches back and forth and ends where it began |
| AddressSelection.FlapsExactly | monitorhop/src/client.rs:458-472 | some run with errors up to d returns to an address it left iff 2d is at least the required gain |
| ClientRegistry.ClientManager.AddWithConfig | monitorhop/src/client.rs:31-51 | adds a configured client whose candidates are its fixed addresses |
| ClientRegistry.ClientManager.UpdateIps | monitorhop/src/client.rs:195-211 | refolds one client's candidates and prunes its metadata |
| ClientRegistry.ClientManager.SetFixIps | monitorhop/src/client.rs:180-185 | replaces the fixed addresses and refolds |
| ClientRegistry.ClientManager.SetDnsIps | monitorhop/src/client.rs:188-193 | replaces the DNS addresses and refolds |
| ClientRegistry.ClientManager.SetDiscoveredIps | monitorhop/src/client.rs:476-488 | replaces the discovered addresses and reports a change |
| ClientRegistry.ClientManager.SetHostname | monitorhop/src/client.rs:215-232 | a new hostname drops the active address and the DNS addresses |
| ClientRegistry.ClientManager.SetInterfaces | monitorhop/src/client.rs:493-513 | keeps the kinds of current candidates |
| ClientRegistry.ClientManager.SetLatency | monitorhop/src/client.rs:520-536 | records probes of current candidates only and reports a change iff there is one |
| ClientRegistry.ClientManager.UpgradeFor | monitorhop/src/client.rs:458-472 | an upgrade target is always a current candidate |
| ClipboardPoll.SameIdentityExactly | input-capture/src/clipboard.rs:281-290 | clips of one kind share an identity iff their text or digest does; images and file lists never do |
| ClipboardPoll.JoinedAlikeExactly | input-capture/src/clipboard.rs:285-288 | two file lists give the digest the same input iff their paths, broken into lines, are the same lines |
| ClipboardPoll.PlainPathsAreTheirLines | input-capture/src/clipboard.rs:285-288 | so lists of paths without line breaks are told apart by the digest |
| ClipboardPoll.LineBreakMerges | input-capture/src/clipboard.rs:285-288 | two lists with one identity, one path holding a line break |
| ClipboardPoll.LazyProbingIsExact | input-capture/src/clipboard.rs:127-156 | probing suppression only when it matters gives the same memory and emissions as always probing |
| ClipboardPoll.NoReemission | input-capture/src/clipboard.rs:157-175 | recorded content is not emitted again until other content was recorded |
| ClipboardPoll.EmissionsAreSpaced | input-capture/src/clipboard.rs:396-405 | every emission comes more than 200 ms after anything recorded before |
| ClipboardPoll.EmittedExactly | input-capture/src/clipboard.rs:410-429 | content is emitted iff it is not suppressed and, once anything has been recorded, is new and late enough |
| ClipboardPoll.RecordedExactly | input-capture/src/clipboard.rs:157-175 | what is remembered: local content, and polled content iff it is new and late enough, emitted or suppressed |
| ClipboardPoll.PollDecides | input-capture/src/clipboard.rs:127-175 | the same of a single poll in any memory, with a clock behind it too |
| ClipboardPoll.ClipboardMonitor.Tick | input-capture/src/clipboard.rs:79-198 | one tick decides, remembers and emits as the specification says, and does nothing when disabled |
| ClipboardPoll.ClipboardMonitor.UpdateLastEvent | input-capture/src/clipboard.rs:240-245 | remembers a payload this machine set itself |
| TrayIcon.ScanBounds | monitorhop-gtk/src/linux_tray.rs:225-253 | finds the smallest box around the pixels with alpha at least 8, or that there are none |
| TrayIcon.BoundsAreUnique | monitorhop-gtk/src/linux_tray.rs:231-250 | there is only one such box |
| TrayIcon.FillSquare | monitorhop-gtk/src/linux_tray.rs:268-279 | the square holds the crop in ARGB order and zero everywhere else, with every access in range |
| TrayIcon.CropToArgb | monitorhop-gtk/src/linux_tray.rs:215-285 | no icon iff the format is wrong or nothing is visible; otherwise the padded crop of the exact box |
| TrayIcon.CropFits | monitorhop-gtk/src/linux_tray.rs:254-266 | the crop is the box and a pixel more on each side where the image goes on, in a square as wide as its longer side, its two margins differing by at most one |
| TrayIcon.PixelBytes | monitorhop-gtk/src/linux_tray.rs:234-235 | a pixel is visible iff the fourth of its bytes is at least 8 |
| TrayIcon.IconBytes | monitorhop-gtk/src/linux_tray.rs:267-279 | byte by byte the icon is alpha, red, green, blue of the pixel under the crop, and zero around it |
| TrayIcon.VisiblePixelsSurvive | monitorhop-gtk/src/linux_tray.rs:255-279 | every visible pixel's bytes are in the icon at their translated place, a pixel away from the rim where the image allows |

## Left out

- Timestamps of events, and the axis of a scroll: not modelled outside the codec.
- EntryDepth.DepthIsEntryDistance: does not cover a sensitivity report in the middle of a capture, after which the depth mixes two scales.
- Float rounding: deltas, cursors and warps are exact reals; `as i32` truncation, saturation and wrap-around of sizes are modelled, overflow of `i32` sums of pixel coordinates is not.
- WarpTargets.WarpRoundTrip: does not cover a cursor whose image on the guest lies 2^31 pixels or more along the edge, where the cast saturates.
- KeyLink.NoStuckKeys: a step that panics ends the session, see `StepPanicsExactly`; the theorem does not cover a request that destroys the capture of the client being controlled, whose exact effect is `DestroyIsUnstuckExactly`; one that adds a Default capture behind another handle, which fails by `SoundLayoutsExactly`; or one that registers a handle again while copies for its former self are queued, which the service never makes: in a sound layout only EnterOnly handles have queued copies, and those are drawn from a counter (monitorhop/src/service.rs:1063-1068).
- KeyLinkStranding.DestroyIsOrderlyExactly: the stranding run needs a key that is up and a handle not in use, which it takes as arguments.
- KeyLinkStranding.DestroyIsUnstuckExactly: likewise. Destroying the position being captured is taken to end the capture, as the macOS and Windows backends do (input-capture/src/macos.rs:221-228, input-capture/src/windows/event_thread.rs:581-586).
- EmulationDevice.InputEmulation.ReleaseKeys: the backend takes every event; the original stops draining keys at the first one it refuses.
- Session restarts: the active client survives a restart of the capture backend in the original; one session is modelled.
- Link failures: the class forwards over a connection that may refuse a message, and then releases the backend without a farewell; the composed system uses one that takes every message and delivers in order, where a silence may still drop what a client holds.
- Emulation disabled on the client: the client reads every message it is sent.
- KeyLinkDestroy.DestroyPanicsExactly: what follows is taken to destroy no further handle with an open connection or queued input, and to make no inadmissible request; either panics by itself.
- Async plumbing, timers and channels: a deadline is a step that may happen at any moment.
- SHA-256 and UTF-8 validation: function parameters.
- The per-variant encode and decode calls of the event codec: written as a table of field widths and values, which the array methods follow field by field.
- `encode_clipboard_transfer`: a thin wrapper of the payload encoder for text.
- Sender retries and acknowledgements of clipboard transfers: the schedule is arbitrary instead.
- Hash map iteration order: a parameter where it can be observed.
- Overflow of the emulation handle counter, and slab slot reuse in the client registry: the counter is unbounded, the vacant slot is a parameter.
- Connection modes, network locks, ports of probe targets and lookups in the client registry: one-line getters and setters.
- Reading the platform clipboard, the frontmost application and the suppression list: what a poll finds is a parameter.
- TrayIcon.CropToArgb: does not model overflow of `i32` for icons over 23170 pixels on a side.
- Platform backends, DTLS, discovery, IPC, configuration and user interface: input and output.
