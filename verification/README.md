# Dess Monitor Local, verified

A Dafny model of the parts of the Dess Monitor Local integration that talk to inverters
and keep their figures: the checksums and frames of the PI30, PI18, Modbus RTU and EyBond
protocols, the manager of several EyBond dongles on one listener, the per-transport
command queues, the state-of-charge estimator, the polling policy of the coordinator, and
the energy counters.

`dafny verify dfyconfig.toml` checks the whole project.

## How it is built

| module | models |
|---|---|
| `Crc`, `ErrorDetection`, `TwoBitErrors` | the CRC registers as loops and as algebra; what they detect; their order |
| `Frames`, `ModbusRtu`, `EyFrame`, `WireImages` | frames, validators, parsers and read loops; frames byte by byte |
| `EybondIndex`, `EybondManager` | the state of the EyBond manager as a value; the manager and its registry as objects |
| `EybondRuns`, `EybondMatching`, `EybondFates` | every interleaving of session handlers and requests; the matching of replies; what becomes of each request |
| `CommandQueue`, `TransportBus` | the priority queue of one transport; the registry of queues and all their workers |
| `SocEstimator`, `SocRuns`, `SocLedger`, `SocFigures` | the Coulomb counter; what it keeps over runs; where its charge comes from; its figures |
| `Coordinator` | acceptance, retry, suppression and freeze |
| `CoordinatorLife`, `CoordinatorHub`, `CoordinatorAge` | one command of one device over every interleaving; all of them together; how old published data can be |
| `EnergyCounter`, `Sanity`, `Trapezoids` | the energy accumulators, plausibility bounds, integration |
| `Wrappers` | optional values and results |

What the program updates in place is a class whose methods are loops and assignments.  The
`ensures` of each method equates the new state with a function of the old one, and the
properties of whole runs are proved about those functions.  A coroutine is cut at its
awaits: what runs between two of them is one atomic step, and a run is any sequence of
enabled steps.

Where the program does not do what its documentation says, the model follows the program:

* The time of the last sync is documented as pinned to the tick that crosses the
  threshold; it moves again when the counter falls back to the threshold
  (`SocRuns.StampsExactly`, `SocRuns.StampMovesWithoutCrossing`).
* The module of the queues says that URIs of one bridge share a queue, and that all forms of
  a serial path do.  `tcp`, `pi18`, `modbus` and `agent` URIs of one endpoint do not
  (`TransportBus.BridgeHasTwoQueues`), and neither do the two forms of a Windows port, as in
  `COM3` and `pi18-serial://COM3` (`TransportBus.WindowsPortHasTwoQueues`).
* The streaming Modbus reader rejects an odd byte count, the buffer parser does not
  (`ModbusRtu.ReadersDisagreeExactly`).
* Too short a PI30 response is documented as handed back whole; what goes before the start
  byte is cut off (`WireImages.ShortResponse`).
* Forced reads are documented as keeping settings from appearing to revert.  One that is
  accepted during a cycle is taken back by the end of the cycle, unless the command is polled
  after it with success (`CoordinatorAge.SettingsRevert`, `CoordinatorAge.LatestIsPublishedIff`).
* A device that has timed out republishes its old data, although its poll may have accepted
  new data and cleared the failures.  How old a section can get is decided by the number of
  such cycles, and of cycles that overwrite an accepted forced read
  (`CoordinatorAge.AgeIsBounded`, `CoordinatorAge.AgeIsReached`).
* A suppressed command keeps its last section for good, unless a forced read is accepted
  (`CoordinatorAge.SuppressedIsFrozen`).
* Two NAKs suppress a command, but a NAK that comes after the timeout of its device is not
  counted (`CoordinatorLife.NakCost`, `CoordinatorLife.NakCostIsReached`).
* A sequence of capacity edits comes to the last one only if the held percentage is one
  that an edit would publish (`SocRuns.FirstEditsCollapseIff`).

## Model

| member | source | states |
|---|---|---|
| `Crc.Crc16Xmodem` | custom_components/dess_monitor_local/api/crc.py:10-21 | The nested loops compute the XMODEM register folded over the data from 0x0000, the function that all laws below are about |
| `Crc.Crc16Modbus` | custom_components/dess_monitor_local/api/crc.py:53-63 | The same for the reflected Modbus register, from 0xFFFF |
| `Crc.FoldAppend` | custom_components/dess_monitor_local/api/crc.py:10-21 | Checking a concatenation is checking the second part from the register the first part left |
| `Crc.AdvanceNLinear` | custom_components/dess_monitor_local/api/crc.py:13-20 | Any number of register steps distributes over XOR and loses no information: only the zero register ends at zero |
| `Crc.FoldIsFoldBits` | custom_components/dess_monitor_local/api/crc.py:53-63 | Both byte-wise algorithms are one register fed bit by bit in wire order (high bit first for XMODEM, low bit first for Modbus) |
| `ErrorDetection.FoldBitsLinear` | custom_components/dess_monitor_local/api/crc.py:10-21 | The registers after two equally long bit strings differ by the register of their difference |
| `ErrorDetection.OwnChecksum` | custom_components/dess_monitor_local/api/crc.py:24-26 | A register fed its own two checksum bytes, high byte first for XMODEM and low byte first for Modbus, ends at zero, from any register value |
| `ErrorDetection.SealedIffClears` | custom_components/dess_monitor_local/api/protocols/modbus_rtu.py:67-69 | The last two bytes of a frame are the checksum of the others if and only if the whole frame leaves a zero register |
| `ErrorDetection.AcceptedCorruptions` | custom_components/dess_monitor_local/api/crc.py:130-150 | A same-length corruption of an accepted frame is accepted if and only if the error pattern itself leaves a zero register |
| `ErrorDetection.RejectsOddCorruption` | custom_components/dess_monitor_local/api/crc.py:130-150 | For frames of any length, flipping an odd number of bits is always noticed, by both algorithms |
| `ErrorDetection.RejectsBurst` | custom_components/dess_monitor_local/api/crc.py:130-150 | For frames of any length, a change confined to sixteen consecutive bits of the wire is always noticed |
| `ErrorDetection.RejectsTwoBytes` | custom_components/dess_monitor_local/api/crc.py:130-150 | For frames of any length, a change confined to two adjacent bytes is always noticed |
| `ErrorDetection.ShortBurst` | custom_components/dess_monitor_local/api/crc.py:13-20 | At most sixteen fed bits leave a zero register only if all of them are zero |
| `ErrorDetection.FoldParity` | custom_components/dess_monitor_local/api/crc.py:13-20 | Every register step keeps a parity, so that the parity of the register is that of the bits fed |
| `ErrorDetection.WireInjective` | custom_components/dess_monitor_local/api/crc.py:13-20 | Different frames of one length differ on the wire |
| `ErrorDetection.StartsComplemented` | custom_components/dess_monitor_local/api/crc.py:53-63 | The Modbus checksum of two bytes or more is that of a register that starts at zero, with the first two bytes complemented; the XMODEM register does start at zero |
| `ErrorDetection.FoldInjective` | custom_components/dess_monitor_local/api/crc.py:13-20 | No two register values come together on any message |
| `ErrorDetection.LeadingZeroIsNoticed` | custom_components/dess_monitor_local/api/crc.py:53-63 | A zero byte before a message changes its Modbus checksum, whatever the message, so that an accepted frame is not accepted with one before it; it never changes the XMODEM checksum |
| `TwoBitErrors.PowerSum` | custom_components/dess_monitor_local/api/crc.py:13-20 | The turns of the register are powers: the register after m + n turns from its unit is the product of the registers after m and after n |
| `TwoBitErrors.ReturnsExactly` | custom_components/dess_monitor_local/api/crc.py:13-20 | Both registers come back to their start exactly after every multiple of 32767 turns |
| `TwoBitErrors.TwoBitsPassExactly` | custom_components/dess_monitor_local/api/crc.py:130-150 | Flipping exactly two bits of an accepted frame is accepted if and only if a multiple of 32767 lies between them |
| `TwoBitErrors.SeventeenBitsCanPass` | custom_components/dess_monitor_local/api/crc.py:13-20 | The burst bound is tight: for both algorithms two accepted frames that differ only within seventeen consecutive bits |
| `WireImages.XmodemCheckValue` | custom_components/dess_monitor_local/api/crc.py:10-21 | The XMODEM checksum of the nine digits is 0x31C3 |
| `WireImages.ModbusCheckValue` | custom_components/dess_monitor_local/api/crc.py:53-63 | The Modbus checksum of 01 04 02 FF FF is 0x80B8 |
| `WireImages.ReadOneChecksum` | custom_components/dess_monitor_local/api/protocols/modbus_rtu.py:39-48 | The request 01 03 00 00 00 01 goes out with 84 0A |
| `WireImages.RequestBytes` | custom_components/dess_monitor_local/api/crc.py:66-69 | A PI30 request is its command, the two checksum bytes, high byte first and each one higher where it is 28, 0D or 0A, and a carriage return |
| `WireImages.KnownRequests` | custom_components/dess_monitor_local/api/crc.py:66-69 | QPIGS goes out with B7 A9, and POP02, whose low checksum byte is a line feed, with E2 0B |
| `WireImages.FramedResponse` | custom_components/dess_monitor_local/api/crc.py:89-127 | With a start byte after any other bytes: accepted if and only if the last two bytes are the checksum of the payload, of the start byte and the payload, or of the payload and a carriage return, plain or bumped; the payload comes back either way |
| `WireImages.UnframedResponse` | custom_components/dess_monitor_local/api/crc.py:89-127 | The same without a start byte, after spaces, tabs, line ends and zero bytes |
| `WireImages.ShortResponse` | custom_components/dess_monitor_local/api/crc.py:89-127 | Fewer than three bytes after the start byte are refused and handed back |
| `WireImages.Pi18Response` | custom_components/dess_monitor_local/api/crc.py:130-150 | A PI18 response is accepted with its payload if and only if it ends in the plain checksum of a payload that is not empty; a shorter one is handed back |
| `Frames.ShiftXorIsByte` | custom_components/dess_monitor_local/api/crc.py:40-43 | One step of the shift-XOR recurrence is one byte of the bit-by-bit loop, for every register and byte |
| `Frames.BumpAvoidsControl` | custom_components/dess_monitor_local/api/crc.py:44-50 | A bumped checksum byte is never a start byte, a carriage return or a line feed |
| `Frames.Crc16Voltronic` | custom_components/dess_monitor_local/api/crc.py:39-50 | The shift-XOR loop computes the bit-by-bit XMODEM checksum of the data, with each byte bumped |
| `Frames.SplitRecoversRequests` | custom_components/dess_monitor_local/api/crc.py:66-69 | A concatenation of PI30 requests without carriage returns in their bodies, cut at carriage returns, gives exactly each body with its two checksum bytes and leaves nothing over |
| `Frames.ValidateVoltronic` | custom_components/dess_monitor_local/api/crc.py:103-127 | The search loop accepts if and only if one of the three scopes matches, bumped or not, and returns the payload (or the body, when that is too short) |
| `Frames.AcceptsEveryVariant` | custom_components/dess_monitor_local/api/crc.py:77-127 | Junk without a start byte, a start byte, any non-empty payload and the checksum over any of the three scopes, bumped or not, is accepted with exactly that payload |
| `Frames.Pi18AcceptsIffClears` | custom_components/dess_monitor_local/api/crc.py:145-150 | A PI18 frame is accepted if and only if it has three bytes or more and leaves a zero register |
| `Frames.Pi18RejectsOddCorruption` | custom_components/dess_monitor_local/api/crc.py:130-150 | No corruption of an accepted PI18 frame that flips an odd number of bits is accepted |
| `Frames.Pi18RejectsBurst` | custom_components/dess_monitor_local/api/crc.py:130-150 | No corruption of an accepted PI18 frame within sixteen consecutive bits is accepted |
| `Frames.Pi18RejectsTwoBytes` | custom_components/dess_monitor_local/api/crc.py:130-150 | No corruption of an accepted PI18 frame within two adjacent bytes is accepted |
| `Frames.Pi18TwoBitsPassExactly` | custom_components/dess_monitor_local/api/crc.py:130-150 | Two flipped bits of an accepted PI18 frame are accepted if and only if their distance is a multiple of 32767, so never in a frame of up to 4095 bytes |
| `ModbusRtu.BuildReadHoldingFrame` | custom_components/dess_monitor_local/api/protocols/modbus_rtu.py:39-48 | The request carries unit, function 3, start and count in big-endian words, and leaves a zero register |
| `ModbusRtu.CollectRegisters` | custom_components/dess_monitor_local/api/protocols/modbus_rtu.py:70-73 | The loop takes as many big-endian words as were asked and are there, and fails exactly when the last one runs past the data |
| `ModbusRtu.ParseReadHoldingResponse` | custom_components/dess_monitor_local/api/protocols/modbus_rtu.py:51-73 | The buffer parser, with the order of its checks and errors |
| `ModbusRtu.StreamReader.ReadExactly` | custom_components/dess_monitor_local/api/protocols/modbus_rtu.py:140-157 | An exact read takes the next bytes in order or fails when the stream ends first |
| `ModbusRtu.ReadBlock` | custom_components/dess_monitor_local/api/protocols/modbus_rtu.py:140-174 | The streaming reader, reading piece by piece, with the order of its checks and errors |
| `ModbusRtu.ReadersDisagreeExactly` | custom_components/dess_monitor_local/api/protocols/modbus_rtu.py:51-73 | On every byte sequence the two readers give the same registers or both fail, except if and only if an otherwise valid frame has an odd byte count of which fewer registers are asked than it holds |
| `ModbusRtu.ReadersDisagreeOnSpareByte` | custom_components/dess_monitor_local/api/protocols/modbus_rtu.py:168-169 | For every unit and every count up to 127 such a frame, with one byte more than asked: the buffer parser returns the registers, the streaming reader reports the odd byte count |
| `ModbusRtu.ReadersRoundTrip` | custom_components/dess_monitor_local/api/protocols/modbus_rtu.py:140-174 | Both readers recover every list of up to 127 registers from its response frame, section 6.3 of MODBUS Application Protocol V1.1b3, cut to the number asked |
| `ModbusRtu.IntactIffClears` | custom_components/dess_monitor_local/api/protocols/modbus_rtu.py:67-69 | A complete response passes its checksum test if and only if it leaves a zero register |
| `ModbusRtu.OddCorruptionIsReported` | custom_components/dess_monitor_local/api/protocols/modbus_rtu.py:62-69 | Corruption of data and checksum bytes by an odd number of flipped bits is reported as a checksum error by both readers |
| `ModbusRtu.BurstIsReported` | custom_components/dess_monitor_local/api/protocols/modbus_rtu.py:62-69 | So is a change within sixteen consecutive bits |
| `ModbusRtu.TwoBytesAreReported` | custom_components/dess_monitor_local/api/protocols/modbus_rtu.py:62-69 | So is a change within two adjacent bytes |
| `ModbusRtu.TwoBitsAreReported` | custom_components/dess_monitor_local/api/protocols/modbus_rtu.py:62-69 | So are any two flipped bits, wherever they lie in a response |
| `ModbusRtu.FullResponse` | custom_components/dess_monitor_local/api/protocols/modbus_rtu.py:51-174 | Any complete response byte by byte, with whatever follows it: which of the errors both readers report, and otherwise the registers, as many as asked and there, each from its high and its low byte |
| `ModbusRtu.CutResponse` | custom_components/dess_monitor_local/api/protocols/modbus_rtu.py:51-174 | Both readers report any response that is cut short |
| `EyFrame.HeaderRoundTrip` | custom_components/dess_monitor_local/api/protocols/eybond_dongle.py:134-146 | Decoding an encoded header gives the header back, whatever follows it |
| `EyFrame.HeaderIsItsBytes` | custom_components/dess_monitor_local/api/protocols/eybond_dongle.py:142-146 | Encoding a decoded header gives its eight bytes back, and every decoded header fits |
| `EyFrame.ForwardFrameExactly` | custom_components/dess_monitor_local/api/protocols/eybond_dongle.py:160-164 | A forward frame can be built if and only if its fields are in range and its payload has at most 65533 bytes, and then it is the frame with those fields |
| `EyFrame.ForwardFrameBytes` | custom_components/dess_monitor_local/api/protocols/eybond_dongle.py:160-164 | The frame byte by byte: three words with the high byte first, device address, function code 4, payload; the length is that of the payload plus two |
| `EyFrame.ReadFrames` | custom_components/dess_monitor_local/api/protocols/eybond_dongle.py:643-648 | The header-then-payload loop yields the complete frames of the stream and stops at the bytes that do not complete one |
| `EyFrame.FramesOfConcat` | custom_components/dess_monitor_local/api/protocols/eybond_dongle.py:643-648 | Reading any concatenation of encoded frames yields exactly those frames, and then what the rest yields |
| `EyFrame.FramesAreLossless` | custom_components/dess_monitor_local/api/protocols/eybond_dongle.py:643-648 | On arbitrary bytes, the frames and the bytes left over spell the stream, each frame takes at least eight bytes, and no complete frame is left over |
| `EyFrame.FramesResume` | custom_components/dess_monitor_local/api/protocols/eybond_dongle.py:643-648 | The frames do not depend on how the bytes arrive |
| `EybondManager.Registry.RecordSeen` | custom_components/dess_monitor_local/api/protocols/eybond_discovery.py:86-107 | A sighting creates a connected record or refreshes status, peer and time of last sight, keeps configuration and time of first sight, and touches no other record |
| `EybondManager.Registry.SetEnabled` | custom_components/dess_monitor_local/api/protocols/eybond_discovery.py:137-140 | The one record, created if need be, is enabled or disabled |
| `EybondManager.Manager.HandleConnect` | custom_components/dess_monitor_local/api/protocols/eybond_dongle.py:634-640 | The whole new state after a connection: a fresh unidentified session, and the general event set |
| `EybondManager.Manager.FailWaiters` | custom_components/dess_monitor_local/api/protocols/eybond_dongle.py:398-400 | The loop fails exactly the futures of the set that still wait |
| `EybondManager.Manager.DropSession` | custom_components/dess_monitor_local/api/protocols/eybond_dongle.py:390-403 | The whole new state after dropping a session: set, PN map, events and futures |
| `EybondManager.Manager.HandleHeartbeat` | custom_components/dess_monitor_local/api/protocols/eybond_dongle.py:661-700 | The whole new state after a heartbeat: identify, evict the previous holder of the PN, claim, record; or only record |
| `EybondManager.Manager.HandleForward` | custom_components/dess_monitor_local/api/protocols/eybond_dongle.py:701-704 | The whole new state after an FC=4 frame: the entry under its tid goes, and its waiting future gets the payload |
| `EybondManager.Manager.HandleClose` | custom_components/dess_monitor_local/api/protocols/eybond_dongle.py:738-744 | The whole new state after the end of a handler, with the record of a PN that is not mapped any more |
| `EybondManager.Manager.DrawTid` | custom_components/dess_monitor_local/api/protocols/eybond_dongle.py:301-303 | The next tid, modulo 65536 |
| `EybondManager.Manager.BeginSend` | custom_components/dess_monitor_local/api/protocols/eybond_dongle.py:844-849 | The section under the lock: a tid is drawn and a waiting future entered under it |
| `EybondManager.Manager.PnlessTarget` | custom_components/dess_monitor_local/api/protocols/eybond_dongle.py:378-388 | The only connected session if there is exactly one, otherwise none |
| `EybondManager.Manager.FindSession` | custom_components/dess_monitor_local/api/protocols/eybond_dongle.py:794-805 | Found at once, ambiguous, or a wait on an event that is created unset if it is new |
| `EybondManager.Manager.ShouldAnnounce` | custom_components/dess_monitor_local/api/protocols/eybond_dongle.py:521-525 | Whether some enabled PN is not mapped, or, with none enabled, whether no PN is mapped |
| `EybondRuns.NextKeepsIndexOk` | custom_components/dess_monitor_local/api/protocols/eybond_dongle.py:624-752 | Each event of sessions and requests keeps the PN map the one-to-one index of the identified connected sessions, each ready event equal to being mapped, and the general event equal to some session being connected |
| `EybondRuns.IndexAlwaysOk` | custom_components/dess_monitor_local/api/protocols/eybond_dongle.py:390-403 | The same in every state that any interleaving reaches from start-up |
| `EybondRuns.ShutdownLeavesRace` | custom_components/dess_monitor_local/api/protocols/eybond_dongle.py:464-485 | Shutdown in any state with an unidentified session that is being read: a heartbeat it has buffered then maps it although it was dropped, so the above holds without shutdown only |
| `EybondRuns.EvictVacates` | custom_components/dess_monitor_local/api/protocols/eybond_dongle.py:667-680 | Evicting the previous holder of a PN removes it from set and map and leaves every other session, and the general event set |
| `EybondRuns.LateTeardownIsInert` | custom_components/dess_monitor_local/api/protocols/eybond_dongle.py:724-744 | In any reachable state, the teardown of a session that was already dropped changes none of the indexes |
| `EybondRuns.PnIsWriteOnce` | custom_components/dess_monitor_local/api/protocols/eybond_dongle.py:661-664 | No event changes the PN of an identified session or forgets a session |
| `EybondRuns.PnlessNeverGuesses` | custom_components/dess_monitor_local/api/protocols/eybond_dongle.py:367-388 | A request that names no dongle obtains the connected session if there is exactly one, is dropped if there are several, and waits once if there is none |
| `EybondRuns.RegistryAlwaysOk` | custom_components/dess_monitor_local/api/protocols/eybond_discovery.py:86-127 | In every reachable state, a mapped PN is recorded as connected, and a PN recorded as connected has a session whose handler has not finished |
| `EybondRuns.NoneConnectedAtTheEnd` | custom_components/dess_monitor_local/api/protocols/eybond_dongle.py:738-744 | Once all handlers have finished, every record is disconnected |
| `EybondRuns.ConfigurationIsKept` | custom_components/dess_monitor_local/api/protocols/eybond_discovery.py:86-107 | No event forgets a record, changes the time of its first sight, or enables or disables it, but for the user who configures that one |
| `EybondRuns.AnnouncesExactly` | custom_components/dess_monitor_local/api/protocols/eybond_dongle.py:495-525 | In every reachable state: with enabled dongles, the manager broadcasts if and only if some enabled PN has no connected session; with none, if and only if no connected session is identified |
| `EybondMatching.MatchAlwaysOk` | custom_components/dess_monitor_local/api/protocols/eybond_dongle.py:825-892 | In every reachable state, each entry stands for the latest request written under its tid on that session, an unanswered request in flight is still entered, and nothing was written after it |
| `EybondMatching.ReplyIsNotMisdelivered` | custom_components/dess_monitor_local/api/protocols/eybond_dongle.py:701-705 | A reply that echoes the tid of a request within 65536 draws resolves the future of that request or none, whatever entries timed-out or cancelled requests left behind |
| `EybondMatching.ReplyReachesItsRequest` | custom_components/dess_monitor_local/api/protocols/eybond_dongle.py:701-705 | A reply to an unanswered request in flight resolves exactly that request |
| `EybondMatching.WindowIsExact` | custom_components/dess_monitor_local/api/protocols/eybond_dongle.py:301-303 | The window of 65536 draws is exact: a run in which the late reply to an abandoned request resolves another one |
| `EybondMatching.WrittenToItsDongle` | custom_components/dess_monitor_local/api/protocols/eybond_dongle.py:785-823 | A request for a PN is only ever written to a session with that PN, even if it was evicted between lookup and lock |
| `EybondMatching.WithdrawsOnlyItsOwn` | custom_components/dess_monitor_local/api/protocols/eybond_dongle.py:864-886 | Taking an entry back after a timeout or a failed write never removes the entry of another request |
| `EybondMatching.OneInFlight` | custom_components/dess_monitor_local/api/protocols/eybond_dongle.py:844-892 | At most one request at a time is in flight on a session |
| `EybondFates.DropFailsItsOwnOnly` | custom_components/dess_monitor_local/api/protocols/eybond_dongle.py:390-403 | When a session ends, or another one turns out to have its PN, the future of a request changes if and only if it was waiting and entered on that session, and then it is lost; no other session is affected |
| `EybondFates.FateIsExact` | custom_components/dess_monitor_local/api/protocols/eybond_dongle.py:701-886 | In every reachable state an unanswered request is settled by exactly these events: the reply on its session under its tid, with that payload; the end or eviction of its session, as lost; its own timeout or cancellation, as cancelled |
| `EybondFates.UnansweredStays` | custom_components/dess_monitor_local/api/protocols/eybond_dongle.py:844-892 | Otherwise it keeps its task and its entry, unless it is given up or its write fails |
| `EybondFates.ObtainsItsDongle` | custom_components/dess_monitor_local/api/protocols/eybond_dongle.py:785-823 | In every reachable state a request for a PN, at once or when it wakes, obtains the connected session with that PN; if there is none it waits, once |
| `EybondFates.SendEnters` | custom_components/dess_monitor_local/api/protocols/eybond_dongle.py:844-860 | A request goes out under the next tid of its session modulo 65536, is entered under it, and waits |
| `EybondFates.SightingIsRecorded` | custom_components/dess_monitor_local/api/protocols/eybond_dongle.py:661-700 | A heartbeat records the PN of its session: a new record disabled and first seen now, an old one with enablement, first sight and, if the session has none, peer kept |
| `EybondFates.EndIsRecorded` | custom_components/dess_monitor_local/api/protocols/eybond_dongle.py:738-744 | The end of a handler records its PN as disconnected if and only if no other session with that PN is connected |
| `EybondFates.ChoiceIsRecorded` | custom_components/dess_monitor_local/api/protocols/eybond_discovery.py:137-140 | The flag of the PN that the user configures is what he chose, also for a PN never seen, and no other record changes |
| `EybondFates.StartRecords` | custom_components/dess_monitor_local/api/protocols/eybond_discovery.py:117-127 | At start-up all stored records are disconnected without a peer, and otherwise kept |
| `CommandQueue.CommandQueue.Enqueue` | custom_components/dess_monitor_local/api/commands/direct_command_queue.py:76-86 | A job gets the next number, a pending future and a place in the queue |
| `CommandQueue.CommandQueue.Next` | custom_components/dess_monitor_local/api/commands/direct_command_queue.py:88-90 | The worker takes the one queued job that is least by priority and then by submission |
| `CommandQueue.CommandQueue.Complete` | custom_components/dess_monitor_local/api/commands/direct_command_queue.py:91-99 | The outcome, returned or raised, goes to the future of the job unless its caller has given up |
| `CommandQueue.CommandQueue.Stop` | custom_components/dess_monitor_local/api/commands/direct_command_queue.py:67-74 | The worker ends, and only the running job is lost |
| `CommandQueue.LeastExists` | custom_components/dess_monitor_local/api/commands/direct_command_queue.py:57-61 | A non-empty queue always has a job that comes before all others |
| `CommandQueue.NextKeepsOk` | custom_components/dess_monitor_local/api/commands/direct_command_queue.py:88-101 | Each step from a consistent queue keeps every job in exactly one place and every future to its own outcome |
| `CommandQueue.JobsAreConserved` | custom_components/dess_monitor_local/api/commands/direct_command_queue.py:88-101 | Over any run from a consistent queue each job is queued, running, completed or lost, and never in two places; a completed job has told its caller its own outcome unless the caller had given up; at most one job is lost, by the end of the worker |
| `CommandQueue.ReachableQueue` | custom_components/dess_monitor_local/api/commands/direct_command_queue.py:53-101 | In every state reached from the empty queue the above and the order below hold, and until the worker ends submitted equals completed plus running plus queued |
| `CommandQueue.UserWaitsOnlyForEarlierUsers` | custom_components/dess_monitor_local/api/commands/direct_command_queue.py:76-90 | In any run from the empty queue, while a command of priority 0 is queued, each job that starts is one of priority 0 submitted before it, and each such start shortens that list by one: no poll, of priority 1, starts |
| `CommandQueue.CallerGetsItsOutcome` | custom_components/dess_monitor_local/api/commands/direct_command_queue.py:76-99 | In any run from the empty queue, a caller that does not give up has the outcome of its own job when that is complete, and waits until then |
| `CommandQueue.EndIsForGood` | custom_components/dess_monitor_local/api/commands/direct_command_queue.py:67-74 | The worker may end in any state: the running job is lost, no caller is told anything, and no job starts any more |
| `CommandQueue.StartedInOrder` | custom_components/dess_monitor_local/api/commands/direct_command_queue.py:85-90 | On every run from a consistent queue, the started jobs of each priority are the first of its submissions, in order of submission |
| `TransportBus.QueueRegistry.EnsureQueue` | custom_components/dess_monitor_local/api/commands/direct_command_queue.py:127-138 | The registry after ensuring: a queue for the key, one more use if the entry did not own it |
| `TransportBus.QueueRegistry.GiveUp` | custom_components/dess_monitor_local/api/commands/direct_command_queue.py:144-151 | One use less, or the key and its queue removed with the last use |
| `TransportBus.NextKeepsBusOk` | custom_components/dess_monitor_local/api/commands/direct_command_queue.py:127-151 | Each step, also between the keys of a release and while a stopped worker still runs, keeps counts equal to owners and at most one live worker per key |
| `TransportBus.QueuesFollowOwners` | custom_components/dess_monitor_local/api/commands/direct_command_queue.py:104-151 | Outside a release, a key has a queue if and only if some entry owns it, its count is the number of owners, and the worker of the queue is alive |
| `TransportBus.OverlapNeedsBypass` | custom_components/dess_monitor_local/api/commands/direct_command_queue.py:166-200 | Over any run, across entries and while queues are stopped and created anew, two I/Os overlap on a transport other than EyBond only if one is that of a user command in concurrent-writes mode for a tcp, pi18, modbus or agent URI |
| `TransportBus.RunsBesideIff` | custom_components/dess_monitor_local/api/commands/direct_command_queue.py:191-200 | A request runs beside the queues if and only if it is for an EyBond dongle, or is such a user command; every other request is queued |
| `TransportBus.CallersAreUsers` | custom_components/dess_monitor_local/api/commands/direct_command_queue.py:191-200 | In every reachable state each I/O of a caller is one of these |
| `TransportBus.SerialIsExclusive` | custom_components/dess_monitor_local/api/commands/direct_command_queue.py:166-200 | In every mode, I/O on a serial line, or on anything that is neither EyBond nor a socket, is one at a time |
| `TransportBus.StoppedForGood` | custom_components/dess_monitor_local/api/commands/direct_command_queue.py:63-74 | A worker that was stopped never does I/O again |
| `TransportBus.StartsAtMostOnce` | custom_components/dess_monitor_local/api/commands/direct_command_queue.py:88-101 | Over any run no job starts twice, on its queue or beside it |
| `TransportBus.SerializedIsExclusive` | custom_components/dess_monitor_local/api/commands/direct_command_queue.py:166-200 | In serialized mode at most one I/O at a time is in progress on such a transport |
| `TransportBus.BypassOverlaps` | custom_components/dess_monitor_local/api/commands/direct_command_queue.py:191-196 | In concurrent-writes mode such an overlap is reachable |
| `TransportBus.JobsStayOnTheirTransport` | custom_components/dess_monitor_local/api/commands/direct_command_queue.py:123-125 | A worker only ever runs jobs whose transport key is its own |
| `TransportBus.SharedQueues` | custom_components/dess_monitor_local/api/commands/direct_command_queue.py:24-45 | TCP URIs share a key if and only if the schemes are the same and the endpoints are, up to case; a serial URL shares the key of a non-empty bare path if and only if that text is its path part, and with another serial URL if and only if the path parts are the same and, when empty, the whole URLs |
| `TransportBus.BridgeOverlapNeedsTwoProtocols` | custom_components/dess_monitor_local/api/commands/direct_command_queue.py:24-45 | In serialized mode two I/Os overlap on one TCP endpoint, up to case, only if their schemes differ |
| `TransportBus.DifferentKeysOverlap` | custom_components/dess_monitor_local/api/commands/direct_command_queue.py:104-138 | And whenever two URIs other than EyBond have different keys, a run in serialized mode overlaps their I/Os |
| `TransportBus.BridgeHasTwoQueues` | custom_components/dess_monitor_local/api/commands/direct_command_queue.py:24-45 | So a tcp and a pi18 URI of any one endpoint are in use at once |
| `TransportBus.WindowsPortHasTwoQueues` | custom_components/dess_monitor_local/api/commands/direct_command_queue.py:24-45 | So are a Windows port by its bare name and by its URL, where the name is not the path part |
| `SocEstimator.SocEstimator.SwitchMode` | custom_components/dess_monitor_local/soc_core.py:78-85 | An actual change restarts the debounce; an unknown mode is ignored |
| `SocEstimator.SocEstimator.ChangeCapacity` | custom_components/dess_monitor_local/soc_core.py:92-126 | The new charge and percentage for a first, a later and an absent capacity |
| `SocEstimator.SocEstimator.Accumulate` | custom_components/dess_monitor_local/soc_core.py:188-215 | The trapezoid since the previous tick and the new baseline, or the deadband |
| `SocEstimator.SocEstimator.Debounce` | custom_components/dess_monitor_local/soc_core.py:217-232 | The counter after a tick |
| `SocEstimator.SocEstimator.Advance` | custom_components/dess_monitor_local/soc_core.py:143-246 | The whole new state after a tick on every path: unconfigured, BMS mirror, no sync voltage, integrated |
| `SocRuns.EveryRunIsSound` | custom_components/dess_monitor_local/soc_core.py:92-126 | In every state that a new estimator reaches by ticks, edits, mode changes and restores before configuration, with percentages given in range: charge stays within 0 and capacity, and any reported percentage within 0 to 100 and 0.005 of that of the charge |
| `SocRuns.RestoreIsSoundIff` | custom_components/dess_monitor_local/soc_core.py:104-112 | After a restore and the first capacity this holds if and only if the restored percentage is absent or in range |
| `SocRuns.SecondEditWins` | custom_components/dess_monitor_local/soc_core.py:113-126 | Two positive edits leave the charge of the second alone, and the percentage that an edit publishes |
| `SocRuns.EditsCollapse` | custom_components/dess_monitor_local/soc_core.py:113-126 | Any sequence of positive edits of a known capacity has the effect of its last edit alone |
| `SocRuns.FirstEditsCollapseIff` | custom_components/dess_monitor_local/soc_core.py:104-126 | From an unknown capacity that holds if and only if the held percentage is absent, or in range and rounded |
| `SocRuns.MoveMovesTicks` | custom_components/dess_monitor_local/soc_core.py:227-232 | Which ticks and edits count up, count down, restart or leave the debounce |
| `SocRuns.TicksAreReflectedWalk` | custom_components/dess_monitor_local/soc_core.py:227-232 | Over any run the counter has reached k if and only if some final stretch without a reset climbs by k |
| `SocRuns.SnapsExactly` | custom_components/dess_monitor_local/soc_core.py:217-246 | 100% is forced if and only if, since the last heavy discharge, BMS reading or mode change, some final stretch holds at least three more qualifying than other ticks; otherwise the charge is the clamped integral |
| `SocRuns.HeavyUndoesWindUp` | custom_components/dess_monitor_local/soc_core.py:229-230 | One tick of heavy discharge clears any counter, and the snap must then be earned anew |
| `SocRuns.StampsExactly` | custom_components/dess_monitor_local/soc_core.py:234-238 | The time of the last sync is set if and only if a tick crosses the threshold or counts down from 4, where the documentation promises the crossing only |
| `SocRuns.StampMovesWithoutCrossing` | custom_components/dess_monitor_local/soc_core.py:237-238 | For any two times a run from a new estimator with the first as time of the last sync, and one more tick that moves it to the second while 100% is reported before and after |
| `SocLedger.EveryChargeIsLedgered` | custom_components/dess_monitor_local/soc_core.py:188-246 | After any history of a new estimator, over any stretch without BMS ticks, capacity edits or restores: final charge is initial charge plus the trapezoids over adjacent measurements after losses, plus what the snap added and the lower limit kept, minus what the upper limit cut off |
| `SocLedger.TickIsLedgered` | custom_components/dess_monitor_local/soc_core.py:207-246 | The same for one tick |
| `SocLedger.EveryGainIsBounded` | custom_components/dess_monitor_local/soc_core.py:41-45 | Over such a stretch with no snap credit and no cut below empty, the gain is at most the integral of the measured current |
| `SocFigures.CounterExactly` | custom_components/dess_monitor_local/soc_core.py:217-246 | A counted tick counts up if and only if the voltage has reached the sync voltage or a positive float voltage and the current is within 0.05 of the capacity either way (0.02 for lead-acid), starts over below that, and otherwise counts down; from 3 on 100% is reported and the charge is the capacity |
| `SocFigures.ThreeTicksAreFull` | custom_components/dess_monitor_local/soc_core.py:217-246 | Three such ticks in a row report 100% from any state |
| `SocFigures.TickAdds` | custom_components/dess_monitor_local/soc_core.py:188-215 | After a counted tick, both outside the deadband: the hours between them times the mean of the two currents, less 1% when charging (lead-acid 10%, BMS none) and 1/0.95 when discharging lead-acid, limited to what the battery holds |
| `SocFigures.DeadbandAddsNothing` | custom_components/dess_monitor_local/soc_core.py:190-215 | A tick in the deadband adds nothing, and neither does the one after it |
| `SocFigures.DeadbandExactly` | custom_components/dess_monitor_local/soc_core.py:87-90 | By default the deadband applies within 0.5 V of the float voltage and up to 1.5 A; later as set last, with negative figures as zero |
| `SocFigures.BmsIsMirrored` | custom_components/dess_monitor_local/soc_core.py:173-181 | In BMS mode the percentage of the BMS is reported, the charge is that part of the capacity, and the debounce starts over |
| `SocFigures.UnknownIsNotReported` | custom_components/dess_monitor_local/soc_core.py:166-186 | Without a capacity or a sync voltage nothing is reported and nothing else changes |
| `SocFigures.RestartResumes` | custom_components/dess_monitor_local/soc_core.py:104-139 | After a restart the restored percentage decides the charge when the capacity becomes known, the first tick adds nothing, and the time of the last sync stays |
| `SocFigures.RestoreIsTaken` | custom_components/dess_monitor_local/soc_core.py:128-139 | State restored while the capacity is known is taken as it is |
| `SocFigures.ReportsAreNear` | custom_components/dess_monitor_local/soc_core.py:233-246 | Over any run from a new estimator a report is within 0.005 of the percentage of the charge |
| `Coordinator.AcceptableReplies` | custom_components/dess_monitor_local/coordinators/direct_coordinator.py:46-63 | A reply passes all tests if and only if it is a non-empty section without error or NAK status and, for QPIGS, plausible |
| `Coordinator.AcceptsExactly` | custom_components/dess_monitor_local/coordinators/direct_coordinator.py:165-189 | A reply to a poll or a forced read is accepted if and only if it is a non-empty section without a field error, without a status NAK, and for QPIGS with a battery voltage that spells no number or one from 10 to 120, and currents likewise from 0 to 300 |
| `Coordinator.NaksAreCounted` | custom_components/dess_monitor_local/coordinators/direct_coordinator.py:46-63 | A reply whose status is NAK, or whose error text holds the three letters in a row, is never accepted; unless suppressed already it counts as one NAK, of which the second suppresses; no other reply counts as one |
| `Coordinator.FailureTracker.OnSuccess` | custom_components/dess_monitor_local/coordinators/failure_tracker.py:42-43 | The one counter is cleared and no other changes |
| `Coordinator.FailureTracker.OnFailure` | custom_components/dess_monitor_local/coordinators/failure_tracker.py:45-49 | The one counter grows by one, is returned, and no other changes |
| `Coordinator.DirectCoordinator.CountNak` | custom_components/dess_monitor_local/coordinators/direct_coordinator.py:146-160 | The NAK count and the suppression of one command of one device, and of no other |
| `Coordinator.DirectCoordinator.AcceptResult` | custom_components/dess_monitor_local/coordinators/direct_coordinator.py:165-189 | The judgement of a reply and its effect on that pair alone |
| `Coordinator.DirectCoordinator.JudgeReply` | custom_components/dess_monitor_local/coordinators/direct_coordinator.py:325-339 | The same within a poll, where a NAK may suppress the command |
| `Coordinator.DirectCoordinator.FetchWithRetry` | custom_components/dess_monitor_local/coordinators/direct_coordinator.py:293-356 | The retry loop comes to the pair and section of the policy function, and leaves every other pair alone |
| `CoordinatorLife.PublishedIsAccepted` | custom_components/dess_monitor_local/coordinators/direct_coordinator.py:391-405 | In every state that one command of one device reaches, timeouts included, the published section is empty, or is one that a reply has brought, with no field error, no status NAK and, for QPIGS, voltage and currents within their bounds |
| `CoordinatorLife.NakCost` | custom_components/dess_monitor_local/coordinators/direct_coordinator.py:146-160 | A command whose every polled reply is a NAK, over its whole life: at most two replies are judged, plus one for each accepted forced read; every transaction started is judged, cut off by a timeout or under way; so at most two are started, plus one for each cut and for each accepted forced read |
| `CoordinatorLife.NakCostExactly` | custom_components/dess_monitor_local/coordinators/direct_coordinator.py:300-337 | If no forced read is accepted or a NAK: the command is suppressed exactly by its second NAK, and a poll that comes to its end leaves exactly two replies judged |
| `CoordinatorLife.NakCostIsReached` | custom_components/dess_monitor_local/coordinators/direct_coordinator.py:395-405 | The bounds are met for every number of cut transactions and accepted forced reads: a device whose NAKs come after its timeout is asked without limit |
| `CoordinatorHub.SlotRunsAlone` | custom_components/dess_monitor_local/coordinators/direct_coordinator.py:285-418 | Over all devices and commands, with one map of published data that a cycle replaces and forced reads copy and update: every run, seen through one slot, is a run of that slot alone |
| `CoordinatorHub.PublishedIsOwn` | custom_components/dess_monitor_local/coordinators/direct_coordinator.py:248-283 | In every reachable state each published section is empty, or was brought by a reply to the same command of the same device, with no field error, no status NAK and, for QPIGS, voltage and currents within their bounds |
| `CoordinatorHub.NakCostPerSlot` | custom_components/dess_monitor_local/coordinators/direct_coordinator.py:293-356 | The cost of a command that always NAKs holds for each command of each device, whatever the others do |
| `CoordinatorAge.ScheduleExactly` | custom_components/dess_monitor_local/coordinators/direct_coordinator.py:81-93 | QPIGS is due in every cycle, QMOD and QPIGS2 in every second, QPIWS and QFWS in every third, QPIRI in every sixth |
| `CoordinatorLife.UndisturbedPollIsFetch` | custom_components/dess_monitor_local/coordinators/direct_coordinator.py:305-356 | A poll cut at its awaits that nothing interrupts comes to the pair and section of the policy function |
| `CoordinatorLife.FetchHasPollResult` | custom_components/dess_monitor_local/coordinators/direct_coordinator.py:305-356 | A poll accepts, or suppresses and keeps, or counts one failure and keeps or, from the sixth, drops the section |
| `CoordinatorAge.AgeIsBounded` | custom_components/dess_monitor_local/coordinators/direct_coordinator.py:80-93 | From start-up, over any interleaving of cycles, timeouts, failures and forced reads, also inside a cycle: the published section of a command not suppressed is one that was accepted at most 6 * cadence * (T + O + 1) - 1 cycles ago, where T counts the timeouts and failures of due cycles and O the cycles that overwrote an accepted forced read, both since its acceptance; without either, 6 * cadence - 1 |
| `CoordinatorAge.AgeIsReached` | custom_components/dess_monitor_local/coordinators/failure_tracker.py:51-66 | For every T and every O a run whose section has that age, and one more poll without a reply drops it; so neither with T alone nor with O alone is any age the limit |
| `CoordinatorAge.LossesAreCounted` | custom_components/dess_monitor_local/coordinators/direct_coordinator.py:373-405 | T grows by one exactly with a timeout or a failure of a cycle in which the command is due, O exactly with the end of a cycle that publishes an older acceptance than was published |
| `CoordinatorAge.LatestIsPublishedIff` | custom_components/dess_monitor_local/coordinators/direct_coordinator.py:373-405 | Between cycles, the published section is the most recently accepted one if and only if, since an acceptance was last published, no timeout or failure has discarded the last acceptance and no end of a cycle has overwritten it with an older one |
| `CoordinatorAge.ForcedReadIsReverted` | custom_components/dess_monitor_local/coordinators/direct_coordinator.py:248-289 | A forced read that is accepted after the poll of its command, in any cycle, is published at once and replaced by what the cycle had gathered before |
| `CoordinatorAge.SettingsRevert` | custom_components/dess_monitor_local/coordinators/direct_coordinator.py:248-289 | For any two sections a run from start-up, with no cycle cut short, in which a forced read publishes the newer one and the end of the cycle the older one again |
| `CoordinatorAge.DroppedStaysEmpty` | custom_components/dess_monitor_local/coordinators/failure_tracker.py:51-66 | Over any run, a section that is empty between two cycles stays empty until a newer acceptance is published |
| `CoordinatorAge.SuppressedIsFrozen` | custom_components/dess_monitor_local/coordinators/direct_coordinator.py:300-303 | Over any run, with the device always among the targets and no forced read accepted, a suppressed command keeps its section, which ages by one with each cycle, and nothing else about it changes |
| `CoordinatorAge.SectionFreezes` | custom_components/dess_monitor_local/coordinators/direct_coordinator.py:325-337 | It happens: one acceptance and two NAKs in the next poll reach such a state with a section that is not empty |
| `CoordinatorAge.FrozenSectionAges` | custom_components/dess_monitor_local/coordinators/direct_coordinator.py:300-303 | From there the section is one cadence older than the run is long, whatever else happens but an accepted forced read or a missing device |
| `CoordinatorHub.AgeIsBoundedPerSlot` | custom_components/dess_monitor_local/coordinators/direct_coordinator.py:248-405 | The bound on the age holds for each command of each device, over all interleavings of all devices and commands |
| `EnergyCounter.EnergySensor.UpdateEnergyValue` | custom_components/dess_monitor_local/sensors/direct_energy_sensors.py:106-142 | The counter after a sample: the step added, or the integration broken |
| `EnergyCounter.EnergySensor.HandleUpdate` | custom_components/dess_monitor_local/sensors/direct_energy_sensors.py:145-178 | The counter after an update, for each kind of sensor |
| `EnergyCounter.FilterBounds` | custom_components/dess_monitor_local/sensors/direct_energy_sensors.py:301-325 | What a filter lets through is within 50 kW either way, and for the battery sensors from 0 to 36 kW |
| `EnergyCounter.NeverDecreases` | custom_components/dess_monitor_local/sensors/direct_energy_sensors.py:114-119 | Over any run, whatever the clock does, the counter never decreases |
| `EnergyCounter.StepBounds` | custom_components/dess_monitor_local/sanity.py:76-82 | A step between admitted samples never exceeds the ceiling, and for the battery sensors is never negative |
| `EnergyCounter.OnlyNegativeStepsDrop` | custom_components/dess_monitor_local/sensors/direct_energy_sensors.py:114-137 | With a clock that does not go back a sample is dropped if and only if its step is negative |
| `EnergyCounter.EveryTotalIsSum` | custom_components/dess_monitor_local/sensors/direct_energy_sensors.py:106-142 | From the start of a sensor, with a clock that does not go back, the total is the restored one plus the trapezoids over adjacent retained samples; for the battery sensors over all adjacent samples |
| `EnergyCounter.EveryGainIsBounded` | custom_components/dess_monitor_local/sanity.py:19-45 | From the start of a sensor it has gained at most 50 kW times the elapsed time, and 36 kW for the battery sensors |
| `EnergyCounter.TwoReadings` | custom_components/dess_monitor_local/sensors/direct_energy_sensors.py:106-142 | In figures, for any history and clock: a reading after one that was kept adds the mean power times the hours, unless that is negative, or above 100 Wh while the clock went back; then it ends the stretch. The power is the one reported, or current times voltage, where within 50 kW, or for the battery within 0 to 300 A and 10 to 120 V |
| `EnergyCounter.GapsAddNothing` | custom_components/dess_monitor_local/sensors/direct_energy_sensors.py:145-178 | Nothing is added across a sample that cannot be read; a power sensor spans the times at which it has no figure |

## Left out

- EybondManager.Manager.HandleHeartbeat: sessions, requests and futures are known by numbers instead of object identity, PNs and peer addresses by numbers instead of texts; reading the PN out of a heartbeat payload is an input to the step.
- EybondManager.Registry.RecordSeen: leaves out names, protocols and device addresses of records, which the manager does not touch; removal of a record by the user is not a step.
- EybondRuns.IndexAlwaysOk: runs do not include the shutdown of the manager, after which it does not hold (`EybondRuns.ShutdownLeavesRace`).
- EybondManager.Manager.ShouldAnnounce: leaves out the forced window of a user-triggered scan, in which the manager always broadcasts.
- EybondMatching.WithdrawsOnlyItsOwn: is about timeouts and failed writes; a cancelled request takes nothing back.
- CommandQueue.CommandQueue.Next: the heap and the wake-ups of the asyncio queue are taken by their contract, the least item by priority and number; priorities are those of users and polls.
- CommandQueue.JobsAreConserved: jobs still queued when the worker ends stay queued, and their callers wait; restarting a stopped queue, which the registry never does, is not a step.
- TransportBus.SerializedIsExclusive: URIs come parsed, with schemes in lower case and hosts and paths known by numbers; the order in which a worker picks its jobs is that of `CommandQueue` and is left open here.
- Frames.AcceptsEveryVariant: there is no error-detection theorem for the PI30 validator, which accepts six checksums.
- Frames.SplitRecoversRequests: command texts are bytes already, and so is every text on a wire.
- ModbusRtu.BuildReadHoldingFrame: start, count and unit are words and bytes already; the program masks wider integers to these.
- ModbusRtu.ReadBlock: connections, timeouts of single reads and closing are left out; a stream that ends early stands for all of them.
- EyFrame.ReadFrames: the stream is read up to its end; what a handler does with each frame is in `EybondRuns`.
- SocRuns.EveryRunIsSound: real numbers stand for floats, and rounding is to the nearest hundredth with ties upwards, where the program rounds binary ties to even.
- SocEstimator.SocEstimator.Advance: the integrator and the debounce are methods of their own here; deadband edits and restores are functions without a method.
- CoordinatorLife.NakCost: a transaction that is cut off may still go over the wire; what it brings is not judged.
- CoordinatorHub.SlotRunsAlone: the order in which a cycle reaches the commands of a device is left open, and forced reads of a device that is no target are allowed.
- CoordinatorHub.NakCostPerSlot: cycles of one coordinator do not overlap; whether publishing a forced read can schedule a refresh while a long cycle still runs is decided in Home Assistant, and with two polls of one command at once the bound on judged replies would not hold.
- Coordinator.AcceptableReplies: the number that a text field spells is an input, and NaN is not among the numbers.
- EnergyCounter.EnergySensor.HandleUpdate: whether the raw fields spell numbers is an input; NaN samples are rejected before.
- Home Assistant entities, configuration flows, restoring of states, diagnostics and logging: plumbing around what is modelled.
- Decoders of single responses and the building and acknowledging of Modbus writes: table look-ups and one-line frames, which would add easy members only.
- Sockets, serial ports, broadcasting, address detection and the parsing of URIs: inputs to the steps.
