# Wi-Fi low-power assistant: a verified model

The repository is host-side C that drives a Wi-Fi chip while the host sleeps: it builds keepalive packets for the
radio to send, compiles packet filters for the radio to apply, suspends and resumes the TCP/IP stack, and manages
the list of offloads. This project models that logic in Dafny and proves what it guarantees. Dafny's verifier checks
all of it with `dafny verify dfyconfig.toml`; nothing here is executed.

## How the model is built

- The host is little-endian: the TCP builder stores a field natively (source/cy_whd_tko_api.c:504).
- Code that updates buffers, globals or structures in place is modelled by classes and methods over arrays and
  fields; each method is tied by its contract to a specification function, and the theorems are lemmas about those
  functions. Byte arithmetic uses integers with explicit wrap-around (`Words.dfy`); masks and filters use bit vectors.
- The driver is modelled state: the installed and enabled filters, the pm2_sleep_ret register, the ARP feature mask
  and host-address list. The IP stack, clocks, link state and the results of offload functions are parameters.

| file | subject |
|---|---|
| `Wrappers.dfy`, `Words.dfy`, `Checksum.dfy` | optional values; fixed-width integers; the Internet checksum as mathematics, with the RFC 1071 reference definition |
| `LpaCommon.dfy` | the checksum routines of `cy_lpa_common.c`, over arrays |
| `Frames.dfy`, `Receiver.dfy` | header layouts; a receiving host written from RFC 791, RFC 9293 and RFC 768 |
| `TcpKeepalive.dfy`, `NatKeepalive.dfy` | the two packet builders, end to end: a receiver accepts the bytes written |
| `PortMask.dfy`, `PacketFilter.dfy`, `PacketFilterOffload.dfy` | port blocks, the filter compiler, the filter offload |
| `InactivityWait.dfy` | the inactivity wait against its specification |
| `SuspendProtocol.dfy` | suspend/resume as steps interleaved with arrivals, activity, the TCP/IP thread and another user of `cylpa_suspend_ns` |
| `SuspendTraffic.dfy`, `SuspendTheorems.dfy`, `SuspendRuns.dfy` | the packets; what holds over every run; runs that show what cannot be promised |
| `NetworkActivity.dfy` | the same code statement by statement; every moment is shown to be a protocol state |
| `OffloadManager.dfy`, `KeepaliveTable.dfy` | start-up with rollback, dispatch, the saved register; the connection table |
| `WakePattern.dfy`, `ArpTracker.dfy` | hex decoding with in-place bit reversal; the ARP address tracker |

## Where the code differs from what it promises

Each of these is a lemma giving the exact condition, or a contract that states what the code does.

- A port filter whose range is not less than its port is documented to fall back to the port alone
  (include/cy_lpa_wifi_pf_ol.h:98-103). The code never tests that and matches portnum .. 2*portnum - 1:
  `DocumentedIffNotOverwide` holds if and only if the block is not wider than its first port. Port 256 with range 1023
  matches port 300, for example (`OverwideExample`).
- Protocol and port filters look at fixed offsets. `ExactIffPlain`: for every version, header length, fragment offset and
  total length, a filter means its description on all such frames if and only if it is an ethertype filter, or a
  protocol filter and the header is valid, or a port filter and the header is plain: valid, 20 bytes long, not of a
  later fragment, and followed by ports. `OptionsMissed`, `PayloadMatched` and `InvalidMatched` give the frames.
- A TCP checksum that happens to equal the in-band error value 0xfffe makes a correctly built packet be reported as an
  error. The test for the response packet tests the request's length again (source/cy_whd_tko_api.c:559), and when the
  request is reported the caller's sequence number stays decremented. `ConnectLenCorrect` gives both conditions;
  `EveryConnectionCanFail` shows that no connection is immune.
- The inactivity wait compares a 32-bit clock difference: `MeetsSpecIffNoWrap` holds if and only if interval + window
  is at most 2^32 + 1.
- The header asks for a window of inactivity in the interval (helpers/net_activity/network_activity_handler.h:134-135);
  the code tests only that the window begins before the interval is over. `PromiseKeptIff`: the two agree if and only if
  the first quiet gap does not straddle the end of the interval. `PromiseIffShortWindow`: they agree on every activity
  pattern if and only if the window is at most one millisecond; for every longer one `PromiseBroken` gives a pattern.
- Packets accepted into the queue are offered to the stack in arrival order on every run (`QueuedInArrivalOrder`). One
  that arrives between deregistering the callback and the end of the drain, while others are queued, overtakes them:
  `InOrderIffNoOvertaking` and `OvertakingHappens`.
- A call of `wait_net_suspend` that finds the stack suspended by someone else returns with the RX queue callback
  registered. `CallbackLeftIff` holds on every run, with another thread suspending and resuming the stack at any
  moment: between calls the callback is registered if and only if the last test of the suspended flag found it set.
  `CallbackIsLeft` is a run after which packets are queued although the stack runs and nobody drains the queue.
- Testing the suspended flag and taking the core lock are two statements, and so are releasing the lock and clearing the
  flag. The flag tells who has the lock as long as there is a single caller (`SuspendSafety`); `SingleCallerNeeded` is a
  run with two users after which a call has returned and the core lock is held for good. `LockLeftIff` holds on every
  run: that happens if and only if some call, about to release the lock, found the flag clear. `CleanReturnIff` puts the
  two conditions together.
- A wake pattern shorter than its "0x", or an empty mask, has its size wrap to 255 and overruns the static arrays:
  `OverrunIffShort` is exact for all strings that fit the configuration's fields, `EmptyOverruns` gives the input. After a
  failed activation source/cy_lpa_wifi_wowlpf_ol.c:244-249 passes the pattern of the list's terminator, which is such a
  string when it is zero-initialised.
- Sleep dispatches without an awake one in between lose the saved register value, and an awake dispatch that no sleep
  dispatch preceded writes the initial 0 of the saved value (`DoubleSleepLoses`, `AwakeFirstWritesInitial`).
- `cylpa_tko_ol_update_config` returns RESULT_OK for refused arguments; the table keeps the most recent connections by
  replacing the oldest, although include/cy_lpa_wifi_ol_common.h:1766-1768 speaks of last-in first-out.
- With equal awake and sleep masks the ARP offload is switched off by the first change of power state
  (`FeaturesFollowPowerState`). A start without a radio interface reports success and leaves the offload uninitialized
  (`StartConfiguresIff`).

## Model

| member | source | states |
|---|---|---|
| Checksum.OnesSumIsCanon | source/cy_lpa_common.c:200-232 | the plain sum of network-order words, brought to canonical form, is the one's-complement sum of section 1 of RFC 1071, for every byte string |
| Checksum.FoldKeepsCanon | source/cy_lpa_common.c:226-232 | one round of the loop fold keeps the one's-complement value and shrinks every sum wider than 16 bits, so the loop ends |
| Checksum.FoldTwiceIsCanon | source/cy_lpa_common.c:103-106 | two rounds suffice for every 32-bit sum |
| Checksum.SumsBounded | source/cy_lpa_common.c:91-101 | for buffers of 16-bit length neither running sum leaves 31 bits |
| Checksum.ByteOrderIndependence | source/cy_lpa_common.c:82-107 | summing in host order gives the byte-swapped network-order sum, the representation of zero included (section 2(B) of RFC 1071) |
| Checksum.ImplementationsAgree | source/cy_lpa_common.c:82-232 | the two implementations agree up to a byte swap on every buffer of up to 65535 bytes, odd lengths included, and both are the complement of the RFC 1071 sum |
| Words.Le32Digits | source/cy_whd_tko_api.c:481-482 | a native copy of a 32-bit value has its base-256 digits, lowest first |
| LpaCommon.IpCksumPartial | source/cy_lpa_common.c:56-73 | the running sum plus the host-order sum of the buffer modulo 2^32; the error value for NULL and odd lengths |
| LpaCommon.IpCksum | source/cy_lpa_common.c:82-107 | the complement of the canonical sum of running sum and buffer, odd last byte included |
| LpaCommon.TcpHdrChksum | source/cy_lpa_common.c:116-131 | the checksum of the segment without its checksum field; the error value for short lengths |
| LpaCommon.Ipv4HdrCksum | source/cy_lpa_common.c:142-158 | the checksum of the header without its checksum field; the error value for NULL and short lengths |
| LpaCommon.Ipv4TcpHdrCksum | source/cy_lpa_common.c:169-191 | the checksum over the pseudo-header of RFC 9293, whatever the static pseudo-header held before, and the segment without its checksum field |
| LpaCommon.SkippingIsZeroing | source/cy_lpa_common.c:125-130 | skipping an aligned checksum field gives what summing with the field zero gives |
| LpaCommon.ChecksumAdd | source/cy_lpa_common.c:200-217 | the exact network-order sum, without overflow |
| LpaCommon.ChecksumFinish | source/cy_lpa_common.c:226-232 | the folding loop ends with the complement of the canonical value, the same value as the two-step fold |
| LpaCommon.UdpCksum | source/cy_lpa_common.c:241-263 | the UDP checksum over addresses, protocol, length and datagram, with 0xffff for zero |
| Receiver.NativeFieldVerifies | source/cy_lpa_common.c:125-130 | a checksum computed by skipping its field and stored natively verifies in network order |
| Receiver.NetworkFieldVerifies | source/cy_lpa_common.c:241-263 | the same for a network-order store, with 0xffff allowed for zero |
| Frames.WriteIpv4 | source/cy_whd_tko_api.c:485-499 | the twenty bytes of the checked IPv4 header whatever the buffer held, and nothing else changed |
| Receiver.FrameAccepted | source/cy_whd_tko_api.c:475-499 | a frame with such a header and a payload of the announced length is accepted, every field intact |
| TcpKeepalive.PrepPacket | source/cy_whd_tko_api.c:454-517 | writes exactly the keepalive frame of the connection, and reports its length, or the error value exactly when the checksum equals it |
| TcpKeepalive.PacketAccepted | source/cy_whd_tko_api.c:454-517 | a receiver that verifies both checksums accepts the frame of every connection as a bare acknowledgement between that connection's ends, with its ports, numbers and window |
| TcpKeepalive.RecordAccepted | source/cy_whd_tko_api.c:454-517 | the same of the caller's record, field by field |
| TcpKeepalive.ConnectInit | source/cy_whd_tko_api.c:519-567 | the whole command: addresses, request, response, lengths; the caller's sequence number restored, except when the request is reported as an error |
| TcpKeepalive.PairAccepted | source/cy_whd_tko_api.c:540-564 | both packets of a command are accepted, the request's sequence number is the response's less one modulo 2^32, and the two addresses in front are the source and the destination of both |
| TcpKeepalive.PairDiffersOnlyInSequence | source/cy_whd_tko_api.c:540-558 | the two packets agree in every byte outside sequence number and TCP checksum, and the sequence numbers differ |
| TcpKeepalive.ConnectLenCorrect | source/cy_whd_tko_api.c:508-564 | the command length is right exactly when neither packet's checksum is 0xfffe, and the sequence number is restored exactly when the request's is not |
| TcpKeepalive.EveryConnectionCanFail | source/cy_whd_tko_api.c:508-512 | for every connection some receive window makes its checksum the reserved value |
| NatKeepalive.ClampPayload | source/cy_lpa_wifi_nko_ol.c:206-214 | the part of the configured payload that is sent: all of it up to 127 bytes |
| NatKeepalive.ClampKeepsText | source/cy_lpa_wifi_nko_ol.c:206-214 | a payload is sent whole exactly when it has at most 127 bytes, as every one that fits its field does |
| NatKeepalive.PrepPacket | source/cy_lpa_wifi_nko_ol.c:233-294 | writes exactly the keepalive frame whatever the buffer held, and nothing behind it |
| NatKeepalive.UdpPartVerifies | source/cy_lpa_wifi_nko_ol.c:267-286 | the UDP checksum verifies over the pseudo-header and is never zero |
| NatKeepalive.PacketAccepted | source/cy_lpa_wifi_nko_ol.c:233-294 | for every payload of up to 127 bytes a receiver that checks both checksums and both lengths accepts the frame and delivers the payload |
| NatKeepalive.Configure | source/cy_lpa_wifi_nko_ol.c:340-378 | the bytes handed to the radio are delivered by a receiver as a datagram between the configured ends, Ethernet addresses included, with the configured payload, whole up to 127 bytes; a failed lookup is reported and nothing is sent; a failing driver call is reported |
| PortMask.Bitwidth | source/cy_lpa_wifi_pf_ol.c:670-681 | the position of the highest set bit, -1 for zero |
| PortMask.RangeMask | source/cy_lpa_wifi_pf_ol.c:635-667 | the xor, or and sign-extension trick yields the complement of the block's extent |
| PortMask.AcceptsExactly | source/cy_lpa_wifi_pf_ol.c:130-142 | for every port and range the ports matched are exactly portnum .. portnum + min(range, portnum - 1) for a block, portnum alone otherwise |
| PortMask.AcceptsAsked | source/cy_lpa_wifi_pf_ol.c:130-142 | the same with the block written out from port and range |
| PortMask.IsPowerMeans | include/cy_lpa_wifi_pf_ol.h:160 | the guard's test holds exactly for powers of two |
| PortMask.BlockDoesNotWrap | source/cy_lpa_wifi_pf_ol.c:635-659 | the block never runs past port 65535 |
| PortMask.DocumentedIffNotOverwide | include/cy_lpa_wifi_pf_ol.h:98-103 | the code matches the documented set exactly when the block is not wider than its first port |
| PacketFilter.SplitHit | source/cy_lpa_wifi_pf_ol.c:539-575 | matching two network-order bytes is matching the 16-bit field |
| PacketFilter.PortFilterMatches | source/cy_lpa_wifi_pf_ol.c:495-588 | what a compiled port filter tests on any frame at all: fixed offsets |
| PacketFilter.CompilationPreservesMeaning | source/cy_lpa_wifi_pf_ol.c:375-588 | for every description and every frame, the header valid for protocol filters and plain for port filters, bytewise matching succeeds exactly when ethertype, protocol and ports satisfy the description |
| PacketFilter.ActionMeans | source/cy_lpa_wifi_pf_ol.c:347-356 | the device passes a frame up exactly when the description describes it and keeps, or does not describe it and discards |
| PacketFilter.OptionsMissed | source/cy_lpa_wifi_pf_ol.c:568-575 | for every longer header, every port filter misses some frame that satisfies its description |
| PacketFilter.PayloadMatched | source/cy_lpa_wifi_pf_ol.c:568-575 | for every header that no ports follow, later fragments and other versions among them, every port filter matches some frame that does not satisfy its description |
| PacketFilter.InvalidMatched | source/cy_lpa_wifi_pf_ol.c:404-408 | for every invalid header, every protocol filter matches some frame that does not satisfy its description |
| PacketFilter.ExactIffPlain | source/cy_lpa_wifi_pf_ol.c:375-588 | for every version, header length, fragment offset and total length, meaning is preserved on all such frames exactly when the header is plain for a port filter, valid for a protocol filter, anything for an ethertype filter |
| PacketFilterOffload.PfOl.CreateFilter | source/cy_lpa_wifi_pf_ol.c:121-160 | the device receives the compiled description although all builders share two buffers |
| PacketFilterOffload.PfOl.Init | source/cy_lpa_wifi_pf_ol.c:112-185 | all filters installed in list order, the wake filters enabled |
| PacketFilterOffload.PfOl.Pm | source/cy_lpa_wifi_pf_ol.c:231-311 | the enabled set after a notification; installed filters unchanged |
| PacketFilterOffload.PfOl.Deinit | source/cy_lpa_wifi_pf_ol.c:197-216 | removes the listed ids and no others |
| PacketFilterOffload.InstalledIsCompiled | source/cy_lpa_wifi_pf_ol.c:319-320 | history independence: for lists with unique ids each installed filter is compiled from its own description, whatever kinds were built before and after it |
| PacketFilterOffload.InstalledMeans | source/cy_lpa_wifi_pf_ol.c:121-160 | each installed filter matches a frame exactly when its description describes it, and passes it up exactly as its keep or discard bit says |
| PacketFilterOffload.DeinitUndoesInit | source/cy_lpa_wifi_pf_ol.c:112-216 | start-up followed by de-initialization leaves exactly the filters of other owners |
| PacketFilterOffload.PmTracks | source/cy_lpa_wifi_pf_ol.c:231-311 | a notification moves the enabled set from that of the old state to that of the new one, always-on and never-on filters included, and leaves those of other owners |
| PacketFilterOffload.EnabledTracksPowerState | source/cy_lpa_wifi_pf_ol.c:112-311 | after start-up and any series of notifications the configured filters enabled are exactly those whose bit for the current state is set, and those of other owners stay enabled |
| PacketFilterOffload.EnabledIff | source/cy_lpa_wifi_pf_ol.c:112-311 | the same for one filter: enabled exactly when the bit of its description for the last state is set |
| InactivityWait.WaitNetInactivity | helpers/net_activity/network_activity_handler.c:521-602 | bad arguments unless interval > window; otherwise the outcome of the wait loop on any activity |
| InactivityWait.LoopIsSpec | helpers/net_activity/network_activity_handler.c:551-594 | from every iteration on, the loop finds the first quiet gap or the first late activity |
| InactivityWait.WaitIsInactivity | helpers/net_activity/network_activity_handler.c:521-602 | success exactly when a gap of the window begins at the call or at an activity strictly before start + interval and every earlier gap is shorter, timeout otherwise, always before start + interval + window |
| InactivityWait.MeetsSpecIffNoWrap | helpers/net_activity/network_activity_handler.c:583-593 | the wait does what its loop is for, on every activity pattern, exactly when interval + window <= 2^32 + 1 |
| InactivityWait.PromiseKeptIff | helpers/net_activity/network_activity_handler.h:126-135 | the header's promise, a whole window of inactivity inside the interval, is decided rightly exactly when the first quiet gap does not straddle the end of the interval |
| InactivityWait.PromiseBroken | helpers/net_activity/network_activity_handler.c:551-594 | for every window of at least two milliseconds a pattern on which the wait succeeds with no such window |
| InactivityWait.PromiseIffShortWindow | helpers/net_activity/network_activity_handler.h:126-135 | the promise is kept on every activity pattern exactly for windows of at most one millisecond |
| SuspendProtocol.ControlInvKept | helpers/net_activity/network_activity_handler.c:604-757 | every step of every thread keeps what the caller's position says of the deep-sleep lock, the offloads and the callback |
| SuspendProtocol.AloneInvKept | helpers/net_activity/network_activity_handler.c:341-506 | with a single caller every step keeps what its position says of the suspended flag, the core lock and the callback |
| SuspendTraffic.TrafficInvKept | helpers/net_activity/network_activity_handler.c:268-310 | every step of every thread keeps the queue's bound and order, and the record of overtaking |
| SuspendTraffic.FateOfPackets | helpers/net_activity/network_activity_handler.c:268-308 | each step gives to the stack exactly the packet it accepts and releases exactly the one it refuses or that finds the queue full |
| SuspendTheorems.InvKept | helpers/net_activity/network_activity_handler.c:604-757 | every step of every thread keeps all of this together |
| SuspendTheorems.DeepSleepBalanced | helpers/net_activity/network_activity_handler.c:639-755 | at every moment of every run, whatever other threads do, the deep-sleep lock is balanced and dropped only with the core lock held, arrivals queued and offloads asleep, and a return leaves the mutex released |
| SuspendTheorems.SuspendSafety | helpers/net_activity/network_activity_handler.c:604-757 | at every moment of every run with a single caller: suspended flag iff core lock, deep sleep only with the stack suspended, and each return leaves the stack running, the callback cleared and the queue empty |
| SuspendTheorems.PacketsConserved | helpers/net_activity/network_activity_handler.c:268-310 | on every run every packet is queued, in hand, given to the stack or released, exactly once; at most 20 are queued |
| SuspendTheorems.QueuedInArrivalOrder | helpers/net_activity/network_activity_handler.c:268-310 | on every run packets enter the queue in arrival order and are offered to the stack out of it in that order, none left out |
| SuspendTheorems.InOrderIffNoOvertaking | helpers/net_activity/network_activity_handler.c:742-743 | on return the stack was offered packets in arrival order exactly when none overtook the queue during the drain |
| SuspendTheorems.CallbackLeftIff | helpers/net_activity/network_activity_handler.c:652-658 | over every run, other threads suspending the stack or not, between calls the callback is registered exactly when the last test of the suspended flag found it set, and only then packets stay queued |
| SuspendTheorems.LockLeftIff | helpers/net_activity/network_activity_handler.c:419-503 | over every run, other threads suspending the stack or not, a return leaves the core lock held exactly when some call found the flag clear before releasing it, and then it stays held |
| SuspendTheorems.CleanReturnIff | helpers/net_activity/network_activity_handler.c:604-757 | over every run a return leaves lock released, callback cleared and queue empty exactly when neither test of the flag went wrong |
| SuspendTheorems.CallerNeverStuck | helpers/net_activity/network_activity_handler.c:604-757 | a single caller can always go on, except while the stack owns the core lock, which it can release |
| SuspendTheorems.DrainEnds | helpers/net_activity/network_activity_handler.c:287-308 | no other thread adds to the drain loop's work, and each of its statements reduces it or ends it with nothing waiting |
| SuspendTheorems.CallBounded | helpers/net_activity/network_activity_handler.c:604-757 | over every run the caller executes at most 62 statements in a call, the drain loop included, and has returned after as many |
| SuspendTheorems.ActivityNotLost | helpers/net_activity/network_activity_handler.c:666-684 | activity after the flags are cleared, even before the wait begins, ends the wait |
| SuspendRuns.OvertakingHappens | helpers/net_activity/network_activity_handler.c:742-743 | a complete run in which a later packet is offered first |
| SuspendRuns.CallbackIsLeft | helpers/net_activity/network_activity_handler.c:652-658 | a run that ends with the stack running, the callback registered and a packet queued |
| SuspendRuns.SingleCallerNeeded | helpers/net_activity/network_activity_handler.c:341-506 | a run with two users of the suspended flag that breaks its safety, and its end: the call has returned and the core lock is held |
| NetworkActivity.Handler.RxActivity | helpers/net_activity/network_activity_handler.c:268-284 | queues the packet, or releases it when 20 are queued; a protocol step |
| NetworkActivity.Handler.OnEmacActivity | helpers/net_activity/network_activity_handler.c:257-264 | sets the flag of the direction and nothing else once the event is valid, nothing before |
| NetworkActivity.Handler.SuspendNs | helpers/net_activity/network_activity_handler.c:341-417 | finding the flag set, a bad state; otherwise the stack is suspended and the core lock held, unless the lock is never released |
| NetworkActivity.Handler.ResumeNs | helpers/net_activity/network_activity_handler.c:419-506 | releases the core lock and clears the flag, or reports a bad state |
| NetworkActivity.Handler.Input | helpers/net_activity/network_activity_handler.c:300-306 | a packet the stack takes is given to it, one it refuses is released, and never both |
| NetworkActivity.Handler.RxQueuePktInput | helpers/net_activity/network_activity_handler.c:287-308 | drains the queue whatever arrives meanwhile: every packet in it is given to the stack, or released if the stack refuses it |
| NetworkActivity.Handler.WaitNetSuspend | helpers/net_activity/network_activity_handler.c:604-757 | for every prior state of flag and callback and every interleaving: the returned status, the callback left exactly when the flag was found set, else as before where it was not tested, every packet popped meanwhile given to the stack or released as it takes or refuses it, and every moment a protocol state |
| NetworkActivity.HandlerSafe | helpers/net_activity/network_activity_handler.c:604-757 | with a single caller the executing code's own fields satisfy the safety theorems at every moment, and no call fails to return |
| NetworkActivity.HandlerConserves | helpers/net_activity/network_activity_handler.c:268-310 | with any callers its fields satisfy the deep-sleep, conservation and order theorems at every moment |
| OffloadManager.Olm.InitOls | source/cy_lpa_wifi_olm.c:214-265 | the calls made and the code returned: inits in list order up to the first failure, then deinits in list order of what precedes it |
| OffloadManager.FirstFailureIs | source/cy_lpa_wifi_olm.c:236-248 | the position the loop stops at is the only one with all earlier inits succeeding and its own failing |
| OffloadManager.AllOrRollback | source/cy_lpa_wifi_olm.c:214-265 | an offload is up after start-up exactly when it has an init and either nothing failed or it precedes the failure and cannot be stopped |
| OffloadManager.StartUpCounts | source/cy_lpa_wifi_olm.c:250-261 | each init and deinit happens at most once, none for entries after the failure, no deinit for the failing entry or without a failure |
| OffloadManager.StartUpInOrder | source/cy_lpa_wifi_olm.c:236-261 | of any two calls of a start-up the earlier is an init before a deinit, or of the same kind and earlier in the list |
| OffloadManager.Olm.DeinitOls | source/cy_lpa_wifi_olm.c:279-299 | one deinit for each offload that has one, in list order |
| OffloadManager.Olm.DispatchPmNotification | source/cy_lpa_wifi_olm.c:315-355 | the register step and the notifications; nothing at all without a list or an interface |
| OffloadManager.DispatchOnceInOrder | source/cy_lpa_wifi_olm.c:348-354 | every offload with a handler is notified exactly once, in list order, nobody else |
| OffloadManager.RegisterRestored | source/cy_lpa_wifi_olm.c:428-458 | after any history and any application changes in between, an awake dispatch restores the value from just before the last sleep dispatch |
| OffloadManager.DoubleSleepLoses | source/cy_lpa_wifi_olm.c:435-446 | after a second sleep dispatch, whatever changes between and after, an awake dispatch restores what was set while asleep, not the value from before the first |
| OffloadManager.AwakeFirstWritesInitial | source/cy_lpa_wifi_olm.c:337-344 | an awake dispatch that no sleep dispatch preceded writes the initial saved value |
| KeepaliveTable.TkoConfig.UpdateConfig | source/cy_lpa_wifi_tko_ol.c:331-372 | refused arguments change nothing and return RESULT_OK; accepted ones are stored in the next slot, ports, padded address and timing, and advance the index; an address longer than its field is reported as running past it |
| KeepaliveTable.KeepsMostRecent | source/cy_lpa_wifi_tko_ol.c:331-372 | from index 0, after any calls, slot u mod MAX_TKO holds the ports and the zero-padded address of accepted update u for each of the last MAX_TKO, unreached slots are untouched, the index is in bounds, the timing is that of the last accepted call |
| WakePattern.WowlPf.SetPattern | source/cy_lpa_wifi_wowlpf_ol.c:342-425 | when the arrays are overrun, and otherwise both arrays, the driver call and the result; a mask of odd length is refused after the pattern is stored |
| WakePattern.OverrunIffShort | source/cy_lpa_wifi_wowlpf_ol.c:353-373 | for all strings that fit the configuration's fields, the arrays are overrun exactly when the pattern is shorter than two characters or the mask is empty |
| WakePattern.EmptyOverruns | source/cy_lpa_wifi_wowlpf_ol.c:353 | the empty pattern has size 255 |
| WakePattern.WowlPf.ReverseBits | source/cy_lpa_wifi_wowlpf_ol.c:381-390 | the toggle loop replaces the byte by its reversal and touches no other |
| WakePattern.ReversedAt | source/cy_lpa_wifi_wowlpf_ol.c:381-390 | bit j of the reversal is bit 7 - j of the byte |
| WakePattern.ReversedTwice | source/cy_lpa_wifi_wowlpf_ol.c:381-390 | reversal is its own inverse |
| WakePattern.PatternInvertsPrinting | source/cy_lpa_wifi_wowlpf_ol.c:319-362 | decoding a hexadecimal print of any bytes, in any letter case, gives the bytes back |
| WakePattern.DecodedIsPrinted | source/cy_lpa_wifi_wowlpf_ol.c:319-362 | a hexadecimal string prints exactly the bytes it is decoded to |
| WakePattern.MaskBitsInStringOrder | source/cy_lpa_wifi_wowlpf_ol.c:372-391 | bit b of the decoded mask, least significant first, is bit b of the string, most significant first |
| ArpTracker.ArpOl.NwIpChangeWork | source/cy_lpa_wifi_arp_ol.c:127-211 | one step of the tracker |
| ArpTracker.ArpOl.Init | source/cy_lpa_wifi_arp_ol.c:281-330 | the device emptied and the features of the awake state set, or nothing with built-in offloads or without a radio interface; bad arguments refused |
| ArpTracker.StartConfiguresIff | source/cy_lpa_wifi_arp_ol.c:329-396 | a start configures the offload exactly when it drives a device |
| ArpTracker.ArpOl.Pm | source/cy_lpa_wifi_arp_ol.c:387-459 | one step of the feature mask, the agent bit added for auto-reply; nothing with built-in offloads or without a radio interface |
| ArpTracker.DeviceUntouched | source/cy_lpa_wifi_arp_ol.c:303-309 | with offloads built into the firmware, or without a radio interface, the device is never touched |
| ArpTracker.StopSwitchesOff | source/cy_lpa_wifi_arp_ol.c:347-372 | a stop switches the offload off and leaves the addresses alone |
| ArpTracker.TracksAddress | source/cy_lpa_wifi_arp_ol.c:127-211 | after every step of every run the device's host addresses are exactly the recorded one, or none |
| ArpTracker.RecordsLastReported | source/cy_lpa_wifi_arp_ol.c:147-188 | the recorded address is the one the IP stack reported last since the start |
| ArpTracker.RetriesBounded | source/cy_lpa_wifi_arp_ol.c:194-208 | between acquisitions the timer is restarted at each of the first 24 misses and never again, over any run, restarts of the offload included |
| ArpTracker.FeaturesFollowPowerState | source/cy_lpa_wifi_arp_ol.c:387-459 | the device runs the features of the current state after every run of notifications exactly when the offload drives a device, and the two masks differ or no sleep was ever notified |

## Left out

- The NetXDuo variants of suspending and resuming, and the TLS offload: the LWIP branches are modelled.
- Driver, connection-manager, socket, RTOS and lwIP internals: their effects are modelled state or parameters. The filter driver is taken to copy a filter when it is added and to refuse unknown ids; the clock, the link and address lookups are parameters.
- Failures of driver calls, and of creating queues, events and mutexes; waiting for the handler's mutex (it is acquired or not).
- What the application does when told of suspending and resuming; the suspended-time statistics, ULP configuration, bus statistics, logging and debug printing.
- `cylpa_tko_ol_init`, `cylpa_nko_ol_init`, `cylpa_wowlpf_ol_init` and the other wrappers around the modelled functions.
- `wl_tko_connect_t` is not part of this model; the offset of its data is a parameter. The packed layouts of IPv4, TCP and UDP headers are those of their standards, the port filter's length is taken from the comment at source/cy_lpa_wifi_pf_ol.c:313-314, and MAX_TKO from include/cy_lpa_wifi_ol_common.h:1766.
- Frames.WriteIpv4: stores disjoint header fields in address order, not in the source's order, so it does not capture the intermediate buffers.
- InactivityWait.WaitBits: an activity exactly at the end of a window counts as after it, a tie that the RTOS decides.
- NetworkActivity.Handler.WaitNetSuspend: the activity seen by the inactivity wait is a parameter of its own and is not tied to the schedule of activity events; those only set flags, which the code clears before it relies on them.
- SuspendTheorems.SuspendSafety: is for one caller; deregistration of the callback is one atomic step.
- SuspendProtocol.ControlInvKept: one other thread uses `cylpa_suspend_ns` and `cylpa_resume_ns`, resumes only what it has suspended itself, and tests the flag and releases the lock in one step when resuming.
- KeepaliveTable.TkoConfig.UpdateConfig: an address longer than its 16-byte field is copied past it; the model reports that and says nothing of the memory behind.
- WakePattern.WowlPf.SetPattern: a size larger than its array is reported, and nothing is said of the memory read and written behind string and array; characters that are not hexadecimal digits are decoded in two's complement.
- ArpTracker.RetriesBounded: the retry count has no lower bound in the model, so a run of more than 2^31 misses is not captured.
- OffloadManager.Olm.InitOls: what an init function returns is given for each position; offload functions are known only by the calls made to them, and the one-off WLAN configuration is one event.
