# Event Horizon: verified models of the dongle link

Event Horizon drives a USB Wi-Fi dongle (AIC8800D80) from user space: it flashes the chip, brings
the link up, runs the WPA2 handshake, and carries IP traffic between the radio and a utun device.
This project models the parts of that program whose correctness spans a whole run or many
functions, and proves what they promise. `dafny verify dfyconfig.toml` checks everything.

## What is modelled

- **WPA2 supplicant** (`Handshake.dfy`, `HandshakeRuns.dfy`, `GroupRekey.dfy`, `GroupRekeyRuns.dfy`). The 4-way handshake and
  the group rekey loop of `eapol_handshake.go` as imperative loops, proved equal to a step function
  that is then run against an honest access point (sections 12.7.6 and 12.7.7 of IEEE Std
  802.11-2020). Under the handshake the network may lose, duplicate, reorder and inject frames;
  under the rekey loop the channel may lose, repeat and inject frames but keeps their order. Keys,
  wraps and MICs are symbolic terms there; the key frame codec and the byte-level MIC placement are
  modelled on bytes. When the handshake succeeds, what is sent and what is installed is told by the
  frames of an arbitrary inbox.
- **Firmware instances** (`Lifecycle.dfy`, `LinkRuns.dfy`). `link.go`, `bootstrap.go`, `bringup_scan.go` and
  `LoadFirmware` as a program whose every step alternates with an arbitrary turn of the
  surroundings: unplugging, plugging in, crashes, late boots, failed calls, expired deadlines,
  cancellation. The radio's rule is one MM_RESET for each boot of the firmware. Where quiet runs lead
  from every place the chip can be found in, and where runs give up, is proved as whole result worlds.
- **Link service** (`LinkService.dfy`, `LinkVerdicts.dfy`). The critical sections of `linkservice.go` and
  every interleaving of starts, stops, reports and completions, including stops that time out and
  reports that test the progress hook first and call it later.
- **Guarded refreshes** (`Refresh.dfy`). The dongle cache of `modeswitch.go`
  and the diagnostics store of the Swift app, in every interleaving with late answers.
- **Packet engine** (`Pump.dfy`, `Bridge.dfy`, `HostRoute.dfy`, `RouteDecisions.dfy`). The pump's packet
  builders and checksums on byte buffers and its answers as a client's stack reads them, the bridge's
  two forwarding loops and their records, and the conditional takeover of a host route with the
  counters it rests on.
- **Firmware upload** (`HybridUpload.dfy`, `AdaptivePlan.dfy`, `HybridZones.dfy`,
  `RetentionSweep.dfy`, `RetentionRun.dfy`). The hybrid and the adaptive plan with the zones the
  latter must not touch, the executor, and the retention map from the sweep to its printed lines, to
  the plan, to the memory.
- **Loops with a specification** (`SpeedTest.dfy`, `Wifi.dfy`). Worker coordination of a speed-test
  phase; the 802.11 element walk, beacons, and channel scoring.
- `Common.dfy` holds what several of these share: values, byte buffers, text.

A class stands for each object the source updates in place. Its methods are the source's methods or
critical sections, and each one is proved to change the state exactly as a named function of the old
state does; the results about whole runs are proved of that function, and stated on what goes in
and comes out: frames, bytes, replies, events.

## Where the code departs from what it says

Each of these is proved by the members named; the model follows the code.

- A settled service claims to be up exactly if a Stop timed out and said idle, and the run it had
  cancelled then wrote "up" as the last word (`LinkServices.SettledUpIff`, with a run that shows it in
  `LinkServices.TimedOutStopCanSettleUp`). Start can also lose the progress reports of the new run,
  because the old run clears the global hook after it has released the lock: that can happen exactly
  while such an old run is about (`LinkServices.HookCanBeLostIff`,
  `LinkServices.EarlyStartCanLoseProgress`).
- `reportLink` tests the hook and then reads it again to call it. A bring-up's own report can find it
  gone, and panic, in exactly the same case (`HookCalls.OwnReportCanPanicIff`); a report of the event
  loop, which outlives the bring-up, always can (`HookCalls.StrayReportCanPanic`).
- `utunCounters` says it adds packets and bytes, but its four columns, counted from the right end of
  a netstat row, are input errors, output packets, output errors and output bytes. An interface that
  only receives is taken for dead and loses its route: a route is taken exactly if those four stood
  still (`HostRoutes.TakenIffOutputFrozen`, `HostRoutes.ReceiverLosesItsRoute`, for one pair of full
  tables in `HostRoutes.BusyReceiverLosesItsRoute`). A call without a wait takes any utun's
  route (`HostRoutes.NoWaitTakesLiveRoutes`); only `AddStarlinkRoute` makes one, and nothing in the
  repository calls it.
- The hybrid upload's log speaks of full retention, but in word mode the executor writes only the
  first four bytes of a sixteen-byte block (`HybridUpload.HybridUploadIsExactIff`), and its plan
  writes into the no-touch zones the retention sweep avoids
  (`HybridZones.HybridWritesInNoTouchZones`).
- The retention sweep's two probes write the same first word, so it cannot see a block write that
  does nothing (`RetentionProbes.WordClassNeedsDamage`).
- `PlanAdaptiveUpload` promises never to write a zone, but it cuts an operation only at the first
  zone in the list that it touches. For disjoint zones and chunk sizes of at most 1 KB, the largest
  block the writer accepts, the promise holds exactly if no zone has an earlier listed one starting
  fewer than 1023 bytes behind its end (`AdaptiveUpload.ZonesRespectedIff`; for zones that overlap,
  byte by byte, `AdaptiveUpload.ByteRespectedIff`). `MergePoisonZones` appends, so a poison short of
  the standard zones is written over exactly if one of them starts within those 1023 bytes
  (`PoisonZones.MergedPoisonRespectedIff`, `PoisonZones.StandardPoisonRespectedIff`).
- In word mode every window operation goes out as four bytes, an operation that was cut short before a
  zone or at the end of the image filled up with zeros. So a plan that leaves the zones alone may still
  be carried out into one of them (`WordMode.WordModeSparesIff` says exactly when, and
  `WordMode.WritesPastTheEndIff` when it runs beyond the image).
- The retention map reader slices `fields[0][2:]` without a length test and panics on a two-field
  line whose first field is one byte long (`RetentionText.LoadPanicsIff`,
  `RetentionText.OneLetterLinePanics`).
- The reply to an echo request that claims a four-byte header has a verifying header only if those
  four bytes already sum to all ones (`Pump.EchoHeaderVerifiesIff`).
- The pump acknowledges a FIN with the number behind its SYN+ACK, also after it has answered data: such an
  acknowledgement is not where its stream is (`Pump.LateFinAnswerIsOld`; before that,
  `Pump.ConversationIsInOrder`).
- `ParseBeacon` calls a network that hides its name "<Hidden SSID>", while the spectrum report leaves
  out "<hidden>": hidden networks are listed by that text (`HiddenNetworks.HiddenIsListed`).
- `--skip-flash` and `--force` are safe on the first run only (`Lifecycle.SafeIffOnlyFirstReuses`).
- The control port is opened before the handshake starts (`Handshake.PortOpensBeforeKeys`), so
  nothing here says it stays closed until the keys are in.
- The handshake and rekey loops never compare replay counters (`Handshake.CountersDecideNothing`,
  `GroupRekey.CountersDecideNothing`). The rekey result therefore rests on a channel that keeps the
  order of frames, and fails without it (`GroupRekey.SwappedFramesBreakTheAgreement`).
- After a return of 0 nothing answers a retransmitted msg3 (`GroupRekey.PairwiseFramesGoUnanswered`).
  The access point finishes exactly if a copy of the one msg4 arrives while it holds the same PTK
  (`Handshake.AccessPointFinishesIff`).

## Assumptions

- Handshake: the access point is honest, the PMK is secret, and MICs and key wraps cannot be forged.
- Lifecycle: only this program flashes the chip, one Submit sends one frame, and a session opens only
  on a running chip. "Confirmed" means that Submit returned without an error, which it also does on a
  late confirmation of an earlier request of the same message family.
- Clocks are monotone; the environment's answers are parameters.
- Speed test: a response body is finite, of any length up to a bound that is a parameter. What has
  been received of it before the phase ends may still be read, and is counted, after that.
- Go's unbounded-looking counters (cache generations, packet counters) do not wrap.

## Model

| member | source | states |
|---|---|---|
| `Handshake.RunEapolHandshake` | cmd/usbwifi/eapol_handshake.go:85-299 | the receive loops, with msg1 retransmits and the three installs, do what the step function says on every inbox |
| `Handshake.Agreement` | cmd/usbwifi/eapol_handshake.go:191-298 | a return of 0, over every run of the network and the access point, means that the PTK and GTK installed are the ones the access point derived and wrapped for the accepted msg3, all three installs were confirmed, and msg4 echoed its counter |
| `Handshake.AcceptedMsg4MeansStationHasMsg3` | cmd/usbwifi/eapol_handshake.go:249-256 | when the access point accepts a msg4, the station holds exactly the msg3 sent with that counter |
| `Handshake.AccessPointFinishesIff` | cmd/usbwifi/eapol_handshake.go:249-298 | once the station has returned 0, the access point finishes if and only if a copy of its msg4 arrives while it holds that PTK; no second one is sent |
| `Handshake.KeysFollowHeldNonce` | cmd/usbwifi/eapol_handshake.go:206-217 | KCK and KEK always derive from the nonce of the msg1 held at that moment |
| `Handshake.MicNamesTheSender` | cmd/usbwifi/eapol_handshake.go:218-226 | a msg3 that verifies under the station's KCK was sent by the access point under the same PTK |
| `Handshake.RunKeepsInv` | cmd/usbwifi/eapol_handshake.go:85-299 | every step of the station, the access point and the network keeps the invariant behind these results |
| `Handshake.PtkSymmetricAndInjective` | pkg/aic8800d80/lmac/eapol.go:195-212 | sorting the nonces makes the derivation symmetric and loses nothing |
| `Handshake.PortOpensBeforeKeys` | cmd/usbwifi/eapol_handshake.go:85-95 | on every inbox the first command is the opening of the control port |
| `Handshake.CountersDecideNothing` | cmd/usbwifi/eapol_handshake.go:145-298 | two inboxes that differ only in replay counters end the same way with the same commands |
| `HandshakeRuns.ReturnsZeroIff` | cmd/usbwifi/eapol_handshake.go:97-299 | on any inbox the handshake returns 0 if and only if the first msg1 gets its nonce and its answer, so does every further one up to the first msg3 that verifies under the keys of the last msg1, that one holds a GTK, msg4 goes out, and all three installs are confirmed |
| `HandshakeRuns.CompletedRun` | cmd/usbwifi/eapol_handshake.go:166-298 | and then exactly these have been sent and commanded: for each msg1 in order a msg2 with its counter under its keys, one msg4 with msg3's counter, and port, PTK, GTK, port |
| `HandshakeRuns.EveryAnswerEchoes` | cmd/usbwifi/eapol_handshake.go:166-217 | however a run ends, each msg2 sent carries the counter of the msg1 it answers and verifies under that one's keys |
| `HandshakeRuns.InstallsIff` | cmd/usbwifi/eapol_handshake.go:238-284 | keys are handed to the firmware if and only if a verifying msg3 with a GTK was answered, and then all three commands follow, however each is confirmed |
| `HandshakeRuns.HonestRunCompletes` | cmd/usbwifi/eapol_handshake.go:97-299 | with equal PMKs and any number of copies of msg1, msg2, msg3 and msg4 follow, the station returns 0 with the access point's keys, and the access point accepts msg4 |
| `GroupRekey.MaintainGroupKey` | cmd/usbwifi/eapol_handshake.go:309-379 | the rekey loop does what the step function says |
| `GroupRekey.RejectedFramesChangeNothing` | cmd/usbwifi/eapol_handshake.go:317-337 | taking every frame with the pairwise bit, without a MIC, with a bad one or without a GTK out of any inbox changes nothing of what the run installs and answers |
| `GroupRekey.PairwiseFramesGoUnanswered` | cmd/usbwifi/eapol_handshake.go:322-327 | no retransmitted msg3, nor any other pairwise frame, is answered by the loop that follows the handshake |
| `GroupRekey.CountersDecideNothing` | cmd/usbwifi/eapol_handshake.go:309-379 | two inboxes that differ only in replay counters install the same keys |
| `GroupRekey.AcceptedReplyMeansInstalled` | cmd/usbwifi/eapol_handshake.go:331-376 | over an ordered channel that loses and repeats frames, an accepted reply means that the station holds exactly the GTK sent with that counter at that index |
| `GroupRekey.LinkRunKeepsInv` | cmd/usbwifi/eapol_handshake.go:309-379 | every event of station, access point and channel keeps the rekey invariant |
| `GroupRekey.SwappedFramesBreakTheAgreement` | cmd/usbwifi/eapol_handshake.go:309-379 | if the channel swaps the frames of two rekeys, the access point accepts the answer to the second while the station holds the key of the first |
| `GroupRekeyRuns.LoopOutcome` | cmd/usbwifi/eapol_handshake.go:309-379 | on any inbox: the table holds for each index the GTK that the last accepted rekey frame for it brought, and there is exactly one reply, in order, for each rekey frame whose install was confirmed, signed, with its counter and index and without key data |
| `GroupRekeyRuns.RekeysSucceed` | cmd/usbwifi/eapol_handshake.go:309-379 | in any chain of rekeys each one ends with its GTK installed at its index and its reply accepted |
| `KeyFrames.Encode` | pkg/aic8800d80/lmac/eapol.go:107-133 | the bytes written field by field into the buffer are the frame's layout |
| `KeyFrames.DecodeEncode` | pkg/aic8800d80/lmac/eapol.go:75-133 | decoding an encoded key frame gives the frame back |
| `KeyFrames.EncodeDecode` | pkg/aic8800d80/lmac/eapol.go:75-133 | re-encoding a decoded frame gives its bytes back exactly under the stated condition on the bytes |
| `KeyFrames.SendEapol` | cmd/usbwifi/eapol_handshake.go:144-165 | the frame goes out with its MIC over the frame whose MIC bytes are zero |
| `KeyFrames.SentFrameVerifies` | pkg/aic8800d80/lmac/eapol.go:248-275 | every frame sent verifies under the same key at the receiver |
| `KeyFrames.FindGtk` | pkg/aic8800d80/lmac/eapol.go:328-351 | the KDE loop returns the first GTK element's key and index, or the stated error |
| `KeyFrames.GtkIsFound` | pkg/aic8800d80/lmac/eapol.go:318-352 | in the bytes of any elements, a GTK element, any elements, 0xdd 0x00 and any padding, the walk finds exactly that GTK and index, or refuses its length |
| `KeyFrames.SentInfoWords` | cmd/usbwifi/eapol_handshake.go:138-355 | the key-info words of msg2, msg4 and the group reply are the bits of the symbolic frames |
| `Elements.WalkSerialized` | pkg/wifi/frame.go:84-111 | walking a serialised list, whatever truncated tail follows, visits exactly that list |
| `Elements.SerializeWalk` | pkg/wifi/frame.go:84-111 | every byte string is the serialisation of what is walked plus a tail at which the walk ends |
| `Beacons.ParseBeacon` | pkg/wifi/frame.go:68-116 | BSSID and signal are the frame's; SSID, channel and security are those of the last element of each kind, with a text of its own for an empty SSID; only a short payload is refused |
| `Beacons.MacTextReadsBack` | pkg/wifi/frame.go:78-79 | every byte of the address can be read back from the printed BSSID |
| `Beacons.BeaconOfElements` | pkg/wifi/frame.go:84-111 | a beacon that carries a list of elements is described by that list |
| `Beacons.DescribeAppend` | pkg/wifi/frame.go:93-108 | the last element of a kind wins, and touches only its own field |
| `Checksums.AddWords` | pkg/tun/pump.go:867-875 | the 32-bit accumulator holds the true sum of the big-endian words, an odd byte padded |
| `Checksums.FoldCarries` | pkg/tun/pump.go:876-879 | the fold loop ends with the folded sum |
| `Checksums.FoldMod` | pkg/tun/pump.go:876-878 | folding keeps the sum modulo 65535 and keeps it from becoming zero |
| `Checksums.TcpChecksum` | pkg/tun/pump.go:835-864 | complement of the folded sum over pseudo-header and segment |
| `Checksums.UdpChecksum` | pkg/tun/pump.go:799-832 | the same, with zero replaced by all ones |
| `Checksums.StoredChecksumVerifies` | pkg/tun/pump.go:867-880 | a header with its checksum stored folds to 0xffff at the receiver |
| `Checksums.StoredSegmentChecksumVerifies` | pkg/tun/pump.go:799-865 | so does a segment summed with its pseudo-header, of odd or even length |
| `Pump.FillIpv4` | pkg/tun/pump.go:512-524 | the header written in place verifies and carries length, identification, don't-fragment, TTL, protocol and addresses |
| `Pump.BuildTcp` | pkg/tun/pump.go:505-653 | the TCP packet answers to the sender with this identification, these numbers, flags, window and payload, and verifies |
| `Pump.BuildUdp` | pkg/tun/pump.go:762-796 | the UDP packet answers to the sender with its fixed identification, verifies, and never carries a zero checksum |
| `Pump.BuildEchoReply` | pkg/tun/pump.go:222-262 | the reply is built in place from a copy of the request |
| `Pump.EchoMessageVerifies` | pkg/tun/pump.go:236-245 | the ICMP message of every echo reply verifies |
| `Pump.EchoReturnsData` | pkg/tun/pump.go:222-262 | with a header of at least 20 bytes the data comes back unchanged with the addresses swapped |
| `Pump.EchoHeaderVerifiesIff` | pkg/tun/pump.go:153-234 | a reply's header verifies if and only if the request's header length is not 4 or those four bytes verify by themselves |
| `Pump.EchoHeaderVerifiesExactly` | pkg/tun/pump.go:153-234 | all replies for a header length have a verifying header if and only if it is not 4 |
| `Pump.IntentsFit` | pkg/tun/pump.go:327-423 | no payload the pump can send overflows a 16-bit length field |
| `Pump.PacketPump.HandleTcpPacket` | pkg/tun/pump.go:327-400 | the frames written are the answers decided on, one realisation each, in order |
| `Pump.PacketPump.HandleUdpPacket` | pkg/tun/pump.go:674-707 | the same for DNS, NTP and echo answers, or none |
| `Pump.PacketPump.HandleIpv4Packet` | pkg/tun/pump.go:147-219 | the dispatch by protocol with its length tests, each protocol counter, and the tally of SYNs for the dish |
| `Pump.PacketPump.OnRead` | pkg/tun/pump.go:108-145 | one read of the device is counted once, by family; the frames written are the right answer to its packet from the bytes of both, and nothing for other families; each verifies, but for ICMP packets with a four-byte header that does not |
| `Pump.AnswersAreRight` | pkg/tun/pump.go:147-796 | from the bytes of packet and frames: a SYN gets one SYN+ACK for n+1; data a body (port 9200: terminal, else gRPC-Web, else fixed; other ports the portal) and a FIN behind it, both for n plus its length; a FIN an ACK for n+1; DNS and NTP their responses; other datagrams for us themselves; anything else nothing |
| `Pump.ConversationIsInOrder` | pkg/tun/pump.go:352-393 | the answers to a SYN and to data form one stream: each starts where the one before it ended and acknowledges all of its request |
| `Pump.LateFinAnswerIsOld` | pkg/tun/pump.go:396-399 | the answer to a FIN goes on behind the SYN+ACK, which is not where the stream is once data was answered |
| `Pump.EmittedFramesVerify` | pkg/tun/pump.go:222-262 | the answers to a packet verify at the receiver if and only if it is no ICMP packet with a four-byte header that does not verify |
| `Uploads.BytesAreAddresses` | pkg/aic8800d80/loader.go:741-769 | ordered operations send no address twice: their bytes add up to the addresses written |
| `Uploads.AfterFaithful` | pkg/aic8800d80/loader.go:741-760 | a plan made of image parts puts the image where it writes and changes nothing else |
| `HybridUpload.BuildHybridOps` | pkg/aic8800d80/loader.go:1108-1128 | the plan is ordered, made of image parts, covers the range without the halo, and sizes each chunk by its class |
| `HybridUpload.HybridPlanIsExact` | pkg/aic8800d80/loader.go:1104-1128 | carried out as planned, memory equals the image on the range minus the halo and is unchanged elsewhere; the byte total is the range's length minus the halo |
| `HybridUpload.Execute` | pkg/aic8800d80/loader.go:738-798 | the writes that reach the chip, up to the first error, whose own write may have landed, and the count that is reported |
| `HybridUpload.WordModeMemory` | pkg/aic8800d80/loader.go:743-756 | in word mode bytes 4 to 15 of every block chunk keep their old value |
| `HybridUpload.HybridUploadIsExactIff` | pkg/aic8800d80/loader.go:741-760 | the hybrid upload puts the whole image in place if and only if no window chunk is classed for block writes |
| `AdaptiveUpload.PlanAdaptiveUpload` | pkg/aic8800d80/protocol/uploadplan.go:51-100 | the loop computes the plan function |
| `AdaptiveUpload.PlanIsGood` | pkg/aic8800d80/protocol/uploadplan.go:62-98 | operations are in order, inside the image, never empty and never above their chunk size |
| `AdaptiveUpload.PlanIsExactCover` | pkg/aic8800d80/protocol/uploadplan.go:43-100 | with zones that are clear of each other, ascending ones among them, every byte outside them is written exactly once and none inside |
| `AdaptiveUpload.RespectedIffClear` | pkg/aic8800d80/protocol/uploadplan.go:74-96 | every plan with a chunk size leaves a zone alone if and only if no zone listed before it can be touched by an operation that starts in it |
| `AdaptiveUpload.ZonesRespectedIff` | pkg/aic8800d80/protocol/uploadplan.go:74-96 | for disjoint zones and any chunk size up to 1 KB: all plans avoid them if and only if no zone has an earlier listed one starting fewer than 1023 bytes behind its end |
| `AdaptiveUpload.ByteRespectedIff` | pkg/aic8800d80/protocol/uploadplan.go:74-96 | for zones that may overlap: all plans leave a byte alone if and only if some zone holds it before which no zone is listed that starts within reach behind it |
| `PoisonZones.MergePoisonZones` | pkg/aic8800d80/protocol/uploadplan.go:127-165 | each readable address in the file becomes a zone of four bytes, its end wrapped at 32 bits, at the end of the list, unless it is there; no file changes nothing |
| `PoisonZones.MergedPoisonRespectedIff` | pkg/aic8800d80/protocol/uploadplan.go:74-165 | of merged poisons apart from the zones and from each other, one is respected by every plan if and only if neither a zone nor an earlier poison starts fewer than 1023 bytes behind its end |
| `PoisonZones.PoisonRespectedIff` | pkg/aic8800d80/protocol/uploadplan.go:74-165 | any merged poison, overlapping or not, is respected if and only if its four bytes are sheltered in the merged list |
| `PoisonZones.MergingKeepsZones` | pkg/aic8800d80/protocol/uploadplan.go:132-165 | merging poisons, overlapping or not, changes nothing for any byte of the zones that were there |
| `PoisonZones.StandardPoisonRespectedIff` | pkg/aic8800d80/protocol/uploadplan.go:118-165 | for which addresses, inside the standard zones or out, a poison merged into them is respected |
| `WordMode.WordModeSparesIff` | pkg/aic8800d80/loader.go:625-629 | a plan that leaves the zones alone still does so in word mode if and only if no stretch between zones, or from the begin of the image, has a last word that runs into the next zone |
| `WordMode.WritesPastTheEndIff` | pkg/aic8800d80/loader.go:741-753 | and what it writes behind the image is the rest of a cut last word, if there is one |
| `WordMode.AlignedZonesAreSafe` | pkg/aic8800d80/loader.go:625-629 | zones on word boundaries are safe for an image that begins on one, whatever the wall |
| `WordMode.MisalignedZoneIsHit` | pkg/aic8800d80/loader.go:741-753 | a first zone off the word boundaries of the image is written once the window part of the image reaches it |
| `RetentionText.LoadRetentionClasses` | pkg/aic8800d80/loader.go:1081-1102 | the reader's loop computes the entries line by line, or panics |
| `RetentionText.MapRoundTrip` | cmd/usbwifi/retentionmap.go:149-174 | printing any map in any order and reading it back gives the same map |
| `RetentionText.PrintedRowsReadBack` | cmd/usbwifi/retentionmap.go:149-174 | of several rows for one address the last wins |
| `RetentionText.MalformedSetsNothing` | pkg/aic8800d80/loader.go:1090-1099 | the lines with the wrong number of fields or an address that is no 32-bit hexadecimal number are exactly those that neither set an entry nor panic |
| `RetentionText.MalformedLineIsIgnored` | pkg/aic8800d80/loader.go:1090-1099 | such a line, anywhere in a file, can be dropped |
| `RetentionText.OnlyWellFormedLinesCount` | pkg/aic8800d80/loader.go:1089-1100 | a file gives what it gives without its malformed lines |
| `RetentionText.LoadPanicsIff` | pkg/aic8800d80/loader.go:1092-1095 | the reader panics if and only if a two-field line starts with a one-byte field |
| `RetentionText.OneLetterLinePanics` | pkg/aic8800d80/loader.go:1092-1095 | a line like "a word" stops the reader |
| `RetentionSweep.RetentionMapAddrs` | cmd/usbwifi/retentionmap.go:42-58 | exactly the aligned addresses of the window outside the zones, in ascending order |
| `RetentionSweep.Sweep` | cmd/usbwifi/retentionmap.go:108-150 | one row for each probed address from the start index on, none after a failed write |
| `RetentionProbes.WordClassNeedsDamage` | cmd/usbwifi/retentionmap.go:98-150 | the class "word" appears only if the block probe changed what the word probe had left |
| `RetentionSweep.SweepReadsBack` | cmd/usbwifi/retentionmap.go:105-168 | the file a sweep prints, from whatever index it was resumed, gives every address it probed its class when read back |
| `RetentionRun.SweepToMemory` | pkg/aic8800d80/loader.go:1104-1128 | from sweep to file to plan to memory: every wanted byte holds the image but bytes 4 to 15 of the chunks where the sweep saw only the block write stick |
| `RetentionRun.SweepLandsIff` | pkg/aic8800d80/loader.go:741-760 | so the image lands whole if and only if the sweep saw no such chunk |
| `HybridZones.HybridWritesInNoTouchZones` | pkg/aic8800d80/loader.go:1114-1127 | the bytes of the no-touch zones the hybrid plan writes are exactly these |
| `Lifecycle.Host.RunBootstrap` | cmd/usbwifi/bootstrap.go:59-127 | the stage loop computes the bootstrap function for every turn of the surroundings |
| `Lifecycle.Host.LoaderRun` | pkg/aic8800d80/loader.go:102-136 | the loader's stage logic |
| `Lifecycle.Host.AwaitStage` | cmd/usbwifi/bootstrap.go:189-208 | the wait for a stage, with and without a deadline |
| `Lifecycle.Host.AwaitFlashable` | cmd/usbwifi/link.go:181-204 | a flashable stage counts only after the dongle was seen gone |
| `Lifecycle.Host.RunBringup` | cmd/usbwifi/bringup_scan.go:240-386 | a session ends after stack_start, or sends the one MM_RESET |
| `Lifecycle.Host.RunLink` | cmd/usbwifi/link.go:72-173 | the stage switch and the two sessions |
| `Lifecycle.LinkKeeps` | cmd/usbwifi/link.go:72-173 | one run keeps the rule unless it reuses an instance that has been reset |
| `Lifecycle.LinksKeep` | cmd/usbwifi/link.go:102-173 | over any number of runs that do not reuse an instance, against any chip, no instance gets two MM_RESETs and each one follows a confirmed stack_start of an earlier session |
| `Lifecycle.WaitForFlashableKeeps` | cmd/usbwifi/link.go:181-204 | a replug that was seen leaves no used instance running |
| `Lifecycle.UndisturbedFlash` | cmd/usbwifi/link.go:88-173 | in quiet surroundings a run boots one instance, starts its stack once and resets it once |
| `LinkRuns.BootstrapTakesLegs` | cmd/usbwifi/bootstrap.go:59-127 | through any sequence of empty ports, ejects with the boot ROM appearing, and failed uploads with a replug, from any place the chip is found in, the bootstrap goes on and boots exactly one instance |
| `LinkRuns.LinkTakesLegs` | cmd/usbwifi/link.go:78-173 | a link run from ZeroCD or the boot ROM, through any such sequence, boots one instance, starts it once and resets it once, and succeeds |
| `LinkRuns.LinkAfterPowerCycle` | cmd/usbwifi/link.go:97-204 | so does one that finds firmware running, is told to wait, and sees the dongle leave and come back |
| `LinkRuns.LinkRefuses` | cmd/usbwifi/link.go:72-131 | an empty bus, firmware running without leave to reuse or wait, a wait without a power cycle, and a missing firmware set end the run with nothing sent and nothing changed |
| `LinkRuns.BootstrapFails` | cmd/usbwifi/bootstrap.go:82-93 | an eject that fails, and a boot ROM that does not appear in time, end the bootstrap |
| `LinkRuns.BootstrapEndsAtOnce` | cmd/usbwifi/bootstrap.go:60-81 | a cancelled bootstrap ends at once without success, one that finds firmware running with success |
| `LinkRuns.SessionsFail` | cmd/usbwifi/link.go:138-173 | the run fails where its two sessions do, having sent exactly what came before |
| `LinkRuns.LinkFailsLate` | cmd/usbwifi/link.go:78-173 | so does a run that has flashed the chip first |
| `LinkRuns.NeverGivesUp` | cmd/usbwifi/bootstrap.go:59-127 | however the dongle is pulled, plugged in, switched and crashed: while calls work, no deadline passes and nobody cancels, the bootstrap does not give up before the course of events is over |
| `LinkRuns.SuccessMeansRunning` | cmd/usbwifi/bootstrap.go:78-108 | in any surroundings, a bootstrap that succeeds leaves firmware running |
| `LinkRuns.LinkedMeansStarted` | cmd/usbwifi/link.go:138-173 | in any surroundings, the first frame of a link run that succeeds is a confirmed stack_start |
| `LinkRuns.LoaderFromZeroCd` | pkg/aic8800d80/loader.go:102-136 | a loader run from ZeroCD ejects, uploads and boots one instance |
| `Lifecycle.SafeIffOnlyFirstReuses` | cmd/usbwifi/link.go:102-135 | a sequence of runs keeps the rule against every chip if and only if only its first run reuses an instance |
| `LinkServices.LinkService.Set` | cmd/usbwifi/linkservice.go:115-142 | a transition is recorded from the old state and the history is cut to 64 |
| `LinkServices.LinkService.Start` | cmd/usbwifi/linkservice.go:150-169 | refuses while a run is active, else claims the service and starts from "flashing" |
| `LinkServices.LinkService.Complete` | cmd/usbwifi/linkservice.go:173-205 | the completion handler's three outcomes |
| `LinkVerdicts.VerdictStands` | cmd/usbwifi/linkservice.go:173-206 | in every interleaving, from the release of a run until somebody writes again: failed if and only if its return event had a code other than 0 and no Stop cancelled it, down if and only if 0 and not cancelled, with these texts in each case; after a cancelled one the status is what it was; network and attempts stay |
| `LinkVerdicts.ReleaseGivesVerdict` | cmd/usbwifi/linkservice.go:173-206 | the release itself clears the cancel function and changes nothing else: not the history, the stops or the other runs |
| `LinkVerdicts.StatusIsTheLastWord` | cmd/usbwifi/linkservice.go:109-142 | in every interleaving state and reason shown are those of the last transition written |
| `LinkVerdicts.StartClaims` | cmd/usbwifi/linkservice.go:150-169 | a Start changes nothing at all while a bring-up is under way, and otherwise begins one: flashing, its text, its network, one more attempt |
| `LinkVerdicts.SsidIsTheLastStarted` | cmd/usbwifi/linkservice.go:155-165 | in every interleaving the network shown is that of the last Start that began a bring-up |
| `LinkVerdicts.LastReports` | cmd/usbwifi/linkservice.go:218-290 | a run that returns 0 reports up, any other nothing; a Stop that is done waiting reports idle |
| `LinkServices.BringUpsNeverOverlap` | cmd/usbwifi/linkservice.go:150-227 | in every interleaving the cancel function is set exactly while one bring-up is under way, and never two are |
| `LinkServices.SettledUpIff` | cmd/usbwifi/linkservice.go:150-227 | in every interleaving a service without run or Stop is "up" if and only if a Stop timed out and said idle, and then the run it had cancelled wrote "up" as the last word |
| `LinkServices.SettledIsNotUp` | cmd/usbwifi/linkservice.go:169-227 | so without a timeout it never is |
| `LinkServices.TimedOutStopCanSettleUp` | cmd/usbwifi/linkservice.go:218-227 | an interleaving in which it is |
| `LinkServices.HistoryIsTheRecord` | cmd/usbwifi/linkservice.go:115-142 | the history is the last 64 recorded transitions, each starting where the write before it, recorded or not, left the state |
| `LinkServices.ProgressIsReported` | cmd/usbwifi/linkservice.go:169-173 | a running bring-up has its progress hook unless a Start came before the run before it cleared its own |
| `LinkServices.HookCanBeLostIff` | cmd/usbwifi/linkservice.go:168-173 | a bring-up with its hook, or about to install it, can lose it without a further Start if and only if an older run was released and has not cleared its own |
| `LinkServices.EarlyStartCanLoseProgress` | cmd/usbwifi/linkservice.go:168-173 | an interleaving in which it does |
| `HookCalls.HookRunsAreRuns` | cmd/usbwifi/linkservice.go:236-242 | with tests and calls apart, the service goes through the same states as with whole reports |
| `HookCalls.OwnReportCanPanicIff` | cmd/usbwifi/linkservice.go:236-242 | a bring-up's report that has passed the test can panic without a further Start if and only if an older run was released and has not cleared the hook |
| `HookCalls.StrayReportCanPanic` | cmd/usbwifi/bringup_scan.go:85-91 | a report of the event loop that has passed the test always can |
| `DongleCaches.DongleCache.CachedDongles` | pkg/usb/modeswitch.go:220-249 | what a reader is served, and when it starts a pass |
| `DongleCaches.DongleCache.FinishPass` | pkg/usb/modeswitch.go:236-246 | a pass commits only if its generation is current |
| `DongleCaches.LateAnswersAreNeverSeen` | pkg/usb/modeswitch.go:220-249 | commits follow start order, a refresh is under way exactly while the current pass is, and readers see the latest commit |
| `DongleCaches.OnlyTheLatestPassCommits` | pkg/usb/modeswitch.go:238-246 | a pass that commits is the one started last |
| `DongleCaches.ProbedIff` | pkg/usb/modeswitch.go:236-282 | over any run without a reset the bus ends up probed if and only if it was before or a pass committed |
| `DongleCaches.EnumerationRate` | pkg/usb/modeswitch.go:223-266 | starts without a reset between them are at least a TTL apart each |
| `DongleCaches.StuckPassesAreRare` | pkg/usb/modeswitch.go:226-266 | each pass that was given up has cost more than the force-after time |
| `DongleCaches.ReadStartsIff` | pkg/usb/modeswitch.go:220-249 | in every interleaving a read starts a pass if and only if no pass has come back since the last reset or the last one did a TTL ago or more, and none is under way or it is older than the force-after time; otherwise it changes nothing |
| `DongleCaches.PassUnderWayCommits` | pkg/usb/modeswitch.go:232-246 | the pass that is under way commits what it found when it comes back |
| `DiagnosticsStores.DeviceDiagnosticsStore.FinishPing` | Sources/EventHorizonCore/ViewModels/DeviceDiagnosticsStore.swift:38-48 | what a ping's answer does, by generation and cancellation |
| `DiagnosticsStores.DeviceDiagnosticsStore.FinishSpeedTest` | Sources/EventHorizonCore/ViewModels/DeviceDiagnosticsStore.swift:56-73 | what a speed test's answer does, also for another adapter |
| `DiagnosticsStores.OnlyCurrentAnswersAreShown` | Sources/EventHorizonCore/ViewModels/DeviceDiagnosticsStore.swift:22-73 | running exactly while a request of the current generation is in flight; pings and speed came from that generation's request, which was not cancelled, a speed for its adapter; an error is what its answer complains of or the reason for which that generation's call was refused |
| `DiagnosticsStores.PingIsShown` | Sources/EventHorizonCore/ViewModels/DeviceDiagnosticsStore.swift:37-48 | in every interleaving the answer to a running ping that was not cancelled is shown, or its failure, and the run ends |
| `DiagnosticsStores.SpeedIsShown` | Sources/EventHorizonCore/ViewModels/DeviceDiagnosticsStore.swift:55-73 | so is the answer to a running speed test, with its own error or the one for a bad status; one about another adapter only as an error |
| `DiagnosticsStores.CancelledAnswerEndsTheRun` | Sources/EventHorizonCore/ViewModels/DeviceDiagnosticsStore.swift:38-73 | the answer to a running request that was cancelled leaves an empty panel that is not running |
| `DiagnosticsStores.CallsEmptyThePanel` | Sources/EventHorizonCore/ViewModels/DeviceDiagnosticsStore.swift:22-54 | a call while one runs does nothing; any other empties the panel and shows the reason it is refused for, or runs |
| `DiagnosticsStores.LateAnswersShowNothing` | Sources/EventHorizonCore/ViewModels/DeviceDiagnosticsStore.swift:22-73 | taking every answer to a replaced request out of any run leaves the panel as it was |
| `DiagnosticsStores.CancelledAnswerShowsNothing` | Sources/EventHorizonCore/ViewModels/DeviceDiagnosticsStore.swift:38-73 | what the answer to a cancelled request says is not shown |
| `NetstatText.UtunCounters` | pkg/tun/tun_darwin.go:197-223 | the first readable row of the interface decides, with wrapped sums |
| `NetstatText.SkippedIff` | pkg/tun/tun_darwin.go:203-219 | the lines without a count are the short ones, those of other interfaces, the header, and those with a placeholder in one of the four fields read |
| `NetstatText.TableIsCounted` | pkg/tun/tun_darwin.go:197-223 | on any output with a row of the interface behind skipped lines: input errors plus output packets, and output errors plus output bytes |
| `NetstatText.EqualSumsMeanFrozen` | pkg/tun/tun_darwin.go:179-193 | for counters that only grow, equal sums mean that each of the four stood still |
| `HostRoutes.Os.EnsureHostRoute` | pkg/tun/tun_darwin.go:131-157 | the commands issued and the result, for every course of replies |
| `RouteDecisions.OutcomeIff` | pkg/tun/tun_darwin.go:131-193 | each outcome has its exact condition on the replies: not ours, unverified, live, delete failed, add failed, and no error |
| `RouteDecisions.QuietIff` | pkg/tun/tun_darwin.go:131-157 | the routing table is left alone if and only if the route is ours already, a non-empty interface that is no utun holds it, a sample cannot be read, or two samples differ |
| `RouteDecisions.AddsAtOnceIff` | pkg/tun/tun_darwin.go:131-157 | a call is one look-up and one add if and only if the look-up fails, gives no interface line, or names nothing |
| `RouteDecisions.TakesOverIff` | pkg/tun/tun_darwin.go:139-157 | the route is deleted, behind the samples, and then added, if and only if another utun holds it and the samples can be read and agree |
| `RouteDecisions.NamedIff` | pkg/tun/tun_darwin.go:160-171 | a reply names what follows the first "interface:" of the first line that has one, without blanks; a failure or a text without such a line names nothing |
| `HostRoutes.DeletesOnlyIdle` | pkg/tun/tun_darwin.go:131-157 | with a wait, a delete follows only on another utun and two equal samples |
| `HostRoutes.DoneMeansRouted` | pkg/tun/tun_darwin.go:131-157 | no error if and only if the route was ours already or the last command added it |
| `HostRoutes.RefusalsChangeNothing` | pkg/tun/tun_darwin.go:136-146 | a refusal issues no changing command |
| `HostRoutes.SamplesDecide` | pkg/tun/tun_darwin.go:131-193 | with a wait, on any replies: the route is deleted if and only if another utun holds it and two samples of that utun can be read and agree |
| `HostRoutes.TakenIffOutputFrozen` | pkg/tun/tun_darwin.go:131-223 | when netstat prints the interface's counters twice, in whatever surroundings, the route is taken if and only if the four fields that are read stood still |
| `HostRoutes.ReceiverLosesItsRoute` | pkg/tun/tun_darwin.go:206-220 | a utun that only receives loses its route |
| `HostRoutes.BusyReceiverLosesItsRoute` | pkg/tun/tun_darwin.go:131-223 | such a call: the answer of `route -n get`, and two tables with header, another interface, an address row with placeholders, and the link row |
| `HostRoutes.NoWaitTakesLiveRoutes` | pkg/tun/tun_darwin.go:179-226 | without a wait, as `AddStarlinkRoute` would call it, one sample is enough, whatever the traffic |
| `DataFrames.Encode` | pkg/aic8800d80/lmac/txdata.go:64-105 | the record is laid out in the buffer, or refused above 2304 bytes |
| `DataFrames.RecordUnpacks` | pkg/aic8800d80/lmac/txdata.go:64-105 | the record carries payload, addresses and ethertype unchanged and its own length in 12 bits |
| `DataFrames.ArpRoundTrip` | pkg/aic8800d80/lmac/net.go:452-475 | decoding an encoded ARP packet, with anything behind it, gives it back |
| `Bridges.Bridge.ReadAndResolve` | cmd/usbwifi/bridge.go:98-146 | which packets are bridged, their next hop, and the request for an unknown one |
| `Bridges.Bridge.Send` | cmd/usbwifi/bridge.go:147-160 | a resolved packet is sent and counted, or dropped and counted |
| `Bridges.Bridge.Handle` | cmd/usbwifi/bridge.go:164-214 | learning, answering and delivering, with the reused frame buffer |
| `Bridges.EveryPacketIsCounted` | cmd/usbwifi/bridge.go:116-161 | every eligible packet is counted once as sent or dropped, or is still in hand |
| `Bridges.ForwardedUnchanged` | cmd/usbwifi/bridge.go:98-161 | each data record holds its packet unchanged, addressed to the gateway or to the address last announced |
| `Bridges.WrittenAsReceived` | cmd/usbwifi/bridge.go:164-214 | the utun gets exactly prefix and payload of each deliverable packet |
| `Bridges.RequestsAreAnswered` | cmd/usbwifi/bridge.go:186-197 | a request for our address is answered to its sender |
| `Bridges.UnknownHopsAreAskedFor` | cmd/usbwifi/bridge.go:84-146 | a packet for a neighbour that has not been announced is dropped and counted, and its destination is asked for by an ARP request to everyone that reads back as ours |
| `Bridges.NothingElseIsSent` | cmd/usbwifi/bridge.go:84-197 | the radio gets one record for a packet in hand, an unknown neighbour or a request for us, and none for any other event |
| `SpeedTests.TransferPhase.Download` | pkg/ping/speedtest.go:154-163 | every chunk read is counted, during the phase or after it, also the one with the end or the error |
| `SpeedTests.TransferPhase.SendError` | pkg/ping/speedtest.go:126-163 | an error goes into the channel and its worker ends |
| `SpeedTests.TransferPhase.Select` | pkg/ping/speedtest.go:179-189 | each ready case of the select loop leads to draining, an error being kept |
| `SpeedTests.TransferPhase.Finish` | pkg/ping/speedtest.go:189-196 | the verdict after all workers are gone |
| `SpeedTests.ReportNeverBlocks` | pkg/ping/speedtest.go:126-163 | the error channel has room whenever a worker reports |
| `SpeedTests.CountIsExact` | pkg/ping/speedtest.go:150-191 | the final count is the sum of the workers' additions, late reads included, 1 MiB for each acknowledged upload |
| `SpeedRuns.CountIsWhatWasRead` | pkg/ping/speedtest.go:150-191 | in every interleaving a download's count is the sum of the bytes of all its reads, the last one of a body included, an upload's 1 MiB for each response read to its end |
| `SpeedRuns.FailedIff` | pkg/ping/speedtest.go:126-196 | the result is a failure if and only if a preparation, a request, a status or, during the phase, an answer or a read has failed, and the run was not interrupted |
| `SpeedTests.VerdictIsRight` | pkg/ping/speedtest.go:181-196 | a failure is returned if and only if some worker reported one and the run was not interrupted |
| `SpeedTests.EveryStepCounts` | pkg/ping/speedtest.go:137-190 | once the phase is over every step, reads of what is left of a response included, brings its end nearer |
| `SpeedTests.PhaseEnds` | pkg/ping/speedtest.go:167-190 | from every reachable state it can end, and within a bounded number of steps |
| `Spectrum.GenerateSpectrumReport` | pkg/wifi/spectrum.go:31-213 | the listed channels with their counts, names, averages, levels and scores, and recommendations that no candidate beats |
| `Spectrum.ScoresAreBounded` | pkg/wifi/spectrum.go:128-159 | scores stay in [5,100] and [10,100] |
| `Spectrum.ScoresOnlyFall` | pkg/wifi/spectrum.go:112-159 | one more hotspot, anywhere in the list, raises no score |
| `Spectrum.ScoreReacts` | pkg/wifi/spectrum.go:110-132 | a network on or beside a channel lowers its score by 22 or 12 down to the floor |
| `Spectrum.Score5Reacts` | pkg/wifi/spectrum.go:153-159 | a network on a 5 GHz channel lowers its score by 20 down to the floor, and no other one's |
| `Spectrum.QuietBand` | pkg/wifi/spectrum.go:104-170 | without networks every channel is clean and 1, 6 and 11 score best |
| `Spectrum.LevelByNetworks` | pkg/wifi/spectrum.go:112-145 | a 2.4 GHz channel is clean, low or congested exactly with so many networks on it and beside it |
| `Spectrum.LevelsOnlyWorsen` | pkg/wifi/spectrum.go:112-170 | one more hotspot, anywhere in the list, makes no channel's level better |
| `Spectrum.CountsAddUp` | pkg/wifi/spectrum.go:71-102 | listed counts plus ignored hotspots equal the total |
| `Spectrum.AverageIsBetween` | pkg/wifi/spectrum.go:108-152 | an average lies between the weakest and the strongest signal of its channel |
| `HiddenNetworks.NamedIff` | pkg/wifi/spectrum.go:79-99 | of the networks seen by beacon the report names all but those that call themselves "<hidden>" |
| `HiddenNetworks.EveryBeaconIsListed` | pkg/wifi/spectrum.go:71-102 | so each is listed by a name on its channel |
| `HiddenNetworks.HiddenIsListed` | pkg/wifi/frame.go:111-113 | a network that hides its name is listed as "<Hidden SSID>" |

## Left out

- Real cryptography (PBKDF2, HMAC, AES key unwrap), random numbers and wall-clock durations: symbolic terms and arbitrary answers stand for them.
- The retry with a sibling access point in `bringup_scan.go`: its `continue` re-enters the inner loop, so a queued candidate is never sent; only the first one exists in the model.
- The state file check that keeps two processes apart: check and write are not atomic, so it excludes nothing for certain.
- `LinkServices.LinkService.Set`: does not model the times a transition carries (`At`, `HeldFor`), because nothing is decided by them.
- `PoisonZones.PoisonRespectedIff`: leaves out poisons in the last four addresses, where the end of the zone wraps around.
- `HybridUpload.BuildHybridOps`: requires bounds that are multiples of the chunk sizes, as the constants are with which it is called, and an image that reaches to the end of the window; the source slices past a shorter image.
- `HybridUpload.Execute`: does not model the optional read-back of each write with its second attempt, nor the option that skips the part below the wall.
- `AdaptiveUpload.PlanAdaptiveUpload`: requires an image inside the 32-bit address space; past its end the source's addresses wrap around.
- `RetentionText.LoadRetentionClasses`: text is a sequence of characters; bytes that are not valid UTF-8 are not modelled, nor is a file that cannot be read.
- `Pump.PacketPump.HandleTcpPacket`: the answers of the real terminal and of the gRPC-Web handler are parameters.
- `Bridges.Bridge.Handle`: the end of both loops after an error or a cancellation is not modelled; it stops the events.
- `SpeedTests.PhaseEnds`: the collector's ticker steps only update the displayed rate and are not steps of the model; a fair choice between ready cases is assumed.
- The speed test's start guard and pipeline, latency statistics and rates: single-lock state and floating-point display values.
- The patch-table writes of the loader, the fixed frame header of `ParseFrame` and the probe-request builder: no property beyond their bodies.
- `Spectrum.GenerateSpectrumReport`: scores are integers (every value is a small whole number), and the recommendation texts are left out.
- The simulated drivers, the HTTP and MCP servers, DriverKit and IOKit code, SwiftUI views and logging.
