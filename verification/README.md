# The virtual LAN of game-bridge, verified

A Dafny model of the Mode 3 virtual LAN in `crates/game-bridge`, and proofs of what it is for: a
program anywhere on this machine can play with the members of a room as if they shared a network
segment, nobody in the room can speak for anybody else, and everybody agrees on who is where.

`dafny verify dfyconfig.toml` checks everything.

## How the model is built

Where the source changes state step by step, so does the model: a class with the source's fields,
methods with its branches and loops, arrays edited in place. Each method's contract equates the
new state and the result with a function of the old state (`Model() == old(Model()).Outbound(..)`
and the like), and the properties are lemmas about those functions, so that they hold of whole
runs. Functions the source computes without state stay functions. Beside the laws about runs there
are lemmas that say, without naming the model's own predicates, what each decision is: `Verdicts`
and `Layouts`, and a section each of `Subnet`, `Members`, `Text`, `Gates`, `MemberSide`, `HostLaws`,
`ServerChat` and `ConnectWatch`.

| files | source | what they are about |
|---|---|---|
| `Wire`, `Ipv4`, `Text` | `lan.rs`, `lan_rebind.rs` | bytes, words, addresses, headers, UTF-8 and plain text |
| `Checksum`, `Rewrite`, `RewriteLaws`, `QuotedLaws`, `UndoLaws`, `ErrorUndo`, `FragmentLaws`, `RoomCheck` | `lan_rebind.rs`, `lan_check.rs` | the packet edit and everything it must keep right |
| `Rebinder`, `Filter`, `Pump` | `lan_rebind.rs`, `lan_filter.rs`, `lan_pump.rs` | the translator, the filter and the pump, as classes |
| `Verdicts` | the same | what each of the three decides, told from bytes, ports, addresses and times alone |
| `FilterLaws`, `TranslatorLaws`, `PumpLaws`, `PumpReplies`, `Marks`, `FullTable`, `PortCache` | the same | history properties of filter and translator, end-to-end transparency, pinned sockets, what a full table loses, the shared port list |
| `Subnet`, `Members`, `Gates`, `Messages` | `lan.rs` | addresses, the member table, storm control, the room's wire form |
| `RoomView`, `Host`, `HostLaws`, `HostSteps`, `MemberSide`, `RoomNames`, `RoomProtocol`, `RoomRuns` | `lan_session.rs` | both sides of a room and what they agree on |
| `Returning` | `lan.rs`, `lan_session.rs` | a member coming back to a running room |
| `Across` | `lan_pump.rs`, `lan_session.rs` | a packet's whole way between two programs, and the answer's; a search's to everyone, and what it finds |
| `Framing`, `Generations` | `framing.rs` | datagrams over link packets, on eight channels, and what a first-generation peer makes of them |
| `ConnectWatch` | `lan_firewall.rs` | the unanswered-connection detector |
| `Announce` | `announce.rs` | the server browser's record |
| `ChatWire`, `ServerChat`, `ChatHeard` | `server_chat.rs` | a server's chat |
| `Fetch` | `repo_mesh.rs` | reading a pack repository over the mesh |
| `Layouts` | all of the above with a wire form | every format by byte positions, and what is refused with which error |

Time is a natural number (milliseconds, or nanoseconds in `Gates`) that each call brings with it.
Integer widths are explicit: 16-bit checksums and epochs modulo 2^32 are written as such, and
arithmetic the source does in `u32` is shown to fit. Tokens, floating point in the source, are
exact here. Hash tables are maps; where the source iterates over one, the model takes its entries
in any order.

## What turned out not to hold as one might wish

Each of these is the code's behaviour, stated by a lemma that says exactly when things go right.

- An edit undoes itself, and an ICMP error restores the bytes a program sent, exactly when the
  checksums involved are not the redundant zero 0xffff (`Checksum.AdjustUndoes`,
  `UndoLaws.RewriteUndoes`, `UndoLaws.ErrorRestores`). No sender computes one. An error that does
  not quote the replaced address must also not quote the one put in its place
  (`ErrorUndo.ErrorUndoes`).
- A full translation table does not refresh a flow it knows (`PumpLaws.FullTableDoesNotRefresh`,
  exactly when: `PumpLaws.RememberedWhen`), so a flow in use runs out: one packet from each of 4096
  ports fills the table (`FullTable.SentFills`), and then a reply inside the filter's window is
  handed over untranslated (`FullTable.FullTableLosesReply`), whatever ports the pack opens. The filter's table does refresh
  (`FilterLaws.OpenedIsRemembered`).
- A member that comes back need not get its old address, even if that is free. It does exactly if
  everything it would rather have is still taken (`Members.ReturnsToOld`); in the five-step run
  `Members.Swap`, in any room with two seats left, it does not (`Members.OldAddressLost`, for
  identities as in `Members.SomeSwap`; as a host's run `Returning.ReturnsElsewhere`, and from a
  room's opening `Returning.OpeningReturns`).
  The comment on `derive_address` (`lan.rs:183-186`) promises the old address whenever it is free;
  the model follows the code.
- Chat strings have a one-byte length while lines of 280 bytes are let through: messages survive
  the wire exactly under 256 bytes (`ChatWire.RoundTrip`, `ChatWire.LongLineLost`), and a member
  reads what was said exactly if no line of it is longer (`ChatHeard.MembersRead`). The format's
  description in `server_chat.rs` does not mention the gap.
- Translating commutes with quoting a prefix exactly if the prefix does not end amid a TCP checksum,
  or its first byte stays the same (`UndoLaws.RewritePrefix`).
- A first-generation framing peer hands back what was sent exactly if no chunk comes inside another
  channel's unfinished datagram; which channels are used does not matter
  (`Generations.GenerationOneExact`, for any interleaving of streams of datagrams UDP can carry).
  `Framing.GenerationOneBraids` shows what comes out otherwise. `framing.rs:50-53` calls every
  nonzero channel unsafe there, which is more than it takes.

## Model

| member | source | states |
|---|---|---|
| Checksum.Fold | crates/game-bridge/src/lan_check.rs:200-203 | the folding loop ends, without leaving 32 bits, at the one representative of the sum modulo 65535 it keeps: 0 only for 0 |
| Checksum.Compute | crates/game-bridge/src/lan_check.rs:188-204 | the checksum computed over a packet is the complement of its folded sum |
| Checksum.ComplementVerifies | crates/game-bridge/src/lan_check.rs:188-204 | a sum with its own complement added verifies, and the complement of a nonzero sum is never 0xffff |
| Checksum.ChecksumAdjust | crates/game-bridge/src/lan_rebind.rs:484-494 | the incremental loop stays within `u32`, ends, and gives the adjustment of RFC 1624, equation 3 |
| Checksum.AdjustRefinesFresh | crates/game-bridge/src/lan_rebind.rs:482-494 | adjusting a from-scratch checksum gives the from-scratch checksum of the changed bytes |
| Checksum.AdjustKeepsVerifying | crates/game-bridge/src/lan_rebind.rs:482-494 | whatever was covered and verified still verifies after the adjustment |
| Checksum.AdjustUndoes | crates/game-bridge/src/lan_rebind.rs:482-494 | adjusting there and back gives the checksum back exactly if it was not 0xffff |
| Rewrite.AdjustUdpAt | crates/game-bridge/src/lan_rebind.rs:468-480 | the UDP edit in place: none stays none, a computed zero is sent as all ones |
| Rewrite.RewriteInPlace | crates/game-bridge/src/lan_rebind.rs:389-416 | the whole edit, on the buffer, equals `Rewritten`, and reports whether it changed anything |
| Rewrite.RewriteQuoted | crates/game-bridge/src/lan_rebind.rs:421-457 | the nested edits of a quoted packet, on the buffer, equal `RewrittenQuoted` |
| Rewrite.SetDscp | crates/game-bridge/src/lan_rebind.rs:317-325 | the DSCP edit, on the buffer, equals `WithDscp` |
| RewriteLaws.RewriteKeepsIpHeader | crates/game-bridge/src/lan_rebind.rs:389-416 | the edit puts the address in place, keeps the other one, the first ten bytes and the length, and the IP header checksum still verifies |
| RewriteLaws.RewriteKeepsSegment | crates/game-bridge/src/lan_rebind.rs:404-415 | a TCP or UDP checksum that verified against the old pseudo-header verifies against the new one |
| QuotedLaws.NoChecksumStays | crates/game-bridge/src/lan_rebind.rs:468-480 | UDP sent without a checksum stays without one, and nothing past its IP header changes |
| QuotedLaws.RewriteKeepsIcmp | crates/game-bridge/src/lan_rebind.rs:421-457 | the ICMP checksum still verifies after up to three nested edits |
| QuotedLaws.QuotedIsEdited | crates/game-bridge/src/lan_rebind.rs:421-457 | whatever well-formed packet an error quotes, a quote of another address is left as it is, and one of the edited address is translated in its header and transport but not in what it quotes in turn |
| QuotedLaws.QuotedIsRewritten | crates/game-bridge/src/lan_rebind.rs:421-457 | so the quoted packet, ICMP included, is translated exactly as that packet itself would be, unless it is an error that itself quotes the edited address |
| QuotedLaws.RewriteKeepsQuoted | crates/game-bridge/src/lan_rebind.rs:421-457 | for every error whose quoted header is at least 20 bytes: the quoted IP header checksum and, wherever the quoted segment ends, its TCP or UDP checksum still verify |
| UndoLaws.AdjustUdpUndoes | crates/game-bridge/src/lan_rebind.rs:468-480 | the UDP adjustment always undoes itself |
| UndoLaws.RewriteUndoes | crates/game-bridge/src/lan_rebind.rs:389-416 | translating there and back restores every byte of any packet but an ICMP error exactly if no plainly adjusted checksum was 0xffff |
| ErrorUndo.ErrorUndoes | crates/game-bridge/src/lan_rebind.rs:389-457 | translating an ICMP error there and back restores every byte exactly if none of its up to three plainly adjusted checksums was 0xffff and, where it does not quote the replaced address, it does not quote the new one |
| UndoLaws.RewritePrefix | crates/game-bridge/src/lan_rebind.rs:389-416 | translating anything but an ICMP error commutes with quoting a prefix exactly if that does not end amid the checksum, or that byte of it stays the same |
| UndoLaws.ErrorRestores | crates/game-bridge/src/lan_rebind.rs:249-282 | an error about a translated packet, translated back, is addressed to the program and quotes the bytes it sent, exactly if their checksums are ones a sender computes |
| FragmentLaws.LaterPieceKept | crates/game-bridge/src/lan_rebind.rs:400-404 | a later piece changes in its header only |
| FragmentLaws.PiecesTranslateAsOne | crates/game-bridge/src/lan_rebind.rs:389-416 | translating each piece of a datagram translates the datagram: the reassembled transport checksum verifies against the new pseudo-header |
| FragmentLaws.DscpKeeps | crates/game-bridge/src/lan_rebind.rs:317-325 | marking keeps the congestion bits, the IP header checksum, and every byte but three |
| RoomCheck.BuildUdp | crates/game-bridge/src/lan_check.rs:156-184 | the packet built in place equals `UdpPacket` |
| RoomCheck.BuiltVerifies | crates/game-bridge/src/lan_check.rs:156-184 | its IP header and UDP checksums verify, and the UDP checksum is never zero |
| RoomCheck.RewriteOfBuilt | crates/game-bridge/src/lan_check.rs:156-184 | translating a built packet gives, byte for byte, the packet built for the other address: the incremental form refines the from-scratch one |
| RoomCheck.ReadBuilt | crates/game-bridge/src/lan_check.rs:106-134 | a built probe or reply is read back as what was built |
| RoomCheck.BuiltFields | crates/game-bridge/src/lan_check.rs:156-184 | every field of a built packet: total length, 64 hops, unfragmented, ports and lengths |
| Layouts.ProbeLayout | crates/game-bridge/src/lan_check.rs:106-134 | what a probe is, byte for byte |
| RoomCheck.AnswerMirrors | crates/game-bridge/src/lan_check.rs:139-147 | exactly probes from others are answered; an answer is a valid reply to the asker with the same nonce, and is never answered in turn |
| Rebinder.Rebinder.Outbound | crates/game-bridge/src/lan_rebind.rs:193-244 | the tables, the buffer and the report after a packet out, in full |
| Rebinder.Rebinder.FindTarget | crates/game-bridge/src/lan_rebind.rs:288-312 | the target by flow, then search, then survey, keeping what it used fresh |
| Rebinder.Rebinder.Inbound | crates/game-bridge/src/lan_rebind.rs:249-282 | the tables and the packet to deliver instead |
| Rebinder.Deliver | crates/game-bridge/src/lan_rebind.rs:275-281 | the copy that is delivered: destination, then the mark |
| Verdicts.OutboundAddresses | crates/game-bridge/src/lan_rebind.rs:193-244 | what leaves is addressed to the room's broadcast exactly if its destination was another network's broadcast or a .0 or .255 of the subnet but its last address, and comes from the room address exactly if another of this machine's addresses sent it; what was edited is reported |
| Verdicts.ShortLeftAlone | crates/game-bridge/src/lan_rebind.rs:389-416 | a packet shorter than its header says is not touched |
| Verdicts.TargetDecided | crates/game-bridge/src/lan_rebind.rs:288-312 | the flow with that peer decides, else a search on that port, both noted less than 300 seconds ago, else the survey |
| Verdicts.TargetNoted | crates/game-bridge/src/lan_rebind.rs:288-306 | what decided is noted as used now, and nothing else changes |
| Verdicts.LaterPieceDecided | crates/game-bridge/src/lan_rebind.rs:254-258 | a later piece follows its first, noted less than 5 seconds ago, and nothing else |
| Verdicts.FirstPieceNoted | crates/game-bridge/src/lan_rebind.rs:271-274 | a first piece is noted with its target, and what is 5 seconds old forgotten |
| Verdicts.ErrorsAre | crates/game-bridge/src/lan_rebind.rs:357-361 | the ICMP errors whose quote is translated, by type and length |
| Verdicts.QuotesFlow | crates/game-bridge/src/lan_rebind.rs:345-355 | which flow an ICMP error is about, read off what it quotes |
| Filter.LanFilter.Outbound | crates/game-bridge/src/lan_filter.rs:213-247 | the flow table and the verdict on a packet out |
| Filter.LanFilter.Inbound | crates/game-bridge/src/lan_filter.rs:253-275 | the tables and the verdict on a packet in |
| Filter.LanFilter.RememberFlow | crates/game-bridge/src/lan_filter.rs:289-297 | sweeps for a new flow into a full table, and refreshes a known one whatever |
| Filter.LanFilter.SyncExtra | crates/game-bridge/src/lan_filter.rs:183-195 | a changed generation brings the policy and the switch up to the shared values; an equal one changes nothing |
| Filter.ExtraPorts.Set | crates/game-bridge/src/lan_filter.rs:350-363 | one port that is not allowable refuses all and changes nothing; else the distinct ports are stored and counted |
| Filter.Refusal | crates/game-bridge/src/lan_filter.rs:350-353 | the first port that is not allowable, if there is one |
| Verdicts.OutboundAllows | crates/game-bridge/src/lan_filter.rs:213-247 | a unicast is always let out; a broadcast exactly if its port is listed, or is none of the system's and is open; where there are no ports, if the pack opens everything or it is a later piece; a refusal changes nothing |
| Verdicts.NoiseStays | crates/game-bridge/src/lan_filter.rs:222-229 | with everything open and nothing listed, a broadcast to 137, 138, 1900 or 5353 is refused |
| Verdicts.InboundAllows | crates/game-bridge/src/lan_filter.rs:253-285 | ICMP always; a piece with ports exactly if its port is open or it mirrors a flow noted less than 180 seconds ago; a later piece within 30 seconds of its first; another protocol if the pack opens everything |
| Verdicts.Unreadable | crates/game-bridge/src/lan_filter.rs:111-134 | what cannot be read is let out and in nowhere |
| Verdicts.FirstPieceVouches | crates/game-bridge/src/lan_filter.rs:269-273 | a first piece let in is noted, and what is 30 seconds old forgotten |
| Verdicts.KeptOnce | crates/game-bridge/src/lan_filter.rs:354-359 | the ports a player allows are kept once each |
| Verdicts.AddedOnce | crates/game-bridge/src/lan_filter.rs:188-193 | and none is added that is listed already |
| Verdicts.OpenAfterChange | crates/game-bridge/src/lan_filter.rs:183-195 | after a change, open are exactly the pack's ports, the player's and, with the switch, those a click may open, by number |
| FilterLaws.FlowsBounded | crates/game-bridge/src/lan_filter.rs:289-297 | the flow table never exceeds MAX_FLOWS, over every run |
| FilterLaws.RunExplained | crates/game-bridge/src/lan_filter.rs:213-297 | everything in the tables is vouched for by packets of the run |
| FilterLaws.AdmittedIsReply | crates/game-bridge/src/lan_filter.rs:253-285 | a packet to an undeclared port is let in only on a flow mirroring its ports, linked to this side's own packets by uses less than FLOW_IDLE apart |
| FilterLaws.FlowOpened | crates/game-bridge/src/lan_filter.rs:213-247 | following the links back ends at a packet this side sent and the filter let out, opening that flow |
| FilterLaws.AdmittedWasAskedFor | crates/game-bridge/src/lan_filter.rs:213-285 | so this side had sent a packet with exactly mirrored ports, to that peer, to 0.0.0.0, or to a broadcast on a port let out |
| FilterLaws.RestFollowsFirst | crates/game-bridge/src/lan_filter.rs:253-275 | a later fragment is let in only within FRAGMENT_WINDOW of an admitted first of the same source, id and protocol |
| FilterLaws.OpenedIsRemembered | crates/game-bridge/src/lan_filter.rs:289-297 | a packet opening a flow is remembered exactly when the flow fits |
| FilterLaws.ReplyAdmitted | crates/game-bridge/src/lan_filter.rs:47-49 | after that, as long as a packet either way uses the flow less than FLOW_IDLE after the last, every mirrored packet is let in, whatever came between |
| FilterLaws.WindowKeepsUp | crates/game-bridge/src/lan_filter.rs:47-49 | in particular for any run in order within one FLOW_IDLE |
| PortCache.StepInv | crates/game-bridge/src/lan_filter.rs:183-195 | every interleaved step of setters and the reader keeps the cache invariant |
| PortCache.MergedLists | crates/game-bridge/src/lan_filter.rs:188-193 | a merged policy lists exactly the pack's ports and the extra ones |
| PortCache.DistinctSame | crates/game-bridge/src/lan_filter.rs:354-359 | deduplicating keeps exactly the ports asked for |
| PortCache.CacheCoherent | crates/game-bridge/src/lan_filter.rs:347-382 | whenever the generations match and no setter is midway, the filter admits exactly the pack's ports, the player's and, with the switch, the allowable ones |
| PortCache.SyncCatchesUp | crates/game-bridge/src/lan_filter.rs:183-195 | a sync nobody interrupts catches up |
| PortCache.TakesWhatItRead | crates/game-bridge/src/lan_filter.rs:183-195 | a sync takes what it read when it read it; a later write waits for the next |
| Pump.Pump.UpStep | crates/game-bridge/src/lan_pump.rs:102-176 | one turn of the up half, on the buffer: the port list brought up to date, translator, then what stops a packet, then filter |
| Pump.Pump.DownStep | crates/game-bridge/src/lan_pump.rs:178-228 | one turn of the down half: the port list brought up to date, filter, then probes answered, then translator |
| Verdicts.DroppedWhen | crates/game-bridge/src/lan_pump.rs:178-204 | what the room delivers is dropped exactly if the filter refuses it, or it is for none of this member, 255.255.255.255, the subnet's last address and 224.x to 239.x |
| Verdicts.HandedWhen | crates/game-bridge/src/lan_pump.rs:195-219 | what is not dropped and no probe is handed over, as it came unless it is for this member alone |
| Verdicts.ProbeAnswered | crates/game-bridge/src/lan_pump.rs:205-212 | a probe let in is answered, to its sender, unless it is this member itself, and never handed over |
| Verdicts.SentWhen | crates/game-bridge/src/lan_pump.rs:102-176 | what the machine sends leaves translated unless it still comes from another address, tells a member an open port is closed, is the system's noise from another network, or the filter refuses it, and for no other reason |
| Verdicts.SentUnseated | crates/game-bridge/src/lan_pump.rs:112-176 | without an address only the filter decides |
| PumpLaws.RememberedWhen | crates/game-bridge/src/lan_rebind.rs:223-240 | a translated flow is written down exactly when there is room, or it was there just so |
| PumpLaws.FullTableDoesNotRefresh | crates/game-bridge/src/lan_rebind.rs:232-239 | a full translation table leaves even a known flow untouched |
| FullTable.SentFills | crates/game-bridge/src/lan_pump.rs:102-176 | one packet from each of n local ports to one member, up to MAX_FLOWS, leaves exactly those n flows in both tables |
| FullTable.FullTableLosesReply | crates/game-bridge/src/lan_rebind.rs:232-239 | then a reply 110 seconds after the packet it answers, let in by the filter, is handed over addressed to the room address and not to the program |
| PumpLaws.SendsOwnAddress | crates/game-bridge/src/lan_pump.rs:119-122 | whatever a seated member's up half sends into the room carries its room address as source |
| PumpLaws.AnswersFromOwnAddress | crates/game-bridge/src/lan_pump.rs:205-212 | and so does the answer to a probe, which the down half sends |
| PumpLaws.RunKeeps | crates/game-bridge/src/lan_rebind.rs:193-312 | whatever the pump carries in between, entries no other local address takes stay, as fresh, in all three tables |
| PumpLaws.UnicastLeaves | crates/game-bridge/src/lan_pump.rs:102-176 | a program's unicast leaves with the room address, and both tables remember it |
| PumpLaws.UnicastRoundTrip | crates/game-bridge/src/lan_pump.rs:102-228 | the answer is let in and handed to the program, addressed to it, however long the two talk: while the translator and, for a port not open, the filter note a packet either way less than their FLOW_IDLE after the last |
| PumpLaws.ConversationNoted | crates/game-bridge/src/lan_rebind.rs:193-312 | over any run kept up so, both tables note the conversation, as late as its last packet noted |
| PumpLaws.WindowKeepsUp | crates/game-bridge/src/lan_filter.rs:47-49 | any run in order within one FLOW_IDLE of the filter keeps it up |
| TranslatorLaws.RunExplained | crates/game-bridge/src/lan_rebind.rs:193-312 | over every run, each entry of the translator's tables is linked, by uses less than FLOW_IDLE apart, to packets its address sent, and each piece noted had a target so explained |
| TranslatorLaws.TranslatedIsSourced | crates/game-bridge/src/lan_rebind.rs:15-19 | a packet is handed over edited only if it came for the room address, for one target: the survey's for that port, one so linked to a packet with mirrored ports, or the one of the datagram's first piece less than FRAGMENT_WINDOW ago |
| TranslatorLaws.LinkIsSent | crates/game-bridge/src/lan_rebind.rs:193-244 | the links lead back to a packet that address sent, to that peer or as a search, when it was one of this machine |
| TranslatorLaws.OnlyOwnAddresses | crates/game-bridge/src/lan_rebind.rs:20-24 | so only addresses a survey gave a port to, or found to be this machine's when they sent, ever take the room address's place |
| Across.UnicastPasses | crates/game-bridge/src/lan_session.rs:849-861 | a packet between the addresses of two in the room, host included, is sent by the one, forwarded once to the other and to nobody else, and taken there unchanged |
| Across.PacketArrives | crates/game-bridge/src/lan_pump.rs:102-228 | what a program sends to a member reaches the program there, out of one pump, through the host and in at the other, if that one's port is open or the flow its own |
| Across.ThereAndBack | crates/game-bridge/src/lan_pump.rs:102-228 | and the answer reaches the first program, as long as the conversation is kept up, wherever the two are bound and whoever hosts |
| Across.BroadcastPasses | crates/game-bridge/src/lan_session.rs:924-951 | a broadcast from a member's address that the gate lets through is put on every other seat's link once, and taken by the host unless it sent it |
| Across.SearchReaches | crates/game-bridge/src/lan_pump.rs:102-228 | a program's search, to the room's broadcast, another network's or an old game's, reaches every other member and is handed over as it is by every machine whose port is open |
| Across.SearchAnswered | crates/game-bridge/src/lan_pump.rs:102-228 | and what any of their programs answers within FLOW_IDLE reaches the program that searched |
| PumpReplies.SearchRoundTrip | crates/game-bridge/src/lan_pump.rs:102-228 | a broadcast search, its conditions told by address and port, leaves for the room's broadcast or the one it named from the room address, and any member's answer comes back to the program |
| PumpReplies.ErrorRoundTrip | crates/game-bridge/src/lan_pump.rs:102-228 | an ICMP error about what the program sent reaches it, quoting what it sent, exactly if the checksums are canonical |
| PumpReplies.SurveyedTarget | crates/game-bridge/src/lan_rebind.rs:307-312 | with no live flow or search, the target is the first address the survey found the port on |
| PumpReplies.PinnedIsMarked | crates/game-bridge/src/lan_rebind.rs:278-280 | what is handed over is marked exactly for a pinned socket, congestion bits kept |
| Marks.AnswerIsMarked | crates/game-bridge/src/lan_rebind.rs:208-221 | what a program is answered is marked exactly if its socket was pinned when the flow opened, as its flow knew or a probe of UDP said, however long the conversation since |
| PumpReplies.LaterPieceSameTarget | crates/game-bridge/src/lan_rebind.rs:254-274 | once a first piece was translated, every later piece within the window goes to the same target, unless another first piece reuses its key |
| PumpReplies.PiecesDeliverAsOne | crates/game-bridge/src/lan_rebind.rs:254-282 | the pieces as handed over reassemble into one datagram for the program whose transport checksum verifies |
| Subnet.New | crates/game-bridge/src/lan.rs:119-129 | a subnet is accepted exactly inside 198.18.0.0/15 with 8 to 16 host bits, and holds the address it came from |
| Subnet.WithHostIs | crates/game-bridge/src/lan.rs:175-178 | prefix and host part combine to an address of the subnet |
| Subnet.AssignableIsNoBroadcast | crates/game-bridge/src/lan.rs:150-172 | no address a member may be given is one `is_broadcast` accepts |
| Subnet.Trichotomy | crates/game-bridge/src/lan.rs:150-172 | each address of the subnet is assignable, the broadcast, or an old game's broadcast, and only one of them |
| Subnet.ContainsIs | crates/game-bridge/src/lan.rs:139-141 | the subnet is its prefix and the HostSize - 1 addresses after it |
| Subnet.HostSizeHalves | crates/game-bridge/src/lan.rs:131-133 | 65536 of them at /16 and half as many for each bit more |
| Subnet.ReachesAll | crates/game-bridge/src/lan.rs:150-152 | a broadcast is 255.255.255.255, the subnet's last address, or 224.x to 239.x |
| Subnet.OldBroadcastIs | crates/game-bridge/src/lan.rs:160-162 | an old game's broadcast is a .0 or .255 of the subnet but its last address |
| Members.MemberTable.Admit | crates/game-bridge/src/lan.rs:295-319 | the table and the answer after a seating |
| Members.MemberTable.Remove | crates/game-bridge/src/lan.rs:322-330 | the table after an unseating, and whether it changed |
| Members.SomeHostFree | crates/game-bridge/src/lan.rs:312-316 | fewer members than assignable hosts leave one free |
| Members.AdmitMeets | crates/game-bridge/src/lan.rs:295-319 | seating refuses exactly a stranger to a full room; otherwise an identity keeps its address or gets the first free one in its order, and the table stays valid |
| Members.TryIs | crates/game-bridge/src/lan.rs:187-196 | the k-th address tried has the prefix and, for k below 8, bytes 2k and 2k + 1 of the identity as host part, then 1, 2, 3 and on |
| Members.SeatedAtFirstHost | crates/game-bridge/src/lan.rs:302-316 | a newcomer is given the first of those host parts that ends neither in 0 nor 255 and that no member has |
| Members.ReturnNoWorse | crates/game-bridge/src/lan.rs:302-316 | a returning member never gets an address less preferred than a free one |
| Members.ReturnsToOld | crates/game-bridge/src/lan.rs:302-316 | it gets its old address back exactly if that is the first free one in its order |
| Members.OldAddressLost | crates/game-bridge/src/lan.rs:295-330 | in any room with two seats left, a run of five seatings and unseatings after which a member is at another address while its old one is free |
| Members.SomeSwap | crates/game-bridge/src/lan.rs:187-196 | in every subnet, identities with the same first two bytes, neither 0 nor 255 last, make such a run |
| Returning.ReturnsElsewhere | crates/game-bridge/src/lan_session.rs:836-921 | the same as a running host's events, from every host state with two seats left: links come, prove who they are and close |
| Returning.OpeningReturns | crates/game-bridge/src/lan_session.rs:437-455 | and from the opening of any room for three or more whose host is at another address |
| Members.RemoveMeets | crates/game-bridge/src/lan.rs:322-330 | unseating takes out that identity only, counted exactly if it was in |
| Members.LookupsAgree | crates/game-bridge/src/lan.rs:280-286 | in a valid table the lookups by identity and by address are each other's inverse |
| Members.ReachableValid | crates/game-bridge/src/lan.rs:264-330 | every reachable table has identities and addresses pairwise apart, all assignable |
| Gates.BroadcastGate.Allow | crates/game-bridge/src/lan.rs:705-729 | the bucket and the verdict after a broadcast |
| Gates.ChatGate.Allow | crates/game-bridge/src/lan.rs:746-757 | the bucket and the verdict after a chat line |
| Gates.WindowBound | crates/game-bridge/src/lan.rs:703-762 | in any window without a `forget`, a member is let through at most a burst plus the rate over its length |
| Gates.BroadcastBound | crates/game-bridge/src/lan.rs:703-735 | at most 40 broadcasts plus 20 a second |
| Gates.ChatBound | crates/game-bridge/src/lan.rs:745-762 | at most 5 chat lines plus one every two seconds |
| Gates.BroadcastLetThrough | crates/game-bridge/src/lan.rs:703-729 | a broadcast that repeats nothing and comes 50 ms or more after the last call is let through |
| Gates.ChatLetThrough | crates/game-bridge/src/lan.rs:746-757 | so is a chat line two seconds after the last |
| Gates.BroadcastOwed | crates/game-bridge/src/lan.rs:703-729 | before a broadcast that repeats nothing is refused, 20 a second were let through in any window of up to two seconds, 40 in any longer one |
| Gates.SustainedRate | crates/game-bridge/src/lan.rs:672-729 | a member refused again and again, at least every 1.95 s, is let through 20 times a second over any window |
| Gates.ChatOwed | crates/game-bridge/src/lan.rs:746-757 | before a chat line is refused, one was let through for every two seconds of any window of up to ten, five in any longer one |
| Gates.RepeatsApart | crates/game-bridge/src/lan.rs:718-724 | identical broadcasts let through in a row are at least 250 ms apart |
| Gates.OthersDoNotMatter | crates/game-bridge/src/lan.rs:690-735 | what a gate keeps on a member is what it would had nobody else called |
| Gates.DecidedAlone | crates/game-bridge/src/lan.rs:690-762 | so nobody else decides whether a member is let through |
| Messages.EncodeMembers | crates/game-bridge/src/lan.rs:470-486 | the loop writing a table gives its wire form |
| Messages.EncodeNames | crates/game-bridge/src/lan.rs:499-511 | the loop writing names gives their wire form |
| Messages.DecodeNamesLoop | crates/game-bridge/src/lan.rs:571-590 | the loop reading names, with every error where the source has it |
| Messages.RoundTrip | crates/game-bridge/src/lan.rs:466-602 | a message arrives as it was sent exactly if it is within its limits |
| Messages.DecodedIsSendable | crates/game-bridge/src/lan.rs:525-602 | whatever decodes is within every limit |
| Layouts.RoomKinds | crates/game-bridge/src/lan.rs:346-356 | the byte each message starts with, and the bodies that follow it |
| Layouts.MembersLayout | crates/game-bridge/src/lan.rs:470-486 | a table by byte positions: epoch, prefix and length, count, then twenty bytes a member |
| Layouts.NamesLayout | crates/game-bridge/src/lan.rs:499-511 | names by byte positions |
| Layouts.RoomRefuses | crates/game-bridge/src/lan.rs:525-602 | what is refused, and with which error |
| Layouts.TableRefused | crates/game-bridge/src/lan.rs:540-566 | a table is refused for being short, its subnet, its count, or fewer members than that, in that order |
| Layouts.NamesRefused | crates/game-bridge/src/lan.rs:571-590 | names are refused for their count, a name cut short, or one that is not plain |
| Layouts.CapacityIs | crates/game-bridge/src/lan.rs:264-266 | a room is for 1 to 32, whatever is asked for |
| Text.FirstIs | crates/game-bridge/src/lan.rs:450-456 | the first character read is c exactly if c is a Unicode scalar value and the bytes begin with its own, shortest encoding |
| Text.CharsAre | crates/game-bridge/src/lan.rs:450-456 | bytes read as characters exactly if they are those characters' encodings, one after another |
| Text.PlainWhen | crates/game-bridge/src/lan.rs:369-386 | a name is one line of at most 32 bytes, a chat line one of at most 280, without white space at an end or a control character, by code point |
| RoomView.RoomView.Apply | crates/game-bridge/src/lan_session.rs:248-258 | the view after a table: the newest wins by the wrapped comparison |
| RoomView.ChatLog.Push | crates/game-bridge/src/lan_session.rs:186-196 | lines are numbered on and stamped with the time of day, the last CHAT_KEPT kept |
| RoomView.PushedLast | crates/game-bridge/src/lan_session.rs:186-196 | the lines kept are the last 200, numbered on, the newest last and stamped |
| Host.Host.constructor | crates/game-bridge/src/lan_session.rs:437-455 | a room opens with its host seated and its view showing that |
| Host.Host.SendAll | crates/game-bridge/src/lan_session.rs:933-939 | each seat but one is sent the message exactly once, in whatever order |
| Host.Host.SeatPeer | crates/game-bridge/src/lan_session.rs:884-921 | the host after a link proved an identity, in full |
| Host.Host.Close | crates/game-bridge/src/lan_session.rs:836-848 | the host after a link closed, in full |
| Host.Host.Forward | crates/game-bridge/src/lan_session.rs:924-951 | the host after a packet, in full |
| Host.Host.OnEvent | crates/game-bridge/src/lan_session.rs:773-882 | one turn of the host's loop |
| HostLaws.OpeningValid | crates/game-bridge/src/lan_session.rs:437-455 | the seating invariant holds of a room just opened |
| HostLaws.OpeningIs | crates/game-bridge/src/lan_session.rs:437-455 | a room opens with its host alone in it, at its first free choice, at epoch 1, chat to be had, and nobody told anything |
| HostLaws.StepValid | crates/game-bridge/src/lan_session.rs:807-921 | every event keeps it: the seated and the host are exactly the table's, each seat's link is open and proved it, names and gates are of nobody else, the view is the table |
| HostLaws.RunValid | crates/game-bridge/src/lan_session.rs:773-921 | so it holds over every run |
| HostLaws.OneSeatEach | crates/game-bridge/src/lan_session.rs:757-759 | no two identities share a link |
| HostLaws.Reconnects | crates/game-bridge/src/lan_session.rs:896-910 | a seated member's new link takes over its seat: same table, same address, only that link is told |
| HostLaws.OldLinkClosing | crates/game-bridge/src/lan_session.rs:836-848 | the old link closing later unseats nobody and tells nobody |
| HostLaws.Leaves | crates/game-bridge/src/lan_session.rs:836-848 | only its own seat closing takes a member out, and then everyone left is told |
| HostLaws.SeatedWhen | crates/game-bridge/src/lan_session.rs:884-910 | the allowed are seated while there is room or they have an address |
| HostLaws.RefusedWhen | crates/game-bridge/src/lan_session.rs:884-921 | anyone else is told why not, and nothing else changes |
| HostLaws.NamesAreMembers | crates/game-bridge/src/lan_session.rs:967-976 | the names sent are exactly those given by who is in the table |
| HostLaws.RoutesTo | crates/game-bridge/src/lan.rs:648-669 | broadcasts and unicasts are routed exactly if the source is the sender's own address, and to whom the table says |
| HostLaws.ForwardExact | crates/game-bridge/src/lan_session.rs:924-951 | what is forwarded carries the sender's address; a broadcast let through reaches every other seat once, the host unless it sent it, never the sender; a unicast reaches exactly its addressee |
| HostLaws.NobodySpeaksForAnother | crates/game-bridge/src/lan_session.rs:849-861 | any packet the host sends on because of a link's data carries the address of the identity that link proved |
| HostLaws.HelloAnswered | crates/game-bridge/src/lan_session.rs:856-859 | each Hello of a seated member is answered with the table and the names as they are, and changes nothing |
| HostLaws.NameTaken | crates/game-bridge/src/lan_session.rs:861-866 | a name is taken for the identity the link proved alone, the view shows it, and everyone is told if it is new |
| HostLaws.LineStamped | crates/game-bridge/src/lan_session.rs:867-873 | a line within its rate reaches every seat once, stamped with the identity the link proved |
| HostLaws.HostLineHeard | crates/game-bridge/src/lan_session.rs:793-800 | the host's own line reaches every seat once, under its identity |
| HostLaws.HostNameTold | crates/game-bridge/src/lan_session.rs:793-800 | the host's new name is told to every seat among the others', and shown |
| HostLaws.LinksComeAndGo | crates/game-bridge/src/lan_session.rs:817-832 | a link comes unproved, and only such a one is closed for want of proof |
| HostLaws.NotHeard | crates/game-bridge/src/lan_session.rs:849-855 | what comes by a link that is no seat changes nothing |
| HostLaws.Dropped | crates/game-bridge/src/lan_session.rs:861-882 | a line over its rate, a name already known, and the host's own words are dropped |
| HostSteps.StepFollows | crates/game-bridge/src/lan_session.rs:807-921 | one table change at a time, each counted |
| HostSteps.StepSaid | crates/game-bridge/src/lan_session.rs:807-997 | a link's log only grows, and any table on it is the table now, told to a seat |
| HostSteps.SeatIsInTable | crates/game-bridge/src/lan_session.rs:896-905 | everyone told a table is in it |
| MemberSide.MemberSide.OnEvent | crates/game-bridge/src/lan_session.rs:1025-1171 | one turn of a member's loop |
| MemberSide.MemberSide.Receive | crates/game-bridge/src/lan_session.rs:1183-1189 | a delivered packet is taken exactly if addressed to this member |
| MemberSide.OnlyItsOwn | crates/game-bridge/src/lan_session.rs:1183-1202 | a member originates only from its own address and takes only what is for it |
| MemberSide.Speaks | crates/game-bridge/src/lan_session.rs:1025-1118 | what a member says of itself, and when: Hello on a new link and until seated, its name, its lines, its packets |
| MemberSide.Learns | crates/game-bridge/src/lan_session.rs:1119-1171 | what it makes of each word of its host, and what it answers; by another link it hears nothing |
| RoomNames.AskedUntilHeard | crates/game-bridge/src/lan_session.rs:1143-1160 | given the host's list, over the wire, a seated member says its name again exactly if the host has none or another for it |
| RoomNames.NameSettles | crates/game-bridge/src/lan_session.rs:861-866 | once said and heard, the name is the host's name for that member alone, and the next list gives it back and draws nothing more |
| RoomProtocol.StepInv | crates/game-bridge/src/lan_session.rs:248-258 | the agreement invariant survives any host turn, reconnect, loss, repetition and reordering |
| RoomProtocol.EpochOrder | crates/game-bridge/src/lan_session.rs:248-252 | among fewer than 2^31 changes the wrapped comparison says which epoch is later |
| RoomProtocol.StepForward | crates/game-bridge/src/lan_session.rs:1119-1142 | no step takes a member's copy back |
| RoomProtocol.RunAgrees | crates/game-bridge/src/lan_session.rs:1119-1142 | over every run, reconnects included, the member's copy only moves forward and is whole, one of the tables the host had |
| RoomRuns.RoomAgrees | crates/game-bridge/src/lan_session.rs:248-258 | over every run of a whole room from its opening: each member's copy is one of the host's tables, any two members at the same epoch have the same table, as have a member and the host, and no copy goes back |
| RoomProtocol.EpochIsTable | crates/game-bridge/src/lan_session.rs:248-258 | a view at an epoch is the table at that epoch |
| RoomProtocol.PresentTableRepairs | crates/game-bridge/src/lan_session.rs:953-964 | in any reachable state, delivering the host's present table makes the view that table |
| RoomProtocol.RefreshRepairs | crates/game-bridge/src/lan_session.rs:801-802 | which the refresh timer sends to every seat |
| Framing.FrameDatagram | crates/game-bridge/src/framing.rs:115-135 | the cutting loop gives `Frame` |
| Framing.FrameOnChannel | crates/game-bridge/src/framing.rs:141-151 | the header edit gives `FrameOn`, and a channel over seven is refused |
| Framing.Reassembler.Push | crates/game-bridge/src/framing.rs:207-226 | the buffer and the datagram after a chunk |
| Framing.ChannelReassembler.Push | crates/game-bridge/src/framing.rs:173-192 | the buffers and the datagram after a chunk |
| Layouts.ChunksAre | crates/game-bridge/src/framing.rs:115-135 | chunks of 1900 bytes behind a 0, the last behind a 1, in order |
| Layouts.ChannelBits | crates/game-bridge/src/framing.rs:141-151 | a channel is in bits 1 to 3 of each header, and nothing else differs |
| Layouts.Completes | crates/game-bridge/src/framing.rs:207-226 | a datagram is complete with its final chunk, and handed back up to 65535 bytes |
| Framing.EightReassemblers | crates/game-bridge/src/framing.rs:173-192 | one reassembler with a buffer a channel is eight, each fed its own chunks, whatever the chunks |
| Framing.StreamArrives | crates/game-bridge/src/framing.rs:115-226 | a framed stream arrives whole and in order, less datagrams over 65535 bytes |
| Framing.ChannelsNeverBraid | crates/game-bridge/src/framing.rs:141-192 | any interleaving of streams arrives, channel by channel, as what was sent |
| Framing.ChannelZeroIsGenerationOne | crates/game-bridge/src/framing.rs:137-151 | on channel 0 the second generation sends what the first does |
| Framing.GenerationOneIsChannelZero | crates/game-bridge/src/framing.rs:161-192 | and takes what the first sends, datagram for datagram |
| Framing.GenerationOneBraids | crates/game-bridge/src/framing.rs:50-53 | an example of what a first-generation peer hands back otherwise: two datagrams, each spliced into the other |
| Generations.InTurnArrives | crates/game-bridge/src/framing.rs:207-226 | whatever the chunks, if none comes inside another channel's unfinished datagram, both generations hand back the same datagrams in the same order |
| Generations.GenerationOneExact | crates/game-bridge/src/framing.rs:50-55 | for any interleaving of streams of datagrams UDP can carry, a first-generation peer hands back the datagrams sent exactly if no chunk comes inside another channel's unfinished datagram |
| Generations.OversizeHides | crates/game-bridge/src/framing.rs:207-226 | with a datagram over the size UDP can carry the two may agree out of turn, for what is dropped hides it |
| ConnectWatch.ConnectWatch.Sweep | crates/game-bridge/src/lan_firewall.rs:125-139 | exactly the overdue are reported, once each, and remembered by port |
| ConnectWatch.ConnectWatch.SawDelivered | crates/game-bridge/src/lan_firewall.rs:145-154 | a first segment starts a watch if there is room, never restarts one |
| ConnectWatch.ConnectWatch.SawOutbound | crates/game-bridge/src/lan_firewall.rs:158-170 | an answer ends the watch and the warning |
| ConnectWatch.ReportedIsUnanswered | crates/game-bridge/src/lan_firewall.rs:123-170 | what is reported was delivered at least ANSWER_GRACE ago and not answered or forgotten since |
| ConnectWatch.UnansweredIsReported | crates/game-bridge/src/lan_firewall.rs:123-170 | a watched connection nobody answers is reported by exactly the first call at or after its grace, however often it is sent again |
| ConnectWatch.UnwatchedWhen | crates/game-bridge/src/lan_firewall.rs:148-151 | a connection goes unwatched only when the watch is full |
| ConnectWatch.StartsWhen | crates/game-bridge/src/lan_firewall.rs:145-153 | a watch starts with SYN and no ACK, by the bits of the segment, below 512 |
| ConnectWatch.EndsWhen | crates/game-bridge/src/lan_firewall.rs:158-169 | it ends exactly with a reset, or SYN and ACK, sent back on the same ports |
| ConnectWatch.Answering | crates/game-bridge/src/lan_firewall.rs:158-169 | so a bare RST ends it, and a bare ACK does not |
| ConnectWatch.GraceIs | crates/game-bridge/src/lan_firewall.rs:59 | a connection is overdue after three seconds |
| ConnectWatch.WarningKept | crates/game-bridge/src/lan_firewall.rs:125-139 | a warning is kept for ten minutes |
| Announce.FlagsThere | crates/game-bridge/src/announce.rs:74-101 | flags survive their byte |
| Announce.FlagsBack | crates/game-bridge/src/announce.rs:74-101 | a byte survives its flags but for the reserved bits |
| Layouts.FlagBits | crates/game-bridge/src/announce.rs:55-101 | which bit is which flag |
| Layouts.RecordLayout | crates/game-bridge/src/announce.rs:146-206 | a record by byte positions |
| Layouts.RecordRefused | crates/game-bridge/src/announce.rs:146-206 | why a record is not written, the first reason first, by number |
| Layouts.RowWhen | crates/game-bridge/src/announce.rs:297-330 | what is no record: over 316 bytes, or a bare name |
| Layouts.FieldRefused | crates/game-bridge/src/announce.rs:297-380 | each field: a length out of bounds first, then one cut short, then what is no text |
| Announce.EncodeRecord | crates/game-bridge/src/announce.rs:146-206 | the encoder, with its errors in order, gives `Encode` |
| Announce.DecodeTlvs | crates/game-bridge/src/announce.rs:381-397 | the walk over the TLVs gives `ReadTlvs` |
| Announce.EncodeDecode | crates/game-bridge/src/announce.rs:146-206 | every record that encodes decodes to itself, within 284 bytes |
| Announce.DecodeEncode | crates/game-bridge/src/announce.rs:297-415 | bytes decoding to a record re-encode to themselves, reserved bits cleared, exactly if its values are known |
| Announce.PrefixDecodes | crates/game-bridge/src/announce.rs:297-415 | a cut record decodes exactly when cut at the end of the map or of a TLV, to the same record with the TLVs left |
| ChatWire.DecodeMessage | crates/game-bridge/src/server_chat.rs:184-217 | the cursor's walk gives `Decode` |
| ChatWire.RoundTrip | crates/game-bridge/src/server_chat.rs:108-217 | an encoded message decodes to itself exactly if its text is under 256 bytes and its roster whole |
| ChatWire.LongLineLost | crates/game-bridge/src/server_chat.rs:108-111 | a line within the cap that does not arrive |
| ChatWire.StreamBack | crates/game-bridge/src/server_chat.rs:221-245 | the stream gives back the messages written to it, in order |
| Layouts.ChatKinds | crates/game-bridge/src/server_chat.rs:108-180 | the byte each chat message starts with, and what is not encoded |
| Layouts.LineLayout | crates/game-bridge/src/server_chat.rs:108-180 | a line by byte positions |
| Layouts.RosterLayout | crates/game-bridge/src/server_chat.rs:151-161 | a roster by byte positions |
| Layouts.StreamLayout | crates/game-bridge/src/server_chat.rs:221-245 | two bytes of length come first; none, or over 8192, ends the reading |
| ServerChat.ChatHub.Hello | crates/game-bridge/src/server_chat.rs:413-434 | a link that says Hello is queued the welcome and what was said |
| ServerChat.ChatHub.Say | crates/game-bridge/src/server_chat.rs:461-478 | what a member's line does, and whether it was said |
| ServerChat.ChatHub.HostSay | crates/game-bridge/src/server_chat.rs:481-495 | what the host's line does |
| ServerChat.LogIsLast | crates/game-bridge/src/server_chat.rs:272-281 | lines are numbered without gap or repeat, and the last HISTORY kept |
| ServerChat.MembersHearAll | crates/game-bridge/src/server_chat.rs:413-495 | a member's queue holds the last HISTORY lines before its Hello and every line since, once, in order, until it leaves or chat is turned off |
| ChatHeard.QueueRead | crates/game-bridge/src/server_chat.rs:184-245 | the bytes written for a queue read back to its lines, in order, exactly if each is under 256 bytes, whatever names its rosters hold |
| ChatHeard.MembersRead | crates/game-bridge/src/server_chat.rs:413-495 | so that is exactly when a member reads the last HISTORY lines before its Hello and every line since |
| ServerChat.LinesAreStamped | crates/game-bridge/src/server_chat.rs:461-495 | each line is stamped with the host's identity or one its link had proved |
| ServerChat.SaidExactly | crates/game-bridge/src/server_chat.rs:461-478 | a member's line is said exactly if chat is on, the line is plain, its link is here and has proved who it is, that identity is not muted, all told from the history, and its rate allows it |
| ServerChat.SentToMember | crates/game-bridge/src/server_chat.rs:437-459 | everybody is sent the roster exactly when it changes, a line when one is said, and nothing else |
| ServerChat.Welcomed | crates/game-bridge/src/server_chat.rs:413-434 | a newcomer is welcomed, told who is here, and then the lines kept |
| Fetch.FetchOverMesh | crates/game-bridge/src/repo_mesh.rs:214-249 | the reading loop gives `Fetch`, and ends |
| Fetch.FetchBounded | crates/game-bridge/src/repo_mesh.rs:214-249 | against any answers at most `max` bytes come back, in at most `max` + 2 requests |
| Fetch.RequestParses | crates/game-bridge/src/repo_mesh.rs:166-171 | a request is understood exactly if the name's length fits its byte |
| Fetch.FetchExact | crates/game-bridge/src/repo_mesh.rs:206-277 | against a seed that holds the file, with at most one answer lost, exactly that file comes back, exactly if it is within `max` |
| Fetch.FetchAbsent | crates/game-bridge/src/repo_mesh.rs:228-230 | what the seed does not hold is reported absent |
| Fetch.FetchRefused | crates/game-bridge/src/repo_mesh.rs:16-18 | a name the seed may not serve is refused, whether it holds it or not |
| Layouts.RequestLayout | crates/game-bridge/src/repo_mesh.rs:166-171 | a request by byte positions |
| Layouts.AnswerLayout | crates/game-bridge/src/repo_mesh.rs:261-277 | an answer by byte positions: 1400 bytes at most, from the offset asked |

## Left out

- Sockets, interface enumeration, PowerShell, netsh and ufw calls, `survey`, `WeakHostSend`: operating-system effects. A survey is an arbitrary input, and whether a socket is pinned is an answer each packet brings.
- The Prns engine, tokio scheduling, link establishment and retries: events of the environment. Nothing is claimed about how soon a member reconnects.
- Concurrency inside one turn: each session turn, pump packet and chat call is one step, as the locks make it, except for the port list, whose interleavings are `PortCache`.
- Pump.Pump.UpStep: the probe, connection and refusal logs the pump feeds, and its asking for a new survey, are not part of it.
- Pump.Pump.DownStep: as for `UpStep`.
- UndoLaws.RewritePrefix: an ICMP error is left out, as none is sent about another (section 3.2.2 of RFC 1122).
- ErrorUndo.ErrorUndoes: a quoted header that claims fewer than 20 bytes is left out; no IPv4 packet has one.
- Filter.LanFilter.SyncExtra: reads the shared values in one step; the interleaved reads are `PortCache.Step`.
- Host.Host.OnEvent: announces heard and the delayed closing of a refused link are not part of it; a link identifier is never reused and a link proves one identity only.
- MemberSide.MemberSide.OnEvent: choosing a room from announces and the connector's retries are not part of it.
- RoomProtocol.RunAgrees: one host process, and fewer than 2^31 changes of its table; a host that restarts counts epochs anew.
- RoomRuns.RoomAgrees: as for `RoomProtocol.RunAgrees`.
- Host.Host.SendAll: what is sent is logged by link; the order between links is not modelled, and the bounded inbound queue that may drop a packet is unbounded here.
- ConnectWatch.ConnectWatch.Listed: gives the remembered connections by port, not as a sorted list.
- ServerChat.ChatHub.Hello: a roster frame's contents are left out (`ChatHeard` holds for any); so is the window in which chat is turned off between a line's check and its sending.
- Fetch.FetchOverMesh: which names a seed may serve is a parameter, as `signing.rs` is not part of this model; parsing an `rns://` address is left out.
- Framing.Reassembler.Push: the buffer is not bounded before a final chunk arrives, and no bound is claimed.
- `RefusedLog`, `ProbeLog`, `check_room_with`, report wording and logging: settled branch by branch.
- `stream.rs`, `lan_relay.rs`, `a2s.rs`, `repo.rs`, the launcher and the scripts: plumbing or user interface.
- `remote_covers_room`, `RepoAnnounce`, `browse.rs`, `details.rs` and the ping parsers: easier than what is here.
