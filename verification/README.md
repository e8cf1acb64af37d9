# Blackwall: a verified model of its control plane

Blackwall protects a network with an iBGP injection speaker (blackhole routes and FlowSpec rules), a
flow-sampling attack detector, a tenant policy with discovered services, SYN cookies and DNS fast flux.
This project models the logic of those five parts in Dafny and proves what they are for.

* **The BGP speaker** (`Session.dfy`, `SessionTable.dfy`, `SessionExact.dfy`, `SessionWire.dfy`,
  `SessionNotice.dfy`, `SessionAccount.dfy`, `SessionTime.dfy`, `SessionStream.dfy`, `SessionTask.dfy`,
  `Rib.dfy`). The session task is a transition system: connecting, OPEN, OpenConfirm,
  re-announcement, the established loop, draining and sleeping. Time, read chunks, write outcomes and the
  order of ready `select!` arms are events, so a run is any sequence of events. The peer is modelled by what
  it makes of the octets it receives. The main theorem compares that table with the desired state on every
  run, and its condition is proved to be exact. `SessionTask.dfy` holds the two tables as fields that the
  loops update in place.
* **The codec** (`Message.dfy`, `OpenFormat.dfy`, `Update.dfy`, `FlowSpec.dfy`, `Framing.dfy`, `Reference.dfy`). The encoders
  append to buffers and the OPEN decoder walks nested regions, as in the source. `Reference.dfy` is an
  independent receiver written from sections 4.1, 4.3 and 5 of RFC 4271, sections 3 and 4 of RFC 4760,
  RFC 1997, RFC 8092, sections 4 and 7 of RFC 8955 and section 3.1 of RFC 8956; the encoders are proved
  against it. The two share big-endian integers and the clearing of a prefix's host bits, which
  `TruncExactly` states bit by bit. `OpenFormat.dfy` is the OPEN octet by octet; the decoder reads exactly it.
* **The detector** (`Samples.dfy`, `Window.dfy`, `Report.dfy`, `Detector.dfy`). `ThresholdDetector` is a class
  with the source's maps and counters. Its events are compared with a definition over the whole history.
* **The policy** (`Policy.dfy`, `Reconcile.dfy`, `ReconcileExact.dfy`). Resolution with its errors, merging of
  discovered services, and the exactness of the two together.
* **Cookies and flux** (`Cookie.dfy`, `Flux.dfy`), for every keyed hash and every pool.

`Arithmetic.dfy`, `Sequences.dfy`, `Bytes.dfy` and `Net.dfy` hold products and remainders, octets, and IP
addresses and prefixes.

## Conditions, and where code and documentation differ

* `active` is keyed by the prefix as commanded, while the NLRI carries it truncated. Two prefixes with the
  same network bits and different host bits therefore share one destination at the peer. A command is
  *safe* when it fits one message of 4096 octets, its next hop has the prefix's family, and no other active
  prefix with its network bits disputes its destination. `RunsAreRightExactlyWhenSafe` proves that this is
  exactly what the main theorem needs; `ClearPrefixesAreSafe` and `HostRoutesAreSafe` that prefixes without host bits
  and host routes always meet it; `HostBitsGoWrong` and `HostBitsWithdrawTooMuch` are concrete runs that fail.
* `build_announce` panics on a next hop of the other family or a length that does not fit its field. Such a
  gate is neither a write nor a count; `NoPanicExactly` says when no run has one. A live command is off the
  channel by then and not yet in `active`; the panicked state holds it, so that no command is unaccounted for.
* The bounds on waits hold on prompt runs, in which no time passes a deadline before the timer's own step. A
  write that blocks past a deadline is not prompt. The wait for the peer's OPEN has no deadline in the code.
* The reconnect delay is documented as 1, 2, 4, 8, 16, 30 seconds
  (crates/blackwall-bgp/src/session_net.rs:1138). The failure count is incremented before it is used, so the
  first delay is two seconds; the model follows the code. `BackoffDoubles` states the sequence it does take.
* Step 4 of the session is commented as Established right after our KEEPALIVE
  (crates/blackwall-bgp/src/session_net.rs:680). The code waits for the peer's KEEPALIVE or UPDATE; so does the model.
* `Detection::proto` is documented as the protocol of the most samples
  (crates/blackwall-flow/src/detector.rs:58); the code takes the one with the most packets, and so does the model.
* A cookie check before the second slot wraps to slot 2^64 - 1. Soundness therefore starts at 64 seconds, which
  `SoundExactlyFromSecondSlot` proves both ways.
* A configured tenant named `discovered` receives discovered addresses, and its unscoped rules then apply to
  them. `ExactlyWhenHarmless` states when that leaves reconciliation exact.
* A `requires` on an encoder stands for a panic of the source: a next hop of the other family, a length above
  65535, an octet count above eight, a tuple longer than the cookie's scratch buffer. A FlowSpec length from
  4096 to 65535 does not panic; it is written modulo 4096, and no rule reaches it.
* The window theorems assume non-decreasing tick times, as the detector's monotonic clock gives.

## Model

| member | source | states |
|---|---|---|
| SessionTable.PeerHoldsWhatIsWanted | crates/blackwall-bgp/src/session_net.rs:723-769 | On every run (any interleaving of commands, reads, timers, disconnects and failed writes), if every accepted command is safe, then whenever the session is Established the table the peer builds from the bytes equals the desired routes and rules that are IPv4 unicast or of an AFI and SAFI its OPEN advertised; during re-announcement it is a part of them; before, it is empty |
| SessionExact.RunsAreRightExactlyWhenSafe | crates/blackwall-bgp/src/session_net.rs:1031-1130 | Exactness of that condition: every run over a list of commands keeps the peer right and the session task alive if and only if each command is safe after those before it |
| SessionExact.SomeRunGoesWrong | crates/blackwall-bgp/src/session_net.rs:1036-1129 | For every unsafe list of commands, an explicit run (handshake, then live commands) that ends wrong |
| SessionExact.SharedNetworkIsUnsafe | crates/blackwall-bgp/src/session_net.rs:1036-1082 | Two prefixes with the same network bits: announced by different paths they are unsafe, and after both are announced withdrawing one is unsafe whatever the paths |
| SessionExact.HostBitsGoWrong | crates/blackwall-bgp/src/session_net.rs:1036-1060 | 192.0.2.1/24 and 192.0.2.2/24 by different next hops, each fit to send: a run that ends with the peer wrong |
| SessionExact.HostBitsWithdrawTooMuch | crates/blackwall-bgp/src/session_net.rs:1061-1082 | The same prefixes by one next hop, one then withdrawn: a run that ends with the peer wrong |
| SessionExact.NoPanicExactly | crates/blackwall-bgp/src/update.rs:236-254 | No run over a list of commands panics if and only if every announce in it can be built |
| SessionExact.BuildableIsWrittenOrCounted | crates/blackwall-bgp/src/session_net.rs:213-234 | Over any run on commands that can all be built, per family, gates reached equal skips counted plus writes attempted |
| SessionExact.HandshakeSucceeds | crates/blackwall-bgp/src/session_net.rs:542-721 | A connect, OPEN, KEEPALIVE exchange, octet for octet, ends Established with no command taken and no UPDATE sent |
| SessionTable.LiveCommandExactly | crates/blackwall-bgp/src/session_net.rs:1036-1129 | Step form of the condition: a written command leaves the table right if and only if the message fits 4096 octets and no other active prefix with the same network bits disputes the destination |
| SessionTable.ClearPrefixesAreSafe | crates/blackwall-bgp/src/session_net.rs:1036-1082 | Commands whose prefixes have their host bits clear are always safe |
| SessionTable.HostRoutesAreSafe | crates/blackwall-bgp/src/session_net.rs:1036-1082 | So are lists of host routes, /32 and /128 blackholes, in every order |
| SessionTable.SkippedCommand | crates/blackwall-bgp/src/session_net.rs:1043-1049 | A command outside the negotiated families changes the desired state and nothing the peer holds |
| SessionTable.ConflictIsDispute | crates/blackwall-bgp/src/session_net.rs:1036-1082 | The condition a caller can check on `active` is the one that decides whether two keys dispute a destination |
| SessionTable.KeyFixesDest | crates/blackwall-bgp/src/session_net.rs:1083-1129 | A key of the desired state determines the destination it announces, for FlowSpec because the encoding is injective on traffic |
| SessionTable.DesiredIsReplay | crates/blackwall-bgp/src/session_net.rs:502-527 | On every run the commands applied, the one a panic caught, if any, and those still queued are together exactly the commands accepted, in order, and the desired state is the in-order replay of those applied, however they split between draining and the live loop |
| SessionTable.StepQueue | crates/blackwall-bgp/src/session_net.rs:1031-1130 | Each step takes the head of the queue and applies it (or, when building its UPDATE panics, loses it with the task), appends to the tail, or leaves queue and desired state alone |
| SessionTable.SameCommandsSameTable | crates/blackwall-bgp/src/session_net.rs:723-769 | Two runs that took the same commands, against peers of equal capabilities, end with the same peer table |
| SessionTable.PeerReads | crates/blackwall-bgp/src/update.rs:118-316 | What a receiver does with the octets of any message this speaker can build is what the message means; an oversize announce costs the session its routes |
| SessionTable.WireIsTrace | crates/blackwall-bgp/src/session_net.rs:740-769 | The table built from all octets of a session is the one built from the messages |
| SessionTable.ViewAfter | crates/blackwall-bgp/src/session_net.rs:508-523 | A command puts or removes exactly the entry under its key |
| SessionTable.StepKeeps | crates/blackwall-bgp/src/session_net.rs:533-1131 | Every step of the session task keeps the table invariant |
| SessionTable.FamilyIsGate | crates/blackwall-bgp/src/session_net.rs:126-141 | A command passes the gate exactly when the destination it changes is one the peer takes: IPv4 unicast, or an advertised AFI and SAFI |
| SessionTable.GateIsTakes | crates/blackwall-bgp/src/session_net.rs:163-170 | The gate opens for a destination if and only if it is IPv4 unicast (1/1) or the peer's OPEN advertised its AFI and SAFI (2/1, 1/133, 2/133); its label is that pair |
| SessionTable.SleepsDrained | crates/blackwall-bgp/src/session_net.rs:468-470 | On every run, when the task falls asleep the queue is empty and every command accepted so far has been applied, in order |
| SessionWire.NoUpdateBeforeHandshake | crates/blackwall-bgp/src/session_net.rs:558-721 | On every run a route change is written only after our OPEN (configured ASN, hold time and router identifier, all four families), a peer OPEN with the configured ASN and a hold time of 0 or at least 3, our KEEPALIVE, and a KEEPALIVE or UPDATE from the peer; and it is IPv4 unicast or of an AFI and SAFI that OPEN advertised |
| SessionWire.RunWire | crates/blackwall-bgp/src/session_net.rs:558-721 | On every run, phase by phase: no OPEN taken yet while waiting for it; an acceptable one and no KEEPALIVE or UPDATE since while waiting for confirmation; the first of those taken once up |
| SessionWire.AdvertisedInTheOpen | crates/blackwall-bgp/src/message.rs:323-344 | What the gate takes as advertised is what the code-1 capabilities in the octets of the peer's OPEN offer, family by family |
| SessionWire.FamilyInTheUpdate | crates/blackwall-bgp/src/update.rs:165-210 | The family of every change in an UPDATE is the AFI and SAFI its MP_REACH_NLRI or MP_UNREACH_NLRI octets carry, or IPv4 unicast |
| SessionWire.HeaderOnTheWire | crates/blackwall-bgp/src/message.rs:368-380 | Every message written starts with sixteen octets of ones, its own length and type octet 1, 2, 3 or 4; a KEEPALIVE is those 19 octets, a NOTIFICATION adds its code and subcode |
| SessionWire.FamilyOnTheWire | crates/blackwall-bgp/src/session_net.rs:163-170 | The family an UPDATE names on the wire is the one it was gated on; no other message names any |
| SessionAccount.StepIsOneOfThree | crates/blackwall-bgp/src/session_net.rs:1036-1129 | Reaching a gate gives exactly one attempted write in that family, one count under it, or the panic of building the message; a step with no gate gives none |
| SessionAccount.EveryGateIsAccountedFor | crates/blackwall-bgp/src/session_net.rs:213-234 | Over any run, per family, gates reached equal skips counted plus writes attempted plus the gate the run panicked at, if it panicked |
| SessionAccount.Ipv4IsNeverSkipped | crates/blackwall-bgp/src/session_net.rs:217-224 | Over any run every IPv4 unicast gate is a write or the panic: none is counted as skipped |
| SessionAccount.RoutesBeforeRules | crates/blackwall-bgp/src/session_net.rs:723-769 | On every run no FlowSpec rule is taken up for re-announcement before every route has been |
| SessionTime.HoldExpiryMeansSilence | crates/blackwall-bgp/src/session_net.rs:993-1008 | The hold timer ends a session only when both sides asked for a hold time, of at least three seconds, and the configured or the peer's has passed since every KEEPALIVE and UPDATE taken |
| SessionTime.WaitsAreBounded | crates/blackwall-bgp/src/session_net.rs:700-718 | On every run in which time does not pass a deadline before its timer has fired: OpenConfirm has lasted at most the smaller hold time (240 s without one) since the accepted OPEN was received; with both hold times set the peer was heard within each, and three times the span since a KEEPALIVE was written or the loop started fits each; a sleep has lasted at most min(2^k, 30) seconds |
| SessionTime.RunTimed | crates/blackwall-bgp/src/session_net.rs:886-913 | On every run in the established loop: no deadlines when either hold time is 0; otherwise the hold deadline is the smaller hold time after the last KEEPALIVE or UPDATE taken, and the next KEEPALIVE is due a third of it, rounded down and at least one second, after the last one written, both counted from the start of the loop at first |
| SessionTime.HoldIsSmaller | crates/blackwall-bgp/src/session_net.rs:681-681 | The negotiated hold time is at most both and equals one of them |
| SessionTime.PeriodIsThird | crates/blackwall-bgp/src/session_net.rs:901-905 | Three KEEPALIVE periods fit a hold time of three seconds or more, and no longer period does; below that the period is one second |
| SessionTime.RunOpen | crates/blackwall-bgp/src/session_net.rs:700-704 | On every run the OpenConfirm deadline counts from the receipt of the accepted OPEN |
| SessionTime.TimedWaitsEnd | crates/blackwall-bgp/src/session_net.rs:705-718 | Every prompt run in OpenConfirm or asleep has a prompt continuation, one timer long, that leaves the wait exactly at its deadline: OpenConfirm for the end of the session, the sleep for a new attempt |
| SessionTime.SilenceEndsSession | crates/blackwall-bgp/src/session_net.rs:978-1008 | Every prompt run in the established loop with a hold time has a prompt continuation of timers alone, KEEPALIVEs still going out, that ends the session exactly at the hold deadline with NOTIFICATION 4/0 as its last message |
| SessionTime.OpenWaitHasNoDeadline | crates/blackwall-bgp/src/session_net.rs:574-650 | Every run that waits for the peer's OPEN still waits after any further events, for however long, unless one of them is of the stream |
| SessionTime.OpenWaitIsUnbounded | crates/blackwall-bgp/src/session_net.rs:574-650 | For every n some prompt run still waits for the peer's OPEN n seconds after its own went out |
| SessionTime.BackoffDoubles | crates/blackwall-bgp/src/session_net.rs:465-470 | On every run, with k the number of attempts ended since the peer last confirmed one, the sleep ends min(2^k, 30) seconds after it began, and k is at least 1: the documented first delay of one second never occurs |
| SessionTime.RunFails | crates/blackwall-bgp/src/session_net.rs:463-466 | On every run the failure count is the number of attempts ended since the peer last confirmed one, saturated at 32 bits, and positive while draining or asleep; the reconnect counter is the number ended in all |
| SessionTime.DelayIsPower | crates/blackwall-bgp/src/session_net.rs:1138-1146 | The delay after k failures is min(2^k, 30), for every k up to and beyond the saturated count |
| SessionTime.RetriesAreNotEarly | crates/blackwall-bgp/src/session_net.rs:466-470 | On every run a retry comes no sooner than min(2^k, 30) seconds after the task fell asleep |
| SessionTime.ConfirmIsNotEarly | crates/blackwall-bgp/src/session_net.rs:700-718 | On every run OpenConfirm times out no sooner than its bound after the accepted OPEN was received |
| SessionTime.KeepaliveIsNotEarly | crates/blackwall-bgp/src/session_net.rs:978-991 | On every run a KEEPALIVE of the established loop comes only with both hold times set, and no sooner than the period after the one before |
| SessionNotice.NotificationsNameTheirCause | crates/blackwall-bgp/src/session_net.rs:652-678 | On every run a NOTIFICATION is the last thing written on a connection and names its cause: code 2/2 answers an OPEN with another ASN, 2/6 one with the right ASN and a hold time of 1 or 2, and 4/0 comes when the hold time of the confirmed peer has passed since every KEEPALIVE and UPDATE from it |
| SessionNotice.FinalEnds | crates/blackwall-bgp/src/session_net.rs:621-632 | On every run a NOTIFICATION from the peer or a failed write is the last thing on its connection, which it ends |
| SessionNotice.DeadReadEnds | crates/blackwall-bgp/src/session_net.rs:578-588 | On every run a read that fails where the session reads ends it |
| SessionWire.ValidMeansAcceptable | crates/blackwall-bgp/src/session_net.rs:243-259 | A configuration is valid if and only if the ASNs are equal and the hold time is 0 or at least 3, which is if and only if a speaker so configured would accept this speaker's own OPEN; its octets read back as the configured values with all four families |
| SessionTask.Task.constructor | crates/blackwall-bgp/src/session_net.rs:441-442 | Both tables start empty |
| SessionTask.Task.TakeIn | crates/blackwall-bgp/src/session_net.rs:508-523 | The in-place update of `active` or `active_flowspec` is the command's effect on the desired state |
| SessionTask.Task.DrainCommands | crates/blackwall-bgp/src/session_net.rs:502-527 | Draining takes the whole queue in order and writes nothing |
| SessionTask.Task.TakeCommand | crates/blackwall-bgp/src/session_net.rs:1036-1129 | One live command: new tables, either one counted skip or one write, and from a right peer a right peer if and only if the command was safe, once it is written |
| SessionTask.Task.ReannounceRoutes | crates/blackwall-bgp/src/session_net.rs:728-744 | The loop over `active` in any order: all entries written or counted, or a failed write; with no disputed destination and no oversize route the peer is right about routes, or within what is wanted |
| SessionTask.Task.ReannounceRules | crates/blackwall-bgp/src/session_net.rs:753-769 | The same for `active_flowspec`; from a peer right about routes it leads to one that holds exactly what is wanted |
| SessionTask.Task.Reannounce | crates/blackwall-bgp/src/session_net.rs:723-769 | Both loops: every entry written or counted once, and with no disputed destination, no oversize route and no failed write the peer holds exactly what is wanted |
| Rib.PutAgreesExactly | crates/blackwall-bgp/src/session_net.rs:1050-1059 | Announcing keeps table and desired state in agreement if and only if no other key claims that destination with another path |
| Rib.RemoveAgreesExactly | crates/blackwall-bgp/src/session_net.rs:1073-1081 | Withdrawing keeps them in agreement if and only if no other key still wants that destination |
| Rib.UntakenChange | crates/blackwall-bgp/src/session_net.rs:1043-1049 | A change in a family the peer does not take leaves the table right as it is |
| Rib.AgreementIsUnique | crates/blackwall-bgp/src/session_net.rs:723-769 | At most one table agrees with a desired state |
| Rib.OneMoreAnnounced | crates/blackwall-bgp/src/session_net.rs:740-743 | One more entry announced extends the agreement by that entry |
| Rib.OneMoreSkipped | crates/blackwall-bgp/src/session_net.rs:731-739 | One more entry skipped leaves the agreement standing |
| Rib.PartialIsWithin | crates/blackwall-bgp/src/session_net.rs:729-769 | A re-announcement under way never leaves the peer with an entry that is not wanted |
| SessionStream.SessionReadsTheStream | crates/blackwall-bgp/src/session_net.rs:575-650 | On every run, once no complete frame waits, the phase, residue and messages taken of the present connection are those of framing all its octets at once |
| SessionStream.SessionFindsTheFault | crates/blackwall-bgp/src/session_net.rs:575-650 | On every run, in every state: a connection ended by what it read (a malformed frame, a NOTIFICATION, an OPEN with another ASN or an unacceptable hold time) took exactly the messages, and met exactly the fault, that framing all its octets at once gives; any other took the beginning of those messages |
| SessionStream.SessionsIgnoreCuts | crates/blackwall-bgp/src/session_net.rs:915-965 | Two runs whose connections received the same octets, cut and framed when they may be, stand at the same phase, residue and messages |
| SessionStream.SessionsAgreeOnFaults | crates/blackwall-bgp/src/session_net.rs:915-965 | Two runs whose connections received the same octets, up or ended: the messages one took are the beginning of those the other took, and if both met a fault it is the same one after the same messages |
| SessionStream.BufferIsBounded | crates/blackwall-bgp/src/session_net.rs:592-595 | On every run the buffer holds at most 65536 octets |
| SessionStream.ReadsAreTaken | crates/blackwall-bgp/src/session_net.rs:577-590 | Wherever the session reads, up to 4096 octets are taken as they come |
| SessionStream.FramesFirst | crates/blackwall-bgp/src/session_net.rs:915-965 | In a session no octets are read and no live command is taken while a complete frame is buffered, and nothing is read during re-announcement |
| SessionStream.ExitsClean | crates/blackwall-bgp/src/session_net.rs:472-479 | On every run the task exits only when the channel is closed, every accepted command has been applied and every complete frame handled |
| Framing.ChunkingIsIrrelevant | crates/blackwall-bgp/src/session_net.rs:575-650 | Two ways of cutting one inbound stream, across handshake, OpenConfirm and Established, give the same messages, the same first error and the same residue |
| Framing.FeedAllIsPump | crates/blackwall-bgp/src/session_net.rs:809-878 | Reading in pieces equals framing the uncut stream once |
| Framing.PumpAppend | crates/blackwall-bgp/src/session_net.rs:915-965 | Framing early and then reading more equals reading first |
| Framing.NextFrameStable | crates/blackwall-bgp/src/session_net.rs:598-620 | Octets that arrive later never change a verdict already reached |
| Framing.NeverOverflows | crates/blackwall-bgp/src/session_net.rs:577-595 | With reads of at most 61441 octets (the handshake and OpenConfirm read 4096) the 64 KiB exit is unreachable, and the residue before each read is below 4096 octets |
| Framing.OverflowsExactly | crates/blackwall-bgp/src/session_net.rs:592-595 | The limit ends a session if and only if a read would fill more than 65536 octets |
| Framing.NextFrameExactly | crates/blackwall-bgp/src/session_net.rs:598-620 | In octets: the front of a buffer is a message if and only if it is a right header of one of the four types with all its octets there and a readable body, and more is awaited if and only if a right header says so or there are fewer than 19 octets |
| Framing.DispatchExactly | crates/blackwall-bgp/src/session_net.rs:615-678 | A message ends a session if and only if it is a NOTIFICATION or a first OPEN with another ASN or a hold time of 1 or 2, and brings it up if and only if it is a KEEPALIVE or UPDATE after the OPEN; the peer is the one of that OPEN |
| Framing.OpenArrives | crates/blackwall-bgp/src/message.rs:178-245 | An encoded OPEN at the front of the stream is recognised whatever follows |
| Framing.KeepaliveArrives | crates/blackwall-bgp/src/message.rs:37-39 | So is a KEEPALIVE |
| Framing.Inbound.constructor | crates/blackwall-bgp/src/session_net.rs:575-576 | A connection starts with an empty buffer |
| Framing.Inbound.Receive | crates/blackwall-bgp/src/session_net.rs:915-965 | Appending one read and draining the complete frames in place does what the specification of one read says |
| Bytes.BigEndian | crates/blackwall-bgp/src/message.rs:181-183 | Integers go out most significant octet first |
| Message.EncodeHeader | crates/blackwall-bgp/src/message.rs:368-380 | The framed message parses back to its type and length exactly when it fits 4096 octets, and is refused by length otherwise |
| Message.FrameParsesAhead | crates/blackwall-bgp/src/message.rs:383-395 | The same with any octets following |
| Message.ParsesExactlyHeaders | crates/blackwall-bgp/src/message.rs:383-395 | A header parses as a type and a length if and only if it is sixteen octets 255, that length from 19 to 4096 in two octets, and that type |
| Message.DecodesExactly | crates/blackwall-bgp/src/message.rs:73-95 | Octets read as a message of a length if and only if they start with such a header and hold that many, and the type octet is 1 for an OPEN body that reads so, 2 for UPDATE, 3 for a NOTIFICATION of that code, subcode and data, or 4 for KEEPALIVE |
| Message.DecodeOpen | crates/blackwall-bgp/src/message.rs:252-365 | On every octet string the nested walk ends, stays in range and yields what the recursive reading says, which OpenDecodesExactly ties to the format |
| OpenFormat.OpenDecodesExactly | crates/blackwall-bgp/src/message.rs:252-365 | A body decodes to an OPEN if and only if it is the format of section 4.2 of RFC 4271 and section 4 of RFC 5492 for some parameters and says so: hold time and identifier in their octets, the ASN of the last capability 65 of four octets or else the two-octet field, and a family on exactly when a capability 1 with that AFI and SAFI is there |
| OpenFormat.Asn4Reads | crates/blackwall-bgp/src/message.rs:323-330 | A lone capability 65 of four octets gives the ASN, whatever the other fields |
| OpenFormat.OpenLayout | crates/blackwall-bgp/src/message.rs:178-245 | The body written, in octets: version 4, the ASN or 23456, hold time, identifier, one parameter of type 2 with 65, 4 and the ASN, and 1, 4, 0, AFI, 0, SAFI for each family that is on |
| Message.WalkParams | crates/blackwall-bgp/src/message.rs:286-351 | The outer walk gathers the capabilities of all Capabilities parameters in order, or stops at the first malformed one |
| Message.WalkCaps | crates/blackwall-bgp/src/message.rs:306-348 | The inner walk gathers one parameter's capabilities, or stops at the first malformed one |
| Message.TakeCap | crates/blackwall-bgp/src/message.rs:323-344 | One capability contributes what it advertises; unknown or wrongly sized ones contribute nothing |
| Message.EncodeOpen | crates/blackwall-bgp/src/message.rs:178-245 | The encoded OPEN decodes to the OPEN it came from, and no length conversion fails |
| Message.EncodeOpenBody | crates/blackwall-bgp/src/message.rs:222-242 | The body has the layout of section 4.2 of RFC 4271 with one Capabilities parameter |
| Message.EncodeCaps | crates/blackwall-bgp/src/message.rs:179-220 | The capability octets are those of the 4-octet ASN and of every advertised family, in order |
| Message.PushMpCap | crates/blackwall-bgp/src/message.rs:187-220 | A multiprotocol capability is appended when its family is on, and nothing otherwise |
| Message.OpenRoundTrip | crates/blackwall-bgp/src/message.rs:252-365 | decode(encode(o)) = o for every OPEN, ASNs above 65535 through AS_TRANS included |
| Message.OpenBodyRoundTrip | crates/blackwall-bgp/src/message.rs:178-245 | The same for the body alone |
| Message.NotificationRoundTrip | crates/blackwall-bgp/src/message.rs:42-65 | A NOTIFICATION reads back if and only if its data leaves it within 4096 octets |
| Message.KeepaliveRoundTrip | crates/blackwall-bgp/src/message.rs:37-39 | A KEEPALIVE reads back |
| Update.BuildAnnounce | crates/blackwall-bgp/src/update.rs:118-256 | A receiver that follows sections 4.1, 4.3 and 5 of RFC 4271 and sections 3 and 4 of RFC 4760 reads from the announce exactly the truncated prefix, next hop, origin (0, 1 or 2), an empty AS path and both community lists, under the flags each attribute must carry; beyond 4096 octets it reads nothing |
| Update.AnnounceReads | crates/blackwall-bgp/src/update.rs:118-256 | The same as a statement about the announce octets, both sides of the 4096-octet limit and of the 255/256-octet attribute switch |
| Update.BuildWithdraw | crates/blackwall-bgp/src/update.rs:272-316 | The receiver reads from the withdraw exactly the destination the announce carried |
| Update.WithdrawReads | crates/blackwall-bgp/src/update.rs:272-316 | The same as a statement about the withdraw octets |
| Update.EncodeNlri | crates/blackwall-bgp/src/update.rs:58-70 | The NLRI reads back as the prefix with its host bits cleared |
| Update.NlriReads | crates/blackwall-bgp/src/update.rs:58-70 | The same as a statement about the octets |
| Update.RebuildsTruncated | crates/blackwall-bgp/src/update.rs:58-70 | The octets sent determine the truncated prefix |
| Update.PushAttr | crates/blackwall-bgp/src/update.rs:76-88 | The attribute is appended in one- or two-octet length form by value length |
| Update.AttrReads | crates/blackwall-bgp/src/update.rs:76-88 | Either length form reads back, at every value length up to 65535 |
| Update.AttrsRead | crates/blackwall-bgp/src/update.rs:76-88 | A list of attributes reads back in order |
| Update.EncodeAnnounceAttrs | crates/blackwall-bgp/src/update.rs:122-231 | The attributes pushed are ORIGIN, AS_PATH, the next hop or MP_REACH_NLRI, and the community lists that are not empty |
| Update.EncodeCommunities | crates/blackwall-bgp/src/update.rs:140-148 | The community loop writes the list that RFC 1997 receivers read back |
| Update.EncodeLargeCommunities | crates/blackwall-bgp/src/update.rs:150-159 | The large community loop writes the list that RFC 8092 receivers read back |
| Update.CommunitiesRead | crates/blackwall-bgp/src/update.rs:212-220 | Communities read back |
| Update.LargeCommunitiesRead | crates/blackwall-bgp/src/update.rs:222-231 | Large communities read back |
| Net.TruncExactly | crates/blackwall-bgp/src/update.rs:58-70 | Truncation keeps the first bits of a prefix, bit by bit, and clears the others |
| FlowSpec.EncodeFlowSpecNlri | crates/blackwall-bgp/src/flowspec.rs:61-105 | The NLRI reads back, by section 4 of RFC 8955 and section 3.1 of RFC 8956, as exactly the rule's traffic, and the one-octet length form always suffices |
| FlowSpec.KeyIsTraffic | crates/blackwall-bgp/src/flowspec.rs:61-105 | Two rules share a key if and only if they match the same traffic, across both families and whatever their actions |
| FlowSpec.FamiliesNeverCollide | crates/blackwall-bgp/src/flowspec.rs:61-105 | No IPv4 rule shares a key with an IPv6 rule |
| FlowSpec.FlowNlriReads | crates/blackwall-bgp/src/flowspec.rs:61-105 | The NLRI octets read back as the rule's traffic |
| FlowSpec.EncodeComponents | crates/blackwall-bgp/src/flowspec.rs:62-90 | The components come in type order, absent ones left out |
| FlowSpec.EncodePrefixPart | crates/blackwall-bgp/src/flowspec.rs:64-77 | The destination component is the truncated prefix, with the offset octet for IPv6 |
| FlowSpec.PushNumericEq | crates/blackwall-bgp/src/flowspec.rs:45-58 | One operator and value: end-of-list and equality set, the length field of every octet count, and the low octets of the value; for 1, 2, 4 and 8 octets the field states the count |
| FlowSpec.PrefixLength | crates/blackwall-bgp/src/flowspec.rs:92-104 | Below 240 octets the length takes one octet, otherwise two, which state the length if and only if it is below 4096 |
| FlowSpec.PushTwoByteLen | crates/blackwall-bgp/src/flowspec.rs:108-111 | The two-octet form states the length modulo 4096 |
| FlowSpec.BuildFlowSpecAnnounce | crates/blackwall-bgp/src/flowspec.rs:136-174 | The receiver reads from the announce exactly the rule's traffic and, by section 7 of RFC 8955, a traffic-rate action of the rule's four rate octets |
| FlowSpec.FlowAnnounceReads | crates/blackwall-bgp/src/flowspec.rs:136-174 | The same as a statement about the octets |
| FlowSpec.RateReads | crates/blackwall-bgp/src/flowspec.rs:118-124 | The extended community reads as a traffic-rate (80 06) of the rule's rate |
| FlowSpec.BuildFlowSpecWithdraw | crates/blackwall-bgp/src/flowspec.rs:178-199 | The receiver reads from the withdraw exactly the traffic the announce carried |
| FlowSpec.FlowWithdrawReads | crates/blackwall-bgp/src/flowspec.rs:178-199 | The same as a statement about the octets |
| Detector.TickSaysWhatHistorySays | crates/blackwall-flow/src/detector.rs:402-532 | Over any run with non-decreasing ticks, what each tick says of each destination (opened, updated, cleared, nothing) is what the definition over everything observed since its last clear says: over when the samples younger than the window are at least one and at least the configured number, and their packets times 1000 or octets times 8000 exceed the threshold times the window in milliseconds; cleared when not over and the hold-down has passed since the last tick that was |
| Detector.SuppressesWhatHistorySays | crates/blackwall-flow/src/detector.rs:469-474 | A tick counts a destination as suppressed exactly when those rates are exceeded on at least one sample but fewer than configured |
| Window.OverIsDirect | crates/blackwall-flow/src/detector.rs:458-474 | The code's test on what it kept is that arithmetic test on everything seen |
| Window.KeptExactly | crates/blackwall-flow/src/detector.rs:431-431 | A sample is kept if and only if it was seen and its time plus the window is after now |
| Detector.SampleIsRecorded | crates/blackwall-flow/src/detector.rs:376-398 | What is recorded of an observation, field by field: a stranger's rate as it is, a known agent's replaced when below a quarter of what is expected and capped when above; octets are the rate times the frame length |
| Window.EvictionIsInvisible | crates/blackwall-flow/src/detector.rs:430-520 | For one destination: the samples kept are those since the last clear still in the window, and the event is the direct definition's |
| Window.RunRefines | crates/blackwall-flow/src/detector.rs:430-520 | The invariant behind it, for every window from the last tick on |
| Window.KeptTwice | crates/blackwall-flow/src/detector.rs:431-431 | Evicting now and again later equals evicting later |
| Detector.RunHoldsDown | crates/blackwall-flow/src/detector.rs:475-520 | On every run with non-decreasing ticks, a clear at T means every over-threshold tick of that episode was at or before T minus the hold-down |
| Window.HoldDownIsKept | crates/blackwall-flow/src/detector.rs:433-444 | The same for one destination's history, and such a tick exists |
| Detector.ReturnedAreEpisodes | crates/blackwall-flow/src/detector.rs:402-532 | On every run of calls, the events returned about a destination form (Opened Updated* Cleared)*, with one first-seen time per episode, in step with the open flag |
| Detector.ReturnedDescribeTheEpisode | crates/blackwall-flow/src/detector.rs:402-532 | With non-decreasing ticks, every event returned is the one the history since the last clear calls for, and a detection describes exactly the samples of that history still in the window |
| Detector.ReturnedRates | crates/blackwall-flow/src/detector.rs:458-468 | The rates of a returned detection times the window in milliseconds are 1000 times the packets and 8000 times the octets in it |
| Detector.RunIsEpisodes | crates/blackwall-flow/src/detector.rs:475-520 | The same life cycle for what the states call for, with at most one event per tick |
| Window.EventsAreEpisodes | crates/blackwall-flow/src/detector.rs:475-520 | The same for one destination's history |
| Detector.DestinationsAreIndependent | crates/blackwall-flow/src/detector.rs:429-525 | Each destination evolves by its own observations and the ticks alone |
| Detector.OpenedLessClearedIsOpen | crates/blackwall-flow/src/detector.rs:426-529 | Over any run, detections opened less detections cleared are the detections open |
| Detector.ThresholdDetector.CountersTellOpen | crates/blackwall-flow/src/detector.rs:527-529 | While the opened counter is below its ceiling, the two counters differ by the number of open detections |
| Detector.ThresholdDetector.constructor | crates/blackwall-flow/src/detector.rs:255-284 | The detector starts empty with its sampling factor floored at 4 |
| Detector.ThresholdDetector.Clamp | crates/blackwall-flow/src/detector.rs:340-372 | The effective rate and the per-agent book: last seen, mismatches and near-ceiling counts move for known agents only, the unknown counter for others |
| Detector.ThresholdDetector.Observe | crates/blackwall-flow/src/detector.rs:331-400 | One observation: the book on agents, which stays what the calls so far make it by definition (last times, outliers, outliers near the ceiling, strangers), and one sample appended when the destination is monitored |
| Detector.OutlierIs | crates/blackwall-flow/src/detector.rs:349-367 | A rate counts as a mismatch exactly when below a quarter of the expected rate or above four times it, and as near the ceiling exactly when it is such a high one and twice the capped rate, plus one, reaches the ceiling |
| Detector.BookIsNested | crates/blackwall-flow/src/detector.rs:331-372 | After any run only known agents are in the book, outliers were seen, and near-ceiling counts are at most mismatch counts |
| Detector.ThresholdDetector.Tick | crates/blackwall-flow/src/detector.rs:402-532 | One tick: the new states, the events and the saturating counters, all in step with the history of calls and of events returned |
| Detector.TickAll | crates/blackwall-flow/src/detector.rs:429-529 | The loop over all destinations in any order: states evicted, cleared ones removed, one right event for each destination that calls for one and no other, counts capped at 64 bits |
| Detector.TickOne | crates/blackwall-flow/src/detector.rs:430-520 | The loop body: next state, event and suppression of one destination |
| Detector.RateIsBounded | crates/blackwall-flow/src/detector.rs:349-367 | A known agent's effective rate lies between a quarter of the expected rate and a ceiling of max(4, factor) times it, saturated at 32 bits: below it becomes the expected rate, above it the ceiling, and within it stays as reported |
| Detector.BytesFit | crates/blackwall-flow/src/detector.rs:378-382 | Rate times frame length never overflows 64 bits |
| Samples.Total | crates/blackwall-flow/src/detector.rs:450-456 | The saturating fold is the sum capped at 128 bits |
| Samples.NothingSaturates | crates/blackwall-flow/src/detector.rs:446-456 | No vector of samples is long enough to reach the cap, for window totals and for any grouping |
| Samples.GroupsAddUp | crates/blackwall-flow/src/detector.rs:585-683 | Any grouping of the samples (source, port, agent, block) conserves the window's total |
| Samples.WeightsAddUp | crates/blackwall-flow/src/detector.rs:585-683 | The groups of some samples add up to those samples |
| Report.BuildDetection | crates/blackwall-flow/src/detector.rs:582-709 | The report: rates, a protocol no other outweighs, the top three sources and ports, the top five blocks, and a share for every agent |
| Report.Group | crates/blackwall-flow/src/detector.rs:585-589 | The grouping loop computes the capped weight of every key |
| Report.Top | crates/blackwall-flow/src/detector.rs:603-607 | The list is non-increasing, has no repeats, has the asked length or all keys, and no omitted entry outweighs a listed one |
| Report.TopBy | crates/blackwall-flow/src/detector.rs:596-638 | Grouping, then ranking by rate |
| Report.Heaviest | crates/blackwall-flow/src/detector.rs:590-594 | An entry that no other outweighs |
| Report.DominantProto | crates/blackwall-flow/src/detector.rs:585-594 | A protocol with the most packets, 0 for no samples |
| Report.PopShares | crates/blackwall-flow/src/detector.rs:640-665 | One share per agent seen, heaviest first |
| Report.PopsAddUp | crates/blackwall-flow/src/detector.rs:640-665 | The shares of a detection add up to the packet and bit rates it reports |
| Report.BlockIsItsSources | crates/blackwall-flow/src/detector.rs:667-673 | A block weighs what its sources weigh together |
| Report.SameBlock | crates/blackwall-flow/src/detector.rs:712-721 | Two sources share a block exactly when the block of one contains the other |
| Report.ListsMean | crates/blackwall-flow/src/detector.rs:596-673 | Every listed source, port and block (a /24 or /48 with clear host bits) carries the rate of the packets from, to or within it, and no protocol had more packets than the reported one |
| Report.SharesMean | crates/blackwall-flow/src/detector.rs:640-665 | Every share is one agent's packets and bits under its name, or "unknown" |
| Report.SeverityBuckets | crates/blackwall-flow/src/detector.rs:685-693 | For positive thresholds: Critical from ten times, High from two, and an over-threshold rate is above one |
| Report.SeverityAtZero | crates/blackwall-flow/src/detector.rs:685-693 | A zero threshold makes any traffic Critical, and none at all a Warning |
| Net.ContainsExactly | crates/blackwall-core/src/resolve.rs:65-65 | A prefix contains exactly the addresses of its family that share its first bits, bit by bit |
| Policy.Resolve | crates/blackwall-core/src/resolve.rs:60-107 | The nested loops return the expansion of the policy, or the first fault in the order of the code |
| Policy.ResolvesExactly | crates/blackwall-core/src/resolve.rs:60-107 | Resolution succeeds if and only if all owned addresses are managed, no address is owned twice and no (address, protocol, port) is exposed twice |
| Policy.ServicesExactly | crates/blackwall-core/src/resolve.rs:78-104 | A service is among the resolved exactly when some tenant, an address it owns and a rule of its, unscoped or scoped to that address, make it, field by field |
| Policy.ErrorsAreTrue | crates/blackwall-core/src/resolve.rs:64-103 | Every error names a fault the policy has: an owned address no prefix contains, the earlier and the later of two claims, or a key exposed twice |
| Policy.OwnersExactly | crates/blackwall-core/src/resolve.rs:64-75 | The owners are every address of every tenant under its name |
| Policy.CheckTenant | crates/blackwall-core/src/resolve.rs:64-75 | One tenant's addresses against those seen before |
| Policy.FindOwner | crates/blackwall-core/src/resolve.rs:68-68 | The first recorded owner of an address |
| Policy.ExpandAddress | crates/blackwall-core/src/resolve.rs:81-103 | The rules that apply to one address, in order, or the first duplicate |
| Policy.ExpandTenant | crates/blackwall-core/src/resolve.rs:80-104 | The same over a tenant's addresses |
| Policy.ExpandAll | crates/blackwall-core/src/resolve.rs:78-106 | The same over all tenants |
| Reconcile.Reconcile | crates/blackwall-discovery/src/reconcile.rs:44-68 | The loop merges the discovered services one by one |
| Reconcile.OwningTenant | crates/blackwall-discovery/src/reconcile.rs:83-85 | The tenant returned owns the address, and none is returned only if none does |
| Reconcile.Named | crates/blackwall-discovery/src/reconcile.rs:88-92 | The first tenant of that name, or none |
| Reconcile.ExistsIsServed | crates/blackwall-discovery/src/reconcile.rs:70-81 | The code's test for an existing service is whether the policy already resolves to one on that key |
| Reconcile.MergeSeen | crates/blackwall-discovery/src/reconcile.rs:47-66 | One merge keeps ownership unique and changes the services of the discovered address only, by at most that service and what an attached tenant's rules open |
| Reconcile.AtOwner | crates/blackwall-core/src/resolve.rs:78-106 | An address is served by its owner's rules and nobody else's |
| ReconcileExact.ExactlyWhenHarmless | crates/blackwall-discovery/src/reconcile.rs:44-104 | For a base that resolves, the reconciled policy resolves to exactly the base services plus the first managed discovery of every new key, if and only if no address attached to a configured `discovered` tenant meets rules of it that open anything else there |
| ReconcileExact.ExactWithoutSynthetic | crates/blackwall-discovery/src/reconcile.rs:44-104 | Without a configured tenant of that name it is always exact |
| ReconcileExact.KeysWhenExact | crates/blackwall-discovery/src/reconcile.rs:44-104 | The keys then open are the base's and the managed discoveries', so no discovered port opens on another address |
| ReconcileExact.UnscopedRuleOpens | crates/blackwall-discovery/src/reconcile.rs:87-97 | One unscoped rule of a configured `discovered` tenant makes every discovery that attaches an address inexact |
| ReconcileExact.DormantRuleOpens | crates/blackwall-discovery/src/reconcile.rs:87-97 | A concrete policy and discovery where that happens |
| ReconcileExact.MergedAll | crates/blackwall-discovery/src/reconcile.rs:44-68 | Reconciling acts on every address independently |
| ReconcileExact.ReconcileIsIdempotent | crates/blackwall-discovery/src/reconcile.rs:44-68 | Reconciling again with the same discoveries changes nothing, for every base policy |
| Cookie.AcceptedExactlyWhenMinted | crates/blackwall-cookie/src/lib.rs:176-199 | From the second slot on, for every hash: a cookie is accepted with MSS m if and only if it was minted for that key and tuple in the current or previous slot with m |
| Cookie.SoundExactlyFromSecondSlot | crates/blackwall-cookie/src/lib.rs:186-198 | Acceptance implies minting, for every hash, key and tuple, exactly when now is at least 64 |
| Cookie.FirstSlotAcceptsAPhantom | crates/blackwall-cookie/src/lib.rs:188-197 | In the first slot the check also accepts a cookie of slot 2^64 - 1, which no instant has |
| Cookie.MintedIsAccepted | crates/blackwall-cookie/src/lib.rs:176-199 | A cookie minted in the current or previous slot is accepted with its MSS |
| Cookie.AgeDecides | crates/blackwall-cookie/src/lib.rs:186-198 | A cookie is accepted for at least 64 seconds and refused under every hash from 128 to 16320 seconds old |
| Cookie.SlotDistanceDecides | crates/blackwall-cookie/src/lib.rs:116-121 | Distance 0 or 1 in slots is accepted; any other must agree modulo 256 to stand a chance |
| Cookie.InjectiveExactly | crates/blackwall-cookie/src/lib.rs:89-111 | Hashing is injective on the tuples of two pairs of address lengths that fit the buffer if and only if the sources have one length, the totals differ, or nothing of those lengths fits |
| Cookie.TupleBytesInjective | crates/blackwall-cookie/src/lib.rs:89-111 | Within one family the hashed octets determine tuple, slot and MSS index |
| Cookie.MixedFamiliesCollide | crates/blackwall-cookie/src/lib.rs:89-111 | Across families they do not: the all-zero 4/16 and 16/4 tuples fit, differ, and hash the same octets in every slot with every index |
| Cookie.MssIndexFor | crates/blackwall-cookie/src/lib.rs:47-56 | The largest table entry not above the client's MSS, or the smallest entry |
| Cookie.EveryIndexIsUsed | crates/blackwall-cookie/src/lib.rs:47-56 | Every table entry is reached |
| Cookie.ComputeCookie | crates/blackwall-cookie/src/lib.rs:79-122 | Filling the scratch buffer field by field hashes exactly the tuple octets and packs tag, index and hash |
| Cookie.Put | crates/blackwall-cookie/src/lib.rs:92-111 | One field copied into the buffer at the write position |
| Cookie.CookieReads | crates/blackwall-cookie/src/lib.rs:59-63 | A cookie gives back its slot tag, its MSS index and the low 21 bits of the keyed hash of the tuple octets |
| Cookie.Fields | crates/blackwall-cookie/src/lib.rs:89-111 | The octets hashed, field by field and position by position |
| Cookie.MssIs | crates/blackwall-cookie/src/lib.rs:47-56 | The size given is the largest of 216, 536, 1200, 1360, 1400, 1440, 1460 and 8960 the client allows, or 216 |
| Flux.EveryAddressEqually | crates/blackwall-dns/src/flux.rs:34-46 | Over any stretch of as many periods as the pool has addresses, each address is in exactly `set` windows |
| Flux.WindowIsDistinct | crates/blackwall-dns/src/flux.rs:34-46 | A window has no repeats if and only if it asks for no more than the pool holds |
| Flux.WindowSlides | crates/blackwall-dns/src/flux.rs:34-46 | The next window drops the first address and appends the next of the pool |
| Flux.ActiveIsMember | crates/blackwall-dns/src/flux.rs:34-46 | Membership in a window as an arithmetic test |
| Flux.DelayReachesNextPeriod | crates/blackwall-dns/src/flux.rs:50-53 | The delay is positive and leads to the first instant of the next period |
| Flux.WindowOfAPeriod | crates/blackwall-dns/src/flux.rs:34-53 | The window starts at the number of whole periods passed and stays the same until the next boundary |

## Left out

- Sockets, TCP-MD5, GTSM, source binding, logging and the async runtime: only read chunks, write outcomes and clock values remain, as events.
- The biased order of `select!`: any ready arm may fire, which includes every order the code can take.
- The command channel's capacity of 256: enqueuing never blocks.
- Skip and reconnect counters of the session, and the per-agent mismatch counters, are unbounded numbers.
- `PeerConfig` validation of `gtsm_hops`, which concerns only the socket.
- The f32 rate of a FlowSpec rule is four opaque octets, and detector rates are exact reals: no rounding is modelled.
- Window.Kept: adds timestamp and window without 64-bit overflow, so timestamps near 2^64 ms are not modelled.
- Report.Top: stands for collecting a hash map and sorting it; ties may fall either way, as they may there.
- Report.PopShares: groups packets and bytes in two passes where the source uses one.
- Detector.ThresholdDetector.Observe: the source port and the TCP flags of an observation are not modelled, since the detector does not read them.
- SipHash: cookies are proved for an arbitrary function from key and octets to a 64-bit value.
- Policy fields other than prefixes and tenants, `owner_of`, and the texts of errors are not part of this model.
- Prefix iteration of `flux_pool`: the pool is a given sequence of distinct addresses.
- sFlow decoding, mitigation selection, RTBH, FlowSpec and XDP controllers, nft rendering, eBPF, the API, the TUI, configuration parsing, metrics and DNS sending are not part of this model.
