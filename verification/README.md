# Sleepytale, modelled and proved

Sleepytale is a QUIC proxy that lets game servers sleep. One public UDP socket serves every
backend. A client's first datagram is read just far enough to find the server name it asks
for; that name picks a backend; a sleeping backend is started and the client's own Initial is
held until it is up; after that datagrams are relayed, and a backend that nobody talks to is
stopped. This project models those parts in Dafny and proves what they are for.

`dafny verify dfyconfig.toml` checks all of it.

## How it is built

- **Reading the server name** (`Bits`, `Wire`, `Cursor`, `LongHeader`, `PacketProtection`,
  `Frames`, `Reassembly`, `Hello`, `Knock`, `Sni`). The parser is written as the code writes it: a
  cursor object that every read advances, loops, masks and shifts. Each method is proved equal
  to a reading function on byte strings, and each such function is proved to accept exactly
  what an encoder, written from the RFCs, produces. The chain ends in
  `Sni.PeekInvertsClient`: protect any packet whose frames carry a ClientHello, and the proxy
  reads back its host; and in `Sni.PeekExact`: it reads a name from nothing else.
- **Configuration and routing** (`Configuration`, `Routing`). Validation is exact, and the names of
  the wire meet the names of the configuration.
- **The lifecycle and the relay** (`Lifecycle`, `Safety`, `Accounts`, `Sends`,
  `Conservation`, `Holding`, `Delivery`, `Outcomes`, `Timing`, `IdleStop`, `EarlyStop`). The loop is a state machine
  whose events are datagrams and ticks; boot results, exit checks, socket binds, map order and
  time come with the event. Three history fields make conservation and timing statable: the
  datagrams received, every send on an upstream socket, counted as often as it is made, and a
  ledger of what became of each datagram. Theorems are about every run of any length, and
  `Outcomes` spells out what each event of a run does. `Served` restates the theorems with the
  timeouts of a configuration.
- **The same machine as objects** (`Relaying`, `Serving`). Mutable slots, a mutable session map and
  the loops of the code, each method proved to take the state machine's step.
  `Serving.Serve` closes the circle: whatever the loop passes through is a run.
- **Two hand-offs between tasks** (`Console`, `Boot`), as interleaved steps with nothing
  assumed about their order.

Cryptography is a record of functions (`PacketProtection.Primitives`) with five laws: the
sizes of IV, AES block, ciphertext and plaintext, and that decryption undoes encryption.
`PacketProtection.LawfulPrimitivesExist` shows that the laws can be met.

## Where the code and what is said of it differ

- The header reader refuses a Length below 32 (`sni.rs:94`), more than RFC 9001 asks for. A
  client's packet is required to reach it (`PacketProtection.Packet.Valid`).
- Normalising a name is not idempotent: a name ending in two dots loses one per pass
  (`config.rs:242-244`). `Configuration.NormalizeTwice` says exactly when it is.
- A held Initial is said to go to the backend that was booting. When its client has meanwhile
  opened a session elsewhere it goes there (`state.rs:312` with `relay.rs:91-94`).
  `Delivery.ReadinessDelivers` says where it goes in every case, and
  `Delivery.HeldFollowsSession` is a run in which it goes elsewhere.
- The idle clock is only set by a tick, and an exit check that errs skips it for that tick
  (`state.rs:279-282`). So a backend can be stopped before the session timeout and the idle
  timeout have both passed since its last datagram, for two reasons: the checks err, or no tick
  comes in time, as when the session timeout is no longer than the tick interval, which
  validation accepts. One tick that finds the backend alive within the session timeout rules
  both out (`IdleStop.OneCheckIsEnough`). `EarlyStop.EarlyStopExactly` says exactly when an
  early stop can still happen, and `EarlyStop.EarlyStopWithCloseTicksExactly` when it still can
  with the ticks close enough, where only an erring check can be the cause
  (`EarlyStop.CloseTicksNeedAnError`); `EarlyStop.FailingChecksHurryStop` is such a run.
  `Timing.StopIsQuiet` asks nothing of ticks or checks.
- The console hand-off compares a counter that wraps at 2^64. Its guarantees hold while no
  write is overtaken that often; `Console.UnmovedExactly` says when the comparison is right,
  and `Console.WrapLosesPipe` is a run from the start in which it is not.

## Model

| member | source | states |
|---|---|---|
| `Cursor.Reader.Take` | crates/sleepytale/src/sni.rs:305-310 | the next bytes and the advanced cursor, or nothing and an unmoved cursor; never past the end, no overflow |
| `Cursor.Reader.U8` | crates/sleepytale/src/sni.rs:316-318 | one byte off the front |
| `Cursor.Reader.U16` | crates/sleepytale/src/sni.rs:320-323 | the big-endian number of two bytes; shift-or is multiply-add |
| `Cursor.Reader.U24` | crates/sleepytale/src/sni.rs:325-328 | the big-endian number of three bytes |
| `Cursor.Reader.U32` | crates/sleepytale/src/sni.rs:330-333 | the big-endian number of four bytes |
| `Cursor.Reader.Cid` | crates/sleepytale/src/sni.rs:335-342 | a connection ID of at most 20 bytes behind its length |
| `Cursor.Reader.Varint` | crates/sleepytale/src/sni.rs:344-353 | the varint read off the front, below 2^62, cursor advanced by its width |
| `Cursor.ShiftIn` | crates/sleepytale/src/sni.rs:348-352 | shifting bytes into a 64-bit accumulator computes the big-endian number, with no bit lost |
| `Bits.XorBit` | crates/sleepytale/src/sni.rs:147-168 | each bit of the exclusive or that unmasks the header and makes the nonce is set if and only if the two bits it comes from differ |
| `Wire.VarRoundTrip` | crates/sleepytale/src/sni.rs:344-353 | section 16 of RFC 9000: every encoding of a value, at any of the four widths and with anything behind it, reads back as that value |
| `Wire.VarSound` | crates/sleepytale/src/sni.rs:344-353 | whatever decodes was the encoding of its value |
| `Wire.VarBound` | crates/sleepytale/src/sni.rs:344-353 | a decoded value fits 62 bits |
| `LongHeader.ParseLongHeader` | crates/sleepytale/src/sni.rs:66-99 | the parser, masks and cursor and all, computes the header function |
| `LongHeader.InitialStarts` | crates/sleepytale/src/sni.rs:69-84 | an Initial's first byte starts 1100 in version 0x00000001 and 1101 in version 0x6b3343cf, and nothing else is one |
| `LongHeader.HeaderExact` | crates/sleepytale/src/sni.rs:66-99 | a header is parsed if and only if the datagram opens with the encoding of an Initial prefix and holds the whole packet |
| `LongHeader.HeaderLocal` | crates/sleepytale/src/sni.rs:66-99 | bytes behind the packet do not change the parse |
| `LongHeader.HeaderNeedsWholePacket` | crates/sleepytale/src/sni.rs:94-96 | every prefix that stops short of the packet's end is refused |
| `PacketProtection.OpenPacket` | crates/sleepytale/src/sni.rs:134-178 | unmasking, nonce and decryption compute the opening function; every slice is in range or the answer is nothing |
| `PacketProtection.UnmaskHeader` | crates/sleepytale/src/sni.rs:151-160 | the header with its protection taken off in place, and the packet number read from it |
| `PacketProtection.BuildNonce` | crates/sleepytale/src/sni.rs:162-168 | the IV with the number xored into its last eight bytes |
| `PacketProtection.NonceIsPaddedXor` | crates/sleepytale/src/sni.rs:162-168 | section 5.3 of RFC 9001: that is the left-padded number xored with the whole IV |
| `PacketProtection.ProtectIsStandard` | crates/sleepytale/src/sni.rs:134-178 | sections 5.3, 5.4.1 and 5.4.2 of RFC 9001 byte by byte: what is sealed under which key with which nonce and associated data, which bytes the mask is made of under the header protection key, and which bits and bytes it goes on |
| `PacketProtection.OpenedIsStandard` | crates/sleepytale/src/sni.rs:134-178 | opening undoes just that, with the mask made from the datagram's own bytes under the header protection key |
| `PacketProtection.ProtectionRemoved` | crates/sleepytale/src/sni.rs:134-160 | the sample is the same before and after protection, the rebuilt header is the associated data, and the number is the packet's |
| `PacketProtection.OpenInvertsProtect` | crates/sleepytale/src/sni.rs:134-178 | opening a protected packet yields its payload, for every mask, IV, packet-number length and number |
| `PacketProtection.OnlyDecryptionFails` | crates/sleepytale/src/sni.rs:134-178 | once the header has parsed, only the AEAD can fail |
| `PacketProtection.LawfulPrimitivesExist` | crates/sleepytale/src/sni.rs:134-178 | the laws asked of the cryptographic library are consistent |
| `Frames.SkipRanges` | crates/sleepytale/src/sni.rs:211-214 | the range loop reads the declared ranges, and its rounds are bounded by the remaining bytes |
| `Frames.CollectPieces` | crates/sleepytale/src/sni.rs:197-229 | the frame loop collects what the walk function collects |
| `Frames.WalkExact` | crates/sleepytale/src/sni.rs:197-229 | pieces are collected if and only if the payload is a list of PADDING, PING, ACK and CRYPTO frames carrying exactly them, in order, up to its end or a foreign frame type |
| `Frames.AckCountBounded` | crates/sleepytale/src/sni.rs:208-214 | an ACK that declares more ranges than half the remaining bytes is refused |
| `Reassembly.SortSorts` | crates/sleepytale/src/sni.rs:231 | the sort orders by offset and keeps every fragment as often as it came |
| `Reassembly.SortIsStable` | crates/sleepytale/src/sni.rs:231 | fragments at one offset keep their order |
| `Reassembly.SortIsTheStableSort` | crates/sleepytale/src/sni.rs:231 | a list is the sort's answer if and only if it is ordered and stable, so this is the library's stable sort and not one of several |
| `Reassembly.ReassembleCrypto` | crates/sleepytale/src/sni.rs:197-246 | the loop over sorted fragments computes the stream function |
| `Reassembly.StreamIsLongestRun` | crates/sleepytale/src/sni.rs:231-245 | for any fragments: every byte of the result is one some fragment carries there, and the next offset is one no fragment covers |
| `Reassembly.LengthDependsOnCoverage` | crates/sleepytale/src/sni.rs:231-245 | the length depends on what is covered only, even when fragments disagree |
| `Reassembly.StreamFollowsMap` | crates/sleepytale/src/sni.rs:231-245 | for fragments that agree with one map: a byte string is the result if and only if it is that map's longest covered run from zero |
| `Reassembly.StreamIsFirstCome` | crates/sleepytale/src/sni.rs:231-245 | for any fragments, disagreeing ones too: a byte string is the result if and only if it runs as far as they cover and each byte is that of the first fragment, by offset and then by arrival, that covers it |
| `Reassembly.StreamIsCanonical` | crates/sleepytale/src/sni.rs:231-245 | order, duplication, overlap and cutting make no difference |
| `Hello.ClientHelloServerName` | crates/sleepytale/src/sni.rs:249-288 | the nested readers compute the server-name function |
| `Hello.HelloComplete` | crates/sleepytale/src/sni.rs:249-288 | every encoded ClientHello gives back its host, whatever its session id, lists, preceding extensions and names, and whatever follows it |
| `Hello.EveryHostHasAHello` | crates/sleepytale/src/sni.rs:249-288 | every name of 1 to 253 bytes has a ClientHello that offers it |
| `Hello.HelloExact` | crates/sleepytale/src/sni.rs:249-288 | a name is read if and only if the stream opens with a ClientHello offering it first, and it is UTF-8 |
| `Hello.NameNeedsWholeMessage` | crates/sleepytale/src/sni.rs:251-255 | a stream shorter than its announced message gives nothing |
| `Hello.NameDependsOnMessageOnly` | crates/sleepytale/src/sni.rs:251-255 | only the first 4 + body length bytes matter |
| `Sni.PeekServerName` | crates/sleepytale/src/sni.rs:54-60 | the five stages, as methods, compute the peek function |
| `Sni.PeekInvertsClient` | crates/sleepytale/src/sni.rs:54-60 | the host of any protected Initial whose frames carry a ClientHello is read back exactly; padded to 1200 bytes, the datagram also knocks |
| `Sni.PeekExact` | crates/sleepytale/src/sni.rs:54-60 | a name is read off a datagram if and only if it opens with an Initial's header and a whole packet, the packet opens, its payload is known frames up to its end or a foreign type, and their stream opens with a ClientHello offering that name first, in UTF-8 |
| `Sni.EveryHelloCanBeOffered` | crates/sleepytale/src/sni.rs:54-60 | what that asks of a client can be met for every ClientHello, either version and any connection IDs |
| `Sni.PeekIsLocal` | crates/sleepytale/src/sni.rs:54-60 | only the first packet of a datagram counts |
| `Sni.PeekNeedsWholePacket` | crates/sleepytale/src/sni.rs:54-60 | a datagram cut inside that packet yields no name |
| `Knock.KnockIsInitialStart` | crates/sleepytale/src/knock.rs:39-48 | the knock's masks and byte strings say what the header reader's checks say |
| `Knock.HeaderKnocks` | crates/sleepytale/src/knock.rs:39-48 | every padded datagram the header reader accepts is a knock |
| `Configuration.Validate` | crates/sleepytale/src/config.rs:128-189 | accepts if and only if the configuration is well formed, and a reported fault is really there; in what is accepted no two routes are for one host name and at most one server takes the console |
| `Configuration.FindFault` | crates/sleepytale/src/config.rs:128-189 | the checks and the loop that fills the two lookup maps |
| `Configuration.NormalizeTwice` | crates/sleepytale/src/config.rs:242-244 | normalising twice changes nothing if and only if the name does not end in two dots |
| `Configuration.NormalizeTellsHosts` | crates/sleepytale/src/config.rs:242-244 | normal forms are equal if and only if the names are, letter case and one last dot aside |
| `Configuration.ConsolesCount` | crates/sleepytale/src/config.rs:180-187 | the count is at most one if and only if no two servers, the default one included, take the console |
| `Configuration.ResolveMatchesNames` | crates/sleepytale/src/config.rs:228-233 | a name resolves to a route if and only if it is the same host name, letter case and one last dot aside |
| `Configuration.ResolveFallsBack` | crates/sleepytale/src/config.rs:228-233 | and to the default if and only if no route's is |
| `Configuration.SlotsAreOneToOne` | crates/sleepytale/src/config.rs:235-239 | one slot for the default and one per route, each under its own address |
| `Configuration.ResolvedSlotExists` | crates/sleepytale/src/state.rs:97-100 | whatever is resolved has its slot |
| `Routing.EveryDatagramHasASlot` | crates/sleepytale/src/state.rs:179-186 | in no run of a validated configuration is a selected backend not configured |
| `Routing.OfferedHostPicksRoute` | crates/sleepytale/src/state.rs:179-183 | a protected Initial goes to a named backend if and only if its host and the route are the same host name |
| `Routing.UnknownHostFallsBack` | crates/sleepytale/src/state.rs:179-183 | and to the default backend if and only if no route is for that host name |
| `Routing.FirstFlightWakes` | crates/sleepytale/src/state.rs:168-211 | the first flight of a client that names a sleeping backend wakes it and is what it holds |
| `Safety.RunSound` | crates/sleepytale/src/state.rs:168-301 | in every reachable state each session leads to a configured, running backend; only waking slots hold anything, at most eight; the idle clock runs in running slots only |
| `Accounts.RunBalanced` | crates/sleepytale/src/state.rs:168-324 | every datagram received is settled or held by exactly one slot, never both, and what was forwarded is what was received |
| `Accounts.FateIsFinal` | crates/sleepytale/src/state.rs:168-324 | what became of a datagram never changes |
| `Sends.SentExactlyOnce` | crates/sleepytale/src/relay.rs:68-80 | in every reachable state a datagram has been sent once if it is on record as forwarded, to that backend and at that time, and otherwise not at all; no two sends are of one datagram, and what was sent is what was received |
| `Sends.SendsOnlyGrow` | crates/sleepytale/src/relay.rs:68-80 | every later state has made every send of an earlier one |
| `Conservation.DatagramsAreConserved` | crates/sleepytale/src/state.rs:168-324 | received = sends made + without a socket + dropped + superseded + discarded + held, in every reachable state |
| `Conservation.NothingUnroutable` | crates/sleepytale/src/state.rs:184-186 | with every route configured, the missing-backend error is unreachable |
| `Conservation.RunTraceable` | crates/sleepytale/src/relay.rs:84-126 | every session was opened for its client's own datagram, and its last-seen time is that of a datagram forwarded from that client to that backend |
| `Conservation.SessionsArePinned` | crates/sleepytale/src/relay.rs:82-94 | a session keeps its client and its backend from opening to removal |
| `Holding.HoldRefinesRun` | crates/sleepytale/src/state.rs:79-85 | while waking a slot holds exactly the newest Initial of each of the first eight distinct clients routed to it since the knock; otherwise nothing |
| `Holding.WakesExactlyOnKnock` | crates/sleepytale/src/state.rs:187-231 | a sleeping backend is woken by an Initial routed to it and by nothing else, and that Initial is then all it holds |
| `Delivery.TickLeads` | crates/sleepytale/src/state.rs:238-301 | which backend each client's session leads to after a tick, told from the state before it: reaping, then every slot's deliveries and exits in turn |
| `Delivery.ReadinessDelivers` | crates/sleepytale/src/state.rs:252-257 | in any run, a tick that finds a waking backend ready settles each Initial it holds, none of them settled before: it goes by the session its client has when the slot's turn comes, wherever that leads, or else by a new one on this backend if a socket binds |
| `Delivery.SessionDecides` | crates/sleepytale/src/state.rs:310-324 | a session that outlives the reaping, on a backend that does not exit in the tick, is the one |
| `Delivery.NobodyElseOpens` | crates/sleepytale/src/state.rs:310-324 | a client without one gets none from slots that do not deliver for it |
| `Delivery.HeldFollowsSession` | crates/sleepytale/src/state.rs:310-324 | a run in which a client is held at one backend while its session leads to another, and its held Initial goes to that other |
| `Outcomes.KnownClientIsServed` | crates/sleepytale/src/relay.rs:68-94 | the whole next state: whatever a client with a session sends is sent unchanged to the session's backend, once, and refreshes the session |
| `Outcomes.NewClientIsServed` | crates/sleepytale/src/relay.rs:96-125 | the whole next state: a new client of a running backend gets a session there and its datagram is sent by it, if a socket binds; otherwise nothing is sent |
| `Outcomes.StrayIsDropped` | crates/sleepytale/src/state.rs:225-229 | the whole next state: a datagram that is no Initial, for a backend that is not running, is dropped |
| `Outcomes.InitialIsHeld` | crates/sleepytale/src/state.rs:193-224 | the whole next state: an Initial for such a backend wakes it and is held, superseding its client's last one; a ninth client's is dropped |
| `Outcomes.StrangerIsRecorded` | crates/sleepytale/src/state.rs:184-186 | the whole next state: a datagram for a backend that is not configured changes nothing else |
| `Outcomes.SlotTicks` | crates/sleepytale/src/state.rs:238-301 | what a tick does to every slot, in each state, for each outcome of its boot and exit check |
| `Outcomes.SessionsTick` | crates/sleepytale/src/relay.rs:152-168 | after a tick every session was there before it, seen less than the session timeout ago, with its backend and socket; or is new |
| `Outcomes.SessionStays` | crates/sleepytale/src/relay.rs:152-168 | and one seen less than the session timeout ago is still there, unless its backend exits in the tick |
| `Outcomes.FailedBootDiscards` | crates/sleepytale/src/state.rs:257-264 | a failed boot throws away each Initial its slot holds |
| `Served.SlotsTick` | crates/sleepytale/src/state.rs:238-301 | what a tick does to every slot, under the configured idle timeout |
| `Served.IdleBackendStops` | crates/sleepytale/src/state.rs:284-294 | a running backend found alive with no session on it is stopped if and only if its idle clock has run for the configured idle timeout |
| `Served.StaleSessionsEnd` | crates/sleepytale/src/relay.rs:152-168 | no session unseen for the configured session timeout outlives a tick |
| `Served.FreshSessionsStay` | crates/sleepytale/src/relay.rs:152-168 | and one seen since then does, unless its backend exits |
| `Served.StopIsQuietAsConfigured` | crates/sleepytale/src/state.rs:284-294 | an idle stop comes at least the configured session timeout after every forward |
| `Served.StopIsNotEarlyAsConfigured` | crates/sleepytale/src/state.rs:284-297 | with close ticks and no failing exit check, at least both configured timeouts after |
| `Served.StopIsNotLateAsConfigured` | crates/sleepytale/src/state.rs:284-297 | and before both configured timeouts and two gaps after the last |
| `Timing.TickOnSlot` | crates/sleepytale/src/state.rs:238-301 | what a whole tick does to a running slot, whatever the other slots do and in whatever order |
| `Timing.StepForwards` | crates/sleepytale/src/relay.rs:68-126 | a forward leaves a session just seen, unless that tick finds the backend gone |
| `Timing.StopIsQuiet` | crates/sleepytale/src/state.rs:284-294 | whenever a backend is idle-stopped, every datagram forwarded to it while it ran is at least the session timeout old; nothing is assumed of ticks or exit checks |
| `IdleStop.StoppedClockDelays` | crates/sleepytale/src/state.rs:284-297 | if the idle clock has been stopped at any time since a forward, the stop comes no sooner than both timeouts after it; nothing is asked of ticks or exit checks |
| `IdleStop.OneCheckIsEnough` | crates/sleepytale/src/state.rs:269-297 | one tick that finds the backend alive within the session timeout of a forward is enough for that |
| `IdleStop.EarlyStopWasUnchecked` | crates/sleepytale/src/state.rs:279-297 | so before an early stop no tick within the session timeout found the backend alive, and the idle clock ran all along |
| `IdleStop.StopIsNotEarly` | crates/sleepytale/src/state.rs:284-297 | in particular, with ticks less than the session timeout apart and no failing exit check, every datagram is at least both timeouts old at the stop |
| `EarlyStop.EarlyStopExactly` | crates/sleepytale/src/state.rs:284-297 | with both timeouts positive: right after a forward, some continuation of the run stops the backend early if and only if its idle clock is running |
| `EarlyStop.EarlyStopWithCloseTicksExactly` | crates/sleepytale/src/state.rs:279-297 | with a session timeout above one unit and a positive idle timeout: some continuation whose ticks stay less than the session timeout apart does so if and only if the idle clock is running and the next tick can still be in time |
| `EarlyStop.CloseTicksNeedAnError` | crates/sleepytale/src/state.rs:279-283 | with the ticks that close, an exit check has erred before any early stop |
| `EarlyStop.FailingChecksHurryStop` | crates/sleepytale/src/state.rs:279-283 | for any session timeout above one unit and any positive idle timeout, a run from the start in which every event between the delivery and the stop is a tick whose exit check errs, each one unit after the last, and the stop comes when only the longer timeout has passed |
| `IdleStop.StopIsNotLate` | crates/sleepytale/src/state.rs:284-297 | with ticks at most a gap apart and no failing exit check, the stop comes before the last datagram's time plus both timeouts plus two gaps |
| `Relaying.Relay.SessionFor` | crates/sleepytale/src/relay.rs:84-126 | a client's session keeps its backend and is refreshed; a new one is opened only if a socket binds |
| `Relaying.Relay.ForwardToBackend` | crates/sleepytale/src/relay.rs:68-80 | takes the state machine's forwarding step: one send by the client's session, or none |
| `Relaying.Relay.ReapIdle` | crates/sleepytale/src/relay.rs:152-168 | exactly the sessions quiet for the timeout are gone, and the rest are counted |
| `Relaying.Relay.SessionCountFor` | crates/sleepytale/src/relay.rs:171-178 | the number of sessions that lead to a backend |
| `Relaying.Relay.DropSessionsFor` | crates/sleepytale/src/relay.rs:184-195 | exactly the sessions pinned to a backend are gone |
| `Serving.ManagedBackend.Hold` | crates/sleepytale/src/state.rs:79-85 | a client already held, or one below the cap, has its newest Initial kept; any other is refused |
| `Serving.NewSlots` | crates/sleepytale/src/state.rs:97-100 | one sleeping slot per backend, under its address |
| `Serving.Proxy.constructor` | crates/sleepytale/src/state.rs:93-101 | starts in the state machine's first state |
| `Serving.Proxy.Select` | crates/sleepytale/src/state.rs:177-183 | the session decides, then the server name read from the datagram |
| `Serving.Proxy.HandleDatagram` | crates/sleepytale/src/state.rs:168-232 | takes the state machine's datagram step and keeps every account balanced |
| `Serving.Proxy.DeliverHeld` | crates/sleepytale/src/state.rs:310-324 | forwarding one held Initial after another, in any order, is the one delivery step, with one send for each Initial that is forwarded |
| `Serving.DeliverOneMore` | crates/sleepytale/src/state.rs:310-324 | why the order is moot |
| `Serving.Proxy.FinishBoot` | crates/sleepytale/src/state.rs:242-268 | takes up a boot: promotion with delivery, or sleep with the hold discarded |
| `Serving.Proxy.CheckRunning` | crates/sleepytale/src/state.rs:269-298 | a running backend's turn: gone, unknown, busy, idle, or stopped |
| `Serving.Proxy.CheckIdle` | crates/sleepytale/src/state.rs:284-297 | the idle clock of a backend found alive |
| `Serving.Proxy.Tick` | crates/sleepytale/src/state.rs:238-301 | takes the state machine's tick, slot by slot |
| `Serving.Serve` | crates/sleepytale/src/state.rs:109-124 | what the loop passes through from a validated configuration is a run under it, so every theorem about runs holds of it, with the configured timeouts |
| `Console.Attached.Replace` | crates/sleepytale/src/infra/console.rs:35-40 | attach and detach take the machine's step |
| `Console.Attached.TakeForWrite` | crates/sleepytale/src/infra/console.rs:77-82 | taking the pipe out for a write takes the machine's step |
| `Console.Attached.PutBack` | crates/sleepytale/src/infra/console.rs:86-97 | putting it back, or closing it, takes the machine's step |
| `Console.RunOwned` | crates/sleepytale/src/infra/console.rs:71-99 | every attached pipe is in exactly one of slot, task, attach in progress and closed; a put-back only fills an empty slot, with the pipe attached last |
| `Console.UnmovedExactly` | crates/sleepytale/src/infra/console.rs:87-91 | the put-back sees an unmoved counter if and only if a multiple of 2^64 replacements happened during the write |
| `Console.ReplaceRetires` | crates/sleepytale/src/infra/console.rs:104-112 | attaching or detaching retires the current pipe |
| `Console.RetiredStaysOut` | crates/sleepytale/src/infra/console.rs:71-99 | a retired pipe never returns to the slot and receives at most the write already in flight |
| `Console.FailedWriteCloses` | crates/sleepytale/src/infra/console.rs:92-97 | a pipe whose write failed is closed, and the slot is left as it was |
| `Console.GoodWriteReturns` | crates/sleepytale/src/infra/console.rs:86-93 | a pipe that took its chunk is back in the slot if and only if nothing was attached or detached meanwhile, and closed otherwise |
| `Console.ClosedStaysClosed` | crates/sleepytale/src/infra/console.rs:71-99 | a closed pipe is never in the slot or with the task again, and is given no more chunks |
| `Console.TakenIsWritten` | crates/sleepytale/src/infra/console.rs:77-84 | a chunk goes to the pipe in the slot, or nowhere if there is none |
| `Console.WriteReachesPipe` | crates/sleepytale/src/infra/console.rs:84 | the end of a write adds its chunk to that pipe and to no other |
| `Console.RunInOrder` | crates/sleepytale/src/infra/console.rs:71-99 | the chunks written to a pipe are a contiguous in-order run of the chunks received |
| `Console.DetachNeverWaitsForWrite` | crates/sleepytale/src/infra/console.rs:73-80 | from every reachable state detach gets through in at most three steps, none of them the end of a write |
| `Console.WrapLosesPipe` | crates/sleepytale/src/infra/console.rs:36-40 | a run from the start in which a multiple of 2^64 attaches overtake a write: the first pipe ends up in the slot, and the newest one in no place at all |
| `Boot.TailSuffices` | crates/sleepytale/src/infra/process.rs:240-252 | a tail one byte shorter than the marker is memory enough |
| `Boot.Scanner.Turn` | crates/sleepytale/src/infra/process.rs:226-253 | one turn of the scanner keeps flag, tail and notices faithful to the output |
| `Boot.Scanner.Mirror` | crates/sleepytale/src/infra/process.rs:219-255 | for every chunking the flag is up if and only if the output contains the marker, the tail is its last bytes, and waiters were notified once |
| `Boot.MirroredUpTo` | crates/sleepytale/src/infra/process.rs:226-238 | what is mirrored is every chunk before the first end of output, read error or chunk the terminal refuses |
| `Boot.MarkerSpells` | crates/sleepytale/src/infra/process.rs:28 | the marker is the banner's text |
| `Boot.NoLostWakeup` | crates/sleepytale/src/infra/process.rs:127-152 | over all interleavings, a waiter blocked after the scanner's notify has been woken; readiness is never reported without the banner |
| `Boot.EarlyBannerNeedsNoWakeup` | crates/sleepytale/src/infra/process.rs:129-142 | a banner seen before the waiter's last check is not waited for |

## Left out

- HKDF, AES, AES-GCM, the salts and the labels: library code and constants, standing behind `PacketProtection.Primitives` with the laws stated there.
- UTF-8 decoding: a predicate on bytes; a name is its bytes.
- Sockets, binding, the return path from backend to client, and send errors: I/O. A bind may fail in the model; a failed send is only logged by the code and changes no state.
- Starting, signalling and killing processes, and the time they take: an adapter answers ready, failed, alive, exited or error, and one tick has one clock value.
- Shutdown at the end of `run` (`state.rs:126-151`): the theorems are about the loop.
- Loading TOML, the command line, logging, the terminal-reading thread and the adapter factory: plumbing.
- Config fields that decide nothing modelled here (boot timeout, shutdown grace, working directory, arguments) are not in `Configuration.Config`.
- Map order: slots take their turns, and held Initials are delivered, in any order, which includes the sorted and the hashed one the code uses.
- Memory ordering of the boot flag: steps are sequentially consistent.
- Dropping a backend that exits by itself leaves its console pipe attached (`state.rs:257-278`): `Console` allows attach and detach at any time and does not tie them to the lifecycle.
- Unix and Windows differences, and 32-bit targets: `usize` has 64 bits.
- The client's side (protection, frame and ClientHello encoders) is written from RFC 9000, RFC 9001, RFC 8446 and RFC 6066 as the specification; the repository has no encoder.
