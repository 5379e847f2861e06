# EdgarVPN, verified in Dafny

EdgarVPN is a peer-to-peer VPN daemon in C. Every pair of nodes runs a two-message handshake under
long-term keys, exchanges ephemeral X25519 keys in it, and then carries packets between two TUN devices
as ChaCha20-Poly1305 boxes with 64-bit counters. This project models its session state machine, its
anti-replay window, the daemon's event loop with its timers and endpoint learning, AllowedIPs routing,
the bytes on the wire and the configuration loader, and proves what they promise over every run.

`dafny verify dfyconfig.toml` checks everything.

## How the model is built

Four layers stack on each other.

* **Replay window.** `Replay.ReplayWindow` is a class with the 128-byte circular bitmap of the source and
  its clearing loop. Its partner is `Replay.Fresh`, which knows only the set of counters accepted so far
  (the check of section 3.4.3 of RFC 4303).
* **One session.** `Sessions` holds the functions of `src/session.c` on values, `SessionObjects.SessionObject`
  the same operations as methods that update fields in place, one proved against the other. A session value
  carries a log of every box it sealed, every message it handed up and every key set it established, so that
  statements about whole runs can be made at all. Cryptography is symbolic (`Terms`): a session key is a term
  over the two secrets of the exchange, the two public keys and a direction, and a box opens only under its
  own key.
* **Two sessions and a network.** `Links` adds a network that loses, duplicates, delays and reorders
  what was sealed, replays it at any time, and forges anything that is not sealed under a key of an exchange
  between these two ends.
* **The daemon.** `Peers` and `Daemon` are the loop body of `src/main.c` as one step function over all peers;
  `DaemonObjects.DaemonObject` is the same body with the source's loops over an updated list of peers. `Effects` says
  field by field what each event does, without these functions: what is sealed, which timestamps move, when an address
  is learned, with failed sends and writes told apart; `SealCalls` collects every call of the cipher from that.
  `EndToEnd` joins two daemons with any number of other peers, `Reconnect` follows one handshake attempt between
  them, `Liveness` adds real time to one pair and `BoundedRecovery` starts that pair in whatever state a bad
  network has left it, `Restart` follows one initiator across a restart, `Attribution` counts the relationships a
  datagram touches, `Duplicates` and `Pairing` study sections that name the same key. `Secrecy` follows the secrets
  behind the keys of a link.

Beside them stand `Wire` (the bytes, with the cipher as a parameter), `WireMeaning` (the symbolic datagram that a
byte string stands for, and the session state machine over bytes, proved to do with bytes what the symbolic one does
with their meanings), `Routing` (CIDR blocks), and the
configuration loader: `Config` is its line-by-line state machine, `ConfigLines` says from its characters what each
line and each value is, `ConfigMeaning` says without a state
machine what a file means and which files are accepted, `ConfigPrinter` writes configurations down as lines, and
`ConfigFile` goes from lines to the text of a file and back through fgets.

Six statements that read as universal in the source or its documentation are not. Each is proved with its exact
condition, and each exception with a run or an input that reaches it.

* No counter value is ever reused with one key (`include/crypto.h:93-97` says `src/main.c` guarantees this). It
  holds on every run of a daemon if and only if no two [Peer] sections have one role and name one key
  (`Duplicates.NoncesUniqueIff`; over every call of the cipher, failed sends included, `SealCalls.CallsUniqueIff`);
  the loader accepts such sections, as `ConfigMeaning.LoadMeans` shows. Two responder sections both answer one INIT
  (`Duplicates.OneInitTwoAnswers`); two initiator sections come round to each other's counters
  (`Duplicates.TwoInitiatorsCollide`).
* Two ends of a relationship that are established hold each other's keys, and a packet comes out of one TUN device on
  behalf of a relationship only if it went into the other for it. Each holds on every run of two daemons, however
  they start, if and only if no other initiator section of the one names the other's key and no other responder
  section of the other names its key (`Pairing.AgreementIff`, `Pairing.ConservationIff`). A second responder section
  answers the same INIT and the initiator takes its answer (`Pairing.AnotherResponder`); a second initiator section
  takes the responder over (`Pairing.InitiatorOvertakes`), and its packets come out for the first
  (`Pairing.InitiatorLeaks`).
* A rejected INIT changes nothing, except when it is authentic and fresh, the responder is established and
  the ephemeral key in it fails the exchange: the session has then already been restarted
  (`Sessions.RefusedInitChangesNothing`, reached in `Sessions.RefusedInitCanRestart`). The comment at
  `src/main.c:173-174`, that trying an INIT on the wrong relationship is harmless, fails in the same case
  (`Attribution.OneRelationshipPerDatagram`, reached in `Duplicates.OneDatagramTwoRelationships`); the code is followed.
* Plaintext is written to the caller's buffer only if the replay check passes too (`include/session.h:177-178`). The
  code decrypts first; the buffer is filled without acceptance exactly for authentic messages that fit and are stale
  or replayed (`Sessions.BufferFilledUnaccepted`, reached in `Sessions.ReplayFillsBuffer`).
* Seeding the handshake counter from the wall clock gives a restarted initiator a higher counter exactly
  unless it restarts within the second of its first start (`Restart.RestartIsFresher`, reached in
  `Restart.SameSecondRepeats`).
* The first matching AllowedIPs block is the only one exactly when no two configured blocks nest
  (`Routing.FirstMatchIsOnlyMatch`; two that do in `Routing.NestedBlocksOverlap`).

Counters are 64-bit and wrap. Statements about runs ask that the seed plus the number of steps stays below
2^64. Millisecond clocks are 64-bit too; that the unsigned subtractions on them never wrap is proved, not
assumed.

## Model

| member | source | states |
|---|---|---|
| Links.Agreement | src/session.c:39-137 | In every state of every run over a network that loses, repeats and reorders, an established initiator has an established responder whose highest seen counter is the initiator's pending one, and each sends with the key the other receives with |
| Links.DeliveredOnceAndAuthentic | src/session.c:139-235 | Over a whole run, any number of re-handshakes included, each end hands up a box at most once, and only boxes (key, counter and payload together) that the other end sealed |
| Links.NoncesUniqueOnLink | src/session.c:39-157 | Between the two ends of one link, over a whole run, no key and counter are used for two seals, by one end or by the two of them |
| Duplicates.NoncesUniqueIff | include/crypto.h:93-97 | On every run of a daemon no key and counter are used for two seals anywhere in it, if and only if no two [Peer] sections have one role and name one key |
| Duplicates.DaemonNoncesUnique | include/crypto.h:93-97 | With distinct sections, on every run and across all relationships, no key and counter are used for two seals |
| Duplicates.OneInitTwoAnswers | src/main.c:374-404 | With two responder sections for one key, one INIT delivered from two unknown addresses is answered by both relationships: different answers sealed under one key and counter |
| Duplicates.TwoInitiatorsCollide | src/session.c:25-56 | With two initiator sections for one key, whatever their seeds, unanswered attempts 15 s apart bring both to one counter: different INITs sealed under one key and counter |
| Duplicates.CollisionReachable | src/main.c:269-294 | Whenever two sections of one role name one key there is a run of the daemon that uses a key and counter twice |
| Duplicates.OneDatagramTwoRelationships | src/main.c:182-198 | With two responder sections for one key there is a run after which one datagram restarts both relationships |
| Duplicates.InitFromIsHonest | src/session.c:39-58 | The INIT used in these runs is the one the peer itself seals |
| Links.RecoveryFromAnyRun | src/session.c:30-137 | From every state of every run, one handshake attempt with its INIT and its RESPONSE delivered leaves both ends established with mirrored keys never used before, send counters 0 and empty replay windows |
| Reconnect.ReconnectionBetweenDaemons | src/main.c:374-519 | After every run of two daemons with any other peers: one due attempt with its INIT and its answer delivered leaves both ends established with fresh mirrored keys, if and only if the INIT comes from an address unknown or known first at the right relationship and the answer from one known first at the right relationship |
| Reconnect.AttemptReconnects | src/main.c:122-148 | The same from every state the invariant of the two daemons allows |
| Links.EstablishedRunCarriesData | src/session.c:139-235 | In every state of every run with an established initiator, the next message either end seals is opened by the other and yields the same payload |
| Sessions.SessionSafety | src/session.c:6-235 | Whatever calls are made with whatever datagrams: no nonce reuse, strictly increasing handshake counters, no message handed up twice, no ephemeral key used for two key sets; pending means nothing sent or received and a live ephemeral secret matching its public key, established means that secret is wiped |
| Sessions.RefusedInitChangesNothing | src/session.c:60-107 | A refused INIT leaves the session unchanged if and only if it is not an authentic and fresh one, for an established session, whose ephemeral key fails the exchange |
| Sessions.RefusedInitCanRestart | src/session.c:82-92 | An established responder, reached by a run, that a refused INIT puts back to pending |
| Sessions.BufferFilledUnaccepted | include/session.h:172-184 | The caller's buffer holds the plaintext of a refused message exactly when that message is authentic, fits, and is stale or replayed; an accepted message is always there |
| Sessions.ReplayFillsBuffer | src/session.c:226-233 | After every accepted message, opening it again is refused and still fills the buffer with its plaintext |
| Terms.DeriveMirrors | src/crypto.c:29-48 | The initiator's and the responder's key derivation from one exchange succeed together and give the same two keys with directions swapped |
| SessionObjects.SessionObject.Init | src/session.c:6-28 | The in-place session after session_init is the initial state of the state machine, and initialisation fails exactly when the peer's public key does |
| SessionObjects.SessionObject.StartHandshake | src/session.c:30-37 | In place: fresh ephemeral pair, pending, send counter 0, everything received forgotten, and nothing else changed |
| SessionObjects.SessionObject.BuildInit | src/session.c:39-58 | In place: the reply and the whole new state are those of the state machine's INIT step, refusals included |
| SessionObjects.SessionObject.HandleInit | src/session.c:60-107 | In place: the reply and the whole new state are those of the state machine's answer step, the early restart of an established session included |
| SessionObjects.SessionObject.HandleResponse | src/session.c:109-137 | In place: the reply and the whole new state are those of the state machine's response step |
| SessionObjects.SessionObject.SealData | src/session.c:139-157 | In place: the reply and the whole new state are those of the state machine's sealing step |
| SessionObjects.SessionObject.OpenData | src/session.c:215-235 | In place, with the circular bitmap and the caller's buffer: accepts exactly what the state machine accepts with the set of all accepted counters; the plaintext of an authentic message is in the buffer whatever the replay check says, and nothing is written for another kind of message or a session not established |
| Replay.ReplayWindow.CheckAndMark | src/session.c:177-213 | Accepts a counter if and only if it was not accepted before and no accepted counter is 1024 or more ahead of it; a refusal changes nothing, an acceptance adds exactly that counter |
| Replay.ReplayWindow.ClearGap | src/session.c:195-197 | The counters that enter the window are unmarked, every counter that stays in it keeps its mark, in at most 1023 iterations |
| Replay.ReplayWindow.BitGet | src/session.c:159-163 | Reads the mark of the counter's slot |
| Replay.ReplayWindow.BitSet | src/session.c:165-169 | Marks the counter's slot and leaves every other slot alone |
| Replay.ReplayWindow.BitClear | src/session.c:171-175 | Unmarks the counter's slot and leaves every other slot alone |
| Replay.ReplayWindow.Reset | src/session.c:35-36 | Forgets every accepted counter while the highest counter keeps its stale value |
| Replay.WriteBit | src/session.c:165-175 | Writing one bit changes the mark of exactly the counters that share its slot modulo 1024 |
| Replay.RunWindow | src/session.c:177-213 | For every sequence of 64-bit counters presented to an empty window, each verdict is that of the set of counters accepted before |
| Replay.ReorderingTolerated | src/session.c:177-213 | Distinct counters, none preceded by one 1024 or more ahead of it, are all accepted in any order |
| Daemon.TimersHold | src/main.c:476-520 | On every run no timestamp is ahead of the clock, so no unsigned subtraction wraps; each timer pass leaves every initiator heard from within 15000 ms, its keys younger than 45000 ms, and every reachable established peer sent to within 5000 ms |
| Daemon.LearnedEndpointsDistinct | src/main.c:374-404 | On every run the addresses learned by responder relationships are pairwise distinct, so a source address names at most one of them |
| Daemon.StepAt | src/main.c:313-527 | What one event can do to one peer: nothing, a routed send, a datagram from its own address, an INIT tried on it, or a timer pass |
| Daemon.PeerStepTimers | src/main.c:393-461 | Every event keeps the timestamps behind the clock and an established initiator's address known |
| Daemon.FindResponderFrame | src/main.c:182-198 | Trying an INIT on the responders changes nothing but sessions of responders, each by at most one call of session_handle_init |
| Daemon.FindByAddr | src/main.c:155-166 | The index found is of a peer known at that address, no peer before it is known there, and if none is found no peer is |
| Daemon.FindsFirst | src/main.c:155-166 | The search finds peer k if and only if k is known at the address and no peer before it is, and finds nobody if and only if the address is unknown |
| Effects.TunEffect | src/main.c:323-362 | A packet spends one counter of the first relationship whose AllowedIPs cover its destination, if that is established and the packet has at most 2048 bytes: the box sealed and the counter step are the same whether the send succeeds or not, only the send time is not; everyone else, and in every other case everyone, is unchanged |
| Effects.KnownEffect | src/main.c:409-474 | A datagram from a known address changes the first peer known there only: answered, restarted, completed, accepted or nothing, told from the message and the session field by field; an answer moves the timestamps only if sent, data only if empty or written, and exactly non-empty written data goes to the TUN device |
| Effects.StrangerEffect | src/main.c:374-404 | An INIT from an unknown address is answered by the first relationship that can; it takes over the address and the three timestamps if the answer was sent, and only its session changes if not |
| Effects.UnansweredEffect | src/main.c:182-198 | If none can, no address is learned and no timestamp moves, and exactly the established relationships for which only the ephemeral key fails are restarted |
| Effects.DropEffect | src/main.c:364-409 | Empty datagrams, and anything but an INIT from an unknown address, change nothing |
| Effects.AddressesAreLearned | src/main.c:374-404 | After every run a responder relationship is known at an address if and only if the last INIT from an unknown address that it answered, with the answer sent, came from there |
| Effects.InitiatorAddress | src/main.c:122-135 | An initiator keeps an address it has, and gets one exactly from a successful lookup in a pass at least 15000 ms after its last attempt, namely the one looked up |
| Effects.PassEffect | src/main.c:482-519 | A timer pass over a peer, written out with its three deadlines, the failed lookup and the new attempt |
| Effects.IdlePass | src/main.c:482-519 | A pass leaves a peer alone if and only if no keepalive is due after 5000 ms, no peer is silent for 15000 ms and no keys are 45000 ms old |
| Effects.PassSeals | src/main.c:482-519 | In a pass a keepalive is sealed exactly when one is due, and an INIT after it exactly when an attempt is due and the address is known or found |
| Effects.TimersEffect | src/main.c:476-520 | A sweep is such a pass over every peer |
| Effects.BootEffect | src/main.c:269-294 | How each relationship starts: keys, counter seed, timestamps, and a first attempt exactly for an initiator whose peer resolves |
| SealCalls.EventCalls | src/main.c:323-520 | Each event adds to a session's record exactly the calls of the cipher it makes on its behalf, read off the state before it, sent or not |
| SealCalls.CallsAreRemembered | src/session.c:139-157 | After every run a session's record is every call ever made for it, in order: a failed send gives no counter back |
| SealCalls.CallsUniqueIff | include/crypto.h:93-97 | Over every call of the cipher that a daemon makes on any run, whatever becomes of the messages, no key and counter are used twice, if and only if no two sections have one role and name one key |
| Peers.TickIsPunctual | src/main.c:482-519 | One timer pass meets the three deadlines and keeps the timestamps behind the clock |
| DaemonObjects.DaemonObject.FindPeerByAddr | src/main.c:155-166 | The loop returns the first peer known at the address, or -1 |
| DaemonObjects.DaemonObject.FindResponderForInit | src/main.c:182-198 | The loop over responder sessions, updating each as it goes, leaves the peers and returns the index that the search specification gives |
| DaemonObjects.DaemonObject.HandleTun | src/main.c:323-362 | The TUN branch computes the specified step, drops included |
| DaemonObjects.DaemonObject.HandleUdp | src/main.c:364-474 | The UDP branch computes the specified step: attribution, endpoint learning after a sent answer only, handshakes, data, keepalives and drops |
| DaemonObjects.DaemonObject.InitiateHandshake | src/main.c:122-148 | Starts and builds in one step, or only moves the retry timer when the name does not resolve; other peers are untouched |
| DaemonObjects.DaemonObject.HandleTimers | src/main.c:476-520 | The sweep applies one timer pass to every peer |
| Attribution.OneRelationshipPerDatagram | src/main.c:374-473 | A datagram changes two relationships if and only if it is an INIT from an unknown address that restarts two established ones with an ephemeral key that fails the exchange |
| Attribution.DistinctKeysTouchOne | src/main.c:182-198 | Two relationships changed by one datagram receive under the same static key, so with distinct keys a datagram changes at most one |
| Attribution.FindResponderChanges | src/main.c:182-198 | Apart from the relationship that answers, trying an INIT around changes exactly those it restarts, and then none answers |
| Restart.RestartIsFresher | src/session.c:16-26 | If the wall clock advanced at least as much as the monotonic one, the first INIT after a restart carries a counter above every one used before, if and only if the restart is not within the second of the first start |
| Restart.SameSecondRepeats | src/session.c:16-26 | Started again in the same instant, the initiator repeats the counter of its first INIT |
| Restart.StepKeepsPace | src/main.c:500-519 | On every event the number of attempts made so far is at most one more than the 15000 ms periods passed since the seed |
| Restart.ClockOutruns | src/session.c:16-26 | One attempt per 15000 ms never catches up with a clock counting seconds, once the second has changed |
| EndToEnd.DaemonSafety | src/session.c:39-235 | On every run of a daemon, whatever arrives from wherever: no peer relationship by itself seals twice with one key and counter, the counters of the INITs it sends or answers strictly increase, it hands up no message twice and uses no ephemeral key for two key sets |
| EndToEnd.PacketsConserved | src/main.c:323-466 | On every run of two daemons with any other peers, the multiset of packets written to one TUN device for the relationship is contained in the multiset of packets read from the other with an IPv4 destination whose first matching AllowedIPs selects it, in both directions |
| EndToEnd.AgreementBetweenDaemons | src/session.c:39-137 | On every run of two daemons with any other peers, an established initiator has an established responder that answered exactly its pending INIT and holds the mirror image of its keys |
| EndToEnd.SublogCarriesLess | src/session.c:215-235 | Handing up distinct boxes out of a log never hands up a packet more often than the log carries it |
| EndToEnd.ObtainableIsAvailable | src/session.c:39-157 | Boxes under a link's keys are sealed by its two sessions only, whatever the other relationships of both daemons do |
| Pairing.AgreementIff | src/session.c:60-137 | For every two lists of [Peer] sections with one pair that names each other: after every run of the two daemons, however they start, an established initiator has an established responder that answered exactly its pending INIT and holds the mirror image of its keys, if and only if no other initiator section of the one and no other responder section of the other name the same key |
| Pairing.ConservationIff | src/main.c:323-466 | Under exactly the same condition, after every run, no packet is written for the relationship at one end that was not read for it at the other, nor more often |
| Pairing.AnotherResponder | src/main.c:182-198 | With another responder section for the same key there is a run after which the initiator holds keys its responder does not, and one after which it writes a packet read for the other section |
| Pairing.InitiatorOvertakes | src/session.c:74-92 | With another initiator section for the same key there is a run after which the responder of an established initiator has moved on to the other one |
| Pairing.InitiatorLeaks | src/main.c:409-466 | With another initiator section for the same key there is a run after which the responder writes a packet that was read for the other section |
| Secrecy.ForwardSecrecy | docs/CRYPTOGRAPHY.md:10-18 | In every state of every run, from both long-term secrets and every ephemeral secret the two ends then hold: no data the initiator ever sealed can be opened, and of the data the responder sealed exactly that under its current keys while the answer they belong to has not been taken yet |
| Secrecy.NextKeepsSecrecy | src/session.c:30-137 | Every step keeps: each key set comes from one ephemeral secret of each end, the initiator's current ephemeral key is in no key set of the responder but the one that answers the pending INIT, and all data was sealed under the key set of some handshake |
| BoundedRecovery.RecoversInBoundedTime | src/main.c:476-520 | From every state that any run over any network can leave the two ends in, once datagrams arrive in order within D and loops come round within G, where 5000 + G + D and 2 D are below 15000: both ends have been established under each other's keys within 15000 + G + 2 D ms, and after 15000 + G ms the initiator never takes its peer for dead and no handshake takes longer than 2 D |
| BoundedRecovery.SettlingNext | src/main.c:409-519 | Every event keeps a pair silent with its last attempt lost, or flowing again, until a new attempt or an arrival makes it healthy |
| WireMeaning.OpeningCommutes | src/crypto.c:108-142 | For every byte string, known key, kind and room: opening the bytes and reading the result is opening the symbolic datagram they stand for, refusals included |
| WireMeaning.SealingCommutes | src/crypto.c:80-106 | The bytes sealed under a known key stand for the box that was sealed |
| WireMeaning.HandleInitCommutes | src/session.c:60-107 | Answering the bytes of an INIT leaves the session, and emits bytes that stand for the reply, as answering their meaning does, whatever the bytes |
| WireMeaning.CallCommutes | src/session.c:30-235 | The same for every session operation |
| WireMeaning.RunCommutes | src/session.c:30-235 | Whatever byte strings a session is fed, it goes through the states of the symbolic session on their meanings, so that what is proved of all symbolic runs holds of all runs over bytes |
| Liveness.NeverTakenForDead | src/main.c:56-75 | With ordered lossless delivery within D and loops within G, where 5000 + G + D and 2 D are below 15000, an initiator never hits the dead-peer timeout on any run of keepalives, packets and key rotations, and no handshake takes longer than 2 D |
| Liveness.ArriveIsStep | src/main.c:364-474 | A datagram delivered in the timed model does what the daemon's dispatch does on a node with that one peer, if a known sender keeps its address |
| Liveness.NextHealthy | src/main.c:409-519 | Every event keeps a pair in one of three healthy situations: INIT under way, answer under way, or established with no pause in what is under way |
| Wire.OpensExactlyWhatWasSealed | src/crypto.c:80-142 | For every packet, counter and payload: opening returns that counter and payload if and only if the packet is their sealing under the key and the payload fits |
| Wire.NonceInjective | src/crypto.c:69-78 | Different 64-bit counters give different nonces |
| Wire.NonceBytes | src/crypto.c:69-78 | A nonce has 12 bytes: byte i is counter / 256^i % 256 for i below 8, and the last four are 0 |
| Wire.FrameLayout | src/crypto.c:88-105 | A datagram is its kind, the eight counter bytes, and the ciphertext under that counter's nonce |
| WireMeaning.EmittedBytes | include/session.h:47-60 | A session emits an INIT exactly when it is a pending initiator with 57 bytes of room, data exactly when established with 25 bytes more room than payload; kinds 1, 2 and 3, lengths 57, 57 and payload + 25, and nothing is handed up that does not fit |
| Wire.FrameUnambiguous | src/session.c:139-157 | A frame is 25 bytes longer than its payload, 57 bytes for a handshake, and under one key determines its kind, counter and payload |
| Wire.EncodeDecode | src/crypto.c:117-120 | Every eight bytes are the little-endian encoding of the counter read from them, which fits in 64 bits |
| Wire.DecodeEncode | src/crypto.c:91-93 | Every counter is read back from its little-endian bytes |
| Wire.BuildNonce | src/crypto.c:69-78 | The loop fills the buffer with the little-endian counter followed by four zero bytes |
| Wire.Seal | src/crypto.c:80-106 | Writes counter, ciphertext and tag at the given place and nothing outside it, or refuses for lack of room and writes nothing |
| Wire.Open | src/crypto.c:108-142 | Accumulates the counter byte by byte; returns counter and plaintext exactly when the packet authenticates and fits; a packet of the wrong length leaves the buffer alone, and nothing is ever written beyond the length of the plaintext |
| Routing.MatchesIffInBlock | src/routing.c:19-25 | For every address, network and prefix 0 to 32, the masked comparison of network-order words is membership in the aligned block of 2^(32 - prefix) numbers of section 3.1 of RFC 4632 |
| Routing.NestedOrDisjoint | src/routing.c:19-35 | Two blocks overlap only if one contains the other, and then entirely |
| Routing.FirstMatchIsOnlyMatch | src/routing.c:27-35 | No destination matches two entries if and only if no two configured blocks nest |
| Routing.NestedBlocksOverlap | src/routing.c:27-35 | With 10.0.0.0/8 before 10.1.0.0/16, both cover 10.1.2.3 and the first one gets it |
| Routing.FindPeerForDest | src/routing.c:27-35 | The loop returns the first entry that covers the destination, or -1 if none does |
| Routing.MatchRoute | src/routing.c:19-25 | The masked comparison decides whether an entry covers the destination |
| Routing.RoutePacket | src/main.c:332-335 | A packet is routed only if it is IPv4, to the first entry covering its destination; it is dropped only if it is not IPv4 or no entry covers it |
| Routing.ParseDest | src/routing.c:7-17 | A destination is found exactly in packets of at least 20 bytes with version 4, and it is bytes 16 to 19 |
| Routing.HostMaskIs | src/config.c:70-72 | The shifted 32-bit mask is 2^32 - 2^(32 - prefix), prefix 0 included |
| Text.TrimBuffer | src/config.c:22-36 | The two index loops of trim remove what the recursive definition removes |
| Text.TrimIs | src/config.c:22-36 | Trimming removes all spaces at both ends and nothing else |
| Text.QuadRoundTrip | src/config.c:61-75 | A printed address reads back as itself |
| Text.FullLongDec | src/config.c:55-59 | A printed number reads back as itself |
| ConfigLines.CommentsAreIgnored | src/config.c:164-170 | For every file and every position, inserting a line of spaces, or of spaces and then a '#' or ';' and anything, changes neither whether it loads nor what it loads as |
| ConfigLines.BlankLine | src/config.c:168-170 | Exactly those lines are skipped |
| ConfigLines.HeaderLine | src/config.c:172-180 | A line is a header if and only if it is spaces, '[', a name without ']', ']' and anything; its title is that name |
| ConfigLines.UnterminatedLine | src/config.c:172-178 | A line is refused as unterminated if and only if it opens with '[' and has no ']' after it |
| ConfigLines.NoEqualsLine | src/config.c:216-221 | A line is refused for lack of '=' if and only if it starts with some other text and has none |
| ConfigLines.AssignLine | src/config.c:216-224 | A line assigns a value to a key if and only if it is that key, the first '=', and that value, with any spaces around them |
| ConfigLines.TitleIs | src/config.c:191-206 | The two section names, in any mixture of cases |
| ConfigLines.FieldIs | src/config.c:226-321 | The nine keys, in any mixture of cases |
| ConfigLines.RoleIs | src/config.c:295-305 | The two roles, in any mixture of cases |
| ConfigLines.SpellingIsIgnored | src/config.c:216-224 | Spaces around a key and a value, and the case of the key, make no difference to what the file loads as |
| ConfigLines.NumberIs | src/config.c:55-59 | What reads as a number is spaces, an optional sign and digits to the end, and its value is theirs |
| ConfigLines.PortIs | src/config.c:251-260 | A port is exactly such a number from 1 to 65535 |
| ConfigLines.QuadIs | src/config.c:61-64 | What reads as an address is its dotted decimal form and nothing else |
| ConfigLines.NetmaskIs | src/config.c:70-75 | The netmask of a prefix reads as the address of value 2^32 - 2^(32 - prefix) |
| Config.ReadLine | src/config.c:164-327 | The loop body on one line is the transition of the loader's state machine |
| Config.ConfigLoad | src/config.c:140-351 | The loop over the lines and the final checks compute the specified result, stopping at the first refused line |
| Config.PrefixParses | src/config.c:82-108 | A string reads as address and prefix if and only if it is shorter than 512 characters and is that address, a slash, and an accepted spelling of a number from 0 to 32 |
| Config.EndpointParses | src/config.c:111-138 | A string reads as host and port if and only if it is shorter than 256 characters and is that non-empty host, a colon, and a colon-free accepted spelling of a port from 1 to 65535 |
| ConfigMeaning.LoadMeans | src/config.c:140-351 | For every list of lines: the file is accepted if and only if every line is legal in the kind of section it stands in, there are at most 8 [Peer] sections, each gives all four keys, an Address was given, and a private key if there are peers; the result then has for every setting the last value its own section gave, or the default |
| ConfigMeaning.LoadedPeersAreComplete | src/config.c:182-206 | In every loaded file there are as many peers as [Peer] headers, at most 8, each with the endpoint, key, role and prefix of its own section, port 1 to 65535, prefix 0 to 32, and a private key is present if a peer is |
| ConfigMeaning.ReadMeans | src/config.c:164-327 | After any prefix of the lines, the loader's variables are the function of headers and assignments read so far, or the prefix was already refused |
| ConfigMeaning.LegalStep | src/config.c:172-326 | Which lines may follow which: legal by itself, no header while a [Peer] section is incomplete, no ninth [Peer] |
| ConfigMeaning.InterfaceKeyMeans | src/config.c:226-275 | An [Interface] assignment is accepted exactly when its value is legal, and updates exactly that setting |
| ConfigMeaning.PeerKeyMeans | src/config.c:276-321 | A [Peer] assignment is accepted exactly when its value is legal, and updates exactly that setting of the current peer |
| ConfigFile.WrittenConfigLoads | src/config.c:140-351 | Loading a file undoes writing it, for every configuration whose strings are trimmed, stand on one line and fit their buffers, values with '=' and hosts with ':' included |
| ConfigPrinter.PrintedConfigLoads | src/config.c:164-351 | The same on the list of lines |
| ConfigFile.LoadedFileReloads | src/config.c:140-351 | Every text that loads can be written down canonically, and loading that gives the same configuration |
| ConfigFile.LoadedIsPrintable | src/config.c:140-351 | Every configuration the loader can produce has trimmed one-line strings that fit their buffers |
| ConfigFile.WrittenPieces | src/config.c:161-164 | fgets with the 512-byte buffer cuts a file of lines that fit into exactly those lines with their newlines |
| ConfigFile.PiecesJoin | src/config.c:161-164 | For every text, the pieces fgets returns are the text, nothing lost or repeated |
| ConfigPrinter.AssignmentReads | src/config.c:216-224 | A printed key and value read back as that key and value, whatever the value holds |
| ConfigPrinter.EndpointReads | src/config.c:111-138 | A printed endpoint reads back, with any number of colons in the host |
| ConfigFile.CanonicalIsShortest | src/config.c:126-130 | No accepted spelling of a number is shorter than the canonical one, so reprinting an endpoint never overflows its buffer |

## Left out

- X25519, ChaCha20-Poly1305, hashing, key generation and base64 internals: keys and boxes are terms, `Wire` takes the cipher and `Config` the base64 decoder as a parameter.
- A public key under the kind of a data message, or a packet of 32 bytes under that of a handshake: no byte string stands for such a datagram (`WireMeaning.Meaning`).
- `src/tun.c`, `src/udp.c` and DNS: the outcomes of sends, writes and lookups are parameters of each event.
- `src/log.c`, statistics counters, signals, poll errors, opening the configuration file: output and plumbing.
- NUL characters inside a configuration file, which end a C string early: not modelled.
- DaemonObjects.DaemonObject.FindResponderForInit: the peers hold session values, not references to `SessionObject`, so aliasing between the loop's pointers and the array is not modelled.
- SessionObjects.SessionObject.StartHandshake: ephemeral secrets are named by the session and a draw count, so that two draws differ is built in, not derived from a random generator.
- Links.Agreement: stated for one process lifetime of each node; a restarted responder forgets its highest seen counter.
- EndToEnd.PacketsConserved: asks that no other section of the same role names the same key; `Pairing.ConservationIff` shows that it fails whenever there is one.
- EndToEnd.AgreementBetweenDaemons: the same, with `Pairing.AgreementIff`.
- Reconnect.ReconnectionBetweenDaemons: asks the same, and sends and TUN writes in the attempt succeed.
- BoundedRecovery.RecoversInBoundedTime: what was under way when the network comes back is lost, the initiator's peer has been resolved and tried at least once, and an established responder knows its peer's address, as it does once an answer of its has been sent; otherwise as the next line.
- Liveness.NeverTakenForDead: one pair of nodes, every send and TUN write succeeds, and a node keeps its source address once the other has learned it.
- SessionObjects.SessionObject.OpenData: says nothing about the buffer after a message that fails to authenticate, and asks that the buffer is not the session's own window.
- Secrecy.ForwardSecrecy: speaks of long-term and ephemeral secrets; the data keys themselves stay in the session until the next ones overwrite them, and nothing is claimed about someone who reads those.
- WireMeaning.OpeningCommutes: assumes of the cipher that no ciphertext opens under two of the session keys in use, which its designers do not promise against someone who chooses the keys; `WireMeaning.FaithfulExists` shows the assumptions can be met.
- Packet contents beyond the IPv4 destination, `tools/`, Docker files and demo configurations: no state or algorithm to prove.
