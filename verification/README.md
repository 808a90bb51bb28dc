# P2P-Relay: a verified model

The repository runs three libp2p programs: a relay, a node runner and a mobile client. The client asks node
runners for status and tells them to start and stop streaming, over a request/response protocol in which the
request and the response travel on separate streams. It reaches runners it cannot dial through circuit addresses
that it builds from text.

This project models three things.

**The protocol as a system of nodes** (`Messages`, `Network`, `Structure`, `Delivery`, `Termination`, `Tokens`,
`Sequential`, `Marks`, `Flag`, `Replies`, `Checks`, `Unlocked`, `Ticker`, `Runs`, `Visits`, `Scenarios`). `Network` is a transition
system for any number of nodes. Every activation of `sendProtoMessage`, every stream with the handler goroutine at its
far end, and every ticker goroutine has a program counter. The check of `isStreaming`, its write and the second read for
the reply are separate steps, since the mutex of `PingProtocol` is never locked. `NewStream`, `Marshal`, `Write` and
`ReadAll` may each fail. A failed `Marshal` delivers an empty message; a failed second `NewStream`, and an empty request
whose handler reads `req.Id`, take the process down. The theorems quantify over all finite runs, those with crashes
included, unless they name a condition. Three conditions on whole runs occur: `MarshalsSucceed` (no `Marshal` call fails;
`Delivery.Causality` for completed sends, `Delivery.NoCrash`), that no `Redial` step fails (`Delivery.NoCrash`), and
`Serial` (each write of the flag happens while no other handler of that node is between its first look at the flag and
its last, which holding the mutex would ensure; `Flag.SerialRunsLinearize`, `Flag.SerialAlternation`). Where a message
whose own `Marshal` failed makes a difference, the theorem states both cases.

**The same code in its own imperative form** (`PingNode`, `Correspondence`, `Endings`). Streams are written, reset and closed in place, and a node
object holds the flag, the dispatch tables and the streams whose handlers wait on the channel. `Correspondence` proves
that from every reachable state, and whichever operations fail, the network can go on to the end that the procedure or
the handler computes, and that a send can end in no other way; `Endings`, that a request handler can end in no other way
either, unless another handler writes the flag between its test and its reply.

**Addresses, discovery and the plain stream handlers** (`Text`, `Multiaddr`, `Grammar`, `Shared`, `Discovery`, `StreamHandlers`).
Multiaddr text is parsed and printed for `ip4`, `ip6`, `tcp`, `udp`, `quic`, `p2p` and `p2p-circuit`. What a legal value
is and how it is spelled canonically is a codec, about which only this is assumed: canonical spellings are non-empty,
slash-free and stable. A peer ID's text is slash-free and canonical when it decodes. Network outcomes come from
arbitrary oracles.

Five properties one might expect are false of the code. `Scenarios` continues every run, from any state in which the
nodes concerned are running and the flag is down (up for the fourth), to a counterexample:

- Two overlapping starts are both told SUCCESS.
- A reply says SUCCESS and not streaming.
- A status reply's text and boolean disagree.
- A node that streams all along is reported as not streaming, because its reply's marshalling failed.
- A request whose marshalling failed crashes its receiver.

The exact conditions:

- SUCCESS and STREAM_STOPPED alternate at a node, and all its outcomes are sequential in the order of effect, if and only
  if for every write of its flag no other handler wrote it since the writer's test, or the last one to do so left it as
  that test saw it (`Checks.InterleavingsExactly`).
- A reply agrees with itself if and only if, after the step that settled its text and before the step that built it, no
  other handler wrote the flag, or the last one to do so left it as the text says (`Replies.ReplyAgreesExactly`).
- The boolean read in a status response is the replier's flag at some moment since the request was issued if and only if
  the response arrived in full or the flag was down at some such moment (`Flag.StatusReadsExactly`); it arrives in full
  if and only if its `Marshal` did not fail (`Delivery.ArrivesInFullExactly`).
- A step takes a node down if and only if it is a failed `Redial` or reads an empty start, stop or status request
  (`Delivery.CrashExactly`).

Nothing was executed; everything stated here is checked by the verifier with `dafny verify dfyconfig.toml`.

## Model

| member | source | states |
|---|---|---|
| Structure.Always | internal/ping/ping.go:120-332 | In every reachable state: a send owns at most two streams whose wires fit its program point, a handler past its read has a cleanly closed stream, and a reply and the handler that made it point at each other, with from and to swapped and the content answering the request |
| Delivery.AtMostOnce | internal/ping/ping.go:289-332 | Across both attempts of one send the receiver runs its handler at most once |
| Delivery.ResultMeansDelivery | internal/ping/ping.go:305-331 | A true result means one stream carried all bytes to a clean close and any other was reset and never handled; a false result means no stream carried them |
| Delivery.Persistence | internal/ping/ping.go:120-332 | Handled stays handled, crashed stays crashed, a returned send never changes, between any two states of a run |
| Delivery.Causality | internal/ping/ping.go:120-178 | For each pair of nodes and kind: responses handled <= responses sent <= requests handled <= requests issued, in every run; with successful marshalling also when only sends that returned true count |
| Delivery.Totals | internal/ping/ping.go:183-332 | N calls give at most 2N sends, 2N handled messages and 4N streams |
| Delivery.IdentityFlows | internal/ping/startstream.go:41-47 | A handled response was made for an earlier request of the same kind between the same two nodes, from what arrived of it: same Id for start and stop, "Response to " and the request's data for ping. A start, stop or status request so answered arrived in full; what is read of a response that did not is the empty message |
| Delivery.ArrivesInFullExactly | internal/ping/ping.go:297-303 | A handled message arrived in full if and only if its sender's Marshal did not fail; otherwise it arrived empty |
| Messages.ZeroIsBlank | internal/ping/ping.go:297-303 | The message read from no bytes is the one without content: no Id, empty texts and tables, false |
| Delivery.ChannelReachedExactly | internal/ping/pinghandler.go:35-45 | A request handler done with its reply reaches the channel if and only if the reply was sent or the request was a ping; otherwise it ends in an error |
| Delivery.RequestsCarryIds | internal/ping/ping.go:203-267 | Every start, stop and status request in flight carries an Id |
| Delivery.CrashExactly | internal/ping/ping.go:295-321 | A step takes a node down if and only if its second NewStream fails or it reads an empty start, stop or status request |
| Delivery.NoCrash | internal/ping/startstream.go:17-26 | When marshalling and retry opens succeed no node goes down, so no handler dereferences nil |
| Delivery.DownIsStill | internal/ping/ping.go:316-321 | A node that is down does nothing any more: no send, handler, ticker or flag of it moves and nothing is logged for it |
| Termination.BoundedWork | internal/ping/ping.go:183-332 | A run with N calls takes at most 44 N protocol steps, however calls and steps interleave |
| Termination.QuiescentShape | internal/ping/ping.go:120-178 | When no sender or handler step is possible, on running nodes every send has returned and every inbound stream was lost, ended or is parked on the channel |
| Tokens.Conservation | internal/ping/status.go:42-53 | At every node: handlers that reached the channel = tokens taken + parked; streams accepted = ended + live, and the ended are those whose handler was let go or failed; one token at most per target iteration and none off the client; calls made match the ticker's program |
| Tokens.ReceiveReleasesOne | cmd/mobile_client/main.go:530-532 | Each receive releases exactly one parked handler, of the receiving node |
| Visits.VisitRuns | cmd/mobile_client/main.go:511-536 | From every reachable state a running ticker between visits can make all its calls to any target, in order, each succeeding or failing in any way short of a panic: ping, status, info, start, status, stop on a mobile client, info elsewhere; it is then in the select on a mobile client and between visits elsewhere |
| Visits.CanReceive | cmd/mobile_client/main.go:530-536 | From every reachable state a running mobile client with its six calls made and none in flight can take the token of any handler parked there: that handler is let go, the ticker goes on, one more token is taken and nothing else changes |
| Visits.CanTimeOut | cmd/mobile_client/main.go:530-536 | Or it can time out, and nothing but its ticker changes |
| Visits.ClientAlwaysWaits | cmd/mobile_client/main.go:522-536 | In every run a mobile client's visit ends in the select, after six calls, none in flight |
| Visits.RunnerNeverWaits | cmd/node_runner/main.go:285-341 | In every run any other node's ticker never waits and never takes a token |
| Tokens.ClientBacklog | cmd/mobile_client/main.go:511-536 | Parked handlers are at least those that reached the channel minus completed iterations, each of which made six calls |
| Tokens.RunnerBacklog | cmd/node_runner/main.go:285-341 | Off the client nothing is received: parked equals all that reached the channel, and never decreases |
| Sequential.Alternation | internal/ping/startstream.go:31-39 | Handled one after the other, between two SUCCESS lies a STREAM_STOPPED and conversely |
| Sequential.ClientCycles | cmd/mobile_client/main.go:522-528 | After k full cycles from any flag the node is not streaming, and every cycle after the first sees inactive, SUCCESS, active, STREAM_STOPPED |
| Flag.FlagIsFold | internal/ping/startstream.go:31-54 | In every interleaving the flag is the fold of the start and stop requests handled, and every ALREADY_STREAMING, STREAM_STOPPED or active outcome follows a SUCCESS of that node |
| Flag.FlagDependsOnOpsOnly | internal/ping/stopstream.go:31-50 | Two reachable states with the same handled start and stop requests have the same flag, whatever became of replies and other traffic |
| Flag.StatusLinearizes | internal/ping/status.go:31-42 | In every interleaving the boolean sent in a status or start response that is handled is the replier's flag in some state after the request was issued and before the response's stream existed; that boolean is what is read if the response arrived in full, and false is read if its Marshal failed, whatever the flag |
| Flag.StatusReadsExactly | internal/ping/status.go:31-42 | The boolean read in a handled status or start response is the replier's flag in some state from the issue of the request on, up to any state in which the response's stream exists, if and only if the response arrived in full or the flag was down in some such state |
| Flag.SequentialExactly | internal/ping/startstream.go:31-39 | Without the mutex, a node's outcomes are those of the sequential object on the requests in the order of effect if and only if every write of its flag finds it as the handler's test saw it |
| Flag.AlternationExactly | internal/ping/startstream.go:31-39 | Without the mutex, SUCCESS and STREAM_STOPPED strictly alternate from SUCCESS if and only if every write of the flag finds it as the handler's test saw it; the flag is always as the last of them says |
| Replies.ReplyAgreesExactly | internal/ping/status.go:31-40 | Without the mutex, the text and the boolean of a start or status reply agree if and only if, between the step at which the handler settled on its text and the step that builds the reply, no other handler wrote the flag, or the last to write it left it as the text says |
| Replies.RepliesSay | internal/ping/startstream.go:31-45 | Every reply ever built, word for word: a start is told "SUCCESS" if and only if its handler wrote the flag and else "ALREADY_STREAMING"; a status "Stream is active" or "Stream is inactive" as its test saw the flag; the boolean is the flag when the reply is built; ping, stop and info likewise |
| Checks.CheckHoldsExactly | internal/ping/startstream.go:31-39 | A write finds the flag as its handler's test saw it if and only if no other handler wrote the flag since that test, or the last one to do so left it as the test saw it |
| Checks.InterleavingsExactly | internal/ping/stopstream.go:31-38 | In every run a node's outcomes are sequential in the order of effect, and its SUCCESS and STREAM_STOPPED alternate, if and only if that holds of every write of its flag so far |
| Flag.EdgesAreOutcomes | internal/ping/stopstream.go:31-38 | Rising minus falling edges is the flag; edges never exceed SUCCESS and STREAM_STOPPED outcomes and match them exactly when every write finds the flag as tested |
| Flag.SerialRunsLinearize | internal/ping/ping.go:54-61 | In serial runs every write finds the flag as its test saw it, every node's outcomes are those of the sequential object in order of effect, every start reply says streaming, every status reply's text and boolean agree |
| Flag.SerialAlternation | internal/ping/startstream.go:31-45 | In serial runs SUCCESS and STREAM_STOPPED strictly alternate from SUCCESS and the flag is up exactly when successes exceed stops by one |
| Ticker.TickerFollowsProgram | cmd/mobile_client/main.go:511-536 | In every reachable state the calls a ticker has made to a target are its program, as often as it has finished with that target, and then the calls of the visit in progress, in order; each is a request sent to that target |
| Ticker.TickerCycles | cmd/mobile_client/main.go:522-528 | What a mobile client's calls to a target ask of its flag is status, start, status, stop, again and again |
| Unlocked.OutcomesHonest | internal/ping/status.go:31-35 | In every interleaving each outcome other than SUCCESS and STREAM_STOPPED is what the sequential object would answer after the requests handled before it |
| Ticker.ClientDrivesCycles | cmd/mobile_client/main.go:522-528 | In every interleaving, a node that after any earlier requests has handled the first k cycles of one client's calls in the order made, with no other start, stop or status in between, is not streaming. The first cycle sees the flag as it finds it, SUCCESS (or ALREADY_STREAMING if it was up), active, STREAM_STOPPED; each later one inactive, SUCCESS, active, STREAM_STOPPED. All outcomes are sequential if and only if every write found the flag as tested |
| Scenarios.TwoSuccesses | internal/ping/startstream.go:31-34 | From every reachable state with the flag down, two overlapping starts can both be told SUCCESS |
| Scenarios.SuccessNotStreaming | internal/ping/startstream.go:41-45 | Likewise, a stop between a start's write and its reply can make the reply say SUCCESS and not streaming |
| Scenarios.StatusDisagrees | internal/ping/status.go:31-40 | Likewise, a start between a status handler's two reads can make its reply say inactive in text and true in its boolean |
| Scenarios.EmptyReplyMisreports | internal/ping/ping.go:297-303 | From every reachable state with the flag up, a status response whose Marshal fails can be read as false although the flag stays up from before the request to the end |
| Scenarios.EmptyRequestCrashes | internal/ping/ping.go:297-303 | From every reachable state, a start, stop or status request between running nodes whose Marshal fails can take the receiver down |
| Scenarios.Deliver | internal/ping/ping.go:289-331 | From every reachable state a request between running nodes can get as far as its handler's test |
| PingNode.ProtocolIdsDistinct | internal/ping/ping.go:36-47 | No two of the ten protocols share a string |
| PingNode.Dispatch | internal/ping/ping.go:72-118 | Each protocol string reaches the handler of its own kind through the entry point of its own direction, and nothing else is registered |
| PingNode.Served | internal/ping/ping.go:36-47 | The ten strings, which handler serves each and through which entry point |
| PingNode.PingProtocol.constructor | internal/ping/ping.go:63-108 | The ten registrations fill both tables and the host's handlers as Dispatch describes; the flag is down |
| PingNode.PingProtocol.SendProtoMessage | internal/ping/ping.go:289-332 | The result and the final wire of each opened stream for every combination of failures, deferred closes included |
| PingNode.PingProtocol.Ping | internal/ping/ping.go:183-200 | One attempt, of the ping request with both texts as spelled; the result is the attempt's |
| PingNode.PingProtocol.StartStream | internal/ping/ping.go:203-225 | One attempt, of the start request with the caller's Id, need and options |
| PingNode.PingProtocol.StopStream | internal/ping/ping.go:228-246 | One attempt, of the stop request with the caller's Id |
| PingNode.PingProtocol.Status | internal/ping/ping.go:249-267 | One attempt, of the status request with the caller's Id |
| PingNode.PingProtocol.Info | internal/ping/ping.go:270-284 | One attempt, of the info request with the host ID |
| Correspondence.SendRuns | internal/ping/ping.go:289-332 | From every reachable state, a send about to start can end, for every combination of failures, with the procedure's result and exactly its stream wires, its sender down if and only if the procedure panics |
| Correspondence.ProcedureMatchesNetwork | internal/ping/ping.go:289-332 | From every reachable state, the results and final wires with which a send can end, whatever else happens meanwhile, are exactly those of the procedure over all combinations of failures |
| PingNode.PingProtocol.HandleRequest | internal/ping/startstream.go:17-59 | New flag, the one reply attempted, word for word, and how the handler ends, for every kind, malformed and Id-less requests and every failure; a ping handler waits even when its reply failed |
| PingNode.PingProtocol.OnProtocolRequest | internal/ping/ping.go:120-148 | Unknown protocol, failed read or handler error resets the stream; a handler that reaches the channel leaves its stream open and among the waiting ones; flag, reply and verdict are the handler's |
| PingNode.PingProtocol.OnProtocolResponse | internal/ping/ping.go:150-178 | A response handler joins the waiting ones if and only if the protocol is a registered response and the message unmarshals; nothing is sent |
| PingNode.PingProtocol.TakeToken | cmd/mobile_client/main.go:530-532 | A receive closes the stream of one waiting handler, whichever is picked; all others stay open and waiting |
| Correspondence.RequestRuns | internal/ping/startstream.go:17-59 | From every reachable state, for whatever a request handler reads and every combination of failures, the network can go on to the imperative handler's end: its flag, its one reply with its wires, and parked, failed or down as its verdict says |
| Endings.RequestEndsOnly | internal/ping/startstream.go:17-59 | In every run, a request handler that has ended, with no other handler's write of the flag between its test and its reply, has ended as the imperative handler does on what it read from the flag its test saw: the same reply with the wires of some combination of failures, the same verdict, and at the reply the same flag |
| Correspondence.ResponseRuns | internal/ping/startstream.go:65-77 | From every reachable state a response handler can park on what it reads, or fail on a failed read, and sends nothing |
| Correspondence.ArrivalRuns | internal/ping/ping.go:120-134 | A stream not yet accepted, whatever its sender has done to it, can be accepted by a running receiver and can be lost |
| Correspondence.RequestOnNetwork | internal/ping/ping.go:120-148 | A node object that serves a request of the network ends with the verdict, flag and attempts with which some continuation of the run ends |
| Grammar.OneComponent | internal/shared/shared.go:113 | "/ip4/v", "/ip6/v", "/tcp/v", "/udp/v" and "/p2p/v" parse if and only if v is a value of that protocol, to its canonical spelling |
| Grammar.ValueFirst | internal/shared/shared.go:159 | A component with a value in front of any further text |
| Grammar.LoneFirst | internal/shared/shared.go:290 | "/quic" and "/p2p-circuit" in front of any further text: they take no value |
| Grammar.UnknownFirst | internal/shared/shared.go:159 | A text whose first name is none of the seven does not parse |
| Grammar.MissingValue | internal/shared/shared.go:159 | A name that needs a value and has none does not parse |
| Grammar.Slashes | internal/shared/shared.go:159 | A text that does not start with a slash does not parse, and a slash at its end changes nothing |
| Grammar.DialText | deployments/docker-compose.yml:34 | "/ip4/a/tcp/n" and "/ip4/a/tcp/n/p2p/x" parse to their two and three components |
| Multiaddr.ParsePrint | internal/shared/shared.go:185-206 | Parsing a printed well-formed address returns it |
| Multiaddr.ParsedIsWellFormed | internal/shared/shared.go:158-164 | Whatever parses is well formed, and printing it and parsing again returns it |
| Multiaddr.ConcatIsEncapsulate | internal/shared/shared.go:290-299 | For any two texts that parse, the concatenation parses to the encapsulation if and only if the first does not end in a slash, and otherwise does not parse |
| Multiaddr.PrintConcat | internal/shared/shared.go:299-306 | The text of an encapsulation is the concatenation of the texts |
| Shared.SplitInvertsAppend | internal/shared/shared.go:166-176 | Splitting off a final p2p component inverts appending it, and works exactly on addresses so ended |
| Shared.IsBootstrapPeer | internal/shared/shared.go:82-89 | Found if and only if listed |
| Shared.ContainsPeer | internal/shared/shared.go:91-98 | Found if and only if some listed relay has the ID |
| Shared.CircuitTextParses | internal/shared/shared.go:185-190 | The printed circuit text parses to the circuit if and only if the ID decodes |
| Shared.RelayedTextParses | internal/shared/shared.go:206-211 | The printed relayed address parses to its three components if and only if both IDs decode |
| Shared.ParsedRelayDecodes | internal/shared/shared.go:158-176 | A relay address string that parses is its transport, if any, followed by a decodable relay ID |
| Shared.ParseRelayExactly | internal/shared/shared.go:158-176 | A relay string is taken for peer x at transport t if and only if it parses to t/p2p/x, and for x without an address if and only if it parses to /p2p/x; it is a bad address if and only if it does not parse and lacks a peer otherwise |
| Shared.ConstructRelayAddresses | internal/shared/shared.go:285-322 | One address per transport, in order, t/p2p-circuit/p2p/R, when the ID decodes; otherwise none and one error per transport |
| Shared.AssembleExactly | internal/shared/shared.go:178-223 | Assembling succeeds if and only if the relay has an address and both IDs decode, and then yields the target's ID with the single address /p2p/R/p2p-circuit/p2p/T; else which error |
| Shared.RelayPipeline | internal/shared/shared.go:158-223 | For every text that parses to t/p2p/R: the relay is R at t, constructing yields t/p2p-circuit/p2p/R, and assembling that with any decodable peer T yields T at /p2p/R/p2p-circuit/p2p/T; without t there is no relay address |
| Shared.ParseBootstrap | internal/shared/shared.go:104-135 | The peers and the errors of the inputs, in order |
| Shared.InputsAccountedFor | internal/shared/shared.go:108-128 | Inputs = blanks + errors + peers |
| Shared.EntryYields | internal/shared/shared.go:108-128 | What one input yields: nothing if blank, the peer (and transport) its trimmed text parses to, or an error naming the trimmed text |
| Text.TrimSpaceExactly | internal/shared/shared.go:109 | Trimming removes the spaces around a text and nothing else |
| Shared.BootstrapConcat | internal/shared/shared.go:108-128 | Peers and errors distribute over concatenation of the inputs |
| Shared.ConnectToBootstrapPeers | internal/shared/shared.go:225-249 | Connects to every peer in order; success if and only if some Connect succeeds; one error per failure in order and one more exactly when none succeeded |
| Shared.FailedConcat | internal/shared/shared.go:229-238 | The failed peers are, in order, those whose own Connect fails |
| Shared.ConnectToBootstrapString | cmd/relay/main.go:211-242 | The fused loop connects to, and stores the addresses of, exactly the peers of the comma-separated text, in order |
| Shared.ConnectInStages | internal/shared/shared.go:104-249 | Splitting a text, then ParseBootstrap, then ConnectToBootstrapPeers issue the same Connect calls as the relay's fused loop, for every text and oracle |
| Discovery.Client.ConnectToPeers | cmd/mobile_client/main.go:249-330 | The network operations and the map after the loop are those of visiting the peers one after the other |
| Discovery.Client.VisitPeer | cmd/mobile_client/main.go:250-327 | One iteration, operation by operation: an excluded peer changes nothing; after a direct connect one stream is opened and the peer stored if it opens; otherwise every relayed target that assembles is connected to in turn and the last one that connects is stored |
| Discovery.ConnectedExactly | cmd/mobile_client/main.go:249-330 | After the loop an ID is a key if and only if it was one or the visit of some peer with that ID stored something; its value is what the last such visit stored |
| Discovery.VisitAllConcat | cmd/mobile_client/main.go:249-330 | The loop over a sequence is the loop over its parts, and over one peer one visit |
| Discovery.DiscoverySound | cmd/mobile_client/main.go:249-330 | For every peer sequence and oracle the map never holds the host, a bootstrap peer or a listed relay, stores each peer under its own ID, loses no key and gains only discovered peers |
| Discovery.RelayedVisit | cmd/mobile_client/main.go:282-314 | Over one relay's addresses every address is tried and the peer is stored if and only if some try succeeds, with the same value whichever did |
| Discovery.TargetsSpelled | internal/shared/shared.go:178-223 | The target through each relay: the peer at /p2p/R/p2p-circuit/p2p/T if and only if that relay has an address and both IDs decode |
| Discovery.ConstructedRelayedVisit | cmd/mobile_client/main.go:277-314 | The same for the addresses constructed from any relay string that parses, after a failed direct connect |
| StreamHandlers.FirstReadIsLeast | cmd/relay/main.go:276-288 | The read a handler acts on is the first that is not end of file among five, if any |
| StreamHandlers.HandleStream | cmd/relay/main.go:261-306 | Five reads, or as many as it takes to read something but end of file; exactly one reply attempt if and only if what is then in the buffer is "PING\n"; PONG is sent exactly when writable; the stream is closed |
| StreamHandlers.HandleStreamOfRunner | cmd/node_runner/main.go:105-162 | The same with TEST accepted too, and the buffered "noder" never reaches the stream |
| StreamHandlers.RunnerRepliesMore | cmd/node_runner/main.go:141-147 | Wherever relay and client reply so does the runner; it alone replies if and only if the first non-EOF read is TEST |

## Left out

- libp2p itself: hosts, NAT, hole punching, AutoRelay, Noise, Kademlia, relay reservation. Their operations are arbitrary outcomes.
- Protobuf bytes and the generated code: messages are values, marshalling succeeds or fails, and a cleanly closed stream yields the value sent.
- Peers that do not run this code: the transition system has no malformed messages (the imperative handlers do).
- The formatting of the time in a ping request: the sender takes the formatted text.
- The messages of single goroutines: the transition system lets any goroutine issue any message the five senders can build.
- The ticker goroutine's choice of peers and the restart of crashed processes: targets are arbitrary, and a crashed node takes no further step.
- The ticker loops in imperative form: they are goroutines of the transition system, because what matters is how they interleave.
- PingNode.PingProtocol.HandleRequest: one handler at a time; interleaving of handlers is the transition system's part.
- Other orders in which the outcomes of overlapping requests could be explained: `Flag.SequentialExactly` compares them in the order of effect.
- The relay's choice to exit when no bootstrap peer parses: it comes between the two stages of `Shared.ConnectInStages`.
- Two `PingProtocol` values in one process, which would share the flag.
- Multiaddr components other than the seven named, which the library also knows.
- The backing array that `append(p.Addrs, ...)` in `AssembleRelay` may write to: the updated value is never used.
- Key material, identities, logging, timers, sleeps, command-line arguments and Docker files.
- `pingPeer`, `manualStream`, `ReserveRelay`, `BootstrapDHT`, `ConnectToRelay`: straight-line calls into the library.
