# Coen: a verified model of its edge and agent

Coen's edge takes public requests and hands each one to one of several private agents over
multiplexed tunnel sessions. This project models the protocols and transformations that make that
hand-off safe and proves what they promise, for every input and for every interleaving.

`dafny verify dfyconfig.toml` checks the whole project.

## How it is organised

| file | what it models |
|---|---|
| `AgentConn.dfy`, `Handoff.dfy` | opens in flight, drain and accept byte of one session, as a step system over FIFO frames |
| `HandoffGuarantees.dfy`, `HandoffProgress.dfy`, `HandoffRuns.dfy` | what every run of it keeps, what every run can still do, and two runs |
| `Dispatch.dfy`, `Balance.dfy` | one attempt, one round, the wait around rounds; which session a pick takes |
| `DispatchGuarantees.dfy`, `DispatchRuns.dfy` | what a round's result means, and two rounds |
| `Streams.dfy`, `Pool.dfy` | route slots, reservations, slot waiters and HTTP/3 streams as a step system; the pool's index |
| `StreamGuarantees.dfy`, `StreamProgress.dfy`, `StreamRuns.dfy` | what every run of it keeps, what every run can still do, and a run |
| `Resend.dfy` | which HTTP/3 requests may be sent twice, and when they are |
| `Registry.dfy`, `RegistryMeaning.dfy` | the registry of agent sessions, its counters, shutdown and wake-up channel; its contents told by its history |
| `Replace.dfy`, `ReplaceRuns.dfy` | the retire callback and the handover to a replacement process |
| `Http1.dfy`, `Reframe.dfy`, `ReframeMeaning.dfy`, `HostAgreement.dfy` | an HTTP/1.1 decoder written from RFC 9112, and the re-framing of HTTP/3 requests against it |
| `AltSvc.dfy`, `AltSvcHeads.dfy`, `AltSvcMeaning.dfy` | the streaming Alt-Svc editor against a one-shot edit of the whole stream, and the edit as a reader sees it |
| `Ingress.dfy`, `Readers.dfy` | head reading, prefix replay and preamble framing |
| `Route.dfy`, `RouteMeaning.dfy` | the host matcher; which spellings name one host and which hosts a pattern takes |
| `Witnesses.dfy` | streams on which the two size checks depend on chunking |
| `Bytes.dfy`, `Options.dfy`, `Basics.dfy` | bytes, optional values, counting with sets |

In the step systems every mutex section, every atomic operation and every frame written or read is
one step, a timeout is a step that may always happen, and a run is any sequence of enabled steps.
Where the source changes fields in place the model has a class, whose methods are proved to compute
the function that the step systems and lemmas use. What the clock, the network and the other
processes do is an input.

## What the code does not promise

Some properties one might expect are false of the code. Each is kept as the code has it, with an
input on which it fails and the exact condition under which it holds.

- Alt-Svc chunking: the size check can fire while a blank line is still arriving, so a head within
  the limit whose blank line ends more than one byte past it may pass unedited, depending on how the
  bytes arrive (`Witnesses.ChunkingMatters`). `AltSvc.ChunkIndependence` says exactly when the result
  is independent of chunking.
- Head limit: `readRequestHead` compares everything read so far, body bytes included, with the
  limit, so the same request can be accepted or rejected depending on chunking
  (`Witnesses.HeadChunkingMatters`). `Ingress.HeadLimit` says exactly when no chunking is rejected.
- Refresh: a refresh of the candidates is not always followed by an attempt, because the deadline can
  pass in between (`DispatchRuns.RefreshInVain`). `Dispatch.RoundGood` says that it is followed by one
  exactly if the next clock reading is before the deadline.
- Attempt deadline: an attempt reads the clock again after its time was decided on, and once more
  after the open, so its last wait can end past the round's deadline by the time that passes outside
  its waits (`DispatchRuns.EndsLate`). `Dispatch.EndsInTime` says exactly when it ends in time whatever
  the agent does.
- Backlog: the agent's backlog loop can be left, by its quiet timeout or the session's end, with a
  stream in use still queued (`HandoffRuns.LeftBehind`). By `HandoffGuarantees.CleanHandoff` it is left exactly if
  the loop took no more streams since the acknowledgement than stood before it then, and by
  `HandoffGuarantees.LeftQueuedUnserved` such a stream carries no request and is never served.
- Round robin: turns come from a 64-bit counter that wraps, so n consecutive turns over k sessions
  are fair for every n exactly if k divides 2^64 (`Balance.RotationFairness`, with
  `Balance.WrapIsUnfair`); short of a wrap they always are (`Balance.FairWithinTheCounter`).
- Retire callback: a callback accepted by `SetOnRetired` is lost if another is accepted before the
  agent retires (`Replace.ReplacedNeverRuns`). `Replace.RunsExactlyTheLast` says exactly which one
  runs, and `Replace.Handover` that the program itself never sets two.
- Shutdown: when `closeAll` has returned, sessions are still tracked and pooled until their own
  goroutines drop them (`Registries.StillTracked`). All of them are closed then
  (`Registries.CloseAllCloses`), and nothing is tracked or pooled exactly if every session that was
  tracked has been dropped (`Registries.ClosedDown`).

## Model

| member | source | states |
|---|---|---|
| `AgentConns.AgentConn.WakeIfIdle` | internal/edge/registry.go:47-56 | wakes the drain exactly when no open that may be used is in flight, and never closes a channel twice |
| `AgentConns.AgentConn.BeginOpen` | internal/edge/edge.go:763-776 | an open begins, and is counted, only on a session that is neither retired nor blocked |
| `AgentConns.AgentConn.CompleteOpen` | internal/edge/edge.go:786-801 | a completed open leaves the counts it was in and wakes the drain if it was the last |
| `AgentConns.AgentConn.GiveUpOpen` | internal/edge/edge.go:804-822 | an open given up on counts as stuck unless it finished just then |
| `AgentConns.AgentConn.DrainCheck` | internal/edge/edge.go:850-862 | the drain waits exactly if opens are in flight, on the channel the last of them closes |
| `HandoffGuarantees.DrainWakes` | internal/edge/edge.go:850-869 | in every state of every run a waiting drain's channel is open exactly while an open that may be used is in flight, so its wake-up is not lost |
| `HandoffGuarantees.DrainOrdering` | internal/edge/edge.go:763-869 | after an acknowledgement written without the edge's timeout, in every later state of every run no usable open is in flight, none begins, and every stream in use was announced before the acknowledgement |
| `HandoffGuarantees.OpensCounted` | internal/edge/registry.go:25-56 | in every state 0 <= stuck <= opening, their difference is exactly the live opens, and no wake-up channel is closed twice |
| `HandoffGuarantees.AckMeansAll` | internal/tunnel/control.go:29-79 | an agent that has read such an acknowledgement has every stream in use already |
| `HandoffGuarantees.QueuePosition` | internal/agent/agent.go:291-305 | first come, first taken: a stream queued in place p is still queued later exactly if no more than p streams were taken since, and then that many places further on |
| `HandoffGuarantees.CleanHandoff` | internal/agent/agent.go:250-313 | when an agent that read such an acknowledgement stops taking streams, by its quiet timeout or the session's end, each stream in use has arrived and none was cut by GoAway; it is left queued exactly if it was queued at the acknowledgement and the loop took no more streams than stood before it; which of those taken are served is `RefusedOnlyLate` and `TakenIsServed` |
| `HandoffGuarantees.LeftQueuedUnserved` | internal/agent/agent.go:291-313 | a stream left in the queue never carries a request byte, is never accepted and never served |
| `HandoffRuns.LeftBehind` | internal/agent/agent.go:291-297 | a run in which a stream in use is left in the queue after a clean acknowledgement |
| `HandoffGuarantees.AcceptBeforeRequest` | internal/tunnel/accept.go:12-66 | a stream carries a request only after its one accept byte was read, once, and the agent reads only streams it accepted |
| `HandoffGuarantees.RefusedStaysEmpty` | internal/agent/agent.go:298-366 | a stream the agent refused or reset never carries a request byte and is never accepted or served |
| `HandoffGuarantees.GivenUpStaysEmpty` | internal/tunnel/accept.go:12-21 | a stream the edge has given up never carries a request byte and no request is ever read from it, so an agent that accepts late finds it empty |
| `HandoffGuarantees.NoNewWork` | internal/agent/agent.go:85-95 | after `refuseNew` no stream joins the ones in flight and their count only falls |
| `HandoffGuarantees.RefusedOnlyLate` | internal/agent/agent.go:291-327 | in every state of every run a stream the agent refused is one it took after GoAway or while draining |
| `HandoffGuarantees.TakenIsServed` | internal/agent/agent.go:319-332 | before that every stream taken off the queue is counted in flight, to be accepted and served |
| `HandoffGuarantees.BeginsFreely` | internal/edge/edge.go:763-776 | an open begins only on a session that is not retired and has no stuck open |
| `HandoffRuns.ServedRun` | internal/agent/agent.go:319-409 | a run in which a stream is opened, accepted, its request sent and read, and the handler ends |
| `HandoffProgress.MarkedClean` | internal/edge/edge.go:850-869 | the drain waits exactly if an open that may be used is in flight, and the acknowledgement is clean exactly unless that wait timed out |
| `HandoffProgress.DrainAnswered` | internal/edge/edge.go:833-869 | from every state of every run a drain request being served is answered within three steps, whatever the opens in flight do |
| `HandoffProgress.ShutdownEnds` | internal/agent/agent.go:250-313 | an agent that has asked for the drain comes to send GoAway and refuse new streams, whatever the edge does |
| `HandoffProgress.GoAwayEndsArrivals` | internal/agent/agent.go:268-297 | once GoAway is sent the accept queue only loses streams at its head |
| `HandoffProgress.Settles` | internal/edge/edge.go:763-869 | nothing gets stuck: every run can be continued until no drain is unanswered, every open is decided and none counted, the queue is empty and no stream is in flight |
| `Dispatch.Attempt.TryAgent` | internal/edge/edge.go:629-714 | computes `Outcomes`, whose meaning `OutcomeMeans` and `SessionAfter` state; every outcome but OK releases the reservation and closes the stream; open and accept together are waited for no longer than `wait`, and when the last wait ends |
| `Dispatch.OutcomeMeans` | internal/edge/edge.go:629-714 | each outcome exactly in terms of what happened: OK if delivered and sent, unknown if accepted and the sending failed, unavailable if the agent was draining, gone or refused the stream, failed otherwise |
| `Dispatch.SessionAfter` | internal/edge/edge.go:629-714 | exactly which failures retire the session, evict it, or leave it out of picks for long or briefly |
| `Dispatch.AttemptTakes` | internal/edge/edge.go:629-714 | the waits for the open and for the accept byte add up to at most `wait` |
| `Dispatch.EndsInTime` | internal/edge/edge.go:629-714 | an attempt ends by the deadline whatever the agent does exactly if `wait` leaves room for the time outside its waits |
| `DispatchRuns.EndsLate` | internal/edge/edge.go:629-714 | a round in which the last wait ends past the deadline and the request is handed over |
| `Dispatch.HeadEndsSearch` | internal/edge/edge.go:689-713 | the head goes only to a version 2 agent that accepted, and only in an attempt that ends the search |
| `Dispatch.Turn` | internal/edge/edge.go:1139-1208 | one turn of the loop: attempt, refresh or end, with the attempt's waiting time |
| `Dispatch.DispatchOnce` | internal/edge/edge.go:1111-1211 | the loop terminates for any joins, clock and outcomes, and its steps and result are those of the round |
| `Dispatch.RoundGood` | internal/edge/edge.go:1111-1211 | over a whole round: sessions attempted are distinct, only the last attempt can have sent the head, `noAgentWhy` exactly if every attempt met an unavailable agent, an attempt's waits end by the deadline but for the time outside them, and a refresh is followed by an attempt exactly if time is left |
| `DispatchRuns.RefreshInVain` | internal/edge/edge.go:1139-1156 | a run in which a session is found by a refresh and not tried |
| `Dispatch.Dispatch` | internal/edge/edge.go:1045-1085 | over a whole dispatch of any length the request is handed over at most once and nothing is attempted after that; a round follows exactly a round that met only unavailable agents, with time left and a join or tick; `noAgent` only if every attempt of every round met an unavailable agent |
| `Dispatch.OneLastTry` | internal/edge/edge.go:1057-1070 | at most one round begins once the wait has run out |
| `Dispatch.AnyMayBePicked` | internal/edge/edge.go:1139-1151 | a round may try any session listed and untried next; which one is `Balance`'s |
| `Dispatch.LiveIsAll` | internal/edge/edge.go:1117-1120 | a look misses no session that is live |
| `DispatchGuarantees.NoAgentMeans` | internal/edge/edge.go:1139-1211 | a round ends in `noAgentWhy` exactly if there were sessions and every attempt met one that was draining, gone or refusing |
| `DispatchGuarantees.EveryoneTried` | internal/edge/edge.go:1139-1156 | a round that gives up before its deadline has tried every session live at first and every one live at a later look |
| `DispatchGuarantees.TimeGiven` | internal/edge/edge.go:1168-1189 | an attempt gets the time left exactly if the session is not cooling and no other could use it, and otherwise at most the accept wait |
| `Balance.Rotate` | internal/edge/edge.go:66-87 | the eligible session the turn falls on, none exactly if none is eligible |
| `Balance.Lightest` | internal/edge/edge.go:88-94 | an eligible session with the fewest open streams, first in rotation order |
| `Balance.Pick` | internal/edge/edge.go:57-105 | nil exactly if all are tried; a cooling session only if every other one was tried; the choice is the mode's |
| `Balance.PickReserve` | internal/edge/edge.go:107-124 | the pick's reservation, and only it, is added; with `least_conn` no other candidate had fewer streams |
| `Balance.ReserveOne` | internal/edge/edge.go:57-120 | one `least_conn` pick over sessions not cooling adds one stream to one with the fewest |
| `Balance.RunBurst` | internal/edge/edge.go:57-120 | the loads before and after n `least_conn` picks are the ends of a burst of length n, so they stay as close as they were, or within one, and sum up to the picks made |
| `Balance.BurstStaysEven` | internal/edge/edge.go:57-120 | in every state of an unbounded burst loads differ by at most max(1, initial spread) |
| `Balance.BurstCounts` | internal/edge/edge.go:57-120 | in every state of a burst the loads sum up to the picks made |
| `Balance.RotationIsByTurn` | internal/edge/edge.go:66-87 | over sessions not cooling the pick is the turn modulo their number |
| `Balance.TiesByTurn` | internal/edge/edge.go:88-94 | with equal loads `least_conn` goes round by the turn as well |
| `Balance.FairWithinTheCounter` | internal/edge/edge.go:122-124 | any n consecutive turns short of a wrap give each of k sessions n/k picks, rounded down or up |
| `Balance.WrapIsUnfair` | internal/edge/edge.go:122-124 | turns across the wrap that give one session too many picks |
| `Balance.RotationFairness` | internal/edge/edge.go:122-124 | turns are fair for every n and every start exactly if k divides 2^64 |
| `Streams.NextConserves` | internal/edge/limit.go:17-47 | every step keeps each counter equal to the number of its holders |
| `StreamGuarantees.SlotsConserved` | internal/edge/edge.go:946-1005 | in every state of every run the slots taken of a route are those of TCP handlers, HTTP/3 opens and unclosed tunnel streams, and never more than the cap; who gets one is `HandlerMoves`, and that all come back is `WindsDown` |
| `StreamGuarantees.ReleasedOnce` | internal/edge/h3pool.go:39-46 | a slot is held until its holder ends, an ended holder never holds anything again, and a release always finds a slot taken |
| `StreamGuarantees.ActiveConserved` | internal/obs/state.go:66-85 | a session's `active` is its attempts in progress or in use plus its open streams |
| `StreamGuarantees.StreamIsolation` | internal/edge/http3.go:377-400 | a tunnel stream only ever carries requests of one connection, host and route |
| `StreamGuarantees.OneAtATime` | internal/edge/h3pool.go:126-166 | a request is added to a stream only when none uses it, its watcher has finished, and no watcher ever read a byte from it |
| `StreamGuarantees.RetiredKeptOut` | internal/edge/edge.go:833-845 | once `closeAgent` has run for a retired session none of its streams is ever in the pool again, whatever `put` was doing |
| `StreamGuarantees.WaiterFindsNone` | internal/edge/http3.go:236-261 | while a counted waiter waits after a failed `evictRoute` no stream of its route is in the pool |
| `StreamGuarantees.ClosedIsEmpty` | internal/edge/h3pool.go:211-243 | nothing is in the pool after shutdown, and nothing of a connection that ended |
| `StreamGuarantees.HandlerMoves` | internal/edge/http3.go:236-261 | at every step of every run: a handler that asks gets a slot exactly if one is free; only one that found the route full waits; it closes kept streams of its route as long as there are any and gets the slot exactly if one is free then; only an HTTP/3 request waits on |
| `StreamGuarantees.TurnedAway` | internal/edge/edge.go:998-1005 | a handler ends without ever having had a slot only if the route was full when it asked and no stream of it was kept when it looked |
| `StreamGuarantees.PutKeeps` | internal/edge/h3pool.go:103-124 | the three steps of `put` keep the stream exactly if none of the five reasons against holds when it is looked at |
| `StreamProgress.StreamMoves` | internal/edge/h3pool.go:103-201 | at every step of every run: when a stream is kept, what takes it out of the pool, and that it is used again only after its watcher was stopped with nothing seen, on its route, with its agent not retired |
| `StreamProgress.SeenNeverReused` | internal/edge/h3pool.go:126-166 | a kept stream whose watcher saw a byte or the stream's end never carries another request |
| `StreamProgress.WindsDown` | internal/edge/limit.go:17-47 | nothing leaks or gets stuck: every run can be continued, with nobody new coming, until every handler has ended, every stream is closed and every slot, reservation and waiter is given back |
| `StreamRuns.ReusedRun` | internal/edge/http3.go:371-400 | a run on a route with one slot in which a stream carries two requests and gives the slot back |
| `Pool.H3Pool.Put` | internal/edge/h3pool.go:103-124 | kept as the most recent of its host exactly if none of the five reasons against holds; the index agrees afterwards |
| `Pool.H3Pool.Remove` | internal/edge/h3pool.go:169-188 | exactly this stream leaves, every list keeps its order, the index agrees; again on a stream already taken it does nothing |
| `Pool.H3Pool.RemoveWhere` | internal/edge/h3pool.go:192-201 | exactly the matching streams leave, every list keeps its order |
| `Pool.H3Pool.CloseConn` | internal/edge/h3pool.go:213-219 | exactly the connection's streams leave and it keeps none from then on |
| `Pool.H3Pool.CloseAgent` | internal/edge/h3pool.go:223-231 | exactly the agent's streams leave |
| `Pool.H3Pool.CloseAll` | internal/edge/h3pool.go:234-243 | the pool is empty and closed |
| `Pool.H3Pool.EvictRoute` | internal/edge/h3pool.go:248-269 | one stream of the route leaves, and there is one exactly if it reports so |
| `Pool.H3Pool.TakeLast` | internal/edge/h3pool.go:149-157 | the most recently used stream of the host leaves, none exactly if there is none |
| `Pool.H3Pool.Take` | internal/edge/h3pool.go:144-166 | the most recently used stream that is still good, and exactly those used after it are dropped |
| `Pool.H3Pool.PutThenTake` | internal/edge/h3pool.go:103-166 | a stream put is kept on an open connection below its share of 32, is the next one taken for its host, and every list is then what it was |
| `Pool.LastInFirstOut` | internal/edge/h3pool.go:103-188 | the last stream put is at the end of its list, and removing it restores the connection's lists and count |
| `Pool.AllAdded` | internal/edge/h3pool.go:114-117 | adding a stream keeps `all` the disjoint union of the lists and `n` exact and at most 32 |
| `Pool.AllRemoved` | internal/edge/h3pool.go:169-188 | removing one keeps it, stores no empty list, and keeps every list's order |
| `Pool.TotalIsCount` | internal/edge/h3pool.go:60-66 | the total length of a connection's lists is the number of its members, which is what `n` holds |
| `Resend.HoldBody` | internal/edge/http3.go:622-643 | a body is held exactly if it is of known length, at most 64 KiB, unannounced, without trailers, and read in full within a bound; it is broken exactly if it came short; what is held is the first Content-Length bytes |
| `Resend.Exchange` | internal/edge/http3.go:449-612 | every ending exactly by what happened: a retry only on a kept stream that was stale, with nothing read and nothing written to the client; the stream kept exactly at a message boundary; what is read and answered in each case |
| `Resend.Serve` | internal/edge/http3.go:371-400 | at most two sendings; the first on a kept stream exactly if one is found for a request that may be sent twice; a second exactly after a fruitless first unless no stream can be opened, on a fresh stream and with the whole body; when the client is answered |
| `Resend.ServeRequest` | internal/edge/http3.go:371-400 | from the body on: a request goes out twice or on a kept stream only with GET, HEAD, PUT, DELETE, OPTIONS or TRACE or an idempotency key, its body read before; a POST without a key goes out once at most, on a stream opened for it |
| `Registries.Registry.RegisterConn` | internal/edge/registry.go:125-149 | the verdict and the new state, with every counter exact; refusals in the source's order |
| `Registries.Registry.LiveLocked` | internal/edge/registry.go:152-169 | the closed sessions leave the pool, the others keep their order |
| `Registries.Registry.HasLiveExclusive` | internal/edge/registry.go:174-184 | whether a newcomer is a duplicate: not shared and an open session is pooled |
| `Registries.Registry.TrackSession` | internal/edge/registry.go:203-215 | tracked unless closing or capped |
| `Registries.Registry.DropSession` | internal/edge/registry.go:225-239 | the session leaves the pool, the tracked set and its counter |
| `Registries.Registry.TakeOut` | internal/edge/registry.go:262-282 | the session leaves the pool and stays tracked |
| `Registries.Registry.Candidates` | internal/edge/registry.go:245-258 | the pooled sessions in order, split into the open and the closed ones |
| `Registries.Registry.CloseAll` | internal/edge/registry.go:286-293 | closing, and the sessions to close are those tracked |
| `Registries.CountsExact` | internal/edge/registry.go:125-149 | in every state of every run `joined` and `pending` are exact and at most 256, a pooled session is tracked under its fingerprint, and one that is not shared has at most one |
| `Registries.ClosedDown` | internal/edge/registry.go:286-293 | once `closeAll` has begun nothing joins or is newly tracked, and nothing is tracked or pooled any more exactly if every session that was tracked has been dropped |
| `Registries.CloseAllCloses` | internal/edge/registry.go:286-302 | once `closeAll` has returned every session tracked or pooled is closed, then and ever after |
| `Registries.StillTracked` | internal/edge/registry.go:284-302 | a run in which a session is still tracked and pooled when `closeAll` has returned |
| `Registries.WokenExactly` | internal/edge/registry.go:95-99 | a channel taken from `joins` is open then, and closed later exactly if a session has joined since |
| `Registries.NotDisplaced` | internal/edge/registry.go:117-149 | an open pooled session leaves the pool only when it is itself taken out or dropped |
| `RegistryMeaning.VerdictMeans` | internal/edge/registry.go:125-149 | each verdict exactly: gone if closing or closed, duplicate if not shared and an open session is pooled, capped if 256 tracked sessions have joined, registered otherwise |
| `RegistryMeaning.AdmitMeans` | internal/edge/registry.go:203-215 | a new session is tracked unless closing or 256 of its fingerprint are still connecting |
| `RegistryMeaning.PoolAfter` | internal/edge/registry.go:125-282 | what every operation does to every pool: who leaves, that a newcomer comes last, and that the others keep their order |
| `RegistryMeaning.PooledExactly` | internal/edge/registry.go:117-282 | over every history a session is pooled exactly if it was let in and has since been neither taken out, nor dropped, nor found closed |
| `RegistryMeaning.TrackedExactly` | internal/edge/registry.go:203-239 | over every history a session is tracked exactly from `track` until `drop`, and counts as joined exactly from when it was let in |
| `RegistryMeaning.CandidatesMean` | internal/edge/registry.go:245-258 | exactly the open pooled sessions of the fingerprints, by fingerprint in the order asked and each in the order of its pool; and exactly the closed ones apart |
| `Replace.Agent.SetOnRetiredTo` | internal/agent/agent.go:58-66 | accepted exactly if the moment has not passed |
| `Replace.Agent.RetiredNow` | internal/agent/agent.go:69-81 | runs the callback set, the first time only |
| `Replace.RunsExactlyTheLast` | internal/agent/agent.go:58-81 | over any sequence of calls a callback runs at most once, and exactly if it is the last one set before the first `retired` |
| `Replace.LoneCallbackRuns` | internal/agent/agent.go:51-81 | the only callback accepted runs exactly once |
| `Replace.ReplacedNeverRuns` | internal/agent/agent.go:58-66 | calls in which an accepted callback never runs |
| `Replace.CallbackBeforeReturn` | internal/agent/agent.go:116-224 | whichever of `Run` and the shutdown goroutine calls `retired` first, `Run` returns only once the callback, if one was accepted, has run to its end |
| `Replace.NotWhileOldSessionOpen` | internal/agent/agent.go:250-313 | with an older edge the callback does not begin before the session has closed |
| `Replace.Handover` | internal/cli/replace.go:101-164 | on every run where a replacement is accepted, by the exit its callback has run exactly once, and either MAINPID was announced or the exit is non-zero, never both; no other is accepted and no other successor started since |
| `Replace.ToldFirst` | internal/cli/replace.go:141-164 | the go-ahead is given only after MAINPID was announced, and only to the accepted successor |
| `Replace.NothingHandedOver` | internal/cli/replace.go:76-85 | without an accepted replacement nothing is announced and `failed` is nil |
| `ReplaceRuns.RefusedOnlyFor` | internal/cli/replace.go:101-137 | a call of `replace` fails only while the agent is stopping, while another call is under way, or if its successor cannot be started or does not become ready |
| `ReplaceRuns.NotOnceStopping` | internal/cli/replace.go:102-129 | once the agent is stopping, a call that has not passed its second look is never accepted, and one before its first starts no successor |
| `ReplaceRuns.DeadNotAnnounced` | internal/cli/replace.go:141-148 | a successor that died before the callback looked is never announced nor given the go-ahead |
| `ReplaceRuns.DrainOnlyInTime` | internal/agent/agent.go:250-281 | in every state an agent waits for the drain only with a long enough budget, and retires without having asked only without one, without a session, or with an older edge |
| `ReplaceRuns.HandedOver` | internal/cli/replace.go:101-164 | a run in which a replacement is accepted, announced and given the go-ahead, and the old process exits with success |
| `ReplaceRuns.ExitsInTheEnd` | internal/agent/agent.go:116-313 | from every state an agent that is stopping can come to its exit, whatever fails on the way |
| `Reframe.Http1Lines` | internal/edge/http3.go:673-711 | refuses exactly the unacceptable requests, and otherwise writes the request line, one Host and the end-to-end fields; what those are to a reader is `FieldsMeant` and `AcceptableMeans` |
| `Reframe.Frame` | internal/edge/http3.go:715-731 | appends the framing of the message |
| `Reframe.ListTrailers` | internal/edge/http3.go:740-749 | the names that may cross, in order |
| `Reframe.TrailersPlain` | internal/edge/http3.go:740-749 | no trailer sent frames the message or routes it, whatever its case, and all are valid |
| `Reframe.SendBody` | internal/edge/http3.go:753-802 | writes the body as announced and the valid trailers, and succeeds exactly if the body ended, or has all of its Content-Length, and the tunnel took everything |
| `Reframe.OneFraming` | internal/edge/http3.go:715-731 | never both Content-Length and Transfer-Encoding, and each at most once |
| `Reframe.EndToEndPlain` | internal/edge/http3.go:673-711 | no framing or Host field of the client crosses |
| `Reframe.RoundTrip` | internal/edge/http3.go:673-802 | whatever follows on the stream, an RFC 9112 reader gets back the request line, fields up to optional whitespace, body and trailers, and stops where the request ends; name by name in terms of the client's headers this is `RequestArrives` |
| `Reframe.StreamRoundTrip` | internal/edge/http3.go:673-802 | any sequence of requests on one stream reads back as that sequence |
| `ReframeMeaning.RequestArrives` | internal/edge/http3.go:673-802 | what an RFC 9112 reader makes of any request sent: method, target and body; under every name exactly the client's values in order, several Cookie values strung together with "; ", hop-by-hop names withheld, and nothing added but Host and the framing; and likewise its trailers |
| `ReframeMeaning.FieldsMeant` | internal/edge/http3.go:673-731 | the same for the fields alone |
| `ReframeMeaning.SkippedIsWithheld` | internal/edge/http3.go:668-695 | the names withheld are Host, Content-Length and the seven hop-by-hop ones, however spelt |
| `ReframeMeaning.TrailersMeant` | internal/edge/http3.go:740-749 | under every name a trailer may have, exactly the valid values the client gave, in order, and nothing under any other |
| `ReframeMeaning.AcceptableMeans` | internal/edge/http3.go:673-711 | a request is refused exactly if its host, method, target or a header that would cross has a character that does not belong there, or one of the first three is empty |
| `ReframeMeaning.CookiesCross` | internal/edge/http3.go:699-702 | two Cookie values cross as one line |
| `HostAgreement.HostSurvives` | internal/edge/http.go:68-87 | the re-framed head names one host, which `parseHost` reads as the edge routed it |
| `HostAgreement.HostByFields` | internal/edge/http.go:68-87 | on a head of any fields `parseHost` yields the one Host value, normalised, whatever the case of its name, and an error if there is none or more than one |
| `AltSvc.HeadEnd` | internal/edge/altsvc.go:111-141 | where the first head ends, and whether its line breaks are all CRLF |
| `AltSvc.WithAltSvc` | internal/edge/altsvc.go:145-184 | the head is edited and every byte after it is kept |
| `AltSvc.StreamedEither` | internal/edge/altsvc.go:33-89 | every chunking yields the one-shot edit or, where the stream straddles the limit, perhaps the stream unchanged |
| `AltSvc.ByteByByte` | internal/edge/altsvc.go:33-89 | read byte by byte, a straddling stream passes unchanged |
| `AltSvc.ChunkIndependence` | internal/edge/altsvc.go:33-89 | every chunking yields the one-shot edit exactly if the stream does not straddle the limit or the edit would change nothing |
| `AltSvc.AltSvcConn.Read` | internal/edge/altsvc.go:33-89 | what is returned and what is still due make up what was due before, for any buffer size |
| `AltSvc.AltSvcConn.ReadAll` | internal/edge/altsvc.go:33-89 | reading to the end delivers the streamed edit, whatever the buffer size |
| `AltSvcHeads.KeptByField` | internal/edge/altsvc.go:145-184 | the loop over lines drops exactly the Alt-Svc fields with their folded lines and keeps the others in order |
| `AltSvcHeads.EditLeavesOne` | internal/edge/altsvc.go:145-184 | with `replace` the head has the other fields in order and one line found as Alt-Svc, and is again found in front of the untouched body; what a reader finds in it is `ReplaceReads` |
| `AltSvcHeads.EditIdempotent` | internal/edge/altsvc.go:145-184 | with `replace` a second edit of a head changes nothing |
| `AltSvcHeads.OneShotIdempotent` | internal/edge/altsvc.go:33-184 | with `replace` a second pass over a whole stream changes nothing, interim heads and the size limit included |
| `Witnesses.ChunkingMatters` | internal/edge/altsvc.go:33-89 | a response that is edited under one chunking and passes unedited under another |
| `Witnesses.HeadChunkingMatters` | internal/edge/http.go:33-66 | a request that is accepted under one chunking and refused as too large under another |
| `AltSvcHeads.EditAppends` | internal/edge/altsvc.go:145-184 | without `replace` one line is added exactly to a final head that has none |
| `AltSvcMeaning.ReplaceReads` | internal/edge/altsvc.go:145-185 | a reader of the edited head, which compares names ignoring case, finds exactly one Alt-Svc, the one added, and under every other name what the service sent, in its order |
| `AltSvcMeaning.AppendReads` | internal/edge/altsvc.go:145-185 | without `replace` one line is added exactly to a final head in which that reader finds no Alt-Svc, and every other head is left alone |
| `AltSvcMeaning.StatusMeans` | internal/edge/altsvc.go:91-109 | a head is interim exactly for HTTP/1 and a 1xx code but 101, and may be edited exactly for HTTP/1 and any other code |
| `AltSvcMeaning.MarkMeans` | internal/edge/altsvc.go:106-139 | a head ends at the first empty line, whichever line breaks are used, and counts as CRLF exactly if all its line breaks are |
| `AltSvcMeaning.FoldsGo` | internal/edge/altsvc.go:153-176 | the line after an Alt-Svc line goes with it exactly if it begins with a space or a tab or is one itself |
| `Ingress.ParseHost` | internal/edge/http.go:68-87 | the one Host value, normalised; missing and repeated ones are errors |
| `Ingress.ReadRequestHead` | internal/edge/http.go:33-66 | reads no more than it returns |
| `Ingress.HeadKeepsBytes` | internal/edge/http.go:33-66 | for every chunking what was read and what is left are the client's stream, and the host is that of the bytes before its first blank line |
| `Ingress.HeadLimit` | internal/edge/http.go:33-66 | no chunking of a stream is rejected as too large exactly if the worst one stays within the limit |
| `Ingress.HeadMeans` | internal/edge/http.go:33-66 | for every chunking: no request exactly if nothing was sent, incomplete only without a blank line, a bad host only if the head names none or several, and never too large within the limit |
| `Ingress.PreambleBack` | internal/tunnel/preamble.go:27-65 | an encoded preamble decodes to its payload, whatever follows it |
| `Ingress.ReadPreamble` | internal/tunnel/preamble.go:41-65 | for every chunking the payload and exactly its bytes are taken, or it fails |
| `Ingress.Forward` | internal/edge/edge.go:976-988 | with either tunnel version the preamble, the head and the rest of the client's stream go out, once each |
| `Ingress.Receive` | internal/agent/agent.go:352-409 | the agent forwards exactly what follows the preamble |
| `Ingress.Fidelity` | internal/edge/edge.go:675-713 | for every chunking the agent forwards exactly the client's byte stream, and the routed host depends only on the bytes before the first blank line |
| `Ingress.Relay` | internal/edge/edge.go:912-988 | edge and agent run in order, for either version, any chunking by the tunnel and any buffer sizes: what is forwarded is exactly what the client sent, or nothing if its head was not read |
| `Readers.PrefixConn.Read` | internal/proxy/conn.go:32-44 | the prefix and then the connection, nothing lost or repeated |
| `Route.Build` | internal/route/route.go:67-86 | the matcher represents the entries: exact hosts, wildcards longest first, the default |
| `Route.StableSortSorts` | internal/route/route.go:67-86 | the sort keeps the wildcards, puts longer suffixes first and keeps the order of those of any one length |
| `Route.SortedScan` | internal/route/route.go:89-104 | the first match of the sorted scan is the longest matching suffix |
| `Route.Match` | internal/route/route.go:89-104 | the exact entry, else the longest matching wildcard, else the default |
| `Route.LongestIsLongest` | internal/route/route.go:89-104 | no matching wildcard is longer, and one is found if any matches |
| `Route.AnyOrder` | internal/route/route.go:67-104 | with consistent patterns the result is the same for every order of the entries |
| `RouteMeaning.CaseIgnored` | internal/route/route.go:13-21 | hosts that differ in case only are normalised alike, whatever they look like |
| `RouteMeaning.NormalizeReads` | internal/route/route.go:13-21 | every spelling of a host, with white space around it, a port, brackets with a port or a final dot, is normalised to its name in lower case |
| `RouteMeaning.CoversMeans` | internal/route/route.go:89-104 | a wildcard covers exactly what ends in a dot and its suffix, and never the suffix itself |
| `RouteMeaning.WildcardTakes` | internal/route/route.go:67-104 | `*.suffix` takes every host below the suffix in every spelling and not the suffix |
| `RouteMeaning.ExactTakes` | internal/route/route.go:67-104 | an exact pattern takes its host in every spelling and case, and no other |
| `RouteMeaning.BestMeans` | internal/route/route.go:89-104 | which entry decides: one for the host itself, else a longest wildcard that covers it, else the default; unknown exactly without all three |

## Left out

- TLS, certificates and fingerprints: a fingerprint is an opaque string.
- yamux and QUIC internals: a session is two FIFO directions, a closed flag and GoAway; that
  `OpenStream` returns only once its opening frame is queued is a property of the library.
- JSON in the preamble: the payload is any byte string.
- net/http response parsing: in `Resend` a read brings bytes and completes some interim heads.
- WebSocket bridging: an upgraded stream is never kept, and nothing else of it is modelled.
- Version 1 sessions in `Handoff`: they have neither accept byte nor drain request; `Dispatch` and
  `Ingress` have both versions.
- Case folding and white space beyond ASCII: `Bytes` has ASCII only.
- Map iteration order of headers and trailers: `Reframe` takes them as sequences in the order the
  source sorts them.
- The HTTP libraries' checks of names, values, hosts and trailers are written out in `Reframe`, not imported.
- Real time: durations are integers in `Dispatch`, where timers fire on time, and otherwise timeouts
  are events; the cool-down's compare-and-swap loop and the back-off are left out, and so is the
  stream gauge of the metrics.
- Pool.H3Pool.Take: the loop run alone; its interleavings are in `Streams`.
- Config loading, the admin socket, metrics, error pages, logging and the command line.
- StreamGuarantees.SlotsConserved: a route without a cap has no semaphore in the source; the model counts its holders all the same and never finds it full.
- Registries.Registry.RegisterConn: for a session that is tracked and has not joined, as the source asks of its callers.
- Ingress.ReadRequestHead: a failed read is modelled as the end of the stream; deadlines are left out.
