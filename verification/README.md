# Game loop of a WebTransport multiplayer server, in Dafny

The server runs one authoritative loop, `GameLoop.startLoop` in
`app/gameloop/gameloop.go`. Each pass of its `for { select { … } }` handles
exactly one of four events:

- **tick** — apply the queued input samples to the entities (`handleInput`),
  run the two empty extension points (`updateEntities`, `checkCollisions`),
  and send a `"DATA"` snapshot of all entities to every entity's session
  (`sendState`);
- **connection** — advance the `int8` id counter, register the session and an
  entity at the origin under the new id, and send that session an OFFER of
  the id;
- **datagram** — decode the envelope's `type`; a `"DATA"` datagram is
  decoded again as an input sample and queued; any other type is ignored; a
  decode failure aborts the process (`log.Fatalln`);
- **quit** — stop the ticker.

The model is a pure state machine over one immutable `GameState` (id
counter, session map, entity map, input queue, ticker flag):

| file | module | what it holds |
|---|---|---|
| `int8.dfy` | `Int8` | Go's `int8` and the two's-complement `uid + 1` |
| `records.dfy` | `Records` | entities, sessions, input samples, snapshot states, outbound messages |
| `input.dfy` | `Input` | `handleInput`: the per-sample move, the fold over the queue, and the loop as written |
| `broadcast.dfy` | `Broadcast` | `sendState`: the snapshot and its delivery, for every map iteration order |
| `gameloop.dfy` | `GameLoop` | one transition per `select` case, `Step`, and the consistency invariant |
| `runs.dfy` | `Runs` | runs over event sequences: connection runs, queued input, ticker stop |

Go specifics carried into the model:

- A map read of a missing key yields the zero `Entity` (uid field 0, no
  session). So an input sample for an unknown uid creates an entity under that
  key whose uid field is 0 and whose session is nil (`Handle.Nil`).
- Each `range` over a map may visit the keys in any order. The model's tick
  uses ascending key order. The broadcast lemmas hold for every order, and
  for the two loops of `sendState` drawing different orders.
- `log.Fatalln` ends the process: `StepResult.Fatal`, and a run then ends as
  `Aborted`.
- `handleInput` resets the queue inside its own `range`. The range reads the
  slice header once, so every sample queued at the tick is applied.
  `Input.HandleInput` is that loop as written.
- After `t.Stop()` the ticker delivers nothing, so a tick on a stopped loop
  changes nothing. The loop itself keeps handling connections and datagrams.

## Model

| member | source | states |
|---|---|---|
| Int8.Inc | app/gameloop/gameloop.go:122 | the counter's `+ 1` is exact below 127, and 127 goes to -128 |
| Int8.IncIsWrap | app/gameloop/gameloop.go:122 | one increment is two's-complement addition: the int8 congruent to `u + 1` modulo 256 |
| Int8.IncTimesIsWrap | app/gameloop/gameloop.go:122 | `n` increments in a row give the int8 congruent to `u + n` modulo 256 |
| Int8.WrapEq | app/gameloop/gameloop.go:122 | two counter values coincide exactly when the unbounded values differ by a multiple of 256 |
| GameLoop.Init | app/gameloop/gameloop.go:83-103 | `New` and the start of startLoop leave both maps and the queue empty, the ticker running, and the counter one increment below 1 |
| GameLoop.InitConsistent | app/gameloop/gameloop.go:83-103 | the initial state satisfies the session/entity invariant |
| GameLoop.FirstConnectGetsUidOne | app/gameloop/gameloop.go:83-125 | `New` and startLoop start with empty maps, an empty queue and the counter at 0, so the first connection gets uid 1, its session, an entity at the origin, and the single OFFER 1 |
| GameLoop.OnConnect | app/gameloop/gameloop.go:121-125 | a connection increments the counter (wrapping), and stores `Session(h)` and `Entity(uid, 0, 0, h)` under the new uid, overwriting any earlier entry. Every other key is untouched, the queue and ticker are untouched, and the only message is one OFFER of the uid, to the new session |
| GameLoop.OnQuit | app/gameloop/gameloop.go:149-151 | quit stops the ticker and changes nothing else: counter, sessions, entities and queue are kept, and nothing is sent |
| GameLoop.Step | app/gameloop/gameloop.go:108-152 | one pass of the `select`: only a datagram can abort; the ticker afterwards is running exactly when it was and the event is not quit; a tick on a stopped ticker changes nothing; only a connection changes the counter or sessions; outside a tick the only message ever sent is the OFFER of the new uid to the connecting session |
| GameLoop.OnReceive | app/gameloop/gameloop.go:127-147 | the process aborts exactly when the envelope fails to decode, or when the type is `"DATA"` and the sample fails to decode. A `"DATA"` sample is appended to the queue and nothing else changes. Any other type leaves the state unchanged. Nothing is sent |
| Input.Move | app/gameloop/gameloop.go:173-188 | a sample moves x by `deltaTime * 200` times (right pressed − left pressed) and y by the same times (down − up). A key counts only when its value is exactly 1. The uid field and session are kept |
| Input.ApplyRecord | app/gameloop/gameloop.go:172-190 | one iteration writes back only the sample's uid (adding it if absent); every other entity is unchanged |
| Input.ApplyAll | app/gameloop/gameloop.go:171-192 | the fold over the queue touches exactly the uids the samples name: the keys become the old keys plus those uids, and the other entities are unchanged |
| Input.ShiftIsProduct | app/gameloop/gameloop.go:175 | adding `deltaMove` step by step `n` times is moving by `n * deltaMove` |
| Input.ApplyAllMoves | app/gameloop/gameloop.go:171-192 | after the queue is applied, every uid's entity sits at its old position (the origin if absent) plus `deltaTime * 200` times the net steps of all samples for that uid (an independent front-to-back sum). Its uid field and session are those of the entity read (zero for an unknown uid) |
| Input.HandleInput | app/gameloop/gameloop.go:171-193 | the loop as written, which resets the queue inside its own range, still applies every sample queued at entry, in order, and leaves the queue empty |
| GameLoop.OnTick | app/gameloop/gameloop.go:110-119 | a tick replaces the entities by the queue applied to them (the hooks change nothing) and empties the queue. The counter, sessions and ticker are unchanged |
| GameLoop.TickBroadcastsAll | app/gameloop/gameloop.go:203-222 | a tick's messages are, for some order of the entity map, one delivery per entity to that entity's session, each carrying the snapshot built over some order of the map: one state per entity, counted with multiplicity |
| Broadcast.AscendingKeys | app/gameloop/gameloop.go:205 | the order the model ranges the entity map in lists every key exactly once |
| Broadcast.SnapshotOnePerEntity | app/gameloop/gameloop.go:204-209 | for any iteration order, the snapshot is tagged `"DATA"` and holds one state per entity, each that entity's uid field and position, and nothing else |
| Broadcast.DeliveredOncePerEntity | app/gameloop/gameloop.go:220-222 | for any iteration order, the snapshot is sent once per entity, to that entity's session, and nothing else is sent |
| Broadcast.SnapshotOfAllContents | app/gameloop/gameloop.go:204-209 | a snapshot built over some order of the map is tagged `"DATA"`, holds as many states as there are entities, contains every entity's state, and each state belongs to some entity |
| Broadcast.BroadcastsAllContents | app/gameloop/gameloop.go:203-222 | a broadcast sends as many messages as there are entities, reaches every entity's session, and sends the same full snapshot in every message |
| Broadcast.BroadcastReachesAll | app/gameloop/gameloop.go:203-222 | whichever orders the two loops of sendState draw independently, exactly one message goes out per entity and the result is a broadcast of a full snapshot in the sense above |
| GameLoop.AfterQuit | app/gameloop/gameloop.go:149-151 | quit only stops the ticker: afterwards a connection or datagram is handled exactly as before, with the ticker still stopped |
| GameLoop.StoppedStep | app/gameloop/gameloop.go:149-151 | with the ticker stopped, no event restarts it and the only messages sent are OFFERs |
| Runs.StoppedStaysStopped | app/gameloop/gameloop.go:149-151 | once stopped, no snapshot is ever sent again, over any run of events |
| GameLoop.ApplyKeepsConsistent | app/gameloop/gameloop.go:171-192 | applying input keeps the invariant: every registered uid has an entity carrying that uid and that session, and every other entity has uid field 0 and no session |
| GameLoop.TickKeepsConsistent | app/gameloop/gameloop.go:110-119 | a tick keeps the session/entity invariant |
| GameLoop.StepKeepsConsistent | app/gameloop/gameloop.go:108-152 | every handled event that does not abort keeps the invariant |
| Runs.RunKeepsConsistent | app/gameloop/gameloop.go:108-152 | the invariant holds after any run of events that did not abort |
| Runs.ConnectRunCounts | app/gameloop/gameloop.go:121-125 | over `n` connections, the counter is incremented `n` times, and connection `i` alone is sent the OFFER of the counter incremented `i + 1` times. No input is queued and the ticker is untouched |
| Runs.ConnectRun | app/gameloop/gameloop.go:121-125 | over `n` connections, the counter ends at `uid + n` wrapped to int8, and connection `i` is sent the OFFER of `uid + i + 1` wrapped to int8 |
| Runs.OffersRepeatEvery256 | app/gameloop/gameloop.go:122-124 | two connections of a run are offered the same uid exactly when they are a multiple of 256 apart, so the 257th connection is offered the first one's uid; by `GameLoop.OnConnect` it then overwrites that uid's session and entity |
| Runs.DataRun | app/gameloop/gameloop.go:137-146 | a run of `"DATA"` datagrams queues their samples in arrival order after those already queued, and sends nothing |
| Runs.QueueRun | app/gameloop/gameloop.go:121-151 | over any run without ticks that does not abort, the queue grows by exactly the `"DATA"` samples of the run, in arrival order; connections, other datagram types and quit add nothing, and without a quit the ticker is unchanged |
| Runs.InputBeforeTickApplied | app/gameloop/gameloop.go:110-151 | after any run of connections and datagrams that does not abort, the next tick applies the samples queued before the run and every `"DATA"` sample of the run, in arrival order, to the entities as the run left them, and empties the queue |

## Left out

- Concurrency: `Start`, `Stop`, `Restart` (lines 155-169), the goroutine, `runtime.LockOSThread` and the `select`'s choice among ready cases. The model handles one event at a time, and any interleaving is a sequence of `Event`s.
- Wall-clock time (lines 104-114): a tick carries its elapsed time as the `Tick(deltaTime)` parameter.
- `float32`: positions and `deltaTime` are reals, so rounding and overflow to infinity are not modelled. The snapshot marshal error (lines 211-216) is left out with them: for these types it can only come from an infinite position.
- JSON: the decoders are abstracted to their outcome (`Inbound`, `Body`). Which byte strings decode to what, and what Go's decoder accepts for an `int8` or `int` field, are not modelled.
- The OFFER text (line 125) and the snapshot's JSON bytes (line 211): they are messages `Offer(uid)` and `Snapshot("DATA", states)`.
- `SendMessage` (lines 125, 221): a send is recorded as `Send(session, msg)`. Its errors and its behaviour on a nil session are in the WebTransport library, which is not part of this model; a zero entity's snapshot is recorded as a send to `Handle.Nil`.
- GameLoop.OnTick: ranges the entity map in ascending key order, where Go picks an order per `range`. Its contract leaves the sends to `GameLoop.TickBroadcastsAll`; `Broadcast.BroadcastReachesAll` covers any two orders.
- The ticker after `Stop`: the model delivers no further tick. Go releases before 1.23 could still deliver one tick buffered before the stop.
- `Data.Tik`, the unexported `Data.deltaTime`, `Keys.Space` and `Keys.Mouse`: the loop never reads them.
- `GameLoop.onUpdate` and `tickRate`: the loop never calls or reads them beyond creating the ticker.
- `Req`, `Messages` and the REQUEST/JOIN exchange: the types are declared (lines 74-80) but the loop never handles them.
- Removing a session or entity on disconnect: the code has no such path.
- The backing array that `messages[:0]` keeps (line 191): only the queue's contents are modelled.

## Behaviour of the code worth noting

- The id counter is an `int8` incremented with `+ 1` (line 122): after 127
  it goes to -128, and after 256 connections a uid is handed out again. The
  new connection then overwrites that uid's session and entity (line 124).
- A datagram whose envelope or `"DATA"` sample fails to decode ends the
  process through `log.Fatalln` (lines 133, 143).
- Quit stops the ticker (line 150) and nothing else: the loop goes on
  handling connections and datagrams, and no snapshot is sent again.
- The entity is created when the session connects (line 124).
- An input sample for a uid with no entity creates a zero entity under that
  key (lines 174, 190): uid field 0, no session.
- The snapshot is built over, and sent to, the entity map (lines 205, 220),
  so such a zero entity is included in the snapshot and is sent to with a
  nil session.
