/** The game loop's single-threaded state machine: one transition per case
    of the `select` in startLoop, and runs over sequences of events. */
module GameLoop {
  import opened Int8
  import opened Records
  import Input
  import Broadcast

  /** Everything the loop goroutine owns. */
  datatype GameState = GameState(
    uid: int8,                     // startLoop's local id counter
    sessions: map<int8, Session>,
    entities: map<int8, Entity>,
    messages: seq<Data>,           // input samples queued since the last tick
    ticking: bool)                 // the ticker has not been stopped

  /** What decoding a datagram as `Data` yields. */
  datatype Body = BadBody | Body(data: Data)

  /** What decoding a datagram yields: a malformed envelope, or the envelope's
      `type` together with the outcome of decoding the same bytes as `Data`
      (consulted only when the type is "DATA"). */
  datatype Inbound = BadEnvelope | Envelope(mtype: string, body: Body)

  /** The four sources the loop selects on. `Tick` carries the elapsed time
      since the previous tick. */
  datatype Event = Tick(deltaTime: real) | Connect(session: Handle) | Receive(inbound: Inbound) | Quit

  /** One handled event: the next state and the messages sent, or a fatal
      abort of the process. */
  datatype StepResult = Next(state: GameState, sends: seq<Send>) | Fatal

  /** `New` followed by startLoop's set-up: empty maps and queue, the id
      counter at 0, the ticker running. */
  function Init(): (r: GameState)
    ensures |r.sessions| == 0 && |r.entities| == 0 && r.messages == [] && r.ticking
    ensures Inc(r.uid) == 1
  {
    GameState(0, map[], map[], [], true)
  }

  /** A new connection: bump the counter, register the session and an entity
      at the origin under the new uid, and offer the uid to that session. */
  function OnConnect(s: GameState, h: Handle): (r: StepResult)
    ensures r.Next?
    ensures r.state.uid == Inc(s.uid)
    ensures r.state.sessions.Keys == s.sessions.Keys + {r.state.uid}
    ensures r.state.sessions[r.state.uid] == Session(h)
    ensures forall k :: k in s.sessions && k != r.state.uid ==> r.state.sessions[k] == s.sessions[k]
    ensures r.state.entities.Keys == s.entities.Keys + {r.state.uid}
    ensures r.state.entities[r.state.uid] == Entity(r.state.uid, 0.0, 0.0, h)
    ensures forall k :: k in s.entities && k != r.state.uid ==> r.state.entities[k] == s.entities[k]
    ensures r.state.messages == s.messages && r.state.ticking == s.ticking
    ensures r.sends == [Send(h, Offer(r.state.uid))]
  {
    var uid := Inc(s.uid);
    Next(s.(uid := uid,
            sessions := s.sessions[uid := Session(h)],
            entities := s.entities[uid := Entity(uid, 0.0, 0.0, h)]),
         [Send(h, Offer(uid))])
  }

  /** An inbound datagram: a malformed envelope aborts; type "DATA" decodes
      the body (a malformed body aborts) and queues it; any other type is
      ignored. */
  function OnReceive(s: GameState, m: Inbound): (r: StepResult)
    ensures r.Fatal? <==> m.BadEnvelope? || (m.mtype == "DATA" && m.body.BadBody?)
    ensures r.Next? ==> r.sends == []
    ensures r.Next? && m.mtype == "DATA" ==>
      r.state == s.(messages := s.messages + [m.body.data])
    ensures r.Next? && m.mtype != "DATA" ==> r.state == s
  {
    match m
    case BadEnvelope => Fatal
    case Envelope(mtype, body) =>
      if mtype == "DATA" then
        match body
        case BadBody => Fatal
        case Body(data) => Next(s.(messages := s.messages + [data]), [])
      else Next(s, [])
  }

  /** The extension point called after the input is applied; it does
      nothing. */
  function UpdateEntities(ents: map<int8, Entity>, dt: real): map<int8, Entity>
  {
    ents
  }

  /** The collision extension point; it does nothing. */
  function CheckCollisions(ents: map<int8, Entity>, dt: real): map<int8, Entity>
  {
    ents
  }

  /** A tick: apply and clear the input queue, run the two no-op hooks, and
      send one snapshot of all entities to every entity's session. */
  function OnTick(s: GameState, dt: real): (r: StepResult)
    ensures r.Next?
    ensures r.state.entities == Input.ApplyAll(s.entities, s.messages, dt)
    ensures r.state.messages == []
    ensures r.state.uid == s.uid && r.state.sessions == s.sessions && r.state.ticking == s.ticking
  {
    var moved := Input.ApplyAll(s.entities, s.messages, dt);
    var ents := CheckCollisions(UpdateEntities(moved, dt), dt);
    var order := Broadcast.AscendingKeys(ents);   // both ranges, in one fixed order
    var out := Broadcast.Deliveries(ents, order, Broadcast.SnapshotOf(ents, order));
    Next(s.(entities := ents, messages := []), out)
  }

  /** What a tick sends: one snapshot of all entities (after the input is
      applied), handed once to each entity's session. */
  lemma TickBroadcastsAll(s: GameState, dt: real)
    ensures Broadcast.BroadcastsAll(OnTick(s, dt).state.entities, OnTick(s, dt).sends)
  {
    var ents := OnTick(s, dt).state.entities;
    var order := Broadcast.AscendingKeys(ents);
    Broadcast.BroadcastReachesAll(ents, order, order);
  }

  /** Quit stops the ticker; the loop itself keeps selecting. */
  function OnQuit(s: GameState): (r: StepResult)
    ensures r.Next? && r.sends == [] && !r.state.ticking
    ensures r.state.uid == s.uid && r.state.sessions == s.sessions
    ensures r.state.entities == s.entities && r.state.messages == s.messages
  {
    Next(s.(ticking := false), [])
  }

  /** One pass of startLoop's `for { select { … } }`. A stopped ticker
      delivers no tick, so a Tick event then changes nothing. */
  function Step(s: GameState, e: Event): (r: StepResult)
    ensures r.Fatal? ==> e.Receive?
    ensures r.Next? ==> r.state.ticking == (s.ticking && !e.Quit?)
    ensures e.Tick? && !s.ticking ==> r == Next(s, [])
    ensures r.Next? && !e.Connect? ==> r.state.uid == s.uid && r.state.sessions == s.sessions
    ensures r.Next? && !e.Tick? ==> r.sends == [] || (e.Connect? && r.sends == [Send(e.session, Offer(r.state.uid))])
  {
    match e
    case Tick(dt) => if s.ticking then OnTick(s, dt) else Next(s, [])
    case Connect(h) => OnConnect(s, h)
    case Receive(m) => OnReceive(s, m)
    case Quit => OnQuit(s)
  }

  /** The state after a Quit, for any state. */
  function Stopped(r: StepResult): StepResult
  {
    match r
    case Fatal => Fatal
    case Next(t, out) => Next(t.(ticking := false), out)
  }

  /** Quit does not leave the loop: after it, connections and datagrams are
      handled exactly as before, only with the ticker stopped. */
  lemma AfterQuit(s: GameState, e: Event)
    requires !e.Tick?
    ensures Step(OnQuit(s).state, e) == Stopped(Step(s, e))
  {
  }

  /** With the ticker stopped, no event restarts it and only OFFERs are
      sent. */
  lemma StoppedStep(s: GameState, e: Event)
    requires !s.ticking
    ensures Step(s, e).Next? ==> !Step(s, e).state.ticking
    ensures Step(s, e).Next? ==> forall i :: 0 <= i < |Step(s, e).sends| ==> Step(s, e).sends[i].msg.Offer?
  {
  }

  /** `New` starts with no sessions, no entities, an empty queue and the
      counter at 0, so the first connection is offered uid 1. */
  lemma FirstConnectGetsUidOne(h: Handle)
    ensures Init().sessions == map[] && Init().entities == map[] && Init().messages == []
    ensures Step(Init(), Connect(h))
         == Next(GameState(1, map[1 := Session(h)], map[1 := Entity(1, 0.0, 0.0, h)], [], true),
                 [Send(h, Offer(1))])
  {
  }

  /** Every registered uid has an entity that carries that uid and that
      session; every other entity was created at a tick by an input sample
      naming an unregistered uid, and so has uid field 0 and no session. */
  predicate Consistent(s: GameState)
  {
    && (forall k :: k in s.sessions ==>
          k in s.entities && s.entities[k].uid == k && s.entities[k].session == s.sessions[k].session)
    && (forall k :: k in s.entities && k !in s.sessions ==>
          s.entities[k].uid == 0 && s.entities[k].session == Nil)
  }

  /** Applying queued input keeps the registry and the entity store
      consistent: it never changes an entity's uid field or session, and an
      entity it creates is a zero one. */
  lemma ApplyKeepsConsistent(s: GameState, t: GameState, dt: real)
    requires Consistent(s)
    requires t.sessions == s.sessions
    requires t.entities == Input.ApplyAll(s.entities, s.messages, dt)
    ensures Consistent(t)
  {
    forall k | k in t.entities
      ensures t.entities[k].uid == Input.Lookup(s.entities, k).uid
      ensures t.entities[k].session == Input.Lookup(s.entities, k).session
    {
      Input.ApplyAllMoves(s.entities, s.messages, dt, k);
    }
  }

  /** A tick keeps the registry and the entity store consistent. */
  lemma TickKeepsConsistent(s: GameState, dt: real)
    requires Consistent(s)
    ensures Consistent(OnTick(s, dt).state)
  {
    ApplyKeepsConsistent(s, OnTick(s, dt).state, dt);
  }

  /** `New` leaves the registry and the entity store consistent. */
  lemma InitConsistent()
    ensures Consistent(Init())
  {
  }

  /** Every event keeps the registry and the entity store consistent. */
  lemma StepKeepsConsistent(s: GameState, e: Event)
    requires Consistent(s)
    ensures Step(s, e).Next? ==> Consistent(Step(s, e).state)
  {
    if e.Tick? && s.ticking {
      TickKeepsConsistent(s, e.deltaTime);
    }
  }
}
