/** The loop over a sequence of events: what it sends, and in which state it
    ends or whether it aborted. */
module Runs {
  import opened Int8
  import opened Records
  import Input
  import opened GameLoop

  /** How a run ended: still looping in some state, or aborted. */
  datatype Outcome = Alive(state: GameState) | Aborted

  /** Everything sent during a run of events, and how it ended. */
  datatype Run = Run(sends: seq<Send>, outcome: Outcome)

  /** Handling `evs` in order from `s` with the transition `step`, stopping
      at a fatal abort. */
  function RunWith(step: (GameState, Event) -> StepResult, s: GameState, evs: seq<Event>): Run
    decreases |evs|
  {
    if evs == [] then Run([], Alive(s))
    else
      var r := step(s, evs[0]);
      if r.Fatal? then Run([], Aborted)
      else
        var rest := RunWith(step, r.state, evs[1..]);
        Run(r.sends + rest.sends, rest.outcome)
  }

  /** The game loop handling `evs` in order from `s`. */
  function RunEvents(s: GameState, evs: seq<Event>): Run
  {
    RunWith(Step, s, evs)
  }

  /** Dropping the head of a concatenation. */
  lemma TailOfAppend<T>(a: seq<T>, b: seq<T>)
    requires a != []
    ensures (a + b)[0] == a[0] && (a + b)[1..] == a[1..] + b
  {
  }

  /** Running two event sequences back to back is running the first and then
      the second from where the first left off. */
  lemma {:induction false} RunAppend(step: (GameState, Event) -> StepResult, s: GameState, a: seq<Event>, b: seq<Event>)
    requires RunWith(step, s, a).outcome.Alive?
    ensures RunWith(step, s, a + b)
         == var t := RunWith(step, s, a).outcome.state;
            Run(RunWith(step, s, a).sends + RunWith(step, t, b).sends, RunWith(step, t, b).outcome)
    decreases |a|
  {
    if a == [] {
      assert a + b == b;
    } else {
      TailOfAppend(a, b);
      var r := step(s, a[0]);
      var rest := RunWith(step, r.state, a[1..]);
      RunAppend(step, r.state, a[1..], b);
      var tail := RunWith(step, rest.outcome.state, b);
      assert r.sends + (rest.sends + tail.sends) == (r.sends + rest.sends) + tail.sends;
    }
  }

  /** A property of states that every step keeps, and that every message a
      step sends from such a state satisfies, holds throughout a run. */
  lemma {:induction false} RunPreserves(step: (GameState, Event) -> StepResult,
                                        inv: GameState -> bool, ok: Send -> bool,
                                        s: GameState, evs: seq<Event>)
    requires inv(s)
    requires forall t, e :: inv(t) && step(t, e).Next? ==>
      inv(step(t, e).state) && forall i :: 0 <= i < |step(t, e).sends| ==> ok(step(t, e).sends[i])
    ensures RunWith(step, s, evs).outcome.Alive? ==> inv(RunWith(step, s, evs).outcome.state)
    ensures forall i :: 0 <= i < |RunWith(step, s, evs).sends| ==> ok(RunWith(step, s, evs).sends[i])
    decreases |evs|
  {
    if evs != [] {
      var r := step(s, evs[0]);
      if r.Next? {
        RunPreserves(step, inv, ok, r.state, evs[1..]);
        var rest := RunWith(step, r.state, evs[1..]);
        assert RunWith(step, s, evs).sends == r.sends + rest.sends;
      }
    }
  }

  /** Consistency, once it holds (as it does after `New`), holds for as long
      as the loop runs. */
  lemma RunKeepsConsistent(s: GameState, evs: seq<Event>)
    requires Consistent(s)
    ensures RunEvents(s, evs).outcome.Alive? ==> Consistent(RunEvents(s, evs).outcome.state)
  {
    forall t: GameState, e: Event | Consistent(t) && Step(t, e).Next?
      ensures Consistent(Step(t, e).state)
    {
      StepKeepsConsistent(t, e);
    }
    RunPreserves(Step, Consistent, (d: Send) => true, s, evs);
  }

  /** Once the ticker is stopped nothing restarts it, so no snapshot is ever
      sent again: the only messages are OFFERs to new connections. */
  lemma StoppedStaysStopped(s: GameState, evs: seq<Event>)
    requires !s.ticking
    ensures RunEvents(s, evs).outcome.Alive? ==> !RunEvents(s, evs).outcome.state.ticking
    ensures forall i :: 0 <= i < |RunEvents(s, evs).sends| ==> RunEvents(s, evs).sends[i].msg.Offer?
  {
    forall t: GameState, e: Event | !t.ticking && Step(t, e).Next?
      ensures !Step(t, e).state.ticking
      ensures forall i :: 0 <= i < |Step(t, e).sends| ==> Step(t, e).sends[i].msg.Offer?
    {
      StoppedStep(t, e);
    }
    RunPreserves(Step, (t: GameState) => !t.ticking, (d: Send) => d.msg.Offer?, s, evs);
  }

  /** One Connect event per handle, in order. */
  function ConnectEvents(hs: seq<Handle>): (evs: seq<Event>)
  {
    seq(|hs|, i requires 0 <= i < |hs| => Connect(hs[i]))
  }

  /** A run of connections, counted: after `n` connections the counter has
      been incremented `n` times, and the i-th connection alone is offered
      the counter incremented i + 1 times. No input is queued and the ticker
      is untouched. */
  lemma {:induction false} ConnectRunCounts(s: GameState, hs: seq<Handle>)
    ensures RunEvents(s, ConnectEvents(hs)).outcome.Alive?
    ensures RunEvents(s, ConnectEvents(hs)).outcome.state.uid == IncTimes(s.uid, |hs|)
    ensures RunEvents(s, ConnectEvents(hs)).outcome.state.messages == s.messages
    ensures RunEvents(s, ConnectEvents(hs)).outcome.state.ticking == s.ticking
    ensures |RunEvents(s, ConnectEvents(hs)).sends| == |hs|
    ensures forall i :: 0 <= i < |hs| ==>
      RunEvents(s, ConnectEvents(hs)).sends[i] == Send(hs[i], Offer(IncTimes(s.uid, i + 1)))
    decreases |hs|
  {
    var evs := ConnectEvents(hs);
    if hs != [] {
      var first := OnConnect(s, hs[0]);
      var t := first.state;
      assert Step(s, evs[0]) == first;
      assert evs[1..] == ConnectEvents(hs[1..]);
      ConnectRunCounts(t, hs[1..]);
      var rest := RunEvents(t, evs[1..]);
      assert RunEvents(s, evs) == Run(first.sends + rest.sends, rest.outcome);
      assert IncTimes(s.uid, 1) == Inc(s.uid);
      forall i | 1 <= i < |hs|
        ensures RunEvents(s, evs).sends[i] == Send(hs[i], Offer(IncTimes(s.uid, i + 1)))
      {
        assert RunEvents(s, evs).sends[i] == rest.sends[i - 1];
        assert hs[1..][i - 1] == hs[i];
      }
    }
  }

  /** A run of connections: the counter advances by one per connection modulo
      256, and the i-th connection alone is offered the counter's value plus
      i + 1, wrapped to an int8. No input is queued and the ticker is
      untouched. */
  lemma ConnectRun(s: GameState, hs: seq<Handle>)
    ensures RunEvents(s, ConnectEvents(hs)).outcome.Alive?
    ensures RunEvents(s, ConnectEvents(hs)).outcome.state.uid == Wrap(s.uid as int + |hs|)
    ensures RunEvents(s, ConnectEvents(hs)).outcome.state.messages == s.messages
    ensures RunEvents(s, ConnectEvents(hs)).outcome.state.ticking == s.ticking
    ensures |RunEvents(s, ConnectEvents(hs)).sends| == |hs|
    ensures forall i :: 0 <= i < |hs| ==>
      RunEvents(s, ConnectEvents(hs)).sends[i] == Send(hs[i], Offer(Wrap(s.uid as int + i + 1)))
  {
    ConnectRunCounts(s, hs);
    IncTimesIsWrap(s.uid, |hs|);
    forall i | 0 <= i < |hs|
      ensures RunEvents(s, ConnectEvents(hs)).sends[i] == Send(hs[i], Offer(Wrap(s.uid as int + i + 1)))
    {
      IncTimesIsWrap(s.uid, i + 1);
    }
  }

  /** Offered uids collide exactly when the connections are a multiple of
      256 apart: 256 consecutive connections get distinct uids, and the
      257th gets the first one's uid again, so its session and entity
      overwrite the earlier ones. */
  lemma OffersRepeatEvery256(s: GameState, hs: seq<Handle>, i: int, j: int)
    requires 0 <= i < j < |hs|
    ensures |RunEvents(s, ConnectEvents(hs)).sends| == |hs|
    ensures RunEvents(s, ConnectEvents(hs)).sends[i].msg == RunEvents(s, ConnectEvents(hs)).sends[j].msg
        <==> (j - i) % 256 == 0
  {
    ConnectRun(s, hs);
    WrapEq(s.uid as int + i + 1, s.uid as int + j + 1);
    assert (s.uid as int + i + 1) - (s.uid as int + j + 1) == -(j - i);
  }

  /** One well-formed DATA datagram per sample, in order. */
  function DataEvents(ds: seq<Data>): (evs: seq<Event>)
  {
    seq(|ds|, i requires 0 <= i < |ds| => Receive(Envelope("DATA", Body(ds[i]))))
  }

  /** DATA datagrams only queue their samples, in arrival order, and send
      nothing. */
  lemma {:induction false} DataRun(s: GameState, ds: seq<Data>)
    ensures RunEvents(s, DataEvents(ds)) == Run([], Alive(s.(messages := s.messages + ds)))
    decreases |ds|
  {
    var evs := DataEvents(ds);
    if ds == [] {
      assert s.messages + ds == s.messages;
    } else {
      var t := s.(messages := s.messages + [ds[0]]);
      assert Step(s, evs[0]) == Next(t, []);
      assert evs[1..] == DataEvents(ds[1..]);
      DataRun(t, ds[1..]);
      assert t.messages + ds[1..] == s.messages + ds;
    }
  }

  /** The input sample an event queues: that of a well-formed "DATA"
      datagram, none for any other event. */
  function EventData(e: Event): seq<Data>
  {
    match e
    case Receive(Envelope(mtype, Body(d))) => if mtype == "DATA" then [d] else []
    case _ => []
  }

  /** The input samples a sequence of events queues, in arrival order. */
  function DataOf(evs: seq<Event>): seq<Data>
  {
    if evs == [] then [] else EventData(evs[0]) + DataOf(evs[1..])
  }

  /** An event other than a tick that does not abort appends its own sample,
      if any, to the queue. */
  lemma StepQueues(s: GameState, e: Event)
    requires !e.Tick? && Step(s, e).Next?
    ensures Step(s, e).state.messages == s.messages + EventData(e)
  {
    match e
    case Receive(m) =>
    case Connect(h) =>
    case Quit =>
  }

  /** A run without ticks, for a transition that appends each event's own
      sample to the queue and keeps the ticker on every event but a quit:
      the queue grows by exactly the samples of the run. */
  lemma {:induction false} QueueRunWith(step: (GameState, Event) -> StepResult, s: GameState, evs: seq<Event>)
    requires forall t: GameState, e: Event :: !e.Tick? && step(t, e).Next? ==>
      step(t, e).state.messages == t.messages + EventData(e)
    requires forall t: GameState, e: Event :: !e.Tick? && !e.Quit? && step(t, e).Next? ==> step(t, e).state.ticking == t.ticking
    requires forall i :: 0 <= i < |evs| ==> !evs[i].Tick?
    ensures RunWith(step, s, evs).outcome.Alive? ==>
      RunWith(step, s, evs).outcome.state.messages == s.messages + DataOf(evs)
    ensures RunWith(step, s, evs).outcome.Alive? && (forall i :: 0 <= i < |evs| ==> !evs[i].Quit?) ==>
      RunWith(step, s, evs).outcome.state.ticking == s.ticking
    decreases |evs|
  {
    if evs != [] {
      var r := step(s, evs[0]);
      if r.Next? {
        QueueRunWith(step, r.state, evs[1..]);
        assert RunWith(step, s, evs).outcome == RunWith(step, r.state, evs[1..]).outcome;
        assert s.messages + EventData(evs[0]) + DataOf(evs[1..]) == s.messages + DataOf(evs);
      }
    }
  }

  /** Between ticks, whatever else happens (connections, ignored datagrams,
      quit), the queue grows by exactly the samples of the "DATA" datagrams,
      in arrival order; without a quit the ticker is untouched. */
  lemma QueueRun(s: GameState, evs: seq<Event>)
    requires forall i :: 0 <= i < |evs| ==> !evs[i].Tick?
    ensures RunEvents(s, evs).outcome.Alive? ==>
      RunEvents(s, evs).outcome.state.messages == s.messages + DataOf(evs)
    ensures RunEvents(s, evs).outcome.Alive? && (forall i :: 0 <= i < |evs| ==> !evs[i].Quit?) ==>
      RunEvents(s, evs).outcome.state.ticking == s.ticking
  {
    forall t: GameState, e: Event | !e.Tick? && Step(t, e).Next?
      ensures Step(t, e).state.messages == t.messages + EventData(e)
    {
      StepQueues(t, e);
    }
    QueueRunWith(Step, s, evs);
  }

  /** Every sample received before a tick is applied at that tick, in
      arrival order and after those already queued, whatever other events
      came in between, and the queue is empty afterwards. */
  lemma InputBeforeTickApplied(s: GameState, evs: seq<Event>, dt: real)
    requires s.ticking
    requires forall i :: 0 <= i < |evs| ==> !evs[i].Tick? && !evs[i].Quit?
    requires RunEvents(s, evs).outcome.Alive?
    ensures RunEvents(s, evs + [Tick(dt)]).outcome.Alive?
    ensures RunEvents(s, evs + [Tick(dt)]).outcome.state.entities
         == Input.ApplyAll(RunEvents(s, evs).outcome.state.entities, s.messages + DataOf(evs), dt)
    ensures RunEvents(s, evs + [Tick(dt)]).outcome.state.messages == []
  {
    QueueRun(s, evs);
    RunAppend(Step, s, evs, [Tick(dt)]);
    var t := RunEvents(s, evs).outcome.state;
    assert RunEvents(t, [Tick(dt)]).outcome == Alive(OnTick(t, dt).state);
  }
}
