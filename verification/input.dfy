/** handleInput: every queued input sample moves the entity it names. */
module Input {
  import opened Int8
  import opened Records

  /** Distance per second a pressed key moves an entity (`deltaTime * 200`). */
  const Speed: real := 200.0

  /** The distance one pressed key moves an entity in a tick of `dt`
      seconds (`deltaMove`). */
  function DeltaMove(dt: real): real
  {
    dt * Speed
  }

  /** 1 when a key value counts as pressed (exactly 1), otherwise 0. */
  function Pressed(v: int): int
  {
    if v == 1 then 1 else 0
  }

  /** Net x direction of a sample: +1 right, -1 left, 0 for both or neither. */
  function StepX(k: Keys): int
  {
    Pressed(k.right) - Pressed(k.left)
  }

  /** Net y direction of a sample: +1 down, -1 up, 0 for both or neither. */
  function StepY(k: Keys): int
  {
    Pressed(k.down) - Pressed(k.up)
  }

  /** The displacement of `n` steps of length `dm` each, counted out one
      step at a time (negative `n` steps backwards). */
  function Shift(dm: real, n: int): real
    decreases if n < 0 then -n else n
  {
    if n == 0 then 0.0
    else if n > 0 then Shift(dm, n - 1) + dm
    else Shift(dm, n + 1) - dm
  }

  /** Counting steps agrees with multiplying: `Shift(dm, n) == dm * n`. */
  lemma {:induction false} ShiftIsProduct(dm: real, n: int)
    ensures Shift(dm, n) == dm * n as real
    decreases if n < 0 then -n else n
  {
    if n > 0 {
      ShiftIsProduct(dm, n - 1);
      assert dm * (n - 1) as real + dm == dm * n as real;
    } else if n < 0 {
      ShiftIsProduct(dm, n + 1);
      assert dm * (n + 1) as real - dm == dm * n as real;
    }
  }

  /** Steps add up: shifting by a then by b is shifting by a + b. */
  lemma ShiftAdd(dm: real, a: int, b: int)
    ensures Shift(dm, a) + Shift(dm, b) == Shift(dm, a + b)
  {
    ShiftIsProduct(dm, a);
    ShiftIsProduct(dm, b);
    ShiftIsProduct(dm, a + b);
    assert dm * a as real + dm * b as real == dm * (a + b) as real;
  }

  /** The four key branches of one loop iteration, applied in the source's
      order (down, up, left, right) to one entity. */
  function Move(e: Entity, k: Keys, dt: real): (r: Entity)
    ensures r.uid == e.uid && r.session == e.session
    ensures r.x == e.x + Shift(DeltaMove(dt), StepX(k))
    ensures r.y == e.y + Shift(DeltaMove(dt), StepY(k))
  {
    var dm := DeltaMove(dt);
    var y1 := if k.down == 1 then e.y + dm else e.y;
    var y2 := if k.up == 1 then y1 - dm else y1;
    var x1 := if k.left == 1 then e.x - dm else e.x;
    var x2 := if k.right == 1 then x1 + dm else x1;
    e.(x := x2, y := y2)
  }

  /** Go's map read: a missing key yields the zero Entity. */
  function Lookup(ents: map<int8, Entity>, k: int8): Entity
  {
    if k in ents then ents[k] else ZeroEntity
  }

  /** The uids named by a queue of samples. */
  function Uids(msgs: seq<Data>): set<int8>
  {
    set i | 0 <= i < |msgs| :: msgs[i].uid
  }

  /** The uids of a non-empty queue: those of all but the last sample,
      plus the last sample's. */
  lemma UidsLast(msgs: seq<Data>)
    requires msgs != []
    ensures Uids(msgs) == Uids(msgs[..|msgs| - 1]) + {msgs[|msgs| - 1].uid}
  {
    var front := msgs[..|msgs| - 1];
    forall k | k in Uids(msgs) ensures k in Uids(front) + {msgs[|msgs| - 1].uid} {
      var i :| 0 <= i < |msgs| && msgs[i].uid == k;
      if i < |msgs| - 1 { assert front[i] == msgs[i]; }
    }
    forall k | k in Uids(front) ensures k in Uids(msgs) {
      var i :| 0 <= i < |front| && front[i].uid == k;
      assert msgs[i] == front[i];
    }
  }

  /** One iteration of handleInput's loop: read the entity under the
      sample's uid (zero if absent), move it, and store it back. */
  function ApplyRecord(ents: map<int8, Entity>, m: Data, dt: real): (r: map<int8, Entity>)
    ensures r.Keys == ents.Keys + {m.uid}
    ensures forall k :: k in ents && k != m.uid ==> r[k] == ents[k]
  {
    ents[m.uid := Move(Lookup(ents, m.uid), m.keys, dt)]
  }

  /** handleInput's loop over the whole queue, front to back. */
  function ApplyAll(ents: map<int8, Entity>, msgs: seq<Data>, dt: real): (r: map<int8, Entity>)
    ensures r.Keys == ents.Keys + Uids(msgs)
    ensures forall k :: k in ents && k !in Uids(msgs) ==> r[k] == ents[k]
    decreases |msgs|
  {
    if msgs == [] then ents
    else
      var front := msgs[..|msgs| - 1];
      var last := msgs[|msgs| - 1];
      UidsLast(msgs);
      ApplyRecord(ApplyAll(ents, front, dt), last, dt)
  }

  /** The fold applies the samples in queue order: the last sample is
      applied to the result of all the earlier ones. */
  lemma ApplyAllSnoc(ents: map<int8, Entity>, p: seq<Data>, d: Data, dt: real)
    ensures ApplyAll(ents, p + [d], dt) == ApplyRecord(ApplyAll(ents, p, dt), d, dt)
  {
    assert (p + [d])[..|p|] == p;
  }

  /** One more sample of the same queue: the fold over the first `i + 1`
      samples is the fold over the first `i` followed by sample `i`. */
  lemma ApplyAllPrefix(ents: map<int8, Entity>, q: seq<Data>, i: nat, dt: real)
    requires i < |q|
    ensures ApplyAll(ents, q[..i + 1], dt) == ApplyRecord(ApplyAll(ents, q[..i], dt), q[i], dt)
  {
    assert q[..i + 1] == q[..i] + [q[i]];
    ApplyAllSnoc(ents, q[..i], q[i], dt);
  }

  /** Reference sum: the net number of x steps the samples in `msgs` ask of
      uid `k`. */
  function NetX(msgs: seq<Data>, k: int8): int
  {
    if msgs == [] then 0
    else (if msgs[0].uid == k then StepX(msgs[0].keys) else 0) + NetX(msgs[1..], k)
  }

  /** Reference sum: the net number of y steps the samples in `msgs` ask of
      uid `k`. */
  function NetY(msgs: seq<Data>, k: int8): int
  {
    if msgs == [] then 0
    else (if msgs[0].uid == k then StepY(msgs[0].keys) else 0) + NetY(msgs[1..], k)
  }

  /** Appending a sample adds its own steps to the reference sums. */
  lemma {:induction false} NetSnoc(p: seq<Data>, d: Data, k: int8)
    ensures NetX(p + [d], k) == NetX(p, k) + (if d.uid == k then StepX(d.keys) else 0)
    ensures NetY(p + [d], k) == NetY(p, k) + (if d.uid == k then StepY(d.keys) else 0)
  {
    if p != [] {
      assert (p + [d])[1..] == p[1..] + [d];
      NetSnoc(p[1..], d, k);
    }
  }

  /** The reference sums of a non-empty queue: those of all but the last
      sample, plus the last sample's own steps. */
  lemma NetLast(msgs: seq<Data>, k: int8)
    requires msgs != []
    ensures var last := msgs[|msgs| - 1];
      && NetX(msgs, k) == NetX(msgs[..|msgs| - 1], k) + (if last.uid == k then StepX(last.keys) else 0)
      && NetY(msgs, k) == NetY(msgs[..|msgs| - 1], k) + (if last.uid == k then StepY(last.keys) else 0)
  {
    assert msgs == msgs[..|msgs| - 1] + [msgs[|msgs| - 1]];
    NetSnoc(msgs[..|msgs| - 1], msgs[|msgs| - 1], k);
  }

  /** The entity under `k` after one more sample: moved when the sample
      names `k`, untouched otherwise. */
  lemma LookupApplyRecord(ents: map<int8, Entity>, m: Data, dt: real, k: int8)
    ensures Lookup(ApplyRecord(ents, m, dt), k)
         == if m.uid == k then Move(Lookup(ents, k), m.keys, dt) else Lookup(ents, k)
  {
  }

  /** The last step of the fold: the entity under `k` after the whole queue
      is the one after all but the last sample, then moved by the last. */
  lemma LookupApplyAllSnoc(ents: map<int8, Entity>, msgs: seq<Data>, dt: real, k: int8)
    requires msgs != []
    ensures Lookup(ApplyAll(ents, msgs, dt), k)
         == var e := Lookup(ApplyAll(ents, msgs[..|msgs| - 1], dt), k);
            var last := msgs[|msgs| - 1];
            if last.uid == k then Move(e, last.keys, dt) else e
  {
    LookupApplyRecord(ApplyAll(ents, msgs[..|msgs| - 1], dt), msgs[|msgs| - 1], dt, k);
  }

  /** One fold step on top of `ax`, `ay` earlier steps from `b`: the
      entity is `ax + StepX`, `ay + StepY` steps from `b` when the sample
      names it, and where it was otherwise. */
  lemma SnocMoves(b: Entity, e: Entity, last: Data, dt: real, k: int8, ax: int, ay: int)
    requires e.x == b.x + Shift(DeltaMove(dt), ax)
    requires e.y == b.y + Shift(DeltaMove(dt), ay)
    ensures var r := if last.uid == k then Move(e, last.keys, dt) else e;
      && r.uid == e.uid && r.session == e.session
      && r.x == b.x + Shift(DeltaMove(dt), ax + (if last.uid == k then StepX(last.keys) else 0))
      && r.y == b.y + Shift(DeltaMove(dt), ay + (if last.uid == k then StepY(last.keys) else 0))
  {
    if last.uid == k {
      ShiftAdd(DeltaMove(dt), ax, StepX(last.keys));
      ShiftAdd(DeltaMove(dt), ay, StepY(last.keys));
    }
  }

  /** Key-driven deltas add up: after the queue is applied, the entity under
      any uid sits at its old position (the origin if it had none) plus
      `dt * Speed` times the net steps all samples for that uid ask for. Its
      uid field and session are those it had, so an entity created for an
      unknown uid has uid field 0 and no session. */
  lemma {:induction false} ApplyAllMoves(ents: map<int8, Entity>, msgs: seq<Data>, dt: real, k: int8)
    ensures Lookup(ApplyAll(ents, msgs, dt), k).uid == Lookup(ents, k).uid
    ensures Lookup(ApplyAll(ents, msgs, dt), k).session == Lookup(ents, k).session
    ensures Lookup(ApplyAll(ents, msgs, dt), k).x == Lookup(ents, k).x + Shift(DeltaMove(dt), NetX(msgs, k))
    ensures Lookup(ApplyAll(ents, msgs, dt), k).y == Lookup(ents, k).y + Shift(DeltaMove(dt), NetY(msgs, k))
    decreases |msgs|
  {
    if msgs == [] {
      assert NetX(msgs, k) == 0 && NetY(msgs, k) == 0;
      assert Shift(DeltaMove(dt), 0) == 0.0;
    } else {
      var front := msgs[..|msgs| - 1];
      var last := msgs[|msgs| - 1];
      ApplyAllMoves(ents, front, dt, k);
      NetLast(msgs, k);
      LookupApplyAllSnoc(ents, msgs, dt, k);
      SnocMoves(Lookup(ents, k), Lookup(ApplyAll(ents, front, dt), k), last, dt, k,
                NetX(front, k), NetY(front, k));
    }
  }

  /** handleInput as the source writes it: a range over the queue whose body
      also resets the queue to `messages[:0]`. The range reads the slice
      header once, so every sample queued at the start is applied, and the
      queue is empty afterwards (it already was if nothing was queued). */
  method HandleInput(ents0: map<int8, Entity>, msgs0: seq<Data>, dt: real)
    returns (ents: map<int8, Entity>, msgs: seq<Data>)
    ensures ents == ApplyAll(ents0, msgs0, dt)
    ensures msgs == []
  {
    ents := ents0;
    msgs := msgs0;
    var queued := msgs;
    for i := 0 to |queued|
      invariant ents == ApplyAll(ents0, queued[..i], dt)
      invariant msgs == if i == 0 then msgs0 else []
    {
      ApplyAllPrefix(ents0, queued, i, dt);
      ents := ApplyRecord(ents, queued[i], dt);
      msgs := msgs[..0];
    }
    assert queued[..|queued|] == msgs0;
  }
}
