/** sendState: the per-tick snapshot of every entity and its delivery to
    every entity's session. */
module Broadcast {
  import opened Int8
  import opened Records

  /** `order` lists every key of `m` exactly once: one of the orders in which
      a Go `range` over the map may visit it. */
  predicate Enumerates<V>(order: seq<int8>, m: map<int8, V>)
  {
    && (forall i :: 0 <= i < |order| ==> order[i] in m)
    && (forall k :: k in m ==> k in order)
    && (forall i, j :: 0 <= i < j < |order| ==> order[i] != order[j])
  }

  /** `k` is the least element of `ks`. */
  predicate IsLeast(k: int8, ks: set<int8>)
  {
    k in ks && forall j :: j in ks ==> k <= j
  }

  /** Adding an element to a set whose least element is known. */
  lemma LeastOfInsert(x: int8, m: int8, rest: set<int8>)
    requires IsLeast(m, rest)
    ensures IsLeast(if x < m then x else m, rest + {x})
  {
  }

  /** Every non-empty set of int8 has a least element. */
  lemma {:induction false} HasLeast(ks: set<int8>)
    requires ks != {}
    ensures exists k :: IsLeast(k, ks)
    decreases |ks|
  {
    var x :| x in ks;
    var rest := ks - {x};
    if rest == {} {
      assert ks == {x};
      assert IsLeast(x, ks);
    } else {
      HasLeast(rest);
      var m :| IsLeast(m, rest);
      LeastOfInsert(x, m, rest);
      assert rest + {x} == ks;
    }
  }

  /** The least element of a non-empty set of int8. */
  function Least(ks: set<int8>): (k: int8)
    requires ks != {}
    ensures IsLeast(k, ks)
  {
    HasLeast(ks);
    var k :| IsLeast(k, ks);
    k
  }

  /** The elements of `ks` in ascending order. */
  function Ascending(ks: set<int8>): (r: seq<int8>)
    ensures forall i :: 0 <= i < |r| ==> r[i] in ks
    ensures forall k :: k in ks ==> k in r
    ensures forall i, j :: 0 <= i < j < |r| ==> r[i] < r[j]
    decreases |ks|
  {
    if ks == {} then []
    else
      var k := Least(ks);
      var rest := Ascending(ks - {k});
      assert forall i :: 0 <= i < |rest| ==> k < rest[i];
      [k] + rest
  }

  /** A fixed enumeration of a map's keys (ascending), standing in for Go's
      randomised map iteration order. */
  function AscendingKeys<V>(m: map<int8, V>): (r: seq<int8>)
    ensures Enumerates(r, m)
  {
    Ascending(m.Keys)
  }

  /** An enumeration has exactly as many elements as the map has keys. */
  lemma {:induction false} EnumerationSize<V>(order: seq<int8>, m: map<int8, V>)
    requires Enumerates(order, m)
    ensures |order| == |m|
    decreases |order|
  {
    if order != [] {
      var x := order[0];
      var m' := m - {x};
      var rest := order[1..];
      forall k | k in m' ensures k in rest {
        var i :| 0 <= i < |order| && order[i] == k;
        assert i != 0;
        assert rest[i - 1] == k;
      }
      forall i | 0 <= i < |rest| ensures rest[i] in m' {
        assert rest[i] == order[i + 1];
      }
      assert Enumerates(rest, m');
      EnumerationSize(rest, m');
      assert m'.Keys == m.Keys - {x};
    }
  }

  /** The states sendState collects, visiting the entities in `order`. */
  function States(ents: map<int8, Entity>, order: seq<int8>): seq<State>
    requires forall i :: 0 <= i < |order| ==> order[i] in ents
  {
    seq(|order|, i requires 0 <= i < |order| => StateOf(ents[order[i]]))
  }

  /** The snapshot sendState builds: tagged "DATA", one state per entity. */
  function SnapshotOf(ents: map<int8, Entity>, order: seq<int8>): Msg
    requires forall i :: 0 <= i < |order| ==> order[i] in ents
  {
    Snapshot("DATA", States(ents, order))
  }

  /** sendState's second loop: the snapshot handed to each entity's session,
      visiting the entities in `order`. */
  function Deliveries(ents: map<int8, Entity>, order: seq<int8>, msg: Msg): seq<Send>
    requires forall i :: 0 <= i < |order| ==> order[i] in ents
  {
    seq(|order|, i requires 0 <= i < |order| => Send(ents[order[i]].session, msg))
  }

  /** Whatever order the map is ranged in, the snapshot is tagged "DATA" and
      holds exactly one state per map entry, built from that entity's own
      uid field and position, and nothing else. */
  lemma SnapshotOnePerEntity(ents: map<int8, Entity>, order: seq<int8>)
    requires Enumerates(order, ents)
    ensures SnapshotOf(ents, order).mtype == "DATA"
    ensures |SnapshotOf(ents, order).states| == |ents|
    ensures forall k :: k in ents ==>
      exists i :: 0 <= i < |order| && order[i] == k && SnapshotOf(ents, order).states[i] == StateOf(ents[k])
    ensures forall i :: 0 <= i < |SnapshotOf(ents, order).states| ==>
      order[i] in ents && SnapshotOf(ents, order).states[i] == StateOf(ents[order[i]])
  {
    EnumerationSize(order, ents);
    forall k | k in ents
      ensures exists i :: 0 <= i < |order| && order[i] == k && SnapshotOf(ents, order).states[i] == StateOf(ents[k])
    {
      var i :| 0 <= i < |order| && order[i] == k;
      assert SnapshotOf(ents, order).states[i] == StateOf(ents[k]);
    }
  }

  /** Whatever order the map is ranged in, the message is sent exactly once
      per entity, to that entity's session, and nothing else is sent. */
  lemma DeliveredOncePerEntity(ents: map<int8, Entity>, order: seq<int8>, msg: Msg)
    requires Enumerates(order, ents)
    ensures |Deliveries(ents, order, msg)| == |ents|
    ensures forall k :: k in ents ==>
      exists i :: 0 <= i < |order| && order[i] == k && Deliveries(ents, order, msg)[i] == Send(ents[k].session, msg)
    ensures forall i :: 0 <= i < |order| ==> Deliveries(ents, order, msg)[i].msg == msg
  {
    EnumerationSize(order, ents);
    forall k | k in ents
      ensures exists i :: 0 <= i < |order| && order[i] == k && Deliveries(ents, order, msg)[i] == Send(ents[k].session, msg)
    {
      var i :| 0 <= i < |order| && order[i] == k;
      assert Deliveries(ents, order, msg)[i] == Send(ents[k].session, msg);
    }
  }

  /** `snap` is a snapshot sendState can build from `ents`: the "DATA"
      snapshot collected along some enumeration of the map. */
  ghost predicate SnapshotOfAll(ents: map<int8, Entity>, snap: Msg)
  {
    exists order :: Enumerates(order, ents) && snap == SnapshotOf(ents, order)
  }

  /** Whichever order built it, a snapshot of all entities is tagged "DATA",
      has one state per entity, contains every entity's state and contains
      nothing but entities' states. */
  lemma SnapshotOfAllContents(ents: map<int8, Entity>, snap: Msg)
    requires SnapshotOfAll(ents, snap)
    ensures snap.Snapshot? && snap.mtype == "DATA"
    ensures |snap.states| == |ents|
    ensures forall k :: k in ents ==> StateOf(ents[k]) in snap.states
    ensures forall i :: 0 <= i < |snap.states| ==> exists k :: k in ents && snap.states[i] == StateOf(ents[k])
  {
    var order :| Enumerates(order, ents) && snap == SnapshotOf(ents, order);
    SnapshotOnePerEntity(ents, order);
    forall i | 0 <= i < |snap.states| ensures exists k :: k in ents && snap.states[i] == StateOf(ents[k]) {
      assert order[i] in ents;
    }
    forall k | k in ents ensures StateOf(ents[k]) in snap.states {
      var i :| 0 <= i < |order| && order[i] == k && snap.states[i] == StateOf(ents[k]);
    }
  }

  /** `out` is what sendState sends: one snapshot of all entities, handed to
      the session of each entity in turn, along some enumeration of the map
      (so exactly once per entity). */
  ghost predicate BroadcastsAll(ents: map<int8, Entity>, out: seq<Send>)
  {
    exists visit, snap :: Enumerates(visit, ents) && SnapshotOfAll(ents, snap) && out == Deliveries(ents, visit, snap)
  }

  /** What a broadcast to all entities amounts to: one message per entity,
      every entity's session reached, the same snapshot in every message,
      and that a snapshot of all entities. */
  lemma BroadcastsAllContents(ents: map<int8, Entity>, out: seq<Send>)
    requires BroadcastsAll(ents, out)
    ensures |out| == |ents|
    ensures forall k :: k in ents ==> exists i :: 0 <= i < |out| && out[i].to == ents[k].session
    ensures forall i, j :: 0 <= i < |out| && 0 <= j < |out| ==> out[i].msg == out[j].msg
    ensures forall i :: 0 <= i < |out| ==> SnapshotOfAll(ents, out[i].msg)
  {
    var visit, snap :| Enumerates(visit, ents) && SnapshotOfAll(ents, snap) && out == Deliveries(ents, visit, snap);
    DeliveredOncePerEntity(ents, visit, snap);
    forall k | k in ents ensures exists i :: 0 <= i < |out| && out[i].to == ents[k].session {
      var i :| 0 <= i < |visit| && visit[i] == k && out[i] == Send(ents[k].session, snap);
    }
    forall i | 0 <= i < |out| ensures out[i].msg == snap && SnapshotOfAll(ents, out[i].msg) {
      assert out[i].msg == snap;
    }
  }

  /** Whatever orders the two loops range the map in (each loop draws its
      own), what sendState sends is a broadcast of a snapshot of all
      entities to all entities: as many messages as entities, one per
      entity. */
  lemma BroadcastReachesAll(ents: map<int8, Entity>, collect: seq<int8>, visit: seq<int8>)
    requires Enumerates(collect, ents) && Enumerates(visit, ents)
    ensures |Deliveries(ents, visit, SnapshotOf(ents, collect))| == |ents|
    ensures BroadcastsAll(ents, Deliveries(ents, visit, SnapshotOf(ents, collect)))
  {
    EnumerationSize(visit, ents);
    assert SnapshotOfAll(ents, SnapshotOf(ents, collect));
  }
}
