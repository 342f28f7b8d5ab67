/** `CheckEvents`: histories given as a list of call and return events. */
module Events {
  import opened Common
  import opened Linearizability
  import opened Entries
  import opened Checker

  datatype Event<V> = Event(isReturn: bool, value: V, id: nat)

  ghost predicate HasPartner<V>(events: seq<Event<V>>, i: int)
    requires 0 <= i < |events|
  {
    exists j :: 0 <= j < |events| && j != i && events[j].id == events[i].id
  }

  /** Every identifier has one call and, later, one return. */
  ghost predicate Matched<V>(events: seq<Event<V>>) {
    && (forall i, j :: 0 <= i < j < |events| && events[i].id == events[j].id ==>
         !events[i].isReturn && events[j].isReturn)
    && (forall i :: 0 <= i < |events| ==> HasPartner(events, i))
  }

  ghost predicate Used<V>(e: seq<Event<V>>, id: nat) {
    exists i :: 0 <= i < |e| && e[i].id == id
  }

  /** The same events under numbers `0 .. n - 1`, each of them used: equal numbers for equal identifiers. */
  ghost predicate Renumbered<V>(events: seq<Event<V>>, e: seq<Event<V>>, n: nat) {
    && |e| == |events|
    && (forall i :: 0 <= i < |e| ==>
         e[i].isReturn == events[i].isReturn && e[i].value == events[i].value && e[i].id < n)
    && (forall i, j :: 0 <= i < j < |e| ==> (e[i].id == e[j].id <==> events[i].id == events[j].id))
    && (forall id: nat :: id < n ==> Used(e, id))
  }

  /** `m` is the numbering of the events met so far. */
  ghost predicate Numbering<V>(events: seq<Event<V>>, e: seq<Event<V>>, n: nat, m: map<nat, nat>) {
    && Renumbered(events, e, n)
    && (forall i :: 0 <= i < |e| ==> events[i].id in m && m[events[i].id] == e[i].id)
    && (forall id :: id in m ==> Used(events, id))
  }

  lemma {:induction false} UsedStays<V>(e: seq<Event<V>>, v: Event<V>, id: nat)
    ensures Used(e + [v], id) <==> Used(e, id) || id == v.id
  {
    if Used(e, id) {
      var i :| 0 <= i < |e| && e[i].id == id;
      assert (e + [v])[i].id == id;
    }
    assert (e + [v])[|e|].id == v.id;
  }

  lemma {:induction false} NumberOneMore<V>(events: seq<Event<V>>, e: seq<Event<V>>, n: nat, m: map<nat, nat>,
                                            v: Event<V>, id: nat)
    requires Numbering(events, e, n, m)
    requires id == if v.id in m then m[v.id] else n
    ensures Numbering(events + [v], e + [Event(v.isReturn, v.value, id)], if v.id in m then n else n + 1, m[v.id := id])
  {
    var w := Event(v.isReturn, v.value, id);
    if v.id in m {
      assert Used(events, v.id);
    }
    forall k: nat | Used(e, k) || k == id
      ensures Used(e + [w], k)
    {
      UsedStays(e, w, k);
    }
    forall k: nat | Used(events, k) || k == v.id
      ensures Used(events + [v], k)
    {
      UsedStays(events, v, k);
    }
  }

  method Renumber<V>(events: seq<Event<V>>) returns (e: seq<Event<V>>, n: nat)
    ensures Renumbered(events, e, n)
  {
    e, n := [], 0;
    var m: map<nat, nat> := map[];
    for i := 0 to |events|
      invariant Numbering(events[..i], e, n, m) == true
    {
      var v := events[i];
      NumberOneMore(events[..i], e, n, m, v, if v.id in m then m[v.id] else n);
      assert events[..i + 1] == events[..i] + [v];
      if v.id in m {
        e := e + [Event(v.isReturn, v.value, m[v.id])];
        assert m[v.id := m[v.id]] == m;
      } else {
        e := e + [Event(v.isReturn, v.value, n)];
        m := m[v.id := n];
        n := n + 1;
      }
    }
    assert events[..|events|] == events;
  }

  function Untimed<V>(events: seq<Event<V>>): (r: seq<Entry<V>>)
    ensures |r| == |events|
    ensures forall i :: 0 <= i < |r| ==> r[i] == Entry(events[i].isReturn, events[i].value, events[i].id, -1)
  {
    seq(|events|, i requires 0 <= i < |events| => Entry(events[i].isReturn, events[i].value, events[i].id, -1))
  }

  method ConvertEntries<V>(events: seq<Event<V>>) returns (entries: seq<Entry<V>>)
    ensures entries == Untimed(events)
  {
    entries := [];
    for i := 0 to |events|
      invariant entries == Untimed(events[..i])
    {
      var elem := events[i];
      entries := entries + [Entry(elem.isReturn, elem.value, elem.id, -1)];
    }
    assert events[..|events|] == events;
  }

  // ----- renumbered events are paired entries -----

  lemma {:induction false} CallAndReturn<V>(events: seq<Event<V>>, e: seq<Event<V>>, n: nat, id: nat)
    requires Matched(events) && Renumbered(events, e, n) && id < n
    ensures Find(Untimed(e), false, id, 0) < Find(Untimed(e), true, id, 0) < |e|
  {
    assert Used(e, id);
    var i :| 0 <= i < |e| && e[i].id == id;
    assert HasPartner(events, i);
    var j :| 0 <= j < |events| && j != i && events[j].id == events[i].id;
    var entries := Untimed(e);
    var c, r := Find(entries, false, id, 0), Find(entries, true, id, 0);
    if i < j {
      assert c <= i && r <= j;
    } else {
      assert c <= j && r <= i;
    }
    assert events[c].id == events[r].id;
  }

  ghost predicate PairAt<V>(entries: seq<Entry<V>>, id: nat) {
    Find(entries, false, id, 0) < Find(entries, true, id, 0) < |entries|
  }

  /** Every number below `k` has a call and, after it, a return. */
  ghost predicate PairsUpTo<V>(entries: seq<Entry<V>>, k: nat) {
    forall id: nat :: id < k ==> PairAt(entries, id)
  }

  /** The positions of the calls and returns of the numbers below `k`. */
  ghost function PairPlaces<V>(entries: seq<Entry<V>>, k: nat): (r: seq<nat>)
    ensures |r| == 2 * k
  {
    if k == 0 then [] else PairPlaces(entries, k - 1) + [Find(entries, false, k - 1, 0), Find(entries, true, k - 1, 0)]
  }

  lemma {:induction false} PlacesDiffer<V>(entries: seq<Entry<V>>, k: nat)
    requires PairsUpTo(entries, k)
    ensures Distinct(PairPlaces(entries, k))
    ensures forall i :: 0 <= i < 2 * k ==>
              PairPlaces(entries, k)[i] < |entries| && entries[PairPlaces(entries, k)[i]].id < k
  {
    if k > 0 {
      PlacesDiffer(entries, k - 1);
      assert PairAt(entries, k - 1);
    }
  }

  lemma {:induction false} EveryPlace<V>(entries: seq<Entry<V>>, k: nat, id: nat)
    requires id < k
    ensures Find(entries, false, id, 0) in PairPlaces(entries, k)
    ensures Find(entries, true, id, 0) in PairPlaces(entries, k)
  {
    if id < k - 1 {
      EveryPlace(entries, k - 1, id);
    } else {
      var r := PairPlaces(entries, k);
      assert r[2 * k - 2] == Find(entries, false, id, 0) && r[2 * k - 1] == Find(entries, true, id, 0);
    }
  }

  /** A list of every number below `m`, each once, has length `m`. */
  lemma {:induction false} CountBelow(s: seq<nat>, m: nat)
    requires Distinct(s) && (forall i :: 0 <= i < |s| ==> s[i] < m) && (forall x: nat :: x < m ==> x in s)
    ensures |s| == m
    decreases m
  {
    if m > 0 {
      assert m - 1 in s;
      var p :| 0 <= p < |s| && s[p] == m - 1;
      var rest := s[..p] + s[p + 1..];
      forall x: nat | x < m - 1
        ensures x in rest
      {
        assert x in s;
        var q :| 0 <= q < |s| && s[q] == x;
        assert rest[if q < p then q else q - 1] == x;
      }
      CountBelow(rest, m - 1);
    }
  }

  lemma {:induction false} PairsFillTheList<V>(entries: seq<Entry<V>>, n: nat)
    requires PairsUpTo(entries, n)
    requires forall i :: 0 <= i < |entries| ==> entries[i].id < n
    requires forall i, j :: 0 <= i < j < |entries| && entries[i].id == entries[j].id ==>
              entries[i].isReturn != entries[j].isReturn
    ensures |entries| == 2 * n
  {
    var places := PairPlaces(entries, n);
    PlacesDiffer(entries, n);
    forall i: nat | i < |entries|
      ensures i in places
    {
      EveryPlace(entries, n, entries[i].id);
      var j := Find(entries, entries[i].isReturn, entries[i].id, 0);
      assert j <= i;
    }
    CountBelow(places, |entries|);
  }

  lemma {:induction false} RenumberedPaired<V>(events: seq<Event<V>>, e: seq<Event<V>>, n: nat)
    requires Matched(events) && Renumbered(events, e, n)
    ensures Paired(Untimed(e), n) == true
  {
    var entries := Untimed(e);
    forall id: nat | id < n
      ensures Find(entries, false, id, 0) < Find(entries, true, id, 0) < |entries|
    {
      CallAndReturn(events, e, n, id);
    }
    assert PairsUpTo(entries, n);
    PairsFillTheList(entries, n);
  }

  ghost predicate IsOperation<V>(events: seq<Event<V>>, op: Operation<V>) {
    && 0 <= op.call < op.ret < |events| && events[op.call].id == events[op.ret].id
    && !events[op.call].isReturn && events[op.call].value == op.input
    && events[op.ret].isReturn && events[op.ret].value == op.output
  }

  ghost predicate Called<V>(ops: seq<Operation<V>>, i: int) {
    exists k :: 0 <= k < |ops| && ops[k].call == i
  }

  /** `ops` are the operations of the events, in any order; times are positions in the list. */
  ghost predicate IsHistoryOf<V>(events: seq<Event<V>>, ops: seq<Operation<V>>) {
    && (forall k :: 0 <= k < |ops| ==> IsOperation(events, ops[k]))
    && (forall k, l :: 0 <= k < l < |ops| ==> ops[k].call != ops[l].call)
    && (forall i :: 0 <= i < |events| && !events[i].isReturn ==> Called(ops, i))
  }

  lemma {:induction false} PositionsOfEvents<V>(events: seq<Event<V>>, e: seq<Event<V>>, n: nat)
    requires Matched(events) && Renumbered(events, e, n) && Paired(Untimed(e), n)
    ensures IsHistoryOf(events, Positions(Untimed(e), n)) == true
  {
    var entries := Untimed(e);
    var ops := Positions(entries, n);
    forall k | 0 <= k < |ops|
      ensures IsOperation(events, ops[k])
    {
      ReturnFollows(entries, n, k);
    }
    forall i | 0 <= i < |events| && !events[i].isReturn
      ensures Called(ops, i)
    {
      OnlyOne(entries, n, i);
      assert ops[e[i].id].call == i;
    }
  }

  // ----- all histories of the same events agree -----

  ghost function Locate<V>(ops: seq<Operation<V>>, call: int): (k: nat)
    requires Called(ops, call)
    ensures k < |ops| && ops[k].call == call
  {
    var k :| 0 <= k < |ops| && ops[k].call == call; k
  }

  /** A call has the same operation in every history of the events. */
  lemma {:induction false} SameOperation<V>(events: seq<Event<V>>, a: seq<Operation<V>>, b: seq<Operation<V>>, k: nat)
    requires Matched(events) && IsHistoryOf(events, a) && IsHistoryOf(events, b) && k < |a|
    ensures Called(b, a[k].call) && b[Locate(b, a[k].call)] == a[k]
  {
    assert IsOperation(events, a[k]);
    var l := Locate(b, a[k].call);
    assert IsOperation(events, b[l]);
    assert events[a[k].ret].id == events[b[l].ret].id;
  }

  ghost function Moved<V>(a: seq<Operation<V>>, b: seq<Operation<V>>, order: seq<nat>): (r: seq<nat>)
    requires forall i :: 0 <= i < |order| ==> order[i] < |a| && Called(b, a[order[i]].call)
    ensures |r| == |order|
    ensures forall i :: 0 <= i < |r| ==> r[i] < |b| && r[i] == Locate(b, a[order[i]].call)
  {
    seq(|order|, i requires 0 <= i < |order| => Locate(b, a[order[i]].call))
  }

  lemma {:induction false} MovedIsOrder<V>(events: seq<Event<V>>, a: seq<Operation<V>>, b: seq<Operation<V>>,
                                           order: seq<nat>)
    requires Matched(events) && IsHistoryOf(events, a) && IsHistoryOf(events, b) && IsOrderOf(a, {}, order)
    requires forall k: nat :: k < |a| ==> Called(b, a[k].call)
    ensures IsOrderOf(b, {}, Moved(a, b, order))
  {
    var r := Moved(a, b, order);
    forall l: nat | l < |b|
      ensures l in r
    {
      SameOperation(events, b, a, l);
      var k := Locate(a, b[l].call);
      assert k in order;
      var i :| 0 <= i < |order| && order[i] == k;
      assert b[r[i]].call == b[l].call;
      assert r[i] == l;
    }
    forall i, j | 0 <= i < j < |r|
      ensures r[i] != r[j]
    {
      assert b[r[i]].call == a[order[i]].call && b[r[j]].call == a[order[j]].call;
      assert order[i] != order[j];
    }
  }

  lemma {:induction false} MovedRespectsTime<V>(a: seq<Operation<V>>, b: seq<Operation<V>>, order: seq<nat>)
    requires forall i :: 0 <= i < |order| ==>
              order[i] < |a| && Called(b, a[order[i]].call) && b[Locate(b, a[order[i]].call)] == a[order[i]]
    requires RespectsTime(a, order)
    ensures RespectsTime(b, Moved(a, b, order))
  {
  }

  lemma {:induction false} SameEventsLinearizable<S, V>(
    m: Model<S, V>, events: seq<Event<V>>, a: seq<Operation<V>>, b: seq<Operation<V>>, order: seq<nat>)
    requires Matched(events) && IsHistoryOf(events, a) && IsHistoryOf(events, b) && Completes(m, a, {}, m.init, order)
    ensures Linearizable(m, b)
  {
    forall k: nat | k < |a|
      ensures Called(b, a[k].call) && b[Locate(b, a[k].call)] == a[k]
    {
      SameOperation(events, a, b, k);
    }
    var moved := Moved(a, b, order);
    MovedIsOrder(events, a, b, order);
    AcceptsSame(m, a, order, b, moved, m.init);
    MovedRespectsTime(a, b, order);
    assert Completes(m, b, {}, m.init, moved);
  }

  lemma {:induction false} EventsDecide<S, V>(m: Model<S, V>, events: seq<Event<V>>, a: seq<Operation<V>>,
                                              b: seq<Operation<V>>)
    requires Matched(events) && IsHistoryOf(events, a) && IsHistoryOf(events, b)
    ensures Linearizable(m, a) ==> Linearizable(m, b)
  {
    if Linearizable(m, a) {
      var order :| Completes(m, a, {}, m.init, order);
      SameEventsLinearizable(m, events, a, b, order);
    }
  }

  /** Checks a list of events as one history. */
  method CheckEvents<S(!new), V(!new, 0)>(m: Model<S, V>, events: seq<Event<V>>) returns (ok: bool)
    requires Congruent(m) && Matched(events)
    ensures exists ops :: IsHistoryOf(events, ops)
    ensures forall ops :: IsHistoryOf(events, ops) ==> (ok <==> Linearizable(m, ops))
  {
    var e, n := Renumber(events);
    RenumberedPaired(events, e, n);
    PositionsOfEvents(events, e, n);
    var entries := ConvertEntries(e);
    var root, nodes := MakeLinkedEntries(entries);
    PairedRepresents(entries, n, nodes);
    ghost var mine := Positions(entries, n);
    ghost var placed;
    ok, placed := CheckSingle(m, root, nodes, mine);
    forall ops | IsHistoryOf(events, ops)
      ensures ok <==> Linearizable(m, ops)
    {
      EventsDecide(m, events, mine, ops);
      EventsDecide(m, events, ops, mine);
    }
  }
}
