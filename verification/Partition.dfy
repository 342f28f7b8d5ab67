/**
 `KvModel`'s `Partition`, and why checking the partitions one by one decides
 linearizability of the whole store.
 */
module Partition {
  import opened Common
  import opened Linearizability
  import opened KvModel

  /** The operations on `key`, in the order of the history. */
  function Restrict(h: History, key: string): (r: History) {
    if h == [] then []
    else if KeyOf(h, |h| - 1) == key then Restrict(h[..|h| - 1], key) + [h[|h| - 1]]
    else Restrict(h[..|h| - 1], key)
  }

  /** Where those operations are in the history. */
  function Places(h: History, key: string): (r: seq<nat>)
    ensures |r| == |Restrict(h, key)|
    ensures forall i :: 0 <= i < |r| ==> r[i] < |h| && KeyOf(h, r[i]) == key && h[r[i]] == Restrict(h, key)[i]
    ensures forall i, j :: 0 <= i < j < |r| ==> r[i] < r[j]
  {
    if h == [] then []
    else if KeyOf(h, |h| - 1) == key then Places(h[..|h| - 1], key) + [|h| - 1]
    else Places(h[..|h| - 1], key)
  }

  lemma {:induction false} EveryPlace(h: History, key: string, id: nat)
    requires id < |h| && KeyOf(h, id) == key
    ensures id in Places(h, key)
  {
    if id < |h| - 1 {
      EveryPlace(h[..|h| - 1], key, id);
    }
  }

  function IndexOf(s: seq<nat>, x: nat): (i: nat)
    requires x in s
    ensures i < |s| && s[i] == x
  {
    if s[0] == x then 0 else 1 + IndexOf(s[1..], x)
  }

  /** An order of the partition, as positions in the whole history. */
  ghost function Widened(h: History, key: string, order: seq<nat>): (mine: seq<nat>)
    requires forall i :: 0 <= i < |order| ==> order[i] < |Restrict(h, key)|
    ensures |mine| == |order|
    ensures forall i :: 0 <= i < |order| ==> mine[i] == Places(h, key)[order[i]]
  {
    seq(|order|, i requires 0 <= i < |order| => Places(h, key)[order[i]])
  }

  lemma {:induction false} WidenedIsKeyOrder(h: History, key: string, order: seq<nat>)
    requires IsOrderOf(Restrict(h, key), {}, order)
    ensures IsKeyOrder(h, key, {}, Widened(h, key, order))
  {
    var places, mine := Places(h, key), Widened(h, key, order);
    forall id: nat | id < |h| && KeyOf(h, id) == key
      ensures id in mine
    {
      EveryPlace(h, key, id);
      var p := IndexOf(places, id);
      assert p in order;
      assert mine[IndexOf(order, p)] == id;
    }
  }

  lemma {:induction false} PartitionOrderIsKeyOrder(h: History, key: string, order: seq<nat>)
    requires Completes(Register(), Restrict(h, key), {}, "", order)
    ensures KeyCompletes(h, key, {}, "", Widened(h, key, order)) == true
  {
    WidenedIsKeyOrder(h, key, order);
    AcceptsSame(Register(), Restrict(h, key), order, h, Widened(h, key, order), "");
  }

  /** An order of the key's operations, as positions in the partition. */
  ghost function Narrowed(h: History, key: string, mine: seq<nat>): (order: seq<nat>)
    requires forall i :: 0 <= i < |mine| ==> mine[i] in Places(h, key)
    ensures |order| == |mine|
    ensures forall i :: 0 <= i < |mine| ==> order[i] < |Restrict(h, key)| && mine[i] == Places(h, key)[order[i]]
  {
    seq(|mine|, i requires 0 <= i < |mine| => IndexOf(Places(h, key), mine[i]))
  }

  lemma {:induction false} KeyOrderHasPlaces(h: History, key: string, mine: seq<nat>)
    requires IsKeyOrder(h, key, {}, mine)
    ensures forall i :: 0 <= i < |mine| ==> mine[i] in Places(h, key)
  {
    forall i | 0 <= i < |mine|
      ensures mine[i] in Places(h, key)
    {
      EveryPlace(h, key, mine[i]);
    }
  }

  lemma {:induction false} NarrowedIsOrder(h: History, key: string, mine: seq<nat>)
    requires IsKeyOrder(h, key, {}, mine) && forall i :: 0 <= i < |mine| ==> mine[i] in Places(h, key)
    ensures IsOrderOf(Restrict(h, key), {}, Narrowed(h, key, mine))
  {
    var places, order := Places(h, key), Narrowed(h, key, mine);
    forall p: nat | p < |places|
      ensures p in order
    {
      assert places[p] in mine;
      assert order[IndexOf(mine, places[p])] == p;
    }
  }

  lemma {:induction false} KeyOrderIsPartitionOrder(h: History, key: string, mine: seq<nat>)
    requires KeyCompletes(h, key, {}, "", mine)
    ensures Linearizable(Register(), Restrict(h, key))
  {
    KeyOrderHasPlaces(h, key, mine);
    NarrowedIsOrder(h, key, mine);
    var order := Narrowed(h, key, mine);
    AcceptsSame(Register(), Restrict(h, key), order, h, mine, "");
    assert Completes(Register(), Restrict(h, key), {}, "", order);
  }

  /** Every partition, checked on its own against one key's value, is linearizable. */
  ghost predicate PartitionsLinearizable(h: History) {
    forall id: nat :: id < |h| ==> Linearizable(Register(), Restrict(h, KeyOf(h, id)))
  }

  lemma {:induction false} PartitionHasKeyOrder(h: History, key: string) returns (mine: seq<nat>)
    requires Linearizable(Register(), Restrict(h, key))
    ensures KeyCompletes(h, key, {}, "", mine) == true
  {
    var order :| Completes(Register(), Restrict(h, key), {}, Register().init, order);
    PartitionOrderIsKeyOrder(h, key, order);
    mine := Widened(h, key, order);
  }

  /** `orders` completes every key of the first `n` operations. */
  ghost predicate OrdersUpTo(h: History, n: nat, orders: map<string, seq<nat>>)
    requires n <= |h|
  {
    forall id: nat :: id < n ==> KeyComplete(h, {}, map[], orders, KeyOf(h, id))
  }

  lemma {:induction false} SameOrderForKey(h: History, orders: map<string, seq<nat>>, more: map<string, seq<nat>>,
                                           key: string)
    requires KeyComplete(h, {}, map[], orders, key) && key in more && more[key] == orders[key]
    ensures KeyComplete(h, {}, map[], more, key) == true
  {
  }

  lemma {:induction false} AddOrder(h: History, n: nat, orders: map<string, seq<nat>>, mine: seq<nat>)
    requires n < |h| && OrdersUpTo(h, n, orders) == true && KeyCompletes(h, KeyOf(h, n), {}, "", mine) == true
    ensures OrdersUpTo(h, n + 1, orders[KeyOf(h, n) := mine]) == true
  {
    forall id: nat | id < n + 1
      ensures KeyComplete(h, {}, map[], orders[KeyOf(h, n) := mine], KeyOf(h, id))
    {
      if KeyOf(h, id) != KeyOf(h, n) {
        SameOrderForKey(h, orders, orders[KeyOf(h, n) := mine], KeyOf(h, id));
      }
    }
  }

  lemma {:induction false} OrdersOfKeys(h: History, n: nat) returns (orders: map<string, seq<nat>>)
    requires n <= |h| && PartitionsLinearizable(h)
    ensures OrdersUpTo(h, n, orders) == true
  {
    if n == 0 {
      orders := map[];
    } else {
      orders := OrdersOfKeys(h, n - 1);
      var key := KeyOf(h, n - 1);
      var mine := PartitionHasKeyOrder(h, key);
      AddOrder(h, n - 1, orders, mine);
      orders := orders[key := mine];
    }
  }

  /** Locality: the whole history is linearizable exactly when every key's partition is. */
  lemma {:induction false} Locality(h: History)
    requires Typed(h)
    ensures Linearizable(Store(), h) <==> PartitionsLinearizable(h)
  {
    if Linearizable(Store(), h) {
      var order :| Completes(Store(), h, {}, Store().init, order);
      forall id: nat | id < |h|
        ensures Linearizable(Register(), Restrict(h, KeyOf(h, id)))
      {
        var mine := ProjectKey(h, KeyOf(h, id), {}, map[], order);
        KeyOrderIsPartitionOrder(h, KeyOf(h, id), mine);
      }
    }
    if PartitionsLinearizable(h) {
      var orders := OrdersOfKeys(h, |h|);
      MergeKeys(h, {}, map[], orders);
      SearchDecidesLinearizable(Store(), h);
    }
  }

  // ----- without a partition -----

  lemma {:induction false} OneKeyIsItsPartition(h: History, key: string)
    requires forall id: nat :: id < |h| ==> KeyOf(h, id) == key
    ensures Restrict(h, key) == h
  {
    if h != [] {
      var front := h[..|h| - 1];
      assert forall id: nat :: id < |front| ==> KeyOf(front, id) == KeyOf(h, id);
      OneKeyIsItsPartition(front, key);
      assert h == front + [h[|h| - 1]];
    }
  }

  /** `KvModel` has no partition of events: unpartitioned histories are judged rightly when they use one key. */
  lemma {:induction false} OneKeyNeedsNoPartition(h: History, key: string)
    requires Typed(h) && forall id: nat :: id < |h| ==> KeyOf(h, id) == key
    ensures Linearizable(Store(), h) <==> Linearizable(Register(), h)
  {
    Locality(h);
    OneKeyIsItsPartition(h, key);
    if h == [] {
      assert Completes(Register(), h, {}, "", []);
    } else {
      assert KeyOf(h, 0) == key;
    }
  }

  lemma {:induction false} PutThenRead(h: History, k: string, l: string)
    requires k != l
    requires h == [Operation(KvInput(1, k, "x"), 0, KvOutput(""), 1), Operation(KvInput(0, l, ""), 2, KvOutput(""), 3)]
    ensures Linearizable(Store(), h)
  {
    var order := [0, 1];
    assert order[1..] == [1] && order[1..][1..] == [];
    assert Accepts(Store(), h, StepOf(Store(), h, map[], 0).1, [1]);
    assert Completes(Store(), h, {}, map[], order);
  }

  ghost predicate KeysWithin(h: History, keys: set<string>) {
    forall id: nat :: id < |h| ==> KeyOf(h, id) in keys
  }

  /** For any two keys the verdict can be wrong: a put to the one followed by an empty read of the other. */
  lemma {:induction false} TwoKeysNeedPartition(k: string, l: string) returns (h: History)
    requires k != l
    ensures Typed(h) == true && KeysWithin(h, {k, l}) == true
    ensures Linearizable(Store(), h) && !Linearizable(Register(), h)
  {
    h := [Operation(KvInput(1, k, "x"), 0, KvOutput(""), 1), Operation(KvInput(0, l, ""), 2, KvOutput(""), 3)];
    PutThenRead(h, k, l);
    forall q | IsOrderOf(h, {}, q) && RespectsTime(h, q)
      ensures !Accepts(Register(), h, "", q)
    {
      assert 0 in q && 1 in q;
      assert q[0] == 0 && q[1] == 1;
      assert !Accepts(Register(), h, "x", q[1..]);
    }
  }

  /** Judging the history as if it had one key gives the verdict of the whole store. */
  ghost predicate JudgedRightly(h: History) {
    Linearizable(Store(), h) <==> Linearizable(Register(), h)
  }

  /** All histories over a set of keys are judged rightly without a partition exactly when there is at most one key. */
  lemma {:induction false} NoPartitionNeededIff(keys: set<string>)
    ensures (forall h: History :: Typed(h) && KeysWithin(h, keys) ==> JudgedRightly(h)) <==> |keys| <= 1
  {
    if |keys| <= 1 {
      forall h: History | Typed(h) && KeysWithin(h, keys)
        ensures JudgedRightly(h)
      {
        var key := if h == [] then "" else KeyOf(h, 0);
        forall id: nat | id < |h|
          ensures KeyOf(h, id) == key
        {
          if KeyOf(h, id) != key {
            SubsetSize({key, KeyOf(h, id)}, keys);
          }
        }
        OneKeyNeedsNoPartition(h, key);
      }
    } else {
      var k :| k in keys;
      assert |keys - {k}| > 0;
      var l :| l in keys - {k};
      var h := TwoKeysNeedPartition(k, l);
      assert KeysWithin(h, keys) && !JudgedRightly(h);
    }
  }
}
