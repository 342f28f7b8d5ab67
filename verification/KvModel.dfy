/**
 The key/value model of the checker: a single key's value (`KvModel`), the
 whole store, and locality, which says that checking key by key is enough.
 */
module KvModel {
  import opened Common
  import opened Linearizability

  /** What the checker's `interface{}` values hold here. */
  datatype Value = KvInput(op: nat, key: string, value: string) | KvOutput(result: string)

  type History = seq<Operation<Value>>

  /** Inputs are inputs, outputs are outputs (the type assertions of `Step` succeed), and calls come before returns. */
  ghost predicate Typed(h: History) {
    forall i :: 0 <= i < |h| ==> h[i].input.KvInput? && h[i].output.KvOutput? && h[i].call <= h[i].ret
  }

  /** One key's value: 0 is get, 1 is put, everything else is append. */
  function KvStep(state: string, input: Value, output: Value): (bool, string) {
    if !input.KvInput? || !output.KvOutput? then (false, state)
    else if input.op == 0 then (output.result == state, state)
    else if input.op == 1 then (true, input.value)
    else (true, state + input.value)
  }

  function Register(): Model<string, Value> {
    Model("", (s: string, i: Value, o: Value) => KvStep(s, i, o), (s: string, t: string) => s == t)
  }

  /** The whole store: a key that was never written reads as the empty string. */
  function StoreStep(store: map<string, string>, input: Value, output: Value): (bool, map<string, string>) {
    if !input.KvInput? || !output.KvOutput? then (false, store)
    else if input.op == 0 then (output.result == Lookup(store, input.key), store)
    else if input.op == 1 then (true, store[input.key := input.value])
    else (true, store[input.key := Lookup(store, input.key) + input.value])
  }

  function Store(): Model<map<string, string>, Value> {
    Model(map[], (s: map<string, string>, i: Value, o: Value) => StoreStep(s, i, o),
          (s: map<string, string>, t: map<string, string>) => s == t)
  }

  function KeyOf(h: History, id: nat): string
    requires id < |h|
  {
    if h[id].input.KvInput? then h[id].input.key else ""
  }

  /** A step of the store is a step of the value under its key, and no other key changes. */
  lemma StoreStepIsLocal(h: History, store: map<string, string>, id: nat, key: string)
    requires Typed(h) && id < |h|
    ensures var next := StepOf(Store(), h, store, id);
            var one := StepOf(Register(), h, Lookup(store, KeyOf(h, id)), id);
            && next.0 == one.0
            && Lookup(next.1, key) == if key == KeyOf(h, id) then one.1 else Lookup(store, key)
  {
  }

  // ----- the operations of one key, inside the whole history -----

  /** `order` lists every operation on `key` outside `done` exactly once. */
  ghost predicate IsKeyOrder(h: History, key: string, done: set<nat>, order: seq<nat>) {
    && (forall i, j :: 0 <= i < j < |order| ==> order[i] != order[j])
    && (forall i :: 0 <= i < |order| ==> order[i] < |h| && order[i] !in done && KeyOf(h, order[i]) == key)
    && (forall id: nat :: id < |h| && id !in done && KeyOf(h, id) == key ==> id in order)
  }

  ghost predicate KeyCompletes(h: History, key: string, done: set<nat>, s: string, order: seq<nat>) {
    IsKeyOrder(h, key, done, order) && RespectsTime(h, order) && Accepts(Register(), h, s, order)
  }

  lemma {:induction false} PrependKey(h: History, key: string, done: set<nat>, s: string, id: nat, rest: seq<nat>)
    requires Ready(h, done, id) && KeyOf(h, id) == key && StepOf(Register(), h, s, id).0
    requires KeyCompletes(h, key, done + {id}, StepOf(Register(), h, s, id).1, rest)
    ensures KeyCompletes(h, key, done, s, [id] + rest) == true
  {
    var order := [id] + rest;
    assert order[1..] == rest;
    forall k: nat | k < |h| && k !in done && KeyOf(h, k) == key
      ensures k in order
    {
      assert k == id || k in rest;
    }
  }

  /** An order of the whole history holds an order of each key. */
  lemma {:induction false} ProjectKey(h: History, key: string, done: set<nat>, store: map<string, string>,
                                      order: seq<nat>)
    returns (mine: seq<nat>)
    requires Typed(h) && Completes(Store(), h, done, store, order)
    ensures KeyCompletes(h, key, done, Lookup(store, key), mine) == true
    decreases |order|
  {
    if order == [] {
      mine := [];
      return;
    }
    var id := order[0];
    var next := StepOf(Store(), h, store, id).1;
    forall k: nat | k < |h| && k !in done + {id}
      ensures k in order[1..]
    {
      assert k in order;
    }
    assert Ready(h, done, id);
    mine := ProjectKey(h, key, done + {id}, next, order[1..]);
    StoreStepIsLocal(h, store, id, key);
    if KeyOf(h, id) == key {
      PrependKey(h, key, done, Lookup(store, key), id, mine);
      mine := [id] + mine;
    }
  }

  lemma {:induction false} DropFirst(h: History, key: string, done: set<nat>, s: string, order: seq<nat>)
    requires KeyCompletes(h, key, done, s, order) && order != []
    ensures StepOf(Register(), h, s, order[0]).0
    ensures KeyCompletes(h, key, done + {order[0]}, StepOf(Register(), h, s, order[0]).1, order[1..]) == true
  {
    forall k: nat | k < |h| && k !in done + {order[0]} && KeyOf(h, k) == key
      ensures k in order[1..]
    {
      assert k in order;
    }
  }

  /** The operation outside `done` that returns first. */
  lemma {:induction false} FirstToReturn(h: History, done: set<nat>, n: nat) returns (r: nat)
    requires n <= |h| && exists k: nat :: k < n && k !in done
    ensures r < n && r !in done && forall k: nat :: k < n && k !in done ==> h[r].ret <= h[k].ret
    decreases n
  {
    if exists k: nat :: k < n - 1 && k !in done {
      r := FirstToReturn(h, done, n - 1);
      if n - 1 !in done && h[n - 1].ret < h[r].ret {
        r := n - 1;
      }
    } else {
      r := n - 1;
    }
  }

  ghost predicate KeyComplete(h: History, done: set<nat>, store: map<string, string>, orders: map<string, seq<nat>>,
                              key: string) {
    key in orders && KeyCompletes(h, key, done, Lookup(store, key), orders[key])
  }

  /** `orders` completes every key on its own. */
  ghost predicate AllKeysComplete(h: History, done: set<nat>, store: map<string, string>,
                                  orders: map<string, seq<nat>>) {
    forall id: nat :: id < |h| ==> KeyComplete(h, done, store, orders, KeyOf(h, id))
  }

  /** The head of the order of the key whose operation returns first of all can be placed next. */
  lemma {:induction false} HeadIsReady(h: History, done: set<nat>, key: string, order: seq<nat>, r: nat)
    requires Typed(h) && IsKeyOrder(h, key, done, order) && RespectsTime(h, order)
    requires r < |h| && r !in done && KeyOf(h, r) == key
    requires forall k: nat :: k < |h| && k !in done ==> h[r].ret <= h[k].ret
    ensures order != [] && Ready(h, done, order[0])
  {
    assert r in order;
  }

  /** Placing an operation of another key changes nothing for a key. */
  lemma {:induction false} OtherKeyStays(h: History, key: string, done: set<nat>, s: string, order: seq<nat>, id: nat)
    requires id < |h| && KeyOf(h, id) != key && KeyCompletes(h, key, done, s, order)
    ensures KeyCompletes(h, key, done + {id}, s, order) == true
  {
  }

  lemma {:induction false} CompleteWith(
    h: History, done: set<nat>, store: map<string, string>, orders: map<string, seq<nat>>, key: string, s: string)
    requires key in orders && Lookup(store, key) == s && KeyCompletes(h, key, done, s, orders[key]) == true
    ensures KeyComplete(h, done, store, orders, key) == true
  {
  }

  lemma {:induction false} PlacingKeepsKeys(
    h: History, done: set<nat>, store: map<string, string>, orders: map<string, seq<nat>>, id: nat, key: string)
    requires Typed(h) && id < |h|
    requires KeyComplete(h, done, store, orders, KeyOf(h, id)) && KeyComplete(h, done, store, orders, key)
    requires orders[KeyOf(h, id)] != [] && orders[KeyOf(h, id)][0] == id
    ensures StepOf(Store(), h, store, id).0
    ensures KeyComplete(h, done + {id}, StepOf(Store(), h, store, id).1,
                        orders[KeyOf(h, id) := orders[KeyOf(h, id)][1..]], key) == true
  {
    var mine := KeyOf(h, id);
    var next, rest := StepOf(Store(), h, store, id).1, orders[mine := orders[mine][1..]];
    StoreStepIsLocal(h, store, id, key);
    DropFirst(h, mine, done, Lookup(store, mine), orders[mine]);
    if key == mine {
      CompleteWith(h, done + {id}, next, rest, key, StepOf(Register(), h, Lookup(store, mine), id).1);
    } else {
      OtherKeyStays(h, key, done, Lookup(store, key), orders[key], id);
      CompleteWith(h, done + {id}, next, rest, key, Lookup(store, key));
    }
  }

  /** Orders of the single keys merge into one order of everything. */
  lemma {:induction false} MergeKeys(h: History, done: set<nat>, store: map<string, string>,
                                     orders: map<string, seq<nat>>)
    requires Typed(h) && AllKeysComplete(h, done, store, orders)
    ensures Completable(Store(), h, done, store)
    decreases Below(|h|) - done
  {
    if !(Below(|h|) <= done) {
      var r := FirstToReturn(h, done, |h|);
      var key := KeyOf(h, r);
      var order := orders[key];
      HeadIsReady(h, done, key, order, r);
      var id := order[0];
      var next, rest := StepOf(Store(), h, store, id).1, orders[key := order[1..]];
      forall k: nat | k < |h|
        ensures KeyComplete(h, done + {id}, next, rest, KeyOf(h, k)) == true
      {
        PlacingKeepsKeys(h, done, store, orders, id, KeyOf(h, k));
      }
      PlacingKeepsKeys(h, done, store, orders, id, key);
      assert id in Below(|h|) - done && id !in Below(|h|) - (done + {id});
      MergeKeys(h, done + {id}, next, rest);
    }
  }
}
