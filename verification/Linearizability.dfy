/**
 What it means for a history of operations to be linearizable, and the same
 notion as an exhaustive search over the sets of operations already placed.
 */
module Linearizability {

  /** One operation of a history with the times of its call and of its return. */
  datatype Operation<V> = Operation(input: V, call: int, output: V, ret: int)

  /** A sequential specification. `step` says whether the output fits and gives the next state. */
  datatype Model<!S, !V> = Model(init: S, step: (S, V, V) -> (bool, S), equal: (S, S) -> bool)

  /** The numbers below `n`. */
  function Below(n: nat): (r: set<nat>)
    ensures forall i: nat :: i in r <==> i < n
  {
    if n == 0 then {} else Below(n - 1) + {n - 1}
  }

  /** `order` lists every operation outside `done` exactly once. */
  ghost predicate IsOrderOf<V>(h: seq<Operation<V>>, done: set<nat>, order: seq<nat>) {
    && (forall i, j :: 0 <= i < j < |order| ==> order[i] != order[j])
    && (forall i :: 0 <= i < |order| ==> order[i] < |h| && order[i] !in done)
    && (forall id: nat :: id < |h| && id !in done ==> id in order)
  }

  /** No operation is placed before one that had already returned when it was called. */
  ghost predicate RespectsTime<V>(h: seq<Operation<V>>, order: seq<nat>)
    requires forall i :: 0 <= i < |order| ==> order[i] < |h|
  {
    forall i, j :: 0 <= i < j < |order| ==> !(h[order[j]].ret < h[order[i]].call)
  }

  function StepOf<S, V>(m: Model<S, V>, h: seq<Operation<V>>, s: S, id: nat): (bool, S)
    requires id < |h|
  {
    m.step(s, h[id].input, h[id].output)
  }

  /** The model accepts the operations one after the other from state `s`. */
  predicate Accepts<S, V>(m: Model<S, V>, h: seq<Operation<V>>, s: S, order: seq<nat>)
    requires forall i :: 0 <= i < |order| ==> order[i] < |h|
  {
    order == [] || (StepOf(m, h, s, order[0]).0 && Accepts(m, h, StepOf(m, h, s, order[0]).1, order[1..]))
  }

  /** Acceptance depends only on the inputs and outputs met along the way. */
  lemma {:induction false} AcceptsSame<S, V>(
    m: Model<S, V>, g: seq<Operation<V>>, p: seq<nat>, h: seq<Operation<V>>, q: seq<nat>, s: S)
    requires |p| == |q| && forall i :: 0 <= i < |p| ==> p[i] < |g| && q[i] < |h|
    requires forall i :: 0 <= i < |p| ==> g[p[i]].input == h[q[i]].input && g[p[i]].output == h[q[i]].output
    ensures Accepts(m, g, s, p) <==> Accepts(m, h, s, q)
    decreases |p|
  {
    if p != [] {
      AcceptsSame(m, g, p[1..], h, q[1..], StepOf(m, g, s, p[0]).1);
    }
  }

  /** The state reached by placing the operations one after the other. */
  function StateAfter<S, V>(m: Model<S, V>, h: seq<Operation<V>>, s: S, order: seq<nat>): S
    requires forall i :: 0 <= i < |order| ==> order[i] < |h|
  {
    if order == [] then s else StateAfter(m, h, StepOf(m, h, s, order[0]).1, order[1..])
  }

  lemma {:induction false} AcceptsConcat<S, V>(m: Model<S, V>, h: seq<Operation<V>>, s: S, p: seq<nat>, q: seq<nat>)
    requires (forall i :: 0 <= i < |p| ==> p[i] < |h|) && (forall i :: 0 <= i < |q| ==> q[i] < |h|)
    ensures Accepts(m, h, s, p + q) <==> Accepts(m, h, s, p) && Accepts(m, h, StateAfter(m, h, s, p), q)
    ensures StateAfter(m, h, s, p + q) == StateAfter(m, h, StateAfter(m, h, s, p), q)
    decreases |p|
  {
    if p == [] {
      assert p + q == q;
    } else {
      assert (p + q)[1..] == p[1..] + q;
      AcceptsConcat(m, h, StepOf(m, h, s, p[0]).1, p[1..], q);
    }
  }

  /** `order` completes a run that has placed `done` and reached `s`. */
  ghost predicate Completes<S, V>(m: Model<S, V>, h: seq<Operation<V>>, done: set<nat>, s: S, order: seq<nat>) {
    IsOrderOf(h, done, order) && RespectsTime(h, order) && Accepts(m, h, s, order)
  }

  ghost predicate Linearizable<S, V>(m: Model<S, V>, h: seq<Operation<V>>) {
    exists order :: Completes(m, h, {}, m.init, order)
  }

  // ----- the same, as a search -----

  /** No other operation outside `done` had returned when `id` was called. */
  ghost predicate Ready<V>(h: seq<Operation<V>>, done: set<nat>, id: nat) {
    && id < |h| && id !in done
    && (forall k: nat :: k < |h| && k !in done && k != id ==> !(h[k].ret < h[id].call))
  }

  ghost predicate Completable<S, V>(m: Model<S, V>, h: seq<Operation<V>>, done: set<nat>, s: S)
    decreases Below(|h|) - done
  {
    || Below(|h|) <= done
    || exists id: nat ::
         && Ready(h, done, id) && StepOf(m, h, s, id).0
         && (assert id in Below(|h|) - done && id !in Below(|h|) - (done + {id});
             Completable(m, h, done + {id}, StepOf(m, h, s, id).1))
  }

  lemma {:induction false} OrderGivesCompletable<S, V>(
    m: Model<S, V>, h: seq<Operation<V>>, done: set<nat>, s: S, order: seq<nat>)
    requires Completes(m, h, done, s, order)
    ensures Completable(m, h, done, s) == true
    decreases |order|
  {
    if order != [] {
      var id := order[0];
      assert Ready(h, done, id);
      forall k: nat | k < |h| && k !in done + {id}
        ensures k in order[1..]
      {
        assert k in order;
      }
      OrderGivesCompletable(m, h, done + {id}, StepOf(m, h, s, id).1, order[1..]);
    }
  }

  lemma PrependReady<V>(h: seq<Operation<V>>, done: set<nat>, id: nat, rest: seq<nat>)
    requires Ready(h, done, id)
    requires IsOrderOf(h, done + {id}, rest) && RespectsTime(h, rest)
    ensures IsOrderOf(h, done, [id] + rest) && RespectsTime(h, [id] + rest)
  {
    var order := [id] + rest;
    forall k: nat | k < |h| && k !in done
      ensures k in order
    {
      assert k == id || k in rest;
    }
  }

  lemma {:induction false} CompletableGivesOrder<S, V>(
    m: Model<S, V>, h: seq<Operation<V>>, done: set<nat>, s: S) returns (order: seq<nat>)
    requires Completable(m, h, done, s)
    ensures Completes(m, h, done, s, order) == true
    decreases Below(|h|) - done
  {
    if Below(|h|) <= done {
      order := [];
    } else {
      var id: nat :| Ready(h, done, id) && StepOf(m, h, s, id).0
                     && Completable(m, h, done + {id}, StepOf(m, h, s, id).1);
      assert id in Below(|h|) - done && id !in Below(|h|) - (done + {id});
      var rest := CompletableGivesOrder(m, h, done + {id}, StepOf(m, h, s, id).1);
      PrependReady(h, done, id, rest);
      order := [id] + rest;
      assert order[1..] == rest;
    }
  }

  /** The search finds a completion exactly when the history is linearizable. */
  lemma SearchDecidesLinearizable<S, V>(m: Model<S, V>, h: seq<Operation<V>>)
    ensures Linearizable(m, h) <==> Completable(m, h, {}, m.init)
  {
    if Linearizable(m, h) {
      var order :| Completes(m, h, {}, m.init, order);
      OrderGivesCompletable(m, h, {}, m.init, order);
    }
    if Completable(m, h, {}, m.init) {
      var order := CompletableGivesOrder(m, h, {}, m.init);
    }
  }

  // ----- the model's equality -----

  /** States that `equal` relates accept the same steps and stay related. */
  ghost predicate Congruent<S(!new), V(!new)>(m: Model<S, V>) {
    forall a: S, b: S, v: V, w: V {:trigger m.step(a, v, w), m.equal(a, b)} ::
      m.equal(a, b) && m.step(a, v, w).0 ==>
        m.step(b, v, w).0 && m.equal(m.step(a, v, w).1, m.step(b, v, w).1)
  }

  lemma {:induction false} EqualStatesComplete<S(!new), V(!new)>(
    m: Model<S, V>, h: seq<Operation<V>>, done: set<nat>, a: S, b: S)
    requires Congruent(m) && m.equal(a, b) && Completable(m, h, done, a)
    ensures Completable(m, h, done, b)
    decreases Below(|h|) - done
  {
    if !(Below(|h|) <= done) {
      var id: nat :| Ready(h, done, id) && StepOf(m, h, a, id).0
                     && Completable(m, h, done + {id}, StepOf(m, h, a, id).1);
      assert id in Below(|h|) - done && id !in Below(|h|) - (done + {id});
      EqualStatesComplete(m, h, done + {id}, StepOf(m, h, a, id).1, StepOf(m, h, b, id).1);
    }
  }
}
