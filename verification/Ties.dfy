/**
 Why the times of a history must be proper. `makeEntries` sorts with an unstable sort, so entries with equal times may
 end in either order. The order of calls and returns is safe exactly when no return ties with a call, and so is the
 verdict, for all histories with the same times.
 */
module Ties {
  import opened Linearizability
  import opened Entries
  import opened KvModel

  /** One of the results the sort may give. */
  ghost predicate IsSorting<V>(h: seq<Operation<V>>, entries: seq<Entry<V>>) {
    SortedByTime(entries) && multiset(entries) == multiset(EntriesOf(h))
  }

  /** The list keeps the order of calls and returns of the history. */
  ghost predicate KeepsOrder<V>(h: seq<Operation<V>>, entries: seq<Entry<V>>) {
    Paired(entries, |h|) && SameOrder(Positions(entries, |h|), h)
  }

  lemma {:induction false} SortingExists<V>(s: seq<Entry<V>>) returns (r: seq<Entry<V>>)
    ensures SortedByTime(r) && multiset(r) == multiset(s)
  {
    if s == [] {
      r := [];
    } else {
      var n := |s| - 1;
      var front := SortingExists(s[..n]);
      InsertKeepsSorted(s[n], front);
      r := InsertByTime(s[n], front);
      assert s == s[..n] + [s[n]];
    }
  }

  function Swapped<T>(s: seq<T>, i: nat, j: nat): (r: seq<T>)
    requires i < j < |s|
    ensures |r| == |s| && multiset(r) == multiset(s)
  {
    assert s == s[..i] + [s[i]] + s[i + 1..j] + [s[j]] + s[j + 1..];
    s[..i] + [s[j]] + s[i + 1..j] + [s[i]] + s[j + 1..]
  }

  lemma {:induction false} SwapKeepsSorted<V>(s: seq<Entry<V>>, i: nat, j: nat)
    requires SortedByTime(s) && i < j < |s| && s[i].time == s[j].time
    ensures SortedByTime(Swapped(s, i, j))
  {
    var r := Swapped(s, i, j);
    forall k | 0 <= k < |s|
      ensures r[k].time == s[k].time
    {
    }
  }

  /** The return of `a` is at place `r`, before the call of `b` at place `c`. */
  ghost predicate ReturnsBefore<V>(entries: seq<Entry<V>>, a: nat, r: nat, b: nat, c: nat) {
    && r < c < |entries| && entries[r].isReturn && !entries[c].isReturn
    && entries[r].id == a && entries[c].id == b
  }

  /** A return that does not come after a call can be sorted before it. */
  lemma {:induction false} ReturnFirst<V>(h: seq<Operation<V>>, a: nat, b: nat)
    returns (entries: seq<Entry<V>>, r: nat, c: nat)
    requires a < |h| && b < |h| && h[a].ret <= h[b].call
    ensures IsSorting(h, entries) == true && ReturnsBefore(entries, a, r, b, c) == true
  {
    entries := SortingExists(EntriesOf(h));
    FindEntry(h, entries, a, true);
    FindEntry(h, entries, b, false);
    r, c := Find(entries, true, a, 0), Find(entries, false, b, 0);
    if c < r {
      SwapKeepsSorted(entries, c, r);
      entries := Swapped(entries, c, r);
      r, c := c, r;
    }
  }

  /** What a return before a call means for the history that is searched. */
  lemma {:induction false} ReturnFirstOrders<V>(entries: seq<Entry<V>>, n: nat, a: nat, r: nat, b: nat, c: nat)
    requires Paired(entries, n) && ReturnsBefore(entries, a, r, b, c)
    ensures a != b && Positions(entries, n)[a].ret < Positions(entries, n)[b].call
  {
    OnlyOne(entries, n, r);
    OnlyOne(entries, n, c);
  }

  /** The two operations tie, or one operation returns too early. */
  ghost predicate Offends<V>(h: seq<Operation<V>>, a: nat, b: nat) {
    && a < |h| && b < |h| && h[a].ret <= h[b].call
    && (a != b ==> CallsFirst(h) && h[a].ret == h[b].call)
  }

  lemma {:induction false} Improper<V>(h: seq<Operation<V>>) returns (a: nat, b: nat)
    requires !ProperTimes(h)
    ensures Offends(h, a, b) == true
  {
    if CallsFirst(h) {
      a, b :| a < |h| && b < |h| && h[a].ret == h[b].call;
    } else {
      a :| a < |h| && h[a].ret <= h[a].call;
      b := a;
    }
  }

  /** Every possible result of the sort keeps the order exactly when the times are proper. */
  lemma {:induction false} OrderIsSafeIffProper<V(!new)>(h: seq<Operation<V>>)
    ensures (forall entries :: IsSorting(h, entries) ==> KeepsOrder(h, entries)) <==> ProperTimes(h)
  {
    if ProperTimes(h) {
      forall entries | IsSorting(h, entries)
        ensures KeepsOrder(h, entries)
      {
        SortingKeepsOrder(h, entries);
      }
    } else {
      var a, b := Improper(h);
      var entries, r, c := ReturnFirst(h, a, b);
      if Paired(entries, |h|) {
        ReturnFirstOrders(entries, |h|, a, r, b, c);
      }
    }
  }

  // ----- the verdict -----

  ghost predicate SameTimes<V>(g: History, h: seq<Operation<V>>) {
    |g| == |h| && forall i :: 0 <= i < |g| ==> g[i].call == h[i].call && g[i].ret == h[i].ret
  }

  /** The list can be searched, and the search gives the verdict on the history. */
  ghost predicate VerdictKept(g: History, entries: seq<Entry<Value>>) {
    Paired(entries, |g|) && (Linearizable(Register(), Positions(entries, |g|)) <==> Linearizable(Register(), g))
  }

  /** Operation `a` puts a value, `b` reads, and the others append nothing. */
  function InputOf(i: nat, a: nat, b: nat): Value {
    if i == a then KvInput(1, "k", "x") else KvInput(if i == b then 0 else 2, "k", "")
  }

  ghost predicate PutMeetsGet(g: History, a: nat, b: nat) {
    && a < |g| && b < |g| && a != b
    && forall i :: 0 <= i < |g| ==> g[i].input == InputOf(i, a, b) && g[i].output == KvOutput("")
  }

  function PutAndGet<V>(h: seq<Operation<V>>, a: nat, b: nat): (g: History)
    ensures SameTimes(g, h)
    ensures a < |h| && b < |h| && a != b ==> PutMeetsGet(g, a, b)
  {
    seq(|h|, i requires 0 <= i < |h| => Operation(InputOf(i, a, b), h[i].call, KvOutput(""), h[i].ret))
  }

  lemma {:induction false} EarliestCall<V>(h: seq<Operation<V>>, ids: set<nat>) returns (id: nat)
    requires ids != {} && forall k :: k in ids ==> k < |h|
    ensures id in ids && forall k :: k in ids ==> h[id].call <= h[k].call
    decreases ids
  {
    id :| id in ids;
    if ids != {id} {
      var rest := ids - {id};
      var first := EarliestCall(h, rest);
      id := if h[first].call < h[id].call then first else id;
    }
  }

  /** While the get is not placed, the earliest call but the put's can be placed; then the earliest of all. */
  lemma {:induction false} NextReady(g: History, a: nat, b: nat, done: set<nat>) returns (id: nat)
    requires a < |g| && b < |g| && a != b && CallsFirst(g) && g[a].ret == g[b].call && !(Below(|g|) <= done)
    ensures Ready(g, done, id) == true && (b !in done ==> id != a)
  {
    var left := Below(|g|) - done;
    var ids := if b in done then left else left - {a};
    assert b !in done ==> b in ids;
    id := EarliestCall(g, ids);
  }

  lemma {:induction false} PutOrNothing(g: History, a: nat, b: nat, s: string, id: nat)
    requires PutMeetsGet(g, a, b) && id < |g| && (id == b ==> s == "")
    ensures StepOf(Register(), g, s, id) == (true, if id == a then "x" else s)
  {
    assert s + "" == s;
  }

  /** The get can be placed before the put that returns as it is called. */
  lemma {:induction false} GetGoesFirst(g: History, a: nat, b: nat, done: set<nat>)
    requires PutMeetsGet(g, a, b) && CallsFirst(g) && g[a].ret == g[b].call && (a in done ==> b in done)
    ensures Completable(Register(), g, done, if a in done then "x" else "") == true
    decreases Below(|g|) - done
  {
    if !(Below(|g|) <= done) {
      var id := NextReady(g, a, b, done);
      PutOrNothing(g, a, b, if a in done then "x" else "", id);
      assert id in Below(|g|) - done && id !in Below(|g|) - (done + {id});
      GetGoesFirst(g, a, b, done + {id});
    }
  }

  /** Once the put is placed the get cannot read nothing. */
  lemma {:induction false} GetTooLate(g: History, a: nat, b: nat, s: string, order: seq<nat>)
    requires PutMeetsGet(g, a, b) && s != "" && b in order
    requires forall i :: 0 <= i < |order| ==> order[i] < |g| && order[i] != a
    ensures !Accepts(Register(), g, s, order)
    decreases |order|
  {
    if order[0] != b {
      assert s + "" == s;
      GetTooLate(g, a, b, s, order[1..]);
    }
  }

  lemma {:induction false} PutGoesFirst(g: History, a: nat, b: nat, s: string, order: seq<nat>, i: nat, j: nat)
    requires PutMeetsGet(g, a, b) && i < j < |order| && order[i] == a && order[j] == b
    requires forall k :: 0 <= k < |order| ==> order[k] < |g|
    requires forall k, l :: 0 <= k < l < |order| ==> order[k] != order[l]
    ensures !Accepts(Register(), g, s, order)
    decreases |order|
  {
    if i == 0 {
      assert order[1..][j - 1] == b;
      GetTooLate(g, a, b, "x", order[1..]);
    } else {
      PutGoesFirst(g, a, b, StepOf(Register(), g, s, order[0]).1, order[1..], i - 1, j - 1);
    }
  }

  /** If the list separates the two, the get must come second. */
  lemma {:induction false} RejectedOnceSeparate(h: History, g: History, a: nat, b: nat)
    requires PutMeetsGet(h, a, b) && Stricter(g, h) && g[a].ret < g[b].call
    ensures !Linearizable(Register(), g)
  {
    assert PutMeetsGet(g, a, b);
    forall order | IsOrderOf(g, {}, order) && RespectsTime(g, order)
      ensures !Accepts(Register(), g, "", order)
    {
      assert a in order && b in order;
      var i: nat, j: nat :| i < |order| && j < |order| && order[i] == a && order[j] == b;
      PutGoesFirst(g, a, b, "", order, i, j);
    }
  }

  lemma {:induction false} SortedReturnFirst(g: History, a: nat, b: nat, entries: seq<Entry<Value>>, r: nat, c: nat)
    requires PutMeetsGet(g, a, b) && CallsFirst(g) && IsSorting(g, entries) && ReturnsBefore(entries, a, r, b, c)
    ensures Paired(entries, |g|) == true && !Linearizable(Register(), Positions(entries, |g|))
  {
    SortingKeepsPrecedence(g, entries);
    ReturnFirstOrders(entries, |g|, a, r, b, c);
    RejectedOnceSeparate(g, Positions(entries, |g|), a, b);
  }

  /** A tie can turn the verdict: the history is linearizable, but sorted with the return first it is rejected. */
  lemma {:induction false} TieTurnsVerdict<V>(h: seq<Operation<V>>, a: nat, b: nat)
    returns (g: History, entries: seq<Entry<Value>>)
    requires CallsFirst(h) && a < |h| && b < |h| && a != b && h[a].ret == h[b].call
    ensures SameTimes(g, h) == true && IsSorting(g, entries) == true && Paired(entries, |g|) == true
    ensures Linearizable(Register(), g) && !Linearizable(Register(), Positions(entries, |g|))
  {
    g := PutAndGet(h, a, b);
    GetGoesFirst(g, a, b, {});
    SearchDecidesLinearizable(Register(), g);
    var r, c;
    entries, r, c := ReturnFirst(g, a, b);
    SortedReturnFirst(g, a, b, entries, r, c);
  }

  /**
   The verdict on every history with these times is right, whatever the sort does with ties, exactly when the times are
   proper.
   */
  lemma {:induction false} VerdictIsSafeIffProper<V>(h: seq<Operation<V>>)
    ensures (forall g: History, entries :: SameTimes(g, h) && IsSorting(g, entries) ==> VerdictKept(g, entries))
            <==> ProperTimes(h)
  {
    if ProperTimes(h) {
      forall g: History, entries | SameTimes(g, h) && IsSorting(g, entries)
        ensures VerdictKept(g, entries)
      {
        SortingKeepsOrder(g, entries);
        SameOrderBothWays(Register(), Positions(entries, |g|), g);
      }
    } else {
      var a, b := Improper(h);
      if a != b {
        var g, entries := TieTurnsVerdict(h, a, b);
        assert !VerdictKept(g, entries);
      } else {
        var g := PutAndGet(h, a, a);
        var entries, r, c := ReturnFirst(g, a, a);
        if Paired(entries, |g|) {
          ReturnFirstOrders(entries, |g|, a, r, a, c);
        }
        assert !VerdictKept(g, entries);
      }
    }
  }
}
