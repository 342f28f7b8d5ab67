/**
 How a leader finds where a follower's log agrees with its own: the conflict reply of `AppendEntries` and the reaction
 to it in `broadcastHeartbeat`. Logs are given by their terms; entry 0 is the guard at the snapshotted index.
 */
module Backup {
  import opened Common

  // ----- the two loops -----

  /** `k` is the first index after the guard of the run of equal terms that ends at `prev`. */
  ghost predicate StartsRun(terms: seq<int>, prev: nat, k: nat) {
    && 1 <= k <= prev < |terms| && (forall i :: k <= i <= prev ==> terms[i] == terms[prev])
    && (k == 1 || terms[k - 1] != terms[prev])
  }

  /** The comparison is at the first entry after the guard, and the guard has the same term. */
  predicate SearchPanics(terms: seq<int>, prev: nat) {
    prev == 1 && |terms| >= 2 && terms[0] == terms[1]
  }

  /**
   The follower's search for its first entry of the conflict term, at positions relative to the guard. `None` stands
   for the run-time panic of an index below the guard: it happens exactly when the guard and the first entry after it
   share the conflict term and the comparison is at that first entry.
   */
  method ConflictIndex(terms: seq<int>, prev: nat) returns (r: Option<nat>)
    requires 1 <= prev < |terms|
    ensures r.None? <==> SearchPanics(terms, prev)
    ensures r.Some? ==> StartsRun(terms, prev, r.value)
  {
    var conflictTerm := terms[prev];
    var k: int := prev;
    while true
      invariant 0 <= k <= prev && (k == 0 ==> prev == 1 && terms[0] == terms[1])
      invariant k >= 1 && prev > 1 ==> k > 1
      invariant forall i :: k <= i <= prev ==> terms[i] == conflictTerm
      decreases k
    {
      if k - 1 < 0 {
        return None;
      }
      if terms[k - 1] != conflictTerm {
        break;
      }
      k := k - 1;
      if k == 1 {
        break;
      }
    }
    return Some(k);
  }

  /** Where the leader goes on: after its last entry of the conflict term up to `prev`, or where the follower says. */
  ghost predicate IsNext(terms: seq<int>, prev: nat, conflictTerm: int, conflictIndex: int, next: int)
    requires prev <= |terms|
  {
    || (1 <= next <= prev && terms[next - 1] == conflictTerm &&
        forall i :: next <= i < prev ==> terms[i] != conflictTerm)
    || (next == conflictIndex && forall i :: 0 <= i < prev ==> terms[i] != conflictTerm)
  }

  /** The leader's log now ends before the entry that its search starts from. */
  predicate SearchBeyond(last: int, prev: nat, conflictTerm: int) {
    conflictTerm != -1 && prev > last + 1
  }

  /** The leader's search. */
  method NextIndex(terms: seq<int>, prev: nat, conflictTerm: int, conflictIndex: int) returns (next: int)
    requires prev <= |terms|
    ensures IsNext(terms, prev, conflictTerm, conflictIndex, next)
  {
    next := conflictIndex;
    var i := prev;
    while i >= 1
      invariant 0 <= i <= prev && next == conflictIndex
      invariant forall j :: i <= j < prev ==> terms[j] != conflictTerm
    {
      if terms[i - 1] == conflictTerm {
        return i;
      }
      i := i - 1;
    }
  }

  // ----- the exchange, as functions -----

  /** A log that was never truncated: a sentinel of term 0, then entries of positive, non-decreasing terms. */
  ghost predicate Plain(terms: seq<int>) {
    && |terms| >= 1 && terms[0] == 0 && (forall i :: 1 <= i < |terms| ==> terms[i] >= 1)
    && (forall i, j :: 0 <= i <= j < |terms| ==> terms[i] <= terms[j])
  }

  function RunStart(terms: seq<int>, prev: nat): (k: nat)
    requires 1 <= prev < |terms|
    ensures StartsRun(terms, prev, k)
    decreases prev
  {
    if prev == 1 || terms[prev - 1] != terms[prev] then prev else RunStart(terms, prev - 1)
  }

  function LastOf(terms: seq<int>, prev: nat, conflictTerm: int, conflictIndex: int): (next: int)
    requires prev <= |terms|
    ensures IsNext(terms, prev, conflictTerm, conflictIndex, next)
  {
    if prev == 0 then conflictIndex
    else if terms[prev - 1] == conflictTerm then prev
    else LastOf(terms, prev - 1, conflictTerm, conflictIndex)
  }

  /** One heartbeat: `None` if the follower accepts, otherwise the next index to try. */
  function Exchange(leader: seq<int>, follower: seq<int>, next: nat): Option<nat>
    requires Plain(leader) && Plain(follower) && 1 <= next <= |leader|
  {
    var prev := next - 1;
    if |follower| - 1 < prev then Some(|follower|)
    else if follower[prev] == leader[prev] then None
    else Some(LastOf(leader, prev, follower[prev], RunStart(follower, prev)))
  }

  /** The functions are what the loops compute. */
  lemma {:induction false} ResultsAreUnique(follower: seq<int>, leader: seq<int>, prev: nat, term: int, k: nat,
                                            next: int)
    requires 1 <= prev < |follower| && prev <= |leader| && StartsRun(follower, prev, k)
    requires IsNext(leader, prev, term, k, next)
    ensures k == RunStart(follower, prev) && next == LastOf(leader, prev, term, k)
  {
    var j := RunStart(follower, prev);
    assert forall i :: k <= i <= prev ==> follower[i] == follower[prev];
    assert forall i :: j <= i <= prev ==> follower[i] == follower[prev];
  }

  // ----- progress -----

  lemma {:induction false} NextDecreases(leader: seq<int>, follower: seq<int>, next: nat)
    requires Plain(leader) && Plain(follower) && 1 <= next <= |leader| && Exchange(leader, follower, next).Some?
    ensures 1 <= Exchange(leader, follower, next).value < next
  {
  }

  /** The leader passes over no entry on which the two logs agree: it never goes back further than it must. */
  lemma {:induction false} NothingSkipped(leader: seq<int>, follower: seq<int>, next: nat, j: nat)
    requires Plain(leader) && Plain(follower) && 1 <= next <= |leader| && Exchange(leader, follower, next).Some?
    requires Exchange(leader, follower, next).value <= j < next
    ensures j >= |follower| || follower[j] != leader[j]
  {
    var prev := next - 1;
    if prev < |follower| {
      var k, n := RunStart(follower, prev), Exchange(leader, follower, next).value;
      assert IsNext(leader, prev, follower[prev], k, n) && StartsRun(follower, prev, k);
      assert leader[n - 1] <= leader[j] && follower[j] <= follower[prev];
    }
  }

  /** After a conflict the follower accepts, or the next conflict is in an earlier term of the follower. */
  lemma {:induction false} ConflictTermDecreases(leader: seq<int>, follower: seq<int>, next: nat)
    requires Plain(leader) && Plain(follower) && 1 <= next <= |leader| && next <= |follower|
    requires Exchange(leader, follower, next).Some?
    ensures var n := Exchange(leader, follower, next).value;
            1 <= n < next && (Exchange(leader, follower, n).Some? ==> follower[n - 1] < follower[next - 1])
  {
    var prev := next - 1;
    var n := Exchange(leader, follower, next).value;
    var k := RunStart(follower, prev);
    assert follower[n - 1] <= follower[prev];
    if n == k && leader[n - 1] != follower[prev] {
      assert k == 1 || follower[k - 1] != follower[prev];
    }
  }

  function Rejections(leader: seq<int>, follower: seq<int>, next: nat): nat
    requires Plain(leader) && Plain(follower) && 1 <= next <= |leader|
  {
    match Exchange(leader, follower, next)
    case None => 0
    case Some(n) => NextDecreases(leader, follower, next); 1 + Rejections(leader, follower, n)
  }

  /** The terms of the first `k` entries. */
  function TermsUpTo(terms: seq<int>, k: nat): set<int>
    requires k < |terms|
  {
    if k == 0 then {} else TermsUpTo(terms, k - 1) + {terms[k]}
  }

  lemma {:induction false} TermsBound(terms: seq<int>, j: nat, k: nat)
    requires Plain(terms) && j <= k < |terms|
    ensures TermsUpTo(terms, j) <= TermsUpTo(terms, k)
    ensures forall t :: t in TermsUpTo(terms, j) ==> t <= terms[j]
    ensures k >= 1 ==> terms[k] in TermsUpTo(terms, k)
    decreases k
  {
    if j < k {
      TermsBound(terms, j, k - 1);
    } else if k > 0 {
      TermsBound(terms, k - 1, k - 1);
    }
  }

  lemma {:induction false} FewerTerms(terms: seq<int>, j: nat, k: nat)
    requires Plain(terms) && j < k < |terms| && terms[j] < terms[k]
    ensures |TermsUpTo(terms, j)| < |TermsUpTo(terms, k)|
  {
    TermsBound(terms, j, k);
    TermsBound(terms, k, k);
    var a, b := TermsUpTo(terms, j), TermsUpTo(terms, k);
    assert a <= b - {terms[k]};
    SubsetSize(a, b - {terms[k]});
  }

  lemma {:induction false} ConflictsBounded(leader: seq<int>, follower: seq<int>, next: nat)
    requires Plain(leader) && Plain(follower) && 1 <= next <= |leader| && next <= |follower|
    ensures Rejections(leader, follower, next) <= |TermsUpTo(follower, next - 1)|
    decreases next
  {
    if Exchange(leader, follower, next).Some? {
      var n := Exchange(leader, follower, next).value;
      ConflictTermDecreases(leader, follower, next);
      TermsBound(follower, next - 1, next - 1);
      if Exchange(leader, follower, n).Some? {
        ConflictsBounded(leader, follower, n);
        FewerTerms(follower, n - 1, next - 1);
      } else {
        assert |TermsUpTo(follower, next - 1)| > 0;
      }
    }
  }

  /** The number of rejections is at most the number of different terms in the follower's log, plus one. */
  lemma {:induction false} RejectionsBounded(leader: seq<int>, follower: seq<int>, next: nat)
    requires Plain(leader) && Plain(follower) && 1 <= next <= |leader|
    ensures Rejections(leader, follower, next) <= |TermsUpTo(follower, |follower| - 1)| + 1
  {
    if next <= |follower| {
      ConflictsBounded(leader, follower, next);
      TermsBound(follower, next - 1, |follower| - 1);
      SubsetSize(TermsUpTo(follower, next - 1), TermsUpTo(follower, |follower| - 1));
    } else {
      ConflictsBounded(leader, follower, |follower|);
    }
  }

  lemma {:induction false} NextDecreasesIfRejected(leader: seq<int>, follower: seq<int>, next: nat)
    requires Plain(leader) && Plain(follower) && 1 <= next <= |leader|
    ensures Exchange(leader, follower, next).Some? ==> 1 <= Exchange(leader, follower, next).value < next
  {
    if Exchange(leader, follower, next).Some? {
      NextDecreases(leader, follower, next);
    }
  }

  /** Heartbeats until the follower accepts, with the number of rejections on the way. */
  method Synchronise(leader: seq<int>, follower: seq<int>, start: nat) returns (next: nat, rejections: nat)
    requires Plain(leader) && Plain(follower) && 1 <= start <= |leader|
    ensures 1 <= next <= start && next <= |follower| && follower[next - 1] == leader[next - 1]
    ensures rejections <= |TermsUpTo(follower, |follower| - 1)| + 1
  {
    next, rejections := start, 0;
    while true
      invariant 1 <= next <= start
      invariant rejections + Rejections(leader, follower, next) == Rejections(leader, follower, start)
      decreases next
    {
      NextDecreasesIfRejected(leader, follower, next);
      var prev := next - 1;
      if |follower| - 1 < prev {
        next := |follower|;
      } else if follower[prev] != leader[prev] {
        var k := ConflictIndex(follower, prev);
        var n := NextIndex(leader, prev, follower[prev], k.value);
        ResultsAreUnique(follower, leader, prev, follower[prev], k.value, n);
        next := n;
      } else {
        RejectionsBounded(leader, follower, start);
        return;
      }
      rejections := rejections + 1;
    }
  }
}
