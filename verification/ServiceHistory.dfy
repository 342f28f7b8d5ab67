/**
 What the clients see is linearizable: in every reachable state the calls made so far, with the ones still
 waiting completed, have an order that respects real time and that the whole-store model accepts.
 A write takes effect at its first entry in the log, a read after the prefix its answer was read from.
 */
module ServiceHistory {
  import opened Common
  import opened Linearizability
  import M = KvModel
  import opened KvState
  import opened Service
  import R = Replica

  predicate IsWrite(op: Op) {
    !op.kind.Get?
  }

  function InputOf(op: Op): M.Value {
    M.KvInput(match op.kind case Get => 0 case Put => 1 case Append => 2, op.key, op.value)
  }

  /** What a call returned; a read that still waits is completed with the value of the whole agreed log. */
  function OutputOf(s: System, c: Call): M.Value {
    if IsWrite(c.op) then M.KvOutput("")
    else if c.progress.Done? then M.KvOutput(c.progress.reply.value)
    else M.KvOutput(Lookup(Run(s.agreed).db, c.op.key))
  }

  /** The history of all calls. Calls that still wait return after everything else. */
  function Completion(s: System): (h: M.History)
    ensures |h| == |s.calls|
  {
    seq(|s.calls|, id requires 0 <= id < |s.calls| =>
      var c := s.calls[id];
      Operation(InputOf(c.op), c.call, OutputOf(s, c), if c.progress.Done? then c.progress.ret else s.now))
  }

  // ----- where a call takes effect -----

  function FirstIndex(log: seq<Op>, op: Op): (k: nat)
    ensures k <= |log|
    ensures k < |log| ==> log[k] == op
    ensures forall j :: 0 <= j < k ==> log[j] != op
  {
    if log == [] || log[0] == op then 0 else 1 + FirstIndex(log[1..], op)
  }

  /** The number of log entries before the point where the call takes effect; beyond the log if it has not yet. */
  function Point(s: System, c: Call): nat {
    if IsWrite(c.op) then FirstIndex(s.agreed, c.op) + 1
    else if c.progress.Done? then c.progress.reply.prefix
    else |s.agreed| + 1
  }

  predicate Picked(s: System, k: nat, write: bool, id: nat)
    requires id < |s.calls|
  {
    IsWrite(s.calls[id].op) == write && Point(s, s.calls[id]) == k
  }

  /** The calls of one kind with this point, in the order they were made. */
  function Pick(s: System, k: nat, write: bool, upto: nat): (r: seq<nat>)
    requires upto <= |s.calls|
    ensures forall i :: 0 <= i < |r| ==> r[i] < upto
  {
    if upto == 0 then []
    else if Picked(s, k, write, upto - 1) then Pick(s, k, write, upto - 1) + [upto - 1]
    else Pick(s, k, write, upto - 1)
  }

  ghost predicate AllPicked(s: System, k: nat, write: bool, r: seq<nat>) {
    && (forall i :: 0 <= i < |r| ==> r[i] < |s.calls| && Picked(s, k, write, r[i]))
    && (forall i, j :: 0 <= i < j < |r| ==> r[i] < r[j])
  }

  lemma {:induction false} PickIs(s: System, k: nat, write: bool, upto: nat)
    requires upto <= |s.calls|
    ensures AllPicked(s, k, write, Pick(s, k, write, upto)) == true
  {
    if upto > 0 {
      PickIs(s, k, write, upto - 1);
    }
  }

  lemma {:induction false} PickHas(s: System, k: nat, write: bool, upto: nat, id: nat)
    requires id < upto <= |s.calls| && Picked(s, k, write, id)
    ensures id in Pick(s, k, write, upto)
  {
    if id < upto - 1 {
      PickHas(s, k, write, upto - 1, id);
    }
  }

  /** Entry `k` and the reads made right after it. */
  function Bucket(s: System, k: nat): seq<nat> {
    Pick(s, k, true, |s.calls|) + Pick(s, k, false, |s.calls|)
  }

  function Through(s: System, k: nat): seq<nat> {
    if k == 0 then Bucket(s, 0) else Through(s, k - 1) + Bucket(s, k)
  }

  /** The order of the calls. What the log does not hold comes last, reads first. */
  function Order(s: System): seq<nat> {
    Through(s, |s.agreed|) + Pick(s, |s.agreed| + 1, false, |s.calls|) + Pick(s, |s.agreed| + 1, true, |s.calls|)
  }

  // ----- the order lists every call once, by point -----

  /** Every call with a point of at most `k`, once, by point. */
  ghost predicate ByPoint(s: System, k: nat, order: seq<nat>) {
    && (forall i :: 0 <= i < |order| ==> order[i] < |s.calls| && Point(s, s.calls[order[i]]) <= k)
    && (forall i, j :: 0 <= i < j < |order| ==>
          order[i] != order[j] && Point(s, s.calls[order[i]]) <= Point(s, s.calls[order[j]]))
  }

  ghost predicate Complete(s: System, k: nat, order: seq<nat>) {
    forall id: nat :: id < |s.calls| && Point(s, s.calls[id]) <= k ==> id in order
  }

  lemma {:induction false} PickByPoint(s: System, k: nat, write: bool, before: seq<nat>)
    requires ByPoint(s, k, before)
    requires forall i :: 0 <= i < |before| ==>
              Point(s, s.calls[before[i]]) < k || IsWrite(s.calls[before[i]].op) != write
    ensures ByPoint(s, k, before + Pick(s, k, write, |s.calls|)) == true
    ensures AllPicked(s, k, write, Pick(s, k, write, |s.calls|)) == true
  {
    PickIs(s, k, write, |s.calls|);
  }

  lemma {:induction false} BucketByPoint(s: System, k: nat, before: seq<nat>)
    requires ByPoint(s, k, before) && forall i :: 0 <= i < |before| ==> Point(s, s.calls[before[i]]) < k
    ensures ByPoint(s, k, before + Bucket(s, k)) == true
  {
    var writes, gets := Pick(s, k, true, |s.calls|), Pick(s, k, false, |s.calls|);
    PickByPoint(s, k, true, before);
    PickByPoint(s, k, false, before + writes);
    assert before + Bucket(s, k) == before + writes + gets;
  }

  lemma {:induction false} ThroughByPoint(s: System, k: nat)
    ensures ByPoint(s, k, Through(s, k)) == true
  {
    if k == 0 {
      BucketByPoint(s, 0, []);
      assert [] + Bucket(s, 0) == Bucket(s, 0);
    } else {
      ThroughByPoint(s, k - 1);
      BucketByPoint(s, k, Through(s, k - 1));
    }
  }

  lemma {:induction false} ThroughComplete(s: System, k: nat, id: nat)
    requires id < |s.calls| && Point(s, s.calls[id]) <= k
    ensures id in Through(s, k)
  {
    if Point(s, s.calls[id]) < k {
      ThroughComplete(s, k - 1, id);
    } else {
      PickHas(s, k, IsWrite(s.calls[id].op), |s.calls|, id);
      assert id in Bucket(s, k);
    }
  }

  lemma {:induction false} TailByPoint(s: System, k: nat, before: seq<nat>)
    requires ByPoint(s, k, before) && forall i :: 0 <= i < |before| ==> Point(s, s.calls[before[i]]) < k
    ensures ByPoint(s, k, before + Pick(s, k, false, |s.calls|) + Pick(s, k, true, |s.calls|)) == true
  {
    PickByPoint(s, k, false, before);
    PickByPoint(s, k, true, before + Pick(s, k, false, |s.calls|));
  }

  lemma {:induction false} OrderByPoint(s: System)
    ensures ByPoint(s, |s.agreed| + 1, Order(s)) == true
  {
    var n := |s.agreed|;
    ThroughByPoint(s, n);
    TailByPoint(s, n + 1, Through(s, n));
  }

  lemma {:induction false} OrderComplete(s: System, id: nat)
    requires id < |s.calls| && Point(s, s.calls[id]) <= |s.agreed| + 1
    ensures id in Order(s)
  {
    if Point(s, s.calls[id]) <= |s.agreed| {
      ThroughComplete(s, |s.agreed|, id);
    } else {
      PickHas(s, |s.agreed| + 1, IsWrite(s.calls[id].op), |s.calls|, id);
    }
  }

  // ----- points lie between call and return -----

  lemma {:induction false} SameOpSameCall(s: System, a: nat, b: nat)
    requires CallsOk(s) && a < |s.calls| && b < |s.calls| && SameRequest(s.calls[a].op, s.calls[b].op)
    ensures a == b
  {
    RequestsIncrease(s, a);
    RequestsIncrease(s, b);
  }

  lemma {:induction false} LoggedAfterCall(s: System, id: nat, k: nat)
    requires CallsOk(s) && LogIssued(s) && id < |s.calls| && k < |s.agreed| && s.agreed[k] == s.calls[id].op
    ensures s.calls[id].logAtCall <= k
  {
    assert Issued(s.calls, s.agreed[k], k);
    var other :| 0 <= other < |s.calls| && s.calls[other].op == s.agreed[k] && s.calls[other].logAtCall <= k;
    SameOpSameCall(s, id, other);
  }

  lemma {:induction false} PointAfterCall(s: System, id: nat)
    requires CallsOk(s) && LogIssued(s) && id < |s.calls|
    ensures s.calls[id].logAtCall < Point(s, s.calls[id]) <= |s.agreed| + 1
  {
    var c := s.calls[id];
    assert CallOk(s, id);
    if IsWrite(c.op) {
      if FirstIndex(s.agreed, c.op) < |s.agreed| {
        LoggedAfterCall(s, id, FirstIndex(s.agreed, c.op));
      }
    } else if c.progress.Done? {
      var p := c.progress.reply.prefix;
      var k :| 0 <= k < p && s.agreed[..p][k] == c.op;
      LoggedAfterCall(s, id, k);
    }
  }

  lemma {:induction false} PointBeforeReturn(s: System, id: nat)
    requires CallsOk(s) && id < |s.calls| && s.calls[id].progress.Done?
    ensures Point(s, s.calls[id]) <= s.calls[id].progress.reply.prefix
  {
    assert CallOk(s, id);
    var p, op := s.calls[id].progress.reply.prefix, s.calls[id].op;
    var k :| 0 <= k < p && s.agreed[..p][k] == op;
    assert FirstIndex(s.agreed, op) <= k;
  }

  /** An order by point respects real time. */
  lemma {:induction false} ByPointRespectsTime(s: System, order: seq<nat>)
    requires CallsOk(s) && LogIssued(s) && ByPoint(s, |s.agreed| + 1, order)
    ensures RespectsTime(Completion(s), order)
  {
    var h := Completion(s);
    forall i, j | 0 <= i < j < |order|
      ensures !(h[order[j]].ret < h[order[i]].call)
    {
      var a, b := order[i], order[j];
      PointAfterCall(s, a);
      assert CallOk(s, a);
      if s.calls[b].progress.Done? {
        PointBeforeReturn(s, b);
        assert LogOk(s.calls[b], s.calls[a]);
      }
    }
  }

  // ----- the store model accepts the order -----

  /** The store model accepts these calls one after the other and goes from one database to the other. */
  ghost predicate Leads(s: System, db: map<string, string>, ids: seq<nat>, next: map<string, string>) {
    && (forall i :: 0 <= i < |ids| ==> ids[i] < |s.calls|)
    && Accepts(M.Store(), Completion(s), db, ids) && StateAfter(M.Store(), Completion(s), db, ids) == next
  }

  lemma {:induction false} LeadsConcat(s: System, a: map<string, string>, p: seq<nat>, b: map<string, string>,
                                       q: seq<nat>, c: map<string, string>)
    requires Leads(s, a, p, b) && Leads(s, b, q, c)
    ensures Leads(s, a, p + q, c) == true
  {
    AcceptsConcat(M.Store(), Completion(s), a, p, q);
  }

  lemma {:induction false} ReadsAccepted(s: System, db: map<string, string>, ids: seq<nat>)
    requires forall i :: 0 <= i < |ids| ==> ids[i] < |s.calls| && !IsWrite(s.calls[ids[i]].op)
    requires forall i :: 0 <= i < |ids| ==>
              OutputOf(s, s.calls[ids[i]]) == M.KvOutput(Lookup(db, s.calls[ids[i]].op.key))
    ensures Leads(s, db, ids, db) == true
    decreases |ids|
  {
    if ids != [] {
      assert StepOf(M.Store(), Completion(s), db, ids[0]) == (true, db);
      ReadsAccepted(s, db, ids[1..]);
    }
  }

  lemma {:induction false} WriteAccepted(s: System, db: map<string, string>, id: nat)
    requires id < |s.calls| && IsWrite(s.calls[id].op)
    ensures StepOf(M.Store(), Completion(s), db, id) == (true, Effect(db, s.calls[id].op))
  {
  }

  lemma {:induction false} WritesAccepted(s: System, db: map<string, string>, ids: seq<nat>)
    returns (next: map<string, string>)
    requires forall i :: 0 <= i < |ids| ==> ids[i] < |s.calls| && IsWrite(s.calls[ids[i]].op)
    ensures Leads(s, db, ids, next) == true
    decreases |ids|
  {
    if ids == [] {
      next := db;
    } else {
      WriteAccepted(s, db, ids[0]);
      next := WritesAccepted(s, Effect(db, s.calls[ids[0]].op), ids[1..]);
    }
  }

  lemma {:induction false} InIssueOrderHolds(s: System)
    requires CallsOk(s) && LogIssued(s)
    ensures InIssueOrder(s.agreed)
  {
    var log := s.agreed;
    forall i, j | 0 <= i < j < |log| && log[i].client == log[j].client && log[j].request < log[i].request
      ensures Occurs(log[..i], log[j])
    {
      assert Issued(s.calls, log[j], j);
      var id :| 0 <= id < |s.calls| && s.calls[id].op == log[j] && s.calls[id].logAtCall <= j;
      var k := RequestIsInLog(s, id, i);
      assert k != i;
      assert log[..i][k] == log[j];
    }
  }

  lemma {:induction false} PickOne(s: System, k: nat, write: bool, upto: nat, id: nat)
    requires id < |s.calls| && upto <= |s.calls|
    requires forall other: nat :: other < |s.calls| ==> (Picked(s, k, write, other) <==> other == id)
    ensures Pick(s, k, write, upto) == if id < upto then [id] else []
  {
    if upto > 0 {
      PickOne(s, k, write, upto - 1, id);
    }
  }

  lemma {:induction false} PickNone(s: System, k: nat, write: bool, upto: nat)
    requires upto <= |s.calls|
    requires forall id: nat :: id < |s.calls| ==> !Picked(s, k, write, id)
    ensures Pick(s, k, write, upto) == []
  {
    if upto > 0 {
      PickNone(s, k, write, upto - 1);
    }
  }

  /** Exactly the first entries of writes move the database. */
  lemma {:induction false} EntryEffect(s: System, k: nat)
    requires CallsOk(s) && LogIssued(s) && 1 <= k <= |s.agreed|
    ensures Run(s.agreed[..k]).db ==
            if First(s.agreed, k - 1) && IsWrite(s.agreed[k - 1])
            then Effect(Run(s.agreed[..k - 1]).db, s.agreed[k - 1])
            else Run(s.agreed[..k - 1]).db
  {
    RunStep(s.agreed, k - 1);
    InIssueOrderHolds(s);
    InOrderFirstIsFresh(s.agreed, k - 1);
    FreshIsNotDuplicate(s.agreed, k - 1);
  }

  lemma {:induction false} LeadsOne(s: System, db: map<string, string>, id: nat)
    requires id < |s.calls| && IsWrite(s.calls[id].op)
    ensures Leads(s, db, [id], Effect(db, s.calls[id].op)) == true
  {
    WriteAccepted(s, db, id);
    var h, next, rest := Completion(s), Effect(db, s.calls[id].op), [id][1..];
    assert rest == [];
    assert Accepts(M.Store(), h, next, rest) && StateAfter(M.Store(), h, next, rest) == next;
  }

  lemma {:induction false} FirstHasOneWrite(s: System, k: nat) returns (id: nat)
    requires CallsOk(s) && LogIssued(s) && 1 <= k <= |s.agreed| && First(s.agreed, k - 1) && IsWrite(s.agreed[k - 1])
    ensures id < |s.calls| && s.calls[id].op == s.agreed[k - 1] && Pick(s, k, true, |s.calls|) == [id]
  {
    assert Issued(s.calls, s.agreed[k - 1], k - 1);
    id :| 0 <= id < |s.calls| && s.calls[id].op == s.agreed[k - 1] && s.calls[id].logAtCall <= k - 1;
    var f := FirstIndex(s.agreed, s.calls[id].op);
    assert f == k - 1 by {
      assert f <= k - 1;
      assert f < k - 1 ==> !SameRequest(s.agreed[f], s.agreed[k - 1]);
    }
    forall other: nat | other < |s.calls| && Picked(s, k, true, other)
      ensures other == id
    {
      SameOpSameCall(s, id, other);
    }
    PickOne(s, k, true, |s.calls|, id);
  }

  /** An entry whose request was there before is not the first of its command. */
  lemma {:induction false} RepeatIsNotFirstIndex(s: System, k: nat)
    requires CallsOk(s) && LogIssued(s) && k < |s.agreed| && !First(s.agreed, k)
    ensures FirstIndex(s.agreed, s.agreed[k]) < k
  {
    var j :| 0 <= j < k && SameRequest(s.agreed[j], s.agreed[k]);
    assert Issued(s.calls, s.agreed[j], j) && Issued(s.calls, s.agreed[k], k);
    var a: nat :| 0 <= a < |s.calls| && s.calls[a].op == s.agreed[j] && s.calls[a].logAtCall <= j;
    var b: nat :| 0 <= b < |s.calls| && s.calls[b].op == s.agreed[k] && s.calls[b].logAtCall <= k;
    SameOpSameCall(s, a, b);
    assert s.agreed[j] == s.agreed[k];
  }

  lemma {:induction false} RepeatHasNoWrite(s: System, k: nat)
    requires CallsOk(s) && LogIssued(s) && 1 <= k <= |s.agreed| && !(First(s.agreed, k - 1) && IsWrite(s.agreed[k - 1]))
    ensures Pick(s, k, true, |s.calls|) == []
  {
    if IsWrite(s.agreed[k - 1]) {
      RepeatIsNotFirstIndex(s, k - 1);
    }
    forall id: nat | id < |s.calls|
      ensures !Picked(s, k, true, id)
    {
      var f := FirstIndex(s.agreed, s.calls[id].op);
    }
    PickNone(s, k, true, |s.calls|);
  }

  /** Entry `k` of the log moves the database exactly as the writes with point `k` do. */
  lemma {:induction false} WritesAt(s: System, k: nat)
    requires CallsOk(s) == true && LogIssued(s) == true && 1 <= k <= |s.agreed|
    ensures Leads(s, Run(s.agreed[..k - 1]).db, Pick(s, k, true, |s.calls|), Run(s.agreed[..k]).db) == true
  {
    EntryEffect(s, k);
    if First(s.agreed, k - 1) && IsWrite(s.agreed[k - 1]) {
      var id := FirstHasOneWrite(s, k);
      LeadsOne(s, Run(s.agreed[..k - 1]).db, id);
    } else {
      RepeatHasNoWrite(s, k);
    }
  }

  /** The reads with point `k` saw the database of the first `k` entries. */
  lemma {:induction false} ReadsAt(s: System, k: nat)
    requires CallsOk(s) && k <= |s.agreed|
    ensures Leads(s, Run(s.agreed[..k]).db, Pick(s, k, false, |s.calls|), Run(s.agreed[..k]).db) == true
  {
    var gets := Pick(s, k, false, |s.calls|);
    PickIs(s, k, false, |s.calls|);
    forall i | 0 <= i < |gets|
      ensures OutputOf(s, s.calls[gets[i]]) == M.KvOutput(Lookup(Run(s.agreed[..k]).db, s.calls[gets[i]].op.key))
    {
      assert Picked(s, k, false, gets[i]) && CallOk(s, gets[i]);
    }
    ReadsAccepted(s, Run(s.agreed[..k]).db, gets);
  }

  lemma {:induction false} BucketAccepted(s: System, k: nat)
    requires CallsOk(s) && LogIssued(s) && 1 <= k <= |s.agreed|
    ensures Leads(s, Run(s.agreed[..k - 1]).db, Bucket(s, k), Run(s.agreed[..k]).db) == true
  {
    WritesAt(s, k);
    ReadsAt(s, k);
    LeadsConcat(s, Run(s.agreed[..k - 1]).db, Pick(s, k, true, |s.calls|), Run(s.agreed[..k]).db,
                Pick(s, k, false, |s.calls|), Run(s.agreed[..k]).db);
  }

  lemma {:induction false} FirstBucketAccepted(s: System)
    requires CallsOk(s)
    ensures Leads(s, map[], Bucket(s, 0), Run(s.agreed[..0]).db) == true
  {
    assert forall id: nat :: id < |s.calls| ==> !Picked(s, 0, true, id);
    PickNone(s, 0, true, |s.calls|);
    assert Bucket(s, 0) == Pick(s, 0, false, |s.calls|);
    assert s.agreed[..0] == [];
    ReadsAt(s, 0);
  }

  lemma {:induction false} ThroughAccepted(s: System, k: nat)
    requires CallsOk(s) == true && LogIssued(s) == true && k <= |s.agreed|
    ensures Leads(s, map[], Through(s, k), Run(s.agreed[..k]).db) == true
  {
    if k == 0 {
      FirstBucketAccepted(s);
    } else {
      ThroughAccepted(s, k - 1);
      BucketAccepted(s, k);
      LeadsConcat(s, map[], Through(s, k - 1), Run(s.agreed[..k - 1]).db, Bucket(s, k), Run(s.agreed[..k]).db);
    }
  }

  /** What the log does not hold yet is accepted at the end. */
  lemma {:induction false} TailAccepted(s: System) returns (next: map<string, string>)
    requires CallsOk(s)
    ensures var k := |s.agreed| + 1;
            Leads(s, Run(s.agreed).db, Pick(s, k, false, |s.calls|) + Pick(s, k, true, |s.calls|), next) == true
  {
    var k, db := |s.agreed| + 1, Run(s.agreed).db;
    var gets, writes := Pick(s, k, false, |s.calls|), Pick(s, k, true, |s.calls|);
    PickIs(s, k, false, |s.calls|);
    PickIs(s, k, true, |s.calls|);
    forall i | 0 <= i < |gets|
      ensures OutputOf(s, s.calls[gets[i]]) == M.KvOutput(Lookup(db, s.calls[gets[i]].op.key))
    {
      assert Picked(s, k, false, gets[i]) && CallOk(s, gets[i]);
    }
    ReadsAccepted(s, db, gets);
    next := WritesAccepted(s, db, writes);
    LeadsConcat(s, db, gets, db, writes, next);
  }

  lemma ConcatAssociates(a: seq<nat>, b: seq<nat>, c: seq<nat>)
    ensures a + b + c == a + (b + c)
  {
  }

  lemma {:induction false} OrderAccepted(s: System) returns (next: map<string, string>)
    requires CallsOk(s) == true && LogIssued(s) == true
    ensures Leads(s, map[], Order(s), next) == true
  {
    var n := |s.agreed|;
    var before, tail := Through(s, n), Pick(s, n + 1, false, |s.calls|) + Pick(s, n + 1, true, |s.calls|);
    ThroughAccepted(s, n);
    next := TailAccepted(s);
    assert s.agreed[..n] == s.agreed;
    ConcatAssociates(before, Pick(s, n + 1, false, |s.calls|), Pick(s, n + 1, true, |s.calls|));
    LeadsConcat(s, map[], before, Run(s.agreed).db, tail, next);
  }

  /** In every state that satisfies the invariant, the calls are linearizable against the whole store. */
  lemma {:induction false} CallsAreLinearizable(s: System)
    requires Invariant(s)
    ensures Linearizable(M.Store(), Completion(s))
  {
    var h, order := Completion(s), Order(s);
    OrderByPoint(s);
    forall id: nat | id < |h|
      ensures id in order
    {
      PointAfterCall(s, id);
      OrderComplete(s, id);
    }
    ByPointRespectsTime(s, order);
    var next := OrderAccepted(s);
    assert Completes(M.Store(), h, {}, M.Store().init, order);
  }

  /**
   Client-visible linearizability: at every moment of every run, with retries, late duplicates, server switches,
   snapshots and crashes, the calls made so far are linearizable against a map from strings to strings.
   */
  lemma {:induction false} RunsAreLinearizable(states: seq<System>, actions: seq<Action>, i: nat)
    requires IsRun(states, actions) && i < |states|
    ensures Linearizable(M.Store(), Completion(states[i]))
  {
    RunsKeepInvariant(states, actions, i);
    CallsAreLinearizable(states[i]);
  }

  /** A call that has returned is in the log and has taken effect exactly once. */
  lemma {:induction false} AnsweredExactlyOnce(s: System, id: nat) returns (k: nat)
    requires Invariant(s) && id < |s.calls| && s.calls[id].progress.Done?
    ensures k < s.calls[id].progress.reply.prefix <= |s.agreed| && s.agreed[k] == s.calls[id].op && Fresh(s.agreed, k)
    ensures forall j: nat :: j < |s.agreed| && j != k && s.agreed[j] == s.calls[id].op ==> !Fresh(s.agreed, j)
  {
    assert CallOk(s, id);
    var p, op := s.calls[id].progress.reply.prefix, s.calls[id].op;
    var j :| 0 <= j < p && s.agreed[..p][j] == op;
    k := FirstOccurrence(s.agreed, j);
    assert Issued(s.calls, s.agreed[k], k);
    var other :| 0 <= other < |s.calls| && s.calls[other].op == s.agreed[k] && s.calls[other].logAtCall <= k;
    SameOpSameCall(s, id, other);
    InIssueOrderHolds(s);
    InOrderFirstIsFresh(s.agreed, k);
    assert forall i :: 0 <= i < k ==> !SameRequest(s.agreed[i], s.agreed[k]);
  }

  /**
   Exactly once, on every server and along every run: its database is the fold over the first occurrences it has
   applied.
   */
  lemma {:induction false} ServersApplyOnce(states: seq<System>, actions: seq<Action>, i: nat, server: nat)
    requires IsRun(states, actions) && i < |states| && server < |states[i].servers|
    ensures var agreed, r := states[i].agreed, states[i].servers[server];
            && r.processed <= |agreed| && r.kv.db == FirstOnly(agreed[..r.processed])
            && r.snapshotted <= |agreed| && r.disk.db == FirstOnly(agreed[..r.snapshotted])
  {
    var s := states[i];
    RunsKeepInvariant(states, actions, i);
    assert R.Inv(s.agreed, s.servers[server]);
    InIssueOrderHolds(s);
    InIssueOrderPrefix(s.agreed, s.servers[server].processed);
    InIssueOrderPrefix(s.agreed, s.servers[server].snapshotted);
    ExactlyOnce(s.agreed[..s.servers[server].processed]);
    ExactlyOnce(s.agreed[..s.servers[server].snapshotted]);
  }
}
