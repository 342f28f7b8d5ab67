/**
 The replicated state: the database and the table of last applied requests, as a function of the log
 (the apply loop of kvraft/server.go), and what the table is good for.
 */
module KvState {
  import opened Common

  datatype Kind = Get | Put | Append

  /** A command in the log. */
  datatype Op = Op(key: string, value: string, kind: Kind, client: int, request: int)

  datatype Kv = Kv(db: map<string, string>, applied: map<int, int>)

  const EMPTY := Kv(map[], map[])

  predicate Duplicate(kv: Kv, op: Op) {
    op.client in kv.applied && op.request <= kv.applied[op.client]
  }

  /** The effect of a command on the database. */
  function Effect(db: map<string, string>, op: Op): map<string, string> {
    match op.kind
    case Get => db
    case Put => db[op.key := op.value]
    case Append => db[op.key := Lookup(db, op.key) + op.value]
  }

  function Apply(kv: Kv, op: Op): Kv {
    if Duplicate(kv, op) then kv
    else Kv(Effect(kv.db, op), kv.applied[op.client := op.request])
  }

  /** One in-order pass over a log, from a given state. */
  function Replay(kv: Kv, log: seq<Op>): Kv {
    if log == [] then kv else Apply(Replay(kv, log[..|log| - 1]), log[|log| - 1])
  }

  function Run(log: seq<Op>): Kv {
    Replay(EMPTY, log)
  }

  lemma {:induction false} ReplayConcat(kv: Kv, a: seq<Op>, b: seq<Op>)
    ensures Replay(kv, a + b) == Replay(Replay(kv, a), b)
  {
    if b == [] {
      assert a + b == a;
    } else {
      var n := |b| - 1;
      assert (a + b)[..|a + b| - 1] == a + b[..n];
      ReplayConcat(kv, a, b[..n]);
    }
  }

  lemma RunStep(log: seq<Op>, n: nat)
    requires n < |log|
    ensures Run(log[..n + 1]) == Apply(Run(log[..n]), log[n])
  {
    assert log[..n + 1][..n] == log[..n];
  }

  // ----- the table of applied requests -----

  /** The table holds the highest request of every client that is in the log. */
  lemma {:induction false} AppliedIsHighest(log: seq<Op>, client: int)
    ensures client in Run(log).applied <==> exists i :: 0 <= i < |log| && log[i].client == client
    ensures forall i :: 0 <= i < |log| && log[i].client == client ==> log[i].request <= Run(log).applied[client]
    ensures client in Run(log).applied ==>
              exists i :: 0 <= i < |log| && log[i].client == client && log[i].request == Run(log).applied[client]
  {
    if log != [] {
      var n := |log| - 1;
      var front, last := log[..n], log[n];
      AppliedIsHighest(front, client);
      assert Run(log) == Apply(Run(front), last);
      if client in Run(front).applied {
        var i :| 0 <= i < |front| && front[i].client == client && front[i].request == Run(front).applied[client];
        assert log[i].client == client;
      }
      forall i | 0 <= i < |log| && log[i].client == client
        ensures client in Run(log).applied && log[i].request <= Run(log).applied[client]
      {
        if i < n {
          assert front[i].client == client;
        }
      }
    }
  }

  /** A command already in the log changes nothing when it is applied again. */
  lemma {:induction false} AppliedAgain(log: seq<Op>, i: nat)
    requires i < |log|
    ensures Apply(Run(log), log[i]) == Run(log)
  {
    AppliedIsHighest(log, log[i].client);
  }

  /** Entry `i` takes effect: its request is above all earlier ones of its client. */
  ghost predicate Fresh(log: seq<Op>, i: nat)
    requires i < |log|
  {
    forall j :: 0 <= j < i && log[j].client == log[i].client ==> log[j].request < log[i].request
  }

  lemma {:induction false} FreshIsNotDuplicate(log: seq<Op>, i: nat)
    requires i < |log|
    ensures Fresh(log, i) <==> !Duplicate(Run(log[..i]), log[i])
  {
    AppliedIsHighest(log[..i], log[i].client);
    var kv, op := Run(log[..i]), log[i];
    if !Duplicate(kv, op) {
      forall j | 0 <= j < i && log[j].client == op.client
        ensures log[j].request < op.request
      {
        assert log[..i][j].client == op.client;
      }
    } else {
      var j :| 0 <= j < i && log[..i][j].client == op.client && log[..i][j].request == kv.applied[op.client];
      assert log[j].client == op.client;
    }
  }

  // ----- exactly once -----

  predicate SameRequest(a: Op, b: Op) {
    a.client == b.client && a.request == b.request
  }

  /** No earlier entry carries the same request. */
  ghost predicate First(log: seq<Op>, i: nat)
    requires i < |log|
  {
    forall j :: 0 <= j < i ==> !SameRequest(log[j], log[i])
  }

  /** The database after applying, without any table, exactly the first occurrences of the requests. */
  ghost function FirstOnly(log: seq<Op>): map<string, string> {
    if log == [] then map[]
    else
      var db := FirstOnly(log[..|log| - 1]);
      if First(log, |log| - 1) then Effect(db, log[|log| - 1]) else db
  }

  ghost predicate Occurs(log: seq<Op>, op: Op) {
    exists k :: 0 <= k < |log| && SameRequest(log[k], op)
  }

  /** A request of a client enters the log before every later request of that client. */
  ghost predicate InIssueOrder(log: seq<Op>) {
    forall i, j :: 0 <= i < j < |log| && log[i].client == log[j].client && log[j].request < log[i].request ==>
      Occurs(log[..i], log[j])
  }

  lemma {:induction false} FirstOccurrence(log: seq<Op>, j: nat) returns (k: nat)
    requires j < |log|
    ensures k <= j && SameRequest(log[k], log[j]) == true && First(log, k) == true
  {
    if First(log, j) {
      k := j;
    } else {
      var i :| 0 <= i < j && SameRequest(log[i], log[j]);
      k := FirstOccurrence(log, i);
    }
  }

  lemma {:induction false} InOrderFirstIsFresh(log: seq<Op>, i: nat)
    requires InIssueOrder(log) && i < |log|
    ensures Fresh(log, i) <==> First(log, i)
  {
    if First(log, i) {
      forall j | 0 <= j < i && log[j].client == log[i].client
        ensures log[j].request < log[i].request
      {
        assert !SameRequest(log[j], log[i]);
        assert log[i].request < log[j].request ==> Occurs(log[..j], log[i]);
      }
    }
  }

  /** Exactly the first occurrences take effect if and only if requests enter in issue order. */
  lemma {:induction false} FreshIsFirstIff(log: seq<Op>)
    ensures (forall i :: 0 <= i < |log| ==> (Fresh(log, i) <==> First(log, i))) <==> InIssueOrder(log)
  {
    if InIssueOrder(log) {
      forall i | 0 <= i < |log|
        ensures Fresh(log, i) <==> First(log, i)
      {
        InOrderFirstIsFresh(log, i);
      }
    }
    if forall i :: 0 <= i < |log| ==> (Fresh(log, i) <==> First(log, i)) {
      forall i, j | 0 <= i < j < |log| && log[i].client == log[j].client && log[j].request < log[i].request
        ensures Occurs(log[..i], log[j])
      {
        var k := FirstOccurrence(log, j);
        assert Fresh(log, k);
        assert k < i;
        assert log[..i][k] == log[k];
      }
    }
  }

  lemma {:induction false} InIssueOrderPrefix(log: seq<Op>, n: nat)
    requires InIssueOrder(log) && n <= |log|
    ensures InIssueOrder(log[..n])
  {
    var p := log[..n];
    forall i, j | 0 <= i < j < |p| && p[i].client == p[j].client && p[j].request < p[i].request
      ensures Occurs(p[..i], p[j])
    {
      assert Occurs(log[..i], log[j]);
      assert p[..i] == log[..i];
    }
  }

  /** With requests in issue order, the database is the fold of the first occurrences. */
  lemma {:induction false} ExactlyOnce(log: seq<Op>)
    requires InIssueOrder(log)
    ensures Run(log).db == FirstOnly(log)
  {
    if log != [] {
      var n := |log| - 1;
      InIssueOrderPrefix(log, n);
      ExactlyOnce(log[..n]);
      InOrderFirstIsFresh(log, n);
      FreshIsNotDuplicate(log, n);
    }
  }

  /** Out of issue order a request can be lost: the second entry is a first occurrence without effect. */
  lemma OutOfOrderLosesRequest()
    ensures var log := [Op("k", "x", Put, 1, 2), Op("k", "y", Put, 1, 1)];
            First(log, 1) && !Fresh(log, 1) && Run(log).db == map["k" := "x"] && FirstOnly(log) == map["k" := "y"]
  {
    var log := [Op("k", "x", Put, 1, 2), Op("k", "y", Put, 1, 1)];
    var one := [log[0]];
    assert log[..1] == one && one[..0] == [];
    assert First(one, 0);
    assert Replay(EMPTY, one) == Apply(Replay(EMPTY, []), log[0]);
    assert FirstOnly(one) == Effect(FirstOnly([]), log[0]);
    assert !SameRequest(log[0], log[1]);
  }
}
