/**
 Leaders and followers: every run of elections, `Start`, `AppendEntries` messages delivered in any order and again,
 commits and truncations, with the term checks of the code. Assumed are one leader per term, which `Consensus`
 derives from elections, and an atomic `Start`; whether the entry at a snapshot boundary agrees with the message is
 stated separately (`Agreeing`), because the code does not check it.
 */
module Replication {
  import opened Common
  import opened LogMatching

  datatype Server<C> = Server(full: seq<Entry<C>>, snapshotted: nat, term: int, commit: nat)

  /** A message in flight, with the log it was cut from. */
  datatype Message<C> = Message(sender: nat, term: int, origin: seq<Entry<C>>, prev: nat, commit: nat)

  /** A follower reported success to the leader of a term: it holds the log up to `index`. */
  datatype Ack = Ack(term: int, from: nat, index: nat)

  /** `ledger[t]` is the log of the leader of term `t` after its latest `Start` in that term. */
  datatype Cluster<C> = Cluster(servers: seq<Server<C>>, messages: seq<Message<C>>, acks: set<Ack>,
                                ledger: map<int, seq<Entry<C>>>, leaders: map<int, nat>)

  // ----- steps -----

  /** Messages stay in flight: they can be delivered in any order and again. */
  datatype Step<C> = Elect(i: nat, term: int) | Hear(i: nat, term: int) | Start(i: nat, command: C)
                   | Send(i: nat, prev: nat) | Deliver(k: nat, j: nat) | Commit(i: nat, index: nat)
                   | Truncate(j: nat, index: nat)

  /** The server leads the term it is in. */
  predicate Leads<C>(c: Cluster<C>, i: nat) {
    i < |c.servers| && c.servers[i].term in c.leaders && c.leaders[c.servers[i].term] == i
  }

  /** The acknowledgement answers a message that this server sent, in whatever term it led. */
  predicate AckTo<C>(c: Cluster<C>, a: Ack, i: nat) {
    a.term in c.leaders && c.leaders[a.term] == i
  }

  /**
   The servers that a leader may count for an entry, itself included: those that have acknowledged a message of it up
   to the entry. The code looks at the role and not at the term when a reply arrives, so replies to messages of earlier
   terms count. It remembers the latest reply of each server, the model all of them, so it allows every commit of the
   code.
   */
  function Holders<C>(c: Cluster<C>, i: nat, index: nat): set<nat> {
    (set a | a in c.acks && AckTo(c, a, i) && a.index >= index && a.from < |c.servers| :: a.from) + {i}
  }

  /** Server `j` has acknowledged a message of server `i` up to the index. */
  ghost predicate Acked<C>(c: Cluster<C>, i: nat, j: nat, index: int) {
    exists a :: a in c.acks && AckTo(c, a, i) && a.from == j && a.index >= index
  }

  lemma {:induction false} AckedAreHolders<C>(c: Cluster<C>, i: nat, index: nat, servers: set<nat>)
    requires forall j :: j in servers && j != i ==> j < |c.servers| && Acked(c, i, j, index)
    ensures |Holders(c, i, index)| >= |servers|
  {
    SubsetSize(servers, Holders(c, i, index));
  }

  ghost predicate Allowed<C>(c: Cluster<C>, step: Step<C>) {
    match step
    case Elect(i, t) => i < |c.servers| && t >= c.servers[i].term && t !in c.ledger
    case Hear(i, t) => i < |c.servers| && t > c.servers[i].term
    case Start(i, _) => Leads(c, i)
    case Send(i, prev) => Leads(c, i) && c.servers[i].snapshotted <= prev < |c.servers[i].full|
    case Deliver(k, j) =>
      && k < |c.messages| && j < |c.servers| && j != c.messages[k].sender && c.messages[k].term >= c.servers[j].term
      && c.messages[k].prev < |c.messages[k].origin| && c.servers[j].snapshotted < |c.servers[j].full|
    case Commit(i, index) =>
      && Leads(c, i) && c.servers[i].commit < index < |c.servers[i].full|
      && |Holders(c, i, index)| > |c.servers| / 2
    case Truncate(j, index) =>
      && j < |c.servers| && c.servers[j].snapshotted <= index <= c.servers[j].commit && index < |c.servers[j].full|
  }

  function Received<C>(s: Server<C>, m: Message<C>): Server<C>
    requires m.prev < |m.origin| && s.snapshotted < |s.full|
  {
    var full := Delivered(s.full, s.snapshotted, m.origin, m.prev);
    var follows := m.prev > s.snapshotted && Succeeds(s.full, s.snapshotted, m.origin, m.prev) && m.commit > s.commit;
    Server(full, s.snapshotted, m.term,
           if !follows then s.commit else if m.commit < |full| then m.commit else if |full| > 0 then |full| - 1 else 0)
  }

  /** Without a snapshot, a message that starts at the sentinel replaces the log, whatever it was. */
  lemma ReceivedAtStart<C>(s: Server<C>, m: Message<C>)
    requires s.snapshotted == 0 && m.prev == 0 && |s.full| >= 1 && |m.origin| >= 2 && s.full[0] == m.origin[0]
    ensures Received(s, m) == Server(m.origin, 0, m.term, s.commit) && Succeeds(s.full, 0, m.origin, 0)
  {
    BoundaryDelivery(s.full, 0, m.origin, 0);
  }

  function After<C>(c: Cluster<C>, step: Step<C>): Cluster<C>
    requires Allowed(c, step)
  {
    match step
    case Elect(i, t) =>
      c.(servers := c.servers[i := c.servers[i].(term := t)],
         ledger := c.ledger[t := c.servers[i].full], leaders := c.leaders[t := i])
    case Hear(i, t) => c.(servers := c.servers[i := c.servers[i].(term := t)])
    case Start(i, command) =>
      var t := c.servers[i].term;
      var full := c.servers[i].full + [Entry(command, t)];
      c.(servers := c.servers[i := c.servers[i].(full := full)], ledger := c.ledger[t := full])
    case Send(i, prev) =>
      var s := c.servers[i];
      c.(messages := c.messages + [Message(i, s.term, s.full, prev, s.commit)])
    case Deliver(k, j) =>
      var s, m := c.servers[j], c.messages[k];
      c.(servers := c.servers[j := Received(s, m)],
         acks := if Succeeds(s.full, s.snapshotted, m.origin, m.prev) then c.acks + {Ack(m.term, j, |m.origin| - 1)}
                 else c.acks)
    case Commit(i, index) => c.(servers := c.servers[i := c.servers[i].(commit := index)])
    case Truncate(j, index) => c.(servers := c.servers[j := c.servers[j].(snapshotted := index)])
  }

  ghost predicate Takes<C>(c: Cluster<C>, step: Step<C>, d: Cluster<C>) {
    Allowed(c, step) && d == After(c, step)
  }

  ghost predicate Starts<C>(c: Cluster<C>) {
    && c.messages == [] && c.acks == {} && c.leaders == map[]
    && 0 in c.ledger && |c.ledger[0]| == 1 && c.ledger[0][0].term == 0
    && forall i :: 0 <= i < |c.servers| ==> c.servers[i] == Server(c.ledger[0], 0, 0, 0)
  }

  ghost predicate IsRun<C>(states: seq<Cluster<C>>, steps: seq<Step<C>>) {
    && |states| == |steps| + 1 && Starts(states[0])
    && forall i :: 0 <= i < |steps| ==> Takes(states[i], steps[i], states[i + 1])
  }

  /** A message that meets a snapshot boundary agrees with the guard there. */
  ghost predicate Agreeing<C>(c: Cluster<C>, step: Step<C>) {
    && step.Deliver? && step.k < |c.messages| && step.j < |c.servers|
    && c.servers[step.j].snapshotted < |c.servers[step.j].full|
    && c.messages[step.k].prev <= c.servers[step.j].snapshotted ==>
      BoundaryAgrees(c.servers[step.j].full, c.servers[step.j].snapshotted, c.messages[step.k].origin)
  }

  // ----- the invariant -----

  ghost predicate ExplainedAt<C>(ledger: map<int, seq<Entry<C>>>, log: seq<Entry<C>>, k: nat)
    requires k < |log|
  {
    var t := log[k].term;
    t in ledger && k < |ledger[t]| && log[..k + 1] == ledger[t][..k + 1]
  }

  /** Up to every entry, the log is that of the leader of the entry's term. */
  ghost predicate Explained<C>(ledger: map<int, seq<Entry<C>>>, log: seq<Entry<C>>) {
    forall k :: 0 <= k < |log| ==> ExplainedAt(ledger, log, k)
  }

  ghost predicate LogsExplained<C>(c: Cluster<C>) {
    && (forall i :: 0 <= i < |c.servers| ==> Explained(c.ledger, c.servers[i].full))
    && (forall k :: 0 <= k < |c.messages| ==> Explained(c.ledger, c.messages[k].origin))
  }

  /** Whoever leads the term it is in holds the log of that term. */
  ghost predicate OwnLogs<C>(c: Cluster<C>) {
    forall i: nat :: Leads(c, i) ==> c.servers[i].term in c.ledger && c.ledger[c.servers[i].term] == c.servers[i].full
  }

  /** A leader has reached its term, and its term has a log. */
  ghost predicate LeadersKnown<C>(c: Cluster<C>) {
    forall t :: t in c.leaders ==> t in c.ledger && c.leaders[t] < |c.servers| && t <= c.servers[c.leaders[t]].term
  }

  /** Messages come from the leader of their term. */
  ghost predicate SentByLeaders<C>(c: Cluster<C>) {
    forall k :: 0 <= k < |c.messages| ==>
      c.messages[k].term in c.leaders && c.leaders[c.messages[k].term] == c.messages[k].sender
  }

  /** A message was cut from what is still a beginning of its leader's log of that term. */
  ghost predicate SentFromLedger<C>(c: Cluster<C>) {
    forall k :: 0 <= k < |c.messages| ==>
      c.messages[k].term in c.ledger && c.messages[k].origin <= c.ledger[c.messages[k].term]
  }

  ghost predicate KeptAt<C>(c: Cluster<C>, t: int)
    requires t in c.leaders
  {
    var i := c.leaders[t];
    && t in c.ledger && i < |c.servers|
    && (t + 1 in c.leaders && c.leaders[t + 1] == i ==> t + 1 in c.ledger && c.ledger[t] <= c.ledger[t + 1])
    && (t + 1 !in c.leaders && c.servers[i].term == t + 1 ==> c.servers[i].full == c.ledger[t])
  }

  /** A leader that also leads the next term, or is in it before anyone leads it, has lost nothing in between. */
  ghost predicate NextTermKeeps<C>(c: Cluster<C>) {
    forall t {:trigger KeptAt(c, t)} :: t in c.leaders ==> KeptAt(c, t)
  }

  ghost predicate LeadersHold<C>(c: Cluster<C>) {
    OwnLogs(c) && LeadersKnown(c) && SentByLeaders(c) && SentFromLedger(c) && NextTermKeeps(c)
  }

  /** No log is cut beyond its end, and every message was cut inside its log. */
  ghost predicate ShapesOk<C>(c: Cluster<C>) {
    && (forall i :: 0 <= i < |c.servers| ==> c.servers[i].snapshotted < |c.servers[i].full|)
    && (forall k :: 0 <= k < |c.messages| ==> c.messages[k].prev < |c.messages[k].origin|)
  }

  /** Terms do not go down along a log, and none is above the given one. */
  ghost predicate Ordered<C>(log: seq<Entry<C>>, term: int) {
    && (forall i, j :: 0 <= i < j < |log| ==> log[i].term <= log[j].term)
    && (forall i :: 0 <= i < |log| ==> log[i].term <= term)
  }

  ghost predicate TermsOk<C>(c: Cluster<C>) {
    && (forall i :: 0 <= i < |c.servers| ==> Ordered(c.servers[i].full, c.servers[i].term))
    && (forall k :: 0 <= k < |c.messages| ==> Ordered(c.messages[k].origin, c.messages[k].term))
  }

  ghost predicate Invariant<C>(c: Cluster<C>) {
    LogsExplained(c) && LeadersHold(c) && ShapesOk(c) && TermsOk(c)
  }

  lemma {:induction false} ExplainedMatch<C>(ledger: map<int, seq<Entry<C>>>, a: seq<Entry<C>>, b: seq<Entry<C>>)
    requires Explained(ledger, a) && Explained(ledger, b)
    ensures Match(a, b)
  {
    forall k | 0 <= k < |a| && k < |b|
      ensures MatchAt(a, b, k)
    {
      assert ExplainedAt(ledger, a, k) && ExplainedAt(ledger, b, k);
    }
  }

  /** Leaders' logs of their own terms only grow. */
  ghost predicate Grown<C>(ledger: map<int, seq<Entry<C>>>, more: map<int, seq<Entry<C>>>) {
    forall t :: t in ledger ==> t in more && |ledger[t]| <= |more[t]| && more[t][..|ledger[t]|] == ledger[t]
  }

  lemma {:induction false} ExplainedStays<C>(ledger: map<int, seq<Entry<C>>>, more: map<int, seq<Entry<C>>>,
                                             log: seq<Entry<C>>)
    requires Explained(ledger, log) && Grown(ledger, more)
    ensures Explained(more, log)
  {
    forall k | 0 <= k < |log|
      ensures ExplainedAt(more, log, k)
    {
      assert ExplainedAt(ledger, log, k);
      var t := log[k].term;
      assert more[t][..k + 1] == more[t][..|ledger[t]|][..k + 1];
    }
  }

  lemma {:induction false} StartExplained<C>(ledger: map<int, seq<Entry<C>>>, log: seq<Entry<C>>, e: Entry<C>)
    requires Explained(ledger, log) && e.term in ledger && ledger[e.term] == log
    ensures Grown(ledger, ledger[e.term := log + [e]])
    ensures Explained(ledger[e.term := log + [e]], log + [e])
  {
    var more, next := ledger[e.term := log + [e]], log + [e];
    assert next[..|log|] == log;
    ExplainedStays(ledger, more, log);
    forall k | 0 <= k < |next|
      ensures ExplainedAt(more, next, k)
    {
      if k < |log| {
        assert ExplainedAt(more, log, k);
        assert next[..k + 1] == log[..k + 1];
      }
    }
  }

  // ----- every agreeing step keeps it -----

  lemma {:induction false} DeliverIsOneOfThem<C>(c: Cluster<C>, k: nat, j: nat)
    requires Invariant(c) && Allowed(c, Deliver(k, j)) && Agreeing(c, Deliver(k, j))
    ensures var next := After(c, Deliver(k, j)).servers[j].full;
            next == c.servers[j].full || next == c.messages[k].origin
  {
    ExplainedMatch(c.ledger, c.servers[j].full, c.messages[k].origin);
    DeliveredIsOneOfThem(c.servers[j].full, c.servers[j].snapshotted, c.messages[k].origin, c.messages[k].prev);
  }

  lemma {:induction false} LedgerGrows<C>(c: Cluster<C>, step: Step<C>)
    requires Invariant(c) && Allowed(c, step)
    ensures Grown(c.ledger, After(c, step).ledger)
  {
    if step.Start? {
      StartExplained(c.ledger, c.servers[step.i].full, Entry(step.command, c.servers[step.i].term));
    }
  }

  lemma {:induction false} StepKeepsLogs<C>(c: Cluster<C>, step: Step<C>)
    requires Invariant(c) && Allowed(c, step) && Agreeing(c, step)
    ensures LogsExplained(After(c, step)) == true
  {
    var d := After(c, step);
    LedgerGrows(c, step);
    forall i | 0 <= i < |d.servers|
      ensures Explained(d.ledger, d.servers[i].full)
    {
      if step.Start? && i == step.i {
        StartExplained(c.ledger, c.servers[i].full, Entry(step.command, c.servers[i].term));
      } else {
        if step.Deliver? && i == step.j {
          DeliverIsOneOfThem(c, step.k, i);
          ExplainedStays(c.ledger, d.ledger, c.messages[step.k].origin);
        }
        ExplainedStays(c.ledger, d.ledger, c.servers[i].full);
      }
    }
    forall k | 0 <= k < |d.messages|
      ensures Explained(d.ledger, d.messages[k].origin)
    {
      if k < |c.messages| {
        ExplainedStays(c.ledger, d.ledger, c.messages[k].origin);
      }
    }
  }

  /** The term checks are what keeps a leader's log its own. */
  lemma {:induction false} StepKeepsOwnLogs<C>(c: Cluster<C>, step: Step<C>)
    requires LeadersHold(c) && Allowed(c, step)
    ensures OwnLogs(After(c, step)) == true
  {
    var d := After(c, step);
    forall i: nat | Leads(d, i)
      ensures d.servers[i].term in d.ledger && d.ledger[d.servers[i].term] == d.servers[i].full
    {
      assert step.Deliver? ==> i != step.j;
      assert !step.Elect? ==> Leads(c, i);
    }
  }

  lemma {:induction false} StepKeepsKnown<C>(c: Cluster<C>, step: Step<C>)
    requires LeadersKnown(c) && Allowed(c, step)
    ensures LeadersKnown(After(c, step)) == true
  {
  }

  lemma {:induction false} StepKeepsSenders<C>(c: Cluster<C>, step: Step<C>)
    requires LeadersKnown(c) && SentByLeaders(c) && Allowed(c, step)
    ensures SentByLeaders(After(c, step)) == true
  {
  }

  lemma {:induction false} StepKeepsSent<C>(c: Cluster<C>, step: Step<C>)
    requires OwnLogs(c) && SentFromLedger(c) && Allowed(c, step) && Grown(c.ledger, After(c, step).ledger)
    ensures SentFromLedger(After(c, step)) == true
  {
    var d := After(c, step);
    forall k | 0 <= k < |d.messages|
      ensures d.messages[k].term in d.ledger && d.messages[k].origin <= d.ledger[d.messages[k].term]
    {
      if k < |c.messages| {
        var t := c.messages[k].term;
        assert d.ledger[t][..|c.ledger[t]|] == c.ledger[t];
      }
    }
  }

  lemma {:induction false} StepKeepsNextTerm<C>(c: Cluster<C>, step: Step<C>)
    requires LeadersHold(c) && Allowed(c, step)
    ensures NextTermKeeps(After(c, step)) == true
  {
    var d := After(c, step);
    forall t | t in d.leaders
      ensures KeptAt(d, t)
    {
      if t in c.leaders {
        assert KeptAt(c, t);
        assert Leads(c, c.leaders[t]) || c.servers[c.leaders[t]].term != t;
      }
    }
  }

  lemma {:induction false} StepKeepsShapes<C>(c: Cluster<C>, step: Step<C>)
    requires ShapesOk(c) && Allowed(c, step)
    ensures ShapesOk(After(c, step)) == true
  {
  }

  lemma {:induction false} StepKeepsTerms<C>(c: Cluster<C>, step: Step<C>)
    requires Invariant(c) && Allowed(c, step) && Agreeing(c, step)
    ensures TermsOk(After(c, step)) == true
  {
    var d := After(c, step);
    if step.Deliver? {
      DeliverIsOneOfThem(c, step.k, step.j);
      assert Ordered(c.messages[step.k].origin, c.messages[step.k].term);
    }
    forall i | 0 <= i < |d.servers|
      ensures Ordered(d.servers[i].full, d.servers[i].term)
    {
      assert Ordered(c.servers[i].full, c.servers[i].term);
    }
  }

  lemma {:induction false} StepKeepsInvariant<C>(c: Cluster<C>, step: Step<C>)
    requires Invariant(c) && Allowed(c, step) && Agreeing(c, step)
    ensures Invariant(After(c, step)) == true
  {
    StepKeepsLogs(c, step);
    StepKeepsOwnLogs(c, step);
    StepKeepsKnown(c, step);
    StepKeepsSenders(c, step);
    LedgerGrows(c, step);
    StepKeepsSent(c, step);
    StepKeepsNextTerm(c, step);
    StepKeepsShapes(c, step);
    StepKeepsTerms(c, step);
  }

  lemma {:induction false} RunsKeepInvariant<C>(states: seq<Cluster<C>>, steps: seq<Step<C>>, n: nat)
    requires IsRun(states, steps) && n < |states| && forall k :: 0 <= k < n ==> Agreeing(states[k], steps[k])
    ensures Invariant(states[n]) == true
  {
    if n == 0 {
      forall i | 0 <= i < |states[0].servers|
        ensures Explained(states[0].ledger, states[0].servers[i].full)
      {
        assert ExplainedAt(states[0].ledger, states[0].ledger[0], 0);
      }
    } else {
      RunsKeepInvariant(states, steps, n - 1);
      assert Takes(states[n - 1], steps[n - 1], states[n]);
      StepKeepsInvariant(states[n - 1], steps[n - 1]);
    }
  }

  // ----- reached states -----

  /** The cluster is the end of a run whose deliveries agree. */
  ghost predicate ReachedBy<C>(states: seq<Cluster<C>>, steps: seq<Step<C>>, c: Cluster<C>) {
    && IsRun(states, steps) && states[|steps|] == c
    && forall k :: 0 <= k < |steps| ==> Agreeing(states[k], steps[k])
  }

  ghost predicate Reached<C(!new)>(c: Cluster<C>) {
    exists states, steps :: ReachedBy(states, steps, c)
  }

  lemma {:induction false} StartReached<C(!new)>(c: Cluster<C>)
    requires Starts(c)
    ensures Reached(c)
  {
    assert ReachedBy([c], [], c);
  }

  lemma {:induction false} NextReached<C(!new)>(c: Cluster<C>, step: Step<C>)
    requires Reached(c) && Allowed(c, step) && Agreeing(c, step)
    ensures Reached(After(c, step))
  {
    var states, steps :| ReachedBy(states, steps, c);
    var more, all := states + [After(c, step)], steps + [step];
    forall k | 0 <= k < |all|
      ensures Takes(more[k], all[k], more[k + 1]) && Agreeing(more[k], all[k])
    {
      if k < |steps| {
        assert Takes(states[k], steps[k], states[k + 1]) && Agreeing(states[k], steps[k]);
      }
    }
    assert ReachedBy(more, all, After(c, step));
  }

  lemma {:induction false} ReachedOk<C(!new)>(c: Cluster<C>)
    requires Reached(c)
    ensures Invariant(c)
  {
    var states, steps :| ReachedBy(states, steps, c);
    RunsKeepInvariant(states, steps, |steps|);
  }

  // ----- log matching -----

  /** All logs and messages in flight. */
  function Logs<C>(c: Cluster<C>): (r: seq<seq<Entry<C>>>)
    ensures |r| == |c.servers| + |c.messages|
    ensures forall i :: 0 <= i < |c.servers| ==> r[i] == c.servers[i].full
    ensures forall k :: 0 <= k < |c.messages| ==> r[|c.servers| + k] == c.messages[k].origin
  {
    seq(|c.servers|, i requires 0 <= i < |c.servers| => c.servers[i].full)
    + seq(|c.messages|, k requires 0 <= k < |c.messages| => c.messages[k].origin)
  }

  ghost predicate AllMatch<C>(c: Cluster<C>) {
    forall a, b :: 0 <= a < |Logs(c)| && 0 <= b < |Logs(c)| ==> Match(Logs(c)[a], Logs(c)[b])
  }

  ghost function LogAt<C>(c: Cluster<C>, a: nat): (log: seq<Entry<C>>)
    requires Invariant(c) && a < |Logs(c)|
    ensures log == Logs(c)[a] && Explained(c.ledger, log)
  {
    if a < |c.servers| then c.servers[a].full else c.messages[a - |c.servers|].origin
  }

  lemma {:induction false} InvariantMatches<C>(c: Cluster<C>)
    requires Invariant(c)
    ensures AllMatch(c) == true
  {
    forall a, b | 0 <= a < |Logs(c)| && 0 <= b < |Logs(c)|
      ensures Match(Logs(c)[a], Logs(c)[b])
    {
      ExplainedMatch(c.ledger, LogAt(c, a), LogAt(c, b));
    }
  }

  lemma {:induction false} DisagreeingBreaks<C>(c: Cluster<C>, k: nat, j: nat)
    requires Invariant(c) && Allowed(c, Deliver(k, j)) && !Agreeing(c, Deliver(k, j))
    ensures !Match(After(c, Deliver(k, j)).servers[j].full, c.messages[k].origin)
  {
    var s, m := c.servers[j], c.messages[k];
    ExplainedMatch(c.ledger, s.full, m.origin);
    BoundaryMatchesIff(s.full, s.snapshotted, m.origin, m.prev);
  }

  /** A step keeps Log Matching among all logs and messages exactly when it agrees at the boundary. */
  lemma {:induction false} StepMatchesIff<C>(c: Cluster<C>, step: Step<C>)
    requires Invariant(c) && Allowed(c, step)
    ensures AllMatch(After(c, step)) <==> Agreeing(c, step)
  {
    var d := After(c, step);
    if Agreeing(c, step) {
      StepKeepsInvariant(c, step);
      InvariantMatches(d);
    } else {
      DisagreeingBreaks(c, step.k, step.j);
      assert !Match(Logs(d)[step.j], Logs(d)[|d.servers| + step.k]);
    }
  }

  /** Over every run whose deliveries agree, any two logs and messages in flight satisfy Log Matching. */
  lemma {:induction false} LogsMatch<C>(states: seq<Cluster<C>>, steps: seq<Step<C>>, n: nat)
    requires IsRun(states, steps) && n < |states| && forall k :: 0 <= k < n ==> Agreeing(states[k], steps[k])
    ensures AllMatch(states[n]) == true
  {
    RunsKeepInvariant(states, steps, n);
    InvariantMatches(states[n]);
  }

  // ----- acknowledgements -----

  /** A success beyond the snapshot means that the follower's log begins with the message's. */
  lemma {:induction false} SuccessIsTrue<C>(full: seq<Entry<C>>, snapshotted: nat, origin: seq<Entry<C>>, prev: nat)
    requires snapshotted < |full| && prev < |origin| && Match(full, origin) && |origin| - 1 > snapshotted
    requires prev <= snapshotted ==> BoundaryAgrees(full, snapshotted, origin)
    requires Succeeds(full, snapshotted, origin, prev)
    ensures origin <= Delivered(full, snapshotted, origin, prev)
  {
    if prev > snapshotted {
      NormalDelivery(full, snapshotted, origin, prev);
    } else {
      BoundaryDelivery(full, snapshotted, origin, prev);
      assert MatchAt(full, origin, snapshotted);
      JoinEqual(full, origin, snapshotted + 1, Delivered(full, snapshotted, origin, prev));
    }
  }

  /** The leader's log begins with that of a message it sent in this term or in the one before. */
  lemma {:induction false} RecentlySentIsHeld<C>(c: Cluster<C>, k: nat)
    requires LeadersHold(c) && k < |c.messages| && Leads(c, c.messages[k].sender)
    requires c.messages[k].term <= c.servers[c.messages[k].sender].term <= c.messages[k].term + 1
    ensures c.messages[k].origin <= c.servers[c.messages[k].sender].full
  {
    var t := c.messages[k].term;
    assert KeptAt(c, t);
    assert c.messages[k].origin <= c.ledger[t];
  }
}
