/**
 Votes and logs in one system: the leaders that start and send are those that the elections make, terms move through
 vote requests and messages alike, voters compare logs, and servers crash. If the elections are careful (see
 `Votes.Careful`), no term has two leaders, and Log Matching follows without assuming that.
 */
module Consensus {
  import opened LogMatching
  import V = Votes
  import L = Replication

  /** `asked[e]` is the log of the candidate when election `e` began: its vote requests carry the last entry of it. */
  datatype System<C> = System(votes: V.Cluster, logs: L.Cluster<C>, asked: seq<seq<Entry<C>>>)

  datatype Action<C> = Vote(vote: V.Step) | Replicate(step: L.Step<C>)

  // ----- steps -----

  /** The server whose state a step of an election changes. */
  function Mover(c: V.Cluster, step: V.Step): nat
    requires V.Allowed(c, step)
  {
    match step
    case Timeout(i) => i
    case Ask(_, j, _) => j
    case Count(e, _) => c.elections[e].candidate
    case Hear(i, _) => i
    case Crash(i) => i
  }

  function WithTerm<C>(c: L.Cluster<C>, i: nat, term: int): L.Cluster<C>
    requires i < |c.servers|
  {
    c.(servers := c.servers[i := c.servers[i].(term := term)])
  }

  function WithLeader<C>(c: L.Cluster<C>, i: nat, term: int): L.Cluster<C>
    requires i < |c.servers|
  {
    c.(ledger := c.ledger[term := c.servers[i].full], leaders := c.leaders[term := i])
  }

  /** A restarted server has its log; what it knew to be committed beyond its snapshot is gone. */
  function Restarted<C>(c: L.Cluster<C>, i: nat): L.Cluster<C>
    requires i < |c.servers|
  {
    c.(servers := c.servers[i := c.servers[i].(commit := c.servers[i].snapshotted)])
  }

  /** What the voter finds when it compares the candidate's last entry with its own log. */
  predicate Compares<C>(voter: L.Server<C>, candidate: seq<Entry<C>>, upToDate: bool) {
    && voter.snapshotted < |voter.full| && candidate != []
    && upToDate == UpToDate(voter.full[voter.snapshotted..], voter.snapshotted,
                            |candidate| - 1, candidate[|candidate| - 1].term)
  }

  /** A step of an election: the server that moves takes its new term, and leads if the step makes it a leader. */
  ghost predicate VoteTakes<C>(s: System<C>, step: V.Step, t: System<C>) {
    && V.Allowed(s.votes, step) && V.Careful(s.votes, step) && t.votes == V.After(s.votes, step)
    && var i := Mover(s.votes, step);
       && i < |s.logs.servers| && i < |t.votes.peers|
       && (step.Ask? ==> step.e < |s.asked| && Compares(s.logs.servers[i], s.asked[step.e], step.upToDate))
       && t.asked == (if step.Timeout? then s.asked + [s.logs.servers[i].full] else s.asked)
       && var c := if step.Crash? then Restarted(s.logs, i) else WithTerm(s.logs, i, t.votes.peers[i].term);
          t.logs == if t.votes.reigns == s.votes.reigns then c else WithLeader(c, i, t.votes.peers[i].term)
  }

  /** A server that receives a message of a higher term is a follower in that term. */
  function VotesAfter<C>(votes: V.Cluster, logs: L.Cluster<C>, step: L.Step<C>): V.Cluster {
    if && step.Deliver? && step.k < |logs.messages| && step.j < |votes.peers|
       && logs.messages[step.k].term > votes.peers[step.j].term
    then V.After(votes, V.Hear(step.j, logs.messages[step.k].term)) else votes
  }

  /** Only a server in the role of a leader starts, sends and commits; a message can bring a higher term. */
  ghost predicate LogTakes<C>(s: System<C>, step: L.Step<C>, t: System<C>) {
    && !step.Elect? && !step.Hear?
    && (step.Start? || step.Send? || step.Commit? ==> step.i < |s.votes.peers| && s.votes.peers[step.i].role.Leader?)
    && L.Takes(s.logs, step, t.logs)
    && t.votes == VotesAfter(s.votes, s.logs, step) && t.asked == s.asked
  }

  ghost predicate Takes<C>(s: System<C>, action: Action<C>, t: System<C>) {
    match action
    case Vote(step) => VoteTakes(s, step, t)
    case Replicate(step) => LogTakes(s, step, t)
  }

  ghost predicate Starts<C>(s: System<C>) {
    && V.Starts(s.votes) && L.Starts(s.logs) && |s.votes.peers| == |s.logs.servers| && s.logs.ledger.Keys == {0}
    && s.asked == []
  }

  ghost predicate IsRun<C>(states: seq<System<C>>, actions: seq<Action<C>>) {
    && |states| == |actions| + 1 && Starts(states[0])
    && forall i :: 0 <= i < |actions| ==> Takes(states[i], actions[i], states[i + 1])
  }

  /** Messages agree with the guard where they meet a snapshot boundary. */
  ghost predicate Agreeing<C>(s: System<C>, action: Action<C>) {
    action.Replicate? ==> L.Agreeing(s.logs, action.step)
  }

  // ----- the invariant -----

  ghost predicate SameTerms<C>(s: System<C>) {
    && |s.votes.peers| == |s.logs.servers|
    && forall i :: 0 <= i < |s.votes.peers| ==> s.votes.peers[i].term == s.logs.servers[i].term >= 0
  }

  /** The leaders of the logs are exactly the servers that were leaders; every term with a log but term 0 has one. */
  ghost predicate SameLeaders<C>(s: System<C>) {
    && (forall r :: r in s.votes.reigns ==>
         r.term > 0 && r.term in s.logs.leaders && s.logs.leaders[r.term] == r.leader)
    && (forall t :: t in s.logs.leaders ==> s.logs.leaders[t] >= 0 && V.Reign(s.logs.leaders[t], t) in s.votes.reigns)
    && (forall t :: t in s.logs.ledger <==> t == 0 || t in s.logs.leaders)
  }

  ghost predicate LeadersReign(c: V.Cluster) {
    && (forall i: nat :: i < |c.peers| && c.peers[i].role.Leader? ==> V.Reign(i, c.peers[i].term) in c.reigns)
    && (forall e :: 0 <= e < |c.elections| ==> c.elections[e].term > 0)
  }

  ghost predicate VotesOk(c: V.Cluster) {
    V.Invariant(c) && V.LeadersElected(c) && LeadersReign(c)
  }

  /** The logs that votes are asked for are logs of the system, with terms that do not go down. */
  ghost predicate AskedOk<C>(s: System<C>) {
    && |s.asked| == |s.votes.elections|
    && forall e :: 0 <= e < |s.asked| ==>
         s.asked[e] != [] && L.Explained(s.logs.ledger, s.asked[e]) && L.Ordered(s.asked[e], s.votes.elections[e].term)
  }

  ghost predicate Invariant<C>(s: System<C>) {
    VotesOk(s.votes) && L.Invariant(s.logs) && SameTerms(s) && SameLeaders(s) && AskedOk(s)
  }

  // ----- elections -----

  lemma {:induction false} VoteKeepsReigns(c: V.Cluster, step: V.Step)
    requires V.Allowed(c, step) && V.Careful(c, step) && LeadersReign(c)
    requires forall i :: 0 <= i < |c.peers| ==> c.peers[i].term >= 0
    ensures LeadersReign(V.After(c, step)) == true
  {
    assert step.Timeout? ==> c.peers[step.i].term + 1 > 0;
  }

  lemma {:induction false} VoteKeepsVotes(c: V.Cluster, step: V.Step)
    requires VotesOk(c) && V.Allowed(c, step) && V.Careful(c, step)
    requires forall i :: 0 <= i < |c.peers| ==> c.peers[i].term >= 0
    ensures VotesOk(V.After(c, step)) == true
  {
    V.StepKeepsInvariant(c, step);
    V.CarefulStepKeepsLeaders(c, step);
    VoteKeepsReigns(c, step);
  }

  /** Two leaders of a term are the same server. */
  lemma {:induction false} OneLeader(c: V.Cluster, r: V.Reign, q: V.Reign)
    requires V.Invariant(c) && V.LeadersElected(c) && r in c.reigns && q in c.reigns && r.term == q.term
    ensures r == q
  {
    assert V.Elected(c, r) && V.Elected(c, q);
    var e: nat :| V.Won(c, e) && c.elections[e].candidate == r.leader && c.elections[e].term == r.term;
    var f: nat :| V.Won(c, f) && c.elections[f].candidate == q.leader && c.elections[f].term == q.term;
    V.OneMajorityPerTerm(c, e, f);
  }

  /** Only a counted vote makes a leader, of the term the winner is in. */
  lemma {:induction false} OnlyCountsElect(c: V.Cluster, step: V.Step)
    requires V.Allowed(c, step) && V.Careful(c, step) && V.After(c, step).reigns != c.reigns
    requires forall e :: 0 <= e < |c.elections| ==> c.elections[e].term > 0
    ensures var i := Mover(c, step);
            && i < |c.peers| == |V.After(c, step).peers| && V.After(c, step).peers[i].term == c.peers[i].term > 0
            && V.After(c, step).reigns == c.reigns + {V.Reign(i, c.peers[i].term)}
  {
  }

  /** A new leader leads a term that had none. */
  lemma {:induction false} NewLeaderNewTerm<C>(s: System<C>, r: V.Reign, votes: V.Cluster)
    requires V.Invariant(votes) && V.LeadersElected(votes) && SameLeaders(s)
    requires votes.reigns == s.votes.reigns + {r} != s.votes.reigns && r.term > 0
    ensures r.term !in s.logs.ledger
  {
    if r.term in s.logs.ledger {
      OneLeader(votes, V.Reign(s.logs.leaders[r.term], r.term), r);
    }
  }

  lemma {:induction false} TermStep<C>(c: L.Cluster<C>, i: nat, term: int)
    requires L.Invariant(c) && i < |c.servers| && term >= c.servers[i].term
    ensures L.Invariant(WithTerm(c, i, term)) == true
  {
    if term > c.servers[i].term {
      L.StepKeepsInvariant(c, L.Hear(i, term));
    } else {
      assert WithTerm(c, i, term) == c;
    }
  }

  lemma {:induction false} CrashStep<C>(c: L.Cluster<C>, i: nat)
    requires L.Invariant(c) && i < |c.servers|
    ensures L.Invariant(Restarted(c, i)) == true
  {
    var d := Restarted(c, i);
    assert forall j :: 0 <= j < |c.servers| ==> d.servers[j].full == c.servers[j].full;
    assert forall j: nat :: L.Leads(d, j) ==> L.Leads(c, j);
    forall t | t in c.leaders
      ensures L.KeptAt(d, t)
    {
      assert L.KeptAt(c, t);
    }
  }

  lemma {:induction false} LeaderStep<C>(c: L.Cluster<C>, i: nat, term: int)
    requires L.Invariant(c) && i < |c.servers| && term == c.servers[i].term && term !in c.ledger
    ensures L.Invariant(WithLeader(c, i, term)) == true
  {
    L.StepKeepsInvariant(c, L.Elect(i, term));
    assert c.servers[i := c.servers[i].(term := term)] == c.servers;
  }

  /** Terms only grow, for the server that moves; the others keep theirs. */
  lemma {:induction false} VoteKeepsTerms<C>(s: System<C>, step: V.Step, t: System<C>)
    requires SameTerms(s) && VoteTakes(s, step, t)
    ensures SameTerms(t) == true
    ensures t.votes.peers[Mover(s.votes, step)].term >= s.logs.servers[Mover(s.votes, step)].term
  {
  }

  /** If the step makes a leader, it is the server that moves, and its term is new to the logs. */
  ghost predicate LeaderIsNew<C>(s: System<C>, i: nat, t: System<C>) {
    t.votes.reigns != s.votes.reigns ==>
      && i < |t.votes.peers| && t.votes.peers[i].term > 0 && t.votes.peers[i].term !in s.logs.ledger
      && t.votes.reigns == s.votes.reigns + {V.Reign(i, t.votes.peers[i].term)}
  }

  lemma {:induction false} VoteElects<C>(s: System<C>, step: V.Step, t: System<C>)
    requires VotesOk(s.votes) && VotesOk(t.votes) && SameLeaders(s) && VoteTakes(s, step, t)
    ensures LeaderIsNew(s, Mover(s.votes, step), t) == true
  {
    if t.votes.reigns != s.votes.reigns {
      OnlyCountsElect(s.votes, step);
      var i := Mover(s.votes, step);
      NewLeaderNewTerm(s, V.Reign(i, s.votes.peers[i].term), t.votes);
    }
  }

  lemma {:induction false} VoteKeepsLeaders<C>(s: System<C>, step: V.Step, t: System<C>)
    requires SameLeaders(s) && VoteTakes(s, step, t) && LeaderIsNew(s, Mover(s.votes, step), t)
    ensures SameLeaders(t) == true
  {
  }

  lemma {:induction false} VoteKeepsLogs<C>(s: System<C>, step: V.Step, t: System<C>)
    requires L.Invariant(s.logs) && VoteTakes(s, step, t)
    requires t.votes.peers[Mover(s.votes, step)].term >= s.logs.servers[Mover(s.votes, step)].term
    requires LeaderIsNew(s, Mover(s.votes, step), t)
    ensures L.Invariant(t.logs) == true && L.Grown(s.logs.ledger, t.logs.ledger) == true
  {
    var i := Mover(s.votes, step);
    var term := t.votes.peers[i].term;
    if step.Crash? {
      CrashStep(s.logs, i);
    } else {
      TermStep(s.logs, i, term);
    }
    if t.votes.reigns != s.votes.reigns {
      LeaderStep(WithTerm(s.logs, i, term), i, term);
    }
  }

  lemma {:induction false} VoteKeepsAsked<C>(s: System<C>, step: V.Step, t: System<C>)
    requires AskedOk(s) && L.Invariant(s.logs) && SameTerms(s) && VoteTakes(s, step, t)
    requires L.Grown(s.logs.ledger, t.logs.ledger)
    ensures AskedOk(t) == true
  {
    assert |t.votes.elections| == |t.asked|;
    forall e | 0 <= e < |t.asked|
      ensures t.asked[e] != [] && L.Explained(t.logs.ledger, t.asked[e])
      ensures L.Ordered(t.asked[e], t.votes.elections[e].term)
    {
      L.ExplainedStays(s.logs.ledger, t.logs.ledger, t.asked[e]);
    }
  }

  lemma {:induction false} VoteKeepsInvariant<C>(s: System<C>, step: V.Step, t: System<C>)
    requires Invariant(s) && VoteTakes(s, step, t)
    ensures Invariant(t) == true
  {
    VoteKeepsTerms(s, step, t);
    VoteKeepsVotes(s.votes, step);
    VoteElects(s, step, t);
    VoteKeepsLeaders(s, step, t);
    VoteKeepsLogs(s, step, t);
    VoteKeepsAsked(s, step, t);
  }

  // ----- logs -----

  /** A server in the role of a leader leads the term it is in. */
  lemma {:induction false} RoleLeads<C>(s: System<C>, i: nat)
    requires Invariant(s) && i < |s.votes.peers| && s.votes.peers[i].role.Leader?
    ensures L.Leads(s.logs, i)
  {
    assert V.Reign(i, s.votes.peers[i].term) in s.votes.reigns;
  }

  lemma {:induction false} LogKeepsTerms<C>(s: System<C>, step: L.Step<C>, t: System<C>)
    requires SameTerms(s) && LogTakes(s, step, t)
    ensures SameTerms(t) == true
  {
  }

  lemma {:induction false} OnlyElectionsMakeLeaders<C>(c: L.Cluster<C>, step: L.Step<C>)
    requires L.Allowed(c, step) && !step.Elect? && forall t :: t in c.leaders ==> t in c.ledger
    ensures L.After(c, step).leaders == c.leaders && L.After(c, step).ledger.Keys == c.ledger.Keys
  {
  }

  lemma {:induction false} SameLeadersStay<C>(s: System<C>, t: System<C>)
    requires SameLeaders(s) && t.votes.reigns == s.votes.reigns
    requires t.logs.leaders == s.logs.leaders && t.logs.ledger.Keys == s.logs.ledger.Keys
    ensures SameLeaders(t) == true
  {
    assert forall k :: k in t.logs.ledger <==> k in s.logs.ledger.Keys;
  }

  lemma {:induction false} LogKeepsLeaders<C>(s: System<C>, step: L.Step<C>, t: System<C>)
    requires SameLeaders(s) && LogTakes(s, step, t)
    ensures SameLeaders(t) == true
  {
    OnlyElectionsMakeLeaders(s.logs, step);
    SameLeadersStay(s, t);
  }

  lemma {:induction false} LogKeepsAsked<C>(s: System<C>, step: L.Step<C>, t: System<C>)
    requires AskedOk(s) && L.Invariant(s.logs) && LogTakes(s, step, t)
    ensures AskedOk(t) == true
  {
    L.LedgerGrows(s.logs, step);
    assert t.votes.elections == s.votes.elections;
    forall e | 0 <= e < |t.asked|
      ensures L.Explained(t.logs.ledger, t.asked[e])
    {
      L.ExplainedStays(s.logs.ledger, t.logs.ledger, t.asked[e]);
    }
  }

  lemma {:induction false} LogKeepsVotes<C>(s: System<C>, step: L.Step<C>, t: System<C>)
    requires VotesOk(s.votes) && SameTerms(s) && LogTakes(s, step, t)
    ensures VotesOk(t.votes) == true
  {
    if t.votes != s.votes {
      VoteKeepsVotes(s.votes, V.Hear(step.j, s.logs.messages[step.k].term));
    }
  }

  lemma {:induction false} LogKeepsInvariant<C>(s: System<C>, step: L.Step<C>, t: System<C>)
    requires Invariant(s) && LogTakes(s, step, t) && L.Agreeing(s.logs, step)
    ensures Invariant(t) == true
  {
    LogKeepsTerms(s, step, t);
    LogKeepsLeaders(s, step, t);
    LogKeepsAsked(s, step, t);
    L.StepKeepsInvariant(s.logs, step);
    LogKeepsVotes(s, step, t);
  }

  lemma {:induction false} StartsOk<C>(s: System<C>)
    requires Starts(s)
    ensures Invariant(s)
  {
    L.RunsKeepInvariant([s.logs], [], 0);
  }

  lemma {:induction false} RunsKeepInvariant<C>(states: seq<System<C>>, actions: seq<Action<C>>, n: nat)
    requires IsRun(states, actions) && n < |states| && forall k :: 0 <= k < n ==> Agreeing(states[k], actions[k])
    ensures Invariant(states[n]) == true
  {
    if n == 0 {
      StartsOk(states[0]);
    } else {
      RunsKeepInvariant(states, actions, n - 1);
      var s, t := states[n - 1], states[n];
      assert Takes(s, actions[n - 1], t) && Agreeing(s, actions[n - 1]);
      match actions[n - 1]
      case Vote(step) => VoteKeepsInvariant(s, step, t);
      case Replicate(step) => LogKeepsInvariant(s, step, t);
    }
  }

  /**
   Over every run with careful elections whose deliveries agree at snapshot boundaries: no term has two leaders, and any
   two logs and messages in flight satisfy Log Matching.
   */
  lemma {:induction false} CarefulRunsMatch<C>(states: seq<System<C>>, actions: seq<Action<C>>, n: nat)
    requires IsRun(states, actions) && n < |states| && forall k :: 0 <= k < n ==> Agreeing(states[k], actions[k])
    ensures forall r, q :: r in states[n].votes.reigns && q in states[n].votes.reigns && r.term == q.term ==> r == q
    ensures L.AllMatch(states[n].logs)
  {
    RunsKeepInvariant(states, actions, n);
    L.InvariantMatches(states[n].logs);
    forall r, q | r in states[n].votes.reigns && q in states[n].votes.reigns && r.term == q.term
      ensures r == q
    {
      OneLeader(states[n].votes, r, q);
    }
  }

  // ----- the election restriction -----

  /** Of two logs with the same last term, the one is up to date exactly if it extends the other. */
  lemma {:induction false} SameTermExtends<C>(ledger: map<int, seq<Entry<C>>>, a: seq<Entry<C>>, b: seq<Entry<C>>)
    requires L.Explained(ledger, a) && L.Explained(ledger, b) && a != [] && b != []
    requires a[|a| - 1].term == b[|b| - 1].term
    ensures |a| <= |b| <==> a <= b
  {
    assert L.ExplainedAt(ledger, a, |a| - 1) && L.ExplainedAt(ledger, b, |b| - 1);
    var log := ledger[a[|a| - 1].term];
    assert a == log[..|a|] && b == log[..|b|];
  }

  lemma {:induction false} ExtendsIsUpToDate<C>(a: seq<Entry<C>>, b: seq<Entry<C>>, term: int)
    requires a <= b && a != [] && L.Ordered(b, term)
    ensures a[|a| - 1].term <= b[|b| - 1].term && |a| <= |b|
  {
  }

  /**
   In every state with the invariant a voter finds a candidate's log up to date exactly when that log extends its own,
   or has an entry of a term later than all of its own.
   */
  lemma {:induction false} UpToDateMeans<C>(s: System<C>, e: nat, j: nat, upToDate: bool)
    requires Invariant(s) && e < |s.asked| && j < |s.logs.servers| && Compares(s.logs.servers[j], s.asked[e], upToDate)
    ensures var mine, other := s.logs.servers[j].full, s.asked[e];
            upToDate <==> mine <= other ||
                          exists k :: 0 <= k < |other| && forall i :: 0 <= i < |mine| ==> mine[i].term < other[k].term
  {
    var mine, other := s.logs.servers[j].full, s.asked[e];
    assert L.Ordered(mine, s.logs.servers[j].term) && L.Ordered(other, s.votes.elections[e].term);
    assert L.Explained(s.logs.ledger, mine) && L.Explained(s.logs.ledger, other);
    if mine[|mine| - 1].term == other[|other| - 1].term {
      SameTermExtends(s.logs.ledger, mine, other);
    }
    if mine <= other {
      ExtendsIsUpToDate(mine, other, s.votes.elections[e].term);
    }
    if upToDate && !(mine <= other) {
      assert other[|other| - 1].term > mine[|mine| - 1].term;
      assert forall i :: 0 <= i < |mine| ==> mine[i].term < other[|other| - 1].term;
    }
  }

  /**
   Over every careful run with agreeing deliveries: a server that is asked for its vote grants it exactly when the term
   is not stale, it has not voted for another candidate of this term, and the candidate's log, as it was when the
   election began, extends its own or has an entry of a later term than all of its own.
   */
  lemma {:induction false} VoteIsGrantedIff<C>(states: seq<System<C>>, actions: seq<Action<C>>, n: nat)
    requires IsRun(states, actions) && n < |actions| && forall k :: 0 <= k < n ==> Agreeing(states[k], actions[k])
    requires actions[n].Vote? && actions[n].vote.Ask?
    ensures var e, j := actions[n].vote.e, actions[n].vote.j;
            && e < |states[n].asked| && e < |states[n].votes.elections|
            && j < |states[n].logs.servers| && j < |states[n].votes.peers|
            && var x, p, mine, other :=
                 states[n].votes.elections[e], states[n].votes.peers[j],
                 states[n].logs.servers[j].full, states[n].asked[e];
               V.Asked(p, x.term, x.candidate, actions[n].vote.upToDate).1 <==>
                 && x.term >= p.term && (x.term == p.term ==> p.votedFor == V.NOBODY || p.votedFor == x.candidate)
                 && (mine <= other ||
                     exists k :: 0 <= k < |other| && forall i :: 0 <= i < |mine| ==> mine[i].term < other[k].term)
  {
    RunsKeepInvariant(states, actions, n);
    assert Takes(states[n], actions[n], states[n + 1]);
    var step := actions[n].vote;
    UpToDateMeans(states[n], step.e, step.j, step.upToDate);
  }
}
