/**
 Votes and elections of raft.go over every run with crashes and restarts: a server grants one candidate per term,
 so two candidates cannot both collect a majority for the same term. Leaders are another matter: votes are counted
 without comparing terms, and the end of this module says exactly what that costs.
 */
module Votes {
  import opened Common

  datatype Role = Follower | Candidate | Leader

  const NOBODY := -1

  /** The part of a server that elections read and write. Term and vote are persistent. */
  datatype Peer = Peer(term: int, votedFor: int, role: Role)

  /** One round of `startElection`; `voters` are the servers counted so far. A crash of the candidate ends it. */
  datatype Election = Election(candidate: nat, term: int, voters: set<nat>, live: bool)

  datatype Grant = Grant(voter: nat, term: int, candidate: nat)

  /** A server was a leader in a term. */
  datatype Reign = Reign(leader: nat, term: int)

  datatype Cluster = Cluster(peers: seq<Peer>, elections: seq<Election>, grants: set<Grant>, reigns: set<Reign>)

  // ----- one server -----

  /** `convertTo(Follower)` clears the vote only if the server was not a follower already. */
  function ToFollower(p: Peer): Peer {
    if p.role.Follower? then p else p.(role := Follower, votedFor := NOBODY)
  }

  function NewTerm(p: Peer, term: int): Peer {
    ToFollower(p.(term := term))
  }

  /** `RequestVote`. Whether the candidate's log is up to date is left open. */
  function Asked(p: Peer, term: int, candidate: nat, upToDate: bool): (Peer, bool) {
    if term < p.term || (term == p.term && p.votedFor != NOBODY && p.votedFor != candidate) then (p, false)
    else
      var q := if term > p.term then NewTerm(p, term) else p;
      if !upToDate then (q, false) else (q.(votedFor := candidate), true)
  }

  /** The election timer fires: a follower becomes a candidate; any other server starts over in its role. */
  function TimedOut(p: Peer, me: nat): Peer {
    Peer(p.term + 1, me, if p.role.Follower? then Candidate else p.role)
  }

  // ----- steps -----

  /** `Hear` stands for any message with a higher term. */
  datatype Step = Timeout(i: nat) | Ask(e: nat, j: nat, upToDate: bool) | Count(e: nat, j: nat)
                | Hear(i: nat, term: int) | Crash(i: nat)

  ghost predicate Allowed(c: Cluster, step: Step) {
    match step
    case Timeout(i) => i < |c.peers|
    case Ask(e, j, _) => e < |c.elections| && j < |c.peers| && j != c.elections[e].candidate
    case Count(e, j) =>
      && e < |c.elections| && c.elections[e].live && j !in c.elections[e].voters
      && Grant(j, c.elections[e].term, c.elections[e].candidate) in c.grants
      && c.elections[e].candidate < |c.peers| && c.peers[c.elections[e].candidate].role.Candidate?
    case Hear(i, term) => i < |c.peers| && term > c.peers[i].term
    case Crash(i) => i < |c.peers|
  }

  predicate Majority(voters: set<nat>, n: nat) {
    |voters| > n / 2
  }

  function After(c: Cluster, step: Step): Cluster
    requires Allowed(c, step)
  {
    match step
    case Timeout(i) =>
      var p := TimedOut(c.peers[i], i);
      c.(peers := c.peers[i := p], elections := c.elections + [Election(i, p.term, {i}, true)],
         grants := c.grants + {Grant(i, p.term, i)},
         reigns := if p.role.Leader? then c.reigns + {Reign(i, p.term)} else c.reigns)
    case Ask(e, j, upToDate) =>
      var x := c.elections[e];
      var r := Asked(c.peers[j], x.term, x.candidate, upToDate);
      c.(peers := c.peers[j := r.0], grants := if r.1 then c.grants + {Grant(j, x.term, x.candidate)} else c.grants)
    case Count(e, j) =>
      var x := c.elections[e].(voters := c.elections[e].voters + {j});
      var p := c.peers[x.candidate];
      if Majority(x.voters, |c.peers|) then
        c.(elections := c.elections[e := x], peers := c.peers[x.candidate := p.(role := Leader)],
           reigns := c.reigns + {Reign(x.candidate, p.term)})
      else c.(elections := c.elections[e := x])
    case Hear(i, term) => c.(peers := c.peers[i := NewTerm(c.peers[i], term)])
    case Crash(i) =>
      c.(peers := c.peers[i := c.peers[i].(role := Follower)],
         elections := seq(|c.elections|, e requires 0 <= e < |c.elections| =>
           if c.elections[e].candidate == i then c.elections[e].(live := false) else c.elections[e]))
  }

  ghost predicate Takes(c: Cluster, step: Step, d: Cluster) {
    Allowed(c, step) && d == After(c, step)
  }

  ghost predicate Starts(c: Cluster) {
    && c.elections == [] && c.grants == {} && c.reigns == {}
    && forall i :: 0 <= i < |c.peers| ==> c.peers[i] == Peer(0, NOBODY, Follower)
  }

  ghost predicate IsRun(states: seq<Cluster>, steps: seq<Step>) {
    && |states| == |steps| + 1 && Starts(states[0])
    && forall i :: 0 <= i < |steps| ==> Takes(states[i], steps[i], states[i + 1])
  }

  // ----- the invariant -----

  /** More than half of the servers were counted. */
  predicate Won(c: Cluster, e: nat) {
    e < |c.elections| && Majority(c.elections[e].voters, |c.peers|)
  }

  /** The vote of a term is remembered for as long as the server is in that term. */
  ghost predicate GrantOk(c: Cluster, g: Grant) {
    && g.voter < |c.peers| && g.term <= c.peers[g.voter].term
    && (g.term == c.peers[g.voter].term ==> c.peers[g.voter].votedFor == g.candidate)
  }

  /** Every counted vote was granted, to this candidate and in this term. */
  ghost predicate ElectionOk(c: Cluster, x: Election) {
    && x.candidate < |c.peers| && x.term <= c.peers[x.candidate].term
    && forall j :: j in x.voters ==> Grant(j, x.term, x.candidate) in c.grants
  }

  ghost predicate GrantsOk(c: Cluster) {
    && (forall g :: g in c.grants ==> GrantOk(c, g))
    && (forall g, h :: g in c.grants && h in c.grants && g.voter == h.voter && g.term == h.term ==>
         g.candidate == h.candidate)
  }

  ghost predicate ElectionsOk(c: Cluster) {
    && (forall e :: 0 <= e < |c.elections| ==> ElectionOk(c, c.elections[e]))
    && (forall e, f :: 0 <= e < f < |c.elections| && c.elections[e].candidate == c.elections[f].candidate ==>
          c.elections[e].term < c.elections[f].term)
  }

  ghost predicate WinnerReigns(c: Cluster, x: Election) {
    x.candidate < |c.peers| && x.term == c.peers[x.candidate].term ==> Reign(x.candidate, x.term) in c.reigns
  }

  /** A candidate that won an election of its current term leads that term (with at least one other server to ask). */
  ghost predicate WinnersReign(c: Cluster) {
    |c.peers| >= 2 ==> forall e: nat :: Won(c, e) ==> WinnerReigns(c, c.elections[e])
  }

  ghost predicate Invariant(c: Cluster) {
    GrantsOk(c) && ElectionsOk(c) && WinnersReign(c)
  }

  lemma {:induction false} StepKeepsGrants(c: Cluster, step: Step)
    requires GrantsOk(c) && ElectionsOk(c) && Allowed(c, step)
    ensures GrantsOk(After(c, step)) == true
  {
    var d := After(c, step);
    forall g | g in d.grants
      ensures GrantOk(d, g)
    {
      assert g in c.grants ==> GrantOk(c, g);
    }
    assert forall g :: g in c.grants ==> GrantOk(c, g);
  }

  lemma {:induction false} StepKeepsElections(c: Cluster, step: Step)
    requires ElectionsOk(c) && Allowed(c, step)
    ensures ElectionsOk(After(c, step)) == true
  {
    var d := After(c, step);
    forall e | 0 <= e < |d.elections|
      ensures ElectionOk(d, d.elections[e])
    {
      assert e < |c.elections| ==> ElectionOk(c, c.elections[e]);
    }
    assert forall e :: 0 <= e < |c.elections| ==> ElectionOk(c, c.elections[e]);
  }

  lemma {:induction false} StepKeepsWinners(c: Cluster, step: Step)
    requires ElectionsOk(c) && WinnersReign(c) && Allowed(c, step)
    ensures WinnersReign(After(c, step)) == true
  {
    var d := After(c, step);
    if |c.peers| >= 2 {
      forall e: nat | Won(d, e)
        ensures WinnerReigns(d, d.elections[e])
      {
        if e < |c.elections| {
          assert ElectionOk(c, c.elections[e]);
          if Won(c, e) {
            assert WinnerReigns(c, c.elections[e]);
          }
        }
      }
    }
  }

  lemma {:induction false} StepKeepsInvariant(c: Cluster, step: Step)
    requires Invariant(c) && Allowed(c, step)
    ensures Invariant(After(c, step)) == true
  {
    StepKeepsWinners(c, step);
    StepKeepsGrants(c, step);
    StepKeepsElections(c, step);
  }

  lemma {:induction false} RunsKeepInvariant(states: seq<Cluster>, steps: seq<Step>, i: nat)
    requires IsRun(states, steps) && i < |states|
    ensures Invariant(states[i]) == true
  {
    if i > 0 {
      RunsKeepInvariant(states, steps, i - 1);
      assert Takes(states[i - 1], steps[i - 1], states[i]);
      StepKeepsInvariant(states[i - 1], steps[i - 1]);
    }
  }

  // ----- reached states -----

  ghost predicate ReachedBy(states: seq<Cluster>, steps: seq<Step>, c: Cluster) {
    IsRun(states, steps) && states[|steps|] == c
  }

  ghost predicate Reached(c: Cluster) {
    exists states, steps :: ReachedBy(states, steps, c)
  }

  lemma {:induction false} StartReached(c: Cluster)
    requires Starts(c)
    ensures Reached(c)
  {
    assert ReachedBy([c], [], c);
  }

  lemma {:induction false} NextReached(c: Cluster, step: Step)
    requires Reached(c) && Allowed(c, step)
    ensures Reached(After(c, step))
  {
    var states, steps :| ReachedBy(states, steps, c);
    var more, all := states + [After(c, step)], steps + [step];
    forall k | 0 <= k < |all|
      ensures Takes(more[k], all[k], more[k + 1])
    {
      if k < |steps| {
        assert Takes(states[k], steps[k], states[k + 1]);
      }
    }
    assert ReachedBy(more, all, After(c, step));
  }

  // ----- one winner per term -----

  /** Two majorities of the same servers have a server in common. */
  lemma {:induction false} MajoritiesMeet(a: set<nat>, b: set<nat>, all: set<nat>) returns (j: nat)
    requires a <= all && b <= all && Majority(a, |all|) && Majority(b, |all|)
    ensures j in a && j in b
  {
    if a * b == {} {
      assert |a + b| == |a| + |b|;
      SubsetSize(a + b, all);
      assert false;
    }
    j :| j in a * b;
  }

  function Servers(n: nat): (r: set<nat>)
    ensures |r| == n && forall i: nat :: i in r <==> i < n
  {
    if n == 0 then {} else Servers(n - 1) + {n - 1}
  }

  lemma {:induction false} VotersAreServers(c: Cluster, e: nat)
    requires Invariant(c) && e < |c.elections|
    ensures c.elections[e].voters <= Servers(|c.peers|)
  {
    assert ElectionOk(c, c.elections[e]);
    forall j | j in c.elections[e].voters
      ensures j < |c.peers|
    {
      assert GrantOk(c, Grant(j, c.elections[e].term, c.elections[e].candidate));
    }
  }

  /** At most one election of a term reaches a majority. */
  lemma {:induction false} OneMajorityPerTerm(c: Cluster, e: nat, f: nat)
    requires Invariant(c) && Won(c, e) && Won(c, f) && c.elections[e].term == c.elections[f].term
    ensures e == f
  {
    VotersAreServers(c, e);
    VotersAreServers(c, f);
    var j := MajoritiesMeet(c.elections[e].voters, c.elections[f].voters, Servers(|c.peers|));
    assert ElectionOk(c, c.elections[e]) && ElectionOk(c, c.elections[f]);
    assert Grant(j, c.elections[e].term, c.elections[e].candidate) in c.grants
        && Grant(j, c.elections[f].term, c.elections[f].candidate) in c.grants;
  }

  /** Over every run: one vote per server and term, and one candidate with a majority per term. */
  lemma {:induction false} VotesAreUnique(states: seq<Cluster>, steps: seq<Step>, i: nat)
    requires IsRun(states, steps) && i < |states|
    ensures forall g, h :: g in states[i].grants && h in states[i].grants && g.voter == h.voter && g.term == h.term ==>
              g.candidate == h.candidate
    ensures forall e: nat, f: nat ::
              Won(states[i], e) && Won(states[i], f) && states[i].elections[e].term == states[i].elections[f].term ==>
                e == f
  {
    var c := states[i];
    RunsKeepInvariant(states, steps, i);
    forall e: nat, f: nat | Won(c, e) && Won(c, f) && c.elections[e].term == c.elections[f].term
      ensures e == f
    {
      OneMajorityPerTerm(c, e, f);
    }
  }

  // ----- leaders -----

  /** An election of this server for this very term has a majority. */
  ghost predicate Elected(c: Cluster, r: Reign) {
    exists e: nat :: Won(c, e) && c.elections[e].candidate == r.leader && c.elections[e].term == r.term
  }

  ghost predicate LeadersElected(c: Cluster) {
    forall r :: r in c.reigns ==> Elected(c, r)
  }

  /**
   What the code does not check: a vote is counted in the term it was asked for, and the election timer does not
   fire on a leader.
   */
  predicate Careful(c: Cluster, step: Step) {
    match step
    case Count(e, _) =>
      e < |c.elections| && c.elections[e].candidate < |c.peers| ==>
        c.elections[e].term == c.peers[c.elections[e].candidate].term
    case Timeout(i) => i < |c.peers| ==> !c.peers[i].role.Leader?
    case _ => true
  }

  /** A step that makes a new leader makes an elected one exactly when it is careful (in a cluster of at least two). */
  lemma {:induction false} NewLeaderElectedIff(c: Cluster, step: Step, r: Reign)
    requires Invariant(c) && Allowed(c, step) && |c.peers| >= 2 && r in After(c, step).reigns && r !in c.reigns
    ensures Elected(After(c, step), r) <==> Careful(c, step)
  {
    var d := After(c, step);
    assert step.Count? || step.Timeout?;
    var e := if step.Count? then step.e else |c.elections|;
    assert step.Count? ==> Won(d, e);
    forall f: nat | f != e && Won(d, f)
      ensures !(d.elections[f].candidate == r.leader && d.elections[f].term == r.term)
    {
      assert Won(c, f) && WinnerReigns(c, c.elections[f]) && ElectionOk(c, c.elections[f]);
    }
  }

  lemma {:induction false} CarefulStepKeepsLeaders(c: Cluster, step: Step)
    requires Invariant(c) && Allowed(c, step) && Careful(c, step) && LeadersElected(c)
    ensures LeadersElected(After(c, step))
  {
    var d := After(c, step);
    forall r | r in d.reigns
      ensures Elected(d, r)
    {
      if r in c.reigns {
        var e: nat :| Won(c, e) && c.elections[e].candidate == r.leader && c.elections[e].term == r.term;
        SubsetSize(c.elections[e].voters, d.elections[e].voters);
        assert Won(d, e);
      } else {
        assert step.Count?;
        assert Won(d, step.e);
      }
    }
  }

  /** If every step is careful, a term never has two leaders. */
  lemma {:induction false} CarefulRunsHaveOneLeader(states: seq<Cluster>, steps: seq<Step>, i: nat)
    requires IsRun(states, steps) && i < |states|
    requires forall k :: 0 <= k < i ==> Careful(states[k], steps[k])
    ensures LeadersElected(states[i])
    ensures forall r, q :: r in states[i].reigns && q in states[i].reigns && r.term == q.term ==> r.leader == q.leader
  {
    var c := states[i];
    if i > 0 {
      CarefulRunsHaveOneLeader(states, steps, i - 1);
      RunsKeepInvariant(states, steps, i - 1);
      assert Takes(states[i - 1], steps[i - 1], states[i]);
      CarefulStepKeepsLeaders(states[i - 1], steps[i - 1]);
    }
    RunsKeepInvariant(states, steps, i);
    forall r, q | r in c.reigns && q in c.reigns && r.term == q.term
      ensures r.leader == q.leader
    {
      assert Elected(c, r) && Elected(c, q);
      var e: nat :| Won(c, e) && c.elections[e].candidate == r.leader && c.elections[e].term == r.term;
      var f: nat :| Won(c, f) && c.elections[f].candidate == q.leader && c.elections[f].term == q.term;
      OneMajorityPerTerm(c, e, f);
    }
  }
}
