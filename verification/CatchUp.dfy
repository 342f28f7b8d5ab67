/**
 The whole back-up: heartbeats until the follower accepts, and what its log is then. The logs are those of a leader
 and a follower that have taken no snapshot and satisfy Log Matching.
 */
module CatchUp {
  import opened Common
  import opened Backup
  import opened LogMatching
  import Raft
  import Votes

  /** A log that was never truncated. */
  ghost predicate Whole<C>(log: seq<Entry<C>>) {
    Plain(Terms(log))
  }

  /** Delivering the leader's entries after an agreeing entry leaves a log that begins with the leader's. */
  lemma {:induction false} AgreedDelivery<C>(leader: seq<Entry<C>>, follower: seq<Entry<C>>, prev: nat)
    requires Whole(leader) && Whole(follower) && Match(follower, leader)
    requires prev < |leader| && prev < |follower| && follower[prev].term == leader[prev].term
    ensures Succeeds(follower, 0, leader, prev) && leader <= Delivered(follower, 0, leader, prev)
  {
    if prev == 0 {
      assert Terms(follower)[0] == 0 && Terms(leader)[0] == 0;
      assert MatchAt(follower, leader, 0);
      BoundaryDelivery(follower, 0, leader, 0);
      JoinEqual(follower, leader, 1, Delivered(follower, 0, leader, 0));
    } else {
      NormalDelivery(follower, 0, leader, prev);
    }
  }

  /**
   From any next index the back-up ends after at most one rejection per different term in the follower's log, plus one,
   and the delivery that is then accepted leaves the leader's log as a prefix of the follower's.
   */
  method BringUpToDate<C>(leader: seq<Entry<C>>, follower: seq<Entry<C>>, start: nat)
    returns (next: nat, rejections: nat, log: seq<Entry<C>>)
    requires Whole(leader) && Whole(follower) && Match(follower, leader) && 1 <= start <= |leader|
    ensures 1 <= next <= start && next - 1 < |follower| && follower[next - 1].term == leader[next - 1].term
    ensures rejections <= |TermsUpTo(Terms(follower), |follower| - 1)| + 1
    ensures log == Delivered(follower, 0, leader, next - 1) && leader <= log
  {
    next, rejections := Synchronise(Terms(leader), Terms(follower), start);
    AgreedDelivery(leader, follower, next - 1);
    log := Delivered(follower, 0, leader, next - 1);
  }

  /** The reply says what the exchange of the two logs says. */
  ghost predicate Answers(leader: seq<int>, follower: seq<int>, next: nat, reply: Raft.AppendReply)
    requires Plain(leader) && Plain(follower) && 1 <= next <= |leader|
  {
    var prev := next - 1;
    if reply.success then Exchange(leader, follower, next).None?
    else if prev >= |follower| then reply.conflictTerm == -1 && reply.conflictIndex == |follower|
    else && reply.conflictIndex >= 0 && follower[prev] != leader[prev] && prev >= 1
         && reply.conflictTerm == follower[prev] && StartsRun(follower, prev, reply.conflictIndex)
  }

  /** The handler accepts exactly when the exchange of the two logs does. */
  lemma {:induction false} AcceptsIff<C>(leader: seq<Entry<C>>, follower: seq<Entry<C>>, next: nat)
    requires Whole(leader) && Whole(follower) && Match(follower, leader) && 1 <= next <= |leader|
    ensures var h := Handle(0, follower, next - 1, leader[next - 1].term, leader[next..]);
            && (h.1 <==> Exchange(Terms(leader), Terms(follower), next).None?)
            && (if h.1 then leader <= h.0 else h.0 == follower)
  {
    var prev := next - 1;
    assert follower[0..] == follower && leader[prev + 1..] == leader[next..];
    assert Terms(follower)[0] == 0 && Terms(leader)[0] == 0;
    if prev < |follower| && follower[prev].term == leader[prev].term {
      AgreedDelivery(leader, follower, prev);
      assert Delivered(follower, 0, leader, prev) == Handle(0, follower, prev, leader[prev].term, leader[next..]).0;
    }
  }

  /** A whole log has no entry after the sentinel with the sentinel's term: its conflict search cannot panic. */
  lemma {:induction false} WholeNeverPanics(terms: seq<int>, prev: nat)
    requires Plain(terms)
    ensures !SearchPanics(terms, prev)
  {
  }

  /** What the handler has done, in terms of the exchange. */
  lemma {:induction false} HandlerAnswers(
    leader: seq<Raft.Entry>, before: seq<Raft.Entry>, follower: Raft.Server, next: nat, reply: Raft.AppendReply,
    panicked: bool)
    requires Whole(leader) == true && Whole(before) == true && Match(before, leader) == true && 1 <= next <= |leader|
    requires follower.Valid() == true && follower.snapshottedIndex == 0
    requires (follower.logs, reply.success) == Handle(0, before, next - 1, leader[next - 1].term, leader[next..])
    requires !reply.success ==> follower.RejectionReported(next - 1, reply, panicked) == true
    ensures Answers(Terms(leader), Terms(before), next, reply) == true
    ensures reply.success ==> leader <= follower.logs
    ensures !reply.success ==> follower.logs == before && reply.term == follower.currentTerm
  {
    AcceptsIff(leader, before, next);
    WholeNeverPanics(Terms(before), next - 1);
  }

  /**
   The follower's half of a heartbeat: it accepts and then begins with the leader's log, or it says where to go on.
   */
  method Accept(follower: Raft.Server, leader: seq<Raft.Entry>, next: nat, commit: int)
    returns (reply: Raft.AppendReply)
    requires follower.Valid() && follower.snapshottedIndex == 0
    requires Whole(leader) == true && Whole(follower.logs) == true && Match(follower.logs, leader) == true
    requires 1 <= next <= |leader|
    modifies follower`currentTerm, follower`role, follower`votedFor, follower`logs, follower`commitIndex
    ensures Answers(Terms(leader), Terms(old(follower.logs)), next, reply) == true
    ensures !reply.success ==> reply.term <= old(follower.currentTerm) && follower.logs == old(follower.logs)
    ensures reply.success ==> leader <= follower.logs
  {
    ghost var before := follower.logs;
    var panicked, toApply;
    reply, panicked, toApply :=
      follower.AppendEntries(follower.currentTerm, next - 1, leader[next - 1].term, leader[next..], commit);
    HandlerAnswers(leader, before, follower, next, reply, panicked);
  }

  /** The leader's half: after a rejection it goes back exactly as the exchange says. */
  method React(leader: Raft.Server, server: nat, reply: Raft.AppendReply, ghost follower: seq<int>)
    requires leader.Valid() && server < leader.peers && leader.role == Votes.Leader && leader.snapshottedIndex == 0
    requires Whole(leader.logs) && Plain(follower) && 1 <= leader.nextIndex[server] <= |leader.logs|
    requires (reply.term <= leader.currentTerm || reply.success)
    requires Answers(Terms(leader.logs), follower, leader.nextIndex[server], reply)
    modifies leader, leader.nextIndex, leader.matchIndex
    ensures leader.Valid() && leader.nextIndex == old(leader.nextIndex) && leader.logs == old(leader.logs)
    ensures !reply.success ==>
              Exchange(Terms(leader.logs), follower, old(leader.nextIndex[server])) == Some(leader.nextIndex[server])
  {
    var prev := leader.nextIndex[server] - 1;
    ghost var terms := Terms(leader.logs);
    var toApply, panicked := leader.AppendReplied(server, prev, |leader.logs| - prev - 1, reply);
    if !reply.success && prev < |follower| {
      ResultsAreUnique(follower, terms, prev, follower[prev], reply.conflictIndex, leader.nextIndex[server]);
    }
  }

  /**
   One heartbeat between a leader and a follower of its term, through the handlers themselves: the follower accepts or
   the leader backs up exactly as the exchange of the two logs says, and after acceptance the follower's log begins
   with the leader's.
   */
  method Heartbeat(leader: Raft.Server, follower: Raft.Server, server: nat) returns (accepted: bool)
    requires leader != follower && leader.Valid() && follower.Valid() && server < leader.peers
    requires leader.role == Votes.Leader && leader.currentTerm == follower.currentTerm
    requires leader.snapshottedIndex == 0 && follower.snapshottedIndex == 0
    requires Whole(leader.logs) && Whole(follower.logs) && Match(follower.logs, leader.logs)
    requires 1 <= leader.nextIndex[server] <= |leader.logs|
    modifies leader, follower, leader.nextIndex, leader.matchIndex
    ensures leader.Valid() && leader.nextIndex == old(leader.nextIndex) && leader.logs == old(leader.logs)
    ensures accepted ==> leader.logs <= follower.logs
    ensures !accepted ==>
              && follower.logs == old(follower.logs)
              && Exchange(Terms(leader.logs), Terms(follower.logs), old(leader.nextIndex[server])) ==
                   Some(leader.nextIndex[server])
  {
    ghost var terms := Terms(follower.logs);
    var reply := Accept(follower, leader.logs, leader.nextIndex[server], leader.commitIndex);
    React(leader, server, reply, terms);
    accepted := reply.success;
  }
}
