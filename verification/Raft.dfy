/**
 The handlers of raft/raft.go as methods on a server object, each proved against the functions that the runs of the
 other modules are made of: votes, the append handler, the back-up search, commits and snapshots.
 */
module Raft {
  import opened Common
  import KvState
  import Backup
  import LM = LogMatching
  import L = Replication
  import R = Replica
  import opened Votes

  type Entry = LM.Entry<KvState.Op>

  /** The reply of `AppendEntries`; fields that a branch does not set are 0. */
  datatype AppendReply = AppendReply(success: bool, term: int, conflictTerm: int, conflictIndex: int)

  function Commands(logs: seq<Entry>): (c: seq<KvState.Op>)
    ensures |c| == |logs| && forall i :: 0 <= i < |c| ==> c[i] == logs[i].command
  {
    seq(|logs|, i requires 0 <= i < |logs| => logs[i].command)
  }

  // ----- counting acknowledgements -----

  /** Every one of these servers is known to hold entry `i`. */
  ghost predicate HeldBy(matchIndex: seq<int>, servers: set<nat>, i: int) {
    forall j :: j in servers ==> j < |matchIndex| && matchIndex[j] >= i
  }

  function Holding(matchIndex: seq<int>, i: int): (r: set<nat>)
    ensures HeldBy(matchIndex, r, i)
  {
    set j: nat | j < |matchIndex| && matchIndex[j] >= i
  }

  lemma {:induction false} HoldingOneMore(matchIndex: seq<int>, i: int, j: nat)
    requires j < |matchIndex|
    ensures |Holding(matchIndex[..j + 1], i)| ==
            |Holding(matchIndex[..j], i)| + if matchIndex[j] >= i then 1 else 0
  {
    assert Holding(matchIndex[..j + 1], i) == Holding(matchIndex[..j], i) + if matchIndex[j] >= i then {j} else {};
  }

  lemma {:induction false} HoldingIsLargest(matchIndex: seq<int>, servers: set<nat>, i: int)
    requires HeldBy(matchIndex, servers, i)
    ensures |servers| <= |Holding(matchIndex, i)|
  {
    SubsetSize(servers, Holding(matchIndex, i));
  }

  /** What `matchIndex` says above the snapshot has been acknowledged, in whatever term this server led. */
  ghost predicate Backed<C>(c: L.Cluster<C>, me: nat, matchIndex: seq<int>, snapshotted: nat) {
    && |matchIndex| == |c.servers|
    && forall j: nat :: j < |matchIndex| && j != me && matchIndex[j] > snapshotted ==> L.Acked(c, me, j, matchIndex[j])
  }

  /** A reply that acknowledges a message of this server keeps it so. */
  lemma {:induction false} ReplyBacks<C>(c: L.Cluster<C>, me: nat, matchIndex: seq<int>, snapshotted: nat, a: L.Ack)
    requires Backed(c, me, matchIndex, snapshotted) && a in c.acks && L.AckTo(c, a, me) && a.from < |matchIndex|
    ensures Backed(c, me, matchIndex[a.from := a.index], snapshotted) == true
  {
  }

  /** The commits of a leader are commits of the system: enough servers have acknowledged. */
  lemma {:induction false} MajorityMayCommit<C>(c: L.Cluster<C>, me: nat, matchIndex: seq<int>, snapshotted: nat,
                                                servers: set<nat>, i: nat)
    requires Backed(c, me, matchIndex, snapshotted) && HeldBy(matchIndex, servers, i) && |servers| > |matchIndex| / 2
    requires L.Leads(c, me) && snapshotted < i && c.servers[me].commit < i < |c.servers[me].full|
    ensures L.Allowed(c, L.Commit(me, i))
  {
    forall j | j in servers && j != me
      ensures L.Acked(c, me, j, i)
    {
      assert L.Acked(c, me, j, matchIndex[j]);
    }
    L.AckedAreHolders(c, me, i, servers);
  }

  /** The position of the first mismatch, or -1: the comparison loop of `AppendEntries`. */
  method FindMismatch(logs: seq<Entry>, at: nat, entries: seq<Entry>) returns (u: int)
    requires at <= |logs|
    ensures var m := LM.Mismatch(logs, at, entries); u == if m < |entries| then m else -1
  {
    for idx := 0 to |entries|
      invariant forall i :: 0 <= i < idx ==> LM.HoldsAt(logs, at, entries, i)
    {
      if |logs| < at + 1 + idx || logs[at + idx].term != entries[idx].term {
        LM.MismatchIs(logs, at, entries, idx);
        return idx;
      }
    }
    LM.MismatchIs(logs, at, entries, |entries|);
    return -1;
  }

  // ----- the server in the run model -----

  /** What replication sees of a server. */
  datatype Copy = Copy(snapshotted: nat, logs: seq<Entry>, term: int, commit: nat)

  /** The arguments of `AppendEntries`. */
  datatype Append = Append(term: int, prev: nat, prevTerm: int, entries: seq<Entry>, leaderCommit: int)

  ghost predicate IsCopy(s: L.Server<KvState.Op>, f: Copy) {
    && s.snapshotted == f.snapshotted < |s.full| && s.full[f.snapshotted..] == f.logs
    && s.term == f.term && s.commit == f.commit
  }

  ghost predicate Carries(m: L.Message<KvState.Op>, a: Append) {
    && m.term == a.term && m.prev == a.prev && m.commit == a.leaderCommit
    && a.prev < |m.origin| && m.origin[a.prev].term == a.prevTerm && m.origin[a.prev + 1..] == a.entries
  }

  /** The handler takes a server from `f` to `g` as the delivery of the message does in the run model. */
  ghost predicate Delivers(f: Copy, a: Append, g: Copy) {
    forall s, m :: IsCopy(s, f) && Carries(m, a) ==> IsCopy(L.Received(s, m), g)
  }

  /** In the normal branch the commit index follows the leader's, as far as the log goes; otherwise it stays. */
  ghost predicate CommitFollows(before: nat, after: nat, normal: bool, leaderCommit: int, last: int) {
    if normal && leaderCommit > before
    then after <= leaderCommit && after <= last && (after == leaderCommit || after == last)
    else after == before
  }

  lemma {:induction false} HandledIsReceived(f: Copy, a: Append, g: Copy)
    requires f.logs != [] && g.snapshotted == f.snapshotted && g.term == a.term
    requires var (next, success) := LM.Handle(f.snapshotted, f.logs, a.prev, a.prevTerm, a.entries);
             && g.logs == next
             && CommitFollows(f.commit, g.commit, success && a.prev > f.snapshotted, a.leaderCommit,
                              f.snapshotted + |next| - 1)
    ensures Delivers(f, a, g) == true
  {
  }

  class Server {
    const me: nat
    const peers: nat
    var currentTerm: int
    var votedFor: int
    var role: Role
    var logs: seq<Entry>
    var commitIndex: nat
    var lastApplied: nat
    var snapshottedIndex: nat
    var nextIndex: array<int>
    var matchIndex: array<int>

    ghost predicate Valid()
      reads this
    {
      logs != [] && me < peers && nextIndex.Length == peers && matchIndex.Length == peers && nextIndex != matchIndex
    }

    /** What elections see of the server. */
    function Voter(): Peer
      reads this
    {
      Peer(currentTerm, votedFor, role)
    }

    function AsCopy(): Copy
      reads this
    {
      Copy(snapshottedIndex, logs, currentTerm, commitIndex)
    }

    /** The delivery model and the server agree on log and indices. */
    ghost predicate Mirrors(r: R.Replica)
      reads this
    {
      && r.logs == Commands(logs) && r.snapshotted == snapshottedIndex
      && r.commit == commitIndex && r.lastApplied == lastApplied
    }

    function LastIndex(): int
      reads this
    {
      snapshottedIndex + |logs| - 1
    }

    /** Start-up from persistent state: what was persisted is read back, the indices restart at the snapshot. */
    constructor (me: nat, peers: nat, term: int, vote: int, logs: seq<Entry>, snapshotted: nat, ghost r: R.Replica)
      requires logs != [] && me < peers && r.logs == Commands(logs) && r.snapshotted == snapshotted
      ensures Valid() && fresh(nextIndex) && fresh(matchIndex)
      ensures Voter() == Peer(term, vote, Follower) && this.logs == logs
      ensures Mirrors(R.Restarted(r))
    {
      this.me, this.peers := me, peers;
      currentTerm, votedFor, role := term, vote, Follower;
      this.logs, snapshottedIndex := logs, snapshotted;
      commitIndex, lastApplied := snapshotted, snapshotted;
      nextIndex := new int[peers](_ => |logs|);
      matchIndex := new int[peers](_ => 0);
    }

    method ToFollower()
      modifies this`role, this`votedFor
      ensures Voter() == Votes.ToFollower(old(Voter()))
      ensures role == Follower && votedFor == if old(role) == Follower then old(votedFor) else NOBODY
    {
      if role == Follower {
        return;
      }
      role := Follower;
      votedFor := NOBODY;
    }

    method SeeTerm(term: int)
      modifies this`currentTerm, this`role, this`votedFor
      ensures Voter() == if term > old(currentTerm) then NewTerm(old(Voter()), term) else old(Voter())
    {
      if term > currentTerm {
        currentTerm := term;
        ToFollower();
      }
    }

    // ----- elections -----

    method RequestVote(term: int, candidate: nat, lastIndex: int, lastTerm: int) returns (replyTerm: int, granted: bool)
      requires Valid()
      modifies this`currentTerm, this`role, this`votedFor
      ensures (Voter(), granted) ==
              Asked(old(Voter()), term, candidate, LM.UpToDate(logs, snapshottedIndex, lastIndex, lastTerm))
      ensures replyTerm == currentTerm && (granted ==> currentTerm == term && votedFor == candidate)
    {
      if term < currentTerm || (term == currentTerm && votedFor != NOBODY && votedFor != candidate) {
        return currentTerm, false;
      }
      SeeTerm(term);
      var last := |logs| - 1;
      if lastTerm < logs[last].term || (lastTerm == logs[last].term && lastIndex < snapshottedIndex + last) {
        return currentTerm, false;
      }
      votedFor := candidate;
      return currentTerm, true;
    }

    /** The election timer fires. The result is the term and the last entry that the vote requests carry. */
    method TimeOut() returns (term: int, lastIndex: int, lastTerm: int)
      requires Valid()
      modifies this`currentTerm, this`role, this`votedFor
      ensures Voter() == TimedOut(old(Voter()), me)
      ensures term == currentTerm && lastIndex == LastIndex() && lastTerm == logs[|logs| - 1].term
    {
      if role == Follower {
        role := Candidate;
      }
      currentTerm := currentTerm + 1;
      var last := |logs| - 1;
      term, lastIndex, lastTerm := currentTerm, snapshottedIndex + last, logs[last].term;
      votedFor := me;
    }

    /** A vote reply: `count` is the counter of the election it belongs to, whose term is not looked at. */
    method VoteReply(granted: bool, replyTerm: int, count: nat) returns (newCount: nat)
      requires Valid()
      modifies this`currentTerm, this`role, this`votedFor, nextIndex, matchIndex
      ensures newCount == if granted && old(role) == Candidate then count + 1 else count
      ensures granted && old(role) == Candidate ==>
                Voter() == if newCount > peers / 2 then old(Voter()).(role := Leader) else old(Voter())
      ensures !(granted && old(role) == Candidate) ==>
                Voter() == if replyTerm > old(currentTerm) then NewTerm(old(Voter()), replyTerm) else old(Voter())
      ensures if granted && old(role) == Candidate && newCount > peers / 2
              then forall i :: 0 <= i < peers ==> nextIndex[i] == LastIndex() + 1 && matchIndex[i] == snapshottedIndex
              else nextIndex[..] == old(nextIndex[..]) && matchIndex[..] == old(matchIndex[..])
    {
      newCount := count;
      if granted && role == Candidate {
        newCount := count + 1;
        if newCount > peers / 2 {
          BecomeLeader();
        }
      } else {
        SeeTerm(replyTerm);
      }
    }

    method BecomeLeader()
      requires Valid() && role == Candidate
      modifies this`role, nextIndex, matchIndex
      ensures Voter() == old(Voter()).(role := Leader)
      ensures forall i :: 0 <= i < peers ==>
                nextIndex[i] == snapshottedIndex + |logs| && matchIndex[i] == snapshottedIndex
    {
      role := Leader;
      for i := 0 to nextIndex.Length
        modifies nextIndex
        invariant forall j :: 0 <= j < i ==> nextIndex[j] == snapshottedIndex + |logs|
      {
        nextIndex[i] := snapshottedIndex + |logs|;
      }
      for i := 0 to matchIndex.Length
        modifies matchIndex
        invariant forall j :: 0 <= j < i ==> matchIndex[j] == snapshottedIndex
      {
        matchIndex[i] := snapshottedIndex;
      }
    }

    // ----- commits, deliveries and snapshots -----

    /** The committed entries that have not been applied. */
    function Unapplied(): seq<Entry>
      requires commitIndex > lastApplied ==> snapshottedIndex <= lastApplied + 1 && commitIndex <= LastIndex()
      reads this
    {
      if commitIndex > lastApplied then logs[lastApplied + 1 - snapshottedIndex..commitIndex + 1 - snapshottedIndex]
      else []
    }

    /** Raises the commit index and cuts the slice for a new applier, if there is something to apply. */
    method SetCommitIndex(c: nat) returns (entries: seq<Entry>)
      requires c > lastApplied ==> snapshottedIndex <= lastApplied + 1 && c <= LastIndex()
      modifies this`commitIndex
      ensures commitIndex == c && entries == Unapplied()
      ensures forall r: R.Replica :: old(Mirrors(r)) ==>
                Mirrors(R.Committed(r, c)) && R.Committed(r, c).appliers ==
                  r.appliers + if c > lastApplied then [R.Applier(lastApplied + 1, Commands(entries), 0, false)] else []
    {
      commitIndex := c;
      if commitIndex > lastApplied {
        entries := logs[lastApplied + 1 - snapshottedIndex..commitIndex + 1 - snapshottedIndex];
        assert Commands(entries) ==
               Commands(logs)[lastApplied + 1 - snapshottedIndex..commitIndex + 1 - snapshottedIndex];
      } else {
        entries := [];
      }
    }

    /** What an applier does after each send. */
    method RaiseLastApplied(ghost r: R.Replica, ghost a: nat, index: nat)
      requires Mirrors(r) && a < |r.appliers| && index == R.IndexOfNext(r, a)
      modifies this`lastApplied
      ensures Mirrors(R.Raised(r, a))
    {
      if lastApplied < index {
        lastApplied := index;
      }
    }

    /** The log before the snapshot's index is dropped; the entry at that index stays as the guard. */
    method ReplaceLogWithSnapshot(appliedIndex: nat, ghost r: R.Replica, ghost s: R.Snapshot)
      requires Valid() && Mirrors(r) && s.index == appliedIndex
      requires snapshottedIndex < appliedIndex ==> appliedIndex <= LastIndex()
      modifies this`logs, this`snapshottedIndex
      ensures Valid() && Mirrors(R.Installed(r, s))
      ensures snapshottedIndex == R.Max(old(snapshottedIndex), appliedIndex) && LastIndex() == old(LastIndex())
      ensures logs == old(logs)[snapshottedIndex - old(snapshottedIndex)..]
    {
      if appliedIndex <= snapshottedIndex {
        return;
      }
      assert Commands(logs[appliedIndex - snapshottedIndex..]) == Commands(logs)[appliedIndex - snapshottedIndex..];
      logs := logs[appliedIndex - snapshottedIndex..];
      snapshottedIndex := appliedIndex;
    }

    // ----- replication -----

    /**
     The log part of `AppendEntries`. `panicked` stands for the run-time panic of the conflict search below the guard.
     A rejection tells where to go on: after the end of a log that is too short, or at the first entry of the
     conflicting term.
     */
    method AppendToLog(prev: nat, prevTerm: int, entries: seq<Entry>) returns (reply: AppendReply, panicked: bool)
      requires Valid()
      modifies this`logs
      ensures Valid() && (logs, reply.success) == LM.Handle(snapshottedIndex, old(logs), prev, prevTerm, entries)
      ensures if reply.success then !panicked else RejectionReported(prev, reply, panicked)
    {
      if prev <= snapshottedIndex {
        if prev + |entries| > snapshottedIndex {
          logs := logs[..1];
          logs := logs + entries[snapshottedIndex - prev..];
        }
        return AppendReply(true, 0, 0, 0), false;
      }
      var last := snapshottedIndex + |logs| - 1;
      if last < prev {
        return AppendReply(false, currentTerm, -1, last + 1), false;
      }
      if logs[prev - snapshottedIndex].term != prevTerm {
        reply, panicked := ReportConflict(prev);
        return;
      }
      Merge(prev + 1 - snapshottedIndex, entries);
      return AppendReply(true, 0, 0, 0), false;
    }

    ghost predicate ConflictReported(prev: nat, reply: AppendReply, panicked: bool)
      reads this
    {
      var at := prev - snapshottedIndex;
      && 1 <= at < |logs| && (panicked <==> Backup.SearchPanics(LM.Terms(logs), at))
      && !reply.success && reply.term == currentTerm
      && (!panicked ==> reply.conflictTerm == logs[at].term && reply.conflictIndex > snapshottedIndex
                        && Backup.StartsRun(LM.Terms(logs), at, reply.conflictIndex - snapshottedIndex))
    }

    method ReportConflict(prev: nat) returns (reply: AppendReply, panicked: bool)
      requires snapshottedIndex < prev <= LastIndex()
      ensures !reply.success && reply.term == currentTerm && ConflictReported(prev, reply, panicked)
    {
      var at := prev - snapshottedIndex;
      var k := Backup.ConflictIndex(LM.Terms(logs), at);
      if k.None? {
        return AppendReply(false, currentTerm, logs[at].term, 0), true;
      }
      return AppendReply(false, currentTerm, logs[at].term, k.value + snapshottedIndex), false;
    }

    /** Cuts the log at the first mismatch and appends the leader's entries from there. */
    method Merge(at: nat, entries: seq<Entry>)
      requires 1 <= at <= |logs|
      modifies this`logs
      ensures var u := LM.Mismatch(old(logs), at, entries);
              logs == if u < |entries| then old(logs)[..at + u] + entries[u..] else old(logs)
    {
      var u := FindMismatch(logs, at, entries);
      if u != -1 {
        logs := logs[..at + u];
        logs := logs + entries[u..];
      }
    }

    /** What a rejection reports: the end of a log that is too short, or the first entry of the conflicting term. */
    ghost predicate RejectionReported(prev: nat, reply: AppendReply, panicked: bool)
      reads this
    {
      if LastIndex() < prev then !panicked && reply == AppendReply(false, currentTerm, -1, LastIndex() + 1)
      else ConflictReported(prev, reply, panicked)
    }

    /** In the normal branch the commit index has followed the leader's; what that adds is handed to an applier. */
    ghost predicate Followed(before: nat, normal: bool, leaderCommit: int, toApply: seq<Entry>)
      reads this
    {
      && CommitFollows(before, commitIndex, normal, leaderCommit, LastIndex())
      && if normal && leaderCommit > before then snapshottedIndex <= lastApplied + 1 && toApply == Unapplied()
         else toApply == []
    }

    /** What the handler does with a message of a term that is not stale. */
    method Follow(prev: nat, prevTerm: int, entries: seq<Entry>, leaderCommit: int)
      returns (reply: AppendReply, panicked: bool, toApply: seq<Entry>)
      requires Valid() && snapshottedIndex <= lastApplied + 1
      modifies this`logs, this`commitIndex
      ensures Valid() && (logs, reply.success) == LM.Handle(snapshottedIndex, old(logs), prev, prevTerm, entries)
      ensures if reply.success then !panicked else RejectionReported(prev, reply, panicked)
      ensures Followed(old(commitIndex), reply.success && prev > snapshottedIndex, leaderCommit, toApply)
    {
      toApply := [];
      reply, panicked := AppendToLog(prev, prevTerm, entries);
      if reply.success && prev > snapshottedIndex && leaderCommit > commitIndex {
        toApply := FollowCommit(leaderCommit);
      }
    }

    /** The commit index follows the leader's, as far as the log goes. */
    method FollowCommit(leaderCommit: int) returns (toApply: seq<Entry>)
      requires Valid() && snapshottedIndex <= lastApplied + 1 && leaderCommit > commitIndex
      modifies this`commitIndex
      ensures commitIndex <= leaderCommit && commitIndex <= LastIndex()
      ensures commitIndex == leaderCommit || commitIndex == LastIndex()
      ensures toApply == Unapplied()
    {
      var last := snapshottedIndex + |logs| - 1;
      toApply := SetCommitIndex(if leaderCommit <= last then leaderCommit else last);
    }

    /** `AppendEntries`: a stale term is refused; otherwise log and commit index follow the leader. */
    method AppendEntries(term: int, prev: nat, prevTerm: int, entries: seq<Entry>, leaderCommit: int)
      returns (reply: AppendReply, panicked: bool, toApply: seq<Entry>)
      requires Valid() && snapshottedIndex <= lastApplied + 1
      modifies this`currentTerm, this`role, this`votedFor, this`logs, this`commitIndex
      ensures Valid() && Voter() == if term > old(currentTerm) then NewTerm(old(Voter()), term) else old(Voter())
      ensures term < old(currentTerm) ==>
                && reply == AppendReply(false, currentTerm, 0, 0) && !panicked
                && toApply == [] && logs == old(logs) && commitIndex == old(commitIndex)
      ensures term >= old(currentTerm) ==>
                && (logs, reply.success) == LM.Handle(snapshottedIndex, old(logs), prev, prevTerm, entries)
                && (if reply.success then !panicked else RejectionReported(prev, reply, panicked))
                && Followed(old(commitIndex), reply.success && prev > snapshottedIndex, leaderCommit, toApply)
      ensures term >= old(currentTerm) ==>
                Delivers(old(AsCopy()), Append(term, prev, prevTerm, entries, leaderCommit), AsCopy())
    {
      if term < currentTerm {
        return AppendReply(false, currentTerm, 0, 0), false, [];
      }
      SeeTerm(term);
      reply, panicked, toApply := Follow(prev, prevTerm, entries, leaderCommit);
      HandledIsReceived(old(AsCopy()), Append(term, prev, prevTerm, entries, leaderCommit), AsCopy());
    }

    // ----- leading -----

    method GetState() returns (term: int, isLeader: bool)
      ensures term == currentTerm && (isLeader <==> role == Leader)
    {
      return currentTerm, role == Leader;
    }

    /**
     `Start`. `term` and `isLeader` are what `GetState` gave before the lock was taken. A server that did not lead then
     refuses; otherwise the command is appended with that term, which is the current one exactly when no other term was
     seen in between.
     */
    method Start(command: KvState.Op, term: int, isLeader: bool) returns (index: int)
      requires Valid()
      modifies this`logs, nextIndex, matchIndex
      ensures Valid()
      ensures !isLeader ==>
                && index == -1 && logs == old(logs)
                && nextIndex[..] == old(nextIndex[..]) && matchIndex[..] == old(matchIndex[..])
      ensures isLeader ==> logs == old(logs) + [LM.Entry(command, term)] && index == LastIndex() == old(LastIndex()) + 1
      ensures isLeader ==> matchIndex[me] == index && nextIndex[me] == index + 1
      ensures forall i :: 0 <= i < peers && i != me ==>
                matchIndex[i] == old(matchIndex[i]) && nextIndex[i] == old(nextIndex[i])
    {
      if !isLeader {
        return -1;
      }
      index := snapshottedIndex + |logs|;
      logs := logs + [LM.Entry(command, term)];
      matchIndex[me] := index;
      nextIndex[me] := index + 1;
    }

    method CountHolders(i: int) returns (count: nat)
      ensures count == |set j: nat | j < matchIndex.Length && matchIndex[j] >= i|
    {
      count := 0;
      for j := 0 to matchIndex.Length
        invariant count == |Holding(matchIndex[..j], i)|
      {
        HoldingOneMore(matchIndex[..], i, j);
        assert matchIndex[..][..j] == matchIndex[..j] && matchIndex[..][..j + 1] == matchIndex[..j + 1];
        if matchIndex[j] >= i {
          count := count + 1;
        }
      }
      assert matchIndex[..matchIndex.Length] == matchIndex[..];
      assert Holding(matchIndex[..], i) == set j: nat | j < matchIndex.Length && matchIndex[j] >= i;
    }

    /** Commits the last entry that more than half of the servers are known to hold, if it is new. */
    method AdvanceCommit() returns (toApply: seq<Entry>)
      requires Valid() && snapshottedIndex <= lastApplied + 1
      modifies this`commitIndex
      ensures commitIndex == old(commitIndex) ||
              (old(commitIndex) < commitIndex <= LastIndex() &&
               exists servers :: |servers| > peers / 2 && HeldBy(matchIndex[..], servers, commitIndex))
      ensures forall i, servers :: commitIndex < i <= LastIndex() && HeldBy(matchIndex[..], servers, i) ==>
                |servers| <= peers / 2
      ensures if commitIndex == old(commitIndex) then toApply == [] else toApply == Unapplied()
    {
      toApply := [];
      var i := snapshottedIndex + |logs| - 1;
      while i > commitIndex
        invariant commitIndex == old(commitIndex) && i <= LastIndex()
        invariant forall j, servers :: i < j <= LastIndex() && HeldBy(matchIndex[..], servers, j) ==>
                    |servers| <= peers / 2
      {
        var count := CountHolders(i);
        assert Holding(matchIndex[..], i) == set j: nat | j < matchIndex.Length && matchIndex[j] >= i;
        forall servers | HeldBy(matchIndex[..], servers, i)
          ensures |servers| <= count
        {
          HoldingIsLargest(matchIndex[..], servers, i);
        }
        if count > peers / 2 {
          toApply := SetCommitIndex(i);
          return;
        }
        i := i - 1;
      }
    }

    /** The search would read beyond the log: it was cut since the message was sent. */
    predicate BackUpPanics(prev: nat, reply: AppendReply)
      reads this
    {
      Backup.SearchBeyond(LastIndex(), prev, reply.conflictTerm)
    }

    /** Where the next message to a server starts after a rejection. */
    ghost predicate BackedUp(next: int, prev: nat, reply: AppendReply)
      reads this
    {
      if reply.conflictTerm == -1 || prev < snapshottedIndex || prev > LastIndex() + 1 then next == reply.conflictIndex
      else Backup.IsNext(LM.Terms(logs), prev - snapshottedIndex, reply.conflictTerm,
                         reply.conflictIndex - snapshottedIndex, next - snapshottedIndex)
    }

    /**
     A rejection without a higher term: the next message goes back to where the logs may agree. `panicked` stands for
     the run-time panic of the search when the log now ends before the entry it starts from.
     */
    method BackUp(server: nat, prev: nat, reply: AppendReply) returns (panicked: bool)
      requires Valid() && server < peers
      modifies nextIndex
      ensures forall i :: 0 <= i < peers && i != server ==> nextIndex[i] == old(nextIndex[i])
      ensures panicked <==> BackUpPanics(prev, reply)
      ensures BackedUp(nextIndex[server], prev, reply)
    {
      nextIndex[server] := reply.conflictIndex;
      if reply.conflictTerm == -1 || prev < snapshottedIndex {
        return false;
      }
      if prev - snapshottedIndex > |logs| {
        return true;
      }
      var next := Backup.NextIndex(LM.Terms(logs), prev - snapshottedIndex, reply.conflictTerm,
                                   reply.conflictIndex - snapshottedIndex);
      nextIndex[server] := next + snapshottedIndex;
      return false;
    }

    /** The leader's reaction to a reply to `AppendEntries`. A server that no longer leads ignores it. */
    method AppendReplied(server: nat, prev: nat, sent: nat, reply: AppendReply)
      returns (toApply: seq<Entry>, panicked: bool)
      requires Valid() && server < peers && snapshottedIndex <= lastApplied + 1
      modifies this`currentTerm, this`role, this`votedFor, this`commitIndex, nextIndex, matchIndex
      ensures logs == old(logs) && old(commitIndex) <= commitIndex
      ensures if commitIndex == old(commitIndex) then toApply == []
              else commitIndex <= LastIndex() && toApply == Unapplied()
      ensures old(role) != Leader || !reply.success ==>
                commitIndex == old(commitIndex) && matchIndex[..] == old(matchIndex[..])
      ensures old(role) != Leader ==> Voter() == old(Voter()) && nextIndex[..] == old(nextIndex[..])
      ensures forall i :: 0 <= i < peers && i != server ==>
                matchIndex[i] == old(matchIndex[i]) && nextIndex[i] == old(nextIndex[i])
      ensures old(role) == Leader && reply.success ==>
                && Voter() == old(Voter()) && matchIndex[server] == prev + sent && nextIndex[server] == prev + sent + 1
                && matchIndex[..] == old(matchIndex[..])[server := prev + sent]
                && (commitIndex > old(commitIndex) ==>
                      exists servers :: |servers| > peers / 2 && HeldBy(matchIndex[..], servers, commitIndex))
                && (forall i, servers :: commitIndex < i <= LastIndex() && HeldBy(matchIndex[..], servers, i) ==>
                      |servers| <= peers / 2)
      ensures old(role) == Leader && !reply.success && reply.term > old(currentTerm) ==>
                Voter() == NewTerm(old(Voter()), reply.term) && nextIndex[..] == old(nextIndex[..])
      ensures old(role) == Leader && !reply.success && reply.term <= old(currentTerm) ==>
                Voter() == old(Voter()) && BackedUp(nextIndex[server], prev, reply)
      ensures panicked <==>
                old(role) == Leader && !reply.success && reply.term <= old(currentTerm) && BackUpPanics(prev, reply)
    {
      toApply, panicked := [], false;
      if role != Leader {
        return;
      }
      if reply.success {
        matchIndex[server] := prev + sent;
        nextIndex[server] := matchIndex[server] + 1;
        toApply := AdvanceCommit();
      } else if reply.term > currentTerm {
        SeeTerm(reply.term);
      } else {
        panicked := BackUp(server, prev, reply);
      }
    }
  }
}
