/**
 What the snapshot boundary of `AppendEntries` costs, on one run of three servers. A late message removes a committed
 entry from a follower; the follower becomes leader; a message of it that meets the snapshot of the old leader breaks
 Log Matching; and another one makes the conflict search of the old leader read below its guard.
 */
module LostEntry {
  import opened LogMatching
  import opened Replication
  import Backup

  const R := Entry('-', 0)
  const A := Entry('a', 1)
  const B := Entry('b', 1)
  const C := Entry('c', 2)
  const D := Entry('d', 2)
  const E := Entry('e', 1)

  const LR := [R]
  const LA := LR + [A]
  const LB := LA + [B]
  const LE := LB + [E]
  const LC := LA + [C]
  const LD := LC + [D]

  const IDLE := Server(LR, 0, 0, 0)
  const FIRST := Message(0, 1, LA, 0, 0)
  const SECOND := Message(0, 1, LB, 0, 0)
  const THIRD := Message(1, 2, LD, 1, 0)
  const FOURTH := Message(1, 3, LD, 3, 0)

  function Fresh(): Cluster<char> {
    Cluster([IDLE, IDLE, IDLE], [], {}, map[0 := LR], map[])
  }

  /** Server 0 leads term 1 and has sent its first entry, and then both. */
  function Sent(): Cluster<char> {
    Cluster([Server(LB, 0, 1, 0), IDLE, IDLE], [FIRST, SECOND], {}, map[0 := LR, 1 := LB], map[1 := 0])
  }

  /** Server 1 has received the second message; server 0 has committed and snapshotted both entries. */
  function Snapshotted(): Cluster<char> {
    Cluster([Server(LB, 2, 1, 2), Server(LB, 0, 1, 0), IDLE], [FIRST, SECOND],
            {Ack(1, 1, 2)}, map[0 := LR, 1 := LB], map[1 := 0])
  }

  /** Server 1 has received the first message as well. */
  function Removed(): Cluster<char> {
    Cluster([Server(LB, 2, 1, 2), Server(LA, 0, 1, 0), IDLE], [FIRST, SECOND],
            {Ack(1, 1, 2), Ack(1, 1, 1)}, map[0 := LR, 1 := LB], map[1 := 0])
  }

  /** Server 1 leads term 2, has two entries of its own and has sent them. */
  function Overtaken(): Cluster<char> {
    Cluster([Server(LB, 2, 1, 2), Server(LD, 0, 2, 0), IDLE], [FIRST, SECOND, THIRD],
            {Ack(1, 1, 2), Ack(1, 1, 1)}, map[0 := LR, 1 := LB, 2 := LD], map[1 := 0, 2 := 1])
  }

  /** Server 0, which knows nothing of it, has started another command; server 1 leads term 3 and has sent again. */
  function Diverged(): Cluster<char> {
    Cluster([Server(LE, 2, 1, 2), Server(LD, 0, 3, 0), IDLE], [FIRST, SECOND, THIRD, FOURTH],
            {Ack(1, 1, 2), Ack(1, 1, 1)},
            map[0 := LR, 1 := LE, 2 := LD, 3 := LD], map[1 := 0, 2 := 1, 3 := 1])
  }

  // ----- the run -----

  /** Server 0 leads term 1 and has sent its first entry. */
  function Begun(): Cluster<char> {
    Cluster([Server(LA, 0, 1, 0), IDLE, IDLE], [FIRST], {}, map[0 := LR, 1 := LA], map[1 := 0])
  }

  lemma BegunReached()
    ensures Reached(Begun())
  {
    StartReached(Fresh());
    var c1 := After(Fresh(), Elect(0, 1));
    NextReached(Fresh(), Elect(0, 1));
    assert Leads(c1, 0);
    var c2 := After(c1, Start(0, 'a'));
    NextReached(c1, Start(0, 'a'));
    assert Leads(c2, 0);
    NextReached(c2, Send(0, 0));
    assert After(c2, Send(0, 0)) == Begun();
  }

  lemma SentReached()
    ensures Reached(Sent())
  {
    BegunReached();
    assert Leads(Begun(), 0);
    var c1 := After(Begun(), Start(0, 'b'));
    NextReached(Begun(), Start(0, 'b'));
    assert Leads(c1, 0);
    NextReached(c1, Send(0, 0));
    assert After(c1, Send(0, 0)) == Sent();
  }

  /** Server 1 has received the second message. */
  function Copied(): Cluster<char> {
    Cluster([Server(LB, 0, 1, 0), Server(LB, 0, 1, 0), IDLE], [FIRST, SECOND],
            {Ack(1, 1, 2)}, map[0 := LR, 1 := LB], map[1 := 0])
  }

  lemma CopiedReached()
    ensures Reached(Copied())
  {
    SentReached();
    ReceivedAtStart(IDLE, SECOND);
    assert Agreeing(Sent(), Deliver(1, 1));
    NextReached(Sent(), Deliver(1, 1));
    assert After(Sent(), Deliver(1, 1)) == Copied();
  }

  lemma SnapshottedReached()
    ensures Reached(Snapshotted())
  {
    CopiedReached();
    assert AckTo(Copied(), Ack(1, 1, 2), 0) && Acked(Copied(), 0, 1, 2);
    AckedAreHolders(Copied(), 0, 2, {0, 1});
    var c1 := After(Copied(), Commit(0, 2));
    NextReached(Copied(), Commit(0, 2));
    NextReached(c1, Truncate(0, 2));
    assert After(c1, Truncate(0, 2)) == Snapshotted();
  }

  /**
   The late first message removes an entry that the follower had acknowledged and the leader had committed; the follower
   has no snapshot at all.
   */
  lemma CommittedEntryRemoved()
    ensures Reached(Snapshotted()) && Takes(Snapshotted(), Deliver(0, 1), Removed()) && Reached(Removed())
    ensures var s := Snapshotted();
            && Ack(1, 1, 2) in s.acks && s.servers[0].commit == 2
            && s.servers[1].snapshotted == 0 && |s.servers[1].full| == 3
    ensures |Removed().servers[1].full| == 2
  {
    SnapshottedReached();
    ReceivedAtStart(Server(LB, 0, 1, 0), FIRST);
    assert Agreeing(Snapshotted(), Deliver(0, 1));
    NextReached(Snapshotted(), Deliver(0, 1));
    assert After(Snapshotted(), Deliver(0, 1)) == Removed();
  }

  /** Server 1 leads term 2. */
  function Leading(): Cluster<char> {
    Cluster([Server(LB, 2, 1, 2), Server(LA, 0, 2, 0), IDLE], [FIRST, SECOND],
            {Ack(1, 1, 2), Ack(1, 1, 1)}, map[0 := LR, 1 := LB, 2 := LA], map[1 := 0, 2 := 1])
  }

  lemma LeadingReached()
    ensures Reached(Leading())
  {
    CommittedEntryRemoved();
    NextReached(Removed(), Elect(1, 2));
    assert After(Removed(), Elect(1, 2)) == Leading();
  }

  lemma OvertakenReached()
    ensures Reached(Overtaken())
  {
    LeadingReached();
    assert Leads(Leading(), 1);
    var c1 := After(Leading(), Start(1, 'c'));
    NextReached(Leading(), Start(1, 'c'));
    assert Leads(c1, 1);
    var c2 := After(c1, Start(1, 'd'));
    NextReached(c1, Start(1, 'd'));
    assert Leads(c2, 1);
    NextReached(c2, Send(1, 1));
    assert After(c2, Send(1, 1)) == Overtaken();
  }

  /**
   Server 1 could be elected in term 2: its log is as up to date as that of server 2. Its message meets the snapshot of
   server 0 and leaves there a log that does not match it.
   */
  lemma MatchingBroken()
    ensures Reached(Overtaken()) && Allowed(Overtaken(), Deliver(2, 0)) && !Agreeing(Overtaken(), Deliver(2, 0))
    ensures |Removed().servers[1].full| > |Removed().servers[2].full|
    ensures !AllMatch(After(Overtaken(), Deliver(2, 0)))
  {
    OvertakenReached();
    ReachedOk(Overtaken());
    assert LB[2] == B && LD[2] == C;
    StepMatchesIff(Overtaken(), Deliver(2, 0));
  }

  lemma DivergedReached()
    ensures Reached(Diverged())
  {
    OvertakenReached();
    assert Leads(Overtaken(), 0);
    var c1 := After(Overtaken(), Start(0, 'e'));
    NextReached(Overtaken(), Start(0, 'e'));
    var c2 := After(c1, Elect(1, 3));
    NextReached(c1, Elect(1, 3));
    assert Leads(c2, 1);
    NextReached(c2, Send(1, 3));
    assert After(c2, Send(1, 3)) == Diverged();
  }

  /**
   Without the message that broke Log Matching, the next one of server 1 is refused by server 0 at the first entry after
   its guard, whose term the guard shares: the conflict search reads below the guard.
   */
  lemma SearchBelowGuard()
    ensures Reached(Diverged()) && Allowed(Diverged(), Deliver(3, 0))
    ensures var s, m := Diverged().servers[0], Diverged().messages[3];
            && s.snapshotted < m.prev < |s.full| && s.full[m.prev].term != m.origin[m.prev].term
            && Backup.SearchPanics(Terms(s.full[s.snapshotted..]), m.prev - s.snapshotted)
  {
    DivergedReached();
    assert LE[2] == B && LE[3] == E && LD[3] == D;
  }
}
