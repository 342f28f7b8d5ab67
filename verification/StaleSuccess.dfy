/**
 A run of five servers after which a leader commits an entry that only two of them hold. Server 1 accepts a message of
 server 0, but the reply is late; another leader replaces the entries on both; server 0 leads again, sends a new entry
 to server 3, and counts the old reply of server 1 for it. The second half says exactly when a leader is sure to hold
 what a late reply acknowledges.
 */
module StaleSuccess {
  import opened LogMatching
  import opened Replication

  const R := Entry('-', 0)
  const LR := [R]
  /** The log of server 0, leader of term 1. */
  const LA := LR + [Entry('a', 1)]
  const LB := LA + [Entry('b', 1)]
  /** The log of server 2, leader of term 2. */
  const LD := LR + [Entry('d', 2)]
  /** The log of server 0, leader of term 3. */
  const LC := LD + [Entry('c', 3)]

  const IDLE := Server(LR, 0, 0, 0)
  const FIRST := Message(0, 1, LB, 0, 0)
  const SECOND := Message(2, 2, LD, 0, 0)
  const THIRD := Message(0, 3, LC, 0, 0)

  function Fresh(): Cluster<char> {
    Cluster([IDLE, IDLE, IDLE, IDLE, IDLE], [], {}, map[0 := LR], map[])
  }

  function Started(): Cluster<char> {
    Cluster([Server(LA, 0, 1, 0), IDLE, IDLE, IDLE, IDLE], [], {}, map[0 := LR, 1 := LA], map[1 := 0])
  }

  lemma StartedReached()
    ensures Reached(Started())
  {
    StartReached(Fresh());
    var c1 := After(Fresh(), Elect(0, 1));
    NextReached(Fresh(), Elect(0, 1));
    assert Leads(c1, 0);
    NextReached(c1, Start(0, 'a'));
    assert After(c1, Start(0, 'a')) == Started();
  }

  function Sent(): Cluster<char> {
    Cluster([Server(LB, 0, 1, 0), IDLE, IDLE, IDLE, IDLE], [FIRST], {}, map[0 := LR, 1 := LB], map[1 := 0])
  }

  lemma SentReached()
    ensures Reached(Sent())
  {
    StartedReached();
    assert Leads(Started(), 0);
    var c1 := After(Started(), Start(0, 'b'));
    NextReached(Started(), Start(0, 'b'));
    assert Leads(c1, 0);
    NextReached(c1, Send(0, 0));
    assert After(c1, Send(0, 0)) == Sent();
  }

  /** Server 1 has accepted both entries; the reply is on its way. */
  function Accepted(): Cluster<char> {
    Cluster([Server(LB, 0, 1, 0), Server(LB, 0, 1, 0), IDLE, IDLE, IDLE], [FIRST], {Ack(1, 1, 2)},
            map[0 := LR, 1 := LB], map[1 := 0])
  }

  lemma AcceptedReached()
    ensures Reached(Accepted())
  {
    SentReached();
    ReceivedAtStart(IDLE, FIRST);
    assert Agreeing(Sent(), Deliver(0, 1));
    NextReached(Sent(), Deliver(0, 1));
    var c1 := After(Sent(), Deliver(0, 1));
    assert c1.servers == Accepted().servers && c1.acks == Accepted().acks;
  }

  /** Server 2, elected by servers 3 and 4, leads term 2. */
  function TwoLeads(): Cluster<char> {
    Cluster([Server(LB, 0, 1, 0), Server(LB, 0, 1, 0), Server(LR, 0, 2, 0), IDLE, IDLE], [FIRST], {Ack(1, 1, 2)},
            map[0 := LR, 1 := LB, 2 := LR], map[1 := 0, 2 := 2])
  }

  lemma TwoLeadsReached()
    ensures Reached(TwoLeads())
  {
    AcceptedReached();
    NextReached(Accepted(), Elect(2, 2));
    assert After(Accepted(), Elect(2, 2)) == TwoLeads();
  }

  /** It has sent an entry of its own. */
  function Replacing(): Cluster<char> {
    Cluster([Server(LB, 0, 1, 0), Server(LB, 0, 1, 0), Server(LD, 0, 2, 0), IDLE, IDLE], [FIRST, SECOND],
            {Ack(1, 1, 2)}, map[0 := LR, 1 := LB, 2 := LD], map[1 := 0, 2 := 2])
  }

  lemma ReplacingReached()
    ensures Reached(Replacing())
  {
    TwoLeadsReached();
    assert Leads(TwoLeads(), 2);
    var c1 := After(TwoLeads(), Start(2, 'd'));
    NextReached(TwoLeads(), Start(2, 'd'));
    assert Leads(c1, 2);
    NextReached(c1, Send(2, 0));
    assert After(c1, Send(2, 0)) == Replacing();
  }

  /** Server 0 has taken over the log of server 2. */
  function Follows(): Cluster<char> {
    Cluster([Server(LD, 0, 2, 0), Server(LB, 0, 1, 0), Server(LD, 0, 2, 0), IDLE, IDLE], [FIRST, SECOND],
            {Ack(1, 1, 2), Ack(2, 0, 1)}, map[0 := LR, 1 := LB, 2 := LD], map[1 := 0, 2 := 2])
  }

  lemma FollowsReached()
    ensures Reached(Follows())
  {
    ReplacingReached();
    ReceivedAtStart(Server(LB, 0, 1, 0), SECOND);
    assert Agreeing(Replacing(), Deliver(1, 0));
    NextReached(Replacing(), Deliver(1, 0));
    assert After(Replacing(), Deliver(1, 0)) == Follows();
  }

  /** So has server 1. */
  function Replaced(): Cluster<char> {
    Cluster([Server(LD, 0, 2, 0), Server(LD, 0, 2, 0), Server(LD, 0, 2, 0), IDLE, IDLE], [FIRST, SECOND],
            {Ack(1, 1, 2), Ack(2, 0, 1), Ack(2, 1, 1)}, map[0 := LR, 1 := LB, 2 := LD], map[1 := 0, 2 := 2])
  }

  lemma ReplacedReached()
    ensures Reached(Replaced())
  {
    FollowsReached();
    ReceivedAtStart(Server(LB, 0, 1, 0), SECOND);
    assert Agreeing(Follows(), Deliver(1, 1));
    NextReached(Follows(), Deliver(1, 1));
    assert After(Follows(), Deliver(1, 1)) == Replaced();
  }

  /** Server 0, elected by servers 1, 3 and 4, leads term 3. */
  function ZeroLeads(): Cluster<char> {
    Cluster([Server(LD, 0, 3, 0), Server(LD, 0, 2, 0), Server(LD, 0, 2, 0), IDLE, IDLE], [FIRST, SECOND],
            {Ack(1, 1, 2), Ack(2, 0, 1), Ack(2, 1, 1)},
            map[0 := LR, 1 := LB, 2 := LD, 3 := LD], map[1 := 0, 2 := 2, 3 := 0])
  }

  lemma ZeroLeadsReached()
    ensures Reached(ZeroLeads())
  {
    ReplacedReached();
    NextReached(Replaced(), Elect(0, 3));
    assert After(Replaced(), Elect(0, 3)) == ZeroLeads();
  }

  /** It has sent its log with a new entry. */
  function Again(): Cluster<char> {
    Cluster([Server(LC, 0, 3, 0), Server(LD, 0, 2, 0), Server(LD, 0, 2, 0), IDLE, IDLE], [FIRST, SECOND, THIRD],
            {Ack(1, 1, 2), Ack(2, 0, 1), Ack(2, 1, 1)},
            map[0 := LR, 1 := LB, 2 := LD, 3 := LC], map[1 := 0, 2 := 2, 3 := 0])
  }

  lemma AgainReached()
    ensures Reached(Again())
  {
    ZeroLeadsReached();
    assert Leads(ZeroLeads(), 0);
    var c1 := After(ZeroLeads(), Start(0, 'c'));
    NextReached(ZeroLeads(), Start(0, 'c'));
    assert Leads(c1, 0);
    NextReached(c1, Send(0, 0));
    assert After(c1, Send(0, 0)) == Again();
  }

  /** Server 3 has accepted it. */
  function Counting(): Cluster<char> {
    Cluster([Server(LC, 0, 3, 0), Server(LD, 0, 2, 0), Server(LD, 0, 2, 0), Server(LC, 0, 3, 0), IDLE],
            [FIRST, SECOND, THIRD], {Ack(1, 1, 2), Ack(2, 0, 1), Ack(2, 1, 1), Ack(3, 3, 2)},
            map[0 := LR, 1 := LB, 2 := LD, 3 := LC], map[1 := 0, 2 := 2, 3 := 0])
  }

  lemma CountingReached()
    ensures Reached(Counting())
  {
    AgainReached();
    ReceivedAtStart(IDLE, THIRD);
    assert Agreeing(Again(), Deliver(2, 3));
    NextReached(Again(), Deliver(2, 3));
    var c1 := After(Again(), Deliver(2, 3));
    assert c1.servers == Counting().servers && c1.acks == Counting().acks;
  }

  /** The servers that hold the log of server `i` up to the index. */
  function Having<C(==)>(c: Cluster<C>, i: nat, index: nat): set<nat>
    requires i < |c.servers| && index < |c.servers[i].full|
  {
    set j: nat | j < |c.servers| && c.servers[i].full[..index + 1] <= c.servers[j].full
  }

  lemma MayCommit()
    ensures Allowed(Counting(), Commit(0, 2))
  {
    assert Leads(Counting(), 0);
    assert AckTo(Counting(), Ack(1, 1, 2), 0) && AckTo(Counting(), Ack(3, 3, 2), 0);
    AckedAreHolders(Counting(), 0, 2, {0, 1, 3});
  }

  lemma OnlyTwoHave()
    ensures Having(Counting(), 0, 2) == {0, 3}
  {
    assert LC[..3] == LC && |LD| == 2 && |LR| == 1;
  }

  /**
   Server 0 leads and may commit the new entry, although only servers 0 and 3 hold it. Both elections could be won: the
   voters' logs were prefixes of the candidate's.
   */
  lemma CommitsUnheld()
    ensures Reached(Counting()) && Allowed(Counting(), Commit(0, 2))
    ensures 2 * |Having(Counting(), 0, 2)| < |Counting().servers|
    ensures forall j :: j in {3, 4} ==> Accepted().servers[j].full <= Accepted().servers[2].full
    ensures forall j :: j in {1, 3, 4} ==> Replaced().servers[j].full <= Replaced().servers[0].full
  {
    CountingReached();
    MayCommit();
    OnlyTwoHave();
  }

  // ----- when the leader still holds what a late reply acknowledges -----

  /** The leader of term `last` gets the reply of server `j` to message `k`, which it sent in term `first`. */
  ghost predicate Counted(c: Cluster<char>, k: nat, j: nat, first: int, last: int) {
    && k < |c.messages| && c.messages[k].term == first
    && c.messages[k].origin != [] && Ack(first, j, |c.messages[k].origin| - 1) in c.acks
    && Leads(c, c.messages[k].sender) && c.servers[c.messages[k].sender].term == last
  }

  /** The leader still holds what was acknowledged. */
  ghost predicate StillHeld(c: Cluster<char>, k: nat)
    requires k < |c.messages| && c.messages[k].sender < |c.servers|
  {
    c.messages[k].origin <= c.servers[c.messages[k].sender].full
  }

  function Mine(t: int): seq<Entry<char>> {
    LR + [Entry('a', t)]
  }

  function Other(t: int): seq<Entry<char>> {
    LR + [Entry('d', t + 1)]
  }

  function StartedIn(t: int): Cluster<char> {
    Cluster([Server(Mine(t), 0, t, 0), IDLE, IDLE, IDLE, IDLE], [], {}, map[0 := LR, t := Mine(t)], map[t := 0])
  }

  lemma StartedInReached(t: int)
    requires t >= 1
    ensures Reached(StartedIn(t))
  {
    StartReached(Fresh());
    var c1 := After(Fresh(), Elect(0, t));
    NextReached(Fresh(), Elect(0, t));
    assert Leads(c1, 0);
    NextReached(c1, Start(0, 'a'));
    var c2 := After(c1, Start(0, 'a'));
    assert c2.servers == StartedIn(t).servers && c2.ledger == StartedIn(t).ledger;
  }

  function SentIn(t: int): Cluster<char> {
    Cluster([Server(Mine(t), 0, t, 0), IDLE, IDLE, IDLE, IDLE], [Message(0, t, Mine(t), 0, 0)], {},
            map[0 := LR, t := Mine(t)], map[t := 0])
  }

  lemma SentInReached(t: int)
    requires t >= 1
    ensures Reached(SentIn(t))
  {
    StartedInReached(t);
    assert Leads(StartedIn(t), 0);
    NextReached(StartedIn(t), Send(0, 0));
    assert After(StartedIn(t), Send(0, 0)) == SentIn(t);
  }

  function AcceptedIn(t: int): Cluster<char> {
    Cluster([Server(Mine(t), 0, t, 0), IDLE, IDLE, IDLE, Server(Mine(t), 0, t, 0)], [Message(0, t, Mine(t), 0, 0)],
            {Ack(t, 4, 1)}, map[0 := LR, t := Mine(t)], map[t := 0])
  }

  lemma AcceptedInReached(t: int)
    requires t >= 1
    ensures Reached(AcceptedIn(t))
  {
    SentInReached(t);
    ReceivedAtStart(IDLE, Message(0, t, Mine(t), 0, 0));
    assert Agreeing(SentIn(t), Deliver(0, 4));
    NextReached(SentIn(t), Deliver(0, 4));
    var c1 := After(SentIn(t), Deliver(0, 4));
    assert c1.servers == AcceptedIn(t).servers && c1.acks == AcceptedIn(t).acks;
  }

  /** Server 1, elected by servers 2 and 3, leads the next term and has sent its entry. */
  function OvertakenIn(t: int): Cluster<char> {
    Cluster([Server(Mine(t), 0, t, 0), Server(Other(t), 0, t + 1, 0), IDLE, IDLE, Server(Mine(t), 0, t, 0)],
            [Message(0, t, Mine(t), 0, 0), Message(1, t + 1, Other(t), 0, 0)], {Ack(t, 4, 1)},
            map[0 := LR, t := Mine(t), t + 1 := Other(t)], map[t := 0, t + 1 := 1])
  }

  lemma OvertakenInReached(t: int)
    requires t >= 1
    ensures Reached(OvertakenIn(t))
  {
    AcceptedInReached(t);
    var c1 := After(AcceptedIn(t), Elect(1, t + 1));
    NextReached(AcceptedIn(t), Elect(1, t + 1));
    assert Leads(c1, 1);
    var c2 := After(c1, Start(1, 'd'));
    NextReached(c1, Start(1, 'd'));
    assert Leads(c2, 1);
    NextReached(c2, Send(1, 0));
    assert After(c2, Send(1, 0)) == OvertakenIn(t);
  }

  /** Server 0 has taken over that log. */
  function FollowsIn(t: int): Cluster<char> {
    Cluster([Server(Other(t), 0, t + 1, 0), Server(Other(t), 0, t + 1, 0), IDLE, IDLE, Server(Mine(t), 0, t, 0)],
            [Message(0, t, Mine(t), 0, 0), Message(1, t + 1, Other(t), 0, 0)], {Ack(t, 4, 1), Ack(t + 1, 0, 1)},
            map[0 := LR, t := Mine(t), t + 1 := Other(t)], map[t := 0, t + 1 := 1])
  }

  lemma FollowsInReached(t: int)
    requires t >= 1
    ensures Reached(FollowsIn(t))
  {
    OvertakenInReached(t);
    ReceivedAtStart(Server(Mine(t), 0, t, 0), Message(1, t + 1, Other(t), 0, 0));
    assert Agreeing(OvertakenIn(t), Deliver(1, 0));
    NextReached(OvertakenIn(t), Deliver(1, 0));
    var c1 := After(OvertakenIn(t), Deliver(1, 0));
    assert c1.servers == FollowsIn(t).servers && c1.acks == FollowsIn(t).acks;
  }

  /** It leads again. */
  function BackIn(t: int, last: int): Cluster<char> {
    Cluster([Server(Other(t), 0, last, 0), Server(Other(t), 0, t + 1, 0), IDLE, IDLE, Server(Mine(t), 0, t, 0)],
            [Message(0, t, Mine(t), 0, 0), Message(1, t + 1, Other(t), 0, 0)], {Ack(t, 4, 1), Ack(t + 1, 0, 1)},
            map[0 := LR, t := Mine(t), t + 1 := Other(t), last := Other(t)], map[t := 0, t + 1 := 1, last := 0])
  }

  lemma BackInReached(t: int, last: int)
    requires t >= 1 && last >= t + 2
    ensures Reached(BackIn(t, last))
  {
    FollowsInReached(t);
    NextReached(FollowsIn(t), Elect(0, last));
    assert After(FollowsIn(t), Elect(0, last)) == BackIn(t, last);
  }

  /**
   In all runs whose deliveries agree, a leader still holds everything that a reply to a message of term `first`
   acknowledges exactly when it counts the reply in that term or in the next. The code counts it in any term.
   */
  lemma AckedIsHeldIff(first: int, last: int)
    requires 1 <= first <= last
    ensures (forall c, k: nat, j: nat :: Reached(c) && Counted(c, k, j, first, last) ==> StillHeld(c, k))
            <==> last <= first + 1
  {
    if last <= first + 1 {
      forall c, k: nat, j: nat | Reached(c) && Counted(c, k, j, first, last)
        ensures StillHeld(c, k)
      {
        ReachedOk(c);
        RecentlySentIsHeld(c, k);
      }
    } else {
      var c := BackIn(first, last);
      BackInReached(first, last);
      assert Counted(c, 0, 4, first, last);
      assert Mine(first)[1] != Other(first)[1];
      assert !StillHeld(c, 0);
    }
  }
}
