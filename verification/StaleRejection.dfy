/**
 A run of five servers after which the leader's search for a conflict term reads beyond its log. Server 0 sends from
 the end of a long log and is refused with a conflict term; before the reply arrives another leader cuts its log;
 server 0 leads again, with a short log, and the old reply arrives.
 */
module StaleRejection {
  import opened LogMatching
  import opened Replication
  import Backup

  const R := Entry('-', 0)
  const LR := [R]
  /** The log of server 1, leader of term 1. */
  const LX := LR + [Entry('x', 1)]
  const LY := LX + [Entry('y', 1)]
  const LZ := LY + [Entry('z', 1)]
  /** The log of server 0, leader of term 2. */
  const LA := LR + [Entry('a', 2)]
  const LB := LA + [Entry('b', 2)]
  const LC := LB + [Entry('c', 2)]
  /** The log of server 2, leader of term 4. */
  const LD := LR + [Entry('d', 4)]

  const IDLE := Server(LR, 0, 0, 0)
  const LONG := Message(0, 3, LC, 3, 0)
  const SHORT := Message(2, 4, LD, 0, 0)

  function Fresh(): Cluster<char> {
    Cluster([IDLE, IDLE, IDLE, IDLE, IDLE], [], {}, map[0 := LR], map[])
  }

  function OneLeads(): Cluster<char> {
    Cluster([IDLE, Server(LX, 0, 1, 0), IDLE, IDLE, IDLE], [], {}, map[0 := LR, 1 := LX], map[1 := 1])
  }

  lemma OneLeadsReached()
    ensures Reached(OneLeads())
  {
    StartReached(Fresh());
    var c1 := After(Fresh(), Elect(1, 1));
    NextReached(Fresh(), Elect(1, 1));
    assert Leads(c1, 1);
    NextReached(c1, Start(1, 'x'));
    assert After(c1, Start(1, 'x')) == OneLeads();
  }

  function OneDone(): Cluster<char> {
    Cluster([IDLE, Server(LZ, 0, 1, 0), IDLE, IDLE, IDLE], [], {}, map[0 := LR, 1 := LZ], map[1 := 1])
  }

  lemma OneDoneReached()
    ensures Reached(OneDone())
  {
    OneLeadsReached();
    assert Leads(OneLeads(), 1);
    var c1 := After(OneLeads(), Start(1, 'y'));
    NextReached(OneLeads(), Start(1, 'y'));
    assert Leads(c1, 1);
    NextReached(c1, Start(1, 'z'));
    assert After(c1, Start(1, 'z')) == OneDone();
  }

  function ZeroLeads(): Cluster<char> {
    Cluster([Server(LA, 0, 2, 0), Server(LZ, 0, 1, 0), IDLE, IDLE, IDLE], [], {},
            map[0 := LR, 1 := LZ, 2 := LA], map[1 := 1, 2 := 0])
  }

  lemma ZeroLeadsReached()
    ensures Reached(ZeroLeads())
  {
    OneDoneReached();
    var c1 := After(OneDone(), Elect(0, 2));
    NextReached(OneDone(), Elect(0, 2));
    assert Leads(c1, 0);
    NextReached(c1, Start(0, 'a'));
    assert After(c1, Start(0, 'a')) == ZeroLeads();
  }

  function Longest(): Cluster<char> {
    Cluster([Server(LC, 0, 2, 0), Server(LZ, 0, 1, 0), IDLE, IDLE, IDLE], [], {},
            map[0 := LR, 1 := LZ, 2 := LC], map[1 := 1, 2 := 0])
  }

  lemma LongestReached()
    ensures Reached(Longest())
  {
    ZeroLeadsReached();
    assert Leads(ZeroLeads(), 0);
    var c1 := After(ZeroLeads(), Start(0, 'b'));
    NextReached(ZeroLeads(), Start(0, 'b'));
    assert Leads(c1, 0);
    NextReached(c1, Start(0, 'c'));
    assert After(c1, Start(0, 'c')) == Longest();
  }

  /** Server 0 leads again, in term 3, and sends from the end of its log. */
  function Asking(): Cluster<char> {
    Cluster([Server(LC, 0, 3, 0), Server(LZ, 0, 1, 0), IDLE, IDLE, IDLE], [LONG], {},
            map[0 := LR, 1 := LZ, 2 := LC, 3 := LC], map[1 := 1, 2 := 0, 3 := 0])
  }

  lemma AskingReached()
    ensures Reached(Asking())
  {
    LongestReached();
    var c1 := After(Longest(), Elect(0, 3));
    NextReached(Longest(), Elect(0, 3));
    assert Leads(c1, 0);
    NextReached(c1, Send(0, 3));
    assert After(c1, Send(0, 3)) == Asking();
  }

  /** Server 1 has refused the message. */
  function Refused(): Cluster<char> {
    Cluster([Server(LC, 0, 3, 0), Server(LZ, 0, 3, 0), IDLE, IDLE, IDLE], [LONG], {},
            map[0 := LR, 1 := LZ, 2 := LC, 3 := LC], map[1 := 1, 2 := 0, 3 := 0])
  }

  lemma LongRefused()
    ensures !Succeeds(LZ, 0, LC, 3) && Received(Server(LZ, 0, 1, 0), LONG) == Server(LZ, 0, 3, 0)
  {
    assert LZ[3] == Entry('z', 1) && LC[3] == Entry('c', 2);
    assert LZ[0..] == LZ && LZ[..0] + LZ == LZ;
  }

  lemma RefusedReached()
    ensures Reached(Refused()) && Takes(Asking(), Deliver(0, 1), Refused())
  {
    AskingReached();
    LongRefused();
    assert Agreeing(Asking(), Deliver(0, 1));
    NextReached(Asking(), Deliver(0, 1));
    assert After(Asking(), Deliver(0, 1)) == Refused();
  }

  /** Server 2, elected by servers 3 and 4, leads term 4. */
  function TwoLeads(): Cluster<char> {
    Cluster([Server(LC, 0, 3, 0), Server(LZ, 0, 3, 0), Server(LR, 0, 4, 0), IDLE, IDLE], [LONG], {},
            map[0 := LR, 1 := LZ, 2 := LC, 3 := LC, 4 := LR], map[1 := 1, 2 := 0, 3 := 0, 4 := 2])
  }

  lemma TwoLeadsReached()
    ensures Reached(TwoLeads())
  {
    RefusedReached();
    NextReached(Refused(), Elect(2, 4));
    assert After(Refused(), Elect(2, 4)) == TwoLeads();
  }

  /** It has sent its only entry. */
  function Cutting(): Cluster<char> {
    Cluster([Server(LC, 0, 3, 0), Server(LZ, 0, 3, 0), Server(LD, 0, 4, 0), IDLE, IDLE], [LONG, SHORT], {},
            map[0 := LR, 1 := LZ, 2 := LC, 3 := LC, 4 := LD], map[1 := 1, 2 := 0, 3 := 0, 4 := 2])
  }

  lemma CuttingReached()
    ensures Reached(Cutting())
  {
    TwoLeadsReached();
    assert Leads(TwoLeads(), 2);
    var c1 := After(TwoLeads(), Start(2, 'd'));
    NextReached(TwoLeads(), Start(2, 'd'));
    assert Leads(c1, 2);
    NextReached(c1, Send(2, 0));
    assert After(c1, Send(2, 0)) == Cutting();
  }

  /** Server 0 has taken over the short log and leads again, in term 5. */
  function Back(): Cluster<char> {
    Cluster([Server(LD, 0, 5, 0), Server(LZ, 0, 3, 0), Server(LD, 0, 4, 0), IDLE, IDLE], [LONG, SHORT], {Ack(4, 0, 1)},
            map[0 := LR, 1 := LZ, 2 := LC, 3 := LC, 4 := LD, 5 := LD], map[1 := 1, 2 := 0, 3 := 0, 4 := 2, 5 := 0])
  }

  lemma BackReached()
    ensures Reached(Back())
  {
    CuttingReached();
    ReceivedAtStart(Server(LC, 0, 3, 0), SHORT);
    assert Agreeing(Cutting(), Deliver(1, 0));
    var c1 := After(Cutting(), Deliver(1, 0));
    NextReached(Cutting(), Deliver(1, 0));
    NextReached(c1, Elect(0, 5));
    assert After(c1, Elect(0, 5)) == Back();
  }

  /**
   Server 1 refuses the long message at an entry it holds, so its reply carries a conflict term; when server 0 leads
   again, in a term that is not lower than the reply's, its search for that term starts beyond its log.
   */
  lemma SearchBeyondLog()
    ensures Reached(Asking()) && Takes(Asking(), Deliver(0, 1), Refused()) && Reached(Back()) && Leads(Back(), 0)
    ensures var m, s, leader := Asking().messages[0], Asking().servers[1], Back().servers[0];
            && m.sender == 0 && m.prev < |s.full| && !Succeeds(s.full, s.snapshotted, m.origin, m.prev)
            && Refused().servers[1].term <= leader.term
            && Backup.SearchBeyond(|leader.full| - 1, m.prev, s.full[m.prev].term)
  {
    AskingReached();
    RefusedReached();
    BackReached();
    LongRefused();
    assert LZ[3] == Entry('z', 1);
  }
}
