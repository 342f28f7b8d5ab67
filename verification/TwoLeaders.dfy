/**
 A run of three servers with two leaders in one term: server 0 asks for votes in term 1, times out and asks again in
 term 2 while the vote of server 1 for term 1 is still on its way; server 2 wins term 2; then the old vote arrives
 and server 0 leads term 2 as well.
 */
module TwoLeaders {
  import opened Votes

  const IDLE := Peer(0, NOBODY, Follower)

  function Fresh(): Cluster {
    Cluster([IDLE, IDLE, IDLE], [], {}, {})
  }

  /** Server 1 has granted server 0 its vote for term 1. */
  function Granted(): Cluster {
    Cluster([Peer(1, 0, Candidate), Peer(1, 0, Follower), IDLE],
            [Election(0, 1, {0}, true)],
            {Grant(0, 1, 0), Grant(1, 1, 0)}, {})
  }

  lemma GrantedReached()
    ensures Reached(Granted())
  {
    StartReached(Fresh());
    var c1 := After(Fresh(), Timeout(0));
    NextReached(Fresh(), Timeout(0));
    NextReached(c1, Ask(0, 1, true));
    assert After(c1, Ask(0, 1, true)) == Granted();
  }

  /** Server 0 asks for term 2, server 2 for term 1 and then for term 2. */
  function Asking(): Cluster {
    Cluster([Peer(2, 0, Candidate), Peer(1, 0, Follower), Peer(2, 2, Candidate)],
            [Election(0, 1, {0}, true), Election(0, 2, {0}, true), Election(2, 1, {2}, true),
             Election(2, 2, {2}, true)],
            {Grant(0, 1, 0), Grant(1, 1, 0), Grant(0, 2, 0), Grant(2, 1, 2), Grant(2, 2, 2)}, {})
  }

  lemma AskingReached()
    ensures Reached(Asking())
  {
    GrantedReached();
    var c1 := After(Granted(), Timeout(0));
    NextReached(Granted(), Timeout(0));
    var c2 := After(c1, Timeout(2));
    NextReached(c1, Timeout(2));
    NextReached(c2, Timeout(2));
    assert After(c2, Timeout(2)) == Asking();
  }

  /** Server 2 leads term 2 with the vote of server 1. */
  function OneElected(): Cluster {
    Cluster([Peer(2, 0, Candidate), Peer(2, 2, Follower), Peer(2, 2, Leader)],
            [Election(0, 1, {0}, true), Election(0, 2, {0}, true), Election(2, 1, {2}, true),
             Election(2, 2, {2, 1}, true)],
            {Grant(0, 1, 0), Grant(1, 1, 0), Grant(0, 2, 0), Grant(2, 1, 2), Grant(2, 2, 2), Grant(1, 2, 2)},
            {Reign(2, 2)})
  }

  lemma OneElectedReached()
    ensures Reached(OneElected())
  {
    AskingReached();
    var c1 := After(Asking(), Ask(3, 1, true));
    NextReached(Asking(), Ask(3, 1, true));
    assert {2} + {1} == {2, 1} && |{2, 1}| == 2;
    NextReached(c1, Count(3, 1));
    assert After(c1, Count(3, 1)) == OneElected();
  }

  /** The old vote of server 1 has been counted. */
  function Both(): Cluster {
    Cluster([Peer(2, 0, Leader), Peer(2, 2, Follower), Peer(2, 2, Leader)],
            [Election(0, 1, {0, 1}, true), Election(0, 2, {0}, true), Election(2, 1, {2}, true),
             Election(2, 2, {2, 1}, true)],
            {Grant(0, 1, 0), Grant(1, 1, 0), Grant(0, 2, 0), Grant(2, 1, 2), Grant(2, 2, 2), Grant(1, 2, 2)},
            {Reign(2, 2), Reign(0, 2)})
  }

  /** The run is one of the code's, and it ends with two leaders in term 2. */
  lemma TwoLeadersInOneTerm()
    ensures Reached(Both())
    ensures Both().peers[0] == Peer(2, 0, Leader) && Both().peers[2] == Peer(2, 2, Leader)
    ensures Reign(0, 2) in Both().reigns && Reign(2, 2) in Both().reigns
  {
    OneElectedReached();
    assert {0} + {1} == {0, 1} && |{0, 1}| == 2;
    NextReached(OneElected(), Count(0, 1));
    assert After(OneElected(), Count(0, 1)) == Both();
  }
}
