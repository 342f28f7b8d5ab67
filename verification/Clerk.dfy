/** The retry loops of kvraft/client.go. */
module Clerk {
  import opened Common
  import opened KvState

  /** How one RPC ends: no reply, a reply from a server that could not serve it, or an answer. */
  datatype Outcome = Lost | WrongLeader | Answer(value: string)

  /** A request with the server it was sent to. */
  datatype Sent = Sent(server: nat, op: Op)

  /** The server tried after `i` failures. */
  function ServerAfter(leader: nat, servers: nat, i: nat): (s: nat)
    requires leader < servers
    ensures s < servers
  {
    if i == 0 then leader else (ServerAfter(leader, servers, i - 1) + 1) % servers
  }

  lemma NextServer(s: nat, servers: nat)
    requires s < servers
    ensures (s + 1) % servers == if s + 1 < servers then s + 1 else 0
  {
    if s + 1 == servers {
      assert (s + 1) % servers == 0;
    }
  }

  lemma {:induction false} ServerAt(leader: nat, servers: nat, i: nat)
    requires leader < servers && i < servers
    ensures ServerAfter(leader, servers, i) == if leader + i < servers then leader + i else leader + i - servers
  {
    if i > 0 {
      ServerAt(leader, servers, i - 1);
      NextServer(ServerAfter(leader, servers, i - 1), servers);
    }
  }

  /** As many failures as there are servers try every one of them. */
  lemma {:induction false} EveryServerTried(leader: nat, servers: nat, s: nat) returns (i: nat)
    requires leader < servers && s < servers
    ensures i < servers && ServerAfter(leader, servers, i) == s
  {
    i := if leader <= s then s - leader else s + servers - leader;
    ServerAt(leader, servers, i);
  }

  class Clerk {
    const client: int
    const servers: nat
    var leaderId: nat
    var lastRequestId: int

    /**
     `Get` and `PutAppend`: the same request goes to one server after the other until one answers. `outcomes` is how
     the successive RPCs end, as far as they have; without an answer the call is still going on and nothing but the
     server to try next has changed.
     */
    method Call(key: string, value: string, kind: Kind, outcomes: seq<Outcome>)
      returns (result: Option<string>, sent: seq<Sent>)
      requires leaderId < servers
      modifies this
      ensures forall i :: 0 <= i < |sent| ==>
                sent[i] == Sent(ServerAfter(old(leaderId), servers, i),
                                Op(key, value, kind, client, old(lastRequestId) + 1))
      ensures result.Some? <==> exists i :: 0 <= i < |outcomes| && outcomes[i].Answer?
      ensures result.Some? ==>
                && 1 <= |sent| <= |outcomes| && outcomes[|sent| - 1] == Answer(result.value)
                && (forall i :: 0 <= i < |sent| - 1 ==> !outcomes[i].Answer?)
                && lastRequestId == old(lastRequestId) + 1 && leaderId == sent[|sent| - 1].server
      ensures result.None? ==> |sent| == |outcomes| && lastRequestId == old(lastRequestId)
      ensures leaderId < servers
    {
      var requestId := lastRequestId + 1;
      sent := [];
      for n := 0 to |outcomes|
        invariant n == |sent| && leaderId == ServerAfter(old(leaderId), servers, n)
        invariant requestId == old(lastRequestId) + 1 && lastRequestId == old(lastRequestId)
        invariant forall i :: 0 <= i < n ==> !outcomes[i].Answer?
        invariant forall i :: 0 <= i < n ==>
                    sent[i] == Sent(ServerAfter(old(leaderId), servers, i), Op(key, value, kind, client, requestId))
      {
        sent := sent + [Sent(leaderId, Op(key, value, kind, client, requestId))];
        if outcomes[n].Answer? {
          lastRequestId := requestId;
          return Some(outcomes[n].value), sent;
        }
        leaderId := (leaderId + 1) % servers;
      }
      return None, sent;
    }
  }
}
