/**
 Clerks and servers over one agreed log. A clerk repeats its request until it gets an answer, so a request can
 enter the log any number of times and at any later moment; servers answer from their own state.
 */
module Service {
  import opened Common
  import opened KvState
  import opened Replica

  /** An answer without `WrongLeader`. `prefix` is how much of the log its server had applied. */
  datatype Reply = Reply(id: nat, value: string, prefix: nat)

  datatype Progress = Waiting | Done(ret: nat, reply: Reply)

  /** One call of a clerk. `logAtCall` records the length of the agreed log at the time of the call. */
  datatype Call = Call(op: Op, call: nat, logAtCall: nat, progress: Progress)

  datatype Clerk = Resting(lastRequest: int) | Calling(lastRequest: int, id: nat)

  datatype System = System(agreed: seq<Op>, servers: seq<Replica>, calls: seq<Call>, replies: set<Reply>,
                           clerks: map<int, Clerk>, now: nat)

  // ----- steps -----

  function ClerkOf(s: System, client: int): Clerk {
    if client in s.clerks then s.clerks[client] else Resting(0)
  }

  /** A resting clerk numbers its next request and starts calling. */
  function Invoked(s: System, client: int, key: string, value: string, kind: Kind): System {
    var last := ClerkOf(s, client).lastRequest;
    s.(calls := s.calls + [Call(Op(key, value, kind, client, last + 1), s.now, |s.agreed|, Waiting)],
       clerks := s.clerks[client := Calling(last, |s.calls|)])
  }

  /** The server has applied the request: its handler was notified, or timed out and found it in the table. */
  predicate CanAnswer(r: Replica, op: Op) {
    (op.client, op.request) in r.told || Duplicate(r.kv, op)
  }

  function Answer(r: Replica, id: nat, op: Op): Reply {
    Reply(id, Lookup(r.kv.db, op.key), r.processed)
  }

  /** The answer belongs to the call its clerk is waiting for. */
  predicate CanReturn(s: System, reply: Reply) {
    && reply in s.replies && reply.id < |s.calls|
    && ClerkOf(s, s.calls[reply.id].op.client).Calling? && ClerkOf(s, s.calls[reply.id].op.client).id == reply.id
  }

  function Returned(s: System, reply: Reply): System
    requires reply.id < |s.calls|
  {
    var c := s.calls[reply.id];
    s.(calls := s.calls[reply.id := c.(progress := Done(s.now, reply))],
       clerks := s.clerks[c.op.client := Resting(c.op.request)])
  }

  datatype Action = Invoke(client: int, key: string, value: string, kind: Kind)
                  | Agree(id: nat)
                  | Serve(server: nat, step: Step)
                  | Respond(server: nat, id: nat)
                  | Return(reply: Reply)

  ghost predicate Enabled(s: System, action: Action, t: System) {
    match action
    case Invoke(client, key, value, kind) => ClerkOf(s, client).Resting? && t == Invoked(s, client, key, value, kind)
    case Agree(id) => id < |s.calls| && t == s.(agreed := s.agreed + [s.calls[id].op])
    case Serve(server, step) =>
      && server < |s.servers| == |t.servers| && Next(s.agreed, s.servers[server], step, t.servers[server])
      && t == s.(servers := s.servers[server := t.servers[server]])
    case Respond(server, id) =>
      && server < |s.servers| && id < |s.calls| && CanAnswer(s.servers[server], s.calls[id].op)
      && t == s.(replies := s.replies + {Answer(s.servers[server], id, s.calls[id].op)})
    case Return(reply) => CanReturn(s, reply) && t == Returned(s, reply)
  }

  /** A step, and the clock moves on. */
  ghost predicate Takes(s: System, action: Action, t: System) {
    t.now == s.now + 1 && Enabled(s, action, t.(now := s.now))
  }

  ghost predicate Starts(s: System) {
    && s.agreed == [] && s.calls == [] && s.replies == {} && s.clerks == map[]
    && forall i :: 0 <= i < |s.servers| ==> Initial(s.servers[i])
  }

  // ----- the invariant -----

  /** The request is in the part of the log the answer was read from, and the answer is what that part gives. */
  ghost predicate ReplyOk(agreed: seq<Op>, calls: seq<Call>, reply: Reply) {
    && reply.id < |calls| && reply.prefix <= |agreed|
    && calls[reply.id].op in agreed[..reply.prefix]
    && reply.value == Lookup(Run(agreed[..reply.prefix]).db, calls[reply.id].op.key)
  }

  /** The entry was issued by a call made when the log was no longer than this. */
  ghost predicate Issued(calls: seq<Call>, op: Op, k: nat) {
    exists id :: 0 <= id < |calls| && calls[id].op == op && calls[id].logAtCall <= k
  }

  /** Times are below the clock; a finished call carries its own answer. */
  ghost predicate CallOk(s: System, id: nat)
    requires id < |s.calls|
  {
    var c := s.calls[id];
    && c.call < s.now && c.logAtCall <= |s.agreed|
    && (c.progress.Done? ==>
          c.call < c.progress.ret < s.now && c.progress.reply.id == id && ReplyOk(s.agreed, s.calls, c.progress.reply))
  }

  /**
   Calls are listed as they were made; a client makes its next call, with a higher request, after the last one
   returned.
   */
  ghost predicate OrderOk(a: Call, b: Call) {
    && a.call < b.call && a.logAtCall <= b.logAtCall
    && (a.op.client == b.op.client ==> a.op.request < b.op.request && a.progress.Done? && a.progress.ret < b.call)
  }

  /** What had been read when `a` returned is in the log when a later `b` is called. */
  ghost predicate LogOk(a: Call, b: Call) {
    a.progress.Done? ==>
      a.progress.ret != b.call && (a.progress.ret < b.call ==> a.progress.reply.prefix <= b.logAtCall)
  }

  ghost predicate ClerkOk(s: System, id: nat)
    requires id < |s.calls|
  {
    var op := s.calls[id].op;
    && op.client in s.clerks && op.request <= s.clerks[op.client].lastRequest + 1
    && (s.calls[id].progress.Waiting? <==> s.clerks[op.client].Calling? && s.clerks[op.client].id == id)
    && (s.calls[id].progress.Done? ==> op.request <= s.clerks[op.client].lastRequest)
  }

  ghost predicate ServersOk(s: System) {
    forall i :: 0 <= i < |s.servers| ==> Inv(s.agreed, s.servers[i])
  }

  ghost predicate CallsOk(s: System) {
    && (forall id :: 0 <= id < |s.calls| ==> CallOk(s, id))
    && (forall a, b :: 0 <= a < b < |s.calls| ==> OrderOk(s.calls[a], s.calls[b]))
    && (forall a, b :: 0 <= a < |s.calls| && 0 <= b < |s.calls| ==> LogOk(s.calls[a], s.calls[b]))
  }

  ghost predicate ClerksOk(s: System) {
    forall id :: 0 <= id < |s.calls| ==> ClerkOk(s, id)
  }

  ghost predicate LogIssued(s: System) {
    forall k :: 0 <= k < |s.agreed| ==> Issued(s.calls, s.agreed[k], k)
  }

  ghost predicate RepliesOk(s: System) {
    forall r :: r in s.replies ==> ReplyOk(s.agreed, s.calls, r)
  }

  ghost predicate Invariant(s: System) {
    ServersOk(s) && CallsOk(s) && ClerksOk(s) && LogIssued(s) && RepliesOk(s)
  }

  // ----- every step keeps it -----

  /** Calls are only added or finished. */
  ghost predicate Extends(calls: seq<Call>, more: seq<Call>) {
    && |calls| <= |more|
    && forall i :: 0 <= i < |calls| ==>
         more[i].op == calls[i].op && more[i].call == calls[i].call && more[i].logAtCall == calls[i].logAtCall
  }

  lemma ReplyStays(agreed: seq<Op>, calls: seq<Call>, grown: seq<Op>, more: seq<Call>, reply: Reply)
    requires ReplyOk(agreed, calls, reply) && agreed <= grown && Extends(calls, more)
    ensures ReplyOk(grown, more, reply)
  {
    assert grown[..reply.prefix] == agreed[..reply.prefix];
  }

  lemma IssuedStays(calls: seq<Call>, more: seq<Call>, op: Op, k: nat)
    requires Issued(calls, op, k) && Extends(calls, more)
    ensures Issued(more, op, k)
  {
    var id :| 0 <= id < |calls| && calls[id].op == op && calls[id].logAtCall <= k;
    assert more[id].op == op;
  }

  lemma StartsOk(s: System)
    requires Starts(s)
    ensures Invariant(s) == true
  {
    forall i | 0 <= i < |s.servers|
      ensures Inv(s.agreed, s.servers[i])
    {
      InitialOk(s.servers[i]);
    }
  }

  lemma CallsGrow(s: System, t: System)
    requires LogIssued(s) && RepliesOk(s) && s.agreed == t.agreed && s.replies == t.replies && Extends(s.calls, t.calls)
    ensures LogIssued(t) == true && RepliesOk(t) == true
  {
    forall k | 0 <= k < |t.agreed|
      ensures Issued(t.calls, t.agreed[k], k)
    {
      IssuedStays(s.calls, t.calls, s.agreed[k], k);
    }
    forall r | r in t.replies
      ensures ReplyOk(t.agreed, t.calls, r)
    {
      ReplyStays(s.agreed, s.calls, t.agreed, t.calls, r);
    }
  }

  lemma InvokeCalls(s: System, client: int, key: string, value: string, kind: Kind, t: System)
    requires CallsOk(s) && ClerksOk(s) && ClerkOf(s, client).Resting?
    requires t == Invoked(s, client, key, value, kind).(now := s.now + 1)
    ensures CallsOk(t) == true
  {
    var n := |s.calls|;
    forall id | 0 <= id < |t.calls|
      ensures CallOk(t, id)
    {
      if id < n {
        assert CallOk(s, id);
        if s.calls[id].progress.Done? {
          ReplyStays(s.agreed, s.calls, t.agreed, t.calls, s.calls[id].progress.reply);
        }
      }
    }
    forall a, b | 0 <= a < b < |t.calls|
      ensures OrderOk(t.calls[a], t.calls[b])
    {
      if b == n {
        assert CallOk(s, a) && ClerkOk(s, a);
      }
    }
    forall a, b | 0 <= a < |t.calls| && 0 <= b < |t.calls|
      ensures LogOk(t.calls[a], t.calls[b])
    {
      if a < n && b == n {
        assert CallOk(s, a);
      } else if a < n {
        assert LogOk(s.calls[a], s.calls[b]);
      }
    }
  }

  lemma InvokeOk(s: System, client: int, key: string, value: string, kind: Kind)
    requires Invariant(s) && ClerkOf(s, client).Resting?
    ensures Invariant(Invoked(s, client, key, value, kind).(now := s.now + 1)) == true
  {
    var t := Invoked(s, client, key, value, kind).(now := s.now + 1);
    CallsGrow(s, t);
    InvokeCalls(s, client, key, value, kind, t);
    forall id | 0 <= id < |t.calls|
      ensures ClerkOk(t, id)
    {
      assert id < |s.calls| ==> ClerkOk(s, id);
    }
  }

  lemma AgreeOk(s: System, id: nat)
    requires Invariant(s) && id < |s.calls|
    ensures Invariant(s.(agreed := s.agreed + [s.calls[id].op], now := s.now + 1)) == true
  {
    var t := s.(agreed := s.agreed + [s.calls[id].op], now := s.now + 1);
    forall i | 0 <= i < |t.servers|
      ensures Inv(t.agreed, t.servers[i])
    {
      AgreedGrows(s.agreed, [s.calls[id].op], s.servers[i]);
    }
    forall c | 0 <= c < |t.calls|
      ensures CallOk(t, c)
    {
      assert CallOk(s, c);
      if s.calls[c].progress.Done? {
        ReplyStays(s.agreed, s.calls, t.agreed, t.calls, s.calls[c].progress.reply);
      }
    }
    forall k | 0 <= k < |t.agreed|
      ensures Issued(t.calls, t.agreed[k], k)
    {
      if k < |s.agreed| {
        assert Issued(s.calls, s.agreed[k], k);
      } else {
        assert CallOk(s, id);
      }
    }
    forall c | 0 <= c < |t.calls|
      ensures ClerkOk(t, c)
    {
      assert ClerkOk(s, c);
    }
    forall r | r in t.replies
      ensures ReplyOk(t.agreed, t.calls, r)
    {
      ReplyStays(s.agreed, s.calls, t.agreed, t.calls, r);
    }
  }

  lemma CallsStay(s: System, t: System)
    requires CallsOk(s) && ClerksOk(s) && t.calls == s.calls && t.agreed == s.agreed && t.clerks == s.clerks
    requires s.now <= t.now
    ensures CallsOk(t) == true && ClerksOk(t) == true
  {
    forall c | 0 <= c < |t.calls|
      ensures CallOk(t, c)
    {
      assert CallOk(s, c);
    }
    forall c | 0 <= c < |t.calls|
      ensures ClerkOk(t, c)
    {
      assert ClerkOk(s, c);
    }
  }

  lemma ServeOk(s: System, server: nat, step: Step, r: Replica)
    requires Invariant(s) && server < |s.servers| && Next(s.agreed, s.servers[server], step, r)
    ensures Invariant(s.(servers := s.servers[server := r], now := s.now + 1)) == true
  {
    StepOk(s.agreed, s.servers[server], step, r);
    CallsStay(s, s.(servers := s.servers[server := r], now := s.now + 1));
  }

  /** A server that counts a request as applied has applied it or a later one of its client. */
  lemma AppliedInTable(agreed: seq<Op>, r: Replica, op: Op) returns (k: nat)
    requires StateOk(agreed, r) && CanAnswer(r, op)
    ensures k < r.processed <= |agreed| && agreed[k].client == op.client && op.request <= agreed[k].request
  {
    var prefix := agreed[..r.processed];
    AppliedIsHighest(prefix, op.client);
    k :| 0 <= k < |prefix| && prefix[k].client == op.client && prefix[k].request == r.kv.applied[op.client];
  }

  lemma RequestsIncrease(s: System, id: nat)
    requires CallsOk(s) && id < |s.calls|
    ensures forall a :: 0 <= a < id && s.calls[a].op.client == s.calls[id].op.client ==>
              s.calls[a].op.request < s.calls[id].op.request
  {
    assert forall a :: 0 <= a < id ==> OrderOk(s.calls[a], s.calls[id]);
  }

  /** When a client makes a call, its earlier requests are in the log. */
  lemma EarlierIsInLog(s: System, a: nat, b: nat) returns (j: nat)
    requires CallsOk(s) && a < b < |s.calls| && s.calls[a].op.client == s.calls[b].op.client
    ensures j < s.calls[b].logAtCall && j < |s.agreed| && s.agreed[j] == s.calls[a].op
  {
    assert OrderOk(s.calls[a], s.calls[b]) && LogOk(s.calls[a], s.calls[b]) && CallOk(s, a);
    var reply := s.calls[a].progress.reply;
    j :| 0 <= j < reply.prefix && s.agreed[..reply.prefix][j] == s.calls[a].op;
  }

  /** A client's request comes into the log before its later ones. */
  lemma RequestIsInLog(s: System, id: nat, k: nat) returns (j: nat)
    requires CallsOk(s) && LogIssued(s) && id < |s.calls| && k < |s.agreed|
    requires s.agreed[k].client == s.calls[id].op.client && s.calls[id].op.request <= s.agreed[k].request
    ensures j <= k && s.agreed[j] == s.calls[id].op
  {
    assert Issued(s.calls, s.agreed[k], k);
    var other :| 0 <= other < |s.calls| && s.calls[other].op == s.agreed[k] && s.calls[other].logAtCall <= k;
    RequestsIncrease(s, id);
    if id < other {
      j := EarlierIsInLog(s, id, other);
    } else {
      j := k;
    }
  }

  /** A request that a server counts as applied is in the part of the log it has applied. */
  lemma AppliedIsInLog(s: System, server: nat, id: nat)
    requires Invariant(s) && server < |s.servers| && id < |s.calls| && CanAnswer(s.servers[server], s.calls[id].op)
    ensures s.servers[server].processed <= |s.agreed|
    ensures s.calls[id].op in s.agreed[..s.servers[server].processed]
  {
    assert Inv(s.agreed, s.servers[server]);
    var k := AppliedInTable(s.agreed, s.servers[server], s.calls[id].op);
    var j := RequestIsInLog(s, id, k);
    assert s.agreed[..s.servers[server].processed][j] == s.calls[id].op;
  }

  lemma RespondOk(s: System, server: nat, id: nat)
    requires Invariant(s) && server < |s.servers| && id < |s.calls| && CanAnswer(s.servers[server], s.calls[id].op)
    ensures Invariant(s.(replies := s.replies + {Answer(s.servers[server], id, s.calls[id].op)}, now := s.now + 1)) ==
              true
  {
    var t := s.(replies := s.replies + {Answer(s.servers[server], id, s.calls[id].op)}, now := s.now + 1);
    AppliedIsInLog(s, server, id);
    assert Inv(s.agreed, s.servers[server]);
    CallsStay(s, t);
  }

  lemma ReturnCalls(s: System, reply: Reply, t: System)
    requires CallsOk(s) && ClerksOk(s) && RepliesOk(s) && CanReturn(s, reply)
    requires t == Returned(s, reply).(now := s.now + 1)
    ensures CallsOk(t) == true
  {
    forall c | 0 <= c < |t.calls|
      ensures CallOk(t, c)
    {
      assert CallOk(s, c);
      if s.calls[c].progress.Done? {
        ReplyStays(s.agreed, s.calls, t.agreed, t.calls, s.calls[c].progress.reply);
      }
      ReplyStays(s.agreed, s.calls, t.agreed, t.calls, reply);
    }
    assert ClerkOk(s, reply.id);
    forall a, b | 0 <= a < b < |t.calls|
      ensures OrderOk(t.calls[a], t.calls[b])
    {
      assert OrderOk(s.calls[a], s.calls[b]);
    }
    forall a, b | 0 <= a < |t.calls| && 0 <= b < |t.calls|
      ensures LogOk(t.calls[a], t.calls[b])
    {
      assert LogOk(s.calls[a], s.calls[b]) && CallOk(s, b);
    }
  }

  lemma ReturnOk(s: System, reply: Reply)
    requires Invariant(s) && CanReturn(s, reply)
    ensures Invariant(Returned(s, reply).(now := s.now + 1)) == true
  {
    var t := Returned(s, reply).(now := s.now + 1);
    CallsGrow(s, t);
    ReturnCalls(s, reply, t);
    forall c | 0 <= c < |t.calls|
      ensures ClerkOk(t, c)
    {
      assert ClerkOk(s, c) && ClerkOk(s, reply.id);
      assert c < reply.id ==> OrderOk(s.calls[c], s.calls[reply.id]);
      assert reply.id < c ==> OrderOk(s.calls[reply.id], s.calls[c]);
    }
  }

  lemma TakesOk(s: System, action: Action, t: System)
    requires Invariant(s) && Takes(s, action, t)
    ensures Invariant(t) == true
  {
    match action
    case Invoke(client, key, value, kind) => InvokeOk(s, client, key, value, kind);
    case Agree(id) => AgreeOk(s, id);
    case Serve(server, step) => ServeOk(s, server, step, t.servers[server]);
    case Respond(server, id) => RespondOk(s, server, id);
    case Return(reply) => ReturnOk(s, reply);
  }

  // ----- runs -----

  ghost predicate IsRun(states: seq<System>, actions: seq<Action>) {
    && |states| == |actions| + 1 && Starts(states[0])
    && forall i :: 0 <= i < |actions| ==> Takes(states[i], actions[i], states[i + 1])
  }

  /** The invariant holds all along every run. */
  lemma {:induction false} RunsKeepInvariant(states: seq<System>, actions: seq<Action>, i: nat)
    requires IsRun(states, actions) && i < |states|
    ensures Invariant(states[i]) == true
  {
    if i == 0 {
      StartsOk(states[0]);
    } else {
      RunsKeepInvariant(states, actions, i - 1);
      TakesOk(states[i - 1], actions[i - 1], states[i]);
    }
  }

  /**
   Along every run and on every server: the slice of `setCommitIndex` never starts below zero and that of
   `ReplaceLogWithSnapshot` never beyond the log, `lastApplied` trails what was delivered by at most one, first
   deliveries are the log in order, the state is that of one pass over what was applied, and a crash now followed by a
   replay of the rest of the log would lose nothing.
   */
  lemma {:induction false} RunsAreSafe(states: seq<System>, actions: seq<Action>, i: nat, server: nat)
    requires IsRun(states, actions) && i < |states| && server < |states[i].servers|
    ensures var agreed, r := states[i].agreed, states[i].servers[server];
            && 0 <= SliceStart(r) && r.lastApplied <= r.delivered <= r.lastApplied + 1
            && (forall p :: 0 <= p < |r.pending| && r.snapshotted < r.pending[p].index ==>
                 r.pending[p].index <= LastIndex(r))
            && r.delivered == Highest(r.base, r.received) && GapFree(r.base, r.received)
            && r.processed <= |agreed| && r.kv == Run(agreed[..r.processed])
            && r.snapshotted <= |agreed| && Replay(r.disk, agreed[r.snapshotted..]) == Run(agreed)
  {
    RunsKeepInvariant(states, actions, i);
    assert Inv(states[i].agreed, states[i].servers[server]);
    NeverPanics(states[i].agreed, states[i].servers[server]);
    SnapshotsAreExact(states[i].agreed, states[i].servers[server]);
  }
}
