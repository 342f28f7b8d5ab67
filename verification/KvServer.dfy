/** The key/value server of kvraft/server.go: the object behind the apply loop and the request handlers. */
module KvServer {
  import opened Common
  import opened KvState
  import opened Replica

  /** Tells the handler waiting at a log index which request was applied there. */
  datatype Notification = Notification(client: int, request: int)

  /** A message on the apply channel. */
  datatype Message = Message(index: nat, op: Op)

  /** What happens at a server, in order: a message arrives, or a handler registers for a log index. */
  datatype Event = Delivery(msg: Message) | Registration(index: nat)

  /** Highest index applied after these events. */
  function DoneAfter(base: nat, events: seq<Event>): (done: nat)
    ensures done >= base
  {
    if events == [] then base
    else
      var n := |events| - 1;
      if events[n].Delivery? then Max(DoneAfter(base, events[..n]), events[n].msg.index)
      else DoneAfter(base, events[..n])
  }

  ghost predicate NextOrAgain(agreed: seq<Op>, done: nat, msg: Message) {
    1 <= msg.index <= done + 1 && msg.index <= |agreed| && msg.op == agreed[msg.index - 1]
  }

  /** Messages carry entries of the agreed log and bring them in order: again, or the next one. */
  ghost predicate InOrder(agreed: seq<Op>, base: nat, events: seq<Event>) {
    forall k :: 0 <= k < |events| && events[k].Delivery? ==>
      NextOrAgain(agreed, DoneAfter(base, events[..k]), events[k].msg)
  }

  /** The indices of the messages, and why they are what the delivery model calls free of gaps. */
  function Indices(events: seq<Event>): seq<nat> {
    if events == [] then []
    else
      var n := |events| - 1;
      Indices(events[..n]) + if events[n].Delivery? then [events[n].msg.index] else []
  }

  lemma {:induction false} InOrderFront(agreed: seq<Op>, base: nat, events: seq<Event>)
    requires InOrder(agreed, base, events) && events != []
    ensures InOrder(agreed, base, events[..|events| - 1]) == true
    ensures events[|events| - 1].Delivery? ==>
              NextOrAgain(agreed, DoneAfter(base, events[..|events| - 1]), events[|events| - 1].msg)
  {
    var front := events[..|events| - 1];
    forall k | 0 <= k < |front| && front[k].Delivery?
      ensures NextOrAgain(agreed, DoneAfter(base, front[..k]), front[k].msg)
    {
      assert front[..k] == events[..k];
    }
  }

  lemma {:induction false} InOrderIsGapFree(agreed: seq<Op>, base: nat, events: seq<Event>)
    requires InOrder(agreed, base, events)
    ensures GapFree(base, Indices(events)) && DoneAfter(base, events) == Highest(base, Indices(events))
  {
    if events != [] {
      var n := |events| - 1;
      InOrderFront(agreed, base, events);
      InOrderIsGapFree(agreed, base, events[..n]);
      if events[n].Delivery? {
        NoGapsOneMore(base, Indices(events[..n]), events[n].msg.index);
      } else {
        assert Indices(events) == Indices(events[..n]);
      }
    }
  }

  /** At what point of the log each waiting handler registered. */
  function SinceAfter(since: map<nat, nat>, base: nat, events: seq<Event>): map<nat, nat> {
    if events == [] then since
    else
      var n := |events| - 1;
      var before := SinceAfter(since, base, events[..n]);
      if events[n].Registration? && events[n].index !in before
      then before[events[n].index := DoneAfter(base, events[..n])]
      else before
  }

  /** What a handler that registered for `index` when `since` entries were applied has been sent. */
  ghost function Told(agreed: seq<Op>, index: nat, since: nat, done: nat): Option<Notification>
    requires done <= |agreed|
  {
    if since < index <= done && Fresh(agreed, index - 1)
    then Some(Notification(agreed[index - 1].client, agreed[index - 1].request)) else None
  }

  /** An applied entry is in the table. */
  lemma {:induction false} AppliedEntry(agreed: seq<Op>, done: nat, index: nat)
    requires 1 <= index <= done <= |agreed|
    ensures Duplicate(Run(agreed[..done]), agreed[index - 1]) == true
  {
    ApplyNext(agreed, done, index);
  }

  class KvServer {
    var db: map<string, string>
    var lastAppliedRequestId: map<int, int>
    var appliedRaftLogIndex: nat
    /** The channels of the waiting handlers, each with room for one notification. */
    var dispatcher: map<nat, Option<Notification>>

    function State(): Kv
      reads this
    {
      Kv(db, lastAppliedRequestId)
    }

    /** Start-up: empty, or restored from the snapshot on stable storage. */
    constructor (snapshot: Option<Kv>)
      ensures State() == if snapshot.Some? then snapshot.value else EMPTY
      ensures appliedRaftLogIndex == 0 && dispatcher == map[]
    {
      db, lastAppliedRequestId, appliedRaftLogIndex, dispatcher := map[], map[], 0, map[];
      new;
      InstallSnapshot(snapshot);
    }

    method InstallSnapshot(snapshot: Option<Kv>)
      modifies this`db, this`lastAppliedRequestId
      ensures State() == if snapshot.Some? then snapshot.value else old(State())
    {
      if snapshot.Some? {
        db := snapshot.value.db;
        lastAppliedRequestId := snapshot.value.applied;
      }
    }

    method IsDuplicateRequest(client: int, request: int) returns (duplicate: bool)
      ensures forall op: Op :: op.client == client && op.request == request ==> duplicate == Duplicate(State(), op)
    {
      if client !in lastAppliedRequestId || request > lastAppliedRequestId[client] {
        return false;
      }
      return true;
    }

    /** The state after `done` entries of the agreed log, with a label that may lag behind but fits. */
    ghost predicate Exact(agreed: seq<Op>, done: nat)
      reads this
    {
      done <= |agreed| && State() == Run(agreed[..done]) && Labelled(agreed, State(), appliedRaftLogIndex, done)
    }

    /**
     Every waiting handler has been told about the entry at its index exactly if it took effect since it registered.
     */
    ghost predicate Notified(agreed: seq<Op>, done: nat, since: map<nat, nat>)
      requires done <= |agreed|
      reads this
    {
      && dispatcher.Keys == since.Keys
      && forall i :: i in dispatcher ==> since[i] <= done && dispatcher[i] == Told(agreed, i, since[i], done)
    }

    /**
     State and label are read together, under the lock: the snapshot is the state after the prefix it is labelled
     with.
     */
    method TakeSnapshot(ghost agreed: seq<Op>, ghost done: nat) returns (snapshot: Snapshot)
      requires Exact(agreed, done)
      ensures snapshot.kv == Run(agreed[..done])
      ensures snapshot.index <= done && (snapshot.index == 0 || snapshot.kv == Run(agreed[..snapshot.index]))
      ensures snapshot == Snapshot(State(), appliedRaftLogIndex)
    {
      snapshot := Snapshot(Kv(db, lastAppliedRequestId), appliedRaftLogIndex);
    }

    /**
     One message. A handler waiting at its index is notified if the command takes effect; its channel must have
     room.
     */
    method ApplyMessage(msg: Message)
      requires msg.index in dispatcher && !Duplicate(State(), msg.op) ==> dispatcher[msg.index].None?
      modifies this
      ensures State() == Apply(old(State()), msg.op)
      ensures appliedRaftLogIndex == if old(Duplicate(State(), msg.op)) then old(appliedRaftLogIndex) else msg.index
      ensures dispatcher ==
              if old(Duplicate(State(), msg.op)) || msg.index !in old(dispatcher) then old(dispatcher)
              else old(dispatcher)[msg.index := Some(Notification(msg.op.client, msg.op.request))]
    {
      var duplicate := IsDuplicateRequest(msg.op.client, msg.op.request);
      if duplicate {
        return;
      }
      match msg.op.kind {
        case Put =>
          db := db[msg.op.key := msg.op.value];
        case Append =>
          db := db[msg.op.key := Lookup(db, msg.op.key) + msg.op.value];
        case Get =>
      }
      lastAppliedRequestId := lastAppliedRequestId[msg.op.client := msg.op.request];
      appliedRaftLogIndex := msg.index;
      if msg.index in dispatcher {
        dispatcher := dispatcher[msg.index := Some(Notification(msg.op.client, msg.op.request))];
      }
    }

    /** One delivery: the next entry or one that was there before. The channel of a fresh entry always has room. */
    method ApplyDelivered(msg: Message, ghost agreed: seq<Op>, ghost done: nat, ghost since: map<nat, nat>)
      requires Exact(agreed, done) && NextOrAgain(agreed, done, msg) && Notified(agreed, done, since)
      modifies this
      ensures Exact(agreed, Max(done, msg.index)) && Notified(agreed, Max(done, msg.index), since)
    {
      ApplyNext(agreed, done, msg.index);
      if msg.index == done + 1 {
        FreshIsNotDuplicate(agreed, done);
      }
      ApplyMessage(msg);
    }

    /**
     A handler registers for the index its request was given. If the entry there is already applied, it will hear
     nothing.
     */
    method Register(index: nat, ghost agreed: seq<Op>, ghost done: nat, ghost since: map<nat, nat>)
      requires done <= |agreed| && Notified(agreed, done, since)
      modifies this`dispatcher
      ensures Notified(agreed, done, if index in since then since else since[index := done])
    {
      if index !in dispatcher {
        dispatcher := dispatcher[index := None];
      }
    }

    /**
     The apply loop with handlers registering in between: after any sequence of events that introduces indices in
     order, the state is that of one pass over the log, the label fits it, and every handler has been told about the
     entry at its index exactly if it took effect after the handler registered.
     */
    method Serve(events: seq<Event>, ghost agreed: seq<Op>, ghost base: nat, ghost since: map<nat, nat>)
      requires Exact(agreed, base) && Notified(agreed, base, since) && InOrder(agreed, base, events)
      modifies this
      ensures Exact(agreed, DoneAfter(base, events))
      ensures Notified(agreed, DoneAfter(base, events), SinceAfter(since, base, events))
    {
      for i := 0 to |events|
        invariant Exact(agreed, DoneAfter(base, events[..i]))
        invariant Notified(agreed, DoneAfter(base, events[..i]), SinceAfter(since, base, events[..i]))
      {
        assert events[..i + 1][..i] == events[..i];
        ghost var done, before := DoneAfter(base, events[..i]), SinceAfter(since, base, events[..i]);
        match events[i] {
          case Delivery(msg) =>
            ApplyDelivered(msg, agreed, done, before);
          case Registration(index) =>
            Register(index, agreed, done, before);
        }
      }
      assert events[..|events|] == events;
    }

    /**
     The end of `waitApplying`: a notification must name the request, after a timeout the request must be in the
     table. An answer without `wrongLeader` means that the request has been applied. A request whose entry is at its
     index and applied is never refused, also when its handler registered too late to be told. `mine` is the point of
     the log at which this handler took its channel. Another handler of the same index may have taken the notification
     or removed the registration.
     */
    method FinishWaiting(op: Op, index: nat, notify: Option<Notification>, ghost agreed: seq<Op>, ghost done: nat,
                         ghost since: map<nat, nat>, ghost mine: nat)
      returns (wrongLeader: bool)
      requires Exact(agreed, done) && Notified(agreed, done, since)
      requires notify.Some? ==> notify == Told(agreed, index, mine, done)
      modifies this`dispatcher
      ensures !wrongLeader ==> Duplicate(State(), op)
      ensures notify.None? ==> (wrongLeader <==> !Duplicate(State(), op))
      ensures notify.Some? ==> 1 <= index <= done && (wrongLeader <==> !SameRequest(agreed[index - 1], op))
      ensures 1 <= index <= done && op == agreed[index - 1] ==> !wrongLeader
      ensures Notified(agreed, done, since - {index})
    {
      if 1 <= index <= done {
        AppliedEntry(agreed, done, index);
      }
      match notify {
        case None =>
          var duplicate := IsDuplicateRequest(op.client, op.request);
          wrongLeader := !duplicate;
        case Some(told) =>
          wrongLeader := told.client != op.client || told.request != op.request;
      }
      dispatcher := dispatcher - {index};
    }

    /** What `Get` replies once its request has been applied; a missing key reads as the empty string. */
    method Read(key: string) returns (value: string, found: bool)
      ensures value == Lookup(State().db, key) && (found <==> key in State().db)
    {
      if key in db {
        return db[key], true;
      }
      return "", false;
    }
  }

  /** A notification tells the truth: the request it names is in the table of its server from then on. */
  lemma {:induction false} NotifiedStaysApplied(kv: Kv, op: Op, later: seq<Op>)
    ensures Duplicate(Replay(Apply(kv, op), later), op) == true
  {
    if later != [] {
      NotifiedStaysApplied(kv, op, later[..|later| - 1]);
    }
  }
}
