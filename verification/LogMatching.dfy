/**
 The log part of `AppendEntries` and Log Matching: if two logs hold entries of the same term at an index, they are
 equal up to it. Logs are given in full, with the sentinel at index 0; a server keeps `full[snapshotted..]`. A message
 is given by the log it was cut from.
 */
module LogMatching {
  datatype Entry<C> = Entry(command: C, term: int)

  function Terms<C>(logs: seq<Entry<C>>): (t: seq<int>)
    ensures |t| == |logs| && forall i :: 0 <= i < |t| ==> t[i] == logs[i].term
  {
    seq(|logs|, i requires 0 <= i < |logs| => logs[i].term)
  }

  // ----- the handler -----

  /** The log holds entry `i` of the message, by its term. */
  predicate HoldsAt<C>(logs: seq<Entry<C>>, at: nat, entries: seq<Entry<C>>, i: nat)
    requires i < |entries|
  {
    at + i < |logs| && logs[at + i].term == entries[i].term
  }

  /** First entry of the message that the log lacks or holds with another term, or their number. */
  function Mismatch<C>(logs: seq<Entry<C>>, at: nat, entries: seq<Entry<C>>): (u: nat)
    ensures u <= |entries| && (at <= |logs| ==> at + u <= |logs|)
    ensures forall i :: 0 <= i < u ==> HoldsAt(logs, at, entries, i)
    ensures u < |entries| ==> !HoldsAt(logs, at, entries, u)
    decreases |entries|
  {
    if entries == [] || !HoldsAt(logs, at, entries, 0) then 0
    else
      var rest := Mismatch(logs, at + 1, entries[1..]);
      assert forall i :: 1 <= i < rest + 1 ==>
                HoldsAt(logs, at + 1, entries[1..], i - 1) == HoldsAt(logs, at, entries, i);
      assert rest < |entries| - 1 ==> HoldsAt(logs, at + 1, entries[1..], rest) == HoldsAt(logs, at, entries, rest + 1);
      1 + rest
  }

  lemma {:induction false} MismatchIs<C>(logs: seq<Entry<C>>, at: nat, entries: seq<Entry<C>>, u: nat)
    requires u <= |entries| && forall i :: 0 <= i < u ==> HoldsAt(logs, at, entries, i)
    requires u < |entries| ==> !HoldsAt(logs, at, entries, u)
    ensures Mismatch(logs, at, entries) == u
  {
  }

  /** What `AppendEntries` leaves in `logs` when its term is accepted, and whether it reports success. */
  function Handle<C>(snapshotted: nat, logs: seq<Entry<C>>, prev: nat, prevTerm: int,
                     entries: seq<Entry<C>>): (seq<Entry<C>>, bool)
    requires |logs| >= 1
  {
    if prev <= snapshotted then
      (if prev + |entries| > snapshotted then logs[..1] + entries[snapshotted - prev..] else logs, true)
    else if snapshotted + |logs| - 1 < prev || logs[prev - snapshotted].term != prevTerm then (logs, false)
    else
      var at := prev + 1 - snapshotted;
      var u := Mismatch(logs, at, entries);
      (if u < |entries| then logs[..at + u] + entries[u..] else logs, true)
  }

  /** The full log of a server after a message cut from `origin` at `prev`. */
  function Delivered<C>(full: seq<Entry<C>>, snapshotted: nat, origin: seq<Entry<C>>, prev: nat): seq<Entry<C>>
    requires snapshotted < |full| && prev < |origin|
  {
    full[..snapshotted] + Handle(snapshotted, full[snapshotted..], prev, origin[prev].term, origin[prev + 1..]).0
  }

  function Succeeds<C>(full: seq<Entry<C>>, snapshotted: nat, origin: seq<Entry<C>>, prev: nat): bool
    requires snapshotted < |full| && prev < |origin|
  {
    Handle(snapshotted, full[snapshotted..], prev, origin[prev].term, origin[prev + 1..]).1
  }

  // ----- the comparison of votes -----

  /** The log with this last entry is at least as up to date as the voter's (section 5.4.1 of the Raft paper). */
  predicate UpToDate<C>(logs: seq<Entry<C>>, snapshotted: nat, lastIndex: int, lastTerm: int)
    requires logs != []
  {
    var mine := logs[|logs| - 1].term;
    lastTerm > mine || (lastTerm == mine && lastIndex >= snapshotted + |logs| - 1)
  }

  // ----- log matching -----

  ghost predicate MatchAt<C>(a: seq<Entry<C>>, b: seq<Entry<C>>, k: nat)
    requires k < |a| && k < |b|
  {
    a[k].term == b[k].term ==> a[..k + 1] == b[..k + 1]
  }

  ghost predicate Match<C>(a: seq<Entry<C>>, b: seq<Entry<C>>) {
    forall k :: 0 <= k < |a| && k < |b| ==> MatchAt(a, b, k)
  }

  /** Up to the first mismatch the two logs are equal. */
  lemma {:induction false} EqualBeforeMismatch<C>(full: seq<Entry<C>>, snapshotted: nat, origin: seq<Entry<C>>,
                                                  prev: nat)
    requires snapshotted < prev < |origin| && prev < |full| && Match(full, origin)
    requires full[prev].term == origin[prev].term
    ensures var u := Mismatch(full[snapshotted..], prev + 1 - snapshotted, origin[prev + 1..]);
            prev + 1 + u <= |full| && prev + 1 + u <= |origin| && full[..prev + 1 + u] == origin[..prev + 1 + u]
  {
    var logs, entries, at := full[snapshotted..], origin[prev + 1..], prev + 1 - snapshotted;
    var u := Mismatch(logs, at, entries);
    assert MatchAt(full, origin, prev);
    if u > 0 {
      assert HoldsAt(logs, at, entries, u - 1);
      assert full[prev + u].term == origin[prev + u].term;
      assert MatchAt(full, origin, prev + u);
    }
  }

  lemma CutAndJoin<T>(a: seq<T>, s: nat, k: nat, b: seq<T>)
    requires s <= k <= |a|
    ensures a[..s] + (a[s..][..k - s] + b) == a[..k] + b
    ensures a[..s] + a[s..] == a
  {
    assert a[..s] + a[s..][..k - s] == a[..k];
    assert a[..s] + (a[s..][..k - s] + b) == (a[..s] + a[s..][..k - s]) + b;
  }

  lemma DropDrop<T>(a: seq<T>, i: nat, j: nat)
    requires i + j <= |a|
    ensures a[i..][j..] == a[i + j..]
  {
  }

  lemma {:induction false} DeliveredShape<C>(full: seq<Entry<C>>, snapshotted: nat, origin: seq<Entry<C>>, prev: nat,
                                             u: nat)
    requires snapshotted < prev < |origin| && prev < |full| && full[prev].term == origin[prev].term
    requires u == Mismatch(full[snapshotted..], prev + 1 - snapshotted, origin[prev + 1..])
    ensures prev + 1 + u <= |full| && prev + 1 + u <= |origin|
    ensures Delivered(full, snapshotted, origin, prev) ==
            if prev + 1 + u < |origin| then full[..prev + 1 + u] + origin[prev + 1 + u..] else full
  {
    DropDrop(origin, prev + 1, u);
    CutAndJoin(full, snapshotted, prev + 1 + u, origin[prev + 1 + u..]);
  }

  lemma JoinEqual<T>(a: seq<T>, b: seq<T>, k: nat, next: seq<T>)
    requires k <= |a| && k <= |b| && a[..k] == b[..k] && next == if k < |b| then a[..k] + b[k..] else a
    ensures k < |b| ==> next == b
    ensures k == |b| ==> next == a
    ensures |b| <= |next| && next[..|b|] == b
  {
    assert b == b[..k] + b[k..];
  }

  lemma {:induction false} Accepted<C>(full: seq<Entry<C>>, snapshotted: nat, origin: seq<Entry<C>>, prev: nat)
    requires snapshotted < prev < |origin| && prev < |full|
    requires Match(full, origin) && full[prev].term == origin[prev].term
    ensures var next := Delivered(full, snapshotted, origin, prev);
            (next == full || next == origin) && |origin| <= |next| && next[..|origin|] == origin
  {
    var u := Mismatch(full[snapshotted..], prev + 1 - snapshotted, origin[prev + 1..]);
    EqualBeforeMismatch(full, snapshotted, origin, prev);
    DeliveredShape(full, snapshotted, origin, prev, u);
    JoinEqual(full, origin, prev + 1 + u, Delivered(full, snapshotted, origin, prev));
  }

  /** In the normal branch the log stays as it is or becomes the leader's; after success it begins with the leader's. */
  lemma {:induction false} NormalDelivery<C>(full: seq<Entry<C>>, snapshotted: nat, origin: seq<Entry<C>>, prev: nat)
    requires snapshotted < prev < |origin| && snapshotted < |full| && Match(full, origin)
    ensures var next := Delivered(full, snapshotted, origin, prev); next == full || next == origin
    ensures Succeeds(full, snapshotted, origin, prev) <==> prev < |full| && full[prev].term == origin[prev].term
    ensures Succeeds(full, snapshotted, origin, prev) ==> origin <= Delivered(full, snapshotted, origin, prev)
  {
    if prev < |full| && full[prev].term == origin[prev].term {
      Accepted(full, snapshotted, origin, prev);
    } else {
      assert full[..snapshotted] + full[snapshotted..] == full;
    }
  }

  /** A normal delivery of entries that are all there already leaves the log alone: it never shortens a matching log. */
  lemma {:induction false} MatchingIsKept<C>(full: seq<Entry<C>>, snapshotted: nat, origin: seq<Entry<C>>, prev: nat)
    requires snapshotted < prev < |origin| && snapshotted < |full| && origin <= full
    ensures Delivered(full, snapshotted, origin, prev) == full
  {
    var logs, entries, at := full[snapshotted..], origin[prev + 1..], prev + 1 - snapshotted;
    assert forall i :: 0 <= i < |entries| ==> entries[i] == full[prev + 1 + i] && HoldsAt(logs, at, entries, i);
    assert full[..snapshotted] + full[snapshotted..] == full;
  }

  /** At the snapshot boundary the log behind the guard is replaced without looking at it. */
  lemma {:induction false} BoundaryDelivery<C>(full: seq<Entry<C>>, snapshotted: nat, origin: seq<Entry<C>>, prev: nat)
    requires prev <= snapshotted < |full| && prev < |origin|
    ensures Delivered(full, snapshotted, origin, prev) ==
            if |origin| - 1 > snapshotted then full[..snapshotted + 1] + origin[snapshotted + 1..] else full
  {
    var logs, entries := full[snapshotted..], origin[prev + 1..];
    assert full[..snapshotted] + logs[..1] == full[..snapshotted + 1];
    if |origin| - 1 > snapshotted {
      assert entries[snapshotted - prev..] == origin[snapshotted + 1..];
    }
    assert full[..snapshotted] + logs == full;
  }

  /** The message and the guard agree on the entry at the snapshotted index. The code does not check this. */
  ghost predicate BoundaryAgrees<C>(full: seq<Entry<C>>, snapshotted: nat, origin: seq<Entry<C>>)
    requires snapshotted < |full|
  {
    |origin| - 1 > snapshotted ==> full[snapshotted].term == origin[snapshotted].term
  }

  /** The boundary branch keeps Log Matching with the sender exactly when message and guard agree. */
  lemma {:induction false} BoundaryMatchesIff<C>(full: seq<Entry<C>>, snapshotted: nat, origin: seq<Entry<C>>,
                                                 prev: nat)
    requires prev <= snapshotted < |full| && prev < |origin| && Match(full, origin)
    ensures Match(Delivered(full, snapshotted, origin, prev), origin) <==> BoundaryAgrees(full, snapshotted, origin)
    ensures BoundaryAgrees(full, snapshotted, origin) ==>
              var next := Delivered(full, snapshotted, origin, prev); next == full || next == origin
  {
    BoundaryDelivery(full, snapshotted, origin, prev);
    var next, s := Delivered(full, snapshotted, origin, prev), snapshotted;
    if |origin| - 1 > s {
      if full[s].term == origin[s].term {
        assert MatchAt(full, origin, s);
        assert full[..s + 1] == origin[..s + 1];
        assert origin == origin[..s + 1] + origin[s + 1..];
      } else {
        assert next[s + 1].term == origin[s + 1].term;
        assert next[..s + 2][s] == full[s] && origin[..s + 2][s] == origin[s];
        assert !MatchAt(next, origin, s + 1);
      }
    }
  }

  /** A stale message at the boundary shortens the log exactly when it ends inside it. */
  lemma {:induction false} BoundaryShortensIff<C>(full: seq<Entry<C>>, snapshotted: nat, origin: seq<Entry<C>>,
                                                  prev: nat)
    requires prev <= snapshotted < |full| && prev < |origin|
    ensures |Delivered(full, snapshotted, origin, prev)| < |full| <==> snapshotted < |origin| - 1 < |full| - 1
  {
    BoundaryDelivery(full, snapshotted, origin, prev);
  }

  /** If the branch is normal or message and guard agree, the log stays as it is or becomes the sender's. */
  lemma {:induction false} DeliveredIsOneOfThem<C>(full: seq<Entry<C>>, snapshotted: nat, origin: seq<Entry<C>>,
                                                   prev: nat)
    requires snapshotted < |full| && prev < |origin| && Match(full, origin)
    requires prev <= snapshotted ==> BoundaryAgrees(full, snapshotted, origin)
    ensures var next := Delivered(full, snapshotted, origin, prev); next == full || next == origin
  {
    if prev <= snapshotted {
      BoundaryMatchesIff(full, snapshotted, origin, prev);
    } else {
      NormalDelivery(full, snapshotted, origin, prev);
    }
  }
}
