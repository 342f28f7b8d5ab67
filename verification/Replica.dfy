/**
 One server over the agreed log: the goroutines that deliver committed entries (raft.go), the apply loop and
 the snapshots of the key/value server, crashes and restarts, as a system of atomic steps.

 Committed entries never change; `agreed` is the log they are taken from (entry `k >= 1` is `agreed[k - 1]`).
 Entries beyond the commit index may be rewritten at will. `InstallSnapshot` messages are not part of the model.
 */
module Replica {
  import opened KvState

  /** A goroutine started by `setCommitIndex`. It is about to send `entries[next]`, or has just sent it. */
  datatype Applier = Applier(start: nat, entries: seq<Op>, next: nat, sent: bool)

  /** What the apply loop has received and not yet applied. */
  datatype Slot = Idle | Busy(index: nat, op: Op)

  /** A snapshot taken by the key/value server with the log index it is labelled with. */
  datatype Snapshot = Snapshot(kv: Kv, index: nat)

  /**
   `logs[0]` is the guard entry at `snapshotted`. `disk` is the snapshot on stable storage. `base` is the index
   the server started from, `received` the indices the key/value server has received since then, `delivered` and
   `processed` the highest index received and applied, `told` the requests whose handlers were notified.
   */
  datatype Replica = Replica(
    logs: seq<Op>, snapshotted: nat, commit: nat, lastApplied: nat, appliers: seq<Applier>,
    slot: Slot, kv: Kv, appliedIndex: nat, pending: seq<Snapshot>, disk: Kv,
    base: nat, delivered: nat, processed: nat, received: seq<nat>, told: set<(int, int)>)

  // ----- steps -----

  /** State after a crash: the log and the snapshot are read back from stable storage. */
  function Restarted(r: Replica): Replica {
    r.(commit := r.snapshotted, lastApplied := r.snapshotted, appliers := [], slot := Idle, kv := r.disk,
       appliedIndex := 0, pending := [], base := r.snapshotted, delivered := r.snapshotted,
       processed := r.snapshotted, received := [], told := {})
  }

  /** A server starts with a log that holds only the sentinel. */
  ghost predicate Initial(r: Replica) {
    && |r.logs| == 1 && r.snapshotted == 0 && r.disk == EMPTY
    && r == Restarted(r)
  }

  /** Highest index of the log. */
  function LastIndex(r: Replica): int {
    r.snapshotted + |r.logs| - 1
  }

  /** The log of the replica agrees with the agreed log up to index `c`, the guard included. */
  ghost predicate Agrees(agreed: seq<Op>, r: Replica, c: nat) {
    && r.snapshotted <= c <= LastIndex(r) && c <= |agreed|
    && forall i :: 0 <= i <= c - r.snapshotted && r.snapshotted + i >= 1 ==> r.logs[i] == agreed[r.snapshotted + i - 1]
  }

  /** Where `setCommitIndex` cuts its slice of the log; a negative bound would be a run-time panic. */
  function SliceStart(r: Replica): int {
    r.lastApplied + 1 - r.snapshotted
  }

  ghost predicate CanCommit(agreed: seq<Op>, r: Replica, c: nat) {
    r.commit <= c && Agrees(agreed, r, c)
  }

  function Committed(r: Replica, c: nat): Replica
    requires c > r.lastApplied ==> 0 <= SliceStart(r) && c <= LastIndex(r)
  {
    if c > r.lastApplied then
      r.(commit := c,
         appliers := r.appliers + [Applier(r.lastApplied + 1, r.logs[SliceStart(r)..c + 1 - r.snapshotted], 0, false)])
    else r.(commit := c)
  }

  /** Entries beyond the commit index are replaced. */
  ghost predicate CanRewrite(r: Replica, logs: seq<Op>) {
    && r.snapshotted <= r.commit <= LastIndex(r) && |logs| > r.commit - r.snapshotted
    && logs[..r.commit - r.snapshotted + 1] == r.logs[..r.commit - r.snapshotted + 1]
  }

  ghost predicate CanDeliver(r: Replica, a: nat) {
    r.slot.Idle? && a < |r.appliers| && !r.appliers[a].sent && r.appliers[a].next < |r.appliers[a].entries|
  }

  function IndexOfNext(r: Replica, a: nat): nat
    requires a < |r.appliers|
  {
    r.appliers[a].start + r.appliers[a].next
  }

  function Max(a: nat, b: nat): nat {
    if a < b then b else a
  }

  /** The unbuffered channel hands the message over: the apply loop has it. */
  function Delivered(r: Replica, a: nat): Replica
    requires a < |r.appliers| && r.appliers[a].next < |r.appliers[a].entries|
  {
    var x := r.appliers[a];
    var k := IndexOfNext(r, a);
    r.(appliers := r.appliers[a := x.(sent := true)], slot := Busy(k, x.entries[x.next]),
       delivered := Max(r.delivered, k), received := r.received + [k])
  }

  ghost predicate CanRaise(r: Replica, a: nat) {
    a < |r.appliers| && r.appliers[a].sent
  }

  /** After the send, the goroutine takes the lock and moves `lastApplied`. */
  function Raised(r: Replica, a: nat): Replica
    requires a < |r.appliers|
  {
    var x := r.appliers[a];
    r.(lastApplied := Max(r.lastApplied, IndexOfNext(r, a)),
       appliers := r.appliers[a := x.(next := x.next + 1, sent := false)])
  }

  /** The apply loop applies what it holds. */
  function Processed(r: Replica): Replica
    requires r.slot.Busy?
  {
    var next := r.(slot := Idle, processed := Max(r.processed, r.slot.index));
    if Duplicate(r.kv, r.slot.op) then next
    else next.(kv := Apply(r.kv, r.slot.op), appliedIndex := r.slot.index,
               told := r.told + {(r.slot.op.client, r.slot.op.request)})
  }

  /** First half of `takeSnapshot`: state and label are read together. */
  function Captured(r: Replica): Replica {
    r.(pending := r.pending + [Snapshot(r.kv, r.appliedIndex)])
  }

  /** Second half, `ReplaceLogWithSnapshot`: possibly much later, and not in the order of the captures. */
  function Installed(r: Replica, s: Snapshot): Replica
    requires r.snapshotted < s.index ==> s.index <= LastIndex(r) + 1
  {
    if s.index <= r.snapshotted then r
    else r.(logs := r.logs[s.index - r.snapshotted..], snapshotted := s.index, disk := s.kv)
  }

  /** The log starts at the later of the two indices and ends where it ended; what stays keeps its index. */
  lemma InstalledCuts(r: Replica, s: Snapshot)
    requires r.snapshotted < s.index ==> s.index <= LastIndex(r) + 1
    ensures var t := Installed(r, s);
            && t.snapshotted == Max(r.snapshotted, s.index) && LastIndex(t) == LastIndex(r)
            && forall i :: 0 <= i < |t.logs| ==> t.logs[i] == r.logs[i + t.snapshotted - r.snapshotted]
  {
  }

  datatype Step = Commit(c: nat) | Rewrite(logs: seq<Op>) | Deliver(a: nat) | Raise(a: nat) | Process
                | Capture | Install(p: nat) | Crash

  /**
   The bounds in `Commit` and `Install` are those of the source's slices; `NeverPanics` shows that they are always
   met.
   */
  ghost predicate Next(agreed: seq<Op>, r: Replica, step: Step, s: Replica) {
    match step
    case Commit(c) => CanCommit(agreed, r, c) && (c > r.lastApplied ==> 0 <= SliceStart(r)) && s == Committed(r, c)
    case Rewrite(logs) => CanRewrite(r, logs) && s == r.(logs := logs)
    case Deliver(a) => CanDeliver(r, a) && s == Delivered(r, a)
    case Raise(a) => CanRaise(r, a) && s == Raised(r, a)
    case Process => r.slot.Busy? && s == Processed(r)
    case Capture => s == Captured(r)
    case Install(p) =>
      && p < |r.pending| && (r.snapshotted < r.pending[p].index ==> r.pending[p].index <= LastIndex(r) + 1)
      && s == Installed(r, r.pending[p])
    case Crash => s == Restarted(r)
  }

  // ----- deliveries -----

  function Highest(base: nat, s: seq<nat>): (r: nat)
    ensures r >= base
  {
    if s == [] then base else Max(Highest(base, s[..|s| - 1]), s[|s| - 1])
  }

  ghost predicate GapFree(base: nat, s: seq<nat>) {
    forall i :: 0 <= i < |s| ==> s[i] <= Highest(base, s[..i]) + 1
  }

  /** What is delivered for the first time comes in index order and without gaps. */
  ghost predicate NoGaps(r: Replica) {
    && r.delivered == Highest(r.base, r.received)
    && GapFree(r.base, r.received)
  }

  lemma {:induction false} GapFreeFront(base: nat, s: seq<nat>)
    requires GapFree(base, s) && s != []
    ensures GapFree(base, s[..|s| - 1]) && s[|s| - 1] <= Highest(base, s[..|s| - 1]) + 1
  {
    var front := s[..|s| - 1];
    forall i | 0 <= i < |front|
      ensures front[i] <= Highest(base, front[..i]) + 1
    {
      assert front[..i] == s[..i];
    }
  }

  // ----- the invariant -----

  ghost predicate ApplierOk(agreed: seq<Op>, x: Applier, commit: nat, lastApplied: nat, delivered: nat) {
    && x.start >= 1 && x.next <= |x.entries| && x.start + |x.entries| - 1 <= commit <= |agreed|
    && (forall i :: 0 <= i < |x.entries| ==> x.entries[i] == agreed[x.start + i - 1])
    && x.start + x.next <= lastApplied + 1
    && (x.sent ==> x.next < |x.entries| && x.start + x.next <= delivered)
  }

  ghost predicate AppliersOk(agreed: seq<Op>, appliers: seq<Applier>, commit: nat, lastApplied: nat, delivered: nat) {
    forall a :: 0 <= a < |appliers| ==> ApplierOk(agreed, appliers[a], commit, lastApplied, delivered)
  }

  /** Appliers stay good as the indices grow, and when one of them is replaced by a good one. */
  lemma AppliersStay(agreed: seq<Op>, appliers: seq<Applier>, commit: nat, lastApplied: nat, delivered: nat,
                     c: nat, l: nat, d: nat, a: nat, x: Applier)
    requires AppliersOk(agreed, appliers, commit, lastApplied, delivered)
    requires commit <= c <= |agreed| && lastApplied <= l && delivered <= d
    requires a < |appliers| ==> ApplierOk(agreed, x, c, l, d)
    ensures AppliersOk(agreed, appliers, c, l, d)
    ensures a < |appliers| ==> AppliersOk(agreed, appliers[a := x], c, l, d)
  {
    forall b | 0 <= b < |appliers|
      ensures ApplierOk(agreed, appliers[b], c, l, d)
    {
      assert ApplierOk(agreed, appliers[b], commit, lastApplied, delivered);
    }
  }

  /** `kv` is the state after the first `index` entries; index 0 labels a state that was restored and not moved on. */
  ghost predicate Labelled(agreed: seq<Op>, kv: Kv, index: nat, limit: nat) {
    index <= limit <= |agreed| && (index == 0 || kv == Run(agreed[..index]))
  }

  ghost predicate SlotOk(agreed: seq<Op>, r: Replica) {
    match r.slot
    case Idle => r.delivered == r.processed
    case Busy(k, op) =>
      1 <= k <= r.processed + 1 && r.delivered == Max(r.processed, k) && k <= |agreed| && op == agreed[k - 1]
  }

  /** Indices ordered as the source relies on. `lastApplied` trails the highest delivered index by at most one. */
  ghost predicate IndicesOk(agreed: seq<Op>, r: Replica) {
    && r.snapshotted <= r.processed <= r.delivered <= r.commit <= |agreed|
    && r.lastApplied <= r.delivered <= r.lastApplied + 1
  }

  /** Delivery: the appliers carry slices of the agreed log and the key/value server has received it without gaps. */
  ghost predicate DeliveryOk(agreed: seq<Op>, r: Replica) {
    && IndicesOk(agreed, r)
    && Agrees(agreed, r, r.commit)
    && AppliersOk(agreed, r.appliers, r.commit, r.lastApplied, r.delivered)
    && SlotOk(agreed, r)
    && NoGaps(r)
  }

  /** State: the database and every snapshot are those of one in-order pass over a prefix of the agreed log. */
  ghost predicate StateOk(agreed: seq<Op>, r: Replica) {
    && r.snapshotted <= r.processed <= |agreed|
    && r.kv == Run(agreed[..r.processed])
    && Labelled(agreed, r.kv, r.appliedIndex, r.processed)
    && (forall p :: 0 <= p < |r.pending| ==> Labelled(agreed, r.pending[p].kv, r.pending[p].index, r.processed))
    && r.disk == Run(agreed[..r.snapshotted])
    && (forall t :: t in r.told ==> t.0 in r.kv.applied && t.1 <= r.kv.applied[t.0])
  }

  ghost predicate Inv(agreed: seq<Op>, r: Replica) {
    DeliveryOk(agreed, r) && StateOk(agreed, r)
  }

  // ----- first deliveries and snapshots -----

  /** Of the received indices, those above everything received before them. */
  function Firsts(base: nat, s: seq<nat>): seq<nat> {
    if s == [] then []
    else
      var front, last := s[..|s| - 1], s[|s| - 1];
      if last > Highest(base, front) then Firsts(base, front) + [last] else Firsts(base, front)
  }

  /** First deliveries are the log from the starting index on, in index order, each entry once. */
  lemma {:induction false} FirstDeliveriesAreTheLog(base: nat, s: seq<nat>)
    requires GapFree(base, s)
    ensures Highest(base, s) == base + |Firsts(base, s)|
    ensures forall i :: 0 <= i < |Firsts(base, s)| ==> Firsts(base, s)[i] == base + 1 + i
  {
    if s != [] {
      GapFreeFront(base, s);
      FirstDeliveriesAreTheLog(base, s[..|s| - 1]);
    }
  }

  /**
   Snapshot equivalence: what a snapshot is labelled with is what it holds, and restoring and replaying loses
   nothing.
   */
  lemma SnapshotsAreExact(agreed: seq<Op>, r: Replica)
    requires StateOk(agreed, r)
    ensures forall p :: 0 <= p < |r.pending| && r.snapshotted < r.pending[p].index ==>
              r.pending[p].index <= |agreed| && r.pending[p].kv == Run(agreed[..r.pending[p].index])
    ensures Replay(Restarted(r).kv, agreed[Restarted(r).processed..]) == Run(agreed)
  {
    forall p | 0 <= p < |r.pending| && r.snapshotted < r.pending[p].index
      ensures r.pending[p].index <= |agreed| && r.pending[p].kv == Run(agreed[..r.pending[p].index])
    {
      assert Labelled(agreed, r.pending[p].kv, r.pending[p].index, r.processed);
    }
    ReplayConcat(EMPTY, agreed[..r.snapshotted], agreed[r.snapshotted..]);
    assert agreed[..r.snapshotted] + agreed[r.snapshotted..] == agreed;
  }

  // ----- every step keeps the invariant -----

  lemma InitialOk(r: Replica)
    requires Initial(r)
    ensures Inv([], r)
  {
    var none: seq<Op> := [];
    assert none[..0] == none;
  }

  /** The slices of `setCommitIndex` and `ReplaceLogWithSnapshot` never have a negative or too large bound. */
  lemma NeverPanics(agreed: seq<Op>, r: Replica)
    requires Inv(agreed, r)
    ensures 0 <= SliceStart(r)
    ensures forall c: nat :: CanCommit(agreed, r, c) && c > r.lastApplied ==>
              SliceStart(r) <= c + 1 - r.snapshotted <= |r.logs|
    ensures forall p :: 0 <= p < |r.pending| && r.snapshotted < r.pending[p].index ==>
              r.pending[p].index <= LastIndex(r)
  {
    forall p | 0 <= p < |r.pending| && r.snapshotted < r.pending[p].index
      ensures r.pending[p].index <= LastIndex(r)
    {
      assert Labelled(agreed, r.pending[p].kv, r.pending[p].index, r.processed);
    }
  }

  lemma PrefixOf(agreed: seq<Op>, more: seq<Op>, i: nat)
    requires i <= |agreed|
    ensures (agreed + more)[..i] == agreed[..i]
  {
  }

  lemma AgreedGrows(agreed: seq<Op>, more: seq<Op>, r: Replica)
    requires Inv(agreed, r)
    ensures DeliveryOk(agreed + more, r) == true
    ensures StateOk(agreed + more, r) == true
  {
    forall a | 0 <= a < |r.appliers|
      ensures ApplierOk(agreed + more, r.appliers[a], r.commit, r.lastApplied, r.delivered)
    {
      assert ApplierOk(agreed, r.appliers[a], r.commit, r.lastApplied, r.delivered);
    }
    forall p | 0 <= p < |r.pending|
      ensures Labelled(agreed + more, r.pending[p].kv, r.pending[p].index, r.processed)
    {
      assert Labelled(agreed, r.pending[p].kv, r.pending[p].index, r.processed);
      PrefixOf(agreed, more, r.pending[p].index);
    }
    PrefixOf(agreed, more, r.appliedIndex);
    PrefixOf(agreed, more, r.processed);
    PrefixOf(agreed, more, r.snapshotted);
  }

  lemma CommitOk(agreed: seq<Op>, r: Replica, c: nat)
    requires DeliveryOk(agreed, r) && CanCommit(agreed, r, c) && 0 <= SliceStart(r)
    ensures DeliveryOk(agreed, Committed(r, c)) == true
  {
    var s := Committed(r, c);
    AppliersStay(agreed, r.appliers, r.commit, r.lastApplied, r.delivered, c, r.lastApplied, r.delivered, |r.appliers|,
                 Applier(0, [], 0, false));
    if c > r.lastApplied {
      assert ApplierOk(agreed, s.appliers[|r.appliers|], c, r.lastApplied, r.delivered);
    }
  }

  lemma RewriteOk(agreed: seq<Op>, r: Replica, logs: seq<Op>)
    requires DeliveryOk(agreed, r) && CanRewrite(r, logs)
    ensures DeliveryOk(agreed, r.(logs := logs)) == true
  {
    forall i | 0 <= i <= r.commit - r.snapshotted
      ensures logs[i] == r.logs[i]
    {
      assert logs[i] == logs[..r.commit - r.snapshotted + 1][i];
    }
  }

  lemma NoGapsOneMore(base: nat, s: seq<nat>, k: nat)
    requires GapFree(base, s) && k <= Highest(base, s) + 1
    ensures GapFree(base, s + [k])
    ensures Highest(base, s + [k]) == Max(Highest(base, s), k)
  {
    var t := s + [k];
    assert t[..|s|] == s;
    forall i | 0 <= i < |t|
      ensures t[i] <= Highest(base, t[..i]) + 1
    {
      assert i < |s| ==> t[..i] == s[..i];
    }
  }

  lemma DeliverOk(agreed: seq<Op>, r: Replica, a: nat)
    requires DeliveryOk(agreed, r) && CanDeliver(r, a)
    ensures DeliveryOk(agreed, Delivered(r, a)) == true
  {
    var x := r.appliers[a];
    var k := IndexOfNext(r, a);
    assert ApplierOk(agreed, x, r.commit, r.lastApplied, r.delivered);
    NoGapsOneMore(r.base, r.received, k);
    var s := Delivered(r, a);
    AppliersStay(agreed, r.appliers, r.commit, r.lastApplied, r.delivered,
                 s.commit, s.lastApplied, s.delivered, a, x.(sent := true));
    assert IndicesOk(agreed, s) && SlotOk(agreed, s) && NoGaps(s);
    assert Agrees(agreed, s, s.commit) == Agrees(agreed, r, r.commit);
  }

  lemma RaiseOk(agreed: seq<Op>, r: Replica, a: nat)
    requires DeliveryOk(agreed, r) && CanRaise(r, a)
    ensures DeliveryOk(agreed, Raised(r, a)) == true
  {
    var x := r.appliers[a];
    assert ApplierOk(agreed, x, r.commit, r.lastApplied, r.delivered);
    AppliersStay(agreed, r.appliers, r.commit, r.lastApplied, r.delivered,
                 r.commit, Max(r.lastApplied, IndexOfNext(r, a)), r.delivered, a,
                 x.(next := x.next + 1, sent := false));
  }

  lemma ProcessDelivery(agreed: seq<Op>, r: Replica)
    requires DeliveryOk(agreed, r) && r.slot.Busy?
    ensures DeliveryOk(agreed, Processed(r)) == true
  {
  }

  /** A redelivered entry changes nothing; a first delivery moves the state on by one entry. */
  lemma ApplyNext(agreed: seq<Op>, processed: nat, k: nat)
    requires processed <= |agreed| && 1 <= k <= processed + 1 && k <= |agreed|
    ensures Run(agreed[..Max(processed, k)]) == Apply(Run(agreed[..processed]), agreed[k - 1])
    ensures k <= processed ==> Duplicate(Run(agreed[..processed]), agreed[k - 1])
  {
    if k <= processed {
      var prefix := agreed[..processed];
      assert prefix[k - 1] == agreed[k - 1];
      AppliedAgain(prefix, k - 1);
      AppliedIsHighest(prefix, agreed[k - 1].client);
    } else {
      RunStep(agreed, processed);
    }
  }

  /** The commands that arrive when these indices are received. */
  function Commands(agreed: seq<Op>, received: seq<nat>): (ops: seq<Op>)
    requires forall i :: 0 <= i < |received| ==> 1 <= received[i] <= |agreed|
    ensures |ops| == |received|
  {
    seq(|received|, i requires 0 <= i < |received| => agreed[received[i] - 1])
  }

  lemma {:induction false} CommandsFront(agreed: seq<Op>, received: seq<nat>)
    requires received != [] && forall i :: 0 <= i < |received| ==> 1 <= received[i] <= |agreed|
    ensures var n := |received| - 1;
            && Commands(agreed, received)[..n] == Commands(agreed, received[..n])
            && Commands(agreed, received)[n] == agreed[received[n] - 1]
  {
  }

  /**
   Overlapping appliers are harmless: whatever is received twice or late, applying everything in the order
   received gives the state of one in-order pass over the log.
   */
  lemma {:induction false} ReceivedLikeOnePass(agreed: seq<Op>, base: nat, received: seq<nat>)
    requires base <= |agreed| && forall i :: 0 <= i < |received| ==> 1 <= received[i] <= |agreed|
    requires GapFree(base, received)
    ensures Highest(base, received) <= |agreed|
    ensures Replay(Run(agreed[..base]), Commands(agreed, received)) == Run(agreed[..Highest(base, received)])
  {
    if received != [] {
      var n := |received| - 1;
      GapFreeFront(base, received);
      ReceivedLikeOnePass(agreed, base, received[..n]);
      ApplyNext(agreed, Highest(base, received[..n]), received[n]);
      CommandsFront(agreed, received);
    }
  }

  lemma ProcessState(agreed: seq<Op>, r: Replica)
    requires StateOk(agreed, r) && SlotOk(agreed, r) && r.slot.Busy?
    ensures StateOk(agreed, Processed(r)) == true
  {
    var s := Processed(r);
    ApplyNext(agreed, r.processed, r.slot.index);
    forall p | 0 <= p < |s.pending|
      ensures Labelled(agreed, s.pending[p].kv, s.pending[p].index, s.processed)
    {
      assert Labelled(agreed, r.pending[p].kv, r.pending[p].index, r.processed);
    }
  }

  lemma InstallOk(agreed: seq<Op>, r: Replica, p: nat)
    requires Inv(agreed, r) && p < |r.pending|
    requires r.snapshotted < r.pending[p].index ==> r.pending[p].index <= LastIndex(r) + 1
    ensures DeliveryOk(agreed, Installed(r, r.pending[p])) == true
    ensures StateOk(agreed, Installed(r, r.pending[p])) == true
  {
    assert Labelled(agreed, r.pending[p].kv, r.pending[p].index, r.processed);
  }

  lemma CaptureOk(agreed: seq<Op>, r: Replica)
    requires Inv(agreed, r)
    ensures DeliveryOk(agreed, Captured(r)) == true
    ensures StateOk(agreed, Captured(r)) == true
  {
  }

  lemma CrashOk(agreed: seq<Op>, r: Replica)
    requires Inv(agreed, r)
    ensures DeliveryOk(agreed, Restarted(r)) == true
    ensures StateOk(agreed, Restarted(r)) == true
  {
  }

  /** Steps of the Raft side leave the key/value server alone. */
  lemma SameState(agreed: seq<Op>, r: Replica, s: Replica)
    requires StateOk(agreed, r)
    requires s.snapshotted == r.snapshotted && s.processed == r.processed && s.kv == r.kv
    requires s.appliedIndex == r.appliedIndex
    requires s.pending == r.pending && s.disk == r.disk && s.told == r.told
    ensures StateOk(agreed, s) == true
  {
  }

  /** Every step of a server keeps the invariant. */
  lemma StepOk(agreed: seq<Op>, r: Replica, step: Step, s: Replica)
    requires DeliveryOk(agreed, r) == true && StateOk(agreed, r) == true && Next(agreed, r, step, s)
    ensures DeliveryOk(agreed, s) == true && StateOk(agreed, s) == true
  {
    match step
    case Commit(c) => NeverPanics(agreed, r); CommitOk(agreed, r, c); SameState(agreed, r, s);
    case Rewrite(logs) => RewriteOk(agreed, r, logs); SameState(agreed, r, s);
    case Deliver(a) => DeliverOk(agreed, r, a); SameState(agreed, r, s);
    case Raise(a) => RaiseOk(agreed, r, a); SameState(agreed, r, s);
    case Process => ProcessDelivery(agreed, r); ProcessState(agreed, r);
    case Capture => CaptureOk(agreed, r);
    case Install(p) => InstallOk(agreed, r, p);
    case Crash => CrashOk(agreed, r);
  }
}
