/**
 The state of the checker's depth-first search as a stack of levels, one for each
 operation placed so far and one on top for the current position, and the steps of
 the search on it. Nothing here touches the list pointers: only the fixed fields of
 the nodes are used.
 */
module Search {
  import opened Common
  import opened Nodes
  import opened Linearizability

  /** Position of a node in the history, by the times of its operation. */
  function Pos<V>(h: seq<Operation<V>>, n: Node<V>): int
    requires n.id < |h|
  {
    if n.matching != null then h[n.id].call else h[n.id].ret
  }

  ghost predicate OperationAt<V>(nodes: seq<Node<V>>, h: seq<Operation<V>>, id: nat)
    requires id < |h|
  {
    && 0 <= h[id].call < h[id].ret < |nodes|
    && var c, r := nodes[h[id].call], nodes[h[id].ret];
       && c.id == r.id == id && c.value == h[id].input && r.value == h[id].output
       && c.matching == r && r.matching == null
  }

  /** `nodes` are the events of `h`, whose times are their positions in `nodes`. */
  ghost predicate Represents<V>(nodes: seq<Node<V>>, h: seq<Operation<V>>) {
    && (forall id: nat :: id < |h| ==> OperationAt(nodes, h, id))
    && (forall i :: 0 <= i < |nodes| ==> nodes[i].id < |h| && Pos(h, nodes[i]) == i)
  }

  ghost predicate IsNodeOf<V>(nodes: seq<Node<V>>, h: seq<Operation<V>>, n: Node<V>) {
    n.id < |h| && 0 <= Pos(h, n) < |nodes| && nodes[Pos(h, n)] == n
  }

  /** `list` is `nodes` without the calls and the returns of the operations in `done`. */
  ghost predicate Remaining<V>(nodes: seq<Node<V>>, h: seq<Operation<V>>, done: set<nat>, list: seq<Node<V>>) {
    && (forall i :: 0 <= i < |list| ==> IsNodeOf(nodes, h, list[i]) && list[i].id !in done)
    && (forall i, j :: 0 <= i < j < |list| ==> Pos(h, list[i]) < Pos(h, list[j]))
    && (forall i :: 0 <= i < |nodes| && nodes[i].id !in done ==> nodes[i] in list)
  }

  /**
   One level of the search: the operations placed, the model state, the list that is
   left, the index `e` of the node looked at and, once its operation has been placed,
   the index `r` of its return.
   */
  datatype Level<S, V> = Level(done: set<nat>, state: S, list: seq<Node<V>>, e: nat, r: nat)

  /** Placing `id` next does not lead to a completion. */
  ghost predicate Fails<S, V>(m: Model<S, V>, h: seq<Operation<V>>, done: set<nat>, s: S, id: nat)
    requires id < |h|
  {
    !(StepOf(m, h, s, id).0 && Completable(m, h, done + {id}, StepOf(m, h, s, id).1))
  }

  /** Every node before index `e` is a call that fails. */
  ghost predicate Scanned<S, V>(m: Model<S, V>, h: seq<Operation<V>>, l: Level<S, V>) {
    && l.e <= |l.list|
    && (forall j :: 0 <= j < l.e ==>
          && l.list[j].matching != null && l.list[j].id < |h|
          && Fails(m, h, l.done, l.state, l.list[j].id))
  }

  ghost predicate LevelOk<S, V>(m: Model<S, V>, nodes: seq<Node<V>>, h: seq<Operation<V>>, l: Level<S, V>) {
    Remaining(nodes, h, l.done, l.list) && Scanned(m, h, l) && (l.list != [] ==> l.e < |l.list|)
  }

  /** `b` is reached from `a` by placing the call that `a` looks at. */
  ghost predicate Placed<S, V>(m: Model<S, V>, h: seq<Operation<V>>, a: Level<S, V>, b: Level<S, V>) {
    && a.e < a.r < |a.list| && a.list[a.e].matching == a.list[a.r]
    && var id := a.list[a.e].id;
       && id < |h| && id !in a.done && StepOf(m, h, a.state, id).0
       && b.done == a.done + {id} && b.state == StepOf(m, h, a.state, id).1
       && b.list == Without(a.list, a.e, a.r)
  }

  ghost predicate OnStack<S, V>(levels: seq<Level<S, V>>, done: set<nat>, s: S) {
    exists k :: 0 <= k < |levels| && levels[k].done == done && levels[k].state == s
  }

  /** A configuration seen before is still on the stack or cannot be completed. */
  ghost predicate SeenOk<S, V>(m: Model<S, V>, h: seq<Operation<V>>, levels: seq<Level<S, V>>,
                               seen: set<(set<nat>, S)>) {
    forall c :: c in seen ==> OnStack(levels, c.0, c.1) || !Completable(m, h, c.0, c.1)
  }

  // Level `k` is in order.
  ghost predicate LevelAt<S, V>(m: Model<S, V>, nodes: seq<Node<V>>, h: seq<Operation<V>>, levels: seq<Level<S, V>>,
                                k: nat)
    requires k < |levels|
  {
    LevelOk(m, nodes, h, levels[k]) && |levels[k].done| == k
  }

  // Level `k + 1` was reached from level `k`.
  ghost predicate PlacedAt<S, V>(m: Model<S, V>, h: seq<Operation<V>>, levels: seq<Level<S, V>>, k: nat)
    requires k + 1 < |levels|
  {
    Placed(m, h, levels[k], levels[k + 1])
  }

  ghost predicate StackOk<S, V>(m: Model<S, V>, nodes: seq<Node<V>>, h: seq<Operation<V>>, levels: seq<Level<S, V>>) {
    && Represents(nodes, h)
    && levels != [] && levels[0].done == {} && levels[0].state == m.init
    && (forall k: nat :: k < |levels| ==> LevelAt(m, nodes, h, levels, k))
    && (forall k: nat :: k + 1 < |levels| ==> PlacedAt(m, h, levels, k))
  }

  ghost function Top<S, V>(levels: seq<Level<S, V>>): Level<S, V>
    requires levels != []
  {
    levels[|levels| - 1]
  }

  // ----- facts about one level -----

  lemma ReturnAfterCall<V>(nodes: seq<Node<V>>, h: seq<Operation<V>>, done: set<nat>, list: seq<Node<V>>, e: nat)
    returns (r: nat)
    requires Represents(nodes, h) && Remaining(nodes, h, done, list)
    requires e < |list| && list[e].matching != null
    ensures e < r < |list| && list[r] == list[e].matching
    ensures list[r].matching == null && list[r].id == list[e].id < |h|
    ensures list[e].value == h[list[e].id].input && list[r].value == h[list[e].id].output
  {
    var id := list[e].id;
    assert IsNodeOf(nodes, h, list[e]);
    assert OperationAt(nodes, h, id);
    assert nodes[h[id].ret] in list;
    r :| 0 <= r < |list| && list[r] == nodes[h[id].ret];
  }

  /** A call met before any return is ready to be placed. */
  lemma ScannedCallIsReady<S, V>(m: Model<S, V>, nodes: seq<Node<V>>, h: seq<Operation<V>>, l: Level<S, V>)
    requires Represents(nodes, h) && LevelOk(m, nodes, h, l)
    requires l.list != [] && l.list[l.e].matching != null
    ensures Ready(h, l.done, l.list[l.e].id)
  {
    var id := l.list[l.e].id;
    assert IsNodeOf(nodes, h, l.list[l.e]);
    forall k: nat | k < |h| && k !in l.done
      ensures !(h[k].ret < h[id].call)
    {
      assert OperationAt(nodes, h, k);
      assert nodes[h[k].ret] in l.list;
      var j :| 0 <= j < |l.list| && l.list[j] == nodes[h[k].ret];
      assert j > l.e;
    }
  }

  /** When the node looked at is a return, every operation that could be next has failed. */
  lemma ReturnMeansStuck<S, V>(m: Model<S, V>, nodes: seq<Node<V>>, h: seq<Operation<V>>, l: Level<S, V>)
    requires Represents(nodes, h) && LevelOk(m, nodes, h, l)
    requires l.list != [] && l.list[l.e].matching == null
    ensures !Completable(m, h, l.done, l.state)
  {
    var last := l.list[l.e];
    assert IsNodeOf(nodes, h, last);
    assert last.id in Below(|h|) && last.id !in l.done;
    forall id: nat | Ready(h, l.done, id)
      ensures Fails(m, h, l.done, l.state, id)
    {
      assert OperationAt(nodes, h, id);
      assert nodes[h[id].call] in l.list;
      var j :| 0 <= j < |l.list| && l.list[j] == nodes[h[id].call];
      assert OperationAt(nodes, h, last.id);
      assert j < l.e;
    }
  }

  /** Index in `list` of element `j` of `Without(list, e, r)`. */
  function Origin(e: nat, r: nat, j: nat): nat {
    if j < e then j else if j + 1 < r then j + 1 else j + 2
  }

  lemma WithoutAt<T>(list: seq<T>, e: nat, r: nat, j: nat)
    requires e < r < |list| && j < |list| - 2
    ensures Without(list, e, r)[j] == list[Origin(e, r, j)]
  {
  }

  lemma WithoutKeeps<T>(list: seq<T>, e: nat, r: nat, i: nat)
    requires e < r < |list| && i < |list| && i != e && i != r
    ensures list[i] in Without(list, e, r)
  {
    var j := if i < e then i else if i < r then i - 1 else i - 2;
    WithoutAt(list, e, r, j);
  }

  lemma OtherNode<V>(nodes: seq<Node<V>>, h: seq<Operation<V>>, done: set<nat>, list: seq<Node<V>>, e: nat, r: nat,
                     i: nat)
    requires Represents(nodes, h) && Remaining(nodes, h, done, list)
    requires e < r < |list| && list[e].matching == list[r]
    requires i < |list| && i != e && i != r
    ensures list[i].id != list[e].id
  {
    assert IsNodeOf(nodes, h, list[i]) && IsNodeOf(nodes, h, list[e]);
    assert OperationAt(nodes, h, list[e].id);
  }

  lemma RestIsRemaining<V>(nodes: seq<Node<V>>, h: seq<Operation<V>>, done: set<nat>, list: seq<Node<V>>, e: nat,
                           r: nat, i: nat)
    requires Represents(nodes, h) && Remaining(nodes, h, done, list)
    requires e < r < |list| && list[e].matching == list[r]
    requires i < |nodes| && nodes[i].id !in done && nodes[i].id != list[e].id
    ensures nodes[i] in Without(list, e, r)
  {
    assert nodes[i] in list;
    var j :| 0 <= j < |list| && list[j] == nodes[i];
    assert IsNodeOf(nodes, h, list[e]) && OperationAt(nodes, h, list[e].id);
    WithoutKeeps(list, e, r, j);
  }

  lemma RestInOrder<V>(nodes: seq<Node<V>>, h: seq<Operation<V>>, done: set<nat>, list: seq<Node<V>>, e: nat, r: nat,
                       j: nat)
    requires Represents(nodes, h) && Remaining(nodes, h, done, list)
    requires e < r < |list| && list[e].matching == list[r] && j < |list| - 2
    ensures var n := Without(list, e, r)[j];
            && n == list[Origin(e, r, j)] && IsNodeOf(nodes, h, n) && n.id !in done && n.id != list[e].id
  {
    WithoutAt(list, e, r, j);
    OtherNode(nodes, h, done, list, e, r, Origin(e, r, j));
  }

  lemma DropPlaced<V>(nodes: seq<Node<V>>, h: seq<Operation<V>>, done: set<nat>, list: seq<Node<V>>, e: nat, r: nat)
    requires Represents(nodes, h) && Remaining(nodes, h, done, list)
    requires e < r < |list| && list[e].matching == list[r]
    ensures Remaining(nodes, h, done + {list[e].id}, Without(list, e, r)) == true
  {
    var rest := Without(list, e, r);
    forall j | 0 <= j < |rest|
      ensures rest[j] == list[Origin(e, r, j)]
      ensures IsNodeOf(nodes, h, rest[j]) && rest[j].id !in done + {list[e].id}
    {
      RestInOrder(nodes, h, done, list, e, r, j);
    }
    forall i | 0 <= i < |nodes| && nodes[i].id !in done + {list[e].id}
      ensures nodes[i] in rest
    {
      RestIsRemaining(nodes, h, done, list, e, r, i);
    }
  }

  // ----- the steps of the search -----

  /** Places the call looked at, whose return is at index `r`. */
  ghost function Push<S, V>(m: Model<S, V>, h: seq<Operation<V>>, levels: seq<Level<S, V>>, r: nat): seq<Level<S, V>>
    requires levels != []
    requires var t := Top(levels); t.e < r < |t.list| && t.list[t.e].id < |h|
  {
    var t := Top(levels);
    var id := t.list[t.e].id;
    levels[|levels| - 1 := t.(r := r)]
    + [Level(t.done + {id}, StepOf(m, h, t.state, id).1, Without(t.list, t.e, r), 0, 0)]
  }

  /** Looks at the next node. */
  ghost function Skip<S, V>(levels: seq<Level<S, V>>): seq<Level<S, V>>
    requires levels != []
  {
    levels[|levels| - 1 := Top(levels).(e := Top(levels).e + 1)]
  }

  /** Takes back the last call placed and looks at the node after it. */
  ghost function Pop<S, V>(levels: seq<Level<S, V>>): seq<Level<S, V>>
    requires |levels| >= 2
  {
    Skip(levels[..|levels| - 1])
  }

  lemma PushedLevelOk<S, V>(m: Model<S, V>, nodes: seq<Node<V>>, h: seq<Operation<V>>, t: Level<S, V>, u: Level<S, V>)
    requires Represents(nodes, h) && LevelOk(m, nodes, h, t)
    requires Placed(m, h, t, u) && u.e == 0
    ensures LevelOk(m, nodes, h, u) && |u.done| == |t.done| + 1
  {
    DropPlaced(nodes, h, t.done, t.list, t.e, t.r);
  }

  lemma PushKeepsStack<S, V>(m: Model<S, V>, nodes: seq<Node<V>>, h: seq<Operation<V>>, levels: seq<Level<S, V>>,
                             r: nat)
    requires StackOk(m, nodes, h, levels)
    requires var t := Top(levels);
             && t.e < r < |t.list| && t.list[t.e].matching == t.list[r]
             && t.list[t.e].id < |h| && StepOf(m, h, t.state, t.list[t.e].id).0
    ensures StackOk(m, nodes, h, Push(m, h, levels, r)) == true
  {
    var n := |levels|;
    var next := Push(m, h, levels, r);
    assert LevelAt(m, nodes, h, levels, n - 1);
    assert PlacedAt(m, h, next, n - 1);
    PushedLevelOk(m, nodes, h, next[n - 1], next[n]);
    forall k: nat | k < n
      ensures LevelAt(m, nodes, h, next, k)
    {
      assert LevelAt(m, nodes, h, levels, k);
    }
    forall k: nat | k + 1 < n
      ensures PlacedAt(m, h, next, k)
    {
      assert PlacedAt(m, h, levels, k);
    }
  }

  lemma SkippedLevelOk<S, V>(m: Model<S, V>, nodes: seq<Node<V>>, h: seq<Operation<V>>, t: Level<S, V>)
    requires Represents(nodes, h) && LevelOk(m, nodes, h, t)
    requires t.e < |t.list| && t.list[t.e].matching != null && t.list[t.e].id < |h|
    requires Fails(m, h, t.done, t.state, t.list[t.e].id)
    ensures LevelOk(m, nodes, h, t.(e := t.e + 1)) == true
  {
    var r := ReturnAfterCall(nodes, h, t.done, t.list, t.e);
  }

  lemma SkipKeepsStack<S, V>(m: Model<S, V>, nodes: seq<Node<V>>, h: seq<Operation<V>>, levels: seq<Level<S, V>>)
    requires StackOk(m, nodes, h, levels)
    requires var t := Top(levels);
             && t.e < |t.list| && t.list[t.e].matching != null && t.list[t.e].id < |h|
             && Fails(m, h, t.done, t.state, t.list[t.e].id)
    ensures StackOk(m, nodes, h, Skip(levels)) == true
  {
    var n := |levels|;
    var next := Skip(levels);
    assert LevelAt(m, nodes, h, levels, n - 1);
    SkippedLevelOk(m, nodes, h, levels[n - 1]);
    forall k: nat | k < n
      ensures LevelAt(m, nodes, h, next, k)
    {
      assert LevelAt(m, nodes, h, levels, k);
    }
    forall k: nat | k + 1 < n
      ensures PlacedAt(m, h, next, k)
    {
      assert PlacedAt(m, h, levels, k);
    }
  }

  lemma PrefixKeepsStack<S, V>(m: Model<S, V>, nodes: seq<Node<V>>, h: seq<Operation<V>>, levels: seq<Level<S, V>>,
                               n: nat)
    requires StackOk(m, nodes, h, levels) && 1 <= n <= |levels|
    ensures StackOk(m, nodes, h, levels[..n]) == true
  {
    forall k: nat | k < n
      ensures LevelAt(m, nodes, h, levels[..n], k)
    {
      assert LevelAt(m, nodes, h, levels, k);
    }
    forall k: nat | k + 1 < n
      ensures PlacedAt(m, h, levels[..n], k)
    {
      assert PlacedAt(m, h, levels, k);
    }
  }

  /** A level above cannot be completed, so the call that led to it fails. */
  lemma StuckCallFails<S, V>(m: Model<S, V>, nodes: seq<Node<V>>, h: seq<Operation<V>>, levels: seq<Level<S, V>>)
    requires StackOk(m, nodes, h, levels) && |levels| >= 2
    requires !Completable(m, h, Top(levels).done, Top(levels).state)
    ensures var b := levels[|levels| - 2];
            && b.e < |b.list| && b.list[b.e].matching != null && b.list[b.e].id < |h|
            && Fails(m, h, b.done, b.state, b.list[b.e].id)
  {
    assert PlacedAt(m, h, levels, |levels| - 2);
    assert LevelAt(m, nodes, h, levels, |levels| - 2);
  }

  lemma PopKeepsStack<S, V>(m: Model<S, V>, nodes: seq<Node<V>>, h: seq<Operation<V>>, levels: seq<Level<S, V>>)
    requires StackOk(m, nodes, h, levels) && |levels| >= 2
    requires !Completable(m, h, Top(levels).done, Top(levels).state)
    ensures StackOk(m, nodes, h, Pop(levels)) == true
  {
    PrefixKeepsStack(m, nodes, h, levels, |levels| - 1);
    StuckCallFails(m, nodes, h, levels);
    SkipKeepsStack(m, nodes, h, levels[..|levels| - 1]);
  }

  lemma PushKeepsSeen<S, V>(m: Model<S, V>, h: seq<Operation<V>>, levels: seq<Level<S, V>>, r: nat,
                            seen: set<(set<nat>, S)>)
    requires levels != [] && SeenOk(m, h, levels, seen)
    requires var t := Top(levels); t.e < r < |t.list| && t.list[t.e].id < |h|
    ensures var next := Push(m, h, levels, r);
            SeenOk(m, h, next, seen + {(Top(next).done, Top(next).state)})
  {
    var next := Push(m, h, levels, r);
    forall done, s | OnStack(levels, done, s)
      ensures OnStack(next, done, s)
    {
      var k :| 0 <= k < |levels| && levels[k].done == done && levels[k].state == s;
      assert next[k].done == done && next[k].state == s;
    }
    assert next[|levels|] == Top(next);
  }

  lemma SkipKeepsSeen<S, V>(m: Model<S, V>, h: seq<Operation<V>>, levels: seq<Level<S, V>>, seen: set<(set<nat>, S)>)
    requires levels != [] && SeenOk(m, h, levels, seen)
    ensures SeenOk(m, h, Skip(levels), seen)
  {
    forall done, s | OnStack(levels, done, s)
      ensures OnStack(Skip(levels), done, s)
    {
      var k :| 0 <= k < |levels| && levels[k].done == done && levels[k].state == s;
      assert Skip(levels)[k].done == done && Skip(levels)[k].state == s;
    }
  }

  lemma PopKeepsSeen<S, V>(m: Model<S, V>, h: seq<Operation<V>>, levels: seq<Level<S, V>>, seen: set<(set<nat>, S)>)
    requires |levels| >= 2 && SeenOk(m, h, levels, seen)
    requires !Completable(m, h, Top(levels).done, Top(levels).state)
    ensures SeenOk(m, h, Pop(levels), seen)
  {
    var below := levels[..|levels| - 1];
    forall done, s | OnStack(levels, done, s) && Completable(m, h, done, s)
      ensures OnStack(below, done, s)
    {
      var k :| 0 <= k < |levels| && levels[k].done == done && levels[k].state == s;
      assert below[k] == levels[k];
    }
    SkipKeepsSeen(m, h, below, seen);
  }

  /** A configuration equal to one seen before cannot be completed: pruning is safe. */
  lemma SeenBeforeFails<S(!new), V(!new)>(
    m: Model<S, V>, nodes: seq<Node<V>>, h: seq<Operation<V>>, levels: seq<Level<S, V>>,
    seen: set<(set<nat>, S)>, c: (set<nat>, S))
    requires Congruent(m) && StackOk(m, nodes, h, levels) && SeenOk(m, h, levels, seen)
    requires var t := Top(levels);
             && t.e < |t.list| && t.list[t.e].id < |h| && t.list[t.e].id !in t.done
             && c in seen && c.0 == t.done + {t.list[t.e].id}
             && m.equal(StepOf(m, h, t.state, t.list[t.e].id).1, c.1)
    ensures var t := Top(levels); Fails(m, h, t.done, t.state, t.list[t.e].id)
  {
    var t := Top(levels);
    var id := t.list[t.e].id;
    assert LevelAt(m, nodes, h, levels, |levels| - 1);
    assert |c.0| == |levels|;
    forall k: nat | k < |levels|
      ensures levels[k].done != c.0
    {
      assert LevelAt(m, nodes, h, levels, k);
    }
    if Completable(m, h, c.0, StepOf(m, h, t.state, id).1) {
      EqualStatesComplete(m, h, c.0, StepOf(m, h, t.state, id).1, c.1);
    }
  }

  lemma {:induction false} CompletionGoesDown<S, V>(
    m: Model<S, V>, nodes: seq<Node<V>>, h: seq<Operation<V>>, levels: seq<Level<S, V>>, k: nat)
    requires StackOk(m, nodes, h, levels) && k < |levels|
    requires Completable(m, h, levels[k].done, levels[k].state)
    ensures Completable(m, h, {}, m.init)
    decreases k
  {
    if k > 0 {
      var a, b := levels[k - 1], levels[k];
      assert PlacedAt(m, h, levels, k - 1) && LevelAt(m, nodes, h, levels, k - 1);
      ScannedCallIsReady(m, nodes, h, a);
      CompletionGoesDown(m, nodes, h, levels, k - 1);
    }
  }

  /** When nothing is left to place, the history has a completion. */
  lemma EmptyListMeansFound<S, V>(m: Model<S, V>, nodes: seq<Node<V>>, h: seq<Operation<V>>, levels: seq<Level<S, V>>)
    requires StackOk(m, nodes, h, levels) && Top(levels).list == []
    ensures Completable(m, h, {}, m.init)
  {
    var t := Top(levels);
    assert LevelAt(m, nodes, h, levels, |levels| - 1);
    forall id: nat | id < |h|
      ensures id in t.done
    {
      assert OperationAt(nodes, h, id);
    }
    CompletionGoesDown(m, nodes, h, levels, |levels| - 1);
  }

  // ----- configurations -----

  ghost predicate Reaches<S, V>(m: Model<S, V>, h: seq<Operation<V>>, order: seq<nat>, done: set<nat>, s: S) {
    && Distinct(order) && (forall i :: 0 <= i < |order| ==> order[i] < |h|)
    && (forall id: nat :: id in done <==> id in order)
    && Accepts(m, h, m.init, order) && StateAfter(m, h, m.init, order) == s
  }

  /** Some order places exactly `done`, is accepted step by step, and ends in `s`. */
  ghost predicate Reachable<S, V>(m: Model<S, V>, h: seq<Operation<V>>, done: set<nat>, s: S) {
    exists order :: Reaches(m, h, order, done, s)
  }

  lemma {:induction false} ReachesOneMore<S, V>(m: Model<S, V>, h: seq<Operation<V>>, order: seq<nat>, done: set<nat>,
                                                s: S, id: nat)
    requires Reaches(m, h, order, done, s) && id < |h| && id !in done && StepOf(m, h, s, id).0
    ensures Reaches(m, h, order + [id], done + {id}, StepOf(m, h, s, id).1) == true
  {
    AcceptsConcat(m, h, m.init, order, [id]);
    var t, rest := StepOf(m, h, s, id).1, [id][1..];
    assert rest == [];
    assert Accepts(m, h, t, rest) && StateAfter(m, h, t, rest) == t;
  }

  /** Every level of the stack holds a reachable configuration. */
  lemma {:induction false} LevelsReachable<S, V>(m: Model<S, V>, nodes: seq<Node<V>>, h: seq<Operation<V>>,
                                                 levels: seq<Level<S, V>>, k: nat)
    requires StackOk(m, nodes, h, levels) && k < |levels|
    ensures Reachable(m, h, levels[k].done, levels[k].state)
  {
    if k == 0 {
      assert Reaches(m, h, [], {}, m.init);
    } else {
      LevelsReachable(m, nodes, h, levels, k - 1);
      assert PlacedAt(m, h, levels, k - 1);
      var a := levels[k - 1];
      var order :| Reaches(m, h, order, a.done, a.state);
      ReachesOneMore(m, h, order, a.done, a.state, a.list[a.e].id);
    }
  }

  ghost predicate Reflexive<S(!new), V>(m: Model<S, V>) {
    forall s: S :: m.equal(s, s)
  }

  /** The configurations placed so far: reachable ones, and with a reflexive equality none of them twice. */
  ghost predicate PlacedOnce<S(!new), V>(m: Model<S, V>, h: seq<Operation<V>>, placed: seq<(set<nat>, S)>) {
    && (forall i :: 0 <= i < |placed| ==> Reachable(m, h, placed[i].0, placed[i].1))
    && (Reflexive(m) ==> Distinct(placed))
  }

  /** With a reflexive equality there are at most as many placements as reachable configurations. */
  lemma {:induction false} PlacementsBounded<S(!new), V>(
    m: Model<S, V>, h: seq<Operation<V>>, placed: seq<(set<nat>, S)>, all: set<(set<nat>, S)>)
    requires Reflexive(m) && PlacedOnce(m, h, placed)
    requires forall done, s :: Reachable(m, h, done, s) ==> (done, s) in all
    ensures |placed| <= |all|
  {
    forall i | 0 <= i < |placed|
      ensures placed[i] in all
    {
      assert Reachable(m, h, placed[i].0, placed[i].1);
    }
    DistinctBound(placed, all);
  }

  /** One turn of the search sees nothing new, or enters the configuration that it has just placed. */
  ghost predicate SeesOneMore<S(!new), V>(m: Model<S, V>, seen: set<(set<nat>, S)>, next: Level<S, V>,
                                          seen': set<(set<nat>, S)>) {
    || seen' == seen
    || (seen' == seen + {(next.done, next.state)} && (Reflexive(m) ==> (next.done, next.state) !in seen))
  }

  // ----- termination -----

  /** Bound on the steps for a list of `len` nodes of which the last `left` are still to be looked at. */
  ghost function Cost(len: nat, left: nat): nat
    decreases len, left
  {
    if left == 0 then 0
    else 1 + (if len >= 2 then Cost(len - 2, len - 2) else 0) + Cost(len, left - 1)
  }

  /** Steps left on the levels below the top. */
  ghost function CostBelow<S, V>(levels: seq<Level<S, V>>): nat {
    if levels == [] then 0
    else
      var t := Top(levels);
      CostBelow(levels[..|levels| - 1]) + if t.e < |t.list| then Cost(|t.list|, |t.list| - t.e - 1) else 0
  }

  ghost function CostOf<S, V>(levels: seq<Level<S, V>>): nat
    requires levels != []
  {
    var t := Top(levels);
    CostBelow(levels[..|levels| - 1]) + if t.e < |t.list| then Cost(|t.list|, |t.list| - t.e) else 0
  }

  /** Every step of the search lowers the bound, whatever the model's equality is. */
  lemma StepsTerminate<S, V>(m: Model<S, V>, h: seq<Operation<V>>, levels: seq<Level<S, V>>, r: nat)
    requires levels != [] && Top(levels).e < |Top(levels).list|
    ensures CostOf(Skip(levels)) < CostOf(levels)
    ensures |levels| >= 2 && levels[|levels| - 2].e < |levels[|levels| - 2].list| ==>
              CostOf(Pop(levels)) < CostOf(levels)
    ensures Top(levels).e < r < |Top(levels).list| && Top(levels).list[Top(levels).e].id < |h| ==>
              CostOf(Push(m, h, levels, r)) < CostOf(levels)
  {
    var t := Top(levels);
    assert Skip(levels)[..|levels| - 1] == levels[..|levels| - 1];
    if |levels| >= 2 {
      var below := levels[..|levels| - 1];
      assert Pop(levels)[..|levels| - 2] == below[..|levels| - 2];
    }
    if t.e < r < |t.list| && t.list[t.e].id < |h| {
      var next := Push(m, h, levels, r);
      assert next[..|levels|][..|levels| - 1] == levels[..|levels| - 1];
      assert Top(next[..|levels|]) == t.(r := r);
    }
  }
}
