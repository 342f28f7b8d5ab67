/**
 `checkSingle`: the backtracking search over the linked list of events, with its
 cache of configurations.
 */
module Checker {
  import opened Common
  import opened Nodes
  import opened Linearizability
  import opened Search
  import opened Cache
  import Bitset

  datatype CallsEntry<S, V> = CallsEntry(entry: Node<V>, state: S)

  // ----- the list -----

  ghost predicate ParkedAt<S, V>(head: Node<V>, l: Level<S, V>)
    requires l.e < l.r < |l.list|
    reads l.list[l.e], l.list[l.r]
  {
    Parked([head] + l.list, l.e + 1, l.r + 1)
  }

  /** What was lifted at the levels below the top keeps the pointers it had then. */
  ghost predicate AllParked<S, V>(head: Node<V>, levels: seq<Level<S, V>>, lifted: set<Node<V>>)
    reads lifted
  {
    forall k :: 0 <= k < |levels| - 1 ==>
                  && levels[k].e < levels[k].r < |levels[k].list|
                  && levels[k].list[levels[k].e] in lifted && levels[k].list[levels[k].r] in lifted
                  && ParkedAt(head, levels[k])
  }

  /** The lifted nodes are not in the current list. */
  ghost predicate Apart<S, V>(head: Node<V>, levels: seq<Level<S, V>>, lifted: set<Node<V>>) {
    levels != [] && head !in lifted && forall i :: 0 <= i < |Top(levels).list| ==> Top(levels).list[i] !in lifted
  }

  ghost predicate ListOk<S, V>(head: Node<V>, levels: seq<Level<S, V>>, lifted: set<Node<V>>)
    requires levels != []
    reads [head] + Top(levels).list, lifted
  {
    Linked([head] + Top(levels).list) && AllParked(head, levels, lifted) && Apart(head, levels, lifted)
  }

  lemma WithoutHead<T>(head: T, list: seq<T>, e: nat, r: nat)
    requires e < r < |list|
    ensures Without([head] + list, e + 1, r + 1) == [head] + Without(list, e, r)
  {
  }

  lemma WithoutIsApart<V>(head: Node<V>, list: seq<Node<V>>, e: nat, r: nat, lifted: set<Node<V>>)
    requires e < r < |list| && Distinct([head] + list)
    requires head !in lifted && forall i :: 0 <= i < |list| ==> list[i] !in lifted
    ensures head !in lifted + {list[e], list[r]}
    ensures var rest := Without(list, e, r);
            forall i :: 0 <= i < |rest| ==> rest[i] !in lifted + {list[e], list[r]}
  {
    var s := [head] + list;
    assert s[0] == head;
    assert forall i :: 0 <= i < |list| ==> list[i] == s[i + 1];
    var rest := Without(list, e, r);
    forall i | 0 <= i < |rest|
      ensures rest[i] !in lifted + {list[e], list[r]}
    {
      WithoutAt(list, e, r, i);
    }
  }

  lemma ParkOneMore<S, V>(head: Node<V>, levels: seq<Level<S, V>>, lifted: set<Node<V>>, r: nat, next: seq<Level<S, V>>)
    requires levels != [] && AllParked(head, levels, lifted)
    requires var t := Top(levels); t.e < r < |t.list| && Parked([head] + t.list, t.e + 1, r + 1)
    requires |next| == |levels| + 1 && next[|levels| - 1] == Top(levels).(r := r)
    requires forall k :: 0 <= k < |levels| - 1 ==> next[k] == levels[k]
    ensures AllParked(head, next, lifted + {Top(levels).list[Top(levels).e], Top(levels).list[r]})
  {
  }

  method LiftTop<S, V>(entry: Node<V>, ghost head: Node<V>, ghost levels: seq<Level<S, V>>, ghost lifted: set<Node<V>>,
                       ghost r: nat, ghost next: seq<Level<S, V>>)
    requires levels != [] && ListOk(head, levels, lifted)
    requires var t := Top(levels); t.e < r < |t.list| && t.list[t.e] == entry && entry.matching == t.list[r]
    requires |next| == |levels| + 1 && next[|levels| - 1] == Top(levels).(r := r)
    requires forall k :: 0 <= k < |levels| - 1 ==> next[k] == levels[k]
    requires Top(next).list == Without(Top(levels).list, Top(levels).e, r)
    modifies [head] + Top(levels).list
    ensures ListOk(head, next, lifted + {entry, entry.matching})
  {
    ghost var t := Top(levels);
    ghost var s := [head] + t.list;
    WithoutHead(head, t.list, t.e, r);
    WithoutIsApart(head, t.list, t.e, r, lifted);
    Lift(entry, s, t.e + 1, r + 1);
    assert AllParked(head, levels, lifted) == true;
    ParkOneMore(head, levels, lifted, r, next);
  }

  lemma ParkOneLess<S, V>(head: Node<V>, levels: seq<Level<S, V>>, lifted: set<Node<V>>, next: seq<Level<S, V>>,
                          rest: set<Node<V>>)
    requires AllParked(head, levels, lifted)
    requires |levels| >= 2 && |next| == |levels| - 1
    requires forall k :: 0 <= k < |levels| - 2 ==> next[k] == levels[k]
    requires forall k :: 0 <= k < |levels| - 2 ==>
                           && levels[k].e < levels[k].r < |levels[k].list|
                           && levels[k].list[levels[k].e] in rest && levels[k].list[levels[k].r] in rest
    ensures AllParked(head, next, rest)
  {
  }

  method UnliftTop<S, V>(entry: Node<V>, ghost head: Node<V>, ghost b: Level<S, V>,
                         ghost next: seq<Level<S, V>>, ghost rest: set<Node<V>>)
    requires b.e < b.r < |b.list| && b.list[b.e] == entry && entry.matching == b.list[b.r]
    requires Linked([head] + Without(b.list, b.e, b.r)) && ParkedAt(head, b)
    requires next != [] && Top(next).list == b.list && Distinct([head] + b.list)
    requires AllParked(head, next, rest) && Apart(head, next, rest)
    modifies [head] + b.list
    ensures ListOk(head, next, rest)
  {
    WithoutHead(head, b.list, b.e, b.r);
    Unlift(entry, [head] + b.list, b.e + 1, b.r + 1);
    assert AllParked(head, next, rest) == true;
  }

  /** The lifted nodes belong to operations already placed. */
  ghost predicate LiftedOk<S, V>(nodes: seq<Node<V>>, h: seq<Operation<V>>, done: set<nat>, lifted: set<Node<V>>) {
    forall n :: n in lifted ==> IsNodeOf(nodes, h, n) && n.id in done
  }

  lemma LiftedIsApart<S, V>(m: Model<S, V>, nodes: seq<Node<V>>, h: seq<Operation<V>>, levels: seq<Level<S, V>>,
                            lifted: set<Node<V>>, head: Node<V>)
    requires StackOk(m, nodes, h, levels) && head !in nodes
    requires LiftedOk<S, V>(nodes, h, Top(levels).done, lifted)
    ensures Apart(head, levels, lifted) == true
    ensures Distinct([head] + Top(levels).list) == true
  {
    var t := Top(levels);
    assert LevelAt(m, nodes, h, levels, |levels| - 1);
    var s := [head] + t.list;
    forall i, j | 0 <= i < j < |s|
      ensures s[i] != s[j]
    {
      assert s[j] == t.list[j - 1] && IsNodeOf(nodes, h, t.list[j - 1]);
      if i > 0 {
        assert s[i] == t.list[i - 1];
        assert Pos(h, t.list[i - 1]) < Pos(h, t.list[j - 1]);
      }
    }
  }

  lemma LiftedAfterPush<S, V>(m: Model<S, V>, nodes: seq<Node<V>>, h: seq<Operation<V>>, levels: seq<Level<S, V>>,
                              lifted: set<Node<V>>, r: nat)
    requires StackOk(m, nodes, h, levels)
    requires LiftedOk<S, V>(nodes, h, Top(levels).done, lifted)
    requires var t := Top(levels); t.e < r < |t.list| && t.list[r].id == t.list[t.e].id
    ensures var t := Top(levels);
            LiftedOk<S, V>(nodes, h, t.done + {t.list[t.e].id}, lifted + {t.list[t.e], t.list[r]})
  {
    assert LevelAt(m, nodes, h, levels, |levels| - 1);
  }

  lemma LiftedAfterPop<S, V>(m: Model<S, V>, nodes: seq<Node<V>>, h: seq<Operation<V>>, levels: seq<Level<S, V>>,
                             lifted: set<Node<V>>)
    requires StackOk(m, nodes, h, levels) && |levels| >= 2
    requires LiftedOk<S, V>(nodes, h, Top(levels).done, lifted)
    ensures var b := levels[|levels| - 2];
            && b.e < b.r < |b.list| && b.list[b.e].matching == b.list[b.r]
            && LiftedOk<S, V>(nodes, h, b.done, lifted - {b.list[b.e], b.list[b.r]})
  {
    var b := levels[|levels| - 2];
    assert PlacedAt(m, h, levels, |levels| - 2) && LevelAt(m, nodes, h, levels, |levels| - 2);
    assert IsNodeOf(nodes, h, b.list[b.e]) && OperationAt(nodes, h, b.list[b.e].id);
    forall n | n in lifted - {b.list[b.e], b.list[b.r]}
      ensures IsNodeOf(nodes, h, n) && n.id in b.done
    {
      assert OperationAt(nodes, h, n.id);
    }
  }

  lemma {:induction false} PlacedStays<S, V>(m: Model<S, V>, nodes: seq<Node<V>>, h: seq<Operation<V>>,
                                             levels: seq<Level<S, V>>, j: nat, k: nat)
    requires StackOk(m, nodes, h, levels) && j <= k < |levels|
    ensures levels[j].done <= levels[k].done
    decreases k - j
  {
    if j < k {
      PlacedStays(m, nodes, h, levels, j, k - 1);
      assert PlacedAt(m, h, levels, k - 1);
    }
  }

  lemma PlacedIds<S, V>(m: Model<S, V>, nodes: seq<Node<V>>, h: seq<Operation<V>>, levels: seq<Level<S, V>>, k: nat)
    requires StackOk(m, nodes, h, levels) && k + 1 < |levels|
    ensures var a := levels[k];
            && a.e < a.r < |a.list| && a.list[a.r].id == a.list[a.e].id
            && a.list[a.e].id !in a.done && a.list[a.e].id in levels[k + 1].done
  {
    var a := levels[k];
    assert PlacedAt(m, h, levels, k) && LevelAt(m, nodes, h, levels, k);
    assert IsNodeOf(nodes, h, a.list[a.e]) && OperationAt(nodes, h, a.list[a.e].id);
  }

  /** What a lower level lifted is not what the level below the top lifted. */
  lemma LowerIsOther<S, V>(m: Model<S, V>, nodes: seq<Node<V>>, h: seq<Operation<V>>, levels: seq<Level<S, V>>, k: nat)
    requires StackOk(m, nodes, h, levels) && k + 2 < |levels|
    ensures var a, b := levels[k], levels[|levels| - 2];
            && a.e < a.r < |a.list| && b.e < b.r < |b.list|
            && a.list[a.e] !in {b.list[b.e], b.list[b.r]} && a.list[a.r] !in {b.list[b.e], b.list[b.r]}
  {
    PlacedIds(m, nodes, h, levels, k);
    PlacedIds(m, nodes, h, levels, |levels| - 2);
    PlacedStays(m, nodes, h, levels, k + 1, |levels| - 2);
  }

  // ----- the program variables -----

  /** The node the top level looks at, if any. */
  function LookedAt<S, V>(l: Level<S, V>): Node?<V> {
    if l.e < |l.list| then l.list[l.e] else null
  }

  /** `entry`, `state` and `calls` are the top level and what was placed at the levels below it. */
  ghost predicate Mirrors<S, V>(levels: seq<Level<S, V>>, entry: Node?<V>, state: S, calls: seq<CallsEntry<S, V>>) {
    && levels != [] && |calls| == |levels| - 1
    && entry == LookedAt(Top(levels)) && state == Top(levels).state
    && (forall k :: 0 <= k < |calls| ==> calls[k].entry == LookedAt(levels[k]) && calls[k].state == levels[k].state)
  }

  ghost predicate SearchOk<S, V>(m: Model<S, V>, nodes: seq<Node<V>>, h: seq<Operation<V>>, levels: seq<Level<S, V>>,
                                 seen: set<(set<nat>, S)>, lifted: set<Node<V>>)
  {
    StackOk(m, nodes, h, levels) && SeenOk(m, h, levels, seen) && LiftedOk<S, V>(nodes, h, Top(levels).done, lifted)
  }

  lemma PushOk<S, V>(m: Model<S, V>, nodes: seq<Node<V>>, h: seq<Operation<V>>, levels: seq<Level<S, V>>,
                     seen: set<(set<nat>, S)>, lifted: set<Node<V>>, r: nat)
    requires SearchOk(m, nodes, h, levels, seen, lifted)
    requires var t := Top(levels);
             && t.e < r < |t.list| && t.list[t.e].matching == t.list[r] && t.list[r].id == t.list[t.e].id < |h|
             && StepOf(m, h, t.state, t.list[t.e].id).0
    ensures var t, next := Top(levels), Push(m, h, levels, r);
            SearchOk(m, nodes, h, next, seen + {(Top(next).done, Top(next).state)},
                     lifted + {t.list[t.e], t.list[r]}) == true
  {
    PushKeepsStack(m, nodes, h, levels, r);
    PushKeepsSeen(m, h, levels, r, seen);
    LiftedAfterPush(m, nodes, h, levels, lifted, r);
  }

  lemma SkipOk<S, V>(m: Model<S, V>, nodes: seq<Node<V>>, h: seq<Operation<V>>, levels: seq<Level<S, V>>,
                     seen: set<(set<nat>, S)>, lifted: set<Node<V>>)
    requires SearchOk(m, nodes, h, levels, seen, lifted)
    requires var t := Top(levels);
             && t.e < |t.list| && t.list[t.e].matching != null && t.list[t.e].id < |h|
             && Fails(m, h, t.done, t.state, t.list[t.e].id)
    ensures SearchOk(m, nodes, h, Skip(levels), seen, lifted) == true
  {
    SkipKeepsStack(m, nodes, h, levels);
    SkipKeepsSeen(m, h, levels, seen);
  }

  lemma PopOk<S, V>(m: Model<S, V>, nodes: seq<Node<V>>, h: seq<Operation<V>>, levels: seq<Level<S, V>>,
                    seen: set<(set<nat>, S)>, lifted: set<Node<V>>)
    requires SearchOk(m, nodes, h, levels, seen, lifted) && |levels| >= 2
    requires Top(levels).e < |Top(levels).list| && Top(levels).list[Top(levels).e].matching == null
    ensures var b := levels[|levels| - 2];
            && b.e < b.r < |b.list| && b.list[b.e].matching == b.list[b.r]
            && SearchOk(m, nodes, h, Pop(levels), seen, lifted - {b.list[b.e], b.list[b.r]}) == true
  {
    assert LevelAt(m, nodes, h, levels, |levels| - 1);
    ReturnMeansStuck(m, nodes, h, Top(levels));
    PopKeepsStack(m, nodes, h, levels);
    PopKeepsSeen(m, h, levels, seen);
    LiftedAfterPop(m, nodes, h, levels, lifted);
  }

  /** Lifts the call looked at and its return; the search goes on at the front of the list. */
  method Forward<S, V>(entry: Node<V>, head: Node<V>, ghost m: Model<S, V>, ghost h: seq<Operation<V>>,
                       ghost levels: seq<Level<S, V>>, ghost lifted: set<Node<V>>, ghost r: nat)
    returns (first: Node?<V>)
    requires levels != [] && ListOk(head, levels, lifted)
    requires var t := Top(levels);
             t.e < r < |t.list| && t.list[t.e] == entry && entry.matching == t.list[r] && entry.id < |h|
    modifies [head] + Top(levels).list
    ensures ListOk(head, Push(m, h, levels, r), lifted + {entry, entry.matching})
    ensures first == LookedAt(Top(Push(m, h, levels, r)))
  {
    ghost var next := Push(m, h, levels, r);
    LiftTop(entry, head, levels, lifted, r, next);
    ghost var s := [head] + Top(next).list;
    assert s[0].next == NextIn(s, 0);
    first := head.next;
  }

  /** What the levels say about the pointers when the last call is taken back. */
  ghost predicate CanPop<S, V>(head: Node<V>, levels: seq<Level<S, V>>, rest: set<Node<V>>) {
    && |levels| >= 2
    && var b := levels[|levels| - 2];
       && b.e < b.r < |b.list| && b.list[b.e].matching == b.list[b.r] && Top(levels).list == Without(b.list, b.e, b.r)
       && Distinct([head] + b.list) && Apart(head, Pop(levels), rest)
       && forall k :: 0 <= k < |levels| - 2 ==>
                        && levels[k].e < levels[k].r < |levels[k].list|
                        && levels[k].list[levels[k].e] in rest && levels[k].list[levels[k].r] in rest
  }

  lemma StackCanPop<S, V>(m: Model<S, V>, nodes: seq<Node<V>>, h: seq<Operation<V>>, head: Node<V>,
                          levels: seq<Level<S, V>>, lifted: set<Node<V>>, rest: set<Node<V>>)
    requires StackOk(m, nodes, h, levels) && |levels| >= 2 && head !in nodes
    requires StackOk(m, nodes, h, Pop(levels)) && LiftedOk<S, V>(nodes, h, Top(Pop(levels)).done, rest)
    requires forall k :: 0 <= k < |levels| - 2 ==>
                           && levels[k].e < levels[k].r < |levels[k].list|
                           && levels[k].list[levels[k].e] in lifted && levels[k].list[levels[k].r] in lifted
    requires var b := levels[|levels| - 2];
             b.e < b.r < |b.list| && rest == lifted - {b.list[b.e], b.list[b.r]}
    ensures CanPop(head, levels, rest) == true
  {
    LiftedIsApart(m, nodes, h, Pop(levels), rest, head);
    assert PlacedAt(m, h, levels, |levels| - 2);
    forall k | 0 <= k < |levels| - 2
      ensures levels[k].list[levels[k].e] in rest && levels[k].list[levels[k].r] in rest
    {
      LowerIsOther(m, nodes, h, levels, k);
    }
  }

  /** Puts the last lifted call and its return back; the search goes on behind the call. */
  method Backward<S, V>(entry: Node<V>, head: Node<V>, ghost levels: seq<Level<S, V>>, ghost lifted: set<Node<V>>,
                        ghost rest: set<Node<V>>)
    returns (behind: Node?<V>)
    requires CanPop(head, levels, rest) && ListOk(head, levels, lifted)
    requires levels[|levels| - 2].list[levels[|levels| - 2].e] == entry
    modifies [head] + levels[|levels| - 2].list
    ensures ListOk(head, Pop(levels), rest)
    ensures behind == LookedAt(Top(Pop(levels)))
  {
    ghost var next := Pop(levels);
    ghost var b := levels[|levels| - 2];
    ParkOneLess(head, levels, lifted, next, rest);
    UnliftTop(entry, head, b, next, rest);
    ghost var s := [head] + b.list;
    assert s[b.e + 1].next == NextIn(s, b.e + 1);
    behind := entry.next;
  }

  /** The bitset holds the operations placed, and the cache the configurations seen. */
  ghost predicate BitsOk<S(!new)>(linearized: array<bv64>, cache: Cache<S>, done: set<nat>, n: nat,
                                  seen: set<(set<nat>, S)>, contents: Contents)
    reads linearized, contents.Keys
  {
    && Bitset.Members(linearized[..]) == done && n <= 64 * linearized.Length
    && linearized !in contents && Stable(contents) && CacheOk(cache, seen, linearized.Length, contents)
  }

  /** The levels, the configurations seen, the nodes lifted and the bitsets in the cache. */
  datatype Ghosts<S, V> = Ghosts(levels: seq<Level<S, V>>, ghost seen: set<(set<nat>, S)>, lifted: set<Node<V>>,
                                 contents: Contents)

  /** Everything that holds at the loop head. */
  ghost predicate LoopOk<S(!new), V>(
    m: Model<S, V>, nodes: seq<Node<V>>, h: seq<Operation<V>>, head: Node<V>, g: Ghosts<S, V>,
    entry: Node?<V>, state: S, calls: seq<CallsEntry<S, V>>, linearized: array<bv64>, cache: Cache<S>)
    requires g.levels != []
    reads [head] + Top(g.levels).list, g.lifted, linearized, g.contents.Keys
  {
    && head !in nodes
    && SearchOk(m, nodes, h, g.levels, g.seen, g.lifted)
    && Mirrors(g.levels, entry, state, calls)
    && ListOk(head, g.levels, g.lifted)
    && BitsOk(linearized, cache, Top(g.levels).done, |h|, g.seen, g.contents)
  }

  lemma MirrorsPush<S, V>(m: Model<S, V>, h: seq<Operation<V>>, levels: seq<Level<S, V>>, entry: Node<V>, state: S,
                          calls: seq<CallsEntry<S, V>>, r: nat)
    requires Mirrors(levels, entry, state, calls)
    requires var t := Top(levels); t.e < r < |t.list| && t.list[t.e].id < |h|
    ensures var next := Push(m, h, levels, r);
            Mirrors(next, LookedAt(Top(next)), Top(next).state, calls + [CallsEntry(entry, state)])
  {
  }

  lemma MirrorsSkip<S, V>(levels: seq<Level<S, V>>, entry: Node?<V>, state: S, calls: seq<CallsEntry<S, V>>)
    requires Mirrors(levels, entry, state, calls)
    ensures Mirrors(Skip(levels), LookedAt(Top(Skip(levels))), state, calls)
  {
  }

  lemma MirrorsPop<S, V>(levels: seq<Level<S, V>>, entry: Node?<V>, state: S, calls: seq<CallsEntry<S, V>>)
    requires Mirrors(levels, entry, state, calls) && |levels| >= 2
    ensures calls[|calls| - 1].entry == LookedAt(levels[|levels| - 2])
    ensures Mirrors(Pop(levels), LookedAt(Top(Pop(levels))), calls[|calls| - 1].state, calls[..|calls| - 1])
  {
  }

  lemma CallLookedAt<S, V>(m: Model<S, V>, nodes: seq<Node<V>>, h: seq<Operation<V>>, levels: seq<Level<S, V>>)
    returns (r: nat)
    requires StackOk(m, nodes, h, levels)
    requires var t := Top(levels); t.e < |t.list| && t.list[t.e].matching != null
    ensures var t := Top(levels);
            && t.e < r < |t.list| && t.list[t.e].matching == t.list[r]
            && t.list[r].id == t.list[t.e].id < |h| && t.list[t.e].id !in t.done
            && t.list[t.e].value == h[t.list[t.e].id].input && t.list[r].value == h[t.list[t.e].id].output
  {
    var t := Top(levels);
    assert LevelAt(m, nodes, h, levels, |levels| - 1);
    r := ReturnAfterCall(nodes, h, t.done, t.list, t.e);
  }

  /** Enters the new configuration into the cache and the bitset. */
  method Mark<S(!new)>(linearized: array<bv64>, cache: Cache<S>, entry: CacheEntry<S>, id: nat, ghost done: set<nat>,
                       ghost n: nat,
                       ghost seen: set<(set<nat>, S)>, ghost contents: Contents)
    returns (next: Cache<S>)
    requires BitsOk(linearized, cache, done, n, seen, contents) && id < n
    requires entry.linearized != linearized && entry.linearized !in contents
    requires entry.linearized.Length == linearized.Length
    requires Bitset.Members(entry.linearized[..]) == done + {id}
    modifies linearized
    ensures BitsOk(linearized, next, done + {id}, n, seen + {(done + {id}, entry.state)},
                   contents[entry.linearized := old(entry.linearized[..])])
  {
    next := Insert(cache, entry, seen, linearized.Length, contents);
    Bitset.Set(linearized, id);
  }

  method Unmark<S(!new)>(linearized: array<bv64>, ghost cache: Cache<S>, id: nat, ghost done: set<nat>, ghost n: nat,
                         ghost seen: set<(set<nat>, S)>, ghost contents: Contents)
    requires BitsOk(linearized, cache, done, n, seen, contents) && id < n
    modifies linearized
    ensures BitsOk(linearized, cache, done - {id}, n, seen, contents)
  {
    Bitset.Clear(linearized, id);
  }

  /** Enters the new configuration and lifts its call and return. */
  method Advance<S(!new), V>(
    entry: Node<V>, head: Node<V>, linearized: array<bv64>, cache: Cache<S>, newEntry: CacheEntry<S>,
    ghost m: Model<S, V>, ghost h: seq<Operation<V>>, ghost g: Ghosts<S, V>, ghost r: nat)
    returns (first: Node?<V>, next: Cache<S>)
    requires g.levels != [] && ListOk(head, g.levels, g.lifted)
    requires BitsOk(linearized, cache, Top(g.levels).done, |h|, g.seen, g.contents)
    requires var t := Top(g.levels);
             t.e < r < |t.list| && t.list[t.e] == entry && entry.matching == t.list[r] && entry.id < |h|
    requires newEntry.linearized != linearized && newEntry.linearized !in g.contents
    requires newEntry.linearized.Length == linearized.Length
    requires Bitset.Members(newEntry.linearized[..]) == Top(g.levels).done + {entry.id}
    modifies linearized, [head] + Top(g.levels).list
    ensures ListOk(head, Push(m, h, g.levels, r), g.lifted + {entry, entry.matching})
    ensures first == LookedAt(Top(Push(m, h, g.levels, r)))
    ensures BitsOk(linearized, next, Top(g.levels).done + {entry.id}, |h|,
                   g.seen + {(Top(g.levels).done + {entry.id}, newEntry.state)},
                   g.contents[newEntry.linearized := old(newEntry.linearized[..])])
  {
    next := Mark(linearized, cache, newEntry, entry.id, Top(g.levels).done, |h|, g.seen, g.contents);
    first := Forward(entry, head, m, h, g.levels, g.lifted, r);
  }

  /** The branch of the loop that places the call looked at. */
  method Linearize<S(!new), V>(
    m: Model<S, V>, head: Node<V>, entry: Node<V>, state: S, calls: seq<CallsEntry<S, V>>, linearized: array<bv64>,
    cache: Cache<S>,
    newEntry: CacheEntry<S>, ghost nodes: seq<Node<V>>, ghost h: seq<Operation<V>>, ghost g: Ghosts<S, V>, ghost r: nat)
    returns (entry': Node?<V>, calls': seq<CallsEntry<S, V>>, cache': Cache<S>, ghost g': Ghosts<S, V>)
    requires g.levels != [] && LoopOk(m, nodes, h, head, g, entry, state, calls, linearized, cache) == true
    requires var t := Top(g.levels);
             && t.e < r < |t.list| && entry == t.list[t.e] && entry.matching == t.list[r]
             && t.list[r].id == entry.id < |h|
             && StepOf(m, h, state, entry.id) == (true, newEntry.state)
    requires newEntry.linearized != linearized && newEntry.linearized !in g.contents
    requires newEntry.linearized.Length == linearized.Length
    requires Bitset.Members(newEntry.linearized[..]) == Top(g.levels).done + {entry.id}
    modifies linearized, [head] + Top(g.levels).list
    ensures g'.levels == Push(m, h, g.levels, r)
    ensures g'.seen == g.seen + {(Top(g'.levels).done, Top(g'.levels).state)}
    ensures LoopOk(m, nodes, h, head, g', entry', newEntry.state, calls', linearized, cache') == true
  {
    ghost var t := Top(g.levels);
    PushOk(m, nodes, h, g.levels, g.seen, g.lifted, r);
    MirrorsPush(m, h, g.levels, entry, state, calls, r);
    g' := Ghosts(Push(m, h, g.levels, r), g.seen + {(t.done + {entry.id}, newEntry.state)},
                 g.lifted + {t.list[t.e], t.list[r]}, g.contents[newEntry.linearized := newEntry.linearized[..]]);
    calls' := calls + [CallsEntry(entry, state)];
    entry', cache' := Advance(entry, head, linearized, cache, newEntry, m, h, g, r);
  }

  /** Takes the last operation out of the bitset and puts its call and return back. */
  method Retreat<S(!new), V>(
    entry: Node<V>, head: Node<V>, linearized: array<bv64>, ghost cache: Cache<S>, ghost n: nat, ghost g: Ghosts<S, V>,
    ghost rest: set<Node<V>>)
    returns (behind: Node?<V>)
    requires CanPop(head, g.levels, rest) && ListOk(head, g.levels, g.lifted)
    requires BitsOk(linearized, cache, Top(g.levels).done, n, g.seen, g.contents)
    requires g.levels[|g.levels| - 2].list[g.levels[|g.levels| - 2].e] == entry && entry.id < n
    modifies linearized, [head] + g.levels[|g.levels| - 2].list
    ensures ListOk(head, Pop(g.levels), rest)
    ensures behind == LookedAt(Top(Pop(g.levels)))
    ensures BitsOk(linearized, cache, Top(g.levels).done - {entry.id}, n, g.seen, g.contents)
  {
    Unmark(linearized, cache, entry.id, Top(g.levels).done, n, g.seen, g.contents);
    behind := Backward(entry, head, g.levels, g.lifted, rest);
  }

  lemma PoppedDone<S, V>(m: Model<S, V>, nodes: seq<Node<V>>, h: seq<Operation<V>>, levels: seq<Level<S, V>>)
    requires StackOk(m, nodes, h, levels) && |levels| >= 2
    ensures var b := levels[|levels| - 2];
            && b.e < b.r < |b.list| && b.list[b.e].id < |h|
            && Top(Pop(levels)).done == Top(levels).done - {b.list[b.e].id}
  {
    assert PlacedAt(m, h, levels, |levels| - 2);
  }

  /** The branch of the loop that takes the last call back. */
  method Backtrack<S(!new), V>(
    m: Model<S, V>, head: Node<V>, entry: Node<V>, state: S, calls: seq<CallsEntry<S, V>>, linearized: array<bv64>,
    ghost cache: Cache<S>,
    ghost nodes: seq<Node<V>>, ghost h: seq<Operation<V>>, ghost g: Ghosts<S, V>)
    returns (entry': Node?<V>, state': S, calls': seq<CallsEntry<S, V>>, ghost g': Ghosts<S, V>)
    requires |g.levels| >= 2 && LoopOk(m, nodes, h, head, g, entry, state, calls, linearized, cache) == true
    requires entry.matching == null
    modifies linearized, [head] + g.levels[|g.levels| - 2].list
    ensures g'.levels == Pop(g.levels) && g'.seen == g.seen
    ensures LoopOk(m, nodes, h, head, g', entry', state', calls', linearized, cache) == true
  {
    ghost var b := g.levels[|g.levels| - 2];
    PopOk(m, nodes, h, g.levels, g.seen, g.lifted);
    PoppedDone(m, nodes, h, g.levels);
    MirrorsPop(g.levels, entry, state, calls);
    ghost var rest := g.lifted - {b.list[b.e], b.list[b.r]};
    StackCanPop(m, nodes, h, head, g.levels, g.lifted, rest);
    g' := g.(levels := Pop(g.levels), lifted := rest);
    var callsTop := calls[|calls| - 1];
    state' := callsTop.state;
    calls' := calls[..|calls| - 1];
    entry' := Retreat(callsTop.entry, head, linearized, cache, |h|, g, rest);
  }

  lemma ListInNodes<S, V>(m: Model<S, V>, nodes: seq<Node<V>>, h: seq<Operation<V>>, levels: seq<Level<S, V>>, k: nat)
    requires StackOk(m, nodes, h, levels) && k < |levels|
    ensures forall i :: 0 <= i < |levels[k].list| ==> levels[k].list[i] in nodes
  {
    assert LevelAt(m, nodes, h, levels, k);
  }

  lemma WithHead<V>(head: Node<V>, list: seq<Node<V>>, nodes: seq<Node<V>>)
    requires forall i :: 0 <= i < |list| ==> list[i] in nodes
    ensures var s := [head] + list; forall i :: 0 <= i < |s| ==> s[i] == head || s[i] in nodes
  {
  }

  lemma InitialSearch<S(!new), V>(m: Model<S, V>, nodes: seq<Node<V>>, h: seq<Operation<V>>, head: Node<V>)
    requires Represents(nodes, h) && head !in nodes
    ensures var levels := [Level({}, m.init, nodes, 0, 0)];
            && SearchOk(m, nodes, h, levels, {}, {})
            && Apart(head, levels, {})
  {
    var levels := [Level({}, m.init, nodes, 0, 0)];
    assert LevelAt(m, nodes, h, levels, 0);
  }

  /** Where the loop has a node to look at. */
  lemma SomethingLookedAt<S, V>(m: Model<S, V>, nodes: seq<Node<V>>, h: seq<Operation<V>>, levels: seq<Level<S, V>>)
    requires StackOk(m, nodes, h, levels) && Top(levels).list != []
    ensures Top(levels).e < |Top(levels).list|
  {
    assert LevelAt(m, nodes, h, levels, |levels| - 1);
  }

  lemma StuckAtTheStart<S, V>(m: Model<S, V>, nodes: seq<Node<V>>, h: seq<Operation<V>>, levels: seq<Level<S, V>>)
    requires StackOk(m, nodes, h, levels) && |levels| == 1
    requires Top(levels).e < |Top(levels).list| && Top(levels).list[Top(levels).e].matching == null
    ensures !Completable(m, h, {}, m.init)
  {
    assert LevelAt(m, nodes, h, levels, 0);
    ReturnMeansStuck(m, nodes, h, Top(levels));
  }

  /** The branch of the loop that passes over a call that fails. */
  lemma PassOver<S(!new), V>(
    m: Model<S, V>, nodes: seq<Node<V>>, h: seq<Operation<V>>, head: Node<V>, g: Ghosts<S, V>,
    entry: Node<V>, state: S, calls: seq<CallsEntry<S, V>>, linearized: array<bv64>, cache: Cache<S>)
    requires g.levels != [] && LoopOk(m, nodes, h, head, g, entry, state, calls, linearized, cache) == true
    requires var t := Top(g.levels);
             && t.e < |t.list| && t.list[t.e] == entry && entry.matching != null && entry.id < |h|
             && Fails(m, h, t.done, t.state, entry.id)
    ensures LoopOk(m, nodes, h, head, g.(levels := Skip(g.levels)), entry.next, state, calls, linearized, cache) == true
  {
    SkipOk(m, nodes, h, g.levels, g.seen, g.lifted);
    MirrorsSkip(g.levels, entry, state, calls);
    var s := [head] + Top(g.levels).list;
    assert s[Top(g.levels).e + 1].next == NextIn(s, Top(g.levels).e + 1);
  }

  /** A configuration like the one that placing the call would give. */
  ghost predicate SeenBefore<S(!new), V>(m: Model<S, V>, seen: set<(set<nat>, S)>, done: set<nat>, s: S) {
    exists c :: c in seen && c.0 == done && m.equal(s, c.1)
  }

  /** Builds the configuration after placing `id` and looks it up in the cache. */
  method LookUp<S(!new), V>(m: Model<S, V>, linearized: array<bv64>, id: nat, newState: S, cache: Cache<S>,
                            ghost seen: set<(set<nat>, S)>, ghost contents: Contents)
    returns (newCacheEntry: CacheEntry<S>, found: bool)
    requires id < 64 * linearized.Length
    requires CacheOk(cache, seen, linearized.Length, contents) && Stable(contents)
    ensures fresh(newCacheEntry.linearized) && newCacheEntry.linearized.Length == linearized.Length
    ensures newCacheEntry.state == newState
    ensures Bitset.Members(newCacheEntry.linearized[..]) == Bitset.Members(linearized[..]) + {id}
    ensures found <==> SeenBefore(m, seen, Bitset.Members(linearized[..]) + {id}, newState)
  {
    var newLinearized := Bitset.Clone(linearized);
    Bitset.Set(newLinearized, id);
    newCacheEntry := CacheEntry(newLinearized, newState);
    found := CacheContains(m, cache, newCacheEntry, seen, linearized.Length, contents);
  }

  /** The branch of the loop that passes over a call whose configuration was seen before. */
  lemma PassOverSeen<S(!new), V(!new)>(
    m: Model<S, V>, nodes: seq<Node<V>>, h: seq<Operation<V>>, head: Node<V>, g: Ghosts<S, V>,
    entry: Node<V>, state: S, calls: seq<CallsEntry<S, V>>, linearized: array<bv64>, cache: Cache<S>)
    requires Congruent(m)
    requires g.levels != [] && LoopOk(m, nodes, h, head, g, entry, state, calls, linearized, cache) == true
    requires var t := Top(g.levels);
             && t.e < |t.list| && t.list[t.e] == entry && entry.matching != null && entry.id < |h|
             && entry.id !in t.done
             && t.state == state && SeenBefore(m, g.seen, t.done + {entry.id}, StepOf(m, h, state, entry.id).1)
    ensures LoopOk(m, nodes, h, head, g.(levels := Skip(g.levels)), entry.next, state, calls, linearized, cache) == true
  {
    var t := Top(g.levels);
    var c :| c in g.seen && c.0 == t.done + {entry.id} && m.equal(StepOf(m, h, state, entry.id).1, c.1);
    SeenBeforeFails(m, nodes, h, g.levels, g.seen, c);
    PassOver(m, nodes, h, head, g, entry, state, calls, linearized, cache);
  }

  lemma NotFoundIsNew<S(!new), V>(m: Model<S, V>, seen: set<(set<nat>, S)>, next: Level<S, V>,
                                  seen': set<(set<nat>, S)>)
    requires !SeenBefore(m, seen, next.done, next.state)
    requires seen' == seen + {(next.done, next.state)}
    ensures SeesOneMore(m, seen, next, seen') == true
  {
    if (next.done, next.state) in seen {
      assert !m.equal(next.state, (next.done, next.state).1);
    }
  }

  /** The branch of the loop for a call: place it, or pass over it. */
  method TryCall<S(!new), V(!new)>(
    m: Model<S, V>, head: Node<V>, entry: Node<V>, state: S, calls: seq<CallsEntry<S, V>>, linearized: array<bv64>,
    cache: Cache<S>,
    ghost nodes: seq<Node<V>>, ghost h: seq<Operation<V>>, ghost g: Ghosts<S, V>)
    returns (entry': Node?<V>, state': S, calls': seq<CallsEntry<S, V>>, cache': Cache<S>, ghost g': Ghosts<S, V>)
    requires Congruent(m)
    requires g.levels != [] && LoopOk(m, nodes, h, head, g, entry, state, calls, linearized, cache) == true
    requires entry.matching != null && Top(g.levels).e < |Top(g.levels).list|
    modifies linearized, [head] + Top(g.levels).list
    ensures g'.levels != [] && LoopOk(m, nodes, h, head, g', entry', state', calls', linearized, cache') == true
    ensures CostOf(g'.levels) < CostOf(g.levels)
    ensures SeesOneMore(m, g.seen, Top(g'.levels), g'.seen) == true
  {
    ghost var t := Top(g.levels);
    ghost var r := CallLookedAt(m, nodes, h, g.levels);
    StepsTerminate(m, h, g.levels, r);
    var matching := entry.matching;
    var (fits, newState) := m.step(state, entry.value, matching.value);
    if fits {
      var newCacheEntry, found := LookUp(m, linearized, entry.id, newState, cache, g.seen, g.contents);
      assert LoopOk(m, nodes, h, head, g, entry, state, calls, linearized, cache);
      if !found {
        state' := newState;
        entry', calls', cache', g' :=
          Linearize(m, head, entry, state, calls, linearized, cache, newCacheEntry, nodes, h, g, r);
        NotFoundIsNew(m, g.seen, Top(g'.levels), g'.seen);
      } else {
        PassOverSeen(m, nodes, h, head, g, entry, state, calls, linearized, cache);
        entry', state', calls', cache' := entry.next, state, calls, cache;
        g' := g.(levels := Skip(g.levels));
      }
    } else {
      PassOver(m, nodes, h, head, g, entry, state, calls, linearized, cache);
      entry', state', calls', cache' := entry.next, state, calls, cache;
      g' := g.(levels := Skip(g.levels));
    }
  }

  const HEAD_ID := 0xFFFF_FFFF_FFFF_FFFF

  method AddHead<V(0)>(subhistory: Node?<V>, ghost nodes: seq<Node<V>>) returns (headEntry: Node<V>)
    requires Linked(nodes) && (nodes != [] ==> nodes[0].prev == null)
    requires subhistory == if nodes == [] then null else nodes[0]
    modifies nodes
    ensures fresh(headEntry) && Linked([headEntry] + nodes)
  {
    var nil: V := *;
    headEntry := new Node(nil, null, HEAD_ID);
    headEntry := InsertBefore(headEntry, subhistory, nodes, 0);
    assert nodes != [] ==> Spliced(nodes, 0, headEntry) == [headEntry] + nodes;
  }

  /** Allocates the bitset and puts the head in front of the list. */
  method Prepare<V(0)>(subhistory: Node?<V>, ghost nodes: seq<Node<V>>)
    returns (headEntry: Node<V>, linearized: array<bv64>)
    requires Linked(nodes) && (nodes != [] ==> nodes[0].prev == null)
    requires subhistory == if nodes == [] then null else nodes[0]
    modifies nodes
    ensures fresh(headEntry) && fresh(linearized)
    ensures Linked([headEntry] + nodes)
    ensures Bitset.Members(linearized[..]) == {} && |nodes| / 2 <= 64 * linearized.Length
  {
    var n := Length(subhistory, nodes);
    n := n / 2;
    headEntry := AddHead(subhistory, nodes);
    linearized := Bitset.New(n);
  }

  lemma HeadPointer<S, V>(head: Node<V>, levels: seq<Level<S, V>>)
    requires levels != [] && Linked([head] + Top(levels).list)
    ensures head.next == null <==> Top(levels).list == []
  {
    var s := [head] + Top(levels).list;
    assert s[0].next == NextIn(s, 0);
  }

  lemma InitialLoop<S(!new), V>(m: Model<S, V>, nodes: seq<Node<V>>, h: seq<Operation<V>>, head: Node<V>,
                                linearized: array<bv64>,
                                g: Ghosts<S, V>, entry: Node?<V>, calls: seq<CallsEntry<S, V>>, cache: Cache<S>)
    requires Represents(nodes, h) && head !in nodes && Linked([head] + nodes)
    requires Bitset.Members(linearized[..]) == {} && |h| <= 64 * linearized.Length
    requires g == Ghosts([Level({}, m.init, nodes, 0, 0)], {}, {}, map[])
    requires entry == (if nodes == [] then null else nodes[0]) && calls == [] && cache == map[]
    ensures LoopOk(m, nodes, h, head, g, entry, m.init, calls, linearized, cache) == true
  {
    InitialSearch(m, nodes, h, head);
  }

  lemma EntryFacts<S(!new), V(!new)>(
    m: Model<S, V>, nodes: seq<Node<V>>, h: seq<Operation<V>>, head: Node<V>, g: Ghosts<S, V>,
    entry: Node?<V>, state: S, calls: seq<CallsEntry<S, V>>, linearized: array<bv64>, cache: Cache<S>)
    requires g.levels != [] && LoopOk(m, nodes, h, head, g, entry, state, calls, linearized, cache) == true
    requires head.next != null
    ensures var t := Top(g.levels); t.e < |t.list| && entry == t.list[t.e]
    ensures |calls| == |g.levels| - 1
    ensures var s := [head] + Top(g.levels).list; forall i :: 0 <= i < |s| ==> s[i] == head || s[i] in nodes
    ensures |g.levels| >= 2 ==>
              && g.levels[|g.levels| - 2].e < |g.levels[|g.levels| - 2].list|
              && var s := [head] + g.levels[|g.levels| - 2].list;
                 forall i :: 0 <= i < |s| ==> s[i] == head || s[i] in nodes
  {
    HeadPointer(head, g.levels);
    SomethingLookedAt(m, nodes, h, g.levels);
    ListInNodes(m, nodes, h, g.levels, |g.levels| - 1);
    WithHead(head, Top(g.levels).list, nodes);
    if |g.levels| >= 2 {
      ListInNodes(m, nodes, h, g.levels, |g.levels| - 2);
      WithHead(head, g.levels[|g.levels| - 2].list, nodes);
      PlacedIds(m, nodes, h, g.levels, |g.levels| - 2);
    }
  }

  /** One turn of the loop; `stuck` says that it returns false. */
  method Examine<S(!new), V(!new)>(
    m: Model<S, V>, head: Node<V>, entry: Node?<V>, state: S, calls: seq<CallsEntry<S, V>>, linearized: array<bv64>,
    cache: Cache<S>,
    ghost nodes: seq<Node<V>>, ghost h: seq<Operation<V>>, ghost g: Ghosts<S, V>)
    returns (stuck: bool, entry': Node?<V>, state': S, calls': seq<CallsEntry<S, V>>, cache': Cache<S>,
             ghost g': Ghosts<S, V>)
    requires Congruent(m)
    requires g.levels != [] && LoopOk(m, nodes, h, head, g, entry, state, calls, linearized, cache) == true
    requires head.next != null
    modifies linearized, head, nodes
    ensures stuck ==> !Completable(m, h, {}, m.init)
    ensures !stuck ==>
              g'.levels != [] && LoopOk(m, nodes, h, head, g', entry', state', calls', linearized, cache') == true
    ensures !stuck ==> CostOf(g'.levels) < CostOf(g.levels) && SeesOneMore(m, g.seen, Top(g'.levels), g'.seen) == true
  {
    EntryFacts(m, nodes, h, head, g, entry, state, calls, linearized, cache);
    stuck, entry', state', calls', cache', g' := false, entry, state, calls, cache, g;
    if entry.matching != null {
      entry', state', calls', cache', g' := TryCall(m, head, entry, state, calls, linearized, cache, nodes, h, g);
    } else if |calls| == 0 {
      StuckAtTheStart(m, nodes, h, g.levels);
      stuck := true;
    } else {
      StepsTerminate(m, h, g.levels, 0);
      entry', state', calls', g' := Backtrack(m, head, entry, state, calls, linearized, cache, nodes, h, g);
    }
  }

  /** Every configuration that was seen was placed. */
  ghost predicate PlacedAll<S(!new), V>(m: Model<S, V>, h: seq<Operation<V>>, placed: seq<(set<nat>, S)>,
                                        seen: set<(set<nat>, S)>) {
    PlacedOnce(m, h, placed) && forall c :: c in placed ==> c in seen
  }

  lemma PlaceOneMore<S(!new), V>(m: Model<S, V>, nodes: seq<Node<V>>, h: seq<Operation<V>>, placed: seq<(set<nat>, S)>,
                                 seen: set<(set<nat>, S)>, levels: seq<Level<S, V>>, seen': set<(set<nat>, S)>)
    requires PlacedAll(m, h, placed, seen) && StackOk(m, nodes, h, levels)
    requires SeesOneMore(m, seen, Top(levels), seen') && seen' != seen
    ensures PlacedAll(m, h, placed + [(Top(levels).done, Top(levels).state)], seen') == true
  {
    LevelsReachable(m, nodes, h, levels, |levels| - 1);
  }

  /**
   The search decides linearizability. `placed` lists the configurations it has placed, one per entry made in the cache:
   they are reachable and, if the model's equality is reflexive, all different.
   */
  method CheckSingle<S(!new), V(!new, 0)>(m: Model<S, V>, subhistory: Node?<V>, ghost nodes: seq<Node<V>>,
                                          ghost h: seq<Operation<V>>)
    returns (ok: bool, ghost placed: seq<(set<nat>, S)>)
    requires Congruent(m)
    requires Represents(nodes, h) && |nodes| == 2 * |h| && Linked(nodes)
    requires subhistory == if nodes == [] then null else nodes[0]
    requires nodes != [] ==> nodes[0].prev == null
    modifies nodes
    ensures ok <==> Linearizable(m, h)
    ensures PlacedOnce(m, h, placed)
  {
    SearchDecidesLinearizable(m, h);
    var headEntry, linearized := Prepare(subhistory, nodes);
    var cache: Cache<S> := map[];
    var calls: seq<CallsEntry<S, V>> := [];
    var state := m.init;
    var entry := subhistory;
    ghost var g := Ghosts([Level({}, m.init, nodes, 0, 0)], {}, {}, map[]);
    placed := [];
    InitialLoop(m, nodes, h, headEntry, linearized, g, entry, calls, cache);
    while headEntry.next != null
      invariant g.levels != [] && LoopOk(m, nodes, h, headEntry, g, entry, state, calls, linearized, cache) == true
      invariant fresh(headEntry) && fresh(linearized)
      invariant PlacedAll(m, h, placed, g.seen) == true
      decreases CostOf(g.levels)
    {
      var stuck;
      ghost var seen := g.seen;
      stuck, entry, state, calls, cache, g :=
        Examine(m, headEntry, entry, state, calls, linearized, cache, nodes, h, g);
      if stuck {
        return false, placed;
      }
      if g.seen != seen {
        PlaceOneMore(m, nodes, h, placed, seen, g.levels, g.seen);
        placed := placed + [(Top(g.levels).done, Top(g.levels).state)];
      }
    }
    HeadPointer(headEntry, g.levels);
    EmptyListMeansFound(m, nodes, h, g.levels);
    return true, placed;
  }
}
