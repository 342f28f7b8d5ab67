/**
 From a history of timed operations to the linked list of its events: `makeEntries` and `makeLinkedEntries`.
 */
module Entries {
  import opened Nodes
  import opened Linearizability
  import opened Search

  datatype Entry<V> = Entry(isReturn: bool, value: V, id: nat, time: int)

  // ----- sorting by time -----

  ghost predicate SortedByTime<V>(s: seq<Entry<V>>) {
    forall i, j :: 0 <= i < j < |s| ==> s[i].time <= s[j].time
  }

  function InsertByTime<V>(e: Entry<V>, s: seq<Entry<V>>): (r: seq<Entry<V>>)
    ensures multiset(r) == multiset(s) + multiset{e}
  {
    if s == [] || s[|s| - 1].time <= e.time then s + [e]
    else
      assert s == s[..|s| - 1] + [s[|s| - 1]];
      InsertByTime(e, s[..|s| - 1]) + [s[|s| - 1]]
  }

  lemma {:induction false} InsertKeepsSorted<V>(e: Entry<V>, s: seq<Entry<V>>)
    requires SortedByTime(s)
    ensures SortedByTime(InsertByTime(e, s))
  {
    if s != [] && s[|s| - 1].time > e.time {
      var front, last := s[..|s| - 1], s[|s| - 1];
      InsertKeepsSorted(e, front);
      var r := InsertByTime(e, front);
      forall i | 0 <= i < |r|
        ensures r[i].time <= last.time
      {
        assert r[i] in multiset(r);
        assert r[i] == e || r[i] in multiset(front);
      }
    }
  }

  /** Any sort will do: what follows uses only that the result is sorted and has the same entries. */
  method SortByTime<V>(s: seq<Entry<V>>) returns (r: seq<Entry<V>>)
    ensures SortedByTime(r) && multiset(r) == multiset(s)
  {
    r := [];
    for i := 0 to |s|
      invariant SortedByTime(r) && multiset(r) == multiset(s[..i])
    {
      InsertKeepsSorted(s[i], r);
      r := InsertByTime(s[i], r);
      assert s[..i + 1] == s[..i] + [s[i]];
    }
    assert s[..|s|] == s;
  }

  // ----- the entries of a history -----

  /** The call and the return of every operation, in the order of the history. */
  function EntriesOf<V>(h: seq<Operation<V>>): (r: seq<Entry<V>>)
    ensures |r| == 2 * |h|
  {
    if h == [] then []
    else
      var n := |h| - 1;
      EntriesOf(h[..n]) + [Entry(false, h[n].input, n, h[n].call), Entry(true, h[n].output, n, h[n].ret)]
  }

  method MakeEntries<V>(history: seq<Operation<V>>) returns (entries: seq<Entry<V>>)
    ensures SortedByTime(entries) && multiset(entries) == multiset(EntriesOf(history))
  {
    entries := [];
    for id := 0 to |history|
      invariant entries == EntriesOf(history[..id])
    {
      var elem := history[id];
      entries := entries + [Entry(false, elem.input, id, elem.call)];
      entries := entries + [Entry(true, elem.output, id, elem.ret)];
      assert history[..id + 1][..id] == history[..id];
    }
    assert history[..|history|] == history;
    entries := SortByTime(entries);
  }

  // ----- calls and returns in pairs -----

  /** First index from `from` on with an entry of this kind and number, or the length if there is none. */
  function Find<V>(entries: seq<Entry<V>>, isReturn: bool, id: nat, from: nat): (i: nat)
    requires from <= |entries|
    ensures from <= i <= |entries|
    ensures i < |entries| ==> entries[i].isReturn == isReturn && entries[i].id == id
    ensures forall j :: from <= j < i ==> !(entries[j].isReturn == isReturn && entries[j].id == id)
    decreases |entries| - from
  {
    if from == |entries| then from
    else if entries[from].isReturn == isReturn && entries[from].id == id then from
    else Find(entries, isReturn, id, from + 1)
  }

  /** Every number below `n` has one call and, after it, one return, and nothing else is in the list. */
  ghost predicate Paired<V>(entries: seq<Entry<V>>, n: nat) {
    && |entries| == 2 * n
    && (forall i :: 0 <= i < |entries| ==> entries[i].id < n)
    && (forall i, j :: 0 <= i < j < |entries| && entries[i].id == entries[j].id ==>
         entries[i].isReturn != entries[j].isReturn)
    && (forall id: nat :: id < n ==> Find(entries, false, id, 0) < Find(entries, true, id, 0) < |entries|)
  }

  /** The history whose times are positions in the list of entries. */
  ghost function Positions<V>(entries: seq<Entry<V>>, n: nat): seq<Operation<V>>
    requires Paired(entries, n)
  {
    seq(n, id requires 0 <= id < n =>
      var c, r := Find(entries, false, id, 0), Find(entries, true, id, 0);
      Operation(entries[c].value, c, entries[r].value, r))
  }

  // ----- the linked list -----

  /** Node `i - from` carries entry `i`; a call is matched with the next return of its number. */
  ghost predicate NodeFor<V>(entries: seq<Entry<V>>, from: nat, nodes: seq<Node<V>>, i: nat)
    requires |nodes| == |entries| - from && from <= i < |entries|
  {
    var n, j := nodes[i - from], Find(entries, true, entries[i].id, i + 1);
    && n.value == entries[i].value && n.id == entries[i].id
    && n.matching == if !entries[i].isReturn && j < |entries| then nodes[j - from] else null
  }

  ghost predicate NodesFor<V>(entries: seq<Entry<V>>, from: nat, nodes: seq<Node<V>>) {
    |nodes| == |entries| - from && forall i: nat :: from <= i < |entries| ==> NodeFor(entries, from, nodes, i)
  }

  ghost predicate MatchAt<V>(entries: seq<Entry<V>>, from: nat, nodes: seq<Node<V>>, match_: map<nat, Node<V>>, id: nat)
    requires |nodes| == |entries| - from
  {
    var j := Find(entries, true, id, from);
    (id in match_ <==> j < |entries|) && (id in match_ ==> match_[id] == nodes[j - from])
  }

  /** `match_` holds the first return of every number in the nodes made so far. */
  ghost predicate MatchFor<V>(entries: seq<Entry<V>>, from: nat, nodes: seq<Node<V>>, match_: map<nat, Node<V>>)
    requires |nodes| == |entries| - from
  {
    forall id: nat :: MatchAt(entries, from, nodes, match_, id)
  }

  lemma {:induction false} NodesForOneMore<V>(entries: seq<Entry<V>>, from: nat, nodes: seq<Node<V>>,
                                              match_: map<nat, Node<V>>, n: Node<V>)
    requires from < |entries| && NodesFor(entries, from + 1, nodes) && MatchFor(entries, from + 1, nodes, match_)
    requires n.value == entries[from].value && n.id == entries[from].id
    requires n.matching == if !entries[from].isReturn && n.id in match_ then match_[n.id] else null
    ensures NodesFor(entries, from, [n] + nodes)
  {
    assert MatchAt(entries, from + 1, nodes, match_, n.id);
    forall i: nat | from <= i < |entries|
      ensures NodeFor(entries, from, [n] + nodes, i)
    {
      if i > from {
        assert NodeFor(entries, from + 1, nodes, i);
      }
    }
  }

  lemma {:induction false} MatchForOneMore<V>(entries: seq<Entry<V>>, from: nat, nodes: seq<Node<V>>,
                                              match_: map<nat, Node<V>>, n: Node<V>, next: map<nat, Node<V>>)
    requires from < |entries| && |nodes| == |entries| - from - 1 && MatchFor(entries, from + 1, nodes, match_)
    requires next == if entries[from].isReturn then match_[entries[from].id := n] else match_
    ensures MatchFor(entries, from, [n] + nodes, next)
  {
    forall id: nat
      ensures MatchAt(entries, from, [n] + nodes, next, id)
    {
      assert MatchAt(entries, from + 1, nodes, match_, id);
    }
  }

  method Prepend<V>(entry: Node<V>, root: Node?<V>, ghost nodes: seq<Node<V>>)
    requires Linked(nodes) && entry !in nodes && entry.next == null && entry.prev == null
    requires nodes != [] ==> nodes[0].prev == null
    requires root == if nodes == [] then null else nodes[0]
    modifies entry, nodes
    ensures Linked([entry] + nodes) && entry.prev == null
  {
    var r := InsertBefore(entry, root, nodes, 0);
    assert nodes != [] ==> Spliced(nodes, 0, entry) == [entry] + nodes;
  }

  method MakeLinkedEntries<V>(entries: seq<Entry<V>>) returns (root: Node?<V>, ghost nodes: seq<Node<V>>)
    ensures NodesFor(entries, 0, nodes) && Linked(nodes) && fresh(nodes)
    ensures root == if nodes == [] then null else nodes[0]
    ensures nodes != [] ==> nodes[0].prev == null
  {
    root := null;
    nodes := [];
    var match_: map<nat, Node<V>> := map[];
    var i := |entries|;
    while i > 0
      invariant 0 <= i <= |entries|
      invariant NodesFor(entries, i, nodes) == true && Linked(nodes) && fresh(nodes)
      invariant root == if nodes == [] then null else nodes[0]
      invariant nodes != [] ==> nodes[0].prev == null
      invariant MatchFor(entries, i, nodes, match_) == true
    {
      i := i - 1;
      var elem := entries[i];
      if elem.isReturn {
        var entry := new Node(elem.value, null, elem.id);
        NodesForOneMore(entries, i, nodes, match_, entry);
        MatchForOneMore(entries, i, nodes, match_, entry, match_[elem.id := entry]);
        match_ := match_[elem.id := entry];
        Prepend(entry, root, nodes);
        nodes := [entry] + nodes;
        root := entry;
      } else {
        var entry := new Node(elem.value, if elem.id in match_ then match_[elem.id] else null, elem.id);
        NodesForOneMore(entries, i, nodes, match_, entry);
        MatchForOneMore(entries, i, nodes, match_, entry, match_);
        Prepend(entry, root, nodes);
        nodes := [entry] + nodes;
        root := entry;
      }
    }
  }

  lemma {:induction false} OnlyOne<V>(entries: seq<Entry<V>>, n: nat, i: nat)
    requires Paired(entries, n) && i < |entries|
    ensures i == Find(entries, entries[i].isReturn, entries[i].id, 0)
  {
    var j := Find(entries, entries[i].isReturn, entries[i].id, 0);
    assert j <= i;
  }

  lemma {:induction false} ReturnFollows<V>(entries: seq<Entry<V>>, n: nat, id: nat)
    requires Paired(entries, n) && id < n
    ensures var c, r := Find(entries, false, id, 0), Find(entries, true, id, 0);
            c < r < |entries| && Find(entries, true, id, c + 1) == r
  {
    var c, r := Find(entries, false, id, 0), Find(entries, true, id, 0);
    var j := Find(entries, true, id, c + 1);
    if j < |entries| {
      OnlyOne(entries, n, j);
    }
  }

  /** The linked list made of paired entries represents their history. */
  lemma {:induction false} PairedRepresents<V>(entries: seq<Entry<V>>, n: nat, nodes: seq<Node<V>>)
    requires Paired(entries, n) && NodesFor(entries, 0, nodes)
    ensures Represents(nodes, Positions(entries, n))
  {
    var h := Positions(entries, n);
    forall id: nat | id < n
      ensures OperationAt(nodes, h, id)
    {
      ReturnFollows(entries, n, id);
      assert NodeFor(entries, 0, nodes, Find(entries, false, id, 0));
      assert NodeFor(entries, 0, nodes, Find(entries, true, id, 0));
    }
    forall i | 0 <= i < |nodes|
      ensures nodes[i].id < |h| && Pos(h, nodes[i]) == i
    {
      assert NodeFor(entries, 0, nodes, i);
      OnlyOne(entries, n, i);
      ReturnFollows(entries, n, entries[i].id);
    }
  }

  // ----- the entries of a timed history -----

  ghost predicate CallsFirst<V>(h: seq<Operation<V>>) {
    forall i :: 0 <= i < |h| ==> h[i].call < h[i].ret
  }

  /** Every call is before its return, and no operation returns at the very time another is called. */
  ghost predicate ProperTimes<V>(h: seq<Operation<V>>) {
    && CallsFirst(h)
    && (forall i, j :: 0 <= i < |h| && 0 <= j < |h| ==> h[i].ret != h[j].call)
  }

  function EntryFor<V>(h: seq<Operation<V>>, id: nat, isReturn: bool): Entry<V>
    requires id < |h|
  {
    if isReturn then Entry(true, h[id].output, id, h[id].ret) else Entry(false, h[id].input, id, h[id].call)
  }

  ghost predicate IsEntryOf<V>(h: seq<Operation<V>>, e: Entry<V>) {
    e.id < |h| && e == EntryFor(h, e.id, e.isReturn)
  }

  lemma {:induction false} EntriesOnce<V>(h: seq<Operation<V>>, e: Entry<V>)
    ensures multiset(EntriesOf(h))[e] == if IsEntryOf(h, e) then 1 else 0
  {
    if h != [] {
      var n := |h| - 1;
      var g := h[..n];
      EntriesOnce(g, e);
      var last := [Entry(false, h[n].input, n, h[n].call), Entry(true, h[n].output, n, h[n].ret)];
      assert multiset(EntriesOf(h)) == multiset(EntriesOf(g)) + multiset(last);
      assert multiset(last) == multiset{last[0], last[1]};
      if e.id < n {
        assert IsEntryOf(h, e) <==> IsEntryOf(g, e);
      }
    }
  }

  lemma {:induction false} TwiceInSeq<T>(s: seq<T>, i: nat, j: nat)
    requires i < j < |s| && s[i] == s[j]
    ensures multiset(s)[s[i]] >= 2
  {
    assert s == s[..j] + [s[j]] + s[j + 1..];
    assert s[i] in s[..j];
  }

  lemma {:induction false} AllEntries<V>(h: seq<Operation<V>>, entries: seq<Entry<V>>)
    requires multiset(entries) == multiset(EntriesOf(h))
    ensures |entries| == 2 * |h|
    ensures forall i :: 0 <= i < |entries| ==> IsEntryOf(h, entries[i])
  {
    assert |entries| == |multiset(entries)|;
    forall i | 0 <= i < |entries|
      ensures IsEntryOf(h, entries[i])
    {
      assert entries[i] in multiset(entries);
      EntriesOnce(h, entries[i]);
    }
  }

  lemma {:induction false} EntriesDiffer<V>(h: seq<Operation<V>>, entries: seq<Entry<V>>, i: nat, j: nat)
    requires multiset(entries) == multiset(EntriesOf(h)) && i < j < |entries|
    ensures entries[i] != entries[j]
  {
    EntriesOnce(h, entries[i]);
    if entries[i] == entries[j] {
      TwiceInSeq(entries, i, j);
    }
  }

  lemma {:induction false} FindEntry<V>(h: seq<Operation<V>>, entries: seq<Entry<V>>, id: nat, isReturn: bool)
    requires multiset(entries) == multiset(EntriesOf(h)) && id < |h|
    ensures var i := Find(entries, isReturn, id, 0); i < |entries| && entries[i] == EntryFor(h, id, isReturn)
  {
    var e := EntryFor(h, id, isReturn);
    EntriesOnce(h, e);
    assert e in multiset(entries);
    var j :| 0 <= j < |entries| && entries[j] == e;
    var i := Find(entries, isReturn, id, 0);
    assert i <= j;
    AllEntries(h, entries);
  }

  /** The same operations, and `g` orders every pair that `h` orders. */
  ghost predicate Stricter<V>(g: seq<Operation<V>>, h: seq<Operation<V>>) {
    && |g| == |h|
    && (forall i :: 0 <= i < |g| ==> g[i].input == h[i].input && g[i].output == h[i].output)
    && (forall i, j :: 0 <= i < |g| && 0 <= j < |g| && h[i].ret < h[j].call ==> g[i].ret < g[j].call)
  }

  /** The two histories have the same operations and order the same pairs of them. */
  ghost predicate SameOrder<V>(g: seq<Operation<V>>, h: seq<Operation<V>>) {
    Stricter(g, h) && Stricter(h, g)
  }

  lemma {:induction false} SortedPaired<V>(h: seq<Operation<V>>, entries: seq<Entry<V>>)
    requires CallsFirst(h) && SortedByTime(entries) && multiset(entries) == multiset(EntriesOf(h))
    ensures Paired(entries, |h|) == true
  {
    AllEntries(h, entries);
    forall i, j | 0 <= i < j < |entries| && entries[i].id == entries[j].id
      ensures entries[i].isReturn != entries[j].isReturn
    {
      EntriesDiffer(h, entries, i, j);
      assert IsEntryOf(h, entries[i]) && IsEntryOf(h, entries[j]);
    }
    forall id: nat | id < |h|
      ensures Find(entries, false, id, 0) < Find(entries, true, id, 0) < |entries|
    {
      FindEntry(h, entries, id, false);
      FindEntry(h, entries, id, true);
    }
  }

  lemma {:induction false} PositionOf<V>(h: seq<Operation<V>>, entries: seq<Entry<V>>, i: nat)
    requires multiset(entries) == multiset(EntriesOf(h)) && Paired(entries, |h|) && i < |h|
    ensures var g := Positions(entries, |h|)[i];
            && 0 <= g.call < |entries| && entries[g.call].time == h[i].call && g.input == h[i].input
            && 0 <= g.ret < |entries| && entries[g.ret].time == h[i].ret && g.output == h[i].output
            && entries[g.ret].isReturn && !entries[g.call].isReturn
  {
    FindEntry(h, entries, i, true);
    FindEntry(h, entries, i, false);
  }

  lemma {:induction false} PrecedenceKept<V>(h: seq<Operation<V>>, entries: seq<Entry<V>>, i: nat, j: nat)
    requires multiset(entries) == multiset(EntriesOf(h)) && Paired(entries, |h|) && SortedByTime(entries)
    requires i < |h| && j < |h| && h[i].ret < h[j].call
    ensures Positions(entries, |h|)[i].ret < Positions(entries, |h|)[j].call
  {
    PositionOf(h, entries, i);
    PositionOf(h, entries, j);
  }

  /** However ties end, sorting keeps every pair in order that the times order. */
  lemma {:induction false} SortingKeepsPrecedence<V>(h: seq<Operation<V>>, entries: seq<Entry<V>>)
    requires CallsFirst(h) && SortedByTime(entries) && multiset(entries) == multiset(EntriesOf(h))
    ensures Paired(entries, |h|) == true && Stricter(Positions(entries, |h|), h) == true
  {
    SortedPaired(h, entries);
    var g := Positions(entries, |h|);
    forall i: nat | i < |g|
      ensures g[i].input == h[i].input && g[i].output == h[i].output
    {
      PositionOf(h, entries, i);
    }
    forall i: nat, j: nat | i < |g| && j < |g| && h[i].ret < h[j].call
      ensures g[i].ret < g[j].call
    {
      PrecedenceKept(h, entries, i, j);
    }
  }

  /** Sorting the entries of a properly timed history keeps its order of calls and returns. */
  lemma {:induction false} SortingKeepsOrder<V>(h: seq<Operation<V>>, entries: seq<Entry<V>>)
    requires ProperTimes(h) && SortedByTime(entries) && multiset(entries) == multiset(EntriesOf(h))
    ensures Paired(entries, |h|) == true && SameOrder(Positions(entries, |h|), h) == true
  {
    SortingKeepsPrecedence(h, entries);
    var g := Positions(entries, |h|);
    forall i: nat, j: nat | i < |g| && j < |g| && g[i].ret < g[j].call
      ensures h[i].ret < h[j].call
    {
      PositionOf(h, entries, i);
      PositionOf(h, entries, j);
    }
  }

  /** What is linearizable under the stricter order is linearizable under the other. */
  lemma {:induction false} StricterLinearizable<S, V>(m: Model<S, V>, g: seq<Operation<V>>, h: seq<Operation<V>>)
    requires Stricter(g, h) && Linearizable(m, g)
    ensures Linearizable(m, h)
  {
    var order :| Completes(m, g, {}, m.init, order);
    AcceptsSame(m, g, order, h, order, m.init);
    assert Completes(m, h, {}, m.init, order);
  }

  lemma {:induction false} SameOrderBothWays<S, V>(m: Model<S, V>, g: seq<Operation<V>>, h: seq<Operation<V>>)
    requires SameOrder(g, h)
    ensures Linearizable(m, g) <==> Linearizable(m, h)
  {
    if Linearizable(m, g) {
      StricterLinearizable(m, g, h);
    }
    if Linearizable(m, h) {
      StricterLinearizable(m, h, g);
    }
  }
}
