/** `CheckOperations`: from a timed key/value history to the checker's verdict. */
module Verdict {
  import opened Linearizability
  import opened Entries
  import opened Checker
  import opened KvModel
  import opened Partition

  /**
   The body of one checking goroutine: build the linked list of a history and search it. A history that is accepted is
   linearizable whatever the ties; `Ties` says when the converse can fail.
   */
  method CheckHistory<S(!new), V(!new, 0)>(m: Model<S, V>, history: seq<Operation<V>>) returns (ok: bool)
    requires Congruent(m) && CallsFirst(history)
    ensures ok ==> Linearizable(m, history)
    ensures ProperTimes(history) ==> (ok <==> Linearizable(m, history))
  {
    var entries := MakeEntries(history);
    SortingKeepsPrecedence(history, entries);
    var root, nodes := MakeLinkedEntries(entries);
    PairedRepresents(entries, |history|, nodes);
    ghost var timed := Positions(entries, |history|);
    ghost var placed;
    ok, placed := CheckSingle(m, root, nodes, timed);
    if ok {
      StricterLinearizable(m, timed, history);
    }
    if ProperTimes(history) {
      SortingKeepsOrder(history, entries);
      SameOrderBothWays(m, timed, history);
    }
  }

  ghost predicate HasKey(history: History, key: string) {
    exists id: nat :: id < |history| && KeyOf(history, id) == key
  }

  ghost predicate GroupAt(history: History, m: map<string, History>, key: string) {
    (key in m <==> HasKey(history, key)) && Restrict(history, key) == if key in m then m[key] else []
  }

  /** `m` holds the operations of every key of the history and of no other key. */
  ghost predicate Groups(history: History, m: map<string, History>) {
    forall key :: GroupAt(history, m, key)
  }

  /** `parts` are the partitions of the history by key, in any order. */
  ghost predicate IsPartition(history: History, parts: seq<History>, keys: seq<string>) {
    && |parts| == |keys|
    && (forall p :: 0 <= p < |parts| ==> parts[p] == Restrict(history, keys[p]) && HasKey(history, keys[p]))
    && (forall id: nat :: id < |history| ==> KeyOf(history, id) in keys)
    && (forall p, q :: 0 <= p < q < |keys| ==> keys[p] != keys[q])
  }

  lemma {:induction false} GroupOneMore(history: History, i: nat, m: map<string, History>, key: string)
    requires i < |history| && GroupAt(history[..i], m, key)
    ensures var k := KeyOf(history, i);
            GroupAt(history[..i + 1], m[k := (if k in m then m[k] else []) + [history[i]]], key) == true
  {
    var g := history[..i + 1];
    assert g[..i] == history[..i];
    if HasKey(g[..i], key) {
      var id: nat :| id < i && KeyOf(g[..i], id) == key;
      assert KeyOf(g, id) == key;
    }
    if HasKey(g, key) && KeyOf(g, i) != key {
      var id: nat :| id < i + 1 && KeyOf(g, id) == key;
      assert KeyOf(g[..i], id) == key;
    }
    assert KeyOf(g, i) == KeyOf(history, i);
  }

  method GroupByKey(history: History) returns (m: map<string, History>)
    ensures Groups(history, m)
  {
    m := map[];
    for i := 0 to |history|
      invariant Groups(history[..i], m) == true
    {
      var key := KeyOf(history, i);
      var next := m[key := (if key in m then m[key] else []) + [history[i]]];
      ghost var longer := history[..i + 1];
      forall k
        ensures GroupAt(longer, next, k)
      {
        assert GroupAt(history[..i], m, k);
        GroupOneMore(history, i, m, k);
      }
      m := next;
    }
    assert history[..|history|] == history;
  }

  method PartitionByKey(history: History) returns (parts: seq<History>, keys: seq<string>)
    ensures IsPartition(history, parts, keys)
  {
    var m := GroupByKey(history);
    parts, keys := [], [];
    var left := m.Keys;
    while left != {}
      invariant left <= m.Keys && |parts| == |keys|
      invariant forall p :: 0 <= p < |keys| ==> keys[p] in m && keys[p] !in left && parts[p] == m[keys[p]]
      invariant forall key :: key in m && key !in left ==> key in keys
      invariant forall p, q :: 0 <= p < q < |keys| ==> keys[p] != keys[q]
      decreases |left|
    {
      var key :| key in left;
      parts, keys := parts + [m[key]], keys + [key];
      left := left - {key};
    }
    assert forall p :: 0 <= p < |keys| ==> GroupAt(history, m, keys[p]);
    assert forall id: nat :: id < |history| ==> GroupAt(history, m, KeyOf(history, id));
  }

  lemma {:induction false} RestrictKeepsTimes(h: History, key: string)
    requires CallsFirst(h)
    ensures CallsFirst(Restrict(h, key)) == true
    ensures ProperTimes(h) ==> ProperTimes(Restrict(h, key)) == true
  {
    var places := Places(h, key);
    assert forall i :: 0 <= i < |places| ==> Restrict(h, key)[i] == h[places[i]];
  }

  lemma {:induction false} VerdictOfPartitions(h: History, parts: seq<History>, keys: seq<string>)
    requires Typed(h) && IsPartition(h, parts, keys)
    ensures Linearizable(Store(), h) <==> forall p: nat :: p < |parts| ==> Linearizable(Register(), parts[p])
  {
    Locality(h);
    if PartitionsLinearizable(h) {
      forall p: nat | p < |parts|
        ensures Linearizable(Register(), parts[p])
      {
        assert HasKey(h, keys[p]);
        var id: nat :| id < |h| && KeyOf(h, id) == keys[p];
      }
    }
    if forall p: nat :: p < |parts| ==> Linearizable(Register(), parts[p]) {
      forall id: nat | id < |h|
        ensures Linearizable(Register(), Restrict(h, KeyOf(h, id)))
      {
        var p :| 0 <= p < |keys| && keys[p] == KeyOf(h, id);
        assert parts[p] == Restrict(h, keys[p]);
      }
    }
  }

  /**
   The verdict for key/value histories. The partitions are checked by concurrent goroutines; the loop takes
   their results in any order and stops at the first `false`.
   */
  method CheckOperations(history: History) returns (ok: bool)
    requires history != [] && Typed(history) && CallsFirst(history)
    ensures ok ==> Linearizable(Store(), history)
    ensures ProperTimes(history) ==> (ok <==> Linearizable(Store(), history))
  {
    var parts, keys := PartitionByKey(history);
    ok := true;
    var waiting := Below(|parts|);
    while waiting != {}
      invariant ok && waiting <= Below(|parts|)
      invariant forall p: nat :: p < |parts| && p !in waiting ==> Linearizable(Register(), parts[p])
      decreases |waiting|
    {
      var p :| p in waiting;
      RestrictKeepsTimes(history, keys[p]);
      var result := CheckHistory(Register(), parts[p]);
      ok := ok && result;
      if !ok {
        break;
      }
      waiting := waiting - {p};
    }
    VerdictOfPartitions(history, parts, keys);
  }
}
