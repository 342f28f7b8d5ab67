/**
 The doubly linked list of events that the checker walks. A list is described by
 the sequence `s` of its nodes, the head node first.
 */
module Nodes {
  import opened Common

  /** One event. A call holds its return in `matching`; a return holds null there. */
  class Node<V> {
    const value: V
    const matching: Node?<V>
    const id: nat
    var next: Node?<V>
    var prev: Node?<V>

    constructor (value: V, matching: Node?<V>, id: nat)
      ensures this.value == value && this.matching == matching && this.id == id
      ensures next == null && prev == null
    {
      this.value, this.matching, this.id := value, matching, id;
      next, prev := null, null;
    }
  }

  function NextIn<V>(s: seq<Node<V>>, i: nat): Node?<V>
    requires i < |s|
  {
    if i + 1 < |s| then s[i + 1] else null
  }

  /** The pointers of the nodes of `s` link them in this order and end with null. */
  ghost predicate Linked<V>(s: seq<Node<V>>)
    reads s
  {
    && Distinct(s)
    && (forall i {:trigger s[i].next} :: 0 <= i < |s| ==> s[i].next == NextIn(s, i))
    && (forall i {:trigger s[i].prev} :: 1 <= i < |s| ==> s[i].prev == s[i - 1])
  }

  /** `s` without its element `p`. */
  function Cut<T>(s: seq<T>, p: nat): seq<T>
    requires p < |s|
  {
    s[..p] + s[p + 1..]
  }

  /** `s` with `n` put in before element `p`. */
  function Spliced<T>(s: seq<T>, p: nat, n: T): seq<T>
    requires p <= |s|
  {
    s[..p] + [n] + s[p..]
  }

  /** Links `n` in before `mark`, which is element `k` of the list, or leaves it alone. */
  method InsertBefore<V>(n: Node<V>, mark: Node?<V>, ghost s: seq<Node<V>>, ghost k: nat) returns (r: Node<V>)
    requires Linked(s) && n !in s && n.next == null && n.prev == null
    requires s != [] ==> s[0].prev == null
    requires mark != null ==> k < |s| && mark == s[k]
    modifies n, s
    ensures r == n
    ensures mark != null ==> Linked(Spliced(s, k, n))
    ensures mark == null ==> Linked(s) && n.next == null
    ensures mark == null || k == 0 ==> n.prev == null
  {
    if mark != null {
      assert k >= 1 ==> s[k].prev == s[k - 1];
      var beforeMark := mark.prev;
      mark.prev := n;
      n.next := mark;
      if beforeMark != null {
        n.prev := beforeMark;
        beforeMark.next := n;
      }
    }
    r := n;
  }

  method Length<V>(n: Node?<V>, ghost s: seq<Node<V>>) returns (l: nat)
    requires Linked(s)
    requires n == if s == [] then null else s[0]
    ensures l == |s|
  {
    l := 0;
    var m := n;
    while m != null
      invariant l <= |s|
      invariant m == if l == |s| then null else s[l]
      decreases |s| - l
    {
      m := m.next;
      l := l + 1;
    }
  }

  /** `s` without its elements `p` and `q`. */
  function Without<T>(s: seq<T>, p: nat, q: nat): seq<T>
    requires p < q < |s|
  {
    s[..p] + s[p + 1..q] + s[q + 1..]
  }

  /**
   The pointers kept by the call `s[p]` and the return `s[q]` after they were
   lifted out of `s`. When the two are neighbours the return was re-linked to the
   node before the call before it was lifted itself.
   */
  ghost predicate Parked<V>(s: seq<Node<V>>, p: nat, q: nat)
    requires 1 <= p < q < |s|
    reads s[p], s[q]
  {
    && s[p].prev == s[p - 1]
    && s[p].next == s[p + 1]
    && s[q].prev == (if q == p + 1 then s[p - 1] else s[q - 1])
    && s[q].next == NextIn(s, q)
  }

  /** Lets the neighbours of `n` bypass it; `n` keeps its own pointers. */
  method Detach<V>(n: Node<V>, ghost s: seq<Node<V>>, ghost p: nat, ghost t: seq<Node<V>>)
    requires Linked(s) && 1 <= p < |s| && s[p] == n && t == Cut(s, p)
    modifies n.prev`next, (if n.next == null then {} else {n.next})`prev
    ensures Linked(t)
    ensures n.prev == s[p - 1] && n.next == NextIn(s, p)
  {
    assert s[p].next == NextIn(s, p) && s[p].prev == s[p - 1];
    n.prev.next := n.next;
    if n.next != null {
      n.next.prev := n.prev;
    }
    forall i | 0 <= i < |t|
      ensures t[i].next == NextIn(t, i)
      ensures i >= 1 ==> t[i].prev == t[i - 1]
    {
      var j := if i < p then i else i + 1;
      assert t[i] == s[j];
      assert old(s[j].next) == NextIn(s, j);
      if i >= 1 {
        assert old(s[j].prev) == s[j - 1];
        assert t[i - 1] == if i - 1 < p then s[i - 1] else s[i];
      }
    }
  }

  /** Lets the nodes that `n` points at point back at `n`. */
  method Reattach<V>(n: Node<V>, ghost s: seq<Node<V>>, ghost p: nat, ghost t: seq<Node<V>>)
    requires Linked(s) && 1 <= p <= |s| && n !in s && t == Spliced(s, p, n)
    requires n.prev == s[p - 1] && n.next == if p < |s| then s[p] else null
    modifies n.prev`next, (if n.next == null then {} else {n.next})`prev
    ensures Linked(t)
  {
    n.prev.next := n;
    if n.next != null {
      n.next.prev := n;
    }
    forall i | 0 <= i < |t| && i != p
      ensures t[i].next == NextIn(t, i)
      ensures i >= 1 ==> t[i].prev == t[i - 1]
    {
      var j := if i < p then i else i - 1;
      assert t[i] == s[j];
      assert old(s[j].next) == NextIn(s, j);
      assert j >= 1 ==> old(s[j].prev) == s[j - 1];
    }
  }

  lemma CutTwice<V>(s: seq<Node<V>>, p: nat, q: nat, t: seq<Node<V>>, u: seq<Node<V>>)
    requires 1 <= p < q < |s| && Distinct(s) && t == Cut(s, p) && u == Without(s, p, q)
    ensures s[p] !in t && (forall n :: n in t ==> n in s)
    ensures t[q - 1] == s[q] && NextIn(t, q - 1) == NextIn(s, q)
    ensures t[q - 2] == if q == p + 1 then s[p - 1] else s[q - 1]
    ensures u == Cut(t, q - 1)
  {
  }

  lemma SpliceTwice<V>(s: seq<Node<V>>, p: nat, q: nat, t: seq<Node<V>>, u: seq<Node<V>>)
    requires 1 <= p < q < |s| && Distinct(s) && t == Cut(s, p) && u == Without(s, p, q)
    ensures s[q] !in u && (forall n :: n in u ==> n in t)
    ensures u[q - 2] == if q == p + 1 then s[p - 1] else s[q - 1]
    ensures NextIn(s, q) == if q - 1 < |u| then u[q - 1] else null
    ensures t[p - 1] == s[p - 1] && t[p] == s[p + 1]
    ensures t == Spliced(u, q - 1, s[q]) && s == Spliced(t, p, s[p])
  {
  }

  method Lift<V>(entry: Node<V>, ghost s: seq<Node<V>>, ghost p: nat, ghost q: nat)
    requires Linked(s) && 1 <= p < q < |s|
    requires s[p] == entry && s[q] == entry.matching
    modifies s
    ensures Linked(Without(s, p, q))
    ensures Parked(s, p, q)
  {
    ghost var t, u := Cut(s, p), Without(s, p, q);
    CutTwice(s, p, q, t, u);
    Detach(entry, s, p, t);
    Detach(entry.matching, t, q - 1, u);
  }

  // The pointer writes of `Unlift`, with what they need of the three sequences spelled out.
  method ReattachBoth<V>(entry: Node<V>, ghost s: seq<Node<V>>, ghost p: nat, ghost q: nat,
                         ghost t: seq<Node<V>>, ghost u: seq<Node<V>>)
    requires 1 <= p < q < |s| && |t| == |s| - 1 && |u| == |s| - 2
    requires Linked(u) && Parked(s, p, q) && s[p] == entry && s[q] == entry.matching
    requires entry !in t && entry.matching !in u
    requires entry !in u
    requires u[q - 2] == if q == p + 1 then s[p - 1] else s[q - 1]
    requires NextIn(s, q) == if q - 1 < |u| then u[q - 1] else null
    requires t[p - 1] == s[p - 1] && t[p] == s[p + 1]
    requires t == Spliced(u, q - 1, s[q]) && s == Spliced(t, p, s[p])
    modifies s
    ensures Linked(s)
  {
    Reattach(entry.matching, u, q - 1, t);
    Reattach(entry, t, p, s);
  }

  /** Undoes the matching `Lift`. */
  method Unlift<V>(entry: Node<V>, ghost s: seq<Node<V>>, ghost p: nat, ghost q: nat)
    requires 1 <= p < q < |s| && Distinct(s)
    requires Linked(Without(s, p, q)) && Parked(s, p, q)
    requires s[p] == entry && s[q] == entry.matching
    modifies s
    ensures Linked(s)
  {
    CutTwice(s, p, q, Cut(s, p), Without(s, p, q));
    SpliceTwice(s, p, q, Cut(s, p), Without(s, p, q));
    ReattachBoth(entry, s, p, q, Cut(s, p), Without(s, p, q));
  }
}
