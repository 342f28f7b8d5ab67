/**
 The bitset of the checker: an array of 64-bit words that stands for a finite
 set of positions. Bits 0-63 are in word 0, the next in word 1, and so on.
 */
module Bitset {
  import opened Words

  /** Bit `pos` of the words, found as `bitsetIndex` finds it. */
  predicate Get(s: seq<bv64>, pos: nat)
    requires pos < 64 * |s|
  {
    Bit(s[pos / 64], pos % 64)
  }

  /** The set of positions that the words stand for. */
  function Members(s: seq<bv64>): set<nat> {
    set p: nat | p < 64 * |s| && Get(s, p)
  }

  lemma SamePosition(p: nat, k: nat, i: nat)
    requires i < 64
    ensures p == 64 * k + i <==> p / 64 == k && p % 64 == i
  {
  }

  /** Writing one word with bit `i` added or removed adds or removes one position. */
  lemma ReplaceWord(s: seq<bv64>, k: nat, i: nat, w: bv64)
    requires k < |s| && i < 64
    ensures (forall j: nat :: j < 64 ==> Bit(w, j) == (j == i || Bit(s[k], j)))
         ==> Members(s[k := w]) == Members(s) + {64 * k + i}
    ensures (forall j: nat :: j < 64 ==> Bit(w, j) == (j != i && Bit(s[k], j)))
         ==> Members(s[k := w]) == Members(s) - {64 * k + i}
  {
    forall p: nat | p < 64 * |s|
      ensures p / 64 != k ==> (p in Members(s[k := w]) <==> p in Members(s))
      ensures p / 64 == k ==> (p in Members(s[k := w]) <==> Bit(w, p % 64))
      ensures p / 64 == k ==> (p in Members(s) <==> Bit(s[k], p % 64))
      ensures p == 64 * k + i <==> p / 64 == k && p % 64 == i
    {
      SamePosition(p, k, i);
    }
  }

  /** Word sequences of one length that stand for the same set are equal. */
  lemma SameMembersSameWords(s: seq<bv64>, t: seq<bv64>)
    requires |s| == |t| && Members(s) == Members(t)
    ensures s == t
  {
    forall k | 0 <= k < |s|
      ensures s[k] == t[k]
    {
      forall i: nat | i < 64
        ensures Bit(s[k], i) == Bit(t[k], i)
      {
        var p := 64 * k + i;
        assert p / 64 == k && p % 64 == i;
        assert p in Members(s) <==> Get(s, p);
        assert p in Members(t) <==> Get(t, p);
      }
      SameBits(s[k], t[k]);
    }
  }

  // ----- population count and hash -----

  function MembersBelow(s: seq<bv64>, n: nat): set<nat>
    requires n <= 64 * |s|
  {
    set p: nat | p < n && Get(s, p)
  }

  lemma {:induction false} CountWithinWord(s: seq<bv64>, k: nat, n: nat)
    requires k < |s| && n <= 64
    ensures |MembersBelow(s, 64 * k + n)| == |MembersBelow(s, 64 * k)| + Count(s[k], n)
  {
    if n > 0 {
      CountWithinWord(s, k, n - 1);
      var p := 64 * k + n - 1;
      assert Get(s, p) == Bit(s[k], n - 1) by {
        assert p / 64 == k && p % 64 == n - 1;
      }
      if Get(s, p) {
        assert MembersBelow(s, p + 1) == MembersBelow(s, p) + {p};
      } else {
        assert MembersBelow(s, p + 1) == MembersBelow(s, p);
      }
    }
  }

  function XorAll(h: bv64, s: seq<bv64>): bv64 {
    if s == [] then h else XorAll(h, s[..|s| - 1]) ^ s[|s| - 1]
  }

  const TWO_TO_THE_64 := 0x1_0000_0000_0000_0000

  /** The conversion of a count to an unsigned 64-bit number. */
  function Wrapped(n: nat): bv64 {
    (n % TWO_TO_THE_64) as bv64
  }

  function HashOf(s: seq<bv64>): bv64 {
    XorAll(Wrapped(|Members(s)|), s)
  }

  // ----- the operations -----

  method New(bits: nat) returns (b: array<bv64>)
    ensures fresh(b)
    ensures bits <= 64 * b.Length < bits + 64
    ensures Members(b[..]) == {}
  {
    var extra := 0;
    if bits % 64 != 0 {
      extra := 1;
    }
    var chunks := bits / 64 + extra;
    b := new bv64[chunks](_ => 0);
    forall p: nat | p < 64 * b.Length
      ensures !Get(b[..], p)
    {
      assert b[..][p / 64] == 0;
      NoBits(p % 64);
    }
  }

  method Clone(b: array<bv64>) returns (dataCopy: array<bv64>)
    ensures fresh(dataCopy)
    ensures dataCopy[..] == b[..]
  {
    dataCopy := new bv64[b.Length](i requires 0 <= i < b.Length reads b => b[i]);
  }

  method Set(b: array<bv64>, pos: nat)
    requires pos < 64 * b.Length
    modifies b
    ensures Members(b[..]) == old(Members(b[..])) + {pos}
  {
    var major, minor := pos / 64, pos % 64;
    var word := SetAt(b[major], minor as bv6);
    SetBit(b[major], minor, word);
    ReplaceWord(b[..], major, minor, word);
    b[major] := word;
    assert b[..] == old(b[..])[major := word];
  }

  method Clear(b: array<bv64>, pos: nat)
    requires pos < 64 * b.Length
    modifies b
    ensures Members(b[..]) == old(Members(b[..])) - {pos}
  {
    var major, minor := pos / 64, pos % 64;
    var word := ClearAt(b[major], minor as bv6);
    ClearBit(b[major], minor, word);
    ReplaceWord(b[..], major, minor, word);
    b[major] := word;
    assert b[..] == old(b[..])[major := word];
  }

  method Contains(b: array<bv64>, pos: nat) returns (isSet: bool)
    requires pos < 64 * b.Length
    ensures isSet <==> pos in Members(b[..])
  {
    var major, minor := pos / 64, pos % 64;
    BitIsBitAt(b[major], minor);
    isSet := BitAt(b[major], minor as bv6);
  }

  method Popcnt(b: array<bv64>) returns (total: nat)
    ensures total == |Members(b[..])|
  {
    total := 0;
    ghost var s := b[..];
    for i := 0 to b.Length
      invariant total == |MembersBelow(s, 64 * i)|
    {
      PopWordCounts(s[i]);
      CountWithinWord(s, i, 64);
      total := total + PopWord(b[i]) as nat;
    }
    assert MembersBelow(s, 64 * b.Length) == Members(s);
  }

  method XorWords(seed: bv64, b: array<bv64>) returns (hash: bv64)
    ensures hash == XorAll(seed, b[..])
  {
    hash := seed;
    for i := 0 to b.Length
      invariant hash == XorAll(seed, b[..i])
    {
      hash := hash ^ b[i];
      assert b[..i + 1] == b[..i] + [b[i]];
    }
    assert b[..b.Length] == b[..];
  }

  method Hash(b: array<bv64>) returns (hash: bv64)
    ensures hash == HashOf(b[..])
  {
    var count := Popcnt(b);
    hash := XorWords(Wrapped(count), b);
  }

  /** Arrays of one length are equal exactly when they stand for the same set. */
  method Equals(b: array<bv64>, b2: array<bv64>) returns (same: bool)
    ensures same <==> b[..] == b2[..]
    ensures b.Length == b2.Length ==> (same <==> Members(b[..]) == Members(b2[..]))
  {
    if b.Length == b2.Length && Members(b[..]) == Members(b2[..]) {
      SameMembersSameWords(b[..], b2[..]);
    }
    if b.Length != b2.Length {
      return false;
    }
    for i := 0 to b.Length
      invariant b[..i] == b2[..i]
    {
      if b[i] != b2[i] {
        return false;
      }
    }
    return true;
  }
}
