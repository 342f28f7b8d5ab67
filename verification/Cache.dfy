/**
 The checker's cache: buckets of configurations, found by the hash of their bitset.
 It is described by the set `seen` of the configurations put into it.
 */
module Cache {
  import opened Linearizability
  import Bitset

  datatype CacheEntry<S> = CacheEntry(linearized: array<bv64>, state: S)

  /** A hash as a map key. */
  datatype HashKey = HashKey(bits: bv64)

  type Cache<S> = map<HashKey, seq<CacheEntry<S>>>

  /** The bucket for a hash; a missing key reads as the empty slice. */
  function Bucket<S>(cache: Cache<S>, hash: HashKey): seq<CacheEntry<S>> {
    if hash in cache then cache[hash] else []
  }

  /** What the bitsets in the cache hold. They are never written again. */
  type Contents = map<array<bv64>, seq<bv64>>

  ghost predicate Stable(contents: Contents)
    reads contents.Keys
  {
    forall a :: a in contents ==> a[..] == contents[a]
  }

  /** Entry `e` is filed under its own hash and was seen. */
  ghost predicate EntryOk<S>(e: CacheEntry<S>, hash: HashKey, seen: set<(set<nat>, S)>, words: nat,
                             contents: Contents) {
    && e.linearized in contents && |contents[e.linearized]| == words
    && hash.bits == Bitset.HashOf(contents[e.linearized])
    && (Bitset.Members(contents[e.linearized]), e.state) in seen
  }

  ghost predicate Holds<S>(cache: Cache<S>, hash: HashKey, i: int, c: (set<nat>, S), contents: Contents)
  {
    && 0 <= i < |Bucket(cache, hash)|
    && Bucket(cache, hash)[i].linearized in contents
    && Bitset.Members(contents[Bucket(cache, hash)[i].linearized]) == c.0 && Bucket(cache, hash)[i].state == c.1
  }

  ghost predicate Filed<S>(cache: Cache<S>, c: (set<nat>, S), contents: Contents) {
    exists hash, i :: Holds(cache, hash, i, c, contents)
  }

  ghost predicate CacheOk<S(!new)>(cache: Cache<S>, seen: set<(set<nat>, S)>, words: nat, contents: Contents) {
    && (forall hash, i :: 0 <= i < |Bucket(cache, hash)| ==>
         EntryOk(Bucket(cache, hash)[i], hash, seen, words, contents))
    && (forall c {:trigger Filed(cache, c, contents)} :: c in seen ==> Filed(cache, c, contents))
  }

  /** An equal configuration, whatever bucket it is in, is found in the bucket looked at. */
  lemma SameBucket<S(!new)>(cache: Cache<S>, seen: set<(set<nat>, S)>, words: nat, contents: Contents,
                            b: seq<bv64>, c: (set<nat>, S)) returns (i: int)
    requires CacheOk(cache, seen, words, contents) && |b| == words
    requires c in seen && c.0 == Bitset.Members(b)
    ensures Holds(cache, HashKey(Bitset.HashOf(b)), i, c, contents)
    ensures contents[Bucket(cache, HashKey(Bitset.HashOf(b)))[i].linearized] == b
  {
    assert Filed(cache, c, contents);
    var hash, k :| Holds(cache, hash, k, c, contents);
    var e := Bucket(cache, hash)[k];
    assert EntryOk(e, hash, seen, words, contents);
    Bitset.SameMembersSameWords(contents[e.linearized], b);
    i := k;
  }

  method CacheContains<S(!new), V>(m: Model<S, V>, cache: Cache<S>, entry: CacheEntry<S>,
                                   ghost seen: set<(set<nat>, S)>, ghost words: nat, ghost contents: Contents)
    returns (found: bool)
    requires CacheOk(cache, seen, words, contents) && Stable(contents) && entry.linearized.Length == words
    ensures found <==> exists c :: c in seen && c.0 == Bitset.Members(entry.linearized[..]) && m.equal(entry.state, c.1)
  {
    var bits := Bitset.Hash(entry.linearized);
    var hash := HashKey(bits);
    var bucket := Bucket(cache, hash);
    ghost var b := entry.linearized[..];
    for i := 0 to |bucket|
      invariant forall j :: 0 <= j < i ==>
                              bucket[j].linearized in contents && contents[bucket[j].linearized] == b ==>
                                !m.equal(entry.state, bucket[j].state)
    {
      var elem := bucket[i];
      assert EntryOk(elem, hash, seen, words, contents);
      assert elem.linearized[..] == contents[elem.linearized];
      var same := Bitset.Equals(entry.linearized, elem.linearized);
      if same && m.equal(entry.state, elem.state) {
        ghost var c := (Bitset.Members(b), elem.state);
        assert c in seen;
        return true;
      }
    }
    forall c | c in seen && c.0 == Bitset.Members(b)
      ensures !m.equal(entry.state, c.1)
    {
      var i := SameBucket(cache, seen, words, contents, b, c);
    }
    return false;
  }

  lemma BucketAfter<S>(cache: Cache<S>, hash: HashKey, entry: CacheEntry<S>, k: HashKey)
    ensures var next := cache[hash := Bucket(cache, hash) + [entry]];
            Bucket(next, k) == if k == hash then Bucket(cache, k) + [entry] else Bucket(cache, k)
  {
  }

  lemma InsertKeepsEntry<S>(cache: Cache<S>, hash: HashKey, entry: CacheEntry<S>, next: Cache<S>, k: HashKey, i: int,
                            seen: set<(set<nat>, S)>, b: seq<bv64>, contents: Contents)
    requires next == cache[hash := Bucket(cache, hash) + [entry]]
    requires entry.linearized !in contents && hash.bits == Bitset.HashOf(b)
    requires 0 <= i < |Bucket(next, k)|
    requires i < |Bucket(cache, k)| ==> EntryOk(Bucket(cache, k)[i], k, seen, |b|, contents)
    ensures EntryOk(Bucket(next, k)[i], k, seen + {(Bitset.Members(b), entry.state)}, |b|,
                    contents[entry.linearized := b])
  {
    BucketAfter(cache, hash, entry, k);
  }

  lemma InsertKeepsHolds<S>(cache: Cache<S>, hash: HashKey, entry: CacheEntry<S>, next: Cache<S>, k: HashKey, i: int,
                            c: (set<nat>, S), b: seq<bv64>, contents: Contents)
    requires next == cache[hash := Bucket(cache, hash) + [entry]] && entry.linearized !in contents
    requires Holds(cache, k, i, c, contents)
    ensures Holds(next, k, i, c, contents[entry.linearized := b])
  {
    BucketAfter(cache, hash, entry, k);
  }

  lemma InsertHolds<S>(cache: Cache<S>, hash: HashKey, entry: CacheEntry<S>, next: Cache<S>, b: seq<bv64>,
                       contents: Contents)
    requires next == cache[hash := Bucket(cache, hash) + [entry]]
    ensures Holds(next, hash, |Bucket(cache, hash)|, (Bitset.Members(b), entry.state), contents[entry.linearized := b])
  {
    BucketAfter(cache, hash, entry, hash);
  }

  lemma InsertKeepsCache<S(!new)>(cache: Cache<S>, hash: HashKey, entry: CacheEntry<S>, next: Cache<S>,
                                  seen: set<(set<nat>, S)>, b: seq<bv64>, contents: Contents)
    requires next == cache[hash := Bucket(cache, hash) + [entry]]
    requires CacheOk(cache, seen, |b|, contents)
    requires entry.linearized !in contents && hash.bits == Bitset.HashOf(b)
    ensures CacheOk(next, seen + {(Bitset.Members(b), entry.state)}, |b|, contents[entry.linearized := b])
  {
    var c := (Bitset.Members(b), entry.state);
    var more := contents[entry.linearized := b];
    forall k, i | 0 <= i < |Bucket(next, k)|
      ensures EntryOk(Bucket(next, k)[i], k, seen + {c}, |b|, more)
    {
      InsertKeepsEntry(cache, hash, entry, next, k, i, seen, b, contents);
    }
    forall d | d in seen + {c}
      ensures Filed(next, d, more)
    {
      if d in seen {
        assert Filed(cache, d, contents);
        var k, i :| Holds(cache, k, i, d, contents);
        InsertKeepsHolds(cache, hash, entry, next, k, i, d, b, contents);
      } else {
        InsertHolds(cache, hash, entry, next, b, contents);
      }
    }
  }

  /** Files a configuration under its hash. */
  method Insert<S(!new)>(cache: Cache<S>, entry: CacheEntry<S>,
                         ghost seen: set<(set<nat>, S)>, ghost words: nat, ghost contents: Contents)
    returns (next: Cache<S>)
    requires CacheOk(cache, seen, words, contents)
    requires entry.linearized !in contents && entry.linearized.Length == words
    ensures CacheOk(next, seen + {(Bitset.Members(entry.linearized[..]), entry.state)}, words,
                    contents[entry.linearized := entry.linearized[..]])
  {
    var bits := Bitset.Hash(entry.linearized);
    var hash := HashKey(bits);
    next := cache[hash := Bucket(cache, hash) + [entry]];
    InsertKeepsCache(cache, hash, entry, next, seen, entry.linearized[..], contents);
  }
}
