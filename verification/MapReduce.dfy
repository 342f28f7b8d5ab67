/**
 The MapReduce pipeline: `doMap`, `doReduce` and `merge`. Files are sequences of key/value pairs; the hash is any
 function to the non-negative integers.
 */
module MapReduce {
  import opened Strings

  datatype KeyValue = KeyValue(key: string, value: string)

  type Mapper = (string, string) -> seq<KeyValue>
  type Reducer = (string, seq<string>) -> string

  /** An input file with its contents. */
  datatype Input = Input(name: string, contents: string)

  // ----- what the job is for -----

  /** All values of a key, in order. */
  function Values(kvs: seq<KeyValue>, key: string): seq<string> {
    if kvs == [] then []
    else
      var n := |kvs| - 1;
      Values(kvs[..n], key) + if kvs[n].key == key then [kvs[n].value] else []
  }

  /** `places` are the positions of the pairs with this key, each once and in order. */
  ghost predicate PlacesOf(kvs: seq<KeyValue>, key: string, places: seq<nat>) {
    && (forall p, q :: 0 <= p < q < |places| ==> places[p] < places[q])
    && (forall i: nat :: i in places <==> i < |kvs| && kvs[i].key == key)
  }

  lemma {:induction false} PlacesOneMore(kvs: seq<KeyValue>, key: string, front: seq<nat>)
    requires kvs != [] && PlacesOf(kvs[..|kvs| - 1], key, front)
    ensures PlacesOf(kvs, key, if kvs[|kvs| - 1].key == key then front + [|kvs| - 1] else front) == true
  {
    assert forall p :: 0 <= p < |front| ==> front[p] in front;
  }

  /** The values are those at the positions of the key: one for each position, in order. */
  lemma {:induction false} ValuesByPlace(kvs: seq<KeyValue>, key: string) returns (places: seq<nat>)
    ensures PlacesOf(kvs, key, places) == true && |Values(kvs, key)| == |places|
    ensures forall p :: 0 <= p < |places| ==> places[p] < |kvs| && Values(kvs, key)[p] == kvs[places[p]].value
  {
    if kvs == [] {
      places := [];
    } else {
      var n := |kvs| - 1;
      var front := ValuesByPlace(kvs[..n], key);
      places := if kvs[n].key == key then front + [n] else front;
      PlacesOneMore(kvs, key, front);
    }
  }

  /** Everything the mappers emit, in the order of the tasks and, within a task, of emission. */
  function Emitted(inputs: seq<Input>, mapF: Mapper): seq<KeyValue> {
    if inputs == [] then []
    else
      var n := |inputs| - 1;
      Emitted(inputs[..n], mapF) + mapF(inputs[n].name, inputs[n].contents)
  }

  /** What a task emits comes after everything of the tasks before it and before everything of those after it. */
  lemma {:induction false} EmittedInOrder(a: seq<Input>, x: Input, b: seq<Input>, mapF: Mapper)
    ensures Emitted(a + [x] + b, mapF) == Emitted(a, mapF) + mapF(x.name, x.contents) + Emitted(b, mapF)
  {
    if b == [] {
      assert a + [x] + b == a + [x];
      assert (a + [x])[..|a|] == a;
    } else {
      var front, y := b[..|b| - 1], b[|b| - 1];
      EmittedInOrder(a, x, front, mapF);
      assert (a + [x] + b)[..|a| + |b|] == a + [x] + front && (a + [x] + b)[|a| + |b|] == y;
      var before, after := Emitted(a, mapF) + mapF(x.name, x.contents), mapF(y.name, y.contents);
      assert before + Emitted(front, mapF) + after == before + (Emitted(front, mapF) + after);
    }
  }

  function Keys(kvs: seq<KeyValue>): (r: seq<string>)
    ensures |r| == |kvs| && forall i :: 0 <= i < |r| ==> r[i] == kvs[i].key
  {
    seq(|kvs|, i requires 0 <= i < |kvs| => kvs[i].key)
  }

  ghost predicate Reduces(kvs: seq<KeyValue>, reduceF: Reducer, kv: KeyValue) {
    Values(kvs, kv.key) != [] && kv.value == reduceF(kv.key, Values(kvs, kv.key))
  }

  /** Group by key and reduce: every key once, in sorted order, with the reduction of all its values. */
  ghost predicate Grouped(kvs: seq<KeyValue>, reduceF: Reducer, out: seq<KeyValue>) {
    && Ascending(Keys(out))
    && (forall i :: 0 <= i < |out| ==> Reduces(kvs, reduceF, out[i]))
    && (forall key :: Values(kvs, key) != [] ==> key in Keys(out))
  }

  lemma {:induction false} SameKeys(kvs: seq<KeyValue>, reduceF: Reducer, out: seq<KeyValue>, key: string)
    requires Grouped(kvs, reduceF, out)
    ensures key in Keys(out) <==> Values(kvs, key) != []
  {
    if key in Keys(out) {
      var i :| 0 <= i < |Keys(out)| && Keys(out)[i] == key;
      assert Reduces(kvs, reduceF, out[i]);
    }
  }

  /** There is only one such result. */
  lemma {:induction false} GroupedIsUnique(kvs: seq<KeyValue>, reduceF: Reducer, a: seq<KeyValue>, b: seq<KeyValue>)
    requires Grouped(kvs, reduceF, a) && Grouped(kvs, reduceF, b)
    ensures a == b
  {
    forall key
      ensures key in Keys(a) <==> key in Keys(b)
    {
      SameKeys(kvs, reduceF, a, key);
      SameKeys(kvs, reduceF, b, key);
    }
    AscendingIsUnique(Keys(a), Keys(b));
    forall i | 0 <= i < |a|
      ensures a[i] == b[i]
    {
      assert Keys(a)[i] == Keys(b)[i];
      assert Reduces(kvs, reduceF, a[i]) && Reduces(kvs, reduceF, b[i]);
    }
  }

  // ----- map -----

  /** The pairs that belong to reducer `r`. */
  function Bin(kvs: seq<KeyValue>, r: nat, nReduce: nat, ihash: string -> nat): seq<KeyValue>
    requires nReduce > 0
  {
    if kvs == [] then []
    else
      var n := |kvs| - 1;
      Bin(kvs[..n], r, nReduce, ihash) + if ihash(kvs[n].key) % nReduce == r then [kvs[n]] else []
  }

  /** One map task: the files it leaves, one per reducer. */
  method DoMap(input: Input, nReduce: nat, mapF: Mapper, ihash: string -> nat) returns (files: array<seq<KeyValue>>)
    requires nReduce > 0
    ensures fresh(files) && files.Length == nReduce
    ensures forall r: nat :: r < nReduce ==> files[r] == Bin(mapF(input.name, input.contents), r, nReduce, ihash)
  {
    files := new seq<KeyValue>[nReduce](_ => []);
    var kvs := mapF(input.name, input.contents);
    for i := 0 to |kvs|
      invariant forall r: nat :: r < nReduce ==> files[r] == Bin(kvs[..i], r, nReduce, ihash)
    {
      assert kvs[..i + 1][..i] == kvs[..i];
      var r := ihash(kvs[i].key) % nReduce;
      files[r] := files[r] + [kvs[i]];
    }
    assert kvs[..|kvs|] == kvs;
  }

  lemma {:induction false} ValuesConcat(a: seq<KeyValue>, b: seq<KeyValue>, key: string)
    ensures Values(a + b, key) == Values(a, key) + Values(b, key)
  {
    if b == [] {
      assert a + b == a;
    } else {
      var n := |b| - 1;
      assert (a + b)[..|a + b| - 1] == a + b[..n];
      ValuesConcat(a, b[..n], key);
    }
  }

  /** Binning keeps the values of a key together and in order, in the bin of its hash and in no other. */
  lemma {:induction false} ValuesOfBin(kvs: seq<KeyValue>, r: nat, nReduce: nat, ihash: string -> nat, key: string)
    requires nReduce > 0
    ensures Values(Bin(kvs, r, nReduce, ihash), key) == if ihash(key) % nReduce == r then Values(kvs, key) else []
  {
    if kvs != [] {
      var n := |kvs| - 1;
      ValuesOfBin(kvs[..n], r, nReduce, ihash, key);
      var last := if ihash(kvs[n].key) % nReduce == r then [kvs[n]] else [];
      ValuesConcat(Bin(kvs[..n], r, nReduce, ihash), last, key);
      assert Values([kvs[n]], key) == Values([], key) + if kvs[n].key == key then [kvs[n].value] else [];
    }
  }

  // ----- reduce -----

  /** The files of one reducer, read one after the other. */
  function Flatten(files: seq<seq<KeyValue>>): seq<KeyValue> {
    if files == [] then [] else Flatten(files[..|files| - 1]) + files[|files| - 1]
  }

  ghost predicate CollectedAt(kvs: seq<KeyValue>, m: map<string, seq<string>>, key: string) {
    (key in m <==> Values(kvs, key) != []) && (key in m ==> m[key] == Values(kvs, key))
  }

  /** `m` holds the values of every key that occurs. */
  ghost predicate Collected(kvs: seq<KeyValue>, m: map<string, seq<string>>) {
    forall key :: CollectedAt(kvs, m, key)
  }

  function Add(m: map<string, seq<string>>, kv: KeyValue): map<string, seq<string>> {
    m[kv.key := (if kv.key in m then m[kv.key] else []) + [kv.value]]
  }

  lemma {:induction false} CollectOne(kvs: seq<KeyValue>, m: map<string, seq<string>>, kv: KeyValue)
    requires Collected(kvs, m)
    ensures Collected(kvs + [kv], Add(m, kv))
  {
    forall key
      ensures CollectedAt(kvs + [kv], Add(m, kv), key)
    {
      assert CollectedAt(kvs, m, key);
      assert (kvs + [kv])[..|kvs|] == kvs;
    }
  }

  /** Reads one file into the map. */
  method Collect(file: seq<KeyValue>, kvs: map<string, seq<string>>, ghost before: seq<KeyValue>)
    returns (m: map<string, seq<string>>)
    requires Collected(before, kvs)
    ensures Collected(before + file, m)
  {
    m := kvs;
    assert before + file[..0] == before;
    for i := 0 to |file|
      invariant Collected(before + file[..i], m) == true
    {
      CollectOne(before + file[..i], m, file[i]);
      assert before + file[..i] + [file[i]] == before + file[..i + 1];
      m := Add(m, file[i]);
    }
    assert file[..|file|] == file;
  }

  lemma {:induction false} ReducedIsGrouped(kvs: seq<KeyValue>, reduceF: Reducer, m: map<string, seq<string>>,
                                            keys: seq<string>, out: seq<KeyValue>)
    requires Collected(kvs, m) && Ascending(keys) && (forall k :: k in keys <==> k in m) && |out| == |keys|
    requires forall j :: 0 <= j < |out| ==> out[j] == KeyValue(keys[j], reduceF(keys[j], m[keys[j]]))
    ensures Grouped(kvs, reduceF, out)
  {
    assert Keys(out) == keys;
    forall j | 0 <= j < |out|
      ensures Reduces(kvs, reduceF, out[j])
    {
      assert CollectedAt(kvs, m, keys[j]);
    }
    forall key | Values(kvs, key) != []
      ensures key in Keys(out)
    {
      assert CollectedAt(kvs, m, key);
    }
  }

  /** One reduce task. */
  method DoReduce(files: seq<seq<KeyValue>>, reduceF: Reducer) returns (out: seq<KeyValue>)
    ensures Grouped(Flatten(files), reduceF, out)
  {
    var kvs: map<string, seq<string>> := map[];
    for m := 0 to |files|
      invariant Collected(Flatten(files[..m]), kvs) == true
    {
      kvs := Collect(files[m], kvs, Flatten(files[..m]));
      assert files[..m + 1][..m] == files[..m];
    }
    assert files[..|files|] == files;
    var keys := SortedKeys(kvs);
    out := [];
    for i := 0 to |keys|
      invariant |out| == i && forall j :: 0 <= j < i ==> out[j] == KeyValue(keys[j], reduceF(keys[j], kvs[keys[j]]))
    {
      out := out + [KeyValue(keys[i], reduceF(keys[i], kvs[keys[i]]))];
    }
    ReducedIsGrouped(Flatten(files), reduceF, kvs, keys, out);
  }

  // ----- merge -----

  /** Every pair is a reduction of all the values of its key, and every key is somewhere. */
  ghost predicate PartsOf(kvs: seq<KeyValue>, reduceF: Reducer, outs: seq<seq<KeyValue>>) {
    && (forall r, i :: 0 <= r < |outs| && 0 <= i < |outs[r]| ==> Reduces(kvs, reduceF, outs[r][i]))
    && (forall key :: Values(kvs, key) != [] ==> exists r :: 0 <= r < |outs| && key in Keys(outs[r]))
  }

  /** Everything in the map is a reduction of all the values of its key. */
  ghost predicate Reduced(kvs: seq<KeyValue>, reduceF: Reducer, m: map<string, string>) {
    forall key :: key in m ==> Reduces(kvs, reduceF, KeyValue(key, m[key]))
  }

  /** Reads one reducer's output into the map. */
  method MergeOne(out: seq<KeyValue>, kvs: map<string, string>, ghost all: seq<KeyValue>, ghost reduceF: Reducer)
    returns (m: map<string, string>)
    requires Reduced(all, reduceF, kvs) && forall i :: 0 <= i < |out| ==> Reduces(all, reduceF, out[i])
    ensures Reduced(all, reduceF, m) && (forall key :: key in m <==> key in kvs || key in Keys(out))
  {
    m := kvs;
    for i := 0 to |out|
      invariant Reduced(all, reduceF, m)
      invariant forall key :: key in m <==> key in kvs || key in Keys(out)[..i]
    {
      assert KeyValue(out[i].key, out[i].value) == out[i];
      m := m[out[i].key := out[i].value];
      assert Keys(out)[..i + 1] == Keys(out)[..i] + [out[i].key];
    }
    assert Keys(out)[..|out|] == Keys(out);
  }

  method Merge(outs: seq<seq<KeyValue>>, ghost all: seq<KeyValue>, ghost reduceF: Reducer)
    returns (merged: seq<KeyValue>)
    requires PartsOf(all, reduceF, outs)
    ensures Grouped(all, reduceF, merged)
  {
    var kvs: map<string, string> := map[];
    for r := 0 to |outs|
      invariant Reduced(all, reduceF, kvs)
      invariant forall q :: 0 <= q < r ==> forall key :: key in Keys(outs[q]) ==> key in kvs
    {
      kvs := MergeOne(outs[r], kvs, all, reduceF);
    }
    var keys := SortedKeys(kvs);
    merged := [];
    for i := 0 to |keys|
      invariant |merged| == i && forall j :: 0 <= j < i ==> merged[j] == KeyValue(keys[j], kvs[keys[j]])
    {
      merged := merged + [KeyValue(keys[i], kvs[keys[i]])];
    }
    assert Keys(merged) == keys;
  }

  // ----- the whole job -----

  /** What reducer `r` reads: the files that the map tasks left for it. */
  function BinsFor(inputs: seq<Input>, mapF: Mapper, r: nat, nReduce: nat,
                   ihash: string -> nat): (bins: seq<seq<KeyValue>>)
    requires nReduce > 0
    ensures |bins| == |inputs|
  {
    seq(|inputs|, m requires 0 <= m < |inputs| => Bin(mapF(inputs[m].name, inputs[m].contents), r, nReduce, ihash))
  }

  /** A reducer sees all the values of its keys, in the order of tasks and emission, and nothing of other keys. */
  lemma {:induction false} ValuesForReducer(inputs: seq<Input>, mapF: Mapper, r: nat, nReduce: nat,
                                            ihash: string -> nat, key: string)
    requires nReduce > 0
    ensures Values(Flatten(BinsFor(inputs, mapF, r, nReduce, ihash)), key) ==
            if ihash(key) % nReduce == r then Values(Emitted(inputs, mapF), key) else []
  {
    if inputs != [] {
      var n := |inputs| - 1;
      var bins, kvs := BinsFor(inputs, mapF, r, nReduce, ihash), mapF(inputs[n].name, inputs[n].contents);
      ValuesForReducer(inputs[..n], mapF, r, nReduce, ihash, key);
      assert bins[..n] == BinsFor(inputs[..n], mapF, r, nReduce, ihash);
      ValuesConcat(Flatten(bins[..n]), bins[n], key);
      ValuesOfBin(kvs, r, nReduce, ihash, key);
      ValuesConcat(Emitted(inputs[..n], mapF), kvs, key);
    }
  }

  ghost predicate OutputsOf(inputs: seq<Input>, mapF: Mapper, reduceF: Reducer, nReduce: nat, ihash: string -> nat,
                            outs: seq<seq<KeyValue>>)
    requires nReduce > 0
  {
    && |outs| == nReduce
    && forall r: nat :: r < nReduce ==> Grouped(Flatten(BinsFor(inputs, mapF, r, nReduce, ihash)), reduceF, outs[r])
  }

  /** Merging never overwrites a key: two reducers have none in common. */
  lemma {:induction false} ReducersShareNoKey(
    inputs: seq<Input>, mapF: Mapper, reduceF: Reducer, nReduce: nat, ihash: string -> nat, outs: seq<seq<KeyValue>>,
    r: nat, q: nat, key: string)
    requires nReduce > 0 && OutputsOf(inputs, mapF, reduceF, nReduce, ihash, outs)
    requires r < nReduce && q < nReduce && key in Keys(outs[r]) && key in Keys(outs[q])
    ensures r == q
  {
    SameKeys(Flatten(BinsFor(inputs, mapF, r, nReduce, ihash)), reduceF, outs[r], key);
    SameKeys(Flatten(BinsFor(inputs, mapF, q, nReduce, ihash)), reduceF, outs[q], key);
    ValuesForReducer(inputs, mapF, r, nReduce, ihash, key);
    ValuesForReducer(inputs, mapF, q, nReduce, ihash, key);
  }

  lemma {:induction false} OutputsArePartsOfResult(
    inputs: seq<Input>, mapF: Mapper, reduceF: Reducer, nReduce: nat, ihash: string -> nat, outs: seq<seq<KeyValue>>)
    requires nReduce > 0 && OutputsOf(inputs, mapF, reduceF, nReduce, ihash, outs)
    ensures PartsOf(Emitted(inputs, mapF), reduceF, outs)
  {
    var kvs := Emitted(inputs, mapF);
    forall r, i | 0 <= r < |outs| && 0 <= i < |outs[r]|
      ensures Reduces(kvs, reduceF, outs[r][i])
    {
      var mine := Flatten(BinsFor(inputs, mapF, r, nReduce, ihash));
      assert Grouped(mine, reduceF, outs[r]);
      assert Reduces(mine, reduceF, outs[r][i]);
      ValuesForReducer(inputs, mapF, r, nReduce, ihash, outs[r][i].key);
    }
    forall key | Values(kvs, key) != []
      ensures exists r :: 0 <= r < |outs| && key in Keys(outs[r])
    {
      var r: nat := ihash(key) % nReduce;
      ValuesForReducer(inputs, mapF, r, nReduce, ihash, key);
      assert Grouped(Flatten(BinsFor(inputs, mapF, r, nReduce, ihash)), reduceF, outs[r]);
    }
  }

  /** All map tasks: file `r` of task `m` is `files[m][r]`. */
  method MapPhase(inputs: seq<Input>, nReduce: nat, mapF: Mapper, ihash: string -> nat)
    returns (files: seq<seq<seq<KeyValue>>>)
    requires nReduce > 0
    ensures |files| == |inputs| && forall m :: 0 <= m < |files| ==> |files[m]| == nReduce
    ensures forall m, r: nat :: 0 <= m < |files| && r < nReduce ==>
              files[m][r] == Bin(mapF(inputs[m].name, inputs[m].contents), r, nReduce, ihash)
  {
    files := [];
    for m := 0 to |inputs|
      invariant |files| == m && forall i :: 0 <= i < m ==> |files[i]| == nReduce
      invariant forall i, r: nat :: 0 <= i < m && r < nReduce ==>
                  files[i][r] == Bin(mapF(inputs[i].name, inputs[i].contents), r, nReduce, ihash)
    {
      var f := DoMap(inputs[m], nReduce, mapF, ihash);
      files := files + [f[..]];
    }
  }

  method ReducePhase(files: seq<seq<seq<KeyValue>>>, nReduce: nat, reduceF: Reducer, ghost inputs: seq<Input>,
                     ghost mapF: Mapper, ghost ihash: string -> nat)
    returns (outs: seq<seq<KeyValue>>)
    requires nReduce > 0 && |files| == |inputs| && forall m :: 0 <= m < |files| ==> |files[m]| == nReduce
    requires forall m, r: nat :: 0 <= m < |files| && r < nReduce ==>
               files[m][r] == Bin(mapF(inputs[m].name, inputs[m].contents), r, nReduce, ihash)
    ensures OutputsOf(inputs, mapF, reduceF, nReduce, ihash, outs)
  {
    outs := [];
    for r := 0 to nReduce
      invariant |outs| == r
      invariant forall q: nat :: q < r ==> Grouped(Flatten(BinsFor(inputs, mapF, q, nReduce, ihash)), reduceF, outs[q])
    {
      var mine := seq(|files|, m requires 0 <= m < |files| => files[m][r]);
      assert mine == BinsFor(inputs, mapF, r, nReduce, ihash);
      var out := DoReduce(mine, reduceF);
      outs := outs + [out];
    }
  }

  /** The job: map, reduce, merge. Its result is the grouping of everything emitted, whatever the number of reducers. */
  method RunJob(inputs: seq<Input>, nReduce: nat, mapF: Mapper, reduceF: Reducer, ihash: string -> nat)
    returns (result: seq<KeyValue>)
    requires nReduce > 0
    ensures Grouped(Emitted(inputs, mapF), reduceF, result)
  {
    var files := MapPhase(inputs, nReduce, mapF, ihash);
    var outs := ReducePhase(files, nReduce, reduceF, inputs, mapF, ihash);
    OutputsArePartsOfResult(inputs, mapF, reduceF, nReduce, ihash, outs);
    result := Merge(outs, Emitted(inputs, mapF), reduceF);
  }

  /** The number of reducers and the hash do not show in the result. */
  method SameForAnyReducers(inputs: seq<Input>, n: nat, k: nat, mapF: Mapper, reduceF: Reducer, ihash: string -> nat,
                            jhash: string -> nat)
    returns (a: seq<KeyValue>, b: seq<KeyValue>)
    requires n > 0 && k > 0
    ensures a == b && Grouped(Emitted(inputs, mapF), reduceF, a)
  {
    a := RunJob(inputs, n, mapF, reduceF, ihash);
    b := RunJob(inputs, k, mapF, reduceF, jhash);
    GroupedIsUnique(Emitted(inputs, mapF), reduceF, a, b);
  }
}
