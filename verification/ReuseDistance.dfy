/**
  ml_files/build_training_data.py: the two passes over the access log. The backward pass gives each
  row the distance to the next GET of its key; the forward pass emits one training row for each GET
  that hit, with features known at the time.
 */
module ReuseDistance {
  import opened Prelude

  type Key = string

  datatype Row = Row(key: Key, operation: string, timestamp: int, sizeBytes: int, hit: int,
                     ttlRemaining: int, cacheUsed: int)

  /** What is known when the row is logged. */
  datatype Causal = Causal(key: Key, freq: nat, lastAccessGap: int, sizeBytes: int, ttlRemaining: int, cacheUsed: int)

  /** A training row; None stands for an infinite distance. */
  datatype Example = Example(features: Causal, reuseDistance: Option<nat>)

  // ----- the backward pass

  predicate GetOf(r: Row, key: Key) {
    r.key == key && r.operation == "GET"
  }

  ghost predicate NoGet(rows: seq<Row>, key: Key, lo: nat, hi: nat)
    requires hi <= |rows|
  {
    forall j :: lo <= j < hi ==> !GetOf(rows[j], key)
  }

  /** d is the distance from row i to the nearest strictly later GET of its key. */
  ghost predicate IsDistance(rows: seq<Row>, i: nat, d: Option<nat>)
    requires i < |rows|
  {
    match d
    case None => NoGet(rows, rows[i].key, i + 1, |rows|)
    case Some(n) => n > 0 && i + n < |rows| && GetOf(rows[i + n], rows[i].key) && NoGet(rows, rows[i].key, i + 1, i + n)
  }

  lemma DistanceUnique(rows: seq<Row>, i: nat, d: Option<nat>, e: Option<nat>)
    requires i < |rows| && IsDistance(rows, i, d) && IsDistance(rows, i, e)
    ensures d == e
  {
  }

  /** One pass from the last row to the first. */
  method NextDistances(rows: seq<Row>) returns (nextDist: array<Option<nat>>)
    ensures nextDist.Length == |rows|
    ensures forall i :: 0 <= i < |rows| ==> IsDistance(rows, i, nextDist[i])
  {
    nextDist := new Option<nat>[|rows|](_ => None);
    var lastGetRow: map<Key, nat> := map[];
    var i := |rows|;
    while i > 0
      invariant 0 <= i <= |rows|
      invariant forall k :: k in lastGetRow ==>
                  && i <= lastGetRow[k] < |rows| && GetOf(rows[lastGetRow[k]], k)
                  && NoGet(rows, k, i, lastGetRow[k])
      invariant forall k :: k !in lastGetRow ==> NoGet(rows, k, i, |rows|)
      invariant forall j :: i <= j < |rows| ==> IsDistance(rows, j, nextDist[j])
    {
      i := i - 1;
      var key := rows[i].key;
      if key in lastGetRow {
        nextDist[i] := Some(lastGetRow[key] - i);
      } else {
        nextDist[i] := None;
      }
      if rows[i].operation == "GET" {
        lastGetRow := lastGetRow[key := i];
      }
    }
  }

  /** The rows leave the pass no choice. */
  lemma DistancesDetermined(rows: seq<Row>, a: seq<Option<nat>>, b: seq<Option<nat>>)
    requires |a| == |b| == |rows|
    requires forall i :: 0 <= i < |rows| ==> IsDistance(rows, i, a[i]) && IsDistance(rows, i, b[i])
    ensures a == b
  {
    forall i | 0 <= i < |rows| ensures a[i] == b[i] {
      DistanceUnique(rows, i, a[i], b[i]);
    }
  }

  /** What one more row does to a distance: a finite one stays, and an infinite one becomes finite
      exactly when the new row is a GET of that key. The label looks into the future. */
  lemma OneMoreRow(rows: seq<Row>, r: Row, i: nat, d: Option<nat>, e: Option<nat>)
    requires i < |rows| && IsDistance(rows, i, d) && IsDistance(rows + [r], i, e)
    ensures e == if d.None? && GetOf(r, rows[i].key) then Some(|rows| - i) else d
  {
    DistanceUnique(rows + [r], i, e, if d.None? && GetOf(r, rows[i].key) then Some(|rows| - i) else d);
  }

  // ----- the forward pass

  predicate Hit(r: Row) {
    r.operation == "GET" && r.hit == 1
  }

  /** How many GETs of the key have hit. */
  function Hits(rows: seq<Row>, key: Key): nat
    decreases |rows|
  {
    if rows == [] then 0
    else Hits(rows[..|rows| - 1], key) + if rows[|rows| - 1].key == key && Hit(rows[|rows| - 1]) then 1 else 0
  }

  /** When the key was last written or hit. */
  function LastAccess(rows: seq<Row>, key: Key): Option<int>
    decreases |rows|
  {
    if rows == [] then None
    else
      var r := rows[|rows| - 1];
      if r.key == key && (r.operation == "SET" || Hit(r)) then Some(r.timestamp)
      else LastAccess(rows[..|rows| - 1], key)
  }

  /** The size the key was last written with, or 0. */
  function LastSize(rows: seq<Row>, key: Key): int
    decreases |rows|
  {
    if rows == [] then 0
    else
      var r := rows[|rows| - 1];
      if r.key == key && r.operation == "SET" then r.sizeBytes else LastSize(rows[..|rows| - 1], key)
  }

  /** The features of row r after the rows before it. */
  function Features(before: seq<Row>, r: Row): Causal {
    Causal(r.key, Hits(before, r.key) + 1,
           match LastAccess(before, r.key) case None => 0 case Some(t) => r.timestamp - t,
           LastSize(before, r.key), r.ttlRemaining, r.cacheUsed)
  }

  /** The examples of the first n rows: one for each GET that hit, in order. */
  function Examples(rows: seq<Row>, dist: seq<Option<nat>>, n: nat): seq<Example>
    requires n <= |rows| == |dist|
  {
    if n == 0 then []
    else
      Examples(rows, dist, n - 1) +
      if Hit(rows[n - 1]) then [Example(Features(rows[..n - 1], rows[n - 1]), dist[n - 1])] else []
  }

  function GetOr<V>(m: map<Key, V>, k: Key, default: V): V {
    if k in m then m[k] else default
  }

  ghost predicate TracksKey(rows: seq<Row>, freq: map<Key, nat>, lastAccess: map<Key, int>, sizes: map<Key, int>,
                            k: Key) {
    && GetOr(freq, k, 0) == Hits(rows, k)
    && (if k in lastAccess then LastAccess(rows, k) == Some(lastAccess[k]) else LastAccess(rows, k) == None)
    && GetOr(sizes, k, 0) == LastSize(rows, k)
  }

  /** What the three running maps say of every key. */
  ghost predicate Tracks(rows: seq<Row>, freq: map<Key, nat>, lastAccess: map<Key, int>, sizes: map<Key, int>) {
    forall k :: TracksKey(rows, freq, lastAccess, sizes, k)
  }

  lemma Snoc(rows: seq<Row>, r: Row, k: Key)
    ensures Hits(rows + [r], k) == Hits(rows, k) + if r.key == k && Hit(r) then 1 else 0
    ensures LastAccess(rows + [r], k) ==
            if r.key == k && (r.operation == "SET" || Hit(r)) then Some(r.timestamp) else LastAccess(rows, k)
    ensures LastSize(rows + [r], k) == if r.key == k && r.operation == "SET" then r.sizeBytes else LastSize(rows, k)
  {
    assert (rows + [r])[..|rows|] == rows;
  }

  /** One more row, on each of the branches of the loop. */
  lemma TracksSnoc(rows: seq<Row>, r: Row, freq: map<Key, nat>, lastAccess: map<Key, int>, sizes: map<Key, int>,
                   freq': map<Key, nat>, lastAccess': map<Key, int>, sizes': map<Key, int>)
    requires Tracks(rows, freq, lastAccess, sizes)
    requires freq' == if r.operation == "SET" then freq[r.key := GetOr(freq, r.key, 0)]
                      else if Hit(r) then freq[r.key := GetOr(freq, r.key, 0) + 1] else freq
    requires lastAccess' == if r.operation == "SET" || Hit(r) then lastAccess[r.key := r.timestamp] else lastAccess
    requires sizes' == if r.operation == "SET" then sizes[r.key := r.sizeBytes] else sizes
    ensures Tracks(rows + [r], freq', lastAccess', sizes')
  {
    forall k ensures TracksKey(rows + [r], freq', lastAccess', sizes', k) {
      assert TracksKey(rows, freq, lastAccess, sizes, k);
      Snoc(rows, r, k);
    }
  }

  lemma HitsStep(rows: seq<Row>, n: nat, key: Key)
    requires 0 < n <= |rows|
    ensures Hits(rows[..n], key) ==
            Hits(rows[..n - 1], key) + if rows[n - 1].key == key && Hit(rows[n - 1]) then 1 else 0
  {
    assert rows[..n] == rows[..n - 1] + [rows[n - 1]];
    Snoc(rows[..n - 1], rows[n - 1], key);
  }

  // ----- the same features, said of row positions

  /** The rows a key was written or hit in, and those it was written in. */
  predicate AccessOf(r: Row, key: Key) {
    r.key == key && (r.operation == "SET" || Hit(r))
  }

  predicate WriteOf(r: Row, key: Key) {
    r.key == key && r.operation == "SET"
  }

  /** The hits of a key before row n. */
  function HitsBefore(rows: seq<Row>, n: nat, key: Key): set<nat>
    requires n <= |rows|
  {
    set j: nat | j < n && rows[j].key == key && Hit(rows[j])
  }

  /** Row j is the last access of the key before row i, or its last write. */
  ghost predicate LastAccessAt(rows: seq<Row>, i: nat, key: Key, j: nat)
    requires i <= |rows|
  {
    j < i && AccessOf(rows[j], key) && forall m :: j < m < i ==> !AccessOf(rows[m], key)
  }

  ghost predicate LastWriteAt(rows: seq<Row>, i: nat, key: Key, j: nat)
    requires i <= |rows|
  {
    j < i && WriteOf(rows[j], key) && forall m :: j < m < i ==> !WriteOf(rows[m], key)
  }

  /** The example row i gives. Its frequency counts the hits of the key up to this one; its gap is the time
      since the last access of the key, or 0 if this is the first; its size is what the last write said, or
      0 if there was none; the rest is the row's own. */
  ghost predicate Describes(rows: seq<Row>, i: nat, f: Causal)
    requires i < |rows|
  {
    && f.key == rows[i].key && f.ttlRemaining == rows[i].ttlRemaining && f.cacheUsed == rows[i].cacheUsed
    && f.freq == |HitsBefore(rows, i + 1, f.key)|
    && (forall j: nat :: LastAccessAt(rows, i, f.key, j) ==> f.lastAccessGap == rows[i].timestamp - rows[j].timestamp)
    && ((forall j: nat :: !LastAccessAt(rows, i, f.key, j)) ==> f.lastAccessGap == 0)
    && (forall j: nat :: LastWriteAt(rows, i, f.key, j) ==> f.sizeBytes == rows[j].sizeBytes)
    && ((forall j: nat :: !LastWriteAt(rows, i, f.key, j)) ==> f.sizeBytes == 0)
  }

  /** The GETs among the first n rows that hit, in order. */
  ghost predicate AreHits(rows: seq<Row>, n: nat, at: seq<nat>)
    requires n <= |rows|
  {
    && (forall e :: 0 <= e < |at| ==> at[e] < n && Hit(rows[at[e]]))
    && (forall e, e' :: 0 <= e < e' < |at| ==> at[e] < at[e'])
    && (forall i: nat :: i < n && Hit(rows[i]) ==> i in at)
  }

  /** One example for each of them. */
  ghost predicate Trains(rows: seq<Row>, dist: seq<Option<nat>>, n: nat, at: seq<nat>, examples: seq<Example>)
    requires n <= |rows| == |dist|
  {
    && AreHits(rows, n, at) && |examples| == |at|
    && forall e :: 0 <= e < |at| ==>
         Describes(rows, at[e], examples[e].features) && examples[e].reuseDistance == dist[at[e]]
  }

  lemma {:induction false} HitsAre(rows: seq<Row>, n: nat, key: Key)
    requires n <= |rows|
    ensures Hits(rows[..n], key) == |HitsBefore(rows, n, key)|
  {
    if n > 0 {
      HitsAre(rows, n - 1, key);
      HitsStep(rows, n, key);
      var hits := HitsBefore(rows, n - 1, key);
      assert HitsBefore(rows, n, key) ==
             if rows[n - 1].key == key && Hit(rows[n - 1]) then hits + {n - 1} else hits;
    }
  }

  lemma {:induction false} LastAccessIs(rows: seq<Row>, n: nat, key: Key) returns (j: Option<nat>)
    requires n <= |rows|
    ensures match j
            case Some(m) => LastAccessAt(rows, n, key, m) && LastAccess(rows[..n], key) == Some(rows[m].timestamp)
            case None => LastAccess(rows[..n], key) == None && forall m :: 0 <= m < n ==> !AccessOf(rows[m], key)
  {
    if n == 0 {
      j := None;
    } else {
      j := LastAccessIs(rows, n - 1, key);
      assert rows[..n] == rows[..n - 1] + [rows[n - 1]];
      Snoc(rows[..n - 1], rows[n - 1], key);
      if AccessOf(rows[n - 1], key) {
        j := Some(n - 1);
      }
    }
  }

  lemma {:induction false} LastSizeIs(rows: seq<Row>, n: nat, key: Key) returns (j: Option<nat>)
    requires n <= |rows|
    ensures match j
            case Some(m) => LastWriteAt(rows, n, key, m) && LastSize(rows[..n], key) == rows[m].sizeBytes
            case None => LastSize(rows[..n], key) == 0 && forall m :: 0 <= m < n ==> !WriteOf(rows[m], key)
  {
    if n == 0 {
      j := None;
    } else {
      j := LastSizeIs(rows, n - 1, key);
      assert rows[..n] == rows[..n - 1] + [rows[n - 1]];
      Snoc(rows[..n - 1], rows[n - 1], key);
      if WriteOf(rows[n - 1], key) {
        j := Some(n - 1);
      }
    }
  }

  lemma FeaturesDescribe(rows: seq<Row>, i: nat)
    requires i < |rows| && Hit(rows[i])
    ensures Describes(rows, i, Features(rows[..i], rows[i]))
  {
    var key := rows[i].key;
    HitsAre(rows, i + 1, key);
    HitsStep(rows, i + 1, key);
    var a := LastAccessIs(rows, i, key);
    var w := LastSizeIs(rows, i, key);
    forall j: nat | LastAccessAt(rows, i, key, j) ensures a == Some(j) {
    }
    forall j: nat | LastWriteAt(rows, i, key, j) ensures w == Some(j) {
    }
  }

  /** A key set at 100 and read at 105. */
  lemma ReadFiveLater(rows: seq<Row>)
    requires rows == [Row("a", "SET", 100, 7, 0, 0, 0), Row("a", "GET", 105, 0, 1, 30, 40)]
    ensures Examples(rows, [Some(1), None], 2) == [Example(Causal("a", 1, 5, 7, 30, 40), None)]
  {
    assert rows[..0] == [] && rows[..1] == [] + [rows[0]];
    Snoc([], rows[0], "a");
    assert Examples(rows, [Some(1), None], 1) == [];
  }

  lemma AreHitsSnoc(rows: seq<Row>, n: nat, at: seq<nat>)
    requires n < |rows| && AreHits(rows, n, at)
    ensures Hit(rows[n]) ==> AreHits(rows, n + 1, at + [n])
    ensures !Hit(rows[n]) ==> AreHits(rows, n + 1, at)
  {
    assert forall i: nat :: i in at ==> i in at + [n];
    assert n in at + [n];
  }

  lemma TrainsSnoc(rows: seq<Row>, dist: seq<Option<nat>>, n: nat, at: seq<nat>, examples: seq<Example>, e: Example)
    requires n < |rows| == |dist| && Trains(rows, dist, n, at, examples) && AreHits(rows, n + 1, at + [n])
    requires Describes(rows, n, e.features) && e.reuseDistance == dist[n]
    ensures Trains(rows, dist, n + 1, at + [n], examples + [e])
  {
  }

  lemma ExamplesStep(rows: seq<Row>, dist: seq<Option<nat>>, n: nat, e: Example)
    requires 0 < n <= |rows| == |dist| && e == Example(Features(rows[..n - 1], rows[n - 1]), dist[n - 1])
    ensures Examples(rows, dist, n) == Examples(rows, dist, n - 1) + if Hit(rows[n - 1]) then [e] else []
    ensures !Hit(rows[n - 1]) ==> Examples(rows, dist, n) == Examples(rows, dist, n - 1)
  {
  }

  lemma TrainsNext(rows: seq<Row>, dist: seq<Option<nat>>, n: nat, at: seq<nat>) returns (at': seq<nat>)
    requires n < |rows| == |dist| && Trains(rows, dist, n, at, Examples(rows, dist, n))
    ensures Trains(rows, dist, n + 1, at', Examples(rows, dist, n + 1))
  {
    var e := Example(Features(rows[..n], rows[n]), dist[n]);
    AreHitsSnoc(rows, n, at);
    ExamplesStep(rows, dist, n + 1, e);
    if Hit(rows[n]) {
      FeaturesDescribe(rows, n);
      TrainsSnoc(rows, dist, n, at, Examples(rows, dist, n), e);
      at' := at + [n];
    } else {
      at' := at;
    }
  }

  lemma ExamplesTrain(rows: seq<Row>, dist: seq<Option<nat>>, n: nat) returns (at: seq<nat>)
    requires n <= |rows| == |dist|
    ensures Trains(rows, dist, n, at, Examples(rows, dist, n))
  {
    at := [];
    var i := 0;
    while i < n
      invariant i <= n && Trains(rows, dist, i, at, Examples(rows, dist, i))
    {
      at := TrainsNext(rows, dist, i, at);
      i := i + 1;
    }
  }

  /** One pass from the first row to the last. */
  method BuildExamples(rows: seq<Row>, nextDist: array<Option<nat>>) returns (examples: seq<Example>)
    requires nextDist.Length == |rows|
    ensures examples == Examples(rows, nextDist[..], |rows|)
    ensures exists at :: Trains(rows, nextDist[..], |rows|, at, examples)
  {
    var freq: map<Key, nat>, lastAccess: map<Key, int>, sizes: map<Key, int> := map[], map[], map[];
    examples := [];
    for i := 0 to |rows|
      invariant Tracks(rows[..i], freq, lastAccess, sizes)
      invariant examples == Examples(rows, nextDist[..], i)
    {
      var row := rows[i];
      var key := row.key;
      ghost var freq0, lastAccess0, sizes0 := freq, lastAccess, sizes;
      assert rows[..i + 1] == rows[..i] + [row];
      assert TracksKey(rows[..i], freq, lastAccess, sizes, key);
      if row.operation == "SET" {
        sizes := sizes[key := row.sizeBytes];
        freq := freq[key := GetOr(freq, key, 0)];
        lastAccess := lastAccess[key := row.timestamp];
      } else if row.operation == "GET" && row.hit == 1 {
        freq := freq[key := GetOr(freq, key, 0) + 1];
        var prev := GetOr(lastAccess, key, row.timestamp);
        examples := examples + [Example(Causal(key, freq[key], row.timestamp - prev, GetOr(sizes, key, 0),
                                               row.ttlRemaining, row.cacheUsed), nextDist[i])];
        lastAccess := lastAccess[key := row.timestamp];
      }
      TracksSnoc(rows[..i], row, freq0, lastAccess0, sizes0, freq, lastAccess, sizes);
    }
    ghost var at := ExamplesTrain(rows, nextDist[..], |rows|);
  }

  /** The examples of the first n rows have the same features in any two logs that agree on those
      rows, however the logs go on; only their distances may differ. */
  lemma {:induction false} FeaturesAreCausal(rows: seq<Row>, dist: seq<Option<nat>>,
                                             rows': seq<Row>, dist': seq<Option<nat>>, n: nat)
    requires n <= |rows| == |dist| && n <= |rows'| == |dist'| && rows[..n] == rows'[..n]
    ensures |Examples(rows, dist, n)| == |Examples(rows', dist', n)|
    ensures forall e :: 0 <= e < |Examples(rows, dist, n)| ==>
              Examples(rows, dist, n)[e].features == Examples(rows', dist', n)[e].features
  {
    if n > 0 {
      assert rows[n - 1] == rows[..n][n - 1] == rows'[..n][n - 1];
      assert rows[..n - 1] == rows[..n][..n - 1] == rows'[..n][..n - 1] == rows'[..n - 1];
      FeaturesAreCausal(rows, dist, rows', dist', n - 1);
    }
  }

  function OfKey(examples: seq<Example>, key: Key): seq<Example>
    decreases |examples|
  {
    if examples == [] then []
    else
      OfKey(examples[..|examples| - 1], key) +
      if examples[|examples| - 1].features.key == key then [examples[|examples| - 1]] else []
  }

  lemma OfKeySnoc(examples: seq<Example>, e: Example, key: Key)
    ensures OfKey(examples + [e], key) == OfKey(examples, key) + if e.features.key == key then [e] else []
  {
    assert (examples + [e])[..|examples|] == examples;
  }

  /** n examples, with frequencies 1 to n. */
  ghost predicate Counted(examples: seq<Example>, n: nat) {
    |examples| == n && forall k :: 0 <= k < n ==> examples[k].features.freq == k + 1
  }

  lemma CountedSnoc(examples: seq<Example>, n: nat, e: Example, key: Key)
    requires Counted(OfKey(examples, key), n) && (e.features.key == key ==> e.features.freq == n + 1)
    ensures Counted(OfKey(examples + [e], key), if e.features.key == key then n + 1 else n)
  {
    OfKeySnoc(examples, e, key);
  }

  /** Every example is a GET that hit, and the k-th example of a key has frequency k: nothing that
      missed or was written is counted. */
  lemma {:induction false} FrequencyCounts(rows: seq<Row>, dist: seq<Option<nat>>, n: nat, key: Key)
    requires n <= |rows| == |dist|
    ensures Counted(OfKey(Examples(rows, dist, n), key), Hits(rows[..n], key))
  {
    if n > 0 {
      var e := Example(Features(rows[..n - 1], rows[n - 1]), dist[n - 1]);
      FrequencyCounts(rows, dist, n - 1, key);
      HitsStep(rows, n, key);
      ExamplesStep(rows, dist, n, e);
      if Hit(rows[n - 1]) {
        CountedSnoc(Examples(rows, dist, n - 1), Hits(rows[..n - 1], key), e, key);
      }
    }
  }
}
