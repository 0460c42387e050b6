/** eviction/lfu.go: one list of nodes per frequency, and a cached minimum frequency. */
module LfuPolicy {
  import opened Prelude
  import opened PolicyHistory
  import opened ContainerList

  class LfuNode {
    const key: Key
    var freq: nat
    var elem: Element?<LfuNode>

    constructor (key: Key)
      ensures this.key == key && freq == 1 && elem == null
    {
      this.key := key;
      freq := 1;
      elem := null;
    }

    method MoveTo(freq: nat, elem: Element<LfuNode>)
      modifies this
      ensures this.freq == freq && this.elem == elem
    {
      this.freq, this.elem := freq, elem;
    }
  }

  type Handle = Element<LfuNode>
  type Buckets = map<nat, seq<Handle>>

  // ----- what the lists say, whatever the nodes currently hold

  ghost predicate Placed(b: Buckets, m: map<Key, Rank>, k: Key) {
    k in m ==> m[k].touches in b && exists e :: e in b[m[k].touches] && e.Value.key == k
  }

  /** A bucket is never empty, holds only keys of its own frequency, and runs from the latest to
      the earliest last touch. */
  ghost predicate InOrder(m: map<Key, Rank>, f: nat, es: seq<Handle>) {
    && es != [] && f >= 1
    && (forall i :: 0 <= i < |es| ==> es[i].Value.key in m && m[es[i].Value.key].touches == f)
    && (forall i, j :: 0 <= i < j < |es| ==> m[es[j].Value.key].last < m[es[i].Value.key].last)
  }

  ghost predicate FrequencyOk(b: Buckets, m: map<Key, Rank>, f: nat) {
    f in b ==> InOrder(m, f, b[f])
  }

  /** Every tracked key sits in the bucket of its touch count, and every bucket is in order. The
      triggers keep the two facts folded where they are only carried along. */
  ghost predicate Bucketed(b: Buckets, m: map<Key, Rank>) {
    && (forall k {:trigger Placed(b, m, k)} :: Placed(b, m, k))
    && (forall f {:trigger FrequencyOk(b, m, f)} :: FrequencyOk(b, m, f))
  }

  ghost predicate IsMin(b: Buckets, f: nat) {
    if b == map[] then f == 0 else f in b && forall g :: g in b ==> f <= g
  }

  function Shrink(b: Buckets, f: nat, e: Handle): Buckets {
    if f !in b then b
    else if Without(b[f], e) == [] then b - {f}
    else b[f := Without(b[f], e)]
  }

  function Grow(b: Buckets, f: nat, e: Handle): Buckets {
    b[f := [e] + if f in b then b[f] else []]
  }

  lemma InOrderWithout(m: map<Key, Rank>, f: nat, es: seq<Handle>, e: Handle)
    requires InOrder(m, f, es) && e in es
    ensures Without(es, e) != [] ==> InOrder(m - {e.Value.key}, f, Without(es, e))
    ensures forall x :: x in es ==> x == e || (x in Without(es, e) && x.Value.key != e.Value.key)
    ensures forall x :: x in Without(es, e) ==> x in es && x.Value.key != e.Value.key
  {
    WithoutAt(es, e);
    WithoutMembers(es, e);
    var p, t := IndexOf(es, e), Without(es, e);
    forall n | 0 <= n < |es| && n != p ensures es[n].Value.key != e.Value.key {
      assert if n < p then m[e.Value.key].last < m[es[n].Value.key].last
             else m[es[n].Value.key].last < m[e.Value.key].last;
    }
  }

  lemma TakenOut(b: Buckets, m: map<Key, Rank>, f: nat, e: Handle)
    requires Bucketed(b, m) && f in b && e in b[f]
    ensures Bucketed(Shrink(b, f, e), m - {e.Value.key})
    ensures f in Shrink(b, f, e) ==> forall x :: x in Shrink(b, f, e)[f] ==> x in b[f] && x != e
  {
    var b', k := Shrink(b, f, e), e.Value.key;
    assert FrequencyOk(b, m, f);
    InOrderWithout(m, f, b[f], e);
    forall g: nat ensures FrequencyOk(b', m - {k}, g) {
      assert FrequencyOk(b, m, g);
      assert g != f && g in b ==> forall i :: 0 <= i < |b[g]| ==> b[g][i].Value.key != k;
    }
    forall j ensures Placed(b', m - {k}, j) {
      assert Placed(b, m, j);
    }
  }

  lemma PutIn(b: Buckets, m: map<Key, Rank>, e: Handle, r: Rank)
    requires Bucketed(b, m) && e.Value.key !in m && r.touches >= 1
    requires forall j :: j in m ==> m[j].last < r.last
    ensures Bucketed(Grow(b, r.touches, e), m[e.Value.key := r])
  {
    var k, b', m' := e.Value.key, Grow(b, r.touches, e), m[e.Value.key := r];
    forall g: nat ensures FrequencyOk(b', m', g) {
      assert FrequencyOk(b, m, g);
    }
    forall j ensures Placed(b', m', j) {
      assert Placed(b, m, j);
      assert b'[r.touches][0] == e;
    }
  }

  lemma LastOfMinIsVictim(b: Buckets, m: map<Key, Rank>, f: nat)
    requires Bucketed(b, m) && IsMin(b, f) && f in b && b[f] != []
    ensures IsVictim(Lfu, m, b[f][|b[f]| - 1].Value.key)
  {
    assert FrequencyOk(b, m, f);
    var k := b[f][|b[f]| - 1].Value.key;
    forall j | j in m && j != k ensures Before(Lfu, m[k], m[j]) {
      assert Placed(b, m, j);
    }
  }

  lemma MinAfterShrink(b: Buckets, f: nat, e: Handle, min: nat)
    requires IsMin(b, min) && f in b && (f in Shrink(b, f, e) || f != min)
    ensures IsMin(Shrink(b, f, e), min)
  {
    assert min in Shrink(b, f, e);
  }

  lemma MinAfterMove(b: Buckets, f: nat, e: Handle, e': Handle, min: nat)
    requires IsMin(b, min) && f in b
    ensures IsMin(Grow(Shrink(b, f, e), f + 1, e'), if f !in Shrink(b, f, e) && f == min then min + 1 else min)
  {
    assert f + 1 in Grow(Shrink(b, f, e), f + 1, e');
    if f in Shrink(b, f, e) || f != min {
      assert min in Shrink(b, f, e);
    }
  }

  // ----- what one event does to the buckets

  /** Every entry of b' that is not e' at frequency f was in b and belongs to another key. */
  ghost predicate Refiled(b: Buckets, b': Buckets, f: nat, e': Handle) {
    forall g, x :: g in b' && x in b'[g] ==>
      if x.Value.key == e'.Value.key then x == e' && g == f else g in b && x in b[g]
  }

  lemma Moved(b: Buckets, m: map<Key, Rank>, f: nat, e: Handle, e': Handle, at: nat)
    requires Bucketed(b, m) && f in b && e in b[f] && e.Value == e'.Value
    requires forall j :: j in m ==> m[j].last < at
    ensures Bucketed(Grow(Shrink(b, f, e), f + 1, e'), m[e.Value.key := Rank(f + 1, at)])
  {
    var k := e.Value.key;
    TakenOut(b, m, f, e);
    PutIn(Shrink(b, f, e), m - {k}, e', Rank(f + 1, at));
    assert (m - {k})[k := Rank(f + 1, at)] == m[k := Rank(f + 1, at)];
  }

  lemma RefiledBy(b: Buckets, m: map<Key, Rank>, f: nat, e: Handle, e': Handle)
    requires f in b && e in b[f] && e.Value == e'.Value && Bucketed(b, m)
    ensures Refiled(b, Grow(Shrink(b, f, e), f + 1, e'), f + 1, e')
  {
    var k, b1 := e.Value.key, Shrink(b, f, e);
    TakenOut(b, m, f, e);
    forall g: nat, x: Handle | g in b1 && x in b1[g] ensures x.Value.key != k && g in b && x in b[g] {
      assert FrequencyOk(b1, m - {k}, g);
    }
  }

  /** The list surgery of incrementFreq: out of bucket f, to the front of bucket f + 1. */
  method Promote(b: Buckets, min: nat, f: nat, e: Handle, e': Handle,
                 ghost h: seq<Event>, ghost m: map<Key, Rank>, ghost ev: Event)
    returns (b': Buckets, min': nat)
    requires Bucketed(b, m) && IsMin(b, min) && m == Ranks(h)
    requires f in b && e in b[f] && e.Value == e'.Value && Touches(ev, e.Value.key)
    ensures e.Value.key in m && m[e.Value.key].touches == f
    ensures Ranks(h + [ev]) == m[e.Value.key := Rank(f + 1, |h|)]
    ensures Bucketed(b', m[e.Value.key := Rank(f + 1, |h|)]) && IsMin(b', min')
    ensures Refiled(b, b', f + 1, e')
  {
    assert FrequencyOk(b, m, f);
    RanksSnoc(h, ev);
    RanksDistinct(h);
    Moved(b, m, f, e, e', |h|);
    var b1 := Shrink(b, f, e);
    min' := if f !in b1 && f == min then min + 1 else min;
    b' := Grow(b1, f + 1, e');
    MinAfterMove(b, f, e, e', min);
    RefiledBy(b, m, f, e, e');
  }

  /** The list surgery of OnSet for a new key: to the front of bucket 1. */
  method Add(b: Buckets, e: Handle, ghost h: seq<Event>, ghost m: map<Key, Rank>) returns (b': Buckets)
    requires Bucketed(b, m) && m == Ranks(h) && e.Value.key !in m
    ensures Ranks(h + [Stored(e.Value.key)]) == m[e.Value.key := Rank(1, |h|)]
    ensures Bucketed(b', m[e.Value.key := Rank(1, |h|)]) && IsMin(b', 1)
    ensures Refiled(b, b', 1, e)
  {
    RanksSnoc(h, Stored(e.Value.key));
    RanksDistinct(h);
    PutIn(b, m, e, Rank(1, |h|));
    b' := Grow(b, 1, e);
    assert FrequencyOk(b, m, 0);
    forall g: nat, x: Handle | g in b' && x in b'[g]
      ensures if x.Value.key == e.Value.key then x == e && g == 1 else g in b && x in b[g]
    {
      assert FrequencyOk(b, m, g);
      assert x in [e] || (g in b && x in b[g]);
    }
  }

  /** The list surgery of OnDelete: out of bucket f, recomputing the minimum when f was it. */
  method Discard(b: Buckets, min: nat, f: nat, e: Handle, ghost h: seq<Event>, ghost m: map<Key, Rank>)
    returns (b': Buckets, min': nat)
    requires Bucketed(b, m) && IsMin(b, min) && m == Ranks(h) && f in b && e in b[f]
    ensures Ranks(h + [Dropped(e.Value.key)]) == m - {e.Value.key}
    ensures Bucketed(b', m - {e.Value.key}) && IsMin(b', min')
    ensures forall g, x :: g in b' && x in b'[g] ==> x.Value.key != e.Value.key && g in b && x in b[g]
  {
    ghost var k := e.Value.key;
    RanksSnoc(h, Dropped(k));
    TakenOut(b, m, f, e);
    b' := Shrink(b, f, e);
    min' := min;
    if f == min && f !in b' {
      assert FrequencyOk(b', m - {k}, 0);
      min' := LeastFrequency(b');
    } else {
      MinAfterShrink(b, f, e, min);
    }
    forall g: nat, x: Handle | g in b' && x in b'[g] ensures x.Value.key != k {
      assert FrequencyOk(b', m - {k}, g);
    }
  }

  /** The least bucket number, whatever order the map is walked in. */
  method LeastFrequency(b: Buckets) returns (min: nat)
    requires 0 !in b
    ensures IsMin(b, min)
  {
    min := 0;
    var todo := b.Keys;
    while todo != {}
      invariant todo <= b.Keys
      invariant if todo == b.Keys then min == 0 else min in b && min !in todo
      invariant forall f :: f in b && f !in todo ==> min <= f
      decreases todo
    {
      var f :| f in todo;
      todo := todo - {f};
      if min == 0 || f < min {
        min := f;
      }
    }
  }

  class LFU {
    var items: map<Key, LfuNode>
    var freqList: Buckets
    var minFreq: nat
    ghost var hist: seq<Event>
    ghost var ranks: map<Key, Rank>
    ghost var Repr: set<object>

    ghost predicate Valid()
      reads this, Repr
    {
      && this in Repr && NodesLinked() && HandlesLinked()
      && Bucketed(freqList, ranks)
      && IsMin(freqList, minFreq)
      && ranks == Ranks(hist)
    }

    ghost predicate NodesLinked()
      reads this, Repr
    {
      && items.Keys == ranks.Keys
      && (forall k :: k in items ==> items[k] in Repr && items[k].key == k && items[k].freq == ranks[k].touches)
    }

    /** Every listed handle is the one its node remembers, in the bucket its node names. */
    ghost predicate HandlesLinked()
      reads this, Repr
    {
      forall f, e :: f in freqList && e in freqList[f] ==> HandleOk(f, e)
    }

    ghost predicate HandleOk(f: nat, e: Handle)
      reads this, Repr
    {
      var k := e.Value.key;
      k in items && items[k] == e.Value && items[k] in Repr && items[k].elem == e && items[k].freq == f
    }

    constructor ()
      ensures Valid() && hist == [] && fresh(Repr)
    {
      items, freqList, minFreq := map[], map[], 0;
      hist, ranks, Repr := [], map[], {this};
    }

    method OnGet(key: Key)
      requires Valid()
      modifies Repr
      ensures Valid() && fresh(Repr - old(Repr))
      ensures hist == old(hist) + [Got(key)]
    {
      if key in items {
        IncrementFreq(items[key], Got(key));
      } else {
        RanksSnoc(hist, Got(key));
        hist := hist + [Got(key)];
      }
    }

    method OnSet(key: Key)
      requires Valid()
      modifies Repr
      ensures Valid() && fresh(Repr - old(Repr))
      ensures hist == old(hist) + [Stored(key)]
    {
      if key in items {
        IncrementFreq(items[key], Stored(key));
      } else {
        Insert(key);
      }
    }

    /** The branch of OnSet for a key that is not tracked. */
    method Insert(key: Key)
      requires Valid() && key !in items
      modifies Repr
      ensures Valid() && fresh(Repr - old(Repr))
      ensures hist == old(hist) + [Stored(key)]
    {
      var node, e := NewNode(key);
      var b := Add(freqList, e, hist, ranks);
      Update(items[key := node], b, 1, Stored(key), {node});
      forall g, x | g in freqList && x in freqList[g] ensures HandleOk(g, x) {
        assert x.Value.key != key ==> x in old(freqList)[g] && old(HandleOk(g, x));
      }
    }

    method OnDelete(key: Key)
      requires Valid()
      modifies Repr
      ensures Valid() && fresh(Repr - old(Repr))
      ensures hist == old(hist) + [Dropped(key)]
    {
      if key !in items {
        RanksSnoc(hist, Dropped(key));
        assert ranks - {key} == ranks;
        Update(items, freqList, minFreq, Dropped(key), {});
        return;
      }
      assert Placed(freqList, ranks, key);
      var b, min := Discard(freqList, minFreq, items[key].freq, items[key].elem, hist, ranks);
      Update(items - {key}, b, min, Dropped(key), {});
    }

    /** The tracked key that is lexicographically least in (touches since insertion, position of
        last touch); none exactly when nothing is tracked. */
    method ChooseEviction() returns (r: Option<Key>)
      requires Valid()
      ensures r == Victim(Lfu, hist)
    {
      if minFreq !in freqList || freqList[minFreq] == [] {
        assert forall k :: k in ranks ==> Placed(freqList, ranks, k);
        assert FrequencyOk(freqList, ranks, minFreq);
        return None;
      }
      var e := freqList[minFreq][|freqList[minFreq]| - 1];
      LastOfMinIsVictim(freqList, ranks, minFreq);
      VictimUnique(Lfu, ranks, e.Value.key, Victim(Lfu, hist).value);
      return Some(e.Value.key);
    }

    method IncrementFreq(node: LfuNode, ghost ev: Event)
      requires Valid() && node.key in items && items[node.key] == node && Touches(ev, node.key)
      modifies Repr
      ensures Valid() && fresh(Repr - old(Repr))
      ensures hist == old(hist) + [ev]
    {
      var e' := new Element(node);
      assert Placed(freqList, ranks, node.key);
      var b, min := Promote(freqList, minFreq, node.freq, node.elem, e', hist, ranks, ev);
      node.MoveTo(node.freq + 1, e');
      Update(items, b, min, ev, {});
      forall g, x | g in freqList && x in freqList[g] ensures HandleOk(g, x) {
        assert x.Value.key != node.key ==> x in old(freqList)[g] && old(HandleOk(g, x));
      }
    }

    static method NewNode(key: Key) returns (node: LfuNode, e: Handle)
      ensures fresh(node) && node.key == key && node.freq == 1 && node.elem == e && e.Value == node
    {
      node := new LfuNode(key);
      e := new Element(node);
      node.MoveTo(1, e);
    }

    method Update(items: map<Key, LfuNode>, freqList: Buckets, minFreq: nat, ghost ev: Event, ghost nodes: set<object>)
      requires ranks == Ranks(hist)
      modifies this
      ensures this.items == items && this.freqList == freqList && this.minFreq == minFreq
      ensures hist == old(hist) + [ev] && ranks == Ranks(hist) && Repr == old(Repr) + nodes
    {
      this.items, this.freqList, this.minFreq := items, freqList, minFreq;
      hist, Repr := hist + [ev], Repr + nodes;
      ranks := Ranks(hist);
    }
  }
}
