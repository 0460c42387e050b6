/** eviction/lru.go: one recency list plus a map from keys to list handles. */
module LruPolicy {
  import opened Prelude
  import opened PolicyHistory
  import opened ContainerList

  datatype LruEntry = LruEntry(key: Key)

  /** The map sends each key to its own handle, and the list holds these handles and no others. */
  ghost predicate Mapped(items: map<Key, Element<LruEntry>>, es: seq<Element<LruEntry>>) {
    && (forall k :: k in items ==> items[k] in es && items[k].Value.key == k)
    && (forall i :: 0 <= i < |es| ==> es[i].Value.key in items && items[es[i].Value.key] == es[i])
  }

  /** Decreasing order of last touch. */
  ghost predicate Ordered(es: seq<Element<LruEntry>>, m: map<Key, Rank>) {
    && (forall i :: 0 <= i < |es| ==> es[i].Value.key in m)
    && (forall i, j :: 0 <= i < j < |es| ==> m[es[j].Value.key].last < m[es[i].Value.key].last)
  }

  /** The list holds exactly the tracked keys, in decreasing order of last touch, and the map
      sends each of them to its own handle. */
  ghost predicate Indexes(items: map<Key, Element<LruEntry>>, es: seq<Element<LruEntry>>, m: map<Key, Rank>) {
    items.Keys == m.Keys && Mapped(items, es) && Ordered(es, m)
  }

  lemma RemovedMapped(items: map<Key, Element<LruEntry>>, es: seq<Element<LruEntry>>, k: Key)
    requires Mapped(items, es) && k in items
    requires forall i, j :: 0 <= i < j < |es| ==> es[i].Value.key != es[j].Value.key
    ensures Mapped(items - {k}, Without(es, items[k]))
  {
    WithoutAt(es, items[k]);
    WithoutMembers(es, items[k]);
    var i, t := IndexOf(es, items[k]), Without(es, items[k]);
    forall j | 0 <= j < |t| ensures t[j].Value.key in items && t[j].Value.key != k && items[t[j].Value.key] == t[j] {
      assert t[j] == es[if j < i then j else j + 1];
    }
  }

  lemma RemovedOrdered(es: seq<Element<LruEntry>>, m: map<Key, Rank>, e: Element<LruEntry>)
    requires Ordered(es, m) && e in es
    ensures Ordered(Without(es, e), m - {e.Value.key})
  {
    WithoutAt(es, e);
    var i, t := IndexOf(es, e), Without(es, e);
    forall j | 0 <= j < |t| ensures t[j].Value.key in m && t[j].Value.key != e.Value.key {
      var n := if j < i then j else j + 1;
      assert t[j] == es[n];
      assert n < i ==> m[es[i].Value.key].last < m[es[n].Value.key].last;
    }
  }

  lemma Removed(items: map<Key, Element<LruEntry>>, es: seq<Element<LruEntry>>, m: map<Key, Rank>, k: Key)
    requires Indexes(items, es, m) && k in items
    ensures Indexes(items - {k}, Without(es, items[k]), m - {k})
  {
    forall i, j | 0 <= i < j < |es| ensures es[i].Value.key != es[j].Value.key {
      assert m[es[j].Value.key].last < m[es[i].Value.key].last;
    }
    RemovedMapped(items, es, k);
    RemovedOrdered(es, m, items[k]);
  }

  lemma PushedMapped(items: map<Key, Element<LruEntry>>, es: seq<Element<LruEntry>>, e: Element<LruEntry>)
    requires Mapped(items, es) && e.Value.key !in items
    ensures Mapped(items[e.Value.key := e], [e] + es)
  {
    var t := [e] + es;
    forall j | j in items ensures items[j] in t {
      var i :| 0 <= i < |es| && es[i] == items[j];
      assert t[i + 1] == items[j];
    }
    assert t[0] == e;
  }

  lemma PushedOrdered(es: seq<Element<LruEntry>>, m: map<Key, Rank>, e: Element<LruEntry>, r: Rank)
    requires Ordered(es, m) && e.Value.key !in m && forall k :: k in m ==> m[k].last < r.last
    ensures Ordered([e] + es, m[e.Value.key := r])
  {
    var t := [e] + es;
    assert forall i :: 0 < i < |t| ==> t[i] == es[i - 1] && t[i].Value.key != e.Value.key;
  }

  lemma Pushed(items: map<Key, Element<LruEntry>>, es: seq<Element<LruEntry>>, m: map<Key, Rank>,
               e: Element<LruEntry>, r: Rank)
    requires Indexes(items, es, m) && e.Value.key !in items
    requires forall k :: k in m ==> m[k].last < r.last
    ensures Indexes(items[e.Value.key := e], [e] + es, m[e.Value.key := r])
  {
    PushedMapped(items, es, e);
    PushedOrdered(es, m, e, r);
  }

  lemma Replaced<K, V>(m: map<K, V>, k: K, v: V)
    ensures (m - {k})[k := v] == m[k := v]
    ensures k in m && m[k] == v ==> m[k := v] == m
  {
  }

  lemma {:induction false} Moved(items: map<Key, Element<LruEntry>>, es: seq<Element<LruEntry>>, m: map<Key, Rank>,
                                 k: Key, r: Rank)
    requires Indexes(items, es, m) && k in items
    requires forall j :: j in m ==> m[j].last < r.last
    ensures Indexes(items, [items[k]] + Without(es, items[k]), m[k := r])
  {
    Removed(items, es, m, k);
    Pushed(items - {k}, Without(es, items[k]), m - {k}, items[k], r);
    Replaced(items, k, items[k]);
    Replaced(m, k, r);
  }

  class LRU {
    var list: seq<Element<LruEntry>>  // front = most recent
    var items: map<Key, Element<LruEntry>>
    ghost var hist: seq<Event>

    ghost predicate Valid()
      reads this
    {
      Indexes(items, list, Ranks(hist))
    }

    constructor ()
      ensures Valid() && hist == []
    {
      list := [];
      items := map[];
      hist := [];
    }

    method OnGet(key: Key)
      requires Valid()
      modifies this
      ensures Valid() && hist == old(hist) + [Got(key)]
    {
      RanksDistinct(hist);
      RanksSnoc(hist, Got(key));
      if key in items {
        Moved(items, list, Ranks(hist), key, Rank(Ranks(hist)[key].touches + 1, |hist|));
        Update([items[key]] + Without(list, items[key]), items, Got(key));
      } else {
        Update(list, items, Got(key));
      }
    }

    method OnSet(key: Key)
      requires Valid()
      modifies this
      ensures Valid() && hist == old(hist) + [Stored(key)]
    {
      RanksDistinct(hist);
      RanksSnoc(hist, Stored(key));
      if key in items {
        Moved(items, list, Ranks(hist), key, Rank(Ranks(hist)[key].touches + 1, |hist|));
        Update([items[key]] + Without(list, items[key]), items, Stored(key));
      } else {
        var el := new Element(LruEntry(key));
        Pushed(items, list, Ranks(hist), el, Rank(1, |hist|));
        Update([el] + list, items[key := el], Stored(key));
      }
    }

    method OnDelete(key: Key)
      requires Valid()
      modifies this
      ensures Valid() && hist == old(hist) + [Dropped(key)]
    {
      RanksSnoc(hist, Dropped(key));
      if key in items {
        Removed(items, list, Ranks(hist), key);
        Update(Without(list, items[key]), items - {key}, Dropped(key));
      } else {
        assert Ranks(hist) - {key} == Ranks(hist);
        Update(list, items, Dropped(key));
      }
    }

    method Update(list: seq<Element<LruEntry>>, items: map<Key, Element<LruEntry>>, ghost ev: Event)
      requires Indexes(items, list, Ranks(hist + [ev]))
      modifies this
      ensures Valid() && this.list == list && this.items == items && hist == old(hist) + [ev]
    {
      this.list, this.items := list, items;
      hist := hist + [ev];
    }

    /** The least recently touched tracked key; none exactly when nothing is tracked. */
    method ChooseEviction() returns (r: Option<Key>)
      requires Valid()
      ensures r == Victim(Lru, hist)
    {
      if list == [] {
        return None;
      }
      var el := list[|list| - 1];
      ghost var m := Ranks(hist);
      assert IsVictim(Lru, m, el.Value.key);
      VictimUnique(Lru, m, el.Value.key, Victim(Lru, hist).value);
      return Some(el.Value.key);
    }
  }
}
