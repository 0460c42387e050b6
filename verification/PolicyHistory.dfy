/**
  What an eviction policy is asked to remember, said without any data structure.
  A policy is fed three kinds of event (eviction/policy.go). Everything LFU and LRU
  promise is a statement about the sequence of events seen so far.
 */
module PolicyHistory {
  import opened Prelude

  type Key = string

  datatype Event =
    | Got(key: Key)      // OnGet
    | Stored(key: Key)   // OnSet
    | Dropped(key: Key)  // OnDelete

  datatype Kind = Lfu | Lru

  /** How often a tracked key was touched since it was inserted, and when it was touched last. */
  datatype Rank = Rank(touches: nat, last: nat)

  function Advance(m: map<Key, Rank>, at: nat, e: Event): map<Key, Rank> {
    match e
    case Got(k) => if k in m then m[k := Rank(m[k].touches + 1, at)] else m
    case Stored(k) => m[k := Rank(if k in m then m[k].touches + 1 else 1, at)]
    case Dropped(k) => m - {k}
  }

  function Ranks(h: seq<Event>): map<Key, Rank>
    decreases |h|, 1
  {
    if h == [] then map[] else Latest(h)
  }

  /** Apart from Ranks, so that proofs which only carry ranks along do not unfold the history. */
  function Latest(h: seq<Event>): map<Key, Rank>
    requires h != []
    decreases |h|, 0
  {
    Advance(Ranks(h[..|h| - 1]), |h| - 1, h[|h| - 1])
  }

  lemma RanksSnoc(h: seq<Event>, e: Event)
    ensures Ranks(h + [e]) == Advance(Ranks(h), |h|, e)
  {
    assert (h + [e])[..|h|] == h;
    assert Ranks(h + [e]) == Latest(h + [e]);
  }

  // ----- the same ranks, defined by quantifying over the history

  predicate Touches(e: Event, k: Key) {
    e == Got(k) || e == Stored(k)
  }

  /** Position b inserted the key: it is a store, and the key is neither stored between its last
      drop and b nor dropped after b. */
  ghost predicate IsBirth(h: seq<Event>, k: Key, b: nat) {
    && b < |h| && h[b] == Stored(k)
    && (forall j :: b < j < |h| ==> h[j] != Dropped(k))
    && (forall i :: 0 <= i < b && h[i] == Stored(k) ==> exists j :: i < j < b && h[j] == Dropped(k))
  }

  ghost predicate IsLastTouch(h: seq<Event>, k: Key, p: nat) {
    p < |h| && Touches(h[p], k) && forall j :: p < j < |h| ==> !Touches(h[j], k)
  }

  function CountTouches(h: seq<Event>, from: nat, k: Key): nat
    requires from <= |h|
    decreases |h|
  {
    if |h| == from then 0
    else CountTouches(h[..|h| - 1], from, k) + if Touches(h[|h| - 1], k) then 1 else 0
  }

  /** One more event: a birth stays one unless the key is dropped. */
  lemma BirthLasts(h: seq<Event>, k: Key, b: nat)
    requires h != [] && IsBirth(h[..|h| - 1], k, b) && h[|h| - 1] != Dropped(k)
    ensures IsBirth(h, k, b)
  {
    var g := h[..|h| - 1];
    forall i | 0 <= i < b && h[i] == Stored(k)
      ensures exists j :: i < j < b && h[j] == Dropped(k)
    {
      assert g[i] == Stored(k);
      var j :| i < j < b && g[j] == Dropped(k);
      assert h[j] == g[j];
    }
  }

  lemma BirthWas(h: seq<Event>, k: Key, b: nat)
    requires h != [] && IsBirth(h, k, b) && b < |h| - 1
    ensures IsBirth(h[..|h| - 1], k, b) && h[|h| - 1] != Dropped(k)
  {
    var g := h[..|h| - 1];
    forall i | 0 <= i < b && g[i] == Stored(k)
      ensures exists j :: i < j < b && g[j] == Dropped(k)
    {
      assert h[i] == Stored(k);
      var j :| i < j < b && h[j] == Dropped(k);
      assert h[j] == g[j];
    }
  }

  /** Every store of k so far has been followed by a drop. */
  ghost predicate AllDropped(h: seq<Event>, k: Key) {
    forall i :: 0 <= i < |h| && h[i] == Stored(k) ==> exists j :: i < j < |h| && h[j] == Dropped(k)
  }

  lemma BornNow(h: seq<Event>, k: Key)
    requires h != [] && h[|h| - 1] == Stored(k)
    ensures IsBirth(h, k, |h| - 1) <==> AllDropped(h[..|h| - 1], k)
  {
    var n, g := |h| - 1, h[..|h| - 1];
    if AllDropped(g, k) {
      forall i | 0 <= i < n && h[i] == Stored(k)
        ensures exists j :: i < j < n && h[j] == Dropped(k)
      {
        assert g[i] == Stored(k);
        var j :| i < j < n && g[j] == Dropped(k);
        assert h[j] == g[j];
      }
    }
    if IsBirth(h, k, n) {
      forall i | 0 <= i < n && g[i] == Stored(k)
        ensures exists j :: i < j < n && g[j] == Dropped(k)
      {
        assert h[i] == Stored(k);
        var j :| i < j < n && h[j] == Dropped(k);
        assert h[j] == g[j];
      }
    }
  }

  lemma AllDroppedSnoc(h: seq<Event>, k: Key)
    requires h != []
    ensures AllDropped(h, k) <==> h[|h| - 1] == Dropped(k) || (h[|h| - 1] != Stored(k) && AllDropped(h[..|h| - 1], k))
  {
    var n, g := |h| - 1, h[..|h| - 1];
    if AllDropped(h, k) && h[n] != Dropped(k) {
      forall i | 0 <= i < n && g[i] == Stored(k)
        ensures exists j :: i < j < n && g[j] == Dropped(k)
      {
        assert h[i] == Stored(k);
        var j :| i < j < |h| && h[j] == Dropped(k);
        assert h[j] == g[j];
      }
    }
    if h[n] != Stored(k) && AllDropped(g, k) {
      forall i | 0 <= i < |h| && h[i] == Stored(k)
        ensures exists j :: i < j < |h| && h[j] == Dropped(k)
      {
        assert g[i] == Stored(k);
        var j :| i < j < n && g[j] == Dropped(k);
        assert h[j] == g[j];
      }
    }
  }

  /** A key is tracked exactly when some store of it is followed by no drop of it. */
  lemma {:induction false} TrackedMeaning(h: seq<Event>, k: Key)
    ensures k in Ranks(h) <==> !AllDropped(h, k)
    decreases |h|
  {
    if h != [] {
      TrackedMeaning(h[..|h| - 1], k);
      AllDroppedSnoc(h, k);
      assert Ranks(h) == Latest(h);
    }
  }

  /** Its rank is the number of touches from the inserting store on, and the position of the last
      touch. */
  lemma {:induction false} RanksMeaning(h: seq<Event>, k: Key)
    ensures k in Ranks(h) <==> exists b :: IsBirth(h, k, b)
    ensures k in Ranks(h) <==>
            exists i :: 0 <= i < |h| && h[i] == Stored(k) && forall j :: i < j < |h| ==> h[j] != Dropped(k)
    ensures forall b: nat :: IsBirth(h, k, b) && k in Ranks(h) ==>
              Ranks(h)[k].touches == CountTouches(h, b, k) >= 1
    ensures k in Ranks(h) ==> IsLastTouch(h, k, Ranks(h)[k].last)
    decreases |h|
  {
    TrackedMeaning(h, k);
    if h != [] {
      var n, g := |h| - 1, h[..|h| - 1];
      assert Ranks(h) == Latest(h);
      RanksMeaning(g, k);
      TrackedMeaning(g, k);
      if k in Ranks(g) {
        var b :| IsBirth(g, k, b);
        if h[n] != Dropped(k) {
          BirthLasts(h, k, b);
        }
      } else if h[n] == Stored(k) {
        BornNow(h, k);
      }
      forall b: nat | IsBirth(h, k, b) && k in Ranks(h)
        ensures Ranks(h)[k].touches == CountTouches(h, b, k) >= 1
      {
        CountsFromBirth(h, g, k, b);
      }
      LastTouchSnoc(h, k);
    }
  }

  lemma CountsFromBirth(h: seq<Event>, g: seq<Event>, k: Key, b: nat)
    requires h != [] && g == h[..|h| - 1] && IsBirth(h, k, b) && k in Ranks(h)
    requires forall c: nat :: IsBirth(g, k, c) && k in Ranks(g) ==> Ranks(g)[k].touches == CountTouches(g, c, k) >= 1
    ensures Ranks(h)[k].touches == CountTouches(h, b, k) >= 1
  {
    var n := |h| - 1;
    assert Ranks(h) == Latest(h);
    TrackedMeaning(g, k);
    if b < n {
      BirthWas(h, k, b);
      assert g[b] == Stored(k);
    } else {
      BornNow(h, k);
      assert CountTouches(h[..n], n, k) == 0;
    }
  }

  lemma {:induction false} LastTouchSnoc(h: seq<Event>, k: Key)
    requires h != [] && (k in Ranks(h[..|h| - 1]) ==> IsLastTouch(h[..|h| - 1], k, Ranks(h[..|h| - 1])[k].last))
    ensures k in Ranks(h) ==> IsLastTouch(h, k, Ranks(h)[k].last)
  {
    var g := h[..|h| - 1];
    assert Ranks(h) == Latest(h);
    assert forall j :: 0 <= j < |g| ==> h[j] == g[j];
  }

  ghost predicate Distinct(m: map<Key, Rank>) {
    forall j, k :: j in m && k in m && j != k ==> m[j].last != m[k].last
  }

  /** Two keys are never touched at the same position, and no rank is from the future. */
  lemma {:induction false} RanksDistinct(h: seq<Event>)
    ensures Distinct(Ranks(h))
    ensures forall k :: k in Ranks(h) ==> Ranks(h)[k].last < |h| && Ranks(h)[k].touches >= 1
    decreases |h|
  {
    if h != [] {
      RanksDistinct(h[..|h| - 1]);
      assert Ranks(h) == Latest(h);
    }
  }

  // ----- the victim

  predicate Before(kind: Kind, a: Rank, b: Rank) {
    match kind
    case Lfu => a.touches < b.touches || (a.touches == b.touches && a.last < b.last)
    case Lru => a.last < b.last
  }

  ghost predicate IsVictim(kind: Kind, m: map<Key, Rank>, k: Key) {
    k in m && forall j :: j in m && j != k ==> Before(kind, m[k], m[j])
  }

  lemma {:induction false} VictimExists(kind: Kind, m: map<Key, Rank>)
    requires m != map[] && Distinct(m)
    ensures exists k :: IsVictim(kind, m, k)
    decreases |m|
  {
    var a :| a in m;
    var rest := m - {a};
    if rest == map[] {
      assert forall j :: j in m && j != a ==> j in rest;
      assert IsVictim(kind, m, a);
    } else {
      assert |rest| < |m| by {
        assert m == rest[a := m[a]];
      }
      VictimExists(kind, rest);
      var k :| IsVictim(kind, rest, k);
      assert forall j :: j in m && j != a ==> j in rest;
      if Before(kind, m[k], m[a]) {
        assert IsVictim(kind, m, k);
      } else {
        assert IsVictim(kind, m, a);
      }
    }
  }

  lemma VictimUnique(kind: Kind, m: map<Key, Rank>, j: Key, k: Key)
    requires IsVictim(kind, m, j) && IsVictim(kind, m, k)
    ensures j == k
  {
  }

  /** The key a policy of the given kind must name next; none exactly when nothing is tracked. */
  ghost function Victim(kind: Kind, h: seq<Event>): (r: Option<Key>)
    ensures r.None? <==> Ranks(h) == map[]
    ensures r.Some? ==> IsVictim(kind, Ranks(h), r.value)
  {
    if Ranks(h) == map[] then None
    else
      RanksDistinct(h);
      VictimExists(kind, Ranks(h));
      var k :| IsVictim(kind, Ranks(h), k);
      Some(k)
  }
}
