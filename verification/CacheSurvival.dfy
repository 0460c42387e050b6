/**
  Exactly when the eviction loop spares a key, and exactly when it frees enough, on a node without the
  ML wrapper, without faults, and with no Get after the loop's first pick: for LFU and LRU alike.
 */
module CacheSurvival {
  import opened PolicyHistory
  import opened CacheSpec
  import opened CacheAccounting
  import opened CacheLocality
  import opened CachePolicyLaws

  // ----- bytes of some of the items

  ghost function Restricted(items: Items, group: set<Key>): Items {
    map j | j in items && j in group :: items[j]
  }

  /** The bytes of the live keys of the group. */
  ghost function Together(items: Items, group: set<Key>): nat {
    Total(Restricted(items, group))
  }

  lemma {:induction false} TotalGrows(a: Items, b: Items)
    requires a.Keys <= b.Keys && forall k :: k in a ==> a[k].size == b[k].size
    ensures Total(a) <= Total(b)
    decreases |a.Keys|
  {
    if a != map[] {
      var k :| k in a;
      TotalWithout(a, k);
      TotalWithout(b, k);
      assert (a - {k}).Keys == a.Keys - {k};
      TotalGrows(a - {k}, b - {k});
    }
  }

  lemma TogetherShrinks(a: Items, b: Items, group: set<Key>)
    requires b.Keys <= a.Keys && forall k :: k in b ==> b[k].size == a[k].size
    ensures Together(b, group) <= Together(a, group)
  {
    TotalGrows(Restricted(b, group), Restricted(a, group));
  }

  lemma TogetherWith(items: Items, group: set<Key>, k: Key, it: Item)
    requires k in group
    ensures Together(items[k := it], group) == it.size + Together(items - {k}, group)
  {
    assert Restricted(items[k := it], group) == Restricted(items, group)[k := it];
    assert Restricted(items - {k}, group) == Restricted(items, group) - {k};
    TotalWith(Restricted(items, group), k, it);
  }

  /** What one key of the group weighs, in two maps of items of the same sizes. */
  lemma TogetherWithout(a: Items, b: Items, group: set<Key>, j: Key)
    requires j in a && j in group && b.Keys == a.Keys - {j} && forall k :: k in b ==> b[k].size == a[k].size
    ensures Together(a, group) == a[j].size + Together(b, group - {j})
    ensures Total(a) == a[j].size + Total(b)
  {
    TotalWithout(Restricted(a, group), j);
    TotalBySize(Restricted(a, group) - {j}, Restricted(b, group - {j}));
    TotalWithout(a, j);
    TotalBySize(a - {j}, b);
  }

  // ----- the keys a policy would evict before k

  ghost function Ahead(kind: Kind, m: map<Key, Rank>, k: Key): set<Key>
    requires k in m
  {
    set j | j in m && j != k && Before(kind, m[j], m[k])
  }

  lemma VictimIsAhead(kind: Kind, m: map<Key, Rank>, j: Key, k: Key)
    requires IsVictim(kind, m, j) && k in m && Distinct(m)
    ensures if j == k then Ahead(kind, m, k) == {} else j in Ahead(kind, m, k)
  {
    forall i | i in m && i != k && IsVictim(kind, m, k) ensures !Before(kind, m[i], m[k]) {
    }
  }

  lemma AheadWithout(kind: Kind, m: map<Key, Rank>, j: Key, k: Key)
    requires k in m && j != k
    ensures Ahead(kind, m - {j}, k) == Ahead(kind, m, k) - {j}
  {
  }

  // ----- a round of the loop

  /** No Get runs in the gap. */
  predicate Quiet(c: Choice) {
    c.gets == []
  }

  ghost predicate QuietFrom(w: World, from: nat) {
    forall t: nat :: t >= from ==> Quiet(w(t))
  }

  ghost predicate QuietIn(w: World, from: nat, to: nat) {
    forall t: nat :: from <= t < to ==> Quiet(w(t))
  }

  lemma QuietYield(w: World, s: St)
    requires QuietFrom(w, s.t)
    ensures Yield(w, s).hist == s.hist && Yield(w, s).items == s.items && Yield(w, s).t == s.t + 1
    ensures QuietFrom(w, s.t + 1)
  {
    assert Quiet(w(s.t));
  }

  lemma QuietDelete(cfg: Config, w: World, s: St, k: Key)
    requires QuietFrom(w, s.t) && Faultless(cfg, w) && k in s.items
    ensures var d := DeleteLocked(cfg, w, s, k).0;
            Ranks(d.hist) == Ranks(s.hist) - {k} && d.t == s.t + 2 && QuietFrom(w, d.t)
  {
    var a := Append(cfg, w, s, DeleteEntry(k)).0;
    assert Sure(cfg, w(s.t));
    QuietYield(w, s);
    QuietYield(w, s.(log := s.log + [DeleteEntry(k)]));
    QuietYield(w, Remove(a, k));
    RanksSnoc(s.hist, Dropped(k));
  }

  /** The ranks a round picks by. */
  ghost function AtPick(w: World, s: St): map<Key, Rank> {
    Ranks(Yield(w, s).hist)
  }

  /** One round takes the least-ranked key off the ranks, the items and the bytes. */
  lemma SurvivalRound(cfg: Config, w: World, s: St, need: int, count: nat, attempted: set<Key>)
    returns (j: Key, d: St)
    requires QuietFrom(w, s.t + 1) && Calm(cfg, w, s, attempted)
    requires count < MAX_EVICTIONS && !Roomy(cfg, s, need) && s.items != map[]
    ensures IsVictim(cfg.kind, AtPick(w, s), j) && j in s.items
    ensures AtPick(w, d) == AtPick(w, s) - {j} && QuietFrom(w, d.t + 1) && Settles(s, d)
    ensures d.items.Keys == s.items.Keys - {j} && Calm(cfg, w, d, attempted + {j})
    ensures Evict(cfg, w, s, need, count, attempted) == Evict(cfg, w, d, need, count + 1, attempted + {j})
  {
    var c;
    j, c, d := RoundIs(cfg, w, s, need, count, attempted);
    var y := Yield(w, s);
    YieldLocal(w, w, s);
    YieldSettles(w, s);
    QuietYield(w, y);
    QuietDelete(cfg, w, c, j);
    QuietYield(w, d);
  }

  /** A loop, with what it goes by and the items it started from. */
  ghost predicate Looping(cfg: Config, w: World, s: St, attempted: set<Key>, m: map<Key, Rank>, items: Items) {
    && QuietFrom(w, s.t + 1) && Calm(cfg, w, s, attempted) && m == AtPick(w, s)
    && forall k :: k in s.items ==> k in items && items[k].size == s.items[k].size
  }

  /** j is the next to go, and d what is left without it. */
  ghost predicate Takes(kind: Kind, s: St, d: St, m: map<Key, Rank>, items: Items, j: Key) {
    && IsVictim(kind, m, j) && Distinct(m) && j in items && j in s.items
    && d.items.Keys == s.items.Keys - {j} && d.used == s.used - items[j].size
  }

  lemma TakesNext(cfg: Config, w: World, s: St, need: int, count: nat, attempted: set<Key>, m: map<Key, Rank>,
                  items: Items, e: Evicted)
    returns (j: Key, d: St)
    requires e == Evict(cfg, w, s, need, count, attempted) && Looping(cfg, w, s, attempted, m, items)
    requires count < MAX_EVICTIONS && !Roomy(cfg, s, need) && s.items != map[]
    ensures e == Evict(cfg, w, d, need, count + 1, attempted + {j})
    ensures Looping(cfg, w, d, attempted + {j}, m - {j}, items) && Takes(cfg.kind, s, d, m, items, j)
  {
    j, d := SurvivalRound(cfg, w, s, need, count, attempted);
    RanksDistinct(Yield(w, s).hist);
    OneLess(s, d, j);
  }

  // ----- what the next rounds take

  /** The n keys the policy would evict first, or all of them if there are fewer. */
  ghost function First(kind: Kind, m: map<Key, Rank>, n: nat): set<Key> {
    set k | k in m && |Ahead(kind, m, k)| < n
  }

  lemma FirstWithout(kind: Kind, m: map<Key, Rank>, j: Key, n: nat)
    requires IsVictim(kind, m, j) && Distinct(m) && n > 0
    ensures j in First(kind, m, n) && First(kind, m - {j}, n - 1) == First(kind, m, n) - {j}
  {
    VictimIsAhead(kind, m, j, j);
    forall k | k in m && k != j
      ensures |Ahead(kind, m - {j}, k)| == |Ahead(kind, m, k)| - 1
    {
      VictimIsAhead(kind, m, j, k);
      AheadWithout(kind, m, j, k);
    }
  }

  lemma Picked(kind: Kind, m: map<Key, Rank>) returns (j: Key)
    requires m != map[] && Distinct(m)
    ensures IsVictim(kind, m, j) && Distinct(m - {j})
  {
    VictimExists(kind, m);
    j :| IsVictim(kind, m, j);
  }

  lemma {:induction false} FirstAtMost(kind: Kind, m: map<Key, Rank>, n: nat)
    requires Distinct(m)
    ensures |First(kind, m, n)| <= n
    decreases n
  {
    if n == 0 || m == map[] {
      assert First(kind, m, n) == {};
    } else {
      var j := Picked(kind, m);
      FirstAtMost(kind, m - {j}, n - 1);
      FirstWithout(kind, m, j, n);
    }
  }

  /** What the first n victims weigh, one by one. */
  ghost function Taken(kind: Kind, m: map<Key, Rank>, items: Items, n: nat): nat
    decreases n, 1
  {
    if n == 0 then 0 else TakenNext(kind, m, items, n)
  }

  ghost function TakenNext(kind: Kind, m: map<Key, Rank>, items: Items, n: nat): nat
    requires n > 0
    decreases n, 0
  {
    if !exists k :: IsVictim(kind, m, k) then 0
    else
      var k :| IsVictim(kind, m, k);
      (if k in items then items[k].size else 0) + Taken(kind, m - {k}, items, n - 1)
  }

  lemma TakenStep(kind: Kind, m: map<Key, Rank>, items: Items, n: nat, j: Key)
    requires n > 0 && IsVictim(kind, m, j) && j in items
    ensures Taken(kind, m, items, n) == items[j].size + Taken(kind, m - {j}, items, n - 1)
  {
    assert Taken(kind, m, items, n) == TakenNext(kind, m, items, n);
    forall k | IsVictim(kind, m, k) ensures k == j {
      VictimUnique(kind, m, j, k);
    }
  }

  lemma NoneTaken(kind: Kind, m: map<Key, Rank>, items: Items, n: nat)
    requires n == 0 || m == map[]
    ensures Taken(kind, m, items, n) == 0 && Together(items, First(kind, m, n)) == 0
  {
    assert n > 0 ==> Taken(kind, m, items, n) == TakenNext(kind, m, items, n);
    assert First(kind, m, n) == {};
    assert Restricted(items, {}) == map[];
  }

  lemma OneTogether(items: Items, group: set<Key>, j: Key)
    requires j in items && j in group
    ensures Together(items, group) == items[j].size + Together(items, group - {j})
  {
    TogetherWithout(items, items - {j}, group, j);
    assert Restricted(items - {j}, group - {j}) == Restricted(items, group - {j});
  }

  lemma TogetherNext(kind: Kind, m: map<Key, Rank>, items: Items, n: nat, j: Key)
    requires IsVictim(kind, m, j) && Distinct(m) && n > 0 && j in items
    ensures Together(items, First(kind, m, n)) == items[j].size + Together(items, First(kind, m - {j}, n - 1))
  {
    FirstWithout(kind, m, j, n);
    OneTogether(items, First(kind, m, n), j);
  }

  lemma OneMoreTaken(kind: Kind, m: map<Key, Rank>, items: Items, n: nat, j: Key)
    requires IsVictim(kind, m, j) && Distinct(m) && n > 0 && j in items
    requires Taken(kind, m - {j}, items, n - 1) == Together(items, First(kind, m - {j}, n - 1))
    ensures Taken(kind, m, items, n) == Together(items, First(kind, m, n))
  {
    TakenStep(kind, m, items, n, j);
    TogetherNext(kind, m, items, n, j);
  }

  lemma {:induction false} TakenTogether(kind: Kind, m: map<Key, Rank>, items: Items, n: nat)
    requires Distinct(m) && m.Keys <= items.Keys
    ensures Taken(kind, m, items, n) == Together(items, First(kind, m, n))
    decreases n
  {
    if n == 0 || m == map[] {
      NoneTaken(kind, m, items, n);
    } else {
      var j := Picked(kind, m);
      TakenTogether(kind, m - {j}, items, n - 1);
      OneMoreTaken(kind, m, items, n, j);
    }
  }

  // ----- how many go before k

  /** How many rounds it takes to get to k. */
  ghost function Place(kind: Kind, m: map<Key, Rank>, k: Key): nat
    requires k in m
    decreases |m.Keys|, 1
  {
    if IsVictim(kind, m, k) then 0 else PlaceNext(kind, m, k)
  }

  ghost function PlaceNext(kind: Kind, m: map<Key, Rank>, k: Key): nat
    requires k in m && !IsVictim(kind, m, k)
    decreases |m.Keys|, 0
  {
    if !exists j :: IsVictim(kind, m, j) then 0
    else
      var j :| IsVictim(kind, m, j);
      assert (m - {j}).Keys == m.Keys - {j};
      1 + Place(kind, m - {j}, k)
  }

  lemma PlaceStep(kind: Kind, m: map<Key, Rank>, k: Key, j: Key)
    requires k in m && IsVictim(kind, m, j) && j != k
    ensures Place(kind, m, k) == 1 + Place(kind, m - {j}, k)
  {
    forall i | IsVictim(kind, m, i) ensures i == j {
      VictimUnique(kind, m, i, j);
    }
    assert Place(kind, m, k) == PlaceNext(kind, m, k);
  }

  lemma FirstPlace(kind: Kind, m: map<Key, Rank>, items: Items, k: Key)
    requires IsVictim(kind, m, k) && Ahead(kind, m, k) == {}
    ensures Place(kind, m, k) == |Ahead(kind, m, k)|
    ensures Taken(kind, m, items, Place(kind, m, k)) == Together(items, Ahead(kind, m, k))
  {
    assert Restricted(items, {}) == map[];
  }

  lemma OnePlaceOn(kind: Kind, m: map<Key, Rank>, items: Items, k: Key, j: Key)
    requires k in m && IsVictim(kind, m, j) && j != k && Distinct(m) && j in items
    requires Place(kind, m - {j}, k) == |Ahead(kind, m - {j}, k)|
    requires Taken(kind, m - {j}, items, Place(kind, m - {j}, k)) == Together(items, Ahead(kind, m - {j}, k))
    ensures Place(kind, m, k) == |Ahead(kind, m, k)|
    ensures Taken(kind, m, items, Place(kind, m, k)) == Together(items, Ahead(kind, m, k))
  {
    PlaceStep(kind, m, k, j);
    VictimIsAhead(kind, m, j, k);
    AheadWithout(kind, m, j, k);
    TakenStep(kind, m, items, Place(kind, m, k), j);
    OneTogether(items, Ahead(kind, m, k), j);
  }

  /** They are the keys ahead of k, and weigh what those weigh. */
  lemma {:induction false} PlaceIsAhead(kind: Kind, m: map<Key, Rank>, items: Items, k: Key)
    requires k in m && Distinct(m) && m.Keys <= items.Keys
    ensures Place(kind, m, k) == |Ahead(kind, m, k)|
    ensures Taken(kind, m, items, Place(kind, m, k)) == Together(items, Ahead(kind, m, k))
    decreases |m.Keys|
  {
    var j := Picked(kind, m);
    VictimIsAhead(kind, m, j, k);
    if j == k {
      FirstPlace(kind, m, items, k);
    } else {
      assert (m - {j}).Keys == m.Keys - {j};
      PlaceIsAhead(kind, m - {j}, items, k);
      OnePlaceOn(kind, m, items, k, j);
    }
  }

  // ----- whether k is spared

  /** What decides: enough keys rank before k to use up the rounds, or the need is met without them. */
  ghost predicate Spared(cfg: Config, items: Items, used: int, need: int, ahead: set<Key>) {
    |ahead| >= MAX_EVICTIONS || used - Together(items, ahead) + need <= cfg.capacity
  }

  lemma SparedNow(cfg: Config, s: St, need: int, ahead: set<Key>)
    requires Roomy(cfg, s, need)
    ensures Spared(cfg, s.items, s.used, need, ahead)
  {
  }

  /** A loop in which k is still live, is to go after place rounds in all, and then leaves left bytes. */
  ghost predicate Surviving(cfg: Config, w: World, s: St, count: nat, attempted: set<Key>, k: Key, m: map<Key, Rank>,
                            items: Items, place: nat, left: int) {
    && Looping(cfg, w, s, attempted, m, items) && k in s.items && k in m
    && count + Place(cfg.kind, m, k) == place
    && left == s.used - Taken(cfg.kind, m, items, Place(cfg.kind, m, k))
  }

  lemma PlaceLeft(kind: Kind, s: St, d: St, m: map<Key, Rank>, items: Items, j: Key, k: Key)
    requires Takes(kind, s, d, m, items, j) && k in m && j != k
    ensures Place(kind, m, k) == 1 + Place(kind, m - {j}, k)
    ensures s.used - Taken(kind, m, items, Place(kind, m, k)) ==
            d.used - Taken(kind, m - {j}, items, Place(kind, m - {j}, k))
  {
    PlaceStep(kind, m, k, j);
    TakenStep(kind, m, items, Place(kind, m, k), j);
  }

  /** A round ends with k gone, or leaves the question as it was for the rounds after it. */
  lemma RoundDecides(cfg: Config, w: World, s: St, need: int, count: nat, attempted: set<Key>, k: Key,
                     m: map<Key, Rank>, items: Items, place: nat, left: int, e: Evicted)
    returns (j: Key, d: St)
    requires e == Evict(cfg, w, s, need, count, attempted) && count < MAX_EVICTIONS && !Roomy(cfg, s, need)
    requires Surviving(cfg, w, s, count, attempted, k, m, items, place, left)
    ensures j == k ==> k !in e.s.items && place == count && left == s.used
    ensures j != k ==> Surviving(cfg, w, d, count + 1, attempted + {j}, k, m - {j}, items, place, left)
    ensures e == Evict(cfg, w, d, need, count + 1, attempted + {j})
  {
    j, d := TakesNext(cfg, w, s, need, count, attempted, m, items, e);
    if j == k {
      OnlyLess(cfg, w, d, need, count + 1, attempted + {j}, e);
    } else {
      PlaceLeft(cfg.kind, s, d, m, items, j, k);
    }
  }

  lemma SurvivesNow(cfg: Config, w: World, s: St, need: int, count: nat, attempted: set<Key>, k: Key,
                    m: map<Key, Rank>, items: Items, place: nat, left: int, e: Evicted)
    requires e == Evict(cfg, w, s, need, count, attempted) && (count >= MAX_EVICTIONS || Roomy(cfg, s, need))
    requires Surviving(cfg, w, s, count, attempted, k, m, items, place, left)
    ensures k in e.s.items && (place >= MAX_EVICTIONS || left + need <= cfg.capacity)
  {
  }

  /** The loop spares a live key exactly when at least ten rounds come before it, or what those leave, and
      the need, fit into the capacity. */
  lemma LoopSparesExactly(cfg: Config, w: World, s: St, need: int, k: Key, m: map<Key, Rank>, place: nat, left: int,
                          e: Evicted)
    requires e == Evict(cfg, w, s, need, 0, {}) && Surviving(cfg, w, s, 0, {}, k, m, s.items, place, left)
    ensures k in e.s.items <==> place >= MAX_EVICTIONS || left + need <= cfg.capacity
  {
    var d, count, attempted, ranks := s, 0, {}, m;
    while count < MAX_EVICTIONS && !Roomy(cfg, d, need)
      invariant Surviving(cfg, w, d, count, attempted, k, ranks, s.items, place, left)
      invariant e == Evict(cfg, w, d, need, count, attempted)
      decreases MAX_EVICTIONS - count
    {
      var j, next := RoundDecides(cfg, w, d, need, count, attempted, k, ranks, s.items, place, left, e);
      if j == k {
        return;
      }
      d, count, attempted, ranks := next, count + 1, attempted + {j}, ranks - {j};
    }
    SurvivesNow(cfg, w, d, need, count, attempted, k, ranks, s.items, place, left, e);
  }

  // ----- whether the loop frees enough

  /** What decides: the need is met without the items the loop can take. */
  ghost predicate Freeable(cfg: Config, items: Items, used: int, need: int, m: map<Key, Rank>) {
    used - Together(items, First(cfg.kind, m, MAX_EVICTIONS)) + need <= cfg.capacity
  }

  /** A loop that would be left with left bytes after all the evictions it may still make. */
  ghost predicate Freeing(cfg: Config, w: World, s: St, count: nat, attempted: set<Key>, m: map<Key, Rank>,
                          items: Items, left: int) {
    && Looping(cfg, w, s, attempted, m, items)
    && count <= MAX_EVICTIONS && left == s.used - Taken(cfg.kind, m, items, MAX_EVICTIONS - count)
  }

  lemma TakenLeft(kind: Kind, s: St, d: St, m: map<Key, Rank>, items: Items, n: nat, j: Key)
    requires Takes(kind, s, d, m, items, j) && n > 0
    ensures s.used - Taken(kind, m, items, n) == d.used - Taken(kind, m - {j}, items, n - 1)
  {
    TakenStep(kind, m, items, n, j);
  }

  /** A round frees what the policy ranks first. */
  lemma FreesRound(cfg: Config, w: World, s: St, need: int, count: nat, attempted: set<Key>, m: map<Key, Rank>,
                   items: Items, left: int, e: Evicted)
    returns (j: Key, d: St)
    requires e == Evict(cfg, w, s, need, count, attempted) && Freeing(cfg, w, s, count, attempted, m, items, left)
    requires count < MAX_EVICTIONS && need <= cfg.capacity && !Roomy(cfg, s, need)
    ensures e == Evict(cfg, w, d, need, count + 1, attempted + {j})
    ensures Freeing(cfg, w, d, count + 1, attempted + {j}, m - {j}, items, left)
  {
    FullIsNotEmpty(cfg, s, need);
    j, d := TakesNext(cfg, w, s, need, count, attempted, m, items, e);
    TakenLeft(cfg.kind, s, d, m, items, MAX_EVICTIONS - count, j);
  }

  lemma LoopStops(cfg: Config, w: World, s: St, need: int, count: nat, attempted: set<Key>, m: map<Key, Rank>,
                  items: Items, left: int)
    requires Freeing(cfg, w, s, count, attempted, m, items, left) && (count >= MAX_EVICTIONS || Roomy(cfg, s, need))
    ensures Roomy(cfg, Evict(cfg, w, s, need, count, attempted).s, need) <==> left + need <= cfg.capacity
  {
    Stops(cfg, w, s, need, count, attempted);
  }

  /** The loop ends with room exactly when that leaves enough. */
  lemma LoopFreesExactly(cfg: Config, w: World, s: St, need: int, m: map<Key, Rank>, left: int, e: Evicted)
    requires e == Evict(cfg, w, s, need, 0, {}) && Freeing(cfg, w, s, 0, {}, m, s.items, left)
    requires need <= cfg.capacity
    ensures Roomy(cfg, e.s, need) <==> left + need <= cfg.capacity
  {
    var d, count, attempted, ranks := s, 0, {}, m;
    while count < MAX_EVICTIONS && !Roomy(cfg, d, need)
      invariant Freeing(cfg, w, d, count, attempted, ranks, s.items, left)
      invariant e == Evict(cfg, w, d, need, count, attempted)
      decreases MAX_EVICTIONS - count
    {
      var j, next := FreesRound(cfg, w, d, need, count, attempted, ranks, s.items, left, e);
      d, count, attempted, ranks := next, count + 1, attempted + {j}, ranks - {j};
    }
    LoopStops(cfg, w, d, need, count, attempted, ranks, s.items, left);
  }

  // ----- one loop in a world with faults and Gets elsewhere

  /** A loop, with the items in step, while which no fault occurs. */
  ghost predicate Undisturbed(cfg: Config, w: World, s: St, to: nat) {
    FaultlessIn(cfg, w, s.t, to) && !cfg.ml && InStep(s) && Drift(s) >= 0
  }

  lemma StartsSurviving(cfg: Config, w: World, s: St, k: Key, m: map<Key, Rank>)
    requires QuietFrom(w, s.t + 1) && Calm(cfg, w, s, {}) && m == AtPick(w, s) && k in s.items && k in m
    ensures Surviving(cfg, w, s, 0, {}, k, m, s.items, |Ahead(cfg.kind, m, k)|,
                      s.used - Together(s.items, Ahead(cfg.kind, m, k)))
  {
    YieldInStep(w, s);
    YieldSettles(w, s);
    RanksDistinct(Yield(w, s).hist);
    PlaceIsAhead(cfg.kind, m, s.items, k);
  }

  /** The loop spares a live key exactly when at least ten keys rank before it at the first pick, or the
      bytes without those keys, and the need, fit into the capacity: when no fault occurs during the loop
      and no Get after its first pick. */
  lemma SparesExactly(cfg: Config, w: World, s: St, need: int, k: Key, e: Evicted)
    requires e == Evict(cfg, w, s, need, 0, {}) && k in s.items
    requires Undisturbed(cfg, w, s, e.s.t) && QuietIn(w, s.t + 1, e.s.t)
    ensures k in AtPick(w, s)
    ensures k in e.s.items <==> Spared(cfg, s.items, s.used, need, Ahead(cfg.kind, AtPick(w, s), k))
  {
    YieldInStep(w, s);
    YieldSettles(w, s);
    if Roomy(cfg, s, need) {
      SparedNow(cfg, s, need, Ahead(cfg.kind, AtPick(w, s), k));
    } else {
      var w' := Confined(w, s.t, e.s.t);
      ConfinedFaultless(cfg, w, s.t, e.s.t);
      EvictLocal(cfg, w, w', s, need, 0, {}, e);
      EvictPicks(cfg, w, s, need, 0, {}, e);
      YieldLocal(w, w', s);
      StartsSurviving(cfg, w', s, k, AtPick(w, s));
      var ahead := Ahead(cfg.kind, AtPick(w, s), k);
      LoopSparesExactly(cfg, w', s, need, k, AtPick(w, s), |ahead|, s.used - Together(s.items, ahead), e);
    }
  }

  lemma StartsFreeing(cfg: Config, w: World, s: St, m: map<Key, Rank>)
    requires QuietFrom(w, s.t + 1) && Calm(cfg, w, s, {}) && m == AtPick(w, s)
    ensures Freeing(cfg, w, s, 0, {}, m, s.items, s.used - Together(s.items, First(cfg.kind, m, MAX_EVICTIONS)))
  {
    YieldInStep(w, s);
    YieldSettles(w, s);
    RanksDistinct(Yield(w, s).hist);
    TakenTogether(cfg.kind, m, s.items, MAX_EVICTIONS);
  }

  /** The same for whether it frees enough: the ten items that rank first at the first pick, or all if
      there are fewer, decide. */
  lemma FreesExactly(cfg: Config, w: World, s: St, need: int, e: Evicted)
    requires e == Evict(cfg, w, s, need, 0, {}) && need <= cfg.capacity
    requires Undisturbed(cfg, w, s, e.s.t) && QuietIn(w, s.t + 1, e.s.t)
    ensures Roomy(cfg, e.s, need) <==> Freeable(cfg, s.items, s.used, need, AtPick(w, s))
  {
    if !Roomy(cfg, s, need) {
      FullIsNotEmpty(cfg, s, need);
      var w' := Confined(w, s.t, e.s.t);
      ConfinedFaultless(cfg, w, s.t, e.s.t);
      EvictLocal(cfg, w, w', s, need, 0, {}, e);
      EvictPicks(cfg, w, s, need, 0, {}, e);
      YieldLocal(w, w', s);
      StartsFreeing(cfg, w', s, AtPick(w, s));
      var first := First(cfg.kind, AtPick(w, s), MAX_EVICTIONS);
      LoopFreesExactly(cfg, w', s, need, AtPick(w, s), s.used - Together(s.items, first), e);
    }
  }
}
