/**
  What the frequency of an item counts: its reads since it was last set, told from the history of the
  policy's calls alone.
 */
module CacheFrequency {
  import opened PolicyHistory
  import opened Breaker
  import opened WalCodec
  import opened CacheSpec
  import opened CacheAccounting

  /** The positions at which k was read after it was last stored. */
  ghost function ReadsSince(h: seq<Event>, k: Key): set<nat> {
    set i: nat | i < |h| && h[i] == Got(k) && forall j :: i < j < |h| ==> h[j] != Stored(k)
  }

  lemma ReadsSnoc(h: seq<Event>, e: Event, k: Key)
    ensures ReadsSince(h + [e], k) ==
            if e == Stored(k) then {} else if e == Got(k) then ReadsSince(h, k) + {|h|} else ReadsSince(h, k)
  {
    var g := h + [e];
    forall i: nat | i < |h|
      ensures i in ReadsSince(g, k) <==> i in ReadsSince(h, k) && e != Stored(k)
    {
      assert g[i] == h[i] && g[|h|] == e;
      if i in ReadsSince(g, k) {
        forall j | i < j < |h| ensures h[j] != Stored(k) {
          assert g[j] == h[j];
        }
      }
    }
    assert |h| in ReadsSince(g, k) <==> e == Got(k);
  }

  /** Every item has been stored, and counts one for that and one for each read since. */
  ghost predicate Counts(items: Items, h: seq<Event>) {
    forall k :: k in items ==> Stored(k) in h && items[k].frequency == 1 + |ReadsSince(h, k)|
  }

  ghost predicate Counted(s: St) {
    Counts(s.items, s.hist)
  }

  ghost predicate ViewCounted(v: View) {
    Counts(v.items, v.hist)
  }

  /** So it is in b, and in everything readers saw between a and b. */
  ghost predicate StaysCounted(a: St, b: St) {
    && Counted(b)
    && |a.seen| <= |b.seen|
    && (forall i :: 0 <= i < |a.seen| ==> b.seen[i] == a.seen[i])
    && (forall i :: |a.seen| <= i < |b.seen| ==> ViewCounted(b.seen[i]))
  }

  lemma StaysTrans(a: St, b: St, c: St)
    requires StaysCounted(a, b) && StaysCounted(b, c)
    ensures StaysCounted(a, c)
  {
  }

  // ----- one section

  lemma TouchCounts(s: St, k: Key)
    requires Counted(s)
    ensures Counted(Touch(s, k))
  {
    if k in s.items {
      forall j | j in s.items
        ensures Stored(j) in Touch(s, k).hist
        ensures Touch(s, k).items[j].frequency == 1 + |ReadsSince(Touch(s, k).hist, j)|
      {
        ReadsSnoc(s.hist, Got(k), j);
      }
    }
  }

  lemma LookCounts(s: St, k: Key)
    requires Counted(s)
    ensures StaysCounted(s, Look(s, k))
  {
    TouchCounts(s, k);
  }

  lemma {:induction false} LookAllCounts(s: St, ks: seq<Key>)
    requires Counted(s)
    ensures StaysCounted(s, LookAll(s, ks))
    decreases |ks|
  {
    if ks != [] {
      assert LookAll(s, ks) == LookOn(s, ks);
      LookCounts(s, ks[0]);
      LookAllCounts(Look(s, ks[0]), ks[1..]);
      StaysTrans(s, Look(s, ks[0]), LookAll(s, ks));
    }
  }

  lemma YieldCounts(w: World, s: St)
    requires Counted(s)
    ensures StaysCounted(s, Yield(w, s))
  {
    LookAllCounts(Publish(s), w(s.t).gets);
    StaysTrans(s, Publish(s), LookAll(Publish(s), w(s.t).gets));
  }

  lemma InsertCounts(s: St, k: Key, v: Bytes)
    requires Counted(s)
    ensures StaysCounted(s, Insert(s, k, v))
  {
    var i := Insert(s, k, v);
    forall j | j in i.items
      ensures Stored(j) in i.hist && i.items[j].frequency == 1 + |ReadsSince(i.hist, j)|
    {
      ReadsSnoc(s.hist, Stored(k), j);
      assert i.hist[|s.hist|] == Stored(k);
    }
  }

  /** A drop counts for nothing, of a live key or of another. */
  lemma DroppedCounts(s: St, s': St, k: Key)
    requires Counted(s) && s'.hist == s.hist + [Dropped(k)] && s'.seen == s.seen
    requires forall j :: j in s'.items ==> j in s.items && s'.items[j] == s.items[j]
    ensures StaysCounted(s, s')
  {
    forall j | j in s'.items
      ensures Stored(j) in s'.hist && s'.items[j].frequency == 1 + |ReadsSince(s'.hist, j)|
    {
      ReadsSnoc(s.hist, Dropped(k), j);
    }
  }

  // ----- every operation

  lemma AppendCounts(cfg: Config, w: World, s: St, e: Entry)
    requires Counted(s)
    ensures StaysCounted(s, Append(cfg, w, s, e).0)
  {
    YieldCounts(w, s);
    YieldCounts(w, s.(log := s.log + [e]));
  }

  lemma DeleteCounts(cfg: Config, w: World, s: St, k: Key)
    requires Counted(s)
    ensures StaysCounted(s, DeleteLocked(cfg, w, s, k).0)
  {
    var (a, ok) := Append(cfg, w, s, DeleteEntry(k));
    AppendCounts(cfg, w, s, DeleteEntry(k));
    if ok && k in a.items {
      DroppedCounts(a, Remove(a, k), k);
      StaysTrans(s, a, Remove(a, k));
      YieldCounts(w, Remove(a, k));
      StaysTrans(s, Remove(a, k), Yield(w, Remove(a, k)));
    }
  }

  lemma ChooseCounts(cfg: Config, w: World, s: St)
    requires Counted(s)
    ensures StaysCounted(s, Choose(cfg, w, s).0) && StaysCounted(s, ChooseWithMl(cfg, w, s).0)
  {
    YieldCounts(w, s);
    YieldCounts(w, s.(gate := Predict(s.gate, Request(s.items != map[], w(s.t).call)).0));
  }

  lemma PickCounts(cfg: Config, w: World, s: St, c: St)
    requires Counted(s) && c == Choose(cfg, w, Yield(w, s)).0
    ensures StaysCounted(s, c) && c.items.Keys == s.items.Keys
  {
    var y := Yield(w, s);
    YieldCounts(w, s);
    YieldSettles(w, s);
    ChooseCounts(cfg, w, y);
    ChooseSettles(cfg, w, y);
    StaysTrans(s, y, c);
  }

  lemma {:induction false} EvictCounts(cfg: Config, w: World, s: St, need: int, count: nat,
                                       attempted: set<Key>, e: Evicted)
    requires e == Evict(cfg, w, s, need, count, attempted) && Counted(s)
    ensures StaysCounted(s, e.s)
    decreases s.items.Keys - attempted
  {
    if count < MAX_EVICTIONS && !Roomy(cfg, s, need) && s.items != map[] {
      assert e == Turn(cfg, w, s, need, count, attempted);
      var (c, victim) := Choose(cfg, w, Yield(w, s));
      PickCounts(cfg, w, s, c);
      if victim.Some? {
        var k := victim.value;
        if k in attempted {
          DroppedCounts(c, Forget(c, k), k);
          StaysTrans(s, c, e.s);
        } else if k in c.items {
          var (d, outcome) := DeleteLocked(cfg, w, c, k);
          DeleteCounts(cfg, w, c, k);
          DeleteLockedSettles(cfg, w, c, k);
          StaysTrans(s, c, d);
          assert k in s.items.Keys - attempted;
          EvictCounts(cfg, w, d, need, if outcome == Done then count + 1 else count, attempted + {k}, e);
          StaysTrans(s, d, e.s);
        }
      }
    }
  }

  lemma TriggerCounts(cfg: Config, w: World, s: St)
    requires Counted(s)
    ensures StaysCounted(s, Trigger(cfg, w, s))
  {
    var y := Yield(w, s);
    var p, need := Yield(w, y), y.used - cfg.capacity / 2;
    YieldCounts(w, s);
    YieldCounts(w, y);
    StaysTrans(s, y, p);
    EvictCounts(cfg, w, p, need, 0, {}, Evict(cfg, w, p, need, 0, {}));
    StaysTrans(s, p, Evict(cfg, w, p, need, 0, {}).s);
  }

  lemma RoomCounts(cfg: Config, w: World, s: St, k: Key, v: Bytes)
    requires Counted(s)
    ensures StaysCounted(s, MakeRoom(cfg, w, s, k, v).s)
  {
    var b := Yield(w, Subtract(s, k));
    YieldCounts(w, Subtract(s, k));
    assert StaysCounted(s, b);
    EvictCounts(cfg, w, b, |v|, 0, {}, Evict(cfg, w, b, |v|, 0, {}));
    StaysTrans(s, b, Evict(cfg, w, b, |v|, 0, {}).s);
  }

  lemma CommitCounts(cfg: Config, w: World, s: St, k: Key, v: Bytes)
    requires Counted(s)
    ensures StaysCounted(s, Commit(cfg, w, s, k, v).0)
  {
    var i := Insert(s, k, v);
    InsertCounts(s, k, v);
    YieldCounts(w, i);
    StaysTrans(s, i, Yield(w, i));
    TriggerCounts(cfg, w, Yield(w, i));
    StaysTrans(s, Yield(w, i), Trigger(cfg, w, Yield(w, i)));
  }

  lemma SetCounts(cfg: Config, w: World, s: St, k: Key, v: Bytes, ttl: int)
    requires Counted(s)
    ensures StaysCounted(s, Set(cfg, w, s, k, v, ttl).0)
  {
    var a := Append(cfg, w, s, SetEntry(k, v, ttl)).0;
    AppendCounts(cfg, w, s, SetEntry(k, v, ttl));
    RoomCounts(cfg, w, a, k, v);
    var e := MakeRoom(cfg, w, a, k, v).s;
    StaysTrans(s, a, e);
    CommitCounts(cfg, w, e, k, v);
    StaysTrans(s, e, Commit(cfg, w, e, k, v).0);
  }

  lemma WorkerCounts(cfg: Config, w: World, s: St)
    requires Counted(s)
    ensures StaysCounted(s, Worker(cfg, w, s))
  {
    var (g, answer) := Predict(s.gate, Request(true, w(s.t).call));
    var y := Yield(w, s.(gate := g));
    YieldCounts(w, s.(gate := g));
    assert StaysCounted(s, y);
    if answer.Some? {
      DeleteCounts(cfg, w, y, answer.value);
      StaysTrans(s, y, Delete(cfg, w, y, answer.value).0);
    } else {
      var (c, victim) := ChooseWithMl(cfg, w, y);
      ChooseCounts(cfg, w, y);
      StaysTrans(s, y, c);
      if victim.Some? {
        DeleteCounts(cfg, w, c, victim.value);
        StaysTrans(s, c, Delete(cfg, w, c, victim.value).0);
      }
    }
  }

  lemma DoCounts(cfg: Config, w: World, s: St, op: Op)
    requires Counted(s)
    ensures StaysCounted(s, Do(cfg, w, s, op))
  {
    match op
    case SetOp(k, v, ttl) => SetCounts(cfg, w, s, k, v, ttl);
    case GetOp(k) => LookCounts(s, k);
    case DeleteOp(k) => DeleteCounts(cfg, w, s, k);
    case AskOp =>
      YieldCounts(w, s.(gate := Predict(s.gate, Request(s.items != map[], w(s.t).call)).0));
    case WorkerOp => WorkerCounts(cfg, w, s);
  }

  lemma {:induction false} RunCounts(cfg: Config, w: World, s: St, ops: seq<Op>)
    requires Counted(s)
    ensures StaysCounted(s, Run(cfg, w, s, ops))
    decreases |ops|
  {
    if ops != [] {
      var before := Run(cfg, w, s, ops[..|ops| - 1]);
      RunCounts(cfg, w, s, ops[..|ops| - 1]);
      DoCounts(cfg, w, before, ops[|ops| - 1]);
      StaysTrans(s, before, Run(cfg, w, s, ops));
    }
  }

  /** In every run of a node that has replayed whatever log it found, whatever fails, in the state it ends
      in and in everything readers saw on the way: the frequency of an item is one more than its reads
      since it was last set. */
  lemma FrequencyCountsReads(cfg: Config, w: World, gate: Gate, log: seq<Entry>, ops: seq<Op>)
    ensures Counted(Reached(cfg, w, gate, log, ops))
    ensures forall v :: v in Reached(cfg, w, gate, log, ops).seen ==> Counts(v.items, v.hist)
  {
    var empty, s0, s := Empty(gate, log), Started(cfg, w, gate, log), Reached(cfg, w, gate, log, ops);
    ReplayIsRun(cfg.(recovering := true), w, empty, log);
    RunCounts(cfg.(recovering := true), w, empty, AsOps(log));
    RunCounts(cfg, w, s0, ops);
    StaysTrans(empty, s0, s);
    forall v | v in s.seen ensures Counts(v.items, v.hist) {
      var i :| 0 <= i < |s.seen| && s.seen[i] == v;
      assert ViewCounted(s.seen[i]);
    }
  }
}
