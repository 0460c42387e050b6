/**
  The log against the live items. A node appends a set before it makes room for it and a delete
  before each eviction; the log's meaning is the fold of its entries in order.
 */
module CacheLog {
  import opened Prelude
  import opened PolicyHistory
  import opened Breaker
  import opened WalCodec
  import opened CacheSpec
  import opened CacheAccounting

  type Contents = map<Key, Bytes>

  /** The meaning of one entry: a set too large for the cache is skipped, as the cache skips it. */
  function Apply(cap: nat, m: Contents, e: Entry): Contents {
    if e.op == "set" then if |e.value| <= cap then m[e.key := e.value] else m
    else if e.op == "delete" then m - {e.key}
    else m
  }

  function Fold(cap: nat, log: seq<Entry>): Contents
    decreases |log|
  {
    if log == [] then map[] else Apply(cap, Fold(cap, log[..|log| - 1]), log[|log| - 1])
  }

  lemma FoldSnoc(cap: nat, log: seq<Entry>, e: Entry)
    ensures Fold(cap, log + [e]) == Apply(cap, Fold(cap, log), e)
  {
    assert (log + [e])[..|log|] == log;
  }

  function Live(items: Items): Contents {
    map k | k in items :: items[k].value
  }

  function At(m: Contents, k: Key): Option<Bytes> {
    if k in m then Some(m[k]) else None
  }

  /** Log and live items say the same about one key. */
  ghost predicate AgreeAt(cap: nat, s: St, k: Key) {
    At(Live(s.items), k) == At(Fold(cap, s.log), k)
  }

  // ----- what gets and evictions do to the log

  /** b comes from a by gets and evictions, each eviction logged; every other key reads as before. */
  ghost predicate Logged(cap: nat, a: St, b: St) {
    && Settles(a, b)
    && forall k :: At(Fold(cap, b.log), k) ==
         if k in a.items && k !in b.items then None else At(Fold(cap, a.log), k)
  }

  lemma LoggedTrans(cap: nat, a: St, b: St, c: St)
    requires Logged(cap, a, b) && Logged(cap, b, c)
    ensures Logged(cap, a, c)
  {
    SettlesTrans(a, b, c);
  }

  lemma {:induction false} LookAllLog(s: St, ks: seq<Key>)
    ensures LookAll(s, ks).log == s.log
    decreases |ks|
  {
    if ks != [] {
      assert LookAll(s, ks) == LookOn(s, ks);
      LookAllLog(Look(s, ks[0]), ks[1..]);
    }
  }

  lemma YieldLogged(cap: nat, w: World, s: St)
    ensures Yield(w, s).log == s.log && Logged(cap, s, Yield(w, s))
  {
    LookAllLog(Publish(s), w(s.t).gets);
    YieldSettles(w, s);
  }

  lemma ChooseLogged(cap: nat, cfg: Config, w: World, s: St)
    ensures Logged(cap, s, Choose(cfg, w, s).0) && Choose(cfg, w, s).0.log == s.log
    ensures Logged(cap, s, ChooseWithMl(cfg, w, s).0) && ChooseWithMl(cfg, w, s).0.log == s.log
  {
    ChooseSettles(cfg, w, s);
    YieldLogged(cap, w, s);
    YieldLogged(cap, w, s.(gate := Predict(s.gate, Request(s.items != map[], w(s.t).call)).0));
  }

  lemma AppendLog(cfg: Config, w: World, s: St, e: Entry)
    ensures var (a, ok) := Append(cfg, w, s, e);
            && a.log == (if Writes(cfg) && ok then s.log + [e] else s.log)
            && a.items.Keys == s.items.Keys && Live(a.items) == Live(s.items)
  {
    AppendSettles(cfg, w, s, e);
    YieldLogged(cfg.capacity, w, s);
    YieldLogged(cfg.capacity, w, s.(log := s.log + [e]));
  }

  /** A delete drops its key from both sides, or from neither when the log could not be written. */
  lemma DeleteLog(cfg: Config, w: World, s: St, k: Key)
    requires Writes(cfg)
    ensures var (d, outcome) := DeleteLocked(cfg, w, s, k);
            if outcome == AppendFailed then d.log == s.log && Live(d.items) == Live(s.items)
            else Fold(cfg.capacity, d.log) == Fold(cfg.capacity, s.log) - {k} && Live(d.items) == Live(s.items) - {k}
  {
    var e := DeleteEntry(k);
    var (a, ok) := Append(cfg, w, s, e);
    AppendLog(cfg, w, s, e);
    DeleteLockedSettles(cfg, w, s, k);
    FoldSnoc(cfg.capacity, s.log, e);
    if ok && k in a.items {
      YieldLogged(cfg.capacity, w, Remove(a, k));
    }
  }

  lemma EvictionLogged(cfg: Config, w: World, s: St, k: Key)
    requires Writes(cfg) && k in s.items
    ensures Logged(cfg.capacity, s, DeleteLocked(cfg, w, s, k).0)
  {
    DeleteLog(cfg, w, s, k);
    DeleteLockedSettles(cfg, w, s, k);
  }

  lemma {:induction false} EvictLogged(cfg: Config, w: World, s: St, need: int, count: nat, attempted: set<Key>)
    requires Writes(cfg)
    ensures Logged(cfg.capacity, s, Evict(cfg, w, s, need, count, attempted).s)
    decreases s.items.Keys - attempted
  {
    var cap, e := cfg.capacity, Evict(cfg, w, s, need, count, attempted);
    if count < MAX_EVICTIONS && !Roomy(cfg, s, need) && s.items != map[] {
      assert e == Turn(cfg, w, s, need, count, attempted);
      var y := Yield(w, s);
      var (c, victim) := Choose(cfg, w, y);
      YieldLogged(cap, w, s);
      YieldSettles(w, s);
      ChooseLogged(cap, cfg, w, y);
      ChooseSettles(cfg, w, y);
      LoggedTrans(cap, s, y, c);
      if victim.Some? {
        var k := victim.value;
        if k in attempted {
          ForgetSettles(c, k);
          assert Logged(cap, c, e.s);
          LoggedTrans(cap, s, c, e.s);
        } else if k in c.items {
          var (d, outcome) := DeleteLocked(cfg, w, c, k);
          EvictionLogged(cfg, w, c, k);
          LoggedTrans(cap, s, c, d);
          assert k in s.items.Keys - attempted && d.items.Keys <= s.items.Keys;
          EvictLogged(cfg, w, d, need, if outcome == Done then count + 1 else count, attempted + {k});
          LoggedTrans(cap, s, d, e.s);
        }
      }
    }
  }

  lemma ProactiveLogged(cfg: Config, w: World, s: St)
    requires Writes(cfg)
    ensures Logged(cfg.capacity, s, Proactive(cfg, w, s))
  {
    var cap, y, need := cfg.capacity, Yield(w, s), s.used - cfg.capacity / 2;
    YieldLogged(cap, w, s);
    EvictLogged(cfg, w, y, need, 0, {});
    LoggedTrans(cap, s, y, Evict(cfg, w, y, need, 0, {}).s);
  }

  lemma TriggerLogged(cfg: Config, w: World, s: St)
    requires Writes(cfg)
    ensures Logged(cfg.capacity, s, Trigger(cfg, w, s))
  {
    var y := Yield(w, s);
    YieldLogged(cfg.capacity, w, s);
    ProactiveLogged(cfg, w, y);
    LoggedTrans(cfg.capacity, s, y, Proactive(cfg, w, y));
  }

  lemma MakeRoomLogged(cfg: Config, w: World, s: St, k: Key, v: Bytes)
    requires Writes(cfg)
    ensures Logged(cfg.capacity, Subtract(s, k), MakeRoom(cfg, w, s, k, v).s)
  {
    var cap, b := cfg.capacity, Yield(w, Subtract(s, k));
    YieldLogged(cap, w, Subtract(s, k));
    EvictLogged(cfg, w, b, |v|, 0, {});
    LoggedTrans(cap, Subtract(s, k), b, Evict(cfg, w, b, |v|, 0, {}).s);
  }

  lemma CommitLogged(cfg: Config, w: World, s: St, k: Key, v: Bytes)
    requires Writes(cfg)
    ensures Logged(cfg.capacity, Insert(s, k, v), Commit(cfg, w, s, k, v).0)
  {
    var cap, i := cfg.capacity, Insert(s, k, v);
    YieldLogged(cap, w, i);
    TriggerLogged(cfg, w, Yield(w, i));
    LoggedTrans(cap, i, Yield(w, i), Trigger(cfg, w, Yield(w, i)));
  }

  // ----- agreement of the log and the live items

  lemma LoggedAgrees(cap: nat, a: St, b: St, j: Key)
    requires Logged(cap, a, b) && AgreeAt(cap, a, j)
    ensures AgreeAt(cap, b, j)
  {
  }

  lemma RoomAgreesElsewhere(cfg: Config, w: World, a: St, k: Key, v: Bytes, j: Key)
    requires Writes(cfg) && AgreeAt(cfg.capacity, a, j)
    ensures AgreeAt(cfg.capacity, MakeRoom(cfg, w, a, k, v).s, j)
  {
    MakeRoomLogged(cfg, w, a, k, v);
    LoggedAgrees(cfg.capacity, Subtract(a, k), MakeRoom(cfg, w, a, k, v).s, j);
  }

  lemma CommitAgreesElsewhere(cfg: Config, w: World, s: St, k: Key, v: Bytes, j: Key)
    requires Writes(cfg) && j != k && AgreeAt(cfg.capacity, s, j)
    ensures AgreeAt(cfg.capacity, Commit(cfg, w, s, k, v).0, j)
  {
    CommitLogged(cfg, w, s, k, v);
    LoggedAgrees(cfg.capacity, Insert(s, k, v), Commit(cfg, w, s, k, v).0, j);
  }

  /** Each operation keeps the agreement on every key it is not about. */
  lemma SetAgreesElsewhere(cfg: Config, w: World, s: St, k: Key, v: Bytes, ttl: int, j: Key)
    requires Writes(cfg) && j != k && AgreeAt(cfg.capacity, s, j)
    ensures AgreeAt(cfg.capacity, Set(cfg, w, s, k, v, ttl).0, j)
  {
    var cap := cfg.capacity;
    var (a, ok) := Append(cfg, w, s, SetEntry(k, v, ttl));
    AppendLog(cfg, w, s, SetEntry(k, v, ttl));
    FoldSnoc(cap, s.log, SetEntry(k, v, ttl));
    assert AgreeAt(cap, a, j);
    if ok && |v| <= cap {
      RoomAgreesElsewhere(cfg, w, a, k, v, j);
      CommitAgreesElsewhere(cfg, w, MakeRoom(cfg, w, a, k, v).s, k, v, j);
    }
  }

  /** What making room leaves behind for the key being set: its item unchanged and the log ending
      in its set, or its item gone and the log ending in its eviction. */
  lemma RoomForKey(cfg: Config, w: World, s: St, k: Key, v: Bytes, ttl: int)
    requires Writes(cfg) && Append(cfg, w, s, SetEntry(k, v, ttl)).1 && |v| <= cfg.capacity
    ensures var e := Room(cfg, w, s, k, v, ttl);
            && At(Fold(cfg.capacity, e.s.log), k) == (if k in s.items && k !in e.s.items then None else Some(v))
            && (k in e.s.items ==> k in s.items && e.s.items[k].value == s.items[k].value)
  {
    var a := Append(cfg, w, s, SetEntry(k, v, ttl)).0;
    AppendLog(cfg, w, s, SetEntry(k, v, ttl));
    FoldSnoc(cfg.capacity, s.log, SetEntry(k, v, ttl));
    MakeRoomLogged(cfg, w, a, k, v);
    assert k in s.items ==> Live(a.items)[k] == Live(s.items)[k];
  }

  lemma CommitForKey(cfg: Config, w: World, s: St, k: Key, v: Bytes)
    requires Writes(cfg)
    ensures var s' := Commit(cfg, w, s, k, v).0;
            && At(Fold(cfg.capacity, s'.log), k) == (if k in s'.items then At(Fold(cfg.capacity, s.log), k) else None)
            && (k in s'.items ==> s'.items[k].value == v)
  {
    CommitLogged(cfg, w, s, k, v);
  }

  /** On its own key a Set that stores the value makes log and items agree again, unless the
      overwrite evicted itself: then the log ends with the eviction, and they agree only if the
      proactive pass has taken the key out once more. A Set rejected for space leaves them agreeing
      only if the old item was evicted, or is still there with the very value that was rejected. */
  lemma SetAgreesExactly(cfg: Config, w: World, s: St, k: Key, v: Bytes, ttl: int)
    requires Writes(cfg)
    ensures var (s', outcome) := Set(cfg, w, s, k, v, ttl);
            match outcome
            case AppendFailed => AgreeAt(cfg.capacity, s', k) <==> AgreeAt(cfg.capacity, s, k)
            case TooLarge => AgreeAt(cfg.capacity, s', k) <==> AgreeAt(cfg.capacity, s, k)
            case NoSpace =>
              AgreeAt(cfg.capacity, s', k) <==>
                k in s.items && (k in s'.items ==> s.items[k].value == v)
            case _ =>
              AgreeAt(cfg.capacity, s', k) <==>
                !EvictsItself(cfg, w, s, k, v, ttl) || k !in s'.items
  {
    var (a, ok) := Append(cfg, w, s, SetEntry(k, v, ttl));
    if ok && |v| <= cfg.capacity {
      var e := Room(cfg, w, s, k, v, ttl);
      RoomForKey(cfg, w, s, k, v, ttl);
      if Freed(cfg, e, |v|) {
        CommitForKey(cfg, w, e.s, k, v);
      }
    } else {
      AppendLog(cfg, w, s, SetEntry(k, v, ttl));
      FoldSnoc(cfg.capacity, s.log, SetEntry(k, v, ttl));
    }
  }

  lemma DeleteAgrees(cfg: Config, w: World, s: St, k: Key, j: Key)
    requires Writes(cfg) && AgreeAt(cfg.capacity, s, j)
    ensures AgreeAt(cfg.capacity, Delete(cfg, w, s, k).0, j)
  {
    DeleteLog(cfg, w, s, k);
  }

  lemma WorkerAgrees(cfg: Config, w: World, s: St, j: Key)
    requires Writes(cfg) && AgreeAt(cfg.capacity, s, j)
    ensures AgreeAt(cfg.capacity, Worker(cfg, w, s), j)
  {
    var cap := cfg.capacity;
    if cfg.ml && s.gate.enabled && s.items != map[] {
      var (g, answer) := Predict(s.gate, Request(true, w(s.t).call));
      var y := Yield(w, s.(gate := g));
      YieldLogged(cap, w, s.(gate := g));
      LoggedAgrees(cap, s.(gate := g), y, j);
      var (c, victim) := ChooseWithMl(cfg, w, y);
      ChooseLogged(cap, cfg, w, y);
      LoggedAgrees(cap, y, c, j);
      match answer
      case Some(k) => DeleteAgrees(cfg, w, y, k, j);
      case None =>
        if victim.Some? {
          DeleteAgrees(cfg, w, c, victim.value, j);
        }
    }
  }

  /** A Set of k that leaves the log saying something else than the items: it was rejected for
      space, or it overwrote k and evicted k to make room. */
  ghost predicate Spoils(cfg: Config, w: World, s: St, op: Op, k: Key) {
    && op.SetOp? && op.key == k
    && (Rejected(cfg, w, s, k, op.value, op.ttl) || EvictsItself(cfg, w, s, k, op.value, op.ttl))
  }

  lemma DoAgrees(cfg: Config, w: World, s: St, op: Op, k: Key)
    requires Writes(cfg) && AgreeAt(cfg.capacity, s, k) && !Spoils(cfg, w, s, op, k)
    ensures AgreeAt(cfg.capacity, Do(cfg, w, s, op), k)
  {
    match op
    case SetOp(j, v, ttl) =>
      if j == k {
        SetAgreesExactly(cfg, w, s, k, v, ttl);
      } else {
        SetAgreesElsewhere(cfg, w, s, j, v, ttl, k);
      }
    case GetOp(j) =>
      LookSettles(s, j);
    case DeleteOp(j) => DeleteAgrees(cfg, w, s, j, k);
    case AskOp =>
      YieldLogged(cfg.capacity, w, s.(gate := Predict(s.gate, Request(s.items != map[], w(s.t).call)).0));
    case WorkerOp => WorkerAgrees(cfg, w, s, k);
  }

  ghost predicate NeverSpoiled(cfg: Config, w: World, s: St, ops: seq<Op>, k: Key)
    decreases |ops|
  {
    ops != [] ==>
      && NeverSpoiled(cfg, w, s, ops[..|ops| - 1], k)
      && !Spoils(cfg, w, Run(cfg, w, s, ops[..|ops| - 1]), ops[|ops| - 1], k)
  }

  /** Over whole runs, whatever is evicted: a key on which log and cache agree at the start, and none of
      whose Sets was rejected for space or evicted itself, reads the same in the log as in the cache. */
  lemma {:induction false} LogAgreesOverRun(cfg: Config, w: World, s: St, ops: seq<Op>, k: Key)
    requires Writes(cfg) && AgreeAt(cfg.capacity, s, k) && NeverSpoiled(cfg, w, s, ops, k)
    ensures AgreeAt(cfg.capacity, Run(cfg, w, s, ops), k)
    decreases |ops|
  {
    if ops != [] {
      var init := ops[..|ops| - 1];
      LogAgreesOverRun(cfg, w, s, init, k);
      DoAgrees(cfg, w, Run(cfg, w, s, init), ops[|ops| - 1], k);
    }
  }

  lemma SameContents(m: Contents, n: Contents)
    requires forall k :: At(m, k) == At(n, k)
    ensures m == n
  {
    assert forall k :: k in m <==> At(m, k).Some?;
    assert forall k :: k in n <==> At(n, k).Some?;
    assert forall k :: k in m ==> At(m, k).value == m[k] && At(n, k).value == n[k];
  }

  /** When that holds of every key, the live key-to-value map is the fold of the log. */
  lemma LogIsFold(cfg: Config, w: World, s: St, ops: seq<Op>)
    requires Writes(cfg) && Live(s.items) == Fold(cfg.capacity, s.log)
    requires forall k :: NeverSpoiled(cfg, w, s, ops, k)
    ensures var s' := Run(cfg, w, s, ops);
            Live(s'.items) == Fold(cfg.capacity, s'.log)
  {
    var s' := Run(cfg, w, s, ops);
    forall k ensures At(Live(s'.items), k) == At(Fold(cfg.capacity, s'.log), k) {
      LogAgreesOverRun(cfg, w, s, ops, k);
    }
    SameContents(Live(s'.items), Fold(cfg.capacity, s'.log));
  }
}
