/**
  Restart (cache/cache.go, LoadFromWAL): a new, empty node replays the entries read from the log.
  Replay appends nothing, may evict or reject on its own, and knows nothing of the Gets of the
  first run.
 */
module CacheRecovery {
  import opened Prelude
  import opened PolicyHistory
  import opened Breaker
  import opened WalCodec
  import opened CacheSpec
  import opened CacheAccounting
  import opened CacheLog

  // ----- soundness for every log

  /** Entry i of the log set k to v, and no later entry deleted k. */
  ghost predicate SetBy(log: seq<Entry>, k: Key, v: Bytes, i: nat) {
    && i < |log| && log[i].op == "set" && log[i].key == k && log[i].value == v
    && forall j :: i < j < |log| ==> !(log[j].op == "delete" && log[j].key == k)
  }

  lemma CommitSettles(cfg: Config, w: World, s: St, k: Key, v: Bytes)
    ensures Settles(Insert(s, k, v), Commit(cfg, w, s, k, v).0)
  {
    var i := Insert(s, k, v);
    YieldSettles(w, i);
    TriggerSettles(cfg, w, Yield(w, i));
    SettlesTrans(i, Yield(w, i), Trigger(cfg, w, Yield(w, i)));
  }

  lemma SetContents(cfg: Config, w: World, s: St, k: Key, v: Bytes, ttl: int, j: Key)
    requires j in Set(cfg, w, s, k, v, ttl).0.items
    ensures var s' := Set(cfg, w, s, k, v, ttl).0;
            (j in s.items && s'.items[j].value == s.items[j].value) || (j == k && s'.items[j].value == v)
  {
    var (a, ok) := Append(cfg, w, s, SetEntry(k, v, ttl));
    AppendSettles(cfg, w, s, SetEntry(k, v, ttl));
    if ok && |v| <= cfg.capacity {
      var e := MakeRoom(cfg, w, a, k, v);
      MakeRoomSettles(cfg, w, a, k, v);
      if Freed(cfg, e, |v|) {
        CommitSettles(cfg, w, e.s, k, v);
      }
    }
  }

  lemma Replay1Contents(cfg: Config, w: World, s: St, e: Entry, j: Key)
    requires cfg.recovering && j in Replay1(cfg, w, s, e).items
    ensures var s' := Replay1(cfg, w, s, e);
            || (j in s.items && s'.items[j].value == s.items[j].value && !(e.op == "delete" && e.key == j))
            || (e.op == "set" && e.key == j && s'.items[j].value == e.value)
  {
    if e.op == "set" {
      SetContents(cfg, w, s, e.key, e.value, e.ttl, j);
    } else if e.op == "delete" {
      DeleteLockedSettles(cfg, w, s, e.key);
    }
  }

  /** A replay so far, of a longer log perhaps. */
  lemma {:induction false} ReplaySound(cfg: Config, w: World, s0: St, log: seq<Entry>, k: Key)
    requires cfg.recovering && s0.items == map[]
    ensures var s := Replay(cfg, w, s0, log);
            k in s.items ==> exists i :: SetBy(log, k, s.items[k].value, i)
    decreases |log|
  {
    var s := Replay(cfg, w, s0, log);
    if log != [] && k in s.items {
      var n := |log| - 1;
      var init, before := log[..n], Replay(cfg, w, s0, log[..n]);
      Replay1Contents(cfg, w, before, log[n], k);
      if log[n].op == "set" && log[n].key == k && s.items[k].value == log[n].value {
        assert SetBy(log, k, s.items[k].value, n);
      } else {
        ReplaySound(cfg, w, s0, init, k);
        var i: nat :| SetBy(init, k, before.items[k].value, i);
        assert forall j :: 0 <= j < n ==> init[j] == log[j];
        assert SetBy(log, k, s.items[k].value, i);
      }
    }
  }

  /** For every log, even one no run could have written, and whatever the replay evicts or rejects:
      each recovered key and value comes from a logged set of that key with no later delete of it,
      and the recovered bytes fit the capacity. */
  lemma RecoverySound(cfg: Config, w: World, gate: Gate, log: seq<Entry>, k: Key)
    ensures Inv(cfg, Started(cfg, w, gate, log))
    ensures var s := Started(cfg, w, gate, log);
            k in s.items ==> exists i :: SetBy(log, k, s.items[k].value, i)
  {
    StartedInv(cfg, w, gate, log);
    ReplaySound(cfg.(recovering := true), w, Empty(gate, log), log, k);
  }

  // ----- a log light enough that nothing is ever evicted

  function AsItems(m: Contents): Items {
    map k | k in m :: Item(m[k], |m[k]|, 0)
  }

  ghost function Weight(m: Contents): nat {
    Total(AsItems(m))
  }

  /** After every entry, the bytes the log stands for are at most C + floor(C/2) when doubled. */
  ghost predicate Light(cap: nat, log: seq<Entry>)
    decreases |log|
  {
    log != [] ==> Light(cap, log[..|log| - 1]) && 2 * Weight(Fold(cap, log)) <= cap + cap / 2
  }

  lemma {:induction false} LightPrefix(cap: nat, p: seq<Entry>, log: seq<Entry>)
    requires Light(cap, log) && p <= log
    ensures Light(cap, p)
    decreases |log|
  {
    if p != log {
      assert p <= log[..|log| - 1];
      LightPrefix(cap, p, log[..|log| - 1]);
    }
  }

  /** The items are the fold of some log, and the counter is exact. */
  ghost predicate Plain(cap: nat, s: St, log: seq<Entry>) {
    Live(s.items) == Fold(cap, log) && Drift(s) == 0 && Sized(s.items)
  }

  lemma PlainUsed(cap: nat, s: St, log: seq<Entry>)
    requires Plain(cap, s, log)
    ensures s.used == Weight(Fold(cap, log))
  {
    TotalBySize(s.items, AsItems(Live(s.items)));
  }

  lemma RoomyTrigger(cfg: Config, w: World, s: St)
    requires 2 * s.used <= cfg.capacity + cfg.capacity / 2
    ensures Trigger(cfg, w, s).items.Keys == s.items.Keys && Trigger(cfg, w, s).log == s.log
  {
    var y := Yield(w, s);
    YieldLogged(cfg.capacity, w, s);
    YieldSettles(w, s);
    YieldLogged(cfg.capacity, w, y);
    YieldSettles(w, y);
    assert Roomy(cfg, Yield(w, y), y.used - cfg.capacity / 2);
    assert Trigger(cfg, w, s) == y || Trigger(cfg, w, s) == Yield(w, y);
  }

  lemma RoomyCommit(cfg: Config, w: World, s: St, k: Key, v: Bytes)
    requires 2 * (s.used + |v|) <= cfg.capacity + cfg.capacity / 2
    ensures var s' := Commit(cfg, w, s, k, v).0;
            && s'.items.Keys == Insert(s, k, v).items.Keys && s'.log == s.log
            && Settles(Insert(s, k, v), s')
  {
    var i := Insert(s, k, v);
    YieldLogged(cfg.capacity, w, i);
    YieldSettles(w, i);
    RoomyTrigger(cfg, w, Yield(w, i));
    CommitSettles(cfg, w, s, k, v);
  }

  /** Nothing has to make room, and the key's item is still there unless it never was. */
  lemma RoomyRoom(cfg: Config, w: World, s: St, k: Key, v: Bytes)
    requires Inv(cfg, s) && Drift(s) == 0
    requires 2 * (Total(s.items - {k}) + |v|) <= cfg.capacity + cfg.capacity / 2
    ensures var e := MakeRoom(cfg, w, s, k, v);
            && e == Evicted(Yield(w, Subtract(s, k)), Fits, 0) && Freed(cfg, e, |v|)
            && e.s.used == Total(s.items - {k}) && e.s.log == s.log
            && Live(e.s.items) == Live(s.items) && Sized(e.s.items)
            && Drift(Insert(e.s, k, v)) == 0
  {
    var b := Yield(w, Subtract(s, k));
    SubtractDrift(s, k);
    YieldSettles(w, Subtract(s, k));
    YieldLogged(cfg.capacity, w, Subtract(s, k));
    if k in s.items {
      TotalWithout(s.items, k);
    } else {
      assert s.items - {k} == s.items;
    }
    InsertDrift(b, k, v);
  }

  lemma InsertLive(s: St, k: Key, v: Bytes, s': St)
    requires Shrunk(Insert(s, k, v), s') && s'.items.Keys == Insert(s, k, v).items.Keys && Sized(s.items)
    ensures Live(s'.items) == Live(s.items)[k := v] && Sized(s'.items)
  {
  }

  /** With room to spare a Set evicts nothing, not even proactively. */
  lemma RoomySet(cfg: Config, w: World, s: St, k: Key, v: Bytes, ttl: int)
    requires Inv(cfg, s) && Drift(s) == 0 && |v| <= cfg.capacity
    requires Append(cfg, w, s, SetEntry(k, v, ttl)).1
    requires 2 * (Total(s.items - {k}) + |v|) <= cfg.capacity + cfg.capacity / 2
    ensures var (s', outcome) := Set(cfg, w, s, k, v, ttl);
            && (outcome == Done || outcome == StoreFailed)
            && Live(s'.items) == Live(s.items)[k := v] && Drift(s') == 0 && Sized(s'.items)
            && s'.log == Append(cfg, w, s, SetEntry(k, v, ttl)).0.log
  {
    var a := Append(cfg, w, s, SetEntry(k, v, ttl)).0;
    AppendSettles(cfg, w, s, SetEntry(k, v, ttl));
    AppendLog(cfg, w, s, SetEntry(k, v, ttl));
    InvSettles(cfg, s, a);
    TotalBySize(a.items - {k}, s.items - {k});
    RoomyRoom(cfg, w, a, k, v);
    var e := MakeRoom(cfg, w, a, k, v);
    RoomyCommit(cfg, w, e.s, k, v);
    InsertLive(e.s, k, v, Commit(cfg, w, e.s, k, v).0);
  }

  lemma FoldedSet(cap: nat, s: St, log: seq<Entry>, k: Key, v: Bytes, ttl: int)
    requires Plain(cap, s, log) && |v| <= cap
    ensures Weight(Fold(cap, log + [SetEntry(k, v, ttl)])) == Total(s.items - {k}) + |v|
  {
    FoldSnoc(cap, log, SetEntry(k, v, ttl));
    var m := Fold(cap, log)[k := v];
    TotalWithout(AsItems(m), k);
    TotalBySize(AsItems(m) - {k}, s.items - {k});
  }

  /** A Set that leaves the log light keeps the node plain, in a first run and in a replay. */
  lemma PlainSet(cfg: Config, w: World, s: St, log: seq<Entry>, k: Key, v: Bytes, ttl: int)
    requires Inv(cfg, s) && Plain(cfg.capacity, s, log)
    requires Append(cfg, w, s, SetEntry(k, v, ttl)).1
    requires Light(cfg.capacity, log + [SetEntry(k, v, ttl)])
    ensures var s' := Set(cfg, w, s, k, v, ttl).0;
            && Plain(cfg.capacity, s', log + [SetEntry(k, v, ttl)])
            && s'.log == Append(cfg, w, s, SetEntry(k, v, ttl)).0.log
  {
    var e := SetEntry(k, v, ttl);
    FoldSnoc(cfg.capacity, log, e);
    if |v| <= cfg.capacity {
      FoldedSet(cfg.capacity, s, log, k, v, ttl);
      RoomySet(cfg, w, s, k, v, ttl);
    } else {
      AppendSettles(cfg, w, s, e);
      AppendLog(cfg, w, s, e);
    }
  }

  // ----- what one operation keeps

  lemma DoGrowsLog(cfg: Config, w: World, s: St, op: Op)
    ensures s.log <= Do(cfg, w, s, op).log
  {
    match op
    case SetOp(k, v, ttl) =>
      var (a, ok) := Append(cfg, w, s, SetEntry(k, v, ttl));
      AppendSettles(cfg, w, s, SetEntry(k, v, ttl));
      var e := MakeRoom(cfg, w, a, k, v);
      MakeRoomSettles(cfg, w, a, k, v);
      assert s.log <= a.log <= e.s.log;
      CommitSettles(cfg, w, e.s, k, v);
    case GetOp(k) => LookSettles(s, k);
    case DeleteOp(k) => DeleteLockedSettles(cfg, w, s, k);
    case AskOp => AskSettles(w, s, Predict(s.gate, Request(s.items != map[], w(s.t).call)).0);
    case WorkerOp => WorkerSettles(cfg, w, s);
  }

  lemma PlainOther(cfg: Config, w: World, s: St, op: Op)
    requires Writes(cfg) && Inv(cfg, s) && Plain(cfg.capacity, s, s.log) && !op.SetOp?
    ensures Plain(cfg.capacity, Do(cfg, w, s, op), Do(cfg, w, s, op).log)
  {
    var s' := Do(cfg, w, s, op);
    DoKeeps(cfg, w, s, op);
    forall k ensures At(Live(s'.items), k) == At(Fold(cfg.capacity, s'.log), k) {
      assert AgreeAt(cfg.capacity, s, k);
      DoAgrees(cfg, w, s, op, k);
    }
    SameContents(Live(s'.items), Fold(cfg.capacity, s'.log));
  }

  lemma SetGrowsLog(cfg: Config, w: World, s: St, k: Key, v: Bytes, ttl: int)
    ensures Append(cfg, w, s, SetEntry(k, v, ttl)).0.log <= Set(cfg, w, s, k, v, ttl).0.log
  {
    var a := Append(cfg, w, s, SetEntry(k, v, ttl)).0;
    var e := MakeRoom(cfg, w, a, k, v);
    MakeRoomSettles(cfg, w, a, k, v);
    assert a.log <= e.s.log;
    CommitSettles(cfg, w, e.s, k, v);
    assert e.s.log <= Commit(cfg, w, e.s, k, v).0.log;
  }

  lemma PlainDo(cfg: Config, w: World, s: St, op: Op)
    requires Writes(cfg) && Inv(cfg, s) && Plain(cfg.capacity, s, s.log)
    requires Light(cfg.capacity, Do(cfg, w, s, op).log)
    ensures Plain(cfg.capacity, Do(cfg, w, s, op), Do(cfg, w, s, op).log)
  {
    if op.SetOp? {
      var e := SetEntry(op.key, op.value, op.ttl);
      var (a, ok) := Append(cfg, w, s, e);
      AppendLog(cfg, w, s, e);
      AppendSettles(cfg, w, s, e);
      if ok {
        SetGrowsLog(cfg, w, s, op.key, op.value, op.ttl);
        LightPrefix(cfg.capacity, s.log + [e], Do(cfg, w, s, op).log);
        PlainSet(cfg, w, s, s.log, op.key, op.value, op.ttl);
      }
    } else {
      PlainOther(cfg, w, s, op);
    }
  }

  // ----- the replay

  lemma UnloggedDelete(cfg: Config, w: World, s: St, k: Key)
    requires cfg.recovering
    ensures Delete(cfg, w, s, k).0.log == s.log
  {
    var a := Append(cfg, w, s, DeleteEntry(k)).0;
    AppendLog(cfg, w, s, DeleteEntry(k));
    if k in a.items {
      YieldLogged(cfg.capacity, w, Remove(a, k));
    }
  }

  lemma PlainReplayDelete(cfg: Config, w: World, s: St, log: seq<Entry>, e: Entry)
    requires cfg.recovering && Inv(cfg, s) && Plain(cfg.capacity, s, log) && e.op == "delete"
    ensures Plain(cfg.capacity, Delete(cfg, w, s, e.key).0, log + [e]) && Delete(cfg, w, s, e.key).0.log == s.log
  {
    UnloggedDelete(cfg, w, s, e.key);
    FoldSnoc(cfg.capacity, log, e);
    DeleteKeeps(cfg, w, s, e.key);
    DeleteLockedSettles(cfg, w, s, e.key);
    assert Live(Delete(cfg, w, s, e.key).0.items) == Live(s.items) - {e.key};
  }

  lemma ReplayInv(cfg: Config, w: World, gate: Gate, file: seq<Entry>, log: seq<Entry>)
    ensures Inv(cfg, Replay(cfg, w, Empty(gate, file), log))
  {
    EmptyInv(cfg, gate, file);
    ReplayIsRun(cfg, w, Empty(gate, file), log);
    ExactAccounting(cfg, w, Empty(gate, file), AsOps(log));
  }

  /** log is what has been replayed so far. */
  lemma {:induction false} LightReplayPlain(cfg: Config, w: World, gate: Gate, file: seq<Entry>, log: seq<Entry>)
    requires cfg.recovering && Light(cfg.capacity, log)
    ensures var s := Replay(cfg, w, Empty(gate, file), log);
            Plain(cfg.capacity, s, log) && s.log == file
    decreases |log|
  {
    EmptyInv(cfg, gate, file);
    if log != [] {
      var init, e := log[..|log| - 1], log[|log| - 1];
      var before := Replay(cfg, w, Empty(gate, file), init);
      LightReplayPlain(cfg, w, gate, file, init);
      ReplayInv(cfg, w, gate, file, init);
      assert log == init + [e];
      if e.op == "set" {
        assert e == SetEntry(e.key, e.value, e.ttl);
        AppendLog(cfg, w, before, e);
        PlainSet(cfg, w, before, init, e.key, e.value, e.ttl);
      } else if e.op == "delete" {
        PlainReplayDelete(cfg, w, before, init, e);
      }
    }
  }

  /** A node that starts in front of a light log evicts nothing, and its items are the fold of it. */
  lemma StartedPlain(cfg: Config, w: World, gate: Gate, log: seq<Entry>)
    requires Light(cfg.capacity, log)
    ensures var s := Started(cfg, w, gate, log);
            Plain(cfg.capacity, s, log) && s.log == log
  {
    LightReplayPlain(cfg.(recovering := true), w, gate, log, log);
  }

  // ----- a run after it

  lemma {:induction false} RunGrowsLog(cfg: Config, w: World, s: St, ops: seq<Op>)
    ensures s.log <= Run(cfg, w, s, ops).log
    decreases |ops|
  {
    if ops != [] {
      RunGrowsLog(cfg, w, s, ops[..|ops| - 1]);
      DoGrowsLog(cfg, w, Run(cfg, w, s, ops[..|ops| - 1]), ops[|ops| - 1]);
    }
  }

  lemma StartedGrowsLog(cfg: Config, w: World, gate: Gate, log: seq<Entry>)
    ensures log <= Started(cfg, w, gate, log).log
  {
    ReplayIsRun(cfg.(recovering := true), w, Empty(gate, log), log);
    RunGrowsLog(cfg.(recovering := true), w, Empty(gate, log), AsOps(log));
  }

  /** While its log is light, with what it found there and what it has added, a node never evicts: its
      items are the fold of the log and its counter is exact. */
  lemma {:induction false} LightRunPlain(cfg: Config, w: World, gate: Gate, log: seq<Entry>, ops: seq<Op>)
    requires Writes(cfg) && Light(cfg.capacity, Reached(cfg, w, gate, log, ops).log)
    ensures var s := Reached(cfg, w, gate, log, ops);
            Inv(cfg, s) && Plain(cfg.capacity, s, s.log) && log <= s.log
    decreases |ops|
  {
    var s0 := Started(cfg, w, gate, log);
    StartedInv(cfg, w, gate, log);
    ExactAccounting(cfg, w, s0, ops);
    if ops == [] {
      StartedGrowsLog(cfg, w, gate, log);
      LightPrefix(cfg.capacity, log, s0.log);
      StartedPlain(cfg, w, gate, log);
    } else {
      var before, op := Run(cfg, w, s0, ops[..|ops| - 1]), ops[|ops| - 1];
      DoGrowsLog(cfg, w, before, op);
      LightPrefix(cfg.capacity, before.log, Do(cfg, w, before, op).log);
      LightRunPlain(cfg, w, gate, log, ops[..|ops| - 1]);
      PlainDo(cfg, w, before, op);
    }
  }

  /** Whatever is evicted after it, the live key-to-value map of a node that started in front of a light
      log stays the fold of what is now in the log, unless a Set was rejected or evicted itself. */
  lemma LogIsFoldSinceStart(cfg: Config, w: World, gate: Gate, log: seq<Entry>, ops: seq<Op>)
    requires Writes(cfg) && Light(cfg.capacity, log)
    requires forall k :: NeverSpoiled(cfg, w, Started(cfg, w, gate, log), ops, k)
    ensures var s := Reached(cfg, w, gate, log, ops);
            Live(s.items) == Fold(cfg.capacity, s.log)
  {
    StartedPlain(cfg, w, gate, log);
    LogIsFold(cfg, w, Started(cfg, w, gate, log), ops);
  }

  // ----- end to end

  /** A file that was whole when the node started, and what the node has appended to it. */
  ghost predicate FileHolds(file: string, base: string, log: seq<Entry>, s: St) {
    && Complete(base) && ReadFile(base) == Ok(log) && log <= s.log
    && Loggable(s.log[|log|..]) && file == base + EncodeAll(s.log[|log|..])
  }

  lemma FileReadsBack(file: string, base: string, log: seq<Entry>, s: St)
    requires FileHolds(file, base, log, s)
    ensures Complete(file) && ReadFile(file) == Ok(s.log)
  {
    ReadAppended(base, s.log[|log|..]);
    Rejoin(log, s.log);
  }

  /** A node starts in front of a whole file, and runs while its log stays light; then a new node,
      possibly under another policy, starts in front of what the file has become. It rebuilds exactly
      the live key-to-value map and the byte counter, whatever Gets ran in between; and its file is
      whole again, so this goes for every further restart. */
  lemma Restart(cfg: Config, w: World, gate: Gate, base: string, log: seq<Entry>, ops: seq<Op>, file: string,
                cfg': Config, w': World, gate': Gate)
    requires Writes(cfg) && cfg'.capacity == cfg.capacity
    requires var s := Reached(cfg, w, gate, log, ops);
             Light(cfg.capacity, s.log) && FileHolds(file, base, log, s)
    ensures Complete(file) && ReadFile(file).Ok?
    ensures var s, s' := Reached(cfg, w, gate, log, ops), Started(cfg', w', gate', ReadFile(file).value);
            Live(s'.items) == Live(s.items) && s'.used == s.used && s'.log == s.log
  {
    var s := Reached(cfg, w, gate, log, ops);
    FileReadsBack(file, base, log, s);
    LightRunPlain(cfg, w, gate, log, ops);
    StartedPlain(cfg', w', gate', s.log);
    PlainUsed(cfg.capacity, s, s.log);
    PlainUsed(cfg.capacity, Started(cfg', w', gate', s.log), s.log);
  }
}
