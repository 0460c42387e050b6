/**
  Whom a node evicts when it asks the prediction service, and when it does not ask: one round of the
  eviction loop, one turn of the background worker, and the replay, which never asks.
 */
module CacheChoice {
  import opened Prelude
  import opened PolicyHistory
  import opened Breaker
  import opened WalCodec
  import opened CacheSpec
  import opened CacheAccounting
  import opened CacheLocality
  import opened CachePolicyLaws

  /** The wrapper asks only when it has a state provider, and not while the node replays its log. */
  predicate MayAsk(cfg: Config) {
    cfg.ml && cfg.provider && !cfg.recovering
  }

  // ----- who touches the gate

  lemma {:induction false} LookAllGate(s: St, ks: seq<Key>)
    ensures LookAll(s, ks).gate == s.gate && LookAll(s, ks).log == s.log
    decreases |ks|
  {
    if ks != [] {
      LookAllGate(Look(s, ks[0]), ks[1..]);
    }
  }

  lemma YieldGate(w: World, s: St)
    ensures Yield(w, s).gate == s.gate && Yield(w, s).log == s.log
  {
    LookAllGate(Publish(s), w(s.t).gets);
  }

  lemma AppendGate(cfg: Config, w: World, s: St, e: Entry)
    ensures var (a, ok) := Append(cfg, w, s, e);
            && a.gate == s.gate && (ok <==> Written(cfg, w(s.t)))
            && a.log == (if Writes(cfg) && w(s.t).appended then s.log + [e] else s.log)
  {
    YieldGate(w, s);
    YieldGate(w, s.(log := s.log + [e]));
  }

  /** A delete of k in s leads to d: the entry goes to the log, if the node writes one and the append
      succeeds; if the append fails nothing else happens. */
  ghost predicate Deletes(cfg: Config, w: World, s: St, k: Key, d: St) {
    && d.gate == s.gate
    && d.items.Keys == (if Written(cfg, w(s.t)) then s.items.Keys - {k} else s.items.Keys)
    && d.log == (if Writes(cfg) && w(s.t).appended then s.log + [Entry("delete", k, "", 0)] else s.log)
  }

  /** What a delete reports: a failed append, or a failed store call for a key that was live, or success. */
  function DeleteReports(cfg: Config, w: World, s: St, k: Key): Outcome {
    if !Written(cfg, w(s.t)) then AppendFailed
    else if k in s.items && !w(s.t + 1).stored then StoreFailed
    else Done
  }

  lemma DeleteMeans(cfg: Config, w: World, s: St, k: Key)
    ensures Deletes(cfg, w, s, k, Delete(cfg, w, s, k).0)
    ensures Delete(cfg, w, s, k).1 == DeleteReports(cfg, w, s, k)
  {
    var (a, ok) := Append(cfg, w, s, DeleteEntry(k));
    AppendGate(cfg, w, s, DeleteEntry(k));
    AppendLocal(cfg, w, w, s, DeleteEntry(k));
    AppendSettles(cfg, w, s, DeleteEntry(k));
    DeleteLockedSettles(cfg, w, s, k);
    if ok && k in a.items {
      YieldGate(w, Remove(a, k));
    }
  }

  // ----- one round of the loop

  /** A round that gets to its choice of a victim. */
  predicate Picks(cfg: Config, s: St, need: int, count: nat) {
    count < MAX_EVICTIONS && !Roomy(cfg, s, need) && s.items != map[]
  }

  /** In that round the service is asked and names k. */
  predicate SuggestedAt(cfg: Config, w: World, s: St, k: Key) {
    MayAsk(cfg) && Suggests(s.gate, Request(true, w(s.t + 1).call), k)
  }

  /** In that round no key comes from the service. */
  ghost predicate Unaided(cfg: Config, w: World, s: St) {
    forall k :: !SuggestedAt(cfg, w, s, k)
  }

  /** The gate is touched by asking, and by nothing else. */
  function GateAfter(cfg: Config, w: World, s: St): Gate {
    if MayAsk(cfg) then Predict(s.gate, Request(true, w(s.t + 1).call)).0 else s.gate
  }

  /** The state in which a round has made its choice: as at its start, but for what the Gets that got
      in have read. */
  ghost predicate Chosen(cfg: Config, w: World, s: St, c: St) {
    && c.t == s.t + 2 && c.items.Keys == s.items.Keys && c.used == s.used && c.log == s.log
    && c.gate == GateAfter(cfg, w, s)
  }

  /** What the loop does from a round on that picks k. It gives up if it has tried k before, which the
      policy then forgets, or if k is not live; else k is deleted, if the log takes it, and the next
      round begins, in which k is not tried again. Only a delete that succeeds is counted. */
  ghost predicate Tries(cfg: Config, w: World, need: int, count: nat, attempted: set<Key>, e: Evicted, k: Key, c: St) {
    if k in attempted then
      e.exit == AlreadyAttempted && e.count == count && e.s == c.(hist := c.hist + [Dropped(k)])
    else if k !in c.items then
      e == Evicted(c, NonExistent, count)
    else
      exists d: St ::
        && Deletes(cfg, w, c, k, d)
        && e == Evict(cfg, w, d, need, if DeleteReports(cfg, w, c, k) == Done then count + 1 else count,
                      attempted + {k})
        && (Written(cfg, w(c.t)) ==> k !in e.s.items)
  }

  lemma AttemptTries(cfg: Config, w: World, c: St, need: int, count: nat, attempted: set<Key>, e: Evicted, k: Key)
    requires e == Attempt(cfg, w, c, need, count, attempted, k)
    ensures Tries(cfg, w, need, count, attempted, e, k, c)
  {
    if k !in attempted && k in c.items {
      var (d, outcome) := DeleteLocked(cfg, w, c, k);
      DeleteMeans(cfg, w, c, k);
      OnlyLess(cfg, w, d, need, if outcome == Done then count + 1 else count, attempted + {k}, e);
      assert Deletes(cfg, w, c, k, d);
    }
  }

  lemma PickIs(cfg: Config, w: World, s: St)
    requires s.items != map[]
    ensures var (c, victim) := Choose(cfg, w, Yield(w, s));
            var (g, answer) := Predict(s.gate, Request(true, w(s.t + 1).call));
            && c == Yield(w, Yield(w, s).(gate := if MayAsk(cfg) then g else s.gate))
            && victim == if MayAsk(cfg) && answer.Some? then answer else Victim(cfg.kind, Yield(w, s).hist)
  {
    var y := Yield(w, s);
    YieldGate(w, s);
    YieldSettles(w, s);
    assert y.items.Keys != {};
    assert y.items != map[];
    assert y.(gate := s.gate) == y;
  }

  lemma ChooseMeans(cfg: Config, w: World, s: St)
    requires s.items != map[]
    ensures var (c, victim) := Choose(cfg, w, Yield(w, s));
            && Chosen(cfg, w, s, c)
            && (forall k :: SuggestedAt(cfg, w, s, k) ==> victim == Some(k))
            && (Unaided(cfg, w, s) ==> victim == Victim(cfg.kind, Yield(w, s).hist))
  {
    var y := Yield(w, s);
    var asked := y.(gate := GateAfter(cfg, w, s));
    PickIs(cfg, w, s);
    YieldGate(w, s);
    YieldSettles(w, s);
    YieldGate(w, asked);
    YieldSettles(w, asked);
    var answer := Predict(s.gate, Request(true, w(s.t + 1).call)).1;
    assert MayAsk(cfg) && answer.Some? ==> SuggestedAt(cfg, w, s, answer.value);
  }

  /** When the service is asked in a round and names a key, the round tries that key, whatever the
      wrapped policy would pick. */
  lemma SuggestedIsTried(cfg: Config, w: World, s: St, need: int, count: nat, attempted: set<Key>, e: Evicted, k: Key)
    returns (c: St)
    requires Picks(cfg, s, need, count) && e == Evict(cfg, w, s, need, count, attempted)
    requires SuggestedAt(cfg, w, s, k)
    ensures Chosen(cfg, w, s, c) && Tries(cfg, w, need, count, attempted, e, k, c)
  {
    c := Choose(cfg, w, Yield(w, s)).0;
    ChooseMeans(cfg, w, s);
    assert e == Turn(cfg, w, s, need, count, attempted);
    AttemptTries(cfg, w, c, need, count, attempted, e, k);
  }

  /** When it is not asked, or names none, the round tries the wrapped policy's victim, and leaves the
      loop if there is none. */
  lemma VictimIsTried(cfg: Config, w: World, s: St, need: int, count: nat, attempted: set<Key>, e: Evicted)
    returns (c: St)
    requires Picks(cfg, s, need, count) && e == Evict(cfg, w, s, need, count, attempted)
    requires Unaided(cfg, w, s)
    ensures Chosen(cfg, w, s, c)
    ensures match Victim(cfg.kind, Yield(w, s).hist)
            case Some(k) => Tries(cfg, w, need, count, attempted, e, k, c)
            case None => e == Evicted(c, NoCandidate, count)
  {
    c := Choose(cfg, w, Yield(w, s)).0;
    ChooseMeans(cfg, w, s);
    assert e == Turn(cfg, w, s, need, count, attempted);
    match Victim(cfg.kind, Yield(w, s).hist)
    case Some(k) => AttemptTries(cfg, w, c, need, count, attempted, e, k);
    case None =>
  }

  // ----- a turn of the background worker

  lemma {:induction false} LookAllUngated(s: St, g: Gate, ks: seq<Key>)
    ensures LookAll(s.(gate := g), ks) == LookAll(s, ks).(gate := g)
    decreases |ks|
  {
    if ks != [] {
      LookAllUngated(Look(s, ks[0]), g, ks[1..]);
    }
  }

  /** y is s with gate g, after a moment in which Gets may have got in. */
  ghost predicate Later(w: World, s: St, g: Gate, y: St) {
    && y.t == s.t + 1 && y.items.Keys == s.items.Keys && y.used == s.used && y.log == s.log
    && y.gate == g && y.hist == Yield(w, s).hist
  }

  lemma YieldLater(w: World, s: St, g: Gate)
    ensures Later(w, s, g, Yield(w, s.(gate := g)))
  {
    YieldGate(w, s.(gate := g));
    YieldSettles(w, s.(gate := g));
    LookAllUngated(Publish(s), g, w(s.t).gets);
  }

  /** When the worker asks the service and it names a key, the worker deletes that key. */
  lemma WorkerDeletesSuggested(cfg: Config, w: World, s: St, k: Key) returns (y: St)
    requires cfg.ml && s.items != map[] && Suggests(s.gate, Request(true, w(s.t).call), k)
    ensures Later(w, s, Predict(s.gate, Request(true, w(s.t).call)).0, y)
    ensures Deletes(cfg, w, y, k, Worker(cfg, w, s))
  {
    var g := Predict(s.gate, Request(true, w(s.t).call)).0;
    y := Yield(w, s.(gate := g));
    YieldLater(w, s, g);
    DeleteMeans(cfg, w, y, k);
  }

  /** The gate after the worker's own call, and after the wrapper's, which is made only with a state
      provider. */
  function GateAfterOwn(w: World, s: St): Gate {
    Predict(s.gate, Request(true, w(s.t).call)).0
  }

  function GateAfterBoth(cfg: Config, w: World, s: St): Gate {
    if cfg.provider then Predict(GateAfterOwn(w, s), Request(true, w(s.t + 1).call)).0 else GateAfterOwn(w, s)
  }

  /** When the service names no key the worker asks the wrapper, which may ask the service once more,
      and deletes the key named then or else the wrapped policy's victim, if there is one. */
  lemma WorkerAsksWrapper(cfg: Config, w: World, s: St) returns (y: St, c: St)
    requires cfg.ml && s.gate.enabled && s.items != map[]
    requires forall k :: !Suggests(s.gate, Request(true, w(s.t).call), k)
    ensures Later(w, s, GateAfterOwn(w, s), y) && Later(w, y, GateAfterBoth(cfg, w, s), c)
    ensures forall k :: cfg.provider && Suggests(y.gate, Request(true, w(y.t).call), k) ==>
                          Deletes(cfg, w, c, k, Worker(cfg, w, s))
    ensures (forall k :: !(cfg.provider && Suggests(y.gate, Request(true, w(y.t).call), k))) ==>
              match Victim(cfg.kind, y.hist)
              case Some(k) => Deletes(cfg, w, c, k, Worker(cfg, w, s))
              case None => Worker(cfg, w, s) == c
  {
    y := Yield(w, s.(gate := GateAfterOwn(w, s)));
    YieldLater(w, s, GateAfterOwn(w, s));
    assert y.items.Keys != {};
    assert y.items != map[];
    c := ChooseWithMl(cfg, w, y).0;
    var victim := ChooseWithMl(cfg, w, y).1;
    var own, second := Predict(s.gate, Request(true, w(s.t).call)).1, Predict(y.gate, Request(true, w(y.t).call)).1;
    assert own.Some? ==> Suggests(s.gate, Request(true, w(s.t).call), own.value);
    assert second.Some? ==> Suggests(y.gate, Request(true, w(y.t).call), second.value);
    YieldLater(w, y, GateAfterBoth(cfg, w, s));
    if victim.Some? {
      DeleteMeans(cfg, w, c, victim.value);
    }
  }

  /** The worker does nothing on a node without the wrapper, with a disabled gate or without items. */
  lemma WorkerIdles(cfg: Config, w: World, s: St)
    requires !cfg.ml || !s.gate.enabled || s.items == map[]
    ensures Worker(cfg, w, s) == s
  {
  }

  // ----- a node that may not ask, above all while it replays its log

  lemma {:induction false} EvictUngated(cfg: Config, w: World, s: St, need: int, count: nat, attempted: set<Key>,
                                        e: Evicted)
    requires e == Evict(cfg, w, s, need, count, attempted) && !MayAsk(cfg)
    ensures e.s.gate == s.gate
    decreases s.items.Keys - attempted
  {
    if Picks(cfg, s, need, count) {
      var (c, victim) := Choose(cfg, w, Yield(w, s));
      ChooseMeans(cfg, w, s);
      assert e == Turn(cfg, w, s, need, count, attempted);
      assert victim.Some? ==> e == Attempt(cfg, w, c, need, count, attempted, victim.value);
      if victim.Some? && victim.value !in attempted && victim.value in c.items {
        var (d, outcome) := DeleteLocked(cfg, w, c, victim.value);
        DeleteMeans(cfg, w, c, victim.value);
        assert victim.value in s.items.Keys - attempted;
        EvictUngated(cfg, w, d, need, if outcome == Done then count + 1 else count, attempted + {victim.value}, e);
      }
    }
  }

  lemma TriggerUngated(cfg: Config, w: World, s: St)
    requires !MayAsk(cfg)
    ensures Trigger(cfg, w, s).gate == s.gate
  {
    var y := Yield(w, s);
    var z, need := Yield(w, y), y.used - cfg.capacity / 2;
    YieldGate(w, s);
    YieldGate(w, y);
    EvictUngated(cfg, w, z, need, 0, {}, Evict(cfg, w, z, need, 0, {}));
  }

  lemma CommitUngated(cfg: Config, w: World, s: St, k: Key, v: Bytes)
    requires !MayAsk(cfg)
    ensures Commit(cfg, w, s, k, v).0.gate == s.gate
  {
    YieldGate(w, Insert(s, k, v));
    TriggerUngated(cfg, w, Yield(w, Insert(s, k, v)));
  }

  lemma SetUngated(cfg: Config, w: World, s: St, k: Key, v: Bytes, ttl: int)
    requires !MayAsk(cfg)
    ensures Set(cfg, w, s, k, v, ttl).0.gate == s.gate
  {
    var a := Append(cfg, w, s, SetEntry(k, v, ttl)).0;
    var b := Yield(w, Subtract(a, k));
    AppendGate(cfg, w, s, SetEntry(k, v, ttl));
    YieldGate(w, Subtract(a, k));
    EvictUngated(cfg, w, b, |v|, 0, {}, Evict(cfg, w, b, |v|, 0, {}));
    CommitUngated(cfg, w, MakeRoom(cfg, w, a, k, v).s, k, v);
  }

  lemma {:induction false} ReplayUngated(cfg: Config, w: World, s: St, log: seq<Entry>)
    requires !MayAsk(cfg)
    ensures Replay(cfg, w, s, log).gate == s.gate
    decreases |log|
  {
    if log != [] {
      var before, e := Replay(cfg, w, s, log[..|log| - 1]), log[|log| - 1];
      ReplayUngated(cfg, w, s, log[..|log| - 1]);
      SetUngated(cfg, w, before, e.key, e.value, e.ttl);
      DeleteMeans(cfg, w, before, e.key);
    }
  }

  /** A node that starts makes no call to the service, whatever its log holds and however much of it does
      not fit: the gate is as it was. */
  lemma ReplayAsksNothing(cfg: Config, w: World, gate: Gate, log: seq<Entry>)
    ensures Started(cfg, w, gate, log).gate == gate
  {
    ReplayUngated(cfg.(recovering := true), w, Empty(gate, log), log);
  }

  // ----- an ML node's own Set runs no pass

  /** Once the value is in, an ML node evicts nothing more, logs nothing more and does not ask: what lies
      above half the capacity is left to the worker. */
  lemma MlSetRunsNoPass(cfg: Config, w: World, s: St, k: Key, v: Bytes, ttl: int)
    requires cfg.ml && Set(cfg, w, s, k, v, ttl).1 == Done
    ensures var (s', r) := (Set(cfg, w, s, k, v, ttl).0, Room(cfg, w, s, k, v, ttl));
            && s'.items.Keys == r.s.items.Keys + {k} && s'.used == r.s.used + |v|
            && s'.log == r.s.log && s'.gate == r.s.gate
  {
    var i := Insert(Room(cfg, w, s, k, v, ttl).s, k, v);
    YieldGate(w, i);
    YieldSettles(w, i);
    YieldGate(w, Yield(w, i));
    YieldSettles(w, Yield(w, i));
  }
}
