/**
  What the eviction policy and the cache promise together: that the policy tracks exactly the live
  keys while the log can be written, when a Set can fail for space, and where the proactive pass
  stops.
 */
module CachePolicyLaws {
  import opened Prelude
  import opened PolicyHistory
  import opened Breaker
  import opened WalCodec
  import opened CacheSpec
  import opened CacheAccounting
  import opened CacheLocality

  /** The log is written, if it has to be. */
  predicate Written(cfg: Config, c: Choice) {
    Writes(cfg) ==> c.appended
  }

  /** Neither the log nor the store fails. */
  predicate Sure(cfg: Config, c: Choice) {
    Written(cfg, c) && c.stored
  }

  /** At all times, and between two boundaries. */
  ghost predicate Logs(cfg: Config, w: World) {
    forall t: nat :: Written(cfg, w(t))
  }

  ghost predicate LogsIn(cfg: Config, w: World, from: nat, to: nat) {
    forall t: nat :: from <= t < to ==> Written(cfg, w(t))
  }

  ghost predicate Faultless(cfg: Config, w: World) {
    forall t: nat :: Sure(cfg, w(t))
  }

  ghost predicate FaultlessIn(cfg: Config, w: World, from: nat, to: nat) {
    forall t: nat :: from <= t < to ==> Sure(cfg, w(t))
  }

  lemma ConfinedFaultless(cfg: Config, w: World, from: nat, to: nat)
    ensures LogsIn(cfg, w, from, to) ==> Logs(cfg, Confined(w, from, to))
    ensures FaultlessIn(cfg, w, from, to) ==> Faultless(cfg, Confined(w, from, to))
    ensures Agree(w, Confined(w, from, to), from, to)
  {
  }

  /** The policy tracks exactly the live keys. */
  ghost predicate InStep(s: St) {
    Tracked(s.hist) == s.items.Keys
  }

  ghost predicate ViewInStep(v: View) {
    Tracked(v.hist) == v.items.Keys
  }

  /** It does in b, and in everything readers saw between a and b. */
  ghost predicate StaysInStep(a: St, b: St) {
    && InStep(b)
    && |a.seen| <= |b.seen|
    && (forall i :: 0 <= i < |a.seen| ==> b.seen[i] == a.seen[i])
    && (forall i :: |a.seen| <= i < |b.seen| ==> ViewInStep(b.seen[i]))
  }

  lemma StaysTrans(a: St, b: St, c: St)
    requires StaysInStep(a, b) && StaysInStep(b, c)
    ensures StaysInStep(a, c)
  {
  }

  // ----- policy and store agreement

  lemma LookInStep(s: St, k: Key)
    requires InStep(s)
    ensures StaysInStep(s, Look(s, k))
  {
    RanksSnoc(s.hist, Got(k));
  }

  lemma {:induction false} LookAllInStep(s: St, ks: seq<Key>)
    requires InStep(s)
    ensures StaysInStep(s, LookAll(s, ks))
    decreases |ks|
  {
    if ks != [] {
      LookInStep(s, ks[0]);
      LookAllInStep(Look(s, ks[0]), ks[1..]);
      StaysTrans(s, Look(s, ks[0]), LookAll(s, ks));
    }
  }

  lemma YieldInStep(w: World, s: St)
    requires InStep(s)
    ensures StaysInStep(s, Yield(w, s))
  {
    LookAllInStep(Publish(s), w(s.t).gets);
    StaysTrans(s, Publish(s), LookAll(Publish(s), w(s.t).gets));
  }

  lemma AppendInStep(cfg: Config, w: World, s: St, e: Entry)
    requires InStep(s)
    ensures StaysInStep(s, Append(cfg, w, s, e).0)
  {
    YieldInStep(w, s);
    YieldInStep(w, s.(log := s.log + [e]));
  }

  lemma DeleteInStep(cfg: Config, w: World, s: St, k: Key)
    requires InStep(s)
    ensures StaysInStep(s, DeleteLocked(cfg, w, s, k).0)
  {
    var (a, ok) := Append(cfg, w, s, DeleteEntry(k));
    AppendInStep(cfg, w, s, DeleteEntry(k));
    if ok && k in a.items {
      RanksSnoc(a.hist, Dropped(k));
      YieldInStep(w, Remove(a, k));
      StaysTrans(s, a, Yield(w, Remove(a, k)));
    }
  }

  lemma ChooseInStep(cfg: Config, w: World, s: St)
    requires InStep(s)
    ensures StaysInStep(s, Choose(cfg, w, s).0) && StaysInStep(s, ChooseWithMl(cfg, w, s).0)
  {
    YieldInStep(w, s);
    YieldInStep(w, s.(gate := Predict(s.gate, Request(s.items != map[], w(s.t).call)).0));
  }

  lemma ForgetInStep(s: St, k: Key)
    requires InStep(s) && k !in s.items
    ensures StaysInStep(s, Forget(s, k))
  {
    RanksSnoc(s.hist, Dropped(k));
  }

  /** A round of the loop up to its choice of a victim. */
  lemma PickInStep(cfg: Config, w: World, s: St, c: St)
    requires InStep(s) && c == Choose(cfg, w, Yield(w, s)).0
    ensures StaysInStep(s, c) && c.items.Keys == s.items.Keys
  {
    var y := Yield(w, s);
    YieldInStep(w, s);
    YieldSettles(w, s);
    ChooseInStep(cfg, w, y);
    ChooseSettles(cfg, w, y);
    StaysTrans(s, y, c);
  }

  /** Keys attempted so far are gone, so giving up on one of them changes nothing. */
  lemma {:induction false} EvictInStep(cfg: Config, w: World, s: St, need: int, count: nat,
                                       attempted: set<Key>, e: Evicted)
    requires e == Evict(cfg, w, s, need, count, attempted)
    requires Logs(cfg, w) && InStep(s) && attempted !! s.items.Keys
    ensures StaysInStep(s, e.s)
    decreases s.items.Keys - attempted
  {
    if count < MAX_EVICTIONS && !Roomy(cfg, s, need) && s.items != map[] {
      assert e == Turn(cfg, w, s, need, count, attempted);
      var (c, victim) := Choose(cfg, w, Yield(w, s));
      PickInStep(cfg, w, s, c);
      if victim.Some? {
        var k := victim.value;
        if k in attempted {
          ForgetInStep(c, k);
          StaysTrans(s, c, e.s);
        } else if k in c.items {
          var (d, outcome) := DeleteLocked(cfg, w, c, k);
          DeleteInStep(cfg, w, c, k);
          DeleteLockedSettles(cfg, w, c, k);
          assert Written(cfg, w(c.t));
          StaysTrans(s, c, d);
          EvictInStep(cfg, w, d, need, if outcome == Done then count + 1 else count, attempted + {k}, e);
          StaysTrans(s, d, e.s);
        }
      }
    }
  }

  lemma ProactiveInStep(cfg: Config, w: World, s: St)
    requires Logs(cfg, w) && InStep(s)
    ensures StaysInStep(s, Proactive(cfg, w, s))
  {
    var y, need := Yield(w, s), s.used - cfg.capacity / 2;
    YieldInStep(w, s);
    EvictInStep(cfg, w, y, need, 0, {}, Evict(cfg, w, y, need, 0, {}));
    StaysTrans(s, y, Evict(cfg, w, y, need, 0, {}).s);
  }

  lemma TriggerInStep(cfg: Config, w: World, s: St)
    requires Logs(cfg, w) && InStep(s)
    ensures StaysInStep(s, Trigger(cfg, w, s))
  {
    var y := Yield(w, s);
    YieldInStep(w, s);
    ProactiveInStep(cfg, w, y);
    StaysTrans(s, y, Proactive(cfg, w, y));
  }

  lemma RoomInStep(cfg: Config, w: World, s: St, k: Key, v: Bytes)
    requires Logs(cfg, w) && InStep(s)
    ensures StaysInStep(s, MakeRoom(cfg, w, s, k, v).s)
  {
    var b := Yield(w, Subtract(s, k));
    YieldInStep(w, Subtract(s, k));
    assert StaysInStep(s, b);
    EvictInStep(cfg, w, b, |v|, 0, {}, Evict(cfg, w, b, |v|, 0, {}));
    StaysTrans(s, b, Evict(cfg, w, b, |v|, 0, {}).s);
  }

  lemma InsertInStep(s: St, k: Key, v: Bytes)
    requires InStep(s)
    ensures StaysInStep(s, Insert(s, k, v))
  {
    RanksSnoc(s.hist, Stored(k));
  }

  lemma CommitInStep(cfg: Config, w: World, s: St, k: Key, v: Bytes)
    requires Logs(cfg, w) && InStep(s)
    ensures StaysInStep(s, Commit(cfg, w, s, k, v).0)
  {
    var i := Insert(s, k, v);
    InsertInStep(s, k, v);
    YieldInStep(w, i);
    StaysTrans(s, i, Yield(w, i));
    TriggerInStep(cfg, w, Yield(w, i));
    StaysTrans(s, Yield(w, i), Trigger(cfg, w, Yield(w, i)));
  }

  lemma SetInStep(cfg: Config, w: World, s: St, k: Key, v: Bytes, ttl: int)
    requires Logs(cfg, w) && InStep(s)
    ensures StaysInStep(s, Set(cfg, w, s, k, v, ttl).0)
  {
    var a := Append(cfg, w, s, SetEntry(k, v, ttl)).0;
    AppendInStep(cfg, w, s, SetEntry(k, v, ttl));
    RoomInStep(cfg, w, a, k, v);
    var e := MakeRoom(cfg, w, a, k, v).s;
    StaysTrans(s, a, e);
    CommitInStep(cfg, w, e, k, v);
    StaysTrans(s, e, Commit(cfg, w, e, k, v).0);
  }

  lemma WorkerInStep(cfg: Config, w: World, s: St)
    requires InStep(s)
    ensures StaysInStep(s, Worker(cfg, w, s))
  {
    var (g, answer) := Predict(s.gate, Request(true, w(s.t).call));
    var y := Yield(w, s.(gate := g));
    YieldInStep(w, s.(gate := g));
    assert StaysInStep(s, y);
    if answer.Some? {
      DeleteInStep(cfg, w, y, answer.value);
      StaysTrans(s, y, Delete(cfg, w, y, answer.value).0);
    } else {
      var (c, victim) := ChooseWithMl(cfg, w, y);
      ChooseInStep(cfg, w, y);
      StaysTrans(s, y, c);
      if victim.Some? {
        DeleteInStep(cfg, w, c, victim.value);
        StaysTrans(s, c, Delete(cfg, w, c, victim.value).0);
      }
    }
  }

  lemma DoInStep(cfg: Config, w: World, s: St, op: Op)
    requires Logs(cfg, w) && InStep(s)
    ensures StaysInStep(s, Do(cfg, w, s, op))
  {
    match op
    case SetOp(k, v, ttl) => SetInStep(cfg, w, s, k, v, ttl);
    case GetOp(k) => LookInStep(s, k);
    case DeleteOp(k) => DeleteInStep(cfg, w, s, k);
    case AskOp =>
      YieldInStep(w, s.(gate := Predict(s.gate, Request(s.items != map[], w(s.t).call)).0));
    case WorkerOp => WorkerInStep(cfg, w, s);
  }

  lemma {:induction false} RunInStep(cfg: Config, w: World, s: St, ops: seq<Op>)
    requires Logs(cfg, w) && InStep(s)
    ensures StaysInStep(s, Run(cfg, w, s, ops))
    decreases |ops|
  {
    if ops != [] {
      var before := Run(cfg, w, s, ops[..|ops| - 1]);
      RunInStep(cfg, w, s, ops[..|ops| - 1]);
      DoInStep(cfg, w, before, ops[|ops| - 1]);
      StaysTrans(s, before, Run(cfg, w, s, ops));
    }
  }

  /** The same, when the log can be written during the run. */
  lemma KeptInStep(cfg: Config, w: World, s: St, ops: seq<Op>)
    requires LogsIn(cfg, w, s.t, Run(cfg, w, s, ops).t) && InStep(s)
    ensures StaysInStep(s, Run(cfg, w, s, ops))
  {
    var w' := Confined(w, s.t, Run(cfg, w, s, ops).t);
    ConfinedFaultless(cfg, w, s.t, Run(cfg, w, s, ops).t);
    RunLocal(cfg, w, w', s, ops);
    RunInStep(cfg, w', s, ops);
  }

  /** A replay, which appends nothing, keeps the policy in step whatever the log holds. */
  lemma StartedInStep(cfg: Config, w: World, gate: Gate, log: seq<Entry>)
    ensures StaysInStep(Empty(gate, log), Started(cfg, w, gate, log))
  {
    var recovering := cfg.(recovering := true);
    ReplayIsRun(recovering, w, Empty(gate, log), log);
    RunInStep(recovering, w, Empty(gate, log), AsOps(log));
  }

  /** In every run whose log can be written, of a node that has replayed whatever log it found, the
      policy tracks exactly the live keys in the state it ends in and in everything readers saw since
      the node was made: for LFU, LRU and the ML wrapper over either, whatever the service answers and
      the store does. */
  lemma PolicyInStep(cfg: Config, w: World, gate: Gate, log: seq<Entry>, ops: seq<Op>)
    requires LogsIn(cfg, w, Started(cfg, w, gate, log).t, Reached(cfg, w, gate, log, ops).t)
    ensures InStep(Reached(cfg, w, gate, log, ops))
    ensures forall v :: v in Reached(cfg, w, gate, log, ops).seen ==> Tracked(v.hist) == v.items.Keys
  {
    var s0, s := Started(cfg, w, gate, log), Reached(cfg, w, gate, log, ops);
    StartedInStep(cfg, w, gate, log);
    KeptInStep(cfg, w, s0, ops);
    StaysTrans(Empty(gate, log), s0, s);
    forall v | v in s.seen ensures Tracked(v.hist) == v.items.Keys {
      var i :| 0 <= i < |s.seen| && s.seen[i] == v;
      assert ViewInStep(s.seen[i]);
    }
  }

  /** What the laws below ask of a state holds of every state a node can reach, from whatever log it
      started. */
  lemma Reachable(cfg: Config, w: World, gate: Gate, log: seq<Entry>, ops: seq<Op>)
    requires LogsIn(cfg, w, Started(cfg, w, gate, log).t, Reached(cfg, w, gate, log, ops).t)
    ensures Inv(cfg, Reached(cfg, w, gate, log, ops)) && InStep(Reached(cfg, w, gate, log, ops))
  {
    StartedInv(cfg, w, gate, log);
    ExactAccounting(cfg, w, Started(cfg, w, gate, log), ops);
    PolicyInStep(cfg, w, gate, log, ops);
  }

  // ----- one round of eviction on an LFU or LRU node without faults

  lemma DeleteDone(cfg: Config, w: World, s: St, k: Key)
    requires Faultless(cfg, w)
    ensures DeleteLocked(cfg, w, s, k).1 == Done
  {
    var a := Append(cfg, w, s, DeleteEntry(k)).0;
    assert Sure(cfg, w(s.t));
    assert Sure(cfg, w(a.t));
  }

  /** The loop on an LFU or LRU node, with the policy in step and everything attempted gone. */
  ghost predicate Calm(cfg: Config, w: World, s: St, attempted: set<Key>) {
    Faultless(cfg, w) && !cfg.ml && InStep(s) && Drift(s) >= 0 && attempted !! s.items.Keys
  }

  /** A round that does not leave the loop evicts the policy's victim, which is live. */
  lemma RoundIs(cfg: Config, w: World, s: St, need: int, count: nat, attempted: set<Key>) returns (k: Key, c: St, d: St)
    requires Faultless(cfg, w) && !cfg.ml && InStep(s) && attempted !! s.items.Keys
    requires count < MAX_EVICTIONS && !Roomy(cfg, s, need) && s.items != map[]
    ensures c == Yield(w, Yield(w, s)) && d == DeleteLocked(cfg, w, c, k).0
    ensures Victim(cfg.kind, Yield(w, s).hist) == Some(k)
    ensures k in s.items && InStep(d) && Settles(s, d) && d.items.Keys == s.items.Keys - {k}
    ensures Evict(cfg, w, s, need, count, attempted) == Evict(cfg, w, d, need, count + 1, attempted + {k})
  {
    var y := Yield(w, s);
    YieldInStep(w, s);
    YieldSettles(w, s);
    c := Yield(w, y);
    YieldInStep(w, y);
    YieldSettles(w, y);
    SettlesTrans(s, y, c);
    k := Victim(cfg.kind, y.hist).value;
    d := DeleteLocked(cfg, w, c, k).0;
    DeleteInStep(cfg, w, c, k);
    DeleteLockedSettles(cfg, w, c, k);
    SettlesTrans(s, c, d);
    DeleteDone(cfg, w, c, k);
    assert k in Ranks(y.hist);
    assert Evict(cfg, w, s, need, count, attempted) == Turn(cfg, w, s, need, count, attempted);
  }

  /** How the loop ended: with room, or after exactly ten evictions. */
  ghost predicate Ended(cfg: Config, s: St, need: int, count: nat, e: Evicted) {
    && (e.exit == Fits || e.exit == MaxEvictions)
    && (e.exit == Fits ==> Roomy(cfg, e.s, need))
    && (e.exit == MaxEvictions <==> e.count == MAX_EVICTIONS)
    && |s.items.Keys| - |e.s.items.Keys| == e.count - count
  }

  lemma FullIsNotEmpty(cfg: Config, s: St, need: int)
    requires !Roomy(cfg, s, need) && need <= cfg.capacity && Drift(s) >= 0
    ensures s.items != map[]
  {
  }

  lemma Stops(cfg: Config, w: World, s: St, need: int, count: nat, attempted: set<Key>)
    requires count == MAX_EVICTIONS || (count < MAX_EVICTIONS && Roomy(cfg, s, need))
    ensures Evict(cfg, w, s, need, count, attempted) ==
            Evicted(s, if count == MAX_EVICTIONS then MaxEvictions else Fits, count)
  {
  }

  lemma OnlyLess(cfg: Config, w: World, s: St, need: int, count: nat, attempted: set<Key>, e: Evicted)
    requires e == Evict(cfg, w, s, need, count, attempted)
    ensures e.s.items.Keys <= s.items.Keys
  {
    EvictSettles(cfg, w, s, need, count, attempted);
  }

  /** d is s without one item. */
  ghost predicate OneOff(s: St, d: St, k: Key) {
    && k in s.items && d.items.Keys == s.items.Keys - {k} && d.used == s.used - s.items[k].size
    && forall j :: j in d.items ==> d.items[j].size == s.items[j].size
  }

  /** With one of the evicted items back there would be no room: nothing was evicted too many. */
  ghost predicate Tight(cfg: Config, s: St, e: St, need: int) {
    exists k :: k in s.items && k !in e.items && e.used + s.items[k].size + need > cfg.capacity
  }

  lemma TightRound(cfg: Config, s: St, need: int, k: Key, d: St, e: St)
    requires OneOff(s, d, k) && e.items.Keys <= d.items.Keys && !Roomy(cfg, s, need)
    ensures e == d || Tight(cfg, d, e, need) ==> Tight(cfg, s, e, need)
  {
    if e == d {
      assert k !in e.items && e.used + s.items[k].size + need > cfg.capacity;
    } else if Tight(cfg, d, e, need) {
      var j :| j in d.items && j !in e.items && e.used + d.items[j].size + need > cfg.capacity;
      assert j in s.items;
    }
  }

  /** What the rounds after it need to know, and what it adds to the way the loop ends. */
  lemma Round(cfg: Config, w: World, s: St, need: int, count: nat, attempted: set<Key>, e: Evicted)
    returns (k: Key, d: St)
    requires Calm(cfg, w, s, attempted) && need <= cfg.capacity
    requires count < MAX_EVICTIONS && !Roomy(cfg, s, need)
    requires e == Evict(cfg, w, s, need, count, attempted)
    ensures Calm(cfg, w, d, attempted + {k})
    ensures e == Evict(cfg, w, d, need, count + 1, attempted + {k})
    ensures Ended(cfg, d, need, count + 1, e) ==> Ended(cfg, s, need, count, e)
  {
    FullIsNotEmpty(cfg, s, need);
    var c;
    k, c, d := RoundIs(cfg, w, s, need, count, attempted);
    assert |d.items.Keys| == |s.items.Keys| - 1;
  }

  lemma {:induction false} EvictEnds(cfg: Config, w: World, s: St, need: int, count: nat,
                                     attempted: set<Key>, e: Evicted)
    requires e == Evict(cfg, w, s, need, count, attempted)
    requires Calm(cfg, w, s, attempted) && need <= cfg.capacity && count <= MAX_EVICTIONS
    ensures Ended(cfg, s, need, count, e)
    decreases MAX_EVICTIONS - count
  {
    if count == MAX_EVICTIONS || Roomy(cfg, s, need) {
      Stops(cfg, w, s, need, count, attempted);
      return;
    }
    var k, d := Round(cfg, w, s, need, count, attempted, e);
    EvictEnds(cfg, w, d, need, count + 1, attempted + {k}, e);
  }

  lemma RoundIsTight(cfg: Config, w: World, s: St, need: int, count: nat, attempted: set<Key>, e: Evicted)
    returns (k: Key, d: St)
    requires Calm(cfg, w, s, attempted) && need <= cfg.capacity
    requires count < MAX_EVICTIONS && !Roomy(cfg, s, need)
    requires e == Evict(cfg, w, s, need, count, attempted)
    ensures Calm(cfg, w, d, attempted + {k})
    ensures e == Evict(cfg, w, d, need, count + 1, attempted + {k})
    ensures e.s == d || Tight(cfg, d, e.s, need) ==> Tight(cfg, s, e.s, need)
  {
    FullIsNotEmpty(cfg, s, need);
    var c;
    k, c, d := RoundIs(cfg, w, s, need, count, attempted);
    OneLess(s, d, k);
    OnlyLess(cfg, w, d, need, count + 1, attempted + {k}, e);
    TightRound(cfg, s, need, k, d, e.s);
  }

  lemma {:induction false} EvictTight(cfg: Config, w: World, s: St, need: int, count: nat,
                                      attempted: set<Key>, e: Evicted)
    requires e == Evict(cfg, w, s, need, count, attempted)
    requires Calm(cfg, w, s, attempted) && need <= cfg.capacity && count <= MAX_EVICTIONS
    ensures e.s == s || Tight(cfg, s, e.s, need)
    decreases MAX_EVICTIONS - count
  {
    if count == MAX_EVICTIONS || Roomy(cfg, s, need) {
      Stops(cfg, w, s, need, count, attempted);
      return;
    }
    var k, d := RoundIsTight(cfg, w, s, need, count, attempted, e);
    EvictTight(cfg, w, d, need, count + 1, attempted + {k}, e);
  }

  /** On an LFU or LRU node, when no fault occurs during it, the loop leaves only because there is
      room or because it has evicted ten items; the other exits are unreachable, even when the counter
      has drifted. */
  lemma EvictExits(cfg: Config, w: World, s: St, need: int, count: nat, attempted: set<Key>, e: Evicted)
    requires e == Evict(cfg, w, s, need, count, attempted) && FaultlessIn(cfg, w, s.t, e.s.t)
    requires !cfg.ml && InStep(s) && Drift(s) >= 0 && attempted !! s.items.Keys
    requires need <= cfg.capacity && count <= MAX_EVICTIONS
    ensures Ended(cfg, s, need, count, e)
  {
    var w' := Confined(w, s.t, e.s.t);
    ConfinedFaultless(cfg, w, s.t, e.s.t);
    EvictLocal(cfg, w, w', s, need, count, attempted, e);
    EvictEnds(cfg, w', s, need, count, attempted, e);
  }

  // ----- rejection for space

  /** What a Set's outcome can be on such a node. */
  ghost predicate FailsOnlyAfterTen(cfg: Config, w: World, s: St, k: Key, v: Bytes, ttl: int) {
    var (s', outcome) := Set(cfg, w, s, k, v, ttl);
    && (outcome == Done || outcome == TooLarge || outcome == NoSpace)
    && (outcome == TooLarge <==> |v| > cfg.capacity)
    && (outcome == NoSpace ==>
          && Room(cfg, w, s, k, v, ttl).count == MAX_EVICTIONS
          && |s'.items.Keys| == |s.items.Keys| - MAX_EVICTIONS
          && !Roomy(cfg, s', |v|))
  }

  lemma FaultlessSetFails(cfg: Config, w: World, s: St, k: Key, v: Bytes, ttl: int)
    requires Faultless(cfg, w) && !cfg.ml && Inv(cfg, s) && InStep(s)
    ensures FailsOnlyAfterTen(cfg, w, s, k, v, ttl)
  {
    var (a, ok) := Append(cfg, w, s, SetEntry(k, v, ttl));
    assert Sure(cfg, w(s.t));
    AppendInStep(cfg, w, s, SetEntry(k, v, ttl));
    AppendSettles(cfg, w, s, SetEntry(k, v, ttl));
    if |v| <= cfg.capacity {
      var b := Yield(w, Subtract(a, k));
      YieldInStep(w, Subtract(a, k));
      YieldSettles(w, Subtract(a, k));
      SubtractDrift(a, k);
      EvictEnds(cfg, w, b, |v|, 0, {}, Evict(cfg, w, b, |v|, 0, {}));
      var e := MakeRoom(cfg, w, a, k, v);
      assert Sure(cfg, w(Insert(e.s, k, v).t));
    }
  }

  /** A Set during which no fault occurs fails, on an LFU or LRU node, only because the value exceeds
      the capacity, or because exactly ten evictions, all successful, still freed too little. */
  lemma SetFailsOnlyAfterTen(cfg: Config, w: World, s: St, k: Key, v: Bytes, ttl: int)
    requires FaultlessIn(cfg, w, s.t, Set(cfg, w, s, k, v, ttl).0.t) && !cfg.ml && Inv(cfg, s) && InStep(s)
    ensures FailsOnlyAfterTen(cfg, w, s, k, v, ttl)
  {
    var to := Set(cfg, w, s, k, v, ttl).0.t;
    ConfinedFaultless(cfg, w, s.t, to);
    SetTimes(cfg, w, s, k, v, ttl);
    SetLocal(cfg, w, Confined(w, s.t, to), s, k, v, ttl);
    FaultlessSetFails(cfg, Confined(w, s.t, to), s, k, v, ttl);
  }

  lemma InsertInv(cfg: Config, s: St, k: Key, v: Bytes)
    requires Inv(cfg, s) && Roomy(cfg, s, |v|)
    requires Drift(s) >= if k in s.items then s.items[k].size else 0
    ensures Inv(cfg, Insert(s, k, v))
  {
    InsertDrift(s, k, v);
    assert Insert(s, k, v).seen == s.seen;
  }

  // ----- where the proactive pass stops

  /** The pass asks for the excess over half the capacity on top of what is used. So it does nothing
      up to three quarters, and above them it goes on until the bytes used before and after it come to
      at most one and a half capacities: a full node is brought down to half. */
  ghost predicate Settled(cfg: Config, before: St, after: St) {
    if 2 * before.used <= cfg.capacity + cfg.capacity / 2
    then after.items.Keys == before.items.Keys && after.used == before.used
    else
      && after.items.Keys < before.items.Keys && Tight(cfg, before, after, before.used - cfg.capacity / 2)
      && (|| before.used + after.used <= cfg.capacity + cfg.capacity / 2
          || |after.items.Keys| == |before.items.Keys| - MAX_EVICTIONS)
  }

  lemma PassSettlesAt(cfg: Config, w: World, s: St, need: int, e: Evicted)
    requires Faultless(cfg, w) && !cfg.ml && Drift(s) >= 0 && InStep(s) && s.used <= cfg.capacity
    requires need == s.used - cfg.capacity / 2 && e == Evict(cfg, w, s, need, 0, {})
    ensures Settled(cfg, s, e.s)
  {
    if Roomy(cfg, s, need) {
      Stops(cfg, w, s, need, 0, {});
    } else {
      EvictEnds(cfg, w, s, need, 0, {}, e);
      EvictTight(cfg, w, s, need, 0, {}, e);
      OnlyLess(cfg, w, s, need, 0, {}, e);
    }
  }

  /** Up to three quarters there is no pass, or nothing for it to do. */
  lemma NoPass(cap: nat, used: int)
    requires used - cap / 2 <= cap / 20 || 2 * used <= cap
    ensures 2 * used <= cap + cap / 2
  {
  }

  lemma SmallExcess(cfg: Config, s: St, y: St)
    requires y.used == s.used && y.items.Keys == s.items.Keys
    requires 2 * s.used <= cfg.capacity || s.used - cfg.capacity / 2 <= cfg.capacity / 20
    ensures Settled(cfg, s, y)
  {
    NoPass(cfg.capacity, s.used);
  }

  ghost predicate SameBytes(s: St, y: St) {
    y.items.Keys == s.items.Keys && y.used == s.used && forall k :: k in s.items ==> y.items[k].size == s.items[k].size
  }

  lemma YieldSameBytes(w: World, s: St)
    ensures SameBytes(s, Yield(w, s))
  {
    YieldSettles(w, s);
  }

  lemma SettledFrom(cfg: Config, s: St, y: St, e: St)
    requires SameBytes(s, y) && Settled(cfg, y, e)
    ensures Settled(cfg, s, e)
  {
    if 2 * s.used > cfg.capacity + cfg.capacity / 2 {
      var need := s.used - cfg.capacity / 2;
      var k :| k in y.items && k !in e.items && e.used + y.items[k].size + need > cfg.capacity;
      assert k in s.items;
    }
  }

  lemma ProactiveSettlesAt(cfg: Config, w: World, s: St)
    requires Faultless(cfg, w) && !cfg.ml && Inv(cfg, s) && InStep(s)
    ensures Settled(cfg, s, Proactive(cfg, w, s))
  {
    var y, need := Yield(w, s), s.used - cfg.capacity / 2;
    YieldSettles(w, s);
    if need > cfg.capacity / 20 {
      YieldInStep(w, s);
      PassSettlesAt(cfg, w, y, need, Evict(cfg, w, y, need, 0, {}));
      YieldSameBytes(w, s);
      SettledFrom(cfg, s, y, Proactive(cfg, w, s));
    } else {
      SmallExcess(cfg, s, y);
    }
  }

  lemma TriggerSettlesAt(cfg: Config, w: World, s: St)
    requires Faultless(cfg, w) && !cfg.ml && Inv(cfg, s) && InStep(s)
    ensures Settled(cfg, s, Trigger(cfg, w, s))
  {
    var y := Yield(w, s);
    YieldInStep(w, s);
    YieldSettles(w, s);
    InvSettles(cfg, s, y);
    if 2 * y.used <= cfg.capacity {
      SmallExcess(cfg, s, y);
    } else {
      ProactiveSettlesAt(cfg, w, y);
      YieldSameBytes(w, s);
      SettledFrom(cfg, s, y, Trigger(cfg, w, s));
    }
  }

  /** The state in which a Set that gets that far inserts. */
  lemma InsertsInto(cfg: Config, w: World, s: St, k: Key, v: Bytes, ttl: int) returns (i: St)
    requires Faultless(cfg, w) && Inv(cfg, s) && InStep(s) && Set(cfg, w, s, k, v, ttl).1 == Done
    ensures i == Insert(Room(cfg, w, s, k, v, ttl).s, k, v) && Inv(cfg, i) && InStep(i)
    ensures Set(cfg, w, s, k, v, ttl).0 == Trigger(cfg, w, Yield(w, i))
  {
    var a := Append(cfg, w, s, SetEntry(k, v, ttl)).0;
    AppendInStep(cfg, w, s, SetEntry(k, v, ttl));
    AppendSettles(cfg, w, s, SetEntry(k, v, ttl));
    InvSettles(cfg, s, a);
    RoomKeeps(cfg, w, a, k, v);
    RoomInStep(cfg, w, a, k, v);
    var e := MakeRoom(cfg, w, a, k, v).s;
    i := Insert(e, k, v);
    InsertInStep(e, k, v);
    InsertInv(cfg, e, k, v);
  }

  lemma FaultlessSetSettles(cfg: Config, w: World, s: St, k: Key, v: Bytes, ttl: int)
    requires Faultless(cfg, w) && !cfg.ml && Inv(cfg, s) && InStep(s)
    requires Set(cfg, w, s, k, v, ttl).1 == Done
    ensures Settled(cfg, Insert(Room(cfg, w, s, k, v, ttl).s, k, v), Set(cfg, w, s, k, v, ttl).0)
  {
    var i := InsertsInto(cfg, w, s, k, v, ttl);
    YieldInStep(w, i);
    YieldSettles(w, i);
    InvSettles(cfg, i, Yield(w, i));
    TriggerSettlesAt(cfg, w, Yield(w, i));
    YieldSameBytes(w, i);
    SettledFrom(cfg, i, Yield(w, i), Set(cfg, w, s, k, v, ttl).0);
  }

  /** What the proactive pass of a successful Set does, on an LFU or LRU node, when no fault occurs
      during the Set: it evicts something if and only if the bytes used once the value is in, doubled,
      exceed C + floor(C/2); and then it stops as soon as the bytes before and after come to at most
      that, or with exactly ten evictions. */
  lemma SetSettlesAt(cfg: Config, w: World, s: St, k: Key, v: Bytes, ttl: int)
    requires FaultlessIn(cfg, w, s.t, Set(cfg, w, s, k, v, ttl).0.t) && !cfg.ml && Inv(cfg, s) && InStep(s)
    requires Set(cfg, w, s, k, v, ttl).1 == Done
    ensures Settled(cfg, Insert(Room(cfg, w, s, k, v, ttl).s, k, v), Set(cfg, w, s, k, v, ttl).0)
  {
    var to := Set(cfg, w, s, k, v, ttl).0.t;
    ConfinedFaultless(cfg, w, s.t, to);
    SetLocal(cfg, w, Confined(w, s.t, to), s, k, v, ttl);
    FaultlessSetSettles(cfg, Confined(w, s.t, to), s, k, v, ttl);
  }
}
