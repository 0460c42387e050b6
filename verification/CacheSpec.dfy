/**
  One cache node (cache/cache.go) as a value, and its operations as functions on that value.

  Every operation is a sequence of atomic sections, each under the cache's read-write mutex; a
  writer also holds writeMu from start to end, so only Gets and readers run between its sections.
  What the code cannot decide itself is read from a World: at the t-th boundary between sections,
  which Gets get in, what the prediction service does, whether the log append reaches the disk and
  whether the store call succeeds.
 */
module CacheSpec {
  import opened Prelude
  import opened PolicyHistory
  import opened Breaker
  import opened WalCodec

  type Bytes = string

  datatype Item = Item(value: Bytes, size: nat, frequency: nat)

  type Items = map<Key, Item>

  /** What a reader can see whenever the mutex is free. */
  datatype View = View(items: Items, used: int, hist: seq<Event>)

  datatype Choice = Choice(gets: seq<Key>, call: Call, appended: bool, stored: bool)

  type World = nat -> Choice

  /** ml says the policy is the ML wrapper, provider that it has been given a state provider. */
  datatype Config = Config(capacity: nat, kind: Kind, ml: bool, provider: bool, logging: bool, recovering: bool)

  datatype St = St(items: Items, used: int, hist: seq<Event>, gate: Gate, log: seq<Entry>,
                   seen: seq<View>, t: nat)

  datatype Outcome = Done | AppendFailed | TooLarge | NoSpace | StoreFailed

  const MAX_EVICTIONS: nat := 10

  function Tracked(h: seq<Event>): set<Key> {
    Ranks(h).Keys
  }

  // ----- sections under the mutex

  function Publish(s: St): St {
    s.(seen := s.seen + [View(s.items, s.used, s.hist)])
  }

  function Touch(s: St, k: Key): St {
    if k !in s.items then s
    else s.(items := s.items[k := s.items[k].(frequency := s.items[k].frequency + 1)],
            hist := s.hist + [Got(k)])
  }

  /** Get, together with the instant after it. */
  function Look(s: St, k: Key): St {
    Publish(Touch(s, k))
  }

  function LookAll(s: St, ks: seq<Key>): St
    decreases |ks|, 1
  {
    if ks == [] then s else LookOn(s, ks)
  }

  /** Apart from LookAll, so that proofs that only carry states along do not unfold the Gets. */
  function LookOn(s: St, ks: seq<Key>): St
    requires ks != []
    decreases |ks|, 0
  {
    LookAll(Look(s, ks[0]), ks[1..])
  }

  /** The mutex is free for a moment: readers may look and Gets may run. */
  function Yield(w: World, s: St): St {
    LookAll(Publish(s), w(s.t).gets).(t := s.t + 1)
  }

  function Subtract(s: St, k: Key): St {
    if k in s.items then s.(used := s.used - s.items[k].size) else s
  }

  function Insert(s: St, k: Key, v: Bytes): St {
    s.(items := s.items[k := Item(v, |v|, 1)], used := s.used + |v|, hist := s.hist + [Stored(k)])
  }

  function Remove(s: St, k: Key): St
    requires k in s.items
  {
    s.(items := s.items - {k}, used := s.used - s.items[k].size, hist := s.hist + [Dropped(k)])
  }

  function Forget(s: St, k: Key): St {
    s.(hist := s.hist + [Dropped(k)])
  }

  // ----- log, delete, choice of a victim

  function SetEntry(k: Key, v: Bytes, ttl: int): Entry {
    Entry("set", k, v, ttl)
  }

  function DeleteEntry(k: Key): Entry {
    Entry("delete", k, "", 0)
  }

  predicate Writes(cfg: Config) {
    cfg.logging && !cfg.recovering
  }

  function Append(cfg: Config, w: World, s: St, e: Entry): (St, bool) {
    if !Writes(cfg) then (Yield(w, s), true)
    else if w(s.t).appended then (Yield(w, s.(log := s.log + [e])), true)
    else (Yield(w, s), false)
  }

  function DeleteLocked(cfg: Config, w: World, s: St, k: Key): (St, Outcome) {
    var (a, ok) := Append(cfg, w, s, DeleteEntry(k));
    if !ok then (a, AppendFailed)
    else if k !in a.items then (a, Done)
    else (Yield(w, Remove(a, k)), if w(a.t).stored then Done else StoreFailed)
  }

  /** MLPolicy.ChooseEviction: ask the service first, then the wrapped policy. */
  ghost function ChooseWithMl(cfg: Config, w: World, s: St): (St, Option<Key>) {
    if cfg.provider then
      var (g, answer) := Predict(s.gate, Request(s.items != map[], w(s.t).call));
      (Yield(w, s.(gate := g)), if answer.Some? then answer else Victim(cfg.kind, s.hist))
    else (Yield(w, s), Victim(cfg.kind, s.hist))
  }

  ghost function Choose(cfg: Config, w: World, s: St): (St, Option<Key>) {
    if cfg.ml && !cfg.recovering then ChooseWithMl(cfg, w, s) else (Yield(w, s), Victim(cfg.kind, s.hist))
  }

  // ----- the eviction loop

  datatype Exit = Fits | NoItems | NoCandidate | AlreadyAttempted | NonExistent | MaxEvictions

  datatype Evicted = Evicted(s: St, exit: Exit, count: nat)

  predicate Roomy(cfg: Config, s: St, need: int) {
    s.used + need <= cfg.capacity
  }

  lemma {:induction false} LookAllKeys(s: St, ks: seq<Key>)
    ensures LookAll(s, ks).items.Keys == s.items.Keys
    decreases |ks|
  {
    if ks != [] {
      LookAllKeys(Look(s, ks[0]), ks[1..]);
    }
  }

  lemma DeleteLockedKeys(cfg: Config, w: World, s: St, k: Key)
    ensures DeleteLocked(cfg, w, s, k).0.items.Keys <= s.items.Keys
  {
    var (a, ok) := Append(cfg, w, s, DeleteEntry(k));
    LookAllKeys(Publish(s), w(s.t).gets);
    LookAllKeys(Publish(s.(log := s.log + [DeleteEntry(k)])), w(s.t).gets);
    if k in a.items {
      LookAllKeys(Publish(Remove(a, k)), w(a.t).gets);
    }
  }

  lemma ChooseKeys(cfg: Config, w: World, s: St)
    ensures Choose(cfg, w, s).0.items.Keys == s.items.Keys
  {
    LookAllKeys(Publish(s), w(s.t).gets);
    LookAllKeys(Publish(s.(gate := Predict(s.gate, Request(s.items != map[], w(s.t).call)).0)), w(s.t).gets);
  }

  /** evictToMakeSpace from the head of its loop. Each round that does not leave the loop attempts
      a live key not attempted before, so the loop ends whatever the victims and failures are. */
  ghost function Evict(cfg: Config, w: World, s: St, need: int, count: nat, attempted: set<Key>): Evicted
    decreases s.items.Keys - attempted, 2
  {
    if count >= MAX_EVICTIONS then Evicted(s, MaxEvictions, count)
    else if Roomy(cfg, s, need) then Evicted(s, Fits, count)
    else if s.items == map[] then Evicted(s, NoItems, count)
    else Turn(cfg, w, s, need, count, attempted)
  }

  /** The rest of the loop's body: choose a victim. */
  ghost function Turn(cfg: Config, w: World, s: St, need: int, count: nat, attempted: set<Key>): Evicted
    decreases s.items.Keys - attempted, 1
  {
    var (c, victim) := Choose(cfg, w, Yield(w, s));
    if victim.None? then Evicted(c, NoCandidate, count)
    else
      LookAllKeys(Publish(s), w(s.t).gets);
      ChooseKeys(cfg, w, Yield(w, s));
      Attempt(cfg, w, c, need, count, attempted, victim.value)
  }

  /** Give up on the victim or delete it, and the rounds after that. */
  ghost function Attempt(cfg: Config, w: World, c: St, need: int, count: nat, attempted: set<Key>, k: Key): Evicted
    decreases c.items.Keys - attempted, 0
  {
    if k in attempted then Evicted(Forget(c, k), AlreadyAttempted, count)
    else if k !in c.items then Evicted(c, NonExistent, count)
    else
      var (d, outcome) := DeleteLocked(cfg, w, c, k);
      DeleteLockedKeys(cfg, w, c, k);
      assert k in c.items.Keys - attempted;
      Evict(cfg, w, d, need, if outcome == Done then count + 1 else count, attempted + {k})
  }

  /** evictToMakeSpace returns no error. Its early return for want of items is one of the cases
      where there is no room. */
  predicate Freed(cfg: Config, e: Evicted, need: int) {
    Roomy(cfg, e.s, need)
  }

  // ----- the operations

  /** The pass triggerMLEvictionIfNeeded runs when more than half the capacity is used. It asks
      evictToMakeSpace for the excess over one half, on top of what is used already. */
  ghost function Proactive(cfg: Config, w: World, s: St): St {
    var need := s.used - cfg.capacity / 2;
    var y := Yield(w, s);
    if need > cfg.capacity / 20 then Evict(cfg, w, y, need, 0, {}).s else y
  }

  /** triggerMLEvictionIfNeeded: an ML node only wakes its worker. */
  ghost function Trigger(cfg: Config, w: World, s: St): St {
    var y := Yield(w, s);
    if 2 * y.used <= cfg.capacity || cfg.ml then y else Proactive(cfg, w, y)
  }

  /** The first part of a Set, up to the point where there must be room for the value. */
  ghost function MakeRoom(cfg: Config, w: World, s: St, k: Key, v: Bytes): Evicted {
    var b := Yield(w, Subtract(s, k));
    if Roomy(cfg, b, |v|) then Evicted(b, Fits, 0) else Evict(cfg, w, b, |v|, 0, {})
  }

  /** The rest of it, once there is room. */
  ghost function Commit(cfg: Config, w: World, s: St, k: Key, v: Bytes): (St, Outcome) {
    var i := Insert(s, k, v);
    if !w(i.t).stored then (Yield(w, i), StoreFailed)
    else (Trigger(cfg, w, Yield(w, i)), Done)
  }

  ghost function Set(cfg: Config, w: World, s: St, k: Key, v: Bytes, ttl: int): (St, Outcome) {
    var (a, ok) := Append(cfg, w, s, SetEntry(k, v, ttl));
    if !ok then (a, AppendFailed)
    else if |v| > cfg.capacity then (a, TooLarge)
    else
      var e := MakeRoom(cfg, w, a, k, v);
      if !Freed(cfg, e, |v|) then (e.s, NoSpace) else Commit(cfg, w, e.s, k, v)
  }

  function Delete(cfg: Config, w: World, s: St, k: Key): (St, Outcome) {
    DeleteLocked(cfg, w, s, k)
  }

  /** One turn of the background ML worker. */
  ghost function Worker(cfg: Config, w: World, s: St): St {
    if !cfg.ml || !s.gate.enabled || s.items == map[] then s
    else
      var (g, answer) := Predict(s.gate, Request(true, w(s.t).call));
      var y := Yield(w, s.(gate := g));
      match answer
      case Some(k) => Delete(cfg, w, y, k).0
      case None =>
        var (c, victim) := ChooseWithMl(cfg, w, y);
        match victim
        case Some(k) => Delete(cfg, w, c, k).0
        case None => c
  }

  /** The part of a worker's turn before it waits for writeMu. */
  function Ask(w: World, s: St): St {
    Yield(w, s.(gate := Predict(s.gate, Request(s.items != map[], w(s.t).call)).0))
  }

  /** What happens to a node: clients, the TTL sweeper (whose deletes are DeleteOps) and the ML
      worker, in one turn or as an AskOp and a later DeleteOp. */
  datatype Op =
    | SetOp(key: Key, value: Bytes, ttl: int)
    | GetOp(key: Key)
    | DeleteOp(key: Key)
    | AskOp
    | WorkerOp

  ghost function Do(cfg: Config, w: World, s: St, op: Op): St {
    match op
    case SetOp(k, v, ttl) => Set(cfg, w, s, k, v, ttl).0
    case GetOp(k) => Look(s, k)
    case DeleteOp(k) => Delete(cfg, w, s, k).0
    case AskOp => Ask(w, s)
    case WorkerOp => Worker(cfg, w, s)
  }

  ghost function Run(cfg: Config, w: World, s: St, ops: seq<Op>): St
    decreases |ops|
  {
    if ops == [] then s else Do(cfg, w, Run(cfg, w, s, ops[..|ops| - 1]), ops[|ops| - 1])
  }

  /** An empty node in front of a log it has not read. */
  function Empty(gate: Gate, log: seq<Entry>): St {
    St(map[], 0, [], gate, log, [], 0)
  }

  // ----- recovery

  ghost function Replay1(cfg: Config, w: World, s: St, e: Entry): St {
    if e.op == "set" then Set(cfg, w, s, e.key, e.value, e.ttl).0
    else if e.op == "delete" then Delete(cfg, w, s, e.key).0
    else s
  }

  /** LoadFromWAL on entries already read, with recovering set. */
  ghost function Replay(cfg: Config, w: World, s: St, log: seq<Entry>): St
    decreases |log|
  {
    if log == [] then s else Replay1(cfg, w, Replay(cfg, w, s, log[..|log| - 1]), log[|log| - 1])
  }

  /** NewCache: a node is not used before it has replayed the log it finds. */
  ghost function Started(cfg: Config, w: World, gate: Gate, log: seq<Entry>): St {
    Replay(cfg.(recovering := true), w, Empty(gate, log), log)
  }

  /** What a node has become that started in front of a log and has done ops since. */
  ghost function Reached(cfg: Config, w: World, gate: Gate, log: seq<Entry>, ops: seq<Op>): St {
    Run(cfg, w, Started(cfg, w, gate, log), ops)
  }

  /** The operations a log stands for; entries of any other kind are skipped. */
  function AsOps(log: seq<Entry>): seq<Op>
    decreases |log|
  {
    if log == [] then [] else AsOps(log[..|log| - 1]) + AsOp(log[|log| - 1])
  }

  function AsOp(e: Entry): seq<Op> {
    if e.op == "set" then [SetOp(e.key, e.value, e.ttl)]
    else if e.op == "delete" then [DeleteOp(e.key)]
    else []
  }

  lemma RunSnoc(cfg: Config, w: World, s: St, ops: seq<Op>, op: Op)
    ensures Run(cfg, w, s, ops + [op]) == Do(cfg, w, Run(cfg, w, s, ops), op)
  {
    assert (ops + [op])[..|ops|] == ops;
  }

  lemma Replay1IsRun(cfg: Config, w: World, s: St, ops: seq<Op>, e: Entry)
    ensures Replay1(cfg, w, Run(cfg, w, s, ops), e) == Run(cfg, w, s, ops + AsOp(e))
  {
    if AsOp(e) == [] {
      assert ops + [] == ops;
    } else {
      RunSnoc(cfg, w, s, ops, AsOp(e)[0]);
    }
  }

  /** A replay is a run, of a node that is recovering. */
  lemma {:induction false} ReplayIsRun(cfg: Config, w: World, s: St, log: seq<Entry>)
    ensures Replay(cfg, w, s, log) == Run(cfg, w, s, AsOps(log))
    decreases |log|
  {
    if log != [] {
      var init, e := log[..|log| - 1], log[|log| - 1];
      ReplayIsRun(cfg, w, s, init);
      Replay1IsRun(cfg, w, s, AsOps(init), e);
    }
  }
}
