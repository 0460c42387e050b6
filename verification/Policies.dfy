/**
  The eviction policies behind their common interface (eviction/policy.go): LFU, LRU, and the ML
  wrapper over either (eviction/ml_policy.go). What the prediction service answers is an argument.
 */
module Policies {
  import opened Prelude
  import opened PolicyHistory
  import opened LfuPolicy
  import opened LruPolicy
  import B = Breaker

  datatype Base = LfuBase(lfu: LFU) | LruBase(lru: LRU) {
    function Kind(): Kind {
      if LfuBase? then Lfu else Lru
    }

    ghost function Repr(): set<object>
      reads if LfuBase? then {lfu} else {}
    {
      if LfuBase? then lfu.Repr else {lru}
    }

    ghost predicate Valid()
      reads if LfuBase? then {lfu} else {}, Repr()
    {
      if LfuBase? then lfu.Valid() else lru.Valid()
    }

    ghost function Hist(): seq<Event>
      reads if LfuBase? then lfu as object else lru
    {
      if LfuBase? then lfu.hist else lru.hist
    }

    method OnGet(key: Key)
      requires Valid()
      modifies Repr()
      ensures Valid() && fresh(Repr() - old(Repr())) && Hist() == old(Hist()) + [Got(key)]
    {
      match this
      case LfuBase(l) => l.OnGet(key);
      case LruBase(l) => l.OnGet(key);
    }

    method OnSet(key: Key)
      requires Valid()
      modifies Repr()
      ensures Valid() && fresh(Repr() - old(Repr())) && Hist() == old(Hist()) + [Stored(key)]
    {
      match this
      case LfuBase(l) => l.OnSet(key);
      case LruBase(l) => l.OnSet(key);
    }

    method OnDelete(key: Key)
      requires Valid()
      modifies Repr()
      ensures Valid() && fresh(Repr() - old(Repr())) && Hist() == old(Hist()) + [Dropped(key)]
    {
      match this
      case LfuBase(l) => l.OnDelete(key);
      case LruBase(l) => l.OnDelete(key);
    }

    method ChooseEviction() returns (r: Option<Key>)
      requires Valid()
      ensures r == Victim(Kind(), Hist())
    {
      match this
      case LfuBase(l) => r := l.ChooseEviction();
      case LruBase(l) => r := l.ChooseEviction();
    }
  }

  class MLPolicy {
    const base: Base
    const stateProvider: bool  // whether one has been set
    var enabled: bool
    var lastCall: int
    var consecutiveErr: nat
    var circuitOpenTil: int

    constructor (base: Base, enabled: bool, stateProvider: bool)
      ensures this.base == base && this.stateProvider == stateProvider
      ensures Gate() == B.Gate(enabled, 0, 0, 0)
    {
      this.base, this.enabled, this.stateProvider := base, enabled, stateProvider;
      lastCall, consecutiveErr, circuitOpenTil := 0, 0, 0;
    }

    function Gate(): B.Gate
      reads this
    {
      B.Gate(enabled, lastCall, consecutiveErr, circuitOpenTil)
    }

    /** The service is asked: times are in nanoseconds, and the cooldown is a tenth of a second. */
    predicate Asks(hasKeys: bool, call: B.Call)
      reads this
    {
      enabled && hasKeys && call.checkedAt >= circuitOpenTil && call.startedAt - lastCall >= 100_000_000
    }

    /** Asked, it gives a key exactly when it replies with one. A transport error or a bad status is
        counted, and the third opens the circuit for ten seconds; a key given clears the count. */
    method GetMLPrediction(hasKeys: bool, call: B.Call) returns (r: Option<Key>)
      modifies this
      ensures forall k :: r == Some(k) <==> old(Asks(hasKeys, call)) && call.answer == B.Reply(k) && k != ""
      ensures enabled == old(enabled)
      ensures lastCall == if old(Asks(hasKeys, call)) then call.startedAt else old(lastCall)
      ensures old(Asks(hasKeys, call)) && (call.answer.TransportError? || call.answer.BadStatus?) ==>
                if old(consecutiveErr) < 2
                then consecutiveErr == old(consecutiveErr) + 1 && circuitOpenTil == old(circuitOpenTil)
                else consecutiveErr == 0 && circuitOpenTil == call.failedAt + 10_000_000_000
      ensures !(old(Asks(hasKeys, call)) && (call.answer.TransportError? || call.answer.BadStatus?)) ==>
                circuitOpenTil == old(circuitOpenTil) && consecutiveErr == if r.Some? then 0 else old(consecutiveErr)
      ensures (Gate(), r) == B.Predict(old(Gate()), B.Request(hasKeys, call))
    {
      if !enabled || !hasKeys {
        return None;
      }
      if call.checkedAt < circuitOpenTil {
        return None;
      }
      if call.startedAt - lastCall < B.COOLDOWN {
        return None;
      }
      lastCall := call.startedAt;
      match call.answer
      case TransportError =>
        RecordFailure(call.failedAt);
        return None;
      case BadStatus =>
        RecordFailure(call.failedAt);
        return None;
      case Reply(key) =>
        if key != "" {
          consecutiveErr := 0;
          return Some(key);
        }
        return None;
      case _ =>
        return None;
    }

    method RecordFailure(now: int)
      modifies this
      ensures enabled == old(enabled) && lastCall == old(lastCall)
      ensures if old(consecutiveErr) < 2
              then consecutiveErr == old(consecutiveErr) + 1 && circuitOpenTil == old(circuitOpenTil)
              else consecutiveErr == 0 && circuitOpenTil == now + 10_000_000_000
      ensures Gate() == B.RecordFailure(old(Gate()), now)
    {
      consecutiveErr := consecutiveErr + 1;
      if consecutiveErr >= B.MAX_FAILURES {
        circuitOpenTil := now + B.OPEN_FOR;
        consecutiveErr := 0;
      }
    }

    method ChooseEviction(hasKeys: bool, call: B.Call) returns (r: Option<Key>)
      requires base.Valid()
      modifies this
      ensures forall k :: stateProvider && old(Asks(hasKeys, call)) && call.answer == B.Reply(k) && k != "" ==>
                            r == Some(k)
      ensures (forall k :: stateProvider && old(Asks(hasKeys, call)) && call.answer == B.Reply(k) ==> k == "") ==>
                r == Victim(base.Kind(), base.Hist())
      ensures lastCall == if stateProvider && old(Asks(hasKeys, call)) then call.startedAt else old(lastCall)
      ensures if stateProvider then
                var (g, answer) := B.Predict(old(Gate()), B.Request(hasKeys, call));
                Gate() == g && r == (if answer.Some? then answer else Victim(base.Kind(), base.Hist()))
              else Gate() == old(Gate()) && r == Victim(base.Kind(), base.Hist())
    {
      if enabled && stateProvider {
        var answer := GetMLPrediction(hasKeys, call);
        if answer.Some? {
          return answer;
        }
      }
      r := base.ChooseEviction();
    }

    method ChooseEvictionDuringRecovery() returns (r: Option<Key>)
      requires base.Valid()
      ensures r == Victim(base.Kind(), base.Hist())
    {
      r := base.ChooseEviction();
    }
  }

  datatype EvictionPolicy = Plain(plain: Base) | Ml(ml: MLPolicy) {
    function Base(): Base {
      if Plain? then plain else ml.base
    }

    ghost function Repr(): set<object>
      reads if Base().LfuBase? then {Base().lfu} else {}
    {
      Base().Repr() + if Ml? then {ml} else {}
    }

    /** The objects the policy is reached through. */
    ghost function Own(): set<object> {
      (if Base().LfuBase? then {Base().lfu as object} else {Base().lru as object}) + if Ml? then {ml as object} else {}
    }

    ghost predicate Valid()
      reads if Base().LfuBase? then {Base().lfu} else {}, Repr()
    {
      Base().Valid() && (Ml? ==> ml !in Base().Repr())
    }

    ghost function Hist(): seq<Event>
      reads if Base().LfuBase? then Base().lfu as object else Base().lru
    {
      Base().Hist()
    }

    function Gate(): B.Gate
      reads if Ml? then {ml} else {}
    {
      if Ml? then ml.Gate() else B.Gate(false, 0, 0, 0)
    }

    // The wrapper hands the three hooks on to the policy it wraps.

    method OnGet(key: Key)
      requires Valid()
      modifies Base().Repr()
      ensures Valid() && fresh(Repr() - old(Repr()))
      ensures Hist() == old(Hist()) + [Got(key)] && Gate() == old(Gate())
    {
      Base().OnGet(key);
    }

    method OnSet(key: Key)
      requires Valid()
      modifies Base().Repr()
      ensures Valid() && fresh(Repr() - old(Repr()))
      ensures Hist() == old(Hist()) + [Stored(key)] && Gate() == old(Gate())
    {
      Base().OnSet(key);
    }

    method OnDelete(key: Key)
      requires Valid()
      modifies Base().Repr()
      ensures Valid() && fresh(Repr() - old(Repr()))
      ensures Hist() == old(Hist()) + [Dropped(key)] && Gate() == old(Gate())
    {
      Base().OnDelete(key);
    }
  }
}
