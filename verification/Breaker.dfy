/**
  The cooldown and circuit breaker in front of the prediction service (eviction/ml_policy.go),
  as a state machine over calls. Times are in nanoseconds; what the service does is an argument.
 */
module Breaker {
  import opened Prelude
  import opened PolicyHistory

  const COOLDOWN: int := 100_000_000
  const OPEN_FOR: int := 10_000_000_000
  const MAX_FAILURES: nat := 3

  datatype Answer =
    | LocalError      // the request could not be built
    | TransportError
    | BadStatus
    | DecodeError
    | ServiceError
    | Reply(key: Key)

  /** One call to GetMLPrediction: the three readings of the clock it may take, and the answer. */
  datatype Call = Call(checkedAt: int, startedAt: int, failedAt: int, answer: Answer)

  datatype Request = Request(hasKeys: bool, call: Call)

  datatype Gate = Gate(enabled: bool, lastCall: int, consecutiveErr: nat, openUntil: int)

  predicate Attempts(g: Gate, r: Request) {
    && g.enabled && r.hasKeys
    && g.openUntil <= r.call.checkedAt
    && COOLDOWN <= r.call.startedAt - g.lastCall
  }

  /** The service is asked and names k. */
  predicate Suggests(g: Gate, r: Request, k: Key) {
    Attempts(g, r) && r.call.answer == Reply(k) && k != ""
  }

  function RecordFailure(g: Gate, now: int): Gate {
    if g.consecutiveErr + 1 >= MAX_FAILURES then g.(openUntil := now + OPEN_FOR, consecutiveErr := 0)
    else g.(consecutiveErr := g.consecutiveErr + 1)
  }

  function Predict(g: Gate, r: Request): (Gate, Option<Key>) {
    if !Attempts(g, r) then (g, None)
    else
      var g1 := g.(lastCall := r.call.startedAt);
      match r.call.answer
      case TransportError => (RecordFailure(g1, r.call.failedAt), None)
      case BadStatus => (RecordFailure(g1, r.call.failedAt), None)
      case Reply(k) => if k != "" then (g1.(consecutiveErr := 0), Some(k)) else (g1, None)
      case _ => (g1, None)
  }

  function After(g: Gate, rs: seq<Request>): Gate
    decreases |rs|
  {
    if rs == [] then g else Predict(After(g, rs[..|rs| - 1]), rs[|rs| - 1]).0
  }

  /** One caller, and a clock that never goes back. */
  ghost predicate Sequential(rs: seq<Request>) {
    && (forall i :: 0 <= i < |rs| ==> rs[i].call.checkedAt <= rs[i].call.startedAt <= rs[i].call.failedAt)
    && (forall i, j :: 0 <= i < j < |rs| ==> rs[i].call.failedAt <= rs[j].call.checkedAt)
  }

  // ----- what happened at the i-th call, read off the states around it

  predicate Attempted(g: Gate, rs: seq<Request>, i: nat) {
    i < |rs| && Attempts(After(g, rs[..i]), rs[i])
  }

  predicate FailedAt(g: Gate, rs: seq<Request>, i: nat) {
    Attempted(g, rs, i) && (rs[i].call.answer.TransportError? || rs[i].call.answer.BadStatus?)
  }

  /** The service names a key. */
  predicate ReturnedKey(g: Gate, rs: seq<Request>, i: nat) {
    Attempted(g, rs, i) && rs[i].call.answer.Reply? && rs[i].call.answer.key != ""
  }

  predicate Opened(g: Gate, rs: seq<Request>, i: nat) {
    i < |rs| && After(g, rs[..i + 1]).openUntil != After(g, rs[..i]).openUntil
  }

  predicate Resets(g: Gate, rs: seq<Request>, i: nat) {
    ReturnedKey(g, rs, i) || Opened(g, rs, i)
  }

  function Failures(g: Gate, rs: seq<Request>, from: nat, n: nat): nat
    decreases n
  {
    if n <= from then 0
    else Failures(g, rs, from, n - 1) + if FailedAt(g, rs, n - 1) then 1 else 0
  }

  // ----- one step

  lemma Step(g: Gate, rs: seq<Request>, i: nat)
    requires i < |rs|
    ensures After(g, rs[..i + 1]) == Predict(After(g, rs[..i]), rs[i]).0
  {
    assert rs[..i + 1][..i] == rs[..i];
  }

  /** The counter stays below the limit and the clock has passed the last attempt. */
  lemma {:induction false} Bounds(g: Gate, rs: seq<Request>, n: nat)
    requires n <= |rs| && g.consecutiveErr < MAX_FAILURES
    ensures After(g, rs[..n]).consecutiveErr < MAX_FAILURES
    ensures After(g, rs[..n]).enabled == g.enabled
  {
    if n > 0 {
      Bounds(g, rs, n - 1);
      Step(g, rs, n - 1);
    }
  }

  lemma {:induction false} LastCallGrows(g: Gate, rs: seq<Request>, i: nat, n: nat)
    requires Sequential(rs) && Attempted(g, rs, i) && i < n <= |rs|
    ensures rs[i].call.startedAt <= After(g, rs[..n]).lastCall
    ensures After(g, rs[..n]).lastCall <= rs[n - 1].call.startedAt
  {
    Step(g, rs, n - 1);
    if i < n - 1 {
      LastCallGrows(g, rs, i, n - 1);
    }
  }

  /** Attempts are at least the cooldown apart. */
  lemma AttemptsSpaced(g: Gate, rs: seq<Request>, i: nat, j: nat)
    requires Sequential(rs) && i < j && Attempted(g, rs, i) && Attempted(g, rs, j)
    ensures rs[j].call.startedAt - rs[i].call.startedAt >= COOLDOWN
  {
    LastCallGrows(g, rs, i, j);
  }

  /** The circuit opens at a call exactly when that call is a recorded failure that finds the
      counter one below the limit; it then stays open for OPEN_FOR from the failure. */
  lemma OpenedMeans(g: Gate, rs: seq<Request>, i: nat)
    requires Sequential(rs) && i < |rs|
    ensures Opened(g, rs, i) <==>
            FailedAt(g, rs, i) && After(g, rs[..i]).consecutiveErr + 1 >= MAX_FAILURES
    ensures Opened(g, rs, i) ==> After(g, rs[..i + 1]).openUntil == rs[i].call.failedAt + OPEN_FOR
  {
    Step(g, rs, i);
  }

  lemma CounterStep(g: Gate, rs: seq<Request>, i: nat)
    requires Sequential(rs) && i < |rs| && !Resets(g, rs, i)
    ensures After(g, rs[..i + 1]).consecutiveErr ==
            After(g, rs[..i]).consecutiveErr + if FailedAt(g, rs, i) then 1 else 0
  {
    Step(g, rs, i);
    OpenedMeans(g, rs, i);
  }

  /** Between resets the counter grows by one for each recorded failure. */
  lemma {:induction false} CounterMeans(g: Gate, rs: seq<Request>, from: nat, n: nat)
    requires Sequential(rs) && from <= n <= |rs|
    requires forall i :: from <= i < n ==> !Resets(g, rs, i)
    ensures After(g, rs[..n]).consecutiveErr == After(g, rs[..from]).consecutiveErr + Failures(g, rs, from, n)
  {
    if from < n {
      CounterMeans(g, rs, from, n - 1);
      CounterStep(g, rs, n - 1);
    }
  }

  /** The circuit opens exactly at the third recorded failure since the last returned key, the
      last opening, or the start. */
  lemma OpensExactlyAtThirdFailure(g: Gate, rs: seq<Request>, from: nat, i: nat)
    requires Sequential(rs) && g.consecutiveErr == 0 && from <= i < |rs|
    requires from == 0 || Resets(g, rs, from - 1)
    requires forall j :: from <= j < i ==> !Resets(g, rs, j)
    ensures Opened(g, rs, i) <==> FailedAt(g, rs, i) && Failures(g, rs, from, i) == 2
  {
    if from > 0 {
      Step(g, rs, from - 1);
      OpenedMeans(g, rs, from - 1);
    } else {
      assert rs[..0] == [];
    }
    CounterMeans(g, rs, from, i);
    OpenedMeans(g, rs, i);
    Bounds(g, rs, i);
  }

  lemma {:induction false} OpenUntilHolds(g: Gate, rs: seq<Request>, i: nat, n: nat)
    requires Sequential(rs) && Opened(g, rs, i) && i < n <= |rs|
    ensures rs[i].call.failedAt + OPEN_FOR <= After(g, rs[..n]).openUntil
  {
    if n == i + 1 {
      OpenedMeans(g, rs, i);
    } else {
      OpenUntilHolds(g, rs, i, n - 1);
      Step(g, rs, n - 1);
    }
  }

  /** No attempt starts while the circuit is open. */
  lemma NoAttemptWhileOpen(g: Gate, rs: seq<Request>, i: nat, j: nat)
    requires Sequential(rs) && Opened(g, rs, i) && i < j && Attempted(g, rs, j)
    ensures rs[j].call.checkedAt >= rs[i].call.failedAt + OPEN_FOR
  {
    OpenUntilHolds(g, rs, i, j);
  }

  // ----- a service that only fails

  ghost predicate AlwaysFails(g: Gate, rs: seq<Request>) {
    forall i: nat :: Attempted(g, rs, i) ==> FailedAt(g, rs, i)
  }

  lemma {:induction false} FailuresGrow(g: Gate, rs: seq<Request>, from: nat, i: nat, n: nat)
    requires from <= i < n && FailedAt(g, rs, i)
    ensures Failures(g, rs, from, n) > Failures(g, rs, from, i)
    decreases n
  {
    if i < n - 1 {
      FailuresGrow(g, rs, from, i, n - 1);
    }
  }

  lemma ThreeFailuresCount(g: Gate, rs: seq<Request>, a: nat, b: nat, c: nat)
    requires a < b < c && FailedAt(g, rs, a) && FailedAt(g, rs, b) && FailedAt(g, rs, c)
    ensures Failures(g, rs, a, c + 1) >= 3
  {
    FailuresGrow(g, rs, a, a, b);
    FailuresGrow(g, rs, a, b, c);
    FailuresGrow(g, rs, a, c, c + 1);
  }

  /** Three attempts in a row without success do not pass without an opening. */
  lemma ThreeAttemptsOpen(g: Gate, rs: seq<Request>, a: nat, b: nat, c: nat)
    requires Sequential(rs) && g.consecutiveErr < MAX_FAILURES && AlwaysFails(g, rs)
    requires a < b < c && Attempted(g, rs, a) && Attempted(g, rs, b) && Attempted(g, rs, c)
    ensures exists o: nat :: a <= o <= c && Opened(g, rs, o)
  {
    if forall o: nat :: a <= o <= c ==> !Opened(g, rs, o) {
      forall i: nat | a <= i < c + 1 ensures !Resets(g, rs, i) {
        assert ReturnedKey(g, rs, i) ==> Attempted(g, rs, i) && !FailedAt(g, rs, i);
      }
      ThreeFailuresCount(g, rs, a, b, c);
      CounterMeans(g, rs, a, c + 1);
      Bounds(g, rs, c + 1);
    }
  }

  /** Among any four attempts the last starts at least OPEN_FOR after the first. */
  lemma FourthAttemptWaits(g: Gate, rs: seq<Request>, a: nat, b: nat, c: nat, d: nat)
    requires Sequential(rs) && g.consecutiveErr < MAX_FAILURES && AlwaysFails(g, rs)
    requires a < b < c < d
    requires Attempted(g, rs, a) && Attempted(g, rs, b) && Attempted(g, rs, c) && Attempted(g, rs, d)
    ensures rs[d].call.startedAt >= rs[a].call.startedAt + OPEN_FOR
  {
    ThreeAttemptsOpen(g, rs, a, b, c);
    var o: nat :| a <= o <= c && Opened(g, rs, o);
    NoAttemptWhileOpen(g, rs, o, d);
    assert rs[a].call.startedAt <= rs[o].call.failedAt;
  }

  /** Attempts whose start lies in the half-open window of length OPEN_FOR from x. */
  ghost function AttemptsIn(g: Gate, rs: seq<Request>, x: int): set<nat> {
    set i: nat | i < |rs| && Attempted(g, rs, i) && x <= rs[i].call.startedAt < x + OPEN_FOR
  }

  lemma Least(s: set<nat>) returns (x: nat)
    requires s != {}
    ensures x in s && forall y :: y in s ==> x <= y
    decreases |s|
  {
    x :| x in s;
    if s - {x} != {} {
      var y := Least(s - {x});
      assert forall z :: z in s ==> z in s - {x} || z == x;
      x := if y < x then y else x;
    } else {
      assert forall z :: z in s ==> z in s - {x} || z == x;
    }
  }

  /** The four least of more than three. */
  lemma FourLeast(s: set<nat>) returns (a: nat, b: nat, c: nat, d: nat)
    requires |s| > 3
    ensures a < b < c < d && a in s && b in s && c in s && d in s
  {
    a := Least(s);
    assert |s - {a}| > 2;
    b := Least(s - {a});
    assert |s - {a} - {b}| > 1;
    c := Least(s - {a} - {b});
    assert |s - {a} - {b} - {c}| > 0;
    d := Least(s - {a} - {b} - {c});
  }

  /** A service that only fails is asked at most three times in any such window. */
  lemma AtMostThreeAttemptsPerWindow(g: Gate, rs: seq<Request>, x: int)
    requires Sequential(rs) && g.consecutiveErr < MAX_FAILURES && AlwaysFails(g, rs)
    ensures |AttemptsIn(g, rs, x)| <= 3
  {
    if |AttemptsIn(g, rs, x)| > 3 {
      var a, b, c, d := FourLeast(AttemptsIn(g, rs, x));
      FourthAttemptWaits(g, rs, a, b, c, d);
    }
  }

  // ----- replies that cannot be decoded

  /** A request whose clock readings all fall on the n-th multiple of the cooldown. */
  function Tick(n: nat, answer: Answer): Request {
    Request(true, Call(n * COOLDOWN, n * COOLDOWN, n * COOLDOWN, answer))
  }

  /** A gate in use, before its first call. */
  const FRESH := Gate(true, 0, 0, 0)

  /** Three transport errors with undecodable replies in between are not consecutive, yet open the
      circuit at the third. */
  lemma InterruptedFailuresOpen(rs: seq<Request>)
    requires rs == [Tick(1, TransportError), Tick(2, DecodeError), Tick(3, TransportError),
                    Tick(4, DecodeError), Tick(5, TransportError)]
    ensures Opened(FRESH, rs, 4) && forall i :: 0 <= i < 4 ==> !Opened(FRESH, rs, i)
  {
    assert rs[..0] == [];
    Step(FRESH, rs, 0);
    Step(FRESH, rs, 1);
    Step(FRESH, rs, 2);
    Step(FRESH, rs, 3);
    Step(FRESH, rs, 4);
  }

  /** Three undecodable replies in a row do not open it. */
  lemma UndecodableRepliesDoNotOpen(rs: seq<Request>)
    requires rs == [Tick(1, DecodeError), Tick(2, DecodeError), Tick(3, DecodeError)]
    ensures forall i :: 0 <= i < 3 ==> Attempted(FRESH, rs, i) && !Opened(FRESH, rs, i)
  {
    assert rs[..0] == [];
    Step(FRESH, rs, 0);
    Step(FRESH, rs, 1);
    Step(FRESH, rs, 2);
  }

  // ----- where waiting ends

  /** A call is made from the moment the circuit closes and the cooldown of a tenth of a second has passed,
      and not a nanosecond earlier; never for a cache without keys or with the wrapper disabled. */
  lemma WaitingEnds(g: Gate, answer: Answer)
    requires g.enabled && g.lastCall + 100_000_000 <= g.openUntil
    ensures Attempts(g, Request(true, Call(g.openUntil, g.openUntil, g.openUntil, answer)))
    ensures !Attempts(g, Request(true, Call(g.openUntil - 1, g.openUntil, g.openUntil, answer)))
    ensures !Attempts(g, Request(true, Call(g.openUntil, g.lastCall + 99_999_999, g.openUntil, answer)))
    ensures !Attempts(g, Request(false, Call(g.openUntil, g.openUntil, g.openUntil, answer)))
    ensures !Attempts(g.(enabled := false), Request(true, Call(g.openUntil, g.openUntil, g.openUntil, answer)))
  {
  }
}
