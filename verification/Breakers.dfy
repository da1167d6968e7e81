/** The per-dependency circuit breaker (app/utils/circuit_breaker.py). */
module Breakers {

  datatype CircuitState = Closed | Open | HalfOpen

  datatype RawConfig = RawConfig(failureThreshold: nat, successThreshold: nat, recoveryTimeout: nat)

  type Config = c: RawConfig | c.failureThreshold >= 1 && c.successThreshold >= 1 && c.recoveryTimeout >= 1
    witness RawConfig(5, 2, 30)

  datatype Breaker = Breaker(state: CircuitState, failureCount: nat, successCount: nat, lastFailureTime: real)

  const FRESH := Breaker(Closed, 0, 0, 0.0)

  // ------------------------------------------------------------------ transitions

  predicate Blocked(cfg: Config, b: Breaker, now: real) {
    b.state == Open && now - b.lastFailureTime < cfg.recoveryTimeout as real
  }

  function Succeeded(cfg: Config, b: Breaker): Breaker {
    match b.state
    case HalfOpen =>
      if b.successCount + 1 >= cfg.successThreshold then b.(state := Closed, failureCount := 0, successCount := 0)
      else b.(successCount := b.successCount + 1)
    case Closed => b.(failureCount := if b.failureCount == 0 then 0 else b.failureCount - 1)
    case Open => b
  }

  function Failed(cfg: Config, b: Breaker, now: real): Breaker {
    var counted := b.(failureCount := b.failureCount + 1, lastFailureTime := now);
    if b.state == HalfOpen || counted.failureCount >= cfg.failureThreshold then counted.(state := Open) else counted
  }

  // Entering `call`: an open breaker past its recovery time turns half-open.
  function Entered(cfg: Config, b: Breaker, now: real): Breaker {
    if b.state == Open && !Blocked(cfg, b, now) then b.(state := HalfOpen, successCount := 0) else b
  }

  function Tripped(b: Breaker, now: real): Breaker { b.(state := Open, lastFailureTime := now) }

  class CircuitBreaker {
    const cfg: Config
    var state: CircuitState
    var failureCount: nat
    var successCount: nat
    var lastFailureTime: real

    ghost function View(): Breaker
      reads this
    {
      Breaker(state, failureCount, successCount, lastFailureTime)
    }

    constructor (cfg: Config)
      ensures this.cfg == cfg && View() == FRESH
    {
      this.cfg := cfg;
      state, failureCount, successCount, lastFailureTime := Closed, 0, 0, 0.0;
    }

    method IsOpen(now: real) returns (blocked: bool)
      ensures blocked == Blocked(cfg, View(), now)
    {
      if state == Open {
        if now - lastFailureTime < cfg.recoveryTimeout as real {
          return true;
        }
      }
      blocked := false;
    }

    method Trip(now: real)
      modifies this
      ensures View() == Tripped(old(View()), now)
    {
      state := Open;
      lastFailureTime := now;
    }

    method Reset()
      modifies this
      ensures View() == FRESH
    {
      state, failureCount, successCount, lastFailureTime := Closed, 0, 0, 0.0;
    }

    method OnSuccess()
      modifies this
      ensures View() == Succeeded(cfg, old(View()))
    {
      if state == HalfOpen {
        successCount := successCount + 1;
        if successCount >= cfg.successThreshold {
          state := Closed;
          failureCount := 0;
          successCount := 0;
        }
      } else if state == Closed {
        failureCount := if failureCount == 0 then 0 else failureCount - 1;
      }
    }

    method OnFailure(now: real)
      modifies this
      ensures View() == Failed(cfg, old(View()), now)
    {
      failureCount := failureCount + 1;
      lastFailureTime := now;
      if state == HalfOpen {
        state := Open;
      } else if failureCount >= cfg.failureThreshold {
        state := Open;
      }
    }

    // The part of `call` before its body runs; false stands for CircuitOpenError.
    method Enter(now: real) returns (admitted: bool)
      modifies this
      ensures admitted == !Blocked(cfg, old(View()), now)
      ensures View() == Entered(cfg, old(View()), now)
    {
      if state == Open {
        if now - lastFailureTime >= cfg.recoveryTimeout as real {
          state := HalfOpen;
          successCount := 0;
        } else {
          return false;
        }
      }
      admitted := true;
    }

    // One event of the breaker's life.
    method Perform(ev: Event)
      modifies this
      ensures View() == After(cfg, old(View()), ev)
    {
      match ev.action {
        case Success => OnSuccess();
        case Failure => OnFailure(ev.now);
        case Enter => var _ := Enter(ev.now);
        case Trip => Trip(ev.now);
        case Reset => Reset();
      }
    }

    method PerformAll(events: seq<Event>)
      modifies this
      ensures View() == AfterAll(cfg, old(View()), events)
    {
      var i := 0;
      while i < |events|
        invariant 0 <= i <= |events| && View() == AfterAll(cfg, old(View()), events[..i])
      {
        assert events[..i + 1][..i] == events[..i];
        Perform(events[i]);
        i := i + 1;
      }
      assert events[..|events|] == events;
    }
  }

  // ------------------------------------------------------------------ runs

  datatype Action = Success | Failure | Enter | Trip | Reset

  datatype Event = Event(action: Action, now: real)

  function After(cfg: Config, b: Breaker, ev: Event): Breaker {
    match ev.action
    case Success => Succeeded(cfg, b)
    case Failure => Failed(cfg, b, ev.now)
    case Enter => Entered(cfg, b, ev.now)
    case Trip => Tripped(b, ev.now)
    case Reset => FRESH
  }

  function AfterAll(cfg: Config, b: Breaker, events: seq<Event>): Breaker {
    if events == [] then b else After(cfg, AfterAll(cfg, b, events[..|events| - 1]), events[|events| - 1])
  }

  // The breaker after the first n events of its life.
  function At(cfg: Config, events: seq<Event>, n: nat): Breaker
    requires n <= |events|
  {
    if n == 0 then FRESH else After(cfg, At(cfg, events, n - 1), events[n - 1])
  }

  // ------------------------------------------------------------------ closed: the largest excess of failures

  // Failures minus successes; true is a failure.
  ghost function Excess(outcomes: seq<bool>): int {
    if outcomes == [] then 0
    else Excess(outcomes[..|outcomes| - 1]) + if outcomes[|outcomes| - 1] then 1 else -1
  }

  ghost predicate IsLargestExcess(outcomes: seq<bool>, m: int) {
    && (exists k :: 0 <= k <= |outcomes| && Excess(outcomes[k..]) == m)
    && (forall k :: 0 <= k <= |outcomes| ==> Excess(outcomes[k..]) <= m)
  }

  // The outcomes reported since the breaker last closed or was reset.
  ghost function SinceClosed(cfg: Config, events: seq<Event>, n: nat): seq<bool>
    requires n <= |events|
  {
    if n == 0 then []
    else
      var before, after := At(cfg, events, n - 1), At(cfg, events, n);
      var earlier := SinceClosed(cfg, events, n - 1);
      if events[n - 1].action == Reset || (before.state != Closed && after.state == Closed) then []
      else if before.state == Closed && events[n - 1].action == Failure then earlier + [true]
      else if before.state == Closed && events[n - 1].action == Success then earlier + [false]
      else earlier
  }

  lemma ExcessAppended(outcomes: seq<bool>, x: bool, k: nat)
    requires k <= |outcomes|
    ensures Excess((outcomes + [x])[k..]) == Excess(outcomes[k..]) + if x then 1 else -1
  {
    assert (outcomes + [x])[k..] == outcomes[k..] + [x];
    assert (outcomes[k..] + [x])[..|outcomes| - k] == outcomes[k..];
  }

  lemma LargestExcessAppended(outcomes: seq<bool>, m: int, x: bool)
    requires IsLargestExcess(outcomes, m) && m >= 0
    ensures IsLargestExcess(outcomes + [x], if x then m + 1 else if m == 0 then 0 else m - 1)
  {
    var longer := outcomes + [x];
    var m' := if x then m + 1 else if m == 0 then 0 else m - 1;
    var best :| 0 <= best <= |outcomes| && Excess(outcomes[best..]) == m;
    ExcessAppended(outcomes, x, best);
    assert longer[|longer|..] == [];
    assert Excess(longer[if !x && m == 0 then |longer| else best..]) == m';
    forall k | 0 <= k <= |longer|
      ensures Excess(longer[k..]) <= m'
    {
      if k <= |outcomes| {
        ExcessAppended(outcomes, x, k);
      }
    }
  }

  /** While the breaker is closed, its failure count is the largest excess of failures over successes among all
      suffixes of the outcomes since it last closed, and it is below the threshold. */
  lemma {:induction false} ClosedCountsExcess(cfg: Config, events: seq<Event>, n: nat)
    requires n <= |events| && At(cfg, events, n).state == Closed
    ensures IsLargestExcess(SinceClosed(cfg, events, n), At(cfg, events, n).failureCount)
    ensures At(cfg, events, n).failureCount < cfg.failureThreshold
  {
    var since := SinceClosed(cfg, events, n);
    if since == [] {
      assert since[0..] == [];
    }
    if n > 0 && At(cfg, events, n - 1).state == Closed {
      ClosedCountsExcess(cfg, events, n - 1);
      var earlier, m := SinceClosed(cfg, events, n - 1), At(cfg, events, n - 1).failureCount;
      match events[n - 1].action
      case Success => LargestExcessAppended(earlier, m, false);
      case Failure => LargestExcessAppended(earlier, m, true);
      case Enter =>
      case Trip =>
      case Reset =>
    }
  }

  ghost predicate OnlyOutcomes(events: seq<Event>) {
    forall ev :: ev in events ==> ev.action == Success || ev.action == Failure
  }

  ghost function OutcomesOf(events: seq<Event>): (r: seq<bool>)
    ensures |r| == |events|
  {
    seq(|events|, i requires 0 <= i < |events| => events[i].action == Failure)
  }

  ghost predicate NoStretchReaches(threshold: int, outcomes: seq<bool>, n: nat)
    requires n <= |outcomes|
  {
    forall i, j {:trigger outcomes[i..j]} :: 0 <= i <= j <= n ==> Excess(outcomes[i..j]) < threshold
  }

  lemma NewStretches(threshold: int, all: seq<bool>, n: nat, m: int)
    requires 0 < n <= |all| && NoStretchReaches(threshold, all, n - 1) && IsLargestExcess(all[..n], m)
    ensures NoStretchReaches(threshold, all, n) <==> m < threshold
  {
    forall i | 0 <= i <= n
      ensures all[..n][i..] == all[i..n]
    {
    }
    var best :| 0 <= best <= n && Excess(all[..n][best..]) == m;
    assert Excess(all[best..n]) == m;
    if m < threshold {
      forall i, j | 0 <= i <= j <= n
        ensures Excess(all[i..j]) < threshold
      {
        if j == n {
          assert Excess(all[..n][i..]) <= m;
        }
      }
    }
  }

  lemma {:induction false} ClosedSoFar(cfg: Config, events: seq<Event>, n: nat)
    requires OnlyOutcomes(events) && n <= |events|
    ensures At(cfg, events, n).state == Closed ==> SinceClosed(cfg, events, n) == OutcomesOf(events)[..n]
    ensures At(cfg, events, n).state != HalfOpen
    ensures At(cfg, events, n).state == Closed <==> NoStretchReaches(cfg.failureThreshold, OutcomesOf(events), n)
  {
    var all := OutcomesOf(events);
    if n == 0 {
      assert all[0..0] == [];
    } else {
      ClosedSoFar(cfg, events, n - 1);
      assert events[n - 1] in events;
      assert all[..n] == all[..n - 1] + [all[n - 1]];
      if At(cfg, events, n - 1).state == Closed {
        ClosedCountsExcess(cfg, events, n - 1);
        var m := At(cfg, events, n - 1).failureCount;
        LargestExcessAppended(all[..n - 1], m, all[n - 1]);
        NewStretches(cfg.failureThreshold, all, n, if all[n - 1] then m + 1 else if m == 0 then 0 else m - 1);
      } else {
        var i, j :| 0 <= i <= j <= n - 1 && Excess(all[i..j]) >= cfg.failureThreshold;
      }
    }
  }

  /** Reported outcomes alone keep a fresh breaker closed if and only if no stretch of consecutive outcomes has
      `failureThreshold` more failures than successes. */
  lemma StaysClosedIff(cfg: Config, events: seq<Event>)
    requires OnlyOutcomes(events)
    ensures At(cfg, events, |events|).state == Closed
            <==> NoStretchReaches(cfg.failureThreshold, OutcomesOf(events), |events|)
  {
    ClosedSoFar(cfg, events, |events|);
  }

  // ------------------------------------------------------------------ half-open: consecutive successes

  ghost function Successes(events: seq<Event>, from: nat, n: nat): nat
    requires from <= n <= |events|
    decreases n
  {
    if from == n then 0 else Successes(events, from, n - 1) + if events[n - 1].action == Success then 1 else 0
  }

  // Event m - 1 opened a probe phase, and events m..n contain only successes and further entries.
  ghost predicate ProbingSince(cfg: Config, events: seq<Event>, m: nat, n: nat)
    requires n <= |events|
  {
    && 0 < m <= n
    && events[m - 1].action == Enter && At(cfg, events, m - 1).state == Open
    && !Blocked(cfg, At(cfg, events, m - 1), events[m - 1].now)
    && forall i :: m <= i < n ==> events[i].action == Success || events[i].action == Enter
  }

  lemma {:induction false} HalfOpenIsProbing(cfg: Config, events: seq<Event>, n: nat) returns (m: nat)
    requires n <= |events| && At(cfg, events, n).state == HalfOpen
    ensures ProbingSince(cfg, events, m, n)
    ensures At(cfg, events, n).successCount == Successes(events, m, n) < cfg.successThreshold
  {
    if At(cfg, events, n - 1).state == HalfOpen {
      m := HalfOpenIsProbing(cfg, events, n - 1);
    } else {
      m := n;
    }
  }

  /** A breaker that closes again without a reset has seen exactly `successThreshold` successes, and no failure
      or trip, since a call was admitted after the recovery time. */
  lemma RecoversAfterSuccesses(cfg: Config, events: seq<Event>, n: nat) returns (m: nat)
    requires 0 < n <= |events| && events[n - 1].action != Reset
    requires At(cfg, events, n - 1).state != Closed && At(cfg, events, n).state == Closed
    ensures ProbingSince(cfg, events, m, n)
    ensures Successes(events, m, n) == cfg.successThreshold
  {
    m := HalfOpenIsProbing(cfg, events, n - 1);
  }

  // ------------------------------------------------------------------ open: nothing is admitted too early

  ghost predicate Monotone(events: seq<Event>) {
    forall i, j :: 0 <= i <= j < |events| ==> events[i].now <= events[j].now
  }

  lemma {:induction false} OpenRemembersLastFailure(cfg: Config, events: seq<Event>, n: nat, i: nat)
    requires Monotone(events) && i < n <= |events| && At(cfg, events, n).state == Open
    requires events[i].action == Failure || events[i].action == Trip
    ensures events[i].now <= At(cfg, events, n).lastFailureTime
  {
    if i < n - 1 && At(cfg, events, n - 1).state == Open {
      OpenRemembersLastFailure(cfg, events, n - 1, i);
    }
    assert events[i].now <= events[n - 1].now;
  }

  /** `call` never runs its body on an open breaker until `recoveryTimeout` seconds have passed since every
      failure and every trip. */
  lemma AdmittedAfterRecovery(cfg: Config, events: seq<Event>, n: nat, i: nat)
    requires Monotone(events) && i < n < |events| && events[n].action == Enter
    requires At(cfg, events, n).state == Open && !Blocked(cfg, At(cfg, events, n), events[n].now)
    requires events[i].action == Failure || events[i].action == Trip
    ensures events[n].now - events[i].now >= cfg.recoveryTimeout as real
  {
    OpenRemembersLastFailure(cfg, events, n, i);
  }

  /** Only `call` and `reset` leave OPEN: a user of the breaker that merely asks `is_open` and reports
      outcomes, as the provider chain does, never closes it again. */
  lemma {:induction false} OutcomesNeverReopenTheWay(cfg: Config, events: seq<Event>, from: nat, n: nat)
    requires from <= n <= |events| && At(cfg, events, from).state == Open
    requires forall i :: from <= i < n ==> events[i].action != Enter && events[i].action != Reset
    ensures At(cfg, events, n).state == Open
    decreases n
  {
    if from < n {
      OutcomesNeverReopenTheWay(cfg, events, from, n - 1);
    }
  }
}
