/** What generations tell a provider's breaker, and what that does to the generations after them (app/providers/chain.py
    over app/utils/circuit_breaker.py). */
module Generations {
  import opened Outcomes
  import opened Groq
  import opened Chain
  import opened Breakers

  // One generation's turn with an entry that it looked at.
  datatype Turn = Turn(e: ChainEntry, v: Verdict)

  // The entry was called and raised an error before its first token.
  predicate FailsSilently(v: Verdict) { v.Attempted? && v.run.out == [] && v.run.end != Done }

  // Nobody else uses the breaker meanwhile.
  predicate Alone(e: ChainEntry) { e.beforeAsked == [] && e.beforeToken == [] && e.beforeFailure == [] }

  // What the breaker lives through in a turn: a success at the first token, a failure at an error, and between them
  // what other generations do to it.
  function EventsOf(t: Turn): seq<Event> {
    match t.v
    case Skipped(_) => t.e.beforeAsked
    case Attempted(run) =>
      t.e.beforeAsked
      + (if run.out == [] then [] else t.e.beforeToken + [Event(Action.Success, t.e.askedAt)])
      + (if run.end == Done then [] else t.e.beforeFailure + [Event(Action.Failure, t.e.failedAt)])
  }

  lemma {:induction false} AfterAllConcat(cfg: Config, b: Breaker, first: seq<Event>, rest: seq<Event>)
    ensures AfterAll(cfg, b, first + rest) == AfterAll(cfg, AfterAll(cfg, b, first), rest)
  {
    if rest == [] {
      assert first + rest == first;
    } else {
      var n := |rest| - 1;
      AfterAllConcat(cfg, b, first, rest[..n]);
      assert (first + rest)[..|first + rest| - 1] == first + rest[..n];
    }
  }

  lemma AfterOne(cfg: Config, b: Breaker, events: seq<Event>, ev: Event)
    ensures AfterAll(cfg, b, events + [ev]) == After(cfg, AfterAll(cfg, b, events), ev)
  {
    assert (events + [ev])[..|events|] == events;
  }

  /** What an entry's breaker is told in a turn, as events of its life. */
  lemma TurnIsItsEvents(cfg: Config, b: Breaker, t: Turn)
    ensures Told(t.v, t.e, cfg, b) == AfterAll(cfg, b, EventsOf(t))
  {
    if t.v.Attempted? {
      var run := t.v.run;
      var success, failure := Event(Action.Success, t.e.askedAt), Event(Action.Failure, t.e.failedAt);
      var shown := if run.out == [] then [] else t.e.beforeToken + [success];
      var broken := if run.end == Done then [] else t.e.beforeFailure + [failure];
      AfterAllConcat(cfg, b, t.e.beforeAsked, shown);
      AfterAllConcat(cfg, b, t.e.beforeAsked + shown, broken);
      AfterOne(cfg, AfterAll(cfg, b, t.e.beforeAsked), t.e.beforeToken, success);
      AfterOne(cfg, AfterAll(cfg, b, t.e.beforeAsked + shown), t.e.beforeFailure, failure);
    }
  }

  /** What a turn does to a breaker that nobody else uses, on its fields: an error before the first token counts one
      failure and opens the breaker at the threshold or out of a probe; text followed by an error counts a success
      and then a failure; text alone, or neither, counts no failure; and a skipped entry's breaker is left as it is.
      */
  lemma ToldAlone(cfg: Config, b: Breaker, t: Turn)
    requires Alone(t.e)
    ensures var after := Told(t.v, t.e, cfg, b);
            && (FailsSilently(t.v) ==>
                  && after.failureCount == b.failureCount + 1 && after.lastFailureTime == t.e.failedAt
                  && after.successCount == b.successCount
                  && var stays := b.state == Closed && b.failureCount + 1 < cfg.failureThreshold;
                     after.state == if stays then Closed else Open)
            && (t.v.Attempted? && t.v.run.out != [] && t.v.run.end != Done && b.state == Closed ==>
                  && after.failureCount == (if b.failureCount == 0 then 1 else b.failureCount)
                  && after.lastFailureTime == t.e.failedAt
                  && after.state == if after.failureCount < cfg.failureThreshold then Closed else Open)
            && (t.v.Attempted? && t.v.run.out != [] && t.v.run.end != Done && b.state == Open ==>
                  after == b.(failureCount := b.failureCount + 1, lastFailureTime := t.e.failedAt))
            && (t.v.Attempted? && t.v.run.out != [] && t.v.run.end == Done && b.state == Closed ==>
                  after == b.(failureCount := if b.failureCount == 0 then 0 else b.failureCount - 1))
            && (t.v.Attempted? && t.v.run.out != [] && t.v.run.end == Done && b.state == Open ==> after == b)
            && (t.v.Attempted? && t.v.run.out != [] && t.v.run.end == Done && b.state == HalfOpen ==>
                  after == if b.successCount + 1 < cfg.successThreshold then b.(successCount := b.successCount + 1)
                           else Breaker(Closed, 0, 0, b.lastFailureTime))
            && (t.v.Attempted? && t.v.run.out != [] && t.v.run.end != Done && b.state == HalfOpen ==>
                  && after.lastFailureTime == t.e.failedAt
                  && if b.successCount + 1 < cfg.successThreshold then
                       after.state == Open && after.failureCount == b.failureCount + 1
                     else
                       after.failureCount == 1 && after.state == if cfg.failureThreshold > 1 then Closed else Open)
            && (t.v.Attempted? && t.v.run.out == [] && t.v.run.end == Done ==> after == b)
            && (t.v.Skipped? ==> after == b)
  {
    assert AfterAll(cfg, b, []) == b;
  }

  // ------------------------------------------------------------------ over generations

  // A breaker after a row of turns with its entry, from state b on.
  function BreakerAfter(cfg: Config, b: Breaker, turns: seq<Turn>): Breaker {
    if turns == [] then b
    else
      var last := turns[|turns| - 1];
      Told(last.v, last.e, cfg, BreakerAfter(cfg, b, turns[..|turns| - 1]))
  }

  function EventsOfAll(turns: seq<Turn>): seq<Event> {
    if turns == [] then [] else EventsOfAll(turns[..|turns| - 1]) + EventsOf(turns[|turns| - 1])
  }

  lemma {:induction false} TurnsAreTheirEvents(cfg: Config, b: Breaker, turns: seq<Turn>)
    ensures BreakerAfter(cfg, b, turns) == AfterAll(cfg, b, EventsOfAll(turns))
  {
    if turns != [] {
      var earlier, last := turns[..|turns| - 1], turns[|turns| - 1];
      TurnsAreTheirEvents(cfg, b, earlier);
      TurnIsItsEvents(cfg, BreakerAfter(cfg, b, earlier), last);
      AfterAllConcat(cfg, b, EventsOfAll(earlier), EventsOf(last));
    }
  }

  lemma {:induction false} LifeIsAfterAll(cfg: Config, events: seq<Event>, n: nat)
    requires n <= |events|
    ensures At(cfg, events, n) == AfterAll(cfg, FRESH, events[..n])
  {
    if n > 0 {
      LifeIsAfterAll(cfg, events, n - 1);
      assert events[..n][..n - 1] == events[..n - 1];
    }
  }

  /** A provider whose breaker is used by generations alone, however many of them interleave, is given up exactly
      when some stretch of the outcomes they report has `failureThreshold` more errors than first tokens. */
  lemma GivenUpIff(cfg: Config, turns: seq<Turn>)
    requires OnlyOutcomes(EventsOfAll(turns))
    ensures var outcomes := OutcomesOf(EventsOfAll(turns));
            BreakerAfter(cfg, FRESH, turns).state == Closed
            <==> NoStretchReaches(cfg.failureThreshold, outcomes, |outcomes|)
  {
    var events := EventsOfAll(turns);
    TurnsAreTheirEvents(cfg, FRESH, turns);
    LifeIsAfterAll(cfg, events, |events|);
    assert events[..|events|] == events;
    StaysClosedIff(cfg, events);
  }

  ghost predicate AllFailSilently(turns: seq<Turn>) {
    forall i :: 0 <= i < |turns| ==> Alone(turns[i].e) && FailsSilently(turns[i].v)
  }

  lemma {:induction false} FailuresAddUp(cfg: Config, b: Breaker, turns: seq<Turn>)
    requires AllFailSilently(turns)
    ensures var after := BreakerAfter(cfg, b, turns);
            && after.failureCount == b.failureCount + |turns|
            && (turns != [] ==> after.lastFailureTime == turns[|turns| - 1].e.failedAt)
            && var stays := b.state == Closed && b.failureCount + |turns| < cfg.failureThreshold;
               turns != [] ==> after.state == if stays then Closed else Open
  {
    if turns != [] {
      var earlier, last := turns[..|turns| - 1], turns[|turns| - 1];
      FailuresAddUp(cfg, b, earlier);
      ToldAlone(cfg, BreakerAfter(cfg, b, earlier), last);
    }
  }

  /** A dead provider is skipped: once `failureThreshold` generations in a row got nothing but an error from it, a
      generation that comes within the recovery time of the last error does not call it, wherever the breaker
      started. */
  lemma DeadProviderIsSkipped(cfg: Config, b: Breaker, turns: seq<Turn>, next: ChainEntry, idle: Option<real>)
    requires AllFailSilently(turns) && |turns| >= cfg.failureThreshold && next.beforeAsked == []
    requires next.askedAt - turns[|turns| - 1].e.failedAt < cfg.recoveryTimeout as real
    ensures BreakerAfter(cfg, b, turns).state == Open
    ensures Judge(next, Some(AfterAll(cfg, BreakerAfter(cfg, b, turns), next.beforeAsked)), cfg, idle)
            == Skipped(BreakerOpen)
  {
    FailuresAddUp(cfg, b, turns);
  }

  // ------------------------------------------------------------------ what a generation does with an entry

  /** An entry is skipped for its breaker exactly while that is open and its last failure is less than the recovery time
      ago, for its prompt exactly if that does not fit, and is called otherwise: then what is heard of it is what its
      upstream run yields before the first late pull. */
  lemma JudgedIff(e: ChainEntry, b: Option<Breaker>, cfg: Config, idle: Option<real>)
    ensures var v := Judge(e, b, cfg, idle);
            var blocked := b.Some? && b.value.state == Open
                           && e.askedAt - b.value.lastFailureTime < cfg.recoveryTimeout as real;
            && (v == Skipped(BreakerOpen) <==> blocked)
            && (v == Skipped(ContextTooLarge) <==> !blocked && !e.fits)
            && (v.Attempted? <==> !blocked && e.fits)
            && (v.Attempted? ==> HeardInTime(e, idle, v.run))
  {
    assert forall k: nat :: InTime(e.delays, e.firstTimeout, idle, k) <==> !IsLate(e, idle, k);
  }

  // A pull takes longer than it may: the first one than the entry allows, a later one than the idle limit.
  predicate IsLate(e: ChainEntry, idle: Option<real>, k: nat) {
    if k == 0 then e.firstTimeout.Some? && e.delays(0) > e.firstTimeout.value
    else idle.Some? && e.delays(k) > idle.value
  }

  // What is heard is the whole upstream run, or its tokens before the first late pull and then a timeout.
  ghost predicate HeardInTime(e: ChainEntry, idle: Option<real>, run: Run) {
    var source := GroqRun(e.calls);
    && run.out <= source.out && (forall k: nat :: k < |run.out| ==> !IsLate(e, idle, k))
    && if IsLate(e, idle, |run.out|) then run.end == Raised(TimedOut(run.out == [])) else run == source
  }

  // An entry that was skipped is reported with the reason for that, one that failed with its error.
  predicate IsReport(name: string, v: Verdict, failure: (string, Reason)) {
    && failure.0 == name
    && match v
       case Skipped(reason) => failure.1 == reason
       case Attempted(run) => run.end.Raised? && failure.1 == Reason.Failed(run.end.error)
  }

  /** Which entry a generation hears: the first that shows text or ends without an error. The ones before it were
      skipped, or raised an error before any text; and if there is none, every entry is reported. */
  lemma FirstAnswerIsHeard(entries: seq<ChainEntry>, verdicts: seq<Verdict>, out: seq<string>, route: Option<Route>,
                           outcome: Outcome)
    returns (a: nat)
    requires IsGeneration(entries, verdicts, out, route, outcome)
    ensures a <= |entries| == |verdicts|
    ensures forall i :: 0 <= i < a ==> verdicts[i].Skipped? || FailsSilently(verdicts[i])
    ensures a < |entries| ==> verdicts[a].Attempted? && out == verdicts[a].run.out
    ensures a < |entries| ==> (outcome == Finished <==> verdicts[a].run.end == Done)
    ensures out == [] && a < |entries| ==> outcome == Finished
    ensures outcome.Broke? ==> a < |entries| && verdicts[a].run.end == Raised(outcome.error)
    ensures outcome.AllProvidersFailed? <==> a == |entries|
    ensures outcome.AllProvidersFailed? ==> |outcome.failures| == |entries| && out == []
    ensures outcome.AllProvidersFailed? ==>
              forall i :: 0 <= i < |entries| ==> IsReport(entries[i].name, verdicts[i], outcome.failures[i])
    ensures if out == [] then route == None
            else route.Some? && route.value.provider == entries[a].name
                 && (route.value.fallbackUsed <==> a > 0) && (route.value.fallbackReason.Some? <==> a > 0)
                 && (a > 0 ==> IsReport(entries[a - 1].name, verdicts[a - 1],
                                        (entries[a - 1].name, route.value.fallbackReason.value)))
  {
    if outcome.AllProvidersFailed? {
      a := |entries|;
    } else {
      var failures: seq<(string, Reason)> :| HeardAfter(entries, verdicts, failures, out, route, outcome);
      a := |failures|;
    }
  }
}
