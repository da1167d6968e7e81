/** The ordered provider chain (app/providers/chain.py) with its token deadlines
    (`with_deadlines` in app/providers/router.py) over adapters that may retry (`Groq`). */
module Chain {
  import opened Outcomes
  import opened Breakers
  import opened Groq

  // ------------------------------------------------------------------ deadlines

  // delays(k) is the time the k-th pull of the source takes; no limit means no deadline.
  predicate InTime(delays: nat -> real, first: Option<real>, idle: Option<real>, k: nat) {
    var limit := if k == 0 then first else idle;
    limit.Some? ==> delays(k) <= limit.value
  }

  /** What passes the deadlines: everything the source yields before its first late pull. */
  ghost predicate PassesDeadlines(source: Run, delays: nat -> real, first: Option<real>, idle: Option<real>,
                                  held: Run) {
    && held.out <= source.out
    && (forall k: nat :: k < |held.out| ==> InTime(delays, first, idle, k))
    && if InTime(delays, first, idle, |held.out|) then held == source
       else held.end == Raised(TimedOut(|held.out| == 0))
  }

  function Held(source: Run, delays: nat -> real, first: Option<real>, idle: Option<real>, k: nat): (r: Run)
    requires k <= |source.out|
    requires forall j: nat :: j < k ==> InTime(delays, first, idle, j)
    ensures k <= |r.out|
    ensures PassesDeadlines(source, delays, first, idle, r)
    decreases |source.out| - k
  {
    if !InTime(delays, first, idle, k) then Run(source.out[..k], Raised(TimedOut(k == 0)))
    else if k == |source.out| then source
    else Held(source, delays, first, idle, k + 1)
  }

  lemma PassingIsUnique(source: Run, delays: nat -> real, first: Option<real>, idle: Option<real>, a: Run, b: Run)
    requires PassesDeadlines(source, delays, first, idle, a) && PassesDeadlines(source, delays, first, idle, b)
    ensures a == b
  {
    var m: nat, n: nat := |a.out|, |b.out|;
    assert m < n ==> InTime(delays, first, idle, m);
    assert n < m ==> InTime(delays, first, idle, n);
  }

  method WithDeadlines(source: Run, delays: nat -> real, first: Option<real>, idle: Option<real>) returns (held: Run)
    ensures PassesDeadlines(source, delays, first, idle, held)
  {
    var isFirst := true;
    var out: seq<string> := [];
    var i := 0;
    while true
      invariant 0 <= i <= |source.out| && out == source.out[..i]
      invariant isFirst <==> i == 0
      invariant forall k: nat :: k < i ==> InTime(delays, first, idle, k)
      decreases |source.out| - i
    {
      var limit := if isFirst then first else idle;
      if limit.Some? && delays(i) > limit.value {
        return Run(out, Raised(TimedOut(isFirst)));
      }
      if i == |source.out| {
        assert out == source.out;
        return Run(out, source.end);
      }
      isFirst := false;
      out := out + [source.out[i]];
      i := i + 1;
    }
  }

  // ------------------------------------------------------------------ entries

  // One provider: its upstream calls, the time its pulls take, whether the prompt fits its context budget, and the
  // times at which its breaker is asked and, if it comes to that, told of a failure. The breaker is shared with other
  // generations: what they do to it is given up to where it is asked, from there up to the first token, and from
  // there up to a failure.
  datatype ChainEntry = ChainEntry(
    name: string, breaker: CircuitBreaker?, firstTimeout: Option<real>,
    calls: nat -> Call, delays: nat -> real, fits: bool, askedAt: real, failedAt: real,
    beforeAsked: seq<Event>, beforeToken: seq<Event>, beforeFailure: seq<Event>)

  datatype Reason = BreakerOpen | ContextTooLarge | Failed(error: StreamError)

  datatype Verdict = Skipped(reason: Reason) | Attempted(run: Run)

  function RunOfEntry(e: ChainEntry, idle: Option<real>): Run {
    Held(GroqRun(e.calls), e.delays, e.firstTimeout, idle, 0)
  }

  // What the chain sees of an entry whose breaker is in state b when it is asked.
  function Judge(e: ChainEntry, b: Option<Breaker>, cfg: Config, idle: Option<real>): Verdict {
    if b.Some? && Blocked(cfg, b.value, e.askedAt) then Skipped(BreakerOpen)
    else if !e.fits then Skipped(ContextTooLarge)
    else Attempted(RunOfEntry(e, idle))
  }

  // An entry that answers: it was tried and did not fail before its first token.
  predicate Answers(v: Verdict) { v.Attempted? && (v.run.out != [] || v.run.end == Done) }

  function ReasonOf(v: Verdict): Reason
    requires !Answers(v)
  {
    match v
    case Skipped(r) => r
    case Attempted(run) => Reason.Failed(run.end.error)
  }

  // How an entry's breaker is told about it, among what other generations do to it.
  function Told(v: Verdict, e: ChainEntry, cfg: Config, b: Breaker): Breaker {
    var asked := AfterAll(cfg, b, e.beforeAsked);
    match v
    case Skipped(_) => asked
    case Attempted(run) =>
      var after := if run.out != [] then Succeeded(cfg, AfterAll(cfg, asked, e.beforeToken)) else asked;
      if run.end == Done then after else Breakers.Failed(cfg, AfterAll(cfg, after, e.beforeFailure), e.failedAt)
  }

  ghost function BreakersOf(entries: seq<ChainEntry>): set<CircuitBreaker> {
    set e | e in entries && e.breaker != null :: e.breaker
  }

  // Each entry has its own circuit breaker.
  ghost predicate OwnBreakers(entries: seq<ChainEntry>) {
    forall i, j :: 0 <= i < j < |entries| && entries[i].breaker != null ==> entries[i].breaker != entries[j].breaker
  }

  ghost function VerdictOf(e: ChainEntry, idle: Option<real>): Verdict
    reads if e.breaker == null then {} else {e.breaker}
  {
    if e.breaker == null then Judge(e, None, RawConfig(5, 2, 30), idle)
    else Judge(e, Some(AfterAll(e.breaker.cfg, e.breaker.View(), e.beforeAsked)), e.breaker.cfg, idle)
  }

  ghost predicate IsToldOf(e: ChainEntry, v: Verdict, before: Breaker)
    requires e.breaker != null
    reads e.breaker
  {
    e.breaker.View() == Told(v, e, e.breaker.cfg, before)
  }

  datatype Route = Route(provider: string, fallbackUsed: bool, fallbackReason: Option<Reason>)

  datatype Outcome =
    | Finished
    | Broke(error: StreamError)
    | AllProvidersFailed(failures: seq<(string, Reason)>)

  ghost predicate ReportsAll(entries: seq<ChainEntry>, verdicts: seq<Verdict>, failures: seq<(string, Reason)>) {
    && |failures| <= |entries| && |failures| <= |verdicts|
    && forall i :: 0 <= i < |failures| ==>
         !Answers(verdicts[i]) && failures[i] == (entries[i].name, ReasonOf(verdicts[i]))
  }

  /** One generation: the first entry that answers is the only one heard, later entries are not touched, and if
      no entry answers exactly one reason per entry is reported, in order. */
  ghost predicate IsGeneration(entries: seq<ChainEntry>, verdicts: seq<Verdict>, out: seq<string>,
                               route: Option<Route>, outcome: Outcome) {
    && |verdicts| == |entries|
    && match outcome
       case AllProvidersFailed(failures) =>
         |failures| == |entries| && ReportsAll(entries, verdicts, failures) && out == [] && route == None
       case _ =>
         exists failures: seq<(string, Reason)> :: HeardAfter(entries, verdicts, failures, out, route, outcome)
  }

  // The entry after the failed ones answers.
  ghost predicate HeardAfter(entries: seq<ChainEntry>, verdicts: seq<Verdict>, failures: seq<(string, Reason)>,
                             out: seq<string>, route: Option<Route>, outcome: Outcome) {
    var a := |failures|;
    && a < |entries| && a < |verdicts| && ReportsAll(entries, verdicts, failures)
    && Answers(verdicts[a])
    && out == verdicts[a].run.out
    && outcome == (if verdicts[a].run.end == Done then Finished else Broke(verdicts[a].run.end.error))
    && route == (if out == [] then None
                 else Some(Route(entries[a].name, a > 0, if a > 0 then Some(failures[a - 1].1) else None)))
  }

  // The first n entries were looked at: the last of them answers, or there are no more.
  ghost predicate FirstAnswer(verdicts: seq<Verdict>, n: nat) {
    && n <= |verdicts|
    && (forall i :: 0 <= i < n - 1 ==> !Answers(verdicts[i]))
    && (n < |verdicts| ==> n > 0 && Answers(verdicts[n - 1]))
  }

  // The breakers of the first n entries were told their verdicts, among what others did to them meanwhile; this
  // generation does nothing to the other breakers.
  ghost predicate TellsFirst(entries: seq<ChainEntry>, verdicts: seq<Verdict>, before: seq<Breaker>, n: nat)
    requires |entries| == |verdicts| == |before|
    reads BreakersOf(entries)
  {
    forall i :: 0 <= i < |entries| && entries[i].breaker != null ==>
      entries[i].breaker.View() ==
        if i < n then Told(verdicts[i], entries[i], entries[i].breaker.cfg, before[i]) else before[i]
  }

  ghost function ViewsOf(entries: seq<ChainEntry>): (r: seq<Breaker>)
    reads BreakersOf(entries)
    ensures |r| == |entries|
  {
    seq(|entries|, i requires 0 <= i < |entries| reads BreakersOf(entries) =>
      if entries[i].breaker == null then FRESH else entries[i].breaker.View())
  }

  ghost function VerdictsOf(entries: seq<ChainEntry>, idle: Option<real>): (r: seq<Verdict>)
    reads BreakersOf(entries)
    ensures |r| == |entries|
  {
    seq(|entries|, i requires 0 <= i < |entries| reads BreakersOf(entries) => VerdictOf(entries[i], idle))
  }

  ghost function Own(e: ChainEntry): set<object> {
    if e.breaker == null then {} else {e.breaker}
  }

  // One turn of the loop: ask the breaker, fit the prompt, stream, tell the breaker.
  method TryEntry(e: ChainEntry, idle: Option<real>) returns (v: Verdict)
    modifies Own(e)
    ensures v == old(VerdictOf(e, idle))
    ensures e.breaker != null ==> IsToldOf(e, v, old(e.breaker.View()))
  {
    if e.breaker != null {
      e.breaker.PerformAll(e.beforeAsked);
      var open := e.breaker.IsOpen(e.askedAt);
      if open {
        return Skipped(BreakerOpen);
      }
    }
    if !e.fits {
      return Skipped(ContextTooLarge);
    }
    var source, _ := Stream(e.calls);
    var run := WithDeadlines(source, e.delays, e.firstTimeout, idle);
    PassingIsUnique(source, e.delays, e.firstTimeout, idle, run, RunOfEntry(e, idle));
    if run.out != [] && e.breaker != null {
      e.breaker.PerformAll(e.beforeToken);
      e.breaker.OnSuccess();
    }
    if run.end != Done && e.breaker != null {
      e.breaker.PerformAll(e.beforeFailure);
      e.breaker.OnFailure(e.failedAt);
    }
    v := Attempted(run);
  }

  ghost predicate JudgedFrom(entries: seq<ChainEntry>, idle: Option<real>, verdicts: seq<Verdict>,
                             before: seq<Breaker>) {
    && |entries| == |verdicts| == |before|
    && forall i :: 0 <= i < |entries| ==>
         verdicts[i] ==
           if entries[i].breaker == null then Judge(entries[i], None, RawConfig(5, 2, 30), idle)
           else
             var cfg := entries[i].breaker.cfg;
             Judge(entries[i], Some(AfterAll(cfg, before[i], entries[i].beforeAsked)), cfg, idle)
  }

  // The loop's turn for entry k.
  method TryNext(entries: seq<ChainEntry>, idle: Option<real>, k: nat, ghost verdicts: seq<Verdict>,
                 ghost before: seq<Breaker>)
    returns (v: Verdict)
    requires OwnBreakers(entries) && k < |entries| && JudgedFrom(entries, idle, verdicts, before)
    requires TellsFirst(entries, verdicts, before, k)
    modifies BreakersOf(entries)
    ensures v == verdicts[k] && TellsFirst(entries, verdicts, before, k + 1)
  {
    var entry := entries[k];
    assert entry in entries;
    v := TryEntry(entry, idle);
  }

  // The entries in order until one answers; `failures` has one reason for each that did not.
  method TryInOrder(entries: seq<ChainEntry>, idle: Option<real>, ghost verdicts: seq<Verdict>,
                    ghost before: seq<Breaker>)
    returns (failures: seq<(string, Reason)>, answer: Option<Run>)
    requires OwnBreakers(entries) && JudgedFrom(entries, idle, verdicts, before)
    requires TellsFirst(entries, verdicts, before, 0)
    modifies BreakersOf(entries)
    ensures ReportsAll(entries, verdicts, failures)
    ensures if answer.None? then |failures| == |entries|
            else |failures| < |entries| && Answers(verdicts[|failures|]) && answer.value == verdicts[|failures|].run
    ensures TellsFirst(entries, verdicts, before, if answer.None? then |entries| else |failures| + 1)
  {
    failures, answer := [], None;
    while |failures| < |entries|
      invariant ReportsAll(entries, verdicts, failures)
      invariant TellsFirst(entries, verdicts, before, |failures|)
    {
      var v := TryNext(entries, idle, |failures|, verdicts, before);
      if Answers(v) {
        answer := Some(v.run);
        return;
      }
      failures := failures + [(entries[|failures|].name, ReasonOf(v))];
    }
  }

  /** What one generation reports and what it tells the breakers. `tried` entries were looked at. */
  method GenerateStream(entries: seq<ChainEntry>, idle: Option<real>)
    returns (out: seq<string>, route: Option<Route>, outcome: Outcome, ghost tried: nat)
    requires OwnBreakers(entries)
    modifies BreakersOf(entries)
    ensures IsGeneration(entries, old(VerdictsOf(entries, idle)), out, route, outcome)
    ensures TellsFirst(entries, old(VerdictsOf(entries, idle)), old(ViewsOf(entries)), tried)
    ensures FirstAnswer(old(VerdictsOf(entries, idle)), tried)
  {
    var failures, answer := TryInOrder(entries, idle, VerdictsOf(entries, idle), ViewsOf(entries));
    out, route, outcome, tried := [], None, AllProvidersFailed(failures), |entries|;
    if answer.Some? {
      tried := |failures| + 1;
      out := answer.value.out;
      outcome := if answer.value.end == Done then Finished else Broke(answer.value.end.error);
      if out != [] {
        var name := entries[|failures|].name;
        route := Some(Route(name, failures != [], if failures != [] then Some(failures[|failures| - 1].1) else None));
      }
      assert HeardAfter(entries, old(VerdictsOf(entries, idle)), failures, out, route, outcome);
    }
  }

  lemma EntryIsOneCall(e: ChainEntry, idle: Option<real>) returns (d: nat)
    ensures 1 <= d <= 4
    ensures RunOfEntry(e, idle).out <= Visible(e.calls(d).pieces) + [TRUNCATION_NOTICE]
  {
    d := OneCallSpeaks(e.calls);
    assert RunOfEntry(e, idle).out <= GroqRun(e.calls).out;
  }

  /** Never two answers spliced: whatever a generation emits is what passed the deadlines of one upstream call of
      the first entry that answers, followed at most by that call's truncation notice; and the route says
      `fallback_used` exactly when that entry is not the first. */
  lemma NoSplicing(entries: seq<ChainEntry>, verdicts: seq<Verdict>, idle: Option<real>, out: seq<string>,
                   route: Option<Route>, outcome: Outcome)
    requires IsGeneration(entries, verdicts, out, route, outcome) && out != []
    requires forall i :: 0 <= i < |entries| && verdicts[i].Attempted?
               ==> verdicts[i].run == RunOfEntry(entries[i], idle)
    ensures exists a: nat, d: nat {:trigger entries[a].calls(d)} ::
              && a < |entries| && Answers(verdicts[a]) && (forall i :: 0 <= i < a ==> !Answers(verdicts[i]))
              && 1 <= d <= 4
              && out <= Visible(entries[a].calls(d).pieces) + [TRUNCATION_NOTICE]
              && route.Some? && route.value.provider == entries[a].name && (route.value.fallbackUsed <==> a > 0)
  {
    var failures: seq<(string, Reason)> :| HeardAfter(entries, verdicts, failures, out, route, outcome);
    var a := |failures|;
    var d := EntryIsOneCall(entries[a], idle);
  }
}
