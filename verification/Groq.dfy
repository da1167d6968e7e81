/** The retry loop and the output budget of the Groq adapter (app/providers/groq.py). */
module Groq {
  import opened Outcomes

  const MAX_TOOL_CALL_RETRIES: nat := 2
  const MAX_RATE_LIMIT_WAIT_S := 8.0
  const TRUNCATION_NOTICE :=
    "\n\n---\n*The response was cut off because it reached the length limit. "
    + "Reply \U{201C}continue\U{201D} to get the rest.*"

  // What the adapter reads from an error: the seconds a rate limit asks to wait (None for any other error) and
  // whether the model tried to call a tool.
  datatype ApiError = ApiError(wait: Option<real>, spuriousToolCall: bool)

  datatype CallEnd = Complete(truncated: bool) | Broken(error: ApiError)

  // One upstream call: the content pieces it delivers, some possibly empty, and how it ends.
  datatype Call = Call(pieces: seq<string>, end: CallEnd)

  datatype StreamError = Api(error: ApiError) | TimedOut(firstToken: bool)

  datatype StreamEnd = Done | Raised(error: StreamError)

  // What an adapter's stream yields and how it ends.
  datatype Run = Run(out: seq<string>, end: StreamEnd)

  function Visible(pieces: seq<string>): (r: seq<string>)
    ensures forall p :: p in r ==> p != ""
  {
    if pieces == [] then []
    else Visible(pieces[..|pieces| - 1])
         + if pieces[|pieces| - 1] != "" then [pieces[|pieces| - 1]] else []
  }

  // The run a single call amounts to when it is not retried.
  function RunOf(c: Call): Run {
    match c.end
    case Complete(truncated) => Run(Visible(c.pieces) + (if truncated then [TRUNCATION_NOTICE] else []), Done)
    case Broken(e) => Run(Visible(c.pieces), Raised(Api(e)))
  }

  // ------------------------------------------------------------------ which call decides

  datatype Spent = Spent(rateLimit: bool, toolCalls: nat)

  datatype Retry = NoRetry | AfterWait | WithoutTools

  function RetryFor(c: Call, spent: Spent): Retry {
    if c.end.Complete? || Visible(c.pieces) != [] then NoRetry
    else
      var e := c.end.error;
      if e.wait.Some? && e.wait.value <= MAX_RATE_LIMIT_WAIT_S && !spent.rateLimit then AfterWait
      else if e.spuriousToolCall && spent.toolCalls < MAX_TOOL_CALL_RETRIES then WithoutTools
      else NoRetry
  }

  function Spend(spent: Spent, r: Retry): Spent {
    match r
    case NoRetry => spent
    case AfterWait => spent.(rateLimit := true)
    case WithoutTools => spent.(toolCalls := spent.toolCalls + 1)
  }

  function RetriesLeft(spent: Spent): int {
    (if spent.rateLimit then 0 else 1) + MAX_TOOL_CALL_RETRIES - spent.toolCalls
  }

  // The number of the call whose outcome the adapter returns, starting from call n.
  function Deciding(calls: nat -> Call, n: nat, spent: Spent): (d: nat)
    requires spent.toolCalls <= MAX_TOOL_CALL_RETRIES
    ensures n <= d <= n + RetriesLeft(spent)
    ensures forall k: nat :: n <= k < d ==> calls(k).end.Broken? && Visible(calls(k).pieces) == []
    decreases RetriesLeft(spent)
  {
    var r := RetryFor(calls(n), spent);
    if r == NoRetry then n else Deciding(calls, n + 1, Spend(spent, r))
  }

  const UNSPENT := Spent(false, 0)

  function GroqRun(calls: nat -> Call): Run { RunOf(calls(Deciding(calls, 1, UNSPENT))) }

  /** A Groq stream makes at most four upstream calls, and everything it yields, up to the truncation notice,
      comes from the last of them: the calls before it showed nothing. */
  lemma OneCallSpeaks(calls: nat -> Call) returns (d: nat)
    ensures 1 <= d <= 4
    ensures forall k: nat :: 1 <= k < d ==> Visible(calls(k).pieces) == []
    ensures Visible(calls(d).pieces) <= GroqRun(calls).out
    ensures GroqRun(calls).out == Visible(calls(d).pieces)
                                  + if calls(d).end == Complete(true) then [TRUNCATION_NOTICE] else []
    ensures GroqRun(calls).end == if calls(d).end.Complete? then Done else Raised(Api(calls(d).end.error))
  {
    d := Deciding(calls, 1, UNSPENT);
  }

  function Concat(pieces: seq<string>): string {
    if pieces == [] then "" else Concat(pieces[..|pieces| - 1]) + pieces[|pieces| - 1]
  }

  /** What a stream shows of a call is its whole text, in order. */
  lemma {:induction false} VisibleIsWhole(pieces: seq<string>)
    ensures Concat(Visible(pieces)) == Concat(pieces)
  {
    if pieces != [] {
      var front, last := pieces[..|pieces| - 1], pieces[|pieces| - 1];
      VisibleIsWhole(front);
      assert (Visible(front) + [last])[..|Visible(front)|] == Visible(front);
      assert Visible(front) + [] == Visible(front) && Concat(front) + "" == Concat(front);
    }
  }

  // A call worth retrying for one of the two reasons, before any text was shown.
  predicate Retriable(c: Call) {
    && c.end.Broken? && Visible(c.pieces) == []
    && (c.end.error.spuriousToolCall || (c.end.error.wait.Some? && c.end.error.wait.value <= MAX_RATE_LIMIT_WAIT_S))
  }

  /** Only such calls are retried: a rate limit with a wait of at most eight seconds, or an attempted tool call,
      before any text was shown. */
  lemma {:induction false} OnlyRetriableIsRetried(calls: nat -> Call, n: nat, spent: Spent, k: nat)
    requires spent.toolCalls <= MAX_TOOL_CALL_RETRIES && n <= k < Deciding(calls, n, spent)
    ensures var c := calls(k);
            && c.end.Broken? && Visible(c.pieces) == []
            && (c.end.error.spuriousToolCall || (c.end.error.wait.Some? && c.end.error.wait.value <= 8.0))
    decreases k - n
  {
    if k > n {
      OnlyRetriableIsRetried(calls, n + 1, Spend(spent, RetryFor(calls(n), spent)), k);
    }
  }

  lemma {:induction false} StopsWhenSpent(calls: nat -> Call, n: nat, spent: Spent)
    requires spent.toolCalls <= MAX_TOOL_CALL_RETRIES
    ensures Retriable(calls(Deciding(calls, n, spent))) ==>
              || Deciding(calls, n, spent) - n >= MAX_TOOL_CALL_RETRIES - spent.toolCalls
              || (!calls(Deciding(calls, n, spent)).end.error.spuriousToolCall
                  && (spent.rateLimit || Deciding(calls, n, spent) > n))
    decreases RetriesLeft(spent)
  {
    var r := RetryFor(calls(n), spent);
    if r != NoRetry {
      StopsWhenSpent(calls, n + 1, Spend(spent, r));
    }
  }

  /** An error that a retry could still help is returned only after the retries of its kind were spent: at least
      two for an attempted tool call, one for a short rate limit. */
  lemma GivesUpOnlyWhenSpent(calls: nat -> Call)
    ensures var d := Deciding(calls, 1, UNSPENT);
            Retriable(calls(d)) ==> if calls(d).end.error.spuriousToolCall then d >= 3 else d >= 2
  {
    StopsWhenSpent(calls, 1, UNSPENT);
  }

  // Yields the pieces of one call that show something.
  method Deliver(pieces: seq<string>) returns (out: seq<string>, emitted: bool)
    ensures out == Visible(pieces) && (emitted <==> out != [])
  {
    out, emitted := [], false;
    var i := 0;
    while i < |pieces|
      invariant 0 <= i <= |pieces|
      invariant out == Visible(pieces[..i])
      invariant emitted <==> out != []
    {
      assert pieces[..i + 1][..i] == pieces[..i];
      if pieces[i] != "" {
        emitted := true;
        out := out + [pieces[i]];
      }
      i := i + 1;
    }
    assert pieces[..|pieces|] == pieces;
  }

  /** The loop that yields the run. */
  method Stream(calls: nat -> Call) returns (run: Run, made: nat)
    ensures run == GroqRun(calls)
    ensures made == Deciding(calls, 1, UNSPENT) <= 4
  {
    var emitted, rateLimited, attempt := false, false, 0;
    var out: seq<string> := [];
    made := 0;
    while true
      invariant out == [] && !emitted
      invariant attempt <= MAX_TOOL_CALL_RETRIES && made >= 0
      invariant Deciding(calls, 1, UNSPENT) == Deciding(calls, made + 1, Spent(rateLimited, attempt))
      decreases RetriesLeft(Spent(rateLimited, attempt))
    {
      made := made + 1;
      var call := calls(made);
      out, emitted := Deliver(call.pieces);
      if call.end.Complete? {
        if call.end.truncated {
          out := out + [TRUNCATION_NOTICE];
        }
        return Run(out, Done), made;
      }
      var e := call.end.error;
      if e.wait.Some? && !emitted && e.wait.value <= MAX_RATE_LIMIT_WAIT_S && !rateLimited {
        rateLimited := true;
        continue;
      }
      if e.spuriousToolCall && !emitted && attempt < MAX_TOOL_CALL_RETRIES {
        attempt := attempt + 1;
        continue;
      }
      return Run(out, Raised(Api(e))), made;
    }
  }

  // ------------------------------------------------------------------ the output budget

  const GENERATION_MAX_TOKENS := 4096
  const MIN_OUTPUT_TOKENS := 1024

  function OutputBudget(requested: int, promptTokens: int, tpmLimit: int): (r: int)
    ensures r >= MIN_OUTPUT_TOKENS
  {
    var floor := if requested > GENERATION_MAX_TOKENS then requested else GENERATION_MAX_TOKENS;
    var want := if floor < 8192 then floor else 8192;
    if tpmLimit <= 0 then want
    else
      var room := tpmLimit - promptTokens - 200;
      var capped := if want < room then want else room;
      if capped > MIN_OUTPUT_TOKENS then capped else MIN_OUTPUT_TOKENS
  }

  /** The budget is the largest up to the ceiling that fits beside the prompt, whenever the minimal answer fits. */
  lemma OutputIsLargest(requested: int, promptTokens: int, tpmLimit: int, other: int)
    requires tpmLimit > 0 && promptTokens <= tpmLimit - 200 - 1024
    ensures var r := OutputBudget(requested, promptTokens, tpmLimit);
            && r <= 8192 && promptTokens + r <= tpmLimit - 200
            && (other <= 8192 && (other <= requested || other <= 4096)
                && promptTokens + other <= tpmLimit - 200
                ==> other <= r)
  {
  }

  /** Prompt and answer fit the tokens-per-minute limit, with its 200 tokens of slack, if and only if the prompt
      leaves room for the minimal answer. */
  lemma OutputFitsIff(requested: int, promptTokens: int, tpmLimit: int)
    requires tpmLimit > 0
    ensures promptTokens + OutputBudget(requested, promptTokens, tpmLimit) <= tpmLimit - 200
            <==> promptTokens <= tpmLimit - 200 - MIN_OUTPUT_TOKENS
  {
  }
}
