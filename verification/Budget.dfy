/** How many input tokens a request may use on a provider and model (app/context_window/budget_policy.py), and how that
    composes with the output budget of the Groq adapter. */
module Budget {
  import opened Outcomes
  import opened Groq

  const MIN_INPUT_TOKENS := 1000
  const TPM_HEADROOM_TOKENS := 200
  const GROQ := Name("groq")
  const GEMINI := Name("gemini")

  datatype RawSettings = RawSettings(
    budgetEnabled: bool, defaultTokens: nat, groqTokens: Option<nat>, geminiTokens: Option<nat>,
    overrides: map<Name, nat>, unknownWindow: nat, outputReserve: nat, margin: real,
    groqTpmLimit: int, promptTokenBudget: nat)

  // The validated settings: the safety margin lies in [0, 0.5).
  type Settings = s: RawSettings | 0.0 <= s.margin < 0.5
    witness RawSettings(true, 150000, Some(150000), Some(150000), map[], 32768, 8192, 0.05, 8000, 0)

  datatype ModelLimits = ModelLimits(contextWindow: nat, maxOutputTokens: nat)

  datatype ContextBudget = ContextBudget(
    appBudget: nat, window: nat, windowAssumed: bool, total: nat, reserve: nat, inputBudget: int,
    legacyCapApplied: bool, tpmCapApplied: bool)

  function Truthy(n: Option<nat>): bool { n.Some? && n.value != 0 }

  function AppBudget(s: Settings, provider: Name, model: Name): nat {
    var qualified := Name(provider.text + ":" + model.text);
    if !s.budgetEnabled then 0
    else if qualified in s.overrides then s.overrides[qualified]
    else if model in s.overrides then s.overrides[model]
    else if provider == GROQ && Truthy(s.groqTokens) then s.groqTokens.value
    else if provider == GEMINI && Truthy(s.geminiTokens) then s.geminiTokens.value
    else s.defaultTokens
  }

  function Smaller(a: int, b: int): int { if a < b then a else b }

  function Reserve(s: Settings, limits: Option<ModelLimits>, windowAssumed: bool, requested: Option<nat>): nat {
    var reserve := if Truthy(requested) then requested.value else s.outputReserve;
    if limits.Some? && !windowAssumed && requested.None? then Smaller(reserve, limits.value.maxOutputTokens)
    else reserve
  }

  // The share of the total that the safety margin leaves.
  function Usable(s: Settings, total: nat): int { Share(total, s.margin).Floor }

  // What a safety margin leaves of a total.
  function Share(total: nat, margin: real): real { total as real * (1.0 - margin) }

  // The usable share is a whole number of tokens.
  lemma AtMostUsable(s: Settings, total: nat, tokens: int)
    ensures tokens <= Usable(s, total) <==> tokens as real <= Share(total, s.margin)
  {
    var share := Share(total, s.margin);
    assert share.Floor as real <= share < share.Floor as real + 1.0;
  }

  // The context-window cap, the tokens-per-minute cap and the legacy cap, in the order they are applied.
  function WindowCap(s: Settings, total: nat, reserve: nat): int { Usable(s, total) - reserve }

  predicate TpmLimited(s: Settings, provider: Name) { provider == GROQ && s.groqTpmLimit > 0 }

  function TpmCap(s: Settings, reserve: nat): int { s.groqTpmLimit - reserve - TPM_HEADROOM_TOKENS }

  // Err carries the effective input budget that was too small.
  function Resolve(s: Settings, provider: Name, model: Name, limits: Option<ModelLimits>, windowAssumed: bool,
                   requested: Option<nat>): Result<ContextBudget, int> {
    var app := AppBudget(s, provider, model);
    var window := if limits.Some? then limits.value.contextWindow else s.unknownWindow;
    var total := if app != 0 then Smaller(app, window) else window;
    var reserve := Reserve(s, limits, windowAssumed, requested);
    var windowInput := WindowCap(s, total, reserve);
    var tpm := TpmLimited(s, provider) && TpmCap(s, reserve) < windowInput;
    var rated := if tpm then TpmCap(s, reserve) else windowInput;
    var legacy := s.promptTokenBudget != 0 && s.promptTokenBudget < rated;
    var input := if legacy then s.promptTokenBudget else rated;
    if input < MIN_INPUT_TOKENS then Err(input)
    else Ok(ContextBudget(app, window, windowAssumed || limits.None?, total, reserve, input, legacy, tpm))
  }

  ghost predicate WithinMargin(s: Settings, total: nat, tokens: int) { tokens as real <= Share(total, s.margin) }

  // The ceilings that apply to an input budget.
  ghost predicate UnderAllCaps(s: Settings, provider: Name, total: nat, reserve: nat, input: int) {
    && WithinMargin(s, total, input + reserve)
    && (provider == GROQ && s.groqTpmLimit > 0 ==> input + reserve + 200 <= s.groqTpmLimit)
    && (s.promptTokenBudget != 0 ==> input <= s.promptTokenBudget)
  }

  // The least of the caps.
  function Largest(s: Settings, provider: Name, total: nat, reserve: nat): int {
    var windowInput := WindowCap(s, total, reserve);
    var rated := if TpmLimited(s, provider) then Smaller(TpmCap(s, reserve), windowInput) else windowInput;
    if s.promptTokenBudget != 0 then Smaller(s.promptTokenBudget, rated) else rated
  }

  lemma LargestUnderCaps(s: Settings, provider: Name, total: nat, reserve: nat, input: int, other: int)
    requires input == Largest(s, provider, total, reserve)
    ensures UnderAllCaps(s, provider, total, reserve, input)
    ensures UnderAllCaps(s, provider, total, reserve, other) ==> other <= input
  {
    AtMostUsable(s, total, input + reserve);
    AtMostUsable(s, total, other + reserve);
  }

  /** The resolved input budget is the largest that leaves room for the output reserve in the window, in the
      tokens-per-minute limit and under the legacy cap; resolution fails exactly when that largest is below the
      minimum. */
  lemma ResolvesLargest(s: Settings, provider: Name, model: Name, limits: Option<ModelLimits>, windowAssumed: bool,
                        requested: Option<nat>, other: int)
    ensures var r := Resolve(s, provider, model, limits, windowAssumed, requested);
            var app := AppBudget(s, provider, model);
            var window := if limits.Some? then limits.value.contextWindow else s.unknownWindow;
            var total := if app != 0 then Smaller(app, window) else window;
            var reserve := Reserve(s, limits, windowAssumed, requested);
            var input := if r.Ok? then r.value.inputBudget else r.error;
            && UnderAllCaps(s, provider, total, reserve, input)
            && (UnderAllCaps(s, provider, total, reserve, other) ==> other <= input)
            && (r.Ok? <==> input >= 1000)
            && (r.Ok? ==> r.value.total == total <= window && r.value.reserve == reserve && (app != 0 ==> total <= app))
  {
    var app := AppBudget(s, provider, model);
    var window := if limits.Some? then limits.value.contextWindow else s.unknownWindow;
    var total := if app != 0 then Smaller(app, window) else window;
    var reserve := Reserve(s, limits, windowAssumed, requested);
    LargestUnderCaps(s, provider, total, reserve, Largest(s, provider, total, reserve), other);
  }

  // The adapter's prompt estimate: the token count plus 5%, plus 50.
  function Estimate(size: nat): int { size * 105 / 100 + 50 }

  /** Every prompt within the tokens-per-minute cap leaves room for the output budget the adapter then asks for if and
      only if the limit is small against the reserve: beyond that, prompts near the cap get a minimal answer that no
      longer fits. */
  lemma TpmBudgetFitsIff(tpmLimit: int, reserve: nat, requested: int)
    requires tpmLimit > 0 && tpmLimit - reserve - TPM_HEADROOM_TOKENS >= 0
    ensures (forall size: nat :: size <= tpmLimit - reserve - TPM_HEADROOM_TOKENS ==>
               Estimate(size) + OutputBudget(requested, Estimate(size), tpmLimit) <= tpmLimit - TPM_HEADROOM_TOKENS)
            <==> tpmLimit < 21 * reserve - 21260
  {
    var cap: nat := tpmLimit - reserve - TPM_HEADROOM_TOKENS;
    OutputFitsIff(requested, Estimate(cap), tpmLimit);
    if tpmLimit < 21 * reserve - 21260 {
      forall size: nat | size <= cap
        ensures Estimate(size) + OutputBudget(requested, Estimate(size), tpmLimit) <= tpmLimit - TPM_HEADROOM_TOKENS
      {
        OutputFitsIff(requested, Estimate(size), tpmLimit);
      }
    }
  }

  /** A prompt within the cap that leaves no room for its answer: at a limit of 30000 with a reserve of 2048, a
      prompt of 27752 tokens gets the minimal answer, and the two exceed the limit by more than its slack. */
  lemma LargePromptOverrunsLimit(requested: int)
    ensures 27752 <= 30000 - 2048 - TPM_HEADROOM_TOKENS
    ensures Estimate(27752) + OutputBudget(requested, Estimate(27752), 30000) == 30213 > 30000 - TPM_HEADROOM_TOKENS
  {
  }

  /** The composition for a resolved Groq budget: when the limit is that small, every prompt the budget admits gets an
      answer that fits. */
  lemma ResolvedPromptsFit(s: Settings, model: Name, limits: Option<ModelLimits>, windowAssumed: bool,
                           requested: Option<nat>, size: nat, asked: int)
    requires Resolve(s, GROQ, model, limits, windowAssumed, requested).Ok? && s.groqTpmLimit > 0
    requires var b := Resolve(s, GROQ, model, limits, windowAssumed, requested).value;
             size <= b.inputBudget && s.groqTpmLimit < 21 * b.reserve - 21260
    ensures Estimate(size) + OutputBudget(asked, Estimate(size), s.groqTpmLimit) <= s.groqTpmLimit - TPM_HEADROOM_TOKENS
  {
    var b := Resolve(s, GROQ, model, limits, windowAssumed, requested).value;
    ResolvesLargest(s, GROQ, model, limits, windowAssumed, requested, 0);
    TpmBudgetFitsIff(s.groqTpmLimit, b.reserve, asked);
  }

  /** Where the numbers come from: a request's own output size is reserved as it is, else the configured reserve,
      within what a known model can put out; and the most specific of the configured budgets applies, if budgets are
      enabled at all. */
  lemma SourcesAre(s: Settings, provider: Name, model: Name, limits: Option<ModelLimits>, requested: Option<nat>)
    ensures forall assumed :: Reserve(s, limits, assumed, Some(0)) == s.outputReserve
    ensures requested.Some? && requested.value > 0 ==>
              forall assumed :: Reserve(s, limits, assumed, requested) == requested.value
    ensures limits.Some? ==> && Reserve(s, limits, false, None) <= s.outputReserve
                             && Reserve(s, limits, false, None) <= limits.value.maxOutputTokens
                             && Reserve(s, limits, false, None) in [s.outputReserve, limits.value.maxOutputTokens]
    ensures Reserve(s, limits, true, None) == s.outputReserve
    ensures var qualified, app := Name(provider.text + ":" + model.text), AppBudget(s, provider, model);
            && (!s.budgetEnabled ==> app == 0)
            && (s.budgetEnabled && qualified in s.overrides ==> app == s.overrides[qualified])
            && (s.budgetEnabled && qualified !in s.overrides && model in s.overrides ==> app == s.overrides[model])
            && (s.budgetEnabled && qualified !in s.overrides && model !in s.overrides ==>
                  && (provider.text == "groq" && s.groqTokens.Some? && s.groqTokens.value > 0
                      ==> app == s.groqTokens.value)
                  && (provider.text == "gemini" && s.geminiTokens.Some? && s.geminiTokens.value > 0
                      ==> app == s.geminiTokens.value)
                  && (provider.text != "groq" && provider.text != "gemini" ==> app == s.defaultTokens))
  {
  }

  /** Which caps a resolved budget says were applied: those without which there would be room for one token more. */
  lemma CapsApplied(s: Settings, provider: Name, model: Name, limits: Option<ModelLimits>, windowAssumed: bool,
                    requested: Option<nat>)
    ensures var r := Resolve(s, provider, model, limits, windowAssumed, requested);
            r.Ok? ==>
              var b := r.value;
              && (b.legacyCapApplied <==>
                    s.promptTokenBudget != 0
                    && UnderAllCaps(s.(promptTokenBudget := 0), provider, b.total, b.reserve, s.promptTokenBudget + 1))
              && (b.tpmCapApplied <==>
                    provider == GROQ && s.groqTpmLimit > 0 && WithinMargin(s, b.total, s.groqTpmLimit - 200 + 1))
              && (b.windowAssumed <==> windowAssumed || limits.None?)
  {
    var app := AppBudget(s, provider, model);
    var window := if limits.Some? then limits.value.contextWindow else s.unknownWindow;
    var total := if app != 0 then Smaller(app, window) else window;
    var reserve := Reserve(s, limits, windowAssumed, requested);
    AtMostUsable(s, total, s.promptTokenBudget + 1 + reserve);
    AtMostUsable(s.(promptTokenBudget := 0), total, s.promptTokenBudget + 1 + reserve);
    AtMostUsable(s, total, s.groqTpmLimit - 200 + 1);
  }
}
