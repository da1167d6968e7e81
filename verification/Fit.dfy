/** Fitting one request's prompt to its budget, and refitting it for each provider of the chain
    (app/context_window/fit.py, with `manage` of app/context_window/manager.py). */
module Fit {
  import opened Outcomes
  import opened Text
  import opened TokenCounter
  import opened Trimmer
  import opened Compaction
  import opened TrimSpec
  import opened SectionTrim
  import opened History

  const REFIT_PASSES: nat := 5

  // The tokens of a chat payload: four per message and two to prime the answer.
  function CountMessages(chat: seq<Chat>): nat {
    if chat == [] then 2 else CountMessages(chat[..|chat| - 1]) + Count(chat[|chat| - 1].content) + 4
  }

  datatype FitSettings = FitSettings(
    inputBudget: nat, modelCeiling: int, triggerRatio: real, targetRatio: real,
    compactionEnabled: bool, minRecent: nat, noteShare: real, asMessages: bool)

  datatype Prompt = Prompt(sections: seq<Section>, messages: seq<Chat>, totalTokens: nat)

  // Err carries the size that could not be brought under the budget.
  type Fitted = Result<Prompt, nat>

  // ------------------------------------------------------------------ where the history lives

  /** The two places that may hold a request's history; the first one wins when it is not empty. */
  class RequestContext {
    var resultHistory: seq<Message>
    var memory: Option<seq<Message>>

    constructor (resultHistory: seq<Message>, memory: Option<seq<Message>>)
      ensures this.resultHistory == resultHistory && this.memory == memory
    {
      this.resultHistory, this.memory := resultHistory, memory;
    }

    function HistoryOf(): seq<Message>
      reads this
    {
      if resultHistory != [] then resultHistory else if memory.Some? then memory.value else []
    }

    /** Replacing a history that is there is what the next reader sees, in whichever place it looks. */
    method SetHistory(messages: seq<Message>)
      requires HistoryOf() != [] && messages != []
      modifies this
      ensures HistoryOf() == messages
      ensures memory.Some? && memory.value != [] ==> memory.value == messages
      ensures resultHistory != [] ==> resultHistory == messages
    {
      if resultHistory != [] {
        resultHistory := messages;
      }
      if memory.Some? && memory.value != [] {
        memory := Some(messages);
      }
    }
  }

  // ------------------------------------------------------------------ building

  // The sections of a prompt around its history section.
  datatype Surrounding = Surrounding(before: seq<Section>, after: seq<Section>, header: string)

  function HistorySection(header: string, history: seq<Message>): Section {
    var shown := seq(|history|, i requires 0 <= i < |history| => Item(history[i].role, Strip(history[i].content)));
    var lines := RenderedItems(shown);
    var content := Join([header] + lines, '\n');
    Section(HISTORY, content, 8, Count(content), true, Some(ItemsOf(history)), header)
  }

  function Build(s: Surrounding, history: seq<Message>): seq<Section> {
    s.before + (if history == [] then [] else [HistorySection(s.header, history)]) + s.after
  }

  ghost predicate NoHistoryIn(sections: seq<Section>) {
    forall i :: 0 <= i < |sections| ==> sections[i].name != HISTORY
  }

  lemma BuiltShowsAll(s: Surrounding, history: seq<Message>)
    requires NoHistoryIn(s.before) && NoHistoryIn(s.after)
    ensures HistoryWithin(Build(s, history), ItemsOf(history))
  {
  }

  // ------------------------------------------------------------------ managing

  function Ceiling(custom: nat, modelCeiling: int): int {
    if custom != 0 && custom < modelCeiling then custom else modelCeiling
  }

  function PayloadSize(p: Prompt): nat { CountMessages(p.messages) }

  // The prompt that sections make.
  function PromptOf(sections: seq<Section>, asMessages: bool): Prompt {
    Prompt(sections, ComposeMessages(sections, asMessages), Total(sections))
  }

  // What a trim of the sections comes to: the prompt of what is left, or the size of an overflow.
  ghost predicate ManagesTo(sections: seq<Section>, custom: nat, modelCeiling: int, asMessages: bool, r: Fitted) {
    match r
    case Ok(p) =>
      && p == PromptOf(p.sections, asMessages)
      && exists names :: TrimsTo(sections, Ceiling(custom, modelCeiling), Fits(p.sections, names))
    case Err(total) => TrimsTo(sections, Ceiling(custom, modelCeiling), ContextOverflow(total))
  }

  /** One trim, one answer. */
  lemma ManagingIsUnique(sections: seq<Section>, custom: nat, modelCeiling: int, asMessages: bool, r: Fitted,
                         r': Fitted)
    requires ManagesTo(sections, custom, modelCeiling, asMessages, r)
    requires ManagesTo(sections, custom, modelCeiling, asMessages, r')
    ensures r' == r
  {
    var budget := Ceiling(custom, modelCeiling);
    var t := TrimOf(sections, budget, r);
    var t' := TrimOf(sections, budget, r');
    var working, targets :| IsTrim(sections, budget, working, targets, t);
    var working', targets' :| IsTrim(sections, budget, working', targets', t');
    TrimIsUnique(sections, budget, working, targets, t, working', targets', t');
  }

  lemma TrimOf(sections: seq<Section>, budget: int, r: Fitted) returns (t: Trimmed)
    requires if r.Ok? then exists names :: TrimsTo(sections, budget, Fits(r.value.sections, names))
             else TrimsTo(sections, budget, ContextOverflow(r.error))
    ensures TrimsTo(sections, budget, t)
    ensures if r.Ok? then t.Fits? && t.sections == r.value.sections else t == ContextOverflow(r.error)
  {
    if r.Ok? {
      var names :| TrimsTo(sections, budget, Fits(r.value.sections, names));
      t := Fits(r.value.sections, names);
    } else {
      t := ContextOverflow(r.error);
    }
  }

  method Manage(sections: seq<Section>, custom: nat, modelCeiling: int, asMessages: bool) returns (r: Fitted)
    requires custom != 0
    ensures ManagesTo(sections, custom, modelCeiling, asMessages, r)
    ensures Total(sections) <= Ceiling(custom, modelCeiling) ==> r == Ok(PromptOf(sections, asMessages))
  {
    var trimmed, working, targets := Trim(sections, Ceiling(custom, modelCeiling));
    match trimmed {
      case Fits(out, names) =>
        r := Ok(PromptOf(out, asMessages));
        assert TrimsTo(sections, Ceiling(custom, modelCeiling), Fits(out, names));
      case ContextOverflow(total) => r := Err(total);
    }
  }

  /** Why managing fails: the locked sections and the floors keep more than the budget, or, by one token, the one
      section that is left a single token keeps two. */
  lemma ManagingFailsIff(sections: seq<Section>, custom: nat, modelCeiling: int, asMessages: bool, r: Fitted)
    requires ManagesTo(sections, custom, modelCeiling, asMessages, r)
    ensures var budget := Ceiling(custom, modelCeiling);
            r.Err? <==> if Demand(sections) > budget then FloorTotal(sections) > budget
                        else exists j :: 0 <= j < |sections| && SlipsAt(sections, budget, j)
  {
    var budget := Ceiling(custom, modelCeiling);
    var t := TrimOf(sections, budget, r);
    var working, targets :| IsTrim(sections, budget, working, targets, t);
    OverflowIff(sections, budget, working, targets, t);
  }

  // ------------------------------------------------------------------ fitting a request

  // What the compaction step leaves of a history: itself, or a note and a tail of it.
  ghost predicate CompactedFrom(history: seq<Message>, out: seq<Message>) {
    || out == history
    || exists note: seq<Message>, from: nat :: NoteAndTail(history, note, from, out)
  }

  ghost predicate NoteAndTail(history: seq<Message>, note: seq<Message>, from: nat, out: seq<Message>) {
    from <= |history| && |note| <= 1 && out == note + history[from..]
  }

  // A share of some tokens.
  function Portion(tokens: nat, ratio: real): real { tokens as real * ratio }

  // Whether a prompt of this size sets off compaction.
  predicate Triggers(cfg: FitSettings, estimate: nat) {
    && cfg.compactionEnabled
    && (estimate >= Portion(cfg.inputBudget, cfg.triggerRatio).Floor || estimate > cfg.inputBudget)
  }

  // What the rest of the prompt leaves of the compaction target to the history.
  function Allowance(cfg: FitSettings, estimate: nat, history: seq<Message>): nat {
    var room := Portion(cfg.inputBudget, cfg.targetRatio).Floor - (estimate - TotalTokens(history));
    if room > 0 then room else 0
  }

  // The share of the allowance that is kept for the note.
  function NoteReserve(cfg: FitSettings, allowance: nat): int { Portion(allowance, cfg.noteShare).Floor }

  ghost predicate CompactsTo(history: seq<Message>, budget: nat, minRecent: int, reserve: int, out: seq<Message>) {
    exists r, from: nat, first: nat ::
      IsCompacted(history, budget, minRecent, reserve, from, first, r) && r.messages == out
  }

  // One compaction step: nothing unless the size triggers it, and then a compaction to the allowance, or nothing when
  // the history is small enough or has no older part.
  ghost predicate CompactionStep(cfg: FitSettings, estimate: nat, before: seq<Message>, after: seq<Message>,
                                 compacted: bool) {
    var allowance := Allowance(cfg, estimate, before);
    var reserve := NoteReserve(cfg, allowance);
    if compacted then Triggers(cfg, estimate) && CompactsTo(before, allowance, cfg.minRecent, reserve, after)
    else
      && after == before
      && (Triggers(cfg, estimate) ==>
            TotalTokens(before) <= allowance || IsKeptFrom(before, allowance, cfg.minRecent, reserve, 0))
  }

  method CompactedHistory(cfg: FitSettings, history: seq<Message>, estimate: nat)
    returns (compacted: bool, out: seq<Message>)
    requires cfg.minRecent >= 1 && 0.0 <= cfg.noteShare && history != []
    requires Triggers(cfg, estimate)
    ensures CompactionStep(cfg, estimate, history, out, compacted)
    ensures CompactedFrom(history, out) && out != []
  {
    var allowance := Allowance(cfg, estimate, history);
    var reserve := NoteReserve(cfg, allowance);
    var r, from, first := CompactHistory(history, allowance, cfg.minRecent, reserve);
    compacted, out := Changed(r), history;
    if compacted {
      CompactedShape(history, allowance, cfg.minRecent, reserve, from, first, r);
      out := r.messages;
      assert CompactsTo(history, allowance, cfg.minRecent, reserve, out);
    } else {
      assert TotalTokens(history) <= allowance || IsKeptFrom(history, allowance, cfg.minRecent, reserve, 0);
    }
  }

  method CompactIfNeeded(cfg: FitSettings, ctx: RequestContext, estimate: nat) returns (compacted: bool)
    requires cfg.minRecent >= 1 && 0.0 <= cfg.noteShare
    modifies ctx
    ensures CompactedFrom(old(ctx.HistoryOf()), ctx.HistoryOf())
    ensures CompactionStep(cfg, estimate, old(ctx.HistoryOf()), ctx.HistoryOf(), compacted)
  {
    var history := ctx.HistoryOf();
    if !Triggers(cfg, estimate) || history == [] {
      return false;
    }
    var out;
    compacted, out := CompactedHistory(cfg, history, estimate);
    if compacted {
      ctx.SetHistory(out);
    }
  }

  lemma CompactedShape(messages: seq<Message>, budget: nat, minRecent: int, reserve: int, from: nat, first: nat,
                       r: Compacted)
    requires IsCompacted(messages, budget, minRecent, reserve, from, first, r) && minRecent >= 1
    ensures r.messages != [] && CompactedFrom(messages, r.messages)
    ensures CompactsTo(messages, budget, minRecent, reserve, r.messages)
  {
    var lines := NoteLines(messages[..from]);
    var note: seq<Message> := if first < |lines| then [NoteOf(lines[first..])] else [];
    assert NoteAndTail(messages, note, from, r.messages);
  }

  // The target after a pass at `target` measured `size`: less by the overshoot, but at least one.
  function NextTarget(inputBudget: nat, target: nat, size: nat): nat
    requires inputBudget <= size
  {
    if target - (size - inputBudget) > 1 then target - (size - inputBudget) else 1
  }

  // One pass that trims without overflow.
  datatype Pass = Pass(target: nat, prompt: Prompt)

  // The ways a trim of some sections to a target can end.
  type Managing = (nat, Fitted) -> bool

  ghost function ManagingOf(cfg: FitSettings, composed: seq<Section>): Managing {
    (target: nat, r: Fitted) => ManagesTo(composed, target, cfg.modelCeiling, cfg.asMessages, r)
  }

  // The passes so far: each one trims, the first to the input budget, and each later one to the target that the
  // overshoot of the one before calls for.
  ghost predicate ArePasses(inputBudget: nat, manages: Managing, passes: seq<Pass>) {
    && (forall i :: 0 <= i < |passes| ==> manages(passes[i].target, Ok(passes[i].prompt)))
    && (forall i :: 0 <= i < |passes| - 1 ==> PayloadSize(passes[i].prompt) > inputBudget)
    && (passes != [] ==> passes[0].target == inputBudget)
    && forall i, j :: 0 <= i && j == i + 1 < |passes| ==> Succeeds(inputBudget, passes[i], passes[j])
  }

  predicate Succeeds(inputBudget: nat, pass: Pass, next: Pass) {
    && PayloadSize(pass.prompt) > inputBudget
    && next.target == NextTarget(inputBudget, pass.target, PayloadSize(pass.prompt))
  }

  // The target of the pass after these.
  ghost function Upcoming(inputBudget: nat, passes: seq<Pass>): nat
    requires passes != [] ==> PayloadSize(passes[|passes| - 1].prompt) > inputBudget
  {
    if passes == [] then inputBudget
    else NextTarget(inputBudget, passes[|passes| - 1].target, PayloadSize(passes[|passes| - 1].prompt))
  }

  /** How fitting ends: with the first of at most six passes whose payload fits, with the overflow of a trim at the
      target reached, or with the size that the sixth pass still measures. */
  ghost predicate EndsWith(inputBudget: nat, manages: Managing, passes: seq<Pass>, r: Fitted) {
    && ArePasses(inputBudget, manages, passes) && |passes| <= 1 + REFIT_PASSES
    && match r
       case Ok(p) => passes != [] && p == passes[|passes| - 1].prompt && PayloadSize(p) <= inputBudget
       case Err(size) =>
         && (passes != [] ==> PayloadSize(passes[|passes| - 1].prompt) > inputBudget)
         && if |passes| == 1 + REFIT_PASSES then size == PayloadSize(passes[REFIT_PASSES].prompt)
            else manages(Upcoming(inputBudget, passes), Err(size))
  }

  ghost predicate IsFitting(cfg: FitSettings, composed: seq<Section>, passes: seq<Pass>, r: Fitted) {
    EndsWith(cfg.inputBudget, ManagingOf(cfg, composed), passes, r)
  }

  ghost predicate IsSingleValued(manages: Managing) {
    forall target, r, r' :: manages(target, r) && manages(target, r') ==> r' == r
  }

  lemma {:induction false} SamePasses(inputBudget: nat, manages: Managing, a: seq<Pass>, b: seq<Pass>, n: nat)
    requires ArePasses(inputBudget, manages, a) && ArePasses(inputBudget, manages, b) && IsSingleValued(manages)
    requires n <= |a| && n <= |b|
    ensures forall i :: 0 <= i < n ==> a[i] == b[i]
  {
    if n > 0 {
      var i := n - 1;
      SamePasses(inputBudget, manages, a, b, i);
      assert i > 0 ==> Succeeds(inputBudget, a[i - 1], a[i]) && Succeeds(inputBudget, b[i - 1], b[i]);
      assert manages(a[i].target, Ok(a[i].prompt)) && manages(b[i].target, Ok(b[i].prompt));
    }
  }

  lemma NoPassAfter(inputBudget: nat, manages: Managing, passes: seq<Pass>, r: Fitted, next: Pass)
    requires EndsWith(inputBudget, manages, passes, r) && IsSingleValued(manages)
    requires |passes| <= REFIT_PASSES && manages(next.target, Ok(next.prompt))
    ensures if passes == [] then next.target != inputBudget else !Succeeds(inputBudget, passes[|passes| - 1], next)
  {
  }

  lemma NoneIsLonger(inputBudget: nat, manages: Managing, a: seq<Pass>, r: Fitted, b: seq<Pass>, r': Fitted)
    requires EndsWith(inputBudget, manages, a, r) && EndsWith(inputBudget, manages, b, r') && IsSingleValued(manages)
    ensures |b| <= |a|
  {
    var k := |a|;
    if k < |b| {
      assert k > 0 ==> Succeeds(inputBudget, b[k - 1], b[k]);
      assert manages(b[k].target, Ok(b[k].prompt));
      NoPassAfter(inputBudget, manages, a, r, b[k]);
      SamePasses(inputBudget, manages, a, b, k);
    }
  }

  lemma EndIsUnique(inputBudget: nat, manages: Managing, a: seq<Pass>, r: Fitted, b: seq<Pass>, r': Fitted)
    requires EndsWith(inputBudget, manages, a, r) && EndsWith(inputBudget, manages, b, r') && IsSingleValued(manages)
    ensures b == a && r' == r
  {
    NoneIsLonger(inputBudget, manages, a, r, b, r');
    NoneIsLonger(inputBudget, manages, b, r', a, r);
    SamePasses(inputBudget, manages, a, b, |a|);
  }

  /** The settings and the built prompt determine every pass and the outcome. */
  lemma OutcomeIsUnique(cfg: FitSettings, composed: seq<Section>, a: seq<Pass>, r: Fitted, b: seq<Pass>, r': Fitted)
    ensures IsFitting(cfg, composed, a, r) && IsFitting(cfg, composed, b, r') ==> b == a && r' == r
  {
    ManagingIsSingleValued(cfg, composed);
    if IsFitting(cfg, composed, a, r) && IsFitting(cfg, composed, b, r') {
      EndIsUnique(cfg.inputBudget, ManagingOf(cfg, composed), a, r, b, r');
    }
  }

  lemma ManagingIsSingleValued(cfg: FitSettings, composed: seq<Section>)
    ensures IsSingleValued(ManagingOf(cfg, composed))
  {
    var manages := ManagingOf(cfg, composed);
    forall target, x, y | manages(target, x) && manages(target, y)
      ensures y == x
    {
      ManagingIsUnique(composed, target, cfg.modelCeiling, cfg.asMessages, x, y);
    }
  }

  lemma PassAdded(inputBudget: nat, manages: Managing, passes: seq<Pass>, next: Pass)
    requires ArePasses(inputBudget, manages, passes) && passes != []
    requires PayloadSize(passes[|passes| - 1].prompt) > inputBudget && next.target == Upcoming(inputBudget, passes)
    requires manages(next.target, Ok(next.prompt))
    ensures ArePasses(inputBudget, manages, passes + [next])
  {
    var longer := passes + [next];
    forall i, j | 0 <= i && j == i + 1 < |longer|
      ensures Succeeds(inputBudget, longer[i], longer[j])
    {
      assert j < |passes| ==> Succeeds(inputBudget, passes[i], passes[j]);
    }
  }

  // One trim of the built prompt.
  method RunPass(cfg: FitSettings, composed: seq<Section>, target: nat, ghost manages: Managing) returns (r: Fitted)
    requires target >= 1 && manages == ManagingOf(cfg, composed)
    ensures manages(target, r)
    ensures Total(composed) <= Ceiling(target, cfg.modelCeiling) ==> r == Ok(PromptOf(composed, cfg.asMessages))
  {
    r := Manage(composed, target, cfg.modelCeiling, cfg.asMessages);
  }

  // The passes after the first, each of which removes the measured overshoot from the target.
  method Refit(cfg: FitSettings, composed: seq<Section>, p: Prompt, ghost manages: Managing)
    returns (r: Fitted, ghost passes: seq<Pass>)
    requires cfg.inputBudget >= 1 && manages == ManagingOf(cfg, composed)
    requires manages(cfg.inputBudget, Ok(p))
    ensures EndsWith(cfg.inputBudget, manages, passes, r)
    ensures PayloadSize(p) <= cfg.inputBudget ==> r == Ok(p)
  {
    r := Ok(p);
    passes := [Pass(cfg.inputBudget, p)];
    var target: nat := cfg.inputBudget;
    var pass := 0;
    while pass < REFIT_PASSES && PayloadSize(r.value) > cfg.inputBudget
      invariant 0 <= pass <= REFIT_PASSES && |passes| == pass + 1 && target >= 1
      invariant ArePasses(cfg.inputBudget, manages, passes)
      invariant r.Ok? && passes[pass].target == target && passes[pass].prompt == r.value
      invariant PayloadSize(p) <= cfg.inputBudget ==> r == Ok(p)
      decreases REFIT_PASSES - pass
    {
      target := NextTarget(cfg.inputBudget, target, PayloadSize(r.value));
      r := RunPass(cfg, composed, target, manages);
      if r.Err? {
        return;
      }
      PassAdded(cfg.inputBudget, manages, passes, Pass(target, r.value));
      passes := passes + [Pass(target, r.value)];
      pass := pass + 1;
    }
    if PayloadSize(r.value) > cfg.inputBudget {
      r := Err(PayloadSize(r.value));
    }
  }

  /** The trim to the budget, and the passes after it. */
  method TrimToFit(cfg: FitSettings, composed: seq<Section>) returns (r: Fitted, ghost passes: seq<Pass>)
    requires cfg.inputBudget >= 1
    ensures IsFitting(cfg, composed, passes, r)
    ensures r.Ok? ==> PayloadSize(r.value) <= cfg.inputBudget
    ensures var built := PromptOf(composed, cfg.asMessages);
            PayloadSize(built) <= cfg.inputBudget && built.totalTokens <= Ceiling(cfg.inputBudget, cfg.modelCeiling)
            ==> r == Ok(built)
  {
    passes := [];
    ghost var manages := ManagingOf(cfg, composed);
    r := RunPass(cfg, composed, cfg.inputBudget, manages);
    if r.Ok? {
      r, passes := Refit(cfg, composed, r.value, manages);
    }
  }

  /** Never an oversized prompt: a prompt is returned only if it measures at most the input budget as a chat
      payload, and it is the first of the passes over the prompt built from the compacted history that does. A
      prompt that needs no compaction and fits is sent as it was built. */
  method FitPrompt(cfg: FitSettings, ctx: RequestContext, s: Surrounding)
    returns (r: Fitted, ghost compacted: bool, ghost passes: seq<Pass>)
    requires cfg.inputBudget >= 1 && cfg.minRecent >= 1 && 0.0 <= cfg.noteShare
    modifies ctx
    ensures CompactedFrom(old(ctx.HistoryOf()), ctx.HistoryOf())
    ensures var estimate := PayloadSize(PromptOf(Build(s, old(ctx.HistoryOf())), cfg.asMessages));
            CompactionStep(cfg, estimate, old(ctx.HistoryOf()), ctx.HistoryOf(), compacted)
    ensures IsFitting(cfg, Build(s, ctx.HistoryOf()), passes, r)
    ensures r.Ok? ==> PayloadSize(r.value) <= cfg.inputBudget
    ensures var built := PromptOf(Build(s, old(ctx.HistoryOf())), cfg.asMessages);
            PayloadSize(built) <= cfg.inputBudget && !Triggers(cfg, PayloadSize(built))
            && built.totalTokens <= Ceiling(cfg.inputBudget, cfg.modelCeiling)
            ==> r == Ok(built) && ctx.HistoryOf() == old(ctx.HistoryOf())
  {
    var composed := Build(s, ctx.HistoryOf());
    var changed := CompactIfNeeded(cfg, ctx, PayloadSize(PromptOf(composed, cfg.asMessages)));
    compacted := changed;
    if changed {
      composed := Build(s, ctx.HistoryOf());
    }
    r, passes := TrimToFit(cfg, composed);
  }

  /** How the refit before a provider ends: a prompt that fits is passed on untouched, never re-expanded; otherwise
      its sections are trimmed to the budget, and if the payload is still over it, once more to the budget less what
      the payload measures beyond its sections. */
  ghost predicate IsRefit(prompt: Prompt, inputBudget: nat, modelCeiling: int, asMessages: bool,
                          first: Fitted, second: Fitted, r: Fitted) {
    if PayloadSize(prompt) <= inputBudget then r == Ok(prompt)
    else
      && ManagesTo(prompt.sections, inputBudget, modelCeiling, asMessages, first)
      && if first.Err? || PayloadSize(first.value) <= inputBudget then r == first
         else
           && ManagesTo(prompt.sections, SecondTarget(inputBudget, first.value), modelCeiling, asMessages, second)
           && r == if second.Err? || PayloadSize(second.value) <= inputBudget then second
                   else Err(PayloadSize(second.value))
  }

  function SecondTarget(inputBudget: nat, first: Prompt): nat {
    var left := inputBudget - (PayloadSize(first) - first.totalTokens);
    if left > 1 then left else 1
  }

  /** The refit is determined by the prompt and the budget. */
  lemma RefitIsUnique(prompt: Prompt, inputBudget: nat, modelCeiling: int, asMessages: bool,
                      first: Fitted, second: Fitted, r: Fitted, first': Fitted, second': Fitted, r': Fitted)
    ensures IsRefit(prompt, inputBudget, modelCeiling, asMessages, first, second, r)
            && IsRefit(prompt, inputBudget, modelCeiling, asMessages, first', second', r')
            ==> r' == r
  {
    if IsRefit(prompt, inputBudget, modelCeiling, asMessages, first, second, r)
       && IsRefit(prompt, inputBudget, modelCeiling, asMessages, first', second', r')
       && PayloadSize(prompt) > inputBudget
    {
      ManagingIsUnique(prompt.sections, inputBudget, modelCeiling, asMessages, first, first');
      if first.Ok? && PayloadSize(first.value) > inputBudget {
        var target := SecondTarget(inputBudget, first.value);
        ManagingIsUnique(prompt.sections, target, modelCeiling, asMessages, second, second');
      }
    }
  }

  /** A refit never returns an oversized prompt, and only trims. */
  lemma RefitOnlyTrims(prompt: Prompt, inputBudget: nat, modelCeiling: int, asMessages: bool,
                       first: Fitted, second: Fitted, r: Fitted)
    requires IsRefit(prompt, inputBudget, modelCeiling, asMessages, first, second, r) && r.Ok?
    ensures PayloadSize(r.value) <= inputBudget && TrimmedFrom(prompt.sections, r.value.sections)
  {
    if PayloadSize(prompt) <= inputBudget {
      Untrimmed(prompt.sections);
    } else if first.Ok? && PayloadSize(first.value) <= inputBudget {
      ManagedIsTrimmed(prompt.sections, inputBudget, modelCeiling, asMessages, first);
    } else {
      ManagedIsTrimmed(prompt.sections, SecondTarget(inputBudget, first.value), modelCeiling, asMessages, second);
    }
  }

  lemma Untrimmed(sections: seq<Section>)
    ensures TrimmedFrom(sections, sections)
  {
    assert IsTrim(sections, Total(sections), sections, [], Fits(sections, []));
    assert TrimsTo(sections, Total(sections), Fits(sections, []));
  }

  lemma ManagedIsTrimmed(sections: seq<Section>, custom: nat, modelCeiling: int, asMessages: bool, r: Fitted)
    requires ManagesTo(sections, custom, modelCeiling, asMessages, r) && r.Ok?
    ensures TrimmedFrom(sections, r.value.sections)
  {
  }

  /** A fitted prompt is a trim of the built one. */
  lemma FittingOnlyTrims(cfg: FitSettings, composed: seq<Section>, passes: seq<Pass>, r: Fitted)
    ensures IsFitting(cfg, composed, passes, r) && r.Ok? ==> TrimmedFrom(composed, r.value.sections)
  {
    if IsFitting(cfg, composed, passes, r) && r.Ok? {
      var last := passes[|passes| - 1];
      assert ManagingOf(cfg, composed)(last.target, Ok(last.prompt));
      ManagedIsTrimmed(composed, last.target, cfg.modelCeiling, cfg.asMessages, Ok(last.prompt));
    }
  }

  method FitForProvider(prompt: Prompt, inputBudget: nat, modelCeiling: int, asMessages: bool)
    returns (r: Fitted, ghost first: Fitted, ghost second: Fitted)
    requires inputBudget >= 1
    ensures IsRefit(prompt, inputBudget, modelCeiling, asMessages, first, second, r)
    ensures PayloadSize(prompt) <= inputBudget ==> r == Ok(prompt)
    ensures r.Ok? ==> PayloadSize(r.value) <= inputBudget
  {
    r, first, second := Ok(prompt), Err(0), Err(0);
    if PayloadSize(prompt) <= inputBudget {
      return;
    }
    r := Manage(prompt.sections, inputBudget, modelCeiling, asMessages);
    first := r;
    if r.Err? {
      return;
    }
    var final := PayloadSize(r.value);
    if final > inputBudget {
      r := Manage(prompt.sections, SecondTarget(inputBudget, r.value), modelCeiling, asMessages);
      second := r;
      if r.Err? {
        return;
      }
      final := PayloadSize(r.value);
    }
    if final > inputBudget {
      r := Err(final);
    }
  }

  /** End to end: build the compacted history, fit it, refit it for any number of providers. Whatever history section is
      left shows a suffix of the request's non-blank messages, or the one condensed note followed by everything that
      compaction kept. */
  lemma HistoryEndToEnd(s: Surrounding, history: seq<Message>, note: seq<Message>, from: nat, compacted: seq<Message>,
                        stages: seq<seq<Section>>, n: nat, i: nat)
    requires NoHistoryIn(s.before) && NoHistoryIn(s.after) && NoteAndTail(history, note, from, compacted)
    requires IsRefitChain(stages) && stages[0] == Build(s, compacted)
    requires n < |stages| && i < |stages[n]| && stages[n][i].name == HISTORY
    ensures stages[n][i].items.Some?
    ensures var shown := stages[n][i].items.value;
            || IsSuffix(shown, ItemsOf(history))
            || (|ItemsOf(note)| == 1 && shown == ItemsOf(note) + ItemsOf(history[from..]))
  {
    BuiltShowsAll(s, compacted);
    SurvivorsAreNewest(history, note, from, stages, n, i);
  }
}
