/** What can become of one animation job when nobody interferes with it (app/visualization/runner.py).

    Everything the runner cannot control is part of a `World`: the validator, the answers of repair, render and media
    store, and the outside requests. A property proved for every `World` holds for every outcome of each of them. */
module Fates {
  import opened Outcomes
  import opened Policy

  datatype Verdict = Accepted | Rejected(unsupported: bool)

  datatype RenderResult = RenderResult(ok: bool, hasPath: bool, category: Option<FailureCategory>)

  datatype Outside = CancelRequest | Expiry

  datatype World = World(
    validate: Name -> Verdict,
    hasRepair: bool,
    repairEnabled: bool,
    repair: (Name, FailureCategory, nat) -> Option<Name>,   // the answer for a spec, its failure and the attempt
    render: nat -> RenderResult,                            // the render result of attempt n
    save: nat -> bool,                                      // whether the media store takes the video of attempt n
    outside: nat -> seq<Outside>)                           // what arrives before the runner's k-th store call

  // A repair that is missing, disabled, failed or empty does not count.
  function Repaired(w: World, spec: Name, c: FailureCategory, n: nat): Option<Name> {
    if w.hasRepair && w.repairEnabled && w.repair(spec, c, n).Some? && w.repair(spec, c, n).value != Name("")
    then w.repair(spec, c, n) else None
  }

  function RejectionOf(v: Verdict): FailureCategory
    requires v.Rejected?
  {
    if v.unsupported then UnsupportedTemplate else InvalidSpec
  }

  predicate Renders(w: World, n: nat) { w.render(n).ok && w.render(n).hasPath }

  // The failure category of a render that did not lead to a saved video.
  function RenderFailure(w: World, n: nat): FailureCategory {
    if Renders(w, n) then StorageFailure
    else if w.render(n).category.Some? then w.render(n).category.value else RenderError
  }

  function NoRepairCategory(w: World): FailureCategory {
    if w.hasRepair then InvalidSpec else WorkerUnavailable
  }

  // ------------------------------------------------------------------ the fate of an undisturbed job

  datatype Fate =
    | Published(attempt: nat, history: seq<FailureCategory>)
    | GaveUp(last: FailureCategory, history: seq<FailureCategory>)
    | RenderCancelled(attempt: nat, history: seq<FailureCategory>)
    | Stranded(attempt: nat, history: seq<FailureCategory>)

  // What happens from the loop head on, `used` attempts into the budget. `stuck` says that the record is still
  // VALIDATING, from where it may not enter VALIDATING again.
  function FateFrom(w: World, max: nat, used: nat, spec: Name, needRepair: bool, last: FailureCategory,
                    stuck: bool, history: seq<FailureCategory>): Fate
    decreases max - used, 1
  {
    if used >= max then GaveUp(last, history)
    else if stuck then Stranded(used, history)
    else if !needRepair then Try(w, max, used + 1, spec, history)
    else if Repaired(w, spec, last, used + 1).Some? then
      Try(w, max, used + 1, Repaired(w, spec, last, used + 1).value, history)
    else
      var c := NoRepairCategory(w);
      if used + 1 == max then GaveUp(c, history + [c])
      else FateFrom(w, max, used + 1, spec, true, c, false, history + [c])
  }

  // Attempt n with the spec it settled on.
  function Try(w: World, max: nat, n: nat, spec: Name, history: seq<FailureCategory>): Fate
    requires n <= max
    decreases max - n, 2
  {
    var verdict := w.validate(spec);
    if verdict.Accepted? && Renders(w, n) && w.save(n) then Published(n, history)
    else
      var c := if verdict.Accepted? then RenderFailure(w, n) else RejectionOf(verdict);
      if c == Policy.Cancelled then RenderCancelled(n, history)
      else if n == max || Permanent(c) then GaveUp(c, history + [c])
      else FateFrom(w, max, n, spec, Repairable(c), c, verdict.Rejected?, history + [c])
  }

  function FateOf(w: World, spec: Name, max: nat): Fate {
    FateFrom(w, max, 0, spec, false, RenderError, false, [])
  }

  // ------------------------------------------------------------------ when a job can be stranded

  // `w` with other renders and another media store.
  function Rendering(w: World, render: nat -> RenderResult, save: nat -> bool): World {
    w.(render := render, save := save)
  }

  // Attempt n tries this spec: unless it is the last attempt, the validator takes it, and so on for whatever a failure
  // of any category that is not final leads to.
  ghost predicate AcceptsFrom(w: World, max: nat, n: nat, spec: Name)
    decreases max - n, 1
  {
    n < max ==>
      && w.validate(spec).Accepted?
      && forall c :: !Permanent(c) ==>
           if Repairable(c) then AcceptsOwed(w, max, n, spec, c) else AcceptsFrom(w, max, n + 1, spec)
  }

  // After attempt n a repair of this spec is owed for a failure of category c.
  ghost predicate AcceptsOwed(w: World, max: nat, n: nat, spec: Name, c: FailureCategory)
    decreases max - n, 0
  {
    n < max ==>
      if Repaired(w, spec, c, n + 1).Some? then AcceptsFrom(w, max, n + 1, Repaired(w, spec, c, n + 1).value)
      else AcceptsOwed(w, max, n + 1, spec, NoRepairCategory(w))
  }

  // Every spec that can come up before the last attempt passes validation: the submitted one and every answer to a
  // repair that can be asked for.
  ghost predicate EarlySpecsAccepted(w: World, spec: Name, max: nat) { AcceptsFrom(w, max, 1, spec) }

  ghost predicate Strands(w: World, spec: Name, max: nat, render: nat -> RenderResult, save: nat -> bool) {
    FateOf(Rendering(w, render, save), spec, max).Stranded?
  }

  lemma {:induction false} AcceptedIsTried(w: World, render: nat -> RenderResult, save: nat -> bool, max: nat, n: nat,
                                          spec: Name, history: seq<FailureCategory>)
    requires 0 < n <= max && AcceptsFrom(w, max, n, spec)
    ensures !Try(Rendering(w, render, save), max, n, spec, history).Stranded?
    decreases max - n, 1
  {
    var w' := Rendering(w, render, save);
    if n < max {
      var c := RenderFailure(w', n);
      if !Permanent(c) && Repairable(c) {
        AcceptedIsOwed(w, render, save, max, n, spec, c, history + [c]);
      } else if !Permanent(c) {
        AcceptedIsTried(w, render, save, max, n + 1, spec, history + [c]);
      }
    }
  }

  lemma {:induction false} AcceptedIsOwed(w: World, render: nat -> RenderResult, save: nat -> bool, max: nat, n: nat,
                                         spec: Name, c: FailureCategory, history: seq<FailureCategory>)
    requires 0 < n <= max && AcceptsOwed(w, max, n, spec, c)
    ensures !FateFrom(Rendering(w, render, save), max, n, spec, true, c, false, history).Stranded?
    decreases max - n, 0
  {
    var w' := Rendering(w, render, save);
    assert Repaired(w', spec, c, n + 1) == Repaired(w, spec, c, n + 1);
    if n < max && Repaired(w, spec, c, n + 1).Some? {
      AcceptedIsTried(w, render, save, max, n + 1, Repaired(w, spec, c, n + 1).value, history);
    } else if n < max {
      var c' := NoRepairCategory(w);
      AcceptedIsOwed(w, render, save, max, n + 1, spec, c', history + [c']);
    }
  }

  // Only the renders of later attempts matter.
  lemma {:induction false} FateIgnoresPast(w: World, a: nat -> RenderResult, b: nat -> RenderResult, save: nat -> bool,
                                          max: nat, used: nat, spec: Name, needRepair: bool, last: FailureCategory,
                                          stuck: bool, history: seq<FailureCategory>)
    requires forall k: nat :: k > used ==> a(k) == b(k)
    ensures FateFrom(Rendering(w, a, save), max, used, spec, needRepair, last, stuck, history)
            == FateFrom(Rendering(w, b, save), max, used, spec, needRepair, last, stuck, history)
    decreases max - used
  {
    if used < max && !stuck {
      var w1, w2, n := Rendering(w, a, save), Rendering(w, b, save), used + 1;
      var fixed := Repaired(w, spec, last, n);
      assert Repaired(w1, spec, last, n) == fixed && Repaired(w2, spec, last, n) == fixed;
      if needRepair && fixed.None? {
        var c := NoRepairCategory(w);
        FateIgnoresPast(w, a, b, save, max, n, spec, true, c, false, history + [c]);
      } else {
        var tried := if needRepair then fixed.value else spec;
        var verdict := w.validate(tried);
        assert a(n) == b(n);
        var c := if verdict.Accepted? then RenderFailure(w1, n) else RejectionOf(verdict);
        FateIgnoresPast(w, a, b, save, max, n, tried, Repairable(c), c, verdict.Rejected?, history + [c]);
      }
    }
  }

  // Attempt n fails with c, and the attempts after it render as `later`.
  function FailingAt(n: nat, c: FailureCategory, later: nat -> RenderResult): nat -> RenderResult {
    (k: nat) => if k == n then RenderResult(false, false, Some(c)) else later(k)
  }

  lemma FailedTry(w: World, save: nat -> bool, max: nat, n: nat, spec: Name, history: seq<FailureCategory>,
                  c: FailureCategory, later: nat -> RenderResult)
    requires 0 < n < max && w.validate(spec).Accepted? && !Permanent(c)
    ensures Try(Rendering(w, FailingAt(n, c, later), save), max, n, spec, history)
            == FateFrom(Rendering(w, later, save), max, n, spec, Repairable(c), c, false, history + [c])
  {
    FateIgnoresPast(w, FailingAt(n, c, later), later, save, max, n, spec, Repairable(c), c, false, history + [c]);
  }

  lemma {:induction false} TriedStrands(w: World, save: nat -> bool, max: nat, n: nat, spec: Name,
                                       history: seq<FailureCategory>) returns (render: nat -> RenderResult)
    requires 0 < n && !AcceptsFrom(w, max, n, spec)
    ensures n <= max && Try(Rendering(w, render, save), max, n, spec, history).Stranded?
    decreases max - n, 1
  {
    render := (k: nat) => RenderResult(false, false, None);
    if w.validate(spec).Accepted? {
      var c :| !Permanent(c)
               && !(if Repairable(c) then AcceptsOwed(w, max, n, spec, c) else AcceptsFrom(w, max, n + 1, spec));
      if Repairable(c) {
        render := OwedStrands(w, save, max, n, spec, c, history + [c]);
      } else {
        render := TriedStrands(w, save, max, n + 1, spec, history + [c]);
      }
      FailedTry(w, save, max, n, spec, history, c, render);
      render := FailingAt(n, c, render);
    }
  }

  lemma {:induction false} OwedStrands(w: World, save: nat -> bool, max: nat, n: nat, spec: Name, c: FailureCategory,
                                      history: seq<FailureCategory>) returns (render: nat -> RenderResult)
    requires 0 < n && !AcceptsOwed(w, max, n, spec, c)
    ensures n < max && FateFrom(Rendering(w, render, save), max, n, spec, true, c, false, history).Stranded?
    decreases max - n, 0
  {
    var fixed := Repaired(w, spec, c, n + 1);
    if fixed.Some? {
      render := TriedStrands(w, save, max, n + 1, fixed.value, history);
    } else {
      var c' := NoRepairCategory(w);
      render := OwedStrands(w, save, max, n + 1, spec, c', history + [c']);
    }
    assert Repaired(Rendering(w, render, save), spec, c, n + 1) == fixed;
  }

  /** The state machine has no VALIDATING to VALIDATING edge, so a spec that the runner rejects with attempts
      left strands the job in VALIDATING. That cannot happen, whatever the renderer and the media store do,
      if and only if every spec that can come up before the last attempt passes validation. */
  lemma NeverStrandedIff(w: World, spec: Name, max: nat)
    ensures (forall render: nat -> RenderResult, save: nat -> bool :: !Strands(w, spec, max, render, save))
            <==> EarlySpecsAccepted(w, spec, max)
  {
    if EarlySpecsAccepted(w, spec, max) {
      forall render: nat -> RenderResult, save: nat -> bool
        ensures !Strands(w, spec, max, render, save)
      {
        AcceptedNeverStrands(w, spec, max, render, save);
      }
    } else {
      var save := (n: nat) => true;
      var render := TriedStrands(w, save, max, 1, spec, []);
      assert Strands(w, spec, max, render, save);
    }
  }

  lemma AcceptedNeverStrands(w: World, spec: Name, max: nat, render: nat -> RenderResult, save: nat -> bool)
    requires EarlySpecsAccepted(w, spec, max)
    ensures !Strands(w, spec, max, render, save)
  {
    if max > 0 {
      AcceptedIsTried(w, render, save, max, 1, spec, []);
    }
  }

  // ------------------------------------------------------------------ bounds

  // A job that failed used exactly its history: it stopped at the budget or at the only permanent failure.
  ghost predicate FailedInTime(max: nat, last: FailureCategory, history: seq<FailureCategory>) {
    if max == 0 then last == RenderError && history == []
    else
      && 0 < |history| <= max
      && last == history[|history| - 1]
      && (forall i :: 0 <= i < |history| - 1 ==> !Permanent(history[i]))
      && (|history| == max || Permanent(last))
  }

  lemma {:induction false} FateIsBounded(w: World, max: nat, used: nat, spec: Name, needRepair: bool,
                                        last: FailureCategory, stuck: bool, history: seq<FailureCategory>)
    requires used <= max && |history| == used && forall c :: c in history ==> !Permanent(c)
    requires if used == 0 then last == RenderError else last == history[used - 1]
    ensures var fate := FateFrom(w, max, used, spec, needRepair, last, stuck, history);
            && (fate.GaveUp? ==> FailedInTime(max, fate.last, fate.history))
            && (fate.Published? ==> fate.attempt <= max && |fate.history| == fate.attempt - 1
                                    && Renders(w, fate.attempt) && w.save(fate.attempt))
            && (fate.RenderCancelled? ==> w.render(fate.attempt).category == Some(Policy.Cancelled))
            && (fate.Stranded? ==> 0 < fate.attempt < max || stuck)
    decreases max - used
  {
    if used < max && !stuck {
      var n := used + 1;
      var fixed := Repaired(w, spec, last, n);
      if needRepair && fixed.None? {
        var c := NoRepairCategory(w);
        if n < max {
          FateIsBounded(w, max, n, spec, true, c, false, history + [c]);
        }
      } else {
        var tried := if needRepair then fixed.value else spec;
        var verdict := w.validate(tried);
        var c := if verdict.Accepted? then RenderFailure(w, n) else RejectionOf(verdict);
        if n < max && !Permanent(c) {
          FateIsBounded(w, max, n, tried, Repairable(c), c, verdict.Rejected?, history + [c]);
        }
      }
    }
  }

  /** Conditional liveness: with every early spec accepted and a renderer that reports no cancellation of its own, the
      fate of a job is to be published or to fail, for all render, repair and storage outcomes. */
  lemma EndsReadyOrFailed(w: World, spec: Name, max: nat)
    requires EarlySpecsAccepted(w, spec, max)
    requires forall n {:trigger w.render(n)} :: w.render(n).category != Some(Policy.Cancelled)
    ensures FateOf(w, spec, max).Published? || FateOf(w, spec, max).GaveUp?
  {
    assert Rendering(w, w.render, w.save) == w;
    AcceptedNeverStrands(w, spec, max, w.render, w.save);
    FateIsBounded(w, max, 0, spec, false, RenderError, false, []);
  }
}
