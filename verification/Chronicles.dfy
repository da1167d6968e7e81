/** Why each attempt of a run failed (app/visualization/runner.py): the failure history told from the answers of the
    validator, the repair, the renderer and the media store alone. */
module Chronicles {
  import opened Outcomes
  import opened Policy
  import opened Jobs
  import opened Fates
  import opened JobRuns

  // What an attempt begins with: the spec so far and, if a repair is owed, for which failure.
  datatype Turn = Turn(spec: Name, owed: Option<FailureCategory>)

  // The failures that a corrected spec can fix.
  predicate Fixable(c: FailureCategory) {
    c == InvalidSpec || c == UnsupportedTemplate || c == Syntax || c == RenderError || c == InvalidOutput
  }

  // The spec that attempt n tries: the one so far, or the answer to the owed repair if anyone is there to give one.
  function Tried(w: World, n: nat, t: Turn): Option<Name> {
    match t.owed
    case None => Some(t.spec)
    case Some(c) =>
      if !w.hasRepair || !w.repairEnabled || w.repair(t.spec, c, n) == Some(Name("")) then None
      else w.repair(t.spec, c, n)
  }

  predicate IsValid(w: World, n: nat, t: Turn) { Tried(w, n, t).Some? && w.validate(Tried(w, n, t).value) == Accepted }

  predicate HasVideo(w: World, n: nat) { w.render(n).ok && w.render(n).hasPath }

  /** Attempt n fails with c: no spec came of the owed repair, or the validator rejects the spec, or its video is
      rendered and cannot be saved, or the renderer fails for a reason of its own. */
  ghost predicate FailsWith(w: World, n: nat, t: Turn, c: FailureCategory) {
    match Tried(w, n, t)
    case None => c == if w.hasRepair then InvalidSpec else WorkerUnavailable
    case Some(spec) =>
      match w.validate(spec)
      case Rejected(unsupported) => c == if unsupported then UnsupportedTemplate else InvalidSpec
      case Accepted =>
        if HasVideo(w, n) then !w.save(n) && c == StorageFailure
        else c == if w.render(n).category.Some? then w.render(n).category.value else RenderError
  }

  ghost predicate Succeeds(w: World, n: nat, t: Turn) { IsValid(w, n, t) && HasVideo(w, n) && w.save(n) }

  // A fixable failure owes a repair of the spec that was tried; a repair that gave none stays owed.
  function TurnAfter(w: World, n: nat, t: Turn, c: FailureCategory): Turn {
    match Tried(w, n, t)
    case None => Turn(t.spec, Some(c))
    case Some(spec) => Turn(spec, if Fixable(c) then Some(c) else None)
  }

  /** The turns of a run and the failures between them, from the submitted spec on. */
  ghost predicate IsChronicle(w: World, spec: Name, turns: seq<Turn>, history: seq<FailureCategory>) {
    && |turns| == |history| + 1 && turns[0] == Turn(spec, None)
    && forall i: nat :: i < |history| ==> FollowsFrom(w, turns, history, i)
  }

  ghost predicate FollowsFrom(w: World, turns: seq<Turn>, history: seq<FailureCategory>, i: nat)
    requires i < |history| < |turns|
  {
    FailsWith(w, i + 1, turns[i], history[i]) && turns[i + 1] == TurnAfter(w, i + 1, turns[i], history[i])
  }

  // How many of the first n turns have a valid spec, and how many owe a repair that someone can be asked for.
  ghost function Valid(w: World, turns: seq<Turn>, n: nat): nat
    requires n <= |turns|
  {
    if n == 0 then 0 else Valid(w, turns, n - 1) + if IsValid(w, n, turns[n - 1]) then 1 else 0
  }

  ghost function Owed(w: World, turns: seq<Turn>, n: nat): nat
    requires n <= |turns|
  {
    if n == 0 then 0
    else Owed(w, turns, n - 1) + if turns[n - 1].owed.Some? && w.hasRepair && w.repairEnabled then 1 else 0
  }

  // How many of the first n failures are fixable.
  ghost function Fixables(history: seq<FailureCategory>, n: nat): nat
    requires n <= |history|
  {
    if n == 0 then 0 else Fixables(history, n - 1) + if Fixable(history[n - 1]) then 1 else 0
  }

  // The attempts that were entered.
  function EnteredOf(run: Run): int { run.ledger.used - if run.refused then 1 else 0 }

  // The loop head is where the chronicle has arrived.
  ghost predicate Arrived(w: World, spec: Name, turns: seq<Turn>, h: Head) {
    && IsChronicle(w, spec, turns, h.l.history) && h.l.used == |h.l.history|
    && turns[h.l.used] == Turn(h.spec, if h.needRepair then Some(h.last) else None)
    && h.l.renders == Valid(w, turns, h.l.used) && h.l.repairs == Owed(w, turns, h.l.used)
  }

  ghost predicate Told(w: World, spec: Name, turns: seq<Turn>, run: Run) {
    && IsChronicle(w, spec, turns, run.ledger.history)
    && 0 <= EnteredOf(run) <= |turns|
    && run.ledger.renders == Valid(w, turns, EnteredOf(run)) && run.ledger.repairs == Owed(w, turns, EnteredOf(run))
    && (|run.ledger.history| == EnteredOf(run)
        || (|run.ledger.history| == EnteredOf(run) - 1 && EndsWell(w, EnteredOf(run), turns[EnteredOf(run) - 1])))
  }

  // The attempt that ends a run without a failure publishes a video, or its renderer was cancelled.
  ghost predicate EndsWell(w: World, n: nat, t: Turn) {
    Succeeds(w, n, t) || (IsValid(w, n, t) && !HasVideo(w, n) && w.render(n).category == Some(Policy.Cancelled))
  }

  lemma ChronicleGrows(w: World, spec: Name, turns: seq<Turn>, history: seq<FailureCategory>, c: FailureCategory)
    requires IsChronicle(w, spec, turns, history) && FailsWith(w, |turns|, turns[|history|], c)
    ensures IsChronicle(w, spec, turns + [TurnAfter(w, |turns|, turns[|history|], c)], history + [c])
  {
    var longer, more := turns + [TurnAfter(w, |turns|, turns[|history|], c)], history + [c];
    forall i: nat | i < |more|
      ensures FollowsFrom(w, longer, more, i)
    {
      assert i < |history| ==> FollowsFrom(w, turns, history, i);
    }
  }

  lemma {:induction false} CountsStay(w: World, turns: seq<Turn>, t: Turn, n: nat)
    requires n <= |turns|
    ensures Valid(w, turns + [t], n) == Valid(w, turns, n) && Owed(w, turns + [t], n) == Owed(w, turns, n)
  {
    if n > 0 {
      CountsStay(w, turns, t, n - 1);
    }
  }

  // What one attempt adds to the chronicle.
  ghost predicate AttemptTold(w: World, spec: Name, turns: seq<Turn>, l: Ledger, a: Attempt)
    requires |turns| == |l.history| + 1
  {
    match a
    case Over(run) => run.ledger.used == |turns| && run.ledger.history == l.history && Told(w, spec, turns, run)
    case Failing(h) =>
      && h.l.history == l.history + [h.last] && h.l.used == |turns| && FailsWith(w, |turns|, turns[|l.history|], h.last)
      && h.spec == TurnAfter(w, |turns|, turns[|l.history|], h.last).spec
      && h.l.renders == Valid(w, turns, |turns|) && h.l.repairs == Owed(w, turns, |turns|)
  }

  // After a failure that leaves another attempt, a repair is owed exactly if the next turn says so.
  predicate OwesInTurn(w: World, max: nat, t: Turn, a: Attempt) {
    a.Failing? && !GivesUp(max, a.head)
    ==> (a.head.needRepair <==> TurnAfter(w, a.head.l.used, t, a.head.last).owed.Some?)
  }

  // Within attempt |turns|: its spec is settled, and the repair it may have owed is counted.
  ghost predicate Settled(w: World, spec: Name, turns: seq<Turn>, l: Ledger, tried: Name) {
    && IsChronicle(w, spec, turns, l.history) && l.used == |turns|
    && Tried(w, |turns|, turns[|l.history|]) == Some(tried)
    && l.renders == Valid(w, turns, |turns| - 1) && l.repairs == Owed(w, turns, |turns|)
  }

  lemma TrySpecTold(w: World, m: Moment, max: nat, l: Ledger, tried: Name, spec: Name, turns: seq<Turn>)
    requires Settled(w, spec, turns, l, tried)
    ensures AttemptTold(w, spec, turns, l, TrySpec(w, m, max, l, tried))
    ensures OwesInTurn(w, max, turns[|l.history|], TrySpec(w, m, max, l, tried))
  {
  }

  lemma RepairSpecTold(w: World, m: Moment, max: nat, l: Ledger, h: Head, spec: Name, turns: seq<Turn>)
    requires Arrived(w, spec, turns, h) && h.needRepair && l == h.l.(used := h.l.used + 1)
    ensures AttemptTold(w, spec, turns, l, RepairSpec(w, m, max, l, h.spec, h.last))
    ensures OwesInTurn(w, max, turns[|l.history|], RepairSpec(w, m, max, l, h.spec, h.last))
  {
    var fixed := Repaired(w, h.spec, h.last, l.used);
    if fixed.Some? {
      var again := Put(w, Put(w, m, Repairing, Fields()), Validating, Fields());
      TrySpecTold(w, again, max, Asked(w, l), fixed.value, spec, turns);
    }
  }

  lemma EnteredTold(w: World, max: nat, l: Ledger, h: Head, entered: Moment, refused: bool, spec: Name,
                    turns: seq<Turn>)
    requires Arrived(w, spec, turns, h) && l == h.l.(used := h.l.used + 1)
    ensures AttemptTold(w, spec, turns, l, Entered(w, max, l, h, entered, refused))
    ensures OwesInTurn(w, max, turns[|l.history|], Entered(w, max, l, h, entered, refused))
  {
    if !refused && h.needRepair {
      RepairSpecTold(w, entered, max, l, h, spec, turns);
    } else if !refused {
      TrySpecTold(w, entered, max, l, h.spec, spec, turns);
    }
  }

  lemma AttemptIsTold(w: World, max: nat, h: Head, spec: Name, turns: seq<Turn>) returns (a: Attempt)
    requires Arrived(w, spec, turns, h)
    ensures a == AttemptOf(w, max, h) && AttemptTold(w, spec, turns, h.l, a)
    ensures OwesInTurn(w, max, turns[|h.l.history|], a)
  {
    var n := h.l.used + 1;
    var l := h.l.(used := n);
    var entered := Put(w, h.m, Validating, Fields(attempt := Some(n)));
    var refused := Refuses(w, h.m, Validating);
    EnteredTold(w, max, l, h, entered, refused, spec, turns);
    a := Entered(w, max, l, h, entered, refused);
  }

  lemma {:induction false} LoopIsTold(w: World, max: nat, h: Head, spec: Name, turns: seq<Turn>)
    returns (all: seq<Turn>)
    requires Arrived(w, spec, turns, h)
    ensures Told(w, spec, all, RunFrom(w, max, h))
    decreases max - h.l.used
  {
    all := turns;
    if h.l.used < max {
      var a := AttemptIsTold(w, max, h, spec, turns);
      if a.Failing? {
        var t := TurnAfter(w, |turns|, turns[|h.l.history|], a.head.last);
        ChronicleGrows(w, spec, turns, h.l.history, a.head.last);
        CountsStay(w, turns, t, |turns|);
        all := turns + [t];
        if !GivesUp(max, a.head) {
          all := LoopIsTold(w, max, a.head, spec, all);
        }
      }
    }
  }

  lemma {:induction false} OwedIsFixables(w: World, spec: Name, turns: seq<Turn>, history: seq<FailureCategory>, n: nat)
    requires IsChronicle(w, spec, turns, history) && n <= |history|
    ensures Owed(w, turns, n + 1) == if w.hasRepair && w.repairEnabled then Fixables(history, n) else 0
  {
    if n > 0 {
      OwedIsFixables(w, spec, turns, history, n - 1);
      assert FollowsFrom(w, turns, history, n - 1);
    }
  }

  // Everything from the loop head on is told.
  lemma RunIsTold(w: World, rec: JobRecord) returns (turns: seq<Turn>, run: Run)
    ensures run == RunOf(w, rec, false) && Told(w, rec.spec, turns, run)
  {
    var read := Heard(w, Heard(w, Start(rec)));
    HeardFollows(w, Start(rec));
    HeardFollows(w, Heard(w, Start(rec)));
    turns, run := [Turn(rec.spec, None)], RunOf(w, rec, false);
    if Active(read.rec.state) {
      turns := LoopIsTold(w, read.rec.maxAttempts, FirstHead(read), rec.spec, turns);
    }
  }

  lemma RepairsAreFixables(w: World, spec: Name, turns: seq<Turn>, run: Run)
    requires Told(w, spec, turns, run)
    ensures var entered := EnteredOf(run);
            run.ledger.repairs == if entered > 0 && w.hasRepair && w.repairEnabled
                                  then Fixables(run.ledger.history, entered - 1) else 0
  {
    if EnteredOf(run) > 0 {
      OwedIsFixables(w, spec, turns, run.ledger.history, EnteredOf(run) - 1);
    }
  }

  // Of an active job, only a run that published a video is ready.
  lemma ReadyRunEntered(w: World, rec: JobRecord, run: Run)
    requires run == RunOf(w, rec, false) && run.end.rec.state == Ready && Active(rec.state)
    ensures !run.refused && run.ledger.used == |run.ledger.history| + 1
    ensures Renders(w, run.ledger.used) && w.save(run.ledger.used)
  {
    HeardFollows(w, Start(rec));
    HeardFollows(w, Heard(w, Start(rec)));
    RunIsAccounted(w, rec);
  }

  /** What a run did, in every world, told from the answers alone: its history is the failures of its attempts, each
      by the cause it had; it rendered once for each attempt with a valid spec, and asked for a repair once for each
      attempt entered after a fixable failure, if there is a repair to ask; and the attempt that ended it without a
      failure published a video or had its renderer cancelled. */
  lemma RunIsChronicled(w: World, rec: JobRecord) returns (turns: seq<Turn>, run: Run)
    ensures run == RunOf(w, rec, false) && IsChronicle(w, rec.spec, turns, run.ledger.history)
    ensures var entered := EnteredOf(run);
            && 0 <= entered <= |turns| && |run.ledger.history| <= entered
            && run.ledger.renders == Valid(w, turns, entered)
            && run.ledger.repairs == (if entered > 0 && w.hasRepair && w.repairEnabled
                                      then Fixables(run.ledger.history, entered - 1) else 0)
            && (|run.ledger.history| < entered ==> EndsWell(w, entered, turns[entered - 1]))
            && (run.end.rec.state == Ready && Active(rec.state) ==>
                  entered == run.ledger.used == |turns| && Succeeds(w, entered, turns[entered - 1]))
  {
    turns, run := RunIsTold(w, rec);
    RepairsAreFixables(w, rec.spec, turns, run);
    if run.end.rec.state == Ready && Active(rec.state) {
      ReadyRunEntered(w, rec, run);
    }
  }

  /** A video that could not be saved is rendered again from the same spec: no repair comes between. */
  lemma FailedSaveIsRetried(w: World, spec: Name)
    requires w.validate(spec) == Accepted && HasVideo(w, 1) && HasVideo(w, 2) && !w.save(1) && w.save(2)
    ensures FateOf(w, spec, 3) == Published(2, [StorageFailure])
  {
    var history := [StorageFailure];
    assert Try(w, 3, 2, spec, history) == Published(2, history);
    assert FateFrom(w, 3, 1, spec, false, StorageFailure, false, history) == Published(2, history);
    assert [] + history == history;
    assert Try(w, 3, 1, spec, []) == Published(2, history);
  }

  // ------------------------------------------------------------------ outside requests

  /** Of the requests that meet an active job the first decides: the record is cancelled, with that as its failure, or
      expired, and nothing else in it changes. */
  lemma {:induction false} FirstRequestDecides(m: Moment, acts: seq<Outside>)
    requires Active(m.rec.state) && acts != []
    ensures MetAll(m, acts).rec
            == match acts[0]
               case CancelRequest => m.rec.(state := JobState.Cancelled, failure := Some(Policy.Cancelled))
               case Expiry => m.rec.(state := JobState.Expired)
  {
    var front := acts[..|acts| - 1];
    if front == [] {
      assert MetAll(m, front) == m;
    } else {
      FirstRequestDecides(m, front);
      assert front[0] == acts[0];
    }
  }

  /** A ready job can only expire, and a job that ended otherwise stays as it is. */
  lemma {:induction false} EndedOnlyExpires(m: Moment, acts: seq<Outside>)
    requires Terminal(m.rec.state)
    ensures MetAll(m, acts).rec
            == if m.rec.state == Ready && Expiry in acts then m.rec.(state := JobState.Expired) else m.rec
  {
    if acts != [] {
      var front, last := acts[..|acts| - 1], acts[|acts| - 1];
      EndedOnlyExpires(m, front);
      assert acts == front + [last];
    }
  }

  /** A job that another runner has claimed is left to it: this run only reads, and leaves no trace of its own. */
  lemma ClaimedIsLeftAlone(w: World, rec: JobRecord)
    ensures RunOf(w, rec, true).ledger == Ledger(0, [], 0, 0)
    ensures w.outside(0) == [] && w.outside(1) == [] ==> RunOf(w, rec, true).end.rec == rec
  {
    HeardFollows(w, Start(rec));
  }
}
