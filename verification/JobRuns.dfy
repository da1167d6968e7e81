/** One run of an animation job (app/visualization/runner.py) as a function of its world: the record after every store
    call, with the outside requests that arrive before each of them, for every world. The runner's methods are proved
    equal to it; what the run promises in every world is proved about it. */
module JobRuns {
  import opened Outcomes
  import opened Policy
  import opened Jobs
  import opened Fates

  // The record now, the record just before the outside requests of each store call so far, and every state the record
  // went through.
  datatype Moment = Moment(rec: JobRecord, seen: seq<JobRecord>, trail: seq<JobState>)

  function Start(rec: JobRecord): Moment { Moment(rec, [], [rec.state]) }

  // One outside request: `cancel_job` cancels an active job only, an expiry is refused by the state machine or not.
  function Meet(act: Outside, rec: JobRecord): JobRecord {
    match act
    case CancelRequest =>
      if !Active(rec.state) then rec
      else AfterUpdate(rec, JobState.Cancelled, Fields(failure := Some(Some(Policy.Cancelled))))
    case Expiry => AfterUpdate(rec, JobState.Expired, Fields())
  }

  function Met(m: Moment, act: Outside): Moment {
    var rec := Meet(act, m.rec);
    m.(rec := rec, trail := m.trail + [rec.state])
  }

  function MetAll(m: Moment, acts: seq<Outside>): Moment {
    if acts == [] then m else Met(MetAll(m, acts[..|acts| - 1]), acts[|acts| - 1])
  }

  // A store call: the outside requests that arrive before it come first.
  function Heard(w: World, m: Moment): Moment {
    MetAll(m, w.outside(|m.seen|)).(seen := m.seen + [m.rec])
  }

  function Written(m: Moment, state: JobState, fields: Fields): Moment {
    var rec := AfterUpdate(m.rec, state, fields);
    m.(rec := rec, trail := m.trail + [rec.state])
  }

  function Put(w: World, m: Moment, state: JobState, fields: Fields): Moment { Written(Heard(w, m), state, fields) }

  // An update is refused for the record it meets.
  predicate Refuses(w: World, m: Moment, state: JobState) { Refused(Heard(w, m).rec, state) }

  // The record after an update, read again if the update was refused.
  function PutOrGet(w: World, m: Moment, state: JobState, fields: Fields): Moment {
    var put := Put(w, m, state, fields);
    if Refuses(w, m, state) then Heard(w, put) else put
  }

  // ------------------------------------------------------------------ the run

  // What a run has consumed when it has used `used` attempts.
  datatype Ledger = Ledger(used: nat, history: seq<FailureCategory>, renders: nat, repairs: nat)

  const UNUSED := Ledger(0, [], 0, 0)

  // `refused` says that the last attempt counted was refused its entry into VALIDATING.
  datatype Run = Run(end: Moment, ledger: Ledger, refused: bool)

  // The head of the attempt loop.
  datatype Head = Head(m: Moment, l: Ledger, spec: Name, needRepair: bool, last: FailureCategory)

  // An attempt ends the run, or fails and is followed by the next loop head or the end of the budget.
  datatype Attempt = Over(run: Run) | Failing(head: Head)

  function Fail(m: Moment, l: Ledger, spec: Name, needRepair: bool, c: FailureCategory): Attempt {
    Failing(Head(m, l.(history := l.history + [c]), spec, needRepair, c))
  }

  // A validated spec is rendered and saved.
  function RenderAndSave(w: World, m: Moment, max: nat, l: Ledger, spec: Name): Attempt {
    var rendering := Put(w, m, JobState.Rendering, Fields());
    var l' := l.(renders := l.renders + 1);
    if Renders(w, l.used) && w.save(l.used) then
      var fields := Fields(mediaKey := Some(Some(m.rec.id)), failure := Some(None), history := Some(l.history));
      Over(Run(PutOrGet(w, rendering, Ready, fields), l', false))
    else
      var c := RenderFailure(w, l.used);
      if c == Policy.Cancelled then Over(Run(Heard(w, Put(w, rendering, JobState.Cancelled, Fields())), l', false))
      else Fail(rendering, l', spec, StepAfter(max - l.used, c) == Repair, c)
  }

  // The spec that an attempt settled on.
  function TrySpec(w: World, m: Moment, max: nat, l: Ledger, spec: Name): Attempt {
    var verdict := w.validate(spec);
    if verdict.Rejected? then
      var c := RejectionOf(verdict);
      Fail(m, l, spec, StepAfter(max - l.used, c) == Repair, c)
    else RenderAndSave(w, m, max, l, spec)
  }

  function Asked(w: World, l: Ledger): Ledger {
    if w.hasRepair && w.repairEnabled then l.(repairs := l.repairs + 1) else l
  }

  // A corrected spec is asked for, and tried if there is one.
  function RepairSpec(w: World, m: Moment, max: nat, l: Ledger, spec: Name, last: FailureCategory): Attempt {
    var repairing := Put(w, m, Repairing, Fields());
    var fixed := Repaired(w, spec, last, l.used);
    if fixed.None? then Fail(repairing, Asked(w, l), spec, true, NoRepairCategory(w))
    else TrySpec(w, Put(w, repairing, Validating, Fields()), max, Asked(w, l), fixed.value)
  }

  // One attempt, from the loop head on.
  function AttemptOf(w: World, max: nat, h: Head): Attempt {
    var n := h.l.used + 1;
    var l := h.l.(used := n);
    var entered := Put(w, h.m, Validating, Fields(attempt := Some(n)));
    Entered(w, max, l, h, entered, Refuses(w, h.m, Validating))
  }

  // A refused entry ends the run.
  function Entered(w: World, max: nat, l: Ledger, h: Head, entered: Moment, refused: bool): Attempt {
    if refused then Over(Run(Heard(w, entered), l, true)) else Proceed(w, entered, max, l, h)
  }

  // The attempt once it has been entered as VALIDATING.
  function Proceed(w: World, m: Moment, max: nat, l: Ledger, h: Head): Attempt {
    if h.needRepair then RepairSpec(w, m, max, l, h.spec, h.last) else TrySpec(w, m, max, l, h.spec)
  }

  predicate GivesUp(max: nat, h: Head) { StepAfter(max - h.l.used, h.last) == GiveUp }

  function GiveUpWith(w: World, h: Head): Run {
    var fields := Fields(failure := Some(Some(h.last)), history := Some(h.l.history));
    Run(PutOrGet(w, h.m, JobState.Failed, fields), h.l, false)
  }

  // Everything from a loop head on.
  function RunFrom(w: World, max: nat, h: Head): Run
    decreases max - h.l.used
  {
    if h.l.used >= max then GiveUpWith(w, h)
    else
      var a := AttemptOf(w, max, h);
      if a.Over? then a.run
      else if GivesUp(max, a.head) then GiveUpWith(w, a.head)
      else RunFrom(w, max, a.head)
  }

  function FirstHead(m: Moment): Head { Head(m, UNUSED, m.rec.spec, false, RenderError) }

  /** The whole run of a job: claimed once, read once, and driven to its end if it is still active. */
  function RunOf(w: World, rec: JobRecord, alreadyClaimed: bool): Run {
    var read := Heard(w, Heard(w, Start(rec)));
    if alreadyClaimed || !Active(read.rec.state) then Run(read, UNUSED, false)
    else RunFrom(w, read.rec.maxAttempts, FirstHead(read))
  }

  // ------------------------------------------------------------------ every step is one of the state machine's

  predicate Ended(s: JobState) { s.Cancelled? || s.Expired? }

  // The states that never change.
  predicate Final(s: JobState) { s.Failed? || Ended(s) }

  // Everything but the fields that the runner and outside requests write.
  ghost predicate SameJob(a: JobRecord, b: JobRecord) {
    a.id == b.id && a.owner == b.owner && a.spec == b.spec && a.maxAttempts == b.maxAttempts
  }

  ghost predicate OnPath(m: Moment) { IsPath(m.trail) && m.trail[|m.trail| - 1] == m.rec.state }

  // At some store call in between, an outside request met an active job.
  ghost predicate InterruptedBetween(w: World, m: Moment, m': Moment) {
    exists k :: |m.seen| <= k < |m'.seen| && Active(m'.seen[k].state) && w.outside(k) != []
  }

  /** What holds between any two moments of a run, in every world: the states of the later one extend those of the
      earlier one along the state machine, a record in a final state never changes again, and a job that a request
      met while it was active has ended. */
  ghost predicate Follows(w: World, m: Moment, m': Moment) {
    && OnPath(m') && m.seen <= m'.seen && m.trail <= m'.trail && SameJob(m.rec, m'.rec)
    && (Final(m.rec.state) ==> m'.rec == m.rec)
    && (forall k :: |m.seen| <= k < |m'.seen| && Final(m'.seen[k].state) ==> m'.rec == m'.seen[k])
    && (InterruptedBetween(w, m, m') ==> Ended(m'.rec.state))
  }

  lemma FollowsTransitive(w: World, a: Moment, b: Moment, c: Moment)
    requires Follows(w, a, b) && Follows(w, b, c)
    ensures Follows(w, a, c)
  {
    forall k | |a.seen| <= k < |c.seen|
      ensures Final(c.seen[k].state) ==> c.rec == c.seen[k]
      ensures Active(c.seen[k].state) && w.outside(k) != [] ==> Ended(c.rec.state)
    {
      if k < |b.seen| {
        assert c.seen[k] == b.seen[k];
      }
    }
  }

  lemma WrittenFollows(w: World, m: Moment, state: JobState, fields: Fields)
    requires OnPath(m)
    ensures Follows(w, m, Written(m, state, fields))
  {
    PathExtends(m.trail, AfterUpdate(m.rec, state, fields).state);
  }

  // What a batch of outside requests does to a record.
  ghost predicate Meddled(before: JobRecord, after: JobRecord) {
    after == before || (after == before.(state := after.state, failure := after.failure) && Ended(after.state))
  }

  lemma {:induction false} MetAllMeddles(m: Moment, acts: seq<Outside>)
    requires OnPath(m)
    ensures var m' := MetAll(m, acts);
            && OnPath(m') && m'.seen == m.seen && m.trail <= m'.trail
            && Meddled(m.rec, m'.rec)
            && (Final(m.rec.state) ==> m'.rec == m.rec)
            && (Active(m.rec.state) && acts != [] ==> Ended(m'.rec.state))
  {
    if acts != [] {
      MetAllMeddles(m, acts[..|acts| - 1]);
      var before := MetAll(m, acts[..|acts| - 1]);
      PathExtends(before.trail, Meet(acts[|acts| - 1], before.rec).state);
    }
  }

  lemma HeardFollows(w: World, m: Moment)
    requires OnPath(m)
    ensures Follows(w, m, Heard(w, m)) && Meddled(m.rec, Heard(w, m).rec)
    ensures Heard(w, m).seen == m.seen + [m.rec]
    ensures (Active(m.rec.state) ==> w.outside(|m.seen|) == []) && !m.rec.state.Ready? ==> Heard(w, m).rec == m.rec
  {
    MetAllMeddles(m, w.outside(|m.seen|));
  }

  lemma PutFollows(w: World, m: Moment, state: JobState, fields: Fields)
    requires OnPath(m)
    ensures Follows(w, m, Put(w, m, state, fields))
  {
    HeardFollows(w, m);
    WrittenFollows(w, Heard(w, m), state, fields);
    FollowsTransitive(w, m, Heard(w, m), Put(w, m, state, fields));
  }

  lemma PutOrGetFollows(w: World, m: Moment, state: JobState, fields: Fields)
    requires OnPath(m)
    ensures Follows(w, m, PutOrGet(w, m, state, fields))
  {
    PutFollows(w, m, state, fields);
    var put := Put(w, m, state, fields);
    HeardFollows(w, put);
    FollowsTransitive(w, m, put, Heard(w, put));
  }

  function EndOf(a: Attempt): Moment { if a.Over? then a.run.end else a.head.m }

  // What follows the RENDERING update.
  lemma RenderingFollows(w: World, m: Moment, max: nat, l: Ledger, spec: Name)
    requires OnPath(m)
    ensures Follows(w, Put(w, m, JobState.Rendering, Fields()), EndOf(RenderAndSave(w, m, max, l, spec)))
  {
    var rendering := Put(w, m, JobState.Rendering, Fields());
    PutFollows(w, m, JobState.Rendering, Fields());
    FollowsItself(w, rendering);
    if Renders(w, l.used) && w.save(l.used) {
      var fields := Fields(mediaKey := Some(Some(m.rec.id)), failure := Some(None), history := Some(l.history));
      PutOrGetFollows(w, rendering, Ready, fields);
    } else {
      var cancelled := Put(w, rendering, JobState.Cancelled, Fields());
      PutFollows(w, rendering, JobState.Cancelled, Fields());
      HeardFollows(w, cancelled);
      FollowsTransitive(w, rendering, cancelled, Heard(w, cancelled));
    }
  }

  lemma RenderAndSaveFollows(w: World, m: Moment, max: nat, l: Ledger, spec: Name)
    requires OnPath(m)
    ensures Follows(w, m, EndOf(RenderAndSave(w, m, max, l, spec)))
  {
    PutFollows(w, m, JobState.Rendering, Fields());
    RenderingFollows(w, m, max, l, spec);
    FollowsTransitive(w, m, Put(w, m, JobState.Rendering, Fields()), EndOf(RenderAndSave(w, m, max, l, spec)));
  }

  lemma FollowsItself(w: World, m: Moment)
    requires OnPath(m)
    ensures Follows(w, m, m)
  {
  }

  lemma TrySpecFollows(w: World, m: Moment, max: nat, l: Ledger, spec: Name)
    requires OnPath(m)
    ensures Follows(w, m, EndOf(TrySpec(w, m, max, l, spec)))
  {
    FollowsItself(w, m);
    RenderAndSaveFollows(w, m, max, l, spec);
  }

  lemma RepairSpecFollows(w: World, m: Moment, max: nat, l: Ledger, spec: Name, last: FailureCategory)
    requires OnPath(m)
    ensures Follows(w, m, EndOf(RepairSpec(w, m, max, l, spec, last)))
  {
    var repairing := Put(w, m, Repairing, Fields());
    PutFollows(w, m, Repairing, Fields());
    var fixed := Repaired(w, spec, last, l.used);
    if fixed.Some? {
      var again := Put(w, repairing, Validating, Fields());
      PutFollows(w, repairing, Validating, Fields());
      TrySpecFollows(w, again, max, Asked(w, l), fixed.value);
      FollowsTransitive(w, m, repairing, again);
      FollowsTransitive(w, m, again, EndOf(RepairSpec(w, m, max, l, spec, last)));
    }
  }

  lemma ProceedFollows(w: World, m: Moment, max: nat, l: Ledger, h: Head)
    requires OnPath(m)
    ensures Follows(w, m, EndOf(Proceed(w, m, max, l, h)))
  {
    if h.needRepair {
      RepairSpecFollows(w, m, max, l, h.spec, h.last);
    } else {
      TrySpecFollows(w, m, max, l, h.spec);
    }
  }

  lemma AttemptFollows(w: World, max: nat, h: Head) returns (a: Attempt)
    requires OnPath(h.m)
    ensures Follows(w, h.m, EndOf(a)) && a == AttemptOf(w, max, h)
  {
    var n := h.l.used + 1;
    var l := h.l.(used := n);
    var entered := Put(w, h.m, Validating, Fields(attempt := Some(n)));
    PutFollows(w, h.m, Validating, Fields(attempt := Some(n)));
    EnteredFollows(w, max, l, h, entered, Refuses(w, h.m, Validating));
    AttemptIsEntered(w, max, h);
    a := Entered(w, max, l, h, entered, Refuses(w, h.m, Validating));
  }

  lemma AttemptIsEntered(w: World, max: nat, h: Head)
    ensures var n := h.l.used + 1;
            var entered := Put(w, h.m, Validating, Fields(attempt := Some(n)));
            AttemptOf(w, max, h) == Entered(w, max, h.l.(used := n), h, entered, Refuses(w, h.m, Validating))
  {
  }

  lemma EnteredFollows(w: World, max: nat, l: Ledger, h: Head, entered: Moment, refused: bool)
    requires Follows(w, h.m, entered)
    ensures Follows(w, h.m, EndOf(Entered(w, max, l, h, entered, refused)))
  {
    HeardFollows(w, entered);
    FollowsTransitive(w, h.m, entered, Heard(w, entered));
    ProceedFollows(w, entered, max, l, h);
    FollowsTransitive(w, h.m, entered, EndOf(Proceed(w, entered, max, l, h)));
  }

  lemma {:induction false} RunFollows(w: World, max: nat, h: Head)
    requires OnPath(h.m)
    ensures Follows(w, h.m, RunFrom(w, max, h).end)
    decreases max - h.l.used
  {
    if h.l.used >= max {
      PutOrGetFollows(w, h.m, JobState.Failed, Fields(failure := Some(Some(h.last)), history := Some(h.l.history)));
    } else {
      var a := AttemptFollows(w, max, h);
      if a.Failing? && GivesUp(max, a.head) {
        PutOrGetFollows(w, a.head.m, JobState.Failed,
                        Fields(failure := Some(Some(a.head.last)), history := Some(a.head.l.history)));
        FollowsTransitive(w, h.m, a.head.m, GiveUpWith(w, a.head).end);
      } else if a.Failing? {
        RunFollows(w, max, a.head);
        FollowsTransitive(w, h.m, a.head.m, RunFrom(w, max, a.head).end);
      }
    }
  }

  /** Safety, in every world: the states of a job during its run form a path of the state machine from the state it
      had, a record that was FAILED, CANCELLED or EXPIRED at any store call is the final record, and so a late
      successful render cannot turn a cancelled or expired job READY: a job that any outside request met while it
      was active, at whichever store call, ends CANCELLED or EXPIRED. */
  lemma RunIsSafe(w: World, rec: JobRecord, alreadyClaimed: bool)
    ensures Follows(w, Start(rec), RunOf(w, rec, alreadyClaimed).end)
    ensures var seen := RunOf(w, rec, alreadyClaimed).end.seen; |seen| >= 2 && seen[0] == rec
  {
    var first := Heard(w, Start(rec));
    var read := Heard(w, first);
    HeardFollows(w, Start(rec));
    HeardFollows(w, first);
    FollowsTransitive(w, Start(rec), first, read);
    if !alreadyClaimed && Active(read.rec.state) {
      RunFollows(w, read.rec.maxAttempts, FirstHead(read));
      FollowsTransitive(w, Start(rec), read, RunOf(w, rec, alreadyClaimed).end);
    }
    assert read.seen == [rec, first.rec];
  }

  // ------------------------------------------------------------------ every run is accounted for

  ghost predicate WithinBudget(max: nat, l: Ledger) {
    && l.used <= max
    && l.renders <= l.used
    && (if l.used == 0 then l.repairs == 0 else l.repairs <= l.used - 1)
  }

  /** What the final record says about the run that left it behind; `start` is the record that the run read. */
  ghost predicate Accounted(w: World, start: JobRecord, final: JobRecord, l: Ledger) {
    && (final.state == Ready ==>
          && 0 < l.used && Renders(w, l.used) && w.save(l.used)
          && final.mediaKey == Some(start.id) && final.failure == None
          && final.history == l.history && |l.history| == l.used - 1)
    && (final.state == JobState.Failed ==>
          && final.failure.Some? && final.history == l.history && |l.history| == l.used
          && FailedInTime(start.maxAttempts, final.failure.value, l.history))
    && (Active(final.state) ==>
          && final.state == Validating && l.used == |l.history| + 1
          && (if l.history == [] then start.state == Validating
              else l.history[|l.history| - 1].InvalidSpec? || l.history[|l.history| - 1].UnsupportedTemplate?))
  }

  ghost predicate NonePermanent(history: seq<FailureCategory>) {
    forall i :: 0 <= i < |history| ==> !Permanent(history[i])
  }

  // At the loop head: every attempt used so far failed, not permanently, and the record shows how.
  ghost predicate Between(start: JobRecord, h: Head) {
    var l, state := h.l, h.m.rec.state;
    && OnPath(h.m) && SameJob(start, h.m.rec)
    && l.used == |l.history| && WithinBudget(start.maxAttempts, l) && (h.needRepair ==> l.used > 0)
    && NonePermanent(l.history)
    && (if l.used == 0 then h.last == RenderError else h.last == l.history[l.used - 1])
    && (state.Rendering? || state.Repairing? || Ended(state)
        || (l.used == 0 && Active(state) && state == start.state)
        || (l.used > 0 && state == Validating && (h.last.InvalidSpec? || h.last.UnsupportedTemplate?)))
  }

  // The budget is spent or the last failure is permanent.
  ghost predicate Spent(start: JobRecord, h: Head) {
    && OnPath(h.m) && SameJob(start, h.m.rec)
    && h.l.used == |h.l.history| && WithinBudget(start.maxAttempts, h.l)
    && FailedInTime(start.maxAttempts, h.last, h.l.history)
    && (Active(h.m.rec.state) || Ended(h.m.rec.state))
  }

  // Within an attempt.
  ghost predicate Trying(start: JobRecord, m: Moment, l: Ledger) {
    && OnPath(m) && SameJob(start, m.rec) && (m.rec.state == Validating || Ended(m.rec.state))
    && 0 < l.used <= start.maxAttempts && |l.history| == l.used - 1 && NonePermanent(l.history)
    && l.renders < l.used && l.repairs <= l.used - 1
  }

  ghost predicate RunAccounted(w: World, start: JobRecord, run: Run) {
    && WithinBudget(start.maxAttempts, run.ledger) && Accounted(w, start, run.end.rec, run.ledger)
    && (run.refused ==> run.end.rec.state != Ready && run.end.rec.state != JobState.Failed)
  }

  ghost predicate AttemptAccounted(w: World, start: JobRecord, a: Attempt) {
    match a
    case Over(run) => RunAccounted(w, start, run)
    case Failing(h) => if GivesUp(start.maxAttempts, h) then Spent(start, h) else Between(start, h)
  }

  lemma FailIsAccounted(w: World, start: JobRecord, m: Moment, l: Ledger, spec: Name, needRepair: bool,
                        c: FailureCategory)
    requires OnPath(m) && SameJob(start, m.rec)
    requires 0 < l.used <= start.maxAttempts && |l.history| == l.used - 1 && NonePermanent(l.history)
    requires l.renders <= l.used && l.repairs <= l.used - 1
    requires m.rec.state.Rendering? || m.rec.state.Repairing? || Ended(m.rec.state)
             || (m.rec.state == Validating && (c.InvalidSpec? || c.UnsupportedTemplate?))
    ensures AttemptAccounted(w, start, Fail(m, l, spec, needRepair, c))
  {
  }

  lemma RenderAndSaveIsAccounted(w: World, start: JobRecord, m: Moment, l: Ledger, spec: Name)
    requires Trying(start, m, l)
    ensures AttemptAccounted(w, start, RenderAndSave(w, m, start.maxAttempts, l, spec))
  {
    var rendering := Put(w, m, JobState.Rendering, Fields());
    var l' := l.(renders := l.renders + 1);
    HeardFollows(w, m);
    PutFollows(w, m, JobState.Rendering, Fields());
    assert rendering.rec.state.Rendering? || Ended(rendering.rec.state);
    if Renders(w, l.used) && w.save(l.used) {
      SavedIsAccounted(w, start, rendering, l', m.rec.id);
    } else {
      var c := RenderFailure(w, l.used);
      if c == Policy.Cancelled {
        CancelledIsAccounted(w, start, rendering, l');
      } else {
        FailIsAccounted(w, start, rendering, l', spec, StepAfter(start.maxAttempts - l.used, c) == Repair, c);
      }
    }
  }

  lemma SavedIsAccounted(w: World, start: JobRecord, m: Moment, l: Ledger, key: Name)
    requires OnPath(m) && (m.rec.state.Rendering? || Ended(m.rec.state)) && key == start.id
    requires 0 < l.used <= start.maxAttempts && |l.history| == l.used - 1
    requires l.renders <= l.used && l.repairs <= l.used - 1 && Renders(w, l.used) && w.save(l.used)
    ensures var fields := Fields(mediaKey := Some(Some(key)), failure := Some(None), history := Some(l.history));
            RunAccounted(w, start, Run(PutOrGet(w, m, Ready, fields), l, false))
  {
    var fields := Fields(mediaKey := Some(Some(key)), failure := Some(None), history := Some(l.history));
    HeardFollows(w, m);
    PutFollows(w, m, Ready, fields);
    HeardFollows(w, Put(w, m, Ready, fields));
  }

  lemma CancelledIsAccounted(w: World, start: JobRecord, m: Moment, l: Ledger)
    requires OnPath(m) && (m.rec.state.Rendering? || Ended(m.rec.state))
    requires 0 < l.used <= start.maxAttempts && l.renders <= l.used && l.repairs <= l.used - 1
    ensures RunAccounted(w, start, Run(Heard(w, Put(w, m, JobState.Cancelled, Fields())), l, false))
  {
    HeardFollows(w, m);
    PutFollows(w, m, JobState.Cancelled, Fields());
    HeardFollows(w, Put(w, m, JobState.Cancelled, Fields()));
  }

  lemma TrySpecIsAccounted(w: World, start: JobRecord, m: Moment, l: Ledger, spec: Name)
    requires Trying(start, m, l)
    ensures AttemptAccounted(w, start, TrySpec(w, m, start.maxAttempts, l, spec))
  {
    var verdict := w.validate(spec);
    if verdict.Rejected? {
      var c := RejectionOf(verdict);
      FailIsAccounted(w, start, m, l, spec, StepAfter(start.maxAttempts - l.used, c) == Repair, c);
    } else {
      RenderAndSaveIsAccounted(w, start, m, l, spec);
    }
  }

  lemma RepairSpecIsAccounted(w: World, start: JobRecord, m: Moment, l: Ledger, spec: Name, last: FailureCategory)
    requires Trying(start, m, l) && l.repairs < l.used - 1
    ensures AttemptAccounted(w, start, RepairSpec(w, m, start.maxAttempts, l, spec, last))
  {
    var repairing := Put(w, m, Repairing, Fields());
    HeardFollows(w, m);
    PutFollows(w, m, Repairing, Fields());
    var fixed := Repaired(w, spec, last, l.used);
    if fixed.None? {
      FailIsAccounted(w, start, repairing, Asked(w, l), spec, true, NoRepairCategory(w));
    } else {
      HeardFollows(w, repairing);
      PutFollows(w, repairing, Validating, Fields());
      TrySpecIsAccounted(w, start, Put(w, repairing, Validating, Fields()), Asked(w, l), fixed.value);
    }
  }

  lemma AttemptIsAccounted(w: World, start: JobRecord, h: Head)
    requires Between(start, h) && h.l.used < start.maxAttempts
    ensures AttemptAccounted(w, start, AttemptOf(w, start.maxAttempts, h))
  {
    var n := h.l.used + 1;
    var l := h.l.(used := n);
    var entered := Put(w, h.m, Validating, Fields(attempt := Some(n)));
    HeardFollows(w, h.m);
    PutFollows(w, h.m, Validating, Fields(attempt := Some(n)));
    if Refuses(w, h.m, Validating) {
      HeardFollows(w, entered);
      RefusedIsAccounted(w, start, h, Heard(w, entered).rec);
    } else {
      assert Trying(start, entered, l);
      ProceedIsAccounted(w, start, entered, l, h);
    }
  }

  // A refused VALIDATING update: the job was ended from outside, or its last spec was rejected.
  lemma RefusedIsAccounted(w: World, start: JobRecord, h: Head, final: JobRecord)
    requires Between(start, h) && h.l.used < start.maxAttempts
    requires Refuses(w, h.m, Validating) && Meddled(h.m.rec, Heard(w, h.m).rec) && Meddled(Heard(w, h.m).rec, final)
    ensures WithinBudget(start.maxAttempts, h.l.(used := h.l.used + 1))
    ensures Accounted(w, start, final, h.l.(used := h.l.used + 1))
    ensures final.state != Ready && final.state != JobState.Failed
  {
  }

  lemma ProceedIsAccounted(w: World, start: JobRecord, m: Moment, l: Ledger, h: Head)
    requires Trying(start, m, l) && (h.needRepair ==> l.repairs < l.used - 1)
    ensures AttemptAccounted(w, start, Proceed(w, m, start.maxAttempts, l, h))
  {
    if h.needRepair {
      RepairSpecIsAccounted(w, start, m, l, h.spec, h.last);
    } else {
      TrySpecIsAccounted(w, start, m, l, h.spec);
    }
  }

  lemma GiveUpIsAccounted(w: World, start: JobRecord, h: Head)
    requires Spent(start, h)
    ensures RunAccounted(w, start, GiveUpWith(w, h))
  {
    var fields := Fields(failure := Some(Some(h.last)), history := Some(h.l.history));
    HeardFollows(w, h.m);
    PutFollows(w, h.m, JobState.Failed, fields);
    HeardFollows(w, Put(w, h.m, JobState.Failed, fields));
  }

  lemma {:induction false} LoopIsAccounted(w: World, start: JobRecord, h: Head)
    requires Between(start, h)
    ensures RunAccounted(w, start, RunFrom(w, start.maxAttempts, h))
    decreases start.maxAttempts - h.l.used
  {
    if h.l.used >= start.maxAttempts {
      GiveUpIsAccounted(w, start, h);
    } else {
      var a := AttemptOf(w, start.maxAttempts, h);
      AttemptIsAccounted(w, start, h);
      if a.Failing? && GivesUp(start.maxAttempts, a.head) {
        GiveUpIsAccounted(w, start, a.head);
      } else if a.Failing? {
        LoopIsAccounted(w, start, a.head);
      }
    }
  }

  // ------------------------------------------------------------------ every run that is not interrupted meets its fate

  // How a fate shows in the record of the job.
  ghost predicate Shows(start: JobRecord, fate: Fate, final: JobRecord) {
    match fate
    case Published(n, history) =>
      final == start.(state := Ready, attempt := n, mediaKey := Some(start.id), failure := None, history := history)
    case GaveUp(last, history) =>
      final == start.(state := JobState.Failed, attempt := if history == [] then start.attempt else |history|,
                      failure := Some(last), history := history)
    case RenderCancelled(n, _) => final == start.(state := JobState.Cancelled, attempt := n)
    case Stranded(n, _) => final == start.(state := Validating, attempt := if n == 0 then start.attempt else n)
  }

  function FateAhead(w: World, max: nat, h: Head): Fate {
    FateFrom(w, max, h.l.used, h.spec, h.needRepair, h.last, h.m.rec.state == Validating, h.l.history)
  }

  // The record while the job is not interrupted, n attempts into the budget.
  ghost predicate Untouched(start: JobRecord, rec: JobRecord, n: nat) {
    Active(rec.state) && rec == start.(state := rec.state, attempt := if n == 0 then start.attempt else n)
  }

  ghost predicate AttemptShows(start: JobRecord, fate: Fate, w: World, max: nat, a: Attempt) {
    match a
    case Over(run) => Shows(start, fate, run.end.rec)
    case Failing(h) =>
      && Untouched(start, h.m.rec, h.l.used) && 0 < h.l.used == |h.l.history|
      && if GivesUp(max, h) then fate == GaveUp(h.last, h.l.history)
         else fate == FateAhead(w, max, h)
  }

  lemma UninterruptedPrefix(w: World, a: Moment, b: Moment, c: Moment)
    requires !InterruptedBetween(w, a, c) && Follows(w, a, b) && Follows(w, b, c)
    ensures !InterruptedBetween(w, a, b) && !InterruptedBetween(w, b, c)
  {
    assert forall k :: 0 <= k < |b.seen| ==> c.seen[k] == b.seen[k];
  }

  lemma HeardQuietly(w: World, m: Moment)
    requires OnPath(m) && !m.rec.state.Ready? && !InterruptedBetween(w, m, Heard(w, m))
    ensures Heard(w, m).rec == m.rec
  {
    HeardFollows(w, m);
    var k := |m.seen|;
    assert Heard(w, m).seen[k] == m.rec;
  }

  lemma PutQuietly(w: World, m: Moment, state: JobState, fields: Fields)
    requires OnPath(m) && !m.rec.state.Ready? && !InterruptedBetween(w, m, Put(w, m, state, fields))
    ensures Put(w, m, state, fields).rec == AfterUpdate(m.rec, state, fields)
    ensures Refuses(w, m, state) <==> Refused(m.rec, state)
  {
    HeardFollows(w, m);
    WrittenFollows(w, Heard(w, m), state, fields);
    UninterruptedPrefix(w, m, Heard(w, m), Put(w, m, state, fields));
    HeardQuietly(w, m);
  }

  lemma SavedShows(w: World, start: JobRecord, m: Moment, l: Ledger)
    requires OnPath(m) && m.rec == start.(state := JobState.Rendering, attempt := l.used)
    requires var fields := Fields(mediaKey := Some(Some(start.id)), failure := Some(None), history := Some(l.history));
             !InterruptedBetween(w, m, PutOrGet(w, m, Ready, fields))
    ensures var fields := Fields(mediaKey := Some(Some(start.id)), failure := Some(None), history := Some(l.history));
            Shows(start, Published(l.used, l.history), PutOrGet(w, m, Ready, fields).rec)
  {
    var fields := Fields(mediaKey := Some(Some(start.id)), failure := Some(None), history := Some(l.history));
    var put := Put(w, m, Ready, fields);
    PutFollows(w, m, Ready, fields);
    HeardFollows(w, put);
    if Refuses(w, m, Ready) {
      UninterruptedPrefix(w, m, put, Heard(w, put));
    }
    PutQuietly(w, m, Ready, fields);
  }

  lemma CancelledShows(w: World, start: JobRecord, m: Moment, n: nat, history: seq<FailureCategory>)
    requires OnPath(m) && m.rec == start.(state := JobState.Rendering, attempt := n)
    requires !InterruptedBetween(w, m, Heard(w, Put(w, m, JobState.Cancelled, Fields())))
    ensures Shows(start, RenderCancelled(n, history), Heard(w, Put(w, m, JobState.Cancelled, Fields())).rec)
  {
    var put := Put(w, m, JobState.Cancelled, Fields());
    PutFollows(w, m, JobState.Cancelled, Fields());
    HeardFollows(w, put);
    UninterruptedPrefix(w, m, put, Heard(w, put));
    PutQuietly(w, m, JobState.Cancelled, Fields());
  }

  lemma RenderAndSaveShows(w: World, start: JobRecord, m: Moment, max: nat, l: Ledger, spec: Name)
    requires OnPath(m) && m.rec == start.(state := Validating, attempt := l.used)
    requires 0 < l.used <= max && |l.history| == l.used - 1 && w.validate(spec).Accepted?
    requires !InterruptedBetween(w, m, EndOf(RenderAndSave(w, m, max, l, spec)))
    ensures AttemptShows(start, Try(w, max, l.used, spec, l.history), w, max, RenderAndSave(w, m, max, l, spec))
  {
    var rendering := Put(w, m, JobState.Rendering, Fields());
    var end := EndOf(RenderAndSave(w, m, max, l, spec));
    PutFollows(w, m, JobState.Rendering, Fields());
    RenderingFollows(w, m, max, l, spec);
    UninterruptedPrefix(w, m, rendering, end);
    PutQuietly(w, m, JobState.Rendering, Fields());
    if Renders(w, l.used) && w.save(l.used) {
      SavedShows(w, start, rendering, l);
    } else if RenderFailure(w, l.used) == Policy.Cancelled {
      CancelledShows(w, start, rendering, l.used, l.history);
    }
  }

  lemma TrySpecShows(w: World, start: JobRecord, m: Moment, max: nat, l: Ledger, spec: Name)
    requires OnPath(m) && m.rec == start.(state := Validating, attempt := l.used)
    requires 0 < l.used <= max && |l.history| == l.used - 1
    requires !InterruptedBetween(w, m, EndOf(TrySpec(w, m, max, l, spec)))
    ensures AttemptShows(start, Try(w, max, l.used, spec, l.history), w, max, TrySpec(w, m, max, l, spec))
  {
    if w.validate(spec).Accepted? {
      RenderAndSaveShows(w, start, m, max, l, spec);
    }
  }

  lemma RepairSpecShows(w: World, start: JobRecord, m: Moment, max: nat, l: Ledger, spec: Name, last: FailureCategory)
    requires OnPath(m) && m.rec == start.(state := Validating, attempt := l.used)
    requires 0 < l.used <= max && |l.history| == l.used - 1
    requires !InterruptedBetween(w, m, EndOf(RepairSpec(w, m, max, l, spec, last)))
    ensures AttemptShows(start, FateFrom(w, max, l.used - 1, spec, true, last, false, l.history), w, max,
                         RepairSpec(w, m, max, l, spec, last))
  {
    var repairing := Put(w, m, Repairing, Fields());
    var fixed := Repaired(w, spec, last, l.used);
    PutFollows(w, m, Repairing, Fields());
    if fixed.None? {
      PutQuietly(w, m, Repairing, Fields());
    } else {
      var again := Put(w, repairing, Validating, Fields());
      var end := EndOf(RepairSpec(w, m, max, l, spec, last));
      PutFollows(w, repairing, Validating, Fields());
      TrySpecFollows(w, again, max, Asked(w, l), fixed.value);
      FollowsTransitive(w, repairing, again, end);
      UninterruptedPrefix(w, m, repairing, end);
      UninterruptedPrefix(w, repairing, again, end);
      PutQuietly(w, m, Repairing, Fields());
      PutQuietly(w, repairing, Validating, Fields());
      TrySpecShows(w, start, again, max, Asked(w, l), fixed.value);
    }
  }

  lemma EnteredShows(w: World, start: JobRecord, max: nat, l: Ledger, h: Head, entered: Moment, refused: bool)
    requires OnPath(entered) && h.l.used < max && l == h.l.(used := h.l.used + 1) && |h.l.history| == h.l.used
    requires refused <==> h.m.rec.state == Validating
    requires if refused then entered.rec == h.m.rec && Untouched(start, h.m.rec, h.l.used)
             else entered.rec == start.(state := Validating, attempt := l.used)
    requires !InterruptedBetween(w, entered, EndOf(Entered(w, max, l, h, entered, refused)))
    ensures AttemptShows(start, FateAhead(w, max, h), w, max, Entered(w, max, l, h, entered, refused))
  {
    if refused {
      HeardQuietly(w, entered);
    } else if h.needRepair {
      RepairSpecShows(w, start, entered, max, l, h.spec, h.last);
    } else {
      TrySpecShows(w, start, entered, max, l, h.spec);
    }
  }

  lemma AttemptMeetsFate(w: World, start: JobRecord, max: nat, h: Head) returns (a: Attempt)
    requires OnPath(h.m) && Untouched(start, h.m.rec, h.l.used) && |h.l.history| == h.l.used < max
    requires !InterruptedBetween(w, h.m, EndOf(AttemptOf(w, max, h)))
    ensures AttemptShows(start, FateAhead(w, max, h), w, max, a) && a == AttemptOf(w, max, h)
  {
    var n := h.l.used + 1;
    var l := h.l.(used := n);
    var entered := Put(w, h.m, Validating, Fields(attempt := Some(n)));
    var refused := Refuses(w, h.m, Validating);
    a := Entered(w, max, l, h, entered, refused);
    PutFollows(w, h.m, Validating, Fields(attempt := Some(n)));
    EnteredExtends(w, max, l, h, entered, refused);
    UninterruptedPrefix(w, h.m, entered, EndOf(a));
    PutQuietly(w, h.m, Validating, Fields(attempt := Some(n)));
    EnteredShows(w, start, max, l, h, entered, refused);
  }

  lemma EnteredExtends(w: World, max: nat, l: Ledger, h: Head, entered: Moment, refused: bool)
    requires OnPath(entered)
    ensures Follows(w, entered, EndOf(Entered(w, max, l, h, entered, refused)))
  {
    HeardFollows(w, entered);
    ProceedFollows(w, entered, max, l, h);
  }

  lemma GiveUpShows(w: World, start: JobRecord, h: Head)
    requires OnPath(h.m) && Untouched(start, h.m.rec, h.l.used) && |h.l.history| == h.l.used
    requires !InterruptedBetween(w, h.m, GiveUpWith(w, h).end)
    ensures Shows(start, GaveUp(h.last, h.l.history), GiveUpWith(w, h).end.rec)
  {
    var fields := Fields(failure := Some(Some(h.last)), history := Some(h.l.history));
    var put := Put(w, h.m, JobState.Failed, fields);
    PutFollows(w, h.m, JobState.Failed, fields);
    HeardFollows(w, put);
    if Refuses(w, h.m, JobState.Failed) {
      UninterruptedPrefix(w, h.m, put, Heard(w, put));
    }
    PutQuietly(w, h.m, JobState.Failed, fields);
  }

  // A run that is not interrupted is not interrupted within its next attempt, or after it.
  lemma AttemptUninterrupted(w: World, max: nat, h: Head) returns (a: Attempt)
    requires OnPath(h.m) && h.l.used < max && !InterruptedBetween(w, h.m, RunFrom(w, max, h).end)
    ensures a == AttemptOf(w, max, h) && !InterruptedBetween(w, h.m, EndOf(a)) && OnPath(EndOf(a))
    ensures a.Failing? ==> !InterruptedBetween(w, a.head.m, RunFrom(w, max, h).end)
  {
    a := AttemptFollows(w, max, h);
    if a.Failing? {
      LaterFollows(w, max, a.head);
      UninterruptedPrefix(w, h.m, a.head.m, RunFrom(w, max, h).end);
    }
  }

  lemma {:induction false} LoopMeetsFate(w: World, start: JobRecord, max: nat, h: Head)
    requires OnPath(h.m) && Untouched(start, h.m.rec, h.l.used) && |h.l.history| == h.l.used <= max
    requires !InterruptedBetween(w, h.m, RunFrom(w, max, h).end)
    ensures Shows(start, FateAhead(w, max, h), RunFrom(w, max, h).end.rec)
    decreases max - h.l.used
  {
    if h.l.used >= max {
      GiveUpShows(w, start, h);
    } else {
      var a := AttemptUninterrupted(w, max, h);
      var _ := AttemptMeetsFate(w, start, max, h);
      if a.Failing? && GivesUp(max, a.head) {
        GiveUpShows(w, start, a.head);
      } else if a.Failing? {
        LoopMeetsFate(w, start, max, a.head);
      }
    }
  }

  lemma LaterFollows(w: World, max: nat, h: Head)
    requires OnPath(h.m)
    ensures Follows(w, h.m, GiveUpWith(w, h).end) && Follows(w, h.m, RunFrom(w, max, h).end)
  {
    PutOrGetFollows(w, h.m, JobState.Failed, Fields(failure := Some(Some(h.last)), history := Some(h.l.history)));
    RunFollows(w, max, h);
  }

  // The fate of a job that a run reads in this record.
  function FateOfRecord(w: World, rec: JobRecord): Fate {
    FateFrom(w, rec.maxAttempts, 0, rec.spec, false, RenderError, rec.state == Validating, [])
  }

  /** The whole truth about a claimed job, in every world: either some outside request met it while it was active,
      and then it ends CANCELLED or EXPIRED, or it meets exactly the fate of an undisturbed job, down to every
      field. */
  lemma RunMeetsFate(w: World, rec: JobRecord)
    requires Active(rec.state)
    ensures var end := RunOf(w, rec, false).end;
            if InterruptedBetween(w, Start(rec), end) then Ended(end.rec.state)
            else Shows(rec, FateOfRecord(w, rec), end.rec)
  {
    var m := Start(rec);
    var first := Heard(w, m);
    var read := Heard(w, first);
    var end := RunOf(w, rec, false).end;
    RunIsSafe(w, rec, false);
    if !InterruptedBetween(w, m, end) {
      HeardFollows(w, m);
      HeardFollows(w, first);
      FollowsTransitive(w, m, first, read);
      ReadFollows(w, rec, read);
      UninterruptedPrefix(w, m, read, end);
      UninterruptedPrefix(w, m, first, read);
      HeardQuietly(w, m);
      HeardQuietly(w, first);
      LoopMeetsFate(w, rec, rec.maxAttempts, FirstHead(read));
    }
  }

  lemma ReadFollows(w: World, rec: JobRecord, read: Moment)
    requires read == Heard(w, Heard(w, Start(rec))) && OnPath(read)
    ensures Follows(w, read, RunOf(w, rec, false).end)
  {
    RunFollows(w, read.rec.maxAttempts, FirstHead(read));
    FollowsItself(w, read);
  }

  /** A claimed active job ends CANCELLED or EXPIRED exactly when a request met it while it was active or its renderer
      reported a cancellation. */
  lemma EndedIff(w: World, rec: JobRecord)
    requires Active(rec.state)
    ensures var end := RunOf(w, rec, false).end;
            Ended(end.rec.state) <==> InterruptedBetween(w, Start(rec), end) || FateOfRecord(w, rec).RenderCancelled?
  {
    RunMeetsFate(w, rec);
  }

  /** A stranded run: a job whose submitted specification the runner rejects, with attempts left and no outside
      request, is returned still VALIDATING. The API has validated the specification as it was sent; the runner
      validates its canonical form, in which the fields that were left out may make it too long. */
  lemma RejectedSpecStrands(w: World, rec: JobRecord)
    requires rec.state == Pending && rec.maxAttempts == 3 && w.validate(rec.spec) == Rejected(false)
    requires forall k :: w.outside(k) == []
    ensures RunOf(w, rec, false).end.rec == rec.(state := Validating, attempt := 1)
  {
    RunMeetsFate(w, rec);
    assert FateOfRecord(w, rec) == Stranded(1, [InvalidSpec]);
  }

  /** Conditional liveness: a claimed PENDING job that no request meets while it is active, whose early specs are all
      accepted and whose renderer reports no cancellation of its own, ends READY or FAILED. */
  lemma QuietRunEnds(w: World, rec: JobRecord)
    requires rec.state == Pending && EarlySpecsAccepted(w, rec.spec, rec.maxAttempts)
    requires forall n {:trigger w.render(n)} :: w.render(n).category != Some(Policy.Cancelled)
    ensures var end := RunOf(w, rec, false).end;
            !InterruptedBetween(w, Start(rec), end)
            ==> end.rec.state == Ready || end.rec.state == JobState.Failed
  {
    RunMeetsFate(w, rec);
    EndsReadyOrFailed(w, rec.spec, rec.maxAttempts);
  }

  /** FAILED is neither early nor late, READY means that this run's render and save succeeded, and renders and
      repairs stay within the budget, in every world. */
  lemma RunIsAccounted(w: World, rec: JobRecord)
    ensures var run := RunOf(w, rec, false);
            var read := Heard(w, Heard(w, Start(rec))).rec;
            && (Active(read.state) ==> read == rec && RunAccounted(w, rec, run))
            && (!Active(read.state) ==> run.ledger == UNUSED && run.end.rec == read)
  {
    var first := Heard(w, Start(rec));
    var read := Heard(w, first);
    HeardFollows(w, Start(rec));
    HeardFollows(w, first);
    if Active(read.rec.state) {
      LoopIsAccounted(w, read.rec, FirstHead(read));
    }
  }
}
