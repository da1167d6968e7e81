/** The job runner (app/visualization/runner.py): the attempt, repair and render loop over the job store, while an
    API caller may cancel the job and an expiry may hit it before any store call. Every method is proved to do what
    `JobRuns` says a run does in its world. */
module Runner {
  import opened Outcomes
  import opened Policy
  import opened Jobs
  import opened Fates
  import opened JobRuns

  /** The store, the renderer and the repair as one run of the job uses them; `now` is the moment the run has
      reached. */
  class Session {
    const store: MemoryJobStore
    const jobId: Name
    const w: World
    ghost const jobs0: map<Name, JobRecord>
    var calls: nat
    var renders: nat
    var repairs: nat
    ghost var now: Moment

    ghost predicate Tracks()
      reads this, store
    {
      && jobId in jobs0 && store.jobs == jobs0[jobId := now.rec]
      && OnPath(now) && now.rec.id == jobId && calls == |now.seen|
    }

    constructor (store: MemoryJobStore, jobId: Name, w: World)
      requires jobId in store.jobs && store.jobs[jobId].id == jobId
      ensures this.store == store && this.jobId == jobId && this.w == w && jobs0 == store.jobs
      ensures now == Start(store.jobs[jobId]) && renders == 0 && repairs == 0 && Tracks()
    {
      this.store, this.jobId, this.w := store, jobId, w;
      calls, renders, repairs := 0, 0, 0;
      jobs0, now := store.jobs, Start(store.jobs[jobId]);
    }

    // One outside request.
    method Serve(act: Outside, ghost m: Moment)
      requires jobId in store.jobs && store.jobs[jobId] == m.rec
      modifies store`jobs
      ensures store.jobs == old(store.jobs)[jobId := Met(m, act).rec]
    {
      assert store.jobs == store.jobs[jobId := store.jobs[jobId]];
      match act {
        case CancelRequest =>
          if Active(store.jobs[jobId].state) {
            var _ := store.Update(jobId, JobState.Cancelled, Fields(failure := Some(Some(Policy.Cancelled))));
          }
        case Expiry =>
          var _ := store.Update(jobId, JobState.Expired, Fields());
      }
    }

    // The outside requests that arrive before the next store call.
    method Interfere()
      requires Tracks()
      modifies this`calls, this`now, store`jobs
      ensures Tracks() && now == old(Heard(w, now))
    {
      var acts := w.outside(calls);
      ghost var before := now;
      var i := 0;
      while i < |acts|
        modifies store`jobs
        invariant 0 <= i <= |acts|
        invariant store.jobs == jobs0[jobId := MetAll(before, acts[..i]).rec]
      {
        assert acts[..i + 1][..i] == acts[..i];
        Serve(acts[i], MetAll(before, acts[..i]));
        i := i + 1;
      }
      assert acts[..|acts|] == acts;
      HeardFollows(w, before);
      now := Heard(w, before);
      calls := calls + 1;
    }

    method Update(newState: JobState, fields: Fields) returns (r: Option<JobRecord>)
      requires Tracks()
      modifies this`calls, this`now, store`jobs
      ensures Tracks() && now == old(Put(w, now, newState, fields))
      ensures r == if old(Refuses(w, now, newState)) then None else Some(now.rec)
    {
      Interfere();
      WrittenFollows(w, now, newState, fields);
      r := store.Update(jobId, newState, fields);
      now := Written(now, newState, fields);
    }

    method Get() returns (r: Option<JobRecord>)
      requires Tracks()
      modifies this`calls, this`now, store`jobs
      ensures Tracks() && now == old(Heard(w, now)) && r == Some(now.rec)
    {
      Interfere();
      r := store.Get(jobId);
    }

    // `store.update(...) or store.get(...)`.
    method UpdateOrGet(newState: JobState, fields: Fields) returns (r: Option<JobRecord>)
      requires Tracks()
      modifies this`calls, this`now, store`jobs
      ensures Tracks() && now == old(PutOrGet(w, now, newState, fields)) && r == Some(now.rec)
    {
      r := Update(newState, fields);
      if r.None? {
        r := Get();
      }
    }

    method Render(n: nat) returns (result: RenderResult)
      modifies this`renders
      ensures renders == old(renders) + 1 && result == w.render(n)
    {
      renders := renders + 1;
      result := w.render(n);
    }

    // Asks for a corrected spec, if there is anyone to ask; an empty answer does not count.
    method Repair(spec: Name, last: FailureCategory, n: nat) returns (fixed: Option<Name>)
      modifies this`repairs
      ensures fixed == Repaired(w, spec, last, n)
      ensures repairs == old(repairs) + if w.hasRepair && w.repairEnabled then 1 else 0
    {
      fixed := None;
      if w.hasRepair && w.repairEnabled {
        repairs := repairs + 1;
        fixed := w.repair(spec, last, n);
        if fixed == Some(Name("")) {
          fixed := None;
        }
      }
    }
  }

  // The session and the tracker are where the attempt leaves them.
  ghost predicate Reaches(a: Attempt, s: Session, tracker: AttemptTracker)
    reads s, tracker
  {
    && s.now == EndOf(a)
    && s.renders == LedgerOf(a).renders && s.repairs == LedgerOf(a).repairs
    && tracker.used == LedgerOf(a).used && tracker.history == LedgerOf(a).history
  }

  function LedgerOf(a: Attempt): Ledger { if a.Over? then a.run.ledger else a.head.l }

  ghost predicate Counts(l: Ledger, s: Session, tracker: AttemptTracker)
    reads s, tracker
  {
    && s.renders == l.renders && s.repairs == l.repairs
    && tracker.used == l.used <= tracker.maxAttempts && tracker.history == l.history
  }

  // One validated spec rendered and saved.
  method PerformRender(s: Session, tracker: AttemptTracker, spec: Name, ghost l: Ledger)
    returns (over: bool, r: Option<JobRecord>, needRepair: bool, last: FailureCategory)
    requires s.Tracks() && Counts(l, s, tracker)
    modifies s`calls, s`now, s`renders, s.store`jobs, tracker`history
    ensures s.Tracks()
    ensures var a := old(RenderAndSave(s.w, s.now, tracker.maxAttempts, l, spec));
            Reaches(a, s, tracker) && Reports(a, s.now, over, r, spec, needRepair, last)
  {
    needRepair := false;
    var n := tracker.used;
    r := s.Update(JobState.Rendering, Fields());
    var result := s.Render(n);
    last := RenderError;
    if result.ok && result.hasPath {
      if s.w.save(n) {
        var fields := Fields(mediaKey := Some(Some(s.jobId)), failure := Some(None), history := Some(tracker.history));
        r := s.UpdateOrGet(Ready, fields);
        return true, r, needRepair, last;
      }
      last := StorageFailure;
    } else if result.category.Some? {
      last := result.category.value;
    }
    if last == Policy.Cancelled {
      r := s.Update(JobState.Cancelled, Fields());
      r := s.Get();
      return true, r, needRepair, last;
    }
    over, needRepair := false, tracker.Next(last) == Repair;
    tracker.RecordFailure(last);
  }

  // What an attempt reports: the final record, or how the loop goes on.
  ghost predicate Reports(a: Attempt, now: Moment, over: bool, r: Option<JobRecord>, spec: Name, needRepair: bool,
                          last: FailureCategory)
  {
    && (over <==> a.Over?)
    && if over then r == Some(now.rec)
       else spec == a.head.spec && needRepair == a.head.needRepair && last == a.head.last
  }

  // Validates, renders and saves the spec that an attempt settled on.
  method PerformSpec(s: Session, tracker: AttemptTracker, spec: Name, ghost l: Ledger)
    returns (over: bool, r: Option<JobRecord>, needRepair: bool, last: FailureCategory)
    requires s.Tracks() && Counts(l, s, tracker)
    modifies s`calls, s`now, s`renders, s.store`jobs, tracker`history
    ensures s.Tracks()
    ensures var a := old(TrySpec(s.w, s.now, tracker.maxAttempts, l, spec));
            Reaches(a, s, tracker) && Reports(a, s.now, over, r, spec, needRepair, last)
  {
    var verdict := s.w.validate(spec);
    if verdict.Accepted? {
      over, r, needRepair, last := PerformRender(s, tracker, spec, l);
      return;
    }
    last := RejectionOf(verdict);
    over, r, needRepair := false, None, tracker.Next(last) == Repair;
    tracker.RecordFailure(last);
  }

  // The attempt once it has been entered as VALIDATING.
  method PerformAttempt(s: Session, tracker: AttemptTracker, spec0: Name, needRepair0: bool, last0: FailureCategory,
                 ghost l: Ledger, ghost h: Head)
    returns (over: bool, r: Option<JobRecord>, spec: Name, needRepair: bool, last: FailureCategory)
    requires s.Tracks() && Counts(l, s, tracker)
    requires h.spec == spec0 && h.needRepair == needRepair0 && h.last == last0
    modifies s`calls, s`now, s`renders, s`repairs, s.store`jobs, tracker`history
    ensures s.Tracks()
    ensures var a := old(Proceed(s.w, s.now, tracker.maxAttempts, l, h));
            Reaches(a, s, tracker) && Reports(a, s.now, over, r, spec, needRepair, last)
  {
    spec := spec0;
    ghost var l' := l;
    if needRepair0 {
      r := s.Update(Repairing, Fields());
      var fixed := s.Repair(spec0, last0, tracker.used);
      l' := Asked(s.w, l);
      if fixed.None? {
        over, needRepair, last := false, true, NoRepairCategory(s.w);
        tracker.RecordFailure(last);
        return;
      }
      spec := fixed.value;
      r := s.Update(Validating, Fields());
    }
    over, r, needRepair, last := PerformSpec(s, tracker, spec, l');
  }

  // One turn of the attempt loop: the run is over if the store refuses VALIDATING.
  method RunAttempt(s: Session, tracker: AttemptTracker, spec0: Name, needRepair0: bool, last0: FailureCategory,
                    ghost h: Head)
    returns (over: bool, r: Option<JobRecord>, spec: Name, needRepair: bool, last: FailureCategory)
    requires s.Tracks() && s.now == h.m && Counts(h.l.(used := h.l.used + 1), s, tracker)
    requires h.spec == spec0 && h.needRepair == needRepair0 && h.last == last0
    modifies s`calls, s`now, s`renders, s`repairs, s.store`jobs, tracker`history
    ensures s.Tracks()
    ensures var a := AttemptOf(s.w, tracker.maxAttempts, h);
            Reaches(a, s, tracker) && Reports(a, s.now, over, r, spec, needRepair, last)
  {
    r := s.Update(Validating, Fields(attempt := Some(tracker.used)));
    if r.None? {
      r := s.Get();
      return true, r, spec0, needRepair0, last0;
    }
    over, r, spec, needRepair, last :=
      PerformAttempt(s, tracker, spec0, needRepair0, last0, h.l.(used := tracker.used), h);
  }

  // The attempt loop, up to the final FAILED update. `settled` says that the job is over already.
  method RunAttempts(s: Session)
    returns (settled: bool, r: Option<JobRecord>, last: FailureCategory, history: seq<FailureCategory>, ghost h: Head)
    requires s.Tracks() && s.renders == 0 && s.repairs == 0
    modifies s`calls, s`now, s`renders, s`repairs, s.store`jobs
    ensures s.Tracks()
    ensures var run := old(RunFrom(s.w, s.now.rec.maxAttempts, FirstHead(s.now)));
            if settled then Finished(run, s) && r == Some(s.now.rec)
            else run == GiveUpWith(s.w, h) && h.m == s.now && last == h.last && history == h.l.history
                 && s.renders == h.l.renders && s.repairs == h.l.repairs
  {
    r := Some(s.store.jobs[s.jobId]);
    var tracker := new AttemptTracker(r.value.maxAttempts);
    var spec, needRepair := r.value.spec, false;
    settled, last, h := false, RenderError, FirstHead(s.now);
    ghost var run := RunFrom(s.w, tracker.maxAttempts, h);
    while true
      invariant s.Tracks() && h.m == s.now && Counts(h.l, s, tracker)
      invariant h.spec == spec && h.needRepair == needRepair && h.last == last
      invariant run == RunFrom(s.w, tracker.maxAttempts, h)
      decreases tracker.maxAttempts - tracker.used
    {
      var number := tracker.BeginAttempt();
      if number.None? {
        return false, r, last, tracker.history, h;
      }
      ghost var a := AttemptOf(s.w, tracker.maxAttempts, h);
      var over: bool;
      over, r, spec, needRepair, last := RunAttempt(s, tracker, spec, needRepair, last, h);
      if over {
        return true, r, last, tracker.history, h;
      }
      h := a.head;
      if tracker.Next(last) == GiveUp {
        return false, r, last, tracker.history, h;
      }
    }
  }

  // The session is where the run ends.
  ghost predicate Finished(run: Run, s: Session)
    reads s
  {
    s.now == run.end && s.renders == run.ledger.renders && s.repairs == run.ledger.repairs
  }

  // A claimed and active job.
  method RunClaimed(s: Session) returns (r: Option<JobRecord>)
    requires s.Tracks() && s.renders == 0 && s.repairs == 0
    modifies s`calls, s`now, s`renders, s`repairs, s.store`jobs
    ensures s.Tracks() && r == Some(s.now.rec)
    ensures Finished(old(RunFrom(s.w, s.now.rec.maxAttempts, FirstHead(s.now))), s)
  {
    var settled: bool;
    var last: FailureCategory;
    var history: seq<FailureCategory>;
    ghost var h: Head;
    settled, r, last, history, h := RunAttempts(s);
    if !settled {
      r := s.UpdateOrGet(JobState.Failed, Fields(failure := Some(Some(last)), history := Some(history)));
    }
  }

  /** One run of one job, for every world: the job's record and the calls of renderer and repair are those of
      `RunOf`, and no other job changes. */
  method RunJob(store: MemoryJobStore, jobId: Name, w: World)
    returns (r: Option<JobRecord>, renders: nat, repairs: nat)
    requires jobId in store.jobs ==> store.jobs[jobId].id == jobId
    modifies store`jobs, store`claimed
    ensures store.claimed == old(store.claimed) + {jobId}
    ensures jobId !in old(store.jobs) ==> r == None && store.jobs == old(store.jobs) && renders == repairs == 0
    ensures jobId in old(store.jobs) ==>
              var run := RunOf(w, old(store.jobs)[jobId], jobId in old(store.claimed));
              && r == Some(run.end.rec) && store.jobs == old(store.jobs)[jobId := run.end.rec]
              && renders == run.ledger.renders && repairs == run.ledger.repairs
  {
    if jobId !in store.jobs {
      var _ := store.Claim(jobId);
      return None, 0, 0;
    }
    var s := new Session(store, jobId, w);
    s.Interfere();
    var won := store.Claim(jobId);
    r := s.Get();
    if won && Active(r.value.state) {
      r := RunClaimed(s);
    }
    renders, repairs := s.renders, s.repairs;
  }

  /** One turn of a worker (app/visualization/worker.py): the job that has waited longest is taken from the queue
      and run, and none if no job waits. */
  method WorkNext(store: MemoryJobStore, w: World) returns (r: Option<JobRecord>)
    requires store.queue != [] && store.queue[0] in store.jobs ==> store.jobs[store.queue[0]].id == store.queue[0]
    modifies store`queue, store`jobs, store`claimed
    ensures old(store.queue) == [] ==>
              r == None && store.queue == [] && store.jobs == old(store.jobs) && store.claimed == old(store.claimed)
    ensures old(store.queue) != [] ==>
              var id := old(store.queue)[0];
              && store.queue == old(store.queue)[1..] && store.claimed == old(store.claimed) + {id}
              && if id !in old(store.jobs) then r == None && store.jobs == old(store.jobs)
                 else
                   var run := RunOf(w, old(store.jobs)[id], id in old(store.claimed));
                   r == Some(run.end.rec) && store.jobs == old(store.jobs)[id := run.end.rec]
  {
    var next := store.Dequeue();
    if next.None? {
      return None;
    }
    var renders, repairs;
    r, renders, repairs := RunJob(store, next.value, w);
  }
}
