/** Creating and cancelling animation jobs over the in-memory store (app/api/visualizations.py), and the two
    per-owner limits over every run of create, cancel and runner steps. The memory store's coroutines never
    suspend, so each of these requests is one atomic step. */
module JobApi {
  import opened Outcomes
  import opened Policy
  import opened Jobs
  import opened Fates

  datatype Config = Config(enabled: bool, maxActive: nat, perHour: nat, maxAttempts: nat)

  datatype Reply =
    | Unavailable                              // 403
    | Unprocessable(category: FailureCategory) // 422
    | TooManyActive                            // 429
    | HourlyLimit                              // 429
    | NotFound                                 // 404
    | Job(record: JobRecord)                   // 202

  // Maps an owner and a canonical specification to the job id (a hash in the source).
  type IdOf = (Name, Name) -> Name

  ghost predicate Injective(idOf: IdOf) {
    forall o, s, o', s' :: idOf(o, s) == idOf(o', s') ==> o == o' && s == s'
  }

  function NewRecord(cfg: Config, idOf: IdOf, owner: Name, spec: Name): JobRecord {
    JobRecord(idOf(owner, spec), owner, spec, Pending, 0, cfg.maxAttempts, None, None, [])
  }

  predicate Reusable(jobs: map<Name, JobRecord>, id: Name) {
    id in jobs && (jobs[id].state == Ready || Active(jobs[id].state))
  }

  // ------------------------------------------------------------------ the requests as transitions

  datatype System = System(jobs: map<Name, JobRecord>, hits: map<Name, seq<real>>)

  ghost predicate Admits(sys: System, cfg: Config, record: JobRecord, now: real) {
    && !Reusable(sys.jobs, record.id)
    && |ActiveJobs(sys.jobs, record.owner)| < cfg.maxActive
    && |Recent(HitsOf(sys.hits, record.owner), now)| < cfg.perHour
  }

  ghost function AfterCreate(sys: System, cfg: Config, record: JobRecord, now: real): System {
    var recent := Recent(HitsOf(sys.hits, record.owner), now);
    if Reusable(sys.jobs, record.id) || |ActiveJobs(sys.jobs, record.owner)| >= cfg.maxActive then sys
    else if |recent| >= cfg.perHour then sys.(hits := sys.hits[record.owner := recent])
    else System(sys.jobs[record.id := record], sys.hits[record.owner := recent + [now]])
  }

  ghost function AfterCancel(sys: System, owner: Name, id: Name): System {
    if id in sys.jobs && sys.jobs[id].owner == owner && Active(sys.jobs[id].state) then
      var fields := Fields(failure := Some(Some(Policy.Cancelled)));
      sys.(jobs := sys.jobs[id := AfterUpdate(sys.jobs[id], JobState.Cancelled, fields)])
    else sys
  }

  /** A started job is run by this process when the worker is inline, and joins the queue otherwise. */
  method CreateJob(store: MemoryJobStore, cfg: Config, idOf: IdOf, verdict: Verdict, owner: Name, spec: Name, now: real,
                   isInline: bool)
    returns (reply: Reply, start: bool)
    modifies store
    ensures !cfg.enabled ==> reply == Unavailable
    ensures cfg.enabled && verdict.Rejected? ==> reply == Unprocessable(RejectionOf(verdict))
    ensures !cfg.enabled || verdict.Rejected? ==> !start && unchanged(store)
    ensures cfg.enabled && verdict.Accepted? ==>
              var record := NewRecord(cfg, idOf, owner, spec);
              var before := System(old(store.jobs), old(store.hits));
              && System(store.jobs, store.hits) == AfterCreate(before, cfg, record, now)
              && start == Admits(before, cfg, record, now)
              && reply == (if Reusable(before.jobs, record.id) then Job(before.jobs[record.id])
                           else if |ActiveJobs(before.jobs, owner)| >= cfg.maxActive then TooManyActive
                           else if start then Job(record) else HourlyLimit)
              && store.claimed == old(store.claimed) - (if start then {record.id} else {})
              && store.queue == old(store.queue) + (if start && !isInline then [record.id] else [])
    ensures start ==> store.jobs == old(store.jobs)[idOf(owner, spec) :=
                        JobRecord(idOf(owner, spec), owner, spec, Pending, 0, cfg.maxAttempts, None, None, [])]
    ensures !start ==> store.jobs == old(store.jobs)
  {
    if !cfg.enabled {
      return Unavailable, false;
    }
    if verdict.Rejected? {
      return Unprocessable(RejectionOf(verdict)), false;
    }
    var id := idOf(owner, spec);
    var existing := store.Get(id);
    if existing.None? || (existing.value.state != Ready && !Active(existing.value.state)) {
      var active := store.ActiveCount(owner);
      if active >= cfg.maxActive {
        return TooManyActive, false;
      }
      var within := store.HourlyCount(owner, cfg.perHour, now);
      if !within {
        return HourlyLimit, false;
      }
    }
    var record, created := store.CreateIfAbsent(NewRecord(cfg, idOf, owner, spec));
    if created && !isInline {
      store.Enqueue(id);
    }
    reply, start := Job(record), created;
  }

  method CancelJob(store: MemoryJobStore, owner: Name, id: Name) returns (reply: Reply)
    modifies store`jobs
    ensures System(store.jobs, store.hits) == old(AfterCancel(System(store.jobs, store.hits), owner, id))
    ensures reply == if id in store.jobs && store.jobs[id].owner == owner then Job(store.jobs[id]) else NotFound
    ensures id in old(store.jobs) && old(store.jobs)[id].owner == owner && Active(old(store.jobs)[id].state) ==>
              store.jobs == old(store.jobs)[id :=
                old(store.jobs)[id].(state := JobState.Cancelled, failure := Some(Policy.Cancelled))]
    ensures id !in old(store.jobs) || old(store.jobs)[id].owner != owner || !Active(old(store.jobs)[id].state) ==>
              store.jobs == old(store.jobs)
  {
    if id !in store.jobs || store.jobs[id].owner != owner {
      return NotFound;
    }
    var rec := store.jobs[id];
    if Active(rec.state) {
      var r := store.Update(id, JobState.Cancelled, Fields(failure := Some(Some(Policy.Cancelled))));
      rec := if r.Some? then r.value else rec;
    }
    reply := Job(rec);
  }

  /** A cancellation changes one job at most: an active one of the owner who asks, and of that its state and failure. */
  lemma CancelIsOwners(sys: System, owner: Name, id: Name, other: Name)
    requires other in sys.jobs
    ensures var after := AfterCancel(sys, owner, id);
            && other in after.jobs && after.hits == sys.hits
            && after.jobs[other] == if other == id && sys.jobs[id].owner == owner && Active(sys.jobs[id].state)
                                    then sys.jobs[id].(state := JobState.Cancelled, failure := Some(Policy.Cancelled))
                                    else sys.jobs[other]
  {
  }

  // ------------------------------------------------------------------ runs

  datatype Request =
    | Create(record: JobRecord)
    | Cancel(owner: Name, id: Name)
    | RunnerUpdate(id: Name, state: JobState, fields: Fields)

  datatype Event = Event(request: Request, now: real)

  ghost function After(sys: System, cfg: Config, ev: Event): System {
    match ev.request
    case Create(record) => AfterCreate(sys, cfg, record, ev.now)
    case Cancel(owner, id) => AfterCancel(sys, owner, id)
    case RunnerUpdate(id, state, fields) =>
      if id in sys.jobs then sys.(jobs := sys.jobs[id := AfterUpdate(sys.jobs[id], state, fields)]) else sys
  }

  ghost function StateAt(cfg: Config, events: seq<Event>, n: nat): System
    requires n <= |events|
  {
    if n == 0 then System(map[], map[]) else After(StateAt(cfg, events, n - 1), cfg, events[n - 1])
  }

  // New jobs are PENDING, as `JobRecord` defaults them; the clock never goes back.
  ghost predicate IsHistory(events: seq<Event>) {
    && (forall i, j :: 0 <= i <= j < |events| ==> events[i].now <= events[j].now)
    && forall ev :: ev in events && ev.request.Create? ==> ev.request.record.state == Pending
  }

  lemma UpdateActivatesNothing(jobs: map<Name, JobRecord>, id: Name, s: JobState, f: Fields, owner: Name)
    requires id in jobs
    ensures |ActiveJobs(jobs[id := AfterUpdate(jobs[id], s, f)], owner)| <= |ActiveJobs(jobs, owner)|
  {
    SubsetSmaller(ActiveJobs(jobs[id := AfterUpdate(jobs[id], s, f)], owner), ActiveJobs(jobs, owner));
  }

  lemma CreateActivatesOne(jobs: map<Name, JobRecord>, record: JobRecord, owner: Name)
    requires !Reusable(jobs, record.id)
    ensures |ActiveJobs(jobs[record.id := record], owner)|
            <= |ActiveJobs(jobs, owner)| + if owner == record.owner then 1 else 0
  {
    var extra: set<Name> := if owner == record.owner then {record.id} else {};
    SubsetSmaller(ActiveJobs(jobs[record.id := record], owner), ActiveJobs(jobs, owner) + extra);
  }

  /** The active limit, over every run: no owner ever has more than `maxActive` jobs in progress. */
  lemma {:induction false} ActiveLimit(cfg: Config, events: seq<Event>, n: nat, owner: Name)
    requires n <= |events|
    ensures |ActiveJobs(StateAt(cfg, events, n).jobs, owner)| <= cfg.maxActive
  {
    if n == 0 {
      assert ActiveJobs(map[], owner) == {};
    } else {
      ActiveLimit(cfg, events, n - 1, owner);
      var sys := StateAt(cfg, events, n - 1);
      match events[n - 1].request
      case Create(record) =>
        if Admits(sys, cfg, record, events[n - 1].now) {
          CreateActivatesOne(sys.jobs, record, owner);
        }
      case Cancel(_, id) =>
        if id in sys.jobs {
          var fields := Fields(failure := Some(Some(Policy.Cancelled)));
          UpdateActivatesNothing(sys.jobs, id, JobState.Cancelled, fields, owner);
        }
      case RunnerUpdate(id, s, fields) =>
        if id in sys.jobs {
          UpdateActivatesNothing(sys.jobs, id, s, fields, owner);
        }
    }
  }

  // ------------------------------------------------------------------ the hourly limit

  ghost predicate Starts(cfg: Config, events: seq<Event>, i: nat, owner: Name)
    requires i < |events|
  {
    && events[i].request.Create? && events[i].request.record.owner == owner
    && Admits(StateAt(cfg, events, i), cfg, events[i].request.record, events[i].now)
  }

  // The times at which the first n events started a new job of the owner.
  ghost function StartTimes(cfg: Config, events: seq<Event>, n: nat, owner: Name): seq<real>
    requires n <= |events|
  {
    if n == 0 then []
    else StartTimes(cfg, events, n - 1, owner) + if Starts(cfg, events, n - 1, owner) then [events[n - 1].now] else []
  }

  ghost function CountAfter(times: seq<real>, t: real): nat {
    if times == [] then 0
    else CountAfter(times[..|times| - 1], t) + if times[|times| - 1] > t then 1 else 0
  }

  lemma CountAppended(times: seq<real>, x: real, t: real)
    ensures CountAfter(times + [x], t) == CountAfter(times, t) + if x > t then 1 else 0
  {
    assert (times + [x])[..|times|] == times;
  }

  lemma {:induction false} CountPrepended(x: real, times: seq<real>, t: real)
    ensures CountAfter([x] + times, t) == CountAfter(times, t) + if x > t then 1 else 0
  {
    if times == [] {
      assert [x] + times == [] + [x];
      CountAppended([], x, t);
    } else {
      var front := times[..|times| - 1];
      CountPrepended(x, front, t);
      assert [x] + times == ([x] + front) + [times[|times| - 1]];
      CountAppended([x] + front, times[|times| - 1], t);
    }
  }

  // Pruning the hits older than an hour loses none that a later window could count.
  lemma {:induction false} PruningIsInvisible(hits: seq<real>, now: real, t: real)
    requires now - 3600.0 <= t
    ensures CountAfter(Recent(hits, now), t) == CountAfter(hits, t)
  {
    if hits != [] {
      assert hits == [hits[0]] + hits[1..];
      PruningIsInvisible(hits[1..], now, t);
      CountPrepended(hits[0], hits[1..], t);
      CountPrepended(hits[0], Recent(hits[1..], now), t);
    }
  }

  lemma {:induction false} RecentIsCount(hits: seq<real>, now: real)
    ensures |Recent(hits, now)| == CountAfter(hits, now - 3600.0)
  {
    if hits != [] {
      assert hits == [hits[0]] + hits[1..];
      RecentIsCount(hits[1..], now);
      CountPrepended(hits[0], hits[1..], now - 3600.0);
    }
  }

  lemma HitsAfter(sys: System, cfg: Config, ev: Event, owner: Name)
    ensures var hits, hits' := HitsOf(sys.hits, owner), HitsOf(After(sys, cfg, ev).hits, owner);
            if ev.request.Create? && ev.request.record.owner == owner && Admits(sys, cfg, ev.request.record, ev.now)
            then hits' == Recent(hits, ev.now) + [ev.now]
            else hits' == hits || hits' == Recent(hits, ev.now)
  {
  }

  // The stored hits agree with the true start times on every window that can still matter.
  lemma {:induction false} HitsAreStarts(cfg: Config, events: seq<Event>, n: nat, owner: Name, t: real)
    requires IsHistory(events) && n <= |events|
    requires n > 0 ==> events[n - 1].now - 3600.0 <= t
    ensures CountAfter(HitsOf(StateAt(cfg, events, n).hits, owner), t)
            == CountAfter(StartTimes(cfg, events, n, owner), t)
  {
    if n > 0 {
      var ev, sys := events[n - 1], StateAt(cfg, events, n - 1);
      assert n > 1 ==> events[n - 2].now <= ev.now;
      HitsAreStarts(cfg, events, n - 1, owner, t);
      HitsAfter(sys, cfg, ev, owner);
      PruningIsInvisible(HitsOf(sys.hits, owner), ev.now, t);
      if Starts(cfg, events, n - 1, owner) {
        CountAppended(Recent(HitsOf(sys.hits, owner), ev.now), ev.now, t);
        CountAppended(StartTimes(cfg, events, n - 1, owner), ev.now, t);
      } else {
        assert StartTimes(cfg, events, n, owner) == StartTimes(cfg, events, n - 1, owner);
      }
    }
  }

  /** When a request starts a new job: if there is no ready or active job for the specification, fewer than `maxActive`
      jobs of the owner are in progress, and fewer than `perHour` of them started in the last 3600 seconds, however the
      stored hits were pruned. */
  lemma HourlyIsExact(cfg: Config, events: seq<Event>, i: nat, owner: Name)
    requires IsHistory(events) && i < |events|
    requires events[i].request.Create? && events[i].request.record.owner == owner
    ensures var jobs, id := StateAt(cfg, events, i).jobs, events[i].request.record.id;
            Starts(cfg, events, i, owner)
            <==> && !(id in jobs && (jobs[id].state == Ready || Active(jobs[id].state)))
                 && |ActiveJobs(jobs, owner)| < cfg.maxActive
                 && CountAfter(StartTimes(cfg, events, i, owner), events[i].now - 3600.0) < cfg.perHour
  {
    assert i > 0 ==> events[i - 1].now <= events[i].now;
    HitsAreStarts(cfg, events, i, owner, events[i].now - 3600.0);
    RecentIsCount(HitsOf(StateAt(cfg, events, i).hits, owner), events[i].now);
  }

  // How many of the first n events start a job of the owner in the window [lo, lo + 3600).
  ghost function StartsInWindow(cfg: Config, events: seq<Event>, n: nat, owner: Name, lo: real): nat
    requires n <= |events|
  {
    if n == 0 then 0
    else StartsInWindow(cfg, events, n - 1, owner, lo)
         + if Starts(cfg, events, n - 1, owner) && lo <= events[n - 1].now < lo + 3600.0 then 1 else 0
  }

  lemma {:induction false} WindowIsRecent(cfg: Config, events: seq<Event>, n: nat, owner: Name, lo: real, t: real)
    requires n <= |events| && t < lo
    ensures StartsInWindow(cfg, events, n, owner, lo) <= CountAfter(StartTimes(cfg, events, n, owner), t)
  {
    if n > 0 {
      WindowIsRecent(cfg, events, n - 1, owner, lo, t);
      CountAppended(StartTimes(cfg, events, n - 1, owner), events[n - 1].now, t);
      assert StartTimes(cfg, events, n - 1, owner) + [] == StartTimes(cfg, events, n - 1, owner);
    }
  }

  /** The hourly limit, over every run: in every window of 3600 seconds an owner starts at most `perHour` new
      jobs. */
  lemma {:induction false} HourlyLimitHolds(cfg: Config, events: seq<Event>, n: nat, owner: Name, lo: real)
    requires IsHistory(events) && n <= |events|
    ensures StartsInWindow(cfg, events, n, owner, lo) <= cfg.perHour
  {
    if n > 0 {
      HourlyLimitHolds(cfg, events, n - 1, owner, lo);
      var now := events[n - 1].now;
      if Starts(cfg, events, n - 1, owner) && lo <= now < lo + 3600.0 {
        HourlyIsExact(cfg, events, n - 1, owner);
        WindowIsRecent(cfg, events, n - 1, owner, lo, now - 3600.0);
      }
    }
  }

  // ------------------------------------------------------------------ tenancy

  ghost predicate Scoped(jobs: map<Name, JobRecord>, idOf: IdOf) {
    forall id :: id in jobs ==> jobs[id].id == id && id == idOf(jobs[id].owner, jobs[id].spec)
  }

  lemma StepStaysScoped(cfg: Config, sys: System, ev: Event, idOf: IdOf)
    requires Scoped(sys.jobs, idOf)
    requires ev.request.Create? ==> var r := ev.request.record; r == NewRecord(cfg, idOf, r.owner, r.spec)
    ensures Scoped(After(sys, cfg, ev).jobs, idOf)
  {
  }

  /** With an injective id function, a resubmitted animation is answered with the same owner's job for the same
      specification: reuse never crosses tenants. */
  lemma {:induction false} ReuseStaysWithOwner(cfg: Config, events: seq<Event>, n: nat, idOf: IdOf, owner: Name,
                                               spec: Name)
    requires n <= |events| && Injective(idOf)
    requires forall ev :: ev in events && ev.request.Create? ==>
               var r := ev.request.record; r == NewRecord(cfg, idOf, r.owner, r.spec)
    ensures Scoped(StateAt(cfg, events, n).jobs, idOf)
    ensures var jobs := StateAt(cfg, events, n).jobs;
            idOf(owner, spec) in jobs ==> jobs[idOf(owner, spec)].owner == owner && jobs[idOf(owner, spec)].spec == spec
  {
    if n > 0 {
      ReuseStaysWithOwner(cfg, events, n - 1, idOf, owner, spec);
      assert events[n - 1] in events;
      StepStaysScoped(cfg, StateAt(cfg, events, n - 1), events[n - 1], idOf);
    }
  }
}
