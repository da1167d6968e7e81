/** Animation jobs and the in-memory job store (app/visualization/jobs.py). */
module Jobs {
  import opened Outcomes
  import opened Policy

  datatype JobState = Pending | Validating | Rendering | Repairing | Ready | Failed | Cancelled | Expired

  predicate Terminal(s: JobState) { s.Ready? || s.Failed? || s.Cancelled? || s.Expired? }
  predicate Active(s: JobState) { s.Pending? || s.Validating? || s.Rendering? || s.Repairing? }

  predicate CanTransition(from: JobState, next: JobState) {
    match from
    case Pending => next.Validating? || next.Failed? || next.Cancelled? || next.Expired?
    case Validating => next.Rendering? || next.Repairing? || next.Failed? || next.Cancelled? || next.Expired?
    case Rendering =>
      next.Ready? || next.Repairing? || next.Validating? || next.Failed? || next.Cancelled? || next.Expired?
    case Repairing => next.Validating? || next.Failed? || next.Cancelled? || next.Expired?
    case Ready => next.Expired?
    case Failed => false
    case Cancelled => false
    case Expired => false
  }

  /** The transitions by where they lead: PENDING is never entered again, FAILED, CANCELLED and EXPIRED are reached
      from every active state, EXPIRED also from READY, and READY only from RENDERING. */
  lemma EntersOnly(from: JobState, next: JobState)
    ensures CanTransition(from, next)
            <==> match next
                 case Pending => false
                 case Validating => from == Pending || from == Rendering || from == Repairing
                 case Rendering => from == Validating
                 case Repairing => from == Validating || from == Rendering
                 case Ready => from == Rendering
                 case Expired => from == Ready || Active(from)
                 case _ => Active(from)
  {
  }

  // `failure` is None where the source stores the empty string.
  datatype JobRecord = JobRecord(
    id: Name, owner: Name, spec: Name, state: JobState, attempt: nat, maxAttempts: nat,
    failure: Option<FailureCategory>, mediaKey: Option<Name>, history: seq<FailureCategory>)

  // The keyword fields of one `update` call.
  datatype Fields = Fields(
    attempt: Option<nat> := None,
    failure: Option<Option<FailureCategory>> := None,
    mediaKey: Option<Option<Name>> := None,
    history: Option<seq<FailureCategory>> := None)

  function WithFields(r: JobRecord, s: JobState, f: Fields): JobRecord {
    r.(state := s,
       attempt := if f.attempt.Some? then f.attempt.value else r.attempt,
       failure := if f.failure.Some? then f.failure.value else r.failure,
       mediaKey := if f.mediaKey.Some? then f.mediaKey.value else r.mediaKey,
       history := if f.history.Some? then f.history.value else r.history)
  }

  // The record an update leaves behind, and whether the update was refused.
  function AfterUpdate(r: JobRecord, s: JobState, f: Fields): JobRecord {
    if CanTransition(r.state, s) then WithFields(r, s, f) else r
  }

  predicate Refused(r: JobRecord, s: JobState) {
    !CanTransition(r.state, s) && !(r.state == s && Terminal(s))
  }

  ghost function ActiveJobs(jobs: map<Name, JobRecord>, owner: Name): set<Name> {
    set id | id in jobs && jobs[id].owner == owner && Active(jobs[id].state)
  }

  // The hits less than an hour old.
  function Recent(hits: seq<real>, now: real): (r: seq<real>)
    ensures |r| <= |hits|
  {
    if hits == [] then []
    else if now - hits[0] < 3600.0 then [hits[0]] + Recent(hits[1..], now)
    else Recent(hits[1..], now)
  }

  function HitsOf(hits: map<Name, seq<real>>, owner: Name): seq<real> {
    if owner in hits then hits[owner] else []
  }

  class MemoryJobStore {
    var jobs: map<Name, JobRecord>
    var queue: seq<Name>
    var claimed: set<Name>
    var hits: map<Name, seq<real>>

    constructor ()
      ensures jobs == map[] && queue == [] && claimed == {} && hits == map[]
    {
      jobs, queue, claimed, hits := map[], [], {}, map[];
    }

    method CreateIfAbsent(record: JobRecord) returns (r: JobRecord, created: bool)
      modifies this`jobs, this`claimed
      ensures created <==> record.id !in old(jobs)
                           || (Terminal(old(jobs)[record.id].state) && !old(jobs)[record.id].state.Ready?)
      ensures created ==> r == record && jobs == old(jobs)[record.id := record] && claimed == old(claimed) - {record.id}
      ensures !created ==> r == old(jobs)[record.id] && jobs == old(jobs) && claimed == old(claimed)
    {
      if record.id in jobs && (jobs[record.id].state == Ready || Active(jobs[record.id].state)) {
        return jobs[record.id], false;
      }
      jobs := jobs[record.id := record];
      claimed := claimed - {record.id};
      r, created := record, true;
    }

    method Get(jobId: Name) returns (r: Option<JobRecord>)
      ensures r == if jobId in jobs then Some(jobs[jobId]) else None
    {
      r := if jobId in jobs then Some(jobs[jobId]) else None;
    }

    method Update(jobId: Name, newState: JobState, fields: Fields) returns (r: Option<JobRecord>)
      modifies this`jobs
      ensures jobId !in old(jobs) ==> r == None && jobs == old(jobs)
      ensures jobId in old(jobs) ==>
                && jobs == old(jobs)[jobId := AfterUpdate(old(jobs)[jobId], newState, fields)]
                && r == if Refused(old(jobs)[jobId], newState) then None else Some(jobs[jobId])
      ensures r.None? <==> jobId !in old(jobs)
                           || (!CanTransition(old(jobs)[jobId].state, newState)
                               && !(old(jobs)[jobId].state == newState && Terminal(newState)))
    {
      if jobId !in jobs {
        return None;
      }
      var rec := jobs[jobId];
      if rec.state == newState && Terminal(newState) {
        return Some(rec);
      }
      if !CanTransition(rec.state, newState) {
        return None;
      }
      jobs := jobs[jobId := WithFields(rec, newState, fields)];
      r := Some(jobs[jobId]);
    }

    method ActiveCount(owner: Name) returns (n: nat)
      ensures n == |ActiveJobs(jobs, owner)|
    {
      n := 0;
      var todo := jobs.Keys;
      ghost var counted: set<Name> := {};
      while todo != {}
        invariant todo <= jobs.Keys
        invariant counted == set id | id in ActiveJobs(jobs, owner) && id !in todo
        invariant n == |counted|
      {
        var id :| id in todo;
        todo := todo - {id};
        if jobs[id].owner == owner && Active(jobs[id].state) {
          n := n + 1;
          counted := counted + {id};
        }
      }
      assert counted == ActiveJobs(jobs, owner);
    }

    method HourlyCount(owner: Name, limit: nat, now: real) returns (within: bool)
      modifies this`hits
      ensures var recent := Recent(HitsOf(old(hits), owner), now);
              && within == (|recent| < limit)
              && hits == old(hits)[owner := if within then recent + [now] else recent]
    {
      var recent := Recent(HitsOf(hits, owner), now);
      if |recent| >= limit {
        hits := hits[owner := recent];
        return false;
      }
      recent := recent + [now];
      hits := hits[owner := recent];
      within := true;
    }

    method Enqueue(jobId: Name)
      modifies this`queue
      ensures queue == old(queue) + [jobId]
    {
      queue := queue + [jobId];
    }

    method Dequeue() returns (r: Option<Name>)
      modifies this`queue
      ensures old(queue) == [] ==> r == None && queue == []
      ensures old(queue) != [] ==> r.Some? && old(queue) == [r.value] + queue
    {
      if queue == [] {
        return None;
      }
      r := Some(queue[0]);
      queue := queue[1..];
    }

    method Claim(jobId: Name) returns (won: bool)
      modifies this`claimed
      ensures won <==> jobId !in old(claimed)
      ensures claimed == old(claimed) + {jobId}
    {
      if jobId in claimed {
        return false;
      }
      claimed := claimed + {jobId};
      won := true;
    }
  }

  // ------------------------------------------------------------------ state paths

  // The states one record goes through within one submission.
  ghost predicate IsPath(trail: seq<JobState>) {
    && |trail| > 0
    && forall i, j :: 0 <= i && j == i + 1 < |trail| ==> trail[j] == trail[i] || CanTransition(trail[i], trail[j])
  }

  lemma PathExtends(trail: seq<JobState>, s: JobState)
    requires IsPath(trail)
    requires s == trail[|trail| - 1] || CanTransition(trail[|trail| - 1], s)
    ensures IsPath(trail + [s])
  {
  }

  /** FAILED, CANCELLED and EXPIRED never change, and READY changes to EXPIRED only. */
  lemma {:induction false} EndIsFinal(trail: seq<JobState>, i: nat, j: nat)
    requires IsPath(trail) && i <= j < |trail| && Terminal(trail[i])
    ensures trail[j] == trail[i] || (trail[i] == Ready && trail[j] == JobState.Expired)
    decreases j
  {
    if i < j {
      EndIsFinal(trail, i, j - 1);
      assert trail[j] == trail[j - 1] || CanTransition(trail[j - 1], trail[j]);
    }
  }
}
