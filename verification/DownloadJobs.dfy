/**
  The music download-job queue: find-or-create for interactive plays, and claiming by
  compare-and-set.  Each transaction is one step, except that a claim reads and writes in
  two steps between which other transactions may commit.
 */
module DownloadJobs {
  import opened Prelude

  type JobId = nat

  datatype Kind = Song | OtherKind

  datatype Status = Queued | Running | Finished

  datatype Job = Job(user: string, kind: Kind, source: string, origin: string,
                     status: Status, priority: int, created: int)

  type Table = map<JobId, Job>

  /** Waiting or running jobs for the song this user asked for. */
  predicate Active(t: Table, user: string, source: string, id: JobId) {
    id in t && t[id].kind == Song && t[id].user == user && t[id].source == source && t[id].status != Finished
  }

  /** That is: a song of that source, asked for by that user, queued or being downloaded. */
  lemma ActiveWhen(t: Table, user: string, source: string, id: JobId)
    ensures Active(t, user, source, id) <==>
              && id in t && t[id].user == user && t[id].kind == Song && t[id].source == source
              && (t[id].status == Queued || t[id].status == Running)
  {
  }

  /** Running first, then priority DESC, created_at ASC; ties in either order. */
  predicate Preferred(a: Job, b: Job) {
    if a.status != b.status then a.status == Running
    else a.priority > b.priority || (a.priority == b.priority && a.created <= b.created)
  }

  /** A row that "order by ... limit 1" may return for this user's song. */
  predicate BestActive(t: Table, user: string, source: string, id: JobId) {
    Active(t, user, source, id) &&
    forall other :: other in t && Active(t, user, source, other) ==> Preferred(t[id], t[other])
  }

  /** The answer of such a query: some best row, or none when there is none to return. */
  predicate Selects(t: Table, user: string, source: string, answer: Option<JobId>) {
    if answer.Some? then BestActive(t, user, source, answer.value)
    else forall id :: id in t ==> !Active(t, user, source, id)
  }

  /** The UPDATE of promoteActivePlayTx: only a waiting job gains priority. */
  function Promoted(t: Table, picked: Option<JobId>, priority: int): Table {
    if picked.Some? && picked.value in t && t[picked.value].status == Queued
    then t[picked.value := t[picked.value].(priority := Max(t[picked.value].priority, priority))]
    else t
  }

  /** Steps; `picked` is the row the UPDATE chose, `answer` the row the SELECT returned. */
  datatype Event =
    | FindOrCreate(job: Job, id: JobId, picked: Option<JobId>, answer: Option<JobId>)
    | Promote(user: string, source: string, priority: int, picked: Option<JobId>, answer: Option<JobId>)
    | Claim(id: JobId)
    | Complete(id: JobId)
    | RequeueRunning

  /** What the database lets a step do. */
  predicate Enabled(t: Table, e: Event) {
    match e
    case FindOrCreate(job, id, picked, answer) =>
      && id !in t && job.kind == Song && job.status == Queued
      && Selects(t, job.user, job.source, picked)
      && Selects(Promoted(t, picked, job.priority), job.user, job.source, answer)
    case Promote(user, source, priority, picked, answer) =>
      Selects(t, user, source, picked) && Selects(Promoted(t, picked, priority), user, source, answer)
    case Claim(_) => true
    case Complete(id) => id in t && t[id].status == Running
    case RequeueRunning => true
  }

  /** Whether a claim's guarded UPDATE changes a row, which is what hands the job out. */
  predicate ClaimSucceeds(t: Table, id: JobId) {
    id in t && t[id].status == Queued
  }

  function Apply(t: Table, e: Event): Table {
    match e
    case FindOrCreate(job, id, picked, answer) =>
      var t' := Promoted(t, picked, job.priority);
      if answer.Some? then t' else t'[id := job]
    case Promote(_, _, priority, picked, _) => Promoted(t, picked, priority)
    case Claim(id) => if ClaimSucceeds(t, id) then t[id := t[id].(status := Running)] else t
    case Complete(id) => if id in t then t[id := t[id].(status := Finished)] else t
    case RequeueRunning => map id | id in t :: if t[id].status == Running then t[id].(status := Queued) else t[id]
  }

  type Trace = seq<Event>

  function At(start: Table, trace: Trace, i: nat): Table
    requires i <= |trace|
  {
    if i == 0 then start else Apply(At(start, trace, i - 1), trace[i - 1])
  }

  predicate EnabledAt(start: Table, trace: Trace, i: nat)
    requires i < |trace|
  {
    Enabled(At(start, trace, i), trace[i])
  }

  predicate Possible(start: Table, trace: Trace) {
    forall i :: 0 <= i < |trace| ==> EnabledAt(start, trace, i)
  }

  // ---------------------------------------------------------------- one active job per song

  ghost predicate AtMostOneActive(t: Table) {
    forall a, b, user, source :: Active(t, user, source, a) && Active(t, user, source, b) ==> a == b
  }

  /** Promotion and requeueing change neither whose jobs are active nor which. */
  ghost predicate SameActive(t: Table, t': Table) {
    forall id, user, source :: Active(t', user, source, id) <==> Active(t, user, source, id)
  }

  lemma PromotedSameActive(t: Table, picked: Option<JobId>, priority: int)
    ensures SameActive(t, Promoted(t, picked, priority))
  {
  }

  lemma CreatedIsOnly(t: Table, job: Job, id: JobId)
    requires AtMostOneActive(t) && id !in t && forall other :: other in t ==> !Active(t, job.user, job.source, other)
    ensures AtMostOneActive(t[id := job])
  {
    var t' := t[id := job];
    forall other, user, source | other != id ensures Active(t', user, source, other) <==> Active(t, user, source, other) {
    }
  }

  lemma StepKeepsOneActive(t: Table, e: Event)
    requires AtMostOneActive(t) && Enabled(t, e)
    ensures AtMostOneActive(Apply(t, e))
  {
    match e
    case FindOrCreate(job, id, picked, answer) =>
      PromotedSameActive(t, picked, job.priority);
      if answer.None? {
        CreatedIsOnly(Promoted(t, picked, job.priority), job, id);
      }
    case Promote(_, _, priority, picked, _) =>
      PromotedSameActive(t, picked, priority);
    case _ =>
      assert forall id, user, source :: Active(Apply(t, e), user, source, id) ==> Active(t, user, source, id);
  }

  /** In every interleaving, a user never has two waiting or running jobs for one song. */
  lemma {:induction false} OneActiveAlways(start: Table, trace: Trace, i: nat)
    requires AtMostOneActive(start) && Possible(start, trace) && i <= |trace|
    ensures AtMostOneActive(At(start, trace, i))
  {
    if i > 0 {
      OneActiveAlways(start, trace, i - 1);
      assert EnabledAt(start, trace, i - 1);
      StepKeepsOneActive(At(start, trace, i - 1), trace[i - 1]);
    }
  }

  /** A finished job no longer stands in the way of another for its song. */
  lemma CompletedIsInactive(t: Table, id: JobId, user: string, source: string)
    requires Enabled(t, Complete(id))
    ensures var t' := Apply(t, Complete(id));
            && t' == t[id := t'[id]] && t'[id] == t[id].(status := t'[id].status) && !Active(t', user, source, id)
  {
  }

  // ---------------------------------------------------------------- the job returned is the job promoted

  /**
    With one active job per song, the row promoted is the row returned: a running job comes
    back untouched, a waiting one with at least the requested priority.
   */
  lemma ReturnsWhatItPromoted(t: Table, user: string, source: string, priority: int,
                              picked: Option<JobId>, answer: Option<JobId>)
    requires AtMostOneActive(t) && Selects(t, user, source, picked)
    requires Selects(Promoted(t, picked, priority), user, source, answer)
    ensures picked == answer
    ensures answer.Some? ==>
              var id := answer.value;
              && Active(t, user, source, id)
              && (t[id].status == Running ==> Promoted(t, picked, priority) == t)
              && (t[id].status == Queued ==> Promoted(t, picked, priority)[id].priority >= priority)
  {
    PromotedSameActive(t, picked, priority);
    if picked.Some? && answer.Some? {
      assert Active(t, user, source, picked.value) && Active(t, user, source, answer.value);
    }
  }

  /** The answer is the one active job of that song, created only when there was none. */
  lemma FindOrCreateAnswersActive(t: Table, e: Event)
    requires AtMostOneActive(t) && e.FindOrCreate? && Enabled(t, e)
    ensures var id := if e.answer.Some? then e.answer.value else e.id;
            Active(Apply(t, e), e.job.user, e.job.source, id)
    ensures e.answer.None? <==> forall id :: id in t ==> !Active(t, e.job.user, e.job.source, id)
  {
    ReturnsWhatItPromoted(t, e.job.user, e.job.source, e.job.priority, e.picked, e.answer);
    PromotedSameActive(t, e.picked, e.job.priority);
  }

  // ---------------------------------------------------------------- one worker per job

  /** A running job stays running until it is completed or everything running is requeued. */
  lemma StaysRunning(t: Table, e: Event, id: JobId)
    requires Enabled(t, e) && id in t && t[id].status != Queued && !e.RequeueRunning?
    ensures id in Apply(t, e) && Apply(t, e)[id].status != Queued
  {
  }

  /** While nothing is requeued, a claimed job does not wait again. */
  lemma {:induction false} StillTaken(start: Table, trace: Trace, i: nat, k: nat, id: JobId)
    requires Possible(start, trace) && i < k <= |trace|
    requires trace[i] == Claim(id) && ClaimSucceeds(At(start, trace, i), id)
    requires forall m :: i < m < k ==> trace[m] != RequeueRunning
    ensures id in At(start, trace, k) && At(start, trace, k)[id].status != Queued
  {
    if k > i + 1 {
      StillTaken(start, trace, i, k - 1, id);
      assert EnabledAt(start, trace, k - 1);
      StaysRunning(At(start, trace, k - 1), trace[k - 1], id);
    }
  }

  /** No job is handed to two workers unless running jobs were requeued in between. */
  lemma ClaimedOnce(start: Table, trace: Trace, i: nat, j: nat, id: JobId)
    requires Possible(start, trace) && i < j < |trace|
    requires trace[i] == Claim(id) && ClaimSucceeds(At(start, trace, i), id)
    requires trace[j] == Claim(id) && ClaimSucceeds(At(start, trace, j), id)
    ensures exists k :: i < k < j && trace[k] == RequeueRunning
  {
    if forall k :: i < k < j ==> trace[k] != RequeueRunning {
      StillTaken(start, trace, i, j, id);
    }
  }

  // ---------------------------------------------------------------- the repository

  /** Job id waits and may be taken for these origins. */
  predicate Waits(t: Table, origins: set<string>, id: JobId) {
    id in t && t[id].status == Queued && (origins == {} || t[id].origin in origins)
  }

  predicate NextUp(t: Table, origins: set<string>, id: JobId) {
    Waits(t, origins, id) &&
    forall other :: other in t && Waits(t, origins, other) ==> Preferred(t[id], t[other])
  }

  class JobRepository {
    var jobs: Table

    constructor ()
      ensures jobs == map[] && AtMostOneActive(jobs)
    {
      jobs := map[];
    }

    method SelectActive(user: string, source: string) returns (answer: Option<JobId>)
      ensures Selects(jobs, user, source, answer)
    {
      answer := None;
      var todo := jobs.Keys;
      while todo != {}
        invariant todo <= jobs.Keys
        invariant answer.Some? ==> answer.value !in todo && Active(jobs, user, source, answer.value)
        invariant forall id :: id in jobs && id !in todo && Active(jobs, user, source, id) ==>
                    answer.Some? && Preferred(jobs[answer.value], jobs[id])
        decreases todo
      {
        var id :| id in todo;
        if Active(jobs, user, source, id) && (answer.None? || !Preferred(jobs[answer.value], jobs[id])) {
          answer := Some(id);
        }
        todo := todo - {id};
      }
    }

    /** promoteActivePlayTx: write first, then read back. */
    method PromoteActive(user: string, source: string, priority: int) returns (answer: Option<JobId>)
      requires AtMostOneActive(jobs)
      modifies this
      ensures AtMostOneActive(jobs) && Selects(old(jobs), user, source, answer)
      ensures Apply(old(jobs), Promote(user, source, priority, answer, answer)) == jobs
      ensures Selects(jobs, user, source, answer)
      ensures if answer.Some? then Active(old(jobs), user, source, answer.value)
              else forall id :: id in old(jobs) ==> !Active(old(jobs), user, source, id)
      ensures answer.None? || old(jobs)[answer.value].status == Running ==> jobs == old(jobs)
      ensures answer.Some? && old(jobs)[answer.value].status == Queued ==>
                var was := old(jobs)[answer.value];
                jobs == old(jobs)[answer.value := was.(priority := if was.priority < priority then priority else was.priority)]
    {
      var picked := SelectActive(user, source);
      if picked.Some? && jobs[picked.value].status == Queued {
        jobs := jobs[picked.value := jobs[picked.value].(priority := Max(jobs[picked.value].priority, priority))];
      }
      answer := SelectActive(user, source);
      ReturnsWhatItPromoted(old(jobs), user, source, priority, picked, answer);
      StepKeepsOneActive(old(jobs), Promote(user, source, priority, picked, answer));
    }

    /** FindOrCreatePlay: the active job of this user's song, made if there is none. */
    method FindOrCreatePlay(job: Job, newId: JobId) returns (id: JobId, created: bool)
      requires AtMostOneActive(jobs) && newId !in jobs && job.kind == Song && job.status == Queued
      modifies this
      ensures AtMostOneActive(jobs) && Active(jobs, job.user, job.source, id)
      ensures created <==> forall other :: other in old(jobs) ==> !Active(old(jobs), job.user, job.source, other)
      ensures created ==> id == newId && jobs == old(jobs)[newId := job]
      ensures !created ==> id in old(jobs)
      ensures !created ==>
                var was := old(jobs)[id];
                if was.status == Running then jobs == old(jobs)
                else jobs == old(jobs)[id := was.(priority := if was.priority < job.priority then job.priority else was.priority)]
    {
      var answer := PromoteActive(job.user, job.source, job.priority);
      created := answer.None?;
      if created {
        assert Enabled(old(jobs), FindOrCreate(job, newId, answer, answer));
        StepKeepsOneActive(old(jobs), FindOrCreate(job, newId, answer, answer));
        jobs := jobs[newId := job];
        id := newId;
      } else {
        id := answer.value;
      }
    }

    method SelectNext(origins: set<string>) returns (answer: Option<JobId>)
      ensures answer.Some? ==> NextUp(jobs, origins, answer.value)
      ensures answer.None? ==> forall id :: id in jobs ==> !Waits(jobs, origins, id)
    {
      answer := None;
      var todo := jobs.Keys;
      while todo != {}
        invariant todo <= jobs.Keys
        invariant answer.Some? ==> answer.value !in todo && Waits(jobs, origins, answer.value)
        invariant forall id :: id in jobs && id !in todo && Waits(jobs, origins, id) ==>
                    answer.Some? && Preferred(jobs[answer.value], jobs[id])
        decreases todo
      {
        var id :| id in todo;
        if Waits(jobs, origins, id) && (answer.None? || !Preferred(jobs[answer.value], jobs[id])) {
          answer := Some(id);
        }
        todo := todo - {id};
      }
    }

    /** Steps of other connections that commit between a claim's read and its write. */
    method Interfere(others: seq<Event>)
      modifies this
      ensures jobs == At(old(jobs), others, |others|)
    {
      for i := 0 to |others|
        invariant jobs == At(old(jobs), others, i)
      {
        jobs := Apply(jobs, others[i]);
      }
    }

    /**
      ClaimNext: pick the next waiting job, then take it only if it is still waiting.  A worker
      is given a job exactly when its own guarded update moved that job to running.
     */
    method ClaimNext(origins: set<string>, others: seq<Event>) returns (claimed: Option<JobId>, ghost picked: Option<JobId>)
      modifies this
      ensures var between := At(old(jobs), others, |others|);
              && (claimed.Some? <==> picked.Some? && picked.value in between && between[picked.value].status == Queued)
              && (claimed.Some? ==>
                    && claimed == picked && Enabled(between, Claim(claimed.value))
                    && jobs == Apply(between, Claim(claimed.value))
                    && jobs == between[claimed.value := between[claimed.value].(status := Running)])
              && (claimed.None? ==> jobs == between)
      ensures picked.Some? ==> Waits(old(jobs), origins, picked.value)
      ensures picked.Some? ==>
                forall id :: Waits(old(jobs), origins, id) ==>
                  old(jobs)[picked.value].priority > old(jobs)[id].priority ||
                  (old(jobs)[picked.value].priority == old(jobs)[id].priority &&
                   old(jobs)[picked.value].created <= old(jobs)[id].created)
      ensures picked.None? <==>
                forall id :: id in old(jobs) && old(jobs)[id].status == Queued ==>
                  origins != {} && old(jobs)[id].origin !in origins
    {
      var job := SelectNext(origins);
      picked := job;
      Interfere(others);
      if job.None? || job.value !in jobs || jobs[job.value].status != Queued {
        return None, picked;
      }
      jobs := jobs[job.value := jobs[job.value].(status := Running)];
      claimed := job;
    }

    /** RequeueRunning: exactly the running jobs wait again. */
    method Requeue()
      modifies this
      ensures Enabled(old(jobs), RequeueRunning)
      ensures jobs == Apply(old(jobs), RequeueRunning) && jobs.Keys == old(jobs).Keys
      ensures forall id :: id in jobs ==>
                jobs[id] == if old(jobs)[id].status == Running then old(jobs)[id].(status := Queued) else old(jobs)[id]
    {
      var result := jobs;
      var todo := jobs.Keys;
      while todo != {}
        invariant todo <= jobs.Keys && result.Keys == jobs.Keys && jobs == old(jobs)
        invariant forall id :: id in jobs ==>
                    result[id] == if id !in todo && jobs[id].status == Running then jobs[id].(status := Queued) else jobs[id]
        decreases todo
      {
        var id :| id in todo;
        if jobs[id].status == Running {
          result := result[id := jobs[id].(status := Queued)];
        }
        todo := todo - {id};
      }
      jobs := result;
    }
  }
}
