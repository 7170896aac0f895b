/**
 * The engine around the pipeline: starting jobs, resuming them after the process ended, and any
 * number of process lives in a row (engine/src/lib.rs).
 */
module Recovery {
  import opened Domain
  import opened Jobs
  import opened Artifacts
  import opened Events
  import opened Databases
  import opened Orchestration

  const MAX_JOB_ATTEMPTS: nat := 3

  /** Work handed to the runtime: the pipeline for new input, or once more for a stored meeting. */
  datatype Task = Fresh(input: Input) | Again(meeting: MeetingId)

  function TaskPath(task: Task): Path {
    if task.Fresh? then PathOf(task.input) else Earlier
  }

  /** A background embedding pass, before and after it has its job. */
  datatype Pass = Spawned | Under(job: JobId)

  // ----- What recovery does to one job -----

  /** `found`: the transcript of the job's meeting was looked up and is there. */
  predicate Resumes(j: Job, found: bool) {
    j.kind != Embedding && j.attempts < MAX_JOB_ATTEMPTS && found
  }

  function Recovered(j: Job, found: bool): Job {
    if j.kind == Embedding then
      j.(status := JobStatus.Failed, error := Some("interrupted; will re-embed on next search"))
    else if Resumes(j, found) then
      j.(attempts := j.attempts + 1, status := Queued, kind := Reprocess)
    else
      j.(status := JobStatus.Failed,
        error := Some(if found then "exceeded retry budget" else "cannot resume: no stored transcript"))
  }

  /** A resumed job: queued again, to process its meeting once more, and one attempt older. */
  function AgainQueued(j: Job): Job {
    Job(j.id, JobKind.Reprocess, Queued, j.stage, j.meeting, j.error, j.attempts + 1)
  }

  /** A job that is not resumed: failed, and why; otherwise as it was. */
  function GivenUp(j: Job, stored: bool): Job {
    var why := if j.kind == Embedding then "interrupted; will re-embed on next search"
               else if stored then "exceeded retry budget" else "cannot resume: no stored transcript";
    Job(j.id, j.kind, JobStatus.Failed, j.stage, j.meeting, Some(why), j.attempts)
  }

  lemma RecoveredTells(j: Job, found: bool)
    ensures Resumes(j, found) <==> (j.kind == JobKind.Process || j.kind == JobKind.Reprocess) && j.attempts < 3 && found
    ensures Recovered(j, found) == if Resumes(j, found) then AgainQueued(j) else GivenUp(j, found)
  {
  }

  /** Job rows, registry and spawned tasks at one moment. */
  datatype Desk = Desk(rows: JobTable, inner: JobTable, tasks: map<JobId, Task>)

  ghost predicate RowAfter(before: Job, after: Job, found: bool, done: bool, reliable: bool) {
    after == (if done then Recovered(before, found) else before) || (!reliable && after == before)
  }

  /**
   * A recovery pass over the rows `before` has dealt with the jobs `done`: exactly the resumed ones
   * are registered and have a task, every dealt-with row is written (unless its write failed), and
   * no other row is touched.
   */
  ghost predicate Passed(before: JobTable, desk: Desk, found: set<JobId>, done: set<JobId>, reliable: bool) {
    && desk.rows.Keys == before.Keys && done <= before.Keys
    && (forall j | j in done :: !Terminal(before[j].status))
    && (forall j | j in before :: RowAfter(before[j], desk.rows[j], j in found, j in done, reliable))
    && TasksRight(before, desk, found, done)
  }

  ghost predicate TasksRight(before: JobTable, desk: Desk, found: set<JobId>, done: set<JobId>)
    requires done <= before.Keys
  {
    && (forall j :: j in desk.tasks <==> (j in done && Resumes(before[j], j in found)))
    && desk.inner.Keys == desk.tasks.Keys
    && (forall j | j in desk.tasks ::
          && desk.inner[j] == Recovered(before[j], true)
          && before[j].meeting.Some? && desk.tasks[j] == Again(before[j].meeting.value))
  }

  function Unfinished(rows: JobTable): set<JobId> {
    set j | j in rows && !Terminal(rows[j].status)
  }

  /** The job can be resumed: it has a meeting whose transcript is stored. */
  predicate IsStored(job: Job, s: Store) {
    job.kind != Embedding && job.meeting.Some? && job.meeting.value in s.transcripts
  }

  /** The jobs found resumable have a meeting whose transcript is stored. */
  ghost predicate Stored(before: JobTable, found: set<JobId>, s: Store) {
    forall j | j in found :: j in before && before[j].meeting.Some? && before[j].meeting.value in s.transcripts
  }

  /**
   * The jobs found resumable are those that can be resumed, but for transcripts that others have
   * stored since the job was looked at.
   */
  ghost predicate ExactlyFound(before: JobTable, found: set<JobId>, done: set<JobId>, s: Store, theirs: set<MeetingId>) {
    forall j | j in done ::
      && j in before && (j in found ==> IsStored(before[j], s))
      && (IsStored(before[j], s) && before[j].meeting.value !in theirs ==> j in found)
  }

  /** The job was left queued or running when the process ended. */
  predicate LeftUnfinished(j: Job) {
    j.status == Queued || j.status == Running
  }

  /** The job processes a meeting, has been resumed fewer than three times, and its source is stored. */
  predicate MayGoOn(j: Job, s: Store) {
    && (j.kind == JobKind.Process || j.kind == JobKind.Reprocess) && j.attempts < 3
    && j.meeting.Some? && j.meeting.value in s.transcripts
  }

  /**
   * What becomes of a row: one that was left unfinished and may go on is queued again and has a task for its meeting,
   * any other unfinished one is given up, and what was finished stays.
   */
  ghost predicate RowRecovered(j: Job, desk: Desk, s: Store) {
    && j.id in desk.rows
    && (!LeftUnfinished(j) ==> desk.rows[j.id] == j && j.id !in desk.tasks)
    && (LeftUnfinished(j) && MayGoOn(j, s) ==>
          && desk.rows[j.id] == AgainQueued(j)
          && j.id in desk.tasks && desk.tasks[j.id] == Again(j.meeting.value)
          && j.id in desk.inner && desk.inner[j.id] == AgainQueued(j))
    && (LeftUnfinished(j) && !MayGoOn(j, s) ==>
          && desk.rows[j.id] == GivenUp(j, j.meeting.Some? && j.meeting.value in s.transcripts)
          && j.id !in desk.tasks && j.id !in desk.inner)
  }

  /** When everything was listed and every lookup was right, each row gets what it is due. */
  lemma RowsAreRecovered(before: JobTable, desk: Desk, found: set<JobId>, s: Store)
    requires Keyed(before) && Passed(before, desk, found, Unfinished(before), true)
    requires ExactlyFound(before, found, Unfinished(before), s, {})
    ensures desk.rows.Keys == before.Keys && desk.tasks.Keys <= before.Keys
    ensures forall j | j in before :: RowRecovered(before[j], desk, s)
  {
    hide Recovered, Resumes;
    forall j | j in before ensures RowRecovered(before[j], desk, s) {
      assert RowAfter(before[j], desk.rows[j], j in found, j in Unfinished(before), true);
      RecoveredTells(before[j], j in found);
      RecoveredTells(before[j], true);
    }
  }

  lemma FoundOne(before: JobTable, found: set<JobId>, done: set<JobId>, s: Store, a: Log, t: Store, b: Log, job: Job,
                 now: bool, exact: bool)
    requires Attributed(s, a) && Attributed(t, b) && Keeps(s, t) && SameOwn(a, b) && a.theirs <= b.theirs
    requires job.id in before && before[job.id] == job && job.id !in done && found <= done
    requires exact ==> ExactlyFound(before, found, done, s, a.theirs) && (now <==> IsStored(job, t))
    ensures exact ==> ExactlyFound(before, if now then found + {job.id} else found, done + {job.id}, t, b.theirs)
  {
    forall m | m !in b.theirs ensures m in t.transcripts <==> m in s.transcripts {
      assert SameAbout(s, a.own, m) && SameAbout(t, b.own, m);
    }
  }

  lemma NothingFound(before: JobTable, s: Store)
    ensures Stored(before, {}, s) && ExactlyFound(before, {}, {}, s, {})
  {
  }

  lemma StoredMore(before: JobTable, found: set<JobId>, s: Store, t: Store, job: Job, now: bool)
    requires Stored(before, found, s) && Keeps(s, t) && job.id in before && before[job.id] == job
    requires now ==> job.meeting.Some? && job.meeting.value in t.transcripts
    ensures Stored(before, if now then found + {job.id} else found, t) && Stored(before, found, t)
  {
  }

  ghost predicate DealtWith(list: seq<Job>, i: nat, done: set<JobId>)
    requires i <= |list|
  {
    done == set k | 0 <= k < i :: list[k].id
  }

  lemma NoneDealtWith(list: seq<Job>)
    ensures DealtWith(list, 0, {})
  {
  }

  lemma ListedAt(before: JobTable, list: seq<Job>, i: nat, done: set<JobId>)
    requires i < |list| && Listed(before, list) && DealtWith(list, i, done)
    ensures list[i].id in before && before[list[i].id] == list[i] && !Terminal(list[i].status) && list[i].id !in done
    ensures DealtWith(list, i + 1, done + {list[i].id})
  {
  }

  lemma ListedAll(before: JobTable, list: seq<Job>, done: set<JobId>)
    requires Listed(before, list) && DealtWith(list, |list|, done)
    ensures done == Unfinished(before)
  {
  }

  lemma NothingPassed(rows: JobTable, reliable: bool)
    ensures Passed(rows, Desk(rows, map[], map[]), {}, {}, reliable)
  {
  }

  /** The change one job's recovery makes. */
  ghost predicate JobPassed(job: Job, a: Desk, b: Desk, found: bool, reliable: bool) {
    && OnlyJob(a.rows, b.rows, job.id) && job.id in b.rows
    && RowAfter(job, b.rows[job.id], found, true, reliable)
    && (if Resumes(job, found) then
          && job.meeting.Some?
          && b.inner == a.inner[job.id := Recovered(job, true)]
          && b.tasks == a.tasks[job.id := Again(job.meeting.value)]
        else b.inner == a.inner && b.tasks == a.tasks)
  }

  lemma PassStep(before: JobTable, a: Desk, b: Desk, found: set<JobId>, done: set<JobId>, job: Job, now: bool,
                 reliable: bool)
    requires Passed(before, a, found, done, reliable) && found <= done
    requires job.id in before && before[job.id] == job && job.id !in done && !Terminal(job.status)
    requires JobPassed(job, a, b, now, reliable)
    ensures Passed(before, b, if now then found + {job.id} else found, done + {job.id}, reliable)
    ensures |b.tasks| == |a.tasks| + (if Resumes(job, now) then 1 else 0)
  {
    hide Recovered, Resumes, RowAfter, OnlyJob, TasksRight;
    RowsStep(before, a.rows, b.rows, found, done, job, now, reliable);
    TasksStep(before, a, b, found, done, job, now);
  }

  lemma TasksStep(before: JobTable, a: Desk, b: Desk, found: set<JobId>, done: set<JobId>, job: Job, now: bool)
    requires done <= before.Keys && TasksRight(before, a, found, done) && found <= done
    requires job.id in before && before[job.id] == job && job.id !in done
    requires if Resumes(job, now)
             then job.meeting.Some? && b.inner == a.inner[job.id := Recovered(job, true)]
                  && b.tasks == a.tasks[job.id := Again(job.meeting.value)]
             else b.inner == a.inner && b.tasks == a.tasks
    ensures TasksRight(before, b, if now then found + {job.id} else found, done + {job.id})
    ensures |b.tasks| == |a.tasks| + (if Resumes(job, now) then 1 else 0)
  {
  }

  lemma Overwritten(a: JobTable, b: JobTable, job: Job)
    requires b == a || b == a[job.id := job]
    ensures OnlyJob(a, b, job.id)
  {
  }

  lemma RowsStep(before: JobTable, a: JobTable, b: JobTable, found: set<JobId>, done: set<JobId>, job: Job, now: bool,
                 reliable: bool)
    requires a.Keys == before.Keys && done <= before.Keys && found <= done && job.id in before && before[job.id] == job
              && job.id !in done
    requires forall j | j in before :: RowAfter(before[j], a[j], j in found, j in done, reliable)
    requires OnlyJob(a, b, job.id) && job.id in b && RowAfter(job, b[job.id], now, true, reliable)
    ensures b.Keys == before.Keys
    ensures var more := if now then found + {job.id} else found;
      forall j | j in before :: RowAfter(before[j], b[j], j in more, j in done + {job.id}, reliable)
  {
    hide RowAfter;
    assert forall j | j in before && j != job.id :: b[j] == a[j];
  }

  // ----- What holds over runs and lives -----

  /** Rows stay, and what is finished stays as it is. */
  ghost predicate NeverRevived(a: JobTable, b: JobTable) {
    forall j | j in a :: j in b && (Terminal(a[j].status) ==> b[j] == a[j])
  }

  /** No job's attempts change, and new jobs have none. */
  ghost predicate SameAttempts(a: JobTable, b: JobTable) {
    (forall j | j in a :: j in b) && (forall j | j in b :: b[j].attempts == if j in a then a[j].attempts else 0)
  }

  lemma NeverRevivedTransitive(a: JobTable, b: JobTable, c: JobTable)
    requires NeverRevived(a, b) && NeverRevived(b, c)
    ensures NeverRevived(a, c)
  {
  }

  /**
   * While the engine serves, with `cut` the jobs whose run the end of the process cuts off: tasks
   * are for queued registered jobs; every registered job is finished or somebody's; every row of
   * the durable table is finished or registered; embedding passes do not overlap.
   */
  ghost predicate Serving(d: Desk, cut: set<JobId>, embedding: bool, passes: seq<Pass>, reliable: bool) {
    && (forall j | j in d.tasks ::
          && j in d.inner && d.inner[j].status == Queued && d.inner[j].kind != Embedding
          && (d.tasks[j].Fresh? ==> d.inner[j].meeting == None))
    && (forall j | j in d.inner && !Terminal(d.inner[j].status) :: j in d.tasks || j in cut || passes == [Under(j)])
    && (forall j | j in d.inner && d.inner[j].kind == Embedding && !Terminal(d.inner[j].status) :: passes == [Under(j)])
    && (reliable ==> forall j | j in d.rows && !Terminal(d.rows[j].status) :: j in d.inner)
    && |passes| == (if embedding then 1 else 0)
    && (forall j | passes == [Under(j)] :: j in d.inner && d.inner[j].kind == Embedding && !Terminal(d.inner[j].status))
  }

  /**
   * What recovery leaves behind, whatever the previous life was doing: every unfinished row is a
   * queued reprocessing job within its budget, registered, with its task spawned; everything that
   * was finished is as it was; nothing disappeared.
   */
  lemma NoOrphansAfterRecovery(before: JobTable, desk: Desk, found: set<JobId>)
    requires Passed(before, desk, found, Unfinished(before), true)
    ensures forall j | j in desk.rows && !Terminal(desk.rows[j].status) ::
              && desk.rows[j].status == Queued && desk.rows[j].kind == Reprocess
              && before[j].attempts < desk.rows[j].attempts <= MAX_JOB_ATTEMPTS
              && j in desk.inner && desk.inner[j] == desk.rows[j]
              && j in desk.tasks && desk.rows[j].meeting.Some? && desk.tasks[j] == Again(desk.rows[j].meeting.value)
              && j in found
    ensures NeverRevived(before, desk.rows)
    ensures forall j | j in desk.tasks :: j in desk.rows && !Terminal(desk.rows[j].status)
    ensures Serving(desk, {}, false, [], true)
  {
  }

  /** Once no task is left and nothing was cut off, every job there ever was is finished. */
  lemma QuietMeansFinished(d: Desk, embedding: bool, passes: seq<Pass>)
    requires Serving(d, {}, embedding, passes, true) && d.tasks == map[] && passes == []
    requires forall j | j in d.inner :: j in d.rows && d.rows[j] == d.inner[j]
    ensures forall j | j in d.rows :: Terminal(d.rows[j].status)
  {
  }

  // ----- Resumptions over many lives -----

  /** In how many of these recovery passes the job was resumed. */
  function Times(passes: seq<set<JobId>>, j: JobId): nat {
    if passes == [] then 0 else Times(passes[..|passes| - 1], j) + (if j in passes[|passes| - 1] then 1 else 0)
  }

  /** These passes. */
  function PassesWith(passes: seq<set<JobId>>, j: JobId): set<nat> {
    set k: nat | k < |passes| && j in passes[k]
  }

  lemma {:induction false} TimesCounts(passes: seq<set<JobId>>, j: JobId)
    ensures Times(passes, j) == |PassesWith(passes, j)|
  {
    if passes == [] {
      assert PassesWith(passes, j) == {};
    } else {
      var n := |passes| - 1;
      TimesCounts(passes[..n], j);
      assert PassesWith(passes, j) == PassesWith(passes[..n], j) + if j in passes[n] then {n} else {};
    }
  }

  lemma AtMostThree(rows: JobTable, passes: seq<set<JobId>>)
    requires Budgeted(rows, passes)
    ensures forall j :: |PassesWith(passes, j)| <= 3
    ensures forall j | j in rows :: rows[j].attempts == |PassesWith(passes, j)|
  {
    forall j ensures |PassesWith(passes, j)| == Times(passes, j) <= 3 {
      TimesCounts(passes, j);
    }
  }

  /** Attempts count resumptions, and there are at most three of them. */
  ghost predicate Budgeted(rows: JobTable, passes: seq<set<JobId>>) {
    && (forall j | j in rows :: rows[j].attempts == Times(passes, j) <= MAX_JOB_ATTEMPTS)
    && (forall j | j !in rows :: Times(passes, j) == 0)
  }

  lemma PassKeepsBudget(before: JobTable, desk: Desk, found: set<JobId>, done: set<JobId>, passes: seq<set<JobId>>)
    requires Budgeted(before, passes) && Passed(before, desk, found, done, true)
    ensures Budgeted(desk.rows, passes + [desk.tasks.Keys]) && NeverRevived(before, desk.rows)
  {
  }

  // ----- Interrupted captures -----

  function Interrupted(s: Store): set<MeetingId> {
    set m | m in s.statuses && s.statuses[m] == Processing
  }

  /** Interrupted captures became retryable, and nothing else changed. */
  ghost predicate Surfaced(a: Store, b: Store, count: nat) {
    && b == a.(statuses := b.statuses) && b.statuses.Keys == a.statuses.Keys
    && (forall m | m in a.statuses ::
          b.statuses[m] == a.statuses[m] || (a.statuses[m] == Processing && b.statuses[m] == Deferred))
    && |Interrupted(a)| == |Interrupted(b)| + count
  }

  lemma SurfacedOne(a: Store, b: Store, m: MeetingId, count: nat)
    requires Surfaced(a, b, count) && m in b.statuses && b.statuses[m] == Processing
    ensures Surfaced(a, b.(statuses := b.statuses[m := Deferred]), count + 1)
  {
    var c := b.(statuses := b.statuses[m := Deferred]);
    assert Interrupted(b) == Interrupted(c) + {m};
    assert c.statuses.Keys == a.statuses.Keys;
    assert a.statuses[m] == Processing;
  }

  class Engine {
    const rules: Rules
    const ai: Analyzer
    const db: Database
    const jobs: JobRegistry
    var tasks: map<JobId, Task>
    var embedding: bool
    var passes: seq<Pass>
    ghost var cut: set<JobId>

    /** A new process: the durable tables as they are, and nothing else. */
    constructor (ai: Analyzer, db: Database, store: JobStore, nextId: JobId)
      requires db.Valid() && ai.cs == db.rules.cs
      requires Keyed(store.rows) && store.Ordered() && forall j | j in store.rows :: j < nextId
      ensures fresh(jobs) && jobs.store == store && this.db == db && this.ai == ai && this.rules == db.rules
      ensures Valid() && Booted()
    {
      this.rules, this.ai, this.db := db.rules, ai, db;
      this.jobs := new JobRegistry(store, nextId);
      tasks, embedding, passes, cut := map[], false, [], {};
    }

    ghost predicate Valid()
      reads db, jobs`inner, jobs`nextId, jobs`cancelled, jobs.store
    {
      db.Valid() && db.rules == rules && ai.cs == rules.cs && jobs.Valid()
    }

    ghost function Now(): Desk
      reads this`tasks, jobs`inner, jobs.store
    {
      Desk(jobs.store.rows, jobs.inner, tasks)
    }

    ghost predicate Booted()
      reads this, jobs`inner
    {
      jobs.inner == map[] && tasks == map[] && cut == {} && !embedding && passes == []
    }

    ghost predicate Serves()
      reads this, jobs`inner, jobs.store
    {
      Serving(Now(), cut, embedding, passes, jobs.store.reliable)
    }

    // ----- Startup -----

    /**
     * Marks what was being processed as retryable; what it returns is how many it marked, and whether
     * the process is still there.
     */
    method RecoverInterrupted() returns (recovered: nat, alive: bool)
      requires Valid()
      modifies db`data, db`log
      ensures db.steady ==> alive && Interrupted(db.data) == {}
      ensures db.steady ==>
                && recovered == |Interrupted(old(db.data))| && db.data.statuses.Keys == old(db.data).statuses.Keys
                && forall m | m in db.data.statuses ::
                     db.data.statuses[m] ==
                       if old(db.data).statuses[m] == Processing then Deferred else old(db.data).statuses[m]
      ensures Valid() && Keeps(old(db.data), db.data) && Surfaced(old(db.data), db.data, recovered)
    {
      hide Sound, Attributed, Keeps, Proceeds, Surfaced;
      recovered, alive := 0, true;
      SurfacedNone(db.data);
      var listed: bool := *;
      if !listed && !db.steady {
        return;
      }
      var left := db.data.statuses;
      while left.Keys != {}
        invariant Valid() && Keeps(old(db.data), db.data) && Surfaced(old(db.data), db.data, recovered)
        invariant forall m | m in left :: m in db.data.statuses && left[m] == db.data.statuses[m]
        invariant alive && (db.steady ==> Interrupted(db.data) <= left.Keys)
        decreases left.Keys
      {
        var ends: bool := *;
        if ends && !db.steady {
          return recovered, false;
        }
        var m :| m in left;
        var saved: bool := *;
        if left[m] == Processing && (saved || db.steady) {
          SurfacedOne(old(db.data), db.data, m, recovered);
          WritingStatus(rules, db.data, db.minted, m, Deferred);
          KeepsTransitive(old(db.data), db.data, db.data.(statuses := db.data.statuses[m := Deferred]));
          ProceedsItself(db.data, db.log);
          db.Commit(db.data, db.log, StatusWrite(m, Deferred));
          recovered := recovered + 1;
        }
        left := left - {m};
      }
      AllSurfaced(old(db.data), db.data, recovered);
    }

    lemma AllSurfaced(a: Store, b: Store, count: nat)
      requires Surfaced(a, b, count)
      ensures Interrupted(b) == {} ==> count == |Interrupted(a)| && b.statuses.Keys == a.statuses.Keys
      ensures Interrupted(b) == {} ==> forall m | m in b.statuses ::
                b.statuses[m] == if a.statuses[m] == Processing then Deferred else a.statuses[m]
    {
      if Interrupted(b) == {} {
        forall m | m in b.statuses ensures b.statuses[m] != Processing {
          assert m !in Interrupted(b);
        }
      }
    }

    lemma ProceedsItself(s: Store, log: Log)
      ensures Proceeds(s, log, s, log)
    {
    }

    lemma SurfacedNone(s: Store)
      ensures Surfaced(s, s, 0) && Keeps(s, s)
    {
    }

    /** Writes a row that is not resumed as failed; best effort. */
    method CloseRow(job: Job, found: bool)
      requires Valid() && job.id in jobs.store.rows && jobs.store.rows[job.id] == job && job.id !in jobs.inner
      requires !Resumes(job, found)
      modifies jobs.store
      ensures Valid() && JobPassed(job, old(Now()), Now(), found, jobs.store.reliable)
    {
      hide Sound, Attributed, OnlyJob;
      var _ := jobs.store.Upsert(Recovered(job, found));
      Overwritten(old(jobs.store.rows), jobs.store.rows, Recovered(job, found));
    }

    /** Deals with one unfinished row; dead if the process ends while the transcript is looked up. */
    method RecoverJob(job: Job) returns (alive: bool, resumed: bool, ghost found: bool)
      requires Valid() && job.id in jobs.store.rows && jobs.store.rows[job.id] == job && job.id !in jobs.inner
      modifies db`data, db`minted, db`log, this`tasks, jobs`inner, jobs`cancelled, jobs.store
      ensures Valid() && Keeps(old(db.data), db.data)
      ensures found ==> job.meeting.Some? && job.meeting.value in db.data.transcripts
      ensures db.steady ==> alive && (found <==> IsStored(job, db.data))
      ensures SameOwn(old(db.log), db.log) && old(db.log.theirs) <= db.log.theirs
      ensures db.alone ==> db.log.theirs == old(db.log.theirs)
      ensures !alive ==> Now() == old(Now())
      ensures alive ==> JobPassed(job, old(Now()), Now(), found, jobs.store.reliable) && resumed == Resumes(job, found)
      ensures alive ==> (resumed <==> (job.kind == JobKind.Process || job.kind == JobKind.Reprocess) && job.attempts < 3 && found)
      ensures resumed ==> job.meeting.Some? && tasks == old(tasks)[job.id := Again(job.meeting.value)]
      ensures resumed ==> jobs.inner == old(jobs.inner)[job.id := AgainQueued(job)]
      ensures !resumed ==> tasks == old(tasks) && jobs.inner == old(jobs.inner)
      ensures alive && jobs.store.reliable ==>
                job.id in jobs.store.rows
                && jobs.store.rows[job.id] == if resumed then AgainQueued(job) else GivenUp(job, found)
    {
      hide Sound, Attributed, Keeps, OnlyJob;
      RecoveredTells(job, false);
      KeepsItself(db.data);
      alive, resumed, found := true, false, false;
      if job.kind == Embedding {
        CloseRow(job, false);
        return;
      }
      var resumable := false;
      if job.meeting.Some? {
        var transcript := db.GetTranscript(job.meeting.value);
        if transcript == Err(Crash) {
          return false, false, false;
        }
        resumable := transcript.Ok? && transcript.value.Some?;
      }
      found := resumable;
      RecoveredTells(job, found);
      if job.attempts >= MAX_JOB_ATTEMPTS || !resumable {
        CloseRow(job, resumable);
        return;
      }
      jobs.Reinsert(Recovered(job, true));
      Overwritten(old(jobs.store.rows), jobs.store.rows, Recovered(job, true));
      tasks := tasks[job.id := Again(job.meeting.value)];
      resumed := true;
    }

    lemma KeepsItself(s: Store)
      ensures Keeps(s, s)
    {
    }

    /** One step of the pass, in terms of the whole pass. */
    method RecoverNext(job: Job, ghost before: JobTable, ghost found0: set<JobId>, ghost done0: set<JobId>)
      returns (alive: bool, resumed: bool, ghost found: set<JobId>, ghost done: set<JobId>)
      requires Valid() && Passed(before, Now(), found0, done0, jobs.store.reliable)
      requires found0 <= done0 && Stored(before, found0, db.data)
      requires db.steady ==> ExactlyFound(before, found0, done0, db.data, db.log.theirs)
      requires job.id in before && before[job.id] == job && job.id !in done0 && !Terminal(job.status)
      modifies db`data, db`minted, db`log, this`tasks, jobs`inner, jobs`cancelled, jobs.store
      ensures Valid() && Keeps(old(db.data), db.data) && Passed(before, Now(), found, done, jobs.store.reliable)
      ensures found <= done && Stored(before, found, db.data)
      ensures db.steady ==> ExactlyFound(before, found, done, db.data, db.log.theirs)
      ensures db.alone ==> db.log.theirs == old(db.log.theirs)
      ensures db.steady ==> alive
      ensures alive ==> done == done0 + {job.id} && |tasks| == |old(tasks)| + (if resumed then 1 else 0)
      ensures !alive ==> done == done0 && tasks == old(tasks)
    {
      hide Sound, Attributed, Passed, JobPassed, Keeps, Resumes, Recovered, Stored, IsStored, ExactlyFound, SameOwn;
      Untouched(before, Now(), found0, done0, job, jobs.store.reliable);
      found, done := found0, done0;
      ghost var now;
      alive, resumed, now := RecoverJob(job);
      StoredMore(before, found0, old(db.data), db.data, job, now);
      if !alive {
        return;
      }
      FoundOne(before, found0, done0, old(db.data), old(db.log), db.data, db.log, job, now, db.steady);
      PassStep(before, old(Now()), Now(), found0, done0, job, now, jobs.store.reliable);
      found, done := if now then found0 + {job.id} else found0, done0 + {job.id};
    }

    /**
     * The pass over all unfinished rows. If it is not cut off and the rows could be listed, it
     * deals with every one of them.
     */
    method RecoverJobs() returns (requeued: nat, alive: bool, ghost found: set<JobId>, ghost done: set<JobId>)
      requires Valid() && Booted()
      modifies db`data, db`minted, db`log, this`tasks, jobs`inner, jobs`cancelled, jobs.store
      ensures Valid() && Keeps(old(db.data), db.data)
      ensures Passed(old(jobs.store.rows), Now(), found, done, jobs.store.reliable)
      ensures requeued == |tasks|
      ensures Stored(old(jobs.store.rows), found, db.data)
      ensures db.steady ==> ExactlyFound(old(jobs.store.rows), found, done, db.data, db.log.theirs)
      ensures db.steady && db.alone ==> ExactlyFound(old(jobs.store.rows), found, done, db.data, {})
      ensures db.steady && jobs.store.reliable ==> alive
      ensures alive && jobs.store.reliable ==> done == Unfinished(old(jobs.store.rows))
      ensures db.steady && db.alone && jobs.store.reliable ==>
                && jobs.store.rows.Keys == old(jobs.store.rows).Keys && tasks.Keys <= old(jobs.store.rows).Keys
                && forall j | j in old(jobs.store.rows) :: RowRecovered(old(jobs.store.rows)[j], Now(), db.data)
    {
      hide Sound, Attributed, Passed, Keeps, Listed, Stored, ExactlyFound, Unfinished, RowRecovered;
      requeued, alive, found, done := 0, true, {}, {};
      ghost var before := jobs.store.rows;
      db.Attend();
      KeepsItself(db.data);
      NothingPassed(before, jobs.store.reliable);
      NothingFound(before, db.data);
      var unfinished := jobs.store.ListUnfinished();
      if unfinished.Some? {
        requeued, alive, found, done := RecoverAll(unfinished.value, before);
        if db.steady && db.alone && jobs.store.reliable { RowsAreRecovered(before, Now(), found, db.data); }
      }
    }

    /** One listed row after the other; the process may end between any two of them. */
    method RecoverAll(list: seq<Job>, ghost before: JobTable)
      returns (requeued: nat, alive: bool, ghost found: set<JobId>, ghost done: set<JobId>)
      requires Valid() && Listed(before, list) && tasks == map[] && db.log.theirs == {}
      requires Passed(before, Now(), {}, {}, jobs.store.reliable)
      modifies db`data, db`minted, db`log, this`tasks, jobs`inner, jobs`cancelled, jobs.store
      ensures Valid() && Keeps(old(db.data), db.data)
      ensures Passed(before, Now(), found, done, jobs.store.reliable) && requeued == |tasks|
      ensures Stored(before, found, db.data)
      ensures db.steady ==> alive && ExactlyFound(before, found, done, db.data, db.log.theirs)
      ensures db.alone ==> db.log.theirs == {}
      ensures alive ==> done == Unfinished(before)
    {
      hide Sound, Attributed, Passed, Keeps, Listed, DealtWith, Stored, ExactlyFound, Unfinished;
      hide JobRegistry.Valid, Database.Valid;
      requeued, alive, found, done := 0, true, {}, {};
      KeepsItself(db.data);
      NothingFound(before, db.data);
      NoneDealtWith(list);
      var i := 0;
      while i < |list|
        invariant 0 <= i <= |list| && alive
        invariant Valid() && Keeps(old(db.data), db.data)
        invariant Passed(before, Now(), found, done, jobs.store.reliable)
        invariant requeued == |tasks| && found <= done && DealtWith(list, i, done)
        invariant Stored(before, found, db.data)
        invariant db.steady ==> ExactlyFound(before, found, done, db.data, db.log.theirs)
        invariant db.alone ==> db.log.theirs == {}
      {
        var ends: bool := *;
        if ends && !db.steady {
          alive := false;
          return;
        }
        var job := list[i];
        ListedAt(before, list, i, done);
        ghost var kept := db.data;
        var resumed;
        alive, resumed, found, done := RecoverNext(job, before, found, done);
        KeepsTransitive(old(db.data), kept, db.data);
        if !alive {
          return;
        }
        requeued := requeued + (if resumed then 1 else 0);
        i := i + 1;
      }
      ListedAll(before, list, done);
    }

    lemma Untouched(before: JobTable, desk: Desk, found: set<JobId>, done: set<JobId>, job: Job, reliable: bool)
      requires Passed(before, desk, found, done, reliable) && job.id in before && before[job.id] == job && job.id !in done
      ensures job.id in desk.rows && desk.rows[job.id] == job && job.id !in desk.inner
    {
      assert RowAfter(before[job.id], desk.rows[job.id], job.id in found, false, reliable);
    }

    // ----- Serving -----

    /** `start_processing`: a new job and its task. */
    method StartProcessing(input: Input) returns (id: JobId)
      requires Valid() && Serves()
      modifies this`tasks, jobs`inner, jobs`nextId, jobs.store
      ensures Valid() && Serves() && Lived(old(Now()), Now(), jobs.store.reliable)
      ensures id !in old(jobs.inner) && tasks == old(tasks)[id := Fresh(input)]
    {
      hide Sound, Attributed, Serving, Lived;
      id := jobs.Create(JobKind.Process);
      tasks := tasks[id := Fresh(input)];
      CreatedServes(old(Now()), Now(), id, cut, embedding, passes, passes, jobs.store.reliable);
    }

    /** `start_reprocessing`: the meeting id is the client's and may be unknown. */
    method StartReprocessing(meeting: MeetingId) returns (id: JobId)
      requires Valid() && Serves()
      modifies this`tasks, jobs`inner, jobs`nextId, jobs.store
      ensures Valid() && Serves() && Lived(old(Now()), Now(), jobs.store.reliable)
      ensures id !in old(jobs.inner) && tasks == old(tasks)[id := Again(meeting)]
    {
      hide Sound, Attributed, Serving, Lived;
      id := jobs.Create(JobKind.Reprocess);
      tasks := tasks[id := Again(meeting)];
      CreatedServes(old(Now()), Now(), id, cut, embedding, passes, passes, jobs.store.reliable);
    }

    /** A spawned task runs, among others, to its terminal outcome or to the end of the process. */
    method RunTask(job: JobId) returns (r: Result<MeetingId, PipelineError>, ghost steps: seq<Step>, ghost n: nat)
      requires Valid() && Serves() && job in tasks
      modifies this`tasks, this`cut, db`data, db`minted, db`log, jobs`inner, jobs`cancelled, jobs.store
      ensures Valid() && Serves() && Lived(old(Now()), Now(), jobs.store.reliable) && Keeps(old(db.data), db.data)
      ensures Told([], steps, TaskPath(old(tasks)[job]), n, r)
      ensures tasks == old(tasks) - {job} && cut == old(cut) + (if r == Err(Crash) then {job} else {})
      ensures r != Err(Crash) ==> job in jobs.inner && Terminal(jobs.inner[job].status)
    {
      hide Sound, Attributed, Serving, Lived, Told, Keeps, OnlyJob, SameIdentity;
      TaskIsQueued(Now(), job, cut, embedding, passes, jobs.store.reliable);
      r, steps, n := RunPipeline(job, tasks[job]);
      tasks := tasks - {job};
      cut := cut + (if r == Err(Crash) then {job} else {});
      RunServes(job, old(Now()), Now(), old(cut), cut, embedding, passes, jobs.store.reliable);
    }

    method RunPipeline(job: JobId, task: Task)

      returns (r: Result<MeetingId, PipelineError>, ghost steps: seq<Step>, ghost n: nat)
      requires Valid() && job in jobs.inner && (task.Fresh? ==> jobs.inner[job].meeting == None)
      modifies db`data, db`minted, db`log, jobs`inner, jobs`cancelled, jobs.store
      ensures Valid() && Keeps(old(db.data), db.data)
      ensures OnlyJob(old(jobs.inner), jobs.inner, job) && OnlyJob(old(jobs.store.rows), jobs.store.rows, job)
      ensures job in jobs.inner && SameIdentity(old(jobs.inner)[job], jobs.inner[job])
      ensures Told([], steps, TaskPath(task), n, r)
      ensures r != Err(Crash) ==> Terminal(jobs.inner[job].status)
    {
      hide Sound, Attributed, Told, Keeps, Proceeds, OnlyAmongOthers, SourceStored, Enriching, StatusIs;
      hide AllStored, Refreshed, OnlyMeeting, InStep, KeptIdentity, OnlyJob, SameIdentity, Ended;
      db.Attend();
      var sink := new EventSink();
      var orchestrator := new Orchestrator(rules, ai, db, jobs, sink, false);
      ghost var s0 := orchestrator.Now();
      if task.Fresh? {
        r, n := orchestrator.Process(job, task.input);
      } else {
        r, n := orchestrator.Reprocess(job, task.meeting);
      }
      RunIsKept(job, s0, orchestrator.Now());
      OutcomeIsTerminal(jobs.inner[job], r);
      steps := sink.steps;
    }

    /** A search asks for an embedding pass; one that is still going on makes it a no-op. */
    method MaybeSpawnEmbedding(enabled: bool)
      requires Valid() && Serves()
      modifies this`embedding, this`passes
      ensures Serves() && Now() == old(Now())
      ensures passes == if enabled && !old(embedding) then old(passes) + [Spawned] else old(passes)
    {
      if !enabled || embedding {
        return;
      }
      hide Serving;
      SpawnedServes(Now(), cut, passes, jobs.store.reliable);
      embedding := true;
      passes := passes + [Spawned];
    }

    /** The spawned pass looks for work and gets itself a job if there is any. */
    method BeginPass(pending: nat)
      requires Valid() && Serves() && passes == [Spawned]
      modifies this`embedding, this`passes, jobs`inner, jobs`nextId, jobs.store
      ensures Valid() && Serves() && Lived(old(Now()), Now(), jobs.store.reliable)
      ensures pending == 0 ==> passes == [] && Now() == old(Now())
      ensures pending > 0 ==> |passes| == 1 && passes[0].Under? && passes[0].job !in old(jobs.inner)
      ensures pending > 0 ==>
                passes[0].job in jobs.inner
                && jobs.inner[passes[0].job] == Job(passes[0].job, Embedding, Running, Created, None, None, 0)
    {
      hide Sound, Attributed, Serving, Lived;
      NothingLived(Now(), cut, embedding, passes, jobs.store.reliable);
      if pending == 0 {
        embedding, passes := false, [];
        return;
      }
      ghost var a, before := Now(), passes;
      var id := jobs.Create(Embedding);
      passes := [Under(id)];
      CreatedServes(a, Now(), id, cut, embedding, before, passes, jobs.store.reliable);
      ghost var b := Now();
      PassHasJob(b, id, cut, embedding, passes, jobs.store.reliable);
      jobs.Update(id, (j: Job) => j.(status := Running));
      EmbeddingServes(b, Now(), id, cut, true, passes, jobs.store.reliable);
      LivedTransitive(a, b, Now(), jobs.store.reliable);
    }

    /** The pass is over: its job is closed and the next search may start another. */
    method EndPass(ok: bool)
      requires Valid() && Serves() && |passes| == 1 && passes[0].Under?
      modifies this`embedding, this`passes, jobs`inner, jobs.store
      ensures Valid() && Serves() && Lived(old(Now()), Now(), jobs.store.reliable)
      ensures !embedding && passes == []
      ensures old(passes)[0].job in jobs.inner && Terminal(jobs.inner[old(passes)[0].job].status)
      ensures jobs.inner[old(passes)[0].job].status == if ok then Completed else JobStatus.Failed
      ensures ok ==> jobs.inner[old(passes)[0].job].stage == Done
    {
      hide Sound, Attributed, Serving, Lived;
      var id := passes[0].job;
      PassHasJob(Now(), id, cut, embedding, passes, jobs.store.reliable);
      jobs.Update(id, (j: Job) => if ok then j.(status := Completed, stage := Done)
                                  else j.(status := JobStatus.Failed, error := Some("embedding failed")));
      embedding, passes := false, [];
      EmbeddingServes(old(Now()), Now(), id, cut, false, passes, jobs.store.reliable);
    }

    /** Any life of the process: requests and tasks in any order, until it ends. */
    method Live()
      requires Valid() && Serves()
      modifies this`tasks, this`cut, this`embedding, this`passes, db`data, db`minted, db`log, jobs, jobs.store
      ensures Valid() && Serves() && Lived(old(Now()), Now(), jobs.store.reliable) && Keeps(old(db.data), db.data)
    {
      hide Sound, Attributed, Serving, Lived, Keeps, Told;
      var steps: nat := *;
      NothingLived(Now(), cut, embedding, passes, jobs.store.reliable);
      KeepsItself(db.data);
      while steps > 0
        invariant Valid() && Serves() && Lived(old(Now()), Now(), jobs.store.reliable) && Keeps(old(db.data), db.data)
      {
        ghost var a, s := Now(), db.data;
        KeepsItself(s);
        Step();
        LivedTransitive(old(Now()), a, Now(), jobs.store.reliable);
        KeepsTransitive(old(db.data), s, db.data);
        steps := steps - 1;
      }
    }

    /** When every task gets its turn and nothing is cut off, every job there ever was ends. */
    method Drain()
      requires Valid() && Serves() && jobs.store.reliable && passes == []
      modifies this`tasks, this`cut, db`data, db`minted, db`log, jobs`inner, jobs`cancelled, jobs.store
      ensures Valid() && Serves() && Lived(old(Now()), Now(), true) && Keeps(old(db.data), db.data)
      ensures tasks == map[] && old(cut) <= cut
      ensures cut == {} ==> forall j | j in jobs.store.rows :: Terminal(jobs.store.rows[j].status)
    {
      hide Sound, Attributed, Serving, Lived, Keeps, Told;
      NothingLived(Now(), cut, embedding, passes, true);
      KeepsItself(db.data);
      while tasks.Keys != {}
        invariant Valid() && Serves() && Lived(old(Now()), Now(), true) && Keeps(old(db.data), db.data)
        invariant old(cut) <= cut
        decreases tasks.Keys
      {
        var job :| job in tasks;
        ghost var a, s := Now(), db.data;
        var _, _, _ := RunTask(job);
        LivedTransitive(old(Now()), a, Now(), true);
        KeepsTransitive(old(db.data), s, db.data);
      }
      if cut == {} {
        QuietMeansFinished(Now(), embedding, passes);
      }
    }

    method Step()
      requires Valid() && Serves()
      modifies this`tasks, this`cut, this`embedding, this`passes, db`data, db`minted, db`log, jobs, jobs.store
      ensures Valid() && Serves() && Lived(old(Now()), Now(), jobs.store.reliable) && Keeps(old(db.data), db.data)
    {
      hide Sound, Attributed, Serving, Lived, Keeps, Told;
      NothingLived(Now(), cut, embedding, passes, jobs.store.reliable);
      KeepsItself(db.data);
      var choice: nat, input: Input, some: nat, good: bool := *, *, *, *;
      if choice == 0 {
        var _ := StartProcessing(input);
      } else if choice == 1 {
        var _ := StartReprocessing(some);
      } else if choice == 2 && some in tasks {
        var _, _, _ := RunTask(some);
      } else if choice == 3 {
        MaybeSpawnEmbedding(good);
      } else if choice == 4 && passes == [Spawned] {
        BeginPass(some);
      } else if choice == 5 && |passes| == 1 && passes[0].Under? {
        EndPass(good);
      }
    }
  }

  // ----- Steps of a life -----

  ghost predicate Lived(a: Desk, b: Desk, reliable: bool) {
    reliable ==> NeverRevived(a.rows, b.rows) && SameAttempts(a.rows, b.rows)
  }

  lemma LivedTransitive(a: Desk, b: Desk, c: Desk, reliable: bool)
    requires Lived(a, b, reliable) && Lived(b, c, reliable)
    ensures Lived(a, c, reliable)
  {
  }

  lemma NothingLived(a: Desk, cut: set<JobId>, embedding: bool, passes: seq<Pass>, reliable: bool)
    requires Serving(a, cut, embedding, passes, reliable)
    ensures Lived(a, a, reliable)
    ensures passes == [Spawned] ==> Serving(a, cut, false, [], reliable)
  {
  }

  lemma SpawnedServes(d: Desk, cut: set<JobId>, passes: seq<Pass>, reliable: bool)
    requires Serving(d, cut, false, passes, reliable)
    ensures Serving(d, cut, true, passes + [Spawned], reliable)
  {
    assert passes == [];
    assert forall j :: [Under(j)][0] != [Spawned][0];
  }

  /** The durable row of a job is its registry entry. */
  ghost predicate Mirrored(d: Desk, id: JobId, reliable: bool) {
    id in d.inner && (reliable ==> id in d.rows && d.rows[id] == d.inner[id])
  }

  lemma CreatedServes(a: Desk, b: Desk, id: JobId, cut: set<JobId>, embedding: bool, p: seq<Pass>, q: seq<Pass>,
                      reliable: bool)
    requires Serving(a, cut, embedding, p, reliable)
    requires id !in a.inner && id !in a.rows && OnlyJob(a.rows, b.rows, id) && Mirrored(b, id, reliable)
    requires b.inner == a.inner[id := Job(id, b.inner[id].kind, Queued, Created, None, None, 0)]
    requires if b.inner[id].kind == Embedding
             then b.tasks == a.tasks && p == [Spawned] && q == [Under(id)]
             else id in b.tasks && b.tasks == a.tasks[id := b.tasks[id]] && q == p
    ensures Serving(b, cut, embedding, q, reliable) && Lived(a, b, reliable)
  {
  }

  lemma TaskIsQueued(a: Desk, job: JobId, cut: set<JobId>, embedding: bool, passes: seq<Pass>, reliable: bool)
    requires Serving(a, cut, embedding, passes, reliable) && job in a.tasks
    ensures job in a.inner && a.inner[job].status == Queued
    ensures a.tasks[job].Fresh? ==> a.inner[job].meeting == None
  {
  }

  lemma RunIsKept(job: JobId, a: Snap, b: Snap)
    requires KeptIdentity(job, a, b)
    ensures Keeps(a.data, b.data) && OnlyJob(a.inner, b.inner, job) && OnlyJob(a.rows, b.rows, job)
    ensures job in a.inner && job in b.inner && SameIdentity(a.inner[job], b.inner[job])
  {
  }

  lemma OutcomeIsTerminal(j: Job, r: Result<MeetingId, PipelineError>)
    ensures Ended(j, r) ==> Terminal(j.status)
  {
  }

  lemma RunServes(job: JobId, a: Desk, b: Desk, cut: set<JobId>, more: set<JobId>, embedding: bool, passes: seq<Pass>,
                  reliable: bool)
    requires Serving(a, cut, embedding, passes, reliable) && job in a.tasks && b.tasks == a.tasks - {job}
    requires OnlyJob(a.inner, b.inner, job) && OnlyJob(a.rows, b.rows, job)
    requires Mirrored(a, job, reliable) && Mirrored(b, job, reliable) && SameIdentity(a.inner[job], b.inner[job])
    requires cut <= more && (Terminal(b.inner[job].status) || job in more)
    ensures Serving(b, more, embedding, passes, reliable) && Lived(a, b, reliable)
  {
  }

  lemma PassHasJob(d: Desk, id: JobId, cut: set<JobId>, embedding: bool, passes: seq<Pass>, reliable: bool)
    requires Serving(d, cut, embedding, passes, reliable) && passes == [Under(id)]
    ensures id in d.inner && d.inner[id].kind == Embedding && !Terminal(d.inner[id].status) && embedding
  {
  }

  /** A change of the embedding pass's job: it goes on, or it and the pass are over. */
  lemma EmbeddingServes(a: Desk, b: Desk, id: JobId, cut: set<JobId>, on: bool, q: seq<Pass>, reliable: bool)
    requires Serving(a, cut, true, [Under(id)], reliable)
    requires Mirrored(a, id, reliable) && Mirrored(b, id, reliable) && b.tasks == a.tasks
    requires OnlyJob(a.inner, b.inner, id) && OnlyJob(a.rows, b.rows, id) && SameIdentity(a.inner[id], b.inner[id])
    requires Terminal(b.inner[id].status) == !on && q == if on then [Under(id)] else []
    ensures Serving(b, cut, on, q, reliable) && Lived(a, b, reliable)
  {
  }

  // ----- Any number of lives -----

  /**
   * The process starts, recovers, serves and ends, again and again; it may also end during startup.
   * Every job is resumed at most three times in all, finished jobs stay finished, captured sources
   * stay as they were. `resumed` records which jobs each recovery pass resumed.
   */
  method Lives(ai: Analyzer, db: Database, store: JobStore, firstId: JobId, lives: nat, ghost before: seq<set<JobId>>)
    returns (nextId: JobId, ghost resumed: seq<set<JobId>>)
    requires db.Valid() && ai.cs == db.rules.cs && store.reliable
    requires Keyed(store.rows) && store.Ordered() && (forall j | j in store.rows :: j < firstId)
              && Budgeted(store.rows, before)
    modifies db, store
    ensures db.Valid() && Keeps(old(db.data), db.data)
    ensures |resumed| == |before| + lives && before <= resumed
    ensures Budgeted(store.rows, resumed) && NeverRevived(old(store.rows), store.rows)
    ensures forall j :: |PassesWith(resumed, j)| <= 3
    ensures forall j | j in store.rows :: store.rows[j].attempts == |PassesWith(resumed, j)|
    ensures Keyed(store.rows) && store.Ordered() && forall j | j in store.rows :: j < nextId
  {
    hide Sound, Attributed, Keeps, Budgeted, NeverRevived, Passed, Serving, Lived;
    nextId, resumed := firstId, before;
    Unchanged(db.data, store.rows);
    for i := 0 to lives
      invariant db.Valid() && Keeps(old(db.data), db.data)
      invariant |resumed| == |before| + i && before <= resumed
      invariant Budgeted(store.rows, resumed) && NeverRevived(old(store.rows), store.rows)
      invariant Keyed(store.rows) && store.Ordered() && forall j | j in store.rows :: j < nextId
    {
      ghost var rows, data := store.rows, db.data;
      ghost var again;
      nextId, again := OneLife(ai, db, store, nextId, resumed);
      NeverRevivedTransitive(old(store.rows), rows, store.rows);
      KeepsTransitive(old(db.data), data, db.data);
      resumed := resumed + [again];
    }
    AtMostThree(store.rows, resumed);
  }

  method OneLife(ai: Analyzer, db: Database, store: JobStore, firstId: JobId, ghost before: seq<set<JobId>>)
    returns (nextId: JobId, ghost resumed: set<JobId>)
    requires db.Valid() && ai.cs == db.rules.cs && store.reliable
    requires Keyed(store.rows) && store.Ordered() && (forall j | j in store.rows :: j < firstId)
              && Budgeted(store.rows, before)
    modifies db, store
    ensures db.Valid() && Keeps(old(db.data), db.data)
    ensures Budgeted(store.rows, before + [resumed]) && NeverRevived(old(store.rows), store.rows)
    ensures Keyed(store.rows) && store.Ordered() && forall j | j in store.rows :: j < nextId
  {
    hide Sound, Attributed, Keeps, Budgeted, NeverRevived, Passed, Serving, Lived, Surfaced;
    ghost var rows, s0 := store.rows, db.data;
    var engine := new Engine(ai, db, store, firstId);
    var _, alive := engine.RecoverInterrupted();
    ghost var s1 := db.data;
    if !alive {
      NothingResumed(rows, before);
      return firstId, {};
    }
    ghost var found, done;
    var requeued;
    requeued, alive, found, done := engine.RecoverJobs();
    KeepsTransitive(s0, s1, db.data);
    PassKeepsBudget(rows, engine.Now(), found, done, before);
    resumed := engine.tasks.Keys;
    if alive {
      NoOrphansAfterRecovery(rows, engine.Now(), found);
      ghost var served, s2 := engine.Now(), db.data;
      engine.Live();
      KeepsTransitive(s0, s2, db.data);
      LifeKeepsBudget(rows, served, engine.Now(), before + [resumed]);
    }
    nextId := engine.jobs.nextId;
  }

  lemma Unchanged(s: Store, rows: JobTable)
    ensures Keeps(s, s) && NeverRevived(rows, rows)
  {
  }

  lemma NothingResumed(rows: JobTable, before: seq<set<JobId>>)
    requires Budgeted(rows, before)
    ensures Budgeted(rows, before + [{}]) && NeverRevived(rows, rows)
  {
    assert (before + [{}])[..|before|] == before;
    assert forall j :: Times(before + [{}], j) == Times(before, j);
  }

  lemma LifeKeepsBudget(rows: JobTable, a: Desk, b: Desk, passes: seq<set<JobId>>)
    requires NeverRevived(rows, a.rows) && Lived(a, b, true) && Budgeted(a.rows, passes)
    ensures NeverRevived(rows, b.rows) && Budgeted(b.rows, passes)
  {
  }
}
