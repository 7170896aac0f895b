/** Jobs, their in-memory registry and its durable mirror (engine/src/pipeline/jobs.rs, job_store.rs). */
module Jobs {
  import opened Domain

  /** Random ids are modelled as numbers that are never handed out twice. */
  type JobId = nat
  type MeetingId = nat

  datatype JobKind = Process | Reprocess | Embedding

  datatype JobStatus = Queued | Running | Completed | Failed | Cancelled

  /** A job that is neither queued nor running has ended. */
  predicate Terminal(s: JobStatus) {
    s == Completed || s == Failed || s == Cancelled
  }

  datatype JobStage =
    Created | MediaProcessing | Transcription | Chunking | Extraction | Synthesis | Validation | Rendering | Storing | Done

  /** Position of a stage in the pipeline. */
  function Rank(stage: JobStage): nat {
    match stage
    case Created => 0
    case MediaProcessing => 1
    case Transcription => 2
    case Chunking => 3
    case Extraction => 4
    case Synthesis => 5
    case Validation => 6
    case Rendering => 7
    case Storing => 8
    case Done => 9
  }

  const STAGES :=
    [Created, MediaProcessing, Transcription, Chunking, Extraction, Synthesis, Validation, Rendering, Storing, Done]

  /** The ranks count the stages in order. */
  lemma RankIsPosition(stage: JobStage)
    ensures Rank(stage) < |STAGES| && STAGES[Rank(stage)] == stage
  {
  }

  datatype Job = Job(
    id: JobId,
    kind: JobKind,
    status: JobStatus,
    stage: JobStage,
    meeting: Option<MeetingId>,
    error: Option<string>,
    attempts: nat)

  type JobTable = map<JobId, Job>

  /** The two tables agree about every job but one. */
  ghost predicate OnlyJob(a: JobTable, b: JobTable, job: JobId) {
    forall j | j != job :: (j in a <==> j in b) && (j in a ==> a[j] == b[j])
  }

  /** The list holds every unfinished row once. */
  ghost predicate Listed(rows: JobTable, list: seq<Job>) {
    && (forall i | 0 <= i < |list| :: list[i].id in rows && rows[list[i].id] == list[i] && !Terminal(list[i].status))
    && (forall i, k | 0 <= i < k < |list| :: list[i].id != list[k].id)
    && (forall j | j in rows && !Terminal(rows[j].status) :: rows[j] in list && rows[j].id == j)
  }

  ghost predicate Keyed(jobs: JobTable) {
    forall j | j in jobs :: jobs[j].id == j
  }

  /** The unfinished rows, in the order given. */
  function UnfinishedIn(order: seq<JobId>, rows: JobTable): seq<Job>
    requires forall j | j in order :: j in rows
  {
    if order == [] then []
    else
      var last := order[|order| - 1];
      UnfinishedIn(order[..|order| - 1], rows) + if Terminal(rows[last].status) then [] else [rows[last]]
  }

  lemma {:induction false} UnfinishedIs(order: seq<JobId>, rows: JobTable, job: Job)
    requires Keyed(rows) && forall j | j in order :: j in rows
    ensures job in UnfinishedIn(order, rows) <==> job.id in order && rows[job.id] == job && !Terminal(job.status)
  {
    if order != [] {
      var n := |order| - 1;
      UnfinishedIs(order[..n], rows, job);
      assert job.id in order <==> job.id in order[..n] || job.id == order[n];
    }
  }

  lemma {:induction false} UnfinishedOnce(order: seq<JobId>, rows: JobTable)
    requires Keyed(rows) && forall j | j in order :: j in rows
    requires forall i, k | 0 <= i < k < |order| :: order[i] != order[k]
    ensures var jobs := UnfinishedIn(order, rows);
      forall i, k | 0 <= i < k < |jobs| :: jobs[i].id != jobs[k].id
  {
    if order != [] {
      var n := |order| - 1;
      UnfinishedOnce(order[..n], rows);
      var before := UnfinishedIn(order[..n], rows);
      forall i | 0 <= i < |before| ensures before[i].id != order[n] {
        UnfinishedIs(order[..n], rows, before[i]);
      }
    }
  }

  /** They keep the order: what was created earlier is listed earlier. */
  lemma {:induction false} UnfinishedInOrder(order: seq<JobId>, rows: JobTable, i: nat, k: nat)
    requires Keyed(rows) && forall j | j in order :: j in rows
    requires forall i, k | 0 <= i < k < |order| :: order[i] != order[k]
    requires i < k < |UnfinishedIn(order, rows)|
    ensures exists a, b | 0 <= a < b < |order| ::
              order[a] == UnfinishedIn(order, rows)[i].id && order[b] == UnfinishedIn(order, rows)[k].id
  {
    var n := |order| - 1;
    var before := UnfinishedIn(order[..n], rows);
    if k < |before| {
      UnfinishedInOrder(order[..n], rows, i, k);
      var a, b :| 0 <= a < b < n && order[..n][a] == before[i].id && order[..n][b] == before[k].id;
      assert order[a] == UnfinishedIn(order, rows)[i].id && order[b] == UnfinishedIn(order, rows)[k].id;
    } else {
      UnfinishedIs(order[..n], rows, before[i]);
      var a :| 0 <= a < n && order[..n][a] == before[i].id;
      assert order[a] == UnfinishedIn(order, rows)[i].id && order[n] == UnfinishedIn(order, rows)[k].id;
    }
  }

  lemma UnfinishedAreListed(order: seq<JobId>, rows: JobTable)
    requires Keyed(rows) && (forall j :: j in order <==> j in rows)
    requires forall i, k | 0 <= i < k < |order| :: order[i] != order[k]
    ensures Listed(rows, UnfinishedIn(order, rows))
  {
    var jobs := UnfinishedIn(order, rows);
    UnfinishedOnce(order, rows);
    forall i | 0 <= i < |jobs|
      ensures jobs[i].id in rows && rows[jobs[i].id] == jobs[i] && !Terminal(jobs[i].status)
    {
      UnfinishedIs(order, rows, jobs[i]);
    }
    forall j | j in rows && !Terminal(rows[j].status) ensures rows[j] in jobs && rows[j].id == j {
      UnfinishedIs(order, rows, rows[j]);
    }
  }

  /** The durable table and the order its rows were created in. While `reliable`, no statement fails. */
  class JobStore {
    var rows: JobTable
    var order: seq<JobId>
    const reliable: bool

    constructor (reliable: bool)
      ensures rows == map[] && Ordered() && this.reliable == reliable
    {
      this.rows, this.order, this.reliable := map[], [], reliable;
    }

    ghost predicate Ordered()
      reads this
    {
      (forall j :: j in order <==> j in rows) && forall i, k | 0 <= i < k < |order| :: order[i] != order[k]
    }

    /** An update keeps the place of the row. */
    method Upsert(job: Job) returns (ok: bool)
      requires Ordered()
      modifies this
      ensures Ordered() && rows == if ok then old(rows)[job.id := job] else old(rows)
      ensures order == if ok && job.id !in old(rows) then old(order) + [job.id] else old(order)
      ensures reliable ==> ok
    {
      var works: bool := *;
      ok := reliable || works;
      if ok {
        order := if job.id in rows then order else order + [job.id];
        rows := rows[job.id := job];
      }
    }

    /** Every job left queued or running, each once, in order of creation. */
    method ListUnfinished() returns (jobs: Option<seq<Job>>)
      requires Keyed(rows) && Ordered()
      ensures reliable ==> jobs.Some?
      ensures jobs.Some? ==> jobs.value == UnfinishedIn(order, rows) && Listed(rows, jobs.value)
    {
      var works: bool := *;
      if !reliable && !works {
        return None;
      }
      var out: seq<Job> := [];
      for i := 0 to |order|
        invariant out == UnfinishedIn(order[..i], rows)
      {
        assert order[..i + 1][..i] == order[..i];
        if !Terminal(rows[order[i]].status) {
          out := out + [rows[order[i]]];
        }
      }
      assert order[..|order|] == order;
      UnfinishedAreListed(order, rows);
      jobs := Some(out);
    }
  }

  class JobRegistry {
    var inner: JobTable
    var cancelled: set<JobId>
    var nextId: JobId
    const store: JobStore

    constructor (store: JobStore, nextId: JobId)
      ensures inner == map[] && cancelled == {} && this.store == store && this.nextId == nextId
    {
      inner, cancelled, this.store, this.nextId := map[], {}, store, nextId;
    }

    /** Ids are keys, unused ids are unused, and a reliable mirror shows what the registry shows. */
    ghost predicate Valid()
      reads this`inner, this`nextId, this`cancelled, store
    {
      && Keyed(inner) && Keyed(store.rows) && store.Ordered()
      && (forall j | j in inner || j in store.rows || j in cancelled :: j < nextId)
      && (store.reliable ==> forall j | j in inner :: j in store.rows && store.rows[j] == inner[j])
    }

    /** Best effort: a failed write is swallowed. */
    method Persist(job: Job)
      requires store.Ordered()
      modifies store
      ensures store.Ordered()
      ensures store.rows == old(store.rows) || store.rows == old(store.rows)[job.id := job]
      ensures store.reliable ==> store.rows == old(store.rows)[job.id := job]
    {
      var _ := store.Upsert(job);
    }

    method Create(kind: JobKind) returns (id: JobId)
      requires Valid()
      modifies this`inner, this`nextId, store
      ensures Valid() && id == old(nextId) && nextId == old(nextId) + 1
      ensures inner == old(inner)[id := Job(id, kind, Queued, Created, None, None, 0)]
      ensures OnlyJob(old(store.rows), store.rows, id)
      ensures id in store.rows ==> store.rows[id] == inner[id]
      ensures id !in old(inner) && id !in old(store.rows) && id !in cancelled
    {
      id := nextId;
      nextId := nextId + 1;
      var job := Job(id, kind, Queued, Created, None, None, 0);
      Persist(job);
      inner := inner[id := job];
    }

    /** Registers a recovered job again, under a fresh cancel flag. */
    method Reinsert(job: Job)
      requires Valid() && job.id in store.rows
      modifies this`inner, this`cancelled, store
      ensures Valid() && inner == old(inner)[job.id := job] && job.id !in cancelled
      ensures store.rows == old(store.rows) || store.rows == old(store.rows)[job.id := job]
      ensures store.reliable ==> store.rows == old(store.rows)[job.id := job]
    {
      Persist(job);
      inner := inner[job.id := job];
      cancelled := cancelled - {job.id};
    }

    method Get(id: JobId) returns (job: Option<Job>)
      ensures job == if id in inner then Some(inner[id]) else None
    {
      job := if id in inner then Some(inner[id]) else None;
    }

    /** False when the job is unknown. */
    method RequestCancel(id: JobId) returns (known: bool)
      requires Valid()
      modifies this`cancelled
      ensures Valid()
      ensures known <==> id in inner
      ensures cancelled == if known then old(cancelled) + {id} else old(cancelled)
    {
      known := id in inner;
      if known {
        cancelled := cancelled + {id};
      }
    }

    /** Changes a registered job and mirrors it; an unknown job is left alone. */
    method Update(id: JobId, f: Job -> Job)
      requires Valid()
      requires forall j: Job :: f(j).id == j.id
      modifies this`inner, store
      ensures Valid()
      ensures inner == if id in old(inner) then old(inner)[id := f(old(inner)[id])] else old(inner)
      ensures OnlyJob(old(store.rows), store.rows, id)
      ensures store.reliable && id in inner ==> store.rows == old(store.rows)[id := inner[id]]
      ensures store.rows == old(store.rows) || (id in inner && store.rows == old(store.rows)[id := inner[id]])
    {
      if id in inner {
        inner := inner[id := f(inner[id])];
        Persist(inner[id]);
      }
    }
  }
}
