/**
 * One processing run, from its first store write to its terminal event
 * (engine/src/pipeline/orchestrator.rs), among other runs and with failures at every step.
 */
module Orchestration {
  import opened Domain
  import opened Text
  import opened TranscriptChunking
  import opened Preprocess
  import opened Extraction
  import opened Synthesis
  import opened Jobs
  import opened Artifacts
  import opened Events
  import opened Databases

  /** What one run has done so far. */
  class EventSink {
    ghost var steps: seq<Step>

    constructor ()
      ensures steps == []
    {
      steps := [];
    }

    method Take(s: Step)
      modifies this`steps
      ensures steps == old(steps) + [s]
      ensures LastStage(steps) == if s.Entered? then Some(s.stage) else LastStage(old(steps))
    {
      steps := steps + [s];
      assert steps[..|steps| - 1] == old(steps);
    }
  }

  datatype Input = TranscriptInput(title: Option<string>, transcript: Transcript) | AudioInput(title: Option<string>)

  /** What the retry path starts from. */
  datatype Source = Source(meeting: Meeting, transcript: Transcript)

  // ----- Outcomes -----

  function TerminalEvent(r: Result<MeetingId, PipelineError>): Step {
    if r.Ok? then JobCompleted else JobFailed
  }

  /** A successful run ends in the last stage. */
  function Closing(r: Result<MeetingId, PipelineError>): seq<Step> {
    if r.Ok? then [Entered(Done)] else []
  }

  /** The status of a meeting after a run: cancelled and failed work may be retried, storage needs attention. */
  function Outcome(r: Result<MeetingId, PipelineError>): ProcessingState {
    match r
    case Ok(_) => Ready
    case Err(Storage) => ProcessingState.Failed
    case Err(_) => Deferred
  }

  /** The kind of error, in place of its text. */
  function Message(e: PipelineError): string {
    match e
    case Cancelled => "cancelled"
    case Media => "media"
    case Asr => "asr"
    case Ai => "ai"
    case Storage => "storage"
    case Crash => "crash"
  }

  lemma MessagesDiffer(e: PipelineError, f: PipelineError)
    requires Message(e) == Message(f)
    ensures e == f
  {
    assert Message(e)[1] == Message(f)[1] && (|Message(e)| == |Message(f)|);
  }

  /** The job after a run. */
  function Closed(j: Job, r: Result<MeetingId, PipelineError>): Job {
    match r
    case Ok(id) => j.(status := Completed, stage := Done, meeting := Some(id))
    case Err(e) =>
      if e == PipelineError.Cancelled then j.(status := JobStatus.Cancelled)
      else j.(status := JobStatus.Failed, error := Some(Message(e)))
  }

  /** The job shows this outcome. */
  predicate Ended(j: Job, r: Result<MeetingId, PipelineError>) {
    j == Closed(j, r)
  }

  function PathOf(input: Input): Path {
    if input.AudioInput? then Heard else Given
  }

  function TitleOf(input: Input): string {
    input.title.GetOr("Untitled meeting")
  }

  /** The shared state at one moment. */
  datatype Snap = Snap(data: Store, log: Log, minted: MeetingId, inner: JobTable, rows: JobTable)

  /**
   * Between two moments nothing captured was lost, every new meeting was added by somebody on record,
   * and no other job's entries were touched.
   */
  ghost predicate Around(job: JobId, a: Snap, b: Snap) {
    && Proceeds(a.data, a.log, b.data, b.log) && a.minted <= b.minted
    && OnlyJob(a.inner, b.inner, job) && OnlyJob(a.rows, b.rows, job)
    && job in a.inner && job in b.inner
  }

  ghost predicate SameIdentity(a: Job, b: Job) {
    a.id == b.id && a.kind == b.kind && a.attempts == b.attempts
  }

  /** As before, and of the job itself only the stage moved. */
  ghost predicate Kept(job: JobId, a: Snap, b: Snap) {
    Around(job, a, b) && b.inner[job] == a.inner[job].(stage := b.inner[job].stage)
  }

  /** As before, and the job kept its kind and attempts. */
  ghost predicate KeptIdentity(job: JobId, a: Snap, b: Snap) {
    Around(job, a, b) && SameIdentity(a.inner[job], b.inner[job])
  }

  lemma KeptTransitive(job: JobId, a: Snap, b: Snap, c: Snap)
    requires Kept(job, a, b) && Kept(job, b, c)
    ensures Kept(job, a, c)
  {
  }

  lemma KeptMeeting(job: JobId, a: Snap, b: Snap, id: MeetingId)
    requires Kept(job, a, b) && id in a.data.meetings && id < a.minted
    ensures id in b.data.meetings && id < b.minted
  {
  }

  lemma StillMinted(job: JobId, a: Snap, b: Snap, id: MeetingId)
    requires Kept(job, a, b) && id < a.minted
    ensures id < b.minted
  {
  }

  lemma KeptStays(job: JobId, a: Snap, b: Snap, id: MeetingId)
    requires Kept(job, a, b)
    ensures id in a.data.meetings ==> id in b.data.meetings
    ensures id in a.data.transcripts ==> id in b.data.transcripts && b.data.transcripts[id] == a.data.transcripts[id]
    ensures (id in a.data.irs ==> id in b.data.irs) && (id in a.data.moms ==> id in b.data.moms)
    ensures a.log.theirs <= b.log.theirs && a.minted <= b.minted
  {
  }

  lemma KeptTranscript(job: JobId, a: Snap, b: Snap, id: MeetingId)
    requires Kept(job, a, b) && id in a.data.transcripts
    ensures id in b.data.transcripts && b.data.transcripts[id] == a.data.transcripts[id]
  {
  }

  lemma KeptIdentityTransitive(job: JobId, a: Snap, b: Snap, c: Snap)
    requires KeptIdentity(job, a, b) && (KeptIdentity(job, b, c) || Kept(job, b, c))
    ensures KeptIdentity(job, a, c)
  {
  }

  class Orchestrator {
    const rules: Rules
    const ai: Analyzer
    const db: Database
    const jobs: JobRegistry
    const sink: EventSink
    /** Nothing fails and nobody asks for a cancellation from now on. */
    const steady: bool

    constructor (rules: Rules, ai: Analyzer, db: Database, jobs: JobRegistry, sink: EventSink, steady: bool)
      ensures this.rules == rules && this.ai == ai && this.db == db && this.jobs == jobs && this.sink == sink
      ensures this.steady == steady
    {
      this.rules, this.ai, this.db, this.jobs, this.sink, this.steady := rules, ai, db, jobs, sink, steady;
    }

    ghost predicate Valid(job: JobId)
      reads db, jobs`inner, jobs`nextId, jobs`cancelled, jobs.store, sink`steps
    {
      && db.Valid() && db.rules == rules && ai.cs == rules.cs
      && jobs.Valid() && job in jobs.inner
      && (steady ==> ai.steady && db.steady)
      && (LastStage(sink.steps).Some? ==> jobs.inner[job].stage == LastStage(sink.steps).value)
    }

    ghost function Now(): Snap
      reads db, jobs`inner, jobs.store
    {
      Snap(db.data, db.log, db.minted, jobs.inner, jobs.store.rows)
    }

    // ----- Small steps -----

    /** Cancellation may be requested at any time; it is noticed here. */
    method CheckCancel(job: JobId) returns (r: Result<(), PipelineError>)
      requires Valid(job)
      modifies jobs`cancelled, sink`steps
      ensures Valid(job)
      ensures r == if job in jobs.cancelled then Err(PipelineError.Cancelled) else Ok(())
      ensures Sent(old(sink.steps), sink.steps, [NotCancelled], Stop(r))
      ensures old(jobs.cancelled) <= jobs.cancelled && (steady ==> jobs.cancelled == old(jobs.cancelled))
    {
      hide LastStage, Sent;
      var requested: bool := *;
      if requested && !steady {
        var _ := jobs.RequestCancel(job);
      }
      SentNothing(sink.steps, [NotCancelled], PipelineError.Cancelled);
      SentAll(sink.steps, [NotCancelled]);
      if job in jobs.cancelled {
        return Err(PipelineError.Cancelled);
      }
      sink.Take(NotCancelled);
      r := Ok(());
    }

    method Stage(job: JobId, stage: JobStage)
      requires Valid(job)
      modifies jobs`inner, jobs.store, sink`steps
      ensures Valid(job) && Kept(job, old(Now()), Now())
      ensures sink.steps == old(sink.steps) + [Entered(stage)]
      ensures jobs.inner[job].stage == stage
    {
      hide JobRegistry.Valid;
      hide Sound, Attributed, LastStage;
      jobs.Update(job, (j: Job) => j.(stage := stage));
      sink.Take(Entered(stage));
    }

    // ----- Media and ASR -----

    /** One external stage: announced, carried out among other runs, announced as done if it worked. */
    method ExternalStage(job: JobId, mine: set<MeetingId>, stage: JobStage, started: Step, completed: Step,
                         failure: PipelineError)
      returns (r: Result<(), PipelineError>)
      requires Valid(job) && !started.Entered? && !completed.Entered?
      requires MayFail(completed, failure) && MayFail(completed, Crash)
      modifies db`data, db`minted, db`log, jobs`inner, jobs.store, sink
      ensures Valid(job) && Kept(job, old(Now()), Now())
      ensures forall m | m in mine && m !in old(db.data).transcripts :: m !in db.data.transcripts
      ensures SameOwn(old(db.log), db.log)
      ensures Sent(old(sink.steps), sink.steps, [Entered(stage), started, completed], Stop(r))
      ensures (steady ==> r.Ok?) && (r.Err? ==> r.error == failure || r.error == Crash)
    {
      hide JobRegistry.Valid;
      hide Sound, Attributed, Keeps, Proceeds, LastStage, Sent;
      Stage(job, stage);
      sink.Take(started);
      ghost var s1 := Now();
      db.Others(mine);
      OthersKeep(job, old(Now()), s1, Now());
      var works: bool, crash: bool := *, *;
      var failed := if crash then Crash else failure;
      ThirdFails(old(sink.steps), sink.steps, Entered(stage), started, completed, failed);
      if !works && !steady {
        return Err(failed);
      }
      sink.Take(completed);
      r := Ok(());
    }

    method MediaAndAsr(job: JobId, mine: set<MeetingId>) returns (r: Result<Transcript, PipelineError>)
      requires Valid(job)
      modifies db`data, db`minted, db`log, jobs`inner, jobs`cancelled, jobs.store, sink
      ensures Valid(job) && Kept(job, old(Now()), Now())
      ensures forall m | m in mine && m !in old(db.data).transcripts :: m !in db.data.transcripts
      ensures SameOwn(old(db.log), db.log)
      ensures Sent(old(sink.steps), sink.steps, MEDIA, Stop(r))
      ensures job in old(jobs.cancelled) ==> r.Err?
      ensures steady ==> jobs.cancelled == old(jobs.cancelled) && (job !in jobs.cancelled ==> r.Ok?)
      ensures r.Err? ==> r.error in {PipelineError.Cancelled, Media, Asr, Crash}
    {
      hide JobRegistry.Valid;
      hide Sound, Attributed, Keeps, Proceeds, Sent, Around, LastStage;
      ghost var s0, e0 := Now(), sink.steps;
      var media := ExternalStage(job, mine, MediaProcessing, MediaProcessingStarted, MediaProcessingCompleted, Media);
      ghost var e1 := sink.steps;
      SentStops(e0, e1, HEARING, [NotCancelled], Stop(media));
      SentStops(e0, e1, HEARING + [NotCancelled], TRANSCRIBING, Stop(media));
      if media.Err? {
        return Err(media.error);
      }
      var c := CheckCancel(job);
      ghost var e2 := sink.steps;
      SentThen(e0, e1, e2, HEARING, [NotCancelled], Stop(c));
      SentStops(e0, e2, HEARING + [NotCancelled], TRANSCRIBING, Stop(c));
      if c.Err? {
        return Err(c.error);
      }
      ghost var s1 := Now();
      var asr := ExternalStage(job, mine, Transcription, TranscriptionStarted, TranscriptionCompleted, Asr);
      KeptTransitive(job, s0, s1, Now());
      SentThen(e0, e2, sink.steps, HEARING + [NotCancelled], TRANSCRIBING, Stop(asr));
      if asr.Err? {
        return Err(asr.error);
      }
      var transcript: Transcript := *;
      r := Ok(transcript);
    }

    // ----- Analysis -----

    method ValidateStage(job: JobId, ir: MeetingIr) returns (r: Result<(), PipelineError>)
      requires Valid(job)
      modifies jobs`inner, jobs.store, sink
      ensures Valid(job) && Kept(job, old(Now()), Now())
      ensures r.Ok? <==> ValidIr(ir)
      ensures r.Err? ==> r.error == Ai
      ensures Sent(old(sink.steps), sink.steps, VALIDATION, Stop(r))
    {
      hide JobRegistry.Valid;
      hide Sound, Attributed, ValidIr, LastStage, Sent;
      Stage(job, Validation);
      sink.Take(ValidationStarted);
      ThirdFails(old(sink.steps), sink.steps, Entered(Validation), ValidationStarted, ValidationCompleted, Ai);
      if !ValidIr(ir) {
        return Err(Ai);
      }
      sink.Take(ValidationCompleted);
      r := Ok(());
    }

    /** The extraction pass: one chunk after the other, counting up. */
    method ExtractAll(job: JobId, chunks: seq<Chunk>)
      returns (r: Result<seq<Findings>, PipelineError>, ghost models: seq<Findings>)
      requires Valid(job)
      modifies db`data, db`minted, db`log, jobs`cancelled, sink`steps
      ensures Valid(job) && Kept(job, old(Now()), Now())
      ensures SameOwn(old(db.log), db.log)
      ensures r.Ok? ==> |models| == |r.value| == |chunks|
                        && forall k | 0 <= k < |chunks| :: FindingsGrounded(rules.cs, chunks[k], models[k], r.value[k])
      ensures Sent(old(sink.steps), sink.steps, Progress(|chunks|, |chunks|), Stop(r))
      ensures job in old(jobs.cancelled) && |chunks| > 0 ==> r.Err?
      ensures steady ==> jobs.cancelled == old(jobs.cancelled) && (job !in jobs.cancelled ==> r.Ok?)
      ensures r.Err? ==> r.error in {PipelineError.Cancelled, Ai, Crash}
    {
      hide JobRegistry.Valid;
      hide Sound, Attributed, FindingsGrounded, Sent, Progress, Keeps, Proceeds, LastStage;
      var findings: seq<Findings> := [];
      models := [];
      ghost var start, s0, n := sink.steps, Now(), |chunks|;
      NothingHappened(job);
      ProgressStart(start, n);
      for i := 0 to |chunks|
        invariant Valid(job) && Kept(job, s0, Now())
        invariant SameOwn(old(db.log), db.log)
        invariant |findings| == |models| == i
        invariant forall k | 0 <= k < i :: FindingsGrounded(rules.cs, chunks[k], models[k], findings[k])
        invariant job in old(jobs.cancelled) ==> i == 0 && job in jobs.cancelled
        invariant steady ==> jobs.cancelled == old(jobs.cancelled)
        invariant Sent(start, sink.steps, Progress(i, n), None)
      {
        ghost var e1 := sink.steps;
        var c := CheckCancel(job);
        ghost var e2 := sink.steps;
        ProgressChecked(start, e1, e2, i, n, Stop(c));
        if c.Err? {
          return Err(c.error), models;
        }
        ghost var s1 := Now();
        db.Others({});
        OthersKeep(job, s0, s1, Now());
        var extracted;
        ghost var model;
        extracted, model := ai.ExtractChunk(chunks[i]);
        ProgressReported(start, e1, e2, i, n, Stop(extracted));
        if extracted.Err? {
          return Err(extracted.error), models;
        }
        findings, models := findings + [extracted.value], models + [model];
        sink.Take(ExtractionProgress(i + 1, |chunks|));
      }
      r := Ok(findings);
    }

    lemma NothingHappened(job: JobId)
      requires Valid(job)
      ensures Kept(job, Now(), Now())
    {
    }

    method Analyze(job: JobId, transcript: Transcript, normalized: Transcript, chunks: seq<Chunk>)
      returns (r: Result<MeetingIr, PipelineError>)
      requires Valid(job)
      requires normalized == Normalized(transcript) && IsChunking(normalized, rules.maxChars, rules.contextChars, chunks)
      requires Concatenated(chunks) == normalized
      modifies db`data, db`minted, db`log, jobs`inner, jobs`cancelled, jobs.store, sink
      ensures Valid(job) && Kept(job, old(Now()), Now())
      ensures SameOwn(old(db.log), db.log)
      ensures r.Ok? ==> Accepted(rules, r.value, transcript)
      ensures Sent(old(sink.steps), sink.steps, Analysis(|chunks|), Stop(r))
      ensures job in old(jobs.cancelled) && |chunks| > 0 ==> r.Err?
      ensures steady ==> jobs.cancelled == old(jobs.cancelled) && (job !in jobs.cancelled ==> r.Ok?)
      ensures r.Err? ==> r.error in {PipelineError.Cancelled, Ai, Crash}
    {
      hide JobRegistry.Valid;
      hide Sound, Attributed, Accepted, Normalized, IsChunking, ValidIr, Keeps, Proceeds, Around, LastStage, Sent;
      var total := |chunks|;
      AnalysisParts(total);
      if total == 0 {
        EmptyIrIsAccepted(rules, transcript);
        var v := ValidateStage(job, EMPTY_IR);
        return v.AndThen(Ok(EMPTY_IR));
      }
      hide Analysis;
      ghost var e0, s0, steps := sink.steps, Now(), Extracting(total) + Progress(total, total);
      Stage(job, Extraction);
      sink.Take(ExtractionStarted(total));
      ghost var s1, e1 := Now(), sink.steps;
      SentTwo(e0, Entered(Extraction), ExtractionStarted(total));
      var extracted;
      ghost var models;
      extracted, models := ExtractAll(job, chunks);
      KeptTransitive(job, s0, s1, Now());
      SentThen(e0, e1, sink.steps, Extracting(total), Progress(total, total), Stop(extracted));
      SentStops(e0, sink.steps, steps, AFTER_EXTRACTION, Stop(extracted));
      if extracted.Err? {
        return Err(extracted.error);
      }
      ghost var s2, e2 := Now(), sink.steps;
      r := SynthesizeStage(job, transcript, normalized, chunks, models, extracted.value);
      KeptTransitive(job, s0, s2, Now());
      SentThen(e0, e2, sink.steps, steps, AFTER_EXTRACTION, Stop(r));
    }

    /** The synthesis call between its events. */
    method Consolidate(job: JobId, normalized: Transcript, findings: seq<Findings>)
      returns (r: Result<MeetingIr, PipelineError>, ghost raw: MeetingIr)
      requires Valid(job)
      modifies db`data, db`minted, db`log, jobs`inner, jobs`cancelled, jobs.store, sink
      ensures Valid(job) && Kept(job, old(Now()), Now())
      ensures SameOwn(old(db.log), db.log)
      ensures r.Ok? ==> r.value == Reconciled(rules.cs, raw, MergedFrom(findings), normalized)
      ensures Sent(old(sink.steps), sink.steps, CONSOLIDATION, Stop(r))
      ensures jobs.cancelled == old(jobs.cancelled)
      ensures steady ==> r.Ok? && ValidIr(r.value)
      ensures r.Err? ==> r.error == Ai || r.error == Crash
    {
      hide JobRegistry.Valid;
      hide Sound, Attributed, Reconciled, MergedFrom, Keeps, Proceeds, LastStage, Sent, ValidIr;
      raw := EMPTY_IR;
      Stage(job, Synthesis);
      sink.Take(SynthesisStarted);
      ghost var s1 := Now();
      db.Others({});
      OthersKeep(job, old(Now()), s1, Now());
      r, raw := ai.Synthesize(findings, normalized);
      ThirdFails(old(sink.steps), sink.steps, Entered(Synthesis), SynthesisStarted, SynthesisCompleted,
                 if r.Err? then r.error else Ai);
      if r.Err? {
        return;
      }
      sink.Take(SynthesisCompleted);
    }

    /** The synthesis pass and the validation of its result. */
    method SynthesizeStage(job: JobId, transcript: Transcript, normalized: Transcript, chunks: seq<Chunk>,
                           ghost models: seq<Findings>, findings: seq<Findings>)
      returns (r: Result<MeetingIr, PipelineError>)
      requires Valid(job)
      requires normalized == Normalized(transcript) && IsChunking(normalized, rules.maxChars, rules.contextChars, chunks)
      requires |models| == |findings| == |chunks|
      requires forall k | 0 <= k < |chunks| :: FindingsGrounded(rules.cs, chunks[k], models[k], findings[k])
      modifies db`data, db`minted, db`log, jobs`inner, jobs`cancelled, jobs.store, sink
      ensures Valid(job) && Kept(job, old(Now()), Now())
      ensures SameOwn(old(db.log), db.log)
      ensures r.Ok? ==> Accepted(rules, r.value, transcript)
      ensures Sent(old(sink.steps), sink.steps, AFTER_EXTRACTION, Stop(r))
      ensures job in old(jobs.cancelled) ==> r.Err?
      ensures steady ==> jobs.cancelled == old(jobs.cancelled) && (job !in jobs.cancelled ==> r.Ok?)
      ensures r.Err? ==> r.error in {PipelineError.Cancelled, Ai, Crash}
    {
      hide JobRegistry.Valid;
      hide Sound, Attributed, Accepted, Normalized, IsChunking, ValidIr, FindingsGrounded, Reconciled;
      hide MergedFrom, Keeps, Proceeds, Around, Sent, LastStage;
      NothingHappened(job);
      ghost var s0, e0 := Now(), sink.steps;
      sink.Take(ExtractionCompleted);
      ghost var e1 := sink.steps;
      SentAll(e0, [ExtractionCompleted]);
      var c := CheckCancel(job);
      ghost var e2 := sink.steps;
      StepPairs();
      SentThen(e0, e1, e2, [ExtractionCompleted], [NotCancelled], Stop(c));
      SynthesisStops(e0, e2, Stop(c));
      if c.Err? {
        return Err(c.error);
      }
      ghost var raw;
      r, raw := Consolidate(job, normalized, findings);
      ghost var s1, e3 := Now(), sink.steps;
      SentThen(e0, e2, e3, EXTRACTED, CONSOLIDATION, Stop(r));
      SentStops(e0, e3, EXTRACTED + CONSOLIDATION, [NotCancelled], Stop(r));
      SentStops(e0, e3, EXTRACTED + CONSOLIDATION + [NotCancelled], VALIDATION, Stop(r));
      if r.Err? {
        return;
      }
      c := CheckCancel(job);
      ghost var e4 := sink.steps;
      SentThen(e0, e3, e4, EXTRACTED + CONSOLIDATION, [NotCancelled], Stop(c));
      SentStops(e0, e4, EXTRACTED + CONSOLIDATION + [NotCancelled], VALIDATION, Stop(c));
      if c.Err? {
        return Err(c.error);
      }
      ghost var b := Basis(chunks, models, findings, raw);
      GroundedFindings(rules, transcript, b);
      DerivedIsAccepted(rules, r.value, transcript, b);
      var v := ValidateStage(job, r.value);
      KeptTransitive(job, s0, s1, Now());
      SentThen(e0, e4, sink.steps, EXTRACTED + CONSOLIDATION + [NotCancelled], VALIDATION, Stop(v));
      if v.Err? {
        return Err(v.error);
      }
    }

    // ----- Enrichment -----

    /** Preparation and analysis of a stored transcript. */
    method PrepareAndAnalyze(job: JobId, transcript: Transcript) returns (r: Result<MeetingIr, PipelineError>, ghost n: nat)
      requires Valid(job)
      modifies db`data, db`minted, db`log, jobs`inner, jobs`cancelled, jobs.store, sink
      ensures Valid(job) && Kept(job, old(Now()), Now())
      ensures SameOwn(old(db.log), db.log)
      ensures r.Ok? ==> Accepted(rules, r.value, transcript)
      ensures Sent(old(sink.steps), sink.steps, Preparation(n) + Analysis(n), Stop(r))
      ensures job in old(jobs.cancelled) ==> r.Err?
      ensures steady ==> jobs.cancelled == old(jobs.cancelled) && (job !in jobs.cancelled ==> r.Ok?)
      ensures r.Err? ==> r.error in {PipelineError.Cancelled, Ai, Crash}
    {
      hide JobRegistry.Valid;
      hide Sound, Attributed, Accepted, Normalized, IsChunking, Keeps, Proceeds, Around, Sent, LastStage, Analysis;
      hide Concatenated;
      ghost var s0, e0 := Now(), sink.steps;
      Stage(job, Chunking);
      sink.Take(ChunkingStarted);
      var normalized, chunks := Prepare(transcript, rules.maxChars, rules.contextChars);
      n := |chunks|;
      sink.Take(ChunkingCompleted(|chunks|));
      ghost var s1, e1 := Now(), sink.steps;
      SentThree(e0, Entered(Chunking), ChunkingStarted, ChunkingCompleted(n));
      var c := CheckCancel(job);
      ghost var e2 := sink.steps;
      SentThen(e0, e1, e2, [Entered(Chunking), ChunkingStarted, ChunkingCompleted(n)], [NotCancelled], Stop(c));
      PreparationParts(n);
      SentStops(e0, e2, Preparation(n), Analysis(n), Stop(c));
      if c.Err? {
        return Err(c.error), n;
      }
      r := Analyze(job, transcript, normalized, chunks);
      KeptTransitive(job, s0, s1, Now());
      SentThen(e0, e2, sink.steps, Preparation(n), Analysis(n), Stop(r));
    }

    /** Rendering between its events; storage is the stage after it. */
    method RenderStage(job: JobId, ir: MeetingIr, title: string) returns (mom: string)
      requires Valid(job)
      modifies jobs`inner, jobs.store, sink
      ensures Valid(job) && Kept(job, old(Now()), Now())
      ensures mom == rules.render(ir, title)
      ensures sink.steps == old(sink.steps) + RENDERING
    {
      hide JobRegistry.Valid;
      hide Sound, Attributed, Around, Keeps, Proceeds, LastStage;
      ghost var s0, e0 := Now(), sink.steps;
      Stage(job, Rendering);
      sink.Take(RenderingStarted);
      mom := rules.render(ir, title);
      sink.Take(RenderingCompleted);
      ghost var s1 := Now();
      Stage(job, Storing);
      KeptTransitive(job, s0, s1, Now());
      assert sink.steps == e0 + RENDERING;
    }

    /** One write of the run is over: it counts as done if it worked. */
    method Note(job: JobId, step: Step, r: Result<(), PipelineError>)
      requires Valid(job) && !step.Entered? && (r.Err? ==> MayFail(step, r.error))
      modifies sink`steps
      ensures Valid(job) && Sent(old(sink.steps), sink.steps, [step], Stop(r))
    {
      hide LastStage, Sent;
      SentAll(sink.steps, [step]);
      if r.Err? {
        SentNothing(sink.steps, [step], r.error);
        return;
      }
      sink.Take(step);
    }

    /** The rendering is stored before the meeting learns its participants. */
    method SaveArtifacts(job: JobId, meeting: Meeting, ir: MeetingIr, mom: string) returns (r: Result<(), PipelineError>)
      requires Valid(job) && meeting.id < db.minted
      requires meeting.id in db.data.meetings && meeting.id in db.data.transcripts && meeting.id in db.data.irs
      modifies db`data, db`minted, db`log, sink`steps
      ensures Valid(job) && Kept(job, old(Now()), Now())
      ensures r.Ok? ==> AllStored(db.data, meeting.id)
      ensures Confined(old(db.log), db.log, meeting.id)
      ensures r.Ok? ==>
                var own, after := old(db.log.own), meeting.(participants := ir.participants);
                db.log.own == own.(moms := own.moms[meeting.id := mom], meetings := own.meetings[meeting.id := after])
      ensures Sent(old(sink.steps), sink.steps, KEEPING, Stop(r))
      ensures (steady ==> r.Ok?) && (r.Err? ==> r.error == Storage || r.error == Crash)
    {
      hide JobRegistry.Valid;
      hide Around, Sound, Attributed, Keeps, Proceeds, Confined, Written, OnlyJob, Sent, LastStage;
      ghost var s0, e0 := Now(), sink.steps;
      ConfinedToNothing(s0.log, meeting.id);
      var saved := SaveMinutes(job, meeting.id, mom);
      ghost var s1, e1 := Now(), sink.steps;
      WrittenMom(s0.log, s0.log, s1.log, meeting.id, mom, saved.Ok?);
      KeptStays(job, s0, s1, meeting.id);
      StepPairs();
      SentStops(e0, e1, [Saved(Minutes)], [Saved(MeetingRecord)], Stop(saved));
      if saved.Err? {
        return Err(saved.error);
      }
      r := SaveRecord(job, {}, meeting.(participants := ir.participants));
      KeptTransitive(job, s0, s1, Now());
      KeptStays(job, s1, Now(), meeting.id);
      WrittenMeeting(s0.log, s1.log, db.log, meeting.(participants := ir.participants), r.Ok?);
      SentThen(e0, e1, sink.steps, [Saved(Minutes)], [Saved(MeetingRecord)], Stop(r));
    }

    method SaveMinutes(job: JobId, id: MeetingId, mom: string) returns (r: Result<(), PipelineError>)
      requires Valid(job)
      modifies db`data, db`minted, db`log, sink`steps
      ensures Valid(job) && Kept(job, old(Now()), Now())
      ensures r.Ok? ==> id in db.data.moms
      ensures Written(old(db.log.own), old(db.log.own).(moms := old(db.log.own).moms[id := mom]), db.log.own, r.Ok?)
      ensures db.log.created == old(db.log.created)
      ensures Sent(old(sink.steps), sink.steps, [Saved(Minutes)], Stop(r))
      ensures (steady ==> r.Ok?) && (r.Err? ==> r.error == Storage || r.error == Crash)
    {
      hide JobRegistry.Valid;
      hide Sound, Attributed, Keeps, Proceeds, Written, OnlyJob, Sent, LastStage;
      NothingHappened(job);
      ghost var s0 := Now();
      r := db.SaveMom(id, mom);
      OthersKeep(job, s0, s0, Now());
      Note(job, Saved(Minutes), r);
    }

    method SaveRecord(job: JobId, mine: set<MeetingId>, meeting: Meeting) returns (r: Result<(), PipelineError>)
      requires Valid(job) && meeting.id < db.minted
      modifies db`data, db`minted, db`log, sink`steps
      ensures Valid(job) && Kept(job, old(Now()), Now())
      ensures forall m | m in mine && m !in old(db.data).transcripts :: m !in db.data.transcripts
      ensures r.Ok? ==> meeting.id in db.data.meetings
      ensures Written(old(db.log.own), old(db.log.own).(meetings := old(db.log.own).meetings[meeting.id := meeting]),
                      db.log.own, r.Ok?)
      ensures old(db.log.created) <= db.log.created
      ensures db.log.created <= old(db.log.created) + if meeting.id in old(db.data).meetings then {} else {meeting.id}
      ensures Sent(old(sink.steps), sink.steps, [Saved(MeetingRecord)], Stop(r))
      ensures (steady ==> r.Ok?) && (r.Err? ==> r.error == Storage || r.error == Crash)
    {
      hide JobRegistry.Valid;
      hide Sound, Attributed, Keeps, Proceeds, Written, OnlyJob, Sent, LastStage;
      NothingHappened(job);
      ghost var s0 := Now();
      r := db.SaveMeeting(mine, meeting);
      OthersKeep(job, s0, s0, Now());
      Note(job, Saved(MeetingRecord), r);
    }

    method SaveRepresentation(job: JobId, id: MeetingId, ir: MeetingIr) returns (r: Result<(), PipelineError>)
      requires Valid(job)
      requires id in db.data.meetings && id in db.data.transcripts && Accepted(rules, ir, db.data.transcripts[id])
      modifies db`data, db`minted, db`log, sink`steps
      ensures Valid(job) && Kept(job, old(Now()), Now())
      ensures id in db.data.meetings && id in db.data.transcripts && (r.Ok? ==> id in db.data.irs)
      ensures Confined(old(db.log), db.log, id)
      ensures r.Ok? ==> db.log.own == old(db.log.own).(irs := old(db.log.own).irs[id := ir])
      ensures Sent(old(sink.steps), sink.steps, [Saved(Representation)], Stop(r))
      ensures (steady ==> r.Ok?) && (r.Err? ==> r.error == Storage || r.error == Crash)
    {
      hide JobRegistry.Valid;
      hide Accepted, Around, Sound, Attributed, Keeps, Proceeds, Confined, Written, OnlyJob, Sent, LastStage;
      NothingHappened(job);
      ghost var s0 := Now();
      r := db.SaveIr(id, ir);
      OthersKeep(job, s0, s0, Now());
      WrittenIr(s0.log, db.log, id, ir, r.Ok?);
      StaysThere(s0, Now(), id);
      Note(job, Saved(Representation), r);
    }

    /** Storing what the analysis gave: the representation, its rendering, the meeting's participants. */
    method StoreResults(job: JobId, meeting: Meeting, ir: MeetingIr) returns (r: Result<(), PipelineError>)
      requires Valid(job)
      requires meeting.id in db.data.meetings && meeting.id in db.data.transcripts
      requires Accepted(rules, ir, db.data.transcripts[meeting.id])
      modifies db`data, db`minted, db`log, jobs`inner, jobs.store, sink
      ensures Valid(job) && Kept(job, old(Now()), Now())
      ensures r.Ok? ==> AllStored(db.data, meeting.id)
      ensures Sent(old(sink.steps), sink.steps, RESULTS, Stop(r))
      ensures Confined(old(db.log), db.log, meeting.id)
      ensures r.Ok? ==> db.log.own == Enriched(rules, old(db.log.own), meeting, ir)
      ensures (steady ==> r.Ok?) && (r.Err? ==> r.error == Storage || r.error == Crash)
    {
      MeetingIsMinted(rules, db.data, db.minted, meeting.id);
      hide JobRegistry.Valid;
      hide Accepted, Around, Sent, Sound, Attributed, Keeps, Proceeds, Confined, Written, AllStored, OnlyJob, LastStage;
      ghost var s0, e0 := Now(), sink.steps;
      r := SaveRepresentation(job, meeting.id, ir);
      ghost var s1, e1 := Now(), sink.steps;
      SentStops(e0, e1, [Saved(Representation)], RENDERING + KEEPING, Stop(r));
      if r.Err? {
        return;
      }
      StillMinted(job, s0, s1, meeting.id);
      r := RenderAndKeep(job, meeting, ir);
      KeptTransitive(job, s0, s1, Now());
      ConfinedTransitive(s0.log, s1.log, db.log, meeting.id);
      SentThen(e0, e1, sink.steps, [Saved(Representation)], RENDERING + KEEPING, Stop(r));
    }

    method RenderAndKeep(job: JobId, meeting: Meeting, ir: MeetingIr) returns (r: Result<(), PipelineError>)
      requires Valid(job) && meeting.id < db.minted
      requires meeting.id in db.data.meetings && meeting.id in db.data.transcripts && meeting.id in db.data.irs
      modifies db`data, db`minted, db`log, jobs`inner, jobs.store, sink
      ensures Valid(job) && Kept(job, old(Now()), Now())
      ensures r.Ok? ==> AllStored(db.data, meeting.id)
      ensures Sent(old(sink.steps), sink.steps, RENDERING + KEEPING, Stop(r))
      ensures Confined(old(db.log), db.log, meeting.id)
      ensures r.Ok? ==>
                var own, after := old(db.log.own), meeting.(participants := ir.participants);
                db.log.own == own.(moms := own.moms[meeting.id := rules.render(ir, meeting.title)],
                                   meetings := own.meetings[meeting.id := after])
      ensures (steady ==> r.Ok?) && (r.Err? ==> r.error == Storage || r.error == Crash)
    {
      hide JobRegistry.Valid;
      hide Around, Sent, Sound, Attributed, Keeps, Proceeds, Confined, Written, AllStored, OnlyJob, LastStage;
      ghost var s0, e0 := Now(), sink.steps;
      var mom := RenderStage(job, ir, meeting.title);
      ghost var s1, e1 := Now(), sink.steps;
      SentAll(e0, RENDERING);
      r := SaveArtifacts(job, meeting, ir, mom);
      KeptTransitive(job, s0, s1, Now());
      SentThen(e0, e1, sink.steps, RENDERING, KEEPING, Stop(r));
    }

    /** Enrichment of a stored transcript; all its writes overwrite, so it may be repeated. */
    method Enrich(job: JobId, meeting: Meeting, transcript: Transcript) returns (r: Result<(), PipelineError>, ghost n: nat)
      requires Valid(job)
      requires meeting.id in db.data.meetings && meeting.id in db.data.transcripts
      requires db.data.transcripts[meeting.id] == transcript
      modifies db`data, db`minted, db`log, jobs`inner, jobs`cancelled, jobs.store, sink
      ensures Valid(job) && Kept(job, old(Now()), Now())
      ensures r.Ok? ==> AllStored(db.data, meeting.id)
      ensures Sent(old(sink.steps), sink.steps, Enrichment(n), Stop(r))
      ensures Confined(old(db.log), db.log, meeting.id)
      ensures r.Ok? ==>
                exists ir :: Accepted(rules, ir, transcript) && db.log.own == Enriched(rules, old(db.log.own), meeting, ir)
      ensures job in old(jobs.cancelled) ==> r.Err?
      ensures steady ==> jobs.cancelled == old(jobs.cancelled) && (job !in jobs.cancelled ==> r.Ok?)
    {
      hide JobRegistry.Valid;
      hide Sound, Attributed, Accepted, Sent, Analysis, Confined, Enriched, AllStored, Proceeds, Keeps, LastStage;
      ghost var s0, e0 := Now(), sink.steps;
      var ir;
      ir, n := PrepareAndAnalyze(job, transcript);
      ghost var s1, e1 := Now(), sink.steps;
      SentStops(e0, e1, Preparation(n) + Analysis(n), RESULTS, Stop(ir));
      IdleIsConfined(s0.log, s1.log, meeting.id);
      StaysThere(s0, s1, meeting.id);
      if ir.Err? {
        return Err(ir.error), n;
      }
      r := StoreResults(job, meeting, ir.value);
      ConfinedTransitive(s0.log, s1.log, db.log, meeting.id);
      KeptTransitive(job, s0, s1, Now());
      SentThen(e0, e1, sink.steps, Preparation(n) + Analysis(n), RESULTS, Stop(r));
    }

    // ----- Runs -----

    /** The raw transcript of the input, provided or heard. */
    method Obtain(job: JobId, mine: set<MeetingId>, input: Input) returns (r: Result<Transcript, PipelineError>)
      requires Valid(job)
      modifies db`data, db`minted, db`log, jobs`inner, jobs`cancelled, jobs.store, sink
      ensures r.Ok? && input.TranscriptInput? ==> r.value == input.transcript
      ensures Valid(job) && Kept(job, old(Now()), Now())
      ensures forall m | m in mine && m !in old(db.data).transcripts :: m !in db.data.transcripts
      ensures SameOwn(old(db.log), db.log)
      ensures Sent(old(sink.steps), sink.steps, if input.AudioInput? then MEDIA else [], Stop(r))
      ensures input.AudioInput? && job in old(jobs.cancelled) ==> r.Err?
      ensures steady ==> jobs.cancelled == old(jobs.cancelled) && (job !in jobs.cancelled ==> r.Ok?)
      ensures r.Err? ==> r.error in {PipelineError.Cancelled, Media, Asr, Crash}
    {
      hide LastStage;
      match input
      case TranscriptInput(_, transcript) =>
        NothingHappened(job);
        assert sink.steps + [] == sink.steps;
        r := Ok(transcript);
      case AudioInput(_) =>
        r := MediaAndAsr(job, mine);
    }

    /** Saves the transcript, says so in the status, and looks for a cancellation. */
    method SaveSource(job: JobId, id: MeetingId, transcript: Transcript) returns (r: Result<(), PipelineError>)
      requires Valid(job)
      requires id in db.data.meetings && id !in db.data.transcripts && id < db.minted
      modifies db`data, db`minted, db`log, jobs`cancelled, sink`steps
      ensures Valid(job) && Kept(job, old(Now()), Now())
      ensures r.Ok? ==> id in db.data.transcripts && db.data.transcripts[id] == transcript
      ensures Captures(old(db.log), db.log, id)
      ensures r.Ok? && db.recording ==> StatusIs(db.log.own, id, Processing)
      ensures Sent(old(sink.steps), sink.steps, CAPTURED, Stop(r))
      ensures job in old(jobs.cancelled) ==> r.Err?
      ensures steady ==> jobs.cancelled == old(jobs.cancelled) && (job !in jobs.cancelled ==> r.Ok?)
      ensures r.Err? ==> r.error in {PipelineError.Cancelled, Storage, Crash}
    {
      hide JobRegistry.Valid;
      hide Sound, Attributed, Keeps, Proceeds, Captures, Written, OnlyJob, Sent, LastStage;
      ghost var s0, e0 := Now(), sink.steps;
      CapturesNothing(s0.log, id);
      NothingHappened(job);
      var saved := db.SaveTranscript(id, transcript);
      OthersKeep(job, s0, s0, Now());
      WrittenTranscript(s0.log, db.log, id, transcript, saved.Ok?);
      Note(job, Saved(SourceText), saved);
      ghost var e1 := sink.steps;
      StepPairs();
      SentStops(e0, e1, [Saved(SourceText)], [NotCancelled], Stop(saved));
      if saved.Err? {
        return Err(saved.error);
      }
      ghost var s1 := Now();
      db.PersistStatus({}, id, Processing);
      OthersKeep(job, s0, s1, Now());
      WrittenStatus(s0.log, s1.log, db.log, id, Processing);
      StaysThere(s1, Now(), id);
      r := CheckCancel(job);
      SentThen(e0, e1, sink.steps, [Saved(SourceText)], [NotCancelled], Stop(r));
    }

    /** From the new meeting record to the stored transcript: after this the capture is safe. */
    method Capture(job: JobId, id: MeetingId, input: Input) returns (r: Result<Transcript, PipelineError>)
      requires Valid(job)
      requires id in db.data.meetings && id !in db.data.transcripts && id < db.minted
      modifies db`data, db`minted, db`log, jobs`inner, jobs`cancelled, jobs.store, sink
      ensures Valid(job) && Kept(job, old(Now()), Now())
      ensures r.Ok? ==> id in db.data.transcripts && db.data.transcripts[id] == r.value
      ensures r.Ok? && input.TranscriptInput? ==> r.value == input.transcript
      ensures Captures(old(db.log), db.log, id)
      ensures r.Ok? && db.recording ==> StatusIs(db.log.own, id, Processing)
      ensures Sent(old(sink.steps), sink.steps, Capturing(input.AudioInput?), Stop(r))
      ensures job in old(jobs.cancelled) ==> r.Err?
      ensures steady ==> jobs.cancelled == old(jobs.cancelled) && (job !in jobs.cancelled ==> r.Ok?)
      ensures r.Err? ==> r.error != Ai
    {
      ghost var media := if input.AudioInput? then MEDIA else [];
      NothingHappened(job);
      hide JobRegistry.Valid;
      hide Sound, Attributed, Keeps, Proceeds, Around, Sent, Captures, Written, OnlyJob, LastStage, StatusIs;
      ghost var s0, e0 := Now(), sink.steps;
      CapturesNothing(s0.log, id);
      var c := Announced(job);
      ghost var e2 := sink.steps;
      SentStops(e0, e2, ANNOUNCED, media, Stop(c));
      SentStops(e0, e2, ANNOUNCED + media, CAPTURED, Stop(c));
      if c.Err? {
        return Err(c.error);
      }
      r := Obtain(job, {id}, input);
      ghost var s1, e3 := Now(), sink.steps;
      SentThen(e0, e2, e3, ANNOUNCED, media, Stop(r));
      SentStops(e0, e3, ANNOUNCED + media, CAPTURED, Stop(r));
      if r.Err? {
        return;
      }
      KeptMeeting(job, s0, s1, id);
      var saved := SaveSource(job, id, r.value);
      KeptTransitive(job, s0, s1, Now());
      SentThen(e0, e3, sink.steps, ANNOUNCED + media, CAPTURED, Stop(saved));
      if saved.Err? {
        r := Err(saved.error);
      }
    }

    /** The run is announced, unless it was cancelled by then. */
    method Announced(job: JobId) returns (r: Result<(), PipelineError>)
      requires Valid(job)
      modifies jobs`cancelled, sink`steps
      ensures Valid(job)
      ensures r == if job in jobs.cancelled then Err(PipelineError.Cancelled) else Ok(())
      ensures Sent(old(sink.steps), sink.steps, ANNOUNCED, Stop(r))
      ensures old(jobs.cancelled) <= jobs.cancelled && (steady ==> jobs.cancelled == old(jobs.cancelled))
    {
      hide Sent, LastStage;
      ghost var e0 := sink.steps;
      sink.Take(ProcessingStarted);
      ghost var e1 := sink.steps;
      SentAll(e0, [ProcessingStarted]);
      r := CheckCancel(job);
      StepPairs();
      SentThen(e0, e1, sink.steps, [ProcessingStarted], [NotCancelled], Stop(r));
    }

    /** An update of this job's entry that leaves its identity and its stage alone. */
    method Change(job: JobId, f: Job -> Job)
      requires Valid(job) && forall j: Job :: SameIdentity(j, f(j)) && f(j).stage == j.stage
      modifies jobs`inner, jobs.store
      ensures Valid(job) && KeptIdentity(job, old(Now()), Now())
      ensures jobs.inner[job] == f(old(jobs.inner[job]))
    {
      hide JobRegistry.Valid;
      hide Sound, Attributed, LastStage;
      jobs.Update(job, f);
    }

    /** A new meeting: its id is minted and its record saved. */
    method CreateMeeting(job: JobId, title: string) returns (r: Result<Meeting, PipelineError>)
      requires Valid(job)
      modifies db`data, db`minted, db`log, sink`steps
      ensures Valid(job) && Kept(job, old(Now()), Now())
      ensures r.Ok? ==>
                r.value == Meeting(r.value.id, title,
                  []) && r.value.id in db.data.meetings && r.value.id !in db.data.transcripts
      ensures r.Ok? ==> r.value.id == old(db.minted) < db.minted
      ensures Touches(old(db.log), db.log, old(db.minted))
      ensures r.Ok? ==> db.log.own == old(db.log.own).(meetings := old(db.log.own).meetings[r.value.id := r.value])
      ensures Sent(old(sink.steps), sink.steps, [Saved(MeetingRecord)], Stop(r))
      ensures (steady ==> r.Ok?) && (r.Err? ==> r.error == Storage || r.error == Crash)
    {
      NothingHappened(job);
      hide JobRegistry.Valid;
      hide Sound, Attributed, Keeps, Proceeds, Around, Touches, Written, Sent, LastStage;
      ghost var s0 := Now();
      var id := db.Mint();
      ghost var s1 := Now();
      Minted(job, s0, s1);
      var meeting := Meeting(id, title, []);
      var saved := SaveRecord(job, {id}, meeting);
      KeptTransitive(job, s0, s1, Now());
      WrittenNew(s0.log, db.log, meeting, saved.Ok?);
      r := if saved.Ok? then Ok(meeting) else Err(saved.error);
    }

    /** The job is running, and a new meeting is on record and known to the job. */
    method Begin(job: JobId, title: string) returns (r: Result<Meeting, PipelineError>)
      requires Valid(job)
      requires jobs.inner[job].meeting == None
      modifies db`data, db`minted, db`log, jobs`inner, jobs.store, sink`steps
      ensures Valid(job) && KeptIdentity(job, old(Now()), Now())
      ensures jobs.inner[job].meeting == None || jobs.inner[job].meeting == Some(old(db.minted))
      ensures jobs.inner[job].status == Running
      ensures r.Ok? ==>
                r.value == Meeting(r.value.id, title,
                  []) && r.value.id in db.data.meetings && r.value.id !in db.data.transcripts
      ensures r.Ok? ==> r.value.id == old(db.minted) < db.minted && jobs.inner[job].meeting == Some(r.value.id)
      ensures Touches(old(db.log), db.log, old(db.minted))
      ensures Sent(old(sink.steps), sink.steps, [Saved(MeetingRecord)], Stop(r))
      ensures (steady ==> r.Ok?) && (r.Err? ==> r.error == Storage || r.error == Crash)
    {
      hide JobRegistry.Valid;
      hide Sound, Attributed, Keeps, Proceeds, Around, Touches, Sent, LastStage;
      ghost var s0 := Now();
      Change(job, (j: Job) => j.(status := Running));
      ghost var s1 := Now();
      r := CreateMeeting(job, title);
      KeptIdentityTransitive(job, s0, s1, Now());
      if r.Err? {
        return;
      }
      var id := r.value.id;
      ghost var s2 := Now();
      Change(job, (j: Job) => j.(meeting := Some(id)));
      KeptIdentityTransitive(job, s0, s2, Now());
    }

    /** First-time processing after the meeting record: its transcript, then its enrichment. */
    method CaptureAndEnrich(job: JobId, meeting: Meeting, input: Input) returns (r: Result<(), PipelineError>, ghost n: nat)
      requires Valid(job)
      requires meeting.id in db.data.meetings && meeting.id !in db.data.transcripts && meeting.id < db.minted
      modifies db`data, db`minted, db`log, jobs`inner, jobs`cancelled, jobs.store, sink
      ensures Valid(job) && Kept(job, old(Now()), Now())
      ensures r.Ok? ==> AllStored(db.data, meeting.id)
      ensures r.Ok? || r.error == Ai || Enriching(old(sink.steps), sink.steps) ==>
                SourceStored(db.data, meeting.id, input) && (db.recording ==> StatusIs(db.log.own, meeting.id, Processing))
      ensures Sent(old(sink.steps), sink.steps, Capturing(input.AudioInput?) + Enrichment(n), Stop(r))
      ensures Touches(old(db.log), db.log, meeting.id)
      ensures r.Ok? ==> InStep(rules, db.log.own, meeting.id) && db.log.own.meetings[meeting.id].title == meeting.title
      ensures job in old(jobs.cancelled) ==> r.Err?
      ensures steady ==> jobs.cancelled == old(jobs.cancelled) && (job !in jobs.cancelled ==> r.Ok?)
    {
      hide JobRegistry.Valid;
      hide Sound, Attributed, Keeps, Proceeds, Around, Sent, Captures, Touches, Enrichment, Enriching, Capturing;
      hide AllStored, InStep, Confined, Accepted, Enriched, OnlyJob, LastStage, StatusIs;
      n := 0;
      ghost var s0, e0, audio := Now(), sink.steps, input.AudioInput?;
      var captured := Capture(job, meeting.id, input);
      ghost var s1, e1 := Now(), sink.steps;
      SentStops(e0, e1, Capturing(audio), Enrichment(n), Stop(captured));
      NothingEnriched(e0, e1, audio, Stop(captured));
      CapturesTouches(s0.log, s1.log, meeting.id);
      if captured.Err? {
        return Err(captured.error), n;
      }
      KeptMeeting(job, s0, s1, meeting.id);
      r, n := Enrich(job, meeting, captured.value);
      KeptTransitive(job, s0, s1, Now());
      SentThen(e0, e1, sink.steps, Capturing(audio), Enrichment(n), Stop(r));
      CapturesThenConfined(s0.log, s1.log, db.log, meeting.id);
      ConfinedStatus(s1.log, db.log, meeting.id);
      EnrichedIsInStep(rules, s1.log.own, db.log.own, meeting, captured.value, r.Ok?);
      KeptTranscript(job, s1, Now(), meeting.id);
    }

    /** First-time processing: a new meeting, its transcript, its enrichment. */
    method Run(job: JobId, input: Input) returns (r: Result<MeetingId, PipelineError>, ghost n: nat)
      requires Valid(job)
      requires jobs.inner[job].meeting == None
      modifies db`data, db`minted, db`log, jobs`inner, jobs`cancelled, jobs.store, sink
      ensures Valid(job) && KeptIdentity(job, old(Now()), Now())
      ensures jobs.inner[job].meeting == None || jobs.inner[job].meeting == Some(old(db.minted))
      ensures jobs.inner[job].status == Running
      ensures r.Ok? ==> AllStored(db.data, r.value) && r.value == old(db.minted)
      ensures r.Ok? || r.error == Ai || Enriching(old(sink.steps), sink.steps) ==>
                && jobs.inner[job].meeting.Some? && SourceStored(db.data, jobs.inner[job].meeting.value, input)
                && (db.recording ==> StatusIs(db.log.own, jobs.inner[job].meeting.value, Processing))
      ensures Sent(old(sink.steps), sink.steps, FullRun(PathOf(input), n), Stop(r))
      ensures Touches(old(db.log), db.log, old(db.minted))
      ensures r.Ok? ==> InStep(rules, db.log.own, r.value) && db.log.own.meetings[r.value].title == TitleOf(input)
      ensures job in old(jobs.cancelled) ==> r.Err?
      ensures steady ==> jobs.cancelled == old(jobs.cancelled) && (job !in jobs.cancelled ==> r.Ok?)
    {
      hide JobRegistry.Valid;
      hide Sound, Attributed, Keeps, Proceeds, Around, Sent, Touches, Enriching, SourceStored, Enrichment;
      hide AllStored, InStep, OnlyJob, LastStage, StatusIs, Capturing;
      n := 0;
      ghost var s0, e0 := Now(), sink.steps;
      var begun := Begin(job, TitleOf(input));
      ghost var e1 := sink.steps;
      SentStops(e0, e1, [Saved(MeetingRecord)], Capturing(input.AudioInput?) + Enrichment(n), Stop(begun));
      NothingYetEnriched(e0, e1, Stop(begun));
      if begun.Err? {
        return Err(begun.error), n;
      }
      ghost var s1 := Now();
      var finished;
      finished, n := CaptureAndEnrich(job, begun.value, input);
      KeptIdentityTransitive(job, s0, s1, Now());
      TouchesTransitive(s0.log, s1.log, db.log, begun.value.id);
      SentThen(e0, e1, sink.steps, [Saved(MeetingRecord)], Capturing(input.AudioInput?) + Enrichment(n), Stop(finished));
      SentIsPrefix(e1, sink.steps, Capturing(input.AudioInput?) + Enrichment(n), Stop(finished));
      EnrichingLater(e0, e1, sink.steps, [Saved(MeetingRecord)]);
      r := if finished.Ok? then Ok(begun.value.id) else Err(finished.error);
    }

    /** What the store has about a meeting; a meeting or transcript it does not have is an error. */
    method Fetch(job: JobId, id: MeetingId) returns (r: Result<Source, PipelineError>)
      requires Valid(job)
      modifies db`data, db`minted, db`log, sink`steps
      ensures Valid(job) && Kept(job, old(Now()), Now())
      ensures SameOwn(old(db.log), db.log)
      ensures r.Ok? ==> id in db.data.meetings && id in db.data.transcripts
      ensures r.Ok? ==> r.value.meeting.id == id && r.value.transcript == db.data.transcripts[id]
      ensures r.Ok? && id !in db.log.theirs ==> id in db.log.own.meetings && r.value.meeting == db.log.own.meetings[id]
      ensures steady && id in old(db.data).meetings && id in old(db.data).transcripts ==> r.Ok?
      ensures Sent(old(sink.steps), sink.steps, FETCHED, Stop(r))
      ensures r.Err? ==> r.error == Storage || r.error == Crash
    {
      hide JobRegistry.Valid;
      hide Keeps, Proceeds, Sound, Attributed, Around, SameOwn, Sent, LastStage;
      ghost var s0, e0 := Now(), sink.steps;
      var meeting := LoadRecord(job, id);
      ghost var s1, e1 := Now(), sink.steps;
      KeptStays(job, s0, s1, id);
      StepPairs();
      SentStops(e0, e1, [Loaded(MeetingRecord)], [Loaded(SourceText)], Stop(meeting));
      if meeting.Err? {
        return Err(meeting.error);
      }
      var transcript := LoadSource(job, id);
      KeptTransitive(job, s0, s1, Now());
      KeptStays(job, s1, Now(), id);
      SameOwnTransitive(s0.log, s1.log, db.log);
      SentThen(e0, e1, sink.steps, [Loaded(MeetingRecord)], [Loaded(SourceText)], Stop(transcript));
      if transcript.Err? {
        return Err(transcript.error);
      }
      r := Ok(Source(meeting.value, transcript.value));
    }

    method LoadRecord(job: JobId, id: MeetingId) returns (r: Result<Meeting, PipelineError>)
      requires Valid(job)
      modifies db`data, db`minted, db`log, sink`steps
      ensures Valid(job) && Kept(job, old(Now()), Now())
      ensures SameOwn(old(db.log), db.log)
      ensures r.Ok? ==> id in db.data.meetings && r.value.id == id
      ensures r.Ok? && id !in db.log.theirs ==> id in db.log.own.meetings && r.value == db.log.own.meetings[id]
      ensures steady && id in old(db.data).meetings ==> r.Ok?
      ensures Sent(old(sink.steps), sink.steps, [Loaded(MeetingRecord)], Stop(r))
      ensures r.Err? ==> r.error == Storage || r.error == Crash
    {
      hide JobRegistry.Valid;
      hide Keeps, Proceeds, Accepted, StatusTold, Attributed, Sent, LastStage;
      NothingHappened(job);
      ghost var s0 := Now();
      var meeting := db.GetMeeting(id);
      OthersKeep(job, s0, s0, Now());
      StaysThere(s0, Now(), id);
      OwnIfNotTheirs(db.data, db.log, id);
      r := if meeting.Err? then Err(meeting.error) else if meeting.value == None then Err(Storage) else Ok(meeting.value.value);
      Note(job, Loaded(MeetingRecord), if r.Ok? then Ok(()) else Err(r.error));
    }

    method LoadSource(job: JobId, id: MeetingId) returns (r: Result<Transcript, PipelineError>)
      requires Valid(job)
      modifies db`data, db`minted, db`log, sink`steps
      ensures Valid(job) && Kept(job, old(Now()), Now())
      ensures SameOwn(old(db.log), db.log)
      ensures r.Ok? ==> id in db.data.transcripts && r.value == db.data.transcripts[id]
      ensures steady && id in old(db.data).transcripts ==> r.Ok?
      ensures Sent(old(sink.steps), sink.steps, [Loaded(SourceText)], Stop(r))
      ensures r.Err? ==> r.error == Storage || r.error == Crash
    {
      hide JobRegistry.Valid;
      hide Keeps, Proceeds, Accepted, StatusTold, Attributed, Sound, Sent, LastStage;
      NothingHappened(job);
      ghost var s0 := Now();
      var transcript := db.GetTranscript(id);
      OthersKeep(job, s0, s0, Now());
      StaysThere(s0, Now(), id);
      r := if transcript.Err? then Err(transcript.error)
           else if transcript.value == None then Err(Storage)
           else Ok(transcript.value.value);
      Note(job, Loaded(SourceText), if r.Ok? then Ok(()) else Err(r.error));
    }

    /** Processing again what is stored: announced, looked for a cancellation, enriched. */
    method EnrichAgain(job: JobId, meeting: Meeting, transcript: Transcript)
      returns (r: Result<(), PipelineError>, ghost n: nat)
      requires Valid(job)
      requires meeting.id in db.data.meetings && meeting.id in db.data.transcripts
      requires db.data.transcripts[meeting.id] == transcript
      modifies db`data, db`minted, db`log, jobs`inner, jobs`cancelled, jobs.store, sink
      ensures Valid(job) && Kept(job, old(Now()), Now())
      ensures r.Ok? ==> AllStored(db.data, meeting.id)
      ensures Sent(old(sink.steps), sink.steps, ANNOUNCED + Enrichment(n), Stop(r))
      ensures Refreshed(old(db.log), db.log, meeting.id)
      ensures db.recording ==> StatusIs(db.log.own, meeting.id, Processing)
      ensures r.Ok? ==> InStep(rules, db.log.own, meeting.id) && db.log.own.meetings[meeting.id].title == meeting.title
      ensures job in old(jobs.cancelled) ==> r.Err?
      ensures steady ==> jobs.cancelled == old(jobs.cancelled) && (job !in jobs.cancelled ==> r.Ok?)
    {
      hide JobRegistry.Valid;
      hide Sound, Attributed, Keeps, Proceeds, Around, Sent, Enrichment, AllStored, InStep, Confined, LastStage;
      hide Accepted, Enriched, OnlyJob, OnlyMeeting, Refreshed, Written;
      n := 0;
      ghost var s0, e0 := Now(), sink.steps;
      NothingHappened(job);
      db.PersistStatus({}, meeting.id, Processing);
      OthersKeep(job, s0, s0, Now());
      StaysThere(s0, Now(), meeting.id);
      WrittenRefreshes(s0.log, db.log, meeting.id, Processing);
      ghost var s1 := Now();
      var c := Announced(job);
      ghost var e1 := sink.steps;
      SentStops(e0, e1, ANNOUNCED, Enrichment(n), Stop(c));
      if c.Err? {
        return Err(c.error), n;
      }
      r, n := Enrich(job, meeting, transcript);
      KeptTransitive(job, s0, s1, Now());
      SentThen(e0, e1, sink.steps, ANNOUNCED, Enrichment(n), Stop(r));
      ConfinedRefreshes(s0.log, s1.log, db.log, meeting.id);
      ConfinedStatus(s1.log, db.log, meeting.id);
      EnrichedIsInStep(rules, s1.log.own, db.log.own, meeting, transcript, r.Ok?);
    }

    /** The retry path: no capture, no new meeting, only the enrichment again. */
    method Rerun(job: JobId, id: MeetingId) returns (r: Result<MeetingId, PipelineError>, ghost n: nat)
      requires Valid(job)
      modifies db`data, db`minted, db`log, jobs`inner, jobs`cancelled, jobs.store, sink
      ensures Valid(job) && KeptIdentity(job, old(Now()), Now())
      ensures jobs.inner[job].status == Running && jobs.inner[job].meeting == Some(id)
      ensures r.Ok? ==> r.value == id && AllStored(db.data, id)
      ensures Sent(old(sink.steps), sink.steps, FullRun(Earlier, n), Stop(r))
      ensures Refreshed(old(db.log), db.log, id)
      ensures db.recording && (r.Ok? || r.error == Ai || Enriching(old(sink.steps), sink.steps)) ==>
                StatusIs(db.log.own, id, Processing)
      ensures r.Ok? ==> InStep(rules, db.log.own, id)
      ensures r.Ok? && id !in db.log.theirs ==>
                id in old(db.log.own).meetings && db.log.own.meetings[id].title == old(db.log.own).meetings[id].title
      ensures job in old(jobs.cancelled) ==> r.Err?
      ensures steady ==> jobs.cancelled == old(jobs.cancelled)
      ensures steady && job !in old(jobs.cancelled) && id in old(db.data).meetings && id in old(db.data).transcripts ==>
                r.Ok?
    {
      hide JobRegistry.Valid;
      hide Sound, Attributed, Keeps, Proceeds, Around, Sent, AllStored, InStep, OnlyJob, Enrichment, LastStage;
      hide OnlyMeeting, Refreshed, StatusIs, Enriching;
      n := 0;
      ghost var s0, e0 := Now(), sink.steps;
      Change(job, (j: Job) => j.(status := Running, meeting := Some(id)));
      ghost var s1 := Now();
      var source := Fetch(job, id);
      KeptIdentityTransitive(job, s0, s1, Now());
      IdleIsRefreshed(s0.log, db.log, id);
      ghost var e1 := sink.steps;
      SentStops(e0, e1, FETCHED, ANNOUNCED + Enrichment(n), Stop(source));
      FetchingEnrichesNothing(e0, e1, Stop(source));
      if source.Err? {
        return Err(source.error), n;
      }
      ghost var s2 := Now();
      var finished;
      finished, n := EnrichAgain(job, source.value.meeting, source.value.transcript);
      KeptIdentityTransitive(job, s0, s2, Now());
      TheirsGrow(job, s2, Now());
      RefreshedTransitive(s0.log, s2.log, db.log, id);
      SentThen(e0, e1, sink.steps, FETCHED, ANNOUNCED + Enrichment(n), Stop(finished));
      r := if finished.Ok? then Ok(id) else Err(finished.error);
    }

    // ----- The terminal outcome -----

    /** The job's last state, with its last stage if it completed. */
    method Close(job: JobId, result: Result<MeetingId, PipelineError>)
      requires Valid(job)
      modifies jobs`inner, jobs.store, sink`steps
      ensures Valid(job) && KeptIdentity(job, old(Now()), Now())
      ensures jobs.inner[job] == Closed(old(jobs.inner[job]), result)
      ensures sink.steps == old(sink.steps) + Closing(result)
    {
      hide JobRegistry.Valid;
      hide Sound, Attributed, LastStage;
      jobs.Update(job, (j: Job) => Closed(j, result));
      assert sink.steps + [] == sink.steps;
      if result.Ok? {
        sink.Take(Entered(Done));
      }
    }

    /**
     * The job, the meeting's status and the one terminal event. The process may still end while the
     * status is being written.
     */
    method Finalize(job: JobId, result: Result<MeetingId, PipelineError>) returns (r: Result<MeetingId, PipelineError>)
      requires Valid(job) && result != Err(Crash)
      requires result.Ok? ==> AllStored(db.data, result.value)
      modifies db`data, db`minted, db`log, jobs`inner, jobs.store, sink
      ensures Valid(job) && KeptIdentity(job, old(Now()), Now())
      ensures r == result || r == Err(Crash)
      ensures result.Ok? ==> AllStored(db.data, result.value)
      ensures sink.steps == old(sink.steps) + Closing(result) + (if r == Err(Crash) then [] else [TerminalEvent(r)])
      ensures jobs.inner[job] == Closed(old(jobs.inner[job]), result)
      ensures jobs.inner[job].status == Completed <==> result.Ok?
      ensures jobs.inner[job].status == JobStatus.Cancelled <==> result == Err(PipelineError.Cancelled)
      ensures jobs.inner[job].status == JobStatus.Failed <==> result.Err? && result.error != PipelineError.Cancelled
      ensures result.Ok? ==> jobs.inner[job].stage == Done && jobs.inner[job].meeting == Some(result.value)
      ensures StatusOnly(old(db.log), db.log, jobs.inner[job].meeting, Outcome(result))
      ensures steady ==> r == result
      ensures db.recording && jobs.inner[job].meeting.Some? ==>
                var id, own := jobs.inner[job].meeting.value, db.log.own;
                && id in own.statuses && StatusIs(own, id, Outcome(result))
                && (own.statuses[id] == Ready <==> result.Ok?)
                && (own.statuses[id] == ProcessingState.Failed <==> result == Err(Storage))
                && (own.statuses[id] == Deferred <==>
                      result.Err? && result.error in {PipelineError.Cancelled, Media, Asr, Ai})
    {
      hide JobRegistry.Valid;
      hide Sound, Attributed, Keeps, Proceeds, Around, AllStored, OnlyJob, Written, LastStage;
      hide Closed, Outcome, StatusAllowed, Database.Valid, KeptIdentity, SameIdentity;
      ghost var s0 := Now();
      OutcomeTells(result);
      ClosedTells(jobs.inner[job], result);
      ClosedIsEnded(jobs.inner[job], result);
      var entry := jobs.Get(job);
      var meeting := if result.Ok? then Some(result.value) else entry.value.meeting;
      Close(job, result);
      if meeting.Some? {
        ghost var s1 := Now();
        OutcomeIsAllowed(s1.data, meeting.value, result);
        db.PersistStatus({}, meeting.value, Outcome(result));
        ClosedAmongOthers(job, s0, s1, Now(), result);
        WrittenStatusOnly(s0.log, db.log, meeting.value, Outcome(result));
      }
      assert sink.steps + [] == sink.steps;
      var crash: bool := *;
      if crash && !steady {
        return Err(Crash);
      }
      sink.Take(TerminalEvent(result));
      r := result;
    }

    // ----- Whole runs -----

    /**
     * Processes new input, to its terminal outcome unless the process ends first. Once any enrichment
     * was announced, and whenever analysis is what failed, the source is stored.
     */
    method Process(job: JobId, input: Input) returns (r: Result<MeetingId, PipelineError>, ghost n: nat)
      requires Valid(job)
      requires jobs.inner[job].meeting == None && db.log == FreshLog(db.data, db.alone)
      modifies db`data, db`minted, db`log, jobs`inner, jobs`cancelled, jobs.store, sink
      ensures Valid(job) && KeptIdentity(job, old(Now()), Now())
      ensures r.Ok? ==> AllStored(db.data, r.value) && r.value == old(db.minted)
      ensures r.Ok? || r.error == Ai || Enriching(old(sink.steps), sink.steps) ==>
                jobs.inner[job].meeting.Some? && SourceStored(db.data, jobs.inner[job].meeting.value, input)
      ensures db.recording && Enriching(old(sink.steps), sink.steps) && jobs.inner[job].meeting.value !in db.log.theirs ==>
                jobs.inner[job].meeting.value in db.data.statuses
      ensures Told(old(sink.steps), sink.steps, PathOf(input), n, r)
      ensures r != Err(Crash) ==>
                && Ended(jobs.inner[job], r)
                && (jobs.inner[job].status == Completed <==> r.Ok?)
                && (jobs.inner[job].status == JobStatus.Cancelled <==> r == Err(PipelineError.Cancelled))
                && (jobs.inner[job].status == JobStatus.Failed <==> r.Err? && r.error != PipelineError.Cancelled)
      ensures r.Ok? ==> jobs.inner[job].stage == Done && jobs.inner[job].meeting == Some(r.value)
      ensures job in old(jobs.cancelled) ==> r.Err?
      ensures steady && job !in old(jobs.cancelled) ==> r.Ok?
      ensures db.alone ==> db.log.theirs == {} && db.log.added == {}
      ensures OnlyAmongOthers(old(db.data), db.data, db.log, old(db.minted))
      ensures db.data.meetings.Keys <= old(db.data).meetings.Keys + db.log.added + {old(db.minted)}
      ensures r.Ok? && r.value !in db.log.theirs ==>
                && InStep(rules, db.data, r.value)
                && db.data.meetings[r.value].title == input.title.GetOr("Untitled meeting")
      ensures db.recording && r != Err(Crash) && jobs.inner[job].meeting.Some?
                && jobs.inner[job].meeting.value !in db.log.theirs ==>
                var id, statuses := jobs.inner[job].meeting.value, db.data.statuses;
                && id in statuses
                && (statuses[id] == Ready <==> r.Ok?)
                && (statuses[id] == ProcessingState.Failed <==> r == Err(Storage))
                && (statuses[id] == Deferred <==> r.Err? && r.error in {PipelineError.Cancelled, Media, Asr, Ai})
    {
      hide JobRegistry.Valid;
      hide Sound, Attributed, Keeps, Proceeds, Around, Sent, Touches, FullRun, AllStored, InStep, LastStage;
      hide OnlyJob, Told, StatusOnly, Closed;
      hide Enriching, SourceStored, OnlyAmongOthers, Ended;
      ghost var s0, e0, path := Now(), sink.steps, PathOf(input);
      r, n := Run(job, input);
      ghost var s1, e1 := Now(), sink.steps;
      AloneStays(job, s0, s1);
      RunAmongOthers(rules, s0.data, s1.data, s1.log, old(db.minted));
      NewMeetings(job, s0, s1, old(db.minted));
      StatusAmongOthers(s1.data, s1.log);
      if r == Err(Crash) {
        ToldNothingMore(e0, e1, path, n, r);
        return;
      }
      var result := r;
      ClosedIsEnded(s1.inner[job], result);
      r := Finalize(job, result);
      KeptIdentityTransitive(job, s0, s1, Now());
      ToldOutcome(e0, e1, sink.steps, path, n, result, r);
      EnrichingStays(e0, e1, sink.steps, path, n, result, r);
      SourceStays(job, s1, Now(), input);
      StatusOnlyTouches(rules, s0.log, s1.log, db.log, old(db.minted), result, jobs.inner[job].meeting);
      RunAmongOthers(rules, s0.data, db.data, db.log, old(db.minted));
      NewMeetings(job, s0, Now(), old(db.minted));
      StatusAmongOthers(db.data, db.log);
      AloneStays(job, s0, Now());
    }

    /**
     * Enriches a stored meeting again, to its terminal outcome unless the process ends first. It adds
     * no meeting: whatever is new afterwards others have added meanwhile.
     */
    method Reprocess(job: JobId, id: MeetingId) returns (r: Result<MeetingId, PipelineError>, ghost n: nat)
      requires Valid(job) && db.log == FreshLog(db.data, db.alone)
      modifies db`data, db`minted, db`log, jobs`inner, jobs`cancelled, jobs.store, sink
      ensures Valid(job) && KeptIdentity(job, old(Now()), Now())
      ensures jobs.inner[job].meeting == Some(id)
      ensures r.Ok? ==> r.value == id && AllStored(db.data, id)
      ensures Told(old(sink.steps), sink.steps, Earlier, n, r)
      ensures r != Err(Crash) ==>
                && Ended(jobs.inner[job], r)
                && (jobs.inner[job].status == Completed <==> r.Ok?)
                && (jobs.inner[job].status == JobStatus.Cancelled <==> r == Err(PipelineError.Cancelled))
                && (jobs.inner[job].status == JobStatus.Failed <==> r.Err? && r.error != PipelineError.Cancelled)
      ensures r.Ok? ==> jobs.inner[job].stage == Done
      ensures job in old(jobs.cancelled) ==> r.Err?
      ensures steady && job !in old(jobs.cancelled) && id in old(db.data).meetings && id in old(db.data).transcripts ==>
                r.Ok?
      ensures db.data.meetings.Keys - old(db.data).meetings.Keys <= db.log.added
      ensures db.alone ==> db.log.theirs == {} && db.log.added == {}
      ensures OnlyAmongOthers(old(db.data), db.data, db.log, id)
      ensures r.Ok? && id !in db.log.theirs ==> id in old(db.data).meetings && InStep(rules, db.data, id)
                                                && db.data.meetings[id].title == old(db.data).meetings[id].title
      ensures db.recording && r != Err(Crash) && id !in db.log.theirs ==>
                var statuses := db.data.statuses;
                && id in statuses
                && (statuses[id] == Ready <==> r.Ok?)
                && (statuses[id] == ProcessingState.Failed <==> r == Err(Storage))
                && (statuses[id] == Deferred <==> r.Err? && r.error in {PipelineError.Cancelled, Media, Asr, Ai})
    {
      hide JobRegistry.Valid;
      hide Sound, Attributed, Keeps, Proceeds, Around, Sent, Touches, Refreshed, FullRun, AllStored, LastStage;
      hide InStep, OnlyJob, Told, StatusOnly, StatusIs, Closed, Enriching;
      hide OnlyAmongOthers, Ended;
      ghost var s0, e0 := Now(), sink.steps;
      r, n := Rerun(job, id);
      ghost var s1, e1 := Now(), sink.steps;
      AloneStays(job, s0, s1);
      RefreshedTouches(s0.log, s1.log, id);
      RunAmongOthers(rules, s0.data, s1.data, s1.log, id);
      NothingAdded(job, s0, s1, id);
      if r == Err(Crash) {
        ToldNothingMore(e0, e1, Earlier, n, r);
        return;
      }
      var result := r;
      ClosedIsEnded(s1.inner[job], result);
      r := Finalize(job, result);
      KeptIdentityTransitive(job, s0, s1, Now());
      TheirsGrow(job, s1, Now());
      ToldOutcome(e0, e1, sink.steps, Earlier, n, result, r);
      StatusOnlyRefreshes(rules, s0.log, s1.log, db.log, id, result);
      RefreshedTouches(s0.log, db.log, id);
      RunAmongOthers(rules, s0.data, db.data, db.log, id);
      NothingAdded(job, s0, Now(), id);
      StatusAmongOthers(db.data, db.log);
      AloneStays(job, s0, Now());
    }
  }

  // ----- What a run writes, and what others do meanwhile -----

  /** The run itself writes nothing. */
  ghost predicate SameOwn(a: Log, b: Log) {
    a.own == b.own && a.created == b.created
  }

  lemma SameOwnTransitive(a: Log, b: Log, c: Log)
    requires SameOwn(a, b) && SameOwn(b, c)
    ensures SameOwn(a, c) && c.own == b.own
  {
  }

  /** The run itself writes about one meeting, which it may add. */
  ghost predicate Touches(a: Log, b: Log, id: MeetingId) {
    OnlyMeeting(a.own, b.own, id) && a.created <= b.created <= a.created + {id}
  }

  lemma TouchesTransitive(a: Log, b: Log, c: Log, id: MeetingId)
    requires Touches(a, b, id) && Touches(b, c, id)
    ensures Touches(a, c, id)
  {
    OnlyMeetingTransitive(a.own, b.own, c.own, id);
  }

  lemma OnlyMeetingTransitive(a: Store, b: Store, c: Store, id: MeetingId)
    requires OnlyMeeting(a, b, id) && OnlyMeeting(b, c, id)
    ensures OnlyMeeting(a, c, id)
  {
    forall m | m != id ensures SameAbout(a, c, m) {
      assert SameAbout(a, b, m) && SameAbout(b, c, m);
    }
  }

  /** Capturing writes the transcript and the status of an existing meeting. */
  ghost predicate Captures(a: Log, b: Log, id: MeetingId) {
    OnlyMeeting(a.own, b.own, id) && a.own.meetings == b.own.meetings && a.created == b.created
  }

  lemma CapturesNothing(a: Log, id: MeetingId)
    ensures Captures(a, a, id)
  {
  }

  lemma CapturesTouches(a: Log, b: Log, id: MeetingId)
    requires Captures(a, b, id)
    ensures Touches(a, b, id)
  {
  }

  lemma CapturesThenConfined(a: Log, b: Log, c: Log, id: MeetingId)
    requires Captures(a, b, id) && Confined(b, c, id)
    ensures Touches(a, c, id)
  {
    OnlyMeetingTransitive(a.own, b.own, c.own, id);
  }

  /** For every meeting but one: what others did not write about is as it was. */
  ghost predicate OnlyAmongOthers(s: Store, t: Store, log: Log, id: MeetingId) {
    forall m | m != id && m !in log.theirs :: SameAbout(s, t, m)
  }

  /** What the run wrote itself holds of the store, unless others wrote about the meeting as well. */
  lemma RunAmongOthers(rules: Rules, s: Store, t: Store, log: Log, id: MeetingId)
    requires Attributed(t, log) && Touches(FreshLog(s, log.alone), log, id)
    ensures OnlyAmongOthers(s, t, log, id)
    ensures id !in log.theirs && InStep(rules, log.own, id) ==>
              InStep(rules, t, id) && t.meetings[id].title == log.own.meetings[id].title
  {
    forall m | m != id && m !in log.theirs ensures SameAbout(s, t, m) {
      assert SameAbout(t, log.own, m) && SameAbout(s, log.own, m);
    }
    if id !in log.theirs { assert SameAbout(t, log.own, id); }
  }

  lemma StatusAmongOthers(t: Store, log: Log)
    requires Attributed(t, log)
    ensures forall m | m !in log.theirs && m in log.own.statuses :: m in t.statuses && t.statuses[m] == log.own.statuses[m]
  {
    forall m | m !in log.theirs && m in log.own.statuses ensures m in t.statuses && t.statuses[m] == log.own.statuses[m] {
      assert SameAbout(t, log.own, m);
    }
  }

  lemma OwnIfNotTheirs(s: Store, log: Log, id: MeetingId)
    requires Attributed(s, log)
    ensures id !in log.theirs && id in s.meetings ==> id in log.own.meetings && log.own.meetings[id] == s.meetings[id]
  {
    if id !in log.theirs { assert SameAbout(s, log.own, id); }
  }

  lemma NewMeetings(job: JobId, a: Snap, b: Snap, id: MeetingId)
    requires KeptIdentity(job, a, b) && Touches(a.log, b.log, id) && a.log == FreshLog(a.data, a.log.alone)
    ensures b.data.meetings.Keys <= a.data.meetings.Keys + b.log.added + {id}
  {
  }

  lemma NothingAdded(job: JobId, a: Snap, b: Snap, id: MeetingId)
    requires KeptIdentity(job, a, b) && Refreshed(a.log, b.log, id) && a.log == FreshLog(a.data, a.log.alone)
    ensures b.data.meetings.Keys - a.data.meetings.Keys <= b.log.added
  {
  }

  lemma AloneStays(job: JobId, a: Snap, b: Snap)
    requires KeptIdentity(job, a, b) && a.log == FreshLog(a.data, a.log.alone)
    ensures a.log.alone ==> b.log.theirs == {} && b.log.added == {}
  {
  }

  lemma TheirsGrow(job: JobId, a: Snap, b: Snap)
    requires KeptIdentity(job, a, b) || Kept(job, a, b)
    ensures a.log.theirs <= b.log.theirs
  {
  }

  lemma StaysThere(a: Snap, b: Snap, id: MeetingId)
    requires Proceeds(a.data, a.log, b.data, b.log)
    ensures id in a.data.meetings ==> id in b.data.meetings
    ensures id in a.data.transcripts ==> id in b.data.transcripts && b.data.transcripts[id] == a.data.transcripts[id]
    ensures (id in a.data.irs ==> id in b.data.irs) && (id in a.data.moms ==> id in b.data.moms)
    ensures a.log.theirs <= b.log.theirs
  {
  }

  /** The captured source of a meeting is stored; a given transcript as it was given. */
  ghost predicate SourceStored(s: Store, id: MeetingId, input: Input) {
    id in s.transcripts && (input.TranscriptInput? ==> s.transcripts[id] == input.transcript)
  }

  lemma SourceStays(job: JobId, a: Snap, b: Snap, input: Input)
    requires KeptIdentity(job, a, b)
    ensures forall id | SourceStored(a.data, id, input) :: SourceStored(b.data, id, input)
  {
  }

  /** Between two moments, the run came to announce its enrichment. */
  ghost predicate Enriching(before: seq<Step>, after: seq<Step>) {
    |before| <= |after| && ChunkingStarted in after[|before|..]
  }

  lemma NoEnrichmentIn(before: seq<Step>, after: seq<Step>, expected: seq<Step>, stop: Option<PipelineError>)
    requires Sent(before, after, expected, stop) && ChunkingStarted !in expected
    ensures !Enriching(before, after) && before <= after
  {
    SentIsPrefix(before, after, expected, stop);
    assert after[|before|..] <= expected;
  }

  lemma NothingYetEnriched(before: seq<Step>, after: seq<Step>, stop: Option<PipelineError>)
    requires Sent(before, after, [Saved(MeetingRecord)], stop)
    ensures !Enriching(before, after)
  {
    NoEnrichmentIn(before, after, [Saved(MeetingRecord)], stop);
  }

  lemma FetchingEnrichesNothing(before: seq<Step>, after: seq<Step>, stop: Option<PipelineError>)
    requires Sent(before, after, FETCHED, stop)
    ensures !Enriching(before, after)
  {
    NoEnrichmentIn(before, after, FETCHED, stop);
  }

  lemma NothingEnriched(before: seq<Step>, after: seq<Step>, audio: bool, stop: Option<PipelineError>)
    requires Sent(before, after, Capturing(audio), stop)
    ensures !Enriching(before, after)
  {
    NoEnrichmentIn(before, after, Capturing(audio), stop);
  }

  /** What was done before does not count. */
  lemma EnrichingLater(a: seq<Step>, b: seq<Step>, c: seq<Step>, first: seq<Step>)
    requires Sent(a, b, first, None) && ChunkingStarted !in first && b <= c
    ensures Enriching(a, c) ==> Enriching(b, c)
  {
    assert c[|a|..] == first + c[|b|..];
  }

  lemma EnrichingStays(before: seq<Step>, body: seq<Step>, after: seq<Step>, path: Path, n: nat,
                       result: Result<MeetingId, PipelineError>, r: Result<MeetingId, PipelineError>)
    requires Sent(before, body, FullRun(path, n), Stop(result))
    requires after == body + Closing(result) + (if r == Err(Crash) then [] else [TerminalEvent(r)])
    ensures Enriching(before, after) <==> Enriching(before, body)
  {
    SentIsPrefix(before, body, FullRun(path, n), Stop(result));
    hide FullRun;
    var rest := Closing(result) + (if r == Err(Crash) then [] else [TerminalEvent(r)]);
    assert after[|before|..] == body[|before|..] + rest;
    assert ChunkingStarted !in rest;
  }

  /** What the final status says about a run that came to its end. */
  lemma OutcomeTells(r: Result<MeetingId, PipelineError>)
    requires r != Err(Crash)
    ensures Outcome(r) == Ready <==> r.Ok?
    ensures Outcome(r) == ProcessingState.Failed <==> r == Err(Storage)
    ensures Outcome(r) == Deferred <==> r.Err? && r.error in {PipelineError.Cancelled, Media, Asr, Ai}
  {
  }

  /** And what the job says. */
  lemma ClosedTells(j: Job, r: Result<MeetingId, PipelineError>)
    ensures Closed(j, r).status == Completed <==> r.Ok?
    ensures Closed(j, r).status == JobStatus.Cancelled <==> r == Err(PipelineError.Cancelled)
    ensures Closed(j, r).status == JobStatus.Failed <==> r.Err? && r.error != PipelineError.Cancelled
    ensures r.Ok? ==> Closed(j, r).stage == Done && Closed(j, r).meeting == Some(r.value)
  {
  }

  lemma ClosedIsEnded(j: Job, r: Result<MeetingId, PipelineError>)
    ensures Ended(Closed(j, r), r)
    ensures r.Err? ==> Closed(j, r).meeting == j.meeting
    ensures r.Ok? ==> Closed(j, r).meeting == Some(r.value)
  {
  }

  /** Every artifact of the meeting is stored. */
  ghost predicate AllStored(s: Store, id: MeetingId) {
    id in s.meetings && id in s.transcripts && id in s.irs && id in s.moms
  }

  /** Enrichment writes about one meeting, and of that neither transcript nor status, and adds none. */
  ghost predicate Confined(a: Log, b: Log, id: MeetingId) {
    && OnlyMeeting(a.own, b.own, id) && a.own.transcripts == b.own.transcripts && a.own.statuses == b.own.statuses
    && a.created == b.created
  }

  lemma ConfinedStatus(a: Log, b: Log, id: MeetingId)
    requires Confined(a, b, id)
    ensures StatusIs(b.own, id, Processing) <==> StatusIs(a.own, id, Processing)
  {
  }

  /** What a successful enrichment leaves: the representation, exactly its rendering, its participants. */
  ghost function Enriched(rules: Rules, s: Store, meeting: Meeting, ir: MeetingIr): Store {
    s.(irs := s.irs[meeting.id := ir],
       moms := s.moms[meeting.id := rules.render(ir, meeting.title)],
       meetings := s.meetings[meeting.id := meeting.(participants := ir.participants)])
  }

  /** The rendering is the one of the stored representation, under the meeting's title. */
  ghost predicate InStep(rules: Rules, s: Store, id: MeetingId) {
    && id in s.meetings && id in s.irs && id in s.moms
    && s.moms[id] == rules.render(s.irs[id], s.meetings[id].title)
    && s.meetings[id].participants == s.irs[id].participants
  }

  lemma EnrichedIsInStep(rules: Rules, s: Store, t: Store, meeting: Meeting, transcript: Transcript, exact: bool)
    requires exact ==> exists ir :: Accepted(rules, ir, transcript) && t == Enriched(rules, s, meeting, ir)
    ensures exact ==> InStep(rules, t, meeting.id) && t.meetings[meeting.id].title == meeting.title
  {
    hide Accepted;
  }

  lemma Minted(job: JobId, a: Snap, b: Snap)
    requires Kept(job, a, a) && a.minted <= b.minted && b == a.(minted := b.minted)
    ensures Kept(job, a, b)
  {
  }

  lemma WrittenNew(a: Log, b: Log, meeting: Meeting, ok: bool)
    requires Written(a.own, a.own.(meetings := a.own.meetings[meeting.id := meeting]), b.own, ok)
    requires a.created <= b.created <= a.created + {meeting.id}
    ensures Touches(a, b, meeting.id) && (ok ==> b.own == a.own.(meetings := a.own.meetings[meeting.id := meeting]))
  {
  }

  /** The retry path writes about one meeting, not its transcript, and adds none. */
  ghost predicate Refreshed(a: Log, b: Log, id: MeetingId) {
    OnlyMeeting(a.own, b.own, id) && a.own.transcripts == b.own.transcripts && a.created == b.created
  }

  lemma IdleIsRefreshed(a: Log, b: Log, id: MeetingId)
    requires SameOwn(a, b)
    ensures Refreshed(a, b, id)
  {
  }

  lemma IdleIsConfined(a: Log, b: Log, id: MeetingId)
    requires SameOwn(a, b)
    ensures Confined(a, b, id)
  {
  }

  lemma RefreshedTransitive(a: Log, b: Log, c: Log, id: MeetingId)
    requires Refreshed(a, b, id) && Refreshed(b, c, id)
    ensures Refreshed(a, c, id)
  {
    OnlyMeetingTransitive(a.own, b.own, c.own, id);
  }

  lemma RefreshedTouches(a: Log, b: Log, id: MeetingId)
    requires Refreshed(a, b, id)
    ensures Touches(a, b, id)
  {
  }

  lemma WrittenRefreshes(a: Log, b: Log, id: MeetingId, state: ProcessingState)
    requires Written(a.own, a.own.(statuses := a.own.statuses[id := state]), b.own, false) && b.created == a.created
    ensures Refreshed(a, b, id)
  {
  }

  lemma ConfinedRefreshes(a: Log, b: Log, c: Log, id: MeetingId)
    requires Refreshed(a, b, id) && Confined(b, c, id)
    ensures Refreshed(a, c, id)
  {
    OnlyMeetingTransitive(a.own, b.own, c.own, id);
  }

  ghost predicate StatusIs(s: Store, id: MeetingId, state: ProcessingState) {
    id in s.statuses && s.statuses[id] == state
  }

  /** The run itself writes nothing but, possibly, the status of the meeting if there is one. */
  ghost predicate StatusOnly(a: Log, b: Log, meeting: Option<MeetingId>, state: ProcessingState) {
    b.created == a.created
    && (b.own == a.own || (meeting.Some? && b.own == a.own.(statuses := a.own.statuses[meeting.value := state])))
  }

  lemma WrittenStatusOnly(a: Log, b: Log, id: MeetingId, state: ProcessingState)
    requires Written(a.own, a.own.(statuses := a.own.statuses[id := state]), b.own, false) && b.created == a.created
    ensures StatusOnly(a, b, Some(id), state)
  {
  }

  lemma OutcomeIsAllowed(s: Store, id: MeetingId, result: Result<MeetingId, PipelineError>)
    requires result.Ok? ==> id == result.value && AllStored(s, id)
    ensures StatusAllowed(s, id, Outcome(result))
  {
  }

  lemma ClosedAmongOthers(job: JobId, a: Snap, b: Snap, c: Snap, result: Result<MeetingId, PipelineError>)
    requires KeptIdentity(job, a, b) && Proceeds(b.data, b.log, c.data, c.log) && b.minted <= c.minted
              && b.inner == c.inner && b.rows == c.rows
    requires result.Ok? ==> AllStored(b.data, result.value)
    ensures KeptIdentity(job, a, c)
    ensures result.Ok? ==> AllStored(c.data, result.value)
  {
    ProceedsTransitive(a.data, a.log, b.data, b.log, c.data, c.log);
  }

  // ----- What a run does, step by step -----

  /**
   * Between two moments a whole run was told: its steps up to where it got, with an error that belongs to the step it
   * stopped at, then exactly one terminal event. A run that the end of the process cut off has none.
   */
  ghost predicate Told(before: seq<Step>, after: seq<Step>, path: Path, n: nat, r: Result<MeetingId, PipelineError>) {
    if r == Err(Crash) then before <= after <= before + FullRun(path, n) + [Entered(Done)]
    else
      && |after| > 0 && after[|after| - 1] == TerminalEvent(r)
      && Sent(before, after[..|after| - 1], FullRun(path, n) + Closing(r), Stop(r))
  }

  lemma ToldNothingMore(before: seq<Step>, after: seq<Step>, path: Path, n: nat, r: Result<MeetingId, PipelineError>)
    requires Sent(before, after, FullRun(path, n), Stop(r)) && r == Err(Crash)
    ensures Told(before, after, path, n, r)
  {
    hide FullRun;
    SentIsPrefix(before, after, FullRun(path, n), Stop(r));
  }

  lemma ToldOutcome(before: seq<Step>, body: seq<Step>, after: seq<Step>, path: Path, n: nat,
                    result: Result<MeetingId, PipelineError>, r: Result<MeetingId, PipelineError>)
    requires Sent(before, body, FullRun(path, n), Stop(result))
    requires r == result || r == Err(Crash)
    requires after == body + Closing(result) + (if r == Err(Crash) then [] else [TerminalEvent(r)])
    ensures Told(before, after, path, n, r)
  {
    var all := FullRun(path, n);
    hide FullRun;
    SentIsPrefix(before, body, all, Stop(result));
    if r == Err(Crash) {
      if result.Ok? {
        assert after == before + all + [Entered(Done)];
      } else {
        assert after == body && before + all <= before + all + [Entered(Done)];
      }
    } else {
      assert after[..|after| - 1] == body + Closing(r);
      SentAll(body, Closing(r));
      if r.Ok? {
        SentThen(before, body, body + Closing(r), all, Closing(r), None);
      } else {
        assert body + [] == body && all + [] == all;
      }
    }
  }

  /**
   * Read off the steps of one run: a terminal event is the last one, and it is JobCompleted exactly when the run
   * succeeded; then every step was done.
   */
  lemma TerminalIsLastAndTrue(steps: seq<Step>, path: Path, n: nat, r: Result<MeetingId, PipelineError>)
    requires Told([], steps, path, n, r)
    ensures forall i | 0 <= i < |steps| && (steps[i] == JobCompleted || steps[i] == JobFailed) ::
              i == |steps| - 1 && r != Err(Crash)
    ensures r != Err(Crash) ==> |steps| > 0 && steps[|steps| - 1] == if r.Ok? then JobCompleted else JobFailed
    ensures r.Ok? <==> JobCompleted in steps
    ensures r.Ok? ==> steps == FullRun(path, n) + [Entered(Done), JobCompleted]
  {
    NoTerminalInside(path, n);
    var all := FullRun(path, n);
    var told := ToldIsPrefix(steps, path, n, r);
    hide *;
    forall i | 0 <= i < |told| ensures steps[i] != JobCompleted && steps[i] != JobFailed {
      assert told[i] == (all + [Entered(Done)])[i];
      if i < |all| { assert all[i] in all; }
    }
  }

  /** And the error of a run that failed says at what kind of step it stopped. */
  lemma ErrorNamesTheStep(steps: seq<Step>, path: Path, n: nat, e: PipelineError) returns (k: nat)
    requires Told([], steps, path, n, Err(e)) && e != Crash
    ensures k < |FullRun(path, n)| && steps == FullRun(path, n)[..k] + [JobFailed]
    ensures e == PipelineError.Cancelled <==> FullRun(path, n)[k] == NotCancelled
    ensures e == Media <==> FullRun(path, n)[k] == MediaProcessingCompleted
    ensures e == Asr <==> FullRun(path, n)[k] == TranscriptionCompleted
    ensures e == Storage <==> FullRun(path, n)[k].Saved? || FullRun(path, n)[k].Loaded?
    ensures e == Ai <==> FullRun(path, n)[k].ExtractionProgress? || FullRun(path, n)[k] == SynthesisCompleted
                         || FullRun(path, n)[k] == ValidationCompleted
  {
    var all := FullRun(path, n);
    hide FullRun;
    assert all + [] == all;
    var told := steps[..|steps| - 1];
    k :| 0 <= k < |all| && StoppedAt([], told, all, k, e);
    assert steps == told + [JobFailed];
  }

  /** A run's job only moves forward through its stages. */
  lemma StagesMoveForward(steps: seq<Step>, path: Path, n: nat, r: Result<MeetingId, PipelineError>, i: nat, j: nat)
    requires Told([], steps, path, n, r) && i < j < |steps| && steps[i].Entered? && steps[j].Entered?
    ensures Rank(steps[i].stage) < Rank(steps[j].stage)
  {
    var all := FullRun(path, n);
    var told := ToldIsPrefix(steps, path, n, r);
    hide *;
    assert j < |told| && told[i] == (all + [Entered(Done)])[i] && told[j] == (all + [Entered(Done)])[j];
    if j < |all| { StagesOnlyForward(path, n, i, j); } else { StageBeforeDone(path, n, i); }
  }

  /** The count of extracted chunks goes from one to all, in steps of one, before extraction is complete. */
  lemma ProgressCountsUp(steps: seq<Step>, path: Path, n: nat, r: Result<MeetingId, PipelineError>, i: nat)
    requires Told([], steps, path, n, r) && i < |steps|
    ensures InCount(steps, n, i)
  {
    var all := FullRun(path, n);
    if i < |all| { FullRunCounts(path, n, i); }
    var told := ToldIsPrefix(steps, path, n, r);
    hide *;
    if i < |told| && i < |all| {
      assert told[..i + 1] == all[..i + 1] == steps[..i + 1];
      SameCount(all[..i + 1], all, n, i);
      SameCountBack(all[..i + 1], steps, n, i);
    } else {
      assert i < |told| ==> told[i] == (all + [Entered(Done)])[i];
      NotCounted(steps, n, i);
    }
  }

  /** What was told is the beginning of a full run, but for the terminal event. */
  lemma ToldIsPrefix(steps: seq<Step>, path: Path, n: nat, r: Result<MeetingId, PipelineError>) returns (told: seq<Step>)
    requires Told([], steps, path, n, r)
    ensures told <= FullRun(path, n) + [Entered(Done)]
    ensures r == Err(Crash) ==> steps == told
    ensures r != Err(Crash) ==> steps == told + [if r.Ok? then JobCompleted else JobFailed]
    ensures r.Ok? ==> told == FullRun(path, n) + [Entered(Done)]
  {
    var all := FullRun(path, n);
    hide FullRun;
    assert [] + all == all && [] + (all + Closing(r)) == all + Closing(r) && all + [] == all;
    if r == Err(Crash) {
      told := steps;
    } else {
      told := steps[..|steps| - 1];
      SentIsPrefix([], told, all + Closing(r), Stop(r));
      PrefixOfMore(told, all, [Entered(Done)], r.Ok?);
    }
  }

  lemma PrefixOfMore(told: seq<Step>, all: seq<Step>, more: seq<Step>, whole: bool)
    requires told <= all + if whole then more else []
    ensures told <= all + more
  {
    assert all + [] == all;
  }

  lemma SameCountBack(a: seq<Step>, b: seq<Step>, n: nat, i: nat)
    requires a <= b && i < |a| && InCount(a, n, i)
    ensures InCount(b, n, i)
  {
  }

  lemma StatusOnlyTouches(rules: Rules, a: Log, b: Log, c: Log, id: MeetingId, result: Result<MeetingId, PipelineError>,
                          meeting: Option<MeetingId>)
    requires Touches(a, b, id) && StatusOnly(b, c, meeting, Outcome(result)) && (meeting.Some? ==> meeting.value == id)
    ensures Touches(a, c, id)
    ensures InStep(rules, b.own, id) ==> InStep(rules, c.own, id) && c.own.meetings == b.own.meetings
  {
    assert OnlyMeeting(b.own, c.own, id);
    OnlyMeetingTransitive(a.own, b.own, c.own, id);
  }

  lemma StatusOnlyRefreshes(rules: Rules, a: Log, b: Log, c: Log, id: MeetingId, result: Result<MeetingId, PipelineError>)
    requires Refreshed(a, b, id) && StatusOnly(b, c, Some(id), Outcome(result))
    ensures Refreshed(a, c, id)
    ensures InStep(rules, b.own, id) ==> InStep(rules, c.own, id) && c.own.meetings == b.own.meetings
  {
    assert OnlyMeeting(b.own, c.own, id);
    OnlyMeetingTransitive(a.own, b.own, c.own, id);
  }

  lemma ConfinedToNothing(a: Log, id: MeetingId)
    ensures Confined(a, a, id)
  {
  }

  lemma ConfinedTransitive(a: Log, b: Log, c: Log, id: MeetingId)
    requires Confined(a, b, id) && Confined(b, c, id)
    ensures Confined(a, c, id)
  {
    OnlyMeetingTransitive(a.own, b.own, c.own, id);
  }

  lemma MeetingIsMinted(rules: Rules, s: Store, minted: MeetingId, id: MeetingId)
    requires Sound(rules, s, minted) && id in s.meetings
    ensures id < minted
  {
    hide Accepted, StatusTold;
  }

  lemma WrittenIr(a: Log, b: Log, id: MeetingId, ir: MeetingIr, ok: bool)
    requires Written(a.own, a.own.(irs := a.own.irs[id := ir]), b.own, ok) && b.created == a.created
    ensures Confined(a, b, id) && (ok ==> b.own == a.own.(irs := a.own.irs[id := ir]))
  {
  }

  lemma WrittenMom(a: Log, b: Log, c: Log, id: MeetingId, mom: string, ok: bool)
    requires Confined(a, b, id) && Written(b.own, b.own.(moms := b.own.moms[id := mom]), c.own, ok) && c.created == b.created
    ensures Confined(a, c, id) && (ok ==> c.own == b.own.(moms := b.own.moms[id := mom]))
  {
    assert OnlyMeeting(b.own, c.own, id);
    OnlyMeetingTransitive(a.own, b.own, c.own, id);
  }

  lemma WrittenMeeting(a: Log, b: Log, c: Log, meeting: Meeting, ok: bool)
    requires Confined(a, b, meeting.id) && c.created == b.created
    requires Written(b.own, b.own.(meetings := b.own.meetings[meeting.id := meeting]), c.own, ok)
    ensures Confined(a, c, meeting.id) && (ok ==> c.own == b.own.(meetings := b.own.meetings[meeting.id := meeting]))
  {
    assert OnlyMeeting(b.own, c.own, meeting.id);
    OnlyMeetingTransitive(a.own, b.own, c.own, meeting.id);
  }

  lemma WrittenTranscript(a: Log, b: Log, id: MeetingId, transcript: Transcript, ok: bool)
    requires Written(a.own, a.own.(transcripts := a.own.transcripts[id := transcript]), b.own, ok) && b.created == a.created
    ensures Captures(a, b, id)
  {
  }

  lemma WrittenStatus(a: Log, b: Log, c: Log, id: MeetingId, state: ProcessingState)
    requires Captures(a, b, id) && Written(b.own, b.own.(statuses := b.own.statuses[id := state]), c.own, false)
              && c.created == b.created
    ensures Captures(a, c, id)
  {
    assert OnlyMeeting(b.own, c.own, id);
    OnlyMeetingTransitive(a.own, b.own, c.own, id);
  }

  lemma SentTwo(before: seq<Step>, e: Step, f: Step)
    ensures Sent(before, before + [e] + [f], [e, f], None)
  {
    assert before + [e, f] == before + [e] + [f];
  }

  lemma SentThree(before: seq<Step>, e: Step, f: Step, g: Step)
    ensures Sent(before, before + [e] + [f] + [g], [e, f, g], None)
  {
    assert before + [e, f, g] == before + [e] + [f] + [g];
  }

  /** Of three steps two were done; the third is done as well or fails. */
  lemma ThirdFails(before: seq<Step>, after: seq<Step>, e: Step, f: Step, g: Step, failure: PipelineError)
    requires after == before + [e] + [f] && MayFail(g, failure)
    ensures Sent(before, after, [e, f, g], Some(failure)) && Sent(before, after + [g], [e, f, g], None)
  {
    assert [e, f, g][..2] == [e, f] && before + [e, f] == after;
    assert StoppedAt(before, after, [e, f, g], 2, failure);
    SentThree(before, e, f, g);
  }

  lemma SynthesisStops(a: seq<Step>, b: seq<Step>, stop: Option<PipelineError>)
    requires stop.Some? ==> Sent(a, b, EXTRACTED, stop)
    ensures stop.Some? ==> Sent(a, b, AFTER_EXTRACTION, stop)
  {
    hide Sent;
    if stop.Some? {
      SentStops(a, b, EXTRACTED, CONSOLIDATION, stop);
      SentStops(a, b, EXTRACTED + CONSOLIDATION, [NotCancelled], stop);
      SentStops(a, b, EXTRACTED + CONSOLIDATION + [NotCancelled], VALIDATION, stop);
    }
  }

  lemma OthersKeep(job: JobId, a: Snap, b: Snap, c: Snap)
    requires Kept(job, a, b) && Proceeds(b.data, b.log, c.data, c.log) && b.minted <= c.minted && b.inner == c.inner
              && b.rows == c.rows
    ensures Kept(job, a, c)
  {
    ProceedsTransitive(a.data, a.log, b.data, b.log, c.data, c.log);
  }

  lemma ProgressStart(e: seq<Step>, n: nat)
    ensures Sent(e, e, Progress(0, n), None)
  {
    assert e + [] == e;
  }

  lemma {:induction false} ProgressPrefix(i: nat, n: nat, total: nat)
    requires i <= n
    ensures Progress(i, total) <= Progress(n, total)
    decreases n
  {
    if i < n { ProgressPrefix(i, n - 1, total); }
  }

  lemma SentInPrefix(a: seq<Step>, b: seq<Step>, part: seq<Step>, expected: seq<Step>, stop: Option<PipelineError>)
    requires Sent(a, b, part, stop) && part <= expected && stop.Some?
    ensures Sent(a, b, expected, stop)
  {
    var rest := expected[|part|..];
    assert part + rest == expected;
    SentStops(a, b, part, rest, stop);
  }

  /** The check before a chunk. */
  lemma ProgressChecked(start: seq<Step>, a: seq<Step>, b: seq<Step>, i: nat, n: nat, stop: Option<PipelineError>)
    requires i < n && Sent(start, a, Progress(i, n), None) && Sent(a, b, [NotCancelled], stop)
    ensures Sent(start, b, Progress(i, n) + [NotCancelled], stop)
    ensures stop.Some? ==> Sent(start, b, Progress(n, n), stop)
  {
    ProgressPrefix(i + 1, n, n);
    hide Sent;
    SentThen(start, a, b, Progress(i, n), [NotCancelled], stop);
    assert Progress(i, n) + [NotCancelled] <= Progress(i + 1, n);
    if stop.Some? { SentInPrefix(start, b, Progress(i, n) + [NotCancelled], Progress(n, n), stop); }
  }

  /** The report after a chunk. */
  lemma ProgressReported(start: seq<Step>, a: seq<Step>, b: seq<Step>, i: nat, n: nat, stop: Option<PipelineError>)
    requires i < n && Sent(start, b, Progress(i, n) + [NotCancelled], None)
    requires stop.Some? ==> MayFail(ExtractionProgress(i + 1, n), stop.value)
    ensures stop.Some? ==> Sent(start, b, Progress(n, n), stop)
    ensures Sent(start, b + [ExtractionProgress(i + 1, n)], Progress(i + 1, n), None)
  {
    ProgressPrefix(i + 1, n, n);
    hide Sent;
    var report := [ExtractionProgress(i + 1, n)];
    assert Progress(i + 1, n) == Progress(i, n) + [NotCancelled] + report;
    SentAll(b, report);
    SentThen(start, b, b + report, Progress(i, n) + [NotCancelled], report, None);
    if stop.Some? {
      SentNothing(b, report, stop.value);
      SentThen(start, b, b, Progress(i, n) + [NotCancelled], report, stop);
      SentInPrefix(start, b, Progress(i + 1, n), Progress(n, n), stop);
    }
  }

  lemma AnalysisParts(n: nat)
    ensures n == 0 ==> Analysis(n) == VALIDATION
    ensures n > 0 ==> Analysis(n) == Extracting(n) + Progress(n, n) + AFTER_EXTRACTION
  {
  }

  lemma PreparationParts(n: nat)
    ensures Preparation(n) == [Entered(Chunking), ChunkingStarted, ChunkingCompleted(n)] + [NotCancelled]
  {
  }

  /** Nothing said: the fixed representation is valid and accepted. */
  lemma EmptyIrIsAccepted(rules: Rules, transcript: Transcript)
    requires Normalized(transcript) == []
    ensures ValidIr(EMPTY_IR) && Accepted(rules, EMPTY_IR, transcript)
  {
    hide Normalized;
    EmptyIrIsValid();
  }
}
