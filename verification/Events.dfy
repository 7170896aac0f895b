/** The steps of one run and the order they may come in (engine/src/ipc/events.rs, pipeline/orchestrator.rs). */
module Events {
  import opened Domain
  import opened Jobs

  /** A pipeline error, or the end of the process at that point. */
  datatype PipelineError = Cancelled | Media | Asr | Ai | Storage | Crash

  datatype Artifact = MeetingRecord | SourceText | Representation | Minutes

  /**
   * What a run does, in order: the events it sends to clients, the stages its job enters, and what it may fail at,
   * namely that it looked for a cancellation and found none, and that it read or wrote the store.
   */
  datatype Step =
    | ProcessingStarted
    | MediaProcessingStarted | MediaProcessingCompleted
    | TranscriptionStarted | TranscriptionCompleted
    | ChunkingStarted | ChunkingCompleted(chunks: nat)
    | ExtractionStarted(chunks: nat) | ExtractionProgress(completed: nat, total: nat) | ExtractionCompleted
    | SynthesisStarted | SynthesisCompleted
    | ValidationStarted | ValidationCompleted
    | RenderingStarted | RenderingCompleted
    | JobCompleted | JobFailed
    | Entered(stage: JobStage)
    | NotCancelled
    | Saved(what: Artifact) | Loaded(what: Artifact)

  /** The error with which a run stops that does not get this step done. */
  predicate MayFail(s: Step, e: PipelineError) {
    match s
    case NotCancelled => e == PipelineError.Cancelled
    case MediaProcessingCompleted => e == Media || e == Crash
    case TranscriptionCompleted => e == Asr || e == Crash
    case ExtractionProgress(_, _) => e == Ai || e == Crash
    case SynthesisCompleted => e == Ai || e == Crash
    case ValidationCompleted => e == Ai
    case Saved(_) => e == PipelineError.Storage || e == Crash
    case Loaded(_) => e == PipelineError.Storage || e == Crash
    case _ => false
  }

  // ----- The steps of a whole run -----

  const HEARING := [Entered(MediaProcessing), MediaProcessingStarted, MediaProcessingCompleted]
  const TRANSCRIBING := [Entered(Transcription), TranscriptionStarted, TranscriptionCompleted]
  const MEDIA := HEARING + [NotCancelled] + TRANSCRIBING

  /** Extraction looks for a cancellation before every chunk, and counts up. */
  function Progress(done: nat, total: nat): (es: seq<Step>)
    ensures |es| == 2 * done
  {
    if done == 0 then [] else Progress(done - 1, total) + [NotCancelled, ExtractionProgress(done, total)]
  }

  const CONSOLIDATION := [Entered(Synthesis), SynthesisStarted, SynthesisCompleted]
  const VALIDATION := [Entered(Validation), ValidationStarted, ValidationCompleted]
  const EXTRACTED := [ExtractionCompleted, NotCancelled]
  const AFTER_EXTRACTION := EXTRACTED + CONSOLIDATION + [NotCancelled] + VALIDATION

  function Extracting(n: nat): seq<Step> {
    [Entered(Extraction), ExtractionStarted(n)]
  }

  /** Analysis of `n` chunks; without any there is nothing but a validation. */
  function Analysis(n: nat): seq<Step> {
    if n == 0 then VALIDATION else Extracting(n) + Progress(n, n) + AFTER_EXTRACTION
  }

  function Preparation(n: nat): seq<Step> {
    [Entered(Chunking), ChunkingStarted, ChunkingCompleted(n), NotCancelled]
  }

  const RENDERING := [Entered(Rendering), RenderingStarted, RenderingCompleted, Entered(Storing)]
  const KEEPING := [Saved(Minutes), Saved(MeetingRecord)]
  const RESULTS := [Saved(Representation)] + (RENDERING + KEEPING)

  function Enrichment(n: nat): seq<Step> {
    Preparation(n) + Analysis(n) + RESULTS
  }

  /** Where the source of a run comes from: recorded audio, a given transcript, or an earlier run. */
  datatype Path = Heard | Given | Earlier

  const ANNOUNCED := [ProcessingStarted, NotCancelled]
  const CAPTURED := [Saved(SourceText), NotCancelled]
  const FETCHED := [Loaded(MeetingRecord), Loaded(SourceText)]

  function Capturing(audio: bool): seq<Step> {
    ANNOUNCED + (if audio then MEDIA else []) + CAPTURED
  }

  /** A whole successful run, before it is closed. */
  function FullRun(path: Path, n: nat): seq<Step> {
    match path
    case Heard => [Saved(MeetingRecord)] + (Capturing(true) + Enrichment(n))
    case Given => [Saved(MeetingRecord)] + (Capturing(false) + Enrichment(n))
    case Earlier => FETCHED + (ANNOUNCED + Enrichment(n))
  }

  lemma StepPairs()
    ensures [ProcessingStarted] + [NotCancelled] == ANNOUNCED
    ensures [Saved(SourceText)] + [NotCancelled] == CAPTURED
    ensures [Saved(Minutes)] + [Saved(MeetingRecord)] == KEEPING
    ensures [ExtractionCompleted] + [NotCancelled] == EXTRACTED
    ensures [Loaded(MeetingRecord)] + [Loaded(SourceText)] == FETCHED
  {
  }

  /** The lengths of what comes before the first stage of the enrichment, and of the analysis. */
  function Ahead(path: Path): nat {
    match path
    case Heard => 12
    case Given => 5
    case Earlier => 4
  }

  lemma EnrichmentIs(n: nat)
    ensures var es, m := Enrichment(n), if n == 0 then 0 else 2 * n + 8;
      && |es| == m + 14
      && es[0] == Entered(Chunking) && es[1] == ChunkingStarted && es[2] == ChunkingCompleted(n) && es[3] == NotCancelled
      && (n > 0 ==>
            && es[4] == Entered(Extraction) && es[5] == ExtractionStarted(n)
            && (forall i | 1 <= i <= n :: es[2 * i + 4] == NotCancelled && es[2 * i + 5] == ExtractionProgress(i, n))
            && es[m - 2] == ExtractionCompleted && es[m - 1] == NotCancelled
            && es[m] == Entered(Synthesis) && es[m + 1] == SynthesisStarted && es[m + 2] == SynthesisCompleted
            && es[m + 3] == NotCancelled)
      && es[m + 4] == Entered(Validation) && es[m + 5] == ValidationStarted && es[m + 6] == ValidationCompleted
      && es[m + 7] == Saved(Representation)
      && es[m + 8] == Entered(Rendering) && es[m + 9] == RenderingStarted && es[m + 10] == RenderingCompleted
      && es[m + 11] == Entered(Storing) && es[m + 12] == Saved(Minutes) && es[m + 13] == Saved(MeetingRecord)
  {
    hide Analysis;
    AnalysisIs(n);
    forall i | 1 <= i <= n
      ensures Enrichment(n)[2 * i + 4] == NotCancelled && Enrichment(n)[2 * i + 5] == ExtractionProgress(i, n)
    {
      assert Enrichment(n)[2 * i + 4] == Analysis(n)[2 * i] && Enrichment(n)[2 * i + 5] == Analysis(n)[2 * i + 1];
    }
  }

  lemma AnalysisIs(n: nat)
    ensures n == 0 ==> Analysis(n) == VALIDATION
    ensures n > 0 ==>
              && |Analysis(n)| == 2 * n + 11 && Analysis(n)[0] == Entered(Extraction) && Analysis(n)[1] == ExtractionStarted(n)
              && (forall i | 1 <= i <= n ::
                    Analysis(n)[2 * i] == NotCancelled && Analysis(n)[2 * i + 1] == ExtractionProgress(i, n))
              && Analysis(n)[2 * n + 2..] == AFTER_EXTRACTION
  {
    hide Progress;
    ProgressIs(n, n);
    if n > 0 {
      assert Analysis(n) == Extracting(n) + Progress(n, n) + AFTER_EXTRACTION;
      assert (Extracting(n) + Progress(n, n) + AFTER_EXTRACTION)[2 * n + 2..] == AFTER_EXTRACTION;
    }
  }

  /** While chunks are extracted, there are checks and reports. */
  lemma CountingSteps(n: nat, i: nat)
    requires 6 <= i < 2 * n + 6
    ensures i < |Enrichment(n)| && (Enrichment(n)[i] == NotCancelled || Enrichment(n)[i].ExtractionProgress?)
  {
    EnrichmentIs(n);
    hide Enrichment;
    var c := (i - 4) / 2;
    assert 1 <= c <= n && (i == 2 * c + 4 || i == 2 * c + 5);
    assert Enrichment(n)[2 * c + 4] == NotCancelled && Enrichment(n)[2 * c + 5] == ExtractionProgress(c, n);
  }

  lemma {:induction false} ProgressIs(done: nat, total: nat)
    ensures forall i | 1 <= i <= done ::
              Progress(done, total)[2 * i - 2] == NotCancelled && Progress(done, total)[2 * i - 1] == ExtractionProgress(i, total)
  {
    if done > 0 { ProgressIs(done - 1, total); }
  }

  /** What comes before the enrichment: the source is captured and stored, or read. */
  lemma FullRunIs(path: Path, n: nat)
    ensures FullRun(path, n) == FullRun(path, n)[..Ahead(path)] + Enrichment(n)
    ensures var ahead := FullRun(path, n)[..Ahead(path)];
      && (path == Heard ==>
            ahead == [Saved(MeetingRecord), ProcessingStarted, NotCancelled,
                      Entered(MediaProcessing), MediaProcessingStarted, MediaProcessingCompleted, NotCancelled,
                      Entered(Transcription), TranscriptionStarted, TranscriptionCompleted,
                      Saved(SourceText), NotCancelled])
      && (path == Given ==>
            ahead == [Saved(MeetingRecord), ProcessingStarted, NotCancelled, Saved(SourceText), NotCancelled])
      && (path == Earlier ==>
            ahead == [Loaded(MeetingRecord), Loaded(SourceText), ProcessingStarted, NotCancelled])
  {
    hide Enrichment;
    var all, enrichment := FullRun(path, n), Enrichment(n);
    match path
    case Heard =>
      CapturingIs(true);
      assert all == ([Saved(MeetingRecord)] + Capturing(true)) + enrichment;
      assert all[..12] == [Saved(MeetingRecord)] + Capturing(true);
    case Given =>
      CapturingIs(false);
      assert all == ([Saved(MeetingRecord)] + Capturing(false)) + enrichment;
      assert all[..5] == [Saved(MeetingRecord)] + Capturing(false);
    case Earlier =>
      assert all == (FETCHED + ANNOUNCED) + enrichment;
      assert all[..4] == FETCHED + ANNOUNCED;
  }

  lemma CapturingIs(audio: bool)
    ensures Capturing(audio) ==
              if audio then
                [ProcessingStarted, NotCancelled,
                 Entered(MediaProcessing), MediaProcessingStarted, MediaProcessingCompleted, NotCancelled,
                 Entered(Transcription), TranscriptionStarted, TranscriptionCompleted,
                 Saved(SourceText), NotCancelled]
              else [ProcessingStarted, NotCancelled, Saved(SourceText), NotCancelled]
  {
  }

  // ----- Steps between two moments -----

  /**
   * Between two moments all the expected steps were done; or those before the one at which the run stopped, with an
   * error that belongs to that step.
   */
  ghost predicate Sent(before: seq<Step>, after: seq<Step>, expected: seq<Step>, stop: Option<PipelineError>) {
    match stop
    case None => after == before + expected
    case Some(e) => exists k | 0 <= k < |expected| :: StoppedAt(before, after, expected, k, e)
  }

  ghost predicate StoppedAt(before: seq<Step>, after: seq<Step>, expected: seq<Step>, k: nat, e: PipelineError)
    requires k < |expected|
  {
    after == before + expected[..k] && MayFail(expected[k], e)
  }

  function Stop<T>(r: Result<T, PipelineError>): Option<PipelineError> {
    match r
    case Ok(_) => None
    case Err(e) => Some(e)
  }

  lemma SentAll(before: seq<Step>, expected: seq<Step>)
    ensures Sent(before, before + expected, expected, None)
  {
  }

  /** Nothing was done but the first step failed. */
  lemma SentNothing(before: seq<Step>, expected: seq<Step>, e: PipelineError)
    requires expected != [] && MayFail(expected[0], e)
    ensures Sent(before, before, expected, Some(e))
  {
    assert before + expected[..0] == before;
    assert StoppedAt(before, before, expected, 0, e);
  }

  /** A complete part followed by the next. */
  lemma SentThen(a: seq<Step>, b: seq<Step>, c: seq<Step>, first: seq<Step>, second: seq<Step>, stop: Option<PipelineError>)
    requires Sent(a, b, first, None) && Sent(b, c, second, stop)
    ensures Sent(a, c, first + second, stop)
  {
    if stop.None? {
      assert a + (first + second) == (a + first) + second;
    } else {
      var k :| 0 <= k < |second| && StoppedAt(b, c, second, k, stop.value);
      assert (first + second)[..|first| + k] == first + second[..k];
      assert a + (first + second[..k]) == (a + first) + second[..k];
      assert StoppedAt(a, c, first + second, |first| + k, stop.value);
    }
  }

  /** An incomplete part ends everything. */
  lemma SentStops(a: seq<Step>, b: seq<Step>, first: seq<Step>, second: seq<Step>, stop: Option<PipelineError>)
    requires stop.Some? ==> Sent(a, b, first, stop)
    ensures stop.Some? ==> Sent(a, b, first + second, stop)
  {
    if stop.Some? {
      var k :| 0 <= k < |first| && StoppedAt(a, b, first, k, stop.value);
      assert (first + second)[..k] == first[..k];
      assert StoppedAt(a, b, first + second, k, stop.value);
    }
  }

  /** What stopped did a prefix. */
  lemma SentIsPrefix(a: seq<Step>, b: seq<Step>, expected: seq<Step>, stop: Option<PipelineError>)
    requires Sent(a, b, expected, stop)
    ensures a <= b <= a + expected
  {
    if stop.Some? {
      var k :| 0 <= k < |expected| && StoppedAt(a, b, expected, k, stop.value);
      assert a + expected == a + expected[..k] + expected[k..];
    }
  }

  /** The last stage that was entered. */
  function LastStage(steps: seq<Step>): Option<JobStage> {
    if steps == [] then None
    else
      var last := steps[|steps| - 1];
      if last.Entered? then Some(last.stage) else LastStage(steps[..|steps| - 1])
  }

  /** No terminal event is among the steps of a full run. */
  lemma NoTerminalInside(path: Path, n: nat)
    ensures forall s | s in FullRun(path, n) :: s != JobCompleted && s != JobFailed
  {
    FullRunIs(path, n);
    hide FullRun, Enrichment;
    var all, k := FullRun(path, n), Ahead(path);
    forall s | s in all ensures s != JobCompleted && s != JobFailed {
      var i :| 0 <= i < |all| && all[i] == s;
      if i < k { assert all[i] == all[..k][i]; } else { NoTerminalInEnrichment(n, i - k); }
    }
  }

  lemma NoTerminalInEnrichment(n: nat, i: nat)
    requires i < |Enrichment(n)|
    ensures Enrichment(n)[i] != JobCompleted && Enrichment(n)[i] != JobFailed
  {
    EnrichmentIs(n);
    hide Enrichment;
    if 6 <= i < 2 * n + 6 { CountingSteps(n, i); }
  }

  /**
   * A progress report follows the check that follows the start of extraction, if it is the first, and else the report
   * with one chunk less; extraction is complete only after the report of the last chunk.
   */
  predicate InCount(steps: seq<Step>, n: nat, i: nat)
    requires i < |steps|
  {
    match steps[i]
    case ExtractionProgress(completed, total) =>
      1 <= completed <= total == n && i > 1 && steps[i - 1] == NotCancelled
      && steps[i - 2] == (if completed == 1 then ExtractionStarted(n) else ExtractionProgress(completed - 1, n))
    case ExtractionCompleted => i > 0 && steps[i - 1] == ExtractionProgress(n, n)
    case _ => true
  }

  lemma NotCounted(steps: seq<Step>, n: nat, i: nat)
    requires i < |steps| && !steps[i].ExtractionProgress? && !steps[i].ExtractionCompleted?
    ensures InCount(steps, n, i)
  {
  }

  lemma SameCount(a: seq<Step>, b: seq<Step>, n: nat, i: nat)
    requires a <= b && i < |a| && InCount(b, n, i)
    ensures InCount(a, n, i)
  {
  }

  lemma EnrichmentCounts(n: nat, i: nat)
    requires i < |Enrichment(n)|
    ensures InCount(Enrichment(n), n, i)
    ensures i < 2 ==> !Enrichment(n)[i].ExtractionProgress? && !Enrichment(n)[i].ExtractionCompleted?
  {
    EnrichmentIs(n);
    hide Enrichment;
    var es, m := Enrichment(n), if n == 0 then 0 else 2 * n + 8;
    if n > 0 && 6 <= i < 2 * n + 6 {
      var c := (i - 4) / 2;
      assert 1 <= c <= n && (i == 2 * c + 4 || i == 2 * c + 5);
      assert es[2 * c + 4] == NotCancelled && es[2 * c + 5] == ExtractionProgress(c, n);
      if i == 2 * c + 5 && c > 1 { assert es[2 * (c - 1) + 5] == ExtractionProgress(c - 1, n); }
    } else if n > 0 && i == 2 * n + 6 {
      assert es[2 * n + 5] == ExtractionProgress(n, n);
    } else {
      NotCounted(es, n, i);
    }
  }

  lemma FullRunCounts(path: Path, n: nat, i: nat)
    requires i < |FullRun(path, n)|
    ensures InCount(FullRun(path, n), n, i)
  {
    FullRunIs(path, n);
    hide FullRun, Enrichment, InCount;
    var all, k, es := FullRun(path, n), Ahead(path), Enrichment(n);
    if i < k {
      assert all[i] in all[..k];
      NotCounted(all, n, i);
    } else {
      EnrichmentCounts(n, i - k);
      assert all[i] == es[i - k];
      if i - k < 2 { NotCounted(all, n, i); } else { SameStep(es, all, n, i - k, k); }
    }
  }

  lemma SameStep(a: seq<Step>, b: seq<Step>, n: nat, i: nat, shift: nat)
    requires 1 < i < |a| && i + shift < |b| && InCount(a, n, i)
    requires a[i] == b[i + shift] && a[i - 1] == b[i + shift - 1] && a[i - 2] == b[i + shift - 2]
    ensures InCount(b, n, i + shift)
  {
  }

  /** The ranks of the stages in a full run, and of the closing one, only grow. */
  lemma StagesOnlyForward(path: Path, n: nat, i: nat, j: nat)
    requires i < j < |FullRun(path, n)| && FullRun(path, n)[i].Entered? && FullRun(path, n)[j].Entered?
    ensures Rank(FullRun(path, n)[i].stage) < Rank(FullRun(path, n)[j].stage) < Rank(Done)
  {
    FullRunIs(path, n);
    hide FullRun, Enrichment;
    var k := Ahead(path);
    StagesAhead(path, n, i);
    if j >= k { StagesOfEnrichment(n, j - k); } else { StagesAhead(path, n, j); }
    if i >= k { StagesOfEnrichment(n, i - k); }
  }

  lemma StageBeforeDone(path: Path, n: nat, i: nat)
    requires i < |FullRun(path, n)| && FullRun(path, n)[i].Entered?
    ensures Rank(FullRun(path, n)[i].stage) < Rank(Done)
  {
    FullRunIs(path, n);
    hide FullRun, Enrichment;
    if i < Ahead(path) { StagesAhead(path, n, i); } else { StagesOfEnrichment(n, i - Ahead(path)); }
  }

  /** Media processing and transcription, in this order, are the stages before the enrichment. */
  lemma StagesAhead(path: Path, n: nat, i: nat)
    requires i < |FullRun(path, n)|
    ensures i < Ahead(path) && FullRun(path, n)[i].Entered? ==>
              (i == 3 && FullRun(path, n)[i].stage == MediaProcessing) || (i == 7 && FullRun(path, n)[i].stage == Transcription)
  {
    FullRunIs(path, n);
    hide FullRun, Enrichment;
    var all, k := FullRun(path, n), Ahead(path);
    if i < k { assert all[i] == all[..k][i]; }
  }

  lemma StagesOfEnrichment(n: nat, i: nat)
    requires i < |Enrichment(n)| && Enrichment(n)[i].Entered?
    ensures var m := if n == 0 then 0 else 2 * n + 8;
      || (i == 0 && Enrichment(n)[i].stage == Chunking)
      || (n > 0 && i == 4 && Enrichment(n)[i].stage == Extraction)
      || (n > 0 && i == m && Enrichment(n)[i].stage == Synthesis)
      || (i == m + 4 && Enrichment(n)[i].stage == Validation)
      || (i == m + 8 && Enrichment(n)[i].stage == Rendering)
      || (i == m + 11 && Enrichment(n)[i].stage == Storing)
  {
    EnrichmentIs(n);
    hide Enrichment;
    if 6 <= i < 2 * n + 6 { CountingSteps(n, i); }
  }
}
