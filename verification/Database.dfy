/** The meeting store and the models as the orchestrator meets them: shared, and able to fail. */
module Databases {
  import opened Domain
  import opened WordSets
  import opened TranscriptChunking
  import opened Preprocess
  import opened Extraction
  import opened Synthesis
  import opened Jobs
  import opened Artifacts
  import opened Events

  /** The two model passes with their deterministic repair (engine/src/ai/mod.rs). */
  class Analyzer {
    const cs: Charset
    /** The models answer every time, and what they answer is complete. */
    const steady: bool

    constructor (cs: Charset, steady: bool)
      ensures this.cs == cs && this.steady == steady
    {
      this.cs, this.steady := cs, steady;
    }

    /** Whatever the model answers, what comes out is grounded in the chunk. */
    method ExtractChunk(chunk: Chunk) returns (r: Result<Findings, PipelineError>, ghost model: Findings)
      ensures r.Ok? ==> FindingsGrounded(cs, chunk, model, r.value)
      ensures (steady ==> r.Ok?) && (r.Err? ==> r.error == Ai || r.error == Crash)
    {
      var answers: bool, crash: bool := *, *;
      var decoded: Findings := *;
      model := decoded;
      if !answers && !steady {
        return Err(if crash then Crash else Ai), model;
      }
      var stamped := StampProvenance(cs, decoded, chunk);
      r := Ok(stamped);
    }

    /** Whatever the model answers, what comes out is reconciled with findings and transcript. */
    method Synthesize(findings: seq<Findings>, normalized: Transcript)
      returns (r: Result<MeetingIr, PipelineError>, ghost raw: MeetingIr)
      ensures r.Ok? ==> r.value == Reconciled(cs, raw, MergedFrom(findings), normalized)
      ensures (steady ==> r.Ok? && ValidIr(r.value)) && (r.Err? ==> r.error == Ai || r.error == Crash)
    {
      hide ValidIr, Reconciled, MergedFrom;
      var answers: bool, crash: bool := *, *;
      var decoded: MeetingIr := *;
      if steady && !ValidIr(decoded) {
        decoded := EMPTY_IR;
        EmptyIrIsValid();
      }
      raw := decoded;
      if !answers && !steady {
        return Err(if crash then Crash else Ai), raw;
      }
      var merged := FromChunks(findings);
      var ir := Reconcile(cs, decoded, merged, normalized);
      ReconcilingKeepsValidity(cs, decoded, merged, normalized);
      r := Ok(ir);
    }
  }

  /** A write takes effect if it succeeds; if it fails or the process dies, it may or may not have. */
  ghost predicate Written(before: Store, written: Store, after: Store, ok: bool) {
    after == written || (!ok && after == before)
  }

  lemma AllowedAfter(s: Store, a: Log, t: Store, b: Log, id: MeetingId, state: ProcessingState)
    requires Proceeds(s, a, t, b) && StatusAllowed(s, id, state)
    ensures StatusAllowed(t, id, state)
  {
    StatusStaysAllowed(s, t, id, state);
  }

  class Database {
    const rules: Rules
    /** There are no other runs. */
    const alone: bool
    /** No statement fails and the process does not end. */
    const steady: bool
    /** Writing a status never fails. */
    const recording: bool
    var data: Store
    var minted: MeetingId
    /** Who wrote what since the run that is looked at began. */
    ghost var log: Log

    constructor (rules: Rules, alone: bool, steady: bool, recording: bool)
      ensures Valid() && data == EMPTY_STORE && log == FreshLog(data, alone)
      ensures this.rules == rules && this.alone == alone && this.steady == steady && this.recording == (recording || steady)
    {
      this.rules, this.alone, this.steady, this.recording := rules, alone, steady, recording || steady;
      data, minted, log := EMPTY_STORE, 0, FreshLog(EMPTY_STORE, alone);
    }

    /** From here on the record is about one run. */
    ghost method Attend()
      requires Valid()
      modifies this`log
      ensures Valid() && log == FreshLog(data, alone)
    {
      log := FreshLog(data, alone);
    }

    ghost predicate Valid()
      reads this
    {
      Sound(rules, data, minted) && Attributed(data, log) && log.alone == alone && (steady ==> recording)
    }

    /** `MeetingId::new`. */
    method Mint() returns (id: MeetingId)
      requires Valid()
      modifies this`minted
      ensures Valid() && id == old(minted) < minted
      ensures id !in data.meetings && id !in data.transcripts
    {
      hide Accepted, StatusTold;
      id := minted;
      minted := minted + 1;
    }

    /**
     * What other runs may do to the store at any await: anything a run does, except saving the
     * transcript of a meeting minted by the run that waits.
     */
    method Others(mine: set<MeetingId>)
      requires Valid()
      modifies this`data, this`minted, this`log
      ensures Valid() && Proceeds(old(data), old(log), data, log) && old(minted) <= minted
      ensures forall m | m in mine && m !in old(data).transcripts :: m !in data.transcripts
      ensures log.own == old(log.own) && log.created == old(log.created)
    {
      var steps: nat := *;
      while !alone && steps > 0
        invariant Valid() && Proceeds(old(data), old(log), data, log) && old(minted) <= minted
        invariant forall m | m in mine && m !in old(data).transcripts :: m !in data.transcripts
        invariant log.own == old(log.own) && log.created == old(log.created)
      {
        hide Sound, Proceeds, Attributed;
        ghost var before, log0 := data, log;
        var id: MeetingId := *;
        OtherStep(mine, id);
        ProceedsTransitive(old(data), old(log), before, log0, data, log);
        steps := steps - 1;
      }
    }

    /** One write of another run. */
    method OtherStep(mine: set<MeetingId>, id: MeetingId)
      requires Valid() && !alone
      modifies this`data, this`minted, this`log
      ensures Valid() && Proceeds(old(data), old(log), data, log) && old(minted) <= minted
      ensures forall m | m in mine && m !in old(data).transcripts :: m !in data.transcripts
      ensures log.own == old(log.own) && log.created == old(log.created)
    {
      hide Sound, Attributed, SameAbout, StatusTold, Accepted;
      ghost var before, log0 := data, log;
      var adds := OtherWrite(mine, id);
      log := log.(theirs := log.theirs + {id}, added := log.added + if adds then {id} else {});
      TheirWrite(before, log0, data, id, adds);
    }

    method OtherWrite(mine: set<MeetingId>, id: MeetingId) returns (adds: bool)
      requires Sound(rules, data, minted)
      modifies this`data, this`minted
      ensures Sound(rules, data, minted) && Keeps(old(data), data) && old(minted) <= minted
      ensures OnlyMeeting(old(data), data, id) && (adds ==> id in data.meetings)
      ensures data.meetings.Keys <= old(data).meetings.Keys + if adds then {id} else {}
      ensures forall m | m in mine && m !in old(data).transcripts :: m !in data.transcripts
    {
      hide Accepted, StatusTold, SameAbout;
      SameStores(data, id);
      adds := false;
      var choice: nat := *;
      if choice == 0 {
        var state: ProcessingState := *;
        if StatusAllowed(data, id, state) {
          WritingStatus(rules, data, minted, id, state);
          data := data.(statuses := data.statuses[id := state]);
        }
      } else if id >= minted {
        MintingKeepsSound(rules, data, minted, id + 1);
        minted := id + 1;
      } else if choice == 1 {
        var title: string, participants: seq<Participant> := *, *;
        WritingMeeting(rules, data, minted, Meeting(id, title, participants));
        data := data.(meetings := data.meetings[id := Meeting(id, title, participants)]);
        adds := true;
      } else if choice == 2 && id in data.meetings && id !in data.transcripts && id !in mine {
        var transcript: Transcript := *;
        WritingTranscript(rules, data, minted, id, transcript);
        data := data.(transcripts := data.transcripts[id := transcript]);
      } else if choice == 3 && id in data.transcripts {
        var ir := Derive(data.transcripts[id]);
        if ValidIr(ir) {
          WritingIr(rules, data, minted, id, ir);
          data := data.(irs := data.irs[id := ir]);
        }
      } else {
        var mom: string := *;
        WritingMom(rules, data, minted, id, mom);
        data := data.(moms := data.moms[id := mom]);
      }
    }

    /** An analysis by another run, whose models may answer anything. */
    method Derive(transcript: Transcript) returns (ir: MeetingIr)
      ensures ValidIr(ir) ==> Accepted(rules, ir, transcript)
    {
      hide IsChunking, GroundedIn, Normalized, ValidIr, MergedFrom, Reconciled, Concatenated;
      var normalized, chunks := Prepare(transcript, rules.maxChars, rules.contextChars);
      var grounded;
      ghost var extracted;
      grounded, extracted := DeriveFindings(chunks);
      var raw: MeetingIr := *;
      var merged := FromChunks(grounded);
      ir := Reconcile(rules.cs, raw, merged, normalized);
      ghost var b := Basis(chunks, extracted, grounded, raw);
      GroundedFindings(rules, transcript, b);
      DerivedIsAccepted(rules, ir, transcript, b);
    }

    method DeriveFindings(chunks: seq<Chunk>) returns (grounded: seq<Findings>, ghost extracted: seq<Findings>)
      ensures |extracted| == |grounded| == |chunks|
      ensures forall k | 0 <= k < |chunks| :: FindingsGrounded(rules.cs, chunks[k], extracted[k], grounded[k])
    {
      hide FindingsGrounded;
      extracted, grounded := [], [];
      for i := 0 to |chunks|
        invariant |extracted| == |grounded| == i
        invariant forall k | 0 <= k < i :: FindingsGrounded(rules.cs, chunks[k], extracted[k], grounded[k])
      {
        var decoded: Findings := *;
        var stamped := StampProvenance(rules.cs, decoded, chunks[i]);
        extracted, grounded := extracted + [decoded], grounded + [stamped];
      }
    }

    // ----- The operations of a run -----

    /** The write itself, in the store and on the record. */
    method Commit(ghost data0: Store, ghost log0: Log, w: Write)
      requires Attributed(data, log) && log.alone == alone && Proceeds(data0, log0, data, log) && (steady ==> recording)
      requires Sound(rules, Apply(data, w), minted) && Keeps(data, Apply(data, w))
      modifies this`data, this`log
      ensures data == Apply(old(data), w) && log == Own(old(data), old(log), w)
      ensures Valid() && Proceeds(data0, log0, data, log)
    {
      hide Sound, Attributed, Proceeds, Keeps, Apply, Own;
      OwnWrite(data, log, w);
      ProceedsTransitive(data0, log0, data, log, Apply(data, w), Own(data, log, w));
      log := Own(data, log, w);
      data := Apply(data, w);
    }

    method SaveMeeting(mine: set<MeetingId>, meeting: Meeting) returns (r: Result<(), PipelineError>)
      requires Valid() && meeting.id < minted
      modifies this`data, this`minted, this`log
      ensures Valid() && Proceeds(old(data), old(log), data, log) && old(minted) <= minted
      ensures forall m | m in mine && m !in old(data).transcripts :: m !in data.transcripts
      ensures r.Ok? ==> meeting.id in data.meetings
      ensures Written(old(log.own), old(log.own).(meetings := old(log.own).meetings[meeting.id := meeting]), log.own, r.Ok?)
      ensures old(log.created) <= log.created <= old(log.created) + if
                meeting.id in old(data).meetings then {} else {meeting.id}
      ensures (steady ==> r.Ok?) && (r.Err? ==> r.error == Storage || r.error == Crash)
    {
      hide Sound, Accepted, Attributed, Proceeds, Keeps, SameAbout;
      Others(mine);
      StillThere(old(data), old(log), data, log, meeting.id);
      WritingMeeting(rules, data, minted, meeting);
      var works: bool, crash: bool, done: bool := *, *, *;
      var ok := works || steady;
      if ok || done {
        Commit(old(data), old(log), MeetingWrite(meeting));
      }
      r := if ok then Ok(()) else Err(if crash then Crash else Storage);
    }

    method SaveTranscript(id: MeetingId, transcript: Transcript) returns (r: Result<(), PipelineError>)
      requires Valid() && id in data.meetings && id !in data.transcripts
      modifies this`data, this`minted, this`log
      ensures Valid() && Proceeds(old(data), old(log), data, log) && old(minted) <= minted
      ensures r.Ok? ==> id in data.transcripts && data.transcripts[id] == transcript
      ensures Written(old(log.own), old(log.own).(transcripts := old(log.own).transcripts[id := transcript]), log.own, r.Ok?)
      ensures log.created == old(log.created)
      ensures (steady ==> r.Ok?) && (r.Err? ==> r.error == Storage || r.error == Crash)
    {
      hide Sound, Accepted, Attributed, Proceeds, Keeps, SameAbout;
      Others({id});
      StillThere(old(data), old(log), data, log, id);
      WritingTranscript(rules, data, minted, id, transcript);
      var works: bool, crash: bool, done: bool := *, *, *;
      var ok := works || steady;
      if ok || done {
        Commit(old(data), old(log), TranscriptWrite(id, transcript));
      }
      r := if ok then Ok(()) else Err(if crash then Crash else Storage);
    }

    method SaveIr(id: MeetingId, ir: MeetingIr) returns (r: Result<(), PipelineError>)
      requires Valid() && id in data.transcripts && Accepted(rules, ir, data.transcripts[id])
      modifies this`data, this`minted, this`log
      ensures Valid() && Proceeds(old(data), old(log), data, log) && old(minted) <= minted
      ensures r.Ok? ==> id in data.irs
      ensures Written(old(log.own), old(log.own).(irs := old(log.own).irs[id := ir]), log.own, r.Ok?)
      ensures log.created == old(log.created)
      ensures (steady ==> r.Ok?) && (r.Err? ==> r.error == Storage || r.error == Crash)
    {
      hide Sound, Accepted, Attributed, Proceeds, Keeps, SameAbout;
      Others({});
      StillThere(old(data), old(log), data, log, id);
      WritingIr(rules, data, minted, id, ir);
      var works: bool, crash: bool, done: bool := *, *, *;
      var ok := works || steady;
      if ok || done {
        Commit(old(data), old(log), IrWrite(id, ir));
      }
      r := if ok then Ok(()) else Err(if crash then Crash else Storage);
    }

    method SaveMom(id: MeetingId, mom: string) returns (r: Result<(), PipelineError>)
      requires Valid()
      modifies this`data, this`minted, this`log
      ensures Valid() && Proceeds(old(data), old(log), data, log) && old(minted) <= minted
      ensures r.Ok? ==> id in data.moms
      ensures Written(old(log.own), old(log.own).(moms := old(log.own).moms[id := mom]), log.own, r.Ok?)
      ensures log.created == old(log.created)
      ensures (steady ==> r.Ok?) && (r.Err? ==> r.error == Storage || r.error == Crash)
    {
      hide Sound, Accepted, Attributed, Proceeds, Keeps, SameAbout;
      Others({});
      WritingMom(rules, data, minted, id, mom);
      var works: bool, crash: bool, done: bool := *, *, *;
      var ok := works || steady;
      if ok || done {
        Commit(old(data), old(log), MomWrite(id, mom));
      }
      r := if ok then Ok(()) else Err(if crash then Crash else Storage);
    }

    /** `persist_status`: best effort, never an error. */
    method PersistStatus(mine: set<MeetingId>, id: MeetingId, state: ProcessingState)
      requires Valid() && StatusAllowed(data, id, state)
      modifies this`data, this`minted, this`log
      ensures Valid() && Proceeds(old(data), old(log), data, log) && old(minted) <= minted
      ensures forall m | m in mine && m !in old(data).transcripts :: m !in data.transcripts
      ensures Written(old(log.own), old(log.own).(statuses := old(log.own).statuses[id := state]), log.own, false)
      ensures log.created == old(log.created)
      ensures recording ==> log.own == old(log.own).(statuses := old(log.own).statuses[id := state])
    {
      hide Sound, Accepted, Attributed, Proceeds, Keeps, SameAbout, StatusAllowed;
      Others(mine);
      AllowedAfter(old(data), old(log), data, log, id, state);
      WritingStatus(rules, data, minted, id, state);
      var ok: bool := *;
      if ok || recording {
        Commit(old(data), old(log), StatusWrite(id, state));
      }
    }

    method GetMeeting(id: MeetingId) returns (r: Result<Option<Meeting>, PipelineError>)
      requires Valid()
      modifies this`data, this`minted, this`log
      ensures Valid() && Proceeds(old(data), old(log), data, log) && old(minted) <= minted
      ensures log.own == old(log.own) && log.created == old(log.created)
      ensures r.Ok? ==> r.value == if id in data.meetings then Some(data.meetings[id]) else None
      ensures steady ==> r.Ok?
      ensures r.Err? ==> r.error == Storage || r.error == Crash
    {
      Others({});
      var ok: bool, crash: bool := *, *;
      r := if !ok && !steady then Err(if crash then Crash else Storage)
           else Ok(if id in data.meetings then Some(data.meetings[id]) else None);
    }

    method GetTranscript(id: MeetingId) returns (r: Result<Option<Transcript>, PipelineError>)
      requires Valid()
      modifies this`data, this`minted, this`log
      ensures Valid() && Proceeds(old(data), old(log), data, log) && old(minted) <= minted
      ensures log.own == old(log.own) && log.created == old(log.created)
      ensures r.Ok? ==> r.value == if id in data.transcripts then Some(data.transcripts[id]) else None
      ensures steady ==> r.Ok?
      ensures r.Err? ==> r.error == Storage || r.error == Crash
    {
      Others({});
      var ok: bool, crash: bool := *, *;
      r := if !ok && !steady then Err(if crash then Crash else Storage)
           else Ok(if id in data.transcripts then Some(data.transcripts[id]) else None);
    }
  }
}
