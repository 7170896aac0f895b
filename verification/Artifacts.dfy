/**
 * What the engine stores about meetings, and what must always hold of it
 * (engine/src/storage/database.rs, engine/src/domain/processing.rs, engine/src/ai/validation.rs).
 */
module Artifacts {
  import opened Domain
  import opened Text
  import opened WordSets
  import opened TranscriptChunking
  import opened Preprocess
  import opened Extraction
  import opened Synthesis
  import opened Provenance
  import opened Jobs

  /** The fixed surroundings of a pipeline: character facts, chunking configuration, the renderer. */
  datatype Rules = Rules(cs: Charset, maxChars: nat, contextChars: nat, render: (MeetingIr, string) -> string)

  datatype Meeting = Meeting(id: MeetingId, title: string, participants: seq<Participant>)

  datatype ProcessingState = Processing | Ready | Deferred | Failed

  datatype Store = Store(
    meetings: map<MeetingId, Meeting>,
    transcripts: map<MeetingId, Transcript>,
    irs: map<MeetingId, MeetingIr>,
    moms: map<MeetingId, string>,
    statuses: map<MeetingId, ProcessingState>)

  const EMPTY_STORE := Store(map[], map[], map[], map[], map[])

  // ----- Accepting a representation -----

  predicate TextsPresent(items: seq<Item>) {
    forall i | 0 <= i < |items| :: !Blank(items[i].text)
  }

  predicate ActionsPresent(items: seq<ActionItem>) {
    forall i | 0 <= i < |items| :: !Blank(items[i].description)
  }

  /** `validate`: nothing that must say something is blank. */
  predicate ValidIr(ir: MeetingIr) {
    && !Blank(ir.summary)
    && TextsPresent(ir.findings.decisions)
    && ActionsPresent(ir.findings.actions)
    && TextsPresent(ir.findings.topics) && TextsPresent(ir.findings.questions) && TextsPresent(ir.findings.risks)
  }

  const NOTHING_FOUND := Findings([], [], [], [], [])

  /** The representation of a meeting in which nothing was said. */
  const EMPTY_IR := MeetingIr("No transcript content was available to analyze.", [], NOTHING_FOUND)

  lemma EmptyIrIsValid()
    ensures ValidIr(EMPTY_IR)
  {
    assert EMPTY_IR.summary[|EMPTY_IR.summary| - 1] == '.';
  }

  /** Valid means: the summary says something, and so does every item of every kind. */
  lemma ValidMeansSaid(ir: MeetingIr)
    ensures ValidIr(ir) <==>
              Trim(ir.summary) != "" && forall kind, f | f in OfKind(ir.findings, kind) :: Trim(f.text) != ""
  {
    hide Blank, Trim;
    BlankIsTrimmed(ir.summary);
    forall kind, f | f in OfKind(ir.findings, kind) ensures Trim(f.text) == "" <==> Blank(f.text) {
      BlankIsTrimmed(f.text);
    }
    ItemsSay(ir.findings.topics);
    ItemsSay(ir.findings.decisions);
    ItemsSay(ir.findings.questions);
    ItemsSay(ir.findings.risks);
    ActionsSay(ir.findings.actions);
    hide TextsPresent, ActionsPresent, FromItems, FromActions;
    assert OfKind(ir.findings, Topics) == FromItems(ir.findings.topics);
    assert OfKind(ir.findings, Decisions) == FromItems(ir.findings.decisions);
    assert OfKind(ir.findings, Actions) == FromActions(ir.findings.actions);
    assert OfKind(ir.findings, Questions) == FromItems(ir.findings.questions);
    assert OfKind(ir.findings, Risks) == FromItems(ir.findings.risks);
  }

  lemma BlankIsTrimmed(s: string)
    ensures Trim(s) == "" <==> Blank(s)
  {
    hide Trim, Blank;
    assert Trim(s) == [] <==> Blank(s);
  }

  lemma ItemsSay(items: seq<Item>)
    ensures TextsPresent(items) <==> forall f | f in FromItems(items) :: !Blank(f.text)
  {
    hide Blank;
    var said := FromItems(items);
    assert forall i | 0 <= i < |items| :: said[i].text == items[i].text && said[i] in said;
    forall f | f in said && TextsPresent(items) ensures !Blank(f.text) {
      var i :| 0 <= i < |said| && said[i] == f;
    }
  }

  lemma ActionsSay(items: seq<ActionItem>)
    ensures ActionsPresent(items) <==> forall f | f in FromActions(items) :: !Blank(f.text)
  {
    hide Blank;
    var said := FromActions(items);
    assert forall i | 0 <= i < |items| :: said[i].text == items[i].description && said[i] in said;
    forall f | f in said && ActionsPresent(items) ensures !Blank(f.text) {
      var i :| 0 <= i < |said| && said[i] == f;
    }
  }

  /** Repairing a representation can neither spoil it for validation nor save it. */
  lemma ReconcilingKeepsValidity(cs: Charset, ir: MeetingIr, merged: Findings, transcript: Transcript)
    ensures ValidIr(Reconciled(cs, ir, merged, transcript)) <==> ValidIr(ir)
  {
    hide TextsPresent, Blank, Trim, ReconciledItems, ReconciledActions, Backfilled, TranscriptLower;
    hide SpeakerIds, ActionsPresent;
    ReconcilingKeepsTexts(cs, ir.findings.decisions, merged.decisions);
    ReconcilingKeepsTexts(cs, ir.findings.topics, merged.topics);
    ReconcilingKeepsTexts(cs, ir.findings.questions, merged.questions);
    ReconcilingKeepsTexts(cs, ir.findings.risks, merged.risks);
    ReconcilingKeepsDescriptions(cs, ir.findings.actions, merged.actions, TranscriptLower(cs, transcript));
    TrimIsBlankIff(ir.summary);
  }

  lemma TrimIsBlankIff(s: string)
    ensures Blank(Trim(s)) <==> Blank(s)
  {
    TrimTwice(s);
  }

  lemma ReconcilingKeepsDescriptions(cs: Charset, items: seq<ActionItem>, sources: seq<ActionItem>, transcriptLower: string)
    ensures ActionsPresent(ReconciledActions(cs, items, sources, transcriptLower)) <==> ActionsPresent(items)
  {
    hide Blank, Attached, ReconciledField, MatchingActions;
    assert forall i | 0 <= i < |items| ::
        ReconciledActions(cs, items, sources, transcriptLower)[i].description == items[i].description;
  }

  lemma ReconcilingKeepsTexts(cs: Charset, items: seq<Item>, sources: seq<Item>)
    ensures TextsPresent(ReconciledItems(cs, items, sources)) <==> TextsPresent(items)
  {
    hide Blank, Attached, Matched;
    assert forall i | 0 <= i < |items| :: ReconciledItems(cs, items, sources)[i].text == items[i].text;
  }

  /** What the models answered in one analysis, and the chunks they were asked about. */
  datatype Basis = Basis(chunks: seq<Chunk>, extracted: seq<Findings>, grounded: seq<Findings>, raw: MeetingIr)

  /** The findings were extracted from the chunks of this transcript and grounded in them. */
  ghost predicate GroundedIn(rules: Rules, transcript: Transcript, b: Basis) {
    && IsChunking(Normalized(transcript), rules.maxChars, rules.contextChars, b.chunks)
    && |b.extracted| == |b.grounded| == |b.chunks|
    && forall i | 0 <= i < |b.chunks| :: FindingsGrounded(rules.cs, b.chunks[i], b.extracted[i], b.grounded[i])
  }

  ghost predicate DerivedBy(rules: Rules, ir: MeetingIr, transcript: Transcript, b: Basis) {
    GroundedIn(rules, transcript, b) && ir == Reconciled(rules.cs, b.raw, MergedFrom(b.grounded), Normalized(transcript))
  }

  /** A representation the engine may store for a transcript. */
  ghost predicate Accepted(rules: Rules, ir: MeetingIr, transcript: Transcript) {
    && ValidIr(ir)
    && ((Normalized(transcript) == [] && ir == EMPTY_IR) || exists b :: DerivedBy(rules, ir, transcript, b))
  }

  lemma GroundedFindings(rules: Rules, transcript: Transcript, b: Basis)
    requires IsChunking(Normalized(transcript), rules.maxChars, rules.contextChars, b.chunks)
    requires |b.extracted| == |b.grounded| == |b.chunks|
    requires forall i | 0 <= i < |b.chunks| :: FindingsGrounded(rules.cs, b.chunks[i], b.extracted[i], b.grounded[i])
    ensures GroundedIn(rules, transcript, b)
  {
    hide IsChunking, FindingsGrounded, Normalized;
  }

  lemma DerivedIsAccepted(rules: Rules, ir: MeetingIr, transcript: Transcript, b: Basis)
    requires DerivedBy(rules, ir, transcript, b)
    ensures ValidIr(ir) ==> Accepted(rules, ir, transcript)
  {
    hide DerivedBy, ValidIr, Normalized;
  }

  /**
   * What acceptance means for a reader. Every owner and deadline was said by a similar finding of some
   * chunk of this very transcript or by the transcript. Every item that resembles a finding rests on
   * evidence of similar findings, all of it traceable, none of it twice, and every quote in it is the
   * model's own, a verbatim best-matching segment of its chunk of this transcript, or empty.
   */
  lemma AcceptedInventsNothing(rules: Rules, ir: MeetingIr, transcript: Transcript) returns (b: Basis)
    requires Accepted(rules, ir, transcript) && Normalized(transcript) != []
    ensures GroundedIn(rules, transcript, b) && FindingsTraceable(MergedFrom(b.grounded))
    ensures PartsOf(Normalized(transcript), b.chunks)
    ensures forall i | 0 <= i < |ir.findings.actions| ::
              NothingInvented(rules.cs, ir.findings.actions[i], MergedFrom(b.grounded).actions, Normalized(transcript))
    ensures EvidenceFounded(rules.cs, b, ir)
  {
    hide FindingsGrounded, FindingsTraceable, Reconciled, NothingInvented, IsChunking, Normalized, MergedFrom;
    hide ValidIr, AllFounded;
    b :| DerivedBy(rules, ir, transcript, b);
    forall i | 0 <= i < |b.grounded| ensures FindingsTraceable(b.grounded[i]) {
      StampedFindingsAreTraceable(rules.cs, b.chunks[i], b.extracted[i], b.grounded[i]);
    }
    MergedIsTraceable(b.grounded);
    ChunksArePartsOf(rules, Normalized(transcript), b.chunks);
    NoActionInvented(rules.cs, b.raw, MergedFrom(b.grounded), Normalized(transcript));
    forall kind ensures AllFounded(rules.cs, b.chunks, b.extracted, b.grounded, kind, b.raw.findings, ir.findings) {
      ReconciledIsFounded(rules.cs, b.chunks, b.extracted, b.grounded, kind, b.raw, Normalized(transcript));
    }
  }

  /** Every chunk's segments are a stretch of the transcript. */
  ghost predicate PartsOf(normalized: Transcript, chunks: seq<Chunk>) {
    forall k | 0 <= k < |chunks| ::
      && chunks[k].segmentStart < chunks[k].segmentEnd <= |normalized|
      && chunks[k].segments == normalized[chunks[k].segmentStart..chunks[k].segmentEnd]
  }

  lemma ChunksArePartsOf(rules: Rules, normalized: Transcript, chunks: seq<Chunk>)
    requires IsChunking(normalized, rules.maxChars, rules.contextChars, chunks)
    ensures PartsOf(normalized, chunks)
  {
    hide IsChunking;
    forall k | 0 <= k < |chunks|
      ensures chunks[k].segmentStart < chunks[k].segmentEnd <= |normalized|
      ensures chunks[k].segments == normalized[chunks[k].segmentStart..chunks[k].segmentEnd]
    {
      EveryChunkFits(normalized, rules.maxChars, rules.contextChars, chunks, k);
    }
  }

  /** Of every kind, the evidence of every item is founded. */
  ghost predicate EvidenceFounded(cs: Charset, b: Basis, ir: MeetingIr) {
    |b.chunks| == |b.extracted|
    && forall kind :: AllFounded(cs, b.chunks, b.extracted, b.grounded, kind, b.raw.findings, ir.findings)
  }

  lemma NoActionInvented(cs: Charset, raw: MeetingIr, merged: Findings, normalized: Transcript)
    ensures var actions := Reconciled(cs, raw, merged, normalized).findings.actions;
      forall i | 0 <= i < |actions| :: NothingInvented(cs, actions[i], merged.actions, normalized)
  {
    hide ReconciledAction, NothingInvented, ReconciledItems, Backfilled, SpeakerIds, TranscriptLower, Trim;
    var actions := Reconciled(cs, raw, merged, normalized).findings.actions;
    forall i | 0 <= i < |actions| ensures NothingInvented(cs, actions[i], merged.actions, normalized) {
      ReconciledInventsNothing(cs, raw.findings.actions[i], merged.actions, normalized);
    }
  }

  // ----- The invariant -----

  ghost predicate StatusTold(s: Store, m: MeetingId)
    requires m in s.statuses
  {
    && (s.statuses[m] == Processing ==> m in s.transcripts)
    && (s.statuses[m] == Ready ==> m in s.meetings && m in s.transcripts && m in s.irs && m in s.moms)
  }

  /**
   * Processing means the source is stored, Ready means every artifact is; every representation was
   * accepted for its own transcript; no meeting has an id not yet minted.
   */
  ghost predicate Sound(rules: Rules, s: Store, minted: MeetingId) {
    && (forall m | m in s.statuses :: StatusTold(s, m))
    && (forall m | m in s.irs :: m in s.transcripts && Accepted(rules, s.irs[m], s.transcripts[m]))
    && (forall m | m in s.transcripts :: m in s.meetings)
    && (forall m | m in s.meetings :: s.meetings[m].id == m < minted)
  }

  /** Nothing that was captured is lost: transcripts never change, and no artifact disappears. */
  ghost predicate Keeps(s: Store, t: Store) {
    && (forall m | m in s.transcripts :: m in t.transcripts && t.transcripts[m] == s.transcripts[m])
    && s.meetings.Keys <= t.meetings.Keys && s.irs.Keys <= t.irs.Keys && s.moms.Keys <= t.moms.Keys
  }

  lemma KeepsTransitive(s: Store, t: Store, u: Store)
    requires Keeps(s, t) && Keeps(t, u)
    ensures Keeps(s, u)
  {
  }

  /** The stores hold the same about a meeting. */
  ghost predicate SameAbout(s: Store, t: Store, m: MeetingId) {
    && (m in s.meetings <==> m in t.meetings) && (m in s.meetings ==> s.meetings[m] == t.meetings[m])
    && (m in s.transcripts <==> m in t.transcripts) && (m in s.transcripts ==> s.transcripts[m] == t.transcripts[m])
    && (m in s.irs <==> m in t.irs) && (m in s.irs ==> s.irs[m] == t.irs[m])
    && (m in s.moms <==> m in t.moms) && (m in s.moms ==> s.moms[m] == t.moms[m])
    && (m in s.statuses <==> m in t.statuses) && (m in s.statuses ==> s.statuses[m] == t.statuses[m])
  }

  /** The stores agree about every meeting but one. */
  ghost predicate OnlyMeeting(s: Store, t: Store, id: MeetingId) {
    forall m | m != id :: SameAbout(s, t, m)
  }

  // ----- Who wrote what -----

  /**
   * A record of who wrote what since the run that is looked at began: the store as that run's own
   * writes alone would have left it, the meetings other runs wrote anything about, those other runs
   * added, and those the run itself added; and whether there are no other runs.
   */
  datatype Log = Log(own: Store, theirs: set<MeetingId>, added: set<MeetingId>, created: set<MeetingId>, alone: bool)

  /** What others did not write about is as the run itself left it. */
  ghost predicate Attributed(s: Store, log: Log) {
    (forall m | m !in log.theirs :: SameAbout(s, log.own, m)) && log.added + log.created <= s.meetings.Keys
  }

  function FreshLog(s: Store, alone: bool): Log {
    Log(s, {}, {}, {}, alone)
  }

  /**
   * Nothing captured is lost, every meeting that is new was added by somebody on record, and nobody
   * else is on record for a run that has the store to itself.
   */
  ghost predicate Proceeds(s: Store, a: Log, t: Store, b: Log) {
    && Keeps(s, t) && a.theirs <= b.theirs && a.added <= b.added && a.created <= b.created
    && t.meetings.Keys <= s.meetings.Keys + b.added + b.created
    && b.alone == a.alone && (a.alone ==> b.theirs == a.theirs && b.added == a.added)
  }

  lemma ProceedsTransitive(s: Store, a: Log, t: Store, b: Log, u: Store, c: Log)
    requires Proceeds(s, a, t, b) && Proceeds(t, b, u, c)
    ensures Proceeds(s, a, u, c)
  {
    KeepsTransitive(s, t, u);
  }

  lemma StillThere(s: Store, a: Log, t: Store, b: Log, id: MeetingId)
    requires Proceeds(s, a, t, b)
    ensures id in s.meetings ==> id in t.meetings
    ensures id in s.transcripts ==> id in t.transcripts && t.transcripts[id] == s.transcripts[id]
    ensures (id in s.irs ==> id in t.irs) && (id in s.moms ==> id in t.moms)
  {
  }

  datatype Write =
    | MeetingWrite(meeting: Meeting)
    | TranscriptWrite(id: MeetingId, transcript: Transcript)
    | IrWrite(id: MeetingId, ir: MeetingIr)
    | MomWrite(id: MeetingId, mom: string)
    | StatusWrite(id: MeetingId, state: ProcessingState)

  function Apply(s: Store, w: Write): Store {
    match w
    case MeetingWrite(meeting) => s.(meetings := s.meetings[meeting.id := meeting])
    case TranscriptWrite(id, transcript) => s.(transcripts := s.transcripts[id := transcript])
    case IrWrite(id, ir) => s.(irs := s.irs[id := ir])
    case MomWrite(id, mom) => s.(moms := s.moms[id := mom])
    case StatusWrite(id, state) => s.(statuses := s.statuses[id := state])
  }

  function Created(s: Store, w: Write): set<MeetingId> {
    if w.MeetingWrite? && w.meeting.id !in s.meetings then {w.meeting.id} else {}
  }

  /** The run itself writes, to the store and on the record. */
  function Own(s: Store, log: Log, w: Write): Log {
    log.(own := Apply(log.own, w), created := log.created + Created(s, w))
  }

  lemma OwnWrite(s: Store, log: Log, w: Write)
    requires Attributed(s, log) && Keeps(s, Apply(s, w))
    ensures Attributed(Apply(s, w), Own(s, log, w)) && Proceeds(s, log, Apply(s, w), Own(s, log, w))
    ensures Own(s, log, w).alone == log.alone
  {
    hide Keeps;
    forall m | m !in log.theirs ensures SameAbout(Apply(s, w), Apply(log.own, w), m) {
      assert SameAbout(s, log.own, m);
    }
    OwnKeys(s, w);
  }

  lemma OwnKeys(s: Store, w: Write)
    ensures Apply(s, w).meetings.Keys == s.meetings.Keys + Created(s, w)
  {
  }

  /** Another run writes about a meeting. */
  lemma TheirWrite(s: Store, log: Log, t: Store, id: MeetingId, adds: bool)
    requires Attributed(s, log) && Keeps(s, t) && OnlyMeeting(s, t, id) && (adds ==> id in t.meetings) && !log.alone
    requires t.meetings.Keys <= s.meetings.Keys + if adds then {id} else {}
    ensures var now := log.(theirs := log.theirs + {id}, added := log.added + if adds then {id} else {});
      Attributed(t, now) && Proceeds(s, log, t, now)
  {
    forall m | m !in log.theirs + {id} ensures SameAbout(t, log.own, m) {
      assert SameAbout(s, log.own, m) && SameAbout(s, t, m);
    }
  }

  lemma SameStores(s: Store, id: MeetingId)
    ensures OnlyMeeting(s, s, id) && Keeps(s, s)
  {
  }

  lemma StatusStaysAllowed(s: Store, t: Store, id: MeetingId, state: ProcessingState)
    requires Keeps(s, t) && StatusAllowed(s, id, state)
    ensures StatusAllowed(t, id, state)
  {
  }

  lemma WritingMeeting(rules: Rules, s: Store, minted: MeetingId, meeting: Meeting)
    requires Sound(rules, s, minted) && meeting.id < minted
    ensures var t := s.(meetings := s.meetings[meeting.id := meeting]);
      Sound(rules, t, minted) && Keeps(s, t) && OnlyMeeting(s, t, meeting.id)
  {
    hide Accepted;
    var t := s.(meetings := s.meetings[meeting.id := meeting]);
    forall m | m in t.statuses ensures StatusTold(t, m) { assert StatusTold(s, m); }
  }

  lemma WritingTranscript(rules: Rules, s: Store, minted: MeetingId, id: MeetingId, transcript: Transcript)
    requires Sound(rules, s, minted) && id in s.meetings && id !in s.transcripts
    ensures var t := s.(transcripts := s.transcripts[id := transcript]);
      Sound(rules, t, minted) && Keeps(s, t) && OnlyMeeting(s, t, id)
  {
    hide Accepted;
    var t := s.(transcripts := s.transcripts[id := transcript]);
    forall m | m in t.statuses ensures StatusTold(t, m) { assert StatusTold(s, m); }
  }

  lemma WritingIr(rules: Rules, s: Store, minted: MeetingId, id: MeetingId, ir: MeetingIr)
    requires Sound(rules, s, minted) && id in s.transcripts && Accepted(rules, ir, s.transcripts[id])
    ensures var t := s.(irs := s.irs[id := ir]);
      Sound(rules, t, minted) && Keeps(s, t) && OnlyMeeting(s, t, id)
  {
    hide Accepted;
    var t := s.(irs := s.irs[id := ir]);
    forall m | m in t.statuses ensures StatusTold(t, m) { assert StatusTold(s, m); }
  }

  lemma WritingMom(rules: Rules, s: Store, minted: MeetingId, id: MeetingId, mom: string)
    requires Sound(rules, s, minted)
    ensures var t := s.(moms := s.moms[id := mom]);
      Sound(rules, t, minted) && Keeps(s, t) && OnlyMeeting(s, t, id)
  {
    hide Accepted;
    var t := s.(moms := s.moms[id := mom]);
    forall m | m in t.statuses ensures StatusTold(t, m) { assert StatusTold(s, m); }
  }

  /** When a status may be written about a meeting. */
  predicate StatusAllowed(s: Store, id: MeetingId, state: ProcessingState) {
    && (state == Processing ==> id in s.transcripts)
    && (state == Ready ==> id in s.meetings && id in s.transcripts && id in s.irs && id in s.moms)
  }

  lemma WritingStatus(rules: Rules, s: Store, minted: MeetingId, id: MeetingId, state: ProcessingState)
    requires Sound(rules, s, minted) && StatusAllowed(s, id, state)
    ensures var t := s.(statuses := s.statuses[id := state]);
      Sound(rules, t, minted) && Keeps(s, t) && OnlyMeeting(s, t, id)
  {
    hide Accepted;
    var t := s.(statuses := s.statuses[id := state]);
    forall m | m in t.statuses ensures StatusTold(t, m) { if m != id { assert StatusTold(s, m); } }
  }

  lemma MintingKeepsSound(rules: Rules, s: Store, minted: MeetingId, more: MeetingId)
    requires Sound(rules, s, minted) && minted <= more
    ensures Sound(rules, s, more) && Keeps(s, s)
  {
    hide Accepted, StatusTold;
  }
}
