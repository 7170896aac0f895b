/** Grounding of extracted findings in the transcript (engine/src/ai/extraction.rs, findings.rs). */
module Extraction {
  import opened Domain
  import opened Text
  import opened WordSets
  import opened TranscriptChunking

  /** Where a claim comes from: the chunk and a time span. */
  predicate Traceable(ev: Evidence) {
    ev.chunkId.Some? && ev.start.Some? && ev.end.Some?
  }

  ghost predicate AllTraceable(evidence: seq<Evidence>) {
    evidence != [] && forall i | 0 <= i < |evidence| :: Traceable(evidence[i])
  }

  /** A segment quoted verbatim. */
  function QuoteOf(seg: Segment, chunkId: string): Evidence {
    Evidence(seg.text, seg.speaker, Some(seg.start), Some(seg.end), Some(chunkId))
  }

  /** Of the first n segments, i is the earliest that shares the most words with the text, and shares some. */
  ghost predicate BestOf(cs: Charset, itemText: string, segments: seq<Segment>, n: nat, i: nat)
    requires i < n <= |segments|
  {
    && Overlap(cs, segments[i].text, itemText) > 0
    && (forall j | 0 <= j < n :: Overlap(cs, segments[j].text, itemText) <= Overlap(cs, segments[i].text, itemText))
    && (forall j | 0 <= j < i :: Overlap(cs, segments[j].text, itemText) < Overlap(cs, segments[i].text, itemText))
  }

  ghost predicate IsBest(cs: Charset, itemText: string, segments: seq<Segment>, i: nat)
    requires i < |segments|
  {
    BestOf(cs, itemText, segments, |segments|, i)
  }

  method BestSegment(cs: Charset, itemText: string, chunk: Chunk) returns (r: Option<Evidence>, ghost at: nat)
    ensures r.Some? ==> at < |chunk.segments| && IsBest(cs, itemText, chunk.segments, at)
                        && r.value == QuoteOf(chunk.segments[at], chunk.id)
    ensures r.None? ==> forall j | 0 <= j < |chunk.segments| :: Overlap(cs, chunk.segments[j].text, itemText) == 0
  {
    hide WordSet, Shared;
    at := 0;
    r := None;
    var needle := WordSet(cs, itemText);
    if needle == {} {
      NoNeedle(cs, itemText);
      return;
    }
    var best: Option<(nat, Segment)> := None;
    for i := 0 to |chunk.segments|
      invariant best.None? ==> forall j | 0 <= j < i :: Overlap(cs, chunk.segments[j].text, itemText) == 0
      invariant best.Some? ==> at < i && BestOf(cs, itemText, chunk.segments, i, at)
                               && best.value == (Overlap(cs, chunk.segments[at].text, itemText), chunk.segments[at])
    {
      var seg := chunk.segments[i];
      var overlap := Shared(cs, seg.text, needle);
      if overlap == 0 {
        continue;
      }
      if best.None? || overlap > best.value.0 {
        best := Some((overlap, seg));
        at := i;
      }
    }
    if best.Some? {
      r := Some(QuoteOf(best.value.1, chunk.id));
    }
  }

  lemma NoNeedle(cs: Charset, itemText: string)
    requires WordSet(cs, itemText) == {}
    ensures forall s: string :: Overlap(cs, s, itemText) == 0
  {
  }

  /** The model's quote is kept; only missing provenance is filled in. */
  function Stamped(ev: Evidence, chunk: Chunk): (r: Evidence)
    ensures Traceable(r) && r.quote == ev.quote && r.speaker == ev.speaker
  {
    ev.(chunkId := ev.chunkId.Or(Some(chunk.id)), start := ev.start.Or(Some(chunk.start)), end := ev.end.Or(Some(chunk.end)))
  }

  predicate HasQuote(evidence: seq<Evidence>) {
    exists i | 0 <= i < |evidence| :: !Blank(evidence[i].quote)
  }

  /** No quote, no speaker: only the chunk's range. */
  function Marker(chunk: Chunk): Evidence {
    Evidence("", None, Some(chunk.start), Some(chunk.end), Some(chunk.id))
  }

  /**
   * What grounding may make of an item's evidence: the model's own quotes with provenance filled in,
   * or the best matching segment quoted verbatim, or a marker when no segment shares a word.
   */
  ghost predicate IsGrounding(cs: Charset, itemText: string, chunk: Chunk, before: seq<Evidence>, after: seq<Evidence>) {
    if HasQuote(before) then
      |after| == |before| && forall i | 0 <= i < |before| :: after[i] == Stamped(before[i], chunk)
    else
      |after| == 1 &&
      ((exists i | 0 <= i < |chunk.segments| ::
          IsBest(cs, itemText, chunk.segments, i) && after[0] == QuoteOf(chunk.segments[i], chunk.id))
       || (after[0] == Marker(chunk)
           && forall j | 0 <= j < |chunk.segments| :: Overlap(cs, chunk.segments[j].text, itemText) == 0))
  }

  method Ground(cs: Charset, evidence: seq<Evidence>, itemText: string, chunk: Chunk) returns (grounded: seq<Evidence>)
    ensures IsGrounding(cs, itemText, chunk, evidence, grounded)
  {
    hide Overlap, Blank;
    if HasQuote(evidence) {
      grounded := evidence;
      for i := 0 to |evidence|
        invariant |grounded| == |evidence|
        invariant forall k | 0 <= k < i :: grounded[k] == Stamped(evidence[k], chunk)
        invariant forall k | i <= k < |evidence| :: grounded[k] == evidence[k]
      {
        grounded := grounded[i := Stamped(grounded[i], chunk)];
      }
      return;
    }
    var best;
    ghost var at;
    best, at := BestSegment(cs, itemText, chunk);
    match best {
      case Some(ev) => grounded := [ev];
      case None => grounded := [Marker(chunk)];
    }
  }

  /** After grounding every item has evidence, all of it traceable to a chunk and a time span. */
  lemma GroundedIsTraceable(cs: Charset, itemText: string, chunk: Chunk, before: seq<Evidence>, after: seq<Evidence>)
    requires IsGrounding(cs, itemText, chunk, before, after)
    ensures AllTraceable(after)
    ensures after != [] && forall i | 0 <= i < |after| :: after[i].chunkId.Some? && after[i].start.Some? && after[i].end.Some?
  {
    hide Overlap, Blank, IsBest;
  }

  /**
   * A piece of evidence is the model's own with missing provenance filled in, or quotes verbatim, with
   * its speaker and times, a segment of the chunk of maximal word overlap, or is empty but for the
   * chunk's range, for want of any overlap.
   */
  ghost predicate Honest(cs: Charset, itemText: string, chunk: Chunk, before: seq<Evidence>, ev: Evidence) {
    || (exists j | 0 <= j < |before| :: ev == Stamped(before[j], chunk))
    || (exists i | 0 <= i < |chunk.segments| ::
          IsBest(cs, itemText, chunk.segments, i) && ev == QuoteOf(chunk.segments[i], chunk.id))
    || (ev == Marker(chunk) && forall j | 0 <= j < |chunk.segments| :: Overlap(cs, chunk.segments[j].text, itemText) == 0)
  }

  lemma NoFabricatedQuote(cs: Charset, itemText: string, chunk: Chunk, before: seq<Evidence>, after: seq<Evidence>, i: nat)
    requires IsGrounding(cs, itemText, chunk, before, after) && i < |after|
    ensures Honest(cs, itemText, chunk, before, after[i])
  {
    hide Overlap, Blank, IsBest;
    if HasQuote(before) {
      assert after[i] == Stamped(before[i], chunk);
    }
  }

  /** The words that two texts share. */
  ghost function Common(cs: Charset, a: string, b: string): set<string> {
    WordSet(cs, a) * WordSet(cs, b)
  }

  /** The model's evidence with whatever it said about the place, and the chunk's place where it said nothing. */
  ghost predicate PlaceFilledIn(chunk: Chunk, before: Evidence, after: Evidence) {
    && after.quote == before.quote && after.speaker == before.speaker
    && (before.chunkId.Some? ==> after.chunkId == before.chunkId) && (before.chunkId.None? ==> after.chunkId == Some(chunk.id))
    && (before.start.Some? ==> after.start == before.start) && (before.start.None? ==> after.start == Some(chunk.start))
    && (before.end.Some? ==> after.end == before.end) && (before.end.None? ==> after.end == Some(chunk.end))
  }

  /** Segment `k` is the first of those that share the most words with the text, and it shares one. */
  ghost predicate SharesMost(cs: Charset, itemText: string, segments: seq<Segment>, k: nat) {
    && k < |segments| && Common(cs, segments[k].text, itemText) != {}
    && (forall j | 0 <= j < |segments| :: |Common(cs, segments[j].text, itemText)| <= |Common(cs, segments[k].text, itemText)|)
    && (forall j | 0 <= j < k :: |Common(cs, segments[j].text, itemText)| < |Common(cs, segments[k].text, itemText)|)
  }

  /** When one of the model's quotes says something, all of its evidence is kept, and only places are filled in. */
  lemma QuotesAreKept(cs: Charset, itemText: string, chunk: Chunk, before: seq<Evidence>, after: seq<Evidence>, i: nat)
    requires IsGrounding(cs, itemText, chunk, before, after) && i < |before| && Trim(before[i].quote) != ""
    ensures |after| == |before| && forall k | 0 <= k < |before| :: PlaceFilledIn(chunk, before[k], after[k])
  {
    hide Overlap, IsBest, Blank, Trim;
    assert Trim(before[i].quote) == [] <==> Blank(before[i].quote);
  }

  lemma NothingQuoted(before: seq<Evidence>)
    requires forall i | 0 <= i < |before| :: Trim(before[i].quote) == ""
    ensures !HasQuote(before)
  {
    hide Blank, Trim;
    forall i | 0 <= i < |before| ensures Blank(before[i].quote) {
      assert Trim(before[i].quote) == [] <==> Blank(before[i].quote);
    }
  }

  /** When none does, the first segment that shares the most words with the item is quoted, with its speaker and times. */
  lemma BestIsQuoted(cs: Charset, itemText: string, chunk: Chunk, before: seq<Evidence>, after: seq<Evidence>, k: nat)
    requires IsGrounding(cs, itemText, chunk, before, after)
    requires (forall i | 0 <= i < |before| :: Trim(before[i].quote) == "") && SharesMost(cs, itemText, chunk.segments, k)
    ensures var seg := chunk.segments[k];
      after == [Evidence(seg.text, seg.speaker, Some(seg.start), Some(seg.end), Some(chunk.id))]
  {
    NothingQuoted(before);
    OverlapCounts(cs, itemText, chunk.segments);
    forall i | 0 <= i < |chunk.segments| && IsBest(cs, itemText, chunk.segments, i) ensures i == k {
      BestIsMost(cs, itemText, chunk.segments, k, i);
    }
    hide WordSet, HasQuote, IsBest, Overlap, Common;
  }

  lemma BestIsMost(cs: Charset, itemText: string, segments: seq<Segment>, k: nat, i: nat)
    requires SharesMost(cs, itemText, segments, k) && i < |segments| && IsBest(cs, itemText, segments, i)
    ensures i == k
  {
    OverlapCounts(cs, itemText, segments);
    hide Overlap, Common;
  }

  /** When no segment shares a word either, nothing is quoted, and only the chunk's place is given. */
  lemma NothingIsQuoted(cs: Charset, itemText: string, chunk: Chunk, before: seq<Evidence>, after: seq<Evidence>)
    requires IsGrounding(cs, itemText, chunk, before, after)
    requires forall i | 0 <= i < |before| :: Trim(before[i].quote) == ""
    requires forall j | 0 <= j < |chunk.segments| :: Common(cs, chunk.segments[j].text, itemText) == {}
    ensures after == [Evidence("", None, Some(chunk.start), Some(chunk.end), Some(chunk.id))]
  {
    NothingQuoted(before);
    hide WordSet, HasQuote;
    OverlapCounts(cs, itemText, chunk.segments);
    hide Overlap;
  }

  lemma OverlapCounts(cs: Charset, itemText: string, segments: seq<Segment>)
    ensures forall j | 0 <= j < |segments| ::
              && Overlap(cs, segments[j].text, itemText) == |Common(cs, segments[j].text, itemText)|
              && (Overlap(cs, segments[j].text, itemText) == 0 <==> Common(cs, segments[j].text, itemText) == {})
  {
    hide WordSet;
  }

  /** One of these is always the case: where any segment shares a word, one is the first that shares the most. */
  lemma {:induction false} SomeSharesMost(cs: Charset, itemText: string, segments: seq<Segment>) returns (k: nat)
    ensures SharesMost(cs, itemText, segments, k)
              || forall j | 0 <= j < |segments| :: Common(cs, segments[j].text, itemText) == {}
  {
    hide Common;
    k := 0;
    if segments != [] {
      var n := |segments| - 1;
      k := SomeSharesMost(cs, itemText, segments[..n]);
      var last := Common(cs, segments[n].text, itemText);
      if last != {} && (!SharesMost(cs, itemText, segments[..n], k) || |last| > |Common(cs, segments[k].text, itemText)|) {
        k := n;
      }
    }
  }

  // ----- All findings of a chunk -----

  ghost predicate ItemsGrounded(cs: Charset, chunk: Chunk, before: seq<Item>, after: seq<Item>) {
    |after| == |before| && forall i | 0 <= i < |before| ::
      && after[i].text == before[i].text && after[i].note == before[i].note
      && IsGrounding(cs, before[i].text, chunk, before[i].evidence, after[i].evidence)
  }

  ghost predicate ActionsGrounded(cs: Charset, chunk: Chunk, before: seq<ActionItem>, after: seq<ActionItem>) {
    |after| == |before| && forall i | 0 <= i < |before| ::
      && after[i] == before[i].(evidence := after[i].evidence)
      && IsGrounding(cs, before[i].description, chunk, before[i].evidence, after[i].evidence)
  }

  ghost predicate FindingsGrounded(cs: Charset, chunk: Chunk, before: Findings, after: Findings) {
    && ItemsGrounded(cs, chunk, before.topics, after.topics)
    && ItemsGrounded(cs, chunk, before.decisions, after.decisions)
    && ActionsGrounded(cs, chunk, before.actions, after.actions)
    && ItemsGrounded(cs, chunk, before.questions, after.questions)
    && ItemsGrounded(cs, chunk, before.risks, after.risks)
  }

  method GroundItems(cs: Charset, items: seq<Item>, chunk: Chunk) returns (grounded: seq<Item>)
    ensures ItemsGrounded(cs, chunk, items, grounded)
  {
    hide IsGrounding;
    grounded := items;
    for i := 0 to |items|
      invariant |grounded| == |items|
      invariant forall k | 0 <= k < i ::
          && grounded[k].text == items[k].text && grounded[k].note == items[k].note
          && IsGrounding(cs, items[k].text, chunk, items[k].evidence, grounded[k].evidence)
      invariant forall k | i <= k < |items| :: grounded[k] == items[k]
    {
      var evidence := Ground(cs, grounded[i].evidence, grounded[i].text, chunk);
      grounded := grounded[i := grounded[i].(evidence := evidence)];
    }
  }

  method GroundActions(cs: Charset, items: seq<ActionItem>, chunk: Chunk) returns (grounded: seq<ActionItem>)
    ensures ActionsGrounded(cs, chunk, items, grounded)
  {
    hide IsGrounding;
    grounded := items;
    for i := 0 to |items|
      invariant |grounded| == |items|
      invariant forall k | 0 <= k < i ::
          && grounded[k] == items[k].(evidence := grounded[k].evidence)
          && IsGrounding(cs, items[k].description, chunk, items[k].evidence, grounded[k].evidence)
      invariant forall k | i <= k < |items| :: grounded[k] == items[k]
    {
      var evidence := Ground(cs, grounded[i].evidence, grounded[i].description, chunk);
      grounded := grounded[i := grounded[i].(evidence := evidence)];
    }
  }

  method StampProvenance(cs: Charset, findings: Findings, chunk: Chunk) returns (stamped: Findings)
    ensures FindingsGrounded(cs, chunk, findings, stamped)
  {
    hide ItemsGrounded, ActionsGrounded;
    stamped := findings;
    var items := GroundItems(cs, stamped.decisions, chunk);
    stamped := stamped.(decisions := items);
    var actions := GroundActions(cs, stamped.actions, chunk);
    stamped := stamped.(actions := actions);
    items := GroundItems(cs, stamped.topics, chunk);
    stamped := stamped.(topics := items);
    items := GroundItems(cs, stamped.questions, chunk);
    stamped := stamped.(questions := items);
    items := GroundItems(cs, stamped.risks, chunk);
    stamped := stamped.(risks := items);
  }

  ghost predicate ItemsTraceable(items: seq<Item>) {
    forall i | 0 <= i < |items| :: AllTraceable(items[i].evidence)
  }

  ghost predicate ActionsTraceable(items: seq<ActionItem>) {
    forall i | 0 <= i < |items| :: AllTraceable(items[i].evidence)
  }

  /** Every finding has evidence and every piece of evidence is traceable. */
  ghost predicate FindingsTraceable(f: Findings) {
    && ItemsTraceable(f.topics) && ItemsTraceable(f.decisions) && ActionsTraceable(f.actions)
    && ItemsTraceable(f.questions) && ItemsTraceable(f.risks)
  }

  lemma StampedFindingsAreTraceable(cs: Charset, chunk: Chunk, before: Findings, after: Findings)
    requires FindingsGrounded(cs, chunk, before, after)
    ensures FindingsTraceable(after)
  {
    hide AllTraceable;
    GroundedItemsAreTraceable(cs, chunk, before.topics, after.topics);
    GroundedItemsAreTraceable(cs, chunk, before.decisions, after.decisions);
    GroundedItemsAreTraceable(cs, chunk, before.questions, after.questions);
    GroundedItemsAreTraceable(cs, chunk, before.risks, after.risks);
    forall i | 0 <= i < |after.actions| ensures AllTraceable(after.actions[i].evidence) {
      GroundedIsTraceable(cs, before.actions[i].description, chunk, before.actions[i].evidence, after.actions[i].evidence);
    }
  }

  lemma GroundedItemsAreTraceable(cs: Charset, chunk: Chunk, before: seq<Item>, after: seq<Item>)
    requires ItemsGrounded(cs, chunk, before, after)
    ensures ItemsTraceable(after)
  {
    hide AllTraceable, IsGrounding;
    forall i | 0 <= i < |after| ensures AllTraceable(after[i].evidence) {
      GroundedIsTraceable(cs, before[i].text, chunk, before[i].evidence, after[i].evidence);
    }
  }

  // ----- Merging the chunks' findings -----

  function MergedFrom(findings: seq<Findings>): Findings {
    if findings == [] then Findings([], [], [], [], [])
    else
      var n := |findings| - 1;
      var m, f := MergedFrom(findings[..n]), findings[n];
      Findings(m.topics + f.topics, m.decisions + f.decisions, m.actions + f.actions,
               m.questions + f.questions, m.risks + f.risks)
  }

  method FromChunks(findings: seq<Findings>) returns (merged: Findings)
    ensures merged == MergedFrom(findings)
  {
    merged := Findings([], [], [], [], []);
    for i := 0 to |findings|
      invariant merged == MergedFrom(findings[..i])
    {
      var f := findings[i];
      assert findings[..i + 1][..i] == findings[..i];
      merged := Findings(merged.topics + f.topics, merged.decisions + f.decisions, merged.actions + f.actions,
                         merged.questions + f.questions, merged.risks + f.risks);
    }
    assert findings[..|findings|] == findings;
  }

  lemma {:induction false} MergedIsTraceable(findings: seq<Findings>)
    requires forall i | 0 <= i < |findings| :: FindingsTraceable(findings[i])
    ensures FindingsTraceable(MergedFrom(findings))
  {
    hide AllTraceable;
    if findings != [] {
      MergedIsTraceable(findings[..|findings| - 1]);
    }
  }

  function Parts<T>(findings: seq<Findings>, part: Findings -> seq<T>): (r: seq<seq<T>>)
    ensures |r| == |findings| && forall i | 0 <= i < |r| :: r[i] == part(findings[i])
  {
    seq(|findings|, i requires 0 <= i < |findings| => part(findings[i]))
  }

  lemma PartsGrow<T>(findings: seq<Findings>, part: Findings -> seq<T>)
    ensures findings == [] ==> Concat(Parts(findings, part)) == []
    ensures findings != [] ==>
              Concat(Parts(findings, part)) == Concat(Parts(findings[..|findings| - 1], part)) + part(findings[|findings| - 1])
  {
    if findings != [] {
      assert Parts(findings, part)[..|findings| - 1] == Parts(findings[..|findings| - 1], part);
    }
  }

  /** Kind by kind, the merged findings are those of the chunks, one chunk after the other. */
  lemma {:induction false} MergedAre(findings: seq<Findings>)
    ensures MergedFrom(findings).topics == Concat(Parts(findings, (f: Findings) => f.topics))
    ensures MergedFrom(findings).decisions == Concat(Parts(findings, (f: Findings) => f.decisions))
    ensures MergedFrom(findings).actions == Concat(Parts(findings, (f: Findings) => f.actions))
    ensures MergedFrom(findings).questions == Concat(Parts(findings, (f: Findings) => f.questions))
    ensures MergedFrom(findings).risks == Concat(Parts(findings, (f: Findings) => f.risks))
  {
    hide Concat, Parts;
    PartsGrow(findings, (f: Findings) => f.topics);
    PartsGrow(findings, (f: Findings) => f.decisions);
    PartsGrow(findings, (f: Findings) => f.actions);
    PartsGrow(findings, (f: Findings) => f.questions);
    PartsGrow(findings, (f: Findings) => f.risks);
    if findings != [] { MergedAre(findings[..|findings| - 1]); }
  }
}
