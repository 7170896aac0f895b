/** Deterministic reconciliation of a synthesized meeting representation (engine/src/ai/synthesis.rs). */
module Synthesis {
  import opened Domain
  import opened Text
  import opened WordSets
  import opened Extraction

  // ----- Evidence -----

  /** The identity under which evidence is deduplicated. */
  function KeyOf(ev: Evidence): (string, string) {
    (ev.quote, ev.chunkId.GetOr(""))
  }

  function KeysOf(evidence: seq<Evidence>): set<(string, string)> {
    set ev | ev in evidence :: KeyOf(ev)
  }

  /** The first piece of evidence of every key, in order. */
  function Deduplicated(evidence: seq<Evidence>): seq<Evidence> {
    if evidence == [] then []
    else
      var n := |evidence| - 1;
      var r := Deduplicated(evidence[..n]);
      if KeyOf(evidence[n]) in KeysOf(evidence[..n]) then r else r + [evidence[n]]
  }

  function Attached(target: seq<Evidence>, found: seq<Evidence>): seq<Evidence> {
    if found == [] then target else Deduplicated(found)
  }

  method Attach(target: seq<Evidence>, found: seq<Evidence>) returns (r: seq<Evidence>)
    ensures r == Attached(target, found)
  {
    if found == [] {
      return target;
    }
    var seen: set<(string, string)> := {};
    var deduped := [];
    for i := 0 to |found|
      invariant seen == KeysOf(found[..i])
      invariant deduped == Deduplicated(found[..i])
    {
      var ev := found[i];
      assert found[..i + 1] == found[..i] + [ev];
      if KeyOf(ev) !in seen {
        seen := seen + {KeyOf(ev)};
        deduped := deduped + [ev];
      }
    }
    assert found[..|found|] == found;
    r := deduped;
  }

  ghost predicate DistinctKeys(evidence: seq<Evidence>) {
    forall i, j | 0 <= i < j < |evidence| :: KeyOf(evidence[i]) != KeyOf(evidence[j])
  }

  /** Deduplication repeats no key, loses none, and invents no evidence. */
  lemma {:induction false} DeduplicationIsSound(evidence: seq<Evidence>)
    ensures DistinctKeys(Deduplicated(evidence))
    ensures KeysOf(Deduplicated(evidence)) == KeysOf(evidence)
    ensures forall ev | ev in Deduplicated(evidence) :: ev in evidence
    ensures evidence != [] ==> Deduplicated(evidence) != []
  {
    hide KeyOf;
    if evidence != [] {
      var n := |evidence| - 1;
      DeduplicationIsSound(evidence[..n]);
      var r, ev := Deduplicated(evidence[..n]), evidence[n];
      assert evidence == evidence[..n] + [ev];
      assert KeysOf(evidence) == KeysOf(evidence[..n]) + {KeyOf(ev)};
      if KeyOf(ev) !in KeysOf(evidence[..n]) {
        forall i | 0 <= i < |r| ensures KeyOf(r[i]) != KeyOf(ev) {
          assert KeyOf(r[i]) in KeysOf(r);
        }
        assert KeysOf(r + [ev]) == KeysOf(r) + {KeyOf(ev)};
      }
    }
  }

  /** The same words from the same chunk; no chunk counts as the chunk without a name. */
  predicate SameEvidence(a: Evidence, b: Evidence) {
    a.quote == b.quote && a.chunkId.GetOr("") == b.chunkId.GetOr("")
  }

  /** `r` is what `places` select of the evidence: the first piece of every kind, in order. */
  ghost predicate FirstOfEach(evidence: seq<Evidence>, r: seq<Evidence>, places: seq<nat>) {
    && |places| == |r| && (forall k | 0 <= k < |r| :: places[k] < |evidence| && r[k] == evidence[places[k]])
    && (forall k, l | 0 <= k < l < |r| :: places[k] < places[l])
    && (forall k, i | 0 <= k < |r| && 0 <= i < places[k] :: !SameEvidence(evidence[i], r[k]))
    && (forall i | 0 <= i < |evidence| :: HasSame(r, evidence[i]))
  }

  ghost predicate HasSame(r: seq<Evidence>, ev: Evidence) {
    exists k | 0 <= k < |r| :: SameEvidence(ev, r[k])
  }

  /** Deduplication keeps the first piece of every kind, in order. */
  lemma {:induction false} DeduplicatedAre(evidence: seq<Evidence>) returns (places: seq<nat>)
    ensures FirstOfEach(evidence, Deduplicated(evidence), places)
  {
    places := [];
    if evidence != [] {
      var n := |evidence| - 1;
      var ev := evidence[n];
      var r := Deduplicated(evidence[..n]);
      places := DeduplicatedAre(evidence[..n]);
      assert evidence == evidence[..n] + [ev];
      if KeyOf(ev) in KeysOf(evidence[..n]) {
        var e :| e in evidence[..n] && KeyOf(e) == KeyOf(ev);
        SameAgain(evidence[..n], r, places, e, ev);
        NothingNew(evidence[..n], r, places, ev);
      } else {
        NothingSame(evidence[..n], ev);
        OneMore(evidence[..n], r, places, ev);
        places := places + [n];
      }
    }
  }

  lemma SameAgain(evidence: seq<Evidence>, r: seq<Evidence>, places: seq<nat>, e: Evidence, ev: Evidence)
    requires FirstOfEach(evidence, r, places) && e in evidence && SameEvidence(e, ev)
    ensures HasSame(r, ev)
  {
    assert HasSame(r, e);
  }

  lemma NothingSame(evidence: seq<Evidence>, ev: Evidence)
    requires KeyOf(ev) !in KeysOf(evidence)
    ensures forall i | 0 <= i < |evidence| :: !SameEvidence(evidence[i], ev)
  {
    forall i | 0 <= i < |evidence| ensures !SameEvidence(evidence[i], ev) {
      assert KeyOf(evidence[i]) in KeysOf(evidence);
    }
  }

  lemma NothingNew(evidence: seq<Evidence>, r: seq<Evidence>, places: seq<nat>, ev: Evidence)
    requires FirstOfEach(evidence, r, places) && HasSame(r, ev)
    ensures FirstOfEach(evidence + [ev], r, places)
  {
    hide SameEvidence, HasSame;
  }

  lemma OneMore(evidence: seq<Evidence>, r: seq<Evidence>, places: seq<nat>, ev: Evidence)
    requires FirstOfEach(evidence, r, places)
    requires forall i | 0 <= i < |evidence| :: !SameEvidence(evidence[i], ev)
    ensures FirstOfEach(evidence + [ev], r + [ev], places + [|evidence|])
  {
    var r' := r + [ev];
    forall e | HasSame(r, e) || e == ev ensures HasSame(r', e) {
      if e == ev {
        assert r'[|r|] == ev;
      } else {
        var k :| 0 <= k < |r| && SameEvidence(e, r[k]);
        assert r'[k] == r[k];
      }
    }
    hide SameEvidence, HasSame;
  }

  /** The evidence of all sources whose text is similar to the needle, in order. */
  function Matched(cs: Charset, needle: string, sources: seq<Item>): seq<Evidence> {
    if sources == [] then []
    else
      var n := |sources| - 1;
      Matched(cs, needle, sources[..n]) + if Similar(cs, needle, sources[n].text) then sources[n].evidence else []
  }

  method MatchedEvidence(cs: Charset, needle: string, sources: seq<Item>) returns (out: seq<Evidence>)
    ensures out == Matched(cs, needle, sources)
  {
    hide Similar;
    out := [];
    for i := 0 to |sources|
      invariant out == Matched(cs, needle, sources[..i])
    {
      assert sources[..i + 1][..i] == sources[..i];
      if Similar(cs, needle, sources[i].text) {
        out := out + sources[i].evidence;
      }
    }
    assert sources[..|sources|] == sources;
  }

  function ReconciledItem(cs: Charset, item: Item, sources: seq<Item>): Item {
    item.(evidence := Attached(item.evidence, Matched(cs, item.text, sources)))
  }

  function ReconciledItems(cs: Charset, items: seq<Item>, sources: seq<Item>): (r: seq<Item>)
    ensures |r| == |items|
  {
    seq(|items|, i requires 0 <= i < |items| => ReconciledItem(cs, items[i], sources))
  }

  method ReattachItems(cs: Charset, items: seq<Item>, sources: seq<Item>) returns (r: seq<Item>)
    ensures r == ReconciledItems(cs, items, sources)
  {
    hide Attached, Matched;
    r := items;
    for i := 0 to |items|
      invariant |r| == |items|
      invariant forall k | 0 <= k < i :: r[k] == ReconciledItem(cs, items[k], sources)
      invariant forall k | i <= k < |items| :: r[k] == items[k]
    {
      var found := MatchedEvidence(cs, r[i].text, sources);
      var evidence := Attach(r[i].evidence, found);
      r := r[i := r[i].(evidence := evidence)];
    }
  }

  // ----- Owners and deadlines -----

  function MatchingActions(cs: Charset, description: string, sources: seq<ActionItem>): seq<ActionItem> {
    if sources == [] then []
    else
      var n := |sources| - 1;
      MatchingActions(cs, description, sources[..n]) + if Similar(cs, description,
                      sources[n].description) then [sources[n]] else []
  }

  lemma {:induction false} MatchingActionsAre(cs: Charset, description: string, sources: seq<ActionItem>, s: ActionItem)
    ensures s in MatchingActions(cs, description, sources) <==> s in sources && Similar(cs, description, s.description)
  {
    hide Similar;
    if sources != [] {
      var n := |sources| - 1;
      MatchingActionsAre(cs, description, sources[..n], s);
      assert sources == sources[..n] + [sources[n]];
    }
  }

  function AllEvidence(sources: seq<ActionItem>): seq<Evidence> {
    if sources == [] then []
    else AllEvidence(sources[..|sources| - 1]) + sources[|sources| - 1].evidence
  }

  function Owners(sources: seq<ActionItem>): (r: seq<Option<string>>)
    ensures |r| == |sources|
  {
    seq(|sources|, i requires 0 <= i < |sources| => sources[i].owner)
  }

  function Deadlines(sources: seq<ActionItem>): (r: seq<Option<string>>)
    ensures |r| == |sources|
  {
    seq(|sources|, i requires 0 <= i < |sources| => sources[i].deadline)
  }

  /** `find_map`: the first field that is present. */
  function FirstField(fields: seq<Option<string>>): (r: Option<string>)
    ensures r.Some? ==> r in fields
  {
    if fields == [] then None else fields[0].Or(FirstField(fields[1..]))
  }

  /** A source carried the same value, up to surrounding space and ASCII case. */
  predicate Stated(value: string, fields: seq<Option<string>>) {
    exists i | 0 <= i < |fields| :: fields[i].Some? && EqIgnoreAsciiCase(Trim(fields[i].value), Trim(value))
  }

  /** What lets a value pass: it says something, and a source or the transcript says it too. */
  predicate Supported(cs: Charset, value: string, fields: seq<Option<string>>, transcriptLower: string) {
    !Blank(value) && (Stated(value, fields) || Contains(transcriptLower, cs.lower(Trim(value))))
  }

  function GuardField(cs: Charset, value: Option<string>, fields: seq<Option<string>>,
                      transcriptLower: string): (r: Option<string>)
    ensures r.Some? ==> r == value && Supported(cs, r.value, fields, transcriptLower)
    ensures r.None? ==> value.None? || !Supported(cs, value.value, fields, transcriptLower)
  {
    if value.None? then None
    else
      var v := Trim(value.value);
      if v == "" then None
      else if Stated(value.value, fields) || Contains(transcriptLower, cs.lower(v)) then value
      else None
  }

  /** A field of an action item after reconciliation: the model's value, else a finding's, if supported. */
  function ReconciledField(cs: Charset, value: Option<string>, fields: seq<Option<string>>,
                           transcriptLower: string): Option<string> {
    GuardField(cs, value.Or(FirstField(fields)), fields, transcriptLower)
  }

  function ReconciledAction(cs: Charset, a: ActionItem, findings: seq<ActionItem>, transcriptLower: string): ActionItem {
    var sources := MatchingActions(cs, a.description, findings);
    a.(evidence := Attached(a.evidence, AllEvidence(sources)),
       owner := ReconciledField(cs, a.owner, Owners(sources), transcriptLower),
       deadline := ReconciledField(cs, a.deadline, Deadlines(sources), transcriptLower))
  }

  function ReconciledActions(cs: Charset, actions: seq<ActionItem>, findings: seq<ActionItem>,
                             transcriptLower: string): (r: seq<ActionItem>)
    ensures |r| == |actions|
  {
    seq(|actions|, i requires 0 <= i < |actions| => ReconciledAction(cs, actions[i], findings, transcriptLower))
  }

  method Sources(cs: Charset, description: string, findings: seq<ActionItem>) returns (sources: seq<ActionItem>)
    ensures sources == MatchingActions(cs, description, findings)
  {
    hide Similar;
    sources := [];
    for i := 0 to |findings|
      invariant sources == MatchingActions(cs, description, findings[..i])
    {
      assert findings[..i + 1][..i] == findings[..i];
      if Similar(cs, description, findings[i].description) {
        sources := sources + [findings[i]];
      }
    }
    assert findings[..|findings|] == findings;
  }

  method ReconcileActions(cs: Charset, actions: seq<ActionItem>, findings: seq<ActionItem>, transcriptLower: string)
    returns (r: seq<ActionItem>)
    ensures r == ReconciledActions(cs, actions, findings, transcriptLower)
  {
    hide Attached, MatchingActions, AllEvidence, ReconciledField;
    r := actions;
    for i := 0 to |actions|
      invariant |r| == |actions|
      invariant forall k | 0 <= k < i :: r[k] == ReconciledAction(cs, actions[k], findings, transcriptLower)
      invariant forall k | i <= k < |actions| :: r[k] == actions[k]
    {
      var a := r[i];
      var sources := Sources(cs, a.description, findings);
      var found := GatherEvidence(sources);
      var evidence := Attach(a.evidence, found);
      a := a.(evidence := evidence);
      a := a.(owner := ReconciledField(cs, a.owner, Owners(sources), transcriptLower));
      a := a.(deadline := ReconciledField(cs, a.deadline, Deadlines(sources), transcriptLower));
      r := r[i := a];
    }
  }

  method GatherEvidence(sources: seq<ActionItem>) returns (evidence: seq<Evidence>)
    ensures evidence == AllEvidence(sources)
  {
    evidence := [];
    for i := 0 to |sources|
      invariant evidence == AllEvidence(sources[..i])
    {
      assert sources[..i + 1][..i] == sources[..i];
      evidence := evidence + sources[i].evidence;
    }
    assert sources[..|sources|] == sources;
  }

  // ----- Participants -----

  /** Distinct speakers in order of first appearance. */
  function SpeakerIds(transcript: Transcript): seq<string> {
    if transcript == [] then []
    else
      var n := |transcript| - 1;
      var seen := SpeakerIds(transcript[..n]);
      if transcript[n].speaker.None? || transcript[n].speaker.value in seen then seen
      else seen + [transcript[n].speaker.value]
  }

  /** Where a speaker is heard first; the number of segments for one who is not. */
  function FirstSpoken(transcript: Transcript, id: string): (n: nat)
    ensures n <= |transcript| && (n < |transcript| ==> transcript[n].speaker == Some(id))
    ensures forall i | 0 <= i < n :: transcript[i].speaker != Some(id)
  {
    if transcript == [] || transcript[0].speaker == Some(id) then 0 else 1 + FirstSpoken(transcript[1..], id)
  }

  /** Everyone who speaks, once, in order of first appearance. */
  ghost predicate AreSpeakers(transcript: Transcript, ids: seq<string>) {
    && (forall id :: id in ids <==> FirstSpoken(transcript, id) < |transcript|)
    && (forall k, l | 0 <= k < l < |ids| :: FirstSpoken(transcript, ids[k]) < FirstSpoken(transcript, ids[l]))
  }

  lemma {:induction false} SpeakerIdsAre(transcript: Transcript)
    ensures AreSpeakers(transcript, SpeakerIds(transcript))
  {
    hide FirstSpoken;
    if transcript != [] {
      var n := |transcript| - 1;
      SpeakerIdsAre(transcript[..n]);
      forall id ensures FirstSpoken(transcript, id) ==
                          if FirstSpoken(transcript[..n], id) < n then FirstSpoken(transcript[..n], id)
                          else if transcript[n].speaker == Some(id) then n
                          else n + 1
      {
        FirstSpokenInMore(transcript, id);
      }
    }
  }

  lemma FirstSpokenInMore(transcript: Transcript, id: string)
    requires transcript != []
    ensures var n := |transcript| - 1;
      FirstSpoken(transcript, id) ==
        if FirstSpoken(transcript[..n], id) < n then FirstSpoken(transcript[..n], id)
        else if transcript[n].speaker == Some(id) then n
        else n + 1
  {
    hide FirstSpoken;
    var n := |transcript| - 1;
    var a, b := FirstSpoken(transcript, id), FirstSpoken(transcript[..n], id);
    if b < n {
      assert transcript[b].speaker == Some(id);
      assert a < n ==> transcript[..n][a].speaker == Some(id);
    } else {
      assert forall i | 0 <= i < n :: transcript[..n][i].speaker != Some(id) && transcript[i] == transcript[..n][i];
    }
  }

  predicate Knows(participants: seq<Participant>, id: string) {
    exists i | 0 <= i < |participants| :: participants[i].id == id
  }

  function Backfilled(participants: seq<Participant>, speakers: seq<string>): seq<Participant> {
    if speakers == [] then participants
    else
      var n := |speakers| - 1;
      var r := Backfilled(participants, speakers[..n]);
      if Knows(r, speakers[n]) then r else r + [Participant(speakers[n], None)]
  }

  method Backfill(participants: seq<Participant>, speakers: seq<string>) returns (r: seq<Participant>)
    ensures r == Backfilled(participants, speakers)
  {
    r := participants;
    for i := 0 to |speakers|
      invariant r == Backfilled(participants, speakers[..i])
    {
      assert speakers[..i + 1][..i] == speakers[..i];
      if !Knows(r, speakers[i]) {
        r := r + [Participant(speakers[i], None)];
      }
    }
    assert speakers[..|speakers|] == speakers;
  }

  lemma {:induction false} BackfillCovers(participants: seq<Participant>, speakers: seq<string>)
    ensures participants <= Backfilled(participants, speakers)
    ensures forall s | s in speakers :: Knows(Backfilled(participants, speakers), s)
    ensures forall i | |participants| <= i < |Backfilled(participants, speakers)| ::
              Backfilled(participants, speakers)[i].id in speakers && Backfilled(participants,
                         speakers)[i].displayName == None
  {
    if speakers != [] {
      var n := |speakers| - 1;
      BackfillCovers(participants, speakers[..n]);
      var r := Backfilled(participants, speakers[..n]);
      var r' := Backfilled(participants, speakers);
      assert r <= r';
      assert Knows(r', speakers[n]) by { if !Knows(r, speakers[n]) { assert r'[|r|].id == speakers[n]; } }
      forall s | s in speakers ensures Knows(r', s) {
        if s in speakers[..n] {
          var i :| 0 <= i < |r| && r[i].id == s;
          assert r'[i].id == s;
        }
      }
    }
  }

  lemma {:induction false} BackfillOfKnown(participants: seq<Participant>, speakers: seq<string>)
    requires forall s | s in speakers :: Knows(participants, s)
    ensures Backfilled(participants, speakers) == participants
  {
    hide Knows;
    if speakers != [] {
      BackfillOfKnown(participants, speakers[..|speakers| - 1]);
    }
  }

  // ----- reconcile -----

  function LowerTexts(cs: Charset, transcript: Transcript): (r: seq<string>)
    ensures |r| == |transcript|
  {
    seq(|transcript|, i requires 0 <= i < |transcript| => cs.lower(transcript[i].text))
  }

  function TranscriptLower(cs: Charset, transcript: Transcript): string {
    Join(LowerTexts(cs, transcript), " ")
  }

  function Reconciled(cs: Charset, ir: MeetingIr, merged: Findings, transcript: Transcript): MeetingIr {
    MeetingIr(
      Trim(ir.summary),
      Backfilled(ir.participants, SpeakerIds(transcript)),
      Findings(
        ReconciledItems(cs, ir.findings.topics, merged.topics),
        ReconciledItems(cs, ir.findings.decisions, merged.decisions),
        ReconciledActions(cs, ir.findings.actions, merged.actions, TranscriptLower(cs, transcript)),
        ReconciledItems(cs, ir.findings.questions, merged.questions),
        ReconciledItems(cs, ir.findings.risks, merged.risks)))
  }

  method Reconcile(cs: Charset, ir0: MeetingIr, merged: Findings, transcript: Transcript) returns (ir: MeetingIr)
    ensures ir == Reconciled(cs, ir0, merged, transcript)
  {
    hide Trim, Backfilled, SpeakerIds, ReconciledItems, ReconciledActions, TranscriptLower;
    ir := ir0.(summary := Trim(ir0.summary));
    var participants := Backfill(ir.participants, SpeakerIds(transcript));
    ir := ir.(participants := participants);
    var transcriptLower := TranscriptLower(cs, transcript);
    var items := ReattachItems(cs, ir.findings.decisions, merged.decisions);
    ir := ir.(findings := ir.findings.(decisions := items));
    items := ReattachItems(cs, ir.findings.topics, merged.topics);
    ir := ir.(findings := ir.findings.(topics := items));
    items := ReattachItems(cs, ir.findings.questions, merged.questions);
    ir := ir.(findings := ir.findings.(questions := items));
    items := ReattachItems(cs, ir.findings.risks, merged.risks);
    ir := ir.(findings := ir.findings.(risks := items));
    var actions := ReconcileActions(cs, ir.findings.actions, merged.actions, transcriptLower);
    ir := ir.(findings := ir.findings.(actions := actions));
  }

  // ----- What reconciliation promises -----

  lemma {:induction false} MatchedComesFromSimilar(cs: Charset, needle: string, sources: seq<Item>, ev: Evidence)
    ensures ev in Matched(cs, needle, sources) <==>
              exists s :: s in sources && Similar(cs, needle, s.text) && ev in s.evidence
  {
    hide Similar;
    if sources != [] {
      var n := |sources| - 1;
      MatchedComesFromSimilar(cs, needle, sources[..n], ev);
      assert sources == sources[..n] + [sources[n]];
      if ev in Matched(cs, needle, sources) && ev !in Matched(cs, needle, sources[..n]) {
        assert sources[n] in sources && ev in sources[n].evidence;
      }
    }
  }

  /**
   * An item that resembles some finding of its kind ends up with evidence, all of it taken from the
   * findings it resembles, none of it twice, every piece traceable.
   */
  lemma ItemsAreGrounded(cs: Charset, item: Item, sources: seq<Item>, s: Item)
    requires ItemsTraceable(sources) && s in sources && Similar(cs, item.text, s.text)
    ensures AllTraceable(ReconciledItem(cs, item, sources).evidence)
    ensures DistinctKeys(ReconciledItem(cs, item, sources).evidence)
    ensures forall ev | ev in ReconciledItem(cs, item, sources).evidence ::
              exists f :: f in sources && Similar(cs, item.text, f.text) && ev in f.evidence
  {
    hide Similar, Deduplicated, Matched, Traceable;
    var found := Matched(cs, item.text, sources);
    var i :| 0 <= i < |sources| && sources[i] == s;
    assert AllTraceable(sources[i].evidence);
    MatchedComesFromSimilar(cs, item.text, sources, s.evidence[0]);
    DeduplicationIsSound(found);
    var r := Deduplicated(found);
    forall ev | ev in r
      ensures Traceable(ev) && exists f :: f in sources && Similar(cs, item.text, f.text) && ev in f.evidence
    {
      MatchedComesFromSimilar(cs, item.text, sources, ev);
      var f :| f in sources && Similar(cs, item.text, f.text) && ev in f.evidence;
      var j :| 0 <= j < |sources| && sources[j] == f;
      assert AllTraceable(sources[j].evidence);
    }
  }

  lemma {:induction false} EvidenceComesFromActions(sources: seq<ActionItem>, ev: Evidence)
    ensures ev in AllEvidence(sources) <==> exists s :: s in sources && ev in s.evidence
  {
    if sources != [] {
      var n := |sources| - 1;
      EvidenceComesFromActions(sources[..n], ev);
      assert sources == sources[..n] + [sources[n]];
      if ev in AllEvidence(sources) && ev !in AllEvidence(sources[..n]) {
        assert sources[n] in sources && ev in sources[n].evidence;
      }
    }
  }

  /** The same for action items. */
  lemma ActionsAreGrounded(cs: Charset, a: ActionItem, findings: seq<ActionItem>, transcriptLower: string, s: ActionItem)
    requires ActionsTraceable(findings) && s in findings && Similar(cs, a.description, s.description)
    ensures var r := ReconciledAction(cs, a, findings, transcriptLower);
      AllTraceable(r.evidence) && DistinctKeys(r.evidence)
    ensures forall ev | ev in ReconciledAction(cs, a, findings, transcriptLower).evidence ::
              exists f :: f in findings && Similar(cs, a.description, f.description) && ev in f.evidence
  {
    hide Similar, Deduplicated, MatchingActions, AllEvidence, ReconciledField, Traceable;
    var sources := MatchingActions(cs, a.description, findings);
    var found := AllEvidence(sources);
    var i :| 0 <= i < |findings| && findings[i] == s;
    assert AllTraceable(findings[i].evidence);
    MatchingActionsAre(cs, a.description, findings, s);
    EvidenceComesFromActions(sources, s.evidence[0]);
    DeduplicationIsSound(found);
    var r := Deduplicated(found);
    forall ev | ev in r
      ensures Traceable(ev) && exists f :: f in findings && Similar(cs, a.description, f.description) && ev in f.evidence
    {
      EvidenceComesFromActions(sources, ev);
      var f :| f in sources && ev in f.evidence;
      MatchingActionsAre(cs, a.description, findings, f);
      var j :| 0 <= j < |findings| && findings[j] == f;
      assert AllTraceable(findings[j].evidence);
    }
  }

  /** Who or when, as it may appear in an accepted action item: some similar finding or the transcript says it. */
  ghost predicate SaidBySomeone(cs: Charset, a: ActionItem, value: string, findings: seq<ActionItem>,
                                transcript: Transcript, fieldOf: ActionItem -> Option<string>)
  {
    && !Blank(value)
    && ((exists s :: s in findings && Similar(cs, a.description, s.description) && fieldOf(s).Some?
                     && EqIgnoreAsciiCase(Trim(fieldOf(s).value), Trim(value)))
        || Contains(TranscriptLower(cs, transcript), cs.lower(Trim(value))))
  }

  /** No owner and no deadline of an action item is the model's invention. */
  ghost predicate NothingInvented(cs: Charset, a: ActionItem, findings: seq<ActionItem>, transcript: Transcript) {
    && (a.owner.Some? ==> SaidBySomeone(cs, a, a.owner.value, findings, transcript, (s: ActionItem) => s.owner))
    && (a.deadline.Some? ==> SaidBySomeone(cs, a, a.deadline.value, findings, transcript, (s: ActionItem) => s.deadline))
  }

  lemma ReconciledInventsNothing(cs: Charset, a: ActionItem, findings: seq<ActionItem>, transcript: Transcript)
    ensures NothingInvented(cs, ReconciledAction(cs, a, findings, TranscriptLower(cs, transcript)), findings, transcript)
  {
    hide Similar, MatchingActions, AllEvidence, Attached, TranscriptLower, Contains, Trim, EqIgnoreAsciiCase, Blank;
    var sources := MatchingActions(cs, a.description, findings);
    var lower := TranscriptLower(cs, transcript);
    var r := ReconciledAction(cs, a, findings, lower);
    if r.owner.Some? && Stated(r.owner.value, Owners(sources)) {
      var i :| 0 <= i < |sources| && Owners(sources)[i].Some?
        && EqIgnoreAsciiCase(Trim(Owners(sources)[i].value), Trim(r.owner.value));
      MatchingActionsAre(cs, a.description, findings, sources[i]);
    }
    if r.deadline.Some? && Stated(r.deadline.value, Deadlines(sources)) {
      var i :| 0 <= i < |sources| && Deadlines(sources)[i].Some?
        && EqIgnoreAsciiCase(Trim(Deadlines(sources)[i].value), Trim(r.deadline.value));
      MatchingActionsAre(cs, a.description, findings, sources[i]);
    }
  }

  /** Whom backfilling adds: each is new, and they come in the order of the list. */
  lemma {:induction false} BackfillAdds(participants: seq<Participant>, speakers: seq<string>) returns (from: seq<nat>)
    ensures participants <= Backfilled(participants, speakers)
    ensures |from| == |Backfilled(participants, speakers)| - |participants|
    ensures var r, given := Backfilled(participants, speakers), |participants|;
      forall k | given <= k < |r| :: from[k - given] < |speakers| && r[k] == Participant(speakers[from[k - given]], None)
                                       && !Knows(r[..k], r[k].id)
    ensures forall k, l | 0 <= k < l < |from| :: from[k] < from[l]
    ensures forall k | 0 <= k < |from| :: from[k] < |speakers|
  {
    hide Knows;
    from := [];
    if speakers != [] {
      var n, given := |speakers| - 1, |participants|;
      from := BackfillAdds(participants, speakers[..n]);
      var r, r' := Backfilled(participants, speakers[..n]), Backfilled(participants, speakers);
      forall k | given <= k < |r| ensures r'[k] == r[k] && r'[..k] == r[..k] {
      }
      if !Knows(r, speakers[n]) {
        assert r'[..|r|] == r;
        from := from + [n];
      }
    }
  }

  /**
   * Everyone who speaks is a participant of the result. The model's participants come first, as they were; behind them
   * come the speakers it did not name, without a name, none of them twice, in the order in which they are first heard.
   */
  lemma SpeakersParticipate(cs: Charset, ir: MeetingIr, merged: Findings, transcript: Transcript)
    ensures var ps, given := Reconciled(cs, ir, merged, transcript).participants, |ir.participants|;
      && ir.participants <= ps
      && (forall i | 0 <= i < |transcript| && transcript[i].speaker.Some? :: Knows(ps, transcript[i].speaker.value))
      && (forall k | given <= k < |ps| ::
            && ps[k].displayName == None
            && (exists i | 0 <= i < |transcript| :: transcript[i].speaker == Some(ps[k].id))
            && !Knows(ps[..k], ps[k].id))
      && (forall k, l | given <= k < l < |ps| ::
            FirstSpoken(transcript, ps[k].id) < FirstSpoken(transcript, ps[l].id))
  {
    var speakers := SpeakerIds(transcript);
    var ps, given := Backfilled(ir.participants, speakers), |ir.participants|;
    SpeakerIdsAre(transcript);
    BackfillCovers(ir.participants, speakers);
    var from := BackfillAdds(ir.participants, speakers);
    hide Trim, SpeakerIds, Backfilled, ReconciledItems, ReconciledActions, FirstSpoken, Knows, TranscriptLower;
    assert Reconciled(cs, ir, merged, transcript).participants == ps;
    forall i | 0 <= i < |transcript| && transcript[i].speaker.Some? ensures Knows(ps, transcript[i].speaker.value) {
      assert FirstSpoken(transcript, transcript[i].speaker.value) <= i;
    }
    forall k | given <= k < |ps|
      ensures ps[k].id in speakers && ps[k].id == speakers[from[k - given]] && ps[k].displayName == None
      ensures exists i | 0 <= i < |transcript| :: transcript[i].speaker == Some(ps[k].id)
      ensures !Knows(ps[..k], ps[k].id)
    {
      assert given + (k - given) == k;
      assert transcript[FirstSpoken(transcript, ps[k].id)].speaker == Some(ps[k].id);
    }
  }

  // ----- Item by item -----

  /** What each finding contributes to an item: its evidence, if its text is similar. */
  ghost function SimilarEvidence(cs: Charset, text: string, sources: seq<Item>): (r: seq<seq<Evidence>>)
    ensures |r| == |sources|
    ensures forall i | 0 <= i < |r| :: r[i] == if Similar(cs, text, sources[i].text) then sources[i].evidence else []
  {
    seq(|sources|, i requires 0 <= i < |sources| =>
      if Similar(cs, text, sources[i].text) then sources[i].evidence else [])
  }

  ghost function SimilarActionEvidence(cs: Charset, description: string, sources: seq<ActionItem>): (r: seq<seq<Evidence>>)
    ensures |r| == |sources|
    ensures forall i | 0 <= i < |r| ::
              r[i] == if Similar(cs, description, sources[i].description) then sources[i].evidence else []
  {
    seq(|sources|, i requires 0 <= i < |sources| =>
      if Similar(cs, description, sources[i].description) then sources[i].evidence else [])
  }

  /** Found evidence replaces what was there, without repetitions; where none was found, nothing changes. */
  ghost predicate EvidenceReplaced(before: seq<Evidence>, found: seq<Evidence>, after: seq<Evidence>) {
    if found == [] then after == before else exists places :: FirstOfEach(found, after, places)
  }

  /** The texts stay; the evidence becomes that of all similar findings, in order, without repetitions. */
  ghost predicate ItemReconciled(cs: Charset, item: Item, sources: seq<Item>, out: Item) {
    && out.text == item.text && out.note == item.note
    && EvidenceReplaced(item.evidence, Concat(SimilarEvidence(cs, item.text, sources)), out.evidence)
  }

  ghost predicate ItemsReconciled(cs: Charset, items: seq<Item>, sources: seq<Item>, out: seq<Item>) {
    |out| == |items| && forall i | 0 <= i < |items| :: ItemReconciled(cs, items[i], sources, out[i])
  }

  /** Finding `i` is the first similar one that has the field. */
  ghost predicate StatesFirst(cs: Charset, description: string, findings: seq<ActionItem>,
                              fieldOf: ActionItem -> Option<string>, i: nat)
  {
    && i < |findings| && Similar(cs, description, findings[i].description) && fieldOf(findings[i]).Some?
    && (forall j | 0 <= j < i && Similar(cs, description, findings[j].description) :: fieldOf(findings[j]).None?)
  }

  /**
   * The model's owner or deadline stays exactly when somebody said it; where the model gave none, that of the first
   * similar finding that has one is taken, unless it is blank.
   */
  ghost predicate FieldReconciled(cs: Charset, a: ActionItem, findings: seq<ActionItem>, transcript: Transcript,
                                  fieldOf: ActionItem -> Option<string>, out: Option<string>)
  {
    match fieldOf(a)
    case Some(v) => out == if SaidBySomeone(cs, a, v, findings, transcript, fieldOf) then Some(v) else None
    case None =>
      && (forall i | 0 <= i < |findings| && StatesFirst(cs, a.description, findings, fieldOf, i) ::
            out == if Blank(fieldOf(findings[i]).value) then None else fieldOf(findings[i]))
      && (out.Some? ==> exists i | 0 <= i < |findings| :: StatesFirst(cs, a.description, findings, fieldOf, i))
  }

  ghost predicate ActionReconciled(cs: Charset, a: ActionItem, findings: seq<ActionItem>, transcript: Transcript,
                                   out: ActionItem)
  {
    && out.description == a.description
    && EvidenceReplaced(a.evidence, Concat(SimilarActionEvidence(cs, a.description, findings)), out.evidence)
    && FieldReconciled(cs, a, findings, transcript, (s: ActionItem) => s.owner, out.owner)
    && FieldReconciled(cs, a, findings, transcript, (s: ActionItem) => s.deadline, out.deadline)
  }

  /** The lower-cased transcript grows by a space and the next text. */
  lemma TranscriptGrows(cs: Charset, transcript: Transcript, seg: Segment)
    ensures TranscriptLower(cs, transcript + [seg]) ==
              if transcript == [] then cs.lower(seg.text) else TranscriptLower(cs, transcript) + " " + cs.lower(seg.text)
  {
    var texts := LowerTexts(cs, transcript);
    assert LowerTexts(cs, transcript + [seg]) == texts + [cs.lower(seg.text)];
    if transcript != [] { JoinOfSnoc(texts, cs.lower(seg.text), " "); }
  }

  lemma {:induction false} MatchedAre(cs: Charset, needle: string, sources: seq<Item>)
    ensures Matched(cs, needle, sources) == Concat(SimilarEvidence(cs, needle, sources))
  {
    hide Similar;
    if sources != [] {
      var n := |sources| - 1;
      MatchedAre(cs, needle, sources[..n]);
      assert SimilarEvidence(cs, needle, sources)[..n] == SimilarEvidence(cs, needle, sources[..n]);
    }
  }

  lemma {:induction false} ActionEvidenceIs(cs: Charset, description: string, findings: seq<ActionItem>)
    ensures AllEvidence(MatchingActions(cs, description, findings))
              == Concat(SimilarActionEvidence(cs, description, findings))
  {
    hide Similar;
    if findings != [] {
      var n := |findings| - 1;
      ActionEvidenceIs(cs, description, findings[..n]);
      assert SimilarActionEvidence(cs, description, findings)[..n] == SimilarActionEvidence(cs, description, findings[..n]);
      var sources := MatchingActions(cs, description, findings[..n]);
      assert (sources + [findings[n]])[..|sources|] == sources && sources + [] == sources;
      hide AllEvidence;
      AllEvidenceOfSnoc(sources, findings[n]);
      ConcatOfSnoc(SimilarActionEvidence(cs, description, findings[..n]), SimilarActionEvidence(cs, description, findings)[n]);
    }
  }

  lemma AllEvidenceOfSnoc(sources: seq<ActionItem>, last: ActionItem)
    ensures AllEvidence(sources + [last]) == AllEvidence(sources) + last.evidence
  {
    assert (sources + [last])[..|sources|] == sources;
  }

  lemma AttachedReplaces(before: seq<Evidence>, found: seq<Evidence>)
    ensures EvidenceReplaced(before, found, Attached(before, found))
  {
    hide FirstOfEach;
    if found != [] { var places := DeduplicatedAre(found); }
  }

  lemma {:induction false} FirstFieldOfSnoc(fields: seq<Option<string>>, last: Option<string>)
    ensures FirstField(fields + [last]) == FirstField(fields).Or(last)
  {
    if fields != [] {
      FirstFieldOfSnoc(fields[1..], last);
      assert (fields + [last])[1..] == fields[1..] + [last];
    }
  }

  function FieldsOf(sources: seq<ActionItem>, fieldOf: ActionItem -> Option<string>): (r: seq<Option<string>>)
    ensures |r| == |sources|
  {
    seq(|sources|, i requires 0 <= i < |sources| => fieldOf(sources[i]))
  }

  lemma {:induction false} FirstStated(cs: Charset, description: string, findings: seq<ActionItem>,
                                       fieldOf: ActionItem -> Option<string>) returns (i: nat)
    ensures var first := FirstField(FieldsOf(MatchingActions(cs, description, findings), fieldOf));
      if first.Some? then StatesFirst(cs, description, findings, fieldOf, i) && fieldOf(findings[i]) == first
      else forall j | 0 <= j < |findings| && Similar(cs, description, findings[j].description) :: fieldOf(findings[j]).None?
  {
    hide Similar, FirstField;
    FirstFieldOfNone();
    i := 0;
    if findings != [] {
      var n := |findings| - 1;
      var sources := MatchingActions(cs, description, findings[..n]);
      var fields := FieldsOf(sources, fieldOf);
      i := FirstStated(cs, description, findings[..n], fieldOf);
      if Similar(cs, description, findings[n].description) {
        assert FieldsOf(sources + [findings[n]], fieldOf) == fields + [fieldOf(findings[n])];
        FirstFieldOfSnoc(fields, fieldOf(findings[n]));
        if FirstField(fields).None? && fieldOf(findings[n]).Some? { i := n; }
      } else {
        assert sources + [] == sources;
      }
    } else {
      assert FieldsOf([], fieldOf) == [];
    }
  }

  lemma FirstFieldOfNone()
    ensures FirstField([]) == None
  {
  }

  lemma StatedIsSaid(cs: Charset, a: ActionItem, value: string, findings: seq<ActionItem>, transcript: Transcript,
                     fieldOf: ActionItem -> Option<string>)
    ensures SaidBySomeone(cs, a, value, findings, transcript, fieldOf) <==>
              Supported(cs, value, FieldsOf(MatchingActions(cs, a.description, findings), fieldOf),
                        TranscriptLower(cs, transcript))
  {
    hide Similar, MatchingActions, TranscriptLower, Contains, Trim, EqIgnoreAsciiCase, Blank;
    var sources := MatchingActions(cs, a.description, findings);
    var fields := FieldsOf(sources, fieldOf);
    if Stated(value, fields) {
      var i :| 0 <= i < |fields| && fields[i].Some? && EqIgnoreAsciiCase(Trim(fields[i].value), Trim(value));
      MatchingActionsAre(cs, a.description, findings, sources[i]);
    }
    forall s | s in findings && Similar(cs, a.description, s.description) && fieldOf(s).Some?
                 && EqIgnoreAsciiCase(Trim(fieldOf(s).value), Trim(value))
      ensures Stated(value, fields)
    {
      MatchingActionsAre(cs, a.description, findings, s);
      var i :| 0 <= i < |sources| && sources[i] == s;
      assert fields[i] == fieldOf(s);
    }
  }

  lemma FieldIsReconciled(cs: Charset, a: ActionItem, findings: seq<ActionItem>, transcript: Transcript,
                          fieldOf: ActionItem -> Option<string>)
    ensures FieldReconciled(cs, a, findings, transcript, fieldOf,
              ReconciledField(cs, fieldOf(a), FieldsOf(MatchingActions(cs, a.description, findings), fieldOf),
                              TranscriptLower(cs, transcript)))
  {
    hide Similar, MatchingActions, TranscriptLower, SaidBySomeone, Supported, FirstField, Blank, Trim;
    var fields := FieldsOf(MatchingActions(cs, a.description, findings), fieldOf);
    var i := FirstStated(cs, a.description, findings, fieldOf);
    FirstIsOnly(cs, a.description, findings, fieldOf);
    match fieldOf(a)
    case Some(v) => StatedIsSaid(cs, a, v, findings, transcript, fieldOf);
    case None =>
      if FirstField(fields).Some? { FindingFieldPasses(cs, fields, TranscriptLower(cs, transcript)); }
  }

  lemma FirstIsOnly(cs: Charset, description: string, findings: seq<ActionItem>, fieldOf: ActionItem -> Option<string>)
    ensures forall i, j | StatesFirst(cs, description, findings, fieldOf, i)
              && StatesFirst(cs, description, findings, fieldOf, j) :: i == j
  {
    hide Similar;
  }

  lemma ActionIsReconciled(cs: Charset, a: ActionItem, findings: seq<ActionItem>, transcript: Transcript)
    ensures ActionReconciled(cs, a, findings, transcript,
                             ReconciledAction(cs, a, findings, TranscriptLower(cs, transcript)))
  {
    hide Similar, MatchingActions, TranscriptLower, FieldReconciled, ReconciledField, AllEvidence, Attached, Concat;
    hide EvidenceReplaced, SimilarActionEvidence;
    var sources := MatchingActions(cs, a.description, findings);
    var ownerOf, deadlineOf := (s: ActionItem) => s.owner, (s: ActionItem) => s.deadline;
    ActionEvidenceIs(cs, a.description, findings);
    AttachedReplaces(a.evidence, AllEvidence(sources));
    assert FieldsOf(sources, ownerOf) == Owners(sources) && FieldsOf(sources, deadlineOf) == Deadlines(sources);
    FieldIsReconciled(cs, a, findings, transcript, ownerOf);
    FieldIsReconciled(cs, a, findings, transcript, deadlineOf);
  }

  lemma ItemsAreReconciled(cs: Charset, items: seq<Item>, sources: seq<Item>)
    ensures ItemsReconciled(cs, items, sources, ReconciledItems(cs, items, sources))
  {
    hide Matched, Attached, EvidenceReplaced, Concat, SimilarEvidence;
    forall i | 0 <= i < |items| ensures ItemReconciled(cs, items[i], sources, ReconciledItems(cs, items, sources)[i]) {
      MatchedAre(cs, items[i].text, sources);
      AttachedReplaces(items[i].evidence, Matched(cs, items[i].text, sources));
    }
  }

  /** What reconciliation makes of each part of a meeting: kind by kind, from the findings of that kind. */
  lemma EveryPartIsReconciled(cs: Charset, ir: MeetingIr, merged: Findings, transcript: Transcript)
    ensures var r := Reconciled(cs, ir, merged, transcript);
      && r.summary == Trim(ir.summary)
      && ItemsReconciled(cs, ir.findings.topics, merged.topics, r.findings.topics)
      && ItemsReconciled(cs, ir.findings.decisions, merged.decisions, r.findings.decisions)
      && ItemsReconciled(cs, ir.findings.questions, merged.questions, r.findings.questions)
      && ItemsReconciled(cs, ir.findings.risks, merged.risks, r.findings.risks)
      && |r.findings.actions| == |ir.findings.actions|
      && forall i | 0 <= i < |ir.findings.actions| ::
           ActionReconciled(cs, ir.findings.actions[i], merged.actions, transcript, r.findings.actions[i])
  {
    hide Trim, SpeakerIds, Backfilled, ReconciledItems, ReconciledAction, TranscriptLower, ItemsReconciled, ActionReconciled;
    ItemsAreReconciled(cs, ir.findings.topics, merged.topics);
    ItemsAreReconciled(cs, ir.findings.decisions, merged.decisions);
    ItemsAreReconciled(cs, ir.findings.questions, merged.questions);
    ItemsAreReconciled(cs, ir.findings.risks, merged.risks);
    forall i | 0 <= i < |ir.findings.actions|
      ensures ActionReconciled(cs, ir.findings.actions[i], merged.actions, transcript,
                Reconciled(cs, ir, merged, transcript).findings.actions[i])
    {
      ActionIsReconciled(cs, ir.findings.actions[i], merged.actions, transcript);
    }
  }

  // ----- Repeating reconciliation -----

  /** A value that a finding states passes the guard unless it is blank. */
  lemma FindingFieldPasses(cs: Charset, fields: seq<Option<string>>, transcriptLower: string)
    requires FirstField(fields).Some?
    ensures GuardField(cs, FirstField(fields), fields, transcriptLower).Some? <==> !Blank(FirstField(fields).value)
  {
  }

  /**
   * A field changes on the second pass exactly when the model's value was dropped and a finding has
   * one that is not blank; a third pass never changes it.
   */
  lemma FieldOnRepeat(cs: Charset, value: Option<string>, fields: seq<Option<string>>, transcriptLower: string)
    ensures var once := ReconciledField(cs, value, fields, transcriptLower);
      var twice := ReconciledField(cs, once, fields, transcriptLower);
      && (twice == once <==> !Replaced(cs, value, fields, transcriptLower))
      && ReconciledField(cs, twice, fields, transcriptLower) == twice
  {
  }

  /** The model's value is not supported, and the first value among the findings is not blank. */
  predicate Replaced(cs: Charset, value: Option<string>, fields: seq<Option<string>>, transcriptLower: string) {
    && value.Some? && !Supported(cs, value.value, fields, transcriptLower)
    && FirstField(fields).Some? && !Blank(FirstField(fields).value)
  }

  predicate OwnerReplaced(cs: Charset, a: ActionItem, findings: seq<ActionItem>, transcriptLower: string) {
    Replaced(cs, a.owner, Owners(MatchingActions(cs, a.description, findings)), transcriptLower)
  }

  predicate DeadlineReplaced(cs: Charset, a: ActionItem, findings: seq<ActionItem>, transcriptLower: string) {
    Replaced(cs, a.deadline, Deadlines(MatchingActions(cs, a.description, findings)), transcriptLower)
  }

  lemma AttachedTwice(target: seq<Evidence>, found: seq<Evidence>)
    ensures Attached(Attached(target, found), found) == Attached(target, found)
  {
  }

  lemma ActionOnRepeat(cs: Charset, a: ActionItem, findings: seq<ActionItem>, transcriptLower: string)
    ensures var once := ReconciledAction(cs, a, findings, transcriptLower);
      var twice := ReconciledAction(cs, once, findings, transcriptLower);
      && (twice == once <==>
                !OwnerReplaced(cs, a, findings, transcriptLower) && !DeadlineReplaced(cs, a, findings, transcriptLower))
      && ReconciledAction(cs, twice, findings, transcriptLower) == twice
  {
    hide MatchingActions, AllEvidence, Attached, ReconciledField, Replaced;
    var sources := MatchingActions(cs, a.description, findings);
    AttachedTwice(a.evidence, AllEvidence(sources));
    FieldOnRepeat(cs, a.owner, Owners(sources), transcriptLower);
    FieldOnRepeat(cs, a.deadline, Deadlines(sources), transcriptLower);
  }

  lemma ItemsOnRepeat(cs: Charset, items: seq<Item>, sources: seq<Item>)
    ensures ReconciledItems(cs, ReconciledItems(cs, items, sources), sources) == ReconciledItems(cs, items, sources)
  {
  }

  /** No action item of the list has an owner or a deadline that a second pass would replace. */
  ghost predicate Settled(cs: Charset, actions: seq<ActionItem>, findings: seq<ActionItem>, transcriptLower: string) {
    forall i | 0 <= i < |actions| ::
      !OwnerReplaced(cs, actions[i], findings, transcriptLower) && !DeadlineReplaced(cs, actions[i], findings,
        transcriptLower)
  }

  lemma ActionsOnRepeat(cs: Charset, actions: seq<ActionItem>, findings: seq<ActionItem>, transcriptLower: string)
    ensures var once := ReconciledActions(cs, actions, findings, transcriptLower);
      var twice := ReconciledActions(cs, once, findings, transcriptLower);
      && (twice == once <==> Settled(cs, actions, findings, transcriptLower))
      && ReconciledActions(cs, twice, findings, transcriptLower) == twice
  {
    hide ReconciledAction, OwnerReplaced, DeadlineReplaced;
    var once := ReconciledActions(cs, actions, findings, transcriptLower);
    var twice := ReconciledActions(cs, once, findings, transcriptLower);
    var thrice := ReconciledActions(cs, twice, findings, transcriptLower);
    forall i | 0 <= i < |actions|
      ensures twice[i] == once[i] <==>
                !OwnerReplaced(cs, actions[i], findings, transcriptLower)
                && !DeadlineReplaced(cs, actions[i], findings, transcriptLower)
      ensures thrice[i] == twice[i]
    {
      ActionOnRepeat(cs, actions[i], findings, transcriptLower);
    }
  }

  /**
   * Reconciling again changes the result exactly when some dropped owner or deadline gets replaced by
   * a finding's; reconciling a third time never changes anything.
   */
  lemma ReconcileOnRepeat(cs: Charset, ir: MeetingIr, merged: Findings, transcript: Transcript)
    ensures var once := Reconciled(cs, ir, merged, transcript);
      var twice := Reconciled(cs, once, merged, transcript);
      && (twice == once <==> Settled(cs, ir.findings.actions, merged.actions, TranscriptLower(cs, transcript)))
      && Reconciled(cs, twice, merged, transcript) == twice
  {
    hide Trim, Backfilled, ReconciledItems, ReconciledActions, SpeakerIds, Settled, TranscriptLower;
    var speakers := SpeakerIds(transcript);
    TrimTwice(ir.summary);
    BackfillCovers(ir.participants, speakers);
    BackfillOfKnown(Backfilled(ir.participants, speakers), speakers);
    ItemsOnRepeat(cs, ir.findings.topics, merged.topics);
    ItemsOnRepeat(cs, ir.findings.decisions, merged.decisions);
    ItemsOnRepeat(cs, ir.findings.questions, merged.questions);
    ItemsOnRepeat(cs, ir.findings.risks, merged.risks);
    ActionsOnRepeat(cs, ir.findings.actions, merged.actions, TranscriptLower(cs, transcript));
  }

  /** So one pass is not enough: an invented owner is dropped first and replaced on the second pass. */
  lemma OnePassIsNotEnough(cs: Charset) returns (ir: MeetingIr, merged: Findings)
    requires cs.lower("x") == "x" && cs.lower("Bob") == "bob" && cs.alphanumeric('x')
    ensures |ir.findings.actions| == 1
    ensures Reconciled(cs, ir, merged, []).findings.actions[0].owner == None
    ensures Reconciled(cs, Reconciled(cs, ir, merged, []), merged, []).findings.actions[0].owner == Some("Avi")
  {
    var finding := ActionItem("x", Some("Avi"), None, []);
    merged := Findings([], [], [finding], [], []);
    ir := MeetingIr("s", [], Findings([], [], [ActionItem("x", Some("Bob"), None, [])], [], []));
    ExampleSources(cs, finding);
    ExampleFields(cs);
    assert TranscriptLower(cs, []) == "" && Owners([finding]) == [Some("Avi")];
    hide Similar, MatchingActions, Attached, ReconciledField;
    assert ReconciledAction(cs, ir.findings.actions[0], [finding], "").owner == None;
  }

  lemma ExampleSources(cs: Charset, finding: ActionItem)
    requires cs.lower("x") == "x" && cs.alphanumeric('x') && finding.description == "x"
    ensures MatchingActions(cs, "x", [finding]) == [finding]
  {
    assert IsWord("x");
    WordsOfJoin(["x"]);
    assert Spaced(cs, "x") == "x" && NormalForm(cs, "x") == "x";
    SimilarToItself(cs, "x");
    hide Similar;
    assert [finding][..0] == [];
  }

  lemma ExampleFields(cs: Charset)
    requires cs.lower("Bob") == "bob"
    ensures ReconciledField(cs, Some("Bob"), [Some("Avi")], "") == None
    ensures ReconciledField(cs, None, [Some("Avi")], "") == Some("Avi")
  {
    hide ReconciledField, Trim;
    TrimIsIdentity("Avi");
    TrimIsIdentity("Bob");
    UnsupportedField(cs, "Bob", "Avi");
  }

  /** With an empty transcript, a value that differs from the only finding's is dropped; the finding's is kept. */
  lemma UnsupportedField(cs: Charset, given: string, known: string)
    requires Trim(given) == given && Trim(known) == known && given != "" && known != "" && cs.lower(given) != ""
    requires AsciiLower(given[0]) != AsciiLower(known[0])
    ensures ReconciledField(cs, Some(given), [Some(known)], "") == None
    ensures ReconciledField(cs, None, [Some(known)], "") == Some(known)
  {
    hide Trim, AsciiLower;
    var fields := [Some(known)];
    assert FirstField(fields) == Some(known);
    assert !EqIgnoreAsciiCase(known, given);
    assert !Stated(given, fields);
    assert !Contains("", cs.lower(given));
    FindingFieldPasses(cs, fields, "");
  }
}
