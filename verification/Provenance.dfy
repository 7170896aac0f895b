/**
 * Where the evidence of a reconciled representation comes from, through extraction, merging and
 * reconciliation together (engine/src/ai/extraction.rs, findings.rs, synthesis.rs).
 */
module Provenance {
  import opened Domain
  import opened WordSets
  import opened TranscriptChunking
  import opened Extraction
  import opened Synthesis

  datatype Kind = Topics | Decisions | Actions | Questions | Risks

  /** Any item, as far as its evidence is concerned. */
  datatype Finding = Finding(text: string, evidence: seq<Evidence>)

  function FromItems(items: seq<Item>): (r: seq<Finding>)
    ensures |r| == |items|
  {
    seq(|items|, i requires 0 <= i < |items| => Finding(items[i].text, items[i].evidence))
  }

  function FromActions(items: seq<ActionItem>): (r: seq<Finding>)
    ensures |r| == |items|
  {
    seq(|items|, i requires 0 <= i < |items| => Finding(items[i].description, items[i].evidence))
  }

  function OfKind(f: Findings, kind: Kind): seq<Finding> {
    match kind
    case Topics => FromItems(f.topics)
    case Decisions => FromItems(f.decisions)
    case Actions => FromActions(f.actions)
    case Questions => FromItems(f.questions)
    case Risks => FromItems(f.risks)
  }

  // ----- From the model's answers to the merged findings -----

  /** Some chunk's answer has this finding, and grounding it there gave the evidence. */
  ghost predicate Known(cs: Charset, chunks: seq<Chunk>, extracted: seq<Findings>, kind: Kind, text: string, ev: Evidence)
    requires |chunks| == |extracted|
  {
    Traceable(ev) && exists k, i | 0 <= k < |chunks| && 0 <= i < |OfKind(extracted[k], kind)| ::
      && OfKind(extracted[k], kind)[i].text == text
      && Honest(cs, text, chunks[k], OfKind(extracted[k], kind)[i].evidence, ev)
  }

  ghost predicate AllKnown(cs: Charset, chunks: seq<Chunk>, extracted: seq<Findings>, kind: Kind, merged: seq<Finding>)
    requires |chunks| == |extracted|
  {
    forall s, ev | s in merged && ev in s.evidence :: Known(cs, chunks, extracted, kind, s.text, ev)
  }

  /** The findings of a kind in one chunk, before and after grounding. */
  ghost predicate KindGrounded(cs: Charset, chunk: Chunk, before: seq<Finding>, after: seq<Finding>) {
    |after| == |before| && forall i | 0 <= i < |before| ::
      after[i].text == before[i].text && IsGrounding(cs, before[i].text, chunk, before[i].evidence, after[i].evidence)
  }

  lemma EveryKindIsGrounded(cs: Charset, chunk: Chunk, before: Findings, after: Findings, kind: Kind)
    requires FindingsGrounded(cs, chunk, before, after)
    ensures KindGrounded(cs, chunk, OfKind(before, kind), OfKind(after, kind))
  {
    hide IsGrounding;
  }

  lemma LastChunkIsKnown(cs: Charset, chunks: seq<Chunk>, extracted: seq<Findings>, kind: Kind, after: seq<Finding>)
    requires |chunks| == |extracted| > 0
    requires KindGrounded(cs, chunks[|chunks| - 1], OfKind(extracted[|chunks| - 1], kind), after)
    ensures AllKnown(cs, chunks, extracted, kind, after)
  {
    hide IsGrounding, Honest, OfKind, Traceable;
    var n := |chunks| - 1;
    var before := OfKind(extracted[n], kind);
    forall s, ev | s in after && ev in s.evidence ensures Known(cs, chunks, extracted, kind, s.text, ev) {
      var i :| 0 <= i < |after| && after[i] == s;
      var j :| 0 <= j < |s.evidence| && s.evidence[j] == ev;
      NoFabricatedQuote(cs, s.text, chunks[n], before[i].evidence, s.evidence, j);
      GroundedIsTraceable(cs, s.text, chunks[n], before[i].evidence, s.evidence);
    }
  }

  lemma KnownBefore(cs: Charset, chunks: seq<Chunk>, extracted: seq<Findings>, kind: Kind, merged: seq<Finding>)
    requires |chunks| == |extracted| > 0
    requires AllKnown(cs, chunks[..|chunks| - 1], extracted[..|chunks| - 1], kind, merged)
    ensures AllKnown(cs, chunks, extracted, kind, merged)
  {
    hide Honest, OfKind, Traceable;
    var n := |chunks| - 1;
    forall s, ev | s in merged && ev in s.evidence ensures Known(cs, chunks, extracted, kind, s.text, ev) {
      assert Known(cs, chunks[..n], extracted[..n], kind, s.text, ev);
      var k, i :| 0 <= k < n && 0 <= i < |OfKind(extracted[..n][k], kind)|
        && OfKind(extracted[..n][k], kind)[i].text == s.text
        && Honest(cs, s.text, chunks[..n][k], OfKind(extracted[..n][k], kind)[i].evidence, ev);
      assert extracted[..n][k] == extracted[k] && chunks[..n][k] == chunks[k];
    }
  }

  lemma MergedByKind(findings: seq<Findings>, kind: Kind)
    requires findings != []
    ensures OfKind(MergedFrom(findings), kind)
              == OfKind(MergedFrom(findings[..|findings| - 1]), kind) + OfKind(findings[|findings| - 1], kind)
  {
    hide FromItems, FromActions;
    var m, f := MergedFrom(findings[..|findings| - 1]), findings[|findings| - 1];
    match kind
    case Topics => ItemsConcat(m.topics, f.topics);
    case Decisions => ItemsConcat(m.decisions, f.decisions);
    case Actions => ActionsConcat(m.actions, f.actions);
    case Questions => ItemsConcat(m.questions, f.questions);
    case Risks => ItemsConcat(m.risks, f.risks);
  }

  lemma ItemsConcat(a: seq<Item>, b: seq<Item>)
    ensures FromItems(a + b) == FromItems(a) + FromItems(b)
  {
  }

  lemma ActionsConcat(a: seq<ActionItem>, b: seq<ActionItem>)
    ensures FromActions(a + b) == FromActions(a) + FromActions(b)
  {
  }

  /** All evidence of the merged findings was grounded in the chunk the finding comes from. */
  lemma {:induction false} MergedIsKnown(cs: Charset, chunks: seq<Chunk>, extracted: seq<Findings>,
                                         grounded: seq<Findings>, kind: Kind)
    requires |chunks| == |extracted| == |grounded|
    requires forall k | 0 <= k < |chunks| :: FindingsGrounded(cs, chunks[k], extracted[k], grounded[k])
    ensures AllKnown(cs, chunks, extracted, kind, OfKind(MergedFrom(grounded), kind))
  {
    hide FindingsGrounded, Known, MergedFrom;
    if chunks == [] {
      NothingMerged(kind);
      assert grounded == [];
    } else {
      var n := |chunks| - 1;
      MergedIsKnown(cs, chunks[..n], extracted[..n], grounded[..n], kind);
      KnownBefore(cs, chunks, extracted, kind, OfKind(MergedFrom(grounded[..n]), kind));
      EveryKindIsGrounded(cs, chunks[n], extracted[n], grounded[n], kind);
      LastChunkIsKnown(cs, chunks, extracted, kind, OfKind(grounded[n], kind));
      hide OfKind, KindGrounded;
      MergedByKind(grounded, kind);
    }
  }

  lemma NothingMerged(kind: Kind)
    ensures OfKind(MergedFrom([]), kind) == []
  {
  }

  // ----- From the merged findings to the representation -----

  ghost predicate Resembles(cs: Charset, text: string, merged: seq<Finding>) {
    exists s :: s in merged && Similar(cs, text, s.text)
  }

  /** What reconciliation made of the evidence of one item the model wrote. */
  ghost predicate Reattached(cs: Charset, merged: seq<Finding>, raw: Finding, r: Finding) {
    && r.text == raw.text
    && (!Resembles(cs, raw.text, merged) ==> r.evidence == raw.evidence)
    && (Resembles(cs, raw.text, merged) ==>
          && AllTraceable(r.evidence) && DistinctKeys(r.evidence)
          && forall ev | ev in r.evidence :: exists s :: s in merged && Similar(cs, raw.text, s.text) && ev in s.evidence)
  }

  lemma ItemIsReattached(cs: Charset, raw: Item, sources: seq<Item>)
    requires ItemsTraceable(sources)
    ensures Reattached(cs, FromItems(sources), Finding(raw.text, raw.evidence),
                       Finding(ReconciledItem(cs, raw, sources).text, ReconciledItem(cs, raw, sources).evidence))
  {
    hide Similar, AllTraceable, DistinctKeys, Matched;
    var merged := FromItems(sources);
    var r := ReconciledItem(cs, raw, sources);
    MatchedMeansResembles(cs, raw.text, sources);
    if Resembles(cs, raw.text, merged) {
      var f :| f in merged && Similar(cs, raw.text, f.text);
      var i :| 0 <= i < |merged| && merged[i] == f;
      ItemsAreGrounded(cs, raw, sources, sources[i]);
      forall ev | ev in r.evidence ensures exists s :: s in merged && Similar(cs, raw.text, s.text) && ev in s.evidence {
        var g :| g in sources && Similar(cs, raw.text, g.text) && ev in g.evidence;
        var j :| 0 <= j < |sources| && sources[j] == g;
        assert merged[j].text == g.text && merged[j].evidence == g.evidence;
      }
    }
  }

  lemma MatchedMeansResembles(cs: Charset, text: string, sources: seq<Item>)
    ensures Matched(cs, text, sources) != [] ==> Resembles(cs, text, FromItems(sources))
  {
    hide Similar;
    if Matched(cs, text, sources) != [] {
      var ev := Matched(cs, text, sources)[0];
      MatchedComesFromSimilar(cs, text, sources, ev);
      var g :| g in sources && Similar(cs, text, g.text) && ev in g.evidence;
      var j :| 0 <= j < |sources| && sources[j] == g;
      assert FromItems(sources)[j] in FromItems(sources);
    }
  }

  lemma ActionIsReattached(cs: Charset, raw: ActionItem, sources: seq<ActionItem>, transcriptLower: string)
    requires ActionsTraceable(sources)
    ensures Reattached(cs, FromActions(sources), Finding(raw.description, raw.evidence),
                       Finding(ReconciledAction(cs, raw, sources, transcriptLower).description,
                               ReconciledAction(cs, raw, sources, transcriptLower).evidence))
  {
    hide Similar, AllTraceable, DistinctKeys, ReconciledField, AllEvidence, MatchingActions;
    var merged := FromActions(sources);
    var r := ReconciledAction(cs, raw, sources, transcriptLower);
    GatheredMeansResembles(cs, raw.description, sources);
    if Resembles(cs, raw.description, merged) {
      var f :| f in merged && Similar(cs, raw.description, f.text);
      var i :| 0 <= i < |merged| && merged[i] == f;
      ActionsAreGrounded(cs, raw, sources, transcriptLower, sources[i]);
      forall ev | ev in r.evidence
        ensures exists s :: s in merged && Similar(cs, raw.description, s.text) && ev in s.evidence
      {
        var g :| g in sources && Similar(cs, raw.description, g.description) && ev in g.evidence;
        var j :| 0 <= j < |sources| && sources[j] == g;
        assert merged[j].text == g.description && merged[j].evidence == g.evidence;
      }
    }
  }

  lemma GatheredMeansResembles(cs: Charset, text: string, sources: seq<ActionItem>)
    ensures AllEvidence(MatchingActions(cs, text, sources)) != [] ==> Resembles(cs, text, FromActions(sources))
  {
    hide Similar;
    var matching := MatchingActions(cs, text, sources);
    if AllEvidence(matching) != [] {
      var ev := AllEvidence(matching)[0];
      EvidenceComesFromActions(matching, ev);
      var g :| g in matching && ev in g.evidence;
      MatchingActionsAre(cs, text, sources, g);
      var j :| 0 <= j < |sources| && sources[j] == g;
      assert FromActions(sources)[j] in FromActions(sources);
    }
  }

  lemma ItemsAreReattached(cs: Charset, raw: seq<Item>, sources: seq<Item>)
    requires ItemsTraceable(sources)
    ensures var r := FromItems(ReconciledItems(cs, raw, sources));
      forall i | 0 <= i < |raw| :: Reattached(cs, FromItems(sources), FromItems(raw)[i], r[i])
  {
    hide Reattached, ReconciledItem, ItemsTraceable;
    forall i | 0 <= i < |raw|
      ensures Reattached(cs, FromItems(sources), FromItems(raw)[i], FromItems(ReconciledItems(cs, raw, sources))[i])
    {
      ItemIsReattached(cs, raw[i], sources);
    }
  }

  lemma ActionsAreReattached(cs: Charset, raw: seq<ActionItem>, sources: seq<ActionItem>, transcriptLower: string)
    requires ActionsTraceable(sources)
    ensures var r := FromActions(ReconciledActions(cs, raw, sources, transcriptLower));
      forall i | 0 <= i < |raw| :: Reattached(cs, FromActions(sources), FromActions(raw)[i], r[i])
  {
    hide Reattached, ReconciledAction, ActionsTraceable;
    forall i | 0 <= i < |raw|
      ensures Reattached(cs, FromActions(sources), FromActions(raw)[i],
                         FromActions(ReconciledActions(cs, raw, sources, transcriptLower))[i])
    {
      ActionIsReattached(cs, raw[i], sources, transcriptLower);
    }
  }

  /** Every item of the kind in the representation is reattached to the merged findings of that kind. */
  lemma EveryKindIsReattached(cs: Charset, raw: MeetingIr, merged: Findings, normalized: Transcript, kind: Kind)
    requires FindingsTraceable(merged)
    ensures var r := Reconciled(cs, raw, merged, normalized).findings;
      && |OfKind(r, kind)| == |OfKind(raw.findings, kind)|
      && forall i | 0 <= i < |OfKind(r, kind)| ::
           Reattached(cs, OfKind(merged, kind), OfKind(raw.findings, kind)[i], OfKind(r, kind)[i])
  {
    hide Reattached, ItemsTraceable, ActionsTraceable, ReconciledItems, ReconciledActions, FromItems, FromActions;
    match kind
    case Topics => ItemsAreReattached(cs, raw.findings.topics, merged.topics);
    case Decisions => ItemsAreReattached(cs, raw.findings.decisions, merged.decisions);
    case Actions =>
      ActionsAreReattached(cs, raw.findings.actions, merged.actions, TranscriptLower(cs, normalized));
    case Questions => ItemsAreReattached(cs, raw.findings.questions, merged.questions);
    case Risks => ItemsAreReattached(cs, raw.findings.risks, merged.risks);
  }

  // ----- Together -----

  /**
   * The evidence of an item that resembles some merged finding is not empty, traceable, free of
   * repeats, and every piece of it belongs to a similar finding that a model's answer for some chunk
   * has, honest evidence of it there. Any other item keeps the evidence the model wrote.
   */
  ghost predicate Founded(cs: Charset, chunks: seq<Chunk>, extracted: seq<Findings>, kind: Kind,
                          merged: seq<Finding>, raw: Finding, r: Finding)
    requires |chunks| == |extracted|
  {
    Reattached(cs, merged, raw, r)
    && (Resembles(cs, raw.text, merged) ==> forall ev | ev in r.evidence ::
          exists s :: s in merged && Similar(cs, raw.text, s.text) && ev in s.evidence
                      && Known(cs, chunks, extracted, kind, s.text, ev))
  }

  ghost predicate AllFounded(cs: Charset, chunks: seq<Chunk>, extracted: seq<Findings>, grounded: seq<Findings>, kind: Kind,
                             raw: Findings, r: Findings)
    requires |chunks| == |extracted|
  {
    |OfKind(r, kind)| == |OfKind(raw, kind)|
    && forall i | 0 <= i < |OfKind(r, kind)| ::
         Founded(cs, chunks, extracted, kind, OfKind(MergedFrom(grounded), kind), OfKind(raw, kind)[i], OfKind(r, kind)[i])
  }

  lemma ReattachedIsFounded(cs: Charset, chunks: seq<Chunk>, extracted: seq<Findings>, kind: Kind,
                            merged: seq<Finding>, raw: Finding, r: Finding)
    requires |chunks| == |extracted| && AllKnown(cs, chunks, extracted, kind, merged) && Reattached(cs, merged, raw, r)
    ensures Founded(cs, chunks, extracted, kind, merged, raw, r)
  {
    hide Known, Similar;
    if Resembles(cs, raw.text, merged) {
      forall ev | ev in r.evidence
        ensures exists s :: s in merged && Similar(cs, raw.text, s.text) && ev in s.evidence
                            && Known(cs, chunks, extracted, kind, s.text, ev)
      {
        var s :| s in merged && Similar(cs, raw.text, s.text) && ev in s.evidence;
        assert Known(cs, chunks, extracted, kind, s.text, ev);
      }
    }
  }

  /** Extraction, merging and reconciliation together leave no unfounded evidence. */
  lemma ReconciledIsFounded(cs: Charset, chunks: seq<Chunk>, extracted: seq<Findings>, grounded: seq<Findings>, kind: Kind,
                            raw: MeetingIr, normalized: Transcript)
    requires |chunks| == |extracted| == |grounded|
    requires forall k | 0 <= k < |chunks| :: FindingsGrounded(cs, chunks[k], extracted[k], grounded[k])
    ensures AllFounded(cs, chunks, extracted, grounded, kind, raw.findings,
                       Reconciled(cs, raw, MergedFrom(grounded), normalized).findings)
  {
    hide FindingsGrounded, FindingsTraceable, Reconciled, MergedFrom, OfKind, Founded, Reattached, AllKnown;
    forall k | 0 <= k < |grounded| ensures FindingsTraceable(grounded[k]) {
      StampedFindingsAreTraceable(cs, chunks[k], extracted[k], grounded[k]);
    }
    MergedIsTraceable(grounded);
    MergedIsKnown(cs, chunks, extracted, grounded, kind);
    EveryKindIsReattached(cs, raw, MergedFrom(grounded), normalized, kind);
    var merged, r := OfKind(MergedFrom(grounded), kind),
      OfKind(Reconciled(cs, raw, MergedFrom(grounded), normalized).findings, kind);
    forall i | 0 <= i < |r| ensures Founded(cs, chunks, extracted, kind, merged, OfKind(raw.findings, kind)[i], r[i]) {
      ReattachedIsFounded(cs, chunks, extracted, kind, merged, OfKind(raw.findings, kind)[i], r[i]);
    }
  }
}
