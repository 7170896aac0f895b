/** Deterministic transcript preparation (engine/src/preprocess/mod.rs): clean, drop, clamp, order. */
module Preprocess {
  import opened Domain
  import opened Text
  import opened TranscriptChunking

  /** Collapsing changes only white space, leaves single spaces between words, and is final. */
  lemma CollapsingKeepsWords(s: string)
    ensures Marks(CollapseWhitespace(s), true) == Marks(s, true)
    ensures SingleSpaced(CollapseWhitespace(s))
    ensures Words(CollapseWhitespace(s)) == Words(s)
    ensures CollapseWhitespace(CollapseWhitespace(s)) == CollapseWhitespace(s)
    ensures CollapseWhitespace(s) == "" <==> Blank(s)
  {
    hide IsSpace, Blank, Marks, SingleSpaced;
    CollapsingKeepsMarks(s);
    CollapsingSpaces(s);
    WordsOfJoin(Words(s));
    BlankHasNoWords(s);
    if Words(s) != [] {
      assert IsWord(Words(s)[0]);
      assert Join(Words(s), " ") != "";
    }
  }

  /** A cleaned segment, or None when nothing was said. */
  function Clean(seg: Segment): Option<Segment> {
    var text := CollapseWhitespace(seg.text);
    if text == "" then None
    else
      var start := Max(seg.start, ZERO);
      var end := Max(seg.end, start);
      Some(Segment(seg.speaker, start, end, text, seg.language, seg.confidence))
  }

  /** Cleaned: words collapsed and present, times numbers, `0 <= start <= end`. */
  predicate IsClean(seg: Segment) {
    && seg.text != "" && CollapseWhitespace(seg.text) == seg.text
    && AtMost(ZERO, seg.start) && AtMost(seg.start, seg.end)
  }

  /** The start of a cleaned segment, on the real line: never before zero, and zero when it is not a number. */
  function CleanStart(t: Time): Time {
    match t
    case Finite(x) => Finite(if x < 0.0 then 0.0 else x)
    case PosInf => PosInf
    case _ => Finite(0.0)
  }

  /** Its end: never before the start, and the start when it is not a number. */
  function CleanEnd(t: Time, start: Time): Time {
    match t
    case Finite(x) => if start.Finite? && start.seconds <= x then t else start
    case PosInf => PosInf
    case _ => start
  }

  /** What becomes of a segment: its words with single spaces, its times in order, the rest as it was. */
  ghost predicate Cleans(seg: Segment, out: Segment) {
    && Marks(out.text, true) == Marks(seg.text, true) && SingleSpaced(out.text)
    && out.start == CleanStart(seg.start) && out.end == CleanEnd(seg.end, out.start)
    && out.speaker == seg.speaker && out.language == seg.language && out.confidence == seg.confidence
  }

  /** Cleaning changes no word, attribution, language or confidence, and drops only blank segments. */
  lemma CleaningIsFaithful(seg: Segment)
    ensures Clean(seg).None? <==> Blank(seg.text)
    ensures Clean(seg).Some? ==> IsClean(Clean(seg).value) && Cleans(seg, Clean(seg).value)
    ensures Clean(seg).Some? ==> Words(Clean(seg).value.text) == Words(seg.text)
    ensures Clean(seg).Some? && AtMost(ZERO, seg.start) ==> Clean(seg).value.start == seg.start
    ensures Clean(seg).Some? && AtMost(ZERO, seg.start) && AtMost(seg.start, seg.end) ==> Clean(seg).value.end == seg.end
  {
    hide CollapseWhitespace, Blank, Marks, SingleSpaced;
    CollapsingKeepsWords(seg.text);
  }

  lemma CleanStaysPut(seg: Segment)
    requires IsClean(seg)
    ensures Clean(seg) == Some(seg)
  {
  }

  function Cleaned(raw: Transcript): (r: Transcript) {
    if raw == [] then []
    else
      var n := |raw| - 1;
      match Clean(raw[n])
      case Some(seg) => Cleaned(raw[..n]) + [seg]
      case None => Cleaned(raw[..n])
  }

  // ----- The stable sort by start -----

  datatype Ordering = Less | Equal | Greater

  /** `partial_cmp(..).unwrap_or(Equal)`: the fallback answers for times that are not numbers. */
  function Compare(a: Time, b: Time): Ordering {
    if a == NaN || b == NaN then Equal
    else if !AtMost(b, a) then Less
    else if AtMost(a, b) then Equal
    else Greater
  }

  ghost predicate Numbers(s: Transcript) {
    forall i | 0 <= i < |s| :: s[i].start != NaN
  }

  ghost predicate Ordered(s: Transcript) {
    forall i, j | 0 <= i < j < |s| :: AtMost(s[i].start, s[j].start)
  }

  /** Insertion after everything that does not compare greater. */
  function Insert(s: Transcript, x: Segment): (r: Transcript)
    ensures |r| == |s| + 1
  {
    if s == [] then [x]
    else
      var n := |s| - 1;
      if Compare(s[n].start, x.start) != Greater then s + [x]
      else Insert(s[..n], x) + [s[n]]
  }

  function SortByStart(s: Transcript): (r: Transcript)
    ensures |r| == |s|
  {
    if s == [] then [] else Insert(SortByStart(s[..|s| - 1]), s[|s| - 1])
  }

  /** The segments that start at `t`, in order. */
  function StartingAt(s: Transcript, t: Time): Transcript {
    if s == [] then []
    else
      var n := |s| - 1;
      StartingAt(s[..n], t) + if s[n].start == t then [s[n]] else []
  }

  /** `r` is `s` ordered by start, segments with equal starts in their original order. */
  ghost predicate IsStableSort(s: Transcript, r: Transcript) {
    Ordered(r) && Numbers(r) && forall t :: StartingAt(r, t) == StartingAt(s, t)
  }

  lemma {:induction false} InsertKeepsStarts(s: Transcript, x: Segment, t: Time)
    ensures StartingAt(Insert(s, x), t) == StartingAt(s, t) + if x.start == t then [x] else []
  {
    hide AtMost;
    if s != [] {
      var n := |s| - 1;
      if Compare(s[n].start, x.start) != Greater {
        assert (s + [x])[..n + 1] == s;
      } else {
        InsertKeepsStarts(s[..n], x, t);
        var r := Insert(s[..n], x);
        assert (r + [s[n]])[..n + 1] == r;
        assert s[n].start != x.start by { GreaterDiffers(s[n].start, x.start); }
      }
    }
  }

  lemma GreaterDiffers(a: Time, b: Time)
    requires Compare(a, b) == Greater
    ensures a != b && AtMost(b, a)
  {
  }

  lemma {:induction false} InsertAddsOne(s: Transcript, x: Segment, i: nat)
    requires i <= |s|
    ensures Insert(s, x)[i] == x || Insert(s, x)[i] in s
  {
    hide Compare;
    if s != [] {
      var n := |s| - 1;
      if Compare(s[n].start, x.start) == Greater && i < |s| {
        InsertAddsOne(s[..n], x, i);
      }
    }
  }

  lemma {:induction false} InsertKeepsOrder(s: Transcript, x: Segment)
    requires Ordered(s) && Numbers(s) && x.start != NaN
    ensures Ordered(Insert(s, x)) && Numbers(Insert(s, x))
  {
    if s != [] {
      var n := |s| - 1;
      if Compare(s[n].start, x.start) == Greater {
        InsertKeepsOrder(s[..n], x);
        var r := Insert(s[..n], x);
        forall i | 0 <= i <= n ensures AtMost(r[i].start, s[n].start) {
          InsertAddsOne(s[..n], x, i);
        }
      }
    }
  }

  lemma {:induction false} SortSorts(s: Transcript)
    requires Numbers(s)
    ensures IsStableSort(s, SortByStart(s))
  {
    if s != [] {
      var n := |s| - 1;
      SortSorts(s[..n]);
      forall t ensures StartingAt(SortByStart(s), t) == StartingAt(s, t) {
        InsertKeepsStarts(SortByStart(s[..n]), s[n], t);
      }
      InsertKeepsOrder(SortByStart(s[..n]), s[n]);
    }
  }

  lemma {:induction false} StartingAtHas(s: Transcript, i: nat)
    requires i < |s|
    ensures s[i] in StartingAt(s, s[i].start)
  {
    if i < |s| - 1 {
      StartingAtHas(s[..|s| - 1], i);
    }
  }

  lemma {:induction false} StartingAtIn(s: Transcript, t: Time, x: Segment) returns (i: nat)
    requires x in StartingAt(s, t)
    ensures i < |s| && s[i] == x && x.start == t
  {
    var n := |s| - 1;
    if x in StartingAt(s[..n], t) {
      i := StartingAtIn(s[..n], t, x);
    } else {
      i := n;
    }
  }

  lemma LastStartIsLatest(a: Transcript, b: Transcript)
    requires Ordered(b) && Numbers(b) && a != []
    requires StartingAt(a, a[|a| - 1].start) == StartingAt(b, a[|a| - 1].start)
    ensures b != [] && (a[|a| - 1].start == b[|b| - 1].start || AtMost(a[|a| - 1].start, b[|b| - 1].start))
  {
    var x := a[|a| - 1];
    StartingAtHas(a, |a| - 1);
    var i := StartingAtIn(b, x.start, x);
  }

  lemma SnocInjective(s: Transcript, x: Segment, r: Transcript, y: Segment)
    requires s + [x] == r + [y]
    ensures s == r && x == y
  {
    assert |s| == |r| && (s + [x])[|s|] == x && (r + [y])[|r|] == y;
    assert s == (s + [x])[..|s|] && r == (r + [y])[..|r|];
  }

  lemma DropLast(s: Transcript, u: Time)
    requires s != []
    ensures s[|s| - 1].start == u ==> StartingAt(s, u) == StartingAt(s[..|s| - 1], u) + [s[|s| - 1]]
    ensures s[|s| - 1].start != u ==> StartingAt(s, u) == StartingAt(s[..|s| - 1], u)
  {
  }

  /** Ordering by start and keeping equal starts in place determine the result. */
  lemma {:induction false} StableSortIsUnique(a: Transcript, b: Transcript)
    requires Ordered(a) && Ordered(b) && Numbers(a) && Numbers(b)
    requires forall t :: StartingAt(a, t) == StartingAt(b, t)
    ensures a == b
    decreases |a|
  {
    hide StartingAt;
    if a == [] {
      if b != [] { LastStartIsLatest(b, a); }
    } else {
      LastStartIsLatest(a, b);
      LastStartIsLatest(b, a);
      var m, n := |a| - 1, |b| - 1;
      var t := a[m].start;
      assert t == b[n].start;
      forall u ensures StartingAt(a[..m], u) == StartingAt(b[..n], u) && (u == t ==> a[m] == b[n]) {
        assert StartingAt(a, u) == StartingAt(b, u);
        DropLast(a, u);
        DropLast(b, u);
        if u == t { SnocInjective(StartingAt(a[..m], u), a[m], StartingAt(b[..n], u), b[n]); }
      }
      assert StartingAt(a[..m], t) == StartingAt(b[..n], t) && a[m] == b[n];
      StableSortIsUnique(a[..m], b[..n]);
      assert a == a[..m] + [a[m]] && b == b[..n] + [b[n]];
    }
  }

  // ----- normalize -----

  ghost function Normalized(raw: Transcript): Transcript {
    SortByStart(Cleaned(raw))
  }

  lemma {:induction false} CleanedAreClean(raw: Transcript)
    ensures forall i | 0 <= i < |Cleaned(raw)| :: IsClean(Cleaned(raw)[i])
  {
    hide Clean, IsClean;
    if raw != [] {
      CleanedAreClean(raw[..|raw| - 1]);
      CleaningIsFaithful(raw[|raw| - 1]);
    }
  }

  /** The output is the stable sort by start of the cleaned segments; no comparison meets a NaN. */
  lemma NormalizeIsStableSort(raw: Transcript)
    ensures Numbers(Cleaned(raw))
    ensures IsStableSort(Cleaned(raw), Normalized(raw))
  {
    hide CollapseWhitespace, Clean, IsStableSort, Cleaned;
    CleanedAreClean(raw);
    SortSorts(Cleaned(raw));
  }

  /** Every segment of the output is clean: NaN and negative times are gone, ends follow starts. */
  lemma NormalizedAreClean(raw: Transcript)
    ensures forall i | 0 <= i < |Normalized(raw)| :: IsClean(Normalized(raw)[i])
  {
    hide IsClean, Ordered, Numbers, Normalized, Cleaned;
    NormalizeIsStableSort(raw);
    CleanedAreClean(raw);
    var s, r := Cleaned(raw), Normalized(raw);
    forall i | 0 <= i < |r| ensures IsClean(r[i]) {
      StartingAtHas(r, i);
      assert StartingAt(r, r[i].start) == StartingAt(s, r[i].start);
      var j := StartingAtIn(s, r[i].start, r[i]);
    }
  }

  lemma {:induction false} CleanedOfClean(s: Transcript)
    requires forall i | 0 <= i < |s| :: IsClean(s[i])
    ensures Cleaned(s) == s
  {
    hide IsClean, Clean;
    if s != [] {
      var n := |s| - 1;
      CleanedOfClean(s[..n]);
      CleanStaysPut(s[n]);
      assert s == s[..n] + [s[n]];
    }
  }

  /** Normalizing twice is normalizing once. */
  lemma NormalizeIsIdempotent(raw: Transcript)
    ensures Normalized(Normalized(raw)) == Normalized(raw)
  {
    hide IsClean, Cleaned, SortByStart, Ordered, Numbers;
    var r := Normalized(raw);
    NormalizedAreClean(raw);
    CleanedOfClean(r);
    NormalizeIsStableSort(raw);
    NormalizeIsStableSort(r);
    StableSortIsUnique(Normalized(r), r);
  }

  function InsertAt<T>(s: seq<T>, p: nat, x: T): (r: seq<T>)
    requires p <= |s|
    ensures |r| == |s| + 1 && r[p] == x
    ensures forall k | 0 <= k < p :: r[k] == s[k]
    ensures forall k | p < k < |r| :: r[k] == s[k - 1]
  {
    s[..p] + [x] + s[p..]
  }

  lemma InsertAtHas<T>(s: seq<T>, p: nat, x: T, y: T)
    requires p <= |s|
    ensures y in InsertAt(s, p, x) <==> y == x || y in s
  {
    assert s == s[..p] + s[p..];
  }

  /** Where an insertion puts the new segment: behind everything that does not start later. */
  lemma {:induction false} InsertedAt(s: Transcript, x: Segment) returns (p: nat)
    requires Ordered(s) && Numbers(s) && x.start != NaN
    ensures p <= |s| && Insert(s, x) == InsertAt(s, p, x)
    ensures forall k | p <= k < |s| :: s[k].start != x.start
  {
    if s == [] {
      p := 0;
    } else {
      var n := |s| - 1;
      if Compare(s[n].start, x.start) != Greater {
        p := |s|;
      } else {
        p := InsertedAt(s[..n], x);
        assert s[..n][p..] + [s[n]] == s[p..];
        GreaterDiffers(s[n].start, x.start);
      }
    }
  }

  /**
   * `out` is the raw transcript without its blank segments, cleaned and in order: segment `k` comes from segment
   * `from[k]`, none is left out or used twice, and equal starts keep their order.
   */
  ghost predicate IsNormalized(raw: Transcript, out: Transcript, from: seq<nat>) {
    && |from| == |out| && (forall k | 0 <= k < |out| :: from[k] < |raw| && Cleans(raw[from[k]], out[k]))
    && (forall i | 0 <= i < |raw| :: Blank(raw[i].text) <==> i !in from)
    && (forall k, l | 0 <= k < l < |out| :: from[k] != from[l])
    && (forall k, l | 0 <= k < l < |out| && out[k].start == out[l].start :: from[k] < from[l])
  }

  lemma InsertNormalized(raw: Transcript, seg: Segment, x: Segment, out: Transcript, from: seq<nat>, p: nat)
    requires IsNormalized(raw, out, from) && Cleans(seg, x) && !Blank(seg.text) && p <= |out|
    requires forall k | p <= k < |out| :: out[k].start != x.start
    ensures IsNormalized(raw + [seg], InsertAt(out, p, x), InsertAt(from, p, |raw|))
  {
    hide Cleans, Blank, InsertAt;
    var raw', out', from' := raw + [seg], InsertAt(out, p, x), InsertAt(from, p, |raw|);
    forall i | 0 <= i < |raw'| ensures Blank(raw'[i].text) <==> i !in from' {
      InsertAtHas(from, p, |raw|, i);
    }
    forall k, l | 0 <= k < l < |out'|
      ensures from'[k] != from'[l] && (out'[k].start == out'[l].start ==> from'[k] < from'[l])
    {
      InsertKeepsPairs(raw, x, out, from, p, k, l);
    }
  }

  lemma InsertKeepsPairs(raw: Transcript, x: Segment, out: Transcript, from: seq<nat>, p: nat, k: nat, l: nat)
    requires |from| == |out| && p <= |out| && k < l <= |out|
    requires forall k | 0 <= k < |out| :: from[k] < |raw|
    requires forall k, l | 0 <= k < l < |out| :: from[k] != from[l]
    requires forall k, l | 0 <= k < l < |out| && out[k].start == out[l].start :: from[k] < from[l]
    requires forall k | p <= k < |out| :: out[k].start != x.start
    ensures var out', from' := InsertAt(out, p, x), InsertAt(from, p, |raw|);
      from'[k] != from'[l] && (out'[k].start == out'[l].start ==> from'[k] < from'[l])
  {
    hide InsertAt;
    var out', from' := InsertAt(out, p, x), InsertAt(from, p, |raw|);
    if l < p {
      assert out'[k] == out[k] && from'[k] == from[k] && out'[l] == out[l] && from'[l] == from[l];
    } else if l == p {
      assert out'[k] == out[k] && from'[k] == from[k] && from'[l] == |raw|;
    } else if k < p {
      assert out'[k] == out[k] && from'[k] == from[k] && out'[l] == out[l - 1] && from'[l] == from[l - 1];
    } else if k == p {
      assert out'[k] == x && out'[l] == out[l - 1] && from'[l] == from[l - 1];
    } else {
      assert out'[k] == out[k - 1] && from'[k] == from[k - 1] && out'[l] == out[l - 1] && from'[l] == from[l - 1];
    }
  }

  lemma NothingInserted(raw: Transcript, seg: Segment, out: Transcript, from: seq<nat>)
    requires IsNormalized(raw, out, from) && Blank(seg.text)
    ensures IsNormalized(raw + [seg], out, from)
  {
    hide Cleans, Blank;
  }

  /** Normalizing keeps every segment that says something, once, cleaned, by start and then in the given order. */
  lemma {:induction false} NormalizingLosesNothing(raw: Transcript) returns (from: seq<nat>)
    ensures IsNormalized(raw, Normalized(raw), from)
    ensures Ordered(Normalized(raw))
  {
    hide *;
    if raw == [] {
      from := [];
      NothingNormalized();
    } else {
      from := NormalizingLosesNothing(raw[..|raw| - 1]);
      from := NormalizeOneMore(raw, from);
    }
    OrderedAndNumbers(raw);
  }

  lemma OrderedAndNumbers(raw: Transcript)
    ensures Ordered(Normalized(raw)) && Numbers(Normalized(raw))
  {
    hide Ordered, Numbers, Normalized, Cleaned;
    NormalizeIsStableSort(raw);
  }

  /** The last segment, put in its place. */
  lemma NormalizeOneMore(raw: Transcript, from0: seq<nat>) returns (from: seq<nat>)
    requires raw != [] && IsNormalized(raw[..|raw| - 1], Normalized(raw[..|raw| - 1]), from0)
    ensures IsNormalized(raw, Normalized(raw), from)
  {
    hide *;
    var n := |raw| - 1;
    var seg, out := raw[n], Normalized(raw[..n]);
    assert raw == raw[..n] + [seg];
    from := from0;
    CleaningIsFaithful(seg);
    NormalizedGrows(raw);
    if Clean(seg).None? {
      NothingInserted(raw[..n], seg, out, from);
    } else {
      var x := Clean(seg).value;
      OrderedAndNumbers(raw[..n]);
      CleanIsNumber(x);
      SameLength(raw[..n], out, from);
      var p := InsertedAt(out, x);
      InsertNormalized(raw[..n], seg, x, out, from, p);
      from := InsertAt(from, p, n);
    }
  }

  lemma NormalizedGrows(raw: Transcript)
    requires raw != []
    ensures var out, last := Normalized(raw[..|raw| - 1]), Clean(raw[|raw| - 1]);
      Normalized(raw) == if last.None? then out else Insert(out, last.value)
  {
    hide Clean, Insert;
    var before, last := Cleaned(raw[..|raw| - 1]), Clean(raw[|raw| - 1]);
    if last.Some? { assert (before + [last.value])[..|before|] == before; }
  }

  lemma SameLength(raw: Transcript, out: Transcript, from: seq<nat>)
    requires IsNormalized(raw, out, from)
    ensures |from| == |out|
  {
  }

  lemma NothingNormalized()
    ensures IsNormalized([], Normalized([]), [])
  {
  }

  lemma CleanIsNumber(seg: Segment)
    requires IsClean(seg)
    ensures seg.start != NaN
  {
  }

  method Normalize(raw: Transcript) returns (out: Transcript)
    ensures out == Normalized(raw)
    ensures Ordered(out) && exists from :: IsNormalized(raw, out, from)
  {
    hide Clean, IsNormalized, Ordered;
    var segments: Transcript := [];
    for i := 0 to |raw|
      invariant segments == Cleaned(raw[..i])
    {
      var cleaned := Clean(raw[i]);
      assert raw[..i + 1][..i] == raw[..i];
      if cleaned.Some? {
        segments := segments + [cleaned.value];
      }
    }
    assert raw[..|raw|] == raw;
    out := SortByStart(segments);
    ghost var from := NormalizingLosesNothing(raw);
  }

  /** Starts are ordered as numbers: seconds never decrease, and nothing follows an infinite start but its like. */
  lemma StartsIncrease(raw: Transcript, i: nat, j: nat)
    requires i < j < |Normalized(raw)|
    ensures Normalized(raw)[i].start.Finite? || Normalized(raw)[i].start.PosInf?
    ensures Normalized(raw)[i].start.PosInf? ==> Normalized(raw)[j].start.PosInf?
    ensures Normalized(raw)[i].start.Finite? && Normalized(raw)[j].start.Finite? ==>
              0.0 <= Normalized(raw)[i].start.seconds <= Normalized(raw)[j].start.seconds
  {
    hide Normalized, CollapseWhitespace;
    NormalizeIsStableSort(raw);
    NormalizedAreClean(raw);
    assert IsClean(Normalized(raw)[i]) && IsClean(Normalized(raw)[j]);
  }

  /** `prepare`: the raw transcript stays as it is; the chunks partition the normalized one. */
  method Prepare(raw: Transcript, maxChars: nat, contextChars: nat)
    returns (normalized: Transcript, chunks: seq<Chunk>)
    ensures normalized == Normalized(raw)
    ensures IsChunking(normalized, maxChars, contextChars, chunks)
    ensures Concatenated(chunks) == normalized
  {
    hide Normalized, IsChunking;
    normalized := Normalize(raw);
    chunks := ChunkSegments(normalized, maxChars, contextChars);
    ChunkingIsLossless(normalized, maxChars, contextChars, chunks);
  }
}
