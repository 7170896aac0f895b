/** Transcript chunking (engine/src/preprocess/chunking.rs): whole segments, greedily, up to a budget. */
module TranscriptChunking {
  import opened Domain
  import opened Text
  import opened Greedy

  datatype Chunk = Chunk(
    id: string,
    index: nat,
    segmentStart: nat,
    segmentEnd: nat,
    start: Time,
    end: Time,
    text: string,
    segments: seq<Segment>,
    preceding: Option<string>,
    following: Option<string>)

  function ChunkId(index: nat): string {
    "chunk-" + Decimal(index)
  }

  lemma ChunkIdIsInjective(i: nat, j: nat)
    requires ChunkId(i) == ChunkId(j)
    ensures i == j
  {
    assert ChunkId(i)[6..] == Decimal(i) && ChunkId(j)[6..] == Decimal(j);
    DecimalIsInjective(i, j);
  }

  /** The last `n` characters of `s`; all of it when `n` is 0, which no caller passes. */
  function Tail(s: string, n: nat): (r: string)
    ensures |r| <= |s| && r == s[|s| - |r|..]
    ensures n > 0 ==> |r| == if |s| <= n then |s| else n
  {
    if |s| <= n || n == 0 then s else s[|s| - n..]
  }

  /** The first `n` characters of `s`. */
  function Head(s: string, n: nat): (r: string)
    ensures r <= s && |r| == if |s| <= n then |s| else n
  {
    if n < |s| then s[..n] else s
  }

  function Spoken(segment: Segment): string {
    segment.speaker.GetOr("Unknown") + ": " + Trim(segment.text) + "\n"
  }

  function SpokenLines(segments: seq<Segment>): (lines: seq<string>)
    ensures |lines| == |segments| && forall k | 0 <= k < |lines| :: lines[k] == Spoken(segments[k])
  {
    seq(|segments|, k requires 0 <= k < |segments| => Spoken(segments[k]))
  }

  function AllSpoken(segments: seq<Segment>): string {
    Concat(SpokenLines(segments))
  }

  lemma SpokenLinesOfSnoc(segments: seq<Segment>, i: nat)
    requires i < |segments|
    ensures SpokenLines(segments[..i + 1]) == SpokenLines(segments[..i]) + [Spoken(segments[i])]
  {
    hide Spoken;
  }

  method SegmentsToText(segments: seq<Segment>) returns (text: string)
    ensures text == TrimEnd(AllSpoken(segments))
  {
    assert AllSpoken(segments[..0]) == "";
    hide Spoken, SpokenLines, Concat;
    var out := "";
    for i := 0 to |segments|
      invariant out == AllSpoken(segments[..i])
    {
      SpokenLinesOfSnoc(segments, i);
      ConcatOfSnoc(SpokenLines(segments[..i]), Spoken(segments[i]));
      out := out + Spoken(segments[i]);
    }
    assert segments[..|segments|] == segments;
    text := TrimEnd(out);
  }

  /** What a segment counts against the budget: its trimmed bytes and the joining newline. */
  function Weight(segment: Segment): nat {
    Size(Trim(segment.text)) + 1
  }

  function Weights(segments: seq<Segment>): (w: seq<nat>)
    ensures |w| == |segments|
  {
    seq(|segments|, i requires 0 <= i < |segments| => Weight(segments[i]))
  }

  function Budget(maxChars: nat): nat {
    if maxChars < 1 then 1 else maxChars
  }

  /** The boundaries a list of chunks draws: 0 and then every chunk's end. */
  function Bounds(chunks: seq<Chunk>): (c: seq<nat>)
    ensures |c| == |chunks| + 1
  {
    [0] + seq(|chunks|, i requires 0 <= i < |chunks| => chunks[i].segmentEnd)
  }

  /** The chunk of segments `lo..hi` at position `index`, before context is attached. */
  ghost function BareChunk(segments: seq<Segment>, lo: nat, hi: nat, index: nat): Chunk
    requires lo < hi <= |segments|
  {
    Chunk(ChunkId(index), index, lo, hi, segments[lo].start, segments[hi - 1].end,
          TrimEnd(AllSpoken(segments[lo..hi])), segments[lo..hi], None, None)
  }

  function WithoutContext(chunk: Chunk): Chunk {
    chunk.(preceding := None, following := None)
  }

  ghost predicate HasContext(chunks: seq<Chunk>, context: nat, i: nat)
    requires i < |chunks|
  {
    && chunks[i].preceding ==
         (if context > 0 && i > 0 then Some(Tail(chunks[i - 1].text, context)) else None)
    && chunks[i].following ==
         (if context > 0 && i + 1 < |chunks| then Some(Head(chunks[i + 1].text, context)) else None)
  }

  /** The chunks are the greedy ranges, in order, each carrying its own segments and both contexts. */
  ghost predicate IsChunking(segments: seq<Segment>, maxChars: nat, context: nat, chunks: seq<Chunk>) {
    var c := Bounds(chunks);
    && IsGreedy(Weights(segments), Budget(maxChars), c)
    && forall i | 0 <= i < |chunks| ::
         && c[i] < c[i + 1]
         && WithoutContext(chunks[i]) == BareChunk(segments, c[i], c[i + 1], i)
         && HasContext(chunks, context, i)
  }

  /** First pass: the ranges. */
  method PartitionSegments(segments: seq<Segment>, maxChars: nat) returns (ranges: seq<(nat, nat)>, ghost c: seq<nat>)
    requires segments != []
    ensures IsGreedy(Weights(segments), Budget(maxChars), c)
    ensures |ranges| == |c| - 1 && c[0] == 0
    ensures forall k | 0 <= k < |ranges| :: ranges[k] == (c[k], c[k + 1])
    ensures forall k | 0 <= k < |ranges| :: ranges[k].0 < ranges[k].1 <= |segments|
  {
    hide Weight, IsGreedy;
    var budget := Budget(maxChars);
    ghost var w := Weights(segments);
    var rangeStart, currentLen := 0, 0;
    ranges := [];
    c := [0];
    for i := 0 to |segments|
      invariant rangeStart <= i && (i > 0 ==> rangeStart < i)
      invariant |c| == |ranges| + 1 && c[0] == 0 && c[|ranges|] == rangeStart
      invariant forall k | 0 <= k < |ranges| :: Closed(w, budget, c[k], c[k + 1]) && ranges[k] == (c[k], c[k + 1])
      invariant forall k | 0 <= k < |ranges| :: ranges[k].0 < ranges[k].1 <= i
      invariant currentLen == Sum(w, rangeStart, i)
      invariant i == rangeStart || Fits(w, budget, rangeStart, i)
    {
      var segLen := Weight(segments[i]);
      assert w[i] == segLen;
      var isEmptyChunk := i == rangeStart;
      if !isEmptyChunk && currentLen + segLen > budget {
        assert Closed(w, budget, rangeStart, i);
        ranges := ranges + [(rangeStart, i)];
        rangeStart := i;
        currentLen := 0;
        c := c + [i];
      }
      currentLen := currentLen + segLen;
    }
    ranges := ranges + [(rangeStart, |segments|)];
    c := c + [|segments|];
    ClosedRangesAreGreedy(w, budget, c);
  }

  /** Second pass: one chunk per range, without context. */
  method BuildChunks(segments: seq<Segment>, ranges: seq<(nat, nat)>) returns (chunks: seq<Chunk>)
    requires forall k | 0 <= k < |ranges| :: ranges[k].0 < ranges[k].1 <= |segments|
    ensures |chunks| == |ranges|
    ensures forall k | 0 <= k < |chunks| :: chunks[k] == BareChunk(segments, ranges[k].0, ranges[k].1, k)
  {
    hide AllSpoken, ChunkId;
    chunks := [];
    for index := 0 to |ranges|
      invariant |chunks| == index
      invariant forall k | 0 <= k < index :: chunks[k] == BareChunk(segments, ranges[k].0, ranges[k].1, k)
    {
      var (s, e) := ranges[index];
      var slice := segments[s..e];
      var text := SegmentsToText(slice);
      var chunk := Chunk(ChunkId(index), index, s, e, slice[0].start, slice[|slice| - 1].end, text, slice, None, None);
      assert chunk == BareChunk(segments, s, e, index);
      chunks := chunks + [chunk];
    }
  }

  /** Third pass: every chunk gets the tail of the one before and the head of the one after. */
  method AttachContext(bare: seq<Chunk>, contextChars: nat) returns (chunks: seq<Chunk>)
    requires forall k | 0 <= k < |bare| :: bare[k] == WithoutContext(bare[k])
    ensures |chunks| == |bare|
    ensures forall k | 0 <= k < |chunks| :: WithoutContext(chunks[k]) == bare[k] && HasContext(chunks, contextChars, k)
  {
    hide Tail, Head, HasContext, WithoutContext, WithContext;
    ghost var out := seq(|bare|, k requires 0 <= k < |bare| => WithContext(bare, contextChars, k));
    WithContextIsRight(bare, contextChars, out);
    chunks := bare;
    if contextChars > 0 {
      for i := 0 to |bare|
        invariant |chunks| == |bare|
        invariant forall k | i <= k < |bare| :: chunks[k] == bare[k]
        invariant forall k | 0 <= k < i :: chunks[k] == out[k]
      {
        var chunk := bare[i];
        if i > 0 {
          chunk := chunk.(preceding := Some(Tail(bare[i - 1].text, contextChars)));
        }
        if i + 1 < |bare| {
          chunk := chunk.(following := Some(Head(bare[i + 1].text, contextChars)));
        }
        ContextAdded(bare, contextChars, i, chunk);
        chunks := chunks[i := chunk];
      }
    } else {
      NoContextAdded(bare, out);
    }
    assert chunks == out;
  }

  ghost function WithContext(bare: seq<Chunk>, context: nat, k: nat): Chunk
    requires k < |bare|
  {
    bare[k].(preceding := if context > 0 && k > 0 then Some(Tail(bare[k - 1].text, context)) else None,
             following := if context > 0 && k + 1 < |bare| then Some(Head(bare[k + 1].text, context)) else None)
  }

  lemma WithContextIsRight(bare: seq<Chunk>, context: nat, out: seq<Chunk>)
    requires |out| == |bare| && forall k | 0 <= k < |bare| :: out[k] == WithContext(bare, context, k)
    requires forall k | 0 <= k < |bare| :: bare[k] == WithoutContext(bare[k])
    ensures forall k | 0 <= k < |bare| :: WithoutContext(out[k]) == bare[k] && HasContext(out, context, k)
  {
    hide Tail, Head;
  }

  lemma ContextAdded(bare: seq<Chunk>, context: nat, i: nat, chunk: Chunk)
    requires i < |bare| && context > 0 && bare[i] == WithoutContext(bare[i])
    requires chunk == bare[i].(preceding := if i > 0 then Some(Tail(bare[i - 1].text, context)) else bare[i].preceding,
                               following := if i + 1 < |bare| then Some(Head(bare[i + 1].text, context)) else bare[i].following)
    ensures chunk == WithContext(bare, context, i)
  {
    hide Tail, Head;
  }

  lemma NoContextAdded(bare: seq<Chunk>, out: seq<Chunk>)
    requires |out| == |bare| && forall k | 0 <= k < |bare| :: out[k] == WithContext(bare, 0, k)
    requires forall k | 0 <= k < |bare| :: bare[k] == WithoutContext(bare[k])
    ensures out == bare
  {
  }

  method ChunkSegments(segments: seq<Segment>, maxChars: nat, contextChars: nat) returns (chunks: seq<Chunk>)
    ensures IsChunking(segments, maxChars, contextChars, chunks)
  {
    hide Weight, AllSpoken, ChunkId, IsGreedy, Tail, Head, BareChunk, WithoutContext, HasContext;
    if segments == [] {
      chunks := [];
      EmptyIsGreedy(Budget(maxChars));
      assert Bounds(chunks) == [0] && Weights(segments) == [];
      return;
    }
    var ranges, c := PartitionSegments(segments, maxChars);
    var bare := BuildChunks(segments, ranges);
    forall k | 0 <= k < |bare| ensures bare[k].segmentEnd == c[k + 1] && bare[k] == WithoutContext(bare[k]) {
      BareEnd(segments, c[k], c[k + 1], k);
    }
    chunks := AttachContext(bare, contextChars);
    assert Bounds(bare) == c;
    ContextKeepsBounds(bare, chunks);
  }

  lemma BareEnd(segments: seq<Segment>, lo: nat, hi: nat, index: nat)
    requires lo < hi <= |segments|
    ensures BareChunk(segments, lo, hi, index).segmentEnd == hi
    ensures BareChunk(segments, lo, hi, index) == WithoutContext(BareChunk(segments, lo, hi, index))
  {
    hide AllSpoken, ChunkId;
  }

  lemma ContextKeepsBounds(bare: seq<Chunk>, chunks: seq<Chunk>)
    requires |chunks| == |bare|
    requires forall k | 0 <= k < |chunks| :: WithoutContext(chunks[k]) == bare[k]
    ensures Bounds(chunks) == Bounds(bare)
  {
  }

  ghost function Concatenated(chunks: seq<Chunk>): seq<Segment> {
    if chunks == [] then []
    else Concatenated(chunks[..|chunks| - 1]) + chunks[|chunks| - 1].segments
  }

  ghost predicate Holds(chunk: Chunk, segments: seq<Segment>, lo: nat, hi: nat) {
    lo < hi <= |segments| && chunk.segments == segments[lo..hi]
  }

  lemma {:induction false} ConcatenatedPrefix(segments: seq<Segment>, chunks: seq<Chunk>, c: seq<nat>, n: nat)
    requires n <= |chunks| == |c| - 1 && c[0] == 0
    requires forall i | 0 <= i < |chunks| :: Holds(chunks[i], segments, c[i], c[i + 1])
    ensures c[n] <= |segments| && Concatenated(chunks[..n]) == segments[..c[n]]
  {
    if n > 0 {
      ConcatenatedPrefix(segments, chunks, c, n - 1);
      assert Holds(chunks[n - 1], segments, c[n - 1], c[n]);
      assert chunks[..n][..n - 1] == chunks[..n - 1];
      assert segments[..c[n - 1]] + segments[c[n - 1]..c[n]] == segments[..c[n]];
    }
  }

  /** No segment is lost, repeated or moved by chunking. */
  lemma ChunkingIsLossless(segments: seq<Segment>, maxChars: nat, context: nat, chunks: seq<Chunk>)
    requires IsChunking(segments, maxChars, context, chunks)
    ensures Concatenated(chunks) == segments
  {
    hide GreedyRange, HasContext, AllSpoken, ChunkId, TrimEnd;
    var c := Bounds(chunks);
    forall i | 0 <= i < |chunks| ensures Holds(chunks[i], segments, c[i], c[i + 1]) {
      ChunkIsBare(segments, maxChars, context, chunks, i);
    }
    ConcatenatedPrefix(segments, chunks, c, |chunks|);
    assert chunks[..|chunks|] == chunks;
  }

  /** What the segments say, each trimmed, on lines of their own. */
  function Said(segments: seq<Segment>): string {
    Join(seq(|segments|, i requires 0 <= i < |segments| => Trim(segments[i].text)), "\n")
  }

  lemma {:induction false} WeightsAreBytes(segments: seq<Segment>, lo: nat, hi: nat)
    requires lo < hi <= |segments|
    ensures Sum(Weights(segments), lo, hi) == Size(Said(segments[lo..hi])) + 1
    decreases hi - lo
  {
    hide Size, Trim, Join;
    var said := seq(hi - lo, i requires 0 <= i < hi - lo => Trim(segments[lo..hi][i].text));
    var last := Trim(segments[hi - 1].text);
    if hi - lo == 1 {
      JoinOfFew(last, "\n");
      assert said == [last];
    } else {
      WeightsAreBytes(segments, lo, hi - 1);
      var before := seq(hi - 1 - lo, i requires 0 <= i < hi - 1 - lo => Trim(segments[lo..hi - 1][i].text));
      assert said == before + [last];
      JoinOfSnoc(before, last, "\n");
      SizeOfConcat(Join(before, "\n") + "\n", last);
      SizeOfConcat(Join(before, "\n"), "\n");
      NewlineSize();
    }
  }

  /**
   * Every chunk is a stretch of segments that starts where the one before ended. It is within the budget unless it is
   * a single segment, and with the next segment it would not be.
   */
  lemma EveryChunkFits(segments: seq<Segment>, maxChars: nat, context: nat, chunks: seq<Chunk>, i: nat)
    requires IsChunking(segments, maxChars, context, chunks) && i < |chunks|
    ensures chunks[i].segmentStart == if i == 0 then 0 else chunks[i - 1].segmentEnd
    ensures chunks[i].segmentStart < chunks[i].segmentEnd <= |segments|
    ensures chunks[i].segments == segments[chunks[i].segmentStart..chunks[i].segmentEnd]
    ensures |chunks[i].segments| > 1 ==> Size(Said(chunks[i].segments)) + 1 <= (if maxChars < 1 then 1 else maxChars)
    ensures chunks[i].segmentEnd < |segments| ==>
              Size(Said(chunks[i].segments + [segments[chunks[i].segmentEnd]])) + 1 > (if maxChars < 1 then 1 else maxChars)
  {
    hide IsChunking, AllSpoken, ChunkId, Said, Size, Weights, Sum;
    var c := Bounds(chunks);
    ChunkIsBare(segments, maxChars, context, chunks, i);
    WeightsAreBytes(segments, c[i], c[i + 1]);
    if c[i + 1] < |segments| {
      WeightsAreBytes(segments, c[i], c[i + 1] + 1);
      assert segments[c[i]..c[i + 1] + 1] == chunks[i].segments + [segments[c[i + 1]]];
    }
  }

  lemma ChunkIsBare(segments: seq<Segment>, maxChars: nat, context: nat, chunks: seq<Chunk>, i: nat)
    requires IsChunking(segments, maxChars, context, chunks) && i < |chunks|
    ensures GreedyRange(Weights(segments), Budget(maxChars), Bounds(chunks), i)
    ensures Bounds(chunks)[i] < Bounds(chunks)[i + 1] <= |segments|
    ensures WithoutContext(chunks[i]) == BareChunk(segments, Bounds(chunks)[i], Bounds(chunks)[i + 1], i)
    ensures HasContext(chunks, context, i)
  {
    hide BareChunk, Weights, WithoutContext, HasContext, Fits, Full;
    var c := Bounds(chunks);
    assert GreedyRange(Weights(segments), Budget(maxChars), c, i);
  }

  /** A line of a chunk's text: who spoke, or that it is unknown, and what was said, trimmed. */
  lemma SpokenLine(segment: Segment)
    ensures segment.speaker.None? ==> Spoken(segment) == "Unknown: " + Trim(segment.text) + "\n"
    ensures segment.speaker.Some? ==> Spoken(segment) == segment.speaker.value + ": " + Trim(segment.text) + "\n"
  {
    assert "Unknown" + ": " == "Unknown: ";
  }

  /** What a chunk carries: its position in its name, the times of its first and last segment, the spoken lines. */
  lemma ChunkCarries(segments: seq<Segment>, maxChars: nat, context: nat, chunks: seq<Chunk>, i: nat)
    requires IsChunking(segments, maxChars, context, chunks) && i < |chunks|
    ensures var ch := chunks[i];
      && ch.id == "chunk-" + Decimal(i) && ch.index == i && ch.segments != []
      && ch.start == ch.segments[0].start && ch.end == ch.segments[|ch.segments| - 1].end
      && ch.text == TrimEnd(Concat(SpokenLines(ch.segments)))
  {
    hide *;
    ChunkIsBare(segments, maxChars, context, chunks, i);
    BareFields(chunks[i], segments, Bounds(chunks)[i], Bounds(chunks)[i + 1], i);
  }

  lemma BareFields(ch: Chunk, segments: seq<Segment>, lo: nat, hi: nat, i: nat)
    requires lo < hi <= |segments| && WithoutContext(ch) == BareChunk(segments, lo, hi, i)
    ensures ch.id == "chunk-" + Decimal(i) && ch.index == i && ch.segments != []
    ensures ch.start == ch.segments[0].start && ch.end == ch.segments[|ch.segments| - 1].end
    ensures ch.text == TrimEnd(Concat(SpokenLines(ch.segments)))
  {
    hide SpokenLines, Decimal, TrimEnd;
    var bare := BareChunk(segments, lo, hi, i);
    assert ch.id == WithoutContext(ch).id == bare.id && ch.index == bare.index && ch.segments == bare.segments;
    assert ch.start == bare.start && ch.end == bare.end && ch.text == bare.text;
  }

  /** No admissible way of cutting the transcript gives fewer chunks, or a later k-th boundary. */
  lemma ChunkingIsMinimal(segments: seq<Segment>, maxChars: nat, context: nat, chunks: seq<Chunk>, d: seq<nat>)
    requires IsChunking(segments, maxChars, context, chunks)
    requires IsPartition(Weights(segments), Budget(maxChars), d)
    ensures |chunks| <= |d| - 1
    ensures forall k | 0 <= k < |chunks| :: d[k + 1] <= chunks[k].segmentEnd
  {
    var c := Bounds(chunks);
    Fewest(Weights(segments), Budget(maxChars), c, d);
    forall k | 0 <= k < |chunks| ensures d[k + 1] <= chunks[k].segmentEnd {
      StaysAhead(Weights(segments), Budget(maxChars), c, d, k + 1);
    }
  }

  /** The same transcript and configuration always give the same chunks. */
  lemma ChunkingIsDeterministic(segments: seq<Segment>, maxChars: nat, context: nat, a: seq<Chunk>, b: seq<Chunk>)
    requires IsChunking(segments, maxChars, context, a) && IsChunking(segments, maxChars, context, b)
    ensures a == b
  {
    Unique(Weights(segments), Budget(maxChars), Bounds(a), Bounds(b));
    assert |a| == |b|;
    var c := Bounds(a);
    forall i | 0 <= i < |a| ensures WithoutContext(a[i]) == WithoutContext(b[i]) {
      assert c[i] == Bounds(b)[i] && c[i + 1] == Bounds(b)[i + 1];
    }
    assert forall i | 0 <= i < |a| :: a[i].text == b[i].text;
    forall i | 0 <= i < |a| ensures a[i] == b[i] {
      assert HasContext(a, context, i) && HasContext(b, context, i);
    }
  }
}
