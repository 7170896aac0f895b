/** Markdown chunking for retrieval (engine/src/search/chunker.rs): whole paragraphs, with line ranges. */
module MarkdownChunker {
  import opened Domain
  import opened Text
  import opened Greedy

  /** A passage and the 0-based, inclusive range of lines it spans. */
  datatype Chunk = Chunk(startLine: nat, endLine: nat, text: string)

  const DEFAULT_CHUNK_CHARS := 1200

  // ----- Paragraphs -----

  /** A run of lines `lo..hi`. */
  datatype Run = Run(lo: nat, hi: nat)

  function SkipBlank(lines: seq<string>, i: nat): (j: nat)
    requires i <= |lines|
    ensures i <= j <= |lines| && (j < |lines| ==> !Blank(lines[j]))
    ensures forall k | i <= k < j :: Blank(lines[k])
    decreases |lines| - i
  {
    if i < |lines| && Blank(lines[i]) then SkipBlank(lines, i + 1) else i
  }

  function SkipText(lines: seq<string>, i: nat): (j: nat)
    requires i <= |lines|
    ensures i <= j <= |lines| && (j < |lines| ==> Blank(lines[j]))
    ensures forall k | i <= k < j :: !Blank(lines[k])
    decreases |lines| - i
  {
    if i < |lines| && !Blank(lines[i]) then SkipText(lines, i + 1) else i
  }

  /** A maximal run of non-blank lines at or after line `start`. */
  ghost predicate IsParagraph(lines: seq<string>, start: nat, p: Run) {
    && start <= p.lo < p.hi <= |lines|
    && (forall k | p.lo <= k < p.hi :: !Blank(lines[k]))
    && (p.lo == start || Blank(lines[p.lo - 1]))
    && (p.hi == |lines| || Blank(lines[p.hi]))
  }

  ghost predicate Covered(ps: seq<Run>, line: nat) {
    exists k | 0 <= k < |ps| :: ps[k].lo <= line < ps[k].hi
  }

  /** `ps` are the paragraphs from line `start` on: in order, apart, and leaving out no non-blank line. */
  ghost predicate AreParagraphs(lines: seq<string>, start: nat, ps: seq<Run>) {
    && (forall k | 0 <= k < |ps| :: IsParagraph(lines, start, ps[k]))
    && (forall k, l | 0 <= k < l < |ps| :: ps[k].hi < ps[l].lo)
    && (forall i | start <= i < |lines| && !Blank(lines[i]) :: Covered(ps, i))
  }

  /** The paragraphs from line `start` on: exactly the maximal non-blank runs, in order. */
  function Paragraphs(lines: seq<string>, start: nat): (ps: seq<Run>)
    requires start <= |lines|
    ensures AreParagraphs(lines, start, ps)
    decreases |lines| - start
  {
    hide Blank;
    var lo := SkipBlank(lines, start);
    if lo == |lines| then []
    else
      var hi := SkipText(lines, lo);
      var rest := Paragraphs(lines, hi);
      var ps := [Run(lo, hi)] + rest;
      ParagraphPrepend(lines, start, lo, hi, rest);
      ps
  }

  lemma ParagraphPrepend(lines: seq<string>, start: nat, lo: nat, hi: nat, rest: seq<Run>)
    requires start <= lo < hi <= |lines|
    requires forall k | start <= k < lo :: Blank(lines[k])
    requires IsParagraph(lines, lo, Run(lo, hi))
    requires AreParagraphs(lines, hi, rest)
    ensures AreParagraphs(lines, start, [Run(lo, hi)] + rest)
  {
    hide Blank;
    var ps := [Run(lo, hi)] + rest;
    assert ps[0] == Run(lo, hi);
    forall k | 0 < k < |ps| ensures IsParagraph(lines, start, ps[k]) && hi < ps[k].lo {
      assert ps[k] == rest[k - 1] && IsParagraph(lines, hi, rest[k - 1]);
    }
    forall k, l | 0 <= k < l < |ps| ensures ps[k].hi < ps[l].lo {
      assert ps[l] == rest[l - 1];
      if k > 0 { assert ps[k] == rest[k - 1]; }
    }
    forall i | start <= i < |lines| && !Blank(lines[i]) ensures Covered(ps, i) {
      if i >= hi { CoveredPrepend(Run(lo, hi), rest, i); }
    }
  }

  lemma CoveredPrepend(p: Run, rest: seq<Run>, i: nat)
    requires Covered(rest, i)
    ensures Covered([p] + rest, i)
  {
    var k :| 0 <= k < |rest| && rest[k].lo <= i < rest[k].hi;
    assert ([p] + rest)[k + 1] == rest[k];
  }

  // ----- What a range of lines contributes -----

  /** The non-blank lines of `lo..hi`, numbered. */
  function NonBlank(lines: seq<string>, lo: nat, hi: nat): (r: seq<(nat, string)>)
    requires lo <= hi <= |lines|
    decreases hi - lo
  {
    if lo == hi then []
    else
      NonBlank(lines, lo, hi - 1) + if Blank(lines[hi - 1]) then [] else [(hi - 1, lines[hi - 1])]
  }

  /** Bytes of the given lines, each with its newline. */
  function Chars(numbered: seq<(nat, string)>): nat {
    if numbered == [] then 0
    else Chars(numbered[..|numbered| - 1]) + Size(numbered[|numbered| - 1].1) + 1
  }

  lemma {:induction false} CharsOfConcat(a: seq<(nat, string)>, b: seq<(nat, string)>)
    ensures Chars(a + b) == Chars(a) + Chars(b)
  {
    hide Size;
    if b == [] {
      assert a + b == a;
    } else {
      var n := |b| - 1;
      assert (a + b)[..|a| + n] == a + b[..n] && (a + b)[|a| + n] == b[n];
      CharsOfConcat(a, b[..n]);
    }
  }

  /** Exactly the lines of the range that are not blank, with their numbers, in order. */
  ghost predicate AreNonBlank(lines: seq<string>, lo: nat, hi: nat, r: seq<(nat, string)>)
    requires hi <= |lines|
  {
    && (forall k | 0 <= k < |r| :: lo <= r[k].0 < hi && r[k].1 == lines[r[k].0] && !Blank(r[k].1))
    && (forall k, l | 0 <= k < l < |r| :: r[k].0 < r[l].0)
    && (forall i | lo <= i < hi && !Blank(lines[i]) :: (i, lines[i]) in r)
  }

  lemma {:induction false} NonBlankAre(lines: seq<string>, lo: nat, hi: nat)
    requires lo <= hi <= |lines|
    ensures AreNonBlank(lines, lo, hi, NonBlank(lines, lo, hi))
    decreases hi - lo
  {
    hide Blank;
    if lo < hi { NonBlankAre(lines, lo, hi - 1); }
  }

  /** What accumulated lines count is the size of their joined text and one newline more. */
  lemma {:induction false} CharsAreBytes(numbered: seq<(nat, string)>)
    requires numbered != []
    ensures Chars(numbered) == Size(Join(Texts(numbered), "\n")) + 1
  {
    hide Size;
    var n := |numbered| - 1;
    if n == 0 {
      assert Texts(numbered) == [numbered[0].1] && numbered[..0] == [];
    } else {
      CharsAreBytes(numbered[..n]);
      assert Texts(numbered) == Texts(numbered[..n]) + [numbered[n].1];
      JoinOfSnoc(Texts(numbered[..n]), numbered[n].1, "\n");
      SizeOfConcat(Join(Texts(numbered[..n]), "\n") + "\n", numbered[n].1);
      SizeOfConcat(Join(Texts(numbered[..n]), "\n"), "\n");
      NewlineSize();
    }
  }

  lemma {:induction false} NonBlankSplits(lines: seq<string>, lo: nat, mid: nat, hi: nat)
    requires lo <= mid <= hi <= |lines|
    ensures NonBlank(lines, lo, hi) == NonBlank(lines, lo, mid) + NonBlank(lines, mid, hi)
    decreases hi - mid
  {
    hide Blank;
    if mid < hi { NonBlankSplits(lines, lo, mid, hi - 1); }
  }

  lemma {:induction false} NonBlankOfBlank(lines: seq<string>, lo: nat, hi: nat)
    requires lo <= hi <= |lines| && forall k | lo <= k < hi :: Blank(lines[k])
    ensures NonBlank(lines, lo, hi) == []
    decreases hi - lo
  {
    hide Blank;
    if lo < hi { NonBlankOfBlank(lines, lo, hi - 1); }
  }

  function Numbered(lines: seq<string>, lo: nat, hi: nat): (r: seq<(nat, string)>)
    requires lo <= hi <= |lines|
  {
    seq(hi - lo, k requires 0 <= k < hi - lo => (lo + k, lines[lo + k]))
  }

  lemma {:induction false} NumberedIsNonBlank(lines: seq<string>, lo: nat, hi: nat)
    requires lo <= hi <= |lines| && forall k | lo <= k < hi :: !Blank(lines[k])
    ensures Numbered(lines, lo, hi) == NonBlank(lines, lo, hi)
    decreases hi - lo
  {
    hide Blank;
    if lo < hi {
      NumberedIsNonBlank(lines, lo, hi - 1);
      assert Numbered(lines, lo, hi) == Numbered(lines, lo, hi - 1) + [(hi - 1, lines[hi - 1])];
    }
  }

  function Texts(numbered: seq<(nat, string)>): (r: seq<string>)
    ensures |r| == |numbered|
  {
    seq(|numbered|, k requires 0 <= k < |numbered| => numbered[k].1)
  }

  /** What the accumulated lines become when they are flushed. */
  function Flush(cur: seq<(nat, string)>): Chunk
    requires cur != []
  {
    Chunk(cur[0].0, cur[|cur| - 1].0, Join(Texts(cur), "\n"))
  }

  function RangeChunk(lines: seq<string>, lo: nat, hi: nat): Chunk
    requires lo < hi <= |lines|
  {
    Chunk(lo, hi - 1, Join(Texts(NonBlank(lines, lo, hi)), "\n"))
  }

  /** Flushing the non-blank lines of a range that starts and ends non-blank gives that range. */
  lemma FlushOfRange(lines: seq<string>, lo: nat, hi: nat)
    requires lo < hi <= |lines| && !Blank(lines[lo]) && !Blank(lines[hi - 1])
    ensures NonBlank(lines, lo, hi) != [] && Flush(NonBlank(lines, lo, hi)) == RangeChunk(lines, lo, hi)
  {
    hide Blank;
    NonBlankSplits(lines, lo, lo + 1, hi);
    assert NonBlank(lines, lo, lo) == [];
    assert NonBlank(lines, lo, lo + 1) == [(lo, lines[lo])];
  }

  // ----- The specification -----

  function ParagraphChars(lines: seq<string>, p: Run): nat {
    if p.lo <= p.hi <= |lines| then Chars(NonBlank(lines, p.lo, p.hi)) else 0
  }

  function Weights(lines: seq<string>, ps: seq<Run>): (w: seq<nat>)
    ensures |w| == |ps|
  {
    seq(|ps|, k requires 0 <= k < |ps| => ParagraphChars(lines, ps[k]))
  }

  function Budget(maxChars: nat): nat {
    if maxChars < 1 then 1 else maxChars
  }

  /** The boundaries between chunks, counted in paragraphs. */
  function Boundaries(lines: seq<string>, maxChars: nat): (c: seq<nat>)
    ensures IsGreedy(Weights(lines, Paragraphs(lines, 0)), Budget(maxChars), c)
  {
    Cuts(Weights(lines, Paragraphs(lines, 0)), Budget(maxChars), 0)
  }

  /** Chunk k covers paragraphs `c[k]..c[k+1]`. */
  function ChunkAt(lines: seq<string>, ps: seq<Run>, c: seq<nat>, k: nat): Chunk
    requires k + 1 < |c| && c[k] < c[k + 1] <= |ps|
    requires ps[c[k]].lo < ps[c[k + 1] - 1].hi <= |lines|
  {
    RangeChunk(lines, ps[c[k]].lo, ps[c[k + 1] - 1].hi)
  }

  lemma RangeIsProper(lines: seq<string>, maxChars: nat, k: nat)
    requires k + 1 < |Boundaries(lines, maxChars)|
    ensures var c, ps := Boundaries(lines, maxChars), Paragraphs(lines, 0);
      && c[k] < c[k + 1] <= |ps|
      && ps[c[k]].lo < ps[c[k + 1] - 1].hi <= |lines|
      && !Blank(lines[ps[c[k]].lo]) && !Blank(lines[ps[c[k + 1] - 1].hi - 1])
  {
    hide Blank, Boundaries, Weights, Paragraphs, Fits, Full;
    var c, ps := Boundaries(lines, maxChars), Paragraphs(lines, 0);
    assert GreedyRange(Weights(lines, ps), Budget(maxChars), c, k);
    assert c[k] < c[k + 1] by { RangeIsNotEmpty(lines, maxChars, k); }
    assert IsParagraph(lines, 0, ps[c[k]]) && IsParagraph(lines, 0, ps[c[k + 1] - 1]);
    if c[k] < c[k + 1] - 1 { assert ps[c[k]].hi < ps[c[k + 1] - 1].lo; }
  }

  lemma RangeIsNotEmpty(lines: seq<string>, maxChars: nat, k: nat)
    requires k + 1 < |Boundaries(lines, maxChars)|
    ensures Boundaries(lines, maxChars)[k] < Boundaries(lines, maxChars)[k + 1]
  {
    hide Blank, Boundaries, Weights, Paragraphs;
    assert GreedyRange(Weights(lines, Paragraphs(lines, 0)), Budget(maxChars), Boundaries(lines, maxChars), k);
  }

  function ChunksOfLines(lines: seq<string>, maxChars: nat): (chunks: seq<Chunk>)
    ensures |chunks| == |Boundaries(lines, maxChars)| - 1
  {
    hide Boundaries, Paragraphs, ChunkAt, Blank;
    var c, ps := Boundaries(lines, maxChars), Paragraphs(lines, 0);
    seq(|c| - 1, k requires 0 <= k < |c| - 1 => RangeIsProper(lines, maxChars, k); ChunkAt(lines, ps, c, k))
  }

  lemma ChunkOfLinesAt(lines: seq<string>, maxChars: nat, k: nat)
    requires k + 1 < |Boundaries(lines, maxChars)|
    ensures Boundaries(lines, maxChars)[k] < Boundaries(lines, maxChars)[k + 1] <= |Paragraphs(lines, 0)|
    ensures Paragraphs(lines, 0)[Boundaries(lines, maxChars)[k]].lo
              < Paragraphs(lines, 0)[Boundaries(lines, maxChars)[k + 1] - 1].hi <= |lines|
    ensures ChunksOfLines(lines, maxChars)[k] == ChunkAt(lines, Paragraphs(lines, 0), Boundaries(lines, maxChars), k)
  {
    hide Blank, Boundaries, Paragraphs;
    RangeIsProper(lines, maxChars, k);
  }

  /** The chunks of a note. */
  function ChunksOf(text: string, maxChars: nat): seq<Chunk> {
    ChunksOfLines(Lines(text), maxChars)
  }

  // ----- The scan -----

  /** Chunk k is closed: greedy among the first `n` paragraphs, and cut where `c` says. */
  ghost predicate ClosedChunk(lines: seq<string>, budget: nat, n: nat, c: seq<nat>, chunks: seq<Chunk>, k: nat)
    requires k < |chunks| && k + 1 < |c|
  {
    var ps := Paragraphs(lines, 0);
    && Closed(Weights(lines, ps), budget, c[k], c[k + 1]) && c[k + 1] <= n
    && ps[c[k]].lo < ps[c[k + 1] - 1].hi <= |lines| && chunks[k] == ChunkAt(lines, ps, c, k)
  }

  /** The scan has consumed `n` paragraphs, closed `chunks`, and accumulated the rest in `cur`. */
  ghost predicate Scanned(lines: seq<string>, budget: nat, n: nat, c: seq<nat>,
                          chunks: seq<Chunk>, cur: seq<(nat, string)>, curChars: nat)
  {
    && n <= |Paragraphs(lines, 0)| && |c| == |chunks| + 1 && c[0] == 0
    && c[|chunks|] <= n && (n > 0 ==> c[|chunks|] < n)
    && (forall k | 0 <= k < |chunks| :: ClosedChunk(lines, budget, n, c, chunks, k))
    && Accumulated(lines, budget, c[|chunks|], n, cur, curChars)
  }

  /** `cur` holds the non-blank lines of paragraphs `first..n`, which together are admissible. */
  ghost predicate Accumulated(lines: seq<string>, budget: nat, first: nat, n: nat, cur: seq<(nat, string)>, curChars: nat)
    requires first <= n <= |Paragraphs(lines, 0)|
  {
    var ps := Paragraphs(lines, 0);
    var w := Weights(lines, ps);
    && curChars == Sum(w, first, n) == Chars(cur)
    && (first == n ==> cur == [])
    && (first < n ==> (
          && Fits(w, budget, first, n)
          && ps[first].lo < ps[n - 1].hi <= |lines|
          && cur == NonBlank(lines, ps[first].lo, ps[n - 1].hi)))
  }

  /** Adding the next paragraph to `cur`. */
  lemma Accumulate(lines: seq<string>, budget: nat, first: nat, n: nat, cur: seq<(nat, string)>, curChars: nat,
                   p: Run, para: seq<(nat, string)>)
    requires first <= n < |Paragraphs(lines, 0)| && p == Paragraphs(lines, 0)[n]
    requires p.lo < p.hi <= |lines| && para == NonBlank(lines, p.lo, p.hi)
    requires Accumulated(lines, budget, first, n, cur, curChars)
    requires first == n || curChars + Chars(para) <= budget
    ensures Accumulated(lines, budget, first, n + 1, cur + para, curChars + Chars(para))
  {
    hide Blank, Paragraphs, NonBlank, Chars, Size, Weights, AreParagraphs;
    var ps := Paragraphs(lines, 0);
    WeightAt(lines, ps, n);
    CharsOfConcat(cur, para);
    if first < n {
      Extend(lines, first, n, para);
    } else {
      assert cur + para == para;
    }
  }

  lemma Extend(lines: seq<string>, first: nat, n: nat, para: seq<(nat, string)>)
    requires first < n < |Paragraphs(lines, 0)|
    requires Paragraphs(lines, 0)[n].lo < Paragraphs(lines, 0)[n].hi <= |lines|
    requires para == NonBlank(lines, Paragraphs(lines, 0)[n].lo, Paragraphs(lines, 0)[n].hi)
    ensures Paragraphs(lines, 0)[first].lo < Paragraphs(lines, 0)[n - 1].hi <= Paragraphs(lines, 0)[n].hi
    ensures NonBlank(lines, Paragraphs(lines, 0)[first].lo, Paragraphs(lines, 0)[n].hi)
              == NonBlank(lines, Paragraphs(lines, 0)[first].lo, Paragraphs(lines, 0)[n - 1].hi) + para
  {
    hide Blank, Paragraphs, NonBlank;
    var ps := Paragraphs(lines, 0);
    var s, q, p := ps[first], ps[n - 1], ps[n];
    assert IsParagraph(lines, 0, s) && IsParagraph(lines, 0, q) && q.hi < p.lo;
    BlankBetween(lines, n - 1);
    NonBlankOfBlank(lines, q.hi, p.lo);
    NonBlankSplits(lines, s.lo, q.hi, p.hi);
    NonBlankSplits(lines, q.hi, p.lo, p.hi);
    assert [] + para == para;
  }

  lemma WeightAt(lines: seq<string>, ps: seq<Run>, k: nat)
    requires k < |ps|
    ensures Weights(lines, ps)[k] == ParagraphChars(lines, ps[k])
  {
  }

  lemma BlankBetween(lines: seq<string>, k: nat)
    requires k + 1 < |Paragraphs(lines, 0)|
    ensures forall i | Paragraphs(lines, 0)[k].hi <= i < Paragraphs(lines, 0)[k + 1].lo && i < |lines| :: Blank(lines[i])
  {
    hide Blank, Paragraphs;
    var ps := Paragraphs(lines, 0);
    forall i | ps[k].hi <= i < ps[k + 1].lo && i < |lines| ensures Blank(lines[i]) {
      if !Blank(lines[i]) {
        assert Covered(ps, i);
        var m :| 0 <= m < |ps| && ps[m].lo <= i < ps[m].hi;
        NotBetween(lines, k, m, i);
        assert false;
      }
    }
  }

  lemma NotBetween(lines: seq<string>, k: nat, m: nat, i: nat)
    requires k + 1 < |Paragraphs(lines, 0)| && m < |Paragraphs(lines, 0)|
    requires Paragraphs(lines, 0)[m].lo <= i < Paragraphs(lines, 0)[m].hi
    ensures i < Paragraphs(lines, 0)[k].hi || Paragraphs(lines, 0)[k + 1].lo <= i
  {
    hide Blank, Paragraphs;
    var ps := Paragraphs(lines, 0);
    assert IsParagraph(lines, 0, ps[k]) && IsParagraph(lines, 0, ps[k + 1]);
    if m < k { assert ps[m].hi < ps[k].lo; } else if m > k + 1 { assert ps[k + 1].hi < ps[m].lo; }
  }

  lemma LastChunkCloses(lines: seq<string>, budget: nat, first: nat, n: nat, cur: seq<(nat, string)>, curChars: nat)
    requires first < n < |Paragraphs(lines, 0)| && Accumulated(lines, budget, first, n, cur, curChars)
    requires curChars + ParagraphChars(lines, Paragraphs(lines, 0)[n]) > budget
    ensures cur != [] && Closed(Weights(lines, Paragraphs(lines, 0)), budget, first, n)
    ensures Paragraphs(lines, 0)[first].lo < Paragraphs(lines, 0)[n - 1].hi <= |lines|
    ensures Flush(cur) == RangeChunk(lines, Paragraphs(lines, 0)[first].lo, Paragraphs(lines, 0)[n - 1].hi)
    ensures Accumulated(lines, budget, n, n, [], 0)
  {
    hide Blank, Paragraphs, RangeChunk, Flush, NonBlank;
    var ps := Paragraphs(lines, 0);
    assert Weights(lines, ps)[n] == ParagraphChars(lines, ps[n]);
    assert IsParagraph(lines, 0, ps[first]) && IsParagraph(lines, 0, ps[n - 1]);
    FlushOfRange(lines, ps[first].lo, ps[n - 1].hi);
  }

  /** Closing the accumulated chunk before paragraph `n`, which would overflow it. */
  lemma CloseChunk(lines: seq<string>, budget: nat, n: nat, c: seq<nat>, chunks: seq<Chunk>,
                   cur: seq<(nat, string)>, curChars: nat)
    requires Scanned(lines, budget, n, c, chunks, cur, curChars)
    requires 0 < n < |Paragraphs(lines, 0)|
    requires curChars + ParagraphChars(lines, Paragraphs(lines, 0)[n]) > budget
    ensures cur != []
    ensures forall k | 0 <= k < |chunks| + 1 :: ClosedChunk(lines, budget, n, c + [n], chunks + [Flush(cur)], k)
    ensures Accumulated(lines, budget, n, n, [], 0)
  {
    hide Blank, Paragraphs, RangeChunk, Flush, NonBlank, Weights, Closed, Accumulated, ParagraphChars;
    LastChunkCloses(lines, budget, c[|chunks|], n, cur, curChars);
    var c', chunks' := c + [n], chunks + [Flush(cur)];
    forall k | 0 <= k < |chunks'|
      ensures ClosedChunk(lines, budget, n, c', chunks', k)
    {
      if k < |chunks| { assert ClosedChunk(lines, budget, n, c, chunks, k); }
    }
  }

  /** One more paragraph: flush first if it would overflow, then accumulate it. */
  lemma ScanParagraph(lines: seq<string>, budget: nat, n: nat, c: seq<nat>, chunks: seq<Chunk>,
                      cur: seq<(nat, string)>, curChars: nat, p: Run, para: seq<(nat, string)>)
    requires Scanned(lines, budget, n, c, chunks, cur, curChars)
    requires n < |Paragraphs(lines, 0)| && p == Paragraphs(lines, 0)[n]
    requires p.lo < p.hi <= |lines| && para == NonBlank(lines, p.lo, p.hi)
    ensures curChars > 0 && curChars + Chars(para) > budget ==>
              cur != [] && Scanned(lines, budget, n + 1, c + [n], chunks + [Flush(cur)], para, Chars(para))
    ensures !(curChars > 0 && curChars + Chars(para) > budget) ==>
              Scanned(lines, budget, n + 1, c, chunks, cur + para, curChars + Chars(para))
  {
    hide Blank, Paragraphs, RangeChunk, Flush, NonBlank, Closed, Accumulated, Weights, Chars;
    assert ParagraphChars(lines, p) == Chars(para);
    if curChars > 0 && curChars + Chars(para) > budget {
      CharsMeanProgress(lines, budget, n, c, chunks, cur, curChars);
      CloseChunk(lines, budget, n, c, chunks, cur, curChars);
      Accumulate(lines, budget, n, n, [], 0, p, para);
      assert [] + para == para;
      MoreClosed(lines, budget, n, n + 1, c + [n], chunks + [Flush(cur)]);
    } else {
      NoChars(lines, budget, n, c, chunks, cur, curChars);
      Accumulate(lines, budget, c[|chunks|], n, cur, curChars, p, para);
      MoreClosed(lines, budget, n, n + 1, c, chunks);
    }
  }

  lemma MoreClosed(lines: seq<string>, budget: nat, n: nat, m: nat, c: seq<nat>, chunks: seq<Chunk>)
    requires n <= m && |c| == |chunks| + 1
    requires forall k | 0 <= k < |chunks| :: ClosedChunk(lines, budget, n, c, chunks, k)
    ensures forall k | 0 <= k < |chunks| :: ClosedChunk(lines, budget, m, c, chunks, k)
  {
    hide Blank, Paragraphs, RangeChunk, NonBlank, Closed, Weights;
    forall k | 0 <= k < |chunks| ensures ClosedChunk(lines, budget, m, c, chunks, k) {
      assert ClosedChunk(lines, budget, n, c, chunks, k);
    }
  }

  lemma StartScan(lines: seq<string>, budget: nat)
    ensures Scanned(lines, budget, 0, [0], [], [], 0)
  {
  }

  lemma CharsMeanProgress(lines: seq<string>, budget: nat, n: nat, c: seq<nat>, chunks: seq<Chunk>,
                          cur: seq<(nat, string)>, curChars: nat)
    requires Scanned(lines, budget, n, c, chunks, cur, curChars) && curChars > 0
    ensures n > 0
  {
  }

  /** Without characters there is no accumulated paragraph, since each has at least one line. */
  lemma NoChars(lines: seq<string>, budget: nat, n: nat, c: seq<nat>, chunks: seq<Chunk>,
                cur: seq<(nat, string)>, curChars: nat)
    requires Scanned(lines, budget, n, c, chunks, cur, curChars)
    ensures curChars == 0 ==> c[|chunks|] == n && cur == []
    ensures n > 0 && curChars > 0 ==> cur != []
  {
  }

  method ChunkMarkdown(text: string, maxChars: nat) returns (chunks: seq<Chunk>)
    ensures chunks == ChunksOf(text, maxChars)
  {
    hide Blank, Flush, NonBlank, Scanned, Chars, ChunksOfLines, Paragraphs, SkipText, AreParagraphs, Lines, Numbered;
    var budget := Budget(maxChars);
    var lines := Lines(text);
    chunks := [];
    var cur: seq<(nat, string)> := [];
    var curChars := 0;
    var i := 0;
    ghost var ps := Paragraphs(lines, 0);
    ghost var n: nat := 0;
    ghost var c: seq<nat> := [0];
    StartScan(lines, budget);
    while i < |lines|
      invariant i <= |lines| && n <= |ps|
      invariant ps[n..] == Paragraphs(lines, i)
      invariant Scanned(lines, budget, n, c, chunks, cur, curChars)
      decreases |lines| - i
    {
      if Blank(lines[i]) {
        SkipBlankLine(lines, i);
        i := i + 1;
        continue;
      }
      var paraStart := i;
      while i < |lines| && !Blank(lines[i])
        invariant paraStart <= i <= |lines|
        invariant forall k | paraStart <= k < i :: !Blank(lines[k])
      {
        i := i + 1;
      }
      NextParagraph(lines, ps, n, paraStart, i);
      var para := Numbered(lines, paraStart, i);
      NumberedIsNonBlank(lines, paraStart, i);
      var paraChars := Chars(para);
      ScanParagraph(lines, budget, n, c, chunks, cur, curChars, ps[n], para);
      if curChars > 0 && curChars + paraChars > budget {
        chunks := chunks + [Flush(cur)];
        cur := [];
        curChars := 0;
        c := c + [n];
        assert [] + para == para;
      }
      cur := cur + para;
      curChars := curChars + paraChars;
      n := n + 1;
    }
    NoParagraphs(lines);
    FinishScan(lines, maxChars, n, c, chunks, cur, curChars);
    if cur != [] {
      chunks := chunks + [Flush(cur)];
    }
  }

  lemma SkipBlankLine(lines: seq<string>, i: nat)
    requires i < |lines| && Blank(lines[i])
    ensures Paragraphs(lines, i) == Paragraphs(lines, i + 1)
  {
    hide Blank;
  }

  lemma NoParagraphs(lines: seq<string>)
    ensures Paragraphs(lines, |lines|) == []
  {
  }

  lemma NextParagraph(lines: seq<string>, ps: seq<Run>, n: nat, lo: nat, hi: nat)
    requires n <= |ps| && lo < hi <= |lines| && ps[n..] == Paragraphs(lines, lo)
    requires forall k | lo <= k < hi :: !Blank(lines[k])
    requires hi == |lines| || Blank(lines[hi])
    ensures n < |ps| && ps[n] == Run(lo, hi) && ps[n + 1..] == Paragraphs(lines, hi)
  {
    hide Blank, AreParagraphs;
    assert SkipText(lines, lo) == hi;
    assert Paragraphs(lines, lo) == [Run(lo, hi)] + Paragraphs(lines, hi);
    assert ps[n] == ps[n..][0];
    assert ps[n + 1..] == ps[n..][1..];
  }

  /** The closed boundaries, with the end of the paragraphs, are the greedy ones. */
  lemma FinishBoundaries(lines: seq<string>, maxChars: nat, n: nat, c: seq<nat>, chunks: seq<Chunk>,
                         cur: seq<(nat, string)>, curChars: nat)
    requires n == |Paragraphs(lines, 0)|
    requires Scanned(lines, Budget(maxChars), n, c, chunks, cur, curChars)
    ensures Boundaries(lines, maxChars) == if n == 0 then c else c + [n]
    ensures n == 0 ==> chunks == []
  {
    hide Blank, Paragraphs, RangeChunk, NonBlank, Boundaries, Weights, Chars, IsGreedy;
    var ps := Paragraphs(lines, 0);
    var w, budget := Weights(lines, ps), Budget(maxChars);
    var g := if n == 0 then c else c + [n];
    assert chunks != [] ==> ClosedChunk(lines, budget, n, c, chunks, 0);
    if n == 0 {
      EmptyIsGreedy(budget);
      assert w == [] && g == [0];
    } else {
      forall k | 0 <= k < |g| - 2 ensures Closed(w, budget, g[k], g[k + 1]) {
        assert ClosedChunk(lines, budget, n, c, chunks, k);
      }
      ClosedRangesAreGreedy(w, budget, g);
    }
    Unique(w, budget, g, Boundaries(lines, maxChars));
  }

  lemma FinishChunk(lines: seq<string>, maxChars: nat, n: nat, c: seq<nat>, chunks: seq<Chunk>, k: nat)
    requires 0 < n == |Paragraphs(lines, 0)| && |c| == |chunks| + 1 && Boundaries(lines, maxChars) == c + [n]
    requires k < |chunks| && ClosedChunk(lines, Budget(maxChars), n, c, chunks, k)
    ensures ChunksOfLines(lines, maxChars)[k] == chunks[k]
  {
    hide Blank, Paragraphs, AreParagraphs, RangeChunk, Boundaries, Weights, Closed, ChunksOfLines;
    var g := Boundaries(lines, maxChars);
    ChunkOfLinesAt(lines, maxChars, k);
    assert g[k] == c[k] && g[k + 1] == c[k + 1];
  }

  lemma FinishLast(lines: seq<string>, maxChars: nat, n: nat, c: seq<nat>, chunks: seq<Chunk>,
                   cur: seq<(nat, string)>, curChars: nat)
    requires 0 < n == |Paragraphs(lines, 0)| && Boundaries(lines, maxChars) == c + [n]
    requires Scanned(lines, Budget(maxChars), n, c, chunks, cur, curChars)
    ensures cur != [] && ChunksOfLines(lines, maxChars)[|chunks|] == Flush(cur)
  {
    hide Blank, Paragraphs, RangeChunk, Flush, NonBlank, Boundaries, Weights, Chars, ClosedChunk, Fits, Sum;
    hide ChunksOfLines;
    var ps, first := Paragraphs(lines, 0), c[|chunks|];
    assert Boundaries(lines, maxChars)[|chunks|] == first && Boundaries(lines, maxChars)[|chunks| + 1] == n;
    ChunkOfLinesAt(lines, maxChars, |chunks|);
    assert IsParagraph(lines, 0, ps[first]) && IsParagraph(lines, 0, ps[n - 1]);
    FlushOfRange(lines, ps[first].lo, ps[n - 1].hi);
  }

  /** The closed chunks and the last flush are the specified chunks. */
  lemma FinishScan(lines: seq<string>, maxChars: nat, n: nat, c: seq<nat>, chunks: seq<Chunk>,
                   cur: seq<(nat, string)>, curChars: nat)
    requires n == |Paragraphs(lines, 0)|
    requires Scanned(lines, Budget(maxChars), n, c, chunks, cur, curChars)
    ensures ChunksOfLines(lines, maxChars) == if cur == [] then chunks else chunks + [Flush(cur)]
  {
    hide Blank, Paragraphs, AreParagraphs, Flush, Boundaries, ClosedChunk, ChunksOfLines, Accumulated;
    FinishBoundaries(lines, maxChars, n, c, chunks, cur, curChars);
    if n == 0 {
      NoChars(lines, Budget(maxChars), n, c, chunks, cur, curChars);
      assert curChars == 0 by { if curChars > 0 { CharsMeanProgress(lines, Budget(maxChars), n, c, chunks, cur, curChars); } }
    } else {
      FinishLast(lines, maxChars, n, c, chunks, cur, curChars);
      forall k | 0 <= k < |chunks| ensures ChunksOfLines(lines, maxChars)[k] == chunks[k] {
        FinishChunk(lines, maxChars, n, c, chunks, k);
      }
    }
  }

  // ----- What the chunks promise -----

  /** Chunks span proper line ranges and hold exactly the non-blank lines of their range. */
  lemma ChunkText(lines: seq<string>, maxChars: nat, k: nat)
    requires k < |ChunksOfLines(lines, maxChars)|
    ensures ChunksOfLines(lines, maxChars)[k].startLine <= ChunksOfLines(lines, maxChars)[k].endLine < |lines|
    ensures var ch := ChunksOfLines(lines, maxChars)[k];
      && !Blank(lines[ch.startLine]) && !Blank(lines[ch.endLine])
      && ch.text == Join(Texts(NonBlank(lines, ch.startLine, ch.endLine + 1)), "\n")
  {
    hide Blank, Paragraphs, Boundaries, ChunksOfLines, NonBlank;
    ChunkOfLinesAt(lines, maxChars, k);
    RangeIsProper(lines, maxChars, k);
  }

  /** Ranges increase, and a blank line separates neighbours: no paragraph is ever split. */
  lemma ChunksSplitNoParagraph(lines: seq<string>, maxChars: nat, k: nat)
    requires k + 1 < |ChunksOfLines(lines, maxChars)|
    ensures ChunksOfLines(lines, maxChars)[k].endLine + 1 < ChunksOfLines(lines, maxChars)[k + 1].startLine < |lines|
    ensures var a, b := ChunksOfLines(lines, maxChars)[k], ChunksOfLines(lines, maxChars)[k + 1];
      forall i | a.endLine < i < b.startLine :: Blank(lines[i])
  {
    hide Blank, Paragraphs, Boundaries, ChunksOfLines, NonBlank, IsGreedy;
    var ps, c := Paragraphs(lines, 0), Boundaries(lines, maxChars);
    ChunkOfLinesAt(lines, maxChars, k);
    ChunkOfLinesAt(lines, maxChars, k + 1);
    assert ps[c[k + 1] - 1].hi < ps[c[k + 1]].lo;
    BlankBetween(lines, c[k + 1] - 1);
  }

  ghost predicate InChunk(chunks: seq<Chunk>, line: nat, k: nat)
    requires k < |chunks|
  {
    chunks[k].startLine <= line <= chunks[k].endLine
  }

  lemma {:induction false} ChunksAreApart(lines: seq<string>, maxChars: nat, k: nat, l: nat)
    requires k < l < |ChunksOfLines(lines, maxChars)|
    ensures ChunksOfLines(lines, maxChars)[k].endLine < ChunksOfLines(lines, maxChars)[l].startLine
    decreases l
  {
    hide *;
    ChunksSplitNoParagraph(lines, maxChars, l - 1);
    if k < l - 1 {
      ChunksAreApart(lines, maxChars, k, l - 1);
      ChunkText(lines, maxChars, l - 1);
    }
  }

  /** The range of boundaries that holds item `m`. */
  lemma {:induction false} RangeHolding(w: seq<nat>, budget: nat, c: seq<nat>, m: nat, n: nat) returns (k: nat)
    requires IsGreedy(w, budget, c) && n < |c| && m < c[n]
    ensures k < n && c[k] <= m < c[k + 1]
  {
    if c[n - 1] <= m {
      k := n - 1;
    } else {
      k := RangeHolding(w, budget, c, m, n - 1);
    }
  }

  lemma ParagraphsInOrder(lines: seq<string>, k: nat, l: nat)
    requires k <= l < |Paragraphs(lines, 0)|
    ensures Paragraphs(lines, 0)[k].lo <= Paragraphs(lines, 0)[l].lo
    ensures Paragraphs(lines, 0)[k].hi <= Paragraphs(lines, 0)[l].hi
  {
    hide Paragraphs, Blank;
    var ps := Paragraphs(lines, 0);
    assert IsParagraph(lines, 0, ps[k]) && IsParagraph(lines, 0, ps[l]);
  }

  lemma ParagraphHolding(lines: seq<string>, line: nat) returns (m: nat)
    requires line < |lines| && !Blank(lines[line])
    ensures m < |Paragraphs(lines, 0)| && Paragraphs(lines, 0)[m].lo <= line < Paragraphs(lines, 0)[m].hi
  {
    hide Blank, Paragraphs;
    var ps := Paragraphs(lines, 0);
    assert Covered(ps, line);
    m :| 0 <= m < |ps| && ps[m].lo <= line < ps[m].hi;
  }

  lemma SomeChunkHolds(lines: seq<string>, maxChars: nat, line: nat) returns (k: nat)
    requires line < |lines| && !Blank(lines[line])
    ensures k < |ChunksOfLines(lines, maxChars)| && InChunk(ChunksOfLines(lines, maxChars), line, k)
  {
    var m := ParagraphHolding(lines, line);
    hide Blank, Paragraphs, AreParagraphs, Boundaries, ChunksOfLines, ChunkAt, RangeChunk, NonBlank, Weights;
    hide GreedyRange, Fits;
    var c := Boundaries(lines, maxChars);
    k := RangeHolding(Weights(lines, Paragraphs(lines, 0)), Budget(maxChars), c, m, |c| - 1);
    ChunkSpans(lines, maxChars, k);
    ParagraphsInOrder(lines, c[k], m);
    ParagraphsInOrder(lines, m, c[k + 1] - 1);
  }

  lemma ChunkSpans(lines: seq<string>, maxChars: nat, k: nat)
    requires k + 1 < |Boundaries(lines, maxChars)|
    ensures Boundaries(lines, maxChars)[k] < Boundaries(lines, maxChars)[k + 1] <= |Paragraphs(lines, 0)|
    ensures ChunksOfLines(lines, maxChars)[k].startLine == Paragraphs(lines, 0)[Boundaries(lines, maxChars)[k]].lo
    ensures ChunksOfLines(lines, maxChars)[k].endLine == Paragraphs(lines, 0)[Boundaries(lines, maxChars)[k + 1] - 1].hi - 1
  {
    hide Blank, Paragraphs, AreParagraphs, Boundaries, ChunksOfLines, NonBlank, Weights;
    ChunkOfLinesAt(lines, maxChars, k);
  }

  /** Every non-blank line lies in exactly one chunk. */
  lemma EveryLineInOneChunk(lines: seq<string>, maxChars: nat, line: nat) returns (k: nat)
    requires line < |lines| && !Blank(lines[line])
    ensures k < |ChunksOfLines(lines, maxChars)| && InChunk(ChunksOfLines(lines, maxChars), line, k)
    ensures forall l | 0 <= l < |ChunksOfLines(lines, maxChars)|
              && InChunk(ChunksOfLines(lines, maxChars), line, l) :: l == k
  {
    hide Blank, ChunksOfLines, IsGreedy, Boundaries;
    k := SomeChunkHolds(lines, maxChars, line);
    forall l | 0 <= l < |ChunksOfLines(lines, maxChars)| && InChunk(ChunksOfLines(lines, maxChars), line, l) ensures l == k {
      if l < k { ChunksAreApart(lines, maxChars, l, k); } else if k < l { ChunksAreApart(lines, maxChars, k, l); }
    }
  }

  /**
   * Over the text: a line that is not blank lies in the range of exactly one chunk, whose range counts the newlines
   * before it, and it is one of the lines of that chunk's text.
   */
  lemma EveryLineIsKept(text: string, maxChars: nat, before: string, line: string) returns (k: nat, inside: string)
    requires LineBehind(text, before, line) && !Blank(line)
    ensures k < |ChunksOf(text, maxChars)|
    ensures forall l | 0 <= l < |ChunksOf(text, maxChars)| ::
              InChunk(ChunksOf(text, maxChars), Newlines(before), l) <==> l == k
    ensures LineBehind(ChunksOf(text, maxChars)[k].text, inside, line)
  {
    hide *;
    var lines, n := Lines(text), Newlines(before);
    LineIsNumbered(text, before, line);
    k := EveryLineInOneChunk(lines, maxChars, n);
    ChunksOfIs(text, maxChars);
    inside := LineInside(lines, maxChars, k, n);
  }

  lemma ChunksOfIs(text: string, maxChars: nat)
    ensures ChunksOf(text, maxChars) == ChunksOfLines(Lines(text), maxChars)
  {
    hide ChunksOfLines, Lines;
  }

  /** A line in the range of a chunk, unless it is blank, is a line of its text. */
  lemma LineInside(lines: seq<string>, maxChars: nat, k: nat, n: nat) returns (inside: string)
    requires k < |ChunksOfLines(lines, maxChars)| && InChunk(ChunksOfLines(lines, maxChars), n, k)
    requires n < |lines| && !Blank(lines[n]) && forall line | line in lines :: '\n' !in line
    ensures LineBehind(ChunksOfLines(lines, maxChars)[k].text, inside, lines[n])
  {
    hide Blank, ChunksOfLines, NonBlank, Newlines, LineBehind, Join, Paragraphs;
    var ch := ChunksOfLines(lines, maxChars)[k];
    ChunkText(lines, maxChars, k);
    var held := NonBlank(lines, ch.startLine, ch.endLine + 1);
    NonBlankAre(lines, ch.startLine, ch.endLine + 1);
    assert (n, lines[n]) in held;
    var m :| 0 <= m < |held| && held[m] == (n, lines[n]);
    LinesHeld(lines, ch.startLine, ch.endLine + 1);
    assert Texts(held)[m] == lines[n];
    inside := PartOfJoin(Texts(held), m);
  }

  lemma LinesHeld(lines: seq<string>, lo: nat, hi: nat)
    requires lo <= hi <= |lines| && forall line | line in lines :: '\n' !in line
    ensures forall p | p in Texts(NonBlank(lines, lo, hi)) :: '\n' !in p
  {
    hide Blank, NonBlank;
    NonBlankAre(lines, lo, hi);
  }

  /** And nothing else is stored: every line of a chunk's text is a line of the text, in the range and not blank. */
  lemma NothingElseIsKept(text: string, maxChars: nat, k: nat, inside: string, line: string) returns (before: string)
    requires k < |ChunksOf(text, maxChars)| && LineBehind(ChunksOf(text, maxChars)[k].text, inside, line)
    ensures LineBehind(text, before, line) && !Blank(line)
    ensures InChunk(ChunksOf(text, maxChars), Newlines(before), k)
  {
    hide Blank, ChunksOfLines, NonBlank, Newlines, LineBehind, Join, Paragraphs, SplitOn;
    var lines := Lines(text);
    var ch := ChunksOfLines(lines, maxChars)[k];
    ChunkText(lines, maxChars, k);
    var held := NonBlank(lines, ch.startLine, ch.endLine + 1);
    NonBlankAre(lines, ch.startLine, ch.endLine + 1);
    LinesHeld(lines, ch.startLine, ch.endLine + 1);
    assert (ch.startLine, lines[ch.startLine]) in held;
    SplitOfJoin(Texts(held), '\n');
    LineIsNumbered(ch.text, inside, line);
    var m := Newlines(inside);
    assert held[m].1 == line && lines[held[m].0] == line;
    before := LineHasPlace(text, held[m].0);
  }

  lemma {:induction false} CharsOfRange(lines: seq<string>, a: nat, b: nat)
    requires a < b <= |Paragraphs(lines, 0)|
    ensures Paragraphs(lines, 0)[a].lo < Paragraphs(lines, 0)[b - 1].hi <= |lines|
    ensures Chars(NonBlank(lines, Paragraphs(lines, 0)[a].lo, Paragraphs(lines, 0)[b - 1].hi))
              == Sum(Weights(lines, Paragraphs(lines, 0)), a, b)
  {
    hide Blank, Paragraphs, NonBlank, Chars, Weights, AreParagraphs;
    var ps := Paragraphs(lines, 0);
    WeightAt(lines, ps, b - 1);
    assert IsParagraph(lines, 0, ps[b - 1]) by { ParagraphsAre(lines, b - 1); }
    if a < b - 1 {
      CharsOfRange(lines, a, b - 1);
      var para := NonBlank(lines, ps[b - 1].lo, ps[b - 1].hi);
      Extend(lines, a, b - 1, para);
      CharsOfConcat(NonBlank(lines, ps[a].lo, ps[b - 2].hi), para);
    }
  }

  lemma ParagraphsAre(lines: seq<string>, k: nat)
    requires k < |Paragraphs(lines, 0)|
    ensures IsParagraph(lines, 0, Paragraphs(lines, 0)[k])
  {
    hide Paragraphs, Blank;
  }

  /** A chunk whose text, with a newline, has more bytes than allowed is a single paragraph without a blank line. */
  lemma ChunksFit(lines: seq<string>, maxChars: nat, k: nat)
    requires k < |ChunksOfLines(lines, maxChars)|
    ensures ChunksOfLines(lines, maxChars)[k].startLine <= ChunksOfLines(lines, maxChars)[k].endLine < |lines|
    ensures var ch := ChunksOfLines(lines, maxChars)[k];
      || Size(ch.text) + 1 <= (if maxChars < 1 then 1 else maxChars)
      || forall i | ch.startLine <= i <= ch.endLine :: !Blank(lines[i])
  {
    hide Blank, Paragraphs, Boundaries, ChunksOfLines, NonBlank, Weights, AreParagraphs, Full, Size;
    var ps, c := Paragraphs(lines, 0), Boundaries(lines, maxChars);
    ChunkOfLinesAt(lines, maxChars, k);
    assert GreedyRange(Weights(lines, ps), Budget(maxChars), c, k);
    ChunkWeighs(lines, maxChars, k);
    ParagraphsAre(lines, c[k]);
  }

  /** What a paragraph weighs: the bytes of its lines, each with its newline. */
  lemma ParagraphWeighs(lines: seq<string>, p: Run)
    requires IsParagraph(lines, 0, p)
    ensures ParagraphChars(lines, p) == Size(Join(lines[p.lo..p.hi], "\n")) + 1
  {
    hide Blank, NonBlank, Chars, Size, Join;
    NumberedIsNonBlank(lines, p.lo, p.hi);
    var numbered := Numbered(lines, p.lo, p.hi);
    assert numbered != [] && Texts(numbered) == lines[p.lo..p.hi];
    CharsAreBytes(numbered);
  }

  /** A chunk ends only where the next paragraph would not fit in with it. */
  lemma ChunksAreFull(lines: seq<string>, maxChars: nat, k: nat, end: nat)
    requires k + 1 < |ChunksOfLines(lines, maxChars)|
    requires IsParagraph(lines, 0, Run(ChunksOfLines(lines, maxChars)[k + 1].startLine, end))
    ensures var a, b := ChunksOfLines(lines, maxChars)[k], ChunksOfLines(lines, maxChars)[k + 1];
      Size(a.text) + 1 + Size(Join(lines[b.startLine..end], "\n")) + 1 > (if maxChars < 1 then 1 else maxChars)
  {
    hide Blank, Paragraphs, Boundaries, ChunksOfLines, NonBlank, Weights, AreParagraphs, Size, Join, IsParagraph;
    var ps, c := Paragraphs(lines, 0), Boundaries(lines, maxChars);
    ChunkSpans(lines, maxChars, k + 1);
    var w, p := Weights(lines, ps), ps[c[k + 1]];
    ChunkWeighs(lines, maxChars, k);
    ParagraphsAre(lines, c[k + 1]);
    ParagraphWeighs(lines, p);
    SameParagraph(lines, p, Run(ChunksOfLines(lines, maxChars)[k + 1].startLine, end));
    WeightAt(lines, ps, c[k + 1]);
    assert GreedyRange(w, Budget(maxChars), c, k);
    assert Sum(w, c[k], c[k + 1] + 1) == Sum(w, c[k], c[k + 1]) + w[c[k + 1]];
  }

  lemma ChunkWeighs(lines: seq<string>, maxChars: nat, k: nat)
    requires k < |ChunksOfLines(lines, maxChars)|
    ensures Boundaries(lines, maxChars)[k] < Boundaries(lines, maxChars)[k + 1] <= |Paragraphs(lines, 0)|
    ensures Size(ChunksOfLines(lines, maxChars)[k].text) + 1
              == Sum(Weights(lines, Paragraphs(lines, 0)), Boundaries(lines, maxChars)[k], Boundaries(lines, maxChars)[k + 1])
  {
    hide Blank, Paragraphs, Boundaries, ChunksOfLines, NonBlank, Weights, AreParagraphs, Size, Join, Texts, Chars;
    var ps, c := Paragraphs(lines, 0), Boundaries(lines, maxChars);
    ChunkOfLinesAt(lines, maxChars, k);
    CharsOfRange(lines, c[k], c[k + 1]);
    RangeIsProper(lines, maxChars, k);
    FlushOfRange(lines, ps[c[k]].lo, ps[c[k + 1] - 1].hi);
    CharsAreBytes(NonBlank(lines, ps[c[k]].lo, ps[c[k + 1] - 1].hi));
  }

  lemma SameParagraph(lines: seq<string>, p: Run, q: Run)
    requires IsParagraph(lines, 0, p) && IsParagraph(lines, 0, q) && p.lo == q.lo
    ensures p == q
  {
    hide Blank;
    assert p.lo < p.hi <= |lines| && q.lo < q.hi <= |lines|;
  }

  /** No admissible way of grouping whole paragraphs gives fewer chunks. */
  lemma ChunksAreFewest(lines: seq<string>, maxChars: nat, d: seq<nat>)
    requires IsPartition(Weights(lines, Paragraphs(lines, 0)), Budget(maxChars), d)
    ensures |ChunksOfLines(lines, maxChars)| <= |d| - 1
  {
    hide Paragraphs, Weights;
    Fewest(Weights(lines, Paragraphs(lines, 0)), Budget(maxChars), Boundaries(lines, maxChars), d);
  }

  // ----- Titles and previews -----

  function TrimHashes(s: string): (r: string)
    ensures |r| <= |s| && r == s[|s| - |r|..]
    ensures forall i | 0 <= i < |s| - |r| :: s[i] == '#'
    ensures r != [] ==> r[0] != '#'
  {
    if s != [] && s[0] == '#' then TrimHashes(s[1..]) else s
  }

  /** The title of a line, if it is a heading that has one. */
  function HeadingOf(line: string): Option<string> {
    var t := TrimStart(line);
    var title := if t != [] && t[0] == '#' then Trim(TrimHashes(t)) else [];
    if title != [] then Some(title) else None
  }

  /** `line` is white space, some number of `#`, and a text that trims to `title`, which is not empty. */
  ghost predicate IsHeading(line: string, title: string) {
    title != "" && exists n, m | 0 <= n < m <= |line| :: HeadingWith(line, title, n, m)
  }

  ghost predicate HeadingWith(line: string, title: string, n: nat, m: nat) {
    && n < m <= |line| && Blank(line[..n]) && (forall i | n <= i < m :: line[i] == '#')
    && (m < |line| ==> line[m] != '#') && title == Trim(line[m..])
  }

  lemma HeadingOfIs(line: string, title: string)
    ensures HeadingOf(line) == Some(title) <==> IsHeading(line, title)
  {
    hide *;
    if IsHeading(line, title) { HeadingIsFound(line, title); }
    if HeadingOf(line) == Some(title) { HeadingIsThere(line, title); }
  }

  lemma HeadingIsFound(line: string, title: string)
    requires IsHeading(line, title)
    ensures HeadingOf(line) == Some(title)
  {
    hide Trim, Blank, TrimHashes, TrimStart;
    var n, m :| 0 <= n < m <= |line| && HeadingWith(line, title, n, m);
    HeadingStarts(line, title, n, m);
  }

  lemma HeadingStarts(line: string, title: string, n: nat, m: nat)
    requires HeadingWith(line, title, n, m)
    ensures TrimStart(line) == line[n..] && TrimStart(line)[0] == '#' && TrimHashes(TrimStart(line)) == line[m..]
  {
    hide *;
    StartIsTrimmed(line, title, n, m);
    HashesFollow(line, title, n, m);
  }

  lemma StartIsTrimmed(line: string, title: string, n: nat, m: nat)
    requires HeadingWith(line, title, n, m)
    ensures TrimStart(line) == line[n..]
  {
    HashIsNoSpace();
    hide Trim, TrimHashes, TrimStart, IsSpace;
    assert line == line[..n] + line[n..];
    TrimStartOf(line[..n], line[n..]);
  }

  lemma HashesFollow(line: string, title: string, n: nat, m: nat)
    requires HeadingWith(line, title, n, m)
    ensures n < m <= |line| && line[n..][0] == '#' && TrimHashes(line[n..]) == line[m..]
  {
    hide Trim, Blank, TrimHashes, TrimStart;
    var rest := line[n..];
    assert forall i | 0 <= i < m - n :: rest[i] == line[n + i];
    HashesEnd(rest, m - n);
    assert rest[m - n..] == line[m..];
  }

  lemma HeadingIsThere(line: string, title: string)
    requires HeadingOf(line) == Some(title)
    ensures IsHeading(line, title)
  {
    hide IsSpace, Blank, Trim, TrimStart;
    var t := TrimStart(line);
    var rest := TrimHashes(t);
    var n, m := |line| - |t|, |line| - |rest|;
    assert rest == t[1..] || |rest| < |t|;
    forall i | n <= i < m ensures line[i] == '#' {
      assert line[i] == line[n..][i - n] == t[i - n];
    }
    assert rest == line[m..];
    assert HeadingWith(line, title, n, m);
  }

  lemma HashIsNoSpace()
    ensures !IsSpace('#')
  {
  }

  lemma {:induction false} HashesEnd(t: string, n: nat)
    requires n <= |t| && (forall i | 0 <= i < n :: t[i] == '#') && (n < |t| ==> t[n] != '#')
    ensures TrimHashes(t) == t[n..]
  {
    if n > 0 { HashesEnd(t[1..], n - 1); }
  }

  function HeadingFrom(lines: seq<string>): Option<string> {
    if lines == [] then None else HeadingOf(lines[0]).Or(HeadingFrom(lines[1..]))
  }

  function FirstHeading(text: string): (title: Option<string>)
    ensures title.Some? ==> title.value != [] && Trim(title.value) == title.value
  {
    HeadingIsTrimmed(Lines(text));
    HeadingFrom(Lines(text))
  }

  lemma {:induction false} HeadingIsTrimmed(lines: seq<string>)
    ensures HeadingFrom(lines).Some? ==>
              HeadingFrom(lines).value != [] && Trim(HeadingFrom(lines).value) == HeadingFrom(lines).value
  {
    hide Trim, TrimStart, TrimHashes;
    if lines != [] {
      var t := TrimStart(lines[0]);
      TrimTwice(TrimHashes(t));
      HeadingIsTrimmed(lines[1..]);
    }
  }

  /** It is the heading of the first line that has one. */
  lemma {:induction false} HeadingIsFirst(lines: seq<string>) returns (n: nat)
    ensures n <= |lines| && forall k | 0 <= k < n :: HeadingOf(lines[k]).None?
    ensures HeadingFrom(lines) == if n < |lines| then HeadingOf(lines[n]) else None
    ensures n < |lines| ==> HeadingOf(lines[n]).Some?
  {
    hide HeadingOf;
    if lines == [] || HeadingOf(lines[0]).Some? {
      n := 0;
    } else {
      var m := HeadingIsFirst(lines[1..]);
      n := m + 1;
    }
  }

  /** Over the text: it is the heading of the first line that is one, and there is none when no line is. */
  lemma FirstHeadingIs(text: string) returns (before: string, line: string)
    ensures FirstHeading(text).Some? ==> LineBehind(text, before, line) && IsHeading(line, FirstHeading(text).value)
    ensures forall before', line', t | LineBehind(text, before', line') && IsHeading(line', t) ::
              FirstHeading(text).Some? && |before| <= |before'|
  {
    hide HeadingOf, IsHeading, LineBehind, Newlines, Join, Lines, HeadingFrom;
    var lines := Lines(text);
    var n := HeadingIsFirst(lines);
    before, line := "", "";
    if n < |lines| {
      line := lines[n];
      before := LineHasPlace(text, n);
      HeadingOfIs(line, HeadingOf(line).value);
    }
    forall before', line', t | LineBehind(text, before', line') && IsHeading(line', t)
      ensures FirstHeading(text).Some? && |before| <= |before'|
    {
      LineIsNumbered(text, before', line');
      HeadingOfIs(line', t);
      if |before'| < |before| { LaterLine(text, before, line, before', line'); }
    }
  }

  method FindHeading(text: string) returns (title: Option<string>)
    ensures title == FirstHeading(text)
  {
    hide HeadingOf;
    var lines := Lines(text);
    for i := 0 to |lines|
      invariant HeadingFrom(lines) == HeadingFrom(lines[i..])
    {
      title := HeadingOf(lines[i]);
      if title.Some? {
        return;
      }
      assert lines[i..][1..] == lines[i + 1..];
    }
    title := None;
  }

  /** A passage on one line, without its heading marker. */
  function Collapsed(text: string): string {
    TrimStart(TrimHashes(CollapseWhitespace(text)))
  }

  /** Of the passage on one line, exactly the leading `#` and the space behind them are missing. */
  lemma CollapsedDropsMarker(text: string) returns (n: nat, m: nat)
    ensures n <= m <= |CollapseWhitespace(text)| && Collapsed(text) == CollapseWhitespace(text)[m..]
    ensures forall i | 0 <= i < n :: CollapseWhitespace(text)[i] == '#'
    ensures n < |CollapseWhitespace(text)| ==> CollapseWhitespace(text)[n] != '#'
    ensures Blank(CollapseWhitespace(text)[n..m])
    ensures m < |CollapseWhitespace(text)| ==> !IsSpace(CollapseWhitespace(text)[m])
  {
    hide *;
    n, m := MarkerEnds(CollapseWhitespace(text));
    assert Collapsed(text) == TrimStart(TrimHashes(CollapseWhitespace(text))) by { CollapsedIs(text); }
  }

  lemma CollapsedIs(text: string)
    ensures Collapsed(text) == TrimStart(TrimHashes(CollapseWhitespace(text)))
  {
    hide CollapseWhitespace, TrimHashes, TrimStart;
  }

  lemma MarkerEnds(s: string) returns (n: nat, m: nat)
    ensures n <= m <= |s| && TrimStart(TrimHashes(s)) == s[m..]
    ensures forall i | 0 <= i < n :: s[i] == '#'
    ensures n < |s| ==> s[n] != '#'
    ensures Blank(s[n..m]) && (m < |s| ==> !IsSpace(s[m]))
  {
    hide *;
    var t := TrimHashes(s);
    var r := TrimStart(t);
    n, m := |s| - |t|, |s| - |r|;
    assert t == s[n..];
    assert s[n..m] == t[..|t| - |r|];
    assert r == s[m..];
  }

  /** Its preview: cut to `max` characters, and then marked with an ellipsis. */
  function Snippet(text: string, max: nat): (r: string)
    ensures |r| <= max + 1
    ensures |Collapsed(text)| <= max ==> r == Collapsed(text)
    ensures |Collapsed(text)| > max ==>
              && r != [] && r[|r| - 1] == '\U{2026}' && r[..|r| - 1] <= Collapsed(text)
              && Blank(Collapsed(text)[|r| - 1..max]) && (|r| > 1 ==> !IsSpace(r[|r| - 2]))
  {
    var collapsed := Collapsed(text);
    if |collapsed| > max then TrimEnd(collapsed[..max]) + ['\U{2026}'] else collapsed
  }
}
