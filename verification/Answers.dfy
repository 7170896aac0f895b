/** Cleaning and citing of grounded answers (engine/src/search/qa.rs, engine/src/search/chunker.rs). */
module Answers {
  import opened Domain
  import opened Text
  import opened Fusion
  import opened MarkdownChunker

  const OPEN := "<think>"
  const CLOSE := "</think>"

  /** `find`: the first place where `t` occurs in `s` at or after `i`. */
  function Find(s: string, t: string, i: nat): (r: Option<nat>)
    requires i <= |s|
    ensures r.Some? ==> i <= r.value && OccursAt(s, t, r.value) && forall k | i <= k < r.value :: !OccursAt(s, t, k)
    ensures r.None? ==> forall k | i <= k <= |s| :: !OccursAt(s, t, k)
    decreases |s| - i
  {
    if OccursAt(s, t, i) then Some(i) else if i == |s| then None else Find(s, t, i + 1)
  }

  /** The text without its think blocks; an unclosed block runs to the end. */
  function Stripped(s: string): (r: string)
    ensures !Contains(r, OPEN)
    ensures !Contains(s, OPEN) ==> r == s
    decreases |s|
  {
    match Find(s, OPEN, 0)
    case None => s
    case Some(start) =>
      match Find(s, CLOSE, start)
      case Some(end) => Stripped(s[..start] + s[end + |CLOSE|..])
      case None => PrefixHasNoOpen(s, start); s[..start]
  }

  lemma PrefixHasNoOpen(s: string, start: nat)
    requires start <= |s| && forall k | 0 <= k < start :: !OccursAt(s, OPEN, k)
    ensures !Contains(s[..start], OPEN)
  {
    forall k | 0 <= k <= start ensures !OccursAt(s[..start], OPEN, k) {
      if OccursAt(s[..start], OPEN, k) {
        assert s[..start][k..k + |OPEN|] == s[k..k + |OPEN|];
        assert OccursAt(s, OPEN, k);
      }
    }
  }

  function Cleaned(text: string): string {
    Trim(Stripped(Trim(text)))
  }

  method CleanAnswer(text: string) returns (r: string)
    ensures r == Cleaned(text)
  {
    hide Trim, Contains, OccursAt;
    var s := Trim(text);
    while true
      invariant Stripped(s) == Stripped(Trim(text))
      decreases |s|
    {
      var start := Find(s, OPEN, 0);
      if start.None? {
        break;
      }
      FoundInside(s, OPEN, start.value);
      var end := Find(s, CLOSE, start.value);
      if end.Some? {
        FoundInside(s, CLOSE, end.value);
        s := s[..start.value] + s[end.value + |CLOSE|..];
      } else {
        StrippedPrefix(s, start.value);
        s := s[..start.value];
        break;
      }
    }
    NothingToStrip(s);
    r := Trim(s);
  }

  lemma FoundInside(s: string, t: string, i: nat)
    requires OccursAt(s, t, i)
    ensures i + |t| <= |s|
  {
  }

  lemma StrippedPrefix(s: string, start: nat)
    requires Find(s, OPEN, 0) == Some(start) && Find(s, CLOSE, start) == None && start <= |s|
    ensures Find(s[..start], OPEN, 0) == None && Stripped(s) == s[..start] == Stripped(s[..start])
  {
    PrefixHasNoOpen(s, start);
  }

  lemma NothingToStrip(s: string)
    requires Find(s, OPEN, 0) == None
    ensures Stripped(s) == s
  {
  }

  lemma PartContains(s: string, lo: nat, hi: nat, t: string)
    requires lo <= hi <= |s| && Contains(s[lo..hi], t)
    ensures Contains(s, t)
  {
    var i :| 0 <= i <= hi - lo && OccursAt(s[lo..hi], t, i);
    var part := s[lo..hi];
    forall k | 0 <= k < |t| ensures s[lo + i..lo + i + |t|][k] == t[k] {
      assert part[i..i + |t|][k] == part[i + k] == s[lo + i + k];
    }
    assert OccursAt(s, t, lo + i);
  }

  lemma TrimContains(s: string, t: string)
    requires Contains(Trim(s), t)
    ensures Contains(s, t)
  {
    hide Contains, TrimStart, TrimEnd, Blank;
    var a := TrimStart(s);
    var b := TrimEnd(a);
    assert b == a[0..|b|] && a == s[|s| - |a|..|s|];
    PartContains(a, 0, |b|, t);
    PartContains(s, |s| - |a|, |s|, t);
  }

  /** No think block survives, and cleaning a clean answer changes nothing. */
  lemma CleaningIsFinal(text: string)
    ensures !Contains(Cleaned(text), "<think>")
    ensures Cleaned(Cleaned(text)) == Cleaned(text)
  {
    hide Trim, Stripped, Contains;
    var s := Stripped(Trim(text));
    if Contains(Trim(s), OPEN) { TrimContains(s, OPEN); }
    TrimTwice(s);
  }

  /** An answer without think blocks is only trimmed. */
  lemma PlainAnswersAreKept(text: string)
    requires !Contains(text, OPEN)
    ensures Cleaned(text) == Trim(text)
  {
    hide Trim, Stripped, Contains;
    if Contains(Trim(text), OPEN) { TrimContains(text, OPEN); }
    TrimTwice(text);
  }

  /** A tag that begins nowhere in `mid`, put behind it, is found right there: tags do not overlap themselves. */
  lemma FoundBehind(prefix: string, mid: string, tag: string, after: string)
    requires tag != [] && tag[0] !in tag[1..] && !Contains(mid, tag)
    ensures Find(prefix + mid + tag + after, tag, |prefix|) == Some(|prefix| + |mid|)
  {
    var s := prefix + mid + tag + after;
    assert OccursAt(s, tag, |prefix| + |mid|);
    forall k | |prefix| <= k < |prefix| + |mid| ensures !OccursAt(s, tag, k) {
      NotFoundBefore(prefix, mid, tag, after, k);
    }
  }

  lemma NotFoundBefore(prefix: string, mid: string, tag: string, after: string, k: nat)
    requires tag != [] && tag[0] !in tag[1..] && !Contains(mid, tag) && |prefix| <= k < |prefix| + |mid|
    ensures !OccursAt(prefix + mid + tag + after, tag, k)
  {
    var s := prefix + mid + tag + after;
    var j := k - |prefix|;
    if j + |tag| <= |mid| {
      OccursInside(prefix, mid, tag + after, tag, j);
      assert s == prefix + mid + (tag + after);
    } else {
      var o := |mid| - j;
      assert tag[1..][o - 1] == tag[o];
      assert s[k + o] == tag[0] != tag[o];
      if k + |tag| <= |s| { assert s[k..k + |tag|][o] == s[k + o]; }
    }
  }

  lemma OccursInside(prefix: string, mid: string, rest: string, tag: string, j: nat)
    requires j + |tag| <= |mid|
    ensures OccursAt(prefix + mid + rest, tag, |prefix| + j) <==> OccursAt(mid, tag, j)
  {
    assert (prefix + mid + rest)[|prefix| + j..|prefix| + j + |tag|] == mid[j..j + |tag|];
  }

  /** No closing tag begins in an opening one. */
  lemma OpeningDoesNotClose(thought: string)
    requires !Contains(thought, CLOSE)
    ensures !Contains(OPEN + thought, CLOSE)
  {
    var s := OPEN + thought;
    forall k | 0 <= k <= |s| ensures !OccursAt(s, CLOSE, k) {
      if k >= |OPEN| {
        assert s == OPEN + thought + [];
        if k + |CLOSE| <= |s| { OccursInside(OPEN, thought, [], CLOSE, k - |OPEN|); }
      } else {
        assert s[k] == OPEN[k] && (k == 0 ==> s[k + 1] == OPEN[1]);
        if k + |CLOSE| <= |s| { assert s[k..k + |CLOSE|][0] == s[k] && s[k..k + |CLOSE|][1] == s[k + 1]; }
      }
    }
  }

  /**
   * A thought between its tags disappears, whatever it says short of the closing tag, and what is
   * around it is cleaned as if it had never been there.
   */
  lemma BlockIsCutOut(before: string, thought: string, after: string)
    requires !Contains(before, "<think>") && !Contains(thought, "</think>")
    ensures Stripped(before + "<think>" + thought + "</think>" + after) == Stripped(before + after)
    ensures !Contains(before + after, "<think>") ==>
              Stripped(before + "<think>" + thought + "</think>" + after) == before + after
  {
    hide Contains, Find;
    var s := before + OPEN + thought + CLOSE + after;
    OpeningDoesNotClose(thought);
    FoundBehind("", before, OPEN, thought + CLOSE + after);
    assert s == "" + before + OPEN + (thought + CLOSE + after);
    FoundBehind(before, OPEN + thought, CLOSE, after);
    assert s == before + (OPEN + thought) + CLOSE + after;
    assert s[..|before|] == before;
    assert s[|before| + |OPEN| + |thought| + |CLOSE|..] == after;
  }

  /** A thought that was never closed, as when the model ran out of tokens, takes the rest with it. */
  lemma UnclosedBlockIsDropped(before: string, thought: string)
    requires !Contains(before, "<think>") && !Contains(thought, "</think>")
    ensures Stripped(before + "<think>" + thought) == before
  {
    hide Contains, Find;
    var s := before + OPEN + thought;
    FoundBehind("", before, OPEN, thought);
    assert s == "" + before + OPEN + thought;
    OpeningDoesNotClose(thought);
    NotFoundAtAll(before, OPEN + thought, CLOSE);
    assert s == before + (OPEN + thought);
    assert s[..|before|] == before;
  }

  lemma NotFoundAtAll(prefix: string, mid: string, tag: string)
    requires !Contains(mid, tag) && tag != []
    ensures Find(prefix + mid, tag, |prefix|) == None
  {
    hide Contains;
    forall k | |prefix| <= k <= |prefix + mid| ensures !OccursAt(prefix + mid, tag, k) {
      NotFoundAt(prefix, mid, tag, k);
    }
  }

  lemma NotFoundAt(prefix: string, mid: string, tag: string, k: nat)
    requires !Contains(mid, tag) && tag != [] && |prefix| <= k
    ensures !OccursAt(prefix + mid, tag, k)
  {
    assert prefix + mid == prefix + mid + [];
    if k + |tag| <= |prefix + mid| { OccursInside(prefix, mid, [], tag, k - |prefix|); }
  }

  // ----- Citations -----

  datatype Citation = Citation(path: string, startLine: nat, endLine: nat, snippet: string)

  /** Citation n is passage n: the markers of the answer point at the passages in order. */
  function Cite(passages: seq<Passage>): (r: seq<Citation>)
    ensures |r| == |passages|
  {
    seq(|passages|, i requires 0 <= i < |passages| =>
      Citation(passages[i].path, passages[i].startLine, passages[i].endLine, Snippet(passages[i].body, 240)))
  }

  /** A citation opens its passage's file at the passage's lines, and shows the beginning of its text. */
  lemma CitationPointsAtPassage(passages: seq<Passage>, i: nat)
    requires i < |passages|
    ensures var c, p := Cite(passages)[i], passages[i];
      && c.path == p.path && c.startLine == p.startLine && c.endLine == p.endLine
      && (|Collapsed(p.body)| <= 240 ==> c.snippet == Collapsed(p.body))
      && (|Collapsed(p.body)| > 240 ==>
            c.snippet != [] && c.snippet[..|c.snippet| - 1] == TrimEnd(Collapsed(p.body)[..240])
            && c.snippet[|c.snippet| - 1] == '\U{2026}')
  {
    hide Collapsed, TrimEnd;
  }

  /** The files an answer lists as read are exactly those its passages come from, each once. */
  lemma FilesReadAreCited(passages: seq<Passage>, paths: seq<string>, p: string)
    requires AreUniquePaths(Cite(passages), paths)
    ensures p in paths <==> exists i | 0 <= i < |passages| :: passages[i].path == p
    ensures forall i, j | 0 <= i < j < |paths| :: paths[i] != paths[j]
  {
    hide FirstUse;
    assert forall i | 0 <= i < |passages| :: Cite(passages)[i].path == passages[i].path;
  }

  /** Every cited path once, in order of first citation. */
  ghost predicate AreUniquePaths(citations: seq<Citation>, paths: seq<string>) {
    && (forall i, j | 0 <= i < j < |paths| :: paths[i] != paths[j])
    && (forall p :: p in paths <==> exists i | 0 <= i < |citations| :: citations[i].path == p)
    && (forall i, j | 0 <= i < j < |paths| :: FirstUse(citations, paths[i]) < FirstUse(citations, paths[j]))
  }

  /** Where a path is cited first; the number of citations when it is not. */
  function FirstUse(citations: seq<Citation>, path: string): (n: nat)
    ensures n <= |citations| && (n < |citations| ==> citations[n].path == path)
    ensures forall i | 0 <= i < n :: citations[i].path != path
  {
    if citations == [] || citations[0].path == path then 0 else 1 + FirstUse(citations[1..], path)
  }

  method UniquePaths(citations: seq<Citation>) returns (paths: seq<string>)
    ensures AreUniquePaths(citations, paths)
  {
    hide FirstUse;
    var seen: set<string> := {};
    paths := [];
    NoneUsedBefore(citations);
    for i := 0 to |citations|
      invariant forall p :: p in paths <==> p in seen
      invariant forall p :: p in seen <==> FirstUse(citations, p) < i
      invariant forall k, l | 0 <= k < l < |paths| :: FirstUse(citations, paths[k]) < FirstUse(citations, paths[l])
    {
      FirstUseNow(citations, i);
      if citations[i].path !in seen {
        seen := seen + {citations[i].path};
        paths := paths + [citations[i].path];
      }
    }
    UsedMeansCited(citations);
  }

  lemma NoneUsedBefore(citations: seq<Citation>)
    ensures forall p :: FirstUse(citations, p) >= 0
  {
  }

  lemma UsedMeansCited(citations: seq<Citation>)
    ensures forall p :: FirstUse(citations, p) < |citations| <==> exists i | 0 <= i < |citations| :: citations[i].path == p
  {
    hide FirstUse;
  }

  lemma FirstUseNow(citations: seq<Citation>, i: nat)
    requires i < |citations|
    ensures FirstUse(citations, citations[i].path) <= i
    ensures forall p :: FirstUse(citations, p) == i ==> p == citations[i].path
  {
  }
}
