/** The word-level text comparisons of extraction and synthesis, over the Unicode facts they rely on. */
module WordSets {
  import opened Text

  /** What the standard library knows about characters: which are alphanumeric, and lower-casing. */
  datatype Charset = Charset(alphanumeric: char -> bool, lower: string -> string)

  /** `split` on every character that is not alphanumeric. */
  function SplitWords(cs: Charset, s: string): (parts: seq<string>)
    ensures |parts| >= 1
    ensures forall p, i | p in parts && 0 <= i < |p| :: cs.alphanumeric(p[i])
  {
    if s == [] then [[]]
    else
      var rest := SplitWords(cs, s[1..]);
      if !cs.alphanumeric(s[0]) then [[]] + rest else [[s[0]] + rest[0]] + rest[1..]
  }

  /** The lower-cased words of more than two bytes. */
  function WordSet(cs: Charset, s: string): set<string> {
    set w | w in SplitWords(cs, cs.lower(s)) && Size(w) > 2
  }

  /** `t[i..j]` is a maximal stretch of alphanumeric characters. */
  ghost predicate IsRun(cs: Charset, t: string, i: nat, j: nat) {
    && i < j <= |t| && (forall k | i <= k < j :: cs.alphanumeric(t[k]))
    && (i == 0 || !cs.alphanumeric(t[i - 1])) && (j == |t| || !cs.alphanumeric(t[j]))
  }

  /** `w` is such a stretch behind position `lo`. */
  ghost predicate HasRun(cs: Charset, t: string, lo: nat, w: string) {
    exists i, j | lo <= i < j <= |t| :: IsRun(cs, t, i, j) && t[i..j] == w
  }

  lemma {:induction false} FirstPart(cs: Charset, t: string)
    ensures var p := SplitWords(cs, t)[0];
      p <= t && (forall k | 0 <= k < |p| :: cs.alphanumeric(t[k])) && (|p| == |t| || !cs.alphanumeric(t[|p|]))
  {
    if t != [] {
      FirstPart(cs, t[1..]);
      var p := SplitWords(cs, t[1..])[0];
      if cs.alphanumeric(t[0]) {
        assert [t[0]] + p <= t by { assert t == [t[0]] + t[1..]; }
      }
    }
  }

  lemma {:induction false} LaterParts(cs: Charset, t: string, w: string)
    requires w != ""
    ensures w in SplitWords(cs, t)[1..] <==> HasRun(cs, t, 1, w)
  {
    if t != [] {
      var rest := SplitWords(cs, t[1..]);
      LaterParts(cs, t[1..], w);
      FirstPart(cs, t[1..]);
      RunsShift(cs, t, w);
      assert rest == [rest[0]] + rest[1..];
      if cs.alphanumeric(t[0]) {
        assert SplitWords(cs, t)[1..] == rest[1..];
      } else {
        assert SplitWords(cs, t)[1..] == rest;
        FirstRun(cs, t[1..], rest[0]);
      }
    }
  }

  /** A text begins with its first part, and with no other stretch. */
  lemma FirstRun(cs: Charset, t: string, p: string)
    requires p <= t && forall k | 0 <= k < |p| :: cs.alphanumeric(t[k])
    requires |p| == |t| || !cs.alphanumeric(t[|p|])
    ensures forall j | 0 < j <= |t| && IsRun(cs, t, 0, j) :: t[..j] == p
    ensures p != "" ==> IsRun(cs, t, 0, |p|)
  {
    forall j | 0 < j <= |t| && IsRun(cs, t, 0, j) ensures t[..j] == p {
      assert j == |p|;
    }
  }

  lemma RunsShift(cs: Charset, t: string, w: string)
    requires t != []
    ensures HasRun(cs, t, 1, w) <==>
              || HasRun(cs, t[1..], 1, w)
              || (!cs.alphanumeric(t[0]) && exists j | 0 < j <= |t| - 1 :: IsRun(cs, t[1..], 0, j) && t[1..][..j] == w)
  {
    hide IsRun;
    var u := t[1..];
    if HasRun(cs, t, 1, w) {
      var i, j :| 1 <= i < j <= |t| && IsRun(cs, t, i, j) && t[i..j] == w;
      RunShifts(cs, t, i, j);
      assert u[i - 1..j - 1] == w;
      if i == 1 { assert u[..j - 1] == w; }
    }
    if HasRun(cs, u, 1, w) { RunGoesOn(cs, t, 1, w); }
    if !cs.alphanumeric(t[0]) && exists j | 0 < j <= |t| - 1 :: IsRun(cs, u, 0, j) && u[..j] == w {
      var j :| 0 < j <= |t| - 1 && IsRun(cs, u, 0, j) && u[..j] == w;
      RunShifts(cs, t, 1, j + 1);
      assert t[1..j + 1] == w;
    }
  }

  lemma RunGoesOn(cs: Charset, t: string, lo: nat, w: string)
    requires t != [] && lo > 0 && HasRun(cs, t[1..], lo, w)
    ensures HasRun(cs, t, lo + 1, w) && HasRun(cs, t, lo, w)
  {
    var u := t[1..];
    var i, j :| lo <= i < j <= |u| && IsRun(cs, u, i, j) && u[i..j] == w;
    RunShifts(cs, t, i + 1, j + 1);
    assert t[i + 1..j + 1] == w;
  }

  lemma RunShifts(cs: Charset, t: string, i: nat, j: nat)
    requires 1 <= i < j <= |t|
    ensures IsRun(cs, t, i, j) <==> IsRun(cs, t[1..], i - 1, j - 1) && (i == 1 ==> !cs.alphanumeric(t[0]))
  {
    assert forall k | 1 <= k < |t| :: t[1..][k - 1] == t[k];
  }

  /** The words of a text are the maximal alphanumeric stretches of its lower-cased form with more than two bytes. */
  lemma WordSetIsRuns(cs: Charset, s: string, w: string)
    ensures w in WordSet(cs, s) <==> Size(w) > 2 && HasRun(cs, cs.lower(s), 0, w)
  {
    hide SplitWords, IsRun;
    var t := cs.lower(s);
    var parts := SplitWords(cs, t);
    if Size(w) > 2 {
      assert w != "";
      LaterParts(cs, t, w);
      FirstPart(cs, t);
      FirstRun(cs, t, parts[0]);
      assert parts == [parts[0]] + parts[1..];
      if HasRun(cs, t, 0, w) && !HasRun(cs, t, 1, w) {
        var i, j :| 0 <= i < j <= |t| && IsRun(cs, t, i, j) && t[i..j] == w;
        assert t[..j] == w;
      }
      if w == parts[0] {
        assert t[0..|w|] == w;
      }
    }
  }

  /** How many words of `s` are in `needle`. */
  function Shared(cs: Charset, s: string, needle: set<string>): nat {
    |WordSet(cs, s) * needle|
  }

  function Overlap(cs: Charset, a: string, b: string): nat {
    Shared(cs, a, WordSet(cs, b))
  }

  function Spaced(cs: Charset, s: string): (r: string)
    ensures |r| == |s|
    ensures forall i | 0 <= i < |s| :: r[i] == if cs.alphanumeric(s[i]) then s[i] else ' '
  {
    seq(|s|, i requires 0 <= i < |s| => if cs.alphanumeric(s[i]) then s[i] else ' ')
  }

  /** Lower-cased, everything but letters and digits blanked, words single-spaced. */
  function NormalForm(cs: Charset, s: string): string {
    CollapseWhitespace(Spaced(cs, cs.lower(s)))
  }

  /** Containment, or a word-set Jaccard index of at least 0.34, of the normal forms. */
  predicate Similar(cs: Charset, a: string, b: string) {
    var na, nb := NormalForm(cs, a), NormalForm(cs, b);
    na != "" && nb != "" &&
    (Contains(na, nb) || Contains(nb, na) ||
     var sa, sb := (set w | w in SplitOn(na, ' ')), (set w | w in SplitOn(nb, ' '));
     100 * |sa * sb| >= 34 * |sa + sb|)
  }

  /** What a normal form keeps: the letters and digits, and where anything else stands between them. */
  lemma NormalFormKeeps(cs: Charset, s: string)
    ensures SingleSpaced(NormalForm(cs, s))
    ensures var t := cs.lower(s);
      Marks(NormalForm(cs, s), true) ==
        Marks(seq(|t|, i requires 0 <= i < |t| => if cs.alphanumeric(t[i]) then t[i] else ' '), true)
  {
    hide Marks, SingleSpaced, CollapseWhitespace, Spaced;
    var t := cs.lower(s);
    assert Spaced(cs, t) == seq(|t|, i requires 0 <= i < |t| => if cs.alphanumeric(t[i]) then t[i] else ' ');
    CollapsingKeepsMarks(Spaced(cs, t));
    CollapsingSpaces(Spaced(cs, t));
  }

  /** Similarity, by the ratio of common words: one form contains the other, or at least 34 of 100 words are common. */
  lemma SimilarIff(cs: Charset, a: string, b: string, sa: set<string>, sb: set<string>)
    requires sa == set w | w in SplitOn(NormalForm(cs, a), ' ')
    requires sb == set w | w in SplitOn(NormalForm(cs, b), ' ')
    ensures |sa + sb| > 0
    ensures Similar(cs, a, b) <==>
              && NormalForm(cs, a) != "" && NormalForm(cs, b) != ""
              && (|| (exists u, v :: u + NormalForm(cs, b) + v == NormalForm(cs, a))
                  || (exists u, v :: u + NormalForm(cs, a) + v == NormalForm(cs, b))
                  || |sa * sb| as real / |sa + sb| as real >= 0.34)
  {
    hide NormalForm, SplitOn, Contains;
    var na, nb := NormalForm(cs, a), NormalForm(cs, b);
    assert SplitOn(na, ' ')[0] in sa + sb;
    ContainsIff(na, nb);
    ContainsIff(nb, na);
    RatioIff(|sa * sb|, |sa + sb|);
  }

  lemma ContainsIff(haystack: string, needle: string)
    ensures Contains(haystack, needle) <==> exists u, v :: u + needle + v == haystack
  {
    if Contains(haystack, needle) {
      var i :| 0 <= i <= |haystack| && OccursAt(haystack, needle, i);
      assert haystack[..i] + needle + haystack[i + |needle|..] == haystack;
    }
    if u, v :| u + needle + v == haystack {
      assert OccursAt(haystack, needle, |u|);
    }
  }

  lemma RatioIff(m: nat, n: nat)
    requires n > 0
    ensures 100 * m >= 34 * n <==> m as real / n as real >= 0.34
  {
    var q := m as real / n as real;
    assert q * n as real == m as real;
    if q >= 0.34 {
      assert q * n as real >= 0.34 * n as real;
    } else {
      assert q * n as real < 0.34 * n as real;
    }
  }

  /** Similarity does not depend on which text is the item and which the finding. */
  lemma SimilarIsSymmetric(cs: Charset, a: string, b: string)
    ensures Similar(cs, a, b) == Similar(cs, b, a)
  {
    hide NormalForm, Contains, SplitOn;
    var na, nb := NormalForm(cs, a), NormalForm(cs, b);
    var sa, sb := (set w | w in SplitOn(na, ' ')), (set w | w in SplitOn(nb, ' '));
    assert sa * sb == sb * sa && sa + sb == sb + sa;
  }

  /** A text is similar to itself unless it has no letter or digit at all. */
  lemma SimilarToItself(cs: Charset, a: string)
    ensures Similar(cs, a, a) <==> NormalForm(cs, a) != ""
  {
    hide NormalForm, SplitOn;
    var na := NormalForm(cs, a);
    assert OccursAt(na, na, 0);
  }

  function AsciiLower(c: char): char {
    if 'A' <= c <= 'Z' then (c as int + 32) as char else c
  }

  /** `eq_ignore_ascii_case`. */
  predicate EqIgnoreAsciiCase(a: string, b: string) {
    |a| == |b| && forall i | 0 <= i < |a| :: AsciiLower(a[i]) == AsciiLower(b[i])
  }

  /** Equal but for letters of the English alphabet in the other case. */
  lemma EqIgnoreAsciiCaseIff(a: string, b: string)
    ensures EqIgnoreAsciiCase(a, b) <==>
              |a| == |b| && forall i | 0 <= i < |a| ::
                || a[i] == b[i]
                || ('A' <= a[i] <= 'Z' && b[i] as int - a[i] as int == 32)
                || ('A' <= b[i] <= 'Z' && a[i] as int - b[i] as int == 32)
  {
    if |a| == |b| {
      forall i | 0 <= i < |a|
        ensures AsciiLower(a[i]) == AsciiLower(b[i]) <==>
                  || a[i] == b[i]
                  || ('A' <= a[i] <= 'Z' && b[i] as int - a[i] as int == 32)
                  || ('A' <= b[i] <= 'Z' && a[i] as int - b[i] as int == 32)
      {
      }
    }
  }
}
