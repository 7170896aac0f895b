/** Text as the engine's deterministic stages see it: scalar values, white space, words and lines. */
module Text {

  /** The Unicode White_Space property, the one Rust's `trim` and `split_whitespace` use. */
  predicate IsSpace(c: char) {
    || '\t' <= c <= '\r' || c == ' ' || c == '\U{0085}' || c == '\U{00A0}' || c == '\U{1680}'
    || '\U{2000}' <= c <= '\U{200A}' || c == '\U{2028}' || c == '\U{2029}' || c == '\U{202F}'
    || c == '\U{205F}' || c == '\U{3000}'
  }

  /** The 25 characters that are white space. */
  lemma WhiteSpaceIs(c: char)
    ensures IsSpace(c) <==> c as int in {9, 10, 11, 12, 13, 32, 133, 160, 5760, 8192, 8193, 8194, 8195, 8196, 8197, 8198,
                                         8199, 8200, 8201, 8202, 8232, 8233, 8239, 8287, 12288}
  {
  }

  /** Nothing but white space: the engine's `trim().is_empty()`. */
  predicate Blank(s: string) {
    forall i | 0 <= i < |s| :: IsSpace(s[i])
  }

  predicate SpaceFree(s: string) {
    forall i | 0 <= i < |s| :: !IsSpace(s[i])
  }

  function TrimStart(s: string): (r: string)
    ensures |r| <= |s| && r == s[|s| - |r|..]
    ensures Blank(s[..|s| - |r|])
    ensures r != [] ==> !IsSpace(r[0])
  {
    if s != [] && IsSpace(s[0]) then TrimStart(s[1..]) else s
  }

  function TrimEnd(s: string): (r: string)
    ensures r <= s
    ensures Blank(s[|r|..])
    ensures r != [] ==> !IsSpace(r[|r| - 1])
  {
    if s != [] && IsSpace(s[|s| - 1]) then TrimEnd(s[..|s| - 1]) else s
  }

  /** What is left between the outermost non-space characters. */
  function Trim(s: string): (r: string)
    ensures r == [] <==> Blank(s)
    ensures r != [] ==> !IsSpace(r[0]) && !IsSpace(r[|r| - 1])
    ensures |r| <= |s|
  {
    var t := TrimStart(s);
    var r := TrimEnd(t);
    assert t[0..] == t && s[..|s|] == s;
    r
  }

  lemma TrimIsIdentity(s: string)
    requires s != [] ==> !IsSpace(s[0]) && !IsSpace(s[|s| - 1])
    ensures Trim(s) == s
  {
  }

  lemma {:induction false} TrimStartOf(a: string, r: string)
    requires Blank(a) && (r != [] ==> !IsSpace(r[0]))
    ensures TrimStart(a + r) == r
  {
    if a == [] {
      assert a + r == r;
    } else {
      assert (a + r)[0] == a[0] && (a + r)[1..] == a[1..] + r;
      TrimStartOf(a[1..], r);
    }
  }

  lemma {:induction false} TrimEndOf(r: string, b: string)
    requires Blank(b) && (r != [] ==> !IsSpace(r[|r| - 1]))
    ensures TrimEnd(r + b) == r
  {
    if b == [] {
      assert r + b == r;
    } else {
      var n := |b| - 1;
      assert (r + b)[|r + b| - 1] == b[n] && (r + b)[..|r + b| - 1] == r + b[..n];
      TrimEndOf(r, b[..n]);
    }
  }

  /** Trimming takes off exactly the white space around a text. */
  lemma TrimOf(a: string, r: string, b: string)
    requires Blank(a) && Blank(b) && (r != [] ==> !IsSpace(r[0]) && !IsSpace(r[|r| - 1]))
    ensures Trim(a + r + b) == r
  {
    hide IsSpace, TrimStart, TrimEnd;
    if r == [] {
      assert a + r + b == a + b;
      assert Blank(a + b);
    } else {
      TrimStartOf(a, r + b);
      assert a + r + b == a + (r + b);
      TrimEndOf(r, b);
    }
  }

  /** Trimming twice is trimming once. */
  lemma TrimTwice(s: string)
    ensures Trim(Trim(s)) == Trim(s)
  {
    TrimIsIdentity(Trim(s));
  }

  /** Length of the leading run of non-space characters. */
  function WordEnd(s: string): (n: nat)
    ensures n <= |s| && SpaceFree(s[..n]) && (n < |s| ==> IsSpace(s[n]))
  {
    if s == [] || IsSpace(s[0]) then 0 else 1 + WordEnd(s[1..])
  }

  predicate IsWord(w: string) {
    w != [] && SpaceFree(w)
  }

  /** The maximal runs of non-space characters, in order. */
  function Words(s: string): (ws: seq<string>)
    ensures forall w | w in ws :: IsWord(w)
    decreases |s|
  {
    if s == [] then []
    else if IsSpace(s[0]) then Words(s[1..])
    else [s[..WordEnd(s)]] + Words(s[WordEnd(s)..])
  }

  function Join(parts: seq<string>, separator: string): string {
    if |parts| == 0 then ""
    else if |parts| == 1 then parts[0]
    else parts[0] + separator + Join(parts[1..], separator)
  }

  lemma {:induction false} WordEndOf(w: string, rest: string)
    requires SpaceFree(w) && (rest == [] || IsSpace(rest[0]))
    ensures WordEnd(w + rest) == |w|
  {
    if w == [] {
      assert w + rest == rest;
    } else {
      var s := w + rest;
      assert s[0] == w[0] && s[1..] == w[1..] + rest;
      WordEndOf(w[1..], rest);
    }
  }

  /** Joining words with single spaces loses and invents no word. */
  lemma {:induction false} WordsOfJoin(ws: seq<string>)
    requires forall w | w in ws :: IsWord(w)
    ensures Words(Join(ws, " ")) == ws
  {
    if |ws| == 1 {
      assert IsWord(ws[0]);
      WordEndOf(ws[0], []);
      assert ws[0] + [] == ws[0];
      assert ws[0][..|ws[0]|] == ws[0] && ws[0][|ws[0]|..] == [];
    } else if |ws| > 1 {
      var w, rest := ws[0], Join(ws[1..], " ");
      assert IsWord(w);
      WordEndOf(w, " " + rest);
      var s := w + " " + rest;
      assert s == w + (" " + rest);
      assert s[..|w|] == w && s[|w|..] == " " + rest;
      assert (" " + rest)[1..] == rest;
      WordsOfJoin(ws[1..]);
    }
  }

  lemma {:induction false} BlankHasNoWords(s: string)
    ensures Words(s) == [] <==> Blank(s)
  {
    if s != [] {
      if IsSpace(s[0]) {
        BlankHasNoWords(s[1..]);
        assert s == [s[0]] + s[1..];
      }
    }
  }

  /** Runs of white space become single spaces, those at the ends disappear: `split_whitespace` and `join`. */
  function CollapseWhitespace(s: string): string {
    Join(Words(s), " ")
  }

  /** The characters that are not white space, in order, each with whether white space comes right before it. */
  ghost function Marks(s: string, spaced: bool): seq<(char, bool)> {
    if s == [] then []
    else if IsSpace(s[0]) then Marks(s[1..], true)
    else [(s[0], spaced)] + Marks(s[1..], false)
  }

  /** The only white space are single spaces, each between two other characters. */
  ghost predicate SingleSpaced(s: string) {
    forall i | 0 <= i < |s| && IsSpace(s[i]) ::
      s[i] == ' ' && 0 < i < |s| - 1 && !IsSpace(s[i - 1]) && !IsSpace(s[i + 1])
  }

  lemma {:induction false} MarksOfConcat(a: string, b: string, spaced: bool)
    ensures Marks(a + b, spaced) ==
              Marks(a, spaced) + Marks(b, if a == [] then spaced else IsSpace(a[|a| - 1]))
  {
    hide IsSpace;
    if a == [] {
      assert a + b == b;
    } else {
      assert (a + b)[0] == a[0] && (a + b)[1..] == a[1..] + b;
      MarksOfConcat(a[1..], b, IsSpace(a[0]));
    }
  }

  /**
   * Collapsing keeps every character that is not white space, and keeps two of them apart, by one space, exactly
   * when white space keeps them apart in the original.
   */
  lemma {:induction false} CollapsingKeepsMarks(s: string)
    ensures Marks(CollapseWhitespace(s), true) == Marks(s, true)
    decreases |s|
  {
    hide IsSpace, Marks, Join;
    if s == [] {
      JoinOfFew("", " ");
    } else if IsSpace(s[0]) {
      CollapsingKeepsMarks(s[1..]);
      MarksOfFirst(s, true);
    } else {
      var w, rest := s[..WordEnd(s)], s[WordEnd(s)..];
      assert w != [] && s == w + rest;
      CollapsingKeepsMarks(rest);
      MarksOfConcat(w, rest, true);
      AfterWord(rest);
      var more := Words(rest);
      assert Words(s) == [w] + more;
      if more == [] {
        JoinOfFew(w, " ");
        assert [w] + [] == [w];
        MarksOfNothing();
      } else {
        JoinOfCons(w, more, " ");
        MarksOfConcat(w + " ", Join(more, " "), true);
        MarksOfConcat(w, " ", true);
        MarksOfSpace(IsSpace(w[|w| - 1]));
      }
    }
  }

  lemma MarksOfNothing()
    ensures Marks("", true) == Marks("", false) == []
  {
  }

  lemma MarksOfSpace(spaced: bool)
    ensures IsSpace(' ') && Marks(" ", spaced) == []
  {
    assert " "[1..] == [];
  }

  lemma MarksOfFirst(s: string, spaced: bool)
    requires s != [] && IsSpace(s[0])
    ensures Marks(s, spaced) == Marks(s[1..], true)
  {
  }

  /** Behind a word it does not matter what came before: nothing or white space follows. */
  lemma AfterWord(rest: string)
    requires rest == [] || IsSpace(rest[0])
    ensures Marks(rest, true) == Marks(rest, false)
  {
    hide IsSpace;
  }

  lemma JoinOfFew(part: string, separator: string)
    ensures Join([], separator) == "" && Join([part], separator) == part
  {
  }

  lemma JoinOfCons(part: string, rest: seq<string>, separator: string)
    requires rest != []
    ensures Join([part] + rest, separator) == part + separator + Join(rest, separator)
  {
    assert ([part] + rest)[1..] == rest;
  }

  lemma {:induction false} JoinOfSnoc(parts: seq<string>, last: string, separator: string)
    requires parts != []
    ensures Join(parts + [last], separator) == Join(parts, separator) + separator + last
  {
    if |parts| == 1 {
      assert (parts + [last])[1..] == [last];
    } else {
      JoinOfSnoc(parts[1..], last, separator);
      assert (parts + [last])[1..] == parts[1..] + [last];
      assert Join(parts + [last], separator) == parts[0] + separator + Join(parts[1..] + [last], separator);
    }
  }

  lemma {:induction false} JoinOfWordsIsSpaced(ws: seq<string>)
    requires forall w | w in ws :: IsWord(w)
    ensures SingleSpaced(Join(ws, " "))
    ensures ws != [] ==> Join(ws, " ") != "" && !IsSpace(Join(ws, " ")[0])
  {
    MarksOfSpace(false);
    hide IsSpace;
    if ws != [] {
      assert IsWord(ws[0]);
      if |ws| > 1 {
        var w, rest := ws[0], Join(ws[1..], " ");
        JoinOfWordsIsSpaced(ws[1..]);
        var s := w + " " + rest;
        forall i | 0 <= i < |s| && IsSpace(s[i])
          ensures s[i] == ' ' && 0 < i < |s| - 1 && !IsSpace(s[i - 1]) && !IsSpace(s[i + 1])
        {
          if i == |w| {
            assert s[i - 1] == w[i - 1] && s[i + 1] == rest[0];
          } else if i > |w| {
            var j := i - |w| - 1;
            assert s[i] == rest[j];
            assert s[i - 1] == rest[j - 1] && s[i + 1] == rest[j + 1];
          }
        }
      }
    }
  }

  lemma CollapsingSpaces(s: string)
    ensures SingleSpaced(CollapseWhitespace(s))
  {
    JoinOfWordsIsSpaced(Words(s));
  }

  lemma TailIsSpaced(s: string)
    requires SingleSpaced(s) && s != []
    ensures |s| > 1 && IsSpace(s[1]) ==> |s| > 2 && s[1] == ' ' && !IsSpace(s[2]) && SingleSpaced(s[2..])
    ensures |s| > 1 && !IsSpace(s[1]) ==> SingleSpaced(s[1..])
    ensures !IsSpace(s[0])
  {
    hide IsSpace;
    assert forall i | 2 <= i < |s| :: s[2..][i - 2] == s[i];
    assert forall i | 1 <= i < |s| :: s[1..][i - 1] == s[i];
  }

  /** A single-spaced text is determined by its characters and where they are kept apart. */
  lemma {:induction false} MarksDetermine(a: string, b: string, spaced: bool)
    requires SingleSpaced(a) && SingleSpaced(b) && Marks(a, spaced) == Marks(b, spaced)
    ensures a == b
    decreases |a|
  {
    hide IsSpace, SingleSpaced;
    if a != [] { TailIsSpaced(a); }
    if b != [] { TailIsSpaced(b); }
    if a != [] && b != [] {
      assert a[0] == Marks(a, spaced)[0].0 == Marks(b, spaced)[0].0 == b[0];
      assert Marks(a[1..], false) == Marks(a, spaced)[1..] == Marks(b, spaced)[1..] == Marks(b[1..], false);
      BehindFirst(a);
      BehindFirst(b);
      if |a| == 1 || |b| == 1 {
        assert a == b;
      } else if IsSpace(a[1]) {
        MarksDetermine(a[2..], b[2..], true);
        assert a == a[..2] + a[2..] && b == b[..2] + b[2..];
      } else {
        MarksDetermine(a[1..], b[1..], false);
        assert a == a[..1] + a[1..] && b == b[..1] + b[1..];
      }
    }
  }

  /** What the marks behind the first character tell about the second. */
  lemma BehindFirst(s: string)
    requires SingleSpaced(s) && s != []
    ensures |s| == 1 ==> Marks(s[1..], false) == []
    ensures |s| > 1 && !IsSpace(s[1]) ==> Marks(s[1..], false) != [] && !Marks(s[1..], false)[0].1
    ensures |s| > 1 && IsSpace(s[1]) ==> Marks(s[1..], false) == Marks(s[2..], true) != [] && Marks(s[1..], false)[0].1
  {
    hide IsSpace;
    if |s| > 1 {
      assert s[1..][0] == s[1];
      if IsSpace(s[1]) {
        assert s[1..][1..] == s[2..] && s[2..][0] == s[2];
      }
    }
  }

  /** Collapsing leaves alone exactly the texts that are single-spaced. */
  lemma CollapsingIsFinal(s: string)
    ensures CollapseWhitespace(s) == s <==> SingleSpaced(s)
  {
    hide CollapseWhitespace, SingleSpaced, Marks;
    CollapsingSpaces(s);
    CollapsingKeepsMarks(s);
    if SingleSpaced(s) { MarksDetermine(CollapseWhitespace(s), s, true); }
  }

  function SplitOn(s: string, c: char): (parts: seq<string>)
    ensures |parts| >= 1
    ensures forall p | p in parts :: c !in p
  {
    if s == [] then [[]]
    else
      var rest := SplitOn(s[1..], c);
      if s[0] == c then [[]] + rest else [[s[0]] + rest[0]] + rest[1..]
  }

  /** Splitting on a character and joining with it is the identity. */
  lemma {:induction false} JoinOfSplit(s: string, c: char)
    ensures Join(SplitOn(s, c), [c]) == s
  {
    if s != [] {
      JoinOfSplit(s[1..], c);
      var rest := SplitOn(s[1..], c);
      assert ([[]] + rest)[1..] == rest;
      assert ([[s[0]] + rest[0]] + rest[1..])[1..] == rest[1..];
    }
  }

  /** Splitting is the only way to write a text as parts without the character. */
  lemma {:induction false} SplitOfJoin(parts: seq<string>, c: char)
    requires parts != [] && forall p | p in parts :: c !in p
    ensures SplitOn(Join(parts, [c]), c) == parts
  {
    assert c !in parts[0];
    if |parts| == 1 {
      SplitFirst(parts[0], [], c);
      assert parts[0] + [] == parts[0];
      SplitNothing(c);
      assert SplitOn([], c)[1..] == [];
    } else {
      var rest := Join(parts[1..], [c]);
      SplitOfJoin(parts[1..], c);
      SplitFirst(parts[0], [c] + rest, c);
      assert parts[0] + [c] + rest == parts[0] + ([c] + rest);
      SplitFront(c, rest, c);
      assert ([[]] + parts[1..])[1..] == parts[1..] && parts[0] + [] == parts[0];
      assert parts == [parts[0]] + parts[1..];
    }
  }

  /** The first part grows by what comes before it. */
  lemma {:induction false} SplitFirst(a: string, b: string, c: char)
    requires c !in a
    ensures SplitOn(a + b, c) == [a + SplitOn(b, c)[0]] + SplitOn(b, c)[1..]
  {
    var q := SplitOn(b, c);
    if a == [] {
      assert a + b == b && a + q[0] == q[0] && q == [q[0]] + q[1..];
    } else {
      SplitFirst(a[1..], b, c);
      assert a[0] in a;
      assert (a + b)[0] == a[0] && (a + b)[1..] == a[1..] + b;
      var r := SplitOn(a[1..] + b, c);
      assert r[1..] == q[1..] && [a[0]] + r[0] == a + q[0];
    }
  }

  lemma SplitNothing(c: char)
    ensures SplitOn([], c) == [[]]
  {
  }

  lemma SplitFront(x: char, s: string, c: char)
    ensures var q := SplitOn(s, c);
      SplitOn([x] + s, c) == if x == c then [[]] + q else [[x] + q[0]] + q[1..]
  {
    assert ([x] + s)[1..] == s;
  }

  /** Text without the character, put behind it, becomes the last part. */
  lemma SplitOfSnoc(a: string, b: string, c: char)
    requires c !in b
    ensures SplitOn(a + [c] + b, c) == SplitOn(a, c) + [b]
  {
    hide SplitOn;
    var parts := SplitOn(a, c) + [b];
    JoinOfSplit(a, c);
    JoinOfSnoc(SplitOn(a, c), b, [c]);
    SplitOfJoin(parts, c);
  }

  /** `text.split('\n')`: the newline-separated lines, of which there is always at least one. */
  function Lines(text: string): (lines: seq<string>)
    ensures |lines| >= 1 && Join(lines, "\n") == text
    ensures forall line | line in lines :: '\n' !in line
  {
    JoinOfSplit(text, '\n');
    SplitOn(text, '\n')
  }

  function Newlines(s: string): nat {
    if s == [] then 0 else (if s[0] == '\n' then 1 else 0) + Newlines(s[1..])
  }

  /** `line` is the newline-separated line of `text` that starts behind `before`. */
  ghost predicate LineBehind(text: string, before: string, line: string) {
    && before + line <= text && '\n' !in line
    && (before == "" || before[|before| - 1] == '\n')
    && (before + line == text || text[|before| + |line|] == '\n')
  }

  lemma {:induction false} NewlinesOfConcat(a: string, b: string)
    ensures Newlines(a + b) == Newlines(a) + Newlines(b)
  {
    if a == [] {
      assert a + b == b;
    } else {
      assert (a + b)[0] == a[0] && (a + b)[1..] == a[1..] + b;
      NewlinesOfConcat(a[1..], b);
    }
  }

  lemma {:induction false} NoNewlines(s: string)
    requires '\n' !in s
    ensures Newlines(s) == 0
  {
    if s != [] {
      assert s[0] in s;
      NoNewlines(s[1..]);
    }
  }

  lemma {:induction false} PartAt(before: string, line: string, after: string)
    requires '\n' !in line && (before == "" || before[|before| - 1] == '\n') && (after == "" || after[0] == '\n')
    ensures Newlines(before) < |SplitOn(before + line + after, '\n')|
    ensures SplitOn(before + line + after, '\n')[Newlines(before)] == line
  {
    hide SplitOn;
    if before == "" {
      assert before + line + after == line + after;
      SplitFirst(line, after, '\n');
      SplitNothing('\n');
      if after != "" {
        SplitFront('\n', after[1..], '\n');
        assert after == ['\n'] + after[1..];
      }
    } else {
      var x, rest := before[0], before[1..];
      assert before + line + after == [x] + (rest + line + after);
      SplitFront(x, rest + line + after, '\n');
      PartAt(rest, line, after);
      if x != '\n' { EndsLine(rest); }
    }
  }

  /** A line stands at the index that counts the newlines before it. */
  lemma LineIsNumbered(text: string, before: string, line: string)
    requires LineBehind(text, before, line)
    ensures Newlines(before) < |Lines(text)| && Lines(text)[Newlines(before)] == line
  {
    hide SplitOn, Newlines;
    PartAt(before, line, text[|before| + |line|..]);
    assert text == before + line + text[|before| + |line|..];
  }

  lemma {:induction false} EndsLine(s: string)
    requires s != "" && s[|s| - 1] == '\n'
    ensures Newlines(s) > 0
  {
    if |s| > 1 { EndsLine(s[1..]); }
  }

  /** Lines that start later have more newlines before them. */
  lemma LaterLine(text: string, before: string, line: string, before': string, line': string)
    requires LineBehind(text, before, line) && LineBehind(text, before', line') && |before'| < |before|
    ensures Newlines(before') < Newlines(before)
  {
    assert before <= before + line && before' <= before' + line';
    assert before[|before| - 1] == '\n';
    var rest := before[|before'|..];
    PrefixesOf(text, before', before);
    hide LineBehind, Newlines;
    assert before == before' + rest;
    NewlinesOfConcat(before', rest);
    EndsLine(rest);
  }

  lemma PrefixesOf(text: string, a: string, b: string)
    requires a <= text && b <= text && |a| < |b|
    ensures a == b[..|a|] && b == a + b[|a|..] && b[|a|..] != [] && b[|a|..][|b| - |a| - 1] == b[|b| - 1]
  {
    assert a == text[..|a|] && b == text[..|b|];
  }

  /** Where the parts of a joined text stand. */
  lemma {:induction false} PartOfJoin(parts: seq<string>, k: nat) returns (before: string)
    requires k < |parts| && forall p | p in parts :: '\n' !in p
    ensures LineBehind(Join(parts, "\n"), before, parts[k]) && Newlines(before) == k
  {
    assert parts[0] in parts && '\n' !in parts[0];
    if k == 0 {
      before := "";
      assert before + parts[0] == parts[0];
    } else {
      var rest := PartOfJoin(parts[1..], k - 1);
      before := parts[0] + "\n" + rest;
      assert Join(parts, "\n") == parts[0] + "\n" + Join(parts[1..], "\n");
      assert before + parts[k] == parts[0] + "\n" + (rest + parts[k]);
      NewlinesOfConcat(parts[0] + "\n", rest);
      NewlinesOfConcat(parts[0], "\n");
      NoNewlines(parts[0]);
      assert "\n"[1..] == [];
    }
  }

  /** Every line of a text stands behind as many newlines as its index. */
  lemma LineHasPlace(text: string, k: nat) returns (before: string)
    requires k < |Lines(text)|
    ensures LineBehind(text, before, Lines(text)[k]) && Newlines(before) == k
  {
    before := PartOfJoin(Lines(text), k);
  }

  /** Size of a scalar value in UTF-8 (section 3 of RFC 3629). */
  function Utf8Size(c: char): (n: nat)
    ensures 1 <= n <= 4
  {
    if c < '\U{0080}' then 1 else if c < '\U{0800}' then 2 else if c < '\U{10000}' then 3 else 4
  }

  /** Rust's `str::len`: bytes, not characters. */
  function Size(s: string): (n: nat)
    ensures n >= |s|
  {
    if s == [] then 0 else Utf8Size(s[0]) + Size(s[1..])
  }

  lemma {:induction false} SizeOfConcat(a: string, b: string)
    ensures Size(a + b) == Size(a) + Size(b)
  {
    if a == [] {
      assert a + b == b;
    } else {
      SizeOfConcat(a[1..], b);
      assert (a + b)[0] == a[0] && (a + b)[1..] == a[1..] + b;
    }
  }

  lemma NewlineSize()
    ensures Size("\n") == 1
  {
    assert "\n"[1..] == "";
  }

  predicate OccursAt(haystack: string, needle: string, i: nat) {
    i + |needle| <= |haystack| && haystack[i..i + |needle|] == needle
  }

  /** `haystack.contains(needle)`. */
  predicate Contains(haystack: string, needle: string) {
    exists i | 0 <= i <= |haystack| :: OccursAt(haystack, needle, i)
  }

  function Concat<T>(parts: seq<seq<T>>): seq<T> {
    if parts == [] then [] else Concat(parts[..|parts| - 1]) + parts[|parts| - 1]
  }

  lemma ConcatOfSnoc<T>(parts: seq<seq<T>>, last: seq<T>)
    ensures Concat(parts + [last]) == Concat(parts) + last
  {
    assert (parts + [last])[..|parts|] == parts;
  }

  /** Decimal digits of a number, most significant first. */
  function Decimal(n: nat): (s: string)
    ensures |s| >= 1
  {
    var last := ['0' + (n % 10) as char];
    if n < 10 then last else Decimal(n / 10) + last
  }

  /** The number a string of decimal digits stands for. */
  function Value(s: string): int {
    if s == [] then 0 else 10 * Value(s[..|s| - 1]) + (s[|s| - 1] as int - '0' as int)
  }

  lemma {:induction false} DecimalReads(n: nat)
    ensures Value(Decimal(n)) == n && forall i | 0 <= i < |Decimal(n)| :: '0' <= Decimal(n)[i] <= '9'
    ensures n >= 10 ==> Decimal(n)[0] != '0'
  {
    var s := Decimal(n);
    assert s[|s| - 1] as int - '0' as int == n % 10;
    if n >= 10 {
      DecimalReads(n / 10);
      assert s[..|s| - 1] == Decimal(n / 10);
      if n / 10 < 10 { assert Decimal(n / 10) == ['0' + (n / 10 % 10) as char]; }
    }
  }

  /** No two numbers print alike. */
  lemma DecimalIsInjective(m: nat, n: nat)
    requires Decimal(m) == Decimal(n)
    ensures m == n
  {
    hide Decimal, Value;
    DecimalReads(m);
    DecimalReads(n);
  }
}
