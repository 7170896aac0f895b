/**
 * The desktop client's line framing, as functions of the text and of the bytes that arrive in chunks
 * (apps/desktop/lib/ipc/engine_client.dart).
 */
module Framing {
  import opened Text
  import opened Utf8

  // ----- Framing of text -----

  /** The trimmed lines that are not empty. */
  function NonEmpty(parts: seq<string>, trim: string -> string): seq<string> {
    if parts == [] then []
    else (if trim(parts[0]) == "" then [] else [trim(parts[0])]) + NonEmpty(parts[1..], trim)
  }

  /** Everything after the last newline. */
  function Rest(text: string): (r: string)
    ensures '\n' !in r
  {
    var parts := SplitOn(text, '\n');
    assert parts[|parts| - 1] in parts;
    parts[|parts| - 1]
  }

  /** The lines a text hands on: those ended by a newline, trimmed, without the empty ones. */
  function Handed(text: string, trim: string -> string): seq<string> {
    var parts := SplitOn(text, '\n');
    NonEmpty(parts[..|parts| - 1], trim)
  }

  /** Splitting a concatenation is going on from the last part. */
  ghost predicate SplitsAt(a: string, b: string, c: char) {
    var p, n := SplitOn(a, c), |SplitOn(a, c)| - 1;
    SplitOn(a + b, c) == p[..n] + SplitOn(p[n] + b, c)
  }

  lemma {:induction false} SplitOfConcat(a: string, b: string, c: char)
    ensures SplitsAt(a, b, c)
  {
    if a == [] {
      SplitNothing(c);
      assert a + b == b && [] + b == b;
    } else {
      hide SplitsAt, SplitOn;
      SplitOfConcat(a[1..], b, c);
      SplitStep(a[0], a[1..], b, c);
      assert a == [a[0]] + a[1..];
    }
  }

  lemma SplitStep(x: char, rest: string, b: string, c: char)
    requires SplitsAt(rest, b, c)
    ensures SplitsAt([x] + rest, b, c)
  {
    hide SplitOn;
    SplitFront(x, rest, c);
    SplitFront(x, rest + b, c);
    SplitOfCons(x, SplitOn(rest, c), b, c);
    assert ([x] + rest) + b == [x] + (rest + b);
  }

  /** Putting one character in front commutes with splitting what follows. */
  lemma SplitOfCons(x: char, q: seq<string>, b: string, c: char)
    requires q != []
    ensures var p := if x == c then [[]] + q else [[x] + q[0]] + q[1..];
      var m, n := |q| - 1, |p| - 1;
      var r := q[..m] + SplitOn(q[m] + b, c);
      (if x == c then [[]] + r else [[x] + r[0]] + r[1..]) == p[..n] + SplitOn(p[n] + b, c)
  {
    var m := |q| - 1;
    if x != c {
      if m == 0 {
        var s := [x] + q[0] + b;
        assert s[0] == x && s[1..] == q[0] + b;
        assert SplitOn(s, c) == [[x] + SplitOn(q[0] + b, c)[0]] + SplitOn(q[0] + b, c)[1..];
      }
    }
  }

  lemma {:induction false} NonEmptyOfConcat(a: seq<string>, b: seq<string>, trim: string -> string)
    ensures NonEmpty(a + b, trim) == NonEmpty(a, trim) + NonEmpty(b, trim)
  {
    NonEmptyOfNone(trim);
    hide NonEmpty;
    if a == [] {
      assert a + b == b;
    } else {
      NonEmptyOfConcat(a[1..], b, trim);
      NonEmptyOfCons(a[0], a[1..], trim);
      NonEmptyOfCons(a[0], a[1..] + b, trim);
      assert a == [a[0]] + a[1..] && a + b == [a[0]] + (a[1..] + b);
    }
  }

  lemma NonEmptyOfNone(trim: string -> string)
    ensures NonEmpty([], trim) == []
  {
  }

  lemma NonEmptyOfCons(part: string, rest: seq<string>, trim: string -> string)
    ensures NonEmpty([part] + rest, trim) == (if trim(part) == "" then [] else [trim(part)]) + NonEmpty(rest, trim)
  {
    assert ([part] + rest)[1..] == rest;
  }

  /** Framing a prefix first and continuing from its remainder is framing everything at once. */
  lemma FramingIsIncremental(a: string, b: string, trim: string -> string)
    ensures Handed(a + b, trim) == Handed(a, trim) + Handed(Rest(a) + b, trim)
    ensures Rest(a + b) == Rest(Rest(a) + b)
  {
    hide SplitOn, NonEmpty;
    SplitOfConcat(a, b, '\n');
    var p := SplitOn(a, '\n');
    var n := |p| - 1;
    var q := SplitOn(p[n] + b, '\n');
    assert (p[..n] + q)[..n + |q| - 1] == p[..n] + q[..|q| - 1];
    NonEmptyOfConcat(p[..n], q[..|q| - 1], trim);
  }

  lemma NonEmptyOne(part: string, trim: string -> string)
    ensures NonEmpty([part], trim) == if trim(part) == "" then [] else [trim(part)]
  {
  }

  lemma HandedLine(line: string, trim: string -> string)
    requires '\n' !in line
    ensures Handed(line + ['\n'], trim) == if trim(line) == "" then [] else [trim(line)]
    ensures Rest(line + ['\n']) == ""
  {
    OneLine(line);
    hide SplitOn, NonEmpty;
    assert [line, []][..1] == [line];
    NonEmptyOne(line, trim);
  }

  lemma FirstLine(text: string, nl: nat, trim: string -> string)
    requires nl < |text| && text[nl] == '\n' && '\n' !in text[..nl]
    ensures Handed(text, trim) ==
              (if trim(text[..nl]) == "" then [] else [trim(text[..nl])]) + Handed(text[nl + 1..], trim)
    ensures Rest(text) == Rest(text[nl + 1..])
  {
    hide Handed, Rest;
    var line := text[..nl] + ['\n'];
    assert text == line + text[nl + 1..];
    FramingIsIncremental(line, text[nl + 1..], trim);
    HandedLine(text[..nl], trim);
    assert "" + text[nl + 1..] == text[nl + 1..];
  }

  lemma {:induction false} OneLine(line: string)
    requires '\n' !in line
    ensures SplitOn(line + ['\n'], '\n') == [line, []]
    ensures SplitOn(line, '\n') == [line]
  {
    if line != [] {
      assert line[0] in line;
      OneLine(line[1..]);
      assert (line + ['\n'])[1..] == line[1..] + ['\n'];
      assert [line[0]] + line[1..] == line;
      assert [line[1..], []][1..] == [[]] && [line[1..]][1..] == [];
    } else {
      assert [] + ['\n'] == ['\n'] && ['\n'][1..] == [];
    }
  }

  /** What a connection has handed on and still holds after a sequence of chunks. */
  function Fed(chunks: seq<string>, trim: string -> string): (seq<string>, string) {
    if chunks == [] then ([], "")
    else
      var (lines, rest) := Fed(chunks[..|chunks| - 1], trim);
      var text := rest + chunks[|chunks| - 1];
      (lines + Handed(text, trim), Rest(text))
  }

  /** However the text is cut into chunks, the same lines come out and the same remainder is held. */
  lemma {:induction false} ChunkingIsInvisible(chunks: seq<string>, trim: string -> string)
    ensures Fed(chunks, trim) == (Handed(Concat(chunks), trim), Rest(Concat(chunks)))
  {
    hide Handed, Rest;
    if chunks == [] {
      OneLine("");
      assert Handed("", trim) == [] && Rest("") == "" by { EmptyText(trim); }
    } else {
      var n := |chunks| - 1;
      ChunkingIsInvisible(chunks[..n], trim);
      FramingIsIncremental(Concat(chunks[..n]), chunks[n], trim);
    }
  }

  lemma EmptyText(trim: string -> string)
    ensures Handed("", trim) == [] && Rest("") == ""
  {
  }

  lemma NoNewline(text: string, trim: string -> string)
    requires '\n' !in text
    ensures Handed(text, trim) == [] && Rest(text) == text
  {
    OneLine(text);
    assert [text][..0] == [];
  }

  // ----- Trimming -----

  predicate AllIn(s: string, z: char -> bool) {
    forall i | 0 <= i < |s| :: z(s[i])
  }

  function StripFront(s: string, z: char -> bool): string {
    if s == [] || !z(s[0]) then s else StripFront(s[1..], z)
  }

  function StripBack(s: string, z: char -> bool): string {
    if s == [] || !z(s[|s| - 1]) then s else StripBack(s[..|s| - 1], z)
  }

  /** A trim that takes the characters `z` off both ends. */
  function Strip(s: string, z: char -> bool): string {
    StripBack(StripFront(s, z), z)
  }

  /** Dart's trim: it strips white space and byte order marks, and no replacement characters. */
  ghost predicate Strips(trim: string -> string, z: char -> bool) {
    (forall s :: trim(s) == Strip(s, z)) && z(MARK_CHAR) && !z(REPLACEMENT)
  }

  lemma {:induction false} StripFrontOfConcat(r: string, p: string, z: char -> bool)
    ensures AllIn(r, z) ==> StripFront(r + p, z) == StripFront(p, z)
    ensures !AllIn(r, z) ==> StripFront(r, z) != [] && StripFront(r + p, z) == StripFront(r, z) + p
  {
    if r == [] {
      assert r + p == p;
    } else {
      StripFrontOfConcat(r[1..], p, z);
      assert (r + p)[0] == r[0] && (r + p)[1..] == r[1..] + p;
      assert AllIn(r, z) <==> z(r[0]) && AllIn(r[1..], z);
    }
  }

  lemma {:induction false} StripBackOfConcat(r: string, p: string, z: char -> bool)
    ensures AllIn(p, z) ==> StripBack(r + p, z) == StripBack(r, z)
    ensures !AllIn(p, z) ==> StripBack(p, z) != [] && StripBack(r + p, z) == r + StripBack(p, z)
  {
    if p == [] {
      assert r + p == r;
    } else {
      var n := |p| - 1;
      StripBackOfConcat(r, p[..n], z);
      assert (r + p)[|r + p| - 1] == p[n] && (r + p)[..|r + p| - 1] == r + p[..n];
      assert AllIn(p, z) <==> z(p[n]) && AllIn(p[..n], z);
    }
  }

  lemma AllInConcat(r: string, p: string, z: char -> bool)
    ensures AllIn(r + p, z) <==> AllIn(r, z) && AllIn(p, z)
  {
    assert forall i | 0 <= i < |r| :: (r + p)[i] == r[i];
    assert forall i | 0 <= i < |p| :: (r + p)[|r| + i] == p[i];
  }

  /** One strippable character more in a line shows exactly when it is between two that are not. */
  lemma StripWithMark(r: string, m: char, p: string, z: char -> bool)
    requires z(m)
    ensures AllIn(r, z) || AllIn(p, z) ==> Strip(r + [m] + p, z) == Strip(r + p, z)
    ensures !AllIn(r, z) && !AllIn(p, z) ==>
              Strip(r + p, z) != [] && |Strip(r + [m] + p, z)| == |Strip(r + p, z)| + 1
  {
    var f := StripFront(r, z);
    StripFrontOfConcat(r, p, z);
    StripFrontOfConcat(r + [m], p, z);
    StripFrontOfConcat(r, [m], z);
    AllInConcat(r, [m], z);
    AllInConcat([m], p, z);
    if !AllIn(r, z) {
      StripBackOfConcat(f, p, z);
      StripBackOfConcat(f + [m], p, z);
      StripBackOfConcat(f, [m], z);
    }
  }

  lemma {:induction false} StripFrontKeeps(s: string, z: char -> bool)
    requires !z(REPLACEMENT)
    ensures Replacements(StripFront(s, z)) == Replacements(s)
  {
    if s != [] { StripFrontKeeps(s[1..], z); }
  }

  lemma {:induction false} StripBackKeeps(s: string, z: char -> bool)
    requires !z(REPLACEMENT)
    ensures Replacements(StripBack(s, z)) == Replacements(s)
  {
    if s != [] {
      var n := |s| - 1;
      StripBackKeeps(s[..n], z);
      CountsOfConcat(s[..n], [s[n]]);
      assert s == s[..n] + [s[n]] && [s[n]][1..] == [];
    }
  }

  // ----- Counting -----

  function ReplacementsIn(lines: seq<string>): nat {
    if lines == [] then 0 else Replacements(lines[0]) + ReplacementsIn(lines[1..])
  }

  lemma {:induction false} SplitKeepsReplacements(s: string)
    ensures ReplacementsIn(SplitOn(s, '\n')) == Replacements(s)
  {
    if s != [] {
      SplitKeepsReplacements(s[1..]);
      var rest := SplitOn(s[1..], '\n');
      assert ([[]] + rest)[1..] == rest && ([[s[0]] + rest[0]] + rest[1..])[1..] == rest[1..];
      assert ([s[0]] + rest[0])[1..] == rest[0];
    }
  }

  lemma {:induction false} NonEmptyKeepsReplacements(parts: seq<string>, last: string, trim: string -> string,
                                                     z: char -> bool)
    requires Strips(trim, z)
    ensures ReplacementsIn(parts + [last]) == ReplacementsIn(NonEmpty(parts, trim)) + Replacements(last)
  {
    hide StripFront, StripBack;
    if parts == [] {
      assert [last][1..] == [] && [] + [last] == [last];
    } else {
      NonEmptyKeepsReplacements(parts[1..], last, trim, z);
      assert (parts + [last])[1..] == parts[1..] + [last];
      StripFrontKeeps(parts[0], z);
      StripBackKeeps(StripFront(parts[0], z), z);
      var line, more := trim(parts[0]), NonEmpty(parts[1..], trim);
      assert ([line] + more)[0] == line && ([line] + more)[1..] == more && [] + more == more;
      if line == "" { assert Replacements(line) == 0; }
    }
  }

  lemma HandedKeepsReplacements(text: string, trim: string -> string, z: char -> bool)
    requires Strips(trim, z)
    ensures Replacements(text) == ReplacementsIn(Handed(text, trim)) + Replacements(Rest(text))
  {
    hide Replacements, ReplacementsIn, NonEmpty, SplitOn, Strips;
    var parts := SplitOn(text, '\n');
    SplitKeepsReplacements(text);
    NonEmptyKeepsReplacements(parts[..|parts| - 1], parts[|parts| - 1], trim, z);
    assert parts == parts[..|parts| - 1] + [parts[|parts| - 1]];
  }

  function Total(lines: seq<string>): nat {
    if lines == [] then 0 else |lines[0]| + Total(lines[1..])
  }

  lemma {:induction false} TotalOfConcat(a: seq<string>, b: seq<string>)
    ensures Total(a + b) == Total(a) + Total(b)
  {
    if a == [] {
      assert a + b == b;
    } else {
      TotalOfConcat(a[1..], b);
      assert (a + b)[1..] == a[1..] + b;
    }
  }

  /** How much of a text is handed on or kept. */
  function Measure(text: string, trim: string -> string): nat {
    Total(Handed(text, trim)) + |Rest(text)|
  }

  ghost predicate SameLines(a: string, b: string, trim: string -> string) {
    Handed(a, trim) == Handed(b, trim) && Rest(a) == Rest(b)
  }

  // ----- A mark more or less -----

  function UpToNewline(s: string): (r: string)
    ensures r <= s && '\n' !in r
    ensures '\n' in s ==> |r| < |s| && s[|r|] == '\n'
    ensures '\n' !in s ==> r == s
  {
    if s == [] || s[0] == '\n' then [] else [s[0]] + UpToNewline(s[1..])
  }

  /**
   * Whether a strippable character between these texts shows: its line is not complete, or it has
   * characters on both sides that are not stripped.
   */
  predicate Shows(before: string, after: string, z: char -> bool) {
    '\n' !in after || (!AllIn(Rest(before), z) && !AllIn(UpToNewline(after), z))
  }

  lemma MarkShows(u: string, v: string, trim: string -> string, z: char -> bool)
    requires Strips(trim, z)
    ensures if Shows(u, v, z) then Measure(u + ([MARK_CHAR] + v), trim) == Measure(u + v, trim) + 1
            else SameLines(u + ([MARK_CHAR] + v), u + v, trim)
  {
    hide Handed, Rest, Strip, Strips, AllIn, Total;
    var r, m := Rest(u), [MARK_CHAR];
    FramingIsIncremental(u, m + v, trim);
    FramingIsIncremental(u, v, trim);
    TotalOfConcat(Handed(u, trim), Handed(r + (m + v), trim));
    TotalOfConcat(Handed(u, trim), Handed(r + v, trim));
    if '\n' !in v {
      NoNewline(r + v, trim);
      NoNewline(r + (m + v), trim);
    } else {
      MarkInLine(r, v, trim, z);
    }
  }

  lemma MarkInLine(r: string, v: string, trim: string -> string, z: char -> bool)
    requires Strips(trim, z) && '\n' !in r && '\n' in v
    ensures if AllIn(r, z) || AllIn(UpToNewline(v), z) then SameLines(r + ([MARK_CHAR] + v), r + v, trim)
            else Measure(r + ([MARK_CHAR] + v), trim) == Measure(r + v, trim) + 1
  {
    hide Handed, Rest, Strip, AllIn, Total, UpToNewline;
    var p, m := UpToNewline(v), [MARK_CHAR];
    var more := Handed(v[|p| + 1..], trim);
    CompletedLine(r, v, trim);
    CompletedLine(r + m, v, trim);
    assert (r + m) + v == r + (m + v);
    StripWithMark(r, MARK_CHAR, p, z);
    TotalOfLine(trim(r + p), more);
    TotalOfLine(trim(r + m + p), more);
  }

  /** What was kept becomes a line with the first newline that arrives. */
  lemma CompletedLine(r: string, v: string, trim: string -> string)
    requires '\n' !in r && '\n' in v
    ensures var p := UpToNewline(v);
      && Handed(r + v, trim) == (if trim(r + p) == "" then [] else [trim(r + p)]) + Handed(v[|p| + 1..], trim)
      && Rest(r + v) == Rest(v[|p| + 1..])
  {
    hide Handed, Rest, UpToNewline;
    var p := UpToNewline(v);
    assert (r + v)[..|r| + |p|] == r + p && (r + v)[|r| + |p| + 1..] == v[|p| + 1..];
    FirstLine(r + v, |r| + |p|, trim);
  }

  lemma TotalOfLine(line: string, more: seq<string>)
    ensures Total((if line == "" then [] else [line]) + more) == |line| + Total(more)
  {
    assert ([line] + more)[1..] == more && [] + more == more;
  }

  // ----- Chunks of bytes -----

  /** The text with the chunks before `j` converted together and the others one by one. */
  ghost function Half(chunks: seq<seq<Byte>>, j: nat): string
    requires j <= |chunks|
  {
    Convert(Concat(chunks[..j])) + Concat(ConvertEach(chunks[j..]))
  }

  /** Whether the mark that is dropped from chunk `k` is missed by a reader of the lines. */
  ghost predicate Missed(chunks: seq<seq<Byte>>, k: nat, z: char -> bool)
    requires k < |chunks|
  {
    MarkDropped(chunks, k) && Shows(Convert(Concat(chunks[..k])), Concat(ConvertEach(chunks[k..])), z)
  }

  ghost predicate NothingMissed(chunks: seq<seq<Byte>>, n: nat, z: char -> bool)
    requires n <= |chunks|
  {
    forall k | 0 <= k < n :: !Missed(chunks, k, z)
  }

  lemma {:induction false} ConcatFront<T>(x: seq<T>, s: seq<seq<T>>)
    ensures Concat([x] + s) == x + Concat(s)
  {
    if s == [] {
      assert [x] + s == [x] && [x][..0] == [] && Concat([x]) == [] + x;
    } else {
      var n := |s| - 1;
      ConcatFront(x, s[..n]);
      assert ([x] + s)[..n + 1] == [x] + s[..n] && ([x] + s)[n + 1] == s[n];
      assert (x + Concat(s[..n])) + s[n] == x + (Concat(s[..n]) + s[n]);
    }
  }

  lemma {:induction false} PrefixIsWellFormed(chunks: seq<seq<Byte>>, j: nat)
    requires WellFormed(Concat(chunks)) && NoCutInside(chunks) && j <= |chunks|
    ensures WellFormed(Concat(chunks[..j]))
  {
    hide WellFormed, CutInside;
    if j < |chunks| {
      var n := |chunks| - 1;
      CutBetween(Concat(chunks[..n]), chunks[n]);
      PrefixIsWellFormed(chunks[..n], j);
      assert chunks[..n][..j] == chunks[..j];
    } else {
      assert chunks[..j] == chunks;
    }
  }

  lemma PrefixGrows(chunks: seq<seq<Byte>>, j: nat)
    requires j < |chunks|
    ensures Concat(chunks[..j + 1]) == Concat(chunks[..j]) + chunks[j]
  {
    assert chunks[..j + 1][..j] == chunks[..j];
  }

  lemma SuffixShrinks(chunks: seq<seq<Byte>>, j: nat)
    requires j < |chunks|
    ensures Concat(ConvertEach(chunks[j..])) == Convert(chunks[j]) + Concat(ConvertEach(chunks[j + 1..]))
  {
    hide Convert, Concat;
    assert ConvertEach(chunks[j..]) == [Convert(chunks[j])] + ConvertEach(chunks[j + 1..]);
    ConcatFront(Convert(chunks[j]), ConvertEach(chunks[j + 1..]));
  }

  lemma HalfStep(chunks: seq<seq<Byte>>, j: nat)
    requires WellFormed(Concat(chunks)) && NoCutInside(chunks) && j < |chunks|
    ensures var u, v := Convert(Concat(chunks[..j])), Concat(ConvertEach(chunks[j..]));
      Half(chunks, j) == u + v
      && Half(chunks, j + 1) == if MarkDropped(chunks, j) then u + ([MARK_CHAR] + v) else u + v
  {
    NothingConverts();
    PrefixIsWellFormed(chunks, j + 1);
    hide WellFormed, Convert, Marked, CutInside, Concat, ConvertEach;
    PrefixGrows(chunks, j);
    SuffixShrinks(chunks, j);
    var a, c, rest := Concat(chunks[..j]), chunks[j], Concat(ConvertEach(chunks[j + 1..]));
    ConvertLast(a, c);
    Regroup(Convert(a), [MARK_CHAR], Convert(c), rest);
  }

  lemma Regroup(u: string, m: string, x: string, rest: string)
    ensures (u + (m + x)) + rest == u + (m + (x + rest)) && (u + x) + rest == u + (x + rest) && [] + (x + rest) == x + rest
  {
  }

  /** Converting more of the chunks together adds the dropped marks back, one at a time. */
  lemma {:induction false} HalvesGrow(chunks: seq<seq<Byte>>, j: nat, trim: string -> string, z: char -> bool)
    requires WellFormed(Concat(chunks)) && NoCutInside(chunks) && j <= |chunks| && Strips(trim, z)
    ensures NothingMissed(chunks, j, z) ==> SameLines(Half(chunks, j), Half(chunks, 0), trim)
    ensures Measure(Half(chunks, j), trim) >= Measure(Half(chunks, 0), trim) + (if NothingMissed(chunks, j, z) then 0 else 1)
  {
    hide WellFormed, NoCutInside, Convert, Strips, Shows, Handed, Rest, Total, Half, MarkDropped;
    if j > 0 {
      HalvesGrow(chunks, j - 1, trim, z);
      HalfStep(chunks, j - 1);
      assert NothingMissed(chunks, j, z) <==> NothingMissed(chunks, j - 1, z) && !Missed(chunks, j - 1, z);
      MarkShows(Convert(Concat(chunks[..j - 1])), Concat(ConvertEach(chunks[j - 1..])), trim, z);
    }
  }

  lemma HalvesAre(chunks: seq<seq<Byte>>)
    ensures Half(chunks, 0) == Concat(ConvertEach(chunks)) && Half(chunks, |chunks|) == Convert(Concat(chunks))
  {
    hide Convert;
    NothingConverts();
    assert chunks[..0] == [] && chunks[0..] == chunks && chunks[..|chunks|] == chunks && chunks[|chunks|..] == [];
    assert ConvertEach([]) == [];
  }

  /**
   * Bytes are converted chunk by chunk. What that shows of the cuts, exactly: the lines handed on and
   * the remainder are those of the whole if and only if no chunk begins inside a character, and every
   * byte order mark dropped at the beginning of a chunk would have been stripped from its line anyway.
   */
  lemma ChunksShowIff(chunks: seq<seq<Byte>>, trim: string -> string, z: char -> bool)
    requires WellFormed(Concat(chunks)) && Strips(trim, z)
    ensures var text := Convert(Concat(chunks));
      Fed(ConvertEach(chunks), trim) == (Handed(text, trim), Rest(text)) <==>
        NoCutInside(chunks) && NothingMissed(chunks, |chunks|, z)
  {
    hide WellFormed, NoCutInside, NothingMissed, Convert, ConvertEach, Strips, Handed, Rest, Total, Half, Fed;
    hide Replacements, ReplacementsIn;
    var whole, cut := Convert(Concat(chunks)), Concat(ConvertEach(chunks));
    ChunkingIsInvisible(ConvertEach(chunks), trim);
    if NoCutInside(chunks) {
      HalvesAre(chunks);
      HalvesGrow(chunks, |chunks|, trim, z);
    } else {
      ConvertingByChunks(chunks);
      HandedKeepsReplacements(whole, trim, z);
      HandedKeepsReplacements(cut, trim, z);
    }
  }

  /** Whatever the trim, cuts that neither split a character nor precede a mark never show. */
  lemma HarmlessCuts(chunks: seq<seq<Byte>>, trim: string -> string)
    requires WellFormed(Concat(chunks)) && NoCutInside(chunks) && NoMarkDropped(chunks)
    ensures Fed(ConvertEach(chunks), trim) == (Handed(Convert(Concat(chunks)), trim), Rest(Convert(Concat(chunks))))
  {
    hide WellFormed, NoCutInside, NoMarkDropped, Convert, ConvertEach, Handed, Rest, Fed;
    ConvertingByChunks(chunks);
    ChunkingIsInvisible(ConvertEach(chunks), trim);
  }

  /** An instance: the two bytes of U+00E9 arrive in different chunks, and two replacements come out. */
  lemma SplitCharacterIsLost()
    ensures WellFormed([0xC3, 0xA9, 0x0A]) && Convert([0xC3, 0xA9, 0x0A]) == "\U{00E9}\n"
    ensures Convert([0xC3]) + Convert([0xA9, 0x0A]) == "\U{FFFD}\U{FFFD}\n"
    ensures !NoCutInside([[0xC3], [0xA9, 0x0A]])
  {
    assert [0xC3, 0xA9, 0x0A][2..] == [0x0A] && [0xA9, 0x0A][1..] == [0x0A] && [0x0A][1..] == [] && [0xC3][1..] == [];
    assert [0xC3, 0xA9, 0x0A][..3][0] != MARK[0];
    assert Decode([0x0A]) == ['\n'];
    assert Decode([0xC3, 0xA9, 0x0A]) == ['\U{00E9}'] + Decode([0x0A]);
    assert Decode([0xA9, 0x0A]) == ['\U{FFFD}'] + Decode([0x0A]);
    assert CutInside([[0xC3], [0xA9, 0x0A]][1]);
  }

  lemma MarkBegins(a: seq<Byte>, c: seq<Byte>)
    requires a != [] && Marked(c) && !CutInside(a)
    ensures NoCutInside([a, c]) && !NoMarkDropped([a, c])
  {
    MarkDecodes(c);
    assert [a, c][..1] == [a] && [a][..0] == [] && Concat([a]) == [] + a;
    assert MarkDropped([a, c], 1);
  }

  /** Another: a mark in the middle of a text begins a chunk and is gone, though no character is split. */
  lemma MarkIsLost()
    ensures WellFormed([0x61, 0xEF, 0xBB, 0xBF, 0x0A]) && Convert([0x61, 0xEF, 0xBB, 0xBF, 0x0A]) == "a\U{FEFF}\n"
    ensures Convert([0x61]) + Convert([0xEF, 0xBB, 0xBF, 0x0A]) == "a\n"
    ensures NoCutInside([[0x61], [0xEF, 0xBB, 0xBF, 0x0A]]) && !NoMarkDropped([[0x61], [0xEF, 0xBB, 0xBF, 0x0A]])
  {
    var marked: seq<Byte> := [0xEF, 0xBB, 0xBF, 0x0A];
    var whole: seq<Byte> := [0x61, 0xEF, 0xBB, 0xBF, 0x0A];
    assert marked[3..] == [0x0A] && [0x0A][1..] == [] && [0x61][1..] == [] && whole[1..] == marked;
    assert Decode([0x0A]) == ['\n'];
    MarkDecodes(marked);
    assert Run(whole) == 1 && Decode(whole) == ['a'] + Decode(marked);
    assert whole[..3][0] != MARK[0];
    MarkBegins([0x61], marked);
  }
}
