/**
 * UTF-8 decoding with replacement (sections 3 and 4 of RFC 3629), and what becomes of a text whose
 * bytes arrive in chunks that are decoded one by one (apps/desktop/lib/ipc/engine_client.dart).
 */
module Utf8 {
  import opened Text

  type Byte = x: int | 0 <= x < 256

  const REPLACEMENT := '\U{FFFD}'

  // ----- Decoding -----

  /** A continuation byte, 10xxxxxx. */
  predicate IsTail(x: Byte) {
    0x80 <= x <= 0xBF
  }

  /** The length of the sequences this byte may begin; none for a byte that begins no sequence. */
  function Need(x: Byte): nat {
    if x <= 0x7F then 1
    else if 0xC2 <= x <= 0xDF then 2
    else if 0xE0 <= x <= 0xEF then 3
    else if 0xF0 <= x <= 0xF4 then 4
    else 0
  }

  /** Which second bytes exclude overlong forms, surrogates, and values above U+10FFFF. */
  predicate Second(x: Byte, y: Byte) {
    if x == 0xE0 then 0xA0 <= y <= 0xBF
    else if x == 0xED then 0x80 <= y <= 0x9F
    else if x == 0xF0 then 0x90 <= y <= 0xBF
    else if x == 0xF4 then 0x80 <= y <= 0x8F
    else IsTail(y)
  }

  /** How many bytes at the front are one sequence, or as much of one as there is. */
  function Run(b: seq<Byte>): (n: nat)
    requires b != []
    ensures 1 <= n <= |b| && forall i | 1 <= i < n :: IsTail(b[i])
  {
    if Need(b[0]) <= 1 || |b| < 2 || !Second(b[0], b[1]) then 1
    else if Need(b[0]) == 2 || |b| < 3 || !IsTail(b[2]) then 2
    else if Need(b[0]) == 3 || |b| < 4 || !IsTail(b[3]) then 3
    else 4
  }

  predicate Complete(b: seq<Byte>)
    requires b != []
  {
    Run(b) == Need(b[0])
  }

  /** The payload of a continuation byte. */
  function Low(x: Byte): int {
    var n: int := x;
    n - 0x80
  }

  function Scalar(b: seq<Byte>): char
    requires b != [] && Complete(b)
  {
    var x: int := b[0];
    match Need(b[0])
    case 1 => x as char
    case 2 => ((x - 0xC0) * 0x40 + Low(b[1])) as char
    case 3 => ((x - 0xE0) * 0x1000 + Low(b[1]) * 0x40 + Low(b[2])) as char
    case _ => ((x - 0xF0) * 0x40000 + Low(b[1]) * 0x1000 + Low(b[2]) * 0x40 + Low(b[3])) as char
  }

  function First(b: seq<Byte>): char
    requires b != []
  {
    if Complete(b) then Scalar(b) else REPLACEMENT
  }

  /** The characters the bytes stand for. */
  function Decode(b: seq<Byte>): string {
    if b == [] then "" else [First(b)] + Decode(b[Run(b)..])
  }

  predicate WellFormed(b: seq<Byte>) {
    b == [] || (Complete(b) && WellFormed(b[Run(b)..]))
  }

  function DecodeEach(chunks: seq<seq<Byte>>): (r: seq<string>)
    ensures |r| == |chunks|
  {
    seq(|chunks|, i requires 0 <= i < |chunks| => Decode(chunks[i]))
  }

  /** Whether a chunk begins in the middle of a character. */
  predicate CutInside(chunk: seq<Byte>) {
    chunk != [] && IsTail(chunk[0])
  }

  ghost predicate NoCutInside(chunks: seq<seq<Byte>>) {
    forall k | 0 <= k < |chunks| :: !CutInside(chunks[k])
  }

  // ----- Encoding -----

  /** A continuation byte that carries the last six bits. */
  function Tail(n: nat): Byte {
    0x80 + n % 0x40
  }

  function EncodeChar(c: char): (b: seq<Byte>)
    ensures |b| == Utf8Size(c)
  {
    var n := c as int;
    if n < 0x80 then [n]
    else if n < 0x800 then [0xC0 + n / 0x40, Tail(n)]
    else if n < 0x10000 then [0xE0 + n / 0x1000, Tail(n / 0x40), Tail(n)]
    else [0xF0 + n / 0x40000, Tail(n / 0x1000), Tail(n / 0x40), Tail(n)]
  }

  function Encode(s: string): (b: seq<Byte>)
    ensures |b| == Size(s)
  {
    if s == [] then [] else EncodeChar(s[0]) + Encode(s[1..])
  }

  lemma CharRoundTrip(c: char)
    ensures Complete(EncodeChar(c)) && Run(EncodeChar(c)) == |EncodeChar(c)| && Scalar(EncodeChar(c)) == c
  {
    var n := c as int;
    if n < 0x800 {
    } else if n < 0x10000 {
      ThreeBytes(n);
    } else {
      FourBytes(n);
    }
  }

  lemma ThreeBytes(n: nat)
    requires 0x800 <= n < 0xD800 || 0xE000 <= n < 0x10000
    ensures 0xE0 <= 0xE0 + n / 0x1000 <= 0xEF && Second(0xE0 + n / 0x1000, Tail(n / 0x40)) && IsTail(Tail(n))
    ensures n / 0x1000 * 0x1000 + Low(Tail(n / 0x40)) * 0x40 + Low(Tail(n)) == n
  {
  }

  lemma FourBytes(n: nat)
    requires 0x10000 <= n < 0x110000
    ensures 0xF0 <= 0xF0 + n / 0x40000 <= 0xF4 && Second(0xF0 + n / 0x40000, Tail(n / 0x1000))
    ensures IsTail(Tail(n / 0x40)) && IsTail(Tail(n))
    ensures n / 0x40000 * 0x40000 + Low(Tail(n / 0x1000)) * 0x1000 + Low(Tail(n / 0x40)) * 0x40 + Low(Tail(n)) == n
  {
  }

  /** Every text is what its encoding decodes to, so the well-formed byte strings are those that some text is encoded as. */
  lemma {:induction false} DecodeAfterEncode(s: string)
    ensures WellFormed(Encode(s)) && Decode(Encode(s)) == s
  {
    hide Complete, Run, Scalar, EncodeChar;
    if s != [] {
      DecodeAfterEncode(s[1..]);
      CharRoundTrip(s[0]);
      var b, rest := EncodeChar(s[0]), Encode(s[1..]);
      CompleteStays(b, rest);
      assert (b + rest)[|b|..] == rest;
    }
  }

  // ----- Cuts between characters -----

  /** More bytes behind a complete sequence do not change it. */
  lemma CompleteStays(a: seq<Byte>, c: seq<Byte>)
    requires a != [] && Complete(a)
    ensures Complete(a + c) && Run(a + c) == Run(a) && Scalar(a + c) == Scalar(a)
  {
  }

  /** Well-formed bytes cut between two characters are two well-formed halves, whose texts add up. */
  lemma {:induction false} CutBetween(a: seq<Byte>, c: seq<Byte>)
    requires WellFormed(a + c) && !CutInside(c)
    ensures WellFormed(a) && WellFormed(c) && Decode(a + c) == Decode(a) + Decode(c)
  {
    hide Complete, Run, Scalar;
    if a == [] {
      assert a + c == c;
    } else {
      RunStopsAtCut(a, c);
      var n := Run(a);
      assert (a + c)[n..] == a[n..] + c;
      CutBetween(a[n..], c);
    }
  }

  lemma RunStopsAtCut(a: seq<Byte>, c: seq<Byte>)
    requires a != [] && Complete(a + c) && !CutInside(c)
    ensures Complete(a) && Run(a) == Run(a + c) && Scalar(a) == Scalar(a + c)
  {
    assert c != [] ==> (a + c)[|a|] == c[0];
  }

  // ----- Counting characters -----

  /** The bytes that are not continuation bytes. */
  function Leads(b: seq<Byte>): nat {
    if b == [] then 0 else (if IsTail(b[0]) then 0 else 1) + Leads(b[1..])
  }

  lemma {:induction false} LeadsOfConcat(a: seq<Byte>, c: seq<Byte>)
    ensures Leads(a + c) == Leads(a) + Leads(c)
  {
    if a == [] {
      assert a + c == c;
    } else {
      LeadsOfConcat(a[1..], c);
      assert (a + c)[1..] == a[1..] + c;
    }
  }

  lemma {:induction false} TailsDoNotLead(b: seq<Byte>, n: nat)
    requires n <= |b| && forall i | 0 <= i < n :: IsTail(b[i])
    ensures Leads(b) == Leads(b[n..])
  {
    if n > 0 {
      TailsDoNotLead(b[1..], n - 1);
      assert b[1..][n - 1..] == b[n..];
    } else {
      assert b[0..] == b;
    }
  }

  lemma RunLeads(b: seq<Byte>)
    requires b != []
    ensures Leads(b) == (if IsTail(b[0]) then 0 else 1) + Leads(b[Run(b)..])
    ensures Complete(b) ==> !IsTail(b[0])
  {
    CompleteLeads(b);
    hide Run, Complete, IsTail;
    var n := Run(b);
    assert forall i | 0 <= i < n - 1 :: IsTail(b[1..][i]);
    TailsDoNotLead(b[1..], n - 1);
    assert b[1..][n - 1..] == b[n..];
  }

  lemma CompleteLeads(b: seq<Byte>)
    requires b != []
    ensures Complete(b) ==> !IsTail(b[0])
  {
  }

  /** Every run holds at most one leading byte, so no character is dropped, and a cut one costs extra. */
  lemma {:induction false} DecodesToLeads(b: seq<Byte>)
    ensures |Decode(b)| >= Leads(b) + (if CutInside(b) then 1 else 0)
    ensures WellFormed(b) ==> |Decode(b)| == Leads(b)
  {
    if b == [] {
      NothingCounts();
    } else {
      hide Run, Complete, First, Leads, IsTail;
      RunLeads(b);
      DecodesToLeads(b[Run(b)..]);
    }
  }

  /** The characters that are not replacements. */
  function Kept(s: string): nat {
    if s == [] then 0 else (if s[0] == REPLACEMENT then 0 else 1) + Kept(s[1..])
  }

  function Replacements(s: string): nat {
    if s == [] then 0 else (if s[0] == REPLACEMENT then 1 else 0) + Replacements(s[1..])
  }

  lemma {:induction false} KeptOrReplaced(s: string)
    ensures Kept(s) + Replacements(s) == |s|
  {
    if s != [] { KeptOrReplaced(s[1..]); }
  }

  lemma {:induction false} CountsOfConcat(s: string, t: string)
    ensures Kept(s + t) == Kept(s) + Kept(t) && Replacements(s + t) == Replacements(s) + Replacements(t)
  {
    if s == [] {
      assert s + t == t;
    } else {
      CountsOfConcat(s[1..], t);
      assert (s + t)[1..] == s[1..] + t;
    }
  }

  predicate StartsHere(b: seq<Byte>)
    requires b != []
  {
    Complete(b) && Scalar(b) != REPLACEMENT
  }

  /** The places where a complete character other than the replacement begins. */
  function Starts(b: seq<Byte>): nat {
    if b == [] then 0 else (if StartsHere(b) then 1 else 0) + Starts(b[1..])
  }

  lemma {:induction false} TailsDoNotStart(b: seq<Byte>, n: nat)
    requires n <= |b| && forall i | 0 <= i < n :: IsTail(b[i])
    ensures Starts(b) == Starts(b[n..])
  {
    hide Scalar;
    if n > 0 {
      TailsDoNotStart(b[1..], n - 1);
      assert b[1..][n - 1..] == b[n..];
    } else {
      assert b[0..] == b;
    }
  }

  lemma {:induction false} KeptAreStarts(b: seq<Byte>)
    ensures Kept(Decode(b)) == Starts(b)
  {
    hide Scalar, Complete;
    if b != [] {
      var n := Run(b);
      KeptAreStarts(b[n..]);
      TailsDoNotStart(b[1..], n - 1);
      assert b[1..][n - 1..] == b[n..];
      assert ([First(b)] + Decode(b[n..]))[1..] == Decode(b[n..]);
    }
  }

  lemma {:induction false} StartsGrow(a: seq<Byte>, c: seq<Byte>)
    ensures Starts(a) + Starts(c) <= Starts(a + c)
  {
    hide Scalar, Complete;
    if a == [] {
      assert a + c == c;
    } else {
      StartsGrow(a[1..], c);
      assert (a + c)[1..] == a[1..] + c;
      if Complete(a) { CompleteStays(a, c); }
    }
  }

  // ----- Chunks -----

  /** Decoded chunk by chunk, no character is gained but replacements, one more for a cut inside. */
  lemma {:induction false} CutsCost(chunks: seq<seq<Byte>>)
    ensures |Concat(DecodeEach(chunks))| >= Leads(Concat(chunks)) + (if NoCutInside(chunks) then 0 else 1)
    ensures Kept(Concat(DecodeEach(chunks))) <= Starts(Concat(chunks))
  {
    hide Decode, Leads, Starts, Kept, CutInside;
    if chunks == [] {
      NothingCounts();
    } else {
      var n := |chunks| - 1;
      var before, last := chunks[..n], chunks[n];
      CutsCost(before);
      assert DecodeEach(chunks)[..n] == DecodeEach(before);
      DecodesToLeads(last);
      LeadsOfConcat(Concat(before), last);
      KeptAreStarts(last);
      StartsGrow(Concat(before), last);
      CountsOfConcat(Concat(DecodeEach(before)), Decode(last));
      assert NoCutInside(before) && !CutInside(last) ==> NoCutInside(chunks);
    }
  }

  lemma NothingCounts()
    ensures Leads([]) == 0 && Starts([]) == 0 && Kept("") == 0
  {
  }

  lemma {:induction false} CutsBetween(chunks: seq<seq<Byte>>)
    requires WellFormed(Concat(chunks)) && NoCutInside(chunks)
    ensures Concat(DecodeEach(chunks)) == Decode(Concat(chunks))
  {
    hide Decode, WellFormed, CutInside;
    if chunks == [] {
      NothingDecodes();
    } else {
      var n := |chunks| - 1;
      CutBetween(Concat(chunks[..n]), chunks[n]);
      CutsBetween(chunks[..n]);
      assert DecodeEach(chunks)[..n] == DecodeEach(chunks[..n]);
    }
  }

  lemma NothingDecodes()
    ensures Decode([]) == ""
  {
  }

  /**
   * Decoding chunk by chunk gives the whole text exactly when no chunk begins with a continuation
   * byte. Otherwise more replacement characters arrive than the text has.
   */
  lemma DecodingByChunks(chunks: seq<seq<Byte>>)
    requires WellFormed(Concat(chunks))
    ensures Concat(DecodeEach(chunks)) == Decode(Concat(chunks)) <==> NoCutInside(chunks)
    ensures !NoCutInside(chunks) ==> Replacements(Concat(DecodeEach(chunks))) > Replacements(Decode(Concat(chunks)))
  {
    hide Decode, WellFormed, DecodeEach, Leads, Starts, Kept, Replacements, NoCutInside;
    var whole, cut := Decode(Concat(chunks)), Concat(DecodeEach(chunks));
    if NoCutInside(chunks) {
      CutsBetween(chunks);
    } else {
      CutsCost(chunks);
      DecodesToLeads(Concat(chunks));
      KeptAreStarts(Concat(chunks));
      KeptOrReplaced(whole);
      KeptOrReplaced(cut);
    }
  }

  // ----- Byte order marks -----

  const MARK: seq<Byte> := [0xEF, 0xBB, 0xBF]

  const MARK_CHAR := '\U{FEFF}'

  /** The bytes begin with the encoding of U+FEFF. */
  predicate Marked(b: seq<Byte>) {
    |b| >= 3 && b[..3] == MARK
  }

  /** `utf8.decode(b, allowMalformed: true)`: a mark at the very beginning is discarded. */
  function Convert(b: seq<Byte>): string {
    if Marked(b) then Decode(b[3..]) else Decode(b)
  }

  function ConvertEach(chunks: seq<seq<Byte>>): (r: seq<string>)
    ensures |r| == |chunks|
  {
    seq(|chunks|, i requires 0 <= i < |chunks| => Convert(chunks[i]))
  }

  /** A mark at the beginning of a chunk that is not the beginning of the whole. */
  ghost predicate MarkDropped(chunks: seq<seq<Byte>>, k: nat)
    requires k < |chunks|
  {
    Marked(chunks[k]) && Concat(chunks[..k]) != []
  }

  ghost predicate NoMarkDropped(chunks: seq<seq<Byte>>) {
    forall k | 0 <= k < |chunks| :: !MarkDropped(chunks, k)
  }

  lemma MarkDecodes(b: seq<Byte>)
    requires Marked(b)
    ensures Decode(b) == [MARK_CHAR] + Decode(b[3..]) && !CutInside(b)
    ensures WellFormed(b) ==> WellFormed(b[3..])
  {
    assert b[0] == b[..3][0] && b[1] == b[..3][1] && b[2] == b[..3][2];
    assert Run(b) == 3;
  }

  /** A text loses its first character if that is a mark. */
  lemma ConvertAfterEncode(s: string)
    ensures Convert(Encode(s)) == if s != [] && s[0] == MARK_CHAR then s[1..] else s
  {
    hide Decode, Encode;
    DecodeAfterEncode(s);
    if Marked(Encode(s)) {
      MarkDecodes(Encode(s));
    } else if s != [] {
      EncodesFirst(s);
    }
  }

  lemma EncodesFirst(s: string)
    requires s != []
    ensures s[0] == MARK_CHAR ==> Marked(Encode(s))
  {
    if s[0] == MARK_CHAR {
      assert EncodeChar(MARK_CHAR) == MARK;
      assert Encode(s)[..3] == EncodeChar(s[0]);
    }
  }

  /** Behind other bytes, a mark is a character like any other. */
  lemma ConvertOfConcat(a: seq<Byte>, c: seq<Byte>)
    requires WellFormed(a + c) && !CutInside(c) && a != []
    ensures Convert(a + c) == Convert(a) + Decode(c)
  {
    hide Decode, WellFormed;
    CutBetween(a, c);
    MarkStays(a, c);
    if Marked(a) {
      MarkDecodes(a + c);
      assert (a + c)[3..] == a[3..] + c;
      CutBetween(a[3..], c);
    }
  }

  lemma MarkStays(a: seq<Byte>, c: seq<Byte>)
    requires a != [] && !CutInside(c)
    ensures Marked(a + c) <==> Marked(a)
  {
    if |a| >= 3 {
      assert (a + c)[..3] == a[..3];
    } else if |a + c| >= 3 {
      assert (a + c)[..3][|a|] == (a + c)[|a|] == c[0] && IsTail(MARK[|a|]);
    }
  }

  lemma {:induction false} MarksCost(chunks: seq<seq<Byte>>)
    requires WellFormed(Concat(chunks)) && NoCutInside(chunks)
    ensures NoMarkDropped(chunks) ==> Concat(ConvertEach(chunks)) == Convert(Concat(chunks))
    ensures |Concat(ConvertEach(chunks))| + (if NoMarkDropped(chunks) then 0 else 1) <= |Convert(Concat(chunks))|
  {
    hide Decode, WellFormed, CutInside, Convert, Marked;
    if chunks == [] {
      NothingConverts();
    } else {
      var n := |chunks| - 1;
      var before, last := chunks[..n], chunks[n];
      CutBetween(Concat(before), last);
      MarksCost(before);
      assert ConvertEach(chunks)[..n] == ConvertEach(before);
      MarksBefore(chunks);
      ConvertLast(Concat(before), last);
      if Concat(before) == [] { NothingConverts(); assert Concat(before) + last == last; }
    }
  }

  lemma MarksBefore(chunks: seq<seq<Byte>>)
    requires chunks != []
    ensures NoMarkDropped(chunks) <==> NoMarkDropped(chunks[..|chunks| - 1]) && !MarkDropped(chunks, |chunks| - 1)
  {
    hide Marked;
    var n := |chunks| - 1;
    forall k | 0 <= k < n ensures MarkDropped(chunks, k) <==> MarkDropped(chunks[..n], k) {
      assert chunks[..n][..k] == chunks[..k];
    }
  }

  /** What one more chunk adds to the whole, and what to the chunks' own texts. */
  lemma ConvertLast(a: seq<Byte>, c: seq<Byte>)
    requires WellFormed(a + c) && !CutInside(c)
    ensures a == [] ==> a + c == c
    ensures a != [] && Marked(c) ==> Convert(a + c) == Convert(a) + ([MARK_CHAR] + Convert(c))
    ensures a != [] && !Marked(c) ==> Convert(a + c) == Convert(a) + Convert(c)
  {
    hide Decode, WellFormed;
    if a != [] {
      ConvertOfConcat(a, c);
      if Marked(c) { MarkDecodes(c); }
    }
  }

  lemma NothingConverts()
    ensures Convert([]) == ""
  {
  }

  lemma {:induction false} MarksAreNoReplacements(chunks: seq<seq<Byte>>)
    ensures Replacements(Concat(ConvertEach(chunks))) == Replacements(Concat(DecodeEach(chunks)))
  {
    hide Decode, Convert, Replacements;
    if chunks != [] {
      var n := |chunks| - 1;
      MarksAreNoReplacements(chunks[..n]);
      assert ConvertEach(chunks)[..n] == ConvertEach(chunks[..n]) && DecodeEach(chunks)[..n] == DecodeEach(chunks[..n]);
      MarkIsNoReplacement(chunks[n]);
      CountsOfConcat(Concat(ConvertEach(chunks[..n])), Convert(chunks[n]));
      CountsOfConcat(Concat(DecodeEach(chunks[..n])), Decode(chunks[n]));
    }
  }

  lemma MarkIsNoReplacement(b: seq<Byte>)
    ensures Replacements(Convert(b)) == Replacements(Decode(b))
  {
    hide Decode;
    if Marked(b) {
      MarkDecodes(b);
      assert ([MARK_CHAR] + Decode(b[3..]))[1..] == Decode(b[3..]);
    }
  }

  /**
   * Converting chunk by chunk gives the text of the whole exactly when no chunk begins with a
   * continuation byte and none but the first bytes of all with a mark. A cut inside a character adds
   * replacement characters.
   */
  lemma ConvertingByChunks(chunks: seq<seq<Byte>>)
    requires WellFormed(Concat(chunks))
    ensures Concat(ConvertEach(chunks)) == Convert(Concat(chunks)) <==> NoCutInside(chunks) && NoMarkDropped(chunks)
    ensures !NoCutInside(chunks) ==> Replacements(Concat(ConvertEach(chunks))) > Replacements(Convert(Concat(chunks)))
  {
    hide Decode, Convert, WellFormed, DecodeEach, ConvertEach, Replacements, NoCutInside, NoMarkDropped;
    DecodingByChunks(chunks);
    if NoCutInside(chunks) {
      MarksCost(chunks);
    } else {
      MarksAreNoReplacements(chunks);
      MarkIsNoReplacement(Concat(chunks));
    }
  }
}
