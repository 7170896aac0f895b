/** Reciprocal rank fusion of the lexical and the dense ranking (engine/src/search/index.rs). */
module Fusion {
  import opened Domain

  datatype Passage = Passage(path: string, title: string, startLine: nat, endLine: nat, body: string)

  /** The same chunk found by both methods has the same path and start line. */
  type Key = (string, nat)

  function KeyOf(p: Passage): Key {
    (p.path, p.startLine)
  }

  const RRF_K := 60.0

  /** What rank `rank` (from 0) contributes. */
  function Reciprocal(rank: nat): (r: real)
    ensures r > 0.0
  {
    1.0 / (RRF_K + rank as real + 1.0)
  }

  /** What a whole list contributes to a key. */
  function ListScore(list: seq<Passage>, k: Key): (r: real)
    ensures r >= 0.0
  {
    if list == [] then 0.0
    else
      var n := |list| - 1;
      ListScore(list[..n], k) + if KeyOf(list[n]) == k then Reciprocal(n) else 0.0
  }

  function Score(lexical: seq<Passage>, dense: seq<Passage>, k: Key): real {
    ListScore(lexical, k) + ListScore(dense, k)
  }

  /** The first passage of a list with the given key. */
  function FirstWith(list: seq<Passage>, k: Key): (p: Option<Passage>)
    ensures p.Some? ==> p.value in list && KeyOf(p.value) == k
    ensures p.None? ==> forall i | 0 <= i < |list| :: KeyOf(list[i]) != k
  {
    if list == [] then None
    else
      var n := |list| - 1;
      FirstWith(list[..n], k).Or(if KeyOf(list[n]) == k then Some(list[n]) else None)
  }

  lemma {:induction false} FirstIsEarliest(list: seq<Passage>, k: Key) returns (i: nat)
    ensures FirstWith(list, k).Some? ==> i < |list| && list[i] == FirstWith(list, k).value
    ensures FirstWith(list, k).Some? ==> forall j | 0 <= j < i :: KeyOf(list[j]) != k
  {
    i := 0;
    if list != [] {
      var n := |list| - 1;
      i := FirstIsEarliest(list[..n], k);
      if FirstWith(list[..n], k).None? { i := n; }
    }
  }

  function KeysOf(list: seq<Passage>): (ks: set<Key>) {
    set i | 0 <= i < |list| :: KeyOf(list[i])
  }

  ghost predicate DistinctKeys(list: seq<Passage>) {
    forall i, j | 0 <= i < j < |list| :: KeyOf(list[i]) != KeyOf(list[j])
  }

  function ScoreIn(scores: map<Key, real>, k: Key): real {
    if k in scores then scores[k] else 0.0
  }

  function PassageIn(passages: map<Key, Passage>, k: Key): Option<Passage> {
    if k in passages then Some(passages[k]) else None
  }

  // ----- The two accumulating maps -----

  /** One ranked list enters the two maps: scores add up, the first passage of a key stays. */
  method Absorb(list: seq<Passage>, scores0: map<Key, real>, passages0: map<Key, Passage>)
    returns (scores: map<Key, real>, passages: map<Key, Passage>)
    ensures scores.Keys == scores0.Keys + KeysOf(list)
    ensures forall k :: ScoreIn(scores, k) == ScoreIn(scores0, k) + ListScore(list, k)
    ensures forall k :: PassageIn(passages, k) == PassageIn(passages0, k).Or(FirstWith(list, k))
  {
    hide KeysOf, ListScore, FirstWith, Reciprocal;
    NothingAbsorbed();
    scores, passages := scores0, passages0;
    for rank := 0 to |list|
      invariant scores.Keys == scores0.Keys + KeysOf(list[..rank])
      invariant forall k :: ScoreIn(scores, k) == ScoreIn(scores0, k) + ListScore(list[..rank], k)
      invariant forall k :: PassageIn(passages, k) == PassageIn(passages0, k).Or(FirstWith(list[..rank], k))
    {
      var passage := list[rank];
      var key := KeyOf(passage);
      ghost var before := list[..rank];
      assert list[..rank + 1] == before + [passage] && (before + [passage])[..rank] == before;
      KeysGrow(before, passage);
      AbsorbOne(before, passage);
      scores := scores[key := ScoreIn(scores, key) + Reciprocal(rank)];
      if key !in passages {
        passages := passages[key := passage];
      }
    }
    assert list[..|list|] == list;
  }

  lemma NothingAbsorbed()
    ensures KeysOf([]) == {} && forall k :: ListScore([], k) == 0.0 && FirstWith([], k) == None
  {
  }

  lemma AbsorbOne(list: seq<Passage>, p: Passage)
    ensures forall k :: ListScore(list + [p], k) == ListScore(list, k) + (if KeyOf(p) == k then Reciprocal(|list|) else 0.0)
    ensures forall k :: FirstWith(list + [p], k) == FirstWith(list, k).Or(if KeyOf(p) == k then Some(p) else None)
  {
  }

  lemma KeysGrow(list: seq<Passage>, p: Passage)
    ensures KeysOf(list + [p]) == KeysOf(list) + {KeyOf(p)}
  {
    var more := list + [p];
    forall k | k in KeysOf(list) + {KeyOf(p)} ensures k in KeysOf(more) {
      if k in KeysOf(list) {
        var i :| 0 <= i < |list| && KeyOf(list[i]) == k;
        assert more[i] == list[i];
      } else {
        assert more[|list|] == p;
      }
    }
  }

  // ----- Ranking -----

  ghost predicate Descending(scores: map<Key, real>, ks: seq<Key>) {
    && (forall k | k in ks :: k in scores)
    && forall i, j | 0 <= i < j < |ks| :: scores[ks[i]] >= scores[ks[j]]
  }

  /** Inserting after every key of at least its score: one step of a stable descending sort. */
  function Insert(scores: map<Key, real>, k: Key, ks: seq<Key>): (r: seq<Key>)
    requires k in scores && Descending(scores, ks)
    ensures multiset(r) == multiset(ks) + multiset{k}
    ensures Descending(scores, r)
  {
    if ks == [] then [k]
    else
      var n := |ks| - 1;
      if scores[ks[n]] >= scores[k] then ks + [k]
      else
        LastStaysLast(scores, k, ks, Insert(scores, k, ks[..n]));
        Insert(scores, k, ks[..n]) + [ks[n]]
  }

  lemma LastStaysLast(scores: map<Key, real>, k: Key, ks: seq<Key>, r: seq<Key>)
    requires ks != [] && k in scores && Descending(scores, ks) && Descending(scores, r)
    requires scores[ks[|ks| - 1]] < scores[k]
    requires multiset(r) == multiset(ks[..|ks| - 1]) + multiset{k}
    ensures Descending(scores, r + [ks[|ks| - 1]])
    ensures multiset(r + [ks[|ks| - 1]]) == multiset(ks) + multiset{k}
  {
    var n := |ks| - 1;
    assert ks == ks[..n] + [ks[n]];
    forall i | 0 <= i < |r| ensures scores[r[i]] >= scores[ks[n]] {
      assert r[i] in multiset(r);
      assert r[i] in ks[..n] || r[i] == k;
    }
  }

  /** `sort_by` on descending scores; stable, so ties keep their incoming order. */
  function SortDescending(scores: map<Key, real>, ks: seq<Key>): (r: seq<Key>)
    requires forall k | k in ks :: k in scores
    ensures multiset(r) == multiset(ks)
    ensures Descending(scores, r)
  {
    if ks == [] then []
    else
      assert ks == ks[..|ks| - 1] + [ks[|ks| - 1]];
      assert forall k | k in ks[..|ks| - 1] :: k in ks;
      Insert(scores, ks[|ks| - 1], SortDescending(scores, ks[..|ks| - 1]))
  }

  ghost predicate NoRepeats(s: seq<Key>) {
    forall i, j | 0 <= i < j < |s| :: s[i] != s[j]
  }

  lemma {:induction false} CountInNoRepeats(s: seq<Key>, x: Key)
    requires NoRepeats(s)
    ensures multiset(s)[x] <= 1
  {
    if s != [] {
      var n := |s| - 1;
      assert s == s[..n] + [s[n]];
      CountInNoRepeats(s[..n], x);
      if x == s[n] { assert x !in s[..n]; }
    }
  }

  lemma PermutationKeepsNoRepeats(s: seq<Key>, r: seq<Key>)
    requires NoRepeats(s) && multiset(s) == multiset(r)
    ensures NoRepeats(r) && |r| == |s| && forall x: Key :: x in s <==> x in r
  {
    assert |r| == |multiset(r)| && |s| == |multiset(s)|;
    forall x: Key ensures x in s <==> x in r {
      assert x in s <==> x in multiset(s);
      assert x in r <==> x in multiset(r);
    }
    forall i, j | 0 <= i < j < |r| ensures r[i] != r[j] {
      CountInNoRepeats(s, r[i]);
      RepeatCountsTwice(r, i, j);
    }
  }

  lemma RepeatCountsTwice(r: seq<Key>, i: nat, j: nat)
    requires i < j < |r|
    ensures r[i] == r[j] ==> multiset(r)[r[i]] >= 2
  {
    assert r == r[..j] + [r[j]] + r[j + 1..];
    assert r[i] == r[..j][i] && r[i] in multiset(r[..j]);
    assert multiset(r) == multiset(r[..j]) + multiset{r[j]} + multiset(r[j + 1..]);
  }

  /** The keys of a hash map in whatever order it iterates. */
  method Enumerate(scores: map<Key, real>) returns (ks: seq<Key>)
    ensures NoRepeats(ks) && |ks| == |scores|
    ensures forall k :: k in ks <==> k in scores
  {
    var left := scores.Keys;
    ks := [];
    while left != {}
      invariant left <= scores.Keys
      invariant NoRepeats(ks) && |ks| + |left| == |scores|
      invariant forall k :: k in ks <==> k in scores && k !in left
      decreases left
    {
      var k :| k in left;
      ks := ks + [k];
      left := left - {k};
    }
  }

  /** What any fusion result must be; ties are the only freedom. */
  ghost predicate IsFusion(lexical: seq<Passage>, dense: seq<Passage>, limit: nat, fused: seq<Passage>) {
    var keys := KeysOf(lexical) + KeysOf(dense);
    && DistinctKeys(fused)
    && |fused| == (if limit < |keys| then limit else |keys|)
    && (forall i | 0 <= i < |fused| ::
          Some(fused[i]) == FirstWith(lexical, KeyOf(fused[i])).Or(FirstWith(dense, KeyOf(fused[i]))))
    && (forall i, j | 0 <= i < j < |fused| ::
          Score(lexical, dense, KeyOf(fused[i])) >= Score(lexical, dense, KeyOf(fused[j])))
    && (forall i, k | 0 <= i < |fused| && k in keys && k !in KeysOf(fused) ::
          Score(lexical, dense, KeyOf(fused[i])) >= Score(lexical, dense, k))
  }

  /** The maps hold every key's fused score and the passage that represents it. */
  ghost predicate Tallied(lexical: seq<Passage>, dense: seq<Passage>, scores: map<Key, real>, passages: map<Key, Passage>) {
    && scores.Keys == KeysOf(lexical) + KeysOf(dense)
    && (forall k | k in scores :: scores[k] == Score(lexical, dense, k))
    && (forall k | k in scores :: k in passages && KeyOf(passages[k]) == k)
    && (forall k | k in scores :: Some(passages[k]) == FirstWith(lexical, k).Or(FirstWith(dense, k)))
  }

  method Tally(lexical: seq<Passage>, dense: seq<Passage>) returns (scores: map<Key, real>, passages: map<Key, Passage>)
    ensures Tallied(lexical, dense, scores, passages)
  {
    hide ListScore, Reciprocal, FirstWith, KeysOf;
    ghost var scores1, passages1;
    scores, passages := Absorb(lexical, map[], map[]);
    scores1, passages1 := scores, passages;
    scores, passages := Absorb(dense, scores, passages);
    forall k | k in scores
      ensures scores[k] == Score(lexical, dense, k)
      ensures k in passages && KeyOf(passages[k]) == k
      ensures Some(passages[k]) == FirstWith(lexical, k).Or(FirstWith(dense, k))
    {
      assert ScoreIn(scores, k) == ScoreIn(scores1, k) + ListScore(dense, k);
      assert ScoreIn(scores1, k) == 0.0 + ListScore(lexical, k);
      assert PassageIn(passages, k) == PassageIn(passages1, k).Or(FirstWith(dense, k));
      assert PassageIn(passages1, k) == FirstWith(lexical, k);
      SomeFirst(lexical, dense, k);
    }
  }

  lemma SomeFirst(lexical: seq<Passage>, dense: seq<Passage>, k: Key)
    requires k in KeysOf(lexical) + KeysOf(dense)
    ensures FirstWith(lexical, k).Or(FirstWith(dense, k)).Some?
  {
    hide FirstWith;
  }

  /** The keys by descending score, ties in an order nobody promises. */
  method Rank(scores: map<Key, real>) returns (ranked: seq<Key>)
    ensures NoRepeats(ranked) && Descending(scores, ranked) && |ranked| == |scores|
    ensures forall k :: k in ranked <==> k in scores
  {
    hide Descending, NoRepeats, SortDescending;
    var keys := Enumerate(scores);
    ranked := SortDescending(scores, keys);
    PermutationKeepsNoRepeats(keys, ranked);
  }

  method FuseRrf(lexical: seq<Passage>, dense: seq<Passage>, limit: nat) returns (fused: seq<Passage>)
    ensures IsFusion(lexical, dense, limit, fused)
  {
    hide KeyOf, Score, FirstWith, Descending, NoRepeats, SortDescending, IsFusion, KeysOf;
    var scores, passages := Tally(lexical, dense);
    var ranked := Rank(scores);
    ghost var all := ranked;
    if limit < |ranked| {
      ranked := ranked[..limit];
    }
    assert forall i | 0 <= i < |ranked| :: ranked[i] == all[i] && all[i] in scores;
    fused := [];
    for i := 0 to |ranked|
      invariant |fused| == i
      invariant forall j | 0 <= j < i :: fused[j] == passages[ranked[j]]
    {
      fused := fused + [passages[ranked[i]]];
    }
    FusionHolds(lexical, dense, limit, scores, passages, all, fused);
  }

  lemma FusionHolds(lexical: seq<Passage>, dense: seq<Passage>, limit: nat, scores: map<Key, real>,
                    passages: map<Key, Passage>, all: seq<Key>, fused: seq<Passage>)
    requires Tallied(lexical, dense, scores, passages)
    requires NoRepeats(all) && Descending(scores, all) && |all| == |scores|
    requires forall k :: k in all <==> k in scores
    requires |fused| == if limit < |all| then limit else |all|
    requires forall j | 0 <= j < |fused| :: all[j] in passages && fused[j] == passages[all[j]]
    ensures IsFusion(lexical, dense, limit, fused)
  {
    hide ListScore, FirstWith, Reciprocal, Score, Descending, KeysOf, KeyOf;
    assert |scores| == |scores.Keys|;
    forall j | 0 <= j < |fused| ensures all[j] in scores && KeyOf(fused[j]) == all[j] {
      assert all[j] in all;
    }
    HeadIsBest(scores, all, fused);
    FirstCopies(lexical, dense, scores, passages, all, fused);
    assert DistinctKeys(fused);
    forall i, k | 0 <= i < |fused| && k in scores && k !in KeysOf(fused)
      ensures Score(lexical, dense, KeyOf(fused[i])) >= Score(lexical, dense, k)
    {
      assert scores[all[i]] >= scores[k];
    }
  }

  lemma FirstCopies(lexical: seq<Passage>, dense: seq<Passage>, scores: map<Key, real>, passages: map<Key, Passage>,
                    all: seq<Key>, fused: seq<Passage>)
    requires Tallied(lexical, dense, scores, passages) && |fused| <= |all|
    requires forall j | 0 <= j < |fused| :: all[j] in scores && all[j] in passages && fused[j] == passages[all[j]]
    ensures forall i | 0 <= i < |fused| ::
              Some(fused[i]) == FirstWith(lexical, KeyOf(fused[i])).Or(FirstWith(dense, KeyOf(fused[i])))
  {
    hide FirstWith, KeysOf, Score, KeyOf;
  }

  /** The passages of the first keys: in order, and none left out scores more. */
  lemma HeadIsBest(scores: map<Key, real>, all: seq<Key>, fused: seq<Passage>)
    requires Descending(scores, all) && |fused| <= |all|
    requires forall j | 0 <= j < |fused| :: KeyOf(fused[j]) == all[j]
    requires forall k :: k in all <==> k in scores
    ensures forall i, j | 0 <= i < j < |fused| :: scores[all[i]] >= scores[all[j]]
    ensures forall i, k | 0 <= i < |fused| && k in scores && k !in KeysOf(fused) :: scores[all[i]] >= scores[k]
  {
  }

  // ----- What fusion promises -----

  lemma {:induction false} AbsentScoresNothing(list: seq<Passage>, k: Key)
    requires k !in KeysOf(list)
    ensures ListScore(list, k) == 0.0
  {
    if list != [] {
      var n := |list| - 1;
      assert list == list[..n] + [list[n]];
      KeysGrow(list[..n], list[n]);
      AbsentScoresNothing(list[..n], k);
    }
  }

  lemma {:induction false} PresentScores(list: seq<Passage>, i: nat)
    requires DistinctKeys(list) && i < |list|
    ensures ListScore(list, KeyOf(list[i])) == Reciprocal(i)
  {
    var n := |list| - 1;
    if i < n {
      assert list[..n][i] == list[i];
      PresentScores(list[..n], i);
    } else {
      AbsentScoresNothing(list[..n], KeyOf(list[n]));
    }
  }

  /** What a passage scores, from its places in lists without repeated keys. */
  lemma ScoreOfPlaces(lexical: seq<Passage>, dense: seq<Passage>, i: nat, j: nat)
    requires DistinctKeys(lexical) && DistinctKeys(dense)
    ensures i < |lexical| && KeyOf(lexical[i]) !in KeysOf(dense) ==>
              Score(lexical, dense, KeyOf(lexical[i])) == 1.0 / (i + 61) as real
    ensures j < |dense| && KeyOf(dense[j]) !in KeysOf(lexical) ==>
              Score(lexical, dense, KeyOf(dense[j])) == 1.0 / (j + 61) as real
    ensures i < |lexical| && j < |dense| && KeyOf(lexical[i]) == KeyOf(dense[j]) ==>
              Score(lexical, dense, KeyOf(lexical[i])) == 1.0 / (i + 61) as real + 1.0 / (j + 61) as real
  {
    hide ListScore, Reciprocal, KeysOf;
    ReciprocalIs(i);
    ReciprocalIs(j);
    if i < |lexical| {
      PresentScores(lexical, i);
      if KeyOf(lexical[i]) !in KeysOf(dense) { AbsentScoresNothing(dense, KeyOf(lexical[i])); }
    }
    if j < |dense| {
      PresentScores(dense, j);
      if KeyOf(dense[j]) !in KeysOf(lexical) { AbsentScoresNothing(lexical, KeyOf(dense[j])); }
    }
  }

  lemma ReciprocalIs(rank: nat)
    ensures Reciprocal(rank) == 1.0 / (rank + 61) as real
  {
    assert RRF_K + rank as real + 1.0 == (rank + 61) as real;
  }

  /** Two passages are of the same chunk: same file, same first line. */
  predicate SameChunk(p: Passage, q: Passage) {
    p.path == q.path && p.startLine == q.startLine
  }

  /**
   * A fusion holds passages of the two lists, the lexical copy where there is one, no chunk twice; and it leaves a
   * chunk out only when it is full.
   */
  lemma FusionHoldsPassages(lexical: seq<Passage>, dense: seq<Passage>, limit: nat, fused: seq<Passage>)
    requires IsFusion(lexical, dense, limit, fused)
    ensures forall i | 0 <= i < |fused| ::
              || fused[i] in lexical
              || (fused[i] in dense && forall q | q in lexical :: !SameChunk(q, fused[i]))
    ensures forall i, j | 0 <= i < j < |fused| :: !SameChunk(fused[i], fused[j])
    ensures |fused| <= limit
    ensures |fused| < limit ==> forall p | p in lexical || p in dense :: exists i | 0 <= i < |fused| :: SameChunk(fused[i], p)
  {
    hide FirstWith, Score;
    forall i | 0 <= i < |fused|
      ensures fused[i] in lexical || (fused[i] in dense && forall q | q in lexical :: !SameChunk(q, fused[i]))
    {
      assert Some(fused[i]) == FirstWith(lexical, KeyOf(fused[i])).Or(FirstWith(dense, KeyOf(fused[i])));
      assert fused[i] !in lexical ==> FirstWith(lexical, KeyOf(fused[i])).None?;
    }
    if |fused| < limit {
      var keys := KeysOf(lexical) + KeysOf(dense);
      AllKeysFused(lexical, dense, fused);
      forall p | p in lexical || p in dense ensures exists i | 0 <= i < |fused| :: SameChunk(fused[i], p) {
        assert KeyOf(p) in keys;
        var i :| 0 <= i < |fused| && KeyOf(fused[i]) == KeyOf(p);
        assert SameChunk(fused[i], p);
      }
    }
  }

  lemma AllKeysFused(lexical: seq<Passage>, dense: seq<Passage>, fused: seq<Passage>)
    requires DistinctKeys(fused) && |fused| == |KeysOf(lexical) + KeysOf(dense)|
    requires forall i | 0 <= i < |fused| ::
               Some(fused[i]) == FirstWith(lexical, KeyOf(fused[i])).Or(FirstWith(dense, KeyOf(fused[i])))
    ensures KeysOf(fused) == KeysOf(lexical) + KeysOf(dense)
  {
    hide FirstWith, KeyOf;
    forall k | k in KeysOf(fused) ensures k in KeysOf(lexical) + KeysOf(dense) {
      var i :| 0 <= i < |fused| && KeyOf(fused[i]) == k;
      FirstHasKey(lexical, k);
      FirstHasKey(dense, k);
    }
    DistinctKeysCount(fused);
    hide KeysOf;
    SameSize(KeysOf(fused), KeysOf(lexical) + KeysOf(dense));
  }

  lemma FirstHasKey(list: seq<Passage>, k: Key)
    ensures FirstWith(list, k).Some? ==> k in KeysOf(list)
  {
    hide FirstWith, KeyOf;
    if FirstWith(list, k).Some? {
      var i :| 0 <= i < |list| && list[i] == FirstWith(list, k).value;
      assert KeyOf(list[i]) == k;
    }
  }

  lemma SameSize(a: set<Key>, b: set<Key>)
    requires a <= b && |a| == |b|
    ensures a == b
  {
    assert b == a + (b - a);
    assert |b| == |a| + |b - a|;
  }

  lemma {:induction false} DistinctKeysCount(list: seq<Passage>)
    requires DistinctKeys(list)
    ensures |KeysOf(list)| == |list|
  {
    if list != [] {
      var n := |list| - 1;
      DistinctKeysCount(list[..n]);
      KeysGrow(list[..n], list[n]);
      assert list == list[..n] + [list[n]];
      assert KeyOf(list[n]) !in KeysOf(list[..n]);
    } else {
      assert KeysOf(list) == {};
    }
  }

  lemma ReciprocalFalls(i: nat, j: nat)
    requires i <= j
    ensures Reciprocal(j) <= Reciprocal(i)
  {
    var a, b := 61.0 + i as real, 61.0 + j as real;
    assert 1.0 / b <= 1.0 / a by {
      assert (1.0 / b) * (a * b) == a && (1.0 / a) * (a * b) == b;
    }
  }

  /** Found by both methods within the first 61 ranks beats anything found by one method only. */
  lemma BothBeatOne(lexical: seq<Passage>, dense: seq<Passage>, both: Key, one: Key)
    requires DistinctKeys(lexical) && DistinctKeys(dense) && |lexical| <= 61 && |dense| <= 61
    requires both in KeysOf(lexical) && both in KeysOf(dense)
    requires (one in KeysOf(lexical)) != (one in KeysOf(dense))
    ensures Score(lexical, dense, both) > Score(lexical, dense, one)
  {
    hide ListScore, Reciprocal;
    var i :| 0 <= i < |lexical| && KeyOf(lexical[i]) == both;
    var j :| 0 <= j < |dense| && KeyOf(dense[j]) == both;
    PresentScores(lexical, i);
    PresentScores(dense, j);
    ReciprocalFalls(i, 60);
    ReciprocalFalls(j, 60);
    var list := if one in KeysOf(lexical) then lexical else dense;
    var m :| 0 <= m < |list| && KeyOf(list[m]) == one;
    PresentScores(list, m);
    AbsentScoresNothing(if one in KeysOf(lexical) then dense else lexical, one);
    ReciprocalFalls(0, m);
    TwoAtSixtyBeatOneAtZero();
  }

  lemma TwoAtSixtyBeatOneAtZero()
    ensures Reciprocal(60) + Reciprocal(60) > Reciprocal(0)
    ensures Reciprocal(61) + Reciprocal(61) == Reciprocal(0)
  {
  }

  /** In every fusion of lists of at most 61 entries, agreement comes first. */
  lemma AgreementRanksFirst(lexical: seq<Passage>, dense: seq<Passage>, limit: nat, fused: seq<Passage>, i: nat, j: nat)
    requires DistinctKeys(lexical) && DistinctKeys(dense) && |lexical| <= 61 && |dense| <= 61
    requires IsFusion(lexical, dense, limit, fused) && i < |fused| && j < |fused|
    requires KeyOf(fused[i]) in KeysOf(lexical) && KeyOf(fused[i]) in KeysOf(dense)
    requires (KeyOf(fused[j]) in KeysOf(lexical)) != (KeyOf(fused[j]) in KeysOf(dense))
    ensures i < j
  {
    hide ListScore, Reciprocal, FirstWith, Score;
    BothBeatOne(lexical, dense, KeyOf(fused[i]), KeyOf(fused[j]));
  }

  /** A passage found by both that fusion leaves out is never replaced by one found only once. */
  lemma AgreementIsKept(lexical: seq<Passage>, dense: seq<Passage>, limit: nat, fused: seq<Passage>, k: Key, j: nat)
    requires DistinctKeys(lexical) && DistinctKeys(dense) && |lexical| <= 61 && |dense| <= 61
    requires IsFusion(lexical, dense, limit, fused) && j < |fused|
    requires k in KeysOf(lexical) && k in KeysOf(dense) && k !in KeysOf(fused)
    ensures KeyOf(fused[j]) in KeysOf(lexical) && KeyOf(fused[j]) in KeysOf(dense)
  {
    hide ListScore, Reciprocal, Score;
    var key := KeyOf(fused[j]);
    assert key in KeysOf(lexical) || key in KeysOf(dense);
    if (key in KeysOf(lexical)) != (key in KeysOf(dense)) {
      BothBeatOne(lexical, dense, k, key);
    }
  }

  function Numbered(n: nat, path: string): (list: seq<Passage>)
    ensures |list| == n
  {
    seq(n, i requires 0 <= i < n => Passage(path, "", i, i, ""))
  }

  /**
   * 61 is the largest such length. One rank further, agreement only ties with a single first place,
   * and a fusion may well put the passage found by one method first.
   */
  lemma SixtyTwoTies() returns (lexical: seq<Passage>, dense: seq<Passage>, fused: seq<Passage>)
    ensures |lexical| == |dense| == 62 && DistinctKeys(lexical) && DistinctKeys(dense)
    ensures IsFusion(lexical, dense, 2, fused) && |fused| == 2
    ensures KeyOf(fused[0]) in KeysOf(lexical) && KeyOf(fused[0]) !in KeysOf(dense)
    ensures KeyOf(fused[1]) in KeysOf(lexical) && KeyOf(fused[1]) in KeysOf(dense)
  {
    hide ListScore, Score, FirstWith, IsFusion;
    var shared := Passage("a", "", 1000, 1000, "");
    lexical := Numbered(61, "a") + [shared];
    dense := Numbered(61, "b") + [shared];
    fused := [lexical[0], shared];
    assert lexical[61] == dense[61] == shared && KeyOf(lexical[0]) !in KeysOf(dense);
    assert KeyOf(dense[0]) in KeysOf(dense) && KeyOf(dense[0]) !in KeysOf(lexical);
    TieScores(lexical, dense, shared);
    TieIsFusion(lexical, dense, shared, fused);
  }

  /** Lists that share nothing but their last passage, the 62nd. */
  ghost predicate ShareTheLast(lexical: seq<Passage>, dense: seq<Passage>, shared: Passage) {
    && |lexical| == |dense| == 62 && DistinctKeys(lexical) && DistinctKeys(dense)
    && lexical[61] == dense[61] == shared
    && (forall i, j | 0 <= i < 61 && 0 <= j < 61 :: KeyOf(lexical[i]) != KeyOf(dense[j]))
  }

  /** No passage scores more than a single first place, and the shared one scores as much. */
  lemma TieScores(lexical: seq<Passage>, dense: seq<Passage>, shared: Passage)
    requires ShareTheLast(lexical, dense, shared)
    ensures forall k | k in KeysOf(lexical) + KeysOf(dense) :: Score(lexical, dense, k) <= Reciprocal(0)
    ensures Score(lexical, dense, KeyOf(shared)) == Score(lexical, dense, KeyOf(lexical[0])) == Reciprocal(0)
  {
    hide ListScore, Reciprocal;
    TwoAtSixtyBeatOneAtZero();
    PresentScores(lexical, 61);
    PresentScores(dense, 61);
    SingleScores(lexical, dense, shared, 0);
    forall k | k in KeysOf(lexical) + KeysOf(dense) ensures Score(lexical, dense, k) <= Reciprocal(0) {
      if k != KeyOf(shared) {
        if k in KeysOf(lexical) {
          var i :| 0 <= i < |lexical| && KeyOf(lexical[i]) == k;
          SingleScores(lexical, dense, shared, i);
          ReciprocalFalls(0, i);
        } else {
          var i :| 0 <= i < |dense| && KeyOf(dense[i]) == k;
          AbsentScoresNothing(lexical, k);
          PresentScores(dense, i);
          ReciprocalFalls(0, i);
        }
      }
    }
  }

  lemma SingleScores(lexical: seq<Passage>, dense: seq<Passage>, shared: Passage, i: nat)
    requires ShareTheLast(lexical, dense, shared) && i < 61
    ensures KeyOf(lexical[i]) !in KeysOf(dense) && Score(lexical, dense, KeyOf(lexical[i])) == Reciprocal(i)
  {
    hide ListScore, Reciprocal;
    assert KeyOf(lexical[i]) != KeyOf(lexical[61]);
    AbsentScoresNothing(dense, KeyOf(lexical[i]));
    PresentScores(lexical, i);
  }

  lemma TieIsFusion(lexical: seq<Passage>, dense: seq<Passage>, shared: Passage, fused: seq<Passage>)
    requires ShareTheLast(lexical, dense, shared) && fused == [lexical[0], shared]
    requires forall k | k in KeysOf(lexical) + KeysOf(dense) :: Score(lexical, dense, k) <= Reciprocal(0)
    requires Score(lexical, dense, KeyOf(shared)) == Score(lexical, dense, KeyOf(lexical[0])) == Reciprocal(0)
    ensures IsFusion(lexical, dense, 2, fused)
  {
    hide ListScore, Reciprocal, Score, FirstWith, KeysOf, KeyOf;
    ThreeKeys(lexical, dense, shared);
    FirstIsTheOnly(lexical, 0);
    FirstIsTheOnly(lexical, 61);
  }

  lemma ThreeKeys(lexical: seq<Passage>, dense: seq<Passage>, shared: Passage)
    requires ShareTheLast(lexical, dense, shared)
    ensures |KeysOf(lexical) + KeysOf(dense)| > 2
    ensures KeyOf(lexical[0]) in KeysOf(lexical) && KeyOf(shared) in KeysOf(lexical) && KeyOf(lexical[0]) != KeyOf(shared)
  {
    var keys := KeysOf(lexical) + KeysOf(dense);
    assert KeyOf(lexical[0]) != KeyOf(lexical[61]) && KeyOf(dense[0]) != KeyOf(dense[61]);
    var three := {KeyOf(lexical[0]), KeyOf(lexical[61]), KeyOf(dense[0])};
    assert three <= keys;
    assert keys == three + (keys - three);
    assert |keys| == |three| + |keys - three| && |three| == 3;
  }

  lemma FirstIsTheOnly(list: seq<Passage>, i: nat)
    requires DistinctKeys(list) && i < |list|
    ensures FirstWith(list, KeyOf(list[i])) == Some(list[i])
  {
    hide FirstWith;
  }
}
