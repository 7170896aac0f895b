/**
 * The three tables of the vault index as values, and what one statement, one note or one whole pass
 * does to them (engine/src/search/index.rs).
 */
module VaultTables {
  import opened Domain
  import opened Text
  import opened MarkdownChunker

  // ----- Files -----

  /**
   * A note on disk. Its version stands for the `(mtime, size)` fingerprint and is taken from a clock,
   * so no two writes share one. Content that is not readable text is None.
   */
  datatype File = File(version: nat, content: Option<string>)

  type Files = map<string, File>

  ghost predicate Stamped(files: Files, clock: nat) {
    forall p | p in files :: files[p].version < clock
  }

  /** What editing, creating and removing notes can make of a vault. */
  ghost predicate Evolved(files0: Files, clock0: nat, files: Files, clock: nat) {
    && clock0 <= clock && Stamped(files, clock)
    && (forall p | p in files && files[p].version < clock0 :: p in files0 && files0[p] == files[p])
    && (clock == clock0 ==> files == files0)
  }

  // ----- Rows -----

  datatype Row = Row(title: string, startLine: nat, endLine: nat, body: string)

  type Vector = seq<bv32>

  datatype Embedded = Embedded(row: Row, vector: Vector)

  datatype Source = Source(fingerprint: nat, embedded: Option<nat>)

  datatype Tables = Tables(
    sources: map<string, Source>,
    chunks: map<string, seq<Row>>,
    embeddings: map<string, seq<Embedded>>)

  const EMPTY := Tables(map[], map[], map[])

  /** File name without its last extension. A walk lists no names that begin with a dot. */
  function FileStem(path: string): string {
    var name := SplitOn(path, '/')[|SplitOn(path, '/')| - 1];
    var parts := SplitOn(name, '.');
    if |parts| <= 1 then name else Join(parts[..|parts| - 1], ".")
  }

  /** Of a path, what stands between the last slash and the last dot behind it. */
  lemma FileStemIs(directory: string, stem: string, extension: string)
    requires '/' !in stem && '/' !in extension && '.' !in extension
    ensures FileStem(directory + "/" + stem + "." + extension) == stem == FileStem(stem + "." + extension)
    ensures '.' !in stem ==> FileStem(directory + "/" + stem) == stem == FileStem(stem)
  {
    var name := stem + "." + extension;
    assert '/' !in name;
    assert directory + "/" + stem + "." + extension == directory + "/" + name;
    SplitOfSnoc(directory, name, '/');
    SplitOfSnoc(directory, stem, '/');
    SplitOfSnoc(stem, extension, '.');
    JoinOfSplit(stem, '.');
    OnlyPart(name, '/');
    OnlyPart(stem, '/');
    if '.' !in stem { OnlyPart(stem, '.'); }
    hide SplitOn, Join;
    var parts := SplitOn(name, '.');
    assert parts[..|parts| - 1] == SplitOn(stem, '.');
  }

  lemma OnlyPart(s: string, c: char)
    requires c !in s
    ensures SplitOn(s, c) == [s]
  {
    SplitOfJoin([s], c);
  }

  function TitleOf(path: string, content: string): string {
    FirstHeading(content).GetOr(FileStem(path))
  }

  /** The rows a note contributes: one per chunk, all under the note's title. */
  function NoteRows(path: string, content: string): seq<Row> {
    hide TitleOf, ChunksOf;
    var title := TitleOf(path, content);
    var chunks := ChunksOf(content, DEFAULT_CHUNK_CHARS);
    seq(|chunks|, i requires 0 <= i < |chunks| => Row(title, chunks[i].startLine, chunks[i].endLine, chunks[i].text))
  }

  /** The rows of a note are its chunks, with its first heading as title, or its file name when it has none. */
  lemma NoteRowsAre(path: string, content: string, k: nat)
    requires k < |NoteRows(path, content)|
    ensures |NoteRows(path, content)| == |ChunksOf(content, 1200)|
    ensures var row, ch := NoteRows(path, content)[k], ChunksOf(content, 1200)[k];
      row.startLine == ch.startLine && row.endLine == ch.endLine && row.body == ch.text
    ensures NoteRows(path, content)[k].title ==
              if FirstHeading(content).Some? then FirstHeading(content).value else FileStem(path)
  {
    hide ChunksOf, FirstHeading, FileStem;
  }

  /** Over the note's text: every line that is not blank is in one row, at its place, and in no other. */
  lemma EveryLineIsIndexed(path: string, content: string, before: string, line: string) returns (k: nat, inside: string)
    requires LineBehind(content, before, line) && !Blank(line)
    ensures k < |NoteRows(path, content)| && LineBehind(NoteRows(path, content)[k].body, inside, line)
    ensures forall l | 0 <= l < |NoteRows(path, content)| ::
              NoteRows(path, content)[l].startLine <= Newlines(before) <= NoteRows(path, content)[l].endLine <==> l == k
  {
    hide *;
    k, inside := EveryLineIsKept(content, 1200, before, line);
    NoteRowsCount(path, content);
    RowIsChunk(path, content, k, Newlines(before));
    forall l | 0 <= l < |NoteRows(path, content)|
      ensures NoteRows(path, content)[l].startLine <= Newlines(before) <= NoteRows(path, content)[l].endLine <==> l == k
    {
      RowIsChunk(path, content, l, Newlines(before));
    }
  }

  lemma RowIsChunk(path: string, content: string, k: nat, n: nat)
    requires k < |NoteRows(path, content)|
    ensures |NoteRows(path, content)| == |ChunksOf(content, 1200)|
    ensures NoteRows(path, content)[k].body == ChunksOf(content, 1200)[k].text
    ensures NoteRows(path, content)[k].startLine <= n <= NoteRows(path, content)[k].endLine <==>
              InChunk(ChunksOf(content, 1200), n, k)
  {
    hide ChunksOf, NoteRows;
    NoteRowsAre(path, content, k);
  }

  lemma NoteRowsCount(path: string, content: string)
    ensures |NoteRows(path, content)| == |ChunksOf(content, 1200)|
  {
    hide ChunksOf, TitleOf;
  }

  function WithVectors(rows: seq<Row>, vectorOf: string -> Vector): (r: seq<Embedded>)
    ensures |r| == |rows|
  {
    seq(|rows|, i requires 0 <= i < |rows| => Embedded(rows[i], vectorOf(rows[i].body)))
  }

  /** The rows a table holds for a path. */
  function At<T>(table: map<string, seq<T>>, p: string): seq<T> {
    if p in table then table[p] else []
  }

  /** A table whose rows for `p` are replaced. */
  function Put<T>(table: map<string, seq<T>>, p: string, rows: seq<T>): map<string, seq<T>> {
    if rows == [] then table - {p} else table[p := rows]
  }

  // ----- The invariant -----

  /** No row was stamped with a version the clock has not reached; no table keeps an empty entry. */
  ghost predicate Bounded(clock: nat, t: Tables) {
    && (forall p | p in t.sources :: t.sources[p].fingerprint < clock)
    && (forall p | p in t.sources && t.sources[p].embedded.Some? :: t.sources[p].embedded.value < clock)
    && (forall p | p in t.chunks :: t.chunks[p] != [])
  }

  /** The source row of `p` carries the fingerprint the note has now. */
  predicate UpToDate(files: Files, t: Tables, p: string) {
    p in t.sources && p in files && files[p].version == t.sources[p].fingerprint
  }

  /** The chunk rows of `p` are the chunks of what the note says now. */
  predicate ChunksMatch(files: Files, t: Tables, p: string)
    requires p in files
  {
    files[p].content.Some? && At(t.chunks, p) == NoteRows(p, files[p].content.value)
  }

  /** An up-to-date fingerprint vouches for the chunk rows. */
  ghost predicate ChunksTrusted(files: Files, t: Tables) {
    forall p | UpToDate(files, t, p) :: ChunksMatch(files, t, p)
  }

  /** The embedded fingerprint of `p` is the one the note has now. */
  predicate EmbeddedNow(files: Files, t: Tables, p: string) {
    p in t.sources && p in files && t.sources[p].embedded == Some(files[p].version)
  }

  predicate VectorsMatch(files: Files, t: Tables, vectorOf: string -> Vector, p: string)
    requires p in files
  {
    files[p].content.Some? && At(t.embeddings, p) == WithVectors(NoteRows(p, files[p].content.value), vectorOf)
  }

  /** An up-to-date embedded fingerprint vouches for the stored vectors, but for the `torn` notes. */
  ghost predicate VectorsTrustedExcept(files: Files, t: Tables, vectorOf: string -> Vector, torn: set<string>) {
    forall p | p !in torn && EmbeddedNow(files, t, p) :: VectorsMatch(files, t, vectorOf, p)
  }

  ghost predicate VectorsTrusted(files: Files, t: Tables, vectorOf: string -> Vector) {
    VectorsTrustedExcept(files, t, vectorOf, {})
  }

  /** Edits never break the invariant: a version that is gone never comes back. */
  lemma EditsKeepTrust(files0: Files, clock0: nat, files: Files, clock: nat, t: Tables, vectorOf: string -> Vector,
                       torn: set<string>)
    requires Evolved(files0, clock0, files, clock) && Bounded(clock0, t)
    ensures Bounded(clock, t)
    ensures ChunksTrusted(files0, t) ==> ChunksTrusted(files, t)
    ensures VectorsTrustedExcept(files0, t, vectorOf, torn) ==> VectorsTrustedExcept(files, t, vectorOf, torn)
  {
    hide NoteRows, WithVectors;
    forall p | UpToDate(files, t, p) ensures UpToDate(files0, t, p) && files0[p] == files[p] {
    }
    forall p | EmbeddedNow(files, t, p) ensures EmbeddedNow(files0, t, p) && files0[p] == files[p] {
    }
  }

  /** Only a note that was not touched since can still be torn: any edit makes it pending again. */
  lemma EditsHealTears(files0: Files, clock0: nat, files: Files, clock: nat, t: Tables, vectorOf: string -> Vector,
                       torn: set<string>)
    requires Evolved(files0, clock0, files, clock) && Bounded(clock0, t) && VectorsTrustedExcept(files0, t, vectorOf, torn)
    ensures VectorsTrustedExcept(files, t, vectorOf, set p | p in torn && p in files && p in files0 && files[p] == files0[p])
  {
    hide NoteRows, WithVectors;
    forall p | EmbeddedNow(files, t, p) ensures EmbeddedNow(files0, t, p) && files0[p] == files[p] {
    }
  }

  lemma EvolvedTransitive(files0: Files, clock0: nat, files1: Files, clock1: nat, files: Files, clock: nat)
    requires Evolved(files0, clock0, files1, clock1) && Evolved(files1, clock1, files, clock)
    ensures Evolved(files0, clock0, files, clock)
  {
  }

  /** A fingerprint that a row does not carry now is one it will not match later. */
  ghost predicate Outdated(files: Files, t: Tables, p: string) {
    !UpToDate(files, t, p)
  }

  lemma EditsKeepOutdated(files0: Files, clock0: nat, files: Files, clock: nat, t: Tables, p: string)
    requires Evolved(files0, clock0, files, clock) && Bounded(clock0, t) && Outdated(files0, t, p)
    ensures Outdated(files, t, p)
  {
  }

  /**
   * Content read after the fingerprint was taken: if the fingerprint is still the note's, the content
   * is still the note's too. Reading in the other order would not give this.
   */
  ghost predicate Prepared(files: Files, clock: nat, p: string, fp: nat, content: string) {
    fp < clock && (p in files && files[p].version == fp ==> files[p].content == Some(content))
  }

  lemma EditsKeepPrepared(files0: Files, clock0: nat, files: Files, clock: nat, p: string, fp: nat, content: string)
    requires Evolved(files0, clock0, files, clock) && Prepared(files0, clock0, p, fp, content)
    ensures Prepared(files, clock, p, fp, content)
  {
  }

  // ----- Writing one note -----

  /** All chunk rows of `p` replaced, the source row not yet. */
  function Rewritten(t: Tables, p: string, rows: seq<Row>): Tables {
    t.(chunks := Put(t.chunks, p, rows))
  }

  /** The fingerprint upserted; the embedded fingerprint stays what it was. */
  function Upserted(t: Tables, p: string, fp: nat): Tables {
    t.(sources := t.sources[p := Source(fp, if p in t.sources then t.sources[p].embedded else None)])
  }

  function Indexed(t: Tables, p: string, fp: nat, content: string): Tables {
    Upserted(Rewritten(t, p, NoteRows(p, content)), p, fp)
  }

  function Deleted(t: Tables, gone: set<string>): Tables {
    Tables(t.sources - gone, t.chunks - gone, t.embeddings - gone)
  }

  /** Half-written chunk rows are harmless while the source row is outdated. */
  lemma RewritingKeepsTrust(files: Files, clock: nat, t: Tables, vectorOf: string -> Vector, torn: set<string>,
                            p: string, rows: seq<Row>)
    requires Bounded(clock, t) && ChunksTrusted(files, t) && Outdated(files, t, p)
    ensures Bounded(clock, Rewritten(t, p, rows)) && ChunksTrusted(files, Rewritten(t, p, rows))
    ensures Outdated(files, Rewritten(t, p, rows), p)
    ensures VectorsTrustedExcept(files, t, vectorOf, torn) ==>
              VectorsTrustedExcept(files, Rewritten(t, p, rows), vectorOf, torn)
  {
    hide NoteRows, WithVectors;
    var u := Rewritten(t, p, rows);
    forall q | UpToDate(files, u, q) ensures ChunksMatch(files, u, q) {
      assert UpToDate(files, t, q) && q != p;
    }
    forall q | q !in torn && EmbeddedNow(files, u, q) && VectorsTrustedExcept(files, t, vectorOf, torn)
      ensures VectorsMatch(files, u, vectorOf, q)
    {
      assert EmbeddedNow(files, t, q);
    }
  }

  lemma IndexingKeepsTrust(files: Files, clock: nat, t: Tables, vectorOf: string -> Vector, torn: set<string>,
                           p: string, fp: nat, content: string)
    requires Bounded(clock, t) && ChunksTrusted(files, t) && Prepared(files, clock, p, fp, content)
    ensures Bounded(clock, Indexed(t, p, fp, content)) && ChunksTrusted(files, Indexed(t, p, fp, content))
    ensures VectorsTrustedExcept(files, t, vectorOf, torn) ==>
              VectorsTrustedExcept(files, Indexed(t, p, fp, content), vectorOf, torn)
  {
    hide NoteRows, WithVectors;
    var u := Indexed(t, p, fp, content);
    forall q | UpToDate(files, u, q) ensures ChunksMatch(files, u, q) {
      if q != p { assert UpToDate(files, t, q); }
    }
    forall q | q !in torn && EmbeddedNow(files, u, q) && VectorsTrustedExcept(files, t, vectorOf, torn)
      ensures VectorsMatch(files, u, vectorOf, q)
    {
      assert EmbeddedNow(files, t, q);
    }
  }

  lemma DeletingKeepsTrust(files: Files, clock: nat, t: Tables, vectorOf: string -> Vector, torn: set<string>,
                           gone: set<string>)
    requires Bounded(clock, t) && ChunksTrusted(files, t)
    ensures Bounded(clock, Deleted(t, gone)) && ChunksTrusted(files, Deleted(t, gone))
    ensures VectorsTrustedExcept(files, t, vectorOf, torn) ==> VectorsTrustedExcept(files, Deleted(t, gone), vectorOf, torn)
  {
    hide NoteRows, WithVectors;
    var u := Deleted(t, gone);
    forall q | UpToDate(files, u, q) ensures ChunksMatch(files, u, q) {
      assert UpToDate(files, t, q) && q !in gone;
    }
    forall q | q !in torn && EmbeddedNow(files, u, q) && VectorsTrustedExcept(files, t, vectorOf, torn)
      ensures VectorsMatch(files, u, vectorOf, q)
    {
      assert EmbeddedNow(files, t, q) && q !in gone;
    }
  }

  /** A deletion that stopped after the chunk rows, and one that stopped before the source row. */
  function HalfDeleted(t: Tables, p: string, vectorsToo: bool): Tables {
    t.(chunks := t.chunks - {p}, embeddings := if vectorsToo then t.embeddings - {p} else t.embeddings)
  }

  /**
   * A deletion is three statements, not one transaction. Stopping between them is harmless exactly
   * when the note is gone or changed, as it is meant to be, or has no rows anyway.
   */
  lemma HalfDeletionIsSafeIff(files: Files, t: Tables, vectorOf: string -> Vector, torn: set<string>, p: string,
                              vectorsToo: bool)
    requires ChunksTrusted(files, t) && VectorsTrustedExcept(files, t, vectorOf, torn)
    ensures ChunksTrusted(files, HalfDeleted(t, p, vectorsToo)) <==>
              (UpToDate(files, t, p) ==> files[p].content.Some? && NoteRows(p, files[p].content.value) == [])
    ensures VectorsTrustedExcept(files, HalfDeleted(t, p, vectorsToo), vectorOf, torn) <==>
              (vectorsToo && p !in torn && EmbeddedNow(files, t, p) ==>
                 files[p].content.Some? && NoteRows(p, files[p].content.value) == [])
  {
    hide NoteRows;
    var u := HalfDeleted(t, p, vectorsToo);
    forall q | q != p && UpToDate(files, u, q) ensures ChunksMatch(files, u, q) {
      assert UpToDate(files, t, q);
    }
    forall q | (q != p || !vectorsToo) && q !in torn && EmbeddedNow(files, u, q)
      ensures VectorsMatch(files, u, vectorOf, q)
    {
      assert EmbeddedNow(files, t, q);
    }
    assert UpToDate(files, u, p) <==> UpToDate(files, t, p);
    assert EmbeddedNow(files, u, p) <==> EmbeddedNow(files, t, p);
    assert At(u.chunks, p) == [] && (vectorsToo ==> At(u.embeddings, p) == []);
  }

  // ----- One pass over notes at rest -----

  datatype Outcome = Added | Updated | Unchanged | Skipped

  /** What a pass decides about a listed note. */
  function Decide(t: Tables, files: Files, p: string): Outcome {
    if p !in files then Skipped
    else if UpToDate(files, t, p) then Unchanged
    else if files[p].content.None? then Skipped
    else if p in t.sources then Updated
    else Added
  }

  function SyncOne(t: Tables, files: Files, p: string): Tables {
    match Decide(t, files, p)
    case Added | Updated => Indexed(t, p, files[p].version, files[p].content.value)
    case Unchanged | Skipped => t
  }

  function SyncAll(t: Tables, files: Files, ps: seq<string>): Tables {
    if ps == [] then t else SyncOne(SyncAll(t, files, ps[..|ps| - 1]), files, ps[|ps| - 1])
  }

  /** The notes with a source row that the list does not have. */
  function Gone(t: Tables, ps: seq<string>): set<string> {
    t.sources.Keys - set p | p in ps
  }

  /** The whole pass: every listed note, then the rows of notes that are gone. */
  function Synced(t: Tables, files: Files, ps: seq<string>): Tables {
    Deleted(SyncAll(t, files, ps), Gone(t, ps))
  }

  function Tally(t: Tables, files: Files, ps: seq<string>, o: Outcome): (n: nat)
    ensures n <= |ps|
  {
    if ps == [] then 0
    else Tally(t, files, ps[..|ps| - 1], o) + if Decide(t, files, ps[|ps| - 1]) == o then 1 else 0
  }

  ghost predicate Distinct(ps: seq<string>) {
    forall i, j | 0 <= i < j < |ps| :: ps[i] != ps[j]
  }

  /** `ps` lists the notes of the vault, each once. */
  ghost predicate Lists(ps: seq<string>, files: Files) {
    Distinct(ps) && forall p :: p in ps <==> p in files
  }

  /** The two tables hold the same about `p`. */
  ghost predicate AgreeAt(a: Tables, b: Tables, p: string) {
    && (p in a.sources <==> p in b.sources) && (p in a.sources ==> a.sources[p] == b.sources[p])
    && (p in a.chunks <==> p in b.chunks) && (p in a.chunks ==> a.chunks[p] == b.chunks[p])
    && (p in a.embeddings <==> p in b.embeddings) && (p in a.embeddings ==> a.embeddings[p] == b.embeddings[p])
  }

  lemma SyncOneElsewhere(t: Tables, files: Files, p: string, q: string)
    requires p != q
    ensures AgreeAt(SyncOne(t, files, p), t, q)
  {
    hide NoteRows;
  }

  lemma SyncOneFromAgreeing(a: Tables, b: Tables, files: Files, p: string)
    requires AgreeAt(a, b, p)
    ensures AgreeAt(SyncOne(a, files, p), SyncOne(b, files, p), p)
    ensures Decide(a, files, p) == Decide(b, files, p)
  {
    hide NoteRows;
  }

  /** Notes do not interfere: the order of the list never matters. */
  lemma {:induction false} SyncAllAt(t: Tables, files: Files, ps: seq<string>, p: string)
    requires Distinct(ps)
    ensures AgreeAt(SyncAll(t, files, ps), if p in ps then SyncOne(t, files, p) else t, p)
  {
    hide SyncOne;
    if ps != [] {
      var n := |ps| - 1;
      SyncAllAt(t, files, ps[..n], p);
      var u := SyncAll(t, files, ps[..n]);
      assert p in ps <==> p in ps[..n] || p == ps[n];
      if p == ps[n] {
        assert p !in ps[..n];
        SyncOneFromAgreeing(u, t, files, p);
      } else {
        SyncOneElsewhere(u, files, ps[n], p);
      }
    }
  }

  /** The four outcomes account for every listed note. */
  lemma {:induction false} TalliesAddUp(t: Tables, files: Files, ps: seq<string>)
    ensures Tally(t, files, ps, Added) + Tally(t, files, ps, Updated) + Tally(t, files, ps, Unchanged)
              + Tally(t, files, ps, Skipped) == |ps|
  {
    if ps != [] { TalliesAddUp(t, files, ps[..|ps| - 1]); }
  }

  ghost predicate Readable(files: Files) {
    forall p | p in files :: files[p].content.Some?
  }

  /** The fingerprint column of the sources table. */
  function Fingerprints(t: Tables): map<string, nat> {
    map p | p in t.sources :: t.sources[p].fingerprint
  }

  /**
   * Chunk rows without a source row whose note is gone: an indexing stopped before its first upsert,
   * and the note was removed before the next pass. Pruning looks at source rows only.
   */
  ghost predicate NoOrphans(t: Tables, files: Files) {
    forall p | p in t.chunks :: p in t.sources || p in files
  }

  lemma SyncedAt(t: Tables, clock: nat, files: Files, ps: seq<string>, p: string)
    requires Lists(ps, files) && Readable(files) && ChunksTrusted(files, t) && Bounded(clock, t)
    ensures p in Synced(t, files, ps).sources <==> p in files
    ensures p in files ==> Synced(t, files, ps).sources[p].fingerprint == files[p].version
    ensures p in files ==> At(Synced(t, files, ps).chunks, p) == NoteRows(p, files[p].content.value)
    ensures p !in files ==> At(Synced(t, files, ps).chunks, p) == if p in t.sources then [] else At(t.chunks, p)
    ensures p in Synced(t, files, ps).chunks ==> Synced(t, files, ps).chunks[p] != []
  {
    hide NoteRows;
    SyncAllAt(t, files, ps, p);
  }

  /** What a pass makes of the chunk rows of any path, whatever the tables held before. */
  lemma SyncedChunks(t: Tables, files: Files, ps: seq<string>, p: string)
    requires Lists(ps, files)
    ensures At(Synced(t, files, ps).chunks, p) ==
              if p !in files then if p in t.sources then [] else At(t.chunks, p)
              else if UpToDate(files, t, p) || files[p].content.None? then At(t.chunks, p)
              else NoteRows(p, files[p].content.value)
    ensures p in files && files[p].content.None? ==>
              (p in Synced(t, files, ps).sources <==> p in t.sources)
              && (p in t.sources ==> Synced(t, files, ps).sources[p] == t.sources[p])
    ensures p !in files ==> p !in Synced(t, files, ps).sources
  {
    hide NoteRows;
    SyncAllAt(t, files, ps, p);
  }

  /**
   * And of everything else: a readable note whose fingerprint differs gets its new one and keeps its embedded one;
   * a note that is gone loses its vectors with its source row; nothing else changes.
   */
  lemma SyncedSources(t: Tables, files: Files, ps: seq<string>, p: string)
    requires Lists(ps, files)
    ensures var u := Synced(t, files, ps);
      && (p !in files ==> p !in u.sources)
      && (p in files && files[p].content.Some? && (p in t.sources ==> t.sources[p].fingerprint != files[p].version) ==>
            && p in u.sources
            && u.sources[p] == Source(files[p].version, if p in t.sources then t.sources[p].embedded else None))
      && (p in files && (files[p].content.None? || (p in t.sources && t.sources[p].fingerprint == files[p].version)) ==>
            (p in u.sources <==> p in t.sources) && (p in t.sources ==> u.sources[p] == t.sources[p]))
      && At(u.embeddings, p) == if p !in files && p in t.sources then [] else At(t.embeddings, p)
  {
    hide NoteRows;
    SyncAllAt(t, files, ps, p);
  }

  /** The listed notes with the given outcome. */
  function Chosen(t: Tables, files: Files, ps: seq<string>, o: Outcome): set<string> {
    set p | p in ps && Decide(t, files, p) == o
  }

  lemma {:induction false} TallyIsCount(t: Tables, files: Files, ps: seq<string>, o: Outcome)
    requires Distinct(ps)
    ensures Tally(t, files, ps, o) == |Chosen(t, files, ps, o)|
  {
    hide Decide, Chosen, Distinct;
    if ps == [] {
      NothingChosen(t, files, o);
    } else {
      var n := |ps| - 1;
      LastIsNew(ps);
      TallyIsCount(t, files, ps[..n], o);
      ChosenGrow(t, files, ps, o);
    }
  }

  lemma NothingChosen(t: Tables, files: Files, o: Outcome)
    ensures Chosen(t, files, [], o) == {}
  {
  }

  lemma LastIsNew(ps: seq<string>)
    requires Distinct(ps) && ps != []
    ensures Distinct(ps[..|ps| - 1]) && ps[|ps| - 1] !in ps[..|ps| - 1]
  {
  }

  lemma ChosenGrow(t: Tables, files: Files, ps: seq<string>, o: Outcome)
    requires ps != [] && ps[|ps| - 1] !in ps[..|ps| - 1]
    ensures ps[|ps| - 1] !in Chosen(t, files, ps[..|ps| - 1], o)
    ensures Chosen(t, files, ps, o) ==
              Chosen(t, files, ps[..|ps| - 1], o) + if Decide(t, files, ps[|ps| - 1]) == o then {ps[|ps| - 1]} else {}
  {
    hide Decide;
    assert ps == ps[..|ps| - 1] + [ps[|ps| - 1]];
  }

  /** What a pass counts: notes new to the index, notes whose fingerprint differs, and notes whose fingerprint does not. */
  lemma TalliesCount(t: Tables, files: Files, ps: seq<string>)
    requires Distinct(ps) && forall p | p in ps :: p in files
    ensures Tally(t, files, ps, Added) == |set p | p in ps && files[p].content.Some? && p !in t.sources|
    ensures Tally(t, files, ps, Updated) ==
              |set p | p in ps && files[p].content.Some? && p in t.sources && t.sources[p].fingerprint != files[p].version|
    ensures Tally(t, files, ps, Unchanged) ==
              |set p | p in ps && p in t.sources && t.sources[p].fingerprint == files[p].version|
  {
    hide Tally, Distinct;
    TallyIsCount(t, files, ps, Added);
    TallyIsCount(t, files, ps, Updated);
    TallyIsCount(t, files, ps, Unchanged);
    assert Chosen(t, files, ps, Added) == set p | p in ps && files[p].content.Some? && p !in t.sources;
    assert Chosen(t, files, ps, Updated) == set p |
      p in ps && files[p].content.Some? && p in t.sources && t.sources[p].fingerprint != files[p].version;
    assert Chosen(t, files, ps, Unchanged) == set p | p in ps && p in t.sources && t.sources[p].fingerprint == files[p].version;
  }

  /**
   * Stale rows of a note that is there but cannot be read: a pass leaves them as they are. After it
   * the rows of a listed note are those of its content exactly when it is readable and was not
   * vouched for wrongly before; in particular, from trusted tables, exactly when it is readable.
   */
  lemma UnreadableNotesKeepTheirRows(t: Tables, files: Files, ps: seq<string>, p: string)
    requires Lists(ps, files) && p in files
    ensures files[p].content.None? ==> At(Synced(t, files, ps).chunks, p) == At(t.chunks, p)
    ensures ChunksMatch(files, Synced(t, files, ps), p) <==>
              files[p].content.Some? && (UpToDate(files, t, p) ==> ChunksMatch(files, t, p))
    ensures ChunksTrusted(files, t) ==> (ChunksMatch(files, Synced(t, files, ps), p) <==> files[p].content.Some?)
  {
    hide NoteRows, Synced;
    SyncedChunks(t, files, ps, p);
  }

  /** An instance: a note is indexed and then becomes unreadable; the next pass keeps its rows. */
  lemma StaleRowsAreNotPruned(p: string, before: string)
    requires NoteRows(p, before) != []
    ensures var indexed := Synced(EMPTY, map[p := File(0, Some(before))], [p]);
      var files := map[p := File(1, None)];
      && ChunksTrusted(files, indexed) && !UpToDate(files, indexed, p)
      && Synced(indexed, files, [p]) == indexed && At(indexed.chunks, p) == NoteRows(p, before) != []
  {
    hide NoteRows, Synced;
    var indexed := Synced(EMPTY, map[p := File(0, Some(before))], [p]);
    SyncedOne(EMPTY, map[p := File(0, Some(before))], p);
    assert indexed.sources == map[p := Source(0, None)];
    SyncedOne(indexed, map[p := File(1, None)], p);
  }

  /**
   * When a walk misses an unchanged note and its deletion stops half way, no later pass brings its
   * rows back while it stays unchanged.
   */
  lemma {:induction false} HalfDeletionIsNeverRepaired(t: Tables, files: Files, lists: seq<seq<string>>, p: string,
                                                       vectorsToo: bool)
    requires UpToDate(files, t, p) && forall k | 0 <= k < |lists| :: Lists(lists[k], files)
    ensures var u := SyncedThrough(HalfDeleted(t, p, vectorsToo), Passing(files, lists));
      UpToDate(files, u, p) && At(u.chunks, p) == []
  {
    hide Lists, Synced;
    if lists != [] {
      var n := |lists| - 1;
      var passes := Passing(files, lists);
      HalfDeletionIsNeverRepaired(t, files, lists[..n], p, vectorsToo);
      assert passes[..n] == Passing(files, lists[..n]);
      UpToDateStays(SyncedThrough(HalfDeleted(t, p, vectorsToo), passes[..n]), files, lists[n], p);
    }
  }

  function Passing(files: Files, lists: seq<seq<string>>): (r: seq<(Files, seq<string>)>)
    ensures |r| == |lists|
  {
    seq(|lists|, i requires 0 <= i < |lists| => (files, lists[i]))
  }

  lemma UpToDateStays(t: Tables, files: Files, ps: seq<string>, p: string)
    requires Lists(ps, files) && UpToDate(files, t, p)
    ensures UpToDate(files, Synced(t, files, ps), p) && At(Synced(t, files, ps).chunks, p) == At(t.chunks, p)
  {
    hide NoteRows;
    SyncAllAt(t, files, ps, p);
  }

  lemma AgreeOnChunks(a: Tables, b: Tables)
    requires forall p :: At(a.chunks, p) == At(b.chunks, p)
    requires forall p | p in a.chunks :: a.chunks[p] != []
    requires forall p | p in b.chunks :: b.chunks[p] != []
    ensures a.chunks == b.chunks
  {
    forall p ensures p in a.chunks <==> p in b.chunks {
      assert At(a.chunks, p) == At(b.chunks, p);
    }
    forall p | p in a.chunks ensures a.chunks[p] == b.chunks[p] {
      assert At(a.chunks, p) == At(b.chunks, p);
    }
  }

  /**
   * An incremental pass over readable notes at rest ends where a rebuild from nothing ends: always in
   * its fingerprints, and in its chunk rows exactly when no orphaned rows were left behind.
   */
  lemma SyncEqualsRebuild(t: Tables, clock: nat, files: Files, ps: seq<string>, qs: seq<string>)
    requires Lists(ps, files) && Lists(qs, files) && Readable(files)
    requires Bounded(clock, t) && ChunksTrusted(files, t)
    ensures Fingerprints(Synced(t, files, ps)) == Fingerprints(Synced(EMPTY, files, qs))
    ensures Synced(t, files, ps).chunks == Synced(EMPTY, files, qs).chunks <==> NoOrphans(t, files)
  {
    hide NoteRows, Synced;
    var a, b := Synced(t, files, ps), Synced(EMPTY, files, qs);
    forall p
      ensures p in a.sources <==> p in b.sources
      ensures p in a.sources ==> a.sources[p].fingerprint == b.sources[p].fingerprint
      ensures p in files ==> At(a.chunks, p) == At(b.chunks, p)
      ensures p !in files ==> At(b.chunks, p) == [] && At(a.chunks, p) == if p in t.sources then [] else At(t.chunks, p)
      ensures (p in a.chunks ==> a.chunks[p] != []) && (p in b.chunks ==> b.chunks[p] != [])
    {
      SyncedAt(t, clock, files, ps, p);
      SyncedAt(EMPTY, clock, files, qs, p);
    }
    if NoOrphans(t, files) {
      forall p ensures At(a.chunks, p) == At(b.chunks, p) {
        if p !in files && p !in t.sources { assert p !in t.chunks; }
      }
      AgreeOnChunks(a, b);
    } else {
      var p :| p in t.chunks && p !in t.sources && p !in files;
      assert At(t.chunks, p) != [];
      assert At(a.chunks, p) != At(b.chunks, p);
    }
  }

  /** Several passes, each over the notes there are at the time. */
  function SyncedThrough(t: Tables, passes: seq<(Files, seq<string>)>): Tables {
    if passes == [] then t
    else Synced(SyncedThrough(t, passes[..|passes| - 1]), passes[|passes| - 1].0, passes[|passes| - 1].1)
  }

  /** Orphaned rows stay through any number of passes, as long as the note does not come back. */
  lemma {:induction false} OrphanedRowsSurvive(t: Tables, passes: seq<(Files, seq<string>)>, p: string)
    requires p !in t.sources
    requires forall k | 0 <= k < |passes| :: Lists(passes[k].1, passes[k].0) && p !in passes[k].0
    ensures p !in SyncedThrough(t, passes).sources && At(SyncedThrough(t, passes).chunks, p) == At(t.chunks, p)
  {
    hide Lists, Synced;
    if passes != [] {
      var n := |passes| - 1;
      OrphanedRowsSurvive(t, passes[..n], p);
      SyncedChunks(SyncedThrough(t, passes[..n]), passes[n].0, passes[n].1, p);
    }
  }

  /** They do come about: the first indexing of a note stops after its chunk rows, and it is removed. */
  lemma OrphanedRowsExist(p: string, rows: seq<Row>)
    requires rows != []
    ensures var stopped := Rewritten(EMPTY, p, rows);
      ChunksTrusted(map[], stopped) && Bounded(0, stopped) && !NoOrphans(stopped, map[])
  {
    assert p in Rewritten(EMPTY, p, rows).chunks;
  }

  /** A second pass changes nothing and finds every note unchanged. */
  lemma SecondSyncIsIdle(t: Tables, clock: nat, files: Files, ps: seq<string>, qs: seq<string>)
    requires Lists(ps, files) && Lists(qs, files) && Readable(files)
    requires Bounded(clock, t) && ChunksTrusted(files, t)
    ensures var u := Synced(t, files, ps);
      Synced(u, files, qs) == u && Tally(u, files, qs, Unchanged) == |qs| && Gone(u, qs) == {}
  {
    hide NoteRows, Synced;
    var u := Synced(t, files, ps);
    forall p ensures p in u.sources <==> p in files
      ensures p in files ==> Decide(u, files, p) == Unchanged
    {
      SyncedAt(t, clock, files, ps, p);
    }
    IdleSync(u, files, qs);
  }

  lemma {:induction false} IdleSync(u: Tables, files: Files, qs: seq<string>)
    requires forall p | p in qs :: Decide(u, files, p) == Unchanged
    requires forall p | p in u.sources :: p in qs
    ensures Synced(u, files, qs) == u && Tally(u, files, qs, Unchanged) == |qs|
    ensures Gone(u, qs) == {}
  {
    hide Decide, SyncAll, Tally, Deleted;
    IdleSyncAll(u, files, qs, |qs|);
    assert qs[..|qs|] == qs;
    DeletedNothing(u);
    assert Gone(u, qs) == {};
  }

  lemma IdleSyncOne(u: Tables, files: Files, p: string)
    requires Decide(u, files, p) == Unchanged
    ensures SyncOne(u, files, p) == u
  {
  }

  lemma DeletedMore(t: Tables, gone: set<string>, p: string)
    ensures Deleted(Deleted(t, gone), {p}) == Deleted(t, gone + {p})
  {
  }

  lemma DeletedNothing(u: Tables)
    ensures Deleted(u, {}) == u
  {
  }

  lemma {:induction false} IdleSyncAll(u: Tables, files: Files, qs: seq<string>, n: nat)
    requires n <= |qs| && forall p | p in qs :: Decide(u, files, p) == Unchanged
    ensures SyncAll(u, files, qs[..n]) == u && Tally(u, files, qs[..n], Unchanged) == n
  {
    hide SyncOne, Decide;
    if n > 0 {
      IdleSyncAll(u, files, qs, n - 1);
      IdleSyncOne(u, files, qs[n - 1]);
      assert qs[..n][..n - 1] == qs[..n - 1];
    }
  }

  // ----- Embedding -----

  /** Notes whose fingerprint differs from what was last embedded. */
  function Pending(t: Tables): set<string> {
    set p | p in t.sources && t.sources[p].embedded != Some(t.sources[p].fingerprint)
  }

  /** A completed store; stamping is an UPDATE, so it needs a source row. */
  function Stored(t: Tables, p: string, fp: nat, rows: seq<Embedded>): Tables {
    t.(embeddings := Put(t.embeddings, p, rows),
       sources := if p in t.sources then t.sources[p := t.sources[p].(embedded := Some(fp))] else t.sources)
  }

  /** A store that stopped after deleting the old rows and inserting `n` new ones. */
  function Torn(t: Tables, p: string, rows: seq<Embedded>, n: nat): Tables
    requires n <= |rows|
  {
    t.(embeddings := Put(t.embeddings, p, rows[..n]))
  }

  /** A completed store makes the note's vectors trusted, torn before or not, and leaves the others as they were. */
  lemma StoringKeepsTrust(files: Files, clock: nat, t: Tables, vectorOf: string -> Vector, torn: set<string>, p: string,
                          fp: nat, content: string)
    requires Bounded(clock, t) && ChunksTrusted(files, t) && Prepared(files, clock, p, fp, content)
    requires VectorsTrustedExcept(files, t, vectorOf, torn)
    ensures var u := Stored(t, p, fp, WithVectors(NoteRows(p, content), vectorOf));
      Bounded(clock, u) && ChunksTrusted(files, u) && VectorsTrustedExcept(files, u, vectorOf, torn - {p})
  {
    hide NoteRows, WithVectors;
    var u := Stored(t, p, fp, WithVectors(NoteRows(p, content), vectorOf));
    forall q | UpToDate(files, u, q) ensures ChunksMatch(files, u, q) {
      assert UpToDate(files, t, q);
    }
    forall q | q !in torn - {p} && EmbeddedNow(files, u, q) ensures VectorsMatch(files, u, vectorOf, q) {
      if q != p { assert EmbeddedNow(files, t, q); }
    }
  }

  /** What is stored for `p` by a store that stopped is harmless: `p` is not stamped, or nothing is missing. */
  predicate HarmlessTear(files: Files, t: Tables, vectorOf: string -> Vector, p: string, left: seq<Embedded>) {
    EmbeddedNow(files, t, p) ==>
      files[p].content.Some? && left == WithVectors(NoteRows(p, files[p].content.value), vectorOf)
  }

  /** The notes whose vectors are not vouched for after a store of `p` that stopped with the rows `left`. */
  function TornAfter(files: Files, t: Tables, vectorOf: string -> Vector, torn: set<string>, p: string,
                     left: seq<Embedded>): (r: set<string>)
    ensures r == torn - {p} || r == torn + {p}
  {
    if HarmlessTear(files, t, vectorOf, p, left) then torn - {p} else torn + {p}
  }

  /** A store that stops never harms another note, nor the chunk rows. */
  lemma TearingKeepsTheRest(files: Files, clock: nat, t: Tables, vectorOf: string -> Vector, torn: set<string>,
                            p: string, rows: seq<Embedded>, n: nat)
    requires n <= |rows| && Bounded(clock, t) && ChunksTrusted(files, t) && VectorsTrustedExcept(files, t, vectorOf, torn)
    ensures Bounded(clock, Torn(t, p, rows, n)) && ChunksTrusted(files, Torn(t, p, rows, n))
    ensures VectorsTrustedExcept(files, Torn(t, p, rows, n), vectorOf, TornAfter(files, t, vectorOf, torn, p, rows[..n]))
  {
    hide NoteRows, WithVectors;
    TearIsSafeIff(files, t, vectorOf, torn, p, rows, n);
    var u := Torn(t, p, rows, n);
    forall q | UpToDate(files, u, q) ensures ChunksMatch(files, u, q) {
      assert UpToDate(files, t, q);
    }
    forall q | q !in torn + {p} && EmbeddedNow(files, u, q) ensures VectorsMatch(files, u, vectorOf, q) {
      assert EmbeddedNow(files, t, q);
    }
  }

  /**
   * A store of any rows, however old the content they were made of, that stops after `n` of them: the
   * note is vouched for afterwards exactly when it is not stamped with its current fingerprint, or
   * the rows that got stored are the ones of its current content.
   */
  lemma TearIsSafeIff(files: Files, t: Tables, vectorOf: string -> Vector, torn: set<string>, p: string,
                      rows: seq<Embedded>, n: nat)
    requires n <= |rows| && VectorsTrustedExcept(files, t, vectorOf, torn)
    ensures VectorsTrustedExcept(files, Torn(t, p, rows, n), vectorOf, torn - {p}) <==>
              HarmlessTear(files, t, vectorOf, p, rows[..n])
  {
    hide NoteRows, WithVectors;
    var u := Torn(t, p, rows, n);
    assert At(u.embeddings, p) == rows[..n];
    assert EmbeddedNow(files, u, p) <==> EmbeddedNow(files, t, p);
    forall q | q != p && q !in torn && EmbeddedNow(files, u, q) ensures VectorsMatch(files, u, vectorOf, q) {
      assert EmbeddedNow(files, t, q);
    }
  }

  /**
   * For a note's current vectors: the invariant holds exactly when the note was not already stamped
   * with that fingerprint, or nothing but the stamp was missing.
   */
  lemma TornStoreIsSafeIff(files: Files, t: Tables, vectorOf: string -> Vector, p: string, content: string, n: nat)
    requires VectorsTrusted(files, t, vectorOf)
    requires p in files && files[p].content == Some(content) && n <= |NoteRows(p, content)|
    ensures VectorsTrusted(files, Torn(t, p, WithVectors(NoteRows(p, content), vectorOf), n), vectorOf) <==>
              (!EmbeddedNow(files, t, p) || n == |NoteRows(p, content)|)
  {
    hide NoteRows, WithVectors;
    var rows := WithVectors(NoteRows(p, content), vectorOf);
    TearIsSafeIff(files, t, vectorOf, {}, p, rows, n);
    assert {} - {p} == {};
    assert rows[..|rows|] == rows;
    if n < |rows| { assert rows[..n] != rows; }
  }

  /**
   * A tear that loses no row may still be harmful: the rows are of content read before an edit,
   * another pass has stamped the note with its new fingerprint since, and only the stamp fails.
   */
  lemma TornStoreOfOldContent(p: string, before: string, after: string, vectorOf: string -> Vector)
    requires NoteRows(p, before) != NoteRows(p, after)
    ensures var files := map[p := File(1, Some(after))];
      var stale, current := WithVectors(NoteRows(p, before), vectorOf), WithVectors(NoteRows(p, after), vectorOf);
      var stamped := Stored(Synced(EMPTY, files, [p]), p, 1, current);
      && VectorsTrusted(files, stamped, vectorOf)
      && !VectorsTrusted(files, Torn(stamped, p, stale, |stale|), vectorOf)
  {
    hide NoteRows, Synced;
    var files := map[p := File(1, Some(after))];
    var stale, current := WithVectors(NoteRows(p, before), vectorOf), WithVectors(NoteRows(p, after), vectorOf);
    SyncedOne(EMPTY, files, p);
    var indexed := Synced(EMPTY, files, [p]);
    assert indexed.sources == map[p := Source(1, None)];
    var stamped := Stored(indexed, p, 1, current);
    assert VectorsTrusted(files, stamped, vectorOf) by { assert At(stamped.embeddings, p) == current; }
    TearIsSafeIff(files, stamped, vectorOf, {}, p, stale, |stale|);
    assert {} - {p} == {} && stale[..|stale|] == stale;
    WithVectorsTells(NoteRows(p, before), NoteRows(p, after), vectorOf);
  }

  lemma WithVectorsTells(a: seq<Row>, b: seq<Row>, vectorOf: string -> Vector)
    ensures WithVectors(a, vectorOf) == WithVectors(b, vectorOf) <==> a == b
  {
    if WithVectors(a, vectorOf) == WithVectors(b, vectorOf) {
      assert |a| == |b|;
      forall i | 0 <= i < |a| ensures a[i] == b[i] {
        assert WithVectors(a, vectorOf)[i].row == WithVectors(b, vectorOf)[i].row;
      }
    }
  }

  /**
   * Such a tear is never repaired. A note indexed at version 0 and edited to version 1 is embedded at
   * version 1 while its source row still says 0, so it stays pending; embedding it again tears; the
   * next sync makes all three fingerprints agree, and the note is no longer pending without its rows.
   */
  lemma TornStoreIsNeverRepaired(p: string, before: string, after: string, vectorOf: string -> Vector)
    requires NoteRows(p, after) != []
    ensures var rows := WithVectors(NoteRows(p, after), vectorOf);
      var files := map[p := File(1, Some(after))];
      var indexed := Synced(EMPTY, map[p := File(0, Some(before))], [p]);
      var embedded := Stored(indexed, p, 1, rows);
      var final := Synced(Torn(embedded, p, rows, 0), files, [p]);
      && p in Pending(embedded)
      && VectorsTrusted(files, embedded, vectorOf)
      && p !in Pending(final) && UpToDate(files, final, p) && EmbeddedNow(files, final, p)
      && At(final.embeddings, p) == [] != rows
  {
    hide NoteRows, WithVectors, Synced;
    var rows := WithVectors(NoteRows(p, after), vectorOf);
    var files := map[p := File(1, Some(after))];
    var indexed := Synced(EMPTY, map[p := File(0, Some(before))], [p]);
    SyncedOne(EMPTY, map[p := File(0, Some(before))], p);
    assert indexed.sources == map[p := Source(0, None)];
    var embedded := Stored(indexed, p, 1, rows);
    assert embedded.sources == map[p := Source(0, Some(1))];
    assert VectorsTrusted(files, embedded, vectorOf) by { assert At(embedded.embeddings, p) == rows; }
    var torn := Torn(embedded, p, rows, 0);
    assert rows[..0] == [];
    SyncedOne(torn, files, p);
  }

  lemma SyncedOne(t: Tables, files: Files, p: string)
    requires t.sources.Keys <= {p}
    ensures Synced(t, files, [p]) == SyncOne(t, files, p)
  {
    hide NoteRows, SyncOne;
    assert [p][..0] == [];
    assert SyncAll(t, files, [p]) == SyncOne(t, files, p);
    assert Gone(t, [p]) == {};
    assert Deleted(SyncOne(t, files, p), {}) == SyncOne(t, files, p);
  }

  /**
   * An edit with any fingerprint, fresh or not, keeps what the fingerprints vouch for exactly when no
   * row carries that fingerprint for the note, or what is stored is right for the new content anyway.
   */
  lemma AnyEditKeepsTrustIff(files: Files, t: Tables, vectorOf: string -> Vector, torn: set<string>, p: string, f: File)
    requires ChunksTrusted(files, t) && VectorsTrustedExcept(files, t, vectorOf, torn)
    ensures ChunksTrusted(files[p := f], t) <==>
              (p in t.sources && t.sources[p].fingerprint == f.version ==>
                 f.content.Some? && At(t.chunks, p) == NoteRows(p, f.content.value))
    ensures VectorsTrustedExcept(files[p := f], t, vectorOf, torn) <==>
              (p !in torn && p in t.sources && t.sources[p].embedded == Some(f.version) ==>
                 f.content.Some? && At(t.embeddings, p) == WithVectors(NoteRows(p, f.content.value), vectorOf))
  {
    hide NoteRows, WithVectors;
    var edited := files[p := f];
    forall q | q != p
      ensures (UpToDate(edited, t, q) <==> UpToDate(files, t, q)) && (EmbeddedNow(edited, t, q) <==> EmbeddedNow(files, t, q))
    {
    }
    forall q | q != p && UpToDate(edited, t, q) ensures ChunksMatch(edited, t, q) {
      assert UpToDate(files, t, q);
    }
    forall q | q != p && q !in torn && EmbeddedNow(edited, t, q) ensures VectorsMatch(edited, t, vectorOf, q) {
      assert EmbeddedNow(files, t, q);
    }
    assert UpToDate(edited, t, p) <==> p in t.sources && t.sources[p].fingerprint == f.version;
    assert EmbeddedNow(edited, t, p) <==> p in t.sources && t.sources[p].embedded == Some(f.version);
  }

  /**
   * Whether the next pass sees an edit: afterwards the rows are those of the new content exactly when
   * the edit changed the recorded fingerprint, or the rows were right already.
   */
  lemma EditIsSeenIff(t: Tables, files: Files, ps: seq<string>, p: string)
    requires Lists(ps, files) && p in files && files[p].content.Some?
    ensures At(Synced(t, files, ps).chunks, p) == NoteRows(p, files[p].content.value) <==>
              (p in t.sources && t.sources[p].fingerprint == files[p].version ==>
                 At(t.chunks, p) == NoteRows(p, files[p].content.value))
  {
    hide NoteRows, Synced;
    SyncedChunks(t, files, ps, p);
  }

  /** An instance: the note is indexed, its text replaced under the same fingerprint, and synced. */
  lemma ReusedFingerprintHidesAnEdit(p: string, before: string, after: string)
    requires NoteRows(p, before) != NoteRows(p, after)
    ensures var indexed := Synced(EMPTY, map[p := File(0, Some(before))], [p]);
      var files := map[p := File(0, Some(after))];
      && ChunksTrusted(map[p := File(0, Some(before))], indexed)
      && Synced(indexed, files, [p]) == indexed && UpToDate(files, indexed, p) && !ChunksMatch(files, indexed, p)
  {
    hide NoteRows, Synced;
    var indexed := Synced(EMPTY, map[p := File(0, Some(before))], [p]);
    SyncedOne(EMPTY, map[p := File(0, Some(before))], p);
    assert indexed.sources == map[p := Source(0, None)];
    assert At(indexed.chunks, p) == NoteRows(p, before);
    SyncedOne(indexed, map[p := File(0, Some(after))], p);
  }

  function EmbedOne(t: Tables, files: Files, vectorOf: string -> Vector, p: string): Tables {
    if p !in files || files[p].content.None? then t
    else Stored(t, p, files[p].version, WithVectors(NoteRows(p, files[p].content.value), vectorOf))
  }

  function EmbedAll(t: Tables, files: Files, vectorOf: string -> Vector, ps: seq<string>): Tables {
    if ps == [] then t
    else EmbedOne(EmbedAll(t, files, vectorOf, ps[..|ps| - 1]), files, vectorOf, ps[|ps| - 1])
  }

  /** The rows, each with what the model computes for its body. */
  ghost predicate HasVectors(rows: seq<Row>, vectorOf: string -> Vector, stored: seq<Embedded>) {
    |stored| == |rows| && forall i | 0 <= i < |rows| :: stored[i].row == rows[i] && stored[i].vector == vectorOf(rows[i].body)
  }

  /**
   * What embedding some notes makes of any path: a readable note among them has the vectors of its rows and, if it has
   * a source row, the stamp of its fingerprint; other notes stay as they were; no chunk row changes.
   */
  lemma {:induction false} EmbeddedAt(t: Tables, files: Files, vectorOf: string -> Vector, ps: seq<string>, p: string)
    ensures var u := EmbedAll(t, files, vectorOf, ps);
      && u.chunks == t.chunks && u.sources.Keys == t.sources.Keys
      && (p in ps && p in files && files[p].content.Some? ==>
            && HasVectors(NoteRows(p, files[p].content.value), vectorOf, At(u.embeddings, p))
            && (p in t.sources ==> u.sources[p] == Source(t.sources[p].fingerprint, Some(files[p].version))))
      && (!(p in ps && p in files && files[p].content.Some?) ==>
            At(u.embeddings, p) == At(t.embeddings, p) && (p in t.sources ==> u.sources[p] == t.sources[p]))
  {
    hide NoteRows;
    if ps != [] {
      var n := |ps| - 1;
      EmbeddedAt(t, files, vectorOf, ps[..n], p);
      EmbedOneAt(EmbedAll(t, files, vectorOf, ps[..n]), files, vectorOf, ps[n], p);
      assert p in ps <==> p in ps[..n] || p == ps[n];
    }
  }

  lemma EmbedOneAt(t: Tables, files: Files, vectorOf: string -> Vector, q: string, p: string)
    ensures var u := EmbedOne(t, files, vectorOf, q);
      && u.chunks == t.chunks && u.sources.Keys == t.sources.Keys
      && (p == q && p in files && files[p].content.Some? ==>
            && HasVectors(NoteRows(p, files[p].content.value), vectorOf, At(u.embeddings, p))
            && (p in t.sources ==> u.sources[p] == Source(t.sources[p].fingerprint, Some(files[p].version))))
      && (!(p == q && p in files && files[p].content.Some?) ==>
            At(u.embeddings, p) == At(t.embeddings, p) && (p in t.sources ==> u.sources[p] == t.sources[p]))
  {
    hide NoteRows;
  }

  /** Every note of the vault is readable and every source row is up to date, as after a sync. */
  ghost predicate InStep(files: Files, t: Tables) {
    Readable(files) && forall p | p in t.sources :: UpToDate(files, t, p)
  }

  lemma SyncedIsInStep(t: Tables, clock: nat, files: Files, ps: seq<string>)
    requires Lists(ps, files) && Readable(files) && Bounded(clock, t) && ChunksTrusted(files, t)
    ensures InStep(files, Synced(t, files, ps))
  {
    hide NoteRows, Synced;
    forall p | p in Synced(t, files, ps).sources ensures UpToDate(files, Synced(t, files, ps), p) {
      SyncedAt(t, clock, files, ps, p);
    }
  }

  lemma EmbedOneSettles(t: Tables, files: Files, vectorOf: string -> Vector, p: string)
    requires InStep(files, t) && p in t.sources
    ensures InStep(files, EmbedOne(t, files, vectorOf, p))
    ensures Pending(EmbedOne(t, files, vectorOf, p)) == Pending(t) - {p}
    ensures EmbedOne(t, files, vectorOf, p).sources.Keys == t.sources.Keys
  {
    hide NoteRows, WithVectors;
    assert UpToDate(files, t, p);
    var u := EmbedOne(t, files, vectorOf, p);
    forall q | q in u.sources ensures UpToDate(files, u, q) {
      assert UpToDate(files, t, q);
    }
  }

  /** Embedding removes from the pending notes exactly those it got to. */
  lemma {:induction false} EmbeddingSettles(t: Tables, files: Files, vectorOf: string -> Vector, ps: seq<string>)
    requires InStep(files, t) && forall p | p in ps :: p in t.sources
    ensures InStep(files, EmbedAll(t, files, vectorOf, ps))
    ensures Pending(EmbedAll(t, files, vectorOf, ps)) == Pending(t) - set p | p in ps
    ensures EmbedAll(t, files, vectorOf, ps).sources.Keys == t.sources.Keys
  {
    hide EmbedOne, Pending, InStep;
    if ps != [] {
      var n := |ps| - 1;
      EmbeddingSettles(t, files, vectorOf, ps[..n]);
      assert (set p | p in ps) == (set p | p in ps[..n]) + {ps[n]};
      EmbedOneSettles(EmbedAll(t, files, vectorOf, ps[..n]), files, vectorOf, ps[n]);
    }
  }
}
