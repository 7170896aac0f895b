/**
 * The vault index at work (engine/src/search/index.rs): syncing and embedding notes that other
 * programs may edit between any two reads, with database statements that may fail.
 */
module VaultIndex {
  import opened Domain
  import opened MarkdownChunker
  import opened VaultTables

  /** The notes under the vault root. While `quiet`, nobody else touches the vault or the index. */
  class Vault {
    var files: Files
    var clock: nat
    var quiet: bool

    constructor (files: Files, clock: nat, quiet: bool)
      requires Stamped(files, clock)
      ensures this.files == files && this.clock == clock && this.quiet == quiet
    {
      this.files, this.clock, this.quiet := files, clock, quiet;
    }

    ghost predicate Valid()
      reads this
    {
      Stamped(files, clock)
    }

    /** Whatever other programs do to the notes; every write takes the next version. */
    method Drift()
      requires Valid()
      modifies this`files, this`clock
      ensures Evolved(old(files), old(clock), files, clock)
      ensures quiet ==> clock == old(clock)
    {
      var edits: nat := *;
      while !quiet && edits > 0
        invariant Evolved(old(files), old(clock), files, clock)
        invariant quiet ==> clock == old(clock)
      {
        var path: string := *;
        var content: Option<string> := *;
        var removed: bool := *;
        if removed {
          files := files - {path};
        } else {
          files := files[path := File(clock, content)];
        }
        clock := clock + 1;
        edits := edits - 1;
      }
    }

    /** `fingerprint`: None when the note is gone by now. */
    method Fingerprint(path: string) returns (fp: Option<nat>)
      requires Valid()
      modifies this`files, this`clock
      ensures Evolved(old(files), old(clock), files, clock)
      ensures quiet ==> clock == old(clock)
      ensures fp == if path in files then Some(files[path].version) else None
    {
      Drift();
      fp := if path in files then Some(files[path].version) else None;
    }

    /** `read_to_string`: None when the note is gone by now or is not readable text. */
    method Read(path: string) returns (content: Option<string>)
      requires Valid()
      modifies this`files, this`clock
      ensures Evolved(old(files), old(clock), files, clock)
      ensures quiet ==> clock == old(clock)
      ensures content == if path in files then files[path].content else None
    {
      Drift();
      content := if path in files then files[path].content else None;
    }

    /**
     * `collect_markdown`: a walk that sees each note at most once, and every note when undisturbed.
     * Directories it cannot read are passed over in silence.
     */
    method CollectMarkdown() returns (paths: seq<string>)
      requires Valid()
      modifies this`files, this`clock
      ensures Evolved(old(files), old(clock), files, clock)
      ensures quiet ==> clock == old(clock)
      ensures Distinct(paths)
      ensures quiet ==> Lists(paths, files)
    {
      Drift();
      var missed: set<string> := *;
      var left := if quiet then files.Keys else files.Keys - missed;
      ghost var seen := left;
      paths := [];
      while left != {}
        invariant left <= seen && Distinct(paths)
        invariant forall p :: p in paths <==> p in seen && p !in left
        decreases left
      {
        var p :| p in left;
        paths := paths + [p];
        left := left - {p};
      }
    }
  }

  datatype SyncStats = SyncStats(added: nat, updated: nat, removed: nat, same: nat)

  function Counted(stats: SyncStats, o: Outcome): SyncStats {
    match o
    case Added => stats.(added := stats.added + 1)
    case Updated => stats.(updated := stats.updated + 1)
    case Unchanged => stats.(same := stats.same + 1)
    case Skipped => stats
  }

  function StatsOf(t: Tables, files: Files, ps: seq<string>, removed: nat): SyncStats {
    SyncStats(Tally(t, files, ps, Added), Tally(t, files, ps, Updated), removed, Tally(t, files, ps, Unchanged))
  }

  datatype Step = Done | Missing | Halted | Broken

  /** The embedding model. It may be down; only when `exact` does it never miscount. */
  class Embedder {
    const vectorOf: string -> Vector
    const up: bool
    const exact: bool

    constructor (vectorOf: string -> Vector, up: bool, exact: bool)
      ensures this.vectorOf == vectorOf && this.up == up && this.exact == exact
    {
      this.vectorOf, this.up, this.exact := vectorOf, up, exact;
    }

    method Embed(inputs: seq<string>) returns (r: Option<seq<Vector>>)
      ensures up ==> r.Some?
      ensures r.Some? && (exact || |r.value| == |inputs|) ==>
                |r.value| == |inputs| && forall i | 0 <= i < |inputs| :: r.value[i] == vectorOf(inputs[i])
    {
      var answers: bool := *;
      if !up && !answers {
        return None;
      }
      var counts: bool := *;
      var wrong: seq<Vector> := *;
      if !exact && !counts && |wrong| != |inputs| {
        return Some(wrong);
      }
      r := Some(seq(|inputs|, i requires 0 <= i < |inputs| => vectorOf(inputs[i])));
    }
  }

  function Bodies(rows: seq<Row>): (r: seq<string>)
    ensures |r| == |rows|
  {
    seq(|rows|, i requires 0 <= i < |rows| => rows[i].body)
  }

  function Zip(rows: seq<Row>, vectors: seq<Vector>): (r: seq<Embedded>)
    requires |rows| == |vectors|
    ensures |r| == |rows|
  {
    seq(|rows|, i requires 0 <= i < |rows| => Embedded(rows[i], vectors[i]))
  }

  method NoteTitle(path: string, content: string) returns (title: string)
    ensures title == TitleOf(path, content)
  {
    var heading := FindHeading(content);
    title := heading.GetOr(FileStem(path));
  }

  /** The known paths that a pass did not see. */
  function Unseen(known: map<string, nat>, paths: seq<string>): set<string> {
    known.Keys - set p | p in paths
  }

  lemma UnseenIsGone(t: Tables, known: map<string, nat>)
    requires known == Fingerprints(t)
    ensures forall paths :: Unseen(known, paths) == Gone(t, paths)
  {
  }

  class SearchIndex {
    var sources: map<string, Source>
    var chunks: map<string, seq<Row>>
    var embeddings: map<string, seq<Embedded>>
    /** The notes whose vectors a stopped store has spoilt, and no store completed since. */
    ghost var torn: set<string>
    /** What the configured embedding model computes for a text. */
    const vectorOf: string -> Vector
    /** Stores of vectors that begin also end. */
    const sturdy: bool
    /** No statement fails at all. */
    const healthy: bool

    constructor (vectorOf: string -> Vector, sturdy: bool, healthy: bool)
      ensures Db() == EMPTY && torn == {} && this.vectorOf == vectorOf && this.sturdy == (sturdy || healthy)
      ensures this.healthy == healthy
    {
      sources, chunks, embeddings, torn := map[], map[], map[], {};
      this.vectorOf, this.sturdy, this.healthy := vectorOf, sturdy || healthy, healthy;
    }

    ghost function Db(): Tables
      reads this
    {
      Tables(sources, chunks, embeddings)
    }

    /**
     * The whole invariant: fingerprints vouch for chunk rows, embedded fingerprints for the vectors of
     * every note that is not torn, and nothing is torn unless stores may stop.
     */
    ghost predicate Trusted(vault: Vault)
      reads this, vault
    {
      && Stamped(vault.files, vault.clock) && Bounded(vault.clock, Db())
      && ChunksTrusted(vault.files, Db()) && VectorsTrustedExcept(vault.files, Db(), vectorOf, torn)
      && (sturdy ==> torn == {}) && (healthy ==> sturdy)
    }

    // ----- Statements -----

    method DeleteChunks(path: string) returns (ok: bool)
      modifies this`chunks
      ensures chunks == if ok then old(chunks) - {path} else old(chunks)
      ensures healthy ==> ok
    {
      ok := *;
      ok := ok || healthy;
      if ok {
        chunks := chunks - {path};
      }
    }

    method InsertChunk(path: string, row: Row) returns (ok: bool)
      modifies this`chunks
      ensures chunks == if ok then old(chunks)[path := At(old(chunks), path) + [row]] else old(chunks)
      ensures healthy ==> ok
    {
      ok := *;
      ok := ok || healthy;
      if ok {
        chunks := chunks[path := At(chunks, path) + [row]];
      }
    }

    method UpsertSource(path: string, fp: nat) returns (ok: bool)
      modifies this`sources
      ensures Db() == if ok then Upserted(old(Db()), path, fp) else old(Db())
      ensures healthy ==> ok
    {
      ok := *;
      ok := ok || healthy;
      if ok {
        sources := sources[path := Source(fp, if path in sources then sources[path].embedded else None)];
      }
    }

    /** Taken as one step; the source runs its three deletes one after the other. */
    method DeleteSource(path: string) returns (ok: bool)
      modifies this`sources, this`chunks, this`embeddings
      ensures Db() == if ok then Deleted(old(Db()), {path}) else old(Db())
      ensures healthy ==> ok
    {
      ok := *;
      ok := ok || healthy;
      if ok {
        chunks := chunks - {path};
        embeddings := embeddings - {path};
        sources := sources - {path};
      }
    }

    // ----- Indexing -----

    /** Replaces the chunk rows of a note; may stop after any statement, leaving some `rows`. */
    method IndexFile(path: string, content: string) returns (ok: bool, ghost rows: seq<Row>)
      requires path in chunks ==> chunks[path] != []
      modifies this`chunks
      ensures Db() == Rewritten(old(Db()), path, rows)
      ensures (ok ==> rows == NoteRows(path, content)) && (healthy ==> ok)
    {
      hide TitleOf, ChunksOf;
      rows := At(chunks, path);
      assert Put(chunks, path, rows) == chunks;
      ok := DeleteChunks(path);
      if !ok {
        return;
      }
      rows := [];
      var title := NoteTitle(path, content);
      var parts := ChunkMarkdown(content, DEFAULT_CHUNK_CHARS);
      for i := 0 to |parts|
        invariant |rows| == i
        invariant forall k | 0 <= k < i :: rows[k] == Row(title, parts[k].startLine, parts[k].endLine, parts[k].text)
        invariant chunks == Put(old(chunks), path, rows) && ok
      {
        var row := Row(title, parts[i].startLine, parts[i].endLine, parts[i].text);
        ok := InsertChunk(path, row);
        if !ok {
          return;
        }
        rows := rows + [row];
      }
      assert rows == NoteRows(path, content);
    }

    /** One listed note of a sync pass: fingerprint first, content after. */
    method SyncNote(vault: Vault, path: string, known: map<string, nat>) returns (ok: bool, outcome: Outcome)
      requires Trusted(vault)
      requires path in known <==> path in sources
      requires path in known ==> known[path] == sources[path].fingerprint
      modifies this`sources, this`chunks, vault`files, vault`clock
      ensures Trusted(vault)
      ensures Evolved(old(vault.files), old(vault.clock), vault.files, vault.clock)
      ensures forall q | q != path :: (q in sources <==> q in old(sources))
                && (q in sources ==> sources[q] == old(sources)[q])
      ensures vault.quiet ==> vault.clock == old(vault.clock)
      ensures vault.quiet && ok ==>
                Db() == SyncOne(old(Db()), vault.files, path) && outcome == Decide(old(Db()), vault.files, path)
      ensures healthy ==> ok
    {
      hide NoteRows, WithVectors;
      ok, outcome := true, Skipped;
      var fp := vault.Fingerprint(path);
      EditsKeepTrust(old(vault.files), old(vault.clock), vault.files, vault.clock, Db(), vectorOf, torn);
      if fp.None? {
        return;
      }
      if path in known && known[path] == fp.value {
        outcome := Unchanged;
        return;
      }
      assert Outdated(vault.files, Db(), path);
      ghost var files1, clock1 := vault.files, vault.clock;
      var content := vault.Read(path);
      EditsKeepTrust(files1, clock1, vault.files, vault.clock, Db(), vectorOf, torn);
      EditsKeepOutdated(files1, clock1, vault.files, vault.clock, Db(), path);
      EvolvedTransitive(old(vault.files), old(vault.clock), files1, clock1, vault.files, vault.clock);
      if content.None? {
        return;
      }
      var existed := path in known;
      ghost var t := Db();
      ok := WriteNote(vault, path, fp.value, content.value);
      outcome := if existed then Updated else Added;
    }

    /** The statements for one changed note. Stopping anywhere keeps the invariant. */
    method WriteNote(vault: Vault, path: string, fp: nat, content: string) returns (ok: bool)
      requires Trusted(vault) && Outdated(vault.files, Db(), path)
      requires Prepared(vault.files, vault.clock, path, fp, content)
      modifies this`sources, this`chunks
      ensures Trusted(vault)
      ensures forall q | q != path :: (q in sources <==> q in old(sources))
                && (q in sources ==> sources[q] == old(sources)[q])
      ensures (ok ==> Db() == Indexed(old(Db()), path, fp, content)) && (healthy ==> ok)
    {
      hide NoteRows, WithVectors;
      ghost var t := Db();
      ghost var rows;
      ok, rows := IndexFile(path, content);
      RewritingKeepsTrust(vault.files, vault.clock, t, vectorOf, torn, path, rows);
      if !ok {
        return;
      }
      ok := UpsertSource(path, fp);
      IndexingKeepsTrust(vault.files, vault.clock, t, vectorOf, torn, path, fp, content);
    }

    /** The fingerprints recorded when a pass starts. */
    method Known() returns (known: map<string, nat>)
      ensures known == Fingerprints(Db())
    {
      known := map p | p in sources :: sources[p].fingerprint;
    }

    /** The first part of a pass: every listed note in turn. */
    method SyncNotes(vault: Vault, paths: seq<string>, known: map<string, nat>) returns (ok: bool, stats: SyncStats)
      requires Trusted(vault) && Distinct(paths) && known == Fingerprints(Db())
      modifies this`sources, this`chunks, vault`files, vault`clock
      ensures Trusted(vault)
      ensures Evolved(old(vault.files), old(vault.clock), vault.files, vault.clock)
      ensures vault.quiet ==> vault.clock == old(vault.clock)
      ensures vault.quiet && ok ==>
                Db() == SyncAll(old(Db()), vault.files, paths) && stats == StatsOf(old(Db()), vault.files, paths, 0)
      ensures healthy ==> ok
    {
      StampedNow(vault);
      hide Trusted, SyncAll, SyncOne, Decide, Distinct, Evolved, StatsOf, Counted;
      ok, stats := true, SyncStats(0, 0, 0, 0);
      ghost var t := Db();
      SyncStart(t, vault.files, paths);
      for i := 0 to |paths|
        invariant Trusted(vault)
        invariant Evolved(old(vault.files), old(vault.clock), vault.files, vault.clock)
        invariant vault.quiet ==> vault.clock == old(vault.clock) && vault.files == old(vault.files)
        invariant SameExcept(sources, t.sources, paths[..i]) && ok
        invariant vault.quiet ==>
            Db() == SyncAll(t, vault.files, paths[..i]) && stats == StatsOf(t, vault.files, paths[..i], 0)
      {
        ghost var u, files0, clock0 := Db(), vault.files, vault.clock;
        NotYet(sources, t.sources, paths, i);
        var outcome;
        ok, outcome := SyncNote(vault, paths[i], known);
        EvolvedTransitive(old(vault.files), old(vault.clock), files0, clock0, vault.files, vault.clock);
        NothingEvolved(files0, clock0, vault.files, vault.clock);
        if !ok {
          return;
        }
        SameExceptStep(u.sources, sources, t.sources, paths, i);
        if vault.quiet {
          SyncStep(t, vault.files, paths, i, u, stats, outcome);
        }
        stats := Counted(stats, outcome);
      }
      assert paths[..|paths|] == paths;
    }

    lemma StampedNow(vault: Vault)
      requires Trusted(vault)
      ensures Evolved(vault.files, vault.clock, vault.files, vault.clock) && vault.Valid()
    {
    }

    /** The notes there are, while the files may be edited. */
    method Listing(vault: Vault) returns (paths: seq<string>)
      requires Trusted(vault)
      modifies vault`files, vault`clock
      ensures Trusted(vault) && Distinct(paths)
      ensures Evolved(old(vault.files), old(vault.clock), vault.files, vault.clock)
      ensures vault.quiet ==> vault.clock == old(vault.clock) && vault.files == old(vault.files) && Lists(paths, vault.files)
    {
      hide Evolved, Lists, Distinct, Bounded, ChunksTrusted, VectorsTrustedExcept, Stamped;
      StampedNow(vault);
      paths := vault.CollectMarkdown();
      EvolvedIsStamped(old(vault.files), old(vault.clock), vault.files, vault.clock);
      EditsKeepTrust(old(vault.files), old(vault.clock), vault.files, vault.clock, Db(), vectorOf, torn);
      NothingEvolved(old(vault.files), old(vault.clock), vault.files, vault.clock);
    }

    /**
     * One pass. Whatever is edited meanwhile and wherever it stops, the invariant holds after it; left
     * alone and not stopped, it does exactly `Synced` and counts exactly what it did.
     */
    method SyncVault(vault: Vault) returns (r: Result<SyncStats, string>, ghost ps: seq<string>)
      requires Trusted(vault)
      modifies this`sources, this`chunks, this`embeddings, vault`files, vault`clock
      ensures Trusted(vault)
      ensures Evolved(old(vault.files), old(vault.clock), vault.files, vault.clock)
      ensures vault.quiet ==> vault.clock == old(vault.clock) && vault.files == old(vault.files) && Lists(ps, vault.files)
      ensures vault.quiet && r.Ok? ==>
                && Db() == Synced(old(Db()), vault.files, ps)
                && r.value == StatsOf(old(Db()), vault.files, ps, |Gone(old(Db()), ps)|)
      ensures healthy ==> r.Ok?
    {
      StampedNow(vault);
      hide Trusted, SyncAll, Lists, Distinct, Evolved, Deleted, Tally, Unseen, Gone;
      UnseenIsGone(Db(), Fingerprints(Db()));
      var paths := Listing(vault);
      ps := paths;
      ghost var files1, clock1 := vault.files, vault.clock;
      var known := Known();
      var ok, stats := SyncNotes(vault, paths, known);
      EvolvedTransitive(old(vault.files), old(vault.clock), files1, clock1, vault.files, vault.clock);
      NothingEvolved(files1, clock1, vault.files, vault.clock);
      if !ok {
        r := Err("index");
        return;
      }
      r := Prune(vault, Unseen(known, paths), stats);
    }

    // ----- Embedding -----

    method PendingPaths() returns (paths: seq<string>)
      ensures Distinct(paths) && forall p :: p in paths <==> p in Pending(Db())
    {
      var left := set p | p in sources && sources[p].embedded != Some(sources[p].fingerprint);
      paths := [];
      while left != {}
        invariant left <= Pending(Db()) && Distinct(paths)
        invariant forall p :: p in paths <==> p in Pending(Db()) && p !in left
        decreases left
      {
        var p :| p in left;
        paths := paths + [p];
        left := left - {p};
      }
    }

    /**
     * Replaces the vectors of a note and stamps it; may stop after any statement. What `content` the
     * rows were made of may have been read long ago.
     */
    method StoreEmbeddings(vault: Vault, path: string, fp: nat, rows: seq<Embedded>, ghost content: string)
      returns (ok: bool, ghost n: nat)
      requires Trusted(vault) && Prepared(vault.files, vault.clock, path, fp, content)
      requires rows == WithVectors(NoteRows(path, content), vectorOf)
      modifies this`sources, this`embeddings, this`torn
      ensures Trusted(vault) && n <= |rows|
      ensures ok ==> Db() == Stored(old(Db()), path, fp, rows) && torn == old(torn) - {path}
      ensures !ok ==>
                || (Db() == old(Db()) && torn == old(torn))
                || (Db() == Torn(old(Db()), path, rows, n)
                    && torn == TornAfter(vault.files, old(Db()), vectorOf, old(torn), path, rows[..n]))
      ensures healthy ==> ok
    {
      hide Bounded, ChunksTrusted, VectorsTrustedExcept, NoteRows, WithVectors, Stored, Torn, TornAfter, Prepared;
      ghost var t, torn0 := Db(), torn;
      ok, n := Replace(path, fp, rows);
      if ok {
        StoringKeepsTrust(vault.files, vault.clock, t, vectorOf, torn0, path, fp, content);
        torn := torn - {path};
      } else if Db() != t {
        TearingKeepsTheRest(vault.files, vault.clock, t, vectorOf, torn0, path, rows, n);
        torn := TornAfter(vault.files, t, vectorOf, torn0, path, rows[..n]);
      }
    }

    /** The statements of a store. */
    method Replace(path: string, fp: nat, rows: seq<Embedded>) returns (ok: bool, ghost n: nat)
      modifies this`sources, this`embeddings
      ensures n <= |rows|
      ensures ok ==> Db() == Stored(old(Db()), path, fp, rows)
      ensures !ok ==> Db() == old(Db()) || (!sturdy && Db() == Torn(old(Db()), path, rows, n))
      ensures healthy ==> ok
    {
      n := 0;
      ok := *;
      if !ok && !healthy {
        return;
      }
      embeddings := embeddings - {path};
      for i := 0 to |rows|
        invariant n == i && sources == old(sources)
        invariant embeddings == Put(old(embeddings), path, rows[..i])
      {
        ok := *;
        ok := ok || sturdy || healthy;
        if !ok {
          return;
        }
        embeddings := embeddings[path := At(embeddings, path) + [rows[i]]];
        n := n + 1;
        assert rows[..i + 1] == rows[..i] + [rows[i]];
      }
      assert rows[..|rows|] == rows;
      ok := *;
      ok := ok || sturdy || healthy;
      if ok && path in sources {
        sources := sources[path := sources[path].(embedded := Some(fp))];
      }
    }

    /**
     * What the rest of the program may do between two steps of an embedding pass: edits, whole or
     * stopped sync passes, and whole or stopped stores of notes another pass has prepared at any
     * earlier time.
     */
    method Meanwhile(vault: Vault)
      requires Trusted(vault)
      modifies this`sources, this`chunks, this`embeddings, this`torn, vault`files, vault`clock
      ensures Trusted(vault)
      ensures Evolved(old(vault.files), old(vault.clock), vault.files, vault.clock)
      ensures vault.quiet ==> vault.clock == old(vault.clock) && Db() == old(Db()) && torn == old(torn)
    {
      StampedNow(vault);
      hide NoteRows, WithVectors, Trusted, Evolved;
      var steps: nat := *;
      while !vault.quiet && steps > 0
        invariant Trusted(vault)
        invariant Evolved(old(vault.files), old(vault.clock), vault.files, vault.clock)
        invariant vault.quiet ==> vault.clock == old(vault.clock) && Db() == old(Db()) && torn == old(torn)
      {
        ghost var files0, clock0 := vault.files, vault.clock;
        StampedNow(vault);
        var sync: bool := *;
        if sync {
          var _, _ := SyncVault(vault);
        } else {
          var path: string, fp: nat, content: string := *, *, *;
          OtherStore(vault, path, fp, content);
        }
        EvolvedTransitive(old(vault.files), old(vault.clock), files0, clock0, vault.files, vault.clock);
        steps := steps - 1;
      }
    }

    /** Another pass stores what it prepared, after some edits. */
    method OtherStore(vault: Vault, path: string, fp: nat, content: string)
      requires Trusted(vault)
      modifies this`sources, this`embeddings, this`torn, vault`files, vault`clock
      ensures Trusted(vault)
      ensures Evolved(old(vault.files), old(vault.clock), vault.files, vault.clock)
    {
      hide NoteRows, WithVectors;
      vault.Drift();
      EditsKeepTrust(old(vault.files), old(vault.clock), vault.files, vault.clock, Db(), vectorOf, torn);
      if fp < vault.clock
        && (path in vault.files && vault.files[path].version == fp ==> vault.files[path].content == Some(content)) {
        var _, _ := StoreEmbeddings(vault, path, fp, WithVectors(NoteRows(path, content), vectorOf), content);
      }
    }

    /** `read_and_chunk`: fingerprint first, content after. */
    method ReadAndChunk(vault: Vault, path: string) returns (r: Option<(nat, seq<Row>)>, ghost content: string)
      requires Trusted(vault)
      modifies this`sources, this`chunks, this`embeddings, this`torn, vault`files, vault`clock
      ensures Trusted(vault)
      ensures Evolved(old(vault.files), old(vault.clock), vault.files, vault.clock)
      ensures r.Some? ==>
                Prepared(vault.files, vault.clock, path, r.value.0, content) && r.value.1 == NoteRows(path, content)
      ensures vault.quiet ==> vault.clock == old(vault.clock) && Db() == old(Db()) && torn == old(torn)
      ensures vault.quiet && r.Some? ==>
                path in vault.files && vault.files[path] == File(r.value.0, Some(content))
      ensures vault.quiet && r.None? ==> path !in vault.files || vault.files[path].content.None?
    {
      hide NoteRows, WithVectors;
      content := "";
      var fp := vault.Fingerprint(path);
      EditsKeepTrust(old(vault.files), old(vault.clock), vault.files, vault.clock, Db(), vectorOf, torn);
      if fp.None? {
        return None, "";
      }
      ghost var files1, clock1 := vault.files, vault.clock;
      Meanwhile(vault);
      ghost var files2, clock2 := vault.files, vault.clock;
      var text := vault.Read(path);
      EditsKeepTrust(files2, clock2, vault.files, vault.clock, Db(), vectorOf, torn);
      EvolvedTransitive(files1, clock1, files2, clock2, vault.files, vault.clock);
      EvolvedTransitive(old(vault.files), old(vault.clock), files1, clock1, vault.files, vault.clock);
      if text.None? {
        return None, "";
      }
      content := text.value;
      var rows := MakeRows(path, text.value);
      r := Some((fp.value, rows));
    }

    method MakeRows(path: string, content: string) returns (rows: seq<Row>)
      ensures rows == NoteRows(path, content)
    {
      hide TitleOf, ChunksOf;
      var title := NoteTitle(path, content);
      var parts := ChunkMarkdown(content, DEFAULT_CHUNK_CHARS);
      rows := seq(|parts|, i requires 0 <= i < |parts| => Row(title, parts[i].startLine, parts[i].endLine, parts[i].text));
    }

    /** One pending note of an embedding pass, with everything else going on at every await. */
    method EmbedNote(vault: Vault, embedder: Embedder, path: string) returns (step: Step)
      requires Trusted(vault) && embedder.vectorOf == vectorOf
      modifies this`sources, this`chunks, this`embeddings, this`torn, vault`files, vault`clock
      ensures Trusted(vault)
      ensures Evolved(old(vault.files), old(vault.clock), vault.files, vault.clock)
      ensures vault.quiet ==> vault.clock == old(vault.clock)
      ensures step == Done ==> path !in torn
      ensures vault.quiet ==> torn <= old(torn) + if step == Broken then {path} else {}
      ensures vault.quiet && embedder.exact && step in {Done, Missing} ==>
                Db() == EmbedOne(old(Db()), vault.files, vectorOf, path)
      ensures vault.quiet && step == Missing && embedder.exact ==> path !in vault.files || vault.files[path].content.None?
      ensures step == Halted ==> !embedder.up && (vault.quiet ==> Db() == old(Db()))
      ensures healthy ==> step != Broken
    {
      hide NoteRows, Trusted, Bounded, ChunksTrusted, VectorsTrustedExcept, Stored, Torn, TornAfter, Evolved, Prepared;
      Meanwhile(vault);
      ghost var files0, clock0 := vault.files, vault.clock;
      var prepared;
      ghost var content;
      prepared, content := ReadAndChunk(vault, path);
      EvolvedTransitive(old(vault.files), old(vault.clock), files0, clock0, vault.files, vault.clock);
      NothingEvolved(old(vault.files), old(vault.clock), vault.files, vault.clock);
      if prepared.None? {
        return Missing;
      }
      ghost var files1, clock1 := vault.files, vault.clock;
      var (fp, rows) := prepared.value;
      var response := Some([]);
      if rows != [] {
        response := embedder.Embed(Bodies(rows));
      }
      Meanwhile(vault);
      EditsKeepPrepared(files1, clock1, vault.files, vault.clock, path, fp, content);
      EvolvedTransitive(old(vault.files), old(vault.clock), files1, clock1, vault.files, vault.clock);
      NothingEvolved(files1, clock1, vault.files, vault.clock);
      if response.None? {
        return Halted;
      }
      if |response.value| != |rows| {
        return Missing;
      }
      var stored := Zip(rows, response.value);
      assert stored == WithVectors(rows, vectorOf);
      var ok, _ := StoreEmbeddings(vault, path, fp, stored, content);
      step := if ok then Done else Broken;
    }

    /**
     * One embedding pass. Under any interference and wherever it stops, the invariant holds after it.
     * Left alone, it embeds a prefix of what was pending, all of it when the embedder stays up.
     */
    method EmbedPending(vault: Vault, embedder: Embedder) returns (r: Result<nat, string>, ghost done: seq<string>)
      requires Trusted(vault) && embedder.vectorOf == vectorOf
      modifies this`sources, this`chunks, this`embeddings, this`torn, vault`files, vault`clock
      ensures Trusted(vault)
      ensures Evolved(old(vault.files), old(vault.clock), vault.files, vault.clock)
      ensures vault.quiet ==> vault.files == old(vault.files)
      ensures vault.quiet ==> torn <= old(torn) + if r.Err? then {r.error} else {}
      ensures vault.quiet && embedder.exact && r.Ok? ==>
                && Distinct(done) && (forall p | p in done :: p in Pending(old(Db())))
                && Db() == EmbedAll(old(Db()), vault.files, vectorOf, done)
                && (InStep(vault.files, old(Db())) ==> r.value == |done|)
                && (embedder.up ==> forall p | p in Pending(old(Db())) :: p in done)
      ensures healthy ==> r.Ok?
    {
      StampedNow(vault);
      hide Trusted, Evolved, EmbedAll, EmbedOne, Distinct, InStep;
      var pending := PendingPaths();
      ghost var t := Db();
      var embedded := 0;
      done := [];
      EmbedStart(t, vault.files, vectorOf, pending);
      for i := 0 to |pending|
        invariant Trusted(vault)
        invariant Evolved(old(vault.files), old(vault.clock), vault.files, vault.clock)
        invariant vault.quiet ==> vault.clock == old(vault.clock) && vault.files == old(vault.files) && torn <= old(torn)
        invariant done == pending[..i]
        invariant vault.quiet && embedder.exact ==> Db() == EmbedAll(t, vault.files, vectorOf, done)
        invariant vault.quiet && embedder.exact && InStep(vault.files, t) ==> embedded == i
      {
        ghost var files0, clock0 := vault.files, vault.clock;
        var step := EmbedNote(vault, embedder, pending[i]);
        EvolvedTransitive(old(vault.files), old(vault.clock), files0, clock0, vault.files, vault.clock);
        NothingEvolved(files0, clock0, vault.files, vault.clock);
        if step == Broken {
          r := Err(pending[i]);
          return;
        }
        PrefixIsDistinct(pending, i);
        if step == Halted {
          r := Ok(embedded);
          return;
        }
        if step == Done {
          embedded := embedded + 1;
        }
        InStepIsReadable(vault.files, t, pending[i]);
        EmbedStep(t, vault.files, vectorOf, pending, i);
        done := pending[..i + 1];
      }
      assert pending[..|pending|] == pending;
      r := Ok(embedded);
    }

    /**
     * With the vault to itself, readable notes, and an embedder that works, a sync followed by an
     * embedding pass leaves nothing pending and reports how many notes were.
     */
    method SyncThenEmbed(vault: Vault, embedder: Embedder) returns (r: Result<nat, string>, ghost ps: seq<string>)
      requires Trusted(vault) && embedder.vectorOf == vectorOf
      requires vault.quiet && Readable(vault.files) && embedder.up && embedder.exact
      modifies this`sources, this`chunks, this`embeddings, this`torn, vault`files, vault`clock
      ensures Trusted(vault) && vault.files == old(vault.files) && Lists(ps, vault.files)
      ensures r.Ok? ==> Pending(Db()) == {} && InStep(vault.files, Db())
      ensures r.Ok? ==> r.value == |Pending(Synced(old(Db()), vault.files, ps))|
      ensures r.Ok? ==>
                && sources.Keys == vault.files.Keys
                && forall p | p in vault.files :: vault.files[p].content.Some? && IsComplete(vault, p)
      ensures healthy ==> r.Ok?
    {
      StampedNow(vault);
      hide Trusted, Synced, Pending, InStep, EmbedAll, Lists, Distinct, Evolved, StatsOf, Readable;
      hide Bounded, ChunksTrusted, IsComplete;
      ghost var clock, files, t := vault.clock, vault.files, Db();
      TrustedIs(vault);
      var synced;
      synced, ps := SyncVault(vault);
      if synced.Err? {
        r := Err(synced.error);
        return;
      }
      SyncedIsInStep(t, clock, files, ps);
      ghost var u, done := Db(), [];
      r, done := EmbedPending(vault, embedder);
      if r.Ok? {
        AllSettled(u, vault.files, vectorOf, done);
        AllIndexed(t, clock, files, ps, done);
        AllComplete(vault);
      }
    }

    lemma AllIndexed(t: Tables, clock: nat, files: Files, ps: seq<string>, done: seq<string>)
      requires Lists(ps, files) && Readable(files) && ChunksTrusted(files, t) && Bounded(clock, t)
      ensures EmbedAll(Synced(t, files, ps), files, vectorOf, done).sources.Keys == files.Keys
    {
      hide Synced, EmbedAll, Lists, Readable, ChunksTrusted, Bounded, NoteRows;
      forall p ensures p in EmbedAll(Synced(t, files, ps), files, vectorOf, done).sources <==> p in files {
        SyncedAt(t, clock, files, ps, p);
        EmbeddedAt(Synced(t, files, ps), files, vectorOf, done, p);
      }
    }

    lemma AllComplete(vault: Vault)
      requires Trusted(vault) && InStep(vault.files, Db()) && Pending(Db()) == {} && sources.Keys == vault.files.Keys
      ensures forall p | p in vault.files :: vault.files[p].content.Some? && IsComplete(vault, p)
    {
      hide Trusted, InStep, Pending, IsComplete;
      forall p | p in vault.files ensures vault.files[p].content.Some? && IsComplete(vault, p) { NothingPending(vault, p); }
    }

    /**
     * All that the index should hold of a note: its fingerprint, as indexed and as embedded, the rows of its content,
     * and, unless a stopped store has spoilt them, the vectors of these rows.
     */
    ghost predicate IsComplete(vault: Vault, p: string)
      requires p in vault.files && vault.files[p].content.Some?
      reads this, vault
    {
      var fp, rows := vault.files[p].version, NoteRows(p, vault.files[p].content.value);
      && p in sources && sources[p] == Source(fp, Some(fp)) && At(chunks, p) == rows
      && (p !in torn ==> HasVectors(rows, vectorOf, At(embeddings, p)))
    }

    lemma NothingPending(vault: Vault, p: string)
      requires Trusted(vault) && InStep(vault.files, Db()) && Pending(Db()) == {} && p in sources && p in vault.files
      ensures vault.files[p].content.Some? && IsComplete(vault, p)
    {
      hide NoteRows;
      assert p !in Pending(Db());
      assert UpToDate(vault.files, Db(), p) && EmbeddedNow(vault.files, Db(), p);
    }

    lemma TrustedIs(vault: Vault)
      requires Trusted(vault)
      ensures Bounded(vault.clock, Db()) && ChunksTrusted(vault.files, Db())
    {
    }

    /** Drops every row of the notes that are gone, one note at a time. */
    method Prune(vault: Vault, gone: set<string>, stats0: SyncStats) returns (r: Result<SyncStats, string>)
      requires Trusted(vault)
      modifies this`sources, this`chunks, this`embeddings
      ensures Trusted(vault)
      ensures r.Ok? ==> Db() == Deleted(old(Db()), gone) && r.value == stats0.(removed := stats0.removed + |gone|)
      ensures healthy ==> r.Ok?
    {
      hide NoteRows, WithVectors, ChunksTrusted, VectorsTrustedExcept, Bounded, Deleted;
      var left := gone;
      DeletedNothing(Db());
      assert gone - left == {};
      var stats := stats0;
      while left != {}
        invariant left <= gone && Trusted(vault)
        invariant Db() == Deleted(old(Db()), gone - left)
        invariant stats == stats0.(removed := stats.removed) && stats.removed + |left| == stats0.removed + |gone|
        decreases left
      {
        var key :| key in left;
        ghost var t := Db();
        var ok := DeleteSource(key);
        DeletingKeepsTrust(vault.files, vault.clock, t, vectorOf, torn, {key});
        if !ok {
          r := Err("delete");
          return;
        }
        stats := stats.(removed := stats.removed + 1);
        DeletedMore(old(Db()), gone - left, key);
        assert gone - (left - {key}) == (gone - left) + {key};
        left := left - {key};
      }
      assert gone - left == gone;
      r := Ok(stats);
    }
  }

  /**
   * A whole run from an empty index: any sequence of edits, sync passes and embedding passes, any of
   * which may stop anywhere. The invariant holds between any two of them and at the end. `stopped`
   * are the notes at which an embedding pass of this run stopped.
   */
  method Run(vault: Vault, embedder: Embedder, sturdy: bool, healthy: bool)
    returns (index: SearchIndex, ghost stopped: set<string>)
    requires vault.Valid()
    modifies vault`files, vault`clock
    ensures fresh(index) && index.vectorOf == embedder.vectorOf && index.sturdy == (sturdy || healthy)
    ensures index.Trusted(vault)
    ensures vault.quiet ==> index.torn <= stopped
    ensures sturdy || healthy ==> VectorsTrusted(vault.files, index.Db(), index.vectorOf)
    ensures Evolved(old(vault.files), old(vault.clock), vault.files, vault.clock)
  {
    index := new SearchIndex(embedder.vectorOf, sturdy, healthy);
    stopped := {};
    assert index.Trusted(vault);
    var steps: nat := *;
    while steps > 0
      invariant fresh(index) && index.vectorOf == embedder.vectorOf && index.sturdy == (sturdy || healthy)
      invariant index.Trusted(vault) && (vault.quiet ==> index.torn <= stopped)
      invariant Evolved(old(vault.files), old(vault.clock), vault.files, vault.clock)
    {
      hide Evolved, ChunksTrusted, VectorsTrustedExcept, Bounded;
      ghost var files0, clock0 := vault.files, vault.clock;
      var sync: bool := *;
      if sync {
        var _, _ := index.SyncVault(vault);
      } else {
        var r, _ := index.EmbedPending(vault, embedder);
        stopped := stopped + if r.Err? then {r.error} else {};
      }
      EvolvedTransitive(old(vault.files), old(vault.clock), files0, clock0, vault.files, vault.clock);
      steps := steps - 1;
    }
  }

  /** The two maps agree on everything outside `done`. */
  ghost predicate SameExcept(a: map<string, Source>, b: map<string, Source>, done: seq<string>) {
    forall q | q !in done :: (q in a <==> q in b) && (q in a ==> a[q] == b[q])
  }

  lemma NotYet(a: map<string, Source>, b: map<string, Source>, paths: seq<string>, i: nat)
    requires Distinct(paths) && i < |paths| && SameExcept(a, b, paths[..i])
    ensures (paths[i] in a <==> paths[i] in b) && (paths[i] in a ==> a[paths[i]] == b[paths[i]])
  {
    assert paths[i] !in paths[..i];
  }

  lemma SameExceptStep(a0: map<string, Source>, a: map<string, Source>, b: map<string, Source>, paths: seq<string>, i: nat)
    requires i < |paths| && SameExcept(a0, b, paths[..i])
    requires forall q | q != paths[i] :: (q in a <==> q in a0) && (q in a ==> a[q] == a0[q])
    ensures SameExcept(a, b, paths[..i + 1])
  {
    assert forall q | q !in paths[..i + 1] :: q !in paths[..i] && q != paths[i];
  }

  lemma NothingEvolved(files0: Files, clock0: nat, files: Files, clock: nat)
    requires Evolved(files0, clock0, files, clock)
    ensures clock == clock0 ==> files == files0
  {
  }

  lemma EvolvedIsStamped(files0: Files, clock0: nat, files: Files, clock: nat)
    requires Evolved(files0, clock0, files, clock)
    ensures Stamped(files, clock)
  {
  }

  lemma SyncStart(t: Tables, files: Files, paths: seq<string>)
    ensures paths[..0] == [] && SyncAll(t, files, []) == t && StatsOf(t, files, [], 0) == SyncStats(0, 0, 0, 0)
  {
  }

  lemma SyncStep(t: Tables, files: Files, paths: seq<string>, i: nat, u: Tables, stats: SyncStats, outcome: Outcome)
    requires Distinct(paths) && i < |paths| && u == SyncAll(t, files, paths[..i])
    requires stats == StatsOf(t, files, paths[..i], 0) && outcome == Decide(u, files, paths[i])
    ensures SyncOne(u, files, paths[i]) == SyncAll(t, files, paths[..i + 1])
    ensures Counted(stats, outcome) == StatsOf(t, files, paths[..i + 1], 0)
  {
    hide SyncOne, Decide;
    assert paths[..i + 1][..i] == paths[..i] && paths[..i + 1][i] == paths[i];
    assert paths[i] !in paths[..i];
    DecideEarlier(t, files, paths[..i], paths[i]);
  }

  lemma EmbedStart(t: Tables, files: Files, vectorOf: string -> Vector, pending: seq<string>)
    ensures pending[..0] == [] && EmbedAll(t, files, vectorOf, []) == t
  {
  }

  lemma EmbedStep(t: Tables, files: Files, vectorOf: string -> Vector, pending: seq<string>, i: nat)
    requires i < |pending|
    ensures EmbedAll(t, files, vectorOf, pending[..i + 1])
              == EmbedOne(EmbedAll(t, files, vectorOf, pending[..i]), files, vectorOf, pending[i])
  {
    hide EmbedOne;
    assert pending[..i + 1][..i] == pending[..i];
  }

  lemma PrefixIsDistinct(pending: seq<string>, i: nat)
    requires Distinct(pending) && i <= |pending|
    ensures Distinct(pending[..i])
  {
  }

  lemma InStepIsReadable(files: Files, t: Tables, p: string)
    requires p in Pending(t)
    ensures InStep(files, t) ==> p in files && files[p].content.Some?
  {
    if InStep(files, t) { assert UpToDate(files, t, p); }
  }

  /** Embedding everything that is pending, each note once, leaves nothing pending. */
  lemma AllSettled(t: Tables, files: Files, vectorOf: string -> Vector, done: seq<string>)
    requires InStep(files, t) && Distinct(done)
    requires forall p :: p in done <==> p in Pending(t)
    ensures Pending(EmbedAll(t, files, vectorOf, done)) == {} && |done| == |Pending(t)|
    ensures InStep(files, EmbedAll(t, files, vectorOf, done))
  {
    assert forall p | p in Pending(t) :: p in t.sources;
    hide Distinct, EmbedAll, InStep;
    EmbeddingSettles(t, files, vectorOf, done);
    DistinctCardinality(done);
    assert (set p | p in done) == Pending(t);
  }

  /** What several passes over notes at rest leave, each embedding some of the notes then pending. */
  function Passes(t: Tables, files: Files, vectorOf: string -> Vector, passes: seq<seq<string>>): Tables {
    if passes == [] then t
    else EmbedAll(Passes(t, files, vectorOf, passes[..|passes| - 1]), files, vectorOf, passes[|passes| - 1])
  }

  /**
   * Every note a pass embeds is one fewer pending: passes that each get at least one note done are at
   * most as many as there were pending notes.
   */
  lemma {:induction false} ProgressReachesEmpty(t: Tables, files: Files, vectorOf: string -> Vector,
                                                passes: seq<seq<string>>)
    requires InStep(files, t)
    requires forall k | 0 <= k < |passes| :: passes[k] != [] && Distinct(passes[k]) &&
               forall p | p in passes[k] :: p in Pending(Passes(t, files, vectorOf, passes[..k]))
    ensures InStep(files, Passes(t, files, vectorOf, passes))
    ensures |Pending(Passes(t, files, vectorOf, passes))| + |passes| <= |Pending(t)|
  {
    hide Distinct, EmbedAll, InStep;
    if passes != [] {
      var n := |passes| - 1;
      assert forall k | 0 <= k < n :: passes[..n][..k] == passes[..k];
      ProgressReachesEmpty(t, files, vectorOf, passes[..n]);
      var u, done := Passes(t, files, vectorOf, passes[..n]), passes[n];
      assert forall p | p in done :: p in u.sources;
      EmbeddingSettles(u, files, vectorOf, done);
      DistinctCardinality(done);
      var settled := set p | p in done;
      assert settled <= Pending(u);
      assert |Pending(u) - settled| == |Pending(u)| - |settled|;
    }
  }

  lemma {:induction false} DistinctCardinality(ps: seq<string>)
    requires Distinct(ps)
    ensures |set p | p in ps| == |ps|
  {
    if ps != [] {
      var n := |ps| - 1;
      DistinctCardinality(ps[..n]);
      assert (set p | p in ps) == (set p | p in ps[..n]) + {ps[n]};
      assert ps[n] !in ps[..n];
    } else {
      assert (set p | p in ps) == {};
    }
  }

  lemma DecideEarlier(t: Tables, files: Files, ps: seq<string>, p: string)
    requires Distinct(ps) && p !in ps
    ensures Decide(SyncAll(t, files, ps), files, p) == Decide(t, files, p)
  {
    SyncAllAt(t, files, ps, p);
    SyncOneFromAgreeing(SyncAll(t, files, ps), t, files, p);
  }
}
