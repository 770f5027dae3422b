/**
 * The movie queue (backend/movie_queue.go): rows wait in `movies_queue` and four worker passes
 * move them along the status codes
 *
 *   Pending -> AudioTranscribed -> MovieCreated -> SubtitleCreated -> SubtitleTranslated
 *
 * (audio rows start with a transcription; subtitle rows go from Pending straight to movie
 * creation). `QueueStore` holds the rows and the movie table. Every database step and outside
 * service a pass depends on is a parameter giving its outcome, so that every failure path is
 * reachable.
 */
module MovieQueue {
  import opened Wrappers
  import opened Listing
  import opened Text
  import Movies

  const Pending: int := 0
  const AudioTranscribed: int := 1
  const MovieCreated: int := 2
  const SubtitleCreated: int := 3
  const SubtitleTranslated: int := 4
  const Failed: int := 5

  /** A row of `movies_queue`; `movieId` is `None` while the column is NULL. */
  datatype Row = Row(
    id: int,
    movieId: Option<int>,
    name: string,
    kind: string,
    fileType: string,
    content: string,
    sourceLanguage: string,
    targetLanguages: map<string, string>,
    status: int)

  datatype Request = Request(
    name: string,
    kind: string,
    fileType: string,
    content: string,
    sourceLanguage: string,
    targetLanguages: seq<string>)

  /** A progress notification: its name, the id it carries and the new status. */
  datatype Event = Event(name: string, id: int, status: int)

  datatype QueueError =
    | LanguagesFailed
    | PrepareFailed
    | InsertFailed
    | DeleteFailed
    | CountFailed
    | QueryFailed
    | ScanFailed
    | BeginFailed
    | CreateFailed(reason: Movies.MovieError)
    | ImportFailed
    | TranslateFailed
    | DecodeFailed
    | FileFailed
    | TranscribeFailed
    | UpdateFailed
    | CommitFailed

  datatype QueueResponse = QueueResponse(rows: seq<Row>, pagination: Pagination)

  // ---------------------------------------------------------------------------------------
  // Which rows each pass picks, and what it makes of them

  /** movie_queue.go:534-539 */
  predicate ForTranscription(r: Row)
  {
    r.status == Pending && r.kind == "audio"
  }

  /** movie_queue.go:233-241 */
  predicate ForCreation(r: Row)
  {
    r.movieId.None?
    && ((r.kind == "subtitle" && r.status == Pending) || (r.kind == "audio" && r.status == AudioTranscribed))
  }

  /** movie_queue.go:324-333 */
  predicate ForImport(r: Row)
  {
    r.movieId.Some? && r.movieId.value != 0 && r.status == MovieCreated
  }

  /** movie_queue.go:428-435 */
  predicate ForTranslation(r: Row)
  {
    r.status == SubtitleCreated && r.movieId.Some? && r.movieId.value != 0
  }

  /** movie_queue.go:601-603 */
  function Transcribed(r: Row, transcript: string): Row
  {
    r.(content := transcript, status := AudioTranscribed)
  }

  /** movie_queue.go:284-286 */
  function Created(r: Row, movieId: int): Row
  {
    r.(movieId := Some(movieId), status := MovieCreated)
  }

  /** `UPDATE movies_queue SET status = ? WHERE movie_id = ?` (movie_queue.go:392, 482). */
  function WithStatus(rows: seq<Row>, movieId: int, status: int): seq<Row>
  {
    seq(|rows|, i requires 0 <= i < |rows| =>
      if rows[i].movieId == Some(movieId) then rows[i].(status := status) else rows[i])
  }

  /** A row as a pass leaves it: as it was, or moved to a strictly larger status that is not Failed. */
  predicate Advanced(before: Row, after: Row)
  {
    after == before || (after.id == before.id && before.status < after.status && after.status != Failed)
  }

  /** Every row of `after` is its counterpart in `before`, advanced or left alone. */
  predicate AllAdvanced(before: seq<Row>, after: seq<Row>)
  {
    |after| == |before| && forall i :: 0 <= i < |before| ==> Advanced(before[i], after[i])
  }

  /** No row is picked by two passes. */
  lemma PassesExclusive(r: Row)
    ensures !(ForTranscription(r) && ForCreation(r))
    ensures !(ForCreation(r) && ForImport(r)) && !(ForCreation(r) && ForTranslation(r))
    ensures !(ForImport(r) && ForTranslation(r)) && !(ForTranscription(r) && ForImport(r))
    ensures !(ForTranscription(r) && ForTranslation(r))
  {
  }

  /** Each transition applied to a row its pass picks moves it to a strictly larger status. */
  lemma TransitionsAdvance(r: Row, transcript: string, movieId: int)
    ensures ForTranscription(r) ==> Advanced(r, Transcribed(r, transcript)) && Transcribed(r, transcript).status == AudioTranscribed
    ensures ForCreation(r) ==> Advanced(r, Created(r, movieId)) && Created(r, movieId).status == MovieCreated
    ensures ForImport(r) ==> Advanced(r, r.(status := SubtitleCreated))
    ensures ForTranslation(r) ==> Advanced(r, r.(status := SubtitleTranslated))
  {
  }

  /**
   * As written, the created movie's id is never set (movie.go:32-69 returns no movie), so the
   * row would get movie_id 0: such a row is picked by no pass at all and stays at MovieCreated.
   */
  lemma ZeroMovieIdStuck(r: Row)
    requires ForCreation(r)
    ensures var after := Created(r, 0);
      !ForTranscription(after) && !ForCreation(after) && !ForImport(after) && !ForTranslation(after)
  {
  }

  /** With the id of the inserted movie, which is at least 1, the row is next picked for import. */
  lemma CreatedRowImportable(r: Row, movieId: int)
    requires ForCreation(r) && movieId >= 1
    ensures ForImport(Created(r, movieId))
  {
  }

  // ---------------------------------------------------------------------------------------
  // Target languages (movie_queue.go:158-179)

  /** The name of a language code in the language table, "" for an unknown code (Go's zero value). */
  function LanguageName(langMap: map<string, string>, code: string): string
  {
    if code in langMap then langMap[code] else ""
  }

  function TargetLanguages(codes: seq<string>, langMap: map<string, string>): map<string, string>
  {
    map c | c in codes :: LanguageName(langMap, c)
  }

  /**
   * movie_queue.go:174-179: the stored target map has exactly the requested codes as keys, each
   * with its name in the language table, or "" when the table does not know it.
   */
  lemma TargetLanguagesSpec(codes: seq<string>, langMap: map<string, string>)
    ensures TargetLanguages(codes, langMap).Keys == set c | c in codes
    ensures forall c :: c in codes && c in langMap ==> TargetLanguages(codes, langMap)[c] == langMap[c]
    ensures forall c :: c in codes && c !in langMap ==> TargetLanguages(codes, langMap)[c] == ""
  {
  }

  /** movie_queue.go:174-179: the target map built code by code. */
  method BuildTargetLanguages(codes: seq<string>, langMap: map<string, string>) returns (targets: map<string, string>)
    ensures targets == TargetLanguages(codes, langMap)
  {
    targets := map[];
    var i := 0;
    while i < |codes|
      invariant 0 <= i <= |codes|
      invariant targets == TargetLanguages(codes[..i], langMap)
    {
      assert forall c :: c in codes[..i + 1] <==> c in codes[..i] || c == codes[i];
      targets := targets[codes[i] := LanguageName(langMap, codes[i])];
      i := i + 1;
    }
    assert codes[..i] == codes;
  }

  /** The rows `AddToQueue` inserts for `reqs`, with ids from `firstId` on. */
  function NewRows(reqs: seq<Request>, langMap: map<string, string>, firstId: int): seq<Row>
  {
    if reqs == [] then []
    else NewRows(reqs[..|reqs| - 1], langMap, firstId) + [NewRow(reqs[|reqs| - 1], langMap, firstId + |reqs| - 1)]
  }

  /** The row inserted for one request: Pending, with no movie. */
  function NewRow(r: Request, langMap: map<string, string>, id: int): Row
  {
    Row(id, None, r.name, r.kind, r.fileType, r.content, r.sourceLanguage, TargetLanguages(r.targetLanguages, langMap), Pending)
  }

  /**
   * The invariant of the queue table: ids are positive, increasing and below the next id;
   * statuses lie between Pending and SubtitleTranslated; movie_id is set exactly from
   * MovieCreated on, points below the movie table's next id, and no two rows share one.
   */
  ghost predicate WellFormedRows(rows: seq<Row>, nextId: int, nextMovieId: int)
  {
    && (forall i :: 0 <= i < |rows| ==> 1 <= rows[i].id < nextId)
    && IdsIncreasing(rows)
    && (forall i :: 0 <= i < |rows| ==> Pending <= rows[i].status <= SubtitleTranslated)
    && (forall i :: 0 <= i < |rows| ==> (rows[i].movieId.Some? <==> rows[i].status >= MovieCreated))
    && (forall i :: 0 <= i < |rows| && rows[i].movieId.Some? ==> 1 <= rows[i].movieId.value < nextMovieId)
    && (forall i, j :: 0 <= i < j < |rows| && rows[i].movieId.Some? ==> rows[i].movieId != rows[j].movieId)
  }

  /** The rows left by `DELETE FROM movies_queue WHERE id = ?`. */
  function Without(rows: seq<Row>, id: int): seq<Row>
  {
    if rows == [] then []
    else Without(rows[..|rows| - 1], id) + (if rows[|rows| - 1].id == id then [] else [rows[|rows| - 1]])
  }

  /** Deleting keeps exactly the other rows. */
  lemma {:induction false} WithoutMembers(rows: seq<Row>, id: int)
    ensures forall r :: r in Without(rows, id) <==> r in rows && r.id != id
  {
    if rows != [] {
      WithoutMembers(rows[..|rows| - 1], id);
      assert rows == rows[..|rows| - 1] + [rows[|rows| - 1]];
    }
  }

  /** A row with a larger id and a movie id of its own can be added at the end. */
  lemma WellFormedAppend(rows: seq<Row>, r: Row, nextId: int, nextMovieId: int)
    requires WellFormedRows(rows, nextId, nextMovieId)
    requires 1 <= r.id < nextId && Pending <= r.status <= SubtitleTranslated
    requires r.movieId.Some? <==> r.status >= MovieCreated
    requires r.movieId.Some? ==> 1 <= r.movieId.value < nextMovieId
    requires forall i :: 0 <= i < |rows| ==> rows[i].id < r.id
    requires forall i :: 0 <= i < |rows| && rows[i].movieId.Some? ==> rows[i].movieId != r.movieId
    ensures WellFormedRows(rows + [r], nextId, nextMovieId)
  {
  }

  /** Deleting keeps the table well formed. */
  lemma {:induction false} WithoutWellFormed(rows: seq<Row>, id: int, nextId: int, nextMovieId: int)
    requires WellFormedRows(rows, nextId, nextMovieId)
    ensures WellFormedRows(Without(rows, id), nextId, nextMovieId)
  {
    if rows != [] {
      var init := rows[..|rows| - 1];
      var last := rows[|rows| - 1];
      WithoutWellFormed(init, id, nextId, nextMovieId);
      var w := Without(init, id);
      if last.id != id {
        WithoutMembers(init, id);
        forall i | 0 <= i < |w|
          ensures w[i].id < last.id
          ensures w[i].movieId.Some? ==> w[i].movieId != last.movieId
        {
          assert w[i] in init;
          var k :| 0 <= k < |init| && init[k] == w[i];
          assert rows[k] == w[i];
        }
        WellFormedAppend(w, last, nextId, nextMovieId);
      }
    }
  }

  /** One more inserted request extends `NewRows` by its row. */
  lemma InsertStep(base: seq<Row>, rows: seq<Row>, reqs: seq<Request>, k: nat, langMap: map<string, string>,
                   firstId: int)
    requires k < |reqs|
    requires rows == base + NewRows(reqs[..k], langMap, firstId)
    ensures rows + [NewRow(reqs[k], langMap, firstId + k)] == base + NewRows(reqs[..k + 1], langMap, firstId)
  {
    assert reqs[..k + 1][..k] == reqs[..k];
  }

  /** A Pending row without a movie that takes the next id keeps the table well formed. */
  lemma PendingAppend(rows: seq<Row>, r: Row, nextId: int, nextMovieId: int)
    requires WellFormedRows(rows, nextId, nextMovieId)
    requires r.id == nextId >= 1 && r.status == Pending && r.movieId.None?
    ensures WellFormedRows(rows + [r], nextId + 1, nextMovieId)
  {
    WellFormedAppend(rows, r, nextId + 1, nextMovieId);
  }

  // ---------------------------------------------------------------------------------------
  // What the passes read and write

  /** The ids of `rows` strictly increase, so no two rows share one. */
  predicate IdsIncreasing(rows: seq<Row>)
  {
    forall i, j :: 0 <= i < j < |rows| ==> rows[i].id < rows[j].id
  }

  /** The rows a pass's select returns, in table order. */
  function Picked(rows: seq<Row>, keep: Row -> bool): seq<Row>
  {
    if rows == [] then []
    else Picked(rows[..|rows| - 1], keep) + (if keep(rows[|rows| - 1]) then [rows[|rows| - 1]] else [])
  }

  /** A select returns exactly the rows its condition keeps, and their ids still increase. */
  lemma {:induction false} PickedSpec(rows: seq<Row>, keep: Row -> bool)
    ensures forall r :: r in Picked(rows, keep) <==> r in rows && keep(r)
    ensures IdsIncreasing(rows) ==> IdsIncreasing(Picked(rows, keep))
  {
    if rows != [] {
      var init, last := rows[..|rows| - 1], rows[|rows| - 1];
      PickedSpec(init, keep);
      assert rows == init + [last];
      if IdsIncreasing(rows) {
        var p := Picked(init, keep);
        forall i | 0 <= i < |p|
          ensures p[i].id < last.id
        {
          assert p[i] in init;
          var k :| 0 <= k < |init| && init[k] == p[i];
          assert rows[k] == p[i];
        }
      }
    }
  }

  /** `UPDATE movies_queue SET content = ?, status = ? WHERE id = ?` (movie_queue.go:601-603). */
  function MarkTranscribed(rows: seq<Row>, id: int, transcript: string): seq<Row>
  {
    seq(|rows|, i requires 0 <= i < |rows| => if rows[i].id == id then Transcribed(rows[i], transcript) else rows[i])
  }

  /** `UPDATE movies_queue SET movie_id = ?, status = ? WHERE id = ?` (movie_queue.go:284-286). */
  function MarkCreated(rows: seq<Row>, id: int, movieId: int): seq<Row>
  {
    seq(|rows|, i requires 0 <= i < |rows| => if rows[i].id == id then Created(rows[i], movieId) else rows[i])
  }

  /** The rows after the movies of `picks` were created in turn, the j-th taking movie id `base + j`. */
  function CreationRows(rows: seq<Row>, picks: seq<Row>, base: int): seq<Row>
  {
    if picks == [] then rows
    else MarkCreated(CreationRows(rows, picks[..|picks| - 1], base), picks[|picks| - 1].id, base + |picks| - 1)
  }

  /**
   * The rows after the status of the movie of each of `picks` was set in turn; a NULL movie_id
   * matches nothing.
   */
  function StatusRows(rows: seq<Row>, picks: seq<Row>, status: int): seq<Row>
  {
    if picks == [] then rows
    else
      var before := StatusRows(rows, picks[..|picks| - 1], status);
      var m := picks[|picks| - 1].movieId;
      if m.Some? then WithStatus(before, m.value, status) else before
  }

  /** Some row of `picks` has movie id `m`. */
  predicate Hit(picks: seq<Row>, m: Option<int>)
  {
    m.Some? && exists j :: 0 <= j < |picks| && picks[j].movieId == m
  }

  /** One notification per processed row, carrying the queue id. */
  function RowEvents(name: string, picks: seq<Row>, status: int): seq<Event>
  {
    seq(|picks|, j requires 0 <= j < |picks| => Event(name, picks[j].id, status))
  }

  /** The movie id a row's select scans, 0 for NULL (never picked by a pass that uses it). */
  function MovieIdOf(r: Row): int
  {
    if r.movieId.Some? then r.movieId.value else 0
  }

  /** One notification per processed row, carrying the movie id. */
  function MovieEvents(name: string, picks: seq<Row>, status: int): seq<Event>
  {
    seq(|picks|, j requires 0 <= j < |picks| => Event(name, MovieIdOf(picks[j]), status))
  }

  /** Each of the first |picks| creations sets exactly the row with its id. */
  lemma {:induction false} CreationRowsSpec(rows: seq<Row>, picks: seq<Row>, base: int)
    requires IdsIncreasing(picks)
    ensures |CreationRows(rows, picks, base)| == |rows|
    ensures forall i :: 0 <= i < |rows| ==> CreationRows(rows, picks, base)[i].id == rows[i].id
    ensures forall i, j :: 0 <= i < |rows| && 0 <= j < |picks| && picks[j].id == rows[i].id ==>
      CreationRows(rows, picks, base)[i] == Created(rows[i], base + j)
    ensures forall i :: 0 <= i < |rows| && (forall j :: 0 <= j < |picks| ==> picks[j].id != rows[i].id) ==>
      CreationRows(rows, picks, base)[i] == rows[i]
  {
    if picks != [] {
      var n := |picks| - 1;
      var init := picks[..n];
      CreationRowsSpec(rows, init, base);
      var r := CreationRows(rows, picks, base);
      forall i, j | 0 <= i < |rows| && 0 <= j < |picks| && picks[j].id == rows[i].id
        ensures r[i] == Created(rows[i], base + j)
      {
        if j == n {
          forall j' | 0 <= j' < n ensures init[j'].id != rows[i].id {
            assert init[j'] == picks[j'];
          }
        } else {
          assert init[j] == picks[j];
        }
      }
      forall i | 0 <= i < |rows| && (forall j :: 0 <= j < |picks| ==> picks[j].id != rows[i].id)
        ensures r[i] == rows[i]
      {
        forall j' | 0 <= j' < n ensures init[j'].id != rows[i].id {
          assert init[j'] == picks[j'];
        }
      }
    }
  }

  /** Each status update sets exactly the rows of the picked movies. */
  lemma {:induction false} StatusRowsSpec(rows: seq<Row>, picks: seq<Row>, status: int)
    ensures |StatusRows(rows, picks, status)| == |rows|
    ensures forall i :: 0 <= i < |rows| ==>
      StatusRows(rows, picks, status)[i] == if Hit(picks, rows[i].movieId) then rows[i].(status := status) else rows[i]
  {
    if picks != [] {
      var n := |picks| - 1;
      var init := picks[..n];
      StatusRowsSpec(rows, init, status);
      forall i | 0 <= i < |rows|
        ensures StatusRows(rows, picks, status)[i] ==
          if Hit(picks, rows[i].movieId) then rows[i].(status := status) else rows[i]
      {
        if Hit(init, rows[i].movieId) {
          var j :| 0 <= j < n && init[j].movieId == rows[i].movieId;
          assert picks[j] == init[j];
        }
      }
    }
  }

  /** One more processed row extends the rows, the events and the outcomes of a status pass. */
  lemma StatusStep(before: seq<Row>, todo: seq<Row>, k: nat, status: int, name: string)
    requires k < |todo|
    ensures StatusRows(before, todo[..k + 1], status) == StatusRows(StatusRows(before, todo[..k], status), [todo[k]], status)
    ensures MovieEvents(name, todo[..k + 1], status) == MovieEvents(name, todo[..k], status) + [Event(name, MovieIdOf(todo[k]), status)]
    ensures RowEvents(name, todo[..k + 1], status) == RowEvents(name, todo[..k], status) + [Event(name, todo[k].id, status)]
  {
    assert todo[..k + 1][..k] == todo[..k];
  }

  /** One more row of the creation pass extends its rows, its events and its movies. */
  lemma CreationStep(before: seq<Row>, table: map<int, Movies.Movie>, todo: seq<Row>, k: nat,
                     langMap: map<string, string>, base: int)
    requires k < |todo|
    ensures CreationRows(before, todo[..k + 1], base) == MarkCreated(CreationRows(before, todo[..k], base), todo[k].id, base + k)
    ensures RowEvents("movie-created", todo[..k + 1], MovieCreated) ==
      RowEvents("movie-created", todo[..k], MovieCreated) + [Event("movie-created", todo[k].id, MovieCreated)]
    ensures table + MoviesFor(todo[..k + 1], langMap, base) ==
      (table + MoviesFor(todo[..k], langMap, base))[base + k := MovieFor(todo[k], langMap, base + k)]
  {
    assert todo[..k + 1][..k] == todo[..k];
  }

  /** The movies created for the first |picks| rows of the creation pass, from id `base` on. */
  function MoviesFor(picks: seq<Row>, langMap: map<string, string>, base: int): map<int, Movies.Movie>
  {
    if picks == [] then map[]
    else MoviesFor(picks[..|picks| - 1], langMap, base)[base + |picks| - 1 :=
      MovieFor(picks[|picks| - 1], langMap, base + |picks| - 1)]
  }

  /** The movies created are numbered `base`, `base + 1`, ... in pass order, one per row. */
  lemma {:induction false} MoviesForSpec(picks: seq<Row>, langMap: map<string, string>, base: int)
    ensures forall id :: id in MoviesFor(picks, langMap, base) <==> base <= id < base + |picks|
    ensures forall j :: 0 <= j < |picks| ==> MoviesFor(picks, langMap, base)[base + j] == MovieFor(picks[j], langMap, base + j)
  {
    if picks != [] {
      var n := |picks| - 1;
      MoviesForSpec(picks[..n], langMap, base);
      assert MoviesFor(picks, langMap, base) ==
        MoviesFor(picks[..n], langMap, base)[base + n := MovieFor(picks[n], langMap, base + n)];
      forall j | 0 <= j < n
        ensures MoviesFor(picks, langMap, base)[base + j] == MovieFor(picks[j], langMap, base + j)
      {
        assert picks[..n][j] == picks[j];
      }
    }
  }

  // ---------------------------------------------------------------------------------------
  // The steps of one row, and how each pass fails

  /** The database steps of a pass: begin, the movie insert, the queue update and the commit. */
  datatype Step = Begin | InsertMovie | Update | Commit

  /** movie_queue.go:573-607: the steps after the row is found, in order. */
  function TranscriptionError(p: Row, decodes: string -> bool, fileOk: bool,
                              transcribe: (string, string) -> Option<string>, updateOk: bool, commitOk: bool): Option<QueueError>
  {
    if !decodes(p.content) then Some(DecodeFailed)
    else if !fileOk then Some(FileFailed)
    else if transcribe(p.content, p.sourceLanguage).None? then Some(TranscribeFailed)
    else if !updateOk then Some(UpdateFailed)
    else if !commitOk then Some(CommitFailed)
    else None
  }

  /** movie_queue.go:275: the movie of a row names its source language too. */
  function MovieFor(p: Row, langMap: map<string, string>, id: int): Movies.Movie
  {
    Movies.Movie(id, p.name, p.sourceLanguage, p.targetLanguages[p.sourceLanguage := LanguageName(langMap, p.sourceLanguage)])
  }

  /**
   * movie_queue.go:269-299: begin, create the movie, update the row, commit; `db` gives each
   * step's outcome. The movie's guards come down to the row's name and source language, since
   * its languages always hold the source (see `CreationChecks`).
   */
  function CreationError(p: Row, langMap: map<string, string>, db: (int, Step) -> bool): Option<QueueError>
  {
    if !db(p.id, Begin) then Some(BeginFailed)
    else if AllSpace(p.name) then Some(CreateFailed(Movies.TitleRequired))
    else if AllSpace(p.sourceLanguage) then Some(CreateFailed(Movies.DefaultLanguageRequired))
    else if !db(p.id, InsertMovie) then Some(CreateFailed(Movies.StoreFailed))
    else if !db(p.id, Update) then Some(UpdateFailed)
    else if !db(p.id, Commit) then Some(CommitFailed)
    else None
  }

  /** The movie was inserted for `p`; it stays even when the update or the commit then fails. */
  predicate MovieInserted(p: Row, db: (int, Step) -> bool)
  {
    db(p.id, Begin) && !AllSpace(p.name) && !AllSpace(p.sourceLanguage) && db(p.id, InsertMovie)
  }

  /** The first `k` rows of `todo` all passed every step of the creation pass. */
  predicate CreationsOk(todo: seq<Row>, k: nat, langMap: map<string, string>, db: (int, Step) -> bool)
  {
    forall i :: 0 <= i < k && i < |todo| ==> CreationError(todo[i], langMap, db).None?
  }

  lemma CreationsExtend(todo: seq<Row>, k: nat, langMap: map<string, string>, db: (int, Step) -> bool)
    requires k < |todo| && CreationsOk(todo, k, langMap, db) && CreationError(todo[k], langMap, db).None?
    ensures CreationsOk(todo, k + 1, langMap, db)
  {
  }

  /** Every picked row of the import pass joins a movie of the table (otherwise the scan fails). */
  predicate Joined(picks: seq<Row>, table: map<int, Movies.Movie>)
  {
    forall j :: 0 <= j < |picks| ==> picks[j].movieId.Some? && picks[j].movieId.value in table
  }

  /** The update and the commit that end a row's transaction. */
  function SettleError(key: int, db: (int, Step) -> bool): Option<QueueError>
  {
    if !db(key, Update) then Some(UpdateFailed)
    else if !db(key, Commit) then Some(CommitFailed)
    else None
  }

  /** movie_queue.go:372-407: begin, import the subtitle file into the movie, update, commit. */
  function ImportError(p: Row, movie: Movies.Movie, db: (int, Step) -> bool,
                       importer: (Movies.Movie, string) -> bool): Option<QueueError>
  {
    if !db(p.id, Begin) then Some(BeginFailed)
    else if !importer(movie, p.content) then Some(ImportFailed)
    else SettleError(p.id, db)
  }

  /** Every target language other than the source was translated. */
  predicate AllTranslated(movieId: int, source: string, targets: map<string, string>,
                          translate: (int, string, string) -> bool)
  {
    forall c :: c in targets && c != source ==> translate(movieId, source, c)
  }

  /** movie_queue.go:461-497: begin, translate into each target language, update, commit. */
  function TranslationError(p: Row, db: (int, Step) -> bool, translate: (int, string, string) -> bool): Option<QueueError>
  {
    var m := MovieIdOf(p);
    if !db(m, Begin) then Some(BeginFailed)
    else if !AllTranslated(m, p.sourceLanguage, p.targetLanguages, translate) then Some(TranslateFailed)
    else SettleError(m, db)
  }

  /**
   * The movie of a queued row always holds its source language, so `CreateMovie`'s guards
   * (movie.go:34-44) fail exactly as `CreationError` says and never for want of a language.
   */
  lemma CreationChecks(p: Row, langMap: map<string, string>, id: int)
    ensures var m := MovieFor(p, langMap, id);
      && p.sourceLanguage in m.languages && m.languages[p.sourceLanguage] == LanguageName(langMap, p.sourceLanguage)
      && |m.languages| > 0
      && Movies.CheckNewMovie(m.title, m.defaultLanguage, m.languages) ==
        if AllSpace(p.name) then Some(Movies.TitleRequired)
        else if AllSpace(p.sourceLanguage) then Some(Movies.DefaultLanguageRequired)
        else None
  {
    var m := MovieFor(p, langMap, id);
    assert p.sourceLanguage in m.languages;
  }

  // ---------------------------------------------------------------------------------------
  // The passes keep the table well formed and only move rows forward

  lemma MarkTranscribedWellFormed(rows: seq<Row>, id: int, transcript: string, nextId: int, nextMovieId: int)
    requires WellFormedRows(rows, nextId, nextMovieId)
    requires forall i :: 0 <= i < |rows| && rows[i].id == id ==> rows[i].movieId.None?
    ensures WellFormedRows(MarkTranscribed(rows, id, transcript), nextId, nextMovieId)
  {
  }

  lemma MarkCreatedWellFormed(rows: seq<Row>, id: int, movieId: int, nextId: int, nextMovieId: int, newNextMovieId: int)
    requires WellFormedRows(rows, nextId, nextMovieId)
    requires 1 <= nextMovieId <= movieId < newNextMovieId
    ensures WellFormedRows(MarkCreated(rows, id, movieId), nextId, newNextMovieId)
  {
    var r := MarkCreated(rows, id, movieId);
    forall i, j | 0 <= i < j < |r| && r[i].movieId.Some?
      ensures r[i].movieId != r[j].movieId
    {
      assert rows[i].id < rows[j].id;
    }
  }

  lemma WithStatusWellFormed(rows: seq<Row>, movieId: int, status: int, nextId: int, nextMovieId: int)
    requires WellFormedRows(rows, nextId, nextMovieId)
    requires MovieCreated <= status <= SubtitleTranslated
    ensures WellFormedRows(WithStatus(rows, movieId, status), nextId, nextMovieId)
  {
  }

  /** Ids are not shared: two positions with one id are one position. */
  lemma SameId(rows: seq<Row>, i: int, k: int)
    requires IdsIncreasing(rows) && 0 <= i < |rows| && 0 <= k < |rows| && rows[i].id == rows[k].id
    ensures i == k
  {
  }

  /** Movie ids are not shared either. */
  lemma SameMovie(rows: seq<Row>, i: int, k: int, nextId: int, nextMovieId: int)
    requires WellFormedRows(rows, nextId, nextMovieId)
    requires 0 <= i < |rows| && 0 <= k < |rows| && rows[i].movieId.Some? && rows[i].movieId == rows[k].movieId
    ensures i == k
  {
  }

  /**
   * The transcription update of the row the pass picked (a Pending audio row) changes that row
   * alone: its content becomes the transcript and its status AudioTranscribed.
   */
  lemma TranscriptionAdvances(rows: seq<Row>, p: Row, transcript: string)
    requires IdsIncreasing(rows) && p in rows && ForTranscription(p)
    ensures AllAdvanced(rows, MarkTranscribed(rows, p.id, transcript))
    ensures forall i :: 0 <= i < |rows| ==>
      MarkTranscribed(rows, p.id, transcript)[i] == if rows[i] == p then Transcribed(p, transcript) else rows[i]
  {
    var k :| 0 <= k < |rows| && rows[k] == p;
    forall i | 0 <= i < |rows| && rows[i].id == p.id
      ensures i == k
    {
      SameId(rows, i, k);
    }
  }

  /** The creation pass moves each row it processed to MovieCreated, with its own new movie. */
  lemma CreationAdvances(rows: seq<Row>, done: nat, base: int, nextId: int, nextMovieId: int)
    requires WellFormedRows(rows, nextId, nextMovieId) && done <= |Picked(rows, ForCreation)|
    ensures var picks := Picked(rows, ForCreation)[..done];
      && AllAdvanced(rows, CreationRows(rows, picks, base))
      && forall i, j :: 0 <= i < |rows| && 0 <= j < done && picks[j] == rows[i] ==>
        CreationRows(rows, picks, base)[i] == Created(rows[i], base + j)
  {
    var all := Picked(rows, ForCreation);
    var picks := all[..done];
    PickedSpec(rows, ForCreation);
    assert IdsIncreasing(picks) by {
      forall i, j | 0 <= i < j < |picks| ensures picks[i].id < picks[j].id {
        assert picks[i] == all[i] && picks[j] == all[j];
      }
    }
    CreationRowsSpec(rows, picks, base);
    var r := CreationRows(rows, picks, base);
    forall i | 0 <= i < |rows|
      ensures Advanced(rows[i], r[i])
    {
      if j :| 0 <= j < |picks| && picks[j].id == rows[i].id {
        assert picks[j] == all[j] && all[j] in all;
        var k :| 0 <= k < |rows| && rows[k] == picks[j];
        SameId(rows, i, k);
      }
    }
  }

  /**
   * A status pass that picks rows below `status` and sets their movies' rows to it moves exactly
   * those rows forward: movie ids are not shared, so no other row is touched.
   */
  lemma StatusAdvances(rows: seq<Row>, picks: seq<Row>, status: int, nextId: int, nextMovieId: int)
    requires WellFormedRows(rows, nextId, nextMovieId) && status != Failed
    requires forall p :: p in picks ==> p in rows && p.movieId.Some? && p.status < status
    ensures AllAdvanced(rows, StatusRows(rows, picks, status))
    ensures forall i :: 0 <= i < |rows| && rows[i] in picks ==> StatusRows(rows, picks, status)[i] == rows[i].(status := status)
  {
    StatusRowsSpec(rows, picks, status);
    var r := StatusRows(rows, picks, status);
    forall i | 0 <= i < |rows|
      ensures Advanced(rows[i], r[i])
      ensures rows[i] in picks ==> r[i] == rows[i].(status := status)
    {
      if Hit(picks, rows[i].movieId) {
        var j :| 0 <= j < |picks| && picks[j].movieId == rows[i].movieId;
        assert picks[j] in picks;
        var k :| 0 <= k < |rows| && rows[k] == picks[j];
        SameMovie(rows, i, k, nextId, nextMovieId);
      }
      if rows[i] in picks && rows[i].movieId.Some? {
        var j :| 0 <= j < |picks| && picks[j] == rows[i];
        assert Hit(picks, rows[i].movieId);
      }
    }
  }

  /** The import pass moves each row it processed from MovieCreated to SubtitleCreated. */
  lemma ImportAdvances(rows: seq<Row>, done: nat, nextId: int, nextMovieId: int)
    requires WellFormedRows(rows, nextId, nextMovieId) && done <= |Picked(rows, ForImport)|
    ensures var picks := Picked(rows, ForImport)[..done];
      && AllAdvanced(rows, StatusRows(rows, picks, SubtitleCreated))
      && forall i :: 0 <= i < |rows| && rows[i] in picks ==>
        StatusRows(rows, picks, SubtitleCreated)[i] == rows[i].(status := SubtitleCreated)
  {
    var all := Picked(rows, ForImport);
    PickedSpec(rows, ForImport);
    forall p | p in all[..done] ensures p in rows && p.movieId.Some? && p.status < SubtitleCreated {
      assert p in all;
    }
    StatusAdvances(rows, all[..done], SubtitleCreated, nextId, nextMovieId);
  }

  /** The translation pass moves each row it processed from SubtitleCreated to SubtitleTranslated. */
  lemma TranslationAdvances(rows: seq<Row>, done: nat, nextId: int, nextMovieId: int)
    requires WellFormedRows(rows, nextId, nextMovieId) && done <= |Picked(rows, ForTranslation)|
    ensures var picks := Picked(rows, ForTranslation)[..done];
      && AllAdvanced(rows, StatusRows(rows, picks, SubtitleTranslated))
      && forall i :: 0 <= i < |rows| && rows[i] in picks ==>
        StatusRows(rows, picks, SubtitleTranslated)[i] == rows[i].(status := SubtitleTranslated)
  {
    var all := Picked(rows, ForTranslation);
    PickedSpec(rows, ForTranslation);
    forall p | p in all[..done] ensures p in rows && p.movieId.Some? && p.status < SubtitleTranslated {
      assert p in all;
    }
    StatusAdvances(rows, all[..done], SubtitleTranslated, nextId, nextMovieId);
  }

  /**
   * movie_queue.go:467-479: translates the movie's subtitles into each target language except the
   * source, in the map's (unspecified) order, stopping at the first failure. `called` is the set
   * of languages asked for.
   */
  method DispatchLanguages(movieId: int, source: string, targets: map<string, string>,
                           translate: (int, string, string) -> bool)
    returns (ok: bool, ghost called: set<string>)
    ensures ok <==> AllTranslated(movieId, source, targets, translate)
    ensures called <= targets.Keys - {source}
    ensures ok ==> called == targets.Keys - {source}
    ensures !ok ==> exists c :: c in called && !translate(movieId, source, c)
  {
    var left := targets.Keys;
    called := {};
    while left != {}
      invariant left <= targets.Keys
      invariant called == targets.Keys - left - {source}
      invariant forall c :: c in called ==> translate(movieId, source, c)
      decreases left
    {
      var c :| c in left;
      left := left - {c};
      if c != source {
        called := called + {c};
        if !translate(movieId, source, c) {
          return false, called;
        }
      }
    }
    return true, called;
  }

  // ---------------------------------------------------------------------------------------
  // ListQueue (movie_queue.go:58-147)

  const QueueCount: string := "SELECT COUNT(*) FROM movies_queue"
  /** The select's column list (movie_queue.go:80-81), in two halves. */
  const QueueColumns: string := "SELECT id, movie_id, name, type, " + "file_type, source_language, "
  const QueueColumnsRest: string := "target_languages, status," + "created_at, processed_at FROM movies_queue"
  const QueueSelect: string := QueueColumns + QueueColumnsRest

  /** Every `?` of the statement gets an argument of its own and no argument is left over. */
  predicate Bindable(st: Statement)
  {
    Placeholders(st.query) == |st.args|
  }

  /**
   * The select as written: the argument list of the count is not reset, so with a name filter
   * the pattern is bound a second time ahead of the page size and the offset.
   */
  function ListQueueSelectAsWritten(name: string, p: Pagination): Statement
  {
    var page := PageStatement(QueueSelect, "name", name, p);
    Statement(page.query, FilterArgs(name) + page.args)
  }

  /** The select with the argument list reset, as `ListMovies` does. */
  function ListQueueSelect(name: string, p: Pagination): Statement
  {
    PageStatement(QueueSelect, "name", name, p)
  }

  /** The first half of the select's column list holds no `?`. */
  lemma ColumnsHaveNoPlaceholder()
    ensures Placeholders(QueueColumns) == 0
  {
    var a, b := "SELECT id, movie_id, name, type, ", "file_type, source_language, ";
    NoPlaceholder(a);
    NoPlaceholder(b);
    PlaceholdersAppend(a, b);
  }

  /** The second half, with the table name, holds none either. */
  lemma ColumnsRestHaveNoPlaceholder()
    ensures Placeholders(QueueColumnsRest) == 0
  {
    var c, d := "target_languages, status,", "created_at, processed_at FROM movies_queue";
    NoPlaceholder(c);
    NoPlaceholder(d);
    PlaceholdersAppend(c, d);
  }

  lemma QueueTextsHaveNoPlaceholder()
    ensures Placeholders(QueueSelect) == 0 && Placeholders(QueueCount) == 0 && Placeholders("name") == 0
  {
    ColumnsHaveNoPlaceholder();
    ColumnsRestHaveNoPlaceholder();
    PlaceholdersAppend(QueueColumns, QueueColumnsRest);
    NoPlaceholder(QueueCount);
    NoPlaceholder("name");
  }

  /**
   * With any name filter the select as written carries four arguments for three placeholders,
   * with the pattern second: bound by position, the pattern goes to `LIMIT` and the page size
   * to `OFFSET`, and SQLite rejects the text `LIMIT` when the rows are read
   * (movie_queue.go:137-138), so every filtered listing fails.
   */
  lemma ListQueueArgsMismatch(name: string, p: Pagination)
    requires name != "" && '?' !in p.sortBy
    ensures var st := ListQueueSelectAsWritten(name, p);
      Placeholders(st.query) == 3 && |st.args| == 4 && !Bindable(st)
      && st.args[1] == Text(Pattern(name)) && st.args[2..] == [Number(p.rowsPerPage), Number(Offset(p))]
  {
    QueueTextsHaveNoPlaceholder();
    NoPlaceholder(p.sortBy);
  }

  /** With the argument list reset, both statements of a listing are bindable for every name. */
  lemma ListQueueBindable(name: string, p: Pagination)
    requires '?' !in p.sortBy
    ensures Bindable(CountStatement(QueueCount, "name", name))
    ensures Bindable(ListQueueSelect(name, p))
    ensures name == "" ==> ListQueueSelectAsWritten(name, p) == ListQueueSelect(name, p)
  {
    CountPlaceholders(QueueCount, "name", name);
    QueueTextsHaveNoPlaceholder();
    NoPlaceholder(p.sortBy);
  }

  /** How many rows the count of `ListQueue` finds; `like` stands for SQLite's `LIKE`. */
  function QueueMatchCount(rows: seq<Row>, name: string, like: (string, string) -> bool): nat
  {
    |set i | 0 <= i < |rows| && (name == "" || like(rows[i].name, Pattern(name)))|
  }

  // ---------------------------------------------------------------------------------------
  // The queue table and its operations

  class QueueStore {
    var rows: seq<Row>
    var nextId: int
    const movies: Movies.MovieStore

    ghost predicate Valid()
      reads this, movies
    {
      movies.Valid() && nextId >= 1 && WellFormedRows(rows, nextId, movies.nextId)
    }

    constructor (movies: Movies.MovieStore)
      requires movies.Valid()
      ensures Valid() && rows == [] && nextId == 1 && this.movies == movies
    {
      rows := [];
      nextId := 1;
      this.movies := movies;
    }

    /**
     * movie_queue.go:149-194: reads the language table and prepares the insert, then inserts
     * the requests one by one, each as a Pending row with no movie and the target map built
     * from its codes. The first failed insert ends the call; the rows inserted before it stay.
     * The first `insertsOk` inserts succeed and the next one, if any, fails.
     */
    method AddToQueue(reqs: seq<Request>, langMap: map<string, string>, languagesOk: bool, prepareOk: bool,
                      insertsOk: nat)
      returns (err: Option<QueueError>, ghost inserted: nat)
      requires Valid()
      modifies this
      ensures Valid() && inserted <= |reqs|
      ensures rows == old(rows) + NewRows(reqs[..inserted], langMap, old(nextId))
      ensures nextId == old(nextId) + inserted
      ensures !languagesOk ==> err == Some(LanguagesFailed) && inserted == 0
      ensures languagesOk && !prepareOk ==> err == Some(PrepareFailed) && inserted == 0
      ensures languagesOk && prepareOk && insertsOk < |reqs| ==> err == Some(InsertFailed) && inserted == insertsOk
      ensures languagesOk && prepareOk && insertsOk >= |reqs| ==> err.None? && inserted == |reqs|
    {
      assert reqs[..0] == [] && rows + [] == rows;
      if !languagesOk {
        return Some(LanguagesFailed), 0;
      }
      if !prepareOk {
        return Some(PrepareFailed), 0;
      }
      ghost var before, first := rows, nextId;
      var k := 0;
      while k < |reqs|
        invariant 0 <= k <= |reqs| && k <= insertsOk
        invariant rows == before + NewRows(reqs[..k], langMap, first)
        invariant nextId == first + k
        invariant Valid()
      {
        var r := reqs[k];
        var targets := BuildTargetLanguages(r.targetLanguages, langMap);
        if k == insertsOk {
          return Some(InsertFailed), k;
        }
        var row := Row(nextId, None, r.name, r.kind, r.fileType, r.content, r.sourceLanguage, targets, Pending);
        assert row == NewRow(reqs[k], langMap, first + k);
        InsertStep(before, rows, reqs, k, langMap, first);
        AppendRow(row);
        k := k + 1;
      }
      assert reqs[..k] == reqs;
      return None, k;
    }

    /** The insert of movie_queue.go:187: the row takes the next id. */
    method AppendRow(row: Row)
      requires Valid() && row.id == nextId && row.status == Pending && row.movieId.None?
      modifies this
      ensures Valid() && rows == old(rows) + [row] && nextId == old(nextId) + 1
    {
      PendingAppend(rows, row, nextId, movies.nextId);
      rows := rows + [row];
      nextId := nextId + 1;
    }

    /** movie_queue.go:196-205: removes the row with `id`, if any. */
    method DeleteFromQueue(id: int, storeOk: bool) returns (err: Option<QueueError>)
      requires Valid()
      modifies this
      ensures Valid() && nextId == old(nextId)
      ensures err.None? <==> storeOk
      ensures storeOk ==> rows == Without(old(rows), id)
      ensures storeOk ==> forall r :: r in rows <==> r in old(rows) && r.id != id
      ensures !storeOk ==> rows == old(rows)
    {
      if !storeOk {
        return Some(DeleteFailed);
      }
      WithoutMembers(rows, id);
      WithoutWellFormed(rows, id, nextId, movies.nextId);
      rows := Without(rows, id);
      return None;
    }

    /**
     * movie_queue.go:58-147 with the argument list reset before the select (see
     * `ListQueueArgsMismatch` for the code as written): counts the rows whose name matches,
     * then selects one page. `count` stands for running the count statement (movie_queue.go:63-70)
     * and whether it succeeds; `fetch` stands for running the select and scanning its rows.
     */
    method ListQueue(name: string, p: Pagination, like: (string, string) -> bool,
                     count: Statement -> bool, fetch: Statement -> Option<seq<Row>>)
      returns (r: Result<QueueResponse, QueueError>)
      ensures r.Ok? <==> count(CountStatement(QueueCount, "name", name)) && fetch(ListQueueSelect(name, p)).Some?
      ensures !count(CountStatement(QueueCount, "name", name)) ==> r == Err(CountFailed)
      ensures r.Ok? ==> r.value.pagination == p.(rowsNumber := QueueMatchCount(rows, name, like))
      ensures r.Ok? ==> r.value.rows == fetch(ListQueueSelect(name, p)).value
    {
      var countSt := CountStatement(QueueCount, "name", name);
      if !count(countSt) {
        return Err(CountFailed);
      }
      var page := p.(rowsNumber := QueueMatchCount(rows, name, like));
      var select := ListQueueSelect(name, page);
      PageStatementIgnoresCount(QueueSelect, "name", name, p, page.rowsNumber);
      var found := fetch(select);
      if found.None? {
        return Err(QueryFailed);
      }
      return Ok(QueueResponse(found.value, page));
    }

    /**
     * movie_queue.go:505-616: in one transaction, takes the first Pending audio row, decodes its
     * base64 content (`decodes`), writes it to a temporary file (`fileOk`), transcribes it in its
     * source language (`transcribe`) and stores the transcript as the row's content with status
     * AudioTranscribed. Any failure leaves the table as it was.
     */
    method TranscribeAudioFromQueue(cancelled: bool, beginOk: bool, queryOk: bool, decodes: string -> bool,
                                    fileOk: bool, transcribe: (string, string) -> Option<string>,
                                    updateOk: bool, commitOk: bool)
      returns (err: Option<QueueError>, events: seq<Event>)
      requires Valid()
      modifies this
      ensures Valid() && nextId == old(nextId)
      ensures cancelled ==> err.None?
      ensures !cancelled && !beginOk ==> err == Some(BeginFailed)
      ensures !cancelled && beginOk && !queryOk ==> err == Some(QueryFailed)
      ensures var picks := Picked(old(rows), ForTranscription);
        !cancelled && beginOk && queryOk && picks == [] ==> err == (if commitOk then None else Some(CommitFailed))
      ensures var picks := Picked(old(rows), ForTranscription);
        !cancelled && beginOk && queryOk && picks != [] ==>
          err == TranscriptionError(picks[0], decodes, fileOk, transcribe, updateOk, commitOk)
      ensures var picks := Picked(old(rows), ForTranscription);
        if !cancelled && picks != [] && err.None? then
          && rows == MarkTranscribed(old(rows), picks[0].id, transcribe(picks[0].content, picks[0].sourceLanguage).value)
          && events == [Event("audio-transcribed", picks[0].id, AudioTranscribed)]
        else rows == old(rows) && events == []
    {
      events := [];
      if cancelled {
        return None, events;
      }
      if !beginOk {
        return Some(BeginFailed), events;
      }
      if !queryOk {
        return Some(QueryFailed), events;
      }
      var picks := Picked(rows, ForTranscription);
      if picks == [] {
        if !commitOk {
          return Some(CommitFailed), events;
        }
        return None, events;
      }
      var p := picks[0];
      if !decodes(p.content) {
        return Some(DecodeFailed), events;
      }
      if !fileOk {
        return Some(FileFailed), events;
      }
      var transcript := transcribe(p.content, p.sourceLanguage);
      if transcript.None? {
        return Some(TranscribeFailed), events;
      }
      if !updateOk {
        return Some(UpdateFailed), events;
      }
      if !commitOk {
        return Some(CommitFailed), events;
      }
      PickedSpec(rows, ForTranscription);
      TranscriptionAdvances(rows, p, transcript.value);
      MarkTranscribedWellFormed(rows, p.id, transcript.value, nextId, movies.nextId);
      rows := MarkTranscribed(rows, p.id, transcript.value);
      return None, [Event("audio-transcribed", p.id, AudioTranscribed)];
    }

    /**
     * movie_queue.go:269-303, one row of the creation pass: begin, create the row's movie in the
     * movie table, point the row at it with status MovieCreated, commit. The movie is inserted
     * outside the transaction, so it stays when the update or the commit fails.
     */
    method CreateOne(p: Row, langMap: map<string, string>, db: (int, Step) -> bool,
                     ghost before: seq<Row>, ghost after: seq<Row>, ghost movieId: int,
                     ghost table: map<int, Movies.Movie>, ghost tableAfter: map<int, Movies.Movie>)
      returns (err: Option<QueueError>)
      requires Valid() && rows == before && movies.nextId == movieId && movies.table == table
      requires after == MarkCreated(before, p.id, movieId)
      requires tableAfter == table[movieId := MovieFor(p, langMap, movieId)]
      modifies this, movies
      ensures Valid() && nextId == old(nextId)
      ensures err == CreationError(p, langMap, db)
      ensures rows == if err.None? then after else before
      ensures movies.nextId == if MovieInserted(p, db) then movieId + 1 else movieId
      ensures movies.table == if MovieInserted(p, db) then tableAfter else table
    {
      if !db(p.id, Begin) {
        return Some(BeginFailed);
      }
      var languages := p.targetLanguages[p.sourceLanguage := LanguageName(langMap, p.sourceLanguage)];
      CreationChecks(p, langMap, movieId);
      var created := movies.CreateMovie(p.name, p.sourceLanguage, languages, db(p.id, InsertMovie));
      if created.Err? {
        return Some(CreateFailed(created.error));
      }
      if !db(p.id, Update) {
        return Some(UpdateFailed);
      }
      if !db(p.id, Commit) {
        return Some(CommitFailed);
      }
      MarkCreatedWellFormed(rows, p.id, created.value, nextId, old(movies.nextId), movies.nextId);
      rows := MarkCreated(rows, p.id, created.value);
      return None;
    }

    /**
     * movie_queue.go:207-307: reads the language table, selects the rows waiting for a movie
     * (subtitle rows at Pending, audio rows at AudioTranscribed, no movie yet) and creates their
     * movies one by one; the first failing row ends the pass. `done` rows were processed, and
     * `made` movies inserted (one more than `done` when the last row failed after its insert).
     */
    method CreateMovieFromQueue(cancelled: bool, langMap: Option<map<string, string>>, queryOk: bool,
                                db: (int, Step) -> bool)
      returns (err: Option<QueueError>, events: seq<Event>, ghost done: nat, ghost made: nat)
      requires Valid()
      modifies this, movies
      ensures Valid() && nextId == old(nextId)
      ensures cancelled ==> err.None?
      ensures !cancelled && langMap.None? ==> err == Some(LanguagesFailed)
      ensures !cancelled && langMap.Some? && !queryOk ==> err == Some(QueryFailed)
      ensures cancelled || langMap.None? || !queryOk ==>
        && done == 0 && made == 0 && rows == old(rows) && events == []
        && movies.table == old(movies.table) && movies.nextId == old(movies.nextId)
      ensures var picks := Picked(old(rows), ForCreation);
        !cancelled && langMap.Some? && queryOk ==>
          && done <= made <= |picks| && made <= done + 1
          && rows == CreationRows(old(rows), picks[..done], old(movies.nextId))
          && events == RowEvents("movie-created", picks[..done], MovieCreated)
          && movies.nextId == old(movies.nextId) + made
          && movies.table == old(movies.table) + MoviesFor(picks[..made], langMap.value, old(movies.nextId))
          && CreationsOk(picks, done, langMap.value, db)
          && (done == |picks| ==> err.None?)
          && (done < |picks| ==> err == CreationError(picks[done], langMap.value, db))
          && made == (if done < |picks| && MovieInserted(picks[done], db) then done + 1 else done)
    {
      if cancelled {
        return None, [], 0, 0;
      }
      if langMap.None? {
        return Some(LanguagesFailed), [], 0, 0;
      }
      if !queryOk {
        return Some(QueryFailed), [], 0, 0;
      }
      err, events, done, made := CreateRows(Picked(rows, ForCreation), langMap.value, db);
    }

    /** The loop of the creation pass over the selected rows `todo`. */
    method CreateRows(todo: seq<Row>, langMap: map<string, string>, db: (int, Step) -> bool)
      returns (err: Option<QueueError>, events: seq<Event>, ghost done: nat, ghost made: nat)
      requires Valid()
      modifies this, movies
      ensures Valid() && nextId == old(nextId)
      ensures done <= made <= |todo| && made <= done + 1
      ensures rows == CreationRows(old(rows), todo[..done], old(movies.nextId))
      ensures events == RowEvents("movie-created", todo[..done], MovieCreated)
      ensures movies.nextId == old(movies.nextId) + made
      ensures movies.table == old(movies.table) + MoviesFor(todo[..made], langMap, old(movies.nextId))
      ensures CreationsOk(todo, done, langMap, db)
      ensures done == |todo| ==> err.None?
      ensures done < |todo| ==> err == CreationError(todo[done], langMap, db)
      ensures made == if done < |todo| && MovieInserted(todo[done], db) then done + 1 else done
    {
      events := [];
      ghost var base, table := movies.nextId, movies.table;
      assert todo[..0] == [] && table + map[] == table;
      var k := 0;
      while k < |todo|
        invariant k <= |todo| && nextId == old(nextId)
        invariant CreatedUpTo(old(rows), table, base, todo, k, langMap, db, events)
      {
        var e;
        e, events, made := CreateNext(old(rows), table, base, todo, k, langMap, db, events);
        if e.Some? {
          return e, events, k, made;
        }
        k := k + 1;
      }
      return None, events, k, k;
    }

    /** The state of the creation pass once the first `k` rows of `todo` went through. */
    ghost predicate CreatedUpTo(start: seq<Row>, table: map<int, Movies.Movie>, base: int, todo: seq<Row>, k: nat,
                                langMap: map<string, string>, db: (int, Step) -> bool, events: seq<Event>)
      reads this, movies
    {
      && k <= |todo| && Valid()
      && rows == CreationRows(start, todo[..k], base)
      && events == RowEvents("movie-created", todo[..k], MovieCreated)
      && CreationsOk(todo, k, langMap, db)
      && movies.nextId == base + k
      && movies.table == table + MoviesFor(todo[..k], langMap, base)
    }

    /** Row `k` of the creation pass. */
    method CreateNext(ghost start: seq<Row>, ghost table: map<int, Movies.Movie>, ghost base: int, todo: seq<Row>,
                      k: nat, langMap: map<string, string>, db: (int, Step) -> bool, events: seq<Event>)
      returns (err: Option<QueueError>, events': seq<Event>, ghost made: nat)
      requires k < |todo| && CreatedUpTo(start, table, base, todo, k, langMap, db, events)
      modifies this, movies
      ensures nextId == old(nextId)
      ensures err == CreationError(todo[k], langMap, db)
      ensures err.None? ==> CreatedUpTo(start, table, base, todo, k + 1, langMap, db, events') && made == k + 1
      ensures err.Some? ==>
        && Valid() && events' == events && CreationsOk(todo, k, langMap, db)
        && rows == CreationRows(start, todo[..k], base)
        && made == (if MovieInserted(todo[k], db) then k + 1 else k)
        && movies.nextId == base + made
        && movies.table == table + MoviesFor(todo[..made], langMap, base)
    {
      var p := todo[k];
      CreationStep(start, table, todo, k, langMap, base);
      err := CreateOne(p, langMap, db, rows, CreationRows(start, todo[..k + 1], base), base + k,
                       movies.table, table + MoviesFor(todo[..k + 1], langMap, base));
      made := if MovieInserted(p, db) then k + 1 else k;
      events' := events;
      if err.None? {
        CreationsExtend(todo, k, langMap, db);
        events' := events + [Event("movie-created", p.id, MovieCreated)];
      }
    }

    /** The update and the commit that end a status pass's transaction for `movieId`. */
    method Settle(key: int, movieId: int, status: int, db: (int, Step) -> bool) returns (err: Option<QueueError>)
      requires Valid() && MovieCreated <= status <= SubtitleTranslated
      modifies this
      ensures Valid() && nextId == old(nextId)
      ensures err == SettleError(key, db)
      ensures rows == if err.None? then WithStatus(old(rows), movieId, status) else old(rows)
    {
      if !db(key, Update) {
        return Some(UpdateFailed);
      }
      if !db(key, Commit) {
        return Some(CommitFailed);
      }
      WithStatusWellFormed(rows, movieId, status, nextId, movies.nextId);
      rows := WithStatus(rows, movieId, status);
      return None;
    }

    /**
     * movie_queue.go:309-413: selects the MovieCreated rows with their movies and, row by row,
     * imports the row's subtitle file into its movie (`importer`) and moves the movie's rows to
     * SubtitleCreated; the first failing row ends the pass. A picked row whose movie is gone
     * fails the scan before any row is processed.
     */
    method CreateSubtitleFromQueue(cancelled: bool, queryOk: bool, db: (int, Step) -> bool,
                                   importer: (Movies.Movie, string) -> bool)
      returns (err: Option<QueueError>, events: seq<Event>, ghost done: nat)
      requires Valid()
      modifies this
      ensures Valid() && nextId == old(nextId)
      ensures cancelled ==> err.None?
      ensures !cancelled && !queryOk ==> err == Some(QueryFailed)
      ensures !cancelled && queryOk && !Joined(Picked(old(rows), ForImport), movies.table) ==> err == Some(ScanFailed)
      ensures cancelled || !queryOk || !Joined(Picked(old(rows), ForImport), movies.table) ==>
        done == 0 && rows == old(rows) && events == []
      ensures var picks := Picked(old(rows), ForImport);
        !cancelled && queryOk && Joined(picks, movies.table) ==>
          && done <= |picks|
          && rows == StatusRows(old(rows), picks[..done], SubtitleCreated)
          && events == RowEvents("subtitle-created", picks[..done], SubtitleCreated)
          && (forall j :: 0 <= j < done ==>
                ImportError(picks[j], movies.table[picks[j].movieId.value], db, importer).None?)
          && (done == |picks| ==> err.None?)
          && (done < |picks| ==> err == ImportError(picks[done], movies.table[picks[done].movieId.value], db, importer))
    {
      if cancelled {
        return None, [], 0;
      }
      if !queryOk {
        return Some(QueryFailed), [], 0;
      }
      var todo := Picked(rows, ForImport);
      var joined := JoinMovies(todo);
      if !joined {
        return Some(ScanFailed), [], 0;
      }
      err, events, done := ImportRows(todo, db, importer);
    }

    /** movie_queue.go:349-379: the scan fails on a row whose movie is gone (its columns are NULL). */
    method JoinMovies(todo: seq<Row>) returns (ok: bool)
      ensures ok == Joined(todo, movies.table)
    {
      var j := 0;
      while j < |todo|
        invariant 0 <= j <= |todo|
        invariant Joined(todo[..j], movies.table)
      {
        if todo[j].movieId.None? || todo[j].movieId.value !in movies.table {
          return false;
        }
        assert todo[..j + 1][..j] == todo[..j];
        j := j + 1;
      }
      assert todo[..j] == todo;
      return true;
    }

    /** The loop of the import pass over the selected rows `todo`. */
    method ImportRows(todo: seq<Row>, db: (int, Step) -> bool, importer: (Movies.Movie, string) -> bool)
      returns (err: Option<QueueError>, events: seq<Event>, ghost done: nat)
      requires Valid() && Joined(todo, movies.table)
      modifies this
      ensures Valid() && nextId == old(nextId) && Joined(todo, movies.table)
      ensures done <= |todo|
      ensures rows == StatusRows(old(rows), todo[..done], SubtitleCreated)
      ensures events == RowEvents("subtitle-created", todo[..done], SubtitleCreated)
      ensures forall j :: 0 <= j < done ==> ImportError(todo[j], movies.table[todo[j].movieId.value], db, importer).None?
      ensures done == |todo| ==> err.None?
      ensures done < |todo| ==> err == ImportError(todo[done], movies.table[todo[done].movieId.value], db, importer)
    {
      events := [];
      assert todo[..0] == [];
      var k := 0;
      while k < |todo|
        invariant k <= |todo| && nextId == old(nextId)
        invariant ImportedUpTo(old(rows), todo, k, db, importer, events)
      {
        var e;
        e, events := ImportNext(old(rows), todo, k, db, importer, events);
        if e.Some? {
          return e, events, k;
        }
        k := k + 1;
      }
      return None, events, k;
    }

    /** The state of the import pass once the first `k` rows of `todo` went through. */
    ghost predicate ImportedUpTo(start: seq<Row>, todo: seq<Row>, k: nat, db: (int, Step) -> bool,
                                 importer: (Movies.Movie, string) -> bool, events: seq<Event>)
      reads this, movies
    {
      && k <= |todo| && Valid() && Joined(todo, movies.table)
      && rows == StatusRows(start, todo[..k], SubtitleCreated)
      && events == RowEvents("subtitle-created", todo[..k], SubtitleCreated)
      && forall i :: 0 <= i < k ==> ImportError(todo[i], movies.table[todo[i].movieId.value], db, importer).None?
    }

    /** Row `k` of the import pass. */
    method ImportNext(ghost start: seq<Row>, todo: seq<Row>, k: nat, db: (int, Step) -> bool,
                      importer: (Movies.Movie, string) -> bool, events: seq<Event>)
      returns (err: Option<QueueError>, events': seq<Event>)
      requires k < |todo| && ImportedUpTo(start, todo, k, db, importer, events)
      modifies this
      ensures nextId == old(nextId) && Valid() && Joined(todo, movies.table)
      ensures err == ImportError(todo[k], movies.table[todo[k].movieId.value], db, importer)
      ensures ImportedUpTo(start, todo, if err.None? then k + 1 else k, db, importer, events')
    {
      var p := todo[k];
      err := ImportOne(p, movies.table[p.movieId.value], db, importer);
      events' := events;
      if err.None? {
        StatusStep(start, todo, k, SubtitleCreated, "subtitle-created");
        events' := events + [Event("subtitle-created", p.id, SubtitleCreated)];
      }
    }

    /** movie_queue.go:372-409, one row of the import pass. */
    method ImportOne(p: Row, movie: Movies.Movie, db: (int, Step) -> bool, importer: (Movies.Movie, string) -> bool)
      returns (err: Option<QueueError>)
      requires Valid() && p.movieId.Some?
      modifies this
      ensures Valid() && nextId == old(nextId)
      ensures err == ImportError(p, movie, db, importer)
      ensures rows == if err.None? then StatusRows(old(rows), [p], SubtitleCreated) else old(rows)
    {
      if !db(p.id, Begin) {
        return Some(BeginFailed);
      }
      if !importer(movie, p.content) {
        return Some(ImportFailed);
      }
      assert [p][..0] == [];
      err := Settle(p.id, p.movieId.value, SubtitleCreated, db);
    }

    /**
     * movie_queue.go:415-503: selects the SubtitleCreated rows and, row by row, translates the
     * movie's subtitles into each target language other than the source and moves the movie's
     * rows to SubtitleTranslated; the first failing row ends the pass.
     */
    method TranslateSubtitleFromQueue(cancelled: bool, queryOk: bool, db: (int, Step) -> bool,
                                      translate: (int, string, string) -> bool)
      returns (err: Option<QueueError>, events: seq<Event>, ghost done: nat)
      requires Valid()
      modifies this
      ensures Valid() && nextId == old(nextId)
      ensures cancelled ==> err.None?
      ensures !cancelled && !queryOk ==> err == Some(QueryFailed)
      ensures cancelled || !queryOk ==> done == 0 && rows == old(rows) && events == []
      ensures var picks := Picked(old(rows), ForTranslation);
        !cancelled && queryOk ==>
          && done <= |picks|
          && rows == StatusRows(old(rows), picks[..done], SubtitleTranslated)
          && events == MovieEvents("subtitle-translated", picks[..done], SubtitleTranslated)
          && (forall j :: 0 <= j < done ==> TranslationError(picks[j], db, translate).None?)
          && (done == |picks| ==> err.None?)
          && (done < |picks| ==> err == TranslationError(picks[done], db, translate))
    {
      if cancelled {
        return None, [], 0;
      }
      if !queryOk {
        return Some(QueryFailed), [], 0;
      }
      err, events, done := TranslateRows(Picked(rows, ForTranslation), db, translate);
    }

    /** The loop of the translation pass over the selected rows `todo`. */
    method TranslateRows(todo: seq<Row>, db: (int, Step) -> bool, translate: (int, string, string) -> bool)
      returns (err: Option<QueueError>, events: seq<Event>, ghost done: nat)
      requires Valid()
      modifies this
      ensures Valid() && nextId == old(nextId)
      ensures done <= |todo|
      ensures rows == StatusRows(old(rows), todo[..done], SubtitleTranslated)
      ensures events == MovieEvents("subtitle-translated", todo[..done], SubtitleTranslated)
      ensures forall j :: 0 <= j < done ==> TranslationError(todo[j], db, translate).None?
      ensures done == |todo| ==> err.None?
      ensures done < |todo| ==> err == TranslationError(todo[done], db, translate)
    {
      events := [];
      assert todo[..0] == [];
      var k := 0;
      while k < |todo|
        invariant k <= |todo| && nextId == old(nextId)
        invariant TranslatedUpTo(old(rows), todo, k, db, translate, events)
      {
        var e;
        e, events := TranslateNext(old(rows), todo, k, db, translate, events);
        if e.Some? {
          return e, events, k;
        }
        k := k + 1;
      }
      return None, events, k;
    }

    /** The state of the translation pass once the first `k` rows of `todo` went through. */
    ghost predicate TranslatedUpTo(start: seq<Row>, todo: seq<Row>, k: nat, db: (int, Step) -> bool,
                                   translate: (int, string, string) -> bool, events: seq<Event>)
      reads this, movies
    {
      && k <= |todo| && Valid()
      && rows == StatusRows(start, todo[..k], SubtitleTranslated)
      && events == MovieEvents("subtitle-translated", todo[..k], SubtitleTranslated)
      && forall i :: 0 <= i < k ==> TranslationError(todo[i], db, translate).None?
    }

    /** Row `k` of the translation pass. */
    method TranslateNext(ghost start: seq<Row>, todo: seq<Row>, k: nat, db: (int, Step) -> bool,
                         translate: (int, string, string) -> bool, events: seq<Event>)
      returns (err: Option<QueueError>, events': seq<Event>)
      requires k < |todo| && TranslatedUpTo(start, todo, k, db, translate, events)
      modifies this
      ensures nextId == old(nextId)
      ensures err == TranslationError(todo[k], db, translate)
      ensures TranslatedUpTo(start, todo, if err.None? then k + 1 else k, db, translate, events')
    {
      var p := todo[k];
      err := TranslateOne(p, db, translate);
      events' := events;
      if err.None? {
        StatusStep(start, todo, k, SubtitleTranslated, "subtitle-translated");
        events' := events + [Event("subtitle-translated", MovieIdOf(p), SubtitleTranslated)];
      }
    }

    /** movie_queue.go:461-499, one row of the translation pass. */
    method TranslateOne(p: Row, db: (int, Step) -> bool, translate: (int, string, string) -> bool)
      returns (err: Option<QueueError>)
      requires Valid()
      modifies this
      ensures Valid() && nextId == old(nextId)
      ensures err == TranslationError(p, db, translate)
      ensures rows == if err.None? then StatusRows(old(rows), [p], SubtitleTranslated) else old(rows)
    {
      var m := MovieIdOf(p);
      if !db(m, Begin) {
        return Some(BeginFailed);
      }
      var ok, called := DispatchLanguages(m, p.sourceLanguage, p.targetLanguages, translate);
      if !ok {
        return Some(TranslateFailed);
      }
      err := Settle(m, m, SubtitleTranslated, db);
    }
  }
}
