/**
 * The movie table (backend/movie.go): a map from id to movie record, kept by `MovieStore`.
 * Ids come from SQLite's AUTOINCREMENT, so they start at 1 and are never reused; `nextId` is
 * that counter. Each store operation that can fail inside the database takes the outcome of
 * that step as a parameter.
 */
module Movies {
  import opened Wrappers
  import opened Text
  import opened Listing

  datatype Movie = Movie(id: int, title: string, defaultLanguage: string, languages: map<string, string>)

  datatype MovieError =
    | TitleRequired
    | DefaultLanguageRequired
    | LanguagesRequired
    | InvalidId
    | NotFound
    | StoreFailed

  datatype ListMoviesResponse = ListMoviesResponse(movies: seq<Movie>, pagination: Pagination)

  /**
   * The input guards of `CreateMovie` (movie.go:34-44), checked in this order: a blank title,
   * then a blank default language, then an empty languages map. Whether the default language
   * is among the languages is not checked.
   */
  function CheckNewMovie(title: string, defaultLanguage: string, languages: map<string, string>): (r: Option<MovieError>)
    ensures r == Some(TitleRequired) <==> AllSpace(title)
    ensures r == Some(DefaultLanguageRequired) <==> !AllSpace(title) && AllSpace(defaultLanguage)
    ensures r == Some(LanguagesRequired) <==> !AllSpace(title) && !AllSpace(defaultLanguage) && |languages| == 0
    ensures r.None? <==> !AllSpace(title) && !AllSpace(defaultLanguage) && |languages| > 0
  {
    TrimSpaceEmpty(title);
    TrimSpaceEmpty(defaultLanguage);
    if TrimSpace(title) == "" then Some(TitleRequired)
    else if TrimSpace(defaultLanguage) == "" then Some(DefaultLanguageRequired)
    else if |languages| == 0 then Some(LanguagesRequired)
    else None
  }

  /** The id guard of `GetMovieByID` and `UpdateMovie` (movie.go:72-74, 104-106). */
  predicate ValidId(id: int)
  {
    id > 0
  }

  const MoviesSelect: string := "SELECT * FROM movies"
  const MoviesCount: string := "SELECT COUNT(id) FROM movies"

  /** The count of `ListMovies` (movie.go:154-160). */
  function MoviesCountStatement(title: string): Statement
  {
    CountStatement(MoviesCount, "title", title)
  }

  /** How many movies the count of `ListMovies` finds; `like` stands for SQLite's `LIKE`. */
  function MatchCount(table: map<int, Movie>, title: string, like: (string, string) -> bool): nat
  {
    |set id | id in table && (title == "" || like(table[id].title, Pattern(title)))|
  }

  class MovieStore {
    var table: map<int, Movie>
    var nextId: int

    ghost predicate Valid()
      reads this
    {
      && nextId >= 1
      && forall id :: id in table ==> 1 <= id < nextId && table[id].id == id
    }

    constructor ()
      ensures Valid() && table == map[] && nextId == 1
    {
      table := map[];
      nextId := 1;
    }

    /** movie.go:71-101: a non-positive id is refused before the table is read. */
    function GetMovieByID(id: int): (r: Result<Movie, MovieError>)
      reads this
      requires Valid()
      ensures !ValidId(id) ==> r == Err(InvalidId)
      ensures r.Ok? <==> ValidId(id) && id in table
      ensures r.Ok? ==> r.value.id == id && r.value == table[id]
      ensures ValidId(id) && id !in table ==> r == Err(NotFound)
    {
      if id <= 0 then Err(InvalidId)
      else if id in table then Ok(table[id])
      else Err(NotFound)
    }

    /**
     * movie.go:32-69, with the id of the inserted row returned: the guards first, then the
     * insert (`insertOk` is its outcome), which takes the next AUTOINCREMENT id.
     */
    method CreateMovie(title: string, defaultLanguage: string, languages: map<string, string>, insertOk: bool)
      returns (r: Result<int, MovieError>)
      requires Valid()
      modifies this
      ensures Valid()
      ensures CheckNewMovie(title, defaultLanguage, languages).Some? ==>
        r == Err(CheckNewMovie(title, defaultLanguage, languages).value)
      ensures CheckNewMovie(title, defaultLanguage, languages).None? && !insertOk ==> r == Err(StoreFailed)
      ensures r.Ok? <==> CheckNewMovie(title, defaultLanguage, languages).None? && insertOk
      ensures r.Ok? ==> r.value == old(nextId) && r.value !in old(table)
      ensures r.Ok? ==> table == old(table)[r.value := Movie(r.value, title, defaultLanguage, languages)]
      ensures r.Ok? ==> nextId == old(nextId) + 1
      ensures r.Ok? ==> GetMovieByID(r.value) == Ok(Movie(r.value, title, defaultLanguage, languages))
      ensures r.Err? ==> table == old(table) && nextId == old(nextId)
    {
      var check := CheckNewMovie(title, defaultLanguage, languages);
      if check.Some? {
        return Err(check.value);
      }
      if !insertOk {
        return Err(StoreFailed);
      }
      var id := nextId;
      table := table[id := Movie(id, title, defaultLanguage, languages)];
      nextId := nextId + 1;
      return Ok(id);
    }

    /**
     * movie.go:103-143: replaces title, default language and languages of the row with
     * `movie.id`; an id with no row changes nothing and is not an error.
     */
    method UpdateMovie(movie: Movie, storeOk: bool) returns (err: Option<MovieError>)
      requires Valid()
      modifies this
      ensures Valid() && nextId == old(nextId)
      ensures !ValidId(movie.id) ==> err == Some(InvalidId) && table == old(table)
      ensures ValidId(movie.id) && !storeOk ==> err == Some(StoreFailed) && table == old(table)
      ensures ValidId(movie.id) && storeOk ==> err.None?
      ensures err.None? ==> table == (if movie.id in old(table) then old(table)[movie.id := movie] else old(table))
      ensures err.None? && movie.id in old(table) ==> GetMovieByID(movie.id) == Ok(movie)
    {
      if movie.id <= 0 {
        return Some(InvalidId);
      }
      if !storeOk {
        return Some(StoreFailed);
      }
      if movie.id in table {
        table := table[movie.id := movie];
      }
      return None;
    }

    /** movie.go:145-149: removes the row with `id`, if any; there is no id guard. */
    method DeleteMovie(id: int, storeOk: bool) returns (err: Option<MovieError>)
      requires Valid()
      modifies this
      ensures Valid() && nextId == old(nextId)
      ensures err.None? <==> storeOk
      ensures storeOk ==> table == old(table) - {id} && GetMovieByID(id).Err?
      ensures !storeOk ==> table == old(table)
    {
      if !storeOk {
        return Some(StoreFailed);
      }
      table := table - {id};
      return None;
    }

    /**
     * movie.go:151-223: counts the matching movies, then selects one page. The argument list is
     * reset between the two statements, so the pattern is bound once in each (see
     * `Listing.PageStatement`). `count` stands for running the count statement (movie.go:154-160,
     * `Listing.CountStatement`) and whether it succeeds; `fetch` stands for running the select
     * and scanning its rows.
     */
    method ListMovies(title: string, p: Pagination, like: (string, string) -> bool,
                      count: Statement -> bool, fetch: Statement -> Option<seq<Movie>>)
      returns (r: Result<ListMoviesResponse, MovieError>)
      ensures r.Ok? <==> count(MoviesCountStatement(title))
                         && fetch(PageStatement(MoviesSelect, "title", title, p)).Some?
      ensures r.Ok? ==> r.value.pagination == p.(rowsNumber := MatchCount(table, title, like))
      ensures r.Ok? ==> r.value.movies == fetch(PageStatement(MoviesSelect, "title", title, p)).value
    {
      var countSt := MoviesCountStatement(title);
      if !count(countSt) {
        return Err(StoreFailed);
      }
      var page := p.(rowsNumber := MatchCount(table, title, like));
      var select := PageStatement(MoviesSelect, "title", title, page);
      PageStatementIgnoresCount(MoviesSelect, "title", title, p, page.rowsNumber);
      var rows := fetch(select);
      if rows.None? {
        return Err(StoreFailed);
      }
      return Ok(ListMoviesResponse(rows.value, page));
    }
  }

  /** The guards accept a movie whose default language is not among its languages. */
  lemma DefaultLanguageNotChecked(title: string, defaultLanguage: string, languages: map<string, string>)
    requires !AllSpace(title) && !AllSpace(defaultLanguage) && |languages| > 0
    requires defaultLanguage !in languages
    ensures CheckNewMovie(title, defaultLanguage, languages).None?
  {
  }
}
