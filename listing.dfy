/**
 * The paged listing shared by `ListMovies` (backend/movie.go) and `ListQueue`
 * (backend/movie_queue.go) over the `Pagination` record of backend/pagination.go: an optional
 * `LIKE` filter, an optional `ORDER BY`, then `LIMIT ? OFFSET ?` with
 * offset = (page - 1) * rowsPerPage. A statement is its SQL text and its positional arguments.
 */
module Listing {

  /** backend/pagination.go:3-9. */
  datatype Pagination = Pagination(sortBy: string, descending: bool, page: int, rowsPerPage: int, rowsNumber: int)

  /** A positional argument bound to a `?` placeholder. */
  datatype Arg = Text(text: string) | Number(number: int)

  datatype Statement = Statement(query: string, args: seq<Arg>)

  /** The row offset of a page. */
  function Offset(p: Pagination): int
  {
    (p.page - 1) * p.rowsPerPage
  }

  /** The `LIKE` pattern built from a search term. */
  function Pattern(term: string): string
  {
    "%" + term + "%"
  }

  /** Number of `?` placeholders in a piece of SQL text. */
  function Placeholders(s: string): nat
  {
    if s == [] then 0 else Placeholders(s[..|s| - 1]) + (if s[|s| - 1] == '?' then 1 else 0)
  }

  lemma {:induction false} PlaceholdersAppend(a: string, b: string)
    ensures Placeholders(a + b) == Placeholders(a) + Placeholders(b)
    decreases |b|
  {
    if b == [] {
      assert a + b == a;
    } else {
      assert (a + b)[..|a + b| - 1] == a + b[..|b| - 1];
      PlaceholdersAppend(a, b[..|b| - 1]);
    }
  }

  lemma {:induction false} NoPlaceholder(s: string)
    requires '?' !in s
    ensures Placeholders(s) == 0
    decreases |s|
  {
    if s != [] {
      NoPlaceholder(s[..|s| - 1]);
    }
  }

  function WhereClause(column: string, term: string): string
  {
    if term != "" then " WHERE " + column + " LIKE ?" else ""
  }

  function Direction(p: Pagination): string
  {
    if p.descending then " DESC" else " ASC"
  }

  /** `ORDER BY` with the caller's column pasted in as given. */
  function OrderClause(p: Pagination): string
  {
    if p.sortBy != "" then " ORDER BY " + p.sortBy + Direction(p) else ""
  }

  const LimitClause: string := " LIMIT ? OFFSET ?"

  function FilterArgs(term: string): seq<Arg>
  {
    if term != "" then [Text(Pattern(term))] else []
  }

  lemma WherePlaceholders(column: string, term: string)
    ensures Placeholders(WhereClause(column, term)) == |FilterArgs(term)| + (if term != "" then Placeholders(column) else 0)
  {
    if term != "" {
      NoPlaceholder(" WHERE ");
      NoPlaceholder(" LIKE ");
      assert " LIKE ?" == " LIKE " + "?";
      PlaceholdersAppend(" LIKE ", "?");
      PlaceholdersAppend(" WHERE ", column);
      PlaceholdersAppend(" WHERE " + column, " LIKE ?");
    }
  }

  lemma OrderPlaceholders(p: Pagination)
    ensures Placeholders(OrderClause(p)) == Placeholders(p.sortBy)
  {
    if p.sortBy != "" {
      NoPlaceholder(" ORDER BY ");
      NoPlaceholder(" DESC");
      NoPlaceholder(" ASC");
      PlaceholdersAppend(" ORDER BY ", p.sortBy);
      PlaceholdersAppend(" ORDER BY " + p.sortBy, Direction(p));
    }
  }

  lemma LimitPlaceholders()
    ensures Placeholders(LimitClause) == 2
  {
    NoPlaceholder(" LIMIT ");
    NoPlaceholder(" OFFSET ");
    assert LimitClause == " LIMIT " + "?" + " OFFSET " + "?";
    PlaceholdersAppend(" LIMIT ", "?");
    PlaceholdersAppend(" LIMIT " + "?", " OFFSET ");
    PlaceholdersAppend(" LIMIT " + "?" + " OFFSET ", "?");
  }

  /**
   * The select of one page: `head`, the filter, the order and the limit, with the pattern
   * bound once, then the page size and the offset. Every argument has its placeholder; the only
   * other `?` are those pasted in through `head`, `column` and the sort column.
   */
  function PageStatement(head: string, column: string, term: string, p: Pagination): (st: Statement)
    ensures Placeholders(st.query) == |st.args| + Placeholders(head) + Placeholders(p.sortBy)
      + (if term != "" then Placeholders(column) else 0)
    ensures |st.args| >= 2
    ensures st.args[|st.args| - 2..] == [Number(p.rowsPerPage), Number(Offset(p))]
    ensures term != "" ==> st.args[0] == Text(Pattern(term)) && |st.args| == 3
    ensures term == "" ==> |st.args| == 2
  {
    WherePlaceholders(column, term);
    OrderPlaceholders(p);
    LimitPlaceholders();
    var where := WhereClause(column, term);
    var order := OrderClause(p);
    PlaceholdersAppend(head, where);
    PlaceholdersAppend(head + where, order);
    PlaceholdersAppend(head + where + order, LimitClause);
    Statement(head + where + order + LimitClause, FilterArgs(term) + [Number(p.rowsPerPage), Number(Offset(p))])
  }

  /** The select does not depend on the row count stored in the page. */
  lemma PageStatementIgnoresCount(head: string, column: string, term: string, p: Pagination, n: int)
    ensures PageStatement(head, column, term, p.(rowsNumber := n)) == PageStatement(head, column, term, p)
  {
    var q := p.(rowsNumber := n);
    assert q.sortBy == p.sortBy && Direction(q) == Direction(p);
    assert OrderClause(q) == OrderClause(p) && Offset(q) == Offset(p);
  }

  /** The count that precedes the page: `head` and the filter, with the pattern bound once. */
  function CountStatement(head: string, column: string, term: string): (st: Statement)
    ensures term != "" <==> st.args == [Text(Pattern(term))]
    ensures term == "" <==> st.args == []
  {
    Statement(head + WhereClause(column, term), FilterArgs(term))
  }

  /** The count holds one `?` per argument, besides those in `head` and, when filtered, `column`. */
  lemma CountPlaceholders(head: string, column: string, term: string)
    ensures var st := CountStatement(head, column, term);
      Placeholders(st.query) == |st.args| + Placeholders(head) + (if term != "" then Placeholders(column) else 0)
  {
    WherePlaceholders(column, term);
    PlaceholdersAppend(head, WhereClause(column, term));
  }
}
