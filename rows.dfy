/**
 * The course table shared by the cleaning, merging and ranking stages: a row of the unified
 * schema, and a data frame whose rows are updated in place.
 */
module Rows {
  import opened Wrappers
  import opened Duplicates

  /**
   * One course in the unified schema. Every cell may be missing; numeric and boolean
   * cells are kept as their text, since no stage computes with them.
   */
  datatype Row = Row(
    courseId: Option<string>,
    title: Option<string>,
    url: Option<string>,
    isPaid: Option<string>,
    price: Option<string>,
    subscribers: Option<string>,
    reviews: Option<string>,
    lectures: Option<string>,
    level: Option<string>,
    duration: Option<string>,
    publishedTimestamp: Option<string>,
    subject: Option<string>,
    provider: Option<string>,
    rating: Option<string>,
    description: Option<string>,
    skills: Option<string>,
    textForTfidf: Option<string>)

  /** The column names of the unified schema, in the order of the fields of `Row`. */
  const Columns: seq<string> := [
    "course_id", "title", "url", "is_paid", "price", "subscribers", "reviews", "lectures",
    "level", "duration", "published_timestamp", "subject", "provider", "rating",
    "description", "skills", "text_for_tfidf"
  ]

  /** The cell of `r` in the column named `column` (`df[column]` on one row). */
  function Cell(r: Row, column: string): Option<string>
    requires column in Columns
  {
    if column == "course_id" then r.courseId
    else if column == "title" then r.title
    else if column == "url" then r.url
    else if column == "is_paid" then r.isPaid
    else if column == "price" then r.price
    else if column == "subscribers" then r.subscribers
    else if column == "reviews" then r.reviews
    else if column == "lectures" then r.lectures
    else if column == "level" then r.level
    else if column == "duration" then r.duration
    else if column == "published_timestamp" then r.publishedTimestamp
    else if column == "subject" then r.subject
    else if column == "provider" then r.provider
    else if column == "rating" then r.rating
    else if column == "description" then r.description
    else if column == "skills" then r.skills
    else r.textForTfidf
  }

  /** Two rows are equal exactly when they agree in every column. */
  lemma RowsEqualByCells(r: Row, s: Row)
    ensures r == s <==> forall c :: c in Columns ==> Cell(r, c) == Cell(s, c)
  {
    if forall c :: c in Columns ==> Cell(r, c) == Cell(s, c) {
      CellsAgreeHead(r, s);
      CellsAgreeTail(r, s);
    }
  }

  /** Agreement in every named column pins the first nine fields. */
  lemma CellsAgreeHead(r: Row, s: Row)
    requires forall c :: c in Columns ==> Cell(r, c) == Cell(s, c)
    ensures r.courseId == s.courseId && r.title == s.title && r.url == s.url
      && r.isPaid == s.isPaid && r.price == s.price && r.subscribers == s.subscribers
      && r.reviews == s.reviews && r.lectures == s.lectures && r.level == s.level
  {
    assert Cell(r, Columns[0]) == Cell(s, Columns[0]);
    assert Cell(r, Columns[1]) == Cell(s, Columns[1]);
    assert Cell(r, Columns[2]) == Cell(s, Columns[2]);
    assert Cell(r, Columns[3]) == Cell(s, Columns[3]);
    assert Cell(r, Columns[4]) == Cell(s, Columns[4]);
    assert Cell(r, Columns[5]) == Cell(s, Columns[5]);
    assert Cell(r, Columns[6]) == Cell(s, Columns[6]);
    assert Cell(r, Columns[7]) == Cell(s, Columns[7]);
    assert Cell(r, Columns[8]) == Cell(s, Columns[8]);
  }

  /** Agreement in every named column pins the last eight fields. */
  lemma CellsAgreeTail(r: Row, s: Row)
    requires forall c :: c in Columns ==> Cell(r, c) == Cell(s, c)
    ensures r.duration == s.duration && r.publishedTimestamp == s.publishedTimestamp && r.subject == s.subject
      && r.provider == s.provider && r.rating == s.rating && r.description == s.description
      && r.skills == s.skills && r.textForTfidf == s.textForTfidf
  {
    assert Cell(r, Columns[9]) == Cell(s, Columns[9]);
    assert Cell(r, Columns[10]) == Cell(s, Columns[10]);
    assert Cell(r, Columns[11]) == Cell(s, Columns[11]);
    assert Cell(r, Columns[12]) == Cell(s, Columns[12]);
    assert Cell(r, Columns[13]) == Cell(s, Columns[13]);
    assert Cell(r, Columns[14]) == Cell(s, Columns[14]);
    assert Cell(r, Columns[15]) == Cell(s, Columns[15]);
    assert Cell(r, Columns[16]) == Cell(s, Columns[16]);
  }

  /** `fillna("")` on one cell. */
  function OrEmpty(cell: Option<string>): string {
    cell.GetOr("")
  }

  /** The validation failures (`assert ... notna().all()` / `raise ValueError`). */
  datatype Failure = MissingTitle | MissingText

  /** The first failing check on `rows`: titles are checked before texts. */
  ghost function Check(rows: seq<Row>): Option<Failure> {
    if exists r :: r in rows && r.title.None? then Some(MissingTitle)
    else if exists r :: r in rows && r.textForTfidf.None? then Some(MissingText)
    else None
  }

  /** Dropping duplicates does not change the outcome of the checks. */
  lemma CheckDedup(rows: seq<Row>)
    ensures Check(Dedup(rows)) == Check(rows)
  {
  }

  /** Some row equals an earlier row (`duplicated().any()`). */
  ghost predicate HasDuplicates(rows: seq<Row>) {
    exists i :: 0 <= i < |rows| && rows[i] in rows[..i]
  }

  lemma {:induction false} HasDuplicatesIff(rows: seq<Row>)
    ensures HasDuplicates(rows) <==> !NoDuplicates(rows)
  {
    if HasDuplicates(rows) {
      var i :| 0 <= i < |rows| && rows[i] in rows[..i];
      var j :| 0 <= j < i && rows[..i][j] == rows[i];
      assert rows[j] == rows[i];
    }
    if !NoDuplicates(rows) {
      var i, j :| 0 <= i < j < |rows| && rows[i] == rows[j];
      assert rows[..j][i] == rows[j];
    }
  }

  /** A data frame: a sequence of rows that its methods rewrite in place. */
  class Frame {
    var rows: seq<Row>

    constructor (rows: seq<Row>)
      ensures this.rows == rows
    {
      this.rows := rows;
    }

    /** `drop_duplicates(inplace=True)`: keep the first occurrence of every row. */
    method DropDuplicates()
      modifies this
      ensures rows == Dedup(old(rows))
    {
      var out: seq<Row> := [];
      var seen: set<Row> := {};
      var i := 0;
      while i < |rows|
        invariant 0 <= i <= |rows|
        invariant out == Dedup(rows[..i])
        invariant forall r :: r in seen <==> r in out
      {
        var r := rows[i];
        assert rows[..i + 1][..i] == rows[..i];
        if r !in seen {
          out := out + [r];
          seen := seen + {r};
        }
        i := i + 1;
      }
      assert rows[..i] == rows;
      rows := out;
    }

    /** `duplicated().any()`: does some row equal an earlier one? */
    method AnyDuplicated() returns (found: bool)
      ensures found <==> !NoDuplicates(rows)
    {
      var seen: set<Row> := {};
      var i := 0;
      found := false;
      while i < |rows|
        invariant 0 <= i <= |rows|
        invariant forall r :: r in seen <==> r in rows[..i]
        invariant found <==> HasDuplicates(rows[..i])
      {
        var r := rows[i];
        assert rows[..i + 1] == rows[..i] + [r];
        assert forall j :: 0 <= j <= i ==> rows[..i + 1][..j] == rows[..j];
        if r in seen {
          found := true;
        }
        seen := seen + {r};
        i := i + 1;
      }
      assert rows[..i] == rows;
      HasDuplicatesIff(rows);
    }

    /** The not-null checks: first every `title`, then every `text_for_tfidf`. */
    method Validate() returns (failure: Option<Failure>)
      ensures failure == Check(rows)
    {
      var i := 0;
      while i < |rows|
        invariant 0 <= i <= |rows|
        invariant forall j :: 0 <= j < i ==> rows[j].title.Some?
      {
        if rows[i].title.None? {
          return Some(MissingTitle);
        }
        i := i + 1;
      }
      i := 0;
      while i < |rows|
        invariant 0 <= i <= |rows|
        invariant forall j :: 0 <= j < i ==> rows[j].textForTfidf.Some?
      {
        if rows[i].textForTfidf.None? {
          return Some(MissingText);
        }
        i := i + 1;
      }
      return None;
    }
  }
}
