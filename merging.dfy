/**
 * The merging stage: both cleaned tables are checked again, a table that still has
 * duplicates only draws a warning, and the rows are concatenated (Udemy first) and
 * deduplicated once more.
 */
module Merging {
  import opened Wrappers
  import opened Duplicates
  import opened Rows

  /** The name a table is checked under, in the order the tables are checked. */
  datatype Source = Udemy | Coursera

  /**
   * The `ValueError` raised for the first table that fails a check, with the duplicate
   * warnings already issued for the tables checked before it.
   */
  datatype MergeError = MergeError(source: Source, failure: Failure, warned: seq<Source>)

  /** The unified table and the tables warned about for still having duplicates. */
  datatype Merged = Merged(rows: seq<Row>, warnings: seq<Source>)

  /** The sources, among the checked tables, that draw a duplicate warning, in order. */
  ghost function Warnings(checked: seq<(Source, seq<Row>)>): seq<Source> {
    if checked == [] then []
    else
      var last := checked[|checked| - 1];
      Warnings(checked[..|checked| - 1]) + (if NoDuplicates(last.1) then [] else [last.0])
  }

  /** The duplicate warning for one table alone. */
  ghost function WarningFor(source: Source, rows: seq<Row>): seq<Source> {
    if NoDuplicates(rows) then [] else [source]
  }

  /**
   * Checks both tables in turn, failing on the first missing title or text, then returns
   * the deduplicated concatenation.
   */
  method MergeDatasets(udemy: seq<Row>, coursera: seq<Row>) returns (res: Result<Merged, MergeError>)
    ensures res.Err? <==> Check(udemy).Some? || Check(coursera).Some?
    ensures res.Err? && Check(udemy).Some? ==>
      res.error == MergeError(Udemy, Check(udemy).value, [])
    ensures res.Err? && Check(udemy).None? ==>
      res.error == MergeError(Coursera, Check(coursera).value, WarningFor(Udemy, udemy))
    ensures res.Ok? ==> res.value.rows == Dedup(udemy + coursera)
    ensures res.Ok? ==> res.value.warnings == WarningFor(Udemy, udemy) + WarningFor(Coursera, coursera)
  {
    var tables := [(Udemy, udemy), (Coursera, coursera)];
    var warnings: seq<Source> := [];
    var k := 0;
    while k < |tables|
      invariant 0 <= k <= |tables|
      invariant forall j :: 0 <= j < k ==> Check(tables[j].1).None?
      invariant warnings == Warnings(tables[..k])
    {
      var (name, df) := tables[k];
      var frame := new Frame(df);
      var failure := frame.Validate();
      if failure.Some? {
        assert k == 1 ==> tables[..k] == [(Udemy, udemy)];
        return Err(MergeError(name, failure.value, warnings));
      }
      var duplicated := frame.AnyDuplicated();
      assert tables[..k + 1][..k] == tables[..k];
      if duplicated {
        warnings := warnings + [name];
      }
      k := k + 1;
    }
    assert tables[..2][..1] == [(Udemy, udemy)];
    var merged := new Frame(udemy + coursera);
    merged.DropDuplicates();
    return Ok(Merged(merged.rows, warnings));
  }

  /**
   * The unified rows: no row twice, every input row present, no row invented, at most
   * as many as the inputs together, and every title and text present when both inputs
   * passed their checks.
   */
  lemma MergedRows(udemy: seq<Row>, coursera: seq<Row>)
    ensures NoDuplicates(Dedup(udemy + coursera))
    ensures forall r :: r in Dedup(udemy + coursera) <==> r in udemy || r in coursera
    ensures |Dedup(udemy + coursera)| <= |udemy| + |coursera|
    ensures Check(udemy).None? && Check(coursera).None? ==> Check(Dedup(udemy + coursera)).None?
  {
    var m := Dedup(udemy + coursera);
    if Check(udemy).None? && Check(coursera).None? {
      forall i | 0 <= i < |m| ensures m[i].title.Some? && m[i].textForTfidf.Some? {
        assert m[i] in udemy + coursera;
        var j :| 0 <= j < |udemy + coursera| && (udemy + coursera)[j] == m[i];
        if j < |udemy| {
          assert udemy[j] == m[i];
        } else {
          assert coursera[j - |udemy|] == m[i];
        }
      }
    }
  }

  /**
   * The unified table starts with the deduplicated Udemy rows in their own order (all of
   * them, unchanged, when the Udemy table had no duplicates); every row after them is a
   * Coursera row that no Udemy row equals.
   */
  lemma UdemyFirst(udemy: seq<Row>, coursera: seq<Row>)
    ensures |Dedup(udemy)| <= |Dedup(udemy + coursera)|
    ensures Dedup(udemy + coursera)[..|Dedup(udemy)|] == Dedup(udemy)
    ensures NoDuplicates(udemy) ==>
              |udemy| <= |Dedup(udemy + coursera)| && Dedup(udemy + coursera)[..|udemy|] == udemy
    ensures forall r :: r in Dedup(udemy + coursera)[|Dedup(udemy)|..] ==> r in coursera && r !in udemy
  {
    DedupPrefix(udemy, coursera);
    if NoDuplicates(udemy) {
      DedupDistinct(udemy);
    }
  }

  /**
   * Rows of the unified table keep the order of their first occurrence in the
   * concatenation, so each Udemy row precedes each Coursera row new to Udemy.
   */
  lemma MergedOrder(udemy: seq<Row>, coursera: seq<Row>, x: Row, y: Row)
    requires x in udemy && y in coursera && y !in udemy
    ensures FirstIndex(Dedup(udemy + coursera), x) < FirstIndex(Dedup(udemy + coursera), y)
  {
    DedupFirstOrder(udemy + coursera, x, y);
    FirstIndexAppend(udemy, coursera, x);
    FirstIndexAppend(udemy, coursera, y);
  }
}
