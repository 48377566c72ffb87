/**
 * Worked cases of the recommender on concrete texts: the stopword-filtered query against
 * the raw boost phrase, and the two-course "sql server" scenario.
 */
module Scenarios {
  import opened Wrappers
  import opened Text
  import opened Normalizer
  import opened PhraseMatch
  import opened Rows
  import opened Recommendation

  lemma PythonLower()
    ensures Lower("python fundamentals") == "python fundamentals"
    ensures Lower("Python Fundamentals") == "python fundamentals"
  {
  }

  lemma PythonJoin()
    ensures Join(["python", "fundamentals"]) == "python fundamentals"
    ensures Join(["python"]) == "python"
  {
    assert Join(["fundamentals"]) == "fundamentals";
  }

  lemma PythonStopwords()
    ensures RemoveStopwords(["python", "fundamentals"]) == ["python"]
  {
    var toks := ["python", "fundamentals"];
    assert toks[0] !in Stopwords && toks[1] in Stopwords;
    assert RemoveStopwords(toks[1..]) == [];
  }

  lemma PythonPreprocess()
    ensures Preprocess(Some("python fundamentals")) == "python"
    ensures Preprocess(Some("Python Fundamentals")) == "python"
  {
    var toks := ["python", "fundamentals"];
    PythonLower();
    PythonJoin();
    assert AllTokens(toks);
    PythonStopwords();
    PreprocessOfJoin("python fundamentals", toks);
    PreprocessOfJoin("Python Fundamentals", toks);
  }

  lemma PythonFiltered()
    ensures FilteredQuery("python fundamentals") == "python"
  {
    PythonPreprocess();
    FilteredQueryKept("python fundamentals");
  }

  /**
   * The boost phrase is built from the raw query: for "python fundamentals" the vectoriser
   * sees "python", yet a record whose text normalises to "python" is not boosted.
   */
  lemma RawPhraseNotFiltered()
    ensures FilteredQuery("python fundamentals") == "python"
    ensures BoostPhrase("python fundamentals") == "python fundamentals"
    ensures Preprocess(Some("Python Fundamentals")) == "python"
    ensures !Contains(Preprocess(Some("Python Fundamentals")), BoostPhrase("python fundamentals"))
  {
    PythonFiltered();
    PythonPreprocess();
    PythonPhrase();
    ShorterTextNoMatch("python", "python fundamentals");
  }

  lemma PythonPhrase()
    ensures BoostPhrase("python fundamentals") == "python fundamentals"
  {
    PlainPhrase("python fundamentals");
  }

  /** The two-course table of the end-to-end scenario. */
  const ScenarioRows: seq<Row> := [
    Row(None, Some("Intro to SQL Server"), None, None, None, None, None, None, None, None, None,
        None, None, None, None, None, Some("sql server database management")),
    Row(None, Some("Java Basics"), None, None, None, None, None, None, None, None, None,
        None, None, None, None, None, Some("java programming basics"))
  ]

  lemma SqlJoinTail()
    ensures Join(["database", "management"]) == "database management"
  {
    assert Join(["management"]) == "management";
  }

  lemma SqlJoinMiddle()
    ensures Join(["server", "database", "management"]) == "server database management"
  {
    var t := ["server", "database", "management"];
    SqlJoinTail();
    assert t[1..] == ["database", "management"];
  }

  lemma SqlJoin()
    ensures Join(["sql", "server", "database", "management"]) == "sql server database management"
  {
    var t := ["sql", "server", "database", "management"];
    SqlJoinMiddle();
    assert t[1..] == ["server", "database", "management"];
  }

  lemma SqlLower()
    ensures Lower("sql server database management") == "sql server database management"
  {
  }

  lemma SqlTokens()
    ensures Lower("sql server database management") == Join(["sql", "server", "database", "management"])
    ensures AllTokens(["sql", "server", "database", "management"])
  {
    SqlJoin();
    SqlLower();
  }

  lemma SqlStopwords()
    ensures RemoveStopwords(["sql", "server", "database", "management"]) == ["sql", "server", "database", "management"]
  {
    var t := ["sql", "server", "database", "management"];
    assert t[0] !in Stopwords && t[1] !in Stopwords && t[2] !in Stopwords && t[3] !in Stopwords;
    RemoveStopwordsNone(t);
  }

  lemma SqlText()
    ensures Preprocess(Some("sql server database management")) == "sql server database management"
  {
    SqlTokens();
    SqlStopwords();
    PreprocessOfJoin("sql server database management", ["sql", "server", "database", "management"]);
    SqlJoin();
  }

  lemma JavaJoin()
    ensures Join(["java", "programming", "basics"]) == "java programming basics"
    ensures Join(["java", "programming"]) == "java programming"
  {
    var t := ["java", "programming", "basics"];
    assert Join(t[2..]) == "basics";
    assert Join(t[1..]) == "programming basics";
    assert Join(["programming"]) == "programming";
  }

  lemma JavaLower()
    ensures Lower("java programming basics") == "java programming basics"
  {
  }

  lemma JavaTokens()
    ensures Lower("java programming basics") == Join(["java", "programming", "basics"])
    ensures AllTokens(["java", "programming", "basics"])
  {
    JavaJoin();
    JavaLower();
  }

  lemma JavaStopwords()
    ensures RemoveStopwords(["java", "programming", "basics"]) == ["java", "programming"]
  {
    var t := ["java", "programming", "basics"];
    assert t[0] !in Stopwords && t[1] !in Stopwords && t[2] in Stopwords;
    assert RemoveStopwords(t[2..]) == [];
    assert RemoveStopwords(t[1..]) == ["programming"];
  }

  lemma JavaText()
    ensures Preprocess(Some("java programming basics")) == "java programming"
  {
    JavaTokens();
    JavaStopwords();
    PreprocessOfJoin("java programming basics", ["java", "programming", "basics"]);
    JavaJoin();
  }

  lemma ScenarioProcessed()
    ensures ProcessedTexts(ScenarioRows, true) == ["sql server database management", "java programming"]
  {
    SqlText();
    JavaText();
    assert ProcessedText(ScenarioRows[0], true) == "sql server database management";
    assert ProcessedText(ScenarioRows[1], true) == "java programming";
  }

  lemma SqlServerQueryText()
    ensures Preprocess(Some("sql server")) == "sql server"
  {
    var t := ["sql", "server"];
    SqlServerJoins();
    assert Lower("sql server") == "sql server";
    assert AllTokens(t);
    assert t[0] !in Stopwords && t[1] !in Stopwords;
    RemoveStopwordsNone(t);
    PreprocessOfJoin("sql server", t);
  }

  /** The query "sql server" reaches the vectoriser unchanged. */
  lemma SqlServerQuery()
    ensures FilteredQuery("sql server") == "sql server"
  {
    SqlServerQueryText();
    FilteredQueryKept("sql server");
  }

  /** In the scenario only the SQL Server course is boosted for the query "sql server". */
  lemma ScenarioBoost(a: real, b: real)
    ensures Boosted([a, b], ProcessedTexts(ScenarioRows, true), BoostPhrase("sql server")) == [a * 13.0 / 10.0, b]
  {
    ScenarioProcessed();
    SqlServerPhraseScenario();
    BoostFirstOfTwo(a, b, "sql server database management", "java programming", "sql server");
  }

  lemma BoostFirstOfTwo(a: real, b: real, first: string, second: string, phrase: string)
    requires ContainsPhrase(first, phrase) && !ContainsPhrase(second, phrase)
    ensures Boosted([a, b], [first, second], phrase) == [a * 13.0 / 10.0, b]
  {
  }

  /**
   * For the query "sql server", whatever non-zero score the SQL Server course gets (at least
   * the Java course's), every valid top-5 answer lists that course first with its score
   * boosted by 1.3, strictly ahead of the Java course.
   */
  lemma SqlServerScenario(a: real, b: real, result: seq<Recommendation>)
    requires 0.0 < a && 0.0 <= b <= a
    requires IsTopN(result, ScenarioRows,
      Boosted([a, b], ProcessedTexts(ScenarioRows, true), BoostPhrase("sql server")), HeadCount(5, 2))
    ensures |result| == 2
    ensures result[0].index == 0 && result[0].title == Some("Intro to SQL Server")
    ensures result[0].similarity == a * 13.0 / 10.0 && result[1].similarity == b
    ensures result[0].similarity > result[1].similarity
  {
    ScenarioBoost(a, b);
    TwoRowTopN(ScenarioRows, [a * 13.0 / 10.0, b], result);
  }

  /** Over two rows with different scores, the only valid top-2 answer is the higher row first. */
  lemma TwoRowTopN(rows: seq<Row>, sim: seq<real>, result: seq<Recommendation>)
    requires |rows| == 2 && |sim| == 2 && sim[0] > sim[1]
    requires IsTopN(result, rows, sim, 2)
    ensures |result| == 2
    ensures result[0] == Project(0, rows[0], sim[0]) && result[1] == Project(1, rows[1], sim[1])
  {
    assert result[0].index != result[1].index;
    assert result[0].similarity >= result[1].similarity;
  }

  /**
   * A query on a two-course recommender whose scorer gives the first course a non-zero
   * score at least the second's, where only the first course's text holds the phrase: the
   * first course comes back first with its boosted score, then the second unchanged.
   */
  method AskTwoCourses(recommender: Recommender, query: string, a: real, b: real)
    returns (result: seq<Recommendation>)
    requires recommender.Valid() && |recommender.rows| == 2
    requires recommender.scorer(FilteredQuery(query)) == [a, b] && 0.0 < a && 0.0 <= b <= a
    requires ContainsPhrase(recommender.processed[0], BoostPhrase(query))
    requires !ContainsPhrase(recommender.processed[1], BoostPhrase(query))
    modifies recommender
    ensures |result| == 2
    ensures result[0] == Project(0, recommender.rows[0], a * 13.0 / 10.0)
    ensures result[1] == Project(1, recommender.rows[1], b)
  {
    ghost var texts := recommender.processed;
    assert texts == [texts[0], texts[1]];
    BoostFirstOfTwo(a, b, texts[0], texts[1], BoostPhrase(query));
    result := recommender.Recommend(query, 5);
    ghost var sim := recommender.similarity[..];
    assert sim == [a * 13.0 / 10.0, b];
    assert sim[0] == a * 13.0 / 10.0 && sim[1] == b;
    assert sim[0] > sim[1];
    assert HeadCount(5, |recommender.rows|) == 2;
    TwoRowTopN(recommender.rows, sim, result);
  }

  /**
   * The end-to-end scenario on a recommender built over the two-course table, with a scorer
   * that gives the SQL Server course a non-zero score at least the Java course's.
   */
  method SqlServerEndToEnd(a: real, b: real) returns (result: seq<Recommendation>)
    requires 0.0 < a && 0.0 <= b <= a
    ensures |result| == 2
    ensures result[0].index == 0 && result[0].title == Some("Intro to SQL Server")
    ensures result[0].similarity == a * 13.0 / 10.0 && result[1].similarity == b
  {
    var scorer := (q: string) => [a, b];
    var recommender := new Recommender(ScenarioRows, true, scorer);
    assert recommender.processed == ProcessedTexts(ScenarioRows, true);
    ScenarioProcessed();
    SqlServerPhraseScenario();
    result := AskTwoCourses(recommender, "sql server", a, b);
  }
}
