/**
 * The text normaliser of the recommender (`preprocess_text`) and the query text handed
 * to the vectoriser (the fallback to the raw lowercased query).
 */
module Normalizer {
  import opened Wrappers
  import opened Text

  /**
   * The domain stopwords. "server" is deliberately absent so that "sql server"
   * survives normalisation as a phrase.
   */
  const Stopwords: set<string> := {
    "system", "course", "online", "learn",
    "developer", "development", "introduction",
    "intro", "basics", "fundamentals",
    "beginner", "advanced"
  }

  /** The tokens of `toks` that are not stopwords, in their original order. */
  function RemoveStopwords(toks: seq<string>): (r: seq<string>)
    ensures |r| <= |toks|
    ensures forall k :: 0 <= k < |r| ==> r[k] !in Stopwords
    ensures forall t :: t in r <==> t in toks && t !in Stopwords
    ensures AllTokens(toks) ==> AllTokens(r)
  {
    if toks == [] then []
    else if toks[0] in Stopwords then RemoveStopwords(toks[1..])
    else [toks[0]] + RemoveStopwords(toks[1..])
  }

  /**
   * Stopword removal works token by token: on a concatenation it is the concatenation of
   * the two results, so the kept tokens keep their order and their repetitions.
   */
  lemma {:induction false} RemoveStopwordsAppend(a: seq<string>, b: seq<string>)
    ensures RemoveStopwords(a + b) == RemoveStopwords(a) + RemoveStopwords(b)
  {
    if a == [] {
      assert a + b == b;
    } else {
      assert (a + b)[0] == a[0] && (a + b)[1..] == a[1..] + b;
      RemoveStopwordsAppend(a[1..], b);
    }
  }

  /** Removing stopwords from tokens that contain none changes nothing. */
  lemma {:induction false} RemoveStopwordsNone(toks: seq<string>)
    requires forall k :: 0 <= k < |toks| ==> toks[k] !in Stopwords
    ensures RemoveStopwords(toks) == toks
  {
    if toks != [] {
      RemoveStopwordsNone(toks[1..]);
    }
  }

  /** Removing stopwords leaves lowercase tokens lowercase. */
  lemma {:induction false} RemoveStopwordsLower(toks: seq<string>)
    requires forall k :: 0 <= k < |toks| ==> IsLower(toks[k])
    ensures forall k :: 0 <= k < |RemoveStopwords(toks)| ==> IsLower(RemoveStopwords(toks)[k])
  {
    if toks != [] {
      RemoveStopwordsLower(toks[1..]);
    }
  }

  /**
   * `preprocess_text(text)`: a non-string cell (modelled as a missing value) becomes "";
   * otherwise the lowercased text is split on whitespace, stopword tokens are dropped and
   * the survivors are joined with single spaces.
   */
  function Preprocess(text: Option<string>): string {
    match text
    case None => ""
    case Some(t) => Join(Survivors(t))
  }

  /** The tokens that survive normalisation, before they are joined. */
  function Survivors(t: string): seq<string> {
    RemoveStopwords(Split(Lower(t)))
  }

  lemma SurvivorsAreLowerTokens(t: string)
    ensures AllTokens(Survivors(t))
    ensures forall k :: 0 <= k < |Survivors(t)| ==> IsLower(Survivors(t)[k])
  {
    LowerIsLower(t);
    SplitLower(Lower(t));
    RemoveStopwordsLower(Split(Lower(t)));
  }

  /**
   * The output tokens of the normaliser are exactly the lowercased input tokens, in order,
   * with the stopwords removed; none of them is a stopword; a non-string gives "".
   */
  lemma PreprocessTokens(text: Option<string>)
    ensures text.None? ==> Preprocess(text) == ""
    ensures text.Some? ==> Split(Preprocess(text)) == RemoveStopwords(Split(Lower(text.value)))
    ensures forall k :: 0 <= k < |Split(Preprocess(text))| ==> Split(Preprocess(text))[k] !in Stopwords
  {
    if text.Some? {
      SurvivorsAreLowerTokens(text.value);
      SplitJoin(Survivors(text.value));
    }
  }

  /**
   * The normalised text is lowercase and single-spaced: no leading or trailing
   * whitespace, no doubled spaces, and ' ' is its only whitespace character.
   */
  lemma PreprocessShape(text: Option<string>)
    ensures IsLower(Preprocess(text))
    ensures SingleSpaced(Preprocess(text))
  {
    if text.Some? {
      SurvivorsAreLowerTokens(text.value);
      JoinLower(Survivors(text.value));
      JoinSingleSpaced(Survivors(text.value));
    }
  }

  /** Normalisation is idempotent. */
  lemma PreprocessIdempotent(text: Option<string>)
    ensures Preprocess(Some(Preprocess(text))) == Preprocess(text)
  {
    var p := Preprocess(text);
    PreprocessShape(text);
    LowerOfLower(p);
    PreprocessTokens(text);
    RemoveStopwordsNone(Split(p));
    if text.Some? {
      SurvivorsAreLowerTokens(text.value);
      SplitJoin(Survivors(text.value));
    }
  }

  /** The normalised form of a text whose lowercase form is already a list of tokens. */
  lemma PreprocessOfJoin(t: string, toks: seq<string>)
    requires AllTokens(toks) && Lower(t) == Join(toks)
    ensures Preprocess(Some(t)) == Join(RemoveStopwords(toks))
  {
    SplitJoin(toks);
  }

  lemma SqlServerLower()
    ensures Lower("SQL Server fundamentals") == "sql server fundamentals"
  {
  }

  lemma SqlServerJoinTail()
    ensures Join(["server", "fundamentals"]) == "server fundamentals"
  {
    var toks := ["server", "fundamentals"];
    assert Join(toks[1..]) == "fundamentals";
  }

  lemma SqlServerJoins()
    ensures Join(["sql", "server", "fundamentals"]) == "sql server fundamentals"
    ensures Join(["sql", "server"]) == "sql server"
  {
    var toks := ["sql", "server", "fundamentals"];
    SqlServerJoinTail();
    assert toks[1..] == ["server", "fundamentals"];
    assert Join(["server"]) == "server";
  }

  lemma SqlServerTokens()
    ensures Split(Lower("SQL Server fundamentals")) == ["sql", "server", "fundamentals"]
  {
    var toks := ["sql", "server", "fundamentals"];
    SqlServerLower();
    SqlServerJoins();
    assert AllTokens(toks);
    SplitJoin(toks);
  }

  lemma SqlServerSurvivors()
    ensures RemoveStopwords(["sql", "server", "fundamentals"]) == ["sql", "server"]
  {
    assert "fundamentals" in Stopwords && "sql" !in Stopwords && "server" !in Stopwords;
  }

  /** "server" is not a stopword, so the phrase "sql server" survives next to a dropped word. */
  lemma SqlServerExample()
    ensures Preprocess(Some("SQL Server fundamentals")) == "sql server"
  {
    SqlServerTokens();
    SqlServerSurvivors();
    SqlServerJoins();
  }

  /** All tokens of `t`, lowercased, are stopwords (vacuously so for blank text). */
  predicate OnlyStopwords(t: string) {
    forall k :: 0 <= k < |Split(Lower(t))| ==> Split(Lower(t))[k] in Stopwords
  }

  /** Normalisation yields "" exactly when every token of the text is a stopword. */
  lemma {:induction false} PreprocessEmpty(t: string)
    ensures Preprocess(Some(t)) == [] <==> OnlyStopwords(t)
  {
    var toks := Split(Lower(t));
    SurvivorsAreLowerTokens(t);
    JoinSingleSpaced(Survivors(t));
    if !OnlyStopwords(t) {
      var k :| 0 <= k < |toks| && toks[k] !in Stopwords;
      assert toks[k] in toks;
      assert toks[k] in Survivors(t);
    }
  }

  /**
   * The text given to the vectoriser for `query`: the normalised query, unless that is
   * blank, in which case the raw query lowercased.
   */
  function FilteredQuery(query: string): string {
    var filtered := Preprocess(Some(query));
    if Strip(filtered) == [] then Lower(query) else filtered
  }

  /**
   * The fallback is taken exactly when every query token is a stopword (or there is
   * none); otherwise the vectoriser sees the normalised query.
   */
  lemma FilteredQueryFallback(query: string)
    ensures OnlyStopwords(query) ==> FilteredQuery(query) == Lower(query)
    ensures !OnlyStopwords(query) ==> FilteredQuery(query) == Preprocess(Some(query))
  {
    var filtered := Preprocess(Some(query));
    PreprocessEmpty(query);
    PreprocessShape(Some(query));
    StripEmpty(filtered);
    assert filtered != [] ==> !IsSpace(filtered[0]);
  }

  lemma IntroCourseLower()
    ensures Lower("Intro Course") == "intro course"
  {
  }

  lemma IntroCourseJoin()
    ensures Join(["intro", "course"]) == "intro course"
  {
    assert Join(["course"]) == "course";
  }

  lemma IntroCourseTokens()
    ensures Split(Lower("Intro Course")) == ["intro", "course"]
  {
    var toks := ["intro", "course"];
    IntroCourseLower();
    IntroCourseJoin();
    assert AllTokens(toks);
    SplitJoin(toks);
  }

  /** A query whose normalised form is not empty is vectorised in that form. */
  lemma FilteredQueryKept(query: string)
    requires Preprocess(Some(query)) != []
    ensures FilteredQuery(query) == Preprocess(Some(query))
  {
    var filtered := Preprocess(Some(query));
    PreprocessShape(Some(query));
    StripEmpty(filtered);
    assert !IsSpace(filtered[0]);
  }

  /** A query made only of stopwords falls back to its lowercased raw text. */
  lemma StopwordQueryFallsBack()
    ensures FilteredQuery("Intro Course") == "intro course"
  {
    IntroCourseTokens();
    assert "intro" in Stopwords && "course" in Stopwords;
    assert OnlyStopwords("Intro Course");
    FilteredQueryFallback("Intro Course");
    IntroCourseLower();
  }
}
