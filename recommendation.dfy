/**
 * The recommender: the processed text of every course, the phrase boost applied in place
 * to the similarity scores of a query, and the top-N projection of the courses sorted by
 * their boosted score.
 */
module Recommendation {
  import opened Wrappers
  import opened Text
  import opened Normalizer
  import opened PhraseMatch
  import opened Ranking
  import opened Rows

  /** The factor applied to the score of a record that contains the query phrase. */
  const BoostFactor: real := 1.3

  /** The default number of recommendations. */
  const DefaultTopN: int := 30

  /** One returned row: the table index, the projected columns and the boosted score. */
  datatype Recommendation = Recommendation(
    index: nat,
    courseId: Option<string>,
    title: Option<string>,
    url: Option<string>,
    provider: Option<string>,
    level: Option<string>,
    duration: Option<string>,
    rating: Option<string>,
    isPaid: Option<string>,
    subscribers: Option<string>,
    reviews: Option<string>,
    lectures: Option<string>,
    subject: Option<string>,
    similarity: real)

  /** The returned columns of course `index`, with its score. */
  function Project(index: nat, row: Row, score: real): Recommendation {
    Recommendation(index, row.courseId, row.title, row.url, row.provider, row.level,
      row.duration, row.rating, row.isPaid, row.subscribers, row.reviews, row.lectures,
      row.subject, score)
  }

  /**
   * The `processed_text` of a course: the normalised `text_for_tfidf` when the table has
   * that column, otherwise the normalised title, description and skills.
   */
  function ProcessedText(row: Row, hasTextColumn: bool): string {
    if hasTextColumn then Preprocess(row.textForTfidf)
    else Preprocess(Some(OrEmpty(row.title) + " " + OrEmpty(row.description) + " " + OrEmpty(row.skills)))
  }

  function ProcessedTexts(rows: seq<Row>, hasTextColumn: bool): seq<string> {
    seq(|rows|, i requires 0 <= i < |rows| => ProcessedText(rows[i], hasTextColumn))
  }

  // ---------------------------------------------------------------------------------------
  // Phrase boost

  /** The boosted score of one record. */
  function BoostOne(score: real, text: string, phrase: string): real {
    if Contains(text, phrase) then score * BoostFactor else score
  }

  /** The scores after the boost, record by record. */
  function Boosted(scores: seq<real>, texts: seq<string>, phrase: string): (r: seq<real>)
    requires |scores| == |texts|
    ensures |r| == |scores|
  {
    seq(|scores|, i requires 0 <= i < |scores| => BoostOne(scores[i], texts[i], phrase))
  }

  /**
   * The boost is exact and local: a score is multiplied by the factor when its record
   * contains the phrase and is left as it is otherwise, so a non-zero score changes
   * exactly when its record contains the phrase.
   */
  lemma BoostChanges(scores: seq<real>, texts: seq<string>, phrase: string, i: nat)
    requires |scores| == |texts| && i < |scores|
    ensures ContainsPhrase(texts[i], phrase) ==> Boosted(scores, texts, phrase)[i] == scores[i] * 13.0 / 10.0
    ensures !ContainsPhrase(texts[i], phrase) ==> Boosted(scores, texts, phrase)[i] == scores[i]
    ensures scores[i] != 0.0 ==> (Boosted(scores, texts, phrase)[i] != scores[i] <==> ContainsPhrase(texts[i], phrase))
  {
  }

  /** Scores in [0, 1] are boosted into [0, 1.3]; a boosted positive score grows. */
  lemma BoostBounds(scores: seq<real>, texts: seq<string>, phrase: string)
    requires |scores| == |texts|
    requires forall i :: 0 <= i < |scores| ==> 0.0 <= scores[i] <= 1.0
    ensures forall i :: 0 <= i < |scores| ==>
      scores[i] <= Boosted(scores, texts, phrase)[i] <= 13.0 / 10.0
  {
  }

  /**
   * Boosting never lets a record overtake a record at least as high that contains the
   * phrase too, or one that it does not beat on the phrase.
   */
  lemma BoostKeepsOrder(scores: seq<real>, texts: seq<string>, phrase: string, i: nat, j: nat)
    requires |scores| == |texts| && i < |scores| && j < |scores|
    requires 0.0 <= scores[j] <= scores[i]
    requires ContainsPhrase(texts[i], phrase) || !ContainsPhrase(texts[j], phrase)
    ensures Boosted(scores, texts, phrase)[j] <= Boosted(scores, texts, phrase)[i]
  {
  }

  /**
   * A blank query gives the empty phrase, whose pattern `\b\b` matches every text with a
   * word character: each such record with a non-zero score is boosted.
   */
  lemma BlankQueryBoosts(query: string, scores: seq<real>, texts: seq<string>, i: nat)
    requires AllSpace(query)
    requires |scores| == |texts| && i < |scores| && scores[i] != 0.0
    ensures BoostPhrase(query) == ""
    ensures Boosted(scores, texts, BoostPhrase(query))[i] != scores[i]
      <==> exists p :: 0 <= p < |texts[i]| && IsWordChar(texts[i][p])
  {
    StripEmpty(query);
    EmptyPhraseMatches(texts[i]);
  }

  // ---------------------------------------------------------------------------------------
  // Ranking and truncation

  /** The number of rows `head(top_n)` keeps of `len`; a negative count drops trailing rows. */
  function HeadCount(topN: int, len: nat): (c: nat)
    ensures c <= len
    ensures topN >= 0 ==> c <= topN && (c == topN || c == len)
    ensures topN < 0 ==> c == len + topN || (c == 0 && len + topN <= 0)
  {
    if topN >= 0 then (if topN < len then topN else len)
    else if len + topN > 0 then len + topN
    else 0
  }

  /** The table indices of a result, in order. */
  function Indices(result: seq<Recommendation>): seq<nat> {
    seq(|result|, k requires 0 <= k < |result| => result[k].index)
  }

  /**
   * `result` is a valid top-`n` answer over `rows` scored by `sim`: `n` projections of
   * distinct rows, by non-increasing score, and no row left out scores higher than a row
   * taken. The order among equal scores is left open.
   */
  ghost predicate IsTopN(result: seq<Recommendation>, rows: seq<Row>, sim: seq<real>, n: nat)
    requires |sim| == |rows|
  {
    |result| == n
    && (forall k :: 0 <= k < n ==>
          result[k].index < |rows|
          && result[k] == Project(result[k].index, rows[result[k].index], sim[result[k].index]))
    && (forall a, b :: 0 <= a < b < n ==> result[a].index != result[b].index)
    && (forall a, b :: 0 <= a < b < n ==> result[a].similarity >= result[b].similarity)
    && (forall i, k :: 0 <= i < |rows| && i !in Indices(result) && 0 <= k < n ==>
          sim[i] <= result[k].similarity)
  }

  /** The projections of the first `n` positions of `order`. */
  function ProjectPrefix(order: seq<nat>, rows: seq<Row>, sim: seq<real>, n: nat): seq<Recommendation>
    requires |sim| == |rows| && n <= |order| && InRange(order, |rows|)
  {
    seq(n, k requires 0 <= k < n => Project(order[k], rows[order[k]], sim[order[k]]))
  }

  /** The first `n` entries of a ranking of all rows are a valid top-`n` answer. */
  lemma PrefixIsTopN(order: seq<nat>, rows: seq<Row>, sim: seq<real>, n: nat)
    requires |sim| == |rows| && IsRanking(order, sim) && n <= |order|
    ensures IsTopN(ProjectPrefix(order, rows, sim, n), rows, sim, n)
  {
    var r := ProjectPrefix(order, rows, sim, n);
    assert Indices(r) == order[..n];
    forall q | 0 <= q < n ensures order[q] in Indices(r) {
      assert Indices(r)[q] == order[q];
    }
    forall i, k | 0 <= i < |rows| && i !in Indices(r) && 0 <= k < n
      ensures sim[i] <= r[k].similarity
    {
      assert i in order;
      var p :| 0 <= p < |order| && order[p] == i;
    }
  }

  /** The first `head(top_n)` rows of the table sorted by `sim`, highest first. */
  function TopN(rows: seq<Row>, sim: seq<real>, topN: int): (r: seq<Recommendation>)
    requires |sim| == |rows|
    ensures IsTopN(r, rows, sim, HeadCount(topN, |rows|))
  {
    var order := Rank(sim);
    PrefixIsTopN(order, rows, sim, HeadCount(topN, |rows|));
    ProjectPrefix(order, rows, sim, HeadCount(topN, |rows|))
  }

  // ---------------------------------------------------------------------------------------
  // The recommender

  /** A new array holding the scores `s` (the score array `cosine_similarity` returns). */
  method FromSeq(s: seq<real>) returns (a: array<real>)
    ensures fresh(a) && a[..] == s
  {
    a := new real[|s|](i requires 0 <= i < |s| => s[i]);
  }

  /**
   * The course table loaded at start-up with its `processed_text` column, the similarity
   * scorer fitted once over that column, and the `similarity` column that every query
   * overwrites.
   */
  class Recommender {
    const rows: seq<Row>
    const hasTextColumn: bool
    const processed: seq<string>
    const scorer: string -> seq<real>
    var similarity: array<real>

    /**
     * `processed_text` is the normalised text of every row, and the scorer gives one
     * score per row for any query text.
     */
    ghost predicate Valid() {
      |processed| == |rows|
      && (forall i :: 0 <= i < |rows| ==> processed[i] == ProcessedText(rows[i], hasTextColumn))
      && (forall q :: |scorer(q)| == |rows|)
    }

    /**
     * Loading the table, normalising its texts and fitting the scorer. The vectoriser and
     * the cosine similarity against the fitted matrix are the parameter `scorer`.
     */
    constructor (rows: seq<Row>, hasTextColumn: bool, scorer: string -> seq<real>)
      requires forall q :: |scorer(q)| == |rows|
      ensures this.rows == rows && this.hasTextColumn == hasTextColumn && this.scorer == scorer
      ensures Valid()
      ensures similarity.Length == 0
    {
      this.rows := rows;
      this.hasTextColumn := hasTextColumn;
      this.scorer := scorer;
      processed := ProcessedTexts(rows, hasTextColumn);
      similarity := new real[0];
    }

    /** `scores[mask] *= 1.3`: boosts, in place, the score of every record with the phrase. */
    method BoostScores(scores: array<real>, phrase: string)
      requires scores.Length == |processed|
      modifies scores
      ensures scores[..] == Boosted(old(scores[..]), processed, phrase)
    {
      var i := 0;
      while i < scores.Length
        invariant 0 <= i <= scores.Length
        invariant forall k :: 0 <= k < i ==> scores[k] == BoostOne(old(scores[k]), processed[k], phrase)
        invariant forall k :: i <= k < scores.Length ==> scores[k] == old(scores[k])
      {
        if Contains(processed[i], phrase) {
          scores[i] := scores[i] * BoostFactor;
        }
        i := i + 1;
      }
    }

    /** `recommend_courses(query, top_n=30)`. */
    method Recommend(query: string, topN: int := DefaultTopN) returns (result: seq<Recommendation>)
      requires Valid()
      modifies this
      ensures fresh(similarity)
      ensures similarity[..] == Boosted(scorer(FilteredQuery(query)), processed, BoostPhrase(query))
      ensures IsTopN(result, rows, similarity[..], HeadCount(topN, |rows|))
    {
      var raw := scorer(FilteredQuery(query));
      assert |raw| == |processed|;
      var scores := FromSeq(raw);
      BoostScores(scores, BoostPhrase(query));
      result := TopN(rows, scores[..], topN);
      similarity := scores;
    }
  }
}
