# Course recommender: a verified Dafny model

This project models the text-ranking core of a course recommender, plus the two data-preparation scripts that produce its course table.

**Recommender** (`recommendation.py`):
- It normalises every course text. The text is lowercased, split on whitespace, stripped of a fixed set of domain stopwords and re-joined with single spaces.
- It normalises the query the same way. If the result is blank, it falls back to the raw query lowercased.
- It boosts by 1.3, in place, the similarity score of every course whose normalised text contains the stripped, lowercased raw query as a `\b`-bounded, case-insensitive literal.
- It writes the boosted scores to the `similarity` column.
- It returns the first `top_n` courses sorted by descending score, projected to twelve columns plus the score.

**Cleaning** (`scripts/clean_data.py`):
- It maps the raw Udemy and Coursera tables onto one schema, builds the lowercase `text_for_tfidf`, drops duplicate rows and then requires every title and text to be present.

**Merging** (`scripts/merge_datasets.py`):
- It checks both cleaned tables again. A missing title or text is an error; duplicates only draw a warning.
- It concatenates the tables, Udemy first, and drops duplicates once more.

Modules, one per concern:
- `Wrappers`: `Option` and `Result`.
- `Text`: ASCII lowercasing, whitespace, `split()`, `" ".join`, `strip()`. Each comes with its laws.
- `Normalizer`: `preprocess_text` and the query fallback.
- `PhraseMatch`: the regular expression `\b<literal>\b` with `case=False`, and the leftmost-match search.
- `Ranking`: sorting positions by descending score.
- `Duplicates`: `drop_duplicates` with `keep="first"`.
- `Rows`: the unified row with its named columns, and a data frame class whose methods work in place (deduplicate, detect duplicates, validate).
- `Cleaning` and `Merging`: the two scripts.
- `Recommendation`: the `Recommender` class, which holds the processed texts and the `similarity` array, plus the top-N specification.
- `Scenarios`: worked cases on concrete texts. These are the raw-phrase boost for "python fundamentals" and a two-course "sql server" run of the recommender.

The similarity scorer (TF-IDF bigrams and cosine similarity) is the field `scorer` of `Recommender`, set once by its constructor, as the vectoriser is fitted once at start-up. It maps the text handed to the vectoriser to one score per course.

A `\b` boundary is modelled exactly: position `p` is a boundary when exactly one of `p-1` and `p` holds a word character, and positions outside the text hold none. Two consequences of the code as written are proved:
- The code has no guard against a blank query. The empty phrase gives the pattern `\b\b`, which matches every text that has a word character (`PhraseMatch.EmptyPhraseMatches`, `Recommendation.BlankQueryBoosts`).
- A phrase ending in a non-word character, such as `c++`, never matches where a space or the end of text follows it (`PhraseMatch.CppNotFound`).

The ranking uses pandas' default sort, which is not stable. So the model promises the descending order and the top-N selection, but no order among equal scores.

## Model

| member | source | states |
|---|---|---|
| Text.Lower | recommendation.py:25 | `str.lower()` on ASCII text, character by character; its laws are `Text.LowerIsLower` and `Text.LowerOfLower` |
| Text.Strip | recommendation.py:49 | `str.strip()`: drops leading and trailing whitespace; `Text.StripEmpty` states when it is empty |
| Text.Join | recommendation.py:26 | `" ".join(tokens)`; `Text.SplitJoin` and `Text.JoinSingleSpaced` state what it produces |
| Text.Split | recommendation.py:25 | every token of `split()` is non-empty and holds no whitespace, and its characters come from the input |
| Text.SplitJoin | recommendation.py:25-26 | splitting the single-space join of whitespace-free tokens gives the same tokens back |
| Text.SplitAroundSpace | recommendation.py:25 | the tokens of `a + " " + b` are the tokens of `a` followed by those of `b` |
| Text.JoinSingleSpaced | recommendation.py:26 | the join of tokens has no leading, trailing or doubled whitespace, and is empty exactly when there are no tokens |
| Text.StripEmpty | recommendation.py:49 | `strip()` yields the empty string exactly when the text is all whitespace |
| Text.LowerIsLower | recommendation.py:25 | `lower()` leaves no upper-case letter |
| Text.LowerOfLower | recommendation.py:25 | lowercasing a lowercase text changes nothing |
| Normalizer.Preprocess | recommendation.py:19-26 | `preprocess_text`: "" for a non-string cell, otherwise the lowercased tokens without stopwords, joined by single spaces; its laws are the `Normalizer.Preprocess*` lemmas below |
| Normalizer.RemoveStopwords | recommendation.py:25 | the kept tokens are exactly the input tokens that are not stopwords, none of them a stopword, no more of them than the input |
| Normalizer.RemoveStopwordsAppend | recommendation.py:25 | stopword removal on a concatenation is the concatenation of the two removals, so kept tokens keep their order and repetitions |
| Normalizer.PreprocessTokens | recommendation.py:23-26 | a non-string gives ""; otherwise the output tokens are the lowercased input tokens, in order, with the stopwords removed, and none is a stopword |
| Normalizer.PreprocessShape | recommendation.py:25-26 | the normalised text is lowercase and single-spaced, with no leading or trailing whitespace |
| Normalizer.PreprocessIdempotent | recommendation.py:19-26 | normalising a normalised text changes nothing |
| Normalizer.PreprocessEmpty | recommendation.py:25-26 | the normalised text is empty exactly when every token of the input is a stopword |
| Normalizer.SqlServerExample | recommendation.py:6-12 | "SQL Server fundamentals" normalises to "sql server": "server" is kept, "fundamentals" dropped |
| Normalizer.FilteredQuery | recommendation.py:48-50 | the text handed to the vectoriser: the normalised query, or `query.lower()` when it is blank after stripping; `Normalizer.FilteredQueryKept` and `Normalizer.FilteredQueryFallback` characterise it |
| Normalizer.FilteredQueryKept | recommendation.py:48-50 | a query whose normalised form is non-empty is vectorised as that normalised form |
| Normalizer.FilteredQueryFallback | recommendation.py:48-50 | the vectoriser sees the raw query lowercased when every query token is a stopword, and the normalised query otherwise |
| Normalizer.StopwordQueryFallsBack | recommendation.py:48-50 | the all-stopword query "Intro Course" is vectorised as "intro course" |
| PhraseMatch.BoostPhrase | recommendation.py:59 | the boost phrase is the raw query stripped and lowercased, not the filtered query (see `Scenarios.RawPhraseNotFiltered`) |
| PhraseMatch.MatchAt | recommendation.py:60 | `\b` + literal phrase + `\b` matches at offset `k`: boundaries at both ends and the letters equal ignoring case |
| PhraseMatch.ContainsPhrase | recommendation.py:60 | the pattern matches at some offset; `PhraseMatch.Contains` is proved equal to it |
| PhraseMatch.Search | recommendation.py:60 | the search returns the leftmost offset at or after the start where the bounded phrase matches, or reports that none exists |
| PhraseMatch.Contains | recommendation.py:60 | the mask is true exactly when the bounded phrase matches somewhere in the text |
| PhraseMatch.EmptyPhraseMatches | recommendation.py:59-60 | the empty phrase matches exactly the texts that contain a word character |
| PhraseMatch.NonWordEndNeedsWordAfter | recommendation.py:60 | a phrase ending in a non-word character matches only where a word character follows |
| PhraseMatch.ShorterTextNoMatch | recommendation.py:60 | a phrase longer than the text never matches it |
| PhraseMatch.CppNotFound | recommendation.py:60 | the phrase "c++" does not match "c++ programming" |
| PhraseMatch.SqlServerPhraseScenario | recommendation.py:59-60 | the phrase "sql server" matches "sql server database management" and not "java programming" |
| Ranking.Insert | recommendation.py:64 | inserting a position into a descending order keeps it descending, adds exactly that position and keeps positions distinct |
| Ranking.Rank | recommendation.py:64 | the sort lists every position exactly once, by non-increasing score |
| Rows.Cell | scripts/clean_data.py:20-45 | the cell of a row under each column name of the unified schema; `Rows.RowsEqualByCells` shows the names reach every field |
| Rows.RowsEqualByCells | scripts/merge_datasets.py:36 | two rows are equal, as `drop_duplicates` compares them, exactly when they agree in every named column |
| Rows.Check | scripts/clean_data.py:50-51 | the first failing not-null check on a table: a missing title, else a missing text, else none (also used for scripts/merge_datasets.py:25-28); `Rows.Frame.Validate` computes it |
| Duplicates.Dedup | scripts/clean_data.py:47 | deduplication keeps every distinct row, adds none, and leaves no row twice |
| Duplicates.DedupDistinct | scripts/clean_data.py:47 | a table without duplicates is left unchanged |
| Duplicates.DedupFirstOrder | scripts/clean_data.py:93 | surviving rows are ordered by their first occurrence, in both directions |
| Duplicates.DedupPrefix | scripts/merge_datasets.py:36 | deduplicating a concatenation starts with the deduplicated first part, and everything after it comes from the second part and is new to the first |
| Rows.HasDuplicatesIff | scripts/merge_datasets.py:29 | some row equals an earlier row exactly when the table is not duplicate-free |
| Rows.Frame.DropDuplicates | scripts/clean_data.py:47 | the frame's rows become their deduplication with the first occurrences kept |
| Rows.Frame.AnyDuplicated | scripts/merge_datasets.py:29 | the result is true exactly when the table has a repeated row |
| Rows.Frame.Validate | scripts/clean_data.py:50-51 | the result is the first failing not-null check: titles first, then texts |
| Cleaning.RenamesListed | scripts/clean_data.py:27-33 | exactly the five listed columns are renamed; every other kept column keeps its name |
| Cleaning.UdemyColumnsValue | scripts/clean_data.py:20-45 | the cleaned Udemy header (renamed selection, then provider, rating, description, skills and text_for_tfidf) is exactly the unified schema, in order |
| Cleaning.ColumnsAlign | scripts/clean_data.py:65-91 | the cleaned Udemy and Coursera headers name the same columns except `course_id`, which only Udemy has |
| Cleaning.UdemyText | scripts/clean_data.py:42-45 | the Udemy `text_for_tfidf`: title and subject, missing ones as "", joined by a space and lowercased |
| Cleaning.UdemyRow | scripts/clean_data.py:20-45 | one raw Udemy row in the unified schema; `Cleaning.UdemyRowCells` states it cell by cell |
| Cleaning.UdemyRowCells | scripts/clean_data.py:20-45 | every kept raw column reaches the cleaned row under its renamed column with its value unchanged; provider is "Udemy", rating and description are missing, skills equals subject, and the text is built from title and subject |
| Cleaning.UdemyTextTokens | scripts/clean_data.py:42-45 | the Udemy text is lowercase, and its tokens are those of the title followed by those of the subject |
| Cleaning.FirstSkill | scripts/clean_data.py:80 | the Coursera subject is the untrimmed prefix of skills before the first comma |
| Cleaning.CourseraSubject | scripts/clean_data.py:78-81 | the Coursera subject: the first skill, or missing when skills is missing |
| Cleaning.CourseraText | scripts/clean_data.py:86-91 | the Coursera `text_for_tfidf`: title, description, skills and subject, missing ones as "", joined by spaces and lowercased |
| Cleaning.CourseraRow | scripts/clean_data.py:65-91 | one raw Coursera row in the unified schema; `Cleaning.CourseraRowCells` states it cell by cell |
| Cleaning.CourseraRowCells | scripts/clean_data.py:65-91 | each read raw column reaches the cleaned row under its mapped column unchanged; every placeholder except subject is missing, subject is the first skill, course_id is missing, and the text is built from title, description, skills and subject |
| Cleaning.CourseraTextTokens | scripts/clean_data.py:86-91 | the Coursera text is lowercase, and its tokens are those of title, description, skills and subject, in that order |
| Cleaning.CleanUdemy | scripts/clean_data.py:20-51 | success exactly when every raw title is present; the result is the deduplicated mapped rows, duplicate-free, with provider "Udemy", no rating or description, and skills equal to subject |
| Cleaning.CleanCoursera | scripts/clean_data.py:65-97 | success exactly when every course name is present; the result is the deduplicated mapped rows with missing placeholders, subject derived from skills, and every input row kept |
| Merging.MergeDatasets | scripts/merge_datasets.py:24-36 | an error exactly when a title or text is missing in either table, naming the first failing table and check; otherwise the deduplicated Udemy-then-Coursera rows, with a warning per table that has duplicates |
| Merging.Warnings | scripts/merge_datasets.py:29-30 | the tables, among those checked so far, that draw a duplicate warning, in the order checked; `Merging.MergeDatasets` returns it |
| Merging.MergedRows | scripts/merge_datasets.py:35-36 | the unified rows have no duplicates, are exactly the input rows, number at most the inputs together, and pass validation when both inputs do |
| Merging.UdemyFirst | scripts/merge_datasets.py:35-36 | the unified table starts with the deduplicated Udemy rows (all of them, unchanged, when Udemy had no duplicates); the rest are Coursera rows not in Udemy |
| Merging.MergedOrder | scripts/merge_datasets.py:36 | each Udemy row precedes each Coursera row that is new to Udemy |
| Recommendation.ProcessedText | recommendation.py:30-37 | the `processed_text` of a course: the normalised `text_for_tfidf` when the table has that column, else the normalised title, description and skills joined by spaces |
| Recommendation.BoostOne | recommendation.py:60-61 | the score of one course after `scores[mask] *= 1.3` |
| Recommendation.Boosted | recommendation.py:60-61 | the whole score column after the boost, one score per course; `Recommendation.BoostChanges` states its effect |
| Recommendation.Project | recommendation.py:66-70 | the twelve returned columns of a course and its similarity |
| Recommendation.BoostChanges | recommendation.py:61 | a score becomes 1.3 times itself when its text contains the phrase and is unchanged otherwise; a non-zero score changes exactly when the text contains it |
| Recommendation.BoostBounds | recommendation.py:61 | scores in [0, 1] stay at least as large and at most 1.3 after the boost |
| Recommendation.BoostKeepsOrder | recommendation.py:61 | a record at least as high as another stays at least as high unless only the other contains the phrase |
| Recommendation.BlankQueryBoosts | recommendation.py:59-61 | a blank query gives the empty phrase, and a non-zero score is then boosted exactly when its text has a word character |
| Recommendation.HeadCount | recommendation.py:66 | `head(top_n)` keeps `min(top_n, n)` rows for a non-negative `top_n`, and drops that many trailing rows for a negative one |
| Recommendation.TopN | recommendation.py:64-70 | the result holds the head count of rows, as projections of distinct courses, non-increasing in similarity, with no omitted course scoring higher than an included one |
| Recommendation.Recommender.constructor | recommendation.py:28-41 | every processed text is the normalised `text_for_tfidf`, or the normalised title, description and skills when that column is absent; the scorer fitted once at start-up is kept for every query |
| Recommendation.Recommender.BoostScores | recommendation.py:61 | every score is replaced in place by its boosted value; nothing else changes |
| Recommendation.Recommender.Recommend | recommendation.py:43-70 | `top_n` defaults to 30; the new `similarity` column is the boosted scores of the filtered query under the recommender's own scorer, and the result is a valid top-N answer over them |
| Recommendation.PrefixIsTopN | recommendation.py:64-66 | the first `n` entries of any descending ranking of all courses form a valid top-`n` answer |
| Scenarios.SqlServerQuery | recommendation.py:48-50 | the query "sql server" reaches the vectoriser unchanged |
| Scenarios.RawPhraseNotFiltered | recommendation.py:48-60 | for "python fundamentals" the vectoriser sees "python" but the boost phrase stays "python fundamentals", which a text normalised to "python" does not contain |
| Scenarios.TwoRowTopN | recommendation.py:64-66 | over two courses with different scores, the only valid top-2 answer lists the higher-scored course first |
| Scenarios.SqlServerScenario | recommendation.py:43-70 | when the scorer gives the SQL Server course a score `a > 0` and the Java course a score `b` with `0 <= b <= a`, every valid top-5 answer for "sql server" over the two-course table lists the SQL Server course first with score `1.3 * a`, strictly above the Java course with `b` |
| Scenarios.AskTwoCourses | recommendation.py:43-70 | on a two-course recommender whose scorer gives the first course `a > 0` and the second `b` with `0 <= b <= a`, where only the first course's text holds the phrase, the answer is the first course at `1.3 * a`, then the second at `b` |
| Scenarios.SqlServerEndToEnd | recommendation.py:75-79 | for a scorer giving the SQL Server course `a > 0` and the Java course `b` with `0 <= b <= a`, a recommender built over the two-course table answers "sql server" with the SQL Server course first at `1.3 * a`, then the Java course at `b` |

## Left out

- TF-IDF fitting, query vectorisation and cosine similarity (recommendation.py:40-41, 53, 56). These are library computations over floating-point sparse matrices. They are the `scorer` the constructor receives; the model requires only that it gives one score per course for every query, and does not relate the scorer to the processed texts.
- Recommendation.Recommender.constructor: accepts any table, while `fit_transform` (recommendation.py:41) raises `ValueError` at start-up when the vocabulary is empty, for example on an empty table or one whose texts hold only stopwords of the vectoriser; that failure belongs to the vectoriser, which is not modelled.
- Floating point. Scores are reals and the factor 1.3 is exact, so the model does not capture rounding in `scores * 1.3`.
- Unicode. Lowercasing, whitespace and the `\w` class are ASCII. `split()` treats the ASCII whitespace and the separators 28-31 as whitespace, as Python does; other Unicode spaces and letters are not modelled.
- General regular expressions. The model covers only the `\b` + literal + `\b` pattern that `re.escape` produces.
- Non-string cells. A non-string value passed to `preprocess_text` is modelled only as a missing cell. Numeric and boolean cells are kept as their text. This is exact for the text stages, but not for `drop_duplicates` and `duplicated` (scripts/clean_data.py:47, 93; scripts/merge_datasets.py:29, 36): pandas compares those cells as parsed values, so `"1"` and `"1.0"` are one value there and two values in the model.
- CSV reading and writing, directory creation and printed messages. Tables are sequences of rows. The model assumes that a table read back from CSV (scripts/merge_datasets.py:14-15, recommendation.py:17) is the table written, with `None` and NaN both a missing cell. pandas' `read_csv` does not quite do that: it also reads an empty field, and texts such as "NA", "null" or "None", as NaN. So a Coursera `subject` of `""` (any `skills` that starts with a comma, scripts/clean_data.py:80) is present in the cleaned table and missing once the merge script reads it back; the model keeps it as `""`.
- Loading the table and fitting the vectoriser at import time. This becomes the `Recommender` constructor; `hasTextColumn` says whether the loaded table has `text_for_tfidf`.
- A failed `assert` in the cleaning script stops it. This is modelled as an `Err` result, and nothing after the check (saving, printing) is modelled.
- Recommendation.Recommender.Recommend: promises no order among equal scores, because pandas' default sort is not stable; a stable tie-break is not what the code does.
- Recommendation.BoostChanges: the boost applies even to a blank query, because the code has no empty-phrase guard; the model follows the code rather than a "no boost on blank query" rule.
- Merging.MergeDatasets: warnings are returned as a list of table names rather than printed, and warnings issued before an error are part of the error value.
- The Streamlit display layer (`frontend_ui.py`) and the exploration script (`scripts/explore_data.py`) are not part of this model.
