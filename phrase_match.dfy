/**
 * The phrase test of the booster: does a record's processed text contain the query
 * phrase as the regular expression `\b<escaped phrase>\b`, searched case-insensitively?
 */
module PhraseMatch {
  import opened Wrappers
  import opened Text

  /** The phrase looked for: the raw query stripped and lowercased (not the filtered query). */
  function BoostPhrase(query: string): string {
    Lower(Strip(query))
  }

  /** Position `p` of `s` holds a `\w` character; positions outside `s` do not. */
  predicate WordAt(s: string, p: int) {
    0 <= p < |s| && IsWordChar(s[p])
  }

  /** `\b` holds at position `p` (between `s[p-1]` and `s[p]`). */
  predicate IsBoundary(s: string, p: int) {
    WordAt(s, p - 1) != WordAt(s, p)
  }

  /**
   * The pattern `\b` + literal phrase + `\b` matches `s` at offset `k`, comparing letters
   * without regard to case.
   */
  predicate MatchAt(s: string, phrase: string, k: nat) {
    k + |phrase| <= |s|
    && IsBoundary(s, k)
    && IsBoundary(s, k + |phrase|)
    && Lower(s[k..k + |phrase|]) == Lower(phrase)
  }

  /** The pattern matches somewhere in `s`. */
  ghost predicate ContainsPhrase(s: string, phrase: string) {
    exists k: nat :: MatchAt(s, phrase, k)
  }

  /** The leftmost match at or after `from`, as a regular-expression search reports it. */
  function Search(s: string, phrase: string, from: nat): (r: Option<nat>)
    ensures r.Some? ==> from <= r.value && MatchAt(s, phrase, r.value)
    ensures r.Some? ==> forall k: nat :: from <= k < r.value ==> !MatchAt(s, phrase, k)
    ensures r.None? ==> forall k: nat :: from <= k ==> !MatchAt(s, phrase, k)
    decreases |s| - from
  {
    if from + |phrase| > |s| then None
    else if MatchAt(s, phrase, from) then Some(from)
    else Search(s, phrase, from + 1)
  }

  /** The mask value of one record: `str.contains` with the bounded pattern. */
  function Contains(s: string, phrase: string): (b: bool)
    ensures b <==> ContainsPhrase(s, phrase)
  {
    Search(s, phrase, 0).Some?
  }

  /** Some `\w` character at or before position `i` starts a word, which is a boundary. */
  lemma {:induction false} WordStartsWord(s: string, i: nat)
    requires WordAt(s, i)
    ensures exists k: nat :: k <= i && IsBoundary(s, k)
  {
    if i > 0 && WordAt(s, i - 1) {
      WordStartsWord(s, i - 1);
    } else {
      assert IsBoundary(s, i);
    }
  }

  /**
   * With an empty phrase the pattern is `\b\b`, which matches exactly the texts that
   * contain a word character: the booster has no guard against a blank query.
   */
  lemma EmptyPhraseMatches(s: string)
    ensures ContainsPhrase(s, "") <==> exists i :: 0 <= i < |s| && IsWordChar(s[i])
  {
    if exists i :: 0 <= i < |s| && IsWordChar(s[i]) {
      var i :| 0 <= i < |s| && IsWordChar(s[i]);
      WordStartsWord(s, i);
      var k: nat :| k <= i && IsBoundary(s, k);
      assert MatchAt(s, "", k);
    }
    if ContainsPhrase(s, "") {
      var k: nat :| MatchAt(s, "", k);
      assert WordAt(s, k - 1) || WordAt(s, k);
    }
  }

  /** A match lines the phrase up with the text, character by character, ignoring case. */
  lemma MatchedChar(s: string, phrase: string, k: nat, j: nat)
    requires MatchAt(s, phrase, k) && j < |phrase|
    ensures LowerChar(s[k + j]) == LowerChar(phrase[j])
  {
    assert Lower(s[k..k + |phrase|])[j] == Lower(phrase)[j];
  }

  /** A phrase ending in a non-word character only matches where a word character follows. */
  lemma NonWordEndNeedsWordAfter(s: string, phrase: string, k: nat)
    requires phrase != [] && !IsWordChar(phrase[|phrase| - 1])
    requires MatchAt(s, phrase, k)
    ensures WordAt(s, k + |phrase|)
  {
    MatchedChar(s, phrase, k, |phrase| - 1);
    assert !IsWordChar(s[k + |phrase| - 1]);
  }

  /**
   * So the query "c++" never boosts a text where "c++" is followed by a space, even
   * though the phrase occurs literally.
   */
  lemma CppNotFound()
    ensures !ContainsPhrase("c++ programming", "c++")
  {
    var s := "c++ programming";
    assert forall i :: 0 <= i < |s| && s[i] == '+' ==> i == 1 || i == 2;
    assert !WordAt(s, 3);
    forall k: nat | MatchAt(s, "c++", k) ensures false {
      MatchedChar(s, "c++", k, 1);
      MatchedChar(s, "c++", k, 2);
      NonWordEndNeedsWordAfter(s, "c++", k);
    }
  }

  /**
   * The two-record scenario, on the normalised texts: "sql server" is found in the SQL
   * Server record only.
   */
  lemma SqlServerPhraseScenario()
    ensures BoostPhrase("sql server") == "sql server"
    ensures ContainsPhrase("sql server database management", "sql server")
    ensures !ContainsPhrase("java programming", "sql server")
  {
    SqlServerPhrase();
    assert MatchAt("sql server database management", "sql server", 0);
    JavaHasNoSqlServer();
  }

  lemma SqlServerPhrase()
    ensures BoostPhrase("sql server") == "sql server"
  {
    PlainPhrase("sql server");
  }

  lemma JavaHasNoSqlServer()
    ensures !ContainsPhrase("java programming", "sql server")
  {
    var s := "java programming";
    assert forall i :: 0 <= i < |s| ==> LowerChar(s[i]) != 'q';
    forall k: nat | MatchAt(s, "sql server", k) ensures false {
      MatchedChar(s, "sql server", k, 1);
    }
  }

  /** A phrase longer than the text is never found in it. */
  lemma ShorterTextNoMatch(s: string, phrase: string)
    requires |s| < |phrase|
    ensures !Contains(s, phrase)
  {
  }

  /** A lowercase query without surrounding whitespace is its own boost phrase. */
  lemma PlainPhrase(q: string)
    requires q != [] && !IsSpace(q[0]) && !IsSpace(q[|q| - 1])
    requires forall i :: 0 <= i < |q| ==> LowerChar(q[i]) == q[i]
    ensures BoostPhrase(q) == q
  {
  }
}
