/**
 * ASCII string primitives with Python's semantics: `str.lower`, `str.split()` with no
 * separator, `str.strip()` with no argument, `" ".join`, and the `\w` character class.
 */
module Text {

  /** Python's `str.isspace` restricted to ASCII: space, \t \n \v \f \r and the separators 0x1C-0x1F. */
  predicate IsSpace(c: char) {
    var n := c as int;
    n == 32 || 9 <= n <= 13 || 28 <= n <= 31
  }

  /** The regular-expression class `\w` on ASCII: letters, digits and underscore. */
  predicate IsWordChar(c: char) {
    'a' <= c <= 'z' || 'A' <= c <= 'Z' || '0' <= c <= '9' || c == '_'
  }

  /** ASCII lowercasing of one character. */
  function LowerChar(c: char): char {
    if 'A' <= c <= 'Z' then (c as int - 'A' as int + 'a' as int) as char else c
  }

  /** `s.lower()` for ASCII text. */
  function Lower(s: string): string {
    seq(|s|, i requires 0 <= i < |s| => LowerChar(s[i]))
  }

  /** Every character of `s` is already lowercase. */
  predicate IsLower(s: string) {
    forall c :: c in s ==> LowerChar(c) == c
  }

  predicate AllSpace(s: string) {
    forall i :: 0 <= i < |s| ==> IsSpace(s[i])
  }

  /** A whitespace-free, non-empty piece of text: what `str.split()` yields. */
  predicate IsToken(t: string) {
    t != [] && forall i :: 0 <= i < |t| ==> !IsSpace(t[i])
  }

  predicate AllTokens(toks: seq<string>) {
    forall k :: 0 <= k < |toks| ==> IsToken(toks[k])
  }

  /**
   * Text in which every whitespace character is a single ' ' with a non-space
   * character on each side: no leading, trailing or doubled separators.
   */
  predicate SingleSpaced(s: string) {
    forall i :: 0 <= i < |s| && IsSpace(s[i]) ==> s[i] == ' ' && 0 < i < |s| - 1 && !IsSpace(s[i + 1])
  }

  lemma LowerIsLower(s: string)
    ensures IsLower(Lower(s))
  {
    forall c | c in Lower(s) ensures LowerChar(c) == c {
      var i :| 0 <= i < |Lower(s)| && Lower(s)[i] == c;
    }
  }

  lemma {:induction false} LowerOfLower(s: string)
    requires IsLower(s)
    ensures Lower(s) == s
  {
    assert forall i :: 0 <= i < |s| ==> s[i] in s;
  }

  lemma LowerConcat(a: string, b: string)
    ensures Lower(a + b) == Lower(a) + Lower(b)
  {
  }

  // ---------------------------------------------------------------------------------------
  // str.strip()

  /** `s.lstrip()`: the suffix of `s` left after dropping its leading whitespace. */
  function TrimLeft(s: string): (r: string)
    ensures |r| <= |s| && r == s[|s| - |r|..]
    ensures AllSpace(s[..|s| - |r|])
    ensures r != [] ==> !IsSpace(r[0])
  {
    if s != [] && IsSpace(s[0]) then
      var r := TrimLeft(s[1..]);
      forall k | 0 <= k < |s| - |r| ensures IsSpace(s[k]) {
        if k > 0 {
          assert s[k] == s[1..][..|s| - 1 - |r|][k - 1];
        }
      }
      r
    else s
  }

  /** `s.rstrip()`: the prefix of `s` left after dropping its trailing whitespace. */
  function TrimRight(s: string): (r: string)
    ensures |r| <= |s| && r == s[..|r|]
    ensures AllSpace(s[|r|..])
    ensures r != [] ==> !IsSpace(r[|r| - 1])
  {
    if s != [] && IsSpace(s[|s| - 1]) then
      var p := s[..|s| - 1];
      var r := TrimRight(p);
      assert p[..|r|] == s[..|r|];
      forall k | |r| <= k < |s| ensures IsSpace(s[k]) {
        if k < |s| - 1 {
          assert s[k] == p[|r|..][k - |r|];
        }
      }
      r
    else s
  }

  /** `s.strip()`. */
  function Strip(s: string): string {
    TrimRight(TrimLeft(s))
  }

  /** `s.strip()` is empty exactly when `s` is blank (made only of whitespace). */
  lemma StripEmpty(s: string)
    ensures Strip(s) == [] <==> AllSpace(s)
  {
    var l := TrimLeft(s);
    if !AllSpace(s) {
      assert s[..|s|] == s;
      assert l[0..] == l;
    }
  }

  // ---------------------------------------------------------------------------------------
  // str.split() and " ".join

  /** The end of the run of non-whitespace characters starting at `i`. */
  function WordEnd(s: string, i: nat): (j: nat)
    requires i <= |s|
    ensures i <= j <= |s|
    ensures j < |s| ==> IsSpace(s[j])
    ensures forall k :: i <= k < j ==> !IsSpace(s[k])
    decreases |s| - i
  {
    if i == |s| || IsSpace(s[i]) then i else WordEnd(s, i + 1)
  }

  /** `WordEnd` is the first separator (or the end of the text) at or after `i`. */
  lemma WordEndAt(s: string, i: nat, j: nat)
    requires i <= j <= |s|
    requires j < |s| ==> IsSpace(s[j])
    requires forall k :: i <= k < j ==> !IsSpace(s[k])
    ensures WordEnd(s, i) == j
  {
  }

  /** `s.split()`: the maximal runs of non-whitespace characters of `s`, in order. */
  function Split(s: string): (r: seq<string>)
    ensures AllTokens(r)
    ensures forall k, c :: 0 <= k < |r| && c in r[k] ==> c in s
    decreases |s|
  {
    if s == [] then []
    else if IsSpace(s[0]) then
      assert forall c :: c in s[1..] ==> c in s;
      Split(s[1..])
    else
      var j := WordEnd(s, 0);
      assert forall k, c :: 0 <= k < |Split(s[j..])| && c in Split(s[j..])[k] ==> c in s by {
        assert forall c :: c in s[j..] ==> c in s;
      }
      [s[..j]] + Split(s[j..])
  }

  /** `" ".join(toks)`. */
  function Join(toks: seq<string>): string {
    if toks == [] then ""
    else if |toks| == 1 then toks[0]
    else toks[0] + " " + Join(toks[1..])
  }

  /** A blank text has no tokens, and a text with a non-space character has at least one. */
  lemma {:induction false} SplitEmpty(s: string)
    ensures Split(s) == [] <==> AllSpace(s)
    decreases |s|
  {
    if s != [] && IsSpace(s[0]) {
      SplitEmpty(s[1..]);
      if AllSpace(s[1..]) {
        forall i | 0 <= i < |s| ensures IsSpace(s[i]) {
          if i > 0 { assert s[i] == s[1..][i - 1]; }
        }
      }
    }
  }

  /** A token splits into itself. */
  lemma SplitToken(t: string)
    requires IsToken(t)
    ensures Split(t) == [t]
  {
    WordEndAt(t, 0, |t|);
    assert t[..|t|] == t;
    assert t[|t|..] == [];
  }

  /** Splitting text made of two parts separated by a space splits each part. */
  lemma {:induction false} SplitAroundSpace(a: string, b: string)
    ensures Split(a + " " + b) == Split(a) + Split(b)
    decreases |a|
  {
    var s := a + " " + b;
    if a == [] {
      assert s[1..] == b;
    } else if IsSpace(a[0]) {
      assert s[1..] == a[1..] + " " + b;
      SplitAroundSpace(a[1..], b);
    } else {
      var j := WordEnd(a, 0);
      forall k | 0 <= k < j ensures !IsSpace(s[k]) {
        assert s[k] == a[k];
      }
      if j < |a| {
        assert s[j] == a[j];
      } else {
        assert s[j] == ' ';
      }
      WordEndAt(s, 0, j);
      assert s[..j] == a[..j];
      assert s[j..] == a[j..] + " " + b;
      SplitAroundSpace(a[j..], b);
    }
  }

  /** Splitting a joined sequence of tokens gives back the tokens. */
  lemma {:induction false} SplitJoin(toks: seq<string>)
    requires AllTokens(toks)
    ensures Split(Join(toks)) == toks
  {
    if toks == [] {
    } else if |toks| == 1 {
      SplitToken(toks[0]);
    } else {
      SplitJoin(toks[1..]);
      SplitAroundSpace(toks[0], Join(toks[1..]));
      SplitToken(toks[0]);
    }
  }

  /** Joining tokens yields single-spaced text, empty exactly when there are no tokens. */
  lemma {:induction false} JoinSingleSpaced(toks: seq<string>)
    requires AllTokens(toks)
    ensures SingleSpaced(Join(toks))
    ensures Join(toks) == [] <==> toks == []
  {
    if |toks| > 1 {
      var t, rest := toks[0], Join(toks[1..]);
      JoinSingleSpaced(toks[1..]);
      var s := Join(toks);
      assert s == t + " " + rest;
      assert forall i :: 0 <= i < |t| ==> s[i] == t[i];
      forall i | 0 <= i < |s| && IsSpace(s[i])
        ensures s[i] == ' ' && 0 < i < |s| - 1 && !IsSpace(s[i + 1])
      {
        if i == |t| {
          assert s[i + 1] == rest[0];
        } else {
          assert s[i] == rest[i - |t| - 1];
          assert i + 1 < |s| ==> s[i + 1] == rest[i - |t|];
        }
      }
    }
  }

  /** Joining lowercase tokens gives a lowercase text: the separator is a space. */
  lemma {:induction false} JoinLower(toks: seq<string>)
    requires forall k :: 0 <= k < |toks| ==> IsLower(toks[k])
    ensures IsLower(Join(toks))
  {
    if |toks| > 1 {
      JoinLower(toks[1..]);
      var s := Join(toks);
      assert s == toks[0] + " " + Join(toks[1..]);
      forall c | c in s ensures LowerChar(c) == c {
        var i :| 0 <= i < |s| && s[i] == c;
        if i < |toks[0]| {
          assert toks[0][i] == c;
        } else if i > |toks[0]| {
          assert Join(toks[1..])[i - |toks[0]| - 1] == c;
        }
      }
    }
  }

  /** Every token of a lowercase text is lowercase. */
  lemma SplitLower(s: string)
    requires IsLower(s)
    ensures forall k :: 0 <= k < |Split(s)| ==> IsLower(Split(s)[k])
  {
  }
}
