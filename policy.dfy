/**
 * The read-only classifier: a textual prefix heuristic, not a parser. A query
 * passes when, stripped of surrounding whitespace and upper-cased, it begins
 * with one of five keywords.
 */
module Policy {
  import opened Text

  const SafeStarts: seq<string> := ["SELECT", "SHOW", "DESCRIBE", "EXPLAIN", "WITH"]

  /** A query is admitted only when at least four characters are left after stripping. */
  predicate IsReadOnlyQuery(query: string)
    ensures IsReadOnlyQuery(query) ==> |Strip(query)| >= 4
  {
    assert forall k | k in SafeStarts :: |k| >= 4;
    StartsWithAny(Upper(Strip(query)), SafeStarts)
  }

  // ---------------------------------------------------------------------------
  // Properties

  /** Whitespace around the query never changes the verdict. */
  lemma PaddingIrrelevant(pre: string, query: string, post: string)
    requires AllSpace(pre) && AllSpace(post)
    ensures IsReadOnlyQuery(pre + query + post) == IsReadOnlyQuery(query)
  {
    StripIgnoresPadding(pre, query, post);
  }

  /** Letter case never changes the verdict: queries that upper-case alike are classified alike. */
  lemma CaseIrrelevant(a: string, b: string)
    requires Upper(a) == Upper(b)
    ensures IsReadOnlyQuery(a) == IsReadOnlyQuery(b)
  {
    UpperStripCommute(a);
    UpperStripCommute(b);
  }

  /** A keyword with no space in it cannot reach into trailing whitespace. */
  lemma KeywordIgnoresTrailingSpace(t: string, k: string)
    requires AllLetters(k)
    ensures StartsWith(Upper(TrimEnd(t)), k) <==> StartsWith(Upper(t), k)
  {
    var u := TrimEnd(t);
    if |k| <= |u| {
      assert Upper(u)[..|k|] == Upper(t)[..|k|];
    } else if |k| <= |t| {
      assert IsSpace(t[|u|]) by {
        assert t[|u|..][0] == t[|u|];
      }
      UpperCharKeepsSpace(t[|u|]);
      assert Upper(t)[..|k|][|u|] == Upper(t)[|u|];
    }
  }

  predicate AllLetters(k: string)
  {
    forall i | 0 <= i < |k| :: 'A' <= k[i] <= 'Z'
  }

  lemma {:induction false} AnyKeywordIgnoresTrailingSpace(t: string, keywords: seq<string>)
    requires forall k | k in keywords :: AllLetters(k)
    ensures StartsWithAny(Upper(TrimEnd(t)), keywords) <==> StartsWithAny(Upper(t), keywords)
  {
    forall k | k in keywords
      ensures StartsWith(Upper(TrimEnd(t)), k) <==> StartsWith(Upper(t), k)
    {
      KeywordIgnoresTrailingSpace(t, k);
    }
  }

  /** Only leading whitespace matters: the keyword is looked for right after it. */
  lemma KeywordAfterLeadingSpace(query: string)
    ensures IsReadOnlyQuery(query) <==> StartsWithAny(Upper(TrimStart(query)), SafeStarts)
  {
    assert forall k | k in SafeStarts :: AllLetters(k);
    AnyKeywordIgnoresTrailingSpace(TrimStart(query), SafeStarts);
  }

  /** Without leading whitespace the keywords are matched against the upper-cased query itself. */
  lemma NoLeadingSpace(query: string)
    requires query != [] && !IsSpace(query[0])
    ensures IsReadOnlyQuery(query) == StartsWithAny(Upper(query), SafeStarts)
  {
    KeywordAfterLeadingSpace(query);
  }

  lemma KeywordsExcluded(u: string, i: nat, j: nat)
    requires i < j < |u|
    requires forall k | k in SafeStarts :: j < |k| && (u[i] != k[i] || u[j] != k[j])
    ensures !StartsWithAny(u, SafeStarts)
  {
  }

  lemma KeywordIncluded(u: string, k: string)
    requires k in SafeStarts
    requires |k| <= |u| && forall i | 0 <= i < |k| :: u[i] == k[i]
    ensures StartsWithAny(u, SafeStarts)
  {
    assert u[..|k|] == k;
  }

  /** A query with no leading whitespace that starts with a keyword in upper case is admitted. */
  lemma AdmittedByKeyword(query: string, k: string)
    requires k in SafeStarts && query != [] && !IsSpace(query[0])
    requires StartsWith(Upper(query), k)
    ensures IsReadOnlyQuery(query)
  {
    NoLeadingSpace(query);
  }

  /** The heuristic is not a security boundary: anything may follow an accepted keyword. */
  lemma AcceptsTrailingStatement(query: string)
    requires query == "select 1; DROP TABLE orders"
    ensures IsReadOnlyQuery(query)
  {
    assert query == "select" + query[6..];
    AcceptsLowerSelect(query[6..]);
  }

  /** Whatever follows it, a query that begins with a lower-case `select` is admitted. */
  lemma AcceptsLowerSelect(rest: string)
    ensures IsReadOnlyQuery("select" + rest)
  {
    var query := "select" + rest;
    assert Upper("select") == "SELECT" by {
      assert UpperChar('s') == 'S' && UpperChar('e') == 'E' && UpperChar('l') == 'L' && UpperChar('c') == 'C' && UpperChar('t') == 'T';
    }
    UpperConcat("select", rest);
    assert Upper(query)[..6] == "SELECT";
    assert query[0] == 's';
    AdmittedByKeyword(query, "SELECT");
  }

  /** A plain mutation is refused. */
  lemma RejectsDelete(query: string)
    requires query == "DELETE FROM orders"
    ensures !IsReadOnlyQuery(query)
  {
    var u := Upper(query);
    assert query[0] == 'D' && query[2] == 'L';
    assert u[0] == 'D' && u[2] == 'L';
    NoLeadingSpace(query);
    KeywordsExcluded(u, 0, 2);
  }

  /** `WITH` is admitted, although the comment beside the keyword list leaves it out. */
  lemma AcceptsWith(query: string)
    requires query == "with t as (select 1) select * from t"
    ensures IsReadOnlyQuery(query)
  {
    assert query == "with" + query[4..];
    AcceptsLowerWith(query[4..]);
  }

  /** Whatever follows it, a query that begins with a lower-case `with` is admitted. */
  lemma AcceptsLowerWith(rest: string)
    ensures IsReadOnlyQuery("with" + rest)
  {
    var query := "with" + rest;
    assert Upper("with") == "WITH" by {
      assert UpperChar('w') == 'W' && UpperChar('i') == 'I' && UpperChar('t') == 'T' && UpperChar('h') == 'H';
    }
    UpperConcat("with", rest);
    assert Upper(query)[..4] == "WITH";
    assert query[0] == 'w';
    AdmittedByKeyword(query, "WITH");
  }
}
