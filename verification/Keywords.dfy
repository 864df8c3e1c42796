/**
 * Keyword rules and white space: when a rule cannot tell apart two spellings of a query that
 * differ in their spacing only (internal/app/agent_router.go, `matchesHighConfidenceKeyword`
 * and `routeCacheKey`).
 */
module Keywords {
  import opened Text
  import opened Funnel
  import opened FunnelCache

  // ---------------------------------------------------------------- occurrences

  predicate OccursAt(s: string, part: string, i: nat) {
    i + |part| <= |s| && s[i..i + |part|] == part
  }

  lemma {:induction false} ContainsAt(s: string, part: string) returns (i: nat)
    requires Contains(s, part)
    ensures OccursAt(s, part, i)
  {
    if part <= s {
      i := 0;
    } else {
      i := ContainsAt(s[1..], part);
      assert s[1..][i..i + |part|] == s[i + 1..i + 1 + |part|];
      i := i + 1;
    }
  }

  lemma {:induction false} OccurrenceContains(s: string, part: string, i: nat)
    requires OccursAt(s, part, i)
    ensures Contains(s, part)
    decreases i
  {
    if i == 0 {
      assert s[..|part|] == part;
    } else {
      assert s[1..][i - 1..i - 1 + |part|] == s[i..i + |part|];
      OccurrenceContains(s[1..], part, i - 1);
    }
  }

  predicate NoSpace(s: string) {
    forall i | 0 <= i < |s| :: !UnicodeSpace(s[i])
  }

  predicate HasEdges(s: string) {
    s != "" && !UnicodeSpace(s[0]) && !UnicodeSpace(s[|s| - 1])
  }

  predicate AllSpace(s: string) {
    forall i | 0 <= i < |s| :: UnicodeSpace(s[i])
  }

  lemma SliceRight(a: string, b: string, j: nat, n: nat)
    requires j + n <= |b|
    ensures (a + b)[|a| + j..|a| + j + n] == b[j..j + n]
  {
  }

  /** A shorter string with firm edges does not reach across a gap. */
  lemma AcrossGap(f: string, gap: string, rest: string, k: string)
    requires HasEdges(k) && AllSpace(gap) && |gap| >= |k| && Contains(f + gap + rest, k)
    ensures Contains(f, k) || Contains(rest, k)
  {
    var s := f + gap + rest;
    var i := ContainsAt(s, k);
    assert k[0] == s[i] && k[|k| - 1] == s[i + |k| - 1];
    forall p | |f| <= p < |f| + |gap| ensures UnicodeSpace(s[p]) {
      assert s[p] == gap[p - |f|];
    }
    if i + |k| <= |f| {
      assert f[i..i + |k|] == s[i..i + |k|];
      OccurrenceContains(f, k, i);
    } else {
      var j := i - |f| - |gap|;
      SliceRight(f + gap, rest, j, |k|);
      OccurrenceContains(rest, k, j);
    }
  }

  lemma FirstPartContains(a: string, b: string, k: string)
    requires Contains(a, k)
    ensures Contains(a + b, k)
  {
    var i := ContainsAt(a, k);
    assert (a + b)[i..i + |k|] == a[i..i + |k|];
    OccurrenceContains(a + b, k, i);
  }

  lemma LastPartContains(a: string, b: string, k: string)
    requires Contains(b, k)
    ensures Contains(a + b, k)
  {
    var i := ContainsAt(b, k);
    assert (a + b)[|a| + i..|a| + i + |k|] == b[i..i + |k|];
    OccurrenceContains(a + b, k, |a| + i);
  }

  // ---------------------------------------------------------------- words

  ghost predicate InSomeWord(words: seq<string>, k: string) {
    exists i | 0 <= i < |words| :: Contains(words[i], k)
  }

  lemma SomeWordCons(w: string, words: seq<string>, k: string)
    ensures InSomeWord([w] + words, k) <==> Contains(w, k) || InSomeWord(words, k)
  {
    var all := [w] + words;
    if Contains(w, k) {
      assert all[0] == w;
    }
    if InSomeWord(words, k) {
      var i :| 0 <= i < |words| && Contains(words[i], k);
      assert all[i + 1] == words[i];
    }
  }

  lemma NotAtSpace(s: string, k: string)
    requires s != "" && UnicodeSpace(s[0]) && k != "" && NoSpace(k)
    ensures !(k <= s)
  {
    assert !UnicodeSpace(k[0]);
  }

  /** A string without white space occurs in a text exactly when it occurs in one of its words. */
  lemma {:induction false} WordOccurs(s: string, k: string)
    requires k != "" && NoSpace(k)
    ensures Contains(s, k) <==> InSomeWord(Fields(s), k)
    decreases |s|
  {
    if s == "" {
    } else if UnicodeSpace(s[0]) {
      WordOccurs(s[1..], k);
      NotAtSpace(s, k);
    } else {
      var n := WordLength(s);
      var w, rest := s[..n], s[n..];
      WordOccurs(rest, k);
      SomeWordCons(w, Fields(rest), k);
      assert s == w + rest;
      if Contains(s, k) {
        StaysInWord(w, rest, k);
      }
      if Contains(w, k) {
        FirstPartContains(w, rest, k);
      }
      if Contains(rest, k) {
        LastPartContains(w, rest, k);
      }
    }
  }

  /** An occurrence does not run over the end of a word. */
  lemma StaysInWord(w: string, rest: string, k: string)
    requires k != "" && NoSpace(k) && (rest == "" || UnicodeSpace(rest[0])) && Contains(w + rest, k)
    ensures Contains(w, k) || Contains(rest, k)
  {
    var s := w + rest;
    var i := ContainsAt(s, k);
    forall p | i <= p < i + |k| ensures !UnicodeSpace(s[p]) {
      assert s[p] == s[i..i + |k|][p - i] == k[p - i];
    }
    assert rest != "" ==> s[|w|] == rest[0];
    if i + |k| <= |w| {
      assert w[i..i + |k|] == s[i..i + |k|];
      OccurrenceContains(w, k, i);
    } else {
      var j := i - |w|;
      SliceRight(w, rest, j, |k|);
      OccurrenceContains(rest, k, j);
    }
  }

  ghost predicate AreWords(words: seq<string>) {
    forall i | 0 <= i < |words| :: words[i] != "" && NoSpace(words[i])
  }

  lemma {:induction false} FieldsAreWords(s: string)
    ensures AreWords(Fields(s))
    decreases |s|
  {
    if s != "" {
      if UnicodeSpace(s[0]) {
        FieldsAreWords(s[1..]);
      } else {
        FieldsAreWords(s[WordLength(s)..]);
      }
    }
  }

  lemma {:induction false} LengthOfWord(w: string, rest: string)
    requires NoSpace(w) && (rest == "" || UnicodeSpace(rest[0]))
    ensures WordLength(w + rest) == |w|
  {
    if w == "" {
      assert w + rest == rest;
    } else {
      assert (w + rest)[1..] == w[1..] + rest;
      assert forall i | 0 <= i < |w[1..]| :: w[1..][i] == w[i + 1];
      LengthOfWord(w[1..], rest);
    }
  }

  /** A word before a gap, or alone, is the first field. */
  lemma FirstField(w: string, rest: string)
    requires w != "" && NoSpace(w) && (rest == "" || UnicodeSpace(rest[0]))
    ensures Fields(w + rest) == [w] + Fields(rest)
  {
    LengthOfWord(w, rest);
    assert (w + rest)[..|w|] == w && (w + rest)[|w|..] == rest;
    assert (w + rest)[0] == w[0];
  }

  lemma {:induction false} SkipGap(gap: string, rest: string)
    requires AllSpace(gap)
    ensures Fields(gap + rest) == Fields(rest)
  {
    if gap == "" {
      assert gap + rest == rest;
    } else {
      assert (gap + rest)[1..] == gap[1..] + rest;
      assert forall i | 0 <= i < |gap[1..]| :: gap[1..][i] == gap[i + 1];
      SkipGap(gap[1..], rest);
    }
  }

  /** Words joined by any gap are taken apart again. */
  lemma {:induction false} FieldsOfJoin(words: seq<string>, gap: string)
    requires AreWords(words) && gap != "" && AllSpace(gap)
    ensures Fields(Join(words, gap)) == words
  {
    if |words| == 1 {
      FirstField(words[0], "");
      assert words[0] + "" == words[0];
      assert words == [words[0]];
    } else if |words| > 1 {
      var rest := Join(words[1..], gap);
      FieldsOfJoin(words[1..], gap);
      assert words[0] + gap + rest == words[0] + (gap + rest);
      assert (gap + rest)[0] == gap[0];
      FirstField(words[0], gap + rest);
      SkipGap(gap, rest);
      assert words == [words[0]] + words[1..];
    }
  }

  function LowerAll(words: seq<string>): (r: seq<string>)
    ensures |r| == |words|
    ensures forall i | 0 <= i < |words| :: r[i] == Lower(words[i])
  {
    seq(|words|, i requires 0 <= i < |words| => Lower(words[i]))
  }

  lemma LowerKeepsSpace(c: char)
    ensures UnicodeSpace(LowerChar(c)) == UnicodeSpace(c)
  {
  }

  lemma LowerConcat(a: string, b: string)
    ensures Lower(a + b) == Lower(a) + Lower(b)
  {
  }

  lemma NoSpaceLower(k: string)
    requires NoSpace(k)
    ensures NoSpace(Lower(k))
  {
    forall i | 0 <= i < |k| ensures !UnicodeSpace(Lower(k)[i]) {
      LowerKeepsSpace(k[i]);
    }
  }

  lemma LowerAllCons(w: string, words: seq<string>)
    ensures LowerAll([w] + words) == [Lower(w)] + LowerAll(words)
  {
  }

  lemma FieldsLowerWord(w: string, rest: string)
    requires w != "" && NoSpace(w) && (rest == "" || UnicodeSpace(rest[0]))
    requires Fields(Lower(rest)) == LowerAll(Fields(rest))
    ensures Fields(Lower(w + rest)) == LowerAll(Fields(w + rest))
  {
    NoSpaceLower(w);
    LowerConcat(w, rest);
    if rest != "" {
      LowerKeepsSpace(rest[0]);
    }
    FirstField(w, rest);
    FirstField(Lower(w), Lower(rest));
    LowerAllCons(w, Fields(rest));
  }

  lemma {:induction false} FieldsLower(s: string)
    ensures Fields(Lower(s)) == LowerAll(Fields(s))
    decreases |s|
  {
    if s != "" {
      LowerKeepsSpace(s[0]);
      if UnicodeSpace(s[0]) {
        assert Lower(s)[1..] == Lower(s[1..]);
        FieldsLower(s[1..]);
      } else {
        var n := WordLength(s);
        FieldsLower(s[n..]);
        FieldsLowerWord(s[..n], s[n..]);
        assert s == s[..n] + s[n..];
      }
    }
  }

  lemma {:induction false} FieldsTrimStart(s: string)
    ensures Fields(TrimStart(s, Go)) == Fields(s)
  {
    if s != "" && UnicodeSpace(s[0]) {
      FieldsTrimStart(s[1..]);
    }
  }

  /** Trailing white space is no field. */
  lemma {:induction false} FieldsSnocSpace(s: string, c: char)
    requires UnicodeSpace(c)
    ensures Fields(s + [c]) == Fields(s)
    decreases |s|
  {
    if s == "" {
      assert ("" + [c])[1..] == "";
    } else if UnicodeSpace(s[0]) {
      assert (s + [c])[1..] == s[1..] + [c];
      FieldsSnocSpace(s[1..], c);
    } else {
      var n := WordLength(s);
      var w, rest := s[..n], s[n..];
      assert s == w + rest && s + [c] == w + (rest + [c]);
      FirstField(w, rest);
      FirstField(w, rest + [c]);
      FieldsSnocSpace(rest, c);
    }
  }

  lemma {:induction false} FieldsTrimEnd(s: string)
    ensures Fields(TrimEnd(s, Go)) == Fields(s)
  {
    if s != "" && UnicodeSpace(s[|s| - 1]) {
      var n := |s| - 1;
      FieldsTrimEnd(s[..n]);
      FieldsSnocSpace(s[..n], s[n]);
      assert s == s[..n] + [s[n]];
    }
  }

  /** The words of a query, in lower case: all that its normal form keeps. */
  lemma NormalWords(query: string)
    ensures Fields(NormalQuery(query)) == LowerAll(Fields(query))
    ensures Fields(GuardQuery(query)) == LowerAll(Fields(query))
    ensures NormalQuery(query) == Join(LowerAll(Fields(query)), " ")
  {
    FieldsAreWords(query);
    FieldsOfJoin(Fields(query), " ");
    FieldsLower(Join(Fields(query), " "));
    FieldsTrimStart(query);
    FieldsTrimEnd(TrimStart(query, Go));
    FieldsLower(TrimSpace(query));
    assert Lower(" ") == " ";
    LowerJoin(Fields(query), " ");
  }

  lemma {:induction false} LowerJoin(words: seq<string>, gap: string)
    requires Lower(gap) == gap
    ensures Lower(Join(words, gap)) == Join(LowerAll(words), gap)
  {
    if |words| > 1 {
      LowerJoin(words[1..], gap);
      assert LowerAll(words)[1..] == LowerAll(words[1..]);
      var rest := Join(words[1..], gap);
      assert Lower(words[0] + gap + rest) == Lower(words[0]) + Lower(gap) + Lower(rest);
    }
  }

  // ---------------------------------------------------------------- keyword rules

  /** As the configuration loader leaves them: trimmed and not empty. */
  ghost predicate Loaded(keywords: seq<string>) {
    forall i | 0 <= i < |keywords| :: HasEdges(keywords[i])
  }

  ghost predicate RuleHits(query: string, keyword: string) {
    Contains(GuardQuery(query), Lower(keyword))
  }

  lemma {:induction false} MatchesSome(query: string, keywords: seq<string>)
    ensures MatchesRule(query, keywords) <==> exists i | 0 <= i < |keywords| :: RuleHits(query, keywords[i])
  {
    if keywords != [] {
      MatchesSome(query, keywords[1..]);
      if MatchesRule(query, keywords[1..]) {
        var i :| 0 <= i < |keywords[1..]| && RuleHits(query, keywords[1..][i]);
        assert RuleHits(query, keywords[i + 1]);
      }
      if i :| 0 <= i < |keywords| && RuleHits(query, keywords[i]) {
        if i > 0 {
          assert keywords[1..][i - 1] == keywords[i];
        }
      }
    }
  }

  /** Keyword `i` contains some keyword without white space, perhaps itself. */
  ghost predicate Covered(keywords: seq<string>, i: nat) {
    && i < |keywords|
    && exists j | 0 <= j < |keywords| :: NoSpace(keywords[j]) && Contains(Lower(keywords[i]), Lower(keywords[j]))
  }

  ghost predicate AllCovered(keywords: seq<string>) {
    forall i: nat | i < |keywords| :: Covered(keywords, i)
  }

  /** Two queries with the same normal form are matched alike. */
  ghost predicate IgnoresSpacing(keywords: seq<string>) {
    forall p: string, q: string | NormalQuery(p) == NormalQuery(q) ::
      MatchesRule(p, keywords) == MatchesRule(q, keywords)
  }

  /** A keyword without white space is looked for in the words. */
  lemma HitsInWords(query: string, keyword: string)
    requires keyword != "" && NoSpace(keyword)
    ensures RuleHits(query, keyword) <==> InSomeWord(LowerAll(Fields(query)), Lower(keyword))
  {
    NoSpaceLower(keyword);
    NormalWords(query);
    WordOccurs(GuardQuery(query), Lower(keyword));
  }

  lemma ContainsTrans(s: string, t: string, k: string)
    requires Contains(s, t) && Contains(t, k)
    ensures Contains(s, k)
  {
    var i := ContainsAt(s, t);
    var front, back := s[..i], s[i + |t|..];
    assert s == front + (t + back);
    FirstPartContains(t, back, k);
    LastPartContains(front, t + back, k);
  }

  /** If every keyword is covered, a match shows in the words alone. */
  lemma CoveredMatch(p: string, q: string, keywords: seq<string>)
    requires Loaded(keywords) && AllCovered(keywords)
    requires LowerAll(Fields(p)) == LowerAll(Fields(q)) && MatchesRule(p, keywords)
    ensures MatchesRule(q, keywords)
  {
    MatchesSome(p, keywords);
    MatchesSome(q, keywords);
    var i :| 0 <= i < |keywords| && RuleHits(p, keywords[i]);
    assert Covered(keywords, i);
    var j :| 0 <= j < |keywords| && NoSpace(keywords[j]) && Contains(Lower(keywords[i]), Lower(keywords[j]));
    assert HasEdges(keywords[j]);
    ContainsTrans(GuardQuery(p), Lower(keywords[i]), Lower(keywords[j]));
    HitsInWords(p, keywords[j]);
    HitsInWords(q, keywords[j]);
  }

  function Longest(keywords: seq<string>): (n: nat)
    ensures forall i | 0 <= i < |keywords| :: |keywords[i]| <= n
  {
    if keywords == [] then 0
    else
      var n := Longest(keywords[1..]);
      assert forall i | 0 < i < |keywords| :: keywords[i] == keywords[1..][i - 1];
      if |keywords[0]| > n then |keywords[0]| else n
  }

  function Blanks(n: nat): (s: string)
    ensures |s| == n && AllSpace(s)
  {
    seq(n, i => ' ')
  }

  /** The words of a text, further apart than any keyword is long. */
  function Spread(text: string, keywords: seq<string>): string {
    Join(Fields(text), Blanks(Longest(keywords) + 1))
  }

  /** A keyword occurs in spread words only inside one of them. */
  lemma {:induction false} OccursInSpread(words: seq<string>, gap: string, k: string)
    requires HasEdges(k) && AllSpace(gap) && |gap| >= |k| && Contains(Join(words, gap), k)
    ensures InSomeWord(words, k)
  {
    if |words| == 1 {
      assert words == [words[0]] + [];
      SomeWordCons(words[0], [], k);
    } else if |words| > 1 {
      assert words == [words[0]] + words[1..];
      SomeWordCons(words[0], words[1..], k);
      AcrossGap(words[0], gap, Join(words[1..], gap), k);
      if !Contains(words[0], k) {
        OccursInSpread(words[1..], gap, k);
      }
    }
  }

  lemma PartNoSpace(w: string, k: string)
    requires NoSpace(w) && Contains(w, k)
    ensures NoSpace(k)
  {
    var i := ContainsAt(w, k);
    forall p | 0 <= p < |k| ensures !UnicodeSpace(k[p]) {
      assert k[p] == w[i..i + |k|][p] == w[i + p];
    }
  }

  lemma {:induction false} WordIsPart(s: string, k: string)
    requires k != "" && NoSpace(k) && InSomeWord(Fields(s), k)
    ensures Contains(s, k)
  {
    WordOccurs(s, k);
  }

  lemma LowerPartContains(s: string, i: nat, j: nat, k: string)
    requires i <= j <= |s| && Contains(Lower(s[i..j]), k)
    ensures Contains(Lower(s), k)
  {
    var front, middle, back := Lower(s)[..i], Lower(s)[i..j], Lower(s)[j..];
    assert middle == Lower(s[i..j]);
    assert Lower(s) == front + (middle + back);
    FirstPartContains(middle, back, k);
    LastPartContains(front, middle + back, k);
  }

  /** Trimming first makes no difference to what is found in the rest. */
  lemma HitIsPart(query: string, keyword: string)
    requires RuleHits(query, keyword)
    ensures Contains(Lower(query), Lower(keyword))
  {
    TrimPart(query, Go);
    var i, j :| 0 <= i <= j <= |query| && TrimSpace(query) == query[i..j];
    LowerPartContains(query, i, j, Lower(keyword));
  }

  lemma LowerEdges(k: string)
    requires HasEdges(k)
    ensures HasEdges(Lower(k))
  {
    LowerKeepsSpace(k[0]);
    LowerKeepsSpace(k[|k| - 1]);
  }

  lemma LowerAllWords(words: seq<string>)
    requires AreWords(words)
    ensures AreWords(LowerAll(words))
  {
    forall i | 0 <= i < |words| ensures LowerAll(words)[i] != "" && NoSpace(LowerAll(words)[i]) {
      NoSpaceLower(words[i]);
    }
  }

  lemma NoSpaceFromLower(k: string)
    requires NoSpace(Lower(k))
    ensures NoSpace(k)
  {
    forall i | 0 <= i < |k| ensures !UnicodeSpace(k[i]) {
      LowerKeepsSpace(k[i]);
    }
  }

  /** A keyword that hits the spread form of a text has no white space and occurs in the text. */
  lemma HitsSpread(text: string, keywords: seq<string>, j: nat)
    requires Loaded(keywords) && j < |keywords| && RuleHits(Spread(text, keywords), keywords[j])
    ensures NoSpace(keywords[j]) && Contains(Lower(text), Lower(keywords[j]))
  {
    var gap, words, k := Blanks(Longest(keywords) + 1), Fields(text), Lower(keywords[j]);
    assert Lower(gap) == gap;
    HitIsPart(Spread(text, keywords), keywords[j]);
    LowerJoin(words, gap);
    assert HasEdges(keywords[j]);
    LowerEdges(keywords[j]);
    OccursInSpread(LowerAll(words), gap, k);
    var i :| 0 <= i < |words| && Contains(LowerAll(words)[i], k);
    FieldsAreWords(text);
    LowerAllWords(words);
    PartNoSpace(LowerAll(words)[i], k);
    NoSpaceFromLower(keywords[j]);
    FieldsLower(text);
    WordIsPart(Lower(text), k);
  }

  lemma SpreadSameNormal(text: string, keywords: seq<string>)
    ensures NormalQuery(Spread(text, keywords)) == NormalQuery(text)
  {
    FieldsAreWords(text);
    FieldsOfJoin(Fields(text), Blanks(Longest(keywords) + 1));
    NormalWords(text);
    NormalWords(Spread(text, keywords));
  }

  lemma HitsItself(keyword: string)
    requires HasEdges(keyword)
    ensures RuleHits(keyword, keyword)
  {
    TrimFixes(keyword, Go);
  }

  /** An uncovered keyword matches as it is and not with its words spread. */
  lemma UncoveredSplits(keywords: seq<string>, i: nat)
    requires Loaded(keywords) && i < |keywords| && !Covered(keywords, i)
    ensures MatchesRule(keywords[i], keywords) && !MatchesRule(Spread(keywords[i], keywords), keywords)
    ensures NormalQuery(Spread(keywords[i], keywords)) == NormalQuery(keywords[i])
  {
    var k := keywords[i];
    assert HasEdges(k);
    HitsItself(k);
    MatchesSome(k, keywords);
    MatchesSome(Spread(k, keywords), keywords);
    SpreadSameNormal(k, keywords);
    forall j | 0 <= j < |keywords| ensures !RuleHits(Spread(k, keywords), keywords[j]) {
      if RuleHits(Spread(k, keywords), keywords[j]) {
        HitsSpread(k, keywords, j);
      }
    }
  }

  lemma SameNormalSameWords(p: string, q: string)
    requires NormalQuery(p) == NormalQuery(q)
    ensures LowerAll(Fields(p)) == LowerAll(Fields(q))
  {
    NormalWords(p);
    NormalWords(q);
  }

  lemma CoveredIgnoresSpacing(keywords: seq<string>, p: string, q: string)
    requires Loaded(keywords) && AllCovered(keywords) && NormalQuery(p) == NormalQuery(q)
    ensures MatchesRule(p, keywords) == MatchesRule(q, keywords)
  {
    SameNormalSameWords(p, q);
    if MatchesRule(p, keywords) {
      CoveredMatch(p, q, keywords);
    }
    if MatchesRule(q, keywords) {
      CoveredMatch(q, p, keywords);
    }
  }

  /** The rules ignore the spacing of queries exactly when every keyword contains one without white space. */
  lemma IgnoresSpacingExactly(keywords: seq<string>)
    requires Loaded(keywords)
    ensures IgnoresSpacing(keywords) <==> AllCovered(keywords)
  {
    if AllCovered(keywords) {
      forall p: string, q: string | NormalQuery(p) == NormalQuery(q)
        ensures MatchesRule(p, keywords) == MatchesRule(q, keywords)
      {
        CoveredIgnoresSpacing(keywords, p, q);
      }
    } else {
      var i: nat :| i < |keywords| && !Covered(keywords, i);
      UncoveredSplits(keywords, i);
    }
  }
}
