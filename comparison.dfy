/** `comparative_analysis` (src/comparison.py): topic overlap and coverage
    differences between news articles. The keyword extractor is not part of
    the model: its output, one keyword list per article in article order, is
    the input here. */
module Comparison {
  import opened Counting
  import opened Text

  type Keyword = string

  /** What `comparative_analysis` returns when it has fewer than two articles. */
  const NotEnoughArticles: string := "Not enough articles for comparison."

  /** One entry of "Coverage Differences": Article `earlier` (1-based)
      discusses `earlierTopics`, while Article `later` focuses on `laterTopics`. */
  datatype CoverageDifference = CoverageDifference(
    earlier: nat, earlierTopics: seq<Keyword>, later: nat, laterTopics: seq<Keyword>)
  {
    /** The value stored under the entry's "Comparison" key. */
    function Text(): string {
      "Article " + (NatToString(earlier) + Rest())
    }

    /** The sentence after the first article number. */
    function Rest(): string {
      " discusses " + (Join(earlierTopics, ", ")
      + ", while Article " + NatToString(later) + " focuses on " + Join(laterTopics, ", ") + ".")
    }
  }

  /** The returned dictionary: "Coverage Differences" and, under "Topic
      Overlap", "Common Topics" and "Unique Topics Per Article". */
  datatype Analysis = Analysis(
    coverageDifferences: seq<CoverageDifference>,
    commonTopics: seq<Keyword>,
    uniqueTopics: seq<set<Keyword>>)

  /** `comparative_analysis` returns either a message string or the analysis. */
  datatype Outcome = Message(text: string) | Report(analysis: Analysis)

  /** The elements of a list, as a set (Python's `set(xs)`). */
  function Elements(xs: seq<Keyword>): set<Keyword> {
    set k | k in xs
  }

  /** `[kw for sublist in lists for kw in sublist]`. */
  function Flatten(lists: seq<seq<Keyword>>): seq<Keyword> {
    if lists == [] then [] else Flatten(lists[..|lists| - 1]) + lists[|lists| - 1]
  }

  /** Every occurrence of a keyword in one article's list is an occurrence in
      the flattened list. */
  lemma {:induction false} FlattenCountsOne(lists: seq<seq<Keyword>>, i: nat, k: Keyword)
    requires i < |lists|
    ensures multiset(Flatten(lists))[k] >= multiset(lists[i])[k]
  {
    var n := |lists|;
    assert multiset(Flatten(lists)) == multiset(Flatten(lists[..n - 1])) + multiset(lists[n - 1]);
    if i < n - 1 {
      FlattenCountsOne(lists[..n - 1], i, k);
    }
  }

  /** Occurrences in two different articles' lists add up in the flattened list. */
  lemma {:induction false} FlattenCountsTwo(lists: seq<seq<Keyword>>, i: nat, j: nat, k: Keyword)
    requires i < j < |lists|
    ensures multiset(Flatten(lists))[k] >= multiset(lists[i])[k] + multiset(lists[j])[k]
  {
    var n := |lists|;
    assert multiset(Flatten(lists)) == multiset(Flatten(lists[..n - 1])) + multiset(lists[n - 1]);
    if j < n - 1 {
      FlattenCountsTwo(lists[..n - 1], i, j, k);
    } else {
      FlattenCountsOne(lists[..n - 1], i, k);
    }
  }

  /** `[kw for kw, count in counts.items() if count > 1]` over the keys in
      iteration order `keys`. */
  function Repeated(keys: seq<Keyword>, counts: map<Keyword, nat>): (r: seq<Keyword>)
    requires forall k :: k in keys ==> k in counts
    ensures forall k :: k in r ==> k in keys && counts[k] > 1
    ensures forall k :: k in keys && counts[k] > 1 ==> k in r
  {
    if keys == [] then []
    else
      var k := keys[|keys| - 1];
      Repeated(keys[..|keys| - 1], counts) + if counts[k] > 1 then [k] else []
  }

  /** `xs` lists elements of `all` in increasing order of their first
      occurrence in `all`. */
  predicate InFirstOccurrenceOrder(xs: seq<Keyword>, all: seq<Keyword>) {
    forall i, j :: 0 <= i < j < |xs| ==>
      xs[i] in all && xs[j] in all && FirstIndex(all, xs[i]) < FirstIndex(all, xs[j])
  }

  /** Filtering keeps the relative order of the keys: if the keys are listed in
      increasing order of their first occurrence in `all`, so is what is kept. */
  lemma {:induction false} RepeatedKeepsOrder(keys: seq<Keyword>, counts: map<Keyword, nat>, all: seq<Keyword>)
    requires forall k :: k in keys ==> k in counts && k in all
    requires InFirstOccurrenceOrder(keys, all)
    ensures InFirstOccurrenceOrder(Repeated(keys, counts), all)
  {
    if keys != [] {
      var p, k := keys[..|keys| - 1], keys[|keys| - 1];
      assert forall i :: 0 <= i < |p| ==> p[i] == keys[i];
      RepeatedKeepsOrder(p, counts, all);
      var q := Repeated(p, counts);
      if counts[k] > 1 {
        var r := q + [k];
        forall i, j | 0 <= i < j < |r|
          ensures r[i] in all && r[j] in all && FirstIndex(all, r[i]) < FirstIndex(all, r[j])
        {
          if j < |q| {
            assert r[i] == q[i] && r[j] == q[j];
          } else {
            assert q[i] in p;
            var a :| 0 <= a < |p| && p[a] == q[i];
            assert r[i] == keys[a] && r[j] == keys[|keys| - 1];
          }
        }
      }
    }
  }

  /** "Common Topics": the keywords occurring more than once in all the
      keyword lists together, each once, in the order of first occurrence. */
  function CommonTopics(keywords: seq<seq<Keyword>>): (common: seq<Keyword>)
    ensures forall k :: k in common <==> multiset(Flatten(keywords))[k] > 1
    ensures InFirstOccurrenceOrder(common, Flatten(keywords))
    ensures forall i, j :: 0 <= i < j < |common| ==> common[i] != common[j]
  {
    var all := Flatten(keywords);
    var counts := CounterOf(all);
    RepeatedKeepsOrder(counts.keys, counts.counts, all);
    var common := Repeated(counts.keys, counts.counts);
    assert forall k :: k in common ==> k in counts.counts && counts.counts[k] == multiset(all)[k];
    assert forall k :: multiset(all)[k] > 1 ==> k in all && k in counts.keys;
    common
  }

  /** "Unique Topics Per Article": for each article, its keywords that are not
      common topics. */
  function UniqueTopics(keywords: seq<seq<Keyword>>, common: seq<Keyword>): (unique: seq<set<Keyword>>)
    ensures |unique| == |keywords|
    ensures forall i :: 0 <= i < |keywords| ==> unique[i] <= Elements(keywords[i])
    ensures forall i :: 0 <= i < |keywords| ==> unique[i] !! Elements(common)
    ensures forall i :: 0 <= i < |keywords| ==>
      Elements(keywords[i]) == unique[i] + (Elements(keywords[i]) * Elements(common))
  {
    seq(|keywords|, i requires 0 <= i < |keywords| => Elements(keywords[i]) - Elements(common))
  }

  /** "Coverage Differences": one entry per pair of neighbouring articles. */
  function CoverageDifferences(keywords: seq<seq<Keyword>>): (entries: seq<CoverageDifference>)
    ensures |entries| == if |keywords| == 0 then 0 else |keywords| - 1
    ensures forall i :: 0 <= i < |entries| ==>
      entries[i] == CoverageDifference(i + 1, keywords[i], i + 2, keywords[i + 1])
  {
    var n := if |keywords| == 0 then 0 else |keywords| - 1;
    seq(n, i requires 0 <= i < n => CoverageDifference(i + 1, keywords[i], i + 2, keywords[i + 1]))
  }

  /** What `comparative_analysis` returns for the given keyword lists. */
  function ComparativeAnalysisOf(keywords: seq<seq<Keyword>>): (r: Outcome)
    ensures r.Message? <==> |keywords| < 2
    ensures r.Message? ==> r.text == NotEnoughArticles
  {
    if |keywords| < 2 then Message(NotEnoughArticles)
    else
      var common := CommonTopics(keywords);
      Report(Analysis(CoverageDifferences(keywords), common, UniqueTopics(keywords, common)))
  }

  /** The loop of `comparative_analysis` that appends one coverage entry per
      pair of neighbouring articles to an initially empty list. */
  method BuildCoverageDifferences(keywords: seq<seq<Keyword>>) returns (coverage: seq<CoverageDifference>)
    ensures coverage == CoverageDifferences(keywords)
  {
    coverage := [];
    var n := if |keywords| == 0 then 0 else |keywords| - 1;
    var i := 0;
    while i < n
      invariant 0 <= i <= n
      invariant |coverage| == i
      invariant forall j :: 0 <= j < i ==>
        coverage[j] == CoverageDifference(j + 1, keywords[j], j + 2, keywords[j + 1])
    {
      coverage := coverage + [CoverageDifference(i + 1, keywords[i], i + 2, keywords[i + 1])];
      i := i + 1;
    }
  }

  /** `comparative_analysis` as written: the guard, the topic overlap, and the
      coverage loop. */
  method ComparativeAnalysis(keywords: seq<seq<Keyword>>) returns (r: Outcome)
    ensures r == ComparativeAnalysisOf(keywords)
  {
    if |keywords| < 2 {
      return Message(NotEnoughArticles);
    }
    var common := CommonTopics(keywords);
    var unique := UniqueTopics(keywords, common);
    var coverage := BuildCoverageDifferences(keywords);
    r := Report(Analysis(coverage, common, unique));
  }

  /** An article's keyword is one of its unique topics exactly when it occurs
      only once across all the articles' keyword lists. */
  lemma UniqueIffSingleOccurrence(keywords: seq<seq<Keyword>>, i: nat, k: Keyword)
    requires 2 <= |keywords| && i < |keywords|
    ensures k in ComparativeAnalysisOf(keywords).analysis.uniqueTopics[i] <==>
      k in keywords[i] && multiset(Flatten(keywords))[k] == 1
  {
    FlattenCountsOne(keywords, i, k);
  }

  /** No keyword is a unique topic of two different articles: a keyword in two
      articles' lists occurs at least twice and so is a common topic. */
  lemma {:induction false} UniqueTopicsDisjoint(keywords: seq<seq<Keyword>>, i: nat, j: nat)
    requires 2 <= |keywords| && i < |keywords| && j < |keywords| && i != j
    ensures ComparativeAnalysisOf(keywords).analysis.uniqueTopics[i]
      !! ComparativeAnalysisOf(keywords).analysis.uniqueTopics[j]
  {
    var unique := ComparativeAnalysisOf(keywords).analysis.uniqueTopics;
    forall k | k in unique[i] && k in unique[j]
      ensures false
    {
      if i < j {
        FlattenCountsTwo(keywords, i, j, k);
      } else {
        FlattenCountsTwo(keywords, j, i, k);
      }
    }
  }

  /** Every common topic is a keyword of some article. */
  lemma {:induction false} CommonTopicsFromArticles(keywords: seq<seq<Keyword>>)
    requires 2 <= |keywords|
    ensures forall k :: k in ComparativeAnalysisOf(keywords).analysis.commonTopics ==>
      exists i :: 0 <= i < |keywords| && k in keywords[i]
  {
    var common := CommonTopics(keywords);
    forall k | k in common
      ensures exists i :: 0 <= i < |keywords| && k in keywords[i]
    {
      FlattenMember(keywords, k);
    }
  }

  /** A keyword of the flattened list comes from some article's list. */
  lemma {:induction false} FlattenMember(lists: seq<seq<Keyword>>, k: Keyword)
    requires k in Flatten(lists)
    ensures exists i :: 0 <= i < |lists| && k in lists[i]
  {
    var n := |lists|;
    if k !in lists[n - 1] {
      FlattenMember(lists[..n - 1], k);
      var i :| 0 <= i < n - 1 && k in lists[..n - 1][i];
      assert k in lists[i];
    }
  }

  /** The sentence of a coverage entry names its first article: two entries
      with the same sentence are about the same first article. */
  lemma TextNamesEarlier(a: CoverageDifference, b: CoverageDifference)
    requires a.Text() == b.Text()
    ensures a.earlier == b.earlier
  {
    var prefix := "Article ";
    var da, ra, db, rb := NatToString(a.earlier), a.Rest(), NatToString(b.earlier), b.Rest();
    assert (prefix + (da + ra))[|prefix|..] == da + ra;
    assert (prefix + (db + rb))[|prefix|..] == db + rb;
    assert ra[0] == ' ' && rb[0] == ' ';
    DigitsThenNonDigit(da, ra, db, rb);
    NatToStringInjective(a.earlier, b.earlier);
  }

  /** Different coverage entries render to different sentences. */
  lemma CoverageTextsDistinct(keywords: seq<seq<Keyword>>, i: nat, j: nat)
    requires i < j < |CoverageDifferences(keywords)|
    ensures CoverageDifferences(keywords)[i].Text() != CoverageDifferences(keywords)[j].Text()
  {
    var entries := CoverageDifferences(keywords);
    if entries[i].Text() == entries[j].Text() {
      TextNamesEarlier(entries[i], entries[j]);
    }
  }
}
