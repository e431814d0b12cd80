# News comparison and sentiment tally, in Dafny

This project models the two aggregation routines of the news-analysis
application. Each routine takes the results of the machine-learning models as
its input.

- `comparative_analysis` (src/comparison.py). It receives one keyword list per
  article, which KeyBERT produces in the application. It reports three things:
  - "Common Topics": the keywords that occur more than once across all lists,
    in the order of their first occurrence.
  - "Unique Topics Per Article": each article's keywords minus the common ones.
  - "Coverage Differences": one sentence per pair of neighbouring articles.

  With fewer than two articles it returns the message
  "Not enough articles for comparison.".
- `comparison_sentiments` (src/utils.py). It receives one sentiment label per
  article, which the DistilBERT pipeline produces in the application. It counts
  the labels with a `Counter` and picks an overall label with
  `max(counts, key=counts.get)`.

Modules:

- `Counting` (counting.dfy) models the part of Python's `collections.Counter`
  that both routines use. A counter is a datatype: the keys in iteration
  order, and a map from key to count. `CounterOf(s)` counts `s` from left to
  right. A known key is incremented. A new key is appended at the end.
- `Text` (text.dfy) models `str(n)` and `sep.join(items)`, which build the
  coverage sentences.
- `Comparison` (comparison.dfy) models `comparative_analysis`.
  `ComparativeAnalysisOf` is its specification as a function.
  `ComparativeAnalysis` is the routine as written, and its loop that appends
  coverage entries is the method `BuildCoverageDifferences`. An entry is the
  datatype `CoverageDifference`, and `CoverageDifference.Text` renders the
  sentence stored under its "Comparison" key.
- `Sentiment` (sentiment.dfy) models `comparison_sentiments`.
  `MaxIndex` models Python's `max`. `IsFirstMajority` is an independent
  definition of the label that should be chosen. The lemmas prove that the two
  agree.

Counts are stated against `multiset(s)[k]`, Dafny's built-in number of
occurrences. Iteration order is stated with `FirstIndex`, the position of an
element's first occurrence.

## Model

| member | source | states |
|---|---|---|
| `Counting.CounterOf` | src/comparison.py:22 | `Counter(s)` has each element of `s` as a key exactly once and no other key. Each count equals the element's number of occurrences in `s`. The keys iterate in increasing order of first occurrence in `s`. |
| `Counting.AddTallies` | src/utils.py:56 | Counting one more element keeps the counter faithful to the extended list. This covers both a known key and a new key inserted last. |
| `Counting.TotalOfCounterOf` | src/utils.py:56 | The counts of `Counter(s)` add up to the length of `s`. |
| `Comparison.FlattenCountsOne` | src/comparison.py:21 | The flattened keyword list has every occurrence of a keyword that any one article's list has. |
| `Comparison.FlattenCountsTwo` | src/comparison.py:21 | For two different articles, the occurrences of a keyword in both lists add up in the flattened list. |
| `Comparison.FlattenMember` | src/comparison.py:21 | Every keyword of the flattened list comes from some article's list. |
| `Comparison.Repeated` | src/comparison.py:24 | Filtering the counter's items keeps exactly the keys whose count exceeds 1. |
| `Comparison.RepeatedKeepsOrder` | src/comparison.py:24 | The filter keeps the counter's first-occurrence order. |
| `Comparison.CommonTopics` | src/comparison.py:21-24 | A keyword is a common topic iff its total occurrences across all keyword lists exceed 1. A keyword repeated inside one list also qualifies. Common topics have no duplicates. They are ordered by first occurrence in the flattened list. |
| `Comparison.UniqueTopics` | src/comparison.py:25-27 | There is one entry per article. Each entry is a subset of that article's keywords and is disjoint from the common topics. An article's keywords are its unique topics plus its keywords that are common topics, so the split loses nothing. |
| `Comparison.CoverageDifferences` | src/comparison.py:30-33 | There is one entry per pair of neighbouring articles, so n-1 entries. Entry i names article i+1 with article i's keywords, then article i+2 with article i+1's keywords. |
| `Comparison.BuildCoverageDifferences` | src/comparison.py:30-33 | The loop that appends to an initially empty list produces exactly those entries. |
| `Comparison.ComparativeAnalysisOf` | src/comparison.py:14-15 | The result is the message "Not enough articles for comparison." iff there are fewer than 2 articles. Otherwise it is the analysis. |
| `Comparison.ComparativeAnalysis` | src/comparison.py:11-42 | The routine as written returns the specified outcome: the guard, the topic overlap and the coverage loop. |
| `Comparison.UniqueIffSingleOccurrence` | src/comparison.py:21-26 | A keyword is a unique topic of article i iff it is in article i's list and occurs exactly once across all the lists. |
| `Comparison.UniqueTopicsDisjoint` | src/comparison.py:21-26 | No keyword is a unique topic of two different articles. |
| `Comparison.CommonTopicsFromArticles` | src/comparison.py:21-24 | Every common topic is a keyword of some article. |
| `Text.NatToString` | src/comparison.py:32 | `str(n)` is a non-empty string of decimal digits. It starts with '0' only when it is "0" itself, so there is no leading zero. |
| `Text.NatToStringRoundTrip` | src/comparison.py:32 | Reading the digits of `str(n)` back gives `n`. |
| `Text.NatToStringInjective` | src/comparison.py:32 | Different article numbers print differently. |
| `Text.DigitsThenNonDigit` | src/comparison.py:32 | A run of digits followed by a non-digit can be split off a string in only one way, so the article number after "Article " can be read back from the sentence. |
| `Comparison.TextNamesEarlier` | src/comparison.py:32 | Two coverage sentences that are equal name the same first article. |
| `Comparison.CoverageTextsDistinct` | src/comparison.py:30-33 | Different coverage entries render to different sentences. |
| `Sentiment.MaxIndex` | src/utils.py:57 | Python's `max(keys, key=counts.get)` picks a key whose count is at least every other key's count. Every key before it in iteration order has a strictly smaller count. |
| `Sentiment.ComparisonSentiments` | src/utils.py:54-62 | It raises `ValueError` iff there are no articles. Otherwise: the distribution's keys are exactly the labels that occur, each count is the number of articles with that label, the keys iterate in first-occurrence order, and the counts sum to the number of articles. The overall label is the first majority label. |
| `Sentiment.FirstMajorityOfCounter` | src/utils.py:56-57 | The key that `max` picks from the label counter has the greatest count. Among labels tied for that count, it is the one that appears first in article order. |
| `Sentiment.MaxKeyBeats` | src/utils.py:56-57 | The same statement for one label compared with the picked key. |
| `Sentiment.FirstMajorityIsUnique` | src/utils.py:57 | At most one label is the first majority label, so ties have exactly one answer. |
| `Sentiment.OverallIsFirstMajority` | src/utils.py:55-57 | For a non-empty label list, the reported label is `l` iff `l` is the first majority label. Both directions are proved. |

## Left out

- Keyword extraction (`extract_keywords_keybert`, src/utils.py:49-50) and sentiment classification (`analyze_sentiment`, src/utils.py:40-43) are ML models. Their outputs are the inputs of this model: one keyword list, or one label, per article in article order.
- `extract_news` (src/utils.py:10-33) is not modelled: it is an HTTP request plus HTML scraping.
- `generate_hindi_speech` (src/utils.py:66-70) is not modelled: it calls an online translator and writes an audio file.
- src/summarization.py, src/news_report.py, api.py and app.py are not part of this model. They hold an LLM call, PDF and chart rendering, and the HTTP and dashboard front-ends.
- Comparison.UniqueTopics: each entry is modelled as a set. The source turns a Python set into a list, and that order depends on string hashing, which Python randomises per process.
- The "Final Sentiment Analysis" sentence is not rendered. Its text includes `Counter`'s printed form. The model states only which label the sentence names.
- The results are datatypes rather than JSON-like dictionaries. `Comparison.Analysis` and `Sentiment.Outcome` hold the dictionaries' values. A coverage entry is the record `Comparison.CoverageDifference`, and its `Text()` gives the sentence that the source stores under the "Comparison" key.
