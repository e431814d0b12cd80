/** `comparison_sentiments` (src/utils.py): the distribution of sentiment
    labels over the articles and the overall label. The classifier is not part
    of the model: its output, one label per article in article order, is the
    input here. */
module Sentiment {
  import opened Counting

  type Label = string

  /** What `comparison_sentiments` produces: `max` over an empty `Counter`
      raises `ValueError`; otherwise the distribution and the label that the
      "Final Sentiment Analysis" sentence names. */
  datatype Outcome =
    | RaisesValueError
    | Report(distribution: Counter<Label>, overall: Label)

  /** Index of the key that `max(keys, key=counts.get)` returns: Python's
      `max` scans left to right and replaces its candidate only on a strictly
      greater count, so it keeps the first key with the greatest count. */
  function MaxIndex(keys: seq<Label>, counts: map<Label, nat>): (m: nat)
    requires |keys| > 0
    requires forall k :: k in keys ==> k in counts
    ensures m < |keys|
    ensures forall j :: 0 <= j < |keys| ==> counts[keys[j]] <= counts[keys[m]]
    ensures forall j :: 0 <= j < m ==> counts[keys[j]] < counts[keys[m]]
  {
    if |keys| == 1 then 0
    else
      var best := MaxIndex(keys[..|keys| - 1], counts);
      if counts[keys[|keys| - 1]] > counts[keys[best]] then |keys| - 1 else best
  }

  /** The number of articles labelled `l`. */
  function Count(labels: seq<Label>, l: Label): nat {
    multiset(labels)[l]
  }

  /** `l` is the majority label of `labels` with ties broken by article order:
      no label is more frequent, and every label that first appears earlier is
      strictly less frequent. */
  predicate IsFirstMajority(labels: seq<Label>, l: Label) {
    && l in labels
    && (forall m :: m in labels ==> Count(labels, m) <= Count(labels, l))
    && (forall m :: m in labels && FirstIndex(labels, m) < FirstIndex(labels, l) ==>
          Count(labels, m) < Count(labels, l))
  }

  /** At most one label is the first majority label. */
  lemma FirstMajorityIsUnique(labels: seq<Label>, l: Label, l': Label)
    requires IsFirstMajority(labels, l) && IsFirstMajority(labels, l')
    ensures l == l'
  {
  }

  /** `comparison_sentiments` for the given article labels. */
  function ComparisonSentiments(labels: seq<Label>): (r: Outcome)
    ensures r.RaisesValueError? <==> labels == []
    ensures r.Report? ==> r.distribution.Valid() && Tallies(r.distribution, labels)
    ensures r.Report? ==> forall l :: l in r.distribution.counts ==> l in labels
    ensures r.Report? ==> forall l :: l in labels ==>
      l in r.distribution.counts && r.distribution.counts[l] == Count(labels, l)
    ensures r.Report? ==> Total(r.distribution) == |labels|
    ensures r.Report? ==> IsFirstMajority(labels, r.overall)
  {
    if labels == [] then RaisesValueError
    else
      var c := CounterOf(labels);
      assert labels[0] in c.counts;
      TotalOfCounterOf(labels);
      var m := MaxIndex(c.keys, c.counts);
      FirstMajorityOfCounter(labels, c, m);
      Report(c, c.keys[m])
  }

  /** The key that `max` picks from `Counter(labels)` is the first majority
      label of `labels`: the keys iterate in first-occurrence order, so the
      first key with the greatest count is the label that first appears among
      those with the greatest count. */
  lemma FirstMajorityOfCounter(labels: seq<Label>, c: Counter<Label>, m: nat)
    requires Tallies(c, labels) && |c.keys| > 0
    requires m == MaxIndex(c.keys, c.counts)
    ensures IsFirstMajority(labels, c.keys[m])
  {
    forall x | x in labels
      ensures Count(labels, x) <= Count(labels, c.keys[m])
      ensures FirstIndex(labels, x) < FirstIndex(labels, c.keys[m]) ==> Count(labels, x) < Count(labels, c.keys[m])
    {
      MaxKeyBeats(labels, c, m, x);
    }
  }

  /** One label against the key that `max` picks. */
  lemma MaxKeyBeats(labels: seq<Label>, c: Counter<Label>, m: nat, x: Label)
    requires Tallies(c, labels) && m < |c.keys|
    requires forall j :: 0 <= j < |c.keys| ==> c.counts[c.keys[j]] <= c.counts[c.keys[m]]
    requires forall j :: 0 <= j < m ==> c.counts[c.keys[j]] < c.counts[c.keys[m]]
    requires x in labels
    ensures c.keys[m] in labels
    ensures Count(labels, x) <= Count(labels, c.keys[m])
    ensures FirstIndex(labels, x) < FirstIndex(labels, c.keys[m]) ==> Count(labels, x) < Count(labels, c.keys[m])
  {
    var l := c.keys[m];
    assert l in c.counts && c.counts[l] == Count(labels, l);
    assert x in c.counts && c.counts[x] == Count(labels, x);
    var j :| 0 <= j < |c.keys| && c.keys[j] == x;
    assert m < j ==> FirstIndex(labels, c.keys[m]) < FirstIndex(labels, c.keys[j]);
  }

  /** The reported label is exactly the first majority label: the two
      descriptions agree on every input with at least one article. */
  lemma {:induction false} OverallIsFirstMajority(labels: seq<Label>, l: Label)
    requires labels != []
    ensures ComparisonSentiments(labels).overall == l <==> IsFirstMajority(labels, l)
  {
    var r := ComparisonSentiments(labels);
    if IsFirstMajority(labels, l) {
      FirstMajorityIsUnique(labels, r.overall, l);
    }
  }
}
