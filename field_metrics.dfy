/** Per-field extraction quality of the dashboard
    (`calculate_extraction_metrics` in src/backend/dashboard/dashboard.py):
    for every field name found in the reviewed (corrected) data, the mean
    exact-match score, the mean token F1 and the number of samples. */
module FieldMetrics {
  import opened Wrappers
  import opened Scoring
  import opened Ratios

  /** One key/value pair of a JSON object. */
  datatype Entry = Entry(key: string, value: string)

  /** A JSON object of field values, in insertion order. */
  type FieldData = seq<Entry>

  /** A document after review: what the model extracted and what the
      reviewer saved. */
  datatype ReviewedDoc = ReviewedDoc(docType: string, predictedData: FieldData, correctedData: FieldData)

  datatype FieldMetric = FieldMetric(fieldName: string, exactMatchRate: real, tokenF1Score: real, samples: nat)

  /** The two score lists the source accumulates per field. */
  datatype FieldScores = FieldScores(exact: seq<real>, f1: seq<real>)

  function Keys(d: FieldData): seq<string> {
    seq(|d|, i requires 0 <= i < |d| => d[i].key)
  }

  /** A Python dict never holds a key twice. */
  predicate UniqueKeys(d: FieldData) {
    forall i, j :: 0 <= i < j < |d| ==> d[i].key != d[j].key
  }

  /** `d.get(key, None)`. */
  function Get(d: FieldData, key: string): (r: Option<string>)
    ensures r.None? <==> key !in Keys(d)
    ensures r.Some? ==> Entry(key, r.value) in d
  {
    if d == [] then None
    else if d[0].key == key then
      assert Keys(d)[0] == key;
      Some(d[0].value)
    else
      assert Keys(d) == [d[0].key] + Keys(d[1..]);
      Get(d[1..], key)
  }

  /** How one corrected value is scored against the predicted value of its
      field (`None` when the model did not extract it). */
  type Scorer = (Option<string>, string) -> real

  /** `_calculate_exact_match(pred_val, true_val)`. */
  function ExactScore(pred: Option<string>, truth: string): (r: real)
    ensures 0.0 <= r <= 1.0
  {
    ExactMatch(pred, Some(truth))
  }

  /** `_calculate_f1_token(pred_val, true_val)`. */
  function F1Score(pred: Option<string>, truth: string): (r: real)
    ensures 0.0 <= r <= 1.0
  {
    F1Token(pred, Some(truth))
  }

  ghost predicate Bounded(score: Scorer) {
    forall p, t :: 0.0 <= score(p, t) <= 1.0
  }

  // ---------------------------------------------------------------------
  // The specification: what `field_metrics` holds after a prefix of the input

  /** Scores that the corrected entries `entries` of one document add to
      field `f`, scored against that document's predicted data. */
  function EntryScores(pred: FieldData, entries: FieldData, f: string, score: Scorer): seq<real>
    decreases |entries|
  {
    if entries == [] then []
    else
      var e := entries[|entries| - 1];
      EntryScores(pred, entries[..|entries| - 1], f, score)
      + (if e.key == f then [score(Get(pred, f), e.value)] else [])
  }

  /** All scores of field `f` over the documents, in document order. */
  function Scores(docs: seq<ReviewedDoc>, f: string, score: Scorer): seq<real>
    decreases |docs|
  {
    if docs == [] then []
    else
      var d := docs[|docs| - 1];
      Scores(docs[..|docs| - 1], f, score) + EntryScores(d.predictedData, d.correctedData, f, score)
  }

  /** Appends the keys of `entries` not yet in `order`, in entry order. */
  function AddKeys(order: seq<string>, entries: FieldData): seq<string>
    decreases |entries|
  {
    if entries == [] then order
    else
      var o := AddKeys(order, entries[..|entries| - 1]);
      var k := entries[|entries| - 1].key;
      if k in o then o else o + [k]
  }

  /** Field names of the corrected data, in the order first seen. */
  function FieldOrder(docs: seq<ReviewedDoc>): seq<string>
    decreases |docs|
  {
    if docs == [] then []
    else AddKeys(FieldOrder(docs[..|docs| - 1]), docs[|docs| - 1].correctedData)
  }

  /** Python's `sum`, adding left to right. */
  function Sum(s: seq<real>): real {
    if s == [] then 0.0 else Sum(s[..|s| - 1]) + s[|s| - 1]
  }

  function Mean(s: seq<real>): real
    requires s != []
  {
    Sum(s) / |s| as real
  }

  function MetricOf(docs: seq<ReviewedDoc>, f: string): FieldMetric
    requires Scores(docs, f, ExactScore) != [] && Scores(docs, f, F1Score) != []
  {
    FieldMetric(f, Mean(Scores(docs, f, ExactScore)), Mean(Scores(docs, f, F1Score)), |Scores(docs, f, ExactScore)|)
  }

  /** What `calculate_extraction_metrics` returns. */
  function ExtractionMetrics(docs: seq<ReviewedDoc>): (r: seq<FieldMetric>)
    ensures |r| == |FieldOrder(docs)|
  {
    var order := FieldOrder(docs);
    seq(|order|, k requires 0 <= k < |order| =>
      FieldOrderScored(docs, order[k]);
      MetricOf(docs, order[k]))
  }

  // ---------------------------------------------------------------------
  // calculate_extraction_metrics

  /** The document `doc` with only its first `j` corrected entries: the
      state of the scan in the middle of a document. */
  function Partial(doc: ReviewedDoc, j: nat): ReviewedDoc
    requires j <= |doc.correctedData|
  {
    ReviewedDoc(doc.docType, doc.predictedData, doc.correctedData[..j])
  }

  /** `fieldMetrics` (with `order`, its key insertion order) holds exactly
      the scores of the documents `docs`. */
  ghost predicate Accumulated(fieldMetrics: map<string, FieldScores>, order: seq<string>, docs: seq<ReviewedDoc>,
                              ex: Scorer, f1: Scorer) {
    && order == FieldOrder(docs)
    && (forall f :: f in fieldMetrics <==> f in order)
    && HoldsScores(fieldMetrics, docs, ex, f1)
  }

  /** Every key of `fieldMetrics` holds the scores of its field under the
      scorers `ex` and `f1`, and every other field has none. */
  ghost predicate HoldsScores(fieldMetrics: map<string, FieldScores>, docs: seq<ReviewedDoc>, ex: Scorer, f1: Scorer) {
    && (forall f :: f in fieldMetrics ==>
          fieldMetrics[f] == FieldScores(Scores(docs, f, ex), Scores(docs, f, f1))
          && fieldMetrics[f].exact != [] && fieldMetrics[f].f1 != [])
    && (forall f :: f !in fieldMetrics ==>
          Scores(docs, f, ex) == [] && Scores(docs, f, f1) == [])
  }

  /** `calculate_extraction_metrics`: the first loop grows `fieldMetrics`
      (with `fieldOrder`, the insertion order of its keys) document by
      document and entry by entry; the second builds one result per key, in
      that order. */
  method CalculateExtractionMetrics(reviewedDocs: seq<ReviewedDoc>) returns (results: seq<FieldMetric>)
    ensures results == ExtractionMetrics(reviewedDocs)
  {
    var fieldMetrics: map<string, FieldScores> := map[];
    var fieldOrder: seq<string> := [];
    for i := 0 to |reviewedDocs|
      invariant Accumulated(fieldMetrics, fieldOrder, reviewedDocs[..i], ExactScore, F1Score)
    {
      fieldMetrics, fieldOrder := AccumulateDocument(fieldMetrics, fieldOrder, reviewedDocs[..i], reviewedDocs[i],
                                                     ExactScore, F1Score);
      assert reviewedDocs[..i + 1] == reviewedDocs[..i] + [reviewedDocs[i]];
    }
    assert reviewedDocs[..|reviewedDocs|] == reviewedDocs;
    AccumulatedResults(fieldMetrics, fieldOrder, reviewedDocs);
    results := BuildResults(fieldMetrics, fieldOrder);
  }

  /** Every key in `order` has a non-empty score list of each kind. */
  ghost predicate Scored(fieldMetrics: map<string, FieldScores>, order: seq<string>) {
    forall f :: f in order ==> f in fieldMetrics && fieldMetrics[f].exact != [] && fieldMetrics[f].f1 != []
  }

  /** The results built from the score lists of `fieldMetrics`, one per key
      of `order`: the two means and the number of samples. */
  function ResultsOf(fieldMetrics: map<string, FieldScores>, order: seq<string>): seq<FieldMetric>
    requires Scored(fieldMetrics, order)
  {
    seq(|order|, k requires 0 <= k < |order| =>
      var s := fieldMetrics[order[k]];
      FieldMetric(order[k], Mean(s.exact), Mean(s.f1), |s.exact|))
  }

  /** The second loop of `calculate_extraction_metrics`: one result per
      field, in insertion order, with the means of its scores and their
      count. */
  method BuildResults(fieldMetrics: map<string, FieldScores>, fieldOrder: seq<string>)
    returns (results: seq<FieldMetric>)
    requires Scored(fieldMetrics, fieldOrder)
    ensures results == ResultsOf(fieldMetrics, fieldOrder)
  {
    results := [];
    for k := 0 to |fieldOrder|
      invariant results == ResultsOf(fieldMetrics, fieldOrder)[..k]
    {
      var field := fieldOrder[k];
      var scores := fieldMetrics[field];
      results := results + [FieldMetric(
        field,
        Sum(scores.exact) / |scores.exact| as real,
        Sum(scores.f1) / |scores.f1| as real,
        |scores.exact|)];
    }
  }

  /** Once every document is scanned, the results built from the dictionary
      are the specification's. */
  lemma AccumulatedResults(fieldMetrics: map<string, FieldScores>, order: seq<string>, docs: seq<ReviewedDoc>)
    requires Accumulated(fieldMetrics, order, docs, ExactScore, F1Score)
    ensures Scored(fieldMetrics, order)
    ensures ResultsOf(fieldMetrics, order) == ExtractionMetrics(docs)
  {
    forall k | 0 <= k < |order|
      ensures ResultsOf(fieldMetrics, order)[k] == ExtractionMetrics(docs)[k]
    {
      ResultAt(fieldMetrics, order, docs, k);
    }
  }

  /** The `k`-th result, computed from the accumulated scores of all the
      documents, is the `k`-th entry of the specification. */
  lemma ResultAt(fieldMetrics: map<string, FieldScores>, order: seq<string>, docs: seq<ReviewedDoc>, k: nat)
    requires Accumulated(fieldMetrics, order, docs, ExactScore, F1Score)
    requires k < |order|
    ensures order[k] in fieldMetrics
    ensures var s := fieldMetrics[order[k]];
            && s.exact != [] && s.f1 != []
            && ExtractionMetrics(docs)[k] == FieldMetric(order[k], Mean(s.exact), Mean(s.f1), |s.exact|)
  {
  }

  /** The inner loop of `calculate_extraction_metrics`: every corrected
      entry of `doc` appends its two scores, against the predicted value of
      the same key or `None`, to its field. The scorers `ex` and `f1` are
      `_calculate_exact_match` and `_calculate_f1_token`, passed in. */
  method AccumulateDocument(fieldMetrics: map<string, FieldScores>, fieldOrder: seq<string>,
                            ghost docs: seq<ReviewedDoc>, doc: ReviewedDoc, ex: Scorer, f1: Scorer)
    returns (fieldMetrics': map<string, FieldScores>, fieldOrder': seq<string>)
    requires Accumulated(fieldMetrics, fieldOrder, docs, ex, f1)
    ensures Accumulated(fieldMetrics', fieldOrder', docs + [doc], ex, f1)
  {
    var truthJson := doc.correctedData;
    var predJson := doc.predictedData;
    fieldMetrics', fieldOrder' := fieldMetrics, fieldOrder;
    AccumulatedStart(fieldMetrics', fieldOrder', docs, doc, ex, f1);
    for j := 0 to |truthJson|
      invariant Accumulated(fieldMetrics', fieldOrder', docs + [Partial(doc, j)], ex, f1)
    {
      var field, trueVal := truthJson[j].key, truthJson[j].value;
      var predVal := Get(predJson, field);
      ghost var (before, beforeOrder) := (fieldMetrics', fieldOrder');
      var scores := FieldScores([], []);
      if field in fieldMetrics' {
        scores := fieldMetrics'[field];
      } else {
        fieldOrder' := fieldOrder' + [field];
      }
      fieldMetrics' := fieldMetrics'[field := FieldScores(
        scores.exact + [ex(predVal, trueVal)],
        scores.f1 + [f1(predVal, trueVal)])];
      AccumulatedStep(before, beforeOrder, docs, doc, j, fieldMetrics', fieldOrder', ex, f1);
    }
    assert Partial(doc, |truthJson|) == doc;
  }

  lemma ScoresPartial(docs: seq<ReviewedDoc>, doc: ReviewedDoc, j: nat, f: string, score: Scorer)
    requires j <= |doc.correctedData|
    ensures Scores(docs + [Partial(doc, j)], f, score)
            == Scores(docs, f, score) + EntryScores(doc.predictedData, doc.correctedData[..j], f, score)
  {
    assert (docs + [Partial(doc, j)])[..|docs|] == docs;
  }

  lemma FieldOrderPartial(docs: seq<ReviewedDoc>, doc: ReviewedDoc, j: nat)
    requires j <= |doc.correctedData|
    ensures FieldOrder(docs + [Partial(doc, j)]) == AddKeys(FieldOrder(docs), doc.correctedData[..j])
  {
    assert (docs + [Partial(doc, j)])[..|docs|] == docs;
  }

  /** Starting a document adds no scores and no fields. */
  lemma AccumulatedStart(fieldMetrics: map<string, FieldScores>, order: seq<string>, docs: seq<ReviewedDoc>,
                         doc: ReviewedDoc, ex: Scorer, f1: Scorer)
    requires Accumulated(fieldMetrics, order, docs, ex, f1)
    ensures Accumulated(fieldMetrics, order, docs + [Partial(doc, 0)], ex, f1)
  {
    FieldOrderPartial(docs, doc, 0);
    forall f ensures Scores(docs + [Partial(doc, 0)], f, ex) == Scores(docs, f, ex)
                  && Scores(docs + [Partial(doc, 0)], f, f1) == Scores(docs, f, f1)
    {
      ScoresPartial(docs, doc, 0, f, ex);
      ScoresPartial(docs, doc, 0, f, f1);
    }
  }

  /** One corrected entry appends one score of each kind to its own field
      (adding the field at the end of the order when it is new) and changes
      nothing else. */
  lemma AccumulatedStep(fieldMetrics: map<string, FieldScores>, order: seq<string>, docs: seq<ReviewedDoc>,
                        doc: ReviewedDoc, j: nat,
                        fieldMetrics': map<string, FieldScores>, order': seq<string>, ex: Scorer, f1: Scorer)
    requires j < |doc.correctedData|
    requires Accumulated(fieldMetrics, order, docs + [Partial(doc, j)], ex, f1)
    requires var e := doc.correctedData[j];
             var s := if e.key in fieldMetrics then fieldMetrics[e.key] else FieldScores([], []);
             var p := Get(doc.predictedData, e.key);
             && order' == (if e.key in fieldMetrics then order else order + [e.key])
             && fieldMetrics' == fieldMetrics[e.key := FieldScores(s.exact + [ex(p, e.value)], s.f1 + [f1(p, e.value)])]
    ensures Accumulated(fieldMetrics', order', docs + [Partial(doc, j + 1)], ex, f1)
  {
    var key := doc.correctedData[j].key;
    OrderStep(order, docs, doc, j, key in fieldMetrics);
    HoldsScoresStep(fieldMetrics, docs, doc, j, fieldMetrics', ex, f1);
  }

  lemma OrderStep(order: seq<string>, docs: seq<ReviewedDoc>, doc: ReviewedDoc, j: nat, seen: bool)
    requires j < |doc.correctedData|
    requires order == FieldOrder(docs + [Partial(doc, j)])
    requires seen <==> doc.correctedData[j].key in order
    ensures (if seen then order else order + [doc.correctedData[j].key]) == FieldOrder(docs + [Partial(doc, j + 1)])
  {
    var cd := doc.correctedData;
    assert cd[..j + 1][..j] == cd[..j];
    FieldOrderPartial(docs, doc, j);
    FieldOrderPartial(docs, doc, j + 1);
  }

  lemma HoldsScoresStep(fieldMetrics: map<string, FieldScores>, docs: seq<ReviewedDoc>, doc: ReviewedDoc, j: nat,
                        fieldMetrics': map<string, FieldScores>, ex: Scorer, f1: Scorer)
    requires j < |doc.correctedData|
    requires HoldsScores(fieldMetrics, docs + [Partial(doc, j)], ex, f1)
    requires var e := doc.correctedData[j];
             var s := if e.key in fieldMetrics then fieldMetrics[e.key] else FieldScores([], []);
             var p := Get(doc.predictedData, e.key);
             fieldMetrics' == fieldMetrics[e.key := FieldScores(s.exact + [ex(p, e.value)], s.f1 + [f1(p, e.value)])]
    ensures HoldsScores(fieldMetrics', docs + [Partial(doc, j + 1)], ex, f1)
  {
    forall f {
      HoldsScoresStepAt(fieldMetrics, docs, doc, j, fieldMetrics', ex, f1, f);
    }
  }

  lemma HoldsScoresStepAt(fieldMetrics: map<string, FieldScores>, docs: seq<ReviewedDoc>, doc: ReviewedDoc, j: nat,
                          fieldMetrics': map<string, FieldScores>, ex: Scorer, f1: Scorer, f: string)
    requires j < |doc.correctedData|
    requires HoldsScores(fieldMetrics, docs + [Partial(doc, j)], ex, f1)
    requires var e := doc.correctedData[j];
             var s := if e.key in fieldMetrics then fieldMetrics[e.key] else FieldScores([], []);
             var p := Get(doc.predictedData, e.key);
             fieldMetrics' == fieldMetrics[e.key := FieldScores(s.exact + [ex(p, e.value)], s.f1 + [f1(p, e.value)])]
    ensures var d1 := docs + [Partial(doc, j + 1)];
            && (f in fieldMetrics' ==>
                  fieldMetrics'[f] == FieldScores(Scores(d1, f, ex), Scores(d1, f, f1))
                  && fieldMetrics'[f].exact != [] && fieldMetrics'[f].f1 != [])
            && (f !in fieldMetrics' ==> Scores(d1, f, ex) == [] && Scores(d1, f, f1) == [])
  {
    var e := doc.correctedData[j];
    var d0, d1 := docs + [Partial(doc, j)], docs + [Partial(doc, j + 1)];
    ScoresStep(docs, doc, j, f, ex);
    ScoresStep(docs, doc, j, f, f1);
    if f == e.key {
      var p := Get(doc.predictedData, f);
      var x, y := ex(p, e.value), f1(p, e.value);
      assert Scores(d1, f, ex) == Scores(d0, f, ex) + [x];
      assert Scores(d1, f, f1) == Scores(d0, f, f1) + [y];
      assert fieldMetrics'[f] == FieldScores(Scores(d0, f, ex) + [x], Scores(d0, f, f1) + [y]);
    } else {
      assert Scores(d1, f, ex) == Scores(d0, f, ex);
      assert Scores(d1, f, f1) == Scores(d0, f, f1);
      assert f in fieldMetrics' <==> f in fieldMetrics;
    }
  }

  lemma ScoresStep(docs: seq<ReviewedDoc>, doc: ReviewedDoc, j: nat, f: string, score: Scorer)
    requires j < |doc.correctedData|
    ensures var e := doc.correctedData[j];
            Scores(docs + [Partial(doc, j + 1)], f, score) == Scores(docs + [Partial(doc, j)], f, score)
              + (if e.key == f then [score(Get(doc.predictedData, f), e.value)] else [])
  {
    assert doc.correctedData[..j + 1][..j] == doc.correctedData[..j];
    ScoresPartial(docs, doc, j, f, score);
    ScoresPartial(docs, doc, j + 1, f, score);
  }

  // ---------------------------------------------------------------------
  // Counting keys

  /** Entries of `entries` whose key is `f`. */
  function KeyCount(entries: FieldData, f: string): nat
    decreases |entries|
  {
    if entries == [] then 0
    else KeyCount(entries[..|entries| - 1], f) + (if entries[|entries| - 1].key == f then 1 else 0)
  }

  /** Corrected entries named `f` over all documents. */
  function Occurrences(docs: seq<ReviewedDoc>, f: string): nat
    decreases |docs|
  {
    if docs == [] then 0
    else Occurrences(docs[..|docs| - 1], f) + KeyCount(docs[|docs| - 1].correctedData, f)
  }

  /** Documents whose corrected data has the field `f`. */
  function DocsWithField(docs: seq<ReviewedDoc>, f: string): nat
    decreases |docs|
  {
    if docs == [] then 0
    else DocsWithField(docs[..|docs| - 1], f) + (if f in Keys(docs[|docs| - 1].correctedData) then 1 else 0)
  }

  lemma {:induction false} KeyCountPositive(entries: FieldData, f: string)
    ensures KeyCount(entries, f) > 0 <==> f in Keys(entries)
    decreases |entries|
  {
    if entries != [] {
      var init := entries[..|entries| - 1];
      KeyCountPositive(init, f);
      assert Keys(entries) == Keys(init) + [entries[|entries| - 1].key];
    }
  }

  lemma {:induction false} KeyCountUnique(entries: FieldData, f: string)
    requires UniqueKeys(entries)
    ensures KeyCount(entries, f) == if f in Keys(entries) then 1 else 0
    decreases |entries|
  {
    if entries != [] {
      var init := entries[..|entries| - 1];
      KeyCountUnique(init, f);
      assert Keys(entries) == Keys(init) + [entries[|entries| - 1].key];
    }
  }

  lemma {:induction false} EntryScoresLength(pred: FieldData, entries: FieldData, f: string, score: Scorer)
    ensures |EntryScores(pred, entries, f, score)| == KeyCount(entries, f)
    decreases |entries|
  {
    if entries != [] {
      EntryScoresLength(pred, entries[..|entries| - 1], f, score);
    }
  }

  /** Each metric gets one score per corrected entry of the field. */
  lemma {:induction false} ScoresLength(docs: seq<ReviewedDoc>, f: string, score: Scorer)
    ensures |Scores(docs, f, score)| == Occurrences(docs, f)
    decreases |docs|
  {
    if docs != [] {
      var d := docs[|docs| - 1];
      ScoresLength(docs[..|docs| - 1], f, score);
      EntryScoresLength(d.predictedData, d.correctedData, f, score);
    }
  }

  lemma {:induction false} AddKeysMembership(order: seq<string>, entries: FieldData, f: string)
    ensures f in AddKeys(order, entries) <==> f in order || KeyCount(entries, f) > 0
    decreases |entries|
  {
    if entries != [] {
      AddKeysMembership(order, entries[..|entries| - 1], f);
    }
  }

  lemma {:induction false} FieldOrderMembership(docs: seq<ReviewedDoc>, f: string)
    ensures f in FieldOrder(docs) <==> Occurrences(docs, f) > 0
    decreases |docs|
  {
    if docs != [] {
      FieldOrderMembership(docs[..|docs| - 1], f);
      AddKeysMembership(FieldOrder(docs[..|docs| - 1]), docs[|docs| - 1].correctedData, f);
    }
  }

  /** Every listed field has at least one score of each kind. */
  lemma FieldOrderScored(docs: seq<ReviewedDoc>, f: string)
    requires f in FieldOrder(docs)
    ensures Scores(docs, f, ExactScore) != [] && Scores(docs, f, F1Score) != []
  {
    FieldOrderMembership(docs, f);
    ScoresLength(docs, f, ExactScore);
    ScoresLength(docs, f, F1Score);
  }

  lemma {:induction false} OccurrencesPositive(docs: seq<ReviewedDoc>, f: string)
    ensures Occurrences(docs, f) > 0 <==> exists d :: d in docs && f in Keys(d.correctedData)
    decreases |docs|
  {
    if docs != [] {
      var init, d := docs[..|docs| - 1], docs[|docs| - 1];
      OccurrencesPositive(init, f);
      KeyCountPositive(d.correctedData, f);
      assert docs == init + [d];
      assert forall x :: x in docs <==> x in init || x == d;
    }
  }

  lemma {:induction false} OccurrencesUnique(docs: seq<ReviewedDoc>, f: string)
    requires forall d :: d in docs ==> UniqueKeys(d.correctedData)
    ensures Occurrences(docs, f) == DocsWithField(docs, f)
    decreases |docs|
  {
    if docs != [] {
      var init, d := docs[..|docs| - 1], docs[|docs| - 1];
      assert forall x :: x in init ==> x in docs;
      OccurrencesUnique(init, f);
      KeyCountUnique(d.correctedData, f);
    }
  }

  // ---------------------------------------------------------------------
  // Order of the fields

  lemma {:induction false} AddKeysPrefix(order: seq<string>, entries: FieldData)
    ensures order <= AddKeys(order, entries)
    decreases |entries|
  {
    if entries != [] {
      AddKeysPrefix(order, entries[..|entries| - 1]);
    }
  }

  predicate Distinct(xs: seq<string>) {
    forall i, j :: 0 <= i < j < |xs| ==> xs[i] != xs[j]
  }

  lemma {:induction false} AddKeysDistinct(order: seq<string>, entries: FieldData)
    requires Distinct(order)
    ensures Distinct(AddKeys(order, entries))
    decreases |entries|
  {
    if entries != [] {
      AddKeysDistinct(order, entries[..|entries| - 1]);
    }
  }

  lemma {:induction false} FieldOrderDistinct(docs: seq<ReviewedDoc>)
    ensures Distinct(FieldOrder(docs))
    decreases |docs|
  {
    if docs != [] {
      FieldOrderDistinct(docs[..|docs| - 1]);
      AddKeysDistinct(FieldOrder(docs[..|docs| - 1]), docs[|docs| - 1].correctedData);
    }
  }

  /** The fields of the first `i` documents come first, in the same order. */
  lemma {:induction false} FieldOrderPrefix(docs: seq<ReviewedDoc>, i: nat)
    requires i <= |docs|
    ensures FieldOrder(docs[..i]) <= FieldOrder(docs)
    decreases |docs|
  {
    if i < |docs| {
      var init := docs[..|docs| - 1];
      assert docs[..i] == init[..i];
      FieldOrderPrefix(init, i);
      AddKeysPrefix(FieldOrder(init), docs[|docs| - 1].correctedData);
    } else {
      assert docs[..i] == docs;
    }
  }

  // ---------------------------------------------------------------------
  // Bounds on the rates

  lemma {:induction false} EntryScoresBounded(pred: FieldData, entries: FieldData, f: string, score: Scorer)
    requires Bounded(score)
    ensures forall x :: x in EntryScores(pred, entries, f, score) ==> 0.0 <= x <= 1.0
    decreases |entries|
  {
    if entries != [] {
      EntryScoresBounded(pred, entries[..|entries| - 1], f, score);
    }
  }

  lemma {:induction false} ScoresBounded(docs: seq<ReviewedDoc>, f: string, score: Scorer)
    requires Bounded(score)
    ensures forall x :: x in Scores(docs, f, score) ==> 0.0 <= x <= 1.0
    decreases |docs|
  {
    if docs != [] {
      var d := docs[|docs| - 1];
      ScoresBounded(docs[..|docs| - 1], f, score);
      EntryScoresBounded(d.predictedData, d.correctedData, f, score);
    }
  }

  lemma {:induction false} SumBounded(s: seq<real>)
    requires forall x :: x in s ==> 0.0 <= x <= 1.0
    ensures 0.0 <= Sum(s) <= |s| as real
    decreases |s|
  {
    if s != [] {
      var init := s[..|s| - 1];
      assert s[|s| - 1] in s;
      forall x | x in init ensures 0.0 <= x <= 1.0 {
        var i :| 0 <= i < |init| && init[i] == x;
        assert s[i] == x && s[i] in s;
      }
      SumBounded(init);
    }
  }

  /** The mean of scores in [0, 1] lies in [0, 1]. */
  lemma MeanBounded(s: seq<real>)
    requires s != []
    requires forall x :: x in s ==> 0.0 <= x <= 1.0
    ensures 0.0 <= Mean(s) <= 1.0
  {
    SumBounded(s);
    MeanOfBounded(Sum(s), |s|);
  }

  // ---------------------------------------------------------------------
  // Properties of calculate_extraction_metrics

  /** A field has a result exactly when some document's corrected data has
      it; fields found only in the predicted data are ignored. */
  lemma ResultFieldsAreCorrectedFields(docs: seq<ReviewedDoc>, f: string)
    ensures (exists k :: 0 <= k < |ExtractionMetrics(docs)| && ExtractionMetrics(docs)[k].fieldName == f)
            <==> exists d :: d in docs && f in Keys(d.correctedData)
  {
    var r, order := ExtractionMetrics(docs), FieldOrder(docs);
    FieldOrderMembership(docs, f);
    OccurrencesPositive(docs, f);
    if f in order {
      var k :| 0 <= k < |order| && order[k] == f;
      assert r[k].fieldName == f;
    }
  }

  /** One result per distinct field name. */
  lemma ResultFieldsDistinct(docs: seq<ReviewedDoc>)
    ensures forall i, j :: 0 <= i < j < |ExtractionMetrics(docs)| ==>
              ExtractionMetrics(docs)[i].fieldName != ExtractionMetrics(docs)[j].fieldName
  {
    FieldOrderDistinct(docs);
  }

  /** Results come in first-seen order: the fields of the first `i`
      documents lead, in their own order. */
  lemma ResultsInFirstSeenOrder(docs: seq<ReviewedDoc>, i: nat)
    requires i <= |docs|
    ensures |FieldOrder(docs[..i])| <= |ExtractionMetrics(docs)|
    ensures forall k :: 0 <= k < |FieldOrder(docs[..i])| ==>
              ExtractionMetrics(docs)[k].fieldName == FieldOrder(docs[..i])[k]
  {
    FieldOrderPrefix(docs, i);
  }

  /** Both rates are means of per-document scores in [0, 1], so they lie in
      [0, 1]; every result has at least one sample. */
  lemma RatesBounded(docs: seq<ReviewedDoc>)
    ensures forall k :: 0 <= k < |ExtractionMetrics(docs)| ==>
              var r := ExtractionMetrics(docs)[k];
              0.0 <= r.exactMatchRate <= 1.0 && 0.0 <= r.tokenF1Score <= 1.0 && r.samples >= 1
  {
    var order := FieldOrder(docs);
    forall k | 0 <= k < |order|
      ensures var r := ExtractionMetrics(docs)[k];
              0.0 <= r.exactMatchRate <= 1.0 && 0.0 <= r.tokenF1Score <= 1.0 && r.samples >= 1
    {
      var f := order[k];
      FieldOrderScored(docs, f);
      assert Bounded(ExactScore) && Bounded(F1Score);
      ScoresBounded(docs, f, ExactScore);
      ScoresBounded(docs, f, F1Score);
      MeanBounded(Scores(docs, f, ExactScore));
      MeanBounded(Scores(docs, f, F1Score));
    }
  }

  /** With dict-shaped corrected data, `samples` is the number of documents
      whose corrected data has the field. */
  lemma SamplesCountDocuments(docs: seq<ReviewedDoc>)
    requires forall d :: d in docs ==> UniqueKeys(d.correctedData)
    ensures forall k :: 0 <= k < |ExtractionMetrics(docs)| ==>
              ExtractionMetrics(docs)[k].samples == DocsWithField(docs, ExtractionMetrics(docs)[k].fieldName)
  {
    var order := FieldOrder(docs);
    forall k | 0 <= k < |order|
      ensures ExtractionMetrics(docs)[k].samples == DocsWithField(docs, order[k])
    {
      ScoresLength(docs, order[k], ExactScore);
      OccurrencesUnique(docs, order[k]);
    }
  }

  /** A document with one reviewed field yields one metric with one sample:
      its scores against the predicted value of that field, which is `None`
      when the model did not extract it. */
  lemma SingleFieldDocument(docType: string, pred: FieldData, f: string, v: string)
    ensures var p := Get(pred, f);
            && ExtractionMetrics([ReviewedDoc(docType, pred, [Entry(f, v)])])
               == [FieldMetric(f, ExactMatch(p, Some(v)), F1Token(p, Some(v)), 1)]
            && (f !in Keys(pred) ==> p == None)
  {
    SingleFieldMetric(ReviewedDoc(docType, pred, [Entry(f, v)]), f, v);
  }

  /** The metric of a document with one corrected entry, in terms of the
      two scorers. */
  lemma SingleFieldMetric(doc: ReviewedDoc, f: string, v: string)
    requires doc.correctedData == [Entry(f, v)]
    ensures var p := Get(doc.predictedData, f);
            ExtractionMetrics([doc]) == [FieldMetric(f, ExactScore(p, v), F1Score(p, v), 1)]
  {
    SingleFieldOrder(doc, f, v);
    SingleFieldScores(doc, f, v, ExactScore);
    SingleFieldScores(doc, f, v, F1Score);
    var r := ExtractionMetrics([doc]);
    assert |r| == 1 && r[0] == MetricOf([doc], f);
  }

  lemma SingleFieldOrder(doc: ReviewedDoc, f: string, v: string)
    requires doc.correctedData == [Entry(f, v)]
    ensures FieldOrder([doc]) == [f]
  {
    assert Partial(doc, 1) == doc by {
      assert [Entry(f, v)][..1] == [Entry(f, v)];
    }
    assert [] + [Partial(doc, 1)] == [doc];
    assert [Entry(f, v)][..0] == [];
    FieldOrderPartial([], doc, 1);
  }

  /** The one score of a document with one corrected entry, and its mean. */
  lemma SingleFieldScores(doc: ReviewedDoc, f: string, v: string, score: Scorer)
    requires doc.correctedData == [Entry(f, v)]
    ensures Scores([doc], f, score) == [score(Get(doc.predictedData, f), v)]
    ensures Mean(Scores([doc], f, score)) == score(Get(doc.predictedData, f), v)
  {
    assert Partial(doc, 1) == doc by {
      assert [Entry(f, v)][..1] == [Entry(f, v)];
    }
    assert [] + [Partial(doc, 1)] == [doc];
    assert [Entry(f, v)][..0] == [];
    ScoresPartial([], doc, 1, f, score);
    MeanOne(score(Get(doc.predictedData, f), v));
  }

  lemma MeanOne(x: real)
    ensures Mean([x]) == x
  {
    assert [x][..0] == [];
    assert Sum([x]) == x;
  }
}
