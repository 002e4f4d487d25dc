/** Classification ("tagging") metrics of the dashboard
    (`calculate_tagging_metrics` in src/backend/dashboard/dashboard.py):
    the sorted label list, the confusion matrix over it and the accuracy. */
module Tagging {
  import opened Wrappers
  import opened Ratios

  /** One reviewed classification: the type the model predicted and the
      type the reviewer confirmed. */
  datatype TagRecord = TagRecord(predictedType: string, actualType: string)

  datatype TaggingMetrics = TaggingMetrics(
    accuracy: real,
    confusionMatrix: seq<seq<nat>>,
    labels: seq<string>)

  /** An empty list builds a data frame without the `predicted_type` and
      `actual_type` columns, so the column lookup raises `KeyError`. */
  datatype TaggingError = MissingColumns

  // ---------------------------------------------------------------------
  // The order `sorted` uses on strings: lexicographic by code point

  predicate Less(a: string, b: string)
    decreases |a|
  {
    if a == [] then b != []
    else if b == [] then false
    else if a[0] != b[0] then a[0] < b[0]
    else Less(a[1..], b[1..])
  }

  lemma {:induction false} LessIrreflexive(a: string)
    ensures !Less(a, a)
    decreases |a|
  {
    if a != [] {
      LessIrreflexive(a[1..]);
    }
  }

  lemma {:induction false} LessTransitive(a: string, b: string, c: string)
    requires Less(a, b) && Less(b, c)
    ensures Less(a, c)
    decreases |a|
  {
    if a != [] && b != [] && c != [] && a[0] == b[0] == c[0] {
      LessTransitive(a[1..], b[1..], c[1..]);
    }
  }

  lemma {:induction false} LessTotal(a: string, b: string)
    requires a != b
    ensures Less(a, b) || Less(b, a)
    decreases |a|
  {
    if a != [] && b != [] && a[0] == b[0] {
      assert a == [a[0]] + a[1..] && b == [b[0]] + b[1..];
      LessTotal(a[1..], b[1..]);
    }
  }

  predicate StrictlySorted(xs: seq<string>) {
    forall i, j :: 0 <= i < j < |xs| ==> Less(xs[i], xs[j])
  }

  predicate Distinct(xs: seq<string>) {
    forall i, j :: 0 <= i < j < |xs| ==> xs[i] != xs[j]
  }

  function Elems(xs: seq<string>): set<string> {
    set x | x in xs
  }

  lemma ElemsCons(a: string, s: seq<string>)
    ensures Elems([a] + s) == {a} + Elems(s)
  {
    assert forall y :: y in [a] + s <==> y == a || y in s;
  }

  lemma ElemsEmpty(xs: seq<string>)
    ensures Elems(xs) == {} <==> xs == []
  {
    if xs != [] {
      assert xs[0] in Elems(xs);
    }
  }

  lemma ElemsSplit(xs: seq<string>)
    requires xs != []
    ensures Elems(xs) == {xs[0]} + Elems(xs[1..])
  {
    assert xs == [xs[0]] + xs[1..];
    ElemsCons(xs[0], xs[1..]);
  }

  lemma SortedDistinct(xs: seq<string>)
    requires StrictlySorted(xs)
    ensures Distinct(xs)
  {
    forall i, j | 0 <= i < j < |xs| ensures xs[i] != xs[j] {
      LessIrreflexive(xs[i]);
    }
  }

  lemma SortedPrepend(x: string, xs: seq<string>)
    requires StrictlySorted(xs)
    requires forall y :: y in xs ==> Less(x, y)
    ensures StrictlySorted([x] + xs)
  {
    var r := [x] + xs;
    forall i, j | 0 <= i < j < |r| ensures Less(r[i], r[j]) {
      if i > 0 {
        assert r[i] == xs[i - 1] && r[j] == xs[j - 1];
      } else {
        assert r[j] in xs;
      }
    }
  }

  /** Inserts `x` into a strictly sorted list, keeping it strictly sorted and
      free of duplicates. */
  function Insert(xs: seq<string>, x: string): (r: seq<string>)
    requires StrictlySorted(xs)
    ensures StrictlySorted(r)
    ensures Elems(r) == Elems(xs) + {x}
    decreases |xs|
  {
    if xs == [] then [x]
    else if x == xs[0] then xs
    else if Less(x, xs[0]) then
      InsertFront(xs, x);
      [x] + xs
    else
      var rest := Insert(xs[1..], x);
      InsertBehind(xs, x, rest);
      [xs[0]] + rest
  }

  lemma InsertFront(xs: seq<string>, x: string)
    requires StrictlySorted(xs) && xs != [] && Less(x, xs[0])
    ensures StrictlySorted([x] + xs)
    ensures Elems([x] + xs) == Elems(xs) + {x}
  {
    forall y | y in xs ensures Less(x, y) {
      if y != xs[0] {
        var j :| 0 <= j < |xs| && xs[j] == y;
        LessTransitive(x, xs[0], y);
      }
    }
    SortedPrepend(x, xs);
  }

  lemma InsertBehind(xs: seq<string>, x: string, rest: seq<string>)
    requires StrictlySorted(xs) && xs != [] && x != xs[0] && !Less(x, xs[0])
    requires StrictlySorted(rest) && Elems(rest) == Elems(xs[1..]) + {x}
    ensures StrictlySorted([xs[0]] + rest)
    ensures Elems([xs[0]] + rest) == Elems(xs) + {x}
  {
    LessTotal(x, xs[0]);
    forall y | y in rest ensures Less(xs[0], y) {
      assert y in Elems(rest);
      if y != x {
        assert y in Elems(xs[1..]);
        var j :| 0 <= j < |xs[1..]| && xs[1..][j] == y;
        assert xs[j + 1] == y;
      }
    }
    SortedPrepend(xs[0], rest);
    ElemsCons(xs[0], rest);
    ElemsSplit(xs);
  }

  /** Two strictly sorted lists with the same elements are equal: the sorted,
      duplicate-free listing of a set is unique. */
  lemma {:induction false} SortedUnique(xs: seq<string>, ys: seq<string>)
    requires StrictlySorted(xs) && StrictlySorted(ys)
    requires Elems(xs) == Elems(ys)
    ensures xs == ys
    decreases |xs|
  {
    if xs != [] && ys != [] {
      assert xs[0] in Elems(ys) && ys[0] in Elems(xs);
      if xs[0] != ys[0] {
        var i :| 0 <= i < |ys| && ys[i] == xs[0];
        var j :| 0 <= j < |xs| && xs[j] == ys[0];
        assert Less(ys[0], xs[0]) && Less(xs[0], ys[0]);
        LessTransitive(xs[0], ys[0], xs[0]);
        LessIrreflexive(xs[0]);
      }
      SortedDistinct(xs);
      SortedDistinct(ys);
      forall y | y in xs[1..] ensures y in ys[1..] {
        assert y in Elems(ys);
        var j :| 0 <= j < |ys| && ys[j] == y;
        var k :| 0 <= k < |xs[1..]| && xs[1..][k] == y;
        assert xs[k + 1] == y != xs[0];
      }
      forall y | y in ys[1..] ensures y in xs[1..] {
        assert y in Elems(xs);
        var j :| 0 <= j < |xs| && xs[j] == y;
        var k :| 0 <= k < |ys[1..]| && ys[1..][k] == y;
        assert ys[k + 1] == y != ys[0];
      }
      assert Elems(xs[1..]) == Elems(ys[1..]);
      SortedUnique(xs[1..], ys[1..]);
      assert xs == [xs[0]] + xs[1..] && ys == [ys[0]] + ys[1..];
    } else {
      ElemsEmpty(xs);
      ElemsEmpty(ys);
    }
  }

  // ---------------------------------------------------------------------
  // Labels

  /** Every type value seen, predicted or actual. */
  function LabelSet(docs: seq<TagRecord>): set<string> {
    (set d | d in docs :: d.actualType) + (set d | d in docs :: d.predictedType)
  }

  /** `sorted(list(set(y_true.unique()) | set(y_pred.unique())))`. */
  function Labels(docs: seq<TagRecord>): (labels: seq<string>)
    ensures StrictlySorted(labels)
    ensures Elems(labels) == LabelSet(docs)
    decreases |docs|
  {
    if docs == [] then []
    else
      var last := docs[|docs| - 1];
      assert docs == docs[..|docs| - 1] + [last];
      assert LabelSet(docs) == LabelSet(docs[..|docs| - 1]) + {last.actualType, last.predictedType};
      Insert(Insert(Labels(docs[..|docs| - 1]), last.actualType), last.predictedType)
  }

  /** The labels are exactly the sorted listing of the types seen, whatever
      order the records come in. */
  lemma LabelsCanonical(docs: seq<TagRecord>, xs: seq<string>)
    requires StrictlySorted(xs) && Elems(xs) == LabelSet(docs)
    ensures xs == Labels(docs)
  {
    SortedUnique(xs, Labels(docs));
  }

  // ---------------------------------------------------------------------
  // Counting

  /** Records whose actual type is in `rows` and predicted type in `cols`. */
  function CountIn(docs: seq<TagRecord>, rows: set<string>, cols: set<string>): (n: nat)
    ensures n <= |docs|
  {
    if docs == [] then 0
    else
      (if docs[0].actualType in rows && docs[0].predictedType in cols then 1 else 0)
      + CountIn(docs[1..], rows, cols)
  }

  /** Correctly classified records whose type is in `labels`. */
  function CountCorrectIn(docs: seq<TagRecord>, labels: set<string>): (n: nat)
    ensures n <= |docs|
  {
    if docs == [] then 0
    else
      (if docs[0].actualType == docs[0].predictedType && docs[0].actualType in labels then 1 else 0)
      + CountCorrectIn(docs[1..], labels)
  }

  /** Correctly classified records. */
  function Correct(docs: seq<TagRecord>): (n: nat)
    ensures n <= |docs|
  {
    if docs == [] then 0
    else (if docs[0].actualType == docs[0].predictedType then 1 else 0) + Correct(docs[1..])
  }

  lemma {:induction false} CountInSplitCols(docs: seq<TagRecord>, rows: set<string>, c1: set<string>, c2: set<string>)
    requires c1 !! c2
    ensures CountIn(docs, rows, c1 + c2) == CountIn(docs, rows, c1) + CountIn(docs, rows, c2)
  {
    if docs != [] {
      CountInSplitCols(docs[1..], rows, c1, c2);
    }
  }

  lemma {:induction false} CountInSplitRows(docs: seq<TagRecord>, r1: set<string>, r2: set<string>, cols: set<string>)
    requires r1 !! r2
    ensures CountIn(docs, r1 + r2, cols) == CountIn(docs, r1, cols) + CountIn(docs, r2, cols)
  {
    if docs != [] {
      CountInSplitRows(docs[1..], r1, r2, cols);
    }
  }

  lemma {:induction false} CountInNoCols(docs: seq<TagRecord>, rows: set<string>)
    ensures CountIn(docs, rows, {}) == 0
  {
    if docs != [] {
      CountInNoCols(docs[1..], rows);
    }
  }

  lemma {:induction false} CountInNoRows(docs: seq<TagRecord>, cols: set<string>)
    ensures CountIn(docs, {}, cols) == 0
  {
    if docs != [] {
      CountInNoRows(docs[1..], cols);
    }
  }

  lemma {:induction false} CountInEverything(docs: seq<TagRecord>, rows: set<string>, cols: set<string>)
    requires forall d :: d in docs ==> d.actualType in rows && d.predictedType in cols
    ensures CountIn(docs, rows, cols) == |docs|
  {
    if docs != [] {
      assert docs[0] in docs;
      CountInEverything(docs[1..], rows, cols);
    }
  }

  lemma {:induction false} CountCorrectSplit(docs: seq<TagRecord>, s1: set<string>, s2: set<string>)
    requires s1 !! s2
    ensures CountCorrectIn(docs, s1 + s2) == CountCorrectIn(docs, s1) + CountCorrectIn(docs, s2)
  {
    if docs != [] {
      CountCorrectSplit(docs[1..], s1, s2);
    }
  }

  lemma {:induction false} CountCorrectNone(docs: seq<TagRecord>)
    ensures CountCorrectIn(docs, {}) == 0
  {
    if docs != [] {
      CountCorrectNone(docs[1..]);
    }
  }

  lemma {:induction false} CountCorrectEverything(docs: seq<TagRecord>, labels: set<string>)
    requires forall d :: d in docs ==> d.actualType in labels
    ensures CountCorrectIn(docs, labels) == Correct(docs)
  {
    if docs != [] {
      assert docs[0] in docs;
      CountCorrectEverything(docs[1..], labels);
    }
  }

  /** A diagonal cell counts the correct records of its label. */
  lemma {:induction false} CellOnDiagonal(docs: seq<TagRecord>, l: string)
    ensures CountIn(docs, {l}, {l}) == CountCorrectIn(docs, {l})
  {
    if docs != [] {
      CellOnDiagonal(docs[1..], l);
    }
  }

  // ---------------------------------------------------------------------
  // Confusion matrix

  /** Row for actual type `a`: one count per predicted label in `cols`. */
  function Row(docs: seq<TagRecord>, a: string, cols: seq<string>): seq<nat> {
    seq(|cols|, j requires 0 <= j < |cols| => CountIn(docs, {a}, {cols[j]}))
  }

  function Grid(docs: seq<TagRecord>, rows: seq<string>, cols: seq<string>): seq<seq<nat>> {
    seq(|rows|, i requires 0 <= i < |rows| => Row(docs, rows[i], cols))
  }

  /** `confusion_matrix(y_true, y_pred, labels=labels)`: rows are actual
      types, columns predicted types, both in the order of `labels`. */
  function ConfusionMatrix(docs: seq<TagRecord>, labels: seq<string>): (m: seq<seq<nat>>)
    ensures |m| == |labels|
    ensures forall i :: 0 <= i < |m| ==> |m[i]| == |labels|
    ensures forall i, j :: 0 <= i < |labels| && 0 <= j < |labels| ==>
              m[i][j] == CountIn(docs, {labels[i]}, {labels[j]})
  {
    Grid(docs, labels, labels)
  }

  function SeqSum(s: seq<nat>): nat {
    if s == [] then 0 else s[0] + SeqSum(s[1..])
  }

  function GridSum(m: seq<seq<nat>>): nat {
    if m == [] then 0 else SeqSum(m[0]) + GridSum(m[1..])
  }

  predicate Square(m: seq<seq<nat>>) {
    forall i :: 0 <= i < |m| ==> |m[i]| == |m|
  }

  /** Sum of the diagonal cells from index `k` on. */
  function Diagonal(m: seq<seq<nat>>, k: nat): nat
    requires Square(m) && k <= |m|
    decreases |m| - k
  {
    if k == |m| then 0 else m[k][k] + Diagonal(m, k + 1)
  }

  lemma {:induction false} RowSum(docs: seq<TagRecord>, a: string, cols: seq<string>)
    requires Distinct(cols)
    ensures SeqSum(Row(docs, a, cols)) == CountIn(docs, {a}, Elems(cols))
    decreases |cols|
  {
    if cols == [] {
      assert Elems(cols) == {};
      CountInNoCols(docs, {a});
    } else {
      assert Row(docs, a, cols)[1..] == Row(docs, a, cols[1..]);
      RowSum(docs, a, cols[1..]);
      assert Elems(cols) == {cols[0]} + Elems(cols[1..]);
      assert cols[0] !in Elems(cols[1..]);
      CountInSplitCols(docs, {a}, {cols[0]}, Elems(cols[1..]));
    }
  }

  lemma {:induction false} GridTotal(docs: seq<TagRecord>, rows: seq<string>, cols: seq<string>)
    requires Distinct(rows) && Distinct(cols)
    ensures GridSum(Grid(docs, rows, cols)) == CountIn(docs, Elems(rows), Elems(cols))
    decreases |rows|
  {
    if rows == [] {
      assert Elems(rows) == {};
      CountInNoRows(docs, Elems(cols));
    } else {
      assert Grid(docs, rows, cols)[1..] == Grid(docs, rows[1..], cols);
      GridTotal(docs, rows[1..], cols);
      RowSum(docs, rows[0], cols);
      assert Elems(rows) == {rows[0]} + Elems(rows[1..]);
      assert rows[0] !in Elems(rows[1..]);
      CountInSplitRows(docs, {rows[0]}, Elems(rows[1..]), Elems(cols));
    }
  }

  lemma {:induction false} GridDiagonal(docs: seq<TagRecord>, labels: seq<string>, k: nat)
    requires Distinct(labels) && k <= |labels|
    ensures Square(Grid(docs, labels, labels))
    ensures Diagonal(Grid(docs, labels, labels), k) == CountCorrectIn(docs, Elems(labels[k..]))
    decreases |labels| - k
  {
    var m := Grid(docs, labels, labels);
    if k == |labels| {
      assert Elems(labels[k..]) == {};
      CountCorrectNone(docs);
    } else {
      GridDiagonal(docs, labels, k + 1);
      CellOnDiagonal(docs, labels[k]);
      assert labels[k..] == [labels[k]] + labels[k + 1..];
      assert Elems(labels[k..]) == {labels[k]} + Elems(labels[k + 1..]);
      assert labels[k] !in Elems(labels[k + 1..]);
      CountCorrectSplit(docs, {labels[k]}, Elems(labels[k + 1..]));
    }
  }

  // ---------------------------------------------------------------------
  // calculate_tagging_metrics

  /** `calculate_tagging_metrics` without the weighted precision and recall. */
  function CalculateTaggingMetrics(docs: seq<TagRecord>): (r: Result<TaggingMetrics, TaggingError>)
    ensures r.Failure? <==> docs == []
    ensures r.Success? ==>
              && StrictlySorted(r.value.labels)
              && Elems(r.value.labels) == LabelSet(docs)
              && |r.value.confusionMatrix| == |r.value.labels|
              && Square(r.value.confusionMatrix)
              && r.value.confusionMatrix == ConfusionMatrix(docs, r.value.labels)
              && r.value.accuracy == Correct(docs) as real / |docs| as real
              && 0.0 <= r.value.accuracy <= 1.0
  {
    if docs == [] then Failure(MissingColumns)
    else
      var labels := Labels(docs);
      CountFraction(Correct(docs), |docs|);
      Success(TaggingMetrics(Correct(docs) as real / |docs| as real, ConfusionMatrix(docs, labels), labels))
  }

  /** The cells of the confusion matrix add up to the number of records:
      every record lands in exactly one cell. */
  lemma ConfusionMatrixTotal(docs: seq<TagRecord>)
    ensures GridSum(ConfusionMatrix(docs, Labels(docs))) == |docs|
  {
    var labels := Labels(docs);
    SortedDistinct(labels);
    GridTotal(docs, labels, labels);
    forall d | d in docs ensures d.actualType in Elems(labels) && d.predictedType in Elems(labels) {
    }
    CountInEverything(docs, Elems(labels), Elems(labels));
  }

  /** Accuracy is the diagonal of the confusion matrix over the record
      count. */
  lemma AccuracyIsDiagonal(docs: seq<TagRecord>)
    requires docs != []
    ensures CalculateTaggingMetrics(docs).Success?
    ensures var m := CalculateTaggingMetrics(docs).value;
            Square(m.confusionMatrix)
            && m.accuracy == Diagonal(m.confusionMatrix, 0) as real / |docs| as real
  {
    var labels := Labels(docs);
    SortedDistinct(labels);
    GridDiagonal(docs, labels, 0);
    assert labels[0..] == labels;
    forall d | d in docs ensures d.actualType in Elems(labels) {
    }
    CountCorrectEverything(docs, Elems(labels));
  }

  lemma {:induction false} AllCorrect(docs: seq<TagRecord>)
    ensures Correct(docs) == |docs| <==> forall d :: d in docs ==> d.predictedType == d.actualType
  {
    if docs != [] {
      AllCorrect(docs[1..]);
      assert forall d :: d in docs ==> d == docs[0] || d in docs[1..];
    }
  }

  /** Accuracy is perfect exactly when every prediction was confirmed. */
  lemma PerfectAccuracyIff(docs: seq<TagRecord>)
    requires docs != []
    ensures CalculateTaggingMetrics(docs).value.accuracy == 1.0
            <==> forall d :: d in docs ==> d.predictedType == d.actualType
  {
    AllCorrect(docs);
    CountFraction(Correct(docs), |docs|);
  }
}
