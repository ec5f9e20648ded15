/**
 Accuracy, Brier score and calibration error of evaluated predictions, in exact real arithmetic.

 The loops are proved against sums over the prediction list, and the sums satisfy two bounds that tie
 the accuracy report to the calibration report.
 */
module Evaluation {
  import opened Wrappers
  import opened Reals

  datatype Prediction = Prediction(capability: Option<string>, confidence: real, isCorrect: bool)

  function CapabilityOf(p: Prediction): string {
    if p.capability.Some? then p.capability.value else "unknown"
  }

  function Confidence(p: Prediction): real {
    p.confidence
  }

  function Outcome(p: Prediction): real {
    if p.isCorrect then 1.0 else 0.0
  }

  function Bias(p: Prediction): real {
    p.confidence - Outcome(p)
  }

  function SquaredError(p: Prediction): real {
    Bias(p) * Bias(p)
  }

  /** The sum of a measure over a list of predictions. */
  function Total(ps: seq<Prediction>, measure: Prediction -> real): real {
    if ps == [] then 0.0 else Total(ps[..|ps| - 1], measure) + measure(ps[|ps| - 1])
  }

  function CountCorrect(ps: seq<Prediction>): nat {
    if ps == [] then 0 else CountCorrect(ps[..|ps| - 1]) + if ps[|ps| - 1].isCorrect then 1 else 0
  }

  lemma CorrectIsOutcome(ps: seq<Prediction>)
    ensures CountCorrect(ps) as real == Total(ps, Outcome) && CountCorrect(ps) <= |ps|
  {
  }

  lemma TotalSnoc(ps: seq<Prediction>, p: Prediction, measure: Prediction -> real)
    ensures Total(ps + [p], measure) == Total(ps, measure) + measure(p)
    ensures CountCorrect(ps + [p]) == CountCorrect(ps) + if p.isCorrect then 1 else 0
  {
  }

  // ----- Accuracy report -----

  datatype Group = Group(total: nat, correct: nat, confidenceSum: real, brierSum: real)

  function GroupOf(ps: seq<Prediction>, brier: Prediction -> real): Group {
    Group(|ps|, CountCorrect(ps), Total(ps, Confidence), Total(ps, brier))
  }

  function OfCapability(ps: seq<Prediction>, cap: string): seq<Prediction> {
    if ps == [] then []
    else
      var last := ps[|ps| - 1];
      OfCapability(ps[..|ps| - 1], cap) + if CapabilityOf(last) == cap then [last] else []
  }

  datatype AccuracyRow = AccuracyRow(totalPredictions: nat, evaluated: nat, correct: nat, accuracy: real,
                                     averageConfidence: real, brierScore: real)

  function RowOf(g: Group, totalPredictions: nat): AccuracyRow
    requires g.total > 0
  {
    AccuracyRow(totalPredictions, g.total, g.correct, g.correct as real / g.total as real,
                g.confidenceSum / g.total as real, g.brierSum / g.total as real)
  }

  /** One evaluated prediction added to its capability's accumulator. */
  function AddPrediction(g: Group, p: Prediction, brier: real): Group {
    Group(g.total + 1, g.correct + (if p.isCorrect then 1 else 0), g.confidenceSum + p.confidence, g.brierSum + brier)
  }

  lemma CapabilityGrows(ps: seq<Prediction>, p: Prediction, cap: string)
    requires cap == CapabilityOf(p)
    ensures OfCapability(ps + [p], cap) == OfCapability(ps, cap) + [p]
    ensures forall other :: other != cap ==> OfCapability(ps + [p], other) == OfCapability(ps, other)
  {
  }

  /** The capability a prediction is counted under; without one, it goes to "unknown". */
  predicate CountsUnder(p: Prediction, cap: string) {
    p.capability == Some(cap) || (p.capability == None && cap == "unknown")
  }

  lemma CountsUnderIff(p: Prediction, cap: string)
    ensures CapabilityOf(p) == cap <==> CountsUnder(p, cap)
  {
    assert p.capability == Some(cap) <==> p.capability.Some? && p.capability.value == cap;
  }

  /** Every prediction is among those of its capability as often as in the list, and among no others. */
  lemma {:induction false} CapabilitiesShareOut(ps: seq<Prediction>, cap: string, p: Prediction)
    ensures multiset(OfCapability(ps, cap))[p] == if CountsUnder(p, cap) then multiset(ps)[p] else 0
  {
    if ps != [] {
      var last := |ps| - 1;
      CapabilitiesShareOut(ps[..last], cap, p);
      CountsUnderIff(ps[last], cap);
      CountAppended(ps[..last], ps[last], p);
      CountAppended(OfCapability(ps[..last], cap), ps[last], p);
      assert ps == ps[..last] + [ps[last]];
    }
  }

  lemma CountAppended(ps: seq<Prediction>, q: Prediction, p: Prediction)
    ensures multiset(ps + [q])[p] == multiset(ps)[p] + if p == q then 1 else 0
  {
  }

  lemma GroupGrows(ps: seq<Prediction>, p: Prediction, brier: Prediction -> real)
    ensures GroupOf(ps + [p], brier) == AddPrediction(GroupOf(ps, brier), p, brier(p))
  {
  }

  function Summary(brier: Prediction -> real): seq<Prediction> -> Group {
    (ps: seq<Prediction>) => GroupOf(ps, brier)
  }

  /** One accumulator per capability seen, holding that capability's predictions alone. */
  ghost predicate Grouped(groups: map<string, Group>, ps: seq<Prediction>, summary: seq<Prediction> -> Group) {
    && (forall cap :: cap in groups <==> OfCapability(ps, cap) != [])
    && (forall cap :: cap in groups ==> groups[cap] == summary(OfCapability(ps, cap)))
  }

  lemma GroupedGrows(groups: map<string, Group>, ps: seq<Prediction>, p: Prediction, summary: seq<Prediction> -> Group)
    requires Grouped(groups, ps, summary)
    ensures Grouped(groups[CapabilityOf(p) := summary(OfCapability(ps, CapabilityOf(p)) + [p])], ps + [p], summary)
  {
    CapabilityGrows(ps, p, CapabilityOf(p));
  }

  /** The grouping loop, for any Brier component. */
  method GroupByCapability(predictions: seq<Prediction>, brier: Prediction -> real) returns (groups: map<string, Group>)
    ensures Grouped(groups, predictions, Summary(brier))
  {
    groups := map[];
    for i := 0 to |predictions|
      invariant Grouped(groups, predictions[..i], Summary(brier))
    {
      var p := predictions[i];
      var cap := CapabilityOf(p);
      var existing := if cap in groups then groups[cap] else Group(0, 0, 0.0, 0.0);
      ghost var before := OfCapability(predictions[..i], cap);
      assert existing == Summary(brier)(before);
      GroupGrows(before, p, brier);
      GroupedGrows(groups, predictions[..i], p, Summary(brier));
      assert predictions[..i + 1] == predictions[..i] + [p];
      groups := groups[cap := AddPrediction(existing, p, brier(p))];
    }
    assert predictions[..|predictions|] == predictions;
  }

  /** The report row of one capability's evaluated predictions. */
  function Report(ps: seq<Prediction>, totalPredictions: nat): AccuracyRow
    requires ps != []
  {
    RowOf(GroupOf(ps, SquaredError), totalPredictions)
  }

  /** One row per capability with an evaluated prediction; the row depends on that capability alone. */
  method AccuracyReport(predictions: seq<Prediction>, totalPerCapability: map<string, nat>) returns (rows: map<string, AccuracyRow>)
    ensures forall cap :: cap in rows <==> OfCapability(predictions, cap) != []
    ensures forall cap :: cap in rows ==>
                            var ps := OfCapability(predictions, cap);
                            rows[cap] == Report(ps, if cap in totalPerCapability then totalPerCapability[cap] else |ps|)
  {
    var groups := GroupByCapability(predictions, SquaredError);
    rows := map cap | cap in groups ::
      RowOf(groups[cap], if cap in totalPerCapability then totalPerCapability[cap] else groups[cap].total);
  }

  /** The number of correct predictions, at its two ends. */
  lemma AllOrNoneCorrect(ps: seq<Prediction>)
    ensures CountCorrect(ps) <= |ps|
    ensures CountCorrect(ps) == |ps| <==> forall p :: p in ps ==> p.isCorrect
    ensures CountCorrect(ps) == 0 <==> forall p :: p in ps ==> !p.isCorrect
  {
    if ps != [] {
      var last := |ps| - 1;
      AllOrNoneCorrect(ps[..last]);
      assert ps == ps[..last] + [ps[last]];
    }
  }

  /** A row's columns by what they mean: totals, and averages over the evaluated predictions. */
  lemma ReportAverages(ps: seq<Prediction>, total: nat)
    requires ps != []
    ensures var r, n := Report(ps, total), |ps| as real;
            && r.totalPredictions == total && r.evaluated == |ps| && r.correct == CountCorrect(ps)
            && r.accuracy == Total(ps, Outcome) / n
            && r.averageConfidence == Total(ps, Confidence) / n
            && r.brierScore == Total(ps, SquaredError) / n
  {
    CorrectIsOutcome(ps);
  }

  /** Certain, and right to be: sure of what was correct, and ruling out what was not. */
  predicate Perfect(p: Prediction) {
    p.confidence == if p.isCorrect then 1.0 else 0.0
  }

  lemma PositiveProduct(product: real, x: real, y: real)
    requires product == x * y && x > 0.0 && y > 0.0
    ensures product > 0.0
  {
  }

  lemma SquareOf(square: real, x: real)
    requires square == x * x
    ensures x == 0.0 ==> square == 0.0
    ensures x != 0.0 ==> square > 0.0
  {
    if x > 0.0 {
      PositiveProduct(square, x, x);
    } else if x < 0.0 {
      PositiveProduct(square, -x, -x);
    }
  }

  lemma ErrorOfOne(p: Prediction)
    ensures Perfect(p) ==> SquaredError(p) == 0.0
    ensures !Perfect(p) ==> SquaredError(p) > 0.0
  {
    SquareOf(SquaredError(p), Bias(p));
  }

  lemma {:induction false} NoErrorIff(ps: seq<Prediction>)
    ensures Total(ps, SquaredError) >= 0.0
    ensures Total(ps, SquaredError) == 0.0 <==> forall p :: p in ps ==> Perfect(p)
  {
    if ps != [] {
      var last := |ps| - 1;
      NoErrorIff(ps[..last]);
      assert ps == ps[..last] + [ps[last]];
      ErrorOfOne(ps[last]);
    }
  }

  /** The Brier score is never negative, and zero exactly for perfect forecasts. */
  lemma BrierIsZeroIffPerfect(ps: seq<Prediction>, total: nat)
    requires ps != []
    ensures Report(ps, total).brierScore >= 0.0
    ensures Report(ps, total).brierScore == 0.0 <==> forall p :: p in ps ==> Perfect(p)
  {
    NoErrorIff(ps);
    ReportAverages(ps, total);
  }

  // ----- The Brier bound -----

  lemma {:induction false} TotalDifference(ps: seq<Prediction>, d: Prediction -> real, a: Prediction -> real, b: Prediction -> real)
    requires forall p :: d(p) == a(p) - b(p)
    ensures Total(ps, d) == Total(ps, a) - Total(ps, b)
  {
    if ps != [] {
      TotalDifference(ps[..|ps| - 1], d, a, b);
    }
  }

  lemma SquareIsNonNegative(x: real)
    ensures x * x >= 0.0
    ensures x != 0.0 ==> x * x > 0.0
  {
  }

  /** One more number keeps "count times sum of squares is at least the square of the sum". */
  lemma AddSquare(n: nat, sum: real, squares: real, d: real)
    requires n as real * squares >= sum * sum && squares >= 0.0
    requires n == 0 ==> sum == 0.0
    ensures (n + 1) as real * (squares + d * d) >= (sum + d) * (sum + d)
  {
    var m := n as real;
    if n == 0 {
      assert (sum + d) * (sum + d) == d * d;
      assert (n + 1) as real * (squares + d * d) == squares + d * d;
    } else {
      var excess := squares + m * d * d - 2.0 * sum * d;
      SquareIsNonNegative(sum - m * d);
      assert m * excess >= (sum - m * d) * (sum - m * d);
      CancelFactor(0.0, excess, m);
      assert (m + 1.0) * (squares + d * d) == m * squares + squares + m * d * d + d * d;
      assert (sum + d) * (sum + d) == sum * sum + 2.0 * sum * d + d * d;
    }
  }

  lemma {:induction false} SumOfSquares(ps: seq<Prediction>, d: Prediction -> real, sq: Prediction -> real)
    requires forall p :: sq(p) == d(p) * d(p)
    ensures |ps| as real * Total(ps, sq) >= Total(ps, d) * Total(ps, d) && Total(ps, sq) >= 0.0
  {
    if ps != [] {
      var n := |ps| - 1;
      SumOfSquares(ps[..n], d, sq);
      AddSquare(n, Total(ps[..n], d), Total(ps[..n], sq), d(ps[n]));
      SquareIsNonNegative(d(ps[n]));
    }
  }

  lemma MeanSquare(n: real, squares: real, a: real, b: real)
    requires n > 0.0 && n * squares >= (a - b) * (a - b)
    ensures squares / n >= (a / n - b / n) * (a / n - b / n)
  {
    var x, y, q := a / n, b / n, squares / n;
    assert a == x * n && b == y * n && squares == q * n;
    var gap := x - y;
    assert a - b == gap * n;
    assert (a - b) * (a - b) == (gap * gap * n) * n;
    assert n * squares == (q * n) * n;
    CancelFactor(gap * gap * n, q * n, n);
    CancelFactor(gap * gap, q, n);
  }

  /** The Brier score is at least the squared gap between average confidence and accuracy. */
  lemma BrierBound(ps: seq<Prediction>, total: nat)
    requires ps != []
    ensures var r := Report(ps, total);
            r.brierScore >= (r.averageConfidence - r.accuracy) * (r.averageConfidence - r.accuracy)
  {
    TotalDifference(ps, Bias, Confidence, Outcome);
    SumOfSquares(ps, Bias, SquaredError);
    CorrectIsOutcome(ps);
    MeanSquare(|ps| as real, Total(ps, SquaredError), Total(ps, Confidence), Total(ps, Outcome));
  }

  // ----- Calibration report -----

  /** The bucket of a confidence; without buckets, or below zero, it is negative and no bucket exists. */
  function BucketIndex(confidence: real, bucketCount: nat): int {
    if bucketCount == 0 then -1
    else
      var raw := (confidence * bucketCount as real).Floor;
      if raw < bucketCount - 1 then raw else bucketCount - 1
  }

  /** Bucketing as a function of the prediction. */
  function Placement(bucketCount: nat): Prediction -> int {
    (p: Prediction) => BucketIndex(p.confidence, bucketCount)
  }

  function InBucket(ps: seq<Prediction>, place: Prediction -> int, i: int): seq<Prediction> {
    if ps == [] then []
    else
      var last := ps[|ps| - 1];
      InBucket(ps[..|ps| - 1], place, i) + if place(last) == i then [last] else []
  }

  function Midpoint(n: nat, i: nat): real {
    if n == 0 then 0.0 else (i as real + 0.5) / n as real
  }

  function Abs(x: real): real {
    if x < 0.0 then -x else x
  }

  datatype Bucket = Bucket(count: nat, correct: nat)

  function BucketOf(ps: seq<Prediction>, place: Prediction -> int, i: int): Bucket {
    var inside := InBucket(ps, place, i);
    Bucket(|inside|, CountCorrect(inside))
  }

  datatype BucketRow = BucketRow(index: nat, count: nat, expectedAccuracy: real, actualAccuracy: real, calibrationError: real)

  function Actual(b: Bucket): real {
    if b.count > 0 then b.correct as real / b.count as real else 0.0
  }

  function Share(b: Bucket, total: nat): real {
    b.count as real / (if total < 1 then 1 else total) as real
  }

  function RowAt(b: Bucket, n: nat, i: nat): BucketRow {
    BucketRow(i, b.count, Midpoint(n, i), Actual(b), Abs(Midpoint(n, i) - Actual(b)))
  }

  function WeightedError(b: Bucket, n: nat, i: nat, total: nat): real {
    Share(b, total) * RowAt(b, n, i).calibrationError
  }

  function Sum(k: nat, f: nat -> real): real {
    if k == 0 then 0.0 else Sum(k - 1, f) + f(k - 1)
  }

  function WeightedErrors(ps: seq<Prediction>, n: nat): nat -> real {
    (i: nat) => WeightedError(BucketOf(ps, Placement(n), i), n, i, |ps|)
  }

  /** The expected calibration error: every bucket's error weighted by its share of the predictions. */
  function Ece(ps: seq<Prediction>, n: nat): real {
    Sum(n, WeightedErrors(ps, n))
  }

  function NonEmptyRows(ps: seq<Prediction>, n: nat, k: nat): seq<BucketRow> {
    if k == 0 then []
    else
      var b := BucketOf(ps, Placement(n), k - 1);
      NonEmptyRows(ps, n, k - 1) + if b.count > 0 then [RowAt(b, n, k - 1)] else []
  }

  datatype CalibrationReport = CalibrationReport(buckets: seq<BucketRow>, ece: real, totalEvaluated: nat)

  datatype ReportError = NoSuchBucket

  /** Whether some prediction has no bucket to go to. */
  ghost predicate Unplaceable(ps: seq<Prediction>, place: Prediction -> int, n: nat) {
    exists k :: 0 <= k < |ps| && !(0 <= place(ps[k]) < n)
  }

  /** Empty buckets first, then every prediction counted in its own. */
  method FillBuckets(predictions: seq<Prediction>, place: Prediction -> int, bucketCount: nat)
    returns (r: Result<map<int, Bucket>, ReportError>)
    ensures r.Err? <==> Unplaceable(predictions, place, bucketCount)
    ensures r.Ok? ==> forall k :: k in r.value <==> 0 <= k < bucketCount
    ensures r.Ok? ==> forall k :: 0 <= k < bucketCount ==> r.value[k] == BucketOf(predictions, place, k)
  {
    var buckets: map<int, Bucket> := map[];
    for i := 0 to bucketCount
      invariant forall k :: k in buckets <==> 0 <= k < i
      invariant forall k :: 0 <= k < i ==> buckets[k] == Bucket(0, 0)
    {
      buckets := buckets[i := Bucket(0, 0)];
    }
    for j := 0 to |predictions|
      invariant forall k :: k in buckets <==> 0 <= k < bucketCount
      invariant forall k :: 0 <= k < bucketCount ==> buckets[k] == BucketOf(predictions[..j], place, k)
      invariant forall k :: 0 <= k < j ==> 0 <= place(predictions[k]) < bucketCount
    {
      var p := predictions[j];
      var idx := place(p);
      if idx !in buckets {
        return Err(NoSuchBucket);
      }
      forall k | 0 <= k < bucketCount
        ensures BucketOf(predictions[..j + 1], place, k) == AddTo(BucketOf(predictions[..j], place, k), p, idx == k)
      {
        assert predictions[..j + 1] == predictions[..j] + [p];
        BucketGrows(predictions[..j], p, place, k);
      }
      buckets := buckets[idx := AddTo(buckets[idx], p, true)];
    }
    assert predictions[..|predictions|] == predictions;
    return Ok(buckets);
  }

  function AddTo(b: Bucket, p: Prediction, inside: bool): Bucket {
    if inside then Bucket(b.count + 1, b.correct + if p.isCorrect then 1 else 0) else b
  }

  lemma BucketGrows(ps: seq<Prediction>, p: Prediction, place: Prediction -> int, i: int)
    ensures InBucket(ps + [p], place, i) == InBucket(ps, place, i) + if place(p) == i then [p] else []
    ensures BucketOf(ps + [p], place, i) == AddTo(BucketOf(ps, place, i), p, place(p) == i)
  {
    assert (ps + [p])[..|ps|] == ps;
    var before := InBucket(ps, place, i);
    if place(p) == i {
      TotalSnoc(before, p, Outcome);
    } else {
      assert before + [] == before;
    }
  }

  method Calibrate(predictions: seq<Prediction>, bucketCount: nat) returns (r: Result<CalibrationReport, ReportError>)
    ensures r.Err? <==> Unplaceable(predictions, Placement(bucketCount), bucketCount)
    ensures r.Ok? ==> r.value == CalibrationReport(NonEmptyRows(predictions, bucketCount, bucketCount),
                                                   Ece(predictions, bucketCount), |predictions|)
  {
    var filled := FillBuckets(predictions, Placement(bucketCount), bucketCount);
    if filled.Err? {
      return Err(NoSuchBucket);
    }
    var ece := 0.0;
    var rows := [];
    for i := 0 to bucketCount
      invariant ece == Sum(i, WeightedErrors(predictions, bucketCount))
      invariant rows == NonEmptyRows(predictions, bucketCount, i)
    {
      var b := filled.value[i];
      ece := ece + WeightedError(b, bucketCount, i, |predictions|);
      rows := rows + if b.count > 0 then [RowAt(b, bucketCount, i)] else [];
    }
    return Ok(CalibrationReport(rows, ece, |predictions|));
  }

  // ----- What the report lists -----

  /** A row carries its own bucket's count, midpoint and rate of successes. */
  ghost predicate IsRowOf(row: BucketRow, ps: seq<Prediction>, n: nat) {
    var inside := InBucket(ps, Placement(n), row.index);
    && inside != [] && row.count == |inside|
    && row.expectedAccuracy == Midpoint(n, row.index)
    && row.actualAccuracy == CountCorrect(inside) as real / row.count as real
    && row.calibrationError == Abs(row.expectedAccuracy - row.actualAccuracy)
  }

  lemma RowAtIsRowOf(ps: seq<Prediction>, n: nat, i: nat)
    requires InBucket(ps, Placement(n), i) != []
    ensures IsRowOf(RowAt(BucketOf(ps, Placement(n), i), n, i), ps, n)
  {
  }

  /** Whatever holds of every occupied bucket's row holds of every listed row. */
  lemma {:induction false} AllListed(ps: seq<Prediction>, n: nat, k: nat, good: BucketRow -> bool)
    requires forall i: nat :: i < k && InBucket(ps, Placement(n), i) != [] ==> good(RowAt(BucketOf(ps, Placement(n), i), n, i))
    ensures forall row :: row in NonEmptyRows(ps, n, k) ==> row.index < k && good(row)
  {
    if k > 0 {
      AllListed(ps, n, k - 1, good);
    }
  }

  lemma ListedRows(ps: seq<Prediction>, n: nat, k: nat)
    ensures forall row :: row in NonEmptyRows(ps, n, k) ==> row.index < k && IsRowOf(row, ps, n)
  {
    forall i: nat | i < k && InBucket(ps, Placement(n), i) != []
      ensures IsRowOf(RowAt(BucketOf(ps, Placement(n), i), n, i), ps, n)
    {
      RowAtIsRowOf(ps, n, i);
    }
    AllListed(ps, n, k, (row: BucketRow) => IsRowOf(row, ps, n));
  }

  ghost predicate Lists(rows: seq<BucketRow>, i: nat) {
    exists row :: row in rows && row.index == i
  }

  lemma {:induction false} OccupiedAreListed(ps: seq<Prediction>, n: nat, k: nat, i: nat)
    requires i < k && InBucket(ps, Placement(n), i) != []
    ensures Lists(NonEmptyRows(ps, n, k), i)
  {
    var b := BucketOf(ps, Placement(n), k - 1);
    if i == k - 1 {
      assert RowAt(b, n, i) in NonEmptyRows(ps, n, k);
    } else {
      OccupiedAreListed(ps, n, k - 1, i);
      var row :| row in NonEmptyRows(ps, n, k - 1) && row.index == i;
      assert row in NonEmptyRows(ps, n, k);
    }
  }

  ghost predicate Ascending(rows: seq<BucketRow>) {
    forall i, j :: 0 <= i < j < |rows| ==> rows[i].index < rows[j].index
  }

  lemma AscendAppend(rows: seq<BucketRow>, row: BucketRow)
    requires Ascending(rows) && forall r :: r in rows ==> r.index < row.index
    ensures Ascending(rows + [row])
  {
  }

  lemma {:induction false} RowsAscend(ps: seq<Prediction>, n: nat, k: nat)
    ensures Ascending(NonEmptyRows(ps, n, k))
  {
    if k > 0 {
      var before, row := NonEmptyRows(ps, n, k - 1), RowAt(BucketOf(ps, Placement(n), k - 1), n, k - 1);
      RowsAscend(ps, n, k - 1);
      ListedRows(ps, n, k - 1);
      AscendAppend(before, row);
      assert before + [] == before;
    }
  }

  /** The listed rows are exactly the occupied buckets, each once and in order, with their own counts and rates. */
  lemma RowsAreOccupied(ps: seq<Prediction>, n: nat)
    ensures var rows := NonEmptyRows(ps, n, n);
            && (forall row :: row in rows ==> row.index < n && IsRowOf(row, ps, n))
            && (forall i: nat :: i < n ==> (Lists(rows, i) <==> InBucket(ps, Placement(n), i) != []))
            && Ascending(rows)
  {
    ListedRows(ps, n, n);
    RowsAscend(ps, n, n);
    forall i: nat | i < n && InBucket(ps, Placement(n), i) != []
      ensures Lists(NonEmptyRows(ps, n, n), i)
    {
      OccupiedAreListed(ps, n, n, i);
    }
  }

  // ----- The calibration bound -----

  /** The measure of one bucket's predictions. */
  function BucketTotals(ps: seq<Prediction>, place: Prediction -> int, measure: Prediction -> real): nat -> real {
    (i: nat) => Total(InBucket(ps, place, i), measure)
  }

  lemma BucketTotalGrows(ps: seq<Prediction>, p: Prediction, place: Prediction -> int, measure: Prediction -> real, i: nat)
    ensures BucketTotals(ps + [p], place, measure)(i)
            == BucketTotals(ps, place, measure)(i) + if place(p) == i then measure(p) else 0.0
  {
    BucketGrows(ps, p, place, i);
    TotalSnoc(InBucket(ps, place, i), p, measure);
    assert InBucket(ps, place, i) + [] == InBucket(ps, place, i);
  }

  lemma {:induction false} PartitionGrows(ps: seq<Prediction>, p: Prediction, place: Prediction -> int, measure: Prediction -> real, k: nat)
    requires place(p) >= 0
    ensures Sum(k, BucketTotals(ps + [p], place, measure))
            == Sum(k, BucketTotals(ps, place, measure)) + if place(p) < k then measure(p) else 0.0
  {
    if k > 0 {
      PartitionGrows(ps, p, place, measure, k - 1);
      BucketTotalGrows(ps, p, place, measure, k - 1);
    }
  }

  lemma {:induction false} EmptyPartition(place: Prediction -> int, measure: Prediction -> real, k: nat)
    ensures Sum(k, BucketTotals([], place, measure)) == 0.0
  {
    if k > 0 {
      EmptyPartition(place, measure, k - 1);
    }
  }

  /** The buckets partition the predictions: any measure summed over the buckets is its sum over the list. */
  lemma {:induction false} BucketsPartition(ps: seq<Prediction>, place: Prediction -> int, measure: Prediction -> real, n: nat)
    requires !Unplaceable(ps, place, n)
    ensures Sum(n, BucketTotals(ps, place, measure)) == Total(ps, measure)
  {
    if ps == [] {
      EmptyPartition(place, measure, n);
    } else {
      var m := |ps| - 1;
      BucketsPartition(ps[..m], place, measure, n);
      assert ps == ps[..m] + [ps[m]];
      PartitionGrows(ps[..m], ps[m], place, measure, n);
    }
  }

  ghost predicate Probabilities(ps: seq<Prediction>) {
    forall k :: 0 <= k < |ps| ==> 0.0 <= ps[k].confidence <= 1.0
  }

  lemma Scale(x: real, bound: real, n: real)
    requires n > 0.0 && -bound <= x <= bound
    ensures Abs(x / n) <= bound / n
  {
  }

  /** A probability lies within half a bucket of its bucket's midpoint. */
  lemma NearMidpoint(c: real, n: nat)
    requires n > 0 && 0.0 <= c <= 1.0
    ensures 0 <= BucketIndex(c, n) < n
    ensures Abs(c - Midpoint(n, BucketIndex(c, n))) <= 0.5 / n as real
  {
  }

  ghost predicate AllNear(ps: seq<Prediction>, centre: real, half: real) {
    forall k :: 0 <= k < |ps| ==> Abs(ps[k].confidence - centre) <= half
  }

  function Constant(x: real): Prediction -> real {
    (p: Prediction) => x
  }

  function Deviation(centre: real): Prediction -> real {
    (p: Prediction) => p.confidence - centre
  }

  lemma {:induction false} TotalOfConstant(ps: seq<Prediction>, x: real)
    ensures Total(ps, Constant(x)) == Product(|ps| as real, x)
  {
    if ps != [] {
      TotalOfConstant(ps[..|ps| - 1], x);
    }
  }

  lemma {:induction false} TotalOfOnes(ps: seq<Prediction>)
    ensures Total(ps, Constant(1.0)) == |ps| as real
  {
    if ps != [] {
      TotalOfOnes(ps[..|ps| - 1]);
    }
  }

  lemma {:induction false} NearTotal(ps: seq<Prediction>, centre: real, half: real)
    requires AllNear(ps, centre, half)
    ensures Abs(Total(ps, Deviation(centre))) <= Total(ps, Constant(half))
  {
    if ps != [] {
      NearTotal(ps[..|ps| - 1], centre, half);
    }
  }

  lemma {:induction false} BucketIsNear(ps: seq<Prediction>, n: nat, i: nat)
    requires n > 0 && Probabilities(ps)
    ensures AllNear(InBucket(ps, Placement(n), i), Midpoint(n, i), 0.5 / n as real)
  {
    if ps != [] {
      BucketIsNear(ps[..|ps| - 1], n, i);
      NearMidpoint(ps[|ps| - 1].confidence, n);
    }
  }

  /** How far a group's successes are from what its bucket's midpoint predicts. */
  function Gap(inside: seq<Prediction>, mid: real): real {
    Abs(Total(inside, Constant(mid)) - Total(inside, Outcome))
  }

  lemma GapInNumbers(inside: seq<Prediction>, mid: real)
    ensures Gap(inside, mid) == Abs(Product(|inside| as real, mid) - CountCorrect(inside) as real)
  {
    CorrectIsOutcome(inside);
    TotalOfConstant(inside, mid);
  }

  lemma ErrorInNumbers(b: Bucket, mid: real)
    requires b.correct <= b.count
    ensures Product(b.count as real, Abs(mid - Actual(b))) == Abs(Product(b.count as real, mid) - b.correct as real)
  {
  }

  lemma CountedGap(inside: seq<Prediction>, mid: real)
    ensures Product(|inside| as real, Abs(mid - Actual(Bucket(|inside|, CountCorrect(inside))))) == Gap(inside, mid)
  {
    CorrectIsOutcome(inside);
    GapInNumbers(inside, mid);
    ErrorInNumbers(Bucket(|inside|, CountCorrect(inside)), mid);
  }

  /** One bucket's bias is within its weighted error plus half a bucket per prediction. */
  lemma BucketBias(inside: seq<Prediction>, mid: real, half: real)
    requires AllNear(inside, mid, half)
    ensures Abs(Total(inside, Bias))
            <= Gap(inside, mid) + Total(inside, Constant(half))
  {
    NearTotal(inside, mid, half);
    TotalDifference(inside, Deviation(mid), Confidence, Constant(mid));
    TotalDifference(inside, Bias, Confidence, Outcome);
  }

  /** Bounds on the terms add up. */
  lemma {:induction false} AbsSum(k: nat, f: nat -> real, bound: nat -> real)
    requires forall i: nat :: i < k ==> Abs(f(i)) <= bound(i)
    ensures Abs(Sum(k, f)) <= Sum(k, bound)
  {
    if k > 0 {
      AbsSum(k - 1, f, bound);
    }
  }

  lemma {:induction false} SumOfPair(k: nat, f: nat -> real, g: nat -> real)
    ensures Sum(k, Plus(f, g)) == Sum(k, f) + Sum(k, g)
  {
    if k > 0 {
      SumOfPair(k - 1, f, g);
    }
  }

  function Plus(f: nat -> real, g: nat -> real): nat -> real {
    (i: nat) => f(i) + g(i)
  }

  lemma {:induction false} SumOfScaled(k: nat, total: real, err: nat -> real)
    ensures Sum(k, Scaled(total, err)) == Product(total, Sum(k, err))
  {
    if k > 0 {
      SumOfScaled(k - 1, total, err);
      Distribute(total, Sum(k - 1, err), err(k - 1));
    }
  }

  function Scaled(total: real, err: nat -> real): nat -> real {
    (i: nat) => Product(total, err(i))
  }

  lemma Distribute(f: real, x: real, y: real)
    ensures f * (x + y) == f * x + f * y
  {
  }

  lemma MeanGap(m: real, confidence: real, correct: real, bound: real)
    requires m > 0.0 && Abs(confidence - correct) <= Product(m, bound)
    ensures Abs(confidence / m - correct / m) <= bound
  {
  }

  lemma ProbabilitiesArePlaceable(ps: seq<Prediction>, n: nat)
    requires n > 0 && Probabilities(ps)
    ensures !Unplaceable(ps, Placement(n), n)
  {
    forall k | 0 <= k < |ps|
      ensures 0 <= Placement(n)(ps[k]) < n
    {
      NearMidpoint(ps[k].confidence, n);
    }
  }

  /** The total bias is bounded by the buckets' errors plus half a bucket per prediction. */
  lemma TotalBias(ps: seq<Prediction>, n: nat, place: Prediction -> int, mid: nat -> real, weighted: nat -> real, half: real)
    requires !Unplaceable(ps, place, n)
    requires forall i: nat :: i < n ==> AllNear(InBucket(ps, place, i), mid(i), half)
    requires forall i: nat :: i < n ==> weighted(i) == Gap(InBucket(ps, place, i), mid(i))
    ensures Abs(Total(ps, Bias)) <= Sum(n, weighted) + Total(ps, Constant(half))
  {
    var bias, slack := BucketTotals(ps, place, Bias), BucketTotals(ps, place, Constant(half));
    BucketsPartition(ps, place, Bias, n);
    BucketsPartition(ps, place, Constant(half), n);
    forall i: nat | i < n
      ensures Abs(bias(i)) <= Plus(weighted, slack)(i)
    {
      BucketBias(InBucket(ps, place, i), mid(i), half);
    }
    AbsSum(n, bias, Plus(weighted, slack));
    SumOfPair(n, weighted, slack);
  }

  function Midpoints(n: nat): nat -> real {
    (i: nat) => Midpoint(n, i)
  }

  lemma ShareTimesError(b: Bucket, total: nat, error: real)
    requires total > 0
    ensures Product(total as real, Share(b, total) * error) == Product(b.count as real, error)
  {
  }

  lemma GapAt(inside: seq<Prediction>, b: Bucket, n: nat, i: nat, total: nat)
    requires total > 0 && b == Bucket(|inside|, CountCorrect(inside))
    ensures Product(total as real, WeightedError(b, n, i, total)) == Gap(inside, Midpoint(n, i))
  {
    CountedGap(inside, Midpoint(n, i));
    ShareTimesError(b, total, RowAt(b, n, i).calibrationError);
  }

  /** Total times the weighted error of a bucket is its gap. */
  lemma BucketGap(ps: seq<Prediction>, n: nat, i: nat)
    requires ps != []
    ensures Scaled(|ps| as real, WeightedErrors(ps, n))(i) == Gap(InBucket(ps, Placement(n), i), Midpoint(n, i))
  {
    GapAt(InBucket(ps, Placement(n), i), BucketOf(ps, Placement(n), i), n, i, |ps|);
  }

  lemma AllBucketsNear(ps: seq<Prediction>, n: nat)
    requires n > 0 && Probabilities(ps)
    ensures forall i: nat :: i < n ==> AllNear(InBucket(ps, Placement(n), i), Midpoints(n)(i), 0.5 / n as real)
  {
    forall i: nat | i < n
      ensures AllNear(InBucket(ps, Placement(n), i), Midpoints(n)(i), 0.5 / n as real)
    {
      BucketIsNear(ps, n, i);
    }
  }

  lemma ReportedBias(ps: seq<Prediction>, n: nat)
    requires n > 0 && Probabilities(ps) && ps != []
    ensures Abs(Total(ps, Bias)) <= Sum(n, Scaled(|ps| as real, WeightedErrors(ps, n))) + Total(ps, Constant(0.5 / n as real))
  {
    ProbabilitiesArePlaceable(ps, n);
    AllBucketsNear(ps, n);
    var weighted := Scaled(|ps| as real, WeightedErrors(ps, n));
    forall i: nat | i < n
      ensures weighted(i) == Gap(InBucket(ps, Placement(n), i), Midpoints(n)(i))
    {
      BucketGap(ps, n, i);
    }
    TotalBias(ps, n, Placement(n), Midpoints(n), weighted, 0.5 / n as real);
  }

  lemma Assemble(bias: real, m: real, weighted: real, ece: real, slack: real, half: real)
    requires Abs(bias) <= weighted + slack && weighted == Product(m, ece) && slack == Product(m, half)
    ensures Abs(bias) <= Product(m, ece + half)
  {
  }

  lemma SummedBias(ps: seq<Prediction>, n: nat, err: nat -> real, half: real)
    requires Abs(Total(ps, Bias)) <= Sum(n, Scaled(|ps| as real, err)) + Total(ps, Constant(half))
    ensures Abs(Total(ps, Confidence) - CountCorrect(ps) as real) <= Product(|ps| as real, Sum(n, err) + half)
  {
    TotalDifference(ps, Bias, Confidence, Outcome);
    CorrectIsOutcome(ps);
    TotalOfConstant(ps, half);
    SumOfScaled(n, |ps| as real, err);
    Assemble(Total(ps, Bias), |ps| as real, Sum(n, Scaled(|ps| as real, err)), Sum(n, err),
             Total(ps, Constant(half)), half);
  }

  /** Average confidence and accuracy differ by at most the calibration error plus half a bucket. */
  lemma CalibrationBound(ps: seq<Prediction>, n: nat, total: nat)
    requires n > 0 && Probabilities(ps) && ps != []
    ensures var r := Report(ps, total);
            Abs(r.averageConfidence - r.accuracy) <= Ece(ps, n) + 0.5 / n as real
  {
    ReportedBias(ps, n);
    SummedBias(ps, n, WeightedErrors(ps, n), 0.5 / n as real);
    MeanGap(|ps| as real, Total(ps, Confidence), CountCorrect(ps) as real, Ece(ps, n) + 0.5 / n as real);
  }

  /** The bucket counts of a successful report sum to the number of evaluated predictions. */
  lemma CountsSumToTotal(ps: seq<Prediction>, n: nat)
    requires !Unplaceable(ps, Placement(n), n)
    ensures Sum(n, (i: nat) => BucketOf(ps, Placement(n), i).count as real) == |ps| as real
  {
    BucketsPartition(ps, Placement(n), Constant(1.0), n);
    TotalOfOnes(ps);
    SameSums(ps, Placement(n), n, (i: nat) => BucketOf(ps, Placement(n), i).count as real);
  }

  lemma {:induction false} SameSums(ps: seq<Prediction>, place: Prediction -> int, k: nat, counts: nat -> real)
    requires forall i: nat :: counts(i) == BucketOf(ps, place, i).count as real
    ensures Sum(k, counts) == Sum(k, BucketTotals(ps, place, Constant(1.0)))
  {
    if k > 0 {
      SameSums(ps, place, k - 1, counts);
      TotalOfOnes(InBucket(ps, place, k - 1));
    }
  }

  lemma {:induction false} SumOfFirst(k: nat, f: nat -> real)
    requires forall i: nat :: 0 < i < k ==> f(i) == 0.0
    ensures Sum(k, f) == if k == 0 then 0.0 else f(0)
  {
    if k > 0 {
      SumOfFirst(k - 1, f);
    }
  }

  /** Two predictions of confidence zero, one of them right. */
  lemma TwoZeros(place: Prediction -> int, i: int)
    requires place(Prediction(None, 0.0, true)) == 0 && place(Prediction(None, 0.0, false)) == 0
    ensures var ps := [Prediction(None, 0.0, true), Prediction(None, 0.0, false)];
            BucketOf(ps, place, i) == if i == 0 then Bucket(2, 1) else Bucket(0, 0)
  {
    var a, b := Prediction(None, 0.0, true), Prediction(None, 0.0, false);
    assert [a] == [] + [a] && [a, b] == [a] + [b];
    BucketGrows([], a, place, i);
    BucketGrows([a], b, place, i);
  }

  lemma ZerosReport()
    ensures var r := Report([Prediction(None, 0.0, true), Prediction(None, 0.0, false)], 2);
            r.averageConfidence == 0.0 && r.accuracy == 0.5
  {
    var a, b := Prediction(None, 0.0, true), Prediction(None, 0.0, false);
    assert [a] == [] + [a] && [a, b] == [a] + [b];
    TotalSnoc([], a, Confidence);
    TotalSnoc([a], b, Confidence);
  }

  lemma HalfRight(n: nat, half: real)
    requires n > 0 && half == 0.5 / n as real
    ensures WeightedError(Bucket(2, 1), n, 0, 2) == 0.5 - half
  {
    assert half <= 0.5;
    assert Midpoint(n, 0) == half && Actual(Bucket(2, 1)) == 0.5;
    assert Share(Bucket(2, 1), 2) == 1.0;
  }

  lemma NoShare(n: nat, i: nat)
    ensures WeightedError(Bucket(0, 0), n, i, 2) == 0.0
  {
    assert Share(Bucket(0, 0), 2) == 0.0;
  }

  /** The bound is tight for every number of buckets: two zero confidences, one of them right. */
  lemma CalibrationBoundIsTight(n: nat)
    requires n > 0
    ensures var ps := [Prediction(None, 0.0, true), Prediction(None, 0.0, false)];
            var r := Report(ps, 2);
            && Probabilities(ps) && r.averageConfidence == 0.0 && r.accuracy == 0.5
            && Ece(ps, n) == 0.5 - 0.5 / n as real
  {
    var ps := [Prediction(None, 0.0, true), Prediction(None, 0.0, false)];
    var place := Placement(n);
    ZerosReport();
    assert place(ps[0]) == 0 && place(ps[1]) == 0;
    forall i: nat
      ensures WeightedErrors(ps, n)(i) == if i == 0 then 0.5 - 0.5 / n as real else 0.0
    {
      TwoZeros(place, i);
      HalfRight(n, 0.5 / n as real);
      NoShare(n, i);
    }
    SumOfFirst(n, WeightedErrors(ps, n));
  }

  lemma SignOfProduct(c: real, n: real)
    requires n > 0.0
    ensures c * n < 0.0 <==> c < 0.0
  {
  }

  /** The report fails exactly when a confidence is negative, or when predictions meet no buckets. */
  lemma FailsIffNegative(ps: seq<Prediction>, n: nat)
    ensures Unplaceable(ps, Placement(n), n)
            <==> ps != [] && (n == 0 || exists k :: 0 <= k < |ps| && ps[k].confidence < 0.0)
  {
    if n > 0 {
      forall k | 0 <= k < |ps|
        ensures 0 <= Placement(n)(ps[k]) < n <==> ps[k].confidence >= 0.0
      {
        SignOfProduct(ps[k].confidence, n as real);
      }
    } else if ps != [] {
      assert Placement(0)(ps[0]) == -1;
    }
  }
}
