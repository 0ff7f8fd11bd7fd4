/** `generate_metrics`: fill the metric slots (algorithm, partition, metric)
    of every listed algorithm. The metric values themselves are computed by
    scikit-learn and are a parameter here; what is modelled is which slots
    are written and that nothing else is. */
module Metrics {
  import opened Store

  const ClassificationMetrics: seq<Metric> := [Accuracy, Precision, Recall, F1, ConfusionMatrix, RocAuc]
  const RegressionMetrics: seq<Metric> := [Mse, Mae, R2, ExplainedVariance, MedianAbsError]

  function MetricNames(regression: bool): seq<Metric> {
    if regression then RegressionMetrics else ClassificationMetrics
  }

  /** The scikit-learn metric named by the first argument, applied to the
      expected and the predicted values. */
  type MetricFn = (Metric, Vector, Vector) -> MetricValue

  type MetricKey = (string, string, Metric)

  /** The labels of a partition: y_train for "train", y_test for any other name. */
  function Labels(m: Model, partition: string): Option<Vector>
    reads m
  {
    if partition == TRAIN then m.yTrain else m.yTest
  }

  /** The algorithms that have predictions for partition `p`. */
  function Predicted(preds: map<(string, string), Vector>, p: string): (r: set<string>)
    ensures forall a :: a in r <==> (a, p) in preds
  {
    var r := set k | k in preds.Keys && k.1 == p :: k.0;
    assert forall a :: (a, p) in preds ==> (a, p).0 in r;
    r
  }

  /** `metrics` after writing, in order, the slot (a, p, n) of every metric
      n in `names`, each holding that metric of the predictions. */
  ghost function Record(metrics: map<MetricKey, MetricValue>, a: string, p: string, names: seq<Metric>,
                        expected: Vector, predicted: Vector, f: MetricFn): map<MetricKey, MetricValue>
    decreases |names|
  {
    if names == [] then metrics
    else Record(metrics[(a, p, names[0]) := f(names[0], expected, predicted)], a, p, names[1..],
                expected, predicted, f)
  }

  /** Recording one algorithm writes exactly its slots for the listed metrics. */
  lemma {:induction false} RecordSlots(metrics: map<MetricKey, MetricValue>, a: string, p: string, names: seq<Metric>,
                                       expected: Vector, predicted: Vector, f: MetricFn, k: MetricKey)
    ensures var r := Record(metrics, a, p, names, expected, predicted, f);
            if k.0 == a && k.1 == p && k.2 in names then k in r && r[k] == f(k.2, expected, predicted)
            else (k in r <==> k in metrics) && (k in metrics ==> r[k] == metrics[k])
    decreases |names|
  {
    if names != [] {
      RecordSlots(metrics[(a, p, names[0]) := f(names[0], expected, predicted)], a, p, names[1..],
                  expected, predicted, f, k);
      assert names == [names[0]] + names[1..];
    }
  }

  /** `metrics` after recording algorithms al[0], al[1], ... in turn. */
  ghost function WithMetrics(metrics: map<MetricKey, MetricValue>, al: seq<string>, p: string,
                             names: seq<Metric>, expected: Vector,
                             preds: map<(string, string), Vector>, f: MetricFn): map<MetricKey, MetricValue>
    requires forall i :: 0 <= i < |al| ==> (al[i], p) in preds
    decreases |al|
  {
    if al == [] then metrics
    else
      var a := al[|al| - 1];
      Record(WithMetrics(metrics, al[..|al| - 1], p, names, expected, preds, f),
             a, p, names, expected, preds[(a, p)], f)
  }

  /** After recording, the slot (a, p, n) of a listed algorithm and a metric
      name holds that metric of a's predictions; every other key, including
      every key of another partition, is as it was. */
  lemma {:induction false} MetricsWritten(metrics: map<MetricKey, MetricValue>, al: seq<string>, p: string,
                                          names: seq<Metric>, expected: Vector,
                                          preds: map<(string, string), Vector>, f: MetricFn, k: MetricKey)
    requires forall i :: 0 <= i < |al| ==> (al[i], p) in preds
    ensures var r := WithMetrics(metrics, al, p, names, expected, preds, f);
            if k.0 in al && k.1 == p && k.2 in names then k in r && r[k] == f(k.2, expected, preds[(k.0, p)])
            else (k in r <==> k in metrics) && (k in metrics ==> r[k] == metrics[k])
    decreases |al|
  {
    if al != [] {
      var init := al[..|al| - 1];
      MetricsWritten(metrics, init, p, names, expected, preds, f, k);
      var a := al[|al| - 1];
      RecordSlots(WithMetrics(metrics, init, p, names, expected, preds, f), a, p, names, expected, preds[(a, p)], f, k);
      assert al == init + [a];
    }
  }

  /** The writes for one algorithm: its six classification or its five
      regression metrics, each computed from the labels and its predictions. */
  method RecordAlgorithm(m: Model, algo: string, partition: string, regression: bool,
                         y: Vector, predicted: Vector, metric: MetricFn)
    modifies m`metrics
    ensures m.metrics == Record(old(m.metrics), algo, partition, MetricNames(regression), y, predicted, metric)
  {
    ghost var names := MetricNames(regression);
    ghost var target := Record(m.metrics, algo, partition, names, y, predicted, metric);
    if !regression {
      m.metrics := m.metrics[(algo, partition, Accuracy) := metric(Accuracy, y, predicted)];
      names := names[1..];
      assert target == Record(m.metrics, algo, partition, names, y, predicted, metric);
      m.metrics := m.metrics[(algo, partition, Precision) := metric(Precision, y, predicted)];
      names := names[1..];
      assert target == Record(m.metrics, algo, partition, names, y, predicted, metric);
      m.metrics := m.metrics[(algo, partition, Recall) := metric(Recall, y, predicted)];
      names := names[1..];
      assert target == Record(m.metrics, algo, partition, names, y, predicted, metric);
      m.metrics := m.metrics[(algo, partition, F1) := metric(F1, y, predicted)];
      names := names[1..];
      assert target == Record(m.metrics, algo, partition, names, y, predicted, metric);
      m.metrics := m.metrics[(algo, partition, ConfusionMatrix) := metric(ConfusionMatrix, y, predicted)];
      names := names[1..];
      assert target == Record(m.metrics, algo, partition, names, y, predicted, metric);
      m.metrics := m.metrics[(algo, partition, RocAuc) := metric(RocAuc, y, predicted)];
      names := names[1..];
    } else {
      m.metrics := m.metrics[(algo, partition, Mse) := metric(Mse, y, predicted)];
      names := names[1..];
      assert target == Record(m.metrics, algo, partition, names, y, predicted, metric);
      m.metrics := m.metrics[(algo, partition, Mae) := metric(Mae, y, predicted)];
      names := names[1..];
      assert target == Record(m.metrics, algo, partition, names, y, predicted, metric);
      m.metrics := m.metrics[(algo, partition, R2) := metric(R2, y, predicted)];
      names := names[1..];
      assert target == Record(m.metrics, algo, partition, names, y, predicted, metric);
      m.metrics := m.metrics[(algo, partition, ExplainedVariance) := metric(ExplainedVariance, y, predicted)];
      names := names[1..];
      assert target == Record(m.metrics, algo, partition, names, y, predicted, metric);
      m.metrics := m.metrics[(algo, partition, MedianAbsError) := metric(MedianAbsError, y, predicted)];
      names := names[1..];
    }
    assert names == [];
  }

  /** The loop of generate_metrics: record each listed algorithm in turn,
      stopping with KeyError at the first one without predictions. */
  method RecordAll(m: Model, partition: string, regression: bool, y: Vector, metric: MetricFn)
    returns (r: Outcome)
    modifies m`metrics
    ensures var k := FirstMissing(m.algolist, Predicted(m.preds, partition));
            && m.metrics == WithMetrics(old(m.metrics), m.algolist[..k], partition, MetricNames(regression),
                                        y, m.preds, metric)
            && (k == |m.algolist| ==> r == Pass)
            && (k < |m.algolist| ==> r == Fail(MissingEntry("preds", m.algolist[k], partition)))
  {
    var al, preds := m.algolist, m.preds;
    ghost var names := MetricNames(regression);
    ghost var present := Predicted(preds, partition);
    var i := 0;
    while i < |al|
      invariant 0 <= i <= |al|
      invariant forall j :: 0 <= j < i ==> (al[j], partition) in preds
      invariant m.metrics == WithMetrics(old(m.metrics), al[..i], partition, names, y, preds, metric)
    {
      var algo := al[i];
      if (algo, partition) !in preds {
        FirstMissingAt(al, present, i);
        return Fail(MissingEntry("preds", algo, partition));
      }
      var predicted := preds[(algo, partition)];
      ghost var done := al[..i + 1];
      assert done[..i] == al[..i] && done[i] == algo;
      assert forall j :: 0 <= j < i + 1 ==> (al[j], partition) in preds;
      RecordAlgorithm(m, algo, partition, regression, y, predicted, metric);
      assert m.metrics == WithMetrics(old(m.metrics), done, partition, names, y, preds, metric);
      i := i + 1;
    }
    assert al[..|al|] == al;
    FirstMissingAt(al, present, |al|);
    return Pass;
  }

  /** generate_metrics(model, partition). With no labels for the partition
      nothing is written; otherwise each listed algorithm in turn gets its
      six classification or five regression slots, and a missing prediction
      raises KeyError after the earlier algorithms were recorded. */
  method GenerateMetrics(m: Model, metric: MetricFn, partition: string := TRAIN) returns (r: Outcome)
    modifies m`metrics
    ensures m.specs.regression.None? ==> r == Fail(MissingSpec("regression")) && m.metrics == old(m.metrics)
    ensures m.specs.regression.Some? && Labels(m, partition).None? ==> r == Pass && m.metrics == old(m.metrics)
    ensures m.specs.regression.Some? && Labels(m, partition).Some? ==>
              var k := FirstMissing(m.algolist, Predicted(m.preds, partition));
              && m.metrics == WithMetrics(old(m.metrics), m.algolist[..k], partition,
                                          MetricNames(m.specs.regression.value),
                                          Labels(m, partition).value, m.preds, metric)
              && (k == |m.algolist| ==> r == Pass)
              && (k < |m.algolist| ==> r == Fail(MissingEntry("preds", m.algolist[k], partition)))
  {
    var expected := Labels(m, partition);
    if m.specs.regression.None? {
      return Fail(MissingSpec("regression"));
    }
    var regression := m.specs.regression.value;
    if expected.None? {
      return Pass;
    }
    r := RecordAll(m, partition, regression, expected.value, metric);
  }
}
