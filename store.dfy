/** The per-project artifact store (class `Model` of model.py) and the
    registry of all stores, keyed by project name. */
module Store {
  import Text

  datatype Option<T> = None | Some(value: T)

  /** What the source raises, or (for a duplicate project) returns instead of a record. */
  datatype Error =
    | MissingSpec(key: string)                                // KeyError on the specs dictionary
    | MissingEntry(store: string, algo: string, partition: string)  // KeyError on a store ("" when keyed by algorithm only)
    | MissingData(name: string)                              // X_train, X_test or y_train is still None
    | ShapeMismatch(algo: string, partition: string)         // a vector that cannot fill a meta-feature column
    | NoBestModel                                            // no score above 0.0, so best_algo is never bound
    | DuplicateProject(name: string)                         // __new__ returns None for a known project

  datatype Result<T> = Ok(value: T) | Err(error: Error)

  datatype Outcome = Pass | Fail(error: Error)

  type Vector = seq<real>
  type Matrix = seq<Vector>

  /** A fitted estimator: an opaque handle plus the optional `coef_` and
      `feature_importances_` attributes the source probes with `hasattr`. */
  datatype Estimator = Estimator(handle: nat, coef: Option<Vector>, importances: Option<Vector>)

  /** The metrics generate_metrics records, one constructor per key it
      writes ("accuracy", "precision", "recall", "f1", "confusion_matrix",
      "roc_auc" for classification; "mse", "mae", "r2",
      "explained_variance", "median_abs_error" for regression). */
  datatype Metric =
    | Accuracy | Precision | Recall | F1 | ConfusionMatrix | RocAuc
    | Mse | Mae | R2 | ExplainedVariance | MedianAbsError

  /** A metric is a number, or a table of counts (the confusion matrix). */
  datatype MetricValue = Scalar(value: real) | Table(cells: seq<seq<int>>)

  /** The keys of the specs dictionary that the core reads. */
  datatype Specs = Specs(
    project: Option<string>,
    separator: Option<string>,
    algorithms: Option<string>,
    regression: Option<bool>,
    nFolds: Option<int>,
    baseDir: Option<string>,
    extension: Option<string>)

  const TRAIN := "train"
  const TEST := "test"

  /** The index of the first entry of `al` not in `present`, or |al| if there is none. */
  function FirstMissing(al: seq<string>, present: set<string>): (k: nat)
    ensures k <= |al|
    ensures forall j :: 0 <= j < k ==> al[j] in present
    ensures k < |al| ==> al[k] !in present
  {
    if al == [] || al[0] !in present then 0 else 1 + FirstMissing(al[1..], present)
  }

  /** FirstMissing is the index whose predecessors are all present and which is absent itself. */
  lemma FirstMissingAt(al: seq<string>, present: set<string>, i: nat)
    requires i <= |al| && forall j :: 0 <= j < i ==> al[j] in present
    requires i < |al| ==> al[i] !in present
    ensures FirstMissing(al, present) == i
  {
  }

  /** `m` and `m'` agree on every key outside `ks`. */
  ghost predicate AgreeExcept<K(!new), V>(m: map<K, V>, m': map<K, V>, ks: set<K>) {
    forall k :: k !in ks ==> (k in m <==> k in m') && (k in m ==> m[k] == m'[k])
  }

  /** The algorithm list of a new record: `specs['algorithms'].upper().split(separator)`.
      A missing separator raises KeyError('separator'); a missing algorithms
      string, or an empty separator (ValueError from split, caught by the bare
      except), raises KeyError('algorithms'). */
  function ParseAlgorithms(specs: Specs): (r: Result<seq<string>>)
    ensures specs.separator.None? ==> r == Err(MissingSpec("separator"))
    ensures specs.separator.Some? && (specs.algorithms.None? || specs.separator.value == []) ==>
              r == Err(MissingSpec("algorithms"))
    ensures r.Ok? <==> specs.separator.Some? && specs.separator.value != [] && specs.algorithms.Some?
    ensures r.Ok? ==> r.value == Text.Split(Text.Upper(specs.algorithms.value), specs.separator.value)
    ensures r.Ok? ==> |r.value| >= 1
    ensures r.Ok? ==> Text.Join(r.value, specs.separator.value) == Text.Upper(specs.algorithms.value)
    ensures r.Ok? ==> forall i :: 0 <= i < |r.value| ==> !Text.Contains(r.value[i], specs.separator.value)
    ensures r.Ok? ==> forall i, c :: 0 <= i < |r.value| && c in r.value[i] ==> !Text.IsLower(c)
    ensures r.Ok? && |r.value| > 1 ==>
              var up, sep := Text.Upper(specs.algorithms.value), specs.separator.value;
              && Text.OccursAt(up, sep, |r.value[0]|)
              && forall i :: 0 <= i < |r.value[0]| ==> !Text.OccursAt(up, sep, i)
  {
    if specs.separator.None? then Err(MissingSpec("separator"))
    else if specs.algorithms.None? || specs.separator.value == [] then Err(MissingSpec("algorithms"))
    else
      var sep, up := specs.separator.value, Text.Upper(specs.algorithms.value);
      var al := Text.Split(up, sep);
      Text.JoinSplit(up, sep);
      Text.SplitPiecesFree(up, sep);
      Text.SplitLeftmost(up, sep);
      assert forall i, c :: 0 <= i < |al| && c in al[i] ==> c in up by {
        forall i, c | 0 <= i < |al| && c in al[i] ensures c in up {
          Text.JoinChars(al, sep, i, c);
        }
      }
      Ok(al)
  }

  /** A fresh record registered under a name already in use replaces the
      record registered there, leaving the set of names as it was; under a
      new name the registry grows by that name alone. */
  lemma RegistryOutcomes(models: map<string, Model>, name: string, m: Model)
    requires m !in models.Values
    ensures name in models ==>
              && models[name := m].Keys == models.Keys
              && models[name := m][name] != models[name]
    ensures name !in models ==> models[name := m].Keys == models.Keys + {name}
  {
    if name in models {
      assert models[name] in models.Values;
    }
  }

  /** One modelling run: the specs, the algorithm list and the keyed stores. */
  class Model {
    const specs: Specs
    const name: string
    const algolist: seq<string>
    var xTrain: Option<Matrix>
    var xTest: Option<Matrix>
    var yTrain: Option<Vector>
    var yTest: Option<Vector>
    // keyed by algorithm
    var estimators: map<string, Estimator>
    var support: map<string, seq<bool>>
    var scores: map<string, real>
    var importances: map<string, Vector>
    var coefs: map<string, Vector>
    // keyed by (algorithm, partition)
    var preds: map<(string, string), Vector>
    var probas: map<(string, string), Vector>
    // keyed by (algorithm, partition, metric)
    var metrics: map<(string, string, Metric), MetricValue>

    /** No data attached and every store empty. */
    ghost predicate IsBlank()
      reads this
    {
      && xTrain.None? && xTest.None? && yTrain.None? && yTest.None?
      && estimators == map[] && support == map[] && scores == map[]
      && importances == map[] && coefs == map[]
      && preds == map[] && probas == map[] && metrics == map[]
    }

    constructor (specs: Specs, algolist: seq<string>)
      requires specs.project.Some?
      ensures this.specs == specs && name == specs.project.value && this.algolist == algolist
      ensures IsBlank()
    {
      this.specs := specs;
      name := specs.project.value;
      this.algolist := algolist;
      xTrain, xTest, yTrain, yTest := None, None, None, None;
      estimators, support, scores := map[], map[], map[];
      importances, coefs := map[], map[];
      preds, probas := map[], map[];
      metrics := map[];
    }
  }

  /** The class-level `Model.models` dictionary, as an object of its own. */
  class Registry {
    var models: map<string, Model>

    constructor ()
      ensures models == map[]
    {
      models := map[];
    }

    /** `Model(specs)` as it runs: `Model` is a classic class, so its
        `__new__` and the known-name check in it are never called, and
        `__init__` registers every record it builds, replacing any record
        already registered under the same project name. */
    method CreateAsWritten(specs: Specs) returns (r: Result<Model>)
      modifies this
      ensures specs.project.None? ==> r == Err(MissingSpec("project"))
      ensures specs.project.Some? && ParseAlgorithms(specs).Err? ==> r == Err(ParseAlgorithms(specs).error)
      ensures r.Err? ==> models == old(models)
      ensures r.Ok? <==> specs.project.Some? && ParseAlgorithms(specs).Ok?
      ensures r.Ok? ==>
                && fresh(r.value) && r.value.IsBlank()
                && r.value.specs == specs && r.value.name == specs.project.value
                && r.value.algolist == ParseAlgorithms(specs).value
                && models == old(models)[specs.project.value := r.value]
      ensures r.Ok? && specs.project.value in old(models) ==>
                models.Keys == old(models).Keys && models[specs.project.value] != old(models)[specs.project.value]
    {
      if specs.project.None? {
        return Err(MissingSpec("project"));
      }
      var al := ParseAlgorithms(specs);
      if al.Err? {
        return Err(al.error);
      }
      var m := new Model(specs, al.value);
      RegistryOutcomes(models, specs.project.value, m);
      models := models[specs.project.value := m];
      return Ok(m);
    }

    /** `Model(specs)` as `__new__` intends it: refuse a known project name, otherwise parse the
        algorithm list, build a blank record and register it. */
    method Create(specs: Specs) returns (r: Result<Model>)
      modifies this
      ensures specs.project.None? ==> r == Err(MissingSpec("project"))
      ensures specs.project.Some? && specs.project.value in old(models) ==>
                r == Err(DuplicateProject(specs.project.value))
      ensures specs.project.Some? && specs.project.value !in old(models) && ParseAlgorithms(specs).Err? ==>
                r == Err(ParseAlgorithms(specs).error)
      ensures r.Err? ==> models == old(models)
      ensures r.Ok? <==> specs.project.Some? && specs.project.value !in old(models) && ParseAlgorithms(specs).Ok?
      ensures r.Ok? ==>
                && fresh(r.value) && r.value.IsBlank()
                && r.value.specs == specs && r.value.name == specs.project.value
                && r.value.algolist == ParseAlgorithms(specs).value
                && models == old(models)[specs.project.value := r.value]
    {
      if specs.project.None? {
        return Err(MissingSpec("project"));
      }
      var mn := specs.project.value;
      if mn in models {
        return Err(DuplicateProject(mn));
      }
      var al := ParseAlgorithms(specs);
      if al.Err? {
        return Err(al.error);
      }
      var m := new Model(specs, al.value);
      models := models[mn := m];
      return Ok(m);
    }
  }
}
