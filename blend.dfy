/** `predict_blend`: stack the base algorithms' outputs into meta-feature
    matrices, fit a meta-learner on them and store it under the alias BLEND. */
module Blend {
  import opened Store

  const BLEND := "BLEND"

  /** The penalties RidgeCV chooses from, as the source lists them (0.005 twice). */
  const Alphas: seq<real> :=
    [0.0001, 0.005, 0.001, 0.005, 0.01, 0.05, 0.1, 0.5, 1.0, 5.0, 10.0, 50.0, 100.0, 500.0, 1000.0]

  /** The scikit-learn calls predict_blend makes, left uninterpreted. */
  datatype Learners = Learners(
    logistic: (Matrix, Vector) -> Estimator,               // LogisticRegression().fit(X, y)
    ridge: (Matrix, Vector, seq<real>, int) -> Estimator,  // RidgeCV(alphas, normalize=True, cv=n_folds).fit(X, y)
    predict: (Estimator, Matrix) -> Vector,                // estimator.predict(X)
    positiveProba: (Estimator, Matrix) -> Vector)          // estimator.predict_proba(X)[:, 1]

  /** The meta-learner: logistic regression for classification, ridge with
      cross-validated penalty for regression. */
  function MetaFit(learners: Learners, regression: bool, x: Matrix, y: Vector, nFolds: int): Estimator {
    if regression then learners.ridge(x, y, Alphas, nFolds) else learners.logistic(x, y)
  }

  /** numpy accepts `X[:, i] = v` for a column of `rows` entries when v has
      `rows` entries, or one entry to broadcast. */
  predicate Fits(v: Vector, rows: nat) {
    |v| == rows || |v| == 1
  }

  function Broadcast(v: Vector, rows: nat): (col: Vector)
    requires Fits(v, rows)
    ensures |col| == rows
  {
    if |v| == rows then v else seq(rows, _ => v[0])
  }

  /** Every listed algorithm has an entry for partition `p` in `src` that fits a column. */
  ghost predicate Blendable(src: map<(string, string), Vector>, al: seq<string>, p: string, rows: nat) {
    forall i :: 0 <= i < |al| ==> (al[i], p) in src && Fits(src[(al[i], p)], rows)
  }

  /** The meta-feature matrix for partition `p`, row by row: `rows` rows of
      |al| columns, column c holding algorithm al[c]'s vector. */
  function BlendMatrix(src: map<(string, string), Vector>, al: seq<string>, p: string, rows: nat): (x: Matrix)
    requires Blendable(src, al, p, rows)
    ensures |x| == rows
    ensures forall r :: 0 <= r < rows ==> |x[r]| == |al|
    ensures forall r, c :: 0 <= r < rows && 0 <= c < |al| && |src[(al[c], p)]| == rows ==>
              x[r][c] == src[(al[c], p)][r]
    ensures forall r, c :: 0 <= r < rows && 0 <= c < |al| && |src[(al[c], p)]| == 1 ==>
              x[r][c] == src[(al[c], p)][0]
  {
    seq(rows, r requires 0 <= r < rows =>
      seq(|al|, c requires 0 <= c < |al| => Broadcast(src[(al[c], p)], rows)[r]))
  }

  /** Reordering the algorithm list reorders the matrix columns the same way. */
  lemma BlendMatrixReorder(src: map<(string, string), Vector>, al: seq<string>, al': seq<string>,
                           perm: seq<nat>, p: string, rows: nat)
    requires Blendable(src, al, p, rows)
    requires |perm| == |al'| && forall c :: 0 <= c < |al'| ==> perm[c] < |al| && al'[c] == al[perm[c]]
    ensures Blendable(src, al', p, rows)
    ensures forall r, c :: 0 <= r < rows && 0 <= c < |al'| ==>
              BlendMatrix(src, al', p, rows)[r][c] == BlendMatrix(src, al, p, rows)[r][perm[c]]
  {
  }

  /** The optional estimator attributes predict_blend copies. */
  datatype Attribute = Coef | FeatureImportances

  function Exposed(e: Estimator, attr: Attribute): Option<Vector> {
    match attr
    case Coef => e.coef
    case FeatureImportances => e.importances
  }

  /** `store` after copying attribute `attr` of each of al's estimators that exposes it, in order. */
  function CopyExposed(store: map<string, Vector>, ests: map<string, Estimator>, al: seq<string>,
                       attr: Attribute): map<string, Vector>
    requires forall i :: 0 <= i < |al| ==> al[i] in ests
    decreases |al|
  {
    if al == [] then store
    else
      var a := al[|al| - 1];
      var prev := CopyExposed(store, ests, al[..|al| - 1], attr);
      match Exposed(ests[a], attr)
      case Some(v) => prev[a := v]
      case None => prev
  }

  /** After the copy, an algorithm of the list whose estimator exposes the
      attribute maps to it; every other key is as it was. */
  lemma {:induction false} CopyExposedSpec(store: map<string, Vector>, ests: map<string, Estimator>,
                                           al: seq<string>, attr: Attribute, a: string)
    requires forall i :: 0 <= i < |al| ==> al[i] in ests
    ensures var r := CopyExposed(store, ests, al, attr);
            if a in al && Exposed(ests[a], attr).Some? then a in r && r[a] == Exposed(ests[a], attr).value
            else (a in r <==> a in store) && (a in store ==> r[a] == store[a])
    decreases |al|
  {
    if al != [] {
      var init := al[..|al| - 1];
      CopyExposedSpec(store, ests, init, attr, a);
      assert al == init + [al[|al| - 1]];
    }
  }

  /** `X[:, c] = v`. */
  method FillColumn(x: array2<real>, c: nat, v: Vector)
    requires c < x.Length1 && Fits(v, x.Length0)
    modifies x
    ensures forall r, k :: 0 <= r < x.Length0 && 0 <= k < x.Length1 ==>
              x[r, k] == if k == c then Broadcast(v, x.Length0)[r] else old(x[r, k])
  {
    var col := Broadcast(v, x.Length0);
    forall r | 0 <= r < x.Length0 {
      x[r, c] := col[r];
    }
  }

  /** The rows of a two-dimensional array. */
  function Rows(x: array2<real>): (rs: Matrix)
    reads x
    ensures |rs| == x.Length0
    ensures forall r :: 0 <= r < x.Length0 ==> |rs[r]| == x.Length1
  {
    seq(x.Length0, r requires 0 <= r < x.Length0 reads x =>
      seq(x.Length1, c requires 0 <= c < x.Length1 reads x => x[r, c]))
  }

  /** An array whose every column holds its algorithm's broadcast vector reads back as BlendMatrix. */
  lemma RowsAreBlendMatrix(x: array2<real>, src: map<(string, string), Vector>, al: seq<string>, p: string)
    requires x.Length1 == |al| && ColumnsFilled(x, src, al, p, |al|)
    ensures Blendable(src, al, p, x.Length0)
    ensures Rows(x) == BlendMatrix(src, al, p, x.Length0)
  {
    var rs, bm := Rows(x), BlendMatrix(src, al, p, x.Length0);
    forall r | 0 <= r < x.Length0 ensures rs[r] == bm[r] {
      assert forall c :: 0 <= c < |al| ==> rs[r][c] == bm[r][c];
    }
  }

  /** Where the meta-features come from: probabilities, or predictions for regression. */
  function Source(m: Model): map<(string, string), Vector>
    reads m
    requires m.specs.regression.Some?
  {
    if m.specs.regression.value then m.preds else m.probas
  }

  /** The name of the store the meta-features come from, as KeyError reports it. */
  function SourceName(regression: bool): string {
    if regression then "preds" else "probas"
  }

  /** The specs and matrices predict_blend checks before its loop are present. */
  ghost predicate HeaderReady(m: Model)
    reads m
  {
    m.specs.nFolds.Some? && m.specs.regression.Some? && m.xTrain.Some? && m.xTest.Some?
  }

  /** Everything predict_blend needs is present. */
  ghost predicate BlendReady(m: Model)
    reads m
  {
    && m.specs.nFolds.Some? && m.specs.regression.Some?
    && m.xTrain.Some? && m.xTest.Some?
    && (forall i :: 0 <= i < |m.algolist| ==> m.algolist[i] in m.estimators)
    && Blendable(Source(m), m.algolist, TRAIN, |m.xTrain.value|)
    && Blendable(Source(m), m.algolist, TEST, |m.xTest.value|)
    && m.yTrain.Some?
  }

  /** The error predict_blend raises at algorithm `a`, if any: no estimator,
      then a missing or ill-shaped train vector, then the same for test. */
  function VisitError(ests: map<string, Estimator>, src: map<(string, string), Vector>, store: string,
                      a: string, rowsTrain: nat, rowsTest: nat): Option<Error>
  {
    if a !in ests then Some(MissingEntry("estimators", a, ""))
    else if (a, TRAIN) !in src then Some(MissingEntry(store, a, TRAIN))
    else if !Fits(src[(a, TRAIN)], rowsTrain) then Some(ShapeMismatch(a, TRAIN))
    else if (a, TEST) !in src then Some(MissingEntry(store, a, TEST))
    else if !Fits(src[(a, TEST)], rowsTest) then Some(ShapeMismatch(a, TEST))
    else None
  }

  /** The position of the first algorithm of `al` at which the loop raises,
      or |al| when none does. */
  function FirstBlocked(ests: map<string, Estimator>, src: map<(string, string), Vector>, store: string,
                        al: seq<string>, rowsTrain: nat, rowsTest: nat): (k: nat)
    ensures k <= |al|
    ensures forall i :: 0 <= i < k ==> VisitError(ests, src, store, al[i], rowsTrain, rowsTest).None?
    ensures k < |al| ==> VisitError(ests, src, store, al[k], rowsTrain, rowsTest).Some?
    decreases |al|
  {
    if al == [] || VisitError(ests, src, store, al[0], rowsTrain, rowsTest).Some? then 0
    else 1 + FirstBlocked(ests, src, store, al[1..], rowsTrain, rowsTest)
  }

  /** An index before which no algorithm raises, and at which one does (or
      the end of the list), is the first blocked position. */
  lemma FirstBlockedAt(ests: map<string, Estimator>, src: map<(string, string), Vector>, store: string,
                       al: seq<string>, rowsTrain: nat, rowsTest: nat, i: nat)
    requires i <= |al|
    requires forall j :: 0 <= j < i ==> VisitError(ests, src, store, al[j], rowsTrain, rowsTest).None?
    requires i < |al| ==> VisitError(ests, src, store, al[i], rowsTrain, rowsTest).Some?
    ensures FirstBlocked(ests, src, store, al, rowsTrain, rowsTest) == i
  {
  }

  /** No algorithm raises exactly when every one has an estimator and
      fitting train and test vectors. */
  lemma NoneBlocked(ests: map<string, Estimator>, src: map<(string, string), Vector>, store: string,
                    al: seq<string>, rowsTrain: nat, rowsTest: nat)
    ensures FirstBlocked(ests, src, store, al, rowsTrain, rowsTest) == |al| <==>
              && (forall i :: 0 <= i < |al| ==> al[i] in ests)
              && Blendable(src, al, TRAIN, rowsTrain) && Blendable(src, al, TEST, rowsTest)
  {
    var k := FirstBlocked(ests, src, store, al, rowsTrain, rowsTest);
    if k < |al| {
      assert VisitError(ests, src, store, al[k], rowsTrain, rowsTest).Some?;
    }
  }

  /** Columns 0 .. upto-1 of `x` hold the broadcast vectors of al[0 .. upto-1] for partition `p`. */
  ghost predicate ColumnsFilled(x: array2<real>, src: map<(string, string), Vector>, al: seq<string>, p: string,
                                upto: nat)
    reads x
  {
    && upto <= |al| && upto <= x.Length1
    && forall c :: 0 <= c < upto ==>
         && (al[c], p) in src && Fits(src[(al[c], p)], x.Length0)
         && forall r :: 0 <= r < x.Length0 ==> x[r, c] == Broadcast(src[(al[c], p)], x.Length0)[r]
  }

  /** One pass of the loop of predict_blend, for algolist[i]. */
  method Visit(m: Model, src: map<(string, string), Vector>, store: string, i: nat,
               blendTrain: array2<real>, blendTest: array2<real>) returns (r: Outcome)
    requires i < |m.algolist| && blendTrain != blendTest
    requires blendTrain.Length1 == |m.algolist| && blendTest.Length1 == |m.algolist|
    modifies m`coefs, m`importances, blendTrain, blendTest
    ensures var a := m.algolist[i];
            var err := VisitError(m.estimators, src, store, a, blendTrain.Length0, blendTest.Length0);
            && (r.Pass? <==> err.None?)
            && (r.Fail? ==> r.error == err.value)
            && (a in m.estimators ==>
                  && m.coefs == (match m.estimators[a].coef
                                 case Some(v) => old(m.coefs)[a := v] case None => old(m.coefs))
                  && m.importances == (match m.estimators[a].importances
                                       case Some(v) => old(m.importances)[a := v] case None => old(m.importances)))
            && (a !in m.estimators ==> m.coefs == old(m.coefs) && m.importances == old(m.importances))
    ensures r.Pass? ==>
              forall r, c :: 0 <= r < blendTrain.Length0 && 0 <= c < blendTrain.Length1 ==>
                blendTrain[r, c] == if c == i then Broadcast(src[(m.algolist[i], TRAIN)], blendTrain.Length0)[r]
                                    else old(blendTrain[r, c])
    ensures r.Pass? ==>
              forall r, c :: 0 <= r < blendTest.Length0 && 0 <= c < blendTest.Length1 ==>
                blendTest[r, c] == if c == i then Broadcast(src[(m.algolist[i], TEST)], blendTest.Length0)[r]
                                   else old(blendTest[r, c])
  {
    var algorithm := m.algolist[i];
    if algorithm !in m.estimators {
      return Fail(MissingEntry("estimators", algorithm, ""));
    }
    var estimator := m.estimators[algorithm];
    if estimator.coef.Some? {
      m.coefs := m.coefs[algorithm := estimator.coef.value];
    }
    if estimator.importances.Some? {
      m.importances := m.importances[algorithm := estimator.importances.value];
    }
    if (algorithm, TRAIN) !in src {
      return Fail(MissingEntry(store, algorithm, TRAIN));
    }
    if !Fits(src[(algorithm, TRAIN)], blendTrain.Length0) {
      return Fail(ShapeMismatch(algorithm, TRAIN));
    }
    FillColumn(blendTrain, i, src[(algorithm, TRAIN)]);
    if (algorithm, TEST) !in src {
      return Fail(MissingEntry(store, algorithm, TEST));
    }
    if !Fits(src[(algorithm, TEST)], blendTest.Length0) {
      return Fail(ShapeMismatch(algorithm, TEST));
    }
    FillColumn(blendTest, i, src[(algorithm, TEST)]);
    return Pass;
  }

  /** Visit, seen from the loop: how one pass extends the copies made for
      al[..i] and the columns filled for al[..i]. */
  method Step(m: Model, src: map<(string, string), Vector>, store: string, i: nat,
              blendTrain: array2<real>, blendTest: array2<real>,
              ghost coefs0: map<string, Vector>, ghost importances0: map<string, Vector>)
    returns (r: Outcome, ghost reached: nat)
    requires i < |m.algolist| && blendTrain != blendTest
    requires blendTrain.Length1 == |m.algolist| && blendTest.Length1 == |m.algolist|
    requires forall j :: 0 <= j < i ==> m.algolist[j] in m.estimators
    modifies m`coefs, m`importances, blendTrain, blendTest
    ensures var err := VisitError(m.estimators, src, store, m.algolist[i], blendTrain.Length0, blendTest.Length0);
            (r.Pass? <==> err.None?) && (r.Fail? ==> r.error == err.value)
    ensures reached == if m.algolist[i] in m.estimators then i + 1 else i
    ensures forall j :: 0 <= j < reached ==> m.algolist[j] in m.estimators
    ensures && (old(m.coefs) == CopyExposed(coefs0, m.estimators, m.algolist[..i], Coef) ==>
                  m.coefs == CopyExposed(coefs0, m.estimators, m.algolist[..reached], Coef))
            && (old(m.importances) == CopyExposed(importances0, m.estimators, m.algolist[..i], FeatureImportances) ==>
                  m.importances == CopyExposed(importances0, m.estimators, m.algolist[..reached], FeatureImportances))
    ensures r.Pass? && old(ColumnsFilled(blendTrain, src, m.algolist, TRAIN, i)) ==>
              ColumnsFilled(blendTrain, src, m.algolist, TRAIN, i + 1)
    ensures r.Pass? && old(ColumnsFilled(blendTest, src, m.algolist, TEST, i)) ==>
              ColumnsFilled(blendTest, src, m.algolist, TEST, i + 1)
  {
    var al := m.algolist;
    assert al[..i + 1] == al[..i] + [al[i]];
    assert al[..i + 1][..i] == al[..i];
    r := Visit(m, src, store, i, blendTrain, blendTest);
    reached := if al[i] in m.estimators then i + 1 else i;
  }

  /** The loop of predict_blend: visit each algorithm in order, copying its
      exposed coefficients and importances and filling column i of the train
      and test meta-feature arrays from `src`. It stops at position `stop`:
      the first algorithm whose visit raises, or the end of the list.
      `visited` counts the algorithms whose attributes were copied. */
  method FillLoop(m: Model, src: map<(string, string), Vector>, store: string,
                  blendTrain: array2<real>, blendTest: array2<real>)
    returns (r: Outcome, ghost stop: nat, ghost visited: nat)
    requires blendTrain != blendTest
    requires blendTrain.Length1 == |m.algolist| && blendTest.Length1 == |m.algolist|
    modifies m`coefs, m`importances, blendTrain, blendTest
    ensures stop <= |m.algolist| && (r.Pass? <==> stop == |m.algolist|)
    ensures forall j :: 0 <= j < stop ==>
              VisitError(m.estimators, src, store, m.algolist[j], blendTrain.Length0, blendTest.Length0).None?
    ensures r.Fail? ==>
              var err := VisitError(m.estimators, src, store, m.algolist[stop], blendTrain.Length0, blendTest.Length0);
              err.Some? && r.error == err.value
    ensures visited == if r.Fail? && m.algolist[stop] in m.estimators then stop + 1 else stop
    ensures forall i :: 0 <= i < visited ==> m.algolist[i] in m.estimators
    ensures m.coefs == CopyExposed(old(m.coefs), m.estimators, m.algolist[..visited], Coef)
    ensures m.importances == CopyExposed(old(m.importances), m.estimators, m.algolist[..visited], FeatureImportances)
    ensures r.Pass? ==>
              ColumnsFilled(blendTrain, src, m.algolist, TRAIN, stop) && ColumnsFilled(blendTest, src, m.algolist, TEST, stop)
  {
    var al, ests := m.algolist, m.estimators;
    var rowsTrain, rowsTest := blendTrain.Length0, blendTest.Length0;
    var i := 0;
    stop, visited := 0, 0;
    while i < |al|
      invariant 0 <= i <= |al| && stop == i && visited == i
      invariant forall j :: 0 <= j < i ==> al[j] in ests
      invariant forall j :: 0 <= j < i ==> VisitError(ests, src, store, al[j], rowsTrain, rowsTest).None?
      invariant m.coefs == CopyExposed(old(m.coefs), ests, al[..i], Coef)
      invariant m.importances == CopyExposed(old(m.importances), ests, al[..i], FeatureImportances)
      invariant ColumnsFilled(blendTrain, src, al, TRAIN, i) && ColumnsFilled(blendTest, src, al, TEST, i)
    {
      ghost var reached;
      r, reached := Step(m, src, store, i, blendTrain, blendTest, old(m.coefs), old(m.importances));
      if r.Fail? {
        visited := reached;
        return;
      }
      i := i + 1;
      stop, visited := i, i;
    }
    r := Pass;
  }

  /** The meta-feature matrices of predict_blend: `rowsTrain` and `rowsTest`
      rows by |algolist| columns, filled by the loop. */
  method FillMetaFeatures(m: Model, src: map<(string, string), Vector>, store: string,
                          rowsTrain: nat, rowsTest: nat)
    returns (r: Outcome, xTrain: Matrix, xTest: Matrix, ghost visited: nat)
    modifies m`coefs, m`importances
    ensures visited <= |m.algolist|
    ensures forall i :: 0 <= i < visited ==> m.algolist[i] in m.estimators
    ensures m.coefs == CopyExposed(old(m.coefs), m.estimators, m.algolist[..visited], Coef)
    ensures m.importances == CopyExposed(old(m.importances), m.estimators, m.algolist[..visited], FeatureImportances)
    ensures r.Pass? <==>
              && (forall i :: 0 <= i < |m.algolist| ==> m.algolist[i] in m.estimators)
              && Blendable(src, m.algolist, TRAIN, rowsTrain) && Blendable(src, m.algolist, TEST, rowsTest)
    ensures var k := FirstBlocked(m.estimators, src, store, m.algolist, rowsTrain, rowsTest);
            && (r.Pass? <==> k == |m.algolist|)
            && (r.Fail? ==>
                  && k < |m.algolist|
                  && r.error == VisitError(m.estimators, src, store, m.algolist[k], rowsTrain, rowsTest).value
                  && visited == k + if m.algolist[k] in m.estimators then 1 else 0)
    ensures r.Pass? ==>
              && visited == |m.algolist|
              && xTrain == BlendMatrix(src, m.algolist, TRAIN, rowsTrain)
              && xTest == BlendMatrix(src, m.algolist, TEST, rowsTest)
  {
    xTrain, xTest := [], [];
    var al, ests := m.algolist, m.estimators;
    var blendTrain := new real[rowsTrain, |al|]((_, _) => 0.0);
    var blendTest := new real[rowsTest, |al|]((_, _) => 0.0);
    ghost var stop;
    r, stop, visited := FillLoop(m, src, store, blendTrain, blendTest);
    FirstBlockedAt(ests, src, store, al, rowsTrain, rowsTest, stop);
    NoneBlocked(ests, src, store, al, rowsTrain, rowsTest);
    if r.Pass? {
      RowsAreBlendMatrix(blendTrain, src, al, TRAIN);
      RowsAreBlendMatrix(blendTest, src, al, TEST);
      xTrain, xTest := Rows(blendTrain), Rows(blendTest);
    }
  }

  /** The writes after the fit: the meta-learner under BLEND, its predictions
      for both partitions, and for classification its positive-class
      probabilities. */
  method StoreBlend(m: Model, learners: Learners, e: Estimator, regression: bool, xTrain: Matrix, xTest: Matrix)
    modifies m`estimators, m`preds, m`probas
    ensures m.estimators == old(m.estimators)[BLEND := e]
    ensures m.preds == old(m.preds)[(BLEND, TRAIN) := learners.predict(e, xTrain)]
                                   [(BLEND, TEST) := learners.predict(e, xTest)]
    ensures m.probas == if regression then old(m.probas)
                        else old(m.probas)[(BLEND, TRAIN) := learners.positiveProba(e, xTrain)]
                                          [(BLEND, TEST) := learners.positiveProba(e, xTest)]
  {
    m.estimators := m.estimators[BLEND := e];
    m.preds := m.preds[(BLEND, TRAIN) := learners.predict(e, xTrain)];
    m.preds := m.preds[(BLEND, TEST) := learners.predict(e, xTest)];
    if !regression {
      m.probas := m.probas[(BLEND, TRAIN) := learners.positiveProba(e, xTrain)];
      m.probas := m.probas[(BLEND, TEST) := learners.positiveProba(e, xTest)];
    }
  }

  /** predict_blend once n_folds, regression, X_train and X_test are known
      to be present: the loop, the y_train lookup, the fit and the writes. */
  method BlendStage(m: Model, learners: Learners) returns (r: Outcome, ghost visited: nat)
    requires HeaderReady(m)
    modifies m`estimators, m`preds, m`probas, m`coefs, m`importances
    ensures r.Pass? <==> old(BlendReady(m))
    ensures var store := SourceName(m.specs.regression.value);
            var rowsTrain, rowsTest := |m.xTrain.value|, |m.xTest.value|;
            var k := old(FirstBlocked(m.estimators, Source(m), store, m.algolist, rowsTrain, rowsTest));
            && (k < |m.algolist| ==>
                  && r == Fail(old(VisitError(m.estimators, Source(m), store, m.algolist[k], rowsTrain, rowsTest)).value)
                  && visited == k + if m.algolist[k] in old(m.estimators) then 1 else 0)
            && (k == |m.algolist| ==>
                  && visited == |m.algolist|
                  && (m.yTrain.None? ==> r == Fail(MissingData("y_train")))
                  && (m.yTrain.Some? ==> r.Pass?))
    ensures r.Fail? ==>
              m.estimators == old(m.estimators) && m.preds == old(m.preds) && m.probas == old(m.probas)
    ensures visited <= |m.algolist|
    ensures forall i :: 0 <= i < visited ==> m.algolist[i] in old(m.estimators)
    ensures m.coefs == CopyExposed(old(m.coefs), old(m.estimators), m.algolist[..visited], Coef)
    ensures m.importances ==
            CopyExposed(old(m.importances), old(m.estimators), m.algolist[..visited], FeatureImportances)
    ensures r.Pass? ==>
              var regression := m.specs.regression.value;
              var src := old(Source(m));
              var xTrain := BlendMatrix(src, m.algolist, TRAIN, |m.xTrain.value|);
              var xTest := BlendMatrix(src, m.algolist, TEST, |m.xTest.value|);
              var e := MetaFit(learners, regression, xTrain, m.yTrain.value, m.specs.nFolds.value);
              && visited == |m.algolist|
              && m.estimators == old(m.estimators)[BLEND := e]
              && m.preds == old(m.preds)[(BLEND, TRAIN) := learners.predict(e, xTrain)]
                                        [(BLEND, TEST) := learners.predict(e, xTest)]
              && m.probas == if regression then old(m.probas)
                             else old(m.probas)[(BLEND, TRAIN) := learners.positiveProba(e, xTrain)]
                                               [(BLEND, TEST) := learners.positiveProba(e, xTest)]
  {
    var nFolds, regression := m.specs.nFolds.value, m.specs.regression.value;
    var src, store := Source(m), SourceName(regression);
    var filled, xTrain, xTest;
    filled, xTrain, xTest, visited := FillMetaFeatures(m, src, store, |m.xTrain.value|, |m.xTest.value|);
    if filled.Fail? {
      return filled, visited;
    }
    if m.yTrain.None? {
      return Fail(MissingData("y_train")), visited;
    }
    var e := MetaFit(learners, regression, xTrain, m.yTrain.value, nFolds);
    StoreBlend(m, learners, e, regression, xTrain, xTest);
    r := Pass;
  }

  /** predict_blend. Column i of both meta-feature matrices is algolist[i]'s
      probabilities (classification) or predictions (regression); coefficients
      and importances are copied as they are met, so an error part-way leaves
      those of the `visited` algorithms already reached. */
  method PredictBlend(m: Model, learners: Learners) returns (r: Outcome, ghost visited: nat)
    modifies m`estimators, m`preds, m`probas, m`coefs, m`importances
    ensures m.specs.nFolds.None? ==> r == Fail(MissingSpec("n_folds"))
    ensures m.specs.nFolds.Some? && m.specs.regression.None? ==> r == Fail(MissingSpec("regression"))
    ensures m.specs.nFolds.Some? && m.specs.regression.Some? && m.xTrain.None? ==>
              r == Fail(MissingData("X_train"))
    ensures m.specs.nFolds.Some? && m.specs.regression.Some? && m.xTrain.Some? && m.xTest.None? ==>
              r == Fail(MissingData("X_test"))
    ensures r.Pass? <==> old(BlendReady(m))
    ensures !HeaderReady(m) ==> visited == 0
    ensures HeaderReady(m) ==>
              var store := SourceName(m.specs.regression.value);
              var rowsTrain, rowsTest := |m.xTrain.value|, |m.xTest.value|;
              var k := old(FirstBlocked(m.estimators, Source(m), store, m.algolist, rowsTrain, rowsTest));
              && (k < |m.algolist| ==>
                    && r == Fail(old(VisitError(m.estimators, Source(m), store, m.algolist[k], rowsTrain, rowsTest)).value)
                    && visited == k + if m.algolist[k] in old(m.estimators) then 1 else 0)
              && (k == |m.algolist| ==>
                    && visited == |m.algolist|
                    && (m.yTrain.None? ==> r == Fail(MissingData("y_train")))
                    && (m.yTrain.Some? ==> r.Pass?))
    ensures r.Fail? ==>
              m.estimators == old(m.estimators) && m.preds == old(m.preds) && m.probas == old(m.probas)
    ensures visited <= |m.algolist|
    ensures forall i :: 0 <= i < visited ==> m.algolist[i] in old(m.estimators)
    ensures m.coefs == CopyExposed(old(m.coefs), old(m.estimators), m.algolist[..visited], Coef)
    ensures m.importances ==
            CopyExposed(old(m.importances), old(m.estimators), m.algolist[..visited], FeatureImportances)
    ensures r.Pass? ==>
              var regression := m.specs.regression.value;
              var src := old(Source(m));
              var xTrain := BlendMatrix(src, m.algolist, TRAIN, |m.xTrain.value|);
              var xTest := BlendMatrix(src, m.algolist, TEST, |m.xTest.value|);
              var e := MetaFit(learners, regression, xTrain, m.yTrain.value, m.specs.nFolds.value);
              && visited == |m.algolist|
              && m.estimators == old(m.estimators)[BLEND := e]
              && m.preds == old(m.preds)[(BLEND, TRAIN) := learners.predict(e, xTrain)]
                                        [(BLEND, TEST) := learners.predict(e, xTest)]
              && m.probas == if regression then old(m.probas)
                             else old(m.probas)[(BLEND, TRAIN) := learners.positiveProba(e, xTrain)]
                                               [(BLEND, TEST) := learners.positiveProba(e, xTest)]
    ensures AgreeExcept(old(m.estimators), m.estimators, {BLEND})
    ensures AgreeExcept(old(m.preds), m.preds, {(BLEND, TRAIN), (BLEND, TEST)})
    ensures AgreeExcept(old(m.probas), m.probas, {(BLEND, TRAIN), (BLEND, TEST)})
  {
    visited := 0;
    assert m.algolist[..0] == [];
    if m.specs.nFolds.None? {
      return Fail(MissingSpec("n_folds")), visited;
    }
    if m.specs.regression.None? {
      return Fail(MissingSpec("regression")), visited;
    }
    if m.xTrain.None? {
      return Fail(MissingData("X_train")), visited;
    }
    if m.xTest.None? {
      return Fail(MissingData("X_test")), visited;
    }
    r, visited := BlendStage(m, learners);
  }
}
