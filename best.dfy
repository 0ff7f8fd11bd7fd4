/** `predict_best`: promote the top-scoring algorithm's artifacts under the alias BEST. */
module BestSelect {
  import opened Store

  const BEST := "BEST"

  /** Every listed algorithm has a score. */
  ghost predicate Scored(al: seq<string>, scores: map<string, real>) {
    forall i :: 0 <= i < |al| ==> al[i] in scores
  }

  /** The first position of `x` in `al`. */
  function IndexOf(al: seq<string>, x: string): (k: nat)
    requires x in al
    ensures k < |al| && al[k] == x
    ensures forall j :: 0 <= j < k ==> al[j] != x
  {
    if al[0] == x then 0 else 1 + IndexOf(al[1..], x)
  }

  /** `a` is the algorithm the scan settles on: listed, scoring above the
      initial 0.0 and at least as much as every listed algorithm, and every
      algorithm listed before its first position scoring strictly less. */
  ghost predicate IsBest(al: seq<string>, scores: map<string, real>, a: string)
    requires Scored(al, scores)
  {
    && a in al
    && scores[a] > 0.0
    && (forall i :: 0 <= i < |al| ==> scores[al[i]] <= scores[a])
    && (forall i :: 0 <= i < IndexOf(al, a) ==> scores[al[i]] < scores[a])
  }

  /** The scan's answer is unique: two algorithms that both meet IsBest are the same. */
  lemma BestIsUnique(al: seq<string>, scores: map<string, real>, a: string, b: string)
    requires Scored(al, scores)
    requires IsBest(al, scores, a) && IsBest(al, scores, b)
    ensures a == b
  {
    var ia, ib := IndexOf(al, a), IndexOf(al, b);
    assert scores[al[ia]] == scores[a] && scores[al[ib]] == scores[b];
  }

  /** The loop of predict_best: a running maximum that starts at 0.0 and is
      replaced only on a strictly greater score. A missing score raises
      KeyError at the first unscored algorithm; no score above 0.0 leaves
      best_algo unbound. */
  method SelectBest(al: seq<string>, scores: map<string, real>) returns (r: Result<string>)
    ensures r.Ok? <==> Scored(al, scores) && exists i :: 0 <= i < |al| && scores[al[i]] > 0.0
    ensures r.Ok? ==> Scored(al, scores) && IsBest(al, scores, r.value)
    ensures !Scored(al, scores) ==>
              var k := FirstMissing(al, scores.Keys);
              k < |al| && r == Err(MissingEntry("scores", al[k], ""))
    ensures Scored(al, scores) && (forall i :: 0 <= i < |al| ==> scores[al[i]] <= 0.0) ==>
              r == Err(NoBestModel)
  {
    var bestScore := 0.0;
    var bestAlgo: Option<string> := None;
    ghost var at := 0;
    var i := 0;
    while i < |al|
      invariant 0 <= i <= |al|
      invariant forall j :: 0 <= j < i ==> al[j] in scores
      invariant forall j :: 0 <= j < i ==> scores[al[j]] <= bestScore
      invariant bestAlgo.None? ==> bestScore == 0.0
      invariant bestAlgo.Some? ==>
                  && at < i && al[at] == bestAlgo.value
                  && bestScore == scores[bestAlgo.value] > 0.0
                  && forall j :: 0 <= j < at ==> scores[al[j]] < bestScore
    {
      if al[i] !in scores {
        return Err(MissingEntry("scores", al[i], ""));
      }
      var topScore := scores[al[i]];
      if topScore > bestScore {
        bestScore := topScore;
        bestAlgo := Some(al[i]);
        at := i;
      }
      i := i + 1;
    }
    if bestAlgo.None? {
      return Err(NoBestModel);
    }
    ghost var k := IndexOf(al, bestAlgo.value);
    assert scores[al[k]] == bestScore;
    return Ok(bestAlgo.value);
  }

  /** The winner has everything predict_best copies. */
  ghost predicate HasArtifacts(m: Model, w: string, regression: bool)
    reads m
  {
    && w in m.estimators
    && (w, TRAIN) in m.preds && (w, TEST) in m.preds
    && (regression || ((w, TRAIN) in m.probas && (w, TEST) in m.probas))
  }

  /** The errors raised before anything is written. */
  predicate SelectionError(e: Error) {
    e.MissingSpec? || e.NoBestModel? || (e.MissingEntry? && e.store == "scores")
  }

  /** The stores after the copy stage stopped at `err`: the copies before
      the first missing artifact of `w` are made, the later ones are not.
      Each case requires the earlier artifacts present and its own one
      absent, so at most one case holds. */
  ghost predicate CopyStopped(
    e0: map<string, Estimator>, p0: map<(string, string), Vector>, q0: map<(string, string), Vector>,
    e: map<string, Estimator>, p: map<(string, string), Vector>, q: map<(string, string), Vector>,
    w: string, regression: bool, err: Error)
  {
    || (&& err == MissingEntry("estimators", w, "") && w !in e0
        && e == e0 && p == p0 && q == q0)
    || (&& err == MissingEntry("preds", w, TRAIN) && w in e0 && (w, TRAIN) !in p0
        && e == e0[BEST := e0[w]] && p == p0 && q == q0)
    || (&& err == MissingEntry("preds", w, TEST) && w in e0 && (w, TRAIN) in p0 && (w, TEST) !in p0
        && e == e0[BEST := e0[w]] && p == p0[(BEST, TRAIN) := p0[(w, TRAIN)]] && q == q0)
    || (&& err == MissingEntry("probas", w, TRAIN) && !regression
        && w in e0 && (w, TRAIN) in p0 && (w, TEST) in p0 && (w, TRAIN) !in q0
        && e == e0[BEST := e0[w]]
        && p == p0[(BEST, TRAIN) := p0[(w, TRAIN)]][(BEST, TEST) := p0[(w, TEST)]]
        && q == q0)
    || (&& err == MissingEntry("probas", w, TEST) && !regression
        && w in e0 && (w, TRAIN) in p0 && (w, TEST) in p0 && (w, TRAIN) in q0 && (w, TEST) !in q0
        && e == e0[BEST := e0[w]]
        && p == p0[(BEST, TRAIN) := p0[(w, TRAIN)]][(BEST, TEST) := p0[(w, TEST)]]
        && q == q0[(BEST, TRAIN) := q0[(w, TRAIN)]])
  }

  /** The old stores fix where the copy stage stops and what it leaves:
      the error and the new stores are unique. */
  lemma CopyStoppedUnique(
    e0: map<string, Estimator>, p0: map<(string, string), Vector>, q0: map<(string, string), Vector>,
    e1: map<string, Estimator>, p1: map<(string, string), Vector>, q1: map<(string, string), Vector>,
    e2: map<string, Estimator>, p2: map<(string, string), Vector>, q2: map<(string, string), Vector>,
    w: string, regression: bool, err1: Error, err2: Error)
    requires CopyStopped(e0, p0, q0, e1, p1, q1, w, regression, err1)
    requires CopyStopped(e0, p0, q0, e2, p2, q2, w, regression, err2)
    ensures err1 == err2 && e1 == e2 && p1 == p2 && q1 == q2
  {
  }

  /** A stop leaves the artifacts incomplete: the copy stage stops exactly when HasArtifacts fails. */
  lemma CopyStoppedMissing(
    e0: map<string, Estimator>, p0: map<(string, string), Vector>, q0: map<(string, string), Vector>,
    e: map<string, Estimator>, p: map<(string, string), Vector>, q: map<(string, string), Vector>,
    w: string, regression: bool, err: Error)
    requires CopyStopped(e0, p0, q0, e, p, q, w, regression, err)
    ensures !(&& w in e0 && (w, TRAIN) in p0 && (w, TEST) in p0
              && (regression || ((w, TRAIN) in q0 && (w, TEST) in q0)))
  {
  }

  /** The copy stage of predict_best: the winner's estimator, then its train
      and test predictions, then for classification its train and test
      probabilities, each under BEST; a missing one raises KeyError with the
      earlier copies already made. */
  method CopyWinner(m: Model, w: string, regression: bool) returns (r: Result<string>)
    modifies m`estimators, m`preds, m`probas
    ensures r.Ok? <==> old(HasArtifacts(m, w, regression))
    ensures r.Ok? ==>
              && r.value == w
              && m.estimators == old(m.estimators)[BEST := old(m.estimators)[w]]
              && m.preds == old(m.preds)[(BEST, TRAIN) := old(m.preds)[(w, TRAIN)]]
                                        [(BEST, TEST) := old(m.preds)[(w, TEST)]]
              && m.probas == if regression then old(m.probas)
                             else old(m.probas)[(BEST, TRAIN) := old(m.probas)[(w, TRAIN)]]
                                               [(BEST, TEST) := old(m.probas)[(w, TEST)]]
    ensures r.Err? ==> r.error.MissingEntry? && r.error.algo == w && !SelectionError(r.error)
    ensures r.Err? ==>
              CopyStopped(old(m.estimators), old(m.preds), old(m.probas),
                          m.estimators, m.preds, m.probas, w, regression, r.error)
    ensures AgreeExcept(old(m.estimators), m.estimators, {BEST})
    ensures AgreeExcept(old(m.preds), m.preds, {(BEST, TRAIN), (BEST, TEST)})
    ensures AgreeExcept(old(m.probas), m.probas, {(BEST, TRAIN), (BEST, TEST)})
  {
    if w !in m.estimators {
      return Err(MissingEntry("estimators", w, ""));
    }
    m.estimators := m.estimators[BEST := m.estimators[w]];
    if (w, TRAIN) !in m.preds {
      return Err(MissingEntry("preds", w, TRAIN));
    }
    m.preds := m.preds[(BEST, TRAIN) := m.preds[(w, TRAIN)]];
    if (w, TEST) !in m.preds {
      return Err(MissingEntry("preds", w, TEST));
    }
    m.preds := m.preds[(BEST, TEST) := m.preds[(w, TEST)]];
    if !regression {
      if (w, TRAIN) !in m.probas {
        return Err(MissingEntry("probas", w, TRAIN));
      }
      m.probas := m.probas[(BEST, TRAIN) := m.probas[(w, TRAIN)]];
      if (w, TEST) !in m.probas {
        return Err(MissingEntry("probas", w, TEST));
      }
      m.probas := m.probas[(BEST, TEST) := m.probas[(w, TEST)]];
    }
    return Ok(w);
  }

  /** predict_best: select the winner, then copy its estimator and its train
      and test predictions under BEST, and for classification its train and
      test probabilities too. The copies are made one by one, so a missing
      artifact of the winner leaves the earlier copies in place. Returns the
      winning algorithm. */
  method PredictBest(m: Model) returns (r: Result<string>)
    modifies m`estimators, m`preds, m`probas
    ensures m.specs.regression.None? ==> r == Err(MissingSpec("regression"))
    ensures m.specs.regression.Some? && !Scored(m.algolist, m.scores) ==>
              var k := FirstMissing(m.algolist, m.scores.Keys);
              k < |m.algolist| && r == Err(MissingEntry("scores", m.algolist[k], ""))
    ensures m.specs.regression.Some? && Scored(m.algolist, m.scores)
            && (forall i :: 0 <= i < |m.algolist| ==> m.scores[m.algolist[i]] <= 0.0) ==>
              r == Err(NoBestModel)
    ensures r.Err? && SelectionError(r.error) ==>
              && m.estimators == old(m.estimators) && m.preds == old(m.preds) && m.probas == old(m.probas)
              && (|| m.specs.regression.None? || !Scored(m.algolist, m.scores)
                  || forall i :: 0 <= i < |m.algolist| ==> m.scores[m.algolist[i]] <= 0.0)
    ensures m.specs.regression.Some? && Scored(m.algolist, m.scores)
            && (exists i :: 0 <= i < |m.algolist| && m.scores[m.algolist[i]] > 0.0)
            && old(forall w :: IsBest(m.algolist, m.scores, w) ==> HasArtifacts(m, w, m.specs.regression.value)) ==>
              r.Ok?
    ensures r.Err? && !SelectionError(r.error) ==>
              && m.specs.regression.Some? && Scored(m.algolist, m.scores)
              && r.error.MissingEntry? && IsBest(m.algolist, m.scores, r.error.algo)
              && !old(HasArtifacts(m, r.error.algo, m.specs.regression.value))
              && CopyStopped(old(m.estimators), old(m.preds), old(m.probas), m.estimators, m.preds, m.probas,
                             r.error.algo, m.specs.regression.value, r.error)
    ensures r.Ok? ==>
              var w, regression := r.value, m.specs.regression.value;
              && Scored(m.algolist, m.scores) && IsBest(m.algolist, m.scores, w)
              && old(HasArtifacts(m, w, regression))
              && m.estimators == old(m.estimators)[BEST := old(m.estimators)[w]]
              && m.preds == old(m.preds)[(BEST, TRAIN) := old(m.preds)[(w, TRAIN)]]
                                        [(BEST, TEST) := old(m.preds)[(w, TEST)]]
              && m.probas == if regression then old(m.probas)
                             else old(m.probas)[(BEST, TRAIN) := old(m.probas)[(w, TRAIN)]]
                                               [(BEST, TEST) := old(m.probas)[(w, TEST)]]
    ensures AgreeExcept(old(m.estimators), m.estimators, {BEST})
    ensures AgreeExcept(old(m.preds), m.preds, {(BEST, TRAIN), (BEST, TEST)})
    ensures AgreeExcept(old(m.probas), m.probas, {(BEST, TRAIN), (BEST, TEST)})
  {
    if m.specs.regression.None? {
      return Err(MissingSpec("regression"));
    }
    var regression := m.specs.regression.value;
    var sel := SelectBest(m.algolist, m.scores);
    if sel.Err? {
      return sel;
    }
    r := CopyWinner(m, sel.value, regression);
  }
}
