/** `save_results`: the file the probabilities of one (alias, partition)
    record go to, `<base_dir>/<project>/probas_<MMDDYY>.<extension>`, and the
    keys read on the way there. Writing the file is left to the caller. */
module Results {
  import Text
  import opened Store

  /** The three joiners of the globs module: SSEP between path components,
      USEP inside a file name, PSEP before the extension. */
  datatype Separators = Separators(ssep: string, usep: string, psep: string)

  /** What save_results hands to `np.savetxt`: the file, the rows, the delimiter. */
  datatype SaveRequest = SaveRequest(path: string, rows: Vector, delimiter: string)

  const PROBAS := "probas"

  predicate IsDigit(c: char) {
    '0' <= c <= '9'
  }

  function Digit(d: nat): (c: char)
    requires d < 10
    ensures IsDigit(c)
  {
    ('0' as int + d) as char
  }

  /** The number written by the two digits at s[i], s[i+1]. */
  function TwoDigitValue(s: string, i: nat): int
    requires i + 2 <= |s|
  {
    (s[i] as int - '0' as int) * 10 + (s[i + 1] as int - '0' as int)
  }

  function TwoDigits(n: nat): (s: string)
    requires n < 100
    ensures |s| == 2 && IsDigit(s[0]) && IsDigit(s[1])
    ensures TwoDigitValue(s, 0) == n
  {
    [Digit(n / 10), Digit(n % 10)]
  }

  /** `d.strftime("%m%d%y")`: zero-padded month, day and two-digit year.
      Reading the six digits back gives the month, the day and the year
      modulo 100. */
  function DateStamp(month: nat, day: nat, year: nat): (s: string)
    requires 1 <= month <= 12 && 1 <= day <= 31
    ensures |s| == 6 && forall i :: 0 <= i < 6 ==> IsDigit(s[i])
    ensures TwoDigitValue(s, 0) == month && TwoDigitValue(s, 2) == day && TwoDigitValue(s, 4) == year % 100
  {
    TwoDigits(month) + TwoDigits(day) + TwoDigits(year % 100)
  }

  /** The output path of the probabilities:
      SSEP.join([SSEP.join([base_dir, project]), PSEP.join([USEP.join(["probas", stamp]), extension])]). */
  function ProbasPath(baseDir: string, project: string, stamp: string, extension: string, seps: Separators)
    : (path: string)
    ensures path == baseDir + seps.ssep + project + seps.ssep + PROBAS + seps.usep + stamp + seps.psep + extension
  {
    var outputDir := Text.Join([baseDir, project], seps.ssep);
    var outputFile := Text.Join([PROBAS, stamp], seps.usep);
    var outputFile' := Text.Join([outputFile, extension], seps.psep);
    JoinPair(baseDir, project, seps.ssep);
    JoinPair(PROBAS, stamp, seps.usep);
    JoinPair(outputFile, extension, seps.psep);
    JoinPair(outputDir, outputFile', seps.ssep);
    Text.Join([outputDir, outputFile'], seps.ssep)
  }

  /** The file name inside the project directory: probas, USEP, the stamp, PSEP, the extension. */
  function ProbasFile(stamp: string, extension: string, seps: Separators): string {
    PROBAS + seps.usep + stamp + seps.psep + extension
  }

  lemma JoinPair(a: string, b: string, sep: string)
    ensures Text.Join([a, b], sep) == a + sep + b
  {
    assert [a, b][1..] == [b];
  }

  /** The path is the base directory, the project directory and the file name, joined by SSEP. */
  lemma ProbasPathLayout(baseDir: string, project: string, stamp: string, extension: string, seps: Separators)
    ensures ProbasPath(baseDir, project, stamp, extension, seps)
            == Text.Join([baseDir, project, ProbasFile(stamp, extension, seps)], seps.ssep)
  {
    var file := ProbasFile(stamp, extension, seps);
    var parts := [baseDir, project, file];
    assert parts[1..] == [project, file];
    assert parts[1..][1..] == [file];
    JoinPair(baseDir, project, seps.ssep);
    JoinPair(PROBAS, stamp, seps.usep);
    JoinPair(PROBAS + seps.usep + stamp, extension, seps.psep);
    JoinPair(baseDir + seps.ssep + project, file, seps.ssep);
  }

  /** With a one-character SSEP that occurs in none of the components,
      splitting the path on SSEP gives back the base directory, the project
      and the file name. */
  lemma ProbasPathComponents(baseDir: string, project: string, stamp: string, extension: string, seps: Separators)
    requires |seps.ssep| == 1
    requires seps.ssep[0] !in baseDir && seps.ssep[0] !in project
    requires seps.ssep[0] !in ProbasFile(stamp, extension, seps)
    ensures Text.Split(ProbasPath(baseDir, project, stamp, extension, seps), seps.ssep)
            == [baseDir, project, ProbasFile(stamp, extension, seps)]
  {
    var parts := [baseDir, project, ProbasFile(stamp, extension, seps)];
    ProbasPathLayout(baseDir, project, stamp, extension, seps);
    assert seps.ssep == [seps.ssep[0]];
    Text.SplitJoin(parts, seps.ssep[0]);
  }

  /** Files written on different days have different names: the path
      determines the date stamp among stamps of one length. */
  lemma ProbasPathDeterminesStamp(baseDir: string, project: string, extension: string, seps: Separators,
                                  stamp1: string, stamp2: string)
    requires |stamp1| == |stamp2|
    requires ProbasPath(baseDir, project, stamp1, extension, seps) == ProbasPath(baseDir, project, stamp2, extension, seps)
    ensures stamp1 == stamp2
  {
    var prefix := baseDir + seps.ssep + project + seps.ssep + PROBAS + seps.usep;
    var path1 := prefix + stamp1 + seps.psep + extension;
    var path2 := prefix + stamp2 + seps.psep + extension;
    assert ProbasPath(baseDir, project, stamp1, extension, seps) == path1;
    assert ProbasPath(baseDir, project, stamp2, extension, seps) == path2;
    assert path1[|prefix|..|prefix| + |stamp1|] == stamp1;
    assert path2[|prefix|..|prefix| + |stamp2|] == stamp2;
  }

  /** Files written on different days have different names: the path
      determines the month, the day and the year modulo 100 of the stamp. */
  lemma ProbasPathDeterminesDate(baseDir: string, project: string, extension: string, seps: Separators,
                                 month1: nat, day1: nat, year1: nat, month2: nat, day2: nat, year2: nat)
    requires 1 <= month1 <= 12 && 1 <= day1 <= 31 && 1 <= month2 <= 12 && 1 <= day2 <= 31
    requires ProbasPath(baseDir, project, DateStamp(month1, day1, year1), extension, seps)
             == ProbasPath(baseDir, project, DateStamp(month2, day2, year2), extension, seps)
    ensures month1 == month2 && day1 == day2 && year1 % 100 == year2 % 100
  {
    var stamp1, stamp2 := DateStamp(month1, day1, year1), DateStamp(month2, day2, year2);
    ProbasPathDeterminesStamp(baseDir, project, extension, seps, stamp1, stamp2);
  }

  /** The specs keys save_results reads after the two stores, in the order it
      reads them; the first missing one raises KeyError. */
  function MissingSaveSpec(specs: Specs): Option<Error> {
    if specs.baseDir.None? then Some(MissingSpec("base_dir"))
    else if specs.project.None? then Some(MissingSpec("project"))
    else if specs.extension.None? then Some(MissingSpec("extension"))
    else if specs.separator.None? then Some(MissingSpec("separator"))
    else if specs.regression.None? then Some(MissingSpec("regression"))
    else None
  }

  /** save_results(model, tag, partition) as written: the predictions and the
      probabilities of (tag, partition) are both looked up before the
      regression flag is read, then the specs keys; for classification the
      probabilities are saved under ProbasPath, for regression nothing is. */
  function SaveResultsAsWritten(m: Model, tag: string, partition: string, stamp: string, seps: Separators)
    : (r: Result<Option<SaveRequest>>)
    reads m
    ensures (tag, partition) !in m.preds ==> r == Err(MissingEntry("preds", tag, partition))
    ensures (tag, partition) in m.preds && (tag, partition) !in m.probas ==>
              r == Err(MissingEntry("probas", tag, partition))
    ensures (tag, partition) in m.preds && (tag, partition) in m.probas && MissingSaveSpec(m.specs).Some? ==>
              r == Err(MissingSaveSpec(m.specs).value)
    ensures r.Ok? <==> (tag, partition) in m.preds && (tag, partition) in m.probas && MissingSaveSpec(m.specs).None?
    ensures r.Ok? ==> (r.value.Some? <==> !m.specs.regression.value)
    ensures r.Ok? && r.value.Some? ==>
              r.value.value == SaveRequest(ProbasPath(m.specs.baseDir.value, m.specs.project.value, stamp,
                                                      m.specs.extension.value, seps),
                                           m.probas[(tag, partition)], m.specs.separator.value)
  {
    if (tag, partition) !in m.preds then Err(MissingEntry("preds", tag, partition))
    else if (tag, partition) !in m.probas then Err(MissingEntry("probas", tag, partition))
    else if MissingSaveSpec(m.specs).Some? then Err(MissingSaveSpec(m.specs).value)
    else
      var probas := m.probas[(tag, partition)];
      var specs := m.specs;
      if !specs.regression.value then
        Ok(Some(SaveRequest(ProbasPath(specs.baseDir.value, specs.project.value, stamp, specs.extension.value, seps),
                            probas, specs.separator.value)))
      else Ok(None)
  }

  /** A regression record never gets probabilities from predict_best or
      predict_blend, so for such a record save_results as written fails on
      the probabilities lookup instead of doing nothing. */
  lemma RegressionSaveFailsAsWritten(m: Model, tag: string, partition: string, stamp: string, seps: Separators)
    requires m.specs.regression == Some(true)
    requires (tag, partition) in m.preds && (tag, partition) !in m.probas
    ensures SaveResultsAsWritten(m, tag, partition, stamp, seps) == Err(MissingEntry("probas", tag, partition))
  {
  }

  /** save_results with the probabilities looked up only when they are
      saved: regression is the no-op the `if not regression` guard intends. */
  function SaveResults(m: Model, tag: string, partition: string, stamp: string, seps: Separators)
    : (r: Result<Option<SaveRequest>>)
    reads m
    ensures (tag, partition) !in m.preds ==> r == Err(MissingEntry("preds", tag, partition))
    ensures (tag, partition) in m.preds && MissingSaveSpec(m.specs).Some? ==> r == Err(MissingSaveSpec(m.specs).value)
    ensures r.Ok? <==> && (tag, partition) in m.preds && MissingSaveSpec(m.specs).None?
                       && (!m.specs.regression.value ==> (tag, partition) in m.probas)
    ensures r.Ok? ==> (r.value.Some? <==> !m.specs.regression.value)
    ensures r.Ok? && r.value.Some? ==>
              r.value.value == SaveRequest(ProbasPath(m.specs.baseDir.value, m.specs.project.value, stamp,
                                                      m.specs.extension.value, seps),
                                           m.probas[(tag, partition)], m.specs.separator.value)
  {
    if (tag, partition) !in m.preds then Err(MissingEntry("preds", tag, partition))
    else if MissingSaveSpec(m.specs).Some? then Err(MissingSaveSpec(m.specs).value)
    else
      var specs := m.specs;
      if specs.regression.value then Ok(None)
      else if (tag, partition) !in m.probas then Err(MissingEntry("probas", tag, partition))
      else
        Ok(Some(SaveRequest(ProbasPath(specs.baseDir.value, specs.project.value, stamp, specs.extension.value, seps),
                            m.probas[(tag, partition)], specs.separator.value)))
  }

  /** The corrected save agrees with the source wherever the source succeeds,
      and also succeeds, saving nothing, on a regression record without
      probabilities. */
  lemma SaveResultsRefines(m: Model, tag: string, partition: string, stamp: string, seps: Separators)
    ensures SaveResultsAsWritten(m, tag, partition, stamp, seps).Ok? ==>
              SaveResults(m, tag, partition, stamp, seps) == SaveResultsAsWritten(m, tag, partition, stamp, seps)
    ensures m.specs.regression == Some(true) && (tag, partition) in m.preds && MissingSaveSpec(m.specs).None? ==>
              SaveResults(m, tag, partition, stamp, seps) == Ok(None)
  {
  }
}
