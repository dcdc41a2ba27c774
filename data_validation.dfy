/**
  The data-validation component: schema conformance checks on the training and
  testing tables, the per-column Kolmogorov–Smirnov drift test with its report,
  and the fail-fast procedure that produces the validation artifact.
*/
module DataValidation {
  import opened Wrappers
  import opened Seqs
  import opened Tables

  /** The keys of the schema's "columns" mapping, in document order; mapping keys are unique. */
  type SchemaColumns = keys: seq<string> | Distinct(keys) witness []

  /** The threshold `detect_dataset_drift` is called with. */
  const DefaultThreshold: real := 0.05

  type Probability = p: real | 0.0 <= p <= 1.0

  /** `float(test_result.pvalue)`: a probability, or NaN. */
  datatype PValue = Finite(p: Probability) | NaN

  /** `p_value < threshold` on floats: a NaN p-value compares false. */
  predicate Drifts(p: PValue, threshold: real)
  {
    p.Finite? && p.p < threshold
  }

  /** What `ks_2samp(d1, d2)` does: yield a p-value or raise. */
  datatype KsOutcome = Computed(pValue: PValue) | Raised

  /** The two-sample KS test, an oracle over the two columns' values. */
  type KsTest = (seq<Cell>, seq<Cell>) -> KsOutcome

  /** One report entry: {"p_value": ..., "drift_status": ...}. */
  datatype DriftEntry = DriftEntry(pValue: PValue, driftStatus: bool)

  /** The report dict, keyed by column name. */
  type DriftReport = map<string, DriftEntry>

  /** The returned status together with the report that is written. */
  datatype DriftResult = DriftResult(status: bool, report: DriftReport)

  datatype Split = Training | Testing

  /** The exceptions the component raises (all wrapped by the caller into one exception type). */
  datatype ValidationError =
    | TableReadFailed(path: string)          // pd.read_csv raised
    | ColumnCountMismatch(split: Split)      // "Number of columns do not match schema for ... data."
    | RequiredColumnsMissing(split: Split)   // "Required columns missing in ... data."
    | ColumnNotFound(column: string)         // KeyError from df[column]
    | DriftTestFailed(column: string)        // ks_2samp raised on this column

  /** The message of the exception raised by each structural check of `initiate_data_validation`. */
  function ErrorMessage(e: ValidationError): (msg: string)
    requires e.ColumnCountMismatch? || e.RequiredColumnsMissing?
    ensures e == ColumnCountMismatch(Training) ==> msg == "Number of columns do not match schema for training data."
    ensures e == ColumnCountMismatch(Testing) ==> msg == "Number of columns do not match schema for testing data."
    ensures e == RequiredColumnsMissing(Training) ==> msg == "Required columns missing in training data."
    ensures e == RequiredColumnsMissing(Testing) ==> msg == "Required columns missing in testing data."
  {
    match e
    case ColumnCountMismatch(Training) => "Number of columns do not match schema for training data."
    case ColumnCountMismatch(Testing) => "Number of columns do not match schema for testing data."
    case RequiredColumnsMissing(Training) => "Required columns missing in training data."
    case RequiredColumnsMissing(Testing) => "Required columns missing in testing data."
  }

  /** Where the upstream ingestion stage left the two splits. */
  datatype DataIngestionArtifact = DataIngestionArtifact(trainedFilePath: string, testFilePath: string)

  /** Output locations of this stage. */
  datatype DataValidationConfig = DataValidationConfig(
    validTrainFilePath: string,
    validTestFilePath: string,
    driftReportFilePath: string)

  /** The record handed to the next pipeline stage. */
  datatype DataValidationArtifact = DataValidationArtifact(
    validationStatus: bool,
    validTrainFilePath: string,
    validTestFilePath: string,
    invalidTrainFilePath: Option<string>,
    invalidTestFilePath: Option<string>,
    driftReportFilePath: string)

  /** A file the component writes: the YAML drift report or a CSV copy of a table. */
  datatype FileWrite = WriteYaml(path: string, report: DriftReport) | WriteCsv(path: string, table: Table)

  /** The outcome of one iteration of the drift loop: a report entry, or the exception raised. */
  type ColumnOutcome = Result<DriftEntry, ValidationError>

  /**
    One iteration of the drift loop for column `name`: look the column up in
    both tables (KeyError if absent), run the KS test (which may raise), and
    record the p-value with drift flagged iff it is a number strictly below
    the threshold.
  */
  function ColumnTest(base: Table, current: Table, name: string, threshold: real, ks: KsTest): (r: ColumnOutcome)
    ensures r.Success? <==> name in Names(base) && name in Names(current)
                            && ks(Lookup(base, name).value, Lookup(current, name).value).Computed?
    ensures r.Success? ==> r.value.pValue == ks(Lookup(base, name).value, Lookup(current, name).value).pValue
    ensures r.Success? ==> (r.value.driftStatus <==> r.value.pValue.Finite? && r.value.pValue.p < threshold)
    ensures r.Failure? ==> r.error == if name in Names(base) && name in Names(current) then DriftTestFailed(name)
                                      else ColumnNotFound(name)
  {
    match Lookup(base, name)
    case None => Failure(ColumnNotFound(name))
    case Some(d1) =>
      match Lookup(current, name)
      case None => Failure(ColumnNotFound(name))
      case Some(d2) =>
        match ks(d1, d2)
        case Raised => Failure(DriftTestFailed(name))
        case Computed(p) => Success(DriftEntry(p, Drifts(p, threshold)))
  }

  /** ColumnTest with the tables, threshold and oracle fixed, as the loop applies it to each name. */
  function ColumnTests(base: Table, current: Table, threshold: real, ks: KsTest): string -> ColumnOutcome
  {
    name => ColumnTest(base, current, name, threshold, ks)
  }

  /**
    The drift loop run over `names` in order with the per-column step `test`:
    stop at the first column whose step raises; otherwise one report entry
    per name and a status that is cleared by any drifting column.
  */
  function DriftOver(names: seq<string>, test: string -> ColumnOutcome): Result<DriftResult, ValidationError>
    decreases |names|
  {
    if names == [] then Success(DriftResult(true, map[]))
    else
      var name := names[|names| - 1];
      match DriftOver(names[..|names| - 1], test)
      case Failure(e) => Failure(e)
      case Success(acc) =>
        match test(name)
        case Failure(e) => Failure(e)
        case Success(entry) => Success(DriftResult(acc.status && !entry.driftStatus, acc.report[name := entry]))
  }

  /** What `detect_dataset_drift(base, current, threshold)` computes: the status and the report it writes. */
  function Drift(base: Table, current: Table, threshold: real, ks: KsTest): Result<DriftResult, ValidationError>
  {
    DriftOver(Names(base), ColumnTests(base, current, threshold, ks))
  }

  /** The drift loop succeeds iff every column's step succeeds. */
  lemma {:induction false} DriftOverSucceedsIffAllColumnsPass(names: seq<string>, test: string -> ColumnOutcome)
    ensures DriftOver(names, test).Success? <==> forall i | 0 <= i < |names| :: test(names[i]).Success?
  {
    if names != [] {
      var last := |names| - 1;
      var init := names[..last];
      DriftOverSucceedsIffAllColumnsPass(init, test);
      assert forall i | 0 <= i < last :: names[i] == init[i];
    }
  }

  /** A failing drift loop fails with the error of the first column whose step fails. */
  lemma {:induction false} DriftOverFailsAtFirstFailingColumn(names: seq<string>, test: string -> ColumnOutcome)
    requires DriftOver(names, test).Failure?
    ensures exists i | 0 <= i < |names| ::
              && (forall j | 0 <= j < i :: test(names[j]).Success?)
              && test(names[i]) == Failure(DriftOver(names, test).error)
  {
    var last := |names| - 1;
    var init := names[..last];
    var prev := DriftOver(init, test);
    if prev.Failure? {
      DriftOverFailsAtFirstFailingColumn(init, test);
      var i :| 0 <= i < |init| && (forall j | 0 <= j < i :: test(init[j]).Success?) && test(init[i]) == Failure(prev.error);
      assert forall j | 0 <= j <= i :: names[j] == init[j];
    } else {
      DriftOverSucceedsIffAllColumnsPass(init, test);
      assert forall j | 0 <= j < last :: names[j] == init[j];
    }
  }

  /**
    A successful drift loop reports exactly one entry per name, each entry is
    that name's step result, and the status is true iff no entry drifts.
  */
  lemma {:induction false} DriftOverReport(names: seq<string>, test: string -> ColumnOutcome, d: DriftResult)
    requires DriftOver(names, test) == Success(d)
    ensures d.report.Keys == Elements(names)
    ensures forall c | c in d.report :: test(c) == Success(d.report[c])
    ensures d.status <==> forall c | c in d.report :: !d.report[c].driftStatus
  {
    if names != [] {
      var last := |names| - 1;
      var init := names[..last];
      var acc := DriftOver(init, test).value;
      var entry := test(names[last]).value;
      assert d == DriftResult(acc.status && !entry.driftStatus, acc.report[names[last] := entry]);
      DriftOverReport(init, test, acc);
      assert Elements(names) == Elements(init) + {names[last]} by {
        forall x | x in Elements(names) ensures x in Elements(init) + {names[last]} {
          var i :| 0 <= i < |names| && names[i] == x;
          if i < last { assert init[i] == x; }
        }
      }
    }
  }

  /** The loop over one more name: the step that DetectDatasetDrift's loop body takes. */
  lemma DriftOverStep(names: seq<string>, i: nat, test: string -> ColumnOutcome)
    requires i < |names|
    ensures DriftOver(names[..i + 1], test)
            == match DriftOver(names[..i], test)
               case Failure(e) => Failure(e)
               case Success(acc) =>
                 match test(names[i])
                 case Failure(e) => Failure(e)
                 case Success(entry) => Success(DriftResult(acc.status && !entry.driftStatus, acc.report[names[i] := entry]))
  {
    assert names[..i + 1][..i] == names[..i];
  }

  /** Once the loop has failed on a prefix of the names, the later names do not change the outcome. */
  lemma {:induction false} DriftOverStopsAtFailure(names: seq<string>, k: nat, test: string -> ColumnOutcome)
    requires k <= |names|
    requires DriftOver(names[..k], test).Failure?
    ensures DriftOver(names, test) == DriftOver(names[..k], test)
    decreases |names| - k
  {
    if k < |names| {
      var init := names[..|names| - 1];
      assert init[..k] == names[..k];
      DriftOverStopsAtFailure(init, k, test);
    } else {
      assert names[..k] == names;
    }
  }

  /**
    `detect_dataset_drift` finishes (and writes its report) iff every base
    column is also a column of the current table and no KS test raises.
  */
  lemma DriftSucceedsIff(base: Table, current: Table, threshold: real, ks: KsTest)
    ensures Drift(base, current, threshold, ks).Success? <==>
              forall name | name in Names(base) ::
                name in Names(current) && ks(Lookup(base, name).value, Lookup(current, name).value).Computed?
  {
    var names, columnTest := Names(base), ColumnTests(base, current, threshold, ks);
    DriftOverSucceedsIffAllColumnsPass(names, columnTest);
    forall name | name in names
      ensures columnTest(name).Success? <==>
                name in Names(current) && ks(Lookup(base, name).value, Lookup(current, name).value).Computed?
    {
      assert columnTest(name) == ColumnTest(base, current, name, threshold, ks);
    }
    assert (forall i | 0 <= i < |names| :: columnTest(names[i]).Success?)
       <==> (forall name | name in names :: columnTest(name).Success?);
  }

  /**
    The report written by `detect_dataset_drift` has exactly one entry per
    base column; each entry holds that column's KS p-value and has
    drift_status = p_value < threshold (strict, so a p-value equal to the
    threshold, or NaN, is not drift); the returned status is true iff no
    entry has drift_status set. With no columns the report is empty and the
    status true.
  */
  lemma DriftReportMatchesColumns(base: Table, current: Table, threshold: real, ks: KsTest)
    requires Drift(base, current, threshold, ks).Success?
    ensures var d := Drift(base, current, threshold, ks).value;
      && d.report.Keys == Elements(Names(base))
      && (forall c | c in d.report :: ColumnTest(base, current, c, threshold, ks) == Success(d.report[c]))
      && (forall c | c in d.report :: d.report[c].driftStatus <==> Drifts(d.report[c].pValue, threshold))
      && (d.status <==> forall c | c in d.report :: !d.report[c].driftStatus)
  {
    var d := Drift(base, current, threshold, ks).value;
    var columnTest := ColumnTests(base, current, threshold, ks);
    DriftOverReport(Names(base), columnTest, d);
    forall c | c in d.report
      ensures ColumnTest(base, current, c, threshold, ks) == Success(d.report[c])
    {
      assert columnTest(c) == ColumnTest(base, current, c, threshold, ks);
    }
  }

  /** The stage, holding what `__init__` stores: the ingestion artifact, the config and the loaded schema. */
  class DataValidation {
    const ingestion: DataIngestionArtifact
    const config: DataValidationConfig
    const schema: SchemaColumns

    constructor (ingestion: DataIngestionArtifact, config: DataValidationConfig, schema: SchemaColumns)
      ensures this.ingestion == ingestion && this.config == config && this.schema == schema
    {
      this.ingestion := ingestion;
      this.config := config;
      this.schema := schema;
    }

    /** `validate_number_of_columns`: compares counts only; names are not examined. */
    function ValidateNumberOfColumns(t: Table): (ok: bool)
      ensures ok <==> |Names(t)| == |schema|
    {
      |t.columns| == |schema|
    }

    /** `missing_columns`: the schema keys that are not table columns, in schema order. */
    function MissingColumns(t: Table): (missing: seq<string>)
      ensures forall c :: c in missing <==> c in schema && c !in Names(t)
      ensures Subsequence(missing, schema)
    {
      MissingFrom(schema, Names(t))
    }

    /**
      `validate_required_columns`: every schema key is a column name. Only
      membership matters, so column order and extra columns have no effect.
    */
    function ValidateRequiredColumns(t: Table): (ok: bool)
      ensures ok <==> forall c | c in schema :: c in Names(t)
    {
      var missing := MissingColumns(t);
      assert missing != [] ==> missing[0] in missing;
      missing == []
    }

    /**
      `detect_dataset_drift`: one KS test per base column in table order,
      the status cleared by any drifting column, and the report written to
      the configured path before the status is returned. A raising lookup or
      test aborts before anything is written.
    */
    method DetectDatasetDrift(base: Table, current: Table, threshold: real, ks: KsTest)
      returns (r: Result<bool, ValidationError>, writes: seq<FileWrite>)
      ensures Drift(base, current, threshold, ks).Failure? ==>
                r == Failure(Drift(base, current, threshold, ks).error) && writes == []
      ensures Drift(base, current, threshold, ks).Success? ==>
                r == Success(Drift(base, current, threshold, ks).value.status)
                && writes == [WriteYaml(config.driftReportFilePath, Drift(base, current, threshold, ks).value.report)]
      ensures r.Success? ==> writes[0].report.Keys == Elements(Names(base))
      ensures r.Success? ==> (r.value <==> forall c | c in writes[0].report :: !writes[0].report[c].driftStatus)
      ensures |base.columns| == 0 ==> r == Success(true) && writes == [WriteYaml(config.driftReportFilePath, map[])]
    {
      var status := true;
      var report: DriftReport := map[];
      ghost var names := Names(base);
      ghost var columnTest := ColumnTests(base, current, threshold, ks);
      for i := 0 to |base.columns|
        invariant DriftOver(names[..i], columnTest) == Success(DriftResult(status, report))
      {
        var column := base.columns[i].name;
        DriftOverStep(names, i, columnTest);
        assert columnTest(column) == ColumnTest(base, current, column, threshold, ks);
        var d1 := Lookup(base, column);
        var d2 := Lookup(current, column);
        if d1.None? || d2.None? {
          DriftOverStopsAtFailure(names, i + 1, columnTest);
          return Failure(ColumnNotFound(column)), [];
        }
        var testResult := ks(d1.value, d2.value);
        if testResult.Raised? {
          DriftOverStopsAtFailure(names, i + 1, columnTest);
          return Failure(DriftTestFailed(column)), [];
        }
        var pValue := testResult.pValue;
        var driftFound := pValue.Finite? && pValue.p < threshold;
        report := report[column := DriftEntry(pValue, driftFound)];
        if driftFound {
          status := false;
        }
      }
      assert names[..|base.columns|] == names;
      DriftOverReport(names, columnTest, DriftResult(status, report));
      return Success(status), [WriteYaml(config.driftReportFilePath, report)];
    }

    /**
      `initiate_data_validation`: read both tables, run the four structural
      checks in a fixed order (train count, test count, train required, test
      required) and raise on the first failure, then detect drift, copy both
      tables to their valid locations and return the artifact. Nothing is
      written on any failure.
    */
    method InitiateDataValidation(read: string -> Option<Table>, ks: KsTest)
      returns (r: Result<DataValidationArtifact, ValidationError>, writes: seq<FileWrite>)
      ensures r.Failure? ==> writes == []
      ensures r.Failure? ==> !r.error.ColumnNotFound?
      ensures read(ingestion.trainedFilePath).None? ==> r == Failure(TableReadFailed(ingestion.trainedFilePath))
      ensures read(ingestion.trainedFilePath).Some? && read(ingestion.testFilePath).None? ==>
                r == Failure(TableReadFailed(ingestion.testFilePath))
      ensures read(ingestion.trainedFilePath).Some? && read(ingestion.testFilePath).Some? ==>
                var train, test := read(ingestion.trainedFilePath).value, read(ingestion.testFilePath).value;
                && (!ValidateNumberOfColumns(train) ==> r == Failure(ColumnCountMismatch(Training)))
                && (ValidateNumberOfColumns(train) && !ValidateNumberOfColumns(test) ==>
                      r == Failure(ColumnCountMismatch(Testing)))
                && (ValidateNumberOfColumns(train) && ValidateNumberOfColumns(test) && !ValidateRequiredColumns(train) ==>
                      r == Failure(RequiredColumnsMissing(Training)))
                && (ValidateNumberOfColumns(train) && ValidateNumberOfColumns(test) && ValidateRequiredColumns(train)
                    && !ValidateRequiredColumns(test) ==>
                      r == Failure(RequiredColumnsMissing(Testing)))
                && (PassesStructuralChecks(train, test) ==>
                      match Drift(train, test, DefaultThreshold, ks)
                      case Failure(e) => r == Failure(e) && e.DriftTestFailed?
                      case Success(d) =>
                        && r == Success(DataValidationArtifact(d.status, config.validTrainFilePath, config.validTestFilePath,
                                                               None, None, config.driftReportFilePath))
                        && writes == [WriteYaml(config.driftReportFilePath, d.report),
                                      WriteCsv(config.validTrainFilePath, train),
                                      WriteCsv(config.validTestFilePath, test)])
      ensures r.Success? ==>
                && |writes| == 3 && writes[0].WriteYaml?
                && writes[0].report.Keys == Elements(schema)
                && (r.value.validationStatus <==> forall c | c in writes[0].report :: !writes[0].report[c].driftStatus)
    {
      var trainFilePath := ingestion.trainedFilePath;
      var testFilePath := ingestion.testFilePath;

      var trainRead := read(trainFilePath);
      if trainRead.None? {
        return Failure(TableReadFailed(trainFilePath)), [];
      }
      var testRead := read(testFilePath);
      if testRead.None? {
        return Failure(TableReadFailed(testFilePath)), [];
      }
      var train, test := trainRead.value, testRead.value;

      if !ValidateNumberOfColumns(train) {
        return Failure(ColumnCountMismatch(Training)), [];
      }
      if !ValidateNumberOfColumns(test) {
        return Failure(ColumnCountMismatch(Testing)), [];
      }
      if !ValidateRequiredColumns(train) {
        return Failure(RequiredColumnsMissing(Training)), [];
      }
      if !ValidateRequiredColumns(test) {
        return Failure(RequiredColumnsMissing(Testing)), [];
      }

      assert PassesStructuralChecks(train, test);
      var validationStatus, reportWrites := DetectDatasetDrift(train, test, DefaultThreshold, ks);
      if validationStatus.Failure? {
        DriftAfterStructuralChecks(this, train, test, DefaultThreshold, ks);
        return Failure(validationStatus.error), [];
      }
      ghost var drift := Drift(train, test, DefaultThreshold, ks);
      assert drift.Success? && reportWrites == [WriteYaml(config.driftReportFilePath, drift.value.report)];
      PassingTableMatchesSchema(this, train);

      writes := reportWrites + [WriteCsv(config.validTrainFilePath, train), WriteCsv(config.validTestFilePath, test)];
      r := Success(DataValidationArtifact(
        validationStatus.value,
        config.validTrainFilePath,
        config.validTestFilePath,
        None,
        None,
        config.driftReportFilePath));
    }

    /** Both tables pass all four structural checks. */
    predicate PassesStructuralChecks(train: Table, test: Table)
    {
      && ValidateNumberOfColumns(train) && ValidateNumberOfColumns(test)
      && ValidateRequiredColumns(train) && ValidateRequiredColumns(test)
    }
  }

  /** `missing_columns` over explicit key and column lists. */
  function MissingFrom(keys: seq<string>, columns: seq<string>): (missing: seq<string>)
    ensures forall c :: c in missing <==> c in keys && c !in columns
    ensures forall c :: multiset(missing)[c] == if c in columns then 0 else multiset(keys)[c]
    ensures Subsequence(missing, keys)
  {
    if keys == [] then []
    else
      var rest := MissingFrom(keys[1..], columns);
      assert forall c :: c in keys <==> c == keys[0] || c in keys[1..];
      assert keys == [keys[0]] + keys[1..];
      if keys[0] in columns then rest else [keys[0]] + rest
  }

  /**
    A table that passes both checks has exactly the schema's keys as its
    column set, and no repeated column name: the count check and the
    presence of every (distinct) key leave no room for anything else.
  */
  lemma PassingTableMatchesSchema(v: DataValidation, t: Table)
    requires v.ValidateNumberOfColumns(t) && v.ValidateRequiredColumns(t)
    ensures Elements(Names(t)) == Elements(v.schema)
    ensures Distinct(Names(t))
  {
    var names, keys := Names(t), v.schema;
    assert Elements(keys) <= Elements(names);
    ElementsCard(keys);
    ElementsCard(names);
    SubsetOfNoLargerIsEqual(Elements(keys), Elements(names));
  }

  /** When both tables pass the structural checks they have the same column set. */
  lemma PassingTablesShareColumns(v: DataValidation, train: Table, test: Table)
    requires v.PassesStructuralChecks(train, test)
    ensures forall c :: c in Names(train) <==> c in Names(test)
  {
    PassingTableMatchesSchema(v, train);
    PassingTableMatchesSchema(v, test);
    assert forall c :: c in Names(train) <==> c in Elements(Names(train));
    assert forall c :: c in Names(test) <==> c in Elements(Names(test));
  }

  /**
    After both tables pass the structural checks, every `current_df[column]`
    lookup in the drift loop succeeds, so the loop can fail only because a
    KS test raised.
  */
  lemma DriftAfterStructuralChecks(v: DataValidation, train: Table, test: Table, threshold: real, ks: KsTest)
    requires v.PassesStructuralChecks(train, test)
    requires Drift(train, test, threshold, ks).Failure?
    ensures Drift(train, test, threshold, ks).error.DriftTestFailed?
  {
    PassingTablesShareColumns(v, train, test);
    var names, columnTest := Names(train), ColumnTests(train, test, threshold, ks);
    DriftOverFailsAtFirstFailingColumn(names, columnTest);
    var i :| 0 <= i < |names| && columnTest(names[i]) == Failure(DriftOver(names, columnTest).error);
    assert columnTest(names[i]) == ColumnTest(train, test, names[i], threshold, ks);
  }
}
