/** The quality checks run by the training pipeline: rules over the input
    table, and a gate on the metrics of the latest registered model. The
    expectation library and the registry are oracles; what is modelled is
    which results are produced, which columns each rule ranges over, which
    version and which metric the gate reads, and the thresholds. */
module QualityCheck {
  import opened Common
  import opened Registry

  // ---------------------------------------------------------------------
  // Data check
  // ---------------------------------------------------------------------

  /** One expectation the data check asks of the table. */
  datatype Expectation =
    | RowCountAtLeast(min: int)
    | NotNull(column: string)
    | OfType(column: string, dtype: string)
    | MinAtLeast(column: string, min: int)
    | ValuesBetween(column: string, lo: int, hi: int)
    | ValuesInSet(column: string, values: seq<string>)

  /** The loaded table: its column names in file order, and whether each
      expectation holds of it (`.success`). */
  datatype Frame = Frame(columns: seq<string>, holds: Expectation -> bool)

  /** Columns checked for nulls: all but `type`. */
  function NullCheckedColumns(columns: seq<string>): (r: seq<string>)
    ensures forall c :: c in r <==> c in columns && c != "type"
  {
    Filter(columns, (c: string) => c != "type")
  }

  /** Columns expected to be numeric: all but `type` and `quality`. */
  function NumericColumns(columns: seq<string>): (r: seq<string>)
    ensures forall c :: c in r <==> c in columns && c != "type" && c != "quality"
  {
    Filter(columns, (c: string) => c != "type" && c != "quality")
  }

  /** Numeric columns expected to be non-negative: all but `pH`. */
  function NonNegativeColumns(columns: seq<string>): (r: seq<string>)
    ensures forall c :: c in r <==> c in columns && c != "type" && c != "quality" && c != "pH"
  {
    Filter(NumericColumns(columns), (c: string) => c != "pH")
  }

  predicate AllHold(columns: seq<string>, p: string -> bool) {
    forall c :: c in columns ==> p(c)
  }

  /** Check 1: the table has a row, and no column other than `type` has a
      null. */
  predicate NoNaNHolds(frame: Frame) {
    frame.holds(RowCountAtLeast(1))
    && AllHold(NullCheckedColumns(frame.columns), (c: string) => frame.holds(NotNull(c)))
  }

  /** Check 2: every column but `type` and `quality` is float64 or int64. */
  predicate NumericTypesHold(frame: Frame) {
    AllHold(NumericColumns(frame.columns),
            (c: string) => frame.holds(OfType(c, "float64")) || frame.holds(OfType(c, "int64")))
  }

  /** Check 3: every numeric column except `pH` has a minimum of at least 0. */
  predicate NonNegativeHolds(frame: Frame) {
    AllHold(NonNegativeColumns(frame.columns), (c: string) => frame.holds(MinAtLeast(c, 0)))
  }

  /** What the three column-wise checks ask of the table, column by column. */
  lemma ColumnChecksMean(frame: Frame)
    ensures NoNaNHolds(frame) <==>
              frame.holds(RowCountAtLeast(1)) && forall c :: c in frame.columns && c != "type" ==> frame.holds(NotNull(c))
    ensures NumericTypesHold(frame) <==>
              forall c :: c in frame.columns && c != "type" && c != "quality" ==>
                frame.holds(OfType(c, "float64")) || frame.holds(OfType(c, "int64"))
    ensures NonNegativeHolds(frame) <==>
              forall c :: c in frame.columns && c != "type" && c != "quality" && c != "pH" ==> frame.holds(MinAtLeast(c, 0))
  {
  }

  /** The names of the data checks. */
  datatype DataCheck =
    | NoNaN | NoStringsInNumericColumns | NoNegativeValues | ValidPHRange | AlcoholRange
    | ValidWineType | ValidQualityRange
  {
    /** The key the check's result is stored under. */
    function Key(): string {
      match this
      case NoNaN => "no_NaN"
      case NoStringsInNumericColumns => "no_strings_in_numeric_columns"
      case NoNegativeValues => "no_negative_values"
      case ValidPHRange => "valid_pH_range"
      case AlcoholRange => "alcohol_range"
      case ValidWineType => "valid_wine_type"
      case ValidQualityRange => "valid_quality_range"
    }
  }

  /** Checks `check_data` always runs, in order. */
  const AlwaysChecked: seq<DataCheck> := [NoNaN, NoStringsInNumericColumns, NoNegativeValues, ValidPHRange, AlcoholRange]

  /** The results of the checks `check_data` always runs, in order. */
  function AlwaysResults(frame: Frame): (r: Entries<DataCheck, bool>)
    ensures |r| == 5 && Keys(r) == AlwaysChecked
  {
    [(NoNaN, NoNaNHolds(frame)),
     (NoStringsInNumericColumns, NumericTypesHold(frame)),
     (NoNegativeValues, NonNegativeHolds(frame)),
     (ValidPHRange, frame.holds(ValuesBetween("pH", 0, 14))),
     (AlcoholRange, frame.holds(ValuesBetween("alcohol", 0, 20)))]
  }

  /** What each unconditional result says about the table, column by column. */
  lemma AlwaysResultsMean(frame: Frame)
    ensures var r := AlwaysResults(frame);
            // no_NaN: at least one row, and no nulls outside `type`
            && (r[0].1 <==> frame.holds(RowCountAtLeast(1))
                            && forall c :: c in frame.columns && c != "type" ==> frame.holds(NotNull(c)))
            // no_strings_in_numeric_columns: every column but `type` and `quality` is float64 or int64
            && (r[1].1 <==> forall c :: c in frame.columns && c != "type" && c != "quality" ==>
                                          frame.holds(OfType(c, "float64")) || frame.holds(OfType(c, "int64")))
            // no_negative_values: the same columns except `pH` have minimum at least 0
            && (r[2].1 <==> forall c :: c in frame.columns && c != "type" && c != "quality" && c != "pH" ==>
                                          frame.holds(MinAtLeast(c, 0)))
            && r[3].1 == frame.holds(ValuesBetween("pH", 0, 14))
            && r[4].1 == frame.holds(ValuesBetween("alcohol", 0, 20))
  {
    var r := AlwaysResults(frame);
    assert r[0].1 == NoNaNHolds(frame) && r[1].1 == NumericTypesHold(frame) && r[2].1 == NonNegativeHolds(frame);
    ColumnChecksMean(frame);
  }

  /** `check_data`: the checks of `AlwaysChecked`, then `valid_wine_type`
      when the table has a `type` column and `valid_quality_range` when it
      has a `quality` column, in that order. */
  function CheckData(frame: Frame): (r: Entries<DataCheck, bool>)
    ensures |r| == 5 + (if "type" in frame.columns then 1 else 0) + (if "quality" in frame.columns then 1 else 0)
    ensures r[..5] == AlwaysResults(frame)
    ensures HasKey(r, ValidWineType) <==> "type" in frame.columns
    ensures HasKey(r, ValidQualityRange) <==> "quality" in frame.columns
    ensures "type" in frame.columns ==>
              r[5] == (ValidWineType, frame.holds(ValuesInSet("type", ["red", "white"])))
    ensures "quality" in frame.columns ==>
              r[|r| - 1] == (ValidQualityRange, frame.holds(ValuesBetween("quality", 0, 10)))
  {
    var base := AlwaysResults(frame);
    var typeCheck := if "type" in frame.columns then [(ValidWineType, frame.holds(ValuesInSet("type", ["red", "white"])))] else [];
    var qualityCheck := if "quality" in frame.columns then [(ValidQualityRange, frame.holds(ValuesBetween("quality", 0, 10)))] else [];
    OptionalKeys(base, typeCheck, qualityCheck);
    base + typeCheck + qualityCheck
  }

  /** Which checks the optional parts add, and where. */
  lemma OptionalKeys(base: Entries<DataCheck, bool>, typeCheck: Entries<DataCheck, bool>, qualityCheck: Entries<DataCheck, bool>)
    requires Keys(base) == AlwaysChecked
    requires |typeCheck| <= 1 && |qualityCheck| <= 1
    requires forall i :: 0 <= i < |typeCheck| ==> typeCheck[i].0 == ValidWineType
    requires forall i :: 0 <= i < |qualityCheck| ==> qualityCheck[i].0 == ValidQualityRange
    ensures |base + typeCheck + qualityCheck| == 5 + |typeCheck| + |qualityCheck|
    ensures (base + typeCheck + qualityCheck)[..5] == base
    ensures |typeCheck| == 1 ==> (base + typeCheck + qualityCheck)[5] == typeCheck[0]
    ensures |qualityCheck| == 1 ==> (base + typeCheck + qualityCheck)[5 + |typeCheck|] == qualityCheck[0]
    ensures HasKey(base + typeCheck + qualityCheck, ValidWineType) <==> |typeCheck| == 1
    ensures HasKey(base + typeCheck + qualityCheck, ValidQualityRange) <==> |qualityCheck| == 1
  {
    var r := base + typeCheck + qualityCheck;
    assert r[..5] == base;
    assert forall i :: 0 <= i < 5 ==> r[i] == base[i];
    assert forall i :: 5 <= i < 5 + |typeCheck| ==> r[i] == typeCheck[i - 5];
    assert forall i :: 5 + |typeCheck| <= i < |r| ==> r[i] == qualityCheck[i - 5 - |typeCheck|];
    if |typeCheck| == 1 {
      assert r[5].0 == ValidWineType;
    }
    if |qualityCheck| == 1 {
      assert r[|r| - 1].0 == ValidQualityRange;
    }
  }

  // ---------------------------------------------------------------------
  // Model check
  // ---------------------------------------------------------------------

  /** Acceptance bounds, both inclusive (`MIN_MAE`, `MAX_LOSS`). */
  datatype Thresholds = Thresholds(minMae: real, maxLoss: real)

  /** The defaults used when the environment does not set them. */
  const DefaultThresholds := Thresholds(0.75, 0.80)

  /** Metric names tried for the mean absolute error, in priority order. */
  const MaeKeys: seq<string> := ["mean_absolute_error", "test_mae", "val_mae", "mae"]

  /** Metric names tried for the loss, in priority order. */
  const LossKeys: seq<string> := ["loss", "test_loss", "val_loss"]

  /** `keys[i]` is the first of `keys` that `metrics` has. */
  predicate FirstPresentAt(metrics: map<string, real>, keys: seq<string>, i: int) {
    && 0 <= i < |keys|
    && keys[i] in metrics
    && forall j :: 0 <= j < i ==> keys[j] !in metrics
  }

  /** The value of the first of `keys` present in `metrics`. */
  function FirstPresent(metrics: map<string, real>, keys: seq<string>): (r: Option<real>)
    ensures r.None? <==> forall i :: 0 <= i < |keys| ==> keys[i] !in metrics
    ensures r.Some? ==> exists i :: FirstPresentAt(metrics, keys, i) && r.value == metrics[keys[i]]
  {
    if |keys| == 0 then None
    else if keys[0] in metrics then
      assert FirstPresentAt(metrics, keys, 0);
      Some(metrics[keys[0]])
    else
      var r := FirstPresent(metrics, keys[1..]);
      if r.Some? then
        var i :| FirstPresentAt(metrics, keys[1..], i) && r.value == metrics[keys[1..][i]];
        assert FirstPresentAt(metrics, keys, i + 1);
        r
      else
        r
  }

  /** The names of the model checks. */
  datatype ModelCheck = MaeOk | LossOk {
    function Key(): string {
      match this
      case MaeOk => "mae_ok"
      case LossOk => "loss_ok"
    }
  }

  /** The tri-state verdict on one metric: unknown when absent, otherwise
      whether it is within the inclusive upper bound. */
  function AtMost(value: Option<real>, bound: real): Option<bool> {
    match value
    case None => None
    case Some(x) => Some(x <= bound)
  }

  /** The tri-state verdict that `keys` and `bound` give on `metrics`:
      unknown when none of the keys is present, otherwise whether the value
      of the first present one is at most `bound`. */
  predicate VerdictOn(metrics: map<string, real>, keys: seq<string>, bound: real, ok: Option<bool>) {
    && (ok.None? <==> forall i :: 0 <= i < |keys| ==> keys[i] !in metrics)
    && forall i :: 0 <= i < |keys| && FirstPresentAt(metrics, keys, i) ==> ok == Some(metrics[keys[i]] <= bound)
  }

  /** `check_model`. `getRun(runId)` is the metric dict logged by that run,
      None when fetching it raises. None is returned when nothing is
      registered or any registry call raises; otherwise exactly `mae_ok`
      and `loss_ok`, read from the run of the latest version. */
  function CheckModel(search: SearchResponse, getRun: string -> Option<map<string, real>>, th: Thresholds): (r: Option<Entries<ModelCheck, Option<bool>>>)
    ensures search.SearchFailed? || |search.records| == 0 ==> r.None?
    ensures r.Some? <==> LatestRecord(search).Some? && getRun(LatestRecord(search).value.runId).Some?
    ensures r.Some? ==>
              && Keys(r.value) == [MaeOk, LossOk]
              && var metrics := getRun(LatestRecord(search).value.runId).value;
                 && VerdictOn(metrics, MaeKeys, th.minMae, r.value[0].1)
                 && VerdictOn(metrics, LossKeys, th.maxLoss, r.value[1].1)
  {
    match LatestRecord(search)
    case None => None
    case Some(latest) =>
      match getRun(latest.runId)
      case None => None
      case Some(metrics) =>
        var mae := FirstPresent(metrics, MaeKeys);
        var loss := FirstPresent(metrics, LossKeys);
        assert forall i, j :: FirstPresentAt(metrics, MaeKeys, i) && FirstPresentAt(metrics, MaeKeys, j) ==> i == j;
        assert forall i, j :: FirstPresentAt(metrics, LossKeys, i) && FirstPresentAt(metrics, LossKeys, j) ==> i == j;
        Some([(MaeOk, AtMost(mae, th.minMae)), (LossOk, AtMost(loss, th.maxLoss))])
  }

  /** The metric priority: a run that logs both `test_mae` and `mae` is
      judged by `test_mae` alone. */
  lemma MaePriorityExample(search: SearchResponse, getRun: string -> Option<map<string, real>>)
    requires LatestRecord(search).Some?
    requires getRun(LatestRecord(search).value.runId) == Some(map["test_mae" := 0.9, "mae" := 0.1])
    ensures CheckModel(search, getRun, DefaultThresholds) == Some([(MaeOk, Some(false)), (LossOk, None)])
  {
    var metrics := map["test_mae" := 0.9, "mae" := 0.1];
    assert "mean_absolute_error" !in metrics && "test_mae" in metrics;
    assert FirstPresent(metrics, MaeKeys) == Some(0.9);
    assert "loss" !in metrics && "test_loss" !in metrics && "val_loss" !in metrics;
    assert FirstPresent(metrics, LossKeys) == None;
  }
}
