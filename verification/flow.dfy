/** The validation tasks of the training pipeline and the start-up question
    "is a model registered yet". Validation never blocks the pipeline: it
    logs a verdict and hands the check results on unchanged. The strict and
    the soft variant of each task differ only in how loudly they log. */
module TrainingFlow {
  import opened Common
  import opened Registry
  import opened QualityCheck

  /** Strict tasks log problems as errors, soft tasks as warnings. */
  datatype Mode = Strict | Soft

  datatype Severity = Info | Warning | Error

  /** What calling a check did: returned a value, or raised. */
  datatype CheckCall<+R> = Returned(value: R) | Raised

  /** The verdict a task logs. */
  datatype Verdict<+K> = Validated | ChecksFailed(failed: seq<K>) | NoMetrics | Crashed

  /** What a task returns (`None` as `None`), its verdict, and the
      severities of its log lines in order. */
  datatype TaskRun<+R, +K> = TaskRun(returned: Option<R>, verdict: Verdict<K>, logs: seq<Severity>)

  /** The severity a task uses for problems. */
  function Alarm(mode: Mode): Severity {
    match mode
    case Strict => Error
    case Soft => Warning
  }

  /** `all(results.values())`. */
  predicate DataChecksPass(results: Entries<DataCheck, bool>) {
    forall i :: 0 <= i < |results| ==> results[i].1
  }

  /** `[k for k, v in results.items() if not v]`. */
  function FailedDataChecks(results: Entries<DataCheck, bool>): (failed: seq<DataCheck>)
    ensures forall k :: k in failed <==> exists i :: 0 <= i < |results| && results[i].0 == k && !results[i].1
  {
    var bad := (v: bool) => !v;
    assert forall k :: k in KeysWhere(results, bad) <==> exists i :: 0 <= i < |results| && results[i].0 == k && bad(results[i].1)
      by { forall k { KeysWhereMembers(results, bad, k); } }
    KeysWhere(results, bad)
  }

  /** `all(v for v in results.values() if v is not None)`: unknown results
      are skipped. */
  predicate ModelChecksPass(results: Entries<ModelCheck, Option<bool>>) {
    forall i :: 0 <= i < |results| && results[i].1.Some? ==> results[i].1.value
  }

  /** `[k for k, v in results.items() if v is False]`: unknown results are
      never listed. */
  function FailedModelChecks(results: Entries<ModelCheck, Option<bool>>): (failed: seq<ModelCheck>)
    ensures forall k :: k in failed <==> exists i :: 0 <= i < |results| && results[i].0 == k && results[i].1 == Some(false)
  {
    var bad := (v: Option<bool>) => v == Some(false);
    assert forall k :: k in KeysWhere(results, bad) <==> exists i :: 0 <= i < |results| && results[i].0 == k && bad(results[i].1)
      by { forall k { KeysWhereMembers(results, bad, k); } }
    KeysWhere(results, bad)
  }

  /** `validate_input_data` (strict) and `soft_validate_input_data` (soft).
      `call` is what `check_data` did. */
  function ValidateInputData(mode: Mode, call: CheckCall<Entries<DataCheck, bool>>): (r: TaskRun<Entries<DataCheck, bool>, DataCheck>)
    // non-blocking: the results are handed on whatever they say
    ensures call.Returned? ==> r.returned == Some(call.value)
    ensures call.Raised? ==> r.returned == None && r.verdict == Crashed
    ensures r.verdict == Validated <==> call.Returned? && DataChecksPass(call.value)
    ensures r.verdict.ChecksFailed? ==>
              call.Returned? && r.verdict.failed != [] && r.verdict.failed == FailedDataChecks(call.value)
    // failing results are always reported with their failed list
    ensures call.Returned? && !DataChecksPass(call.value) ==> r.verdict == ChecksFailed(FailedDataChecks(call.value))
    // a start line, then either a success line or an alarm and a closing warning
    ensures r.logs == if r.verdict == Validated then [Info, Info] else [Info, Alarm(mode), Warning]
  {
    match call
    case Raised => TaskRun(None, Crashed, [Info, Alarm(mode), Warning])
    case Returned(results) =>
      DataVerdictAgrees(results);
      if !DataChecksPass(results) then
        TaskRun(Some(results), ChecksFailed(FailedDataChecks(results)), [Info, Alarm(mode), Warning])
      else
        TaskRun(Some(results), Validated, [Info, Info])
  }

  /** The data verdict and the failed list agree: the checks pass exactly
      when no key is listed. */
  lemma DataVerdictAgrees(results: Entries<DataCheck, bool>)
    ensures DataChecksPass(results) <==> FailedDataChecks(results) == []
  {
    if !DataChecksPass(results) {
      var i :| 0 <= i < |results| && !results[i].1;
      assert results[i].0 in FailedDataChecks(results);
    }
    if FailedDataChecks(results) != [] {
      assert FailedDataChecks(results)[0] in FailedDataChecks(results);
    }
  }

  /** `validate_trained_model` (strict) and `soft_validate_trained_model`
      (soft). `call` is what `check_model` did; it returns None when it
      found no metrics. */
  function ValidateTrainedModel(mode: Mode, call: CheckCall<Option<Entries<ModelCheck, Option<bool>>>>): (r: TaskRun<Entries<ModelCheck, Option<bool>>, ModelCheck>)
    ensures call.Raised? ==> r.returned == None && r.verdict == Crashed
    ensures call == Returned(None) ==> r.returned == None && r.verdict == NoMetrics
    // non-blocking: the results are handed on whatever they say
    ensures call.Returned? && call.value.Some? ==> r.returned == call.value
    ensures r.verdict == Validated <==> call.Returned? && call.value.Some? && ModelChecksPass(call.value.value)
    ensures r.verdict.ChecksFailed? ==>
              call.Returned? && call.value.Some? && r.verdict.failed != []
              && r.verdict.failed == FailedModelChecks(call.value.value)
    // failing results are always reported with their failed list
    ensures call.Returned? && call.value.Some? && !ModelChecksPass(call.value.value) ==>
              r.verdict == ChecksFailed(FailedModelChecks(call.value.value))
    // a start line, then either a success line or an alarm and a closing warning
    ensures r.logs == if r.verdict == Validated then [Info, Info] else [Info, Alarm(mode), Warning]
  {
    match call
    case Raised => TaskRun(None, Crashed, [Info, Alarm(mode), Warning])
    case Returned(None) => TaskRun(None, NoMetrics, [Info, Alarm(mode), Warning])
    case Returned(Some(results)) =>
      ModelVerdictAgrees(results);
      if !ModelChecksPass(results) then
        TaskRun(Some(results), ChecksFailed(FailedModelChecks(results)), [Info, Alarm(mode), Warning])
      else
        TaskRun(Some(results), Validated, [Info, Info])
  }

  /** The model verdict and the failed list agree: the checks pass exactly
      when no key holds `False`. */
  lemma ModelVerdictAgrees(results: Entries<ModelCheck, Option<bool>>)
    ensures ModelChecksPass(results) <==> FailedModelChecks(results) == []
  {
    if !ModelChecksPass(results) {
      var i :| 0 <= i < |results| && results[i].1.Some? && !results[i].1.value;
      assert results[i].0 in FailedModelChecks(results);
    }
    if FailedModelChecks(results) != [] {
      assert FailedModelChecks(results)[0] in FailedModelChecks(results);
    }
  }

  /** A model whose run logged none of the metrics the gate knows passes it,
      whatever else it logged: both results are unknown, and unknown results
      are skipped. */
  lemma MissingMetricsPass(mode: Mode, search: SearchResponse, getRun: string -> Option<map<string, real>>, th: Thresholds)
    requires LatestRecord(search).Some?
    requires getRun(LatestRecord(search).value.runId).Some?
    requires forall k :: k in MaeKeys || k in LossKeys ==> k !in getRun(LatestRecord(search).value.runId).value
    ensures ValidateTrainedModel(mode, Returned(CheckModel(search, getRun, th))).verdict == Validated
  {
    var metrics := getRun(LatestRecord(search).value.runId).value;
    assert forall i :: 0 <= i < |MaeKeys| ==> MaeKeys[i] !in metrics;
    assert forall i :: 0 <= i < |LossKeys| ==> LossKeys[i] !in metrics;
    var results := CheckModel(search, getRun, th).value;
    assert results[0].1 == None && results[1].1 == None;
  }

  /** Strict and soft variants return the same value and reach the same
      verdict; their logs differ only where strict logs an error and soft a
      warning. */
  lemma ModesAgree(dataCall: CheckCall<Entries<DataCheck, bool>>,
                   modelCall: CheckCall<Option<Entries<ModelCheck, Option<bool>>>>)
    ensures var s := ValidateInputData(Strict, dataCall);
            var w := ValidateInputData(Soft, dataCall);
            && s.returned == w.returned && s.verdict == w.verdict && |s.logs| == |w.logs|
            && forall i :: 0 <= i < |s.logs| ==> s.logs[i] == w.logs[i] || (s.logs[i] == Error && w.logs[i] == Warning)
    ensures var s := ValidateTrainedModel(Strict, modelCall);
            var w := ValidateTrainedModel(Soft, modelCall);
            && s.returned == w.returned && s.verdict == w.verdict && |s.logs| == |w.logs|
            && forall i :: 0 <= i < |s.logs| ==> s.logs[i] == w.logs[i] || (s.logs[i] == Error && w.logs[i] == Warning)
  {
  }

  /** The failed list follows the order of the results: failures of an
      earlier part of the dict come before those of a later part. */
  lemma FailedChecksInOrder(a: Entries<DataCheck, bool>, b: Entries<DataCheck, bool>)
    ensures FailedDataChecks(a + b) == FailedDataChecks(a) + FailedDataChecks(b)
  {
    KeysWhereAppend(a, b, (v: bool) => !v);
  }

  /** `check_model_exists`: true exactly when the listing succeeds and is
      not empty, which is exactly when a latest version can be read. */
  function CheckModelExists(search: SearchResponse): (found: bool)
    ensures found <==> GetLatestModelVersion(search).Some?
  {
    match search
    case SearchFailed => false
    case Found(records) => |records| > 0
  }
}
