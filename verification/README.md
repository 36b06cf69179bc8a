# Wine quality serving and training gates, modelled in Dafny

This project models the decision logic of a small MLOps system with two parts.

- **Serving API** (`api/app.py`): a FastAPI service that holds one Keras model taken from an MLflow model registry. It loads the model at startup in at most five attempts (at most four retries). Before every prediction it checks whether the registry's latest version differs from the one it holds, older or newer, and loads it if so. It also offers a forced reload, plus health and info reports.
- **Training pipeline** (`pipeline/`): a Prefect flow with quality gates. A data check builds a dict of named results over the input table. A model check reads the latest registered version's metrics and compares them with inclusive thresholds. Strict and soft validation tasks log a verdict and a list of failed checks without ever stopping the pipeline.

The model is functional throughout. The serving slot (`model` / `current_model_version`) is the datatype `Serving.ServingState`: `Unloaded`, or `Active(artifact, version)`. Every endpoint is a pure function of the slot, the request and what the registry answers. The endpoints that can change the slot (startup, the update check inside `/predict`, `/predict` itself and `/model/reload`) return the new slot, the response and the list of registry calls they made (`Search` for a version listing, `Fetch(v)` for a load). From that call list the contracts can state "no load was made" and "exactly k listings were made". `/health` and `/model/info` only read the slot and return a report; they return neither a slot nor a call list. The `get_model_version` lookup of `/model/info` (api/app.py:149) is the oracle `details` passed to `Serving.GetModelInfo`, and it is not recorded as a call. The registry is an oracle value `Registry.Probe`: a listing answer, and for each version either a loaded artifact or a failure. The startup hook gets one probe per attempt. The expectation library, the run-metrics lookup and the artifact's `predict` are oracles passed as parameters as well. Python dicts are sequences of key/value pairs in insertion order (`Common.Entries`). Their keys are enumerations whose `Key()` gives the source's string.

The modules follow the source files. `Registry` holds the "latest version" rule (`max` by integer value, so the first maximum in list order wins), which `api/app.py` and `pipeline/data_quality_check.py` both use. `Serving` covers `api/app.py`, `QualityCheck` covers `pipeline/data_quality_check.py`, and `TrainingFlow` covers the validation tasks and `check_model_exists` of `pipeline/wine_quality_flow.py`.

`/model/reload` raises a 404 when nothing is registered (api/app.py:216). It raises it inside the `try` whose generic `except Exception` (api/app.py:228-229) turns every exception into a 500. So `Serving.ReloadModel` answers 500 (cause `NoModelFound`) in that case, not 404.

## Model

| member | source | states |
|---|---|---|
| Registry.LatestIndex | api/app.py:31 | The index chosen holds a greatest version, and every earlier record has a strictly smaller version: it is the first maximum, as Python's `max` returns |
| Registry.LatestRecord | pipeline/data_quality_check.py:80-88 | No record exactly when the listing failed or is empty, which is when check_model gives up before reading a run |
| Registry.LatestRecordIsLatest | pipeline/data_quality_check.py:80-88 | A record that is reported sits at a first-maximum index of the listing; its `run_id` is what the model check reads |
| Registry.GetLatestModelVersion | api/app.py:22-36 | None exactly when the listing raises or is empty; the error is never passed on |
| Registry.LatestVersionIsMax | api/app.py:22-36 | A version that is reported occurs in the listing and is at least every listed version |
| Registry.LatestVersionOrderIndependent | api/app.py:31 | Two listings with the same records in any order report the same latest version |
| Registry.LatestBelow | api/app.py:31 | For two orderings of the same non-empty listing, the latest version of the first is at most that of the second |
| Serving.TryLoad | api/app.py:52-70 | One startup attempt makes exactly one listing. It fills the slot exactly when a version is reported and its load succeeds, and then installs that artifact with that version. Its calls are a listing, plus a load of the reported version when there is one |
| Serving.Startup | api/app.py:39-78 | Never fails and makes between 1 and 5 listings. The slot ends up filled exactly when some attempt below 5 succeeds. Then it holds the first successful attempt's artifact and version together, after exactly k+1 listings for first success at attempt k. When no attempt succeeds the slot stays empty after all 5 listings |
| Serving.FirstSuccessIndexIsFirst | api/app.py:48-78 | The attempt the loop stops at is the first later attempt that succeeds; when it reaches the limit, no attempt from there on succeeds |
| Serving.StartupFromCalls | api/app.py:52-70 | From any attempt, the loop makes exactly the calls of the attempts up to the one it stops at (the first success, or the last attempt), each a listing followed by at most one load of the version that listing reported, and no call after that |
| Serving.StartupCalls | api/app.py:48-78 | `load_model`'s calls are exactly those of attempts 0 through the first successful one (or through the fifth), in order: no load of an unreported version, no extra load, nothing after the successful load. A successful startup's last call is the load of the version it holds |
| Serving.StartupFromIndex | api/app.py:48-78 | The retry loop from any attempt ends at the first later success, with one listing per attempt made, or gives up empty after the last attempt |
| Serving.CheckForModelUpdate | api/app.py:81-102 | Exactly one listing. With no reported version, or the held version reported, it returns false and changes nothing, with no load. A reported version the slot does not hold (absent, older or newer, since it compares with `!=`) is always loaded. It returns true exactly when that load succeeds, and then installs that artifact and version together. Otherwise the slot is unchanged |
| Serving.UpdateIdempotent | api/app.py:85-102 | A second update check against the same registry answer reports no update and leaves the slot as the first check left it |
| Serving.UpdateFollowsOlderLatest | api/app.py:91-97 | Holding version 2 while the registry reports only version 1 still triggers a swap to version 1 |
| Serving.EncodeWineType | api/app.py:179 | The code is 0 or 1, and it is 0 exactly when the type is "red" in any mix of letter cases |
| Serving.LowerIsRed | api/app.py:179 | Lower-casing a string gives "red" exactly when it is three letters r/R, e/E, d/D |
| Serving.InputVector | api/app.py:182-189 | The row has exactly 12 entries. Entry i is the request's value for schema column i, in the order type, fixed_acidity, …, alcohol, with the type encoded |
| Serving.Predict | api/app.py:165-204 | On an empty slot: 503, no registry call, slot unchanged. Otherwise the update check runs first and its effect on the slot stands. The slot stays filled. The answer is a success exactly when the artifact held after the check scores the encoded row, and any failure is a 500. A success reports `model_updated` equal to the check's result, `model_version` equal to the version held after the check, the request's wine type, and the artifact's score for the encoded row |
| Serving.ReloadModel | api/app.py:207-229 | Exactly one listing, followed by exactly one load, of the reported version, when one is reported; no other registry call. Every failure is a 500 and leaves the slot unchanged. With nothing registered the answer is 500 (the inner 404 is swallowed) and no load is made. The reported version is loaded even when the slot already holds it. Success happens exactly when the load succeeds; it installs that artifact and version and reports that version |
| Serving.HealthCheck | api/app.py:130-138 | Never fails and always says "healthy". It reports `model_loaded` exactly when the slot is filled, and the held version exactly then |
| Serving.GetModelInfo | api/app.py:141-162 | 503 when the slot is empty; 500 when the registry lookup of the held version raises. A filled slot whose lookup succeeds always answers with a report: the held version with the registry's run id, status and timestamp for it |
| Serving.Step | api/app.py:165-229 | Serving one request either leaves the slot as it was or installs exactly the artifact and version of a successful registry answer. It never empties a filled slot |
| Serving.RunKeepsLoaded | api/app.py:165-229 | Once the slot is filled, no sequence of requests empties it |
| Serving.RunInstallsWholeAnswers | api/app.py:92-95 | When requests are served one at a time, after any sequence of them the slot is the starting slot, or the artifact and version of one successful registry answer seen along the way, never a mix of two |
| Serving.EmptyRegistryScenario | api/app.py:54-58 | With nothing registered: startup gives up after 5 listings, health reports no model, `/predict` answers 503 and `/model/reload` answers 500 |
| Serving.UpgradeScenario | api/app.py:176-198 | Version 1 is served from startup. Once version 2 is published, the first prediction swaps to it and reports `model_updated`; the second reports version 2 without an update |
| Common.KeysWhereMembers | pipeline/wine_quality_flow.py:22 | A key is in the comprehension's list exactly when some entry under it holds a value the filter selects |
| Common.KeysWhereAppend | pipeline/wine_quality_flow.py:22 | The list follows dict order: the selected keys of a concatenation are those of the first part followed by those of the second |
| Common.Filter | pipeline/data_quality_check.py:29 | The list comprehension keeps exactly the elements that satisfy the condition, and never more elements than it started with |
| QualityCheck.NullCheckedColumns | pipeline/data_quality_check.py:23-26 | The null rule ranges over exactly the columns other than `type` |
| QualityCheck.NumericColumns | pipeline/data_quality_check.py:29 | The numeric columns are exactly the columns other than `type` and `quality` |
| QualityCheck.NonNegativeColumns | pipeline/data_quality_check.py:37-40 | The non-negativity rule ranges over exactly the numeric columns other than `pH` |
| QualityCheck.ColumnChecksMean | pipeline/data_quality_check.py:20-40 | `no_NaN` holds exactly when the table has a row and no column but `type` has nulls. The type check holds exactly when every numeric column is float64 or int64. The non-negativity check holds exactly when every numeric column but `pH` has minimum ≥ 0 |
| QualityCheck.AlwaysResultsMean | pipeline/data_quality_check.py:20-50 | What each unconditional result says about the table. `no_NaN`: at least one row, and no nulls in any column but `type`. `no_strings_in_numeric_columns`: every column but `type` and `quality` is float64 or int64. `no_negative_values`: the same columns except `pH` have minimum ≥ 0. `valid_pH_range`: pH in [0, 14]. `alcohol_range`: alcohol in [0, 20] |
| QualityCheck.CheckData | pipeline/data_quality_check.py:13-69 | The five unconditional results come first, in source order (`no_NaN`, `no_strings_in_numeric_columns`, `no_negative_values`, `valid_pH_range`, `alcohol_range`). `valid_wine_type` is present exactly when a `type` column exists, comes sixth, and tests the set {red, white}. `valid_quality_range` is present exactly when a `quality` column exists, comes last, and tests [0, 10]. Nothing else is added |
| QualityCheck.OptionalKeys | pipeline/data_quality_check.py:52-62 | Appending the optional entries keeps the base in front. An optional key is present exactly when its entry was appended, at the position it was appended |
| QualityCheck.FirstPresent | pipeline/data_quality_check.py:104-109 | The search finds nothing exactly when no key of the priority list is a metric. Otherwise it returns the value of the first listed key that is present |
| QualityCheck.CheckModel | pipeline/data_quality_check.py:72-146 | None when nothing is registered, the listing raises or the run lookup raises; a result exactly when both succeed. The result has exactly the keys `mae_ok` and `loss_ok`, read from the run of the latest version. Each is unknown (None) when none of its priority keys is present, and otherwise says whether the first present value is at most the inclusive threshold |
| QualityCheck.MaePriorityExample | pipeline/data_quality_check.py:104-115 | A run logging `test_mae` = 0.9 and `mae` = 0.1 is judged by `test_mae` alone and fails the default 0.75 bound; with no loss metric, `loss_ok` is unknown |
| TrainingFlow.FailedDataChecks | pipeline/wine_quality_flow.py:22 | A key is listed as failed exactly when its data check result is false |
| TrainingFlow.FailedModelChecks | pipeline/wine_quality_flow.py:48 | A key is listed as failed exactly when its model check result is `False`; unknown results are never listed |
| TrainingFlow.ValidateInputData | pipeline/wine_quality_flow.py:13-32 | The results are returned unchanged whatever they say; an exception gives None. The verdict is "validated" exactly when every result is true. Results that fail always give the failure verdict carrying the failed list in dict order, which is non-empty. Every failure or exception is logged at the mode's alarm level. The log is a start line and a success line when validated, and otherwise a start line, an alarm at the mode's level and a closing warning |
| TrainingFlow.ValidateTrainedModel | pipeline/wine_quality_flow.py:34-58 | A None from the model check, or an exception, gives None. Otherwise the results are returned unchanged. The verdict is "validated" exactly when every non-None result is true. Results that fail always give the failure verdict carrying the non-empty list of keys that are `False`. The log is a start line and a success line when validated, and otherwise a start line, an alarm at the mode's level and a closing warning |
| TrainingFlow.DataVerdictAgrees | pipeline/wine_quality_flow.py:21-22 | The data checks pass exactly when the failed list is empty |
| TrainingFlow.ModelVerdictAgrees | pipeline/wine_quality_flow.py:47-48 | The model checks pass exactly when the list of `False` keys is empty |
| TrainingFlow.MissingMetricsPass | pipeline/wine_quality_flow.py:47 | A registered model whose run logged none of the known metrics (whatever else it logged) passes the model gate, because both results are unknown and unknown results are skipped |
| TrainingFlow.ModesAgree | pipeline/wine_quality_flow.py:14-105 | The strict and soft variants of each task return the same value and reach the same verdict. Their logs have the same length and differ only where strict logs an error and soft a warning |
| TrainingFlow.FailedChecksInOrder | pipeline/wine_quality_flow.py:22 | The failed list of a concatenation of results is the failed list of the first part followed by that of the second |
| TrainingFlow.CheckModelExists | pipeline/wine_quality_flow.py:108-118 | True exactly when the listing succeeds and names at least one version, which is exactly when a latest version can be read; false on any error |

## Left out

- Concurrency: the source writes `model` and `current_model_version` in two statements with no lock (api/app.py:94-95, 220-221). Each transition here is one sequential step, and nothing is claimed about concurrent requests.
- The five-second pause between startup attempts (`time.sleep`) is left out, since only the number and order of attempts matter here.
- Serving.Predict: the artifact's float output and its `int(round(...))` class are one opaque score from an oracle. Float arithmetic and half-to-even rounding are not modelled.
- Version numbers are held as integers. The source keeps MLflow's decimal strings and compares them with `!=`, which agrees for the canonical strings MLflow issues. A version string that `int()` rejects is left out.
- Serving.EncodeWineType: only ASCII case folding is modelled. No non-ASCII character lower-cases to `r`, `e` or `d`, so the comparison with "red" comes out the same.
- Feature values and metric values are reals, and the thresholds 0.75 and 0.80 stand for the nearest doubles.
- QualityCheck.CheckData: the semantics of each great_expectations expectation is an uninterpreted predicate on the table. The model fixes which expectations are asked, over which columns, under which keys and in which order, but not what they compute. An exception raised inside `check_data` is the `Raised` input of `TrainingFlow.ValidateInputData`.
- QualityCheck.CheckModel: any exception in the registry or the run lookup is modelled as a failed listing or a `None` run. An exception while printing metrics is not modelled.
- Printing and logger text, FastAPI/pydantic plumbing, and the `model_name` fields of the responses. The validation tasks keep only the severities of their log lines.
- The `/` endpoint (`read_root`) returns constant text and is left out.
- Training, preprocessing, the train/test split, data loading and configuration (pipeline/model_training.py, pipeline/preprocessing.py, pipeline/train_test_split.py, pipeline/load_data.py, pipeline/model_creation.py, pipeline/config.py) are wrappers over Keras, scikit-learn, pandas and the filesystem, and are not part of this model.
- The Prefect flow body, its schedule and the `__main__` block (pipeline/wine_quality_flow.py:121-191) are orchestration. They call the modelled tasks, the training wrappers listed above and `check_model_exists`, and add no decision logic of their own.
