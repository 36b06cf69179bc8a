/** The serving API: a process-wide slot holding the active model (artifact
    and version together, or nothing), the startup hook that fills it with a
    bounded number of registry attempts, the per-request update check, the
    prediction endpoint that runs it, the forced reload, and the two
    read-only reports. Every transition is one sequential step that returns
    the new slot and the registry calls it made. */
module Serving {
  import opened Common
  import opened Registry

  /** Registry attempts made by the startup hook (`max_retries`). The fixed
      five-second pause between attempts is not modelled. */
  const MaxRetries: nat := 5

  /** The globals `model` / `current_model_version`, which every transition
      writes together. */
  datatype ServingState<+A> = Unloaded | Active(artifact: A, version: int)

  /** One call into the registry: a version listing, or an artifact load. */
  datatype Call = Search | Fetch(version: int)

  /** Number of version listings among `calls`. */
  function Queries(calls: seq<Call>): nat {
    if |calls| == 0 then 0
    else (if calls[0].Search? then 1 else 0) + Queries(calls[1..])
  }

  lemma {:induction false} QueriesAppend(a: seq<Call>, b: seq<Call>)
    ensures Queries(a + b) == Queries(a) + Queries(b)
  {
    if |a| == 0 {
      assert a + b == b;
    } else {
      assert (a + b)[1..] == a[1..] + b;
      QueriesAppend(a[1..], b);
    }
  }

  /** The registry reports a latest version and that version loads. */
  predicate AttemptSucceeds<A>(p: Probe<A>) {
    var latest := GetLatestModelVersion(p.search);
    latest.Some? && p.fetch(latest.value).Fetched?
  }

  /** The slot as a successful attempt against `p` leaves it: the loaded
      artifact paired with the version it was loaded for. */
  function Installed<A>(p: Probe<A>): ServingState<A>
    requires AttemptSucceeds(p)
  {
    var v := GetLatestModelVersion(p.search).value;
    Active(p.fetch(v).artifact, v)
  }

  // ---------------------------------------------------------------------
  // Startup: bounded retries
  // ---------------------------------------------------------------------

  datatype LoadOutcome<A> = LoadOutcome(state: ServingState<A>, calls: seq<Call>)

  /** Unfolds `Queries` on the two call lists one attempt can produce; a
      proof step for `TryLoad`, not a property. */
  lemma AttemptQueries(v: int)
    ensures Queries([Search]) == 1 && Queries([Search, Fetch(v)]) == 1
  {
    assert [Search, Fetch(v)][1..] == [Fetch(v)];
    assert [Fetch(v)][1..] == [];
  }

  /** The body of one startup attempt, from the empty slot: list the
      versions and, when one is reported, load it. A listing without a
      version and a load that raises both leave the slot empty. */
  function TryLoad<A>(p: Probe<A>): (r: LoadOutcome<A>)
    ensures Queries(r.calls) == 1
    ensures r.state.Active? <==> AttemptSucceeds(p)
    ensures AttemptSucceeds(p) ==> r.state == Installed(p)
    ensures GetLatestModelVersion(p.search).None? ==> r.calls == [Search]
    ensures GetLatestModelVersion(p.search).Some? ==>
              r.calls == [Search, Fetch(GetLatestModelVersion(p.search).value)]
  {
    match GetLatestModelVersion(p.search)
    case None => AttemptQueries(0); LoadOutcome(Unloaded, [Search])
    case Some(v) =>
      AttemptQueries(v);
      match p.fetch(v)
      case Fetched(a) => LoadOutcome(Active(a, v), [Search, Fetch(v)])
      case FetchFailed => LoadOutcome(Unloaded, [Search, Fetch(v)])
  }

  /** Attempt `k` is the first of attempts `from`, `from + 1`, ... to succeed. */
  predicate FirstSuccess<A>(probes: nat -> Probe<A>, from: nat, k: nat) {
    && from <= k < MaxRetries
    && AttemptSucceeds(probes(k))
    && (forall j :: from <= j < k ==> !AttemptSucceeds(probes(j)))
  }

  /** The startup loop from attempt `attempt` on; `probes(k)` is what the
      registry answers on attempt `k`. An attempt that finds no version and
      one whose load raises are both retried, and the last attempt gives up
      either way without raising. */
  function StartupFrom<A>(attempt: nat, probes: nat -> Probe<A>): LoadOutcome<A>
    requires attempt < MaxRetries
    decreases MaxRetries - attempt
  {
    var t := TryLoad(probes(attempt));
    if t.state.Active? || attempt == MaxRetries - 1 then t
    else
      var rest := StartupFrom(attempt + 1, probes);
      LoadOutcome(rest.state, t.calls + rest.calls)
  }

  /** One turn of the loop: stop after a successful load or the last
      attempt, otherwise one listing more than the rest of the loop. */
  lemma StartupFromStep<A>(attempt: nat, probes: nat -> Probe<A>)
    requires attempt < MaxRetries
    ensures var t := TryLoad(probes(attempt));
            var r := StartupFrom(attempt, probes);
            && (t.state.Active? || attempt == MaxRetries - 1 ==> r == t)
            && (!t.state.Active? && attempt < MaxRetries - 1 ==>
                  var rest := StartupFrom(attempt + 1, probes);
                  r.state == rest.state && Queries(r.calls) == 1 + Queries(rest.calls))
  {
    var t := TryLoad(probes(attempt));
    if !t.state.Active? && attempt < MaxRetries - 1 {
      QueriesAppend(t.calls, StartupFrom(attempt + 1, probes).calls);
    }
  }

  /** The first of attempts `from`, `from + 1`, ... below `MaxRetries`
      that succeeds, or `MaxRetries` when none does. */
  function FirstSuccessIndex<A>(probes: nat -> Probe<A>, from: nat): (k: nat)
    requires from <= MaxRetries
    ensures from <= k <= MaxRetries
    ensures k < MaxRetries ==> AttemptSucceeds(probes(k))
    decreases MaxRetries - from
  {
    if from == MaxRetries || AttemptSucceeds(probes(from)) then from
    else FirstSuccessIndex(probes, from + 1)
  }

  /** The index found is the first success, and `MaxRetries` means that no
      attempt from `from` on succeeds. */
  lemma {:induction false} FirstSuccessIndexIsFirst<A>(probes: nat -> Probe<A>, from: nat)
    requires from <= MaxRetries
    ensures var k := FirstSuccessIndex(probes, from);
            && (k < MaxRetries ==> FirstSuccess(probes, from, k))
            && (k == MaxRetries ==> forall j: nat :: from <= j < MaxRetries ==> !AttemptSucceeds(probes(j)))
    decreases MaxRetries - from
  {
    if from < MaxRetries && !AttemptSucceeds(probes(from)) {
      FirstSuccessIndexIsFirst(probes, from + 1);
    }
  }

  /** The loop ends at the first successful attempt, having listed once per
      attempt made; with no success it makes every attempt and gives up. */
  lemma {:induction false} StartupFromIndex<A>(attempt: nat, probes: nat -> Probe<A>)
    requires attempt < MaxRetries
    ensures var r := StartupFrom(attempt, probes);
            var k := FirstSuccessIndex(probes, attempt);
            if k < MaxRetries then r.state == Installed(probes(k)) && Queries(r.calls) == k - attempt + 1
            else r.state == Unloaded && Queries(r.calls) == MaxRetries - attempt
    decreases MaxRetries - attempt
  {
    if AttemptSucceeds(probes(attempt)) || attempt == MaxRetries - 1 {
      StartupFromStops(attempt, probes);
    } else {
      StartupFromStep(attempt, probes);
      StartupFromIndex(attempt + 1, probes);
    }
  }

  /** A successful attempt, or the last one, ends the loop after its own
      single listing. */
  lemma StartupFromStops<A>(attempt: nat, probes: nat -> Probe<A>)
    requires attempt < MaxRetries
    requires AttemptSucceeds(probes(attempt)) || attempt == MaxRetries - 1
    ensures var r := StartupFrom(attempt, probes);
            && Queries(r.calls) == 1
            && (AttemptSucceeds(probes(attempt)) ==> r.state == Installed(probes(attempt)))
            && (!AttemptSucceeds(probes(attempt)) ==> r.state == Unloaded)
  {
    StartupFromStep(attempt, probes);
  }

  /** First successes are unique. */
  lemma {:induction false} FirstSuccessUnique<A>(probes: nat -> Probe<A>, from: nat, k: nat)
    requires from <= MaxRetries && FirstSuccess(probes, from, k)
    ensures k == FirstSuccessIndex(probes, from)
    decreases k - from
  {
    if from < k {
      assert !AttemptSucceeds(probes(from));
      FirstSuccessUnique(probes, from + 1, k);
    }
  }

  /** The calls of attempts `from` through `to` made one after the other,
      each listing and then loading what it was told, with no stop. */
  function AttemptsCalls<A>(probes: nat -> Probe<A>, from: nat, to: nat): (calls: seq<Call>)
    requires from <= to < MaxRetries
    ensures Queries(calls) == to - from + 1
    decreases MaxRetries - from
  {
    var t := TryLoad(probes(from)).calls;
    if from == to then t
    else
      var rest := AttemptsCalls(probes, from + 1, to);
      QueriesAppend(t, rest);
      t + rest
  }

  function Last(calls: seq<Call>): Call
    requires |calls| > 0
  {
    calls[|calls| - 1]
  }

  /** The attempt the loop stops at: the first success, or the last attempt. */
  function StopAttempt<A>(probes: nat -> Probe<A>, from: nat): nat
    requires from < MaxRetries
  {
    var k := FirstSuccessIndex(probes, from);
    if k < MaxRetries then k else MaxRetries - 1
  }

  /** The loop makes exactly the calls of the attempts up to the one it
      stops at: each a listing and a load of the version that listing
      reported, and nothing after. */
  lemma {:induction false} StartupFromCalls<A>(attempt: nat, probes: nat -> Probe<A>)
    requires attempt < MaxRetries
    ensures attempt <= StopAttempt(probes, attempt) < MaxRetries
    ensures StartupFrom(attempt, probes).calls == AttemptsCalls(probes, attempt, StopAttempt(probes, attempt))
    decreases MaxRetries - attempt
  {
    var t := TryLoad(probes(attempt));
    if AttemptSucceeds(probes(attempt)) || attempt == MaxRetries - 1 {
      assert StopAttempt(probes, attempt) == attempt;
      assert StartupFrom(attempt, probes) == t;
    } else {
      assert FirstSuccessIndex(probes, attempt) == FirstSuccessIndex(probes, attempt + 1);
      StartupFromCalls(attempt + 1, probes);
      assert StartupFrom(attempt, probes).calls == t.calls + StartupFrom(attempt + 1, probes).calls;
    }
  }

  /** The loads `load_model` makes: attempt after attempt, one listing and
      at most one load of the version that listing reported, up to the
      first successful load (or the fifth attempt), and no call after it.
      A successful startup ends with the load of the version it holds. */
  lemma StartupCalls<A>(probes: nat -> Probe<A>)
    ensures Startup(probes).calls == AttemptsCalls(probes, 0, StopAttempt(probes, 0))
    ensures var r := Startup(probes);
            r.state.Active? ==> |r.calls| > 0 && Last(r.calls) == Fetch(r.state.version)
  {
    StartupFromCalls(0, probes);
    var stop := StopAttempt(probes, 0);
    if Startup(probes).state.Active? {
      StartupFromIndex(0, probes);
      FirstSuccessIndexIsFirst(probes, 0);
      AttemptsCallsLast(probes, 0, stop);
    }
  }

  /** The last call of a run of attempts is the last call of its final
      attempt. */
  lemma {:induction false} AttemptsCallsLast<A>(probes: nat -> Probe<A>, from: nat, to: nat)
    requires from <= to < MaxRetries
    ensures |TryLoad(probes(to)).calls| > 0
    ensures |AttemptsCalls(probes, from, to)| > 0
    ensures Last(AttemptsCalls(probes, from, to)) == Last(TryLoad(probes(to)).calls)
    decreases MaxRetries - from
  {
    if from < to {
      AttemptsCallsLast(probes, from + 1, to);
    }
  }

  /** `load_model` (the startup hook), run on the initial empty slot. It
      never raises, queries the registry between one and five times, and
      stops at the first attempt whose load succeeds, installing that
      attempt's artifact and version together. */
  function Startup<A>(probes: nat -> Probe<A>): (r: LoadOutcome<A>)
    ensures 1 <= Queries(r.calls) <= MaxRetries
    ensures r.state.Active? <==> exists k: nat :: k < MaxRetries && AttemptSucceeds(probes(k))
    ensures r.state.Active? ==> exists k: nat :: FirstSuccess(probes, 0, k) && r.state == Installed(probes(k))
    ensures forall k: nat :: FirstSuccess(probes, 0, k) ==>
              r.state == Installed(probes(k)) && Queries(r.calls) == k + 1
    ensures r.state.Unloaded? ==> Queries(r.calls) == MaxRetries
  {
    StartupFromIndex(0, probes);
    FirstSuccessIndexIsFirst(probes, 0);
    var k := FirstSuccessIndex(probes, 0);
    assert forall j: nat :: FirstSuccess(probes, 0, j) ==> j == k
      by { forall j: nat | FirstSuccess(probes, 0, j) { FirstSuccessUnique(probes, 0, j); } }
    StartupFrom(0, probes)
  }

  // ---------------------------------------------------------------------
  // Per-request update check
  // ---------------------------------------------------------------------

  datatype UpdateOutcome<A> = UpdateOutcome(state: ServingState<A>, updated: bool, calls: seq<Call>)

  /** The slot does not hold version `v`: it is empty, or holds another
      version, older or newer (the source compares with `!=`). */
  predicate Outdated<A>(s: ServingState<A>, v: int) {
    s.Unloaded? || s.version != v
  }

  /** `check_for_model_update`: one registry query, then a load of the
      reported version when the slot does not already hold it. */
  function CheckForModelUpdate<A>(s: ServingState<A>, p: Probe<A>): (r: UpdateOutcome<A>)
    // one listing, then a load exactly when a version is reported that the
    // slot does not hold; no version, or the held one, costs no load
    ensures r.calls == if GetLatestModelVersion(p.search).Some? && Outdated(s, GetLatestModelVersion(p.search).value)
                       then [Search, Fetch(GetLatestModelVersion(p.search).value)]
                       else [Search]
    ensures r.updated <==>
              AttemptSucceeds(p) && Outdated(s, GetLatestModelVersion(p.search).value)
    // success installs artifact and version together; anything else leaves the slot alone
    ensures r.updated ==> r.state == Installed(p)
    ensures !r.updated ==> r.state == s
  {
    match GetLatestModelVersion(p.search)
    case None => UpdateOutcome(s, false, [Search])
    case Some(v) =>
      if s.Unloaded? || v != s.version then
        match p.fetch(v)
        case Fetched(a) => UpdateOutcome(Active(a, v), true, [Search, Fetch(v)])
        case FetchFailed => UpdateOutcome(s, false, [Search, Fetch(v)])
      else UpdateOutcome(s, false, [Search])
  }

  /** A second check against the same registry answer changes nothing. */
  lemma UpdateIdempotent<A>(s: ServingState<A>, p: Probe<A>)
    ensures var r1 := CheckForModelUpdate(s, p);
            var r2 := CheckForModelUpdate(r1.state, p);
            r2.state == r1.state && !r2.updated
  {
  }

  /** A registry whose latest version is older than the held one still
      triggers a swap, so the served version can go down. */
  lemma UpdateFollowsOlderLatest<A>(a: A, held: A)
    ensures var p := Probe(Found([VersionRecord(1, "run-1")]), (v: int) => Fetched(a));
            var r := CheckForModelUpdate(Active(held, 2), p);
            r.updated && r.state == Active(a, 1)
  {
  }

  // ---------------------------------------------------------------------
  // Prediction endpoint
  // ---------------------------------------------------------------------

  /** Why an endpoint answered with an error status. */
  datatype Cause = ModelNotLoaded | NoModelFound | LoadFailed | PredictionFailed | MetadataUnavailable

  datatype HttpError = HttpError(status: int, cause: Cause)

  /** The request body of `/predict`. Float fields are held as reals; they
      are only passed through. */
  datatype WineFeatures = WineFeatures(
    wineType: string,
    fixedAcidity: real, volatileAcidity: real, citricAcid: real,
    residualSugar: real, chlorides: real, freeSulfurDioxide: real,
    totalSulfurDioxide: real, density: real, pH: real,
    sulphates: real, alcohol: real)

  /** The schema the artifact was trained on, in column order. */
  const FeatureOrder: seq<string> := [
    "type", "fixed_acidity", "volatile_acidity", "citric_acid",
    "residual_sugar", "chlorides", "free_sulfur_dioxide",
    "total_sulfur_dioxide", "density", "pH", "sulphates", "alcohol"]

  /** ASCII case folding. Python's `str.lower` also folds other scripts,
      but no other character lowers to a letter of "red", so comparing the
      folded text with "red" gives the same answer. */
  function Lower(s: string): (r: string)
    ensures |r| == |s|
  {
    seq(|s|, i requires 0 <= i < |s| => if 'A' <= s[i] <= 'Z' then (s[i] as int + 32) as char else s[i])
  }

  /** `0 if type.lower() == "red" else 1`. */
  function EncodeWineType(t: string): (code: int)
    ensures code == 0 || code == 1
    ensures code == 0 <==>
              |t| == 3 && (t[0] == 'r' || t[0] == 'R') && (t[1] == 'e' || t[1] == 'E')
              && (t[2] == 'd' || t[2] == 'D')
  {
    LowerIsRed(t);
    if Lower(t) == "red" then 0 else 1
  }

  lemma LowerIsRed(t: string)
    ensures Lower(t) == "red" <==>
              |t| == 3 && (t[0] == 'r' || t[0] == 'R') && (t[1] == 'e' || t[1] == 'E')
              && (t[2] == 'd' || t[2] == 'D')
  {
    var low := Lower(t);
    if |low| == 3 {
      assert low[0] == 'r' <==> (t[0] == 'r' || t[0] == 'R');
      assert low[1] == 'e' <==> (t[1] == 'e' || t[1] == 'E');
      assert low[2] == 'd' <==> (t[2] == 'd' || t[2] == 'D');
      assert low == "red" <==> low[0] == 'r' && low[1] == 'e' && low[2] == 'd';
    }
  }

  /** The value of the named schema column in a request. */
  function FeatureValue(f: WineFeatures, column: string): real {
    if column == "type" then EncodeWineType(f.wineType) as real
    else if column == "fixed_acidity" then f.fixedAcidity
    else if column == "volatile_acidity" then f.volatileAcidity
    else if column == "citric_acid" then f.citricAcid
    else if column == "residual_sugar" then f.residualSugar
    else if column == "chlorides" then f.chlorides
    else if column == "free_sulfur_dioxide" then f.freeSulfurDioxide
    else if column == "total_sulfur_dioxide" then f.totalSulfurDioxide
    else if column == "density" then f.density
    else if column == "pH" then f.pH
    else if column == "sulphates" then f.sulphates
    else f.alcohol
  }

  /** The row handed to the artifact: one entry per schema column, in
      schema order. */
  function InputVector(f: WineFeatures): (x: seq<real>)
    ensures |x| == |FeatureOrder| == 12
    ensures forall i :: 0 <= i < |x| ==> x[i] == FeatureValue(f, FeatureOrder[i])
  {
    [EncodeWineType(f.wineType) as real,
     f.fixedAcidity, f.volatileAcidity, f.citricAcid, f.residualSugar,
     f.chlorides, f.freeSulfurDioxide, f.totalSulfurDioxide, f.density,
     f.pH, f.sulphates, f.alcohol]
  }

  /** A successful `/predict` answer. `score` stands for the artifact's
      output (`quality_prediction` and its rounding `quality_class`). */
  datatype Prediction<+P> = Prediction(score: P, modelUpdated: bool, modelVersion: int, wineType: string)

  datatype PredictOutcome<A, P> = PredictOutcome(
    state: ServingState<A>, response: Result<Prediction<P>, HttpError>, calls: seq<Call>)

  /** `/predict`. `score(artifact, row)` is the artifact's prediction, None
      when it raises. An empty slot is refused with 503 before any registry
      call; otherwise the update check runs first and its effect on the slot
      stands even when scoring then fails with 500. */
  function Predict<A, P>(s: ServingState<A>, f: WineFeatures, p: Probe<A>,
                         score: (A, seq<real>) -> Option<P>): (r: PredictOutcome<A, P>)
    ensures s.Unloaded? ==>
              r.state == s && r.calls == [] && r.response == Err(HttpError(503, ModelNotLoaded))
    ensures s.Active? ==>
              var u := CheckForModelUpdate(s, p);
              && r.state == u.state && r.calls == u.calls
              && r.state.Active?
              // a prediction is answered exactly when the artifact scores the row
              && (r.response.Ok? <==> score(u.state.artifact, InputVector(f)).Some?)
              && (r.response.Err? ==> r.response.error.status == 500)
              && (r.response.Ok? ==>
                    && r.response.value.modelUpdated == u.updated
                    && r.response.value.modelVersion == r.state.version
                    && r.response.value.wineType == f.wineType
                    && score(r.state.artifact, InputVector(f)) == Some(r.response.value.score))
  {
    if s.Unloaded? then PredictOutcome(s, Err(HttpError(503, ModelNotLoaded)), [])
    else
      var u := CheckForModelUpdate(s, p);
      match score(u.state.artifact, InputVector(f))
      case None => PredictOutcome(u.state, Err(HttpError(500, PredictionFailed)), u.calls)
      case Some(y) =>
        PredictOutcome(u.state, Ok(Prediction(y, u.updated, u.state.version, f.wineType)), u.calls)
  }

  // ---------------------------------------------------------------------
  // Forced reload
  // ---------------------------------------------------------------------

  datatype ReloadOutcome<A> = ReloadOutcome(state: ServingState<A>, response: Result<int, HttpError>, calls: seq<Call>)

  /** The body of the `try` in `/model/reload`: 404 when no version is
      reported, a load error when the load raises. */
  function ReloadAttempt<A>(s: ServingState<A>, p: Probe<A>): ReloadOutcome<A> {
    match GetLatestModelVersion(p.search)
    case None => ReloadOutcome(s, Err(HttpError(404, NoModelFound)), [Search])
    case Some(v) =>
      match p.fetch(v)
      case Fetched(a) => ReloadOutcome(Active(a, v), Ok(v), [Search, Fetch(v)])
      case FetchFailed => ReloadOutcome(s, Err(HttpError(500, LoadFailed)), [Search, Fetch(v)])
  }

  /** `/model/reload`: the `try` body under its generic handler, which turns
      every exception, the 404 raised inside it included, into a 500. */
  function ReloadModel<A>(s: ServingState<A>, p: Probe<A>): (r: ReloadOutcome<A>)
    // every failure is a 500 and leaves the slot as it was
    ensures r.response.Err? ==> r.response.error.status == 500 && r.state == s
    ensures GetLatestModelVersion(p.search).None? ==>
              r.response == Err(HttpError(500, NoModelFound))
    // one listing, then one load of the reported version, made even when
    // the slot already holds it
    ensures r.calls == if GetLatestModelVersion(p.search).Some?
                       then [Search, Fetch(GetLatestModelVersion(p.search).value)]
                       else [Search]
    ensures r.response.Ok? <==> AttemptSucceeds(p)
    ensures r.response.Ok? ==> r.state == Installed(p) && r.response.value == r.state.version
  {
    var attempt := ReloadAttempt(s, p);
    match attempt.response
    case Ok(_) => attempt
    case Err(e) => attempt.(response := Err(HttpError(500, e.cause)))
  }

  // ---------------------------------------------------------------------
  // Read-only reports
  // ---------------------------------------------------------------------

  datatype HealthReport = HealthReport(status: string, modelLoaded: bool, modelVersion: Option<int>)

  /** `/health`: never fails. */
  function HealthCheck<A>(s: ServingState<A>): (r: HealthReport)
    ensures r.status == "healthy"
    ensures r.modelLoaded <==> s.Active?
    ensures r.modelVersion.Some? <==> r.modelLoaded
    ensures s.Active? ==> r.modelVersion == Some(s.version)
  {
    match s
    case Unloaded => HealthReport("healthy", false, None)
    case Active(_, v) => HealthReport("healthy", true, Some(v))
  }

  /** What the registry keeps about one version (`get_model_version`). */
  datatype VersionDetails = VersionDetails(runId: string, status: string, creationTimestamp: int)

  datatype ModelInfo = ModelInfo(version: int, runId: string, status: string, creationTimestamp: int)

  /** `/model/info`. `details(v)` is the registry's record of version `v`,
      None when the lookup raises. */
  function GetModelInfo<A>(s: ServingState<A>, details: int -> Option<VersionDetails>): (r: Result<ModelInfo, HttpError>)
    ensures s.Unloaded? ==> r == Err(HttpError(503, ModelNotLoaded))
    ensures s.Active? && details(s.version).None? ==> r == Err(HttpError(500, MetadataUnavailable))
    ensures s.Active? && details(s.version).Some? ==> r.Ok?
    ensures r.Ok? ==>
              && s.Active? && r.value.version == s.version
              && details(s.version) == Some(VersionDetails(r.value.runId, r.value.status, r.value.creationTimestamp))
  {
    match s
    case Unloaded => Err(HttpError(503, ModelNotLoaded))
    case Active(_, v) =>
      match details(v)
      case None => Err(HttpError(500, MetadataUnavailable))
      case Some(d) => Ok(ModelInfo(v, d.runId, d.status, d.creationTimestamp))
  }

  // ---------------------------------------------------------------------
  // Sequences of requests
  // ---------------------------------------------------------------------

  datatype Request = PredictRequest(features: WineFeatures) | ReloadRequest | HealthRequest | InfoRequest

  /** One request, with what the registry answers while it is served. */
  datatype Event<A> = Event(request: Request, registry: Probe<A>)

  /** The slot after serving one request. */
  function Step<A, P>(s: ServingState<A>, e: Event<A>, score: (A, seq<real>) -> Option<P>): (s': ServingState<A>)
    ensures s' == s || (AttemptSucceeds(e.registry) && s' == Installed(e.registry))
    ensures s.Active? ==> s'.Active?
  {
    match e.request
    case PredictRequest(f) => Predict(s, f, e.registry, score).state
    case ReloadRequest => ReloadModel(s, e.registry).state
    case HealthRequest => s
    case InfoRequest => s
  }

  /** The slot after serving `events` one after the other. */
  function Run<A, P>(s: ServingState<A>, events: seq<Event<A>>, score: (A, seq<real>) -> Option<P>): ServingState<A>
    decreases |events|
  {
    if |events| == 0 then s else Run(Step(s, events[0], score), events[1..], score)
  }

  /** Once a model is loaded, no sequence of requests empties the slot. */
  lemma {:induction false} RunKeepsLoaded<A, P>(s: ServingState<A>, events: seq<Event<A>>, score: (A, seq<real>) -> Option<P>)
    requires s.Active?
    ensures Run(s, events, score).Active?
    decreases |events|
  {
    if |events| > 0 {
      RunKeepsLoaded(Step(s, events[0], score), events[1..], score);
    }
  }

  /** When requests are served one at a time, the slot never holds a torn
      pair: after any sequence of requests it is the starting slot, or exactly the artifact and version of one
      successful registry answer seen along the way. */
  lemma {:induction false} RunInstallsWholeAnswers<A, P>(s: ServingState<A>, events: seq<Event<A>>, score: (A, seq<real>) -> Option<P>)
    ensures var t := Run(s, events, score);
            t == s || exists i :: 0 <= i < |events| && AttemptSucceeds(events[i].registry)
                                   && t == Installed(events[i].registry)
    decreases |events|
  {
    if |events| > 0 {
      var s1 := Step(s, events[0], score);
      var rest := events[1..];
      RunInstallsWholeAnswers(s1, rest, score);
      var t := Run(s1, rest, score);
      if t != s1 {
        var i :| 0 <= i < |rest| && AttemptSucceeds(rest[i].registry) && t == Installed(rest[i].registry);
        assert rest[i] == events[i + 1];
      }
    }
  }

  // ---------------------------------------------------------------------
  // Scenarios
  // ---------------------------------------------------------------------

  /** A registry with nothing published: startup gives up after five
      queries, health reports no model, `/predict` answers 503 and
      `/model/reload` answers 500 (the 404 it raises is swallowed). */
  lemma EmptyRegistryScenario<A, P>(f: WineFeatures, score: (A, seq<real>) -> Option<P>)
    ensures var p := Probe(Found([]), (v: int) => FetchFailed);
            var boot := Startup((k: nat) => p);
            && boot.state == Unloaded && Queries(boot.calls) == MaxRetries
            && HealthCheck(boot.state) == HealthReport("healthy", false, None)
            && Predict(boot.state, f, p, score).response == Err(HttpError(503, ModelNotLoaded))
            && ReloadModel(boot.state, p).response == Err(HttpError(500, NoModelFound))
  {
    var p: Probe<A> := Probe(Found([]), (v: int) => FetchFailed);
    var probes := (k: nat) => p;
    assert forall k :: 0 <= k < MaxRetries ==> !AttemptSucceeds(probes(k));
  }

  /** Version 1 is served from startup; version 2 is then published. The
      first prediction swaps to it and says so, the second does not. */
  lemma UpgradeScenario<A, P>(a1: A, a2: A, f: WineFeatures, score: (A, seq<real>) -> Option<P>)
    requires forall a, x :: score(a, x).Some?
    ensures var before := Probe(Found([VersionRecord(1, "run-1")]), (v: int) => if v == 1 then Fetched(a1) else FetchFailed);
            var after := Probe(Found([VersionRecord(1, "run-1"), VersionRecord(2, "run-2")]),
                               (v: int) => if v == 1 then Fetched(a1) else Fetched(a2));
            var boot := Startup((k: nat) => before);
            var first := Predict(boot.state, f, after, score);
            var second := Predict(first.state, f, after, score);
            && boot.state == Active(a1, 1)
            && first.response.Ok? && first.response.value.modelUpdated && first.response.value.modelVersion == 2
            && second.response.Ok? && !second.response.value.modelUpdated && second.response.value.modelVersion == 2
  {
    var before: Probe<A> := Probe(Found([VersionRecord(1, "run-1")]), (v: int) => if v == 1 then Fetched(a1) else FetchFailed);
    var after: Probe<A> := Probe(Found([VersionRecord(1, "run-1"), VersionRecord(2, "run-2")]),
                                 (v: int) => if v == 1 then Fetched(a1) else Fetched(a2));
    assert GetLatestModelVersion(before.search) == Some(1);
    assert GetLatestModelVersion(after.search) == Some(2);
    assert FirstSuccess((k: nat) => before, 0, 0);
  }
}
