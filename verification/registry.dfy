/** The part of the model registry (MLflow) that the serving API and the
    training pipeline consume: listing the versions registered under the
    model name, fetching the artifact of one version, and the rule both
    components use to pick the latest version. */
module Registry {
  import opened Common

  /** One registered model version as `search_model_versions` lists it.
      MLflow stores the version number as a decimal string; it is held here
      by its integer value, which is what every comparison in the source
      goes through. */
  datatype VersionRecord = VersionRecord(version: int, runId: string)

  /** The answer to one version listing: the records, or an exception
      raised by the client (registry unreachable, bad answer, ...). */
  datatype SearchResponse = Found(records: seq<VersionRecord>) | SearchFailed

  /** The outcome of one artifact load (`mlflow.keras.load_model`). */
  datatype FetchResult<+A> = Fetched(artifact: A) | FetchFailed

  /** What the registry answers at one moment: the version listing, and the
      load that a fetch of a given version would produce. */
  datatype Probe<A> = Probe(search: SearchResponse, fetch: int -> FetchResult<A>)

  /** `i` is where Python's `max(records, key=lambda x: int(x.version))`
      lands: a greatest version, and the first such one in list order. */
  predicate IsLatestIndex(records: seq<VersionRecord>, i: int) {
    && 0 <= i < |records|
    && (forall j :: 0 <= j < |records| ==> records[j].version <= records[i].version)
    && (forall j :: 0 <= j < i ==> records[j].version < records[i].version)
  }

  /** Left-to-right scan that replaces the candidate only on a strictly
      greater version, as `max` does. */
  function LatestIndex(records: seq<VersionRecord>): (i: nat)
    requires |records| > 0
    ensures IsLatestIndex(records, i)
  {
    if |records| == 1 then 0
    else
      var prefix := records[..|records| - 1];
      var k := LatestIndex(prefix);
      assert forall j :: 0 <= j < |prefix| ==> prefix[j] == records[j];
      if records[|records| - 1].version > records[k].version then |records| - 1 else k
  }

  /** The record of the latest version, or None for an empty listing or a
      failed query. */
  function LatestRecord(resp: SearchResponse): (r: Option<VersionRecord>)
    ensures r.None? <==> resp.SearchFailed? || |resp.records| == 0
  {
    match resp
    case SearchFailed => None
    case Found(records) =>
      if |records| == 0 then None
      else
        var i := LatestIndex(records);
        Some(records[i])
  }

  /** The record reported is the one Python's `max` lands on. */
  lemma LatestRecordIsLatest(resp: SearchResponse)
    ensures LatestRecord(resp).Some? ==>
              exists i :: IsLatestIndex(resp.records, i) && resp.records[i] == LatestRecord(resp).value
  {
    if LatestRecord(resp).Some? {
      var i := LatestIndex(resp.records);
      assert IsLatestIndex(resp.records, i) && resp.records[i] == LatestRecord(resp).value;
    }
  }

  /** `get_latest_model_version`: the greatest registered version number;
      None when nothing is registered or when the query raises. */
  function GetLatestModelVersion(resp: SearchResponse): (r: Option<int>)
    ensures r.None? <==> resp.SearchFailed? || |resp.records| == 0
  {
    match LatestRecord(resp)
    case None => None
    case Some(rec) => Some(rec.version)
  }

  /** The version reported is a listed version, and no listed version is
      greater. */
  lemma LatestVersionIsMax(resp: SearchResponse)
    ensures var r := GetLatestModelVersion(resp);
            r.Some? ==>
              && (exists i :: 0 <= i < |resp.records| && resp.records[i].version == r.value)
              && (forall j :: 0 <= j < |resp.records| ==> resp.records[j].version <= r.value)
  {
    if GetLatestModelVersion(resp).Some? {
      var i := LatestIndex(resp.records);
      assert resp.records[i].version == GetLatestModelVersion(resp).value;
    }
  }

  /** The latest version does not depend on the order of the listing: any
      reordering of the same records reports the same number. */
  lemma LatestVersionOrderIndependent(a: seq<VersionRecord>, b: seq<VersionRecord>)
    requires multiset(a) == multiset(b)
    ensures GetLatestModelVersion(Found(a)) == GetLatestModelVersion(Found(b))
  {
    assert |a| == |multiset(a)| == |multiset(b)| == |b|;
    if |a| > 0 {
      LatestBelow(a, b);
      LatestBelow(b, a);
    }
  }

  /** Every record of a non-empty listing also occurs in its reordering, so
      the latest version of the first is at most that of the second. */
  lemma LatestBelow(a: seq<VersionRecord>, b: seq<VersionRecord>)
    requires |a| > 0 && |b| > 0 && multiset(a) == multiset(b)
    ensures GetLatestModelVersion(Found(a)).value <= GetLatestModelVersion(Found(b)).value
  {
    LatestVersionIsMax(Found(a));
    LatestVersionIsMax(Found(b));
    var ra := GetLatestModelVersion(Found(a)).value;
    var i :| 0 <= i < |a| && a[i].version == ra;
    assert a[i] in multiset(b);
    var j :| 0 <= j < |b| && b[j] == a[i];
  }
}
