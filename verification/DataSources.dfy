/** Where the data of one scan came from: every fetch leaves a result, and the results of a scan are
    reduced to one provenance. */
module DataSources {
  import opened Trades

  datatype Telemetry = Telemetry(usedFallback: bool, external: bool)

  datatype DataSourceResult = External | Fallback | Mock

  function ToDataSourceResult(t: Telemetry): DataSourceResult {
    if t.usedFallback then Fallback else if t.external then External else Mock
  }

  predicate AllExternal(results: seq<DataSourceResult>) {
    forall i | 0 <= i < |results| :: results[i] == External
  }

  lemma ExternalOneMore(results: seq<DataSourceResult>, r: DataSourceResult)
    ensures AllExternal(results + [r]) <==> AllExternal(results) && r == External
  {
    assert (results + [r])[|results|] == r;
    assert forall i | 0 <= i < |results| :: (results + [r])[i] == results[i];
  }

  function CombineDataSourceResults(results: seq<DataSourceResult>): (p: Provenance)
    ensures p == VerifiedExternalData <==> results != [] && AllExternal(results)
    ensures p == FallbackSampleData <==> Fallback in results
    ensures p != Backtest
  {
    if |results| == 0 then SampleData
    else if exists i | 0 <= i < |results| :: results[i] == Fallback then FallbackSampleData
    else if AllExternal(results) then VerifiedExternalData
    else SampleData
  }
}
