/** The analysis handler of `/api/analizar-anomalias` (backend/server.js:
    80-263) after the database has answered: the directory, the
    enrichment, the rule engine and the four summaries of the response. */
module Handler {
  import opened Records
  import opened ClientDirectory
  import opened AnomalyRules
  import opened BarrioStats
  import opened Leaderboard
  import opened Timeline

  /** The response's `resumen`. */
  datatype Resumen = Resumen(totalAnomalias: nat, alertasAltas: nat, alertasMedias: nat)

  /** The JSON body of a successful answer. */
  datatype Response = Response(
    success: bool,
    totalRegistros: nat,
    anomalias: seq<Anomaly>,
    topLocations: seq<Location>,
    barrioStats: seq<BarrioReport>,
    timeline: seq<TimelineEntry>,
    resumen: Resumen)

  const MaxAnomalias := 100

  /** `anomalias.filter(a => a.riesgo === r).length`. */
  function CountRisk(anoms: seq<Anomaly>, r: Risk): (n: nat)
    ensures n <= |anoms|
  {
    if anoms == [] then 0 else (if anoms[0].riesgo == r then 1 else 0) + CountRisk(anoms[1..], r)
  }

  /** The summary counts (backend/server.js:259-263): every anomaly is
      either a high or a medium alert. */
  function Summary(anoms: seq<Anomaly>): (s: Resumen)
    ensures s.totalAnomalias == |anoms|
    ensures s.alertasAltas + s.alertasMedias == s.totalAnomalias
  {
    RiskCountsSplit(anoms);
    Resumen(|anoms|, CountRisk(anoms, Alto), CountRisk(anoms, Medio))
  }

  lemma {:induction false} RiskCountsSplit(anoms: seq<Anomaly>)
    ensures CountRisk(anoms, Alto) + CountRisk(anoms, Medio) == |anoms|
    decreases |anoms|
  {
    if anoms != [] {
      RiskCountsSplit(anoms[1..]);
    }
  }

  /** `anomalias.slice(0, 100)`. */
  function FirstAnomalias(anoms: seq<Anomaly>): (r: seq<Anomaly>)
    ensures |r| == if |anoms| < MaxAnomalias then |anoms| else MaxAnomalias
    ensures r <= anoms
  {
    if |anoms| <= MaxAnomalias then anoms else anoms[..MaxAnomalias]
  }

  /** The enriched records of the aggregated buckets. */
  function EnrichedOf(clientes: seq<Cliente>, agregados: seq<Bucket>): seq<Enriched> {
    Enrich(agregados, Directory(clientes))
  }

  /** The response for a client list and the buckets the aggregation
      returned. */
  function Analysis(clientes: seq<Cliente>, agregados: seq<Bucket>): Response {
    var recs := EnrichedOf(clientes, agregados);
    var anoms := Detect(recs);
    RiskCountsAddUp(recs, anoms);
    Response(true, |agregados|, FirstAnomalias(anoms), LeaderboardOf(anoms),
             Reports(BarrioStatsOf(recs, anoms)), TimelineOf(anoms), Summary(anoms))
  }

  /** The handler body after the two database reads (backend/server.js:
      87-98, 158-263). */
  method AnalyzeAnomalies(clientes: seq<Cliente>, consumosAgregados: seq<Bucket>) returns (resp: Response)
    ensures resp == Analysis(clientes, consumosAgregados)
  {
    var clientesMap := BuildDirectory(clientes);
    var consumosEnriquecidos := Enrich(consumosAgregados, clientesMap);
    var anomalias := DetectAnomalies(consumosEnriquecidos);
    var barrioStats := ComputeBarrioStats(consumosEnriquecidos, anomalias);
    var groups := GroupByAddress(anomalias);
    GroupsNonEmpty(anomalias);
    var topLocations := TopLocations(FinishAll(groups));
    var timelineEntries := BuildTimelineGroups(anomalias);
    var timeline := SortByDate(timelineEntries);
    RiskCountsAddUp(consumosEnriquecidos, anomalias);
    resp := Response(true, |consumosAgregados|, FirstAnomalias(anomalias), topLocations,
                     Reports(barrioStats), timeline, Summary(anomalias));
  }

  /** Every anomaly lies in the neighbourhood of an enriched record. */
  lemma AnomalyBarriosCovered(recs: seq<Enriched>)
    ensures forall a <- Detect(recs) :: exists r <- recs :: r.barrio == a.barrio
  {
    forall a <- Detect(recs) ensures exists r <- recs :: r.barrio == a.barrio {
      var i := DetectSound(recs, a);
      assert recs[i] in recs;
    }
  }

  /** What the response promises: the summary, the neighbourhood
      statistics and the timeline each account for every anomaly exactly
      once; the list and the leaderboard are capped and the leaderboard is
      sorted; the timeline is strictly ascending by date. */
  lemma ResponseConsistent(clientes: seq<Cliente>, agregados: seq<Bucket>)
    ensures var resp := Analysis(clientes, agregados);
      var recs := EnrichedOf(clientes, agregados);
      var anoms := Detect(recs);
      && resp.success
      && resp.totalRegistros == |agregados|
      && resp.resumen.totalAnomalias == |anoms|
      && resp.resumen.alertasAltas + resp.resumen.alertasMedias == |anoms|
      && |resp.anomalias| <= MaxAnomalias && resp.anomalias <= anoms
      && |resp.topLocations| <= MaxLocations && SortedByTotal(resp.topLocations)
      && |resp.topLocations| == (if |GroupsOf(anoms)| < MaxLocations then |GroupsOf(anoms)| else MaxLocations)
      && (forall l <- resp.topLocations :: exists g <- GroupsOf(anoms) :: g.alertas > 0 && l == Finish(g))
      && TotalAnomalias(BarrioStatsOf(recs, anoms)) == |anoms|
      && TotalRecords(BarrioStatsOf(recs, anoms)) == |agregados|
      && Timeline.TotalCount(resp.timeline) == |anoms|
      && Ascending(resp.timeline)
  {
    var recs := EnrichedOf(clientes, agregados);
    var anoms := Detect(recs);
    AnomalyBarriosCovered(recs);
    AnomaliesAddUp(recs, anoms);
    CountsAddUp(recs, anoms);
    TimelineCountsAddUp(anoms);
    TimelineAscending(anoms);
  }
}
