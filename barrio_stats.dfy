/** Per-neighbourhood statistics (backend/server.js:176-197, 251-257). */
module BarrioStats {
  import opened Records
  import opened Collections

  /** The accumulator `barrioStats[barrio]`, with its key. */
  datatype BarrioStat = BarrioStat(
    barrio: string,
    totalConsumo: real,
    count: nat,
    anomalias: nat,
    riesgoAlto: nat,
    riesgoMedio: nat)

  /** One element of the response's `barrioStats` array. */
  datatype BarrioReport = BarrioReport(
    barrio: string,
    consumoPromedio: real,
    totalAnomalias: nat,
    riesgoAlto: nat,
    riesgoMedio: nat)

  function Barrios(recs: seq<Enriched>): (bs: seq<string>)
    ensures |bs| == |recs|
    ensures forall i :: 0 <= i < |recs| ==> bs[i] == recs[i].barrio
  {
    seq(|recs|, i requires 0 <= i < |recs| => recs[i].barrio)
  }

  function AnomalyBarrios(anoms: seq<Anomaly>): (bs: seq<string>)
    ensures |bs| == |anoms|
    ensures forall i :: 0 <= i < |anoms| ==> bs[i] == anoms[i].barrio
  {
    seq(|anoms|, i requires 0 <= i < |anoms| => anoms[i].barrio)
  }

  /** Number of records of neighbourhood b. */
  function CountIn(recs: seq<Enriched>, b: string): nat {
    if recs == [] then 0
    else CountIn(recs[..|recs| - 1], b) + (if recs[|recs| - 1].barrio == b then 1 else 0)
  }

  /** Total consumption of the records of neighbourhood b. */
  function ConsumoIn(recs: seq<Enriched>, b: string): real {
    if recs == [] then 0.0
    else
      var last := recs[|recs| - 1];
      ConsumoIn(recs[..|recs| - 1], b) + (if last.barrio == b then last.bucket.consumo else 0.0)
  }

  /** Number of anomalies of neighbourhood b. */
  function AnomaliasIn(anoms: seq<Anomaly>, b: string): nat {
    if anoms == [] then 0
    else AnomaliasIn(anoms[..|anoms| - 1], b) + (if anoms[|anoms| - 1].barrio == b then 1 else 0)
  }

  /** Number of anomalies of neighbourhood b with risk r. */
  function RiskIn(anoms: seq<Anomaly>, b: string, r: Risk): nat {
    if anoms == [] then 0
    else
      var last := anoms[|anoms| - 1];
      RiskIn(anoms[..|anoms| - 1], b, r) + (if last.barrio == b && last.riesgo == r then 1 else 0)
  }

  lemma RecordsSnoc(recs: seq<Enriched>, c: Enriched, b: string)
    ensures CountIn(recs + [c], b) == CountIn(recs, b) + (if c.barrio == b then 1 else 0)
    ensures ConsumoIn(recs + [c], b) == ConsumoIn(recs, b) + (if c.barrio == b then c.bucket.consumo else 0.0)
  {
    assert (recs + [c])[..|recs|] == recs;
  }

  lemma AnomaliesSnoc(anoms: seq<Anomaly>, a: Anomaly, b: string)
    ensures AnomaliasIn(anoms + [a], b) == AnomaliasIn(anoms, b) + (if a.barrio == b then 1 else 0)
    ensures RiskIn(anoms + [a], b, Alto) == RiskIn(anoms, b, Alto) + (if a.barrio == b && a.riesgo == Alto then 1 else 0)
    ensures RiskIn(anoms + [a], b, Medio) == RiskIn(anoms, b, Medio) + (if a.barrio == b && a.riesgo == Medio then 1 else 0)
  {
    assert (anoms + [a])[..|anoms|] == anoms;
  }

  /** The record count of b is the number of occurrences of b among the
      records' neighbourhoods. */
  lemma {:induction false} CountInIsCountOf(recs: seq<Enriched>, b: string)
    ensures CountIn(recs, b) == CountOf(Barrios(recs), b)
    decreases |recs|
  {
    if recs != [] {
      var init := recs[..|recs| - 1];
      CountInIsCountOf(init, b);
      assert Barrios(recs) == Barrios(init) + [recs[|recs| - 1].barrio];
      CountOfSnoc(Barrios(init), recs[|recs| - 1].barrio, b);
    }
  }

  lemma {:induction false} AnomaliasInIsCountOf(anoms: seq<Anomaly>, b: string)
    ensures AnomaliasIn(anoms, b) == CountOf(AnomalyBarrios(anoms), b)
    decreases |anoms|
  {
    if anoms != [] {
      var init := anoms[..|anoms| - 1];
      AnomaliasInIsCountOf(init, b);
      assert AnomalyBarrios(anoms) == AnomalyBarrios(init) + [anoms[|anoms| - 1].barrio];
      CountOfSnoc(AnomalyBarrios(init), anoms[|anoms| - 1].barrio, b);
    }
  }

  lemma {:induction false} ConsumoInAbsent(recs: seq<Enriched>, b: string)
    requires b !in Barrios(recs)
    ensures ConsumoIn(recs, b) == 0.0 && CountIn(recs, b) == 0
    decreases |recs|
  {
    if recs != [] {
      var init := recs[..|recs| - 1];
      assert Barrios(recs) == Barrios(init) + [recs[|recs| - 1].barrio];
      ConsumoInAbsent(init, b);
    }
  }

  /** The accumulator of neighbourhood b once both loops are done. */
  function StatFor(b: string, recs: seq<Enriched>, anoms: seq<Anomaly>): BarrioStat {
    BarrioStat(b, ConsumoIn(recs, b), CountIn(recs, b), AnomaliasIn(anoms, b),
               RiskIn(anoms, b, Alto), RiskIn(anoms, b, Medio))
  }

  /** `Object.entries(barrioStats)`: one accumulator per neighbourhood of the
      enriched records, in order of first appearance. */
  function BarrioStatsOf(recs: seq<Enriched>, anoms: seq<Anomaly>): (stats: seq<BarrioStat>)
    ensures |stats| == |Dedup(Barrios(recs))|
    ensures forall j :: 0 <= j < |stats| ==> stats[j] == StatFor(Dedup(Barrios(recs))[j], recs, anoms)
    ensures forall i, j :: 0 <= i < j < |stats| ==> stats[i].barrio != stats[j].barrio
  {
    var keys := Dedup(Barrios(recs));
    seq(|keys|, j requires 0 <= j < |keys| => StatFor(keys[j], recs, anoms))
  }

  lemma KeysSnoc(recs: seq<Enriched>, c: Enriched)
    ensures Dedup(Barrios(recs + [c])) ==
      if c.barrio in Barrios(recs) then Dedup(Barrios(recs)) else Dedup(Barrios(recs)) + [c.barrio]
  {
    assert Barrios(recs + [c]) == Barrios(recs) + [c.barrio];
    DedupSnoc(Barrios(recs), c.barrio);
  }

  /** The accumulators of neighbourhoods keys, each in the state StatFor
      gives for records recs and anomalies anoms. */
  ghost predicate Accumulated(acc: map<string, BarrioStat>, keys: seq<string>,
                              recs: seq<Enriched>, anoms: seq<Anomaly>)
  {
    && (forall b :: b in acc <==> b in keys)
    && forall b <- acc.Keys :: acc[b] == StatFor(b, recs, anoms)
  }

  /** The accumulator the loop creates for a neighbourhood it meets first. */
  function Fresh(b: string): BarrioStat {
    BarrioStat(b, 0.0, 0, 0, 0, 0)
  }

  /** Accumulator s after record c: its consumption added, one more record. */
  function Added(s: BarrioStat, c: Enriched): BarrioStat {
    s.(totalConsumo := s.totalConsumo + c.bucket.consumo, count := s.count + 1)
  }

  /** The two branches of one record iteration, joined: the accumulator of
      c's neighbourhood, created when missing, counts c, and every other
      accumulator already holds its statistics for done + [c]. */
  lemma RecordStep(acc: map<string, BarrioStat>, keys: seq<string>, done: seq<Enriched>, c: Enriched,
                   s: BarrioStat, acc': map<string, BarrioStat>, keys': seq<string>)
    requires keys == Dedup(Barrios(done)) && Accumulated(acc, keys, done, [])
    requires s == if c.barrio in acc then acc[c.barrio] else Fresh(c.barrio)
    requires keys' == if c.barrio in acc then keys else keys + [c.barrio]
    requires acc' == acc[c.barrio := Added(s, c)]
    ensures keys' == Dedup(Barrios(done + [c])) && Accumulated(acc', keys', done + [c], [])
  {
    var b := c.barrio;
    KeysSnoc(done, c);
    assert s == StatFor(b, done, []) by {
      if b !in acc {
        assert b !in Barrios(done);
        ConsumoInAbsent(done, b);
      }
    }
    RecordStats(acc, done, c, s, acc');
  }

  /** Every accumulator, the one of c's neighbourhood updated with c, holds
      its statistics for done + [c]. */
  lemma RecordStats(acc: map<string, BarrioStat>, done: seq<Enriched>, c: Enriched,
                    s: BarrioStat, acc': map<string, BarrioStat>)
    requires forall b <- acc.Keys :: acc[b] == StatFor(b, done, [])
    requires s == StatFor(c.barrio, done, [])
    requires acc' == acc[c.barrio := Added(s, c)]
    ensures forall b <- acc'.Keys :: acc'[b] == StatFor(b, done + [c], [])
  {
    forall x <- acc'.Keys ensures acc'[x] == StatFor(x, done + [c], []) {
      RecordsSnoc(done, c, x);
    }
  }

  /** One anomaly moves every accumulator from the state of anomalies done
      to that of done + [a]. */
  lemma AnomalyAccStep(before: map<string, BarrioStat>, recs: seq<Enriched>, done: seq<Anomaly>, a: Anomaly)
    requires forall b <- before.Keys :: before[b] == StatFor(b, recs, done)
    ensures var acc :=
        if a.barrio !in before then before
        else
          var s := before[a.barrio];
          if a.riesgo == Alto
          then before[a.barrio := s.(anomalias := s.anomalias + 1, riesgoAlto := s.riesgoAlto + 1)]
          else before[a.barrio := s.(anomalias := s.anomalias + 1, riesgoMedio := s.riesgoMedio + 1)];
      forall b <- acc.Keys :: acc[b] == StatFor(b, recs, done + [a])
  {
    forall b <- before.Keys {
      AnomaliesSnoc(done, a, b);
    }
  }

  /** One iteration of the loop over the enriched records
      (backend/server.js:177-188). */
  method AddRecord(acc: map<string, BarrioStat>, keys: seq<string>,
                   ghost done: seq<Enriched>, ghost next: seq<Enriched>, c: Enriched)
    returns (acc': map<string, BarrioStat>, keys': seq<string>)
    requires keys == Dedup(Barrios(done)) && Accumulated(acc, keys, done, [])
    requires next == done + [c]
    ensures keys' == Dedup(Barrios(next)) && Accumulated(acc', keys', next, [])
  {
    var s;
    if c.barrio !in acc {
      s := Fresh(c.barrio);
      keys' := keys + [c.barrio];
    } else {
      s := acc[c.barrio];
      keys' := keys;
    }
    acc' := acc[c.barrio := Added(s, c)];
    RecordStep(acc, keys, done, c, s, acc', keys');
  }

  /** The loop over the enriched records (backend/server.js:176-189). */
  method AccumulateRecords(recs: seq<Enriched>) returns (acc: map<string, BarrioStat>, keys: seq<string>)
    ensures keys == Dedup(Barrios(recs))
    ensures Accumulated(acc, keys, recs, [])
  {
    acc, keys := map[], [];
    var i := 0;
    while i < |recs|
      invariant 0 <= i <= |recs|
      invariant keys == Dedup(Barrios(recs[..i]))
      invariant Accumulated(acc, keys, recs[..i], [])
    {
      TakeSnoc(recs, i);
      acc, keys := AddRecord(acc, keys, recs[..i], recs[..i + 1], recs[i]);
      i := i + 1;
    }
    assert recs[..i] == recs;
  }

  /** The loop over the anomalies (backend/server.js:191-197): an anomaly
      whose neighbourhood has no accumulator is skipped. */
  method AccumulateAnomalies(acc0: map<string, BarrioStat>, keys: seq<string>,
                             recs: seq<Enriched>, anoms: seq<Anomaly>)
    returns (acc: map<string, BarrioStat>)
    requires Accumulated(acc0, keys, recs, [])
    ensures Accumulated(acc, keys, recs, anoms)
  {
    acc := acc0;
    var j := 0;
    assert anoms[..0] == [];
    while j < |anoms|
      invariant 0 <= j <= |anoms|
      invariant Accumulated(acc, keys, recs, anoms[..j])
    {
      var a := anoms[j];
      ghost var done := anoms[..j];
      assert anoms[..j + 1] == done + [a];
      ghost var before := acc;
      AnomalyAccStep(before, recs, done, a);
      if a.barrio in acc {
        var s := acc[a.barrio];
        if a.riesgo == Alto {
          acc := acc[a.barrio := s.(anomalias := s.anomalias + 1, riesgoAlto := s.riesgoAlto + 1)];
        } else {
          acc := acc[a.barrio := s.(anomalias := s.anomalias + 1, riesgoMedio := s.riesgoMedio + 1)];
        }
      }
      assert acc.Keys == before.Keys;
      assert Accumulated(acc, keys, recs, done + [a]);
      j := j + 1;
    }
    assert anoms[..j] == anoms;
  }

  /** Per-neighbourhood statistics (backend/server.js:176-197) and
      `Object.entries` in insertion order. */
  method ComputeBarrioStats(recs: seq<Enriched>, anoms: seq<Anomaly>) returns (stats: seq<BarrioStat>)
    ensures stats == BarrioStatsOf(recs, anoms)
  {
    var acc, keys := AccumulateRecords(recs);
    acc := AccumulateAnomalies(acc, keys, recs, anoms);
    assert forall k :: 0 <= k < |keys| ==> keys[k] in acc;
    stats := seq(|keys|, k requires 0 <= k < |keys| => acc[keys[k]]);
  }

  /** The response row of one accumulator: the average consumption of the
      neighbourhood (before the two-decimal formatting). */
  function Report(s: BarrioStat): (r: BarrioReport)
    requires s.count > 0
    ensures r.consumoPromedio * (s.count as real) == s.totalConsumo
    ensures r.barrio == s.barrio && r.totalAnomalias == s.anomalias
    ensures r.riesgoAlto == s.riesgoAlto && r.riesgoMedio == s.riesgoMedio
  {
    BarrioReport(s.barrio, s.totalConsumo / (s.count as real), s.anomalias, s.riesgoAlto, s.riesgoMedio)
  }

  function Reports(stats: seq<BarrioStat>): (rs: seq<BarrioReport>)
    requires forall s <- stats :: s.count > 0
    ensures |rs| == |stats|
    ensures forall j :: 0 <= j < |stats| ==> rs[j] == Report(stats[j])
  {
    seq(|stats|, j requires 0 <= j < |stats| => Report(stats[j]))
  }

  // ---------------------------------------------------------------------
  // Properties

  function TotalRecords(stats: seq<BarrioStat>): nat {
    if stats == [] then 0 else stats[0].count + TotalRecords(stats[1..])
  }

  function TotalAnomalias(stats: seq<BarrioStat>): nat {
    if stats == [] then 0 else stats[0].anomalias + TotalAnomalias(stats[1..])
  }

  lemma {:induction false} RiskSplit(anoms: seq<Anomaly>, b: string)
    ensures RiskIn(anoms, b, Alto) + RiskIn(anoms, b, Medio) == AnomaliasIn(anoms, b)
    decreases |anoms|
  {
    if anoms != [] {
      RiskSplit(anoms[..|anoms| - 1], b);
    }
  }

  /** Every neighbourhood of the records has an entry, and every entry is
      the neighbourhood of some record. */
  lemma BarriosCovered(recs: seq<Enriched>, anoms: seq<Anomaly>)
    ensures var stats := BarrioStatsOf(recs, anoms);
      && (forall r <- recs :: exists j :: 0 <= j < |stats| && stats[j].barrio == r.barrio)
      && (forall s <- stats :: exists r <- recs :: r.barrio == s.barrio)
  {
    var stats := BarrioStatsOf(recs, anoms);
    var keys := Dedup(Barrios(recs));
    forall r <- recs ensures exists j :: 0 <= j < |stats| && stats[j].barrio == r.barrio {
      var i :| 0 <= i < |recs| && recs[i] == r;
      assert Barrios(recs)[i] == r.barrio && Barrios(recs)[i] in Barrios(recs);
      var j :| 0 <= j < |keys| && keys[j] == r.barrio;
      assert stats[j].barrio == r.barrio;
    }
    forall s <- stats ensures exists r <- recs :: r.barrio == s.barrio {
      var j :| 0 <= j < |stats| && stats[j] == s;
      assert s.barrio in Barrios(recs);
      var i :| 0 <= i < |recs| && Barrios(recs)[i] == s.barrio;
      assert recs[i] in recs;
    }
  }

  /** Each entry counts at least one record, and its high and medium risk
      counts add up to its anomaly count. */
  lemma RiskCountsAddUp(recs: seq<Enriched>, anoms: seq<Anomaly>)
    ensures forall s <- BarrioStatsOf(recs, anoms) :: s.count > 0 && s.riesgoAlto + s.riesgoMedio == s.anomalias
  {
    forall s <- BarrioStatsOf(recs, anoms) ensures s.count > 0 && s.riesgoAlto + s.riesgoMedio == s.anomalias {
      RiskSplit(anoms, s.barrio);
      CountInIsCountOf(recs, s.barrio);
      CountOfPositive(Barrios(recs), s.barrio);
    }
  }

  lemma {:induction false} TotalRecordsIsSumCounts(stats: seq<BarrioStat>, keys: seq<string>, ys: seq<string>)
    requires |stats| == |keys|
    requires forall j :: 0 <= j < |stats| ==> stats[j].count == CountOf(ys, keys[j])
    ensures TotalRecords(stats) == SumCounts(keys, ys)
    decreases |stats|
  {
    if stats != [] {
      TotalRecordsIsSumCounts(stats[1..], keys[1..], ys);
    }
  }

  lemma {:induction false} TotalAnomaliasIsSumCounts(stats: seq<BarrioStat>, keys: seq<string>, ys: seq<string>)
    requires |stats| == |keys|
    requires forall j :: 0 <= j < |stats| ==> stats[j].anomalias == CountOf(ys, keys[j])
    ensures TotalAnomalias(stats) == SumCounts(keys, ys)
    decreases |stats|
  {
    if stats != [] {
      TotalAnomaliasIsSumCounts(stats[1..], keys[1..], ys);
    }
  }

  /** The record counts of all neighbourhoods add up to the number of
      enriched records. */
  lemma CountsAddUp(recs: seq<Enriched>, anoms: seq<Anomaly>)
    ensures TotalRecords(BarrioStatsOf(recs, anoms)) == |recs|
  {
    var keys := Dedup(Barrios(recs));
    forall b { CountInIsCountOf(recs, b); }
    TotalRecordsIsSumCounts(BarrioStatsOf(recs, anoms), keys, Barrios(recs));
    SumCountsCovers(keys, Barrios(recs));
  }

  /** When every anomaly lies in a neighbourhood of the records, every
      anomaly is counted exactly once. */
  lemma AnomaliesAddUp(recs: seq<Enriched>, anoms: seq<Anomaly>)
    requires forall a <- anoms :: exists r <- recs :: r.barrio == a.barrio
    ensures TotalAnomalias(BarrioStatsOf(recs, anoms)) == |anoms|
  {
    var keys := Dedup(Barrios(recs));
    forall b { AnomaliasInIsCountOf(anoms, b); }
    TotalAnomaliasIsSumCounts(BarrioStatsOf(recs, anoms), keys, AnomalyBarrios(anoms));
    forall y <- AnomalyBarrios(anoms) ensures y in keys {
      var i :| 0 <= i < |anoms| && AnomalyBarrios(anoms)[i] == y;
      assert anoms[i] in anoms;
      var r :| r in recs && r.barrio == anoms[i].barrio;
      var k :| 0 <= k < |recs| && recs[k] == r;
      assert Barrios(recs)[k] == y;
    }
    SumCountsCovers(keys, AnomalyBarrios(anoms));
  }
}
