/** The rule engine `detectAnomalies` of backend/server.js: one pass over the
    ordered enriched buckets, pushing up to three anomalies per bucket. */
module AnomalyRules {
  import opened Records
  import opened Collections

  /** Rule 1: night hour (00:00-06:00) with more than 15 kWh. */
  predicate NocturnalSpike(r: Enriched) {
    0 <= r.bucket.hora < 6 && r.bucket.consumo > 15.0
  }

  /** Rule 2: more than 20 kWh while the need is below 0.5 kWh. */
  predicate LowNeed(r: Enriched) {
    r.bucket.necesidad < 0.5 && r.bucket.consumo > 20.0
  }

  /** Rule 3: more than three times the consumption of the bucket just
      before it in the sequence, whoever owns that bucket. */
  predicate SuddenIncrease(prev: Enriched, cur: Enriched) {
    cur.bucket.consumo > prev.bucket.consumo * 3.0
  }

  /** Whether rule k fires on the bucket at position idx of data. */
  predicate Fires(data: seq<Enriched>, idx: nat, k: Kind)
    requires idx < |data|
  {
    match k
    case ConsumoNocturnoElevado => NocturnalSpike(data[idx])
    case AltoConsumoBajaNecesidad => LowNeed(data[idx])
    case IncrementoSubito => idx > 0 && SuddenIncrease(data[idx - 1], data[idx])
  }

  /** The score table of the three rules, as a function of the kind and the
      bucket's consumption. */
  function ScoreOf(k: Kind, consumo: real): int {
    match k
    case ConsumoNocturnoElevado => if consumo > 25.0 then 85 else 65
    case AltoConsumoBajaNecesidad => 90
    case IncrementoSubito => 70
  }

  /** The anomaly a firing rule k must produce for bucket r: the owner,
      address, neighbourhood and date copied from r, the consumption as
      value, the score of the table and risk 'Alto' exactly above 80. */
  function Expected(r: Enriched, k: Kind): Anomaly {
    var score := ScoreOf(k, r.bucket.consumo);
    Anomaly(r.bucket.propietarioId, r.direccion, r.barrio, r.bucket.fecha, r.bucket.hora,
            k, r.bucket.consumo, if score > 80 then Alto else Medio, score)
  }

  /** The anomaly is the one rule a.tipo yields for the bucket at idx, and
      that rule fires there. */
  predicate SourcedFrom(a: Anomaly, data: seq<Enriched>, idx: nat)
  {
    idx < |data| && Fires(data, idx, a.tipo) && a == Expected(data[idx], a.tipo)
  }

  /** The anomaly copies owner, address, neighbourhood, date and
      consumption of bucket r. */
  predicate CopiedFrom(a: Anomaly, r: Enriched) {
    && a.propietarioId == r.bucket.propietarioId
    && a.direccion == r.direccion
    && a.barrio == r.barrio
    && a.fecha == r.bucket.fecha
    && a.hora == r.bucket.hora
    && a.valor == r.bucket.consumo
  }

  /** The anomalies of kind k, in order. */
  function OfKind(anoms: seq<Anomaly>, k: Kind): seq<Anomaly> {
    if anoms == [] then []
    else (if anoms[0].tipo == k then [anoms[0]] else []) + OfKind(anoms[1..], k)
  }

  /** What one iteration of the loop pushes for the bucket at idx: the
      three rules checked in order, each independently. */
  function RecordAnomalies(data: seq<Enriched>, idx: nat): (r: seq<Anomaly>)
    requires idx < |data|
    ensures |r| <= 3
    ensures forall i, j :: 0 <= i < j < |r| ==> Rank(r[i].tipo) < Rank(r[j].tipo)
    ensures forall a <- r :: SourcedFrom(a, data, idx)
  {
    var rec := data[idx];
    (if NocturnalSpike(rec) then [Expected(rec, ConsumoNocturnoElevado)] else [])
    + (if LowNeed(rec) then [Expected(rec, AltoConsumoBajaNecesidad)] else [])
    + (if idx > 0 && SuddenIncrease(data[idx - 1], rec) then [Expected(rec, IncrementoSubito)] else [])
  }

  /** The anomalies of the first n buckets, in push order. */
  function DetectUpTo(data: seq<Enriched>, n: nat): (r: seq<Anomaly>)
    requires n <= |data|
    ensures |r| <= 3 * n
  {
    if n == 0 then []
    else
      var prefix, last := DetectUpTo(data, n - 1), RecordAnomalies(data, n - 1);
      prefix + last
  }

  /** The bucket each anomaly came from: every anomaly of the first n
      buckets copies its fields from a bucket where its rule fires. */
  function Origin(data: seq<Enriched>, n: nat, j: nat): (i: nat)
    requires n <= |data| && j < |DetectUpTo(data, n)|
    ensures i < n && SourcedFrom(DetectUpTo(data, n)[j], data, i)
  {
    var prefix, last := DetectUpTo(data, n - 1), RecordAnomalies(data, n - 1);
    assert DetectUpTo(data, n) == prefix + last;
    if j < |prefix| then
      Origin(data, n - 1, j)
    else
      assert DetectUpTo(data, n)[j] == last[j - |prefix|] && last[j - |prefix|] in last;
      n - 1
  }

  /** All anomalies of the ordered bucket sequence. */
  function Detect(data: seq<Enriched>): seq<Anomaly> {
    DetectUpTo(data, |data|)
  }

  /** detectAnomalies (backend/server.js:22-77). */
  method DetectAnomalies(consumoData: seq<Enriched>) returns (anomalies: seq<Anomaly>)
    ensures anomalies == Detect(consumoData)
  {
    anomalies := [];
    var idx := 0;
    while idx < |consumoData|
      invariant 0 <= idx <= |consumoData|
      invariant anomalies == DetectUpTo(consumoData, idx)
    {
      var record := consumoData[idx];
      var hour := record.bucket.hora;
      var consumo := record.bucket.consumo;
      var before := anomalies;
      if hour >= 0 && hour < 6 && consumo > 15.0 {
        anomalies := anomalies + [Anomaly(record.bucket.propietarioId, record.direccion, record.barrio,
          record.bucket.fecha, hour, ConsumoNocturnoElevado, consumo,
          if consumo > 25.0 then Alto else Medio, if consumo > 25.0 then 85 else 65)];
      }
      if record.bucket.necesidad < 0.5 && consumo > 20.0 {
        anomalies := anomalies + [Anomaly(record.bucket.propietarioId, record.direccion, record.barrio,
          record.bucket.fecha, hour, AltoConsumoBajaNecesidad, consumo, Alto, 90)];
      }
      if idx > 0 && consumo > consumoData[idx - 1].bucket.consumo * 3.0 {
        anomalies := anomalies + [Anomaly(record.bucket.propietarioId, record.direccion, record.barrio,
          record.bucket.fecha, hour, IncrementoSubito, consumo, Medio, 70)];
      }
      assert anomalies == before + RecordAnomalies(consumoData, idx);
      idx := idx + 1;
    }
  }

  // ---------------------------------------------------------------------
  // Properties of the rules

  lemma {:induction false} OfKindConcat(xs: seq<Anomaly>, ys: seq<Anomaly>, k: Kind)
    ensures OfKind(xs + ys, k) == OfKind(xs, k) + OfKind(ys, k)
    decreases |xs|
  {
    if xs == [] {
      assert xs + ys == ys;
    } else {
      var h := if xs[0].tipo == k then [xs[0]] else [];
      assert (xs + ys)[0] == xs[0];
      assert (xs + ys)[1..] == xs[1..] + ys;
      calc {
        OfKind(xs + ys, k);
        h + OfKind(xs[1..] + ys, k);
        { OfKindConcat(xs[1..], ys, k); }
        h + (OfKind(xs[1..], k) + OfKind(ys, k));
        (h + OfKind(xs[1..], k)) + OfKind(ys, k);
        OfKind(xs, k) + OfKind(ys, k);
      }
    }
  }

  /** What rule k reports for the bucket at idx: its table anomaly when it
      fires, nothing otherwise. */
  function Firing(data: seq<Enriched>, idx: nat, k: Kind): seq<Anomaly>
    requires idx < |data|
  {
    if Fires(data, idx, k) then [Expected(data[idx], k)] else []
  }

  /** Each rule yields, for one bucket, exactly the anomaly of its table when
      its condition holds and nothing otherwise. */
  lemma {:induction false} RuleOutput(data: seq<Enriched>, idx: nat, k: Kind)
    requires idx < |data|
    ensures OfKind(RecordAnomalies(data, idx), k) == Firing(data, idx, k)
  {
    var rec := data[idx];
    var n1 := if NocturnalSpike(rec) then [Expected(rec, ConsumoNocturnoElevado)] else [];
    var n2 := if LowNeed(rec) then [Expected(rec, AltoConsumoBajaNecesidad)] else [];
    var n3 := if idx > 0 && SuddenIncrease(data[idx - 1], rec) then [Expected(rec, IncrementoSubito)] else [];
    OfKindConcat(n1 + n2, n3, k);
    OfKindConcat(n1, n2, k);
    OfKindSingle(n1, k);
    OfKindSingle(n2, k);
    OfKindSingle(n3, k);
  }

  lemma OfKindSingle(xs: seq<Anomaly>, k: Kind)
    requires |xs| <= 1
    ensures OfKind(xs, k) == if xs != [] && xs[0].tipo == k then xs else []
  {
    if xs != [] {
      assert xs[1..] == [];
    }
  }

  lemma {:induction false} OfKindMember(anoms: seq<Anomaly>, a: Anomaly, k: Kind)
    requires a in OfKind(anoms, k)
    ensures a in anoms && a.tipo == k
    decreases |anoms|
  {
    if anoms[0].tipo != k || a != anoms[0] {
      OfKindMember(anoms[1..], a, k);
    }
  }

  /** Reference definition: the anomaly of kind k of every bucket below n
      where rule k fires, in bucket order. */
  function Firings(data: seq<Enriched>, n: nat, k: Kind): seq<Anomaly>
    requires n <= |data|
  {
    if n == 0 then []
    else Firings(data, n - 1, k) + Firing(data, n - 1, k)
  }

  /** Rule k yields one anomaly per bucket where it fires, in bucket order,
      and no other anomaly is of kind k. */
  lemma {:induction false} KindTotals(data: seq<Enriched>, n: nat, k: Kind)
    requires n <= |data|
    ensures OfKind(DetectUpTo(data, n), k) == Firings(data, n, k)
  {
    if n == 0 {
      assert DetectUpTo(data, 0) == [] && Firings(data, 0, k) == [];
    } else {
      KindTotals(data, n - 1, k);
      assert OfKind(DetectUpTo(data, n - 1), k) == Firings(data, n - 1, k);
      KindStep(data, n, k);
    }
  }

  /** The inductive step of KindTotals: bucket n - 1 adds to kind k exactly
      what rule k reports for it. */
  lemma KindStep(data: seq<Enriched>, n: nat, k: Kind)
    requires 0 < n <= |data|
    ensures OfKind(DetectUpTo(data, n - 1), k) == Firings(data, n - 1, k) ==>
            OfKind(DetectUpTo(data, n), k) == Firings(data, n, k)
  {
    DetectUpToSnoc(data, n);
    FiringsSnoc(data, n, k);
    RuleOutput(data, n - 1, k);
    OfKindStep(DetectUpTo(data, n - 1), RecordAnomalies(data, n - 1), DetectUpTo(data, n),
               Firings(data, n - 1, k), Firing(data, n - 1, k), Firings(data, n, k), k);
  }

  /** Filtering by kind distributes over one more chunk of anomalies. */
  lemma OfKindStep(prefix: seq<Anomaly>, last: seq<Anomaly>, whole: seq<Anomaly>,
                   before: seq<Anomaly>, now: seq<Anomaly>, total: seq<Anomaly>, k: Kind)
    requires whole == prefix + last && total == before + now && OfKind(last, k) == now
    ensures OfKind(prefix, k) == before ==> OfKind(whole, k) == total
  {
    OfKindConcat(prefix, last, k);
  }

  lemma DetectUpToSnoc(data: seq<Enriched>, n: nat)
    requires 0 < n <= |data|
    ensures DetectUpTo(data, n) == DetectUpTo(data, n - 1) + RecordAnomalies(data, n - 1)
  {
  }

  lemma FiringsSnoc(data: seq<Enriched>, n: nat, k: Kind)
    requires 0 < n <= |data|
    ensures Firings(data, n, k) == Firings(data, n - 1, k) + Firing(data, n - 1, k)
  {
  }

  /** Output order: the anomalies of earlier buckets come first, then those
      of the bucket at idx in rule order, then those of later buckets. */
  lemma {:induction false} DetectOrder(data: seq<Enriched>, idx: nat, n: nat)
    requires idx < n <= |data|
    ensures DetectUpTo(data, idx) + RecordAnomalies(data, idx) <= DetectUpTo(data, n)
    decreases n
  {
    var prefix, last := DetectUpTo(data, n - 1), RecordAnomalies(data, n - 1);
    assert DetectUpTo(data, n) == prefix + last;
    if n > idx + 1 {
      DetectOrder(data, idx, n - 1);
      PrefixExtend(DetectUpTo(data, idx) + RecordAnomalies(data, idx), prefix, last);
    }
  }

  lemma PrefixExtend(xs: seq<Anomaly>, ys: seq<Anomaly>, zs: seq<Anomaly>)
    requires xs <= ys
    ensures xs <= ys + zs
  {
    assert (ys + zs)[..|xs|] == ys[..|xs|];
  }

  /** Every reported anomaly is the anomaly of a rule firing on a bucket. */
  lemma DetectSound(data: seq<Enriched>, a: Anomaly) returns (i: nat)
    requires a in Detect(data)
    ensures i < |data| && Fires(data, i, a.tipo) && a == Expected(data[i], a.tipo)
  {
    var j :| 0 <= j < |Detect(data)| && Detect(data)[j] == a;
    i := Origin(data, |data|, j);
  }

  /** Every firing rule is reported. */
  lemma DetectComplete(data: seq<Enriched>, i: nat, k: Kind)
    requires i < |data| && Fires(data, i, k)
    ensures Expected(data[i], k) in Detect(data)
  {
    var e := Expected(data[i], k);
    RuleOutput(data, i, k);
    OfKindMember(RecordAnomalies(data, i), e, k);
    DetectOrder(data, i, |data|);
    var pre := DetectUpTo(data, i) + RecordAnomalies(data, i);
    assert e in pre;
    var j :| 0 <= j < |pre| && pre[j] == e;
    assert Detect(data)[j] == e;
  }

  /** An anomaly is reported exactly when it is the anomaly of a rule that
      fires on some bucket. */
  lemma DetectMembers(data: seq<Enriched>, a: Anomaly)
    ensures a in Detect(data) <==>
      exists i, k :: 0 <= i < |data| && Fires(data, i, k) && a == Expected(data[i], k)
  {
    if a in Detect(data) {
      var i := DetectSound(data, a);
    }
    if exists i, k :: 0 <= i < |data| && Fires(data, i, k) && a == Expected(data[i], k) {
      var i, k :| 0 <= i < |data| && Fires(data, i, k) && a == Expected(data[i], k);
      DetectComplete(data, i, k);
    }
  }

  /** Every reported anomaly carries one of the four scores of the table,
      its risk is 'Alto' exactly when the score exceeds 80, and it copies the
      owner, address, neighbourhood, date and consumption of a bucket. */
  lemma DetectFields(data: seq<Enriched>, a: Anomaly)
    requires a in Detect(data)
    ensures a.puntuacion == 65 || a.puntuacion == 70 || a.puntuacion == 85 || a.puntuacion == 90
    ensures a.riesgo == Alto <==> a.puntuacion > 80
    ensures exists i :: 0 <= i < |data| && CopiedFrom(a, data[i])
  {
    var i := DetectSound(data, a);
  }

  /** A night bucket of 20 kWh followed by one of 5 kWh: only the nocturnal
      rule fires, with score 65 and risk 'Medio'. */
  lemma NightExample(a: Enriched, b: Enriched)
    requires a.bucket.hora == 2 && a.bucket.consumo == 20.0 && a.bucket.necesidad >= 0.5
    requires b.bucket.hora == 3 && b.bucket.consumo == 5.0
    ensures Detect([a, b]) == [Expected(a, ConsumoNocturnoElevado)]
    ensures Expected(a, ConsumoNocturnoElevado).puntuacion == 65
    ensures Expected(a, ConsumoNocturnoElevado).riesgo == Medio
  {
    var d := [a, b];
    assert DetectUpTo(d, 1) == RecordAnomalies(d, 0);
    assert RecordAnomalies(d, 1) == [];
  }

  /** A bucket of 35 kWh after one of 10 kWh is a sudden increase, reported
      with score 70 and risk 'Medio'. */
  lemma SuddenExample(a: Enriched, b: Enriched)
    requires a.bucket.consumo == 10.0 && b.bucket.consumo == 35.0
    ensures Expected(b, IncrementoSubito) in Detect([a, b])
    ensures Expected(b, IncrementoSubito).puntuacion == 70 && Expected(b, IncrementoSubito).riesgo == Medio
  {
    DetectComplete([a, b], 1, IncrementoSubito);
  }

  /** The sudden-increase rule compares with the previous bucket even when it
      belongs to another owner, and a previous consumption of 0 lets any
      positive consumption fire. */
  lemma SuddenAcrossOwners(a: Enriched, b: Enriched)
    requires a.bucket.propietarioId != b.bucket.propietarioId
    requires a.bucket.consumo == 0.0 && b.bucket.consumo > 0.0
    ensures Expected(b, IncrementoSubito) in Detect([a, b])
  {
    var d := [a, b];
    RuleOutput(d, 1, IncrementoSubito);
    OfKindMember(RecordAnomalies(d, 1), Expected(b, IncrementoSubito), IncrementoSubito);
    DetectOrder(d, 1, 2);
  }
}
