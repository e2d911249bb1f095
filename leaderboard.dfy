/** The per-address leaderboard `topLocations` (backend/server.js:199-226):
    the anomalies grouped by address and neighbourhood, each group finished
    with its rounded average and risk label, sorted by total score
    descending and cut to the first 50. */
module Leaderboard {
  import opened Records
  import opened Collections
  import opened ClientDirectory

  /** The grouping key: address and neighbourhood, kept apart. */
  datatype AddrKey = AddrKey(direccion: string, barrio: string)

  /** The accumulator `direccionAnomalies[key]`; `tipos` is the insertion-
      ordered JavaScript Set of kinds. */
  datatype Group = Group(
    propietarioId: string,
    direccion: string,
    barrio: string,
    alertas: nat,
    puntuacionTotal: int,
    tipos: seq<Kind>)

  /** One element of `topLocations`. */
  datatype Location = Location(
    propietarioId: string,
    direccion: string,
    barrio: string,
    alertas: nat,
    puntuacionTotal: int,
    tipos: seq<Kind>,
    puntuacionPromedio: int,
    riesgo: Risk)

  function KeyOf(a: Anomaly): AddrKey {
    AddrKey(a.direccion, a.barrio)
  }

  function AddrKeys(anoms: seq<Anomaly>): (ks: seq<AddrKey>)
    ensures |ks| == |anoms|
    ensures forall i :: 0 <= i < |anoms| ==> ks[i] == KeyOf(anoms[i])
  {
    seq(|anoms|, i requires 0 <= i < |anoms| => KeyOf(anoms[i]))
  }

  /** `Set.prototype.add` on an insertion-ordered set held as a sequence. */
  function AddKind(ts: seq<Kind>, k: Kind): (r: seq<Kind>)
    ensures Distinct(ts) ==> Distinct(r)
    ensures forall t :: t in r <==> t in ts || t == k
  {
    if k in ts then ts else ts + [k]
  }

  /** Number of anomalies with key K. */
  function AlertasIn(anoms: seq<Anomaly>, K: AddrKey): nat {
    if anoms == [] then 0
    else AlertasIn(anoms[..|anoms| - 1], K) + (if KeyOf(anoms[|anoms| - 1]) == K then 1 else 0)
  }

  /** Sum of the scores of the anomalies with key K. */
  function ScoreIn(anoms: seq<Anomaly>, K: AddrKey): int {
    if anoms == [] then 0
    else
      var last := anoms[|anoms| - 1];
      ScoreIn(anoms[..|anoms| - 1], K) + (if KeyOf(last) == K then last.puntuacion else 0)
  }

  /** The distinct kinds of the anomalies with key K, in order of first
      appearance. */
  function KindsIn(anoms: seq<Anomaly>, K: AddrKey): seq<Kind> {
    if anoms == [] then []
    else
      var last := anoms[|anoms| - 1];
      var init := KindsIn(anoms[..|anoms| - 1], K);
      if KeyOf(last) == K then AddKind(init, last.tipo) else init
  }

  /** The owner of the first anomaly with key K ("" when there is none). */
  function FirstOwner(anoms: seq<Anomaly>, K: AddrKey): string {
    if anoms == [] then ""
    else if KeyOf(anoms[0]) == K then anoms[0].propietarioId
    else FirstOwner(anoms[1..], K)
  }

  /** The accumulator of key K once the loop has seen anoms. */
  function GroupFor(anoms: seq<Anomaly>, K: AddrKey): Group {
    Group(FirstOwner(anoms, K), K.direccion, K.barrio, AlertasIn(anoms, K), ScoreIn(anoms, K), KindsIn(anoms, K))
  }

  /** `Object.values(direccionAnomalies)`: one group per distinct key, in
      order of first appearance. */
  function GroupsOf(anoms: seq<Anomaly>): (groups: seq<Group>)
    ensures |groups| == |Dedup(AddrKeys(anoms))|
    ensures forall j :: 0 <= j < |groups| ==> groups[j] == GroupFor(anoms, Dedup(AddrKeys(anoms))[j])
  {
    var keys := Dedup(AddrKeys(anoms));
    seq(|keys|, j requires 0 <= j < |keys| => GroupFor(anoms, keys[j]))
  }

  // ---------------------------------------------------------------------
  // How one anomaly changes the group of its key

  lemma AnomalySnoc(anoms: seq<Anomaly>, a: Anomaly, K: AddrKey)
    ensures AlertasIn(anoms + [a], K) == AlertasIn(anoms, K) + (if KeyOf(a) == K then 1 else 0)
    ensures ScoreIn(anoms + [a], K) == ScoreIn(anoms, K) + (if KeyOf(a) == K then a.puntuacion else 0)
    ensures KindsIn(anoms + [a], K) == if KeyOf(a) == K then AddKind(KindsIn(anoms, K), a.tipo) else KindsIn(anoms, K)
  {
    assert (anoms + [a])[..|anoms|] == anoms;
  }

  lemma {:induction false} FirstOwnerSnoc(anoms: seq<Anomaly>, a: Anomaly, K: AddrKey)
    ensures FirstOwner(anoms + [a], K) ==
      if K in AddrKeys(anoms) then FirstOwner(anoms, K)
      else if KeyOf(a) == K then a.propietarioId else ""
    decreases |anoms|
  {
    if anoms == [] {
      assert [a][1..] == [];
    } else {
      assert (anoms + [a])[1..] == anoms[1..] + [a];
      assert AddrKeys(anoms) == [KeyOf(anoms[0])] + AddrKeys(anoms[1..]);
      FirstOwnerSnoc(anoms[1..], a, K);
    }
  }

  /** A key no anomaly has yet has an empty accumulator. */
  lemma {:induction false} AbsentKey(anoms: seq<Anomaly>, K: AddrKey)
    requires K !in AddrKeys(anoms)
    ensures AlertasIn(anoms, K) == 0 && ScoreIn(anoms, K) == 0 && KindsIn(anoms, K) == []
    ensures FirstOwner(anoms, K) == ""
    decreases |anoms|
  {
    if anoms != [] {
      var init := anoms[..|anoms| - 1];
      assert AddrKeys(anoms) == AddrKeys(init) + [KeyOf(anoms[|anoms| - 1])];
      AbsentKey(init, K);
      FirstOwnerAbsent(anoms, K);
    }
  }

  lemma {:induction false} FirstOwnerAbsent(anoms: seq<Anomaly>, K: AddrKey)
    requires K !in AddrKeys(anoms)
    ensures FirstOwner(anoms, K) == ""
    decreases |anoms|
  {
    if anoms != [] {
      assert AddrKeys(anoms) == [KeyOf(anoms[0])] + AddrKeys(anoms[1..]);
      FirstOwnerAbsent(anoms[1..], K);
    }
  }

  lemma KeysSnoc(anoms: seq<Anomaly>, a: Anomaly)
    ensures Dedup(AddrKeys(anoms + [a])) ==
      if KeyOf(a) in AddrKeys(anoms) then Dedup(AddrKeys(anoms)) else Dedup(AddrKeys(anoms)) + [KeyOf(a)]
  {
    assert AddrKeys(anoms + [a]) == AddrKeys(anoms) + [KeyOf(a)];
    DedupSnoc(AddrKeys(anoms), KeyOf(a));
  }

  /** How one anomaly changes the accumulator of key K: another key's is
      unchanged, a new key gets its first alert, an old key one more. */
  lemma GroupForSnoc(done: seq<Anomaly>, a: Anomaly, K: AddrKey)
    ensures GroupFor(done + [a], K) ==
      if KeyOf(a) != K then GroupFor(done, K)
      else if K in AddrKeys(done) then
        GroupFor(done, K).(alertas := GroupFor(done, K).alertas + 1,
                           puntuacionTotal := GroupFor(done, K).puntuacionTotal + a.puntuacion,
                           tipos := AddKind(GroupFor(done, K).tipos, a.tipo))
      else Group(a.propietarioId, a.direccion, a.barrio, 1, a.puntuacion, [a.tipo])
  {
    AnomalySnoc(done, a, K);
    FirstOwnerSnoc(done, a, K);
    if K !in AddrKeys(done) {
      AbsentKey(done, K);
      assert AddKind([], a.tipo) == [a.tipo];
    }
  }

  /** The key order after one more anomaly: its key is appended when new. */
  lemma KeysStep(acc: map<AddrKey, Group>, keys: seq<AddrKey>, done: seq<Anomaly>, a: Anomaly)
    requires keys == Dedup(AddrKeys(done)) && forall K :: K in acc <==> K in keys
    ensures KeyOf(a) in acc ==> keys == Dedup(AddrKeys(done + [a]))
    ensures KeyOf(a) !in acc ==> keys + [KeyOf(a)] == Dedup(AddrKeys(done + [a]))
  {
    KeysSnoc(done, a);
  }

  /** The accumulators of keys, each in the state GroupFor gives for anoms. */
  ghost predicate Grouped(acc: map<AddrKey, Group>, keys: seq<AddrKey>, anoms: seq<Anomaly>) {
    && (forall K :: K in acc <==> K in keys)
    && forall K <- acc.Keys :: acc[K] == GroupFor(anoms, K)
  }

  /** The empty accumulator the loop creates for a new key. */
  function EmptyGroup(a: Anomaly): Group {
    Group(a.propietarioId, a.direccion, a.barrio, 0, 0, [])
  }

  /** `g` updated with anomaly a. */
  function Counted(g: Group, a: Anomaly): Group {
    g.(alertas := g.alertas + 1, puntuacionTotal := g.puntuacionTotal + a.puntuacion,
       tipos := AddKind(g.tipos, a.tipo))
  }

  /** One anomaly moves every accumulator to the state of done + [a]: the
      group of its key, created empty when missing, counts it. */
  lemma GroupStep(acc: map<AddrKey, Group>, keys: seq<AddrKey>, done: seq<Anomaly>, a: Anomaly,
                  g: Group, acc': map<AddrKey, Group>, keys': seq<AddrKey>)
    requires keys == Dedup(AddrKeys(done)) && Grouped(acc, keys, done)
    requires g == if KeyOf(a) in acc then acc[KeyOf(a)] else EmptyGroup(a)
    requires keys' == if KeyOf(a) in acc then keys else keys + [KeyOf(a)]
    requires acc' == acc[KeyOf(a) := Counted(g, a)]
    ensures Grouped(acc', keys', done + [a])
  {
    assert forall K :: K in acc' <==> K in keys';
    forall K <- acc'.Keys ensures acc'[K] == GroupFor(done + [a], K) {
      GroupForSnoc(done, a, K);
      if K != KeyOf(a) {
        assert acc'[K] == acc[K];
      }
    }
  }

  /** One iteration of the grouping loop (backend/server.js:201-215). */
  method AddAnomaly(acc: map<AddrKey, Group>, keys: seq<AddrKey>,
                    ghost done: seq<Anomaly>, ghost next: seq<Anomaly>, a: Anomaly)
    returns (acc': map<AddrKey, Group>, keys': seq<AddrKey>)
    requires keys == Dedup(AddrKeys(done)) && Grouped(acc, keys, done)
    requires next == done + [a]
    ensures keys' == Dedup(AddrKeys(next)) && Grouped(acc', keys', next)
  {
    var key := KeyOf(a);
    var g;
    if key !in acc {
      g := EmptyGroup(a);
      keys' := keys + [key];
    } else {
      g := acc[key];
      keys' := keys;
    }
    acc' := acc[key := Counted(g, a)];
    CountedStep(acc, keys, done, a, g, acc', keys');
  }

  /** The two branches of one grouping iteration, joined. */
  lemma CountedStep(acc: map<AddrKey, Group>, keys: seq<AddrKey>, done: seq<Anomaly>, a: Anomaly,
                    g: Group, acc': map<AddrKey, Group>, keys': seq<AddrKey>)
    requires keys == Dedup(AddrKeys(done)) && Grouped(acc, keys, done)
    requires g == if KeyOf(a) in acc then acc[KeyOf(a)] else EmptyGroup(a)
    requires keys' == if KeyOf(a) in acc then keys else keys + [KeyOf(a)]
    requires acc' == acc[KeyOf(a) := Counted(g, a)]
    ensures keys' == Dedup(AddrKeys(done + [a])) && Grouped(acc', keys', done + [a])
  {
    KeysStep(acc, keys, done, a);
    GroupStep(acc, keys, done, a, g, acc', keys');
  }

  /** The grouping loop (backend/server.js:200-216). */
  method GroupLoop(anoms: seq<Anomaly>) returns (acc: map<AddrKey, Group>, keys: seq<AddrKey>)
    ensures keys == Dedup(AddrKeys(anoms)) && Grouped(acc, keys, anoms)
  {
    acc, keys := map[], [];
    var i := 0;
    while i < |anoms|
      invariant 0 <= i <= |anoms|
      invariant keys == Dedup(AddrKeys(anoms[..i]))
      invariant Grouped(acc, keys, anoms[..i])
    {
      TakeSnoc(anoms, i);
      acc, keys := AddAnomaly(acc, keys, anoms[..i], anoms[..i + 1], anoms[i]);
      i := i + 1;
    }
    assert anoms[..i] == anoms;
  }

  /** The grouping loop and `Object.values` (backend/server.js:200-218). */
  method GroupByAddress(anoms: seq<Anomaly>) returns (groups: seq<Group>)
    ensures groups == GroupsOf(anoms)
  {
    var acc, keys := GroupLoop(anoms);
    groups := seq(|keys|, j requires 0 <= j < |keys| => acc[keys[j]]);
  }

  // ---------------------------------------------------------------------
  // What a group holds

  /** The group of K counts the anomalies with key K... */
  lemma {:induction false} AlertasIsCount(anoms: seq<Anomaly>, K: AddrKey)
    ensures AlertasIn(anoms, K) == CountOf(AddrKeys(anoms), K)
    decreases |anoms|
  {
    if anoms != [] {
      var init := anoms[..|anoms| - 1];
      AlertasIsCount(init, K);
      assert AddrKeys(anoms) == AddrKeys(init) + [KeyOf(anoms[|anoms| - 1])];
      CountOfSnoc(AddrKeys(init), KeyOf(anoms[|anoms| - 1]), K);
    }
  }

  /** ... and collects exactly their kinds, each once. */
  lemma {:induction false} KindsInExact(anoms: seq<Anomaly>, K: AddrKey, k: Kind)
    ensures Distinct(KindsIn(anoms, K))
    ensures k in KindsIn(anoms, K) <==> exists a :: a in anoms && KeyOf(a) == K && a.tipo == k
    decreases |anoms|
  {
    if anoms != [] {
      var init, last := anoms[..|anoms| - 1], anoms[|anoms| - 1];
      KindsInExact(init, K, k);
      assert anoms == init + [last];
      if exists a :: a in anoms && KeyOf(a) == K && a.tipo == k {
        var a :| a in anoms && KeyOf(a) == K && a.tipo == k;
        if a != last {
          assert a in init;
        }
      }
    }
  }

  /** The group's owner is that of the first anomaly at its key. */
  lemma {:induction false} FirstOwnerIsFirst(anoms: seq<Anomaly>, K: AddrKey) returns (i: nat)
    requires K in AddrKeys(anoms)
    ensures i < |anoms| && KeyOf(anoms[i]) == K && FirstOwner(anoms, K) == anoms[i].propietarioId
    ensures forall j :: 0 <= j < i ==> KeyOf(anoms[j]) != K
    decreases |anoms|
  {
    var w :| 0 <= w < |anoms| && AddrKeys(anoms)[w] == K;
    if KeyOf(anoms[0]) == K {
      i := 0;
    } else {
      assert AddrKeys(anoms[1..])[w - 1] == K;
      var i' := FirstOwnerIsFirst(anoms[1..], K);
      i := i' + 1;
      forall j | 0 <= j < i ensures KeyOf(anoms[j]) != K {
        if j > 0 {
          assert anoms[j] == anoms[1..][j - 1];
        }
      }
    }
  }

  /** One group per distinct key: the keys of the groups are distinct and
      are exactly the keys of the anomalies. */
  lemma GroupKeys(anoms: seq<Anomaly>)
    ensures forall i, j :: 0 <= i < j < |GroupsOf(anoms)| ==>
      AddrKey(GroupsOf(anoms)[i].direccion, GroupsOf(anoms)[i].barrio)
      != AddrKey(GroupsOf(anoms)[j].direccion, GroupsOf(anoms)[j].barrio)
    ensures forall a <- anoms :: exists g <- GroupsOf(anoms) :: g.direccion == a.direccion && g.barrio == a.barrio
  {
    var keys := Dedup(AddrKeys(anoms));
    forall a <- anoms ensures exists g <- GroupsOf(anoms) :: g.direccion == a.direccion && g.barrio == a.barrio {
      var i :| 0 <= i < |anoms| && anoms[i] == a;
      assert KeyOf(a) in AddrKeys(anoms);
      var j :| 0 <= j < |keys| && keys[j] == KeyOf(a);
      assert GroupsOf(anoms)[j] in GroupsOf(anoms);
    }
  }

  /** Sum of the `alertas` of a list of groups. */
  function TotalAlertas(groups: seq<Group>): nat {
    if groups == [] then 0 else groups[0].alertas + TotalAlertas(groups[1..])
  }

  lemma {:induction false} TotalAlertasIsSumCounts(anoms: seq<Anomaly>, keys: seq<AddrKey>)
    ensures TotalAlertas(seq(|keys|, j requires 0 <= j < |keys| => GroupFor(anoms, keys[j])))
            == SumCounts(keys, AddrKeys(anoms))
    decreases |keys|
  {
    var gs := seq(|keys|, j requires 0 <= j < |keys| => GroupFor(anoms, keys[j]));
    if keys != [] {
      AlertasIsCount(anoms, keys[0]);
      assert gs[1..] == seq(|keys[1..]|, j requires 0 <= j < |keys[1..]| => GroupFor(anoms, keys[1..][j]));
      TotalAlertasIsSumCounts(anoms, keys[1..]);
    }
  }

  /** Every anomaly is counted in exactly one group. */
  lemma AlertasAddUp(anoms: seq<Anomaly>)
    ensures TotalAlertas(GroupsOf(anoms)) == |anoms|
  {
    var keys := Dedup(AddrKeys(anoms));
    assert GroupsOf(anoms) == seq(|keys|, j requires 0 <= j < |keys| => GroupFor(anoms, keys[j]));
    TotalAlertasIsSumCounts(anoms, keys);
    SumCountsCovers(keys, AddrKeys(anoms));
  }

  /** Every group holds at least one anomaly. */
  lemma GroupsNonEmpty(anoms: seq<Anomaly>)
    ensures forall g <- GroupsOf(anoms) :: g.alertas > 0
  {
    var keys := Dedup(AddrKeys(anoms));
    forall j | 0 <= j < |keys| ensures GroupsOf(anoms)[j].alertas > 0 {
      AlertasIsCount(anoms, keys[j]);
      CountOfPositive(AddrKeys(anoms), keys[j]);
    }
  }

  // ---------------------------------------------------------------------
  // Finishing a group (backend/server.js:219-224)

  /** `Math.round(t / a)` for a positive count a: JavaScript rounds halves
      up, so the result is the floor of t / a + 1/2, that is of
      (2t + a) / 2a. */
  function RoundedAverage(t: int, a: nat): (r: int)
    requires a > 0
    ensures 2 * a * r <= 2 * t + a < 2 * a * r + 2 * a
  {
    (2 * t + a) / (2 * a)
  }

  lemma MulMonotone(a: real, u: real, v: real)
    requires a > 0.0 && u <= v
    ensures a * u <= a * v
  {
    assert a * v - a * u == a * (v - u);
  }

  lemma MulStrict(a: real, u: real, v: real)
    requires a > 0.0 && u > v
    ensures a * u > a * v
  {
    assert a * u - a * v == a * (u - v);
  }

  /** The average score is above 80 exactly when the total exceeds 80 times
      the number of alerts. */
  lemma AverageAbove80(t: int, a: nat)
    requires a > 0
    ensures t as real / a as real > 80.0 <==> t > 80 * a
  {
    var x := t as real / a as real;
    var ar := a as real;
    assert x * ar == t as real;
    assert (80 * a) as real == 80.0 * ar;
    if x > 80.0 {
      MulStrict(ar, x, 80.0);
    } else {
      MulMonotone(ar, x, 80.0);
    }
  }

  function Finish(g: Group): (loc: Location)
    requires g.alertas > 0
    ensures loc.riesgo == Alto <==> g.puntuacionTotal > 80 * g.alertas
    ensures 2 * g.alertas * loc.puntuacionPromedio <= 2 * g.puntuacionTotal + g.alertas
              < 2 * g.alertas * loc.puntuacionPromedio + 2 * g.alertas
    ensures loc.propietarioId == g.propietarioId && loc.direccion == g.direccion && loc.barrio == g.barrio
    ensures loc.alertas == g.alertas && loc.puntuacionTotal == g.puntuacionTotal && loc.tipos == g.tipos
  {
    AverageAbove80(g.puntuacionTotal, g.alertas);
    Location(g.propietarioId, g.direccion, g.barrio, g.alertas, g.puntuacionTotal, g.tipos,
             RoundedAverage(g.puntuacionTotal, g.alertas),
             if g.puntuacionTotal as real / g.alertas as real > 80.0 then Alto else Medio)
  }

  function FinishAll(groups: seq<Group>): (locs: seq<Location>)
    requires forall g <- groups :: g.alertas > 0
    ensures |locs| == |groups|
    ensures forall i :: 0 <= i < |groups| ==> locs[i] == Finish(groups[i])
  {
    seq(|groups|, i requires 0 <= i < |groups| => Finish(groups[i]))
  }

  // ---------------------------------------------------------------------
  // Sorting by total score, descending and stable

  predicate SortedByTotal(s: seq<Location>) {
    forall i, j :: 0 <= i < j < |s| ==> s[i].puntuacionTotal >= s[j].puntuacionTotal
  }

  /** Insert x before the first element whose total is not above x's. */
  function InsertByTotal(x: Location, s: seq<Location>): (r: seq<Location>)
    ensures |r| == |s| + 1
    ensures multiset(r) == multiset(s) + multiset{x}
  {
    if s == [] || x.puntuacionTotal >= s[0].puntuacionTotal then [x] + s
    else
      assert s == [s[0]] + s[1..];
      [s[0]] + InsertByTotal(x, s[1..])
  }

  /** No total in s exceeds m. */
  predicate AllAtMost(s: seq<Location>, m: int) {
    forall i :: 0 <= i < |s| ==> s[i].puntuacionTotal <= m
  }

  lemma {:induction false} InsertAtMost(x: Location, s: seq<Location>, m: int)
    requires AllAtMost(s, m) && x.puntuacionTotal <= m
    ensures AllAtMost(InsertByTotal(x, s), m)
    decreases |s|
  {
    if s != [] && x.puntuacionTotal < s[0].puntuacionTotal {
      InsertAtMost(x, s[1..], m);
    }
  }

  /** Inserting into a sorted list keeps it sorted. */
  lemma {:induction false} InsertSorted(x: Location, s: seq<Location>)
    requires SortedByTotal(s)
    ensures SortedByTotal(InsertByTotal(x, s))
    decreases |s|
  {
    if s != [] && x.puntuacionTotal < s[0].puntuacionTotal {
      var rest := InsertByTotal(x, s[1..]);
      InsertSorted(x, s[1..]);
      InsertAtMost(x, s[1..], s[0].puntuacionTotal);
      var r := [s[0]] + rest;
      forall i, j | 0 <= i < j < |r| ensures r[i].puntuacionTotal >= r[j].puntuacionTotal {
        if i > 0 {
          assert r[i] == rest[i - 1] && r[j] == rest[j - 1];
        } else {
          assert r[j] == rest[j - 1];
        }
      }
    }
  }

  /** `.sort((a, b) => b.puntuacionTotal - a.puntuacionTotal)`. */
  function SortByTotal(s: seq<Location>): (r: seq<Location>)
    ensures |r| == |s|
    ensures multiset(r) == multiset(s)
  {
    if s == [] then []
    else
      assert s == [s[0]] + s[1..];
      InsertByTotal(s[0], SortByTotal(s[1..]))
  }

  lemma {:induction false} SortSorted(s: seq<Location>)
    ensures SortedByTotal(SortByTotal(s))
    decreases |s|
  {
    if s != [] {
      SortSorted(s[1..]);
      InsertSorted(s[0], SortByTotal(s[1..]));
    }
  }

  /** The elements with total v, in order. */
  function WithTotal(s: seq<Location>, v: int): seq<Location> {
    if s == [] then []
    else (if s[0].puntuacionTotal == v then [s[0]] else []) + WithTotal(s[1..], v)
  }

  lemma {:induction false} InsertWithTotal(x: Location, s: seq<Location>, v: int)
    ensures WithTotal(InsertByTotal(x, s), v) ==
      (if x.puntuacionTotal == v then [x] else []) + WithTotal(s, v)
    decreases |s|
  {
    var hx := if x.puntuacionTotal == v then [x] else [];
    if s == [] || x.puntuacionTotal >= s[0].puntuacionTotal {
      assert ([x] + s)[0] == x && ([x] + s)[1..] == s;
    } else {
      var rest := InsertByTotal(x, s[1..]);
      var h0 := if s[0].puntuacionTotal == v then [s[0]] else [];
      assert ([s[0]] + rest)[0] == s[0] && ([s[0]] + rest)[1..] == rest;
      assert hx + h0 == h0 + hx by {
        if x.puntuacionTotal == v {
          assert h0 == [];
        }
      }
      calc {
        WithTotal(InsertByTotal(x, s), v);
        WithTotal([s[0]] + rest, v);
        h0 + WithTotal(rest, v);
        { InsertWithTotal(x, s[1..], v); }
        h0 + (hx + WithTotal(s[1..], v));
        (h0 + hx) + WithTotal(s[1..], v);
        (hx + h0) + WithTotal(s[1..], v);
        hx + (h0 + WithTotal(s[1..], v));
        hx + WithTotal(s, v);
      }
    }
  }

  /** The sort is stable: locations with equal totals keep their order. */
  lemma {:induction false} SortStable(s: seq<Location>, v: int)
    ensures WithTotal(SortByTotal(s), v) == WithTotal(s, v)
    decreases |s|
  {
    if s != [] {
      SortStable(s[1..], v);
      InsertWithTotal(s[0], SortByTotal(s[1..]), v);
    }
  }

  const MaxLocations := 50

  /** `.slice(0, 50)` of the sorted locations: the first 50 locations in
      the sorted order, drawn from the input without repetition. */
  function TopLocations(locs: seq<Location>): (top: seq<Location>)
    ensures |top| <= MaxLocations
    ensures |top| == if |locs| < MaxLocations then |locs| else MaxLocations
    ensures top == SortByTotal(locs)[..|top|]
    ensures multiset(top) <= multiset(locs)
    ensures SortedByTotal(top)
  {
    var sorted := SortByTotal(locs);
    SortSorted(locs);
    var top := if |sorted| <= MaxLocations then sorted else sorted[..MaxLocations];
    assert sorted == top + sorted[|top|..];
    top
  }

  /** A location left out of the top has a total no greater than any
      location kept. */
  lemma TopIsMaximal(locs: seq<Location>, i: nat, j: nat)
    requires i < |TopLocations(locs)| && MaxLocations <= j < |locs|
    ensures TopLocations(locs)[i].puntuacionTotal >= SortByTotal(locs)[j].puntuacionTotal
  {
    SortSorted(locs);
    assert TopLocations(locs)[i] == SortByTotal(locs)[i];
  }

  /** `topLocations` for an anomaly list: at most 50 of the finished
      groups, as many as there are groups up to that cap, sorted. */
  function LeaderboardOf(anoms: seq<Anomaly>): (top: seq<Location>)
    ensures |top| == if |GroupsOf(anoms)| < MaxLocations then |GroupsOf(anoms)| else MaxLocations
    ensures forall l <- top :: exists g <- GroupsOf(anoms) :: g.alertas > 0 && l == Finish(g)
    ensures SortedByTotal(top)
  {
    var groups := GroupsOf(anoms);
    GroupsNonEmpty(anoms);
    var top := TopLocations(FinishAll(groups));
    FinishedFrom(groups, top);
    top
  }

  /** Locations drawn from the finished groups are each the finish of a group. */
  lemma FinishedFrom(groups: seq<Group>, top: seq<Location>)
    requires forall g <- groups :: g.alertas > 0
    requires multiset(top) <= multiset(FinishAll(groups))
    ensures forall l <- top :: exists g <- groups :: g.alertas > 0 && l == Finish(g)
  {
    forall l <- top ensures exists g <- groups :: g.alertas > 0 && l == Finish(g) {
      assert l in multiset(top);
      var locs := FinishAll(groups);
      assert l in locs;
      var i :| 0 <= i < |locs| && locs[i] == l;
      assert groups[i] in groups;
    }
  }

  // ---------------------------------------------------------------------
  // The string key of the source

  /** The key the source builds: address and neighbourhood joined by '_'. */
  function LegacyKey(a: Anomaly): string {
    a.direccion + "_" + a.barrio
  }

  /** Number of groups the string key produces. */
  function LegacyGroupCount(anoms: seq<Anomaly>): (n: nat)
    ensures n <= |anoms|
  {
    |Dedup(seq(|anoms|, i requires 0 <= i < |anoms| => LegacyKey(anoms[i])))|
  }

  /** Two clients at different places whose joined keys coincide: number
      "1" in "B_Centro" and number "1_B" in "Centro", both on "Mitre", give
      the addresses "Mitre 1" and "Mitre 1_B", and both keys read
      "Mitre 1_B_Centro". The string key merges their anomalies into one
      group, the pair key keeps two. */
  lemma LegacyKeyMerges(c1: Cliente, c2: Cliente, a1: Anomaly, a2: Anomaly)
    requires c1.calle == "Mitre" && c1.numero == "1" && c1.barrio == "B_Centro"
    requires c2.calle == "Mitre" && c2.numero == "1_B" && c2.barrio == "Centro"
    requires a1.direccion == EntryOf(c1).direccion && a1.barrio == EntryOf(c1).barrio
    requires a2.direccion == EntryOf(c2).direccion && a2.barrio == EntryOf(c2).barrio
    ensures LegacyKey(a1) == LegacyKey(a2)
    ensures LegacyGroupCount([a1, a2]) == 1
    ensures |GroupsOf([a1, a2])| == 2
  {
    assert a1.direccion == "Mitre 1" && a2.direccion == "Mitre 1_B";
    var ls := seq(2, i requires 0 <= i < 2 => LegacyKey([a1, a2][i]));
    assert ls == [LegacyKey(a1)] + [LegacyKey(a2)];
    assert LegacyKey(a1) == LegacyKey(a2);
    assert ls[..1] == [LegacyKey(a1)];
    assert Dedup(ls[..1]) == [LegacyKey(a1)] by {
      assert ls[..1][..0] == [];
    }
    var ks := AddrKeys([a1, a2]);
    assert ks[..1] == [KeyOf(a1)];
    assert KeyOf(a1) != KeyOf(a2);
    assert Dedup(ks[..1]) == [KeyOf(a1)] by {
      assert ks[..1][..0] == [];
    }
  }
}
