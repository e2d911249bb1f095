/** The daily histogram `timeline` (backend/server.js:228-242): one entry
    per anomaly day with its count split by risk, sorted by date. */
module Timeline {
  import opened Records
  import opened Collections

  /** One element of `timeline`. */
  datatype TimelineEntry = TimelineEntry(date: string, count: nat, alto: nat, medio: nat)

  /** The day of an anomaly: the UTC day of its date, which is the day of
      the bucket it came from. */
  function DayOf(a: Anomaly): string {
    a.fecha
  }

  function Days(anoms: seq<Anomaly>): (ds: seq<string>)
    ensures |ds| == |anoms|
    ensures forall i :: 0 <= i < |anoms| ==> ds[i] == DayOf(anoms[i])
  {
    seq(|anoms|, i requires 0 <= i < |anoms| => DayOf(anoms[i]))
  }

  /** Number of anomalies on day d. */
  function CountOn(anoms: seq<Anomaly>, d: string): nat {
    if anoms == [] then 0
    else CountOn(anoms[..|anoms| - 1], d) + (if DayOf(anoms[|anoms| - 1]) == d then 1 else 0)
  }

  /** Number of anomalies on day d with risk r. */
  function RiskOn(anoms: seq<Anomaly>, d: string, r: Risk): nat {
    if anoms == [] then 0
    else
      var last := anoms[|anoms| - 1];
      RiskOn(anoms[..|anoms| - 1], d, r) + (if DayOf(last) == d && last.riesgo == r then 1 else 0)
  }

  /** The entry of day d once the loop has seen anoms. */
  function EntryFor(anoms: seq<Anomaly>, d: string): TimelineEntry {
    TimelineEntry(d, CountOn(anoms, d), RiskOn(anoms, d, Alto), RiskOn(anoms, d, Medio))
  }

  /** `Object.values(timelineMap)`: one entry per distinct day, in order of
      first appearance. */
  function TimelineGroups(anoms: seq<Anomaly>): (es: seq<TimelineEntry>)
    ensures |es| == |Dedup(Days(anoms))|
    ensures forall j :: 0 <= j < |es| ==> es[j] == EntryFor(anoms, Dedup(Days(anoms))[j])
  {
    var keys := Dedup(Days(anoms));
    seq(|keys|, j requires 0 <= j < |keys| => EntryFor(anoms, keys[j]))
  }

  // ---------------------------------------------------------------------
  // The loop building timelineMap

  lemma AnomalySnoc(anoms: seq<Anomaly>, a: Anomaly, d: string)
    ensures CountOn(anoms + [a], d) == CountOn(anoms, d) + (if DayOf(a) == d then 1 else 0)
    ensures RiskOn(anoms + [a], d, Alto) == RiskOn(anoms, d, Alto) + (if DayOf(a) == d && a.riesgo == Alto then 1 else 0)
    ensures RiskOn(anoms + [a], d, Medio) == RiskOn(anoms, d, Medio) + (if DayOf(a) == d && a.riesgo == Medio then 1 else 0)
  {
    assert (anoms + [a])[..|anoms|] == anoms;
  }

  lemma {:induction false} AbsentDay(anoms: seq<Anomaly>, d: string)
    requires d !in Days(anoms)
    ensures EntryFor(anoms, d) == TimelineEntry(d, 0, 0, 0)
    decreases |anoms|
  {
    if anoms != [] {
      var init := anoms[..|anoms| - 1];
      assert Days(anoms) == Days(init) + [DayOf(anoms[|anoms| - 1])];
      AbsentDay(init, d);
    }
  }

  /** `e` counting one more anomaly a. */
  function Tally(e: TimelineEntry, a: Anomaly): TimelineEntry {
    if a.riesgo == Alto then e.(count := e.count + 1, alto := e.alto + 1)
    else e.(count := e.count + 1, medio := e.medio + 1)
  }

  /** The entries of keys, each in the state EntryFor gives for anoms. */
  ghost predicate Tallied(acc: map<string, TimelineEntry>, keys: seq<string>, anoms: seq<Anomaly>) {
    && (forall d :: d in acc <==> d in keys)
    && forall d <- acc.Keys :: acc[d] == EntryFor(anoms, d)
  }

  lemma DaysStep(acc: map<string, TimelineEntry>, keys: seq<string>, done: seq<Anomaly>, a: Anomaly)
    requires keys == Dedup(Days(done)) && forall d :: d in acc <==> d in keys
    ensures DayOf(a) in acc ==> keys == Dedup(Days(done + [a]))
    ensures DayOf(a) !in acc ==> keys + [DayOf(a)] == Dedup(Days(done + [a]))
    ensures DayOf(a) !in acc ==> DayOf(a) !in Days(done)
  {
    assert Days(done + [a]) == Days(done) + [DayOf(a)];
    DedupSnoc(Days(done), DayOf(a));
  }

  /** Entry e of the anomaly's day, counting the anomaly, moves every entry
      to the state of done + [a]. */
  lemma TallyStep(acc: map<string, TimelineEntry>, done: seq<Anomaly>, a: Anomaly, e: TimelineEntry)
    requires forall d <- acc.Keys :: acc[d] == EntryFor(done, d)
    requires e == EntryFor(done, DayOf(a))
    ensures forall d <- acc[DayOf(a) := Tally(e, a)].Keys ::
      acc[DayOf(a) := Tally(e, a)][d] == EntryFor(done + [a], d)
  {
    var acc' := acc[DayOf(a) := Tally(e, a)];
    forall d <- acc'.Keys ensures acc'[d] == EntryFor(done + [a], d) {
      AnomalySnoc(done, a, d);
    }
  }

  /** An anomaly of a day already present: its entry counts it. */
  lemma OldDayStep(acc: map<string, TimelineEntry>, keys: seq<string>, done: seq<Anomaly>, a: Anomaly)
    requires Tallied(acc, keys, done) && DayOf(a) in acc
    ensures Tallied(acc[DayOf(a) := Tally(acc[DayOf(a)], a)], keys, done + [a])
  {
    TallyStep(acc, done, a, acc[DayOf(a)]);
  }

  /** An anomaly of a new day: the new empty entry counts it. */
  lemma NewDayStep(acc: map<string, TimelineEntry>, keys: seq<string>, done: seq<Anomaly>, a: Anomaly)
    requires Tallied(acc, keys, done) && DayOf(a) !in acc && DayOf(a) !in Days(done)
    ensures Tallied(acc[DayOf(a) := Tally(TimelineEntry(DayOf(a), 0, 0, 0), a)], keys + [DayOf(a)], done + [a])
  {
    AbsentDay(done, DayOf(a));
    TallyStep(acc, done, a, TimelineEntry(DayOf(a), 0, 0, 0));
  }

  /** One iteration of the loop (backend/server.js:230-240). */
  method AddToTimeline(acc: map<string, TimelineEntry>, keys: seq<string>,
                       ghost done: seq<Anomaly>, ghost next: seq<Anomaly>, a: Anomaly)
    returns (acc': map<string, TimelineEntry>, keys': seq<string>)
    requires keys == Dedup(Days(done)) && Tallied(acc, keys, done)
    requires next == done + [a]
    ensures keys' == Dedup(Days(next)) && Tallied(acc', keys', next)
  {
    DaysStep(acc, keys, done, a);
    if DayOf(a) in acc {
      OldDayStep(acc, keys, done, a);
    } else {
      NewDayStep(acc, keys, done, a);
    }
    assert a.fecha == DayOf(a);
    var fecha := a.fecha;
    var e;
    if fecha !in acc {
      e := TimelineEntry(fecha, 0, 0, 0);
      keys' := keys + [fecha];
    } else {
      e := acc[fecha];
      keys' := keys;
    }
    ghost var e0 := e;
    e := e.(count := e.count + 1);
    if a.riesgo == Alto {
      e := e.(alto := e.alto + 1);
    } else {
      e := e.(medio := e.medio + 1);
    }
    assert e == Tally(e0, a);
    acc' := acc[fecha := e];
  }

  /** The loop filling timelineMap (backend/server.js:229-240). */
  method TimelineLoop(anoms: seq<Anomaly>) returns (acc: map<string, TimelineEntry>, keys: seq<string>)
    ensures keys == Dedup(Days(anoms)) && Tallied(acc, keys, anoms)
  {
    acc, keys := map[], [];
    var i := 0;
    while i < |anoms|
      invariant 0 <= i <= |anoms|
      invariant keys == Dedup(Days(anoms[..i]))
      invariant Tallied(acc, keys, anoms[..i])
    {
      TakeSnoc(anoms, i);
      acc, keys := AddToTimeline(acc, keys, anoms[..i], anoms[..i + 1], anoms[i]);
      i := i + 1;
    }
    assert anoms[..i] == anoms;
  }

  /** `Object.values(timelineMap)` after the loop. */
  method BuildTimelineGroups(anoms: seq<Anomaly>) returns (entries: seq<TimelineEntry>)
    ensures entries == TimelineGroups(anoms)
  {
    var acc, keys := TimelineLoop(anoms);
    entries := seq(|keys|, j requires 0 <= j < |keys| => acc[keys[j]]);
  }

  // ---------------------------------------------------------------------
  // Date order

  /** Lexicographic order on strings by character code, which is the order
      `localeCompare` gives on "YYYY-MM-DD" day strings. */
  predicate StrLt(a: string, b: string)
    decreases |a|
  {
    if b == [] then false
    else if a == [] then true
    else if a[0] != b[0] then a[0] < b[0]
    else StrLt(a[1..], b[1..])
  }

  lemma {:induction false} StrLtIrreflexive(a: string)
    ensures !StrLt(a, a)
    decreases |a|
  {
    if a != [] {
      StrLtIrreflexive(a[1..]);
    }
  }

  lemma {:induction false} StrLtTransitive(a: string, b: string, c: string)
    requires StrLt(a, b) && StrLt(b, c)
    ensures StrLt(a, c)
    decreases |a|
  {
    if a != [] && a[0] == b[0] && b[0] == c[0] {
      StrLtTransitive(a[1..], b[1..], c[1..]);
    }
  }

  lemma {:induction false} StrLtTotal(a: string, b: string)
    ensures a == b || StrLt(a, b) || StrLt(b, a)
    decreases |a|
  {
    if a != [] && b != [] && a[0] == b[0] {
      StrLtTotal(a[1..], b[1..]);
      if a[1..] == b[1..] {
        assert a == [a[0]] + a[1..] && b == [b[0]] + b[1..];
      }
    }
  }

  // ---------------------------------------------------------------------
  // Sorting by date, stable

  predicate Ascending(s: seq<TimelineEntry>) {
    forall i, j :: 0 <= i < j < |s| ==> StrLt(s[i].date, s[j].date)
  }

  /** Insert x before the first entry whose date is not below x's. */
  function InsertByDate(x: TimelineEntry, s: seq<TimelineEntry>): (r: seq<TimelineEntry>)
    ensures |r| == |s| + 1
    ensures multiset(r) == multiset(s) + multiset{x}
  {
    if s == [] || !StrLt(s[0].date, x.date) then [x] + s
    else
      assert s == [s[0]] + s[1..];
      [s[0]] + InsertByDate(x, s[1..])
  }

  /** `.sort((a, b) => a.date.localeCompare(b.date))`. */
  function SortByDate(s: seq<TimelineEntry>): (r: seq<TimelineEntry>)
    ensures |r| == |s|
    ensures multiset(r) == multiset(s)
  {
    if s == [] then []
    else
      assert s == [s[0]] + s[1..];
      InsertByDate(s[0], SortByDate(s[1..]))
  }

  /** Every date of s is above m. */
  predicate AllAbove(s: seq<TimelineEntry>, m: string) {
    forall i :: 0 <= i < |s| ==> StrLt(m, s[i].date)
  }

  lemma {:induction false} InsertAbove(x: TimelineEntry, s: seq<TimelineEntry>, m: string)
    requires AllAbove(s, m) && StrLt(m, x.date)
    ensures AllAbove(InsertByDate(x, s), m)
    decreases |s|
  {
    if s != [] && StrLt(s[0].date, x.date) {
      InsertAbove(x, s[1..], m);
    }
  }

  lemma AscendingTail(s: seq<TimelineEntry>)
    requires Ascending(s) && s != []
    ensures AllAbove(s[1..], s[0].date)
  {
    forall i | 0 <= i < |s[1..]| ensures StrLt(s[0].date, s[1..][i].date) {
      assert s[1..][i] == s[i + 1];
    }
  }

  /** Inserting an entry of a new date into an ascending list keeps it
      strictly ascending. */
  lemma {:induction false} InsertAscending(x: TimelineEntry, s: seq<TimelineEntry>)
    requires Ascending(s)
    requires forall i :: 0 <= i < |s| ==> s[i].date != x.date
    ensures Ascending(InsertByDate(x, s))
    decreases |s|
  {
    if s == [] {
    } else if !StrLt(s[0].date, x.date) {
      StrLtTotal(x.date, s[0].date);
      AscendingTail(s);
      forall i | 0 <= i < |s[1..]| ensures StrLt(x.date, s[1..][i].date) {
        StrLtTransitive(x.date, s[0].date, s[1..][i].date);
      }
      var r := [x] + s;
      forall i, j | 0 <= i < j < |r| ensures StrLt(r[i].date, r[j].date) {
        if i > 0 {
          assert r[i] == s[i - 1] && r[j] == s[j - 1];
        } else if j > 1 {
          assert r[j] == s[1..][j - 2];
        }
      }
    } else {
      var rest := InsertByDate(x, s[1..]);
      InsertAscending(x, s[1..]);
      AscendingTail(s);
      InsertAbove(x, s[1..], s[0].date);
      var r := [s[0]] + rest;
      forall i, j | 0 <= i < j < |r| ensures StrLt(r[i].date, r[j].date) {
        if i > 0 {
          assert r[i] == rest[i - 1] && r[j] == rest[j - 1];
        } else {
          assert r[j] == rest[j - 1];
        }
      }
    }
  }

  predicate DistinctDates(s: seq<TimelineEntry>) {
    forall i, j :: 0 <= i < j < |s| ==> s[i].date != s[j].date
  }

  /** With distinct dates, the sorted list is strictly ascending. */
  lemma {:induction false} SortAscending(s: seq<TimelineEntry>)
    requires DistinctDates(s)
    ensures Ascending(SortByDate(s))
    decreases |s|
  {
    if s != [] {
      var rest := SortByDate(s[1..]);
      SortAscending(s[1..]);
      forall i | 0 <= i < |rest| ensures rest[i].date != s[0].date {
        assert rest[i] in multiset(s[1..]);
        var k :| 0 <= k < |s[1..]| && s[1..][k] == rest[i];
        assert s[k + 1] == rest[i];
      }
      InsertAscending(s[0], rest);
    }
  }

  /** An entry is in the sorted list exactly when it is in the input. */
  lemma SortMembers(s: seq<TimelineEntry>, e: TimelineEntry)
    ensures e in SortByDate(s) <==> e in s
  {
    assert e in SortByDate(s) <==> e in multiset(SortByDate(s));
  }

  /** Sum of the counts of a list of entries. */
  function TotalCount(s: seq<TimelineEntry>): nat {
    if s == [] then 0 else s[0].count + TotalCount(s[1..])
  }

  lemma {:induction false} InsertTotal(x: TimelineEntry, s: seq<TimelineEntry>)
    ensures TotalCount(InsertByDate(x, s)) == x.count + TotalCount(s)
    decreases |s|
  {
    if s == [] || !StrLt(s[0].date, x.date) {
      assert ([x] + s)[1..] == s;
    } else {
      InsertTotal(x, s[1..]);
      assert ([s[0]] + InsertByDate(x, s[1..]))[1..] == InsertByDate(x, s[1..]);
    }
  }

  lemma {:induction false} SortTotal(s: seq<TimelineEntry>)
    ensures TotalCount(SortByDate(s)) == TotalCount(s)
    decreases |s|
  {
    if s != [] {
      SortTotal(s[1..]);
      InsertTotal(s[0], SortByDate(s[1..]));
    }
  }

  /** The response's `timeline`. */
  function TimelineOf(anoms: seq<Anomaly>): seq<TimelineEntry> {
    SortByDate(TimelineGroups(anoms))
  }

  // ---------------------------------------------------------------------
  // What the timeline holds

  lemma {:induction false} CountOnIsCountOf(anoms: seq<Anomaly>, d: string)
    ensures CountOn(anoms, d) == CountOf(Days(anoms), d)
    decreases |anoms|
  {
    if anoms != [] {
      var init := anoms[..|anoms| - 1];
      CountOnIsCountOf(init, d);
      assert Days(anoms) == Days(init) + [DayOf(anoms[|anoms| - 1])];
      CountOfSnoc(Days(init), DayOf(anoms[|anoms| - 1]), d);
    }
  }

  /** Every anomaly of a day is either 'Alto' or 'Medio'. */
  lemma {:induction false} RiskSplitOn(anoms: seq<Anomaly>, d: string)
    ensures CountOn(anoms, d) == RiskOn(anoms, d, Alto) + RiskOn(anoms, d, Medio)
    decreases |anoms|
  {
    if anoms != [] {
      RiskSplitOn(anoms[..|anoms| - 1], d);
    }
  }

  lemma {:induction false} TotalCountIsSumCounts(anoms: seq<Anomaly>, keys: seq<string>)
    ensures TotalCount(seq(|keys|, j requires 0 <= j < |keys| => EntryFor(anoms, keys[j])))
            == SumCounts(keys, Days(anoms))
    decreases |keys|
  {
    var es := seq(|keys|, j requires 0 <= j < |keys| => EntryFor(anoms, keys[j]));
    if keys != [] {
      CountOnIsCountOf(anoms, keys[0]);
      assert es[1..] == seq(|keys[1..]|, j requires 0 <= j < |keys[1..]| => EntryFor(anoms, keys[1..][j]));
      TotalCountIsSumCounts(anoms, keys[1..]);
    }
  }

  /** The counts of all entries add up to the number of anomalies. */
  lemma TimelineCountsAddUp(anoms: seq<Anomaly>)
    ensures TotalCount(TimelineOf(anoms)) == |anoms|
  {
    var keys := Dedup(Days(anoms));
    assert TimelineGroups(anoms) == seq(|keys|, j requires 0 <= j < |keys| => EntryFor(anoms, keys[j]));
    TotalCountIsSumCounts(anoms, keys);
    SumCountsCovers(keys, Days(anoms));
    SortTotal(TimelineGroups(anoms));
  }

  /** Strictly ascending dates: one entry per day, in date order. */
  lemma TimelineAscending(anoms: seq<Anomaly>)
    ensures Ascending(TimelineOf(anoms))
  {
    var keys := Dedup(Days(anoms));
    var es := TimelineGroups(anoms);
    forall i, j | 0 <= i < j < |es| ensures es[i].date != es[j].date {
      assert es[i].date == keys[i] && es[j].date == keys[j];
    }
    SortAscending(es);
  }

  /** Each entry is the entry of an anomaly day, its count splits into
      'Alto' and 'Medio', and every anomaly day has an entry. */
  lemma TimelineEntries(anoms: seq<Anomaly>)
    ensures forall e <- TimelineOf(anoms) ::
      e.date in Days(anoms) && e == EntryFor(anoms, e.date) && e.count == e.alto + e.medio && e.count > 0
    ensures forall a <- anoms :: exists e <- TimelineOf(anoms) :: e.date == a.fecha
  {
    var keys := Dedup(Days(anoms));
    var es := TimelineGroups(anoms);
    forall e <- TimelineOf(anoms)
      ensures e.date in Days(anoms) && e == EntryFor(anoms, e.date) && e.count == e.alto + e.medio && e.count > 0
    {
      SortMembers(es, e);
      var j :| 0 <= j < |es| && es[j] == e;
      RiskSplitOn(anoms, keys[j]);
      CountOnIsCountOf(anoms, keys[j]);
      CountOfPositive(Days(anoms), keys[j]);
    }
    forall a <- anoms ensures exists e <- TimelineOf(anoms) :: e.date == a.fecha {
      var i :| 0 <= i < |anoms| && anoms[i] == a;
      assert DayOf(a) in Days(anoms);
      var j :| 0 <= j < |keys| && keys[j] == DayOf(a);
      SortMembers(es, es[j]);
    }
  }
}
