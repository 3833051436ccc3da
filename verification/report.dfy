/**
 * Report 1: one row per (ISIN, date) with the opening, closing, minimum and
 * maximum price, the traded volume, and the change of the opening price
 * against the same ISIN's previous trading date.
 */
module Report {
  import opened Wrappers
  import opened Dates
  import opened Text
  import opened Tables

  /** A trade row with a value in every column the report uses. */
  datatype Trade = Trade(
    isin: string,
    date: Date,
    time: int,
    startPrice: int,
    minPrice: int,
    maxPrice: int,
    volume: int)

  /** The group-by key. */
  type Key = (string, Date)

  function KeyOf(t: Trade): Key
  {
    (t.isin, t.date)
  }

  /** Group order: by ISIN text, then by date. */
  predicate KeyLess(a: Key, b: Key)
  {
    StrLess(a.0, b.0) || (a.0 == b.0 && a.1 < b.1)
  }

  lemma KeyLessIrreflexive(a: Key)
    ensures !KeyLess(a, a)
  {
    StrLessIrreflexive(a.0);
  }

  lemma KeyLessTransitive(a: Key, b: Key, c: Key)
    requires KeyLess(a, b) && KeyLess(b, c)
    ensures KeyLess(a, c)
  {
    if StrLess(a.0, b.0) && StrLess(b.0, c.0) {
      StrLessTransitive(a.0, b.0, c.0);
    }
  }

  lemma KeyLessTotal(a: Key, b: Key)
    requires a != b
    ensures KeyLess(a, b) || KeyLess(b, a)
  {
    if a.0 != b.0 {
      StrLessTotal(a.0, b.0);
    }
  }

  // ---------------------------------------------------------------------
  // Dropping incomplete rows

  /** A raw row survives dropping incomplete rows when none of the selected columns is missing in it. */
  predicate Complete(r: RawTrade, selected: set<string>)
  {
    && r.isin.Some? && r.date.Some? && r.time.Some? && r.startPrice.Some?
    && r.minPrice.Some? && r.maxPrice.Some? && r.tradedVolume.Some?
    && r.blanks !! selected
  }

  function ToTrade(r: RawTrade): Trade
    requires r.isin.Some? && r.date.Some? && r.time.Some? && r.startPrice.Some?
    requires r.minPrice.Some? && r.maxPrice.Some? && r.tradedVolume.Some?
  {
    Trade(r.isin.value, r.date.value, r.time.value, r.startPrice.value,
          r.minPrice.value, r.maxPrice.value, r.tradedVolume.value)
  }

  /** The complete rows, in their order. */
  function DropNa(rows: seq<RawTrade>, selected: set<string>): (r: seq<Trade>)
    ensures |r| <= |rows|
  {
    if rows == [] then []
    else (if Complete(rows[0], selected) then [ToTrade(rows[0])] else []) + DropNa(rows[1..], selected)
  }

  /**
   * Exactly the complete rows are kept. Their order and multiplicity are
   * those of the input, as the definition keeps each complete row in place.
   */
  lemma {:induction false} DropNaMembers(rows: seq<RawTrade>, selected: set<string>)
    ensures forall t :: t in DropNa(rows, selected) <==>
      exists r :: r in rows && Complete(r, selected) && ToTrade(r) == t
  {
    if rows != [] {
      DropNaMembers(rows[1..], selected);
      assert rows == [rows[0]] + rows[1..];
    }
  }

  // ---------------------------------------------------------------------
  // One group's figures

  /**
   * The figures of one (ISIN, date) group: the earliest time and the start
   * price there, the latest time and the start price there, the lowest
   * minimum price, the highest maximum price and the summed volume.
   */
  datatype Summary = Summary(
    firstTime: int,
    open: int,
    lastTime: int,
    close: int,
    low: int,
    high: int,
    volume: int)

  function Single(t: Trade): Summary
  {
    Summary(t.time, t.startPrice, t.time, t.startPrice, t.minPrice, t.maxPrice, t.volume)
  }

  /**
   * The figures after the row t, which comes after the rows s describes:
   * among rows of equal time the opening price is the first one's and the
   * closing price the last one's.
   */
  function Add(s: Summary, t: Trade): Summary
  {
    Summary(
      if t.time < s.firstTime then t.time else s.firstTime,
      if t.time < s.firstTime then t.startPrice else s.open,
      if s.lastTime <= t.time then t.time else s.lastTime,
      if s.lastTime <= t.time then t.startPrice else s.close,
      if t.minPrice < s.low then t.minPrice else s.low,
      if t.maxPrice > s.high then t.maxPrice else s.high,
      s.volume + t.volume)
  }

  function Summarize(g: seq<Trade>): Summary
    requires g != []
  {
    if |g| == 1 then Single(g[0]) else Add(Summarize(g[..|g| - 1]), g[|g| - 1])
  }

  function TotalVolume(g: seq<Trade>): int
  {
    if g == [] then 0 else g[0].volume + TotalVolume(g[1..])
  }

  lemma {:induction false} TotalVolumeSnoc(g: seq<Trade>, t: Trade)
    ensures TotalVolume(g + [t]) == TotalVolume(g) + t.volume
  {
    if g != [] {
      assert (g + [t])[1..] == g[1..] + [t];
      TotalVolumeSnoc(g[1..], t);
    }
  }

  /** The earliest time of g, first reached at row i with start price open. */
  ghost predicate OpensAt(g: seq<Trade>, i: int, firstTime: int, open: int)
  {
    && 0 <= i < |g| && g[i].time == firstTime && g[i].startPrice == open
    && (forall j :: 0 <= j < |g| ==> firstTime <= g[j].time)
    && (forall j :: 0 <= j < i ==> g[j].time != firstTime)
  }

  /** The latest time of g, last reached at row i with start price close. */
  ghost predicate ClosesAt(g: seq<Trade>, i: int, lastTime: int, close: int)
  {
    && 0 <= i < |g| && g[i].time == lastTime && g[i].startPrice == close
    && (forall j :: 0 <= j < |g| ==> g[j].time <= lastTime)
    && (forall j :: i < j < |g| ==> g[j].time != lastTime)
  }

  /** s holds the figures of the non-empty group g. */
  ghost predicate Describes(s: Summary, g: seq<Trade>)
  {
    && (exists i :: OpensAt(g, i, s.firstTime, s.open))
    && (exists i :: ClosesAt(g, i, s.lastTime, s.close))
    && (forall j :: 0 <= j < |g| ==> s.low <= g[j].minPrice && g[j].maxPrice <= s.high)
    && (exists j :: 0 <= j < |g| && g[j].minPrice == s.low)
    && (exists j :: 0 <= j < |g| && g[j].maxPrice == s.high)
    && s.volume == TotalVolume(g)
  }

  lemma {:induction false} SummarizeOpens(g: seq<Trade>)
    requires g != []
    ensures exists i :: OpensAt(g, i, Summarize(g).firstTime, Summarize(g).open)
    decreases |g|
  {
    var s := Summarize(g);
    if |g| == 1 {
      assert OpensAt(g, 0, s.firstTime, s.open);
    } else {
      var p := g[..|g| - 1];
      var t := g[|g| - 1];
      SummarizeOpens(p);
      var q := Summarize(p);
      var i :| OpensAt(p, i, q.firstTime, q.open);
      if t.time < q.firstTime {
        assert OpensAt(g, |g| - 1, s.firstTime, s.open);
      } else {
        assert OpensAt(g, i, s.firstTime, s.open);
      }
    }
  }

  lemma {:induction false} SummarizeCloses(g: seq<Trade>)
    requires g != []
    ensures exists i :: ClosesAt(g, i, Summarize(g).lastTime, Summarize(g).close)
    decreases |g|
  {
    var s := Summarize(g);
    if |g| == 1 {
      assert ClosesAt(g, 0, s.lastTime, s.close);
    } else {
      var p := g[..|g| - 1];
      var t := g[|g| - 1];
      SummarizeCloses(p);
      var q := Summarize(p);
      var i :| ClosesAt(p, i, q.lastTime, q.close);
      if q.lastTime <= t.time {
        assert ClosesAt(g, |g| - 1, s.lastTime, s.close);
      } else {
        assert ClosesAt(g, i, s.lastTime, s.close);
      }
    }
  }

  lemma {:induction false} SummarizeExtremes(g: seq<Trade>)
    requires g != []
    ensures forall j :: 0 <= j < |g| ==> Summarize(g).low <= g[j].minPrice && g[j].maxPrice <= Summarize(g).high
    ensures exists j :: 0 <= j < |g| && g[j].minPrice == Summarize(g).low
    ensures exists j :: 0 <= j < |g| && g[j].maxPrice == Summarize(g).high
    decreases |g|
  {
    var s := Summarize(g);
    if |g| > 1 {
      var p := g[..|g| - 1];
      var t := g[|g| - 1];
      SummarizeExtremes(p);
      var q := Summarize(p);
      var il :| 0 <= il < |p| && p[il].minPrice == q.low;
      if t.minPrice < q.low {
        assert g[|g| - 1].minPrice == s.low;
      } else {
        assert g[il].minPrice == s.low;
      }
      var ih :| 0 <= ih < |p| && p[ih].maxPrice == q.high;
      if t.maxPrice > q.high {
        assert g[|g| - 1].maxPrice == s.high;
      } else {
        assert g[ih].maxPrice == s.high;
      }
    } else {
      assert g[0].minPrice == s.low;
    }
  }

  lemma {:induction false} SummarizeVolume(g: seq<Trade>)
    requires g != []
    ensures Summarize(g).volume == TotalVolume(g)
    decreases |g|
  {
    var p := g[..|g| - 1];
    var t := g[|g| - 1];
    assert g == p + [t];
    TotalVolumeSnoc(p, t);
    if |g| > 1 {
      SummarizeVolume(p);
    }
  }

  /**
   * The opening price is the start price of the earliest row, the closing
   * price that of the latest row, the minimum and maximum are the extremes
   * of the group and the volume is its sum.
   */
  lemma SummarizeDescribes(g: seq<Trade>)
    requires g != []
    ensures Describes(Summarize(g), g)
  {
    SummarizeOpens(g);
    SummarizeCloses(g);
    SummarizeExtremes(g);
    SummarizeVolume(g);
  }

  // ---------------------------------------------------------------------
  // Group-by over (ISIN, date)

  /** The rows of ts whose key is k, in their order. */
  function GroupOf(ts: seq<Trade>, k: Key): (g: seq<Trade>)
  {
    if ts == [] then []
    else GroupOf(ts[..|ts| - 1], k) + (if KeyOf(ts[|ts| - 1]) == k then [ts[|ts| - 1]] else [])
  }

  /** A group holds exactly the trades with its key; their order is that of ts, by the definition. */
  lemma {:induction false} GroupOfMembers(ts: seq<Trade>, k: Key)
    ensures forall t :: t in GroupOf(ts, k) <==> t in ts && KeyOf(t) == k
  {
    if ts != [] {
      GroupOfMembers(ts[..|ts| - 1], k);
      assert ts == ts[..|ts| - 1] + [ts[|ts| - 1]];
    }
  }

  /** The keys that occur in ts. */
  ghost function TradeKeys(ts: seq<Trade>): set<Key>
  {
    set t | t in ts :: KeyOf(t)
  }

  /** One aggregated group. */
  datatype DailyGroup = DailyGroup(isin: string, date: Date, summary: Summary)

  function GKey(g: DailyGroup): Key
  {
    (g.isin, g.date)
  }

  /** Groups strictly ascending by key: each key at most once. */
  ghost predicate SortedByKey(a: seq<DailyGroup>)
  {
    forall i, j :: 0 <= i < j < |a| ==> KeyLess(GKey(a[i]), GKey(a[j]))
  }

  ghost function GroupKeys(a: seq<DailyGroup>): set<Key>
  {
    set g | g in a :: GKey(g)
  }

  /** The figures stored for key k. */
  function Lookup(a: seq<DailyGroup>, k: Key): Option<Summary>
  {
    if a == [] then None
    else if GKey(a[0]) == k then Some(a[0].summary)
    else Lookup(a[1..], k)
  }

  function Extend(s: Option<Summary>, t: Trade): Summary
  {
    match s
    case None => Single(t)
    case Some(x) => Add(x, t)
  }

  /** Adds the row t to its group, creating the group in key order when it is new. */
  function Insert(a: seq<DailyGroup>, t: Trade): seq<DailyGroup>
  {
    if a == [] then [DailyGroup(t.isin, t.date, Single(t))]
    else if GKey(a[0]) == KeyOf(t) then [a[0].(summary := Add(a[0].summary, t))] + a[1..]
    else if KeyLess(KeyOf(t), GKey(a[0])) then [DailyGroup(t.isin, t.date, Single(t))] + a
    else [a[0]] + Insert(a[1..], t)
  }

  lemma HeadGroupBelowTail(a: seq<DailyGroup>)
    requires SortedByKey(a) && a != []
    ensures forall k :: k in GroupKeys(a[1..]) ==> KeyLess(GKey(a[0]), k)
  {
    forall k | k in GroupKeys(a[1..]) ensures KeyLess(GKey(a[0]), k) {
      var g :| g in a[1..] && GKey(g) == k;
      var j :| 0 <= j < |a[1..]| && a[1..][j] == g;
      assert a[j + 1] == g;
    }
  }

  lemma ConsGroupSorted(h: DailyGroup, a: seq<DailyGroup>)
    requires SortedByKey(a)
    requires forall k :: k in GroupKeys(a) ==> KeyLess(GKey(h), k)
    ensures SortedByKey([h] + a)
  {
    var r := [h] + a;
    forall i, j | 0 <= i < j < |r| ensures KeyLess(GKey(r[i]), GKey(r[j])) {
      if i == 0 {
        assert r[j] == a[j - 1] && a[j - 1] in a;
      } else {
        assert r[i] == a[i - 1] && r[j] == a[j - 1];
      }
    }
  }

  lemma GroupKeysCons(h: DailyGroup, a: seq<DailyGroup>)
    ensures GroupKeys([h] + a) == {GKey(h)} + GroupKeys(a)
  {
    assert forall g :: g in [h] + a <==> g == h || g in a;
  }

  /** Adding a row keeps the groups sorted, adds its key, and extends that key's figures and no other. */
  lemma {:induction false} InsertSpec(a: seq<DailyGroup>, t: Trade)
    requires SortedByKey(a)
    ensures SortedByKey(Insert(a, t))
    ensures GroupKeys(Insert(a, t)) == GroupKeys(a) + {KeyOf(t)}
    ensures forall k :: Lookup(Insert(a, t), k) == if k == KeyOf(t) then Some(Extend(Lookup(a, k), t)) else Lookup(a, k)
  {
    var nt := DailyGroup(t.isin, t.date, Single(t));
    if a == [] {
      assert GroupKeys([nt]) == {KeyOf(t)} by { GroupKeysCons(nt, []); }
    } else {
      var h := a[0];
      assert a == [h] + a[1..];
      GroupKeysCons(h, a[1..]);
      HeadGroupBelowTail(a);
      assert SortedByKey(a[1..]);
      if GKey(h) == KeyOf(t) {
        var h' := h.(summary := Add(h.summary, t));
        GroupKeysCons(h', a[1..]);
        ConsGroupSorted(h', a[1..]);
      } else if KeyLess(KeyOf(t), GKey(h)) {
        GroupKeysCons(nt, a);
        forall k | k in GroupKeys(a) ensures KeyLess(GKey(nt), k) {
          if k != GKey(h) {
            KeyLessTransitive(GKey(nt), GKey(h), k);
          }
        }
        ConsGroupSorted(nt, a);
        forall k | k != KeyOf(t) ensures Lookup([nt] + a, k) == Lookup(a, k) { }
        assert Lookup(a, KeyOf(t)) == None by { LookupAbsent(a, KeyOf(t)); KeyLessIrreflexive(KeyOf(t)); }
      } else {
        KeyLessTotal(KeyOf(t), GKey(h));
        InsertSpec(a[1..], t);
        var rest := Insert(a[1..], t);
        GroupKeysCons(h, rest);
        ConsGroupSorted(h, rest);
      }
    }
  }

  /** A key is stored only if it is among the groups' keys; in sorted groups, below the first key nothing is stored. */
  lemma {:induction false} LookupAbsent(a: seq<DailyGroup>, k: Key)
    ensures k !in GroupKeys(a) ==> Lookup(a, k) == None
    ensures SortedByKey(a) && a != [] && KeyLess(k, GKey(a[0])) ==> Lookup(a, k) == None
  {
    if a != [] {
      GroupKeysCons(a[0], a[1..]);
      assert a == [a[0]] + a[1..];
      LookupAbsent(a[1..], k);
      if SortedByKey(a) && KeyLess(k, GKey(a[0])) {
        KeyLessIrreflexive(k);
        HeadGroupBelowTail(a);
        forall x | x in GroupKeys(a[1..]) ensures x != k {
          if x == k { KeyLessTransitive(k, GKey(a[0]), k); KeyLessIrreflexive(k); }
        }
      }
    }
  }

  /** Groups the rows by key, in key order. */
  function Aggregate(ts: seq<Trade>): seq<DailyGroup>
  {
    if ts == [] then [] else Insert(Aggregate(ts[..|ts| - 1]), ts[|ts| - 1])
  }

  /** The groups are strictly ascending by (ISIN, date) and their keys are the keys of the rows. */
  lemma {:induction false} AggregateShape(ts: seq<Trade>)
    ensures SortedByKey(Aggregate(ts))
    ensures GroupKeys(Aggregate(ts)) == TradeKeys(ts)
  {
    if ts != [] {
      var p := ts[..|ts| - 1];
      var t := ts[|ts| - 1];
      AggregateShape(p);
      InsertSpec(Aggregate(p), t);
      assert TradeKeys(ts) == TradeKeys(p) + {KeyOf(t)} by {
        assert ts == p + [t];
        assert forall x :: x in ts <==> x in p || x == t;
      }
    }
  }

  /** Each key's figures summarize exactly the rows with that key; keys without rows have none. */
  lemma {:induction false} AggregateLookup(ts: seq<Trade>, k: Key)
    ensures Lookup(Aggregate(ts), k) == if GroupOf(ts, k) == [] then None else Some(Summarize(GroupOf(ts, k)))
  {
    if ts != [] {
      var p := ts[..|ts| - 1];
      var t := ts[|ts| - 1];
      var a := Aggregate(p);
      AggregateShape(p);
      AggregateLookup(p, k);
      InsertSpec(a, t);
      assert Aggregate(ts) == Insert(a, t);
      var g0 := GroupOf(p, k);
      if k == KeyOf(t) {
        var g := GroupOf(ts, k);
        assert g == g0 + [t];
        assert Lookup(Insert(a, t), k) == Some(Extend(Lookup(a, k), t));
        if g0 == [] {
          assert g == [t];
        } else {
          assert g[..|g| - 1] == g0;
          assert Summarize(g) == Add(Summarize(g0), t);
        }
      } else {
        assert GroupOf(ts, k) == g0;
        assert Lookup(Insert(a, t), k) == Lookup(a, k);
      }
    }
  }

  /** In sorted groups, looking up a group's key finds that group's figures. */
  lemma {:induction false} LookupAt(a: seq<DailyGroup>, i: int)
    requires SortedByKey(a) && 0 <= i < |a|
    ensures Lookup(a, GKey(a[i])) == Some(a[i].summary)
  {
    if i > 0 {
      assert SortedByKey(a[1..]);
      assert KeyLess(GKey(a[0]), GKey(a[i]));
      if GKey(a[0]) == GKey(a[i]) { KeyLessIrreflexive(GKey(a[i])); }
      LookupAt(a[1..], i - 1);
    }
  }

  /** Each aggregated group summarizes the non-empty group of rows with its key. */
  lemma AggregateAt(ts: seq<Trade>, i: int)
    requires 0 <= i < |Aggregate(ts)|
    ensures GroupOf(ts, GKey(Aggregate(ts)[i])) != []
    ensures Aggregate(ts)[i].summary == Summarize(GroupOf(ts, GKey(Aggregate(ts)[i])))
  {
    AggregateShape(ts);
    AggregateLookup(ts, GKey(Aggregate(ts)[i]));
    LookupAt(Aggregate(ts), i);
  }

  // ---------------------------------------------------------------------
  // Change against the previous trading date

  /** The percent change from prev to open; none where prev is zero. */
  function PctChange(open: int, prev: int): (r: Option<real>)
    ensures r.Some? <==> prev != 0
    ensures r.Some? ==> r.value * (prev as real) == ((open - prev) as real) * 100.0
  {
    if prev == 0 then None else Some((open - prev) as real / prev as real * 100.0)
  }

  /** The opening price of the group before a[i] when it is the same ISIN's. */
  function PrevOpen(a: seq<DailyGroup>, i: int): Option<int>
    requires 0 <= i < |a|
  {
    if i > 0 && a[i - 1].isin == a[i].isin then Some(a[i - 1].summary.open) else None
  }

  function ChangeAt(a: seq<DailyGroup>, i: int): Option<real>
    requires 0 <= i < |a|
  {
    match PrevOpen(a, i)
    case None => None
    case Some(prev) => PctChange(a[i].summary.open, prev)
  }

  /**
   * In sorted groups, the group before a[i] is the same ISIN's exactly when
   * that ISIN has an earlier date, and then it is the latest earlier date.
   */
  lemma PrevGroup(a: seq<DailyGroup>, i: int)
    requires SortedByKey(a) && 0 <= i < |a|
    ensures PrevOpen(a, i).Some? ==>
      && a[i - 1].date < a[i].date
      && forall j :: 0 <= j < |a| && a[j].isin == a[i].isin && a[j].date < a[i].date ==> a[j].date <= a[i - 1].date
    ensures PrevOpen(a, i).None? ==>
      forall j :: 0 <= j < |a| && a[j].isin == a[i].isin ==> a[i].date <= a[j].date
  {
    var isin := a[i].isin;
    StrLessIrreflexive(isin);
    forall j | 0 <= j < |a| && a[j].isin == isin && a[j].date < a[i].date
      ensures j < i
    {
    }
    if PrevOpen(a, i).Some? {
      assert KeyLess(GKey(a[i - 1]), GKey(a[i]));
      forall j | 0 <= j < |a| && a[j].isin == isin && a[j].date < a[i].date
        ensures a[j].date <= a[i - 1].date
      {
        if j < i - 1 { assert KeyLess(GKey(a[j]), GKey(a[i - 1])); }
      }
    } else {
      forall j | 0 <= j < |a| && a[j].isin == isin
        ensures a[i].date <= a[j].date
      {
        if a[j].date < a[i].date {
          assert j < i;
          assert KeyLess(GKey(a[i - 1]), GKey(a[i]));
          assert StrLess(a[i - 1].isin, isin);
          if j < i - 1 {
            assert KeyLess(GKey(a[j]), GKey(a[i - 1]));
            StrLessTransitive(isin, a[i - 1].isin, isin);
          }
        }
      }
    }
  }

  /** A report row from a group and its change value. */
  function ToRow(g: DailyGroup, change: Option<real>): ReportRow
  {
    ReportRow(g.isin, g.date, g.summary.open, g.summary.close, g.summary.low,
              g.summary.high, g.summary.volume, change)
  }

  /** One row per group, with its change against the group before it when that is the same ISIN's. */
  function WithChanges(a: seq<DailyGroup>): seq<ReportRow>
  {
    seq(|a|, i requires 0 <= i < |a| => ToRow(a[i], ChangeAt(a, i)))
  }

  /**
   * In sorted groups, each row carries its group's key and figures. Its
   * change is none when no group of the same ISIN has an earlier date.
   * Otherwise it is the change of its opening price against the opening
   * price of that ISIN's latest earlier group.
   */
  lemma WithChangesPrevDate(a: seq<DailyGroup>, i: int)
    requires SortedByKey(a) && 0 <= i < |a|
    ensures var r := WithChanges(a)[i];
      && RKey(r) == GKey(a[i])
      && r.openingPrice == a[i].summary.open && r.closingPrice == a[i].summary.close
      && r.minimumPrice == a[i].summary.low && r.maximumPrice == a[i].summary.high
      && r.dailyTradedVolume == a[i].summary.volume
      && ((forall j :: 0 <= j < |a| && a[j].isin == a[i].isin ==> a[i].date <= a[j].date) ==>
            r.changePrevClosing == None)
      && (!(forall j :: 0 <= j < |a| && a[j].isin == a[i].isin ==> a[i].date <= a[j].date) ==>
            exists p :: 0 <= p < |a| && a[p].isin == a[i].isin && a[p].date < a[i].date
              && (forall j :: 0 <= j < |a| && a[j].isin == a[i].isin && a[j].date < a[i].date ==> a[j].date <= a[p].date)
              && r.changePrevClosing == PctChange(a[i].summary.open, a[p].summary.open))
  {
    PrevGroup(a, i);
    if PrevOpen(a, i).Some? {
      assert i - 1 < |a| && a[i - 1].isin == a[i].isin && a[i - 1].date < a[i].date;
    }
  }

  // ---------------------------------------------------------------------
  // Cutoff filter and the whole report

  function RKey(r: ReportRow): Key
  {
    (r.isin, r.date)
  }

  ghost predicate RowsSorted(rows: seq<ReportRow>)
  {
    forall i, j :: 0 <= i < j < |rows| ==> KeyLess(RKey(rows[i]), RKey(rows[j]))
  }

  /** The rows dated on or after d, in their order. */
  function KeepFrom(rows: seq<ReportRow>, d: Date): (r: seq<ReportRow>)
  {
    if rows == [] then []
    else (if rows[0].date >= d then [rows[0]] else []) + KeepFrom(rows[1..], d)
  }

  /** The filter keeps exactly the rows dated on or after d and keeps them in key order. */
  lemma {:induction false} KeepFromSpec(rows: seq<ReportRow>, d: Date)
    ensures forall r :: r in KeepFrom(rows, d) <==> r in rows && r.date >= d
    ensures RowsSorted(rows) ==> RowsSorted(KeepFrom(rows, d))
  {
    if rows != [] {
      var tail := rows[1..];
      assert rows == [rows[0]] + tail;
      KeepFromSpec(tail, d);
      if RowsSorted(rows) {
        assert RowsSorted(tail);
        var kept := KeepFrom(tail, d);
        var r := (if rows[0].date >= d then [rows[0]] else []) + kept;
        forall i, j | 0 <= i < j < |r| ensures KeyLess(RKey(r[i]), RKey(r[j])) {
          if rows[0].date >= d && i == 0 {
            assert r[j] == kept[j - 1] && kept[j - 1] in tail;
            var m :| 0 <= m < |tail| && tail[m] == r[j];
            assert rows[m + 1] == r[j];
          }
        }
      }
    }
  }

  /**
   * Report 1 over complete rows: group, summarize, compute the change
   * against the previous date, then drop the groups dated before d.
   */
  function Report1(ts: seq<Trade>, d: Date): seq<ReportRow>
  {
    KeepFrom(WithChanges(Aggregate(ts)), d)
  }

  /** The row's figures describe the group g. */
  ghost predicate RowDescribes(r: ReportRow, g: seq<Trade>)
  {
    && g != []
    && (exists i, t :: OpensAt(g, i, t, r.openingPrice))
    && (exists i, t :: ClosesAt(g, i, t, r.closingPrice))
    && (forall j :: 0 <= j < |g| ==> r.minimumPrice <= g[j].minPrice && g[j].maxPrice <= r.maximumPrice)
    && (exists j :: 0 <= j < |g| && g[j].minPrice == r.minimumPrice)
    && (exists j :: 0 <= j < |g| && g[j].maxPrice == r.maximumPrice)
    && r.dailyTradedVolume == TotalVolume(g)
  }

  lemma RowAt(ts: seq<Trade>, i: int)
    requires 0 <= i < |Aggregate(ts)|
    ensures RowDescribes(WithChanges(Aggregate(ts))[i], GroupOf(ts, GKey(Aggregate(ts)[i])))
  {
    var a := Aggregate(ts);
    AggregateAt(ts, i);
    var g := GroupOf(ts, GKey(a[i]));
    SummarizeDescribes(g);
    var s := Summarize(g);
    var io :| OpensAt(g, io, s.firstTime, s.open);
    var ic :| ClosesAt(g, ic, s.lastTime, s.close);
  }

  lemma GroupOfNonEmpty(ts: seq<Trade>, k: Key)
    ensures GroupOf(ts, k) != [] <==> k in TradeKeys(ts)
  {
    GroupOfMembers(ts, k);
    if k in TradeKeys(ts) {
      var t :| t in ts && KeyOf(t) == k;
      assert t in GroupOf(ts, k);
    }
  }

  /** Report 1 is ascending by ISIN then date, so it has at most one row per (ISIN, date). */
  lemma Report1Sorted(ts: seq<Trade>, d: Date)
    ensures RowsSorted(Report1(ts, d))
  {
    var a := Aggregate(ts);
    var w := WithChanges(a);
    AggregateShape(ts);
    KeepFromSpec(w, d);
    assert RowsSorted(w) by {
      forall i, j | 0 <= i < j < |w| ensures KeyLess(RKey(w[i]), RKey(w[j])) {
        assert RKey(w[i]) == GKey(a[i]) && RKey(w[j]) == GKey(a[j]);
      }
    }
  }

  lemma Report1HasKey(ts: seq<Trade>, d: Date, k: Key)
    requires k in TradeKeys(ts) && k.1 >= d
    ensures exists r :: r in Report1(ts, d) && RKey(r) == k
  {
    var a := Aggregate(ts);
    var w := WithChanges(a);
    AggregateShape(ts);
    KeepFromSpec(w, d);
    assert k in GroupKeys(a);
    var g :| g in a && GKey(g) == k;
    var i :| 0 <= i < |a| && a[i] == g;
    var r := w[i];
    assert r == ToRow(a[i], ChangeAt(a, i));
    assert RKey(r) == k && r.date >= d;
    assert r in w;
    assert r in KeepFrom(w, d);
  }

  lemma Report1KeyOfRow(ts: seq<Trade>, d: Date, r: ReportRow)
    requires r in Report1(ts, d)
    ensures RKey(r) in TradeKeys(ts) && r.date >= d
  {
    var a := Aggregate(ts);
    var w := WithChanges(a);
    AggregateShape(ts);
    KeepFromSpec(w, d);
    var i :| 0 <= i < |w| && w[i] == r;
    assert a[i] in a;
  }

  /** Report 1 has a row for exactly the (ISIN, date) pairs of the complete rows dated on or after d. */
  lemma Report1Keys(ts: seq<Trade>, d: Date)
    ensures forall k :: (exists r :: r in Report1(ts, d) && RKey(r) == k) <==> k in TradeKeys(ts) && k.1 >= d
  {
    forall k ensures (exists r :: r in Report1(ts, d) && RKey(r) == k) <==> k in TradeKeys(ts) && k.1 >= d {
      if k in TradeKeys(ts) && k.1 >= d {
        Report1HasKey(ts, d, k);
      }
      if exists r :: r in Report1(ts, d) && RKey(r) == k {
        var r :| r in Report1(ts, d) && RKey(r) == k;
        Report1KeyOfRow(ts, d, r);
      }
    }
  }

  /**
   * Each row of Report 1 is dated on or after d and carries its group's
   * figures: the start price at the earliest and at the latest time, the
   * extremes of the minimum and maximum prices, the summed volume.
   */
  lemma Report1Figures(ts: seq<Trade>, d: Date)
    ensures forall r :: r in Report1(ts, d) ==> r.date >= d && RowDescribes(r, GroupOf(ts, RKey(r)))
  {
    var w := WithChanges(Aggregate(ts));
    KeepFromSpec(w, d);
    forall r | r in Report1(ts, d) ensures r.date >= d && RowDescribes(r, GroupOf(ts, RKey(r))) {
      var i :| 0 <= i < |w| && w[i] == r;
      RowAt(ts, i);
    }
  }

  /** p is the same ISIN's latest date before d among the rows. */
  ghost predicate PrevDay(ts: seq<Trade>, isin: string, d: Date, p: Date)
  {
    && GroupOf(ts, (isin, p)) != []
    && p < d
    && forall q :: p < q < d ==> GroupOf(ts, (isin, q)) == []
  }

  /** d is the ISIN's earliest date among the rows. */
  ghost predicate FirstDay(ts: seq<Trade>, isin: string, d: Date)
  {
    forall q :: q < d ==> GroupOf(ts, (isin, q)) == []
  }

  lemma ChangeOfGroup(ts: seq<Trade>, i: int)
    requires 0 <= i < |Aggregate(ts)|
    ensures var r := WithChanges(Aggregate(ts))[i];
      && (FirstDay(ts, r.isin, r.date) ==> r.changePrevClosing == None)
      && (!FirstDay(ts, r.isin, r.date) ==>
            exists p :: PrevDay(ts, r.isin, r.date, p)
              && r.changePrevClosing == PctChange(r.openingPrice, Summarize(GroupOf(ts, (r.isin, p))).open))
  {
    var a := Aggregate(ts);
    var r := WithChanges(a)[i];
    AggregateShape(ts);
    PrevGroup(a, i);
    // A date of the ISIN among the rows is the date of some group.
    forall q | GroupOf(ts, (r.isin, q)) != []
      ensures exists j :: 0 <= j < |a| && a[j].isin == r.isin && a[j].date == q
    {
      GroupOfNonEmpty(ts, (r.isin, q));
      var g :| g in a && GKey(g) == (r.isin, q);
      var j :| 0 <= j < |a| && a[j] == g;
    }
    if PrevOpen(a, i).Some? {
      var p := a[i - 1].date;
      AggregateAt(ts, i - 1);
      assert PrevDay(ts, r.isin, r.date, p);
      assert r.changePrevClosing == PctChange(r.openingPrice, Summarize(GroupOf(ts, (r.isin, p))).open);
    } else {
      assert FirstDay(ts, r.isin, r.date);
    }
  }

  /**
   * The change value of a report row is none on its ISIN's earliest date
   * among the rows; otherwise it is the percent change of its opening price
   * against the opening price of the same ISIN's latest earlier date, which
   * may lie before the cutoff.
   */
  lemma Report1Change(ts: seq<Trade>, d: Date)
    ensures forall r :: r in Report1(ts, d) ==>
      && (FirstDay(ts, r.isin, r.date) ==> r.changePrevClosing == None)
      && (!FirstDay(ts, r.isin, r.date) ==>
            exists p :: PrevDay(ts, r.isin, r.date, p)
              && r.changePrevClosing == PctChange(r.openingPrice, Summarize(GroupOf(ts, (r.isin, p))).open))
  {
    var w := WithChanges(Aggregate(ts));
    KeepFromSpec(w, d);
    forall r | r in Report1(ts, d)
      ensures && (FirstDay(ts, r.isin, r.date) ==> r.changePrevClosing == None)
              && (!FirstDay(ts, r.isin, r.date) ==>
                    exists p :: PrevDay(ts, r.isin, r.date, p)
                      && r.changePrevClosing == PctChange(r.openingPrice, Summarize(GroupOf(ts, (r.isin, p))).open))
    {
      var i :| 0 <= i < |w| && w[i] == r;
      ChangeOfGroup(ts, i);
    }
  }
}
