/**
 * The report of the transformer's worked example: one ISIN traded on
 * 2021-04-16 to 2021-04-19 (day numbers 18733 to 18736), reported from
 * 2021-04-17 on. Times are minutes after midnight, prices are cents.
 */
module WorkedExample {
  import opened Wrappers
  import opened Text
  import opened Report
  import opened Tables
  import opened Config
  import opened XetraTransformer

  function Trades(isin: string): seq<Trade>
  {
    [Trade(isin, 18733, 900, 1827, 1827, 2134, 987),
     Trade(isin, 18734, 780, 2021, 1821, 2042, 633),
     Trade(isin, 18734, 840, 1827, 1827, 2134, 455),
     Trade(isin, 18735, 420, 2058, 1889, 2058, 9066),
     Trade(isin, 18735, 480, 1927, 1927, 2114, 1220),
     Trade(isin, 18736, 420, 2358, 2358, 2358, 1035),
     Trade(isin, 18736, 480, 2358, 2331, 2434, 1028),
     Trade(isin, 18736, 540, 2422, 2221, 2501, 1523)]
  }

  lemma AggregateSnoc(p: seq<Trade>, t: Trade)
    ensures Aggregate(p + [t]) == Insert(Aggregate(p), t)
  {
    assert (p + [t])[..|p + [t]| - 1] == p;
  }

  /** A row whose key is above every group's starts a new last group. */
  lemma {:induction false} InsertAfterAll(a: seq<DailyGroup>, t: Trade)
    requires forall i :: 0 <= i < |a| ==> KeyLess(GKey(a[i]), KeyOf(t))
    ensures Insert(a, t) == a + [DailyGroup(t.isin, t.date, Single(t))]
  {
    if a != [] {
      KeyLessIrreflexive(KeyOf(t));
      assert GKey(a[0]) != KeyOf(t);
      if KeyLess(KeyOf(t), GKey(a[0])) {
        KeyLessTransitive(KeyOf(t), GKey(a[0]), KeyOf(t));
      }
      InsertAfterAll(a[1..], t);
    }
  }

  /** A row with the last group's key, above every other group's, extends the last group. */
  lemma {:induction false} InsertIntoLast(a: seq<DailyGroup>, t: Trade)
    requires a != [] && GKey(a[|a| - 1]) == KeyOf(t)
    requires forall i :: 0 <= i < |a| - 1 ==> KeyLess(GKey(a[i]), KeyOf(t))
    ensures Insert(a, t) == a[..|a| - 1] + [a[|a| - 1].(summary := Add(a[|a| - 1].summary, t))]
  {
    if |a| > 1 {
      KeyLessIrreflexive(KeyOf(t));
      if KeyLess(KeyOf(t), GKey(a[0])) {
        KeyLessTransitive(KeyOf(t), GKey(a[0]), KeyOf(t));
      }
      InsertIntoLast(a[1..], t);
      assert a[1..][..|a| - 2] == a[1..|a| - 1];
    }
  }

  function G16(isin: string): DailyGroup { DailyGroup(isin, 18733, Summary(900, 1827, 900, 1827, 1827, 2134, 987)) }
  function G17(isin: string): DailyGroup { DailyGroup(isin, 18734, Summary(780, 2021, 840, 1827, 1821, 2134, 1088)) }
  function G18(isin: string): DailyGroup { DailyGroup(isin, 18735, Summary(420, 2058, 480, 1927, 1889, 2114, 10286)) }
  function G19(isin: string): DailyGroup { DailyGroup(isin, 18736, Summary(420, 2358, 540, 2422, 2221, 2501, 3586)) }

  lemma Step3(isin: string)
    ensures Aggregate(Trades(isin)[..3]) == [G16(isin), G17(isin)]
  {
    var ts := Trades(isin);
    StrLessIrreflexive(isin);
    assert ts[..1] == [] + [ts[0]] && ts[..2] == ts[..1] + [ts[1]] && ts[..3] == ts[..2] + [ts[2]];
    AggregateSnoc([], ts[0]);
    AggregateSnoc(ts[..1], ts[1]);
    InsertAfterAll([G16(isin)], ts[1]);
    AggregateSnoc(ts[..2], ts[2]);
    InsertIntoLast(Aggregate(ts[..2]), ts[2]);
  }

  lemma Step5(isin: string)
    ensures Aggregate(Trades(isin)[..5]) == [G16(isin), G17(isin), G18(isin)]
  {
    var ts := Trades(isin);
    StrLessIrreflexive(isin);
    Step3(isin);
    assert ts[..4] == ts[..3] + [ts[3]] && ts[..5] == ts[..4] + [ts[4]];
    AggregateSnoc(ts[..3], ts[3]);
    InsertAfterAll([G16(isin), G17(isin)], ts[3]);
    AggregateSnoc(ts[..4], ts[4]);
    InsertIntoLast(Aggregate(ts[..4]), ts[4]);
  }

  lemma Step8(isin: string)
    ensures Aggregate(Trades(isin)) == [G16(isin), G17(isin), G18(isin), G19(isin)]
  {
    var ts := Trades(isin);
    StrLessIrreflexive(isin);
    Step5(isin);
    assert ts[..6] == ts[..5] + [ts[5]] && ts[..7] == ts[..6] + [ts[6]] && ts == ts[..7] + [ts[7]];
    AggregateSnoc(ts[..5], ts[5]);
    InsertAfterAll([G16(isin), G17(isin), G18(isin)], ts[5]);
    AggregateSnoc(ts[..6], ts[6]);
    InsertIntoLast(Aggregate(ts[..6]), ts[6]);
    AggregateSnoc(ts[..7], ts[7]);
    InsertIntoLast(Aggregate(ts[..7]), ts[7]);
  }

  /**
   * From 2021-04-17 the report has three rows: the day before is only the
   * base of the first row's change. The changes round to 10.62, 1.83 and
   * 14.58 percent.
   */
  lemma ReportFrom17th(isin: string)
    ensures Report1(Trades(isin), 18734) == [
      ReportRow(isin, 18734, 2021, 1827, 1821, 2134, 1088, PctChange(2021, 1827)),
      ReportRow(isin, 18735, 2058, 1927, 1889, 2114, 10286, PctChange(2058, 2021)),
      ReportRow(isin, 18736, 2358, 2422, 2221, 2501, 3586, PctChange(2358, 2058))]
    ensures 10.615 <= PctChange(2021, 1827).value < 10.625
    ensures 1.825 <= PctChange(2058, 2021).value < 1.835
    ensures 14.575 <= PctChange(2358, 2058).value < 14.585
  {
    Step8(isin);
    var a := [G16(isin), G17(isin), G18(isin), G19(isin)];
    var w := WithChanges(a);
    assert |w| == 4 && w[0].date == 18733;
    assert w[1] == ToRow(a[1], PctChange(2021, 1827));
    assert w[2] == ToRow(a[2], PctChange(2058, 2021));
    assert w[3] == ToRow(a[3], PctChange(2358, 2058));
    KeepAll(w[1..], 18734);
  }

  lemma {:induction false} KeepAll(rows: seq<ReportRow>, d: int)
    requires forall i :: 0 <= i < |rows| ==> rows[i].date >= d
    ensures KeepFrom(rows, d) == rows
  {
    if rows != [] {
      KeepAll(rows[1..], d);
      assert rows == [rows[0]] + rows[1..];
    }
  }

  /** The example's source configuration; 2021-04-01 is day 18718. */
  function SourceConfig(): XetraSourceConfig
  {
    XetraSourceConfig(18718,
      ["ISIN", "Mnemonic", "Date", "Time", "StartPrice", "EndPrice", "MinPrice", "MaxPrice", "TradedVolume"],
      "Date", "ISIN", "Time", "StartPrice", "MinPrice", "MaxPrice", "TradedVolume")
  }

  function TargetConfig(): XetraTargetConfig
  {
    XetraTargetConfig("isin", "date", "opening_price_eur", "closing_price_eur",
      "minimum_price_eur", "maximum_price_eur", "daily_traded_volume", "change_prev_closing_%",
      "report1/xetra_daily_report1_", "%Y%m%d_%H%M%S", "parquet")
  }

  /** A source row holding every value of t. */
  function Raw(t: Trade): RawTrade
  {
    RawTrade(Some(t.isin), Some(t.date), Some(t.time), Some(t.startPrice),
             Some(t.minPrice), Some(t.maxPrice), Some(t.volume), {})
  }

  function RawAll(ts: seq<Trade>): (r: seq<RawTrade>)
    ensures |r| == |ts|
  {
    if ts == [] then [] else [Raw(ts[0])] + RawAll(ts[1..])
  }

  lemma {:induction false} DropNaKeepsFullRows(ts: seq<Trade>, selected: set<string>)
    ensures DropNa(RawAll(ts), selected) == ts
  {
    if ts != [] {
      DropNaKeepsFullRows(ts[1..], selected);
      assert RawAll(ts)[1..] == RawAll(ts[1..]);
      assert ts == [ts[0]] + ts[1..];
    }
  }

  /**
   * The transformation of the example's source table: the report keeps the
   * source names ISIN and Date and takes the target names for the figures.
   */
  lemma TransformFrom17th(isin: string)
    ensures var cols := SourceConfig().srcColumns;
      Report1Table(SourceConfig(), TargetConfig(), 18734, TradeTable(cols, RawAll(Trades(isin))))
      == Success(ReportTable(
           ["ISIN", "Date", "opening_price_eur", "closing_price_eur", "minimum_price_eur",
            "maximum_price_eur", "daily_traded_volume", "change_prev_closing_%"],
           Report1(Trades(isin), 18734)))
  {
    var src := SourceConfig();
    var t := TradeTable(src.srcColumns, RawAll(Trades(isin)));
    assert t.RowCount() == 8;
    assert MissingColumn(src.srcColumns, t.columns) == None;
    UsedColumnsConfigured();
    DropNaKeepsFullRows(Trades(isin), set c | c in src.srcColumns);
  }

  lemma UsedColumnsConfigured()
    ensures MissingColumn(UsedColumns(SourceConfig()), SourceConfig().srcColumns) == None
  {
    var cols := SourceConfig().srcColumns;
    assert cols[3] in cols && cols[0] in cols && cols[2] in cols && cols[4] in cols;
    assert cols[6] in cols && cols[7] in cols && cols[8] in cols;
  }
}
