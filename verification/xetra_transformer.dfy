/**
 * The ETL run for report 1: resolve the dates from the meta file, extract
 * the source files of those dates, transform them into the report, write
 * the report and record the processed dates.
 */
module XetraTransformer {
  import opened Wrappers
  import opened Dates
  import opened Tables
  import opened Store
  import opened MetaProcess
  import opened Report
  import opened Config

  // ---------------------------------------------------------------------
  // Dates a run records

  /** The dates of the window on or after its cutoff, in their order. */
  function MetaUpdateList(w: DateWindow): seq<Date>
  {
    DatesFrom(w.dates, w.minDate)
  }

  /**
   * The recorded dates are the window's dates without the anchor day: the
   * first date of a non-empty window is the day before the cutoff and is
   * the only one dropped.
   */
  lemma MetaUpdateListDropsAnchor(firstDate: Date, today: Date, meta: Option<Table>)
    requires ReturnDateList(firstDate, today, meta).Success?
    ensures var w := ReturnDateList(firstDate, today, meta).value;
      && (w.dates == [] ==> MetaUpdateList(w) == [])
      && (w.dates != [] ==>
            && MetaUpdateList(w) == w.dates[1..]
            && w.dates[0] == w.minDate - 1
            && w.dates[0] !in MetaUpdateList(w))
  {
    var w := ReturnDateList(firstDate, today, meta).value;
    WindowDropsAnchor(w, today);
  }

  lemma WindowDropsAnchor(w: DateWindow, today: Date)
    requires w.dates != [] ==> w.dates == Range(w.minDate - 1, today)
    ensures w.dates == [] ==> MetaUpdateList(w) == []
    ensures w.dates != [] ==>
      && MetaUpdateList(w) == w.dates[1..] == Range(w.minDate, today)
      && w.dates[0] == w.minDate - 1
      && w.dates[0] !in MetaUpdateList(w)
  {
    if w.dates != [] {
      DatesFromRange(w.minDate - 1, today, w.minDate);
      assert w.dates[1..] == Range(w.minDate, today);
      RangeMembers(w.minDate, today);
    }
  }

  /** A window that runs through today records every date from its cutoff on. */
  lemma WindowRecordsFromCutoff(w: DateWindow, today: Date, x: Date)
    requires w.dates != [] ==> w.dates == Range(w.minDate - 1, today)
    requires w.minDate <= x <= today && w.dates != []
    ensures x in MetaUpdateList(w)
  {
    WindowDropsAnchor(w, today);
    RangeMembers(w.minDate, today);
  }

  /** Every date of [firstDate, today] is recorded already or among the dates the run records. */
  lemma RunCoversGaps(firstDate: Date, today: Date, meta: Option<Table>, x: Date)
    requires ReturnDateList(firstDate, today, meta).Success?
    requires firstDate <= x <= today
    ensures x in Recorded(meta) || x in MetaUpdateList(ReturnDateList(firstDate, today, meta).value)
  {
    match meta
    case None => CoversWithoutMeta(firstDate, today, x);
    case Some(t) =>
      assert SourceDates(t).Success?;
      CoversWithMeta(firstDate, today, t, x);
  }

  lemma CoversWithoutMeta(firstDate: Date, today: Date, x: Date)
    requires firstDate <= x <= today
    ensures x in MetaUpdateList(ReturnDateList(firstDate, today, None).value)
  {
    var w := ReturnDateList(firstDate, today, None).value;
    NoMetaFileWindow(firstDate, today);
    assert x in w.dates;
    WindowRecordsFromCutoff(w, today, x);
  }

  lemma CoversWithMeta(firstDate: Date, today: Date, t: Table, x: Date)
    requires SourceDates(t).Success?
    requires firstDate <= x <= today
    ensures x in SourceDates(t).value || x in MetaUpdateList(ReturnDateList(firstDate, today, Some(t)).value)
  {
    if x !in SourceDates(t).value {
      var w := ReturnDateList(firstDate, today, Some(t)).value;
      GapWindow(firstDate, today, t);
      WindowRecordsFromCutoff(w, today, x);
    }
  }

  /**
   * Recording a run's dates closes every gap: resolving again from the same
   * first date on the same day finds nothing missing.
   */
  lemma RerunFindsNothingMissing(firstDate: Date, today: Date, meta: Option<Table>, stamp: Timestamp)
    requires ReturnDateList(firstDate, today, meta).Success?
    requires MetaAfterUpdate(meta, MetaUpdateList(ReturnDateList(firstDate, today, meta).value), stamp).Success?
    ensures var updated := MetaAfterUpdate(meta, MetaUpdateList(ReturnDateList(firstDate, today, meta).value), stamp).value;
      ReturnDateList(firstDate, today, Some(updated)) == Success(DateWindow(SENTINEL, []))
  {
    var list := MetaUpdateList(ReturnDateList(firstDate, today, meta).value);
    forall x | firstDate <= x <= today ensures x in Recorded(meta) || x in list {
      RunCoversGaps(firstDate, today, meta, x);
    }
    ResolveAfterUpdate(firstDate, today, meta, list, stamp);
  }

  // ---------------------------------------------------------------------
  // Extraction

  /** The columns of the tables, each once, in order of first appearance. */
  function ConcatColumns(tables: seq<Table>): (r: seq<string>)
    ensures forall c :: c in r <==> exists i :: 0 <= i < |tables| && c in tables[i].columns
  {
    if tables == [] then []
    else
      var prev := ConcatColumns(tables[..|tables| - 1]);
      var last := tables[|tables| - 1];
      prev + NewColumns(prev, last.columns)
  }

  /** The columns of cols not in seen, in their order. */
  function NewColumns(seen: seq<string>, cols: seq<string>): (r: seq<string>)
    ensures forall c :: c in r <==> c in cols && c !in seen
  {
    if cols == [] then []
    else (if cols[0] in seen then [] else [cols[0]]) + NewColumns(seen, cols[1..])
  }

  /** The rows of the tables, table after table. */
  function ConcatRows(tables: seq<Table>): (r: seq<RawTrade>)
  {
    if tables == [] then [] else RawRows(tables[0]) + ConcatRows(tables[1..])
  }

  function TotalRowCount(tables: seq<Table>): nat
  {
    if tables == [] then 0 else tables[0].RowCount() + TotalRowCount(tables[1..])
  }

  /** Concatenation keeps every row: its rows are the first table's followed by the rest's. */
  lemma {:induction false} ConcatRowsAppend(a: seq<Table>, b: seq<Table>)
    ensures ConcatRows(a + b) == ConcatRows(a) + ConcatRows(b)
    ensures |ConcatRows(a)| == TotalRowCount(a)
  {
    if a != [] {
      assert (a + b)[0] == a[0] && (a + b)[1..] == a[1..] + b;
      ConcatRowsAppend(a[1..], b);
    } else {
      assert a + b == b;
    }
  }

  /** The concatenation of the tables, as one trade table. */
  function Concat(tables: seq<Table>): Table
  {
    TradeTable(ConcatColumns(tables), ConcatRows(tables))
  }

  // ---------------------------------------------------------------------
  // Transformation

  /** The first of wanted that is not in have. */
  function MissingColumn(wanted: seq<string>, have: seq<string>): (r: Option<string>)
    ensures r.None? <==> forall c :: c in wanted ==> c in have
    ensures r.Some? ==> r.value in wanted && r.value !in have
  {
    if wanted == [] then None
    else if wanted[0] !in have then Some(wanted[0])
    else
      assert forall c :: c in wanted <==> c == wanted[0] || c in wanted[1..] by {
        assert wanted == [wanted[0]] + wanted[1..];
      }
      MissingColumn(wanted[1..], have)
  }

  /** The source columns the report is computed from, in the order the transformation first reads them. */
  function UsedColumns(src: XetraSourceConfig): seq<string>
  {
    [src.srcColTime, src.srcColIsin, src.srcColDate, src.srcColStartPrice,
     src.srcColMinPrice, src.srcColMaxPrice, src.srcColTradedVol]
  }

  /** The report's header: the source names of ISIN and date, then the target names of the figures. */
  function ReportColumns(src: XetraSourceConfig, trg: XetraTargetConfig): seq<string>
  {
    [src.srcColIsin, src.srcColDate, trg.trgColOpPrice, trg.trgColClosPrice,
     trg.trgColMinPrice, trg.trgColMaxPrice, trg.trgColDailTradVol, trg.trgColChPrevClos]
  }

  /** The complete trade rows of t: the rows with a value in every configured column. */
  function CompleteTrades(src: XetraSourceConfig, t: Table): seq<Trade>
  {
    DropNa(RawRows(t), set c | c in src.srcColumns)
  }

  /**
   * transform_report1 as a value. An empty table comes back unchanged. A
   * configured column missing from the table, or a used column missing from
   * the configuration, raises KeyError; a date column not named Date fails
   * the cutoff filter's attribute lookup. Otherwise the report of the
   * complete rows from extractDate on.
   */
  function Report1Table(src: XetraSourceConfig, trg: XetraTargetConfig, extractDate: Date, t: Table): (r: Result<Table, Error>)
    ensures t.IsEmpty() ==> r == Success(t)
    ensures !t.IsEmpty() && (exists c :: c in src.srcColumns && c !in t.columns) ==>
      r.Failure? && r.error.KeyError? && r.error.column in src.srcColumns && r.error.column !in t.columns
    ensures !t.IsEmpty() && (forall c :: c in src.srcColumns ==> c in t.columns) && (exists c :: c in UsedColumns(src) && c !in src.srcColumns) ==>
      r.Failure? && r.error.KeyError? && r.error.column in UsedColumns(src) && r.error.column !in src.srcColumns
    ensures !t.IsEmpty() && (forall c :: c in src.srcColumns ==> c in t.columns) && (forall c :: c in UsedColumns(src) ==> c in src.srcColumns) ==>
      (r.Failure? <==> src.srcColDate != "Date") && (r.Failure? ==> r.error == AttributeError("Date"))
    ensures r.Success? && !t.IsEmpty() ==> r.value.ReportTable? && r.value.columns == ReportColumns(src, trg)
  {
    if t.IsEmpty() then Success(t)
    else
      match MissingColumn(src.srcColumns, t.columns)
      case Some(c) => Failure(KeyError(c))
      case None =>
        match MissingColumn(UsedColumns(src), src.srcColumns)
        case Some(c) => Failure(KeyError(c))
        case None =>
          if src.srcColDate != "Date" then Failure(AttributeError("Date"))
          else Success(ReportTable(ReportColumns(src, trg), Report1(CompleteTrades(src, t), extractDate)))
  }

  /**
   * The rows of a transformed non-empty table: ascending by ISIN then date,
   * one per (ISIN, date) of the complete rows dated on or after the cutoff,
   * each with its group's figures, and with the change of its opening price
   * against the same ISIN's latest earlier date among the complete rows.
   */
  lemma TransformReport1Rows(src: XetraSourceConfig, trg: XetraTargetConfig, extractDate: Date, t: Table)
    requires Report1Table(src, trg, extractDate, t).Success? && !t.IsEmpty()
    ensures var ts := CompleteTrades(src, t);
      var rows := Report1Table(src, trg, extractDate, t).value.lines;
      && RowsSorted(rows)
      && (forall k :: (exists r :: r in rows && RKey(r) == k) <==> k in TradeKeys(ts) && k.1 >= extractDate)
      && (forall r :: r in rows ==> r.date >= extractDate && RowDescribes(r, GroupOf(ts, RKey(r))))
      && (forall r :: r in rows ==>
            && (FirstDay(ts, r.isin, r.date) ==> r.changePrevClosing == None)
            && (!FirstDay(ts, r.isin, r.date) ==>
                  exists p :: PrevDay(ts, r.isin, r.date, p)
                    && r.changePrevClosing == PctChange(r.openingPrice, Summarize(GroupOf(ts, (r.isin, p))).open)))
  {
    var ts := CompleteTrades(src, t);
    Report1Sorted(ts, extractDate);
    Report1Keys(ts, extractDate);
    Report1Figures(ts, extractDate);
    Report1Change(ts, extractDate);
  }

  /** Dropping incomplete rows splits over concatenation. */
  lemma {:induction false} DropNaAppend(a: seq<RawTrade>, b: seq<RawTrade>, selected: set<string>)
    ensures DropNa(a + b, selected) == DropNa(a, selected) + DropNa(b, selected)
  {
    if a != [] {
      assert (a + b)[0] == a[0] && (a + b)[1..] == a[1..] + b;
      DropNaAppend(a[1..], b, selected);
    } else {
      assert a + b == b;
    }
  }

  /** A row with a missing value in a configured column changes nothing in the report. */
  lemma IncompleteRowIgnored(src: XetraSourceConfig, trg: XetraTargetConfig, extractDate: Date,
                             columns: seq<string>, before: seq<RawTrade>, x: RawTrade, after: seq<RawTrade>)
    requires columns != [] && before + after != []
    requires !Complete(x, set c | c in src.srcColumns)
    ensures Report1Table(src, trg, extractDate, TradeTable(columns, before + [x] + after))
         == Report1Table(src, trg, extractDate, TradeTable(columns, before + after))
  {
    DropNaSkips(before, x, after, set c | c in src.srcColumns);
    var t1 := TradeTable(columns, before + [x] + after);
    var t2 := TradeTable(columns, before + after);
    assert t1.RowCount() > 0 && t2.RowCount() > 0;
    assert CompleteTrades(src, t1) == CompleteTrades(src, t2);
  }

  lemma DropNaSkips(before: seq<RawTrade>, x: RawTrade, after: seq<RawTrade>, selected: set<string>)
    requires !Complete(x, selected)
    ensures DropNa(before + [x] + after, selected) == DropNa(before + after, selected)
  {
    assert before + [x] + after == (before + [x]) + after;
    DropNaAppend(before + [x], after, selected);
    DropNaAppend(before, [x], selected);
    DropNaAppend(before, after, selected);
    assert DropNa([x], selected) == [] by { assert [x][1..] == []; }
  }

  // ---------------------------------------------------------------------
  // Loading

  /** The key of the report file: the key stem, the run's stamp text and the format as extension. */
  function TargetKey(trg: XetraTargetConfig, keyStamp: string): (r: string)
    ensures |r| == |trg.trgKey| + |keyStamp| + 1 + |trg.trgFormat|
    ensures trg.trgKey <= r
    ensures r[|trg.trgKey|..|trg.trgKey| + |keyStamp|] == keyStamp
    ensures r[|r| - |trg.trgFormat| - 1..] == "." + trg.trgFormat
  {
    trg.trgKey + keyStamp + "." + trg.trgFormat
  }

  /** The objects after the meta update that follows a write, or the update's error. */
  function MetaStep(objects: map<string, Table>, metaKey: string, updateList: seq<Date>, stamp: Timestamp)
    : Result<map<string, Table>, Error>
  {
    var existing := if metaKey in objects then Some(objects[metaKey]) else None;
    match MetaAfterUpdate(existing, updateList, stamp)
    case Failure(e) => Failure(e)
    case Success(m) => Success(Put(objects, metaKey, m))
  }

  /**
   * After a load that did not fail, the report is stored under its key
   * unless it was empty, and, when the two keys differ, a meta file exists
   * unless there was none and nothing to record; it records what it
   * recorded before plus the run's dates.
   */
  lemma LoadStoresReportAndDates(objects: map<string, Table>, reportKey: string, report: Table,
                                 metaKey: string, updateList: seq<Date>, stamp: Timestamp)
    requires reportKey != metaKey
    requires MetaStep(Put(objects, reportKey, report), metaKey, updateList, stamp).Success?
    ensures var after := MetaStep(Put(objects, reportKey, report), metaKey, updateList, stamp).value;
      var before := if metaKey in objects then Some(objects[metaKey]) else None;
      && (!report.IsEmpty() ==> reportKey in after && after[reportKey] == report)
      && (metaKey in after <==> metaKey in objects || updateList != [])
      && (metaKey in after ==> SourceDates(after[metaKey]) == Success(Recorded(before) + (set d | d in updateList)))
  {
    var mid := Put(objects, reportKey, report);
    var before := if metaKey in objects then Some(objects[metaKey]) else None;
    assert (if metaKey in mid then Some(mid[metaKey]) else None) == before;
    UpdatedSourceDates(before, updateList, stamp);
    var m := MetaAfterUpdate(before, updateList, stamp).value;
    assert |m.entries| >= |updateList|;
    if m.IsEmpty() {
      assert updateList == [];
      if before.Some? {
        assert before.value == m;
      }
    }
  }

  // ---------------------------------------------------------------------
  // The run

  class XetraETL {
    const srcBucket: Bucket
    const trgBucket: Bucket
    const metaKey: string
    const srcArgs: XetraSourceConfig
    const trgArgs: XetraTargetConfig
    /** The source key prefix of a date (its ISO text). */
    const datePrefix: Date -> string
    const extractDate: Date
    const extractDateList: seq<Date>
    const metaUpdateList: seq<Date>

    /** Sets up a run from the resolver's window. */
    constructor (srcBucket: Bucket, trgBucket: Bucket, metaKey: string,
                 srcArgs: XetraSourceConfig, trgArgs: XetraTargetConfig,
                 datePrefix: Date -> string, window: DateWindow)
      ensures this.srcBucket == srcBucket && this.trgBucket == trgBucket && this.metaKey == metaKey
      ensures this.srcArgs == srcArgs && this.trgArgs == trgArgs && this.datePrefix == datePrefix
      ensures extractDate == window.minDate && extractDateList == window.dates
      ensures metaUpdateList == MetaUpdateList(window)
    {
      this.srcBucket := srcBucket;
      this.trgBucket := trgBucket;
      this.metaKey := metaKey;
      this.srcArgs := srcArgs;
      this.trgArgs := trgArgs;
      this.datePrefix := datePrefix;
      extractDate := window.minDate;
      extractDateList := window.dates;
      metaUpdateList := MetaUpdateList(window);
    }

    /**
     * __init__: resolves the window from the target bucket's meta file, or
     * fails with the resolver's error.
     */
    static method Create(srcBucket: Bucket, trgBucket: Bucket, metaKey: string,
                         srcArgs: XetraSourceConfig, trgArgs: XetraTargetConfig,
                         datePrefix: Date -> string, today: Date)
      returns (r: Result<XetraETL, Error>)
      ensures var w := ReturnDateList(srcArgs.srcFirstExtractDate, today, trgBucket.Read(metaKey));
        && (w.Failure? ==> r == Failure(w.error))
        && (w.Success? ==>
              && r.Success? && fresh(r.value)
              && r.value.srcBucket == srcBucket && r.value.trgBucket == trgBucket
              && r.value.metaKey == metaKey && r.value.srcArgs == srcArgs && r.value.trgArgs == trgArgs
              && r.value.datePrefix == datePrefix
              && r.value.extractDate == w.value.minDate
              && r.value.extractDateList == w.value.dates
              && r.value.metaUpdateList == MetaUpdateList(w.value))
    {
      var w := ReturnDateList(srcArgs.srcFirstExtractDate, today, trgBucket.Read(metaKey));
      if w.Failure? {
        return Failure(w.error);
      }
      var etl := new XetraETL(srcBucket, trgBucket, metaKey, srcArgs, trgArgs, datePrefix, w.value);
      return Success(etl);
    }

    /**
     * The source keys of the dates: date by date, each date's keys in
     * listing order, as the definition concatenates them. The ensures
     * states membership only.
     */
    function FilesFor(dates: seq<Date>): (r: seq<string>)
      reads srcBucket
      requires srcBucket.Valid()
      ensures forall k :: k in r <==> k in srcBucket.objects && exists d :: d in dates && datePrefix(d) <= k
    {
      if dates == [] then []
      else
        assert forall d :: d in dates <==> d == dates[0] || d in dates[1..] by {
          assert dates == [dates[0]] + dates[1..];
        }
        srcBucket.ListFilesInPrefix(datePrefix(dates[0])) + FilesFor(dates[1..])
    }

    /** The tables stored under the keys, in key order. */
    function TablesOf(files: seq<string>): (r: seq<Table>)
      reads srcBucket
      requires forall k :: k in files ==> k in srcBucket.objects
      ensures |r| == |files|
      ensures forall i :: 0 <= i < |files| ==> r[i] == srcBucket.objects[files[i]]
    {
      if files == [] then []
      else
        assert files[0] in files;
        assert forall k :: k in files[1..] ==> k in files;
        [srcBucket.objects[files[0]]] + TablesOf(files[1..])
    }

    /** What extract returns: a table without columns or rows when there is no file, else the files' concatenation. */
    function Extracted(): (t: Table)
      reads srcBucket
      requires srcBucket.Valid()
    {
      var files := FilesFor(extractDateList);
      if files == [] then TradeTable([], []) else Concat(TablesOf(files))
    }

    /**
     * extract: reads every source file under the extract dates' prefixes;
     * nothing when there is no file, otherwise every row of every file.
     */
    method Extract() returns (t: Table)
      requires srcBucket.Valid()
      ensures t == Extracted()
      ensures FilesFor(extractDateList) == [] ==> t.IsEmpty()
      ensures FilesFor(extractDateList) != [] ==>
        |RawRows(t)| == TotalRowCount(TablesOf(FilesFor(extractDateList)))
    {
      var files := FilesFor(extractDateList);
      if files == [] {
        return TradeTable([], []);
      }
      var tables := TablesOf(files);
      ConcatRowsAppend(tables, []);
      t := Concat(tables);
    }

    /** transform_report1, step by step. */
    method TransformReport1(dataFrame: Table) returns (r: Result<Table, Error>)
      ensures r == Report1Table(srcArgs, trgArgs, extractDate, dataFrame)
    {
      if dataFrame.IsEmpty() {
        return Success(dataFrame);
      }
      var missing := MissingColumn(srcArgs.srcColumns, dataFrame.columns);
      if missing.Some? {
        return Failure(KeyError(missing.value));
      }
      var unconfigured := MissingColumn(UsedColumns(srcArgs), srcArgs.srcColumns);
      if unconfigured.Some? {
        return Failure(KeyError(unconfigured.value));
      }
      var trades := DropNa(RawRows(dataFrame), set c | c in srcArgs.srcColumns);
      var groups := Aggregate(trades);
      var rows := WithChanges(groups);
      if srcArgs.srcColDate != "Date" {
        return Failure(AttributeError("Date"));
      }
      rows := KeepFrom(rows, extractDate);
      return Success(ReportTable(ReportColumns(srcArgs, trgArgs), rows));
    }

    /**
     * load: writes the report under the target key, then records the run's
     * dates in the meta file, and answers true; an error of either step
     * propagates, and a failed write leaves the bucket as it was.
     */
    method Load(dataFrame: Table, stamp: Timestamp, keyStamp: string) returns (r: Result<bool, Error>)
      requires trgBucket.Valid()
      modifies trgBucket
      ensures trgBucket.Valid()
      ensures var w := WriteOutcome(dataFrame, trgArgs.trgFormat);
        && (w.Failure? ==> r == Failure(w.error) && trgBucket.objects == old(trgBucket.objects))
        && (w.Success? ==>
              var mid := Put(old(trgBucket.objects), TargetKey(trgArgs, keyStamp), dataFrame);
              var m := MetaStep(mid, metaKey, metaUpdateList, stamp);
              && (m.Failure? ==> r == Failure(m.error) && trgBucket.objects == mid)
              && (m.Success? ==> r == Success(true) && trgBucket.objects == m.value))
    {
      var targetKey := TargetKey(trgArgs, keyStamp);
      var written := trgBucket.Write(dataFrame, targetKey, trgArgs.trgFormat);
      if written.Failure? {
        return Failure(written.error);
      }
      var updated := UpdateMetaFile(metaUpdateList, metaKey, trgBucket, stamp);
      if updated.Failure? {
        return Failure(updated.error);
      }
      return Success(true);
    }

    /** etl_report1: extract, then transform, then load; the first error stops the run. */
    method EtlReport1(stamp: Timestamp, keyStamp: string) returns (r: Result<bool, Error>)
      requires srcBucket.Valid() && trgBucket.Valid()
      modifies trgBucket
      ensures trgBucket.Valid()
      ensures var report := Report1Table(srcArgs, trgArgs, extractDate, old(Extracted()));
        && (report.Failure? ==> r == Failure(report.error) && trgBucket.objects == old(trgBucket.objects))
        && (report.Success? ==>
              var w := WriteOutcome(report.value, trgArgs.trgFormat);
              && (w.Failure? ==> r == Failure(w.error) && trgBucket.objects == old(trgBucket.objects))
              && (w.Success? ==>
                    var mid := Put(old(trgBucket.objects), TargetKey(trgArgs, keyStamp), report.value);
                    var m := MetaStep(mid, metaKey, metaUpdateList, stamp);
                    && (m.Failure? ==> r == Failure(m.error) && trgBucket.objects == mid)
                    && (m.Success? ==> r == Success(true) && trgBucket.objects == m.value)))
    {
      var dataFrame := Extract();
      var report := TransformReport1(dataFrame);
      if report.Failure? {
        return Failure(report.error);
      }
      r := Load(report.value, stamp, keyStamp);
    }
  }
}
