/**
 * The meta file: a log of processed source dates. The resolver decides which
 * dates a run must extract; the updater appends the dates a run processed.
 */
module MetaProcess {
  import opened Wrappers
  import opened Dates
  import opened Tables
  import opened Store

  const META_SOURCE_DATE_COL: string := "source_date"
  const META_PROCESS_COL: string := "datetime_of_processing"
  const META_COLUMNS: seq<string> := [META_SOURCE_DATE_COL, META_PROCESS_COL]
  const META_FILE_FORMAT: string := CSV

  /** The resolver's answer: the report cutoff and the dates to extract. */
  datatype DateWindow = DateWindow(minDate: Date, dates: seq<Date>)

  /**
   * The set of dates in a meta table's source_date column. A table without
   * that column raises KeyError; a table that is not a meta table has no
   * dates to parse.
   */
  function SourceDates(t: Table): (r: Result<set<Date>, Error>)
    ensures META_SOURCE_DATE_COL !in t.columns ==> r == Failure(KeyError(META_SOURCE_DATE_COL))
    ensures t.MetaTable? && META_SOURCE_DATE_COL in t.columns ==> r.Success?
    ensures r.Success? ==> t.MetaTable? && forall d :: d in r.value <==> exists e :: e in t.entries && e.sourceDate == d
  {
    if META_SOURCE_DATE_COL !in t.columns then Failure(KeyError(META_SOURCE_DATE_COL))
    else if !t.MetaTable? then Failure(DateParseError)
    else Success(set e | e in t.entries :: e.sourceDate)
  }

  /** The position of the first element of s that is not in done. */
  function FirstAbsentIndex(s: seq<Date>, done: set<Date>): (r: Option<nat>)
    ensures r.Some? ==> r.value < |s| && s[r.value] !in done && forall j :: 0 <= j < r.value ==> s[j] in done
    ensures r.None? ==> forall j :: 0 <= j < |s| ==> s[j] in done
  {
    if s == [] then None
    else if s[0] !in done then Some(0)
    else
      match FirstAbsentIndex(s[1..], done)
      case None => None
      case Some(i) => Some(i + 1)
  }

  /**
   * return_date_list: from the requested first date, today and the meta file
   * (None when there is none), the report cutoff and the dates to extract.
   * Every non-empty answer is the contiguous run from the day before the
   * cutoff through today, and the cutoff is never before firstDate.
   */
  function ReturnDateList(firstDate: Date, today: Date, meta: Option<Table>): (r: Result<DateWindow, Error>)
    ensures meta.Some? && META_SOURCE_DATE_COL !in meta.value.columns ==> r == Failure(KeyError(META_SOURCE_DATE_COL))
    ensures r.Success? && r.value.dates != [] ==>
      firstDate <= r.value.minDate <= today + 1 && r.value.dates == Range(r.value.minDate - 1, today)
  {
    var start := firstDate - 1;
    var dates := Range(start, today);
    match meta
    case None => Success(DateWindow(firstDate, dates))
    case Some(dfMeta) =>
      match SourceDates(dfMeta)
      case Failure(e) => Failure(e)
      case Success(srcDates) =>
        var rest := if |dates| > 0 then dates[1..] else [];
        match FirstAbsentIndex(rest, srcDates)
        case Some(i) =>
          var minDate := rest[i] - 1;
          DatesFromRange(start, today, minDate);
          Success(DateWindow(minDate + 1, DatesFrom(dates, minDate)))
        case None => Success(DateWindow(SENTINEL, []))
  }

  /** Without a meta file, the cutoff is firstDate and every date from the day before through today is extracted. */
  lemma NoMetaFileWindow(firstDate: Date, today: Date)
    ensures var r := ReturnDateList(firstDate, today, None);
      && r.Success?
      && r.value.minDate == firstDate
      && (forall d :: d in r.value.dates <==> firstDate - 1 <= d <= today)
      && (forall i :: 0 < i < |r.value.dates| ==> r.value.dates[i] == r.value.dates[i - 1] + 1)
      && (r.value.dates != [] ==> r.value.dates[0] == firstDate - 1)
  {
    RangeMembers(firstDate - 1, today);
  }

  /**
   * With a readable meta file missing some date of [firstDate, today], the
   * cutoff is the earliest such date m, and the dates are every day from
   * m - 1 through today.
   */
  lemma GapWindow(firstDate: Date, today: Date, t: Table)
    requires SourceDates(t).Success?
    requires exists x :: firstDate <= x <= today && x !in SourceDates(t).value
    ensures var r := ReturnDateList(firstDate, today, Some(t));
      var src := SourceDates(t).value;
      && r.Success?
      && firstDate <= r.value.minDate <= today
      && r.value.minDate !in src
      && (forall x :: firstDate <= x < r.value.minDate ==> x in src)
      && r.value.dates == Range(r.value.minDate - 1, today)
      && |r.value.dates| >= 2
      && r.value.dates[0] == r.value.minDate - 1
  {
    var src := SourceDates(t).value;
    var dates := Range(firstDate - 1, today);
    assert dates[1..] == Range(firstDate, today);
    EarliestGap(firstDate, today, src);
    var m := firstDate + FirstAbsentIndex(Range(firstDate, today), src).value;
    assert ReturnDateList(firstDate, today, Some(t)) == Success(DateWindow(m, DatesFrom(dates, m - 1)));
    DatesFromRange(firstDate - 1, today, m - 1);
  }

  /** In a run of dates with a gap, the first absent position is the earliest unrecorded date. */
  lemma EarliestGap(lo: Date, hi: Date, src: set<Date>)
    requires exists x :: lo <= x <= hi && x !in src
    ensures var i := FirstAbsentIndex(Range(lo, hi), src);
      && i.Some? && lo + i.value <= hi
      && Range(lo, hi)[i.value] == lo + i.value
      && lo + i.value !in src
      && forall y :: lo <= y < lo + i.value ==> y in src
  {
    var rest := Range(lo, hi);
    var x :| lo <= x <= hi && x !in src;
    assert rest[x - lo] == x;
    var i := FirstAbsentIndex(rest, src);
    forall y | lo <= y < lo + i.value ensures y in src {
      assert rest[y - lo] == y;
    }
  }

  /**
   * With a readable meta file holding every date of [firstDate, today], the
   * answer is the sentinel cutoff and no dates; the anchor day before
   * firstDate is never looked up.
   */
  lemma NothingMissingWindow(firstDate: Date, today: Date, t: Table)
    requires SourceDates(t).Success?
    requires forall x :: firstDate <= x <= today ==> x in SourceDates(t).value
    ensures ReturnDateList(firstDate, today, Some(t)) == Success(DateWindow(SENTINEL, []))
  {
    var src := SourceDates(t).value;
    var dates := Range(firstDate - 1, today);
    var rest := if |dates| > 0 then dates[1..] else [];
    forall j | 0 <= j < |rest| ensures rest[j] in src {
      assert rest[j] == firstDate + j;
    }
  }

  /** The new meta rows: one per date, all stamped with the same processing time. */
  function Stamped(dates: seq<Date>, stamp: Timestamp): (r: seq<MetaEntry>)
  {
    seq(|dates|, i requires 0 <= i < |dates| => MetaEntry(dates[i], stamp))
  }

  /**
   * The meta table update_meta_file writes: the old rows followed by the new
   * ones, or only the new ones without a meta file. An existing file whose
   * columns differ from the expected pair raises WrongMetaFile.
   */
  function MetaAfterUpdate(existing: Option<Table>, extractDateList: seq<Date>, stamp: Timestamp): (r: Result<Table, Error>)
  {
    var dfNew := MetaTable(META_COLUMNS, Stamped(extractDateList, stamp));
    match existing
    case None => Success(dfNew)
    case Some(dfOld) =>
      if multiset(dfOld.columns) != multiset(dfNew.columns) || !dfOld.MetaTable? then Failure(WrongMetaFile)
      else Success(MetaTable(dfOld.columns, dfOld.entries + dfNew.entries))
  }

  /** With a well-formed meta file, the old rows come first, unchanged, then one row per new date, in order, all with the same stamp. */
  lemma UpdateAppends(columns: seq<string>, entries: seq<MetaEntry>, extractDateList: seq<Date>, stamp: Timestamp)
    requires multiset(columns) == multiset(META_COLUMNS)
    ensures var r := MetaAfterUpdate(Some(MetaTable(columns, entries)), extractDateList, stamp);
      && r.Success?
      && r.value == MetaTable(columns, r.value.entries)
      && |r.value.entries| == |entries| + |extractDateList|
      && r.value.entries[..|entries|] == entries
      && (forall i :: 0 <= i < |extractDateList| ==>
            r.value.entries[|entries| + i].sourceDate == extractDateList[i]
            && r.value.entries[|entries| + i].processedAt == stamp)
  {
  }

  /** Without a meta file only the new rows are written; with no new dates either, there is nothing to write. */
  lemma UpdateWithoutMetaFile(extractDateList: seq<Date>, stamp: Timestamp, objects: map<string, Table>, metaKey: string)
    requires metaKey !in objects
    ensures var m := MetaAfterUpdate(None, extractDateList, stamp);
      && m.Success? && m.value.columns == META_COLUMNS
      && |m.value.entries| == |extractDateList|
      && (forall i :: 0 <= i < |extractDateList| ==> m.value.entries[i] == MetaEntry(extractDateList[i], stamp))
      && (extractDateList == [] <==> Put(objects, metaKey, m.value) == objects)
  {
    var m := MetaAfterUpdate(None, extractDateList, stamp).value;
    if extractDateList != [] {
      assert metaKey in Put(objects, metaKey, m);
    }
  }

  /** An empty date list with a well-formed meta file writes the old table back unchanged. */
  lemma EmptyListRewritesOldRows(t: Table, stamp: Timestamp)
    requires t.MetaTable? && multiset(t.columns) == multiset(META_COLUMNS)
    ensures MetaAfterUpdate(Some(t), [], stamp) == Success(t)
  {
    assert t.entries + Stamped([], stamp) == t.entries;
  }

  /** An existing file whose column multiset is not {source_date, datetime_of_processing} is rejected. */
  lemma UpdateRejectsWrongColumns(t: Table, extractDateList: seq<Date>, stamp: Timestamp)
    requires multiset(t.columns) != multiset(META_COLUMNS)
    ensures MetaAfterUpdate(Some(t), extractDateList, stamp) == Failure(WrongMetaFile)
  {
  }

  lemma MetaColumnsHaveSourceDate(columns: seq<string>)
    requires multiset(columns) == multiset(META_COLUMNS)
    ensures META_SOURCE_DATE_COL in columns && |columns| == 2
  {
    assert META_SOURCE_DATE_COL in multiset(META_COLUMNS);
    assert |multiset(columns)| == |multiset(META_COLUMNS)|;
  }

  /** What the old meta file records, or nothing without one. */
  function Recorded(existing: Option<Table>): set<Date>
  {
    if existing.Some? && SourceDates(existing.value).Success? then SourceDates(existing.value).value else {}
  }

  /**
   * After a successful update the meta file records exactly the dates it
   * recorded before plus the new ones, and it is not empty unless there was
   * nothing to record.
   */
  lemma {:induction false} UpdatedSourceDates(existing: Option<Table>, extractDateList: seq<Date>, stamp: Timestamp)
    requires MetaAfterUpdate(existing, extractDateList, stamp).Success?
    ensures var m := MetaAfterUpdate(existing, extractDateList, stamp).value;
      && SourceDates(m).Success?
      && SourceDates(m).value == Recorded(existing) + (set d | d in extractDateList)
      && (m.IsEmpty() <==> m.entries == [])
  {
    var m := MetaAfterUpdate(existing, extractDateList, stamp).value;
    var added := Stamped(extractDateList, stamp);
    MetaColumnsHaveSourceDate(m.columns);
    assert (set e | e in added :: e.sourceDate) == (set d | d in extractDateList) by {
      forall d | d in extractDateList ensures d in (set e | e in added :: e.sourceDate) {
        var i :| 0 <= i < |extractDateList| && extractDateList[i] == d;
        assert added[i] in added;
      }
    }
    if existing.Some? {
      var prev := existing.value;
      MetaColumnsHaveSourceDate(prev.columns);
      assert m.entries == prev.entries + added;
      assert (set e | e in m.entries :: e.sourceDate) == (set e | e in prev.entries :: e.sourceDate) + (set e | e in added :: e.sourceDate);
    }
  }

  /**
   * An update that records every date of [firstDate, today] not recorded
   * before leaves nothing to extract: the resolver then answers the sentinel.
   */
  lemma ResolveAfterUpdate(firstDate: Date, today: Date, existing: Option<Table>, extractDateList: seq<Date>, stamp: Timestamp)
    requires MetaAfterUpdate(existing, extractDateList, stamp).Success?
    requires forall x :: firstDate <= x <= today ==> x in Recorded(existing) || x in extractDateList
    ensures ReturnDateList(firstDate, today, Some(MetaAfterUpdate(existing, extractDateList, stamp).value))
      == Success(DateWindow(SENTINEL, []))
  {
    var m := MetaAfterUpdate(existing, extractDateList, stamp).value;
    UpdatedSourceDates(existing, extractDateList, stamp);
    NothingMissingWindow(firstDate, today, m);
  }

  /**
   * A meta file whose source_date column is named wrong_column makes the
   * resolver raise KeyError and the updater raise WrongMetaFile.
   */
  lemma WrongColumnFailsBoth(entries: seq<MetaEntry>, firstDate: Date, today: Date, extractDateList: seq<Date>, stamp: Timestamp)
    ensures var t := MetaTable(["wrong_column", META_PROCESS_COL], entries);
      && ReturnDateList(firstDate, today, Some(t)) == Failure(KeyError(META_SOURCE_DATE_COL))
      && MetaAfterUpdate(Some(t), extractDateList, stamp) == Failure(WrongMetaFile)
  {
    var t := MetaTable(["wrong_column", META_PROCESS_COL], entries);
    assert t.columns[0] != META_SOURCE_DATE_COL && t.columns[1] != META_SOURCE_DATE_COL;
    assert META_SOURCE_DATE_COL !in t.columns;
    assert multiset(t.columns)[META_SOURCE_DATE_COL] == 0;
    assert multiset(META_COLUMNS)[META_SOURCE_DATE_COL] == 1;
  }

  /**
   * update_meta_file: writes the updated meta table under metaKey (nothing
   * when it is empty) and answers true; a wrong meta file raises
   * WrongMetaFile and nothing is written.
   */
  method UpdateMetaFile(extractDateList: seq<Date>, metaKey: string, bucket: Bucket, stamp: Timestamp)
    returns (r: Result<bool, Error>)
    requires bucket.Valid()
    modifies bucket
    ensures bucket.Valid()
    ensures var m := MetaAfterUpdate(old(bucket.Read(metaKey)), extractDateList, stamp);
      && (m.Failure? ==> r == Failure(m.error) && bucket.objects == old(bucket.objects))
      && (m.Success? ==> r == Success(true) && bucket.objects == Put(old(bucket.objects), metaKey, m.value))
  {
    var dfNew := MetaTable(META_COLUMNS, Stamped(extractDateList, stamp));
    var dfAll: Table;
    var existing := bucket.Read(metaKey);
    match existing {
      case None =>
        dfAll := dfNew;
      case Some(dfOld) =>
        if multiset(dfOld.columns) != multiset(dfNew.columns) || !dfOld.MetaTable? {
          return Failure(WrongMetaFile);
        }
        dfAll := MetaTable(dfOld.columns, dfOld.entries + dfNew.entries);
    }
    var written := bucket.Write(dfAll, metaKey, META_FILE_FORMAT);
    return Success(true);
  }

  /** The meta table of the worked examples: today - 3 and today - 4 are recorded. */
  function ExampleMeta(today: Date, stamp: Timestamp): Table
  {
    MetaTable(META_COLUMNS, [MetaEntry(today - 3, stamp), MetaEntry(today - 4, stamp)])
  }

  /** Asking from yesterday: yesterday is missing, so it is the cutoff. */
  lemma ExampleFromYesterday(today: Date, stamp: Timestamp)
    ensures ReturnDateList(today - 1, today, Some(ExampleMeta(today, stamp)))
      == Success(DateWindow(today - 1, Range(today - 2, today)))
  {
    var t := ExampleMeta(today, stamp);
    assert SourceDates(t).value == {today - 3, today - 4};
    assert today - 1 !in SourceDates(t).value;
    GapWindow(today - 1, today, t);
  }

  /** Asking from today - 4: the recorded days are skipped and today - 2 is the cutoff. */
  lemma ExampleSkipsRecorded(today: Date, stamp: Timestamp)
    ensures ReturnDateList(today - 4, today, Some(ExampleMeta(today, stamp)))
      == Success(DateWindow(today - 2, Range(today - 3, today)))
  {
    var t := ExampleMeta(today, stamp);
    assert SourceDates(t).value == {today - 3, today - 4};
    assert today - 2 !in SourceDates(t).value;
    GapWindow(today - 4, today, t);
  }

  /** Asking from today - 7: that day is missing, so everything from it on is reprocessed. */
  lemma ExampleFromBeforeRecorded(today: Date, stamp: Timestamp)
    ensures ReturnDateList(today - 7, today, Some(ExampleMeta(today, stamp)))
      == Success(DateWindow(today - 7, Range(today - 8, today)))
  {
    var t := ExampleMeta(today, stamp);
    assert SourceDates(t).value == {today - 3, today - 4};
    assert today - 7 !in SourceDates(t).value;
    GapWindow(today - 7, today, t);
  }

  /** The worked example where today and yesterday are recorded and the first date is today. */
  lemma ExampleNothingToDo(today: Date, stamp: Timestamp)
    ensures var t := MetaTable(META_COLUMNS, [MetaEntry(today, stamp), MetaEntry(today - 1, stamp)]);
      ReturnDateList(today, today, Some(t)) == Success(DateWindow(SENTINEL, []))
  {
    var t := MetaTable(META_COLUMNS, [MetaEntry(today, stamp), MetaEntry(today - 1, stamp)]);
    assert SourceDates(t).value == {today, today - 1};
    NothingMissingWindow(today, today, t);
  }
}
