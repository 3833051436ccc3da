/**
 * The tabular values the pipeline reads, builds and stores: the meta file,
 * raw per-minute trade files and the daily report.
 */
module Tables {
  import opened Wrappers
  import opened Dates

  /** One meta-file row: a processed source date and when it was processed. */
  datatype MetaEntry = MetaEntry(sourceDate: Date, processedAt: Timestamp)

  /**
   * One raw trade row. The seven fields hold the values of the columns the
   * source configuration names (ISIN, date, time in minutes, prices in cents,
   * traded volume); None is a missing value. `blanks` names the row's other
   * columns whose value is missing.
   */
  datatype RawTrade = RawTrade(
    isin: Option<string>,
    date: Option<Date>,
    time: Option<int>,
    startPrice: Option<int>,
    minPrice: Option<int>,
    maxPrice: Option<int>,
    tradedVolume: Option<int>,
    blanks: set<string>)

  /** One daily report row per (ISIN, date); prices in cents. */
  datatype ReportRow = ReportRow(
    isin: string,
    date: Date,
    openingPrice: int,
    closingPrice: int,
    minimumPrice: int,
    maximumPrice: int,
    dailyTradedVolume: int,
    changePrevClosing: Option<real>)

  /** A stored or in-memory table: its header and its rows. */
  datatype Table =
    | MetaTable(columns: seq<string>, entries: seq<MetaEntry>)
    | TradeTable(columns: seq<string>, trades: seq<RawTrade>)
    | ReportTable(columns: seq<string>, lines: seq<ReportRow>)
  {
    function RowCount(): nat
    {
      match this
      case MetaTable(_, es) => |es|
      case TradeTable(_, ts) => |ts|
      case ReportTable(_, ls) => |ls|
    }

    /** A table without columns or without rows, as a data frame's `empty` says. */
    predicate IsEmpty()
    {
      |columns| == 0 || RowCount() == 0
    }
  }

  /** The exceptions the core raises. */
  datatype Error =
    | KeyError(column: string)
    | AttributeError(name: string)
    | DateParseError
    | WrongMetaFile
    | WrongFormat(format: string)

  /** A raw row with every value missing. */
  const ALL_MISSING: RawTrade := RawTrade(None, None, None, None, None, None, None, {})

  /**
   * The rows of a table read as trade rows: a non-trade table contributes
   * rows without trade values, which dropping incomplete rows removes.
   */
  function RawRows(t: Table): (r: seq<RawTrade>)
    ensures |r| == t.RowCount()
  {
    match t
    case TradeTable(_, ts) => ts
    case _ => seq(t.RowCount(), _ => ALL_MISSING)
  }
}
