/** The run configuration: where the source columns are and what the report calls them. */
module Config {
  import opened Dates

  /**
   * Source side: the first date to extract, the columns to keep, and the
   * names of the seven columns the report is computed from.
   */
  datatype XetraSourceConfig = XetraSourceConfig(
    srcFirstExtractDate: Date,
    srcColumns: seq<string>,
    srcColDate: string,
    srcColIsin: string,
    srcColTime: string,
    srcColStartPrice: string,
    srcColMinPrice: string,
    srcColMaxPrice: string,
    srcColTradedVol: string)

  /**
   * Target side: the report's column names, the report key's stem, the
   * date format of its stamp and the file format. The ISIN and date names
   * are carried but the report keeps the source names for those columns.
   */
  datatype XetraTargetConfig = XetraTargetConfig(
    trgColIsin: string,
    trgColDate: string,
    trgColOpPrice: string,
    trgColClosPrice: string,
    trgColMinPrice: string,
    trgColMaxPrice: string,
    trgColDailTradVol: string,
    trgColChPrevClos: string,
    trgKey: string,
    trgKeyDateFormat: string,
    trgFormat: string)
}
