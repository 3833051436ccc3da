# Xetra daily report: watermark resolution and report aggregation

This project models the core of a small ETL job over Xetra trading data.
Per-minute trade records are stored in an object store, one file per
source date and hour, under a key that starts with the ISO date. The job
has five steps:

1. It decides which source dates must be extracted. The input is a
   requested first date plus a CSV meta file (the watermark) that records
   every source date already processed, each with a processing time stamp.
2. It reads every file of those dates into one table.
3. It aggregates the rows per (ISIN, date) into report 1: the opening and
   closing start prices, the minimum and maximum prices, the traded
   volume, and the percentage change of the opening price against the
   same ISIN's previous trading day.
4. It writes the report under a time-stamped key.
5. It appends the processed dates to the meta file.

Modules:

- `Dates`: calendar dates as day numbers since 1970-01-01. It holds the
  2200-01-01 sentinel and runs of consecutive dates.
- `Text`: lexicographic order on strings. Object store keys are listed in
  this order.
- `Tables`: the three kinds of table the job handles. These are the meta
  table, the raw trade table (a cell may be missing) and the report table.
  The module also holds the errors the job raises.
- `Store`: a bucket. It holds a map from keys to tables, plus its keys in
  listing order. It lists keys by prefix and writes tables in the csv or
  parquet format.
- `Config`: the source and target configuration records.
- `MetaProcess`: the resolver (`return_date_list`) and the updater
  (`update_meta_file`).
- `Report`: the report 1 transformation on complete trade rows. It drops
  incomplete rows, groups them, computes each group's figures and the
  change column, and filters by the cutoff.
- `XetraTransformer`: the `XetraETL` class with its constructor and its
  extract, transform, load and run operations. It also holds the theorems
  tying them together.
- `WorkedExample`: the transformer's test data (eight trades of one ISIN
  over four days), carried through the whole transformation.

Data are modelled as follows:

- Prices are integer euro cents.
- Times are minutes of the day.
- The change column is an exact rational number. It is `None` on an
  ISIN's first date and where the previous opening price is zero.

Where the source's comments and its code differ, the model follows the code:

- The target configuration's docstring and the comment before the change
  computation describe a change against the previous day's closing price
  (xetra/transformers/xetra_transformer.py:47 and 160-161). The code
  compares opening prices (xetra/transformers/xetra_transformer.py:162-169).
- The source configuration's docstring says the date column's name is
  configured (xetra/transformers/xetra_transformer.py:17). The cutoff
  filter reads a column literally named `Date`, whatever that configured
  name is (xetra/transformers/xetra_transformer.py:173).
  With another configured name that lookup fails, and the model returns an
  `AttributeError` there.

## Model

| member | source | states |
|---|---|---|
| Dates.RangeMembers | xetra/common/meta_process.py:72 | The candidate dates are exactly the days from the start through today. |
| Dates.DatesFromRange | xetra/common/meta_process.py:84-87 | Keeping the candidate dates on or after a day leaves exactly the run from that day through today. |
| MetaProcess.SourceDates | xetra/common/meta_process.py:74-76 | A meta table without the source_date column raises KeyError. A meta table with it succeeds, and its dates are exactly the source dates of its rows. |
| MetaProcess.FirstAbsentIndex | xetra/common/meta_process.py:77-80 | It returns the position of the earliest candidate date that is not recorded, with every earlier one recorded. It returns none only when every candidate is recorded. |
| MetaProcess.ReturnDateList | xetra/common/meta_process.py:50-100 | A meta file without source_date raises KeyError. A non-empty answer is the contiguous run from the day before the cutoff through today, and the cutoff is never before the first date. |
| MetaProcess.NoMetaFileWindow | xetra/common/meta_process.py:93-99 | Without a meta file the cutoff is the first date, and the dates are every day from the day before it through today, ascending and consecutive. |
| MetaProcess.GapWindow | xetra/common/meta_process.py:77-87 | With some date of [first date, today] unrecorded, the cutoff is the earliest unrecorded date. Every earlier date is recorded, and the dates run from the day before the cutoff through today, with at least two of them. |
| MetaProcess.NothingMissingWindow | xetra/common/meta_process.py:88-92 | When every date of [first date, today] is recorded, the answer is the 2200-01-01 sentinel and no dates. The anchor day is never consulted. |
| MetaProcess.ExampleFromYesterday | tests/common/test_meta_process.py:209-261 | With today-3 and today-4 recorded, asking from yesterday gives cutoff yesterday and the dates today-2 through today. |
| MetaProcess.ExampleSkipsRecorded | tests/common/test_meta_process.py:209-261 | With today-3 and today-4 recorded, asking from today-4 skips the recorded days: cutoff today-2, dates today-3 through today. |
| MetaProcess.ExampleFromBeforeRecorded | tests/common/test_meta_process.py:209-261 | With today-3 and today-4 recorded, asking from today-7 gives cutoff today-7 and the dates today-8 through today. |
| MetaProcess.ExampleNothingToDo | tests/common/test_meta_process.py:291-324 | With today and yesterday recorded, asking from today gives the sentinel and no dates. |
| MetaProcess.WrongColumnFailsBoth | tests/common/test_meta_process.py:155-289 | A meta file whose first column is wrong_column makes the updater raise WrongMetaFile (lines 155-185) and the resolver raise KeyError (lines 263-289). |
| MetaProcess.UpdateAppends | xetra/common/meta_process.py:28-41 | With a well-formed meta file, the old rows are kept first and unchanged. One row per new date follows, in order, each with the run's time stamp. |
| MetaProcess.UpdateWithoutMetaFile | xetra/common/meta_process.py:42-46 | Without a meta file only the new rows are written, one per date. The store changes if and only if there is a date to record. |
| MetaProcess.EmptyListRewritesOldRows | xetra/common/meta_process.py:36-46 | With no new dates, an existing well-formed meta file is written back unchanged. |
| MetaProcess.UpdateRejectsWrongColumns | xetra/common/meta_process.py:39-40 | An existing file whose column multiset differs from {source_date, datetime_of_processing} raises WrongMetaFile. |
| MetaProcess.UpdatedSourceDates | xetra/common/meta_process.py:28-46 | After an update the meta file records exactly the old dates plus the new ones. It is empty only when it has no rows. |
| MetaProcess.ResolveAfterUpdate | xetra/common/meta_process.py:74-92 | Once an update has recorded every date of [first date, today], the resolver answers the sentinel and no dates. |
| MetaProcess.UpdateMetaFile | xetra/common/meta_process.py:18-47 | On a wrong meta file it raises WrongMetaFile and leaves the bucket unchanged. Otherwise it stores the updated meta table (nothing when that table is empty) and answers true. |
| Store.KeysWithPrefix | xetra/common/s3.py:27-37 | The listed keys are exactly the stored keys that start with the prefix. |
| Store.Bucket.ListFilesInPrefix | tests/common/test_s3.py:55-99 | It lists exactly the stored keys with the prefix, in strictly ascending order. |
| Store.Bucket.Write | tests/common/test_s3.py:137-241 | An empty table is not written and the answer is false. Csv or parquet stores the table under the key and answers true. Any other format fails and leaves the bucket unchanged. The keys stay sorted. |
| Store.InsertKey | tests/common/test_s3.py:55-99 | Adding a key keeps the key list strictly ascending and adds exactly that key. |
| Report.DropNaMembers | xetra/transformers/xetra_transformer.py:124-126 | The kept trades are exactly the rows that have a value in every selected column. |
| Report.SummarizeOpens | xetra/transformers/xetra_transformer.py:128-134 | The opening price is the start price of the group's earliest trade; among trades at that time, the first. |
| Report.SummarizeCloses | xetra/transformers/xetra_transformer.py:136-142 | The closing price is the start price of the group's latest trade; among trades at that time, the last. |
| Report.SummarizeExtremes | xetra/transformers/xetra_transformer.py:155-158 | The minimum price is a lower bound attained by some trade of the group, and the maximum price is an upper bound attained by some trade. |
| Report.SummarizeVolume | xetra/transformers/xetra_transformer.py:159 | The daily volume is the sum of the group's volumes. |
| Report.SummarizeDescribes | xetra/transformers/xetra_transformer.py:128-159 | A group's figures satisfy all of the above together. |
| Report.GroupOfMembers | xetra/transformers/xetra_transformer.py:151-153 | A group holds exactly the trades with its (ISIN, date). |
| Report.InsertSpec | xetra/transformers/xetra_transformer.py:151-159 | Adding a trade keeps the groups sorted by (ISIN, date) and adds its key. It extends that group's figures and leaves every other group alone. |
| Report.AggregateShape | xetra/transformers/xetra_transformer.py:151-159 | There is one group per (ISIN, date) occurring in the trades, strictly ascending by ISIN then date. |
| Report.AggregateLookup | xetra/transformers/xetra_transformer.py:151-159 | The group of a key holds the figures of exactly the trades with that key, and there is none when no trade has it. |
| Report.PctChange | xetra/transformers/xetra_transformer.py:166-169 | A change exists if and only if the previous opening price is non-zero, and then it is (open - previous) / previous * 100. |
| Report.PrevGroup | xetra/transformers/xetra_transformer.py:162-165 | The shifted value is the opening price of the same ISIN's latest earlier date. None means the ISIN has no earlier date. |
| Report.WithChangesPrevDate | xetra/transformers/xetra_transformer.py:162-169 | In sorted groups each row carries its group's key and figures. Its change is none when the ISIN has no earlier date. Otherwise it is the change of its opening price against the opening price of the ISIN's latest earlier date. |
| Report.KeepFromSpec | xetra/transformers/xetra_transformer.py:173 | The filter keeps exactly the rows dated on or after the cutoff and preserves their order. |
| Report.Report1Sorted | xetra/transformers/xetra_transformer.py:151-173 | The report rows are strictly ascending by ISIN, then date. |
| Report.Report1Keys | xetra/transformers/xetra_transformer.py:151-173 | There is a row for a key if and only if some trade has that (ISIN, date) and the date is on or after the cutoff. |
| Report.Report1Figures | xetra/transformers/xetra_transformer.py:128-159 | Every row carries the figures of exactly the trades of its (ISIN, date). |
| Report.Report1Change | xetra/transformers/xetra_transformer.py:160-169 | A row's change is missing on the ISIN's first date. Otherwise it compares the row's opening price with that of the ISIN's latest earlier trading date, even one before the cutoff. |
| XetraTransformer.MetaUpdateListDropsAnchor | xetra/transformers/xetra_transformer.py:89-90 | The dates a run records are the resolved dates without the anchor day before the cutoff, and only that day is dropped. |
| XetraTransformer.RunCoversGaps | xetra/transformers/xetra_transformer.py:87-90 | Every date of [first date, today] is recorded already or is among the dates the run records. |
| XetraTransformer.RerunFindsNothingMissing | xetra/transformers/xetra_transformer.py:87-90 | After a run records its dates, resolving again on the same day finds nothing to extract, so processed dates are not re-extracted. |
| XetraTransformer.ConcatColumns | xetra/transformers/xetra_transformer.py:105-106 | The concatenated header holds exactly the columns of the files. |
| XetraTransformer.ConcatRowsAppend | xetra/transformers/xetra_transformer.py:105-106 | Concatenation keeps every row of every file, in file order. |
| XetraTransformer.MissingColumn | xetra/transformers/xetra_transformer.py:124 | It names a wanted column that is absent, and returns none if and only if every wanted column is present. |
| XetraTransformer.Report1Table | xetra/transformers/xetra_transformer.py:110-175 | An empty table comes back unchanged. A missing configured column, or a used column that is not configured, raises KeyError naming it. The run fails if and only if the date column is not named Date. On success the header is the report's. |
| XetraTransformer.TransformReport1Rows | xetra/transformers/xetra_transformer.py:119-175 | The transformed rows are sorted and have one row per (ISIN, date) from the cutoff on, each with its group's figures and its change against the previous date. |
| XetraTransformer.IncompleteRowIgnored | xetra/transformers/xetra_transformer.py:126 | A row with a missing value anywhere in the configured columns does not change the report. |
| XetraTransformer.TargetKey | xetra/transformers/xetra_transformer.py:184-188 | The report key is the key stem, then the time stamp text, then "." and the format. |
| XetraTransformer.LoadStoresReportAndDates | xetra/transformers/xetra_transformer.py:184-195 | After a load that succeeds, a non-empty report is stored under its key. A meta file exists unless there was none and nothing to record, and it records the old dates plus the run's dates. |
| XetraTransformer.XetraETL.Create | xetra/transformers/xetra_transformer.py:69-90 | Construction resolves the cutoff and dates from the target bucket's meta file and records the dates on or after the cutoff. The resolver's KeyError propagates. |
| XetraTransformer.XetraETL.FilesFor | xetra/transformers/xetra_transformer.py:100-101 | The files are exactly the stored source keys that start with the prefix of some extract date. |
| XetraTransformer.XetraETL.Extract | xetra/transformers/xetra_transformer.py:92-108 | With no file the result is an empty table. Otherwise it is the concatenation of all files and keeps every row. |
| XetraTransformer.XetraETL.TransformReport1 | xetra/transformers/xetra_transformer.py:110-175 | The transformation step by step equals the report function, including its error cases. |
| XetraTransformer.XetraETL.Load | xetra/transformers/xetra_transformer.py:177-195 | It writes the report under the target key and then updates the meta file. An error stops the load, and a failed write changes nothing. |
| XetraTransformer.XetraETL.EtlReport1 | xetra/transformers/xetra_transformer.py:197-207 | A run is extract, then transform, then load on the extracted table; the first error stops it. |
| WorkedExample.ReportFrom17th | tests/transformers/test_xetra_transformer.py:114-120 | From 2021-04-17 the example yields the three expected rows. Their changes lie within rounding of 10.62, 1.83 and 14.58 percent. |
| WorkedExample.TransformFrom17th | tests/transformers/test_xetra_transformer.py:185-209 | Transforming the example table with the test configuration gives the report header and those rows. |

## Left out

- Object store: in this revision `read_csv_to_df` and `write_df_to_s3` are empty stubs (xetra/common/s3.py:39-43). Reads and writes are therefore modelled as the store's tests expect them to behave: an empty table is not written, csv and parquet are written, and another format raises. Sessions, credentials and the csv and parquet encodings are not modelled.
- Dates as text: `strptime` and `strftime` are not modelled. Dates are day numbers, so the resolver returns its cutoff as a date, whereas the source returns the first date's own text when there is no meta file. A date text that does not parse is not modelled.
- Times as text: the source's time column holds "HH:MM" text, and sorting orders it as strings. The model uses minutes of the day, which orders the same way only for zero-padded times such as those in the source files.
- Clock: `datetime.today()` becomes the `today` and `stamp` parameters, and the formatted time of the report key becomes the `keyStamp` parameter. The ISO prefix of a date is the `datePrefix` parameter of `XetraETL`.
- Report1Table: rounding to two decimals (xetra_transformer.py:171) is not modelled; the change is exact. Prices are integer cents, not floating point.
- Report.PctChange: a zero previous opening price yields `None`, where pandas would give an infinite or undefined value.
- Report.SummarizeOpens and Report.SummarizeCloses: among trades at the same time, the first is taken for the opening price and the last for the closing price. pandas' default sort is not stable, so it may pick another one.
- XetraTransformer.Report1Table: the KeyError for a used column that is not configured names that source column. pandas may instead name the renamed target column.
- XetraTransformer.Report1Table: target column names that collide with each other or with `Date` are not modelled.
- XetraTransformer.LoadStoresReportAndDates: a report key equal to the meta key is not modelled.
- Concat: each row is kept as its own file gives it. pandas fills a column that only other files have with missing values, which makes such rows incomplete. That padding is not modelled.
- Tables: a table stored under a key of the wrong kind gets fixed semantics. A non-meta table under the meta key has no parseable dates for the resolver, and the updater rejects it with WrongMetaFile even when its columns are right. A non-trade table read as source data gives rows with every value missing, which dropping incomplete rows removes.
- Logging, the command-line entry point (run.py) and its YAML configuration loading are not part of this model.
