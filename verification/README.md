# ScanSante collection pipeline — a Dafny model

The system collects hospital-activity tables from the ScanSante "cartographie
activité MCO" web application and prepares them for reporting. Three parts
are modelled here:

- **Collection** (`final_automation.py`).
  - The automation enumerates a fixed list of 35 request combinations: five years, France as a whole, public base. Each year has one "all stays" request, three requests by activity of care (ASO) and three by category of activity of care (CAS).
  - For each combination it runs a three-request session: the main page, the submit query, then the Excel export form.
  - It keeps the export body only when it is larger than 1000 bytes, is not an HTML page, and starts with a ZIP or OLE2 signature. The body is stored under a name derived from the request.
  - It counts successes and failures.
- **Cleaning and consolidation** (`data_cleaner.py`).
  - Cleaning one CSV export drops its last (total) row and zero-pads the `Finess` establishment code to 9 characters.
  - In the four count columns it replaces the privacy sentinel `1 à 10` by `5` and coerces the cells to integers, with unparseable cells becoming 0.
  - Cleaning a batch reports how many files succeeded and how many rows they hold.
  - Consolidation tags every cleaned file's rows with their source file name and stacks them into one master table over the union of the columns.
- **Dashboard state** (`app.py`).
  - The run state is shared between the web handlers and the collection thread: the running flag, progress, the current file, the counters and the log buffer.
  - The log buffer keeps the last 100 entries. The status view shows the last 20.
  - The start request is guarded by the running flag.
  - A wrapper around each scrape counts successes and failures and recomputes the progress.
  - The thread marks the start and the end of a run, and records an error entry when the run raises.

Modules:
- `Wrappers`: `Option`.
- `Combinations`: the request enumeration and the file names.
- `Download`: the body classification, the download session and the run.
- `Tables`: cells, integers and padding, paths, and reading and writing CSV.
- `Cleaning`: `clean_csv_file` and `clean_all_csv_files`.
- `Consolidation`: `create_consolidated_file`.
- `Dashboard`: the `AppState` class.

Loops of the source are methods with loop invariants, proved against specification functions. Facts that relate several calls are lemmas. The network is an oracle parameter: it maps each request sent to a reply (a status and a body, or a raised exception). The clock is a parameter. A CSV file is a grid of text fields, and a table is a header with rows.

What the code does, and the model with it:
- Each combination takes three requests: the main page, the submit query, and a POST of the Excel export form. Only the export body is kept.
- When no cleaned file exists, consolidation logs a warning and returns without writing anything.
- When any one cleaned file cannot be read, the whole consolidation is abandoned (the exception is caught around the entire loop). The files already read are not merged without it.

In `app.py`, the automation class defines neither `get_strategic_combinations` nor `scrape_table_data`. So as written the collection thread always ends in its exception branch. `Dashboard.AppState.RunAutomationThread` therefore takes how the combinations are obtained, and the events of the run, as a parameter. It covers both branches.

## Model

| member | source | states |
|---|---|---|
| Combinations.GenerateAllCombinations | final_automation.py:162-215 | The nested loops produce exactly the enumeration: 35 requests. Request j is slot j mod 7 of year j div 7 (all stays, then ASO M, C, O, then CAS C, M, O, for `fe`/`99`/`bpub`). Every request is well formed: at most one filter, with `typrgp` `tous` exactly when there is no filter. |
| Combinations.AppendBaseRequests | final_automation.py:180-213 | The base-loop body appends the all-stays request, then one request per ASO value, then one per CAS value, in that order. |
| Combinations.AppendYearRequests | final_automation.py:177-213 | The geography, code and base loops of one year append that year's block. |
| Combinations.AllCombinationsLayout | final_automation.py:166-215 | The enumeration has 7 × 5 = 35 entries. Each entry is its slot, and each entry is well formed. |
| Combinations.EnumerationAt | final_automation.py:176-213 | With the constant inner lists, for any list of years, entry j is slot j mod 7 of year j div 7. |
| Combinations.YearBlock | final_automation.py:177-213 | One year contributes exactly the seven slots, in order. |
| Combinations.ActivityEntriesOfThree | final_automation.py:192-201 | The ASO loop over three values appends three `rgpGHM` requests carrying those values in order, with CAS unset. |
| Combinations.CategoryEntriesOfThree | final_automation.py:204-213 | The CAS loop over three values appends three `rgpGHM` requests carrying those values in order, with ASO unset. |
| Combinations.GenerateFilename | final_automation.py:156-160 | The name starts with `scan_` and the year, and ends in `.xls`. |
| Combinations.FilenameShape | final_automation.py:156-160 | Any request's name is its stem (`scan_`, year, geography, code, grouping), then its filter part, then `.xls`. |
| Combinations.FilenameFilters | final_automation.py:156-160 | For any request: with no filter the name is the stem and `.xls`; an activity filter adds `_ASO<value>`, a category filter `_CAS<value>`, both add the two in that order; an absent or empty filter adds nothing. |
| Combinations.AllStaysTail | final_automation.py:156-160 | An unfiltered request's name ends `_fe_99_tous.xls`: no filter part is added. |
| Combinations.ByActivityTail | final_automation.py:156-160 | An ASO request's name ends `_fe_99_rgpGHM_ASO<value>.xls`. |
| Combinations.ByCategoryTail | final_automation.py:156-160 | A CAS request's name ends `_fe_99_rgpGHM_CAS<value>.xls`. |
| Combinations.SlotFilenameTail | final_automation.py:156-160 | The name of slot k after the year is the slot's fixed suffix. |
| Combinations.SlotSuffixesDistinct | final_automation.py:156-160 | The seven slot suffixes are pairwise different. |
| Combinations.SlotFilenameInjective | final_automation.py:156-160 | The name of a generated request determines its year and its slot. |
| Combinations.GeneratedFilenamesDistinct | final_automation.py:156-215 | Two positions of the enumeration with the same file name are the same position, so no download of a run overwrites another. |
| Download.Classify | final_automation.py:119-150 | The verdict is an HTML page exactly when the body starts with `<!doctype html>` or `<html`. Otherwise a body of at most 1000 bytes is too small. Otherwise the body is accepted only with a signature: `PK` or the eight OLE2 bytes. |
| Download.AcceptedExactlyWhenSigned | final_automation.py:119-145 | A body is accepted if and only if it is larger than 1000 bytes and signed. The HTML check never rejects a signed body. |
| Download.FirstBytes | final_automation.py:119-132 | An HTML body starts with `<`. A signed body starts with `P` or 0xD0. |
| Download.FormFields | final_automation.py:58-71 | The submit query and the export form carry the twelve fields in their order. |
| Download.FormFieldsValues | final_automation.py:58-92 | Each field carries the request's own value. ASO and CAS default to the empty string. `snatnav`, `DA`, `GP`, `racine` and `GHM` are always empty. |
| Download.ProgressStopsAtFirstFailure | final_automation.py:52-112 | A session sends its requests until the first one that raises or does not answer 200. Every earlier request succeeded, and a successful download sent all three. |
| Download.DownloadExcelFile | final_automation.py:47-154 | The requests sent are the protocol up to the first failure. The result is true exactly when all three answer 200 and the body is accepted. A file is saved only then, under the generated name, with the export body. |
| Download.TallyBounded | final_automation.py:227-233 | There are never more successes than attempts. |
| Download.SavedFilesOrigin | final_automation.py:134-142 | One workbook is saved per successful download, and each is named after a request of the run. |
| Download.SavedFilesDistinct | final_automation.py:134-139 | When the requests have pairwise different names, so do the saved workbooks. |
| Download.AllCombinationsNamesDistinct | final_automation.py:156-215 | The 35 enumerated requests have pairwise different file names. |
| Download.DownloadAll | final_automation.py:224-236 | The loop counts every attempt as exactly one success or one failure. The successes are the requests that download. The saved files are those of the successful downloads, in order. |
| Download.RunFullAutomation | final_automation.py:217-243 | Successes and failures add up to the 35 combinations. The returned success count is the number of combinations that download. One workbook is saved per success, all under different names. |
| Tables.IndexOf | data_cleaner.py:41 | A column is found exactly when it is in the header, and the first occurrence is found. |
| Tables.ParseInt | data_cleaner.py:64 | A cell parses exactly when it is an optional sign followed by one or more decimal digits. |
| Tables.NatToStringValue | data_cleaner.py:69 | The decimal rendering of a natural number reads back as that number. |
| Tables.IntToStringRoundTrip | data_cleaner.py:64-69 | An integer written by `to_csv` parses back to the same integer. |
| Tables.ZFill | data_cleaner.py:44 | `str.zfill`: a cell at least as wide is kept. A shorter one is widened to exactly the width with zeros, inserted after a leading sign if there is one. |
| Tables.ZFillKeepsValue | data_cleaner.py:42-44 | Zero-padding an integer literal keeps its value. |
| Tables.Basename | data_cleaner.py:100 | The base name holds no separator and is no longer than the path. |
| Tables.BasenameIsLastComponent | data_cleaner.py:100 | The base name is the part of the path after its last `/`. |
| Tables.Join | data_cleaner.py:101 | `os.path.join`: a `/` is inserted only when the directory is non-empty and does not already end in one. |
| Tables.Infer | data_cleaner.py:33 | Columns are typed as `read_csv` infers them. A column whose cells are all integer literals, and which is not read as text, holds canonical integers. Every other cell is kept. |
| Tables.ReadCsv | data_cleaner.py:33 | In the model, reading succeeds exactly when there is a header and no record is longer than it. The header becomes the columns, and every further record becomes a row. |
| Tables.ReadCsvCells | data_cleaner.py:33 | A read cell is its field, short records padded with empty cells, or the canonical form of the same integer. A text column keeps its field. |
| Tables.ReadTextColumn | data_cleaner.py:128 | A column read as text keeps every field exactly. |
| Tables.ReadIntegerColumn | data_cleaner.py:128 | A column of integer literals not read as text is re-rendered canonically. |
| Tables.WriteCsv | data_cleaner.py:69 | `to_csv(index=False)` writes the header, then the rows. |
| Tables.WriteReadCsv | data_cleaner.py:69 | Reading back a written table gives the table with its columns typed. |
| Cleaning.CountValue | data_cleaner.py:58-64 | The sentinel counts as 5. An integer cell counts as its value. Any other cell counts as 0. |
| Cleaning.CleanTable | data_cleaner.py:36-64 | The cleaned table keeps the columns and all rows but the last, and each cell is cleaned in its column. |
| Cleaning.CleanDropsTotalRow | data_cleaner.py:36-37 | Exactly the last row is dropped, and nothing is dropped from an empty table. |
| Cleaning.CleanPadsFiness | data_cleaner.py:40-44 | A `Finess` cell becomes its zero-fill to 9 characters: at least 9 long, and the same integer when it was one. |
| Cleaning.CleanCountsAreIntegers | data_cleaner.py:47-64 | A cell of a count column becomes the rendering of its count value, which parses as an integer. |
| Cleaning.CleanKeepsOtherColumns | data_cleaner.py:36-64 | Cells of every other column are unchanged. |
| Cleaning.PadColumn | data_cleaner.py:41-44 | The loop zero-fills column j of every row and changes nothing else. |
| Cleaning.ReplaceSentinels | data_cleaner.py:58-61 | Sentinel cells of column j become `5`, and the count returned is the number of sentinels in that column. |
| Cleaning.CoerceColumn | data_cleaner.py:64 | Every cell of column j becomes the rendering of its count value. |
| Cleaning.CountColumnsDistinct | data_cleaner.py:48-53 | The four count columns are different from each other and from `Finess`. |
| Cleaning.ConvertCountColumns | data_cleaner.py:55-64 | After the loop over the count columns, each cell is its coerced value. The replacements are the sentinels found in the columns present. |
| Cleaning.DropAndPad | data_cleaner.py:36-44 | All rows but the last, with `Finess` zero-filled. |
| Cleaning.SameReplacements | data_cleaner.py:55-66 | Counting sentinels after padding `Finess` gives the same total as counting them in the table read. |
| Cleaning.CleanCsvFile | data_cleaner.py:24-76 | The file is cleaned exactly when it can be read. The file written is the cleaned table, and the row count is its number of rows. On failure the result is `(False, 0)` and nothing is written. |
| Cleaning.CleanedPath | data_cleaner.py:99-101 | The output file is named `cleaned_` followed by the input's base name. |
| Cleaning.BasenameOfJoin | data_cleaner.py:100-101 | The base name of a joined path is the name joined. |
| Cleaning.WrittenOrigin | data_cleaner.py:98-107 | One cleaned file is written per success, and each is the cleaning of an input, at its `cleaned_` path. |
| Cleaning.CleanAllCsvFiles | data_cleaner.py:78-112 | With no input, nothing is done. Otherwise the success count is the number of readable files, the total rows are the sum over those files, and the outputs are their cleaned versions. |
| Consolidation.Tag | data_cleaner.py:130 | `Fichier_Source` is set on every row, and added as the last column when absent. Every other cell is kept. |
| Consolidation.AddNew | data_cleaner.py:134 | The union of columns extends what came before: it stays distinct and gains exactly the new names. |
| Consolidation.Union | data_cleaner.py:134 | The master's columns are distinct, and are exactly the columns of the tables concatenated. |
| Consolidation.Align | data_cleaner.py:134 | A row is laid out on the union of columns, with the empty cell where its table lacks the column. |
| Consolidation.StackAt | data_cleaner.py:134 | Table k's rows follow those of the tables before it, in their order. |
| Consolidation.StackLength | data_cleaner.py:134 | The master has as many rows as all the tables together. |
| Consolidation.TaggedAll | data_cleaner.py:126-131 | The k-th table stacked is the k-th file, read and tagged with its own base name. |
| Consolidation.Consolidate | data_cleaner.py:114-141 | With no file, nothing is written. A master is written exactly when every file can be read, and it is the concatenation of the files read with the given text columns and tagged. |
| Consolidation.CreateConsolidatedFile | data_cleaner.py:114-141 | As written: a master is written exactly when there are files and every one can be read, and it is the concatenation of the tagged tables read with pandas' default inference, no column kept as text. |
| Consolidation.CreateConsolidatedFileFixed | data_cleaner.py:114-141 | The corrected consolidation: the same, with the `Finess` column read as text. |
| Consolidation.MasterRowCount | data_cleaner.py:134-138 | The master file holds a header and every row of every file. |
| Consolidation.MasterRow | data_cleaner.py:126-135 | Row i of file k is in the master at its offset. Its source cell is the file's base name, and each of its columns carries the value read. |
| Consolidation.FinessKeptAsText | data_cleaner.py:128 | Read as text, the padded `Finess` codes reach the master unchanged. |
| Consolidation.FinessPaddingLostAsWritten | data_cleaner.py:128 | As written, a `Finess` column of integer literals reaches the master in canonical form. |
| Consolidation.PaddedCodeValue | data_cleaner.py:44 | The padded code `000000123` reads as the integer 123 and is rendered back as `123`. |
| Dashboard.Last | app.py:48-49 | The last n entries, or all when there are fewer, as a suffix in order. |
| Dashboard.LastOfAppend | app.py:46-49 | Trimming to 100 after each append keeps the same entries as trimming once. |
| Dashboard.LastOfLast | app.py:148 | The last 20 of the last 100 are the last 20. |
| Dashboard.PercentBounds | app.py:83-84 | Progress is at most 100 while no more files are processed than expected. It is 100 exactly at the last one, and below 100 before it. |
| Dashboard.ScrapesPartition | app.py:77-80 | Every scrape counts once, as a success or as a failure. |
| Dashboard.LogsAfterBounded | app.py:46-49 | The buffer never holds more than 100 emitted entries. |
| Dashboard.AppState.constructor | app.py:23-33 | The initial state: not running, zero counters and progress, no current file, no logs. |
| Dashboard.AppState.Emit | app.py:40-49 | The entry is appended and the buffer cut to its last 100 entries. The entry is last, and nothing is dropped while there is room. |
| Dashboard.AppState.GetStatus | app.py:131-149 | The status shows every field of the state as it is, with the last 20 entries of the log, or the whole log when it holds fewer. |
| Dashboard.AppState.StartCollectionAsWritten | app.py:112-128 | The start is accepted exactly when no run is marked as running. Then the counters, the progress and the current file are reset, but the running flag is not set. A refused start changes nothing. |
| Dashboard.AppState.StartCollection | app.py:112-128 | As above, and the running flag is set when the start is accepted. |
| Dashboard.AppState.TrackedScrape | app.py:73-86 | The current file is `annee_typrgp_base`. Exactly one counter goes up: `successful` for a true result. The progress is the processed share in percent, or the division raises when no file is expected. |
| Dashboard.AppState.Play | app.py:40-86 | A handler call (one `Logged` event) goes through `WebLogger.emit` and a scrape goes through the wrapper. The state moves by one `Dashboard.Step`, and the call raises exactly for a scrape while no file is expected. |
| Dashboard.AppState.Replay | app.py:88-92 | The events are played in order until a scrape raises, which happens exactly when no file is expected and a scrape occurs; it stops right after the first scrape. The state is `Dashboard.After` of the played events. |
| Dashboard.AfterFields | app.py:40-49 | After a run of events, the buffer holds the entries of the handler calls as `emit` keeps them. Each counter has grown by its scrapes, and the current file is that of the last scrape. The expected count and the running flag are untouched. |
| Dashboard.AfterProgressKept | app.py:83-84 | The progress is untouched while no file is expected or nothing has been scraped. |
| Dashboard.AfterProgressShare | app.py:83-84 | Once a file is expected and something has been scraped, the progress is the share of processed files in percent. |
| Dashboard.ThreadState | app.py:66-92 | The replayed state of the thread, field by field, in terms of the events it ran: the log, the counters, the current file, and the progress, which is the processed share once a file is expected and something was scraped, and otherwise stays. |
| Dashboard.AppState.RunCounted | app.py:88-92 | The run ends with the division error when a scrape occurs while no file is expected, or else with the automation's own exception. The state is that left by the events played. |
| Dashboard.AppState.Collect | app.py:66-92 | Obtaining the combinations either raises, leaving the counters alone, or records their number; then the counters, the current file, the log and the progress are those of the events played. |
| Dashboard.AppState.RunAutomationThread | app.py:51-104 | The run always ends with the flag cleared. On a normal end the progress is 100, and the counters and the log are those of the events (one `Logged` event per handler call). On an exception, one error entry `Erreur: <message>` is appended without trimming, so at most 101 entries remain, and the progress is what the last scrape set, or 0 from the reset. |
| Dashboard.DoubleStartAsWritten | app.py:114-126 | As written, two starts before the thread runs are both accepted. |
| Dashboard.DoubleStart | app.py:114-126 | With the flag set at start, the second start is refused. |

## Left out

- I/O is not modelled: the file system, directory creation, glob patterns and the order in which glob lists files, `time.sleep` pacing, logging output, the debug HTML dump, HTTP headers, URLs and timeouts. The network is an oracle parameter; the files are given as a list.
- `start_time`, `end_time` and the elapsed time in the status are left out, because they are clock readings.
- Threads are not modelled: the collection thread runs sequentially after the start, and interleaving with status requests is not modelled. The Flask routes for the index page, downloading and listing files are outside this model.
- `get_strategic_combinations` and `scrape_table_data` do not exist on the automation class, so the combinations outcome and the run's events are inputs of `Dashboard.AppState.RunAutomationThread`.
- `Dashboard.AppState.TrackedScrape`: the source never calls it from `run_full_automation`. Its result is a boolean. Other results of the scraper are not represented: the source counts a result equal to `True` (such as `1` or `1.0`) as a success and any other as a failure.
- `Dashboard.AppState.TrackedScrape`: a scraper that raises is not represented. In the source it has already set `current_file` (app.py:74) and moves no counter; in the model a scrape always has a boolean result, and the automation's own crash leaves the current file alone.
- `Dashboard.AppState.RunAutomationThread`: each run attaches another `WebLogger` to the automation's module-level logger (app.py:63-64, final_automation.py:35), and none is ever removed. From the second run in one process, every record is therefore emitted once per run so far. In the model a `Logged` event is one handler call, so such repeated entries must appear in `automation.events` as repeated events; the handler count is not tracked.
- `Dashboard.AppState.Replay`: an exception out of the wrapper is taken to end the run. The automation is not part of this model and could catch it and go on.
- `Dashboard.Percent` uses exact integer arithmetic, whereas the source multiplies a float quotient by 100 and truncates. The two can differ by one (29/100 gives 28 in floating point).
- pandas typing is reduced to text cells, with integer inference of all-integer columns. Not modelled:
  - floats and NaN (an empty cell in a numeric column, a `Finess` read as `nan`, integers promoted to floats by gaps in `concat`);
  - decimal points, exponents and surrounding whitespace in `to_numeric`;
  - 64-bit overflow;
  - duplicate-header renaming (`x.1`) and the renaming of an empty header field to `Unnamed: k` (a header line ending in a comma, say);
  - CSV quoting, encodings and blank lines.
- `Tables.ReadCsv`: any parser failure is modelled as a record longer than the header or a file without a header. Other pandas exceptions during cleaning are not distinguished.
- `Tables.ReadCsv`: pandas does not fail when the first data record has more fields than the header (a trailing delimiter, say). It takes the extra leading fields as an implicit index, which `to_csv(index=False)` then drops. The model fails on such a file, so `Cleaning.CleanCsvFile` gives `(False, 0)` where the source cleans it.
- `Download.DownloadExcelFile`: writing the workbook cannot fail in the model, so an accepted body always gives `true`. In the source an open or write error (final_automation.py:138-139) is caught by the method's `try` and gives `False`.
- `Cleaning.CleanCsvFile`: writing the output file cannot fail in the model. In the source a write error is caught like a read error and gives `(False, 0)`.
- `Consolidation.CreateConsolidatedFile` and `Consolidation.CreateConsolidatedFileFixed`: writing the master file cannot fail in the model.

## Findings

| source | as written | input that shows it | evidently intended | confidence | as-written member | corrected member |
|---|---|---|---|---|---|---|
| data_cleaner.py:128 | The cleaned files are read back with default type inference. A `Finess` column whose cells are all digits becomes an integer column, so the master file loses the zero padding added at lines 42-44. | A cleaned file whose `Finess` cell is `000000123`: the master holds `123`. | Read `Finess` as text, as `Consolidation.CreateConsolidatedFileFixed` does, so that the 9-character codes reach the master unchanged. | medium, not executed | Consolidation.FinessPaddingLostAsWritten | Consolidation.FinessKeptAsText |
| app.py:114-126 | The guard tests `is_running`, but only the started thread sets it (line 54). A second start arriving before the thread's first statement passes the guard and starts a second collection thread. | Two start requests in quick succession. | Set the running flag in the request handler, before starting the thread. | medium, not executed | Dashboard.DoubleStartAsWritten | Dashboard.DoubleStart |
