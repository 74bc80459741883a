# Largest banks ETL job — Dafny model

`banks_project.py` is a quarterly batch job. It reads the "By market
capitalization" table of a web page listing the world's largest banks. It
converts each bank's market capitalisation from billions of USD into GBP,
EUR and INR using an exchange-rate CSV. It saves the result as a CSV file
and as a SQLite table, runs three read queries and writes a progress log.

This project models the parts of that job that are the file's own
sequential logic:

- **Extraction** (`extraction.dfy`, module `Extraction`): the row loop of
  `extract`. The table arrives as a sequence of rows, each the texts of its
  `td` cells. Rows with no cell are skipped. Every other row becomes the
  record `(Name = cell 1, MC_USD_Billion = cell 2)` in document order. A
  non-empty row with fewer than three cells raises `IndexError`, modelled
  as a `Failure`. `Extract` carries no contract of its own; the lemmas
  `ExtractSucceedsIff`, `ExtractFailsAtFirstBadRow` and `ExtractRecords`
  characterise it against `DataPositions`, an independent description of
  which rows hold data.
- **Transformation** (`transformation.dfy`, module `Transformation`): the
  commas are removed from every USD text (`StripCommas`). Every text is
  then parsed (`ParseAll`). Then `GBP`, `EUR` and `INR` are looked up, in
  that order, and one converted column is added for each (`Transform`).
  Float parsing (`Parser`) and "multiply by the rate and round to two
  decimals" (`Converter`) are function parameters, so the contracts speak
  of record count, order, names and failures. Amounts are `real`.
- **Orchestration** (`pipeline.dfy`, module `Pipeline`): `main` as a pure
  function `Main` from an optional `Fault` (which stage raises, with what
  exception text) to a `Report`. The report holds the log messages
  appended and the stages started. The catch-all `except` becomes the
  single `"ETL Job Failed: " + e` entry, and `Main` is total, so `main`
  never propagates the error.
- **The whole job** (`etl.dfy`, module `Etl`): `RunEtl` composes the
  three. The extraction and transformation outcomes decide whether those
  stages raise. Writing the CSV, connecting, loading the table and the
  queries raise only as a given fault says.

`wrappers.dfy` holds the `Option` and `Result` types used in place of
exceptions.

The model follows the code of `banks_project.py` in these places:

- Extraction does not check the column set of each row. A row with more
  than three cells is accepted and its extra cells are ignored. Only a
  non-empty row with one or two cells fails, through the `IndexError` of
  reading cell 1 or 2.
- The USD texts are all parsed before any rate is looked up. An
  unparsable amount is therefore reported even when a rate is also
  missing, and a missing rate fails the job even for an empty table.
- The job's outcome is visible only in the log: `Main` returns a report
  in every case and carries no separate success flag.

## Model

| member | source | states |
|---|---|---|
| Extraction.Extract | banks_project.py:131-137 | the row loop; no contract of its own, characterised by `ExtractSucceedsIff`, `ExtractFailsAtFirstBadRow`, `ExtractRecords`, `ExtractConcat` and `RankIgnored` |
| Extraction.StepRow | banks_project.py:133-137 | one pass of the loop; no contract of its own, characterised by `ExtractOneRow` and `ExtractConcat` |
| Extraction.ErrorMessage | banks_project.py:229 | the `{e}` text of the `IndexError` raised at lines 135-136, "list index out of range"; used by `ShortRowFailsJob` |
| Extraction.DataPositions | banks_project.py:132-134 | the positions of the rows with at least one `td` cell, strictly increasing, and every such row's position is included |
| Extraction.ExtractSucceedsIff | banks_project.py:132-136 | extraction succeeds exactly when no row has one or two cells; empty rows never cause a failure |
| Extraction.ExtractFailsAtFirstBadRow | banks_project.py:132-136 | a failing extraction names the first non-empty row with fewer than three cells; every row before it is readable |
| Extraction.ExtractRecords | banks_project.py:131-137 | a successful extraction has one record per row with cells, in document order, the k-th built from cells 1 and 2 of the k-th such row |
| ExtractionFacts.ExtractConcat | banks_project.py:132-137 | extracting two table fragments one after the other gives the first's records followed by the second's; the first error met stops everything |
| ExtractionFacts.RankIgnored | banks_project.py:135-137 | changing cell 0 (the rank) of any rows changes neither the records nor the error |
| ExtractionFacts.ExtractOneRow | banks_project.py:133-137 | a single row is skipped when empty, becomes one record with three or more cells, and fails otherwise |
| Transformation.StripCommas | banks_project.py:153 | the text after `replace(",", "")` has no comma and is no longer than before |
| TransformationFacts.StripCommasKeepsOthers | banks_project.py:153 | every character other than a comma occurs as many times after comma removal as before |
| TransformationFacts.StripCommasKeepsCommaFree | banks_project.py:153 | a text without commas is unchanged |
| TransformationFacts.StripCommasIdempotent | banks_project.py:153 | removing commas twice equals removing them once |
| TransformationFacts.StripCommasConcat | banks_project.py:153 | comma removal keeps the remaining characters in order: it distributes over joining two texts |
| TransformationFacts.StripCommasChar | banks_project.py:153 | a single character is dropped exactly when it is a comma |
| Transformation.ErrorMessage | banks_project.py:229 | the `{e}` text of the `ValueError` of line 153 and of the `KeyError` of lines 156-158 (`'EUR'` for a missing EUR); used by `TransformErrorFailsJob` and `MissingEurFailsJob` |
| Transformation.ParseAll | banks_project.py:153 | parsing succeeds exactly when every comma-free text parses, gives one amount per record in order, and otherwise reports the first text that does not parse |
| Transformation.Transform | banks_project.py:150-160 | succeeds exactly when every amount parses and GBP, EUR and INR are all in the rate map; keeps count, order and names and fills the three columns from the converter; a parse error takes precedence, then the first missing currency in GBP, EUR, INR order |
| TransformationFacts.TransformMissingEur | banks_project.py:153-157 | with GBP present, EUR missing and every amount parsing, the transformation raises `KeyError('EUR')` for any number of records |
| TransformationFacts.TransformConcat | banks_project.py:153-160 | transforming two parts gives the first part's records followed by the second's, so records never move |
| TransformationExample.StripExample | banks_project.py:153 | "1,000.00" becomes "1000.00" |
| TransformationExample.BankAExample | banks_project.py:153-158 | one bank at "1,000.00" USD with rates 0.8, 0.93 and 82.5 gives 800, 930 and 82500 |
| Pipeline.RunSteps | banks_project.py:196-229 | the stages run in order until the first that raises; no contract of its own, characterised by `RunStepsClean` and `RunStepsFault` |
| Pipeline.Main | banks_project.py:188-229 | `main`; no contract of its own, characterised by `MainSucceeds`, `MainFails`, `MainFailureLog` and `MainAlwaysReports` |
| PipelineFacts.RunStepsClean | banks_project.py:196-221 | when no stage raises, every stage runs in order and logs its completion message, and the run is not failed |
| PipelineFacts.RunStepsFault | banks_project.py:196-229 | when stage k is the first to raise, stages 0 to k are started, the messages of stages before k are logged, then the one failure entry |
| PipelineFacts.StagesDistinct | banks_project.py:196-221 | the stages of `main` are extract, transform, CSV, connect, load and the three queries in their listed order, all different |
| PipelineFacts.MainSucceeds | banks_project.py:193-226 | a run in which no stage raises logs exactly the eight messages in order and runs all stages, the queries between the table load and "Process Complete" |
| PipelineFacts.MainFails | banks_project.py:191-229 | a run whose stage k raises logs the preliminaries, the messages of earlier stages and then "ETL Job Failed: " followed by the exception text, and starts nothing after stage k |
| PipelineFacts.MainFailsAtExtract | banks_project.py:193-197 | a run whose extraction raises logs only the preliminaries and the failure entry, and starts only the extraction |
| PipelineFacts.MainFailsAtTransform | banks_project.py:193-201 | a run whose transformation raises logs the preliminaries, the extraction message and the failure entry |
| PipelineFacts.MessagesSnoc | banks_project.py:193-210 | one more completed stage appends its message, if any, at the end of the log |
| PipelineFacts.MessagesBefore | banks_project.py:193-210 | the messages logged before stage k are a prefix of the successful log |
| PipelineFacts.FixedMessagesAreNotFailures | banks_project.py:193-226 | no fixed progress message looks like a failure entry |
| PipelineFacts.MainFailureLog | banks_project.py:191-229 | a failing run's log is a prefix of the successful log plus exactly one failure entry, and it contains neither "Process Complete" nor "Server Connection closed" |
| PipelineFacts.TransformedLoggedIff | banks_project.py:196-229 | a run whose stage k raises logs "Data transformation complete..." exactly when k comes after the transformation |
| PipelineFacts.TransformedLoggedIffLate | banks_project.py:196-229 | "Data transformation complete..." is logged exactly when neither the extraction nor the transformation raises |
| PipelineFacts.MainAlwaysReports | banks_project.py:188-229 | whatever stage raises, the log starts with the preliminaries and ends with "Server Connection closed" exactly when none raised, and with the failure entry otherwise |
| Etl.RunFault | banks_project.py:196-229 | which stage of a run raises; no contract of its own, characterised by `RunEtlShape`, `ShortRowFailsJob`, `TransformErrorFailsJob` and `CleanRunCompletes` |
| Etl.RunEtl | banks_project.py:188-229 | `main` on a given table, rate map and sink behaviour; no contract of its own, characterised by `RunEtlShape`, `RunAlwaysReports` and `DatasetIffTransformedLogged` |
| EtlFacts.RunEtlShape | banks_project.py:196-204 | a run's log is `main`'s log under the run's fault, which names a stage of `main`, and the transformed data set exists unless extraction or transformation raised |
| EtlFacts.ShortRowFailsJob | banks_project.py:196-229 | a row with one or two cells ends the job right after the preliminaries with "ETL Job Failed: list index out of range" and no data set |
| EtlFacts.TransformErrorFailsJob | banks_project.py:200-229 | a transformation error ends the job after the extraction message with one failure entry carrying the error's text |
| EtlFacts.MissingEurFailsJob | banks_project.py:156-157 | a rate map with GBP but without EUR ends the job with "ETL Job Failed: 'EUR'" once every amount parses |
| EtlFacts.CleanRunCompletes | banks_project.py:193-226 | when extraction and transformation succeed and no later stage raises, the job logs the eight messages and yields the transformed data set |
| EtlFacts.RunAlwaysReports | banks_project.py:188-229 | every run returns a log that starts with the preliminaries and ends with "Server Connection closed" exactly when no stage raised, and with a failure entry otherwise |
| EtlFacts.DatasetIffTransformedLogged | banks_project.py:196-229 | the transformed data set exists exactly when "Data transformation complete..." appears in the log, whichever later stage raises |

## Left out

- Fetching the page and finding the `By_market_capitalization` anchor and the next table (banks_project.py:119-129), and `get_text(strip=True)` (banks_project.py:135-136), are library behaviour. The table is a given sequence of rows of cell texts. A missing anchor or table (an `AttributeError`) appears only as an arbitrary extraction `Fault` in `Pipeline.Main`.
- `pd.DataFrame(data, columns=columns)` (banks_project.py:138) is modelled by the fixed fields of `RawRecord`. The column names are recorded as `Extraction.Columns` and `Transformation.FinalColumns`.
- Float parsing, multiplication by the rates and `round(2)` (banks_project.py:153-158) are floating-point numerics. They are the `Parser` and `Converter` parameters, with no property assumed of them.
- Reading the exchange-rate CSV into a dictionary (banks_project.py:149-150) is file I/O. The rate map is a parameter, so a read failure before the parse is not modelled.
- Transformation.ErrorMessage: the `ValueError` text is written as `could not convert string to float: '<text>'` with the text as is. Python's `repr` quoting and escaping (its choice of quote characters, backslashes, and escapes for non-printable characters such as `\xa0`) are not modelled.
- Writing the CSV, `to_sql(..., if_exists="replace")`, `read_sql_query` and printing (banks_project.py:163-180) are pandas and SQLite behaviour. Those stages appear only as stages that may raise.
- The timestamp and file append of `log_progress` (banks_project.py:105-112) are wall-clock time and I/O. The log is a sequence of messages whose writes always succeed.
- The exit of the `with sqlite3.connect(...)` block (banks_project.py:207), which commits, is assumed to succeed. A failing commit would log "Process Complete" before the failure entry; the model does not cover that case.
