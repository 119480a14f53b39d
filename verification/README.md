# Overnight top-30 programs ETL — a Dafny model

`main_script_cf.py` is a Cloud Function. It fetches the page for the report
published two days before the run. It takes the first PDF link on that page and
stores the PDF in a bucket under `input/<file name>`. It copies the PDF back to a
local file, extracts the first table on page 3 and on page 9, and cleans each table
the same way. Then it appends each cleaned table to its own BigQuery table. Any
failure inside its `try` block becomes a `("Pipeline failed: <error>", 500)`
response. Full success answers `("Pipeline finished successfully!", 200)`.

This project models that core as pure Dafny functions and proves what each step
promises:

- `Strings` — the pieces of Python string handling the script relies on: `split`,
  `endswith`, `replace` of one character, and zero-padded and plain decimal
  numerals.
- `CivilDate` — the proleptic Gregorian calendar with Python's `toordinal`
  numbering (1 January of year 1 is day 1), and going back a number of days.
- `ReportDate` — the report day, which is the run day minus two days. Also its
  `%Y-%m-%d` form, the compact form without dashes, the report page URL and the
  local file path.
- `PdfLink` — picks the first `.pdf` anchor, takes the file name after the last
  `/`, and builds the object key.
- `Frames` — the data-frame operations used, on rectangular tables with
  positional row labels: drop a column by label, assign column labels, set a cell,
  number the rows (`reset_index` followed by `+ 1`), mask on a column, and add a
  constant column.
- `Cleaning` — the cleaning block (lines 103-116, repeated at 151-164), with the
  exceptions it raises.
- `Pipeline` and `PipelineScenarios` — the orchestrator. It is a function from the
  outcomes of its collaborators (a `World`) to the effects it completed, in order,
  and its response.

The network, the bucket, the PDF extractor, Secret Manager and BigQuery are not
executed. Each becomes an outcome in the `World`: a success with the data it
returns, or a failure with the text of its exception. The clock becomes the `run`
parameter.

Two behaviours of the cleaning block are worth stating plainly, because the model
follows them exactly:

- The block drops columns by the label `Unnamed: 0`, wherever they stand, and
  every column with that label. It raises `KeyError` when no column has it.
- A header without a carriage return makes `split('\r')[1]` raise Python's
  `IndexError` (`list index out of range`). A header with more than one carriage
  return yields the text between the first and the second.

## Model

| member | source | states |
|---|---|---|
| Strings.Split | main_script_cf.py:108-109 | `str.split` on one separator character: always at least one piece, and no piece contains the separator |
| Strings.JoinSplit | main_script_cf.py:108-109 | joining the pieces of a split with the separator gives back the original string, so splitting loses nothing |
| Strings.SplitJoin | main_script_cf.py:108-109 | splitting the join of separator-free pieces gives back exactly those pieces |
| Strings.SplitHasSecondPiece | main_script_cf.py:108-109 | a split has a second piece (index 1 exists) if and only if the separator occurs in the string |
| Strings.LastPieceEndsString | main_script_cf.py:50 | the last piece of a split is a suffix of the string |
| Strings.LastPieceAfterSeparator | main_script_cf.py:50 | a last piece shorter than the string is immediately preceded by the separator |
| Strings.LastPieceWhole | main_script_cf.py:50 | the last piece is the whole string if and only if the separator does not occur |
| Strings.LastPieceIsSuffix | main_script_cf.py:50 | the last piece of a split ends the string, is preceded by the separator when there is one, and is the whole string exactly when the separator is absent |
| Strings.RemoveChar | main_script_cf.py:75 | `replace(c, '')` leaves no `c`, never lengthens the string, and leaves a string without `c` unchanged |
| Strings.RemoveCharConcat | main_script_cf.py:75 | removing a character distributes over concatenation |
| Strings.RemoveCharOne | main_script_cf.py:75 | on a single character, `replace(c, '')` deletes it if it is `c` and keeps it otherwise; with the concatenation law this fixes the result on every string |
| Strings.RemoveSeparator | main_script_cf.py:75 | removing `c` from a text, a `c` and a tail without `c` removes it from the text and the separator and keeps the tail as it is |
| Strings.PadDigits | main_script_cf.py:73 | a zero-padded numeral has exactly the field width and consists of digits only |
| Strings.PadDigitsRoundTrip | main_script_cf.py:73 | reading a zero-padded numeral gives back its number |
| Strings.DecimalRoundTrip | main_script_cf.py:105 | the decimal numeral in pandas' length-mismatch message reads back as the count it prints |
| CivilDate.DaysInMonth | main_script_cf.py:73 | every month has 28 to 31 days, and 29 exactly for February of a leap year |
| CivilDate.MinusDays | main_script_cf.py:73 | `timedelta(days=n)` subtraction gives a valid day whose ordinal is exactly `n` less, never in a later year |
| CivilDate.PrevDayOrdinal | main_script_cf.py:73 | the previous day's ordinal is one less, including across month and year ends |
| CivilDate.DaysBeforeNextYear | main_script_cf.py:73 | the days before a year plus its length are the days before the next year |
| CivilDate.OrdinalWithinYear | main_script_cf.py:73 | a day's ordinal lies within its own year's span |
| CivilDate.OrdinalIncreasing | main_script_cf.py:73 | a calendar-earlier day has a smaller ordinal |
| CivilDate.OrdinalInjective | main_script_cf.py:73 | two valid days with the same ordinal are the same day |
| CivilDate.OrdinalPositive | main_script_cf.py:73 | a day is representable (year at least 1) if and only if its ordinal is at least 1 |
| ReportDate.ReportDay | main_script_cf.py:73 | the report day exists if and only if the run is on or after 0001-01-03 (ordinal above 2); it is then a representable day whose ordinal is two less than the run's, else the error is `date value out of range` |
| ReportDate.ReportDayUnique | main_script_cf.py:73 | any representable day two days before the run is the report day |
| ReportDate.Iso | main_script_cf.py:73 | the `%Y-%m-%d` text has ten characters with dashes at 4 and 7, and parses back as the same day |
| ReportDate.PaddedFieldsRoundTrip | main_script_cf.py:73 | the three zero-padded fields joined by dashes form a ten-character text that parses back as the day |
| ReportDate.Compact | main_script_cf.py:75 | `replace('-', '')` leaves no dash, never lengthens the text, and leaves a text without dashes as it is |
| ReportDate.CompactDropsDashes | main_script_cf.py:75 | removing the dashes of the ISO form runs its three padded fields together |
| ReportDate.PaddedDigitsRoundTrip | main_script_cf.py:75 | the three padded fields run together are eight digits that parse back as the day |
| ReportDate.CompactRoundTrip | main_script_cf.py:75 | the dash-free form is the three padded fields joined: eight digits that parse back as the same day |
| ReportDate.ReportUrl | main_script_cf.py:74 | the report URL is the fixed page address followed by the ISO date, which parses back as the report day |
| ReportDate.TempPath | main_script_cf.py:81 | the local path is the fixed prefix, the eight-digit date that parses back as the report day, and `.pdf` |
| ReportDate.TempPathFields | main_script_cf.py:75-81 | the local path holds the day's padded year, month and day, without dashes, between the prefix and `.pdf` |
| ReportDate.LeapDayExample | main_script_cf.py:73 | a run on 2024-03-02 reports on the leap day 2024-02-29 |
| ReportDate.LeapDayFields | main_script_cf.py:73 | the leap day of 2024 pads to the fields `2024`, `02` and `29` |
| ReportDate.LeapDayIso | main_script_cf.py:73 | the leap day of 2024 is written `2024-02-29` |
| ReportDate.LeapDayTempPath | main_script_cf.py:75-81 | the PDF for the leap day of 2024 is stored at `..._20240229.pdf` |
| ReportDate.YearBoundaryExample | main_script_cf.py:73 | a run on 2025-01-01 reports on 2024-12-30 |
| PdfLink.FirstPdfIndex | main_script_cf.py:41 | the position found holds a non-empty `.pdf` href with none before it; there is none exactly when no href qualifies |
| PdfLink.FindPdfUrl | main_script_cf.py:41-44 | succeeds if and only if some href is a PDF link, then yields the first one in document order; otherwise fails with `PDF link not found on the page.` |
| PdfLink.BlobKey | main_script_cf.py:54 | the object key is `input/` followed by exactly the file name |
| PdfLink.BlobKeyFileName | main_script_cf.py:50-54 | the file name of the key built from a name without `/` is that name, so the key and the upload name the same file |
| PdfLink.FileName | main_script_cf.py:50 | `url.split('/')[-1]` contains no `/`, ends the URL, and is the whole URL exactly when the URL has no `/` |
| PdfLink.FileNameShape | main_script_cf.py:50 | the file name has no `/`, ends the URL right after its last `/` (or is the whole URL when there is none), and keeps a `.pdf` ending |
| Frames.Error.Message | main_script_cf.py:103-109 | the three exception texts are non-empty and their first character tells them apart: `"` for the `KeyError` naming the label, `L` for the length mismatch, `l` for `list index out of range` |
| Frames.MessageIdentifiesError | main_script_cf.py:103-109 | two exceptions with the same text are the same exception, so the failure reply names the missing label or both counts of a mismatch unambiguously |
| Frames.LabelMessageInjective | main_script_cf.py:103 | the `KeyError` text determines the missing label |
| Frames.CountsMessageInjective | main_script_cf.py:105 | the length-mismatch text determines both the expected and the given column count |
| Frames.KeptPositions | main_script_cf.py:103 | the kept positions are, in increasing order, exactly the columns not bearing the dropped label; fewer than all when the label occurs |
| Frames.DropColumn | main_script_cf.py:103 | `drop([name], axis=1)` fails with `KeyError` if and only if no column has that label; otherwise it removes every such column, keeps the others and all rows, cell for cell |
| Frames.Rename | main_script_cf.py:105 | assigning labels fails with the length-mismatch `ValueError` if and only if the count differs from the column count; otherwise the cells are untouched |
| Frames.SetCell | main_script_cf.py:108-109 | setting a cell changes that cell of that row and nothing else |
| Frames.PrependCounter | main_script_cf.py:112-114 | the new first column numbers the rows consecutively from the start value, and the other cells follow unchanged |
| Frames.FilterRows | main_script_cf.py:115 | every kept row was an input row whose first cell is an integer below the limit, and every such input row is kept |
| Frames.FilterRowsAppend | main_script_cf.py:115 | the mask on two blocks of rows is the mask on the first followed by the mask on the second, so the kept rows stay in input order |
| Frames.FilterRowsOne | main_script_cf.py:115 | a single row is kept if and only if its first cell is an integer below the limit |
| Frames.KeepRowsBelow | main_script_cf.py:115 | `df[df['Rank'] < limit]` keeps the columns and exactly the rows whose first cell is an integer below the limit, in input order (the rows are the mask's result, which `FilterRowsAppend` and `FilterRowsOne` fix), no more rows than it had |
| Frames.FilterConsecutive | main_script_cf.py:115 | on consecutively numbered rows, the `< limit` mask keeps exactly the leading rows numbered below the limit |
| Frames.AppendColumn | main_script_cf.py:116 | a constant last column is added to every row, and the rest is unchanged |
| Cleaning.HeaderTitle | main_script_cf.py:108-109 | the `[1]` piece of a header split on `\r` exists if and only if the header contains `\r`, otherwise `IndexError`; it contains no `\r` |
| Cleaning.HeaderTitleBetween | main_script_cf.py:108-109 | the title is the text between the first carriage return and the next one, or the end of the header |
| Cleaning.CompoundHeaderExample | main_script_cf.py:109 | the header `Network\rSeven` yields the title `Seven` |
| Cleaning.PlainHeaderExample | main_script_cf.py:109 | a header `Network` without a carriage return raises `IndexError` |
| Cleaning.Relabel | main_script_cf.py:103-109 | fails exactly as the source does (`KeyError`, then length mismatch, then `IndexError`); otherwise the five named columns hold the kept cells, and row 0 holds the two header titles |
| Cleaning.CleanFailsWith | main_script_cf.py:103-109 | on a table the block cannot handle, it raises exactly the first of `KeyError`, the length mismatch and `IndexError` that applies, whatever the date |
| Cleaning.FinishCells | main_script_cf.py:112-116 | cell by cell, a finished row is its rank, the five cells of the titled row, and the date |
| Cleaning.Finish | main_script_cf.py:112-116 | output columns Rank, the five, Date; `min(n, 29)` rows; row `i` is rank `i + 1`, the original row `i`, and the date |
| Cleaning.Clean | main_script_cf.py:103-116 | succeeds if and only if the table has the index column, five other columns and two compound headers, with each failure's exception; the output has the fixed columns, `min(n, 29)` rows ranked `1..`, row `i`'s data from the original row `i` (row 0's first two cells from the headers), and the date in every row |
| Cleaning.TopTwentyNine | main_script_cf.py:112-115 | a grid of thirty rows or more keeps exactly its first 29 rows, ranked 1 to 29 in order |
| Pipeline.SecretNameSegments | main_script_cf.py:123 | with project and secret identifiers free of `/`, the secret's resource name splits on `/` into exactly `projects`, the project, `secrets`, the secret, `versions`, `latest` |
| Pipeline.Download | main_script_cf.py:32-58 | succeeds if and only if the page, a PDF link, the fetch and the upload all succeed; its effects follow the plan, fetch the first PDF link, and upload under `input/` plus the link's file name; on a failure it stops with the error of the first failing call and exactly the effects completed before it |
| Pipeline.Publish | main_script_cf.py:103-136 | once a table is extracted: succeeds with two effects if and only if it cleans and the credentials and the load succeed; otherwise stops at the cleaning exception or the credentials (no effect) or the load (the secret read) with that step's error |
| Pipeline.LoadSection | main_script_cf.py:95-136 | succeeds if and only if extraction yields a table, it cleans, and credentials and load succeed; an empty extraction stops right after it with `No table found or extraction failed.`; on success the appended rows are the cleaned first table; every failure stops with the first failing step's error after exactly the effects before it |
| Pipeline.Prepare | main_script_cf.py:81-89 | succeeds with four effects if and only if the download and the local copy succeed; any recorded upload is under `input/` plus the fetched link's file name, also when the local copy then fails; the object copied back is the one uploaded; a failure stops with the first failing call's error and the effects before it |
| Pipeline.Body | main_script_cf.py:79-188 | the `try` block succeeds if and only if every call in it succeeds, performing exactly ten effects; otherwise it stops at its first failing call, read off the collaborators' outcomes, with that call's error and exactly the effects completed before it |
| Pipeline.BodyInPlan | main_script_cf.py:79-188 | every effect of the `try` block is the planned one for its position |
| Pipeline.PlannedConcat | main_script_cf.py:79-188 | the preparation's four effects, then page 3's, then page 9's (only after page 3 completed), each following its own plan, follow the plan of the whole block |
| Pipeline.BodyKeepsFirstAppend | main_script_cf.py:130-146 | once the preparation and page 3 succeed, page 3's append of its cleaned table is the seventh effect, whatever page 9 yields |
| Pipeline.BodyFollowsPlan | main_script_cf.py:79-188 | every effect of the `try` block is the planned one for its position, so a failure only cuts the plan short; the PDF is the page's first link, any recorded upload is under `input/` plus its file name, and the copy reads the uploaded key |
| Pipeline.Respond | main_script_cf.py:188-192 | answers 200 with the success message if and only if the block completed, otherwise 500 with `Pipeline failed: ` followed by the exception text |
| Pipeline.ExtractAndLoad | main_script_cf.py:62-192 | answers `("Pipeline finished successfully!", 200)` if and only if every call succeeds; a failure in the `try` block answers 500 with `Pipeline failed: ` followed by the error of the first failing call, after exactly the effects completed before it; a failure of the storage client escapes with its own error, and one of the date arithmetic escapes with `date value out of range`, both with no effect; effects follow the plan |
| PipelineScenarios.RunsBody | main_script_cf.py:70-79 | once the storage client and the date succeed, the run is the `try` block on that day's page, file and ISO date |
| PipelineScenarios.PreparedTrace | main_script_cf.py:81-89 | a successful preparation fetches the page and the first PDF link, uploads and copies back under the same key |
| PipelineScenarios.SectionTrace | main_script_cf.py:95-136 | a successful page extracts, reads the secret, and appends the cleaned first table |
| PipelineScenarios.SuccessfulBody | main_script_cf.py:79-188 | a fully successful `try` block performs exactly the ten planned effects, with the cleaned tables appended to table 1 and then table 2 |
| PipelineScenarios.NoTableOnFirstPage | main_script_cf.py:95-98 | no table on page 3 answers 500 with the extraction message after five effects, and nothing is appended |
| PipelineScenarios.FirstAppendPersists | main_script_cf.py:130-146 | page 3's append stays in the trace whatever happens on page 9, and a page 9 failure still answers 500 |
| PipelineScenarios.NoTableOnSecondPage | main_script_cf.py:143-146 | no table on page 9, after page 3 loaded, answers 500 after page 9's extraction with table 1 already appended |
| PipelineScenarios.NoPdfLink | main_script_cf.py:41-44 | a page without a PDF link answers 500 with the not-found message after fetching the page alone |
| PipelineScenarios.CleaningFailureOnFirstPage | main_script_cf.py:103-109 | a table the cleaning block cannot handle answers 500 with that exception's text after the extraction |

## Left out

- HTTP fetching, HTML parsing, the `User-Agent` header, the upload's content type, the bucket, the PDF extractor, Secret Manager, JSON credential parsing and BigQuery are not modelled. Each is an abstract outcome carrying its data or the text of its exception.
- The extractor's fixed `area` and `lattice` arguments are not modelled, because they only affect which table the extractor returns.
- `datetime.now()` is the `run` parameter, and the time of day is dropped, because only the date reaches the output.
- Environment-variable configuration is a `Config` value. Its default values are not modelled.
- The `print` logging is not modelled, because it has no effect on the result.
- Concurrent or repeated invocations are not modelled.
- Cleaning.Relabel: assumes the chained assignment `df1['Description'][0] = ...` writes through to the table, as in pandas before copy-on-write. With copy-on-write enabled, the titles are never written.
- Cleaning.Relabel: a table with no rows is left unchanged by the title writes. pandas' setting-with-enlargement on the intermediate column is not modelled.
- ReportDate.Iso: pads years below 1000 to four digits. CPython's `%Y` on glibc does not pad them, but such run dates cannot occur in practice.
- Exception texts are modelled as the strings Python and pandas print for the three cleaning exceptions. For the `KeyError`, the text matches only for labels without quotes or backslashes, which `repr` would escape; the one label dropped, `Unnamed: 0`, has none. Other collaborators' texts are opaque strings.
- Cell contents are opaque text, because the extractor's numeric parsing is not modelled. Only the computed `Rank` is an integer.
