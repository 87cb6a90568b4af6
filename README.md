# Rain pipeline: the normaliser and the aggregator, in Dafny

The repository processes a daily weather feed for two stations in two
stages.

* **The normaliser** (`Rain_data_clean.cxx`) reads the raw semicolon-separated
  feed. It drops the two metadata lines at the top. It trims each remaining
  line, cuts it at `;`, and keeps it when it has at least five fields and its
  trimmed first field has the date shape `DDDD-DD-DD`. A kept line is written
  as `date,rainA,tempA,rainB,tempB` under a fixed header. It counts the lines
  it kept and the lines it skipped.
* **The aggregator** (`analysis.cxx`) reads that canonical CSV for one year and
  one station (`A` selects columns 1 and 2; any other character selects
  columns 3 and 4). For each of the twelve months it accumulates:
  * the total of the positive rain,
  * the number of days with rain above zero,
  * the highest and lowest temperature, starting from -1e300 and 1e300,
  * whether any temperature was seen.

  Months with no temperature then report 0 for both extremes. It writes a
  twelve-row summary and exits with a status for each failure site.

The model has five modules:

* `Fields` (`fields.dfy`): the meaning of cutting a line at a one-character
  separator (`Split`), and its inverse `Join`. Both stages use it.
* `RainDataClean` (`rain_data_clean.dfy`): the normaliser.
  * `trim` is modelled through its two searches. `split_semicolon` and
    `looks_like_date` are loop methods.
  * The line loop of `main` is a method (`Clean`/`CleanData`) proved against
    the function `CleanRows`.
* `Analysis` (`analysis.dfy`): the aggregator.
  * `split_csv` is a loop method. `std::stoi` is modelled concretely (`Stoi`).
  * The body of the read loop is the function `Classify`. The five month
    arrays of `main` stay arrays, updated in place by `Accumulate`
    and `ZeroFill`, and read by `Emit`.
  * Those methods are proved against the functions `Fold`, `Finalize` and
    `Summary`. `Run` is `main`, proved equal to the function `Expected`.
  * The reference definitions `Readings`, `RainTotal`, `RainyCount`, `Temps`,
    `Highest`, `Lowest` and `Reference` say what each month should report
    from its own readings alone. `FoldByMonth` proves that the fold computes
    exactly that.
* `Pipeline` (`pipeline.dfy`): what the aggregator sees when it reads a row
  the normaliser wrote.
* `Wrappers` (`wrappers.dfy`): `Option`.

Files are sequences of lines without their terminators. `std::stod` is a
parameter `parse: string -> Option<real>`, where `None` stands for the
exception it throws. An uncaught exception ends the run as `Aborted`, which
has no exit status.

## Points where the code's behaviour is easy to misread

* The normaliser's header names the stations by city (`rain_Lund_mm`,
  `temp_Lund_C`, `rain_Uppsala_mm`, `temp_Uppsala_C`), while the aggregator
  selects them by the letters `A` (Lund, columns 1 and 2) and `B` (Uppsala,
  columns 3 and 4).
* The normaliser never checks whether its files opened. An input that cannot
  be opened reads as no lines, giving the header alone with nothing kept or
  skipped.
* In the aggregator, a year or month field that `std::stoi` cannot read is
  not skipped: the exception ends the run (`Abort` in `Classify`).
* The aggregator reads the year argument with `std::stoi` before it opens
  any file, so a non-numeric year aborts first.
* Any station character other than `A`, including the empty argument, selects
  station B.

## Model

| member | source | states |
|---|---|---|
| Fields.Split | rain_analysis/data_clean/Rain_data_clean.cxx:16-34 | cutting at a separator always yields at least one piece (the final push) |
| Fields.SplitCount | rain_analysis/analysis/analysis.cxx:14-30 | there is exactly one piece more than there are separators |
| Fields.SplitPiecesFree | rain_analysis/analysis/analysis.cxx:14-30 | no piece contains the separator |
| Fields.JoinSplit | rain_analysis/analysis/analysis.cxx:14-30 | joining the pieces with the separator gives back the line: nothing is lost or reordered |
| Fields.SplitJoin | rain_analysis/analysis/analysis.cxx:14-30 | splitting a join of separator-free pieces gives back exactly those pieces |
| Fields.SplitAppend | rain_analysis/data_clean/Rain_data_clean.cxx:26-32 | the pieces of `a;b` are the pieces of `a` followed by those of `b` |
| RainDataClean.FindFirstNotBlank | rain_analysis/data_clean/Rain_data_clean.cxx:10 | find_first_not_of: an index it finds lies in the string and holds a non-blank |
| RainDataClean.FindLastNotBlank | rain_analysis/data_clean/Rain_data_clean.cxx:12 | find_last_not_of: an index it finds lies in the string and holds a non-blank |
| RainDataClean.FindFirstMeaning | rain_analysis/data_clean/Rain_data_clean.cxx:10-11 | the forward search finds nothing exactly on all-blank input, else the first non-blank, with only blanks before it |
| RainDataClean.FindLastMeaning | rain_analysis/data_clean/Rain_data_clean.cxx:12 | the backward search finds nothing exactly on all-blank input, else the last non-blank, with only blanks after it |
| RainDataClean.Trim | rain_analysis/data_clean/Rain_data_clean.cxx:9-14 | trim is never longer than its input, and a non-empty result starts and ends with a non-blank |
| RainDataClean.TrimMeaning | rain_analysis/data_clean/Rain_data_clean.cxx:9-14 | trim is empty exactly when the line is all space/tab/newline, else it is the line with blanks cut from both ends only and it starts and ends with a non-blank |
| RainDataClean.TrimUnique | rain_analysis/data_clean/Rain_data_clean.cxx:9-14 | trim is the only string with those properties |
| RainDataClean.TrimIdempotent | rain_analysis/data_clean/Rain_data_clean.cxx:9-14 | trimming twice is trimming once |
| RainDataClean.SplitSemicolon | rain_analysis/data_clean/Rain_data_clean.cxx:16-34 | the loop computes Split at `;`: count+1 pieces, none holding `;`, joining back to the input |
| RainDataClean.LooksLikeDate | rain_analysis/data_clean/Rain_data_clean.cxx:36-46 | true exactly for ten characters with digits everywhere except dashes at positions 4 and 7 |
| RainDataClean.DateShapeHasNoCalendar | rain_analysis/data_clean/Rain_data_clean.cxx:36-46 | the check is a shape check only: `1961-13-32` passes, `1961/01/01` and `1961-1-01` fail |
| RainDataClean.CleanLine | rain_analysis/data_clean/Rain_data_clean.cxx:68-90 | a kept line's row is at least 14 characters, starts with a date-shaped field of ten characters and then a comma |
| RainDataClean.DataLines | rain_analysis/data_clean/Rain_data_clean.cxx:59-62 | the data lines are the input without its first two lines (none when there are at most two), in order |
| RainDataClean.NormaliseLine | rain_analysis/data_clean/Rain_data_clean.cxx:68-90 | the body of the line loop computes the verdict CleanLine |
| RainDataClean.CleanData | rain_analysis/data_clean/Rain_data_clean.cxx:65-92 | the line loop emits the rows of the kept lines in input order, kept counts them and kept + skipped is the number of data lines |
| RainDataClean.Clean | rain_analysis/data_clean/Rain_data_clean.cxx:48-95 | the output is the header then the rows of every line after the first two; every data line is counted once, as kept or skipped |
| RainDataClean.KeptIff | rain_analysis/data_clean/Rain_data_clean.cxx:68-77 | a line is kept if and only if it is not all blank, its trimmed form holds at least four `;`, and its trimmed first field has the date shape |
| RainDataClean.KeptRowFields | rain_analysis/data_clean/Rain_data_clean.cxx:76-90 | a kept row is the trimmed date and fields 1 to 4 untouched, joined by commas; the date holds no comma; later fields are dropped |
| RainDataClean.CleanRowsAppend | rain_analysis/data_clean/Rain_data_clean.cxx:65-92 | lines are normalised independently: the rows of two stretches of input are the rows of each, in order |
| RainDataClean.PreambleIgnored | rain_analysis/data_clean/Rain_data_clean.cxx:59-62 | the first two lines are dropped whatever they hold |
| Analysis.SplitCsv | rain_analysis/analysis/analysis.cxx:14-30 | the loop computes Split at `,`: count+1 pieces, none holding `,`, joining back to the input |
| Analysis.Stoi | rain_analysis/analysis/analysis.cxx:96 | a value stoi returns lies within the 32-bit int range |
| Analysis.StoiOfDigits | rain_analysis/analysis/analysis.cxx:137-140 | a field of one to nine digits and nothing else reads as its decimal value |
| Analysis.StoiYear | rain_analysis/analysis/analysis.cxx:137 | `1961` reads as 1961 |
| Analysis.StoiStopsAtNonDigit | rain_analysis/analysis/analysis.cxx:137 | stoi reads the leading digits and ignores the rest (`19a1` is 19) |
| Analysis.StoiRejectsText | rain_analysis/analysis/analysis.cxx:96 | text with no digit after blanks and sign, and the empty string, throw |
| Analysis.StationOf | rain_analysis/analysis/analysis.cxx:97 | station A exactly when the argument starts with `A` |
| Analysis.RainColumn | rain_analysis/analysis/analysis.cxx:101 | rain is column 1 exactly for station A and column 3 exactly for station B |
| Analysis.TempColumn | rain_analysis/analysis/analysis.cxx:102 | temperature is the column right after the station's rain column |
| Analysis.StationColumns | rain_analysis/analysis/analysis.cxx:101-102 | A reads columns 1 and 2, anything else columns 3 and 4; temperature is the column after rain |
| Analysis.ReadRain | rain_analysis/analysis/analysis.cxx:144 | an empty rain field is 0.0, any other is what stod reads (or throws) |
| Analysis.ReadTemp | rain_analysis/analysis/analysis.cxx:145 | an empty temperature field is no reading, any other is what stod reads (or throws) |
| Analysis.Classify | rain_analysis/analysis/analysis.cxx:123-145 | a counted row always carries a month from 1 to 12 |
| Analysis.ReadRow | rain_analysis/analysis/analysis.cxx:123-145 | the body of the read loop computes the verdict Classify |
| Analysis.Max | rain_analysis/analysis/analysis.cxx:154 | std::max: no less than both arguments and equal to one of them |
| Analysis.Min | rain_analysis/analysis/analysis.cxx:155 | std::min: no greater than both arguments and equal to one of them |
| Analysis.InitialTable | rain_analysis/analysis/analysis.cxx:113-117 | twelve months of zero rain, no rainy day, extremes at -1e300 / 1e300, not seen |
| Analysis.Absorb | rain_analysis/analysis/analysis.cxx:148-157 | rain above zero adds itself and one rainy day, other rain changes nothing; a temperature widens the extremes to include it (each new extreme is the old one or it) and marks the month seen; no temperature leaves the extremes |
| Analysis.Step | rain_analysis/analysis/analysis.cxx:122-158 | one row keeps the table at twelve months |
| Analysis.Fold | rain_analysis/analysis/analysis.cxx:122-158 | the read loop keeps twelve months |
| Analysis.Settle | rain_analysis/analysis/analysis.cxx:163 | a seen month is unchanged; an unseen one gets 0 for both extremes and keeps its rain |
| Analysis.Finalize | rain_analysis/analysis/analysis.cxx:162-164 | the zero-fill applies Settle to every month |
| Analysis.Summary | rain_analysis/analysis/analysis.cxx:172-178 | row k is month k+1 with its rain total, maximum, minimum and rainy days |
| Analysis.AbsorbAt | rain_analysis/analysis/analysis.cxx:148-157 | the arrays change at month m exactly as Absorb says, and nowhere else |
| Analysis.Consume | rain_analysis/analysis/analysis.cxx:123-157 | one pass of the loop reports an abort exactly when Classify aborts, and otherwise moves the arrays by one Step |
| Analysis.Accumulate | rain_analysis/analysis/analysis.cxx:122-158 | the loop finishes exactly when no row aborts, leaving the arrays holding Fold of the rows |
| Analysis.ZeroFill | rain_analysis/analysis/analysis.cxx:162-164 | the arrays afterwards hold Finalize of what they held before |
| Analysis.Emit | rain_analysis/analysis/analysis.cxx:172-178 | the rows written are Summary of the arrays |
| Analysis.MonthArray | rain_analysis/analysis/analysis.cxx:115-116 | the fill loop sets months 1 to 12 of a new 13-slot array to the start value |
| Analysis.NewTable | rain_analysis/analysis/analysis.cxx:113-117 | fresh arrays of 13 slots whose months 1 to 12 hold InitialTable |
| Analysis.ExitCode | rain_analysis/analysis/analysis.cxx:89-184 | only an abort has no status; 0 exactly for a written summary; every status lies in 0..4 |
| Analysis.ExitCodesDistinct | rain_analysis/analysis/analysis.cxx:89-184 | each way main can end has its own status: equal statuses mean the same kind of end |
| Analysis.Expected | rain_analysis/analysis/analysis.cxx:89-184 | a written summary needs five arguments, a readable non-empty input and a writable output, and is the fixed header with months 1 to 12 in order |
| Analysis.Run | rain_analysis/analysis/analysis.cxx:89-184 | main ends as Expected: usage error, abort, input unopenable, empty input, output unopenable, or the header and twelve rows |
| Analysis.FoldAbortSticky | rain_analysis/analysis/analysis.cxx:122-158 | once a row has aborted, no later row brings the run back |
| Analysis.FoldAbortsIff | rain_analysis/analysis/analysis.cxx:137-145 | the run aborts if and only if some row makes stoi or stod throw |
| Analysis.SkippedRowLeavesTable | rain_analysis/analysis/analysis.cxx:123-141 | an empty row, fewer than five fields, a date under ten characters, another year, or a month outside 1-12 is skipped and changes no month |
| Analysis.CountedRowTouchesOwnMonth | rain_analysis/analysis/analysis.cxx:141-157 | a counted row changes its own month by Absorb and none of the other eleven |
| Analysis.RainTotalNonNegative | rain_analysis/analysis/analysis.cxx:150 | a month's rain total is never negative |
| Analysis.RainyCountBound | rain_analysis/analysis/analysis.cxx:149 | a month never has more rainy days than counted rows |
| Analysis.ExtremesMeaning | rain_analysis/analysis/analysis.cxx:154-155 | the maximum bounds every temperature and the start from above, and is one of them; the minimum likewise from below |
| Analysis.ExtremesAreReadings | rain_analysis/analysis/analysis.cxx:115-116 | with temperatures within ±1e300, a month's extremes are actual readings |
| Analysis.ReferenceSnoc | rain_analysis/analysis/analysis.cxx:148-157 | one more reading moves the reference value of a month exactly as Absorb does |
| Analysis.MonthStep | rain_analysis/analysis/analysis.cxx:141-157 | a row that does not abort keeps every month equal to the reference value of its own readings, adding the reading only to its own month |
| Analysis.FoldByMonth | rain_analysis/analysis/analysis.cxx:122-158 | after the loop every month holds the reference value of its own readings, in input order |
| Analysis.WrittenSummary | rain_analysis/analysis/analysis.cxx:161-178 | a written summary is the fixed header and months 1..12 in order, each with the sum of its positive rain (never negative), its rainy-day count (at most its readings), 0/0 when it had no temperature, and otherwise extremes enclosing all its temperatures |
| Analysis.HeaderOnly | rain_analysis/analysis/analysis.cxx:120-178 | a file holding only its header gives twelve months of zeros |
| Analysis.HeaderIgnored | rain_analysis/analysis/analysis.cxx:120 | the first line is skipped unread: its content never changes the outcome |
| Analysis.ExitCodeOrder | rain_analysis/analysis/analysis.cxx:89-170 | exit status 1, 2, 3, 4 or 0, or an abort, each if and only if the checks before it passed and its own failed, in the order of main |
| Analysis.ClassifyStationARow | rain_analysis/analysis/analysis.cxx:123-145 | a January 1961 row with station A readings is counted for January with those readings |
| Analysis.StationARowColumns | rain_analysis/analysis/analysis.cxx:124 | a row with empty station B fields cuts into its five columns |
| Analysis.JanuaryDate | rain_analysis/analysis/analysis.cxx:137-140 | a January 1961 date reads as year 1961, month 1 |
| Analysis.JanuaryDryRow | rain_analysis/analysis/analysis.cxx:123-145 | `1961-01-10,0.0,-7.2,,` is a January reading of no rain at -7.2 |
| Analysis.JanuaryRainyRow | rain_analysis/analysis/analysis.cxx:123-145 | `1961-01-20,5.0,1.0,,` is a January reading of 5.0 rain at 1.0 |
| Analysis.JanuaryDryDay | rain_analysis/analysis/analysis.cxx:148-157 | the dry day sets both January extremes to -7.2 and counts no rainy day |
| Analysis.JanuaryRainyDay | rain_analysis/analysis/analysis.cxx:148-157 | the rainy day adds 5.0 and a rainy day and raises the maximum to 1.0 only |
| Analysis.FoldTwo | rain_analysis/analysis/analysis.cxx:122-158 | two rows fold as two steps from the initial table |
| Analysis.StepTwice | rain_analysis/analysis/analysis.cxx:148-157 | two readings of one month change that month only, by Absorb of one then the other |
| Analysis.TwoRowsOfOneMonth | rain_analysis/analysis/analysis.cxx:122-158 | two counted rows of one month fill that month and leave the others fresh |
| Analysis.YearRunOutcome | rain_analysis/analysis/analysis.cxx:120-178 | a header and two rows give the summary of what the two rows fold to |
| Analysis.UntouchedMonthsZero | rain_analysis/analysis/analysis.cxx:161-178 | months no row touched report zero everywhere |
| Analysis.JanuarySummary | rain_analysis/analysis/analysis.cxx:161-178 | the table of the January example gives January 5.0 mm, max 1.0, min -7.2, one rainy day |
| Analysis.JanuaryExample | rain_analysis/analysis/analysis.cxx:122-178 | station A, 1961, the two example rows: January is 5.0 mm, 1.0 / -7.2, one rainy day, and every other month is zero |
| Pipeline.HeadersAgree | rain_analysis/data_clean/Rain_data_clean.cxx:56 | the header the normaliser writes is the canonical header the aggregator's January example uses |
| Pipeline.DateParts | rain_analysis/analysis/analysis.cxx:137-140 | the year and month of a date-shaped field read without throwing, as 0..9999 and 0..99 |
| Pipeline.SplitOfCommaJoin | rain_analysis/data_clean/Rain_data_clean.cxx:86-90 | a row written as five comma-joined fields has at least five columns |
| Pipeline.KeptRowReadable | rain_analysis/analysis/analysis.cxx:124-145 | a row the normaliser keeps has at least five columns, column 0 is the ten-character date, year and month read, so it can only abort through a station field stod cannot read |
| Pipeline.KeptRowColumns | rain_analysis/data_clean/Rain_data_clean.cxx:80-90 | when fields 1-4 hold no comma, the aggregator's columns are exactly the trimmed date and fields 1-4 |
| Pipeline.DecimalCommaShiftsColumns | rain_analysis/data_clean/Rain_data_clean.cxx:80-90 | a rain field written with a decimal comma becomes two columns: station A then reads its integer part as rain and its fraction as temperature |

## Left out

- File paths and file I/O: both programs' inputs are sequences of lines and their outputs are values. The open checks are a parameter (`input: Option<…>` and `outputWritable`) of the aggregator only.
- The messages written to the standard output and error streams, and the unused `line_no` counter of the normaliser.
- `std::stod` is a parameter, not a model. Its handling of `nan`, `inf`, hexadecimal floats and trailing text is not modelled. Readings are exact reals, so NaN, infinities, negative zero and double rounding of the sums are absent.
- Stream formatting of numbers in the summary: rows are kept as numbers (`SummaryRow`), not as text.
- Slot 0 of the five month arrays: it is never read, and its initial contents are not part of the model.
- An output file the normaliser cannot open: its writes go nowhere, and that is not modelled.
- The aggregator's `std::terminate` on an uncaught exception is the outcome `Aborted` with no exit status; the process-level behaviour is not modelled.
- Bytes versus characters: strings here are sequences of characters, while `size()` and `substr` in the source count bytes. The model agrees with the source on ASCII text only. For example, the date `1961-01-é` is 10 bytes in UTF-8 but 9 characters: the source counts such a row for January, while `Classify` skips it.
- Integer width of the counters: `kept` and `skipped` in the normaliser and `month_rainy_days` in the aggregator are 32-bit `int` in the source and unbounded `nat` here. Counts past 2^31 - 1 are not modelled.
- Analysis.ExtremesAreReadings: it holds only for temperatures between -1e300 and 1e300. A reading beyond them would leave a start value in place, as the source does.
- Analysis.JanuaryExample: it takes the two rows' verdicts as preconditions. JanuaryDryRow and JanuaryRainyRow prove those verdicts for the literal rows.
