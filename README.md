# Advent of Code 2024, days 1 to 4, in Dafny

This project models the four puzzle solvers of an Advent of Code 2024
repository written in Rust (`src/days/day1.rs` to `src/days/day4.rs`) and
proves what each of them computes.

- **Day 1, list distance and similarity** (`day1.dfy`, module `Day1`).
  - The input is two integer columns. Parsing skips blank lines and rejects
    any other line that does not hold exactly two 32-bit integers. It
    builds both columns and an occurrence table of the right column.
  - Part 1 sorts copies of both columns and adds up the pairwise distances.
  - Part 2 adds up each left value times its count in the table.
- **Day 2, report safety** (`day2.dfy`, module `Day2`).
  - A report is safe when its levels strictly increase or strictly decrease
    in steps of 1 to 3.
  - The checker scans for the first failing step. In the damped mode it
    retries, without damping, with one level near that step removed.
  - Part 1 and part 2 count the safe reports without and with damping.
- **Day 3, corrupted memory** (`day3.dfy`, module `Day3`).
  - The text matched by the pattern for `mul(A,B)` (A and B of one to three
    digits), `do()` and `don't()` becomes a list of operations.
  - Part 1 sums every product.
  - Part 2 folds an enabled/disabled machine over the list, starting
    enabled. It adds a product only while enabled.
- **Day 4, word search** (`day4.dfy`, module `Day4`).
  - The grid is an `array2<char>`.
  - Part 1 counts the readings of XMAS from every `X` in eight directions.
  - Part 2 counts interior `A` cells at the crossing of two diagonal MAS
    readings.
  - Parsing keeps the non-empty lines and shapes their characters into the
    grid.
- **Shared vocabulary** (`common.dfy`, module `Common`): the result and
  error types, the tokens a line splits into, and the signed 32-bit integer
  parse.

Each solver is modelled in the form the source has.

- Loops that build values in place become methods with loop invariants,
  each proved equal to a specification function:
  - the parsers;
  - the day 2 checker, with its early returns and its depth-one recursion;
  - the day 4 cell check and grid scans.
- Iterator sums and folds become recursive functions.
- Every specification function is then tied to an independent definition
  or a property the puzzle promises. Examples:
  - day 2 damping accepts exactly the reports that are safe after removing
    one level;
  - day 3 part 2 is the sum of the products that follow an enabling switch;
  - day 4 part 1 counts the word's readings cell by cell and direction by
    direction.
- The tests' worked examples are proved:
  - day 1: 11 and 31;
  - day 2: 2 and 4 on the first input, 0 and 5 on the second;
  - day 3: 161 and 48;
  - day 4: 18 and 9.

## Model

| member | source | states |
|---|---|---|
| Common.ParseI32 | src/days/day1.rs:73-75 | a token parses as an i32 exactly when it is a numeral within the 32-bit range; the result is its value; otherwise the error names the token |
| Common.Abs | src/days/day1.rs:40 | the absolute value is the difference or its negation, never negative |
| Day1.ClassifyLine | src/days/day1.rs:65-76 | a line is skipped exactly when it has no tokens; it is accepted exactly when it has two i32 tokens, giving their values; a wrong token count is reported before a bad token, and the left token's error before the right's |
| Day1.ParseSpec | src/days/day1.rs:64-85 | definition: the lines in order; a blank line is skipped, a pair line extends both columns and adds one to the right value's count, and the first other line ends the parse with its error |
| Day1.Parse | src/days/day1.rs:59-86 | the loop returns the specification parse: the first malformed line's error, or both columns and the count table of the lines so far |
| Day1.ParseOkIff | src/days/day1.rs:64-80 | parsing succeeds exactly when every line is blank or holds two i32 tokens |
| Day1.ParseErrorIsFirstBadLine | src/days/day1.rs:64-76 | a failed parse reports the error of the first malformed line, all earlier lines being well formed |
| Day1.FirstBadLine | src/days/day1.rs:64-76 | returns the index of that first malformed line |
| Day1.ParseColumns | src/days/day1.rs:64-80 | after a successful parse both columns have one entry per non-blank line, in input order, taken from that line's two tokens |
| Day1.TallyCounts | src/days/day1.rs:77-78 | the table built value by value has exactly the values of the column as keys, each mapped to its number of occurrences |
| Day1.ParseCounts | src/days/day1.rs:77-78 | after a successful parse `counts` is the occurrence table of `list2`, with no entry for absent values |
| Day1.Insert | src/days/day1.rs:34-35 | inserting into a sorted list keeps it sorted and adds exactly that element |
| Day1.Sort | src/days/day1.rs:34-35 | the sorted column is ordered and a permutation of the original |
| Day1.SortedUnique | src/days/day1.rs:34-35 | two sorted permutations of one multiset are equal, so every correct sort gives part 1 the same input |
| Day1.Part1 | src/days/day1.rs:30-44 | definition: the sum of the absolute differences of the two columns, each sorted, paired in order |
| Day1.Part1Permutation | src/days/day1.rs:30-43 | part 1 does not change when either column is reordered |
| Day1.DistanceSymmetric | src/days/day1.rs:37-41 | the pairwise distance does not change when the two columns are swapped |
| Day1.Part2 | src/days/day1.rs:46-53 | definition: the sum over the left column of each value times its entry in the count table, 0 when it has none |
| Day1.SimilarityMatchesOccurrence | src/days/day1.rs:46-53 | the score computed through the count table equals the sum of each left value times its occurrences in the right column |
| Day1.Part2Parsed | src/days/day1.rs:46-53 | on a parsed input part 2 is the sum over the left column of value times occurrences in the right column; absent values add 0 |
| Day1.ExampleParse | src/days/day1.rs:93-100 | the six-line example, trailing blank line included, parses to columns 3 4 2 1 3 3 and 4 3 5 3 9 3 |
| Day1.ExamplePart1 | src/days/day1.rs:102-108 | part 1 of the example is 11 |
| Day1.ExamplePart2 | src/days/day1.rs:110-116 | part 2 of the example is 31 |
| Day1.Example | src/days/day1.rs:93-116 | the example parses, and its parts are 11 and 31 |
| Day2.InLimits | src/days/day2.rs:19-22 | definition: two adjacent levels differ by at least 1 and at most 3 |
| Day2.StepValid | src/days/day2.rs:24-33 | definition: three adjacent levels strictly increase or strictly decrease, both steps within the limits |
| Day2.InLimitsSymmetric | src/days/day2.rs:19-22 | the step limit of 1 to 3 does not depend on the order of the two levels |
| Day2.Damp | src/days/day2.rs:35-40 | removing a position shortens the report by one and keeps the other levels in order |
| Day2.DampRemovesOne | src/days/day2.rs:35-40 | removing a position takes exactly that level out of the report |
| Day2.FirstFailureFrom | src/days/day2.rs:47-77 | the scan stops at the first position whose step test fails, every earlier test passing |
| Day2.ReportSafe | src/days/day2.rs:42-80 | definition: fewer than two levels are safe; otherwise the first failing window position decides, and in damped mode the report is retried, undamped, without the level before, at or after it |
| Day2.CheckReportSafe | src/days/day2.rs:42-80 | the scan, its early returns and its retries give the specification verdict: safe below two levels or when no test fails; otherwise unsafe undamped, and damped safe exactly when an undamped retry without one level of the failing window is safe |
| Day2.DampedVerdictAt | src/days/day2.rs:47-77 | for a report whose first failing position is p, the damped verdict is the safety of one of the reports without a level of p's window |
| Day2.UndampedIsSafe | src/days/day2.rs:42-80 | the undamped verdict is exactly safety |
| Day2.DampedIsOneRemoval | src/days/day2.rs:42-80 | the damped verdict holds exactly when the report is safe or becomes safe after removing any one level: trying only the levels next to the first failure loses nothing |
| Day2.DampedFindsRemoval | src/days/day2.rs:42-80 | an unsafe report the damped check accepts becomes safe after removing some level |
| Day2.RemovalRepairs | src/days/day2.rs:42-80 | an unsafe report that removing any one level makes safe is accepted by the damped check |
| Day2.DampingOnlyAccepts | src/days/day2.rs:42-80 | a report safe without damping is safe with it |
| Day2.SafeIsMonotoneAndGentle | src/days/day2.rs:24-33 | safety by the windowed scan is exactly strictly increasing or strictly decreasing with every step between 1 and 3 |
| Day2.SafeDirection | src/days/day2.rs:24-33 | overlapping three-level windows that all move one way make the whole prefix move that way |
| Day2.Part1 | src/days/day2.rs:91-100 | definition: the number of reports the undamped check accepts |
| Day2.Part2 | src/days/day2.rs:102-111 | definition: the number of reports the damped check accepts |
| Day2.CountSafe | src/days/day2.rs:91-111 | the number of safe reports is at most the number of reports |
| Day2.Part1AtMostPart2 | src/days/day2.rs:91-111 | part 1 is at most part 2, which is at most the number of reports |
| Day2.LineLevels | src/days/day2.rs:120-124 | definition: the tokens of a line parsed in order, stopping at the first that is not an i32 |
| Day2.ParseSpec | src/days/day2.rs:117-129 | definition: the lines in order; the first bad token ends the parse with its error, and a line with tokens adds one report |
| Day2.Parse | src/days/day2.rs:117-130 | the nested loops return the specification parse: the first bad token's error, or one report per line that holds tokens |
| Day2.LineLevelsMeaning | src/days/day2.rs:121-124 | a line is read exactly when all its tokens are i32s, giving their values in order (the line's `Values`); otherwise the error names its first bad token |
| Day2.ParseOkIff | src/days/day2.rs:117-130 | parsing succeeds exactly when every token of every line is an i32 |
| Day2.ParsedReports | src/days/day2.rs:119-128 | after a successful parse there is one non-empty report per line with tokens, in order, holding that line's values; lines without tokens give none |
| Day2.CountSafeByVerdicts | src/days/day2.rs:91-111 | the count equals the number of true verdicts |
| Day2.Example1Counts | src/days/day2.rs:138-161 | the first example has 2 safe reports undamped and 4 damped |
| Day2.Example2Counts | src/days/day2.rs:163-189 | the second example has 0 safe reports undamped and 5 damped, including `4 7 5 3 1`, repaired by removing a level before the failing step |
| Day3.DigitRunIs | src/days/day3.rs:66 | the digit run from an index is the length of the digit block ending before a non-digit |
| Day3.Digits | src/days/day3.rs:66 | the numeral of a number reads back to it, and has at most three digits below 1000 |
| Day3.MulOperands | src/days/day3.rs:66-72 | the operands it gives are at most 999; Day3.MulOperandsMeaning states which texts give operands and which values |
| Day3.DigitRunAllDigits | src/days/day3.rs:66 | the characters the digit run counts are digits, and the run stops at a non-digit or the end |
| Day3.MulShapedOperands | src/days/day3.rs:66-72 | a text `mul(`, n1 digits, `,`, n2 digits, `)` with n1 and n2 between 1 and 3 gives the decimal values of the two digit blocks |
| Day3.MulOperandsMeaning | src/days/day3.rs:66-72 | a text gives operands exactly when it is `mul(A,B)` with A and B of one to three ASCII digits and nothing else around them, and then the operands are the values of A and B |
| Day3.TextOperation | src/days/day3.rs:68-80 | a text is accepted exactly when it starts with `mul` or is `do()` or `don't()`; any other text is an unexpected-match error naming it; every text the pattern can match gives an operation |
| Day3.ParseSpec | src/days/day3.rs:64-83 | definition: the texts in order; a `mul` text with operands adds a multiplication, one without adds nothing, `do()` and `don't()` add their switch, and any other text ends the parse with its error |
| Day3.Parse | src/days/day3.rs:64-83 | the loop returns the specification parse: the first unrecognised text's error, or the operations in order |
| Day3.ParseOkIff | src/days/day3.rs:67-81 | parsing succeeds exactly when every text is recognised, and fails on the first one that is not |
| Day3.ParsedOperandsBounded | src/days/day3.rs:69-72 | every parsed multiplication has operands between 0 and 999 |
| Day3.ParseMatchTexts | src/days/day3.rs:67-81 | on texts the pattern matches, parsing gives one operation per text, in order |
| Day3.MulRoundTrip | src/days/day3.rs:66-72 | the canonical text of a multiplication reads back to its operands |
| Day3.RenderedMul | src/days/day3.rs:68-72 | the canonical text of a multiplication becomes that multiplication |
| Day3.RenderedOperation | src/days/day3.rs:68-77 | the canonical text of any operation parses back to it |
| Day3.ParseRenderRoundTrip | src/days/day3.rs:64-83 | parsing the canonical texts of any operations with operands in 0..999 gives back exactly those operations |
| Day3.MatchLengthMatches | src/days/day3.rs:66-67 | the scanner takes a match only where the text at that position passes its test |
| Day3.ScanWithAccepts | src/days/day3.rs:66-67 | every text the leftmost, non-overlapping scanner yields passes its test |
| Day3.ScanYieldsMatchTexts | src/days/day3.rs:66-67 | with the pattern as its test, every text the scanner yields is a match of the pattern |
| Day3.ParseScanned | src/days/day3.rs:64-83 | parsing never fails on the scanner's matches and keeps one operation per match |
| Day3.Part1 | src/days/day3.rs:28-40 | definition: the sum of the products of the multiplications, switches adding 0 |
| Day3.Step | src/days/day3.rs:46-56 | definition: a multiplication adds its product only while enabled; `do()` enables and `don't()` disables, leaving the sum |
| Day3.Part2 | src/days/day3.rs:42-58 | definition: the sum the machine holds after stepping through every operation from an empty, enabled start |
| Day3.RunAppend | src/days/day3.rs:43-56 | folding one more operation is one more step of the machine |
| Day3.RunMeaning | src/days/day3.rs:42-58 | the fold ends with the sum of the products that follow an enabling switch (or no switch), and the switch as the last `do()` or `don't()` left it |
| Day3.Part2IsEnabledProducts | src/days/day3.rs:42-58 | part 2 is the sum of the enabled products |
| Day3.NoDontAgrees | src/days/day3.rs:28-58 | without a `don't()`, part 2 equals part 1 |
| Day3.EnabledAtMostAll | src/days/day3.rs:28-58 | with non-negative products the enabled sum lies between 0 and the sum of all products |
| Day3.Part2AtMostPart1 | src/days/day3.rs:28-83 | on parsed operations part 2 lies between 0 and part 1 |
| Day3.DontSilences | src/days/day3.rs:46-56 | after a `don't()`, nothing up to the next `do()` changes part 2 |
| Day3.ExamplePart1 | src/days/day3.rs:91-102 | the first example's matches parse to mul(2,4) mul(5,5) mul(11,8) mul(8,5), whose products sum to 161 |
| Day3.ExamplePart2 | src/days/day3.rs:93-110 | the second example's matches parse to operations whose enabled products sum to 48 |
| Day4.CountReadings | src/days/day4.rs:14-18 | at most one reading per direction, and none from a cell that is not `X` |
| Day4.XmasAtDirections | src/days/day4.rs:22-89 | the readings from a cell are the eight directions' readings added up |
| Day4.CheckXmas | src/days/day4.rs:14-91 | the eight guarded tests count exactly the directions along which XMAS reads inside the grid, between 0 and 8, and 0 off an `X`; every read is in bounds once both dimensions are at least 3 |
| Day4.Part1 | src/days/day4.rs:122-133 | the nested loops return the readings summed over every cell |
| Day4.GridXmasBound | src/days/day4.rs:122-133 | part 1 is at most eight times the number of `X` cells |
| Day4.CheckXMas | src/days/day4.rs:93-111 | the four corner arrangements hold exactly when the centre is `A` and both diagonals read MAS forwards or backwards |
| Day4.Part2 | src/days/day4.rs:135-148 | the loops over interior cells return the number of crossings there, 0 for fewer than three lines, with every read in bounds |
| Day4.NoCrossOnBorder | src/days/day4.rs:140-141 | no crossing sits on the border, so searching interior cells only misses none |
| Day4.GridCrossesAreAs | src/days/day4.rs:135-148 | part 2 is at most the number of interior `A` cells |
| Day4.Utf8Length | src/days/day4.rs:162 | a line's UTF-8 length, as `str::len` counts it, lies between its character count and four times that |
| Day4.Utf8LengthAscii | src/days/day4.rs:162 | a line is as many bytes long as it has characters exactly when every character is ASCII |
| Day4.Collect | src/days/day4.rs:155-168 | the closure's walk records the last non-empty line's length in UTF-8 bytes, counts the non-empty lines and concatenates their characters |
| Day4.LayoutInRange | src/days/day4.rs:169 | every cell of a rows by columns grid has its place among the first rows times columns characters |
| Day4.FromShape | src/days/day4.rs:169 | shaping fails exactly when the character count differs from rows times columns; otherwise cell (i, j) holds character i * columns + j |
| Day4.ParseAsWritten | src/days/day4.rs:154-171 | reading as written fails exactly when the character count differs from the last line's byte length times the line count; otherwise the grid has that byte length as its first dimension and the line count as its second, filled line after line |
| Day4.Parse | src/days/day4.rs:154-171 | reading with one grid row per line and the last line's byte length as the row width: it fails exactly on a count mismatch, and otherwise puts character i * width + j at (i, j) |
| Day4.NonEmptyOfFull | src/days/day4.rs:160 | dropping empty lines leaves a list without empty lines unchanged |
| Day4.ConcatLength | src/days/day4.rs:157-168 | lines of one width, concatenated, have lines times width characters |
| Day4.ConcatCell | src/days/day4.rs:157-168 | in lines of one width, line i's character j is at i * width + j of the concatenation |
| Day4.ParsedCells | src/days/day4.rs:155-169 | when every non-empty line has as many characters as the last line has bytes (for ASCII: all lines of one length), the count check passes and the corrected grid holds line i's character j at (i, j) |
| Day4.SquareParsedAsWritten | src/days/day4.rs:169 | for a square puzzle the program's own shape also puts line i's character j at (i, j) |
| Day4.NonSquareParsedAsWritten | src/days/day4.rs:162-169 | for three lines of four, the program's shape passes the count check but moves the first line's last character to the start of the second row |
| Day4.NonAsciiShapeAccepted | src/days/day4.rs:162-169 | the width is counted in bytes and the cells in characters: the lines `abc` and `é` pass the count check as two by two although they are three and one characters long |
| Day4.ExampleShape | src/days/day4.rs:179-190 | the example is ten ASCII lines of ten characters, so ten bytes wide, plus a trailing empty line |
| Day4.ExampleXmas | src/days/day4.rs:192-198 | the example grid holds 18 readings of XMAS |
| Day4.ExampleCrosses | src/days/day4.rs:200-206 | the example grid holds 9 crossings |
| Day4.Example | src/days/day4.rs:179-206 | reading the example with the program's own shape and searching it gives 18 and 9 |

## Left out

- The file and network plumbing (`src/aoc.rs`), the command line
  (`src/main.rs`) and the dispatch over days (`src/days/mod.rs`): they are
  I/O, with nothing to state.
- Splitting the input at newlines, `trim` and `split_whitespace` are not
  modelled. Day 1 and day 2 take each line as its sequence of
  whitespace-separated tokens. Day 4 takes the trimmed lines.
- `str::parse::<i32>`:
  - modelled on tokens: a `Numeral` carries its mathematical value and is
    accepted when it lies in the 32-bit range; any other token is rejected;
  - the character syntax of numerals (signs, digits) is not modelled;
  - Rust's `ParseIntError` message does not name the token. The model's
    `NotAnInteger` error carries the token, so that the contracts can say
    which token failed.
- 32-bit overflow is not modelled. Integers are unbounded in:
  - day 1: the distances, their sum and the similarity products;
  - day 2: the level differences;
  - day 3: the products and sums.
- Day 4: `x_size - 3`, `x_size - 1` and `y_size - 1` panic on unsigned
  underflow. These are not modelled as panics; the members' preconditions
  exclude those inputs:
  - Day4.CheckXmas requires both dimensions to be at least 3 when the cell
    holds `X`;
  - Day4.Part1 requires the same of every `X` in the grid;
  - Day4.Part2 requires at least one line, and at least one column when
    there are three lines or more.
- Day 1: the in-place sort of the cloned columns is a library call. It is
  modelled as a pure insertion-sort function, and Day1.SortedUnique shows
  that any sort yields the same sequence. Part 1 is a function, so the
  stored columns are untouched by construction.
- Day 2: `damp` clones a vector and calls `remove`. It is modelled as a
  function on sequences, so the original report is untouched by
  construction.
- Day 3: the `regex` crate is not modelled:
  - the parser takes the sequence of matched texts;
  - Day3.Scan is a reference scanner for the pattern (leftmost,
    non-overlapping), and no equivalence with the crate's matcher is
    claimed;
  - `\d` in that crate also matches non-ASCII decimal digits, whose
    `parse::<i32>` would fail; the model's digits are ASCII only.
- Day3.Parse: suppose a text starts with `mul` but is not itself a complete
  `mul(A,B)` match. The program searches that text again with the pattern
  and may find a different match inside it. The model skips such a text
  instead. Texts the pattern itself produced never take this path.
- Day 4: `Array2::from_shape_vec` is modelled by Day4.FromShape. It has
  the standard line-after-line layout, and its failure is the
  `ShapeMismatch` error.
- Day 4: lines of unequal length whose total still equals width times
  count pass the count check, both as written and in Day4.Parse.
  Day4.ParsedCells states the cell layout only for lines of one width.
- Day 4: the width is the last line's length in UTF-8 bytes, as in the
  program, while the cells are characters. Day4.Parse corrects only the
  order of the two dimensions and keeps the byte width, so lines with
  non-ASCII characters are shaped by bytes (Day4.NonAsciiShapeAccepted).
  The puzzle input is ASCII, where bytes and characters agree
  (Day4.Utf8LengthAscii).
- `trace!` logging and the `#[bench]` benchmarks are not modelled; they do
  not affect any result.

## Findings

| source | as written | input that shows it | evidently intended | confidence | as-written member | corrected member |
|---|---|---|---|---|---|---|
| src/days/day4.rs:162-169 | the grid is shaped (length of the last line, number of lines) while its characters are laid out line after line, so a non-square puzzle is re-wrapped instead of transposed or rejected | the three lines `XMAS`, `....`, `....`: the count check passes (12 = 4 x 3), and the second grid row starts with the `S` that ends the first line | shape (number of lines, line length), so that cell (i, j) is line i's character j | high for the shape; not executed | Day4.NonSquareParsedAsWritten | Day4.ParsedCells |
