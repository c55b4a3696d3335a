# aoc-2023 solvers in Dafny

This project models the puzzle solvers of the `aoc-2023` Rust repository for
days two to five, and proves what they compute:

- **Day three, engine schematic** (`src/solutions/three.rs`), module `Schematic`.
  `get_neighbors` lists the ring of cells around a horizontal run of digits.
  `is_target_part` asks whether any in-grid cell of that ring holds a symbol,
  meaning a character that is neither `.` nor a decimal digit.
- **Day four, scratch cards** (`src/solutions/four.rs`), module `ScratchCards`.
  `get_result` counts the numbers on the right of a card that also appear on the
  left, and scores the card 0 or `2^(k-1)`.
  `get_idx_of_col_and_bar` finds the last `:` and the last `|` of a line.
  `run` slices every line at those two markers and adds the scores up.
- **Day five, almanac** (`src/solutions/five.rs`), module `SeedMaps`.
  `dest` pushes a seed through the seven stages named in `MAP_ARR`.
  In each stage the first range that covers the value remaps it.
  `build_maps` files every data line's range under the most recent stage header.
- **Day two, cube game** (`src/solutions/two.rs`), module `CubeGame`.
  `extract_max_for_color` takes the largest count drawn for one colour on a
  line, as found by the regular expression `(\d+)\s<colour>`.
  `CubeSet::build` collects the three maxima.
  `cmp` orders cube sets by red, then green, then blue.
  The loop in `calculate_val` counts the lines whose set orders strictly below
  the cap of 12 red, 13 green and 14 blue.
- **The stand-alone cube set** (`src/two.rs`), module `CubeOrder`. It is the
  `u32` variant of the same equality and order.

Shared pieces:

- `Wrappers` holds `Option` and `Result`.
- `RustText` models Rust's `str::split(' ')`, `parse::<i32>` and `parse::<u32>`,
  the ASCII digit test `char::is_digit(10)`, and `str::len`, the byte length
  of a string's UTF-8 encoding.
- `Ordering` models `std::cmp::Ordering`, integer `cmp` and `Ordering::then`.
- `PossibleGames` sets the day-two cap test beside the per-colour test (see
  Findings).
- `GameFive` is the `build_cubeset` unit test of day two on its own input
  string.

Where the Rust code mutates state in a loop, the model is a `method` with the
same loop, proved equal to a specification function. Examples are
`GetNeighbors`, `GetResult`, `GetIdxOfColAndBar`, `Run`, `ApplyStage`, `Dest`,
`BuildMaps` and `CountBelowCap`. The pure iterator chains are functions:
`AnySymbol`, `ExtractMaxForColor`, `Cmp` and `Then`.

Rust panics are handled in one of two ways.

- Some become preconditions:
  - `unwrap` of a missing stage in `dest`
  - `i32::pow` overflow
  - `u32` addition overflow
  - `i32` parse overflow on day two
  - a day-two line on which some colour never occurs, where `expect` panics: `CountBelowCap` requires every line to build
  - the slices of `run` on a line whose last `:` does not come before its last `|`
  - an empty grid, or a row narrower than the first (`WideRows`, stronger than the source needs)
- The others become explicit outcomes:
  - `expect` in `extract_max_for_color` becomes `None`
  - `unwrap` on a bad field or a missing header in `build_maps` becomes a `Panic` value

Day three of this repository contains only the neighbour enumeration and the
part test. No scanner for digit runs, no gear (`*`) pairing and no summing of
part numbers appears in `src/solutions/three.rs`, so the model has none of them.
Likewise, `build_maps` and `CubeSet::build` have no error results in the code;
they panic, and the model follows the code.

## Model

| member | source | states |
|---|---|---|
| RustText.DigitValue | src/solutions/four.rs:7 | the value of an ASCII digit is below ten |
| RustText.ParseI32 | src/solutions/four.rs:7-9 | `parse::<i32>` succeeds only on a non-empty token without spaces, with a value in the `i32` range |
| RustText.ParseU32 | src/solutions/five.rs:62-64 | `parse::<u32>` succeeds only on a non-empty token, with a value in `0..=u32::MAX` |
| RustText.Split | src/solutions/four.rs:62 | `split(' ')` yields at least one piece, and no piece contains the separator |
| RustText.JoinSplit | src/solutions/five.rs:52 | joining the pieces of `split(sep)` with `sep` gives back the string |
| RustText.SplitWithoutSeparator | src/solutions/five.rs:52-55 | a line without a space splits into itself alone, so the vector is never empty |
| RustText.ParseI32Digits | src/solutions/two.rs:69 | a non-empty digit string whose value fits parses to that value |
| RustText.Utf8Width | src/solutions/three.rs:22 | a character takes one to four bytes in UTF-8, and one exactly when it is ASCII |
| RustText.Utf8Len | src/solutions/three.rs:22 | `str::len` is between the character count and four times it |
| RustText.Utf8LenAscii | src/solutions/three.rs:22 | the byte length equals the character count exactly when every character is ASCII |
| RustText.AccentedLength | src/solutions/three.rs:22 | the value `é1` has two characters and three bytes |
| RustText.EmptyIsNotANumber | src/solutions/four.rs:14-15 | the empty token, which repeated spaces produce, parses neither as `i32` nor as `u32` |
| Ordering.Ordering.Then | src/two.rs:26-28 | `then` is `Equal` exactly when both are, and a non-`Equal` first ordering decides |
| Ordering.CmpInt | src/two.rs:26 | integer `cmp` is `Less`, `Equal` or `Greater` exactly when `<`, `==` or `>` holds |
| CubeOrder.Eq | src/two.rs:10-16 | `eq` holds exactly when the two sets are the same |
| CubeOrder.Cmp | src/two.rs:24-30 | `cmp` is `Less` exactly when the sets are lexicographically below on (red, green, blue), `Equal` exactly when they are equal, and `Greater` exactly when above |
| CubeOrder.PartialCmp | src/two.rs:18-20 | `partial_cmp` is always `Some`, `Some(Equal)` exactly when the sets are equal and `Some(Less)` exactly when the first is lexicographically smaller |
| CubeOrder.Lt | src/two.rs:18-22 | `<` through `partial_cmp` is the (red, green, blue) lexicographic order |
| CubeOrder.Ge | src/two.rs:18-22 | `>=` through `partial_cmp` holds exactly when the first set is not lexicographically smaller |
| CubeOrder.PartialCmpIsTotal | src/two.rs:18-22 | `partial_cmp` is always `Some`, it is `Some(Equal)` exactly when `eq` holds, `<` is the lexicographic order and `>=` its complement |
| CubeOrder.CmpIsTotalOrder | src/two.rs:24-30 | `cmp` is reflexive, antisymmetric (swapping the operands reverses it), consistent with equality, and transitive |
| CubeOrder.LargerThanCap | src/two.rs:37-51 | the cap (12, b13, g14) is below (16, b9, g17) though its blue count is larger |
| CubeOrder.SmallerThanCap | src/two.rs:54-68 | the cap is `>=` (10, b9, g11) |
| CubeOrder.EqualToCap | src/two.rs:71-85 | the cap is `>=` (12, b9, g14), and the two are not equal |
| Schematic.GetNeighbors | src/solutions/three.rs:7-16 | the nested loop returns exactly the row-by-row list `Neighbors` |
| Schematic.RowCellsMember | src/solutions/three.rs:10-12 | a cell is kept in one row of the loop exactly when its column offset lies in `-1..=size` and is not skipped |
| Schematic.RowCellsOrdered | src/solutions/three.rs:10 | the cells of one row all sit in that row, in strictly increasing column order |
| Schematic.RowsOrdered | src/solutions/three.rs:10 | the rows pushed so far lie above the next row and are in strict row-major order |
| Schematic.NeighborsRows | src/solutions/three.rs:10-13 | the result is the row above, then the run's own row, then the row below |
| Schematic.OuterRow | src/solutions/three.rs:10-12 | the rows above and below keep every column offset from -1 on |
| Schematic.MiddleRowPrefix | src/solutions/three.rs:11 | in the run's own row only offset -1 is kept before offset `size` |
| Schematic.MiddleRow | src/solutions/three.rs:11-12 | the run's own row yields exactly the cell left of the run and the cell right of it |
| Schematic.NeighborsMember | src/solutions/three.rs:10-12 | a cell is returned exactly when it lies in the box one cell around the run and is not a cell of the run |
| Schematic.NeighborsRowMajor | src/solutions/three.rs:10 | the result is in strict row-major order, so it has no duplicates |
| Schematic.OuterRowLength | src/solutions/three.rs:10-12 | an outer row holds one cell per column offset |
| Schematic.MiddleRowLength | src/solutions/three.rs:11 | the run's own row holds one cell until offset `size` is reached and two from there on |
| Schematic.NeighborsCount | src/solutions/three.rs:10-12 | a run of `size >= 0` cells has exactly `2*size + 6` neighbours; for the degenerate sizes -1 and below the loop gives 3 and 0 |
| Schematic.NeighborsOfFour | src/solutions/three.rs:10-13 | the fourteen neighbours of any four-cell run, in the order they are pushed |
| Schematic.NeighborsExample | src/solutions/three.rs:85-94 | for (2, 4) and size 4 the result is the sorted fourteen-cell list |
| Schematic.NeighborsExampleUnordered | src/solutions/three.rs:92 | the same cells form exactly the set the unit test lists |
| Schematic.AnySymbol | src/solutions/three.rs:23-26 | the filter/map/any chain holds exactly when some in-bounds cell of the list holds a symbol |
| Schematic.IsTargetPart | src/solutions/three.rs:18-27 | `is_target_part` holds exactly when some in-grid cell of the box around the part, other than the part's own cells, holds a symbol; the box is as wide as the value's byte length `value.len()` |
| Schematic.AdjacentSymbolIff | src/solutions/three.rs:22-26 | some neighbour from `get_neighbors` holds a symbol exactly when some in-grid cell of the box, off the part's own run, does |
| Schematic.TestValueLength | src/solutions/three.rs:42-47 | the tests' part value `4401` is four bytes long |
| Schematic.BoundaryExample | src/solutions/three.rs:34-48 | a part in the top-left corner with `*` diagonally below it is a target part |
| Schematic.SymbolAboveExample | src/solutions/three.rs:51-65 | an `@` directly above the part, over its third digit, makes it a target part |
| Schematic.PlainGridHasNoTarget | src/solutions/three.rs:18-27 | in a grid whose rows hold no symbol, no part is a target part |
| Schematic.DotsRowPlain | src/solutions/three.rs:70-74 | a row of dots holds no symbol |
| Schematic.PartRowPlain | src/solutions/three.rs:72 | the part's row of dots and digits holds no symbol |
| Schematic.NoSymbolExample | src/solutions/three.rs:68-82 | a part surrounded by dots is not a target part |
| ScratchCards.WinningMember | src/solutions/four.rs:4-11 | the set holds exactly the values of the left tokens that parse as `i32` |
| ScratchCards.MatchCount | src/solutions/four.rs:13-18 | the match count is at most the number of right tokens |
| ScratchCards.MatchCountZero | src/solutions/four.rs:20 | the count is zero exactly when no right token parses to a winning number |
| ScratchCards.Pow2 | src/solutions/four.rs:22-23 | a power of two is at least one |
| ScratchCards.GetResult | src/solutions/four.rs:3-24 | the loops return the score of the match count: 0 with no match, else `2^(k-1)`; 0 exactly when no right token matches; the score fits an `i32` |
| ScratchCards.WinningStep | src/solutions/four.rs:6-11 | one more left token adds its value to the set when it parses, and nothing otherwise |
| ScratchCards.MatchCountStep | src/solutions/four.rs:13-18 | one more right token adds one to the count exactly when it matches |
| ScratchCards.Pow2Bound | src/solutions/four.rs:22-23 | powers of two grow with the exponent |
| ScratchCards.Pow2Thirty | src/solutions/four.rs:23 | `2^30`, the largest score, is `0x4000_0000` and fits an `i32` |
| ScratchCards.ScoreDoubles | src/solutions/four.rs:20-23 | from one match on, each further match doubles the score |
| ScratchCards.MatchCountAppend | src/solutions/four.rs:13-18 | right tokens are counted with multiplicity: the count over two stretches is the sum of their counts |
| ScratchCards.LeftOrderIrrelevant | src/solutions/four.rs:4-9 | two left lists with the same tokens give the same score, whatever their order and duplicates |
| ScratchCards.WinningLast | src/solutions/four.rs:6-11 | the last left token adds its parsed value, if any, to the set of the ones before it |
| ScratchCards.WinningAppend | src/solutions/four.rs:6-11 | the set of two stretches of left tokens is the union of their sets |
| ScratchCards.UnparsableWinningIgnored | src/solutions/four.rs:7-9 | inserting a left token that does not parse leaves the set unchanged |
| ScratchCards.UnparsableMatchIgnored | src/solutions/four.rs:14-15 | inserting a right token that does not parse leaves the count unchanged |
| ScratchCards.LastIndex | src/solutions/four.rs:30-36 | none exactly when the character is absent; otherwise an index of it with no later occurrence |
| ScratchCards.LastIndexUnique | src/solutions/four.rs:30-36 | an occurrence with no later one is the last index |
| ScratchCards.GetIdxOfColAndBar | src/solutions/four.rs:26-43 | `Ok` exactly when both `:` and `|` occur, with the indices of their last occurrences; otherwise the error message |
| ScratchCards.Run | src/solutions/four.rs:55-69 | `Ok` exactly when every line has both markers, with the sum of the line scores; otherwise the error message |
| ScratchCards.TokensAt | src/solutions/four.rs:59-62 | the left and right token lists are the splits of `line[col+1..bar]` and `line[bar+1..]` |
| ScratchCards.SumScoresStep | src/solutions/four.rs:57-62 | the sum over one more line adds that line's score |
| ScratchCards.SumScoresAppend | src/solutions/four.rs:56-68 | the sum over two stretches of lines is the sum of their sums |
| SeedMaps.StageValue | src/solutions/five.rs:37-43 | the first covering range in list order remaps the value to `dest + (v - src)`; with no covering range the value passes unchanged |
| SeedMaps.ApplyStage | src/solutions/five.rs:37-43 | the `for` loop with `break` computes the stage value |
| SeedMaps.Dest | src/solutions/five.rs:29-46 | the recursion computes the chain of stage values from `map_idx` on |
| SeedMaps.DestIsChain | src/solutions/five.rs:29-45 | `dest` from `map_idx` applies exactly the last `7 - map_idx` stages, in `MAP_ARR` order |
| SeedMaps.DestPastLastStage | src/solutions/five.rs:30-32 | from index 7 on the value comes back unchanged |
| SeedMaps.EmptyStagesAreIdentity | src/solutions/five.rs:37-45 | with every remaining stage empty, a seed is its own location |
| SeedMaps.IntendedStageValue | src/solutions/five.rs:38-43 | corrected stage: the first range whose `range`-long span holds the value remaps it; with none the value passes |
| SeedMaps.IntendedDestValue | src/solutions/five.rs:29-46 | corrected `dest` chains `IntendedStageValue` through the stages in `MAP_ARR` order; a value that no range of any remaining stage covers reaches the end unchanged |
| SeedMaps.SpanTakenFromDest | src/solutions/five.rs:39 | for the range `50 98 2`, seed 100 is remapped to 52 as written and passes as 100 when corrected |
| SeedMaps.StageAgreesWhenDestIsRange | src/solutions/five.rs:39 | where every range's length equals its destination start, the stage as written and the corrected stage agree |
| SeedMaps.MapsFitWhenDestIsRange | src/solutions/five.rs:39-40 | on such an almanac the additions of the test as written cannot overflow either |
| SeedMaps.DestAgreesWhenDestIsRange | src/solutions/five.rs:29-46 | on such an almanac `dest` as written and the corrected `dest` give the same location |
| SeedMaps.StepAgreesWhenDestIsRange | src/solutions/five.rs:29-46 | on such an almanac one stage of both `dest` definitions passes the same value to the next stage |
| SeedMaps.Push | src/solutions/five.rs:68 | `entry(key).or_default().push(r)` adds the key, appends `r` to its list and leaves every other list unchanged |
| SeedMaps.BuildMaps | src/solutions/five.rs:48-72 | the loop returns the maps of the line-by-line parse, or its first panic |
| SeedMaps.BuildFromCollects | src/solutions/five.rs:51-69 | after a successful parse, each key's list is its old list followed by the ranges of the data lines under that header, in input order |
| SeedMaps.BuildFromStep | src/solutions/five.rs:51 | a successful parse is a successful first line followed by a successful parse of the rest |
| SeedMaps.CollectsStep | src/solutions/five.rs:57-68 | one line moves its contribution from the pending lines into the maps |
| SeedMaps.CollectsHeader | src/solutions/five.rs:57-60 | a header line moves no range and hands the pending lines to its own header |
| SeedMaps.CollectsData | src/solutions/five.rs:62-68 | a data line moves its range, when filed under the key, from the pending lines into the maps |
| SeedMaps.PushLookup | src/solutions/five.rs:68 | after a push, a key's list has the range appended exactly when it is the pushed key |
| SeedMaps.MovedAcross | src/solutions/five.rs:57-68 | moving ranges from the front of the pending list to the end of the collected one keeps their order |
| SeedMaps.StepHeader | src/solutions/five.rs:57-60 | a header line sets the current key and pushes nothing |
| SeedMaps.StepData | src/solutions/five.rs:62-68 | a data line that parses is pushed under the current key |
| SeedMaps.UnderHeader | src/solutions/five.rs:57-60 | after a header line, later data lines are filed under that header |
| SeedMaps.UnderData | src/solutions/five.rs:62-68 | a data line contributes its range to the list of the current header only |
| SeedMaps.BuildFromKeys | src/solutions/five.rs:57-68 | every key a successful parse files ranges under is a stage name |
| SeedMaps.BuildMapsPreservesOrder | src/solutions/five.rs:48-72 | from the empty start each stage's list is exactly its data lines in order, and only stage names are keys |
| SeedMaps.HeaderSetsKey | src/solutions/five.rs:57-60 | after a header line the parse goes on from the same maps with that header as the current key |
| SeedMaps.BlankLinePanics | src/solutions/five.rs:52-62 | a blank line splits into one empty field, so the guard never fires and parsing it panics |
| SeedMaps.DataBeforeHeaderPanics | src/solutions/five.rs:68 | a well-formed data line before any header panics at `map_key.unwrap()` |
| CubeGame.ColorName | src/solutions/two.rs:57-61 | each colour word is non-empty and holds no digit |
| CubeGame.Eq | src/solutions/two.rs:20-26 | `eq` holds exactly when the two sets are the same |
| CubeGame.Cmp | src/solutions/two.rs:34-40 | `cmp` is `Less`, `Equal` or `Greater` exactly when the sets are below, equal or above in the (red, green, blue) lexicographic order |
| CubeGame.PartialCmp | src/solutions/two.rs:28-30 | `partial_cmp` is always `Some`, `Some(Equal)` exactly when the sets are equal and `Some(Less)` exactly when the first is lexicographically smaller |
| CubeGame.Lt | src/solutions/two.rs:28-32 | `<` through `partial_cmp` is the (red, green, blue) lexicographic order |
| CubeGame.Ge | src/solutions/two.rs:28-32 | `>=` through `partial_cmp` holds exactly when the first set is not lexicographically smaller |
| CubeGame.LtIsLexicographic | src/solutions/two.rs:28-32 | `<` through `partial_cmp` is the lexicographic order, `>=` its complement, and swapping the operands reverses `cmp` |
| CubeGame.RunEnd | src/solutions/two.rs:63 | the digit run from a position ends at the first non-digit |
| CubeGame.RunEndDigits | src/solutions/two.rs:63 | every character of the run is a digit |
| CubeGame.NoMatchInside | src/solutions/two.rs:65 | no other match starts inside a match, since the colour word holds no digit |
| CubeGame.MatchesPastSkip | src/solutions/two.rs:63-65 | a position holding no match adds no match to those after it |
| CubeGame.MatchesPastMatch | src/solutions/two.rs:63-65 | a match adds its own number and no match before its end |
| CubeGame.AmountsMember | src/solutions/two.rs:63-69 | the numbers of `find_iter` are exactly the numbers of the matches of `(\d+)\s<colour>` on the line |
| CubeGame.Max | src/solutions/two.rs:70 | `max` is one of the numbers and no number exceeds it |
| CubeGame.ExtractMaxForColor | src/solutions/two.rs:56-74 | no result exactly when nothing matched, which is where `expect` panics |
| CubeGame.AmountsAreMatches | src/solutions/two.rs:63-69 | from the line start, the scan's numbers are exactly the numbers of all matches |
| CubeGame.FitsIffAmountsFit | src/solutions/two.rs:69 | the scan's numbers fit an `i32` exactly when every match's number does, and the scan is empty exactly when the colour never matches |
| CubeGame.ExtractMaxIsLargest | src/solutions/two.rs:56-74 | no result exactly when the colour never occurs; otherwise the largest number drawn for the colour |
| CubeGame.BuildableIff | src/solutions/two.rs:42-47 | `build` does not panic exactly when every colour occurs and all its numbers fit an `i32` |
| CubeGame.Build | src/solutions/two.rs:42-54 | each count of the built set is one of the numbers `find_iter` yields for its colour, and no such number exceeds it |
| CubeGame.BuildIsMax | src/solutions/two.rs:42-54 | each count of the built set is the largest count of its colour on the line |
| CubeGame.SkipNoMatch | src/solutions/two.rs:65 | positions where no match starts contribute nothing to the scan |
| CubeGame.RunEndAt | src/solutions/two.rs:63 | a digit run stopped by a non-digit ends there |
| CubeGame.RunEndShift | src/solutions/two.rs:63 | a digit run ends at the same place behind any prefix |
| CubeGame.SliceShift | src/solutions/two.rs:66 | a slice is unchanged behind any prefix |
| CubeGame.TailShift | src/solutions/two.rs:63 | what follows a run is unchanged behind any prefix |
| CubeGame.StartShift | src/solutions/two.rs:63 | a run start is unchanged behind a prefix that ends in a non-digit |
| CubeGame.OccursAtShift | src/solutions/two.rs:63-65 | a match is unchanged behind a prefix that ends in a non-digit |
| CubeGame.AmountShift | src/solutions/two.rs:69 | the number of a match is unchanged behind any prefix |
| CubeGame.ShiftMatch | src/solutions/two.rs:65 | a match is taken behind such a prefix too, with the same number and end |
| CubeGame.ScanTakes | src/solutions/two.rs:63-65 | at a match the scan takes its number and resumes after the colour word |
| CubeGame.ScanSkips | src/solutions/two.rs:63-65 | where no match starts the scan moves on by one character |
| CubeGame.ShiftSkip | src/solutions/two.rs:65 | a non-match is skipped behind such a prefix too |
| CubeGame.AmountsShift | src/solutions/two.rs:63-69 | scanning a text behind a prefix that ends in a non-digit yields what scanning the text alone yields |
| CubeGame.Numeral | src/solutions/two.rs:117 | the numeral of a count is a non-empty digit string with that value |
| CubeGame.SeparatorText | src/solutions/two.rs:117 | the separators `,` and `;` hold no digit |
| CubeGame.DrawLayout | src/solutions/two.rs:117 | where the space, numeral, colour word and separator of one draw sit |
| CubeGame.DrawTail | src/solutions/two.rs:63-65 | past the first digit of its count, no match starts inside a draw |
| CubeGame.DrawStart | src/solutions/two.rs:63 | a draw opens with a space and its count's digit run |
| CubeGame.DrawHead | src/solutions/two.rs:63-65 | a draw's count is matched for its own colour and for no other |
| CubeGame.OwnColorHead | src/solutions/two.rs:63-65 | for its own colour, a draw's text opens with a match of its count |
| CubeGame.OtherColorHead | src/solutions/two.rs:63-65 | for another colour, a draw's count is no match |
| CubeGame.NameAt | src/solutions/two.rs:63 | a draw's colour word follows its count and one space |
| CubeGame.NoMatchInDraw | src/solutions/two.rs:63-65 | no match starts inside a draw past its count's first digit |
| CubeGame.DrawAmounts | src/solutions/two.rs:63-69 | a draw yields its count for its own colour and nothing for the others |
| CubeGame.DrawsAmounts | src/solutions/two.rs:63-69 | on a list of draws the scan yields exactly the counts of that colour, in order |
| CubeGame.HeadAmounts | src/solutions/two.rs:117 | the game number is never taken for a count, as a colon and not a space follows it |
| CubeGame.GameLineAmounts | src/solutions/two.rs:63-69 | on a game record the scan yields exactly the counts of the colour's draws |
| CubeGame.BuildGameLine | src/solutions/two.rs:42-54 | on a record where every colour is drawn, `build` takes each colour's largest count |
| CubeGame.CountsOfAppend | src/solutions/two.rs:117 | the counts of two stretches of draws are the counts of each in turn |
| CubeGame.HandfulCounts | src/solutions/two.rs:117 | the counts of each of the four handfuls of Game 5 |
| CubeGame.GameFiveCounts | src/solutions/two.rs:117 | Game 5 draws red 1, 2, 3, 3, blue 7, 1, 15 and green 9, 18, 9, 18 |
| CubeGame.BuildGameFive | src/solutions/two.rs:116-123 | Game 5 builds to red 3, blue 15 and green 18, whatever its game number |
| GameFive.SmallNumerals | src/solutions/two.rs:117 | the numerals of the counts of the test line |
| GameFive.DrawsTextAppend | src/solutions/two.rs:117 | the text of two stretches of draws is the text of each in turn |
| GameFive.TwoDrawsText | src/solutions/two.rs:117 | a handful of two draws reads as the two draws in turn |
| GameFive.ThreeDrawsText | src/solutions/two.rs:117 | a handful of three draws reads as the three draws in turn |
| GameFive.HandfulOneDraws | src/solutions/two.rs:117 | the texts of the draws `9 green,` and `1 red;` |
| GameFive.HandfulOneText | src/solutions/two.rs:117 | the first handful reads ` 9 green, 1 red;` |
| GameFive.HandfulTwoDraws | src/solutions/two.rs:117 | the texts of the draws `18 green,`, `2 red,` and `7 blue;` |
| GameFive.HandfulTwoText | src/solutions/two.rs:117 | the second handful reads ` 18 green, 2 red, 7 blue;` |
| GameFive.HandfulThreeDraws | src/solutions/two.rs:117 | the texts of the draws `1 blue,`, `9 green,` and `3 red;` |
| GameFive.HandfulThreeText | src/solutions/two.rs:117 | the third handful reads ` 1 blue, 9 green, 3 red;` |
| GameFive.HandfulFourDraws | src/solutions/two.rs:117 | the texts of the draws `3 red,`, `15 blue,` and `18 green` |
| GameFive.HandfulFourText | src/solutions/two.rs:117 | the fourth handful reads ` 3 red, 15 blue, 18 green` |
| GameFive.UpToFirstText | src/solutions/two.rs:117 | the line up to the end of its first handful |
| GameFive.UpToSecondText | src/solutions/two.rs:117 | the line up to the end of its second handful |
| GameFive.UpToThirdText | src/solutions/two.rs:117 | the line up to the end of its third handful |
| GameFive.UpToFourthText | src/solutions/two.rs:117 | the line up to the second draw of its fourth handful |
| GameFive.UpToLastText | src/solutions/two.rs:117 | the line ends with the last draw `18 green` |
| GameFive.FourthInTwoText | src/solutions/two.rs:117 | the fourth handful in two pieces |
| GameFive.RegroupFour | src/solutions/two.rs:117 | regrouping a header and four pieces of text |
| GameFive.GameFiveText | src/solutions/two.rs:117 | the structured Game 5 record is, character for character, the test's input string |
| GameFive.BuildCubeset | src/solutions/two.rs:116-123 | `build` on the test's string does not panic and gives 3 red, 18 green and 15 blue |
| CubeGame.CountBelow | src/solutions/two.rs:92-97 | the count over `n` sets is at most `n` |
| CubeGame.CountBelowCap | src/solutions/two.rs:90-97 | the loop's result is the number of lines whose built set is below the global cap |
| CubeGame.CountedNext | src/solutions/two.rs:93-96 | one more line adds one to the count exactly when its set is below the cap |
| CubeGame.CountedLines | src/solutions/two.rs:92-97 | the recursive count over the built sets is the number of lines whose set is below the cap |
| CubeGame.BelowCapOfLines | src/solutions/two.rs:92-97 | the positions counted are exactly the lines whose own built set is below the cap |
| CubeGame.CountBelowIsCardinality | src/solutions/two.rs:92-97 | the count is the number of positions whose set is below the cap |
| CubeGame.CountBelowAll | src/solutions/two.rs:92-97 | the count equals the number of lines exactly when every set is below the cap |
| CubeGame.CountBelowNone | src/solutions/two.rs:92-97 | the count is zero exactly when no set is below the cap |
| CubeGame.CountedIff | src/solutions/two.rs:90-94 | a set counts exactly when it has fewer than 12 red, or 12 red and fewer than 13 green, or 12 red, 13 green and fewer than 14 blue |
| CubeGame.NotComponentwise | src/solutions/two.rs:90-94 | (11, b1000, g1000) counts and (13, b0, g0) does not |
| CubeGame.LargerThanCap | src/solutions/two.rs:126-140 | the test cap (12, b13, g14) is below (16, b9, g17) |
| CubeGame.SmallerThanCap | src/solutions/two.rs:143-157 | the test cap is `>=` (10, b9, g11) |
| CubeGame.EqualToCap | src/solutions/two.rs:160-174 | the test cap is `>=` (12, b9, g14) |
| PossibleGames.CapOrderIsNotPerColour | src/solutions/two.rs:90-94 | a set with far more blue and green than the cap counts though it does not fit, and the cap itself fits but is not counted |
| PossibleGames.CountWithin | src/solutions/two.rs:92-97 | corrected count: the number of the first `n` sets that fit colour by colour is at most `n` |
| PossibleGames.CountWithinAll | src/solutions/two.rs:92-97 | the corrected count equals the number of lines exactly when every set fits colour by colour |
| PossibleGames.WithinCapIsNotAbove | src/solutions/two.rs:94 | a set that fits colour by colour is below the cap in the order, or is the cap |
| PossibleGames.CountWithinAtMostCountBelow | src/solutions/two.rs:92-97 | where no line is exactly the cap, the corrected count is at most the count as written |

## Left out

- File reading, `env::args`, `process::exit`, `println!` and `eprintln!` are not modelled. This covers `extract_contents`, the argument and file handling of `calculate_val`, and every `main`. Input arrives as a sequence of lines, standing in for `data.lines()`.
- `src/lib.rs` `run_day` is not modelled; it only dispatches on the day number.
- The `main` of `src/solutions/five.rs` is not modelled; it is a placeholder.
- The regular-expression engine is not modelled. The scan of `extract_max_for_color` is written out directly: a digit run, then one `\s` character (Unicode White_Space), then the colour word.
- CubeGame.AmountsMember: `\d` is taken as the ASCII digits only, while the regex crate's `\d` also matches other Unicode decimal digits.
- ScratchCards.GetIdxOfColAndBar: strings are sequences of characters, and the positions it returns are character offsets where the source returns byte offsets. They agree on ASCII lines only. The slices of `run` are valid on any UTF-8 line in the source, because `:` and `|` are one byte each, and they take the same text in the model, so only the index values differ on lines with other characters.
- Schematic.GetNeighbors: coordinates are unbounded integers, so the `i32` wrap-around of `coord + offset` near `i32::MAX` is not modelled.
- Schematic.IsTargetPart: requires a first row no wider than any other row (`WideRows`). The non-empty grid is what `graph[0]` needs, but the width condition is stronger than the source needs: the `filter`/`map`/`any` chain is lazy and only indexes the neighbour cells in the rows next to the part, up to the first symbol, so the source panics only when it reaches such a cell in a row narrower than the first. The `as i32` and `as usize` casts are taken as exact.
- ScratchCards.GetResult: requires at most 31 matches, because `i32::pow` panics on overflow from 32 matches on (31 matches give `2.pow(30)`, which fits, 32 give `2.pow(31)`, which does not); the `u32` counter `exp` is taken as unbounded.
- ScratchCards.Run: requires every line it reaches to have its last `:` before its last `|` (the slice panics otherwise) and at most 31 matches. The `i32` running sum is unbounded, so its overflow is not modelled.
- SeedMaps.StageValue: requires every range of a stage to fit (`src + dest` and `dest + (dest - 1)` within `u32`). This is stronger than the source needs, since the source overflows only for ranges a value actually reaches with `src >= range.src`.
- SeedMaps.Dest: requires every stage from `map_idx` on to be present, because `maps.get(..).unwrap()` panics otherwise.
- SeedMaps.BuildMaps: a panic is an `Err(Panic)` outcome, not an abort. The almanac's first line (`seeds: …`) is such a panic, because `seeds:` does not parse as a number; the model does not special-case it and neither does the source.
- CubeGame.ExtractMaxForColor: requires every matched number to fit an `i32`, because `parse().unwrap()` panics otherwise. The panic of `expect` on no match is a `None` result.
- CubeGame.CountBelowCap: requires every line to build, because `build` panics otherwise. The `i32` counter `res` is unbounded.
- Schematic.NeighborsExample: the unit test at `src/solutions/three.rs:92-93` compares the `()` results of two `sort` calls, so it asserts nothing. The model proves instead that the result is the listed cells, both in push order and as a set.

## Findings

| source | as written | input that shows it | evidently intended | confidence | as-written member | corrected member |
|---|---|---|---|---|---|---|
| src/solutions/five.rs:39 | a value is covered when `src <= v < src + dest`, so the span's length is taken from the destination start and the `range` field is never read | the range `50 98 2` with seed 100: 100 lies in `98..148`, so it is remapped to 52, while the range describes only the seeds 98 and 99 | `src <= v < src + range`, so that 100 passes through unchanged | high, not executed | SeedMaps.SpanTakenFromDest | SeedMaps.IntendedStageValue |
| src/solutions/two.rs:94 | a game counts when its cube set is strictly below the cap in the (red, green, blue) lexicographic order | (11 red, 1000 green, 1000 blue) counts; the cap itself (12 red, 13 green, 14 blue) does not | a game counts when no colour exceeds the cap's count of it | medium, not executed | PossibleGames.CapOrderIsNotPerColour | PossibleGames.CountWithin |

The model of `dest` and `calculate_val` follows the code as written, so
`Dest`, `ApplyStage` and `CountBelowCap` compute what the Rust code computes.
The corrected definitions stand beside them and are tied back to the code:

- `IntendedDestValue` chains `IntendedStageValue` through the seven stages.
- `DestAgreesWhenDestIsRange` shows that it agrees with `dest` on almanacs
  whose ranges are as long as their destination start.
- `WithinCapIsNotAbove` and `CountWithinAtMostCountBelow` relate the corrected
  count to the count as written.
