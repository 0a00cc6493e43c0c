# Garden planner, modelled in Dafny

The garden planner costs a layout of rectangular garden beds. Each bed has
walls around it (priced per metre of perimeter) and is filled with soil to a
fixed depth of 0.2 m (priced per cubic metre). A `GardenPlanner` holds:

- the two prices, fixed when it is made;
- the live list of beds, which clients change freely;
- two cached totals, the wall length and the bed area, which only
  `recalculateTotals` updates.

`getTotalCost` prices the cached totals. After the beds change, the cost
therefore stays stale until the totals are recalculated.

Beds can be read from a design file, one line at a time, for as long as the
`Scanner` still finds a token (a character that is not Java whitespace) in
the rest of the file:

- each line is trimmed;
- a blank line or a line starting with `#` is skipped;
- a line of exactly three space-separated words whose first word is
  `rectangle` in any case, and whose other two words are numbers, adds a bed
  with that width and height;
- in such a line, a dimension that is not a number stops the read with
  `BadNumber`, the width being checked first;
- any other line stops the read with the message
  `ERROR: illegal garden bed: ` followed by the trimmed line.

The modules:

- `Rectangles` (rectangle.dfy): the bed, with its area, its perimeter and
  its text form.
- `Text` (text.dfy): Java's `trim`, `split(" +")` and `toLowerCase` on
  strings, and the joining of words with runs of spaces.
- `Numbers` (numbers.dfy): `Double.parseDouble` as trimming followed by a
  decimal number parser, and a plain decimal formatter whose output the
  parser reads back.
- `DesignFile` (design_file.dfy): what `readBeds` does with one line
  (`ParseLine`), with the lines it visits (`ReadAll`), and with a whole
  design (`ReadDesign`, which first finds where `hasNext` stops the loop),
  together with the properties of all three.
- `GardenPlanning` (planner.dfy): the sums, the cost formula, and the class
  `GardenPlanner`. Its methods update its fields in place.
- `Wrappers` (wrappers.dfy): the `Option` type.

Java exceptions become values. `ReadBeds` returns `Some(failure)` where
`readBeds` throws:

- `IllegalBed(message)` for a malformed line;
- `BadNumber(word)` where `Double.parseDouble` would throw
  `NumberFormatException`.

In both cases the beds read before the bad line stay in the list, as they do
in the Java code.

The model follows the code in these places:

- A line is split on runs of spaces only (`split(" +")`), not on all
  whitespace. A tab inside a line stays inside a word. A dimension word with
  a tab at either end is still read, because `Double.parseDouble` trims its
  argument, so "rectangle 3\t 4" adds a 3 by 4 bed. A tab in the middle of a
  word, or one that glues two words together, makes the line wrong.
- The loop runs while `hasNext` finds a token, and `Scanner` takes Java
  whitespace as its delimiter, which includes characters above U+0020 that
  `trim` keeps, such as the ideographic space U+3000. Trailing lines made
  only of whitespace are never visited (taking the lines as given, see
  "Left out"). A last line holding only U+3000 is
  therefore not read at all, although on its own it would be rejected.
- Bed dimensions are not validated. Zero and negative widths and heights are
  accepted, and the properties that need non-negative sides say so.

## Model

| member | source | states |
|---|---|---|
| Rectangles.Rectangle.Area | src/garden_planner/model/Rectangle.java:20-22 | the area is non-negative for non-negative sides, positive for positive sides, and zero when either side is zero |
| Rectangles.Rectangle.Perimeter | src/garden_planner/model/Rectangle.java:29-31 | the perimeter is non-negative for non-negative sides, positive when they are non-negative and one is positive, and zero exactly when width is minus height |
| Rectangles.Rectangle.ToString | src/garden_planner/model/Rectangle.java:34-36 | when both numbers print as single words, the text splits into exactly the three words "Rectangle", width and height, and trimming leaves it unchanged |
| Rectangles.RotationKeepsMeasures | src/garden_planner/model/Rectangle.java:20-31 | an extra fact about the formulas, not promised by the source: swapping width and height changes neither area nor perimeter |
| Rectangles.PerimeterBoundsArea | src/garden_planner/model/Rectangle.java:20-31 | an extra fact about the formulas, not promised by the source: the squared perimeter is at least 16 times the area, with equality for a square |
| Text.TrimStartFacts | src/garden_planner/model/GardenPlanner.java:78 | cutting the leading trimmable characters leaves a suffix of the input, the part cut off is blank, and the rest does not start with a trimmable character |
| Text.TrimEndFacts | src/garden_planner/model/GardenPlanner.java:78 | cutting the trailing trimmable characters leaves a prefix of the input, the part cut off is blank, and the rest does not end with a trimmable character |
| Text.TrimFacts | src/garden_planner/model/GardenPlanner.java:78 | the trimmed line is empty exactly when the line is blank; otherwise it starts and ends with a non-trimmable character; it is a slice of the line with only blank text cut off on either side |
| Text.TrimKeeps | src/garden_planner/model/GardenPlanner.java:78 | a string that neither starts nor ends with a trimmable character is its own trim |
| Text.Trim | src/garden_planner/model/GardenPlanner.java:78 | Java's `String.trim`: the characters up to U+0020 are cut off both ends; what that leaves is stated by TrimFacts and TrimKeeps |
| Text.Split | src/garden_planner/model/GardenPlanner.java:79 | Java's `split(" +")`: the whole string when it holds no space, otherwise the pieces between maximal runs of spaces without the empty pieces at the end; SplitJoinWith states that it undoes joining pieces with runs of spaces |
| Text.Lower | src/garden_planner/model/GardenPlanner.java:83 | `toLowerCase` character by character, ASCII capitals to small letters, everything else kept |
| Text.JoinWithFacts | src/garden_planner/model/GardenPlanner.java:79 | pieces separated by runs of spaces give a line that starts with the first piece's first character, ends with the last piece's last character, and holds a space exactly when there are at least two pieces |
| Text.PiecesOfJoinWith | src/garden_planner/model/GardenPlanner.java:79 | the pieces between the runs of spaces of such a line are the pieces it was made from, whatever the runs' lengths |
| Text.SplitJoinWith | src/garden_planner/model/GardenPlanner.java:79 | splitting on " +" pieces separated by runs of spaces of any length gives the pieces back, in order |
| Text.SplitJoin | src/garden_planner/model/GardenPlanner.java:79 | splitting words joined by single spaces on " +" gives the words back, in order |
| Numbers.ParseNumber | src/garden_planner/model/GardenPlanner.java:84 | the decimal grammar `Double.parseDouble` reads after trimming: an optional sign, then digits with at most one point and at least one digit; DecimalRoundTrip and ParsedIsWord state what it accepts and the value it gives |
| Numbers.ParseDouble | src/garden_planner/model/GardenPlanner.java:84 | `Double.parseDouble`: the word is trimmed, then read as a decimal number |
| Numbers.ParsedUnsigned | src/garden_planner/model/GardenPlanner.java:84 | an accepted unsigned number is non-empty, made only of digits and points, and has a non-negative value |
| Numbers.ParsedIsWord | src/garden_planner/model/GardenPlanner.java:84 | the text the number grammar accepts once trimming is done is a single word, with no space or control character |
| Numbers.ParsedDoubleIsPaddedWord | src/garden_planner/model/GardenPlanner.java:84 | an argument `Double.parseDouble` accepts is a number word with only trimmable characters on either side of it |
| Numbers.ParseDoubleOfWord | src/garden_planner/model/GardenPlanner.java:84 | on a word without trimmable ends, `Double.parseDouble` reads exactly what the number grammar reads |
| Numbers.DecimalRoundTrip | src/garden_planner/model/GardenPlanner.java:84 | parsing a decimal written in plain notation gives its exact value back, for either sign |
| DesignFile.ParseLine | src/garden_planner/model/GardenPlanner.java:78-87 | one line: trimmed and split, then skipped, added as a bed, or failed with IllegalBed or with BadNumber for the first dimension that does not parse; SkipsExactlyIgnorable, AddsExactlyBedLines, RejectsOtherLines and RejectsBadNumber state each outcome |
| DesignFile.ReadAll | src/garden_planner/model/GardenPlanner.java:77-88 | the loop over the lines it visits: each line's outcome in order, beds collected, stopping at the first failure; ReadFirst, ReadAllAppend and StopsAtFirstFailure state how |
| DesignFile.ReadDesign | src/garden_planner/model/GardenPlanner.java:76-89 | a whole design: the lines up to where `hasNext` stops the loop, read with ReadAll |
| DesignFile.IsJavaWhitespace | src/garden_planner/model/GardenPlanner.java:77 | Java's `Character.isWhitespace`, the delimiter `hasNext` skips: tab to carriage return, U+001C to U+001F, the space, and the Unicode space, line and paragraph separators except the no-break spaces; HasNextIff and IdeographicSpaceLine use it |
| DesignFile.HasNext | src/garden_planner/model/GardenPlanner.java:77 | `in.hasNext()` after some lines are read: a later line holds a non-whitespace character; HasNextIff states exactly when it holds |
| DesignFile.ScanEnd | src/garden_planner/model/GardenPlanner.java:77 | the number of lines the loop visits, never more than the design has; ScanEndFacts states that these are the lines up to the last one holding a token |
| DesignFile.IgnorableDesignReadsNothing | src/garden_planner/model/GardenPlanner.java:77-82 | a whole design of blank and comment lines yields no bed and no failure |
| DesignFile.ScanEndFacts | src/garden_planner/model/GardenPlanner.java:77 | the loop visits every line up to the last one holding a token and none after it |
| DesignFile.HasNextIff | src/garden_planner/model/GardenPlanner.java:77 | `hasNext` holds before a line exactly when that line is one the loop visits |
| DesignFile.TrailingBlankLinesIgnored | src/garden_planner/model/GardenPlanner.java:77-82 | when every line holds a token or is blank once trimmed, reading the design reads all of its lines |
| DesignFile.IdeographicSpaceLine | src/garden_planner/model/GardenPlanner.java:77-86 | a design whose only line is an ideographic space reads as empty, although that line on its own would be rejected |
| DesignFile.SkipsExactlyIgnorable | src/garden_planner/model/GardenPlanner.java:78-82 | a line is skipped if and only if its trimmed form is empty or starts with '#' |
| DesignFile.AddsExactlyBedLines | src/garden_planner/model/GardenPlanner.java:78-84 | a line adds a given bed if and only if it is not skipped, it is three words with the keyword first in any case, and the two other words, trimmed by `Double.parseDouble`, parse to that bed's width and height |
| DesignFile.RejectsOtherLines | src/garden_planner/model/GardenPlanner.java:85-86 | a line that is neither skipped nor of the bed shape fails with "ERROR: illegal garden bed: " plus the trimmed line |
| DesignFile.ParseDimensions | src/garden_planner/model/GardenPlanner.java:84 | the two `Double.parseDouble` calls, width before height, each failing with BadNumber naming its word; RejectsBadNumber and BedLine state the outcomes |
| DesignFile.RejectsBadNumber | src/garden_planner/model/GardenPlanner.java:83-84 | a line of the bed shape whose width does not parse fails with BadNumber naming the width, whatever the height; if the width parses and the height does not, it fails naming the height |
| DesignFile.ReadFirst | src/garden_planner/model/GardenPlanner.java:77-88 | reading a design handles its first line and then, unless that line failed, the lines after it |
| DesignFile.ReadAllAppend | src/garden_planner/model/GardenPlanner.java:77-88 | reading two designs one after the other reads the second only if the first did not fail, and the beds of both follow one another |
| DesignFile.IgnorableLinesReadNothing | src/garden_planner/model/GardenPlanner.java:81-82 | a design of blank and comment lines yields no bed and no failure |
| DesignFile.StopsAtFirstFailure | src/garden_planner/model/GardenPlanner.java:86 | the read stops at the first failing line: its failure is reported, and the beds read are exactly those of the lines before it |
| DesignFile.NoFailureMeansNoFailingLine | src/garden_planner/model/GardenPlanner.java:77-88 | a read that reports no failure met no failing line |
| DesignFile.AtMostOneBedPerLine | src/garden_planner/model/GardenPlanner.java:83-84 | a design never yields more beds than it has lines |
| DesignFile.LineOfPieces | src/garden_planner/model/GardenPlanner.java:78-83 | a line of pieces separated by runs of spaces, with no trimmable character at its ends and no '#' at its start, is judged on those pieces alone |
| DesignFile.JoinedLine | src/garden_planner/model/GardenPlanner.java:78-83 | a line of words joined by single spaces that does not start with '#' is judged on those words alone |
| DesignFile.KeywordWords | src/garden_planner/model/GardenPlanner.java:83-84 | three words whose first is the keyword in any case: the line is decided by its two dimension words |
| DesignFile.KeywordCaseIgnored | src/garden_planner/model/GardenPlanner.java:83 | a line reads the same whatever the case of its keyword |
| DesignFile.NotBedLine | src/garden_planner/model/GardenPlanner.java:83-86 | joined words that are not three words led by the keyword fail, naming the line |
| DesignFile.WrongKeywordLine | src/garden_planner/model/GardenPlanner.java:83-86 | three words whose first is not the keyword fail, naming the line |
| DesignFile.TwoWordLine | src/garden_planner/model/GardenPlanner.java:83-86 | a line of two words is too short for a bed and fails, naming the line |
| DesignFile.BedLine | src/garden_planner/model/GardenPlanner.java:83-84 | the keyword in any case followed by two numbers adds one bed of exactly those dimensions |
| DesignFile.BedLineWithGaps | src/garden_planner/model/GardenPlanner.java:78-84 | the keyword and two numbers separated by runs of spaces of any length add one bed of those dimensions, even when a dimension carries trimmable characters that `Double.parseDouble` trims off |
| DesignFile.ReadsWideGaps | src/garden_planner/model/GardenPlanner.java:79-84 | "rectangle  3   4" reads like "rectangle 3 4": one 3 by 4 bed |
| DesignFile.ReadsTabAfterWidth | src/garden_planner/model/GardenPlanner.java:79-84 | "rectangle 3\t 4" adds a 3 by 4 bed, the tab being trimmed off the width |
| DesignFile.RejectsSquare | src/garden_planner/model/GardenPlanner.java:85-86 | "square 3 4" fails with "ERROR: illegal garden bed: square 3 4" |
| DesignFile.RejectsShortLine | src/garden_planner/model/GardenPlanner.java:85-86 | "rectangle 3" fails with "ERROR: illegal garden bed: rectangle 3" |
| DesignFile.RejectsBadHeight | src/garden_planner/model/GardenPlanner.java:84 | "rectangle 3 x" fails with BadNumber("x") |
| DesignFile.RejectsBadWidthFirst | src/garden_planner/model/GardenPlanner.java:84 | "rectangle y x" fails with BadNumber("y"): the width is read first |
| DesignFile.ReadsCapitalKeyword | src/garden_planner/model/GardenPlanner.java:83-84 | "RECTANGLE 3 4" and "rectangle 3 4" both add the same 3 by 4 bed |
| DesignFile.BedTextReadsBack | src/garden_planner/model/GardenPlanner.java:78-84 | a bed's text form reads back as that bed, given a number formatter whose output parses back to the same value |
| DesignFile.DesignTextScanned | src/garden_planner/model/GardenPlanner.java:77 | every line of a written-out design starts with the keyword, so the loop visits all of them |
| DesignFile.DesignTextReadsBack | src/garden_planner/model/GardenPlanner.java:76-89 | writing beds out one per line and reading the text back gives the same beds in the same order, with no failure |
| DesignFile.DecimalBedReadsBack | src/garden_planner/model/Rectangle.java:34-36 | a bed whose sides are written with the plain decimal formatter reads back as itself |
| GardenPlanning.TotalArea | src/garden_planner/model/GardenPlanner.java:99-100 | the true garden area: the sum of the beds' areas; TotalsNonNegative, SumOfPermutation and AddingBedChangesTotals state its properties |
| GardenPlanning.TotalWall | src/garden_planner/model/GardenPlanner.java:99-101 | the true wall length: the sum of the beds' perimeters, with the same properties as the area |
| GardenPlanning.Cost | src/garden_planner/model/GardenPlanner.java:110-118 | the price of a wall length and an area: wall times wall price plus area times 0.2 m times soil price; CostSplits and CostIsSumOfBedCosts show that it is additive over beds |
| GardenPlanning.SumOfAppend | src/garden_planner/model/GardenPlanner.java:99-102 | summing over two lists in turn is summing over each and adding |
| GardenPlanning.SumOfPermutation | src/garden_planner/model/GardenPlanner.java:99-102 | any rearrangement of the beds has the same sum, so the order of the beds does not affect the totals |
| GardenPlanning.SumOfRemove | src/garden_planner/model/GardenPlanner.java:99-102 | removing the bed at an index takes exactly that bed's value off the sum |
| GardenPlanning.SumOfNonNegative | src/garden_planner/model/GardenPlanner.java:99-102 | a sum of non-negative values is non-negative |
| GardenPlanning.TotalsNonNegative | src/garden_planner/model/GardenPlanner.java:99-102 | beds with non-negative sides have a non-negative total area and wall length |
| GardenPlanning.AddingBedChangesTotals | src/garden_planner/model/GardenPlanner.java:99-102 | appending a bed adds exactly its area and its perimeter to the totals |
| GardenPlanning.AddingBedMakesTotalsStale | src/garden_planner/model/GardenPlanner.java:94 | totals taken before a bed with non-zero area or wall was appended no longer equal the true totals |
| GardenPlanning.CostIsSumOfBedCosts | src/garden_planner/model/GardenPlanner.java:110-118 | the cost of the summed totals equals the sum of the costs of the beds taken one by one |
| GardenPlanning.CostSplits | src/garden_planner/model/GardenPlanner.java:110-118 | adding one bed's wall and area to the totals adds exactly that bed's cost |
| GardenPlanning.ExampleDesign | src/garden_planner/model/GardenPlanner.java:96-118 | beds of 2 by 1, 2 by 2 and 2 by 1 have area 8 and wall 20, and at prices 17 and 81 they cost 469.6 |
| GardenPlanning.GardenPlanner.constructor | src/garden_planner/model/GardenPlanner.java:33-36 | the prices are the arguments; the planner has no beds and both totals are zero, so the totals are current |
| GardenPlanning.GardenPlanner.GetBeds | src/garden_planner/model/GardenPlanner.java:47-49 | the live bed list; while the totals are current, its sums are the cached totals |
| GardenPlanning.GardenPlanner.GetTotalWallLength | src/garden_planner/model/GardenPlanner.java:56-58 | the cached wall length, which is the true total while the totals are current |
| GardenPlanning.GardenPlanner.GetTotalGardenArea | src/garden_planner/model/GardenPlanner.java:65-67 | the cached area, which is the true total while the totals are current |
| GardenPlanning.GardenPlanner.GetTotalCost | src/garden_planner/model/GardenPlanner.java:110-118 | reads only the cached totals and the prices; the cost is non-negative when they are, and zero when both totals are zero |
| GardenPlanning.GardenPlanner.AddBed | src/garden_planner/model/GardenPlanner.java:41-49 | a client appends a bed to the live list; totals and prices are untouched |
| GardenPlanning.GardenPlanner.RemoveBedAt | src/garden_planner/model/GardenPlanner.java:41-49 | a client removes the bed at an index and gets it back, or nothing changes when the index is out of range; totals are untouched |
| GardenPlanning.GardenPlanner.ReadBeds | src/garden_planner/model/GardenPlanner.java:76-89 | while `hasNext` finds a token, lines are read; the beds of the design are appended in order up to the first bad line, the failure reported is that of the whole design, and the totals are untouched |
| GardenPlanning.GardenPlanner.RecalculateTotals | src/garden_planner/model/GardenPlanner.java:96-103 | afterwards the totals are the sums of area and perimeter over the current beds, whatever they were before, and the beds are unchanged |
| GardenPlanning.CurrentCostIsSumOfBedCosts | src/garden_planner/model/GardenPlanner.java:110-118 | while the totals are current, the planner's cost is the sum of the costs of its beds |

## Left out

- The text user interface and the graphical front end, and the reading and
  printing they do, are not part of this model.
- Java `double` arithmetic is modelled with exact `real` numbers: rounding,
  overflow, infinities and NaN are not modelled.
- `Double.parseDouble` is modelled as trimming followed by the plain decimal
  grammar: an optional sign, digits, an optional point and digits, with at
  least one digit. It leaves out exponents, `NaN`, `Infinity`, hexadecimal
  forms and the `d`/`f` suffixes.
- `Double.toString` is not modelled; `Rectangle.ToString` takes the number
  formatter as a parameter. The read-back properties therefore assume a
  formatter whose output parses back to the same value. The plain decimal
  formatter `FormatDecimal` works on `Decimal` values, not on `real`, and
  meets this on them (`DecimalRoundTrip`); `DecimalBedReadsBack` uses a
  formatter that handles just the bed's two values.
- The `Scanner` is modelled as the sequence of lines it returns. How it cuts
  the input into lines is not modelled, and the model looks only at line
  contents. In particular, U+0085 ends a line for `nextLine` but is not
  whitespace, so for `hasNext` such a line terminator is a token and keeps
  the line before it visited. `hasNext` is modelled as the test
  whether a later line holds a character that is not Java whitespace. Java
  whitespace follows `Character.isWhitespace` of current Java versions, in
  which U+180E is not whitespace.
- `String.toLowerCase` is modelled on ASCII letters only. No other character
  lower-cases to a letter of "rectangle", so the keyword test gives the same
  answer.
- Exceptions are results. The failure carries the message or the bad word,
  not the exception object.
- New beds in the Java code come from the client mutating the list that
  `getBeds` returns; here they come from the methods `AddBed` and
  `RemoveBedAt`. Aliasing of that list by other holders is not modelled.
- PerimeterBoundsArea: states that a square attains the bound, not the
  converse that only a square does.
- The constant `GARDEN_PLANNER_VERSION` is declared but nothing is proved
  about it.
