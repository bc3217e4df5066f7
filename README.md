# NormalizerImpl in Dafny

A model of `NormalizerImpl`, the CSV normaliser of the ProgressSoft interview
task. The normaliser reads a CSV file, finds a named column, and computes the
column's statistics: sum, integer mean, min, max, median, population variance
and standard deviation. It then writes every line back with one more column
holding the value rescaled either by min-max scaling or by z-score, at two
decimal places with HALF_EVEN rounding. The summary of the column is
returned.

The model is split by the source's own structure:

| file | module | models |
|---|---|---|
| `exceptions.dfy` | `Exceptions` | the Java exceptions the code can throw, as a `Result` |
| `decimals.dfy` | `Decimals` | `BigDecimal` values as exact `real`s, HALF_EVEN rounding, `setScale` and `divide` at scales 0 and 2 |
| `decimal_text.dfy` | `DecimalText` | `new BigDecimal(String)` as a character scanner, and `BigDecimal.toString()` of two-place values |
| `normalizer.dfy` | `Normalizer` | `convertToRequiredScale`, `normalizeMinMax`, `normalizeZScore` |
| `big_decimal_utils.dfy` | `BigDecimalUtils` | the statistics of `BigDecimalUtils`; `sum`, `median` (an in-place sort of an array) and `populationVariance` as methods with loops |
| `scoring.dfy` | `Scoring` | the `ScoringSummary` that `getScoringSummary` returns |
| `csv.dfy` | `Csv` | `String.split(",")` with Java's rules, `String.join`, `List.indexOf`, `appendToTheNextOfSpecifiedCol`, the parsing of one field |
| `csv_task.dfy` | `CsvTasks` | `CSVTask`: a class whose methods update the reader, the writer, `outputList` and `colToNormalizeIndex` |

Every `BigDecimal` is the exact rational it denotes. `MATH_CTX` has
precision 0, which `java.math` reads as unlimited precision. So the squares
in the variance and the halving in the median are exact, and the only
roundings are these:
- the scale-0 divisions of the mean and the variance;
- the scale-2 divisions of the two formulas;
- the final `setScale(2, HALF_EVEN)`.

An exception becomes `Thrown(e)` and a normal return becomes `Ok(v)`. The
exceptions are:
- `ArithmeticException` for a division by zero;
- `NoSuchElementException` from `TreeSet.first()` or `last()`;
- `IndexOutOfBoundsException` from `List.get(-1)`, `ArrayList.add` or an array index;
- `NumberFormatException` from `new BigDecimal(String)` and from `BigDecimal.valueOf(Double.NaN)`;
- `NullPointerException` when `readLine()` returns null for the header;
- `IllegalArgumentException` for a missing column.

The input file is the list of its lines (`CSVTask.reader`), which the reader
hands out one at a time. The output is the text handed to the writer
(`CSVTask.written`). The platform line separator is the constant
`lineSeparator`. `Math.sqrt` applied to `doubleValue()`, read back with
`BigDecimal.valueOf`, is the parameter `fpSqrt: real -> real`. The one
exception on that path is modelled exactly: a variance of at least
2^1024 - 2^970 becomes Infinity in `doubleValue()`, and `BigDecimal.valueOf`
rejects its square root with `NumberFormatException`.

Behaviour of the code that the model makes explicit:
- The min-max loop uses `summary.min()` and `summary.max()`, which are already
  rounded to two places. A minimum with more than two decimals can therefore
  map below zero: in `[0.015, 1]` the value 0.015 becomes -0.01
  (`CsvTasks.MinimumCanMapBelowZero`).
- Values that differ but agree to two places leave the rounded min equal to
  the rounded max, and the run divides by zero (`CsvTasks.CloseValuesMinMaxFails`).
- A file with a single data line fails under both formulas with
  `ArithmeticException`:
  - min-max, because min == max;
  - z-score, because the standard deviation of one value is 0.
- A header-only file succeeds: the loop never runs, so no accessor is called.
- The mean and the variance are divided at scale 0, so the values 10, 20, 30
  have mean 20 and variance 67 rather than 66.67
  (`Scoring.SummaryOfTenTwentyThirty`). The integer mean can also fall below
  the minimum (`BigDecimalUtils.MeanCanFallBelowMinimum`).
- The z-score run throws `NumberFormatException` on a non-empty column whose
  variance is beyond the double range, such as 10^200 and -10^200
  (`CsvTasks.ZScoreOverflowFails`).
- `split(",")` drops trailing empty fields, so `"1,2,,"` with a column
  inserted after column 0 becomes `"1,x,2"`.
- The header is handed to the writer before the data lines are parsed. When a
  later step throws, the output is never flushed or closed, so the header
  reaches the writer but the file may stay empty.

## Model

Four helpers have no row, because they only name an expression that the
rows below use:
- `CsvTasks.CSVTask.NewHeader` is the header with the new column name inserted (NormalizerImpl.java:243).
- `CsvTasks.NormalizedLine` is a data line with its value's text inserted, plus the line separator except after the last line (NormalizerImpl.java:192-194).
- `CsvTasks.Concat` is the text of the output lines in order (NormalizerImpl.java:279-281).
- `BigDecimalUtils.SquaredDistance` is (x - mean)^2 (NormalizerImpl.java:395-396).

| member | source | states |
|---|---|---|
| `Decimals.RoundHalfEven` | src/main/java/com/progressoft/tools/NormalizerImpl.java:15 | the result is the integer nearest to y, the even one when y lies halfway |
| `Decimals.HalfEvenRoundingUnique` | src/main/java/com/progressoft/tools/NormalizerImpl.java:15 | HALF_EVEN rounding has exactly one result |
| `Decimals.RoundHalfEvenOfInteger` | src/main/java/com/progressoft/tools/NormalizerImpl.java:15 | an integer rounds to itself |
| `Decimals.RoundHalfEvenMonotonic` | src/main/java/com/progressoft/tools/NormalizerImpl.java:15 | rounding preserves order |
| `Decimals.RoundHalfEvenNegate` | src/main/java/com/progressoft/tools/NormalizerImpl.java:15 | HALF_EVEN is symmetric: rounding -y gives minus the rounding of y |
| `Decimals.SetScale0` | src/main/java/com/progressoft/tools/NormalizerImpl.java:336 | the scale-0 result is an integer, the half-even rounding of x |
| `Decimals.SetScale2` | src/main/java/com/progressoft/tools/NormalizerImpl.java:60 | the scale-2 result has two places, and its unscaled value is the half-even rounding of 100 x |
| `Decimals.DivideToScale0` | src/main/java/com/progressoft/tools/NormalizerImpl.java:336 | `divide(d, 0, HALF_EVEN)` throws ArithmeticException exactly when d is 0; otherwise it gives the scale-0 rounding of the exact quotient |
| `Decimals.DivideToScale2` | src/main/java/com/progressoft/tools/NormalizerImpl.java:77 | `divide(d, 2, HALF_EVEN)` throws exactly when d is 0; otherwise it gives the scale-2 rounding of the exact quotient |
| `Decimals.SetScale2Unique` | src/main/java/com/progressoft/tools/NormalizerImpl.java:60 | a two-place value whose unscaled value rounds 100 x is the rescale of x |
| `Decimals.SetScale2OfScaled` | src/main/java/com/progressoft/tools/NormalizerImpl.java:60 | rescaling a value that already has two places changes nothing |
| `Decimals.SetScale2Idempotent` | src/main/java/com/progressoft/tools/NormalizerImpl.java:79 | rescaling twice is rescaling once |
| `Decimals.SetScale2Monotonic` | src/main/java/com/progressoft/tools/NormalizerImpl.java:60 | rescaling to two places preserves order |
| `Decimals.SetScale2OfInteger` | src/main/java/com/progressoft/tools/NormalizerImpl.java:60 | an integer is unchanged by rescaling |
| `Decimals.SetScale0Monotonic` | src/main/java/com/progressoft/tools/NormalizerImpl.java:336 | rounding to scale 0 preserves order |
| `DecimalText.ToString` | src/main/java/com/progressoft/tools/NormalizerImpl.java:192 | the text of a two-place value is non-empty and has no comma, so it is one CSV field |
| `DecimalText.DigitsRoundTrip` | src/main/java/com/progressoft/tools/NormalizerImpl.java:192 | reading back the numeral of n gives n |
| `DecimalText.ScanIntegerPart` | src/main/java/com/progressoft/tools/NormalizerImpl.java:264 | the scanner reads a run of digits as their decimal value, whatever follows |
| `DecimalText.ScanTwoPlaces` | src/main/java/com/progressoft/tools/NormalizerImpl.java:264 | a point and two digits after an integer part u are read as (100 u + the two digits) / 100 |
| `DecimalText.UnsignedTextRoundTrip` | src/main/java/com/progressoft/tools/NormalizerImpl.java:192 | the unsigned text of unscaled value a parses back to a / 100 |
| `DecimalText.SignedTextRoundTrip` | src/main/java/com/progressoft/tools/NormalizerImpl.java:192 | the signed text of unscaled value u parses back to u / 100 |
| `DecimalText.NegativeTextRoundTrip` | src/main/java/com/progressoft/tools/NormalizerImpl.java:192 | the text of a negative value, with its minus sign, parses back to the value |
| `DecimalText.PositiveTextRoundTrip` | src/main/java/com/progressoft/tools/NormalizerImpl.java:192 | the text of a non-negative value parses back to the value |
| `DecimalText.ToStringIsSignedText` | src/main/java/com/progressoft/tools/NormalizerImpl.java:192 | `toString()` of a two-place value is the signed text of its unscaled value |
| `DecimalText.ToStringRoundTrip` | src/main/java/com/progressoft/tools/NormalizerImpl.java:192 | `new BigDecimal(x.toString())` is x for every two-place x |
| `DecimalText.ReformatIsIdentity` | src/main/java/com/progressoft/tools/NormalizerImpl.java:189-192 | parsing a written value and rescaling it gives the same value and the same text |
| `DecimalText.MalformedFields` | src/main/java/com/progressoft/tools/NormalizerImpl.java:264 | an empty field, a lone sign, a lone point, two points and an empty exponent are not decimals |
| `DecimalText.ExponentFields` | src/main/java/com/progressoft/tools/NormalizerImpl.java:264 | an exponent scales the significand: "-1.5E2" is -150 and "25e-1" is 2.5 |
| `DecimalText.PositiveExponentField` | src/main/java/com/progressoft/tools/NormalizerImpl.java:264 | "-1.5E2" reads as -150: a positive exponent multiplies the significand by a power of ten |
| `DecimalText.NegativeExponentField` | src/main/java/com/progressoft/tools/NormalizerImpl.java:264 | "25e-1" reads as 2.5: a negative exponent divides the significand by a power of ten |
| `DecimalText.ParseDecimal` | src/main/java/com/progressoft/tools/NormalizerImpl.java:264 | `new BigDecimal(String)`: an empty field is not a decimal, and digits with an optional sign give the integer they spell; `ToStringRoundTrip` makes it the inverse of `toString()` on two-place values, and `MalformedFields` and `ExponentFields` illustrate fractions, exponents and rejected texts on example inputs |
| `DecimalText.IntegerText` | src/main/java/com/progressoft/tools/NormalizerImpl.java:264 | a non-empty run of digits reads as the integer it spells |
| `Normalizer.ConvertToRequiredScale` | src/main/java/com/progressoft/tools/NormalizerImpl.java:59-61 | the result has two places, and its unscaled value is the half-even rounding of 100 x |
| `Normalizer.NormalizeMinMax` | src/main/java/com/progressoft/tools/NormalizerImpl.java:74-80 | throws ArithmeticException exactly when max == min; otherwise a two-place value whose unscaled value is the half-even rounding of 100 (x - min) / (max - min) |
| `Normalizer.NormalizeZScore` | src/main/java/com/progressoft/tools/NormalizerImpl.java:90-96 | throws ArithmeticException exactly when sd == 0; otherwise the two-place half-even rounding of (x - mean) / sd |
| `Normalizer.MinMaxOfMinimum` | src/main/java/com/progressoft/tools/NormalizerImpl.java:74-80 | the minimum maps to 0.00 |
| `Normalizer.MinMaxOfMaximum` | src/main/java/com/progressoft/tools/NormalizerImpl.java:74-80 | the maximum maps to 1.00 |
| `Normalizer.MinMaxInUnitInterval` | src/main/java/com/progressoft/tools/NormalizerImpl.java:74-80 | a value between min and max maps into [0, 1] |
| `Normalizer.QuotientInUnitInterval` | src/main/java/com/progressoft/tools/NormalizerImpl.java:77 | the unrounded quotient of a value inside [min, max] lies in [0, 1] |
| `Normalizer.MinMaxMonotonic` | src/main/java/com/progressoft/tools/NormalizerImpl.java:74-80 | min-max scaling preserves the order of the values |
| `Normalizer.MinMaxRescaleIdempotent` | src/main/java/com/progressoft/tools/NormalizerImpl.java:77-79 | the final `convertToRequiredScale` after the scale-2 division changes nothing |
| `Normalizer.ZScoreOfMean` | src/main/java/com/progressoft/tools/NormalizerImpl.java:90-96 | the mean scores 0.00 |
| `Normalizer.ZScoreSign` | src/main/java/com/progressoft/tools/NormalizerImpl.java:90-96 | with a positive deviation the score has the sign of x - mean |
| `Normalizer.ZScoreAntisymmetric` | src/main/java/com/progressoft/tools/NormalizerImpl.java:90-96 | values equally far above and below the mean get opposite scores |
| `BigDecimalUtils.Sum` | src/main/java/com/progressoft/tools/NormalizerImpl.java:320-326 | the loop from ZERO returns the exact sum, added left to right |
| `BigDecimalUtils.SumBounds` | src/main/java/com/progressoft/tools/NormalizerImpl.java:320-326 | the sum of n numbers in [lo, hi] lies in [n lo, n hi] |
| `BigDecimalUtils.SumNonNegative` | src/main/java/com/progressoft/tools/NormalizerImpl.java:320-326 | a sum of non-negative numbers is non-negative |
| `BigDecimalUtils.Mean` | src/main/java/com/progressoft/tools/NormalizerImpl.java:334-337 | throws ArithmeticException exactly for the empty list; otherwise an integer, the half-even rounding of sum / n |
| `BigDecimalUtils.Min` | src/main/java/com/progressoft/tools/NormalizerImpl.java:300-302 | throws NoSuchElementException exactly for the empty list; otherwise an element of the list that no element is below |
| `BigDecimalUtils.Max` | src/main/java/com/progressoft/tools/NormalizerImpl.java:310-312 | throws NoSuchElementException exactly for the empty list; otherwise an element of the list that no element is above |
| `BigDecimalUtils.MeanBetweenRoundedMinMax` | src/main/java/com/progressoft/tools/NormalizerImpl.java:334-337 | the integer mean lies between the scale-0 roundings of min and max |
| `BigDecimalUtils.AverageBounds` | src/main/java/com/progressoft/tools/NormalizerImpl.java:336 | a sum within [n lo, n hi], divided by n, lies within [lo, hi] |
| `BigDecimalUtils.MeanCanFallBelowMinimum` | src/main/java/com/progressoft/tools/NormalizerImpl.java:334-337 | the mean of [0.1, 0.2] is 0, below the minimum 0.1 |
| `BigDecimalUtils.InsertSorted` | src/main/java/com/progressoft/tools/NormalizerImpl.java:340 | inserting into a sorted list gives a sorted list with one more occurrence of x |
| `BigDecimalUtils.SortedCons` | src/main/java/com/progressoft/tools/NormalizerImpl.java:340 | a lower bound put in front of a sorted list keeps it sorted |
| `BigDecimalUtils.Sort` | src/main/java/com/progressoft/tools/NormalizerImpl.java:340 | `Collections.sort` gives a sorted permutation of the list |
| `BigDecimalUtils.SortedUnique` | src/main/java/com/progressoft/tools/NormalizerImpl.java:340 | two sorted permutations of the same values are equal |
| `BigDecimalUtils.SortedHeadIsLeast` | src/main/java/com/progressoft/tools/NormalizerImpl.java:340 | the first element of a sorted list is at most each of its values |
| `BigDecimalUtils.RemoveHead` | src/main/java/com/progressoft/tools/NormalizerImpl.java:340 | equal multisets with equal heads have equal tails |
| `BigDecimalUtils.SortInPlace` | src/main/java/com/progressoft/tools/NormalizerImpl.java:340 | the array ends sorted and a permutation of its old contents |
| `BigDecimalUtils.MedianOf` | src/main/java/com/progressoft/tools/NormalizerImpl.java:339-352 | throws IndexOutOfBoundsException exactly for the empty list; otherwise a two-place value |
| `BigDecimalUtils.MedianOfSorted` | src/main/java/com/progressoft/tools/NormalizerImpl.java:342-351 | the middle reads throw exactly for the empty list and otherwise give a two-place value |
| `BigDecimalUtils.Median` | src/main/java/com/progressoft/tools/NormalizerImpl.java:339-352 | the array ends as the sorted permutation of its old contents, and the result is the median of the old contents |
| `BigDecimalUtils.Middle` | src/main/java/com/progressoft/tools/NormalizerImpl.java:342-351 | on a sorted array, the middle reads give the median of its contents |
| `BigDecimalUtils.SortedMedian` | src/main/java/com/progressoft/tools/NormalizerImpl.java:340-351 | a list already in order is its own sort, so its median is read from its middle positions directly |
| `BigDecimalUtils.MedianPermutationInvariant` | src/main/java/com/progressoft/tools/NormalizerImpl.java:339-352 | the median depends only on which values the list holds, not on their order |
| `BigDecimalUtils.MedianBetweenMinMax` | src/main/java/com/progressoft/tools/NormalizerImpl.java:339-352 | the median lies between the rescaled min and the rescaled max |
| `BigDecimalUtils.MiddleValue` | src/main/java/com/progressoft/tools/NormalizerImpl.java:342-351 | the unrounded middle of a sorted list within [lo, hi] lies in [lo, hi] |
| `BigDecimalUtils.Squares` | src/main/java/com/progressoft/tools/NormalizerImpl.java:393-397 | element i is the exact square of x_i - mean |
| `BigDecimalUtils.PopulationVarianceOf` | src/main/java/com/progressoft/tools/NormalizerImpl.java:385-401 | NumberFormatException exactly for the empty list; otherwise a non-negative integer |
| `BigDecimalUtils.PopulationVariance` | src/main/java/com/progressoft/tools/NormalizerImpl.java:385-401 | the loop that builds the squares returns the variance of the list |
| `BigDecimalUtils.VarianceOfOne` | src/main/java/com/progressoft/tools/NormalizerImpl.java:389-390 | a single number has variance 0 |
| `BigDecimalUtils.VarianceOfConstant` | src/main/java/com/progressoft/tools/NormalizerImpl.java:385-401 | a constant list has variance 0, although the mean it subtracts is rounded |
| `BigDecimalUtils.MeanOfConstant` | src/main/java/com/progressoft/tools/NormalizerImpl.java:334-337 | the integer mean of a constant list is within one half of the constant |
| `BigDecimalUtils.AverageSquareOfConstant` | src/main/java/com/progressoft/tools/NormalizerImpl.java:398-399 | the average square distance of a constant list from such a mean rounds to 0 |
| `BigDecimalUtils.SquareAtMostQuarter` | src/main/java/com/progressoft/tools/NormalizerImpl.java:396 | a difference of at most one half squares to at most one quarter |
| `BigDecimalUtils.StandardDeviation` | src/main/java/com/progressoft/tools/NormalizerImpl.java:363-376 | NumberFormatException exactly for the empty list or a variance whose `doubleValue()` is Infinity; 0 for one number; otherwise the square root of the variance |
| `BigDecimalUtils.DeviationCanOverflow` | src/main/java/com/progressoft/tools/NormalizerImpl.java:366-368 | for 10^200 and -10^200 the variance is 10^400, beyond the double range, so the deviation throws NumberFormatException |
| `BigDecimalUtils.SumOfConcat` | src/main/java/com/progressoft/tools/NormalizerImpl.java:320-326 | the sum of two lists one after the other is the sum of their sums |
| `BigDecimalUtils.SumOfPermutation` | src/main/java/com/progressoft/tools/NormalizerImpl.java:320-326 | the sum depends only on which values the list holds, not on their order |
| `BigDecimalUtils.Occurrence` | src/main/java/com/progressoft/tools/NormalizerImpl.java:340 | a value the list holds sits at some position i, and removing it there removes one occurrence from the list's multiset |
| `BigDecimalUtils.SquaresPermutation` | src/main/java/com/progressoft/tools/NormalizerImpl.java:393-397 | reordering the numbers reorders their squares |
| `BigDecimalUtils.SquaresConcat` | src/main/java/com/progressoft/tools/NormalizerImpl.java:393-397 | the squared differences of two lists joined are the squared differences of each, joined |
| `BigDecimalUtils.MeanPermutationInvariant` | src/main/java/com/progressoft/tools/NormalizerImpl.java:334-337 | the mean is the same for any reordering of the list |
| `BigDecimalUtils.BoundsPermutationInvariant` | src/main/java/com/progressoft/tools/NormalizerImpl.java:300-312 | min and max are the same for any reordering of the list |
| `BigDecimalUtils.VariancePermutationInvariant` | src/main/java/com/progressoft/tools/NormalizerImpl.java:385-401 | the variance is the same for any reordering of the list |
| `BigDecimalUtils.StatisticsPermutationInvariant` | src/main/java/com/progressoft/tools/NormalizerImpl.java:339-340 | the sort that median performs on the list changes no statistic: sum, mean, min, max, median, variance and deviation are the same after it |
| `Scoring.ScoringSummary.Mean` | src/main/java/com/progressoft/tools/NormalizerImpl.java:101-103 | throws exactly for the empty list; otherwise the integer mean, which the rescale leaves unchanged |
| `Scoring.ScoringSummary.StandardDeviation` | src/main/java/com/progressoft/tools/NormalizerImpl.java:106-108 | NumberFormatException exactly for the empty list or a variance beyond the double range; 0.00 for one value; otherwise the rescaled deviation |
| `Scoring.ScoringSummary.Variance` | src/main/java/com/progressoft/tools/NormalizerImpl.java:111-113 | throws exactly for the empty list; otherwise the non-negative integer variance, which the rescale leaves unchanged |
| `Scoring.ScoringSummary.Median` | src/main/java/com/progressoft/tools/NormalizerImpl.java:116-118 | the rescale changes nothing: the accessor is the median itself |
| `Scoring.ScoringSummary.Min` | src/main/java/com/progressoft/tools/NormalizerImpl.java:121-123 | throws exactly for the empty list; otherwise the rescale of one element, and no rescaled element is smaller |
| `Scoring.ScoringSummary.Max` | src/main/java/com/progressoft/tools/NormalizerImpl.java:126-128 | throws exactly for the empty list; otherwise the rescale of one element, and no rescaled element is larger |
| `Scoring.RoundedBelow` | src/main/java/com/progressoft/tools/NormalizerImpl.java:121-123 | rescaling keeps a lower bound that is one of the values |
| `Scoring.RoundedAbove` | src/main/java/com/progressoft/tools/NormalizerImpl.java:126-128 | rescaling keeps an upper bound that is one of the values |
| `Scoring.SummaryOrder` | src/main/java/com/progressoft/tools/NormalizerImpl.java:116-128 | on a non-empty list, min <= median <= max |
| `Scoring.SingleValueSummary` | src/main/java/com/progressoft/tools/NormalizerImpl.java:98-130 | for one value, min, max and median are that value rescaled, and variance and deviation are 0 |
| `Scoring.ConstantListHasNoDeviation` | src/main/java/com/progressoft/tools/NormalizerImpl.java:106-113 | a constant list has variance 0 and, when sqrt(0) is 0, deviation 0 |
| `Scoring.SummaryOfTenTwentyThirty` | src/main/java/com/progressoft/tools/NormalizerImpl.java:101-113 | 10, 20, 30 have mean 20 and variance 67 |
| `Scoring.SummaryPermutationInvariant` | src/main/java/com/progressoft/tools/NormalizerImpl.java:116-118 | once median() has sorted the list, every accessor gives what it gave before |
| `Csv.SplitAll` | src/main/java/com/progressoft/tools/NormalizerImpl.java:172 | there is at least one piece, and no piece holds a comma |
| `Csv.DropTrailingEmpty` | src/main/java/com/progressoft/tools/NormalizerImpl.java:172 | the result is a prefix that does not end in an empty field, and only empty fields were dropped |
| `Csv.Split` | src/main/java/com/progressoft/tools/NormalizerImpl.java:235 | `split(",")`: a line without a comma is its own field; otherwise the pieces between commas less the trailing empty ones |
| `Csv.Join` | src/main/java/com/progressoft/tools/NormalizerImpl.java:175 | `String.join(",", …)`: the text has a comma exactly when there are two or more fields or a field has one; with `SplitAllJoin` and `JoinSplitAll` it is the inverse of splitting |
| `Csv.JoinOfThree` | src/main/java/com/progressoft/tools/NormalizerImpl.java:175 | `String.join(",", …)` of three fields is the fields separated by two commas |
| `Csv.IndexOf` | src/main/java/com/progressoft/tools/NormalizerImpl.java:237 | -1 exactly when the name is absent; otherwise the first position holding it |
| `Csv.AppendToTheNextOfSpecifiedCol` | src/main/java/com/progressoft/tools/NormalizerImpl.java:170-176 | throws IndexOutOfBoundsException exactly when colIndex + 1 is outside [0, number of fields]; otherwise, for a comma-free str, the new line's pieces are the old fields with str inserted at colIndex + 1 |
| `Csv.InsertedFieldsRoundTrip` | src/main/java/com/progressoft/tools/NormalizerImpl.java:172-175 | joining fields with a comma-free field inserted and splitting again gives those fields |
| `Csv.FieldValue` | src/main/java/com/progressoft/tools/NormalizerImpl.java:264 | a missing column throws IndexOutOfBoundsException; a field that is not a decimal throws NumberFormatException; otherwise the decimal of the field |
| `Csv.JoinSplitAll` | src/main/java/com/progressoft/tools/NormalizerImpl.java:172-175 | joining the pieces of a line gives the line back |
| `Csv.SplitAllJoin` | src/main/java/com/progressoft/tools/NormalizerImpl.java:172-175 | splitting joined comma-free fields gives the fields back |
| `Csv.SplitAllOfField` | src/main/java/com/progressoft/tools/NormalizerImpl.java:172 | a comma-free string is one piece |
| `Csv.SplitAllConcat` | src/main/java/com/progressoft/tools/NormalizerImpl.java:172 | f + "," + s splits into f followed by the pieces of s |
| `Csv.TrailingEmptyFieldsAreDropped` | src/main/java/com/progressoft/tools/NormalizerImpl.java:170-176 | inserting x after column 0 of "1,2,," gives "1,x,2" |
| `Csv.SplitOfTrailingCommas` | src/main/java/com/progressoft/tools/NormalizerImpl.java:172 | "1,2,," splits into two fields |
| `Csv.InsertedFieldReadsBack` | src/main/java/com/progressoft/tools/NormalizerImpl.java:170-176 | a non-empty comma-free field inserted after column colIndex is field colIndex + 1 of the new line |
| `Csv.FieldValueOf` | src/main/java/com/progressoft/tools/NormalizerImpl.java:264 | a field whose text parses gives that value |
| `CsvTasks.MinMaxResult` | src/main/java/com/progressoft/tools/NormalizerImpl.java:189-190 | the min-max value of one row throws exactly when the list is empty or the rounded min equals the rounded max; otherwise it is the rescaled quotient |
| `CsvTasks.ZScoreResult` | src/main/java/com/progressoft/tools/NormalizerImpl.java:214-215 | the z-score of one row throws exactly when the list is empty, the deviation throws, or the rounded deviation is 0: NumberFormatException when the deviation throws on a non-empty list, otherwise ArithmeticException; else it is the rescaled quotient |
| `CsvTasks.Normalized` | src/main/java/com/progressoft/tools/NormalizerImpl.java:189-190 | a row's value exists exactly when the formula applies to the summary, and it has two places; otherwise the exception is the formula's failure, whatever the row |
| `CsvTasks.Collect` | src/main/java/com/progressoft/tools/NormalizerImpl.java:263-267 | when every line gives a value there is one value per line |
| `CsvTasks.ColumnValues` | src/main/java/com/progressoft/tools/NormalizerImpl.java:257-275 | when the column is read, there is one value per line and every line has the column |
| `CsvTasks.CollectPresent` | src/main/java/com/progressoft/tools/NormalizerImpl.java:263-267 | value j is the value of line j |
| `CsvTasks.CollectNext` | src/main/java/com/progressoft/tools/NormalizerImpl.java:263-266 | one more line with a value appends that value |
| `CsvTasks.CollectStop` | src/main/java/com/progressoft/tools/NormalizerImpl.java:263-264 | the first line that throws decides the exception, whatever follows |
| `CsvTasks.CollectOk` | src/main/java/com/progressoft/tools/NormalizerImpl.java:263-267 | every line gives a value exactly when none throws |
| `CsvTasks.CollectThrown` | src/main/java/com/progressoft/tools/NormalizerImpl.java:263-264 | a failure carries the exception of the first line that throws |
| `CsvTasks.ColumnValuesOfFields` | src/main/java/com/progressoft/tools/NormalizerImpl.java:257-275 | the values exist exactly when every line has a decimal in the column, value j is the decimal of line j, and otherwise the exception is that of the first bad line |
| `CsvTasks.RowsHaveColumn` | src/main/java/com/progressoft/tools/NormalizerImpl.java:264 | every line whose field was read has the column |
| `CsvTasks.ReadColumn` | src/main/java/com/progressoft/tools/NormalizerImpl.java:263-267 | the reading loop returns the column's values or the first exception, and it counts the lines read, the failing one included |
| `CsvTasks.NormalizeRows` | src/main/java/com/progressoft/tools/NormalizerImpl.java:187-196 | succeeds exactly when the list is empty or the formula applies; otherwise it throws the formula's failure (NumberFormatException or ArithmeticException, since a list that reaches the loop is non-empty); on success, line j is data line j with its value's text inserted after the column, plus the separator unless it is the last |
| `CsvTasks.CSVTask.constructor` | src/main/java/com/progressoft/tools/NormalizerImpl.java:150-168 | a fresh task: the whole input unread, nothing written, no column found (-1) |
| `CsvTasks.CSVTask.HandleFirstLine` | src/main/java/com/progressoft/tools/NormalizerImpl.java:231-250 | no header gives NullPointerException; otherwise the header is consumed and the index set by `indexOf`; a missing column gives IllegalArgumentException("column … not found") with nothing written; otherwise the new header and separator are written |
| `CsvTasks.CSVTask.ListInputBySpecificCol` | src/main/java/com/progressoft/tools/NormalizerImpl.java:257-275 | returns the column's values; on success every line is consumed and kept; on failure, line k is the first line without a decimal in the column, its exception is thrown, the lines before it are kept and the reader stops right after it |
| `CsvTasks.CSVTask.WriteToTheOutputFile` | src/main/java/com/progressoft/tools/NormalizerImpl.java:277-287 | the writer receives the lines of outputList in order, and nothing else changes |
| `CsvTasks.CSVTask.NormalizeLines` | src/main/java/com/progressoft/tools/NormalizerImpl.java:187-196 | outputList becomes the normalised lines exactly when the formula applies or there are no rows; otherwise the formula's failure is thrown and outputList is unchanged |
| `CsvTasks.CSVTask.SummarizeAndOutputMinMaxFormula` | src/main/java/com/progressoft/tools/NormalizerImpl.java:178-201 | the outcome is fixed by the header, the column's values and whether min-max applies; the reader and outputList are stated on every path (nothing read past the header on a missing column, stopped after the first bad line, exhausted otherwise); on success, the output is the new header followed by every line with its min-max value, and the summary comes back |
| `CsvTasks.CSVTask.SummarizeAndOutputZScoreFormula` | src/main/java/com/progressoft/tools/NormalizerImpl.java:203-226 | the same for the z-score formula, whose failure is NumberFormatException when the variance is beyond the double range |
| `CsvTasks.CSVTask.SummarizeData` | src/main/java/com/progressoft/tools/NormalizerImpl.java:182-200 | what both summarize methods do after the header: the outcome is fixed by the column's values and whether the formula applies, the reader stops where `Consumed` says, a failure writes nothing, and a success writes every normalised line |
| `CsvTasks.OutputLineReadsBack` | src/main/java/com/progressoft/tools/NormalizerImpl.java:189-192 | the value written into a line reads back from the new column as exactly that value |
| `CsvTasks.SingleRowMinMaxFails` | src/main/java/com/progressoft/tools/NormalizerImpl.java:189-190 | one data line makes min-max divide by zero |
| `CsvTasks.SingleRowZScoreFails` | src/main/java/com/progressoft/tools/NormalizerImpl.java:214-215 | one data line makes z-score divide by zero |
| `CsvTasks.CloseValuesMinMaxFails` | src/main/java/com/progressoft/tools/NormalizerImpl.java:189-190 | 1.001 and 1.002 round to the same bounds, so min-max divides by zero |
| `CsvTasks.MinMaxEndpoints` | src/main/java/com/progressoft/tools/NormalizerImpl.java:189-190 | when min and max have two places, the rows holding them get 0.00 and 1.00 |
| `CsvTasks.EndpointTexts` | src/main/java/com/progressoft/tools/NormalizerImpl.java:192 | those values are written as "0.00" and "1.00" |
| `CsvTasks.MinimumCanMapBelowZero` | src/main/java/com/progressoft/tools/NormalizerImpl.java:189-190 | in [0.015, 1], the row 0.015 gets -0.01, written "-0.01" |
| `CsvTasks.ZScoreOfMeanRow` | src/main/java/com/progressoft/tools/NormalizerImpl.java:214-215 | a row equal to the mean gets 0.00 |
| `CsvTasks.ZScoreOverflowFails` | src/main/java/com/progressoft/tools/NormalizerImpl.java:214-215 | with 10^200 and -10^200 in the column, the z-score of a row throws NumberFormatException |
| `CsvTasks.HeaderOnlyRunSucceeds` | src/main/java/com/progressoft/tools/NormalizerImpl.java:183-200 | with no data lines the run succeeds with an empty summary |

## Left out

- File I/O is left out: opening, buffering, flushing and closing the reader and the writer, and the `IOException` handlers. The `FileNotFoundException` caught in the constructor, which leaves the reader null, is left out too. The input is a list of lines and the output is the text handed to the writer.
- `minMaxScaling`, `zscore`, `getCSVTaskInstance` and `main` (NormalizerImpl.java:25-50 and :411-472) are left out. They check that the file exists, parse the command line and print; the model begins at the `CSVTask` they create.
- `BigDecimalUtils.StandardDeviation`: `Math.sqrt` on `doubleValue()` and `BigDecimal.valueOf(double)` are binary floating point, so the square root of a variance within the double range is the parameter `fpSqrt` and nothing is proved about its accuracy. The overflow to Infinity and its `NumberFormatException` are modelled.
- `Scoring.ScoringSummary.StandardDeviation`: for more than one value its result is stated only through `fpSqrt`, for the same reason.
- `DecimalText.ParseDecimal` covers ASCII digits, one optional sign, one optional point and an optional exponent. It leaves out the limits `new BigDecimal(String)` places on exponents beyond the `int` range, and non-ASCII digits.
- `CsvTasks.CSVTask.ListInputBySpecificCol`: the loop runs in `CsvTasks.ReadColumn` over the lines. The reader position and `outputList` are set once it ends, to the values the Java loop leaves them with.
- `CsvTasks.CSVTask.NormalizeLines`: the loop runs in `CsvTasks.NormalizeRows` on a copy of `outputList`, which is stored back when it succeeds. The Java loop can only fail on its first iteration, before it has changed any line, so the two agree.
- `Scoring.ScoringSummary.Median`: the Java `median()` sorts the list the summary shares with the task, in place. The summary is a value here, so the reordering of that shared list is not captured. `BigDecimalUtils.Median` shows the in-place sort on an array, and `Scoring.SummaryPermutationInvariant` shows that every accessor called after it gives the same result. The task's loops never call `median()`, and they finish before the summary is returned.
- `TreeSet` and `Collections.sort` are modelled by their results (least element, greatest element, sorted permutation), not by their algorithms.
- The line separator is the constant `lineSeparator`, not the `line.separator` system property.
