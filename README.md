# dms-comp measurement comparison, modelled in Dafny

dms-comp compares DMS (differential mobility spectrometry) scans. A scan is a
grid of intensities, Width compensation voltages by Height separation
voltages, stored row by row. This project models the comparison engine:

- the preprocessing pipeline: a fixed-window crop, median-based rectification
  and four normalisations;
- the fifteen distance algorithms behind the `Algorithm` template method,
  including banded dynamic time warping and a greedy earth-mover transport;
- the data service (raw data, negated data, range filter, gradients,
  differences) and the `Dms` measurement record;
- the `CompList` batch runner: all option sets, every algorithm and every
  pair of mixtures, with the mean and the sample deviation of each pair;
- the separability analysis: the exception count and minimum gap between
  same-mixture and different-mixture distances, the threshold search and its
  success rate.

Floating-point numbers are modelled as `real`. `Math.Sqrt` and `Math.Log`
are a parameter `m: Numerics.MathLib`. The lemmas that need their laws require
`Numerics.Lawful(m)`: the root is non-negative and squares back, `Ln(1) = 0`,
and `Ln(x) >= 0` for `x >= 1`. `float.MaxValue` and `double.MaxValue` become
`Numerics.ExtReal.Infinity`, and so does DTW's unreached result, which the
source divides by its normaliser (see "## Left out"). A division that would give NaN is either a
precondition (where the source relies on its callers) or a `None` result
(where a NaN is part of the reported output).

Each metric module has the same shape:

- `Distance` is the metric as a function;
- `ComputeDistance` is the source's loop, proved equal to `Distance` (for
  Sorensen, to `DistanceAsWritten`; see Findings);
- lemmas state what the metric promises — range, identity, symmetry and the
  degenerate cases.

The modules follow the source files. `Numerics`, `Aggregation`, `Grid` and
`Sorting` are shared helpers.

Where the code does something other than its names and comments suggest, the
model follows the code:

- `PermutateOptions` enumerates `Normalization.Type`, which has three values
  (None, Linear, MinMax), so a batch runs 12 option sets, not 16 with RawWise.
- For a mixture pair with no distance, the sample deviation is
  `Sqrt(0 / -1) = 0`, not NaN. Only a single distance gives NaN (`0 / 0`).
  `CompList.GroupStdSpec` states both cases.
- Hamming returns the share of counted positions that differ
  (`Algorithms/Hamming.cs:20`, `:30` and `:34`), not the share that are equal.
- DTW's second pass sets only cell (0, 0) and the band cells with i and j at
  least 1 to 0 (`Algorithms/DTW.cs:19-22`). The other cells of row 0 and
  column 0 keep the sentinel.
- The range filter reads `settings.Limits` in `DataService.cs`. The
  `FilterSettings` record calls that property `LimitType`; the model uses the
  record's field.

## Model

| member | source | states |
|---|---|---|
| `Aggregation.CountOverBounds` | Algorithms/Canberra.cs:12-30 | The number of counted positions is at most n, and exactly n outside rectified mode. |
| `Aggregation.SumOverSwap` | Algorithms/Canberra.cs:14-37 | Summing a term over swapped vectors gives the sum of the swapped term. This is the basis of every symmetry lemma. |
| `Aggregation.CountOverSymmetric` | Algorithms/Canberra.cs:18 | The active-position test `a != 0 or b != 0` counts the same positions for swapped vectors. |
| `Aggregation.SumOverIdentical` | Algorithms/Canberra.cs:14-37 | A term that is 0 on equal values sums to 0 over a vector and itself. |
| `Aggregation.SumOverUnit` | Algorithms/Canberra.cs:14-37 | Terms in [0, 1] sum to between 0 and the counted positions. |
| `Aggregation.SumOverZeroIff` | Algorithms/Euclidian.cs:14-32 | A sum of non-negative terms is non-negative, and it is 0 exactly when every counted term is 0. |
| `Aggregation.SumOverMono` | Algorithms/Jaccard.cs:14-32 | A pointwise smaller term gives a smaller sum. |
| `Aggregation.SumOverScale` | Algorithms/Jaccard.cs:14-32 | A term scaled by c sums to c times the sum. |
| `Aggregation.SumOverWithoutCounted` | Algorithms/Canberra.cs:14-40 | With no counted position every sum is 0. |
| `Aggregation.MeanOfUnitTerms` | Algorithms/Canberra.cs:40 | The mean of terms in [0, 1] over the counted positions, divisor floored at 1, lies in [0, 1]. |
| `Aggregation.MeanSymmetric` | Algorithms/Canberra.cs:14-40 | The sum over the counted positions divided by their floored count is unchanged by swapping the vectors when the term is symmetric. |
| `Aggregation.MeanIdentical` | Algorithms/Canberra.cs:14-40 | That floored mean is 0 for a vector compared with itself when the term is 0 on equal values. |
| `Algorithms.ComputeHook` | Algorithms/Algorithm.cs:40 | Dispatching to each subclass's hook gives the metric function of that algorithm. |
| `Algorithms.AbsExt` | Algorithms/Algorithm.cs:31 | `Math.Abs` keeps the sentinel and yields the value or its negation, non-negative. |
| `Algorithms.Rectified` | Algorithms/Algorithm.cs:22-26 | Rectification, when asked for, keeps the length. |
| `Algorithms.Prepared` | Algorithms/Algorithm.cs:17-29 | Each copy is rectified (optionally) and then normalised, keeping its length. |
| `Algorithms.Algorithm.constructor` | Algorithms/Algorithm.cs:38 | A new algorithm starts with `_isDataRectified` false. |
| `Algorithms.Algorithm.ComputeDistance` | Algorithms/Algorithm.cs:14-32 | The template method returns the absolute pipeline distance, remembers the rectify flag and never writes the caller's arrays. |
| `Algorithms.Prepare` | Algorithms/Algorithm.cs:17-29 | A fresh copy holds the prepared data. |
| `Algorithms.ComputeConfigured` | CompList/Program.cs:349 | The call with a size and options crops both measurements when asked, then runs the template method. |
| `Algorithms.Clone` | Algorithms/Algorithm.cs:17-18 | A fresh copy with the same contents. |
| `Algorithms.PipelineNonNegative` | Algorithms/Algorithm.cs:31 | The reported distance is never negative, and only DTW can report the sentinel. |
| `Algorithms.PipelineIdentical` | Algorithms/Algorithm.cs:14-32 | Comparing a measurement with itself gives 0 for every algorithm except Cosine, Pearson and Ruzicka, whose metric can give 10 or 1 on a flat or zero vector. |
| `Algorithms.PipelineSymmetric` | Algorithms/Algorithm.cs:14-32 | Every algorithm except Kullback-Leibler reports the same distance for swapped measurements of equal length. |
| `Canberra.TermSpec` | Algorithms/Canberra.cs:20-23 | Each term lies in [0, 1], is 0 on equal values and is symmetric. |
| `Canberra.ComputeDistance` | Algorithms/Canberra.cs:9-41 | Both loops compute the mean term over the counted positions. |
| `Canberra.DistanceInUnitRange` | Algorithms/Canberra.cs:40 | The metric lies in [0, 1]. |
| `Canberra.DistanceIdentical` | Algorithms/Canberra.cs:9-41 | A vector is at distance 0 from itself. |
| `Canberra.DistanceSymmetric` | Algorithms/Canberra.cs:9-41 | The metric is symmetric. |
| `Canberra.DistanceWithoutCountedPositions` | Algorithms/Canberra.cs:40 | With no counted position the result is 0 / 1 = 0. |
| `CompList.IdSplits` | CompList/Program.cs:27 | `Id` splits back into the two mixture labels when neither label contains '/'. |
| `CompList.IdInjective` | CompList/Program.cs:27 | Two pairs have the same `Id` exactly when they are the same pair. |
| `CompList.FirstWith` | CompList/Program.cs:335-336 | `First(md => md.MixType == t)`: the least index holding the label. |
| `CompList.LookupIsFirst` | CompList/Program.cs:335-336 | The looked-up set is that of the first dataset with the label. |
| `CompList.RowPairs` | CompList/Program.cs:341-346 | The j loop's pairs are in range. |
| `CompList.RowPairsSound` | CompList/Program.cs:341-346 | Every pair of row i has j in [lo, hi) and comparable measurements. |
| `CompList.RowPairsComplete` | CompList/Program.cs:341-346 | Every comparable j in [lo, hi) is paired with i. |
| `CompList.ComparedPairs` | CompList/Program.cs:338-356 | The compared pairs are in range. |
| `CompList.ComparedPairsSound` | CompList/Program.cs:338-346 | Every compared pair (i, j) has j at least `jStart` and comparable measurements. |
| `CompList.ComparedPairsComplete` | CompList/Program.cs:338-346 | Every comparable pair with j at least `jStart` is compared. |
| `CompList.DistancesOf` | CompList/Program.cs:349-351 | One distance per compared pair, in order. |
| `CompList.DistancesAppend` | CompList/Program.cs:351 | Distances of concatenated pair lists concatenate. |
| `CompList.GroupMeanSpec` | CompList/Program.cs:358 | The mean is `Extensions.Mean` of the distances, 0 when there is none, and lies between the least and the greatest distance. |
| `CompList.GroupStdSpec` | CompList/Program.cs:359 | NaN (None) exactly for a single distance and 0 for none. Otherwise the result is non-negative and its square times n - 1 equals n times the population variance. |
| `CompList.GroupMeanIsMean` | CompList/Program.cs:358 | `distanceSum / distanceCount` is the arithmetic mean of the list. |
| `CompList.PopulationVarianceTimes` | CompList/Program.cs:359 | The population variance times n is the sum of squared deviations. |
| `CompList.SampleVariance` | CompList/Program.cs:359 | The sample variance relates to the population variance by n / (n - 1). |
| `CompList.LabelPairs` | CompList/Program.cs:321-323 | The label pairs of the two loops are ordered and in range. |
| `CompList.ComparisonsOf` | CompList/Program.cs:361 | One comparison result per label pair. |
| `CompList.Test` | CompList/Program.cs:309-367 | The two label loops yield the test result of the specification function `TestOf`. |
| `CompList.LabelRowStep` | CompList/Program.cs:323 | Row m of the label pairs grows by one pair per n. |
| `CompList.ComparisonsAppend` | CompList/Program.cs:361 | `results.Add` extends the comparisons by one. |
| `CompList.Compare` | CompList/Program.cs:325-361 | One label pair's comparison: its labels, distances, mean and deviation. |
| `CompList.CompareSets` | CompList/Program.cs:338-356 | The i loop collects the distances of the compared pairs, with their count and sum. |
| `CompList.CompareRow` | CompList/Program.cs:340-355 | The j loop of row i adds the distances of the row's pairs. |
| `CompList.CompareCell` | CompList/Program.cs:343-351 | A pair is skipped when the measurements are the same object or differ in shape; otherwise its distance is added. |
| `CompList.DistancesStep` | CompList/Program.cs:351 | One more pair adds one distance. |
| `CompList.RowPairsStep` | CompList/Program.cs:341-346 | One more j extends the row's pairs by that j when comparable. |
| `CompList.ProcSumAppend` | CompList/Program.cs:350 | Appending a distance leaves the running sum of the earlier ones unchanged. |
| `CompList.RowPairsCount` | CompList/Program.cs:341 | A row has at most hi - lo pairs, exactly that many when all are comparable. |
| `CompList.CrossPairsCount` | CompList/Program.cs:338-341 | Two different mixtures give at most n1 times n2 pairs, exactly that many when all are comparable. |
| `CompList.SamePairsCount` | CompList/Program.cs:340 | Within one mixture the pairs j > i of the first n rows number at most n(2k - n - 1) / 2. |
| `CompList.SameGroupCount` | CompList/Program.cs:340 | A mixture of k measurements gives at most k(k - 1) / 2 distances. |
| `CompList.CrossGroupCount` | CompList/Program.cs:338-341 | Two mixtures give at most k1 times k2 distances. |
| `CompList.LabelPairsCount` | CompList/Program.cs:321-323 | k labels give k(k + 1) / 2 label pairs. |
| `CompList.LabelPairsSound` | CompList/Program.cs:321-323 | Every label pair (m, n) has m at most n, both in range. |
| `CompList.LabelPairsComplete` | CompList/Program.cs:321-323 | Every (m, n) with m at most n is a label pair. |
| `CompList.TestSpec` | CompList/Program.cs:309-367 | A test has k(k + 1) / 2 comparisons: every ordered label pair's comparison is among them, and only those. With distinct labels, a pair is marked same exactly for m = n. |
| `Cosine.ComputeDistance` | Algorithms/Cosine.cs:9-39 | Both loops compute `10 (1 - dot / (norm1 norm2))`, with a non-positive denominator replaced by 1. |
| `Cosine.DistanceSymmetric` | Algorithms/Cosine.cs:9-39 | The metric is symmetric. |
| `Cosine.DistanceIdentical` | Algorithms/Cosine.cs:37-38 | A vector is at distance 0 from itself, except a zero vector, which is at 10. |
| `Cosine.DistanceOfZeroVector` | Algorithms/Cosine.cs:37-38 | A first vector of zeros gives 10. |
| `DataProcessing.LinearScaled` | Algorithms/DataProcessing.cs:24-31 | Linear keeps the length. |
| `DataProcessing.MinMaxScaled` | Algorithms/DataProcessing.cs:32-41 | MinMax keeps the length. |
| `DataProcessing.Row` | Algorithms/DataProcessing.cs:46 | A row of a grid w wide has w elements. |
| `DataProcessing.Standardized` | Algorithms/DataProcessing.cs:49-52 | Standardising keeps the length. |
| `DataProcessing.ZScore` | Algorithms/DataProcessing.cs:47-52 | A row's z-score keeps its length. |
| `DataProcessing.ZRows` | Algorithms/DataProcessing.cs:44-54 | n standardised rows hold n times w values. |
| `DataProcessing.ZRowsAt` | Algorithms/DataProcessing.cs:44-54 | Rows are standardised independently: element j of row r is element j of row r's z-score. |
| `DataProcessing.ZRowsPrefixAt` | Algorithms/DataProcessing.cs:44-54 | Earlier rows are unaffected by later ones. |
| `DataProcessing.ZRowsLastAt` | Algorithms/DataProcessing.cs:46-52 | The last row is the z-score of the original last row. |
| `DataProcessing.Normalized` | Algorithms/DataProcessing.cs:18-59 | Every normalisation keeps the length. |
| `DataProcessing.RawWiseAt` | Algorithms/DataProcessing.cs:42-54 | RawWise standardises each of the Height rows of Width values. |
| `DataProcessing.RawWiseTail` | Algorithms/DataProcessing.cs:44 | Values past Height times Width keep their values. |
| `DataProcessing.Normalize` | Algorithms/DataProcessing.cs:18-59 | Normalize overwrites the data with its normalised values. |
| `DataProcessing.DivideByMax` | Algorithms/DataProcessing.cs:24-31 | The Linear loop divides every element by the maximum. |
| `DataProcessing.ScaleToUnitRange` | Algorithms/DataProcessing.cs:32-41 | The MinMax loop maps x to (x - min) / (max - min). |
| `DataProcessing.LinearScaledSpec` | Algorithms/DataProcessing.cs:24-31 | With a positive maximum, Linear bounds every value by 1, maps the maxima to 1 and keeps the order both ways. |
| `DataProcessing.MinMaxScaledSpec` | Algorithms/DataProcessing.cs:32-41 | With max > min, MinMax maps into [0, 1], minima to 0 and maxima to 1, keeping the order both ways. |
| `DataProcessing.UnitRangeBounds` | Algorithms/DataProcessing.cs:39 | One value's (x - min) / (max - min) lies in [0, 1], with the ends at 0 and 1. |
| `DataProcessing.UnitRangeOrder` | Algorithms/DataProcessing.cs:39 | The map keeps the order both ways. |
| `DataProcessing.NormalizedNone` | Algorithms/DataProcessing.cs:20-23 | None leaves the data as it is. |
| `DataProcessing.StandardizeRows` | Algorithms/DataProcessing.cs:44-54 | The row loop replaces the Height rows by their z-scores and leaves the rest. |
| `DataProcessing.CurrentRow` | Algorithms/DataProcessing.cs:46 | Before row r is processed it still holds the original row r. |
| `DataProcessing.NextRow` | Algorithms/DataProcessing.cs:44-54 | Processing row r extends the standardised prefix by that row. |
| `DataProcessing.StandardizeRow` | Algorithms/DataProcessing.cs:46-52 | One pass: the row's mean and deviation, then its elements standardised. |
| `DataProcessing.StandardizeSpan` | Algorithms/DataProcessing.cs:49-52 | The inner loop standardises exactly the row's span. |
| `DataProcessing.MedianOfShifted` | Algorithms/DataProcessing.cs:63-71 | Subtracting a constant from non-empty data lowers its median by that constant, so the data the first loop centres has median 0. |
| `DataProcessing.Magnitudes` | Algorithms/DataProcessing.cs:74-78 | Every element's magnitude, non-negative. |
| `DataProcessing.Band` | Algorithms/DataProcessing.cs:79 | The band, three median absolute deviations, is non-negative. |
| `DataProcessing.NonNegativeMedian` | Algorithms/DataProcessing.cs:79 | The median of non-negative data is non-negative. |
| `DataProcessing.Rectified` | Algorithms/DataProcessing.cs:61-94 | Rectify keeps the length. |
| `DataProcessing.Rectify` | Algorithms/DataProcessing.cs:61-94 | A fresh array holds the rectified data; the input is not written. |
| `DataProcessing.RectifiedFromSteps` | Algorithms/DataProcessing.cs:63-91 | The three loops together compute `Rectified`. |
| `DataProcessing.SubtractMedian` | Algorithms/DataProcessing.cs:67-71 | The first loop subtracts the median. |
| `DataProcessing.AbsoluteCopy` | Algorithms/DataProcessing.cs:74-78 | The second loop fills a fresh copy with magnitudes. |
| `DataProcessing.RemoveBand` | Algorithms/DataProcessing.cs:83-91 | The third loop lowers values above the band, raises those below minus the band, and zeroes the rest. |
| `DataProcessing.RectifiedElements` | Algorithms/DataProcessing.cs:61-94 | Element k is shrink(x - median, band). |
| `DataProcessing.RectifiedZeroIff` | Algorithms/DataProcessing.cs:85-90 | An output is 0 exactly when its centred input lies within the band. |
| `DataProcessing.ShrinkZeroIff` | Algorithms/DataProcessing.cs:85-90 | One value shrinks to 0 exactly inside the band. |
| `DataProcessing.RectifiedShrinks` | Algorithms/DataProcessing.cs:85-90 | Outside the band an output keeps the sign of its centred input and never grows in magnitude. |
| `DataProcessing.ShrinkKeepsSign` | Algorithms/DataProcessing.cs:85-90 | Shrinking keeps the sign and never grows the magnitude. |
| `DataProcessing.RectifiedConstant` | Algorithms/DataProcessing.cs:61-94 | A flat signal rectifies to zeros. |
| `DataProcessing.RectifyOfOneToFour` | Algorithms/DataProcessing.cs:63-91 | [1, 2, 3, 4] has median 2.5 and band 3 x 1.0 = 3.0, and rectifies to [0, 0, 0, 0]. |
| `DataProcessing.MedianOfCentredMagnitudes` | Algorithms/DataProcessing.cs:74-79 | The absolute deviations [1.5, 0.5, 0.5, 1.5] of [1, 2, 3, 4] from its median have median 1.0. |
| `DataProcessing.CropWidth` | Algorithms/DataProcessing.cs:143-148 | The window is at least two columns wide. |
| `DataProcessing.CropHeight` | Algorithms/DataProcessing.cs:142-149 | The window has at most Height and at most 60 rows. |
| `DataProcessing.Cropped` | Algorithms/DataProcessing.cs:142-156 | The crop holds height times width values. |
| `DataProcessing.CropWindowFits` | Algorithms/DataProcessing.cs:152-154 | Every read of the crop loops lies inside the data. |
| `DataProcessing.Crop` | Algorithms/DataProcessing.cs:96-157 | A fresh array holds the fixed window of the grid. |
| `DataProcessing.CropExample` | Algorithms/DataProcessing.cs:142-149 | A 100 x 70 grid crops to 70 x 60, 4200 values. |
| `DataProcessing.CropDefinedOnFullGrid` | Algorithms/DataProcessing.cs:142-154 | A full grid at least two columns wide can always be cropped. |
| `DataService.SameShapeIsEquivalence` | Dms/DataService.cs:22 | Having the same shape is reflexive, symmetric and transitive. |
| `DataService.Negated` | Dms/DataService.cs:74 | Negation keeps the length. |
| `DataService.NegatedTwice` | Dms/DataService.cs:74 | Negating twice gives the data back. |
| `DataService.RetrieveData` | Dms/DataService.cs:69-77 | Positive returns the scan's own top array; Negative returns a fresh negated bottom array. |
| `DataService.Filtered` | Dms/DataService.cs:79-87 | Filtering keeps the length. |
| `DataService.DefaultSettingsKeepData` | Dms/DataService.cs:31 | The default settings pass the data unchanged under either filter. |
| `DataService.ApplyFilter` | Dms/DataService.cs:79-87 | Unfiltered hands the array back; Range runs the range filter. |
| `DataService.Difference` | Dms/DataService.cs:89-97 | The raw difference has the first grid's length. |
| `DataService.DifferenceSpec` | Dms/DataService.cs:94 | The first grid plus the difference is the second. Swapping the grids negates the difference, and a grid differs from itself by zeros. |
| `DataService.GetRawDifference` | Dms/DataService.cs:89-97 | A fresh array of second minus first, with the given shape. |
| `DataService.CornersInData` | Dms/DataService.cs:125-128 | The four corners of every cell lie in the data. |
| `DataService.IndexSplit` | Dms/DataService.cs:125 | A flat index splits into a row and a column in range. |
| `DataService.IndexJoin` | Dms/DataService.cs:125 | Row r and column c join to a flat index that splits back to them. |
| `DataService.GradientOf` | Dms/DataService.cs:115-133 | (Columns - 1)(Rows - 1) vectors. |
| `DataService.GradientIndex` | Dms/DataService.cs:125-128 | Vector (r, c) is the gradient of cell (r, c). |
| `DataService.GradientOfConstant` | Dms/DataService.cs:125-128 | A constant grid has no gradient. |
| `DataService.VectorOfConstant` | Dms/DataService.cs:125-128 | Any one vector of a constant grid is zero. |
| `DataService.GradientShiftInvariant` | Dms/DataService.cs:125-128 | Adding a constant to every value leaves the gradient as it is. |
| `DataService.VectorShiftInvariant` | Dms/DataService.cs:125-128 | Any one vector is shift invariant. |
| `DataService.CellShiftInvariant` | Dms/DataService.cs:126-127 | One cell's gradient is shift invariant. |
| `DataService.FilledAll` | Dms/DataService.cs:121-130 | Once every vector is written, the array is the gradient. |
| `DataService.GetGradient` | Dms/DataService.cs:115-133 | A fresh array of the gradient, of shape (Rows - 1, Columns - 1). |
| `DataService.GradientRows` | Dms/DataService.cs:121-130 | The outer loop writes every row of vectors. |
| `DataService.GradientRow` | Dms/DataService.cs:123-129 | One pass writes row r of vectors. |
| `DataService.SquaredDistanceSpec` | Dms/DataService.cs:107-109 | The squared vector distance is non-negative, symmetric and 0 on equal vectors. |
| `DataService.VectorDistanceSpec` | Dms/DataService.cs:109 | The vector distance is non-negative, symmetric and 0 on equal vectors. |
| `DataService.GradientDistance` | Dms/DataService.cs:99-113 | One distance per vector. |
| `DataService.GetGradientDifference` | Dms/DataService.cs:99-113 | A fresh array of the elementwise vector distances, with the first gradient's shape. |
| `DataService.MagnitudeSpec` | Dms/DataService.cs:12 | The magnitude is non-negative, and 0 exactly for the zero vector. |
| `DataService.Magnitudes` | Dms/DataService.cs:7-13 | One magnitude per vector. |
| `DataService.ToDataArray` | Dms/DataService.cs:5-15 | A fresh array of the magnitudes of the first Rows times Columns vectors. |
| `DataService.Prepared` | Dms/DataService.cs:30-31 | Retrieving and filtering keep the data's length. |
| `DataService.GetRaw` | Dms/DataService.cs:24-39 | The filtered data itself with the scan's shape, or its gradient magnitudes with one row and one column fewer. |
| `DataService.DifferenceOfSwap` | Dms/DataService.cs:56-64 | Swapping the measurements negates the raw difference and leaves the gradient difference unchanged. |
| `DataService.DifferenceOfSelf` | Dms/DataService.cs:56-64 | A grid differs from itself by zeros, raw or as gradients. |
| `DataService.GetDifference` | Dms/DataService.cs:41-65 | Null exactly when a measurement is missing or the shapes differ. Otherwise the difference of the prepared data, with the first measurement's shape. |
| `DmsMeasurement.Split` | Dms/Dms.cs:33 | `string.Split`: at least one piece, none containing the separator. |
| `DmsMeasurement.JoinSplit` | Dms/Dms.cs:33 | Joining the pieces gives the string back. |
| `DmsMeasurement.SplitCount` | Dms/Dms.cs:33 | One piece more than there are separators. |
| `DmsMeasurement.SplitPrefix` | Dms/Dms.cs:33 | A separator-free prefix joins the first piece. |
| `DmsMeasurement.SplitJoin` | Dms/Dms.cs:33 | Splitting a join of separator-free pieces gives the pieces back. |
| `DmsMeasurement.HasFolderIffSeparator` | Dms/Dms.cs:33 | `[^2]` exists exactly when the path contains a separator. |
| `DmsMeasurement.OccurrencesIn` | Dms/Dms.cs:33 | A character occurs in a string exactly when its count is positive. |
| `DmsMeasurement.FolderOfPath` | Dms/Dms.cs:33 | The folder of `...\folder\file` is `folder`. |
| `DmsMeasurement.FirstChange` | Dms/Dms.cs:40-45 | The first index from i on whose voltage differs from the first, or the length. |
| `DmsMeasurement.WidthIsRun` | Dms/Dms.cs:39-47 | Width is the length of the initial run of equal voltages, at least 1. |
| `DmsMeasurement.ShapeFits` | Dms/Dms.cs:47-48 | Width times Height fits in the scan and falls short by less than one row. |
| `DmsMeasurement.ScanWidth` | Dms/Dms.cs:40-47 | The while loop computes `Width`. |
| `DmsMeasurement.Dms.constructor` | Dms/Dms.cs:27-53 | The measurement's path, folder, width and height are set from the scan. |
| `Dtw.BandStart` | Algorithms/DTW.cs:21 | The band of row i starts at max(1, i - 10). |
| `Dtw.Normalizer` | Algorithms/DTW.cs:35 | The integer divisor (n1 + n2 + 2) / 2 is at least 1. |
| `Dtw.OutsideBand` | Algorithms/DTW.cs:15-22 | Outside the band a cell keeps the value of the first two passes. |
| `Dtw.ComputeDistance` | Algorithms/DTW.cs:11-36 | The three passes compute the banded DTW cost divided by the normaliser, or `Infinity` when the final cell is unreached. |
| `Dtw.FillSentinel` | Algorithms/DTW.cs:15-17 | The first pass sets every cell to the sentinel. |
| `Dtw.ZeroBand` | Algorithms/DTW.cs:19-22 | The second pass sets (0, 0) and every band cell to 0. |
| `Dtw.FilledFirstRow` | Algorithms/DTW.cs:19-22 | After the second pass row 0 is final. |
| `Dtw.ComputeRow` | Algorithms/DTW.cs:25-32 | Row i of the third pass makes the row final. |
| `Dtw.SkipToBand` | Algorithms/DTW.cs:26 | Cells left of the band are already final. |
| `Dtw.NextRow` | Algorithms/DTW.cs:26 | Past the band's end row i is final, so the pass moves on to the next row. |
| `Dtw.ComputeCell` | Algorithms/DTW.cs:28-31 | One cell: its cost plus the least of its three final predecessors. |
| `Dtw.CellRecurrence` | Algorithms/DTW.cs:28-31 | The recurrence at a band cell. |
| `Dtw.StoreCell` | Algorithms/DTW.cs:29 | Writing a cell's final value moves the pass one cell on. |
| `Dtw.Predecessor` | Algorithms/DTW.cs:29-31 | A cell before (i, j) holds its final value. |
| `Dtw.CellNonNegative` | Algorithms/DTW.cs:28-31 | Every reached cell holds a non-negative cost. |
| `Dtw.BandCellReached` | Algorithms/DTW.cs:21-31 | Every band cell is reached. |
| `Dtw.DistanceReached` | Algorithms/DTW.cs:35 | The final cell is reached (the result is not the sentinel) exactly when both vectors are empty, or both are non-empty with lengths at most 10 apart. |
| `Dtw.DistanceNonNegative` | Algorithms/DTW.cs:35 | A finite distance is non-negative. |
| `Dtw.DiagonalFree` | Algorithms/DTW.cs:28-31 | A vector warps onto itself along the diagonal at no cost. |
| `Dtw.DistanceIdentical` | Algorithms/DTW.cs:11-36 | A vector is at distance 0 from itself. |
| `Dtw.MinExtExchange` | Algorithms/DTW.cs:29-31 | The nested minimum does not depend on the order of its first two arguments. |
| `Dtw.BandSymmetric` | Algorithms/DTW.cs:21 | Both vectors have the same band, seen from either side. |
| `Dtw.CellSymmetric` | Algorithms/DTW.cs:25-32 | Cell (i, j) for (a, b) equals cell (j, i) for (b, a). |
| `Dtw.BandCellSymmetric` | Algorithms/DTW.cs:28-31 | The same for band cells. |
| `Dtw.SymmetricStep` | Algorithms/DTW.cs:28-31 | Symmetric predecessors give a symmetric cell. |
| `Dtw.DistanceSymmetric` | Algorithms/DTW.cs:11-36 | The distance is symmetric. |
| `Euclidian.TermSpec` | Algorithms/Euclidian.cs:20 | Each squared difference is non-negative, 0 on equal values and symmetric. |
| `Euclidian.ComputeDistance` | Algorithms/Euclidian.cs:9-37 | Both loops compute the root of the mean squared difference. |
| `Euclidian.DistanceNonNegative` | Algorithms/Euclidian.cs:36 | The radicand and the metric are non-negative. |
| `Euclidian.DistanceIdentical` | Algorithms/Euclidian.cs:9-37 | A vector is at distance 0 from itself. |
| `Euclidian.DistanceSymmetric` | Algorithms/Euclidian.cs:9-37 | The metric is symmetric. |
| `Euclidian.DistanceWithoutCountedPositions` | Algorithms/Euclidian.cs:36 | With no counted position the result is the root of 0. |
| `Extensions.MedianInRange` | Common/Extensions.cs:5-17 | The median of no data is 0; otherwise it lies between the least and the greatest element. |
| `Extensions.MiddleInRange` | Common/Extensions.cs:13-15 | A middle element of the sorted copy lies between the extremes. |
| `Extensions.MedianOfConstant` | Common/Extensions.cs:5-17 | The median of a constant series is the constant. |
| `Extensions.MedianPermutationInvariant` | Common/Extensions.cs:10-11 | The median depends only on the elements, not their order. |
| `Extensions.MedianOfSorted` | Common/Extensions.cs:13-15 | On ascending data the median is read off the middle. |
| `Extensions.Mean` | Common/Extensions.cs:19-31 | The loop computes the sum of proc(v) over the length, 0 for no values. |
| `Extensions.PopulationVariance` | Common/Extensions.cs:35 | The variance is non-negative. |
| `Extensions.SquaredDeviationSumNonNegative` | Common/Extensions.cs:35 | Squared deviations sum to a non-negative number. |
| `Extensions.ProcSumIsSquaredDeviationSum` | Common/Extensions.cs:35 | Mean with the squared-deviation lambda sums the squared deviations. |
| `Extensions.StandardDeviation` | Common/Extensions.cs:32-36 | The root of the population variance. |
| `Extensions.MeanAndStandardDeviation` | Common/Extensions.cs:38-42 | Exactly the pair (mean, standard deviation). |
| `Extensions.MeanBounds` | Common/Extensions.cs:19-31 | The mean lies between the least and the greatest value. |
| `Extensions.AverageBounds` | Common/Extensions.cs:30 | An average of values in [lo, hi] lies in [lo, hi]. |
| `Extensions.ProcSumBounds` | Common/Extensions.cs:24-28 | The sum of n values in [lo, hi] lies between n lo and n hi. |
| `Extensions.ConstantVariance` | Common/Extensions.cs:32-36 | Constant data has variance 0. |
| `Extensions.ConstantProcSum` | Common/Extensions.cs:24-28 | n copies of c sum to n c. |
| `Extensions.ConstantDeviationSum` | Common/Extensions.cs:35 | Constant data has no deviation from its constant. |
| `FilterService.PercentEnds` | Dms/FilterService.cs:43-48 | 0 % is the minimum and 100 % the maximum. |
| `FilterService.LimitDefaults` | Dms/FilterService.cs:29-48 | A missing To defaults to the maximum. A missing From defaults to 0 (absolute), to the minimum (relative to the minimum, or percentage) or to the median (relative to the median). |
| `FilterService.SetLimitsAreOffsets` | Dms/FilterService.cs:29-42 | Set limits are offsets from 0, the minimum or the median. |
| `FilterService.PercentageLimits` | Dms/FilterService.cs:43-48 | 0 % and 100 % limits are the minimum and the maximum of the data. |
| `FilterService.PercentageLimitsFrom` | Dms/FilterService.cs:43-48 | The same, for given extremes. |
| `FilterService.ClampSpec` | Dms/FilterService.cs:52-58 | With ordered limits a value ends up inside them, values inside stay, and clamping is idempotent. |
| `FilterService.Clamped` | Dms/FilterService.cs:50-59 | Clamping keeps the length. |
| `FilterService.Filtered` | Dms/FilterService.cs:20-62 | Filtering keeps the length. |
| `FilterService.FilteredInRange` | Dms/FilterService.cs:50-59 | Every output lies between the limits, and every input already between them is kept. |
| `FilterService.FilterKeepsDataInDefaults` | Dms/FilterService.cs:32-48 | With only From = 0, the relative-to-minimum and percentage filters return the data unchanged. |
| `FilterService.ApplyFilter` | Dms/FilterService.cs:20-62 | No limit returns the input array itself. Otherwise the result is a fresh array of the clamped values, and the input is not written. |
| `FilterService.ClampInto` | Dms/FilterService.cs:50-59 | The loop raises values to low, lowers them to high, and keeps the rest. |
| `FilterService.UnboundedKeepsData` | Dms/FilterService.cs:22-23 | No limit leaves the data as it is. |
| `FilterService.FilteredIsClamped` | Dms/FilterService.cs:27-59 | With a limit set, the filter clamps to the computed limits. |
| `FilterService.ComputeLimits` | Dms/FilterService.cs:27-48 | The limits from the data's min, max and median. |
| `FilterService.SelectLimits` | Dms/FilterService.cs:29-48 | The absolute reading, replaced for the other limit types. |
| `Grid.WindowFitsLess` | Algorithms/DataProcessing.cs:152-154 | Row i < h of a fitting window lies in the data: i x W + c0 + w <= n. |
| `Grid.WindowFitsShorter` | Algorithms/DataProcessing.cs:152-154 | A window that fits with h > 0 rows also fits with h - 1 rows. |
| `Grid.WindowFitsPrefix` | Algorithms/DataProcessing.cs:152-154 | A window that fits with h rows fits with any i <= h rows. |
| `Grid.Window` | Algorithms/DataProcessing.cs:150-154 | The window holds height times width values. |
| `Grid.WindowAt` | Algorithms/DataProcessing.cs:154 | Element (i, j) of the window is `data[(row0 + i) W + col0 + j]`. |
| `Grid.WindowPrefixAt` | Algorithms/DataProcessing.cs:152-154 | Earlier window rows are those of a shorter window. |
| `Grid.WindowLastAt` | Algorithms/DataProcessing.cs:153-154 | The last window row comes from its data row. |
| `Grid.RowPlace` | Algorithms/DataProcessing.cs:154 | The target index of a window element lies in the result. |
| `Grid.WindowStep` | Algorithms/DataProcessing.cs:152-154 | Copying one more row extends the window by that row. |
| `Grid.CopiedAll` | Algorithms/DataProcessing.cs:152-154 | Once every row is copied, the result is the window. |
| `Grid.CopyWindow` | Algorithms/DataProcessing.cs:150-156 | A fresh array holds the window. |
| `Grid.CopyWindowRow` | Algorithms/DataProcessing.cs:152-154 | The outer loop copies every row. |
| `Grid.CopyRow` | Algorithms/DataProcessing.cs:153-154 | The inner loop copies one row and nothing else. |
| `Hamming.ComputeDistance` | Algorithms/Hamming.cs:9-35 | Both loops compute the mismatches over the counted positions. |
| `Hamming.MismatchesAreDiffering` | Algorithms/Hamming.cs:20 | The summed mismatches are the number of differing counted positions. |
| `Hamming.DistanceIsFraction` | Algorithms/Hamming.cs:34 | The metric is the share of differing positions among the counted ones. |
| `Hamming.DistanceInUnitRange` | Algorithms/Hamming.cs:34 | The metric lies in [0, 1]. |
| `Hamming.DistanceIdentical` | Algorithms/Hamming.cs:9-35 | A vector is at distance 0 from itself. |
| `Hamming.DistanceSymmetric` | Algorithms/Hamming.cs:9-35 | The metric is symmetric. |
| `Hamming.DistanceWithoutCountedPositions` | Algorithms/Hamming.cs:34 | With no counted position the result is 0. |
| `Jaccard.TermSpec` | Algorithms/Jaccard.cs:20-21 | Both terms are non-negative, and the squared difference is at most twice the overlap term. |
| `Jaccard.OverlapIdentity` | Algorithms/Jaccard.cs:21 | Twice the overlap term is the squared difference plus both squares. |
| `Jaccard.ComputeDistance` | Algorithms/Jaccard.cs:9-35 | Both loops compute `10 num / den`, with a zero denominator replaced by 1. |
| `Jaccard.SumsSpec` | Algorithms/Jaccard.cs:14-32 | Both sums are non-negative, and the numerator is at most twice the denominator. |
| `Jaccard.ScaledBounds` | Algorithms/Jaccard.cs:34 | The final quotient lies in [0, 20], and is 0 for a zero denominator. |
| `Jaccard.DistanceBounds` | Algorithms/Jaccard.cs:34 | The metric lies in [0, 20] on any data. |
| `Jaccard.DistanceWithoutOverlap` | Algorithms/Jaccard.cs:34 | A zero denominator forces a zero numerator, so the result is 0. |
| `Jaccard.DistanceIdentical` | Algorithms/Jaccard.cs:9-35 | A vector is at distance 0 from itself. |
| `Jaccard.DistanceSymmetric` | Algorithms/Jaccard.cs:9-35 | The metric is symmetric. |
| `JensenShannon.TermSpec` | Algorithms/JensenShannon.cs:27-34 | Each term is symmetric and 0 on equal shares. |
| `JensenShannon.ComputeDistance` | Algorithms/JensenShannon.cs:11-59 | The totals, then both loops, compute `Sqrt(sum) / count`. |
| `JensenShannon.DistanceIdentical` | Algorithms/JensenShannon.cs:11-59 | A vector is at distance 0 from itself. |
| `JensenShannon.DistanceSymmetric` | Algorithms/JensenShannon.cs:11-59 | The metric is symmetric. |
| `JensenShannon.DistanceWithoutCountedPositions` | Algorithms/JensenShannon.cs:58 | With no counted position the result is `Sqrt(0) / 1 = 0`. |
| `KullbackLeibler.ComputeDistance` | Algorithms/KullbackLeibler.cs:11-37 | Both loops compute the mean term, the count rising at every position outside rectified mode. |
| `KullbackLeibler.DistanceDivisor` | Algorithms/KullbackLeibler.cs:29-36 | Outside rectified mode the divisor is the length; counted positions never exceed it. |
| `KullbackLeibler.DistanceIdentical` | Algorithms/KullbackLeibler.cs:11-37 | A vector is at divergence 0 from itself. |
| `Lorentzian.TermSpec` | Algorithms/Lorentzian.cs:20 | Each term is non-negative, 0 on equal values and symmetric. |
| `Lorentzian.ComputeDistance` | Algorithms/Lorentzian.cs:9-35 | Both loops compute the mean `Ln(1 + abs(a - b))`. |
| `Lorentzian.DistanceNonNegative` | Algorithms/Lorentzian.cs:34 | The metric is non-negative. |
| `Lorentzian.DistanceIdentical` | Algorithms/Lorentzian.cs:9-35 | A vector is at distance 0 from itself. |
| `Lorentzian.DistanceSymmetric` | Algorithms/Lorentzian.cs:9-35 | The metric is symmetric. |
| `Manhattan.TermSpec` | Algorithms/Manhattan.cs:20 | Each absolute difference is non-negative, 0 on equal values and symmetric. |
| `Manhattan.ComputeDistance` | Algorithms/Manhattan.cs:9-35 | Both loops compute the root of the mean absolute difference. |
| `Manhattan.DistanceNonNegative` | Algorithms/Manhattan.cs:34 | The radicand and the metric are non-negative. |
| `Manhattan.DistanceIdentical` | Algorithms/Manhattan.cs:9-35 | A vector is at distance 0 from itself. |
| `Manhattan.DistanceSymmetric` | Algorithms/Manhattan.cs:9-35 | The metric is symmetric. |
| `Manhattan.DistanceWithoutCountedPositions` | Algorithms/Manhattan.cs:34 | With no counted position the result is the root of 0. |
| `Normalization.Processed` | Algorithms/Normalization.cs:12-40 | Processing keeps the length. |
| `Normalization.Process` | Algorithms/Normalization.cs:12-40 | Process overwrites the data with its normalised values. |
| `Normalization.ProcessIsNormalize` | Algorithms/Normalization.cs:12-40 | Process is `DataProcessing.Normalize` on the three shared types: the same precondition and the same result, whatever the grid size. |
| `Numerics.SeqMax` | Algorithms/Normalization.cs:20 | `data.Max()` is an element and bounds every element. |
| `Numerics.SeqMin` | Algorithms/Normalization.cs:28 | `data.Min()` is an element and is below every element. |
| `Numerics.Floor1` | Algorithms/Canberra.cs:40 | `count > 0 ? count : 1` is at least 1 and equals a positive count. |
| `Pearson.NonZeroSumIsSum` | Algorithms/Pearson.cs:22-34 | Leaving out zeros does not change a sum. |
| `Pearson.ProductSpec` | Algorithms/Pearson.cs:47-49 | The product is commutative and a square is non-negative. |
| `Pearson.ComputeMeans` | Algorithms/Pearson.cs:17-38 | The first pass computes both means, over the non-zero values in rectified mode. |
| `Pearson.ComputeDistance` | Algorithms/Pearson.cs:9-85 | The two passes compute `1 - num / (Sqrt(den1) Sqrt(den2))`, with a non-positive denominator replaced by 1. |
| `Pearson.ComputeMoments` | Algorithms/Pearson.cs:40-80 | The second pass computes the co-moment and the two moments about the means. |
| `Pearson.AddDeviations` | Algorithms/Pearson.cs:44-49 | One kept position adds its products to the three sums. |
| `Pearson.MomentsStep` | Algorithms/Pearson.cs:44-49 | The three sums grow by that position's products. |
| `Pearson.DistanceSymmetric` | Algorithms/Pearson.cs:9-85 | The metric is symmetric. |
| `Pearson.DistanceIdentical` | Algorithms/Pearson.cs:83-84 | A vector is at distance 0 from itself, or 1 when it has no spread about its mean. |
| `Pearson.ComplementOfEqualMoments` | Algorithms/Pearson.cs:83-84 | Equal moments s give 0, or 1 for s = 0. |
| `Runner.Ordinal` | Algorithms/Normalization.cs:5-10 | The enum's declaration order: 0, 1, 2. |
| `Runner.AllOptions` | CompList/Program.cs:296-305 | Twelve option sets. |
| `Runner.OptionIndexInverse` | CompList/Program.cs:300-303 | Option set i of the enumeration has index i, and the index of an option set picks it back. |
| `Runner.AllOptionsSpec` | CompList/Program.cs:296-305 | 2 x 3 x 2 option sets, pairwise distinct, covering every combination. |
| `Runner.OptionAtLoops` | CompList/Program.cs:300-303 | Crop varies slowest and rectification fastest. |
| `Runner.PermutateOptions` | CompList/Program.cs:296-305 | The three nested loops produce exactly `AllOptions()`. |
| `Runner.TestsFor` | CompList/Program.cs:379-383 | One test per algorithm. |
| `Runner.AllTestsLength` | CompList/Program.cs:376-384 | n option sets and w algorithms give n w tests. |
| `Runner.AllTestsAt` | CompList/Program.cs:376-384 | Test o w + a is that of option set o with algorithm a. |
| `Runner.CompareStrings` | CompList/Program.cs:389 | Ordinal string order: negative, zero or positive. |
| `Runner.CompareStringsFlip` | CompList/Program.cs:389 | The order is antisymmetric and 0 exactly on equal strings. |
| `Runner.CompareStringsTransitive` | CompList/Program.cs:389 | The order is transitive. |
| `Runner.CompareResultsFlip` | CompList/Program.cs:387-400 | The comparison of results is antisymmetric. |
| `Runner.CompareResultsTransitive` | CompList/Program.cs:387-400 | The comparison of results is transitive. |
| `Runner.ResultLeqIsTotalPreorder` | CompList/Program.cs:387-400 | The comparison is a total preorder, so sorting by it is well defined. |
| `Runner.RunSpec` | CompList/Program.cs:369-403 | The results are a permutation of all option-set/algorithm tests, o times a in number, sorted by name, crop, normalisation and rectification. |
| `Runner.RunHasEveryTest` | CompList/Program.cs:376-384 | Every option set with every algorithm has its test among the results. |
| `Runner.Run` | CompList/Program.cs:369-403 | The loops and the sort yield `RunOf`. |
| `Ruzicka.ComputeDistance` | Algorithms/Ruzicka.cs:9-35 | Both loops compute `1 - sum min / sum max`, with a zero denominator replaced by 1. |
| `Ruzicka.DistanceSymmetric` | Algorithms/Ruzicka.cs:9-35 | The metric is symmetric. |
| `Ruzicka.DistanceIdentical` | Algorithms/Ruzicka.cs:34 | A vector is at distance 0 from itself, or 1 when its values sum to 0. |
| `Ruzicka.DistanceInUnitRange` | Algorithms/Ruzicka.cs:34 | On non-negative data the metric lies in [0, 1]. |
| `Separability.Where` | CompList/Program.cs:567-568 | Filtering keeps at most the comparisons it had. |
| `Separability.WhereSpec` | CompList/Program.cs:567-568 | A comparison is kept exactly when its pair's sameness is the one asked for. |
| `Separability.FirstCrossing` | CompList/Program.cs:626-631 | The first index where the diff distance exceeds the same distance, none before it. |
| `Separability.ThresholdSpec` | CompList/Program.cs:625-631 | At the crossing the threshold lies strictly between the two distances; without one it is 0. |
| `Separability.ThresholdSeparatesTails` | CompList/Program.cs:625-631 | With same descending and diff ascending, past the crossing every same distance is below the threshold and every diff distance above it. |
| `Separability.CountBelow` | CompList/Program.cs:634 | The count is at most the length. |
| `Separability.CountAtLeast` | CompList/Program.cs:634 | The count is at most the length. |
| `Separability.SuccessRateInUnitRange` | CompList/Program.cs:633-635 | The rate exists exactly when there is a distance, and lies in [0, 1]. |
| `Separability.SortedDistances` | CompList/Program.cs:614-623 | The same distances are descending, the diff distances ascending, each a permutation of what was collected. |
| `Separability.ThresholdExample` | CompList/Program.cs:625-635 | Same 0.1, 0.2, 0.3 and diff 0.25, 0.4, 0.5 give threshold 0.3 and rate 4/6. |
| `Separability.EstimateSeparates` | CompList/Program.cs:612-636 | The threshold found separates the tails of the two sorted lists. |
| `Separability.EstimateThreshold` | CompList/Program.cs:612-636 | The collections, sorts, threshold loop and rate yield `EstimateOf`. |
| `Separability.Collect` | CompList/Program.cs:614-616 | `AddRange` concatenates the distances. |
| `Separability.FindThreshold` | CompList/Program.cs:625-631 | The loop with break finds the midpoint at the first crossing, or 0. |
| `Separability.FoldAppend` | CompList/Program.cs:574-585 | The tally of appended gaps continues the tally of the prefix. |
| `Separability.FoldSpec` | CompList/Program.cs:570-585 | totalCount is the number of pairs, and count is at most it. count > 0 exactly when some pair has diff at most same. The minimum is MaxValue exactly with no pairs, otherwise it is the least diff - same and is attained. |
| `Separability.ExceptionIffMinDistance` | CompList/Program.cs:580-584 | There is an exception exactly when the minimum gap is at most 0. |
| `Separability.Inner` | CompList/Program.cs:577 | One pair per diff distance. |
| `Separability.CrossLength` | CompList/Program.cs:576-577 | Two distance lists give the product of their lengths in pairs. |
| `Separability.ConcatLength` | CompList/Program.cs:574-577 | The concatenated distances have the summed lengths. |
| `Separability.GroupGapsLength` | CompList/Program.cs:575-577 | One same comparison gives its length times all diff distances. |
| `Separability.InnerMembers` | CompList/Program.cs:577 | The pairs of one same distance are it with each diff distance. |
| `Separability.CrossMembers` | CompList/Program.cs:576-577 | The pairs of two lists are every same distance with every diff distance, and only those. |
| `Separability.ConcatMembers` | CompList/Program.cs:574-576 | A distance is collected exactly when some comparison holds it. |
| `Separability.GroupMembers` | CompList/Program.cs:575-577 | One same comparison meets every diff distance, and only those. |
| `Separability.AllGapsMembers` | CompList/Program.cs:574-577 | The four loops visit every (same, diff) distance pair, and only those. |
| `Separability.AllGapsLength` | CompList/Program.cs:574-579 | totalCount is the number of same distances times the number of diff distances. |
| `Separability.OddPercent` | CompList/Program.cs:587 | NaN (None) exactly for totalCount 0; otherwise in [0, 100] since count is at most totalCount. |
| `Separability.ExceptionStatsSpec` | CompList/Program.cs:565-587 | totalCount is the product of the two distance counts, count is at most it, exceptions exist exactly when the minimum gap is at most 0, and the percentage lies in [0, 100]. |
| `Separability.ExceptionStatsMeaning` | CompList/Program.cs:570-585 | An exception exists exactly when some diff distance is at most some same distance. The minimum is at most every diff - same, and is attained. |
| `Separability.GapsMeaning` | CompList/Program.cs:570-585 | For any list of gaps holding exactly the (same, diff) distance pairs, the tally counts an exception exactly when some diff is at most some same. Its minimum is at most every diff - same, and is attained. |
| `Separability.ExceptionStats` | CompList/Program.cs:565-587 | The four loops and the percentage yield `ExceptionStatsOf`. |
| `Separability.TallyGroup` | CompList/Program.cs:575-585 | The diff loop continues the tally over one same comparison. |
| `Separability.TallyCross` | CompList/Program.cs:576-585 | The two distance loops continue the tally over their pairs. |
| `Separability.TallyInner` | CompList/Program.cs:577-585 | The innermost loop continues the tally over one same distance. |
| `Sorensen.ComputeDistance` | Algorithms/Sorensen.cs:9-35 | Both loops compute `DistanceAsWritten`: the summed `abs(a - b)` over the summed `a + b` outside rectified mode, and over the `a + b` of the last active position in it; a non-positive denominator becomes 1. |
| `Sorensen.LastActiveTotalSymmetric` | Algorithms/Sorensen.cs:18-22 | The rectified denominator as written is the same with the vectors exchanged. |
| `Sorensen.AsWrittenNonNegative` | Algorithms/Sorensen.cs:9-35 | The metric as written is never negative, in both modes. |
| `Sorensen.AsWrittenIdentical` | Algorithms/Sorensen.cs:9-35 | As written, a vector is at distance 0 from itself. |
| `Sorensen.AsWrittenSymmetric` | Algorithms/Sorensen.cs:9-35 | As written, the metric is symmetric. |
| `Sorensen.AsWrittenAgreesUnrectified` | Algorithms/Sorensen.cs:25-32 | Outside rectified mode the code as written and the corrected metric agree. |
| `Sorensen.AsWrittenLeavesUnitRange` | Algorithms/Sorensen.cs:21 | In rectified mode, a = [1, 1], b = [0, 0] give 2 as written and 1 corrected. |
| `Sorensen.DistanceNonNegative` | Algorithms/Sorensen.cs:21 | The corrected metric, whose rectified denominator is summed like the unrectified one, is non-negative. |
| `Sorensen.DistanceIdentical` | Algorithms/Sorensen.cs:21 | Corrected, a vector is at distance 0 from itself. |
| `Sorensen.DistanceSymmetric` | Algorithms/Sorensen.cs:21 | The corrected metric is symmetric. |
| `Sorensen.DistanceInUnitRange` | Algorithms/Sorensen.cs:21 | On non-negative data the corrected metric lies in [0, 1]. |
| `Sorting.Insert` | Common/Extensions.cs:11 | Insertion adds the element to the multiset. |
| `Sorting.Sort` | Common/Extensions.cs:11 | The sort is a permutation. |
| `Sorting.InsertSorted` | Common/Extensions.cs:11 | Inserting into an ascending sequence keeps it ascending. |
| `Sorting.SortSorted` | CompList/Program.cs:387-400 | Under a total, transitive order the sort is ascending. |
| `Sorting.HeadIsLeast` | Common/Extensions.cs:11 | The head of an ascending sequence is below each element. |
| `Sorting.SortedUnique` | Common/Extensions.cs:11 | Two ascending sequences with the same elements are equal under a total order. |
| `Sorting.SortPermutationInvariant` | Common/Extensions.cs:10-11 | The sort depends only on the elements. |
| `Sorting.Reverse` | CompList/Program.cs:618 | `List.Reverse`: element i is element n - 1 - i. |
| `Sorting.ReverseMultiset` | CompList/Program.cs:618 | Reversing is a permutation. |
| `Sorting.ReverseOfAscending` | CompList/Program.cs:617-618 | An ascending list reversed is descending. |
| `Sorting.RealLeqIsTotalOrder` | Common/Extensions.cs:11 | The order of reals is total, transitive and antisymmetric. |
| `Sorting.SortReals` | Common/Extensions.cs:11 | `Array.Sort` keeps the length. |
| `Sorting.SortRealsSpec` | Common/Extensions.cs:11 | The sort of reals is an ascending permutation. |
| `Sorting.SortRealsUnique` | Common/Extensions.cs:11 | It is the unique ascending permutation. |
| `Wasserstein.FirstPositiveFrom` | Algorithms/Wasserstein.cs:28-35 | The least index from i on with a positive value, or -1. |
| `Wasserstein.ComputeDistance` | Algorithms/Wasserstein.cs:11-26 | The loop on copies computes the greedy transport's total work. |
| `Wasserstein.FirstNonZero` | Algorithms/Wasserstein.cs:28-35 | The scan returns the first positive entry's index, or -1. |
| `Wasserstein.MoveDirt` | Algorithms/Wasserstein.cs:37-54 | One move, in place, and its work. |
| `Wasserstein.PositivesUpdate` | Algorithms/Wasserstein.cs:43-50 | Overwriting one entry changes the positive count by what it loses and gains. |
| `Wasserstein.SumUpdate` | Algorithms/Wasserstein.cs:43-50 | Overwriting one entry changes the sum by the difference. |
| `Wasserstein.MoveDecreases` | Algorithms/Wasserstein.cs:37-51 | A move between positive entries moves a positive amount and removes a positive entry, so the loop ends. |
| `Wasserstein.MoveTransfersFlow` | Algorithms/Wasserstein.cs:40-51 | A move takes the flow out of both entries, empties one, and changes no other entry. |
| `Wasserstein.StepWorkNonNegative` | Algorithms/Wasserstein.cs:52-53 | A non-negative flow costs a non-negative amount. |
| `Wasserstein.GreedyWorkNonNegative` | Algorithms/Wasserstein.cs:16-25 | The total work is non-negative. |
| `Wasserstein.GreedyExhausts` | Algorithms/Wasserstein.cs:16-21 | When the loop stops, one pile has no positive entry left; both keep their lengths. |
| `Wasserstein.GreedyConservesMass` | Algorithms/Wasserstein.cs:16-24 | As much mass leaves the dirt as leaves the holes. |
| `Wasserstein.GreedyOnlyRemovesDirt` | Algorithms/Wasserstein.cs:16-24 | No dirt entry grows, a non-positive one is never touched, and a positive one never drops below 0. |
| `Wasserstein.GreedyOnlyRemovesHoles` | Algorithms/Wasserstein.cs:16-24 | Likewise for the holes. |
| `Wasserstein.GreedyIdentical` | Algorithms/Wasserstein.cs:16-25 | Equal piles cost nothing. |
| `Wasserstein.MoveSwap` | Algorithms/Wasserstein.cs:37-54 | A move seen from the other side has the same flow and work. |
| `Wasserstein.GreedySwap` | Algorithms/Wasserstein.cs:16-25 | Swapping the vectors swaps what is left and costs the same. |
| `Wasserstein.DistanceSymmetric` | Algorithms/Wasserstein.cs:11-26 | The distance is symmetric. |
| `Wasserstein.DistanceNonNegative` | Algorithms/Wasserstein.cs:11-26 | The distance is non-negative. |
| `Wasserstein.DistanceIdentical` | Algorithms/Wasserstein.cs:11-26 | A vector is at distance 0 from itself. |
| `WaveHedges.TermSpec` | Algorithms/WaveHedges.cs:22-24 | Each term is 0 on equal values, symmetric, and in [0, 1] on non-negative values. |
| `WaveHedges.ComputeDistance` | Algorithms/WaveHedges.cs:9-42 | Both loops compute the mean `abs(a - b) / max(a, b)`, 0 where the maximum is 0. |
| `WaveHedges.DistanceInUnitRange` | Algorithms/WaveHedges.cs:41 | On non-negative data the metric lies in [0, 1]. |
| `WaveHedges.DistanceIdentical` | Algorithms/WaveHedges.cs:9-42 | A vector is at distance 0 from itself. |
| `WaveHedges.DistanceSymmetric` | Algorithms/WaveHedges.cs:9-42 | The metric is symmetric. |

## Left out

- File loading (`Dms.Load`, JSON parsing of the scan and its comments), the
  finish-time parsing of `Date` and `Time`, `MessageBox`, console output, Excel
  and OleDb export, `Debug.WriteLine` and the `VERBOSE` printing: all I/O.
- `Main`, `SelectFolder`, `LoadData`, `LoadAlgorithms` (type discovery by
  reflection), `CreateExcelFile`, `EnsureExcelSheetExists`, `GetSheet`,
  `PrintHeader`, `PrintByAlgorithm`, `PrintByOption` and the printing in
  `PrintExceptionStats`: they only feed or display the core.
  `Test` and `Run` take the mixtures and the algorithms as parameters.
- Floating point: single and double precision, rounding, and the exact NaN
  and infinity propagation are not modelled. Divisions that would give NaN
  are preconditions. The exceptions are the three NaNs the tool reports: the
  deviation of one distance, `oddPerc` with no pairs, and the success rate with
  no distances (`Separability.SuccessRate`). These are `None`.
- `Dtw.ComputeDistance`: the unreached result `float.MaxValue / ((n1 + n2 + 2) / 2)`
  (`Algorithms/DTW.cs:35`) is a finite number, for example `MaxValue / 7` for
  a = [1] and |b| = 12. The model reports it as `Infinity`. So
  `Dtw.DistanceReached` separates reached from unreached results, not finite
  from infinite ones.
- `Math.Sqrt` and `Math.Log` are a parameter with the laws the proofs need,
  not their definitions.
- `Array.Sort` and `List.Sort` are a stable insertion sort. `List.Sort` is
  unstable, so results that compare equal may come out in another order.
  `string.CompareTo` is culture-sensitive; the model compares ordinally.
- `Runner.RunSpec`: states the sort by ordinal names, not the culture-aware
  order of `string.CompareTo`.
- `Algorithm.Rectify` and `Algorithm.GetMedian` duplicate
  `DataProcessing.Rectify` and `Median` (with the factor 3): the model uses
  one definition for both.
- The overload `ComputeDistance(data1, data2, Size, Options)` that the batch
  runner calls is not part of this model's source files. It is modelled as
  `Algorithms.ComputeConfigured`: the optional crop, then the template method.
- `Runner.Run` and `CompList.Test` take the distance of each option set and
  algorithm as a function parameter; the runner never checks the pipeline's
  preconditions, so the pipeline is not composed into them.
- `DataService.ApplyFilter`: the source branches on `Data.Filter.Unfiltered`
  and `Data.Filter.Range`, but the `Filter` enumeration in `Dms/Data.cs` declares
  `None` and `LowValues`. The model follows the service and gives `Filter` the
  members `Unfiltered` and `Range`. The `NotSupportedException` branches of the
  service's switches cannot be reached on the modelled enumerations.
- `Algorithms.HookDefined`: the elementwise hooks read `data2[i]` at every
  index of `data1` (for example `Algorithms/Hamming.cs:18`) and throw
  `IndexOutOfRangeException` when `data2` is shorter; the model requires
  `|data1| <= |data2|`. For Jensen-Shannon it also requires non-zero totals
  (see `JensenShannon.ComputeDistance` below).
- `JensenShannon.ComputeDistance`: with a zero total the source's shares are
  NaN or infinite. An all-zero vector makes every share NaN; both guards of
  each term fail and the result is 0. A non-zero value over a zero total gives
  a NaN or 0 term. The model requires non-zero totals whenever a position is
  counted.
- `DataProcessing.CropDefined`: with a `Width` below 2 the crop window starts
  at a negative column and the read at `Algorithms/DataProcessing.cs:152-154`
  throws; so does a grid with fewer values than the window's last cell. The
  model requires neither to happen.
- `DataProcessing.NormalizeDefined`: Linear and MinMax call `data.Max()` and
  `data.Min()` (`Algorithms/DataProcessing.cs:26`, `:34-35`), which throw
  `InvalidOperationException` on empty data; the model requires data there.
  RawWise takes the span `data.AsSpan(row * size.Width, size.Width)`
  (`Algorithms/DataProcessing.cs:46`), which throws
  `ArgumentOutOfRangeException` beyond the data; the model requires
  `Height * Width` values. A zero divisor is a precondition as above.
- `FilterService.FilterDefined`: `data.MinMax()` throws on empty data whenever
  a limit is set; the model requires data there.
- `DataService.GradientDefined`: a 0 x 1 or a 1 x 0 grid gives the array size
  `(Columns - 1) * (Rows - 1) = 0`, neither loop runs, and the source returns
  an empty gradient with one dimension at -1 (`Dms/DataService.cs:117-132`).
  With one of `Rows` and `Columns` at 0 and the other at least 2 the array size
  is negative and the allocation throws. With both at 0 the source returns a
  -1 by -1 gradient of one zero vector. With too few values the reads throw. The model requires at least one
  row and one column, and the values whenever a cell is computed.
- `DataService.DifferenceDefined`: the raw difference reads `array2[i]` at
  every index of `array1` and throws when the second is shorter; the model
  requires `|f1| <= |f2|` and, for gradients, `GradientDefined` of both grids.
- `Dms.constructor`: the source throws when the path has no folder or the
  voltage list has fewer than two values; the model requires both.
- `Dms` keeps its arrays as fields set once; the scan object and the
  deserialised `Info` comment are not modelled.
- `HashSet<Dms>.ToArray()`: a mixture's measurements are a sequence in an
  order the model takes as given.
- `FilterService.ApplyFilter` computes the median for every limit type in the
  model's `ComputeLimits`; the source only for RelativeToMedian. The result is
  the same.
- `FilterService.ComputeLimits`: Dms/FilterService.cs:1,39 takes `data.Median()`
  from the LinqStatistics package, not from `FloatArrayExt.Median`
  (Common/Extensions.cs:5-17), whose namespace that file does not import.
  LinqStatistics is not part of this model. The model uses `Extensions.Median`
  for both, which assumes the package also takes the middle of the sorted copy,
  or the mean of the two middles. Empty data never reaches the median, because
  Min and Max have already failed on it.
- Helper methods (`CompareSets`, `CompareRow`, `CompareCell`, `TallyGroup`,
  `TallyCross`, `TallyInner`, `StandardizeRow`, `GradientRow`, `ComputeRow`,
  `ComputeCell`) are loop bodies of the source's methods, split out for the
  proofs.
- The mutable `Algorithm` object is an `Algorithms.Algorithm` class holding
  its kind and the `_isDataRectified` flag; the batch runner refers to
  algorithms by kind.
- The content-adaptive crop in `DataProcessing.Crop` is commented out in the
  source and is not modelled.
- The spreadsheet layout constants and `PrintTarget` are output formatting.

## Findings

| source | as written | input that shows it | evidently intended | confidence | as-written member | corrected member |
|---|---|---|---|---|---|---|
| Algorithms/Sorensen.cs:21 | the rectified branch assigns `denominator = data1[i] + data2[i]` instead of adding to it, so only the last counted position's total divides the summed numerator | rectified, a = [1, 1], b = [0, 0]: the result is 2 / 1 = 2, outside the metric's range [0, 1] | `denominator += data1[i] + data2[i]`, as in the unrectified branch, giving 2 / 2 = 1 | high, not executed | `Sorensen.DistanceAsWritten`, `Sorensen.AsWrittenLeavesUnitRange` | `Sorensen.DistanceInUnitRange` |

The pipeline (`Algorithms.Hook` and `Algorithms.ComputeHook`) runs Sorensen as
written, and the pipeline lemmas use the as-written identity and symmetry
(`Sorensen.AsWrittenIdentical`, `Sorensen.AsWrittenSymmetric`).
`Sorensen.Distance` is the corrected definition, and `Sorensen.DistanceInUnitRange`
proves the intended bound about it.
