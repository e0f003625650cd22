# PORE_FACTOR in Dafny

PORE_FACTOR is a set of interactive Python scripts for measuring pores in
micrographs. This project models their core behaviour in Dafny and proves
properties of it:

- **Edge-based segmentation.** Two variants with sliders: the `PoreAnalyzer`
  class and an older script. Slider values go through kernel normalisation
  (`max(3, int(k) | 1)`). The OpenCV stages produce external contours. A
  guarded loop keeps the contours that are large enough
  (`area > min_area`) and round enough (`circularity >= min_circ`). For each
  kept contour it stores the perimeter, the area, the circularity `4πA/P²`
  and the pore factor `P²/(16A)`, and it fills that contour into the output
  mask.
- **Manual polygon tools.** Two variants. Clicks add vertices and a right
  click closes a shape. Saving turns each shape into a record: perimeter,
  area and pore factor. The class-based tool first undoes the display
  resize factor.
- **Pixel calibrators.** Two variants. The user clicks two points and saves.
  The tool records the pixel distance for the current image and moves on.

The modules follow the sources:

| file | module | models |
|---|---|---|
| wrappers.dfy | `Wrappers` | `Option`, `Result`, and `Outcome` (a GUI callback ran to its end, or raised part-way) |
| geometry.dfy | `Geometry` | points, circularity, pore factor, Euclidean distance, shoelace area and ring length |
| kernel.dfy | `Kernel` | Python `int()` truncation, `n \| 1`, kernel normalisation |
| filenames.dfy | `FileNames` | `str.lower`, `str.endswith`, pathlib `suffix`/`stem`, `os.path.splitext`, `sorted()` on names |
| contours.dfy | `Contours` | the abstract OpenCV stages and the contour measures they report |
| pore_analyzer.dfy | `PoreAnalyzerTool` | 2_OPUS25_PORE_FACTOR_CANNY.py |
| canny_script.dfy | `CannyScript` | 2_PORE_FACTOR_CANNY.py |
| manual_segmenter.dfy | `ManualSegmenterTool` | 3_OPUS25_PORE_FACTOR_DRAW.py |
| draw_script.dfy | `DrawScript` | 4_OPUS25_PORE_FACTOR_DRAW.py |
| pixel_calibrator.dfy | `PixelCalibratorTool` | 0_OPUS25_PORE_FACTOR_SCALE.py |
| scale_script.dfy | `ScaleScript` | 3_OPUS25_PORE_FACTOR_SCALE.py |

How the outside world is represented:

- **OpenCV.** An `Image` is a function from the normalised stage settings to
  the sequence of contours that blur, Canny, threshold, dilation,
  `findContours` and `approxPolyDP` yield. Each contour carries three
  non-negative reals: the raw arc length, the approximated area and the
  approximated arc length. The mask is modelled as the list of positions of
  the contours drawn filled into it, in drawing order.
- **Square roots.** Lengths and distances need a square root, which Dafny
  cannot compute on reals. It is a parameter `sqrt`. The predicate
  `Geometry.IsSqrt` says when that parameter is the real square root.
- **Files.** Reading is a parameter function: `load` returns the image or
  `None`, and `readable`/`openable` say whether a file can be read. Every
  write is recorded in a ghost field. That is a map from output name to
  content, or the list of spreadsheets written, in order.
- **Windows.** Everything the user does in a window is a sequence of events
  that the run methods take as input. One click is one handler call.
- **Exceptions.** matplotlib prints an exception raised inside a callback and
  the session goes on. A callback model therefore returns `Raised(...)` and
  leaves the state as it was at the point of the raise. An exception outside
  a callback ends the script. For example, PIL fails to open an image inside
  a run loop. The run methods then return `false`, or set `crashed`.

Two facts about the code are easy to get wrong:

- The pore factor `P²/(16A)` is π/4 for a circle and 1 for a square
  (`Geometry.UnitCircleMetrics`, `Geometry.UnitSquareMetrics`).
- Kernel settings are truncated by `int()`, not rounded, so 5.9 gives 5
  (`Kernel.KernelSizeTruncates`).

## Model

| member | source | states |
|---|---|---|
| Geometry.Circularity | 2_OPUS25_PORE_FACTOR_CANNY.py:116 | 4πA/P² is positive for a positive area |
| Geometry.PoreFactor | 2_OPUS25_PORE_FACTOR_CANNY.py:121 | P²/(16A) is non-negative for a positive area and 0 for a zero perimeter |
| Geometry.CircularityTimesPoreFactor | 2_OPUS25_PORE_FACTOR_CANNY.py:116-121 | circularity × pore factor = π/4 exactly, for every non-zero P and A |
| Geometry.PoreFactorScaleInvariant | 3_OPUS25_PORE_FACTOR_DRAW.py:125-129 | dividing P by r and A by r² keeps the divided area non-zero and leaves the pore factor unchanged |
| Geometry.PoreFactorQuarterScale | 4_OPUS25_PORE_FACTOR_DRAW.py:115-119 | shrinking lengths to a quarter (areas to 1/16) leaves the pore factor unchanged |
| Geometry.UnitCircleMetrics | 2_OPUS25_PORE_FACTOR_CANNY.py:116-121 | the unit circle has circularity 1 and pore factor π/4 |
| Geometry.UnitSquareMetrics | 2_OPUS25_PORE_FACTOR_CANNY.py:116-121 | the unit square has pore factor 1 and circularity π/4 |
| Geometry.SquaredDistance | 0_OPUS25_PORE_FACTOR_SCALE.py:157 | the squared distance of two points is non-negative |
| Geometry.DistanceSymmetric | 0_OPUS25_PORE_FACTOR_SCALE.py:156-157 | the distance does not depend on which point came first |
| Geometry.DistanceNonNegative | 0_OPUS25_PORE_FACTOR_SCALE.py:157 | with a real square root, a distance is never negative |
| Geometry.PolygonArea | 3_OPUS25_PORE_FACTOR_DRAW.py:124-126 | the area of a ring (absolute shoelace sum, halved) is non-negative |
| Geometry.PolygonLength | 3_OPUS25_PORE_FACTOR_DRAW.py:124-125 | with a real square root, the length of a ring is non-negative |
| Kernel.Trunc | 2_OPUS25_PORE_FACTOR_CANNY.py:85-87 | int() truncates toward zero: for v ≥ 0 the result is within 1 below v, for v < 0 within 1 above |
| Kernel.OrOne | 2_OPUS25_PORE_FACTOR_CANNY.py:85-87 | `n \| 1` is odd, for negative n too |
| Kernel.OrOneCases | 2_OPUS25_PORE_FACTOR_CANNY.py:85-87 | `n \| 1` keeps an odd n and maps an even n to n+1 |
| Kernel.Normalize | 2_OPUS25_PORE_FACTOR_CANNY.py:85-87 | max(3, n \| 1) is odd and at least 3 for every integer n |
| Kernel.KernelSize | 2_OPUS25_PORE_FACTOR_CANNY.py:85-87 | every slider value gives an odd kernel of at least 3 |
| Kernel.NormalizeIsLeastOdd | 2_OPUS25_PORE_FACTOR_CANNY.py:85-87 | the normalised kernel is the least odd number that is ≥ 3 and ≥ n |
| Kernel.NormalizeIdempotent | 2_OPUS25_PORE_FACTOR_CANNY.py:85-87 | normalising twice equals normalising once |
| Kernel.KernelSizeOfOddSetting | 2_OPUS25_PORE_FACTOR_CANNY.py:85-87 | an odd integer setting of at least 3 is used unchanged |
| Kernel.KernelSizeTruncates | 2_OPUS25_PORE_FACTOR_CANNY.py:85-87 | 4.9 and 5.9 both give 5, 6.0 gives 7, and 0.0 and -2.5 give 3 |
| FileNames.LowerChar | 2_OPUS25_PORE_FACTOR_CANNY.py:33 | A–Z move to a–z, every other character is kept |
| FileNames.Lower | 2_OPUS25_PORE_FACTOR_CANNY.py:33 | lower-casing keeps the length and works character by character |
| FileNames.LowerIdempotent | 2_OPUS25_PORE_FACTOR_CANNY.py:33 | lower-casing twice equals lower-casing once |
| FileNames.LastIndexOf | 2_OPUS25_PORE_FACTOR_CANNY.py:33 | rfind returns the last position holding the character, or -1 if there is none |
| FileNames.StemAndSuffix | 2_OPUS25_PORE_FACTOR_CANNY.py:129 | stem + suffix is the name; a suffix is empty, or a dot with at least one more character and no second dot |
| FileNames.SplitExt | 2_PORE_FACTOR_CANNY.py:97 | root + extension is the name; a non-empty extension starts at the last dot, holds no other dot, and has a non-dot character before it; an empty one means there is no dot, or only dots before the last one |
| FileNames.SplitExtTrailingDot | 2_PORE_FACTOR_CANNY.py:97 | splitext("a.") is ("a", "."), while pathlib gives "a." no suffix |
| FileNames.AtMostReflexive | 2_OPUS25_PORE_FACTOR_CANNY.py:33 | the code-point order on names is reflexive |
| FileNames.AtMostTotal | 2_OPUS25_PORE_FACTOR_CANNY.py:33 | any two names are ordered one way or the other |
| FileNames.AtMostAntisymmetric | 2_OPUS25_PORE_FACTOR_CANNY.py:33 | names ordered both ways are equal |
| FileNames.AtMostTransitive | 2_OPUS25_PORE_FACTOR_CANNY.py:33 | the order is transitive |
| FileNames.Insert | 2_OPUS25_PORE_FACTOR_CANNY.py:33 | inserting into a sorted list keeps it sorted and adds exactly that element |
| FileNames.Sort | 2_OPUS25_PORE_FACTOR_CANNY.py:33 | sorted() returns a sorted permutation of its input |
| FileNames.SortedPermutationUnique | 2_OPUS25_PORE_FACTOR_CANNY.py:33 | two sorted permutations of the same names are equal |
| FileNames.SortKeepsNames | 2_OPUS25_PORE_FACTOR_CANNY.py:33 | sorting keeps exactly the names given, and is empty only for an empty input |
| FileNames.SortIgnoresListingOrder | 0_OPUS25_PORE_FACTOR_SCALE.py:49-51 | the sorted file list does not depend on the order of the directory listing |
| FileNames.FilterEndsWith | 2_PORE_FACTOR_CANNY.py:12 | keeps exactly the listed names whose lower-cased form ends with one of the suffixes |
| FileNames.FilterEndsWithAppend | 2_PORE_FACTOR_CANNY.py:12 | the filter keeps listing order: filtering a concatenation concatenates the filtered parts |
| FileNames.FilterSuffixInAppend | 2_OPUS25_PORE_FACTOR_CANNY.py:33 | the suffix filter keeps listing order in the same sense |
| FileNames.FilterSuffixIn | 2_OPUS25_PORE_FACTOR_CANNY.py:33 | keeps exactly the listed names whose lower-cased pathlib suffix is one of the given ones |
| PoreAnalyzerTool.Settings | 2_OPUS25_PORE_FACTOR_CANNY.py:85-96 | the stages get valid kernels (odd, ≥ 3), the normalised kernel sizes and the truncated Canny thresholds |
| PoreAnalyzerTool.DefaultSettings | 2_OPUS25_PORE_FACTOR_CANNY.py:188-196 | the default parameters reach the stages as kernels 5, 5 and 3 and Canny thresholds 10 and 50 |
| PoreAnalyzerTool.Measure | 2_OPUS25_PORE_FACTOR_CANNY.py:113-122 | a stored tuple takes P and A from the approximated polygon, both positive, with circularity × pore factor = π/4 |
| PoreAnalyzerTool.Accepted | 2_OPUS25_PORE_FACTOR_CANNY.py:103-122 | at most one object per contour; every object has P > 0, A > min_area, circularity ≥ min_circ and circularity × pore factor = π/4 |
| PoreAnalyzerTool.AcceptedIndices | 2_OPUS25_PORE_FACTOR_CANNY.py:100-119 | at most one fill per contour, each at a valid position |
| PoreAnalyzerTool.AcceptedMatchesIndices | 2_OPUS25_PORE_FACTOR_CANNY.py:118-122 | a contour is filled exactly when its tuple is appended: the k-th object measures the k-th filled contour |
| PoreAnalyzerTool.AcceptedIndicesExact | 2_OPUS25_PORE_FACTOR_CANNY.py:103-119 | the filled positions increase strictly and are exactly the contours that pass all three guards and the filter |
| PoreAnalyzerTool.AcceptedShrinksWithThresholds | 2_OPUS25_PORE_FACTOR_CANNY.py:118 | raising min_area or min_circ keeps only contours that were kept before |
| PoreAnalyzerTool.AcceptedCountMonotone | 2_OPUS25_PORE_FACTOR_CANNY.py:118 | raising min_area or min_circ never increases the number of objects |
| PoreAnalyzerTool.FilterContours | 2_OPUS25_PORE_FACTOR_CANNY.py:100-124 | the loop returns exactly the accepted objects and fills exactly the accepted contours, in contour order |
| PoreAnalyzerTool.TagRows | 2_OPUS25_PORE_FACTOR_CANNY.py:137-141 | one spreadsheet row per object, in order, each prefixed with the file name |
| PoreAnalyzerTool.DiscoverImages | 2_OPUS25_PORE_FACTOR_CANNY.py:32-36 | fails exactly when no name has a supported suffix; otherwise the supported names, sorted, and no others |
| PoreAnalyzerTool.Readable | 2_OPUS25_PORE_FACTOR_CANNY.py:50-56 | the readable files, and no others |
| PoreAnalyzerTool.PoreAnalyzer.constructor | 2_OPUS25_PORE_FACTOR_CANNY.py:21-45 | the sorted discovered images, nothing written yet |
| PoreAnalyzerTool.PoreAnalyzer.UpdatePlot | 2_OPUS25_PORE_FACTOR_CANNY.py:70-80 | the mask and the object list are recomputed from the current image and the slider values; nothing else changes |
| PoreAnalyzerTool.PoreAnalyzer.SaveAndClose | 2_OPUS25_PORE_FACTOR_CANNY.py:126-146 | `<stem>_processed.png` always gets the mask; `<stem>_data.xlsx` gets the tagged rows only when there are objects |
| PoreAnalyzerTool.PoreAnalyzer.Interact | 2_OPUS25_PORE_FACTOR_CANNY.py:60-67 | only the two output names of the current image can be written |
| PoreAnalyzerTool.PoreAnalyzer.Run | 2_OPUS25_PORE_FACTOR_CANNY.py:47-58 | a window opens for exactly the readable files, in sorted order; unreadable ones are skipped |
| CannyScript.Settings | 2_PORE_FACTOR_CANNY.py:44-63 | Gaussian, median and dilation kernels are each normalised to an odd value ≥ 3 |
| CannyScript.ConsistentIsDivisible | 2_PORE_FACTOR_CANNY.py:82-87 | on contours OpenCV can produce, the circularity division cannot fail |
| CannyScript.Measure | 2_PORE_FACTOR_CANNY.py:85-90 | the stored triple is (P, A, P²/(16A)) with A > 0 and a non-negative pore factor |
| CannyScript.Kept | 2_PORE_FACTOR_CANNY.py:73-90 | at most one triple per contour; each has A > min_size, A ≠ 0, circularity ≥ min_circularity, pore factor P²/(16A) |
| CannyScript.KeptIndices | 2_PORE_FACTOR_CANNY.py:73-89 | at most one fill per contour, each at a valid position |
| CannyScript.KeptIndicesExact | 2_PORE_FACTOR_CANNY.py:73-89 | the filled positions increase strictly and are exactly the contours of non-zero area that pass both filters |
| CannyScript.KeptCountMonotone | 2_PORE_FACTOR_CANNY.py:88 | raising min_size or min_circularity never increases the number of triples |
| CannyScript.AgreesWithAnalyzer | 2_PORE_FACTOR_CANNY.py:73-90 | on OpenCV-consistent contours the older loop fills the same contours as the newer one and stores the same P, A and pore factor |
| CannyScript.ProcessContours | 2_PORE_FACTOR_CANNY.py:69-92 | fails (ZeroDivisionError) exactly when some contour has non-zero area and zero perimeter; otherwise returns exactly the kept triples and fills |
| CannyScript.TagRows | 2_PORE_FACTOR_CANNY.py:102-104 | one row per triple, in order, tagged with the image file name |
| CannyScript.ListImages | 2_PORE_FACTOR_CANNY.py:12-16 | exactly the names with a listed extension, kept in listing order by `FileNames.FilterEndsWith`; the script ends when there is none |
| CannyScript.SameBaseSamePaths | 2_PORE_FACTOR_CANNY.py:97-102 | an example collision: a.png and a.bmp write the same two files |
| CannyScript.OutputPathsFollowBaseName | 2_PORE_FACTOR_CANNY.py:97-102 | two images share their mask path, and likewise their table path, exactly when their splitext roots agree |
| CannyScript.TruncIdempotent | 2_PORE_FACTOR_CANNY.py:113-117 | an int()-truncated slider value gives the same kernel as the raw value |
| CannyScript.UpdateArguments | 2_PORE_FACTOR_CANNY.py:111-122 | update passes min size truncated by int(), and the stage settings are those of the raw sliders |
| CannyScript.Script.constructor | 2_PORE_FACTOR_CANNY.py:23-31 | the initial parameters; no image, nothing written |
| CannyScript.Script.SaveResults | 2_PORE_FACTOR_CANNY.py:95-107 | mask and spreadsheet are written every time, the spreadsheet even with no rows; nothing else changes |
| CannyScript.Script.ProcessAndSave | 2_PORE_FACTOR_CANNY.py:148-154 | success: the kept triples and fills, both files rewritten; a ZeroDivisionError: no change at all |
| CannyScript.Script.Update | 2_PORE_FACTOR_CANNY.py:110-130 | a slider move with min size and kernels truncated: the new triples, fills, mask and table when no contour divides by zero, otherwise no change |
| CannyScript.Script.RunAll | 2_PORE_FACTOR_CANNY.py:137-154 | the script crashes exactly when some readable image makes the initial processing divide by zero; otherwise exactly the readable images are processed, in listing order; after a crash, they are processed up to and including the first such image; every readable image before the first crash has its mask and its table written |
| CannyScript.Script.ProcessFile | 2_PORE_FACTOR_CANNY.py:137-154 | one file: processed exactly when readable, and raising exactly when its initial processing divides by zero; a readable file that does not raise gets its mask and table written; otherwise nothing is written; earlier outputs are kept |
| CannyScript.ConsistentImageNeverCrashes | 2_PORE_FACTOR_CANNY.py:81-88 | an image whose contours OpenCV could produce never makes the initial processing raise |
| ManualSegmenterTool.FullArea | 3_OPUS25_PORE_FACTOR_DRAW.py:126 | the full-resolution area is non-negative, and positive exactly when the displayed area is |
| ManualSegmenterTool.RecordOf | 3_OPUS25_PORE_FACTOR_DRAW.py:124-135 | a record exists exactly for a positive area; it carries the file name, and its pore factor is that of the displayed polygon |
| ManualSegmenterTool.Records | 3_OPUS25_PORE_FACTOR_DRAW.py:123-135 | at most one record per shape, in shape order; each tagged with the file name, area > 0 |
| ManualSegmenterTool.RecordsCount | 3_OPUS25_PORE_FACTOR_DRAW.py:128-135 | the number of records is the number of shapes of non-zero area |
| ManualSegmenterTool.RecordsPoreFactorsIndependentOfResize | 3_OPUS25_PORE_FACTOR_DRAW.py:125-129 | any two resize factors give the same number of records with the same pore factors |
| ManualSegmenterTool.DiscoverImages | 3_OPUS25_PORE_FACTOR_DRAW.py:37-41 | fails exactly when no name has a supported suffix; otherwise the supported names, sorted |
| ManualSegmenterTool.ManualSegmenter.constructor | 3_OPUS25_PORE_FACTOR_DRAW.py:26-51 | the sorted images, a positive resize factor, and empty state |
| ManualSegmenterTool.ManualSegmenter.OnClick | 3_OPUS25_PORE_FACTOR_DRAW.py:95-109 | no change outside the axes; a left click appends one point; a right click with ≥ 3 points stores them plus the first again and empties the points; otherwise no change |
| ManualSegmenterTool.ManualSegmenter.ClearShapes | 3_OPUS25_PORE_FACTOR_DRAW.py:111-116 | shapes and points are emptied; the collected records are untouched |
| ManualSegmenterTool.ManualSegmenter.SaveAndClose | 3_OPUS25_PORE_FACTOR_DRAW.py:118-143 | the records of the current shapes are appended, in order; the annotated image is saved |
| ManualSegmenterTool.ManualSegmenter.ExportResults | 3_OPUS25_PORE_FACTOR_DRAW.py:186-197 | no write when there are no records, otherwise all records once |
| ManualSegmenterTool.ManualSegmenter.ProcessImage | 3_OPUS25_PORE_FACTOR_DRAW.py:63-79 | the points and shapes are emptied before any event, so with no events nothing else changes; records only grow, and every new one is tagged with this image's name |
| ManualSegmenterTool.ManualSegmenter.Run | 3_OPUS25_PORE_FACTOR_DRAW.py:53-61 | completes exactly when every image opens; then one export (none if no records); an unopenable image means no export; every record names one of the images |
| DrawScript.ShapeOf | 4_OPUS25_PORE_FACTOR_DRAW.py:39-51 | ValueError for fewer than 4 ring coordinates, ZeroDivisionError for zero area, otherwise a record of the display-scale P, A and P²/(16A) |
| DrawScript.DisplayScalePoreFactor | 4_OPUS25_PORE_FACTOR_DRAW.py:115-119 | display-scale coordinates give the full-scale pore factor but not the full-scale area |
| DrawScript.ImageFiles | 4_OPUS25_PORE_FACTOR_DRAW.py:145 | keeps the names ending in .png, .jpg or .jpeg in any case, and no others |
| DrawScript.DrawSession.constructor | 4_OPUS25_PORE_FACTOR_DRAW.py:11-15 | no points, not drawing, no records |
| DrawScript.DrawSession.OnClick | 4_OPUS25_PORE_FACTOR_DRAW.py:18-63 | left: restart when not drawing, then append; right while drawing with ≥ 2 points: close, then one record, an Excel rewrite and drawing off, or the shapely/division error with drawing still on; otherwise no change |
| DrawScript.DrawSession.DrawOnImage | 4_OPUS25_PORE_FACTOR_DRAW.py:102-137 | only the file name is set; the points, the drawing flag and the records carry over |
| DrawScript.DrawSession.ExportToExcel | 4_OPUS25_PORE_FACTOR_DRAW.py:157-163 | the whole record list is written, even when empty |
| DrawScript.DrawSession.Run | 4_OPUS25_PORE_FACTOR_DRAW.py:140-179 | completes exactly when every listed image opens, ending with an export of all records; records only grow |
| PixelCalibratorTool.Discover | 0_OPUS25_PORE_FACTOR_SCALE.py:37-53 | a missing directory fails; otherwise fails exactly when no name matches; else the matching names, sorted |
| PixelCalibratorTool.DotlessExtensionsMatch | 0_OPUS25_PORE_FACTOR_SCALE.py:49-51 | "notajpg" and "motif" are taken for images, "notapng" is not |
| PixelCalibratorTool.NextReadable | 0_OPUS25_PORE_FACTOR_SCALE.py:89-104 | the first readable position at or after i, or the end; everything skipped is unreadable |
| PixelCalibratorTool.PixelCalibrator.constructor | 0_OPUS25_PORE_FACTOR_SCALE.py:37-59 | once the directory checks pass, the files are exactly those `Discover` finds; index 0, no points, define mode off, no results |
| PixelCalibratorTool.PixelCalibrator.LoadNextImage | 0_OPUS25_PORE_FACTOR_SCALE.py:89-115 | moves to the next readable image (the recursion terminates); closes past the end; a load clears the points and define mode |
| PixelCalibratorTool.PixelCalibrator.OnClick | 0_OPUS25_PORE_FACTOR_SCALE.py:134-141 | a point is added only in define mode, over the image, with fewer than 2 points; never more than 2 |
| PixelCalibratorTool.PixelCalibrator.ActivateDefineMode | 0_OPUS25_PORE_FACTOR_SCALE.py:143-148 | define mode on, points cleared |
| PixelCalibratorTool.PixelCalibrator.SaveToExcel | 0_OPUS25_PORE_FACTOR_SCALE.py:167-179 | no write for no results; a successful write holds the whole list; a failed write changes nothing |
| PixelCalibratorTool.PixelCalibrator.SaveAndNext | 0_OPUS25_PORE_FACTOR_SCALE.py:150-165 | no state change without exactly 2 points; otherwise one row (current file, distance), a rewrite, and the next readable image with the points cleared and define mode off, or the window closed; saved indices strictly increase |
| PixelCalibratorTool.PixelCalibrator.Run | 0_OPUS25_PORE_FACTOR_SCALE.py:70-74 | the session starts at the first readable image |
| PixelCalibratorTool.RecordedDistance | 0_OPUS25_PORE_FACTOR_SCALE.py:156-157 | a recorded distance is non-negative and symmetric in the two points |
| ScaleScript.ScaleSession.constructor | 3_OPUS25_PORE_FACTOR_SCALE.py:11-18 | no points, define off, index 0, no results |
| ScaleScript.ScaleSession.ProcessImage | 3_OPUS25_PORE_FACTOR_SCALE.py:122-155 | the file name is set first; an unreadable file keeps the points, the flag and the index; a readable one clears the points and turns define off |
| ScaleScript.ScaleSession.ProcessImages | 3_OPUS25_PORE_FACTOR_SCALE.py:115-120 | the matching names, sorted; the window appears exactly when the first one is readable |
| ScaleScript.ScaleSession.LoadNextImage | 3_OPUS25_PORE_FACTOR_SCALE.py:105-113 | the index moves on before the bounds check; past the end the window closes |
| ScaleScript.ScaleSession.SelectPoints | 3_OPUS25_PORE_FACTOR_SCALE.py:62-70 | a point is added only in define mode with fewer than 2; redrawing two points raises on an unreadable image or a point without coordinates |
| ScaleScript.ScaleSession.SaveToExcel | 3_OPUS25_PORE_FACTOR_SCALE.py:97-103 | no write for no results, otherwise the whole list |
| ScaleScript.ScaleSession.SavePoint | 3_OPUS25_PORE_FACTOR_SCALE.py:72-95 | no state change without 2 points that have coordinates; otherwise one row (file name, distance) and the points cleared; on a readable image, the rewrite and the next image (its name and readability, define mode off if it loads) or the window closed; on an unreadable one, nothing more |
| ScaleScript.ScaleSession.SetDefinePointActive | 3_OPUS25_PORE_FACTOR_SCALE.py:157-160 | the flag takes the given state; nothing else changes |
| ScaleScript.StallAfterUnreadable | 3_OPUS25_PORE_FACTOR_SCALE.py:72-95 | on an unreadable image a complete save adds a row for that file but neither writes nor moves on |

## Left out

- OpenCV is abstract: blur, Canny, threshold, dilation, findContours,
  approxPolyDP, arcLength, contourArea and drawContours. Their only trace is
  the contours an image yields under given settings. The mask is only the
  list of filled contour positions.
- Floating point is left out: reals replace floats, and π is numpy's value
  as an exact real constant. Nothing is said about rounding.
- Square roots are a parameter. No lemma relates lengths computed at two
  scales, because the solver cannot prove those nonlinear identities. The
  scale-freeness of the pore factor is stated on the measures themselves
  instead.
- Geometry.Circularity: its contract gives the sign of the value only, not
  the value. The value appears in the product lemma and in the unit-shape
  lemmas.
- ManualSegmenterTool.FullArea: the source divides the area by `r ** 2`.
  The model divides by r twice, which is the same over the reals.
- matplotlib rendering, widgets, slider ranges and steps, `plt.show`
  blocking and event wiring are left out. In 2_PORE_FACTOR_CANNY.py the one
  figure is reused across images; in 3_OPUS25_PORE_FACTOR_SCALE.py the click
  handler is connected once more per image. Neither is modelled: one click
  is one handler call.
- Zoom and scroll handlers are display-only arithmetic and are left out
  (3_OPUS25_PORE_FACTOR_DRAW.py:165-184, 4_OPUS25_PORE_FACTOR_DRAW.py:66-99).
- File I/O is left out: imread, imwrite, PIL open and resize, listdir,
  mkdir, to_excel and date-stamped names. Reads are parameters and writes
  are ghost records.
- ScaleScript.ScaleSession.SaveToExcel: the write always succeeds. The
  source has no handler here, so a failed write would end the callback
  before the next image.
- DrawScript.DrawSession.OnClick: clicks carry coordinates. A click outside
  the axes, whose coordinates are None, is not modelled, because what
  shapely does with None coordinates depends on its version.
- The resize of the display copy and its `int()` dimensions are left out.
  ManualSegmenterTool.ManualSegmenter.constructor requires a positive resize
  factor, because PIL refuses a zero or negative size before any state
  changes.
- PoreAnalyzerTool.PoreAnalyzer.Interact: its contract only bounds which
  files can be written. UpdatePlot and SaveAndClose state each step exactly.
- ManualSegmenterTool.ManualSegmenter.ProcessImage: its contract states the
  reset, that records only grow, and that every new record carries the
  image's name. It does not say which records an event sequence adds.
  SaveAndClose states the appended records exactly.
- DrawScript.DrawSession.DrawOnImage: its contract states that the file name
  is set and that records and writes only grow. OnClick states each click
  exactly.
- PixelCalibratorTool.PixelCalibrator event methods require an open window.
  After the last image the window is closed and no callback can run.
- ScaleScript.ScaleSession event methods require that the window has been
  shown. The handlers are connected only after the first readable image,
  which needs no separate modelling.
- The background removers (1_BACKGROUND_REMOVER.py and
  1_OPUS25_PORE_FACTOR_BACKGROUND_REMOVER.py) only call an external model
  in a file loop. They are not part of this model.
- argparse `main` functions are left out. The defaults of
  2_OPUS25_PORE_FACTOR_CANNY.py are the constant
  `PoreAnalyzerTool.Defaults`.
- 2_PORE_FACTOR_CANNY.py:23-40 leaves the initial values and slider bounds
  blank. The model takes them as inputs (`CannyScript.Script.initial`).
- `str.lower` is modelled on ASCII letters only.
