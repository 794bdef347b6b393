# Verified model of the sensor bridge's example applications

The example applications of the sensor bridge process camera frames, drive GPIO pins, account for
streams of records and lay out a viewer; its expression evaluator compiles arithmetic expressions to
CUDA. This project models the algorithms in them that carry real invariants and proves what those algorithms promise, for every input, every run or every
interleaving. `dafny verify dfyconfig.toml` checks the whole project.

| module | what it models |
|---|---|
| `Options`, `TensorOps`, `Division`, `Statistics` | optional values, the array operations, quotients, and `min`/`max`/`sum` the programs rely on |
| `Boxes`, `Pixels`, `Ranking` | box geometry and intersection over union; what it counts; `argsort` |
| `Suppression`, `SuppressionLaws` | greedy non-max suppression: loop, simple form, kernel, and its laws |
| `BodyPose`, `PeopleNet` | the two detection post-processors, from model output to emitted tensors |
| `Colorize`, `ColorizeThreads` | the colouring kernel, thread by thread and with all threads interleaved |
| `GpioBoard`, `GpioSweep` | the GPIO registers and the pin-by-pin configuration sweep |
| `MultiViewer` | the viewer's grid and tiles |
| `LatencyAnalysis` | the VB1940 latency report and its dropped-frame count |
| `FrameValidation` | the CRC chain from profiler to monitor to validator |
| `EventPairing` | pairing of GPIO start and end events |
| `CrcReport` | the PVA CRC summary and latency report |
| `MacAddress` | the C++ and the Python MAC address parsers |
| `ExpressionTokens`, `ExpressionNumbers` | the expression tokenizer; number literals, read and printed |
| `ExpressionGrammar`, `ExpressionMeaning`, `ExpressionParser` | the grammar of expressions; what they mean; the recursive-descent compiler |

## Assumptions

- Floating-point values are reals: no rounding, NaN or infinity. A division by zero that numpy would
  turn into infinity or NaN occurs in one modelled place, the IoU of boxes whose union is zero; such
  a box is pruned, as both values compare false (`Boxes.IouBelow`).
- `argsort` is a stable ascending sort, so equal scores keep the order of their positions.
- `math.sqrt` is exact, so `int(math.sqrt(n))` is the integer square root.
- An output pin's status bit reads the level its output bit drives.
- `std::getline` and `operator>>` behave as in libstdc++: leading whitespace is skipped, a sign is
  accepted and a negative value wraps to sixteen bits, characters after the digits are not looked at,
  and a bare `0x` fails.
- Python's `round` rounds the real value half to even.
- `std::stof` fails exactly for a literal without digits; `<<` prints six significant digits, and a
  value between two of these as the even one.
- CRC values are taken as given; the checksum algorithms are not modelled.

## What turned out different from what one might expect

- Both suppression functions start by testing `len(boxes) == 0`. The array has four rows, so the test
  never holds; with no detections the loop simply makes no trip.
- `grid_dims` has a loop that lowers the row count. It never runs a trip: the rows are always the
  integer square root (`MultiViewer.LowerRows`).
- During a GPIO step a pin can be driven low outside the all-low and all-high sweeps, although after
  every step it is as configured. The direction is set before the value, and a value write copies
  sampled input levels of the whole 32-pin register into the output bits. `GpioSweep.MidStepLow`
  gives the exact condition on the sampled levels: in the odd and even sweeps the sample two steps
  before decides, as long as that step was in the same register; the first odd pin of a register is
  never low; the first pin of a register in the even sweep depends on the sample taken by the
  register's last odd pin in the sweep before. `GpioSweep.MidStepLowInOddSweep` and
  `GpioSweep.MidStepLowInEvenSweep` give runs.
- The validator only reports increases of the error count, so a CRC mismatch in the very first frame
  is not reported: the reports number the recorded mismatches if and only if the first frame is none
  (`FrameValidation.ReportsNumberMismatches`; a run: `FrameValidation.FirstMismatchUnreported`).
- The dropped-frame count is exact if and only if no gap exceeds 65536 frames
  (`LatencyAnalysis.DroppedRefinesMissing`; a gap that is too long: `LatencyAnalysis.LongGapUncounted`).
- Suppressing an already suppressed result keeps its detections, but keeps their order if and only if
  no two kept scores tie (`SuppressionLaws.KeepIdempotent`; a tie: `SuppressionLaws.TiedPairExists`).
- The C++ MAC parser announces that each byte must be two hex digits, but also accepts a hex digit
  followed by something else, and a space or sign before a hex digit. An accepted string breaks the
  promise if and only if it has such a token (`MacAddress.AcceptedBeyondHex`; a string:
  `MacAddress.LooseStringAccepted`), and the Python decoder agrees exactly on the others
  (`MacAddress.ParsersAgree`).
- The PVA summary announces success whenever it counts no errors. The announcement agrees with the
  success rate if and only if more than twenty frames were captured (`CrcReport.Summarize`); a single
  mismatching frame is announced as a success at a rate of 0 (`CrcReport.OneBadFrameAnnounced`).
- The expression grammar written in `expr_eval.cuh` has no function calls; the parser accepts them, and
  the model follows the parser. A leading minus applies to the first term there, but to the first
  factor in the C code emitted; this makes no difference as long as a minus can be moved out of products
  and quotients (`ExpressionParser.MeaningKept`).
- A number literal is emitted with six significant digits unless it is whole. It keeps its value if and
  only if it has only zeros after the point or after the sixth significant digit
  (`ExpressionNumbers.LiteralKept`; one that does not: `ExpressionNumbers.LiteralRounded`).

## Model

| member | source | states |
|---|---|---|
| TensorOps.Where | examples/body_pose_estimation.py:311-311 | lists the true positions of a mask, all of them, ascending |
| TensorOps.FlattenAt | examples/distributed_tao_peoplenet.py:210-218 | flattening a matrix puts row i, column j at position w*i + j |
| Boxes.IouIsSimilarity | examples/body_pose_estimation.py:276-308 | for boxes of non-negative size the IoU is in [0, 1], symmetric, 1 exactly for equal boxes, and decides the threshold test |
| Pixels.IouCountsPixels | examples/body_pose_estimation.py:276-308 | for boxes with whole corners the IoU is the number of pixels both cover over the number either covers |
| Boxes.OverlapBounds | examples/body_pose_estimation.py:276-307 | the overlap is at most either area, and areas and union are at least 1 |
| Boxes.IouBelowSymmetric | examples/body_pose_estimation.py:298-311 | the threshold test does not depend on which box is kept, for any two boxes at all |
| Boxes.UnionIs | examples/body_pose_estimation.py:276-307 | overlap and union of any two boxes from their coordinates, a box being a pixel more across than the distance of its edges |
| Boxes.IouBelowIs | examples/body_pose_estimation.py:298-311 | the threshold test without its division, for any two boxes: below the threshold times a positive union, above it for a negative one, never for none |
| Boxes.CornerPointsAt | examples/body_pose_estimation.py:240-241 | reshaping box rows of four into rows of two puts box k's corners at rows 2k and 2k+1 |
| Ranking.ArgSort | examples/body_pose_estimation.py:279-280 | lists every position once, ascending by score and then by position |
| Ranking.ArgSortAscends | examples/body_pose_estimation.py:279-280 | listed positions ascend in score, and equal scores in position |
| Ranking.RankedUnique | examples/body_pose_estimation.py:279-280 | there is one ranked arrangement of a set of positions |
| Suppression.PruningRefinesScan | examples/body_pose_estimation.py:297-312 | pruning everything that overlaps a kept box does not change what a one-at-a-time accept scan keeps |
| Suppression.PruneStep | examples/body_pose_estimation.py:288-312 | one trip of the worklist loop keeps its invariant: what is left still completes to the scan's result |
| Suppression.ScanIsKernel | examples/body_pose_estimation.py:288-312 | the scan's result is a kernel of the ordered conflict relation, in descending rank |
| Suppression.KernelUnique | examples/body_pose_estimation.py:288-312 | a set with no internal conflict that beats everything left out is unique |
| Suppression.KeepIsTheKernel | examples/body_pose_estimation.py:251-314 | a sequence is the suppression result if and only if it descends in rank, is pairwise below the threshold, and holds for every rejected detection a better ranked one over the threshold |
| SuppressionLaws.FilterCommutes | examples/body_pose_estimation.py:169-171 | filtering by score and then suppressing gives the same detections in the same order as suppressing and then filtering |
| SuppressionLaws.ShownSeparate | examples/body_pose_estimation.py:162-314 | for any boxes: shown detections score above the threshold, descend in score and then in position, pass the overlap test pairwise, and every other one above the threshold fails it against a shown one of at least its score |
| SuppressionLaws.KeepIdempotent | examples/body_pose_estimation.py:251-338 | suppressing a result again keeps all of it, and its order exactly when no two kept scores are equal |
| SuppressionLaws.TiedPairReverses | examples/body_pose_estimation.py:279-314 | any two boxes that both stay with one score come out in the other order when suppressed again |
| SuppressionLaws.TiedPairExists | examples/body_pose_estimation.py:279-314 | one such pair |
| SuppressionLaws.KeptSeparated | examples/body_pose_estimation.py:162-314 | on boxes of non-negative size the shown detections descend in score and overlap pairwise below the threshold, and every other detection above the score threshold overlaps a shown one of at least its score by at least the threshold |
| SuppressionLaws.HighThresholdKeepsAll | examples/body_pose_estimation.py:310-312 | a threshold above 1 keeps every detection |
| SuppressionLaws.ThresholdOneDropsRepeats | examples/body_pose_estimation.py:310-312 | a threshold of 1 drops a detection exactly if an equal box ranks better |
| SuppressionLaws.LowThresholdKeepsBest | examples/body_pose_estimation.py:310-312 | a threshold of 0 or less keeps just the best ranked detection |
| BodyPose.SliceStart | examples/body_pose_estimation.py:98-115 | every keypoint slice lies in the 51 keypoint rows of a detection |
| BodyPose.SlicesTile | examples/body_pose_estimation.py:98-115 | in output order the slices are the first two rows of consecutive triples that fill the detection after the score |
| BodyPose.SidesAlternate | examples/body_pose_estimation.py:98-115 | the nose comes first, then each part left and right, from the eyes down to the ankles |
| BodyPose.BoneRows | examples/body_pose_estimation.py:136-208 | rows 36k to 36k+35 of the flat segments are the ends of the 18 bones of detection k, each given by its row of the detection; the neck is halfway between the shoulders |
| BodyPose.BuildSegments | examples/body_pose_estimation.py:185-208 | the loop builds one segment list per detection, in order |
| BodyPose.Select | examples/body_pose_estimation.py:279-314 | the worklist loop terminates, selects what the simple scan keeps in its order, and collects exactly the selected boxes and segments |
| BodyPose.Nms | examples/body_pose_estimation.py:251-338 | every output array holds the rows of the selected detections, in the same order |
| BodyPose.Decode | examples/body_pose_estimation.py:183-249 | row k of every emitted tensor comes from the k-th kept detection, divided by the image size |
| BodyPose.ColumnsTransposed | examples/body_pose_estimation.py:169-183 | selecting columns in every row and transposing gives the selected detections |
| BodyPose.ShownAfterFiltering | examples/body_pose_estimation.py:169-238 | the filtered suppression picks the columns that suppression over the whole frame keeps above the score threshold, and at least one if any passes |
| BodyPose.ShownColumns | examples/body_pose_estimation.py:162-249 | the shown columns in terms of row 4 of the model output and the decoded boxes |
| BodyPose.Compute | examples/body_pose_estimation.py:162-249 | for every model output the emitted tensors hold the corners, parts and bone ends of the same detections, best first, each computed from its row numbers and divided by the image size; without any score above the threshold, two zero points each |
| BodyPose.DecodedBox | examples/body_pose_estimation.py:211-213 | decoding yields the one box with the predicted centre and size; its corners are in order exactly when the size is not negative |
| PeopleNet.MaskedRowsAlign | examples/distributed_tao_peoplenet.py:210-218 | repeating the mask over four channels, masking the flattened tensor and reshaping to four rows gives each channel at the masked cells |
| PeopleNet.ReparameterizeAligns | examples/distributed_tao_peoplenet.py:181-220 | column j of the boxes and score j belong to the j-th passing cell in row-major order, for any grid size |
| PeopleNet.ChosenChannels | examples/distributed_tao_peoplenet.py:93-103 | label i reads the box and score channels of model class 2i |
| PeopleNet.Nms | examples/distributed_tao_peoplenet.py:120-179 | the second copy of the loop also selects what the simple scan keeps, with its scores |
| PeopleNet.DivideColumns | examples/distributed_tao_peoplenet.py:112-113 | dividing in place changes exactly the two named columns |
| PeopleNet.Normalize | examples/distributed_tao_peoplenet.py:112-113 | x coordinates are divided by the image width and y coordinates by its height |
| PeopleNet.Detect | examples/distributed_tao_peoplenet.py:99-115 | a label's points are the corners of the boxes of its shown cells, best first, or two zero points |
| PeopleNet.Compute | examples/distributed_tao_peoplenet.py:79-118 | person shows the suppression of class 0 and faces that of class 2, each over the whole grid and restricted to passing scores |
| PeopleNet.CellBoxAround | examples/distributed_tao_peoplenet.py:195-207 | a decoded box reaches the four scaled distances out from its cell's place, and has its corners in order exactly when they do not add up to less than nothing along an axis |
| PeopleNet.ShownCells | examples/distributed_tao_peoplenet.py:79-179 | the shown cells of a class in terms of its scores and decoded boxes |
| Colorize.GridCoversPixels | examples/colorizeOp.py:33-72 | the rounded-up grid has exactly one thread for every pixel |
| Colorize.BlendInRange | examples/colorizeOp.py:41-49 | with opacity in [0, 1] the sixteen-bit sum never wraps and stays between its operands, less one |
| Colorize.BlendIsMean | examples/colorizeOp.py:41-49 | the blended value is the weighted mean less under two; opacity 1 leaves the image, opacity 0 gives the tint |
| Colorize.BlendIsSum | examples/colorizeOp.py:41-49 | the blended value is the sum of both weighted operands, each truncated |
| Colorize.BlendedWords | examples/colorizeOp.py:41-49 | blending a whole buffer of sixteen-bit words gives sixteen-bit words, each tinted one between its old value and the tint, less one |
| Colorize.BlendedPixel | examples/colorizeOp.py:37-49 | channel c of pixel (x, y) is word 3 (y stride + x) + c, blended unless its tint is 0 |
| Colorize.UnblendedWord | examples/colorizeOp.py:37-49 | any word that is no channel of a pixel keeps its value |
| Colorize.WordCoordinates | examples/colorizeOp.py:37-49 | pixel channels and buffer words correspond one to one |
| Colorize.MakeRed | examples/colorizeOp.py:29-50 | a thread blends exactly the tinted words of its own pixel; past the edge it writes nothing |
| Colorize.Launch | examples/colorizeOp.py:57-87 | running all threads in any order gives the blended image, all writes in bounds and all values sixteen-bit words |
| Colorize.ColorizeOperator.constructor | examples/colorizeOp.py:94-119 | the opacity is clamped to [0, 1] |
| Colorize.ColorizeOperator.Configure | examples/colorizeOp.py:125-127 | resizes the image and keeps tint and opacity |
| Colorize.ColorizeOperator.Compute | examples/colorizeOp.py:129-149 | the operator blends a buffer of at least three words a pixel, and leaves what lies past the image |
| ColorizeThreads.RunSettles | examples/colorizeOp.py:29-50 | at every point of every interleaving of loads and stores, each word is its initial or its blended value and no load is stale |
| ColorizeThreads.InterleavingsAgree | examples/colorizeOp.py:29-87 | every interleaving that lets all threads finish ends with the blended image |
| GpioBoard.Gpio.SetDirection | src/hololink/core/hololink.cpp:2294-2323 | sets one direction bit, or refuses a pin the board lacks |
| GpioBoard.Gpio.SetValue | src/hololink/core/hololink.cpp:2340-2378 | rewrites the pin's register, or refuses a missing pin or an input and changes nothing |
| GpioSweep.RunFollows | examples/gpio_example_app.py:63-115 | after k steps the cursor is k mod N, the configuration (k div N) mod 5, pins below the cursor follow the current configuration and the others the previous one |
| GpioSweep.PinsAfter | examples/gpio_example_app.py:72-115 | direction and level of every pin after k steps, from k, the pin count and the pin alone |
| GpioSweep.RegisterParts | src/hololink/core/hololink.cpp:2297-2298 | a pin is bit p mod 32 of register p div 32 |
| GpioSweep.DrivenLow | examples/gpio_example_app.py:72-115 | after a step a pin is driven low exactly while the all-low sweep governs it, so only during the first two sweeps of a round |
| GpioSweep.MidStepLow | examples/gpio_example_app.py:78-101 | between its two register writes the step of sweep r and pin p drives the pin low if and only if it is in the all-high sweep or one named earlier sample of the pin was low |
| GpioSweep.MidStepOthers | examples/gpio_example_app.py:78-101 | between the two writes any other pin is driven low if and only if the all-low sweep governs it |
| GpioSweep.DecidingStepIsLastWrite | examples/gpio_example_app.py:78-101 | the deciding step is the last value write in the pin's register since the pin became an input; without one there was no such write |
| GpioSweep.MidStepLowInOddSweep | examples/gpio_example_app.py:89-94 | a run in which this happens in the odd sweep |
| GpioSweep.MidStepLowInEvenSweep | examples/gpio_example_app.py:96-101 | a run in which this happens in the even sweep |
| GpioSweep.RecentlySetFollows | examples/gpio_example_app.py:72-115 | the pin a step set follows that step's configuration for a whole sweep, so a lagging reader still sees it |
| GpioSweep.GpioSetOp.Setup | examples/gpio_example_app.py:63-70 | every pin ends as an output, high |
| GpioSweep.GpioSetOp.Compute | examples/gpio_example_app.py:72-115 | one call is one step of the state machine and reports the pin it changed; only a board without pins refuses, and is left as it is |
| GpioSweep.GpioGetOp.Compute | examples/gpio_example_app.py:138-149 | fails exactly for a pin the board lacks, otherwise reads an input's outside level or an output's driven level |
| GpioSweep.StepAndRead | examples/gpio_example_app.py:72-149 | after a step on a board that has pins the reader sees the direction the configuration asks for, and on an output its level |
| MultiViewer.LowerRows | examples/agx5_multiviewer.py:781-783 | the loop terminates and leaves the integer square root |
| MultiViewer.NearSquareGrid | examples/agx5_multiviewer.py:780-786 | the grid holds all tiles and no row or column is superfluous; columns equal rows exactly for square counts, are one more exactly for up to a row beyond a square, and two more otherwise |
| MultiViewer.GridDims | examples/agx5_multiviewer.py:780-786 | fails exactly for counts below one, otherwise returns such a grid and the window factors |
| MultiViewer.TilesPartition | examples/agx5_multiviewer.py:528-538 | tiles lie in the unit square, do not overlap, and use every row and column |
| MultiViewer.TilePlace | examples/agx5_multiviewer.py:528-538 | camera i has i mod cols tiles to its left and i div cols rows above, each tile a cols-th wide and a rows-th high |
| MultiViewer.TileKeepsAspect | examples/agx5_multiviewer.py:528-538 | at the chosen window size (lines 1028-1029), before truncation to whole pixels, a tile is a cols-th of the screen in both directions |
| LatencyAnalysis.DroppedRefinesMissing | examples/fusa_coe_vb1940_latency.py:250-256 | for increasing true indices the count is right modulo 65536, never too high, and exact if and only if no two consecutive records are more than 65536 apart |
| LatencyAnalysis.MissingCounts | examples/fusa_coe_vb1940_latency.py:250-256 | the missing frames are as many as the numbers between first and last index that are no index |
| LatencyAnalysis.LongGapUncounted | examples/fusa_coe_vb1940_latency.py:250-256 | a gap of 65537 frames, of which none is counted as dropped |
| LatencyAnalysis.AddGap | examples/fusa_coe_vb1940_latency.py:251-255 | the guarded update adds the gap modulo 65536 in every case |
| LatencyAnalysis.AddRecord | examples/fusa_coe_vb1940_latency.py:236-261 | one trip of the loop extends the tally by one record |
| LatencyAnalysis.FoldRecords | examples/fusa_coe_vb1940_latency.py:229-261 | the loop's lists, warnings and dropped count are those of the settled records |
| LatencyAnalysis.IntervalsTelescope | examples/fusa_coe_vb1940_latency.py:246-248 | the intervals add up to the time from first to last completion |
| LatencyAnalysis.AnalyzeLatency | examples/fusa_coe_vb1940_latency.py:218-279 | with at least 20 records the reported dropped frames are the missing ones exactly if no gap is too long, the lines hold least, greatest and mean of the three lists, the rate times the spanned time is the number of intervals, and the division fails exactly for a zero span |
| FrameValidation.SavedTime | examples/linux_imx274_frame_validation.py:100-174 | a time saved as seconds and nanoseconds and loaded back loses less than a nanosecond |
| FrameValidation.SavedParts | examples/linux_imx274_frame_validation.py:100-174 | a time is saved as its whole seconds and less than a second in nanoseconds |
| FrameValidation.LoadedNanoseconds | examples/linux_imx274_frame_validation.py:100-174 | and loaded as their sum |
| FrameValidation.InvertedComplements | examples/linux_imx274_frame_validation.py:218-223 | a calculated CRC is the inverted one if and only if it differs from the sent one in every bit |
| FrameValidation.LateSeconds | examples/linux_imx274_frame_validation.py:77-93 | a record is late if it is more than 0.0332 s after the one before |
| FrameValidation.Profiler.Compute | examples/linux_imx274_frame_validation.py:197-233 | counts a frame exactly if the sampling period divides its number and its CRC as sent is not the bitwise complement of the calculated one, and sends on the count, both sizes and the times |
| FrameValidation.ValidateFrame | examples/linux_imx274_frame_validation.py:33-97 | compares the last two records put, whatever the queue holds before them |
| FrameValidation.Compare | examples/linux_imx274_frame_validation.py:62-97 | a report is made if and only if it is a finding about the two records: not the next number, unequal sizes, more than 33.2 ms apart, more errors; one of each at most, in that order |
| FrameValidation.Recorder.RecordTimes | examples/linux_imx274_frame_validation.py:107-166 | appends one record of ten fields and logs its comparison with the one before |
| FrameValidation.RunOperators | examples/linux_imx274_frame_validation.py:197-257 | the two operators, run by any list of events, end in the state of the step-by-step pipeline |
| FrameValidation.RunAccounts | examples/linux_imx274_frame_validation.py:107-257 | in every interleaving of profiler and monitor, record k describes frame k and counts the sampled mismatches up to it |
| FrameValidation.MismatchesCount | examples/linux_imx274_frame_validation.py:207-223 | the counted mismatches are as many as there are positions of mismatching frames |
| FrameValidation.ProfilerSends | examples/linux_imx274_frame_validation.py:197-233 | the profiler sends on each frame with its own data, both sizes, and the mismatches up to it |
| FrameValidation.MonitorTakesOldest | examples/linux_imx274_frame_validation.py:236-257 | the monitor waits exactly while nothing is in flight or 30000 records are queued, and else records the oldest message |
| FrameValidation.EveryErrorReported | examples/linux_imx274_frame_validation.py:33-166 | the reported error counts are every number above the first recorded count up to the last, each once and in order |
| FrameValidation.ReportsNumberMismatches | examples/linux_imx274_frame_validation.py:95-97 | the reports number the recorded mismatches if and only if the first frame is no mismatch |
| FrameValidation.FirstMismatchUnreported | examples/linux_imx274_frame_validation.py:95-97 | a run whose only frame mismatches, is counted, and is not reported |
| EventPairing.LatestStart | examples/e2e_imx274_latency.py:43-50 | the last qualifying start, none after it |
| EventPairing.EventIs | examples/e2e_imx274_latency.py:43-61 | a start is state bit 18 alone on the first GPIO, an end bits 18 and 19 on the second; times are whole nanoseconds |
| EventPairing.PairsArePairing | examples/e2e_imx274_latency.py:43-61 | every qualifying end after a start is paired with the latest start before it, in order, and nothing else is |
| EventPairing.PairingUnique | examples/e2e_imx274_latency.py:43-61 | that description admits one list of pairs |
| EventPairing.AsyncEventPrinter.OnGpio0Event | examples/e2e_imx274_latency.py:43-50 | a start sets the pending time in nanoseconds, any other event changes nothing; the state is that of the event history with this event added |
| EventPairing.AsyncEventPrinter.OnGpio1Event | examples/e2e_imx274_latency.py:52-61 | an end after a start appends the pending time and its own, any other event changes nothing; the state is that of the event history with this event added |
| EventPairing.AsyncEventPrinter.Report | examples/e2e_imx274_latency.py:63-102 | reports exactly if more than 11 pairs were seen, over all but the first ten and the last, with least, mean and greatest in order |
| EventPairing.Summary | examples/e2e_imx274_latency.py:84-94 | least, mean and greatest of all but eleven deltas are in order, and least and greatest occur |
| EventPairing.AdvancingTimes | examples/e2e_imx274_latency.py:43-78 | if time never goes back no delta is negative and starts and ends are sorted |
| CrcReport.RecordMetadataOp.Compute | examples/imx274_pva_crc_validation.py:41-84 | passes the tensor on under its new name, appends the named values or nothing if one is missing, and while debugging notes the comparison of the first five frames and every twentieth |
| CrcReport.MissingIsZero | examples/imx274_pva_crc_validation.py:62-84 | in the debug comparison a missing value is 0 |
| CrcReport.Summarize | examples/imx274_pva_crc_validation.py:675-767 | for any frame count the errors are the mismatches outside the first and last ten, never more than the validated frames; the rate is 100 exactly if something was validated and nothing mismatched, and 0 if nothing was; success is announced exactly without errors, which agrees with the rate if and only if more than twenty frames were captured |
| CrcReport.BadFramesAre | examples/imx274_pva_crc_validation.py:692-705 | counted are the mismatches from the eleventh frame to the eleventh last |
| CrcReport.ShortRunAnnounced | examples/imx274_pva_crc_validation.py:692-715 | up to twenty frames that all mismatch are announced as a success at a rate of 0 |
| CrcReport.OneBadFrameAnnounced | examples/imx274_pva_crc_validation.py:692-715 | a single mismatching frame is |
| CrcReport.RoundedStages | examples/imx274_pva_crc_validation.py:807-820 | for one frame the rounded stages add up to the rounded whole within 0.0002 s |
| CrcReport.Round4IsNearest | examples/imx274_pva_crc_validation.py:807-820 | rounding gives the nearest multiple of 0.0001, between two the even one |
| CrcReport.StagesFollow | examples/imx274_pva_crc_validation.py:807-820 | each stage starts where the one before ends, from the start of the frame to its completion |
| CrcReport.AveragesAgree | examples/imx274_pva_crc_validation.py:807-870 | the average overall latency differs from the sum of the four stage averages by at most 0.0002 s |
| CrcReport.ReportLatency | examples/imx274_pva_crc_validation.py:776-870 | reports exactly from 100 records on, a row per stage over the records without the first and last five, with averages that add up to the overall one within 0.0002 s |
| Statistics.MeanBounds | examples/e2e_imx274_latency.py:92-94 | a mean lies between any bounds of its values |
| MacAddress.ParseMacAddress | examples/fusa_coe_imx274_player.cpp:32-59 | the first token the loop cannot take decides the exception, else the number of tokens does, else the bytes are those of the six tokens |
| MacAddress.HexDigits | examples/fusa_coe_imx274_player.cpp:46-48 | the value of each hex digit, in lower and in upper case, and that nothing else is one |
| MacAddress.SpaceCodes | examples/fusa_coe_imx274_player.cpp:46-48 | which characters are skipped as whitespace |
| MacAddress.ReadableTokens | examples/fusa_coe_imx274_player.cpp:43-50 | a token is taken if and only if it is two hex digits, a hex digit before something else that does not make a bare 0x, or a space or sign before a hex digit |
| MacAddress.ReadableByte | examples/fusa_coe_imx274_player.cpp:46-52 | the byte is that of both digits, of the one digit, or after a minus sign what makes 256 with it |
| MacAddress.AcceptedStrings | examples/fusa_coe_imx274_player.cpp:39-56 | accepted are exactly the strings of six such tokens |
| MacAddress.AcceptedBeyondHex | examples/fusa_coe_imx274_player.cpp:43-50 | an accepted string is not six times two hex digits if and only if one of its tokens is of the loose kinds |
| MacAddress.LooseStringAccepted | examples/fusa_coe_imx274_player.cpp:32-59 | one such string and its bytes |
| MacAddress.TokensSpell | examples/fusa_coe_imx274_player.cpp:39-39 | the tokens joined by colons are the string, up to one final colon |
| MacAddress.TokensOfJoin | examples/fusa_coe_imx274_player.cpp:39-39 | splitting joined non-empty tokens gives them back |
| MacAddress.FromHexLength | examples/fusa_coe_vb1940_latency.py:116-117 | the decoder uses two characters a byte, and no more only if all are hex digits |
| MacAddress.ParsersAgree | examples/fusa_coe_imx274_player.cpp:32-59 | both parsers return the same address exactly on strings of six two-hex-digit tokens |
| MacAddress.RenderedReadsBack | examples/fusa_coe_vb1940_latency.py:116-117 | both parsers read back any six bytes from their two digits, whatever the case of each digit |
| MacAddress.FromHexPieces | examples/fusa_coe_vb1940_latency.py:116-117 | the decoder skips whitespace between bytes, reads two digits as a byte and refuses all else |
| ExpressionTokens.Characters | src/hololink/expr_eval/expr_eval.cu:477-498 | which characters are blanks, letters and digits |
| ExpressionTokens.SymbolTable | src/hololink/expr_eval/expr_eval.cu:467-473 | which character is which symbol |
| ExpressionTokens.Tokenizer.AddToWord | src/hololink/expr_eval/expr_eval.cu:479-505 | a word character is taken exactly if the longer word is a name or a number with at most one point |
| ExpressionTokens.Tokenizer.Tokenize | src/hololink/expr_eval/expr_eval.cu:466-516 | the character loop computes what cutting off longest words computes, refusals included |
| ExpressionTokens.LexSplits | src/hololink/expr_eval/expr_eval.cu:466-516 | a text cut where no word is cut in two has the tokens of both parts, for any parts |
| ExpressionTokens.LexKeepsText | src/hololink/expr_eval/expr_eval.cu:466-526 | tokens are names, numbers and symbols, and together are the text without its blanks |
| ExpressionTokens.LexOfText | src/hololink/expr_eval/expr_eval.cu:466-526 | proper tokens, no two words side by side, are found again in their text without blanks |
| ExpressionNumbers.NumeralRead | src/hololink/expr_eval/expr_eval.cu:597-597 | the decimal digits of a number are read as that number |
| ExpressionNumbers.ZerosBefore | src/hololink/expr_eval/expr_eval.cu:597-597 | zeros in front change nothing |
| ExpressionNumbers.ZerosBehind | src/hololink/expr_eval/expr_eval.cu:597-597 | zeros behind multiply by ten each |
| ExpressionNumbers.LiteralIs | src/hololink/expr_eval/expr_eval.cu:597-597 | a point divides by ten for each digit behind it; a point alone is refused |
| ExpressionNumbers.PrintedNear | src/hololink/expr_eval/expr_eval.cu:597-602 | whole literals and those of up to six digits are printed as they are, others as the nearest multiple of the unit of their sixth digit, between two the even one |
| ExpressionNumbers.LiteralKept | src/hololink/expr_eval/expr_eval.cu:597-602 | a literal keeps its value if and only if it has only zeros after the point, or after the sixth significant digit |
| ExpressionNumbers.LiteralRounded | src/hololink/expr_eval/expr_eval.cu:597-602 | one that does not |
| ExpressionGrammar.ParseInvertsSpelling | src/hololink/expr_eval/expr_eval.cu:561-635 | a token list is read as a tree if and only if it spells that tree, so exactly the sentences are accepted, each in one way |
| ExpressionGrammar.ExprApart | src/hololink/expr_eval/expr_eval.cu:561-635 | in a sentence no two words and no two operators are side by side |
| ExpressionMeaning.SumsFromLeft | src/hololink/expr_eval/expr_eval.cu:628-634 | a - b + c is read as (a - b) + c, whatever the operators mean |
| ExpressionMeaning.ProductsFromLeft | src/hololink/expr_eval/expr_eval.cu:614-619 | a / b * c is read as (a / b) * c |
| ExpressionMeaning.ProductsFirst | src/hololink/expr_eval/expr_eval.cu:612-634 | a + b * c is read as a + (b * c) |
| ExpressionMeaning.ParenthesesFirst | src/hololink/expr_eval/expr_eval.cu:604-608 | a * (b + c) multiplies by the sum |
| ExpressionMeaning.MinusFirst | src/hololink/expr_eval/expr_eval.cu:622-627 | -a * b negates the product by the grammar, and a in C |
| ExpressionMeaning.PlusFirst | src/hololink/expr_eval/expr_eval.cu:622-624 | +a is a |
| ExpressionMeaning.CallInOrder | src/hololink/expr_eval/expr_eval.cu:564-583 | f(a, 1) passes both arguments in order |
| ExpressionParser.Parser.ParseFactor | src/hololink/expr_eval/expr_eval.cu:561-610 | succeeds exactly where a supported factor is read, ends after it, and emits the spelling of its translation |
| ExpressionParser.Parser.ParseCall | src/hololink/expr_eval/expr_eval.cu:564-591 | the same for a call: known function, arguments, and the data argument of custom functions |
| ExpressionParser.CallCode | src/hololink/expr_eval/expr_eval.cu:564-591 | the code of a call: device name, arguments, and for custom functions the data argument last |
| ExpressionParser.Parser.ParseTerm | src/hololink/expr_eval/expr_eval.cu:612-620 | the same for a term |
| ExpressionParser.Parser.ParseExpression | src/hololink/expr_eval/expr_eval.cu:622-635 | the same for an expression |
| ExpressionParser.Parser.Compile | src/hololink/expr_eval/expr_eval.cu:327-407 | tokenizes, parses and checks for left-over tokens; the outcome is that of the functional form |
| ExpressionParser.CompilesSentences | src/hololink/expr_eval/expr_eval.cu:327-407 | code is emitted if and only if the tokens of the text spell a supported expression, and then it spells the translation |
| ExpressionParser.CompilesOwnText | src/hololink/expr_eval/expr_eval.cu:466-635 | every supported expression is compiled from its own text without blanks |
| ExpressionParser.CodeReadsBack | src/hololink/expr_eval/expr_eval.cu:561-635 | the emitted code is a sentence that reads back as exactly the translated tree, and no two of its tokens run together |
| ExpressionParser.MeaningKept | src/hololink/expr_eval/expr_eval.cu:561-635 | whatever values are and operators and functions mean, if a minus moves out of products and quotients the emitted code, read with C's unary minus, has the value of the source with its literals as printed |

## Left out

- Operator construction, flow wiring, memory pools, argument parsing, logging text and CUDA set-up.
- Receivers, demosaicing, inference, the visualizer, and camera or FPGA register access other than GPIO.
- Checksum algorithms, and the GF(2) merging that comments in the PVA example describe.
- Floating-point rounding, NaN and infinity; 32-bit overflow of the kernel's index arithmetic.
- A launch with an empty grid, which the driver refuses; the model runs no thread.
- Locks around the recorder queue. A full queue of 30000 makes the monitor of the pipeline model wait.
- The near copies of the post-processor, event printer, validator and parser in sibling examples.
- The VB1940 monitor operator, which skips a record whose metadata lacks a key.
- The formatting of report lines; their numbers are modelled.
- The code around an emitted expression, its compilation and launch, and names it does not define.
- The tables of device functions, which are parameters: results hold for any tables.
- The characters of emitted code: it is modelled as tokens, with numbers as values; and which of several
  errors is logged, as every one of them yields an empty expression.
