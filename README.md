# Rate maps, rate-map mosaics and synthetic place cells

This project models three parts of the repository:

- **The grid-cell rate-map computation** in `visualize.py` of the dual-agent path-integration RNN.
  - `compute_ratemaps` and `compute_ratemaps_single_agent` draw `n_avg` test batches. For each batch they keep the selected units of the network's output. They rescale every position into a `res` × `res` grid over the arena. A sample inside the arena adds one to its bin's count and adds its activations to the bin's sums. Each visited bin is then divided by its count, and the result is flattened into a rate map.
  - `concat_images` and `concat_images_in_rows` lay rate-map images out as a mosaic with white spacers.
- **The synthetic place-cell generator** `load_place_cells` in `abn/datasets/synthetic.py`. Each repetition visits the cells of a ring in order. The row of cell i is zero except for five Poisson counts written around i, and it is labelled with the cell's angle.

Modules, one per concept:

- `Common` holds:
  - the exceptions the code can raise, as an `Error` datatype;
  - `Result`/`Option`;
  - Python's negative indexing (`PyIndex`);
  - `Collect`, for a loop that stops at the first exception.
- `Images` holds RGBA images as numpy holds them, `np.ones(...) * 255` (`Blank`), and `np.hstack` / `np.vstack`. It also proves where every pixel of a join lands.
- `Layout` holds `concat_images` and `concat_images_in_rows`, as loop methods and as the functions that specify them.
- `Mosaic` holds the grid that `concat_images_in_rows` produces from square tiles of one size: its shape, where each tile lands, and the white gaps.
- `Binning` holds the histogram specification: `BinOf` (the guard and the `int` truncation), `Count`, `Total` and `Mean`, and what they promise.
- `Ratemaps` holds:
  - the defaults;
  - the column selection and the batch loop over `array2`/`array3`/`array4`;
  - the division loop and the reshape;
  - both entry points, proved against `Binning`.
- `PlaceCells` holds `load_place_cells` as nested loops over a `nat` array, the function that specifies it, and the window each branch writes.

The trajectory generator and the network are one parameter, `batches(index)`: the batch that pass `index` of the loop produces. The Poisson sampler is one parameter too, `poisson(d, λ)`: what the d-th call `np.random.poisson(λ)` returns.

## Model

| member | source | states |
|---|---|---|
| Images.Blank | neurometry/datasets/piRNNs/dual_agent/visualize.py:10 | The spacer `np.ones([h, w, 4]) * 255` is a well-formed h × w image whose every pixel is white |
| Images.WithSpacers | neurometry/datasets/piRNNs/dual_agent/visualize.py:15-19 | Appending each item, and a spacer after every item but the last, gives 2n-1 entries, and none for an empty list |
| Images.ItemAt | neurometry/datasets/piRNNs/dual_agent/visualize.py:15-19 | Item k of the spaced list sits at position 2k |
| Images.SpacerAt | neurometry/datasets/piRNNs/dual_agent/visualize.py:15-19 | Position 2k+1, between item k and item k+1, holds the spacer |
| Images.Hstack | neurometry/datasets/piRNNs/dual_agent/visualize.py:20 | np.hstack succeeds exactly when the list is nonempty and all heights agree. An empty list raises EmptyConcatenation; a height mismatch raises ShapeMismatch. The result is as tall as the images and as wide as their widths summed |
| Images.JoinRowAt | neurometry/datasets/piRNNs/dual_agent/visualize.py:20 | In a joined row, pixel x of image k sits after the widths of images 0..k-1 |
| Images.HstackAt | neurometry/datasets/piRNNs/dual_agent/visualize.py:20 | The horizontal join is rectangular, and pixel (y, x) of image k lands at (y, offset_k + x) |
| Images.HstackWellFormed | neurometry/datasets/piRNNs/dual_agent/visualize.py:20 | Joining rectangular images gives a rectangular image |
| Images.Vstack | neurometry/datasets/piRNNs/dual_agent/visualize.py:48 | np.vstack succeeds exactly when the list is nonempty and all widths agree; otherwise it raises EmptyConcatenation or ShapeMismatch. The result keeps the common width |
| Images.StackRowsAt | neurometry/datasets/piRNNs/dual_agent/visualize.py:48 | Row y of image k lands at row offset_k + y of the stacked rows, whose count is the heights summed |
| Images.VstackAt | neurometry/datasets/piRNNs/dual_agent/visualize.py:48 | The stack is rectangular and as tall as all the images together, and row y of image k is its row offset_k + y |
| Images.VstackHeight | neurometry/datasets/piRNNs/dual_agent/visualize.py:48 | The stack's height is the sum of the heights |
| Images.VstackWellFormed | neurometry/datasets/piRNNs/dual_agent/visualize.py:48 | Stacking rectangular images gives a rectangular image |
| Images.StackRowsRow | neurometry/datasets/piRNNs/dual_agent/visualize.py:48 | Every row of the stack is a row of one of the images (nothing is invented) |
| Images.SpacedStack | neurometry/datasets/piRNNs/dual_agent/visualize.py:40-48 | Stacking n images of one height h and width w with an s-row blank spacer succeeds and gives a rectangular image n·h + (n-1)·s tall |
| Images.SpacedHeight | neurometry/datasets/piRNNs/dual_agent/visualize.py:40-48 | A spaced list is as tall as the items plus n-1 spacers |
| Images.SpacedStackRow | neurometry/datasets/piRNNs/dual_agent/visualize.py:40-48 | In that stack, row y of image k is row k·(h + s) + y |
| Images.SpacedStackGap | neurometry/datasets/piRNNs/dual_agent/visualize.py:40-48 | The s rows after image k (k not last), at k·(h + s) + h + t, are white |
| Layout.Concat | neurometry/datasets/piRNNs/dual_agent/visualize.py:8-20 | concat_images raises EmptyConcatenation exactly for an empty list; any other failure is a ShapeMismatch from np.hstack |
| Layout.ConcatImages | neurometry/datasets/piRNNs/dual_agent/visualize.py:8-20 | The loop builds exactly the list with one spacer between consecutive images, and returns its np.hstack |
| Layout.ConcatOutcome | neurometry/datasets/piRNNs/dual_agent/visualize.py:8-20 | Succeeds exactly for one image of any height, or several images all `image_width` tall. An empty list raises EmptyConcatenation; every other failure is ShapeMismatch |
| Layout.ConcatShape | neurometry/datasets/piRNNs/dual_agent/visualize.py:10-20 | The result is as tall as the first image and as wide as the widths summed plus `spacer_size` for each of the n-1 spacers |
| Layout.ConcatPlacement | neurometry/datasets/piRNNs/dual_agent/visualize.py:15-20 | Pixel (y, x) of image k appears at row y, column (widths of images before k) + k·spacer_size + x |
| Layout.ConcatSpacer | neurometry/datasets/piRNNs/dual_agent/visualize.py:10-20 | The spacer_size columns between image k and image k+1 are white on every row |
| Layout.HSpacerWidth | neurometry/datasets/piRNNs/dual_agent/visualize.py:26-36 | The horizontal spacer width is negative, which makes np.ones raise, exactly when there are no columns and the spacer has a size |
| Layout.PySlice | neurometry/datasets/piRNNs/dual_agent/visualize.py:41 | A Python slice with bounds inside the list is the sub-sequence, with length b - a (0 when a > b) |
| Layout.RowResults | neurometry/datasets/piRNNs/dual_agent/visualize.py:40-42 | The row-th pass joins images [cs·row, cs·row + cs) with concat_images, and a pass can only fail with EmptyConcatenation or ShapeMismatch |
| Layout.SpacedRows | neurometry/datasets/piRNNs/dual_agent/visualize.py:38-46 | The row loop raises the error of the first row that cannot be joined. Otherwise it returns the joined rows with the horizontal spacer between consecutive ones |
| Layout.InRows | neurometry/datasets/piRNNs/dual_agent/visualize.py:23-48 | concat_images_in_rows raises ZeroDivisionError exactly when row_size is 0, and NegativeDimension exactly when the horizontal spacer width `image_width·cs + (cs-1)·spacer_size` is negative |
| Layout.ConcatImagesInRows | neurometry/datasets/piRNNs/dual_agent/visualize.py:23-48 | The method returns or raises exactly what InRows says: ZeroDivision for zero rows, NegativeDimension for a negative spacer width, otherwise the spaced rows stacked |
| Layout.InRowsOutcome | neurometry/datasets/piRNNs/dual_agent/visualize.py:25-48 | row_size 0 raises ZeroDivisionError. With fewer images than rows, a sized spacer raises in np.ones and a zero spacer raises in np.hstack. Any result means 0 < row_size ≤ len(images) and every row joined |
| Mosaic.RowSliceInside | neurometry/datasets/piRNNs/dual_agent/visualize.py:41 | Every row's slice lies inside the list and is the plain sub-sequence |
| Mosaic.TilesOfRow | neurometry/datasets/piRNNs/dual_agent/visualize.py:41 | Image c of row r is image cs·r + c of the list |
| Mosaic.StripOfTiles | neurometry/datasets/piRNNs/dual_agent/visualize.py:42 | n square tiles join into a strip one tile high and n·w + (n-1)·s wide |
| Mosaic.RowOfTiles | neurometry/datasets/piRNNs/dual_agent/visualize.py:40-43 | Each row's strip is rectangular, one tile high and as wide as the horizontal spacer |
| Mosaic.RowsOfTiles | neurometry/datasets/piRNNs/dual_agent/visualize.py:40-46 | All row_size rows join, so the row loop never raises on square tiles |
| Mosaic.StripIsRow | neurometry/datasets/piRNNs/dual_agent/visualize.py:40-43 | Strip r of the collected rows is what concat_images makes of row r |
| Mosaic.StripsToStack | neurometry/datasets/piRNNs/dual_agent/visualize.py:23-48 | Square tiles give row_size rectangular strips of equal size, and the mosaic is their spaced stack |
| Mosaic.MosaicShape | neurometry/datasets/piRNNs/dual_agent/visualize.py:23-48 | Square tiles always lay out: the mosaic is cs·w + (cs-1)·s wide and row_size·w + (row_size-1)·s tall. Images past row_size·cs are dropped |
| Mosaic.MosaicTile | neurometry/datasets/piRNNs/dual_agent/visualize.py:23-48 | Pixel (y, x) of image cs·r + c is pixel (r·(w+s) + y, c·(w+s) + x) of the mosaic |
| Mosaic.MosaicRowGap | neurometry/datasets/piRNNs/dual_agent/visualize.py:26-46 | The s rows between tile rows r and r+1 are white across the whole width |
| Mosaic.MosaicColumnGap | neurometry/datasets/piRNNs/dual_agent/visualize.py:10-20 | The s columns between tile columns c and c+1 are white along every tile row |
| Binning.Scale | neurometry/datasets/piRNNs/dual_agent/visualize.py:112-115 | The rescaling sends the box edge -extent/2 to 0 and the edge extent/2 to res |
| Binning.BinOf | neurometry/datasets/piRNNs/dual_agent/visualize.py:112-121 | A sample gets a bin exactly when both rescaled coordinates lie in [0, res) and the box is not degenerate. The bin is inside the grid |
| Binning.ScaleInRange | neurometry/datasets/piRNNs/dual_agent/visualize.py:112-120 | A rescaled coordinate lies in [0, res) exactly when the raw coordinate lies in [-extent/2, extent/2) |
| Binning.KeptIffInsideBox | neurometry/datasets/piRNNs/dual_agent/visualize.py:112-120 | A sample is counted exactly when its position is inside the half-open arena [-W/2, W/2) × [-H/2, H/2) |
| Binning.Count | neurometry/datasets/piRNNs/dual_agent/visualize.py:95-121 | A bin's count never exceeds the number of samples |
| Binning.Total | neurometry/datasets/piRNNs/dual_agent/visualize.py:93-122 | A bin that no sample reached keeps the zero it started with |
| Binning.Mean | neurometry/datasets/piRNNs/dual_agent/visualize.py:127-130 | A bin that no sample reached is not divided and has rate 0 |
| Binning.CountAppend | neurometry/datasets/piRNNs/dual_agent/visualize.py:100-121 | The counts of two runs of samples add up, so batches may be binned one after another |
| Binning.TotalAppend | neurometry/datasets/piRNNs/dual_agent/visualize.py:100-122 | The sums of two runs of samples add up |
| Binning.MeanWithin | neurometry/datasets/piRNNs/dual_agent/visualize.py:127-130 | A visited bin's rate lies between the least and the greatest activation of the samples in it |
| Binning.TotalBetween | neurometry/datasets/piRNNs/dual_agent/visualize.py:120-122 | A bin's sum lies between count·lo and count·hi |
| Binning.AverageBetween | neurometry/datasets/piRNNs/dual_agent/visualize.py:130 | n terms in [lo, hi], summed and divided by n, stay in [lo, hi] |
| Binning.CountsAddUp | neurometry/datasets/piRNNs/dual_agent/visualize.py:117-121 | The res × res counts add up to the number of samples inside the arena: each kept sample is counted in exactly one bin |
| Ratemaps.ResolveNAvg | neurometry/datasets/piRNNs/dual_agent/visualize.py:83-84 | A nonzero n_avg is kept. A missing or zero one becomes 1000 // sequence_length (the largest q with q·sl ≤ 1000), and raises ZeroDivisionError exactly when sequence_length is 0 |
| Ratemaps.ResolveIdxs | neurometry/datasets/piRNNs/dual_agent/visualize.py:86-88 | At most Ng units. Units 0..Ng-1 unless some nonzero index was given; otherwise a prefix of the given indices |
| Ratemaps.Columns | neurometry/datasets/piRNNs/dual_agent/visualize.py:107 | The selection succeeds exactly when every index is a valid Python index, and then addresses the column it names. Otherwise it raises IndexError |
| Ratemaps.Prepare | neurometry/datasets/piRNNs/dual_agent/visualize.py:105-125 | A pass that gets through the column selection, the reshape to (-1, Ng), the stores and the reads `g_batch[i, :]` gives batch_size·sequence_length samples with Ng activations each |
| Ratemaps.PrepareSelects | neurometry/datasets/piRNNs/dual_agent/visualize.py:105-110 | With Ng indices, the pass succeeds exactly when every index is valid and the batch has batch_size·sequence_length positions and rows; sample i then has position i and, as its j-th activation, `g_batch[i, idxs[j]]` with idxs[j] read the Python way |
| Ratemaps.PrepareBroadcast | neurometry/datasets/piRNNs/dual_agent/visualize.py:107-125 | When m·k == Ng for m samples and k < Ng selected units, the reshape leaves one row, which the store broadcasts. The pass returns normally exactly when no sample after the first lies in the arena; otherwise the read `g_batch[i, :]` raises IndexError. Every sample then carries that one row of Ng values |
| Ratemaps.BroadcastExample | neurometry/datasets/piRNNs/dual_agent/visualize.py:107-125 | Two samples of two units, unit 1 selected, Ng = 2, the second sample outside the unit arena: the pass returns normally and both samples carry the selected unit of both samples |
| Ratemaps.PreparedAt | neurometry/datasets/piRNNs/dual_agent/visualize.py:100-110 | Pass k of the batch loop prepares batch k |
| Ratemaps.Planned | neurometry/datasets/piRNNs/dual_agent/visualize.py:83-110 | A successful run has Ng > 0 and exactly n_avg batches |
| Ratemaps.AddSample | neurometry/datasets/piRNNs/dual_agent/visualize.py:117-125 | One sample adds 1 to the count of the bin it falls in and its activations to that bin's sums. With the flag it also adds them to the bin's slot for this batch. Every other entry is unchanged |
| Ratemaps.AddBatch | neurometry/datasets/piRNNs/dual_agent/visualize.py:117-125 | The sample loop raises every bin's count by the number of the batch's samples in it, and its sums by their activations. With the flag, the batch's own slot gets the same sums |
| Ratemaps.BinBatch | neurometry/datasets/piRNNs/dual_agent/visualize.py:100-125 | Binning one more batch keeps the invariant: counts and sums equal Count/Total over all batches so far, and per-batch slots hold each batch's sums |
| Ratemaps.RunBatches | neurometry/datasets/piRNNs/dual_agent/visualize.py:100-125 | The batch loop raises the first batch's error. Otherwise the arrays hold the counts and sums over all batches, and g/pos hold every sample in order |
| Ratemaps.DivideBin | neurometry/datasets/piRNNs/dual_agent/visualize.py:130 | `activations[:, x, y] /= c` divides exactly that bin for every unit |
| Ratemaps.DivideBins | neurometry/datasets/piRNNs/dual_agent/visualize.py:127-130 | Every bin with a nonzero count is divided by its count; the others are left alone |
| Ratemaps.Average | neurometry/datasets/piRNNs/dual_agent/visualize.py:127-130 | After the division every unit's bin holds Mean: the average over the samples in the bin, or 0 for an unvisited bin |
| Ratemaps.Activity | neurometry/datasets/piRNNs/dual_agent/visualize.py:132 | Row i of the reshaped g is sample i's activations |
| Ratemaps.Positions | neurometry/datasets/piRNNs/dual_agent/visualize.py:133 | Row i of the reshaped pos is sample i's position |
| Ratemaps.ActivityAppend | neurometry/datasets/piRNNs/dual_agent/visualize.py:109-110 | Storing batch after batch gives the rows of the batches one after another |
| Ratemaps.Reshape | neurometry/datasets/piRNNs/dual_agent/visualize.py:137 | `activations.reshape(Ng, -1)` is Ng × res² and lists each unit's bins in row-major order |
| Ratemaps.ReshapeUnit | neurometry/datasets/piRNNs/dual_agent/visualize.py:137 | Fills unit u's row of the rate map and leaves the other rows alone |
| Ratemaps.FlatBinHolds | neurometry/datasets/piRNNs/dual_agent/visualize.py:137 | Every flat position below res² decodes to a bin of the grid |
| Ratemaps.FlatPosition | neurometry/datasets/piRNNs/dual_agent/visualize.py:137 | Bin (x, y) sits at flat position x·res + y < res², which decodes back to (x, y) |
| Ratemaps.FlatEntryAt | neurometry/datasets/piRNNs/dual_agent/visualize.py:137 | Entry x·res + y of unit u's rate-map row is the unit's bin (x, y) |
| Ratemaps.RateMapOfMeans | neurometry/datasets/piRNNs/dual_agent/visualize.py:137 | The reshaped means put each unit's mean rate of bin (x, y) at x·res + y |
| Ratemaps.Finish | neurometry/datasets/piRNNs/dual_agent/visualize.py:127-137 | From counts and sums, the division and the reshape give the means and the rate map that holds them |
| Ratemaps.ComputeRatemaps | neurometry/datasets/piRNNs/dual_agent/visualize.py:71-142 | Raises exactly when Planned does, with the same error. Otherwise rate_map holds each unit's mean rate per bin over all samples, and g/pos hold every sample. activations are the means, or with the flag the per-batch undivided sums |
| Ratemaps.ComputeRatemapsSingleAgent | neurometry/datasets/piRNNs/dual_agent/visualize.py:145-198 | The same outcome with the flag off: it always returns the averaged activations |
| Common.PyIndex | abn/datasets/synthetic.py:170 | A Python index is valid exactly in [-n, n), and then names i or i + n |
| PlaceCells.TruncDiv | abn/datasets/synthetic.py:162 | `int(n_times / n_cells)` rounds toward zero: its magnitude is the number of whole n_cells in n_times, and its sign is the sign of the quotient |
| PlaceCells.Writes | abn/datasets/synthetic.py:169-198 | Each branch makes five writes, drawn at rates 1, 2, 4, 2, 1 in that order |
| PlaceCells.Zeros | abn/datasets/synthetic.py:167 | `np.zeros(n_cells)` has n entries, all 0 |
| PlaceCells.Fired | abn/datasets/synthetic.py:170 | `row[index] = v` succeeds exactly for a valid Python index and then changes only that entry; otherwise it raises IndexError |
| PlaceCells.Window | abn/datasets/synthetic.py:169-198 | A branch's five assignments succeed exactly when all five indices are valid Python indices, keep the row's length, and otherwise raise IndexError |
| PlaceCells.CellRow | abn/datasets/synthetic.py:167-198 | The row of cell i is built exactly when every spot of its window is a valid index of the n-cell row, and is then n long; otherwise it raises IndexError |
| PlaceCells.Label | abn/datasets/synthetic.py:200 | The label of cell i is the non-negative angle whose n-fold is i·360 |
| PlaceCells.Fire | abn/datasets/synthetic.py:170 | The array assignment does what Fired says, raising IndexError for an index outside [-n, n) |
| PlaceCells.FireWindow | abn/datasets/synthetic.py:169-198 | A branch's five assignments, made in order on the array, give the Window of the old contents, stopping at the first that raises |
| PlaceCells.FireCell | abn/datasets/synthetic.py:167-198 | The inner-loop body yields the specified row of cell i, with draws from `draw` on |
| PlaceCells.Load | abn/datasets/synthetic.py:138-202 | load_place_cells raises ZeroDivisionError exactly when n_cells is 0; every other failure is an IndexError; a result has one label per row |
| PlaceCells.LoadPlaceCells | abn/datasets/synthetic.py:162-202 | The nested loops return or raise exactly what Load says |
| PlaceCells.CellRows | abn/datasets/synthetic.py:165-199 | Row r of the output belongs to cell r mod n and uses draws 5r … 5r+4; a row can only fail with IndexError |
| PlaceCells.LabelsAt | abn/datasets/synthetic.py:200 | Label r is cell (r mod n)'s angle |
| PlaceCells.BoundaryWindow | abn/datasets/synthetic.py:169-192 | Cells 0, 1, n-2 and n-1 write the cyclic window i-2 … i+2 mod n, with rates 1, 2, 4, 2, 1 |
| PlaceCells.InteriorWindow | abn/datasets/synthetic.py:193-198 | Every other cell writes i-2, i-1, i, i+1 in place and then i-3, which wraps for cell 2. With six cells or more, nothing is written at i+2 |
| PlaceCells.SpotsValid | abn/datasets/synthetic.py:169-198 | With at least four cells, every write of every cell is a valid index |
| PlaceCells.CellRowWritten | abn/datasets/synthetic.py:167-198 | With at least four cells, a row is the zero row with the five draws written at the five spots, in order |
| PlaceCells.SpotKeepsDraw | abn/datasets/synthetic.py:167-198 | A spot that no later write reuses keeps its own draw |
| PlaceCells.CellRowContents | abn/datasets/synthetic.py:167-198 | With at least four cells, the row is zero off the five spots, each spot holds the last draw written to it, and the cell's own entry holds the rate-4 draw |
| PlaceCells.TruncDivBounds | abn/datasets/synthetic.py:162 | For n_times ≥ 0 and n_cells > 0, int(n_times / n_cells) is the number of whole rounds of n_cells in n_times |
| PlaceCells.NoCells | abn/datasets/synthetic.py:162 | n_cells = 0 raises ZeroDivisionError |
| PlaceCells.NoRepetitions | abn/datasets/synthetic.py:162 | Fewer times than cells gives no repetition |
| PlaceCells.NoRows | abn/datasets/synthetic.py:162-166 | A negative cell count, or fewer times than cells, returns no rows and no labels |
| PlaceCells.SomeRepetition | abn/datasets/synthetic.py:162-165 | n_times ≥ n_cells > 0 gives at least one repetition |
| PlaceCells.ManyCellsSucceed | abn/datasets/synthetic.py:162-202 | With four cells or more the generator never raises |
| PlaceCells.SmallRowFails | abn/datasets/synthetic.py:169-180 | On a ring of one to three cells, cell 0's row (cell 1's for three cells) writes outside the array |
| PlaceCells.FewCellsFail | abn/datasets/synthetic.py:162-199 | One to three cells with at least one repetition raise IndexError |
| PlaceCells.LabelRange | abn/datasets/synthetic.py:200 | A cell's angle i / n · 360 lies in [0, 360) |
| PlaceCells.RowLayout | abn/datasets/synthetic.py:162-202 | A returned output has reps·n_cells rows and as many labels, never more rows than n_times. Row r is cell (r mod n)'s row with draws 5r … 5r+4, and its label is that cell's angle, in [0, 360) |
| PlaceCells.SymmetricWrites | abn/datasets/synthetic.py:193-198 | The corrected writes keep the rate order 1, 2, 4, 2, 1 |
| PlaceCells.SymmetricWindow | abn/datasets/synthetic.py:169-198 | Under the corrected writes every cell, interior or not, writes the cyclic window i-2 … i+2 mod n |
| PlaceCells.RingDistinct | abn/datasets/synthetic.py:193-198 | Positions fewer than n apart fall on different cells of the ring |
| PlaceCells.WindowKeeps | abn/datasets/synthetic.py:169-198 | When all five writes land, the row keeps its length, and a write that no later write overrides keeps its draw |
| PlaceCells.SymmetricRowContents | abn/datasets/synthetic.py:193-198 | With five cells or more, the corrected row holds draw j at cell (i-2+j) mod n: the cell at rate 4, both neighbours at 2, both cells two away at 1 |
| PlaceCells.SkewedInteriorWindow | abn/datasets/synthetic.py:193-198 | As written, cell 2 of six leaves cell 4 at 0 and fires cell 5; the corrected row fires cell 4 and leaves cell 5 at 0 |

## Left out

- The colouring and plotting helpers `rgb`, `convert_to_colormap` and `plot_ratemaps` are not modelled. They are floating-point colour mapping and OpenCV blurring; the mosaic functions take the images those helpers make as given.
- The network `model.g`, the trajectory generator, `model.eval`, the `.double()` conversions, `.detach().cpu().numpy()` and `tqdm` are not modelled. The batch that pass `index` produces is the parameter `batches(index)`.
- Images are RGBA `uint8` arrays of exactly four channels. np.hstack/np.vstack failures for other channel counts or dimensions are not modelled.
- Arithmetic on positions, activations and rates uses exact reals, so rounding in float32/float64 is not modelled. A box side of zero, which makes numpy produce inf or NaN, is modelled as "no sample is kept" (`Binning.Degenerate`).
- `counts` is modelled as a `nat` array; numpy holds it as floats.
- numpy errors are collapsed into the `Error` kinds that the modelled code can reach: a ValueError from a failed reshape, store or join becomes ShapeMismatch, and a negative dimension becomes NegativeDimension.
  - With m = batch_size·sequence_length samples and k selected units, `reshape(-1, Ng)` raises unless Ng divides m·k; the store `g[index] = g_batch` raises unless the reshaped array has m rows, or one row that numpy broadcasts (m·k == Ng). Both failures are ShapeMismatch. A broadcast batch returns normally unless a sample after the first lies in the arena, where the read `g_batch[i, :]` raises IndexError.
  - Batch data is required to be rectangular (`Ratemaps.Rectangular`), as every numpy array is.
  - `idxs` is a list of integers or None; boolean masks and other numpy index forms are not modelled.
- The models of `compute_ratemaps` and `compute_ratemaps_single_agent` check the index selection and the shapes when each batch arrives, as the code does. The whole `g` and `pos` are returned as the flattened rows; the intermediate 3-D arrays are not kept.
- The rate map is a fresh array holding the same values as the averaged activations. numpy's `reshape` returns a view sharing storage; no caller writes through it, so aliasing is not modelled.
- The Python default arguments (`res=20`, `Ng=512`, `spacer_size=4`, `n_times=10000`, `n_cells=40`) are passed explicitly; Dafny has no default arguments. The defaults computed in the body (`n_avg`, `idxs`) are modelled.
- `np.random.poisson` is the parameter `poisson(d, λ)`, numbered by call. The distribution of the draws is not modelled.
- The final `np.array(place_cells)` and `pd.DataFrame({"angles": labels})` are returned as a sequence of rows and a sequence of labels.
- The docstring of `load_place_cells` speaks of 2 firings for the cell and 1 for each neighbour. The code draws at rates 4, 2 and 1 over five cells, and the model follows the code.
- `imsave` is file I/O and is not part of this model. `load_images` (an image from skimage's bundled data, rotated and blurred) and `load_points` (points rotated with cos/sin) lie outside the modelled core and are not part of this model.
- Ratemaps.Prepare: a batch whose number of positions or network rows differs from batch_size·sequence_length is reported as ShapeMismatch. The generator always supplies that many, and numpy would broadcast a batch of a single position or row.
- PlaceCells.TruncDiv: divides exactly. synthetic.py computes `int(n_times / n_cells)` through a float quotient, which can round up to the next integer when the quotient is large (n_times = 17·2^50 - 1 and n_cells = 17 give 2^50 in Python and 2^50 - 1 here).
- PlaceCells.Label: the angle `i_cell / n_cells * 360` is an exact real, so `PlaceCells.LabelRange`'s bound below 360 holds for every n_cells; in float64 it can round up to 360 once n_cells exceeds 2^53. `PlaceCells.LoadPlaceCells` and `PlaceCells.RowLayout` inherit both exact divisions.
- Layout.ConcatImagesInRows: `row_size`, `image_width` and `spacer_size` are natural numbers. A negative value would make np.ones raise or Python's floor division round down; no caller passes one.
- PlaceCells.LoadPlaceCells: keeps the interior writes as written (i-3, see Findings). The corrected window is defined and proved separately as `SymmetricWrites`/`SymmetricRow`, so that the loader states what the code returns.

## Findings

| source | as written | input that shows it | evidently intended | confidence | as-written member | corrected member |
|---|---|---|---|---|---|---|
| abn/datasets/synthetic.py:193-198 | An interior cell i writes i-2, i-1, i, i+1 and then i-3 at rate 1 | n_cells = 6, cell 2: cell 4 (two to the right) stays 0, and cell 5 (three to the left, by wrap-around) gets the rate-1 draw | The cyclic window i-2 … i+2 with rates 1, 2, 4, 2, 1, which the four boundary branches write; the last interior write should be i+2 | high; not executed | PlaceCells.SkewedInteriorWindow | PlaceCells.SymmetricRowContents |
