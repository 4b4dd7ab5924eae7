/** The grid `concat_images_in_rows` lays out when it is given square
    rate maps of one size, as `plot_ratemaps` does: where every tile,
    every horizontal spacer and every vertical spacer ends up. */
module Mosaic {
  import opened Common
  import opened Images
  import opened Layout

  /** Every image is a well-formed `image_width` × `image_width` tile. */
  predicate Tiles(images: seq<Image>, imageWidth: nat) {
    forall k :: 0 <= k < |images| ==>
      WellFormed(images[k]) && Height(images[k]) == imageWidth && images[k].width == imageWidth
  }

  /** With at least one image per row there is at least one column. */
  lemma ColumnsPositive(n: nat, rowSize: nat)
    requires 0 < rowSize <= n
    ensures n / rowSize >= 1
  {
    assert n == rowSize * (n / rowSize) + n % rowSize;
  }

  /** Row `row` is the images [cs·row, cs·row + cs), all inside the list. */
  lemma RowSliceInside(images: seq<Image>, rowSize: nat, row: nat)
    requires row < rowSize
    ensures var cs := |images| / rowSize;
            cs * row + cs <= |images| && RowSlice(images, cs, row) == images[cs * row .. cs * row + cs]
  {
    SliceFits(|images|, rowSize, |images| / rowSize, row);
  }

  /** The images of a row are tiles, image c of row r being image cs·r + c. */
  lemma TilesOfRow(images: seq<Image>, rowSize: nat, imageWidth: nat, row: nat)
    requires Tiles(images, imageWidth) && row < rowSize
    ensures var cs := |images| / rowSize;
            var slice := RowSlice(images, cs, row);
            |slice| == cs && cs * row + cs <= |images| && Tiles(slice, imageWidth)
            && forall c :: 0 <= c < cs ==> slice[c] == images[cs * row + c]
  {
    RowSliceInside(images, rowSize, row);
  }

  /** Each row of tiles joins into a well-formed strip one tile high and
      as wide as the horizontal spacer. */
  lemma RowOfTiles(images: seq<Image>, rowSize: nat, imageWidth: nat, spacerSize: nat, row: nat)
    requires Tiles(images, imageWidth) && 0 < rowSize <= |images| && row < rowSize
    ensures var cs := |images| / rowSize;
            var strip := RowImage(images, cs, imageWidth, spacerSize, row);
            strip.Success? && WellFormed(strip.value) && Height(strip.value) == imageWidth
            && strip.value.width == HSpacerWidth(imageWidth, cs, spacerSize)
  {
    var cs := |images| / rowSize;
    ColumnsPositive(|images|, rowSize);
    TilesOfRow(images, rowSize, imageWidth, row);
    StripOfTiles(RowSlice(images, cs, row), imageWidth, spacerSize);
    assert imageWidth * cs == cs * imageWidth;
  }

  /** A nonempty list of tiles joins into a strip one tile high, with the
      tiles' widths and a spacer between neighbours. */
  lemma StripOfTiles(slice: seq<Image>, imageWidth: nat, spacerSize: nat)
    requires Tiles(slice, imageWidth) && |slice| > 0
    ensures var strip := Concat(slice, imageWidth, spacerSize);
            strip.Success? && WellFormed(strip.value) && Height(strip.value) == imageWidth
            && strip.value.width == |slice| * imageWidth + (|slice| - 1) * spacerSize
  {
    ConcatOutcome(slice, imageWidth, spacerSize);
    ConcatShape(slice, imageWidth, spacerSize);
    SumConstant(Widths(slice), imageWidth);
    var spacer := Blank(imageWidth, spacerSize);
    SpacedWellFormed(slice, spacer);
    HstackWellFormed(WithSpacers(slice, spacer));
  }

  /** Every row of tiles joins, so the rows collect into `row_size` strips. */
  lemma RowsOfTiles(images: seq<Image>, rowSize: nat, imageWidth: nat, spacerSize: nat)
    requires Tiles(images, imageWidth) && 0 < rowSize <= |images|
    ensures var cs := |images| / rowSize;
            var rows := Collect(RowResults(images, cs, imageWidth, spacerSize, rowSize));
            rows.Success? && |rows.value| == rowSize
            && forall row :: 0 <= row < rowSize ==>
                 WellFormed(rows.value[row]) && Height(rows.value[row]) == imageWidth
                 && rows.value[row].width == HSpacerWidth(imageWidth, cs, spacerSize)
  {
    var cs := |images| / rowSize;
    var results := RowResults(images, cs, imageWidth, spacerSize, rowSize);
    forall row | 0 <= row < rowSize
      ensures results[row] == RowImage(images, cs, imageWidth, spacerSize, row)
      ensures results[row].Success? && WellFormed(results[row].value) && Height(results[row].value) == imageWidth
      ensures results[row].value.width == HSpacerWidth(imageWidth, cs, spacerSize)
    {
      RowOfTiles(images, rowSize, imageWidth, spacerSize, row);
    }
    CollectAt(results);
  }

  /** Square tiles always lay out: the mosaic is `cs` tiles wide and
      `row_size` tiles high with a spacer between neighbours, where `cs` is
      the number of images per row; images past `row_size · cs` are dropped. */
  lemma MosaicShape(images: seq<Image>, rowSize: nat, imageWidth: nat, spacerSize: nat)
    requires Tiles(images, imageWidth) && 0 < rowSize <= |images|
    ensures var cs := |images| / rowSize;
            var out := InRows(images, rowSize, imageWidth, spacerSize);
            out.Success? && WellFormed(out.value)
            && out.value.width == imageWidth * cs + (cs - 1) * spacerSize
            && Height(out.value) == rowSize * imageWidth + (rowSize - 1) * spacerSize
  {
    var cs := |images| / rowSize;
    var spacerWidth := HSpacerWidth(imageWidth, cs, spacerSize);
    StripsToStack(images, rowSize, imageWidth, spacerSize);
    var rows := Collect(RowResults(images, cs, imageWidth, spacerSize, rowSize)).value;
    SpacedStack(rows, imageWidth, spacerWidth, spacerSize);
  }

  /** Square tiles make `row_size` strips, each one tile high and as wide as
      the horizontal spacer, and the mosaic is those strips stacked. */
  lemma StripsToStack(images: seq<Image>, rowSize: nat, imageWidth: nat, spacerSize: nat)
    requires Tiles(images, imageWidth) && 0 < rowSize <= |images|
    ensures var cs := |images| / rowSize;
            var spacerWidth := HSpacerWidth(imageWidth, cs, spacerSize);
            var rows := Collect(RowResults(images, cs, imageWidth, spacerSize, rowSize));
            spacerWidth >= 0 && rows.Success? && |rows.value| == rowSize
            && AllWellFormed(rows.value) && AllWidth(rows.value, spacerWidth)
            && (forall k :: 0 <= k < |rows.value| ==> Height(rows.value[k]) == imageWidth)
            && InRows(images, rowSize, imageWidth, spacerSize)
               == Vstack(WithSpacers(rows.value, Blank(spacerSize, spacerWidth)))
  {
    ColumnsPositive(|images|, rowSize);
    RowsOfTiles(images, rowSize, imageWidth, spacerSize);
    InRowsIsStack(images, rowSize, imageWidth, spacerSize);
  }

  /** When every row joins and the spacer can be built, the result is the
      rows stacked with the horizontal spacer between them. */
  lemma InRowsIsStack(images: seq<Image>, rowSize: nat, imageWidth: nat, spacerSize: nat)
    requires rowSize > 0
    requires HSpacerWidth(imageWidth, |images| / rowSize, spacerSize) >= 0
    requires Collect(RowResults(images, |images| / rowSize, imageWidth, spacerSize, rowSize)).Success?
    ensures var cs := |images| / rowSize;
            var rows := Collect(RowResults(images, cs, imageWidth, spacerSize, rowSize)).value;
            InRows(images, rowSize, imageWidth, spacerSize)
            == Vstack(WithSpacers(rows, Blank(spacerSize, HSpacerWidth(imageWidth, cs, spacerSize))))
  {
  }

  /** Strip r of the mosaic is what `concat_images` makes of row r. */
  lemma StripIsRow(images: seq<Image>, rowSize: nat, imageWidth: nat, spacerSize: nat, row: nat)
    requires Tiles(images, imageWidth) && 0 < rowSize <= |images| && row < rowSize
    ensures var cs := |images| / rowSize;
            var rows := Collect(RowResults(images, cs, imageWidth, spacerSize, rowSize));
            rows.Success? && |rows.value| == rowSize
            && RowImage(images, cs, imageWidth, spacerSize, row) == Success(rows.value[row])
  {
    var cs := |images| / rowSize;
    var results := RowResults(images, cs, imageWidth, spacerSize, rowSize);
    RowsOfTiles(images, rowSize, imageWidth, spacerSize);
    CollectAt(results);
  }

  /** Pixel (y, x) of image k of a joined strip is at column `col`, when
      `col` lies x past the widths of images 0..k-1 and the k spacers. */
  lemma StripPixel(slice: seq<Image>, imageWidth: nat, spacerSize: nat, k: nat, y: nat, x: nat, col: nat)
    requires AllWellFormed(slice) && Concat(slice, imageWidth, spacerSize).Success?
    requires k < |slice| && y < Height(slice[k]) && x < slice[k].width
    requires col == Sum(Widths(slice)[..k]) + k * spacerSize + x
    ensures var strip := Concat(slice, imageWidth, spacerSize).value;
            WellFormed(strip) && y < Height(strip) && col < strip.width
            && strip.rows[y][col] == slice[k].rows[y][x]
  {
    ConcatPlacement(slice, imageWidth, spacerSize, k, y, x);
  }

  /** Column `col` of a joined strip is white, when it lies t past image k
      and the k spacers before it, for t below the spacer size. */
  lemma StripGapPixel(slice: seq<Image>, imageWidth: nat, spacerSize: nat, k: nat, y: nat, t: nat, col: nat)
    requires AllWellFormed(slice) && Concat(slice, imageWidth, spacerSize).Success?
    requires k + 1 < |slice| && y < Height(slice[0]) && t < spacerSize
    requires col == Sum(Widths(slice)[..k + 1]) + k * spacerSize + t
    ensures var strip := Concat(slice, imageWidth, spacerSize).value;
            WellFormed(strip) && y < Height(strip) && col < strip.width
            && strip.rows[y][col] == White
  {
    ConcatSpacer(slice, imageWidth, spacerSize, k, y, t);
  }

  /** Tile c of a strip of tiles starts at column c·(w + s): its pixel
      (y, x) is at column `col` = c·(w + s) + x. */
  lemma TileInStrip(slice: seq<Image>, imageWidth: nat, spacerSize: nat, c: nat, y: nat, x: nat, col: nat)
    requires Tiles(slice, imageWidth) && c < |slice| && y < imageWidth && x < imageWidth
    requires col == c * (imageWidth + spacerSize) + x
    ensures Concat(slice, imageWidth, spacerSize).Success?
    ensures var strip := Concat(slice, imageWidth, spacerSize).value;
            WellFormed(strip) && y < Height(strip) && col < strip.width
            && strip.rows[y][col] == slice[c].rows[y][x]
  {
    ConcatOutcome(slice, imageWidth, spacerSize);
    SumConstant(Widths(slice)[..c], imageWidth);
    Distribute(c, imageWidth, spacerSize);
    StripPixel(slice, imageWidth, spacerSize, c, y, x, col);
  }

  /** The s columns after tile c of a strip (all but the last) are white:
      column `col` = c·(w + s) + w + t for t < s. */
  lemma GapInStrip(slice: seq<Image>, imageWidth: nat, spacerSize: nat, c: nat, y: nat, t: nat, col: nat)
    requires Tiles(slice, imageWidth) && c + 1 < |slice| && y < imageWidth && t < spacerSize
    requires col == c * (imageWidth + spacerSize) + imageWidth + t
    ensures Concat(slice, imageWidth, spacerSize).Success?
    ensures var strip := Concat(slice, imageWidth, spacerSize).value;
            WellFormed(strip) && y < Height(strip) && col < strip.width
            && strip.rows[y][col] == White
  {
    ConcatOutcome(slice, imageWidth, spacerSize);
    SumConstant(Widths(slice)[..c + 1], imageWidth);
    Distribute(c, imageWidth, spacerSize);
    StripGapPixel(slice, imageWidth, spacerSize, c, y, t, col);
  }

  /** Pixel (y, x) of image k = cs·r + c lands at row `row` = r·(w + s) + y
      and column `col` = c·(w + s) + x of the mosaic, where w is the tile
      size, s the spacer size and cs the number of images per row. */
  lemma MosaicTile(images: seq<Image>, rowSize: nat, imageWidth: nat, spacerSize: nat,
                   r: nat, c: nat, y: nat, x: nat, k: nat, row: nat, col: nat)
    requires Tiles(images, imageWidth) && 0 < rowSize <= |images|
    requires r < rowSize && c < |images| / rowSize && y < imageWidth && x < imageWidth
    requires k == |images| / rowSize * r + c
    requires row == r * (imageWidth + spacerSize) + y && col == c * (imageWidth + spacerSize) + x
    ensures var out := InRows(images, rowSize, imageWidth, spacerSize);
            k < |images| && out.Success? && WellFormed(out.value)
            && row < Height(out.value) && col < out.value.width
            && out.value.rows[row][col] == images[k].rows[y][x]
  {
    var cs := |images| / rowSize;
    var spacerWidth := HSpacerWidth(imageWidth, cs, spacerSize);
    MosaicShape(images, rowSize, imageWidth, spacerSize);
    RowsOfTiles(images, rowSize, imageWidth, spacerSize);
    var rows := Collect(RowResults(images, cs, imageWidth, spacerSize, rowSize)).value;
    InRowsIsStack(images, rowSize, imageWidth, spacerSize);
    SpacedStackRow(rows, imageWidth, spacerWidth, spacerSize, r, y, row);
    StripIsRow(images, rowSize, imageWidth, spacerSize, r);
    TilesOfRow(images, rowSize, imageWidth, r);
    TileInStrip(RowSlice(images, cs, r), imageWidth, spacerSize, c, y, x, col);
  }

  /** Between tile rows r and r + 1 lie s white rows across the whole
      mosaic: row `row` = r·(w + s) + w + t for t < s. */
  lemma MosaicRowGap(images: seq<Image>, rowSize: nat, imageWidth: nat, spacerSize: nat,
                     r: nat, t: nat, x: nat, row: nat)
    requires Tiles(images, imageWidth) && 0 < rowSize <= |images|
    requires r + 1 < rowSize && t < spacerSize
    requires x < HSpacerWidth(imageWidth, |images| / rowSize, spacerSize)
    requires row == r * (imageWidth + spacerSize) + imageWidth + t
    ensures var out := InRows(images, rowSize, imageWidth, spacerSize);
            out.Success? && WellFormed(out.value) && row < Height(out.value)
            && x < out.value.width && out.value.rows[row][x] == White
  {
    var cs := |images| / rowSize;
    var spacerWidth := HSpacerWidth(imageWidth, cs, spacerSize);
    MosaicShape(images, rowSize, imageWidth, spacerSize);
    RowsOfTiles(images, rowSize, imageWidth, spacerSize);
    var rows := Collect(RowResults(images, cs, imageWidth, spacerSize, rowSize)).value;
    InRowsIsStack(images, rowSize, imageWidth, spacerSize);
    SpacedStackGap(rows, imageWidth, spacerWidth, spacerSize, r, t, x, row);
  }

  /** Between tile columns c and c + 1 lie s white columns along every tile
      row: at row `row` = r·(w + s) + y, column `col` = c·(w + s) + w + t
      is white for t < s. */
  lemma MosaicColumnGap(images: seq<Image>, rowSize: nat, imageWidth: nat, spacerSize: nat,
                        r: nat, c: nat, y: nat, t: nat, row: nat, col: nat)
    requires Tiles(images, imageWidth) && 0 < rowSize <= |images|
    requires r < rowSize && c + 1 < |images| / rowSize && y < imageWidth && t < spacerSize
    requires row == r * (imageWidth + spacerSize) + y
    requires col == c * (imageWidth + spacerSize) + imageWidth + t
    ensures var out := InRows(images, rowSize, imageWidth, spacerSize);
            out.Success? && WellFormed(out.value)
            && row < Height(out.value) && col < out.value.width
            && out.value.rows[row][col] == White
  {
    var cs := |images| / rowSize;
    var spacerWidth := HSpacerWidth(imageWidth, cs, spacerSize);
    MosaicShape(images, rowSize, imageWidth, spacerSize);
    RowsOfTiles(images, rowSize, imageWidth, spacerSize);
    var rows := Collect(RowResults(images, cs, imageWidth, spacerSize, rowSize)).value;
    InRowsIsStack(images, rowSize, imageWidth, spacerSize);
    SpacedStackRow(rows, imageWidth, spacerWidth, spacerSize, r, y, row);
    StripIsRow(images, rowSize, imageWidth, spacerSize, r);
    TilesOfRow(images, rowSize, imageWidth, r);
    GapInStrip(RowSlice(images, cs, r), imageWidth, spacerSize, c, y, t, col);
  }
}
