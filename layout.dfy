/** The rate-map mosaic of `visualize.py`: `concat_images` lays images out
    left to right with a white spacer between neighbours, and
    `concat_images_in_rows` cuts the image list into rows of equal length
    and stacks the rows with a white spacer between them. */
module Layout {
  import opened Common
  import opened Images

  // ---------------------------------------------------------------------
  // concat_images

  /** What `concat_images(images, image_width, spacer_size)` returns: the
      images joined side by side with an `image_width` × `spacer_size`
      white spacer between consecutive ones. */
  function Concat(images: seq<Image>, imageWidth: nat, spacerSize: nat): (r: Result<Image>)
    ensures r == Failure(EmptyConcatenation) <==> images == []
    ensures r.Failure? ==> r.error == EmptyConcatenation || r.error == ShapeMismatch
  {
    Hstack(WithSpacers(images, Blank(imageWidth, spacerSize)))
  }

  /** `concat_images`: appends each image, and a spacer after every image
      but the last, then joins the list with np.hstack. */
  method ConcatImages(images: seq<Image>, imageWidth: nat, spacerSize: nat) returns (r: Result<Image>)
    ensures r == Concat(images, imageWidth, spacerSize)
  {
    var spacer := Blank(imageWidth, spacerSize);
    var imagesWithSpacers: seq<Image> := [];
    var imageSize := |images|;
    ghost var spaced := WithSpacers(images, spacer);
    for i := 0 to imageSize
      invariant |imagesWithSpacers| == (if i < imageSize then 2 * i else |spaced|)
      invariant imagesWithSpacers == spaced[..|imagesWithSpacers|]
    {
      ItemAt(images, spacer, i);
      imagesWithSpacers := imagesWithSpacers + [images[i]];
      if i != imageSize - 1 {
        SpacerAt(images, spacer, i);
        imagesWithSpacers := imagesWithSpacers + [spacer];
      }
    }
    assert imagesWithSpacers == spaced;
    r := Hstack(imagesWithSpacers);
  }

  /** `concat_images` raises on an empty list; with one image it returns
      that image whatever its height; with more, every image must be
      `image_width` tall, the height of the spacer. */
  lemma ConcatOutcome(images: seq<Image>, imageWidth: nat, spacerSize: nat)
    ensures Concat(images, imageWidth, spacerSize).Success?
            <==> |images| == 1 || (|images| > 1 && AllHeight(images, imageWidth))
    ensures |images| == 0 ==> Concat(images, imageWidth, spacerSize) == Failure(EmptyConcatenation)
    ensures |images| > 0 && Concat(images, imageWidth, spacerSize).Failure?
            ==> Concat(images, imageWidth, spacerSize).error == ShapeMismatch
  {
    var spacer := Blank(imageWidth, spacerSize);
    var ws := WithSpacers(images, spacer);
    var n := |images|;
    if n > 1 {
      ItemAt(images, spacer, 0);
      SpacerAt(images, spacer, 0);
      if AllHeight(images, imageWidth) {
        forall j | 0 <= j < |ws|
          ensures Height(ws[j]) == imageWidth
        {
          if j % 2 == 0 {
            ItemAt(images, spacer, j / 2);
          } else {
            SpacerAt(images, spacer, j / 2);
          }
        }
      } else {
        var k :| 0 <= k < n && Height(images[k]) != imageWidth;
        ItemAt(images, spacer, k);
      }
    } else if n == 1 {
      ItemAt(images, spacer, 0);
    }
  }

  /** The joined image is as tall as the images and as wide as their widths
      together plus `spacer_size` for each of the n-1 spacers. */
  lemma ConcatShape(images: seq<Image>, imageWidth: nat, spacerSize: nat)
    requires Concat(images, imageWidth, spacerSize).Success?
    ensures |images| > 0
    ensures Height(Concat(images, imageWidth, spacerSize).value) == Height(images[0])
    ensures Concat(images, imageWidth, spacerSize).value.width
            == Sum(Widths(images)) + (|images| - 1) * spacerSize
  {
    var spacer := Blank(imageWidth, spacerSize);
    WidthsOfSpaced(images, spacer);
    SpacedSum(Widths(images), spacerSize);
    ItemAt(images, spacer, 0);
  }

  /** Image k keeps its place: its pixel (y, x) appears at row y, after the
      widths of images 0..k-1 and the k spacers between them. */
  lemma ConcatPlacement(images: seq<Image>, imageWidth: nat, spacerSize: nat, k: nat, y: nat, x: nat)
    requires AllWellFormed(images) && Concat(images, imageWidth, spacerSize).Success?
    requires k < |images| && y < Height(images[k]) && x < images[k].width
    ensures WellFormed(Concat(images, imageWidth, spacerSize).value)
    ensures y < Height(Concat(images, imageWidth, spacerSize).value)
    ensures Sum(Widths(images)[..k]) + k * spacerSize + x < Concat(images, imageWidth, spacerSize).value.width
    ensures Concat(images, imageWidth, spacerSize).value.rows[y][Sum(Widths(images)[..k]) + k * spacerSize + x]
            == images[k].rows[y][x]
  {
    var spacer := Blank(imageWidth, spacerSize);
    var ws := WithSpacers(images, spacer);
    SpacedWellFormed(images, spacer);
    ItemAt(images, spacer, k);
    HstackAt(ws, 2 * k, y, x);
    WidthsOfSpaced(images, spacer);
    SpacedOffset(Widths(images), spacerSize, k);
  }

  /** The columns between image k and image k+1 are the white spacer. */
  lemma ConcatSpacer(images: seq<Image>, imageWidth: nat, spacerSize: nat, k: nat, y: nat, t: nat)
    requires AllWellFormed(images) && Concat(images, imageWidth, spacerSize).Success?
    requires k + 1 < |images| && y < Height(images[0]) && t < spacerSize
    ensures WellFormed(Concat(images, imageWidth, spacerSize).value)
    ensures y < Height(Concat(images, imageWidth, spacerSize).value)
    ensures Sum(Widths(images)[..k + 1]) + k * spacerSize + t < Concat(images, imageWidth, spacerSize).value.width
    ensures Concat(images, imageWidth, spacerSize).value.rows[y][Sum(Widths(images)[..k + 1]) + k * spacerSize + t]
            == White
  {
    var spacer := Blank(imageWidth, spacerSize);
    var ws := WithSpacers(images, spacer);
    SpacedWellFormed(images, spacer);
    ItemAt(images, spacer, k);
    SpacerAt(images, spacer, k);
    ItemAt(images, spacer, 0);
    HstackAt(ws, 2 * k + 1, y, t);
    WidthsOfSpaced(images, spacer);
    SpacerOffset(Widths(images), spacerSize, k);
  }

  // ---------------------------------------------------------------------
  // concat_images_in_rows

  /** Width of the horizontal spacer of `concat_images_in_rows`; negative
      (so np.ones raises) exactly when there are fewer images than rows and
      the spacer size is positive. */
  function HSpacerWidth(imageWidth: nat, columnSize: nat, spacerSize: nat): (w: int)
    ensures w < 0 <==> columnSize == 0 && spacerSize > 0
  {
    imageWidth * columnSize + (columnSize - 1) * spacerSize
  }

  /** Python's `s[a:b]` for non-negative bounds: both ends are clipped to
      the list. */
  function PySlice<T>(s: seq<T>, a: nat, b: nat): (r: seq<T>)
    ensures a <= b <= |s| ==> r == s[a..b]
    ensures b <= |s| ==> |r| == if a <= b then b - a else 0
  {
    var hi := if b <= |s| then b else |s|;
    var lo := if a <= hi then a else hi;
    s[lo..hi]
  }

  /** Row `row` of the mosaic: images [cs·row, cs·row + cs) joined by
      `concat_images`. */
  function RowImage(images: seq<Image>, columnSize: nat, imageWidth: nat, spacerSize: nat, row: nat): Result<Image> {
    Concat(RowSlice(images, columnSize, row), imageWidth, spacerSize)
  }

  /** `images[row * column_size : (row + 1) * column_size]`. */
  function RowSlice(images: seq<Image>, columnSize: nat, row: nat): seq<Image> {
    PySlice(images, columnSize * row, columnSize * row + columnSize)
  }

  /** What `concat_images` makes of each of the first `count` rows; a row
      that cannot be joined raises what np.hstack raises. */
  function RowResults(images: seq<Image>, columnSize: nat, imageWidth: nat, spacerSize: nat, count: nat)
    : (r: seq<Result<Image>>)
    ensures |r| == count
    ensures forall j :: 0 <= j < count ==> r[j] == RowImage(images, columnSize, imageWidth, spacerSize, j)
    ensures forall j :: 0 <= j < count && r[j].Failure? ==> r[j].error in {EmptyConcatenation, ShapeMismatch}
  {
    seq(count, j requires 0 <= j < count => RowImage(images, columnSize, imageWidth, spacerSize, j))
  }

  /** What `concat_images_in_rows(images, row_size, image_width, spacer_size)`
      returns or raises. */
  function InRows(images: seq<Image>, rowSize: nat, imageWidth: nat, spacerSize: nat): (r: Result<Image>)
    ensures r == Failure(ZeroDivision) <==> rowSize == 0
    ensures r == Failure(NegativeDimension)
            <==> rowSize > 0 && HSpacerWidth(imageWidth, |images| / rowSize, spacerSize) < 0
  {
    if rowSize == 0 then Failure(ZeroDivision)
    else
      var columnSize := |images| / rowSize;
      var spacerWidth := HSpacerWidth(imageWidth, columnSize, spacerSize);
      if spacerWidth < 0 then Failure(NegativeDimension)
      else
        var results := RowResults(images, columnSize, imageWidth, spacerSize, rowSize);
        CollectAt(results);
        var rows :- Collect(results);
        Vstack(WithSpacers(rows, Blank(spacerSize, spacerWidth)))
  }

  /** `concat_images_in_rows`: builds the white horizontal spacer, collects
      the joined rows with spacers between them, and stacks the list with
      np.vstack. */
  method ConcatImagesInRows(images: seq<Image>, rowSize: nat, imageWidth: nat, spacerSize: nat)
    returns (r: Result<Image>)
    ensures r == InRows(images, rowSize, imageWidth, spacerSize)
  {
    if rowSize == 0 {
      return Failure(ZeroDivision);
    }
    var columnSize := |images| / rowSize;
    var spacerWidth := HSpacerWidth(imageWidth, columnSize, spacerSize);
    if spacerWidth < 0 {
      return Failure(NegativeDimension);
    }
    var spacerH := Blank(spacerSize, spacerWidth);
    var rowImagesWithSpacers :- SpacedRows(images, rowSize, columnSize, imageWidth, spacerSize, spacerH);
    r := Vstack(rowImagesWithSpacers);
  }

  /** The loop of `concat_images_in_rows`: for each row, joins that row's
      images with `concat_images` and appends it, with the spacer after
      every row but the last; the first row that cannot be joined raises. */
  method SpacedRows(images: seq<Image>, rowSize: nat, columnSize: nat, imageWidth: nat, spacerSize: nat,
                    spacerH: Image)
    returns (r: Result<seq<Image>>)
    ensures var rows := Collect(RowResults(images, columnSize, imageWidth, spacerSize, rowSize));
            r == if rows.Failure? then Failure(rows.error) else Success(WithSpacers(rows.value, spacerH))
  {
    ghost var results := RowResults(images, columnSize, imageWidth, spacerSize, rowSize);
    var rowImagesWithSpacers: seq<Image> := [];
    ghost var rowImages: seq<Image> := [];
    for row := 0 to rowSize
      invariant Collect(results[..row]) == Success(rowImages)
      invariant SpacedSoFar(rowImagesWithSpacers, rowImages, spacerH, row, rowSize)
    {
      var rowResult := ConcatImages(RowSlice(images, columnSize, row), imageWidth, spacerSize);
      assert results[row] == rowResult;
      if rowResult.Failure? {
        CollectFailsAt(results, row);
        CollectStopsAtFailure(results, row + 1);
        return Failure(rowResult.error);
      }
      var rowConcatedImages := rowResult.value;
      CollectStep(results, row, rowImages, rowConcatedImages);
      SpacedStep(rowImagesWithSpacers, rowImages, spacerH, row, rowSize, rowConcatedImages);
      rowImagesWithSpacers := rowImagesWithSpacers + [rowConcatedImages];
      rowImages := rowImages + [rowConcatedImages];
      if row != rowSize - 1 {
        rowImagesWithSpacers := rowImagesWithSpacers + [spacerH];
      }
    }
    CollectAll(results);
    r := Success(rowImagesWithSpacers);
  }

  /** `concat_images_in_rows` raises ZeroDivisionError for zero rows. With
      fewer images than rows there are no columns: np.ones raises for the
      negative spacer width when the spacer has a size, and np.hstack
      raises for the empty first row when it has none. A result means
      there was an image per row and every row joined. */
  lemma InRowsOutcome(images: seq<Image>, rowSize: nat, imageWidth: nat, spacerSize: nat)
    ensures rowSize == 0 ==> InRows(images, rowSize, imageWidth, spacerSize) == Failure(ZeroDivision)
    ensures 0 < rowSize && |images| < rowSize && spacerSize > 0
            ==> InRows(images, rowSize, imageWidth, spacerSize) == Failure(NegativeDimension)
    ensures 0 < rowSize && |images| < rowSize && spacerSize == 0
            ==> InRows(images, rowSize, imageWidth, spacerSize) == Failure(EmptyConcatenation)
    ensures InRows(images, rowSize, imageWidth, spacerSize).Success?
            ==> 0 < rowSize <= |images|
                && forall row :: 0 <= row < rowSize ==>
                     RowImage(images, |images| / rowSize, imageWidth, spacerSize, row).Success?
  {
    if rowSize > 0 {
      var cs := |images| / rowSize;
      var results := RowResults(images, cs, imageWidth, spacerSize, rowSize);
      CollectAt(results);
      if |images| < rowSize {
        DivSmall(|images|, rowSize);
        forall row | 0 <= row < rowSize
          ensures results[row] == Failure(EmptyConcatenation)
        {
          assert RowSlice(images, cs, row) == [];
        }
      } else {
        forall row | 0 <= row < rowSize
          ensures results[row] == RowImage(images, cs, imageWidth, spacerSize, row)
        {
        }
      }
    }
  }

  lemma DivSmall(n: nat, d: nat)
    requires n < d
    ensures n / d == 0
  {
  }

  /** The rows of a list cut into `row_size` rows of `column_size` images
      lie inside the list. */
  lemma SliceFits(n: nat, rowSize: nat, columnSize: nat, row: nat)
    requires row < rowSize && columnSize == n / rowSize
    ensures columnSize * row + columnSize <= columnSize * rowSize <= n
  {
    assert n == rowSize * columnSize + n % rowSize;
    MulMonotone(columnSize, row + 1, rowSize);
  }

  lemma MulMonotone(c: nat, a: nat, b: nat)
    requires a <= b
    ensures c * a <= c * b
  {
  }
}
