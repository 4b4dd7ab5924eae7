/** Images as numpy would hold them (height × width × 4 channels of uint8)
    and the two numpy joins the rate-map layout relies on: np.hstack, which
    puts images side by side, and np.vstack, which puts them one above the
    other. */
module Images {
  import opened Common

  /** One RGBA pixel; each channel a uint8. */
  datatype Pixel = Rgba(r: int, g: int, b: int, a: int)

  /** The value of every channel of `np.ones(..., dtype=np.uint8) * 255`. */
  const White: Pixel := Rgba(255, 255, 255, 255)

  /** An image `rows[y][x]`; `width` is kept apart so that an image with no
      rows still has a width, as a numpy array of shape [0, w, 4] does. */
  datatype Image = Image(width: nat, rows: seq<seq<Pixel>>)

  function Height(img: Image): nat { |img.rows| }

  /** Every row has the image's width (numpy arrays are rectangular). */
  predicate WellFormed(img: Image) {
    forall y :: 0 <= y < |img.rows| ==> |img.rows[y]| == img.width
  }

  predicate AllWellFormed(ps: seq<Image>) {
    forall k :: 0 <= k < |ps| ==> WellFormed(ps[k])
  }

  /** `np.ones([h, w, 4], dtype=np.uint8) * 255`: an all-white image. */
  function Blank(h: nat, w: nat): (img: Image)
    ensures WellFormed(img) && Height(img) == h && img.width == w
    ensures forall y, x :: 0 <= y < h && 0 <= x < w ==> img.rows[y][x] == White
  {
    Image(w, seq(h, _ => seq(w, _ => White)))
  }

  // ---------------------------------------------------------------------
  // Sums of extents, and lists with a spacer between consecutive items

  function Sum(xs: seq<nat>): nat {
    if xs == [] then 0 else Sum(xs[..|xs| - 1]) + xs[|xs| - 1]
  }

  function Widths(ps: seq<Image>): (ws: seq<nat>)
    ensures |ws| == |ps| && forall k :: 0 <= k < |ps| ==> ws[k] == ps[k].width
  {
    seq(|ps|, k requires 0 <= k < |ps| => ps[k].width)
  }

  function Heights(ps: seq<Image>): (hs: seq<nat>)
    ensures |hs| == |ps| && forall k :: 0 <= k < |ps| ==> hs[k] == Height(ps[k])
  {
    seq(|ps|, k requires 0 <= k < |ps| => Height(ps[k]))
  }

  /** The list `items[0], spacer, items[1], spacer, …, items[n-1]`: one
      spacer between consecutive items and none after the last. */
  function WithSpacers<T>(items: seq<T>, spacer: T): (r: seq<T>)
    ensures |items| == 0 ==> r == []
    ensures |items| > 0 ==> |r| == 2 * |items| - 1
  {
    if |items| <= 1 then items
    else WithSpacers(items[..|items| - 1], spacer) + [spacer, items[|items| - 1]]
  }

  /** Item k of the spaced list sits at position 2k. */
  lemma {:induction false} ItemAt<T>(items: seq<T>, spacer: T, k: nat)
    requires k < |items|
    ensures WithSpacers(items, spacer)[2 * k] == items[k]
  {
    if k + 1 < |items| {
      ItemAt(items[..|items| - 1], spacer, k);
    }
  }

  /** The position after item k holds the spacer, for every item but the last. */
  lemma {:induction false} SpacerAt<T>(items: seq<T>, spacer: T, k: nat)
    requires k + 1 < |items|
    ensures WithSpacers(items, spacer)[2 * k + 1] == spacer
  {
    if k + 2 < |items| {
      SpacerAt(items[..|items| - 1], spacer, k);
    }
  }

  /** Appending an item to the list appends a spacer and the item to the
      spaced list (just the item if the list was empty). */
  lemma WithSpacersSnoc<T>(items: seq<T>, spacer: T, x: T)
    ensures WithSpacers(items + [x], spacer)
            == if items == [] then [x] else WithSpacers(items, spacer) + [spacer, x]
  {
    assert (items + [x])[..|items|] == items;
  }

  /** The list built so far by a loop that appends each of `total` items
      followed by a spacer, except after the last: `done` holds the `row`
      items appended. */
  ghost predicate SpacedSoFar<T>(acc: seq<T>, done: seq<T>, spacer: T, row: nat, total: nat) {
    acc == if row == 0 then []
           else if row < total then WithSpacers(done, spacer) + [spacer]
           else WithSpacers(done, spacer)
  }

  /** One turn of that loop: append the item, then the spacer unless the
      item is the last. */
  lemma SpacedStep<T>(acc: seq<T>, done: seq<T>, spacer: T, row: nat, total: nat, x: T)
    requires row < total && |done| == row && SpacedSoFar(acc, done, spacer, row, total)
    ensures row + 1 < total ==> SpacedSoFar(acc + [x] + [spacer], done + [x], spacer, row + 1, total)
    ensures row + 1 == total ==> SpacedSoFar(acc + [x], done + [x], spacer, row + 1, total)
  {
    WithSpacersSnoc(done, spacer, x);
  }

  lemma SumStep(xs: seq<nat>, j: nat)
    requires j < |xs|
    ensures Sum(xs[..j + 1]) == Sum(xs[..j]) + xs[j]
  {
    assert xs[..j + 1][..j] == xs[..j];
  }

  /** The spacer after item k ends where the first k+1 extents and k
      spacers end. */
  lemma SpacerOffset(xs: seq<nat>, s: nat, k: nat)
    requires k + 1 < |xs|
    ensures Sum(WithSpacers(xs, s)[..2 * k + 1]) == Sum(xs[..k + 1]) + k * s
  {
    SpacedOffset(xs, s, k);
    ItemAt(xs, s, k);
    SumStep(WithSpacers(xs, s), 2 * k);
    SumStep(xs, k);
  }

  /** A spaced list of extents adds up to its items plus one spacer fewer
      than there are items. */
  lemma {:induction false} SpacedSum(xs: seq<nat>, s: nat)
    requires |xs| > 0
    ensures Sum(WithSpacers(xs, s)) == Sum(xs) + (|xs| - 1) * s
  {
    if |xs| > 1 {
      var n := |xs|;
      var front := WithSpacers(xs[..n - 1], s);
      SpacedSum(xs[..n - 1], s);
      assert (front + [s, xs[n - 1]])[..2 * n - 2] == front + [s];
      assert (front + [s])[..2 * n - 3] == front;
      MultSucc(n - 2, s);
    }
  }

  /** In a spaced list of extents, the items before item k (and the k
      spacers between them) add up to the first k extents plus k spacers. */
  lemma {:induction false} SpacedOffset(xs: seq<nat>, s: nat, k: nat)
    requires k < |xs|
    ensures Sum(WithSpacers(xs, s)[..2 * k]) == Sum(xs[..k]) + k * s
  {
    var n := |xs|;
    if k + 1 < n {
      var front := WithSpacers(xs[..n - 1], s);
      SpacedOffset(xs[..n - 1], s, k);
      assert (front + [s, xs[n - 1]])[..2 * k] == front[..2 * k];
      assert xs[..n - 1][..k] == xs[..k];
    } else if k > 0 {
      SpacedAllButLast(xs, s);
    }
  }

  /** Everything before the last item of a spaced list: all other items and
      one spacer after each. */
  lemma SpacedAllButLast(xs: seq<nat>, s: nat)
    requires |xs| > 1
    ensures Sum(WithSpacers(xs, s)[..2 * (|xs| - 1)]) == Sum(xs[..|xs| - 1]) + (|xs| - 1) * s
  {
    var k := |xs| - 1;
    var front := WithSpacers(xs[..k], s);
    SpacedSum(xs[..k], s);
    assert (front + [s, xs[k]])[..2 * k] == front + [s];
    assert (front + [s])[..2 * k - 1] == front;
    MultSucc(k - 1, s);
  }

  /** (j + 1)·s is j·s and one more s. */
  lemma MultSucc(j: nat, s: nat)
    ensures j * s + s == (j + 1) * s
  {
  }

  lemma {:induction false} WidthsOfSpaced(ps: seq<Image>, spacer: Image)
    ensures Widths(WithSpacers(ps, spacer)) == WithSpacers(Widths(ps), spacer.width)
  {
    if |ps| > 1 {
      WidthsOfSpaced(ps[..|ps| - 1], spacer);
      assert Widths(ps)[..|ps| - 1] == Widths(ps[..|ps| - 1]);
    }
  }

  lemma {:induction false} HeightsOfSpaced(ps: seq<Image>, spacer: Image)
    ensures Heights(WithSpacers(ps, spacer)) == WithSpacers(Heights(ps), Height(spacer))
  {
    if |ps| > 1 {
      HeightsOfSpaced(ps[..|ps| - 1], spacer);
      assert Heights(ps)[..|ps| - 1] == Heights(ps[..|ps| - 1]);
    }
  }

  /** The sum of n copies of e. */
  lemma {:induction false} SumConstant(xs: seq<nat>, e: nat)
    requires forall k :: 0 <= k < |xs| ==> xs[k] == e
    ensures Sum(xs) == |xs| * e
  {
    if xs != [] {
      SumConstant(xs[..|xs| - 1], e);
    }
  }

  // ---------------------------------------------------------------------
  // np.hstack

  predicate AllHeight(ps: seq<Image>, h: nat) {
    forall k :: 0 <= k < |ps| ==> Height(ps[k]) == h
  }

  /** Row y of the images placed side by side. */
  function JoinRow(ps: seq<Image>, y: nat): seq<Pixel>
    requires forall k :: 0 <= k < |ps| ==> y < |ps[k].rows|
  {
    if ps == [] then [] else JoinRow(ps[..|ps| - 1], y) + ps[|ps| - 1].rows[y]
  }

  /** np.hstack over 3-D arrays: joins along the width; needs at least one
      image and every image of the same height. */
  function Hstack(ps: seq<Image>): (r: Result<Image>)
    ensures r.Success? <==> ps != [] && AllHeight(ps, Height(ps[0]))
    ensures ps == [] ==> r == Failure(EmptyConcatenation)
    ensures ps != [] && r.Failure? ==> r.error == ShapeMismatch
    ensures r.Success? ==> Height(r.value) == Height(ps[0]) && r.value.width == Sum(Widths(ps))
  {
    if ps == [] then Failure(EmptyConcatenation)
    else if !AllHeight(ps, Height(ps[0])) then Failure(ShapeMismatch)
    else
      var h := Height(ps[0]);
      Success(Image(Sum(Widths(ps)), seq(h, y requires 0 <= y < h => JoinRow(ps, y))))
  }

  /** Pixel x of image k lands in column x of the k-th block of the joined
      row, the block starting after the widths of the images before it. */
  lemma {:induction false} JoinRowAt(ps: seq<Image>, y: nat, k: nat, x: nat)
    requires AllWellFormed(ps)
    requires forall i :: 0 <= i < |ps| ==> y < |ps[i].rows|
    requires k < |ps| && x < ps[k].width
    ensures |JoinRow(ps, y)| == Sum(Widths(ps))
    ensures Sum(Widths(ps)[..k]) + x < |JoinRow(ps, y)|
    ensures JoinRow(ps, y)[Sum(Widths(ps)[..k]) + x] == ps[k].rows[y][x]
  {
    var n := |ps|;
    var init := ps[..n - 1];
    JoinRowLength(ps, y);
    JoinRowLength(init, y);
    assert Widths(init) == Widths(ps)[..n - 1];
    if k < n - 1 {
      JoinRowAt(init, y, k, x);
      assert Widths(init)[..k] == Widths(ps)[..k];
    } else {
      assert Widths(ps)[..k] == Widths(init);
    }
  }

  lemma {:induction false} JoinRowLength(ps: seq<Image>, y: nat)
    requires AllWellFormed(ps)
    requires forall i :: 0 <= i < |ps| ==> y < |ps[i].rows|
    ensures |JoinRow(ps, y)| == Sum(Widths(ps))
  {
    if ps != [] {
      var init := ps[..|ps| - 1];
      assert Widths(init) == Widths(ps)[..|ps| - 1];
      JoinRowLength(init, y);
    }
  }

  /** np.hstack of well-formed images is well formed, and pixel (y, x) of
      image k sits at (y, offset_k + x). */
  lemma HstackAt(ps: seq<Image>, k: nat, y: nat, x: nat)
    requires AllWellFormed(ps) && Hstack(ps).Success?
    requires k < |ps| && y < Height(ps[k]) && x < ps[k].width
    ensures WellFormed(Hstack(ps).value)
    ensures Sum(Widths(ps)[..k]) + x < Hstack(ps).value.width
    ensures Hstack(ps).value.rows[y][Sum(Widths(ps)[..k]) + x] == ps[k].rows[y][x]
  {
    HstackWellFormed(ps);
    JoinRowAt(ps, y, k, x);
  }

  lemma HstackWellFormed(ps: seq<Image>)
    requires AllWellFormed(ps) && Hstack(ps).Success?
    ensures WellFormed(Hstack(ps).value)
  {
    var r := Hstack(ps).value;
    forall y | 0 <= y < Height(r)
      ensures |r.rows[y]| == r.width
    {
      JoinRowLength(ps, y);
    }
  }

  // ---------------------------------------------------------------------
  // np.vstack

  predicate AllWidth(ps: seq<Image>, w: nat) {
    forall k :: 0 <= k < |ps| ==> ps[k].width == w
  }

  /** The rows of the images, top to bottom. */
  function StackRows(ps: seq<Image>): seq<seq<Pixel>> {
    if ps == [] then [] else StackRows(ps[..|ps| - 1]) + ps[|ps| - 1].rows
  }

  /** np.vstack over 3-D arrays: joins along the height; needs at least one
      image and every image of the same width. */
  function Vstack(ps: seq<Image>): (r: Result<Image>)
    ensures r.Success? <==> ps != [] && AllWidth(ps, ps[0].width)
    ensures ps == [] ==> r == Failure(EmptyConcatenation)
    ensures ps != [] && r.Failure? ==> r.error == ShapeMismatch
    ensures r.Success? ==> r.value.width == ps[0].width
  {
    if ps == [] then Failure(EmptyConcatenation)
    else if !AllWidth(ps, ps[0].width) then Failure(ShapeMismatch)
    else Success(Image(ps[0].width, StackRows(ps)))
  }

  /** Row y of image k lands at row offset_k + y of the stack, the offset
      being the heights of the images above it. */
  lemma {:induction false} StackRowsAt(ps: seq<Image>, k: nat, y: nat)
    requires k < |ps| && y < Height(ps[k])
    ensures |StackRows(ps)| == Sum(Heights(ps))
    ensures Sum(Heights(ps)[..k]) + y < |StackRows(ps)|
    ensures StackRows(ps)[Sum(Heights(ps)[..k]) + y] == ps[k].rows[y]
  {
    var n := |ps|;
    var init := ps[..n - 1];
    StackRowsLength(ps);
    StackRowsLength(init);
    assert Heights(init) == Heights(ps)[..n - 1];
    if k < n - 1 {
      StackRowsAt(init, k, y);
      assert Heights(init)[..k] == Heights(ps)[..k];
    } else {
      assert Heights(ps)[..k] == Heights(init);
    }
  }

  lemma {:induction false} StackRowsLength(ps: seq<Image>)
    ensures |StackRows(ps)| == Sum(Heights(ps))
  {
    if ps != [] {
      var init := ps[..|ps| - 1];
      assert Heights(init) == Heights(ps)[..|ps| - 1];
      StackRowsLength(init);
    }
  }

  /** np.vstack of well-formed images is well formed, is as tall as the
      images together, and row y of image k is row offset_k + y. */
  lemma VstackAt(ps: seq<Image>, k: nat, y: nat)
    requires AllWellFormed(ps) && Vstack(ps).Success?
    requires k < |ps| && y < Height(ps[k])
    ensures WellFormed(Vstack(ps).value)
    ensures Height(Vstack(ps).value) == Sum(Heights(ps))
    ensures Sum(Heights(ps)[..k]) + y < Height(Vstack(ps).value)
    ensures Vstack(ps).value.rows[Sum(Heights(ps)[..k]) + y] == ps[k].rows[y]
  {
    VstackWellFormed(ps);
    StackRowsAt(ps, k, y);
  }

  /** np.vstack is as tall as the images together. */
  lemma VstackHeight(ps: seq<Image>)
    requires Vstack(ps).Success?
    ensures Height(Vstack(ps).value) == Sum(Heights(ps))
  {
    StackRowsLength(ps);
  }

  lemma {:induction false} VstackWellFormed(ps: seq<Image>)
    requires AllWellFormed(ps) && Vstack(ps).Success?
    ensures WellFormed(Vstack(ps).value)
    ensures Height(Vstack(ps).value) == Sum(Heights(ps))
  {
    StackRowsLength(ps);
    var r := Vstack(ps).value;
    forall y | 0 <= y < Height(r)
      ensures |r.rows[y]| == r.width
    {
      StackRowsRow(ps, y);
    }
  }

  /** Every stacked row is a row of one of the images. */
  lemma {:induction false} StackRowsRow(ps: seq<Image>, i: nat)
    requires i < |StackRows(ps)|
    ensures exists k, y :: 0 <= k < |ps| && 0 <= y < Height(ps[k]) && StackRows(ps)[i] == ps[k].rows[y]
  {
    var n := |ps|;
    var init := ps[..n - 1];
    if i < |StackRows(init)| {
      StackRowsRow(init, i);
      var k, y :| 0 <= k < |init| && 0 <= y < Height(init[k]) && StackRows(init)[i] == init[k].rows[y];
      assert StackRows(ps)[i] == ps[k].rows[y];
    } else {
      var y := i - |StackRows(init)|;
      assert StackRows(ps)[i] == ps[n - 1].rows[y];
    }
  }

  // ---------------------------------------------------------------------
  // Spaced lists of images

  lemma {:induction false} SpacedWellFormed(images: seq<Image>, spacer: Image)
    requires AllWellFormed(images) && WellFormed(spacer)
    ensures AllWellFormed(WithSpacers(images, spacer))
  {
    if |images| > 1 {
      SpacedWellFormed(images[..|images| - 1], spacer);
    }
  }

  lemma {:induction false} SpacedAllWidth(ps: seq<Image>, spacer: Image, w: nat)
    requires AllWidth(ps, w) && spacer.width == w
    ensures AllWidth(WithSpacers(ps, spacer), w)
  {
    if |ps| > 1 {
      SpacedAllWidth(ps[..|ps| - 1], spacer, w);
    }
  }

  /** Images of one width and height, stacked with a blank spacer of that
      width between neighbours: the stack succeeds, keeps the width, and is
      as tall as the images plus the spacers. */
  lemma SpacedStack(ps: seq<Image>, h: nat, w: nat, s: nat)
    requires |ps| > 0 && AllWellFormed(ps) && AllWidth(ps, w)
    requires forall k :: 0 <= k < |ps| ==> Height(ps[k]) == h
    ensures var out := Vstack(WithSpacers(ps, Blank(s, w)));
            out.Success? && WellFormed(out.value) && out.value.width == w
            && Height(out.value) == |ps| * h + (|ps| - 1) * s
  {
    var spacer := Blank(s, w);
    var ws := WithSpacers(ps, spacer);
    SpacedAllWidth(ps, spacer, w);
    ItemAt(ps, spacer, 0);
    SpacedWellFormed(ps, spacer);
    VstackWellFormed(ws);
    VstackHeight(ws);
    HeightsOfSpaced(ps, spacer);
    SpacedHeight(ps, spacer);
    SumConstant(Heights(ps), h);
  }

  /** A spaced list of images is as tall as the images plus the spacers. */
  lemma SpacedHeight(ps: seq<Image>, spacer: Image)
    requires |ps| > 0
    ensures Sum(Heights(WithSpacers(ps, spacer))) == Sum(Heights(ps)) + (|ps| - 1) * Height(spacer)
  {
    HeightsOfSpaced(ps, spacer);
    SpacedSum(Heights(ps), Height(spacer));
  }

  /** Image k of a spaced list starts below the k images and k spacers
      before it. */
  lemma SpacedHeightOffset(ps: seq<Image>, spacer: Image, k: nat)
    requires k < |ps|
    ensures Sum(Heights(WithSpacers(ps, spacer))[..2 * k]) == Sum(Heights(ps)[..k]) + k * Height(spacer)
  {
    HeightsOfSpaced(ps, spacer);
    SpacedOffset(Heights(ps), Height(spacer), k);
  }

  /** The spacer after image k starts below the k + 1 images and k spacers
      before it. */
  lemma SpacerHeightOffset(ps: seq<Image>, spacer: Image, k: nat)
    requires k + 1 < |ps|
    ensures Sum(Heights(WithSpacers(ps, spacer))[..2 * k + 1]) == Sum(Heights(ps)[..k + 1]) + k * Height(spacer)
  {
    HeightsOfSpaced(ps, spacer);
    SpacerOffset(Heights(ps), Height(spacer), k);
  }

  /** In a spaced list of images all h tall, with spacers s tall, image k
      starts at row k·(h + s). */
  lemma ImageOffset(ps: seq<Image>, spacer: Image, h: nat, s: nat, k: nat)
    requires forall i :: 0 <= i < |ps| ==> Height(ps[i]) == h
    requires Height(spacer) == s && k < |ps|
    ensures Sum(Heights(WithSpacers(ps, spacer))[..2 * k]) == k * (h + s)
  {
    SpacedHeightOffset(ps, spacer, k);
    SumConstant(Heights(ps)[..k], h);
    Distribute(k, h, s);
  }

  /** k images of height h and k spacers of height s take k·(h + s) rows. */
  lemma Distribute(k: nat, h: nat, s: nat)
    ensures k * h + k * s == k * (h + s)
    ensures (k + 1) * h + k * s == k * (h + s) + h
  {
  }

  /** In a spaced list of images all h tall, the spacer after image k starts
      at row k·(h + s) + h. */
  lemma SpacerOffsetRows(ps: seq<Image>, spacer: Image, h: nat, s: nat, k: nat)
    requires forall i :: 0 <= i < |ps| ==> Height(ps[i]) == h
    requires Height(spacer) == s && k + 1 < |ps|
    ensures Sum(Heights(WithSpacers(ps, spacer))[..2 * k + 1]) == k * (h + s) + h
  {
    SpacerHeightOffset(ps, spacer, k);
    SumConstant(Heights(ps)[..k + 1], h);
    Distribute(k, h, s);
  }

  /** Row y of the image at position j of a stack is row `row` of the stack,
      when `row` is y below the heights of the images above it. */
  lemma StackRowAt(ws: seq<Image>, j: nat, y: nat, row: nat)
    requires AllWellFormed(ws) && Vstack(ws).Success?
    requires j < |ws| && y < Height(ws[j]) && row == Sum(Heights(ws)[..j]) + y
    ensures WellFormed(Vstack(ws).value) && row < Height(Vstack(ws).value)
    ensures Vstack(ws).value.rows[row] == ws[j].rows[y]
  {
    VstackAt(ws, j, y);
  }

  /** In such a stack, row y of image k is row k·(h + s) + y (given as
      `row`). */
  lemma SpacedStackRow(ps: seq<Image>, h: nat, w: nat, s: nat, k: nat, y: nat, row: nat)
    requires |ps| > 0 && AllWellFormed(ps) && AllWidth(ps, w)
    requires forall i :: 0 <= i < |ps| ==> Height(ps[i]) == h
    requires k < |ps| && y < h && row == k * (h + s) + y
    ensures var out := Vstack(WithSpacers(ps, Blank(s, w)));
            out.Success? && Height(ps[k]) == h && row < Height(out.value)
            && out.value.rows[row] == ps[k].rows[y]
  {
    var spacer := Blank(s, w);
    var ws := WithSpacers(ps, spacer);
    SpacedStack(ps, h, w, s);
    ItemAt(ps, spacer, k);
    SpacedWellFormed(ps, spacer);
    ImageOffset(ps, spacer, h, s, k);
    StackRowAt(ws, 2 * k, y, row);
  }

  /** In such a stack, the s rows after image k (all but the last) are
      white across the whole width: row k·(h + s) + h + t, given as `row`,
      for t < s. */
  lemma SpacedStackGap(ps: seq<Image>, h: nat, w: nat, s: nat, k: nat, t: nat, x: nat, row: nat)
    requires |ps| > 0 && AllWellFormed(ps) && AllWidth(ps, w)
    requires forall i :: 0 <= i < |ps| ==> Height(ps[i]) == h
    requires k + 1 < |ps| && t < s && x < w && row == k * (h + s) + h + t
    ensures var out := Vstack(WithSpacers(ps, Blank(s, w)));
            out.Success? && WellFormed(out.value) && row < Height(out.value)
            && out.value.rows[row][x] == White
  {
    var spacer := Blank(s, w);
    var ws := WithSpacers(ps, spacer);
    SpacedStack(ps, h, w, s);
    SpacerAt(ps, spacer, k);
    SpacedWellFormed(ps, spacer);
    SpacerOffsetRows(ps, spacer, h, s, k);
    StackRowAt(ws, 2 * k + 1, t, row);
  }
}
