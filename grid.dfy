/** `save_results`: the `axis_size x axis_size` grid of sample images, panel
    `k` at row `k // axis_size` and column `k % axis_size`, drawn only for the
    datasets the function knows. */
module Grid {
  import opened Python
  import opened Gan

  /** What a panel shows: nothing, a colour image (CIFAR10, CIFAR100), or
      the first channel of an image in grey (MNIST). The pixel rescaling and
      channel reordering are not modelled. */
  datatype Content<Image> = Blank | Rgb(image: Image) | Gray(image: Image)

  datatype Panel<Image> = Panel(row: int, col: int, content: Content<Image>)

  /** A saved figure: where it was written and its panels in drawing order. */
  datatype Figure<Image> = Figure(path: string, panels: seq<Panel<Image>>)

  predicate IsRgbDataset(dataset: string)
  {
    dataset == "CIFAR100" || dataset == "CIFAR10"
  }

  predicate IsGrayDataset(dataset: string)
  {
    dataset == "MNIST"
  }

  /** The datasets for which panels are drawn; any other leaves them blank. */
  predicate Draws(dataset: string)
  {
    IsRgbDataset(dataset) || IsGrayDataset(dataset)
  }

  /** Row and column of panel `k`. */
  function Cell(k: int, axisSize: int): (c: (int, int))
    requires axisSize > 0
    ensures c.0 * axisSize + c.1 == k && 0 <= c.1 < axisSize
    ensures k >= 0 ==> c.0 >= 0
  {
    (k / axisSize, k % axisSize)
  }

  /** Every panel index below `axisSize * axisSize` lands inside the grid. */
  lemma CellInGrid(k: int, axisSize: int)
    requires axisSize > 0 && 0 <= k < axisSize * axisSize
    ensures 0 <= Cell(k, axisSize).0 < axisSize && 0 <= Cell(k, axisSize).1 < axisSize
  {
    var q, m := k / axisSize, k % axisSize;
    assert k == q * axisSize + m;
    if q >= axisSize {
      MultiplyMonotone(axisSize, q, axisSize);
    }
  }

  /** `a * c <= b * c` for `a <= b` and a non-negative `c`. */
  lemma MultiplyMonotone(a: int, b: int, c: int)
    requires a <= b && 0 <= c
    ensures a * c <= b * c
  {
    var e := b - a;
    assert b * c == a * c + e * c;
  }

  /** Dividing `q * d + r` by `d` gives back `q` and `r` when `0 <= r < d`. */
  lemma DivisionOfCell(q: int, r: int, d: int)
    requires d > 0 && 0 <= r < d
    ensures (q * d + r) / d == q && (q * d + r) % d == r
  {
    var k := q * d + r;
    var q2, r2 := k / d, k % d;
    assert k == q2 * d + r2;
    if q2 < q {
      MultiplyMonotone(q2 + 1, q, d);
    } else if q < q2 {
      MultiplyMonotone(q + 1, q2, d);
    }
  }

  /** Distinct panel indices land in distinct cells. */
  lemma CellInjective(k1: int, k2: int, axisSize: int)
    requires axisSize > 0
    requires Cell(k1, axisSize) == Cell(k2, axisSize)
    ensures k1 == k2
  {
    assert k1 == (k1 / axisSize) * axisSize + k1 % axisSize;
    assert k2 == (k2 / axisSize) * axisSize + k2 % axisSize;
  }

  /** Every cell of the grid is the cell of panel `i * axisSize + j`. */
  lemma CellOfEveryPosition(i: int, j: int, axisSize: int)
    requires 0 <= i < axisSize && 0 <= j < axisSize
    ensures 0 <= i * axisSize + j < axisSize * axisSize
    ensures Cell(i * axisSize + j, axisSize) == (i, j)
  {
    DivisionOfCell(i, j, axisSize);
    MultiplyMonotone(i, axisSize - 1, axisSize);
    assert (axisSize - 1) * axisSize + axisSize == axisSize * axisSize;
  }

  /** What panel `k` shows. */
  function PanelContent<Image>(dataset: string, images: seq<Image>, k: int): (c: Content<Image>)
    requires 0 <= k && (Draws(dataset) ==> k < |images|)
    ensures c.Blank? <==> !Draws(dataset)
    ensures c.Rgb? <==> IsRgbDataset(dataset)
    ensures !c.Blank? ==> c.image == images[k]
  {
    if IsRgbDataset(dataset) then Rgb(images[k])
    else if IsGrayDataset(dataset) then Gray(images[k])
    else Blank
  }

  /** The panels `save_results` draws, in the order it draws them. */
  function GridPanels<Image>(dataset: string, images: seq<Image>, axisSize: int): (p: seq<Panel<Image>>)
    requires axisSize > 0 && (Draws(dataset) ==> axisSize * axisSize <= |images|)
    ensures |p| == axisSize * axisSize
    ensures forall k :: 0 <= k < |p| ==> (p[k].row, p[k].col) == Cell(k, axisSize)
  {
    seq(axisSize * axisSize, k requires 0 <= k < axisSize * axisSize =>
      Panel(k / axisSize, k % axisSize, PanelContent(dataset, images, k)))
  }

  /** The grid has one panel per cell: each cell `(i, j)` of the
      `axisSize x axisSize` grid holds exactly one panel, the one at index
      `i * axisSize + j`, and no panel lies outside the grid. */
  lemma GridCoversEachCellOnce<Image>(dataset: string, images: seq<Image>, axisSize: int, i: int, j: int)
    requires axisSize > 0 && (Draws(dataset) ==> axisSize * axisSize <= |images|)
    requires 0 <= i < axisSize && 0 <= j < axisSize
    ensures var p := GridPanels(dataset, images, axisSize);
      && |p| == axisSize * axisSize
      && 0 <= i * axisSize + j < |p|
      && p[i * axisSize + j].row == i && p[i * axisSize + j].col == j
      && (forall k :: 0 <= k < |p| && p[k].row == i && p[k].col == j ==> k == i * axisSize + j)
  {
    var p := GridPanels(dataset, images, axisSize);
    CellOfEveryPosition(i, j, axisSize);
    forall k | 0 <= k < |p| && p[k].row == i && p[k].col == j
      ensures k == i * axisSize + j
    {
      CellInjective(k, i * axisSize + j, axisSize);
    }
  }

  /** Every panel lies inside the grid. */
  lemma GridPanelsInside<Image>(dataset: string, images: seq<Image>, axisSize: int, k: int)
    requires axisSize > 0 && (Draws(dataset) ==> axisSize * axisSize <= |images|)
    requires 0 <= k < axisSize * axisSize
    ensures var p := GridPanels(dataset, images, axisSize);
      0 <= p[k].row < axisSize && 0 <= p[k].col < axisSize
  {
    CellInGrid(k, axisSize);
  }

  /** The grid reads only `images[0 .. axisSize * axisSize - 1]`, and no
      image at all for a dataset it does not draw: two batches that agree on
      those entries give the same panels. */
  lemma GridReadsOnlyShownImages<Image>(dataset: string, images: seq<Image>, other: seq<Image>, axisSize: int)
    requires axisSize > 0
    requires Draws(dataset) ==> axisSize * axisSize <= |images| && axisSize * axisSize <= |other|
    requires Draws(dataset) ==> forall k :: 0 <= k < axisSize * axisSize ==> images[k] == other[k]
    ensures GridPanels(dataset, images, axisSize) == GridPanels(dataset, other, axisSize)
  {
    var p, q := GridPanels(dataset, images, axisSize), GridPanels(dataset, other, axisSize);
    forall k | 0 <= k < axisSize * axisSize ensures p[k] == q[k] { }
  }

  /** For a dataset other than CIFAR10, CIFAR100 and MNIST every panel is
      blank. */
  lemma UnknownDatasetIsBlank<Image>(dataset: string, images: seq<Image>, axisSize: int)
    requires axisSize > 0 && !Draws(dataset)
    ensures forall k :: 0 <= k < axisSize * axisSize ==> GridPanels(dataset, images, axisSize)[k].content == Blank
  {
  }

  /** `save_results(args, images, name, is_tensor, axis_size, experiment)`.
      `plt.subplots` refuses a non-positive size (ValueError) and returns a
      single, unsubscriptable Axes for size one (TypeError); otherwise each
      panel is cleared and, for a known dataset, shows `images[k]`, which
      raises IndexError when the batch is shorter than the grid. The figure
      goes to `<experiment path>results/<name>.png`. `is_tensor` only chooses
      how a tensor is read and does not change what is drawn. */
  method SaveResults<Image>(args: Args, images: seq<Image>, name: string, isTensor: bool, axisSize: int,
                            experimentPath: string)
    returns (r: Result<Figure<Image>>)
    ensures axisSize <= 0 ==> r == Failure(ValueError)
    ensures axisSize == 1 ==> r == Failure(TypeError)
    ensures axisSize >= 2 && Draws(args.dataset) && |images| < axisSize * axisSize ==> r == Failure(IndexError)
    ensures axisSize >= 2 && (!Draws(args.dataset) || axisSize * axisSize <= |images|) ==>
      r == Success(Figure(experimentPath + "results/" + name + ".png", GridPanels(args.dataset, images, axisSize)))
  {
    if axisSize <= 0 {
      return Failure(ValueError);
    }
    if axisSize == 1 {
      return Failure(TypeError);
    }
    var panels: seq<Panel<Image>> := [];
    var k := 0;
    while k < axisSize * axisSize
      invariant 0 <= k <= axisSize * axisSize
      invariant Draws(args.dataset) ==> k <= |images|
      invariant |panels| == k
      invariant forall m :: 0 <= m < k ==> panels[m] == Panel(m / axisSize, m % axisSize, PanelContent(args.dataset, images, m))
    {
      var i := k / axisSize;
      var j := k % axisSize;
      var content: Content<Image> := Blank;
      if IsRgbDataset(args.dataset) || IsGrayDataset(args.dataset) {
        if k >= |images| {
          return Failure(IndexError);
        }
        content := if IsRgbDataset(args.dataset) then Rgb(images[k]) else Gray(images[k]);
      }
      panels := panels + [Panel(i, j, content)];
      k := k + 1;
    }
    assert panels == GridPanels(args.dataset, images, axisSize);
    return Success(Figure(experimentPath + "results/" + name + ".png", panels));
  }
}
