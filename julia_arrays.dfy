/** GetJuliaArrays: the viewport of a Julia picture and the three arrays a
    kernel starts from, the grid of complex samples z, the divergence array
    pre-filled with julia_iterations - 1 and the all-true convergence mask. */
module JuliaArrays {
  import opened Numpy
  import opened EscapeTime

  /** The exceptions the getters raise: Python's float division by a zero
      zoom, and np.linspace's refusal of a negative number of samples. */
  datatype Error = ZeroDivisionError | ValueError

  datatype Outcome<T> = Ok(value: T) | Fail(error: Error)

  /** The fields a GetJuliaArrays object holds. */
  datatype JuliaArrays = JuliaArrays(
    juliaIterations: int,
    xStart: real, xWidth: real,
    yStart: real, yWidth: real,
    height: int, width: int,
    zoom: real)

  /** The constructor: every argument is stored unchanged, with the same
      defaults as the Python signature. */
  function GetJuliaArrays(juliaIterations: int := 100, xStart: real := 0.0, xWidth: real := 1.5,
                          yStart: real := 0.0, yWidth: real := 1.5, height: int := 500,
                          width: int := 500, zoom: real := 1.0): (g: JuliaArrays)
    ensures g.juliaIterations == juliaIterations
    ensures g.xStart == xStart && g.xWidth == xWidth
    ensures g.yStart == yStart && g.yWidth == yWidth
    ensures g.height == height && g.width == width
    ensures g.zoom == zoom
  {
    JuliaArrays(juliaIterations, xStart, xWidth, yStart, yWidth, height, width, zoom)
  }

  /** The corners of the picture in the complex plane. */
  datatype Viewport = Viewport(xMin: real, xMax: real, yMin: real, yMax: real)

  /** x_min, x_max, y_min and y_max of get_z_array: each axis is centred on
      its start and spans twice its width divided by the zoom. A zero zoom
      raises ZeroDivisionError. */
  function GetViewport(a: JuliaArrays): (r: Outcome<Viewport>)
    ensures r.Fail? <==> a.zoom == 0.0
    ensures r.Fail? ==> r.error == ZeroDivisionError
    ensures r.Ok? ==>
      && r.value.xMin + r.value.xMax == 2.0 * a.xStart
      && r.value.yMin + r.value.yMax == 2.0 * a.yStart
      && (r.value.xMax - r.value.xMin) * a.zoom == 2.0 * a.xWidth
      && (r.value.yMax - r.value.yMin) * a.zoom == 2.0 * a.yWidth
  {
    if a.zoom == 0.0 then Fail(ZeroDivisionError)
    else
      Ok(Viewport(a.xStart - a.xWidth / a.zoom, a.xStart + a.xWidth / a.zoom,
                  a.yStart - a.yWidth / a.zoom, a.yStart + a.yWidth / a.zoom))
  }

  /** With a positive zoom and non-negative widths the bounds are ordered. */
  lemma ViewportOrdered(a: JuliaArrays)
    requires a.zoom > 0.0 && a.xWidth >= 0.0 && a.yWidth >= 0.0
    ensures GetViewport(a).Ok?
    ensures GetViewport(a).value.xMin <= GetViewport(a).value.xMax
    ensures GetViewport(a).value.yMin <= GetViewport(a).value.yMax
  {
    var v := GetViewport(a).value;
    assert (v.xMax - v.xMin) * a.zoom >= 0.0;
    assert (v.yMax - v.yMin) * a.zoom >= 0.0;
    if v.xMax - v.xMin < 0.0 {
      NegativeTimesPositive(v.xMax - v.xMin, a.zoom);
    }
    if v.yMax - v.yMin < 0.0 {
      NegativeTimesPositive(v.yMax - v.yMin, a.zoom);
    }
  }

  lemma NegativeTimesPositive(d: real, zoom: real)
    requires d < 0.0 && zoom > 0.0
    ensures d * zoom < 0.0
  {
  }

  /** At zoom 1 the picture reaches exactly the widths away from its start. */
  lemma UnitZoomViewport(a: JuliaArrays)
    requires a.zoom == 1.0
    ensures GetViewport(a) == Ok(Viewport(a.xStart - a.xWidth, a.xStart + a.xWidth,
                                          a.yStart - a.yWidth, a.yStart + a.yWidth))
  {
  }

  /** Doubling the zoom halves the span of each axis and keeps its centre. */
  lemma DoubleZoomHalvesSpan(a: JuliaArrays)
    requires a.zoom != 0.0
    ensures var b := a.(zoom := 2.0 * a.zoom);
      var v := GetViewport(a).value;
      var w := GetViewport(b).value;
      && 2.0 * (w.xMax - w.xMin) == v.xMax - v.xMin
      && 2.0 * (w.yMax - w.yMin) == v.yMax - v.yMin
      && w.xMin + w.xMax == v.xMin + v.xMax
      && w.yMin + w.yMax == v.yMin + v.yMax
  {
    var b := a.(zoom := 2.0 * a.zoom);
    var v := GetViewport(a).value;
    var w := GetViewport(b).value;
    assert (w.xMax - w.xMin) * (2.0 * a.zoom) == (v.xMax - v.xMin) * a.zoom;
    assert (w.yMax - w.yMin) * (2.0 * a.zoom) == (v.yMax - v.yMin) * a.zoom;
    CancelNonZero(2.0 * (w.xMax - w.xMin), v.xMax - v.xMin, a.zoom);
    CancelNonZero(2.0 * (w.yMax - w.yMin), v.yMax - v.yMin, a.zoom);
  }

  lemma CancelNonZero(p: real, q: real, zoom: real)
    requires zoom != 0.0 && p * zoom == q * zoom
    ensures p == q
  {
    assert (p - q) * zoom == 0.0;
  }

  /** A rows x cols array given as a sequence of rows. */
  predicate HasShape<T>(m: seq<seq<T>>, rows: int, cols: int)
  {
    |m| == rows && forall r :: 0 <= r < |m| ==> |m[r]| == cols
  }

  /** get_z_array: height rows and width columns; the sample in row r and
      column col has the col-th of width evenly spaced real parts across
      [x_min, x_max] and the r-th of height evenly spaced imaginary parts
      across [y_min, y_max]. The division by the zoom comes first, then the
      linspace of width, then that of height, each of which may raise. */
  function ZArray(a: JuliaArrays): (r: Outcome<seq<seq<Complex>>>)
    ensures r.Fail? <==> a.zoom == 0.0 || a.width < 0 || a.height < 0
    ensures r.Fail? ==> (r.error == ZeroDivisionError <==> a.zoom == 0.0)
    ensures r.Ok? ==> HasShape(r.value, a.height, a.width)
    ensures r.Ok? ==>
      var v := GetViewport(a).value;
      forall row, col :: 0 <= row < a.height && 0 <= col < a.width ==>
        r.value[row][col] == Complex(Linspace(v.xMin, v.xMax, a.width)[col], Linspace(v.yMin, v.yMax, a.height)[row])
  {
    match GetViewport(a)
    case Fail(e) => Fail(e)
    case Ok(v) =>
      if a.width < 0 || a.height < 0 then Fail(ValueError)
      else
        var xs := Linspace(v.xMin, v.xMax, a.width);
        var ys := Linspace(v.yMin, v.yMax, a.height);
        Ok(seq(a.height, row requires 0 <= row < a.height =>
             seq(a.width, col requires 0 <= col < a.width => Complex(xs[col], ys[row]))))
  }

  /** The first sample is the corner (x_min, y_min) and, with at least two
      samples on each axis, the last one is the corner (x_max, y_max). */
  lemma ZArrayCorners(a: JuliaArrays)
    requires ZArray(a).Ok? && a.height >= 1 && a.width >= 1
    ensures var v := GetViewport(a).value;
      var zs := ZArray(a).value;
      && zs[0][0] == Complex(v.xMin, v.yMin)
      && (a.height >= 2 && a.width >= 2 ==> zs[a.height - 1][a.width - 1] == Complex(v.xMax, v.yMax))
  {
    var v := GetViewport(a).value;
    LinspaceEndpoints(v.xMin, v.xMax, a.width);
    LinspaceEndpoints(v.yMin, v.yMax, a.height);
  }

  /** The samples form a grid: a row shares its imaginary part, a column its
      real part, and neighbours in a row are one real step apart. */
  lemma ZArrayGridLines(a: JuliaArrays, row: int, col: int)
    requires ZArray(a).Ok?
    requires 0 <= row < a.height && 0 <= col < a.width
    ensures var zs := ZArray(a).value;
      && (forall c' :: 0 <= c' < a.width ==> zs[row][c'].im == zs[row][col].im)
      && (forall r' :: 0 <= r' < a.height ==> zs[r'][col].re == zs[row][col].re)
      && (col + 1 < a.width ==>
            var v := GetViewport(a).value;
            zs[row][col + 1].re - zs[row][col].re == (v.xMax - v.xMin) / ((a.width - 1) as real))
  {
    var v := GetViewport(a).value;
    if col + 1 < a.width {
      LinspaceEvenlySpaced(v.xMin, v.xMax, a.width, col);
    }
  }

  /** With a positive zoom and non-negative widths every sample lies inside
      the viewport. */
  lemma ZArrayWithinViewport(a: JuliaArrays)
    requires a.zoom > 0.0 && a.xWidth >= 0.0 && a.yWidth >= 0.0
    requires a.width >= 0 && a.height >= 0
    ensures ZArray(a).Ok?
    ensures var v := GetViewport(a).value;
      var zs := ZArray(a).value;
      forall row, col :: 0 <= row < a.height && 0 <= col < a.width ==>
        v.xMin <= zs[row][col].re <= v.xMax && v.yMin <= zs[row][col].im <= v.yMax
  {
    ViewportOrdered(a);
    var v := GetViewport(a).value;
    LinspaceWithin(v.xMin, v.xMax, a.width);
    LinspaceWithin(v.yMin, v.yMax, a.height);
  }

  /** get_diverged_array: an array of z's shape filled with the sentinel
      julia_iterations - 1; building z first, it fails exactly as z does. */
  function DivergedArray(a: JuliaArrays): (r: Outcome<seq<seq<int>>>)
    ensures r.Fail? <==> ZArray(a).Fail?
    ensures r.Fail? ==> r.error == ZArray(a).error
    ensures r.Ok? ==> HasShape(r.value, |ZArray(a).value|, a.width)
    ensures r.Ok? ==> forall row, col :: 0 <= row < a.height && 0 <= col < a.width ==> r.value[row][col] == a.juliaIterations - 1
  {
    match ZArray(a)
    case Fail(e) => Fail(e)
    case Ok(zs) => Ok(Full(a.height, a.width, a.juliaIterations - 1))
  }

  /** get_converging_array: an array of z's shape, all true; it fails
      exactly as z does. */
  function ConvergingArray(a: JuliaArrays): (r: Outcome<seq<seq<bool>>>)
    ensures r.Fail? <==> ZArray(a).Fail?
    ensures r.Fail? ==> r.error == ZArray(a).error
    ensures r.Ok? ==> HasShape(r.value, |ZArray(a).value|, a.width)
    ensures r.Ok? ==> forall row, col :: 0 <= row < a.height && 0 <= col < a.width ==> r.value[row][col]
  {
    match ZArray(a)
    case Fail(e) => Fail(e)
    case Ok(zs) => Ok(Full(a.height, a.width, true))
  }

  /** A point as the three getters start it, run for julia_iterations
      iterations of any map: its div ends in [0, julia_iterations), and a
      point that never escaped still holds the sentinel julia_iterations - 1. */
  lemma FreshPointOutcome(a: JuliaArrays, step: Complex -> Complex, abs: Complex -> real, escapeNumber: real, row: int, col: int)
    requires ZArray(a).Ok? && a.juliaIterations >= 1
    requires 0 <= row < a.height && 0 <= col < a.width
    ensures var p := Pixel(ZArray(a).value[row][col], ConvergingArray(a).value[row][col], DivergedArray(a).value[row][col]);
      var q := Run(step, abs, escapeNumber, p, a.juliaIterations);
      && 0 <= q.div < a.juliaIterations
      && (q.con ==> q.div == a.juliaIterations - 1)
  {
    var p := Pixel(ZArray(a).value[row][col], ConvergingArray(a).value[row][col], DivergedArray(a).value[row][col]);
    DivergenceInRange(step, abs, escapeNumber, p, a.juliaIterations);
    if Run(step, abs, escapeNumber, p, a.juliaIterations).con {
      SentinelKept(step, abs, escapeNumber, p, a.juliaIterations);
    }
  }

  /** The kernels index their arrays [x, y] with x over width and y over
      height, while the getters build height x width arrays: arrays of that
      shape cover the kernels' window exactly when the picture is square. */
  lemma KernelWindowNeedsSquarePicture(a: JuliaArrays, z: array2<Complex>, con: array2<bool>, div: array2<int>)
    requires a.height >= 0 && a.width >= 0
    requires z.Length0 == a.height && z.Length1 == a.width
    requires con.Length0 == a.height && con.Length1 == a.width
    requires div.Length0 == a.height && div.Length1 == a.width
    ensures Covers(z, con, div, a.width, a.height) <==> a.width == a.height
  {
  }
}
