/** The escape-time state machine that every Julia kernel runs for each grid
    point: the point's value z, its "still converging" flag con and its
    divergence index div; and the grid loop that runs it over the
    width x height window of the three arrays, indexed [x, y]. */
module EscapeTime {
  import opened Numpy

  /** The operators the kernels apply to numba's complex128 values (+, -, *,
      /, ** with an integer exponent, and abs). Floating-point arithmetic is
      not modelled: the operators are parameters. */
  datatype Ops = Ops(
    add: (Complex, Complex) -> Complex,
    sub: (Complex, Complex) -> Complex,
    mul: (Complex, Complex) -> Complex,
    div: (Complex, Complex) -> Complex,
    pow: (Complex, int) -> Complex,
    abs: Complex -> real)

  datatype Option<T> = None | Some(value: T)

  /** What a kernel keeps for one grid point: z[x, y], con[x, y] and div[x, y]. */
  datatype Pixel = Pixel(z: Complex, con: bool, div: int)

  /** Iteration j of the innermost loop for one point: a point that no longer
      converges is skipped; otherwise the map is applied and, if the new value's
      magnitude exceeds the escape number, the point stops converging and j is
      recorded. */
  function Step(step: Complex -> Complex, abs: Complex -> real, escapeNumber: real, p: Pixel, j: nat): Pixel
  {
    if !p.con then p
    else
      var w := step(p.z);
      if abs(w) > escapeNumber then Pixel(w, false, j) else Pixel(w, true, p.div)
  }

  /** The point after iterations 0 .. k - 1 of the innermost loop. */
  function Run(step: Complex -> Complex, abs: Complex -> real, escapeNumber: real, p: Pixel, k: nat): Pixel
  {
    if k == 0 then p else Step(step, abs, escapeNumber, Run(step, abs, escapeNumber, p, k - 1), k - 1)
  }

  /** The map applied i times. */
  function Orbit(step: Complex -> Complex, z: Complex, i: nat): Complex
  {
    if i == 0 then z else step(Orbit(step, z, i - 1))
  }

  /** The first iteration j < k whose new value, the map applied j + 1 times,
      has a magnitude above the escape number; None if there is none. */
  function FirstEscape(step: Complex -> Complex, abs: Complex -> real, escapeNumber: real, z: Complex, k: nat): (e: Option<nat>)
    ensures e.Some? ==> e.value < k && abs(Orbit(step, z, e.value + 1)) > escapeNumber
    ensures forall i :: 1 <= i <= k && (e.None? || i <= e.value) ==> abs(Orbit(step, z, i)) <= escapeNumber
  {
    if k == 0 then None
    else
      var e := FirstEscape(step, abs, escapeNumber, z, k - 1);
      if e.Some? then e
      else if abs(Orbit(step, z, k)) > escapeNumber then Some(k - 1)
      else None
  }

  /** Reference definition of a point's final state after k iterations, stated
      over the orbit instead of the loop: an escaped point is unchanged; a
      converging point that escapes at iteration e holds the map applied e + 1
      times, con false and div e; one that never escapes holds the map applied
      k times, con true and its entry div. */
  function EscapeOutcome(step: Complex -> Complex, abs: Complex -> real, escapeNumber: real, p: Pixel, k: nat): Pixel
  {
    if !p.con then p
    else match FirstEscape(step, abs, escapeNumber, p.z, k)
      case Some(e) => Pixel(Orbit(step, p.z, e + 1), false, e)
      case None => Pixel(Orbit(step, p.z, k), true, p.div)
  }

  /** The loop computes the reference outcome. */
  lemma {:induction false} RunIsEscapeOutcome(step: Complex -> Complex, abs: Complex -> real, escapeNumber: real, p: Pixel, k: nat)
    ensures Run(step, abs, escapeNumber, p, k) == EscapeOutcome(step, abs, escapeNumber, p, k)
  {
    if k > 0 {
      RunIsEscapeOutcome(step, abs, escapeNumber, p, k - 1);
    }
  }

  /** A point whose con is false on entry keeps z, con and div. */
  lemma {:induction false} EscapedPointFrozen(step: Complex -> Complex, abs: Complex -> real, escapeNumber: real, p: Pixel, k: nat)
    requires !p.con
    ensures Run(step, abs, escapeNumber, p, k) == p
  {
    if k > 0 {
      EscapedPointFrozen(step, abs, escapeNumber, p, k - 1);
    }
  }

  /** Once a point has escaped at some iteration, later iterations change
      nothing, so div is written at most once. */
  lemma {:induction false} EscapeIsFinal(step: Complex -> Complex, abs: Complex -> real, escapeNumber: real, p: Pixel, j: nat, m: nat)
    requires !Run(step, abs, escapeNumber, p, j).con
    ensures Run(step, abs, escapeNumber, p, j + m) == Run(step, abs, escapeNumber, p, j)
  {
    if m > 0 {
      EscapeIsFinal(step, abs, escapeNumber, p, j, m - 1);
    }
  }

  /** con only goes from true to false: a point still converging after k
      iterations was converging at every earlier iteration and on entry. */
  lemma {:induction false} ConvergingOnlyClears(step: Complex -> Complex, abs: Complex -> real, escapeNumber: real, p: Pixel, k: nat)
    ensures forall j :: 0 <= j <= k && Run(step, abs, escapeNumber, p, k).con ==> Run(step, abs, escapeNumber, p, j).con
  {
    if k > 0 {
      ConvergingOnlyClears(step, abs, escapeNumber, p, k - 1);
    }
  }

  /** A point that escapes within k iterations records the escape iteration
      e < k in div, holds the map applied e + 1 times, and that value is the
      first of its orbit whose magnitude exceeds the escape number. */
  lemma DivergenceRecordsEscape(step: Complex -> Complex, abs: Complex -> real, escapeNumber: real, p: Pixel, k: nat)
    requires p.con && !Run(step, abs, escapeNumber, p, k).con
    ensures var q := Run(step, abs, escapeNumber, p, k);
      && 0 <= q.div < k
      && q.z == Orbit(step, p.z, q.div + 1)
      && abs(q.z) > escapeNumber
      && forall i :: 1 <= i <= q.div ==> abs(Orbit(step, p.z, i)) <= escapeNumber
  {
    RunIsEscapeOutcome(step, abs, escapeNumber, p, k);
  }

  /** A point still converging after k iterations keeps its entry div (the
      pre-filled sentinel), holds the map applied k times, and no value of its
      orbit exceeded the escape number. */
  lemma SentinelKept(step: Complex -> Complex, abs: Complex -> real, escapeNumber: real, p: Pixel, k: nat)
    requires Run(step, abs, escapeNumber, p, k).con
    ensures var q := Run(step, abs, escapeNumber, p, k);
      && q.div == p.div
      && q.z == Orbit(step, p.z, k)
      && forall i :: 1 <= i <= k ==> abs(Orbit(step, p.z, i)) <= escapeNumber
  {
    RunIsEscapeOutcome(step, abs, escapeNumber, p, k);
  }

  /** A converging point escapes within k iterations exactly when some value
      of its orbit among the first k exceeds the escape number. */
  lemma EscapesIff(step: Complex -> Complex, abs: Complex -> real, escapeNumber: real, p: Pixel, k: nat)
    requires p.con
    ensures !Run(step, abs, escapeNumber, p, k).con
            <==> exists i :: 1 <= i <= k && abs(Orbit(step, p.z, i)) > escapeNumber
  {
    RunIsEscapeOutcome(step, abs, escapeNumber, p, k);
    var e := FirstEscape(step, abs, escapeNumber, p.z, k);
    if e.Some? {
      assert !EscapeOutcome(step, abs, escapeNumber, p, k).con;
      var i := e.value + 1;
      assert 1 <= i <= k && abs(Orbit(step, p.z, i)) > escapeNumber;
    } else {
      assert EscapeOutcome(step, abs, escapeNumber, p, k).con;
    }
  }

  /** With div pre-filled by a value in [0, k), as GetJuliaArrays does with
      julia_iterations - 1, every final div lies in [0, k). */
  lemma DivergenceInRange(step: Complex -> Complex, abs: Complex -> real, escapeNumber: real, p: Pixel, k: nat)
    requires 0 <= p.div < k
    ensures 0 <= Run(step, abs, escapeNumber, p, k).div < k
  {
    RunIsEscapeOutcome(step, abs, escapeNumber, p, k);
  }

  /** A point that escapes at the last iteration k - 1 records div = k - 1,
      the same value as the sentinel julia_iterations - 1 that a point which
      never escapes keeps: div alone does not tell the two apart, only con
      does. */
  lemma LastIterationEscapeLooksLikeSentinel(step: Complex -> Complex, abs: Complex -> real, escapeNumber: real, z: Complex, k: nat)
    requires k >= 1
    requires forall i :: 1 <= i < k ==> abs(Orbit(step, z, i)) <= escapeNumber
    requires abs(Orbit(step, z, k)) > escapeNumber
    ensures Run(step, abs, escapeNumber, Pixel(z, true, k - 1), k) == Pixel(Orbit(step, z, k), false, k - 1)
  {
    var p := Pixel(z, true, k - 1);
    RunIsEscapeOutcome(step, abs, escapeNumber, p, k);
  }

  /** The escape test is strict: a new value whose magnitude equals the escape
      number does not stop the point. */
  lemma TieDoesNotEscape(step: Complex -> Complex, abs: Complex -> real, escapeNumber: real, p: Pixel, j: nat)
    requires p.con && abs(step(p.z)) == escapeNumber
    ensures Step(step, abs, escapeNumber, p, j) == Pixel(step(p.z), true, p.div)
  {
  }

  /** Two maps that agree on every value give the same run. */
  lemma {:induction false} SameMapSameRun(f: Complex -> Complex, g: Complex -> Complex, abs: Complex -> real, escapeNumber: real, p: Pixel, k: nat)
    requires forall w :: f(w) == g(w)
    ensures Run(f, abs, escapeNumber, p, k) == Run(g, abs, escapeNumber, p, k)
  {
    if k > 0 {
      SameMapSameRun(f, g, abs, escapeNumber, p, k - 1);
    }
  }

  /** A grid position (x, y). */
  datatype Cell = Cell(x: int, y: int)

  /** Every cell of `cells` transformed by f on its own, the rest untouched. */
  function Pointwise(g: map<Cell, Pixel>, cells: set<Cell>, f: Pixel -> Pixel): map<Cell, Pixel>
  {
    map q | q in g :: if q in cells then f(g[q]) else g[q]
  }

  /** The cells visited one after another in the given order, each
      transformed by f in place. */
  function VisitInOrder(g: map<Cell, Pixel>, order: seq<Cell>, f: Pixel -> Pixel): map<Cell, Pixel>
    requires forall i :: 0 <= i < |order| ==> order[i] in g
  {
    if order == [] then g
    else VisitInOrder(g[order[0] := f(g[order[0]])], order[1..], f)
  }

  /** Since each point's update reads and writes only that point, visiting
      the cells in any order, or in any partition into chunks, each cell once,
      gives the same grid as updating every cell on its own. */
  lemma {:induction false} VisitOrderIrrelevant(g: map<Cell, Pixel>, order: seq<Cell>, f: Pixel -> Pixel)
    requires forall i :: 0 <= i < |order| ==> order[i] in g
    requires forall i, j :: 0 <= i < j < |order| ==> order[i] != order[j]
    ensures VisitInOrder(g, order, f) == Pointwise(g, (set q | q in order), f)
  {
    if order != [] {
      var q := order[0];
      var g' := g[q := f(g[q])];
      VisitOrderIrrelevant(g', order[1..], f);
      var rest := set r | r in order[1..];
      assert q !in rest;
      assert (set r | r in order) == rest + {q};
      assert Pointwise(g', rest, f) == Pointwise(g, rest + {q}, f);
    }
  }

  /** Two visiting orders of the same cells give the same grid. */
  lemma AnyTwoOrdersAgree(g: map<Cell, Pixel>, order1: seq<Cell>, order2: seq<Cell>, f: Pixel -> Pixel)
    requires forall i :: 0 <= i < |order1| ==> order1[i] in g
    requires forall i :: 0 <= i < |order2| ==> order2[i] in g
    requires forall i, j :: 0 <= i < j < |order1| ==> order1[i] != order1[j]
    requires forall i, j :: 0 <= i < j < |order2| ==> order2[i] != order2[j]
    requires forall q :: q in order1 <==> q in order2
    ensures VisitInOrder(g, order1, f) == VisitInOrder(g, order2, f)
  {
    VisitOrderIrrelevant(g, order1, f);
    VisitOrderIrrelevant(g, order2, f);
    assert (set q | q in order1) == (set q | q in order2);
  }

  /** The kernels touch con[x, y], div[x, y] and z[x, y] for x < width and
      y < height: the first array dimension must cover width, the second
      height. */
  predicate Covers(z: array2<Complex>, con: array2<bool>, div: array2<int>, width: nat, height: nat)
  {
    && width <= z.Length0 && height <= z.Length1
    && width <= con.Length0 && height <= con.Length1
    && width <= div.Length0 && height <= div.Length1
  }

  /** The state of point (x, y). */
  function At(z: array2<Complex>, con: array2<bool>, div: array2<int>, x: int, y: int): Pixel
    reads z, con, div
    requires 0 <= x < z.Length0 && 0 <= y < z.Length1
    requires 0 <= x < con.Length0 && 0 <= y < con.Length1
    requires 0 <= x < div.Length0 && 0 <= y < div.Length1
  {
    Pixel(z[x, y], con[x, y], div[x, y])
  }

  /** Points the grid loop has finished when it is about to process (x, y):
      every earlier column x' < x, and the rows y' < y of column x. */
  predicate Visited(x': int, y': int, x: int, y: int, height: nat)
  {
    0 <= x' && 0 <= y' < height && (x' < x || (x' == x && y' < y))
  }

  /** The j loop of a kernel for one point (x, y), with the map given as a
      function. */
  method IteratePoint(step: Complex -> Complex, abs: Complex -> real,
                      z: array2<Complex>, con: array2<bool>, div: array2<int>,
                      x: nat, y: nat, maxIterations: nat, escapeNumber: real)
    requires x < z.Length0 && y < z.Length1
    requires x < con.Length0 && y < con.Length1
    requires x < div.Length0 && y < div.Length1
    modifies z, con, div
    ensures At(z, con, div, x, y) == Run(step, abs, escapeNumber, old(At(z, con, div, x, y)), maxIterations)
    ensures forall x', y' :: 0 <= x' < z.Length0 && 0 <= y' < z.Length1 && (x' != x || y' != y) ==> z[x', y'] == old(z[x', y'])
    ensures forall x', y' :: 0 <= x' < con.Length0 && 0 <= y' < con.Length1 && (x' != x || y' != y) ==> con[x', y'] == old(con[x', y'])
    ensures forall x', y' :: 0 <= x' < div.Length0 && 0 <= y' < div.Length1 && (x' != x || y' != y) ==> div[x', y'] == old(div[x', y'])
  {
    for j := 0 to maxIterations
      invariant At(z, con, div, x, y) == Run(step, abs, escapeNumber, old(At(z, con, div, x, y)), j)
      invariant forall x', y' :: 0 <= x' < z.Length0 && 0 <= y' < z.Length1 && (x' != x || y' != y) ==> z[x', y'] == old(z[x', y'])
      invariant forall x', y' :: 0 <= x' < con.Length0 && 0 <= y' < con.Length1 && (x' != x || y' != y) ==> con[x', y'] == old(con[x', y'])
      invariant forall x', y' :: 0 <= x' < div.Length0 && 0 <= y' < div.Length1 && (x' != x || y' != y) ==> div[x', y'] == old(div[x', y'])
    {
      if con[x, y] {
        z[x, y] := step(z[x, y]);
        if abs(z[x, y]) > escapeNumber {
          con[x, y] := false;
          div[x, y] := j;
        }
      }
    }
  }

  /** The x / y / j loops shared by the fixed-degree kernels: every point of
      the width x height window ends in the state Run gives for its own entry
      state, and nothing outside the window changes. */
  method EscapeKernel(step: Complex -> Complex, abs: Complex -> real,
                      z: array2<Complex>, con: array2<bool>, div: array2<int>,
                      maxIterations: nat, escapeNumber: real, height: nat, width: nat)
    requires Covers(z, con, div, width, height)
    modifies z, con, div
    ensures forall x, y :: 0 <= x < width && 0 <= y < height ==>
      At(z, con, div, x, y) == Run(step, abs, escapeNumber, old(At(z, con, div, x, y)), maxIterations)
    ensures forall x, y :: 0 <= x < z.Length0 && 0 <= y < z.Length1 && !(x < width && y < height) ==> z[x, y] == old(z[x, y])
    ensures forall x, y :: 0 <= x < con.Length0 && 0 <= y < con.Length1 && !(x < width && y < height) ==> con[x, y] == old(con[x, y])
    ensures forall x, y :: 0 <= x < div.Length0 && 0 <= y < div.Length1 && !(x < width && y < height) ==> div[x, y] == old(div[x, y])
  {
    for x := 0 to width
      invariant forall x', y' :: Visited(x', y', x, 0, height) ==>
        At(z, con, div, x', y') == Run(step, abs, escapeNumber, old(At(z, con, div, x', y')), maxIterations)
      invariant forall x', y' :: 0 <= x' < z.Length0 && 0 <= y' < z.Length1 && !Visited(x', y', x, 0, height) ==> z[x', y'] == old(z[x', y'])
      invariant forall x', y' :: 0 <= x' < con.Length0 && 0 <= y' < con.Length1 && !Visited(x', y', x, 0, height) ==> con[x', y'] == old(con[x', y'])
      invariant forall x', y' :: 0 <= x' < div.Length0 && 0 <= y' < div.Length1 && !Visited(x', y', x, 0, height) ==> div[x', y'] == old(div[x', y'])
    {
      for y := 0 to height
        invariant forall x', y' :: Visited(x', y', x, y, height) ==>
          At(z, con, div, x', y') == Run(step, abs, escapeNumber, old(At(z, con, div, x', y')), maxIterations)
        invariant forall x', y' :: 0 <= x' < z.Length0 && 0 <= y' < z.Length1 && !Visited(x', y', x, y, height) ==> z[x', y'] == old(z[x', y'])
        invariant forall x', y' :: 0 <= x' < con.Length0 && 0 <= y' < con.Length1 && !Visited(x', y', x, y, height) ==> con[x', y'] == old(con[x', y'])
        invariant forall x', y' :: 0 <= x' < div.Length0 && 0 <= y' < div.Length1 && !Visited(x', y', x, y, height) ==> div[x', y'] == old(div[x', y'])
      {
        IteratePoint(step, abs, z, con, div, x, y, maxIterations, escapeNumber);
      }
    }
  }
}
