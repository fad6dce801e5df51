/** The three fixed-degree Julia kernels set_1cn0, set_2cn1 and set_2cn2:
    the same x / y / j loops, each with its map written inline. */
module JuliaCalculations {
  import opened Numpy
  import opened EscapeTime

  /** The complex constant 1 that set_2cn2 adds (an int promoted to complex). */
  const One: Complex := Complex(1.0, 0.0)

  /** The map of set_1cn0: z ** 2 + c. */
  function Map1cn0(ops: Ops, c: Complex): Complex -> Complex
  {
    w => ops.add(ops.pow(w, 2), c)
  }

  /** The map of set_2cn1: (z ** 2 + c[0]) / (z ** 2 + c[1]). */
  function Map2cn1(ops: Ops, c: seq<Complex>): Complex -> Complex
    requires |c| >= 2
  {
    w => ops.div(ops.add(ops.pow(w, 2), c[0]), ops.add(ops.pow(w, 2), c[1]))
  }

  /** The map of set_2cn2: (c[0] * z ** 2 + 1 - c[0]) / (c[1] * z ** 2 + 1 - c[1]),
      with Python's left-to-right grouping of + and -. */
  function Map2cn2(ops: Ops, c: seq<Complex>): Complex -> Complex
    requires |c| >= 2
  {
    w => ops.div(ops.sub(ops.add(ops.mul(c[0], ops.pow(w, 2)), One), c[0]),
                 ops.sub(ops.add(ops.mul(c[1], ops.pow(w, 2)), One), c[1]))
  }

  /** set_1cn0: every point of the width x height window, indexed [x, y],
      ends in the state its own escape run gives, the rest of the arrays is
      untouched, and the divergence array itself is returned. */
  method Set1cn0(ops: Ops, c: Complex, z: array2<Complex>, con: array2<bool>, div: array2<int>,
                 maxIterations: nat := 100, escapeNumber: real := 2.0,
                 height: nat := 200, width: nat := 200) returns (r: array2<int>)
    requires Covers(z, con, div, width, height)
    modifies z, con, div
    ensures r == div
    ensures forall x, y :: 0 <= x < width && 0 <= y < height ==>
      At(z, con, div, x, y) == Run(Map1cn0(ops, c), ops.abs, escapeNumber, old(At(z, con, div, x, y)), maxIterations)
    ensures forall x, y :: 0 <= x < z.Length0 && 0 <= y < z.Length1 && !(x < width && y < height) ==> z[x, y] == old(z[x, y])
    ensures forall x, y :: 0 <= x < con.Length0 && 0 <= y < con.Length1 && !(x < width && y < height) ==> con[x, y] == old(con[x, y])
    ensures forall x, y :: 0 <= x < div.Length0 && 0 <= y < div.Length1 && !(x < width && y < height) ==> div[x, y] == old(div[x, y])
  {
    EscapeKernel(Map1cn0(ops, c), ops.abs, z, con, div, maxIterations, escapeNumber, height, width);
    r := div;
  }

  /** set_2cn1, as Set1cn0 with the map (z ** 2 + c[0]) / (z ** 2 + c[1]). */
  method Set2cn1(ops: Ops, c: seq<Complex>, z: array2<Complex>, con: array2<bool>, div: array2<int>,
                 maxIterations: nat := 100, escapeNumber: real := 2.0,
                 height: nat := 200, width: nat := 200) returns (r: array2<int>)
    requires |c| >= 2
    requires Covers(z, con, div, width, height)
    modifies z, con, div
    ensures r == div
    ensures forall x, y :: 0 <= x < width && 0 <= y < height ==>
      At(z, con, div, x, y) == Run(Map2cn1(ops, c), ops.abs, escapeNumber, old(At(z, con, div, x, y)), maxIterations)
    ensures forall x, y :: 0 <= x < z.Length0 && 0 <= y < z.Length1 && !(x < width && y < height) ==> z[x, y] == old(z[x, y])
    ensures forall x, y :: 0 <= x < con.Length0 && 0 <= y < con.Length1 && !(x < width && y < height) ==> con[x, y] == old(con[x, y])
    ensures forall x, y :: 0 <= x < div.Length0 && 0 <= y < div.Length1 && !(x < width && y < height) ==> div[x, y] == old(div[x, y])
  {
    EscapeKernel(Map2cn1(ops, c), ops.abs, z, con, div, maxIterations, escapeNumber, height, width);
    r := div;
  }

  /** set_2cn2, as Set1cn0 with the map
      (c[0] * z ** 2 + 1 - c[0]) / (c[1] * z ** 2 + 1 - c[1]). */
  method Set2cn2(ops: Ops, c: seq<Complex>, z: array2<Complex>, con: array2<bool>, div: array2<int>,
                 maxIterations: nat := 100, escapeNumber: real := 2.0,
                 height: nat := 200, width: nat := 200) returns (r: array2<int>)
    requires |c| >= 2
    requires Covers(z, con, div, width, height)
    modifies z, con, div
    ensures r == div
    ensures forall x, y :: 0 <= x < width && 0 <= y < height ==>
      At(z, con, div, x, y) == Run(Map2cn2(ops, c), ops.abs, escapeNumber, old(At(z, con, div, x, y)), maxIterations)
    ensures forall x, y :: 0 <= x < z.Length0 && 0 <= y < z.Length1 && !(x < width && y < height) ==> z[x, y] == old(z[x, y])
    ensures forall x, y :: 0 <= x < con.Length0 && 0 <= y < con.Length1 && !(x < width && y < height) ==> con[x, y] == old(con[x, y])
    ensures forall x, y :: 0 <= x < div.Length0 && 0 <= y < div.Length1 && !(x < width && y < height) ==> div[x, y] == old(div[x, y])
  {
    EscapeKernel(Map2cn2(ops, c), ops.abs, z, con, div, maxIterations, escapeNumber, height, width);
    r := div;
  }
}
