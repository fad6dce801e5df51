/** The few numpy facilities the fractal engine relies on, idealised to exact
    arithmetic: complex scalars, np.linspace, np.full and astype(int32). */
module Numpy {

  /** numpy's complex128, idealised as a pair of exact reals. */
  datatype Complex = Complex(re: real, im: real)

  /** np.linspace(start, stop, num) with endpoint=True. numpy computes
      step = (stop - start) / (num - 1) and the samples i * step + start, and
      then overwrites the last sample with stop; for num == 1 the only sample
      is start. */
  function Linspace(start: real, stop: real, num: nat): (r: seq<real>)
    ensures |r| == num
  {
    if num == 1 then [start]
    else
      var step := (stop - start) / ((num - 1) as real);
      seq(num, i requires 0 <= i < num => if i == num - 1 then stop else (i as real) * step + start)
  }

  /** linspace includes both of its endpoints (the last one only when there
      are at least two samples). */
  lemma LinspaceEndpoints(start: real, stop: real, num: nat)
    ensures num >= 1 ==> Linspace(start, stop, num)[0] == start
    ensures num >= 2 ==> Linspace(start, stop, num)[num - 1] == stop
  {
  }

  /** Consecutive samples are exactly one step apart. */
  lemma LinspaceEvenlySpaced(start: real, stop: real, num: nat, i: nat)
    requires i + 1 < num
    ensures Linspace(start, stop, num)[i + 1] - Linspace(start, stop, num)[i]
            == (stop - start) / ((num - 1) as real)
  {
    var d := (num - 1) as real;
    var step := (stop - start) / d;
    assert d * step == stop - start;
    if i + 1 == num - 1 {
      calc {
        stop - ((i as real) * step + start);
        d * step + start - ((i as real) * step + start);
        { assert d == (i as real) + 1.0; }
        step;
      }
    }
  }

  /** Every sample of an ascending linspace lies between its endpoints. */
  lemma LinspaceWithin(start: real, stop: real, num: nat)
    requires start <= stop
    ensures forall i :: 0 <= i < num ==> start <= Linspace(start, stop, num)[i] <= stop
  {
    if num >= 2 {
      var d := (num - 1) as real;
      var step := (stop - start) / d;
      forall i | 0 <= i < num - 1
        ensures start <= Linspace(start, stop, num)[i] <= stop
      {
        assert Linspace(start, stop, num)[i] == (i as real) * step + start;
        SampleWithin(start, stop, d, step, i as real);
      }
    }
  }

  /** The sample t steps from start, with 0 <= t <= d and d steps spanning
      [start, stop], lies in [start, stop]. */
  lemma SampleWithin(start: real, stop: real, d: real, step: real, t: real)
    requires start <= stop && d > 0.0 && step == (stop - start) / d && 0.0 <= t <= d
    ensures start <= t * step + start <= stop
  {
    assert d * step == stop - start;
    assert step >= 0.0;
    MulNonNegative(t, step);
    MulNonNegative(d - t, step);
    assert (d - t) * step == d * step - t * step;
  }

  lemma MulNonNegative(a: real, b: real)
    requires 0.0 <= a && 0.0 <= b
    ensures 0.0 <= a * b
  {
  }

  /** A linspace between two integers whose gap is a multiple of num - 1 is an
      exact integer progression with stride s. */
  lemma LinspaceIntegerProgression(a: int, s: int, num: nat)
    requires num >= 1
    ensures forall i :: 0 <= i < num ==>
      Linspace(a as real, (a + s * (num - 1)) as real, num)[i] == (a + s * i) as real
  {
    if num >= 2 {
      var d := (num - 1) as real;
      var stop := (a + s * (num - 1)) as real;
      assert stop - (a as real) == (s as real) * d;
      DivideMultiple(stop - (a as real), s as real, d);
      forall i | 0 <= i < num - 1
        ensures Linspace(a as real, stop, num)[i] == (a + s * i) as real
      {
        assert Linspace(a as real, stop, num)[i] == (i as real) * (s as real) + (a as real);
        assert (i as real) * (s as real) == (s * i) as real;
      }
    }
  }

  lemma DivideMultiple(p: real, q: real, d: real)
    requires d != 0.0 && p == q * d
    ensures p / d == q
  {
  }

  /** ndarray.astype(int32) on a float: truncation toward zero (the int32
      range is not modelled). */
  function Trunc(x: real): (r: int)
    ensures 0.0 <= x ==> r as real <= x < r as real + 1.0
    ensures x < 0.0 ==> r as real - 1.0 < x <= r as real
  {
    if x >= 0.0 then x.Floor else -((-x).Floor)
  }

  /** astype(int32) applied element by element. */
  function AsInt32(xs: seq<real>): (r: seq<int>)
    ensures |r| == |xs|
  {
    seq(|xs|, i requires 0 <= i < |xs| => Trunc(xs[i]))
  }

  /** Truncating a float that holds an integer gives that integer back. */
  lemma TruncOfInteger(m: int)
    ensures Trunc(m as real) == m
  {
  }

  /** linspace(start, stop, num).astype(int32) for integer endpoints. */
  function Int32Linspace(start: int, stop: int, num: nat): (r: seq<int>)
    ensures |r| == num
  {
    AsInt32(Linspace(start as real, stop as real, num))
  }

  /** When the gap between the endpoints is a multiple of num - 1, the
      conversion loses nothing: the result is the integer progression from
      start with stride s. */
  lemma Int32LinspaceProgression(a: int, s: int, num: nat, stop: int)
    requires num >= 1 && stop == a + s * (num - 1)
    ensures forall i :: 0 <= i < num ==> Int32Linspace(a, stop, num)[i] == a + s * i
  {
    LinspaceIntegerProgression(a, s, num);
    forall i | 0 <= i < num
      ensures Int32Linspace(a, stop, num)[i] == a + s * i
    {
      TruncOfInteger(a + s * i);
    }
  }

  /** np.full((rows, cols), v). */
  function Full<T>(rows: nat, cols: nat, v: T): (r: seq<seq<T>>)
    ensures |r| == rows
    ensures forall i :: 0 <= i < rows ==> |r[i]| == cols
    ensures forall i, j :: 0 <= i < rows && 0 <= j < cols ==> r[i][j] == v
  {
    seq(rows, _ => seq(cols, _ => v))
  }
}
