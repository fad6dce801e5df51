# Escape-time Julia fractals from quantum statevectors

The project renders Julia sets whose coefficients come from a quantum
statevector `c`. It has two parts:
- `GetJuliaArrays` builds the picture's viewport and the three arrays a
  kernel works on:
  - the grid `z` of complex samples;
  - the convergence mask `con`, all true;
  - the divergence array `div`, pre-filled with `julia_iterations - 1`.
- A kernel then iterates a rational map at every point of a
  `width x height` window of those arrays. Once a point's magnitude exceeds
  `escape_number`, the kernel clears its `con` and records the escaping
  iteration in `div`.

There are four kernels:
- the fixed-degree kernels `set_1cn0` (`z ** 2 + c`), `set_2cn1` and
  `set_2cn2`;
- `set_general`, which evaluates the n-qubit "mating" fraction from a
  coefficient schedule built by `get_fraction_powers_and_indices`.

The Dafny modules follow the source files:

- `Numpy` (numpy.dfy) covers:
  - complex values as pairs of exact reals;
  - `np.linspace` (numpy's formula, with the last sample forced to `stop`);
  - `astype(int32)` as truncation toward zero;
  - `np.full`.
- `EscapeTime` (escape_time.dfy) holds:
  - what all four kernels share: the per-point state machine (`Step` is
    one `j` iteration and `Run` is the first `k` of them), a reference
    definition `EscapeOutcome` stated over the point's orbit, and the lemmas
    relating `Run` to `EscapeOutcome`;
  - what only the three fixed-degree kernels share: the imperative `j` loop
    `IteratePoint` and the `x`/`y`/`j` loop nest `EscapeKernel`, which take
    the map as a function. Both work on three `array2`s indexed `[x, y]`,
    and both are proved to leave every point in the state `Run` gives for
    it and to change nothing else.
- `JuliaCalculations` (julia_calculations.dfy) holds the three fixed-degree
  kernels and their maps.
- `JuliaGeneralized` (julia_generalized.dfy) holds:
  - the schedule and its closed form;
  - the fraction `set_general` evaluates;
  - the closed form of that fraction, which continues the pattern of the
    leading terms in `set_general`'s docstring,
    `c[2^n - 2m] * z^(2^(n-1) - m)`, down to the constants `c[0]` and `c[1]`;
  - the imperative kernel `SetGeneral` with its own `x`/`y` loops, its `j`
    loop `IterateMatingPoint` and its inner `i` loop in `EvaluateMating`,
    all proved against the same `Run`.
- `JuliaArrays` (julia_arrays.dfy) holds `GetJuliaArrays` as a datatype of
  its stored fields, with one function per getter. Every getter can fail
  with the exception Python raises.

The complex operators (`+`, `-`, `*`, `/`, `**`, `abs`) are parameters
bundled in `EscapeTime.Ops`. Statements about the kernels therefore hold for
any arithmetic. Wherever the model says two maps are "the same", it means
the same expression over these operators.

Some behaviour of the code is easy to overlook, and the model states it:

- With the one-qubit schedules `get_fraction_powers_and_indices` builds,
  `set_general` iterates `(z + c[0]) / (z + c[1])` for offset 0, which are
  also its default arrays (`DefaultMatingMap`), and `set_2cn1`'s map for
  offset 1 (`OneQubitOffsetOneIsSet2cn1`), not `set_1cn0`'s `z ** 2 + c`.
- The docstring of `set_general` (fractal_julia_generalized.py lines 19
  and 26) writes its last terms as `... * c[6] * z^2 + c[4] + c[2] * z + c[0]`
  (and `c[4] + z^2 * c[2] * z` in the three-qubit example), putting `c[6]`
  on `z^2` and making `c[4]` a constant. The code computes
  `z^4 + c[6] * z^3 + c[4] * z^2 + c[2] * z + c[0]` over
  `z^4 + c[7] * z^3 + c[5] * z^2 + c[3] * z + c[1]` for three qubits
  (`ThreeQubitMatingMap`). The model follows the code.
- `get_fraction_powers_and_indices` accepts zero qubits and returns four
  empty arrays (`ScheduleClosedForm`).
- A point that escapes at the last iteration records `max_iterations - 1`,
  the sentinel's value. Only `con` tells it apart from a point that never
  escaped (`LastIterationEscapeLooksLikeSentinel`).
- The `GetJuliaArrays` constructor never raises. For integer dimensions its
  getters raise only for a zero zoom (`ZeroDivisionError`) or a negative
  dimension (`ValueError` from `np.linspace`). A zero dimension yields an
  empty array.
- The kernels index `z[x, y]` with `x` below `width` and `y` below
  `height`. `GetJuliaArrays` builds arrays of shape `(height, width)`. The
  model indexes as written: a kernel requires its arrays' first dimension
  to cover `width` and its second to cover `height`.
  `KernelWindowNeedsSquarePicture` states that arrays from
  `GetJuliaArrays` meet this exactly when the picture is square.

## Model

| member | source | states |
|---|---|---|
| Numpy.Linspace | quantum_fractals_guidebook/utils/fractal_julia_arrays.py:29-30 | np.linspace with num samples; its endpoints, spacing and range are stated by LinspaceEndpoints, LinspaceEvenlySpaced and LinspaceWithin |
| Numpy.LinspaceEndpoints | quantum_fractals_guidebook/utils/fractal_julia_arrays.py:29-30 | linspace's first sample is its start and, with at least two samples, its last is its stop |
| Numpy.LinspaceEvenlySpaced | quantum_fractals_guidebook/utils/fractal_julia_arrays.py:29-30 | consecutive linspace samples are exactly (stop - start) / (num - 1) apart, including the forced last sample |
| Numpy.LinspaceWithin | quantum_fractals_guidebook/utils/fractal_julia_arrays.py:29-30 | every sample of an ascending linspace lies between its endpoints |
| Numpy.LinspaceIntegerProgression | quantum_fractals_guidebook/utils/fractal_julia_generalized.py:61-64 | a linspace between integers whose gap is a multiple of num - 1 is the integer progression from start with that stride |
| Numpy.Trunc | quantum_fractals_guidebook/utils/fractal_julia_generalized.py:61-64 | astype(int32) truncates toward zero: the result is within one of x, on the side of zero |
| Numpy.AsInt32 | quantum_fractals_guidebook/utils/fractal_julia_generalized.py:61-64 | astype(int32) element by element: one entry per sample, each truncated toward zero as Trunc states |
| Numpy.Int32Linspace | quantum_fractals_guidebook/utils/fractal_julia_generalized.py:61-64 | linspace(start, stop, num).astype(int32) has num entries; Int32LinspaceProgression gives its entries in closed form |
| Numpy.Int32LinspaceProgression | quantum_fractals_guidebook/utils/fractal_julia_generalized.py:61-64 | linspace(...).astype(int32) with such endpoints loses nothing: entry i is start + stride * i |
| Numpy.Full | quantum_fractals_guidebook/utils/fractal_julia_arrays.py:35 | np.full gives rows x cols entries, every one equal to the fill value |
| EscapeTime.Step | quantum_fractals_guidebook/utils/fractal_julia_calculations.py:16-21 | one j iteration for one point; TieDoesNotEscape states the strict escape test and RunIsEscapeOutcome what iterating it gives |
| EscapeTime.Run | quantum_fractals_guidebook/utils/fractal_julia_calculations.py:16-21 | iterations 0 .. k - 1 of the j loop; RunIsEscapeOutcome proves it equals the orbit-based outcome EscapeOutcome |
| EscapeTime.FirstEscape | quantum_fractals_guidebook/utils/fractal_julia_calculations.py:16-21 | the first iteration e < k whose new value exceeds the escape number, with no earlier value of the orbit exceeding it; None exactly when no value among the first k does |
| EscapeTime.RunIsEscapeOutcome | quantum_fractals_guidebook/utils/fractal_julia_calculations.py:16-21 | the j loop ends in the reference outcome: an escaped point unchanged; otherwise z is the map applied e + 1 times with con false and div e at the first escape e, or k times with con and div kept |
| EscapeTime.EscapedPointFrozen | quantum_fractals_guidebook/utils/fractal_julia_calculations.py:17 | a point whose con is false on entry keeps z, con and div |
| EscapeTime.EscapeIsFinal | quantum_fractals_guidebook/utils/fractal_julia_calculations.py:17-21 | once a point has escaped, further iterations change nothing, so div is written at most once |
| EscapeTime.ConvergingOnlyClears | quantum_fractals_guidebook/utils/fractal_julia_calculations.py:19-20 | con only goes from true to false: converging after k iterations means converging after every earlier one |
| EscapeTime.DivergenceRecordsEscape | quantum_fractals_guidebook/utils/fractal_julia_calculations.py:16-21 | a point that escapes records an iteration j < k in div, holds the map applied j + 1 times, and that value is the first of its orbit above the escape number |
| EscapeTime.SentinelKept | quantum_fractals_guidebook/utils/fractal_julia_calculations.py:16-21 | a point still converging keeps its entry div (the sentinel), holds the map applied k times, and no orbit value exceeded the escape number |
| EscapeTime.EscapesIff | quantum_fractals_guidebook/utils/fractal_julia_calculations.py:16-21 | a converging point escapes within k iterations if and only if some of its first k orbit values exceeds the escape number |
| EscapeTime.DivergenceInRange | quantum_fractals_guidebook/utils/fractal_julia_calculations.py:16-21 | with div pre-filled in [0, k), the final div lies in [0, k) |
| EscapeTime.LastIterationEscapeLooksLikeSentinel | quantum_fractals_guidebook/utils/fractal_julia_calculations.py:16-21 | a point that first escapes at the last iteration ends with div equal to the sentinel k - 1, with only con false to tell it apart |
| EscapeTime.TieDoesNotEscape | quantum_fractals_guidebook/utils/fractal_julia_calculations.py:19 | the escape test is strict: a new value whose magnitude equals the escape number keeps the point converging |
| EscapeTime.VisitOrderIrrelevant | quantum_fractals_guidebook/utils/fractal_julia_calculations.py:14-21 | visiting distinct points one after another, each updated on its own, gives the same grid as updating every point independently |
| EscapeTime.AnyTwoOrdersAgree | quantum_fractals_guidebook/utils/fractal_julia_calculations.py:14-15 | any two visiting orders of the same points (so the parallel loops' schedule) give the same grid |
| EscapeTime.IteratePoint | quantum_fractals_guidebook/utils/fractal_julia_calculations.py:16-21 | the j loop leaves point (x, y) in the state Run gives for its entry state and changes no other entry of the three arrays |
| EscapeTime.EscapeKernel | quantum_fractals_guidebook/utils/fractal_julia_calculations.py:14-21 | every point with x < width and y < height ends in the state Run gives for its own entry state; no entry outside that window changes |
| JuliaCalculations.Map1cn0 | quantum_fractals_guidebook/utils/fractal_julia_calculations.py:18 | the map z ** 2 + c; Set1cn0 states that every window point ends as Run of it |
| JuliaCalculations.Map2cn1 | quantum_fractals_guidebook/utils/fractal_julia_calculations.py:33 | the map (z ** 2 + c[0]) / (z ** 2 + c[1]); Set2cn1 states that every window point ends as Run of it, and OneQubitOffsetOneIsSet2cn1 that set_general's one-qubit, offset-1 map agrees with it |
| JuliaCalculations.Map2cn2 | quantum_fractals_guidebook/utils/fractal_julia_calculations.py:48 | the map ((c[0] * z ** 2 + 1) - c[0]) / ((c[1] * z ** 2 + 1) - c[1]); Set2cn2 states that every window point ends as Run of it |
| JuliaCalculations.Set1cn0 | quantum_fractals_guidebook/utils/fractal_julia_calculations.py:10-22 | with map z ** 2 + c, every point of the window ends as its own run gives, the rest is untouched, and div itself is returned |
| JuliaCalculations.Set2cn1 | quantum_fractals_guidebook/utils/fractal_julia_calculations.py:25-37 | as Set1cn0 with map (z ** 2 + c[0]) / (z ** 2 + c[1]) |
| JuliaCalculations.Set2cn2 | quantum_fractals_guidebook/utils/fractal_julia_calculations.py:40-52 | as Set1cn0 with map (c[0] * z ** 2 + 1 - c[0]) / (c[1] * z ** 2 + 1 - c[1]) |
| JuliaGeneralized.FractionPowersAndIndices | quantum_fractals_guidebook/utils/fractal_julia_generalized.py:54-67 | the four linspace(...).astype(int32) arrays; ScheduleClosedForm and ScheduleIndexCoverage give their lengths, closed forms and index coverage |
| JuliaGeneralized.ScheduleClosedForm | quantum_fractals_guidebook/utils/fractal_julia_generalized.py:54-67 | all four arrays have 2 ** n // 2 entries (2 ** (n - 1), none for n = 0); power arrays equal, entry i is 2 ** (n - 1) + offset - i; numerator index i is 2 ** n - 2 - 2i, denominator index one more |
| JuliaGeneralized.ScheduleIndexCoverage | quantum_fractals_guidebook/utils/fractal_julia_generalized.py:62-64 | for n >= 1 every index lies in [0, 2 ** n), numerator indices even and denominator indices odd, each strictly decreasing, and every statevector index appears once, at its slot |
| JuliaGeneralized.IndexArraysCover | quantum_fractals_guidebook/utils/fractal_julia_generalized.py:62-64 | index arrays counting down by two from 2k - 2 and 2k - 1 stay in [0, 2k), split even from odd, strictly decrease, and hold every index below 2k at its slot |
| JuliaGeneralized.OneQubitSchedules | quantum_fractals_guidebook/utils/fractal_julia_generalized.py:54-67 | one qubit gives ([1], [0], [1], [1]), set_general's default arrays, and ([2], [0], [2], [1]) with offset 1 |
| JuliaGeneralized.Partial | quantum_fractals_guidebook/utils/fractal_julia_generalized.py:35-41 | upper_val (lower_val) after m passes of the middle loop; PartialIsDocTerms gives it as the terms c[2k - 2m + parity] * z ** (k + off - m) that continue the docstring's leading-term pattern, and EvaluateMating computes it |
| JuliaGeneralized.SubExpression | quantum_fractals_guidebook/utils/fractal_julia_generalized.py:44-45 | one side of the fraction with its final coefficient; SubExpressionIsDoc gives it as the polynomial continuing the docstring's leading-term pattern, ending in c[0] or c[1] |
| JuliaGeneralized.MatingMap | quantum_fractals_guidebook/utils/fractal_julia_generalized.py:35-47 | the value assigned to z[x, y]; ClosedFormMatingMap and ScheduledMatingMap equate it with the fraction continuing the docstring's leading-term pattern c[2^n - 2m] * z^(2^(n-1) - m), ThreeQubitMatingMap spells it out for three qubits, and EvaluateMating computes it |
| JuliaGeneralized.PartialIsDocTerms | quantum_fractals_guidebook/utils/fractal_julia_generalized.py:39-41 | the middle loop over arrays counting down by one (powers) and two (indices) accumulates the terms c[2k - 2m + parity] * z ** (k + off - m), the pattern of the docstring's leading terms c[2^n - 2m] * z^(2^(n-1) - m) |
| JuliaGeneralized.SubExpressionIsDoc | quantum_fractals_guidebook/utils/fractal_julia_generalized.py:35-45 | one side of the fraction over closed-form arrays is the polynomial in the pattern of the docstring's leading terms, c[2^n - 2m] * z^(2^(n-1) - m), ending in the constant coefficient c[0] or c[1] |
| JuliaGeneralized.ClosedFormMatingMap | quantum_fractals_guidebook/utils/fractal_julia_generalized.py:35-47 | any schedule in the closed form of k terms fits a statevector of length 2k or more and evaluates to the fraction over k terms in the pattern of the docstring's leading terms, ending in c[0] and c[1] |
| JuliaGeneralized.ScheduledMatingMap | quantum_fractals_guidebook/utils/fractal_julia_generalized.py:18-47 | with the schedule of n qubits, every statevector access is in bounds and the fraction set_general evaluates is the mating fraction over 2 ** (n - 1) terms in the pattern of the docstring's leading terms, c[2^n - 2m] * z^(2^(n-1) - m), ending in c[0] and c[1] |
| JuliaGeneralized.ThreeQubitMatingMap | quantum_fractals_guidebook/utils/fractal_julia_generalized.py:35-47 | with the three-qubit schedule, the fraction set_general evaluates is (z^4 + c[6] z^3 + c[4] z^2 + c[2] z + c[0]) / (z^4 + c[7] z^3 + c[5] z^2 + c[3] z + c[1]), not the docstring's last terms |
| JuliaGeneralized.DefaultMatingMap | quantum_fractals_guidebook/utils/fractal_julia_generalized.py:13-14 | with its default arrays set_general's map is (z ** 1 + c[0]) / (z ** 1 + c[1]) |
| JuliaGeneralized.OneQubitOffsetOneIsSet2cn1 | quantum_fractals_guidebook/utils/fractal_julia_generalized.py:35-47 | with one qubit and offset 1 the mating map agrees with set_2cn1's on every value, so both kernels run every point alike |
| JuliaGeneralized.EvaluateMating | quantum_fractals_guidebook/utils/fractal_julia_generalized.py:35-47 | the leading power, the middle i loop, the final coefficients and the division compute the mating fraction of the schedule |
| JuliaGeneralized.MatingIteration | quantum_fractals_guidebook/utils/fractal_julia_generalized.py:33-50 | one j pass leaves point (x, y) in the state one Step of the mating map gives and changes no other entry |
| JuliaGeneralized.IterateMatingPoint | quantum_fractals_guidebook/utils/fractal_julia_generalized.py:32-50 | the j loop leaves point (x, y) as the run of the mating map gives it and changes no other entry |
| JuliaGeneralized.SetGeneral | quantum_fractals_guidebook/utils/fractal_julia_generalized.py:10-51 | every point of the window ends as its own run of the mating map gives, the rest is untouched, and div itself is returned |
| JuliaArrays.GetJuliaArrays | quantum_fractals_guidebook/utils/fractal_julia_arrays.py:11-21 | the constructor stores every argument unchanged, with the Python defaults |
| JuliaArrays.GetViewport | quantum_fractals_guidebook/utils/fractal_julia_arrays.py:24-27 | ZeroDivisionError exactly when zoom is 0; otherwise each axis is centred on its start and spans twice its width divided by the zoom |
| JuliaArrays.ViewportOrdered | quantum_fractals_guidebook/utils/fractal_julia_arrays.py:24-27 | with positive zoom and non-negative widths, x_min <= x_max and y_min <= y_max |
| JuliaArrays.UnitZoomViewport | quantum_fractals_guidebook/utils/fractal_julia_arrays.py:24-27 | at zoom 1 the bounds are the starts plus and minus the widths |
| JuliaArrays.DoubleZoomHalvesSpan | quantum_fractals_guidebook/utils/fractal_julia_arrays.py:24-27 | doubling the zoom halves both spans and keeps both centres |
| JuliaArrays.ZArray | quantum_fractals_guidebook/utils/fractal_julia_arrays.py:23-31 | fails exactly on zero zoom (ZeroDivisionError) or a negative dimension (ValueError); otherwise height x width samples, row r column col being x_arr[col] + i * y_arr[r] |
| JuliaArrays.ZArrayCorners | quantum_fractals_guidebook/utils/fractal_julia_arrays.py:29-31 | the first sample is (x_min, y_min) and, with two or more samples per axis, the last is (x_max, y_max) |
| JuliaArrays.ZArrayGridLines | quantum_fractals_guidebook/utils/fractal_julia_arrays.py:29-31 | a row shares its imaginary part, a column its real part, and row neighbours are one real step apart |
| JuliaArrays.ZArrayWithinViewport | quantum_fractals_guidebook/utils/fractal_julia_arrays.py:24-31 | with positive zoom and non-negative widths every sample lies inside the viewport |
| JuliaArrays.DivergedArray | quantum_fractals_guidebook/utils/fractal_julia_arrays.py:33-35 | fails exactly as the z array does; otherwise has its shape and every entry is julia_iterations - 1 |
| JuliaArrays.ConvergingArray | quantum_fractals_guidebook/utils/fractal_julia_arrays.py:37-39 | fails exactly as the z array does; otherwise has its shape and every entry is true |
| JuliaArrays.FreshPointOutcome | quantum_fractals_guidebook/utils/fractal_julia_arrays.py:33-39 | a point as the getters initialise it, run for julia_iterations iterations of any map, ends with div in [0, julia_iterations), and with the sentinel if it never escaped |
| JuliaArrays.KernelWindowNeedsSquarePicture | quantum_fractals_guidebook/utils/fractal_julia_calculations.py:14-17 | arrays of the getters' (height, width) shape cover the kernels' [x, y] window exactly when width equals height |

## Left out

- Floating point is not modelled. The model leaves out IEEE complex128 rounding, `abs` through a square root, and the `inf`/`NaN` a zero denominator yields under numba's `error_model='numpy'`. The complex operators are parameters, and linspace and the viewport use exact reals.
- Numba's `prange` parallelism is not modelled. The loops run sequentially, and `VisitOrderIrrelevant` stands in for the independence of the points.
- Machine integer widths are not modelled: `uint16` arrays and annotations, `int32` of `astype`, `int64` of `np.full`.
  - Numpy.Trunc does not wrap values outside the int32 range.
  - JuliaArrays.DivergedArray does not wrap `julia_iterations - 1` to int64.
- JuliaGeneralized.SetGeneral requires a schedule with at least `2 ** n // 2` entries per array, and indices inside the statevector.
  - Numba wraps a negative index, so with zero qubits and the default one-entry arrays `set_general` reads entry 0 and computes the one-qubit fraction; the model refuses zero qubits instead of modelling that wrap.
  - Empty arrays, such as `get_fraction_powers_and_indices(0)` returns, or indices past the statevector's end give an out-of-bounds read, which the model refuses too.
- The kernels' `escape_number` and `max_iterations` are unbounded reals and naturals, not `uint8`/`uint16`. `height` and `width` are naturals: a negative count makes `prange` run zero times, which the model does not cover.
- JuliaArrays takes `height` and `width` as integers. A float dimension, which `np.linspace` rejects with a TypeError, is not modelled.
- `fractal_visualization.py` is not part of this model. It holds only plotting, image and GIF I/O.
- `fractal_quantum_circuit.py` is not part of this model. It only drives the Qiskit statevector simulator that produces `c`, and the model takes `c` as a parameter.
- The `__main__` pretty-printer demo of `fractal_julia_generalized.py` is only console output.
