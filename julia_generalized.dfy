/** The n-qubit Julia "mating" map: the coefficient schedule built by
    get_fraction_powers_and_indices, the fraction it defines, and the kernel
    set_general that iterates it over the grid. */
module JuliaGeneralized {
  import opened Numpy
  import opened EscapeTime
  import JuliaCalculations

  /** 2 ** n. */
  function Pow2(n: nat): (r: nat)
    ensures r >= 1
  {
    if n == 0 then 1 else 2 * Pow2(n - 1)
  }

  /** 2 ** n // 2 is 2 ** (n - 1) for n >= 1, and 2 ** n is twice it. */
  lemma HalfPow2(n: nat)
    requires n >= 1
    ensures Pow2(n) / 2 == Pow2(n - 1) && Pow2(n) == 2 * (Pow2(n) / 2)
  {
    var p := Pow2(n - 1);
    assert Pow2(n) == 2 * p;
  }

  /** The four arrays get_fraction_powers_and_indices returns. */
  datatype Schedule = Schedule(upperPwrs: seq<int>, upperIdxs: seq<int>, lowerPwrs: seq<int>, lowerIdxs: seq<int>)

  /** get_fraction_powers_and_indices: four linspaces of 2 ** n // 2 samples,
      converted with astype(int32). */
  function FractionPowersAndIndices(noQubits: nat := 1, powerOffset: int := 0): Schedule
  {
    var count := Pow2(noQubits) / 2;
    var powersStart := count + powerOffset;
    var powersStop := 1 + powerOffset;
    Schedule(
      Int32Linspace(powersStart, powersStop, count),
      Int32Linspace(Pow2(noQubits) - 2, 0, count),
      Int32Linspace(powersStart, powersStop, count),
      Int32Linspace(Pow2(noQubits) - 1, 1, count))
  }

  /** The schedule in closed form: all four arrays have 2 ** n // 2 entries
      (2 ** (n - 1) for n >= 1, none for n = 0); the two power arrays are equal
      and count down by one from 2 ** (n - 1) + offset; the numerator indices
      count down by two from 2 ** n - 2 and each denominator index is one more
      than its numerator index. */
  lemma ScheduleClosedForm(n: nat, off: int)
    ensures var s := FractionPowersAndIndices(n, off);
      var k := Pow2(n) / 2;
      && k == (if n == 0 then 0 else Pow2(n - 1))
      && |s.upperPwrs| == k && |s.upperIdxs| == k && |s.lowerPwrs| == k && |s.lowerIdxs| == k
      && s.upperPwrs == s.lowerPwrs
      && (forall i :: 0 <= i < k ==> s.upperPwrs[i] == k + off - i)
      && (forall i :: 0 <= i < k ==> s.upperIdxs[i] == Pow2(n) - 2 - 2 * i)
      && (forall i :: 0 <= i < k ==> s.lowerIdxs[i] == s.upperIdxs[i] + 1)
  {
    var k := Pow2(n) / 2;
    if n >= 1 {
      HalfPow2(n);
      Int32LinspaceProgression(k + off, -1, k, 1 + off);
      Int32LinspaceProgression(2 * k - 2, -2, k, 0);
      Int32LinspaceProgression(2 * k - 1, -2, k, 1);
    }
  }

  /** The schedule slot that holds statevector index m for a statevector of
      length 2k: the numerator array holds it there when m is even, the
      denominator array when m is odd. */
  function Slot(k: nat, m: int): int
  {
    (2 * k - 1 - m) / 2
  }

  /** The entries set_general reads from a schedule for k = 2 ** n // 2:
      k powers and k indices per sub-expression, each index inside a
      statevector of length cLength. */
  predicate Fits(s: Schedule, k: nat, cLength: nat)
  {
    && 1 <= k
    && k <= |s.upperPwrs| && k <= |s.upperIdxs| && k <= |s.lowerPwrs| && k <= |s.lowerIdxs|
    && (forall i :: 0 <= i < k ==> 0 <= s.upperIdxs[i] < cLength)
    && (forall i :: 0 <= i < k ==> 0 <= s.lowerIdxs[i] < cLength)
  }

  /** Index arrays counting down by two from 2k - 2 and from 2k - 1 stay in
      [0, 2k), split the even indices from the odd ones, strictly decrease,
      and together hold every index below 2k, each at its slot. */
  lemma {:induction false} IndexArraysCover(upper: seq<int>, lower: seq<int>, k: nat)
    requires |upper| == k && |lower| == k
    requires forall i :: 0 <= i < k ==> upper[i] == 2 * k - 2 - 2 * i
    requires forall i :: 0 <= i < k ==> lower[i] == upper[i] + 1
    ensures forall i :: 0 <= i < k ==> 0 <= upper[i] < 2 * k && 0 <= lower[i] < 2 * k
    ensures forall i :: 0 <= i < k ==> upper[i] % 2 == 0 && lower[i] % 2 == 1
    ensures forall i, j :: 0 <= i < j < k ==> upper[i] > upper[j] && lower[i] > lower[j]
    ensures forall m :: 0 <= m < 2 * k ==>
      0 <= Slot(k, m) < k && (if m % 2 == 0 then upper[Slot(k, m)] == m else lower[Slot(k, m)] == m)
  {
    forall i | 0 <= i < k
      ensures upper[i] % 2 == 0 && lower[i] % 2 == 1
    {
      assert upper[i] == 2 * (k - 1 - i);
    }
    forall m | 0 <= m < 2 * k
      ensures 0 <= Slot(k, m) < k
      ensures m % 2 == 0 ==> upper[Slot(k, m)] == m
      ensures m % 2 == 1 ==> lower[Slot(k, m)] == m
    {
      var t := Slot(k, m);
      if m % 2 == 0 {
        assert 2 * t == 2 * k - 2 - m;
      } else {
        assert 2 * t == 2 * k - 1 - m;
      }
    }
  }

  /** For n >= 1 every index lies in [0, 2 ** n), so every statevector
      access of set_general is in bounds; numerator indices are even and
      denominator indices odd, each array strictly decreasing, and every
      statevector index appears in exactly one of them, at its slot. */
  lemma ScheduleIndexCoverage(n: nat, off: int)
    requires n >= 1
    ensures var s := FractionPowersAndIndices(n, off);
      var k := Pow2(n) / 2;
      && Fits(s, k, Pow2(n))
      && (forall i :: 0 <= i < k ==> s.upperIdxs[i] % 2 == 0 && s.lowerIdxs[i] % 2 == 1)
      && (forall i, j :: 0 <= i < j < k ==> s.upperIdxs[i] > s.upperIdxs[j] && s.lowerIdxs[i] > s.lowerIdxs[j])
      && (forall m :: 0 <= m < Pow2(n) ==>
            0 <= Slot(k, m) < k &&
            (if m % 2 == 0 then s.upperIdxs[Slot(k, m)] == m else s.lowerIdxs[Slot(k, m)] == m))
  {
    ScheduleClosedForm(n, off);
    HalfPow2(n);
    var s := FractionPowersAndIndices(n, off);
    var k := Pow2(n) / 2;
    assert Pow2(n) == 2 * k;
    IndexArraysCover(s.upperIdxs, s.lowerIdxs, k);
  }

  /** With one qubit the schedule is ([1], [0], [1], [1]) without offset,
      exactly the default arrays of set_general, and ([2], [0], [2], [1])
      with offset 1. */
  lemma OneQubitSchedules()
    ensures FractionPowersAndIndices(1, 0) == Schedule([1], [0], [1], [1])
    ensures FractionPowersAndIndices(1, 1) == Schedule([2], [0], [2], [1])
  {
    ScheduleClosedForm(1, 0);
    ScheduleClosedForm(1, 1);
  }

  /** upper_val (or lower_val) after m passes of the middle loop:
      z ** pwrs[0] + c[idxs[0]] * z ** pwrs[1] + ... + c[idxs[m - 1]] * z ** pwrs[m],
      summed left to right. */
  function Partial(ops: Ops, pwrs: seq<int>, idxs: seq<int>, c: seq<Complex>, z: Complex, m: nat): Complex
    requires m < |pwrs| && m <= |idxs|
    requires forall i :: 0 <= i < m ==> 0 <= idxs[i] < |c|
  {
    if m == 0 then ops.pow(z, pwrs[0])
    else ops.add(Partial(ops, pwrs, idxs, c, z, m - 1), ops.mul(c[idxs[m - 1]], ops.pow(z, pwrs[m])))
  }

  /** One side of the fraction: k - 1 middle terms, then the final
      coefficient c[idxs[k - 1]]. */
  function SubExpression(ops: Ops, pwrs: seq<int>, idxs: seq<int>, c: seq<Complex>, z: Complex, k: nat): Complex
    requires 1 <= k <= |pwrs| && k <= |idxs|
    requires forall i :: 0 <= i < k ==> 0 <= idxs[i] < |c|
  {
    ops.add(Partial(ops, pwrs, idxs, c, z, k - 1), c[idxs[k - 1]])
  }

  /** The value set_general assigns to z[x, y]: upper_val / lower_val. */
  function MatingMap(ops: Ops, s: Schedule, k: nat, c: seq<Complex>, z: Complex): Complex
    requires Fits(s, k, |c|)
  {
    ops.div(SubExpression(ops, s.upperPwrs, s.upperIdxs, c, z, k),
            SubExpression(ops, s.lowerPwrs, s.lowerIdxs, c, z, k))
  }

  /** The mating map as a function of z alone. */
  function MatingStep(ops: Ops, s: Schedule, k: nat, c: seq<Complex>): Complex -> Complex
    requires Fits(s, k, |c|)
  {
    w => MatingMap(ops, s, k, c, w)
  }

  /** The mating polynomial over k = 2 ** (n - 1) terms, continuing the
      pattern of the leading terms in set_general's docstring,
      c[2 ** n - 2m] * z ** (2 ** (n - 1) - m), all the way down:
      z ** (k + off) + c[2k - 2 + parity] * z ** (k + off - 1)
      + c[2k - 4 + parity] * z ** (k + off - 2) + ..., here up to its m-th
      middle term; parity 0 gives the numerator, parity 1 the denominator.
      The docstring's own last terms break this pattern; the code follows it
      (ThreeQubitMatingMap). */
  function DocTerms(ops: Ops, k: nat, off: int, parity: nat, c: seq<Complex>, z: Complex, m: nat): Complex
    requires m < k && parity <= 1 && 2 * k <= |c|
  {
    if m == 0 then ops.pow(z, k + off)
    else ops.add(DocTerms(ops, k, off, parity, c, z, m - 1), ops.mul(c[2 * k - 2 * m + parity], ops.pow(z, k + off - m)))
  }

  /** The full fraction over k terms in that leading-term pattern: both
      polynomials end in the constant coefficient, c[0] in the numerator and
      c[1] in the denominator. */
  function DocFraction(ops: Ops, k: nat, off: int, c: seq<Complex>, z: Complex): Complex
    requires 1 <= k && 2 * k <= |c|
  {
    ops.div(ops.add(DocTerms(ops, k, off, 0, c, z, k - 1), c[0]),
            ops.add(DocTerms(ops, k, off, 1, c, z, k - 1), c[1]))
  }

  /** A power array counting down by one from k + off and an index array
      counting down by two from 2k - 2 + parity give the terms of DocTerms. */
  lemma {:induction false} PartialIsDocTerms(ops: Ops, pwrs: seq<int>, idxs: seq<int>, k: nat, off: int, parity: nat,
                                             c: seq<Complex>, z: Complex, m: nat)
    requires m < k <= |pwrs| && k <= |idxs| && 2 * k <= |c| && parity <= 1
    requires forall i :: 0 <= i < k ==> pwrs[i] == k + off - i
    requires forall i :: 0 <= i < k ==> idxs[i] == 2 * k - 2 - 2 * i + parity
    ensures Partial(ops, pwrs, idxs, c, z, m) == DocTerms(ops, k, off, parity, c, z, m)
  {
    if m > 0 {
      PartialIsDocTerms(ops, pwrs, idxs, k, off, parity, c, z, m - 1);
    }
  }

  /** One side of the fraction over such arrays is the leading-term
      pattern's polynomial, ending in the constant coefficient c[parity]. */
  lemma SubExpressionIsDoc(ops: Ops, pwrs: seq<int>, idxs: seq<int>, k: nat, off: int, parity: nat,
                           c: seq<Complex>, z: Complex)
    requires 1 <= k <= |pwrs| && k <= |idxs| && 2 * k <= |c| && parity <= 1
    requires forall i :: 0 <= i < k ==> pwrs[i] == k + off - i
    requires forall i :: 0 <= i < k ==> idxs[i] == 2 * k - 2 - 2 * i + parity
    ensures forall i :: 0 <= i < k ==> 0 <= idxs[i] < |c|
    ensures SubExpression(ops, pwrs, idxs, c, z, k) == ops.add(DocTerms(ops, k, off, parity, c, z, k - 1), c[parity])
  {
    PartialIsDocTerms(ops, pwrs, idxs, k, off, parity, c, z, k - 1);
    assert idxs[k - 1] == parity;
  }

  /** Any schedule in the closed form of k terms evaluates to DocFraction
      over k terms, and its indices fit a statevector of length at least 2k. */
  lemma ClosedFormMatingMap(ops: Ops, s: Schedule, k: nat, off: int, c: seq<Complex>, z: Complex)
    requires 1 <= k && 2 * k <= |c|
    requires |s.upperPwrs| == k && |s.upperIdxs| == k && |s.lowerPwrs| == k && |s.lowerIdxs| == k
    requires forall i :: 0 <= i < k ==> s.upperPwrs[i] == k + off - i && s.lowerPwrs[i] == k + off - i
    requires forall i :: 0 <= i < k ==> s.upperIdxs[i] == 2 * k - 2 - 2 * i
    requires forall i :: 0 <= i < k ==> s.lowerIdxs[i] == s.upperIdxs[i] + 1
    ensures Fits(s, k, |c|)
    ensures MatingMap(ops, s, k, c, z) == DocFraction(ops, k, off, c, z)
  {
    assert forall i :: 0 <= i < k ==> s.upperIdxs[i] == 2 * k - 2 - 2 * i + 0;
    assert forall i :: 0 <= i < k ==> s.lowerIdxs[i] == 2 * k - 2 - 2 * i + 1;
    SubExpressionIsDoc(ops, s.upperPwrs, s.upperIdxs, k, off, 0, c, z);
    SubExpressionIsDoc(ops, s.lowerPwrs, s.lowerIdxs, k, off, 1, c, z);
  }

  /** The fraction that set_general evaluates from the schedule of n qubits
      is DocFraction over 2 ** (n - 1) terms: the docstring's leading-term
      pattern continued down to c[0] and c[1]. */
  lemma ScheduledMatingMap(ops: Ops, n: nat, off: int, c: seq<Complex>, z: Complex)
    requires n >= 1 && Pow2(n) <= |c|
    ensures Pow2(n) / 2 == Pow2(n - 1) && 1 <= Pow2(n) / 2
    ensures Fits(FractionPowersAndIndices(n, off), Pow2(n) / 2, |c|)
    ensures MatingMap(ops, FractionPowersAndIndices(n, off), Pow2(n) / 2, c, z) == DocFraction(ops, Pow2(n) / 2, off, c, z)
  {
    ScheduleClosedForm(n, off);
    HalfPow2(n);
    ClosedFormMatingMap(ops, FractionPowersAndIndices(n, off), Pow2(n) / 2, off, c, z);
  }

  /** With the schedule of three qubits and no offset, set_general iterates
      (z ** 4 + c[6] * z ** 3 + c[4] * z ** 2 + c[2] * z ** 1 + c[0])
      / (z ** 4 + c[7] * z ** 3 + c[5] * z ** 2 + c[3] * z ** 1 + c[1]):
      c[6] goes with z ** 3 and c[4] with z ** 2, where the docstring's
      three-qubit example writes c[4] as a constant. */
  lemma ThreeQubitMatingMap(ops: Ops, c: seq<Complex>, z: Complex)
    requires |c| >= 8
    ensures Pow2(3) / 2 == 4
    ensures Fits(FractionPowersAndIndices(3, 0), 4, |c|)
    ensures MatingMap(ops, FractionPowersAndIndices(3, 0), 4, c, z)
            == ops.div(ops.add(ops.add(ops.add(ops.add(ops.pow(z, 4), ops.mul(c[6], ops.pow(z, 3))),
                                               ops.mul(c[4], ops.pow(z, 2))),
                                       ops.mul(c[2], ops.pow(z, 1))), c[0]),
                       ops.add(ops.add(ops.add(ops.add(ops.pow(z, 4), ops.mul(c[7], ops.pow(z, 3))),
                                               ops.mul(c[5], ops.pow(z, 2))),
                                       ops.mul(c[3], ops.pow(z, 1))), c[1]))
  {
    assert Pow2(3) == 8;
    ScheduledMatingMap(ops, 3, 0, c, z);
    assert DocTerms(ops, 4, 0, 0, c, z, 1) == ops.add(ops.pow(z, 4), ops.mul(c[6], ops.pow(z, 3)));
    assert DocTerms(ops, 4, 0, 1, c, z, 1) == ops.add(ops.pow(z, 4), ops.mul(c[7], ops.pow(z, 3)));
    assert DocTerms(ops, 4, 0, 0, c, z, 3)
        == ops.add(ops.add(ops.add(ops.pow(z, 4), ops.mul(c[6], ops.pow(z, 3))), ops.mul(c[4], ops.pow(z, 2))),
                   ops.mul(c[2], ops.pow(z, 1)));
    assert DocTerms(ops, 4, 0, 1, c, z, 3)
        == ops.add(ops.add(ops.add(ops.pow(z, 4), ops.mul(c[7], ops.pow(z, 3))), ops.mul(c[5], ops.pow(z, 2))),
                   ops.mul(c[3], ops.pow(z, 1)));
  }

  /** With its default arrays (one qubit, no offset) set_general iterates the
      Moebius map (z ** 1 + c[0]) / (z ** 1 + c[1]), not set_1cn0's z ** 2 + c. */
  lemma DefaultMatingMap(ops: Ops, c: seq<Complex>, z: Complex)
    requires |c| >= 2
    ensures Fits(FractionPowersAndIndices(1, 0), 1, |c|)
    ensures MatingMap(ops, FractionPowersAndIndices(1, 0), 1, c, z)
            == ops.div(ops.add(ops.pow(z, 1), c[0]), ops.add(ops.pow(z, 1), c[1]))
  {
    OneQubitSchedules();
  }

  /** With one qubit and power offset 1 the mating map is set_2cn1's map
      (z ** 2 + c[0]) / (z ** 2 + c[1]), so both kernels run every point
      alike. */
  lemma OneQubitOffsetOneIsSet2cn1(ops: Ops, c: seq<Complex>, escapeNumber: real, p: Pixel, k: nat)
    requires |c| >= 2
    ensures Fits(FractionPowersAndIndices(1, 1), 1, |c|)
    ensures forall w :: MatingStep(ops, FractionPowersAndIndices(1, 1), 1, c)(w) == JuliaCalculations.Map2cn1(ops, c)(w)
    ensures Run(MatingStep(ops, FractionPowersAndIndices(1, 1), 1, c), ops.abs, escapeNumber, p, k)
            == Run(JuliaCalculations.Map2cn1(ops, c), ops.abs, escapeNumber, p, k)
  {
    OneQubitSchedules();
    var f := MatingStep(ops, FractionPowersAndIndices(1, 1), 1, c);
    var g := JuliaCalculations.Map2cn1(ops, c);
    SameMapSameRun(f, g, ops.abs, escapeNumber, p, k);
  }

  /** The body of set_general's j loop before the escape test: the leading
      power, the middle loop over i, the final coefficients, and the
      division. */
  method EvaluateMating(ops: Ops, s: Schedule, numberOfQubits: nat, c: seq<Complex>, z: Complex) returns (v: Complex)
    requires Fits(s, Pow2(numberOfQubits) / 2, |c|)
    ensures v == MatingMap(ops, s, Pow2(numberOfQubits) / 2, c, z)
  {
    var k := Pow2(numberOfQubits) / 2;
    var upperVal := ops.pow(z, s.upperPwrs[0]);
    var lowerVal := ops.pow(z, s.lowerPwrs[0]);
    for i := 0 to k - 1
      invariant upperVal == Partial(ops, s.upperPwrs, s.upperIdxs, c, z, i)
      invariant lowerVal == Partial(ops, s.lowerPwrs, s.lowerIdxs, c, z, i)
    {
      upperVal := ops.add(upperVal, ops.mul(c[s.upperIdxs[i]], ops.pow(z, s.upperPwrs[i + 1])));
      lowerVal := ops.add(lowerVal, ops.mul(c[s.lowerIdxs[i]], ops.pow(z, s.lowerPwrs[i + 1])));
    }
    upperVal := ops.add(upperVal, c[s.upperIdxs[k - 1]]);
    lowerVal := ops.add(lowerVal, c[s.lowerIdxs[k - 1]]);
    v := ops.div(upperVal, lowerVal);
  }

  /** One pass of set_general's j loop for point (x, y): a converging point
      gets the mating map of its value and, if that escapes, con false and
      div j; this is Step for the mating map, and no other entry changes. The
      ghost parameter step names the mating map as a function of z. */
  method MatingIteration(ops: Ops, s: Schedule, numberOfQubits: nat, c: seq<Complex>,
                         z: array2<Complex>, con: array2<bool>, div: array2<int>,
                         x: nat, y: nat, j: nat, escapeNumber: real,
                         ghost step: Complex -> Complex)
    requires Fits(s, Pow2(numberOfQubits) / 2, |c|)
    requires forall w :: step(w) == MatingMap(ops, s, Pow2(numberOfQubits) / 2, c, w)
    requires x < z.Length0 && y < z.Length1
    requires x < con.Length0 && y < con.Length1
    requires x < div.Length0 && y < div.Length1
    modifies z, con, div
    ensures At(z, con, div, x, y) == Step(step, ops.abs, escapeNumber, old(At(z, con, div, x, y)), j)
    ensures forall x', y' :: 0 <= x' < z.Length0 && 0 <= y' < z.Length1 && (x' != x || y' != y) ==> z[x', y'] == old(z[x', y'])
    ensures forall x', y' :: 0 <= x' < con.Length0 && 0 <= y' < con.Length1 && (x' != x || y' != y) ==> con[x', y'] == old(con[x', y'])
    ensures forall x', y' :: 0 <= x' < div.Length0 && 0 <= y' < div.Length1 && (x' != x || y' != y) ==> div[x', y'] == old(div[x', y'])
  {
    if con[x, y] {
      var v := EvaluateMating(ops, s, numberOfQubits, c, z[x, y]);
      assert v == step(z[x, y]);
      z[x, y] := v;
      if ops.abs(z[x, y]) > escapeNumber {
        con[x, y] := false;
        div[x, y] := j;
      }
    }
  }

  /** The j loop of set_general for one point (x, y): the point ends as the
      run of the mating map gives it, and no other entry changes. */
  method IterateMatingPoint(ops: Ops, s: Schedule, numberOfQubits: nat, c: seq<Complex>,
                            z: array2<Complex>, con: array2<bool>, div: array2<int>,
                            x: nat, y: nat, maxIterations: nat, escapeNumber: real,
                            ghost step: Complex -> Complex)
    requires Fits(s, Pow2(numberOfQubits) / 2, |c|)
    requires forall w :: step(w) == MatingMap(ops, s, Pow2(numberOfQubits) / 2, c, w)
    requires x < z.Length0 && y < z.Length1
    requires x < con.Length0 && y < con.Length1
    requires x < div.Length0 && y < div.Length1
    modifies z, con, div
    ensures At(z, con, div, x, y) == Run(step, ops.abs, escapeNumber, old(At(z, con, div, x, y)), maxIterations)
    ensures forall x', y' :: 0 <= x' < z.Length0 && 0 <= y' < z.Length1 && (x' != x || y' != y) ==> z[x', y'] == old(z[x', y'])
    ensures forall x', y' :: 0 <= x' < con.Length0 && 0 <= y' < con.Length1 && (x' != x || y' != y) ==> con[x', y'] == old(con[x', y'])
    ensures forall x', y' :: 0 <= x' < div.Length0 && 0 <= y' < div.Length1 && (x' != x || y' != y) ==> div[x', y'] == old(div[x', y'])
  {
    for j := 0 to maxIterations
      invariant At(z, con, div, x, y) == Run(step, ops.abs, escapeNumber, old(At(z, con, div, x, y)), j)
      invariant forall x', y' :: 0 <= x' < z.Length0 && 0 <= y' < z.Length1 && (x' != x || y' != y) ==> z[x', y'] == old(z[x', y'])
      invariant forall x', y' :: 0 <= x' < con.Length0 && 0 <= y' < con.Length1 && (x' != x || y' != y) ==> con[x', y'] == old(con[x', y'])
      invariant forall x', y' :: 0 <= x' < div.Length0 && 0 <= y' < div.Length1 && (x' != x || y' != y) ==> div[x', y'] == old(div[x', y'])
    {
      MatingIteration(ops, s, numberOfQubits, c, z, con, div, x, y, j, escapeNumber, step);
    }
  }

  /** set_general: every point of the width x height window, indexed [x, y],
      ends in the state its own run of the mating map gives, the rest of the
      arrays is untouched, and the divergence array itself is returned. The
      schedule arrays default to those of one qubit without offset. */
  method SetGeneral(ops: Ops, c: seq<Complex>, z: array2<Complex>, con: array2<bool>, div: array2<int>,
                    s: Schedule := Schedule([1], [0], [1], [1]),
                    maxIterations: nat := 100, numberOfQubits: nat := 1, escapeNumber: real := 2.0,
                    height: nat := 200, width: nat := 200) returns (r: array2<int>)
    requires Fits(s, Pow2(numberOfQubits) / 2, |c|)
    requires Covers(z, con, div, width, height)
    modifies z, con, div
    ensures r == div
    ensures forall x, y :: 0 <= x < width && 0 <= y < height ==>
      At(z, con, div, x, y)
      == Run(MatingStep(ops, s, Pow2(numberOfQubits) / 2, c), ops.abs, escapeNumber, old(At(z, con, div, x, y)), maxIterations)
    ensures forall x, y :: 0 <= x < z.Length0 && 0 <= y < z.Length1 && !(x < width && y < height) ==> z[x, y] == old(z[x, y])
    ensures forall x, y :: 0 <= x < con.Length0 && 0 <= y < con.Length1 && !(x < width && y < height) ==> con[x, y] == old(con[x, y])
    ensures forall x, y :: 0 <= x < div.Length0 && 0 <= y < div.Length1 && !(x < width && y < height) ==> div[x, y] == old(div[x, y])
  {
    ghost var step := MatingStep(ops, s, Pow2(numberOfQubits) / 2, c);
    for x := 0 to width
      invariant forall x', y' :: Visited(x', y', x, 0, height) ==>
        At(z, con, div, x', y') == Run(step, ops.abs, escapeNumber, old(At(z, con, div, x', y')), maxIterations)
      invariant forall x', y' :: 0 <= x' < z.Length0 && 0 <= y' < z.Length1 && !Visited(x', y', x, 0, height) ==> z[x', y'] == old(z[x', y'])
      invariant forall x', y' :: 0 <= x' < con.Length0 && 0 <= y' < con.Length1 && !Visited(x', y', x, 0, height) ==> con[x', y'] == old(con[x', y'])
      invariant forall x', y' :: 0 <= x' < div.Length0 && 0 <= y' < div.Length1 && !Visited(x', y', x, 0, height) ==> div[x', y'] == old(div[x', y'])
    {
      for y := 0 to height
        invariant forall x', y' :: Visited(x', y', x, y, height) ==>
          At(z, con, div, x', y') == Run(step, ops.abs, escapeNumber, old(At(z, con, div, x', y')), maxIterations)
        invariant forall x', y' :: 0 <= x' < z.Length0 && 0 <= y' < z.Length1 && !Visited(x', y', x, y, height) ==> z[x', y'] == old(z[x', y'])
        invariant forall x', y' :: 0 <= x' < con.Length0 && 0 <= y' < con.Length1 && !Visited(x', y', x, y, height) ==> con[x', y'] == old(con[x', y'])
        invariant forall x', y' :: 0 <= x' < div.Length0 && 0 <= y' < div.Length1 && !Visited(x', y', x, y, height) ==> div[x', y'] == old(div[x', y'])
      {
        IterateMatingPoint(ops, s, numberOfQubits, c, z, con, div, x, y, maxIterations, escapeNumber, step);
      }
    }
    r := div;
  }
}
