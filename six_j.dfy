/**
 * The Wigner 6-j symbol { j1 j2 j3 ; j4 j5 j6 } by Racah's sum formula.
 *
 * The six labels form four triads (j1,j2,j3), (j1,j5,j6), (j4,j2,j6) and
 * (j4,j5,j3). If any of them fails the triad test the symbol is zero;
 * otherwise it is sqrt(prodDelta) times a finite alternating sum over an even
 * summation label k running from kmin (the largest triad sum) to kmax (the
 * smallest of the three "quad" sums) in steps of two.
 *
 * The square root is a parameter `sqrt`: the model never computes it.
 */
module SixJ {
  import opened Racah

  function Max(m: nat, v: nat): nat
  {
    if v < m then m else v
  }

  function Min(m: nat, v: nat): nat
  {
    if m < v then m else v
  }

  /** All four triads of the symbol pass the triad test. */
  predicate TriadsHold(j1: nat, j2: nat, j3: nat, j4: nat, j5: nat, j6: nat)
  {
    && !ViolateTriadConditions(j1, j2, j3)
    && !ViolateTriadConditions(j1, j5, j6)
    && !ViolateTriadConditions(j4, j2, j6)
    && !ViolateTriadConditions(j4, j5, j3)
  }

  /** Lower end of the summation: the largest of the four triad sums
      (the crate folds max over them starting from 0). */
  function KMin(j1: nat, j2: nat, j3: nat, j4: nat, j5: nat, j6: nat): nat
  {
    Max(Max(Max(Max(0, j1 + j2 + j3), j4 + j5 + j3), j1 + j5 + j6), j4 + j2 + j6)
  }

  /** Upper end of the summation: the smallest of the three quad sums. */
  function KMax(j1: nat, j2: nat, j3: nat, j4: nat, j5: nat, j6: nat): nat
  {
    Min(Min(j1 + j2 + j4 + j5, j1 + j3 + j4 + j6), j2 + j3 + j5 + j6)
  }

  /** Once the four triads hold, the range [kmin, kmax] is non-empty and both
      ends are even, so `(kmax - kmin) / 2 + 1` neither underflows nor
      truncates. */
  lemma SummationBounds(j1: nat, j2: nat, j3: nat, j4: nat, j5: nat, j6: nat)
    requires TriadsHold(j1, j2, j3, j4, j5, j6)
    ensures KMin(j1, j2, j3, j4, j5, j6) <= KMax(j1, j2, j3, j4, j5, j6)
    ensures KMin(j1, j2, j3, j4, j5, j6) % 2 == 0
    ensures KMax(j1, j2, j3, j4, j5, j6) % 2 == 0
  {
    SumsEven(j1, j2, j3, j4, j5, j6);
    TriadArguments(j1, j2, j3);
    TriadArguments(j1, j5, j6);
    TriadArguments(j4, j2, j6);
    TriadArguments(j4, j5, j3);
  }

  /** The four triad sums and the three quad sums are all even. */
  lemma SumsEven(j1: nat, j2: nat, j3: nat, j4: nat, j5: nat, j6: nat)
    requires TriadsHold(j1, j2, j3, j4, j5, j6)
    ensures (j1 + j2 + j3) % 2 == 0 && (j4 + j5 + j3) % 2 == 0
    ensures (j1 + j5 + j6) % 2 == 0 && (j4 + j2 + j6) % 2 == 0
    ensures (j1 + j2 + j4 + j5) % 2 == 0
    ensures (j1 + j3 + j4 + j6) % 2 == 0
    ensures (j2 + j3 + j5 + j6) % 2 == 0
  {
    TriadArguments(j1, j2, j3);
    TriadArguments(j1, j5, j6);
    TriadArguments(j4, j2, j6);
    TriadArguments(j4, j5, j3);
    EvenLessDouble(j1 + j2 + j3, j4 + j5 + j3, j3);
    EvenLessDouble(j1 + j5 + j6, j4 + j5 + j3, j5);
    EvenLessDouble(j1 + j2 + j3, j1 + j5 + j6, j1);
  }

  /** t + u - 2j is even when t and u are. */
  lemma EvenLessDouble(t: nat, u: nat, j: nat)
    requires t % 2 == 0 && u % 2 == 0 && j + j <= t + u
    ensures (t + u - j - j) % 2 == 0
  {
    var a, b := t / 2, u / 2;
    assert t + u - j - j == 2 * (a + b - j);
  }

  /** a - b is even when a and b are. */
  lemma EvenDifference(a: nat, b: nat)
    requires a % 2 == 0 && b % 2 == 0 && b <= a
    ensures (a - b) % 2 == 0
  {
    var x, y := a / 2, b / 2;
    assert a - b == 2 * (x - y);
  }

  /** Every even k in [kmin, kmax] makes all seven factorial arguments of the
      summand natural numbers, each obtained by an exact halving. */
  lemma SummandArguments(j1: nat, j2: nat, j3: nat, j4: nat, j5: nat, j6: nat, k: nat)
    requires TriadsHold(j1, j2, j3, j4, j5, j6)
    requires KMin(j1, j2, j3, j4, j5, j6) <= k <= KMax(j1, j2, j3, j4, j5, j6)
    requires k % 2 == 0
    ensures j1 + j2 + j3 <= k && (k - j1 - j2 - j3) % 2 == 0
    ensures j4 + j5 + j3 <= k && (k - j4 - j5 - j3) % 2 == 0
    ensures j1 + j5 + j6 <= k && (k - j1 - j5 - j6) % 2 == 0
    ensures j4 + j2 + j6 <= k && (k - j4 - j2 - j6) % 2 == 0
    ensures k <= j1 + j2 + j4 + j5 && (j1 + j2 + j4 + j5 - k) % 2 == 0
    ensures k <= j1 + j3 + j4 + j6 && (j1 + j3 + j4 + j6 - k) % 2 == 0
    ensures k <= j2 + j3 + j5 + j6 && (j2 + j3 + j5 + j6 - k) % 2 == 0
  {
    SumsEven(j1, j2, j3, j4, j5, j6);
    LowerArguments(j1 + j2 + j3, j4 + j5 + j3, j1 + j5 + j6, j4 + j2 + j6, k);
    UpperArguments(j1 + j2 + j4 + j5, j1 + j3 + j4 + j6, j2 + j3 + j5 + j6, k);
  }

  /** k minus each of four even sums not above it is even. */
  lemma LowerArguments(t1: nat, t2: nat, t3: nat, t4: nat, k: nat)
    requires t1 % 2 == 0 && t2 % 2 == 0 && t3 % 2 == 0 && t4 % 2 == 0 && k % 2 == 0
    requires t1 <= k && t2 <= k && t3 <= k && t4 <= k
    ensures (k - t1) % 2 == 0 && (k - t2) % 2 == 0 && (k - t3) % 2 == 0 && (k - t4) % 2 == 0
  {
    EvenDifference(k, t1);
    EvenDifference(k, t2);
    EvenDifference(k, t3);
    EvenDifference(k, t4);
  }

  /** Each of three even sums not below k, minus k, is even. */
  lemma UpperArguments(q1: nat, q2: nat, q3: nat, k: nat)
    requires q1 % 2 == 0 && q2 % 2 == 0 && q3 % 2 == 0 && k % 2 == 0
    requires k <= q1 && k <= q2 && k <= q3
    ensures (q1 - k) % 2 == 0 && (q2 - k) % 2 == 0 && (q3 - k) % 2 == 0
  {
    EvenDifference(q1, k);
    EvenDifference(q2, k);
    EvenDifference(q3, k);
  }

  /** Number of summands, the crate's `(kmax - kmin) / 2 + 1`. */
  function TermCount(j1: nat, j2: nat, j3: nat, j4: nat, j5: nat, j6: nat): (c: nat)
    requires TriadsHold(j1, j2, j3, j4, j5, j6)
    ensures 1 <= c
    ensures KMin(j1, j2, j3, j4, j5, j6) + 2 * (c - 1) == KMax(j1, j2, j3, j4, j5, j6)
  {
    SummationBounds(j1, j2, j3, j4, j5, j6);
    var kmin, kmax := KMin(j1, j2, j3, j4, j5, j6), KMax(j1, j2, j3, j4, j5, j6);
    EvenDifference(kmax, kmin);
    var span: nat := kmax - kmin;
    span / 2 + 1
  }

  /** The k of the i-th summand is even and lies in [kmin, kmax]. */
  lemma SummandIndex(j1: nat, j2: nat, j3: nat, j4: nat, j5: nat, j6: nat, i: nat)
    requires TriadsHold(j1, j2, j3, j4, j5, j6)
    requires i < TermCount(j1, j2, j3, j4, j5, j6)
    ensures KMin(j1, j2, j3, j4, j5, j6) + 2 * i <= KMax(j1, j2, j3, j4, j5, j6)
    ensures (KMin(j1, j2, j3, j4, j5, j6) + 2 * i) % 2 == 0
  {
    SummationBounds(j1, j2, j3, j4, j5, j6);
    EvenStep(KMin(j1, j2, j3, j4, j5, j6), i);
  }

  lemma EvenStep(kmin: nat, i: nat)
    requires kmin % 2 == 0
    ensures (kmin + 2 * i) % 2 == 0
  {
    var h := kmin / 2;
    assert kmin + 2 * i == 2 * (h + i);
  }

  /** The product of the four triangle coefficients. */
  function ProdDelta(j1: nat, j2: nat, j3: nat, j4: nat, j5: nat, j6: nat): (p: real)
    requires TriadsHold(j1, j2, j3, j4, j5, j6)
    ensures 0.0 < p
  {
    var d1, d2, d3, d4 := Delta(j1, j2, j3), Delta(j4, j5, j3), Delta(j1, j5, j6), Delta(j4, j2, j6);
    PositiveReals(d1, d2);
    PositiveReals(d1 * d2, d3);
    PositiveReals(d1 * d2 * d3, d4);
    d1 * d2 * d3 * d4
  }

  lemma PositiveReals(x: real, y: real)
    requires 0.0 < x && 0.0 < y
    ensures 0.0 < x * y
  {
  }

  /** Product of the factorials of `args`, as the crate multiplies the
      factorials of the summand's denominator. */
  function FactorialProduct(args: seq<nat>): (p: nat)
    ensures 1 <= p
  {
    if args == [] then 1
    else
      PositiveProduct(Factorial(args[0]), FactorialProduct(args[1..]));
      Factorial(args[0]) * FactorialProduct(args[1..])
  }

  /** The summand for an even k in range:
        (-1)^(k/2) (k/2 + 1)! / product of the seven factorials. */
  function RacahTerm(j1: nat, j2: nat, j3: nat, j4: nat, j5: nat, j6: nat, k: nat): real
    requires TriadsHold(j1, j2, j3, j4, j5, j6)
    requires KMin(j1, j2, j3, j4, j5, j6) <= k <= KMax(j1, j2, j3, j4, j5, j6)
    requires k % 2 == 0
  {
    SummandArguments(j1, j2, j3, j4, j5, j6, k);
    var numerator := Phase(Half(k)) * (Factorial(Half(k) + 1) as real);
    var denominator := FactorialProduct(
      [Half(k - j1 - j2 - j3), Half(k - j4 - j5 - j3), Half(k - j1 - j5 - j6), Half(k - j4 - j2 - j6),
       Half(j1 + j2 + j4 + j5 - k), Half(j1 + j3 + j4 + j6 - k), Half(j2 + j3 + j5 + j6 - k)]);
    numerator / (denominator as real)
  }

  /** The first `count` summands, k = kmin, kmin + 2, ... */
  function RacahSum(j1: nat, j2: nat, j3: nat, j4: nat, j5: nat, j6: nat, count: nat): real
    requires TriadsHold(j1, j2, j3, j4, j5, j6)
    requires count <= TermCount(j1, j2, j3, j4, j5, j6)
  {
    if count == 0 then 0.0
    else
      SummandIndex(j1, j2, j3, j4, j5, j6, count - 1);
      RacahSum(j1, j2, j3, j4, j5, j6, count - 1)
      + RacahTerm(j1, j2, j3, j4, j5, j6, KMin(j1, j2, j3, j4, j5, j6) + 2 * (count - 1))
  }

  /** One more summand: the i-th one has k = kmin + 2i. */
  lemma RacahSumStep(j1: nat, j2: nat, j3: nat, j4: nat, j5: nat, j6: nat, i: nat, k: nat)
    requires TriadsHold(j1, j2, j3, j4, j5, j6)
    requires i < TermCount(j1, j2, j3, j4, j5, j6)
    requires k == KMin(j1, j2, j3, j4, j5, j6) + i * 2
    ensures KMin(j1, j2, j3, j4, j5, j6) <= k <= KMax(j1, j2, j3, j4, j5, j6) && k % 2 == 0
    ensures RacahSum(j1, j2, j3, j4, j5, j6, i + 1)
         == RacahSum(j1, j2, j3, j4, j5, j6, i) + RacahTerm(j1, j2, j3, j4, j5, j6, k)
  {
    SummandIndex(j1, j2, j3, j4, j5, j6, i);
  }

  /** The last of `count` summands has k = kmin + 2 (count - 1). This is
      `RacahSumStep` with i = count - 1, stated on `count` itself: an
      induction on `count` (as in `SwappedStep`) needs the terms
      `RacahSum(.., count)` and `RacahSum(.., count - 1)` exactly, and the
      solver matches `(count - 1) + 1` against `count` only at a high cost. */
  lemma RacahSumLast(j1: nat, j2: nat, j3: nat, j4: nat, j5: nat, j6: nat, count: nat, k: nat)
    requires TriadsHold(j1, j2, j3, j4, j5, j6)
    requires 0 < count <= TermCount(j1, j2, j3, j4, j5, j6)
    requires k == KMin(j1, j2, j3, j4, j5, j6) + 2 * (count - 1)
    ensures KMin(j1, j2, j3, j4, j5, j6) <= k <= KMax(j1, j2, j3, j4, j5, j6) && k % 2 == 0
    ensures RacahSum(j1, j2, j3, j4, j5, j6, count)
         == RacahSum(j1, j2, j3, j4, j5, j6, count - 1) + RacahTerm(j1, j2, j3, j4, j5, j6, k)
  {
    SummandIndex(j1, j2, j3, j4, j5, j6, count - 1);
  }

  /** The value of the 6-j symbol, as the crate defines it. */
  function Symbol(j1: nat, j2: nat, j3: nat, j4: nat, j5: nat, j6: nat, sqrt: real -> real): real
  {
    if ViolateTriadConditions(j1, j2, j3) then 0.0
    else if ViolateTriadConditions(j1, j5, j6) then 0.0
    else if ViolateTriadConditions(j4, j2, j6) then 0.0
    else if ViolateTriadConditions(j4, j5, j3) then 0.0
    else
      Mul(sqrt(ProdDelta(j1, j2, j3, j4, j5, j6)), RacahSum(j1, j2, j3, j4, j5, j6, TermCount(j1, j2, j3, j4, j5, j6)))
  }

  /** The symbol is zero as soon as one of its four triads fails. */
  lemma VanishesOnBrokenTriad(j1: nat, j2: nat, j3: nat, j4: nat, j5: nat, j6: nat, sqrt: real -> real)
    requires !TriadsHold(j1, j2, j3, j4, j5, j6)
    ensures Symbol(j1, j2, j3, j4, j5, j6, sqrt) == 0.0
  {
  }

  /** With all four triads valid the symbol is the Racah sum scaled by the
      square root of the product of the triangle coefficients. */
  lemma SymbolOfValidTriads(j1: nat, j2: nat, j3: nat, j4: nat, j5: nat, j6: nat, sqrt: real -> real)
    requires TriadsHold(j1, j2, j3, j4, j5, j6)
    ensures Symbol(j1, j2, j3, j4, j5, j6, sqrt)
         == Mul(sqrt(ProdDelta(j1, j2, j3, j4, j5, j6)), RacahSum(j1, j2, j3, j4, j5, j6, TermCount(j1, j2, j3, j4, j5, j6)))
  {
  }

  /** The tetrahedral symmetry {j1 j2 j3 ; j4 j5 j6} = {j4 j5 j3 ; j1 j2 j6}:
      exchanging upper and lower labels in the first two columns permutes the
      four triads, the four triangle coefficients, the summation bounds and
      the seven factorials of each summand, so the value is unchanged. */
  lemma UpperLowerSymmetric(j1: nat, j2: nat, j3: nat, j4: nat, j5: nat, j6: nat, sqrt: real -> real)
    ensures Symbol(j1, j2, j3, j4, j5, j6, sqrt) == Symbol(j4, j5, j3, j1, j2, j6, sqrt)
  {
    if TriadsHold(j1, j2, j3, j4, j5, j6) {
      SwappedBounds(j1, j2, j3, j4, j5, j6);
      SwappedProdDelta(j1, j2, j3, j4, j5, j6);
      SwappedRacahSum(j1, j2, j3, j4, j5, j6, TermCount(j1, j2, j3, j4, j5, j6));
      SymbolOfValidTriads(j1, j2, j3, j4, j5, j6, sqrt);
      SymbolOfValidTriads(j4, j5, j3, j1, j2, j6, sqrt);
    } else {
      VanishesOnBrokenTriad(j1, j2, j3, j4, j5, j6, sqrt);
      VanishesOnBrokenTriad(j4, j5, j3, j1, j2, j6, sqrt);
    }
  }

  /** The swapped symbol has the same triads, bounds and number of terms. */
  lemma SwappedBounds(j1: nat, j2: nat, j3: nat, j4: nat, j5: nat, j6: nat)
    requires TriadsHold(j1, j2, j3, j4, j5, j6)
    ensures TriadsHold(j4, j5, j3, j1, j2, j6)
    ensures KMin(j4, j5, j3, j1, j2, j6) == KMin(j1, j2, j3, j4, j5, j6)
    ensures KMax(j4, j5, j3, j1, j2, j6) == KMax(j1, j2, j3, j4, j5, j6)
    ensures TermCount(j4, j5, j3, j1, j2, j6) == TermCount(j1, j2, j3, j4, j5, j6)
  {
  }

  lemma SwappedProdDelta(j1: nat, j2: nat, j3: nat, j4: nat, j5: nat, j6: nat)
    requires TriadsHold(j1, j2, j3, j4, j5, j6)
    ensures TriadsHold(j4, j5, j3, j1, j2, j6)
    ensures ProdDelta(j4, j5, j3, j1, j2, j6) == ProdDelta(j1, j2, j3, j4, j5, j6)
  {
    var d1, d2, d3, d4 := Delta(j1, j2, j3), Delta(j4, j5, j3), Delta(j1, j5, j6), Delta(j4, j2, j6);
    assert d2 * d1 * d4 * d3 == d1 * d2 * d3 * d4;
  }

  /** The seven factorials of a summand of the swapped symbol are those of
      the original with the first two and the next two exchanged. */
  lemma SwappedRacahTerm(j1: nat, j2: nat, j3: nat, j4: nat, j5: nat, j6: nat, k: nat)
    requires TriadsHold(j1, j2, j3, j4, j5, j6)
    requires KMin(j1, j2, j3, j4, j5, j6) <= k <= KMax(j1, j2, j3, j4, j5, j6) && k % 2 == 0
    ensures TriadsHold(j4, j5, j3, j1, j2, j6)
    ensures KMin(j4, j5, j3, j1, j2, j6) <= k <= KMax(j4, j5, j3, j1, j2, j6)
    ensures RacahTerm(j4, j5, j3, j1, j2, j6, k) == RacahTerm(j1, j2, j3, j4, j5, j6, k)
  {
    SwappedBounds(j1, j2, j3, j4, j5, j6);
    SummandArguments(j1, j2, j3, j4, j5, j6, k);
    var a1, a2, a3, a4 := Half(k - j1 - j2 - j3), Half(k - j4 - j5 - j3), Half(k - j1 - j5 - j6), Half(k - j4 - j2 - j6);
    var b1, b2, b3 := Half(j1 + j2 + j4 + j5 - k), Half(j1 + j3 + j4 + j6 - k), Half(j2 + j3 + j5 + j6 - k);
    assert Half(j4 + j5 + j1 + j2 - k) == b1 && Half(j4 + j3 + j1 + j6 - k) == b2 && Half(j5 + j3 + j2 + j6 - k) == b3;
    PairsExchanged(a1, a2, a3, a4, b1, b2, b3);
  }

  /** Exchanging the first two and the next two of seven arguments leaves the
      product of their factorials unchanged. */
  lemma PairsExchanged(a1: nat, a2: nat, a3: nat, a4: nat, b1: nat, b2: nat, b3: nat)
    ensures FactorialProduct([a2, a1, a4, a3, b1, b2, b3]) == FactorialProduct([a1, a2, a3, a4, b1, b2, b3])
  {
    var rest := [b1, b2, b3];
    assert [a2, a1, a4, a3, b1, b2, b3] == [a2] + ([a1] + ([a4] + ([a3] + rest)));
    assert [a1, a2, a3, a4, b1, b2, b3] == [a1] + ([a2] + ([a3] + ([a4] + rest)));
    FactorialProductCons(a2, [a1] + ([a4] + ([a3] + rest)));
    FactorialProductCons(a1, [a4] + ([a3] + rest));
    FactorialProductCons(a4, [a3] + rest);
    FactorialProductCons(a3, rest);
    FactorialProductCons(a1, [a2] + ([a3] + ([a4] + rest)));
    FactorialProductCons(a2, [a3] + ([a4] + rest));
    FactorialProductCons(a3, [a4] + rest);
    FactorialProductCons(a4, rest);
    ProductOfFour(Factorial(a1), Factorial(a2), Factorial(a3), Factorial(a4), FactorialProduct(rest));
  }

  lemma FactorialProductCons(x: nat, rest: seq<nat>)
    ensures FactorialProduct([x] + rest) == Factorial(x) * FactorialProduct(rest)
  {
    assert ([x] + rest)[1..] == rest;
  }

  lemma ProductOfFour(f1: nat, f2: nat, f3: nat, f4: nat, r: nat)
    ensures f2 * (f1 * (f4 * (f3 * r))) == f1 * (f2 * (f3 * (f4 * r)))
  {
  }

  /** The partial Racah sums of the two symbols agree term by term. */
  lemma {:induction false} SwappedRacahSum(j1: nat, j2: nat, j3: nat, j4: nat, j5: nat, j6: nat, count: nat)
    requires TriadsHold(j1, j2, j3, j4, j5, j6)
    requires count <= TermCount(j1, j2, j3, j4, j5, j6)
    ensures TriadsHold(j4, j5, j3, j1, j2, j6) && count <= TermCount(j4, j5, j3, j1, j2, j6)
    ensures KMin(j4, j5, j3, j1, j2, j6) == KMin(j1, j2, j3, j4, j5, j6)
    ensures KMax(j4, j5, j3, j1, j2, j6) == KMax(j1, j2, j3, j4, j5, j6)
    ensures RacahSum(j4, j5, j3, j1, j2, j6, count) == RacahSum(j1, j2, j3, j4, j5, j6, count)
  {
    SwappedBounds(j1, j2, j3, j4, j5, j6);
    if count > 0 {
      SwappedRacahSum(j1, j2, j3, j4, j5, j6, count - 1);
      SwappedStep(j1, j2, j3, j4, j5, j6, count);
    }
  }

  /** If the partial sums of `count - 1` terms agree, so do those of `count`
      terms: the last summands agree. */
  lemma SwappedStep(j1: nat, j2: nat, j3: nat, j4: nat, j5: nat, j6: nat, count: nat)
    requires TriadsHold(j1, j2, j3, j4, j5, j6)
    requires 0 < count <= TermCount(j1, j2, j3, j4, j5, j6)
    requires TriadsHold(j4, j5, j3, j1, j2, j6) && count <= TermCount(j4, j5, j3, j1, j2, j6)
    requires RacahSum(j4, j5, j3, j1, j2, j6, count - 1) == RacahSum(j1, j2, j3, j4, j5, j6, count - 1)
    ensures RacahSum(j4, j5, j3, j1, j2, j6, count) == RacahSum(j1, j2, j3, j4, j5, j6, count)
  {
    var k := KMin(j1, j2, j3, j4, j5, j6) + 2 * (count - 1);
    RacahSumLast(j1, j2, j3, j4, j5, j6, count, k);
    SwappedBounds(j1, j2, j3, j4, j5, j6);
    RacahSumLast(j4, j5, j3, j1, j2, j6, count, k);
    SwappedRacahTerm(j1, j2, j3, j4, j5, j6, k);
  }

  /** The crate's `Wigner6j::value`: four early returns on a failed triad,
      then the product of the triangle coefficients, the summation bounds and
      the Racah sum. */
  method Value(j1: nat, j2: nat, j3: nat, j4: nat, j5: nat, j6: nat, sqrt: real -> real) returns (w: real)
    ensures w == Symbol(j1, j2, j3, j4, j5, j6, sqrt)
  {
    if ViolateTriadConditions(j1, j2, j3) {
      return 0.0;
    }
    if ViolateTriadConditions(j1, j5, j6) {
      return 0.0;
    }
    if ViolateTriadConditions(j4, j2, j6) {
      return 0.0;
    }
    if ViolateTriadConditions(j4, j5, j3) {
      return 0.0;
    }

    var prodDelta := ProdDelta(j1, j2, j3, j4, j5, j6);
    var kmin := KMin(j1, j2, j3, j4, j5, j6);
    var kmax := KMax(j1, j2, j3, j4, j5, j6);
    SummationBounds(j1, j2, j3, j4, j5, j6);
    var span: nat := kmax - kmin;
    assert span / 2 + 1 == TermCount(j1, j2, j3, j4, j5, j6);
    var sum := RacahSummation(j1, j2, j3, j4, j5, j6, kmin, span / 2 + 1);
    w := Mul(sqrt(prodDelta), sum);
  }

  /** The summation loop of `Wigner6j::value`: `count` summands accumulated
      into `sum`, k stepping by two from kmin. */
  method RacahSummation(j1: nat, j2: nat, j3: nat, j4: nat, j5: nat, j6: nat, kmin: nat, count: nat) returns (sum: real)
    requires TriadsHold(j1, j2, j3, j4, j5, j6)
    requires kmin == KMin(j1, j2, j3, j4, j5, j6) && count == TermCount(j1, j2, j3, j4, j5, j6)
    ensures sum == RacahSum(j1, j2, j3, j4, j5, j6, count)
  {
    sum := 0.0;
    for i := 0 to count
      invariant sum == RacahSum(j1, j2, j3, j4, j5, j6, i)
    {
      var k := kmin + i * 2;
      RacahSumStep(j1, j2, j3, j4, j5, j6, i, k);
      sum := sum + RacahTerm(j1, j2, j3, j4, j5, j6, k);
    }
  }
}
