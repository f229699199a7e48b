/**
 * The concrete symbols the crate's tests and documentation evaluate, worked
 * out exactly. Each value that goes through a square root is stated either
 * with the root left symbolic or for a square root that is exact at the
 * arguments the evaluation needs (the crate's `f64::sqrt` is not modelled),
 * so the value is the exact rational that the floating-point result
 * approximates.
 */
module Cases {
  import opened Racah
  import SixJ
  import opened ThreeNJ

  /** {0 0 0 ; 1 1 0}: the triad (0, 1, 0) fails, so the symbol is zero for
      every square root. */
  lemma SixJWithBrokenTriad(sqrt: real -> real)
    ensures SixJ.Symbol(0, 0, 0, 1, 1, 0, sqrt) == 0.0
  {
  }

  /** {1 1 0 ; 1 1 2} = 1/2: the product of the triangle coefficients is
      1/144 and the Racah sum has the single term k = 4, equal to 3! = 6. */
  lemma SixJHalf(sqrt: real -> real)
    requires sqrt(1.0 / 144.0) == 1.0 / 12.0
    ensures SixJ.TriadsHold(1, 1, 0, 1, 1, 2)
    ensures SixJ.ProdDelta(1, 1, 0, 1, 1, 2) == 1.0 / 144.0
    ensures SixJ.KMin(1, 1, 0, 1, 1, 2) == 4 == SixJ.KMax(1, 1, 0, 1, 1, 2)
    ensures SixJ.TermCount(1, 1, 0, 1, 1, 2) == 1
    ensures SixJ.RacahTerm(1, 1, 0, 1, 1, 2, 4) == 6.0
    ensures SixJ.Symbol(1, 1, 0, 1, 1, 2, sqrt) == 0.5
  {
    assert SixJ.ProdDelta(1, 1, 0, 1, 1, 2) == 1.0 / 144.0;
    assert SixJ.TermCount(1, 1, 0, 1, 1, 2) == 1;
    assert SixJ.RacahSum(1, 1, 0, 1, 1, 2, 1) == 6.0;
  }

  /** {1 1 2 ; 1 1 2} = 1/6. */
  lemma SixJSixth(sqrt: real -> real)
    requires sqrt(1.0 / 1296.0) == 1.0 / 36.0
    ensures SixJ.Symbol(1, 1, 2, 1, 1, 2, sqrt) == 1.0 / 6.0
  {
    assert SixJ.ProdDelta(1, 1, 2, 1, 1, 2) == 1.0 / 1296.0;
    assert SixJ.TermCount(1, 1, 2, 1, 1, 2) == 1;
    assert SixJ.RacahSum(1, 1, 2, 1, 1, 2, 1) == 6.0;
  }

  /** {2 4 6 ; 8 10 12}: a single term k = 24 equal to 13!/(6! 2! 4!) =
      180180, scaled by the square root of 1/104455598247000. */
  lemma SixJLarger(sqrt: real -> real)
    ensures SixJ.Symbol(2, 4, 6, 8, 10, 12, sqrt) == sqrt(1.0 / 104455598247000.0) * 180180.0
  {
    LargerProdDelta();
    LargerSum();
  }

  /** The four triangle coefficients of {2 4 6 ; 8 10 12} and their product. */
  lemma LargerProdDelta()
    ensures SixJ.TriadsHold(2, 4, 6, 8, 10, 12)
    ensures SixJ.ProdDelta(2, 4, 6, 8, 10, 12) == 1.0 / 104455598247000.0
  {
    assert Factorial(13) == 6227020800;
    assert Delta(2, 4, 6) == 1.0 / 105.0;
    assert Delta(8, 10, 6) == 1.0 / 180180.0;
    assert Delta(2, 10, 12) == 1.0 / 858.0;
    assert Delta(8, 4, 12) == 1.0 / 6435.0;
  }

  /** The Racah sum of {2 4 6 ; 8 10 12}: kmin = kmax = 24, one term. */
  lemma LargerSum()
    ensures SixJ.TriadsHold(2, 4, 6, 8, 10, 12)
    ensures SixJ.KMin(2, 4, 6, 8, 10, 12) == 24 == SixJ.KMax(2, 4, 6, 8, 10, 12)
    ensures SixJ.TermCount(2, 4, 6, 8, 10, 12) == 1
    ensures SixJ.RacahTerm(2, 4, 6, 8, 10, 12, 24) == 180180.0
    ensures SixJ.RacahSum(2, 4, 6, 8, 10, 12, 1) == 180180.0
  {
    assert SixJ.KMin(2, 4, 6, 8, 10, 12) == 24 == SixJ.KMax(2, 4, 6, 8, 10, 12);
    assert SixJ.RacahTerm(2, 4, 6, 8, 10, 12, 24) == 180180.0;
  }

  /** js = ls = ks = [1, 1, 0]: the first open link tests the odd triad
      (1, 1, 1), so both kinds are zero for every square root. */
  lemma ChainWithOddTriad(kind: Kind, sqrt: real -> real)
    ensures WellFormed([1, 1, 0], [1, 1, 0], [1, 1, 0])
    ensures Symbol(kind, [1, 1, 0], [1, 1, 0], [1, 1, 0], Racah6j(sqrt)) == 0.0
  {
    BrokenTriadVanishes(kind, [1, 1, 0], [1, 1, 0], [1, 1, 0], 0, sqrt);
  }

  /** The terms x = 0 and x = 2 of js = ks = [1, 1, 1], ls = [2, 2, 2] for
      any evaluator with {1 1 0 ; 1 1 2} = 1/2 and {1 1 2 ; 1 1 2} = 1/6,
      the only two symbols the chain needs: 1/8 for both kinds at x = 0, then
      +1/72 for the first kind (exponent 2) and -1/72 for the second
      (exponent 3) at x = 2. */
  lemma UniformTerms(sixj: Evaluator)
    requires sixj(1, 1, 0, 1, 1, 2) == 0.5 && sixj(1, 1, 2, 1, 1, 2) == 1.0 / 6.0
    ensures WellFormed([1, 1, 1], [2, 2, 2], [1, 1, 1])
    ensures ChainTerm(First, [1, 1, 1], [2, 2, 2], [1, 1, 1], 0, sixj) == 1.0 / 8.0
    ensures ChainTerm(Second, [1, 1, 1], [2, 2, 2], [1, 1, 1], 0, sixj) == 1.0 / 8.0
    ensures ChainTerm(First, [1, 1, 1], [2, 2, 2], [1, 1, 1], 2, sixj) == 1.0 / 72.0
    ensures ChainTerm(Second, [1, 1, 1], [2, 2, 2], [1, 1, 1], 2, sixj) == -1.0 / 72.0
  {
    var js, ls, ks := [1, 1, 1], [2, 2, 2], [1, 1, 1];
    assert OpenProduct(js, ls, ks, 0, 2, sixj) == 0.25;
    assert OpenProduct(js, ls, ks, 2, 2, sixj) == 1.0 / 36.0;
  }

  /** The same chain summed: with the overall phase +1 the first kind is
      1/8 + 1/72 = 5/36 and the second 1/8 - 1/72 = 1/9. */
  lemma UniformChainOf(sixj: Evaluator)
    requires sixj(1, 1, 0, 1, 1, 2) == 0.5 && sixj(1, 1, 2, 1, 1, 2) == 1.0 / 6.0
    ensures WellFormed([1, 1, 1], [2, 2, 2], [1, 1, 1])
    ensures Symbol(First, [1, 1, 1], [2, 2, 2], [1, 1, 1], sixj) == 5.0 / 36.0
    ensures Symbol(Second, [1, 1, 1], [2, 2, 2], [1, 1, 1], sixj) == 1.0 / 9.0
  {
    var js, ls, ks := [1, 1, 1], [2, 2, 2], [1, 1, 1];
    UniformTerms(sixj);
    assert IntermediateCount(js, ks) == 2;
    assert OverallPhase(js, ls, ks) == 1.0 by {
      assert Sum(js) == 3 && Sum(ls) == 6 && Sum(ks) == 3;
    }
    ChainSumStep(First, js, ls, ks, 0, 0, sixj);
    ChainSumStep(First, js, ls, ks, 1, 2, sixj);
    ChainSumStep(Second, js, ls, ks, 0, 0, sixj);
    ChainSumStep(Second, js, ls, ks, 1, 2, sixj);
  }

  /** js = ks = [1, 1, 1], ls = [2, 2, 2] with the crate's 6-j evaluator:
      5/36 for the first kind and 1/9 for the second. */
  lemma UniformChain(sqrt: real -> real)
    requires sqrt(1.0 / 144.0) == 1.0 / 12.0 && sqrt(1.0 / 1296.0) == 1.0 / 36.0
    ensures WellFormed([1, 1, 1], [2, 2, 2], [1, 1, 1])
    ensures Symbol(First, [1, 1, 1], [2, 2, 2], [1, 1, 1], Racah6j(sqrt)) == 5.0 / 36.0
    ensures Symbol(Second, [1, 1, 1], [2, 2, 2], [1, 1, 1], Racah6j(sqrt)) == 1.0 / 9.0
  {
    assert Racah6j(sqrt)(1, 1, 0, 1, 1, 2) == 0.5 by {
      SixJHalf(sqrt);
    }
    SixJSixth(sqrt);
    UniformChainOf(Racah6j(sqrt));
  }

  /** {3 1 2 ; 1 1 2}, {1 1 2 ; 3 1 2} and {1 1 2 ; 1 3 2} are all
      -24 sqrt(1/5184) = -1/3: the first and {1 3 2 ; 1 1 2} by evaluation
      (one term, k = 6, with phase (-1)^3), the other two from them by the
      exchange of upper and lower labels in the first two columns. */
  lemma SixJThird(sqrt: real -> real)
    requires sqrt(1.0 / 5184.0) == 1.0 / 72.0
    ensures SixJ.Symbol(3, 1, 2, 1, 1, 2, sqrt) == -1.0 / 3.0
    ensures SixJ.Symbol(1, 1, 2, 3, 1, 2, sqrt) == -1.0 / 3.0
    ensures SixJ.Symbol(1, 1, 2, 1, 3, 2, sqrt) == -1.0 / 3.0
  {
    ThirdUpper(sqrt);
    SixJ.UpperLowerSymmetric(3, 1, 2, 1, 1, 2, sqrt);
    ThirdLower(sqrt);
    SixJ.UpperLowerSymmetric(1, 3, 2, 1, 1, 2, sqrt);
  }

  lemma ThirdUpper(sqrt: real -> real)
    requires sqrt(1.0 / 5184.0) == 1.0 / 72.0
    ensures SixJ.TriadsHold(3, 1, 2, 1, 1, 2)
    ensures SixJ.ProdDelta(3, 1, 2, 1, 1, 2) == 1.0 / 5184.0
    ensures SixJ.KMin(3, 1, 2, 1, 1, 2) == 6 == SixJ.KMax(3, 1, 2, 1, 1, 2)
    ensures SixJ.RacahTerm(3, 1, 2, 1, 1, 2, 6) == -24.0
    ensures SixJ.Symbol(3, 1, 2, 1, 1, 2, sqrt) == -1.0 / 3.0
  {
    assert SixJ.ProdDelta(3, 1, 2, 1, 1, 2) == 1.0 / 5184.0;
    assert SixJ.KMin(3, 1, 2, 1, 1, 2) == 6 == SixJ.KMax(3, 1, 2, 1, 1, 2);
    assert SixJ.RacahTerm(3, 1, 2, 1, 1, 2, 6) == -24.0;
  }

  lemma ThirdLower(sqrt: real -> real)
    requires sqrt(1.0 / 5184.0) == 1.0 / 72.0
    ensures SixJ.TriadsHold(1, 3, 2, 1, 1, 2)
    ensures SixJ.ProdDelta(1, 3, 2, 1, 1, 2) == 1.0 / 5184.0
    ensures SixJ.KMin(1, 3, 2, 1, 1, 2) == 6 == SixJ.KMax(1, 3, 2, 1, 1, 2)
    ensures SixJ.RacahTerm(1, 3, 2, 1, 1, 2, 6) == -24.0
    ensures SixJ.Symbol(1, 3, 2, 1, 1, 2, sqrt) == -1.0 / 3.0
  {
    assert SixJ.ProdDelta(1, 3, 2, 1, 1, 2) == 1.0 / 5184.0;
    assert SixJ.KMin(1, 3, 2, 1, 1, 2) == 6 == SixJ.KMax(1, 3, 2, 1, 1, 2);
    assert SixJ.RacahTerm(1, 3, 2, 1, 1, 2, 6) == -24.0;
  }

  /** The terms of js = [3, 1, 1], ls = [2, 2, 2], ks = [1, 1, 1] for any
      evaluator with the values of `SixJThird`, {1 1 2 ; 1 1 2} = 1/6 and
      {3 1 x ; 1 1 2} = 0 at x = 0 and x = 4: only x = 2 contributes,
      3 (-1/3) (1/6) (-1/3) = 1/18 with the phase +1 for the first kind and
      -1 for the second. */
  lemma MixedTerms(sixj: Evaluator)
    requires sixj(3, 1, 0, 1, 1, 2) == 0.0 && sixj(3, 1, 4, 1, 1, 2) == 0.0
    requires sixj(3, 1, 2, 1, 1, 2) == -1.0 / 3.0 && sixj(1, 1, 2, 1, 1, 2) == 1.0 / 6.0
    requires sixj(1, 1, 2, 3, 1, 2) == -1.0 / 3.0 && sixj(1, 1, 2, 1, 3, 2) == -1.0 / 3.0
    ensures WellFormed([3, 1, 1], [2, 2, 2], [1, 1, 1])
    ensures ChainTerm(First, [3, 1, 1], [2, 2, 2], [1, 1, 1], 0, sixj) == 0.0
    ensures ChainTerm(Second, [3, 1, 1], [2, 2, 2], [1, 1, 1], 0, sixj) == 0.0
    ensures ChainTerm(First, [3, 1, 1], [2, 2, 2], [1, 1, 1], 2, sixj) == 1.0 / 18.0
    ensures ChainTerm(Second, [3, 1, 1], [2, 2, 2], [1, 1, 1], 2, sixj) == -1.0 / 18.0
    ensures ChainTerm(First, [3, 1, 1], [2, 2, 2], [1, 1, 1], 4, sixj) == 0.0
    ensures ChainTerm(Second, [3, 1, 1], [2, 2, 2], [1, 1, 1], 4, sixj) == 0.0
  {
    var js, ls, ks := [3, 1, 1], [2, 2, 2], [1, 1, 1];
    assert OpenProduct(js, ls, ks, 0, 2, sixj) == 0.0;
    assert OpenProduct(js, ls, ks, 2, 2, sixj) == -1.0 / 18.0;
    assert OpenProduct(js, ls, ks, 4, 2, sixj) == 0.0;
  }

  /** The same chain summed: the overall phase is (-1)^7, so the first kind
      is -1/18 and the second 1/18. */
  lemma MixedChainOf(sixj: Evaluator)
    requires sixj(3, 1, 0, 1, 1, 2) == 0.0 && sixj(3, 1, 4, 1, 1, 2) == 0.0
    requires sixj(3, 1, 2, 1, 1, 2) == -1.0 / 3.0 && sixj(1, 1, 2, 1, 1, 2) == 1.0 / 6.0
    requires sixj(1, 1, 2, 3, 1, 2) == -1.0 / 3.0 && sixj(1, 1, 2, 1, 3, 2) == -1.0 / 3.0
    ensures WellFormed([3, 1, 1], [2, 2, 2], [1, 1, 1])
    ensures Symbol(First, [3, 1, 1], [2, 2, 2], [1, 1, 1], sixj) == -1.0 / 18.0
    ensures Symbol(Second, [3, 1, 1], [2, 2, 2], [1, 1, 1], sixj) == 1.0 / 18.0
  {
    var js, ls, ks := [3, 1, 1], [2, 2, 2], [1, 1, 1];
    MixedTerms(sixj);
    assert IntermediateCount(js, ks) == 3;
    assert OverallPhase(js, ls, ks) == -1.0 by {
      assert Sum(js) == 5 && Sum(ls) == 6 && Sum(ks) == 3;
    }
    ChainSumStep(First, js, ls, ks, 0, 0, sixj);
    ChainSumStep(First, js, ls, ks, 1, 2, sixj);
    ChainSumStep(First, js, ls, ks, 2, 4, sixj);
    ChainSumStep(Second, js, ls, ks, 0, 0, sixj);
    ChainSumStep(Second, js, ls, ks, 1, 2, sixj);
    ChainSumStep(Second, js, ls, ks, 2, 4, sixj);
  }

  /** js = [3, 1, 1], ls = [2, 2, 2], ks = [1, 1, 1] with the crate's 6-j
      evaluator: -1/18 for the first kind and 1/18 for the second. */
  lemma MixedChain(sqrt: real -> real)
    requires sqrt(1.0 / 1296.0) == 1.0 / 36.0 && sqrt(1.0 / 5184.0) == 1.0 / 72.0
    ensures WellFormed([3, 1, 1], [2, 2, 2], [1, 1, 1])
    ensures Symbol(First, [3, 1, 1], [2, 2, 2], [1, 1, 1], Racah6j(sqrt)) == -1.0 / 18.0
    ensures Symbol(Second, [3, 1, 1], [2, 2, 2], [1, 1, 1], Racah6j(sqrt)) == 1.0 / 18.0
  {
    SixJSixth(sqrt);
    SixJThird(sqrt);
    assert SixJ.Symbol(3, 1, 0, 1, 1, 2, sqrt) == 0.0;
    assert SixJ.Symbol(3, 1, 4, 1, 1, 2, sqrt) == 0.0;
    MixedChainOf(Racah6j(sqrt));
  }
}
