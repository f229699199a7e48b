# wigner-3nj-symbols, modelled in Dafny

This is a model of the crate `wigner_3nj_symbols`. The crate evaluates the
Wigner 6-j symbol by Racah's sum formula. From it, it builds the 3n-j symbols
of the first and second kind, after equations (17.1) and (17.2) of Yutsis,
Levinson and Vanagas. Angular-momentum labels are doubled (spin 1/2 is the
label 1), so every label is a natural number.

The model has four modules:

- `Racah` (`racah.dfy`) holds the pure leaf functions:
  - the triad test `ViolateTriadConditions`;
  - the parity phase `Phase`;
  - the triangle coefficient `Delta`, over an unbounded `Factorial`.
- `SixJ` (`six_j.dfy`) covers `Wigner6j::value`.
  - `Symbol` is the specification.
  - `Value` is the method with the crate's four early returns.
  - `RacahSummation` is its counted loop. Its invariant ties the accumulator
    to the recursive partial sum `RacahSum`.
  - The module proves the bookkeeping the loop relies on:
    - once the four triads hold, kmin <= kmax and both are even;
    - every one of the seven factorial arguments of every summand is a
      natural number, obtained by an exact halving.
  - It also proves that the symbol is unchanged when upper and lower labels
    are exchanged in the first two columns.
- `ThreeNJ` (`three_nj.dfy`) covers `Wigner3nj1st::value` and
  `Wigner3nj2nd::value`.
  - One specification, `Symbol`, is parameterised by the `Kind` and by a 6-j
    evaluator. `Racah6j(sqrt)` is the evaluator the crate uses.
  - The methods `Value1st` and `Value2nd` keep the crate's two nested loops:
    - the outer loop over the intermediate label x;
    - the inner loop over the open links of the chain, in `OpenChain`.
  - The body of the outer loop is the method `Term1st` or `Term2nd`.
  - Each 6-j evaluation is `Link`, which calls `SixJ.Value`.
- `Cases` (`cases.dfy`) works out the values from the crate's tests and
  documentation exactly, as rationals or, for {2 4 6; 8 10 12}, as a
  rational times a symbolic square root.

Floating-point numbers are exact `real`s, and `Mul` is their product. The
square root is a parameter `sqrt: real -> real`. Every result that depends on
it is stated for any square root, or for one that is exact at the arguments
the evaluation needs (one argument for a single 6-j symbol, two for a 3n-j
chain whose links need two different square roots).

The model follows the code in two places worth stating:

- The code needs only |js| >= n and |ks| >= n with n = |ls|, not three lists
  of equal length (`ThreeNJ.WellFormed`). The overall phase sums the whole of
  each list.
- When the four triads hold, the code never meets an empty 6-j summation
  range, because kmin <= kmax is proved (`SixJ.SummationBounds`). The
  subtraction `kmax - kmin` is only reached in that case.

## Model

| member | source | states |
|---|---|---|
| Racah.ViolateTriadConditions | src/lib.rs:216-222 | Definition: the crate's triad test, branching on j2 > j3 so that each unsigned difference is taken larger minus smaller; true when j1 is below the difference, above the sum, or the sum of the three is odd |
| Racah.ViolateIffNotTriad | src/lib.rs:216-222 | `violate_triad_conditions` returns false exactly when \|j2 - j3\| <= j1 <= j2 + j3 and j1 + j2 + j3 is even, in both directions. The branch's unsigned differences are `nat`s, so neither underflows. |
| Racah.ViolateSymmetric | src/lib.rs:216-222 | The outcome of the triad test is unchanged by each of the three exchanges of two labels, so it does not depend on their order, in particular not on which branch (j2 > j3 or not) is taken |
| Racah.TriadArguments | src/lib.rs:232-236 | For a valid triad, each of j1+j2-j3, j3+j1-j2, j2+j3-j1 and j1+j2+j3 is non-negative and even, so every halving in `delta` is exact |
| Racah.Phase | src/lib.rs:224-230 | The phase is always +1 or -1, and it is +1 exactly when j is even |
| Racah.PhaseOfSum | src/lib.rs:224-230 | The phase of a sum is the product of the phases |
| Racah.Delta | src/lib.rs:232-238 | The triangle coefficient of a valid triad is strictly positive |
| Racah.DeltaSymmetric | src/lib.rs:232-238 | Exchanging any two labels of a valid triad keeps it valid and leaves its triangle coefficient unchanged |
| SixJ.KMin | src/lib.rs:192-194 | Definition: the lower summation end, the max-fold from 0 over the four triad sums j1+j2+j3, j4+j5+j3, j1+j5+j6, j4+j2+j6 |
| SixJ.KMax | src/lib.rs:195-197 | Definition: the upper summation end, the min over the three quad sums j1+j2+j4+j5, j1+j3+j4+j6, j2+j3+j5+j6 |
| SixJ.RacahTerm | src/lib.rs:200-209 | Definition: the summand for an even k in [kmin, kmax], (-1)^(k/2) (k/2+1)! divided by the product of the seven factorials of the halved differences |
| SixJ.Symbol | src/lib.rs:162-213 | Definition: the 6-j symbol as the crate evaluates it, 0 if any of the four triads fails in the crate's order, else sqrt(prodDelta) times the full Racah sum |
| SixJ.SummationBounds | src/lib.rs:192-199 | With the four triads valid, kmin (the largest triad sum) <= kmax (the smallest quad sum), and both are even, so `(kmax - kmin) / 2 + 1` neither underflows nor truncates |
| SixJ.SumsEven | src/lib.rs:192-197 | With the four triads valid, the four triad sums and the three quad sums are all even |
| SixJ.SummandArguments | src/lib.rs:199-208 | For every even k with kmin <= k <= kmax, each of the seven factorial arguments is a non-negative difference that halves exactly |
| SixJ.TermCount | src/lib.rs:199 | The loop runs at least once, and its last k, kmin + 2 (count - 1), is exactly kmax |
| SixJ.SummandIndex | src/lib.rs:199-200 | The k = kmin + 2i of every iteration is even and lies within [kmin, kmax] |
| SixJ.ProdDelta | src/lib.rs:187-188 | The product of the four triangle coefficients is strictly positive, so its square root is taken of a positive number |
| SixJ.FactorialProduct | src/lib.rs:202-208 | The summand's denominator is at least 1, so the division never divides by zero |
| SixJ.VanishesOnBrokenTriad | src/lib.rs:171-185 | If any of the triads (j1,j2,j3), (j1,j5,j6), (j4,j2,j6), (j4,j5,j3) fails, the symbol is exactly 0, whatever the square root |
| SixJ.UpperLowerSymmetric | src/lib.rs:162-213 | The tetrahedral symmetry {j1 j2 j3; j4 j5 j6} = {j4 j5 j3; j1 j2 j6} holds for every input, valid or not, and every square root |
| SixJ.SwappedRacahTerm | src/lib.rs:201-208 | Exchanging upper and lower labels in the first two columns leaves each Racah summand unchanged: the seven factorials are only permuted |
| SixJ.SwappedRacahSum | src/lib.rs:199-210 | After the same exchange, the summation range and every partial Racah sum are unchanged |
| SixJ.Value | src/lib.rs:162-213 | `Wigner6j::value` returns the 6-j symbol `Symbol` for every six labels, including the four early zero returns |
| SixJ.RacahSummation | src/lib.rs:189-210 | The summation loop accumulates exactly the Racah sum over k = kmin, kmin+2, ..., kmax |
| ThreeNJ.ClosingLink | src/lib.rs:79-86 | Definition: the 6-j symbol that closes the chain, {js[n-1] ks[n-1] x; js[0] ks[0] ls[n-1]} for the first kind and {js[n-1] ks[n-1] x; ks[0] js[0] ls[n-1]} for the second (src/lib.rs:119-126) |
| ThreeNJ.PhaseExponent | src/lib.rs:88 | Definition: the exponent of each term's phase, (n-1)x/2 for the first kind and nx/2 for the second (src/lib.rs:128), each product rounded down after multiplying |
| ThreeNJ.OverallPhase | src/lib.rs:61-63 | Definition: the phase (-1)^((sum js + sum ls + sum ks)/2) over the whole of each list, as at src/lib.rs:101-103 |
| ThreeNJ.Symbol | src/lib.rs:54-91 | Definition: the 3n-j symbol of either kind, the sum over x = 0, 2, ..., of (x+1) times the phase times the n-1 open links and the closing link, multiplied once by the overall phase |
| ThreeNJ.VisitedIntermediates | src/lib.rs:58-66 | The outer loop visits exactly the even x with 0 <= x <= js[0] + ks[0], in both directions |
| ThreeNJ.PhaseExponentOfEven | src/lib.rs:88 | For even x, the exponents (n-1)x/2 and nx/2 equal (n-1)(x/2) and n(x/2), so the second kind's exceeds the first's by x/2 |
| ThreeNJ.SecondTermFromFirst | src/lib.rs:119-128 | When js[0] = ks[0] the two closing links coincide, and the second kind's term is (-1)^(x/2) times the first kind's |
| ThreeNJ.SingleLinkTerm | src/lib.rs:67-88 | For the degenerate chain n = 1 (no open links), the first kind's term is (x+1) {js[0] ks[0] x; js[0] ks[0] ls[0]} and the second kind's is (x+1) (-1)^(x/2) {js[0] ks[0] x; ks[0] js[0] ls[0]}, for every even x |
| ThreeNJ.OpenProductVanishes | src/lib.rs:67-78 | A zero open link makes the product of all later prefixes of the chain zero |
| ThreeNJ.ChainSumVanishes | src/lib.rs:65-89 | If one open link is zero for every even x, every partial sum over x is zero |
| ThreeNJ.SymbolVanishes | src/lib.rs:54-91 | If one open link is zero for every even x, the 3n-j symbol of either kind is zero, for any 6-j evaluator |
| ThreeNJ.BrokenTriadVanishes | src/lib.rs:67-78 | If the triad (js[i], js[i+1], ls[i]) or (ks[i+1], ks[i], ls[i]) of an open link fails, the symbol of either kind is exactly 0 with the crate's 6-j evaluator |
| ThreeNJ.Link | src/lib.rs:69-77 | Each `Wigner6j { .. }.value()` evaluation is the 6-j symbol of its six labels |
| ThreeNJ.OpenChain | src/lib.rs:67-78 | The inner loop computes the product of the n - 1 open links, in index order |
| ThreeNJ.Term1st | src/lib.rs:66-88 | One outer iteration of the first kind computes (x+1) (-1)^((n-1)x/2) times the open links and the closing link {js[n-1] ks[n-1] x; js[0] ks[0] ls[n-1]} |
| ThreeNJ.Term2nd | src/lib.rs:106-128 | One outer iteration of the second kind computes (x+1) (-1)^(nx/2) times the open links and the closing link {js[n-1] ks[n-1] x; ks[0] js[0] ls[n-1]} |
| ThreeNJ.Value1st | src/lib.rs:54-91 | `Wigner3nj1st::value` returns the 3n-j symbol of the first kind for every input with n >= 1 and \|js\|, \|ks\| >= n |
| ThreeNJ.Value2nd | src/lib.rs:94-131 | `Wigner3nj2nd::value` returns the 3n-j symbol of the second kind for every input with n >= 1 and \|js\|, \|ks\| >= n |
| Cases.SixJWithBrokenTriad | tests/main.rs:7 | {0 0 0; 1 1 0} = 0 for every square root, because the triad (0, 1, 0) fails |
| Cases.SixJHalf | tests/main.rs:8 | {1 1 0; 1 1 2} = 1/2: all four triads hold, prodDelta is 1/144, kmin = kmax = 4 so there is a single summand, and that summand is 6 |
| Cases.SixJSixth | tests/main.rs:9 | {1 1 2; 1 1 2} = 1/6 |
| Cases.SixJLarger | tests/main.rs:10 | {2 4 6; 8 10 12} = 180180 sqrt(1/104455598247000), which is the value the test's float approximates |
| Cases.LargerProdDelta | src/lib.rs:187-188 | The four triangle coefficients of {2 4 6; 8 10 12} multiply to 1/104455598247000 |
| Cases.LargerSum | src/lib.rs:192-210 | For {2 4 6; 8 10 12}, kmin = kmax = 24, and the single summand is 13!/(6! 2! 4!) = 180180 |
| Cases.ChainWithOddTriad | tests/main.rs:32 | js = ls = ks = [1, 1, 0] gives 0 for both kinds, because the first open link tests the odd triad (1, 1, 1) |
| Cases.UniformTerms | src/lib.rs:88 | For js = ks = [1,1,1] and ls = [2,2,2], the terms at x = 0 are 1/8 for both kinds. At x = 2 they are +1/72 for the first kind (phase exponent 2) and -1/72 for the second (exponent 3). |
| Cases.UniformChainOf | src/lib.rs:40-46 | The same chain sums to 5/36 (first kind) and 1/9 (second kind), for any 6-j evaluator with the two values it needs |
| Cases.UniformChain | tests/main.rs:33 | With the crate's 6-j evaluator, js = ks = [1,1,1] and ls = [2,2,2] give 5/36 for the first kind and 1/9 for the second |
| Cases.SixJThird | tests/main.rs:34 | {3 1 2; 1 1 2}, {1 1 2; 3 1 2} and {1 1 2; 1 3 2} are all -1/3; the last two follow by the upper/lower exchange symmetry |
| Cases.ThirdUpper | src/lib.rs:199-212 | {3 1 2; 1 1 2} = -1/3: all four triads hold, prodDelta is 1/5184, kmin = kmax = 6, and the single summand is -24 |
| Cases.ThirdLower | src/lib.rs:199-212 | {1 3 2; 1 1 2} = -1/3: all four triads hold, prodDelta is 1/5184, kmin = kmax = 6, and the single summand is -24 |
| Cases.MixedTerms | src/lib.rs:128 | For js = [3,1,1], ls = [2,2,2], ks = [1,1,1], only x = 2 contributes: +1/18 for the first kind and -1/18 for the second |
| Cases.MixedChainOf | tests/main.rs:52 | The same chain gives -1/18 (first kind) and 1/18 (second kind) under the overall phase (-1)^7, for any 6-j evaluator with the six values it needs |
| Cases.MixedChain | tests/main.rs:34 | With the crate's 6-j evaluator, js = [3,1,1], ls = [2,2,2], ks = [1,1,1] give -1/18 for the first kind and 1/18 for the second |

## Left out

- Unsigned 128-bit integers: labels are unbounded naturals.
  - Overflow of sums and of `factorial` results is not modelled. Underflow is modelled: every subtraction is taken in `nat`, or through `Half`, which demands an even, non-negative argument.
  - `kmax` is folded from a seed of `u128::MAX`. The model takes the minimum of the three quad sums, which is the same for every representable input.
- The `factorial` crate is replaced by `Racah.Factorial` over unbounded naturals. Its wide-factorial overflow cannot be stated without its code.
- `f64` arithmetic is modelled as exact reals (`Racah.Mul` is exact multiplication), so rounding is not modelled.
  - The tests' float literals (0.16666666666666666, 0.017629529511598168, 0.1388888888888889, ...) are replaced by the exact rationals they approximate.
- `f64::sqrt` is a parameter `sqrt: real -> real`. The concrete cases that pass through a square root take as hypotheses the exact roots they need (one for a single 6-j symbol, two for `UniformChain` and `MixedChain`), or leave the root symbolic.
- Panics: the crate panics on an empty `ls` (the `n - 1` underflow) and on `js` or `ks` shorter than `ls`. The model does not represent the panic. It makes these cases a precondition (`ThreeNJ.WellFormed`) of the 3n-j methods.
- The 6-j summand's numerator and denominator are mutable locals in the crate. The model computes each summand with the function `SixJ.RacahTerm` inside the loop. The accumulating `sum` is kept as the loop variable.
- The `rstest` harness and the doctest scaffolding are not modelled. Their cases appear as lemmas in `Cases`.
