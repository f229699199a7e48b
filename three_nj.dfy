/**
 * The 3n-j symbols of the first and second kind (equations (17.1) and (17.2)
 * of Yutsis, Levinson and Vanagas), as sums over one intermediate label x of
 * a cyclic chain of n 6-j symbols.
 *
 * The three label lists are js, ls and ks; n is |ls|. For an even x the
 * chain has n - 1 "open" links {js[i] ks[i] x ; ks[i+1] js[i+1] ls[i]} and one
 * closing link that joins the last position back to the first. The two kinds
 * differ only in the order of js[0] and ks[0] in the closing link and in the
 * exponent of the phase of each term.
 */
module ThreeNJ {
  import opened Racah
  import SixJ

  datatype Kind = First | Second

  /** A 6-j evaluator, taking the labels in the order j1, ..., j6. */
  type Evaluator = (nat, nat, nat, nat, nat, nat) -> real

  /** The evaluator the crate uses: `Wigner6j::value`, that is
      `SixJ.Symbol` for the given square root. */
  function Racah6j(sqrt: real -> real): Evaluator
  {
    (j1: nat, j2: nat, j3: nat, j4: nat, j5: nat, j6: nat) => SixJ.Symbol(j1, j2, j3, j4, j5, j6, sqrt)
  }

  /** The lengths the crate indexes with: n = |ls| is at least one (else
      `n - 1` underflows), and js and ks reach index n - 1 and index 0. */
  predicate WellFormed(js: seq<nat>, ls: seq<nat>, ks: seq<nat>)
  {
    1 <= |ls| && |ls| <= |js| && |ls| <= |ks|
  }

  /** The sum of all elements of a list (the crate's `iter().sum()`). */
  function Sum(s: seq<nat>): nat
  {
    if s == [] then 0 else s[0] + Sum(s[1..])
  }

  /** The i-th intermediate label of the outer loop, `kmin + 2 * i` with
      kmin = 0. */
  function Intermediate(i: nat): nat
  {
    2 * i
  }

  /** Number of outer iterations, `(kmax - kmin) / 2 + 1` with kmin = 0 and
      kmax = js[0] + ks[0]. */
  function IntermediateCount(js: seq<nat>, ks: seq<nat>): nat
    requires 1 <= |js| && 1 <= |ks|
  {
    (js[0] + ks[0]) / 2 + 1
  }

  /** The outer loop visits exactly the even x between 0 and js[0] + ks[0]. */
  lemma VisitedIntermediates(js: seq<nat>, ks: seq<nat>, x: nat)
    requires 1 <= |js| && 1 <= |ks|
    ensures forall i :: 0 <= i < IntermediateCount(js, ks) ==>
              Intermediate(i) % 2 == 0 && Intermediate(i) <= js[0] + ks[0]
    ensures x % 2 == 0 && x <= js[0] + ks[0] <==>
              x / 2 < IntermediateCount(js, ks) && Intermediate(x / 2) == x
  {
  }

  /** The i-th open link of the chain, for i < n - 1. */
  function OpenLink(js: seq<nat>, ls: seq<nat>, ks: seq<nat>, x: nat, i: nat, sixj: Evaluator): real
    requires WellFormed(js, ls, ks) && i + 1 < |ls|
  {
    sixj(js[i], ks[i], x, ks[i + 1], js[i + 1], ls[i])
  }

  /** The link that closes the chain: the first kind joins (js[n-1], ks[n-1])
      to (js[0], ks[0]), the second kind to (ks[0], js[0]). */
  function ClosingLink(kind: Kind, js: seq<nat>, ls: seq<nat>, ks: seq<nat>, x: nat, sixj: Evaluator): real
    requires WellFormed(js, ls, ks)
  {
    var n := |ls|;
    match kind
    case First => sixj(js[n - 1], ks[n - 1], x, js[0], ks[0], ls[n - 1])
    case Second => sixj(js[n - 1], ks[n - 1], x, ks[0], js[0], ls[n - 1])
  }

  /** The product of the first `count` open links, in index order. */
  function OpenProduct(js: seq<nat>, ls: seq<nat>, ks: seq<nat>, x: nat, count: nat, sixj: Evaluator): real
    requires WellFormed(js, ls, ks) && count < |ls|
  {
    if count == 0 then 1.0
    else Mul(OpenProduct(js, ls, ks, x, count - 1, sixj), OpenLink(js, ls, ks, x, count - 1, sixj))
  }

  /** The exponent of the phase of the term for x: `(n - 1) * x / 2` for the
      first kind, `n * x / 2` for the second, each rounded down after the
      product. */
  function PhaseExponent(kind: Kind, n: nat, x: nat): nat
    requires 1 <= n
  {
    if kind == First then (n - 1) * x / 2 else n * x / 2
  }

  /** The term of intermediate x: (x + 1) (-1)^exponent times the whole chain. */
  function ChainTerm(kind: Kind, js: seq<nat>, ls: seq<nat>, ks: seq<nat>, x: nat, sixj: Evaluator): real
    requires WellFormed(js, ls, ks)
  {
    var n := |ls|;
    Mul(Mul((x + 1) as real, Phase(PhaseExponent(kind, n, x))),
        Mul(OpenProduct(js, ls, ks, x, n - 1, sixj), ClosingLink(kind, js, ls, ks, x, sixj)))
  }

  /** The terms of the first `count` intermediates x = 0, 2, 4, ... */
  function ChainSum(kind: Kind, js: seq<nat>, ls: seq<nat>, ks: seq<nat>, count: nat, sixj: Evaluator): real
    requires WellFormed(js, ls, ks)
  {
    if count == 0 then 0.0
    else ChainSum(kind, js, ls, ks, count - 1, sixj) + ChainTerm(kind, js, ls, ks, Intermediate(count - 1), sixj)
  }

  /** The phase applied once, after the summation. */
  function OverallPhase(js: seq<nat>, ls: seq<nat>, ks: seq<nat>): real
  {
    Phase((Sum(js) + Sum(ls) + Sum(ks)) / 2)
  }

  /** The 3n-j symbol of the given kind, as the crate evaluates it. */
  function Symbol(kind: Kind, js: seq<nat>, ls: seq<nat>, ks: seq<nat>, sixj: Evaluator): real
    requires WellFormed(js, ls, ks)
  {
    Mul(ChainSum(kind, js, ls, ks, IntermediateCount(js, ks), sixj), OverallPhase(js, ls, ks))
  }

  /** For the even x the loop visits, the exponents are (n - 1) (x/2) and
      n (x/2): the second kind's exceeds the first's by x/2. */
  lemma PhaseExponentOfEven(n: nat, x: nat)
    requires 1 <= n && x % 2 == 0
    ensures PhaseExponent(First, n, x) == (n - 1) * (x / 2)
    ensures PhaseExponent(Second, n, x) == n * (x / 2)
    ensures PhaseExponent(Second, n, x) == PhaseExponent(First, n, x) + x / 2
  {
    var h := x / 2;
    assert (n - 1) * x == 2 * ((n - 1) * h);
    assert n * x == 2 * (n * h);
    assert n * h == (n - 1) * h + h;
  }

  /** When js[0] == ks[0] the two closing links coincide, so the terms of the
      two kinds differ only by the phase (-1)^(x/2). */
  lemma SecondTermFromFirst(js: seq<nat>, ls: seq<nat>, ks: seq<nat>, x: nat, sixj: Evaluator)
    requires WellFormed(js, ls, ks) && x % 2 == 0 && js[0] == ks[0]
    ensures ChainTerm(Second, js, ls, ks, x, sixj) == Phase(x / 2) * ChainTerm(First, js, ls, ks, x, sixj)
  {
    var n := |ls|;
    PhaseExponentOfEven(n, x);
    PhaseOfSum(PhaseExponent(First, n, x), x / 2);
    assert ClosingLink(Second, js, ls, ks, x, sixj) == ClosingLink(First, js, ls, ks, x, sixj);
  }

  /** The degenerate chain n = 1 has no open links: each term is the closing
      link alone, {js[0] ks[0] x ; js[0] ks[0] ls[0]} with no phase for the
      first kind, {js[0] ks[0] x ; ks[0] js[0] ls[0]} with (-1)^(x/2) for the
      second. */
  lemma SingleLinkTerm(js: seq<nat>, ls: seq<nat>, ks: seq<nat>, x: nat, sixj: Evaluator)
    requires WellFormed(js, ls, ks) && |ls| == 1 && x % 2 == 0
    ensures ChainTerm(First, js, ls, ks, x, sixj) == (x + 1) as real * sixj(js[0], ks[0], x, js[0], ks[0], ls[0])
    ensures ChainTerm(Second, js, ls, ks, x, sixj)
         == (x + 1) as real * Phase(x / 2) * sixj(js[0], ks[0], x, ks[0], js[0], ls[0])
  {
    PhaseExponentOfEven(1, x);
  }

  /** A zero open link makes every longer open product zero. */
  lemma {:induction false} OpenProductVanishes(js: seq<nat>, ls: seq<nat>, ks: seq<nat>, x: nat, i: nat, count: nat, sixj: Evaluator)
    requires WellFormed(js, ls, ks) && i < count < |ls|
    requires OpenLink(js, ls, ks, x, i, sixj) == 0.0
    ensures OpenProduct(js, ls, ks, x, count, sixj) == 0.0
  {
    if i < count - 1 {
      OpenProductVanishes(js, ls, ks, x, i, count - 1, sixj);
    }
  }

  /** If the i-th open link is zero for every even x, every partial sum is. */
  lemma {:induction false} ChainSumVanishes(kind: Kind, js: seq<nat>, ls: seq<nat>, ks: seq<nat>, i: nat, count: nat, sixj: Evaluator)
    requires WellFormed(js, ls, ks) && i + 1 < |ls|
    requires forall x: nat :: x % 2 == 0 ==> OpenLink(js, ls, ks, x, i, sixj) == 0.0
    ensures ChainSum(kind, js, ls, ks, count, sixj) == 0.0
  {
    if count > 0 {
      ChainSumVanishes(kind, js, ls, ks, i, count - 1, sixj);
      var x := Intermediate(count - 1);
      OpenProductVanishes(js, ls, ks, x, i, |ls| - 1, sixj);
    }
  }

  /** The symbol vanishes when one open link vanishes for every even x. */
  lemma SymbolVanishes(kind: Kind, js: seq<nat>, ls: seq<nat>, ks: seq<nat>, i: nat, sixj: Evaluator)
    requires WellFormed(js, ls, ks) && i + 1 < |ls|
    requires forall x: nat :: x % 2 == 0 ==> OpenLink(js, ls, ks, x, i, sixj) == 0.0
    ensures Symbol(kind, js, ls, ks, sixj) == 0.0
  {
    ChainSumVanishes(kind, js, ls, ks, i, IntermediateCount(js, ks), sixj);
  }

  /** With the crate's 6-j evaluator, both kinds vanish as soon as one of
      the triads (js[i], js[i+1], ls[i]) or (ks[i+1], ks[i], ls[i]) that the
      i-th open link tests fails, whatever the square root. */
  lemma BrokenTriadVanishes(kind: Kind, js: seq<nat>, ls: seq<nat>, ks: seq<nat>, i: nat, sqrt: real -> real)
    requires WellFormed(js, ls, ks) && i + 1 < |ls|
    requires ViolateTriadConditions(js[i], js[i + 1], ls[i]) || ViolateTriadConditions(ks[i + 1], ks[i], ls[i])
    ensures Symbol(kind, js, ls, ks, Racah6j(sqrt)) == 0.0
  {
    forall x: nat | x % 2 == 0
      ensures OpenLink(js, ls, ks, x, i, Racah6j(sqrt)) == 0.0
    {
      assert SixJ.Symbol(js[i], ks[i], x, ks[i + 1], js[i + 1], ls[i], sqrt) == 0.0;
    }
    SymbolVanishes(kind, js, ls, ks, i, Racah6j(sqrt));
  }

  /** One 6-j symbol, evaluated by `Wigner6j::value`. */
  method Link(j1: nat, j2: nat, j3: nat, j4: nat, j5: nat, j6: nat, sqrt: real -> real) returns (w: real)
    ensures w == Racah6j(sqrt)(j1, j2, j3, j4, j5, j6)
  {
    w := SixJ.Value(j1, j2, j3, j4, j5, j6, sqrt);
  }

  /** One more open link. */
  lemma OpenProductStep(js: seq<nat>, ls: seq<nat>, ks: seq<nat>, x: nat, i: nat, sixj: Evaluator)
    requires WellFormed(js, ls, ks) && i + 1 < |ls|
    ensures OpenProduct(js, ls, ks, x, i + 1, sixj)
         == Mul(OpenProduct(js, ls, ks, x, i, sixj), sixj(js[i], ks[i], x, ks[i + 1], js[i + 1], ls[i]))
  {
  }

  /** One more intermediate: the i-th one is x = 2i. */
  lemma ChainSumStep(kind: Kind, js: seq<nat>, ls: seq<nat>, ks: seq<nat>, i: nat, x: nat, sixj: Evaluator)
    requires WellFormed(js, ls, ks) && x == 2 * i
    ensures ChainSum(kind, js, ls, ks, i + 1, sixj) == ChainSum(kind, js, ls, ks, i, sixj) + ChainTerm(kind, js, ls, ks, x, sixj)
  {
  }

  /** The symbol is the sum over all intermediates times the overall phase. */
  lemma SymbolFromSum(kind: Kind, js: seq<nat>, ls: seq<nat>, ks: seq<nat>, value: real, sixj: Evaluator)
    requires WellFormed(js, ls, ks)
    requires value == ChainSum(kind, js, ls, ks, IntermediateCount(js, ks), sixj)
    ensures Mul(value, OverallPhase(js, ls, ks)) == Symbol(kind, js, ls, ks, sixj)
  {
  }

  /** The inner loop shared verbatim by both kinds: the product of the n - 1
      open links for intermediate x. */
  method OpenChain(js: seq<nat>, ls: seq<nat>, ks: seq<nat>, x: nat, sqrt: real -> real) returns (wprd: real)
    requires WellFormed(js, ls, ks)
    ensures wprd == OpenProduct(js, ls, ks, x, |ls| - 1, Racah6j(sqrt))
  {
    var n := |ls|;
    wprd := 1.0;
    for i := 0 to n - 1
      invariant wprd == OpenProduct(js, ls, ks, x, i, Racah6j(sqrt))
    {
      var w := Link(js[i], ks[i], x, ks[i + 1], js[i + 1], ls[i], sqrt);
      OpenProductStep(js, ls, ks, x, i, Racah6j(sqrt));
      wprd := Mul(wprd, w);
    }
  }

  /** The body of the outer loop of `Wigner3nj1st::value` for one x. */
  method Term1st(js: seq<nat>, ls: seq<nat>, ks: seq<nat>, x: nat, sqrt: real -> real) returns (t: real)
    requires WellFormed(js, ls, ks)
    ensures t == ChainTerm(First, js, ls, ks, x, Racah6j(sqrt))
  {
    var n := |ls|;
    var wprd := OpenChain(js, ls, ks, x, sqrt);
    var w := Link(js[n - 1], ks[n - 1], x, js[0], ks[0], ls[n - 1], sqrt);
    wprd := Mul(wprd, w);
    t := Mul(Mul((x + 1) as real, Phase((n - 1) * x / 2)), wprd);
  }

  /** The body of the outer loop of `Wigner3nj2nd::value` for one x. */
  method Term2nd(js: seq<nat>, ls: seq<nat>, ks: seq<nat>, x: nat, sqrt: real -> real) returns (t: real)
    requires WellFormed(js, ls, ks)
    ensures t == ChainTerm(Second, js, ls, ks, x, Racah6j(sqrt))
  {
    var n := |ls|;
    var wprd := OpenChain(js, ls, ks, x, sqrt);
    var w := Link(js[n - 1], ks[n - 1], x, ks[0], js[0], ls[n - 1], sqrt);
    wprd := Mul(wprd, w);
    t := Mul(Mul((x + 1) as real, Phase(n * x / 2)), wprd);
  }

  /** `Wigner3nj1st::value`. */
  method Value1st(js: seq<nat>, ls: seq<nat>, ks: seq<nat>, sqrt: real -> real) returns (v: real)
    requires WellFormed(js, ls, ks)
    ensures v == Symbol(First, js, ls, ks, Racah6j(sqrt))
  {
    var kmin := 0;
    var kmax := js[0] + ks[0];
    var overallPhase := Phase((Sum(js) + Sum(ls) + Sum(ks)) / 2);
    var value := 0.0;
    assert (kmax - kmin) / 2 + 1 == IntermediateCount(js, ks);
    for i := 0 to (kmax - kmin) / 2 + 1
      invariant value == ChainSum(First, js, ls, ks, i, Racah6j(sqrt))
    {
      var x := kmin + 2 * i;
      ChainSumStep(First, js, ls, ks, i, x, Racah6j(sqrt));
      var t := Term1st(js, ls, ks, x, sqrt);
      value := value + t;
    }
    SymbolFromSum(First, js, ls, ks, value, Racah6j(sqrt));
    v := Mul(value, overallPhase);
  }

  /** `Wigner3nj2nd::value`. */
  method Value2nd(js: seq<nat>, ls: seq<nat>, ks: seq<nat>, sqrt: real -> real) returns (v: real)
    requires WellFormed(js, ls, ks)
    ensures v == Symbol(Second, js, ls, ks, Racah6j(sqrt))
  {
    var kmin := 0;
    var kmax := js[0] + ks[0];
    var overallPhase := Phase((Sum(js) + Sum(ls) + Sum(ks)) / 2);
    var value := 0.0;
    assert (kmax - kmin) / 2 + 1 == IntermediateCount(js, ks);
    for i := 0 to (kmax - kmin) / 2 + 1
      invariant value == ChainSum(Second, js, ls, ks, i, Racah6j(sqrt))
    {
      var x := kmin + 2 * i;
      ChainSumStep(Second, js, ls, ks, i, x, Racah6j(sqrt));
      var t := Term2nd(js, ls, ks, x, sqrt);
      value := value + t;
    }
    SymbolFromSum(Second, js, ls, ks, value, Racah6j(sqrt));
    v := Mul(value, overallPhase);
  }
}
