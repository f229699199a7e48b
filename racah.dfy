/**
 * Leaf utilities of the Racah formula: the factorial, the triad test, the
 * parity phase (-1)^j and the triangle coefficient delta.
 *
 * Angular-momentum labels are doubled (a spin 1/2 is the label 1), so they are
 * natural numbers. Floating-point results are modelled as exact reals.
 */
module Racah {

  /** n! over unbounded naturals (the crate takes it from the `factorial` crate). */
  function Factorial(n: nat): (r: nat)
    ensures 1 <= r
  {
    if n == 0 then 1 else n * Factorial(n - 1)
  }

  /** Halving of a quantity the caller has shown to be even and non-negative:
      the precondition is the claim that the crate's `/ 2` loses nothing. */
  function Half(n: int): (h: nat)
    requires 0 <= n && n % 2 == 0
    ensures h + h == n
  {
    n / 2
  }

  function Abs(x: int): nat
  {
    if x < 0 then -x else x
  }

  /** The standard triangle condition |j2 - j3| <= j1 <= j2 + j3 with an even
      sum, stated independently of the branch structure of
      `violate_triad_conditions`. */
  predicate IsTriad(j1: nat, j2: nat, j3: nat)
  {
    Abs(j2 - j3) <= j1 <= j2 + j3 && (j1 + j2 + j3) % 2 == 0
  }

  /** The crate's test: it branches on j2 > j3 so that the unsigned
      difference is always taken larger-minus-smaller. Each difference is
      bound to a `nat`, so Dafny checks that neither branch underflows. */
  predicate ViolateTriadConditions(j1: nat, j2: nat, j3: nat)
  {
    if j2 > j3 then
      var d: nat := j2 - j3;
      j1 < d || j2 + j3 < j1 || (j1 + j2 + j3) % 2 == 1
    else
      var d: nat := j3 - j2;
      j1 < d || j2 + j3 < j1 || (j1 + j2 + j3) % 2 == 1
  }

  /** The triad test fails exactly when the triangle condition fails. */
  lemma ViolateIffNotTriad(j1: nat, j2: nat, j3: nat)
    ensures ViolateTriadConditions(j1, j2, j3) <==> !IsTriad(j1, j2, j3)
  {
  }

  /** The outcome does not depend on the order of the three labels, in
      particular not on whether j2 > j3: it survives each of the three
      exchanges of two labels, which generate every reordering. */
  lemma ViolateSymmetric(j1: nat, j2: nat, j3: nat)
    ensures ViolateTriadConditions(j1, j2, j3) == ViolateTriadConditions(j1, j3, j2)
    ensures ViolateTriadConditions(j1, j2, j3) == ViolateTriadConditions(j2, j1, j3)
    ensures ViolateTriadConditions(j1, j2, j3) == ViolateTriadConditions(j3, j2, j1)
  {
    ViolateIffNotTriad(j1, j2, j3);
    ViolateIffNotTriad(j1, j3, j2);
    ViolateIffNotTriad(j2, j1, j3);
    ViolateIffNotTriad(j3, j2, j1);
  }

  /** For a valid triad every argument that `Delta` halves is non-negative and
      even. */
  lemma TriadArguments(j1: nat, j2: nat, j3: nat)
    requires !ViolateTriadConditions(j1, j2, j3)
    ensures j3 <= j1 + j2 && (j1 + j2 - j3) % 2 == 0
    ensures j2 <= j3 + j1 && (j3 + j1 - j2) % 2 == 0
    ensures j1 <= j2 + j3 && (j2 + j3 - j1) % 2 == 0
    ensures (j1 + j2 + j3) % 2 == 0
  {
    ViolateIffNotTriad(j1, j2, j3);
  }

  /** Multiplication of two `f64` values, modelled as exact multiplication of
      reals. The evaluation methods and the specification functions that
      mirror them both multiply through it, so that the product a method
      computes and the product its specification names are the same term. */
  function Mul(a: real, b: real): real
  {
    a * b
  }

  /** (-1)^j as the crate's `phase`. */
  function Phase(j: nat): (r: real)
    ensures r == 1.0 || r == -1.0
    ensures r == 1.0 <==> j % 2 == 0
  {
    if j % 2 == 0 then 1.0 else -1.0
  }

  lemma PhaseOfSum(a: nat, b: nat)
    ensures Phase(a + b) == Phase(a) * Phase(b)
  {
    if a % 2 == 0 {
      assert (a + b) % 2 == b % 2;
    } else {
      assert (a + b) % 2 == 1 - b % 2;
    }
  }

  /** The triangle coefficient
        ((j1+j2-j3)/2)! ((j3+j1-j2)/2)! ((j2+j3-j1)/2)! / ((j1+j2+j3)/2 + 1)!
      The crate only calls it on valid triads, hence the precondition. */
  function Delta(j1: nat, j2: nat, j3: nat): (r: real)
    requires !ViolateTriadConditions(j1, j2, j3)
    ensures 0.0 < r
  {
    TriadArguments(j1, j2, j3);
    var a := Half(j1 + j2 - j3);
    var b := Half(j3 + j1 - j2);
    var c := Half(j2 + j3 - j1);
    var numerator := Factorial(a) * Factorial(b) * Factorial(c);
    var denominator := Factorial(Half(j1 + j2 + j3) + 1);
    PositiveProduct(Factorial(a), Factorial(b));
    PositiveProduct(Factorial(a) * Factorial(b), Factorial(c));
    (numerator as real) / (denominator as real)
  }

  /** The triangle coefficient does not depend on the order of its labels:
      each of the three exchanges of two labels permutes the three numerator
      factorials. */
  lemma DeltaSymmetric(j1: nat, j2: nat, j3: nat)
    requires !ViolateTriadConditions(j1, j2, j3)
    ensures !ViolateTriadConditions(j2, j1, j3) && !ViolateTriadConditions(j1, j3, j2)
    ensures !ViolateTriadConditions(j3, j2, j1)
    ensures Delta(j1, j2, j3) == Delta(j2, j1, j3)
    ensures Delta(j1, j2, j3) == Delta(j1, j3, j2)
    ensures Delta(j1, j2, j3) == Delta(j3, j2, j1)
  {
    ViolateSymmetric(j1, j2, j3);
    TriadArguments(j1, j2, j3);
    var a, b, c := Half(j1 + j2 - j3), Half(j3 + j1 - j2), Half(j2 + j3 - j1);
    assert Half(j2 + j1 - j3) == a && Half(j3 + j2 - j1) == c && Half(j1 + j3 - j2) == b;
    assert Half(j2 + j1 + j3) == Half(j1 + j2 + j3) && Half(j1 + j3 + j2) == Half(j1 + j2 + j3);
    assert Half(j3 + j2 - j1) == c && Half(j1 + j3 - j2) == b && Half(j2 + j1 - j3) == a;
    assert Half(j3 + j2 + j1) == Half(j1 + j2 + j3);
    ProductOfThree(Factorial(a), Factorial(b), Factorial(c));
  }

  /** Reordering three factors leaves their product unchanged. */
  lemma ProductOfThree(x: nat, y: nat, z: nat)
    ensures x * z * y == x * y * z && y * x * z == x * y * z && z * y * x == x * y * z
  {
  }

  lemma PositiveProduct(x: nat, y: nat)
    requires 1 <= x && 1 <= y
    ensures 1 <= x * y
  {
    assert x * 1 <= x * y;
  }
}
