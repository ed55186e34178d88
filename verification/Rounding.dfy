/** Math.round on exact numbers: to the nearest integer, halves towards positive infinity. */
module Rounding {

  function Round(x: real): int {
    (x + 0.5).Floor
  }

  /** What rounding drops: at least -1/2, less than 1/2. */
  function Residue(x: real): real {
    x - Round(x) as real
  }

  /** toNumDenom at its default precision: the numerator over 100. */
  function Cents(x: real): int {
    Round(x * 100.0)
  }

  predicate Whole(x: real) {
    x == x.Floor as real
  }

  /** `x` lies exactly half way between two integers. */
  predicate Half(x: real) {
    x - x.Floor as real == 0.5
  }

  lemma ResidueRange(x: real)
    ensures -0.5 <= Residue(x) < 0.5
    ensures Residue(x) == 0.0 <==> Whole(x)
    ensures Residue(x) == -0.5 <==> Half(x)
  {
    if Whole(x) {
      assert Round(x) == x.Floor;
    }
    if Half(x) {
      assert Round(x) == x.Floor + 1;
    }
  }

  /** The nearest integer, the upper one of two equally near. */
  lemma RoundIsNearest(x: real)
    ensures -0.5 < Round(x) as real - x <= 0.5
    ensures x == x.Floor as real ==> Round(x) as real == x
  {
    ResidueRange(x);
  }

  /** Rounding the parts and rounding the sum agree exactly when the residues do not spill over. */
  lemma RoundedSum(a: real, b: real)
    ensures -1 <= Round(a) + Round(b) - Round(a + b) <= 1
    ensures Round(a) + Round(b) == Round(a + b) <==> -0.5 <= Residue(a) + Residue(b) < 0.5
  {
    ResidueRange(a);
    ResidueRange(b);
    ResidueRange(a + b);
    var gap := Round(a) + Round(b) - Round(a + b);
    assert gap as real == Residue(a + b) - Residue(a) - Residue(b);
  }

  /** An amount and its negation round to opposite integers unless the amount is a half. */
  lemma RoundedOpposites(x: real)
    ensures Round(x) + Round(-x) == if Half(x) then 1 else 0
  {
    ResidueRange(x);
    ResidueRange(-x);
    assert (Round(x) + Round(-x)) as real == -Residue(x) - Residue(-x);
    var n := x.Floor;
    if Half(x) {
      assert Round(x) == n + 1 && Round(-x) == -n;
    } else if x - n as real < 0.5 {
      assert Round(x) == n;
    } else {
      assert Round(x) == n + 1;
    }
  }
}
