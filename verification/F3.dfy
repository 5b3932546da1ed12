/** The digits of GF(3) as the hardware codes them: two wires, 00, 01 and 10 standing for
    0, 1 and 2.  The code 11 stands for nothing; the gates are total on it all the same. */
module F3 {

  datatype Trit = Trit(b1: bool, b0: bool)

  const ZERO := Trit(false, false)
  const ONE := Trit(false, true)
  const TWO := Trit(true, false)

  predicate Legal(t: Trit) {
    !(t.b1 && t.b0)
  }

  /** A digit is a legal code. */
  type Digit = t: Trit | Legal(t) witness Trit(false, false)

  /** The number a legal code stands for. */
  function Val(d: Digit): int {
    if d.b1 then 2 else if d.b0 then 1 else 0
  }

  /** `f3_add`, gate by gate.  The two output wires are never both high, whatever comes in. */
  function Add(a: Trit, b: Trit): (c: Digit) {
    var c0 := (a.b0 && !a.b1 && !b.b0 && !b.b1) || (!a.b0 && !a.b1 && b.b0 && !b.b1)
              || (!a.b0 && a.b1 && !b.b0 && b.b1);
    var c1 := (!a.b0 && a.b1 && !b.b0 && !b.b1) || (a.b0 && !a.b1 && b.b0 && !b.b1)
              || (!a.b0 && !a.b1 && !b.b0 && b.b1);
    Trit(c1, c0)
  }

  /** The wire swap that `f3_sub` and `f3m_neg` use for negation. */
  function Swap(a: Trit): Trit {
    Trit(a.b0, a.b1)
  }

  /** `f3_sub` is an adder with the second operand's wires swapped. */
  function Sub(a: Trit, b: Trit): (c: Digit) {
    Add(a, Swap(b))
  }

  /** `f3_mult`, gate by gate. */
  function Mult(a: Trit, b: Trit): (c: Digit) {
    var c0 := (!a.b1 && a.b0 && !b.b1 && b.b0) || (a.b1 && !a.b0 && b.b1 && !b.b0);
    var c1 := (!a.b1 && a.b0 && b.b1 && !b.b0) || (a.b1 && !a.b0 && !b.b1 && b.b0);
    Trit(c1, c0)
  }

  /** Negation of a digit, which stays a digit. */
  function Neg(a: Digit): (c: Digit) {
    Swap(a)
  }

  /** The gates compute in the integers modulo 3. */
  lemma GatesComputeModulo3(a: Digit, b: Digit)
    ensures Val(Add(a, b)) == (Val(a) + Val(b)) % 3
    ensures Val(Sub(a, b)) == (Val(a) - Val(b)) % 3
    ensures Val(Mult(a, b)) == (Val(a) * Val(b)) % 3
    ensures Val(Neg(a)) == -Val(a) % 3
    ensures Val(a) == Val(b) ==> a == b
  {
    assert a in {ZERO, ONE, TWO} && b in {ZERO, ONE, TWO};
  }

  /** The field laws of the digits; every inverse is the digit itself. */
  lemma DigitLaws(a: Digit, b: Digit, c: Digit)
    ensures Add(a, b) == Add(b, a) && Add(Add(a, b), c) == Add(a, Add(b, c))
    ensures Mult(a, b) == Mult(b, a) && Mult(Mult(a, b), c) == Mult(a, Mult(b, c))
    ensures Mult(a, Add(b, c)) == Add(Mult(a, b), Mult(a, c))
    ensures Mult(Add(a, b), c) == Add(Mult(a, c), Mult(b, c))
    ensures Add(a, ZERO) == a && Add(ZERO, a) == a && Mult(ONE, a) == a && Mult(a, ONE) == a
    ensures Mult(ZERO, a) == ZERO && Mult(a, ZERO) == ZERO
    ensures Add(a, Neg(a)) == ZERO && Neg(a) == Mult(TWO, a)
    ensures a != ZERO ==> Mult(a, a) == ONE
    ensures Mult(a, b) == ZERO ==> a == ZERO || b == ZERO
  {
  }
}
