/** Vectors of digits: the buses of the field circuits and the combinational blocks on them. */
module F3m {
  import opened F3
  import opened Poly

  /** The degree of the modulus: an element has M digits, a register of the inverter one more. */
  const M: nat := 97

  /** A bus of M two-wire digits, whose codes need not be legal. */
  type Wires = w: seq<Trit> | |w| == M witness seq(M, i => Trit(false, false))

  /** A field element: M legal digits, lowest first. */
  type Elem = e: seq<Digit> | |e| == M witness seq(M, i => Trit(false, false))

  /** A register of the inverter, and one that holds legal digits. */
  type TWord = w: seq<Trit> | |w| == M + 1 witness seq(M + 1, i => Trit(false, false))

  type Word = w: seq<Digit> | |w| == M + 1 witness seq(M + 1, i => Trit(false, false))

  predicate LegalBus(w: Wires) {
    forall i :: 0 <= i < M ==> Legal(w[i])
  }

  predicate LegalWord(w: TWord) {
    forall i :: 0 <= i <= M ==> Legal(w[i])
  }

  const Zero: Elem := Zeros(M)

  function Zeros(n: nat): (z: seq<Digit>)
    ensures |z| == n && forall i :: 0 <= i < n ==> z[i] == ZERO
  {
    seq(n, i => Trit(false, false))
  }

  // ---- digitwise blocks ---------------------------------------------------------------

  /** `f3m_add` */
  function VAdd(a: seq<Trit>, b: seq<Trit>): (c: seq<Digit>)
    requires |a| == |b|
    ensures |c| == |a| && forall i :: 0 <= i < |a| ==> c[i] == Add(a[i], b[i])
  {
    seq(|a|, i requires 0 <= i < |a| => Add(a[i], b[i]))
  }

  /** `f3m_sub` */
  function VSub(a: seq<Trit>, b: seq<Trit>): (c: seq<Digit>)
    requires |a| == |b|
    ensures |c| == |a| && forall i :: 0 <= i < |a| ==> c[i] == Sub(a[i], b[i])
  {
    seq(|a|, i requires 0 <= i < |a| => Sub(a[i], b[i]))
  }

  /** `f3m_neg` */
  function VSwap(a: seq<Trit>): (c: seq<Trit>)
    ensures |c| == |a| && forall i :: 0 <= i < |a| ==> c[i] == Swap(a[i])
  {
    seq(|a|, i requires 0 <= i < |a| => Swap(a[i]))
  }

  function VNeg(a: seq<Digit>): (c: seq<Digit>)
    ensures |c| == |a| && forall i :: 0 <= i < |a| ==> c[i] == Neg(a[i])
  {
    seq(|a|, i requires 0 <= i < |a| => Neg(a[i]))
  }

  /** `func4`: every digit times one digit. */
  function VScale(k: Trit, a: seq<Trit>): (c: seq<Digit>)
    ensures |c| == |a| && forall i :: 0 <= i < |a| ==> c[i] == Mult(a[i], k)
  {
    seq(|a|, i requires 0 <= i < |a| => Mult(a[i], k))
  }

  // ---- the blocks of the inverter, on words -------------------------------------------

  /** `func1`: S - q * R */
  function Func1(s: TWord, r: TWord, q: Digit): (w: Word) {
    VSub(s, VScale(q, r))
  }

  /** `func2`: x * A, the top digit falling off. */
  function Func2(a: TWord): (w: TWord)
    ensures LegalWord(a) ==> LegalWord(w)
  {
    [ZERO] + a[..M]
  }

  /** `func3`: x * B mod p */
  function Func3(b: TWord): (c: TWord)
    ensures forall i :: 0 <= i <= M ==> c[i] == Func3Digit(b, i)
    ensures LegalWord(b) ==> LegalWord(c)
  {
    seq(M + 1, i requires 0 <= i <= M => Func3Digit(b, i))
  }

  /** One digit of `func3`; A is x * B, and its digit M carries back into digits 0 and 12. */
  function Func3Digit(b: TWord, i: int): Trit
    requires 0 <= i <= M
  {
    var a := [ZERO] + b[..M];
    if i == 0 then Sub(a[0], Mult(a[97], TWO))
    else if i == 12 then Sub(a[12], Mult(a[97], ONE))
    else if i == 97 then ZERO
    else a[i]
  }

  /** `func5`: A / x mod p */
  function Func5(a: TWord): (c: TWord)
    ensures forall i :: 0 <= i <= M ==> c[i] == Func5Digit(a, i)
    ensures LegalWord(a) ==> LegalWord(c)
  {
    seq(M + 1, i requires 0 <= i <= M => Func5Digit(a, i))
  }

  function Func5Digit(a: TWord, i: int): Trit
    requires 0 <= i <= M
  {
    if i == 97 then ZERO
    else if i == 96 then a[0]
    else if i == 11 then Add(a[12], a[0])
    else a[i + 1]
  }

  /** An element in an inverter register: the top digit is 0. */
  function Widen(e: Elem): Word {
    e + [ZERO]
  }

  // ---- the value of a vector ----------------------------------------------------------

  /** The polynomial whose coefficients the digits are. */
  function ToPoly(v: seq<Digit>): Poly {
    if v == [] then Nil else Horner(v[0], ToPoly(v[1..]))
  }

  lemma {:induction false} ToPolyAdd(a: seq<Digit>, b: seq<Digit>)
    requires |a| == |b|
    ensures ToPoly(VAdd(a, b)) == Plus(ToPoly(a), ToPoly(b))
  {
    if a != [] {
      ToPolyAdd(a[1..], b[1..]);
      assert VAdd(a, b)[1..] == VAdd(a[1..], b[1..]);
      PlusHorner(a[0], ToPoly(a[1..]), b[0], ToPoly(b[1..]));
    }
  }

  lemma {:induction false} ToPolyScale(k: Digit, a: seq<Digit>)
    ensures ToPoly(VScale(k, a)) == Scale(k, ToPoly(a))
  {
    if a != [] {
      ToPolyScale(k, a[1..]);
      assert VScale(k, a)[1..] == VScale(k, a[1..]);
      DigitLaws(k, a[0], ZERO);
      ScaleHorner(k, a[0], ToPoly(a[1..]));
    }
  }

  lemma VSubIsAddScale(a: seq<Digit>, b: seq<Digit>)
    requires |a| == |b|
    ensures VSub(a, b) == VAdd(a, VScale(TWO, b)) == VAdd(a, VNeg(b))
    ensures VNeg(b) == VScale(TWO, b)
  {
    forall i | 0 <= i < |a|
      ensures Sub(a[i], b[i]) == Add(a[i], Mult(b[i], TWO))
    {
      DigitLaws(b[i], TWO, ZERO);
    }
  }

  lemma ToPolySub(a: seq<Digit>, b: seq<Digit>)
    requires |a| == |b|
    ensures ToPoly(VSub(a, b)) == Minus(ToPoly(a), ToPoly(b))
  {
    VSubIsAddScale(a, b);
    ToPolyAdd(a, VScale(TWO, b));
    ToPolyScale(TWO, b);
  }

  lemma ToPolyShift(a: seq<Digit>)
    ensures ToPoly([ZERO] + a) == Shift(ToPoly(a))
  {
    assert ([ZERO] + a)[1..] == a;
  }

  lemma {:induction false} ToPolyPad(a: seq<Digit>, n: nat)
    ensures ToPoly(a + Zeros(n)) == ToPoly(a)
  {
    if a != [] {
      assert (a + Zeros(n))[1..] == a[1..] + Zeros(n);
      ToPolyPad(a[1..], n);
    } else if n > 0 {
      assert (a + Zeros(n))[1..] == [] + Zeros(n - 1);
      ToPolyPad([], n - 1);
    }
  }

  lemma ToPolyWiden(e: Elem)
    ensures ToPoly(Widen(e)) == ToPoly(e)
  {
    assert [ZERO] == Zeros(1);
    ToPolyPad(e, 1);
  }

  /** The length is at most the number of digits, and equals it when the top digit is not 0. */
  lemma {:induction false} LenToPoly(v: seq<Digit>)
    requires v != []
    ensures Len(ToPoly(v)) <= |v|
    ensures Len(ToPoly(v)) == |v| <==> v[|v| - 1] != ZERO
  {
    if |v| > 1 {
      LenToPoly(v[1..]);
    }
  }

  /** Distinct vectors of one width are distinct polynomials. */
  lemma {:induction false} ToPolyInjective(a: seq<Digit>, b: seq<Digit>)
    requires |a| == |b| && ToPoly(a) == ToPoly(b)
    ensures a == b
  {
    if a != [] {
      ToPolyInjective(a[1..], b[1..]);
      assert a == [a[0]] + a[1..] && b == [b[0]] + b[1..];
    }
  }

  // ---- vector-space laws --------------------------------------------------------------

  lemma VAddLaws(a: seq<Digit>, b: seq<Digit>, c: seq<Digit>)
    requires |a| == |b| == |c|
    ensures VAdd(a, b) == VAdd(b, a)
    ensures VAdd(VAdd(a, b), c) == VAdd(a, VAdd(b, c))
    ensures VAdd(a, Zeros(|a|)) == a && VAdd(Zeros(|a|), a) == a
    ensures VAdd(a, VNeg(a)) == Zeros(|a|)
  {
    forall i | 0 <= i < |a|
      ensures Add(a[i], b[i]) == Add(b[i], a[i])
      ensures Add(Add(a[i], b[i]), c[i]) == Add(a[i], Add(b[i], c[i]))
      ensures Add(a[i], ZERO) == a[i] && Add(ZERO, a[i]) == a[i] && Add(a[i], Neg(a[i])) == ZERO
    {
      DigitLaws(a[i], b[i], c[i]);
    }
  }

  lemma VScaleLaws(k: Digit, l: Digit, a: seq<Digit>, b: seq<Digit>)
    requires |a| == |b|
    ensures VScale(k, VAdd(a, b)) == VAdd(VScale(k, a), VScale(k, b))
    ensures VScale(Add(k, l), a) == VAdd(VScale(k, a), VScale(l, a))
    ensures VScale(k, VScale(l, a)) == VScale(Mult(k, l), a)
    ensures VScale(ONE, a) == a && VScale(ZERO, a) == Zeros(|a|) && VScale(k, Zeros(|a|)) == Zeros(|a|)
  {
    forall i | 0 <= i < |a|
      ensures Mult(Add(a[i], b[i]), k) == Add(Mult(a[i], k), Mult(b[i], k))
      ensures Mult(a[i], Add(k, l)) == Add(Mult(a[i], k), Mult(a[i], l))
      ensures Mult(Mult(a[i], l), k) == Mult(a[i], Mult(k, l))
      ensures Mult(a[i], ONE) == a[i] && Mult(a[i], ZERO) == ZERO && Mult(ZERO, k) == ZERO
    {
      DigitLaws(a[i], b[i], k);
      DigitLaws(a[i], k, l);
      DigitLaws(k, l, a[i]);
    }
  }
}
