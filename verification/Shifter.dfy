/** Step counters kept as a shift register with one bit set. */
module Shifter {

  type ShiftReg = b: seq<bool> | b != [] witness [false]

  function ShiftRight(b: ShiftReg): (c: ShiftReg)
    ensures |c| == |b|
  {
    b[1..] + [false]
  }

  /** n bits, of which bit k is set; none is when k is out of range. */
  function Hot(n: nat, k: int): (b: seq<bool>)
    ensures |b| == n && forall i :: 0 <= i < n ==> (b[i] <==> i == k)
  {
    seq(n, i => i == k)
  }

  lemma HotShifts(n: nat, k: int)
    requires n > 0 && k < n - 1
    ensures ShiftRight(Hot(n, k + 1)) == Hot(n, k)
    ensures Hot(n, k)[0] <==> k == 0
  {
  }

  function ShiftedOut(b: ShiftReg, n: nat): (c: ShiftReg)
    ensures |c| == |b|
  {
    if n == 0 then b else ShiftRight(ShiftedOut(b, n - 1))
  }

  /** Whatever a shift register held, it is empty once it has shifted its own length. */
  lemma {:induction false} ShiftsOut(b: ShiftReg, n: nat)
    ensures forall i :: 0 <= i < |b| ==> ShiftedOut(b, n)[i] == (i + n < |b| && b[i + n])
  {
    if n > 0 {
      ShiftsOut(b, n - 1);
    }
  }
}
