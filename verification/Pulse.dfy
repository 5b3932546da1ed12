/** `func6`: one pulse for each rise of its input, the link between all handshakes. */
module Pulse {

  datatype Regs = Regs(reg1: bool, reg2: bool)

  function Out(s: Regs): bool {
    s.reg1 && !s.reg2
  }

  function Edge(s: Regs, reset: bool, input: bool): Regs {
    if reset then Regs(false, false) else Regs(input, s.reg1)
  }

  /** The registers after n edges without reset, fed with the wave `input`. */
  function After(n: nat, s0: Regs, input: nat -> bool): Regs {
    if n == 0 then s0 else Edge(After(n - 1, s0, input), false, input(n - 1))
  }

  /** After a reset the output is high exactly one clock after each rise of the input, for one
      clock: a wave that goes up once gives one pulse. */
  lemma PulseAtEachRise(n: nat, s0: Regs, input: nat -> bool)
    requires s0 == Regs(false, false)
    ensures Out(After(n, s0, input)) <==> n >= 1 && input(n - 1) && (n >= 2 ==> !input(n - 2))
  {
    if n >= 2 {
      assert After(n, s0, input) == Edge(After(n - 1, s0, input), false, input(n - 1));
      assert After(n - 1, s0, input) == Edge(After(n - 2, s0, input), false, input(n - 2));
    }
  }

  /** `func6` as it stands in the source, with its registers as fields. */
  class RisingEdge {
    var reg1: bool
    var reg2: bool

    function State(): Regs
      reads this
    {
      Regs(reg1, reg2)
    }

    /** posedge clk */
    method Clock(reset: bool, input: bool)
      modifies this
      ensures State() == Edge(old(State()), reset, input)
    {
      if reset {
        reg1, reg2 := false, false;
      } else {
        reg2, reg1 := reg1, input;
      }
    }
  }
}
