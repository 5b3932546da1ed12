/** Framing of the GDB Remote Serial Protocol: escaping, checksum, acknowledgement. */
module RspFraming {
  type Byte = x: int | 0 <= x < 256

  const GDB_BUF_MAX: nat := 16 * 1024

  const DOLLAR: Byte := 0x24
  const HASH: Byte := 0x23
  const STAR: Byte := 0x2a
  const BRACE: Byte := 0x7d
  const PLUS: Byte := 0x2b
  const MINUS: Byte := 0x2d
  const CTRL_C: Byte := 0x03

  // ---- escaping ----------------------------------------------------------------------

  /** c ^ 0x20 */
  function Flip(c: Byte): Byte {
    if c / 32 % 2 == 1 then c - 32 else c + 32
  }

  lemma FlipIsXor(b: bv8)
    ensures Flip(b as int) == (b ^ 0x20) as int
  {
  }

  predicate Special(c: Byte) {
    c == DOLLAR || c == HASH || c == STAR || c == BRACE
  }

  function EscapeByte(c: Byte): (e: seq<Byte>)
    ensures DOLLAR !in e && HASH !in e && STAR !in e
  {
    if Special(c) then [BRACE, Flip(c)] else [c]
  }

  function Escape(data: seq<Byte>): (e: seq<Byte>)
    ensures DOLLAR !in e && HASH !in e && STAR !in e && |data| <= |e| <= 2 * |data|
  {
    if data == [] then [] else EscapeByte(data[0]) + Escape(data[1..])
  }

  /** What unescaping makes of `s`; `next` is the byte behind it, read if `s` ends in an escape. */
  function Unescape(s: seq<Byte>, next: Byte): (u: seq<Byte>)
    ensures |u| <= |s|
  {
    if s == [] then []
    else if s[0] != BRACE then [s[0]] + Unescape(s[1..], next)
    else if |s| == 1 then [Flip(next)]
    else [Flip(s[1])] + Unescape(s[2..], next)
  }

  lemma FlipTwice(c: Byte)
    ensures Flip(Flip(c)) == c
  {
  }

  /** Unescaping undoes escaping, whatever lies behind. */
  lemma {:induction false} UnescapeEscape(data: seq<Byte>, next: Byte)
    ensures Unescape(Escape(data), next) == data
  {
    hide Flip;
    if data != [] {
      var c, e := data[0], Escape(data[1..]);
      UnescapeEscape(data[1..], next);
      FlipTwice(c);
      if Special(c) {
        assert ([BRACE, Flip(c)] + e)[2..] == e;
      } else {
        assert ([c] + e)[1..] == e;
      }
    }
  }

  // ---- frames ------------------------------------------------------------------------

  function Sum(s: seq<Byte>): Byte {
    if s == [] then 0 else (Sum(s[..|s| - 1]) + s[|s| - 1]) % 256
  }

  function HexChar(n: nat): Byte
    requires n < 16
  {
    if n < 10 then 0x30 + n else 0x61 + n - 10
  }

  /** `hex`: a digit's value, or -1. */
  function Hex(c: Byte): int {
    if 0x61 <= c <= 0x66 then c - 0x61 + 10
    else if 0x30 <= c <= 0x39 then c - 0x30
    else if 0x41 <= c <= 0x46 then c - 0x41 + 10
    else -1
  }

  /** The checksum two received characters stand for, in an unsigned char. */
  function Received(h: Byte, l: Byte): Byte {
    (16 * Hex(h) + Hex(l)) % 256
  }

  lemma HexDigits(n: Byte)
    ensures Received(HexChar(n / 16), HexChar(n % 16)) == n
  {
  }

  function Framed(e: seq<Byte>, h: Byte, l: Byte): seq<Byte> {
    [DOLLAR] + e + [HASH, h, l]
  }

  function Frame(data: seq<Byte>): seq<Byte> {
    var e := Escape(data);
    Framed(e, HexChar(Sum(e) / 16), HexChar(Sum(e) % 16))
  }

  // ---- receiving ---------------------------------------------------------------------

  datatype Body = Eof | Full(rest: seq<Byte>) | End(data: seq<Byte>, rest: seq<Byte>)

  /** From behind a '$': up to '#' or a full buffer, starting over at every further '$'. */
  function ReadBody(s: seq<Byte>, acc: seq<Byte>): (b: Body)
    ensures !b.Eof? ==> |b.rest| <= |s|
    ensures b.End? ==> |b.data| <= GDB_BUF_MAX - 2
  {
    if |acc| >= GDB_BUF_MAX - 1 then Full(s)
    else if s == [] then Eof
    else if s[0] == DOLLAR then ReadBody(s[1..], [])
    else if s[0] == HASH then End(acc, s[1..])
    else ReadBody(s[1..], acc + [s[0]])
  }

  datatype Result = Closed | Packet(data: seq<Byte>)

  /** What came of it, the input not yet read, and the acknowledgements sent. */
  datatype Outcome = Outcome(result: Result, rest: seq<Byte>, replies: seq<Byte>)

  function Get(s: seq<Byte>): (o: Outcome)
    ensures o.result.Packet? ==> |o.result.data| <= GDB_BUF_MAX - 2
    decreases |s|
  {
    if s == [] then Outcome(Closed, [], [])
    else if s[0] == CTRL_C then Outcome(Packet([CTRL_C]), s[1..], [])
    else if s[0] != DOLLAR then Get(s[1..])
    else
      match ReadBody(s[1..], [])
      case Eof => Outcome(Closed, [], [])
      case Full(rest) => Get(rest)
      case End(data, rest) =>
        if |rest| < 2 then Outcome(Closed, [], [])
        else if Received(rest[0], rest[1]) == Sum(data) then Outcome(Packet(data), rest[2..], [PLUS])
        else
          var o := Get(rest[2..]);
          o.(replies := [MINUS] + o.replies)
  }

  lemma {:induction false} NoiseIsSkipped(noise: seq<Byte>, s: seq<Byte>)
    requires DOLLAR !in noise && CTRL_C !in noise
    ensures Get(noise + s) == Get(s)
  {
    if noise == [] {
      assert noise + s == s;
    } else {
      NoiseIsSkipped(noise[1..], s);
      assert (noise + s)[1..] == noise[1..] + s;
    }
  }

  /** A body without '$' and '#' is read to its end if it leaves room for the terminating zero and
      one byte more; */
  lemma {:induction false} BodyIsRead(e: seq<Byte>, t: seq<Byte>, acc: seq<Byte>)
    requires DOLLAR !in e && HASH !in e && |acc| + |e| <= GDB_BUF_MAX - 2
    ensures ReadBody(e + [HASH] + t, acc) == End(acc + e, t)
    decreases |e|
  {
    var s := e + [HASH] + t;
    if e == [] {
      assert s[1..] == t && acc + e == acc;
    } else {
      BodyIsRead(e[1..], t, acc + [e[0]]);
      assert s[1..] == e[1..] + [HASH] + t && s[0] == e[0];
      assert acc + [e[0]] + e[1..] == acc + e;
    }
  }

  /** otherwise the buffer fills up and the remainder is taken for noise. */
  lemma {:induction false} BodyOverruns(e: seq<Byte>, t: seq<Byte>, acc: seq<Byte>)
    requires DOLLAR !in e && HASH !in e && |acc| < GDB_BUF_MAX && |acc| + |e| >= GDB_BUF_MAX - 1
    ensures ReadBody(e + t, acc) == Full((e + t)[GDB_BUF_MAX - 1 - |acc|..])
    decreases |e|
  {
    var s := e + t;
    if |acc| < GDB_BUF_MAX - 1 {
      BodyOverruns(e[1..], t, acc + [e[0]]);
      assert s[1..] == e[1..] + t && s[0] == e[0];
    }
  }

  lemma FrameIsRead(e: seq<Byte>, h: Byte, l: Byte, t: seq<Byte>)
    requires DOLLAR !in e && HASH !in e && |e| <= GDB_BUF_MAX - 2
    ensures Get(Framed(e, h, l) + t)
            == if Received(h, l) == Sum(e) then Outcome(Packet(e), t, [PLUS])
               else var o := Get(t); o.(replies := [MINUS] + o.replies)
  {
    hide Received, Sum, Get, ReadBody;
    var s, rest := Framed(e, h, l) + t, [h, l] + t;
    BodyIsRead(e, rest, []);
    assert s == [DOLLAR] + (e + [HASH] + rest) && s[1..] == e + [HASH] + rest;
    assert [] + e == e;
    GetBody(s, e, rest);
    assert rest[2..] == t;
  }

  lemma GetBody(s: seq<Byte>, e: seq<Byte>, rest: seq<Byte>)
    requires s != [] && s[0] == DOLLAR && ReadBody(s[1..], []) == End(e, rest) && |rest| >= 2
    ensures Get(s) == if Received(rest[0], rest[1]) == Sum(e) then Outcome(Packet(e), rest[2..], [PLUS])
                      else var o := Get(rest[2..]); o.(replies := [MINUS] + o.replies)
  {
    hide Received, Sum, ReadBody;
  }

  /** After any noise, a sent packet is accepted with '+', the data recovered by unescaping and
      nothing behind it touched, if and only if its escaped form leaves two bytes of the buffer. */
  lemma PacketArrivesIff(noise: seq<Byte>, data: seq<Byte>, t: seq<Byte>, next: Byte)
    requires DOLLAR !in noise && CTRL_C !in noise
    ensures var o := Get(noise + Frame(data) + t);
            && (o == Outcome(Packet(Escape(data)), t, [PLUS]) <==> |Escape(data)| <= GDB_BUF_MAX - 2)
            && (o.result == Packet(Escape(data)) ==> Unescape(o.result.data, next) == data)
  {
    hide Received, Sum, HexChar, Escape;
    var e := Escape(data);
    NoiseIsSkipped(noise, Frame(data) + t);
    assert noise + Frame(data) + t == noise + (Frame(data) + t);
    UnescapeEscape(data, next);
    if |e| <= GDB_BUF_MAX - 2 {
      HexDigits(Sum(e));
      FrameIsRead(e, HexChar(Sum(e) / 16), HexChar(Sum(e) % 16), t);
    }
  }

  /** What does not fit of a longer packet. */
  function Dropped(data: seq<Byte>): seq<Byte>
    requires |Escape(data)| >= GDB_BUF_MAX - 1
  {
    Escape(data)[GDB_BUF_MAX - 1..]
  }

  /** A longer packet is lost, and what did not fit is read as if no packet had begun. */
  lemma LongPacketIsLost(data: seq<Byte>, t: seq<Byte>)
    requires |Escape(data)| >= GDB_BUF_MAX - 1
    ensures Get(Frame(data) + t) == Get(Dropped(data) + (Frame(data)[|Escape(data)| + 1..] + t))
  {
    hide Sum, HexChar, Escape;
    var e, f := Escape(data), Frame(data)[|Escape(data)| + 1..];
    BodyOverruns(e, f + t, []);
    assert Frame(data) + t == [DOLLAR] + (e + (f + t));
    assert (e + (f + t))[GDB_BUF_MAX - 1..] == Dropped(data) + (f + t);
  }

  /** The checksum's end of a frame. */
  function Tail(data: seq<Byte>): seq<Byte> {
    [HASH, HexChar(Sum(Escape(data)) / 16), HexChar(Sum(Escape(data)) % 16)]
  }

  function AfterBreak(s: seq<Byte>): seq<Byte> {
    if s == [] then [] else if s[0] == CTRL_C then s[1..] else AfterBreak(s[1..])
  }

  lemma {:induction false} BreakIsSeen(s: seq<Byte>, t: seq<Byte>)
    requires DOLLAR !in s && CTRL_C in s
    ensures Get(s + t) == Outcome(Packet([CTRL_C]), AfterBreak(s) + t, [])
  {
    assert (s + t)[1..] == s[1..] + t;
    if s[0] != CTRL_C {
      BreakIsSeen(s[1..], t);
    }
  }

  /** Hence a break is received exactly if there is a 0x03 in what did not fit, and otherwise it is
      as if nothing had been sent. */
  lemma LongPacketBreaksIff(data: seq<Byte>, t: seq<Byte>)
    requires |Escape(data)| >= GDB_BUF_MAX - 1
    ensures Get(Frame(data) + t)
            == if CTRL_C in Dropped(data) then
                 Outcome(Packet([CTRL_C]), AfterBreak(Dropped(data)) + (Tail(data) + t), [])
               else Get(t)
    ensures Get(Frame(data)).result == Packet([CTRL_C]) <==> CTRL_C in Dropped(data)
  {
    BreaksOrNot(data, t);
    BreaksOrNot(data, []);
    assert Frame(data) + [] == Frame(data);
  }

  lemma BreaksOrNot(data: seq<Byte>, t: seq<Byte>)
    requires |Escape(data)| >= GDB_BUF_MAX - 1
    ensures Get(Frame(data) + t)
            == if CTRL_C in Dropped(data) then
                 Outcome(Packet([CTRL_C]), AfterBreak(Dropped(data)) + (Tail(data) + t), [])
               else Get(t)
  {
    hide Sum, Escape, Get;
    var d := Dropped(data);
    LongPacketIsLost(data, t);
    assert Frame(data)[|Escape(data)| + 1..] == Tail(data);
    if CTRL_C in d {
      BreakIsSeen(d, Tail(data) + t);
    } else {
      NoiseIsSkipped(d + Tail(data), t);
      assert d + (Tail(data) + t) == d + Tail(data) + t;
    }
  }

  /** A 0x03 is sent for a 0x03 and for an escaped '#'. */
  lemma {:induction false} BreaksSent(data: seq<Byte>)
    ensures CTRL_C in Escape(data) <==> CTRL_C in data || HASH in data
  {
    if data != [] {
      BreaksSent(data[1..]);
      assert data == [data[0]] + data[1..];
    }
  }

  /** With GDB_BUF_MAX - 1 bytes nothing is left over: a lost packet that breaks has at least
      GDB_BUF_MAX in its escaped form, */
  lemma BreakNeedsLength(data: seq<Byte>, t: seq<Byte>)
    requires |Escape(data)| >= GDB_BUF_MAX - 1
    ensures Get(Frame(data)).result == Packet([CTRL_C]) ==> |Escape(data)| >= GDB_BUF_MAX
    ensures |Escape(data)| == GDB_BUF_MAX - 1 ==> Get(Frame(data) + t) == Get(t)
  {
    hide Escape, Frame, Get;
    LongPacketBreaksIff(data, t);
  }

  /** and one with just as many does: its last byte is the second of an escaped '#'. */
  lemma LongPacketCanBreak(t: seq<Byte>)
    ensures var data := seq(GDB_BUF_MAX - 2, _ => PLUS) + [HASH];
            && |Escape(data)| == GDB_BUF_MAX
            && Get(Frame(data) + t) == Outcome(Packet([CTRL_C]), Tail(data) + t, [])
  {
    hide Sum, Escape, Get, HexChar;
    var plain: seq<Byte> := seq(GDB_BUF_MAX - 2, _ => PLUS);
    PlainIsKept(plain, [HASH]);
    EscapedHash();
    var data := plain + [HASH];
    assert Dropped(data) == [CTRL_C];
    LongPacketBreaksIff(data, t);
    assert AfterBreak([CTRL_C]) == [];
    assert [] + (Tail(data) + t) == Tail(data) + t;
  }

  lemma {:induction false} PlainIsKept(plain: seq<Byte>, data: seq<Byte>)
    requires forall i :: 0 <= i < |plain| ==> !Special(plain[i])
    ensures Escape(plain + data) == plain + Escape(data)
  {
    hide Escape, Special;
    if plain == [] {
      assert plain + data == data && plain + Escape(data) == Escape(data);
    } else {
      var c, rest := plain[0], plain[1..];
      PlainIsKept(rest, data);
      EscapeFirst(c, rest + data);
      assert plain + data == [c] + (rest + data);
      assert plain + Escape(data) == [c] + (rest + Escape(data));
    }
  }

  lemma EscapeFirst(c: Byte, s: seq<Byte>)
    requires !Special(c)
    ensures Escape([c] + s) == [c] + Escape(s)
  {
    assert ([c] + s)[1..] == s;
  }

  lemma EscapedHash()
    ensures Escape([HASH]) == [BRACE, CTRL_C]
  {
    assert Escape([]) == [];
  }

  lemma FrameLength(data: seq<Byte>)
    ensures |Frame(data)| == |Escape(data)| + 4
  {
    hide Escape, Sum, HexChar;
  }

  /** The packet size the server advertises counts the frame too: within it nothing is lost. */
  lemma AdvertisedSizeFits(data: seq<Byte>, t: seq<Byte>)
    requires |Frame(data)| <= GDB_BUF_MAX
    ensures Get(Frame(data) + t) == Outcome(Packet(Escape(data)), t, [PLUS])
  {
    hide Get, Frame, Escape, Unescape;
    FrameLength(data);
    PacketArrivesIff([], data, t, 0);
    assert [] + Frame(data) + t == Frame(data) + t;
  }

  /** A frame whose checksum does not match is answered with '-', and the next one is accepted. */
  lemma RetransmissionRecovers(e: seq<Byte>, h: Byte, l: Byte, data: seq<Byte>, t: seq<Byte>)
    requires DOLLAR !in e && HASH !in e && |e| <= GDB_BUF_MAX - 2 && Received(h, l) != Sum(e)
    requires |Escape(data)| <= GDB_BUF_MAX - 2
    ensures Get(Framed(e, h, l) + Frame(data) + t)
            == Outcome(Packet(Escape(data)), t, [MINUS, PLUS])
  {
    hide Received, Sum, HexChar, Escape;
    FrameIsRead(e, h, l, Frame(data) + t);
    assert Framed(e, h, l) + Frame(data) + t == Framed(e, h, l) + (Frame(data) + t);
    PacketArrivesIff([], data, t, 0);
    assert [] + Frame(data) + t == Frame(data) + t;
  }

  // ---- the server's functions -----------------------------------------------------------

  /** One frame for every acknowledgement read, up to the first '+' or the end of the input. */
  function Frames(data: seq<Byte>, acks: seq<Byte>): seq<Byte> {
    if acks == [] || acks[0] == PLUS then Frame(data) else Frame(data) + Frames(data, acks[1..])
  }

  function Unacknowledged(acks: seq<Byte>): seq<Byte> {
    if acks == [] then [] else if acks[0] == PLUS then acks[1..] else Unacknowledged(acks[1..])
  }

  function Repeated(frame: seq<Byte>, n: nat): seq<Byte> {
    if n == 0 then [] else frame + Repeated(frame, n - 1)
  }

  /** Every other character draws the frame again, '-' included, and the first '+' none: what is behind
      it is left in the input. */
  lemma {:induction false} AcceptedAfter(data: seq<Byte>, nacks: seq<Byte>, rest: seq<Byte>)
    requires PLUS !in nacks
    ensures Frames(data, nacks + [PLUS] + rest) == Repeated(Frame(data), |nacks| + 1)
    ensures Unacknowledged(nacks + [PLUS] + rest) == rest
  {
    hide Frame;
    var acks := nacks + [PLUS] + rest;
    if nacks == [] {
      assert acks[0] == PLUS && acks[1..] == rest;
      assert Repeated(Frame(data), 1) == Frame(data) + [] == Frame(data);
    } else {
      AcceptedAfter(data, nacks[1..], rest);
      assert acks[0] == nacks[0] && acks[1..] == nacks[1..] + [PLUS] + rest;
    }
  }

  /** Without a '+' there is one frame more than characters, and nothing is left. */
  lemma {:induction false} NeverAccepted(data: seq<Byte>, nacks: seq<Byte>)
    requires PLUS !in nacks
    ensures Frames(data, nacks) == Repeated(Frame(data), |nacks| + 1) && Unacknowledged(nacks) == []
  {
    hide Frame;
    if nacks == [] {
      assert Repeated(Frame(data), 1) == Frame(data) + [] == Frame(data);
    } else {
      NeverAccepted(data, nacks[1..]);
    }
  }

  /** The connection to GDB, with the static buffer packets are read into. */
  class Client {
    var input: seq<Byte>
    var output: seq<Byte>
    const buf: array<Byte>
    var len: nat

    ghost predicate Valid()
      reads this
    {
      buf.Length == GDB_BUF_MAX && len < GDB_BUF_MAX
    }

    constructor (input: seq<Byte>)
      ensures Valid() && this.input == input && output == [] && len == 0 && fresh(buf)
    {
      this.input, output, len := input, [], 0;
      buf := new Byte[GDB_BUF_MAX];
    }

    /** `get_rsp_char`: the next character, or -1 when the connection is at its end. */
    method GetChar() returns (c: int)
      modifies this`input
      ensures if old(input) == [] then c == -1 && input == []
              else c == old(input)[0] && input == old(input)[1..]
    {
      if input == [] {
        return -1;
      }
      c := input[0];
      input := input[1..];
    }

    /** `put_rsp_char` */
    method PutChar(c: Byte)
      modifies this`output
      ensures output == old(output) + [c]
    {
      output := output + [c];
    }

    /** One byte of a packet's body, escaped if need be, and its share of the checksum. */
    method PutEscaped(c: Byte, sum: Byte, ghost e: seq<Byte>) returns (checksum: Byte)
      requires sum == Sum(e)
      modifies this`output
      ensures output == old(output) + EscapeByte(c) && checksum == Sum(e + EscapeByte(c))
    {
      hide Flip, Sum;
      checksum := sum;
      var ch := c;
      ghost var f := e;
      if Special(c) {
        ch := Flip(c);
        SumAppend(e, BRACE);
        checksum := (checksum + BRACE) % 256;
        PutChar(BRACE);
        f := e + [BRACE];
        assert f + [ch] == e + EscapeByte(c);
      }
      SumAppend(f, ch);
      checksum := (checksum + ch) % 256;
      PutChar(ch);
    }

    /** `put_packet`, the body of its loop up to the acknowledgement. */
    method PutFrame(data: seq<Byte>)
      modifies this`output
      ensures output == old(output) + Frame(data)
    {
      hide Flip, HexChar, Sum, EscapeByte, Escape;
      var checksum: Byte := 0;
      EmptyEscape();
      PutChar(DOLLAR);
      for i := 0 to |data|
        invariant output == old(output) + ([DOLLAR] + Escape(data[..i]))
        invariant checksum == Sum(Escape(data[..i]))
      {
        ghost var e := Escape(data[..i]);
        EscapeAppend(data[..i], data[i]);
        assert data[..i + 1] == data[..i] + [data[i]];
        checksum := PutEscaped(data[i], checksum, e);
      }
      assert data[..|data|] == data;
      PutChar(HASH);
      PutChar(HexChar(checksum / 16));
      PutChar(HexChar(checksum % 16));
    }

    /** `put_packet`: again and again, until '+' or the end of the connection. */
    method PutPacket(data: seq<Byte>)
      modifies this`output, this`input
      ensures output == old(output) + Frames(data, old(input))
      ensures input == Unacknowledged(old(input))
    {
      hide Frame;
      var c: int := MINUS;
      while c != PLUS && c != -1
        invariant c == PLUS || c == -1 ==>
                    output == old(output) + Frames(data, old(input)) && input == Unacknowledged(old(input))
        invariant c != PLUS && c != -1 ==>
                    && output + Frames(data, input) == old(output) + Frames(data, old(input))
                    && Unacknowledged(input) == Unacknowledged(old(input))
        decreases c != PLUS && c != -1, |input|
      {
        ghost var before := input;
        PutFrame(data);
        c := GetChar();
      }
    }

    /** Skips to a '$'; returns it, a break, or -1. */
    method WaitForStart() returns (ch: int)
      modifies this`input
      ensures ch == DOLLAR || ch == CTRL_C || ch == -1
      ensures ch == -1 ==> Get(old(input)) == Outcome(Closed, [], []) && input == []
      ensures ch != -1 ==> Get(old(input)) == Get([ch as Byte] + input) && |input| < |old(input)|
    {
      ch := GetChar();
      while ch != DOLLAR
        invariant -1 <= ch < 256 && (ch == -1 ==> input == [])
        invariant Get(old(input)) == Get(if ch == -1 then [] else [ch as Byte] + input)
        invariant ch != -1 ==> |input| < |old(input)|
        decreases ch != -1, |input|
      {
        if ch == -1 || ch == CTRL_C {
          return;
        }
        assert ([ch as Byte] + input)[1..] == input;
        ch := GetChar();
      }
    }

    /** Fills the buffer up to '#', from behind a '$'. */
    method ReadInto() returns (ch: int, count: nat, checksum: Byte)
      requires Valid()
      modifies this`input, buf
      ensures count < GDB_BUF_MAX && |input| <= |old(input)| && checksum == Sum(buf[..count])
      ensures match ReadBody(old(input), [])
              case Eof => ch == -1 && input == []
              case Full(rest) => ch != HASH && ch != -1 && rest == input
              case End(data, rest) => ch == HASH && data == buf[..count] && rest == input
    {
      hide Sum;
      ch, count, checksum := 0, 0, 0;
      EmptyEscape();
      while count < GDB_BUF_MAX - 1
        invariant count < GDB_BUF_MAX && |input| <= |old(input)|
        invariant ReadBody(input, buf[..count]) == ReadBody(old(input), [])
        invariant checksum == Sum(buf[..count])
        invariant ch != HASH && ch != -1
        decreases |input|
      {
        ch := GetChar();
        if ch == -1 || ch == HASH {
          return;
        }
        if ch == DOLLAR {
          count, checksum := 0, 0;
        } else {
          SumAppend(buf[..count], ch);
          checksum := (checksum + ch) % 256;
          buf[count] := ch;
          count := count + 1;
          assert buf[..count] == buf[..count - 1] + [ch];
        }
      }
    }

    /** `get_packet`: false when the connection is at its end. */
    method GetPacket() returns (ok: bool)
      requires Valid()
      modifies this, buf
      ensures Valid()
      ensures var o := Get(old(input));
              && input == o.rest && output == old(output) + o.replies
              && (ok <==> o.result.Packet?) && (ok ==> buf[..len] == o.result.data)
    {
      hide Sum, Received;
      ghost var goal := Get(input);
      while true
        invariant Valid()
        invariant Get(input).result == goal.result && Get(input).rest == goal.rest
        invariant output + Get(input).replies == old(output) + goal.replies
        decreases |input|
      {
        ghost var before := input;
        var ch := WaitForStart();
        if ch == -1 {
          return false;
        }
        assert ([ch as Byte] + input)[1..] == input;
        if ch == CTRL_C {
          buf[0] := CTRL_C;
          len := 1;
          return true;
        }
        var count, checksum;
        ch, count, checksum := ReadInto();
        if ch == -1 {
          return false;
        }
        buf[count] := 0;
        len := count;
        if ch == HASH {
          var h := GetChar();
          if h == -1 {
            return false;
          }
          var l := GetChar();
          if l == -1 {
            return false;
          }
          if checksum != Received(h, l) {
            PutChar(MINUS);
          } else {
            PutChar(PLUS);
            return true;
          }
        }
      }
    }
  }

  /** What is still to come of the first len bytes of s, from offset `from` on. */
  function Remainder(s: seq<Byte>, len: nat, from: nat): (u: seq<Byte>)
    requires len < |s|
    ensures from <= len ==> |u| <= len - from
  {
    if from <= len then Unescape(s[from..len], s[len]) else []
  }

  lemma RemainderStep(s: seq<Byte>, len: nat, from: nat)
    requires from < len < |s|
    ensures Remainder(s, len, from)
            == if s[from] == BRACE then [Flip(s[from + 1])] + Remainder(s, len, from + 2)
               else [s[from]] + Remainder(s, len, from + 1)
  {
    hide Flip;
    var rest := s[from..len];
    assert rest[1..] == s[from + 1..len];
    if |rest| > 1 {
      assert rest[2..] == s[from + 2..len];
    }
  }

  lemma Steps(done: seq<Byte>, c: Byte, rest: seq<Byte>)
    ensures done + ([c] + rest) == done + [c] + rest
  {
  }

  /** Of the bytes s, read up to offset `from`, the buffer holds what they unescape to, and beyond that
      nothing has changed. */
  predicate Unescaping(s: seq<Byte>, t: seq<Byte>, len: nat, from: nat, to: nat) {
    && len < |s| == |t| && to <= from <= len + 1 && to <= len && t[to..] == s[to..]
    && t[..to] + Remainder(s, len, from) == Remainder(s, len, 0)
  }

  lemma UnescapesOne(s: seq<Byte>, t: seq<Byte>, len: nat, from: nat, to: nat, c: Byte, next: nat)
    requires Unescaping(s, t, len, from, to) && from < len
    requires if t[from] == BRACE then c == Flip(t[from + 1]) && next == from + 2 else c == t[from] && next == from + 1
    ensures Unescaping(s, t[to := c], len, next, to + 1)
  {
    hide Flip, Remainder;
    RemainderStep(s, len, from);
    assert t[from] == t[to..][from - to] == s[from] && t[from + 1] == t[to..][from + 1 - to] == s[from + 1];
    Steps(t[..to], c, Remainder(s, len, next));
    var u := t[to := c];
    assert u[..to + 1] == t[..to] + [c];
    assert u[to + 1..] == t[to..][1..] == s[to..][1..] == s[to + 1..];
  }

  lemma NothingUnescaped(s: seq<Byte>, len: nat)
    requires len < |s|
    ensures Unescaping(s, s, len, 0, 0)
  {
    hide Remainder;
    assert s[..0] + Remainder(s, len, 0) == Remainder(s, len, 0);
  }

  lemma AllUnescaped(s: seq<Byte>, t: seq<Byte>, len: nat, from: nat, to: nat)
    requires Unescaping(s, t, len, from, to) && len <= from
    ensures to <= len && t[..to] == Unescape(s[..len], s[len]) && t[to..] == s[to..]
  {
    Finished(s, len, from);
    assert t[..to] + [] == t[..to];
  }

  lemma InBounds(s: seq<Byte>, t: seq<Byte>, len: nat, from: nat, to: nat)
    requires Unescaping(s, t, len, from, to)
    ensures len < |t| && to <= len
  {
  }

  /** `rsp_unescape`, in place; it reads the byte behind the data when they end in an escape. */
  method UnescapeInPlace(a: array<Byte>, len: nat) returns (to: nat)
    requires len < a.Length
    modifies a
    ensures to <= len && a[..to] == Unescape(old(a[..len]), old(a[len]))
    ensures a[to..] == old(a[to..])
  {
    hide Flip, Unescaping, Unescape;
    ghost var s := a[..];
    assert s[..len] == a[..len];
    var from := 0;
    to := 0;
    NothingUnescaped(s, len);
    while from < len
      invariant Unescaping(s, a[..], len, from, to)
    {
      ghost var t, start := a[..], from;
      InBounds(s, t, len, from, to);
      var c := a[from];
      if c == BRACE {
        from := from + 1;
        c := Flip(a[from]);
      }
      UnescapesOne(s, t, len, start, to, c, from + 1);
      a[to] := c;
      assert a[..] == t[to := c];
      from := from + 1;
      to := to + 1;
    }
    AllUnescaped(s, a[..], len, from, to);
    assert a[..to] == a[..][..to] && a[to..] == a[..][to..];
  }

  lemma Finished(s: seq<Byte>, len: nat, from: nat)
    requires len <= from && len < |s|
    ensures Remainder(s, len, from) == [] && Remainder(s, len, 0) == Unescape(s[..len], s[len])
  {
    assert s[0..len] == s[..len];
  }

  lemma EmptyEscape()
    ensures Sum([]) == 0 && Escape([]) == []
  {
  }

  lemma SumAppend(s: seq<Byte>, c: Byte)
    ensures Sum(s + [c]) == (Sum(s) + c) % 256
  {
    assert (s + [c])[..|s|] == s;
  }

  lemma {:induction false} EscapeAppend(s: seq<Byte>, c: Byte)
    ensures Escape(s + [c]) == Escape(s) + EscapeByte(c)
  {
    hide EscapeByte;
    if s == [] {
      assert ([] + [c])[1..] == [] && [] + [c] == [c];
      assert EscapeByte(c) + [] == EscapeByte(c);
    } else {
      var t := s + [c];
      EscapeAppend(s[1..], c);
      assert t[1..] == s[1..] + [c] && t[0] == s[0];
      assert Escape(t) == EscapeByte(s[0]) + (Escape(s[1..]) + EscapeByte(c));
    }
  }
}
