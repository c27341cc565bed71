/**
  The FTDI transport: events and bits are packed into commands, collected in a
  buffer, and sent to a device that takes them apart again.
 */
module Mpsse {
  import opened Basics
  import opened Arithmetic
  import opened Bits
  import opened Taps
  import opened Sessions

  const WRITE_BYTES_NVE_LSB: nat := 0x19
  const WRITE_BITS_NVE_LSB: nat := 0x1b
  const WRITE_BITS_TMS_NVE: nat := 0x4b
  const FTDI_PIPE_LEN: nat := 512

  /** What the device makes of a command: events with one bit on TDI for all of them, or bits. */
  datatype Cmd = TmsCmd(tms: seq<bool>, tdi: bool) | DataCmd(bits: seq<bool>)

  function Prepend(c: Cmd, rest: Option<seq<Cmd>>): Option<seq<Cmd>> {
    if rest.Some? then Some([c] + rest.value) else None
  }

  function FirstCmd(c: seq<nat>): Cmd
    requires |c| >= 3
  {
    if c[0] == WRITE_BITS_TMS_NVE && c[1] < 7 then TmsCmd(BitsOf(c[2], 8)[..c[1] + 1], BitsOf(c[2], 8)[7])
    else if c[0] == WRITE_BITS_NVE_LSB && c[1] < 8 then DataCmd(BitsOf(c[2], 8)[..c[1] + 1])
    else DataCmd(Joined(c[3..], false))
  }

  predicate IsCmd(c: seq<nat>) {
    && |c| >= 3
    && (c[0] == WRITE_BITS_TMS_NVE ==> |c| == 3 && c[1] < 7)
    && (c[0] == WRITE_BITS_NVE_LSB ==> |c| == 3 && c[1] < 8)
    && (c[0] == WRITE_BYTES_NVE_LSB ==> |c| == c[1] + 256 * c[2] + 4)
    && (c[0] == WRITE_BITS_TMS_NVE || c[0] == WRITE_BITS_NVE_LSB || c[0] == WRITE_BYTES_NVE_LSB)
  }

  /** How long the command is that a stream starts with. */
  function CmdLength(stream: seq<nat>): (n: nat)
    requires |stream| >= 3
    ensures n >= 3
  {
    if stream[0] == WRITE_BYTES_NVE_LSB then stream[1] + 256 * stream[2] + 4 else 3
  }

  function Parsed(stream: seq<nat>): Option<seq<Cmd>> {
    if stream == [] then Some([])
    else if |stream| < 3 || |stream| < CmdLength(stream) || !IsCmd(stream[..CmdLength(stream)]) then None
    else Prepend(FirstCmd(stream[..CmdLength(stream)]), Parsed(stream[CmdLength(stream)..]))
  }

  /** A data command clocks with TMS as the last event left it. */
  function CmdTicks(c: Cmd, pin: bool): seq<Tick> {
    match c
    case TmsCmd(tms, tdi) => seq(|tms|, k requires 0 <= k < |tms| => Tick(tms[k], tdi))
    case DataCmd(bits) => seq(|bits|, k requires 0 <= k < |bits| => Tick(pin, bits[k]))
  }

  function PinAfter(c: Cmd, pin: bool): bool {
    if c.TmsCmd? && c.tms != [] then c.tms[|c.tms| - 1] else pin
  }

  function AllTicks(cmds: seq<Cmd>, pin: bool): seq<Tick> {
    if cmds == [] then [] else CmdTicks(cmds[0], pin) + AllTicks(cmds[1..], PinAfter(cmds[0], pin))
  }

  function AllPin(cmds: seq<Cmd>, pin: bool): bool {
    if cmds == [] then pin else AllPin(cmds[1..], PinAfter(cmds[0], pin))
  }

  lemma {:induction false} TicksInTurn(a: seq<Cmd>, b: seq<Cmd>, pin: bool)
    ensures AllTicks(a + b, pin) == AllTicks(a, pin) + AllTicks(b, AllPin(a, pin))
    ensures AllPin(a + b, pin) == AllPin(b, AllPin(a, pin))
  {
    hide CmdTicks, PinAfter;
    if a == [] {
      assert a + b == b;
    } else {
      assert (a + b)[1..] == a[1..] + b && (a + b)[0] == a[0];
      TicksInTurn(a[1..], b, PinAfter(a[0], pin));
    }
  }

  /** A stream that ends with a command may be followed by another one. */
  lemma {:induction false} ParsedInTurn(a: seq<nat>, b: seq<nat>)
    requires Parsed(a).Some? && Parsed(b).Some?
    ensures Parsed(a + b) == Some(Parsed(a).value + Parsed(b).value)
    decreases |a|
  {
    hide FirstCmd, IsCmd;
    if a == [] {
      assert a + b == b;
      assert Parsed(a).value + Parsed(b).value == Parsed(b).value;
    } else {
      var n := CmdLength(a);
      assert CmdLength(a + b) == n;
      assert (a + b)[n..] == a[n..] + b && (a + b)[..n] == a[..n];
      ParsedInTurn(a[n..], b);
      assert [FirstCmd(a[..n])] + (Parsed(a[n..]).value + Parsed(b).value) == Parsed(a).value + Parsed(b).value;
    }
  }

  lemma OneParsed(c: seq<nat>)
    requires IsCmd(c)
    ensures Parsed(c) == Some([FirstCmd(c)])
  {
    hide FirstCmd;
    var n := CmdLength(c);
    assert n == |c|;
    assert c[..n] == c && c[n..] == [];
    EmptyParsed();
    assert [FirstCmd(c)] + [] == [FirstCmd(c)];
    assert Parsed(c) == Prepend(FirstCmd(c[..n]), Parsed(c[n..]));
  }

  lemma EmptyParsed()
    ensures Parsed([]) == Some([])
  {
  }

  /** ----- the commands ----- */

  /** Events in the low bits of a byte, the deferred bit in the highest one. */
  function TmsBytes(tms: seq<bool>, last: Option<bool>): seq<nat>
    requires 0 < |tms| < 8
  {
    [WRITE_BITS_TMS_NVE, |tms| - 1, IntOf(tms + Falses(7 - |tms|) + [last == Some(true)])]
  }

  function BitBytes(bits: seq<bool>): seq<nat>
    requires 0 < |bits| <= 8
  {
    [WRITE_BITS_NVE_LSB, |bits| - 1, IntOf(bits)]
  }

  function ByteBytes(bits: seq<bool>): seq<nat>
    requires |bits| > 0
  {
    var bytes := BytesOf(bits, false, true);
    var olen := |bytes| - 1;
    [WRITE_BYTES_NVE_LSB, olen % 256, olen / 256 % 256] + bytes
  }

  lemma TmsTakenApart(tms: seq<bool>, last: Option<bool>)
    requires 0 < |tms| < 8
    ensures IsCmd(TmsBytes(tms, last)) && FirstCmd(TmsBytes(tms, last)) == TmsCmd(tms, last == Some(true))
  {
    hide IntOf, BitsOf, Pow2;
    var bits := tms + Falses(7 - |tms|) + [last == Some(true)];
    BitsOfInt(bits);
    assert bits[..|tms|] == tms;
  }

  lemma BitsTakenApart(bits: seq<bool>)
    requires 0 < |bits| <= 8
    ensures IsCmd(BitBytes(bits)) && FirstCmd(BitBytes(bits)) == DataCmd(bits)
  {
    hide IntOf, BitsOf, Pow2;
    var n := |bits|;
    BitsOfInt(bits + Falses(8 - n));
    IntOfSum(bits, Falses(8 - n));
    FalsesAreZero(8 - n);
    assert BitsOf(IntOf(bits), 8) == bits + Falses(8 - n);
    assert (bits + Falses(8 - n))[..n] == bits;
  }

  /** The length field holds up to 65536 bytes, and no more. */
  lemma LengthField(n: nat)
    requires n > 0
    ensures (n - 1) % 256 + 256 * ((n - 1) / 256 % 256) + 1 == n <==> n <= 65536
  {
  }

  /** The command for whole bytes is taken apart as it was put together exactly when the length fits. */
  lemma BytesTakenApart(bits: seq<bool>)
    requires |bits| > 0 && |bits| % 8 == 0
    ensures IsCmd(ByteBytes(bits)) <==> |bits| / 8 <= 65536
    ensures FirstCmd(ByteBytes(bits)) == DataCmd(bits)
  {
    var bytes := BytesOf(bits, false, true);
    ChunkCount(Reversed(bits));
    LengthField(|bytes|);
    BytesRoundTrip(bits, false, true);
    assert ByteBytes(bits)[3..] == bytes;
  }

  /** The data commands for some bits: whole bytes, and what is left. */
  function DataCmds(bits: seq<bool>): seq<Cmd> {
    var pos := |bits| / 8 * 8;
    (if pos > 0 then [DataCmd(bits[..pos])] else []) + (if pos < |bits| then [DataCmd(bits[pos..])] else [])
  }

  /** The bytes that are written for some bits. */
  function DataBytes(bits: seq<bool>): seq<nat> {
    var pos := |bits| / 8 * 8;
    (if pos > 0 then ByteBytes(bits[..pos]) else []) + (if pos < |bits| then BitBytes(bits[pos..]) else [])
  }

  function PinTicks(bits: seq<bool>, pin: bool): (r: seq<Tick>)
    ensures |r| == |bits|
  {
    seq(|bits|, k requires 0 <= k < |bits| => Tick(pin, bits[k]))
  }

  /** Cutting bits into bytes and a rest clocks them all, in order. */
  lemma DataTicks(bits: seq<bool>, pin: bool)
    ensures AllTicks(DataCmds(bits), pin) == PinTicks(bits, pin)
    ensures AllPin(DataCmds(bits), pin) == pin
  {
    var pos := |bits| / 8 * 8;
    OneCmdTicks(DataCmd(bits[..pos]), pin);
    OneCmdTicks(DataCmd(bits[pos..]), pin);
    TicksInTurn([DataCmd(bits[..pos])], [DataCmd(bits[pos..])], pin);
    assert PinTicks(bits[..pos], pin) + PinTicks(bits[pos..], pin) == PinTicks(bits, pin);
    if pos == 0 {
      assert bits[pos..] == bits && bits[..pos] == [];
    } else if pos == |bits| {
      assert bits[..pos] == bits;
    }
  }

  lemma OneCmdTicks(c: Cmd, pin: bool)
    ensures AllTicks([c], pin) == CmdTicks(c, pin) && AllPin([c], pin) == PinAfter(c, pin)
  {
    assert [c][1..] == [];
  }

  /** ----- the transport ----- */

  class JtagController {
    var last: Option<bool>
    var writeBuff: seq<nat>
    var sent: seq<nat>

    constructor ()
      ensures Valid() && Commands() == [] && last == None
    {
      last, writeBuff, sent := None, [], [];
    }

    /** Neither what was sent nor what is still in the buffer ends within a command. */
    ghost predicate Valid()
      reads this
    {
      Parsed(sent).Some? && Parsed(writeBuff).Some?
    }

    /** All bytes written, sent or not. */
    ghost function Stream(): seq<nat>
      reads this
    {
      sent + writeBuff
    }

    /** All commands written, sent or not. */
    ghost function Commands(): seq<Cmd>
      requires Valid()
      reads this
    {
      Parsed(sent).value + Parsed(writeBuff).value
    }

    method Sync()
      modifies this`writeBuff, this`sent
      ensures writeBuff == [] && Stream() == old(Stream())
      ensures old(Valid()) ==> Valid() && Commands() == old(Commands())
    {
      if writeBuff != [] {
        if Valid() {
          ParsedInTurn(sent, writeBuff);
        }
        sent := sent + writeBuff;
        writeBuff := [];
      }
    }

    /** A command goes into the buffer whole, after what would make it too long has been sent. */
    method StackCmd(cmd: seq<nat>)
      modifies this`writeBuff, this`sent
      ensures Stream() == old(Stream()) + cmd
      ensures old(Valid()) && IsCmd(cmd) ==> Valid() && Commands() == old(Commands()) + [FirstCmd(cmd)]
      ensures if |old(writeBuff)| + |cmd| < 511 then sent == old(sent) else writeBuff == cmd
    {
      hide Parsed, FirstCmd;
      if |writeBuff| + |cmd| + 1 >= FTDI_PIPE_LEN {
        Sync();
        assert writeBuff + cmd == cmd;
      }
      if Valid() && IsCmd(cmd) {
        OneParsed(cmd);
        ParsedInTurn(writeBuff, cmd);
        assert Commands() + [FirstCmd(cmd)] == Parsed(sent).value + (Parsed(writeBuff).value + [FirstCmd(cmd)]);
      }
      assert sent + (writeBuff + cmd) == Stream() + cmd;
      writeBuff := writeBuff + cmd;
    }

    method WriteTms(tms: seq<bool>) returns (ok: bool)
      requires Valid()
      modifies this
      ensures Valid() && (ok <==> |tms| < 8)
      ensures tms == [] || !ok ==> last == old(last) && Commands() == old(Commands())
      ensures tms != [] && ok ==>
        && last == None && writeBuff == []
        && Commands() == old(Commands()) + [TmsCmd(tms, old(last) == Some(true))]
    {
      if |tms| == 0 {
        return true;
      }
      if |tms| >= 8 {
        return false;
      }
      TmsTakenApart(tms, last);
      var out := new BitSequence();
      out.bits := tms + Falses(8 - |tms|);
      out.bits := out.bits[7 := last == Some(true)];
      assert out.bits == tms + Falses(7 - |tms|) + [last == Some(true)];
      last := None;
      var byte := out.ToByte(false);
      StackCmd([WRITE_BITS_TMS_NVE, |tms| - 1, byte.value]);
      Sync();
      ok := true;
    }

    /** With nothing to hold back this fails before anything is written.  The bytes are those of
        data commands, whole ones unless the length of one of them does not fit. */
    method Write(out: seq<bool>, useLast: bool) returns (ok: bool)
      modifies this
      ensures ok <==> !useLast || out != []
      ensures !ok ==> last == old(last) && sent == old(sent) && writeBuff == old(writeBuff)
      ensures ok ==>
        var bits := if useLast then out[..|out| - 1] else out;
        && last == (if useLast then Some(out[|out| - 1]) else old(last))
        && Stream() == old(Stream()) + DataBytes(bits)
        && (old(Valid()) && |bits| / 8 <= 65536 ==> Valid() && Commands() == old(Commands()) + DataCmds(bits))
    {
      hide Parsed, ByteBytes, BitBytes, FirstCmd, IsCmd;
      var bits := out;
      if useLast {
        if out == [] {
          return false;
        }
        bits, last := out[..|out| - 1], Some(out[|out| - 1]);
      }
      ghost var was := if Valid() then Commands() else [];
      ghost var stream := Stream();
      var byteCount := |bits| / 8;
      var pos := 8 * byteCount;
      var bitCount := |bits| - pos;
      if byteCount > 0 {
        WriteBytes(bits[..pos]);
      }
      if bitCount > 0 {
        WriteBits(bits[pos..]);
      }
      assert pos == |bits| / 8 * 8;
      assert Stream() == stream + DataBytes(bits);
      assert old(Valid()) && byteCount <= 65536 ==> Commands() == was + DataCmds(bits);
      ok := true;
    }

    method WriteBits(bits: seq<bool>)
      requires 0 < |bits| <= 8
      modifies this`writeBuff, this`sent
      ensures Stream() == old(Stream()) + BitBytes(bits)
      ensures old(Valid()) ==> Valid() && Commands() == old(Commands()) + [DataCmd(bits)]
    {
      hide Parsed, FirstCmd, IsCmd;
      BitsTakenApart(bits);
      var out := new BitSequence();
      out.bits := bits;
      var byte := out.ToByte(false);
      StackCmd([WRITE_BITS_NVE_LSB, |bits| - 1, byte.value]);
    }

    method WriteBytes(bits: seq<bool>)
      requires |bits| > 0 && |bits| % 8 == 0
      modifies this`writeBuff, this`sent
      ensures Stream() == old(Stream()) + ByteBytes(bits)
      ensures old(Valid()) && |bits| / 8 <= 65536 ==> Valid() && Commands() == old(Commands()) + [DataCmd(bits)]
    {
      hide Parsed, BytesOf, FirstCmd, IsCmd;
      BytesTakenApart(bits);
      ChunkCount(Reversed(bits));
      var out := new BitSequence();
      out.bits := bits;
      var bytes := out.ToBytes(false, true);
      var olen := |bytes| - 1;
      StackCmd([WRITE_BYTES_NVE_LSB, olen % 256, olen / 256 % 256] + bytes);
    }
  }

  /** ----- the bytes themselves ----- */

  /** The reset of the state machine as the device gets it, without and with a deferred bit. */
  lemma ResetBytes()
    ensures TmsBytes([true, true, true, true, true], None) == [0x4b, 4, 0x1f]
    ensures TmsBytes([true, true, true, true, true], Some(true)) == [0x4b, 4, 0x9f]
  {
    var ones := [true, true, true, true, true];
    var low, high := ones + Falses(2) + [false], ones + Falses(2) + [true];
    assert low == [true, true, true, true, true, false, false, false];
    assert high == [true, true, true, true, true, false, false, true];
    EightBits(low);
    EightBits(high);
  }

  lemma EightBits(bits: seq<bool>)
    requires |bits| == 8
    ensures IntOf(bits) == Bit(bits[0]) + 2 * Bit(bits[1]) + 4 * Bit(bits[2]) + 8 * Bit(bits[3])
      + 16 * Bit(bits[4]) + 32 * Bit(bits[5]) + 64 * Bit(bits[6]) + 128 * Bit(bits[7])
  {
    hide Bit, IntOf, Pow2;
    var low, high := bits[..4], bits[4..];
    FourBits(low);
    FourBits(high);
    IntOfSum(low, high);
    assert low + high == bits;
    Sixteen();
  }

  lemma Sixteen()
    ensures Pow2(4) == 16
  {
  }

  lemma FourBits(bits: seq<bool>)
    requires |bits| == 4
    ensures IntOf(bits) == Bit(bits[0]) + 2 * Bit(bits[1]) + 4 * Bit(bits[2]) + 8 * Bit(bits[3])
  {
    hide Bit;
    assert bits[1..][1..] == bits[2..] && bits[2..][1..] == bits[3..] && bits[3..][1..] == [];
    assert IntOf(bits[3..]) == Bit(bits[3]);
    assert IntOf(bits[2..]) == Bit(bits[2]) + 2 * IntOf(bits[3..]);
    assert IntOf(bits[1..]) == Bit(bits[1]) + 2 * IntOf(bits[2..]);
  }

  /** Three bits, and the first command byte of whole bytes with their number less one. */
  lemma DataBytesAre(bits: seq<bool>)
    requires |bits| > 0 && |bits| % 8 == 0
    ensures BitBytes([true, false, true]) == [0x1b, 2, 5]
    ensures |ByteBytes(bits)| == 3 + |bits| / 8 && ByteBytes(bits)[0] == 0x19
    ensures |bits| / 8 <= 65536 ==> ByteBytes(bits)[1] + 256 * ByteBytes(bits)[2] == |bits| / 8 - 1
  {
    ChunkCount(Reversed(bits));
    var three := [true, false, true];
    assert three[1..] == [false, true] && [false, true][1..] == [true] && [true][1..] == [];
    assert IntOf([true]) == 1;
  }
}
