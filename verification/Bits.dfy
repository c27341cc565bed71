/**
  Bit sequences: the least significant bit comes first. Integers and bytes are
  made of them and turned back into them.
 */
module Bits {
  import opened Basics
  import opened Arithmetic

  function Bit(b: bool): nat {
    if b then 1 else 0
  }

  function Pow2(n: nat): (r: nat)
    ensures r > 0
  {
    if n == 0 then 1 else 2 * Pow2(n - 1)
  }

  /** The number that a sequence stands for, least significant bit first. */
  function IntOf(bits: seq<bool>): nat {
    if bits == [] then 0 else Bit(bits[0]) + 2 * IntOf(bits[1..])
  }

  /** The number with the most significant bit first. */
  function BigOf(bits: seq<bool>): nat {
    if bits == [] then 0 else 2 * BigOf(bits[..|bits| - 1]) + Bit(bits[|bits| - 1])
  }

  /** The n least significant bits of a number. */
  function BitsOf(value: int, n: nat): (r: seq<bool>)
    ensures |r| == n
    decreases n
  {
    if n == 0 then [] else [value % 2 == 1] + BitsOf(value / 2, n - 1)
  }

  function Reversed<T>(s: seq<T>): (r: seq<T>)
    ensures |r| == |s|
    ensures forall k :: 0 <= k < |s| ==> r[k] == s[|s| - 1 - k]
  {
    if |s| == 0 then [] else Reversed(s[1..]) + [s[0]]
  }

  lemma ReversedTwice<T>(s: seq<T>)
    ensures Reversed(Reversed(s)) == s
  {
  }

  lemma ReversedSum<T>(a: seq<T>, b: seq<T>)
    ensures Reversed(a + b) == Reversed(b) + Reversed(a)
  {
  }

  /** ----- numbers ----- */

  lemma {:induction false} IntFits(bits: seq<bool>)
    ensures IntOf(bits) < Pow2(|bits|)
  {
    if bits != [] {
      IntFits(bits[1..]);
    }
  }

  lemma {:induction false} IntOfSum(a: seq<bool>, b: seq<bool>)
    ensures IntOf(a + b) == IntOf(a) + Pow2(|a|) * IntOf(b)
  {
    if a == [] {
      assert a + b == b;
    } else {
      assert (a + b)[1..] == a[1..] + b && (a + b)[0] == a[0];
      IntOfSum(a[1..], b);
    }
  }

  /** A sequence of bits is what its number is made of. */
  lemma {:induction false} BitsOfInt(bits: seq<bool>)
    ensures BitsOf(IntOf(bits), |bits|) == bits
  {
    if bits != [] {
      BitsOfInt(bits[1..]);
      assert IntOf(bits) / 2 == IntOf(bits[1..]);
    }
  }

  /** The number made of the bits of a number is that number, modulo what fits. */
  lemma {:induction false} IntOfBits(value: int, n: nat)
    ensures IntOf(BitsOf(value, n)) == value % Pow2(n)
    decreases n
  {
    if n > 0 {
      IntOfBits(value / 2, n - 1);
      var bits := BitsOf(value, n);
      assert bits[1..] == BitsOf(value / 2, n - 1);
      HalfRemainder(value, Pow2(n - 1));
    } else {
      assert Pow2(0) == 1;
    }
  }

  lemma HalfRemainder(value: int, p: nat)
    requires p > 0
    ensures value % (2 * p) == value % 2 + 2 * ((value / 2) % p)
  {
    var h := value / 2;
    var q, r := h / p, h % p;
    assert h == p * q + r;
    assert value == (2 * p) * q + (value % 2 + 2 * r);
    Remainder(value, 2 * p, q, value % 2 + 2 * r);
  }

  lemma OneMoreLow(s: seq<bool>, k: nat)
    requires k < |s|
    ensures IntOf(s[k..]) == Bit(s[k]) + 2 * IntOf(s[k + 1..])
  {
    assert s[k..][1..] == s[k + 1..];
  }

  lemma OneMoreBig(s: seq<bool>, k: nat)
    requires k < |s|
    ensures BigOf(s[..k + 1]) == 2 * BigOf(s[..k]) + Bit(s[k])
  {
    assert s[..k + 1][..k] == s[..k];
  }

  lemma {:induction false} BigOfReversed(bits: seq<bool>)
    ensures BigOf(Reversed(bits)) == IntOf(bits)
  {
    if bits != [] {
      BigOfReversed(bits[1..]);
      assert Reversed(bits)[..|bits| - 1] == Reversed(bits[1..]);
    }
  }

  /** ----- bytes ----- */

  /** Eight bits to a byte, each byte with its most significant bit first. */
  function Chunked(s: seq<bool>): (r: seq<nat>) {
    if s == [] then [] else if |s| <= 8 then [BigOf(s)] else [BigOf(s[..8])] + Chunked(s[8..])
  }

  function BytesOf(bits: seq<bool>, msb: bool, msby: bool): seq<nat> {
    var bytes := Chunked(if msb then bits else Reversed(bits));
    if msby then Reversed(bytes) else bytes
  }

  function ByteBits(byte: nat, msb: bool): (r: seq<bool>)
    ensures |r| == 8
  {
    if msb then Reversed(BitsOf(byte, 8)) else BitsOf(byte, 8)
  }

  function Joined(bytes: seq<nat>, msb: bool): (r: seq<bool>)
    ensures |r| == 8 * |bytes|
  {
    if bytes == [] then [] else ByteBits(bytes[0], msb) + Joined(bytes[1..], msb)
  }

  function FromBytes(bytes: seq<nat>, msb: bool, msby: bool): (r: seq<bool>)
    ensures |r| == 8 * |bytes|
  {
    Joined(if msby then bytes else Reversed(bytes), msb)
  }

  lemma {:induction false} JoinedSum(a: seq<nat>, b: seq<nat>, msb: bool)
    ensures Joined(a + b, msb) == Joined(a, msb) + Joined(b, msb)
  {
    if a == [] {
      assert a + b == b;
    } else {
      assert (a + b)[1..] == a[1..] + b && (a + b)[0] == a[0];
      JoinedSum(a[1..], b, msb);
    }
  }

  lemma NoBytes(msb: bool)
    ensures Joined([], msb) == []
  {
  }

  lemma OneMoreByte(bytes: seq<nat>, k: nat, msb: bool)
    requires k < |bytes|
    ensures Joined(bytes[..k + 1], msb) == Joined(bytes[..k], msb) + ByteBits(bytes[k], msb)
  {
    assert bytes[..k + 1] == bytes[..k] + [bytes[k]];
    JoinedSum(bytes[..k], [bytes[k]], msb);
    assert Joined([bytes[k]], msb) == ByteBits(bytes[k], msb) + Joined([], msb);
  }

  lemma {:induction false} JoinedReversed(bytes: seq<nat>)
    ensures Joined(Reversed(bytes), false) == Reversed(Joined(bytes, true))
  {
    if bytes != [] {
      JoinedReversed(bytes[1..]);
      JoinedSum(Reversed(bytes[1..]), [bytes[0]], false);
      ReversedSum(ByteBits(bytes[0], true), Joined(bytes[1..], true));
      ReversedTwice(BitsOf(bytes[0], 8));
      assert Joined([bytes[0]], false) == ByteBits(bytes[0], false);
    }
  }

  lemma {:induction false} ChunksJoined(s: seq<bool>)
    requires |s| % 8 == 0
    ensures Joined(Chunked(s), true) == s
  {
    if s != [] {
      var c := s[..8];
      assert s == c + s[8..];
      BigOfReversed(Reversed(c));
      ReversedTwice(c);
      BitsOfInt(Reversed(c));
      ChunksJoined(s[8..]);
      if |s| == 8 {
        assert s == c && Chunked(s) == [BigOf(c)];
        assert Joined(Chunked(s), true) == ByteBits(BigOf(c), true) + Joined([], true);
      } else {
        assert Chunked(s) == [BigOf(c)] + Chunked(s[8..]);
        assert Chunked(s)[1..] == Chunked(s[8..]);
      }
    }
  }

  function ChunkedFrom(s: seq<bool>, pos: nat): seq<nat> {
    if pos < |s| then Chunked(s[pos..]) else []
  }

  function ChunkAt(s: seq<bool>, pos: nat): seq<bool>
    requires pos < |s|
  {
    if pos + 8 <= |s| then s[pos..pos + 8] else s[pos..]
  }

  lemma AllChunks(s: seq<bool>)
    ensures ChunkedFrom(s, 0) == Chunked(s)
  {
    assert s[0..] == s;
  }

  lemma NextChunk(s: seq<bool>, pos: nat)
    requires pos < |s|
    ensures ChunkedFrom(s, pos) == [BigOf(ChunkAt(s, pos))] + ChunkedFrom(s, pos + 8)
  {
    var rest := s[pos..];
    if |rest| > 8 {
      assert rest[..8] == ChunkAt(s, pos) && rest[8..] == s[pos + 8..];
    } else {
      assert rest == ChunkAt(s, pos);
    }
  }

  lemma {:induction false} ChunkCount(s: seq<bool>)
    ensures |Chunked(s)| == (|s| + 7) / 8
  {
    if |s| > 8 {
      ChunkCount(s[8..]);
    }
  }

  /**
    The bytes of a sequence turn back into it exactly when it fills them. With
    the most significant bits first the byte order has to be turned round.
   */
  lemma BytesRoundTrip(bits: seq<bool>, msb: bool, msby: bool)
    ensures FromBytes(BytesOf(bits, msb, msby), msb, msb != msby) == bits <==> |bits| % 8 == 0
  {
    var s := if msb then bits else Reversed(bits);
    var bytes := Chunked(s);
    ChunkCount(s);
    if |bits| % 8 == 0 {
      ChunksJoined(s);
      ReversedTwice(bytes);
      ReversedTwice(bits);
      JoinedReversed(bytes);
    }
  }

  /** ----- arithmetic on the bits ----- */

  /** Counting up or down: the bits up to the first one that takes no carry are turned over. */
  function Counted(bits: seq<bool>, up: bool): (r: seq<bool>)
    ensures |r| == |bits|
  {
    if bits == [] then [] else if bits[0] != up then [up] + bits[1..] else [!up] + Counted(bits[1..], up)
  }

  /** It adds or takes away one, and wraps round at the number of bits. */
  lemma {:induction false} CountedInt(bits: seq<bool>, up: bool)
    ensures up ==> IntOf(Counted(bits, up)) == if IntOf(bits) == Pow2(|bits|) - 1 then 0 else IntOf(bits) + 1
    ensures !up ==> IntOf(Counted(bits, up)) == if IntOf(bits) == 0 then Pow2(|bits|) - 1 else IntOf(bits) - 1
  {
    if bits != [] {
      IntFits(bits[1..]);
      if bits[0] == up {
        CountedInt(bits[1..], up);
        assert Counted(bits, up)[1..] == Counted(bits[1..], up);
      } else {
        assert Counted(bits, up)[1..] == bits[1..];
      }
    }
  }

  /** Up and down undo each other. */
  lemma {:induction false} CountedBack(bits: seq<bool>, up: bool)
    ensures Counted(Counted(bits, up), !up) == bits
  {
    if bits != [] {
      CountedBack(bits[1..], up);
      assert Counted(bits, up)[1..] == if bits[0] == up then Counted(bits[1..], up) else bits[1..];
    }
  }

  function Falses(n: nat): (r: seq<bool>)
    ensures |r| == n && Reversed(r) == r
    ensures forall k :: 0 <= k < n ==> !r[k]
  {
    seq(n, _ => false)
  }

  lemma {:induction false} FalsesAreZero(n: nat)
    ensures IntOf(Falses(n)) == 0
  {
    if n > 0 {
      FalsesAreZero(n - 1);
      assert Falses(n)[1..] == Falses(n - 1);
    }
  }

  /** What is left of a number after n bits. */
  function Halved(value: int, n: nat): int
    decreases n
  {
    if n == 0 then value else Halved(value / 2, n - 1)
  }

  lemma {:induction false} OneMoreBit(value: int, n: nat)
    ensures BitsOf(value, n + 1) == BitsOf(value, n) + [Halved(value, n) % 2 == 1]
    ensures Halved(value, n + 1) == Halved(value, n) / 2
    decreases n
  {
    if n > 0 {
      OneMoreBit(value / 2, n - 1);
    } else {
      assert BitsOf(value, 1) == [value % 2 == 1] + BitsOf(value / 2, 0);
      assert Halved(value, 1) == Halved(value / 2, 0);
    }
  }

  lemma {:induction false} BitsAndRest(value: int, n: nat)
    ensures value == IntOf(BitsOf(value, n)) + Pow2(n) * Halved(value, n)
    decreases n
  {
    if n > 0 {
      BitsAndRest(value / 2, n - 1);
      assert BitsOf(value, n)[1..] == BitsOf(value / 2, n - 1);
      assert 2 * (Pow2(n - 1) * Halved(value / 2, n - 1)) == Pow2(n) * Halved(value, n);
    }
  }

  lemma {:induction false} OnlyZeros(value: int, n: nat, k: nat)
    requires Halved(value, n) == 0
    ensures BitsOf(value, n + k) == BitsOf(value, n) + Falses(k)
  {
    if k > 0 {
      OnlyZeros(value, n, k - 1);
      OneMoreBit(value, n + k - 1);
      StaysZero(value, n, k - 1);
    }
  }

  lemma {:induction false} StaysZero(value: int, n: nat, k: nat)
    requires Halved(value, n) == 0
    ensures Halved(value, n + k) == 0
  {
    if k > 0 {
      StaysZero(value, n, k - 1);
      OneMoreBit(value, n + k - 1);
    }
  }

  lemma FilledOut(value: int, n: nat, length: nat)
    requires n <= length && (n < length ==> Halved(value, n) == 0)
    ensures BitsOf(value, length) == BitsOf(value, n) + Falses(length - n)
    ensures Reversed(BitsOf(value, length)) == Falses(length - n) + Reversed(BitsOf(value, n))
  {
    if n < length {
      OnlyZeros(value, n, length - n);
    }
    ReversedSum(BitsOf(value, n), Falses(length - n));
  }

  /** The first p bits are those of the result, and the rest is still to be done. */
  ghost predicate CountedUpTo(was: seq<bool>, now: seq<bool>, p: nat, up: bool) {
    p <= |was| == |now| && now[p..] == was[p..] && Counted(was, up) == now[..p] + Counted(was[p..], up)
  }

  lemma CountedFirst(bits: seq<bool>, up: bool)
    requires bits != []
    ensures Counted(bits, up) == if bits[0] != up then [up] + bits[1..] else [!up] + Counted(bits[1..], up)
  {
  }

  lemma CountedStep(was: seq<bool>, now: seq<bool>, p: nat, up: bool)
    requires p < |was| && CountedUpTo(was, now, p, up)
    ensures
      var next := now[p := !now[p]];
      if next[p] == up then next == Counted(was, up) else CountedUpTo(was, next, p + 1, up)
  {
    hide Counted;
    var next := now[p := !now[p]];
    SetAt(now, p, !now[p]);
    CountedFirst(was[p..], up);
    assert now[p] == now[p..][0] == was[p..][0];
    assert was[p..][1..] == was[p + 1..] && now[p..][1..] == now[p + 1..];
    if next[p] == up {
      assert next == now[..p] + ([up] + was[p + 1..]);
    } else {
      assert next[..p + 1] + Counted(was[p + 1..], up) == now[..p] + ([!up] + Counted(was[p + 1..], up));
    }
  }

  lemma SetAt(s: seq<bool>, p: nat, b: bool)
    requires p < |s|
    ensures var t := s[p := b];
      t == s[..p] + [b] + s[p + 1..] && t[..p + 1] == s[..p] + [b] && t[p + 1..] == s[p + 1..] && t[..p] == s[..p]
  {
  }

  /** A sequence of bits whose methods change it in place. */
  class BitSequence {
    var bits: seq<bool>

    constructor ()
      ensures bits == []
    {
      bits := [];
    }

    /** The bits of a number up to the last one set, or up to the length; none of the number is 0 as well when that is not 0. */
    method AppendInteger(value: int, length: nat)
      requires bits == [] && (length > 0 || value >= 0)
      modifies this
      ensures bits != [] && bits == BitsOf(value, |bits|)
      ensures length > 0 ==> |bits| <= length && (|bits| < length ==> Halved(value, |bits|) == 0)
      ensures length == 0 ==> Halved(value, |bits|) == 0 && (|bits| > 1 ==> bits[|bits| - 1])
    {
      var bl: int := if length == 0 then -1 else length;
      var rest := value;
      while bl != 0
        invariant bl == (if length == 0 then -1 else length) - |bits|
        invariant bl < 0 <==> length == 0
        invariant bits == BitsOf(value, |bits|) && rest == Halved(value, |bits|)
        invariant rest != 0 || bits == []
        invariant length == 0 ==> rest >= 0
        decreases if bl < 0 then rest else bl
      {
        OneMoreBit(value, |bits|);
        bits := bits + [rest % 2 == 1];
        rest := rest / 2;
        if rest == 0 {
          break;
        }
        bl := bl - 1;
      }
    }

    method UpdateLength(length: nat, msb: bool)
      modifies this
      ensures bits ==
        if |old(bits)| >= length then old(bits)
        else if msb then Falses(length - |old(bits)|) + old(bits)
        else old(bits) + Falses(length - |old(bits)|)
    {
      if length != 0 && |bits| < length {
        var extra := Falses(length - |bits|);
        bits := if msb then extra + bits else bits + extra;
      }
    }

    /**
      With a length: the bits of the number, cut or filled to that length. With
      none: as few bits as hold the number, and at least one.
     */
    method InitFromInteger(value: int, msb: bool, length: nat)
      requires bits == [] && (length > 0 || value >= 0)
      modifies this
      ensures length > 0 ==> bits == if msb then Reversed(BitsOf(value, length)) else BitsOf(value, length)
      ensures length == 0 ==>
        var low := if msb then Reversed(bits) else bits;
        IntOf(low) == value && low != [] && (|low| > 1 ==> low[|low| - 1])
    {
      AppendInteger(value, length);
      if length > 0 {
        FilledOut(value, |bits|, length);
      } else {
        BitsAndRest(value, |bits|);
        ReversedTwice(bits);
      }
      if msb {
        bits := Reversed(bits);
      }
      UpdateLength(length, msb);
    }
  
    /** Eight bits for each byte; a larger value is refused. */
    method InitFromBytes(bytes: seq<nat>, msb: bool, msby: bool) returns (ok: bool)
      requires bits == []
      modifies this
      ensures ok <==> forall k :: 0 <= k < |bytes| ==> bytes[k] < 256
      ensures ok ==> bits == FromBytes(bytes, msb, msby)
    {
      hide Joined, ByteBits;
      var provider := if msby then bytes else Reversed(bytes);
      NoBytes(msb);
      assert provider[..0] == [];
      for k := 0 to |provider|
        invariant bits == Joined(provider[..k], msb)
        invariant forall j :: 0 <= j < k ==> provider[j] < 256
      {
        if provider[k] > 255 {
          assert provider[k] == bytes[if msby then k else |bytes| - 1 - k];
          return false;
        }
        var b := EightBits(provider[k], msb);
        OneMoreByte(provider, k, msb);
        bits := bits + b;
      }
      assert provider[..|provider|] == provider;
      assert forall j :: 0 <= j < |bytes| ==> bytes[j] == provider[if msby then j else |bytes| - 1 - j];
      ok := true;
    }

    /** The bits of a byte, in either order. */
    static method EightBits(value: nat, msb: bool) returns (b: seq<bool>)
      ensures b == ByteBits(value, msb)
    {
      var byte := value;
      b := [];
      for x := 0 to 8
        invariant b == BitsOf(value, x) && byte == Halved(value, x)
      {
        OneMoreBit(value, x);
        b := b + [byte % 2 == 1];
        byte := byte / 2;
      }
      if msb {
        b := Reversed(b);
      }
    }

    /** The number a short sequence stands for: what the bytes of commands are made with. */
    method ToByte(msb: bool) returns (r: Option<nat>)
      ensures r.Some? <==> |bits| <= 8
      ensures r.Some? ==> r.value == IntOf(if msb then Reversed(bits) else bits)
    {
      if |bits| > 8 {
        return None;
      }
      var byte := PopAll(bits, !msb);
      BigOfReversed(Reversed(bits));
      ReversedTwice(bits);
      r := Some(byte);
    }

    /** Shifts all bits of a sequence into a number, popped from its end or from its start. */
    static method PopAll(s: seq<bool>, fromEnd: bool) returns (byte: nat)
      ensures byte == if fromEnd then IntOf(s) else BigOf(s)
    {
      byte := 0;
      var left := s;
      while |left| > 0
        invariant |left| <= |s|
        invariant fromEnd ==> left == s[..|left|] && byte == IntOf(s[|left|..])
        invariant !fromEnd ==> left == s[|s| - |left|..] && byte == BigOf(s[..|s| - |left|])
        decreases |left|
      {
        if fromEnd {
          OneMoreLow(s, |left| - 1);
          byte := 2 * byte + Bit(left[|left| - 1]);
          left := left[..|left| - 1];
        } else {
          OneMoreBig(s, |s| - |left|);
          byte := 2 * byte + Bit(left[0]);
          left := left[1..];
        }
      }
      assert s[..|s|] == s && s[0..] == s;
    }

    method ToBytes(msb: bool, msby: bool) returns (bytes: seq<nat>)
      ensures bytes == BytesOf(bits, msb, msby)
    {
      hide Chunked;
      var sequence := if msb then bits else Reversed(bits);
      var packed := Pack(sequence);
      bytes := if msby then Reversed(packed) else packed;
    }

    /** Eight bits at a time. */
    static method Pack(sequence: seq<bool>) returns (bytes: seq<nat>)
      ensures bytes == Chunked(sequence)
    {
      hide Chunked, BigOf;
      bytes := [];
      var pos := 0;
      assert sequence[0..] == sequence;
      AllChunks(sequence);
      while pos < |sequence|
        invariant Chunked(sequence) == bytes + ChunkedFrom(sequence, pos)
        decreases |sequence| - pos
      {
        NextChunk(sequence, pos);
        var byte := PopAll(ChunkAt(sequence, pos), false);
        bytes := bytes + [byte];
        pos := pos + 8;
      }
    }

    method ToInt() returns (value: nat)
      ensures value == IntOf(bits)
    {
      value := 0;
      var k := |bits|;
      while k > 0
        invariant 0 <= k <= |bits| && value == IntOf(bits[k..])
      {
        k := k - 1;
        OneMoreLow(bits, k);
        value := 2 * value + Bit(bits[k]);
      }
      assert bits[0..] == bits;
    }

    method Append(other: seq<bool>)
      modifies this
      ensures bits == old(bits) + other
      ensures IntOf(bits) == IntOf(old(bits)) + Pow2(|old(bits)|) * IntOf(other)
    {
      IntOfSum(bits, other);
      bits := bits + other;
    }

    /** Counts up, and wraps round. */
    method Inc()
      modifies this
      ensures bits == Counted(old(bits), true) && |bits| == |old(bits)|
      ensures IntOf(bits) == if IntOf(old(bits)) == Pow2(|bits|) - 1 then 0 else IntOf(old(bits)) + 1
    {
      ghost var was := bits;
      CountedInt(was, true);
      assert was[0..] == was;
      for p := 0 to |bits|
        invariant CountedUpTo(was, bits, p, true)
      {
        var b := !bits[p];
        CountedStep(was, bits, p, true);
        bits := bits[p := b];
        if b {
          return;
        }
      }
      assert bits[..|bits|] + [] == bits;
    }

    /** Counts down, and wraps round. */
    method Dec()
      modifies this
      ensures bits == Counted(old(bits), false) && |bits| == |old(bits)|
      ensures IntOf(bits) == if IntOf(old(bits)) == 0 then Pow2(|bits|) - 1 else IntOf(old(bits)) - 1
    {
      ghost var was := bits;
      CountedInt(was, false);
      assert was[0..] == was;
      for p := 0 to |bits|
        invariant CountedUpTo(was, bits, p, false)
      {
        var b := !bits[p];
        CountedStep(was, bits, p, false);
        bits := bits[p := b];
        if !b {
          return;
        }
      }
      assert bits[..|bits|] + [] == bits;
    }
  }
}
