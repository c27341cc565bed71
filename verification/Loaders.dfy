/**
  Loading a binary: every complete little-endian word of a file goes to its
  address, whether the debugger pushes instructions or writes to the system bus.
 */
module Loaders {
  import opened Basics
  import opened Arithmetic
  import opened RiscV
  import opened Murax
  import opened Pulp

  /** The i-th word of a file. */
  function WordAt(data: seq<byte>, i: nat): nat
    requires 4 * i + 4 <= |data|
  {
    data[4 * i] as int + 256 * data[4 * i + 1] as int + 0x1_0000 * data[4 * i + 2] as int + 0x100_0000 * data[4 * i + 3] as int
  }

  /** The bytes of a memory are those of the first n words of a file, from an address on, and others are as before. */
  ghost predicate LoadedUpTo(was: Memory, mem: Memory, data: seq<byte>, start: int, n: nat) {
    forall b: int {:trigger Byte(mem, b)} ::
      Byte(mem, b) == if Offset(start, b) < 4 * n <= |data| then data[Offset(start, b)] else Byte(was, b)
  }

  lemma WordBytes(data: seq<byte>, i: nat, k: nat)
    requires 4 * i + 4 <= |data| && k < 4
    ensures WordAt(data, i) < W && ByteOf(WordAt(data, i), k) == data[4 * i + k]
  {
    var w := WordAt(data, i);
    var w1 := data[4 * i + 1] as int + 256 * data[4 * i + 2] as int + 0x1_0000 * data[4 * i + 3] as int;
    var w2 := data[4 * i + 2] as int + 256 * data[4 * i + 3] as int;
    assert w / 256 == w1 && w1 / 256 == w2 && w2 / 256 == data[4 * i + 3];
    if k == 1 {
      assert ByteOf(w, 1) == ByteOf(w1, 0);
    } else if k == 2 {
      assert ByteOf(w, 2) == ByteOf(w1, 1) == ByteOf(w2, 0);
    } else if k == 3 {
      assert ByteOf(w, 3) == ByteOf(w1, 2) == ByteOf(w2, 1) == ByteOf(data[4 * i + 3], 0);
    }
  }

  lemma OffsetsAdd(start: int, n: nat, b: int)
    requires n < W
    ensures Offset(start + n, b) == if Offset(start, b) >= n then Offset(start, b) - n else Offset(start, b) - n + W
  {
    SumWraps(b - start, 0 - n as int);
    SmallRemainder(if Offset(start, b) >= n then Offset(start, b) - n else Offset(start, b) - n + W, W);
  }

  lemma OneMoreWord(was: Memory, mem: Memory, data: seq<byte>, start: int, n: nat)
    requires LoadedUpTo(was, mem, data, start, n) && 4 * n + 4 <= |data| <= W
    ensures LoadedUpTo(was, Stored(mem, (start + n * 4) % W, WordAt(data, n) % W, 4), data, start, n + 1)
  {
    var word := WordAt(data, n);
    var after := Stored(mem, (start + n * 4) % W, word % W, 4);
    WordBytes(data, n, 0);
    forall b: int
      ensures Byte(after, b) == if Offset(start, b) < 4 * n + 4 then data[Offset(start, b)] else Byte(was, b)
    {
      StoredByte(mem, (start + n * 4) % W, word % W, 4, b);
      SumWraps(b - (start + n * 4), 0);
      SameOffset(start + n * 4, b);
      OffsetsAdd(start, n * 4, b);
      var k := Offset(start + n * 4, b);
      if k < 4 {
        WordBytes(data, n, k);
      }
    }
  }

  lemma SameOffset(a: int, b: int)
    ensures Offset(a % W, b) == Offset(a, b)
  {
    assert a == W * (a / W) + a % W;
    ShiftByMultiple(b - a, a / W, W);
  }

  method LoadBinaryMurax(ocd: MuraxOCD, data: seq<byte>, startadr: int)
    requires ocd.Valid() && ocd.lastwradr.None? && |data| <= W
    modifies ocd
    ensures LoadedUpTo(old(ocd.hart.mem), ocd.hart.mem, data, startadr, |data| / 4)
  {
    for i := 0 to |data| / 4
      invariant ocd.Valid() && ocd.lastwradr.None?
      invariant LoadedUpTo(old(ocd.hart.mem), ocd.hart.mem, data, startadr, i)
    {
      OneMoreWord(old(ocd.hart.mem), ocd.hart.mem, data, startadr, i);
      ocd.WriteMem(startadr + i * 4, WordAt(data, i));
    }
  }

  method LoadBinaryPulp(ocd: PulpOCD, data: seq<byte>, startadr: int)
    requires ocd.Synced() && |data| <= W
    modifies ocd
    ensures ocd.Synced() && LoadedUpTo(old(ocd.dm.mem), ocd.dm.mem, data, startadr, |data| / 4)
  {
    for i := 0 to |data| / 4
      invariant ocd.Synced()
      invariant LoadedUpTo(old(ocd.dm.mem), ocd.dm.mem, data, startadr, i)
    {
      OneMoreWord(old(ocd.dm.mem), ocd.dm.mem, data, startadr, i);
      ocd.WriteBus(startadr + i * 4, WordAt(data, i));
    }
  }
}
