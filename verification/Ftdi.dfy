/**
  Reading from and writing to an FTDI device: answers come in packets that start
  with two status bytes, and what is not asked for yet is kept for later.
 */
module Ftdi {
  import opened Basics

  type Bytes = seq<nat>

  /** What the device answers each time it is read: nothing at all when the bus fails. */
  type Answers = nat -> Option<Bytes>

  /** The payload of an answer: each packet without its first two bytes. */
  function Payload(answer: Bytes, packetSize: nat): Bytes
    requires packetSize > 0
    decreases |answer|
  {
    if |answer| <= packetSize then StatusStripped(answer)
    else StatusStripped(answer[..packetSize]) + Payload(answer[packetSize..], packetSize)
  }

  function StatusStripped(packet: Bytes): Bytes {
    if |packet| <= 2 then [] else packet[2..]
  }

  /** The payload of the answers from one read up to another. */
  function Received(answers: Answers, packetSize: nat, from: nat, till: nat): Bytes
    requires packetSize > 0
    decreases till
  {
    if till <= from then [] else
      Received(answers, packetSize, from, till - 1) + (if answers(till - 1).Some? then Payload(answers(till - 1).value, packetSize) else [])
  }

  lemma NothingReceived(answers: Answers, packetSize: nat, from: nat)
    requires packetSize > 0
    ensures Received(answers, packetSize, from, from) == []
  {
  }

  lemma {:induction false} ReceivedInTurn(answers: Answers, packetSize: nat, from: nat, via: nat, till: nat)
    requires packetSize > 0 && from <= via <= till
    ensures Received(answers, packetSize, from, till) == Received(answers, packetSize, from, via) + Received(answers, packetSize, via, till)
    decreases till
  {
    if via < till {
      ReceivedInTurn(answers, packetSize, from, via, till - 1);
    }
  }

  lemma NoPayload(answer: Bytes, packetSize: nat)
    requires packetSize > 0 && |answer| <= 2
    ensures Payload(answer, packetSize) == []
  {
    if |answer| > packetSize {
      assert |answer[packetSize..]| <= 1;
    }
  }

  /** Packets of no more than two bytes have room for the status alone. */
  lemma {:induction false} PayloadOfSmallPackets(answer: Bytes, packetSize: nat)
    requires 0 < packetSize
    ensures packetSize <= 2 ==> Payload(answer, packetSize) == []
    ensures packetSize > 2 && |answer| > 2 ==> Payload(answer, packetSize) != []
    decreases |answer|
  {
    if |answer| > packetSize {
      PayloadOfSmallPackets(answer[packetSize..], packetSize);
    }
  }

  function Min(a: int, b: int): int {
    if a <= b then a else b
  }

  /** What Python's slices take when they reach beyond the end. */
  function Slice(s: Bytes, from: nat, to: int): Bytes {
    if from <= to && from <= |s| then s[from..Min(to, |s|)] else []
  }

  /** Where packet k starts. */
  function PacketStart(packetSize: nat, k: nat): nat {
    k * packetSize
  }

  lemma NextStart(packetSize: nat, k: nat)
    ensures PacketStart(packetSize, k + 1) == PacketStart(packetSize, k) + packetSize
    ensures PacketStart(packetSize, 0) == 0
  {
  }

  /** The first k packets of an answer, stripped. */
  function PayloadTo(answer: Bytes, packetSize: nat, k: nat): Bytes
    requires packetSize > 0
  {
    if k == 0 then [] else
      var from := PacketStart(packetSize, k - 1);
      PayloadTo(answer, packetSize, k - 1) + Slice(answer, 2 + from, 2 + from + packetSize - 2)
  }

  /** Cutting an answer at every packet's length, and skipping two bytes each time, strips all of it. */
  lemma {:induction false} PayloadInChunks(answer: Bytes, packetSize: nat, k: nat)
    requires packetSize > 0 && PacketStart(packetSize, k) <= |answer|
    ensures Payload(answer, packetSize) == PayloadTo(answer, packetSize, k) + Payload(answer[PacketStart(packetSize, k)..], packetSize)
  {
    hide PacketStart, Payload, Slice;
    if k == 0 {
      NextStart(packetSize, 0);
      assert answer[0..] == answer;
    } else {
      NextStart(packetSize, k - 1);
      PayloadToNext(answer, packetSize, k - 1);
      PayloadInChunks(answer, packetSize, k - 1);
      FirstPacket(answer, packetSize, PacketStart(packetSize, k - 1));
    }
  }

  lemma FirstPacket(answer: Bytes, packetSize: nat, from: nat)
    requires packetSize > 0 && from + packetSize <= |answer|
    ensures Payload(answer[from..], packetSize) == Slice(answer, 2 + from, 2 + from + packetSize - 2) + Payload(answer[from + packetSize..], packetSize)
  {
    var rest := answer[from..];
    assert Slice(answer, 2 + from, from + packetSize) == StatusStripped(rest[..packetSize]);
    if |rest| > packetSize {
      assert rest[packetSize..] == answer[from + packetSize..];
    } else {
      assert rest[..packetSize] == rest && answer[from + packetSize..] == [];
    }
  }

  /** One more chunk takes what is left, when that is no more than a packet. */
  lemma PayloadToNext(answer: Bytes, packetSize: nat, k: nat)
    requires packetSize > 0
    ensures var from := PacketStart(packetSize, k);
      PayloadTo(answer, packetSize, k + 1) == PayloadTo(answer, packetSize, k) + Slice(answer, 2 + from, 2 + from + packetSize - 2)
  {
    hide PacketStart, Slice;
  }

  lemma NothingStripped(answer: Bytes, packetSize: nat)
    requires packetSize > 0
    ensures PayloadTo(answer, packetSize, 0) == []
  {
  }

  lemma LastPacket(answer: Bytes, packetSize: nat, from: nat)
    requires packetSize > 0 && from <= |answer| <= from + packetSize
    ensures Slice(answer, 2 + from, 2 + from + packetSize - 2) == Payload(answer[from..], packetSize)
  {
  }

  lemma LastChunk(answer: Bytes, packetSize: nat, k: nat)
    requires packetSize > 0 && PacketStart(packetSize, k) <= |answer| <= PacketStart(packetSize, k) + packetSize
    ensures PayloadTo(answer, packetSize, k + 1) == Payload(answer, packetSize)
  {
    hide PacketStart, Payload, Slice, PayloadTo;
    PayloadInChunks(answer, packetSize, k);
    LastPacket(answer, packetSize, PacketStart(packetSize, k));
    PayloadToNext(answer, packetSize, k);
  }

  method PacketsIn(length: nat, packetSize: nat) returns (chunks: nat)
    requires packetSize > 0 && length > 0
    ensures chunks > 0 && PacketStart(packetSize, chunks - 1) <= length <= PacketStart(packetSize, chunks - 1) + packetSize
  {
    PacketCount(length, packetSize);
    chunks := (length + packetSize - 1) / packetSize;
  }

  lemma PacketCount(length: nat, packetSize: nat)
    requires packetSize > 0 && length > 0
    ensures var chunks := (length + packetSize - 1) / packetSize;
      chunks > 0 && PacketStart(packetSize, chunks - 1) <= length <= PacketStart(packetSize, chunks - 1) + packetSize
  {
    var n := length + packetSize - 1;
    var chunks := n / packetSize;
    assert n == packetSize * chunks + n % packetSize;
    assert packetSize * (chunks - 1) == packetSize * chunks - packetSize;
  }

  datatype Filling = Filled | Dry | Failed

  datatype Round = Enough | More | UsedUp | NoRoom | BusIsDown

  datatype Outcome = Data(bytes: Bytes) | BusFailed | InternalError

  class FtdiReader {
    const answers: Answers
    const maxPacketSize: nat
    var readbuffer: Bytes
    var readoffset: nat
    var turn: nat
    ghost var given: Bytes

    constructor (a: Answers, size: nat)
      requires size > 0
      ensures answers == a && maxPacketSize == size && turn == 0 && Valid() && Unread() == []
    {
      answers, maxPacketSize := a, size;
      readbuffer, readoffset, turn, given := [], 0, 0, [];
    }

    /** What was received and not asked for yet. */
    ghost function Unread(): Bytes
      requires readoffset <= |readbuffer|
      reads this
    {
      readbuffer[readoffset..]
    }

    /** The bus has not failed since that turn. */
    ghost predicate Answered(from: nat)
      reads this
    {
      from <= turn && forall k {:trigger answers(k)} :: from <= k < turn ==> answers(k).Some?
    }

    /**
      Over all calls so far, what was returned and what is unread are all the
      payloads received, in order, as long as the bus has not failed and packets
      have room for payload.
     */
    ghost predicate Valid()
      reads this
    {
      && readoffset <= |readbuffer| && maxPacketSize > 0
      && (maxPacketSize > 2 && Answered(0) ==>
            given + Unread() == Received(answers, maxPacketSize, 0, turn))
    }

    method ReadUsb() returns (answer: Option<Bytes>)
      modifies this`turn
      ensures turn == old(turn) + 1 && answer == answers(old(turn))
    {
      answer := answers(turn);
      turn := turn + 1;
    }

    /** Strips the status bytes of every packet into the read buffer. */
    method Strip(tempbuf: Bytes)
      requires maxPacketSize > 0 && |tempbuf| > 2
      modifies this`readbuffer, this`readoffset
      ensures readoffset == 0 && readbuffer == Payload(tempbuf, maxPacketSize)
    {
      var packetSize := maxPacketSize;
      var chunks := PacketsIn(|tempbuf|, packetSize);
      var count := packetSize as int - 2;
      readbuffer, readoffset := [], 0;
      var srcoff := 2;
      hide Payload, PacketStart, Slice, PayloadTo;
      NothingStripped(tempbuf, packetSize);
      NextStart(packetSize, 0);
      for k := 0 to chunks
        invariant srcoff == 2 + PacketStart(packetSize, k) && readoffset == 0
        invariant readbuffer == PayloadTo(tempbuf, packetSize, k)
      {
        readbuffer := readbuffer + Slice(tempbuf, srcoff, srcoff + count);
        NextStart(packetSize, k);
        PayloadToNext(tempbuf, packetSize, k);
        srcoff := srcoff + packetSize;
      }
      LastChunk(tempbuf, packetSize, chunks - 1);
    }

    /** Reads until there is payload, or the attempts are used up, or the bus fails. */
    method Refill(attempt: int) returns (left: int, filling: Filling)
      requires readoffset == |readbuffer| && maxPacketSize > 0
      modifies this`turn, this`readbuffer, this`readoffset
      ensures turn > old(turn) && turn - old(turn) == attempt - left && readoffset <= |readbuffer|
      ensures filling.Failed? <==> answers(turn - 1).None?
      ensures filling.Failed? ==> readoffset == |readbuffer|
      ensures !filling.Failed? ==> Answered(old(turn)) && Unread() == Received(answers, maxPacketSize, old(turn), turn)
      ensures !filling.Failed? ==> (filling.Filled? <==> |answers(turn - 1).value| > 2)
      ensures filling.Filled? ==> readoffset == 0 && (|readbuffer| == 0 <==> maxPacketSize <= 2)
      ensures filling.Dry? ==> left <= 0 && Unread() == []
      ensures Received(answers, maxPacketSize, old(turn), turn - 1) == []
    {
      left := attempt;
      while true
        invariant readoffset == |readbuffer| && turn - old(turn) == attempt - left && Answered(old(turn))
        invariant Received(answers, maxPacketSize, old(turn), turn) == []
        decreases if left > 0 then left else 0
      {
        var tempbuf := ReadUsb();
        left := left - 1;
        if tempbuf.None? {
          return left, Failed;
        }
        if |tempbuf.value| > 2 {
          Strip(tempbuf.value);
          PayloadOfSmallPackets(tempbuf.value, maxPacketSize);
          return left, Filled;
        }
        NoPayload(tempbuf.value, maxPacketSize);
        if left <= 0 {
          readbuffer, readoffset := [], 0;
          return left, Dry;
        }
      }
    }

    /** What has been taken, with what is still unread, is what was unread at some turn and what came since. */
    ghost predicate Taken(data: Bytes, was: Bytes, from: nat)
      reads this
    {
      && readoffset <= |readbuffer| && maxPacketSize > 0 && Answered(from)
      && data + Unread() == was + Received(answers, maxPacketSize, from, turn)
    }

    /** Takes bytes out of the cache. */
    method TakeOut(data: Bytes, n: nat, ghost was: Bytes, ghost from: nat) returns (more: Bytes)
      requires n <= |readbuffer| - readoffset && Taken(data, was, from)
      modifies this`readoffset
      ensures Taken(more, was, from) && |more| == |data| + n && readoffset == old(readoffset) + n
    {
      hide Received;
      more := data + readbuffer[readoffset..readoffset + n];
      readoffset := readoffset + n;
      assert more + Unread() == data + old(Unread());
    }

    /** After a refill the data and the cache hold what came. */
    lemma Refilled(data: Bytes, was: Bytes, from: nat, before: nat)
      requires readoffset <= |readbuffer| && maxPacketSize > 0 && from <= before <= turn && Answered(before)
      requires forall k {:trigger answers(k)} :: from <= k < before ==> answers(k).Some?
      requires data == was + Received(answers, maxPacketSize, from, before)
      requires Unread() == Received(answers, maxPacketSize, before, turn)
      ensures Taken(data, was, from)
    {
      ReceivedInTurn(answers, maxPacketSize, from, before, turn);
      hide Received;
      assert data + Unread() == was + (Received(answers, maxPacketSize, from, before) + Unread());
    }

    /** One round of reading: a refill, and as much of it as is asked for. */
    method ReadOn(data: Bytes, size: nat, left: int, ghost was: Bytes, ghost from: nat) returns (more: Bytes, rest: int, step: Round)
      requires |data| < size && readoffset == |readbuffer| && Taken(data, was, from)
      modifies this`turn, this`readbuffer, this`readoffset
      ensures turn > old(turn) && turn - old(turn) == left - rest && |more| <= size && readoffset <= |readbuffer|
      ensures step.BusIsDown? <==> answers(turn - 1).None?
      ensures if step.BusIsDown? then Unread() == [] else Taken(more, was, from)
      ensures !step.Enough? ==> Unread() == []
      ensures step.Enough? ==> |more| == size
      ensures step.UsedUp? ==> rest <= 0
      ensures step.More? ==> |data| < |more| < size
      ensures !step.BusIsDown? ==> (step.UsedUp? <==> |answers(turn - 1).value| <= 2)
      ensures step.NoRoom? <==> maxPacketSize <= 2 && answers(turn - 1).Some? && |answers(turn - 1).value| > 2
      ensures |was + Received(answers, maxPacketSize, from, turn - 1)| < size
    {
      hide Received, Payload;
      ghost var before := turn;
      assert data + Unread() == data;
      var filling;
      rest, filling := Refill(left);
      ReceivedInTurn(answers, maxPacketSize, from, before, turn - 1);
      more := data;
      if filling.Failed? {
        return more, rest, BusIsDown;
      }
      Refilled(data, was, from, before);
      if filling.Dry? {
        return more, rest, UsedUp;
      }
      var length := |readbuffer|;
      if length == 0 {
        return more, rest, NoRoom;
      }
      more := TakeOut(data, if |data| + length <= size then length else Min(size - |data|, |readbuffer| - readoffset), was, from);
      step := if |more| == size then Enough else More;
    }

    /** What a call returns is added to what was returned before. */
    lemma Settled(was: Bytes, unread: Bytes, from: nat, data: Bytes)
      requires Taken(data, unread, from)
      ensures was + unread == Received(answers, maxPacketSize, 0, from) ==>
        was + data + Unread() == Received(answers, maxPacketSize, 0, turn)
    {
      ReceivedInTurn(answers, maxPacketSize, 0, from, turn);
      hide Received;
      assert was + data + Unread() == was + (data + Unread());
      assert was + (unread + Received(answers, maxPacketSize, from, turn)) == was + unread + Received(answers, maxPacketSize, from, turn);
    }

    /**
      Returns up to that many bytes, in the order they came, and reads no more
      than that takes. Fewer are returned only when an answer without payload used
      up the last attempt. When the bus fails, what had been taken out of the cache
      is lost. The last error is met exactly when packets have no room for payload.
     */
    method ReadDataBytes(size: nat, attempt: int) returns (r: Outcome)
      requires Valid()
      modifies this
      ensures Valid() && turn >= old(turn)
      ensures r.Data? ==>
        && |r.bytes| <= size
        && old(Unread()) + Received(answers, maxPacketSize, old(turn), turn) == r.bytes + Unread()
        && given == old(given) + r.bytes
      ensures r.Data? && |r.bytes| < size ==>
        && old(turn) < turn && turn - old(turn) >= attempt && Unread() == []
        && answers(turn - 1).Some? && |answers(turn - 1).value| <= 2
      ensures r.BusFailed? <==> old(turn) < turn && answers(turn - 1).None?
      ensures !r.Data? ==> Unread() == []
      ensures turn > old(turn) ==> |old(Unread()) + Received(answers, maxPacketSize, old(turn), turn - 1)| < size
      ensures r.InternalError? <==>
        maxPacketSize <= 2 && old(turn) < turn && answers(turn - 1).Some? && |answers(turn - 1).value| > 2
    {
      hide Received, Payload;
      ghost var was, from := Unread(), turn;
      NothingReceived(answers, maxPacketSize, turn);
      assert [] + Unread() == was + [];
      if size <= |readbuffer| - readoffset {
        var cached := TakeOut([], size, was, from);
        Settled(given, was, from, cached);
        given := given + cached;
        return Data(cached);
      }
      var data := TakeOut([], |readbuffer| - readoffset, was, from);
      var left := attempt;
      while |data| < size
        invariant turn > from ==> |was + Received(answers, maxPacketSize, from, turn - 1)| < size
        invariant readoffset == |readbuffer| && Taken(data, was, from) && |data| < size
        invariant turn - from == attempt - left && given == old(given)
        decreases size - |data|
      {
        var step;
        data, left, step := ReadOn(data, size, left, was, from);
        match step {
          case BusIsDown =>
            assert !Answered(0) by {
              assert answers(turn - 1).None?;
            }
            return BusFailed;
          case NoRoom =>
            return InternalError;
          case More =>
          case _ =>
            Settled(given, was, from, data);
            given := given + data;
            return Data(data);
        }
      }
    }
  }

  /** The bus takes as many bytes of each write as it likes. */
  class FtdiWriter {
    const takes: nat -> nat
    const chunkSize: nat
    var sent: Bytes
    var turn: nat
    ghost var blocks: seq<Bytes>

    constructor (t: nat -> nat, size: nat)
      ensures takes == t && chunkSize == size && sent == [] && turn == 0 && blocks == []
    {
      takes, chunkSize, sent, turn, blocks := t, size, [], 0, [];
    }

    method WriteUsb(chunk: Bytes) returns (length: nat)
      modifies this
      ensures blocks == old(blocks) + [chunk]
      ensures length <= |chunk| && sent == old(sent) + chunk[..length] && turn == old(turn) + 1
      ensures length == Min(takes(old(turn)), |chunk|)
    {
      length := Min(takes(turn), |chunk|);
      sent := sent + chunk[..length];
      turn := turn + 1;
      blocks := blocks + [chunk];
    }

    /** All bytes are sent, once each and in order, unless the bus stops taking any; the bus gets them
        in blocks of the size of a chunk, or smaller ones up to the end. */
    method WriteData(data: Bytes) returns (ok: bool, offset: nat)
      modifies this
      ensures offset <= |data| && sent == old(sent) + data[..offset]
      ensures ok <==> offset == |data|
      ensures !ok ==> turn > old(turn) && (chunkSize == 0 || takes(turn - 1) == 0)
      ensures old(blocks) <= blocks
      ensures forall k :: |old(blocks)| <= k < |blocks| ==>
        |blocks[k]| == chunkSize || (|blocks[k]| < chunkSize && |blocks[k]| <= |data| && data[|data| - |blocks[k]|..] == blocks[k])
    {
      offset := 0;
      while offset < |data|
        invariant old(blocks) <= blocks
        invariant forall k :: |old(blocks)| <= k < |blocks| ==>
          |blocks[k]| == chunkSize || (|blocks[k]| < chunkSize && |blocks[k]| <= |data| && data[|data| - |blocks[k]|..] == blocks[k])
        invariant offset <= |data| && sent == old(sent) + data[..offset] && turn >= old(turn)
        decreases |data| - offset
      {
        var writeSize := if offset + chunkSize > |data| then |data| - offset else chunkSize;
        var length := WriteUsb(data[offset..offset + writeSize]);
        assert data[..offset] + data[offset..offset + writeSize][..length] == data[..offset + length];
        if length == 0 {
          return false, offset;
        }
        offset := offset + length;
      }
      ok := true;
    }
  }
}
