/**
  The activation record: stack slots that are handed out, and the instruction
  list that is edited in place.
 */
module Frames {
  import opened Arithmetic
  import opened MachineCode
  import opened Graphs
  import opened PqTest
  import opened Recoloring
  import opened Spilling
  import opened SpillLayout

  /** Where the frame pointer points to. */
  datatype FramePointer = Top | Bottom

  datatype Location = Location(offset: int, size: nat) {
    function End(): int { offset + size }
  }

  datatype Allocation = Allocated(location: Location) | ZeroBytes | ZeroAlignment

  predicate Apart(a: Location, b: Location) {
    a.End() <= b.offset || b.End() <= a.offset
  }

  /** The location for a request, and the new size of the stack. */
  function Place(fp: FramePointer, stacksize: nat, size: nat, alignment: nat): (Location, nat)
    requires alignment > 0
  {
    match fp
    case Top =>
      var grown := stacksize + size;
      var misalign := grown % alignment;
      var total := if misalign != 0 then grown - misalign + alignment else grown;
      (Location(0 - total, size), total)
    case Bottom =>
      var misalign := stacksize % alignment;
      var start := if misalign != 0 then stacksize + size - misalign else stacksize;
      (Location(start, size), start + size)
  }

  datatype Request = Request(size: nat, alignment: nat) {
    predicate Valid() { size > 0 && alignment > 0 }

    /** Whether the request is placed well on a stack of this size: always when the frame
        grows down. */
    predicate Suits(fp: FramePointer, stacksize: nat)
      requires alignment > 0
    {
      fp.Bottom? ==> stacksize % alignment == 0 || size % alignment == 0
    }
  }

  predicate AllValid(requests: seq<Request>) {
    forall k :: 0 <= k < |requests| ==> requests[k].Valid()
  }

  /** Every request suits the stack that the requests before it have left. */
  predicate AllSuit(fp: FramePointer, requests: seq<Request>)
    requires AllValid(requests)
  {
    requests == [] ||
      (var n := |requests| - 1;
       AllSuit(fp, requests[..n]) && requests[n].Suits(fp, PlaceAll(fp, requests[..n]).0))
  }

  /** The stack after a sequence of requests: its size and all locations handed out. */
  function PlaceAll(fp: FramePointer, requests: seq<Request>): (nat, seq<Location>)
    requires AllValid(requests)
  {
    if requests == [] then (0, []) else
      assert requests[|requests| - 1].Valid();
      var (stacksize, locations) := PlaceAll(fp, requests[..|requests| - 1]);
      var (location, total) := Place(fp, stacksize, requests[|requests| - 1].size, requests[|requests| - 1].alignment);
      (total, locations + [location])
  }

  /** The part of the stack that is in use. */
  predicate Inside(fp: FramePointer, stacksize: nat, l: Location) {
    match fp
    case Top => 0 - stacksize <= l.offset && l.End() <= 0
    case Bottom => 0 <= l.offset && l.End() <= stacksize
  }

  /** A frame that grows down puts every location at a multiple of its alignment, below all others. */
  lemma TopIsAligned(stacksize: nat, size: nat, alignment: nat)
    requires alignment > 0
    ensures var (l, total) := Place(Top, stacksize, size, alignment);
      l.offset % alignment == 0 && l.offset == 0 - total && l.End() <= 0 - stacksize && total >= stacksize
  {
    Rounding(stacksize + size, alignment);
    NegatedMultiple(Place(Top, stacksize, size, alignment).1, alignment);
  }

  /** A frame that grows up aligns a location exactly when nothing had to be aligned,
      or the size is a multiple of the alignment. */
  lemma BottomAlignedWhen(stacksize: nat, size: nat, alignment: nat)
    requires alignment > 0
    ensures var (l, total) := Place(Bottom, stacksize, size, alignment);
      l.offset % alignment == 0 <==> stacksize % alignment == 0 || size % alignment == 0
  {
    Rounding(stacksize, alignment);
    SumRemainder(stacksize - stacksize % alignment, size, alignment);
  }

  /** It puts the location above all others exactly when nothing had to be aligned, or the
      size is at least the misalignment. */
  lemma BottomAboveWhen(stacksize: nat, size: nat, alignment: nat)
    requires alignment > 0
    ensures var (l, total) := Place(Bottom, stacksize, size, alignment);
      l.offset >= stacksize <==> stacksize % alignment == 0 || size >= stacksize % alignment
  {
  }

  /** A small request with a large alignment overlaps the location before it. */
  lemma BottomMayOverlap()
    ensures var (a, used) := Place(Bottom, 0, 7, 1);
      var (b, total) := Place(Bottom, used, 1, 4);
      !Apart(a, b) && b.offset % 4 != 0
  {
  }

  /** A frame that grows down takes the nearest location: no other one of this size that is aligned
      and below the stack is higher. */
  lemma TopIsNearest(stacksize: nat, size: nat, alignment: nat, x: Location)
    requires alignment > 0 && x.size == size && x.offset % alignment == 0 && x.End() <= 0 - stacksize
    ensures x.offset <= Place(Top, stacksize, size, alignment).0.offset
    ensures var (l, total) := Place(Top, stacksize, size, alignment);
      l.size == size && l.offset % alignment == 0 && l.End() <= 0 - stacksize && l.offset == 0 - total
  {
    var (l, total) := Place(Top, stacksize, size, alignment);
    TopIsAligned(stacksize, size, alignment);
    if x.offset > l.offset {
      NegatedMultiple(l.offset, alignment);
      SumRemainder(0 - l.offset, x.offset, alignment);
      SmallRemainder(x.offset - l.offset, alignment);
    }
  }

  lemma MultipleIsLarge(size: nat, alignment: nat, misalign: nat)
    requires alignment > 0 && size > 0 && size % alignment == 0 && misalign < alignment
    ensures size >= misalign
  {
    if size < misalign {
      SmallRemainder(size, alignment);
    }
  }

  /** A request suits exactly when its location is aligned, and then the location is above
      or below all others. */
  lemma PlaceSuits(fp: FramePointer, stacksize: nat, r: Request)
    requires r.Valid()
    ensures var (l, total) := Place(fp, stacksize, r.size, r.alignment);
      && l.size == r.size
      && (r.Suits(fp, stacksize) <==> l.offset % r.alignment == 0)
      && (r.Suits(fp, stacksize) ==>
            && Inside(fp, total, l) && total >= stacksize
            && forall x :: Inside(fp, stacksize, x) ==> Apart(x, l) && Inside(fp, total, x))
  {
    if fp.Top? {
      TopIsAligned(stacksize, r.size, r.alignment);
    } else {
      BottomAlignedWhen(stacksize, r.size, r.alignment);
      if r.size % r.alignment == 0 {
        MultipleIsLarge(r.size, r.alignment, stacksize % r.alignment);
      }
    }
  }

  /**
    All locations ever handed out are aligned exactly when every request suits
    the stack it finds; they are then pairwise disjoint and inside the stack.
   */
  lemma {:induction false} LocationsAreApart(fp: FramePointer, requests: seq<Request>)
    requires AllValid(requests)
    ensures var (stacksize, ls) := PlaceAll(fp, requests);
      && |ls| == |requests|
      && (forall k :: 0 <= k < |ls| ==> ls[k].size == requests[k].size)
      && (AllSuit(fp, requests) <==> forall k :: 0 <= k < |ls| ==> ls[k].offset % requests[k].alignment == 0)
      && (AllSuit(fp, requests) ==> forall k :: 0 <= k < |ls| ==> Inside(fp, stacksize, ls[k]))
      && (AllSuit(fp, requests) ==> forall j, k :: 0 <= j < k < |ls| ==> Apart(ls[j], ls[k]))
    decreases |requests|
  {
    hide Place, Request.Suits, Inside, Apart;
    if requests != [] {
      var n := |requests| - 1;
      LocationsAreApart(fp, requests[..n]);
      assert requests[n].Valid();
      PlaceSuits(fp, PlaceAll(fp, requests[..n]).0, requests[n]);
      var ls := PlaceAll(fp, requests).1;
      assert ls[..n] == PlaceAll(fp, requests[..n]).1;
      assert forall k :: 0 <= k < n ==> ls[k] == ls[..n][k] && requests[k] == requests[..n][k];
    }
  }

  function Insert(q: Program, m: nat, code: seq<Instr>): Program
    requires m <= |q|
  {
    q[..m] + code + q[m..]
  }

  class Frame {
    const fp: FramePointer
    var stacksize: nat
    var alignment: nat
    var slots: seq<Location>
    ghost var requests: seq<Request>
    var instructions: Program
    var nextTemp: nat
    var nextId: nat
    var classes: map<Register, Class>

    ghost predicate Valid()
      reads this
    {
      && AllValid(requests)
      && PlaceAll(fp, requests) == (stacksize, slots)
    }

    constructor (fp: FramePointer, instructions: Program, nextTemp: nat, nextId: nat)
      ensures Valid() && this.fp == fp && slots == [] && requests == []
      ensures this.instructions == instructions && this.nextTemp == nextTemp && this.nextId == nextId && classes == map[]
    {
      this.fp := fp;
      this.stacksize, this.alignment, this.slots, this.requests := 0, 1, [], [];
      this.instructions, this.nextTemp, this.nextId, this.classes := instructions, nextTemp, nextId, map[];
    }

    /** Hands out a location; the requests so far tell where all of them are. A frame that
        grows down has already grown when the alignment turns out to be 0. */
    method Alloc(size: nat, alignment: nat) returns (r: Allocation)
      requires Valid()
      modifies this`stacksize, this`alignment, this`slots, this`requests
      ensures Valid() || (r.ZeroAlignment? && fp.Top?)
      ensures alignment == 0 && size > 0 && fp.Top? ==> stacksize == old(stacksize) + size
      ensures this.alignment == if alignment > old(this.alignment) then alignment else old(this.alignment)
      ensures r.Allocated? <==> size > 0 && alignment > 0
      ensures r.ZeroBytes? <==> size == 0
      ensures r.Allocated? ==>
        && requests == old(requests) + [Request(size, alignment)]
        && slots == old(slots) + [r.location]
      ensures !r.Allocated? ==> requests == old(requests) && slots == old(slots)
      ensures !r.Allocated? && !(r.ZeroAlignment? && fp.Top?) ==> stacksize == old(stacksize)
    {
      this.alignment := if alignment > this.alignment then alignment else this.alignment;
      if size == 0 {
        return ZeroBytes;
      }
      if alignment == 0 {
        if fp.Top? {
          stacksize := stacksize + size;
        }
        return ZeroAlignment;
      }
      var offset := TakeSpace(size, alignment);
      r := Allocated(Location(offset, size));
      slots := slots + [r.location];
      requests := requests + [Request(size, alignment)];
      assert requests[..|requests| - 1] == old(requests);
    }

    /** The frame grows down or up. */
    method TakeSpace(size: nat, alignment: nat) returns (offset: int)
      requires alignment > 0
      modifies this`stacksize
      ensures (Location(offset, size), stacksize) == Place(fp, old(stacksize), size, alignment)
    {
      match fp {
        case Top =>
          stacksize := stacksize + size;
          var misalign := stacksize % alignment;
          if misalign != 0 {
            stacksize := stacksize - misalign + alignment;
          }
          offset := 0 - stacksize;
        case Bottom =>
          var misalign := stacksize % alignment;
          if misalign != 0 {
            stacksize := stacksize + size - misalign;
          }
          offset := stacksize;
          stacksize := stacksize + size;
      }
    }

    /** A register of class `k` that has not been used before. */
    method NewReg(k: Class) returns (r: Register)
      modifies this`nextTemp, this`classes
      ensures r == Virtual(old(nextTemp)) && nextTemp == old(nextTemp) + 1
      ensures classes == old(classes)[r := k]
    {
      r := Virtual(nextTemp);
      nextTemp := nextTemp + 1;
      classes := classes[r := k];
    }

    method NewId() returns (id: nat)
      modifies this`nextId
      ensures id == old(nextId) && nextId == old(nextId) + 1
    {
      id := nextId;
      nextId := nextId + 1;
    }

    method InsertCodeBefore(id: nat, code: seq<Instr>)
      requires HasId(instructions, id)
      modifies this`instructions
      ensures instructions == Insert(old(instructions), IndexOf(old(instructions), id), code)
    {
      var pt := IndexOf(instructions, id);
      ghost var q := instructions;
      for k := 0 to |code|
        invariant instructions == Insert(q, pt, code[..k]) && pt <= |q|
      {
        assert instructions[..pt + k] == q[..pt] + code[..k] && instructions[pt + k..] == q[pt..];
        assert code[..k + 1] == code[..k] + [code[k]];
        instructions := instructions[..pt + k] + [code[k]] + instructions[pt + k..];
      }
      assert code[..|code|] == code;
    }

    method InsertCodeAfter(id: nat, code: seq<Instr>)
      requires HasId(instructions, id)
      modifies this`instructions
      ensures IndexOf(old(instructions), id) < |old(instructions)|
      ensures instructions == Insert(old(instructions), IndexOf(old(instructions), id) + 1, code)
    {
      IndexOfPresent(instructions, id);
      var pt := IndexOf(instructions, id) + 1;
      ghost var q := instructions;
      for k := 0 to |code|
        invariant instructions == Insert(q, pt, code[..k]) && pt <= |q|
      {
        assert instructions[..pt + k] == q[..pt] + code[..k] && instructions[pt + k..] == q[pt..];
        assert code[..k + 1] == code[..k] + [code[k]];
        instructions := instructions[..pt + k] + [code[k]] + instructions[pt + k..];
      }
      assert code[..|code|] == code;
    }

    method ReplaceRegister(id: nat, tmp: Register, sub: Register)
      requires HasId(instructions, id)
      modifies this`instructions
      ensures var k := IndexOf(old(instructions), id);
        k < |old(instructions)| && instructions == old(instructions)[k := Replace(old(instructions)[k], tmp, sub)]
    {
      IndexOfPresent(instructions, id);
      var k := IndexOf(instructions, id);
      instructions := instructions[k := Replace(instructions[k], tmp, sub)];
    }

    /** `instructions.remove(move)` for the moves in `ids`. */
    method RemoveInstructions(ids: set<nat>)
      requires UniqueIds(instructions)
      modifies this`instructions
      ensures instructions == Without(old(instructions), ids)
    {
      ghost var p, done := instructions, {};
      WithoutNothing(p);
      var todo := ids;
      while todo != {}
        invariant todo !! done && todo + done == ids
        invariant instructions == Without(p, done)
      {
        var id :| id in todo;
        todo, done := todo - {id}, done + {id};
        var k := IndexOf(instructions, id);
        WithoutNext(p, done - {id}, id);
        assert done - {id} + {id} == done;
        if k < |instructions| {
          instructions := instructions[..k] + instructions[k + 1..];
        }
      }
      assert done == ids;
    }

    /** `apply_colors`: every register of every instruction gets its colour. */
    method ApplyColors(color: Coloring)
      modifies this`instructions
      ensures |instructions| == |old(instructions)|
      ensures forall k :: 0 <= k < |instructions| ==> instructions[k] == Recolor(old(instructions)[k], color)
    {
      for k := 0 to |instructions|
        invariant |instructions| == |old(instructions)|
        invariant forall j :: 0 <= j < |instructions| ==>
          instructions[j] == if j < k then Recolor(old(instructions)[j], color) else old(instructions)[j]
      {
        instructions := instructions[k := Recolor(instructions[k], color)];
      }
    }
  }

  /** The instructions whose identity is not in `ids`. */
  function Without(p: Program, ids: set<nat>): Program {
    if p == [] then []
    else Without(p[..|p| - 1], ids) + (if p[|p| - 1].id in ids then [] else [p[|p| - 1]])
  }

  lemma {:induction false} WithoutNothing(p: Program)
    ensures Without(p, {}) == p
  {
    if p != [] {
      WithoutNothing(p[..|p| - 1]);
    }
  }

  lemma {:induction false} WithoutHas(p: Program, ids: set<nat>, k: nat)
    requires k < |Without(p, ids)|
    ensures HasId(p, Without(p, ids)[k].id)
  {
    var n := |p| - 1;
    if k < |Without(p[..n], ids)| {
      WithoutHas(p[..n], ids, k);
      var j :| 0 <= j < n && p[..n][j].id == Without(p, ids)[k].id;
      assert p[j].id == Without(p, ids)[k].id;
    } else {
      assert p[n].id == Without(p, ids)[k].id;
    }
  }

  /** The program without its first instruction with this identity. */
  function Dropped(q: Program, id: nat): Program {
    var k := IndexOf(q, id);
    if k < |q| then q[..k] + q[k + 1..] else q
  }

  lemma IndexInMore(q: Program, last: Instr, id: nat)
    ensures IndexOf(q + [last], id) ==
      if IndexOf(q, id) < |q| then IndexOf(q, id) else if last.id == id then |q| else |q| + 1
  {
    var all := q + [last];
    assert forall j :: 0 <= j < |q| ==> all[j] == q[j];
    assert all[|q|] == last;
  }

  lemma DroppedFromMore(q: Program, last: Instr, id: nat)
    ensures Dropped(q + [last], id) ==
      if IndexOf(q, id) < |q| then Dropped(q, id) + [last] else if last.id == id then q else q + [last]
  {
    IndexInMore(q, last, id);
    hide IndexOf;
    var all := q + [last];
    var k := IndexOf(all, id);
    if IndexOf(q, id) < |q| {
      assert all[k + 1..] == q[k + 1..] + [last] && all[..k] == q[..k];
    } else if last.id == id {
      assert all[..k] == q && all[k + 1..] == [];
    }
  }

  lemma WithoutLast(p: Program, ids: set<nat>)
    requires p != []
    ensures var n := |p| - 1;
      Without(p, ids) == if p[n].id in ids then Without(p[..n], ids) else Without(p[..n], ids) + [p[n]]
  {
    assert Without(p[..|p| - 1], ids) + [] == Without(p[..|p| - 1], ids);
  }

  lemma LastIsOnce(p: Program, ids: set<nat>)
    requires p != [] && UniqueIds(p)
    ensures var q := Without(p[..|p| - 1], ids); IndexOf(q, p[|p| - 1].id) == |q|
  {
    var n := |p| - 1;
    var q := Without(p[..n], ids);
    var k := IndexOf(q, p[n].id);
    assert forall j :: 0 <= j < n ==> p[..n][j].id != p[n].id;
    if k < |q| {
      WithoutHas(p[..n], ids, k);
    }
  }

  /** Dropping one more identity. */
  lemma {:induction false} WithoutNext(p: Program, ids: set<nat>, id: nat)
    requires UniqueIds(p) && id !in ids
    ensures Without(p, ids + {id}) == Dropped(Without(p, ids), id)
  {
    if p != [] {
      var n := |p| - 1;
      WithoutNext(p[..n], ids, id);
      LastIsOnce(p, ids);
      hide UniqueIds, Without, Dropped;
      WithoutLast(p, ids);
      WithoutLast(p, ids + {id});
      DroppedFromMore(Without(p[..n], ids), p[n], id);
      DroppedAbsent(Without(p[..n], ids), id);
    }
  }

  lemma DroppedAbsent(q: Program, id: nat)
    ensures IndexOf(q, id) == |q| ==> Dropped(q, id) == q
  {
  }

  /** Removing the moves and then colouring is what `Emit` does. */
  lemma {:induction false} RemovedAndColored(p: Program, ids: set<nat>, color: Coloring, k: nat)
    requires k <= |p|
    ensures |EmitTo(p, ids, color, k)| == |Without(p[..k], ids)|
    ensures forall j :: 0 <= j < |EmitTo(p, ids, color, k)| ==> EmitTo(p, ids, color, k)[j] == Recolor(Without(p[..k], ids)[j], color)
  {
    if k > 0 {
      RemovedAndColored(p, ids, color, k - 1);
      assert p[..k][..k - 1] == p[..k - 1];
    }
  }
}
