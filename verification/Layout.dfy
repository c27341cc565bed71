/**
  Placing sections in memories: every image has its sections in order, aligned
  and inside its memory.
 */
module Layouts {
  import opened Basics
  import opened Arithmetic
  import opened Objects
  import opened Linking
  import opened PartialLinking

  datatype Input = SectionInput(name: Name) | SectionData(name: Name) | SymbolDefinition(name: Name) | Align(alignment: nat)

  datatype Memory = Memory(name: Name, location: int, size: nat, inputs: seq<Input>)

  /** The name of the section that is made for a symbol or a copy. */
  type Naming = Name -> Name

  datatype Placing = Placing(sections: seq<Section>, symbols: seq<Symbol>, address: int, names: seq<Name>)

  function RoundUp(n: int, a: nat): (m: int)
    requires a > 0
    ensures n <= m < n + a
  {
    if n % a == 0 then n else n + a - n % a
  }

  lemma RoundUpAligns(n: int, a: nat)
    requires a > 0
    ensures RoundUp(n, a) % a == 0
  {
    Rounding(n, a);
  }

  /** A new section at the current address. */
  function NewSection(p: Placing, name: Name, data: seq<Byte>): Placing
  {
    p.(sections := p.sections + [Section(name, p.address, 1, data)], address := p.address + |data|, names := p.names + [name])
  }

  /** One input of a memory. */
  function PlaceInput(p: Placing, input: Input, naming: Naming): Result<Placing> {
    match input
    case SectionInput(name) =>
      var ss := WithSection(p.sections, name);
      var k := Find(ss, name);
      if ss[k].alignment == 0 then Failed(ZeroAlignment) else
        var address := RoundUp(p.address, ss[k].alignment);
        Ok(p.(sections := ss[k := ss[k].(address := address)], address := address + |ss[k].data|, names := p.names + [name]))
    case SectionData(name) =>
      if Has(p.sections, naming(name)) then Failed(SectionExists)
      else if !Has(p.sections, name) && name != naming(name) then Failed(UnknownKey)
      else Ok(NewSection(p, naming(name), if Has(p.sections, name) then Lookup(p.sections, name).data else []))
    case SymbolDefinition(name) =>
      if Has(p.sections, naming(name)) then Failed(SectionExists) else
        var r := MergeGlobal(p.symbols, name, Some(0), Some(naming(name)));
        if r.Failed? then Failed(r.error) else Ok(NewSection(p, naming(name), []).(symbols := r.value.0))
    case Align(alignment) =>
      if alignment == 0 then Failed(ZeroAlignment) else Ok(p.(address := RoundUp(p.address, alignment)))
  }

  function PlaceInputs(p: Placing, inputs: seq<Input>, naming: Naming): Result<Placing>
    decreases |inputs|
  {
    if inputs == [] then Ok(p) else
      var r := PlaceInput(p, inputs[0], naming);
      if r.Failed? then r else PlaceInputs(r.value, inputs[1..], naming)
  }

  /** One memory: its sections are placed, and must fit. */
  function PlaceMemory(obj: Obj, mem: Memory, naming: Naming): Result<Obj> {
    var r := PlaceInputs(Placing(obj.sections, obj.symbols, mem.location, []), mem.inputs, naming);
    if r.Failed? then Failed(r.error) else
    if !HasAll(r.value.sections, r.value.names) then Failed(UnknownKey) else
    var data := ImageFrom(Named(r.value.sections, r.value.names), mem.location);
    if data.Failed? then Failed(data.error)
    else if |data.value| > mem.size then Failed(MemoryExceeded)
    else Ok(obj.(sections := r.value.sections, symbols := r.value.symbols,
                 images := obj.images + [Image(mem.name, mem.location, r.value.names)]))
  }

  /** `layout_sections`. */
  function PlaceMemories(obj: Obj, mems: seq<Memory>, naming: Naming): Result<Obj>
    decreases |mems|
  {
    if mems == [] then Ok(obj) else
      var r := PlaceMemory(obj, mems[0], naming);
      if r.Failed? then r else PlaceMemories(r.value, mems[1..], naming)
  }

  /** A section of one byte that is placed twice overlaps itself. */
  lemma PlacedTwiceOverlaps(naming: Naming)
    ensures var obj := Obj([Section(0, 0, 1, [1])], [], [], [], None);
      PlaceMemory(obj, Memory(0, 0, 8, [SectionInput(0), SectionInput(0)]), naming) == Failed(SectionsOverlap)
  {
    var data: seq<Byte> := [1];
    var s, moved := Section(0, 0, 1, data), Section(0, 1, 1, data);
    var first := Placing([s], [], 1, [0]);
    var second := Placing([moved], [], 2, [0, 0]);
    var inputs := [SectionInput(0), SectionInput(0)];
    assert [s][0 := s] == [s] && [s][0 := moved] == [moved] && [] + [0] == [0] && [0] + [0] == [0, 0];
    assert Has([s], 0) && Find([s], 0) == 0 && WithSection([s], 0) == [s];
    assert RoundUp(0, 1) == 0 && RoundUp(1, 1) == 1;
    assert PlaceInput(Placing([s], [], 0, []), SectionInput(0), naming) == Ok(first);
    assert PlaceInput(first, SectionInput(0), naming) == Ok(second);
    assert inputs[1..] == [SectionInput(0)] && inputs[1..][1..] == [];
    assert PlaceInputs(first, inputs[1..], naming) == PlaceInputs(second, [], naming);
    var sections := Named(second.sections, second.names);
    assert sections == [moved, moved];
    ImageExists(sections, 0);
    assert sections[1..] == [moved];
    assert !InOrder(sections, 0);
  }

  /** ----- what a layout places ----- */

  function NamesOf(inputs: seq<Input>, naming: Naming): seq<Name> {
    if inputs == [] then [] else
      (match inputs[0]
       case SectionInput(name) => [name]
       case SectionData(name) => [naming(name)]
       case SymbolDefinition(name) => [naming(name)]
       case Align(_) => []) + NamesOf(inputs[1..], naming)
  }

  function AllNames(mems: seq<Memory>, naming: Naming): seq<Name> {
    if mems == [] then [] else NamesOf(mems[0].inputs, naming) + AllNames(mems[1..], naming)
  }

  predicate AlignedAll(ss: seq<Section>) {
    forall k :: 0 <= k < |ss| ==> ss[k].alignment > 0 && ss[k].address % ss[k].alignment == 0
  }

  /** The sections with these names are placed from `location` up to `address`. */
  ghost predicate PlacedWell(ss: seq<Section>, names: seq<Name>, location: int, address: int) {
    && HasAll(ss, names)
    && InOrder(Named(ss, names), location) && EndOf(Named(ss, names), location) <= address
    && AlignedAll(Named(ss, names))
  }

  lemma {:induction false} OrderExtends(ss: seq<Section>, address: int, s: Section)
    requires InOrder(ss, address) && EndOf(ss, address) <= s.address
    ensures InOrder(ss + [s], address) && EndOf(ss + [s], address) == s.End()
    decreases |ss|
  {
    if ss != [] {
      assert (ss + [s])[1..] == ss[1..] + [s];
      OrderExtends(ss[1..], ss[0].End(), s);
    }
  }

  /** Other sections change, or are added. */
  predicate SameWhere(ss: seq<Section>, ts: seq<Section>, names: seq<Name>) {
    && NamesKept(ss, ts)
    && forall k :: 0 <= k < |ss| && ss[k].name in names ==> ts[k] == ss[k]
  }

  lemma PlacedStays(ss: seq<Section>, ts: seq<Section>, names: seq<Name>, location: int, address: int)
    requires PlacedWell(ss, names, location, address) && SameWhere(ss, ts, names)
    ensures PlacedWell(ts, names, location, address)
  {
    forall k | 0 <= k < |names|
      ensures Has(ts, names[k]) && Lookup(ts, names[k]) == Lookup(ss, names[k])
    {
      assert Has(ss, names[k]);
      KeptHas(ss, ts, names[k]);
      assert names[k] in names;
    }
    assert Named(ts, names) == Named(ss, names);
  }

  lemma PlacedMore(ss: seq<Section>, names: seq<Name>, location: int, address: int, name: Name)
    requires PlacedWell(ss, names, location, address) && Has(ss, name)
    requires var s := Lookup(ss, name); address <= s.address && s.alignment > 0 && s.address % s.alignment == 0
    ensures PlacedWell(ss, names + [name], location, Lookup(ss, name).End())
  {
    OrderExtends(Named(ss, names), location, Lookup(ss, name));
    assert Named(ss, names + [name]) == Named(ss, names) + [Lookup(ss, name)];
    assert HasAll(ss, names + [name]);
  }

  lemma PlacedLower(ss: seq<Section>, names: seq<Name>, location: int, address: int, more: int)
    requires PlacedWell(ss, names, location, address) && address <= more
    ensures PlacedWell(ss, names, location, more)
  {
  }

  lemma NewIsFound(ss: seq<Section>, s: Section)
    requires !Has(ss, s.name)
    ensures Find(ss + [s], s.name) == |ss| && NamesKept(ss, ss + [s])
  {
    var k := Find(ss + [s], s.name);
    assert (ss + [s])[|ss|] == s;
    assert forall j :: 0 <= j < |ss| ==> (ss + [s])[j] == ss[j];
  }

  lemma NewSectionPlaced(p: Placing, name: Name, data: seq<Byte>, location: int)
    requires PlacedWell(p.sections, p.names, location, p.address) && !Has(p.sections, name)
    ensures var q := NewSection(p, name, data);
      PlacedWell(q.sections, q.names, location, q.address) && NamesKept(p.sections, q.sections) && p.sections <= q.sections
  {
    var q := NewSection(p, name, data);
    NewIsFound(p.sections, Section(name, p.address, 1, data));
    PlacedStays(p.sections, q.sections, p.names, location, p.address);
    PlacedMore(q.sections, p.names, location, p.address, name);
  }

  /** A section that has not been placed yet is placed at the next aligned address. */
  lemma SectionPlaced(p: Placing, name: Name, naming: Naming, location: int)
    requires PlacedWell(p.sections, p.names, location, p.address) && name !in p.names
    requires PlaceInput(p, SectionInput(name), naming).Ok?
    ensures var q := PlaceInput(p, SectionInput(name), naming).value; PlacedWell(q.sections, q.names, location, q.address)
  {
    var ss := WithSection(p.sections, name);
    var k := Find(ss, name);
    var q := PlaceInput(p, SectionInput(name), naming).value;
    RoundUpAligns(p.address, ss[k].alignment);
    assert NamesKept(ss, q.sections) && NamesKept(p.sections, ss);
    NamesKeptTwice(p.sections, ss, q.sections);
    KeptHas(ss, q.sections, name);
    PlacedStays(p.sections, q.sections, p.names, location, p.address);
    PlacedLower(q.sections, p.names, location, p.address, RoundUp(p.address, ss[k].alignment));
    PlacedMore(q.sections, p.names, location, RoundUp(p.address, ss[k].alignment), name);
  }

  /** What one input does to the other sections. */
  lemma InputKeeps(p: Placing, input: Input, naming: Naming)
    ensures var r := PlaceInput(p, input, naming);
      r.Ok? ==>
        && NamesKept(p.sections, r.value.sections)
        && r.value.names == p.names + NamesOf([input], naming)
        && forall names :: (forall n :: n in NamesOf([input], naming) ==> n !in names) ==> SameWhere(p.sections, r.value.sections, names)
  {
    var r := PlaceInput(p, input, naming);
    assert NamesOf([input], naming) == (match input
       case SectionInput(name) => [name]
       case SectionData(name) => [naming(name)]
       case SymbolDefinition(name) => [naming(name)]
       case Align(_) => []) by {
      assert [input][1..] == [];
    }
    if r.Ok? && input.SectionInput? {
      assert p.sections <= WithSection(p.sections, input.name);
    }
  }

  /** ----- all inputs of a memory ----- */

  lemma InputPlaced(p: Placing, input: Input, naming: Naming, location: int)
    requires PlacedWell(p.sections, p.names, location, p.address) && forall n :: n in NamesOf([input], naming) ==> n !in p.names
    ensures var r := PlaceInput(p, input, naming);
      r.Ok? ==> PlacedWell(r.value.sections, r.value.names, location, r.value.address)
  {
    var r := PlaceInput(p, input, naming);
    assert [input][1..] == [];
    if r.Ok? {
      match input {
        case SectionInput(name) =>
          assert NamesOf([input], naming) == [name];
          SectionPlaced(p, name, naming, location);
        case SectionData(name) =>
          NewSectionPlaced(p, naming(name), if Has(p.sections, name) then Lookup(p.sections, name).data else [], location);
        case SymbolDefinition(name) =>
          NewSectionPlaced(p, naming(name), [], location);
        case Align(alignment) =>
          PlacedLower(p.sections, p.names, location, p.address, r.value.address);
      }
    }
  }

  lemma NamesOfSplit(inputs: seq<Input>, naming: Naming)
    requires inputs != []
    ensures NamesOf(inputs, naming) == NamesOf([inputs[0]], naming) + NamesOf(inputs[1..], naming)
  {
    assert [inputs[0]][1..] == [];
  }

  lemma DistinctParts(a: seq<Name>, b: seq<Name>, c: seq<Name>)
    requires Distinct(a + (b + c))
    ensures Distinct((a + b) + c) && (forall n :: n in b ==> n !in a)
  {
    assert (a + b) + c == a + (b + c);
    var all := a + (b + c);
    forall n | n in b
      ensures n !in a
    {
      var k :| 0 <= k < |b| && b[k] == n;
      assert all[|a| + k] == n;
      assert forall j :: 0 <= j < |a| ==> all[j] == a[j];
    }
  }

  lemma SameWhereTwice(a: seq<Section>, b: seq<Section>, c: seq<Section>, names: seq<Name>)
    requires SameWhere(a, b, names) && SameWhere(b, c, names)
    ensures SameWhere(a, c, names)
  {
  }

  lemma {:induction false} InputsPlaced(p: Placing, inputs: seq<Input>, naming: Naming, location: int)
    requires PlacedWell(p.sections, p.names, location, p.address) && Distinct(p.names + NamesOf(inputs, naming))
    ensures var r := PlaceInputs(p, inputs, naming);
      r.Ok? ==>
        && PlacedWell(r.value.sections, r.value.names, location, r.value.address)
        && r.value.names == p.names + NamesOf(inputs, naming)
    decreases |inputs|
  {
    hide PlaceInput, PlacedWell, NamesOf, SameWhere, Distinct, NamesKept;
    if inputs == [] {
      NoInputs(naming);
      assert p.names + [] == p.names;
    } else {
      var first, rest := NamesOf([inputs[0]], naming), NamesOf(inputs[1..], naming);
      NamesOfSplit(inputs, naming);
      DistinctParts(p.names, first, rest);
      InputPlaced(p, inputs[0], naming, location);
      InputNames(p, inputs[0], naming);
      var r := PlaceInput(p, inputs[0], naming);
      if r.Ok? {
        InputsPlaced(r.value, inputs[1..], naming, location);
        assert p.names + first + rest == p.names + (first + rest);
      }
    }
  }

  lemma NoInputs(naming: Naming)
    ensures NamesOf([], naming) == []
  {
  }

  lemma InputNames(p: Placing, input: Input, naming: Naming)
    ensures var r := PlaceInput(p, input, naming); r.Ok? ==> r.value.names == p.names + NamesOf([input], naming)
  {
    InputKeeps(p, input, naming);
  }

  lemma {:induction false} InputsKeep(p: Placing, inputs: seq<Input>, naming: Naming, names: seq<Name>)
    requires forall n :: n in NamesOf(inputs, naming) ==> n !in names
    ensures var r := PlaceInputs(p, inputs, naming); r.Ok? ==> SameWhere(p.sections, r.value.sections, names)
    decreases |inputs|
  {
    if inputs != [] {
      NamesOfSplit(inputs, naming);
      InputKeeps(p, inputs[0], naming);
      var r := PlaceInput(p, inputs[0], naming);
      hide PlaceInput, NamesOf, SameWhere;
      if r.Ok? {
        InputsKeep(r.value, inputs[1..], naming, names);
        if PlaceInputs(p, inputs, naming).Ok? {
          SameWhereTwice(p.sections, r.value.sections, PlaceInputs(p, inputs, naming).value.sections, names);
        }
      }
    }
  }

  /** ----- a memory, all memories ----- */

  /** The image has its sections in order, apart, aligned, and inside the memory. */
  ghost predicate GoodImage(ss: seq<Section>, image: Image, mem: Memory) {
    && image.name == mem.name && image.address == mem.location
    && PlacedWell(ss, image.sections, mem.location, mem.location + mem.size)
  }

  lemma MemoryPlaced(obj: Obj, mem: Memory, naming: Naming)
    requires Distinct(NamesOf(mem.inputs, naming))
    ensures var r := PlaceMemory(obj, mem, naming);
      && (r.Failed? && r.error == SectionsOverlap ==>
            PlaceInputs(Placing(obj.sections, obj.symbols, mem.location, []), mem.inputs, naming) == Failed(SectionsOverlap))
      && (r.Ok? ==>
            var image := Image(mem.name, mem.location, NamesOf(mem.inputs, naming));
            r.value.images == obj.images + [image] && GoodImage(r.value.sections, image, mem))
  {
    var p := Placing(obj.sections, obj.symbols, mem.location, []);
    assert [] + NamesOf(mem.inputs, naming) == NamesOf(mem.inputs, naming);
    assert Named(obj.sections, []) == [];
    InputsPlaced(p, mem.inputs, naming, mem.location);
    var q := PlaceInputs(p, mem.inputs, naming);
    if q.Ok? {
      ImageExists(Named(q.value.sections, q.value.names), mem.location);
    }
  }

  lemma NothingOverlaps(p: Placing, inputs: seq<Input>, naming: Naming)
    ensures PlaceInputs(p, inputs, naming) != Failed(SectionsOverlap)
    decreases |inputs|
  {
    if inputs != [] {
      var r := PlaceInput(p, inputs[0], naming);
      if r.Ok? {
        NothingOverlaps(r.value, inputs[1..], naming);
      }
    }
  }

  lemma GoodImageStays(ss: seq<Section>, ts: seq<Section>, image: Image, mem: Memory)
    requires GoodImage(ss, image, mem) && SameWhere(ss, ts, image.sections)
    ensures GoodImage(ts, image, mem)
  {
    PlacedStays(ss, ts, image.sections, mem.location, mem.location + mem.size);
  }

  lemma {:induction false} MemoriesKeep(obj: Obj, mems: seq<Memory>, naming: Naming, names: seq<Name>)
    requires forall n :: n in AllNames(mems, naming) ==> n !in names
    ensures var r := PlaceMemories(obj, mems, naming);
      r.Ok? ==> SameWhere(obj.sections, r.value.sections, names) && obj.images <= r.value.images
    decreases |mems|
  {
    if mems != [] {
      InputsKeep(Placing(obj.sections, obj.symbols, mems[0].location, []), mems[0].inputs, naming, names);
      var r := PlaceMemory(obj, mems[0], naming);
      if r.Ok? {
        MemoriesKeep(r.value, mems[1..], naming, names);
        if PlaceMemories(obj, mems, naming).Ok? {
          SameWhereTwice(obj.sections, r.value.sections, PlaceMemories(obj, mems, naming).value.sections, names);
        }
      }
    }
  }

  lemma AllNamesSplit(mems: seq<Memory>, naming: Naming)
    requires mems != [] && Distinct(AllNames(mems, naming))
    ensures Distinct(NamesOf(mems[0].inputs, naming)) && Distinct(AllNames(mems[1..], naming))
    ensures forall n :: n in AllNames(mems[1..], naming) ==> n !in NamesOf(mems[0].inputs, naming)
  {
    var a, b := NamesOf(mems[0].inputs, naming), AllNames(mems[1..], naming);
    assert AllNames(mems, naming) == a + b;
    assert b + [] == b;
    DistinctParts(a, b, []);
    assert forall j :: 0 <= j < |b| ==> (a + b)[|a| + j] == b[j];
    assert forall j :: 0 <= j < |a| ==> (a + b)[j] == a[j];
  }

  /** When no section is placed twice, a layout never overlaps, and every image is good. */
  lemma {:induction false} LayoutIsGood(obj: Obj, mems: seq<Memory>, naming: Naming)
    requires Distinct(AllNames(mems, naming))
    ensures var r := PlaceMemories(obj, mems, naming);
      && r != Failed(SectionsOverlap)
      && (r.Ok? ==> |r.value.images| == |obj.images| + |mems|)
      && (r.Ok? ==> forall k :: 0 <= k < |mems| ==> GoodImage(r.value.sections, r.value.images[|obj.images| + k], mems[k]))
    decreases |mems|
  {
    hide GoodImage, PlaceInputs, NamesOf, SameWhere, Distinct;
    if mems != [] {
      AllNamesSplit(mems, naming);
      var mem := mems[0];
      MemoryPlaced(obj, mem, naming);
      NothingOverlaps(Placing(obj.sections, obj.symbols, mem.location, []), mem.inputs, naming);
      var r := PlaceMemory(obj, mem, naming);
      hide PlaceMemory;
      if r.Ok? {
        LayoutIsGood(r.value, mems[1..], naming);
        var image := Image(mem.name, mem.location, NamesOf(mem.inputs, naming));
        MemoriesKeep(r.value, mems[1..], naming, image.sections);
        var all := PlaceMemories(obj, mems, naming);
        if all.Ok? {
          GoodImageStays(r.value.sections, all.value.sections, image, mem);
          assert all.value.images[|obj.images|] == image;
          assert forall k :: 1 <= k < |mems| ==> mems[k] == mems[1..][k - 1];
        }
      }
    }
  }

  /** ----- sections placed twice ----- */

  /** The images of a layout, whatever it places. */
  lemma {:induction false} LayoutImages(obj: Obj, mems: seq<Memory>, naming: Naming)
    ensures var r := PlaceMemories(obj, mems, naming);
      r.Ok? ==>
        && |r.value.images| == |obj.images| + |mems| && obj.images <= r.value.images
        && forall k :: 0 <= k < |mems| ==>
             r.value.images[|obj.images| + k] == Image(mems[k].name, mems[k].location, NamesOf(mems[k].inputs, naming))
    decreases |mems|
  {
    hide PlaceMemory, NamesOf;
    if mems != [] {
      MemoryImage(obj, mems[0], naming);
      var r := PlaceMemory(obj, mems[0], naming);
      if r.Ok? {
        LayoutImages(r.value, mems[1..], naming);
        assert forall k :: 1 <= k < |mems| ==> mems[k] == mems[1..][k - 1];
      }
    }
  }

  lemma MemoryImage(obj: Obj, mem: Memory, naming: Naming)
    ensures var r := PlaceMemory(obj, mem, naming);
      r.Ok? ==> r.value.images == obj.images + [Image(mem.name, mem.location, NamesOf(mem.inputs, naming))]
  {
    hide PlaceInputs, NamesOf, ImageFrom, Has, HasAll;
    var none: seq<Name>, names := [], NamesOf(mem.inputs, naming);
    assert none + names == names;
    InputsNames(Placing(obj.sections, obj.symbols, mem.location, none), mem.inputs, naming);
  }

  lemma {:induction false} InputsNames(p: Placing, inputs: seq<Input>, naming: Naming)
    ensures var r := PlaceInputs(p, inputs, naming); r.Ok? ==> r.value.names == p.names + NamesOf(inputs, naming)
    decreases |inputs|
  {
    hide PlaceInput, NamesOf;
    if inputs == [] {
      NoInputs(naming);
    } else {
      NamesOfSplit(inputs, naming);
      InputNames(p, inputs[0], naming);
      var r := PlaceInput(p, inputs[0], naming);
      if r.Ok? {
        InputsNames(r.value, inputs[1..], naming);
        assert p.names + NamesOf([inputs[0]], naming) + NamesOf(inputs[1..], naming) == p.names + NamesOf(inputs, naming);
      }
    }
  }

  predicate MemoriesApart(mems: seq<Memory>) {
    forall j, k :: 0 <= j < k < |mems| ==>
      mems[j].location + mems[j].size <= mems[k].location || mems[k].location + mems[k].size <= mems[j].location
  }

  /** Every section that is there twice has some bytes. */
  predicate TwiceHasData(ss: seq<Section>, names: seq<Name>) {
    forall j, k :: 0 <= j < k < |names| && names[j] == names[k] && Has(ss, names[j]) ==> Lookup(ss, names[j]).data != []
  }

  /** The images of the memories. */
  ghost predicate AllGood(ss: seq<Section>, mems: seq<Memory>, naming: Naming) {
    forall k :: 0 <= k < |mems| ==> GoodImage(ss, Image(mems[k].name, mems[k].location, NamesOf(mems[k].inputs, naming)), mems[k])
  }

  /** No section with bytes is twice in an image. */
  lemma GoodIsDistinct(ss: seq<Section>, image: Image, mem: Memory)
    requires GoodImage(ss, image, mem) && TwiceHasData(ss, image.sections)
    ensures Distinct(image.sections)
  {
    var names := image.sections;
    forall j, k | 0 <= j < k < |names|
      ensures names[j] != names[k]
    {
      assert Has(ss, names[j]) && Has(ss, names[k]);
      var all := Named(ss, names);
      assert all[j] == Lookup(ss, names[j]) && all[k] == Lookup(ss, names[k]);
      OrderKeepsApart(all, mem.location, j);
    }
  }

  /** A section with bytes is inside one memory only. */
  lemma {:induction false} GoodIsElsewhere(ss: seq<Section>, name: Name, mem: Memory, mems: seq<Memory>, naming: Naming)
    requires Has(ss, name) && Lookup(ss, name).data != []
    requires mem.location <= Lookup(ss, name).address && Lookup(ss, name).End() <= mem.location + mem.size
    requires MemoriesApart([mem] + mems) && AllGood(ss, mems, naming)
    ensures name !in AllNames(mems, naming)
    decreases |mems|
  {
    if mems != [] {
      var image := Image(mems[0].name, mems[0].location, NamesOf(mems[0].inputs, naming));
      assert GoodImage(ss, image, mems[0]);
      hide GoodImage, NamesOf;
      forall n | 0 <= n < |image.sections|
        ensures image.sections[n] != name
      {
        GoodImageData(ss, image, mems[0], n);
        assert ([mem] + mems)[0] == mem && ([mem] + mems)[1] == mems[0];
      }
      forall j, k | 0 <= j < k < |[mem] + mems[1..]|
        ensures var all := [mem] + mems[1..];
          all[j].location + all[j].size <= all[k].location || all[k].location + all[k].size <= all[j].location
      {
        assert ([mem] + mems)[if j == 0 then 0 else j + 1] == ([mem] + mems[1..])[j];
        assert ([mem] + mems)[k + 1] == ([mem] + mems[1..])[k];
      }
      RestIsGood(ss, mems, naming);
      GoodIsElsewhere(ss, name, mem, mems[1..], naming);
    }
  }

  lemma RestIsGood(ss: seq<Section>, mems: seq<Memory>, naming: Naming)
    requires mems != [] && AllGood(ss, mems, naming)
    ensures AllGood(ss, mems[1..], naming)
  {
    assert forall k :: 0 <= k < |mems| - 1 ==> mems[1..][k] == mems[k + 1];
  }

  lemma DistinctSum(a: seq<Name>, b: seq<Name>)
    requires Distinct(a) && Distinct(b) && forall n :: n in a ==> n !in b
    ensures Distinct(a + b)
  {
    forall j, k | 0 <= j < k < |a + b|
      ensures (a + b)[j] != (a + b)[k]
    {
      if j < |a| <= k {
        assert (a + b)[j] in a && b[k - |a|] in b;
      }
    }
  }

  lemma TwiceParts(ss: seq<Section>, a: seq<Name>, b: seq<Name>)
    requires TwiceHasData(ss, a + b)
    ensures TwiceHasData(ss, a) && TwiceHasData(ss, b)
    ensures forall n :: n in a && n in b && Has(ss, n) ==> Lookup(ss, n).data != []
  {
    var all := a + b;
    forall j, k | 0 <= j < k < |a| && a[j] == a[k] && Has(ss, a[j])
      ensures Lookup(ss, a[j]).data != []
    {
      assert all[j] == a[j] && all[k] == a[k];
    }
    forall j, k | 0 <= j < k < |b| && b[j] == b[k] && Has(ss, b[j])
      ensures Lookup(ss, b[j]).data != []
    {
      assert all[|a| + j] == b[j] && all[|a| + k] == b[k];
    }
    forall n | n in a && n in b && Has(ss, n)
      ensures Lookup(ss, n).data != []
    {
      var j :| 0 <= j < |a| && a[j] == n;
      var k :| 0 <= k < |b| && b[k] == n;
      assert all[j] == n && all[|a| + k] == n;
    }
  }

  /** Where all images are good, no section with bytes has been placed twice. */
  lemma {:induction false} GoodAreDistinct(ss: seq<Section>, mems: seq<Memory>, naming: Naming)
    requires MemoriesApart(mems) && AllGood(ss, mems, naming) && TwiceHasData(ss, AllNames(mems, naming))
    ensures Distinct(AllNames(mems, naming))
    decreases |mems|
  {
    if mems != [] {
      var mem, a, b := mems[0], NamesOf(mems[0].inputs, naming), AllNames(mems[1..], naming);
      var image := Image(mem.name, mem.location, a);
      assert GoodImage(ss, image, mem);
      assert AllNames(mems, naming) == a + b;
      hide GoodImage, AllNames, NamesOf, Distinct, TwiceHasData;
      TwiceParts(ss, a, b);
      RestIsGood(ss, mems, naming);
      assert forall k :: 0 <= k < |mems| - 1 ==> mems[1..][k] == mems[k + 1];
      GoodAreDistinct(ss, mems[1..], naming);
      GoodIsDistinct(ss, image, mem);
      forall n | n in a
        ensures n !in b
      {
        var k :| 0 <= k < |a| && a[k] == n;
        GoodImageData(ss, image, mem, k);
        if n in b {
          assert [mem] + mems[1..] == mems;
          GoodIsElsewhere(ss, n, mem, mems[1..], naming);
        }
      }
      DistinctSum(a, b);
    }
  }

  /** One section in two memories: the layout succeeds, but the section has gone from the first
      image, which is now larger than its memory. */
  lemma SharedSectionMoves(naming: Naming)
    ensures var obj := Obj([Section(0, 0, 1, [1])], [], [], [], None);
      var first, second := Memory(0, 0, 8, [SectionInput(0)]), Memory(1, 100, 8, [SectionInput(0)]);
      var e := Obj([Section(0, 100, 1, [1])], [], [], [Image(0, 0, [0]), Image(1, 100, [0])], None);
      && PlaceMemories(obj, [first, second], naming) == Ok(e)
      && !GoodImage(e.sections, e.images[0], first)
      && Has(e.sections, 0) && HasAll(e.sections, [0])
      && var data := ImageFrom(Named(e.sections, [0]), 0); data.Ok? && |data.value| == 101
  {
    var one: seq<Byte> := [1];
    var none: seq<Image> := [];
    var first, second := Memory(0, 0, 8, [SectionInput(0)]), Memory(1, 100, 8, [SectionInput(0)]);
    var obj := Obj([Section(0, 0, 1, one)], [], [], none, None);
    var middle := Obj([Section(0, 0, 1, one)], [], [], [Image(0, 0, [0])], None);
    var e := Obj([Section(0, 100, 1, one)], [], [], [Image(0, 0, [0]), Image(1, 100, [0])], None);
    OneSectionPlaced(obj, first, naming);
    assert none + [Image(0, 0, [0])] == [Image(0, 0, [0])];
    assert PlaceMemory(obj, first, naming) == Ok(middle);
    OneSectionPlaced(middle, second, naming);
    assert middle.images + [Image(1, 100, [0])] == e.images;
    assert PlaceMemory(middle, second, naming) == Ok(e);
    assert [first, second][1..] == [second] && [second][1..] == [];
    assert PlaceMemories(middle, [second], naming) == PlaceMemories(e, [], naming);
    OneSectionAlone(e.sections[0], 0);
    assert !GoodImage(e.sections, e.images[0], first);
  }

  lemma OneSectionAlone(s: Section, address: int)
    requires address <= s.address
    ensures Has([s], s.name) && HasAll([s], [s.name]) && Named([s], [s.name]) == [s]
    ensures ImageFrom([s], address) == Ok(Zeros(s.address - address) + s.data) && EndOf([s], address) == s.End()
  {
    assert [s][1..] == [];
    var rest: seq<Byte> := [];
    assert Zeros(s.address - address) + s.data + rest == Zeros(s.address - address) + s.data;
  }

  /** An object with one section, placed at the start of a memory. */
  lemma OneSectionPlaced(obj: Obj, mem: Memory, naming: Naming)
    requires |obj.sections| == 1 && obj.sections[0].name == 0 && obj.sections[0].alignment == 1
    requires mem.inputs == [SectionInput(0)] && |obj.sections[0].data| <= mem.size
    ensures PlaceMemory(obj, mem, naming)
      == Ok(obj.(sections := [obj.sections[0].(address := mem.location)], images := obj.images + [Image(mem.name, mem.location, [0])]))
  {
    var s := obj.sections[0];
    var t := s.(address := mem.location);
    var p := Placing(obj.sections, obj.symbols, mem.location, []);
    var names: seq<Name> := [];
    assert names + [0] == [0] && obj.sections == [s] && [s][0 := t] == [t];
    assert Find([s], 0) == 0 && WithSection([s], 0) == [s];
    assert RoundUp(mem.location, 1) == mem.location;
    var q := Placing([t], obj.symbols, mem.location + |s.data|, [0]);
    assert PlaceInput(p, SectionInput(0), naming) == Ok(q);
    assert mem.inputs[1..] == [];
    assert PlaceInputs(p, mem.inputs, naming) == PlaceInputs(q, [], naming);
    OneSectionAlone(t, mem.location);
  }

  /** After a successful layout of memories that are apart, all images are good exactly when no
      section has been placed twice, sections without bytes set aside. */
  lemma GoodWhenDistinct(obj: Obj, mems: seq<Memory>, naming: Naming)
    requires PlaceMemories(obj, mems, naming).Ok? && MemoriesApart(mems)
    requires TwiceHasData(PlaceMemories(obj, mems, naming).value.sections, AllNames(mems, naming))
    ensures var e := PlaceMemories(obj, mems, naming).value;
      && |e.images| == |obj.images| + |mems|
      && ((forall k :: 0 <= k < |mems| ==> GoodImage(e.sections, e.images[|obj.images| + k], mems[k]))
          <==> Distinct(AllNames(mems, naming)))
  {
    hide PlaceMemories, GoodImage, AllNames, NamesOf, Distinct, TwiceHasData;
    var e := PlaceMemories(obj, mems, naming).value;
    LayoutImages(obj, mems, naming);
    if Distinct(AllNames(mems, naming)) {
      LayoutIsGood(obj, mems, naming);
    }
    if forall k :: 0 <= k < |mems| ==> GoodImage(e.sections, e.images[|obj.images| + k], mems[k]) {
      forall k | 0 <= k < |mems|
        ensures GoodImage(e.sections, Image(mems[k].name, mems[k].location, NamesOf(mems[k].inputs, naming)), mems[k])
      {
        assert GoodImage(e.sections, e.images[|obj.images| + k], mems[k]);
      }
      GoodAreDistinct(e.sections, mems, naming);
    }
  }

  /** `Image.data` of a good image does not raise, fits the memory, and holds every section at its address. */
  lemma GoodImageData(ss: seq<Section>, image: Image, mem: Memory, k: nat)
    requires GoodImage(ss, image, mem) && k < |image.sections|
    ensures Has(ss, image.sections[k]) && HasAll(ss, image.sections)
    ensures var data := ImageFrom(Named(ss, image.sections), image.address); var s := Lookup(ss, image.sections[k]);
      && data.Ok? && |data.value| <= mem.size
      && mem.location <= s.address && s.End() <= mem.location + mem.size
      && s.alignment > 0 && s.address % s.alignment == 0
      && var at := s.address - image.address; 0 <= at <= at + |s.data| <= |data.value| && data.value[at..at + |s.data|] == s.data
  {
    var all := Named(ss, image.sections);
    assert all[k] == Lookup(ss, image.sections[k]);
    ImageExists(all, image.address);
    OrderKeepsApart(all, image.address, k);
    ImageHolds(all, image.address, k);
  }
}
