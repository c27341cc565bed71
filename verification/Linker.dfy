/**
  The linker: objects are merged into one object file that is changed in place,
  its sections are placed in memories, and holes are punched into it.
 */
module Linker {
  import opened Basics
  import opened Arithmetic
  import opened Objects
  import opened Linking
  import opened PartialLinking
  import opened Layouts
  import opened Relaxation
  import opened RelaxedObjects

  /** What an operation that may raise has done. */
  ghost predicate Outcome(expected: Result<Obj>, error: Option<Error>, after: Obj) {
    match expected
    case Ok(d) => error == None && after == d
    case Failed(e) => error == Some(e)
  }

  lemma FindNew(ss: seq<Section>, s: Section)
    requires !Has(ss, s.name)
    ensures Find(ss + [s], s.name) == |ss|
  {
    NewIsFound(ss, s);
  }

  /** `count_holes`, with a loop. */
  method CountTheHoles(offset: int, holes: seq<Hole>) returns (diff: nat)
    ensures diff == CountHoles(offset, holes)
  {
    diff := 0;
    var k := 0;
    while k < |holes|
      invariant k <= |holes| && CountHoles(offset, holes) == diff + CountHoles(offset, holes[k..])
    {
      assert holes[k..][0] == holes[k] && holes[k..][1..] == holes[k + 1..];
      if holes[k].offset >= offset {
        return;
      }
      diff := diff + holes[k].size;
      k := k + 1;
    }
    assert holes[k..] == [];
  }

  /** Takes the bytes of a hole out, one at a time. */
  method PopBytes(data: seq<Byte>, at: nat, n: nat) returns (r: seq<Byte>)
    requires at + n <= |data|
    ensures r == data[..at] + data[at + n..]
  {
    r := data;
    for i := 0 to n
      invariant r == data[..at] + data[at + i..]
    {
      assert r[..at] == data[..at] && r[at + 1..] == data[at + i + 1..];
      r := r[..at] + r[at + 1..];
    }
  }

  method PunchData(data: seq<Byte>, holes: seq<Hole>) returns (r: seq<Byte>)
    requires Fit(holes, |data|)
    ensures r == Punch(data, holes)
  {
    r := data;
    var k := |holes|;
    assert holes[..k] == holes;
    while k > 0
      invariant k <= |holes| && Fit(holes[..k], |r|) && Punch(data, holes) == Punch(r, holes[..k])
    {
      k := k - 1;
      ghost var left := holes[..k + 1];
      assert left[..|left| - 1] == holes[..k] && left[|left| - 1] == holes[k];
      FitSmaller(holes[..k], holes[k].offset, |r| - holes[k].size);
      OffsetsRise(left, |r|, k);
      r := PopBytes(r, holes[k].offset, holes[k].size);
    }
  }

  class Linker {
    const dst: ObjectFile

    constructor ()
      ensures fresh(dst) && dst.Model() == EmptyObj
    {
      dst := new ObjectFile();
    }

    /** ----- merging ----- */

    method GetSection(name: Name) returns (k: nat)
      modifies dst`sections
      ensures dst.sections == WithSection(old(dst.sections), name)
      ensures k < |dst.sections| && k == Find(dst.sections, name)
    {
      if !Has(dst.sections, name) {
        FindNew(dst.sections, Section(name, 0, DEFAULT_ALIGNMENT, []));
        dst.sections := dst.sections + [Section(name, 0, DEFAULT_ALIGNMENT, [])];
      }
      k := Find(dst.sections, name);
    }

    /** Pads and appends; the offset where the data went. */
    method AppendSection(s: Section) returns (r: Result<nat>)
      modifies dst`sections
      ensures match PlaceSection(old(dst.sections), s)
        case Ok(p) => r == Ok(p.1) && dst.sections == p.0
        case Failed(e) => r == Failed(e)
    {
      var k := GetSection(s.name);
      var o := dst.sections[k];
      var alignment := if s.alignment > o.alignment then s.alignment else o.alignment;
      if s.alignment == 0 {
        return Failed(ZeroAlignment);
      }
      var data := o.data;
      Rounding(|o.data|, s.alignment);
      while |data| % s.alignment != 0
        invariant dst.sections == WithSection(old(dst.sections), s.name)
        invariant data == o.data + Zeros(|data| - |o.data|)
        invariant |o.data| <= |data| <= |o.data| + Padding(|o.data|, s.alignment)
        decreases |o.data| + Padding(|o.data|, s.alignment) - |data|
      {
        if |data| == |o.data| + Padding(|o.data|, s.alignment) {
          PaddedIsAligned(o.data, s.alignment);
        }
        data := data + [0];
        assert Zeros(|data| - |o.data|) == Zeros(|data| - 1 - |o.data|) + [0];
      }
      FirstMultiple(|o.data|, |data|, s.alignment);
      dst.sections := dst.sections[k := o.(alignment := alignment, data := data + s.data)];
      r := Ok(|data|);
    }

    method MergeGlobalSymbol(name: Name, value: Option<int>, section: Option<Name>) returns (r: Result<nat>)
      modifies dst`symbols
      ensures match MergeGlobal(old(dst.symbols), name, value, section)
        case Ok(p) => r == Ok(p.1) && dst.symbols == p.0
        case Failed(e) => r == Failed(e)
    {
      var k := FindGlobal(dst.symbols, name);
      if k < |dst.symbols| {
        var y := dst.symbols[k];
        if value.Some? {
          if y.value.Some? {
            return Failed(MultipleDefinition);
          }
          dst.symbols := dst.symbols[k := y.(value := value, section := section)];
        }
        r := Ok(y.id);
      } else {
        r := Ok(|dst.symbols|);
        dst.symbols := dst.symbols + [Symbol(|dst.symbols|, name, true, value, section)];
      }
    }

    method AddSymbol(offsets: Offsets, y: Symbol) returns (r: Result<nat>)
      modifies dst`symbols
      ensures match PlaceSymbol(old(dst.symbols), offsets, y)
        case Ok(p) => r == Ok(p.1) && dst.symbols == p.0
        case Failed(e) => r == Failed(e)
    {
      var value: Option<int>, section: Option<Name> := None, None;
      if y.value.Some? {
        if y.section.None? || y.section.value !in offsets {
          return Failed(UnknownKey);
        }
        value, section := Some(offsets[y.section.value] + y.value.value), y.section;
      }
      if y.isGlobal {
        r := MergeGlobalSymbol(y.name, value, section);
      } else {
        r := Ok(|dst.symbols|);
        dst.symbols := dst.symbols + [Symbol(|dst.symbols|, y.name, false, value, section)];
      }
    }

    method AppendSections(ss: seq<Section>) returns (r: Result<Offsets>)
      modifies dst`sections
      ensures match PlaceTo(old(dst.sections), ss, |ss|)
        case Ok(p) => r == Ok(p.1) && dst.sections == p.0
        case Failed(e) => r == Failed(e)
    {
      ghost var before := dst.sections;
      var offsets: Offsets := map[];
      for k := 0 to |ss|
        invariant PlaceTo(before, ss, k) == Ok((dst.sections, offsets))
      {
        var p := AppendSection(ss[k]);
        if p.Failed? {
          FailsFrom(before, ss, k + 1, |ss|);
          return Failed(p.error);
        }
        offsets := offsets[ss[k].name := p.value];
      }
      r := Ok(offsets);
    }

    method AddSymbols(offsets: Offsets, ys: seq<Symbol>) returns (r: Result<map<nat, nat>>)
      modifies dst`symbols
      ensures match SymbolsTo(old(dst.symbols), offsets, ys, |ys|)
        case Ok(p) => r == Ok(p.1) && dst.symbols == p.0
        case Failed(e) => r == Failed(e)
    {
      ghost var before := dst.symbols;
      var ids: map<nat, nat> := map[];
      for k := 0 to |ys|
        invariant SymbolsTo(before, offsets, ys, k) == Ok((dst.symbols, ids))
      {
        var p := AddSymbol(offsets, ys[k]);
        if p.Failed? {
          SymbolsFailFrom(before, offsets, ys, k + 1, |ys|);
          return Failed(p.error);
        }
        ids := ids[ys[k].id := p.value];
      }
      r := Ok(ids);
    }

    method AddRelocations(offsets: Offsets, ids: map<nat, nat>, rs: seq<Reloc>) returns (error: Option<Error>)
      modifies dst`relocations
      ensures match RelocsTo(old(dst.relocations), offsets, ids, rs, |rs|)
        case Ok(p) => error == None && dst.relocations == p
        case Failed(e) => error == Some(e)
    {
      ghost var before := dst.relocations;
      for k := 0 to |rs|
        invariant RelocsTo(before, offsets, ids, rs, k) == Ok(dst.relocations)
      {
        var p := PlaceReloc(offsets, ids, rs[k]);
        if p.Failed? {
          RelocsFailFrom(before, offsets, ids, rs, k + 1, |rs|);
          return Some(p.error);
        }
        dst.relocations := dst.relocations + [p.value];
      }
      error := None;
    }

    /** `inject_object`. */
    method InjectObject(obj: Obj) returns (error: Option<Error>)
      modifies dst
      ensures Outcome(Inject(old(dst.Model()), obj), error, dst.Model())
    {
      hide PlaceTo, SymbolsTo, RelocsTo;
      var offsets := AppendSections(obj.sections);
      if offsets.Failed? {
        return Some(offsets.error);
      }
      var ids := AddSymbols(offsets.value, obj.symbols);
      if ids.Failed? {
        return Some(ids.error);
      }
      var e := AddRelocations(offsets.value, ids.value, obj.relocations);
      if e.Some? {
        return e;
      }
      if obj.entry.Some? {
        if dst.entry.Some? {
          return Some(MultipleEntry);
        }
        if obj.entry.value !in ids.value {
          return Some(UnknownKey);
        }
        dst.entry := Some(ids.value[obj.entry.value]);
      }
      error := None;
    }

    /** `merge_objects`. */
    method MergeObjects(objs: seq<Obj>) returns (error: Option<Error>)
      modifies dst
      ensures Outcome(LinkFrom(old(dst.Model()), objs), error, dst.Model())
    {
      hide Inject;
      ghost var before := dst.Model();
      var k := 0;
      assert objs[0..] == objs;
      while k < |objs|
        invariant k <= |objs| && LinkFrom(before, objs) == LinkFrom(dst.Model(), objs[k..])
      {
        assert objs[k..][0] == objs[k] && objs[k..][1..] == objs[k + 1..];
        error := InjectObject(objs[k]);
        if error.Some? {
          return;
        }
        k := k + 1;
      }
      assert objs[k..] == [];
      error := None;
    }

    /** ----- layout ----- */

    /** Adds one until the address is aligned. */
    method AlignAddress(address: int, alignment: nat) returns (r: int)
      requires alignment > 0
      ensures r == RoundUp(address, alignment)
    {
      r := address;
      RoundUpAligns(address, alignment);
      while r % alignment != 0
        invariant address <= r <= RoundUp(address, alignment)
        decreases RoundUp(address, alignment) - r
      {
        r := r + 1;
      }
      FirstAligned(address, r, alignment);
    }

    method AddSectionAt(name: Name, address: int, data: seq<Byte>)
      modifies dst`sections
      ensures dst.sections == old(dst.sections) + [Section(name, address, 1, data)]
    {
      dst.sections := dst.sections + [Section(name, address, 1, data)];
    }

    /** One input of a memory: the new address, and the sections of the image so far. */
    method LayoutInput(input: Input, address: int, names: seq<Name>, naming: Naming) returns (r: Result<(int, seq<Name>)>)
      modifies dst`sections, dst`symbols
      ensures match PlaceInput(Placing(old(dst.sections), old(dst.symbols), address, names), input, naming)
        case Ok(p) => r == Ok((p.address, p.names)) && dst.sections == p.sections && dst.symbols == p.symbols
        case Failed(e) => r == Failed(e)
    {
      match input {
        case SectionInput(name) =>
          var k := GetSection(name);
          var s := dst.sections[k];
          if s.alignment == 0 {
            return Failed(ZeroAlignment);
          }
          var at := AlignAddress(address, s.alignment);
          dst.sections := dst.sections[k := s.(address := at)];
          r := Ok((at + |s.data|, names + [name]));
        case SectionData(name) =>
          if Has(dst.sections, naming(name)) {
            return Failed(SectionExists);
          }
          if !Has(dst.sections, name) && name != naming(name) {
            return Failed(UnknownKey);
          }
          var data := if Has(dst.sections, name) then Lookup(dst.sections, name).data else [];
          AddSectionAt(naming(name), address, data);
          r := Ok((address + |data|, names + [naming(name)]));
        case SymbolDefinition(name) =>
          if Has(dst.sections, naming(name)) {
            return Failed(SectionExists);
          }
          var m := MergeGlobalSymbol(name, Some(0), Some(naming(name)));
          if m.Failed? {
            return Failed(m.error);
          }
          AddSectionAt(naming(name), address, []);
          r := Ok((address, names + [naming(name)]));
        case Align(alignment) =>
          if alignment == 0 {
            return Failed(ZeroAlignment);
          }
          var at := AlignAddress(address, alignment);
          r := Ok((at, names));
      }
    }

    method LayoutInputs(inputs: seq<Input>, location: int, naming: Naming) returns (r: Result<(int, seq<Name>)>)
      modifies dst`sections, dst`symbols
      ensures match PlaceInputs(Placing(old(dst.sections), old(dst.symbols), location, []), inputs, naming)
        case Ok(p) => r == Ok((p.address, p.names)) && dst.sections == p.sections && dst.symbols == p.symbols
        case Failed(e) => r == Failed(e)
    {
      hide PlaceInput;
      ghost var before := Placing(dst.sections, dst.symbols, location, []);
      var address: int, names: seq<Name> := location, [];
      var k := 0;
      assert inputs[0..] == inputs;
      while k < |inputs|
        invariant k <= |inputs|
        invariant PlaceInputs(before, inputs, naming) == PlaceInputs(Placing(dst.sections, dst.symbols, address, names), inputs[k..], naming)
      {
        assert inputs[k..][0] == inputs[k] && inputs[k..][1..] == inputs[k + 1..];
        var p := LayoutInput(inputs[k], address, names, naming);
        if p.Failed? {
          return Failed(p.error);
        }
        address, names := p.value.0, p.value.1;
        k := k + 1;
      }
      assert inputs[k..] == [];
      r := Ok((address, names));
    }

    method LayoutMemory(mem: Memory, naming: Naming) returns (error: Option<Error>)
      modifies dst
      ensures Outcome(PlaceMemory(old(dst.Model()), mem, naming), error, dst.Model())
    {
      hide PlaceInputs;
      var r := LayoutInputs(mem.inputs, mem.location, naming);
      if r.Failed? {
        return Some(r.error);
      }
      if !HasAll(dst.sections, r.value.1) {
        return Some(UnknownKey);
      }
      var image := Image(mem.name, mem.location, r.value.1);
      var data := dst.ImageData(image);
      if data.Failed? {
        return Some(data.error);
      }
      if |data.value| > mem.size {
        return Some(MemoryExceeded);
      }
      dst.images := dst.images + [image];
      error := None;
    }

    /** `layout_sections`. */
    method LayoutSections(mems: seq<Memory>, naming: Naming) returns (error: Option<Error>)
      modifies dst
      ensures Outcome(PlaceMemories(old(dst.Model()), mems, naming), error, dst.Model())
    {
      hide PlaceMemory;
      ghost var before := dst.Model();
      var k := 0;
      assert mems[0..] == mems;
      while k < |mems|
        invariant k <= |mems| && PlaceMemories(before, mems, naming) == PlaceMemories(dst.Model(), mems[k..], naming)
      {
        assert mems[k..][0] == mems[k] && mems[k..][1..] == mems[k + 1..];
        error := LayoutMemory(mems[k], naming);
        if error.Some? {
          return;
        }
        k := k + 1;
      }
      assert mems[k..] == [];
      error := None;
    }

    /** ----- relaxation ----- */

    method ShiftSymbols(hs: Holes)
      modifies dst`symbols
      ensures |dst.symbols| == |old(dst.symbols)|
      ensures forall k :: 0 <= k < |dst.symbols| ==> dst.symbols[k] == ShiftSymbol(old(dst.symbols)[k], hs)
    {
      for k := 0 to |dst.symbols|
        invariant |dst.symbols| == |old(dst.symbols)|
        invariant forall j :: 0 <= j < |dst.symbols| ==>
          dst.symbols[j] == if j < k then ShiftSymbol(old(dst.symbols)[j], hs) else old(dst.symbols)[j]
      {
        var y := dst.symbols[k];
        if y.section.Some? && y.value.Some? {
          var delta := CountTheHoles(y.value.value, HolesOf(hs, y.section.value));
          dst.symbols := dst.symbols[k := y.(value := Some(y.value.value - delta))];
        }
      }
    }

    method ShiftRelocations(hs: Holes)
      modifies dst`relocations
      ensures |dst.relocations| == |old(dst.relocations)|
      ensures forall k :: 0 <= k < |dst.relocations| ==> dst.relocations[k] == ShiftReloc(old(dst.relocations)[k], hs)
    {
      for k := 0 to |dst.relocations|
        invariant |dst.relocations| == |old(dst.relocations)|
        invariant forall j :: 0 <= j < |dst.relocations| ==>
          dst.relocations[j] == if j < k then ShiftReloc(old(dst.relocations)[j], hs) else old(dst.relocations)[j]
      {
        var r := dst.relocations[k];
        var delta := CountTheHoles(r.offset, HolesOf(hs, r.section));
        dst.relocations := dst.relocations[k := r.(offset := r.offset - delta)];
      }
    }

    method PunchSections(hs: Holes)
      requires AllFit(dst.sections, hs)
      modifies dst`sections
      ensures dst.sections == PunchAll(old(dst.sections), hs)
    {
      hide Punch;
      ghost var before := dst.sections;
      for k := 0 to |dst.sections|
        invariant |dst.sections| == |before|
        invariant forall j :: k <= j < |before| ==> dst.sections[j] == before[j]
        invariant forall j :: 0 <= j < k ==> dst.sections[j] == PunchAll(before, hs)[j]
      {
        FitAt(before, hs, k);
        var data := PunchData(dst.sections[k].data, HolesOf(hs, dst.sections[k].name));
        dst.sections := dst.sections[k := dst.sections[k].(data := data)];
      }
    }

    method MoveSection(name: Name, delta: int)
      requires Has(dst.sections, name)
      modifies dst`sections
      ensures var k, ss := old(Find(dst.sections, name)), old(dst.sections);
        dst.sections == ss[k := ss[k].(address := ss[k].address - delta)]
    {
      var k := Find(dst.sections, name);
      dst.sections := dst.sections[k := dst.sections[k].(address := dst.sections[k].address - delta)];
    }

    /** The sections of one image move down by what those before them lost. */
    method MoveImage(image: Image, hs: Holes)
      requires HasAll(dst.sections, image.sections)
      modifies dst`sections
      ensures dst.sections == ShiftImage(old(dst.sections), image.sections, hs, |image.sections|).0
    {
      hide ShiftImage, SameNames, HasAll, Has, Total, HolesOf, Find;
      ghost var before := dst.sections;
      ShiftNothing(before, image.sections, hs);
      var delta, k := 0, 0;
      while k < |image.sections|
        invariant k <= |image.sections| && (dst.sections, delta) == ShiftImage(before, image.sections, hs, k)
      {
        k := k + 1;
        ShiftImageNext(before, image.sections, hs, k);
        MoveSection(image.sections[k - 1], delta);
        delta := delta + Total(HolesOf(hs, image.sections[k - 1]));
      }
    }

    method MoveImages(hs: Holes)
      requires ImagesKnown(dst.sections, dst.images)
      modifies dst`sections
      ensures dst.sections == ShiftImages(old(dst.sections), dst.images, hs, |dst.images|)
    {
      hide ShiftImages, ShiftImage, ImagesKnown, HasAll, Has;
      ghost var before := dst.sections;
      ShiftImagesNext(before, dst.images, hs, 0);
      var images, k := dst.images, 0;
      while k < |images|
        invariant k <= |images| && dst.sections == ShiftImages(before, images, hs, k)
      {
        k := k + 1;
        ShiftImagesNext(before, images, hs, k);
        MoveImage(images[k - 1], hs);
      }
    }

    /** `_apply_relaxation_holes`. */
    method ApplyRelaxationHoles(hs: Holes)
      requires AllFit(dst.sections, hs) && ImagesKnown(dst.sections, dst.images)
      modifies dst`sections, dst`symbols, dst`relocations
      ensures dst.Model() == RelaxObj(old(dst.Model()), hs)
    {
      ghost var before := dst.Model();
      KnownStays(before.sections, PunchAll(before.sections, hs), dst.images);
      hide ShiftSymbol, ShiftReloc, PunchAll, ShiftImages, ImagesKnown, AllFit;
      ShiftSymbols(hs);
      ShiftRelocations(hs);
      PunchSections(hs);
      MoveImages(hs);
    }
  }

  lemma ShiftNothing(ss: seq<Section>, names: seq<Name>, hs: Holes)
    requires HasAll(ss, names)
    ensures ShiftImage(ss, names, hs, 0) == (ss, 0)
  {
  }

  /** The first multiple at or above a number. */
  lemma FirstMultiple(n: nat, m: nat, a: nat)
    requires a > 0 && n <= m <= n + Padding(n, a) && m % a == 0
    ensures m == n + Padding(n, a)
  {
    if n % a != 0 {
      var d := m - n;
      if 0 <= d < a - n % a {
        assert m == a * (n / a) + (n % a + d);
        Remainder(m, a, n / a, n % a + d);
      }
    }
  }

  lemma {:induction false} FailsFrom(dst: seq<Section>, ss: seq<Section>, k: nat, n: nat)
    requires k <= n <= |ss| && PlaceTo(dst, ss, k).Failed?
    ensures PlaceTo(dst, ss, n) == PlaceTo(dst, ss, k)
    decreases n
  {
    hide PlaceSection;
    if k < n {
      FailsFrom(dst, ss, k, n - 1);
    }
  }

  lemma {:induction false} SymbolsFailFrom(dst: seq<Symbol>, offsets: Offsets, ys: seq<Symbol>, k: nat, n: nat)
    requires k <= n <= |ys| && SymbolsTo(dst, offsets, ys, k).Failed?
    ensures SymbolsTo(dst, offsets, ys, n) == SymbolsTo(dst, offsets, ys, k)
    decreases n
  {
    if k < n {
      SymbolsFailFrom(dst, offsets, ys, k, n - 1);
    }
  }

  lemma {:induction false} RelocsFailFrom(dst: seq<Reloc>, offsets: Offsets, ids: map<nat, nat>, rs: seq<Reloc>, k: nat, n: nat)
    requires k <= n <= |rs| && RelocsTo(dst, offsets, ids, rs, k).Failed?
    ensures RelocsTo(dst, offsets, ids, rs, n) == RelocsTo(dst, offsets, ids, rs, k)
    decreases n
  {
    if k < n {
      RelocsFailFrom(dst, offsets, ids, rs, k, n - 1);
    }
  }

  lemma FirstAligned(address: int, r: int, alignment: nat)
    requires alignment > 0 && address <= r <= RoundUp(address, alignment) && r % alignment == 0
    ensures r == RoundUp(address, alignment)
  {
    var rest := address % alignment;
    if rest != 0 {
      var d := r - address;
      if d < alignment - rest {
        assert address == alignment * (address / alignment) + rest;
        Remainder(r, alignment, address / alignment, rest + d);
      }
    }
  }
}
