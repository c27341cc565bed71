/**
  Where each input of a memory ends up, and what is there: sections at the next
  address that suits them, copies with the bytes of their source, symbols at the
  place where they are defined.
 */
module LayoutAddresses {
  import opened Basics
  import opened Arithmetic
  import opened Objects
  import opened Linking
  import opened PartialLinking
  import opened Layouts
  import opened Alignment

  /** The section that an input places. */
  function Places(input: Input, naming: Naming): Option<Name> {
    match input
    case SectionInput(name) => Some(name)
    case SectionData(name) => Some(naming(name))
    case SymbolDefinition(name) => Some(naming(name))
    case Align(_) => None
  }

  /** The address behind an input, seen from the finished sections: the end of the section it places,
      or the next multiple of an alignment. */
  function NextAddress(ss: seq<Section>, input: Input, naming: Naming, at: int): int {
    if input.Align? then (if input.alignment == 0 then at else RoundUp(at, input.alignment))
    else if Has(ss, Places(input, naming).value) then Lookup(ss, Places(input, naming).value).End()
    else at
  }

  /** The address that the first `n` inputs reach. */
  function Reach(ss: seq<Section>, inputs: seq<Input>, naming: Naming, at: int, n: nat): int
    requires n <= |inputs|
    decreases n
  {
    if n == 0 then at else Reach(ss, inputs[1..], naming, NextAddress(ss, inputs[0], naming, at), n - 1)
  }

  /** The global symbol of a name, defined somewhere in a section. */
  ghost predicate Defines(symbols: seq<Symbol>, name: Name, section: Name, value: int) {
    exists y :: 0 <= y < |symbols| && symbols[y].isGlobal && symbols[y].name == name
      && symbols[y].section == Some(section) && symbols[y].value == Some(value)
  }

  /** What has become of an input that came at an address. */
  ghost predicate Laid(ss: seq<Section>, symbols: seq<Symbol>, input: Input, naming: Naming, at: int) {
    match input
    case SectionInput(name) =>
      && Has(ss, name)
      && var s := Lookup(ss, name);
      s.alignment > 0 && s.address % s.alignment == 0 && at <= s.address < at + s.alignment
    case SectionData(name) =>
      && Has(ss, naming(name)) && Lookup(ss, naming(name)).address == at
      && (name == naming(name) ==> Lookup(ss, name).data == [])
      && (name != naming(name) ==> Has(ss, name) && Lookup(ss, naming(name)).data == Lookup(ss, name).data)
    case SymbolDefinition(name) =>
      && Has(ss, naming(name)) && Lookup(ss, naming(name)).data == []
      && exists value: int :: Defines(symbols, name, naming(name), value) && Lookup(ss, naming(name)).address + value == at
    case Align(alignment) =>
      && alignment > 0
      && NextAddress(ss, input, naming, at) % alignment == 0 && at <= NextAddress(ss, input, naming, at) < at + alignment
  }

  /** ----- one input ----- */

  lemma NamesOfOne(input: Input, naming: Naming)
    ensures NamesOf([input], naming) == if input.Align? then [] else [Places(input, naming).value]
  {
    assert [input][1..] == [];
  }

  lemma DefinedHere(symbols: seq<Symbol>, name: Name, section: Name, value: int)
    requires MergeGlobal(symbols, name, Some(value), Some(section)).Ok?
    ensures Defines(MergeGlobal(symbols, name, Some(value), Some(section)).value.0, name, section, value)
  {
    var k := FindGlobal(symbols, name);
    var r := MergeGlobal(symbols, name, Some(value), Some(section)).value.0;
    assert r[k].section == Some(section) && r[k].value == Some(value);
  }

  lemma InputLaid(p: Placing, input: Input, naming: Naming)
    requires PlaceInput(p, input, naming).Ok?
    ensures var q := PlaceInput(p, input, naming).value;
      Laid(q.sections, q.symbols, input, naming, p.address) && q.address == NextAddress(q.sections, input, naming, p.address)
  {
    var q := PlaceInput(p, input, naming).value;
    match input
    case SectionInput(name) =>
      var ss := WithSection(p.sections, name);
      RoundUpAligns(p.address, Lookup(ss, name).alignment);
      assert NamesKept(ss, q.sections);
      KeptHas(ss, q.sections, name);
    case SectionData(name) =>
      NewIsFound(p.sections, q.sections[|p.sections|]);
      if name != naming(name) {
        KeptHas(p.sections, q.sections, name);
      }
    case SymbolDefinition(name) =>
      NewIsFound(p.sections, q.sections[|p.sections|]);
      DefinedHere(p.symbols, name, naming(name), 0);
    case Align(alignment) =>
      RoundUpAligns(p.address, alignment);
  }

  /** ----- what comes later keeps it ----- */

  /** Definitions stay. */
  ghost predicate DefinesKept(a: seq<Symbol>, b: seq<Symbol>) {
    forall name: Name, section: Name, value: int :: Defines(a, name, section, value) ==> Defines(b, name, section, value)
  }

  lemma MergeKeepsDefined(symbols: seq<Symbol>, name: Name, value: Option<int>, section: Option<Name>)
    requires MergeGlobal(symbols, name, value, section).Ok?
    ensures DefinesKept(symbols, MergeGlobal(symbols, name, value, section).value.0)
  {
    var r := MergeGlobal(symbols, name, value, section).value.0;
    forall n: Name, s: Name, v: int | Defines(symbols, n, s, v)
      ensures Defines(r, n, s, v)
    {
      var y :| 0 <= y < |symbols| && symbols[y].isGlobal && symbols[y].name == n && symbols[y].section == Some(s) && symbols[y].value == Some(v);
      assert r[y] == symbols[y];
    }
  }

  lemma {:induction false} InputsKeepDefined(p: Placing, inputs: seq<Input>, naming: Naming)
    ensures var r := PlaceInputs(p, inputs, naming); r.Ok? ==> DefinesKept(p.symbols, r.value.symbols)
    decreases |inputs|
  {
    if inputs != [] {
      var r := PlaceInput(p, inputs[0], naming);
      if r.Ok? {
        if inputs[0].SymbolDefinition? {
          MergeKeepsDefined(p.symbols, inputs[0].name, Some(0), Some(naming(inputs[0].name)));
        }
        assert DefinesKept(p.symbols, r.value.symbols);
        hide Defines, PlaceInput;
        InputsKeepDefined(r.value, inputs[1..], naming);
      }
    }
  }

  /** From some sections and symbols to later ones: nothing about these names changes, and nothing but addresses elsewhere. */
  ghost predicate Later(ss: seq<Section>, ys: seq<Symbol>, ts: seq<Section>, zs: seq<Symbol>, names: seq<Name>) {
    SameWhere(ss, ts, names) && OnlyAddresses(ss, ts) && DefinesKept(ys, zs)
  }

  lemma LaterTwice(a: seq<Section>, x: seq<Symbol>, b: seq<Section>, y: seq<Symbol>, c: seq<Section>, z: seq<Symbol>, names: seq<Name>)
    requires Later(a, x, b, y, names) && Later(b, y, c, z, names)
    ensures Later(a, x, c, z, names)
  {
    hide Defines;
  }

  lemma SameLookup(ss: seq<Section>, ts: seq<Section>, names: seq<Name>, name: Name)
    requires SameWhere(ss, ts, names) && name in names && Has(ss, name)
    ensures Has(ts, name) && Lookup(ts, name) == Lookup(ss, name)
  {
    KeptHas(ss, ts, name);
  }

  lemma LaidStays(ss: seq<Section>, ys: seq<Symbol>, ts: seq<Section>, zs: seq<Symbol>, names: seq<Name>, input: Input, naming: Naming, at: int)
    requires Later(ss, ys, ts, zs, names) && Laid(ss, ys, input, naming, at)
    requires !input.Align? ==> Places(input, naming).value in names
    ensures Laid(ts, zs, input, naming, at) && NextAddress(ts, input, naming, at) == NextAddress(ss, input, naming, at)
  {
    hide Defines;
    if !input.Align? {
      SameLookup(ss, ts, names, Places(input, naming).value);
    }
    if input.SectionData? && input.name != naming(input.name) {
      SectionMoves(ss, ts, input.name);
      KeptHas(ss, ts, input.name);
    }
  }

  lemma InputsAreLater(p: Placing, inputs: seq<Input>, naming: Naming, names: seq<Name>)
    requires PlaceInputs(p, inputs, naming).Ok? && forall n :: n in NamesOf(inputs, naming) ==> n !in names
    ensures var q := PlaceInputs(p, inputs, naming).value; Later(p.sections, p.symbols, q.sections, q.symbols, names)
  {
    InputsKeep(p, inputs, naming, names);
    InputsMoveOnly(p, inputs, naming);
    InputsKeepDefined(p, inputs, naming);
  }

  /** ----- the inputs of a memory ----- */

  lemma {:induction false} InputsLaid(p: Placing, inputs: seq<Input>, naming: Naming, i: nat)
    requires PlaceInputs(p, inputs, naming).Ok? && Distinct(NamesOf(inputs, naming)) && i < |inputs|
    ensures var q := PlaceInputs(p, inputs, naming).value;
      Laid(q.sections, q.symbols, inputs[i], naming, Reach(q.sections, inputs, naming, p.address, i))
    decreases |inputs|
  {
    hide Laid, Later, NextAddress, PlaceInput, NamesOf, Distinct;
    var first, rest := inputs[0], inputs[1..];
    var next := PlaceInput(p, first, naming).value;
    var q := PlaceInputs(p, inputs, naming).value;
    NamesOfSplit(inputs, naming);
    NamesOfOne(first, naming);
    var names := NamesOf([first], naming);
    DistinctHalves(names, NamesOf(rest, naming));
    InputLaid(p, first, naming);
    InputsAreLater(next, rest, naming, names);
    LaidStays(next.sections, next.symbols, q.sections, q.symbols, names, first, naming, p.address);
    if i > 0 {
      InputsLaid(next, rest, naming, i - 1);
      assert rest[i - 1] == inputs[i];
    }
  }

  lemma DistinctHalves(a: seq<Name>, b: seq<Name>)
    requires Distinct(a + b)
    ensures Distinct(b) && forall n :: n in b ==> n !in a
  {
    var none: seq<Name> := [];
    assert b + none == b;
    DistinctParts(a, b, none);
    forall j, k | 0 <= j < k < |b|
      ensures b[j] != b[k]
    {
      assert (a + b)[|a| + j] == b[j] && (a + b)[|a| + k] == b[k];
    }
  }

  lemma {:induction false} ReachStays(ss: seq<Section>, ts: seq<Section>, inputs: seq<Input>, naming: Naming, names: seq<Name>, at: int, n: nat)
    requires SameWhere(ss, ts, names) && n <= |inputs|
    requires forall k :: 0 <= k < |inputs| && !inputs[k].Align? ==> Places(inputs[k], naming).value in names && Has(ss, Places(inputs[k], naming).value)
    ensures Reach(ts, inputs, naming, at, n) == Reach(ss, inputs, naming, at, n)
    decreases n
  {
    if n > 0 {
      if !inputs[0].Align? {
        SameLookup(ss, ts, names, Places(inputs[0], naming).value);
      }
      ReachStays(ss, ts, inputs[1..], naming, names, NextAddress(ss, inputs[0], naming, at), n - 1);
    }
  }

  lemma {:induction false} PlacedIsNamed(inputs: seq<Input>, naming: Naming, k: nat)
    requires k < |inputs| && !inputs[k].Align?
    ensures Places(inputs[k], naming).value in NamesOf(inputs, naming)
    decreases |inputs|
  {
    NamesOfSplit(inputs, naming);
    NamesOfOne(inputs[0], naming);
    if k > 0 {
      PlacedIsNamed(inputs[1..], naming, k - 1);
    }
  }

  /** ----- all memories ----- */

  lemma {:induction false} MemoriesAreLater(obj: Obj, mems: seq<Memory>, naming: Naming, names: seq<Name>)
    requires PlaceMemories(obj, mems, naming).Ok? && forall n :: n in AllNames(mems, naming) ==> n !in names
    ensures var e := PlaceMemories(obj, mems, naming).value; Later(obj.sections, obj.symbols, e.sections, e.symbols, names)
    decreases |mems|
  {
    hide Later, NamesOf, PlaceInputs, ImageFrom;
    if mems == [] {
      NothingLater(obj, names);
    } else {
      var e := PlaceMemories(obj, mems, naming).value;
      var r := PlaceMemory(obj, mems[0], naming).value;
      InputsAreLater(Placing(obj.sections, obj.symbols, mems[0].location, []), mems[0].inputs, naming, names);
      MemoriesAreLater(r, mems[1..], naming, names);
      LaterTwice(obj.sections, obj.symbols, r.sections, r.symbols, e.sections, e.symbols, names);
    }
  }

  lemma NothingLater(obj: Obj, names: seq<Name>)
    ensures Later(obj.sections, obj.symbols, obj.sections, obj.symbols, names)
  {
  }

  /**
    After a layout that places no section twice, the `i`-th input of the `m`-th
    memory is where the inputs before it have come to: a section at the first
    address from there on that suits it, a copy with the bytes of its source, a
    symbol with just that address; and an alignment goes on to its next multiple.
   */
  lemma {:induction false} LaidOut(obj: Obj, mems: seq<Memory>, naming: Naming, m: nat, i: nat)
    requires PlaceMemories(obj, mems, naming).Ok? && Distinct(AllNames(mems, naming))
    requires m < |mems| && i < |mems[m].inputs|
    ensures var e := PlaceMemories(obj, mems, naming).value;
      Laid(e.sections, e.symbols, mems[m].inputs[i], naming, Reach(e.sections, mems[m].inputs, naming, mems[m].location, i))
    decreases |mems|
  {
    hide Laid, Later, NamesOf, PlaceInputs, Distinct, Reach, ImageFrom;
    AllNamesSplit(mems, naming);
    var r := PlaceMemory(obj, mems[0], naming).value;
    if m > 0 {
      LaidOut(r, mems[1..], naming, m - 1, i);
    } else {
      var e := PlaceMemories(obj, mems, naming).value;
      var mem, p := mems[0], Placing(obj.sections, obj.symbols, mems[0].location, []);
      var names := NamesOf(mem.inputs, naming);
      InputsLaid(p, mem.inputs, naming, i);
      MemoriesAreLater(r, mems[1..], naming, names);
      LaidInMemory(r.sections, r.symbols, e.sections, e.symbols, p, mem.inputs, naming, i);
    }
  }

  lemma LaidInMemory(ss: seq<Section>, ys: seq<Symbol>, ts: seq<Section>, zs: seq<Symbol>, p: Placing, inputs: seq<Input>, naming: Naming, i: nat)
    requires PlaceInputs(p, inputs, naming).Ok? && Distinct(NamesOf(inputs, naming)) && i < |inputs|
    requires ss == PlaceInputs(p, inputs, naming).value.sections && Later(ss, ys, ts, zs, NamesOf(inputs, naming))
    requires Laid(ss, ys, inputs[i], naming, Reach(ss, inputs, naming, p.address, i))
    ensures Laid(ts, zs, inputs[i], naming, Reach(ts, inputs, naming, p.address, i))
  {
    var names := NamesOf(inputs, naming);
    forall k | 0 <= k < |inputs| && !inputs[k].Align?
      ensures Places(inputs[k], naming).value in names && Has(ss, Places(inputs[k], naming).value)
    {
      PlacedIsNamed(inputs, naming, k);
      InputsLaid(p, inputs, naming, k);
    }
    hide Laid, NamesOf, PlaceInputs, Distinct, NextAddress;
    LaidStays(ss, ys, ts, zs, names, inputs[i], naming, Reach(ss, inputs, naming, p.address, i));
    ReachStays(ss, ts, inputs, naming, names, p.address, i);
  }

  /** ----- what is refused ----- */

  /** An input is refused exactly for an alignment of zero, a copy or symbol that has a section already,
      a copy of nothing, or a symbol that is defined already. */
  lemma InputRefusedWhen(p: Placing, input: Input, naming: Naming)
    ensures PlaceInput(p, input, naming).Failed? <==>
      match input
      case SectionInput(name) => Has(p.sections, name) && Lookup(p.sections, name).alignment == 0
      case SectionData(name) => Has(p.sections, naming(name)) || (!Has(p.sections, name) && name != naming(name))
      case SymbolDefinition(name) =>
        || Has(p.sections, naming(name))
        || (FindGlobal(p.symbols, name) < |p.symbols| && p.symbols[FindGlobal(p.symbols, name)].value.Some?)
      case Align(alignment) => alignment == 0
  {
    if input.SectionInput? && !Has(p.sections, input.name) {
      NewIsFound(p.sections, Section(input.name, 0, DEFAULT_ALIGNMENT, []));
    }
  }

  /** A memory whose inputs can all be placed, none of them twice, is refused exactly when the last
      section ends beyond it. */
  lemma MemoryFitsWhen(obj: Obj, mem: Memory, naming: Naming)
    requires Distinct(NamesOf(mem.inputs, naming))
    requires PlaceInputs(Placing(obj.sections, obj.symbols, mem.location, []), mem.inputs, naming).Ok?
    ensures var q := PlaceInputs(Placing(obj.sections, obj.symbols, mem.location, []), mem.inputs, naming).value;
      && HasAll(q.sections, q.names)
      && (PlaceMemory(obj, mem, naming).Ok? <==> EndOf(Named(q.sections, q.names), mem.location) <= mem.location + mem.size)
      && (PlaceMemory(obj, mem, naming).Failed? ==> PlaceMemory(obj, mem, naming).error == MemoryExceeded)
  {
    var p := Placing(obj.sections, obj.symbols, mem.location, []);
    var none: seq<Name> := [];
    assert none + NamesOf(mem.inputs, naming) == NamesOf(mem.inputs, naming);
    assert Named(obj.sections, none) == [];
    hide PlaceInputs, NamesOf;
    InputsPlaced(p, mem.inputs, naming, mem.location);
    var q := PlaceInputs(p, mem.inputs, naming).value;
    ImageExists(Named(q.sections, q.names), mem.location);
  }

  /** Local symbols and those that are defined stay as they are. */
  predicate SettledStay(a: seq<Symbol>, b: seq<Symbol>) {
    && |a| <= |b|
    && forall k :: 0 <= k < |a| && (!a[k].isGlobal || a[k].value.Some?) ==> b[k] == a[k]
  }

  /** A layout leaves the relocations, the entry and all local symbols as they are. */
  lemma {:induction false} LayoutKeeps(obj: Obj, mems: seq<Memory>, naming: Naming)
    requires PlaceMemories(obj, mems, naming).Ok?
    ensures var e := PlaceMemories(obj, mems, naming).value;
      && e.relocations == obj.relocations && e.entry == obj.entry && obj.images <= e.images && SettledStay(obj.symbols, e.symbols)
    decreases |mems|
  {
    hide PlaceInputs, ImageFrom;
    if mems != [] {
      InputsKeepSymbols(Placing(obj.sections, obj.symbols, mems[0].location, []), mems[0].inputs, naming);
      var r := PlaceMemory(obj, mems[0], naming);
      LayoutKeeps(r.value, mems[1..], naming);
    }
  }

  lemma {:induction false} InputsKeepSymbols(p: Placing, inputs: seq<Input>, naming: Naming)
    ensures var r := PlaceInputs(p, inputs, naming);
      r.Ok? ==> SettledStay(p.symbols, r.value.symbols)
    decreases |inputs|
  {
    if inputs != [] {
      var r := PlaceInput(p, inputs[0], naming);
      if r.Ok? {
        assert SettledStay(p.symbols, r.value.symbols);
        hide PlaceInput;
        InputsKeepSymbols(r.value, inputs[1..], naming);
      }
    }
  }
}
