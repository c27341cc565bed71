/**
  With power-of-two alignments, every section of every input object ends up at
  an address that meets its own alignment.
 */
module Alignment {
  import opened Arithmetic
  import opened Objects
  import opened Linking
  import opened PartialLinking
  import opened Placement
  import opened Layouts

  predicate PowerOfTwo(n: nat) {
    n == 1 || (n > 1 && n % 2 == 0 && PowerOfTwo(n / 2))
  }

  lemma {:induction false} PowersDivide(a: nat, b: nat)
    requires PowerOfTwo(a) && PowerOfTwo(b) && a <= b
    ensures b % a == 0
    decreases a
  {
    if a > 1 {
      PowersDivide(a / 2, b / 2);
      var q := (b / 2) / (a / 2);
      assert b / 2 == (a / 2) * q;
      assert b == a * q by {
        assert b == 2 * (b / 2) && a == 2 * (a / 2);
      }
      Remainder(b, a, q, 0);
    }
  }

  lemma AlignedInside(address: int, offset: int, inner: nat, outer: nat)
    requires inner > 0 && outer > 0 && address % outer == 0 && outer % inner == 0 && offset % inner == 0
    ensures (address + offset) % inner == 0
  {
    var q, r := address / outer, outer / inner;
    assert address == outer * q && outer == inner * r;
    assert address == inner * (r * q);
    Remainder(address, inner, r * q, 0);
    SumRemainder(address, offset, inner);
  }

  predicate Powers(ss: seq<Section>) {
    forall k :: 0 <= k < |ss| ==> PowerOfTwo(ss[k].alignment)
  }

  lemma {:induction false} PlaceToPowers(dst: seq<Section>, ss: seq<Section>, n: nat)
    requires n <= |ss| && Powers(dst) && Powers(ss)
    ensures PlaceTo(dst, ss, n).Ok? ==> Powers(PlaceTo(dst, ss, n).value.0)
  {
    if n > 0 {
      PlaceToPowers(dst, ss, n - 1);
      assert PowerOfTwo(2) && PowerOfTwo(4);
    }
  }

  lemma {:induction false} LinkPowers(dst: Obj, objs: seq<Obj>)
    requires Powers(dst.sections) && forall k :: 0 <= k < |objs| ==> Powers(objs[k].sections)
    ensures LinkFrom(dst, objs).Ok? ==> Powers(LinkFrom(dst, objs).value.sections)
    decreases |objs|
  {
    hide Powers;
    if objs != [] {
      PlaceToPowers(dst.sections, objs[0].sections, |objs[0].sections|);
      var r := Inject(dst, objs[0]);
      if r.Ok? {
        LinkPowers(r.value, objs[1..]);
      }
    }
  }

  /** A layout changes addresses only. */
  predicate OnlyAddresses(ss: seq<Section>, ts: seq<Section>) {
    && NamesKept(ss, ts)
    && forall k :: 0 <= k < |ss| ==> ts[k].data == ss[k].data && ts[k].alignment == ss[k].alignment
  }

  lemma InputMovesOnly(p: Placing, input: Input, naming: Naming)
    ensures var r := PlaceInput(p, input, naming); r.Ok? ==> OnlyAddresses(p.sections, r.value.sections)
  {
    if input.SectionInput? {
      assert p.sections <= WithSection(p.sections, input.name);
    }
  }

  lemma {:induction false} InputsMoveOnly(p: Placing, inputs: seq<Input>, naming: Naming)
    ensures var r := PlaceInputs(p, inputs, naming); r.Ok? ==> OnlyAddresses(p.sections, r.value.sections)
    decreases |inputs|
  {
    if inputs != [] {
      InputMovesOnly(p, inputs[0], naming);
      var r := PlaceInput(p, inputs[0], naming);
      if r.Ok? {
        InputsMoveOnly(r.value, inputs[1..], naming);
      }
    }
  }

  lemma {:induction false} LayoutMovesOnly(obj: Obj, mems: seq<Memory>, naming: Naming)
    ensures var r := PlaceMemories(obj, mems, naming); r.Ok? ==> OnlyAddresses(obj.sections, r.value.sections)
    decreases |mems|
  {
    if mems != [] {
      InputsMoveOnly(Placing(obj.sections, obj.symbols, mems[0].location, []), mems[0].inputs, naming);
      var r := PlaceMemory(obj, mems[0], naming);
      hide PlaceInputs;
      if r.Ok? {
        LayoutMovesOnly(r.value, mems[1..], naming);
      }
    }
  }

  /** Objects `objs` are linked to `d`, which is laid out as `e`. */
  ghost predicate Linked(objs: seq<Obj>, d: Obj, mems: seq<Memory>, naming: Naming, e: Obj) {
    && (forall o :: 0 <= o < |objs| ==> Sensible(objs[o]) && Powers(objs[o].sections))
    && LinkFrom(EmptyObj, objs) == Ok(d)
    && PlaceMemories(d, mems, naming) == Ok(e)
  }

  /** ----- whatever is placed is aligned, however often ----- */

  predicate AlignedAt(ss: seq<Section>, n: Name) {
    Has(ss, n) && Lookup(ss, n).alignment > 0 && Lookup(ss, n).address % Lookup(ss, n).alignment == 0
  }

  lemma InputAligns(p: Placing, input: Input, naming: Naming, n: Name)
    requires n in NamesOf([input], naming) || AlignedAt(p.sections, n)
    ensures var r := PlaceInput(p, input, naming); r.Ok? ==> AlignedAt(r.value.sections, n)
  {
    var r := PlaceInput(p, input, naming);
    assert [input][1..] == [];
    InputKeeps(p, input, naming);
    if r.Ok? {
      if n in NamesOf([input], naming) {
        InputAlignsIt(p, input, naming, n);
      } else {
        assert SameWhere(p.sections, r.value.sections, [n]);
        KeptHas(p.sections, r.value.sections, n);
      }
    }
  }

  /** The section that an input places. */
  lemma InputAlignsIt(p: Placing, input: Input, naming: Naming, n: Name)
    requires n in NamesOf([input], naming) && PlaceInput(p, input, naming).Ok?
    ensures AlignedAt(PlaceInput(p, input, naming).value.sections, n)
  {
    var q := PlaceInput(p, input, naming).value;
    assert [input][1..] == [];
    if input.SectionInput? {
      var ss := WithSection(p.sections, n);
      RoundUpAligns(p.address, Lookup(ss, n).alignment);
      assert NamesKept(ss, q.sections);
      KeptHas(ss, q.sections, n);
    } else {
      NewIsFound(p.sections, q.sections[|p.sections|]);
    }
  }

  lemma {:induction false} InputsAlign(p: Placing, inputs: seq<Input>, naming: Naming, n: Name)
    requires n in NamesOf(inputs, naming) || AlignedAt(p.sections, n)
    ensures var r := PlaceInputs(p, inputs, naming); r.Ok? ==> AlignedAt(r.value.sections, n)
    decreases |inputs|
  {
    hide PlaceInput, NamesOf, AlignedAt;
    if inputs == [] {
      NoInputs(naming);
    } else {
      NamesOfSplit(inputs, naming);
      var r := PlaceInput(p, inputs[0], naming);
      if r.Ok? {
        if n in NamesOf([inputs[0]], naming) || AlignedAt(p.sections, n) {
          InputAligns(p, inputs[0], naming, n);
        }
        InputsAlign(r.value, inputs[1..], naming, n);
      }
    }
  }

  lemma {:induction false} LayoutAligns(obj: Obj, mems: seq<Memory>, naming: Naming, n: Name)
    requires n in AllNames(mems, naming) || AlignedAt(obj.sections, n)
    ensures var r := PlaceMemories(obj, mems, naming); r.Ok? ==> AlignedAt(r.value.sections, n)
    decreases |mems|
  {
    hide PlaceInputs, NamesOf, AlignedAt, ImageFrom;
    if mems != [] {
      var r := PlaceMemory(obj, mems[0], naming);
      if r.Ok? {
        if n in NamesOf(mems[0].inputs, naming) || AlignedAt(obj.sections, n) {
          InputsAlign(Placing(obj.sections, obj.symbols, mems[0].location, []), mems[0].inputs, naming, n);
        }
        LayoutAligns(r.value, mems[1..], naming, n);
      }
    }
  }

  /** The `j`-th section of the `k`-th object, linked and placed by a layout, in one memory or in
      several, meets its own alignment. */
  lemma InputSectionIsAligned(objs: seq<Obj>, d: Obj, mems: seq<Memory>, naming: Naming, e: Obj, k: nat, j: nat)
      returns (offsets: Offsets, ids: map<nat, nat>)
    requires Linked(objs, d, mems, naming, e) && k < |objs| && j < |objs[k].sections|
    requires objs[k].sections[j].name in AllNames(mems, naming)
    ensures Placed(objs[k], d, offsets, ids)
    ensures var s := objs[k].sections[j];
      && s.name in offsets && Has(e.sections, s.name) && s.alignment > 0
      && (Lookup(e.sections, s.name).address + offsets[s.name]) % s.alignment == 0
  {
    hide LinkFrom, PlaceMemories, OnlyAddresses, Placed, PowerOfTwo, Powers, Sensible, AllNames, Lookup, Has;
    var s := objs[k].sections[j];
    offsets, ids := LinkedSection(objs, d, k, j);
    LayoutAligns(d, mems, naming, s.name);
    LayoutMovesOnly(d, mems, naming);
    SectionMoves(d.sections, e.sections, s.name);
    var o := Lookup(e.sections, s.name);
    PowersDivide(s.alignment, o.alignment);
    AlignedInside(o.address, offsets[s.name], s.alignment, o.alignment);
  }

  lemma SectionMoves(ss: seq<Section>, ts: seq<Section>, name: Name)
    requires OnlyAddresses(ss, ts) && Has(ss, name)
    ensures Has(ts, name) && Lookup(ts, name).alignment == Lookup(ss, name).alignment
  {
    KeptHas(ss, ts, name);
  }

  /** Where a section of an input is after linking. */
  lemma LinkedSection(objs: seq<Obj>, d: Obj, k: nat, j: nat) returns (offsets: Offsets, ids: map<nat, nat>)
    requires forall o :: 0 <= o < |objs| ==> Sensible(objs[o]) && Powers(objs[o].sections)
    requires LinkFrom(EmptyObj, objs) == Ok(d) && k < |objs| && j < |objs[k].sections|
    ensures var s := objs[k].sections[j];
      && d.images == [] && Placed(objs[k], d, offsets, ids)
      && s.name in offsets && Has(d.sections, s.name) && offsets[s.name] % s.alignment == 0
      && 0 < s.alignment <= Lookup(d.sections, s.name).alignment
      && PowerOfTwo(s.alignment) && PowerOfTwo(Lookup(d.sections, s.name).alignment)
  {
    var s := objs[k].sections[j];
    LinkNormal(EmptyObj, objs);
    offsets, ids := LinkPlaces(EmptyObj, objs, k);
    LinkPowers(EmptyObj, objs);
    assert PlacedSection(s, d.sections, offsets);
  }
}
