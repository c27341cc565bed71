/**
  When linking succeeds: exactly when every object is sound in itself, no global
  symbol is defined twice, and no two objects have an entry.
 */
module LinkErrors {
  import opened Basics
  import opened Objects
  import opened Linking
  import opened PartialLinking

  function SectionNames(ss: seq<Section>, n: nat): set<Name>
    requires n <= |ss|
  {
    set k | 0 <= k < n :: ss[k].name
  }

  function Ids(ys: seq<Symbol>, n: nat): set<nat>
    requires n <= |ys|
  {
    set k | 0 <= k < n :: ys[k].id
  }

  /** The global symbols that are defined. */
  function Defined(ys: seq<Symbol>, n: nat): set<Name>
    requires n <= |ys|
  {
    set k | 0 <= k < n && ys[k].isGlobal && ys[k].value.Some? :: ys[k].name
  }

  /** An object refers to its own sections and symbols only, and sections have alignments. */
  predicate SoundAlone(obj: Obj) {
    && (forall k :: 0 <= k < |obj.sections| ==> obj.sections[k].alignment > 0)
    && (forall k :: 0 <= k < |obj.symbols| && obj.symbols[k].value.Some? ==>
          obj.symbols[k].section.Some? && obj.symbols[k].section.value in SectionNames(obj.sections, |obj.sections|))
    && (forall k :: 0 <= k < |obj.relocations| ==>
          && obj.relocations[k].section in SectionNames(obj.sections, |obj.sections|)
          && obj.relocations[k].symbol in Ids(obj.symbols, |obj.symbols|))
    && (obj.entry.Some? ==> obj.entry.value in Ids(obj.symbols, |obj.symbols|))
  }

  predicate DefinesOnce(ys: seq<Symbol>, n: nat)
    requires n <= |ys|
  {
    forall j, k :: 0 <= j < k < n && ys[j].isGlobal && ys[j].value.Some? && ys[k].isGlobal && ys[k].value.Some? ==> ys[j].name != ys[k].name
  }

  function AllDefined(d: Obj): set<Name> {
    Defined(d.symbols, |d.symbols|)
  }

  /** ----- the parts of an object ----- */

  lemma {:induction false} SectionsPlacedWhen(dst: seq<Section>, ss: seq<Section>, n: nat)
    requires n <= |ss|
    ensures PlaceTo(dst, ss, n).Ok? <==> forall k :: 0 <= k < n ==> ss[k].alignment > 0
    ensures PlaceTo(dst, ss, n).Ok? ==> PlaceTo(dst, ss, n).value.1.Keys == SectionNames(ss, n)
  {
    hide PlaceSection, SectionNames;
    if n == 0 {
      NoNames(ss);
    } else {
      SectionsPlacedWhen(dst, ss, n - 1);
      NamesNext(ss, n - 1);
      var r := PlaceTo(dst, ss, n - 1);
      if r.Ok? {
        SectionPlacedWhen(r.value.0, ss[n - 1]);
      }
    }
  }

  lemma SectionPlacedWhen(ss: seq<Section>, s: Section)
    ensures PlaceSection(ss, s).Ok? <==> s.alignment > 0
  {
  }

  lemma NoNames(ss: seq<Section>)
    ensures SectionNames(ss, 0) == {}
  {
  }

  lemma NamesNext(ss: seq<Section>, n: nat)
    requires n < |ss|
    ensures SectionNames(ss, n + 1) == SectionNames(ss, n) + {ss[n].name}
  {
  }

  lemma MergedWhen(ys: seq<Symbol>, name: Name, value: Option<int>, section: Option<Name>)
    requires UniqueGlobals(ys)
    ensures MergeGlobal(ys, name, value, section).Ok? <==> value.None? || name !in Defined(ys, |ys|)
    ensures MergeGlobal(ys, name, value, section).Ok? ==>
      var zs := MergeGlobal(ys, name, value, section).value.0;
      UniqueGlobals(zs) && Defined(zs, |zs|) == Defined(ys, |ys|) + if value.Some? then {name} else {}
  {
    var k := FindGlobal(ys, name);
    if k < |ys| {
      assert forall j :: 0 <= j < |ys| && ys[j].isGlobal && ys[j].name == name ==> j == k;
    }
    var r := MergeGlobal(ys, name, value, section);
    if r.Ok? {
      var zs := r.value.0;
      MergedDefines(ys, name, value, section);
      assert forall j :: 0 <= j < |ys| && j != k ==> zs[j] == ys[j];
    }
  }

  lemma MergedDefines(ys: seq<Symbol>, name: Name, value: Option<int>, section: Option<Name>)
    requires MergeGlobal(ys, name, value, section).Ok? && (value.None? || name !in Defined(ys, |ys|))
    ensures var zs := MergeGlobal(ys, name, value, section).value.0;
      Defined(zs, |zs|) == Defined(ys, |ys|) + if value.Some? then {name} else {}
  {
    var k := FindGlobal(ys, name);
    var zs := MergeGlobal(ys, name, value, section).value.0;
    var now := Defined(ys, |ys|) + if value.Some? then {name} else {};
    forall x | x in now
      ensures x in Defined(zs, |zs|)
    {
      if x in Defined(ys, |ys|) {
        var j :| 0 <= j < |ys| && ys[j].isGlobal && ys[j].value.Some? && ys[j].name == x;
        assert zs[j] == ys[j];
      } else {
        assert zs[k].isGlobal && zs[k].value.Some? && zs[k].name == name;
      }
    }
    forall x | x in Defined(zs, |zs|)
      ensures x in now
    {
      var j :| 0 <= j < |zs| && zs[j].isGlobal && zs[j].value.Some? && zs[j].name == x;
      if j < |ys| && j != k {
        assert zs[j] == ys[j];
      }
    }
  }

  /** Whether a symbol can be taken over. */
  predicate Takes(offsets: Offsets, y: Symbol) {
    y.value.Some? ==> y.section.Some? && y.section.value in offsets
  }

  lemma SymbolPlacedWhen(ys: seq<Symbol>, offsets: Offsets, y: Symbol)
    requires UniqueGlobals(ys)
    ensures PlaceSymbol(ys, offsets, y).Ok? <==> Takes(offsets, y) && !(y.isGlobal && y.value.Some? && y.name in Defined(ys, |ys|))
    ensures PlaceSymbol(ys, offsets, y).Ok? ==>
      var zs := PlaceSymbol(ys, offsets, y).value.0;
      UniqueGlobals(zs) && Defined(zs, |zs|) == Defined(ys, |ys|) + if y.isGlobal && y.value.Some? then {y.name} else {}
  {
    if Takes(offsets, y) {
      var value := if y.value.None? then None else Some(ShiftOf(offsets, y).value + y.value.value);
      var section := if y.value.None? then None else y.section;
      if y.isGlobal {
        MergedWhen(ys, y.name, value, section);
      } else {
        LocalAdded(ys, y.name, value, section);
      }
    }
  }

  lemma LocalAdded(ys: seq<Symbol>, name: Name, value: Option<int>, section: Option<Name>)
    requires UniqueGlobals(ys)
    ensures var zs := NewSymbol(ys, name, false, value, section); UniqueGlobals(zs) && Defined(zs, |zs|) == Defined(ys, |ys|)
  {
    var zs := NewSymbol(ys, name, false, value, section);
    assert forall k :: 0 <= k < |ys| ==> zs[k] == ys[k];
    assert !zs[|ys|].isGlobal;
    assert forall x :: x in Defined(ys, |ys|) ==> x in Defined(zs, |zs|);
  }

  lemma DefinedNext(ys: seq<Symbol>, n: nat)
    requires n < |ys|
    ensures var y := ys[n]; Defined(ys, n + 1) == Defined(ys, n) + if y.isGlobal && y.value.Some? then {y.name} else {}
    ensures DefinesOnce(ys, n + 1) <==> DefinesOnce(ys, n) && !(ys[n].isGlobal && ys[n].value.Some? && ys[n].name in Defined(ys, n))
    ensures Ids(ys, n + 1) == Ids(ys, n) + {ys[n].id}
  {
  }

  /** The first `n` symbols of an object can be taken over. */
  predicate SymbolsFit(dst: seq<Symbol>, offsets: Offsets, ys: seq<Symbol>, n: nat)
    requires n <= |ys|
  {
    && (forall k :: 0 <= k < n ==> Takes(offsets, ys[k]))
    && DefinesOnce(ys, n) && Defined(dst, |dst|) !! Defined(ys, n)
  }

  lemma {:induction false} SymbolsPlacedWhen(dst: seq<Symbol>, offsets: Offsets, ys: seq<Symbol>, n: nat)
    requires n <= |ys| && UniqueGlobals(dst)
    ensures SymbolsTo(dst, offsets, ys, n).Ok? <==> SymbolsFit(dst, offsets, ys, n)
    ensures SymbolsTo(dst, offsets, ys, n).Ok? ==>
      var (zs, ids) := SymbolsTo(dst, offsets, ys, n).value;
      UniqueGlobals(zs) && Defined(zs, |zs|) == Defined(dst, |dst|) + Defined(ys, n) && ids.Keys == Ids(ys, n)
  {
    if n == 0 {
      assert Defined(ys, 0) == {} && Ids(ys, 0) == {};
    } else {
      SymbolsPlacedWhen(dst, offsets, ys, n - 1);
      DefinedNext(ys, n - 1);
      var r := SymbolsTo(dst, offsets, ys, n - 1);
      hide PlaceSymbol, DefinesOnce, Defined, Ids, UniqueGlobals, Takes;
      if r.Ok? {
        SymbolPlacedWhen(r.value.0, offsets, ys[n - 1]);
      }
    }
  }

  lemma {:induction false} RelocsPlacedWhen(dst: seq<Reloc>, offsets: Offsets, ids: map<nat, nat>, rs: seq<Reloc>, n: nat)
    requires n <= |rs|
    ensures RelocsTo(dst, offsets, ids, rs, n).Ok? <==> forall k :: 0 <= k < n ==> rs[k].section in offsets && rs[k].symbol in ids
  {
    if n > 0 {
      RelocsPlacedWhen(dst, offsets, ids, rs, n - 1);
    }
  }

  /** ----- an object, all objects ----- */

  /** One more object can be linked, and what is then defined. */
  lemma InjectedWhen(dst: Obj, obj: Obj)
    requires UniqueGlobals(dst.symbols)
    ensures Inject(dst, obj).Ok? <==>
      && SoundAlone(obj) && DefinesOnce(obj.symbols, |obj.symbols|)
      && AllDefined(dst) !! AllDefined(obj) && (dst.entry.None? || obj.entry.None?)
    ensures Inject(dst, obj).Ok? ==>
      var e := Inject(dst, obj).value;
      && UniqueGlobals(e.symbols) && AllDefined(e) == AllDefined(dst) + AllDefined(obj)
      && (e.entry.Some? <==> dst.entry.Some? || obj.entry.Some?)
  {
    hide PlaceTo, SymbolsTo, RelocsTo, DefinesOnce, Defined, Ids, SectionNames, UniqueGlobals;
    SectionsPlacedWhen(dst.sections, obj.sections, |obj.sections|);
    var ss := PlaceTo(dst.sections, obj.sections, |obj.sections|);
    if ss.Ok? {
      var offsets := ss.value.1;
      SymbolsPlacedWhen(dst.symbols, offsets, obj.symbols, |obj.symbols|);
      var ys := SymbolsTo(dst.symbols, offsets, obj.symbols, |obj.symbols|);
      if ys.Ok? {
        RelocsPlacedWhen(dst.relocations, offsets, ys.value.1, obj.relocations, |obj.relocations|);
      }
    }
  }

  /** What a list of objects must satisfy to be linked to what is there. */
  predicate Fits(dst: Obj, objs: seq<Obj>) {
    && (forall o :: 0 <= o < |objs| ==>
          && SoundAlone(objs[o]) && DefinesOnce(objs[o].symbols, |objs[o].symbols|)
          && AllDefined(dst) !! AllDefined(objs[o]) && (dst.entry.None? || objs[o].entry.None?))
    && (forall o, p :: 0 <= o < p < |objs| ==>
          AllDefined(objs[o]) !! AllDefined(objs[p]) && (objs[o].entry.None? || objs[p].entry.None?))
  }

  lemma FitsNext(dst: Obj, objs: seq<Obj>, e: Obj)
    requires objs != [] && AllDefined(e) == AllDefined(dst) + AllDefined(objs[0])
    requires e.entry.Some? <==> dst.entry.Some? || objs[0].entry.Some?
    requires SoundAlone(objs[0]) && DefinesOnce(objs[0].symbols, |objs[0].symbols|)
    requires AllDefined(dst) !! AllDefined(objs[0]) && (dst.entry.None? || objs[0].entry.None?)
    ensures Fits(dst, objs) <==> Fits(e, objs[1..])
  {
    hide SoundAlone, DefinesOnce, AllDefined;
    var rest := objs[1..];
    assert forall o :: 1 <= o < |objs| ==> objs[o] == rest[o - 1];
    if Fits(e, rest) {
      forall o, p | 0 <= o < p < |objs|
        ensures AllDefined(objs[o]) !! AllDefined(objs[p]) && (objs[o].entry.None? || objs[p].entry.None?)
      {
        assert objs[p] == rest[p - 1];
        if o > 0 {
          assert objs[o] == rest[o - 1];
        }
      }
    }
    if Fits(dst, objs) {
      forall o | 0 <= o < |rest|
        ensures AllDefined(e) !! AllDefined(rest[o]) && (e.entry.None? || rest[o].entry.None?)
      {
        assert rest[o] == objs[o + 1];
      }
      forall o, p | 0 <= o < p < |rest|
        ensures AllDefined(rest[o]) !! AllDefined(rest[p]) && (rest[o].entry.None? || rest[p].entry.None?)
      {
        assert rest[o] == objs[o + 1] && rest[p] == objs[p + 1];
      }
    }
  }

  lemma {:induction false} LinkedWhen(dst: Obj, objs: seq<Obj>)
    requires UniqueGlobals(dst.symbols)
    ensures LinkFrom(dst, objs).Ok? <==> Fits(dst, objs)
    ensures LinkFrom(dst, objs).Ok? ==>
      (LinkFrom(dst, objs).value.entry.Some? <==> dst.entry.Some? || exists o :: 0 <= o < |objs| && objs[o].entry.Some?)
    decreases |objs|
  {
    hide SoundAlone, DefinesOnce, AllDefined, UniqueGlobals, Inject;
    if objs != [] {
      InjectedWhen(dst, objs[0]);
      var r := Inject(dst, objs[0]);
      if r.Ok? {
        FitsNext(dst, objs, r.value);
        LinkedWhen(r.value, objs[1..]);
        assert forall o :: 1 <= o < |objs| ==> objs[o] == objs[1..][o - 1];
      }
    }
  }

  /** Objects can be linked exactly when each is sound in itself and defines no global symbol twice,
      no two define the same one, and at most one has an entry; the result has an entry when one of them has. */
  lemma LinksWhen(objs: seq<Obj>)
    ensures LinkFrom(EmptyObj, objs).Ok? <==>
      && (forall o :: 0 <= o < |objs| ==> SoundAlone(objs[o]) && DefinesOnce(objs[o].symbols, |objs[o].symbols|))
      && (forall o, p :: 0 <= o < p < |objs| ==>
            AllDefined(objs[o]) !! AllDefined(objs[p]) && (objs[o].entry.None? || objs[p].entry.None?))
    ensures LinkFrom(EmptyObj, objs).Ok? ==>
      (LinkFrom(EmptyObj, objs).value.entry.Some? <==> exists o :: 0 <= o < |objs| && objs[o].entry.Some?)
  {
    LinkedWhen(EmptyObj, objs);
    assert AllDefined(EmptyObj) == {};
    hide AllDefined, SoundAlone, DefinesOnce, LinkFrom;
  }

  /** Padding goes to the next aligned offset, and no further. */
  lemma PaddedToNext(ss: seq<Section>, s: Section)
    requires PlaceSection(ss, s).Ok?
    ensures var (ts, off) := PlaceSection(ss, s).value;
      var before := if Has(ss, s.name) then |Lookup(ss, s.name).data| else 0;
      before <= off < before + s.alignment && Has(ts, s.name) && |Lookup(ts, s.name).data| == off + |s.data|
  {
    var base := WithSection(ss, s.name);
    var (ts, off) := PlaceSection(ss, s).value;
    assert NamesKept(base, ts);
    KeptHas(base, ts, s.name);
    if Has(ss, s.name) {
      assert base == ss;
    } else {
      assert base[|ss|].name == s.name && forall j :: 0 <= j < |ss| ==> base[j] == ss[j] && ss[j].name != s.name by {
        NotFound(ss, s.name);
      }
    }
  }

  lemma NotFound(ss: seq<Section>, name: Name)
    requires !Has(ss, name)
    ensures forall j :: 0 <= j < |ss| ==> ss[j].name != name
  {
  }
}
