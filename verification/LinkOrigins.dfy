/**
  Linking invents nothing: sections, symbols and relocations of the output are
  those of the inputs, and a section has the largest alignment of its parts.
 */
module LinkOrigins {
  import opened Basics
  import opened Objects
  import opened Linking

  /** Parts of this section have its name, and it has the largest of 4 and their alignments. */
  predicate SectionFrom(s: Section, parts: seq<Section>) {
    && (exists j :: 0 <= j < |parts| && parts[j].name == s.name)
    && s.alignment >= 4 && (forall j :: 0 <= j < |parts| && parts[j].name == s.name ==> s.alignment >= parts[j].alignment)
    && (s.alignment == 4 || exists j :: 0 <= j < |parts| && parts[j].name == s.name && s.alignment == parts[j].alignment)
  }

  predicate SectionsFrom(ss: seq<Section>, parts: seq<Section>) {
    && UniqueNames(ss)
    && (forall k :: 0 <= k < |ss| ==> SectionFrom(ss[k], parts))
    && (forall j :: 0 <= j < |parts| ==> Has(ss, parts[j].name))
  }

  /** A symbol of this name was there; a defined one, if this one is defined. */
  predicate SymbolFrom(z: Symbol, ys: seq<Symbol>) {
    exists j :: 0 <= j < |ys| && ys[j].name == z.name && ys[j].isGlobal == z.isGlobal && (z.value.Some? ==> ys[j].value.Some?)
  }

  predicate SymbolsFrom(zs: seq<Symbol>, ys: seq<Symbol>) {
    forall k :: 0 <= k < |zs| ==> SymbolFrom(zs[k], ys)
  }

  /** The relocations are the same ones in order, but for symbols and offsets. */
  predicate RelocsFrom(rs: seq<Reloc>, qs: seq<Reloc>) {
    && |rs| == |qs|
    && forall k :: 0 <= k < |rs| ==> rs[k].kind == qs[k].kind && rs[k].section == qs[k].section && rs[k].addend == qs[k].addend
  }

  function AllSections(objs: seq<Obj>): seq<Section> {
    if objs == [] then [] else AllSections(objs[..|objs| - 1]) + objs[|objs| - 1].sections
  }

  function AllSymbols(objs: seq<Obj>): seq<Symbol> {
    if objs == [] then [] else AllSymbols(objs[..|objs| - 1]) + objs[|objs| - 1].symbols
  }

  function AllRelocs(objs: seq<Obj>): seq<Reloc> {
    if objs == [] then [] else AllRelocs(objs[..|objs| - 1]) + objs[|objs| - 1].relocations
  }

  predicate From(d: Obj, objs: seq<Obj>) {
    && SectionsFrom(d.sections, AllSections(objs))
    && SymbolsFrom(d.symbols, AllSymbols(objs))
    && RelocsFrom(d.relocations, AllRelocs(objs))
  }

  /** ----- sections ----- */

  lemma OnePartMore(s: Section, parts: seq<Section>, part: Section)
    requires SectionFrom(s, parts) && part.name != s.name
    ensures SectionFrom(s, parts + [part])
  {
    var more := parts + [part];
    assert forall j :: 0 <= j < |parts| ==> more[j] == parts[j];
  }

  lemma PartTaken(s: Section, parts: seq<Section>, part: Section, data: seq<Byte>)
    requires part.name == s.name && (SectionFrom(s, parts) || (s.alignment == 4 && forall j :: 0 <= j < |parts| ==> parts[j].name != s.name))
    ensures var alignment := if part.alignment > s.alignment then part.alignment else s.alignment;
      SectionFrom(s.(alignment := alignment, data := data), parts + [part])
  {
    var more := parts + [part];
    assert forall j :: 0 <= j < |parts| ==> more[j] == parts[j];
    assert more[|parts|] == part;
  }

  lemma NotThere(ss: seq<Section>, name: Name)
    requires !Has(ss, name)
    ensures forall k :: 0 <= k < |ss| ==> ss[k].name != name
  {
  }

  lemma ThereAt(ss: seq<Section>, k: nat)
    requires k < |ss|
    ensures Has(ss, ss[k].name)
  {
  }

  lemma SectionIsFrom(ss: seq<Section>, parts: seq<Section>, s: Section)
    requires SectionsFrom(ss, parts) && PlaceSection(ss, s).Ok?
    ensures SectionsFrom(PlaceSection(ss, s).value.0, parts + [s])
  {
    var out := PlaceSection(ss, s).value.0;
    var k := Taker(ss, s);
    forall j | 0 <= j < |out|
      ensures SectionFrom(out[j], parts + [s])
    {
      hide SectionFrom;
      if j == k {
        PartTaken(WithSection(ss, s.name)[k], parts, s, out[k].data);
      } else {
        OnePartMore(ss[j], parts, s);
      }
    }
    hide SectionFrom, PlaceSection;
    forall j | 0 <= j < |parts + [s]|
      ensures Has(out, (parts + [s])[j].name)
    {
      ThereAt(out, k);
      if j < |parts| {
        ThereAt(out, Find(ss, parts[j].name));
      }
    }
  }

  /** The section that takes a part is new, or has its name; the others stay. */
  lemma Taker(ss: seq<Section>, s: Section) returns (k: nat)
    requires UniqueNames(ss) && PlaceSection(ss, s).Ok?
    ensures var base, out := WithSection(ss, s.name), PlaceSection(ss, s).value.0;
      && |ss| <= |out| == |base| && k < |out| && UniqueNames(out)
      && base[k].name == s.name && (k < |ss| ==> base[k] == ss[k])
      && (k >= |ss| ==> base[k].alignment == 4 && forall j :: 0 <= j < |ss| ==> ss[j].name != s.name)
      && out[k] == base[k].(alignment := if s.alignment > base[k].alignment then s.alignment else base[k].alignment, data := out[k].data)
      && (forall j :: 0 <= j < |out| && j != k ==> j < |ss| && out[j] == ss[j] && ss[j].name != s.name)
      && forall j :: 0 <= j < |ss| ==> out[j].name == ss[j].name
  {
    var base := WithSection(ss, s.name);
    k := Find(base, s.name);
    if !Has(ss, s.name) {
      NotThere(ss, s.name);
    }
    assert UniqueNames(base);
  }

  lemma {:induction false} SectionsAreFrom(dst: seq<Section>, parts: seq<Section>, ss: seq<Section>, n: nat)
    requires n <= |ss| && SectionsFrom(dst, parts) && PlaceTo(dst, ss, n).Ok?
    ensures SectionsFrom(PlaceTo(dst, ss, n).value.0, parts + ss[..n])
  {
    hide SectionsFrom, PlaceSection;
    if n == 0 {
      assert parts + ss[..0] == parts;
    } else {
      SectionsAreFrom(dst, parts, ss, n - 1);
      SectionIsFrom(PlaceTo(dst, ss, n - 1).value.0, parts + ss[..n - 1], ss[n - 1]);
      assert parts + ss[..n - 1] + [ss[n - 1]] == parts + ss[..n];
    }
  }

  /** ----- symbols ----- */

  lemma OneSymbolMore(z: Symbol, ys: seq<Symbol>, y: Symbol)
    requires SymbolFrom(z, ys)
    ensures SymbolFrom(z, ys + [y])
  {
    var j :| 0 <= j < |ys| && ys[j].name == z.name && ys[j].isGlobal == z.isGlobal && (z.value.Some? ==> ys[j].value.Some?);
    assert (ys + [y])[j] == ys[j];
  }

  lemma SymbolTaken(z: Symbol, ys: seq<Symbol>, y: Symbol)
    requires z.name == y.name && z.isGlobal == y.isGlobal && (z.value.Some? ==> y.value.Some?)
    ensures SymbolFrom(z, ys + [y])
  {
    assert (ys + [y])[|ys|] == y;
  }

  lemma SymbolIsFrom(zs: seq<Symbol>, ys: seq<Symbol>, offsets: Offsets, y: Symbol)
    requires SymbolsFrom(zs, ys) && PlaceSymbol(zs, offsets, y).Ok?
    ensures SymbolsFrom(PlaceSymbol(zs, offsets, y).value.0, ys + [y])
  {
    var out := PlaceSymbol(zs, offsets, y).value.0;
    var k := FindGlobal(zs, y.name);
    hide SymbolFrom;
    forall j | 0 <= j < |out|
      ensures SymbolFrom(out[j], ys + [y])
    {
      if j < |zs| && out[j] == zs[j] {
        OneSymbolMore(zs[j], ys, y);
      } else {
        SymbolTaken(out[j], ys, y);
      }
    }
  }

  lemma {:induction false} SymbolsAreFrom(dst: seq<Symbol>, ys: seq<Symbol>, offsets: Offsets, ss: seq<Symbol>, n: nat)
    requires n <= |ss| && SymbolsFrom(dst, ys) && SymbolsTo(dst, offsets, ss, n).Ok?
    ensures SymbolsFrom(SymbolsTo(dst, offsets, ss, n).value.0, ys + ss[..n])
  {
    hide SymbolsFrom, PlaceSymbol;
    if n == 0 {
      assert ys + ss[..0] == ys;
    } else {
      SymbolsAreFrom(dst, ys, offsets, ss, n - 1);
      SymbolIsFrom(SymbolsTo(dst, offsets, ss, n - 1).value.0, ys + ss[..n - 1], offsets, ss[n - 1]);
      assert ys + ss[..n - 1] + [ss[n - 1]] == ys + ss[..n];
    }
  }

  /** ----- relocations ----- */

  lemma {:induction false} RelocsAreFrom(dst: seq<Reloc>, qs: seq<Reloc>, offsets: Offsets, ids: map<nat, nat>, rs: seq<Reloc>, n: nat)
    requires n <= |rs| && RelocsFrom(dst, qs) && RelocsTo(dst, offsets, ids, rs, n).Ok?
    ensures RelocsFrom(RelocsTo(dst, offsets, ids, rs, n).value, qs + rs[..n])
  {
    if n == 0 {
      assert qs + rs[..0] == qs;
    } else {
      RelocsAreFrom(dst, qs, offsets, ids, rs, n - 1);
      assert qs + rs[..n - 1] + [rs[n - 1]] == qs + rs[..n];
    }
  }

  /** ----- objects ----- */

  lemma InjectIsFrom(d: Obj, done: seq<Obj>, obj: Obj)
    requires From(d, done) && Inject(d, obj).Ok?
    ensures From(Inject(d, obj).value, done + [obj])
  {
    hide SectionsFrom, SymbolsFrom, RelocsFrom, PlaceTo, SymbolsTo, RelocsTo;
    var ss := PlaceTo(d.sections, obj.sections, |obj.sections|);
    var offsets := ss.value.1;
    var zs := SymbolsTo(d.symbols, offsets, obj.symbols, |obj.symbols|);
    SectionsAreFrom(d.sections, AllSections(done), obj.sections, |obj.sections|);
    SymbolsAreFrom(d.symbols, AllSymbols(done), offsets, obj.symbols, |obj.symbols|);
    RelocsAreFrom(d.relocations, AllRelocs(done), offsets, zs.value.1, obj.relocations, |obj.relocations|);
    assert obj.sections[..|obj.sections|] == obj.sections && obj.symbols[..|obj.symbols|] == obj.symbols;
    assert obj.relocations[..|obj.relocations|] == obj.relocations;
    assert (done + [obj])[..|done|] == done;
  }

  lemma {:induction false} LinkIsFrom(d: Obj, done: seq<Obj>, objs: seq<Obj>)
    requires From(d, done) && LinkFrom(d, objs).Ok?
    ensures From(LinkFrom(d, objs).value, done + objs)
    decreases |objs|
  {
    hide From, Inject;
    if objs == [] {
      assert done + objs == done;
    } else {
      InjectIsFrom(d, done, objs[0]);
      LinkIsFrom(Inject(d, objs[0]).value, done + [objs[0]], objs[1..]);
      assert done + [objs[0]] + objs[1..] == done + objs;
    }
  }

  lemma NothingFromNothing()
    ensures From(EmptyObj, [])
  {
  }

  /** Whatever is linked: every section has the name of some part and the largest alignment of its
      parts, every symbol has the name of some symbol, and the relocations are those of the inputs. */
  lemma NothingIsInvented(objs: seq<Obj>)
    requires LinkFrom(EmptyObj, objs).Ok?
    ensures From(LinkFrom(EmptyObj, objs).value, objs)
  {
    hide LinkFrom;
    NothingFromNothing();
    hide From;
    LinkIsFrom(EmptyObj, [], objs);
    assert [] + objs == objs;
  }
}
