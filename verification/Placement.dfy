/**
  Where the parts of an object end up: every byte, symbol and relocation of an
  input is found in the output, and stays there while more objects are merged.
 */
module Placement {
  import opened Basics
  import opened Arithmetic
  import opened Objects
  import opened Linking
  import opened PartialLinking

  /** An object with one section per name and one symbol per identity. */
  predicate Sensible(obj: Obj) {
    && UniqueNames(obj.sections)
    && forall j, k :: 0 <= j < k < |obj.symbols| ==> obj.symbols[j].id != obj.symbols[k].id
  }

  predicate PlacedSection(s: Section, ss: seq<Section>, offsets: Offsets) {
    && s.name in offsets && Has(ss, s.name)
    && var o, off := Lookup(ss, s.name), offsets[s.name];
    && off + |s.data| <= |o.data| && o.data[off..off + |s.data|] == s.data
    && 0 < s.alignment <= o.alignment && off % s.alignment == 0
  }

  predicate PlacedSymbol(y: Symbol, zs: seq<Symbol>, offsets: Offsets, ids: map<nat, nat>) {
    && y.id in ids && ids[y.id] < |zs|
    && var z := zs[ids[y.id]];
    && z.name == y.name && z.isGlobal == y.isGlobal
    && (y.value.Some? ==>
          && y.section.Some? && y.section.value in offsets
          && z.section == y.section && z.value == Some(offsets[y.section.value] + y.value.value))
  }

  predicate PlacedReloc(r: Reloc, rs: seq<Reloc>, offsets: Offsets, ids: map<nat, nat>) {
    && r.section in offsets && r.symbol in ids
    && Reloc(r.kind, ids[r.symbol], r.section, offsets[r.section] + r.offset, r.addend) in rs
  }

  /** The object is in `d`: its sections at `offsets`, its symbols renumbered by `ids`. */
  predicate Placed(obj: Obj, d: Obj, offsets: Offsets, ids: map<nat, nat>) {
    && (forall k :: 0 <= k < |obj.sections| ==> PlacedSection(obj.sections[k], d.sections, offsets))
    && (forall k :: 0 <= k < |obj.symbols| ==> PlacedSymbol(obj.symbols[k], d.symbols, offsets, ids))
    && (forall k :: 0 <= k < |obj.relocations| ==> PlacedReloc(obj.relocations[k], d.relocations, offsets, ids))
    && PlacedEntry(obj.entry, d.entry, ids)
  }

  /** The entry of the object is the entry of the output. */
  predicate PlacedEntry(entry: Option<nat>, out: Option<nat>, ids: map<nat, nat>) {
    entry.Some? ==> entry.value in ids && out == Some(ids[entry.value])
  }

  /** ----- what later objects leave alone ----- */

  predicate SectionExtends(s: Section, t: Section) {
    t.name == s.name && s.data <= t.data && s.alignment <= t.alignment
  }

  predicate SectionsExtend(ss: seq<Section>, ts: seq<Section>) {
    |ss| <= |ts| && forall k :: 0 <= k < |ss| ==> SectionExtends(ss[k], ts[k])
  }

  predicate SymbolExtends(y: Symbol, z: Symbol) {
    z.name == y.name && z.isGlobal == y.isGlobal && (y.value.Some? ==> z.value == y.value && z.section == y.section)
  }

  predicate SymbolsExtend(ys: seq<Symbol>, zs: seq<Symbol>) {
    |ys| <= |zs| && forall k :: 0 <= k < |ys| ==> SymbolExtends(ys[k], zs[k])
  }

  predicate Extends(d: Obj, e: Obj) {
    && SectionsExtend(d.sections, e.sections) && SymbolsExtend(d.symbols, e.symbols) && d.relocations <= e.relocations
    && (d.entry.Some? ==> e.entry == d.entry)
  }

  lemma SectionsExtendTwice(a: seq<Section>, b: seq<Section>, c: seq<Section>)
    requires SectionsExtend(a, b) && SectionsExtend(b, c)
    ensures SectionsExtend(a, c)
  {
    forall k | 0 <= k < |a|
      ensures SectionExtends(a[k], c[k])
    {
      assert SectionExtends(a[k], b[k]) && SectionExtends(b[k], c[k]);
    }
  }

  lemma SymbolsExtendTwice(a: seq<Symbol>, b: seq<Symbol>, c: seq<Symbol>)
    requires SymbolsExtend(a, b) && SymbolsExtend(b, c)
    ensures SymbolsExtend(a, c)
  {
    forall k | 0 <= k < |a|
      ensures SymbolExtends(a[k], c[k])
    {
      assert SymbolExtends(a[k], b[k]) && SymbolExtends(b[k], c[k]);
    }
  }

  lemma PlacedSectionStays(s: Section, ss: seq<Section>, ts: seq<Section>, offsets: Offsets)
    requires PlacedSection(s, ss, offsets) && SectionsExtend(ss, ts)
    ensures PlacedSection(s, ts, offsets)
  {
    assert NamesKept(ss, ts) by {
      assert forall k :: 0 <= k < |ss| ==> SectionExtends(ss[k], ts[k]);
    }
    KeptHas(ss, ts, s.name);
    var o, t, off := Lookup(ss, s.name), Lookup(ts, s.name), offsets[s.name];
    assert SectionExtends(o, t);
    assert t.data[..|o.data|] == o.data;
    assert t.data[off..off + |s.data|] == t.data[..|o.data|][off..off + |s.data|];
  }

  lemma PlacedStays(obj: Obj, d: Obj, e: Obj, offsets: Offsets, ids: map<nat, nat>)
    requires Placed(obj, d, offsets, ids) && Extends(d, e)
    ensures Placed(obj, e, offsets, ids)
  {
    forall k | 0 <= k < |obj.sections|
      ensures PlacedSection(obj.sections[k], e.sections, offsets)
    {
      PlacedSectionStays(obj.sections[k], d.sections, e.sections, offsets);
    }
    forall k | 0 <= k < |obj.symbols|
      ensures PlacedSymbol(obj.symbols[k], e.symbols, offsets, ids)
    {
      assert PlacedSymbol(obj.symbols[k], d.symbols, offsets, ids);
      assert SymbolExtends(d.symbols[ids[obj.symbols[k].id]], e.symbols[ids[obj.symbols[k].id]]);
    }
    forall k | 0 <= k < |obj.relocations|
      ensures PlacedReloc(obj.relocations[k], e.relocations, offsets, ids)
    {
      assert PlacedReloc(obj.relocations[k], d.relocations, offsets, ids);
    }
  }

  /** ----- merging one object ----- */

  lemma PlaceSectionPlaces(ss: seq<Section>, s: Section)
    ensures var r := PlaceSection(ss, s);
      r.Ok? ==> SectionsExtend(ss, r.value.0) && PlacedSection(s, r.value.0, map[s.name := r.value.1])
  {
    var base, r := WithSection(ss, s.name), PlaceSection(ss, s);
    if r.Ok? {
      var k := Find(base, s.name);
      PaddedIsAligned(base[k].data, s.alignment);
      assert SectionsExtend(base, r.value.0);
      assert SectionsExtend(ss, base);
      SectionsExtendTwice(ss, base, r.value.0);
      assert NamesKept(base, r.value.0);
      KeptHas(base, r.value.0, s.name);
      var o, off := r.value.0[k], r.value.1;
      assert o.data == Padded(base[k].data, s.alignment) + s.data;
      assert o.data[off..off + |s.data|] == s.data;
    }
  }

  lemma MoreOffsets(s: Section, ss: seq<Section>, offsets: Offsets, more: Offsets)
    requires PlacedSection(s, ss, offsets) && s.name in more && more[s.name] == offsets[s.name]
    ensures PlacedSection(s, ss, more)
  {
  }

  /** One more section, with an offset of its own. */
  lemma PlacedNext(ss: seq<Section>, n: nat, ts: seq<Section>, us: seq<Section>, offsets: Offsets, off: nat)
    requires n < |ss| && UniqueNames(ss) && SectionsExtend(ts, us)
    requires forall k :: 0 <= k < n ==> PlacedSection(ss[k], ts, offsets)
    requires PlacedSection(ss[n], us, map[ss[n].name := off])
    ensures forall k :: 0 <= k < n + 1 ==> PlacedSection(ss[k], us, offsets[ss[n].name := off])
  {
    hide SectionsExtend, PlacedSection;
    var more := offsets[ss[n].name := off];
    MoreOffsets(ss[n], us, map[ss[n].name := off], more);
    forall k | 0 <= k < n
      ensures PlacedSection(ss[k], us, more)
    {
      PlacedSectionStays(ss[k], ts, us, offsets);
      PlacedHasOffset(ss[k], us, offsets);
      MoreOffsets(ss[k], us, offsets, more);
    }
  }

  lemma ExtendsItself(ss: seq<Section>)
    ensures SectionsExtend(ss, ss)
  {
  }

  lemma {:induction false} PlaceToPlaces(dst: seq<Section>, ss: seq<Section>, n: nat)
    requires n <= |ss| && UniqueNames(ss)
    ensures var r := PlaceTo(dst, ss, n);
      r.Ok? ==>
        && SectionsExtend(dst, r.value.0)
        && (forall k :: 0 <= k < n ==> PlacedSection(ss[k], r.value.0, r.value.1))
  {
    hide PlaceSection, PlacedSection, UniqueNames, SectionsExtend;
    if n == 0 {
      ExtendsItself(dst);
    } else {
      PlaceToPlaces(dst, ss, n - 1);
      var r := PlaceTo(dst, ss, n - 1);
      if r.Ok? {
        PlaceSectionPlaces(r.value.0, ss[n - 1]);
        var p := PlaceSection(r.value.0, ss[n - 1]);
        if p.Ok? {
          SectionsExtendTwice(dst, r.value.0, p.value.0);
          PlacedNext(ss, n - 1, r.value.0, p.value.0, r.value.1, p.value.1);
        }
      }
    }
  }

  lemma PlacedHasOffset(s: Section, ss: seq<Section>, offsets: Offsets)
    requires PlacedSection(s, ss, offsets)
    ensures s.name in offsets
  {
  }

  predicate NumberedIds(ys: seq<Symbol>) {
    forall k :: 0 <= k < |ys| ==> ys[k].id == k
  }

  lemma PlaceSymbolPlaces(ys: seq<Symbol>, offsets: Offsets, y: Symbol)
    requires NumberedIds(ys)
    ensures var r := PlaceSymbol(ys, offsets, y);
      r.Ok? ==> NumberedIds(r.value.0) && SymbolsExtend(ys, r.value.0) && PlacedSymbol(y, r.value.0, offsets, map[y.id := r.value.1])
  {
  }

  lemma PlacedSymbolStays(y: Symbol, ys: seq<Symbol>, zs: seq<Symbol>, offsets: Offsets, ids: map<nat, nat>, more: map<nat, nat>)
    requires PlacedSymbol(y, ys, offsets, ids) && SymbolsExtend(ys, zs) && y.id in more && more[y.id] == ids[y.id]
    ensures PlacedSymbol(y, zs, offsets, more)
  {
    assert SymbolExtends(ys[ids[y.id]], zs[ids[y.id]]);
  }

  lemma {:induction false} SymbolsToPlaces(dst: seq<Symbol>, offsets: Offsets, ys: seq<Symbol>, n: nat)
    requires n <= |ys| && NumberedIds(dst) && forall j, k :: 0 <= j < k < |ys| ==> ys[j].id != ys[k].id
    ensures var r := SymbolsTo(dst, offsets, ys, n);
      r.Ok? ==>
        && NumberedIds(r.value.0) && SymbolsExtend(dst, r.value.0)
        && (forall k :: 0 <= k < n ==> PlacedSymbol(ys[k], r.value.0, offsets, r.value.1))
  {
    if n > 0 {
      SymbolsToPlaces(dst, offsets, ys, n - 1);
      var r := SymbolsTo(dst, offsets, ys, n - 1);
      if r.Ok? {
        PlaceSymbolPlaces(r.value.0, offsets, ys[n - 1]);
        var p := PlaceSymbol(r.value.0, offsets, ys[n - 1]);
        hide PlaceSymbol, SymbolsExtend, NumberedIds;
        if p.Ok? {
          SymbolsExtendTwice(dst, r.value.0, p.value.0);
          ExtendSelf(p.value.0);
          var ids := r.value.1[ys[n - 1].id := p.value.1];
          PlacedSymbolStays(ys[n - 1], p.value.0, p.value.0, offsets, map[ys[n - 1].id := p.value.1], ids);
          forall k | 0 <= k < n - 1
            ensures PlacedSymbol(ys[k], p.value.0, offsets, ids)
          {
            assert ys[k].id != ys[n - 1].id;
            PlacedSymbolStays(ys[k], r.value.0, p.value.0, offsets, r.value.1, ids);
          }
        }
      }
    }
  }

  lemma ExtendSelf(ys: seq<Symbol>)
    ensures SymbolsExtend(ys, ys)
  {
  }

  lemma {:induction false} RelocsToPlaces(dst: seq<Reloc>, offsets: Offsets, ids: map<nat, nat>, rs: seq<Reloc>, n: nat)
    requires n <= |rs|
    ensures var r := RelocsTo(dst, offsets, ids, rs, n);
      r.Ok? ==> dst <= r.value && forall k :: 0 <= k < n ==> PlacedReloc(rs[k], r.value, offsets, ids)
  {
    if n > 0 {
      RelocsToPlaces(dst, offsets, ids, rs, n - 1);
    }
  }

  /** Merging puts the object into the output, and leaves what was there. */
  lemma InjectPlaces(dst: Obj, obj: Obj)
    requires NumberedIds(dst.symbols) && Sensible(obj)
    ensures var r := InjectWith(dst, obj);
      r.Ok? ==> Placed(obj, r.value.0, r.value.1, r.value.2) && Extends(dst, r.value.0)
  {
    hide PlaceTo, SymbolsTo, RelocsTo, PlacedSection, PlacedSymbol, PlacedReloc, SectionsExtend, SymbolsExtend, NumberedIds;
    var r := InjectWith(dst, obj);
    if r.Ok? {
      PlaceToPlaces(dst.sections, obj.sections, |obj.sections|);
      SymbolsToPlaces(dst.symbols, r.value.1, obj.symbols, |obj.symbols|);
      RelocsToPlaces(dst.relocations, r.value.1, r.value.2, obj.relocations, |obj.relocations|);
    }
  }

  lemma NormalIsNumbered(d: Obj)
    requires Normal(d)
    ensures NumberedIds(d.symbols)
  {
  }

  lemma ExtendsTwice(a: Obj, b: Obj, c: Obj)
    requires Extends(a, b) && Extends(b, c)
    ensures Extends(a, c)
  {
    SectionsExtendTwice(a.sections, b.sections, c.sections);
    SymbolsExtendTwice(a.symbols, b.symbols, c.symbols);
  }

  lemma {:induction false} LinkExtends(dst: Obj, objs: seq<Obj>)
    requires Normal(dst) && forall k :: 0 <= k < |objs| ==> Sensible(objs[k])
    ensures LinkFrom(dst, objs).Ok? ==> Extends(dst, LinkFrom(dst, objs).value)
    decreases |objs|
  {
    if objs != [] {
      hide Normal, InjectWith, Extends, Placed, Sensible;
      NormalIsNumbered(dst);
      InjectPlaces(dst, objs[0]);
      InjectNormal(dst, objs[0]);
      var r := Inject(dst, objs[0]);
      if r.Ok? {
        LinkExtends(r.value, objs[1..]);
        if LinkFrom(dst, objs).Ok? {
          ExtendsTwice(dst, r.value, LinkFrom(dst, objs).value);
        }
      }
    }
  }

  /** Every object that is linked is found in the result. */
  lemma {:induction false} LinkPlaces(dst: Obj, objs: seq<Obj>, k: nat) returns (offsets: Offsets, ids: map<nat, nat>)
    requires Normal(dst) && k < |objs| && LinkFrom(dst, objs).Ok? && forall k :: 0 <= k < |objs| ==> Sensible(objs[k])
    ensures Placed(objs[k], LinkFrom(dst, objs).value, offsets, ids)
    decreases |objs|
  {
    hide Normal, InjectWith, Extends, Placed, Sensible;
    NormalIsNumbered(dst);
    InjectPlaces(dst, objs[0]);
    InjectNormal(dst, objs[0]);
    var r := InjectWith(dst, objs[0]);
    if k == 0 {
      offsets, ids := r.value.1, r.value.2;
      LinkExtends(r.value.0, objs[1..]);
      PlacedStays(objs[0], r.value.0, LinkFrom(dst, objs).value, offsets, ids);
    } else {
      offsets, ids := LinkPlaces(r.value.0, objs[1..], k - 1);
    }
  }

  /** A defined symbol denotes the same byte in its object and in whatever it is linked into. */
  lemma SymbolKeepsItsByte(obj: Obj, d: Obj, offsets: Offsets, ids: map<nat, nat>, k: nat, j: nat)
    requires Placed(obj, d, offsets, ids) && k < |obj.symbols| && j < |obj.sections|
    requires var y := obj.symbols[k]; y.value.Some? && y.section == Some(obj.sections[j].name) && 0 <= y.value.value < |obj.sections[j].data|
    ensures var y := obj.symbols[k]; y.id in ids && ids[y.id] < |d.symbols| && d.symbols[ids[y.id]].value.Some?
    ensures d.symbols[ids[obj.symbols[k].id]].section == obj.symbols[k].section && Has(d.sections, obj.sections[j].name)
    ensures var y, v := obj.symbols[k], d.symbols[ids[obj.symbols[k].id]].value.value;
      var data := Lookup(d.sections, obj.sections[j].name).data;
      0 <= v < |data| && data[v] == obj.sections[j].data[y.value.value]
  {
    var y, s := obj.symbols[k], obj.sections[j];
    assert PlacedSymbol(y, d.symbols, offsets, ids);
    assert PlacedSection(s, d.sections, offsets);
    var data, off := Lookup(d.sections, s.name).data, offsets[s.name];
    assert data[off..off + |s.data|][y.value.value] == data[off + y.value.value];
  }
}
