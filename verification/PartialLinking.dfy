/**
  A linked object is a fixed point: injecting it into an empty object gives it
  back.  So objects can be linked in any number of stages.
 */
module PartialLinking {
  import opened Basics
  import opened Arithmetic
  import opened Objects
  import opened Linking

  /** ----- what linking produces ----- */

  predicate NormalSections(ss: seq<Section>) {
    && UniqueNames(ss)
    && forall k :: 0 <= k < |ss| ==> ss[k].address == 0 && ss[k].alignment >= DEFAULT_ALIGNMENT
  }

  predicate UniqueGlobals(ys: seq<Symbol>) {
    forall j, k :: 0 <= j < k < |ys| && ys[j].isGlobal && ys[k].isGlobal ==> ys[j].name != ys[k].name
  }

  predicate NormalSymbols(ys: seq<Symbol>, ss: seq<Section>) {
    && UniqueGlobals(ys)
    && forall k :: 0 <= k < |ys| ==>
         && ys[k].id == k
         && (ys[k].value.None? ==> ys[k].section.None?)
         && (ys[k].value.Some? ==> ys[k].section.Some? && Has(ss, ys[k].section.value))
  }

  predicate NormalRelocs(rs: seq<Reloc>, ss: seq<Section>, symbols: nat) {
    forall k :: 0 <= k < |rs| ==> Has(ss, rs[k].section) && rs[k].symbol < symbols
  }

  predicate Normal(d: Obj) {
    && NormalSections(d.sections)
    && NormalSymbols(d.symbols, d.sections)
    && NormalRelocs(d.relocations, d.sections, |d.symbols|)
    && (d.entry.Some? ==> d.entry.value < |d.symbols|)
    && d.images == []
  }

  /** ----- sections are kept normal ----- */

  /** The names that are known stay known. */
  predicate NamesKept(ss: seq<Section>, ts: seq<Section>) {
    |ss| <= |ts| && forall k :: 0 <= k < |ss| ==> ts[k].name == ss[k].name
  }

  lemma KeptHas(ss: seq<Section>, ts: seq<Section>, name: Name)
    requires NamesKept(ss, ts) && Has(ss, name)
    ensures Has(ts, name) && Find(ts, name) == Find(ss, name)
  {
    var k, j := Find(ss, name), Find(ts, name);
    assert ts[k].name == name;
    assert forall i :: 0 <= i < k ==> ts[i].name == ss[i].name;
  }

  lemma WithSectionNormal(ss: seq<Section>, name: Name)
    requires NormalSections(ss)
    ensures NormalSections(WithSection(ss, name)) && NamesKept(ss, WithSection(ss, name))
  {
  }

  lemma PlaceSectionNormal(ss: seq<Section>, s: Section)
    requires NormalSections(ss)
    ensures var r := PlaceSection(ss, s);
      r.Ok? ==> NormalSections(r.value.0) && NamesKept(ss, r.value.0) && Has(r.value.0, s.name)
  {
    WithSectionNormal(ss, s.name);
    var base, r := WithSection(ss, s.name), PlaceSection(ss, s);
    if r.Ok? {
      assert NamesKept(base, r.value.0);
      KeptHas(base, r.value.0, s.name);
    }
  }

  lemma NamesKeptTwice(a: seq<Section>, b: seq<Section>, c: seq<Section>)
    requires NamesKept(a, b) && NamesKept(b, c)
    ensures NamesKept(a, c)
  {
  }

  lemma {:induction false} PlaceToNormal(dst: seq<Section>, ss: seq<Section>, n: nat)
    requires NormalSections(dst) && n <= |ss|
    ensures var r := PlaceTo(dst, ss, n);
      r.Ok? ==> NormalSections(r.value.0) && NamesKept(dst, r.value.0) && forall x :: x in r.value.1 ==> Has(r.value.0, x)
  {
    if n > 0 {
      hide PlaceSection, NormalSections, PlaceTo;
      PlaceToNormal(dst, ss, n - 1);
      PlaceToNext(dst, ss, n - 1);
      var r := PlaceTo(dst, ss, n - 1);
      if r.Ok? {
        PlaceSectionNormal(r.value.0, ss[n - 1]);
        var p := PlaceSection(r.value.0, ss[n - 1]);
        if p.Ok? {
          NamesKeptTwice(dst, r.value.0, p.value.0);
          forall x | x in r.value.1
            ensures Has(p.value.0, x)
          {
            KeptHas(r.value.0, p.value.0, x);
          }
        }
      }
    }
  }

  /** ----- symbols and relocations are kept normal ----- */

  lemma MergeGlobalNormal(ys: seq<Symbol>, ss: seq<Section>, name: Name, value: Option<int>, section: Option<Name>)
    requires NormalSymbols(ys, ss)
    requires value.None? ==> section.None?
    requires value.Some? ==> section.Some? && Has(ss, section.value)
    ensures var r := MergeGlobal(ys, name, value, section);
      r.Ok? ==> NormalSymbols(r.value.0, ss) && |ys| <= |r.value.0| && r.value.1 < |r.value.0|
  {
  }

  lemma PlaceSymbolNormal(ys: seq<Symbol>, ss: seq<Section>, offsets: Offsets, s: Symbol)
    requires NormalSymbols(ys, ss) && forall x :: x in offsets ==> Has(ss, x)
    ensures var r := PlaceSymbol(ys, offsets, s);
      r.Ok? ==> NormalSymbols(r.value.0, ss) && |ys| <= |r.value.0| && r.value.1 < |r.value.0|
  {
    var shift := if s.value.None? then Ok(0) else ShiftOf(offsets, s);
    if shift.Ok? && s.isGlobal {
      MergeGlobalNormal(ys, ss, s.name, if s.value.None? then None else Some(shift.value + s.value.value),
        if s.value.None? then None else s.section);
    }
  }

  lemma {:induction false} SymbolsToNormal(dst: seq<Symbol>, ss: seq<Section>, offsets: Offsets, ys: seq<Symbol>, n: nat)
    requires NormalSymbols(dst, ss) && n <= |ys| && forall x :: x in offsets ==> Has(ss, x)
    ensures var r := SymbolsTo(dst, offsets, ys, n);
      r.Ok? ==> NormalSymbols(r.value.0, ss) && |dst| <= |r.value.0| && forall x :: x in r.value.1 ==> r.value.1[x] < |r.value.0|
  {
    if n > 0 {
      SymbolsToNormal(dst, ss, offsets, ys, n - 1);
      var r := SymbolsTo(dst, offsets, ys, n - 1);
      if r.Ok? {
        PlaceSymbolNormal(r.value.0, ss, offsets, ys[n - 1]);
        hide PlaceSymbol, NormalSymbols;
      }
    }
  }

  lemma {:induction false} RelocsToNormal(dst: seq<Reloc>, ss: seq<Section>, offsets: Offsets, ids: map<nat, nat>, symbols: nat, rs: seq<Reloc>, n: nat)
    requires NormalRelocs(dst, ss, symbols) && n <= |rs|
    requires (forall x :: x in offsets ==> Has(ss, x)) && (forall x :: x in ids ==> ids[x] < symbols)
    ensures var r := RelocsTo(dst, offsets, ids, rs, n); r.Ok? ==> NormalRelocs(r.value, ss, symbols)
  {
    if n > 0 {
      RelocsToNormal(dst, ss, offsets, ids, symbols, rs, n - 1);
    }
  }

  lemma SymbolsSeeMore(ys: seq<Symbol>, ss: seq<Section>, ts: seq<Section>)
    requires NormalSymbols(ys, ss) && NamesKept(ss, ts)
    ensures NormalSymbols(ys, ts)
  {
    forall k | 0 <= k < |ys| && ys[k].value.Some?
      ensures Has(ts, ys[k].section.value)
    {
      KeptHas(ss, ts, ys[k].section.value);
    }
  }

  lemma RelocsSeeMore(rs: seq<Reloc>, ss: seq<Section>, ts: seq<Section>, m: nat, n: nat)
    requires NormalRelocs(rs, ss, m) && NamesKept(ss, ts) && m <= n
    ensures NormalRelocs(rs, ts, n)
  {
    forall k | 0 <= k < |rs|
      ensures Has(ts, rs[k].section)
    {
      KeptHas(ss, ts, rs[k].section);
    }
  }

  lemma InjectNormal(dst: Obj, obj: Obj)
    requires Normal(dst)
    ensures var r := Inject(dst, obj); r.Ok? ==> Normal(r.value)
  {
    var r := InjectWith(dst, obj);
    if r.Ok? {
      var d, offsets, ids := r.value.0, r.value.1, r.value.2;
      PlaceToNormal(dst.sections, obj.sections, |obj.sections|);
      SymbolsSeeMore(dst.symbols, dst.sections, d.sections);
      SymbolsToNormal(dst.symbols, d.sections, offsets, obj.symbols, |obj.symbols|);
      RelocsSeeMore(dst.relocations, dst.sections, d.sections, |dst.symbols|, |d.symbols|);
      RelocsToNormal(dst.relocations, d.sections, offsets, ids, |d.symbols|, obj.relocations, |obj.relocations|);
    }
  }

  lemma {:induction false} LinkNormal(dst: Obj, objs: seq<Obj>)
    requires Normal(dst)
    ensures LinkFrom(dst, objs).Ok? ==> Normal(LinkFrom(dst, objs).value)
    decreases |objs|
  {
    hide Normal, Inject;
    if objs != [] {
      InjectNormal(dst, objs[0]);
      var r := Inject(dst, objs[0]);
      if r.Ok? {
        LinkNormal(r.value, objs[1..]);
      }
    }
  }

  /** ----- a normal object is injected unchanged ----- */

  function NoOffsets(ss: seq<Section>, n: nat): Offsets
    requires n <= |ss|
  {
    map k | 0 <= k < n :: ss[k].name := 0
  }

  lemma SectionIntoFront(ss: seq<Section>, n: nat)
    requires NormalSections(ss) && n < |ss|
    ensures PlaceSection(ss[..n], ss[n]) == Ok((ss[..n + 1], 0))
  {
    var s := ss[n];
    var front := ss[..n];
    var k := Find(front, s.name);
    assert forall i :: 0 <= i < n ==> front[i].name == ss[i].name;
    var base := front + [Section(s.name, 0, DEFAULT_ALIGNMENT, [])];
    var j := Find(base, s.name);
    assert base[n].name == s.name;
    assert forall i :: 0 <= i < n ==> base[i].name == ss[i].name;
    assert j == n;
    assert Padded([], s.alignment) == [] by {
      SmallRemainder(0, s.alignment);
    }
    assert base[n := s] == ss[..n + 1];
    assert [] + s.data == s.data;
  }

  lemma {:induction false} SectionsIntoEmpty(ss: seq<Section>, n: nat)
    requires NormalSections(ss) && n <= |ss|
    ensures PlaceTo([], ss, n) == Ok((ss[..n], NoOffsets(ss, n)))
  {
    hide PlaceSection, NormalSections, PlaceTo, NoOffsets;
    var none: seq<Section> := [];
    if n > 0 {
      SectionsIntoEmpty(ss, n - 1);
      SectionIntoFront(ss, n - 1);
      PlaceToNext(none, ss, n - 1);
      NoOffsetsNext(ss, n - 1);
    } else if ss != [] {
      PlaceToNext(none, ss, 0);
      NoOffsetsNext(ss, 0);
      assert ss[..0] == none;
    } else {
      NothingPlaced();
    }
  }

  lemma NoOffsetsNext(ss: seq<Section>, n: nat)
    requires n < |ss|
    ensures NoOffsets(ss, n + 1) == NoOffsets(ss, n)[ss[n].name := 0] && NoOffsets(ss, 0) == map[]
  {
  }

  lemma NothingPlaced()
    ensures PlaceTo([], [], 0) == Ok(([], NoOffsets([], 0)))
  {
  }

  function SameIds(n: nat): (ids: map<nat, nat>)
    ensures forall k: nat :: k in ids <==> k < n
    ensures forall k: nat :: k in ids ==> ids[k] == k
  {
    if n == 0 then map[] else SameIds(n - 1)[n - 1 := n - 1]
  }

  lemma SymbolIntoFront(ys: seq<Symbol>, ss: seq<Section>, offsets: Offsets, n: nat)
    requires NormalSymbols(ys, ss) && n < |ys|
    requires forall x :: Has(ss, x) ==> x in offsets && offsets[x] == 0
    ensures PlaceSymbol(ys[..n], offsets, ys[n]) == Ok((ys[..n + 1], n))
  {
    var y, front := ys[n], ys[..n];
    if y.isGlobal {
      var k := FindGlobal(front, y.name);
      assert forall i :: 0 <= i < n ==> front[i] == ys[i];
    }
    assert ys[..n + 1] == front + [y];
    assert y == Symbol(n, y.name, y.isGlobal, y.value, y.section);
  }

  lemma {:induction false} SymbolsIntoEmpty(ys: seq<Symbol>, ss: seq<Section>, offsets: Offsets, n: nat)
    requires NormalSymbols(ys, ss) && n <= |ys|
    requires forall x :: Has(ss, x) ==> x in offsets && offsets[x] == 0
    ensures SymbolsTo([], offsets, ys, n) == Ok((ys[..n], SameIds(n)))
  {
    if n > 0 {
      SymbolsIntoEmpty(ys, ss, offsets, n - 1);
      SymbolIntoFront(ys, ss, offsets, n - 1);
      assert SameIds(n - 1)[n - 1 := n - 1] == SameIds(n);
    } else {
      assert SameIds(0) == map[];
    }
  }

  lemma {:induction false} RelocsIntoEmpty(rs: seq<Reloc>, ss: seq<Section>, offsets: Offsets, symbols: nat, n: nat)
    requires NormalRelocs(rs, ss, symbols) && n <= |rs|
    requires forall x :: Has(ss, x) ==> x in offsets && offsets[x] == 0
    ensures RelocsTo([], offsets, SameIds(symbols), rs, n) == Ok(rs[..n])
  {
    if n > 0 {
      RelocsIntoEmpty(rs, ss, offsets, symbols, n - 1);
      assert rs[..n] == rs[..n - 1] + [rs[n - 1]];
    }
  }

  /** Injecting a linked object into an empty one gives it back. */
  lemma InjectIntoEmpty(d: Obj)
    requires Normal(d)
    ensures Inject(EmptyObj, d) == Ok(d)
  {
    var offsets := NoOffsets(d.sections, |d.sections|);
    SectionsIntoEmpty(d.sections, |d.sections|);
    assert d.sections[..|d.sections|] == d.sections && d.symbols[..|d.symbols|] == d.symbols;
    assert d.relocations[..|d.relocations|] == d.relocations;
    forall x | Has(d.sections, x)
      ensures x in offsets && offsets[x] == 0
    {
      var k := Find(d.sections, x);
    }
    SymbolsIntoEmpty(d.symbols, d.sections, offsets, |d.symbols|);
    RelocsIntoEmpty(d.relocations, d.sections, offsets, |d.symbols|, |d.relocations|);
  }

  /** Linking a prefix of the objects, and then the result with the rest, is linking all of them:
      the same sections, symbols, relocations and entry, or the same error. */
  lemma LinkingInStages(xs: seq<Obj>, ys: seq<Obj>)
    requires LinkFrom(EmptyObj, xs).Ok?
    ensures LinkFrom(EmptyObj, [LinkFrom(EmptyObj, xs).value] + ys) == LinkFrom(EmptyObj, xs + ys)
  {
    var d := LinkFrom(EmptyObj, xs).value;
    LinkNormal(EmptyObj, xs);
    InjectIntoEmpty(d);
    LinkInTwo(EmptyObj, xs, ys);
    assert ([d] + ys)[1..] == ys;
  }

  /** When the prefix cannot be linked, neither can the whole. */
  lemma FailsInStages(xs: seq<Obj>, ys: seq<Obj>)
    requires LinkFrom(EmptyObj, xs).Failed?
    ensures LinkFrom(EmptyObj, xs + ys) == LinkFrom(EmptyObj, xs)
  {
    LinkInTwo(EmptyObj, xs, ys);
  }
}
