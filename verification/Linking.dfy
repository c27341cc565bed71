/**
  Merging object files: sections are appended, symbols resolved, relocations
  shifted.  Linking in two stages is the same as linking at once, and every
  symbol keeps denoting the byte it denoted in its own object.
 */
module Linking {
  import opened Basics
  import opened Arithmetic
  import opened Objects

  type Offsets = map<Name, nat>

  /** ----- sections ----- */

  function Padding(n: nat, a: nat): nat
    requires a > 0
  {
    if n % a == 0 then 0 else a - n % a
  }

  function Padded(data: seq<Byte>, a: nat): seq<Byte>
    requires a > 0
  {
    data + Zeros(Padding(|data|, a))
  }

  lemma PaddedIsAligned(data: seq<Byte>, a: nat)
    requires a > 0
    ensures |Padded(data, a)| % a == 0
  {
    Rounding(|data|, a);
  }

  const DEFAULT_ALIGNMENT: nat := 4

  /** `get_section(name, create=True)`. */
  function WithSection(ss: seq<Section>, name: Name): (r: seq<Section>)
    ensures Has(r, name)
    ensures ss <= r
  {
    if Has(ss, name) then ss else
      var r := ss + [Section(name, 0, DEFAULT_ALIGNMENT, [])];
      assert r[|ss|].name == name;
      r
  }

  /** A section is appended to the output section of its name; the offset where it went. */
  function PlaceSection(ss: seq<Section>, s: Section): Result<(seq<Section>, nat)> {
    var base := WithSection(ss, s.name);
    if s.alignment == 0 then Failed(ZeroAlignment) else
      var k := Find(base, s.name);
      var data := Padded(base[k].data, s.alignment);
      var alignment := if s.alignment > base[k].alignment then s.alignment else base[k].alignment;
      Ok((base[k := base[k].(alignment := alignment, data := data + s.data)], |data|))
  }

  /** The first `n` sections of an object. */
  function PlaceTo(dst: seq<Section>, ss: seq<Section>, n: nat): Result<(seq<Section>, Offsets)>
    requires n <= |ss|
  {
    if n == 0 then Ok((dst, map[])) else
      var r := PlaceTo(dst, ss, n - 1);
      if r.Failed? then r else
      var p := PlaceSection(r.value.0, ss[n - 1]);
      if p.Failed? then Failed(p.error) else Ok((p.value.0, r.value.1[ss[n - 1].name := p.value.1]))
  }

  lemma PlaceToNext(dst: seq<Section>, ss: seq<Section>, n: nat)
    requires n < |ss|
    ensures PlaceTo(dst, ss, n + 1) == (
      var r := PlaceTo(dst, ss, n);
      if r.Failed? then r else
      var p := PlaceSection(r.value.0, ss[n]);
      if p.Failed? then Failed(p.error) else Ok((p.value.0, r.value.1[ss[n].name := p.value.1])))
    ensures PlaceTo(dst, ss, 0) == Ok((dst, map[]))
  {
  }

  /** ----- symbols ----- */

  function FindGlobal(symbols: seq<Symbol>, name: Name): (k: nat)
    ensures k <= |symbols|
    ensures k < |symbols| ==> symbols[k].isGlobal && symbols[k].name == name
    ensures forall j :: 0 <= j < k ==> !(symbols[j].isGlobal && symbols[j].name == name)
  {
    if symbols == [] then 0
    else if symbols[0].isGlobal && symbols[0].name == name then 0
    else
      var k := FindGlobal(symbols[1..], name);
      assert forall j :: 1 <= j < k + 1 ==> symbols[j] == symbols[1..][j - 1];
      k + 1
  }

  /** `inject_symbol`: the identity of a new symbol is its position. */
  function NewSymbol(symbols: seq<Symbol>, name: Name, isGlobal: bool, value: Option<int>, section: Option<Name>): seq<Symbol> {
    symbols + [Symbol(|symbols|, name, isGlobal, value, section)]
  }

  /** `merge_global_symbol`: at most one definition. */
  function MergeGlobal(symbols: seq<Symbol>, name: Name, value: Option<int>, section: Option<Name>): Result<(seq<Symbol>, nat)> {
    var k := FindGlobal(symbols, name);
    if k == |symbols| then Ok((NewSymbol(symbols, name, true, value, section), k))
    else if value.None? then Ok((symbols, symbols[k].id))
    else if symbols[k].value.None? then Ok((symbols[k := symbols[k].(value := value, section := section)], symbols[k].id))
    else Failed(MultipleDefinition)
  }

  /** Where the section of a defined symbol went. */
  function ShiftOf(offsets: Offsets, s: Symbol): Result<int> {
    if s.section.None? || s.section.value !in offsets then Failed(UnknownKey) else Ok(offsets[s.section.value])
  }

  function PlaceSymbol(symbols: seq<Symbol>, offsets: Offsets, s: Symbol): Result<(seq<Symbol>, nat)> {
    var shift := if s.value.None? then Ok(0) else ShiftOf(offsets, s);
    if shift.Failed? then Failed(shift.error) else
      var value := if s.value.None? then None else Some(shift.value + s.value.value);
      var section := if s.value.None? then None else s.section;
      if s.isGlobal then MergeGlobal(symbols, s.name, value, section)
      else Ok((NewSymbol(symbols, s.name, false, value, section), |symbols|))
  }

  function SymbolsTo(dst: seq<Symbol>, offsets: Offsets, ss: seq<Symbol>, n: nat): Result<(seq<Symbol>, map<nat, nat>)>
    requires n <= |ss|
  {
    if n == 0 then Ok((dst, map[])) else
      var r := SymbolsTo(dst, offsets, ss, n - 1);
      if r.Failed? then r else
      var p := PlaceSymbol(r.value.0, offsets, ss[n - 1]);
      if p.Failed? then Failed(p.error) else Ok((p.value.0, r.value.1[ss[n - 1].id := p.value.1]))
  }

  /** ----- relocations ----- */

  function PlaceReloc(offsets: Offsets, ids: map<nat, nat>, r: Reloc): Result<Reloc> {
    if r.section !in offsets || r.symbol !in ids then Failed(UnknownKey)
    else Ok(Reloc(r.kind, ids[r.symbol], r.section, offsets[r.section] + r.offset, r.addend))
  }

  function RelocsTo(dst: seq<Reloc>, offsets: Offsets, ids: map<nat, nat>, rs: seq<Reloc>, n: nat): Result<seq<Reloc>>
    requires n <= |rs|
  {
    if n == 0 then Ok(dst) else
      var r := RelocsTo(dst, offsets, ids, rs, n - 1);
      if r.Failed? then r else
      var p := PlaceReloc(offsets, ids, rs[n - 1]);
      if p.Failed? then Failed(p.error) else Ok(r.value + [p.value])
  }

  function PlaceEntry(dst: Option<nat>, ids: map<nat, nat>, entry: Option<nat>): Result<Option<nat>> {
    if entry.None? then Ok(dst)
    else if dst.Some? then Failed(MultipleEntry)
    else if entry.value !in ids then Failed(UnknownKey)
    else Ok(Some(ids[entry.value]))
  }

  /** `inject_object`, with where sections and symbols went. */
  function InjectWith(dst: Obj, obj: Obj): Result<(Obj, Offsets, map<nat, nat>)> {
    var ss := PlaceTo(dst.sections, obj.sections, |obj.sections|);
    if ss.Failed? then Failed(ss.error) else
    var offsets := ss.value.1;
    var ys := SymbolsTo(dst.symbols, offsets, obj.symbols, |obj.symbols|);
    if ys.Failed? then Failed(ys.error) else
    var ids := ys.value.1;
    var rs := RelocsTo(dst.relocations, offsets, ids, obj.relocations, |obj.relocations|);
    if rs.Failed? then Failed(rs.error) else
    var e := PlaceEntry(dst.entry, ids, obj.entry);
    if e.Failed? then Failed(e.error) else
    Ok((Obj(ss.value.0, ys.value.0, rs.value, dst.images, e.value), offsets, ids))
  }

  function Inject(dst: Obj, obj: Obj): Result<Obj> {
    var r := InjectWith(dst, obj);
    if r.Failed? then Failed(r.error) else Ok(r.value.0)
  }

  /** `merge_objects`: one object after the other. */
  function LinkFrom(dst: Obj, objs: seq<Obj>): Result<Obj>
    decreases |objs|
  {
    if objs == [] then Ok(dst) else
      var r := Inject(dst, objs[0]);
      if r.Failed? then r else LinkFrom(r.value, objs[1..])
  }

  lemma {:induction false} LinkInTwo(dst: Obj, xs: seq<Obj>, ys: seq<Obj>)
    ensures LinkFrom(dst, xs + ys) == (var r := LinkFrom(dst, xs); if r.Failed? then r else LinkFrom(r.value, ys))
    decreases |xs|
  {
    if xs == [] {
      assert xs + ys == ys;
    } else {
      assert (xs + ys)[0] == xs[0] && (xs + ys)[1..] == xs[1..] + ys;
      var r := Inject(dst, xs[0]);
      if r.Ok? {
        LinkInTwo(r.value, xs[1..], ys);
      }
    }
  }
}
