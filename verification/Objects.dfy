/**
  Object files: sections of bytes, symbols and relocations that are offsets
  into sections, and images that place sections in memory.
 */
module Objects {
  import opened Basics

  type Byte = nat

  type Name = nat

  datatype Section = Section(name: Name, address: int, alignment: nat, data: seq<Byte>) {
    function Size(): nat { |data| }

    function End(): int { address + |data| }
  }

  /** An undefined symbol has no value. A defined one without a section is absolute. */
  datatype Symbol = Symbol(id: nat, name: Name, isGlobal: bool, value: Option<int>, section: Option<Name>)

  datatype Reloc = Reloc(kind: nat, symbol: nat, section: Name, offset: int, addend: int)

  /** The sections of an image are named; they live in the object file. */
  datatype Image = Image(name: Name, address: int, sections: seq<Name>)

  datatype Obj = Obj(sections: seq<Section>, symbols: seq<Symbol>, relocations: seq<Reloc>, images: seq<Image>, entry: Option<nat>)

  const EmptyObj := Obj([], [], [], [], None)

  datatype Error = MultipleDefinition | MultipleEntry | UnknownKey | ZeroAlignment | SectionExists | SectionsOverlap | MemoryExceeded

  datatype Result<T> = Ok(value: T) | Failed(error: Error)

  /** Position of a section, or the number of sections. */
  function Find(sections: seq<Section>, name: Name): (k: nat)
    ensures k <= |sections|
    ensures k < |sections| ==> sections[k].name == name
    ensures forall j :: 0 <= j < k ==> sections[j].name != name
  {
    if sections == [] then 0
    else if sections[0].name == name then 0
    else
      var k := Find(sections[1..], name);
      assert forall j :: 1 <= j < k + 1 ==> sections[j] == sections[1..][j - 1];
      k + 1
  }

  predicate Has(sections: seq<Section>, name: Name) {
    Find(sections, name) < |sections|
  }

  predicate UniqueNames(sections: seq<Section>) {
    forall i, j :: 0 <= i < j < |sections| ==> sections[i].name != sections[j].name
  }

  predicate Distinct(names: seq<Name>) {
    forall j, k :: 0 <= j < k < |names| ==> names[j] != names[k]
  }

  lemma FindIs(sections: seq<Section>, k: nat)
    requires UniqueNames(sections) && k < |sections|
    ensures Find(sections, sections[k].name) == k
  {
    var j := Find(sections, sections[k].name);
  }

  /** ----- images ----- */

  function Zeros(n: nat): (z: seq<Byte>)
    ensures |z| == n && forall k :: 0 <= k < n ==> z[k] == 0
  {
    seq(n, _ => 0)
  }

  /** `Image.data` of the sections at these places, from an address on. */
  function ImageFrom(sections: seq<Section>, address: int): Result<seq<Byte>> {
    if sections == [] then Ok([])
    else if sections[0].address < address then Failed(SectionsOverlap)
    else
      var rest := ImageFrom(sections[1..], sections[0].End());
      if rest.Failed? then rest else Ok(Zeros(sections[0].address - address) + sections[0].data + rest.value)
  }

  function Lookup(sections: seq<Section>, name: Name): Section
    requires Has(sections, name)
  {
    sections[Find(sections, name)]
  }

  predicate HasAll(sections: seq<Section>, names: seq<Name>) {
    forall k :: 0 <= k < |names| ==> Has(sections, names[k])
  }

  /** The sections with these names. */
  function Named(sections: seq<Section>, names: seq<Name>): (s: seq<Section>)
    requires HasAll(sections, names)
    ensures |s| == |names|
    ensures forall k :: 0 <= k < |names| ==> s[k] == Lookup(sections, names[k])
  {
    seq(|names|, k requires 0 <= k < |names| => Lookup(sections, names[k]))
  }

  /** More bytes behind those that are there already. */
  function Behind(data: seq<Byte>, rest: Result<seq<Byte>>): Result<seq<Byte>> {
    if rest.Failed? then rest else Ok(data + rest.value)
  }

  lemma NothingBefore(r: Result<seq<Byte>>)
    ensures Behind([], r) == r
  {
    if r.Ok? {
      assert [] + r.value == r.value;
    }
  }

  lemma ImageStep(all: seq<Section>, address: int, data: seq<Byte>)
    requires all != [] && address <= all[0].address
    ensures Behind(data, ImageFrom(all, address))
      == Behind(data + Zeros(all[0].address - address) + all[0].data, ImageFrom(all[1..], all[0].End()))
  {
    var rest := ImageFrom(all[1..], all[0].End());
    if rest.Ok? {
      var z, d := Zeros(all[0].address - address), all[0].data;
      assert data + (z + d + rest.value) == data + z + d + rest.value;
    }
  }

  /** Sections in order, without overlap, from an address on. */
  predicate InOrder(sections: seq<Section>, address: int) {
    sections != [] ==> address <= sections[0].address && InOrder(sections[1..], sections[0].End())
  }

  function EndOf(sections: seq<Section>, address: int): int {
    if sections == [] then address else EndOf(sections[1..], sections[0].End())
  }

  /** The data of an image exists exactly when its sections are in order; it reaches from the
      start of the image to the end of the last section. */
  lemma {:induction false} ImageExists(sections: seq<Section>, address: int)
    ensures ImageFrom(sections, address).Ok? <==> InOrder(sections, address)
    ensures InOrder(sections, address) ==>
      EndOf(sections, address) >= address && |ImageFrom(sections, address).value| == EndOf(sections, address) - address
    decreases |sections|
  {
    if sections != [] {
      ImageExists(sections[1..], sections[0].End());
    }
  }

  /** Sections that are in order are apart, and inside the image. */
  lemma {:induction false} OrderKeepsApart(sections: seq<Section>, address: int, k: nat)
    requires InOrder(sections, address) && k < |sections|
    ensures address <= sections[k].address && sections[k].End() <= EndOf(sections, address)
    ensures forall j :: k < j < |sections| ==> sections[k].End() <= sections[j].address
    decreases |sections|
  {
    ImageExists(sections[1..], sections[0].End());
    if k == 0 {
      forall j | 0 < j < |sections|
        ensures sections[0].End() <= sections[j].address
      {
        OrderKeepsApart(sections[1..], sections[0].End(), j - 1);
        assert sections[1..][j - 1] == sections[j];
      }
    } else {
      OrderKeepsApart(sections[1..], sections[0].End(), k - 1);
      forall j | k < j < |sections|
        ensures sections[k].End() <= sections[j].address
      {
        assert sections[1..][j - 1] == sections[j] && sections[1..][k - 1] == sections[k];
      }
    }
  }

  /** An image holds the bytes of each section at its address. */
  lemma {:induction false} ImageHolds(sections: seq<Section>, address: int, k: nat)
    requires InOrder(sections, address) && k < |sections|
    ensures ImageFrom(sections, address).Ok?
    ensures var data := ImageFrom(sections, address).value; var at := sections[k].address - address;
      0 <= at <= at + |sections[k].data| <= |data| && data[at..at + |sections[k].data|] == sections[k].data
    decreases |sections|
  {
    ImageExists(sections, address);
    OrderKeepsApart(sections, address, k);
    var data := ImageFrom(sections, address).value;
    var gap := Zeros(sections[0].address - address);
    var rest := ImageFrom(sections[1..], sections[0].End()).value;
    assert data == gap + sections[0].data + rest;
    if k == 0 {
      HoldsHere(gap, sections[0].data, rest);
    } else {
      ImageHolds(sections[1..], sections[0].End(), k - 1);
      OrderKeepsApart(sections[1..], sections[0].End(), k - 1);
      HoldsLater(gap + sections[0].data, rest, sections[k].address - sections[0].End(), sections[k].data);
    }
  }

  /** What no section covers is zero. */
  lemma {:induction false} ImageGaps(sections: seq<Section>, address: int, at: int)
    requires InOrder(sections, address) && address <= at < EndOf(sections, address)
    requires forall j :: 0 <= j < |sections| ==> !(sections[j].address <= at < sections[j].End())
    ensures ImageFrom(sections, address).Ok? && at - address < |ImageFrom(sections, address).value|
    ensures ImageFrom(sections, address).value[at - address] == 0
    decreases |sections|
  {
    ImageExists(sections, address);
    var gap, rest := Zeros(sections[0].address - address), ImageFrom(sections[1..], sections[0].End());
    assert ImageFrom(sections, address).value == gap + sections[0].data + rest.value;
    if at >= sections[0].address {
      assert at >= sections[0].End();
      ImageGaps(sections[1..], sections[0].End(), at);
    }
  }

  lemma HoldsHere(a: seq<Byte>, b: seq<Byte>, c: seq<Byte>)
    ensures (a + b + c)[|a|..|a| + |b|] == b
  {
  }

  lemma HoldsLater(a: seq<Byte>, b: seq<Byte>, at: nat, d: seq<Byte>)
    requires at + |d| <= |b| && b[at..at + |d|] == d
    ensures (a + b)[|a| + at..|a| + at + |d|] == d
  {
    assert (a + b)[|a|..] == b;
    assert forall j :: 0 <= j < |d| ==> (a + b)[|a| + at + j] == b[at + j] == d[j];
  }

  class ObjectFile {
    var sections: seq<Section>
    var symbols: seq<Symbol>
    var relocations: seq<Reloc>
    var images: seq<Image>
    var entry: Option<nat>

    ghost function Model(): Obj
      reads this
    {
      Obj(sections, symbols, relocations, images, entry)
    }

    constructor ()
      ensures Model() == EmptyObj
    {
      sections, symbols, relocations, images, entry := [], [], [], [], None;
    }

    /** `Image.data`: the bytes of the sections, with zeros between them. */
    method ImageData(image: Image) returns (r: Result<seq<Byte>>)
      requires HasAll(sections, image.sections)
      ensures r == ImageFrom(Named(sections, image.sections), image.address)
    {
      ghost var all := Named(sections, image.sections);
      var data: seq<Byte>, current: int := [], image.address;
      var k := 0;
      assert all[0..] == all;
      NothingBefore(ImageFrom(all, current));
      while k < |image.sections|
        invariant k <= |image.sections|
        invariant ImageFrom(all, image.address) == Behind(data, ImageFrom(all[k..], current))
      {
        var s := Lookup(sections, image.sections[k]);
        assert all[k..][0] == s && all[k..][1..] == all[k + 1..];
        if s.address < current {
          return Failed(SectionsOverlap);
        }
        ImageStep(all[k..], current, data);
        data := data + Zeros(s.address - current);
        data := data + s.data;
        current := s.address + |s.data|;
        k := k + 1;
      }
      assert all[k..] == [];
      r := Ok(data);
      assert data + [] == data;
    }
  }
}
