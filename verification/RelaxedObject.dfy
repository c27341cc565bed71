/**
  Relaxation of a whole object: symbols, relocations, section data and the
  addresses of the sections in images.
 */
module RelaxedObjects {
  import opened Basics
  import opened Arithmetic
  import opened Objects
  import opened Relaxation
  import opened Linking
  import opened Layouts

  function PunchAll(ss: seq<Section>, hs: Holes): (r: seq<Section>)
    requires AllFit(ss, hs)
    ensures |r| == |ss|
    ensures forall k :: 0 <= k < |ss| ==> r[k].name == ss[k].name
  {
    seq(|ss|, k requires 0 <= k < |ss| => FitAt(ss, hs, k); PunchSection(ss[k], hs))
  }

  lemma FitAt(ss: seq<Section>, hs: Holes, k: nat)
    requires AllFit(ss, hs) && k < |ss|
    ensures Fit(HolesOf(hs, ss[k].name), |ss[k].data|)
  {
  }

  predicate ImagesKnown(ss: seq<Section>, images: seq<Image>) {
    forall k :: 0 <= k < |images| ==> HasAll(ss, images[k].sections)
  }

  predicate SameNames(ss: seq<Section>, ts: seq<Section>) {
    |ts| == |ss| && forall k :: 0 <= k < |ss| ==> ts[k].name == ss[k].name
  }

  lemma SameNamesHas(ss: seq<Section>, ts: seq<Section>, names: seq<Name>)
    requires SameNames(ss, ts) && HasAll(ss, names)
    ensures HasAll(ts, names)
  {
    forall k | 0 <= k < |names|
      ensures Has(ts, names[k])
    {
      assert Has(ss, names[k]);
      SameNamesFind(ss, ts, names[k]);
    }
  }

  /** The images, one after the other. */
  function ShiftImages(ss: seq<Section>, images: seq<Image>, hs: Holes, n: nat): (r: seq<Section>)
    requires ImagesKnown(ss, images) && n <= |images|
    ensures SameNames(ss, r)
  {
    if n == 0 then ss else
      var ts := ShiftImages(ss, images, hs, n - 1);
      SameNamesHas(ss, ts, images[n - 1].sections);
      ShiftImage(ts, images[n - 1].sections, hs, |images[n - 1].sections|).0
  }

  /** `_apply_relaxation_holes`. */
  function RelaxObj(obj: Obj, hs: Holes): Obj
    requires AllFit(obj.sections, hs) && ImagesKnown(obj.sections, obj.images)
  {
    var punched := PunchAll(obj.sections, hs);
    KnownStays(obj.sections, punched, obj.images);
    Obj(ShiftImages(punched, obj.images, hs, |obj.images|),
        seq(|obj.symbols|, k requires 0 <= k < |obj.symbols| => ShiftSymbol(obj.symbols[k], hs)),
        seq(|obj.relocations|, k requires 0 <= k < |obj.relocations| => ShiftReloc(obj.relocations[k], hs)),
        obj.images, obj.entry)
  }

  lemma KnownStays(ss: seq<Section>, ts: seq<Section>, images: seq<Image>)
    requires SameNames(ss, ts) && ImagesKnown(ss, images)
    ensures ImagesKnown(ts, images)
  {
    forall k | 0 <= k < |images|
      ensures HasAll(ts, images[k].sections)
    {
      SameNamesHas(ss, ts, images[k].sections);
    }
  }

  /** ----- what happens to the sections of one image ----- */

  /** What the sections before the `k`-th lose together. */
  function LostBefore(names: seq<Name>, hs: Holes, k: nat): nat
    requires k <= |names|
  {
    if k == 0 then 0 else LostBefore(names, hs, k - 1) + Total(HolesOf(hs, names[k - 1]))
  }

  /** One section gets another address. */
  lemma OneMoves(us: seq<Section>, moved: Name, delta: int, name: Name)
    requires Has(us, moved) && Has(us, name)
    ensures var k := Find(us, moved); var ts := us[k := us[k].(address := us[k].address - delta)];
      && SameNames(us, ts) && Has(ts, name)
      && Lookup(ts, name) == if name == moved then Lookup(us, name).(address := Lookup(us, name).address - delta) else Lookup(us, name)
  {
    var k := Find(us, moved);
    var ts := us[k := us[k].(address := us[k].address - delta)];
    SameNamesFind(us, ts, name);
  }

  lemma ShiftImageNext(ss: seq<Section>, names: seq<Name>, hs: Holes, n: nat)
    requires HasAll(ss, names) && 0 < n <= |names|
    ensures var (us, before) := ShiftImage(ss, names, hs, n - 1);
      && SameNames(ss, us) && Has(us, names[n - 1])
      && var k := Find(us, names[n - 1]);
      ShiftImage(ss, names, hs, n) == (us[k := us[k].(address := us[k].address - before)], before + Total(HolesOf(hs, names[n - 1])))
  {
    hide Find, Total, HolesOf;
    var us := ShiftImage(ss, names, hs, n - 1).0;
    SameNamesFind(ss, us, names[n - 1]);
  }

  /** What a section moves down by in an image: each time it is there, by what those before it lose. */
  function LossIn(names: seq<Name>, hs: Holes, n: nat, name: Name): nat
    requires n <= |names|
  {
    if n == 0 then 0 else LossIn(names, hs, n - 1, name) + if names[n - 1] == name then LostBefore(names, hs, n - 1) else 0
  }

  /** What it moves down by in the first `n` images together. */
  function LossOf(images: seq<Image>, hs: Holes, n: nat, name: Name): nat
    requires n <= |images|
  {
    if n == 0 then 0 else LossOf(images, hs, n - 1, name) + LossIn(images[n - 1].sections, hs, |images[n - 1].sections|, name)
  }

  ghost predicate Lowered(ss: seq<Section>, ts: seq<Section>, name: Name, loss: nat) {
    && Has(ss, name) && Has(ts, name)
    && Lookup(ts, name) == Lookup(ss, name).(address := Lookup(ss, name).address - loss)
  }

  lemma LoweredTwice(a: seq<Section>, b: seq<Section>, c: seq<Section>, name: Name, x: nat, y: nat)
    requires Lowered(a, b, name, x) && Lowered(b, c, name, y)
    ensures Lowered(a, c, name, x + y)
  {
  }

  lemma {:induction false} ShiftImageIs(ss: seq<Section>, names: seq<Name>, hs: Holes, n: nat, name: Name)
    requires HasAll(ss, names) && n <= |names| && Has(ss, name)
    ensures var (ts, delta) := ShiftImage(ss, names, hs, n);
      SameNames(ss, ts) && delta == LostBefore(names, hs, n) && Lowered(ss, ts, name, LossIn(names, hs, n, name))
    decreases n
  {
    hide Total, ShiftImage, Lowered, Has, HasAll, SameNames, Lookup;
    if n == 0 {
      NothingShifted(ss, names, hs, name);
    } else {
      ShiftImageIs(ss, names, hs, n - 1, name);
      ShiftImageNext(ss, names, hs, n);
      var us, ts := ShiftImage(ss, names, hs, n - 1).0, ShiftImage(ss, names, hs, n).0;
      LoweredHas(ss, us, name, LossIn(names, hs, n - 1, name));
      OneMoves(us, names[n - 1], LostBefore(names, hs, n - 1), name);
      LoweredIs(us, ts, name, if names[n - 1] == name then LostBefore(names, hs, n - 1) else 0);
      LoweredTwice(ss, us, ts, name, LossIn(names, hs, n - 1, name), if names[n - 1] == name then LostBefore(names, hs, n - 1) else 0);
      SameNamesTwice(ss, us, ts);
    }
  }

  lemma LoweredHas(ss: seq<Section>, ts: seq<Section>, name: Name, loss: nat)
    requires Lowered(ss, ts, name, loss)
    ensures Has(ss, name) && Has(ts, name)
  {
  }

  lemma LoweredIs(ss: seq<Section>, ts: seq<Section>, name: Name, loss: nat)
    requires Has(ss, name) && Has(ts, name)
    requires Lookup(ts, name) == if loss > 0 then Lookup(ss, name).(address := Lookup(ss, name).address - loss) else Lookup(ss, name)
    ensures Lowered(ss, ts, name, loss)
  {
  }

  lemma SameNamesTwice(a: seq<Section>, b: seq<Section>, c: seq<Section>)
    requires SameNames(a, b) && SameNames(b, c)
    ensures SameNames(a, c)
  {
  }

  lemma NothingShifted(ss: seq<Section>, names: seq<Name>, hs: Holes, name: Name)
    requires HasAll(ss, names) && Has(ss, name)
    ensures ShiftImage(ss, names, hs, 0) == (ss, 0) && LostBefore(names, hs, 0) == 0
    ensures SameNames(ss, ss) && Lowered(ss, ss, name, 0)
  {
  }

  /** ----- all images ----- */

  lemma {:induction false} ShiftImagesAre(ss: seq<Section>, images: seq<Image>, hs: Holes, n: nat, name: Name)
    requires ImagesKnown(ss, images) && n <= |images| && Has(ss, name)
    ensures Lowered(ss, ShiftImages(ss, images, hs, n), name, LossOf(images, hs, n, name))
    decreases n
  {
    hide ImagesKnown, SameNames, ShiftImage, HasAll, Has, ShiftImages, Lowered, LossIn;
    ShiftImagesNext(ss, images, hs, n);
    if n == 0 {
      var names: seq<Name> := [];
      NoNames(ss);
      NothingShifted(ss, names, hs, name);
    } else {
      ShiftImagesAre(ss, images, hs, n - 1, name);
      var ts, names := ShiftImages(ss, images, hs, n - 1), images[n - 1].sections;
      LoweredHas(ss, ts, name, LossOf(images, hs, n - 1, name));
      ShiftImageIs(ts, names, hs, |names|, name);
      LoweredTwice(ss, ts, ShiftImages(ss, images, hs, n), name, LossOf(images, hs, n - 1, name), LossIn(names, hs, |names|, name));
    }
  }

  lemma NoNames(ss: seq<Section>)
    ensures HasAll(ss, [])
  {
  }

  lemma ShiftImagesNext(ss: seq<Section>, images: seq<Image>, hs: Holes, n: nat)
    requires ImagesKnown(ss, images) && n <= |images|
    ensures if n == 0 then ShiftImages(ss, images, hs, n) == ss else
      var ts, names := ShiftImages(ss, images, hs, n - 1), images[n - 1].sections;
      HasAll(ts, names) && ShiftImages(ss, images, hs, n) == ShiftImage(ts, names, hs, |names|).0
  {
    if n > 0 {
      assert HasAll(ss, images[n - 1].sections);
      SameNamesHas(ss, ShiftImages(ss, images, hs, n - 1), images[n - 1].sections);
    }
  }

  /** A section loses its holes, and moves down by what the sections before it lose, once for
      every time that it is in an image. */
  lemma SectionMoves(obj: Obj, hs: Holes, name: Name)
    requires AllFit(obj.sections, hs) && ImagesKnown(obj.sections, obj.images) && Has(obj.sections, name)
    ensures var s, after := Lookup(obj.sections, name), RelaxObj(obj, hs).sections;
      && Fit(HolesOf(hs, s.name), |s.data|) && Has(after, name)
      && Lookup(after, name) == PunchSection(s, hs).(address := s.address - LossOf(obj.images, hs, |obj.images|, name))
  {
    hide Punch, ShiftImages, ShiftSymbol, ShiftReloc;
    var punched := PunchAll(obj.sections, hs);
    KnownStays(obj.sections, punched, obj.images);
    PunchedLookup(obj.sections, hs, name);
    ShiftImagesAre(punched, obj.images, hs, |obj.images|, name);
  }

  /** The sections of the image move together: each by what those before it lose, and by no more. */
  predicate MovesAsOne(images: seq<Image>, hs: Holes, i: nat)
    requires i < |images|
  {
    forall k :: 0 <= k < |images[i].sections| ==>
      LossOf(images, hs, |images|, images[i].sections[k]) == LostBefore(images[i].sections, hs, k)
  }

  /** ----- sections placed once ----- */

  /** No section is in two images, or twice in one. */
  predicate EachOnce(images: seq<Image>) {
    && (forall i :: 0 <= i < |images| ==> Distinct(images[i].sections))
    && (forall i, j, k, l {:trigger images[i].sections[k], images[j].sections[l]} ::
          0 <= i < j < |images| && 0 <= k < |images[i].sections| && 0 <= l < |images[j].sections| ==>
            images[i].sections[k] != images[j].sections[l])
  }

  lemma {:induction false} LossOnce(names: seq<Name>, hs: Holes, n: nat, k: nat)
    requires n <= |names| && k < |names| && Distinct(names)
    ensures LossIn(names, hs, n, names[k]) == if k < n then LostBefore(names, hs, k) else 0
  {
    hide Total;
    if n > 0 {
      LossOnce(names, hs, n - 1, k);
    }
  }

  lemma {:induction false} NoLoss(names: seq<Name>, hs: Holes, n: nat, name: Name)
    requires n <= |names| && forall k :: 0 <= k < |names| ==> names[k] != name
    ensures LossIn(names, hs, n, name) == 0
  {
    if n > 0 {
      NoLoss(names, hs, n - 1, name);
    }
  }

  lemma {:induction false} LossInOneImage(images: seq<Image>, hs: Holes, n: nat, i: nat, k: nat)
    requires EachOnce(images) && n <= |images| && i < |images| && k < |images[i].sections|
    ensures LossOf(images, hs, n, images[i].sections[k]) == if i < n then LostBefore(images[i].sections, hs, k) else 0
  {
    hide LossIn, LostBefore;
    if n > 0 {
      LossInOneImage(images, hs, n - 1, i, k);
      var names := images[n - 1].sections;
      if n - 1 == i {
        LossOnce(names, hs, |names|, k);
      } else {
        OtherImage(images, n - 1, i, k);
        NoLoss(names, hs, |names|, images[i].sections[k]);
      }
    }
  }

  lemma OtherImage(images: seq<Image>, j: nat, i: nat, k: nat)
    requires EachOnce(images) && j < |images| && i < |images| && k < |images[i].sections|
    ensures j != i ==> forall l :: 0 <= l < |images[j].sections| ==> images[j].sections[l] != images[i].sections[k]
  {
    if j != i {
      forall l | 0 <= l < |images[j].sections|
        ensures images[j].sections[l] != images[i].sections[k]
      {
        var a, b := images[i].sections[k], images[j].sections[l];
      }
    }
  }

  /** Where no section is twice in the images, the sections of each of them move together. */
  lemma OnceMovesAsOne(images: seq<Image>, hs: Holes, i: nat)
    requires EachOnce(images) && i < |images|
    ensures MovesAsOne(images, hs, i)
  {
    forall k | 0 <= k < |images[i].sections|
      ensures LossOf(images, hs, |images|, images[i].sections[k]) == LostBefore(images[i].sections, hs, k)
    {
      LossInOneImage(images, hs, |images|, i, k);
    }
  }

  lemma {:induction false} NamesTogether(mems: seq<Memory>, naming: Naming, i: nat, k: nat)
    requires i < |mems| && k < |NamesOf(mems[i].inputs, naming)|
    ensures NamesOf(mems[i].inputs, naming)[k] in AllNames(mems, naming)
    decreases |mems|
  {
    hide NamesOf;
    if i > 0 {
      NamesTogether(mems[1..], naming, i - 1, k);
    }
  }

  lemma {:induction false} NamesElsewhere(mems: seq<Memory>, naming: Naming, i: nat, j: nat, k: nat, l: nat)
    requires Distinct(AllNames(mems, naming)) && i < j < |mems|
    requires k < |NamesOf(mems[i].inputs, naming)| && l < |NamesOf(mems[j].inputs, naming)|
    ensures NamesOf(mems[i].inputs, naming)[k] != NamesOf(mems[j].inputs, naming)[l]
    decreases |mems|
  {
    hide NamesOf, Distinct;
    AllNamesSplit(mems, naming);
    if i == 0 {
      NamesTogether(mems[1..], naming, j - 1, l);
    } else {
      NamesElsewhere(mems[1..], naming, i - 1, j - 1, k, l);
    }
  }

  lemma {:induction false} NamesOfOne(mems: seq<Memory>, naming: Naming, i: nat)
    requires Distinct(AllNames(mems, naming)) && i < |mems|
    ensures Distinct(NamesOf(mems[i].inputs, naming))
    decreases |mems|
  {
    hide NamesOf, Distinct;
    AllNamesSplit(mems, naming);
    if i > 0 {
      NamesOfOne(mems[1..], naming, i - 1);
    }
  }

  /** A layout that places no section twice leaves each of them in one image. */
  lemma LayoutPlacesOnce(obj: Obj, mems: seq<Memory>, naming: Naming)
    requires obj.images == [] && Distinct(AllNames(mems, naming)) && PlaceMemories(obj, mems, naming).Ok?
    ensures EachOnce(PlaceMemories(obj, mems, naming).value.images)
  {
    hide NamesOf, Distinct, AllNames, PlaceMemories;
    var images := PlaceMemories(obj, mems, naming).value.images;
    LayoutImages(obj, mems, naming);
    assert forall k :: 0 <= k < |mems| ==> images[|obj.images| + k] == images[k];
    forall i | 0 <= i < |images|
      ensures Distinct(images[i].sections)
    {
      NamesOfOne(mems, naming, i);
    }
    forall i, j, k, l {:trigger images[i].sections[k], images[j].sections[l]} |
      0 <= i < j < |images| && 0 <= k < |images[i].sections| && 0 <= l < |images[j].sections|
      ensures images[i].sections[k] != images[j].sections[l]
    {
      NamesElsewhere(mems, naming, i, j, k, l);
    }
  }

  lemma {:induction false} LostFromFront(names: seq<Name>, hs: Holes, k: nat)
    requires 0 < k <= |names|
    ensures LostBefore(names, hs, k) == Total(HolesOf(hs, names[0])) + LostBefore(names[1..], hs, k - 1)
    decreases k
  {
    if k > 1 {
      LostFromFront(names, hs, k - 1);
      assert names[1..][k - 2] == names[k - 1];
    }
  }

  lemma {:induction false} RelaxedAt(ss: seq<Section>, names: seq<Name>, hs: Holes, delta: nat, k: nat)
    requires AllFit(ss, hs) && k < |ss| == |names| && forall j :: 0 <= j < |ss| ==> ss[j].name == names[j]
    ensures |Relaxed(ss, hs, delta)| == |ss| && Fit(HolesOf(hs, ss[k].name), |ss[k].data|)
    ensures Relaxed(ss, hs, delta)[k] == PunchSection(ss[k], hs).(address := ss[k].address - (delta + LostBefore(names, hs, k)))
    decreases |ss|
  {
    hide Punch, Total;
    FitAt(ss, hs, k);
    FitRest(ss, hs);
    if |ss| > 1 {
      var j := if k > 0 then k - 1 else 0;
      RelaxedAt(ss[1..], names[1..], hs, delta + Total(HolesOf(hs, ss[0].name)), j);
      if k > 0 {
        LostFromFront(names, hs, k);
      }
    }
  }

  lemma PunchedLookup(ss: seq<Section>, hs: Holes, name: Name)
    requires AllFit(ss, hs) && Has(ss, name)
    ensures Has(PunchAll(ss, hs), name) && Fit(HolesOf(hs, name), |Lookup(ss, name).data|)
    ensures Lookup(PunchAll(ss, hs), name) == PunchSection(Lookup(ss, name), hs)
  {
    SameNamesFind(ss, PunchAll(ss, hs), name);
    FitAt(ss, hs, Find(ss, name));
  }

  lemma NamedFit(ss: seq<Section>, hs: Holes, names: seq<Name>)
    requires AllFit(ss, hs) && HasAll(ss, names)
    ensures AllFit(Named(ss, names), hs)
    ensures forall j :: 0 <= j < |names| ==> Named(ss, names)[j].name == names[j]
  {
    forall j | 0 <= j < |names|
      ensures Fit(HolesOf(hs, Named(ss, names)[j].name), |Named(ss, names)[j].data|)
    {
      assert Has(ss, names[j]);
      FitAt(ss, hs, Find(ss, names[j]));
    }
  }

  lemma ImageIsKnown(ss: seq<Section>, images: seq<Image>, i: nat)
    requires ImagesKnown(ss, images) && i < |images|
    ensures HasAll(ss, images[i].sections)
    ensures forall k :: 0 <= k < |images[i].sections| ==> Has(ss, images[i].sections[k])
  {
  }

  /** The sections of an image are those of the punched image exactly when they move together. */
  lemma ImageSectionsRelaxed(obj: Obj, hs: Holes, i: nat)
    requires AllFit(obj.sections, hs) && ImagesKnown(obj.sections, obj.images) && i < |obj.images|
    ensures var names := obj.images[i].sections; var after := RelaxObj(obj, hs);
      && HasAll(obj.sections, names) && HasAll(after.sections, names) && AllFit(Named(obj.sections, names), hs)
      && (Named(after.sections, names) == Relaxed(Named(obj.sections, names), hs, 0) <==> MovesAsOne(obj.images, hs, i))
  {
    hide ImagesKnown, AllFit, RelaxObj, Has, Relaxed, Punch, Total, LossOf, LostBefore;
    var names, ss, ts := obj.images[i].sections, obj.sections, RelaxObj(obj, hs).sections;
    ImageIsKnown(ss, obj.images, i);
    NamedFit(ss, hs, names);
    RelaxedLength(Named(ss, names), hs, 0);
    forall k | 0 <= k < |names|
      ensures Has(ss, names[k]) && Has(ts, names[k])
      ensures Lookup(ts, names[k]) == Relaxed(Named(ss, names), hs, 0)[k]
        <==> LossOf(obj.images, hs, |obj.images|, names[k]) == LostBefore(names, hs, k)
    {
      SectionMoves(obj, hs, names[k]);
      RelaxedAt(Named(ss, names), names, hs, 0, k);
    }
    var before, after := Relaxed(Named(ss, names), hs, 0), Named(ts, names);
    if MovesAsOne(obj.images, hs, i) {
      assert forall k :: 0 <= k < |names| ==> after[k] == before[k];
    }
    if after == before {
      forall k | 0 <= k < |names|
        ensures LossOf(obj.images, hs, |obj.images|, names[k]) == LostBefore(names, hs, k)
      {
        assert after[k] == Lookup(ts, names[k]);
      }
    }
  }

  lemma {:induction false} RelaxedLength(ss: seq<Section>, hs: Holes, delta: nat)
    requires AllFit(ss, hs)
    ensures |Relaxed(ss, hs, delta)| == |ss|
    decreases |ss|
  {
    hide Punch, Total;
    if ss != [] {
      FitRest(ss, hs);
      RelaxedLength(ss[1..], hs, delta + Total(HolesOf(hs, ss[0].name)));
    }
  }

  /** The image after relaxation is the image before, with exactly the bytes of the holes taken out,
      where its sections move together. */
  lemma RelaxedImage(obj: Obj, hs: Holes, i: nat)
    requires AllFit(obj.sections, hs) && ImagesKnown(obj.sections, obj.images) && i < |obj.images| && MovesAsOne(obj.images, hs, i)
    requires HasAll(obj.sections, obj.images[i].sections) && InOrder(Named(obj.sections, obj.images[i].sections), obj.images[i].address)
    ensures var image := obj.images[i]; var before, after := Named(obj.sections, image.sections), RelaxObj(obj, hs);
      && HasAll(after.sections, image.sections)
      && ImageFrom(before, image.address).Ok?
      && var data, holes := ImageFrom(before, image.address).value, ImageHoles(before, hs, image.address);
      Fit(holes, |data|) && ImageFrom(Named(after.sections, image.sections), image.address) == Ok(Punch(data, holes))
  {
    ImageSectionsRelaxed(obj, hs, i);
    ImageIsPunched(Named(obj.sections, obj.images[i].sections), hs, obj.images[i].address, 0);
  }

  /**
    What was aligned stays aligned exactly when the bytes lost before it, in the
    sections before and in its own, are a multiple of the alignment: nothing is
    laid out again.
   */
  lemma AlignmentSurvives(obj: Obj, hs: Holes, name: Name, o: int, alignment: nat)
    requires AllFit(obj.sections, hs) && ImagesKnown(obj.sections, obj.images) && Has(obj.sections, name)
    requires alignment > 0 && (Lookup(obj.sections, name).address + o) % alignment == 0
    ensures var after, holes := RelaxObj(obj, hs).sections, HolesOf(hs, name);
      var lost := LossOf(obj.images, hs, |obj.images|, name) + CountHoles(o, holes);
      && Has(after, name)
      && ((Lookup(after, name).address + Shift(o, holes)) % alignment == 0 <==> lost % alignment == 0)
  {
    hide ImagesKnown, AllFit, RelaxObj, LossOf, CountHoles, Punch, Has;
    SectionMoves(obj, hs, name);
    LessIsAligned(Lookup(obj.sections, name).address + o, LossOf(obj.images, hs, |obj.images|, name) + CountHoles(o, HolesOf(hs, name)), alignment);
  }

  lemma LessIsAligned(x: int, lost: nat, alignment: nat)
    requires alignment > 0 && x % alignment == 0
    ensures (x - lost) % alignment == 0 <==> lost % alignment == 0
  {
    SumRemainder(x, 0 - lost, alignment);
    if lost % alignment == 0 {
      NegatedMultiple(lost, alignment);
    }
    if (0 - lost) % alignment == 0 {
      NegatedMultiple(0 - lost, alignment);
    }
  }

  /** ----- what goes wrong ----- */

  /** Two sections, the first of which loses two bytes. */
  function TwoSections(images: seq<Image>): Obj {
    Obj([Section(0, 0, 1, [1, 2, 3, 4]), Section(1, 4, 4, [5])], [], [], images, None)
  }

  const TwoBytes: Holes := map[0 := [Hole(0, 2)]]

  lemma TwoSectionsFit(images: seq<Image>)
    ensures var ss := TwoSections(images).sections;
      && AllFit(ss, TwoBytes) && Has(ss, 0) && Has(ss, 1) && Lookup(ss, 1) == Section(1, 4, 4, [5]) && HasAll(ss, [0, 1]) && HasAll(ss, [1])
    ensures LostBefore([0, 1], TwoBytes, 1) == 2 && LossIn([0, 1], TwoBytes, 2, 1) == 2 && LossIn([1], TwoBytes, 1, 1) == 0
  {
    var ss := TwoSections(images).sections;
    assert ss[1..] == [Section(1, 4, 4, [5])];
    var none: seq<Hole> := [];
    assert [Hole(0, 2)][..0] == none && Total(none) == 0 && Total([Hole(0, 2)]) == 2;
    assert Find(ss, 1) == 1;
    assert LostBefore([0, 1], TwoBytes, 1) == Total(HolesOf(TwoBytes, 0));
    assert LossIn([0, 1], TwoBytes, 1, 1) == 0;
    assert LostBefore([1], TwoBytes, 0) == 0;
  }

  /** A section aligned to 4 bytes is at address 2 after the section before it has lost 2 bytes. */
  lemma AlignmentIsLost()
    ensures var obj := TwoSections([Image(0, 0, [0, 1])]);
      && AllFit(obj.sections, TwoBytes) && ImagesKnown(obj.sections, obj.images) && Has(obj.sections, 1)
      && Lookup(obj.sections, 1).alignment == 4 && Lookup(obj.sections, 1).address == 4
      && var after := RelaxObj(obj, TwoBytes).sections; Has(after, 1) && Lookup(after, 1).address == 2
  {
    var images := [Image(0, 0, [0, 1])];
    TwoSectionsFit(images);
    hide AllFit, RelaxObj, Has, Lookup, HasAll, LossIn;
    assert LossOf(images, TwoBytes, 1, 1) == LossOf(images, TwoBytes, 0, 1) + LossIn([0, 1], TwoBytes, 2, 1);
    SectionMoves(TwoSections(images), TwoBytes, 1);
  }

  /** A section in two images moves down with the first of them, and overlaps the start of the
      second, whose data can no longer be built. */
  lemma SharedSectionOverlaps()
    ensures var obj := TwoSections([Image(0, 0, [0, 1]), Image(1, 4, [1])]);
      && AllFit(obj.sections, TwoBytes) && ImagesKnown(obj.sections, obj.images) && !MovesAsOne(obj.images, TwoBytes, 1)
      && HasAll(obj.sections, [1]) && ImageFrom(Named(obj.sections, [1]), 4) == Ok([5])
      && var after := RelaxObj(obj, TwoBytes).sections; HasAll(after, [1]) && ImageFrom(Named(after, [1]), 4) == Failed(SectionsOverlap)
  {
    var images := [Image(0, 0, [0, 1]), Image(1, 4, [1])];
    var obj := TwoSections(images);
    hide AllFit, RelaxObj, Has, HasAll, Lookup, LossOf, LostBefore, ImageFrom, Zeros, Punch, Fit, HolesOf;
    TwoSectionsFit(images);
    SharedLoss();
    ImagesAreKnown(obj.sections);
    SectionMoves(obj, TwoBytes, 1);
    NothingBeforeFirst([1], TwoBytes);
    assert images[1].sections[0] == 1;
    ImageOfOne(obj.sections, 1, 4);
    ImageOfOne(RelaxObj(obj, TwoBytes).sections, 1, 4);
    NoGap([5]);
  }

  lemma ImagesAreKnown(ss: seq<Section>)
    requires HasAll(ss, [0, 1]) && HasAll(ss, [1])
    ensures ImagesKnown(ss, [Image(0, 0, [0, 1]), Image(1, 4, [1])])
  {
  }

  lemma NoGap(data: seq<Byte>)
    ensures Zeros(0) + data == data
  {
  }

  lemma SharedLoss()
    ensures LossOf([Image(0, 0, [0, 1]), Image(1, 4, [1])], TwoBytes, 2, 1) == 2
  {
    var images := [Image(0, 0, [0, 1]), Image(1, 4, [1])];
    TwoSectionsFit(images);
    hide LossIn, LostBefore;
    assert LossOf(images, TwoBytes, 0, 1) == 0;
    assert LossOf(images, TwoBytes, 1, 1) == LossOf(images, TwoBytes, 0, 1) + LossIn([0, 1], TwoBytes, 2, 1);
    assert LossOf(images, TwoBytes, 2, 1) == LossOf(images, TwoBytes, 1, 1) + LossIn([1], TwoBytes, 1, 1);
  }

  /** The image of a single section. */
  lemma ImageOfOne(ss: seq<Section>, name: Name, address: int)
    requires Has(ss, name)
    ensures HasAll(ss, [name])
    ensures var s := Lookup(ss, name);
      ImageFrom(Named(ss, [name]), address)
        == if s.address < address then Failed(SectionsOverlap) else Ok(Zeros(s.address - address) + s.data)
  {
    hide Has, Find;
    var s := Lookup(ss, name);
    assert Named(ss, [name]) == [s];
    assert [s][1..] == [];
    var rest: seq<Byte> := [];
    if s.address >= address {
      assert Zeros(s.address - address) + s.data + rest == Zeros(s.address - address) + s.data;
    }
  }

  lemma NothingBeforeFirst(names: seq<Name>, hs: Holes)
    ensures LostBefore(names, hs, 0) == 0
  {
  }

  /** Punching takes the holes out of the data of a section, and its name stays. */
  lemma SectionIsPunched(obj: Obj, hs: Holes, k: nat)
    requires AllFit(obj.sections, hs) && ImagesKnown(obj.sections, obj.images) && k < |obj.sections|
    ensures var after, s := RelaxObj(obj, hs), obj.sections[k];
      && |after.sections| == |obj.sections| && after.sections[k].name == s.name
      && Fit(HolesOf(hs, s.name), |s.data|) && after.sections[k].data == Punch(s.data, HolesOf(hs, s.name))
  {
    FitAt(obj.sections, hs, k);
    var punched := PunchAll(obj.sections, hs);
    KnownStays(obj.sections, punched, obj.images);
    ShiftImagesKeepData(punched, obj.images, hs, |obj.images|);
  }

  /**
    A symbol in a section refers to what it referred to exactly when it was not
    strictly inside a hole: the first surviving byte at or behind it, or the end
    of the section.
   */
  lemma SymbolFollows(obj: Obj, hs: Holes, y: nat, k: nat)
    requires AllFit(obj.sections, hs) && ImagesKnown(obj.sections, obj.images)
    requires y < |obj.symbols| && obj.symbols[y].section.Some? && obj.symbols[y].value.Some?
    requires k < |obj.sections| && obj.sections[k].name == obj.symbols[y].section.value
    requires 0 <= obj.symbols[y].value.value <= |obj.sections[k].data|
    ensures var s, o, after := obj.sections[k], obj.symbols[y].value.value, RelaxObj(obj, hs);
      var holes := HolesOf(hs, s.name);
      && after.symbols[y] == obj.symbols[y].(value := Some(Shift(o, holes)))
      && |after.sections| == |obj.sections| && after.sections[k].name == s.name
      && Fit(holes, |s.data|) && after.sections[k].data == Punch(s.data, holes)
      && (Refers(s.data, holes, o, Shift(o, holes)) <==> NotInside(o, holes))
  {
    SectionIsPunched(obj, hs, k);
    RefersWhen(obj.sections[k].data, HolesOf(hs, obj.sections[k].name), obj.symbols[y].value.value);
  }

  /** So does a relocation, which keeps its kind, its symbol and its addend. */
  lemma RelocFollows(obj: Obj, hs: Holes, y: nat, k: nat)
    requires AllFit(obj.sections, hs) && ImagesKnown(obj.sections, obj.images)
    requires y < |obj.relocations| && k < |obj.sections| && obj.sections[k].name == obj.relocations[y].section
    requires 0 <= obj.relocations[y].offset <= |obj.sections[k].data|
    ensures var s, o, after := obj.sections[k], obj.relocations[y].offset, RelaxObj(obj, hs);
      var holes := HolesOf(hs, s.name);
      && after.relocations[y] == obj.relocations[y].(offset := Shift(o, holes))
      && |after.sections| == |obj.sections| && after.sections[k].name == s.name
      && Fit(holes, |s.data|) && after.sections[k].data == Punch(s.data, holes)
      && (Refers(s.data, holes, o, Shift(o, holes)) <==> NotInside(o, holes))
  {
    SectionIsPunched(obj, hs, k);
    RefersWhen(obj.sections[k].data, HolesOf(hs, obj.sections[k].name), obj.relocations[y].offset);
  }

  lemma {:induction false} ShiftImageKeepsData(ss: seq<Section>, names: seq<Name>, hs: Holes, n: nat)
    requires HasAll(ss, names) && n <= |names|
    ensures var ts := ShiftImage(ss, names, hs, n).0; |ts| == |ss| && forall k :: 0 <= k < |ss| ==> ts[k].data == ss[k].data
  {
    if n > 0 {
      ShiftImageKeepsData(ss, names, hs, n - 1);
      ShiftImageNext(ss, names, hs, n);
    }
  }

  lemma {:induction false} ShiftImagesKeepData(ss: seq<Section>, images: seq<Image>, hs: Holes, n: nat)
    requires ImagesKnown(ss, images) && n <= |images|
    ensures var ts := ShiftImages(ss, images, hs, n); forall k :: 0 <= k < |ss| ==> ts[k].data == ss[k].data
  {
    if n > 0 {
      ShiftImagesKeepData(ss, images, hs, n - 1);
      var ts := ShiftImages(ss, images, hs, n - 1);
      assert HasAll(ss, images[n - 1].sections);
      SameNamesHas(ss, ts, images[n - 1].sections);
      ShiftImageKeepsData(ts, images[n - 1].sections, hs, |images[n - 1].sections|);
    }
  }

  /** Relaxation leaves the images, the entry and all but the offsets as they are. */
  lemma RelaxationKeeps(obj: Obj, hs: Holes)
    requires AllFit(obj.sections, hs) && ImagesKnown(obj.sections, obj.images)
    ensures var after := RelaxObj(obj, hs);
      && after.images == obj.images && after.entry == obj.entry
      && |after.symbols| == |obj.symbols| && |after.relocations| == |obj.relocations| && |after.sections| == |obj.sections|
      && (forall k :: 0 <= k < |obj.symbols| ==> after.symbols[k] == obj.symbols[k].(value := after.symbols[k].value))
      && (forall k :: 0 <= k < |obj.symbols| && obj.symbols[k].section.None? ==> after.symbols[k] == obj.symbols[k])
      && (forall k :: 0 <= k < |obj.relocations| ==> after.relocations[k] == obj.relocations[k].(offset := after.relocations[k].offset))
      && (forall k :: 0 <= k < |obj.sections| ==>
            after.sections[k].name == obj.sections[k].name && after.sections[k].alignment == obj.sections[k].alignment)
  {
    var punched := PunchAll(obj.sections, hs);
    KnownStays(obj.sections, punched, obj.images);
    ShiftImagesKeepAlignment(punched, obj.images, hs, |obj.images|);
    forall k | 0 <= k < |obj.sections|
      ensures punched[k].alignment == obj.sections[k].alignment
    {
      FitAt(obj.sections, hs, k);
    }
  }

  lemma {:induction false} ShiftImageKeepsAlignment(ss: seq<Section>, names: seq<Name>, hs: Holes, n: nat)
    requires HasAll(ss, names) && n <= |names|
    ensures var ts := ShiftImage(ss, names, hs, n).0; |ts| == |ss| && forall k :: 0 <= k < |ss| ==> ts[k].alignment == ss[k].alignment
  {
    if n > 0 {
      ShiftImageKeepsAlignment(ss, names, hs, n - 1);
      ShiftImageNext(ss, names, hs, n);
    }
  }

  lemma {:induction false} ShiftImagesKeepAlignment(ss: seq<Section>, images: seq<Image>, hs: Holes, n: nat)
    requires ImagesKnown(ss, images) && n <= |images|
    ensures var ts := ShiftImages(ss, images, hs, n); forall k :: 0 <= k < |ss| ==> ts[k].alignment == ss[k].alignment
  {
    if n > 0 {
      ShiftImagesKeepAlignment(ss, images, hs, n - 1);
      var ts := ShiftImages(ss, images, hs, n - 1);
      assert HasAll(ss, images[n - 1].sections);
      SameNamesHas(ss, ts, images[n - 1].sections);
      ShiftImageKeepsAlignment(ts, images[n - 1].sections, hs, |images[n - 1].sections|);
    }
  }
}
