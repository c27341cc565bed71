/**
  Punching holes: after instructions have been made shorter, the bytes that are
  not needed any more are taken out, and everything that points into a section
  is moved along.
 */
module Relaxation {
  import opened Basics
  import opened Objects

  datatype Hole = Hole(offset: nat, size: nat) {
    function End(): nat { offset + size }
  }

  function Total(holes: seq<Hole>): nat {
    if holes == [] then 0 else Total(holes[..|holes| - 1]) + holes[|holes| - 1].size
  }

  /** Holes in order, without overlap, in the first `n` bytes. */
  predicate Fit(holes: seq<Hole>, n: int) {
    if holes == [] then n >= 0
    else holes[|holes| - 1].End() <= n && Fit(holes[..|holes| - 1], holes[|holes| - 1].offset)
  }

  /** `count_holes`: the sizes of the holes before an offset; it stops at the first other one. */
  function CountHoles(offset: int, holes: seq<Hole>): nat {
    if holes == [] then 0
    else if holes[0].offset < offset then holes[0].size + CountHoles(offset, holes[1..])
    else 0
  }

  function Shift(offset: int, holes: seq<Hole>): int {
    offset - CountHoles(offset, holes)
  }

  /** The bytes without the holes; later holes are taken out first. */
  function Punch(data: seq<Byte>, holes: seq<Hole>): seq<Byte>
    requires Fit(holes, |data|)
    decreases |holes|
  {
    if holes == [] then data else
      var h := holes[|holes| - 1];
      FitSmaller(holes[..|holes| - 1], h.offset, |data| - h.size);
      Punch(data[..h.offset] + data[h.End()..], holes[..|holes| - 1])
  }

  lemma {:induction false} FitSmaller(holes: seq<Hole>, n: int, m: int)
    requires Fit(holes, n) && n <= m
    ensures Fit(holes, m) && n >= 0
    decreases |holes|
  {
    if holes != [] {
      FitSmaller(holes[..|holes| - 1], holes[|holes| - 1].offset, holes[|holes| - 1].offset);
    }
  }

  lemma {:induction false} PunchLength(data: seq<Byte>, holes: seq<Hole>)
    requires Fit(holes, |data|)
    ensures Total(holes) <= |data| && |Punch(data, holes)| == |data| - Total(holes)
    decreases |holes|
  {
    if holes != [] {
      var h := holes[|holes| - 1];
      FitSmaller(holes[..|holes| - 1], h.offset, |data| - h.size);
      PunchLength(data[..h.offset] + data[h.End()..], holes[..|holes| - 1]);
    }
  }

  /** ----- where a byte goes ----- */

  /** No hole takes the byte away. */
  predicate Kept(o: int, holes: seq<Hole>) {
    forall k :: 0 <= k < |holes| ==> !(holes[k].offset <= o < holes[k].End())
  }

  lemma {:induction false} CountLast(o: int, holes: seq<Hole>, n: int)
    requires holes != [] && Fit(holes, n)
    ensures var last := holes[|holes| - 1];
      CountHoles(o, holes) == CountHoles(o, holes[..|holes| - 1])
        + (if last.offset < o && CountHoles(o, holes[..|holes| - 1]) == Total(holes[..|holes| - 1]) then last.size else 0)
    ensures holes[|holes| - 1].offset < o ==> CountHoles(o, holes[..|holes| - 1]) == Total(holes[..|holes| - 1])
    decreases |holes|
  {
    var m := |holes| - 1;
    if m > 0 {
      FrontFits(holes, n);
      CountLast(o, holes[1..], n);
      assert holes[1..][|holes[1..]| - 1] == holes[m];
      assert holes[1..][..m - 1] == holes[..m][1..];
      TotalFront(holes[..m]);
      if holes[0].offset >= o {
        OffsetsRise(holes, n, m);
      }
    }
  }

  lemma {:induction false} FrontFits(holes: seq<Hole>, n: int)
    requires |holes| > 1 && Fit(holes, n)
    ensures Fit(holes[1..], n)
    decreases |holes|
  {
    var m := |holes| - 1;
    assert holes[1..][..m - 1] == holes[..m][1..];
    if m > 1 {
      FrontFits(holes[..m], holes[m].offset);
    } else {
      assert holes[1..][..0] == [];
    }
  }

  lemma {:induction false} TotalFront(holes: seq<Hole>)
    requires holes != []
    ensures Total(holes) == holes[0].size + Total(holes[1..])
    decreases |holes|
  {
    var m := |holes| - 1;
    if m > 0 {
      TotalFront(holes[..m]);
      assert holes[..m][1..] == holes[1..][..m - 1];
    } else {
      assert holes[..0] == [] && holes[1..] == [];
    }
  }

  lemma {:induction false} OffsetsRise(holes: seq<Hole>, n: int, k: nat)
    requires Fit(holes, n) && k < |holes|
    ensures forall j :: 0 <= j < k ==> holes[j].End() <= holes[k].offset
    ensures holes[k].End() <= n
    decreases |holes|
  {
    var m := |holes| - 1;
    if k < m {
      OffsetsRise(holes[..m], holes[m].offset, k);
    } else {
      forall j | 0 <= j < m
        ensures holes[j].End() <= holes[m].offset
      {
        OffsetsRise(holes[..m], holes[m].offset, j);
      }
    }
  }

  /** Behind all holes, all of them count. */
  lemma {:induction false} CountAll(o: int, holes: seq<Hole>, n: int)
    requires Fit(holes, n) && n <= o
    ensures CountHoles(o, holes) == Total(holes)
    decreases |holes|
  {
    if holes != [] {
      var m := |holes| - 1;
      CountAll(o, holes[..m], holes[m].offset);
      CountLast(o, holes, n);
    }
  }

  lemma KeptFewer(o: int, holes: seq<Hole>)
    requires holes != [] && Kept(o, holes)
    ensures Kept(o, holes[..|holes| - 1])
  {
    var init := holes[..|holes| - 1];
    forall k | 0 <= k < |init|
      ensures !(init[k].offset <= o < init[k].End())
    {
      assert holes[k] == init[k];
    }
  }

  /** Every byte that survives moves down by the holes before it. */
  lemma {:induction false} ByteMoves(data: seq<Byte>, holes: seq<Hole>, o: nat)
    requires Fit(holes, |data|) && o < |data| && Kept(o, holes)
    ensures 0 <= Shift(o, holes) < |Punch(data, holes)| && Punch(data, holes)[Shift(o, holes)] == data[o]
    decreases |holes|
  {
    if holes != [] {
      var m := |holes| - 1;
      var h, init := holes[m], holes[..m];
      var cut := data[..h.offset] + data[h.End()..];
      FitSmaller(init, h.offset, |cut|);
      CountLast(o, holes, |data|);
      KeptFewer(o, holes);
      if o < h.offset {
        ByteMoves(cut, init, o);
      } else {
        var o' := o - h.size;
        CountAll(o', init, h.offset);
        CountAll(o, init, h.offset);
        KeptBehind(o', init, h.offset);
        ByteMoves(cut, init, o');
      }
    }
  }

  lemma KeptBehind(o: int, holes: seq<Hole>, n: int)
    requires Fit(holes, n) && n <= o
    ensures Kept(o, holes)
  {
    forall k | 0 <= k < |holes|
      ensures !(holes[k].offset <= o < holes[k].End())
    {
      OffsetsRise(holes, n, k);
    }
  }

  /** Nothing else is left: every byte of the result is one that survives. */
  lemma {:induction false} ByteComesFrom(data: seq<Byte>, holes: seq<Hole>, j: nat) returns (o: nat)
    requires Fit(holes, |data|) && j < |Punch(data, holes)|
    ensures o < |data| && Kept(o, holes) && Shift(o, holes) == j
    decreases |holes|
  {
    if holes == [] {
      o := j;
    } else {
      var m := |holes| - 1;
      var h, init := holes[m], holes[..m];
      var cut := data[..h.offset] + data[h.End()..];
      FitSmaller(init, h.offset, |cut|);
      var c := ByteComesFrom(cut, init, j);
      o := if c < h.offset then c else c + h.size;
      CountLast(o, holes, |data|);
      if c >= h.offset {
        CountAll(c, init, h.offset);
        CountAll(o, init, h.offset);
        KeptBehind(o, init, h.offset);
      }
      forall k | 0 <= k < |holes|
        ensures !(holes[k].offset <= o < holes[k].End())
      {
        assert k < m ==> init[k] == holes[k];
      }
    }
  }

  /** The bytes keep their order. */
  lemma {:induction false} OrderIsKept(holes: seq<Hole>, n: int, a: int, b: int)
    requires Fit(holes, n) && a < b && Kept(a, holes) && Kept(b, holes)
    ensures Shift(a, holes) < Shift(b, holes)
    decreases |holes|
  {
    if holes != [] {
      var m := |holes| - 1;
      var h, init := holes[m], holes[..m];
      CountLast(a, holes, n);
      CountLast(b, holes, n);
      KeptFewer(a, holes);
      KeptFewer(b, holes);
      OrderIsKept(init, h.offset, a, b);
      if a < h.offset <= b {
        CountAll(b, init, h.offset);
        OrderAt(init, h.offset, a);
      }
    }
  }

  /** A byte before all of what follows goes before it. */
  lemma {:induction false} OrderAt(holes: seq<Hole>, n: int, a: int)
    requires Fit(holes, n) && a < n && Kept(a, holes)
    ensures Shift(a, holes) < n - Total(holes)
    decreases |holes|
  {
    if holes != [] {
      var m := |holes| - 1;
      var h, init := holes[m], holes[..m];
      CountLast(a, holes, n);
      KeptFewer(a, holes);
      if a < h.offset {
        OrderAt(init, h.offset, a);
      } else {
        CountAll(a, init, h.offset);
      }
    } else {
      assert CountHoles(a, holes) == 0;
    }
  }

  /** An offset at the start of a hole goes where the byte behind the hole goes. */
  lemma {:induction false} HoleStart(holes: seq<Hole>, n: int, k: nat)
    requires Fit(holes, n) && k < |holes|
    ensures Shift(holes[k].offset, holes) == Shift(holes[k].End(), holes)
    decreases |holes|
  {
    var m := |holes| - 1;
    var init := holes[..m];
    CountLast(holes[k].offset, holes, n);
    CountLast(holes[k].End(), holes, n);
    if k < m {
      HoleStart(init, holes[m].offset, k);
      OffsetsRise(holes, n, m);
    } else {
      CountAll(holes[m].offset, init, holes[m].offset);
      CountAll(holes[m].End(), init, holes[m].offset);
    }
  }

  /** An offset strictly inside a hole ends up before the byte behind the hole. */
  lemma {:induction false} InsideHole(holes: seq<Hole>, n: int, k: nat, o: int)
    requires Fit(holes, n) && k < |holes| && holes[k].offset < o < holes[k].End()
    ensures Shift(o, holes) < Shift(holes[k].End(), holes)
    decreases |holes|
  {
    var m := |holes| - 1;
    var init := holes[..m];
    CountLast(o, holes, n);
    CountLast(holes[k].End(), holes, n);
    if k < m {
      InsideHole(init, holes[m].offset, k, o);
      OffsetsRise(holes, n, m);
    } else {
      CountAll(o, init, holes[m].offset);
      CountAll(holes[m].End(), init, holes[m].offset);
    }
  }

  /** ----- what an offset refers to ----- */

  predicate NotInside(o: int, holes: seq<Hole>) {
    forall k :: 0 <= k < |holes| ==> !(holes[k].offset < o < holes[k].End())
  }

  /** The first byte at or behind an offset that survives, or the end. */
  function NextKept(o: int, holes: seq<Hole>, n: int): (b: int)
    ensures b >= o && (b < n ==> Kept(b, holes)) && (o <= n ==> b <= n)
    decreases n - o
  {
    if o >= n || Kept(o, holes) then o else NextKept(o + 1, holes, n)
  }

  lemma {:induction false} SkipHole(o: int, end: int, holes: seq<Hole>, n: int)
    requires o <= end <= n && forall x :: o <= x < end ==> !Kept(x, holes)
    ensures NextKept(o, holes, n) == NextKept(end, holes, n)
    decreases end - o
  {
    if o < end {
      SkipHole(o + 1, end, holes, n);
    }
  }

  /** Holes do not overlap: the end of one is not inside another. */
  lemma {:induction false} EndsAreOutside(holes: seq<Hole>, n: int, k: nat)
    requires Fit(holes, n) && k < |holes|
    ensures NotInside(holes[k].End(), holes) && holes[k].End() <= n
    decreases |holes|
  {
    var m := |holes| - 1;
    if k < m {
      EndsAreOutside(holes[..m], holes[m].offset, k);
    } else {
      KeptBehindAll(holes[..m], holes[m].offset);
    }
  }

  lemma {:induction false} KeptBehindAll(holes: seq<Hole>, n: int)
    requires Fit(holes, n)
    ensures forall k :: 0 <= k < |holes| ==> holes[k].End() <= n
    decreases |holes|
  {
    if holes != [] {
      KeptBehindAll(holes[..|holes| - 1], holes[|holes| - 1].offset);
    }
  }

  /**
    An offset moves with the first surviving byte at or behind it, or with the
    end, exactly when it is not strictly inside a hole.
   */
  lemma {:induction false} FollowsNextKept(holes: seq<Hole>, n: int, o: int)
    requires Fit(holes, n) && o <= n
    ensures Shift(o, holes) == Shift(NextKept(o, holes, n), holes) <==> NotInside(o, holes)
    ensures Shift(o, holes) <= Shift(NextKept(o, holes, n), holes)
    decreases n - o
  {
    if o < n && !Kept(o, holes) {
      var k :| 0 <= k < |holes| && holes[k].offset <= o < holes[k].End();
      var end := holes[k].End();
      EndsAreOutside(holes, n, k);
      SkipHole(o, end, holes, n);
      FollowsNextKept(holes, n, end);
      if holes[k].offset == o {
        HoleStart(holes, n, k);
        StartsAreOutside(holes, n, k);
      } else {
        InsideHole(holes, n, k, o);
      }
    } else if o == n {
      KeptBehindAll(holes, n);
    }
  }

  lemma {:induction false} StartsAreOutside(holes: seq<Hole>, n: int, k: nat)
    requires Fit(holes, n) && k < |holes|
    ensures NotInside(holes[k].offset, holes)
    decreases |holes|
  {
    var m := |holes| - 1;
    KeptBehindAll(holes[..m], holes[m].offset);
    if k < m {
      StartsAreOutside(holes[..m], holes[m].offset, k);
    }
  }

  /** After punching, an offset refers to the byte that another one refers to before, or both to the end. */
  predicate Refers(data: seq<Byte>, holes: seq<Hole>, o: int, p: int)
    requires Fit(holes, |data|) && 0 <= o <= |data|
  {
    var b, punched := NextKept(o, holes, |data|), Punch(data, holes);
    if b < |data| then 0 <= p < |punched| && p == Shift(b, holes) && punched[p] == data[b]
    else p == |punched|
  }

  lemma RefersWhen(data: seq<Byte>, holes: seq<Hole>, o: int)
    requires Fit(holes, |data|) && 0 <= o <= |data|
    ensures Refers(data, holes, o, Shift(o, holes)) <==> NotInside(o, holes)
  {
    FollowsNextKept(holes, |data|, o);
    var b := NextKept(o, holes, |data|);
    if b < |data| {
      ByteMoves(data, holes, b);
    } else {
      PunchLength(data, holes);
      CountAll(b, holes, |data|);
    }
  }

  /** ----- punching one sequence of bytes in pieces ----- */

  function Moved(holes: seq<Hole>, d: nat): (r: seq<Hole>)
    ensures |r| == |holes|
    ensures forall k :: 0 <= k < |holes| ==> r[k] == Hole(holes[k].offset + d, holes[k].size)
  {
    seq(|holes|, k requires 0 <= k < |holes| => Hole(holes[k].offset + d, holes[k].size))
  }

  lemma MovedFront(holes: seq<Hole>, d: nat)
    requires holes != []
    ensures Moved(holes, d)[..|holes| - 1] == Moved(holes[..|holes| - 1], d)
  {
  }

  lemma CutBehind(a: seq<Byte>, b: seq<Byte>, x: nat, y: nat)
    requires x <= y <= |b|
    ensures (a + b)[..|a| + x] + (a + b)[|a| + y..] == a + (b[..x] + b[y..])
  {
    assert (a + b)[..|a| + x] == a + b[..x] && (a + b)[|a| + y..] == b[y..];
  }

  lemma {:induction false} PunchBehind(a: seq<Byte>, b: seq<Byte>, holes: seq<Hole>)
    requires Fit(holes, |b|)
    ensures Fit(Moved(holes, |a|), |a + b|) && Punch(a + b, Moved(holes, |a|)) == a + Punch(b, holes)
    decreases |holes|
  {
    MovedFits(holes, |b|, |a|);
    if holes != [] {
      var m := |holes| - 1;
      var h, init := holes[m], holes[..m];
      var cut := b[..h.offset] + b[h.End()..];
      FitSmaller(init, h.offset, |cut|);
      MovedFront(holes, |a|);
      PunchBehind(a, cut, init);
      CutBehind(a, b, h.offset, h.End());
    }
  }

  lemma {:induction false} MovedFits(holes: seq<Hole>, n: int, d: nat)
    requires Fit(holes, n)
    ensures Fit(Moved(holes, d), n + d)
    decreases |holes|
  {
    if holes != [] {
      MovedFront(holes, d);
      MovedFits(holes[..|holes| - 1], holes[|holes| - 1].offset, d);
    }
  }

  lemma {:induction false} PunchBefore(a: seq<Byte>, b: seq<Byte>, holes: seq<Hole>)
    requires Fit(holes, |a|)
    ensures Fit(holes, |a + b|) && Punch(a + b, holes) == Punch(a, holes) + b
    decreases |holes|
  {
    FitSmaller(holes, |a|, |a + b|);
    if holes != [] {
      var m := |holes| - 1;
      var h, init := holes[m], holes[..m];
      var cut := a[..h.offset] + a[h.End()..];
      FitSmaller(init, h.offset, |cut|);
      FitSmaller(init, h.offset, |cut + b|);
      PunchBefore(cut, b, init);
      var all := a + b;
      assert all[..h.offset] + all[h.End()..] == cut + b;
    }
  }

  /** Two groups of holes, one behind the other. */
  lemma {:induction false} PunchBoth(data: seq<Byte>, first: seq<Hole>, second: seq<Hole>, n: nat)
    requires Fit(first, n) && n <= |data| && Fit(second, |data|) && (second != [] ==> n <= second[0].offset)
    ensures Fit(first, |Punch(data, second)|) && Fit(first + second, |data|)
    ensures Punch(data, first + second) == Punch(Punch(data, second), first)
    decreases |second|
  {
    FitSmaller(first, n, |data|);
    if second == [] {
      assert first + second == first;
    } else {
      var m := |second| - 1;
      var h, init := second[m], second[..m];
      assert (first + second)[..|first + second| - 1] == first + init;
      OffsetsRise(second, |data|, m);
      if m > 0 {
        assert second[0].offset <= second[0].End() <= h.offset;
      }
      var cut := data[..h.offset] + data[h.End()..];
      FitSmaller(init, h.offset, |cut|);
      PunchBoth(cut, first, init, n);
      BothFit(first, init, n, h.offset);
    }
  }

  lemma {:induction false} BothFit(first: seq<Hole>, second: seq<Hole>, n: nat, end: int)
    requires Fit(first, n) && n <= end && Fit(second, end) && (second != [] ==> n <= second[0].offset)
    ensures Fit(first + second, end)
    decreases |second|
  {
    if second == [] {
      assert first + second == first;
      FitSmaller(first, n, end);
    } else {
      var m := |second| - 1;
      assert (first + second)[..|first + second| - 1] == first + second[..m];
      OffsetsRise(second, end, m);
      BothFit(first, second[..m], n, second[m].offset);
    }
  }

  /** ----- an object ----- */

  type Holes = map<Name, seq<Hole>>

  function HolesOf(hs: Holes, name: Name): seq<Hole> {
    if name in hs then hs[name] else []
  }

  /** The holes are in their sections. */
  predicate AllFit(ss: seq<Section>, hs: Holes) {
    forall k :: 0 <= k < |ss| ==> Fit(HolesOf(hs, ss[k].name), |ss[k].data|)
  }

  function ShiftSymbol(y: Symbol, hs: Holes): Symbol {
    if y.section.None? || y.value.None? then y
    else y.(value := Some(Shift(y.value.value, HolesOf(hs, y.section.value))))
  }

  function ShiftReloc(r: Reloc, hs: Holes): Reloc {
    r.(offset := Shift(r.offset, HolesOf(hs, r.section)))
  }

  function PunchSection(s: Section, hs: Holes): Section
    requires Fit(HolesOf(hs, s.name), |s.data|)
  {
    s.(data := Punch(s.data, HolesOf(hs, s.name)))
  }

  /** The first `n` sections of an image move down by the holes of those before them. */
  function ShiftImage(ss: seq<Section>, names: seq<Name>, hs: Holes, n: nat): (r: (seq<Section>, nat))
    requires HasAll(ss, names) && n <= |names|
    ensures |r.0| == |ss| && forall k :: 0 <= k < |ss| ==> r.0[k].name == ss[k].name
  {
    if n == 0 then (ss, 0) else
      var (ts, delta) := ShiftImage(ss, names, hs, n - 1);
      SameNamesFind(ss, ts, names[n - 1]);
      var k := Find(ts, names[n - 1]);
      (ts[k := ts[k].(address := ts[k].address - delta)], delta + Total(HolesOf(hs, names[n - 1])))
  }

  lemma SameNamesFind(ss: seq<Section>, ts: seq<Section>, name: Name)
    requires |ts| == |ss| && forall k :: 0 <= k < |ss| ==> ts[k].name == ss[k].name
    ensures Find(ts, name) == Find(ss, name)
  {
    var j, k := Find(ss, name), Find(ts, name);
    if j < |ss| {
      assert ts[j].name == name;
    }
    if k < |ts| {
      assert ss[k].name == name;
    }
  }

  /** The sections of an image after relaxation: punched, and moved by what was taken out before them. */
  function Relaxed(ss: seq<Section>, hs: Holes, delta: nat): seq<Section>
    requires AllFit(ss, hs)
  {
    if ss == [] then [] else
      assert Fit(HolesOf(hs, ss[0].name), |ss[0].data|);
      assert AllFit(ss[1..], hs) by { FitRest(ss, hs); }
      [PunchSection(ss[0], hs).(address := ss[0].address - delta)]
        + Relaxed(ss[1..], hs, delta + Total(HolesOf(hs, ss[0].name)))
  }

  lemma FitRest(ss: seq<Section>, hs: Holes)
    requires AllFit(ss, hs) && ss != []
    ensures AllFit(ss[1..], hs) && Fit(HolesOf(hs, ss[0].name), |ss[0].data|)
  {
    forall k | 0 <= k < |ss[1..]|
      ensures Fit(HolesOf(hs, ss[1..][k].name), |ss[1..][k].data|)
    {
      assert ss[1..][k] == ss[k + 1];
    }
  }

  /** The holes of the sections, where they are in the image. */
  function ImageHoles(ss: seq<Section>, hs: Holes, address: int): seq<Hole>
    requires InOrder(ss, address)
  {
    if ss == [] then [] else
      Moved(HolesOf(hs, ss[0].name), ss[0].address - address) + Moved(ImageHoles(ss[1..], hs, ss[0].End()), ss[0].End() - address)
  }

  /** One section with its gap, and the rest of the image. */
  lemma PunchParts(z: seq<Byte>, d: seq<Byte>, rest: seq<Byte>, hd: seq<Hole>, hr: seq<Hole>)
    requires Fit(hd, |d|) && Fit(hr, |rest|)
    ensures var all := Moved(hd, |z|) + Moved(hr, |z + d|);
      Fit(all, |z + d + rest|) && Punch(z + d + rest, all) == z + Punch(d, hd) + Punch(rest, hr)
  {
    hide Punch, Fit, Moved;
    var punched := Punch(rest, hr);
    PunchBehind(z + d, rest, hr);
    MovedFits(hd, |d|, |z|);
    PunchBoth(z + d + rest, Moved(hd, |z|), Moved(hr, |z + d|), |z + d|);
    PunchBefore(d, punched, hd);
    PunchBehind(z, d + punched, hd);
    assert z + d + punched == z + (d + punched);
    assert z + Punch(d, hd) + punched == z + (Punch(d, hd) + punched);
  }

  lemma ImageHead(ss: seq<Section>, address: int, rest: seq<Byte>)
    requires ss != [] && address <= ss[0].address && ImageFrom(ss[1..], ss[0].End()) == Ok(rest)
    ensures ImageFrom(ss, address) == Ok(Zeros(ss[0].address - address) + ss[0].data + rest)
  {
  }

  lemma FirstInOrder(ss: seq<Section>, address: int)
    requires InOrder(ss, address) && ss != []
    ensures address <= ss[0].address
  {
  }

  lemma RelaxedHead(ss: seq<Section>, hs: Holes, delta: nat)
    requires AllFit(ss, hs) && ss != []
    ensures Fit(HolesOf(hs, ss[0].name), |ss[0].data|) && AllFit(ss[1..], hs)
    ensures var more, hd := Relaxed(ss, hs, delta), HolesOf(hs, ss[0].name);
      && more != [] && more[0].data == Punch(ss[0].data, hd) && more[0].address == ss[0].address - delta
      && more[0].End() == ss[0].End() - (delta + Total(hd))
      && more[1..] == Relaxed(ss[1..], hs, delta + Total(hd))
  {
    FitRest(ss, hs);
    PunchLength(ss[0].data, HolesOf(hs, ss[0].name));
  }

  /** After relaxation the image is the old one with exactly the holes taken out: gaps between
      sections stay as they are. */
  lemma {:induction false} ImageIsPunched(ss: seq<Section>, hs: Holes, address: int, delta: nat)
    requires InOrder(ss, address) && AllFit(ss, hs)
    ensures ImageFrom(ss, address).Ok? && Fit(ImageHoles(ss, hs, address), |ImageFrom(ss, address).value|)
    ensures ImageFrom(Relaxed(ss, hs, delta), address - delta)
      == Ok(Punch(ImageFrom(ss, address).value, ImageHoles(ss, hs, address)))
    decreases |ss|
  {
    hide Punch, Fit, AllFit, Relaxed, Moved, ImageFrom, ImageHoles, EndOf, Total;
    if ss == [] {
      NothingPunched(hs, address, delta);
    } else {
      RelaxedHead(ss, hs, delta);
      ImageIsPunched(ss[1..], hs, ss[0].End(), delta + Total(HolesOf(hs, ss[0].name)));
      PunchedStep(ss, hs, address, delta);
    }
  }

  lemma NothingPunched(hs: Holes, address: int, delta: nat)
    ensures AllFit([], hs) && ImageFrom([], address) == Ok([]) && ImageHoles([], hs, address) == [] && Fit([], 0)
    ensures Relaxed([], hs, delta) == [] && ImageFrom([], address - delta) == Ok([]) && Punch([], []) == []
  {
  }

  /** One more section in front of an image. */
  lemma PunchedStep(ss: seq<Section>, hs: Holes, address: int, delta: nat)
    requires InOrder(ss, address) && AllFit(ss, hs) && ss != [] && AllFit(ss[1..], hs) && InOrder(ss[1..], ss[0].End())
    requires var rest := ImageFrom(ss[1..], ss[0].End()); rest.Ok? && Fit(ImageHoles(ss[1..], hs, ss[0].End()), |rest.value|)
    requires ImageFrom(Relaxed(ss[1..], hs, delta + Total(HolesOf(hs, ss[0].name))), ss[0].End() - (delta + Total(HolesOf(hs, ss[0].name))))
      == Ok(Punch(ImageFrom(ss[1..], ss[0].End()).value, ImageHoles(ss[1..], hs, ss[0].End())))
    ensures ImageFrom(ss, address).Ok? && Fit(ImageHoles(ss, hs, address), |ImageFrom(ss, address).value|)
    ensures ImageFrom(Relaxed(ss, hs, delta), address - delta)
      == Ok(Punch(ImageFrom(ss, address).value, ImageHoles(ss, hs, address)))
  {
    hide Punch, Fit, AllFit, Relaxed, Moved, ImageFrom, ImageHoles, EndOf, InOrder, Total, HolesOf;
    FirstInOrder(ss, address);
    RelaxedHead(ss, hs, delta);
    var s, hd, more := ss[0], HolesOf(hs, ss[0].name), Relaxed(ss, hs, delta);
    var z, rest, hr := Zeros(s.address - address), ImageFrom(ss[1..], s.End()).value, ImageHoles(ss[1..], hs, s.End());
    PunchParts(z, s.data, rest, hd, hr);
    assert |z + s.data| == s.End() - address;
    ImageHead(ss, address, rest);
    HolesHead(ss, hs, address);
    assert ImageFrom(more[1..], more[0].End()) == Ok(Punch(rest, hr));
    ImageHead(more, address - delta, Punch(rest, hr));
  }

  lemma HolesHead(ss: seq<Section>, hs: Holes, address: int)
    requires ss != [] && InOrder(ss, address)
    ensures ImageHoles(ss, hs, address) ==
      Moved(HolesOf(hs, ss[0].name), ss[0].address - address) + Moved(ImageHoles(ss[1..], hs, ss[0].End()), ss[0].End() - address)
  {
  }
}
