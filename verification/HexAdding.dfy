/**
  What adding a region to a hex file comes to: which regions are joined, when
  regions overlap, and when bytes get lost.
 */
module HexAdding {
  import opened Basics
  import opened HexLines
  import opened HexRegions

  /** A new region, with those before and those behind it. */
  ghost predicate Around(a: seq<Region>, r: Region, b: seq<Region>) {
    && Ordered(a + b) && Ordered(a) && Ordered(b)
    && (a != [] ==> a[|a| - 1].address <= r.address)
    && (b != [] ==> r.address < b[0].address)
  }

  predicate TouchesLeft(a: seq<Region>, r: Region) {
    a != [] && End(a[|a| - 1]) == r.address
  }

  predicate TouchesRight(r: Region, b: seq<Region>) {
    b != [] && End(r) == b[0].address
  }

  predicate Overlaps(a: seq<Region>, r: Region, b: seq<Region>) {
    (a != [] && End(a[|a| - 1]) > r.address) || (b != [] && End(r) > b[0].address)
  }

  function Both(x: Region, y: Region): Region {
    Region(x.address, x.data + y.data)
  }

  /** An empty region right before the new one is replaced by it. */
  function Trimmed(a: seq<Region>, r: Region): seq<Region> {
    if a != [] && a[|a| - 1] == Region(r.address, []) then a[..|a| - 1] else a
  }

  /** The region joins the one before it, or is joined by the one behind it; that one is gone in either case. */
  function Joint(a: seq<Region>, r: Region, b: seq<Region>): seq<Region> {
    (if TouchesLeft(a, r) then a[..|a| - 1] + [Both(a[|a| - 1], r)]
     else if TouchesRight(r, b) then a + [Both(r, b[0])]
     else a + [r])
    + (if TouchesRight(r, b) then b[1..] else b)
  }

  /** The first pass, up to the new region. */
  lemma ToNew(a: seq<Region>, r: Region, b: seq<Region>)
    requires Around(a, r, b) && a != []
    ensures var p := FirstPass(a + [r] + b); var n := |a|;
      PassOk(p, n - 1) && PassFrom(p, 0) == PassFrom(p, n - 1)
  {
    var p, n := FirstPass(a + [r] + b), |a|;
    forall k {:trigger p.copy[k]} | 0 <= k < n - 1
      ensures Apart(p.copy[k], p.copy[k + 1])
    {
      assert p.copy[k] == a[k] && p.copy[k + 1] == a[k + 1];
    }
    Quiet(p, 0, n - 1);
  }

  /** The rest of a pass, from the first region behind the new one that is left as it is. */
  lemma BehindNew(p: Pass, i: nat, b: seq<Region>)
    requires PassOk(p, i) && Ordered(b) && i <= |p.copy| && p.copy[i..] == b
    ensures PassFrom(p, i) == p
  {
    forall k {:trigger p.copy[k]} | i <= k && k + 1 < |p.copy|
      ensures Apart(p.copy[k], p.copy[k + 1])
    {
      assert p.copy[k] == b[k - i] && p.copy[k + 1] == b[k - i + 1];
    }
    Quiet(p, i, |p.copy|);
  }

  /** From the new region on: it is as it was, and the ones behind it are untouched. */
  lemma FromNew(p: Pass, a: seq<Region>, r: Region, b: seq<Region>)
    requires Around(a, r, b) && |p.copy| == |a| + 1 + |b| && PassOk(p, |a|)
    requires p.copy[|a|..] == [r] + b && !p.overlap
    requires forall k {:trigger p.copy[k]} :: 0 <= k < |a| ==> p.copy[k].address == a[k].address
    ensures
      var q, n := PassFrom(p, |a|), |a|;
      && (q.overlap <==> b != [] && End(r) > b[0].address)
      && (!q.overlap && !TouchesRight(r, b) ==> q == p)
      && (TouchesRight(r, b) ==> q == Pass(p.copy[n := Both(r, b[0])], p.listed[n + 1 := false], true, false))
  {
    var n := |a|;
    assert p.copy[n] == r;
    if b == [] {
      assert PassFrom(p, n) == p;
    } else {
      assert p.copy[n + 1] == b[0] && p.copy[n + 1..] == b;
      if TouchesRight(r, b) {
        AddressesBefore(a, r, b);
        JoinedAt(p, n);
        var q := Joined(p, n);
        assert q.copy[n + 1..] == b;
        BehindNew(q, n + 1, b);
      } else if End(r) < b[0].address {
        BehindNew(p, n + 1, b);
      }
    }
  }

  lemma AddressesBefore(a: seq<Region>, r: Region, b: seq<Region>)
    requires Around(a, r, b)
    ensures forall k {:trigger a[k]} :: 0 <= k < |a| ==> a[k].address <= r.address && (b != [] ==> a[k].address < b[0].address)
    ensures forall k {:trigger a[k]} :: 0 <= k < |a| - 1 ==> a[k].address < r.address
    ensures TouchesLeft(a, r) && a[|a| - 1].data != [] ==> a[|a| - 1].address < r.address
  {
    forall k {:trigger a[k]} | 0 <= k < |a| - 1
      ensures a[k].address < r.address
    {
      OrderedAddresses(a, k, |a| - 1);
    }
  }

  /** The first pass as a whole. */
  lemma WholePass(a: seq<Region>, r: Region, b: seq<Region>)
    requires Around(a, r, b)
    ensures
      var q := PassFrom(FirstPass(a + [r] + b), 0);
      && (q.overlap <==> Overlaps(a, r, b))
      && (!q.overlap ==>
            Listed(q.copy, q.listed) == Joint(Trimmed(a, r), r, b) && (q.changed <==> TouchesLeft(a, r) || TouchesRight(r, b)))
  {
    hide Ordered, Listed, Joint;
    var s := a + [r] + b;
    var p, n := FirstPass(s), |a|;
    assert s[n..] == [r] + b && s[n] == r;
    if a != [] {
      ToNew(a, r, b);
      assert s[n - 1] == a[n - 1];
    }
    if TouchesLeft(a, r) && a[n - 1].data == [] {
      assert a[n - 1] == Region(r.address, []);
      EmptyPass(p, a, r, b);
    } else if TouchesLeft(a, r) {
      LeftPass(p, a, r, b);
    } else if a == [] || End(a[n - 1]) < r.address {
      FromNew(p, a, r, b);
      PassResult(p, a, r, b);
    }
  }

  lemma LeftPass(p: Pass, a: seq<Region>, r: Region, b: seq<Region>)
    requires Around(a, r, b) && TouchesLeft(a, r) && a[|a| - 1].data != [] && p == FirstPass(a + [r] + b)
    ensures PassOk(p, |a| - 1)
    ensures
      var q := PassFrom(p, |a| - 1);
      && (q.overlap <==> Overlaps(a, r, b))
      && (!q.overlap ==> Listed(q.copy, q.listed) == Joint(a, r, b) && q.changed)
  {
    hide Ordered, Listed, Joint;
    var n := |a|;
    assert p.copy[n - 1] == a[n - 1] && p.copy[n] == r;
    AddressesBefore(a, r, b);
    assert forall k {:trigger p.copy[k]} :: 0 <= k < n ==> p.copy[k] == a[k];
    JoinedAt(p, n - 1);
    var j := Joined(p, n - 1);
    assert j.copy[n..] == [r] + b;
    FromNew(j, a, r, b);
    JoinedResult(p, a, r, b);
  }

  lemma EmptyPass(p: Pass, a: seq<Region>, r: Region, b: seq<Region>)
    requires Around(a, r, b) && a != [] && a[|a| - 1] == Region(r.address, []) && p == FirstPass(a + [r] + b)
    ensures PassOk(p, |a| - 1)
    ensures
      var q := PassFrom(p, |a| - 1);
      && (q.overlap <==> Overlaps(a, r, b))
      && (!q.overlap ==> Listed(q.copy, q.listed) == Joint(a[..|a| - 1], r, b) && q.changed)
  {
    hide Ordered, Listed, Joint;
    var n := |a|;
    assert p.copy[n - 1] == a[n - 1] && p.copy[n] == r;
    AddressesBefore(a, r, b);
    assert forall k {:trigger p.copy[k]} :: 0 <= k < n ==> p.copy[k] == a[k];
    EmptyJoinedAt(p, n - 1);
    var j := Joined(p, n - 1);
    assert j.copy[n..] == [r] + b;
    FromNew(j, a, r, b);
    EmptyResult(p, a, r, b);
  }

  lemma EmptyResult(p: Pass, a: seq<Region>, r: Region, b: seq<Region>)
    requires Around(a, r, b) && a != [] && a[|a| - 1] == Region(r.address, []) && p == FirstPass(a + [r] + b)
    ensures
      var n := |a|;
      var copy, listed := p.copy[n - 1 := r], p.listed[n - 1 := false];
      && (!TouchesRight(r, b) ==> Listed(copy, listed) == Joint(a[..n - 1], r, b))
      && (TouchesRight(r, b) ==> Listed(copy[n := Both(r, b[0])], listed[n + 1 := false]) == Joint(a[..n - 1], r, b))
  {
    hide Ordered, Listed, Overlaps;
    var n := |a|;
    var front := a[..n - 1];
    var copy, listed := p.copy[n - 1 := r], p.listed[n - 1 := false];
    assert !TouchesLeft(front, r) by {
      NoTouch(a, r, b);
    }
    if TouchesRight(r, b) {
      var back := b[1..];
      assert copy[n := Both(r, b[0])] == front + [r, Both(r, b[0]), b[0]] + back;
      TwoGone(front, r, Both(r, b[0]), b[0], back, listed[n + 1 := false]);
    } else {
      assert copy == front + [r] + ([r] + b);
      OneGone(front, r, [r] + b, listed);
      assert front + ([r] + b) == front + [r] + b;
    }
  }

  lemma NoTouch(a: seq<Region>, r: Region, b: seq<Region>)
    requires Around(a, r, b) && a != [] && a[|a| - 1] == Region(r.address, [])
    ensures !TouchesLeft(a[..|a| - 1], r)
  {
    if |a| > 1 {
      assert Apart(a[|a| - 2], a[|a| - 1]);
    }
  }

  lemma OneGone(front: seq<Region>, x: Region, back: seq<Region>, listed: seq<bool>)
    requires |listed| == |front| + 1 + |back| && forall k :: 0 <= k < |listed| ==> (listed[k] <==> k != |front|)
    ensures Listed(front + [x] + back, listed) == front + back
  {
    hide Listed;
    var copy := front + [x] + back;
    AllButOne(copy, listed, |front|);
    assert copy[..|front|] == front && copy[|front| + 1..] == back;
  }

  lemma TwoGone(front: seq<Region>, x: Region, y: Region, z: Region, back: seq<Region>, listed: seq<bool>)
    requires |listed| == |front| + 3 + |back|
    requires forall k :: 0 <= k < |listed| ==> (listed[k] <==> k != |front| && k != |front| + 2)
    ensures Listed(front + [x, y, z] + back, listed) == front + [y] + back
  {
    hide Listed;
    var copy := front + [x, y, z] + back;
    AllButAround(copy, listed, |front|);
    assert copy[..|front|] == front && copy[|front| + 1] == y && copy[|front| + 3..] == back;
  }

  lemma PassResult(p: Pass, a: seq<Region>, r: Region, b: seq<Region>)
    requires p == FirstPass(a + [r] + b) && !TouchesLeft(a, r)
    ensures !TouchesRight(r, b) ==> Listed(p.copy, p.listed) == Joint(a, r, b)
    ensures TouchesRight(r, b) ==> Listed(p.copy[|a| := Both(r, b[0])], p.listed[|a| + 1 := false]) == Joint(a, r, b)
  {
    var n := |a|;
    if TouchesRight(r, b) {
      var copy := p.copy[n := Both(r, b[0])];
      AllButOne(copy, p.listed[n + 1 := false], n + 1);
      assert copy[..n + 1] == a + [Both(r, b[0])] && copy[n + 2..] == b[1..];
    } else {
      AllListed(p.copy, p.listed);
      assert a + [r] + b == Joint(a, r, b);
    }
  }

  lemma JoinedResult(p: Pass, a: seq<Region>, r: Region, b: seq<Region>)
    requires p == FirstPass(a + [r] + b) && TouchesLeft(a, r)
    ensures
      var n := |a|;
      var copy, listed := p.copy[n - 1 := Both(a[n - 1], r)], p.listed[n := false];
      && (!TouchesRight(r, b) ==> Listed(copy, listed) == Joint(a, r, b))
      && (TouchesRight(r, b) ==> Listed(copy[n := Both(r, b[0])], listed[n + 1 := false]) == Joint(a, r, b))
  {
    var n := |a|;
    var copy, listed := p.copy[n - 1 := Both(a[n - 1], r)], p.listed[n := false];
    var front := a[..n - 1] + [Both(a[n - 1], r)];
    if TouchesRight(r, b) {
      var after := copy[n := Both(r, b[0])];
      AllButTwo(after, listed[n + 1 := false], n);
      assert after[..n] == front && after[n + 2..] == b[1..];
    } else {
      AllButOne(copy, listed, n);
      assert copy[..n] == front && copy[n + 1..] == b;
    }
  }

  lemma OrderedSum(x: seq<Region>, y: seq<Region>)
    requires Ordered(x) && Ordered(y) && (x != [] && y != [] ==> Apart(x[|x| - 1], y[0]))
    ensures Ordered(x + y)
  {
    var s := x + y;
    forall k {:trigger s[k]} | 0 <= k < |s| - 1
      ensures Apart(s[k], s[k + 1])
    {
      if k < |x| - 1 {
        assert s[k] == x[k] && s[k + 1] == x[k + 1];
      } else if k >= |x| {
        assert s[k] == y[k - |x|] && s[k + 1] == y[k - |x| + 1];
      }
    }
  }

  lemma OrderedRest(rs: seq<Region>)
    requires Ordered(rs) && rs != []
    ensures Ordered(rs[1..])
    ensures |rs| > 1 ==> Apart(rs[0], rs[1])
  {
    var t := rs[1..];
    forall k {:trigger t[k]} | 0 <= k < |t| - 1
      ensures Apart(t[k], t[k + 1])
    {
      assert t[k] == rs[k + 1] && t[k + 1] == rs[k + 2];
    }
  }

  lemma JointIsOrdered(a: seq<Region>, r: Region, b: seq<Region>)
    requires Around(a, r, b) && !Overlaps(a, r, b)
    ensures Ordered(Joint(a, r, b))
  {
    var front := if TouchesLeft(a, r) then a[..|a| - 1] else a;
    var mid := if TouchesLeft(a, r) then Both(a[|a| - 1], r) else if TouchesRight(r, b) then Both(r, b[0]) else r;
    var back := if TouchesRight(r, b) then b[1..] else b;
    assert Joint(a, r, b) == front + [mid] + back;
    OrderedPrefix(a, |front|);
    assert front == a[..|front|];
    if TouchesRight(r, b) {
      OrderedRest(b);
    }
    if TouchesLeft(a, r) && |a| > 1 {
      assert Apart(a[|a| - 2], a[|a| - 1]);
    }
    OrderedSum(front, [mid]);
    OrderedSum(front + [mid], back);
  }

  lemma TrimmedIsAround(a: seq<Region>, r: Region, b: seq<Region>)
    requires Around(a, r, b)
    ensures Around(Trimmed(a, r), r, b) && (Overlaps(Trimmed(a, r), r, b) ==> Overlaps(a, r, b))
  {
    var t, n := Trimmed(a, r), |a|;
    if t != a {
      OrderedPrefix(a, n - 1);
      if t != [] {
        assert Apart(a[n - 2], a[n - 1]);
      }
      OrderedSum(t, b);
    }
  }

  /**
    Adding a region fails exactly when it overlaps another one. Otherwise the
    regions are in order and apart again, joined where they touched; an empty one
    is there only if one was before, or was added.
   */
  lemma AddedRegion(a: seq<Region>, r: Region, b: seq<Region>)
    requires Around(a, r, b)
    ensures
      var c := CheckAll(a + [r] + b);
      && (c.ok <==> !Overlaps(a, r, b))
      && (c.ok ==> c.regions == Joint(Trimmed(a, r), r, b) && Ordered(c.regions))
      && (c.ok && Normal(a) && Normal(b) && r.data != [] ==> Normal(c.regions))
  {
    var s, t := a + [r] + b, Trimmed(a, r);
    TrimmedIsAround(a, r, b);
    if |s| <= 1 {
      assert a == [] && b == [] && Joint(a, r, b) == [r] && s == [r];
    } else {
      WholePass(a, r, b);
      FirstPassShrinks(s);
      if !Overlaps(a, r, b) {
        JointIsOrdered(t, r, b);
        OrderedIsChecked(Joint(t, r, b));
      }
    }
    if Normal(a) && Normal(b) && r.data != [] {
      JointHasData(a, r, b);
    }
  }

  lemma DataSum(x: seq<Region>, y: seq<Region>)
    requires AllData(x) && AllData(y)
    ensures AllData(x + y)
  {
  }

  lemma DataPart(x: seq<Region>, i: nat, j: nat)
    requires AllData(x) && i <= j <= |x|
    ensures AllData(x[i..j])
  {
  }

  lemma JointHasData(a: seq<Region>, r: Region, b: seq<Region>)
    requires AllData(a) && AllData(b) && r.data != []
    ensures AllData(Joint(Trimmed(a, r), r, b))
  {
    assert a != [] ==> a[|a| - 1].data != [];
    assert b != [] ==> b[0].data != [];
    assert Trimmed(a, r) == a;
    var front := if TouchesLeft(a, r) then a[0..|a| - 1] else a;
    var mid := if TouchesLeft(a, r) then Both(a[|a| - 1], r) else if TouchesRight(r, b) then Both(r, b[0]) else r;
    var back := if TouchesRight(r, b) then b[1..|b|] else b;
    assert Joint(a, r, b) == front + [mid] + back;
    assert AllData([mid]);
    if a != [] {
      DataPart(a, 0, |a| - 1);
    }
    if b != [] {
      DataPart(b, 1, |b|);
    }
    hide AllData;
    DataSum(front, [mid]);
    DataSum(front + [mid], back);
  }

  /** ----- what bytes are where ----- */

  ghost predicate Holds(rs: seq<Region>, at: nat, b: byte) {
    exists k {:trigger rs[k]} :: 0 <= k < |rs| && In(rs[k], at, b)
  }

  predicate In(r: Region, at: nat, b: byte) {
    r.address <= at < End(r) && r.data[at - r.address] == b
  }

  lemma HoldsSum(x: seq<Region>, y: seq<Region>, at: nat, b: byte)
    ensures Holds(x + y, at, b) <==> Holds(x, at, b) || Holds(y, at, b)
  {
    var s := x + y;
    assert forall k {:trigger x[k]} :: 0 <= k < |x| ==> s[k] == x[k];
    assert forall k {:trigger y[k]} :: 0 <= k < |y| ==> s[|x| + k] == y[k];
  }

  lemma HoldsOne(r: Region, at: nat, b: byte)
    ensures Holds([r], at, b) <==> In(r, at, b)
  {
    assert [r][0] == r;
  }

  lemma InBoth(x: Region, y: Region, at: nat, b: byte)
    requires End(x) == y.address
    ensures In(Both(x, y), at, b) <==> In(x, at, b) || In(y, at, b)
  {
  }

  /** The regions joined hold what was there and what is new, but for the region behind when both sides touch. */
  lemma JointHolds(a: seq<Region>, r: Region, b: seq<Region>, at: nat, v: byte)
    ensures Holds(Joint(a, r, b), at, v) <==>
      || Holds(a, at, v) || In(r, at, v)
      || Holds(if TouchesLeft(a, r) && TouchesRight(r, b) then b[1..] else b, at, v)
  {
    hide Holds, In;
    var front := if TouchesLeft(a, r) then a[..|a| - 1] else a;
    var mid := if TouchesLeft(a, r) then Both(a[|a| - 1], r) else if TouchesRight(r, b) then Both(r, b[0]) else r;
    var back := if TouchesRight(r, b) then b[1..] else b;
    assert Joint(a, r, b) == front + [mid] + back;
    HoldsSum(front + [mid], back, at, v);
    HoldsSum(front, [mid], at, v);
    HoldsOne(mid, at, v);
    if TouchesLeft(a, r) {
      assert a == front + [a[|a| - 1]];
      HoldsSum(front, [a[|a| - 1]], at, v);
      HoldsOne(a[|a| - 1], at, v);
      InBoth(a[|a| - 1], r, at, v);
    } else if TouchesRight(r, b) {
      assert b == [b[0]] + back;
      HoldsSum([b[0]], back, at, v);
      HoldsOne(b[0], at, v);
      InBoth(r, b[0], at, v);
    }
  }

  /** What an empty region holds. */
  lemma TrimmedHolds(a: seq<Region>, r: Region, at: nat, v: byte)
    ensures Holds(Trimmed(a, r), at, v) <==> Holds(a, at, v)
  {
    var t := Trimmed(a, r);
    if t != a {
      assert a == t + [a[|a| - 1]];
      HoldsSum(t, [a[|a| - 1]], at, v);
      HoldsOne(a[|a| - 1], at, v);
    }
  }

  lemma EmptyHolds(b: seq<Region>, at: nat, v: byte)
    requires b != [] && b[0].data == []
    ensures Holds(b[1..], at, v) <==> Holds(b, at, v)
  {
    assert b == [b[0]] + b[1..];
    HoldsSum([b[0]], b[1..], at, v);
    HoldsOne(b[0], at, v);
  }

  /** The region fills a gap between two that are not empty. */
  predicate FillsGap(a: seq<Region>, r: Region, b: seq<Region>) {
    TouchesLeft(Trimmed(a, r), r) && TouchesRight(r, b) && b[0].data != []
  }

  /** Every byte, old and new, is still held exactly when the region does not fill a gap between two others. */
  lemma BytesAreKept(a: seq<Region>, r: Region, b: seq<Region>)
    requires Around(a, r, b) && !Overlaps(a, r, b)
    ensures
      (forall at: nat, v: byte :: Holds(CheckAll(a + [r] + b).regions, at, v) <==> Holds(a + b, at, v) || In(r, at, v))
      <==> !FillsGap(a, r, b)
  {
    AddedRegion(a, r, b);
    var t := Trimmed(a, r);
    hide CheckAll, Joint, Around, Overlaps, Trimmed, Holds, In;
    forall at: nat, v: byte
      ensures Holds(a + b, at, v) <==> Holds(a, at, v) || Holds(b, at, v)
      ensures Holds(Joint(t, r, b), at, v) <==>
        || Holds(a, at, v) || In(r, at, v)
        || Holds(if FillsGap(a, r, b) then b[1..] else b, at, v)
    {
      HoldsSum(a, b, at, v);
      TrimmedHolds(a, r, at, v);
      JointHolds(t, r, b, at, v);
      if TouchesRight(r, b) && b[0].data == [] {
        EmptyHolds(b, at, v);
      }
    }
    if FillsGap(a, r, b) {
      FirstIsLost(a, r, b);
    }
  }

  /** One byte put between two others: the last one is gone. */
  lemma GapLosesByte()
    ensures var a, r, b := [Region(0, [1])], Region(1, [2]), [Region(2, [3])];
      && CheckAll(a + [r] + b) == Checked([Region(0, [1, 2])], true)
      && Holds(a + b, 2, 3) && !Holds(CheckAll(a + [r] + b).regions, 2, 3)
  {
    var first: seq<byte>, second: seq<byte>, third: seq<byte> := [1], [2], [3];
    var a, r, b := [Region(0, first)], Region(1, second), [Region(2, third)];
    assert first + second == [1, 2];
    assert Apart((a + b)[0], (a + b)[1]);
    assert Around(a, r, b);
    AddedRegion(a, r, b);
    hide CheckAll;
    assert Trimmed(a, r) == a && Joint(a, r, b) == [Region(0, first + second)];
    HoldsSum(a, b, 2, 3);
    HoldsOne(b[0], 2, 3);
    HoldsOne(Region(0, first + second), 2, 3);
  }

  /** A record of no bytes leaves a region behind, and one that covers its address is then refused,
      although the two share no byte. */
  lemma EmptyRegionBlocks()
    ensures var empty, r := [Region(5, [])], Region(4, [1, 2]);
      && CheckAll(empty) == Checked(empty, true) && !CheckAll([r] + empty).ok
      && forall at: nat, v: byte :: !Holds(empty, at, v)
  {
    var empty, r := [Region(5, [])], Region(4, [1, 2]);
    var none: seq<Region> := [];
    assert none + empty == empty && none + [r] + empty == [r] + empty;
    AddedRegion(none, r, empty);
  }

  /** The first byte of the region behind the gap is held by no other. */
  lemma FirstIsLost(a: seq<Region>, r: Region, b: seq<Region>)
    requires Around(a, r, b) && TouchesRight(r, b) && b[0].data != []
    ensures var at, v := b[0].address, b[0].data[0];
      Holds(b, at, v) && !Holds(a, at, v) && !In(r, at, v) && !Holds(b[1..], at, v)
  {
    var at := b[0].address;
    assert In(b[0], at, b[0].data[0]);
    forall k {:trigger a[k]} | 0 <= k < |a|
      ensures End(a[k]) <= at
    {
      assert (a + b)[k] == a[k] && (a + b)[|a|] == b[0];
      OrderedAddresses(a + b, k, |a|);
    }
    var t := b[1..];
    forall k {:trigger t[k]} | 0 <= k < |t|
      ensures t[k].address > at
    {
      OrderedAddresses(b, 0, k + 1);
    }
  }
}
