/**
  The regions of a hex file: a new one is sorted in, and joined with those it
  touches.
 */
module HexRegions {
  import opened Basics
  import opened HexLines

  datatype Region = Region(address: nat, data: seq<byte>)

  function End(r: Region): nat {
    r.address + |r.data|
  }

  /** Behind all regions that do not come later. */
  function Inserted(rs: seq<Region>, r: Region): (s: seq<Region>)
    ensures |s| == |rs| + 1
  {
    if rs == [] then [r]
    else if rs[|rs| - 1].address <= r.address then rs + [r]
    else Inserted(rs[..|rs| - 1], r) + [rs[|rs| - 1]]
  }

  /** Sorted by address, those with the same address in their old order. */
  function Sorted(rs: seq<Region>): (s: seq<Region>)
    ensures |s| == |rs|
  {
    if rs == [] then [] else Inserted(Sorted(rs[..|rs| - 1]), rs[|rs| - 1])
  }

  /** ----- joining ----- */

  /**
    A pass goes over a copy of the list, whose regions are extended in place,
    while regions are removed from the list itself.
   */
  datatype Pass = Pass(copy: seq<Region>, listed: seq<bool>, changed: bool, overlap: bool)

  predicate PassOk(p: Pass, i: nat) {
    |p.listed| == |p.copy| && forall k :: i < k < |p.copy| ==> p.listed[k]
  }

  /** The first region in the list that is equal. */
  function FirstListed(p: Pass, r: Region, k: nat): (j: nat)
    requires |p.listed| == |p.copy| && k <= |p.copy|
    requires exists i :: k <= i < |p.copy| && p.listed[i] && p.copy[i] == r
    ensures k <= j < |p.copy| && p.listed[j] && p.copy[j] == r
    ensures forall i :: k <= i < j ==> !(p.listed[i] && p.copy[i] == r)
    decreases |p.copy| - k
  {
    if p.listed[k] && p.copy[k] == r then k else FirstListed(p, r, k + 1)
  }

  /** A pair that touches is joined: the first region takes the data of the second, which is removed. */
  function Joined(p: Pass, i: nat): (q: Pass)
    requires i + 1 < |p.copy| && PassOk(p, i)
    ensures PassOk(q, i + 1) && |q.copy| == |p.copy|
  {
    var a, b := p.copy[i], p.copy[i + 1];
    var extended := p.(copy := p.copy[i := Region(a.address, a.data + b.data)], changed := true);
    assert extended.copy[i + 1] == b && extended.listed[i + 1];
    var j := FirstListed(extended, b, 0);
    extended.(listed := p.listed[j := false])
  }

  function PassFrom(p: Pass, i: nat): (q: Pass)
    requires PassOk(p, i)
    ensures |q.listed| == |q.copy| == |p.copy|
    decreases |p.copy| - i
  {
    if i + 1 >= |p.copy| then p
    else if End(p.copy[i]) == p.copy[i + 1].address then PassFrom(Joined(p, i), i + 1)
    else if End(p.copy[i]) > p.copy[i + 1].address then p.(overlap := true)
    else PassFrom(p, i + 1)
  }

  function Listed(copy: seq<Region>, listed: seq<bool>): seq<Region>
    requires |listed| == |copy|
  {
    if copy == [] then [] else
      Listed(copy[..|copy| - 1], listed[..|copy| - 1]) + (if listed[|copy| - 1] then [copy[|copy| - 1]] else [])
  }

  function FirstPass(rs: seq<Region>): (p: Pass)
    ensures PassOk(p, 0)
  {
    Pass(rs, seq(|rs|, _ => true), false, false)
  }

  function Count(listed: seq<bool>): nat {
    if listed == [] then 0 else Count(listed[..|listed| - 1]) + (if listed[|listed| - 1] then 1 else 0)
  }

  lemma {:induction false} CountFull(listed: seq<bool>)
    ensures Count(listed) <= |listed|
    ensures (forall k :: 0 <= k < |listed| ==> listed[k]) ==> Count(listed) == |listed|
  {
    if listed != [] {
      CountFull(listed[..|listed| - 1]);
    }
  }

  lemma {:induction false} CountOneLess(listed: seq<bool>, j: nat)
    requires j < |listed| && listed[j]
    ensures Count(listed[j := false]) == Count(listed) - 1
  {
    var n := |listed| - 1;
    if j < n {
      CountOneLess(listed[..n], j);
      assert listed[j := false][..n] == listed[..n][j := false];
    } else {
      assert listed[j := false][..n] == listed[..n];
    }
  }

  lemma {:induction false} ListedCount(copy: seq<Region>, listed: seq<bool>)
    requires |listed| == |copy|
    ensures |Listed(copy, listed)| == Count(listed)
  {
    if copy != [] {
      ListedCount(copy[..|copy| - 1], listed[..|copy| - 1]);
    }
  }

  /** A pass that changes something removes something. */
  lemma {:induction false} PassRemoves(p: Pass, i: nat)
    requires PassOk(p, i)
    ensures var q := PassFrom(p, i);
      Count(q.listed) <= Count(p.listed) && (q.changed && !p.changed ==> Count(q.listed) < Count(p.listed))
    decreases |p.copy| - i
  {
    if i + 1 < |p.copy| {
      if End(p.copy[i]) == p.copy[i + 1].address {
        JoinedRemoves(p, i);
        PassRemoves(Joined(p, i), i + 1);
      } else if End(p.copy[i]) < p.copy[i + 1].address {
        PassRemoves(p, i + 1);
      }
    }
  }

  lemma JoinedRemoves(p: Pass, i: nat)
    requires i + 1 < |p.copy| && PassOk(p, i)
    ensures Count(Joined(p, i).listed) == Count(p.listed) - 1
  {
    var a, b := p.copy[i], p.copy[i + 1];
    var extended := p.(copy := p.copy[i := Region(a.address, a.data + b.data)], changed := true);
    assert extended.copy[i + 1] == b && extended.listed[i + 1];
    CountOneLess(p.listed, FirstListed(extended, b, 0));
  }

  lemma FirstPassShrinks(rs: seq<Region>)
    ensures var q := PassFrom(FirstPass(rs), 0);
      |Listed(q.copy, q.listed)| <= |rs| && (q.changed ==> |Listed(q.copy, q.listed)| < |rs|)
  {
    var q := PassFrom(FirstPass(rs), 0);
    PassRemoves(FirstPass(rs), 0);
    CountFull(FirstPass(rs).listed);
    ListedCount(q.copy, q.listed);
  }

  /** What is in the list in the end, and whether no regions overlapped. */
  datatype Checked = Checked(regions: seq<Region>, ok: bool)

  /** Passes until one of them changes nothing. */
  function CheckAll(rs: seq<Region>): Checked
    decreases |rs|
  {
    if |rs| <= 1 then Checked(rs, true) else
      var q := PassFrom(FirstPass(rs), 0);
      FirstPassShrinks(rs);
      var left := Listed(q.copy, q.listed);
      if q.overlap then Checked(left, false) else if q.changed then CheckAll(left) else Checked(left, true)
  }

  function Added(rs: seq<Region>, r: Region): Checked {
    CheckAll(Sorted(rs + [r]))
  }

  /** ----- regions that are in order and do not touch ----- */

  ghost predicate Apart(a: Region, b: Region) {
    End(a) < b.address
  }

  ghost predicate Ordered(rs: seq<Region>) {
    forall k {:trigger rs[k]} :: 0 <= k < |rs| - 1 ==> Apart(rs[k], rs[k + 1])
  }

  predicate AllData(rs: seq<Region>) {
    forall k {:trigger rs[k]} :: 0 <= k < |rs| ==> rs[k].data != []
  }

  ghost predicate Normal(rs: seq<Region>) {
    Ordered(rs) && AllData(rs)
  }

  lemma {:induction false} OrderedAddresses(rs: seq<Region>, i: nat, j: nat)
    requires Ordered(rs) && i < j < |rs|
    ensures rs[i].address <= End(rs[i]) < rs[j].address
  {
    if i + 1 < j {
      OrderedAddresses(rs, i, j - 1);
      assert Apart(rs[j - 1], rs[j]);
    } else {
      assert Apart(rs[i], rs[j]);
    }
  }

  /** How many regions come before a new one. */
  function Place(rs: seq<Region>, r: Region): (p: nat)
    ensures p <= |rs|
  {
    if rs == [] then 0
    else if rs[|rs| - 1].address <= r.address then |rs|
    else Place(rs[..|rs| - 1], r)
  }

  lemma {:induction false} InsertedAtPlace(rs: seq<Region>, r: Region)
    ensures Inserted(rs, r) == rs[..Place(rs, r)] + [r] + rs[Place(rs, r)..]
    ensures Place(rs, r) > 0 ==> rs[Place(rs, r) - 1].address <= r.address
    ensures forall k :: Place(rs, r) <= k < |rs| ==> rs[k].address > r.address
  {
    if rs != [] && rs[|rs| - 1].address > r.address {
      var n := |rs| - 1;
      var init, p := rs[..n], Place(rs[..n], r);
      InsertedAtPlace(init, r);
      assert init[p..] + [rs[n]] == rs[p..] && init[..p] == rs[..p];
      assert init[..p] + [r] + init[p..] + [rs[n]] == init[..p] + [r] + (init[p..] + [rs[n]]);
      hide Inserted, Place;
      assert forall k :: p <= k < n ==> rs[k] == init[k];
    }
  }

  lemma OrderedPrefix(rs: seq<Region>, n: nat)
    requires Ordered(rs) && n <= |rs|
    ensures Ordered(rs[..n])
  {
    var init := rs[..n];
    forall k {:trigger init[k]} | 0 <= k < n - 1
      ensures Apart(init[k], init[k + 1])
    {
      assert Apart(rs[k], rs[k + 1]);
    }
  }

  lemma NormalPrefix(rs: seq<Region>, n: nat)
    requires Normal(rs) && n <= |rs|
    ensures Normal(rs[..n])
  {
    OrderedPrefix(rs, n);
  }

  lemma {:induction false} OrderedIsSorted(rs: seq<Region>)
    requires Ordered(rs)
    ensures Sorted(rs) == rs
  {
    hide Ordered;
    if |rs| > 0 {
      var init := rs[..|rs| - 1];
      OrderedPrefix(rs, |rs| - 1);
      OrderedIsSorted(init);
      if |rs| > 1 {
        OrderedAddresses(rs, |rs| - 2, |rs| - 1);
      }
    }
  }

  lemma AddedIsInserted(rs: seq<Region>, r: Region)
    requires Ordered(rs)
    ensures Added(rs, r) == CheckAll(Inserted(rs, r))
  {
    OrderedIsSorted(rs);
    assert (rs + [r])[..|rs|] == rs;
  }

  /** Nothing happens where regions are apart. */
  lemma {:induction false} Quiet(p: Pass, i: nat, j: nat)
    requires PassOk(p, i) && i <= j
    requires forall k {:trigger p.copy[k]} :: i <= k < j && k + 1 < |p.copy| ==> Apart(p.copy[k], p.copy[k + 1])
    ensures PassOk(p, j) && PassFrom(p, i) == PassFrom(p, j)
    decreases j - i
  {
    if i < j {
      if i + 1 < |p.copy| {
        assert Apart(p.copy[i], p.copy[i + 1]);
      }
      Quiet(p, i + 1, j);
    }
  }

  lemma {:induction false} AllListed(copy: seq<Region>, listed: seq<bool>)
    requires |listed| == |copy| && forall k :: 0 <= k < |listed| ==> listed[k]
    ensures Listed(copy, listed) == copy
  {
    if copy != [] {
      AllListed(copy[..|copy| - 1], listed[..|copy| - 1]);
    }
  }

  lemma {:induction false} AllButOne(copy: seq<Region>, listed: seq<bool>, j: nat)
    requires |listed| == |copy| && j < |copy| && forall k :: 0 <= k < |listed| ==> (listed[k] <==> k != j)
    ensures Listed(copy, listed) == copy[..j] + copy[j + 1..]
  {
    var n := |copy| - 1;
    if j < n {
      AllButOne(copy[..n], listed[..n], j);
      assert copy[..n][..j] + copy[..n][j + 1..] + [copy[n]] == copy[..j] + copy[j + 1..];
    } else {
      AllListed(copy[..n], listed[..n]);
    }
  }

  lemma {:induction false} AllButTwo(copy: seq<Region>, listed: seq<bool>, j: nat)
    requires |listed| == |copy| && j + 1 < |copy| && forall k :: 0 <= k < |listed| ==> (listed[k] <==> k != j && k != j + 1)
    ensures Listed(copy, listed) == copy[..j] + copy[j + 2..]
  {
    var n := |copy| - 1;
    if j + 1 < n {
      AllButTwo(copy[..n], listed[..n], j);
      assert copy[..n][..j] + copy[..n][j + 2..] + [copy[n]] == copy[..j] + copy[j + 2..];
    } else {
      AllButOne(copy[..n], listed[..n], j);
      assert copy[..n][..j] + copy[..n][j + 1..] == copy[..j] + copy[j + 2..];
    }
  }

  lemma OrderedIsChecked(rs: seq<Region>)
    requires Ordered(rs)
    ensures CheckAll(rs) == Checked(rs, true)
  {
    if |rs| > 1 {
      Quiet(FirstPass(rs), 0, |rs|);
      AllListed(rs, FirstPass(rs).listed);
    }
  }

  lemma {:induction false} AllButAround(copy: seq<Region>, listed: seq<bool>, j: nat)
    requires |listed| == |copy| && j + 2 < |copy| && forall k :: 0 <= k < |listed| ==> (listed[k] <==> k != j && k != j + 2)
    ensures Listed(copy, listed) == copy[..j] + [copy[j + 1]] + copy[j + 3..]
  {
    var n := |copy| - 1;
    if j + 2 < n {
      AllButAround(copy[..n], listed[..n], j);
      assert copy[..n][..j] + [copy[j + 1]] + copy[..n][j + 3..] + [copy[n]] == copy[..j] + [copy[j + 1]] + copy[j + 3..];
    } else {
      AllButOne(copy[..n], listed[..n], j);
      assert copy[..n][..j] + copy[..n][j + 1..] == copy[..j] + [copy[j + 1]] + copy[j + 3..];
    }
  }

  /** An empty region that is joined becomes equal to the next one, and is taken off the list in its place. */
  lemma EmptyJoinedAt(p: Pass, i: nat)
    requires i + 1 < |p.copy| && PassOk(p, i) && p.listed[i]
    requires p.copy[i] == Region(p.copy[i + 1].address, [])
    requires forall k {:trigger p.copy[k]} :: 0 <= k < i && p.listed[k] ==> p.copy[k].address < p.copy[i].address
    ensures Joined(p, i) == Pass(p.copy[i := p.copy[i + 1]], p.listed[i := false], true, p.overlap)
  {
    var b := p.copy[i + 1];
    var none: seq<byte> := [];
    assert none + b.data == b.data;
    var extended := p.(copy := p.copy[i := b], changed := true);
    assert extended.copy[i] == b && extended.listed[i];
    var j := FirstListed(extended, b, 0);
    assert j == i;
  }

  /** The only region that starts where one does that has been joined is that one. */
  lemma JoinedAt(p: Pass, i: nat)
    requires i + 1 < |p.copy| && PassOk(p, i)
    requires forall k {:trigger p.copy[k]} :: 0 <= k <= i && p.listed[k] ==> p.copy[k].address < p.copy[i + 1].address
    ensures Joined(p, i) == Pass(
      p.copy[i := Region(p.copy[i].address, p.copy[i].data + p.copy[i + 1].data)],
      p.listed[i + 1 := false], true, p.overlap)
  {
    var a, b := p.copy[i], p.copy[i + 1];
    var extended := p.(copy := p.copy[i := Region(a.address, a.data + b.data)], changed := true);
    assert extended.copy[i + 1] == b && extended.listed[i + 1];
    var j := FirstListed(extended, b, 0);
    assert j == i + 1;
  }
}
