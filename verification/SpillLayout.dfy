/**
  Where the blocks of a rewritten program are, how one more rewrite changes the
  program, and that identities stay unique.
 */
module SpillLayout {
  import opened MachineCode
  import opened FlowGraphs
  import opened Recoloring
  import opened Spilling

  lemma {:induction false} ExpandExtends(slot: nat, p: Program, work: seq<Job>, k: nat, m: nat)
    requires k <= m <= |p|
    ensures ExpandTo(slot, p, work, k) <= ExpandTo(slot, p, work, m)
  {
    if k < m {
      ExpandExtends(slot, p, work, k, m - 1);
    }
  }

  lemma FlatInPlace(q: Program, front: Program, b: Block)
    requires front + b.Flat() <= q
    ensures var s, at := |front|, |front| + |b.pre|;
      && at < |q| && at + 1 + |b.post| <= |q|
      && q[s..at] == b.pre && q[at] == b.main && q[at + 1..at + 1 + |b.post|] == b.post
  {
    var s, at, n := |front|, |front| + |b.pre|, |b.post|;
    assert q[s..s + |b.Flat()|] == b.Flat();
    assert b.Flat()[..|b.pre|] == b.pre && b.Flat()[|b.pre|] == b.main && b.Flat()[|b.pre| + 1..] == b.post;
    assert q[s..at] == q[s..s + |b.Flat()|][..|b.pre|] && q[at + 1..at + 1 + n] == q[s..s + |b.Flat()|][|b.pre| + 1..];
  }

  /** Block `k`, in its place. */
  lemma BlockInPlace(slot: nat, p: Program, work: seq<Job>, k: nat)
    requires k < |p|
    ensures var q, b, at := Expand(slot, p, work), BlockOf(slot, p[k], work), MainAt(slot, p, work, k);
      && Start(slot, p, work, k) + |b.pre| == at < |q|
      && at + 1 + |b.post| == Start(slot, p, work, k + 1) <= |q|
      && q[Start(slot, p, work, k)..at] == b.pre && q[at] == b.main && q[at + 1..at + 1 + |b.post|] == b.post
  {
    hide BlockOf;
    ExpandExtends(slot, p, work, k + 1, |p|);
    FlatInPlace(Expand(slot, p, work), ExpandTo(slot, p, work, k), BlockOf(slot, p[k], work));
  }

  /** Every instruction of the result is in some block. */
  lemma {:induction false} BlockAround(slot: nat, p: Program, work: seq<Job>, m: nat, at: nat) returns (k: nat)
    requires m <= |p| && at < Start(slot, p, work, m)
    ensures k < m && Start(slot, p, work, k) <= at < Start(slot, p, work, k + 1)
  {
    if at < Start(slot, p, work, m - 1) {
      k := BlockAround(slot, p, work, m - 1, at);
    } else {
      k := m - 1;
    }
  }

  /** ----- one more rewrite ----- */

  /** The instruction at `m` is rewritten, with spill code right around it. */
  function Inserted(slot: nat, q: Program, m: nat, job: Job): Program
    requires m < |q|
  {
    var main := Replace(q[m], job.tmp, job.sub);
    q[..m] + Before(slot, main, job) + [main] + After(slot, main, job) + q[m + 1..]
  }

  lemma InsertedFront(slot: nat, q: Program, rest: Program, m: nat, job: Job)
    requires m < |q|
    ensures Inserted(slot, q + rest, m, job) == Inserted(slot, q, m, job) + rest
  {
    assert (q + rest)[m + 1..] == q[m + 1..] + rest;
  }

  lemma {:induction false} UntouchedBefore(slot: nat, p: Program, work: seq<Job>, k: nat)
    requires work != [] && k <= |p| && forall i :: 0 <= i < k ==> p[i].id != work[|work| - 1].at
    ensures ExpandTo(slot, p, work, k) == ExpandTo(slot, p, work[..|work| - 1], k)
  {
    if k > 0 {
      UntouchedBefore(slot, p, work, k - 1);
    }
  }

  lemma BlockKept(slot: nat, i: Instr, work: seq<Job>)
    requires work != []
    ensures BlockOf(slot, i, work) ==
      (var init := BlockOf(slot, i, work[..|work| - 1]); if i.id == work[|work| - 1].at then Apply(slot, init, work[|work| - 1]) else init)
  {
  }

  lemma {:induction false} InsertedTo(slot: nat, p: Program, work: seq<Job>, k: nat, m: nat)
    requires work != [] && UniqueIds(p) && k < m <= |p| && p[k].id == work[|work| - 1].at
    ensures var init := work[..|work| - 1];
      && MainAt(slot, p, init, k) < |ExpandTo(slot, p, init, m)|
      && ExpandTo(slot, p, work, m) == Inserted(slot, ExpandTo(slot, p, init, m), MainAt(slot, p, init, k), work[|work| - 1])
    decreases m
  {
    hide BlockOf, Inserted, Apply;
    var init, last := work[..|work| - 1], work[|work| - 1];
    var at := MainAt(slot, p, init, k);
    BlockKept(slot, p[m - 1], work);
    if m == k + 1 {
      UntouchedBefore(slot, p, work, k);
      InsertedHere(slot, ExpandTo(slot, p, init, k), BlockOf(slot, p[k], init), last);
    } else {
      InsertedTo(slot, p, work, k, m - 1);
      assert p[m - 1].id != last.at;
      InsertedFront(slot, ExpandTo(slot, p, init, m - 1), BlockOf(slot, p[m - 1], init).Flat(), at, last);
    }
  }

  lemma InsertedHere(slot: nat, q: Program, b: Block, job: Job)
    requires b.main.id == job.at
    ensures Inserted(slot, q + b.Flat(), |q| + |b.pre|, job) == q + Apply(slot, b, job).Flat()
  {
    var all, m, main := q + b.Flat(), |q| + |b.pre|, Replace(b.main, job.tmp, job.sub);
    assert all[..m] == q + b.pre && all[m] == b.main && all[m + 1..] == b.post;
    assert Apply(slot, b, job).Flat() == b.pre + Before(slot, main, job) + [main] + (After(slot, main, job) + b.post);
  }

  /** Doing one more job rewrites the program at one place. */
  lemma ExpandNext(slot: nat, p: Program, work: seq<Job>, k: nat)
    requires work != [] && UniqueIds(p) && k < |p| && p[k].id == work[|work| - 1].at
    ensures var init := work[..|work| - 1];
      && MainAt(slot, p, init, k) < |Expand(slot, p, init)|
      && Expand(slot, p, work) == Inserted(slot, Expand(slot, p, init), MainAt(slot, p, init, k), work[|work| - 1])
  {
    InsertedTo(slot, p, work, k, |p|);
  }

  lemma {:induction false} NothingDone(slot: nat, p: Program, k: nat)
    requires k <= |p|
    ensures ExpandTo(slot, p, [], k) == p[..k]
  {
    if k > 0 {
      NothingDone(slot, p, k - 1);
      assert p[..k] == p[..k - 1] + [p[k - 1]];
    }
  }

  /** ----- identities ----- */

  predicate IdsBelow(q: Program, ids: nat) {
    UniqueIds(q) && forall i :: 0 <= i < |q| ==> q[i].id < ids
  }

  lemma InsertedIds(slot: nat, q: Program, m: nat, job: Job, ids: nat)
    requires m < |q| && IdsBelow(q, ids) && job.loadId == ids && job.storeId == ids + 1
    ensures IdsBelow(Inserted(slot, q, m, job), ids + 2)
  {
    var main := Replace(q[m], job.tmp, job.sub);
    var before, after := Before(slot, main, job), After(slot, main, job);
    var r := Inserted(slot, q, m, job);
    var shift := |before| + |after|;
    forall i | 0 <= i < |r|
      ensures if i < m then r[i].id == q[i].id
        else if i < m + |before| then r[i].id == ids
        else if i == m + |before| then r[i].id == q[m].id
        else if i < m + 1 + shift then r[i].id == ids + 1
        else r[i].id == q[i - shift].id
    {
    }
  }

  lemma {:induction false} ExpandIds(slot: nat, p: Program, work: seq<Job>, temps: nat, ids: nat)
    requires IdsBelow(p, ids) && Numbered(work, temps, ids)
    requires forall k :: 0 <= k < |work| ==> HasId(p, work[k].at)
    ensures IdsBelow(Expand(slot, p, work), ids + 2 * |work|)
    decreases |work|
  {
    if work == [] {
      NothingDone(slot, p, |p|);
      assert p[..|p|] == p;
    } else {
      var n := |work| - 1;
      ExpandIds(slot, p, work[..n], temps, ids);
      var k :| 0 <= k < |p| && p[k].id == work[n].at;
      ExpandNext(slot, p, work, k);
      InsertedIds(slot, Expand(slot, p, work[..n]), MainAt(slot, p, work[..n], k), work[n], ids + 2 * n);
    }
  }

  /** An identity of the program is found at its main instruction. */
  lemma FoundAt(slot: nat, p: Program, work: seq<Job>, k: nat)
    requires UniqueIds(Expand(slot, p, work)) && k < |p|
    ensures MainAt(slot, p, work, k) < |Expand(slot, p, work)|
    ensures IndexOf(Expand(slot, p, work), p[k].id) == MainAt(slot, p, work, k)
  {
    BlockInPlace(slot, p, work, k);
    IndexOfUnique(Expand(slot, p, work), MainAt(slot, p, work, k));
  }
}
