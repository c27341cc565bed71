/**
  `rewrite_program`: the instructions that mention the temporaries of a spilled
  node are rewritten in place, one after the other.
 */
module Rewriter {
  import opened MachineCode
  import opened Graphs
  import opened PqTest
  import opened Recoloring
  import opened Spilling
  import opened SpillLayout
  import opened Frames

  lemma ReplacedKeepsIds(q: Program, m: nat, tmp: Register, sub: Register, ids: nat)
    requires m < |q| && IdsBelow(q, ids)
    ensures IdsBelow(q[m := Replace(q[m], tmp, sub)], ids)
  {
  }

  /** After the load is in place, the instruction is one further. */
  lemma FoundAfterInsert(q: Program, m: nat, code: seq<Instr>, ids: nat)
    requires m < |q| && IdsBelow(q, ids) && forall k :: 0 <= k < |code| ==> code[k].id == ids
    requires |code| <= 1
    ensures var r := Insert(q, m, code);
      HasId(r, q[m].id) && IndexOf(r, q[m].id) == m + |code| && r[m + |code|] == q[m]
  {
    var r := Insert(q, m, code);
    assert r[m + |code|] == q[m];
    forall j | 0 <= j < m + |code|
      ensures r[j].id != q[m].id
    {
      if j < m {
        assert r[j] == q[j];
      } else {
        assert r[j] == code[j - m];
      }
    }
    var k := IndexOf(r, q[m].id);
  }

  /** Replacing, inserting before and inserting after amount to one rewrite. */
  lemma RewrittenInPlace(slot: nat, q: Program, m: nat, job: Job)
    requires m < |q|
    ensures var main := Replace(q[m], job.tmp, job.sub);
      var before := Before(slot, main, job);
      var after := After(slot, main, job);
      var once := Insert(q[m := main], m, before);
      m + |before| + 1 <= |once| && Insert(once, m + |before| + 1, after) == Inserted(slot, q, m, job)
  {
    var main := Replace(q[m], job.tmp, job.sub);
    var before, after := Before(slot, main, job), After(slot, main, job);
    var once := Insert(q[m := main], m, before);
    assert q[m := main][..m] == q[..m] && q[m := main][m..] == [main] + q[m + 1..];
    assert once == q[..m] + before + [main] + q[m + 1..];
    assert once[..m + |before| + 1] == q[..m] + before + [main];
    assert once[m + |before| + 1..] == q[m + 1..];
  }

  lemma IndexBelow(q: Program, id: nat)
    requires HasId(q, id)
    ensures IndexOf(q, id) < |q| && q[IndexOf(q, id)].id == id
  {
    IndexOfPresent(q, id);
  }

  /** The registers of the rewriting have the classes of the temporaries they stand for; no other class changes. */
  ghost predicate Classed(before: map<Register, Class>, after: map<Register, Class>, work: seq<Job>, classOf: Register -> Class) {
    && (forall k :: 0 <= k < |work| ==> work[k].sub in after && after[work[k].sub] == classOf(work[k].tmp))
    && (forall r :: r in before ==> r in after && ((forall k :: 0 <= k < |work| ==> work[k].sub != r) ==> after[r] == before[r]))
    && (forall r :: r in after && r !in before ==> exists k :: 0 <= k < |work| && work[k].sub == r)
  }

  lemma ClassedNext(before: map<Register, Class>, after: map<Register, Class>, work: seq<Job>, classOf: Register -> Class, job: Job,
      temps: nat, ids: nat)
    requires Classed(before, after, work, classOf) && Numbered(work, temps, ids) && job.sub == Virtual(temps + |work|)
    ensures Classed(before, after[job.sub := classOf(job.tmp)], work + [job], classOf)
  {
    var more, all := work + [job], after[job.sub := classOf(job.tmp)];
    assert more[|work|] == job && forall k :: 0 <= k < |work| ==> more[k] == work[k];
    forall r | r in all && r !in before
      ensures exists k :: 0 <= k < |more| && more[k].sub == r
    {
      if r == job.sub {
        assert more[|work|].sub == r;
      } else {
        var k :| 0 <= k < |work| && work[k].sub == r;
        assert more[k].sub == r;
      }
    }
    forall r | r in before && forall k :: 0 <= k < |more| ==> more[k].sub != r
      ensures all[r] == before[r]
    {
      assert more[|work|].sub != r;
      assert forall k :: 0 <= k < |work| ==> work[k] == more[k];
    }
  }

  method RewriteOne(frame: Frame, slot: nat, id: nat, tmp: Register, class_: Class) returns (ghost job: Job)
    requires IdsBelow(frame.instructions, frame.nextId) && HasId(frame.instructions, id)
    modifies frame`instructions, frame`nextTemp, frame`nextId, frame`classes
    ensures job == Job(id, tmp, Virtual(old(frame.nextTemp)), old(frame.nextId), old(frame.nextId) + 1)
    ensures frame.nextTemp == old(frame.nextTemp) + 1 && frame.nextId == old(frame.nextId) + 2
    ensures frame.classes == old(frame.classes)[job.sub := class_]
    ensures IndexOf(old(frame.instructions), id) < |old(frame.instructions)|
    ensures frame.instructions == Inserted(slot, old(frame.instructions), IndexOf(old(frame.instructions), id), job)
    ensures IdsBelow(frame.instructions, frame.nextId)
  {
    hide UniqueIds, Insert, Replace, Inserted;
    ghost var q, ids := frame.instructions, frame.nextId;
    var sub := frame.NewReg(class_);
    var loadId := frame.NewId();
    var storeId := frame.NewId();
    var theJob := Job(id, tmp, sub, loadId, storeId);
    job := theJob;
    IndexBelow(q, id);
    ghost var m := IndexOf(q, id);
    InsertedIds(slot, q, m, job, ids);
    RewrittenInPlace(slot, q, m, job);
    ReplacedKeepsIds(q, m, tmp, sub, ids);
    frame.ReplaceRegister(id, tmp, sub);
    ghost var q1 := frame.instructions;
    ReplaceKeepsId(q[m], tmp, sub);
    UniqueIndex(q1, m, ids);
    IndexBelow(q1, id);
    var main := frame.instructions[IndexOf(frame.instructions, id)];
    FoundAfterInsert(q1, m, Before(slot, main, theJob), ids);
    if sub in main.Used() {
      frame.InsertCodeBefore(id, [LoadOf(slot, theJob)]);
    } else {
      InsertNothing(q1, m);
    }
    if sub in main.Defined() {
      frame.InsertCodeAfter(id, [StoreOf(slot, theJob)]);
    } else {
      InsertNothing(frame.instructions, m + |Before(slot, main, theJob)| + 1);
    }
  }

  lemma ReplaceKeepsId(i: Instr, tmp: Register, sub: Register)
    ensures Replace(i, tmp, sub).id == i.id
  {
  }

  lemma UniqueIndex(q: Program, m: nat, ids: nat)
    requires IdsBelow(q, ids) && m < |q|
    ensures IndexOf(q, q[m].id) == m && HasId(q, q[m].id)
  {
    IndexOfUnique(q, m);
  }

  lemma InsertNothing(q: Program, m: nat)
    requires m <= |q|
    ensures Insert(q, m, []) == q
  {
  }

  /** ----- all of them ----- */

  /** Which instructions mention a register. */
  ghost predicate Occurrences(p: Program, r: Register, at: set<nat>) {
    forall id :: id in at <==> exists i :: 0 <= i < |p| && p[i].id == id && Mentions(p[i], r)
  }

  /** The state of the rewriting: `done` temporaries, and `tmp` in the instructions `at`. */
  ghost predicate Rewriting(p: Program, slot: nat, q: Program, work: seq<Job>, temps: nat, ids: nat, done: set<Register>, tmp: Register, at: set<nat>) {
    && q == Expand(slot, p, work)
    && Numbered(work, temps, ids)
    && Orderly(work, done + {tmp})
    && IdsBelow(q, ids + 2 * |work|)
    && (forall k :: 0 <= k < |work| ==> HasId(p, work[k].at))
    && (forall k :: 0 <= k < |work| && work[k].tmp !in done ==> work[k].at in at)
    && (forall i, r :: 0 <= i < |p| && r in done && Mentions(p[i], r) ==> Done(work, p[i].id, r))
    && (forall id :: id in at ==> Done(work, id, tmp))
  }

  lemma DoneMore(work: seq<Job>, job: Job, at: nat, r: Register)
    requires Done(work, at, r) || (job.at == at && job.tmp == r)
    ensures Done(work + [job], at, r)
  {
    if Done(work, at, r) {
      var k :| 0 <= k < |work| && work[k].at == at && work[k].tmp == r;
      assert (work + [job])[k] == work[k];
    } else {
      assert (work + [job])[|work|] == job;
    }
  }

  lemma RewritingNext(p: Program, slot: nat, q: Program, work: seq<Job>, temps: nat, ids: nat, done: set<Register>, tmp: Register, at: set<nat>, job: Job)
    requires Rewriting(p, slot, q, work, temps, ids, done, tmp, at) && UniqueIds(p) && HasId(p, job.at)
    requires tmp !in done && job.at !in at
    requires job == Job(job.at, tmp, Virtual(temps + |work|), ids + 2 * |work|, ids + 2 * |work| + 1)
    ensures HasId(q, job.at) && IndexOf(q, job.at) < |q|
    ensures var r := Inserted(slot, q, IndexOf(q, job.at), job);
      IdsBelow(r, ids + 2 * |work| + 2) ==> Rewriting(p, slot, r, work + [job], temps, ids, done, tmp, at + {job.at})
  {
    hide Done, Inserted, Expand, UniqueIds, Mentions;
    ExpandMore(p, slot, work, job, ids);
    OrderlyMore(work, job, done, tmp, at);
    DoneAllMore(p, work, job, done, tmp, at);
    hide Orderly;
  }

  lemma DoneAllMore(p: Program, work: seq<Job>, job: Job, done: set<Register>, tmp: Register, at: set<nat>)
    requires forall i, r :: 0 <= i < |p| && r in done && Mentions(p[i], r) ==> Done(work, p[i].id, r)
    requires job.tmp == tmp && forall id :: id in at ==> Done(work, id, tmp)
    ensures forall i, r :: 0 <= i < |p| && r in done && Mentions(p[i], r) ==> Done(work + [job], p[i].id, r)
    ensures forall id :: id in at + {job.at} ==> Done(work + [job], id, tmp)
  {
    hide Done;
    forall id, r | Done(work, id, r) || (job.at == id && job.tmp == r)
      ensures Done(work + [job], id, r)
    {
      DoneMore(work, job, id, r);
    }
  }

  lemma ExpandMore(p: Program, slot: nat, work: seq<Job>, job: Job, ids: nat)
    requires UniqueIds(p) && HasId(p, job.at) && IdsBelow(Expand(slot, p, work), ids + 2 * |work|)
    ensures var q := Expand(slot, p, work);
      && HasId(q, job.at) && IndexOf(q, job.at) < |q|
      && Expand(slot, p, work + [job]) == Inserted(slot, q, IndexOf(q, job.at), job)
  {
    var more := work + [job];
    assert more[..|more| - 1] == work;
    var k :| 0 <= k < |p| && p[k].id == job.at;
    hide BlockOf;
    ExpandNext(slot, p, more, k);
    FoundAt(slot, p, work, k);
    BlockInPlace(slot, p, work, k);
    hide Inserted, Expand;
  }

  lemma OrderlyMore(work: seq<Job>, job: Job, done: set<Register>, tmp: Register, at: set<nat>)
    requires Orderly(work, done + {tmp}) && job.tmp == tmp && tmp !in done && job.at !in at
    requires forall k :: 0 <= k < |work| && work[k].tmp !in done ==> work[k].at in at
    ensures Orderly(work + [job], done + {tmp})
  {
  }

  /** No temporary is half done. */
  ghost predicate Rewritten(p: Program, slot: nat, q: Program, work: seq<Job>, temps: nat, ids: nat, done: set<Register>) {
    && q == Expand(slot, p, work)
    && Numbered(work, temps, ids)
    && Orderly(work, done)
    && IdsBelow(q, ids + 2 * |work|)
    && (forall k :: 0 <= k < |work| ==> HasId(p, work[k].at))
    && Complete(p, work, done)
  }

  lemma RewritingStarts(p: Program, slot: nat, q: Program, work: seq<Job>, temps: nat, ids: nat, done: set<Register>, tmp: Register)
    requires Rewritten(p, slot, q, work, temps, ids, done)
    ensures Rewriting(p, slot, q, work, temps, ids, done, tmp, {})
  {
  }

  lemma RewritingEnds(p: Program, slot: nat, q: Program, work: seq<Job>, temps: nat, ids: nat, done: set<Register>, tmp: Register, at: set<nat>)
    requires Rewriting(p, slot, q, work, temps, ids, done, tmp, at) && Occurrences(p, tmp, at)
    ensures Rewritten(p, slot, q, work, temps, ids, done + {tmp})
  {
    hide Done, Expand;
    forall i, r | 0 <= i < |p| && r in done + {tmp} && Mentions(p[i], r)
      ensures Done(work, p[i].id, r)
    {
      assert r !in done ==> p[i].id in at;
    }
  }

  /** Every instruction that mentions `tmp` gets a register of its own for it. */
  method RewriteTemporary(frame: Frame, slot: nat, tmp: Register, at: set<nat>, classOf: Register -> Class,
      ghost p: Program, ghost work0: seq<Job>, ghost temps: nat, ghost ids: nat, ghost done: set<Register>,
      ghost before: map<Register, Class>) returns (ghost work: seq<Job>)
    requires Rewritten(p, slot, frame.instructions, work0, temps, ids, done) && tmp !in done
    requires UniqueIds(p) && Occurrences(p, tmp, at)
    requires frame.nextTemp == temps + |work0| && frame.nextId == ids + 2 * |work0|
    requires Classed(before, frame.classes, work0, classOf)
    modifies frame`instructions, frame`nextTemp, frame`nextId, frame`classes
    ensures Rewritten(p, slot, frame.instructions, work, temps, ids, done + {tmp})
    ensures Classed(before, frame.classes, work, classOf)
    ensures frame.nextTemp == temps + |work| && frame.nextId == ids + 2 * |work|
  {
    hide Expand, Done, UniqueIds, Classed;
    work := work0;
    RewritingStarts(p, slot, frame.instructions, work, temps, ids, done, tmp);
    ghost var seen := {};
    var todo := at;
    while todo != {}
      invariant todo !! seen && todo + seen == at
      invariant frame.nextTemp == temps + |work| && frame.nextId == ids + 2 * |work|
      invariant Rewriting(p, slot, frame.instructions, work, temps, ids, done, tmp, seen)
      invariant Classed(before, frame.classes, work, classOf)
    {
      var id :| id in todo;
      ghost var next := Job(id, tmp, Virtual(temps + |work|), ids + 2 * |work|, ids + 2 * |work| + 1);
      RewritingNext(p, slot, frame.instructions, work, temps, ids, done, tmp, seen, next);
      hide Rewriting, Numbered;
      RewritingIds(p, slot, frame.instructions, work, temps, ids, done, tmp, seen);
      ClassedNext(before, frame.classes, work, classOf, next, temps, ids);
      ghost var job := RewriteOne(frame, slot, id, tmp, classOf(tmp));
      work := work + [job];
      todo, seen := todo - {id}, seen + {id};
    }
    assert seen == at;
    RewritingEnds(p, slot, frame.instructions, work, temps, ids, done, tmp, seen);
  }

  lemma RewritingIds(p: Program, slot: nat, q: Program, work: seq<Job>, temps: nat, ids: nat, done: set<Register>, tmp: Register, at: set<nat>)
    requires Rewriting(p, slot, q, work, temps, ids, done, tmp, at)
    ensures IdsBelow(q, ids + 2 * |work|) && Numbered(work, temps, ids)
  {
  }

  lemma NothingRewritten(p: Program, slot: nat, temps: nat, ids: nat)
    requires IdsBelow(p, ids)
    ensures Rewritten(p, slot, p, [], temps, ids, {})
  {
    NothingDone(slot, p, |p|);
    assert p[..|p|] == p;
  }

  /** Rewrites every instruction that mentions a spilled temporary. */
  method RewriteProgram(frame: Frame, slot: nat, spilled: set<Register>, occurrences: map<Register, set<nat>>, classOf: Register -> Class)
      returns (ghost work: seq<Job>)
    requires IdsBelow(frame.instructions, frame.nextId)
    requires forall r :: r in spilled ==> r in occurrences && Occurrences(frame.instructions, r, occurrences[r])
    modifies frame`instructions, frame`nextTemp, frame`nextId, frame`classes
    ensures Rewritten(old(frame.instructions), slot, frame.instructions, work, old(frame.nextTemp), old(frame.nextId), spilled)
    ensures Classed(old(frame.classes), frame.classes, work, classOf)
    ensures frame.nextTemp == old(frame.nextTemp) + |work| && frame.nextId == old(frame.nextId) + 2 * |work|
  {
    ghost var p, temps, ids := frame.instructions, frame.nextTemp, frame.nextId;
    work := [];
    NothingRewritten(p, slot, temps, ids);
    ghost var done: set<Register> := {};
    var todo := spilled;
    hide Rewritten, Occurrences;
    while todo != {}
      invariant todo !! done && todo + done == spilled
      invariant frame.nextTemp == temps + |work| && frame.nextId == ids + 2 * |work|
      invariant Rewritten(p, slot, frame.instructions, work, temps, ids, done)
      invariant Classed(old(frame.classes), frame.classes, work, classOf)
    {
      var tmp :| tmp in todo;
      work := RewriteTemporary(frame, slot, tmp, occurrences[tmp], classOf, p, work, temps, ids, done, old(frame.classes));
      todo, done := todo - {tmp}, done + {tmp};
    }
    assert done == spilled;
  }
}
