/**
  The peephole stream: a window of two items moves over the code, and a jump is
  dropped when the item after it has the same effect.
 */
module Peephole {
  import opened Basics

  type Name = string

  /** Labels and plain jumps say that they set the program counter to a name; other code says nothing. */
  datatype Item =
    | Label(name: Name)
    | Jump(target: Name)
    | Plain(code: nat)
    | Branch(code: nat, target: Name)

  function Effect(i: Item): Option<Name> {
    match i
    case Label(name) => Some(name)
    case Jump(target) => Some(target)
    case _ => None
  }

  predicate Redundant(a: Item, b: Item) {
    Effect(a).Some? && Effect(a) == Effect(b) && !a.Label?
  }

  /** Whether the item at k is dropped. */
  predicate Dropped(code: seq<Item>, k: nat)
    requires k < |code|
  {
    k + 1 < |code| && Redundant(code[k], code[k + 1])
  }

  /** The first n items without those that are dropped. */
  function Filtered(code: seq<Item>, n: nat): seq<Item>
    requires n <= |code|
  {
    if n == 0 then [] else Filtered(code, n - 1) + (if Dropped(code, n - 1) then [] else [code[n - 1]])
  }

  lemma {:induction false} FilteredIsKept(code: seq<Item>, next: Item, n: nat)
    requires n < |code|
    ensures Filtered(code + [next], n) == Filtered(code, n)
  {
    if n > 0 {
      FilteredIsKept(code, next, n - 1);
    }
  }

  lemma OneMoreItem(code: seq<Item>, k: nat)
    requires k < |code|
    ensures Filtered(code, k + 1) == Filtered(code, k) + (if Dropped(code, k) then [] else [code[k]])
  {
  }

  /** One more item settles what becomes of the one before it. */
  lemma FilteredNext(code: seq<Item>, next: Item)
    requires code != []
    ensures
      var n := |code|;
      && Filtered(code, n) == Filtered(code, n - 1) + [code[n - 1]]
      && (Redundant(code[n - 1], next) ==> Filtered(code + [next], n + 1) == Filtered(code, n - 1) + [next])
      && (!Redundant(code[n - 1], next) ==> Filtered(code + [next], n + 1) == Filtered(code, n - 1) + [code[n - 1], next])
  {
    hide Redundant;
    var n, more := |code|, code + [next];
    FilteredIsKept(code, next, n - 1);
    assert more[n - 1] == code[n - 1] && more[n] == next;
    assert !Dropped(code, n - 1) && !Dropped(more, n);
    OneMoreItem(code, n - 1);
    OneMoreItem(more, n - 1);
    OneMoreItem(more, n);
    var f := Filtered(code, n - 1);
    assert f + [] + [next] == f + [next] && f + [code[n - 1]] + [next] == f + [code[n - 1], next];
  }

  /** ----- what is left ----- */

  /** No jump stands right before its label, or before a jump to the same one. */
  ghost predicate NoIdleJump(code: seq<Item>) {
    forall k {:trigger code[k]} :: 0 <= k && k + 1 < |code| && code[k].Jump? ==>
      code[k + 1] != Label(code[k].target) && code[k + 1] != Jump(code[k].target)
  }

  /** Labels, plain code and branches, in order. */
  function NoJumps(code: seq<Item>): seq<Item> {
    if code == [] then [] else
      NoJumps(code[..|code| - 1]) + (if code[|code| - 1].Jump? then [] else [code[|code| - 1]])
  }

  lemma NoJumpsNext(code: seq<Item>, item: Item)
    ensures NoJumps(code + [item]) == NoJumps(code) + (if item.Jump? then [] else [item])
  {
    assert (code + [item])[..|code|] == code;
  }

  lemma {:induction false} OnlyJumpsGo(code: seq<Item>, n: nat)
    requires n <= |code|
    ensures NoJumps(Filtered(code, n)) == NoJumps(code[..n])
  {
    if n > 0 {
      OnlyJumpsGo(code, n - 1);
      assert code[..n] == code[..n - 1] + [code[n - 1]];
      NoJumpsNext(code[..n - 1], code[n - 1]);
      NoJumpsNext(Filtered(code, n - 1), code[n - 1]);
      OneMoreItem(code, n - 1);
      assert Filtered(code, n - 1) + [] == Filtered(code, n - 1) && NoJumps(code[..n - 1]) + [] == NoJumps(code[..n - 1]);
    }
  }

  /** Of the last item that is kept, and the one behind it. */
  ghost predicate SettledBefore(code: seq<Item>, n: nat)
    requires n <= |code|
  {
    var out := Filtered(code, n);
    out != [] && n < |code| && out[|out| - 1].Jump? ==>
      code[n] != Label(out[|out| - 1].target) && code[n] != Jump(out[|out| - 1].target)
  }

  lemma {:induction false} NoIdleJumpIsLeft(code: seq<Item>, n: nat)
    requires n <= |code|
    ensures NoIdleJump(Filtered(code, n)) && SettledBefore(code, n)
  {
    if n > 0 {
      NoIdleJumpIsLeft(code, n - 1);
      var before, out := Filtered(code, n - 1), Filtered(code, n);
      if !Dropped(code, n - 1) {
        forall k {:trigger out[k]} | 0 <= k && k + 1 < |out| && out[k].Jump?
          ensures out[k + 1] != Label(out[k].target) && out[k + 1] != Jump(out[k].target)
        {
          assert out[k] == before[k];
        }
      }
    }
  }

  /** The stream does what it is there for: all idle jumps are gone, and nothing but jumps. */
  lemma IdleJumpsAreGone(code: seq<Item>)
    ensures NoIdleJump(Filtered(code, |code|)) && NoJumps(Filtered(code, |code|)) == NoJumps(code)
  {
    NoIdleJumpIsLeft(code, |code|);
    OnlyJumpsGo(code, |code|);
    assert code[..|code|] == code;
  }

  lemma FirstItem(item: Item)
    ensures Filtered([], 0) == [] && Filtered([item], 1) == [item]
  {
  }

  /** What the window shows once an item has been put behind it and it has been cut to two. */
  lemma OneMoreInWindow(passed: seq<Item>, code: seq<Item>, d: seq<Item>, w: seq<Item>, item: Item, d': seq<Item>, w': seq<Item>)
    requires |w| <= 2 && (w == [] <==> code == []) && d + w == passed + Filtered(code, |code|)
    requires d' + w' == d + w + [item] && |w'| == if |w| == 0 then 1 else 2
    ensures var rest := if |w'| == 2 && Redundant(w'[0], w'[1]) then [w'[1]] else w';
      |w'| <= 2 && d' + rest == passed + Filtered(code + [item], |code| + 1)
    ensures |w'| == 2 ==> w'[1..] == [w'[1]]
  {
    hide Redundant, Dropped, Filtered;
    if code == [] {
      FirstItem(item);
      assert code + [item] == [item] && passed + [] == passed;
    } else {
      NextInWindow(passed, code, item);
      var n := |code|;
      SameTwo(d', w', passed + Filtered(code, n - 1), code[n - 1], item);
    }
  }

  lemma NextInWindow(passed: seq<Item>, code: seq<Item>, item: Item)
    requires code != []
    ensures var n := |code|; var pre, last := passed + Filtered(code, n - 1), code[n - 1];
      && passed + Filtered(code, n) + [item] == pre + [last, item]
      && (Redundant(last, item) ==> passed + Filtered(code + [item], n + 1) == pre + [item])
      && (!Redundant(last, item) ==> passed + Filtered(code + [item], n + 1) == pre + [last, item])
  {
    hide Redundant, Dropped, Filtered;
    var n := |code|;
    var f, last := Filtered(code, n - 1), code[n - 1];
    FilteredNext(code, item);
    Regroup(passed, f, last, item);
  }

  lemma Regroup(p: seq<Item>, f: seq<Item>, x: Item, y: Item)
    ensures p + (f + [x]) + [y] == p + f + [x, y]
    ensures p + (f + [x, y]) == p + f + [x, y]
    ensures p + (f + [y]) == p + f + [y]
  {
  }

  lemma SameTwo(a: seq<Item>, w: seq<Item>, b: seq<Item>, x: Item, y: Item)
    requires a + w == b + [x, y] && |w| == 2
    ensures a == b && w == [x, y]
  {
    assert (a + w)[..|a|] == a && (a + w)[|a|..] == w;
    assert (b + [x, y])[..|b|] == b && (b + [x, y])[|b|..] == [x, y];
  }

  class PeepHoleStream {
    var window: seq<Item>
    var downstream: seq<Item>
    ghost var passed: seq<Item>
    ghost var emitted: seq<Item>

    constructor ()
      ensures Valid() && emitted == [] && downstream == []
    {
      window, downstream, passed, emitted := [], [], [], [];
    }

    /** What was passed on since the last flush, with the window, is what came in without what is dropped. */
    ghost predicate Valid()
      reads this
    {
      && |window| <= 2 && (window == [] <==> emitted == [])
      && downstream + window == passed + Filtered(emitted, |emitted|)
    }

    method Emit(item: Item)
      requires Valid()
      modifies this
      ensures Valid() && emitted == old(emitted) + [item] && passed == old(passed)
    {
      ghost var before, d, w := emitted, downstream, window;
      emitted := emitted + [item];
      window := window + [item];
      assert d + (w + [item]) == d + w + [item];
      ClipWindow(2);
      OneMoreInWindow(passed, before, d, w, item, downstream, window);
      hide Filtered;
      if |window| == 2 {
        var a, b := window[0], window[1];
        if Effect(a).Some? && Effect(b).Some? && Effect(a) == Effect(b) && !a.Label? {
          window := window[1..];
        }
      }
    }

    /** Passes items on until that many are left. */
    method ClipWindow(size: nat)
      modifies this`window, this`downstream
      ensures downstream + window == old(downstream + window)
      ensures |window| == if |old(window)| <= size then |old(window)| else size
    {
      while |window| > size
        invariant downstream + window == old(downstream + window)
        invariant |window| <= |old(window)| && (|old(window)| > size ==> |window| >= size) && (|old(window)| <= size ==> window == old(window))
      {
        var item := window[0];
        window := window[1..];
        downstream := downstream + [item];
      }
    }

    /** All that came in since the last flush has been passed on, but for what is dropped. */
    method Flush()
      requires Valid()
      modifies this
      ensures Valid() && emitted == [] && window == []
      ensures downstream == old(passed) + Filtered(old(emitted), |old(emitted)|)
      ensures passed == downstream && old(passed) <= downstream
      ensures var out := downstream[|old(passed)|..]; NoIdleJump(out) && NoJumps(out) == NoJumps(old(emitted))
    {
      IdleJumpsAreGone(emitted);
      ClipWindow(0);
      passed, emitted := downstream, [];
    }
  }

  /** ----- running code ----- */

  datatype Where = At(pc: nat) | Gone(name: Name)

  /** Where control is, and the code that has been executed: labels and jumps do not show. */
  datatype Run = Run(at: Where, trace: seq<Item>)

  /** What makes a branch go one way or the other depends on what was executed. */
  type Taken = seq<Item> -> bool

  function Find(code: seq<Item>, name: Name, n: nat): Option<nat>
    requires n <= |code|
  {
    if n == 0 then None else if code[n - 1] == Label(name) then Some(n - 1) else Find(code, name, n - 1)
  }

  /** A name without a label is somewhere else. */
  function Goto(code: seq<Item>, name: Name): Where {
    var r := Find(code, name, |code|);
    if r.Some? then At(r.value) else Gone(name)
  }

  function Step(code: seq<Item>, taken: Taken, r: Run): Run {
    if r.at.Gone? || r.at.pc >= |code| then r else
    var item := code[r.at.pc];
    match item
    case Label(_) => Run(At(r.at.pc + 1), r.trace)
    case Jump(target) => Run(Goto(code, target), r.trace)
    case Plain(_) => Run(At(r.at.pc + 1), r.trace + [item])
    case Branch(_, target) => Run(if taken(r.trace + [item]) then Goto(code, target) else At(r.at.pc + 1), r.trace + [item])
  }

  function Steps(code: seq<Item>, taken: Taken, r: Run, n: nat): Run {
    if n == 0 then r else Step(code, taken, Steps(code, taken, r, n - 1))
  }

  function Optimised(code: seq<Item>): seq<Item> {
    Filtered(code, |code|)
  }

  /** Where an item, or the one that stands in for it, has moved to. */
  function Moved(code: seq<Item>, n: nat): nat
    requires n <= |code|
  {
    |Filtered(code, n)|
  }

  ghost predicate LabelsUnique(code: seq<Item>) {
    forall i, j :: 0 <= i < j < |code| && code[i].Label? ==> code[i] != code[j]
  }

  /** Both runs have executed the same code, and are at the same place. */
  predicate Same(code: seq<Item>, a: Run, b: Run) {
    && a.trace == b.trace
    && (if a.at.Gone? then b.at == a.at else a.at.pc <= |code| && b.at == At(Moved(code, a.at.pc)))
  }

  lemma {:induction false} FilteredPrefix(code: seq<Item>, k: nat, n: nat)
    requires k <= n <= |code|
    ensures Filtered(code, k) <= Filtered(code, n)
  {
    if k < n {
      FilteredPrefix(code, k, n - 1);
    }
  }

  lemma KeptIsMoved(code: seq<Item>, k: nat)
    requires k < |code| && !Dropped(code, k)
    ensures Moved(code, k) < |Optimised(code)| && Optimised(code)[Moved(code, k)] == code[k]
    ensures Moved(code, k + 1) == Moved(code, k) + 1
  {
    FilteredPrefix(code, k + 1, |code|);
  }

  lemma EndIsMoved(code: seq<Item>, k: nat)
    requires k <= |code|
    ensures Moved(code, k) <= |Optimised(code)|
    ensures Moved(code, k) == |Optimised(code)| <==> k == |code|
  {
    FilteredPrefix(code, k, |code|);
    if k < |code| {
      FilteredPrefix(code, k, |code| - 1);
    }
  }

  /** After items that are dropped comes one that is kept, with the same effect. */
  lemma {:induction false} Landing(code: seq<Item>, k: nat) returns (j: nat)
    requires k < |code| && Dropped(code, k)
    ensures k < j < |code| && !Dropped(code, j) && Moved(code, j) == Moved(code, k)
    ensures code[k].Jump? && Effect(code[j]) == Some(code[k].target)
    decreases |code| - k
  {
    if Dropped(code, k + 1) {
      j := Landing(code, k + 1);
    } else {
      j := k + 1;
    }
  }

  lemma {:induction false} Found(code: seq<Item>, name: Name, n: nat)
    requires n <= |code|
    ensures Find(code, name, n).Some? ==> Find(code, name, n).value < n && code[Find(code, name, n).value] == Label(name)
    ensures Find(code, name, n).None? ==> forall k :: 0 <= k < n ==> code[k] != Label(name)
  {
    if n > 0 {
      Found(code, name, n - 1);
    }
  }

  lemma FoundAt(code: seq<Item>, k: nat)
    requires LabelsUnique(code) && k < |code| && code[k].Label?
    ensures Goto(code, code[k].name) == At(k)
  {
    Found(code, code[k].name, |code|);
  }

  /** A name is found at the place to which its label has moved. */
  lemma {:induction false} FindMoved(code: seq<Item>, name: Name, n: nat)
    requires n <= |code|
    ensures Find(Filtered(code, n), name, Moved(code, n)) ==
      var r := Find(code, name, n);
      if r.Some? && r.value <= |code| then Some(Moved(code, r.value)) else None
  {
    Found(code, name, n);
    if n > 0 {
      FindMoved(code, name, n - 1);
      OneMoreItem(code, n - 1);
      if Dropped(code, n - 1) {
        assert code[n - 1] != Label(name);
        assert Filtered(code, n) == Filtered(code, n - 1);
      } else {
        assert Filtered(code, n)[Moved(code, n - 1)] == code[n - 1];
        FindInPrefix(Filtered(code, n - 1), code[n - 1], name, Moved(code, n - 1));
      }
    }
  }

  lemma {:induction false} FindInPrefix(a: seq<Item>, next: Item, name: Name, n: nat)
    requires n <= |a|
    ensures Find(a + [next], name, n) == Find(a, name, n)
  {
    if n > 0 {
      FindInPrefix(a, next, name, n - 1);
    }
  }

  lemma GotoMoved(code: seq<Item>, name: Name, trace: seq<Item>)
    ensures Same(code, Run(Goto(code, name), trace), Run(Goto(Optimised(code), name), trace))
  {
    FindMoved(code, name, |code|);
    Found(code, name, |code|);
  }

  /** At an item that is kept both take the same step. */
  lemma KeptStep(code: seq<Item>, taken: Taken, a: Run, b: Run)
    requires Same(code, a, b) && a.at.At? && a.at.pc < |code| && !Dropped(code, a.at.pc)
    ensures Same(code, Step(code, taken, a), Step(Optimised(code), taken, b))
  {
    var k := a.at.pc;
    KeptIsMoved(code, k);
    match code[k]
    case Label(_) =>
    case Jump(target) => GotoMoved(code, target, a.trace);
    case Plain(_) =>
    case Branch(_, target) => GotoMoved(code, target, a.trace + [code[k]]);
  }

  lemma EndStep(code: seq<Item>, taken: Taken, a: Run, b: Run)
    requires Same(code, a, b) && (a.at.Gone? || a.at.pc == |code|)
    ensures Step(code, taken, a) == a && Step(Optimised(code), taken, b) == b
  {
    if a.at.At? {
      EndIsMoved(code, |code|);
    }
  }

  /**
    At a jump that is dropped, the optimised code is at what follows: the label
    that the jump leads to, or a jump that leads to the same place.
   */
  lemma DroppedStep(code: seq<Item>, taken: Taken, a: Run, b: Run) returns (isLabel: bool)
    requires LabelsUnique(code) && Same(code, a, b) && a.at.At? && a.at.pc < |code| && Dropped(code, a.at.pc)
    ensures isLabel ==> Same(code, Step(code, taken, a), b) && Same(code, Steps(code, taken, a, 2), Step(Optimised(code), taken, b))
    ensures !isLabel ==> Same(code, Step(code, taken, a), Step(Optimised(code), taken, b))
  {
    hide LabelsUnique, Find, Dropped;
    var j := Landing(code, a.at.pc);
    var target := code[a.at.pc].target;
    KeptIsMoved(code, j);
    isLabel := code[j].Label?;
    if isLabel {
      FoundAt(code, j);
      assert Step(code, taken, a) == Run(At(j), a.trace);
      assert Steps(code, taken, a, 1) == Step(code, taken, Steps(code, taken, a, 0));
    } else {
      GotoMoved(code, target, a.trace);
    }
  }

  /** Whatever the original code gets to, the optimised code gets to. */
  lemma {:induction false} OptimisedFollows(code: seq<Item>, taken: Taken, n: nat) returns (m: nat)
    requires LabelsUnique(code)
    ensures m <= n
    ensures Same(code, Steps(code, taken, Run(At(0), []), n), Steps(Optimised(code), taken, Run(At(0), []), m))
  {
    hide LabelsUnique, Same, Step, Optimised, Dropped;
    if n == 0 {
      m := 0;
      assert Same(code, Run(At(0), []), Run(At(0), [])) by {
        StartIsSame(code);
      }
    } else {
      m := OptimisedFollows(code, taken, n - 1);
      var a := Steps(code, taken, Run(At(0), []), n - 1);
      var b := Steps(Optimised(code), taken, Run(At(0), []), m);
      if a.at.Gone? || a.at.pc >= |code| {
        PlaceIsInside(code, a, b);
        EndStep(code, taken, a, b);
      } else if Dropped(code, a.at.pc) {
        var isLabel := DroppedStep(code, taken, a, b);
        m := if isLabel then m else m + 1;
      } else {
        KeptStep(code, taken, a, b);
        m := m + 1;
      }
    }
  }

  /** And whatever the optimised code gets to, the original code gets to. */
  lemma {:induction false} OriginalFollows(code: seq<Item>, taken: Taken, m: nat) returns (n: nat)
    requires LabelsUnique(code)
    ensures n <= 2 * m
    ensures Same(code, Steps(code, taken, Run(At(0), []), n), Steps(Optimised(code), taken, Run(At(0), []), m))
  {
    hide LabelsUnique, Same, Step, Optimised, Dropped;
    if m == 0 {
      n := 0;
      assert Same(code, Run(At(0), []), Run(At(0), [])) by {
        StartIsSame(code);
      }
    } else {
      n := OriginalFollows(code, taken, m - 1);
      var a := Steps(code, taken, Run(At(0), []), n);
      var b := Steps(Optimised(code), taken, Run(At(0), []), m - 1);
      if a.at.Gone? || a.at.pc >= |code| {
        PlaceIsInside(code, a, b);
        EndStep(code, taken, a, b);
      } else if Dropped(code, a.at.pc) {
        var isLabel := DroppedStep(code, taken, a, b);
        StepsInTurn(code, taken, Run(At(0), []), n, 2);
        n := if isLabel then n + 2 else n + 1;
      } else {
        KeptStep(code, taken, a, b);
        n := n + 1;
      }
    }
  }

  lemma StartIsSame(code: seq<Item>)
    ensures Same(code, Run(At(0), []), Run(At(0), []))
  {
  }

  lemma PlaceIsInside(code: seq<Item>, a: Run, b: Run)
    requires Same(code, a, b)
    ensures a.at.At? ==> a.at.pc <= |code|
  {
  }

  lemma {:induction false} StepsInTurn(code: seq<Item>, taken: Taken, r: Run, n: nat, m: nat)
    ensures Steps(code, taken, r, n + m) == Steps(code, taken, Steps(code, taken, r, n), m)
  {
    if m > 0 {
      StepsInTurn(code, taken, r, n, m - 1);
    }
  }

  /** Both stop together: the runs are over at the same time. */
  lemma BothStop(code: seq<Item>, a: Run, b: Run)
    requires Same(code, a, b) && a.at.At?
    ensures a.at.pc == |code| <==> b.at.pc == |Optimised(code)|
  {
    EndIsMoved(code, a.at.pc);
  }
}
