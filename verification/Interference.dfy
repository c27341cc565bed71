/**
  The interference graph of a function, built from the liveness of its
  instructions.
 */
module Interference {
  import opened MachineCode
  import opened FlowGraphs
  import Dataflow
  import opened Recoloring
  import opened Graphs

  /** What liveness analysis has found for every instruction. */
  ghost predicate Liveness(p: Program, liveIn: Dataflow.Flow, liveOut: Dataflow.Flow) {
    forall i :: 0 <= i < |p| ==>
      && i in liveIn && i in liveOut
      && (forall r :: r in liveIn[i] <==> Live(p, i, r))
      && (forall r :: r in liveOut[i] <==> LiveAfter(p, i, r))
  }

  /** `a` is made to interfere with the registers in `s`. */
  predicate Joins(a: Node, s: set<Node>, x: Node, y: Node) {
    x != y && ((x == a && y in s) || (y == a && x in s))
  }

  /** The registers in `done` are made to interfere with those in `s`. */
  predicate JoinsAny(done: set<Node>, s: set<Node>, x: Node, y: Node) {
    x != y && ((x in done && y in s) || (y in done && x in s))
  }

  predicate Edge(g: Graph, x: Node, y: Node) {
    x in g.adj && y in g.adj[x]
  }

  ghost predicate InterfereBefore(p: Program, k: nat, a: Register, b: Register)
    requires k <= |p|
  {
    a != b && exists i :: 0 <= i < k && InterfereAt(p, i, a, b)
  }

  /** Instruction `i` defines `r`, or a way from behind it leads to a use of `r` before any definition. */
  ghost predicate Wanted(p: Program, i: nat, r: Register)
    requires i < |p|
  {
    r in p[i].Kill() || exists way: seq<nat> :: WayToUse(p, way, r) && way[0] in CfgSucc(p, i)
  }

  lemma WantedIs(p: Program, i: nat, r: Register)
    requires i < |p|
    ensures Wanted(p, i, r) <==> LiveOutOrKilled(p, i, r)
  {
    hide UsedIn;
    forall j | j in CfgSucc(p, i)
      ensures Live(p, j, r) <==> exists way :: WayToUse(p, way, r) && way[0] == j
    {
      LiveWhen(p, j, r);
    }
  }

  /** Registers interfere exactly where both are wanted behind one instruction, or one is that this
      instruction clobbers; so an operand that is used for the last time is free for the result. */
  lemma InterfereWhen(p: Program, a: Register, b: Register)
    ensures Interfere(p, a, b) <==>
      a != b && exists i :: 0 <= i < |p| && Meet(p, i, a, b)
  {
    forall i | 0 <= i < |p|
      ensures Meet(p, i, a, b) <==> InterfereAt(p, i, a, b)
    {
      WantedIs(p, i, a);
      WantedIs(p, i, b);
      hide Wanted, LiveOutOrKilled;
    }
    hide Meet, InterfereAt;
  }

  ghost predicate Meet(p: Program, i: nat, a: Register, b: Register)
    requires i < |p|
  {
    || (Wanted(p, i, a) && Wanted(p, i, b))
    || (Wanted(p, i, a) && b in p[i].clobbers)
    || (Wanted(p, i, b) && a in p[i].clobbers)
  }

  lemma InterfereNext(p: Program, k: nat, a: Register, b: Register)
    requires k < |p|
    ensures InterfereBefore(p, k + 1, a, b) <==> InterfereBefore(p, k, a, b) || (a != b && InterfereAt(p, k, a, b))
  {
    if InterfereBefore(p, k + 1, a, b) && !InterfereBefore(p, k, a, b) {
      var i :| 0 <= i < k + 1 && InterfereAt(p, i, a, b);
      assert i == k;
    }
  }

  class InterferenceGraph {
    var graph: Graph
    var tempMap: map<Register, Node>
    var defMap: map<Register, seq<nat>>
    var useMap: map<Register, seq<nat>>

    /** Before anything is combined, every register has its own, unmasked node. */
    ghost predicate Fresh()
      reads this
    {
      && graph.WellFormed()
      && graph.masked == {}
      && tempMap.Keys == graph.nodes
      && forall r :: r in tempMap ==> tempMap[r] == r
    }

    constructor ()
      ensures Fresh() && graph == Graph({}, {}, map[]) && defMap == map[] && useMap == map[]
    {
      graph := Graph({}, {}, map[]);
      tempMap, defMap, useMap := map[], map[], map[];
    }

    method GetNode(r: Register) returns (n: Node)
      requires Fresh()
      modifies this`graph, this`tempMap
      ensures Fresh() && n == r
      ensures graph.nodes == old(graph.nodes) + {r}
      ensures forall x, y :: Edge(graph, x, y) <==> old(Edge(graph, x, y))
    {
      AddNodeWellFormed(graph, r);
      if r in tempMap {
        n := tempMap[r];
      } else {
        n := r;
        graph := graph.AddNode(n);
        tempMap := tempMap[r := n];
      }
    }

    /** Edges from `n` to the node of every register in `s`. */
    method AddEdges(n: Node, s: set<Register>)
      requires Fresh() && n in graph.nodes
      modifies this`graph, this`tempMap
      ensures Fresh() && graph.nodes == old(graph.nodes) + s
      ensures forall x, y :: Edge(graph, x, y) <==> old(Edge(graph, x, y)) || Joins(n, s, x, y)
    {
      ghost var done := {};
      var todo := s;
      while todo != {}
        invariant todo !! done && todo + done == s
        invariant Fresh() && graph.nodes == old(graph.nodes) + done
        invariant forall x, y :: Edge(graph, x, y) <==> old(Edge(graph, x, y)) || Joins(n, done, x, y)
      {
        var t :| t in todo;
        todo, done := todo - {t}, done + {t};
        var m := GetNode(t);
        AddEdgeWellFormed(graph, n, m);
        EdgeAdded(graph, n, m);
        graph := graph.AddEdge(n, m);
      }
    }

    method GetNodes(s: set<Register>)
      requires Fresh()
      modifies this`graph, this`tempMap
      ensures Fresh() && graph.nodes == old(graph.nodes) + s
      ensures forall x, y :: Edge(graph, x, y) <==> old(Edge(graph, x, y))
    {
      hide Edge;
      ghost var done := {};
      var todo := s;
      while todo != {}
        invariant todo !! done && todo + done == s
        invariant Fresh() && graph.nodes == old(graph.nodes) + done
        invariant forall x, y :: Edge(graph, x, y) <==> old(Edge(graph, x, y))
      {
        var t :| t in todo;
        todo, done := todo - {t}, done + {t};
        var _ := GetNode(t);
      }
    }

    /** Edges between all registers of `s`, and from each of them to the clobbered ones. */
    method Connect(s: set<Register>, clobbers: set<Register>)
      requires Fresh()
      modifies this`graph, this`tempMap
      ensures Fresh() && old(graph.nodes) + s <= graph.nodes <= old(graph.nodes) + s + clobbers
      ensures forall x, y {:trigger Edge(graph, x, y)} :: Edge(graph, x, y) <==>
        old(Edge(graph, x, y)) || JoinsAny(s, s + clobbers, x, y)
    {
      hide Edge;
      ghost var done := {};
      var todo := s;
      while todo != {}
        invariant todo !! done && todo + done == s
        invariant Fresh() && old(graph.nodes) + done <= graph.nodes <= old(graph.nodes) + s + clobbers
        invariant forall x, y {:trigger Edge(graph, x, y)} :: Edge(graph, x, y) <==>
          old(Edge(graph, x, y)) || JoinsAny(done, s + clobbers, x, y)
      {
        var t :| t in todo;
        JoinsNext(done, s, clobbers, t);
        todo, done := todo - {t}, done + {t};
        hide JoinsAny, Joins;
        var n := GetNode(t);
        AddEdges(n, s - {t});
        AddEdges(n, clobbers);
      }
      assert done == s;
    }

    /** `_def_map` or `_use_map`: one more occurrence for every register in `rs`. */
    static method Record(m: map<Register, seq<nat>>, id: nat, rs: seq<Register>) returns (n: map<Register, seq<nat>>)
      ensures forall r :: Occurrences(n, r) == Occurrences(m, r) + Copies(id, rs, r)
    {
      hide Copies;
      n := m;
      NoCopies(id, m);
      assert rs[..0] == [];
      for k := 0 to |rs|
        invariant forall r :: Occurrences(n, r) == Occurrences(m, r) + Copies(id, rs[..k], r)
      {
        ghost var before := n;
        n := n[rs[k] := Occurrences(n, rs[k]) + [id]];
        forall r
          ensures Occurrences(n, r) == Occurrences(m, r) + Copies(id, rs[..k + 1], r)
        {
          OneMoreCopy(id, rs, k, r);
          assert Occurrences(before, r) == Occurrences(m, r) + Copies(id, rs[..k], r);
        }
      }
      assert rs[..|rs|] == rs;
    }

    method AddInstruction(p: Program, i: nat, liveIn: set<Register>, liveOut: set<Register>)
      requires Fresh() && i < |p|
      modifies this
      ensures Fresh()
      ensures old(graph.nodes) + liveIn + liveOut + p[i].Kill() <= graph.nodes
      ensures graph.nodes <= old(graph.nodes) + liveIn + liveOut + p[i].Kill() + p[i].clobbers
      ensures forall x, y {:trigger Edge(graph, x, y)} :: Edge(graph, x, y) <==>
        old(Edge(graph, x, y)) || JoinsAny(liveOut + p[i].Kill(), liveOut + p[i].Kill() + p[i].clobbers, x, y)
      ensures forall r :: Occurrences(defMap, r) == old(Occurrences(defMap, r)) + Copies(p[i].id, p[i].Defined(), r)
      ensures forall r :: Occurrences(useMap, r) == old(Occurrences(useMap, r)) + Copies(p[i].id, p[i].Used(), r)
    {
      hide Edge, JoinsAny, Copies;
      GetNodes(liveIn);
      Connect(liveOut + p[i].Kill(), p[i].clobbers);
      defMap := Record(defMap, p[i].id, p[i].Defined());
      useMap := Record(useMap, p[i].id, p[i].Used());
    }

    /** An edge for every pair of registers that interfere, and no other; a node for every
        register that occurs; and where each register is used and defined. */
    method CalculateInterference(p: Program, liveIn: Dataflow.Flow, liveOut: Dataflow.Flow)
      requires Fresh() && graph.nodes == {} && defMap == map[] && useMap == map[] && Liveness(p, liveIn, liveOut)
      modifies this
      ensures Fresh()
      ensures forall i, r :: 0 <= i < |p| && (Live(p, i, r) || LiveOutOrKilled(p, i, r)) ==> r in graph.nodes
      ensures forall r :: r in graph.nodes ==> Occurs(p, |p|, r)
      ensures forall a, b :: Edge(graph, a, b) <==> Interfere(p, a, b)
      ensures UsesRecorded(p, |p|, useMap) && DefsRecorded(p, |p|, defMap)
      ensures Counted(p, |p|, useMap, defMap)
    {
      hide Copies;
      assert forall a, b :: !Edge(graph, a, b);
      for i := 0 to |p|
        invariant Fresh()
        invariant forall k, r :: 0 <= k < i && (Live(p, k, r) || LiveOutOrKilled(p, k, r)) ==> r in graph.nodes
        invariant forall r :: r in graph.nodes ==> Occurs(p, i, r)
        invariant forall a, b :: Edge(graph, a, b) <==> InterfereBefore(p, i, a, b)
        invariant UsesRecorded(p, i, useMap) && DefsRecorded(p, i, defMap)
        invariant Counted(p, i, useMap, defMap)
      {
        ghost var g, uses, defs := graph, useMap, defMap;
        hide InterfereBefore, UsesRecorded, DefsRecorded, Edge, Occurs, JoinsAny, Counted;
        AddInstruction(p, i, liveIn[i], liveOut[i]);
        EdgesNext(p, i, liveOut[i], g, graph);
        OccursNext(p, i);
        UsesNext(p, i, uses, useMap);
        DefsNext(p, i, defs, defMap);
        CountedNext(p, i, uses, defs, useMap, defMap);
      }
    }
  }

  /** `r` is live, defined or clobbered somewhere before `k`. */
  ghost predicate Occurs(p: Program, k: nat, r: Register)
    requires k <= |p|
  {
    exists i :: 0 <= i < k && (Live(p, i, r) || LiveOutOrKilled(p, i, r) || r in p[i].clobbers)
  }

  lemma OccursNext(p: Program, k: nat)
    requires k < |p|
    ensures forall r :: Occurs(p, k, r) ==> Occurs(p, k + 1, r)
    ensures forall r :: Live(p, k, r) || LiveOutOrKilled(p, k, r) || r in p[k].clobbers ==> Occurs(p, k + 1, r)
  {
    hide Live, LiveOutOrKilled;
  }

  /** `useMap` lists the instructions before `k` that use a register. */
  ghost predicate UsesRecorded(p: Program, k: nat, m: map<Register, seq<nat>>)
    requires k <= |p|
  {
    forall r, id :: id in Occurrences(m, r) <==> UsedBefore(p, k, r, id)
  }

  predicate UsedBefore(p: Program, k: nat, r: Register, id: nat)
    requires k <= |p|
  {
    exists i :: 0 <= i < k && p[i].id == id && r in p[i].Used()
  }

  ghost predicate DefsRecorded(p: Program, k: nat, m: map<Register, seq<nat>>)
    requires k <= |p|
  {
    forall r, id :: id in Occurrences(m, r) <==> DefinedBefore(p, k, r, id)
  }

  predicate DefinedBefore(p: Program, k: nat, r: Register, id: nat)
    requires k <= |p|
  {
    exists i :: 0 <= i < k && p[i].id == id && r in p[i].Defined()
  }

  lemma UsesNext(p: Program, k: nat, before: map<Register, seq<nat>>, after: map<Register, seq<nat>>)
    requires k < |p| && UsesRecorded(p, k, before)
    requires forall r :: Occurrences(after, r) == Occurrences(before, r) + Copies(p[k].id, p[k].Used(), r)
    ensures UsesRecorded(p, k + 1, after)
  {
    forall r, id
      ensures id in Occurrences(after, r) <==> UsedBefore(p, k + 1, r, id)
    {
      assert id in Occurrences(after, r) <==> id in Occurrences(before, r) || id in Copies(p[k].id, p[k].Used(), r);
      assert id in Copies(p[k].id, p[k].Used(), r) <==> id == p[k].id && r in p[k].Used();
      hide Occurrences, Copies;
      assert UsedBefore(p, k + 1, r, id) <==> UsedBefore(p, k, r, id) || (id == p[k].id && r in p[k].Used());
    }
  }

  lemma DefsNext(p: Program, k: nat, before: map<Register, seq<nat>>, after: map<Register, seq<nat>>)
    requires k < |p| && DefsRecorded(p, k, before)
    requires forall r :: Occurrences(after, r) == Occurrences(before, r) + Copies(p[k].id, p[k].Defined(), r)
    ensures DefsRecorded(p, k + 1, after)
  {
    forall r, id
      ensures id in Occurrences(after, r) <==> DefinedBefore(p, k + 1, r, id)
    {
      assert id in Occurrences(after, r) <==> id in Occurrences(before, r) || id in Copies(p[k].id, p[k].Defined(), r);
      assert id in Copies(p[k].id, p[k].Defined(), r) <==> id == p[k].id && r in p[k].Defined();
      hide Occurrences, Copies;
      assert DefinedBefore(p, k + 1, r, id) <==> DefinedBefore(p, k, r, id) || (id == p[k].id && r in p[k].Defined());
    }
  }

  /** How often the first `k` instructions have `r` as an operand. */
  function TimesUsed(p: Program, k: nat, r: Register): nat
    requires k <= |p|
  {
    if k == 0 then 0 else TimesUsed(p, k - 1, r) + multiset(p[k - 1].Used())[r] + multiset(p[k - 1].Defined())[r]
  }

  ghost predicate Counted(p: Program, k: nat, uses: map<Register, seq<nat>>, defs: map<Register, seq<nat>>)
    requires k <= |p|
  {
    forall r :: |Occurrences(uses, r)| + |Occurrences(defs, r)| == TimesUsed(p, k, r)
  }

  lemma {:induction false} CopiesCount(id: nat, rs: seq<Register>, r: Register)
    ensures |Copies(id, rs, r)| == multiset(rs)[r]
  {
    if rs != [] {
      CopiesCount(id, rs[..|rs| - 1], r);
      assert rs == rs[..|rs| - 1] + [rs[|rs| - 1]];
    }
  }

  lemma CountedNext(p: Program, k: nat, uses: map<Register, seq<nat>>, defs: map<Register, seq<nat>>,
                    uses': map<Register, seq<nat>>, defs': map<Register, seq<nat>>)
    requires k < |p| && Counted(p, k, uses, defs)
    requires forall r :: Occurrences(uses', r) == Occurrences(uses, r) + Copies(p[k].id, p[k].Used(), r)
    requires forall r :: Occurrences(defs', r) == Occurrences(defs, r) + Copies(p[k].id, p[k].Defined(), r)
    ensures Counted(p, k + 1, uses', defs')
  {
    forall r
      ensures |Occurrences(uses', r)| + |Occurrences(defs', r)| == TimesUsed(p, k + 1, r)
    {
      CopiesCount(p[k].id, p[k].Used(), r);
      CopiesCount(p[k].id, p[k].Defined(), r);
      assert |Occurrences(uses, r)| + |Occurrences(defs, r)| == TimesUsed(p, k, r);
      hide Occurrences, Copies, Counted;
    }
  }

  lemma JoinsNext(done: set<Node>, s: set<Node>, clobbers: set<Node>, t: Node)
    requires t in s
    ensures forall x, y {:trigger JoinsAny(done + {t}, s + clobbers, x, y)} :: JoinsAny(done + {t}, s + clobbers, x, y) <==>
      JoinsAny(done, s + clobbers, x, y) || Joins(t, s - {t}, x, y) || Joins(t, clobbers, x, y)
  {
  }

  lemma EdgeAdded(g: Graph, n: Node, m: Node)
    requires n in g.adj && m in g.adj
    ensures forall x, y :: Edge(g.AddEdge(n, m), x, y) <==> Edge(g, x, y) || Joins(n, {m}, x, y)
  {
  }

  lemma EdgesNext(p: Program, i: nat, liveOut: set<Register>, g: Graph, h: Graph)
    requires i < |p| && forall r :: r in liveOut <==> LiveAfter(p, i, r)
    requires forall a, b :: Edge(g, a, b) <==> InterfereBefore(p, i, a, b)
    requires forall x, y {:trigger Edge(h, x, y)} :: Edge(h, x, y) <==>
        Edge(g, x, y) || JoinsAny(liveOut + p[i].Kill(), liveOut + p[i].Kill() + p[i].clobbers, x, y)
    ensures forall a, b :: Edge(h, a, b) <==> InterfereBefore(p, i + 1, a, b)
  {
    hide InterfereBefore, Edge;
    forall a, b
      ensures Edge(h, a, b) <==> InterfereBefore(p, i + 1, a, b)
    {
      InterfereNext(p, i, a, b);
      hide LiveAfter;
      assert JoinsAny(liveOut + p[i].Kill(), liveOut + p[i].Kill() + p[i].clobbers, a, b) <==> a != b && InterfereAt(p, i, a, b);
    }
  }

  /** The entry of a register in a `defaultdict(list)`. */
  function Occurrences(m: map<Register, seq<nat>>, r: Register): seq<nat> {
    if r in m then m[r] else []
  }

  lemma NoCopies(i: nat, m: map<Register, seq<nat>>)
    ensures forall r :: Occurrences(m, r) == Occurrences(m, r) + Copies(i, [], r)
  {
  }

  lemma OneMoreCopy(i: nat, rs: seq<Register>, k: nat, r: Register)
    requires k < |rs|
    ensures Copies(i, rs[..k + 1], r) == Copies(i, rs[..k], r) + (if rs[k] == r then [i] else [])
  {
    assert rs[..k + 1][..k] == rs[..k];
  }

  /** `i`, once for every time `r` is in `rs`. */
  function Copies(i: nat, rs: seq<Register>, r: Register): (s: seq<nat>)
    ensures r in rs <==> i in s
    ensures forall k :: k in s ==> k == i
  {
    if rs == [] then [] else Copies(i, rs[..|rs| - 1], r) + (if rs[|rs| - 1] == r then [i] else [])
  }
}
