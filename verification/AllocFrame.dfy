/**
  Register allocation of a whole function: analyse, colour, spill and start
  over, and finally put the registers in.  What comes out does what went in.
 */
module AllocFrame {
  import opened Arithmetic
  import opened MachineCode
  import opened FlowGraphs
  import opened Machine
  import opened Recoloring
  import opened Graphs
  import opened PqTest
  import opened Coalescing
  import opened ColoringInvariant
  import opened MovesInvariant
  import opened MeaningInvariant
  import opened AllocatorSteps
  import opened AllocatorRuns
  import opened Initialization
  import opened OneClass
  import opened OneClassRuns
  import opened Assignment
  import opened RegisterAllocator
  import opened Spilling
  import opened SpillLayout
  import opened SpillPremises
  import opened Frames
  import opened Rewriter
  import opened Compilability
  import opened SpillChoice
  import Interference
  import Liveness
  import Dataflow

  /** ----- the moves of a program ----- */

  function SourceOf(p: Program, m: Move): Register {
    var k := IndexOf(p, m);
    if k < |p| && p[k].Used() != [] then p[k].Used()[0] else Physical(0)
  }

  function DestinationOf(p: Program, m: Move): Register {
    var k := IndexOf(p, m);
    if k < |p| && p[k].Defined() != [] then p[k].Defined()[0] else Physical(0)
  }

  function ContextOf(t: Target, p: Program): Context {
    Context(t, (m: Move) => SourceOf(p, m), (m: Move) => DestinationOf(p, m))
  }

  predicate IsMove(p: Program, m: Move) {
    exists i :: 0 <= i < |p| && p[i].id == m && p[i].ismove
  }

  method MovesOf(p: Program) returns (ms: seq<Move>)
    ensures forall m :: m in ms <==> IsMove(p, m)
  {
    ms := [];
    for i := 0 to |p|
      invariant forall m :: m in ms <==> exists k :: 0 <= k < i && p[k].id == m && p[k].ismove
    {
      if p[i].ismove {
        ms := ms + [p[i].id];
      }
    }
  }

  lemma MoveEnds(p: Program, i: nat)
    requires UniqueIds(p) && i < |p| && p[i].ismove && p[i].WellFormedMove()
    ensures SourceOf(p, p[i].id) == p[i].Used()[0] && DestinationOf(p, p[i].id) == p[i].Defined()[0]
    ensures p[i].Used()[0] in p[i].Gen() && p[i].Defined()[0] in p[i].Kill()
  {
    IndexOfUnique(p, i);
  }

  /** ----- the interference graph ----- */

  ghost predicate GraphOf(p: Program, g: Graph) {
    && g.WellFormed() && g.masked == {}
    && (forall i, r :: 0 <= i < |p| && (Live(p, i, r) || LiveOutOrKilled(p, i, r)) ==> r in g.nodes)
    && (forall r :: r in g.nodes ==> Interference.Occurs(p, |p|, r))
    && (forall a, b :: Interference.Edge(g, a, b) <==> Interfere(p, a, b))
  }

  function EdgesOf(g: Graph): Pairs {
    set a, b | a in g.adj && b in g.adj[a] :: (a, b)
  }

  lemma {:induction false} LiveIsUsed(p: Program, i: nat, r: Register, n: nat)
    requires UsedIn(p, i, r, n)
    ensures exists k :: 0 <= k < |p| && r in p[k].Gen()
    decreases n
  {
    if n > 0 {
      var j :| j in CfgSucc(p, i) && UsedIn(p, j, r, n - 1);
      LiveIsUsed(p, j, r, n - 1);
    }
  }

  /** A register that occurs is mentioned or clobbered by some instruction. */
  lemma OccursInCode(p: Program, r: Register) returns (k: nat)
    requires Interference.Occurs(p, |p|, r)
    ensures k < |p| && (Mentions(p[k], r) || r in p[k].clobbers)
  {
    var i :| 0 <= i < |p| && (Live(p, i, r) || LiveOutOrKilled(p, i, r) || r in p[i].clobbers);
    if r in p[i].Kill() || r in p[i].clobbers {
      k := i;
    } else {
      var j := i;
      if !Live(p, i, r) {
        j :| j in CfgSucc(p, i) && Live(p, j, r);
      }
      var n := LiveMeans(p, j, r);
      LiveIsUsed(p, j, r, n);
      k :| 0 <= k < |p| && r in p[k].Gen();
    }
  }

  lemma NodesAreKnown(t: Target, p: Program, temps: nat, ids: nat, slots: nat, g: Graph, r: Register)
    requires Compilable(t, p, temps, ids, slots) && GraphOf(p, g) && r in g.nodes
    ensures Old(r, temps) && (r.Physical? ==> r in t.regs(t.classOf(r)))
  {
    hide CleanEntry, PhysicalApart, LeadersFollowJumps, PlainTargets, Interfere, Live, LiveOutOrKilled;
    var k := OccursInCode(p, r);
    assert WellBehaved(t, temps, slots, p[k]);
  }

  lemma MovesAreNodes(t: Target, p: Program, temps: nat, ids: nat, slots: nat, g: Graph, m: Move)
    requires Compilable(t, p, temps, ids, slots) && GraphOf(p, g) && IsMove(p, m)
    ensures SourceOf(p, m) in g.nodes && DestinationOf(p, m) in g.nodes
  {
    hide CleanEntry, PhysicalApart, LeadersFollowJumps, PlainTargets, Interfere, Live;
    var i :| 0 <= i < |p| && p[i].id == m && p[i].ismove;
    assert WellBehaved(t, temps, slots, p[i]);
    MoveEnds(p, i);
    LiveEquation(p, i, SourceOf(p, m));
    assert LiveOutOrKilled(p, i, DestinationOf(p, m));
  }

  lemma PhysicalEdges(t: Target, p: Program, temps: nat, ids: nat, slots: nat, g: Graph, a: Register, b: Register)
    requires Compilable(t, p, temps, ids, slots) && GraphOf(p, g) && a in g.adj && b in g.adj[a] && a.Physical? && b.Physical?
    ensures b !in t.alias(a)
  {
    hide CleanEntry, LeadersFollowJumps, PlainTargets, WellBehaved, InterfereAt, Live;
    assert Interference.Edge(g, a, b);
    var i :| 0 <= i < |p| && InterfereAt(p, i, a, b);
    assert TogetherAt(p, i, a, b);
  }

  /** A compilable program can be given to the allocator. */
  lemma CanStart(t: Target, p: Program, temps: nat, ids: nat, slots: nat, g: Graph, ms: set<Move>)
    requires Compilable(t, p, temps, ids, slots) && GraphOf(p, g) && forall m :: m in ms ==> IsMove(p, m)
    ensures Startable(ContextOf(t, p), g, ms, EdgesOf(g))
  {
    hide Compilable, Interference.Edge, Interfere, IsMove;
    assert t.Sensible() && g.WellFormed() && g.masked == {} by {
      CompilableIsSensible(t, p, temps, ids, slots);
    }
    forall m | m in ms
      ensures SourceOf(p, m) in g.nodes && DestinationOf(p, m) in g.nodes
    {
      MovesAreNodes(t, p, temps, ids, slots, g, m);
    }
    forall n: Register | n in g.nodes && n.Physical?
      ensures n in t.regs(t.classOf(n))
    {
      NodesAreKnown(t, p, temps, ids, slots, g, n);
    }
    forall a: Register, b: Register | a in g.nodes && a.Physical? && b in g.adj[a] && b.Physical?
      ensures b !in t.alias(a)
    {
      PhysicalEdges(t, p, temps, ids, slots, g, a, b);
    }
    hide Target.Sensible;
  }

  lemma CompilableIsSensible(t: Target, p: Program, temps: nat, ids: nat, slots: nat)
    requires Compilable(t, p, temps, ids, slots)
    ensures t.Sensible() && WellFormed(p) && LeadersFollowJumps(p)
  {
  }

  /** ----- a node to spill ----- */

  lemma NodeIsOne(t: Target, p: Program, temps: nat, ids: nat, slots: nat, g: Graph, s: Coalescing.State, node: Node)
    requires Compilable(t, p, temps, ids, slots) && GraphOf(p, g)
    requires Good(ContextOf(t, p), s, EdgesOf(g)) && s.tempMap.Keys == g.nodes && node in s.spill
    ensures OneNode(p, temps, TempsOf(s.tempMap, node))
  {
    hide Compilable, Interfere, WaitingPass, StackPassed, MovesLinked, MovesPlaced, ClassesKept, TogetherKept, PrecoloredApart;
    var spilled := TempsOf(s.tempMap, node);
    forall r | r in spilled
      ensures r.Virtual? && Old(r, temps)
    {
      NodesAreKnown(t, p, temps, ids, slots, g, r);
    }
    forall a, b | a in spilled && b in spilled
      ensures !Interfere(p, a, b)
    {
      assert Interfere(p, a, b) <==> Interference.Edge(g, a, b);
      assert Interference.Edge(g, a, b) <==> (a, b) in EdgesOf(g);
    }
  }

  /** ----- the colours put in ----- */

  lemma MoveIsCoalesced(t: Target, p: Program, temps: nat, ids: nat, slots: nat, coalesced: set<Move>, color: Coloring, i: nat)
    requires Compilable(t, p, temps, ids, slots) && i < |p| && p[i].id in coalesced
    requires forall m :: m in coalesced ==> IsMove(p, m) && color(SourceOf(p, m)) == color(DestinationOf(p, m))
    ensures p[i].ismove && p[i].WellFormedMove() && color(p[i].Used()[0]) == color(p[i].Defined()[0])
    ensures forall j :: 0 <= j < |p| ==> p[i].id !in p[j].jumps
  {
    hide CleanEntry, LeadersFollowJumps, PhysicalApart;
    var k :| 0 <= k < |p| && p[k].id == p[i].id && p[k].ismove;
    assert k == i;
    assert WellBehaved(t, temps, slots, p[i]);
    MoveEnds(p, i);
    forall j | 0 <= j < |p|
      ensures p[i].id !in p[j].jumps
    {
      assert p[i].id in p[j].jumps ==> Plain(p[i]);
    }
  }

  lemma ColorsAreAllocatable(t: Target, p: Program, temps: nat, ids: nat, slots: nat, g: Graph, coalesced: set<Move>, color: Coloring)
    requires Compilable(t, p, temps, ids, slots) && GraphOf(p, g)
    requires forall m :: m in coalesced ==> IsMove(p, m) && color(SourceOf(p, m)) == color(DestinationOf(p, m))
    requires forall a, b :: (a, b) in EdgesOf(g) ==> Separate(t.alias, color(a), color(b))
    requires forall r: Register :: r.Physical? ==> color(r) == r
    ensures Allocatable(p, coalesced, color) && Proper(p, t.alias, color)
  {
    assert Proper(p, t.alias, color) by {
      hide Compilable, Interfere;
      forall a, b | Interfere(p, a, b)
        ensures Separate(t.alias, color(a), color(b))
      {
        assert Interference.Edge(g, a, b);
        assert (a, b) in EdgesOf(g);
      }
    }
    hide CleanEntry, PhysicalApart, PlainTargets, Interfere, IsMove, Proper;
    forall i | 0 <= i < |p|
      ensures p[i].WellFormedMove() && p[i].WellFormedSpill()
      ensures forall c :: c in p[i].clobbers ==> c.Physical?
      ensures p[i].id in coalesced ==> p[i].ismove && p[i].WellFormedMove() && color(p[i].Used()[0]) == color(p[i].Defined()[0])
      ensures p[i].id in coalesced ==> forall j :: 0 <= j < |p| ==> p[i].id !in p[j].jumps
    {
      assert WellBehaved(t, temps, slots, p[i]);
      if p[i].id in coalesced {
        MoveIsCoalesced(t, p, temps, ids, slots, coalesced, color, i);
      }
    }
    hide WellBehaved;
    forall i, k | 0 <= i < |p| && 0 <= k < |p[i].jumps|
      ensures p[i].jumps[k] !in coalesced
    {
      var j :| 0 <= j < |p| && p[j].id == p[i].jumps[k];
      assert p[j].id in p[i].jumps;
    }
  }

  /** The coloured program without its coalesced moves does what the program does. */
  lemma ColoringKeepsMeaning(t: Target, p: Program, temps: nat, ids: nat, slots: nat, coalesced: set<Move>, color: Coloring)
    requires Compilable(t, p, temps, ids, slots) && Allocatable(p, coalesced, color) && Proper(p, t.alias, color)
    ensures SameMeaning(p, NoAliases, Emit(p, coalesced, color), t.alias)
  {
    assert CleanEntry(p);
    hide Compilable, Proper, HaltsWith, Emit, Live;
    forall isa, s: Machine.State, mem | s.pc == 0
      ensures HaltsWith(isa, NoAliases, p, s, mem) <==> HaltsWith(isa, t.alias, Emit(p, coalesced, color), s, mem)
    {
      assert Match(p, coalesced, color, s, s) by {
        assert Rank(p, coalesced, color, 0) == 0;
        forall r | Live(p, 0, r)
          ensures s.regs(color(r)) == s.regs(r)
        {
          assert r.Physical?;
        }
      }
      hide Allocatable;
      AllocationPreservesMeaning(p, t.alias, coalesced, color, isa, s, s, mem);
    }
  }

  lemma MeaningComposes(p: Program, q: Program, r: Program, a: Aliasing)
    requires SameMeaning(p, NoAliases, q, NoAliases) && SameMeaning(q, NoAliases, r, a)
    ensures SameMeaning(p, NoAliases, r, a)
  {
    hide HaltsWith;
    forall isa, s: Machine.State, mem | s.pc == 0
      ensures HaltsWith(isa, NoAliases, p, s, mem) <==> HaltsWith(isa, a, r, s, mem)
    {
      assert HaltsWith(isa, NoAliases, p, s, mem) <==> HaltsWith(isa, NoAliases, q, s, mem);
      assert HaltsWith(isa, NoAliases, q, s, mem) <==> HaltsWith(isa, a, r, s, mem);
    }
  }

  /** All registers of the coloured program are physical. */
  ghost predicate AllPhysical(q: Program) {
    forall i, r :: 0 <= i < |q| && Mentions(q[i], r) ==> r.Physical?
  }

  lemma MentionedIsNode(p: Program, g: Graph, i: nat, x: Register)
    requires GraphOf(p, g) && i < |p| && Mentions(p[i], x)
    ensures x in g.nodes
  {
    hide Interfere, Interference.Edge, Interference.Occurs;
    LiveEquation(p, i, x);
    assert x in p[i].Gen() + p[i].Kill();
    assert x in p[i].Kill() ==> LiveOutOrKilled(p, i, x);
  }

  lemma RecoloredMentions(i: Instr, color: Coloring, r: Register) returns (x: Register)
    requires Mentions(Recolor(i, color), r)
    ensures Mentions(i, x) && color(x) == r
  {
    RecolorRegisters(i, color);
    ColoredMembers(i.Used(), color);
    ColoredMembers(i.Defined(), color);
    x :| Mentions(i, x) && color(x) == r;
  }

  lemma EmittedIsPhysical(t: Target, p: Program, g: Graph, coalesced: set<Move>, color: Coloring)
    requires t.Sensible() && GraphOf(p, g) && forall r :: r in g.nodes ==> color(r) in t.regs(t.classOf(r))
    ensures AllPhysical(Emit(p, coalesced, color))
  {
    hide Emit, Recolor, GraphOf, Mentions;
    var q := Emit(p, coalesced, color);
    forall at, r | 0 <= at < |q| && Mentions(q[at], r)
      ensures r.Physical?
    {
      var i := EmittedAt(p, coalesced, color, at);
      var x := RecoloredMentions(p[i], color, r);
      MentionedIsNode(p, g, i, x);
    }
  }

  lemma EmittedAt(p: Program, coalesced: set<Move>, color: Coloring, at: nat) returns (i: nat)
    requires at < |Emit(p, coalesced, color)|
    ensures i < |p| && Emit(p, coalesced, color)[at] == Recolor(p[i], color)
  {
    i := EmittedFrom(p, coalesced, color, |p|, at);
    KeptAtRank(p, coalesced, color, i);
  }

  /** ----- the allocator ----- */

  /** A round starts with fresh liveness and interference. */
  method AnalyseProgram(p: Program) returns (ig: Interference.InterferenceGraph)
    requires WellFormed(p)
    ensures fresh(ig) && ig.Fresh() && GraphOf(p, ig.graph)
    ensures Interference.UsesRecorded(p, |p|, ig.useMap) && Interference.DefsRecorded(p, |p|, ig.defMap)
    ensures Interference.Counted(p, |p|, ig.useMap, ig.defMap)
  {
    hide Live, LiveAfter, Interfere, Interference.UsesRecorded, Interference.DefsRecorded, Interference.Counted, Interference.Edge, Interference.Occurs;
    var cfg := new Liveness.FlowGraph(p);
    cfg.CalculateLiveness();
    ig := new Interference.InterferenceGraph();
    assert Interference.Liveness(p, cfg.insLiveIn, cfg.insLiveOut) by {
      forall i | 0 <= i < |p|
        ensures i in cfg.insLiveIn && i in cfg.insLiveOut
        ensures forall r :: r in cfg.insLiveIn[i] <==> Live(p, i, r)
        ensures forall r :: r in cfg.insLiveOut[i] <==> LiveAfter(p, i, r)
      {
        assert cfg.Correct(i);
      }
    }
    ig.CalculateInterference(p, cfg.insLiveIn, cfg.insLiveOut);
  }

  function ClassIn(t: Target, classes: map<Register, Class>, r: Register): Class {
    if r in classes then classes[r] else t.classOf(r)
  }

  /** The target, with the classes of the temporaries that the frame has made. */
  function WithClasses(t: Target, classes: map<Register, Class>): Target {
    t.(classOf := (r: Register) => ClassIn(t, classes, r))
  }

  ghost predicate KnownClasses(classes: map<Register, Class>, temps: nat) {
    forall r :: r in classes ==> r.Virtual? && r.num < temps
  }

  lemma ClassesForNew(t: Target, before: map<Register, Class>, after: map<Register, Class>, work: seq<Job>, temps: nat, ids: nat, classOf: Register -> Class)
    requires KnownClasses(before, temps) && Classed(before, after, work, classOf) && Numbered(work, temps, ids)
    ensures SameForOld(WithClasses(t, before), WithClasses(t, after), temps) && KnownClasses(after, temps + |work|)
  {
    forall r | Old(r, temps)
      ensures WithClasses(t, after).classOf(r) == WithClasses(t, before).classOf(r)
    {
      assert forall k :: 0 <= k < |work| ==> work[k].sub != r;
    }
  }

  /** What the rounds keep. */
  ghost predicate Ready(t: Target, frame: Frame)
    reads frame
  {
    && frame.Valid()
    && KnownClasses(frame.classes, frame.nextTemp)
    && Compilable(WithClasses(t, frame.classes), frame.instructions, frame.nextTemp, frame.nextId, |frame.slots|)
  }

  /** ----- one round ----- */

  /** A run of the allocator on the interference graph of a program and its moves. */
  ghost predicate RoundOf(t: Target, p: Program, g: Graph, ms: set<Move>, run: seq<Coalescing.State>) {
    && GraphOf(p, g) && (forall m :: m in ms <==> IsMove(p, m))
    && run != [] && IsRun(ContextOf(t, p), EdgesOf(g), run) && run[0] == Initial(ContextOf(t, p), g, ms)
  }

  /** A round on the program can end in a step that raises. */
  ghost predicate RoundRaises(t: Target, p: Program) {
    exists g, ms, run :: RoundOf(t, p, g, ms, run) && Raises(ContextOf(t, p), EdgesOf(g), run[|run| - 1])
  }

  /** A round on the program can end with nothing to do but spill. */
  ghost predicate RoundStops(t: Target, p: Program) {
    exists g, ms, run :: RoundOf(t, p, g, ms, run) && Stopped(run)
  }

  ghost predicate Stopped(run: seq<Coalescing.State>)
    requires run != []
  {
    var s := run[|run| - 1];
    s.simplify == {} && s.worklist == {} && s.freeze == {} && s.spill != {} && s.spill <= s.graph.adj.Keys
  }

  /** It can end there with a node that has no neighbours, and no register either. */
  ghost predicate RoundStuck(t: Target, p: Program) {
    exists g, ms, run, node :: RoundOf(t, p, g, ms, run) && Stopped(run) && StuckAt(run, node)
  }

  ghost predicate StuckAt(run: seq<Coalescing.State>, node: Node)
    requires run != [] && Stopped(run)
  {
    var s := run[|run| - 1];
    node in s.spill && Degree(s.graph, node) == 0
  }

  /** It can end there with a node of the class as the cheapest one to be spilled. */
  ghost predicate RoundSpills(t: Target, p: Program, k: Class) {
    exists g, ms, run, node :: RoundOf(t, p, g, ms, run) && Stopped(run) && SpillsAt(p, run, node, k)
  }

  ghost predicate SpillsAt(p: Program, run: seq<Coalescing.State>, node: Node, k: Class)
    requires run != [] && Stopped(run)
  {
    var s := run[|run| - 1];
    Cheapest(p, s, node) && node in s.cls && s.cls[node] == k
  }

  /** Why the allocator raises: a step does, a slot would have no bytes, or a node has no neighbours. */
  ghost predicate RaisedFor(t: Target, p: Program, size: Class -> nat) {
    || RoundRaises(t, p)
    || (exists k :: size(k) == 0 && RoundSpills(t, p, k))
    || RoundStuck(t, p)
  }

  /** A round on the program can end with these colours: `q` is `p` in order, recoloured, without the
      moves that were coalesced. */
  ghost predicate RoundColors(t: Target, p: Program, q: Program) {
    exists g, ms, run, color :: RoundOf(t, p, g, ms, run) && ColoredBy(t, p, g, run, color, q)
  }

  /** A round can end with these colours on a program that does what `p0` does. */
  ghost predicate ColoredRound(t: Target, p0: Program, q: Program) {
    exists p :: SameMeaning(p0, NoAliases, p, NoAliases) && RoundColors(t, p, q)
  }

  ghost predicate ColoredBy(t: Target, p: Program, g: Graph, run: seq<Coalescing.State>, color: Coloring, q: Program)
    requires run != []
  {
    var s := run[|run| - 1];
    && s.simplify == {} && s.worklist == {} && s.freeze == {} && s.spill == {}
    && (forall a, b :: (a, b) in EdgesOf(g) ==> Separate(t.alias, color(a), color(b)))
    && (forall m :: m in s.coalesced ==> color(SourceOf(p, m)) == color(DestinationOf(p, m)))
    && RecoloredWithout(p, s.coalesced, color, q)
  }

  /** With one register class, a round raises exactly where a node to be frozen may give up last a
      move with both ends in it. */
  lemma RoundRaisesWhen(t: Target, p: Program, temps: nat, ids: nat, slots: nat, k: Class)
    requires Compilable(t, p, temps, ids, slots) && forall n :: t.classOf(n) == k
    ensures RoundRaises(t, p) <==>
      exists g, ms, run :: RoundOf(t, p, g, ms, run) && IdentityIsLast(ContextOf(t, p), run[|run| - 1])
  {
    hide GraphOf, IsMove, IdentityIsLast, Compilable, Raises, IsRun, Initial, Startable, Checked;
    forall g, ms, run | RoundOf(t, p, g, ms, run)
      ensures Raises(ContextOf(t, p), EdgesOf(g), run[|run| - 1]) <==> IdentityIsLast(ContextOf(t, p), run[|run| - 1])
    {
      CanStart(t, p, temps, ids, slots, g, ms);
      InitialChecked(ContextOf(t, p), g, ms, EdgesOf(g), k);
      RaisesWhen(ContextOf(t, p), EdgesOf(g), run, k);
    }
  }

  /** With one register class, a node to spill has neighbours as soon as there is a register. */
  lemma StuckWithoutRegisters(t: Target, p: Program, temps: nat, ids: nat, slots: nat, k: Class)
    requires Compilable(t, p, temps, ids, slots) && forall n :: t.classOf(n) == k
    requires RoundStuck(t, p)
    ensures t.regs(k) == {}
  {
    hide GraphOf, IsMove, Compilable, IsRun, Initial, Startable, Checked, Degree;
    var g, ms, run, node :| RoundOf(t, p, g, ms, run) && Stopped(run) && StuckAt(run, node);
    CanStart(t, p, temps, ids, slots, g, ms);
    InitialChecked(ContextOf(t, p), g, ms, EdgesOf(g), k);
    RunChecked(ContextOf(t, p), EdgesOf(g), run, k);
    StuckHasNoRegisters(ContextOf(t, p), run[|run| - 1], EdgesOf(g), k, node);
  }

  /** `init_data`: everything about the current program is analysed anew. */
  method StartRound(t: Target, p: Program, ghost temps: nat, ghost ids: nat, ghost slots: nat)
      returns (ig: Interference.InterferenceGraph, a: GraphColoringRegisterAllocator, ghost ms: set<Move>)
    requires Compilable(t, p, temps, ids, slots)
    ensures fresh(ig) && fresh(a) && GraphOf(p, ig.graph) && a.c == ContextOf(t, p)
    ensures Interference.UsesRecorded(p, |p|, ig.useMap) && Interference.DefsRecorded(p, |p|, ig.defMap)
    ensures Interference.Counted(p, |p|, ig.useMap, ig.defMap)
    ensures Good(a.c, a.Model(), EdgesOf(ig.graph)) && a.tempMap.Keys == ig.graph.nodes
    ensures forall m :: m in a.Model().AllMoves() ==> IsMove(p, m)
    ensures a.Model() == Initial(a.c, ig.graph, ms) && forall m :: m in ms <==> IsMove(p, m)
  {
    hide Compilable, GraphOf, IsMove, Startable, Initial, Good, Almost, Coalescing.State.AllMoves, Interference.UsesRecorded, Interference.DefsRecorded, Interference.Counted;
    CompilableIsSensible(t, p, temps, ids, slots);
    ig := AnalyseProgram(p);
    a := new GraphColoringRegisterAllocator(ContextOf(t, p));
    var moves := MovesOf(p);
    ms := set m | m in moves;
    CanStart(t, p, temps, ids, slots, ig.graph, ms);
    InitialGood(a.c, ig.graph, ms, EdgesOf(ig.graph));
    StartableGraph(a.c, ig.graph, ms, EdgesOf(ig.graph), moves);
    a.InitData(ig.graph, moves);
    assert a.worklist == ms;
  }

  lemma StartableGraph(c: Context, g: Graph, ms: set<Move>, pairs: Pairs, moves: seq<Move>)
    requires Startable(c, g, ms, pairs) && ms == set m | m in moves
    ensures g.WellFormed() && g.masked == {}
    ensures forall m :: m in moves ==> c.src(m) in g.nodes && c.dst(m) in g.nodes
  {
    assert forall m :: m in moves ==> m in ms;
  }

  /** The instructions that use or define a temporary of the node. */
  method OccurrencesOf(p: Program, temps: set<Register>, useMap: map<Register, seq<nat>>, defMap: map<Register, seq<nat>>)
      returns (at: map<Register, set<nat>>)
    requires Interference.UsesRecorded(p, |p|, useMap) && Interference.DefsRecorded(p, |p|, defMap)
    ensures forall r :: r in temps ==> r in at && Occurrences(p, r, at[r])
  {
    at := map r | r in temps :: set id | id in Interference.Occurrences(useMap, r) + Interference.Occurrences(defMap, r);
    forall r | r in temps
      ensures Occurrences(p, r, at[r])
    {
      hide Interference.Occurrences;
      forall id
        ensures id in at[r] <==> exists i :: 0 <= i < |p| && p[i].id == id && Mentions(p[i], r)
      {
        assert id in at[r] <==> Interference.UsedBefore(p, |p|, r, id) || Interference.DefinedBefore(p, |p|, r, id);
      }
    }
  }

  datatype Result = Allocated | GaveUp | Raised

  /** Colours the nodes, removes the coalesced moves and puts the registers in. */
  method Finish(t: Target, frame: Frame, a: GraphColoringRegisterAllocator, ghost g: Graph, ghost run: seq<Coalescing.State>,
                ghost temps: nat, ghost ids: nat, ghost slots: nat)
      returns (ghost color: Coloring)
    requires run != [] && run[|run| - 1] == a.Model() && a.worklist == {}
    requires Compilable(t, frame.instructions, temps, ids, slots) && GraphOf(frame.instructions, g)
    requires a.c == ContextOf(t, frame.instructions) && Emptied(a.c, a.Model(), EdgesOf(g)) && a.tempMap.Keys == g.nodes
    requires forall m :: m in a.Model().AllMoves() ==> IsMove(frame.instructions, m)
    modifies frame`instructions, a
    ensures SameMeaning(old(frame.instructions), NoAliases, frame.instructions, t.alias)
    ensures AllPhysical(frame.instructions)
    ensures ColoredBy(t, old(frame.instructions), g, run, color, frame.instructions)
  {
    hide Emptied, Colors, GraphOf, IsMove, SameMeaning, Emit, Without, AllPhysical, WellFormed, Target.Sensible, RecoloredWithout;
    ghost var p, s := frame.instructions, a.Model();
    EmptiedLists(a.c, s, EdgesOf(g));
    CompilableIsSensible(t, p, temps, ids, slots);
    assert UniqueIds(p) by {
      WellFormedIds(p);
    }
    hide Compilable;
    a.AssignColors(EdgesOf(g));
    ChosenIsProper(a.c, s, EdgesOf(g), a.reg);
    color := Chosen(a.tempMap, a.reg);
    var coalesced := a.coalesced;
    ColorsAreAllocatable(t, p, temps, ids, slots, g, coalesced, color);
    ColoringKeepsMeaning(t, p, temps, ids, slots, coalesced, color);
    EmittedIsPhysical(t, p, g, coalesced, color);
    frame.RemoveInstructions(coalesced);
    frame.ApplyColors(Chosen(a.tempMap, a.reg));
    RemovedAndColored(p, coalesced, color, |p|);
    assert p[..|p|] == p;
    EmitIs(p, coalesced, color, frame.instructions);
    EmitIsRecolored(p, coalesced, color);
  }

  lemma EmptiedLists(c: Context, s: Coalescing.State, pairs: Pairs)
    requires Emptied(c, s, pairs)
    ensures s.simplify == {} && s.freeze == {} && s.spill == {}
  {
  }

  lemma EmitIsRecolored(p: Program, gone: set<Move>, color: Coloring)
    ensures RecoloredWithout(p, gone, color, Emit(p, gone, color))
  {
    hide Recolor;
    var at := EmitKeeps(p, gone, color, |p|);
    assert p[..|p|] == p;
  }

  lemma WellFormedIds(p: Program)
    requires WellFormed(p)
    ensures UniqueIds(p)
  {
  }

  lemma EmitIs(p: Program, coalesced: set<Move>, color: Coloring, q: Program)
    requires |q| == |EmitTo(p, coalesced, color, |p|)|
    requires forall j :: 0 <= j < |q| ==> q[j] == EmitTo(p, coalesced, color, |p|)[j]
    ensures q == Emit(p, coalesced, color)
  {
  }

  /** In order, recoloured, everything but the instructions in `gone`. */
  ghost predicate RecoloredWithout(p: Program, gone: set<Move>, color: Coloring, q: Program) {
    exists at: seq<nat> :: KeptAt(p, gone, color, q, at)
  }

  predicate KeptAt(p: Program, gone: set<Move>, color: Coloring, q: Program, at: seq<nat>) {
    && |at| == |q|
    && (forall k :: 0 <= k < |q| ==> at[k] < |p| && q[k] == Recolor(p[at[k]], color))
    && (forall j, k :: 0 <= j < k < |q| ==> at[j] < at[k])
    && (forall i :: 0 <= i < |p| ==> (i in at <==> p[i].id !in gone))
  }

  lemma {:induction false} EmitKeeps(p: Program, gone: set<Move>, color: Coloring, k: nat) returns (at: seq<nat>)
    requires k <= |p|
    ensures KeptAt(p[..k], gone, color, EmitTo(p, gone, color, k), at)
  {
    hide Recolor;
    if k == 0 {
      at := [];
    } else {
      var before := EmitKeeps(p, gone, color, k - 1);
      assert p[..k] == p[..k - 1] + [p[k - 1]];
      at := before + if p[k - 1].id in gone then [] else [k - 1];
      KeptNext(p[..k - 1], p[k - 1], gone, color, EmitTo(p, gone, color, k - 1), before);
    }
  }

  lemma KeptNext(p: Program, i: Instr, gone: set<Move>, color: Coloring, q: Program, at: seq<nat>)
    requires KeptAt(p, gone, color, q, at)
    ensures i.id in gone ==> KeptAt(p + [i], gone, color, q, at)
    ensures i.id !in gone ==> KeptAt(p + [i], gone, color, q + [Recolor(i, color)], at + [|p|])
  {
    hide Recolor;
    assert forall k :: 0 <= k < |p| ==> (p + [i])[k] == p[k];
  }

  /** Puts the temporaries of a node on the stack; without `ok`, there was no slot to have. */
  method Spill(t: Target, frame: Frame, a: GraphColoringRegisterAllocator, ig: Interference.InterferenceGraph, node: Node, size: Class -> nat)
      returns (ok: bool)
    requires Ready(t, frame) && GraphOf(frame.instructions, ig.graph)
    requires a.c == ContextOf(WithClasses(t, frame.classes), frame.instructions)
    requires Good(a.c, a.Model(), EdgesOf(ig.graph)) && a.tempMap.Keys == ig.graph.nodes && node in a.spill && node in a.cls
    requires Interference.UsesRecorded(frame.instructions, |frame.instructions|, ig.useMap)
    requires Interference.DefsRecorded(frame.instructions, |frame.instructions|, ig.defMap)
    modifies frame
    ensures ok ==> Ready(t, frame) && SameMeaning(old(frame.instructions), NoAliases, frame.instructions, NoAliases)
    ensures ok <==> size(a.cls[node]) > 0
    ensures !ok ==> Ready(t, frame) && frame.instructions == old(frame.instructions) && frame.classes == old(frame.classes)
    ensures frame.Valid() && |frame.slots| == |old(frame.slots)| + if ok then 1 else 0
    ensures var n := size(old(a.cls[node])); frame.requests == if ok then old(frame.requests) + [Request(n, n)] else old(frame.requests)
    ensures AllSuit(frame.fp, old(frame.requests)) ==> AllSuit(frame.fp, frame.requests)
  {
    hide GraphOf, Good, SameMeaning, Interference.UsesRecorded, Interference.DefsRecorded, OneNode, Rewritten, SameForOld, Occurrences, IdsBelow;
    ghost var p, temps, ids, slots, t0 := frame.instructions, frame.nextTemp, frame.nextId, |frame.slots|, WithClasses(t, frame.classes);
    NodeIsOne(t0, p, temps, ids, slots, ig.graph, a.Model(), node);
    IdsAreBelow(t0, p, temps, ids, slots);
    hide Compilable, KnownClasses, WithClasses, Numbered;
    var slot := |frame.slots|;
    var r := frame.Alloc(size(a.cls[node]), size(a.cls[node]));
    ok := r.Allocated?;
    if ok {
      var spilled := TempsOf(a.tempMap, node);
      var at := OccurrencesOf(frame.instructions, spilled, ig.useMap, ig.defMap);
      RequestFits(frame.fp, size(a.cls[node]));
      ghost var before := frame.classes;
      ghost var work := RewriteProgram(frame, slot, spilled, at, WithClasses(t, frame.classes).classOf);
      RewrittenIsNumbered(p, slot, frame.instructions, work, temps, ids, spilled);
      ClassesForNew(t, before, frame.classes, work, temps, ids, t0.classOf);
      SpillingKeepsMeaning(t0, p, temps, ids, slots, spilled, frame.instructions, work);
      SpillingKeepsCompilable(t0, WithClasses(t, frame.classes), p, temps, ids, slots, spilled, frame.instructions, work);
    }
  }

  lemma RequestFits(fp: FramePointer, n: nat)
    requires n > 0
    ensures forall stacksize: nat :: Request(n, n).Suits(fp, stacksize)
  {
    Remainder(n, n, 1, 0);
  }

  lemma IdsAreBelow(t: Target, p: Program, temps: nat, ids: nat, slots: nat)
    requires Compilable(t, p, temps, ids, slots)
    ensures IdsBelow(p, ids)
  {
  }

  lemma RewrittenIsNumbered(p: Program, slot: nat, q: Program, work: seq<Job>, temps: nat, ids: nat, spilled: set<Register>)
    requires Rewritten(p, slot, q, work, temps, ids, spilled)
    ensures Numbered(work, temps, ids)
  {
  }

  lemma SameAsItself(p: Program)
    ensures SameMeaning(p, NoAliases, p, NoAliases)
  {
    hide HaltsWith;
  }

  lemma SpillNodesAreKnown(c: Context, s: Coalescing.State, pairs: Pairs)
    requires Good(c, s, pairs)
    ensures s.spill <= s.graph.adj.Keys && s.spill <= s.cls.Keys
  {
  }

  /** The new slots are each as large as some class, and aligned like that. */
  ghost predicate MoreOfSizes(before: seq<Request>, after: seq<Request>, size: Class -> nat) {
    && before <= after
    && forall k :: |before| <= k < |after| ==> OfSize(after[k], size)
  }

  ghost predicate OfSize(r: Request, size: Class -> nat) {
    exists c: Class :: r == Request(size(c), size(c))
  }

  lemma NoMoreSizes(requests: seq<Request>, size: Class -> nat)
    ensures MoreOfSizes(requests, requests, size)
  {
  }

  lemma OneMoreSize(before: seq<Request>, size: Class -> nat, c: Class)
    ensures MoreOfSizes(before, before + [Request(size(c), size(c))], size)
  {
    assert OfSize(Request(size(c), size(c)), size);
  }

  lemma MoreInTurn(before: seq<Request>, via: seq<Request>, after: seq<Request>, size: Class -> nat)
    requires MoreOfSizes(before, via, size) && MoreOfSizes(via, after, size)
    ensures MoreOfSizes(before, after, size)
  {
    hide OfSize;
    assert forall k :: |before| <= k < |via| ==> after[k] == via[k];
  }

  /** Selects a node and spills it; without `ok`, there was none to be had, or no slot for it. */
  method SpillCheapest(t: Target, frame: Frame, a: GraphColoringRegisterAllocator, ig: Interference.InterferenceGraph, size: Class -> nat,
                       ghost ms: set<Move>, ghost run: seq<Coalescing.State>)
      returns (ok: bool)
    requires Ready(t, frame) && GraphOf(frame.instructions, ig.graph)
    requires a.c == ContextOf(WithClasses(t, frame.classes), frame.instructions)
    requires Good(a.c, a.Model(), EdgesOf(ig.graph)) && a.tempMap.Keys == ig.graph.nodes
    requires RoundOf(WithClasses(t, frame.classes), frame.instructions, ig.graph, ms, run) && Stopped(run) && run[|run| - 1] == a.Model()
    requires Interference.UsesRecorded(frame.instructions, |frame.instructions|, ig.useMap)
    requires Interference.DefsRecorded(frame.instructions, |frame.instructions|, ig.defMap)
    requires Interference.Counted(frame.instructions, |frame.instructions|, ig.useMap, ig.defMap)
    modifies frame
    ensures ok ==> Ready(t, frame) && SameMeaning(old(frame.instructions), NoAliases, frame.instructions, NoAliases)
    ensures !ok ==> Ready(t, frame) && frame.instructions == old(frame.instructions) && frame.classes == old(frame.classes)
    ensures !ok ==> RaisedFor(WithClasses(t, frame.classes), frame.instructions, size)
    ensures frame.Valid() && |frame.slots| == |old(frame.slots)| + if ok then 1 else 0
    ensures MoreOfSizes(old(frame.requests), frame.requests, size)
    ensures AllSuit(frame.fp, old(frame.requests)) ==> AllSuit(frame.fp, frame.requests)
  {
    hide GraphOf, Good, SameMeaning, Interference.UsesRecorded, Interference.DefsRecorded, Interference.Counted, Compilable, WithClasses,
      SpillsAt, StuckAt, RoundOf, RoundRaises, RoundStuck, RoundSpills, Cheapest, Degree, MoreOfSizes, AllSuit, KnownClasses, RaisedFor;
    NoMoreSizes(frame.requests, size);
    SpillNodesAreKnown(a.c, a.Model(), EdgesOf(ig.graph));
    var p := frame.instructions;
    ghost var now := WithClasses(t, frame.classes);
    var node := SelectSpill(p, a, ig.useMap, ig.defMap);
    if node.None? {
      StuckNow(now, p, ig.graph, ms, run, size);
      return false;
    }
    ghost var k := a.cls[node.value];
    SpillsNow(now, p, ig.graph, ms, run, node.value, k);
    OneMoreSize(frame.requests, size, k);
    if size(k) == 0 {
      NoSlotNow(now, p, size, k);
    }
    ok := Spill(t, frame, a, ig, node.value, size);
  }

  /** Register allocation of a function.  When it succeeds, the function has only physical
      registers, and started in the same state it halts with the same memory, or not at all,
      like the function it was; it is a program that does the same, recoloured, without the moves
      that were coalesced.  When it raises, it has done so in a round on a program that still does
      the same: in a step that raises, for a slot of no bytes for the node that is cheapest to
      spill, or for a node to spill that has no neighbours.  It gives up only where there would be
      something to spill in 31 rounds. */
  method AllocFrame(t: Target, frame: Frame, size: Class -> nat) returns (r: Result)
    requires Ready(t, frame)
    modifies frame
    ensures r.Allocated? ==> SameMeaning(old(frame.instructions), NoAliases, frame.instructions, t.alias) && AllPhysical(frame.instructions)
    ensures r.Allocated? ==> ColoredRound(WithClasses(t, frame.classes), old(frame.instructions), frame.instructions)
    ensures !r.Allocated? ==> Ready(t, frame) && SameMeaning(old(frame.instructions), NoAliases, frame.instructions, NoAliases)
    ensures r.Raised? ==> RaisedFor(WithClasses(t, frame.classes), frame.instructions, size)
    ensures r.GaveUp? ==> |frame.slots| == |old(frame.slots)| + 30 && RoundStops(WithClasses(t, frame.classes), frame.instructions)
    ensures frame.Valid() && |frame.slots| <= |old(frame.slots)| + 30
    ensures MoreOfSizes(old(frame.requests), frame.requests, size)
    ensures AllSuit(frame.fp, old(frame.requests)) ==> AllSuit(frame.fp, frame.requests)
  {
    hide GraphOf, Good, SameMeaning, Interference.UsesRecorded, Interference.DefsRecorded, Compilable, WithClasses, IsMove, AllPhysical, Coalescing.State.AllMoves, IsRun, Raises, Initial, Stopped, StuckAt, SpillsAt, MoreOfSizes, ColoredBy, RoundOf, RoundColors, RoundRaises, RoundStops, RoundStuck, RoundSpills, Cheapest, Interference.Counted, Degree, RaisedFor, ColoredRound;
    ghost var p0 := frame.instructions;
    SameAsItself(p0);
    NoMoreSizes(frame.requests, size);
    var rounds := 0;
    while true
      invariant Ready(t, frame) && SameMeaning(p0, NoAliases, frame.instructions, NoAliases)
      invariant AllSuit(frame.fp, old(frame.requests)) ==> AllSuit(frame.fp, frame.requests)
      invariant MoreOfSizes(old(frame.requests), frame.requests, size)
      invariant 0 <= rounds <= 30 && |frame.slots| == |old(frame.slots)| + rounds
      decreases 30 - rounds
    {
      var now := WithClasses(t, frame.classes);
      WithClassesAlias(t, frame.classes);
      var p := frame.instructions;
      var ig, a, ms := StartRound(now, p, frame.nextTemp, frame.nextId, |frame.slots|);
      var v, run := a.ColorRound(EdgesOf(ig.graph));
      RoundIs(now, p, ig.graph, ms, run);
      match v {
        case Failed =>
          RaisesNow(now, p, ig.graph, ms, run, size);
          return Result.Raised;
        case Done =>
          ghost var color := Finish(now, frame, a, ig.graph, run, frame.nextTemp, frame.nextId, |frame.slots|);
          ColorsNow(now, p0, p, ig.graph, ms, run, color, frame.instructions);
          MeaningComposes(p0, p, frame.instructions, t.alias);
          return Result.Allocated;
        case MustSpill =>
          SpillNodesAreKnown(a.c, a.Model(), EdgesOf(ig.graph));
          StoppedAt(run);
          StopsNow(now, p, ig.graph, ms, run);
          rounds := rounds + 1;
          if rounds > 30 {
            return Result.GaveUp;
          }
          ghost var requests := frame.requests;
          var ok := SpillCheapest(t, frame, a, ig, size, ms, run);
          MoreInTurn(old(frame.requests), requests, frame.requests, size);
          if !ok {
            return Result.Raised;
          }
          MeaningComposes(p0, p, frame.instructions, NoAliases);
      }
    }
  }

  lemma RoundIs(t: Target, p: Program, g: Graph, ms: set<Move>, run: seq<Coalescing.State>)
    requires GraphOf(p, g) && (forall m :: m in ms <==> IsMove(p, m))
    requires run != [] && IsRun(ContextOf(t, p), EdgesOf(g), run) && run[0] == Initial(ContextOf(t, p), g, ms)
    ensures RoundOf(t, p, g, ms, run)
  {
  }

  lemma RaisesNow(t: Target, p: Program, g: Graph, ms: set<Move>, run: seq<Coalescing.State>, size: Class -> nat)
    requires RoundOf(t, p, g, ms, run) && Raises(ContextOf(t, p), EdgesOf(g), run[|run| - 1])
    ensures RaisedFor(t, p, size)
  {
    assert RoundRaises(t, p);
  }

  lemma SpillsNow(t: Target, p: Program, g: Graph, ms: set<Move>, run: seq<Coalescing.State>, node: Node, k: Class)
    requires RoundOf(t, p, g, ms, run) && Stopped(run)
    requires var s := run[|run| - 1]; Cheapest(p, s, node) && node in s.cls && s.cls[node] == k
    ensures RoundSpills(t, p, k)
  {
    assert SpillsAt(p, run, node, k);
  }

  lemma StopsNow(t: Target, p: Program, g: Graph, ms: set<Move>, run: seq<Coalescing.State>)
    requires RoundOf(t, p, g, ms, run) && Stopped(run)
    ensures RoundStops(t, p)
  {
  }

  lemma StuckNow(t: Target, p: Program, g: Graph, ms: set<Move>, run: seq<Coalescing.State>, size: Class -> nat)
    requires RoundOf(t, p, g, ms, run) && Stopped(run)
    requires var s := run[|run| - 1]; exists n :: n in s.spill && Degree(s.graph, n) == 0
    ensures RaisedFor(t, p, size)
  {
    var s := run[|run| - 1];
    hide RoundOf;
    var n :| n in s.spill && Degree(s.graph, n) == 0;
    assert StuckAt(run, n);
    assert RoundStuck(t, p);
  }

  lemma NoSlotNow(t: Target, p: Program, size: Class -> nat, k: Class)
    requires RoundSpills(t, p, k) && size(k) == 0
    ensures RaisedFor(t, p, size)
  {
    hide RoundSpills;
  }

  lemma StoppedAt(run: seq<Coalescing.State>)
    requires run != []
    requires var s := run[|run| - 1]; s.simplify == {} && s.worklist == {} && s.freeze == {} && s.spill != {} && s.spill <= s.graph.adj.Keys
    ensures Stopped(run)
  {
  }

  lemma ColorsNow(t: Target, p0: Program, p: Program, g: Graph, ms: set<Move>, run: seq<Coalescing.State>, color: Coloring, q: Program)
    requires RoundOf(t, p, g, ms, run) && ColoredBy(t, p, g, run, color, q) && SameMeaning(p0, NoAliases, p, NoAliases)
    ensures ColoredRound(t, p0, q)
  {
    hide RoundOf, ColoredBy, SameMeaning;
    assert RoundColors(t, p, q);
  }

  lemma WithClassesAlias(t: Target, classes: map<Register, Class>)
    ensures WithClasses(t, classes).alias == t.alias
  {
  }
}
