/**
  The abstract machine code that the back end works on: a flat list of
  instructions, each with an identity, the registers it reads, writes and
  clobbers, and the instructions it may jump to.
 */
module MachineCode {

  /** Physical registers are the precoloured ones; virtual ones still need a colour. */
  datatype Register = Physical(num: nat) | Virtual(num: nat)

  /** `Load` and `Store` are the spill instructions that access one stack slot. */
  datatype Opcode = Ordinary(code: nat) | Load(slot: nat) | Store(slot: nat)

  /** `uses` and `defs` are operands; `extraUses` and `extraDefs` are attached to an
      instruction without being operands (a call's arguments, say). */
  datatype Instr = Instr(
    id: nat,
    op: Opcode,
    uses: seq<Register>,
    extraUses: seq<Register>,
    defs: seq<Register>,
    extraDefs: seq<Register>,
    clobbers: set<Register>,
    jumps: seq<nat>,
    ismove: bool)
  {
    function Used(): seq<Register> { uses + extraUses }

    function Defined(): seq<Register> { defs + extraDefs }

    function Gen(): set<Register> { set r | r in Used() }

    function Kill(): set<Register> { set r | r in Defined() }

    /** A move copies its first used register to the one register it defines. */
    predicate WellFormedMove() {
      ismove ==> |Used()| >= 1 && |Defined()| == 1 && clobbers == {} && jumps == [] && op.Ordinary?
    }

    /** A load defines one register, a store uses one; neither jumps. */
    predicate WellFormedSpill() {
      && (op.Load? ==> Used() == [] && |Defined()| == 1)
      && (op.Store? ==> |Used()| == 1 && Defined() == [])
      && (!op.Ordinary? ==> clobbers == {} && jumps == [] && !ismove)
    }
  }

  type Program = seq<Instr>

  predicate UniqueIds(p: Program) {
    forall i, j :: 0 <= i < j < |p| ==> p[i].id != p[j].id
  }

  /** Position of the instruction with this identity, or `|p|`. */
  function IndexOf(p: Program, id: nat): (k: nat)
    ensures k <= |p|
    ensures k < |p| ==> p[k].id == id
    ensures forall j :: 0 <= j < k ==> p[j].id != id
  {
    if p == [] then 0
    else if p[0].id == id then 0
    else
      var k := IndexOf(p[1..], id);
      assert forall j :: 1 <= j < k + 1 ==> p[j] == p[1..][j - 1];
      k + 1
  }

  predicate HasId(p: Program, id: nat) {
    exists k :: 0 <= k < |p| && p[k].id == id
  }

  /** Every jump goes to an instruction of the program, and identities are unique. */
  predicate WellFormed(p: Program) {
    && UniqueIds(p)
    && forall i, k :: 0 <= i < |p| && 0 <= k < |p[i].jumps| ==> HasId(p, p[i].jumps[k])
  }

  lemma IndexOfUnique(p: Program, k: nat)
    requires UniqueIds(p) && k < |p|
    ensures IndexOf(p, p[k].id) == k
  {
  }

  lemma IndexOfPresent(p: Program, id: nat)
    requires HasId(p, id)
    ensures IndexOf(p, id) < |p|
  {
  }
}
