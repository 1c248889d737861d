/**
 * The instruction record the graph builder works on, as far as the
 * builder can see it. The decoder that produces instructions and the
 * operand/operator encodings live in the `instructions` module, which is
 * not part of this model: its control-flow category is a datatype here,
 * and the branch target its `findAddrInInst` extracts is a field.
 */
module Instructions {
  import opened Wrappers

  /** Which `visit*` method an instruction's `accept` dispatches to. */
  datatype Category = Default | Calling | ConditionalJump | UnconditionalJump | EndHere

  datatype Inst = Inst(
    address: int,
    size: int,
    operand: string,           // the mnemonic, e.g. "call"
    category: Category,
    target: int,               // what `findAddrInInst` returns
    bytes: seq<string>,        // raw byte tokens of the listing
    rawStrs: seq<string>,      // raw text lines of the listing
    start: bool,               // begins a basic block
    fallThrough: bool,         // control may continue at address + size
    branchTo: Option<int>,     // explicit control-flow target
    call: bool)                // a call-type transfer

  /**
   * Sentinel addresses for an unknown (extern) callee and for an unresolved
   * target. Their values come from `dp_utils`, which is not part of this
   * model; all the model relies on is that they differ from each other,
   * from -1 and from the software-interrupt numbers 0..255.
   */
  const FakeCalleeAddr: int := -2
  const InvalidAddr: int := -3

  /**
   * `isn.Instruction(addr, operand=name)`: a synthetic instruction. The
   * constructor's remaining defaults are not visible; the model takes no
   * bytes, no branch target, not a call, and the given default size.
   */
  function AuxInst(addr: int, name: string, size: int): (r: Inst)
    ensures r.address == addr && r.operand == name
    ensures r.branchTo.None? && !r.call
  {
    Inst(addr, size, name, Default, addr, [], [], false, true, None, false)
  }

  /** `address + size`: where the instruction at `addr` falls through to. */
  function NextAddr(addr: int, size: int): int {
    addr + size
  }

  /** Every instruction of the map sits at its own address. */
  ghost predicate Keyed(m: map<int, Inst>) {
    forall a :: a in m ==> m[a].address == a
  }

  /** No instruction of `m` records a branch target. */
  ghost predicate NoTargets(m: map<int, Inst>) {
    forall a :: a in m ==> m[a].branchTo.None?
  }
}
