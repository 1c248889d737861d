/**
 * The control-flow visitor of `ControlFlowGraphBuilder`
 * (maldefender/cfg_builder.py:356-447): every decoded instruction is
 * visited once by the handler of its category; the handlers record branch
 * targets, clear fall-through, and mark the instructions that begin a
 * basic block. Targets that are not decoded instructions get auxiliary
 * instructions, which are merged into the instruction index at the end.
 *
 * The state is the pair of insertion-ordered maps `addr2Inst` and
 * `addr2InstAux`. A handler is given the address of the instruction it
 * visits; the instruction object itself is the map entry at that address.
 */
module Visitor {
  import opened Wrappers
  import opened Strings
  import opened OrderedMaps
  import opened Instructions

  datatype VisitState = VisitState(insts: OrdMap<int, Inst>, aux: OrdMap<int, Inst>)

  /** `'softirq_%X' % n` */
  function SoftIrqName(n: nat): string {
    "softirq_" + UpperHex(n)
  }

  /** The interrupt number can be read back from the name of its instruction. */
  lemma {:induction false} SoftIrqNameParses(n: nat)
    ensures StartsWith(SoftIrqName(n), "softirq_")
    ensures ParseHex(SoftIrqName(n)[8..]) == Some(n)
  {
    assert SoftIrqName(n)[8..] == UpperHex(n);
    ParseUpperHex(n);
  }

  /**
   * `addAuxilaryInst`: insert a synthetic instruction at `addr` unless one
   * is already there; a new one begins a block and does not fall through.
   */
  function AddAux(aux: OrdMap<int, Inst>, addr: int, name: string, auxSize: int): (r: OrdMap<int, Inst>)
    ensures aux.Wf() ==> r.Wf()
    ensures addr in r.m
    ensures forall k :: k in aux.m ==> k in r.m && r.m[k] == aux.m[k]
    ensures forall k :: k in r.m ==> k in aux.m || k == addr
    ensures addr !in aux.m ==>
      && r.m[addr].address == addr && r.m[addr].operand == name
      && r.m[addr].start && !r.m[addr].fallThrough && r.m[addr].branchTo.None?
  {
    if addr in aux.m then aux
    else aux.Put(addr, AuxInst(addr, name, auxSize).(start := true, fallThrough := false))
  }

  /** How `enter` treats a target, tested in the order of the source. */
  datatype Target = Extern | SoftIrq | Unresolved | Resolved

  function TargetKind(insts: map<int, Inst>, operand: string, t: int): (k: Target)
    ensures k == Resolved <==> t != FakeCalleeAddr && !(0 <= t < 256) && t in insts
    ensures k == SoftIrq <==> 0 <= t < 256
    ensures k == Unresolved <==>
      t != FakeCalleeAddr && !(0 <= t < 256) && t !in insts && operand != "call" && operand != "syscall"
  {
    if t == FakeCalleeAddr then Extern
    else if 0 <= t < 256 then SoftIrq
    else if t !in insts then
      (if operand == "call" || operand == "syscall" then Extern else Unresolved)
    else Resolved
  }

  /** An instruction object whose fields are updated in place. */
  function SetInst(insts: OrdMap<int, Inst>, a: int, i: Inst): (r: OrdMap<int, Inst>)
    requires a in insts.m
    ensures r.keys == insts.keys && r.m.Keys == insts.m.Keys
    ensures r.m[a] == i && forall k :: k in insts.m && k != a ==> r.m[k] == insts.m[k]
  {
    insts.Put(a, i)
  }

  /** The fields the visitor never writes: what the decoder produced. */
  function Decoded(i: Inst): (int, int, string, Category, int) {
    (i.address, i.size, i.operand, i.category, i.target)
  }

  /** What a visiting step writes, apart from `start`. */
  function Flags(i: Inst): (Option<int>, bool, bool, seq<string>, seq<string>) {
    (i.branchTo, i.fallThrough, i.call, i.bytes, i.rawStrs)
  }

  /**
   * How one instruction may change during a visiting step: its decoded
   * fields stay, a block start is never cleared, a recorded target is never
   * dropped, and only the visited instruction has its other fields written.
   */
  ghost predicate InstGrows(i: Inst, j: Inst, visited: bool) {
    && Decoded(j) == Decoded(i)
    && (i.start ==> j.start)
    && (i.branchTo.Some? ==> j.branchTo.Some?)
    && (!visited ==> Flags(j) == Flags(i))
  }

  /** Every auxiliary instruction sits at its address, begins a block and has no target. */
  ghost predicate AuxOk(s: VisitState) {
    forall k :: k in s.aux.m ==>
      s.aux.m[k].address == k && s.aux.m[k].start && s.aux.m[k].branchTo.None?
  }

  /**
   * A visiting step at `a` only adds: the index keeps its keys, its
   * instructions change as `InstGrows` allows, and auxiliary instructions
   * are added but never replaced.
   */
  ghost predicate Grows(s: VisitState, r: VisitState, a: int) {
    && r.insts.keys == s.insts.keys
    && r.insts.m.Keys == s.insts.m.Keys
    && (forall k :: k in s.insts.m ==> InstGrows(s.insts.m[k], r.insts.m[k], k == a))
    && (forall k :: k in s.aux.m ==> k in r.aux.m && r.aux.m[k] == s.aux.m[k])
    && (s.aux.Wf() ==> r.aux.Wf())
    && (AuxOk(s) ==> AuxOk(r))
  }

  lemma {:induction false} GrowsTrans(s: VisitState, t: VisitState, r: VisitState, a: int)
    requires Grows(s, t, a) && Grows(t, r, a)
    ensures Grows(s, r, a)
  {
    forall k | k in s.insts.m ensures InstGrows(s.insts.m[k], r.insts.m[k], k == a) {
      assert InstGrows(s.insts.m[k], t.insts.m[k], k == a);
      assert InstGrows(t.insts.m[k], r.insts.m[k], k == a);
    }
  }

  /** Writing the fields of the visited instruction is a growing step. */
  lemma {:induction false} SetGrows(s: VisitState, a: int, j: Inst)
    requires a in s.insts.m && InstGrows(s.insts.m[a], j, true)
    ensures Grows(s, s.(insts := SetInst(s.insts, a, j)), a)
  {
    var r := s.(insts := SetInst(s.insts, a, j));
    forall k | k in s.insts.m ensures InstGrows(s.insts.m[k], r.insts.m[k], k == a) {
      if k != a {
        assert r.insts.m[k] == s.insts.m[k];
      }
    }
  }

  /**
   * `enter(inst, t)` for the instruction at `a`: an extern target or a
   * software interrupt gets an auxiliary instruction at `t`; any other
   * target that is not a decoded instruction gets the shared `invalid`
   * instruction and the visited instruction's branch target becomes
   * `InvalidAddr`; a decoded target begins a block.
   */
  function Enter(s: VisitState, a: int, t: int, auxSize: int): (r: VisitState)
    requires a in s.insts.m
  {
    var i := s.insts.m[a];
    match TargetKind(s.insts.m, i.operand, t)
    case Extern => s.(aux := AddAux(s.aux, t, "extrn_sym", auxSize))
    case SoftIrq => s.(aux := AddAux(s.aux, t, SoftIrqName(t), auxSize))
    case Unresolved =>
      VisitState(SetInst(s.insts, a, i.(branchTo := Some(InvalidAddr))),
                 AddAux(s.aux, InvalidAddr, "invalid", auxSize))
    case Resolved => s.(insts := SetInst(s.insts, t, s.insts.m[t].(start := true)))
  }

  /** `enter` on a decoded instruction marks it as a block start and changes nothing else. */
  lemma {:induction false} EnterResolved(s: VisitState, a: int, t: int, auxSize: int)
    requires a in s.insts.m && t in s.insts.m
    ensures var r := s.(insts := SetInst(s.insts, t, s.insts.m[t].(start := true)));
      && Grows(s, r, a) && r.insts.m[t].start
      && r.insts.m[a] == s.insts.m[a].(start := r.insts.m[a].start)
  {
    var r := s.(insts := SetInst(s.insts, t, s.insts.m[t].(start := true)));
    forall k | k in s.insts.m ensures InstGrows(s.insts.m[k], r.insts.m[k], k == a) {
      if k != t {
        assert r.insts.m[k] == s.insts.m[k];
      }
    }
  }

  /** Adding an auxiliary instruction is a growing step that leaves the index alone. */
  lemma {:induction false} AddAuxGrows(s: VisitState, a: int, t: int, name: string, auxSize: int)
    ensures var r := s.(aux := AddAux(s.aux, t, name, auxSize));
      Grows(s, r, a) && t in r.aux.m && r.insts == s.insts
  {
  }

  /** `enter` on an unresolvable target records `InvalidAddr` and adds the `invalid` instruction. */
  lemma {:induction false} EnterInvalid(s: VisitState, a: int, auxSize: int)
    requires a in s.insts.m
    ensures var i := s.insts.m[a];
      var r := VisitState(SetInst(s.insts, a, i.(branchTo := Some(InvalidAddr))),
                          AddAux(s.aux, InvalidAddr, "invalid", auxSize));
      Grows(s, r, a) && InvalidAddr in r.aux.m
  {
    var i := s.insts.m[a];
    SetGrows(s, a, i.(branchTo := Some(InvalidAddr)));
  }

  /** What one `enter` does, by the kind of its target. */
  lemma {:induction false} EnterEffect(s: VisitState, a: int, t: int, auxSize: int)
    requires a in s.insts.m
    ensures var r, k := Enter(s, a, t, auxSize), TargetKind(s.insts.m, s.insts.m[a].operand, t);
      && Grows(s, r, a)
      && (k == Resolved ==> r.insts.m[t].start && r.aux == s.aux)
      && (k == Extern || k == SoftIrq ==> t in r.aux.m && r.insts == s.insts)
      && (k == SoftIrq && t !in s.aux.m ==> r.aux.m[t].operand == SoftIrqName(t))
      && (k == Unresolved ==>
            InvalidAddr in r.aux.m && r.insts.m[a].branchTo == Some(InvalidAddr))
      && r.insts.m[a] == s.insts.m[a].(
           branchTo := if k == Unresolved then Some(InvalidAddr) else s.insts.m[a].branchTo,
           start := r.insts.m[a].start)
  {
    var i := s.insts.m[a];
    match TargetKind(s.insts.m, i.operand, t)
    case Extern => AddAuxGrows(s, a, t, "extrn_sym", auxSize);
    case SoftIrq => AddAuxGrows(s, a, t, SoftIrqName(t), auxSize);
    case Unresolved => EnterInvalid(s, a, auxSize);
    case Resolved => EnterResolved(s, a, t, auxSize);
  }

  /** `call`: a call transfer to the found address, entered once; fall-through is kept. */
  function Call(s: VisitState, a: int, auxSize: int): (r: VisitState)
    requires a in s.insts.m
  {
    var i := s.insts.m[a];
    var s1 := s.(insts := SetInst(s.insts, a, i.(call := true, branchTo := Some(i.target))));
    Enter(s1, a, i.target, auxSize)
  }

  /** `branch`: the target and the next address are both entered. */
  function Branch(s: VisitState, a: int, auxSize: int): (r: VisitState)
    requires a in s.insts.m
  {
    var i := s.insts.m[a];
    var s1 := s.(insts := SetInst(s.insts, a, i.(branchTo := Some(i.target))));
    Enter(Enter(s1, a, i.target, auxSize), a, NextAddr(a, i.size), auxSize)
  }

  /** `jump`: like `branch`, and control no longer falls through. */
  function Jump(s: VisitState, a: int, auxSize: int): (r: VisitState)
    requires a in s.insts.m
  {
    var i := s.insts.m[a];
    var s1 := s.(insts := SetInst(s.insts, a, i.(fallThrough := false, branchTo := Some(i.target))));
    Enter(Enter(s1, a, i.target, auxSize), a, NextAddr(a, i.size), auxSize)
  }

  /** `end`: no fall-through; the next address is entered only inside the program. */
  function End(s: VisitState, a: int, programEnd: int, auxSize: int): (r: VisitState)
    requires a in s.insts.m
  {
    var i := s.insts.m[a];
    var s1 := s.(insts := SetInst(s.insts, a, i.(fallThrough := false)));
    if NextAddr(a, i.size) <= programEnd then Enter(s1, a, NextAddr(a, i.size), auxSize) else s1
  }

  /** `inst.accept(builder)`: the handler of the instruction's category. */
  function Accept(s: VisitState, a: int, programEnd: int, auxSize: int): (r: VisitState)
    requires a in s.insts.m
  {
    match s.insts.m[a].category
    case Default => s
    case Calling => Call(s, a, auxSize)
    case ConditionalJump => Branch(s, a, auxSize)
    case UnconditionalJump => Jump(s, a, auxSize)
    case EndHere => End(s, a, programEnd, auxSize)
  }

  /** `enter` meets a target that is neither extern, an interrupt nor an instruction. */
  predicate Unresolvable(s: VisitState, a: int, t: int)
    requires a in s.insts.m
  {
    TargetKind(s.insts.m, s.insts.m[a].operand, t) == Unresolved
  }

  /**
   * `call` marks a call and records the found address (or `InvalidAddr`
   * when `enter` cannot resolve it); fall-through is left alone.
   */
  lemma {:induction false} CallEffect(s: VisitState, a: int, auxSize: int)
    requires a in s.insts.m
    ensures var i, r := s.insts.m[a], Call(s, a, auxSize);
      && Grows(s, r, a)
      && r.insts.m[a] == i.(
           call := true,
           branchTo := Some(if Unresolvable(s, a, i.target) then InvalidAddr else i.target),
           start := r.insts.m[a].start)
  {
    var i := s.insts.m[a];
    var s1 := s.(insts := SetInst(s.insts, a, i.(call := true, branchTo := Some(i.target))));
    SetGrows(s, a, i.(call := true, branchTo := Some(i.target)));
    EnterEffect(s1, a, i.target, auxSize);
    UnresolvableGrows(s, s1, a, i.target);
    GrowsTrans(s, s1, Call(s, a, auxSize), a);
  }

  /** Growing steps do not change how a target is classified. */
  lemma {:induction false} UnresolvableGrows(s: VisitState, r: VisitState, a: int, x: int)
    requires a in s.insts.m && Grows(s, r, a)
    ensures Unresolvable(r, a, x) == Unresolvable(s, a, x)
  {
    assert InstGrows(s.insts.m[a], r.insts.m[a], true);
    assert x in r.insts.m <==> x in s.insts.m;
  }

  /** The two `enter` calls of `branch` and `jump`, on `t` and then on `n`. */
  lemma {:induction false} EnterTwice(s: VisitState, a: int, t: int, n: int, auxSize: int)
    requires a in s.insts.m
    ensures var r := Enter(Enter(s, a, t, auxSize), a, n, auxSize);
      && Grows(s, r, a)
      && r.insts.m[a] == s.insts.m[a].(
           branchTo := if Unresolvable(s, a, t) || Unresolvable(s, a, n) then Some(InvalidAddr)
                       else s.insts.m[a].branchTo,
           start := r.insts.m[a].start)
  {
    var s2 := Enter(s, a, t, auxSize);
    EnterEffect(s, a, t, auxSize);
    EnterEffect(s2, a, n, auxSize);
    UnresolvableGrows(s, s2, a, n);
    GrowsTrans(s, s2, Enter(s2, a, n, auxSize), a);
  }

  /**
   * `branch` records the found address, but `InvalidAddr` when either of
   * its two `enter` calls, on the target and on `a + size`, is unresolved:
   * a branch to a valid target whose next address is no instruction ends
   * up with `InvalidAddr`. `call` and fall-through are left alone.
   */
  lemma {:induction false} BranchEffect(s: VisitState, a: int, auxSize: int)
    requires a in s.insts.m
    ensures var i, r := s.insts.m[a], Branch(s, a, auxSize);
      && Grows(s, r, a)
      && r.insts.m[a] == i.(
           branchTo := Some(if Unresolvable(s, a, i.target) || Unresolvable(s, a, NextAddr(a, i.size))
                            then InvalidAddr else i.target),
           start := r.insts.m[a].start)
  {
    var i := s.insts.m[a];
    var j := i.(branchTo := Some(i.target));
    var s1 := s.(insts := SetInst(s.insts, a, j));
    SetGrows(s, a, j);
    EnterTwice(s1, a, i.target, NextAddr(a, i.size), auxSize);
    UnresolvableGrows(s, s1, a, i.target);
    UnresolvableGrows(s, s1, a, NextAddr(a, i.size));
    GrowsTrans(s, s1, Branch(s, a, auxSize), a);
  }

  /** `jump` records its target as `branch` does, and clears fall-through. */
  lemma {:induction false} JumpEffect(s: VisitState, a: int, auxSize: int)
    requires a in s.insts.m
    ensures var i, r := s.insts.m[a], Jump(s, a, auxSize);
      && Grows(s, r, a)
      && r.insts.m[a] == i.(
           fallThrough := false,
           branchTo := Some(if Unresolvable(s, a, i.target) || Unresolvable(s, a, NextAddr(a, i.size))
                            then InvalidAddr else i.target),
           start := r.insts.m[a].start)
  {
    var i := s.insts.m[a];
    var j := i.(fallThrough := false, branchTo := Some(i.target));
    var s1 := s.(insts := SetInst(s.insts, a, j));
    SetGrows(s, a, j);
    EnterTwice(s1, a, i.target, NextAddr(a, i.size), auxSize);
    UnresolvableGrows(s, s1, a, i.target);
    UnresolvableGrows(s, s1, a, NextAddr(a, i.size));
    GrowsTrans(s, s1, Jump(s, a, auxSize), a);
  }

  /**
   * `end` clears fall-through and enters `a + size` only when that is at
   * most `programEnd`; otherwise nothing else changes.
   */
  lemma {:induction false} EndEffect(s: VisitState, a: int, programEnd: int, auxSize: int)
    requires a in s.insts.m
    ensures var i, r := s.insts.m[a], End(s, a, programEnd, auxSize);
      && Grows(s, r, a)
      && r.insts.m[a] == i.(
           fallThrough := false,
           branchTo := if NextAddr(a, i.size) <= programEnd && Unresolvable(s, a, NextAddr(a, i.size))
                       then Some(InvalidAddr) else i.branchTo,
           start := r.insts.m[a].start)
      && (NextAddr(a, i.size) > programEnd ==> r.aux == s.aux)
  {
    var i := s.insts.m[a];
    var j := i.(fallThrough := false);
    var s1 := s.(insts := SetInst(s.insts, a, j));
    SetGrows(s, a, j);
    if NextAddr(a, i.size) <= programEnd {
      EnterEffect(s1, a, NextAddr(a, i.size), auxSize);
      UnresolvableGrows(s, s1, a, NextAddr(a, i.size));
      GrowsTrans(s, s1, End(s, a, programEnd, auxSize), a);
    }
  }

  /** Every handler is a growing step. */
  lemma {:induction false} AcceptGrows(s: VisitState, a: int, programEnd: int, auxSize: int)
    requires a in s.insts.m
    ensures Grows(s, Accept(s, a, programEnd, auxSize), a)
    ensures Accept(s, a, programEnd, auxSize).insts.m[a].bytes == s.insts.m[a].bytes
    ensures Accept(s, a, programEnd, auxSize).insts.m[a].rawStrs == s.insts.m[a].rawStrs
  {
    match s.insts.m[a].category {
      case Default => SetGrows(s, a, s.insts.m[a]);
        assert s.(insts := SetInst(s.insts, a, s.insts.m[a])) == s;
      case Calling => CallEffect(s, a, auxSize);
      case ConditionalJump => BranchEffect(s, a, auxSize);
      case UnconditionalJump => JumpEffect(s, a, auxSize);
      case EndHere => EndEffect(s, a, programEnd, auxSize);
    }
  }

  // ---------------------------------------------------------------------
  // Resolution: every recorded target ends up as a block start

  /** Address `b` is an auxiliary instruction or a decoded instruction that begins a block. */
  ghost predicate Covered(s: VisitState, b: int) {
    b in s.aux.m || (b in s.insts.m && s.insts.m[b].start)
  }

  /** The instruction at `a` has no recorded target, or a covered one. */
  ghost predicate Settled(s: VisitState, a: int) {
    a in s.insts.m ==>
      s.insts.m[a].branchTo.None? || Covered(s, s.insts.m[a].branchTo.value)
  }

  ghost predicate AllSettled(s: VisitState) {
    forall a :: Settled(s, a)
  }

  lemma {:induction false} CoveredGrows(s: VisitState, r: VisitState, a: int, b: int)
    requires Grows(s, r, a) && Covered(s, b)
    ensures Covered(r, b)
  {
  }

  /** Entering a target covers it, or records `InvalidAddr` and covers that. */
  lemma {:induction false} EnterCovers(s: VisitState, a: int, t: int, auxSize: int)
    requires a in s.insts.m
    ensures var r := Enter(s, a, t, auxSize);
      Covered(r, t) || (r.insts.m[a].branchTo == Some(InvalidAddr) && Covered(r, InvalidAddr))
  {
    EnterEffect(s, a, t, auxSize);
  }

  /** A visiting step settles the visited instruction and keeps the others settled. */
  lemma {:induction false} AcceptSettles(s: VisitState, a: int, programEnd: int, auxSize: int)
    requires a in s.insts.m && AllSettled(s)
    ensures AllSettled(Accept(s, a, programEnd, auxSize))
    ensures s.insts.m[a].category in {Calling, ConditionalJump, UnconditionalJump} ==>
      Accept(s, a, programEnd, auxSize).insts.m[a].branchTo.Some?
  {
    var i := s.insts.m[a];
    var r := Accept(s, a, programEnd, auxSize);
    AcceptGrows(s, a, programEnd, auxSize);
    match i.category {
      case Default =>
      case Calling =>
        CallEffect(s, a, auxSize);
        var s1 := s.(insts := SetInst(s.insts, a, i.(call := true, branchTo := Some(i.target))));
        EnterCovers(s1, a, i.target, auxSize);
      case ConditionalJump =>
        BranchEffect(s, a, auxSize);
        var s1 := s.(insts := SetInst(s.insts, a, i.(branchTo := Some(i.target))));
        SecondEnterSettles(s1, a, i.target, NextAddr(a, i.size), auxSize);
      case UnconditionalJump =>
        JumpEffect(s, a, auxSize);
        var s1 := s.(insts := SetInst(s.insts, a, i.(fallThrough := false, branchTo := Some(i.target))));
        SecondEnterSettles(s1, a, i.target, NextAddr(a, i.size), auxSize);
      case EndHere =>
        EndEffect(s, a, programEnd, auxSize);
        var s1 := s.(insts := SetInst(s.insts, a, i.(fallThrough := false)));
        assert Settled(s, a);
        SetKeepsSettled(s, a, i.(fallThrough := false));
        if NextAddr(a, i.size) <= programEnd {
          EnterKeepsSettled(s1, a, NextAddr(a, i.size), auxSize);
        }
    }
    SettledOthers(s, r, a);
  }

  /** Writing flags other than the target keeps the visited instruction settled. */
  lemma {:induction false} SetKeepsSettled(s: VisitState, a: int, j: Inst)
    requires a in s.insts.m && Settled(s, a)
    requires InstGrows(s.insts.m[a], j, true) && j.branchTo == s.insts.m[a].branchTo
    ensures Settled(s.(insts := SetInst(s.insts, a, j)), a)
  {
    SetGrows(s, a, j);
    if j.branchTo.Some? {
      CoveredGrows(s, s.(insts := SetInst(s.insts, a, j)), a, j.branchTo.value);
    }
  }

  /** Two `enter` calls after recording the target settle the visited instruction. */
  lemma {:induction false} SecondEnterSettles(s1: VisitState, a: int, t: int, n: int, auxSize: int)
    requires a in s1.insts.m && s1.insts.m[a].branchTo == Some(t)
    ensures Settled(Enter(Enter(s1, a, t, auxSize), a, n, auxSize), a)
  {
    var s2 := Enter(s1, a, t, auxSize);
    EnterCovers(s1, a, t, auxSize);
    assert Settled(s2, a);
    EnterKeepsSettled(s2, a, n, auxSize);
  }

  /** `enter` keeps the visited instruction settled. */
  lemma {:induction false} EnterKeepsSettled(s: VisitState, a: int, t: int, auxSize: int)
    requires a in s.insts.m && Settled(s, a)
    ensures Settled(Enter(s, a, t, auxSize), a)
  {
    var r := Enter(s, a, t, auxSize);
    EnterEffect(s, a, t, auxSize);
    if TargetKind(s.insts.m, s.insts.m[a].operand, t) == Unresolved {
      assert Covered(r, InvalidAddr);
    } else if s.insts.m[a].branchTo.Some? {
      CoveredGrows(s, r, a, s.insts.m[a].branchTo.value);
    }
  }

  /** Instructions other than the visited one stay settled. */
  lemma {:induction false} SettledOthers(s: VisitState, r: VisitState, a: int)
    requires Grows(s, r, a) && AllSettled(s) && Settled(r, a)
    ensures AllSettled(r)
  {
    forall k ensures Settled(r, k) {
      if k in r.insts.m && k != a {
        assert Settled(s, k);
        if s.insts.m[k].branchTo.Some? {
          CoveredGrows(s, r, a, s.insts.m[k].branchTo.value);
        }
      }
    }
  }

  // ---------------------------------------------------------------------
  // The whole pass

  /**
   * The body of the loop of `visitInsts` for `addr`: the handler runs, then
   * the instruction takes its byte tokens and raw lines when there are any.
   */
  function VisitStep(s: VisitState, a: int, programEnd: int, auxSize: int,
                     addr2Bytes: map<int, seq<string>>, addr2RawStr: map<int, seq<string>>): (r: VisitState)
    requires a in s.insts.m
  {
    var s1 := Accept(s, a, programEnd, auxSize);
    AcceptGrows(s, a, programEnd, auxSize);
    s1.(insts := Attach(s1.insts, a, addr2Bytes, addr2RawStr))
  }

  /** A visiting step only adds, and the visited instruction takes its byte tokens and raw lines. */
  lemma {:induction false} VisitStepGrows(s: VisitState, a: int, programEnd: int, auxSize: int,
                                          addr2Bytes: map<int, seq<string>>, addr2RawStr: map<int, seq<string>>)
    requires a in s.insts.m
    ensures var r := VisitStep(s, a, programEnd, auxSize, addr2Bytes, addr2RawStr);
      && Grows(s, r, a)
      && r.insts.m[a].bytes == (if a in addr2Bytes then addr2Bytes[a] else s.insts.m[a].bytes)
      && r.insts.m[a].rawStrs == (if a in addr2RawStr then addr2RawStr[a] else s.insts.m[a].rawStrs)
  {
    AcceptGrows(s, a, programEnd, auxSize);
    var s1 := Accept(s, a, programEnd, auxSize);
    SetGrows(s1, a, Attached(s1.insts.m[a], a, addr2Bytes, addr2RawStr));
    GrowsTrans(s, s1, s1.(insts := Attach(s1.insts, a, addr2Bytes, addr2RawStr)), a);
  }

  /** The instruction at `a` with its byte tokens and raw lines, where there are any. */
  function Attached(i: Inst, a: int, addr2Bytes: map<int, seq<string>>, addr2RawStr: map<int, seq<string>>): Inst {
    i.(bytes := if a in addr2Bytes then addr2Bytes[a] else i.bytes,
       rawStrs := if a in addr2RawStr then addr2RawStr[a] else i.rawStrs)
  }

  /** The instruction at `a` takes its byte tokens and raw lines. */
  function Attach(insts: OrdMap<int, Inst>, a: int, addr2Bytes: map<int, seq<string>>, addr2RawStr: map<int, seq<string>>)
    : (r: OrdMap<int, Inst>)
    requires a in insts.m
  {
    SetInst(insts, a, Attached(insts.m[a], a, addr2Bytes, addr2RawStr))
  }

  /** `visitInsts` before the merge: one step per key, in the index's order. */
  function VisitAll(s: VisitState, ks: seq<int>, programEnd: int, auxSize: int,
                    addr2Bytes: map<int, seq<string>>, addr2RawStr: map<int, seq<string>>): (r: VisitState)
    requires forall k :: k in ks ==> k in s.insts.m
    ensures r.insts.keys == s.insts.keys && r.insts.m.Keys == s.insts.m.Keys
    ensures s.aux.Wf() ==> r.aux.Wf()
    decreases |ks|
  {
    if ks == [] then s
    else
      var prev := VisitAll(s, ks[..|ks| - 1], programEnd, auxSize, addr2Bytes, addr2RawStr);
      VisitStepGrows(prev, ks[|ks| - 1], programEnd, auxSize, addr2Bytes, addr2RawStr);
      VisitStep(prev, ks[|ks| - 1], programEnd, auxSize, addr2Bytes, addr2RawStr)
  }

  /** One more key: the loop of `visitInsts` takes one more step. */
  lemma {:induction false} VisitAllNext(s: VisitState, ks: seq<int>, j: nat, programEnd: int, auxSize: int,
                                        addr2Bytes: map<int, seq<string>>, addr2RawStr: map<int, seq<string>>)
    requires j < |ks| && forall k :: k in ks ==> k in s.insts.m
    ensures forall k :: k in ks[..j] ==> k in s.insts.m
    ensures forall k :: k in ks[..j + 1] ==> k in s.insts.m
    ensures ks[j] in VisitAll(s, ks[..j], programEnd, auxSize, addr2Bytes, addr2RawStr).insts.m
    ensures VisitAll(s, ks[..j + 1], programEnd, auxSize, addr2Bytes, addr2RawStr)
            == VisitStep(VisitAll(s, ks[..j], programEnd, auxSize, addr2Bytes, addr2RawStr), ks[j],
                         programEnd, auxSize, addr2Bytes, addr2RawStr)
  {
    assert ks[..j + 1][..j] == ks[..j];
    assert ks[j] in ks;
  }

  /** `addr2Inst.update(addr2InstAux)` */
  function Merge(s: VisitState): (r: OrdMap<int, Inst>)
    requires s.aux.Wf()
    ensures s.insts.Wf() ==> r.Wf()
    ensures forall k :: k in r.m <==> k in s.insts.m || k in s.aux.m
    ensures forall k :: k in s.aux.m ==> r.m[k] == s.aux.m[k]
    ensures forall k :: k in s.insts.m && k !in s.aux.m ==> r.m[k] == s.insts.m[k]
  {
    Update(s.insts, s.aux.keys, s.aux.m)
  }

  /** The visiting steps keep everything settled and the auxiliary instructions well formed. */
  lemma {:induction false} VisitAllSettles(s: VisitState, ks: seq<int>, programEnd: int, auxSize: int,
                                           addr2Bytes: map<int, seq<string>>, addr2RawStr: map<int, seq<string>>)
    requires forall k :: k in ks ==> k in s.insts.m
    requires AllSettled(s) && AuxOk(s) && s.insts.Wf() && s.aux.Wf()
    ensures var r := VisitAll(s, ks, programEnd, auxSize, addr2Bytes, addr2RawStr);
      AllSettled(r) && AuxOk(r) && r.insts.Wf() && r.aux.Wf()
    decreases |ks|
  {
    if ks != [] {
      var prev := VisitAll(s, ks[..|ks| - 1], programEnd, auxSize, addr2Bytes, addr2RawStr);
      VisitAllSettles(s, ks[..|ks| - 1], programEnd, auxSize, addr2Bytes, addr2RawStr);
      VisitStepSettles(prev, ks[|ks| - 1], programEnd, auxSize, addr2Bytes, addr2RawStr);
    }
  }

  /** One visiting step keeps everything settled and the auxiliary instructions well formed. */
  lemma {:induction false} VisitStepSettles(s: VisitState, a: int, programEnd: int, auxSize: int,
                                            addr2Bytes: map<int, seq<string>>, addr2RawStr: map<int, seq<string>>)
    requires a in s.insts.m
    requires AllSettled(s) && AuxOk(s) && s.insts.Wf() && s.aux.Wf()
    ensures var r := VisitStep(s, a, programEnd, auxSize, addr2Bytes, addr2RawStr);
      AllSettled(r) && AuxOk(r) && r.insts.Wf() && r.aux.Wf()
  {
    AcceptSettles(s, a, programEnd, auxSize);
    var s1 := Accept(s, a, programEnd, auxSize);
    var r := VisitStep(s, a, programEnd, auxSize, addr2Bytes, addr2RawStr);
    VisitStepGrows(s, a, programEnd, auxSize, addr2Bytes, addr2RawStr);
    assert Settled(s1, a);
    assert Settled(r, a);
    SettledOthers(s, r, a);
  }

  /** The visiting steps keep every instruction, and every auxiliary one, at its own address. */
  lemma {:induction false} VisitAllKeyed(s: VisitState, ks: seq<int>, programEnd: int, auxSize: int,
                                         addr2Bytes: map<int, seq<string>>, addr2RawStr: map<int, seq<string>>)
    requires forall k :: k in ks ==> k in s.insts.m
    requires Keyed(s.insts.m) && AuxOk(s)
    ensures var r := VisitAll(s, ks, programEnd, auxSize, addr2Bytes, addr2RawStr);
      Keyed(r.insts.m) && AuxOk(r)
    decreases |ks|
  {
    if ks != [] {
      var a := ks[|ks| - 1];
      var prev := VisitAll(s, ks[..|ks| - 1], programEnd, auxSize, addr2Bytes, addr2RawStr);
      VisitAllKeyed(s, ks[..|ks| - 1], programEnd, auxSize, addr2Bytes, addr2RawStr);
      VisitStepGrows(prev, a, programEnd, auxSize, addr2Bytes, addr2RawStr);
      var r := VisitStep(prev, a, programEnd, auxSize, addr2Bytes, addr2RawStr);
      forall k | k in r.insts.m ensures r.insts.m[k].address == k {
        assert InstGrows(prev.insts.m[k], r.insts.m[k], k == a);
      }
    }
  }

  /** After the merge every instruction of the index, decoded or auxiliary, still sits at its own address. */
  lemma {:induction false} MergeKeyed(s: VisitState)
    requires s.aux.Wf() && Keyed(s.insts.m) && AuxOk(s)
    ensures Keyed(Merge(s).m)
  {
    var merged := Merge(s);
    forall k | k in merged.m ensures merged.m[k].address == k {
      if k in s.aux.m {
        assert merged.m[k] == s.aux.m[k];
      } else {
        assert merged.m[k] == s.insts.m[k];
      }
    }
  }

  /** Once every instruction is settled, every target recorded in the merged index is a block start of it. */
  lemma {:induction false} MergeResolves(r: VisitState)
    requires AllSettled(r) && AuxOk(r) && r.aux.Wf()
    ensures var merged := Merge(r);
      forall k :: k in merged.m && merged.m[k].branchTo.Some? ==>
        merged.m[k].branchTo.value in merged.m && merged.m[merged.m[k].branchTo.value].start
  {
    var merged := Merge(r);
    forall k | k in merged.m && merged.m[k].branchTo.Some?
      ensures merged.m[k].branchTo.value in merged.m && merged.m[merged.m[k].branchTo.value].start
    {
      assert k !in r.aux.m;
      assert Settled(r, k);
    }
  }

  /**
   * After `visitInsts` every recorded branch target of the merged index is
   * itself an instruction of the index that begins a block, provided the
   * decoder recorded no targets and the auxiliary index starts empty.
   */
  lemma {:induction false} VisitResolvesTargets(s: VisitState, programEnd: int, auxSize: int,
                                                addr2Bytes: map<int, seq<string>>, addr2RawStr: map<int, seq<string>>)
    requires s.insts.Wf() && s.aux == Empty()
    requires forall k :: k in s.insts.m ==> s.insts.m[k].branchTo.None?
    ensures var merged := Merge(VisitAll(s, s.insts.keys, programEnd, auxSize, addr2Bytes, addr2RawStr));
      && merged.Wf()
      && forall k :: k in merged.m && merged.m[k].branchTo.Some? ==>
           merged.m[k].branchTo.value in merged.m && merged.m[merged.m[k].branchTo.value].start
  {
    assert AllSettled(s);
    VisitAllSettles(s, s.insts.keys, programEnd, auxSize, addr2Bytes, addr2RawStr);
    MergeResolves(VisitAll(s, s.insts.keys, programEnd, auxSize, addr2Bytes, addr2RawStr));
  }
}
