/**
 * Block assembly (`getBlockAtAddr` and `connectBlocks`,
 * maldefender/cfg_builder.py:449-495): one pass over the instruction index
 * in ascending address order groups the instructions into basic blocks and
 * records the fall-through, branch and call-return edges between blocks.
 *
 * Blocks are values in the map `addr2Block`, keyed by their start address;
 * the cursor `currBlock` is the key of the current block, so an update
 * through the cursor and a later read through the map see the same block.
 * Edges are recorded as the key of the target block, which is its start
 * address (`KeyedBlocks`).
 */
module Assembly {
  import opened Wrappers
  import opened Instructions
  import opened Blocks

  /**
   * `getBlockAtAddr`: the block map once a block starts at `addr`; a new
   * block begins and ends at `addr` and has no instructions and no edges.
   */
  function GetBlockAt(blocks: map<int, Block>, addr: int): (r: map<int, Block>)
    ensures addr in r
    ensures addr !in blocks ==> r[addr] == Block(addr, addr, [], [])
    ensures forall k :: k in blocks ==> k in r && r[k] == blocks[k]
    ensures forall k :: k in r ==> k in blocks || k == addr
  {
    if addr in blocks then blocks else blocks[addr := EmptyBlock.(startAddr := addr, endAddr := addr)]
  }

  /** Asking twice for the same address adds nothing the second time. */
  lemma {:induction false} GetBlockAtIdempotent(blocks: map<int, Block>, addr: int)
    ensures GetBlockAt(GetBlockAt(blocks, addr), addr) == GetBlockAt(blocks, addr)
    ensures addr in blocks ==> GetBlockAt(blocks, addr) == blocks
  {
  }

  function AddEdge(b: Block, e: int): Block {
    b.(edgeList := b.edgeList + [e])
  }

  /** Append an edge unless the list already has it. */
  function AddEdgeOnce(b: Block, e: int): (r: Block)
    ensures e in r.edgeList
    ensures e in b.edgeList ==> r == b
    ensures e !in b.edgeList ==> r == AddEdge(b, e)
  {
    if e in b.edgeList then b else AddEdge(b, e)
  }

  /** The key of the block that receives the instruction at `addr`. */
  function Current(cur: Option<int>, addr: int, inst: Inst): int {
    if cur.None? || inst.start then addr else cur.value
  }

  /** Lines 467-468: a new current block at `addr` when there is none or the instruction starts one. */
  function SelectBlock(blocks: map<int, Block>, cur: Option<int>, addr: int, inst: Inst): (r: (int, map<int, Block>))
    requires cur.Some? ==> cur.value in blocks
    ensures r.0 in r.1
    ensures r.0 == Current(cur, addr, inst)
  {
    if cur.None? || inst.start then (addr, GetBlockAt(blocks, addr))
    else (cur.value, blocks)
  }

  /** The fall-through condition of lines 471-473. */
  predicate FallsInto(insts: map<int, Inst>, addr: int, inst: Inst) {
    var nextAddr := NextAddr(addr, inst.size);
    nextAddr in insts && inst.fallThrough && insts[nextAddr].start
  }

  /**
   * Lines 469-475: the next current block, and the fall-through edge from
   * the current block when control falls into an instruction that starts a
   * block.
   */
  function FallEdge(insts: map<int, Inst>, blocks: map<int, Block>, c: int, addr: int, inst: Inst)
    : (r: (int, map<int, Block>))
    requires c in blocks
    ensures r.0 in r.1
  {
    var nextAddr := NextAddr(addr, inst.size);
    if FallsInto(insts, addr, inst) then
      var b := GetBlockAt(blocks, nextAddr);
      (nextAddr, b[c := AddEdge(b[c], nextAddr)])
    else (c, blocks)
  }

  /**
   * Lines 479-488: the branch edge from the current block to the target's
   * block, and for a call the return edge back, each added only if absent.
   */
  function BranchEdges(blocks: map<int, Block>, c: int, inst: Inst): (r: map<int, Block>)
    requires c in blocks
  {
    if inst.branchTo.None? then blocks
    else
      var t := inst.branchTo.value;
      var b := GetBlockAt(blocks, t);
      var b1 := b[c := AddEdgeOnce(b[c], t)];
      if inst.call then b1[t := AddEdgeOnce(b1[t], c)] else b1
  }

  /** Lines 492-494: the instruction joins the current block, whose end address grows. */
  function AppendInst(blocks: map<int, Block>, c: int, inst: Inst): (r: map<int, Block>)
    requires c in blocks
  {
    var b := blocks[c];
    blocks[c := b.(instList := b.instList + [inst], endAddr := if b.endAddr < inst.address then inst.address else b.endAddr)]
  }

  datatype Cursor = Cursor(blocks: map<int, Block>, cur: Option<int>)

  /** The current block, when there is one, is a block of the map. */
  predicate CursorOk(st: Cursor) {
    st.cur.Some? ==> st.cur.value in st.blocks
  }

  /** One iteration of the loop of `connectBlocks`, for the instruction at `addr`. */
  function ConnectStep(insts: map<int, Inst>, st: Cursor, addr: int): (r: Cursor)
    requires addr in insts && CursorOk(st)
    ensures r.cur.Some? && r.cur.value in r.blocks
  {
    var inst := insts[addr];
    var (c, b1) := SelectBlock(st.blocks, st.cur, addr, inst);
    var (next, b2) := FallEdge(insts, b1, c, addr, inst);
    var b3 := BranchEdges(b2, c, inst);
    Cursor(AppendInst(b3, c, inst), Some(next))
  }

  /** The loop of `connectBlocks` over the addresses `ks`. */
  function ConnectFold(insts: map<int, Inst>, st: Cursor, ks: seq<int>): (r: Cursor)
    requires forall k :: k in ks ==> k in insts
    requires CursorOk(st)
    ensures CursorOk(r)
    decreases |ks|
  {
    if ks == [] then st
    else ConnectStep(insts, ConnectFold(insts, st, ks[..|ks| - 1]), ks[|ks| - 1])
  }

  /** One more address: the loop of `connectBlocks` takes one more step. */
  lemma {:induction false} ConnectFoldNext(insts: map<int, Inst>, st: Cursor, ks: seq<int>, j: nat)
    requires j < |ks| && CursorOk(st) && forall k :: k in ks ==> k in insts
    ensures forall k :: k in ks[..j] ==> k in insts
    ensures forall k :: k in ks[..j + 1] ==> k in insts
    ensures ks[j] in insts
    ensures ConnectFold(insts, st, ks[..j + 1]) == ConnectStep(insts, ConnectFold(insts, st, ks[..j]), ks[j])
  {
    assert ks[..j + 1][..j] == ks[..j];
    assert ks[j] in ks;
  }

  // ---------------------------------------------------------------------
  // Invariants of the pass

  /** Every block is stored under its start address. */
  ghost predicate KeyedBlocks(blocks: map<int, Block>) {
    forall k :: k in blocks ==> blocks[k].startAddr == k
  }

  /** The instructions of a block are in strictly ascending address order. */
  ghost predicate Ascending(insts: seq<Inst>) {
    forall x, y :: 0 <= x < y < |insts| ==> insts[x].address < insts[y].address
  }

  /** The largest address among the start address and the instructions' addresses. */
  function MaxAddr(start: int, insts: seq<Inst>): (r: int)
    ensures r >= start && forall i :: i in insts ==> r >= i.address
    ensures r == start || exists i :: i in insts && r == i.address
    decreases |insts|
  {
    if insts == [] then start
    else
      var m := MaxAddr(start, insts[..|insts| - 1]);
      var a := insts[|insts| - 1].address;
      assert forall i :: i in insts ==> i in insts[..|insts| - 1] || i == insts[|insts| - 1];
      if m < a then a else m
  }

  /** Each block sits at its start address, its instructions ascending, its end address their maximum. */
  ghost predicate Layout(blocks: map<int, Block>) {
    && KeyedBlocks(blocks)
    && (forall k :: k in blocks ==> Ascending(blocks[k].instList))
    && (forall k :: k in blocks ==> blocks[k].endAddr == MaxAddr(k, blocks[k].instList))
  }

  /** The blocks hold visited instructions of the index, as they stand there. */
  ghost predicate Members(insts: map<int, Inst>, done: set<int>, blocks: map<int, Block>) {
    forall k, i :: k in blocks && i in blocks[k].instList ==>
      i.address in done && i.address in insts && insts[i.address] == i
  }

  /** Every visited instruction is in some block. */
  ghost predicate Covers(insts: map<int, Inst>, done: set<int>, blocks: map<int, Block>) {
    forall a :: a in done ==> a in insts && exists k :: k in blocks && insts[a] in blocks[k].instList
  }

  /** No instruction is in two blocks. */
  ghost predicate Disjoint(blocks: map<int, Block>) {
    forall k1, k2, i :: k1 in blocks && k2 in blocks && i in blocks[k1].instList && i in blocks[k2].instList ==> k1 == k2
  }

  /** A visited instruction that starts a block is in the block at its own address. */
  ghost predicate StartsOwn(insts: map<int, Inst>, done: set<int>, blocks: map<int, Block>) {
    forall a :: a in done && a in insts && insts[a].start ==> a in blocks && insts[a] in blocks[a].instList
  }

  /**
   * What the pass has built after visiting the addresses `done` of the
   * index: the visited instructions, and nothing else, are partitioned
   * among blocks laid out by start address.
   */
  ghost predicate InstsInv(insts: map<int, Inst>, done: set<int>, blocks: map<int, Block>) {
    Layout(blocks) && Members(insts, done, blocks) && Covers(insts, done, blocks)
    && Disjoint(blocks) && StartsOwn(insts, done, blocks)
  }

  /** Every edge leads to a block of the map. */
  ghost predicate EdgesClosed(blocks: map<int, Block>) {
    forall k, e :: k in blocks && e in blocks[k].edgeList ==> e in blocks
  }

  /**
   * The edges that instruction `i` of block `k` calls for: to the block of
   * its branch target and, for a call, back from it; and to the next block
   * when control falls into an instruction that starts one.
   */
  ghost predicate Present(insts: map<int, Inst>, blocks: map<int, Block>, k: int, i: Inst)
    requires k in blocks
  {
    && (i.branchTo.Some? ==>
          && i.branchTo.value in blocks
          && i.branchTo.value in blocks[k].edgeList
          && (i.call ==> k in blocks[i.branchTo.value].edgeList))
    && (FallsInto(insts, i.address, i) ==> NextAddr(i.address, i.size) in blocks[k].edgeList)
  }

  ghost predicate EdgesPresent(insts: map<int, Inst>, blocks: map<int, Block>) {
    forall k, i :: k in blocks && i in blocks[k].instList ==> Present(insts, blocks, k, i)
  }

  /** An edge from `k` to `e` that instruction `i` of block `c` accounts for. */
  ghost predicate StepEdge(insts: map<int, Inst>, c: int, i: Inst, k: int, e: int) {
    || (k == c && FallsInto(insts, i.address, i) && e == NextAddr(i.address, i.size))
    || (k == c && i.branchTo == Some(e))
    || (i.call && i.branchTo == Some(k) && e == c)
  }

  /** An edge from `k` to `e` is accounted for by an instruction of `k` or, for a return edge, of `e`. */
  ghost predicate Justified(insts: map<int, Inst>, blocks: map<int, Block>, k: int, e: int) {
    || (k in blocks && exists i :: i in blocks[k].instList && StepEdge(insts, k, i, k, e))
    || (e in blocks && exists i :: i in blocks[e].instList && StepEdge(insts, e, i, k, e))
  }

  ghost predicate EdgesJustified(insts: map<int, Inst>, blocks: map<int, Block>) {
    forall k, e :: k in blocks && e in blocks[k].edgeList ==> Justified(insts, blocks, k, e)
  }

  /** The invariant of the loop of `connectBlocks` after the addresses `done`. */
  ghost predicate Inv(insts: map<int, Inst>, done: set<int>, blocks: map<int, Block>) {
    && InstsInv(insts, done, blocks)
    && EdgesClosed(blocks)
    && EdgesPresent(insts, blocks)
    && EdgesJustified(insts, blocks)
  }

  /** `b1` keeps every block of `b0` under its key, with its instructions and its edges. */
  ghost predicate BlocksGrow(b0: map<int, Block>, b1: map<int, Block>) {
    forall k :: k in b0 ==>
      && k in b1
      && b1[k].startAddr == b0[k].startAddr
      && (forall i :: i in b0[k].instList ==> i in b1[k].instList)
      && (forall e :: e in b0[k].edgeList ==> e in b1[k].edgeList)
  }

  /** `b1` differs from `b0` only by added edges and by new empty blocks. */
  ghost predicate OnlyEdges(b0: map<int, Block>, b1: map<int, Block>) {
    && BlocksGrow(b0, b1)
    && (forall k :: k in b0 ==> b1[k].instList == b0[k].instList && b1[k].endAddr == b0[k].endAddr)
    && (forall k :: k in b1 && k !in b0 ==> b1[k].startAddr == k && b1[k].endAddr == k && b1[k].instList == [])
  }

  /** Every edge of `b1` was in `b0` or is one that instruction `i` of block `c` accounts for. */
  ghost predicate NewEdgesFrom(insts: map<int, Inst>, b0: map<int, Block>, b1: map<int, Block>, c: int, i: Inst) {
    forall k, e :: k in b1 && e in b1[k].edgeList ==>
      (k in b0 && e in b0[k].edgeList) || StepEdge(insts, c, i, k, e)
  }

  lemma {:induction false} OnlyEdgesTrans(b0: map<int, Block>, b1: map<int, Block>, b2: map<int, Block>)
    requires OnlyEdges(b0, b1) && OnlyEdges(b1, b2)
    ensures OnlyEdges(b0, b2)
  {
  }

  lemma {:induction false} NewEdgesTrans(insts: map<int, Inst>, b0: map<int, Block>, b1: map<int, Block>,
                                         b2: map<int, Block>, c: int, i: Inst)
    requires BlocksGrow(b1, b2)
    requires NewEdgesFrom(insts, b0, b1, c, i) && NewEdgesFrom(insts, b1, b2, c, i)
    ensures NewEdgesFrom(insts, b0, b2, c, i)
  {
  }

  /** Choosing the current block adds at most an empty block and no edge. */
  lemma {:induction false} SelectPhase(insts: map<int, Inst>, blocks: map<int, Block>, cur: Option<int>, addr: int, inst: Inst)
    requires cur.Some? ==> cur.value in blocks
    ensures var r := SelectBlock(blocks, cur, addr, inst);
      OnlyEdges(blocks, r.1) && (EdgesClosed(blocks) ==> EdgesClosed(r.1)) && NewEdgesFrom(insts, blocks, r.1, r.0, inst)
      && (forall k :: k in r.1 ==> k in blocks || k == r.0)
  {
  }

  /** The fall-through edge is the only edge the second part adds. */
  lemma {:induction false} FallPhase(insts: map<int, Inst>, blocks: map<int, Block>, c: int, addr: int, inst: Inst)
    requires c in blocks && inst.address == addr
    ensures var r := FallEdge(insts, blocks, c, addr, inst);
      && OnlyEdges(blocks, r.1) && (EdgesClosed(blocks) ==> EdgesClosed(r.1)) && NewEdgesFrom(insts, blocks, r.1, c, inst)
      && (forall k :: k in r.1 ==> k in blocks || (FallsInto(insts, addr, inst) && k == NextAddr(addr, inst.size)))
      && (FallsInto(insts, addr, inst) ==> NextAddr(addr, inst.size) in r.1[c].edgeList)
  {
    if FallsInto(insts, addr, inst) {
      var b := GetBlockAt(blocks, NextAddr(addr, inst.size));
      var r := b[c := AddEdge(b[c], NextAddr(addr, inst.size))];
      assert r[c].edgeList == b[c].edgeList + [NextAddr(addr, inst.size)];
      assert FallEdge(insts, blocks, c, addr, inst).1 == r;
    }
  }

  /** Making sure there is a block at an address adds at most an empty block and no edge. */
  lemma {:induction false} GetBlockOnlyEdges(insts: map<int, Inst>, blocks: map<int, Block>, t: int, c: int, inst: Inst)
    ensures var b := GetBlockAt(blocks, t);
      OnlyEdges(blocks, b) && (EdgesClosed(blocks) ==> EdgesClosed(b)) && NewEdgesFrom(insts, blocks, b, c, inst)
  {
  }

  /** Adding an edge between two blocks of the map that instruction `inst` of block `c` accounts for. */
  lemma {:induction false} AddEdgeOnly(insts: map<int, Inst>, b0: map<int, Block>, k: int, e: int, c: int, inst: Inst)
    requires k in b0 && e in b0 && EdgesClosed(b0) && StepEdge(insts, c, inst, k, e)
    ensures var r := b0[k := AddEdgeOnce(b0[k], e)];
      OnlyEdges(b0, r) && EdgesClosed(r) && NewEdgesFrom(insts, b0, r, c, inst) && e in r[k].edgeList
  {
    var r := b0[k := AddEdgeOnce(b0[k], e)];
    assert forall x :: x in r[k].edgeList ==> x in b0[k].edgeList || x == e;
  }

  /** The branch edge and, for a call, the return edge are the only edges the third part adds. */
  lemma {:induction false} BranchPhase(insts: map<int, Inst>, blocks: map<int, Block>, c: int, inst: Inst)
    requires c in blocks && EdgesClosed(blocks)
    ensures var r := BranchEdges(blocks, c, inst);
      && OnlyEdges(blocks, r) && EdgesClosed(r) && NewEdgesFrom(insts, blocks, r, c, inst)
      && (inst.branchTo.Some? ==>
            && inst.branchTo.value in r
            && inst.branchTo.value in r[c].edgeList
            && (inst.call ==> c in r[inst.branchTo.value].edgeList))
  {
    if inst.branchTo.Some? {
      var t := inst.branchTo.value;
      var b := GetBlockAt(blocks, t);
      GetBlockOnlyEdges(insts, blocks, t, c, inst);
      var b1 := b[c := AddEdgeOnce(b[c], t)];
      AddEdgeOnly(insts, b, c, t, c, inst);
      OnlyEdgesTrans(blocks, b, b1);
      NewEdgesTrans(insts, blocks, b, b1, c, inst);
      if inst.call {
        var b2 := b1[t := AddEdgeOnce(b1[t], c)];
        AddEdgeOnly(insts, b1, t, c, c, inst);
        OnlyEdgesTrans(blocks, b1, b2);
        NewEdgesTrans(insts, blocks, b1, b2, c, inst);
      }
    }
  }

  /** The only block the third part may add is at the branch target. */
  lemma {:induction false} BranchKeys(blocks: map<int, Block>, c: int, inst: Inst)
    requires c in blocks
    ensures OnlyEdges(blocks, BranchEdges(blocks, c, inst))
    ensures forall k :: k in BranchEdges(blocks, c, inst) ==> k in blocks || inst.branchTo == Some(k)
  {
    if inst.branchTo.Some? {
      var t := inst.branchTo.value;
      var b := GetBlockAt(blocks, t);
      var b1 := b[c := AddEdgeOnce(b[c], t)];
      assert OnlyEdges(blocks, b1);
      if inst.call {
        var b2 := b1[t := AddEdgeOnce(b1[t], c)];
        assert OnlyEdges(b1, b2);
        OnlyEdgesTrans(blocks, b1, b2);
      }
    }
  }

  /**
   * The edge half of one iteration: before the instruction joins its block,
   * the map has only gained edges and empty blocks, every new edge is one
   * the instruction accounts for, and the edges it calls for are there.
   */
  lemma {:induction false} EdgePhase(insts: map<int, Inst>, st: Cursor, addr: int)
    requires Keyed(insts) && addr in insts && CursorOk(st)
    requires EdgesClosed(st.blocks)
    ensures var inst := insts[addr];
      var (c, b1) := SelectBlock(st.blocks, st.cur, addr, inst);
      var (next, b2) := FallEdge(insts, b1, c, addr, inst);
      var b3 := BranchEdges(b2, c, inst);
      && c in b3
      && OnlyEdges(st.blocks, b3)
      && EdgesClosed(b3)
      && NewEdgesFrom(insts, st.blocks, b3, c, inst)
      && Present(insts, b3, c, inst)
  {
    var inst := insts[addr];
    var (c, b1) := SelectBlock(st.blocks, st.cur, addr, inst);
    var (next, b2) := FallEdge(insts, b1, c, addr, inst);
    var b3 := BranchEdges(b2, c, inst);
    SelectPhase(insts, st.blocks, st.cur, addr, inst);
    FallPhase(insts, b1, c, addr, inst);
    BranchPhase(insts, b2, c, inst);
    OnlyEdgesTrans(st.blocks, b1, b2);
    OnlyEdgesTrans(st.blocks, b2, b3);
    NewEdgesTrans(insts, st.blocks, b1, b2, c, inst);
    NewEdgesTrans(insts, st.blocks, b2, b3, c, inst);
    assert Present(insts, b3, c, inst);
  }

  lemma {:induction false} OnlyEdgesKeepsInsts(insts: map<int, Inst>, done: set<int>, b0: map<int, Block>, b1: map<int, Block>)
    requires InstsInv(insts, done, b0) && OnlyEdges(b0, b1)
    ensures InstsInv(insts, done, b1)
  {
    assert Layout(b1) && Members(insts, done, b1) && Disjoint(b1) && StartsOwn(insts, done, b1);
    forall a | a in done
      ensures exists k :: k in b1 && insts[a] in b1[k].instList
    {
      var k :| k in b0 && insts[a] in b0[k].instList;
      assert k in b1 && insts[a] in b1[k].instList;
    }
  }

  lemma {:induction false} PresentGrows(insts: map<int, Inst>, b0: map<int, Block>, b1: map<int, Block>, k: int, i: Inst)
    requires k in b0 && BlocksGrow(b0, b1) && Present(insts, b0, k, i)
    ensures k in b1 && Present(insts, b1, k, i)
  {
    assert k in b1;
    if i.branchTo.Some? {
      var t := i.branchTo.value;
      assert t in b0 && t in b0[k].edgeList;
      assert t in b1 && t in b1[k].edgeList;
      if i.call {
        assert k in b0[t].edgeList;
        assert k in b1[t].edgeList;
      }
    }
  }

  lemma {:induction false} JustifiedGrows(insts: map<int, Inst>, b0: map<int, Block>, b1: map<int, Block>, k: int, e: int)
    requires BlocksGrow(b0, b1) && Justified(insts, b0, k, e)
    ensures Justified(insts, b1, k, e)
  {
    if k in b0 && exists i :: i in b0[k].instList && StepEdge(insts, k, i, k, e) {
      var i :| i in b0[k].instList && StepEdge(insts, k, i, k, e);
      assert i in b1[k].instList;
    } else {
      var i :| i in b0[e].instList && StepEdge(insts, e, i, k, e);
      assert i in b1[e].instList;
    }
  }

  /** Appending an instruction above all others keeps a block ordered and its end address the maximum. */
  lemma {:induction false} AppendOrdered(k: int, bl: Block, inst: Inst)
    requires Ascending(bl.instList) && bl.endAddr == MaxAddr(k, bl.instList)
    requires forall i :: i in bl.instList ==> i.address < inst.address
    ensures var nb := bl.(instList := bl.instList + [inst], endAddr := if bl.endAddr < inst.address then inst.address else bl.endAddr);
      Ascending(nb.instList) && nb.endAddr == MaxAddr(k, nb.instList)
  {
    var l := bl.instList;
    var nl := l + [inst];
    assert nl[..|l|] == l;
    forall x, y | 0 <= x < y < |nl|
      ensures nl[x].address < nl[y].address
    {
      assert nl[x] == l[x] || x == |l|;
      if y < |l| {
        assert nl[y] == l[y];
      } else {
        assert l[x] in l;
      }
    }
  }

  /** Appending to block `c` leaves the other blocks alone and adds `inst` to the instructions of `c`. */
  lemma {:induction false} AppendShape(b: map<int, Block>, c: int, inst: Inst)
    requires c in b
    ensures var r := AppendInst(b, c, inst);
      && r.Keys == b.Keys
      && (forall k :: k in b && k != c ==> r[k] == b[k])
      && r[c].startAddr == b[c].startAddr && r[c].edgeList == b[c].edgeList
      && r[c].instList == b[c].instList + [inst]
      && (forall i :: i in r[c].instList <==> i in b[c].instList || i == inst)
  {
  }

  /** The instruction half of one iteration keeps the grouping invariant. */
  lemma {:induction false} AppendKeepsInsts(insts: map<int, Inst>, done: set<int>, b: map<int, Block>, c: int, addr: int)
    requires Keyed(insts) && addr in insts && addr !in done && (forall a :: a in done ==> a < addr)
    requires c in b && (insts[addr].start ==> c == addr)
    requires InstsInv(insts, done, b)
    ensures InstsInv(insts, done + {addr}, AppendInst(b, c, insts[addr]))
  {
    AppendLayout(insts, done, b, c, addr);
    AppendMembers(insts, done, b, c, addr);
    AppendCovers(insts, done, b, c, addr);
    AppendDisjoint(insts, done, b, c, addr);
    AppendStartsOwn(insts, done, b, c, addr);
  }

  lemma {:induction false} AppendLayout(insts: map<int, Inst>, done: set<int>, b: map<int, Block>, c: int, addr: int)
    requires Keyed(insts) && addr in insts && (forall a :: a in done ==> a < addr)
    requires c in b && Layout(b) && Members(insts, done, b)
    ensures Layout(AppendInst(b, c, insts[addr]))
  {
    var inst := insts[addr];
    var bl := b[c];
    assert inst.address == addr;
    forall i | i in bl.instList
      ensures i.address < inst.address
    {
      assert i.address in done;
    }
    AppendOrdered(c, bl, inst);
    LayoutUpdate(b, c, bl.(instList := bl.instList + [inst], endAddr := if bl.endAddr < inst.address then inst.address else bl.endAddr));
  }

  /** Replacing one block by a block laid out at the same key keeps the layout. */
  lemma {:induction false} LayoutUpdate(b: map<int, Block>, c: int, nb: Block)
    requires c in b && Layout(b) && nb.startAddr == b[c].startAddr
    requires Ascending(nb.instList) && nb.endAddr == MaxAddr(c, nb.instList)
    ensures Layout(b[c := nb])
  {
    var r := b[c := nb];
    forall k | k in r
      ensures r[k].startAddr == k && Ascending(r[k].instList) && r[k].endAddr == MaxAddr(k, r[k].instList)
    {
      if k != c {
        assert r[k] == b[k];
      }
    }
  }

  lemma {:induction false} AppendMembers(insts: map<int, Inst>, done: set<int>, b: map<int, Block>, c: int, addr: int)
    requires Keyed(insts) && addr in insts && c in b && Members(insts, done, b)
    ensures Members(insts, done + {addr}, AppendInst(b, c, insts[addr]))
  {
    AppendShape(b, c, insts[addr]);
  }

  lemma {:induction false} AppendDisjoint(insts: map<int, Inst>, done: set<int>, b: map<int, Block>, c: int, addr: int)
    requires Keyed(insts) && addr in insts && addr !in done
    requires c in b && Members(insts, done, b) && Disjoint(b)
    ensures Disjoint(AppendInst(b, c, insts[addr]))
  {
    var inst := insts[addr];
    AppendShape(b, c, inst);
    assert forall k :: k in b && inst in b[k].instList ==> addr in done;
  }

  lemma {:induction false} AppendStartsOwn(insts: map<int, Inst>, done: set<int>, b: map<int, Block>, c: int, addr: int)
    requires addr in insts && c in b && (insts[addr].start ==> c == addr)
    requires StartsOwn(insts, done, b)
    ensures StartsOwn(insts, done + {addr}, AppendInst(b, c, insts[addr]))
  {
    AppendShape(b, c, insts[addr]);
  }

  lemma {:induction false} AppendCovers(insts: map<int, Inst>, done: set<int>, b: map<int, Block>, c: int, addr: int)
    requires addr in insts && c in b && Covers(insts, done, b)
    ensures Covers(insts, done + {addr}, AppendInst(b, c, insts[addr]))
  {
    var inst := insts[addr];
    var r := AppendInst(b, c, inst);
    AppendShape(b, c, inst);
    forall a | a in done + {addr}
      ensures a in insts && exists k :: k in r && insts[a] in r[k].instList
    {
      if a == addr {
        assert insts[a] in r[c].instList;
      } else {
        var k :| k in b && insts[a] in b[k].instList;
        assert insts[a] in r[k].instList;
      }
    }
  }

  /** The instruction half of one iteration justifies the new edges and keeps the others. */
  lemma {:induction false} AppendKeepsEdges(insts: map<int, Inst>, b: map<int, Block>, c: int, inst: Inst)
    requires c in b && KeyedBlocks(b)
    requires EdgesClosed(b) && EdgesPresent(insts, b) && Present(insts, b, c, inst)
    requires forall k, e :: k in b && e in b[k].edgeList ==> Justified(insts, b, k, e) || StepEdge(insts, c, inst, k, e)
    ensures var r := AppendInst(b, c, inst);
      EdgesClosed(r) && EdgesPresent(insts, r) && EdgesJustified(insts, r)
  {
    var r := AppendInst(b, c, inst);
    assert BlocksGrow(b, r);
    assert inst in r[c].instList;
    forall k, i | k in r && i in r[k].instList
      ensures Present(insts, r, k, i)
    {
      PresentGrows(insts, b, r, k, i);
    }
    forall k, e | k in r && e in r[k].edgeList
      ensures Justified(insts, r, k, e)
    {
      if Justified(insts, b, k, e) {
        JustifiedGrows(insts, b, r, k, e);
      } else if k == c {
        assert StepEdge(insts, c, inst, k, e);
      } else {
        assert StepEdge(insts, c, inst, k, e);
        assert e == c;
      }
    }
  }

  /** One iteration of the loop keeps the invariant, the visited set growing by its address. */
  lemma {:induction false} StepKeepsInv(insts: map<int, Inst>, done: set<int>, st: Cursor, addr: int)
    requires Keyed(insts) && addr in insts && addr !in done && (forall a :: a in done ==> a < addr)
    requires CursorOk(st) && Inv(insts, done, st.blocks)
    ensures Inv(insts, done + {addr}, ConnectStep(insts, st, addr).blocks)
  {
    var inst := insts[addr];
    var (c, b1) := SelectBlock(st.blocks, st.cur, addr, inst);
    var (next, b2) := FallEdge(insts, b1, c, addr, inst);
    var b3 := BranchEdges(b2, c, inst);
    assert ConnectStep(insts, st, addr).blocks == AppendInst(b3, c, inst);
    EdgePhase(insts, st, addr);
    OnlyEdgesKeepsInsts(insts, done, st.blocks, b3);
    forall k, i | k in b3 && i in b3[k].instList
      ensures Present(insts, b3, k, i)
    {
      assert k in st.blocks && i in st.blocks[k].instList;
      PresentGrows(insts, st.blocks, b3, k, i);
    }
    forall k, e | k in b3 && e in b3[k].edgeList
      ensures Justified(insts, b3, k, e) || StepEdge(insts, c, inst, k, e)
    {
      if k in st.blocks && e in st.blocks[k].edgeList {
        JustifiedGrows(insts, st.blocks, b3, k, e);
      }
    }
    AppendKeepsInsts(insts, done, b3, c, addr);
    AppendKeepsEdges(insts, b3, c, inst);
  }

  /** Strictly ascending addresses, the order `sorted` gives the keys of the index. */
  ghost predicate StrictlyAscending(ks: seq<int>) {
    forall x, y :: 0 <= x < y < |ks| ==> ks[x] < ks[y]
  }

  /**
   * The loop of `connectBlocks` over ascending addresses, from no blocks and
   * no current block, partitions the visited instructions into blocks laid
   * out by start address, and the edges are exactly accounted for: every
   * edge leads to a block and is called for by a branch, a call's return or
   * a fall-through, and every such edge is there.
   */
  lemma {:induction false} ConnectFoldInv(insts: map<int, Inst>, ks: seq<int>)
    requires Keyed(insts) && (forall k :: k in ks ==> k in insts) && StrictlyAscending(ks)
    ensures Inv(insts, Elements(ks), ConnectFold(insts, Cursor(map[], None), ks).blocks)
    decreases |ks|
  {
    if ks != [] {
      var n := |ks| - 1;
      var pre := ks[..n];
      assert forall k :: k in pre ==> k in ks;
      ElementsSnoc(ks);
      ConnectFoldInv(insts, pre);
      StepKeepsInv(insts, Elements(pre), ConnectFold(insts, Cursor(map[], None), pre), ks[n]);
    }
  }

  /** The addresses of a sequence, as a set. */
  function Elements(ks: seq<int>): (r: set<int>)
    ensures forall k :: k in r <==> k in ks
  {
    set k | k in ks
  }

  lemma {:induction false} ElementsSnoc(ks: seq<int>)
    requires ks != [] && StrictlyAscending(ks)
    ensures Elements(ks) == Elements(ks[..|ks| - 1]) + {ks[|ks| - 1]}
    ensures StrictlyAscending(ks[..|ks| - 1])
    ensures ks[|ks| - 1] !in Elements(ks[..|ks| - 1])
    ensures forall a :: a in Elements(ks) && a != ks[|ks| - 1] ==> a < ks[|ks| - 1]
  {
    var n := |ks| - 1;
    var pre := ks[..n];
    assert forall k :: k in ks ==> k in pre || k == ks[n];
    forall a | a in pre ensures a < ks[n] {
      var x :| 0 <= x < n && pre[x] == a;
    }
  }

  /** Blocks stay stored under their start addresses through one iteration. */
  lemma {:induction false} StepKeepsKeyed(insts: map<int, Inst>, st: Cursor, addr: int)
    requires addr in insts && CursorOk(st) && KeyedBlocks(st.blocks)
    ensures KeyedBlocks(ConnectStep(insts, st, addr).blocks)
  {
    var inst := insts[addr];
    var (c, b1) := SelectBlock(st.blocks, st.cur, addr, inst);
    var (next, b2) := FallEdge(insts, b1, c, addr, inst);
    var b3 := BranchEdges(b2, c, inst);
    assert ConnectStep(insts, st, addr).blocks == AppendInst(b3, c, inst);
    PhasesKeepKeyed(insts, b1, c, addr, inst);
  }

  lemma {:induction false} PhasesKeepKeyed(insts: map<int, Inst>, b1: map<int, Block>, c: int, addr: int, inst: Inst)
    requires c in b1 && KeyedBlocks(b1)
    ensures var b2 := FallEdge(insts, b1, c, addr, inst).1;
      var b3 := BranchEdges(b2, c, inst);
      KeyedBlocks(b2) && KeyedBlocks(b3) && KeyedBlocks(AppendInst(b3, c, inst))
  {
    var b2 := FallEdge(insts, b1, c, addr, inst).1;
    FallKeyed(insts, b1, c, addr, inst);
    BranchKeyed(b2, c, inst);
    var b3 := BranchEdges(b2, c, inst);
    AppendKeyed(b3, c, inst);
  }

  lemma {:induction false} FallKeyed(insts: map<int, Inst>, b1: map<int, Block>, c: int, addr: int, inst: Inst)
    requires c in b1 && KeyedBlocks(b1)
    ensures KeyedBlocks(FallEdge(insts, b1, c, addr, inst).1)
  {
  }

  lemma {:induction false} BranchKeyed(b2: map<int, Block>, c: int, inst: Inst)
    requires c in b2 && KeyedBlocks(b2)
    ensures KeyedBlocks(BranchEdges(b2, c, inst))
  {
  }

  lemma {:induction false} AppendKeyed(b3: map<int, Block>, c: int, inst: Inst)
    requires c in b3 && KeyedBlocks(b3)
    ensures KeyedBlocks(AppendInst(b3, c, inst))
  {
  }

  lemma {:induction false} ConnectFoldKeyed(insts: map<int, Inst>, st: Cursor, ks: seq<int>)
    requires (forall k :: k in ks ==> k in insts) && CursorOk(st) && KeyedBlocks(st.blocks)
    ensures KeyedBlocks(ConnectFold(insts, st, ks).blocks)
    decreases |ks|
  {
    if ks != [] {
      var pre := ks[..|ks| - 1];
      assert forall k :: k in pre ==> k in ks;
      ConnectFoldKeyed(insts, st, pre);
      StepKeepsKeyed(insts, ConnectFold(insts, st, pre), ks[|ks| - 1]);
    }
  }

  // ---------------------------------------------------------------------
  // No empty blocks

  /** Every branch target of the index is an instruction that starts a block, as the visit pass leaves it. */
  ghost predicate TargetsStart(insts: map<int, Inst>) {
    forall a :: a in insts && insts[a].branchTo.Some? ==>
      insts[a].branchTo.value in insts && insts[insts[a].branchTo.value].start
  }

  /** A block without instructions yet is at an instruction that starts a block. */
  ghost predicate Pending(insts: map<int, Inst>, blocks: map<int, Block>) {
    forall k :: k in blocks ==> blocks[k].instList != [] || (k in insts && insts[k].start)
  }

  /** `Pending` for every block but the current one. */
  ghost predicate PendingExcept(insts: map<int, Inst>, blocks: map<int, Block>, c: int) {
    forall k :: k in blocks && k != c ==> blocks[k].instList != [] || (k in insts && insts[k].start)
  }

  lemma {:induction false} PendingGrows(insts: map<int, Inst>, b0: map<int, Block>, b1: map<int, Block>, c: int)
    requires PendingExcept(insts, b0, c) && OnlyEdges(b0, b1)
    requires forall k :: k in b1 ==> k in b0 || k == c || (k in insts && insts[k].start)
    ensures PendingExcept(insts, b1, c)
  {
  }

  lemma {:induction false} StepKeepsPending(insts: map<int, Inst>, st: Cursor, addr: int)
    requires Keyed(insts) && TargetsStart(insts) && addr in insts && CursorOk(st)
    requires Pending(insts, st.blocks)
    ensures Pending(insts, ConnectStep(insts, st, addr).blocks)
  {
    var inst := insts[addr];
    var (c, b1) := SelectBlock(st.blocks, st.cur, addr, inst);
    var (next, b2) := FallEdge(insts, b1, c, addr, inst);
    var b3 := BranchEdges(b2, c, inst);
    var r := AppendInst(b3, c, inst);
    assert ConnectStep(insts, st, addr).blocks == r;
    SelectPhase(insts, st.blocks, st.cur, addr, inst);
    PendingGrows(insts, st.blocks, b1, c);
    FallPhase(insts, b1, c, addr, inst);
    PendingGrows(insts, b1, b2, c);
    BranchKeys(b2, c, inst);
    PendingGrows(insts, b2, b3, c);
    AppendShape(b3, c, inst);
    forall k | k in r
      ensures r[k].instList != [] || (k in insts && insts[k].start)
    {
      if k != c {
        assert r[k] == b3[k];
      }
    }
  }

  lemma {:induction false} ConnectFoldPending(insts: map<int, Inst>, ks: seq<int>)
    requires Keyed(insts) && TargetsStart(insts) && (forall k :: k in ks ==> k in insts)
    ensures Pending(insts, ConnectFold(insts, Cursor(map[], None), ks).blocks)
    decreases |ks|
  {
    if ks != [] {
      var pre := ks[..|ks| - 1];
      assert forall k :: k in pre ==> k in ks;
      ConnectFoldPending(insts, pre);
      StepKeepsPending(insts, ConnectFold(insts, Cursor(map[], None), pre), ks[|ks| - 1]);
    }
  }

  /**
   * `connectBlocks` over all instructions of the index in ascending order:
   * the instructions are partitioned among the blocks, which sit at their
   * start addresses with their instructions in order and their end address
   * the last of them; the edges are exactly the branch, call-return and
   * fall-through edges the instructions call for, each to an existing
   * block; and, once every branch target is an instruction that starts a
   * block, no block is left without instructions.
   */
  lemma {:induction false} ConnectBlocksSound(insts: map<int, Inst>, ks: seq<int>)
    requires Keyed(insts) && StrictlyAscending(ks) && Elements(ks) == insts.Keys
    ensures var blocks := ConnectFold(insts, Cursor(map[], None), ks).blocks;
      && Inv(insts, insts.Keys, blocks)
      && (TargetsStart(insts) ==> forall k :: k in blocks ==> blocks[k].instList != [])
  {
    var blocks := ConnectFold(insts, Cursor(map[], None), ks).blocks;
    ConnectFoldInv(insts, ks);
    if TargetsStart(insts) {
      ConnectFoldPending(insts, ks);
      assert StartsOwn(insts, insts.Keys, blocks);
    }
  }

  // ---------------------------------------------------------------------
  // `sorted(self.addr2Inst.items())`

  /** `s` with `x` inserted in order, unless it is there already. */
  function InsertSorted(s: seq<int>, x: int): seq<int>
    decreases |s|
  {
    if s == [] then [x]
    else if x < s[0] then [x] + s
    else if x == s[0] then s
    else [s[0]] + InsertSorted(s[1..], x)
  }

  lemma {:induction false} ElementsCons(a: int, t: seq<int>)
    ensures Elements([a] + t) == {a} + Elements(t)
  {
    assert forall k :: k in [a] + t <==> k == a || k in t;
  }

  /** The tail of an ascending sequence is ascending and above its head. */
  lemma {:induction false} AscendingTail(s: seq<int>)
    requires s != [] && StrictlyAscending(s)
    ensures StrictlyAscending(s[1..])
    ensures forall k :: k in s[1..] ==> s[0] < k
  {
    forall k | k in s[1..] ensures s[0] < k {
      var y :| 0 <= y < |s[1..]| && s[1..][y] == k;
      assert s[y + 1] == k;
    }
  }

  lemma {:induction false} ConsAscending(a: int, t: seq<int>)
    requires StrictlyAscending(t) && forall k :: k in t ==> a < k
    ensures StrictlyAscending([a] + t)
  {
    var r := [a] + t;
    forall i, j | 0 <= i < j < |r| ensures r[i] < r[j] {
      assert r[j] == t[j - 1] && t[j - 1] in t;
      if i > 0 {
        assert r[i] == t[i - 1];
      }
    }
  }

  /** Inserting adds exactly `x` to the elements. */
  lemma {:induction false} InsertSortedElements(s: seq<int>, x: int)
    ensures Elements(InsertSorted(s, x)) == Elements(s) + {x}
    decreases |s|
  {
    if s == [] {
      ElementsCons(x, []);
    } else {
      ElementsCons(s[0], s[1..]);
      assert [s[0]] + s[1..] == s;
      if x < s[0] {
        ElementsCons(x, s);
      } else if x > s[0] {
        InsertSortedElements(s[1..], x);
        ElementsCons(s[0], InsertSorted(s[1..], x));
      }
    }
  }

  /** Inserting keeps the sequence ascending. */
  lemma {:induction false} InsertSortedAscending(s: seq<int>, x: int)
    requires StrictlyAscending(s)
    ensures StrictlyAscending(InsertSorted(s, x))
    decreases |s|
  {
    if s != [] {
      AscendingTail(s);
      if x < s[0] {
        assert [s[0]] + s[1..] == s;
        ConsAscending(x, s);
      } else if x > s[0] {
        var t := InsertSorted(s[1..], x);
        InsertSortedAscending(s[1..], x);
        InsertSortedElements(s[1..], x);
        ConsAscending(s[0], t);
      }
    }
  }

  /** The addresses of the index in ascending order. */
  function SortedKeys(keys: seq<int>): (r: seq<int>)
    ensures StrictlyAscending(r) && Elements(r) == Elements(keys)
    decreases |keys|
  {
    if keys == [] then []
    else
      var n := |keys| - 1;
      assert Elements(keys) == Elements(keys[..n]) + {keys[n]} by {
        assert keys == keys[..n] + [keys[n]];
      }
      InsertSortedAscending(SortedKeys(keys[..n]), keys[n]);
      InsertSortedElements(SortedKeys(keys[..n]), keys[n]);
      InsertSorted(SortedKeys(keys[..n]), keys[n])
  }
}
