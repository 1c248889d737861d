/**
 * The instruction index (`buildInsts`, maldefender/cfg_builder.py:328-354):
 * each aggregated program line is decoded in program order; every decoded
 * instruction is stored under its address, the previous one is given the
 * distance to it as its size, and the last one gets size 2. The first
 * address and the largest address bound the program.
 */
module Index {
  import opened Wrappers
  import opened OrderedMaps
  import opened Instructions

  /** `addr2Inst`, `prevAddr`, `programStart` and `programEnd` during the loop. */
  datatype IndexState = IndexState(insts: OrdMap<int, Inst>, prev: int, programStart: int, programEnd: int)

  /** The previous address, once there is one, is an entry of the index. */
  predicate PrevOk(st: IndexState) {
    st.prev != -1 ==> st.prev in st.insts.m
  }

  /** `addr2Inst[a].size = n`, in place. */
  function SetSize(insts: OrdMap<int, Inst>, a: int, n: int): (r: OrdMap<int, Inst>)
    requires a in insts.m
    ensures r.keys == insts.keys && r.m.Keys == insts.m.Keys
    ensures r.m[a] == insts.m[a].(size := n)
    ensures forall k :: k in insts.m && k != a ==> r.m[k] == insts.m[k]
  {
    insts.Put(a, insts.m[a].(size := n))
  }

  /** One decoded instruction: the previous one is sized, the new one stored, the bounds moved. */
  function IndexStep(st: IndexState, i: Inst): (r: IndexState)
    requires PrevOk(st)
    ensures PrevOk(r) && r.prev == i.address
  {
    var insts := if st.prev != -1 then SetSize(st.insts, st.prev, i.address - st.prev) else st.insts;
    IndexState(insts.Put(i.address, i),
               i.address,
               if st.programStart == -1 then i.address else st.programStart,
               if i.address < st.programEnd then st.programEnd else i.address)
  }

  /** The loop of `buildInsts` over the decoded instructions, in order. */
  function IndexAll(st: IndexState, ds: seq<Inst>): (r: IndexState)
    requires PrevOk(st)
    ensures PrevOk(r)
    decreases |ds|
  {
    if ds == [] then st else IndexStep(IndexAll(st, ds[..|ds| - 1]), ds[|ds| - 1])
  }

  /** After the loop: the last instruction gets size 2 when its address is positive. */
  function Finish(st: IndexState): (r: OrdMap<int, Inst>)
    requires PrevOk(st)
    ensures r.keys == st.insts.keys && r.m.Keys == st.insts.m.Keys
  {
    if st.prev > 0 then SetSize(st.insts, st.prev, 2) else st.insts
  }

  /**
   * `instBuilder.createInst(line)`: the decoder, given as its table from
   * line text to instruction; a line outside the table is one it rejects.
   */
  function CreateInst(decoder: map<string, Inst>, line: string): (r: Option<Inst>)
    ensures r.Some? <==> line in decoder
    ensures r.Some? ==> r.value == decoder[line]
  {
    if line in decoder then Some(decoder[line]) else None
  }

  /**
   * The instructions the decoder makes of the first `n` program lines, in
   * program order: each line is decoded from its address and its text.
   */
  function Decodes(program: OrdMap<string, string>, n: nat, decoder: map<string, Inst>): (r: seq<Inst>)
    requires program.Wf() && n <= |program.keys|
    ensures |r| <= n
  {
    if n == 0 then []
    else
      var k := program.keys[n - 1];
      var init := Decodes(program, n - 1, decoder);
      match CreateInst(decoder, k + " " + program.m[k])
      case None => init
      case Some(i) => init + [i]
  }

  lemma {:induction false} IndexAllSnoc(st: IndexState, ds: seq<Inst>, i: Inst)
    requires PrevOk(st)
    ensures IndexAll(st, ds + [i]) == IndexStep(IndexAll(st, ds), i)
  {
    assert (ds + [i])[..|ds|] == ds;
  }

  /** The loop of `buildInsts` over the first `n` program lines, a line the decoder rejects skipped. */
  function IndexLines(st: IndexState, program: OrdMap<string, string>, n: nat, decoder: map<string, Inst>): (r: IndexState)
    requires PrevOk(st) && program.Wf() && n <= |program.keys|
    ensures PrevOk(r)
  {
    if n == 0 then st
    else
      var k := program.keys[n - 1];
      var prev := IndexLines(st, program, n - 1, decoder);
      match CreateInst(decoder, k + " " + program.m[k])
      case None => prev
      case Some(i) => IndexStep(prev, i)
  }

  /** Indexing the program line by line is indexing the instructions it decodes to. */
  lemma {:induction false} IndexLinesDecodes(st: IndexState, program: OrdMap<string, string>, n: nat, decoder: map<string, Inst>)
    requires PrevOk(st) && program.Wf() && n <= |program.keys|
    ensures IndexLines(st, program, n, decoder) == IndexAll(st, Decodes(program, n, decoder))
  {
    if n > 0 {
      IndexLinesDecodes(st, program, n - 1, decoder);
      var k := program.keys[n - 1];
      match CreateInst(decoder, k + " " + program.m[k])
      case None =>
      case Some(i) => IndexAllSnoc(st, Decodes(program, n - 1, decoder), i);
    }
  }

  function Addresses(ds: seq<Inst>): (r: seq<int>)
    ensures |r| == |ds| && forall j :: 0 <= j < |ds| ==> r[j] == ds[j].address
  {
    seq(|ds|, j requires 0 <= j < |ds| => ds[j].address)
  }

  /** The index keeps every instruction at its own address and its key order well formed. */
  lemma {:induction false} IndexAllKeyed(st: IndexState, ds: seq<Inst>)
    requires PrevOk(st) && st.insts.Wf()
    ensures var r := IndexAll(st, ds);
      && r.insts.Wf() && Finish(r).Wf()
      && (Keyed(st.insts.m) ==> Keyed(r.insts.m) && Keyed(Finish(r).m))
    decreases |ds|
  {
    if ds != [] {
      IndexAllKeyed(st, ds[..|ds| - 1]);
    }
  }

  /** Sizing writes only sizes: when no decoded instruction records a target, none in the index does. */
  lemma {:induction false} IndexAllNoTargets(st: IndexState, ds: seq<Inst>)
    requires PrevOk(st) && NoTargets(st.insts.m)
    requires forall j :: 0 <= j < |ds| ==> ds[j].branchTo.None?
    ensures NoTargets(IndexAll(st, ds).insts.m) && NoTargets(Finish(IndexAll(st, ds)).m)
    decreases |ds|
  {
    if ds != [] {
      IndexAllNoTargets(st, ds[..|ds| - 1]);
      StepNoTargets(IndexAll(st, ds[..|ds| - 1]), ds[|ds| - 1]);
    }
    FinishNoTargets(IndexAll(st, ds));
  }

  /** One loop step stores an instruction without a target and writes one size. */
  lemma {:induction false} StepNoTargets(st: IndexState, i: Inst)
    requires PrevOk(st) && i.branchTo.None? && NoTargets(st.insts.m)
    ensures NoTargets(IndexStep(st, i).insts.m)
  {
  }

  /** The final size write records no target. */
  lemma {:induction false} FinishNoTargets(st: IndexState)
    requires PrevOk(st) && NoTargets(st.insts.m)
    ensures NoTargets(Finish(st).m)
  {
  }

  /** Addresses are pairwise distinct. */
  ghost predicate DistinctAddresses(ds: seq<Inst>) {
    forall x, y :: 0 <= x < y < |ds| ==> ds[x].address != ds[y].address
  }

  function Fresh(): IndexState {
    IndexState(Empty(), -1, -1, -1)
  }

  /** The index holds the instructions' addresses as keys, in decoding order. */
  ghost predicate KeysOf(r: IndexState, ds: seq<Inst>) {
    r.insts.Wf() && r.insts.keys == Addresses(ds)
  }

  /** Each instruction but the last is stored sized by the distance to the next one. */
  ghost predicate SizesOf(r: IndexState, ds: seq<Inst>) {
    forall j :: 0 <= j < |ds| - 1 ==>
      ds[j].address in r.insts.m && r.insts.m[ds[j].address] == ds[j].(size := ds[j + 1].address - ds[j].address)
  }

  /** The last instruction is stored as decoded and is the previous address. */
  ghost predicate LastOf(r: IndexState, ds: seq<Inst>) {
    && (ds != [] ==> ds[|ds| - 1].address in r.insts.m && r.insts.m[ds[|ds| - 1].address] == ds[|ds| - 1]
                     && r.prev == ds[|ds| - 1].address)
    && (ds == [] ==> r.prev == -1)
  }

  lemma {:induction false} KeysStep(st: IndexState, init: seq<Inst>, i: Inst)
    requires KeysOf(st, init) && PrevOk(st) && i.address !in st.insts.m
    ensures KeysOf(IndexStep(st, i), init + [i])
  {
    assert Addresses(init + [i]) == Addresses(init) + [i.address];
  }

  lemma {:induction false} SizesStep(st: IndexState, init: seq<Inst>, i: Inst)
    requires SizesOf(st, init) && LastOf(st, init) && PrevOk(st) && i.address !in st.insts.m
    requires forall j :: 0 <= j < |init| ==> init[j].address != -1
    requires DistinctAddresses(init)
    ensures SizesOf(IndexStep(st, i), init + [i]) && LastOf(IndexStep(st, i), init + [i])
  {
    var ds := init + [i];
    var r := IndexStep(st, i);
    var ins1 := if st.prev != -1 then SetSize(st.insts, st.prev, i.address - st.prev) else st.insts;
    assert r.insts == ins1.Put(i.address, i);
    forall j | 0 <= j < |ds| - 1
      ensures ds[j].address in r.insts.m && r.insts.m[ds[j].address] == ds[j].(size := ds[j + 1].address - ds[j].address)
    {
      assert ds[j] == init[j];
      if j < |init| - 1 {
        assert ds[j + 1] == init[j + 1];
        assert ds[j].address in st.insts.m;
        assert ds[j].address != i.address;
        assert ds[j].address != st.prev;
      } else {
        assert st.prev == ds[j].address && ds[j + 1] == i;
      }
    }
  }

  /** An address none of the instructions has is no key of their index. */
  lemma {:induction false} AddressNotKey(r: IndexState, ds: seq<Inst>, x: int)
    requires KeysOf(r, ds) && forall j :: 0 <= j < |ds| ==> ds[j].address != x
    ensures x !in r.insts.m
  {
    forall j | 0 <= j < |r.insts.keys|
      ensures r.insts.keys[j] != x
    {
      assert Addresses(ds)[j] == ds[j].address;
    }
  }

  /** One step keeps the keys, sizes and last instruction as `IndexAllSized` states them. */
  lemma {:induction false} SizedStep(st: IndexState, init: seq<Inst>, i: Inst)
    requires KeysOf(st, init) && SizesOf(st, init) && LastOf(st, init) && PrevOk(st)
    requires DistinctAddresses(init + [i]) && forall j :: 0 <= j < |init| + 1 ==> (init + [i])[j].address != -1
    ensures var r := IndexStep(st, i);
      KeysOf(r, init + [i]) && SizesOf(r, init + [i]) && LastOf(r, init + [i])
  {
    var ds := init + [i];
    forall j | 0 <= j < |init| ensures init[j].address != i.address && init[j].address != -1 {
      assert init[j] == ds[j];
      assert i == ds[|init|];
    }
    assert DistinctAddresses(init) by {
      forall x, y | 0 <= x < y < |init| ensures init[x].address != init[y].address {
        assert init[x] == ds[x] && init[y] == ds[y];
      }
    }
    AddressNotKey(st, init, i.address);
    KeysStep(st, init, i);
    SizesStep(st, init, i);
  }

  lemma {:induction false} IndexAllSized(ds: seq<Inst>)
    requires DistinctAddresses(ds) && forall j :: 0 <= j < |ds| ==> ds[j].address != -1
    ensures var r := IndexAll(Fresh(), ds);
      KeysOf(r, ds) && SizesOf(r, ds) && LastOf(r, ds)
    decreases |ds|
  {
    if ds != [] {
      var init := ds[..|ds| - 1];
      var i := ds[|ds| - 1];
      assert ds == init + [i];
      assert DistinctAddresses(init);
      IndexAllSized(init);
      SizedStep(IndexAll(Fresh(), init), init, i);
    }
  }

  /**
   * `buildInsts` from a fresh builder over decoded instructions at distinct
   * non-negative addresses: every instruction is stored under its address,
   * in decoding order; each is sized by the distance to the next decoded
   * one, and the last by 2 when its address is positive.
   */
  lemma {:induction false} BuildInstsSizes(ds: seq<Inst>)
    requires DistinctAddresses(ds) && forall j :: 0 <= j < |ds| ==> ds[j].address >= 0
    ensures var r := Finish(IndexAll(Fresh(), ds));
      && r.keys == Addresses(ds)
      && (forall j :: 0 <= j < |ds| ==> ds[j].address in r.m)
      && (forall j :: 0 <= j < |ds| - 1 ==> r.m[ds[j].address] == ds[j].(size := ds[j + 1].address - ds[j].address))
      && (ds != [] ==>
            r.m[ds[|ds| - 1].address] == ds[|ds| - 1].(size := if ds[|ds| - 1].address > 0 then 2 else ds[|ds| - 1].size))
  {
    IndexAllSized(ds);
    var st := IndexAll(Fresh(), ds);
    forall j | 0 <= j < |ds| ensures ds[j].address in Finish(st).m {
      assert ds[j].address == Addresses(ds)[j];
    }
    if ds != [] {
      var n := |ds| - 1;
      forall j | 0 <= j < n
        ensures Finish(st).m[ds[j].address] == st.insts.m[ds[j].address]
      {
        assert ds[j].address != ds[n].address;
      }
    }
  }

  /** The program starts at the first decoded address. */
  lemma {:induction false} IndexStart(ds: seq<Inst>)
    requires forall j :: 0 <= j < |ds| ==> ds[j].address >= 0
    ensures IndexAll(Fresh(), ds).programStart == if ds == [] then -1 else ds[0].address
    decreases |ds|
  {
    if ds != [] {
      var init := ds[..|ds| - 1];
      IndexStart(init);
      if init != [] {
        assert init[0] == ds[0];
      }
    }
  }

  /** What `IndexEnd` states of the end address, for the instructions `ds`. */
  ghost predicate EndOf(e: int, ds: seq<Inst>) {
    && (ds == [] ==> e == -1)
    && (forall j :: 0 <= j < |ds| ==> ds[j].address <= e)
    && (ds != [] ==> exists j :: 0 <= j < |ds| && ds[j].address == e)
  }

  /** One step moves the end address to the larger of the two. */
  lemma {:induction false} EndStep(st: IndexState, init: seq<Inst>, i: Inst)
    requires PrevOk(st) && EndOf(st.programEnd, init) && i.address >= 0
    ensures EndOf(IndexStep(st, i).programEnd, init + [i])
  {
    var ds := init + [i];
    var e := IndexStep(st, i).programEnd;
    forall j | 0 <= j < |ds| ensures ds[j].address <= e {
      if j < |init| {
        assert ds[j] == init[j];
      }
    }
    if e != i.address {
      var j :| 0 <= j < |init| && init[j].address == st.programEnd;
      assert ds[j] == init[j];
    } else {
      assert ds[|init|] == i;
    }
  }

  /** The program ends at the largest decoded address. */
  lemma {:induction false} IndexEnd(ds: seq<Inst>)
    requires forall j :: 0 <= j < |ds| ==> ds[j].address >= 0
    ensures EndOf(IndexAll(Fresh(), ds).programEnd, ds)
    decreases |ds|
  {
    if ds != [] {
      var init := ds[..|ds| - 1];
      assert ds == init + [ds[|ds| - 1]];
      IndexEnd(init);
      EndStep(IndexAll(Fresh(), init), init, ds[|ds| - 1]);
    }
  }
}
