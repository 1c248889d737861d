/**
 * `ControlFlowGraphBuilder` (maldefender/cfg_builder.py:101-495): the
 * builder object whose dictionaries are filled pass by pass. Each method
 * below performs the statements of its Python namesake on the fields, and
 * its postcondition says what the fields become, in terms of the functions
 * of the `Listing`, `Index`, `Visitor` and `Assembly` modules, where the
 * properties of each pass are proved.
 *
 * The listing file is given as its lines, already split into tokens; the
 * decoder `createInst` is the table `decoder` (see `Index.CreateInst`). A Python exception
 * (`int(addrStr, 16)` on text that is not hexadecimal) is the result
 * `ok == false`; nothing is promised about the fields after it.
 */
module CfgBuilder {
  import opened Wrappers
  import opened Strings
  import opened OrderedMaps
  import opened Instructions
  import opened Listing
  import opened Index
  import opened Visitor
  import opened Blocks
  import opened Assembly

  class ControlFlowGraphBuilder {
    /** The size every auxiliary instruction is created with (the `Instruction` default). */
    const auxSize: int

    var programEnd: int
    var programStart: int
    /** Line number to instruction text. */
    var text: OrdMap<int, string>
    /** Address text to the one logical instruction line. */
    var program: OrdMap<string, string>
    var addr2Inst: OrdMap<int, Inst>
    var addr2InstAux: OrdMap<int, Inst>
    var addr2Bytes: map<int, seq<string>>
    var addr2RawStr: map<int, seq<string>>
    var addr2Block: map<int, Block>

    constructor (auxSize: int)
      ensures this.auxSize == auxSize && programEnd == -1 && programStart == -1
      ensures text == Empty() && program == Empty() && addr2Inst == Empty() && addr2InstAux == Empty()
      ensures addr2Bytes == map[] && addr2RawStr == map[] && addr2Block == map[]
    {
      this.auxSize := auxSize;
      programEnd := -1;
      programStart := -1;
      text := Empty();
      program := Empty();
      addr2Inst := Empty();
      addr2InstAux := Empty();
      addr2Bytes := map[];
      addr2RawStr := map[];
      addr2Block := map[];
    }

    // -------------------------------------------------------------------
    // The listing pass

    /** `appendRawBytes`: one byte token filed under the parsed address. */
    method AppendRawBytes(addrStr: string, byte: string) returns (ok: bool)
      modifies this`addr2Bytes
      ensures ok == ParseHex(addrStr).Some?
      ensures ok ==> addr2Bytes == Extend(old(addr2Bytes), ParseHex(addrStr).value, [byte])
    {
      var parsed := ParseHex(addrStr);
      if parsed.None? {
        return false;
      }
      var addr := parsed.value;
      if addr in addr2Bytes {
        addr2Bytes := addr2Bytes[addr := addr2Bytes[addr] + [byte]];
      } else {
        addr2Bytes := addr2Bytes[addr := [byte]];
        assert Get(old(addr2Bytes), addr) + [byte] == [byte];
      }
      ok := true;
    }

    /**
     * `indexOfInst`: the leading byte tokens are filed, in order, under the
     * address, and their count is returned.
     */
    method IndexOfInst(decodedElems: seq<string>, addrStr: string) returns (idx: nat, ok: bool)
      modifies this`addr2Bytes
      ensures ok == (LeadingBytes(decodedElems) == 0 || ParseHex(addrStr).Some?)
      ensures ok ==> idx == LeadingBytes(decodedElems)
      ensures ok && ParseHex(addrStr).Some? ==>
        addr2Bytes == Extend(old(addr2Bytes), ParseHex(addrStr).value, decodedElems[..idx])
      ensures ok && ParseHex(addrStr).None? ==> addr2Bytes == old(addr2Bytes)
    {
      idx := 0;
      ok := true;
      while idx < |decodedElems| && IsByteToken(decodedElems[idx])
        invariant idx <= LeadingBytes(decodedElems)
        invariant idx > 0 ==> ParseHex(addrStr).Some?
        invariant idx == 0 ==> addr2Bytes == old(addr2Bytes)
        invariant idx > 0 ==> addr2Bytes == Extend(old(addr2Bytes), ParseHex(addrStr).value, decodedElems[..idx])
        decreases |decodedElems| - idx
      {
        ok := AppendRawBytes(addrStr, decodedElems[idx]);
        if !ok {
          return;
        }
        FileNextByte(old(addr2Bytes), ParseHex(addrStr).value, decodedElems, idx);
        idx := idx + 1;
      }
      assert idx == LeadingBytes(decodedElems);
    }

    /**
     * The line loop of `extractTextSeg` over the tokens of each line,
     * numbered from 1: kept lines file their byte tokens and their
     * instruction text. It raises exactly when some line does.
     */
    method ExtractTextSeg(lines: seq<seq<string>>) returns (ok: bool)
      requires text.Wf()
      modifies this`text, this`addr2Bytes
      ensures text.Wf()
      ensures ok == !AnyRaises(lines)
      ensures ok ==> Some(TextState(text, addr2Bytes)) == ScanLines(TextState(old(text), old(addr2Bytes)), lines, 1)
    {
      ghost var init := TextState(text, addr2Bytes);
      var lineNum := 1;
      for n := 0 to |lines|
        invariant lineNum == n + 1
        invariant text.Wf()
        invariant Some(TextState(text, addr2Bytes)) == ScanLines(init, lines[..n], 1)
      {
        assert lines[..n + 1][..n] == lines[..n];
        ok := ScanTextLine(lines[n], lineNum);
        if !ok {
          ScanLinesRaises(init, lines[..n + 1], 1);
          AnyRaisesExtends(lines, n + 1);
          return;
        }
        lineNum := lineNum + 1;
      }
      assert lines[..|lines|] == lines;
      ScanLinesRaises(init, lines, 1);
      ok := true;
    }

    /**
     * The body of `extractTextSeg`'s line loop for the line numbered
     * `lineNum`, given as its tokens: a line outside the code segments is
     * skipped, a kept one files its byte tokens and stores its text.
     */
    method ScanTextLine(tokens: seq<string>, lineNum: int) returns (ok: bool)
      requires text.Wf()
      modifies this`text, this`addr2Bytes
      ensures text.Wf()
      ensures ok == !LineRaises(tokens)
      ensures ok ==> TextState(text, addr2Bytes) == ScanLine(TextState(old(text), old(addr2Bytes)), tokens, lineNum)
    {
      ok := true;
      if |tokens| == 0 {
        return;
      }
      var seg := tokens[0];
      var decodedElems := tokens[1..];
      var addr := AddrInCodeSegment(seg);
      if addr == NotInCodeSeg {
        return;
      }
      var startIdx;
      startIdx, ok := IndexOfInst(decodedElems, addr);
      if !ok {
        return;
      }
      var endIdx := IndexOfComment(decodedElems);
      if startIdx < endIdx {
        var instElems := [addr] + decodedElems[startIdx..endIdx];
        text := text.Put(lineNum, JoinSpace(instElems));
      }
    }

    /** `appendRawString`: the lines filed, in order, under the address. */
    method AppendRawString(addr: int, instRawStrs: seq<string>)
      modifies this`addr2RawStr
      ensures addr2RawStr == Extend(old(addr2RawStr), addr, instRawStrs)
    {
      for j := 0 to |instRawStrs|
        invariant addr2RawStr == Extend(old(addr2RawStr), addr, instRawStrs[..j])
      {
        var inst := instRawStrs[j];
        label Step:
        if addr in addr2RawStr {
          addr2RawStr := addr2RawStr[addr := addr2RawStr[addr] + [inst]];
        } else {
          addr2RawStr := addr2RawStr[addr := [inst]];
          assert Get(old@Step(addr2RawStr), addr) + [inst] == [inst];
        }
        ExtendTwice(old(addr2RawStr), addr, instRawStrs[..j], [inst]);
        assert instRawStrs[..j] + [inst] == instRawStrs[..j + 1];
      }
      assert instRawStrs[..|instRawStrs|] == instRawStrs;
    }

    /**
     * `aggregate`: the lines of one address are filed as raw strings and
     * reduced to the one instruction line the program keeps for it.
     */
    method Aggregate(addrStr: string, sameAddrInsts: seq<string>) returns (ok: bool)
      requires program.Wf()
      modifies this`program, this`addr2RawStr
      ensures program.Wf()
      ensures ok == ParseHex(addrStr).Some?
      ensures ok ==> ProgState(program, addr2RawStr)
                     == ApplyRun(ProgState(old(program), old(addr2RawStr)), Run(addrStr, sameAddrInsts))
    {
      var parsed := ParseHex(addrStr);
      if parsed.None? {
        return false;
      }
      ok := true;
      AppendRawString(parsed.value, sameAddrInsts);
      if IsHeaderInfo(sameAddrInsts) {
        program := program.Put(addrStr, sameAddrInsts[|sameAddrInsts| - 1]);
        return;
      }
      var validInst: seq<string> := [];
      var foundDataDeclare: string := "";
      for j := 0 to |sameAddrInsts|
        invariant validInst == ValidLines(sameAddrInsts[..j])
        invariant foundDataDeclare == DataFragment(sameAddrInsts[..j])
      {
        assert sameAddrInsts[..j + 1][..j] == sameAddrInsts[..j];
        var inst := sameAddrInsts[j];
        match Classify(inst)
        case DataDecl =>
          foundDataDeclare := foundDataDeclare + inst + " ";
        case Candidate =>
          validInst := validInst + [inst];
        case _ =>
      }
      assert sameAddrInsts[..|sameAddrInsts|] == sameAddrInsts;
      if |validInst| == 1 {
        var progLine := validInst[0] + " " + foundDataDeclare;
        program := program.Put(addrStr, RStrip(progLine, {' '}));
      } else if |RStrip(foundDataDeclare, {' '})| > 0 {
        program := program.Put(addrStr, RStrip(foundDataDeclare, {' '}));
      } else {
        var progLine := "";
        for j := 0 to |validInst|
          invariant progLine == Concatenated(validInst[..j])
        {
          assert validInst[..j + 1][..j] == validInst[..j];
          progLine := progLine + RStrip(validInst[j], {'\n', '\\'}) + " ";
        }
        assert validInst[..|validInst|] == validInst;
        program := program.Put(addrStr, RStrip(progLine, {' '}));
      }
    }

    /**
     * The body of `createProgram`'s loop for the entry `(addr, inst)` of
     * one text line: it joins the open run when it has the run's address,
     * and otherwise the open run is aggregated and the entry opens a new
     * one. `done` are the runs aggregated so far.
     */
    method TakeEntry(currAddr: Option<string>, sameAddrInsts: seq<string>, line: string,
                     ghost done: seq<Run>, ghost init: ProgState)
      returns (ok: bool, currAddr': Option<string>, sameAddrInsts': seq<string>, ghost done': seq<Run>)
      requires program.Wf() && RunsParse(done) && ProgState(program, addr2RawStr) == ApplyRuns(init, done)
      modifies this`program, this`addr2RawStr
      ensures program.Wf()
      ensures ok == CreateStep(CreateState(done, currAddr, sameAddrInsts), Entry(line)).Some?
      ensures ok ==> CreateStep(CreateState(done, currAddr, sameAddrInsts), Entry(line))
                     == Some(CreateState(done', currAddr', sameAddrInsts'))
      ensures ok ==> currAddr'.Some?
      ensures ok ==> RunsParse(done') && ProgState(program, addr2RawStr) == ApplyRuns(init, done')
    {
      var elems := SplitSpace(line);
      var addr, inst := elems[0], JoinSpace(elems[1..]);
      assert Entry(line) == (addr, inst);
      ok, currAddr', sameAddrInsts', done' := true, currAddr, sameAddrInsts, done;
      if currAddr.Some? && addr != currAddr.value {
        var run := Run(currAddr.value, sameAddrInsts);
        ok := Aggregate(currAddr.value, sameAddrInsts);
        if !ok {
          return;
        }
        ApplyRunsSnoc(init, done, run);
        done' := done + [run];
        sameAddrInsts' := [];
        assert [] + [inst] == [inst];
      }
      currAddr' := Some(addr);
      sameAddrInsts' := sameAddrInsts' + [inst];
    }

    /**
     * `createProgram`: the text lines, in line order, are cut into runs of
     * one address, and each run is aggregated in turn (see
     * `Listing.CreateRunsGroup` for which runs these are). It raises
     * exactly when some run's address text is not hexadecimal.
     */
    method CreateProgram() returns (ok: bool)
      requires text.Wf() && program.Wf()
      modifies this`program, this`addr2RawStr
      ensures program.Wf()
      ensures ok == CreateRuns(Entries(text, |text.keys|)).Some?
      ensures ok ==> ProgState(program, addr2RawStr)
                     == ApplyRuns(ProgState(old(program), old(addr2RawStr)), CreateRuns(Entries(text, |text.keys|)).value)
    {
      var txt := text;
      KeysInMap(txt);
      ghost var init := ProgState(program, addr2RawStr);
      ghost var done: seq<Run> := [];
      var currAddr: Option<string> := None;
      var sameAddrInsts: seq<string> := [];
      for j := 0 to |txt.keys|
        invariant program.Wf() && txt == text
        invariant CreateLines(Entries(txt, j)) == Some(CreateState(done, currAddr, sameAddrInsts))
        invariant currAddr.None? ==> sameAddrInsts == []
        invariant RunsParse(done) && ProgState(program, addr2RawStr) == ApplyRuns(init, done)
      {
        ok, currAddr, sameAddrInsts, done := ProgramLine(txt, j, currAddr, sameAddrInsts, done, init);
        if !ok {
          return;
        }
      }
      ok := FinishRuns(currAddr, sameAddrInsts, Entries(txt, |txt.keys|), done, init);
    }

    /** One iteration of `createProgram`'s loop, on the text line at position `j`. */
    method ProgramLine(txt: OrdMap<int, string>, j: nat, currAddr: Option<string>, sameAddrInsts: seq<string>,
                       ghost done: seq<Run>, ghost init: ProgState)
      returns (ok: bool, currAddr': Option<string>, sameAddrInsts': seq<string>, ghost done': seq<Run>)
      requires j < |txt.keys| && forall i :: 0 <= i < |txt.keys| ==> txt.keys[i] in txt.m
      requires CreateLines(Entries(txt, j)) == Some(CreateState(done, currAddr, sameAddrInsts))
      requires program.Wf() && RunsParse(done) && ProgState(program, addr2RawStr) == ApplyRuns(init, done)
      modifies this`program, this`addr2RawStr
      ensures program.Wf()
      ensures !ok ==> CreateRuns(Entries(txt, |txt.keys|)).None?
      ensures ok ==> CreateLines(Entries(txt, j + 1)) == Some(CreateState(done', currAddr', sameAddrInsts'))
      ensures ok ==> currAddr'.Some?
      ensures ok ==> RunsParse(done') && ProgState(program, addr2RawStr) == ApplyRuns(init, done')
    {
      CreateLinesNext(txt, j);
      ok, currAddr', sameAddrInsts', done' := TakeEntry(currAddr, sameAddrInsts, txt.m[txt.keys[j]], done, init);
      if !ok {
        CreateLinesRaises(txt, j + 1);
      }
    }

    /** After `createProgram`'s loop over the entries `es`: the run still buffered is aggregated when it holds lines. */
    method FinishRuns(currAddr: Option<string>, sameAddrInsts: seq<string>, ghost es: seq<(string, string)>,
                      ghost done: seq<Run>, ghost init: ProgState)
      returns (ok: bool)
      requires CreateLines(es) == Some(CreateState(done, currAddr, sameAddrInsts))
      requires program.Wf() && RunsParse(done) && ProgState(program, addr2RawStr) == ApplyRuns(init, done)
      requires currAddr.None? ==> sameAddrInsts == []
      modifies this`program, this`addr2RawStr
      ensures program.Wf()
      ensures ok == CreateRuns(es).Some?
      ensures ok ==> ProgState(program, addr2RawStr) == ApplyRuns(init, CreateRuns(es).value)
    {
      ok := true;
      if |sameAddrInsts| > 0 {
        ok := Aggregate(currAddr.value, sameAddrInsts);
        if ok {
          ApplyRunsSnoc(init, done, Run(currAddr.value, sameAddrInsts));
        }
      }
    }

    /**
     * The body of `buildInsts`' loop for one program line, given as the
     * text handed to the decoder: a decoded instruction gives the previous
     * one its size, is stored under its address and moves the bounds.
     */
    method IndexLine(prevAddr: int, lineText: string, decoder: map<string, Inst>) returns (prevAddr': int)
      requires PrevOk(IndexState(addr2Inst, prevAddr, programStart, programEnd))
      modifies this`addr2Inst, this`programStart, this`programEnd
      ensures var st := IndexState(old(addr2Inst), prevAddr, old(programStart), old(programEnd));
        IndexState(addr2Inst, prevAddr', programStart, programEnd)
        == match CreateInst(decoder, lineText)
           case None => st
           case Some(i) => IndexStep(st, i)
    {
      prevAddr' := prevAddr;
      var decoded := CreateInst(decoder, lineText);
      if decoded.Some? {
        var inst := decoded.value;
        if prevAddr != -1 {
          addr2Inst := SetSize(addr2Inst, prevAddr, inst.address - prevAddr);
        }
        addr2Inst := addr2Inst.Put(inst.address, inst);
        if programStart == -1 {
          programStart := inst.address;
        }
        programEnd := if inst.address < programEnd then programEnd else inst.address;
        prevAddr' := inst.address;
      }
    }

    /**
     * `buildInsts`: each program line, in program order, is decoded; every
     * decoded instruction is stored under its address and gives the
     * previous one its size; the last one gets size 2 when its address is
     * positive.
     */
    method BuildInsts(decoder: map<string, Inst>)
      requires program.Wf() && addr2Inst.Wf()
      modifies this`addr2Inst, this`programStart, this`programEnd
      ensures addr2Inst.Wf()
      ensures var st := IndexAll(IndexState(old(addr2Inst), -1, old(programStart), old(programEnd)),
                                 Decodes(program, |program.keys|, decoder));
        addr2Inst == Finish(st) && programStart == st.programStart && programEnd == st.programEnd
    {
      ghost var init := IndexState(addr2Inst, -1, programStart, programEnd);
      var prog := program;
      var prevAddr := -1;
      for j := 0 to |prog.keys|
        invariant prog == program
        invariant IndexState(addr2Inst, prevAddr, programStart, programEnd)
                  == IndexLines(init, prog, j, decoder)
      {
        var addr := prog.keys[j];
        prevAddr := IndexLine(prevAddr, addr + " " + prog.m[addr], decoder);
      }
      IndexLinesDecodes(init, program, |program.keys|, decoder);
      IndexAllKeyed(init, Decodes(program, |program.keys|, decoder));
      if prevAddr > 0 {
        addr2Inst := SetSize(addr2Inst, prevAddr, 2);
      }
    }

    // -------------------------------------------------------------------
    // The visitor

    /** `addAuxilaryInst`: a synthetic instruction at `addr`, unless one is there already. */
    method AddAuxilaryInst(addr: int, operandName: string)
      modifies this`addr2InstAux
      ensures addr2InstAux == AddAux(old(addr2InstAux), addr, operandName, auxSize)
    {
      if addr !in addr2InstAux.m {
        var aux0 := addr2InstAux;
        addr2InstAux := addr2InstAux.Put(addr, AuxInst(addr, operandName, auxSize));
        addr2InstAux := addr2InstAux.Put(addr, addr2InstAux.m[addr].(start := true));
        addr2InstAux := addr2InstAux.Put(addr, addr2InstAux.m[addr].(fallThrough := false));
        PutPut(aux0, addr, AuxInst(addr, operandName, auxSize), AuxInst(addr, operandName, auxSize).(start := true));
        PutPut(aux0, addr, AuxInst(addr, operandName, auxSize).(start := true),
               AuxInst(addr, operandName, auxSize).(start := true, fallThrough := false));
      }
    }

    /**
     * `enter(inst, enterAddr)` for the instruction at `a`: what it adds or
     * marks depends on the kind of the target (`Visitor.EnterEffect`).
     */
    method Enter(a: int, enterAddr: int)
      requires a in addr2Inst.m
      modifies this`addr2Inst, this`addr2InstAux
      ensures VisitState(addr2Inst, addr2InstAux) == Visitor.Enter(VisitState(old(addr2Inst), old(addr2InstAux)), a, enterAddr, auxSize)
      ensures addr2Inst.keys == old(addr2Inst.keys) && addr2Inst.m.Keys == old(addr2Inst.m.Keys)
    {
      var inst := addr2Inst.m[a];
      if enterAddr == FakeCalleeAddr {
        AddAuxilaryInst(enterAddr, "extrn_sym");
      } else if 0 <= enterAddr < 256 {
        AddAuxilaryInst(enterAddr, SoftIrqName(enterAddr));
      } else if enterAddr !in addr2Inst.m {
        if inst.operand == "call" || inst.operand == "syscall" {
          AddAuxilaryInst(enterAddr, "extrn_sym");
        } else {
          AddAuxilaryInst(InvalidAddr, "invalid");
          addr2Inst := SetInst(addr2Inst, a, addr2Inst.m[a].(branchTo := Some(InvalidAddr)));
        }
      } else {
        addr2Inst := SetInst(addr2Inst, enterAddr, addr2Inst.m[enterAddr].(start := true));
      }
    }

    /** `branch`: the target is recorded, then the target and the next address are entered. */
    method Branch(a: int)
      requires a in addr2Inst.m
      modifies this`addr2Inst, this`addr2InstAux
      ensures VisitState(addr2Inst, addr2InstAux) == Visitor.Branch(VisitState(old(addr2Inst), old(addr2InstAux)), a, auxSize)
      ensures addr2Inst.keys == old(addr2Inst.keys) && addr2Inst.m.Keys == old(addr2Inst.m.Keys)
    {
      var inst := addr2Inst.m[a];
      var branchToAddr := inst.target;
      addr2Inst := SetInst(addr2Inst, a, addr2Inst.m[a].(branchTo := Some(branchToAddr)));
      Enter(a, branchToAddr);
      Enter(a, NextAddr(a, inst.size));
    }

    /** `call`: the instruction is marked as a call, its target recorded and entered. */
    method Call(a: int)
      requires a in addr2Inst.m
      modifies this`addr2Inst, this`addr2InstAux
      ensures VisitState(addr2Inst, addr2InstAux) == Visitor.Call(VisitState(old(addr2Inst), old(addr2InstAux)), a, auxSize)
      ensures addr2Inst.keys == old(addr2Inst.keys) && addr2Inst.m.Keys == old(addr2Inst.m.Keys)
    {
      var insts0 := addr2Inst;
      var inst := addr2Inst.m[a];
      addr2Inst := SetInst(addr2Inst, a, addr2Inst.m[a].(call := true));
      var callAddr := inst.target;
      addr2Inst := SetInst(addr2Inst, a, addr2Inst.m[a].(branchTo := Some(callAddr)));
      PutPut(insts0, a, inst.(call := true), inst.(call := true, branchTo := Some(callAddr)));
      Enter(a, callAddr);
    }

    /** `jump`: no fall-through, the target is recorded, then the target and the next address are entered. */
    method Jump(a: int)
      requires a in addr2Inst.m
      modifies this`addr2Inst, this`addr2InstAux
      ensures VisitState(addr2Inst, addr2InstAux) == Visitor.Jump(VisitState(old(addr2Inst), old(addr2InstAux)), a, auxSize)
      ensures addr2Inst.keys == old(addr2Inst.keys) && addr2Inst.m.Keys == old(addr2Inst.m.Keys)
    {
      var insts0 := addr2Inst;
      var inst := addr2Inst.m[a];
      var jumpAddr := inst.target;
      addr2Inst := SetInst(addr2Inst, a, addr2Inst.m[a].(fallThrough := false));
      addr2Inst := SetInst(addr2Inst, a, addr2Inst.m[a].(branchTo := Some(jumpAddr)));
      PutPut(insts0, a, inst.(fallThrough := false), inst.(fallThrough := false, branchTo := Some(jumpAddr)));
      Enter(a, jumpAddr);
      Enter(a, NextAddr(a, inst.size));
    }

    /** `end`: no fall-through; the next address is entered when it is inside the program. */
    method End(a: int)
      requires a in addr2Inst.m
      modifies this`addr2Inst, this`addr2InstAux
      ensures VisitState(addr2Inst, addr2InstAux) == Visitor.End(VisitState(old(addr2Inst), old(addr2InstAux)), a, programEnd, auxSize)
      ensures addr2Inst.keys == old(addr2Inst.keys) && addr2Inst.m.Keys == old(addr2Inst.m.Keys)
    {
      var inst := addr2Inst.m[a];
      addr2Inst := SetInst(addr2Inst, a, addr2Inst.m[a].(fallThrough := false));
      if NextAddr(a, inst.size) <= programEnd {
        Enter(a, NextAddr(a, inst.size));
      }
    }

    /** `inst.accept(self)`: the `visit` handler of the instruction's category. */
    method Accept(a: int)
      requires a in addr2Inst.m
      modifies this`addr2Inst, this`addr2InstAux
      ensures VisitState(addr2Inst, addr2InstAux)
              == Visitor.Accept(VisitState(old(addr2Inst), old(addr2InstAux)), a, programEnd, auxSize)
      ensures addr2Inst.keys == old(addr2Inst.keys) && addr2Inst.m.Keys == old(addr2Inst.m.Keys)
    {
      match addr2Inst.m[a].category
      case Default =>
      case Calling => Call(a);
      case ConditionalJump => Branch(a);
      case UnconditionalJump => Jump(a);
      case EndHere => End(a);
    }

    /** The body of `visitInsts`' loop for `addr`: the handler, then the byte tokens and raw lines. */
    method VisitInst(addr: int)
      requires addr in addr2Inst.m
      modifies this`addr2Inst, this`addr2InstAux
      ensures VisitState(addr2Inst, addr2InstAux)
              == VisitStep(VisitState(old(addr2Inst), old(addr2InstAux)), addr, programEnd, auxSize, addr2Bytes, addr2RawStr)
    {
      Accept(addr);
      AttachListing(addr);
    }

    /** The visited instruction takes the byte tokens and raw lines filed under its address. */
    method AttachListing(addr: int)
      requires addr in addr2Inst.m
      modifies this`addr2Inst
      ensures addr2Inst == Attach(old(addr2Inst), addr, addr2Bytes, addr2RawStr)
    {
      var insts1 := addr2Inst;
      var inst := addr2Inst.m[addr];
      if addr in addr2Bytes {
        addr2Inst := SetInst(addr2Inst, addr, addr2Inst.m[addr].(bytes := addr2Bytes[addr]));
      }
      if addr in addr2RawStr {
        addr2Inst := SetInst(addr2Inst, addr, addr2Inst.m[addr].(rawStrs := addr2RawStr[addr]));
      }
      if addr in addr2Bytes && addr in addr2RawStr {
        PutPut(insts1, addr, inst.(bytes := addr2Bytes[addr]), inst.(bytes := addr2Bytes[addr], rawStrs := addr2RawStr[addr]));
      } else if addr !in addr2Bytes && addr !in addr2RawStr {
        assert insts1.m[addr := inst] == insts1.m;
      }
    }

    /**
     * `visitInsts`: every instruction of the index, in its order, is
     * visited; then the auxiliary instructions are merged into the index.
     */
    method VisitInsts()
      requires addr2Inst.Wf() && addr2InstAux.Wf()
      modifies this`addr2Inst, this`addr2InstAux
      ensures addr2Inst == Merge(VisitAll(VisitState(old(addr2Inst), old(addr2InstAux)), old(addr2Inst).keys,
                                          programEnd, auxSize, addr2Bytes, addr2RawStr))
      ensures addr2InstAux == VisitAll(VisitState(old(addr2Inst), old(addr2InstAux)), old(addr2Inst).keys,
                                       programEnd, auxSize, addr2Bytes, addr2RawStr).aux
    {
      VisitEach();
      MergeAux();
    }

    /** The loop of `visitInsts`: every instruction, in listing order, is visited once. */
    method VisitEach()
      requires addr2Inst.Wf() && addr2InstAux.Wf()
      modifies this`addr2Inst, this`addr2InstAux
      ensures VisitState(addr2Inst, addr2InstAux)
              == VisitAll(VisitState(old(addr2Inst), old(addr2InstAux)), old(addr2Inst).keys,
                          programEnd, auxSize, addr2Bytes, addr2RawStr)
    {
      ghost var init := VisitState(addr2Inst, addr2InstAux);
      var ks := addr2Inst.keys;
      assert forall k :: k in ks ==> k in init.insts.m;
      assert ks[..0] == [];
      for j := 0 to |ks|
        invariant VisitState(addr2Inst, addr2InstAux) == VisitAll(init, ks[..j], programEnd, auxSize, addr2Bytes, addr2RawStr)
      {
        VisitAllNext(init, ks, j, programEnd, auxSize, addr2Bytes, addr2RawStr);
        VisitInst(ks[j]);
      }
      WholePrefix(ks);
    }

    /** `self.addr2Inst.update(self.addr2InstAux)` */
    method MergeAux()
      requires addr2InstAux.Wf()
      modifies this`addr2Inst
      ensures addr2Inst == Merge(VisitState(old(addr2Inst), addr2InstAux))
    {
      addr2Inst := Update(addr2Inst, addr2InstAux.keys, addr2InstAux.m);
    }

    // -------------------------------------------------------------------
    // Block assembly

    /** `getBlockAtAddr`: the block starting at `addr`, created empty when there is none. */
    method GetBlockAtAddr(addr: int) returns (b: Block)
      modifies this`addr2Block
      ensures addr2Block == GetBlockAt(old(addr2Block), addr) && b == addr2Block[addr]
    {
      if addr !in addr2Block {
        var block := EmptyBlock;
        block := block.(startAddr := addr);
        block := block.(endAddr := addr);
        addr2Block := addr2Block[addr := block];
      }
      b := addr2Block[addr];
    }

    /**
     * The body of `connectBlocks`' loop for the instruction at `addr`;
     * `currBlock` is the start address of the current block.
     */
    method ConnectInst(addr: int, currBlock: Option<int>) returns (nextBlock: Option<int>)
      requires addr in addr2Inst.m && CursorOk(Cursor(addr2Block, currBlock))
      modifies this`addr2Block
      ensures Cursor(addr2Block, nextBlock) == ConnectStep(addr2Inst.m, Cursor(old(addr2Block), currBlock), addr)
    {
      var inst := addr2Inst.m[addr];
      var curr := PickBlock(addr, currBlock);
      var next := FallThrough(addr, curr);
      BranchOut(curr, inst);
      var b := addr2Block[curr];
      addr2Block := addr2Block[curr := b.(instList := b.instList + [inst],
                                          endAddr := if b.endAddr < inst.address then inst.address else b.endAddr)];
      nextBlock := Some(next);
    }

    /** A new current block at `addr` when there is none or the instruction starts one. */
    method PickBlock(addr: int, currBlock: Option<int>) returns (curr: int)
      requires addr in addr2Inst.m && CursorOk(Cursor(addr2Block, currBlock))
      modifies this`addr2Block
      ensures (curr, addr2Block) == SelectBlock(old(addr2Block), currBlock, addr, addr2Inst.m[addr])
    {
      if currBlock.None? || addr2Inst.m[addr].start {
        var _ := GetBlockAtAddr(addr);
        curr := addr;
      } else {
        curr := currBlock.value;
      }
    }

    /** The fall-through edge out of the current block, and the block that is current next. */
    method FallThrough(addr: int, curr: int) returns (next: int)
      requires addr in addr2Inst.m && curr in addr2Block
      modifies this`addr2Block
      ensures (next, addr2Block) == FallEdge(addr2Inst.m, old(addr2Block), curr, addr, addr2Inst.m[addr])
    {
      var inst := addr2Inst.m[addr];
      var nextAddr := NextAddr(addr, inst.size);
      next := curr;
      if nextAddr in addr2Inst.m {
        var nextInst := addr2Inst.m[nextAddr];
        if inst.fallThrough && nextInst.start {
          var _ := GetBlockAtAddr(nextAddr);
          next := nextAddr;
          addr2Block := addr2Block[curr := AddEdge(addr2Block[curr], nextAddr)];
        }
      }
    }

    /** The branch edge out of the current block and, for a call, the return edge into it. */
    method BranchOut(curr: int, inst: Inst)
      requires curr in addr2Block
      modifies this`addr2Block
      ensures addr2Block == BranchEdges(old(addr2Block), curr, inst)
    {
      if inst.branchTo.Some? {
        var t := inst.branchTo.value;
        var _ := GetBlockAtAddr(t);
        if t !in addr2Block[curr].edgeList {
          addr2Block := addr2Block[curr := AddEdge(addr2Block[curr], t)];
        }
        if inst.call && curr !in addr2Block[t].edgeList {
          addr2Block := addr2Block[t := AddEdge(addr2Block[t], curr)];
        }
      }
    }

    /**
     * `connectBlocks`: the instructions, in ascending address order, are
     * grouped into blocks and the blocks connected (see
     * `Assembly.ConnectBlocksSound` for what the blocks then are).
     */
    method ConnectBlocks()
      requires addr2Inst.Wf()
      modifies this`addr2Block
      ensures forall k :: k in SortedKeys(addr2Inst.keys) ==> k in addr2Inst.m
      ensures addr2Block == ConnectFold(addr2Inst.m, Cursor(old(addr2Block), None), SortedKeys(addr2Inst.keys)).blocks
    {
      var ks := SortedKeys(addr2Inst.keys);
      SortedKeysIn(addr2Inst);
      ghost var init := Cursor(addr2Block, None);
      var currBlock: Option<int> := None;
      assert ks[..0] == [];
      for j := 0 to |ks|
        invariant Cursor(addr2Block, currBlock) == ConnectFold(addr2Inst.m, init, ks[..j])
      {
        ConnectFoldNext(addr2Inst.m, init, ks, j);
        currBlock := ConnectInst(ks[j], currBlock);
      }
      WholePrefix(ks);
    }
  }

  /** The prefix of the whole length is the whole sequence. */
  lemma WholePrefix(ks: seq<int>)
    ensures ks[..|ks|] == ks
  {
  }

  /**
   * The block pass over the index `buildInsts` leaves: `visitInsts` keeps
   * every instruction at its own address and resolves every recorded target
   * to a block-starting instruction, so that `connectBlocks`, from an empty
   * block map and over the sorted addresses, partitions the merged index
   * into blocks that satisfy the pass invariant, none of them empty.
   */
  lemma {:induction false} BlockPassSound(ds: seq<Inst>, auxSize: int,
                                          addr2Bytes: map<int, seq<string>>, addr2RawStr: map<int, seq<string>>)
    requires forall j :: 0 <= j < |ds| ==> ds[j].branchTo.None?
    ensures var st := IndexAll(Fresh(), ds);
      var insts := Finish(st);
      && insts.Wf() && Keyed(insts.m)
      && var merged := Merge(VisitAll(VisitState(insts, Empty()), insts.keys, st.programEnd, auxSize, addr2Bytes, addr2RawStr));
         && merged.Wf() && Keyed(merged.m) && TargetsStart(merged.m)
         && var ks := SortedKeys(merged.keys);
            && (forall k :: k in ks ==> k in merged.m)
            && var blocks := ConnectFold(merged.m, Cursor(map[], None), ks).blocks;
               && Inv(merged.m, merged.m.Keys, blocks)
               && forall k :: k in blocks ==> blocks[k].instList != []
  {
    var st := IndexAll(Fresh(), ds);
    var insts := Finish(st);
    IndexAllKeyed(Fresh(), ds);
    IndexAllNoTargets(Fresh(), ds);
    BlockPassVisit(insts, st.programEnd, auxSize, addr2Bytes, addr2RawStr);
  }

  /** `visitInsts` then `connectBlocks`, over an index whose instructions sit at their own addresses and record no target. */
  lemma {:induction false} BlockPassVisit(insts: OrdMap<int, Inst>, programEnd: int, auxSize: int,
                                          addr2Bytes: map<int, seq<string>>, addr2RawStr: map<int, seq<string>>)
    requires insts.Wf() && Keyed(insts.m) && NoTargets(insts.m)
    ensures var merged := Merge(VisitAll(VisitState(insts, Empty()), insts.keys, programEnd, auxSize, addr2Bytes, addr2RawStr));
      && merged.Wf() && Keyed(merged.m) && TargetsStart(merged.m)
      && var ks := SortedKeys(merged.keys);
         && (forall k :: k in ks ==> k in merged.m)
         && var blocks := ConnectFold(merged.m, Cursor(map[], None), ks).blocks;
            && Inv(merged.m, merged.m.Keys, blocks)
            && forall k :: k in blocks ==> blocks[k].instList != []
  {
    var s := VisitState(insts, Empty());
    VisitResolvesTargets(s, programEnd, auxSize, addr2Bytes, addr2RawStr);
    var r := VisitAll(s, insts.keys, programEnd, auxSize, addr2Bytes, addr2RawStr);
    VisitAllKeyed(s, insts.keys, programEnd, auxSize, addr2Bytes, addr2RawStr);
    MergeKeyed(r);
    ConnectMerged(Merge(r));
  }

  /** `connectBlocks` over the merged index, in sorted address order, from an empty block map. */
  lemma {:induction false} ConnectMerged(merged: OrdMap<int, Inst>)
    requires merged.Wf() && Keyed(merged.m) && TargetsStart(merged.m)
    ensures var ks := SortedKeys(merged.keys);
      && (forall k :: k in ks ==> k in merged.m)
      && var blocks := ConnectFold(merged.m, Cursor(map[], None), ks).blocks;
         && Inv(merged.m, merged.m.Keys, blocks)
         && forall k :: k in blocks ==> blocks[k].instList != []
  {
    var ks := SortedKeys(merged.keys);
    SortedKeysIn(merged);
    assert Elements(ks) == merged.m.Keys by {
      assert Elements(ks) == Elements(merged.keys);
    }
    ConnectBlocksSound(merged.m, ks);
  }

  /** Every address of the index, sorted, is a key of it. */
  lemma {:induction false} SortedKeysIn(insts: OrdMap<int, Inst>)
    requires insts.Wf()
    ensures forall k :: k in SortedKeys(insts.keys) ==> k in insts.m
  {
    forall k | k in SortedKeys(insts.keys) ensures k in insts.m {
      var i :| 0 <= i < |SortedKeys(insts.keys)| && SortedKeys(insts.keys)[i] == k;
      assert k in Elements(SortedKeys(insts.keys));
    }
  }

  /** Filing the token at `idx` after the ones before it files the first `idx + 1` tokens. */
  lemma {:induction false} FileNextByte(m: map<int, seq<string>>, k: int, xs: seq<string>, idx: nat)
    requires idx < |xs|
    ensures Extend(if idx == 0 then m else Extend(m, k, xs[..idx]), k, [xs[idx]]) == Extend(m, k, xs[..idx + 1])
  {
    ExtendTwice(m, k, xs[..idx], [xs[idx]]);
    assert xs[..idx] + [xs[idx]] == xs[..idx + 1];
    if idx == 0 {
      assert xs[..idx] == [];
    }
  }

  /** Some line among the first `n` raises, so some line raises. */
  lemma {:induction false} AnyRaisesExtends(lines: seq<seq<string>>, n: nat)
    requires n <= |lines| && AnyRaises(lines[..n])
    ensures AnyRaises(lines)
    decreases |lines| - n
  {
    if n < |lines| {
      assert lines[..n + 1][..n] == lines[..n];
      AnyRaisesExtends(lines, n + 1);
    } else {
      assert lines[..n] == lines;
    }
  }
}
