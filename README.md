# Control-flow-graph construction of MAGIC's `maldefender/cfg_builder.py`, in Dafny

MAGIC turns the disassembly listing (`.asm`) of a Windows executable into an
attributed control-flow graph. `ControlFlowGraphBuilder` does this in two
passes.

- **Instruction pass.**
  - `extractTextSeg` keeps the lines of known code segments. It files their raw byte tokens under the address in `addr2Bytes` and their instruction text under the line number in `text`.
  - `createProgram` cuts the text lines into runs of one address. It `aggregate`s each run into one logical line in `program` and files its raw lines in `addr2RawStr`.
  - `buildInsts` decodes every program line into an instruction in `addr2Inst`. It sizes each instruction by the gap to the next one and records the bounds `programStart` and `programEnd`.
- **Block pass.**
  - `visitInsts` runs the visitor of each instruction's category (`call`, `branch`, `jump`, `end`). The visitor records branch targets, clears fall-through and marks block starts through `enter`. Targets that are not decoded instructions get auxiliary instructions in `addr2InstAux`, which are merged into `addr2Inst` at the end.
  - `connectBlocks` walks the instructions in ascending address order. It groups them into `Block`s in `addr2Block` and links the blocks with fall-through, branch and call-return edges.
- **Features.** `Block` computes byte 1-gram and 4-gram histograms over its instructions' byte tokens.

## How the model is organised

| file | module | contents |
|---|---|---|
| `wrappers.dfy` | `Wrappers` | `Option` |
| `strings.dfy` | `Strings` | the Python `str` operations used: `startswith`, `find`, `rstrip`, `' '.join`, `split(' ')`, `rfind`, `int(s, 16)` and `'%X'` |
| `orderedmaps.dfy` | `OrderedMaps` | insertion-ordered dictionaries (`dict`, `OrderedDict`) as a key sequence plus a map |
| `instructions.dfy` | `Instructions` | the instruction record as the builder sees it; the sentinel addresses |
| `listing.dfy` | `Listing` | the listing pass as functions: segment labels, per-line token rules, aggregation rules, runs of one address |
| `index.dfy` | `Index` | `buildInsts` as a fold over the decoded instructions |
| `visitor.dfy` | `Visitor` | `enter`, the category handlers and `visitInsts` as functions over the pair `(addr2Inst, addr2InstAux)` |
| `assembly.dfy` | `Assembly` | `getBlockAtAddr` and `connectBlocks` as functions over `addr2Block` and the `currBlock` cursor, with the invariants of the pass |
| `blocks.dfy` | `Blocks` | `Block`, `bytesFromInsts`, and the n-gram features as methods with loops, proved against histogram functions |
| `builder.dfy` | `CfgBuilder` | the class `ControlFlowGraphBuilder` |

`ControlFlowGraphBuilder` is a class whose dictionaries are fields. Each method performs its Python namesake's statements with the same loops and branches, and its postcondition equates the new fields with the functions of the modules above. The properties of each pass are proved about those functions.

Instructions and blocks are Python objects updated in place. Here they are values stored in address-keyed maps, and every update goes through the map. The model proves that each value sits under its own address (`Instructions.Keyed`, `Assembly.KeyedBlocks`): after `buildInsts` (`Index.IndexAllKeyed`), through `visitInsts` and its merge (`Visitor.VisitAllKeyed`, `Visitor.MergeKeyed`) and during `connectBlocks` (`Assembly.ConnectFoldKeyed`). So an update through an alias (`inst`, `currBlock`, `nextBlock`) and a later read through the map see the same object, as in the source. `CfgBuilder.BlockPassSound` chains the three passes into the soundness of the block map.

Some behaviour of the code is easy to misread; the model keeps it as the code has it:

- **Multiple candidates with data declarations.** With two or more candidate instructions and a non-blank data-declaration fragment, `aggregate` keeps the fragment alone and drops the candidates (`elif` at line 289). Only when the fragment is blank are the candidates concatenated (lines 292-298).
- **Size of the last instruction.** The comment at line 347 says the last instruction gets size 2, but the code does so only when its address is positive (`if prevAddr > 0`, line 348). An instruction at address 0 keeps its size from decoding.
- **Duplicate fall-through edges.** The fall-through edge is appended without a membership test (line 475). A block's `edgeList` can therefore hold a target twice; only branch and return edges are de-duplicated.
- **`InvalidAddr` overwrites a valid target.** `branch` and `jump` call `enter` a second time, on `address + size`. When that address is unresolvable, the second call overwrites the recorded target with `InvalidAddr`, even when the first target was valid (`Visitor.BranchEffect`, `Visitor.JumpEffect`).

## Model

| member | source | states |
|---|---|---|
| `Strings.RStrip` | maldefender/cfg_builder.py:287-301 | `s.rstrip(cs)` is a prefix of `s` that does not end in a character of `cs` |
| `Strings.RStripKeeps` | maldefender/cfg_builder.py:287-301 | only characters of `cs` are stripped: a character outside `cs` survives |
| `Strings.RStripIdempotent` | maldefender/cfg_builder.py:41-49 | stripping twice strips nothing more (why the second `rstrip` in `get1gramFeatures` changes nothing) |
| `Strings.RStripAppend` | maldefender/cfg_builder.py:286-287 | trailing characters of `cs` appended to a string are stripped away again |
| `Strings.SplitSpace` | maldefender/cfg_builder.py:309 | `split(' ')` always yields at least one piece |
| `Strings.SplitSpaceFirst` | maldefender/cfg_builder.py:309-310 | a space-free word followed by a space splits off as the first piece |
| `Strings.SplitSpaceWord` | maldefender/cfg_builder.py:309 | a space-free text splits into itself alone |
| `Strings.SplitJoin` | maldefender/cfg_builder.py:207-210 | `split(' ')` inverts `' '.join` on space-free words |
| `Strings.RFind` | maldefender/cfg_builder.py:152 | `rfind` returns the last index holding the character, or -1 when there is none |
| `Strings.ParseHex` | maldefender/cfg_builder.py:161 | `int(s, 16)` succeeds exactly on a non-empty string of hexadecimal digits |
| `Strings.AllHexDigitsAt` | maldefender/cfg_builder.py:161 | the digit test holds exactly when every character is a hexadecimal digit |
| `Strings.UpperHex` | maldefender/cfg_builder.py:384 | `'%X' % n` is a non-empty string of hexadecimal digits |
| `Strings.ParseUpperHex` | maldefender/cfg_builder.py:384 | parsing `'%X' % n` with `int(., 16)` gives `n` back |
| `OrderedMaps.OrdMap.Put` | maldefender/cfg_builder.py:115-116 | `d[k] = v` maps `k` to `v`; a new key goes last and an existing key keeps its place |
| `OrderedMaps.Update` | maldefender/cfg_builder.py:370 | after `a.update(b)` the keys are those of both; `b`'s values win and `a`'s other values stay |
| `OrderedMaps.PutPut` | maldefender/cfg_builder.py:374-376 | storing twice under one key keeps only the second value |
| `Instructions.AuxInst` | maldefender/cfg_builder.py:374 | a synthetic instruction is at the given address, has the given operand, no target and is not a call |
| `Listing.SegNameColonEnded` | maldefender/cfg_builder.py:144-149 | every known segment prefix ends in `:` |
| `Listing.AddrInCodeSegmentSuffix` | maldefender/cfg_builder.py:143-158 | a label outside the known segments gives `"NotInCodeSeg"`; one inside gives exactly the text after its last `:`, and the `seg[-8:]` fallback is unreachable |
| `Listing.LeadingBytes` | maldefender/cfg_builder.py:167-174 | `indexOfInst`'s result is the length of the longest leading run of byte tokens |
| `Listing.IndexOfComment` | maldefender/cfg_builder.py:176-181 | the index of the first token containing `;`, or the token count |
| `Listing.Extend` | maldefender/cfg_builder.py:160-165 | appending to `addr2Bytes`/`addr2RawStr` extends the list at one address, creating it on first use, and changes no other list |
| `Listing.ExtendTwice` | maldefender/cfg_builder.py:226-231 | appending in two steps equals appending once |
| `Listing.ExtendAt` | maldefender/cfg_builder.py:160-165 | reading any address after an append gives the old list, extended only at the appended address |
| `Listing.LineTextEntry` | maldefender/cfg_builder.py:204-210 | the text stored for a line splits back into its address and exactly the instruction tokens: after the byte tokens, before the comment, at least one, the first not a byte token |
| `Listing.ScanLinesRaises` | maldefender/cfg_builder.py:189-215 | the line loop raises exactly when some kept line has byte tokens but an address that is not hexadecimal |
| `Listing.ScanLinesPutAll` | maldefender/cfg_builder.py:189-215 | a scan that does not raise stores each line's text, in order, under consecutive line numbers |
| `Listing.ScanLinesText` | maldefender/cfg_builder.py:189-215 | a scan that does not raise stores at line number `n` exactly the text of that line, where it has one, and keeps the earlier entries |
| `Listing.IsHeaderInfoAt` | maldefender/cfg_builder.py:219-224 | `isHeaderInfo` holds exactly when some line starts with `_text segment` or contains `.mmx` |
| `Listing.DataLinesAreData` | maldefender/cfg_builder.py:252-283 | every line accumulated into the data fragment is classified as a data declaration |
| `Listing.DataLineNotBlank` | maldefender/cfg_builder.py:261-279 | a data-declaration line always holds a non-blank character, so the data fragment never strips to nothing |
| `Listing.AggregateRules` | maldefender/cfg_builder.py:233-301 | a header anywhere keeps the last line verbatim; else one candidate plus the joined data lines; else the joined data lines (never empty) when there are any; else the stripped candidates joined |
| `Listing.SkippedLineIrrelevant` | maldefender/cfg_builder.py:253-260 | removing a procedure, `public`, `assume`, `endp`/`ends` or label line from a header-free group leaves the aggregated text unchanged |
| `Listing.DataFragmentJoin` | maldefender/cfg_builder.py:261-279 | `foundDataDeclare` is the data lines space-joined plus a trailing space |
| `Listing.ConcatenatedJoin` | maldefender/cfg_builder.py:295-297 | the fallback text is the stripped candidates space-joined plus a trailing space |
| `Listing.Group` | maldefender/cfg_builder.py:308-323 | the runs are empty exactly when the entries are, and the last run has the last entry's address |
| `Listing.GroupNonEmpty` | maldefender/cfg_builder.py:308-323 | every run holds at least one line |
| `Listing.GroupMaximal` | maldefender/cfg_builder.py:315-317 | consecutive runs have different addresses, so every run is maximal |
| `Listing.GroupFlatten` | maldefender/cfg_builder.py:308-323 | the runs, flattened, are the entries: nothing is lost, added or reordered |
| `Listing.CreateLinesGroup` | maldefender/cfg_builder.py:308-320 | after the loop, every closed run has been aggregated and the open run is buffered in `currAddr`/`sameAddrInsts`, unless some `aggregate` raised |
| `Listing.CreateRunsGroup` | maldefender/cfg_builder.py:303-323 | `createProgram` aggregates exactly the maximal runs, in order, and raises exactly when some run's address is not hexadecimal |
| `Listing.CreateRunsFlush` | maldefender/cfg_builder.py:322-323 | when every closed run parses, the final flush adds the open run, or raises exactly when its address does not parse |
| `Listing.CreateRunsRaise` | maldefender/cfg_builder.py:312-316 | when a closed run does not parse, the loop has raised and `createProgram` yields nothing |
| `Listing.CreateLinesStops` | maldefender/cfg_builder.py:316 | once an `aggregate` in the loop has raised, the whole loop has raised |
| `Listing.CreateLinesRaises` | maldefender/cfg_builder.py:308-323 | once the loop has raised on the first `j` text lines, `createProgram` raises |
| `Listing.CreateLinesNext` | maldefender/cfg_builder.py:308-320 | one more text line is one more step of the loop, and nothing more happens once it has raised |
| `Listing.EntriesPrefix` | maldefender/cfg_builder.py:308 | the first `j` entries read from `text` are a prefix of the first `n` |
| `Listing.ApplyRunsLastWins` | maldefender/cfg_builder.py:246-301 | an address keeps the text aggregated from its last run; a later run at a repeated address overwrites the earlier one |
| `Listing.ApplyRunsRawStrings` | maldefender/cfg_builder.py:226-231 | `addr2RawStr` keeps accumulating: every address's list is the old list followed by the lines of every run at that address, in order |
| `Listing.CreateProgramRawStrings` | maldefender/cfg_builder.py:303-323 | after `createProgram`, the raw strings at an address are the old ones followed by the instruction texts of every text line at that address, in listing order |
| `Index.SetSize` | maldefender/cfg_builder.py:338 | setting `size` changes that one instruction's size and nothing else |
| `Index.IndexStep` | maldefender/cfg_builder.py:333-345 | after one decoded instruction, it is the previous instruction, and the previous address is -1 or an entry of the index |
| `Index.Finish` | maldefender/cfg_builder.py:348-349 | the final size assignment keeps the index's keys and their order |
| `Index.CreateInst` | maldefender/cfg_builder.py:333-335 | the decoder accepts exactly the lines of its table and returns their instruction |
| `Index.IndexLinesDecodes` | maldefender/cfg_builder.py:332-345 | the loop over the program lines, skipping rejected lines, equals the fold over the decoded instructions |
| `Index.IndexAllKeyed` | maldefender/cfg_builder.py:340-349 | the index stays well formed and, when it was, keeps every instruction under its own address |
| `Index.IndexAllNoTargets` | maldefender/cfg_builder.py:337-349 | `buildInsts` writes only sizes: when no decoded instruction records a `branchTo`, none in the index does |
| `Index.BuildInstsSizes` | maldefender/cfg_builder.py:328-351 | from a fresh builder, the keys are the decoded addresses in order; each instruction but the last is sized by the gap to the next; the last gets 2 when its address is positive |
| `Index.IndexStart` | maldefender/cfg_builder.py:342-343 | `programStart` is the first decoded address, or -1 when nothing decodes |
| `Index.IndexEnd` | maldefender/cfg_builder.py:344 | `programEnd` is the largest decoded address, or -1 when nothing decodes |
| `Visitor.SoftIrqNameParses` | maldefender/cfg_builder.py:384 | the interrupt number can be read back from its instruction's operand `softirq_%X` |
| `Visitor.AddAux` | maldefender/cfg_builder.py:372-376 | insert-if-absent: existing auxiliary instructions are kept; a new one is at the address with the given operand, starts a block, does not fall through and has no target |
| `Visitor.TargetKind` | maldefender/cfg_builder.py:379-393 | the order in which `enter` classifies a target: extern sentinel, interrupt `0..255`, absent from the index for `call`/`syscall` or otherwise, or resolved |
| `Visitor.SetInst` | maldefender/cfg_builder.py:392-395 | writing an instruction's fields in place changes that entry only and keeps the keys |
| `Visitor.EnterEffect` | maldefender/cfg_builder.py:378-395 | what `enter` does by the kind of its target: a resolved target starts a block; an extern or interrupt target gets an auxiliary instruction; an unresolved one gets the `invalid` instruction and redirects `branchTo` to `InvalidAddr` |
| `Visitor.EnterResolved` | maldefender/cfg_builder.py:393-395 | marking a decoded target as a block start only adds, and leaves the visiting instruction as it was apart from `start` |
| `Visitor.EnterInvalid` | maldefender/cfg_builder.py:389-392 | an unresolved target adds the `invalid` instruction at `InvalidAddr` and records `InvalidAddr` as the branch target |
| `Visitor.CallEffect` | maldefender/cfg_builder.py:405-416 | `call` sets `call` and records the found address (or `InvalidAddr` when it cannot be resolved), leaving fall-through alone |
| `Visitor.BranchEffect` | maldefender/cfg_builder.py:397-403 | `branch` records the target, but `InvalidAddr` when either `enter` (on the target or on `address + size`) is unresolved |
| `Visitor.JumpEffect` | maldefender/cfg_builder.py:418-425 | `jump` records its target as `branch` does and clears fall-through |
| `Visitor.EndEffect` | maldefender/cfg_builder.py:427-432 | `end` clears fall-through and enters `address + size` only when that is at most `programEnd` |
| `Visitor.EnterTwice` | maldefender/cfg_builder.py:402-403 | the two `enter` calls of `branch` and `jump` redirect the target to `InvalidAddr` when either of their addresses is unresolved |
| `Visitor.AcceptGrows` | maldefender/cfg_builder.py:434-447 | every handler only adds: decoded fields stay, `start` is never cleared, a target is never dropped, and auxiliary instructions are never replaced |
| `Visitor.EnterCovers` | maldefender/cfg_builder.py:378-395 | after `enter` its target is a block start or an auxiliary instruction, or the branch target became `InvalidAddr`, which is one |
| `Visitor.AcceptSettles` | maldefender/cfg_builder.py:397-447 | after its handler, every instruction's recorded target is covered; calls and jumps always record one |
| `Visitor.VisitStepGrows` | maldefender/cfg_builder.py:358-368 | a visiting step only adds, and the visited instruction takes the bytes and raw strings filed under its address when there are any |
| `Visitor.VisitAll` | maldefender/cfg_builder.py:358-368 | the visiting loop keeps the index's keys and their order |
| `Visitor.VisitAllNext` | maldefender/cfg_builder.py:358-368 | one more address is one more visiting step |
| `Visitor.VisitStepSettles` | maldefender/cfg_builder.py:358-368 | one visiting step keeps every recorded target covered and the auxiliary instructions well formed |
| `Visitor.Merge` | maldefender/cfg_builder.py:370 | `addr2Inst.update(addr2InstAux)`: all keys of both; auxiliary entries win |
| `Visitor.VisitAllSettles` | maldefender/cfg_builder.py:356-368 | the visiting loop keeps every recorded target covered and the auxiliary index well formed |
| `Visitor.VisitAllKeyed` | maldefender/cfg_builder.py:356-368 | the visiting loop keeps every instruction under its own address, so the handlers' writes through `addr2Inst[inst.address]` and through the loop key reach the same entry |
| `Visitor.MergeKeyed` | maldefender/cfg_builder.py:370 | after `update(addr2InstAux)` every instruction, decoded or auxiliary, still sits under its own address |
| `Visitor.MergeResolves` | maldefender/cfg_builder.py:370 | once every target is covered, after the merge every recorded target is an instruction of the index that starts a block |
| `Visitor.VisitResolvesTargets` | maldefender/cfg_builder.py:356-370 | after `visitInsts`, every recorded branch target is an instruction of the merged index that starts a block |
| `Assembly.GetBlockAt` | maldefender/cfg_builder.py:449-457 | after `getBlockAtAddr` a block is at `addr`; a new one starts and ends at `addr` with no instructions and no edges; other blocks are unchanged |
| `Assembly.GetBlockAtIdempotent` | maldefender/cfg_builder.py:449-457 | asking twice for an address adds nothing the second time, and asking for an existing one changes nothing |
| `Assembly.AddEdgeOnce` | maldefender/cfg_builder.py:481-488 | an edge is added only when absent, and is present afterwards |
| `Assembly.SelectBlock` | maldefender/cfg_builder.py:467-468 | the current block is the existing one, or a block at `addr` when there is none or the instruction starts one |
| `Assembly.SelectPhase` | maldefender/cfg_builder.py:467-468 | choosing the current block can only add an empty block at the chosen address; instructions and edges of existing blocks are untouched |
| `Assembly.ConnectStep` | maldefender/cfg_builder.py:466-495 | after one iteration the cursor names a block of the map |
| `Assembly.ConnectFold` | maldefender/cfg_builder.py:466-495 | after any number of iterations the cursor is empty or names a block of the map |
| `Assembly.ConnectFoldNext` | maldefender/cfg_builder.py:466-495 | one more address is one more iteration of the loop |
| `Assembly.MaxAddr` | maldefender/cfg_builder.py:493 | `endAddr` is the largest of the start address and the instructions' addresses |
| `Assembly.EdgePhase` | maldefender/cfg_builder.py:467-490 | before the instruction is appended, the map has only gained edges and empty blocks; every new edge is one the instruction calls for; and every edge it calls for is there |
| `Assembly.FallPhase` | maldefender/cfg_builder.py:469-475 | the map only gains edges and empty blocks, and the only block it can gain is the fall-through block; when control falls into an instruction that starts a block, that address is an edge of the current block; every new edge is one the instruction calls for |
| `Assembly.BranchPhase` | maldefender/cfg_builder.py:479-490 | with a branch target, the target's block exists and is an edge of the current block; for a call, the current block is an edge of the target's block |
| `Assembly.AppendOrdered` | maldefender/cfg_builder.py:492-493 | appending an instruction above all others keeps a block ascending and its `endAddr` the maximum |
| `Assembly.AppendShape` | maldefender/cfg_builder.py:492-494 | appending an instruction changes only the current block's instruction list, by that one instruction at its end, and possibly its `endAddr` |
| `Assembly.StepKeepsInv` | maldefender/cfg_builder.py:466-495 | one iteration keeps the invariant of the pass, with one more instruction visited |
| `Assembly.ConnectFoldInv` | maldefender/cfg_builder.py:459-495 | over ascending addresses, the visited instructions are partitioned into blocks keyed by start address, ascending within each block, with `endAddr` their maximum; every edge leads to a block and is called for by a branch, a call's return or a fall-through, and every such edge is present |
| `Assembly.ConnectFoldPending` | maldefender/cfg_builder.py:466-495 | when every branch target starts a block, every block without instructions yet is at an instruction that starts a block |
| `Assembly.ConnectFoldKeyed` | maldefender/cfg_builder.py:449-495 | every block of the map sits under its own start address throughout the loop |
| `Assembly.ConnectBlocksSound` | maldefender/cfg_builder.py:459-495 | `connectBlocks` over all instructions puts each in exactly one block with the invariant above, and when every branch target starts a block, no block is left empty |
| `Assembly.SortedKeys` | maldefender/cfg_builder.py:466 | `sorted(addr2Inst.items())` visits every address of the index once, strictly ascending |
| `Assembly.InsertSortedAscending` | maldefender/cfg_builder.py:466 | inserting keeps the addresses strictly ascending |
| `Assembly.InsertSortedElements` | maldefender/cfg_builder.py:466 | inserting an address adds exactly that address |
| `Blocks.OneGramDistinct` | maldefender/cfg_builder.py:17-18 | the 1-gram alphabet has no repeated word, so `oneGram2Idx` is a bijection |
| `Blocks.FourGramDistinct` | maldefender/cfg_builder.py:20-22 | the 4-gram alphabet has no repeated word |
| `Blocks.BytesFromInsts` | maldefender/cfg_builder.py:37-44 | the byte tokens of the block's instructions, in order and stripped of `\n+`, one per raw token |
| `Blocks.BlockBytesLength` | maldefender/cfg_builder.py:37-44 | there is one byte token per raw token of the block's instructions |
| `Blocks.BlockBytesStripped` | maldefender/cfg_builder.py:48-49 | every token of a block is already stripped |
| `Blocks.IndexOf` | maldefender/cfg_builder.py:17-22 | a word's index in its alphabet is the last place where it sits there (the index tables map each word to its position) |
| `Blocks.HistogramSnoc` | maldefender/cfg_builder.py:50-51 | one more token raises the count of its own word by one, and only when it is in the alphabet |
| `Blocks.HistogramSum` | maldefender/cfg_builder.py:46-53 | the counts add up to the number of tokens that are words of the alphabet |
| `Blocks.Get1gramFeatures` | maldefender/cfg_builder.py:46-53 | for each 1-gram, how many of the block's byte tokens equal it |
| `Blocks.OneGramStep` | maldefender/cfg_builder.py:48-51 | one token of the 1-gram loop, stripped again, is counted as the histogram of one more token |
| `Blocks.Tally` | maldefender/cfg_builder.py:50-51 | `features[idx[w]] += 1` is the histogram of one more token |
| `Blocks.Windows` | maldefender/cfg_builder.py:62-71 | there are `max(0, n - 3)` windows of four consecutive tokens |
| `Blocks.WindowsAt` | maldefender/cfg_builder.py:57 | window `j` is the four tokens from `j` joined |
| `Blocks.WindowsPrefix` | maldefender/cfg_builder.py:62-71 | one more byte adds exactly the window ending at it |
| `Blocks.Get4gramFeatures` | maldefender/cfg_builder.py:55-73 | for each 4-gram, how many windows of four consecutive byte tokens spell it |
| `Blocks.Push4` | maldefender/cfg_builder.py:63-68 | one byte of the sliding-window loop: a full window is counted and shifted, then the byte joins it |
| `Blocks.Flush4` | maldefender/cfg_builder.py:70-71 | after the loop, the last window is counted when it is full |
| `Blocks.Check4Gram` | maldefender/cfg_builder.py:56-59 | `check4Gram` counts the joined window when it spells a 4-gram |
| `Blocks.OneGramBound` | maldefender/cfg_builder.py:46-53 | three counts whose sum is at most the number of byte tokens |
| `Blocks.FourGramBound` | maldefender/cfg_builder.py:55-73 | ten counts whose sum is at most `max(0, n - 3)` for `n` byte tokens |
| `CfgBuilder.ControlFlowGraphBuilder.constructor` | maldefender/cfg_builder.py:104-119 | bounds are -1 and every dictionary is empty |
| `CfgBuilder.ControlFlowGraphBuilder.AppendRawBytes` | maldefender/cfg_builder.py:160-165 | raises exactly when the address is not hexadecimal; otherwise appends the byte at the parsed address |
| `CfgBuilder.ControlFlowGraphBuilder.IndexOfInst` | maldefender/cfg_builder.py:167-174 | returns the leading byte-token count and appends exactly those tokens, in order, to the address's list; raises only when there is one and the address is not hexadecimal |
| `CfgBuilder.ControlFlowGraphBuilder.ScanTextLine` | maldefender/cfg_builder.py:190-215 | one line: raises exactly as `Listing.LineRaises` says; otherwise the new `text` and `addr2Bytes` are those of `Listing.ScanLine` |
| `CfgBuilder.ControlFlowGraphBuilder.ExtractTextSeg` | maldefender/cfg_builder.py:183-217 | raises exactly when some line does; otherwise `text` and `addr2Bytes` are what `Listing.ScanLines` gives for lines numbered from 1 |
| `CfgBuilder.ControlFlowGraphBuilder.AppendRawString` | maldefender/cfg_builder.py:226-231 | the lines are appended, in order, to the address's list |
| `CfgBuilder.ControlFlowGraphBuilder.Aggregate` | maldefender/cfg_builder.py:233-301 | raises exactly when the address is not hexadecimal; otherwise files the raw lines and stores `Listing.AggregateLine` of the group |
| `CfgBuilder.ControlFlowGraphBuilder.TakeEntry` | maldefender/cfg_builder.py:309-320 | one loop iteration of `createProgram` is one `Listing.CreateStep`, and the fields are the runs aggregated so far |
| `CfgBuilder.ControlFlowGraphBuilder.ProgramLine` | maldefender/cfg_builder.py:308-320 | one loop iteration on the text line at position `j`, raising only when `createProgram` raises |
| `CfgBuilder.ControlFlowGraphBuilder.FinishRuns` | maldefender/cfg_builder.py:322-323 | the buffered run is aggregated when it holds lines |
| `CfgBuilder.ControlFlowGraphBuilder.CreateProgram` | maldefender/cfg_builder.py:303-326 | raises exactly when `Listing.CreateRuns` fails; otherwise `program` and `addr2RawStr` are the runs of `Listing.CreateRuns` aggregated in order |
| `CfgBuilder.ControlFlowGraphBuilder.IndexLine` | maldefender/cfg_builder.py:333-345 | one loop iteration of `buildInsts` is one `Index.IndexStep`, or nothing when the decoder rejects the line |
| `CfgBuilder.ControlFlowGraphBuilder.BuildInsts` | maldefender/cfg_builder.py:328-354 | `addr2Inst`, `programStart` and `programEnd` are `Index.IndexAll` over the decoded program lines, followed by the final size of 2 |
| `CfgBuilder.ControlFlowGraphBuilder.AddAuxilaryInst` | maldefender/cfg_builder.py:372-376 | `addr2InstAux` becomes `Visitor.AddAux` of the old one |
| `CfgBuilder.ControlFlowGraphBuilder.Enter` | maldefender/cfg_builder.py:378-395 | the two maps become `Visitor.Enter` of the old ones; the index keeps its keys |
| `CfgBuilder.ControlFlowGraphBuilder.Branch` | maldefender/cfg_builder.py:397-403 | the two maps become `Visitor.Branch` of the old ones |
| `CfgBuilder.ControlFlowGraphBuilder.Call` | maldefender/cfg_builder.py:405-416 | the two maps become `Visitor.Call` of the old ones |
| `CfgBuilder.ControlFlowGraphBuilder.Jump` | maldefender/cfg_builder.py:418-425 | the two maps become `Visitor.Jump` of the old ones |
| `CfgBuilder.ControlFlowGraphBuilder.End` | maldefender/cfg_builder.py:427-432 | the two maps become `Visitor.End` of the old ones |
| `CfgBuilder.ControlFlowGraphBuilder.Accept` | maldefender/cfg_builder.py:434-447 | dispatch on the category is `Visitor.Accept` |
| `CfgBuilder.ControlFlowGraphBuilder.VisitInst` | maldefender/cfg_builder.py:359-368 | one loop iteration of `visitInsts` is one `Visitor.VisitStep` |
| `CfgBuilder.ControlFlowGraphBuilder.AttachListing` | maldefender/cfg_builder.py:360-368 | the visited instruction takes its bytes and raw strings when they are filed |
| `CfgBuilder.ControlFlowGraphBuilder.VisitEach` | maldefender/cfg_builder.py:358-368 | the loop is `Visitor.VisitAll` over the index's keys, in order |
| `CfgBuilder.ControlFlowGraphBuilder.MergeAux` | maldefender/cfg_builder.py:370 | `addr2Inst` becomes `Visitor.Merge` |
| `CfgBuilder.ControlFlowGraphBuilder.VisitInsts` | maldefender/cfg_builder.py:356-370 | `addr2InstAux` is the auxiliary map `Visitor.VisitAll` leaves and `addr2Inst` is `Visitor.Merge` of it, the state `Visitor.VisitResolvesTargets` and `Visitor.MergeKeyed` are about |
| `CfgBuilder.ControlFlowGraphBuilder.GetBlockAtAddr` | maldefender/cfg_builder.py:449-457 | `addr2Block` becomes `Assembly.GetBlockAt` and the block returned is the one at `addr` |
| `CfgBuilder.ControlFlowGraphBuilder.PickBlock` | maldefender/cfg_builder.py:467-468 | the current block as `Assembly.SelectBlock` chooses it |
| `CfgBuilder.ControlFlowGraphBuilder.FallThrough` | maldefender/cfg_builder.py:469-475 | the fall-through edge and the next block as `Assembly.FallEdge` gives them |
| `CfgBuilder.ControlFlowGraphBuilder.BranchOut` | maldefender/cfg_builder.py:479-490 | the branch and return edges as `Assembly.BranchEdges` gives them |
| `CfgBuilder.ControlFlowGraphBuilder.ConnectInst` | maldefender/cfg_builder.py:466-495 | one loop iteration of `connectBlocks` is one `Assembly.ConnectStep` |
| `CfgBuilder.ControlFlowGraphBuilder.ConnectBlocks` | maldefender/cfg_builder.py:459-495 | `addr2Block` is `Assembly.ConnectFold` over the sorted addresses, the result `Assembly.ConnectBlocksSound` is about |
| `CfgBuilder.SortedKeysIn` | maldefender/cfg_builder.py:466 | every sorted address is an address of the index |
| `CfgBuilder.BlockPassSound` | maldefender/cfg_builder.py:126-141 | `buildInsts`, `visitInsts` and `connectBlocks` in sequence: the merged index is well formed, keyed and has every target at a block start, and the blocks partition it with the pass invariant, none empty |
| `CfgBuilder.BlockPassVisit` | maldefender/cfg_builder.py:138-141 | `parseBlocks` over a well-formed, keyed index without targets: the same conclusion from `visitInsts` on |
| `CfgBuilder.ConnectMerged` | maldefender/cfg_builder.py:459-495 | `connectBlocks` over the sorted addresses of a keyed index whose targets start blocks: every block non-empty and the pass invariant holds |
| `CfgBuilder.AnyRaisesExtends` | maldefender/cfg_builder.py:189-215 | a line that raises among the first `n` makes the whole scan raise |

## Left out

- **I/O and logging.**
  - Reading and closing the `.asm` file, `line.split()` on bytes and the UTF-8 decoding are left out. `ExtractTextSeg` takes the lines already split into tokens.
  - All `log` calls are left out, and so is `addCodeSegLog` (line 351), which only logs.
- **External code.**
  - The decoder `instBuilder.createInst` is given as its table from line text to instruction.
  - `findAddrInInst` is the instruction field `target`.
  - `accept` dispatches on the datatype `Category`.
  - The `instructions` module that supplies these is not part of this model.
- **`dp_utils`.** `FakeCalleeAddr` and `InvalidAddr` come from `dp_utils`, which is not part of this model. They are -2 and -3 here, and the proofs use only that they differ from each other, from -1 and from 0..255.
- **Auxiliary instructions.** The defaults of `isn.Instruction(addr, operand=...)` are not visible. An auxiliary instruction has no bytes, no target, is not a call, and has the builder-wide constant size `auxSize`.
- **Orchestration.** `getControlFlowGraph`, `buildControlFlowGraph`, `parseInstructions`, `parseBlocks` and `instBuilder.seenInst` are left out; they only call the passes in order.
- **Output and features that need other modules.**
  - `exportToNxGraph`, `drawCfg`, `printCfg`, `saveProgram`, `saveText` and `clearTmpFiles` write to networkx, matplotlib or the file system.
  - `Block.getAttributes`, `getAttributesDim` and `AcfgBuilder` build numpy float vectors from feature functions of the `instructions` module.
- **Objects and aliasing.** Instruction and block objects are values in their address-keyed maps. Object identity is not modelled beyond the proved fact that each value sits under its own address.
- **`is "NotInCodeSeg"`** is modelled as string equality. A label whose suffix is itself the text `NotInCodeSeg` would pass CPython's identity test but is dropped here.
- **Regular expressions** are explicit predicates: `IsByteToken` for the byte pattern, `PtrPattern` for `.+=.+ ptr .+` anchored at the start, and `Listing.HeaderLine`. There is no regex engine.
- **`Strings.ParseHex`:** accepts only hexadecimal digits. Python's `int(s, 16)` also accepts a sign, a `0x` prefix and underscores between digits. Such address texts make the model raise where Python would not.
- **Exceptions.** A raising `int(addrStr, 16)` is the result `ok == false`. `CfgBuilder.ControlFlowGraphBuilder.AppendRawBytes`, `IndexOfInst`, `ScanTextLine`, `ExtractTextSeg`, `Aggregate` and `CreateProgram` describe the fields only when nothing raised. These member names are qualified by `CfgBuilder.ControlFlowGraphBuilder`.
- **`Index.BuildInstsSizes`:** stated from a fresh builder, for decoded instructions at distinct, non-negative addresses. A decoder that returns one address twice makes the Python overwrite the entry, a case this lemma does not describe.
- **`Index.IndexStart` and `Index.IndexEnd`:** stated for non-negative decoded addresses. A negative address could be taken for the initial `-1`.
- **`Visitor.VisitResolvesTargets`:** stated for an index in which the decoder recorded no `branchTo` and an empty auxiliary map, which is how `visitInsts` finds them after `buildInsts`.
- **`Assembly.ConnectBlocksSound`:** stated for blocks built from an empty block map, over an index whose instructions sit at their own addresses. `CfgBuilder.BlockPassSound` proves that this is the state `connectBlocks` starts from after `buildInsts` and `visitInsts`.
- **`CfgBuilder.BlockPassSound`:** stated for a decoder that records no `branchTo` on the instructions it returns, as `Visitor.VisitResolvesTargets` requires.
