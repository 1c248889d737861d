/**
 * Listing normalisation: from the whitespace-split lines of a disassembly
 * listing to one logical instruction text per address.
 *
 * Everything here is the pure part of `ControlFlowGraphBuilder`
 * (maldefender/cfg_builder.py): the per-line token rules, the aggregation
 * rules for lines that share an address, and the grouping of consecutive
 * lines into runs. The builder class applies them to its dictionaries.
 */
module Listing {
  import opened Wrappers
  import opened Strings
  import opened OrderedMaps

  // ---------------------------------------------------------------------
  // Segment labels

  /** Segment prefixes whose lines are kept (the list repeats ".idata:"). */
  const SegNames: seq<string> := [
    ".text:", "CODE:", "UPX1:", "seg000:", "qmoyiu:",
    ".UfPOkc:", ".brick:", ".icode:", "seg001:",
    ".Much:", "iuagwws:", ".idata:", ".edata:",
    ".IqR:", ".data:", ".bss:", ".idata:", ".rsrc:",
    ".tls:", ".reloc:", ".unpack:", "_1:", ".Upack:", ".mF:"]

  const NotInCodeSeg: string := "NotInCodeSeg"

  predicate ColonEnded(p: string) {
    |p| > 0 && p[|p| - 1] == ':'
  }

  lemma {:induction false} SegNameColonEnded(i: int)
    requires 0 <= i < |SegNames|
    ensures ColonEnded(SegNames[i])
  {
    assert forall p :: p in SegNames ==> ColonEnded(p);
    assert SegNames[i] in SegNames;
  }

  predicate InCodeSegment(seg: string) {
    exists i | 0 <= i < |SegNames| :: StartsWith(seg, SegNames[i])
  }

  /** `addrInCodeSegment`: the address text of a kept segment label. */
  function AddrInCodeSegment(seg: string): string {
    if InCodeSegment(seg) then
      var colonIdx := RFind(seg, ':');
      if colonIdx != -1 then seg[colonIdx + 1..]
      else seg[|seg| - (if |seg| < 8 then |seg| else 8)..]
    else NotInCodeSeg
  }

  /**
   * A label outside the known segments yields the marker; a label inside
   * one yields exactly the text after its last ':' (every prefix ends in
   * ':', so the "last eight characters" fallback is never taken).
   */
  lemma {:induction false} AddrInCodeSegmentSuffix(seg: string)
    ensures !InCodeSegment(seg) ==> AddrInCodeSegment(seg) == NotInCodeSeg
    ensures InCodeSegment(seg) ==>
      var r := AddrInCodeSegment(seg);
      |r| < |seg| && seg[|seg| - |r| - 1] == ':' && r == seg[|seg| - |r|..] && ':' !in r
  {
    if InCodeSegment(seg) {
      var k := SegmentColon(seg);
      AfterLastColon(seg, k);
    }
  }

  /** A label inside a kept segment has a ':' where the segment prefix ends. */
  lemma {:induction false} SegmentColon(seg: string) returns (k: nat)
    requires InCodeSegment(seg)
    ensures k < |seg| && seg[k] == ':'
  {
    var i :| 0 <= i < |SegNames| && StartsWith(seg, SegNames[i]);
    SegNameColonEnded(i);
    PrefixColon(seg, SegNames[i]);
    k := |SegNames[i]| - 1;
  }

  lemma {:induction false} PrefixColon(seg: string, p: string)
    requires StartsWith(seg, p) && ColonEnded(p)
    ensures seg[|p| - 1] == ':'
  {
    assert seg[..|p|][|p| - 1] == seg[|p| - 1];
  }

  /** Past a ':' at `k`, the text after the last ':' is a proper suffix without one. */
  lemma {:induction false} AfterLastColon(seg: string, k: nat)
    requires k < |seg| && seg[k] == ':'
    ensures var c := RFind(seg, ':');
      0 <= c && var r := seg[c + 1..];
      |r| < |seg| && seg[|seg| - |r| - 1] == ':' && r == seg[|seg| - |r|..] && ':' !in r
  {
    var c := RFind(seg, ':');
    assert c >= k;
    var r := seg[c + 1..];
    assert |seg| - |r| - 1 == c;
    forall j | 0 <= j < |r| ensures r[j] != ':' {
      assert r[j] == seg[c + 1 + j];
    }
  }

  // ---------------------------------------------------------------------
  // Tokens of one line

  predicate IsByteChar(c: char) {
    '0' <= c <= '9' || 'A' <= c <= 'F' || c == '?'
  }

  /** The raw-byte pattern `^[A-F0-9?][A-F0-9?]\+?$`. */
  predicate IsByteToken(t: string) {
    (|t| == 2 || (|t| == 3 && t[2] == '+')) && IsByteChar(t[0]) && IsByteChar(t[1])
  }

  /** What `indexOfInst` returns: the length of the leading run of byte tokens. */
  function LeadingBytes(elems: seq<string>): (r: nat)
    ensures r <= |elems|
    ensures forall i :: 0 <= i < r ==> IsByteToken(elems[i])
    ensures r < |elems| ==> !IsByteToken(elems[r])
    decreases |elems|
  {
    if elems != [] && IsByteToken(elems[0]) then 1 + LeadingBytes(elems[1..]) else 0
  }

  /** `indexOfComment`: the first token holding ';', or the token count. */
  function IndexOfComment(elems: seq<string>): (r: nat)
    ensures r <= |elems|
    ensures forall i :: 0 <= i < r ==> !Contains(elems[i], ";")
    ensures r < |elems| ==> Contains(elems[r], ";")
    decreases |elems|
  {
    if elems != [] && !Contains(elems[0], ";") then 1 + IndexOfComment(elems[1..]) else 0
  }

  /** The list stored at `k`, or the empty list where the key is missing. */
  function Get(m: map<int, seq<string>>, k: int): seq<string> {
    if k in m then m[k] else []
  }

  /**
   * Appending `xs` one by one to the list at `k`, creating the list on the
   * first append (`appendRawBytes` repeated, `appendRawString`).
   */
  function Extend(m: map<int, seq<string>>, k: int, xs: seq<string>): (r: map<int, seq<string>>)
    ensures Get(r, k) == Get(m, k) + xs
    ensures forall j :: j != k ==> Get(r, j) == Get(m, j)
    ensures forall j :: j in r <==> j in m || (j == k && xs != [])
  {
    if xs == [] then m else m[k := Get(m, k) + xs]
  }

  /** Appending in two steps is appending once. */
  lemma {:induction false} ExtendTwice(m: map<int, seq<string>>, k: int, xs: seq<string>, ys: seq<string>)
    ensures Extend(Extend(m, k, xs), k, ys) == Extend(m, k, xs + ys)
  {
    var l := Extend(Extend(m, k, xs), k, ys);
    var r := Extend(m, k, xs + ys);
    assert forall j :: j in l <==> j in r;
    forall j | j in l ensures l[j] == r[j] {
      assert l[j] == Get(l, j) && r[j] == Get(r, j);
    }
  }

  /** The list at `n` after appending `xs` at `k`. */
  lemma {:induction false} ExtendAt(m: map<int, seq<string>>, k: int, xs: seq<string>, n: int)
    ensures Get(Extend(m, k, xs), n) == Get(m, n) + if k == n then xs else []
  {
    if k != n {
      assert Get(m, n) + [] == Get(m, n);
    }
  }

  /**
   * The body of the line loop of `extractTextSeg` raises inside
   * `appendRawBytes` exactly when a kept line has leading byte tokens but
   * its address text is not hexadecimal.
   */
  predicate LineRaises(tokens: seq<string>) {
    |tokens| > 0 && AddrInCodeSegment(tokens[0]) != NotInCodeSeg
    && ParseHex(AddrInCodeSegment(tokens[0])).None? && LeadingBytes(tokens[1..]) > 0
  }

  /** The byte tokens a line files under its address. */
  function AddLineBytes(m: map<int, seq<string>>, tokens: seq<string>): map<int, seq<string>> {
    if |tokens| == 0 then m
    else
      var addr := AddrInCodeSegment(tokens[0]);
      if addr == NotInCodeSeg || ParseHex(addr).None? then m
      else Extend(m, ParseHex(addr).value, tokens[1..][..LeadingBytes(tokens[1..])])
  }

  /**
   * The text a line contributes: its address followed by the tokens
   * between the raw bytes and the comment, space-joined; `None` for empty
   * lines, lines outside the code segments and lines without such tokens.
   */
  function LineText(tokens: seq<string>): Option<string> {
    if |tokens| == 0 then None
    else
      var addr := AddrInCodeSegment(tokens[0]);
      if addr == NotInCodeSeg then None
      else
        var elems := tokens[1..];
        var s, e := LeadingBytes(elems), IndexOfComment(elems);
        if s < e then Some(JoinSpace([addr] + elems[s..e])) else None
  }

  /** What `createProgram` reads back from one text line: address and instruction. */
  function Entry(line: string): (string, string) {
    var elems := SplitSpace(line);
    (elems[0], JoinSpace(elems[1..]))
  }

  /**
   * The text stored for a line splits back into the address and exactly
   * the instruction tokens: none of them is a leading byte token or part of
   * the comment, and the tokens come out unchanged. Tokens of `line.split()`
   * never hold a space.
   */
  lemma {:induction false} LineTextEntry(tokens: seq<string>)
    requires forall i :: 0 <= i < |tokens| ==> ' ' !in tokens[i]
    requires LineText(tokens).Some?
    ensures var elems := tokens[1..];
      var s, e := LeadingBytes(elems), IndexOfComment(elems);
      && SplitSpace(LineText(tokens).value) == [AddrInCodeSegment(tokens[0])] + elems[s..e]
      && Entry(LineText(tokens).value) == (AddrInCodeSegment(tokens[0]), JoinSpace(elems[s..e]))
      && 0 < e - s
      && !IsByteToken(elems[s])
      && (forall i :: s <= i < e ==> !Contains(elems[i], ";"))
  {
    var elems := tokens[1..];
    var addr := AddrInCodeSegment(tokens[0]);
    var s, e := LeadingBytes(elems), IndexOfComment(elems);
    var words := [addr] + elems[s..e];
    NoSpaceAddr(tokens[0]);
    WordsNoSpace(addr, tokens, s, e);
    SplitJoin(words);
    assert words[1..] == elems[s..e];
  }

  /** The address of a kept label holds no space when the label holds none. */
  lemma {:induction false} NoSpaceAddr(seg: string)
    requires ' ' !in seg && AddrInCodeSegment(seg) != NotInCodeSeg
    ensures ' ' !in AddrInCodeSegment(seg)
  {
    var addr := AddrInCodeSegment(seg);
    AddrInCodeSegmentSuffix(seg);
    forall k | 0 <= k < |addr| ensures addr[k] != ' ' {
      assert addr[k] == seg[|seg| - |addr| + k];
    }
  }

  /** The address and a slice of the tokens after the first hold no space when none of them does. */
  lemma {:induction false} WordsNoSpace(addr: string, tokens: seq<string>, s: nat, e: nat)
    requires ' ' !in addr && s <= e <= |tokens| - 1
    requires forall i :: 0 <= i < |tokens| ==> ' ' !in tokens[i]
    ensures forall i :: 0 <= i < |[addr] + tokens[1..][s..e]| ==> ' ' !in ([addr] + tokens[1..][s..e])[i]
  {
    var words := [addr] + tokens[1..][s..e];
    forall i | 0 <= i < |words| ensures ' ' !in words[i] {
      if i > 0 {
        assert words[i] == tokens[1 + s + i - 1];
      }
    }
  }

  /** The builder's state that `extractTextSeg` changes: the text lines by number, and the byte tokens. */
  datatype TextState = TextState(text: OrdMap<int, string>, bytes: map<int, seq<string>>)

  /** The line numbered `num`, when it does not raise. */
  function ScanLine(ts: TextState, tokens: seq<string>, num: int): TextState {
    TextState(PutOpt(ts.text, num, LineText(tokens)), AddLineBytes(ts.bytes, tokens))
  }

  /**
   * `extractTextSeg` over the lines numbered `first`, `first + 1`, ...:
   * `None` when some line raises.
   */
  function ScanLines(ts: TextState, lines: seq<seq<string>>, first: int): Option<TextState>
    decreases |lines|
  {
    if lines == [] then Some(ts)
    else
      match ScanLines(ts, lines[..|lines| - 1], first)
      case None => None
      case Some(t) =>
        var last := lines[|lines| - 1];
        if LineRaises(last) then None else Some(ScanLine(t, last, first + |lines| - 1))
  }

  /** Some line raises. */
  predicate AnyRaises(lines: seq<seq<string>>)
    decreases |lines|
  {
    lines != [] && (AnyRaises(lines[..|lines| - 1]) || LineRaises(lines[|lines| - 1]))
  }

  /** The scan raises exactly when some line does. */
  lemma {:induction false} ScanLinesRaises(ts: TextState, lines: seq<seq<string>>, first: int)
    ensures ScanLines(ts, lines, first).None? <==> AnyRaises(lines)
    decreases |lines|
  {
    if lines != [] {
      ScanLinesRaises(ts, lines[..|lines| - 1], first);
    }
  }

  /** `v` stored at `num` when there is one. */
  function PutOpt(m: OrdMap<int, string>, num: int, v: Option<string>): OrdMap<int, string> {
    if v.Some? then m.Put(num, v.value) else m
  }

  /** The text of each line, when it has one. */
  function LineTexts(lines: seq<seq<string>>): (r: seq<Option<string>>)
    ensures |r| == |lines|
  {
    seq(|lines|, i requires 0 <= i < |lines| => LineText(lines[i]))
  }

  /**
   * `after` is `before` with `vs[n]` stored at `first + n` wherever there
   * is one: the keys are the old ones and those of the values, and what
   * was there is kept.
   */
  ghost predicate Stored(before: OrdMap<int, string>, after: OrdMap<int, string>, vs: seq<Option<string>>, first: int) {
    && (forall k :: k in after.m <==> k in before.m || (first <= k < first + |vs| && vs[k - first].Some?))
    && (forall k :: k in before.m ==> after.m[k] == before.m[k])
    && (forall n :: 0 <= n < |vs| && vs[n].Some? ==> after.m[first + n] == vs[n].value)
  }

  /** Each of `vs` stored in turn, `vs[n]` at `first + n`. */
  function PutAll(m: OrdMap<int, string>, vs: seq<Option<string>>, first: int): OrdMap<int, string>
    decreases |vs|
  {
    if vs == [] then m else PutOpt(PutAll(m, vs[..|vs| - 1], first), first + |vs| - 1, vs[|vs| - 1])
  }

  lemma {:induction false} StoredPut(before: OrdMap<int, string>, t: OrdMap<int, string>, vs: seq<Option<string>>, v: Option<string>, first: int)
    requires forall k :: k in before.m ==> k < first
    requires Stored(before, t, vs, first)
    ensures Stored(before, PutOpt(t, first + |vs|, v), vs + [v], first)
  {
    var num := first + |vs|;
    var r := PutOpt(t, num, v);
    var ws := vs + [v];
    forall k
      ensures k in r.m <==> k in before.m || (first <= k < first + |ws| && ws[k - first].Some?)
    {
      if first <= k < num {
        assert ws[k - first] == vs[k - first];
      }
    }
    forall n | 0 <= n < |ws| && ws[n].Some?
      ensures r.m[first + n] == ws[n].value
    {
      if n < |vs| {
        assert ws[n] == vs[n];
      }
    }
  }

  /**
   * Storing the values of lines numbered from `first` into a text holding
   * only lines below `first` keeps what was there and stores each value.
   */
  lemma {:induction false} PutAllStored(before: OrdMap<int, string>, vs: seq<Option<string>>, first: int)
    requires forall k :: k in before.m ==> k < first
    ensures Stored(before, PutAll(before, vs, first), vs, first)
    decreases |vs|
  {
    if vs != [] {
      var init := vs[..|vs| - 1];
      PutAllStored(before, init, first);
      StoredPut(before, PutAll(before, init, first), init, vs[|vs| - 1], first);
      assert init + [vs[|vs| - 1]] == vs;
    }
  }

  /** The text after a scan that does not raise is the text after its last line. */
  lemma {:induction false} ScanLinesLast(ts: TextState, lines: seq<seq<string>>, first: int)
    requires lines != [] && ScanLines(ts, lines, first).Some?
    ensures ScanLines(ts, lines[..|lines| - 1], first).Some?
    ensures ScanLines(ts, lines, first).value.text
      == PutOpt(ScanLines(ts, lines[..|lines| - 1], first).value.text, first + |lines| - 1, LineText(lines[|lines| - 1]))
  {
  }

  lemma {:induction false} LineTextsSnoc(lines: seq<seq<string>>)
    requires lines != []
    ensures LineTexts(lines) == LineTexts(lines[..|lines| - 1]) + [LineText(lines[|lines| - 1])]
  {
  }

  lemma {:induction false} PutAllSnoc(m: OrdMap<int, string>, vs: seq<Option<string>>, v: Option<string>, first: int)
    ensures PutAll(m, vs + [v], first) == PutOpt(PutAll(m, vs, first), first + |vs|, v)
  {
    assert (vs + [v])[..|vs|] == vs;
  }

  /** A scan that does not raise stores the text of each line in turn. */
  lemma {:induction false} ScanLinesPutAll(ts: TextState, lines: seq<seq<string>>, first: int)
    ensures ScanLines(ts, lines, first).Some? ==> ScanLines(ts, lines, first).value.text == PutAll(ts.text, LineTexts(lines), first)
    decreases |lines|
  {
    if lines != [] && ScanLines(ts, lines, first).Some? {
      var init := lines[..|lines| - 1];
      ScanLinesLast(ts, lines, first);
      ScanLinesPutAll(ts, init, first);
      LineTextsSnoc(lines);
      PutAllSnoc(ts.text, LineTexts(init), LineText(lines[|lines| - 1]), first);
    }
  }

  /**
   * With the text holding only lines numbered below `first`, a scan that
   * does not raise stores the text of line `first + n` exactly when that
   * line has one, and keeps what was there.
   */
  lemma {:induction false} ScanLinesText(ts: TextState, lines: seq<seq<string>>, first: int)
    requires forall k :: k in ts.text.m ==> k < first
    ensures ScanLines(ts, lines, first).Some? ==> Stored(ts.text, ScanLines(ts, lines, first).value.text, LineTexts(lines), first)
  {
    ScanLinesPutAll(ts, lines, first);
    PutAllStored(ts.text, LineTexts(lines), first);
  }

  // ---------------------------------------------------------------------
  // Aggregating the lines of one address

  predicate HeaderLine(line: string) {
    StartsWith(line, "_text segment") || Contains(line, ".mmx")
  }

  /** `isHeaderInfo`: some line is a segment header. */
  predicate IsHeaderInfo(lines: seq<string>)
    decreases |lines|
  {
    lines != [] && (IsHeaderInfo(lines[..|lines| - 1]) || HeaderLine(lines[|lines| - 1]))
  }

  predicate NoNewline(s: string) {
    forall i :: 0 <= i < |s| ==> s[i] != '\n'
  }

  /** `.+ ptr .+` matched at the start of `t`, the " ptr " at index `j`. */
  predicate PtrAt(t: string, j: int) {
    1 <= j && j + 5 < |t| && t[j..j + 5] == " ptr " && NoNewline(t[..j]) && t[j + 5] != '\n'
  }

  /** `.+ ptr .+` matched at the start of `t`. */
  predicate PtrTail(t: string) {
    exists j | 1 <= j < |t| :: PtrAt(t, j)
  }

  /** `.+=` followed by `.+ ptr .+`, the '=' at index `i`. */
  predicate EqualsAt(s: string, i: int) {
    1 <= i < |s| && s[i] == '=' && NoNewline(s[..i]) && PtrTail(s[i + 1..])
  }

  /** `re.match(r'.+=.+ ptr .+', s)` (anchored at the start only). */
  predicate PtrPattern(s: string) {
    exists i | 1 <= i < |s| :: EqualsAt(s, i)
  }

  predicate Directive(line: string, d: string) {
    StartsWith(line, d + " ") || Contains(line, " " + d + " ")
  }

  /** How one line of a same-address group is treated (first rule wins). */
  datatype LineKind = Marker | DataDecl | Label | Candidate

  function Classify(line: string): LineKind {
    if Contains(line, "proc near") || Contains(line, "proc far") then Marker
    else if Contains(line, "public") then Marker
    else if Contains(line, "assume") then Marker
    else if Contains(line, "endp") || Contains(line, "ends") then Marker
    else if Contains(line, " = ") || PtrPattern(line) then DataDecl
    else if Directive(line, "dw") || Directive(line, "dd") || Directive(line, "db")
      || Directive(line, "dt") || StartsWith(line, "unicode ") then DataDecl
    else if EndsWith(line, ":") then Label
    else Candidate
  }

  /** The candidate lines (`validInst`), in order. */
  function ValidLines(lines: seq<string>): seq<string>
    decreases |lines|
  {
    if lines == [] then []
    else
      var init := ValidLines(lines[..|lines| - 1]);
      var l := lines[|lines| - 1];
      if Classify(l) == Candidate then init + [l] else init
  }

  /** The data-declaration lines, in order. */
  function DataLines(lines: seq<string>): seq<string>
    decreases |lines|
  {
    if lines == [] then []
    else
      var init := DataLines(lines[..|lines| - 1]);
      var l := lines[|lines| - 1];
      if Classify(l) == DataDecl then init + [l] else init
  }

  /** `foundDataDeclare`: each data line followed by a space. */
  function DataFragment(lines: seq<string>): string
    decreases |lines|
  {
    if lines == [] then ""
    else
      var init := DataFragment(lines[..|lines| - 1]);
      var l := lines[|lines| - 1];
      if Classify(l) == DataDecl then init + l + " " else init
  }

  /** The fallback concatenation: each line stripped of "\n\\" and followed by a space. */
  function Concatenated(lines: seq<string>): string
    decreases |lines|
  {
    if lines == [] then ""
    else Concatenated(lines[..|lines| - 1]) + RStrip(lines[|lines| - 1], {'\n', '\\'}) + " "
  }

  /** The logical instruction text `aggregate` stores for one group of lines. */
  function AggregateLine(lines: seq<string>): string {
    if IsHeaderInfo(lines) then lines[|lines| - 1]
    else
      var v := ValidLines(lines);
      var d := DataFragment(lines);
      if |v| == 1 then RStrip(v[0] + " " + d, {' '})
      else if |RStrip(d, {' '})| > 0 then RStrip(d, {' '})
      else RStrip(Concatenated(v), {' '})
  }

  lemma {:induction false} JoinSpaceSnoc(xs: seq<string>, x: string)
    requires |xs| >= 1
    ensures JoinSpace(xs + [x]) == JoinSpace(xs) + " " + x
    decreases |xs|
  {
    if |xs| > 1 {
      assert (xs + [x])[1..] == xs[1..] + [x];
      JoinSpaceSnoc(xs[1..], x);
    }
  }

  /** A character of one of the words occurs in their space-joined text. */
  lemma {:induction false} JoinSpaceHas(xs: seq<string>, i: nat, k: nat)
    requires i < |xs| && k < |xs[i]|
    ensures xs[i][k] in JoinSpace(xs)
    decreases |xs|
  {
    if |xs| > 1 {
      if i == 0 {
        assert JoinSpace(xs)[k] == xs[0][k];
      } else {
        JoinSpaceHas(xs[1..], i - 1, k);
        assert xs[1..][i - 1] == xs[i];
        SpacedHas(xs[0], JoinSpace(xs[1..]), xs[i][k]);
      }
    }
  }

  /** A character of the second part occurs in the two parts joined by a space. */
  lemma {:induction false} SpacedHas(a: string, b: string, c: char)
    requires c in b
    ensures c in a + " " + b
  {
    var j :| 0 <= j < |b| && b[j] == c;
    assert (a + " " + b)[|a| + 1 + j] == c;
  }

  /** The data fragment is the data lines, space-joined, plus a trailing space. */
  lemma {:induction false} DataFragmentJoin(lines: seq<string>)
    ensures DataFragment(lines) == if DataLines(lines) == [] then "" else JoinSpace(DataLines(lines)) + " "
    decreases |lines|
  {
    if lines != [] {
      var init := lines[..|lines| - 1];
      DataFragmentJoin(init);
      if Classify(lines[|lines| - 1]) == DataDecl && DataLines(init) != [] {
        JoinSpaceSnoc(DataLines(init), lines[|lines| - 1]);
      }
    }
  }

  /** The fallback text is the stripped candidates, space-joined, plus a trailing space. */
  lemma {:induction false} ConcatenatedJoin(lines: seq<string>)
    ensures Concatenated(lines) ==
      if lines == [] then "" else JoinSpace(StrippedLines(lines)) + " "
    decreases |lines|
  {
    if |lines| > 1 {
      var init, last := lines[..|lines| - 1], RStrip(lines[|lines| - 1], {'\n', '\\'});
      ConcatenatedJoin(init);
      StrippedLinesSnoc(lines);
      JoinSpaceSnoc(StrippedLines(init), last);
      var j := JoinSpace(StrippedLines(init));
      assert Concatenated(lines) == (j + " ") + last + " ";
      assert JoinSpace(StrippedLines(lines)) + " " == (j + " " + last) + " ";
    } else if |lines| == 1 {
      assert lines[..0] == [];
    }
  }

  /** One more candidate line adds its stripped text at the end. */
  lemma {:induction false} StrippedLinesSnoc(lines: seq<string>)
    requires lines != []
    ensures StrippedLines(lines)
            == StrippedLines(lines[..|lines| - 1]) + [RStrip(lines[|lines| - 1], {'\n', '\\'})]
  {
    assert StrippedLines(lines)[..|lines| - 1] == StrippedLines(lines[..|lines| - 1]);
  }

  function StrippedLines(lines: seq<string>): (r: seq<string>)
    ensures |r| == |lines|
  {
    seq(|lines|, i requires 0 <= i < |lines| => RStrip(lines[i], {'\n', '\\'}))
  }

  lemma {:induction false} ContainsHas(s: string, sub: string, k: nat)
    requires Contains(s, sub) && k < |sub|
    ensures sub[k] in s
    decreases |s|
  {
    if StartsWith(s, sub) {
      assert s[k] == sub[k];
    } else {
      ContainsHas(s[1..], sub, k);
    }
  }

  /** Every data declaration line holds a character other than a space. */
  lemma {:induction false} DataLineNotBlank(line: string)
    requires Classify(line) == DataDecl
    ensures exists k :: 0 <= k < |line| && line[k] != ' '
  {
    if Contains(line, " = ") {
      ContainsHas(line, " = ", 1);
    } else if PtrPattern(line) {
      var i :| 1 <= i < |line| && EqualsAt(line, i);
    } else if StartsWith(line, "unicode ") {
      assert line[0] == 'u';
    } else if Directive(line, "dw") {
      DirectiveNotBlank(line, "dw");
    } else if Directive(line, "dd") {
      DirectiveNotBlank(line, "dd");
    } else if Directive(line, "db") {
      DirectiveNotBlank(line, "db");
    } else {
      DirectiveNotBlank(line, "dt");
    }
  }

  lemma {:induction false} DirectiveNotBlank(line: string, d: string)
    requires Directive(line, d) && |d| == 2 && d[0] != ' '
    ensures exists k :: 0 <= k < |line| && line[k] != ' '
  {
    if StartsWith(line, d + " ") {
      assert line[0] == d[0];
    } else {
      ContainsHas(line, " " + d + " ", 1);
    }
  }

  /** Each data line is one of the filtered ones. */
  lemma {:induction false} DataLinesAreData(lines: seq<string>)
    ensures forall i :: 0 <= i < |DataLines(lines)| ==> Classify(DataLines(lines)[i]) == DataDecl
    decreases |lines|
  {
    if lines != [] {
      DataLinesAreData(lines[..|lines| - 1]);
    }
  }

  /**
   * The aggregation rules, each stated against the space-joined lines:
   * a header anywhere keeps the LAST line verbatim; otherwise a single
   * candidate is followed by all data declarations; otherwise any data
   * declaration wins over the candidates; otherwise the stripped
   * candidates are joined.
   */
  lemma {:induction false} AggregateRules(lines: seq<string>)
    ensures IsHeaderInfo(lines) ==> AggregateLine(lines) == lines[|lines| - 1]
    ensures !IsHeaderInfo(lines) && |ValidLines(lines)| == 1 ==>
      AggregateLine(lines) == RStrip(ValidLines(lines)[0] + " " + JoinSpace(DataLines(lines)), {' '})
    ensures !IsHeaderInfo(lines) && |ValidLines(lines)| != 1 && DataLines(lines) != [] ==>
      AggregateLine(lines) == RStrip(JoinSpace(DataLines(lines)), {' '}) && AggregateLine(lines) != ""
    ensures !IsHeaderInfo(lines) && |ValidLines(lines)| != 1 && DataLines(lines) == [] ==>
      AggregateLine(lines) == RStrip(JoinSpace(StrippedLines(ValidLines(lines))), {' '})
  {
    var v, dl, d := ValidLines(lines), DataLines(lines), DataFragment(lines);
    if !IsHeaderInfo(lines) {
      DataFragmentJoin(lines);
      if |v| == 1 {
        SingleCandidateStrip(v[0], dl, d);
      } else {
        FragmentStrip(dl, d);
        if dl != [] {
          DataJoinKept(lines);
        } else {
          ConcatenatedStrip(v);
        }
      }
    }
  }

  /** The single candidate followed by the data fragment strips like the candidate and the joined data lines. */
  lemma {:induction false} SingleCandidateStrip(v0: string, dl: seq<string>, d: string)
    requires d == if dl == [] then "" else JoinSpace(dl) + " "
    ensures RStrip(v0 + " " + d, {' '}) == RStrip(v0 + " " + JoinSpace(dl), {' '})
  {
    if dl != [] {
      assert v0 + " " + d == (v0 + " " + JoinSpace(dl)) + " ";
      RStripAppend(v0 + " " + JoinSpace(dl), " ", {' '});
    } else {
      assert JoinSpace(dl) == "";
      assert v0 + " " + d == v0 + " " + JoinSpace(dl);
    }
  }

  /** The data fragment strips like the joined data lines. */
  lemma {:induction false} FragmentStrip(dl: seq<string>, d: string)
    requires d == if dl == [] then "" else JoinSpace(dl) + " "
    ensures RStrip(d, {' '}) == RStrip(JoinSpace(dl), {' '})
  {
    if dl != [] {
      RStripAppend(JoinSpace(dl), " ", {' '});
    } else {
      assert JoinSpace(dl) == "";
    }
  }

  /** Joined data lines never strip to nothing: each holds a character other than a space. */
  lemma {:induction false} DataJoinKept(lines: seq<string>)
    requires DataLines(lines) != []
    ensures |RStrip(JoinSpace(DataLines(lines)), {' '})| > 0
  {
    var dl := DataLines(lines);
    DataLinesAreData(lines);
    DataLineNotBlank(dl[0]);
    var k :| 0 <= k < |dl[0]| && dl[0][k] != ' ';
    JoinSpaceHas(dl, 0, k);
    var j :| 0 <= j < |JoinSpace(dl)| && JoinSpace(dl)[j] == dl[0][k];
    RStripKeeps(JoinSpace(dl), {' '}, j);
  }

  /** The concatenated candidates strip like the stripped candidates joined. */
  lemma {:induction false} ConcatenatedStrip(v: seq<string>)
    ensures RStrip(Concatenated(v), {' '}) == RStrip(JoinSpace(StrippedLines(v)), {' '})
  {
    ConcatenatedJoin(v);
    if v != [] {
      RStripAppend(JoinSpace(StrippedLines(v)), " ", {' '});
    }
  }

  lemma {:induction false} ValidLinesAppend(a: seq<string>, b: seq<string>)
    ensures ValidLines(a + b) == ValidLines(a) + ValidLines(b)
    decreases |b|
  {
    if b != [] {
      assert (a + b)[..|a + b| - 1] == a + b[..|b| - 1];
      ValidLinesAppend(a, b[..|b| - 1]);
    } else {
      assert a + b == a;
    }
  }

  lemma {:induction false} DataFragmentAppend(a: seq<string>, b: seq<string>)
    ensures DataFragment(a + b) == DataFragment(a) + DataFragment(b)
    decreases |b|
  {
    if b != [] {
      assert (a + b)[..|a + b| - 1] == a + b[..|b| - 1];
      DataFragmentAppend(a, b[..|b| - 1]);
    } else {
      assert a + b == a;
    }
  }

  /**
   * Procedure and segment markers, `public`/`assume` lines and labels
   * never contribute: removing one from a header-free group leaves the
   * aggregated text unchanged.
   */
  lemma {:induction false} SkippedLineIrrelevant(xs: seq<string>, m: string, ys: seq<string>)
    requires Classify(m) == Marker || Classify(m) == Label
    requires !IsHeaderInfo(xs + [m] + ys)
    ensures AggregateLine(xs + [m] + ys) == AggregateLine(xs + ys)
  {
    ValidLinesAppend(xs + [m], ys);
    ValidLinesAppend(xs, [m]);
    ValidLinesAppend(xs, ys);
    DataFragmentAppend(xs + [m], ys);
    DataFragmentAppend(xs, [m]);
    DataFragmentAppend(xs, ys);
    SkippedLineAlone(m);
    HeaderInfoWithout(xs, m, ys);
  }

  lemma {:induction false} SkippedLineAlone(m: string)
    requires Classify(m) == Marker || Classify(m) == Label
    ensures ValidLines([m]) == [] && DataFragment([m]) == ""
  {
    assert [m][..0] == [];
  }

  /** `isHeaderInfo` holds exactly when one of the lines is a header line. */
  lemma {:induction false} IsHeaderInfoAt(lines: seq<string>)
    ensures IsHeaderInfo(lines) <==> exists i :: 0 <= i < |lines| && HeaderLine(lines[i])
    decreases |lines|
  {
    if lines != [] {
      var init := lines[..|lines| - 1];
      IsHeaderInfoAt(init);
      if IsHeaderInfo(init) {
        var i :| 0 <= i < |init| && HeaderLine(init[i]);
        assert lines[i] == init[i];
      }
      if exists i :: 0 <= i < |lines| && HeaderLine(lines[i]) {
        var i :| 0 <= i < |lines| && HeaderLine(lines[i]);
        if i < |init| {
          assert init[i] == lines[i];
        }
      }
    }
  }

  lemma {:induction false} HeaderInfoWithout(xs: seq<string>, m: string, ys: seq<string>)
    requires !IsHeaderInfo(xs + [m] + ys)
    ensures !IsHeaderInfo(xs + ys)
  {
    IsHeaderInfoAt(xs + [m] + ys);
    IsHeaderInfoAt(xs + ys);
    forall i | 0 <= i < |xs + ys| ensures !HeaderLine((xs + ys)[i]) {
      if i < |xs| {
        assert (xs + [m] + ys)[i] == (xs + ys)[i];
      } else {
        assert (xs + [m] + ys)[i + 1] == (xs + ys)[i];
      }
    }
  }

  // ---------------------------------------------------------------------
  // Runs of consecutive lines with the same address

  datatype Run = Run(addr: string, lines: seq<string>)

  /** Runs `i` and `i + 1` have different addresses: the runs are maximal. */
  predicate Boundary(runs: seq<Run>, i: int)
    requires 0 <= i < |runs| - 1
  {
    runs[i].addr != runs[i + 1].addr
  }

  /**
   * The maximal runs of consecutive entries sharing an address, in order:
   * what `createProgram` hands to `aggregate` one by one.
   */
  function Group(es: seq<(string, string)>): (r: seq<Run>)
    ensures es == [] <==> r == []
    ensures es != [] ==> r[|r| - 1].addr == es[|es| - 1].0
    decreases |es|
  {
    if es == [] then [] else AddEntry(Group(es[..|es| - 1]), es[|es| - 1])
  }

  /** One entry joins the last run when it has the same address, else starts a run. */
  function AddEntry(g: seq<Run>, e: (string, string)): (r: seq<Run>)
    ensures r != [] && r[|r| - 1].addr == e.0
  {
    if g != [] && g[|g| - 1].addr == e.0 then g[..|g| - 1] + [Run(e.0, g[|g| - 1].lines + [e.1])]
    else g + [Run(e.0, [e.1])]
  }

  /** Every run holds at least one line. */
  lemma {:induction false} GroupNonEmpty(es: seq<(string, string)>)
    ensures forall i :: 0 <= i < |Group(es)| ==> Group(es)[i].lines != []
    decreases |es|
  {
    if es != [] {
      GroupNonEmpty(es[..|es| - 1]);
    }
  }

  /** Consecutive runs have different addresses: every run is maximal. */
  lemma {:induction false} GroupMaximal(es: seq<(string, string)>)
    ensures forall i :: 0 <= i < |Group(es)| - 1 ==> Boundary(Group(es), i)
    decreases |es|
  {
    if es != [] {
      var g := Group(es[..|es| - 1]);
      var e := es[|es| - 1];
      GroupMaximal(es[..|es| - 1]);
      var r := Group(es);
      forall i | 0 <= i < |r| - 1 ensures Boundary(r, i) {
        if i < |g| - 1 {
          assert Boundary(g, i);
        }
      }
    }
  }

  lemma {:induction false} RunEntriesSnoc(run: Run, x: string)
    ensures RunEntries(Run(run.addr, run.lines + [x])) == RunEntries(run) + [(run.addr, x)]
  {
  }

  function RunEntries(run: Run): (r: seq<(string, string)>)
    ensures |r| == |run.lines|
  {
    seq(|run.lines|, i requires 0 <= i < |run.lines| => (run.addr, run.lines[i]))
  }

  /** The entries of the runs, one after the other. */
  function Flatten(runs: seq<Run>): seq<(string, string)>
    decreases |runs|
  {
    if runs == [] then [] else Flatten(runs[..|runs| - 1]) + RunEntries(runs[|runs| - 1])
  }

  /** Grouping loses, adds and reorders nothing: the runs flatten back to the entries. */
  lemma {:induction false} FlattenSnoc(runs: seq<Run>, run: Run)
    ensures Flatten(runs + [run]) == Flatten(runs) + RunEntries(run)
  {
    assert (runs + [run])[..|runs|] == runs;
  }

  lemma {:induction false} FlattenAddEntry(g: seq<Run>, e: (string, string))
    ensures Flatten(AddEntry(g, e)) == Flatten(g) + [e]
  {
    if g != [] && g[|g| - 1].addr == e.0 {
      var last := g[|g| - 1];
      var front := g[..|g| - 1];
      assert g == front + [last];
      FlattenSnoc(front, last);
      FlattenSnoc(front, Run(e.0, last.lines + [e.1]));
      RunEntriesSnoc(last, e.1);
    } else {
      FlattenSnoc(g, Run(e.0, [e.1]));
    }
  }

  lemma {:induction false} GroupFlatten(es: seq<(string, string)>)
    ensures Flatten(Group(es)) == es
    decreases |es|
  {
    if es != [] {
      var init, e := es[..|es| - 1], es[|es| - 1];
      calc {
        Flatten(Group(es));
        Flatten(AddEntry(Group(init), e));
        { FlattenAddEntry(Group(init), e); }
        Flatten(Group(init)) + [e];
        { GroupFlatten(init); }
        init + [e];
        { assert es == init + [e]; }
        es;
      }
    }
  }

  /** The entries `createProgram` reads from the first `n` text lines, in line order. */
  function Entries(text: OrdMap<int, string>, n: nat): (r: seq<(string, string)>)
    requires n <= |text.keys| && forall i :: 0 <= i < |text.keys| ==> text.keys[i] in text.m
    ensures |r| == n
  {
    if n == 0 then [] else Entries(text, n - 1) + [Entry(text.m[text.keys[n - 1]])]
  }

  /** Once the loop has raised on the first `j` text lines, `createProgram` raises. */
  lemma {:induction false} CreateLinesRaises(text: OrdMap<int, string>, j: nat)
    requires j <= |text.keys| && forall i :: 0 <= i < |text.keys| ==> text.keys[i] in text.m
    requires CreateLines(Entries(text, j)).None?
    ensures CreateRuns(Entries(text, |text.keys|)).None?
  {
    EntriesPrefix(text, |text.keys|, j);
    CreateLinesStops(Entries(text, |text.keys|), j);
  }

  /** The entries of the first `j` lines are a prefix of the entries of the first `n`. */
  lemma {:induction false} EntriesPrefix(text: OrdMap<int, string>, n: nat, j: nat)
    requires n <= |text.keys| && forall i :: 0 <= i < |text.keys| ==> text.keys[i] in text.m
    requires j <= n
    ensures Entries(text, n)[..j] == Entries(text, j)
    decreases n - j
  {
    if j < n {
      EntriesPrefix(text, n - 1, j);
      assert Entries(text, n)[..n - 1] == Entries(text, n - 1);
    }
  }

  /** The builder's state that `aggregate` changes. */
  datatype ProgState = ProgState(program: OrdMap<string, string>, rawStr: map<int, seq<string>>)

  predicate RunsParse(runs: seq<Run>) {
    forall i :: 0 <= i < |runs| ==> ParseHex(runs[i].addr).Some?
  }

  lemma {:induction false} RunsParseSnoc(runs: seq<Run>, run: Run)
    ensures RunsParse(runs + [run]) <==> RunsParse(runs) && ParseHex(run.addr).Some?
  {
    if RunsParse(runs + [run]) {
      forall i | 0 <= i < |runs| ensures ParseHex(runs[i].addr).Some? {
        assert (runs + [run])[i] == runs[i];
      }
      assert (runs + [run])[|runs|] == run;
    }
  }

  /** `aggregate` applied to each run in turn. */
  function ApplyRuns(ps: ProgState, runs: seq<Run>): ProgState
    requires RunsParse(runs)
    decreases |runs|
  {
    if runs == [] then ps
    else
      ApplyRun(ApplyRuns(ps, runs[..|runs| - 1]), runs[|runs| - 1])
  }

  /** One call of `aggregate`: the text is stored, the lines are filed as raw strings. */
  function ApplyRun(ps: ProgState, run: Run): ProgState
    requires ParseHex(run.addr).Some?
  {
    ProgState(ps.program.Put(run.addr, AggregateLine(run.lines)),
              Extend(ps.rawStr, ParseHex(run.addr).value, run.lines))
  }

  /** One more run applied after the others. */
  lemma {:induction false} ApplyRunsSnoc(ps: ProgState, runs: seq<Run>, run: Run)
    requires RunsParse(runs) && ParseHex(run.addr).Some?
    ensures RunsParse(runs + [run])
    ensures ApplyRuns(ps, runs + [run]) == ApplyRun(ApplyRuns(ps, runs), run)
  {
    assert (runs + [run])[..|runs|] == runs;
  }

  /**
   * Every address that occurs keeps the text aggregated from its LAST run:
   * a later run at a repeated address overwrites the earlier one.
   */
  lemma {:induction false} ApplyRunsLastWins(ps: ProgState, runs: seq<Run>, i: nat)
    requires RunsParse(runs)
    requires i < |runs|
    requires forall j :: i < j < |runs| ==> runs[j].addr != runs[i].addr
    ensures runs[i].addr in ApplyRuns(ps, runs).program.m
    ensures ApplyRuns(ps, runs).program.m[runs[i].addr] == AggregateLine(runs[i].lines)
    decreases |runs|
  {
    if i < |runs| - 1 {
      ApplyRunsLastWins(ps, runs[..|runs| - 1], i);
    }
  }

  /** The lines of the entries whose address text parses to `n`, in order. */
  function LinesAt(es: seq<(string, string)>, n: nat): seq<string>
    decreases |es|
  {
    if es == [] then []
    else
      var e := es[|es| - 1];
      LinesAt(es[..|es| - 1], n) + (if ParseHex(e.0) == Some(n) then [e.1] else [])
  }

  lemma {:induction false} LinesAtAppend(a: seq<(string, string)>, b: seq<(string, string)>, n: nat)
    ensures LinesAt(a + b, n) == LinesAt(a, n) + LinesAt(b, n)
    decreases |b|
  {
    if b != [] {
      assert (a + b)[..|a + b| - 1] == a + b[..|b| - 1];
      LinesAtAppend(a, b[..|b| - 1], n);
    } else {
      assert a + b == a;
    }
  }

  lemma {:induction false} LinesAtRun(run: Run, n: nat)
    ensures LinesAt(RunEntries(run), n) == if ParseHex(run.addr) == Some(n) then run.lines else []
    decreases |run.lines|
  {
    if run.lines != [] {
      var init, last := Run(run.addr, run.lines[..|run.lines| - 1]), run.lines[|run.lines| - 1];
      var es := RunEntries(run);
      LinesAtRun(init, n);
      assert es[..|es| - 1] == RunEntries(init);
      assert es[|es| - 1] == (run.addr, last);
      if ParseHex(run.addr) == Some(n) {
        assert LinesAt(es, n) == init.lines + [last];
        assert run.lines == init.lines + [last];
      } else {
        assert LinesAt(es, n) == [] + [];
      }
    }
  }

  /** The lines of the runs whose address text parses to `n`, in order. */
  function RunsLinesAt(runs: seq<Run>, n: nat): seq<string>
    decreases |runs|
  {
    if runs == [] then []
    else
      var run := runs[|runs| - 1];
      RunsLinesAt(runs[..|runs| - 1], n) + (if ParseHex(run.addr) == Some(n) then run.lines else [])
  }

  lemma {:induction false} RunsLinesAtFlatten(runs: seq<Run>, n: nat)
    ensures RunsLinesAt(runs, n) == LinesAt(Flatten(runs), n)
    decreases |runs|
  {
    if runs != [] {
      var init, run := runs[..|runs| - 1], runs[|runs| - 1];
      RunsLinesAtFlatten(init, n);
      LinesAtAppend(Flatten(init), RunEntries(run), n);
      LinesAtRun(run, n);
    }
  }

  /**
   * The raw strings keep accumulating: after the runs, the list at every
   * address is the old list followed by every line of every run whose
   * address parses to it, in order.
   */
  lemma {:induction false} ApplyRunsRawStrings(ps: ProgState, runs: seq<Run>, n: nat)
    requires RunsParse(runs)
    ensures Get(ApplyRuns(ps, runs).rawStr, n) == Get(ps.rawStr, n) + RunsLinesAt(runs, n)
    decreases |runs|
  {
    if runs != [] {
      var init, run := runs[..|runs| - 1], runs[|runs| - 1];
      assert runs == init + [run];
      RunsParseSnoc(init, run);
      ApplyRunsRawStrings(ps, init, n);
      ExtendStep(ps.rawStr, ApplyRuns(ps, init).rawStr, ParseHex(run.addr).value, run.lines, n, RunsLinesAt(init, n));
    }
  }

  /** Appending to a list that extends the one at `n` in `m0` extends it by both. */
  lemma {:induction false} ExtendStep(m0: map<int, seq<string>>, m: map<int, seq<string>>, a: int, xs: seq<string>, n: int, before: seq<string>)
    requires Get(m, n) == Get(m0, n) + before
    ensures Get(Extend(m, a, xs), n) == Get(m0, n) + (before + if a == n then xs else [])
  {
    ExtendAt(m, a, xs, n);
  }

  /**
   * What `createProgram` builds from the text lines: with every address
   * parseable, the raw strings filed under an address are exactly the
   * instruction texts of the lines at that address, in listing order.
   */
  lemma {:induction false} CreateProgramRawStrings(ps: ProgState, es: seq<(string, string)>, n: nat)
    requires RunsParse(Group(es))
    ensures Get(ApplyRuns(ps, Group(es)).rawStr, n) == Get(ps.rawStr, n) + LinesAt(es, n)
  {
    ApplyRunsRawStrings(ps, Group(es), n);
    RunsLinesAtFlatten(Group(es), n);
    GroupFlatten(es);
  }

  /**
   * The loop state of `createProgram`: the runs already handed to
   * `aggregate`, `currAddr` and `sameAddrInsts`.
   */
  datatype CreateState = CreateState(done: seq<Run>, currAddr: Option<string>, sameAddrInsts: seq<string>)

  /**
   * One text line's entry in the loop of `createProgram`: it opens the
   * first run, joins the open run at the same address, or has the open
   * run aggregated first. `None` when that `aggregate` raises.
   */
  function CreateStep(st: CreateState, e: (string, string)): Option<CreateState> {
    match st.currAddr
    case None => Some(CreateState(st.done, Some(e.0), st.sameAddrInsts + [e.1]))
    case Some(a) =>
      if e.0 == a then Some(CreateState(st.done, Some(e.0), st.sameAddrInsts + [e.1]))
      else if ParseHex(a).None? then None
      else Some(CreateState(st.done + [Run(a, st.sameAddrInsts)], Some(e.0), [e.1]))
  }

  /** Once an `aggregate` in the loop has raised, the whole loop has raised. */
  lemma {:induction false} CreateLinesStops(es: seq<(string, string)>, n: nat)
    requires n <= |es| && CreateLines(es[..n]).None?
    ensures CreateLines(es).None?
    decreases |es| - n
  {
    if n < |es| {
      assert es[..n + 1][..n] == es[..n];
      CreateLinesStops(es, n + 1);
    } else {
      assert es[..n] == es;
    }
  }

  /** The loop of `createProgram` over the entries of its text lines. */
  function CreateLines(es: seq<(string, string)>): (r: Option<CreateState>)
    ensures r.Some? ==> RunsParse(r.value.done)
    decreases |es|
  {
    if es == [] then Some(CreateState([], None, []))
    else
      match CreateLines(es[..|es| - 1])
      case None => None
      case Some(st) => CreateStep(st, es[|es| - 1])
  }

  /** One more text line: the loop takes one more step, on that line's entry. */
  lemma {:induction false} CreateLinesNext(text: OrdMap<int, string>, j: nat)
    requires j < |text.keys| && forall i :: 0 <= i < |text.keys| ==> text.keys[i] in text.m
    ensures CreateLines(Entries(text, j + 1))
      == if CreateLines(Entries(text, j)).None? then None
         else CreateStep(CreateLines(Entries(text, j)).value, Entry(text.m[text.keys[j]]))
  {
    assert Entries(text, j + 1)[..j] == Entries(text, j);
  }

  /** After the loop: the last buffered run is aggregated too. */
  function CreateFinish(st: CreateState): Option<seq<Run>> {
    match st.currAddr
    case None => Some(st.done)
    case Some(a) =>
      if st.sameAddrInsts == [] then Some(st.done)
      else if ParseHex(a).None? then None
      else Some(st.done + [Run(a, st.sameAddrInsts)])
  }

  /** The runs `createProgram` aggregates, in order; `None` when it raises. */
  function CreateRuns(es: seq<(string, string)>): (r: Option<seq<Run>>)
    ensures r.Some? ==> RunsParse(r.value)
  {
    match CreateLines(es)
    case None => None
    case Some(st) => CreateFinish(st)
  }

  /**
   * After the entries the loop has aggregated every closed run of the
   * grouping and buffers the open one, unless a closed run's address did
   * not parse.
   */
  lemma {:induction false} CreateLinesGroup(es: seq<(string, string)>)
    ensures var g := Group(es);
      CreateLines(es) ==
        if es == [] then Some(CreateState([], None, []))
        else if RunsParse(g[..|g| - 1])
        then Some(CreateState(g[..|g| - 1], Some(g[|g| - 1].addr), g[|g| - 1].lines))
        else None
    decreases |es|
  {
    if es != [] {
      var init, e := es[..|es| - 1], es[|es| - 1];
      CreateLinesGroup(init);
      var g := Group(es);
      var closed := g[..|g| - 1];
      if init == [] {
        assert g == [Run(e.0, [e.1])];
        assert closed == [];
        assert [] + [e.1] == [e.1];
      } else {
        StepGroup(Group(init), e);
      }
    }
  }

  /** One loop step on the state that buffers the open run of `g0` is the state of the grouping one entry longer. */
  lemma {:induction false} StepGroup(g0: seq<Run>, e: (string, string))
    requires g0 != []
    ensures var done, open := g0[..|g0| - 1], g0[|g0| - 1];
      var g := AddEntry(g0, e);
      (if RunsParse(done) then CreateStep(CreateState(done, Some(open.addr), open.lines), e) else None)
      == (if RunsParse(g[..|g| - 1]) then Some(CreateState(g[..|g| - 1], Some(g[|g| - 1].addr), g[|g| - 1].lines)) else None)
  {
    var done, open := g0[..|g0| - 1], g0[|g0| - 1];
    var g := AddEntry(g0, e);
    assert g0 == done + [open];
    if e.0 == open.addr {
      assert g[..|g| - 1] == done;
    } else {
      assert g[..|g| - 1] == done + [open];
      RunsParseSnoc(done, open);
    }
  }

  /**
   * `createProgram` raises exactly when some run's address is not
   * hexadecimal; otherwise it aggregates every maximal run of the entries,
   * in order.
   */
  lemma {:induction false} CreateRunsGroup(es: seq<(string, string)>)
    ensures CreateRuns(es) == if RunsParse(Group(es)) then Some(Group(es)) else None
  {
    if es == [] {
      CreateLinesGroup(es);
    } else if RunsParse(Group(es)[..|Group(es)| - 1]) {
      CreateRunsFlush(es);
    } else {
      CreateRunsRaise(es);
    }
  }

  /** The closed runs all parse: the final flush adds the open run, or raises on its address. */
  lemma {:induction false} CreateRunsFlush(es: seq<(string, string)>)
    requires es != [] && RunsParse(Group(es)[..|Group(es)| - 1])
    ensures CreateRuns(es) == if RunsParse(Group(es)) then Some(Group(es)) else None
  {
    CreateLinesGroup(es);
    var g := Group(es);
    var done, open := g[..|g| - 1], g[|g| - 1];
    assert g == done + [open];
    GroupNonEmpty(es);
    assert open.lines != [];
    RunsParseSnoc(done, open);
    var st := CreateState(done, Some(open.addr), open.lines);
    assert CreateLines(es) == Some(st);
    assert CreateRuns(es) == CreateFinish(st);
  }

  /** A closed run fails to parse: the loop has raised already, and the runs do not all parse. */
  lemma {:induction false} CreateRunsRaise(es: seq<(string, string)>)
    requires es != [] && !RunsParse(Group(es)[..|Group(es)| - 1])
    ensures CreateRuns(es) == None && !RunsParse(Group(es))
  {
    CreateLinesGroup(es);
    var g := Group(es);
    var done, open := g[..|g| - 1], g[|g| - 1];
    assert g == done + [open];
    RunsParseSnoc(done, open);
    assert CreateLines(es).None?;
  }
}
