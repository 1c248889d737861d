/**
 * Basic blocks and their byte n-gram features (`Block` in
 * maldefender/cfg_builder.py:14-73). A block is a value here: the builder
 * keeps it in its address-keyed block map and replaces the entry whenever
 * it extends the block.
 */
module Blocks {
  import opened Strings
  import opened Instructions

  datatype Block = Block(startAddr: int, endAddr: int, instList: seq<Inst>, edgeList: seq<int>)

  /** `Block()`: no address yet, no instructions, no edges. */
  const EmptyBlock: Block := Block(-1, -1, [], [])

  /** The 1-gram alphabet (feature indices 11-13). */
  const OneGram: seq<string> := ["00", "FF", "??"]

  /** The 4-gram alphabet (feature indices 14-23). */
  const FourGram: seq<string> := [
    "????????", "04000000", "5DC30000", "F0F0F001", "00100000",
    "00F0F000", "0D2F0600", "5DC38BFF", "8BFF558B", "840D2F06"]

  predicate Distinct(xs: seq<string>) {
    forall i, j :: 0 <= i < j < |xs| ==> xs[i] != xs[j]
  }

  lemma {:induction false} OneGramDistinct()
    ensures Distinct(OneGram)
  {
    assert OneGram[0][0] == '0' && OneGram[1][0] == 'F' && OneGram[2][0] == '?';
  }

  lemma {:induction false} FourGramDistinct()
    ensures Distinct(FourGram)
  {
  }

  // ---------------------------------------------------------------------
  // Byte tokens of a block

  /** A raw byte token without its trailing newline or '+' continuation mark. */
  function StripByte(b: string): string {
    RStrip(b, {'\n', '+'})
  }

  function StripAll(bs: seq<string>): (r: seq<string>)
    ensures |r| == |bs| && forall i :: 0 <= i < |bs| ==> r[i] == StripByte(bs[i])
  {
    seq(|bs|, i requires 0 <= i < |bs| => StripByte(bs[i]))
  }

  /** The stripped byte tokens of the instructions, in order. */
  function BlockBytes(insts: seq<Inst>): seq<string>
    decreases |insts|
  {
    if insts == [] then []
    else BlockBytes(insts[..|insts| - 1]) + StripAll(insts[|insts| - 1].bytes)
  }

  /** Every token of a block is one of its instructions' tokens, stripped. */
  lemma {:induction false} BlockBytesLength(insts: seq<Inst>)
    ensures |BlockBytes(insts)| == TokenCount(insts)
    decreases |insts|
  {
    if insts != [] {
      BlockBytesLength(insts[..|insts| - 1]);
    }
  }

  /** The number of raw byte tokens of the instructions. */
  function TokenCount(insts: seq<Inst>): nat
    decreases |insts|
  {
    if insts == [] then 0 else TokenCount(insts[..|insts| - 1]) + |insts[|insts| - 1].bytes|
  }

  /** `bytesFromInsts` */
  method BytesFromInsts(b: Block) returns (byteList: seq<string>)
    ensures byteList == BlockBytes(b.instList)
    ensures |byteList| == TokenCount(b.instList)
  {
    byteList := [];
    for i := 0 to |b.instList|
      invariant byteList == BlockBytes(b.instList[..i])
    {
      var inst := b.instList[i];
      ghost var before := byteList;
      for j := 0 to |inst.bytes|
        invariant byteList == before + StripAll(inst.bytes[..j])
      {
        byteList := byteList + [StripByte(inst.bytes[j])];
        assert StripAll(inst.bytes[..j + 1]) == StripAll(inst.bytes[..j]) + [StripByte(inst.bytes[j])];
      }
      assert inst.bytes[..|inst.bytes|] == inst.bytes;
      assert b.instList[..i + 1][..i] == b.instList[..i];
    }
    assert b.instList[..|b.instList|] == b.instList;
    BlockBytesLength(b.instList);
  }

  // ---------------------------------------------------------------------
  // Histograms over a fixed alphabet

  /** How many of the tokens equal `w`. */
  function Count(ws: seq<string>, w: string): nat
    decreases |ws|
  {
    if ws == [] then 0 else Count(ws[..|ws| - 1], w) + (if ws[|ws| - 1] == w then 1 else 0)
  }

  /** The counts of the alphabet's words among the tokens, one per word. */
  function Histogram(alphabet: seq<string>, ws: seq<string>): (r: seq<nat>)
    ensures |r| == |alphabet|
  {
    seq(|alphabet|, i requires 0 <= i < |alphabet| => Count(ws, alphabet[i]))
  }

  /** Where `w` sits in the alphabet: `{k: v for (v, k) in enumerate(alphabet)}[w]`. */
  function IndexOf(alphabet: seq<string>, w: string): (r: nat)
    requires w in alphabet
    ensures r < |alphabet| && alphabet[r] == w
    ensures forall j :: r < j < |alphabet| ==> alphabet[j] != w
    decreases |alphabet|
  {
    if alphabet[|alphabet| - 1] == w then |alphabet| - 1 else IndexOf(alphabet[..|alphabet| - 1], w)
  }

  function Sum(xs: seq<nat>): nat
    decreases |xs|
  {
    if xs == [] then 0 else Sum(xs[..|xs| - 1]) + xs[|xs| - 1]
  }

  lemma {:induction false} SumIncrement(xs: seq<nat>, i: nat)
    requires i < |xs|
    ensures Sum(xs[i := xs[i] + 1]) == Sum(xs) + 1
    decreases |xs|
  {
    var ys := xs[i := xs[i] + 1];
    if i < |xs| - 1 {
      assert ys[..|ys| - 1] == xs[..|xs| - 1][i := xs[i] + 1];
      SumIncrement(xs[..|xs| - 1], i);
    } else {
      assert ys[..|ys| - 1] == xs[..|xs| - 1];
    }
  }

  /** One more token raises the count of its own word only, and only when it is in the alphabet. */
  lemma {:induction false} HistogramSnoc(alphabet: seq<string>, ws: seq<string>, w: string)
    requires Distinct(alphabet)
    ensures var h := Histogram(alphabet, ws);
      Histogram(alphabet, ws + [w]) == if w in alphabet then h[IndexOf(alphabet, w) := h[IndexOf(alphabet, w)] + 1] else h
  {
    assert (ws + [w])[..|ws|] == ws;
  }

  /** One more token adds one to the total exactly when it is a word of the alphabet. */
  lemma {:induction false} HistogramSumSnoc(alphabet: seq<string>, ws: seq<string>, w: string)
    requires Distinct(alphabet)
    ensures Sum(Histogram(alphabet, ws + [w])) == Sum(Histogram(alphabet, ws)) + if w in alphabet then 1 else 0
  {
    var h := Histogram(alphabet, ws);
    HistogramSnoc(alphabet, ws, w);
    if w in alphabet {
      var i := IndexOf(alphabet, w);
      SumIncrement(h, i);
      assert Histogram(alphabet, ws + [w]) == h[i := h[i] + 1];
    } else {
      assert Histogram(alphabet, ws + [w]) == h;
    }
  }

  /** The counts add up to the number of tokens that are words of the alphabet. */
  lemma {:induction false} HistogramSum(alphabet: seq<string>, ws: seq<string>)
    requires Distinct(alphabet)
    ensures Sum(Histogram(alphabet, ws)) == |Known(alphabet, ws)| <= |ws|
    decreases |ws|
  {
    if ws == [] {
      HistogramZero(alphabet);
    } else {
      var init, w := ws[..|ws| - 1], ws[|ws| - 1];
      HistogramSum(alphabet, init);
      assert ws == init + [w];
      HistogramSumSnoc(alphabet, init, w);
    }
  }

  /** With no tokens every count is zero. */
  lemma {:induction false} HistogramEmpty(alphabet: seq<string>)
    ensures Histogram(alphabet, []) == seq(|alphabet|, i => 0)
  {
  }

  lemma {:induction false} HistogramZero(alphabet: seq<string>)
    ensures Sum(Histogram(alphabet, [])) == 0
    decreases |alphabet|
  {
    if alphabet != [] {
      HistogramZero(alphabet[..|alphabet| - 1]);
      assert Histogram(alphabet, [])[..|alphabet| - 1] == Histogram(alphabet[..|alphabet| - 1], []);
    }
  }

  /** The tokens that are words of the alphabet, in order. */
  function Known(alphabet: seq<string>, ws: seq<string>): (r: seq<string>)
    ensures |r| <= |ws|
    decreases |ws|
  {
    if ws == [] then []
    else Known(alphabet, ws[..|ws| - 1]) + (if ws[|ws| - 1] in alphabet then [ws[|ws| - 1]] else [])
  }

  // ---------------------------------------------------------------------
  // Features

  /**
   * `get1gramFeatures`: for each 1-gram, how many of the block's byte
   * tokens equal it (the tokens are stripped a second time, which changes
   * nothing).
   */
  method Get1gramFeatures(b: Block) returns (features: seq<nat>)
    ensures features == Histogram(OneGram, BlockBytes(b.instList))
  {
    var bytes := BytesFromInsts(b);
    features := [0, 0, 0];
    HistogramEmpty(OneGram);
    assert bytes[..0] == [];
    for k := 0 to |bytes|
      invariant features == Histogram(OneGram, bytes[..k])
    {
      features := OneGramStep(features, bytes, b.instList, k);
    }
    assert bytes[..|bytes|] == bytes;
  }

  /** One token of the loop of `get1gramFeatures`: strip it again and count it. */
  method OneGramStep(features: seq<nat>, bytes: seq<string>, ghost insts: seq<Inst>, k: nat) returns (r: seq<nat>)
    requires bytes == BlockBytes(insts) && k < |bytes|
    requires features == Histogram(OneGram, bytes[..k])
    ensures r == Histogram(OneGram, bytes[..k + 1])
  {
    var byte := bytes[k];
    BlockBytesStripped(insts, k);
    byte := StripByte(byte);
    assert bytes[..k + 1] == bytes[..k] + [byte];
    OneGramDistinct();
    r := Tally(OneGram, features, bytes[..k], byte);
  }

  /** `features[idx[w]] += 1` when `w` is a word of the alphabet. */
  method Tally(alphabet: seq<string>, features: seq<nat>, ghost seen: seq<string>, w: string)
    returns (r: seq<nat>)
    requires Distinct(alphabet) && features == Histogram(alphabet, seen)
    ensures r == Histogram(alphabet, seen + [w])
  {
    HistogramSnoc(alphabet, seen, w);
    r := features;
    if w in alphabet {
      var idx := IndexOf(alphabet, w);
      r := r[idx := r[idx] + 1];
    }
  }

  /** The tokens of a block are already stripped. */
  lemma {:induction false} BlockBytesStripped(insts: seq<Inst>, k: nat)
    requires k < |BlockBytes(insts)|
    ensures StripByte(BlockBytes(insts)[k]) == BlockBytes(insts)[k]
    decreases |insts|
  {
    var init := insts[..|insts| - 1];
    if k < |BlockBytes(init)| {
      BlockBytesStripped(init, k);
    } else {
      var j := k - |BlockBytes(init)|;
      RStripIdempotent(insts[|insts| - 1].bytes[j], {'\n', '+'});
    }
  }

  /** `''.join(ws)` */
  function Concat(ws: seq<string>): string
    decreases |ws|
  {
    if ws == [] then "" else Concat(ws[..|ws| - 1]) + ws[|ws| - 1]
  }

  /** The joined windows of four consecutive tokens, in order: `max(0, n - 3)` of them. */
  function Windows(bs: seq<string>): (r: seq<string>)
    ensures |r| == if |bs| < 4 then 0 else |bs| - 3
    decreases |bs|
  {
    if |bs| < 4 then []
    else Windows(bs[..|bs| - 1]) + [Concat(bs[|bs| - 4..])]
  }

  /** Window `j` joins the four tokens starting at `j`. */
  lemma {:induction false} WindowsAt(bs: seq<string>, j: nat)
    requires j < |Windows(bs)|
    ensures Windows(bs)[j] == Concat(bs[j..j + 4])
    decreases |bs|
  {
    var init := bs[..|bs| - 1];
    assert Windows(bs) == Windows(init) + [Concat(bs[|bs| - 4..])];
    if j < |Windows(init)| {
      WindowsAt(init, j);
      assert init[j..j + 4] == bs[j..j + 4];
    } else {
      assert bs[j..j + 4] == bs[|bs| - 4..];
    }
  }

  /**
   * `get4gramFeatures`: for each 4-gram, how many windows of four
   * consecutive byte tokens spell it.
   */
  method Get4gramFeatures(b: Block) returns (features: seq<nat>)
    ensures features == Histogram(FourGram, Windows(BlockBytes(b.instList)))
  {
    var bytes := BytesFromInsts(b);
    features := seq(|FourGram|, i => 0);
    HistogramEmpty(FourGram);
    assert bytes[..0] == [] && Windows([]) == [];
    var window: seq<string> := [];
    for k := 0 to |bytes|
      invariant window == bytes[if k < 4 then 0 else k - 4..k]
      invariant features == Histogram(FourGram, Windows(bytes[..if k == 0 then 0 else k - 1]))
    {
      features, window := Push4(features, window, bytes[k], bytes, k);
    }
    features := Flush4(features, window, bytes);
  }

  /** After the loop of `get4gramFeatures`: the last window is counted when it is full. */
  method Flush4(features: seq<nat>, window: seq<string>, ghost bytes: seq<string>) returns (r: seq<nat>)
    requires window == bytes[if |bytes| < 4 then 0 else |bytes| - 4..]
    requires features == Histogram(FourGram, Windows(bytes[..if bytes == [] then 0 else |bytes| - 1]))
    ensures r == Histogram(FourGram, Windows(bytes))
  {
    r := features;
    if |window| == 4 {
      r := Check4Gram(r, window, Windows(bytes[..|bytes| - 1]));
      WindowsPrefix(bytes, |bytes|);
      assert bytes[..|bytes|] == bytes;
    } else if bytes != [] {
      assert Windows(bytes[..|bytes| - 1]) == [] == Windows(bytes);
    }
  }

  /** One byte of the loop of `get4gramFeatures`: a full window is counted and shifted, then the byte joins it. */
  method Push4(features: seq<nat>, window: seq<string>, byte: string, ghost bytes: seq<string>, ghost k: nat)
    returns (features': seq<nat>, window': seq<string>)
    requires k < |bytes| && byte == bytes[k]
    requires window == bytes[if k < 4 then 0 else k - 4..k]
    requires features == Histogram(FourGram, Windows(bytes[..if k == 0 then 0 else k - 1]))
    ensures window' == bytes[if k + 1 < 4 then 0 else k + 1 - 4..k + 1]
    ensures features' == Histogram(FourGram, Windows(bytes[..k]))
  {
    ghost var lo := if k < 4 then 0 else k - 4;
    FourGramDistinct();
    features', window' := features, window;
    if |window'| == 4 {
      WindowFull(bytes, k, window);
      features' := Check4Gram(features', window', Windows(bytes[..k - 1]));
      window' := window'[1..];
      lo := lo + 1;
    } else {
      WindowShort(bytes, k, window);
    }
    Slide(bytes, lo, k);
    window' := window' + [byte];
  }

  /** A full window before token `k` is the one ending at `k`; shifted, it starts one later. */
  lemma {:induction false} WindowFull(bytes: seq<string>, k: nat, window: seq<string>)
    requires k < |bytes| && window == bytes[if k < 4 then 0 else k - 4..k] && |window| == 4
    ensures 4 <= k
    ensures Windows(bytes[..k]) == Windows(bytes[..k - 1]) + [Concat(window)]
    ensures window[1..] == bytes[k - 3..k]
  {
    WindowsPrefix(bytes, k);
  }

  /** Before four tokens there is no window. */
  lemma {:induction false} WindowShort(bytes: seq<string>, k: nat, window: seq<string>)
    requires k < |bytes| && window == bytes[if k < 4 then 0 else k - 4..k] && |window| != 4
    ensures k < 4
    ensures Windows(bytes[..if k == 0 then 0 else k - 1]) == [] == Windows(bytes[..k])
  {
  }

  lemma {:induction false} Slide<T>(s: seq<T>, lo: int, k: int)
    requires 0 <= lo <= k < |s|
    ensures s[lo..k] + [s[k]] == s[lo..k + 1]
    ensures lo < k ==> s[lo + 1..k] + [s[k]] == s[lo + 1..k + 1]
  {
  }

  /** The windows of the first `k` tokens: those of the first `k - 1` and the one ending at `k`. */
  lemma {:induction false} WindowsPrefix(bs: seq<string>, k: nat)
    requires 4 <= k <= |bs|
    ensures Windows(bs[..k]) == Windows(bs[..k - 1]) + [Concat(bs[k - 4..k])]
  {
    assert bs[..k][..k - 1] == bs[..k - 1];
    assert bs[..k][k - 4..] == bs[k - 4..k];
  }

  /** `check4Gram`: count the current window when it spells a 4-gram. */
  method Check4Gram(features: seq<nat>, window: seq<string>, ghost seen: seq<string>) returns (r: seq<nat>)
    requires features == Histogram(FourGram, seen)
    ensures r == Histogram(FourGram, seen + [Concat(window)])
  {
    var windowStr := Concat(window);
    FourGramDistinct();
    r := Tally(FourGram, features, seen, windowStr);
  }

  /** The three 1-gram counts add up to at most the number of byte tokens. */
  lemma {:induction false} OneGramBound(b: Block)
    ensures |Histogram(OneGram, BlockBytes(b.instList))| == 3
    ensures Sum(Histogram(OneGram, BlockBytes(b.instList))) <= TokenCount(b.instList)
  {
    OneGramDistinct();
    HistogramSum(OneGram, BlockBytes(b.instList));
    BlockBytesLength(b.instList);
  }

  /** The ten 4-gram counts add up to at most `max(0, n - 3)` for `n` byte tokens. */
  lemma {:induction false} FourGramBound(b: Block)
    ensures |Histogram(FourGram, Windows(BlockBytes(b.instList)))| == 10
    ensures var n := TokenCount(b.instList);
      Sum(Histogram(FourGram, Windows(BlockBytes(b.instList)))) <= if n < 4 then 0 else n - 3
  {
    FourGramDistinct();
    HistogramSum(FourGram, Windows(BlockBytes(b.instList)));
    BlockBytesLength(b.instList);
  }
}
