/**
 * The bin collections the debugger's bin walkers hand to lib/heap.py, and the
 * pure rules lib/heap.py applies to them: `format_bin` (which bins are shown
 * and how far a chain is followed), `bin_addrs` and `bin_labels`.
 */
module Bins {
  import opened Wrappers
  import opened Text

  datatype BinKind = FastBins | TcacheBins | UnsortedBin | SmallBins | LargeBins

  /** The value of a collection's `"type"` key. */
  function KindName(k: BinKind): string {
    match k
    case FastBins => "fastbins"
    case TcacheBins => "tcachebins"
    case UnsortedBin => "unsortedbin"
    case SmallBins => "smallbins"
    case LargeBins => "largebins"
  }

  /** A key of a collection other than `"type"`: a chunk size, or a name such as `"all"`. */
  datatype SizeKey = IntKey(n: nat) | NameKey(name: string)

  /**
   * One bin as the walker returns it: a fast bin is its forward chain, a
   * tcache bin is its chain and entry count, the other bins are their forward
   * chain, back chain and corruption verdict. A chain starts at the bin's head
   * and the walker ends it with 0 when it reaches the end of the list.
   */
  datatype BinEntry =
    | FastChain(chain: seq<nat>)
    | TcacheChain(chain: seq<nat>, count: nat)
    | DoubleChain(fd: seq<nat>, bk: seq<nat>, corrupted: bool)

  datatype Bin = Bin(key: SizeKey, entry: BinEntry)

  /**
   * One walker result: a dictionary whose `"type"` key is the `typePos`-th key
   * in iteration order and whose other keys are the `bins`, in order.
   */
  datatype Collection = Collection(kind: BinKind, typePos: nat, bins: seq<Bin>)

  predicate ShapeMatches(kind: BinKind, e: BinEntry) {
    match kind
    case FastBins => e.FastChain?
    case TcacheBins => e.TcacheChain?
    case _ => e.DoubleChain?
  }

  /** `bin_addrs`: the addresses listed in a bin, following forward links. */
  function BinAddrs(e: BinEntry): seq<nat> {
    match e
    case FastChain(chain) => chain
    case TcacheChain(chain, _) => chain
    case DoubleChain(fd, _, _) => fd
  }

  /** What the walkers guarantee: every entry has its kind's shape and non-empty chains. */
  predicate WellFormed(c: Collection) {
    && c.typePos <= |c.bins|
    && forall i :: 0 <= i < |c.bins| ==>
         && ShapeMatches(c.kind, c.bins[i].entry)
         && |BinAddrs(c.bins[i].entry)| >= 1
         && (c.bins[i].entry.DoubleChain? ==> |c.bins[i].entry.bk| >= 1)
         && c.bins[i].key != NameKey("type")
  }

  /** How a size key is printed: `hex(size)` for an integer, the name itself otherwise. */
  function KeyLabel(k: SizeKey): string {
    match k
    case IntKey(n) => Hex(n)
    case NameKey(s) => s
  }

  // ---------------------------------------------------------------- format_bin

  /** A call of the chain formatter: start address, link offset and entry limit. */
  datatype ChainCall = ChainCall(start: nat, offset: int, limit: Option<nat>)

  /** One printed line of `format_bin`, or the lone `empty` line. */
  datatype BinLine =
    | EmptyLine
    | BinLine(sizeLabel: string, count: Option<nat>, corrupted: bool, fd: ChainCall, bk: Option<ChainCall>)

  function Min(a: nat, b: nat): nat {
    if a <= b then a else b
  }

  /** How many tcache entries the chain formatter may show: one more than the count, at most 8. */
  function TcacheLimit(count: nat): (l: nat)
    ensures l == Min(count, 7) + 1
    ensures 1 <= l <= 8
  {
    if count <= 7 then count + 1 else 8
  }

  function CountOf(e: BinEntry): Option<nat> {
    if e.TcacheChain? then Some(e.count) else None
  }

  function CorruptedOf(e: BinEntry): bool {
    e.DoubleChain? && e.corrupted
  }

  /** The condition under which `format_bin` skips a bin. */
  predicate Hidden(e: BinEntry, verbose: bool) {
    && !verbose
    && BinAddrs(e) == [0]
    && (CountOf(e).None? || CountOf(e).value == 0)
    && !CorruptedOf(e)
  }

  /** The line `format_bin` prints for a shown bin. */
  function FormatLine(kind: BinKind, b: Bin, fdOffset: int, bkOffset: int): (l: BinLine)
    requires ShapeMatches(kind, b.entry) && |BinAddrs(b.entry)| >= 1
    requires b.entry.DoubleChain? ==> |b.entry.bk| >= 1
    ensures l.BinLine? && l.sizeLabel == KeyLabel(b.key)
    ensures l.fd.start == BinAddrs(b.entry)[0] && l.fd.offset == fdOffset
    ensures l.fd.limit.Some? <==> kind == TcacheBins
    ensures kind == TcacheBins ==> l.fd.limit.value == Min(b.entry.count, 7) + 1
    ensures l.corrupted <==> CorruptedOf(b.entry)
    ensures l.bk.Some? <==> CorruptedOf(b.entry)
    ensures l.bk.Some? ==> l.bk.value == ChainCall(b.entry.bk[0], bkOffset, None)
    ensures l.count == CountOf(b.entry)
  {
    var chain := BinAddrs(b.entry);
    var fd := if kind == TcacheBins then ChainCall(chain[0], fdOffset, Some(TcacheLimit(b.entry.count)))
              else ChainCall(chain[0], fdOffset, None);
    var bk := if CorruptedOf(b.entry) then Some(ChainCall(b.entry.bk[0], bkOffset, None)) else None;
    BinLine(KeyLabel(b.key), CountOf(b.entry), CorruptedOf(b.entry), fd, bk)
  }

  function CountShown(bins: seq<Bin>, verbose: bool): (n: nat)
    ensures n <= |bins|
    ensures verbose ==> n == |bins|
  {
    if |bins| == 0 then 0
    else CountShown(bins[..|bins| - 1], verbose) + (if Hidden(bins[|bins| - 1].entry, verbose) then 0 else 1)
  }

  function FormatLines(c: Collection, k: nat, verbose: bool, fdOffset: int, bkOffset: int): (r: seq<BinLine>)
    requires WellFormed(c) && k <= |c.bins|
    ensures |r| == CountShown(c.bins[..k], verbose)
    ensures forall i :: 0 <= i < |r| ==> r[i].BinLine?
  {
    if k == 0 then []
    else
      assert c.bins[..k][..k - 1] == c.bins[..k - 1];
      var b := c.bins[k - 1];
      FormatLines(c, k - 1, verbose, fdOffset, bkOffset)
      + (if Hidden(b.entry, verbose) then [] else [FormatLine(c.kind, b, fdOffset, bkOffset)])
  }

  /** The indices below `k` of the bins that are not hidden. */
  function ShownIndices(bins: seq<Bin>, k: nat, verbose: bool): seq<nat>
    requires k <= |bins|
  {
    if k == 0 then []
    else ShownIndices(bins, k - 1, verbose) + (if Hidden(bins[k - 1].entry, verbose) then [] else [k - 1])
  }

  /** Every index is below `k` and each is larger than the one before. */
  predicate IncreasingBelow(r: seq<nat>, k: nat) {
    && (forall t :: 0 <= t < |r| ==> r[t] < k)
    && (forall t, u :: 0 <= t < u < |r| ==> r[t] < r[u])
  }

  lemma {:induction false} ShownIndicesAscending(bins: seq<Bin>, k: nat, verbose: bool)
    requires k <= |bins|
    ensures IncreasingBelow(ShownIndices(bins, k, verbose), k)
  {
    if k > 0 {
      ShownIndicesAscending(bins, k - 1, verbose);
      var front := ShownIndices(bins, k - 1, verbose);
      if !Hidden(bins[k - 1].entry, verbose) {
        var r := front + [k - 1];
        assert ShownIndices(bins, k, verbose) == r;
        forall t | 0 <= t < |r| ensures r[t] < k {
          if t < |front| { assert r[t] == front[t]; }
        }
        forall t, u | 0 <= t < u < |r| ensures r[t] < r[u] {
          if u < |front| { assert r[t] == front[t] && r[u] == front[u]; }
          else { assert r[t] == front[t]; }
        }
      }
    }
  }

  /**
   * Which bins `format_bin` shows, described independently: exactly the
   * indices below `k` whose bin is not hidden, in increasing order.
   */
  lemma {:induction false} ShownIndicesSpec(bins: seq<Bin>, k: nat, verbose: bool)
    requires k <= |bins|
    ensures IncreasingBelow(ShownIndices(bins, k, verbose), k)
    ensures forall i :: 0 <= i < k ==> (i in ShownIndices(bins, k, verbose) <==> !Hidden(bins[i].entry, verbose))
  {
    ShownIndicesAscending(bins, k, verbose);
    if k > 0 {
      ShownIndicesSpec(bins, k - 1, verbose);
      assert k - 1 !in ShownIndices(bins, k - 1, verbose);
    }
  }

  /** The `t`-th of `lines` is the line of bin `idx[t]`. */
  predicate LinesOf(c: Collection, lines: seq<BinLine>, idx: seq<nat>, fdOffset: int, bkOffset: int)
    requires WellFormed(c)
  {
    && |lines| == |idx|
    && forall t :: 0 <= t < |idx| ==>
         idx[t] < |c.bins| && lines[t] == FormatLine(c.kind, c.bins[idx[t]], fdOffset, bkOffset)
  }

  lemma {:induction false} LinesOfSnoc(c: Collection, lines: seq<BinLine>, idx: seq<nat>, j: nat, fdOffset: int, bkOffset: int)
    requires WellFormed(c) && j < |c.bins| && LinesOf(c, lines, idx, fdOffset, bkOffset)
    ensures LinesOf(c, lines + [FormatLine(c.kind, c.bins[j], fdOffset, bkOffset)], idx + [j], fdOffset, bkOffset)
  {
    var lines', idx' := lines + [FormatLine(c.kind, c.bins[j], fdOffset, bkOffset)], idx + [j];
    forall t | 0 <= t < |idx'|
      ensures idx'[t] < |c.bins| && lines'[t] == FormatLine(c.kind, c.bins[idx'[t]], fdOffset, bkOffset)
    {
      if t < |idx| {
        assert lines'[t] == lines[t] && idx'[t] == idx[t];
      }
    }
  }

  /** The `t`-th line is the line of the `t`-th shown bin, in every mode. */
  lemma {:induction false} FormatLinesShown(c: Collection, k: nat, verbose: bool, fdOffset: int, bkOffset: int)
    requires WellFormed(c) && k <= |c.bins|
    ensures LinesOf(c, FormatLines(c, k, verbose, fdOffset, bkOffset), ShownIndices(c.bins, k, verbose), fdOffset, bkOffset)
  {
    if k > 0 {
      FormatLinesShown(c, k - 1, verbose, fdOffset, bkOffset);
      var front := FormatLines(c, k - 1, verbose, fdOffset, bkOffset);
      var idx := ShownIndices(c.bins, k - 1, verbose);
      if !Hidden(c.bins[k - 1].entry, verbose) {
        var line := FormatLine(c.kind, c.bins[k - 1], fdOffset, bkOffset);
        assert FormatLines(c, k, verbose, fdOffset, bkOffset) == front + [line];
        assert ShownIndices(c.bins, k, verbose) == idx + [k - 1];
        LinesOfSnoc(c, front, idx, k - 1, fdOffset, bkOffset);
      } else {
        assert FormatLines(c, k, verbose, fdOffset, bkOffset) == front;
        assert ShownIndices(c.bins, k, verbose) == idx;
      }
    }
  }

  /** In verbose mode the `i`-th line is the `i`-th bin's. */
  lemma {:induction false} FormatLinesVerbose(c: Collection, k: nat, verbose: bool, fdOffset: int, bkOffset: int)
    requires WellFormed(c) && k <= |c.bins|
    ensures var r := FormatLines(c, k, verbose, fdOffset, bkOffset);
      verbose ==> |r| == k && forall i :: 0 <= i < k ==> r[i] == FormatLine(c.kind, c.bins[i], fdOffset, bkOffset)
  {
    if verbose && k > 0 {
      FormatLinesVerbose(c, k - 1, verbose, fdOffset, bkOffset);
      var front := FormatLines(c, k - 1, verbose, fdOffset, bkOffset);
      var line := FormatLine(c.kind, c.bins[k - 1], fdOffset, bkOffset);
      assert !Hidden(c.bins[k - 1].entry, verbose);
      assert FormatLines(c, k, verbose, fdOffset, bkOffset) == front + [line];
    }
  }

  /**
   * `format_bin`: one line per shown bin in key order, or the lone `empty`
   * line when every bin is hidden. In verbose mode nothing is hidden.
   */
  function FormatBin(c: Collection, verbose: bool, fdOffset: int, bkOffset: int): (r: seq<BinLine>)
    requires WellFormed(c)
    ensures |r| >= 1
    ensures r == [EmptyLine] <==> CountShown(c.bins, verbose) == 0
    ensures CountShown(c.bins, verbose) > 0 ==> |r| == CountShown(c.bins, verbose)
    ensures verbose && |c.bins| > 0 ==>
      |r| == |c.bins| && forall i :: 0 <= i < |r| ==> r[i] == FormatLine(c.kind, c.bins[i], fdOffset, bkOffset)
    ensures CountShown(c.bins, verbose) > 0 ==> LinesOf(c, r, ShownIndices(c.bins, |c.bins|, verbose), fdOffset, bkOffset)
  {
    var lines := FormatLines(c, |c.bins|, verbose, fdOffset, bkOffset);
    assert c.bins[..|c.bins|] == c.bins;
    FormatLinesVerbose(c, |c.bins|, verbose, fdOffset, bkOffset);
    FormatLinesShown(c, |c.bins|, verbose, fdOffset, bkOffset);
    if |lines| == 0 then [EmptyLine]
    else
      assert lines[0].BinLine?;
      lines
  }

  lemma {:induction false} CountShownZero(bins: seq<Bin>, verbose: bool)
    ensures CountShown(bins, verbose) == 0 <==> forall i :: 0 <= i < |bins| ==> Hidden(bins[i].entry, verbose)
  {
    if |bins| > 0 {
      var init := bins[..|bins| - 1];
      CountShownZero(init, verbose);
      assert forall i :: 0 <= i < |init| ==> init[i] == bins[i];
    }
  }

  /** The `empty` line appears exactly when every bin is hidden. */
  lemma {:induction false} FormatBinEmptyIff(c: Collection, verbose: bool, fdOffset: int, bkOffset: int)
    requires WellFormed(c)
    ensures FormatBin(c, verbose, fdOffset, bkOffset) == [EmptyLine]
      <==> forall i :: 0 <= i < |c.bins| ==> Hidden(c.bins[i].entry, verbose)
  {
    CountShownZero(c.bins, verbose);
  }

  // ---------------------------------------------------------------- bin_labels

  function Occurrences(s: seq<nat>, x: int): (n: nat)
    ensures n <= |s|
    ensures n > 0 <==> x in s
  {
    if |s| == 0 then 0
    else Occurrences(s[..|s| - 1], x) + (if s[|s| - 1] == x then 1 else 0)
  }

  /** `list.index(x)`: the position of the first occurrence. */
  function FirstIndex(s: seq<nat>, x: int): (i: nat)
    requires x in s
    ensures i < |s| && s[i] == x && x !in s[..i]
  {
    if s[0] == x then 0 else 1 + FirstIndex(s[1..], x)
  }

  /** The label `bin_labels` writes: `type[size][index]`, with `/count` for tcache bins. */
  function Label(kind: BinKind, b: Bin, index: nat): string
    requires ShapeMatches(kind, b.entry)
  {
    var suffix := if kind == TcacheBins then "/" + DecStr(b.entry.count) else "";
    KindName(kind) + "[" + KeyLabel(b.key) + "][" + DecStr(index) + suffix + "]"
  }

  /** One copy of `text` for each time `x` occurs in `s`. */
  function MatchLabels(s: seq<nat>, x: int, text: string): (r: seq<string>)
    ensures |r| == Occurrences(s, x)
    ensures forall i :: 0 <= i < |r| ==> r[i] == text
  {
    if |s| == 0 then []
    else MatchLabels(s[..|s| - 1], x, text) + (if s[|s| - 1] == x then [text] else [])
  }

  function EntryLabels(addr: int, kind: BinKind, b: Bin): (r: seq<string>)
    requires ShapeMatches(kind, b.entry)
    ensures |r| == Occurrences(BinAddrs(b.entry), addr)
    ensures forall i :: 0 <= i < |r| ==>
      r[i] == Label(kind, b, FirstIndex(BinAddrs(b.entry), addr))
  {
    var chunks := BinAddrs(b.entry);
    if addr in chunks then MatchLabels(chunks, addr, Label(kind, b, FirstIndex(chunks, addr)))
    else []
  }

  function CollectionLabels(addr: int, c: Collection, k: nat): (r: seq<string>)
    requires WellFormed(c) && k <= |c.bins|
  {
    if k == 0 then []
    else CollectionLabels(addr, c, k - 1) + EntryLabels(addr, c.kind, c.bins[k - 1])
  }

  function TotalOccurrences(addr: int, colls: seq<Collection>): nat {
    if |colls| == 0 then 0
    else TotalOccurrences(addr, colls[..|colls| - 1]) + CollectionOccurrences(addr, colls[|colls| - 1], |colls[|colls| - 1].bins|)
  }

  function CollectionOccurrences(addr: int, c: Collection, k: nat): nat
    requires k <= |c.bins|
  {
    if k == 0 then 0
    else CollectionOccurrences(addr, c, k - 1) + Occurrences(BinAddrs(c.bins[k - 1].entry), addr)
  }

  predicate AllWellFormed(colls: seq<Collection>) {
    forall i :: 0 <= i < |colls| ==> WellFormed(colls[i])
  }

  /**
   * `bin_labels(addr, collections)`: the labels of every bin, of every
   * collection, that lists `addr`, collection by collection and bin by bin.
   */
  function BinLabels(addr: int, colls: seq<Collection>): (r: seq<string>)
    requires AllWellFormed(colls)
  {
    if |colls| == 0 then []
    else
      var last := colls[|colls| - 1];
      BinLabels(addr, colls[..|colls| - 1]) + CollectionLabels(addr, last, |last.bins|)
  }

  lemma {:induction false} CollectionLabelsCount(addr: int, c: Collection, k: nat)
    requires WellFormed(c) && k <= |c.bins|
    ensures |CollectionLabels(addr, c, k)| == CollectionOccurrences(addr, c, k)
  {
    if k > 0 {
      CollectionLabelsCount(addr, c, k - 1);
    }
  }

  /** `bin_labels` emits one label per occurrence of the address in a bin's list. */
  lemma {:induction false} BinLabelsCount(addr: int, colls: seq<Collection>)
    requires AllWellFormed(colls)
    ensures |BinLabels(addr, colls)| == TotalOccurrences(addr, colls)
  {
    if |colls| > 0 {
      var last := colls[|colls| - 1];
      BinLabelsCount(addr, colls[..|colls| - 1]);
      CollectionLabelsCount(addr, last, |last.bins|);
    }
  }
}
