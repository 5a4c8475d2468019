/**
 * The recorders of lib/heap.py (`vhadd_tcachebins`, `vhadd_fastbins`,
 * `vhadd_unsortedbin`, `vhadd_smallbins`, `vhadd_largebins`,
 * `vhadd_allchunks`) and `vhstate`, which clears the registry and runs them.
 *
 * A recorder is modelled in two halves: the plan, i.e. the registry calls it
 * makes in order (which depend only on the target and the bin collections),
 * and `Apply`, which performs a plan against the registry. Every chunk
 * record goes through `vheap_makeChunk`; `Arity` says whether the call passes
 * the nine arguments the recorders pass as written, or a tenth `allocated`.
 */
module Recorders {
  import opened Wrappers
  import opened Text
  import opened Chunks
  import opened Bins
  import opened Enumerate
  import R = Registry

  /** How `vheap_makeChunk` is called: nine arguments as written, or with `allocated` added. */
  datatype Arity = NineArgs | TenArgs(tenth: string)

  /**
   * Where a recorder reads a listed address `e`: the chunk header at
   * `e + headerOffset` and the two words it reports as `fd`/`bk` at
   * `e + linkOffset`.
   */
  datatype Layout = Layout(headerOffset: int, linkOffset: int)

  /** Tcache lists point at user data, two words past the header; the other lists point at the header. */
  function LayoutOf(k: BinKind): Layout {
    if k == TcacheBins then Layout(-16, 0) else Layout(0, 16)
  }

  /** `vhadd_allchunks` reads both the header and `getfdbk` at the chunk address itself. */
  const WalkLayout := Layout(0, 0)

  /**
   * The argument list of one `vheap_makeChunk` call: index, address, the
   * header's `prev_size`, its size with the flag bits cleared, the three
   * flags (non-main arena, mmapped, previous in use), then the two words
   * `getfdbk` returns. The header words are `read_chunk`'s `prev_size` and
   * `size` fields (`ReadChunkHeader`).
   */
  function ChunkArgs(t: Target, index: nat, addr: nat, layout: Layout, arity: Arity): (args: seq<string>)
    ensures |args| == (if arity.NineArgs? then 9 else 10)
    ensures arity.TenArgs? ==> args[9] == arity.tenth
    ensures var h := addr + layout.headerOffset;
      var l := addr + layout.linkOffset;
      var f := t.chunkFlags(t.mem(h + t.ptrSize));
      && args[0] == DecStr(index) && args[1] == Hex(addr)
      && args[2] == Hex(t.mem(h)) && args[3] == Hex(ClearFlagBits(t.mem(h + t.ptrSize)))
      && args[4] == DecStr(f.nonMainArena) && args[5] == DecStr(f.isMmapped)
      && args[6] == DecStr(f.prevInuse)
      && args[7] == Hex(t.mem(l)) && args[8] == Hex(t.mem(l + t.ptrSize))
  {
    var h := addr + layout.headerOffset;
    var size := SizeAt(t, h);
    var prevSize := PrevSizeAt(t, h);
    var f := t.chunkFlags(size);
    var link := GetFdBk(t, addr + layout.linkOffset);
    ArgList(DecStr(index), Hex(addr), Hex(prevSize), Hex(ClearFlagBits(size)),
      DecStr(f.nonMainArena), DecStr(f.isMmapped), DecStr(f.prevInuse), Hex(link.0), Hex(link.1), arity)
  }

  /** Nine positional arguments, then the tenth when the arity has one. */
  function ArgList(a0: string, a1: string, a2: string, a3: string, a4: string,
                   a5: string, a6: string, a7: string, a8: string, arity: Arity): (args: seq<string>)
    ensures |args| == (if arity.NineArgs? then 9 else 10)
    ensures args[0] == a0 && args[1] == a1 && args[2] == a2 && args[3] == a3 && args[4] == a4
    ensures args[5] == a5 && args[6] == a6 && args[7] == a7 && args[8] == a8
    ensures arity.TenArgs? ==> args[9] == arity.tenth
  {
    [a0, a1, a2, a3, a4, a5, a6, a7, a8] + (if arity.TenArgs? then [arity.tenth] else [])
  }

  // ---------------------------------------------------------------- plans

  /** One registry call: `vheap_addBinHead`, or `vheap_addChunkToBin` with the record of a listed address. */
  datatype Call =
    | HeadCall(head: string, address: string)
    | ChunkCall(bin: string, index: nat, addr: nat, layout: Layout)

  /** The dictionary key a call writes: the head name or the bin name. */
  function Key(c: Call): string {
    if c.HeadCall? then c.head else c.bin
  }

  /** The name stem of a kind's heads and bins. */
  function RecordPrefix(k: BinKind): string {
    match k
    case TcacheBins => "tcachebins"
    case FastBins => "fastbins"
    case UnsortedBin => "unsortedbins"
    case SmallBins => "smallbins"
    case LargeBins => "largebins"
  }

  /**
   * The counter a recorder has reached at the `j`-th bin: it is incremented
   * for every key of the collection, the `"type"` key included.
   */
  function Counter(c: Collection, j: nat): nat {
    if j < c.typePos then j + 1 else j + 2
  }

  /** The head name, e.g. `tcachebinshead3`. */
  function HeadName(k: BinKind, n: nat): string {
    RecordPrefix(k) + "head" + DecStr(n)
  }

  /** The bin name: the head name with `head` removed, e.g. `tcachebins3`. */
  function BinName(k: BinKind, n: nat): string {
    RecordPrefix(k) + DecStr(n)
  }

  /** The records of the first `n` entries of a list, indexed from 0. */
  function ChainCalls(bin: string, chain: seq<nat>, layout: Layout, n: nat): seq<Call>
    requires n <= |chain|
  {
    seq(n, i requires 0 <= i < n => ChunkCall(bin, i, chain[i], layout))
  }

  /**
   * What a recorder does for the `j`-th bin: nothing when its head is 0;
   * otherwise it adds the head and records every listed address but the
   * terminating last one.
   */
  function GroupPlan(c: Collection, j: nat): seq<Call>
    requires WellFormed(c) && j < |c.bins|
  {
    var chain := BinAddrs(c.bins[j].entry);
    var n := Counter(c, j);
    if chain[0] == 0 then []
    else
      [HeadCall(HeadName(c.kind, n), Hex(chain[0]))]
      + ChainCalls(BinName(c.kind, n), chain, LayoutOf(c.kind), |chain| - 1)
  }

  /** The groups of a collection's bins, in iteration order. */
  function Groups(c: Collection): (gs: seq<seq<Call>>)
    requires WellFormed(c)
    ensures |gs| == |c.bins|
    ensures forall j :: 0 <= j < |c.bins| ==> gs[j] == GroupPlan(c, j)
  {
    seq(|c.bins|, j requires 0 <= j < |c.bins| => GroupPlan(c, j))
  }

  /** The calls a bin recorder makes, bin after bin. */
  function CollectionPlan(c: Collection): seq<Call>
    requires WellFormed(c)
  {
    Flatten(Groups(c))
  }

  /** A bin recorder: nothing when the debugger returns no collection. */
  function SlotPlan(c: Option<Collection>): seq<Call>
    requires c.Some? ==> WellFormed(c.value)
  {
    if c.None? then [] else CollectionPlan(c.value)
  }

  /**
   * `vhadd_allchunks`: nothing without a main arena; otherwise the `all` head
   * and one record per chunk of the sequential walk, after the pad check.
   */
  function AllChunksPlan(t: Target, arenaKnown: bool, page: Region): seq<Call> {
    if !arenaKnown then []
    else
      var w := ChunkWalk(t, SkipPad(t, page.vaddr), RegionEnd(page));
      [HeadCall("allchunkshead", "all")] + ChainCalls("allchunks", w, WalkLayout, |w|)
  }

  /** What the debugger returns when `vhstate` runs: one collection per bin kind, the arena check and the heap region. */
  datatype Snapshot = Snapshot(
    tcache: Option<Collection>, fast: Option<Collection>, unsorted: Option<Collection>,
    small: Option<Collection>, large: Option<Collection>, arenaKnown: bool, page: Region)

  function Slot(s: Snapshot, k: BinKind): Option<Collection> {
    match k
    case TcacheBins => s.tcache
    case FastBins => s.fast
    case UnsortedBin => s.unsorted
    case SmallBins => s.small
    case LargeBins => s.large
  }

  /** A collection, when present, is of kind `k` and has the shape the walkers produce. */
  predicate SlotOk(c: Option<Collection>, k: BinKind) {
    c.Some? ==> c.value.kind == k && WellFormed(c.value)
  }

  predicate SnapshotOk(s: Snapshot) {
    && SlotOk(s.tcache, TcacheBins) && SlotOk(s.fast, FastBins) && SlotOk(s.unsorted, UnsortedBin)
    && SlotOk(s.small, SmallBins) && SlotOk(s.large, LargeBins)
  }

  lemma {:induction false} SnapshotSlot(s: Snapshot, k: BinKind)
    requires SnapshotOk(s)
    ensures SlotOk(Slot(s, k), k)
  {
  }

  /** The six recorders' plans in the order `vhstate` runs them: tcache, fast, unsorted, small, large bins, then the chunk walk. */
  function Parts(t: Target, s: Snapshot): (ps: seq<seq<Call>>)
    requires SnapshotOk(s)
    ensures |ps| == 6
  {
    [SlotPlan(s.tcache), SlotPlan(s.fast), SlotPlan(s.unsorted), SlotPlan(s.small),
     SlotPlan(s.large), AllChunksPlan(t, s.arenaKnown, s.page)]
  }

  function Flatten(ps: seq<seq<Call>>): seq<Call> {
    if |ps| == 0 then [] else ps[0] + Flatten(ps[1..])
  }

  /** The calls of `vhstate` after clearing the registry. */
  function VhStatePlan(t: Target, s: Snapshot): seq<Call>
    requires SnapshotOk(s)
  {
    Flatten(Parts(t, s))
  }

  // ---------------------------------------------------------------- performing a plan

  /** The registry a run leaves behind, and the exception it raised, if any. */
  datatype Outcome = Outcome(reg: R.Registry, raised: Option<PyError>)

  /** Performs the calls in order; an exception from `vheap_makeChunk` ends the run. */
  function Apply(t: Target, reg: R.Registry, plan: seq<Call>, arity: Arity): (o: Outcome)
    requires R.Valid(reg)
    ensures R.Valid(o.reg)
    decreases |plan|
  {
    if |plan| == 0 then Outcome(reg, None)
    else match plan[0]
      case HeadCall(h, a) => Apply(t, R.AddBinHead(reg, h, a), plan[1..], arity)
      case ChunkCall(b, i, a, layout) =>
        match R.MakeChunk(ChunkArgs(t, i, a, layout, arity))
        case Err(e) => Outcome(reg, Some(e))
        case Ok(rec) => Apply(t, R.AddChunkToBin(reg, b, rec), plan[1..], arity)
  }

  /** `vhstate`: clear the registry, then run the recorders. */
  function VhState(t: Target, s: Snapshot, arity: Arity): Outcome
    requires SnapshotOk(s)
  {
    Apply(t, R.ClearHeap(), VhStatePlan(t, s), arity)
  }

  // ---------------------------------------------------------------- reading a plan

  predicate Hits(c: Call, chunk: bool, name: string) {
    c.ChunkCall? == chunk && Key(c) == name
  }

  /** The chunk calls (`chunk`) or head calls (`!chunk`) of a plan that write key `name`, in order. */
  function For(plan: seq<Call>, chunk: bool, name: string): (r: seq<Call>)
    ensures |r| <= |plan|
    ensures forall i :: 0 <= i < |r| ==> Hits(r[i], chunk, name)
  {
    if |plan| == 0 then []
    else (if Hits(plan[0], chunk, name) then [plan[0]] else []) + For(plan[1..], chunk, name)
  }

  lemma {:induction false} ForConcat(a: seq<Call>, b: seq<Call>, chunk: bool, name: string)
    ensures For(a + b, chunk, name) == For(a, chunk, name) + For(b, chunk, name)
    decreases |a|
  {
    if |a| == 0 {
      assert a + b == b;
    } else {
      assert (a + b)[0] == a[0];
      assert (a + b)[1..] == a[1..] + b;
      ForConcat(a[1..], b, chunk, name);
    }
  }

  lemma {:induction false} ForNone(plan: seq<Call>, chunk: bool, name: string)
    requires forall i :: 0 <= i < |plan| ==> !Hits(plan[i], chunk, name)
    ensures For(plan, chunk, name) == []
    decreases |plan|
  {
    if |plan| > 0 {
      assert forall i :: 0 <= i < |plan| - 1 ==> plan[1..][i] == plan[i + 1];
      ForNone(plan[1..], chunk, name);
    }
  }

  lemma {:induction false} ForAll(plan: seq<Call>, chunk: bool, name: string)
    requires forall i :: 0 <= i < |plan| ==> Hits(plan[i], chunk, name)
    ensures For(plan, chunk, name) == plan
    decreases |plan|
  {
    if |plan| > 0 {
      assert forall i :: 0 <= i < |plan| - 1 ==> plan[1..][i] == plan[i + 1];
      ForAll(plan[1..], chunk, name);
      assert [plan[0]] + plan[1..] == plan;
    }
  }

  /** Every key a plan writes starts with `ch`. */
  predicate KeysStartWith(plan: seq<Call>, ch: char) {
    forall i :: 0 <= i < |plan| ==> |Key(plan[i])| > 0 && Key(plan[i])[0] == ch
  }

  lemma {:induction false} KeysStartWithConcat(a: seq<Call>, b: seq<Call>, ch: char)
    requires KeysStartWith(a, ch) && KeysStartWith(b, ch)
    ensures KeysStartWith(a + b, ch)
  {
    forall i | 0 <= i < |a + b| ensures |Key((a + b)[i])| > 0 && Key((a + b)[i])[0] == ch {
      if i < |a| { assert (a + b)[i] == a[i]; } else { assert (a + b)[i] == b[i - |a|]; }
    }
  }

  lemma {:induction false} KeysAvoid(plan: seq<Call>, ch: char, chunk: bool, name: string)
    requires KeysStartWith(plan, ch) && |name| > 0 && name[0] != ch
    ensures For(plan, chunk, name) == []
  {
    ForNone(plan, chunk, name);
  }

  /** The key a bin's group writes: its bin name for chunk calls, its head name for head calls. */
  function GroupKey(c: Collection, j: nat, chunk: bool): string {
    if chunk then BinName(c.kind, Counter(c, j)) else HeadName(c.kind, Counter(c, j))
  }

  /** Different bins of a collection write different keys. */
  lemma {:induction false} GroupKeyInjective(c: Collection, j: nat, j': nat, chunk: bool)
    requires j != j'
    ensures GroupKey(c, j, chunk) != GroupKey(c, j', chunk)
  {
    var p := if chunk then RecordPrefix(c.kind) else RecordPrefix(c.kind) + "head";
    var x, y := GroupKey(c, j, chunk), GroupKey(c, j', chunk);
    assert x == p + DecStr(Counter(c, j)) && y == p + DecStr(Counter(c, j'));
    assert DecStr(Counter(c, j)) == x[|p|..] && DecStr(Counter(c, j')) == y[|p|..];
    DecStrInjective(Counter(c, j), Counter(c, j'));
  }

  lemma {:induction false} GroupKeys(c: Collection, j: nat)
    requires WellFormed(c) && j < |c.bins|
    ensures KeysStartWith(GroupPlan(c, j), RecordPrefix(c.kind)[0])
    ensures forall i :: 0 <= i < |GroupPlan(c, j)| ==>
      Key(GroupPlan(c, j)[i]) == GroupKey(c, j, GroupPlan(c, j)[i].ChunkCall?)
  {
    var chain := BinAddrs(c.bins[j].entry);
    var n := Counter(c, j);
    var head, bin := HeadName(c.kind, n), BinName(c.kind, n);
    assert head[0] == RecordPrefix(c.kind)[0] && bin[0] == RecordPrefix(c.kind)[0];
    if chain[0] != 0 {
      HeadChainKeys(head, Hex(chain[0]), bin, chain, LayoutOf(c.kind), |chain| - 1);
    }
  }

  /** A head record followed by a list's records: the head writes `head`, the rest write `bin`. */
  lemma {:induction false} HeadChainKeys(head: string, addr: string, bin: string, chain: seq<nat>, layout: Layout, n: nat)
    requires n <= |chain|
    ensures var g := [HeadCall(head, addr)] + ChainCalls(bin, chain, layout, n);
      forall i :: 0 <= i < |g| ==> Key(g[i]) == (if g[i].ChunkCall? then bin else head)
  {
    var g := [HeadCall(head, addr)] + ChainCalls(bin, chain, layout, n);
    forall i | 0 <= i < |g| ensures Key(g[i]) == (if g[i].ChunkCall? then bin else head) {
      if i > 0 {
        assert g[i] == ChunkCall(bin, i - 1, chain[i - 1], layout);
      }
    }
  }

  lemma {:induction false} FlattenKeys(ps: seq<seq<Call>>, ch: char)
    requires forall p :: 0 <= p < |ps| ==> KeysStartWith(ps[p], ch)
    ensures KeysStartWith(Flatten(ps), ch)
    decreases |ps|
  {
    if |ps| > 0 {
      FlattenKeys(ps[1..], ch);
      KeysStartWithConcat(ps[0], Flatten(ps[1..]), ch);
    }
  }

  lemma {:induction false} CollectionKeys(c: Collection)
    requires WellFormed(c)
    ensures KeysStartWith(CollectionPlan(c), RecordPrefix(c.kind)[0])
  {
    var gs := Groups(c);
    forall j | 0 <= j < |gs| ensures KeysStartWith(gs[j], RecordPrefix(c.kind)[0]) {
      GroupKeys(c, j);
    }
    FlattenKeys(gs, RecordPrefix(c.kind)[0]);
  }

  /** A bin's group writes no key of another bin of the same collection. */
  lemma {:induction false} GroupForOther(c: Collection, j0: nat, j: nat, chunk: bool)
    requires WellFormed(c) && j0 < |c.bins| && j0 != j
    ensures For(GroupPlan(c, j0), chunk, GroupKey(c, j, chunk)) == []
  {
    GroupKeys(c, j0);
    GroupKeyInjective(c, j0, j, chunk);
    GroupKeyInjective(c, j0, j, !chunk);
    ForNone(GroupPlan(c, j0), chunk, GroupKey(c, j, chunk));
  }

  /** Within a collection, only the bin's own group writes its key. */
  lemma {:induction false} CollectionFor(c: Collection, j: nat, chunk: bool)
    requires WellFormed(c) && j < |c.bins|
    ensures For(CollectionPlan(c), chunk, GroupKey(c, j, chunk))
      == For(GroupPlan(c, j), chunk, GroupKey(c, j, chunk))
  {
    var gs := Groups(c);
    forall other | 0 <= other < |gs| && other != j
      ensures For(gs[other], chunk, GroupKey(c, j, chunk)) == []
    {
      GroupForOther(c, other, j, chunk);
    }
    FlattenFor(gs, j, chunk, GroupKey(c, j, chunk));
  }

  /** A bin's group: its chain records under its bin name and its head under its head name. */
  lemma {:induction false} GroupFor(c: Collection, j: nat)
    requires WellFormed(c) && j < |c.bins|
    ensures var chain := BinAddrs(c.bins[j].entry);
      && For(GroupPlan(c, j), true, GroupKey(c, j, true))
           == (if chain[0] == 0 then []
               else ChainCalls(GroupKey(c, j, true), chain, LayoutOf(c.kind), |chain| - 1))
      && For(GroupPlan(c, j), false, GroupKey(c, j, false))
           == (if chain[0] == 0 then [] else [HeadCall(GroupKey(c, j, false), Hex(chain[0]))])
  {
    var chain := BinAddrs(c.bins[j].entry);
    if chain[0] != 0 {
      var head := [HeadCall(GroupKey(c, j, false), Hex(chain[0]))];
      var calls := ChainCalls(GroupKey(c, j, true), chain, LayoutOf(c.kind), |chain| - 1);
      assert GroupPlan(c, j) == head + calls;
      ForConcat(head, calls, true, GroupKey(c, j, true));
      ForConcat(head, calls, false, GroupKey(c, j, false));
      ForNone(head, true, GroupKey(c, j, true));
      ForAll(head, false, GroupKey(c, j, false));
      ForAll(calls, true, GroupKey(c, j, true));
      ForNone(calls, false, GroupKey(c, j, false));
    }
  }

  /** First characters of the six recorders' keys: `t`, `f`, `u`, `s`, `l`, `a`. */
  function Initial(part: nat): char
    requires part < 6
  {
    "tfusla"[part]
  }

  function KindOfPart(part: nat): BinKind
    requires part < 5
  {
    [TcacheBins, FastBins, UnsortedBin, SmallBins, LargeBins][part]
  }

  lemma {:induction false} PartsKeys(t: Target, s: Snapshot, part: nat)
    requires SnapshotOk(s) && part < 6
    ensures KeysStartWith(Parts(t, s)[part], Initial(part))
  {
    if part < 5 {
      var k := KindOfPart(part);
      PartSlot(t, s, part);
      SlotKeys(s, k);
    } else {
      AllChunksKeys(t, s.arenaKnown, s.page);
    }
  }

  /** Parts 0 to 4 are the bin kinds' plans, in `KindOfPart` order. */
  lemma {:induction false} PartSlot(t: Target, s: Snapshot, part: nat)
    requires SnapshotOk(s) && part < 5
    ensures Parts(t, s)[part] == SlotPlan(Slot(s, KindOfPart(part)))
    ensures Initial(part) == RecordPrefix(KindOfPart(part))[0]
  {
    var k := KindOfPart(part);
    var ps := Parts(t, s);
    if part == 0 {
      assert k == TcacheBins && ps[0] == SlotPlan(s.tcache);
    } else if part == 1 {
      assert k == FastBins && ps[1] == SlotPlan(s.fast);
    } else if part == 2 {
      assert k == UnsortedBin && ps[2] == SlotPlan(s.unsorted);
    } else if part == 3 {
      assert k == SmallBins && ps[3] == SlotPlan(s.small);
    } else {
      assert k == LargeBins && ps[4] == SlotPlan(s.large);
    }
  }

  lemma {:induction false} SlotKeys(s: Snapshot, k: BinKind)
    requires SnapshotOk(s)
    ensures KeysStartWith(SlotPlan(Slot(s, k)), RecordPrefix(k)[0])
  {
    SnapshotSlot(s, k);
    if Slot(s, k).Some? {
      CollectionKeys(Slot(s, k).value);
    }
  }

  lemma {:induction false} AllChunksKeys(t: Target, arenaKnown: bool, page: Region)
    ensures KeysStartWith(AllChunksPlan(t, arenaKnown, page), 'a')
  {
    if arenaKnown {
      var w := ChunkWalk(t, SkipPad(t, page.vaddr), RegionEnd(page));
      var p := AllChunksPlan(t, arenaKnown, page);
      assert p == [HeadCall("allchunkshead", "all")] + ChainCalls("allchunks", w, WalkLayout, |w|);
      forall i | 0 <= i < |p| ensures |Key(p[i])| > 0 && Key(p[i])[0] == 'a' {
        if i > 0 { assert p[i] == ChunkCall("allchunks", i - 1, w[i - 1], WalkLayout); }
      }
    }
  }

  /** A flattened plan writes a key as its one part `part` that writes it. */
  lemma {:induction false} FlattenFor(ps: seq<seq<Call>>, part: nat, chunk: bool, name: string)
    requires part < |ps|
    requires forall other :: 0 <= other < |ps| && other != part ==> For(ps[other], chunk, name) == []
    ensures For(Flatten(ps), chunk, name) == For(ps[part], chunk, name)
    decreases |ps|
  {
    ForConcat(ps[0], Flatten(ps[1..]), chunk, name);
    if part == 0 {
      FlattenNone(ps[1..], chunk, name);
    } else {
      FlattenFor(ps[1..], part - 1, chunk, name);
    }
  }

  lemma {:induction false} FlattenNone(ps: seq<seq<Call>>, chunk: bool, name: string)
    requires forall other :: 0 <= other < |ps| ==> For(ps[other], chunk, name) == []
    ensures For(Flatten(ps), chunk, name) == []
    decreases |ps|
  {
    if |ps| > 0 {
      ForConcat(ps[0], Flatten(ps[1..]), chunk, name);
      FlattenNone(ps[1..], chunk, name);
    }
  }

  /** When only part `part` can write `name`, the whole plan writes it exactly as that part does. */
  lemma {:induction false} PlanFor(t: Target, s: Snapshot, part: nat, chunk: bool, name: string)
    requires SnapshotOk(s) && part < 6 && |name| > 0 && name[0] == Initial(part)
    ensures For(VhStatePlan(t, s), chunk, name) == For(Parts(t, s)[part], chunk, name)
  {
    var ps := Parts(t, s);
    forall other | 0 <= other < 6 && other != part ensures For(ps[other], chunk, name) == [] {
      PartsKeys(t, s, other);
      KeysAvoid(ps[other], Initial(other), chunk, name);
    }
    FlattenFor(ps, part, chunk, name);
  }

  // ---------------------------------------------------------------- what a run leaves behind

  /** The list stored under bin `b`, empty when the bin is absent. */
  function ListOf(reg: R.Registry, b: string): seq<R.ChunkRecord> {
    if b in reg.bins.values then reg.bins.values[b] else []
  }

  /** How a corrected run turns a chunk call's index, address and layout into a record. */
  type Builder = (nat, nat, Layout) -> R.ChunkRecord

  /**
   * The record of a listed address: index, address, the header's `prev_size`
   * and flag-cleared size, the three flags, the two link words, and the
   * `allocated` value `v`, as text.
   */
  function WordsRecord(t: Target, index: nat, addr: nat, layout: Layout, v: string): R.ChunkRecord {
    var h := addr + layout.headerOffset;
    var l := addr + layout.linkOffset;
    var f := t.chunkFlags(SizeAt(t, h));
    R.ChunkRecord(DecStr(index), Hex(addr), Hex(PrevSizeAt(t, h)), Hex(ClearFlagBits(SizeAt(t, h))),
                  DecStr(f.nonMainArena), DecStr(f.isMmapped), DecStr(f.prevInuse),
                  Hex(t.mem(l)), Hex(t.mem(l + t.ptrSize)), v)
  }

  /** The ten-argument call of `vheap_makeChunk` builds exactly `WordsRecord`; the nine-argument one raises `TypeError`. */
  lemma {:induction false} MakeChunkArity(t: Target, index: nat, addr: nat, layout: Layout, v: string)
    ensures R.MakeChunk(ChunkArgs(t, index, addr, layout, TenArgs(v))) == Ok(WordsRecord(t, index, addr, layout, v))
    ensures R.MakeChunk(ChunkArgs(t, index, addr, layout, NineArgs)) == Err(TypeError)
  {
  }

  /** The builder of the ten-argument call. */
  function Corrected(t: Target, v: string): Builder {
    (i: nat, a: nat, l: Layout) => WordsRecord(t, i, a, l, v)
  }

  function RecordOf(build: Builder, c: Call): R.ChunkRecord
    requires c.ChunkCall?
  {
    build(c.index, c.addr, c.layout)
  }

  /** The records a corrected run builds for a list of chunk calls. */
  function Records(build: Builder, calls: seq<Call>): (rs: seq<R.ChunkRecord>)
    requires forall i :: 0 <= i < |calls| ==> calls[i].ChunkCall?
    ensures |rs| == |calls|
  {
    if |calls| == 0 then [] else [RecordOf(build, calls[0])] + Records(build, calls[1..])
  }

  lemma {:induction false} RecordsAt(build: Builder, calls: seq<Call>, i: nat)
    requires forall i :: 0 <= i < |calls| ==> calls[i].ChunkCall?
    requires i < |calls|
    ensures Records(build, calls)[i] == RecordOf(build, calls[i])
    decreases i
  {
    if i > 0 {
      RecordsAt(build, calls[1..], i - 1);
    }
  }

  /** The registry after one call of a corrected run. */
  function Next(reg: R.Registry, c: Call, build: Builder): (r: R.Registry)
    requires R.Valid(reg)
    ensures R.Valid(r)
  {
    match c
    case HeadCall(h, a) => R.AddBinHead(reg, h, a)
    case ChunkCall(_, _, _, _) => R.AddChunkToBin(reg, c.bin, RecordOf(build, c))
  }

  /** The registry a corrected run leaves behind: every call moves it on by `Next`. */
  function Run(reg: R.Registry, plan: seq<Call>, build: Builder): (r: R.Registry)
    requires R.Valid(reg)
    ensures R.Valid(r)
    decreases |plan|
  {
    if |plan| == 0 then reg else Run(Next(reg, plan[0], build), plan[1..], build)
  }

  /** With the ten-argument call a plan never raises, and it leaves the registry `Run` describes. */
  lemma {:induction false} ApplyTenArgs(t: Target, reg: R.Registry, plan: seq<Call>, v: string)
    requires R.Valid(reg)
    ensures Apply(t, reg, plan, TenArgs(v)) == Outcome(Run(reg, plan, Corrected(t, v)), None)
    decreases |plan|
  {
    if |plan| > 0 {
      if plan[0].ChunkCall? {
        MakeChunkArity(t, plan[0].index, plan[0].addr, plan[0].layout, v);
      }
      ApplyTenArgs(t, Next(reg, plan[0], Corrected(t, v)), plan[1..], v);
    }
  }

  /** One corrected call appends to bin `b` exactly when it is a chunk call to `b`. */
  lemma {:induction false} NextBin(reg: R.Registry, c: Call, build: Builder, b: string)
    requires R.Valid(reg)
    ensures var r := Next(reg, c, build);
      && (b in r.bins.values <==> b in reg.bins.values || Hits(c, true, b))
      && ListOf(r, b) == ListOf(reg, b) + (if Hits(c, true, b) then [RecordOf(build, c)] else [])
  {
  }

  lemma {:induction false} RecordsCons(build: Builder, c: Call, later: seq<Call>)
    requires c.ChunkCall? && forall i :: 0 <= i < |later| ==> later[i].ChunkCall?
    ensures Records(build, [c] + later) == [RecordOf(build, c)] + Records(build, later)
  {
    assert ([c] + later)[1..] == later;
  }

  /** Bin `b` exists afterwards exactly when it existed before or the plan writes to it. */
  lemma {:induction false} RunBinPresent(reg: R.Registry, plan: seq<Call>, build: Builder, b: string)
    requires R.Valid(reg)
    ensures b in Run(reg, plan, build).bins.values <==> b in reg.bins.values || |For(plan, true, b)| > 0
    decreases |plan|
  {
    if |plan| > 0 {
      NextBin(reg, plan[0], build, b);
      RunBinPresent(Next(reg, plan[0], build), plan[1..], build, b);
      if Hits(plan[0], true, b) {
        assert For(plan, true, b) == [plan[0]] + For(plan[1..], true, b);
      } else {
        assert For(plan, true, b) == For(plan[1..], true, b);
      }
    }
  }

  /** Bin `b` ends up holding its earlier records followed by the records of the plan's calls to it, in order. */
  lemma {:induction false} RunBin(reg: R.Registry, plan: seq<Call>, build: Builder, b: string)
    requires R.Valid(reg)
    ensures ListOf(Run(reg, plan, build), b) == ListOf(reg, b) + Records(build, For(plan, true, b))
    decreases |plan|
  {
    if |plan| > 0 {
      var reg' := Next(reg, plan[0], build);
      var later := For(plan[1..], true, b);
      var added := if Hits(plan[0], true, b) then [RecordOf(build, plan[0])] else [];
      NextBin(reg, plan[0], build, b);
      RunBin(reg', plan[1..], build, b);
      if Hits(plan[0], true, b) {
        assert For(plan, true, b) == [plan[0]] + later;
        RecordsCons(build, plan[0], later);
      } else {
        assert For(plan, true, b) == later;
      }
      assert Records(build, For(plan, true, b)) == added + Records(build, later);
      calc {
        ListOf(Run(reg, plan, build), b);
        ListOf(Run(reg', plan[1..], build), b);
        ListOf(reg', b) + Records(build, later);
        (ListOf(reg, b) + added) + Records(build, later);
        { SeqAssoc(ListOf(reg, b), added, Records(build, later)); }
        ListOf(reg, b) + (added + Records(build, later));
      }
    }
  }

  lemma {:induction false} SeqAssoc<T>(a: seq<T>, b: seq<T>, c: seq<T>)
    ensures (a + b) + c == a + (b + c)
  {
  }

  /** One corrected call sets head `h` exactly when it is a head call to `h`, and leaves it alone otherwise. */
  lemma {:induction false} NextHead(reg: R.Registry, c: Call, build: Builder, h: string)
    requires R.Valid(reg)
    ensures var r := Next(reg, c, build);
      && (h in r.heads.values <==> h in reg.heads.values || Hits(c, false, h))
      && (Hits(c, false, h) ==> r.heads.values[h] == c.address)
      && (!Hits(c, false, h) && h in reg.heads.values ==> r.heads.values[h] == reg.heads.values[h])
  {
  }

  /** Head `h` exists afterwards exactly when it existed before or the plan writes to it. */
  lemma {:induction false} RunHeadPresent(reg: R.Registry, plan: seq<Call>, build: Builder, h: string)
    requires R.Valid(reg)
    ensures h in Run(reg, plan, build).heads.values <==> h in reg.heads.values || |For(plan, false, h)| > 0
    decreases |plan|
  {
    if |plan| > 0 {
      NextHead(reg, plan[0], build, h);
      RunHeadPresent(Next(reg, plan[0], build), plan[1..], build, h);
      if Hits(plan[0], false, h) {
        assert For(plan, false, h) == [plan[0]] + For(plan[1..], false, h);
      } else {
        assert For(plan, false, h) == For(plan[1..], false, h);
      }
    }
  }

  /** Head `h` holds the last value the plan writes to it, or its earlier value when the plan does not write it. */
  lemma {:induction false} RunHead(reg: R.Registry, plan: seq<Call>, build: Builder, h: string)
    requires R.Valid(reg)
    requires h in reg.heads.values || |For(plan, false, h)| > 0
    ensures h in Run(reg, plan, build).heads.values
    ensures var writes := For(plan, false, h);
      Run(reg, plan, build).heads.values[h]
      == if |writes| > 0 then writes[|writes| - 1].address else reg.heads.values[h]
    decreases |plan|
  {
    RunHeadPresent(reg, plan, build, h);
    if |plan| > 0 {
      var reg' := Next(reg, plan[0], build);
      NextHead(reg, plan[0], build, h);
      if Hits(plan[0], false, h) {
        assert For(plan, false, h) == [plan[0]] + For(plan[1..], false, h);
      } else {
        assert For(plan, false, h) == For(plan[1..], false, h);
      }
      RunHead(reg', plan[1..], build, h);
    }
  }

  /** The index of the first chunk call, or the plan's length when there is none. */
  function FirstChunk(plan: seq<Call>): (k: nat)
    ensures k <= |plan|
    ensures forall i :: 0 <= i < k ==> plan[i].HeadCall?
    ensures k < |plan| ==> plan[k].ChunkCall?
  {
    if |plan| == 0 || plan[0].ChunkCall? then 0 else 1 + FirstChunk(plan[1..])
  }

  /**
   * As written, the first chunk call raises `TypeError`: the run keeps the
   * heads written before it and records no chunk at all.
   */
  lemma {:induction false} ApplyNineArgs(t: Target, reg: R.Registry, plan: seq<Call>)
    requires R.Valid(reg)
    ensures var o := Apply(t, reg, plan, NineArgs);
      && (o.raised.Some? <==> FirstChunk(plan) < |plan|)
      && (o.raised.Some? ==> o.raised.value == TypeError)
      && o.reg.bins == reg.bins
      && o.reg == Apply(t, reg, plan[..FirstChunk(plan)], NineArgs).reg
    decreases |plan|
  {
    if |plan| > 0 {
      var k := FirstChunk(plan);
      if plan[0].HeadCall? {
        var reg' := R.AddBinHead(reg, plan[0].head, plan[0].address);
        ApplyNineArgs(t, reg', plan[1..]);
        assert plan[..k][1..] == plan[1..][..k - 1];
      } else {
        MakeChunkArity(t, plan[0].index, plan[0].addr, plan[0].layout, "");
        assert k == 0 && plan[..k] == [];
      }
    }
  }

  // ---------------------------------------------------------------- vhstate

  /**
   * The corrected records of the first `n` entries of a list: record `i`
   * carries index `i`, the `i`-th address, the words read at the layout's
   * offsets from it, and `v`.
   */
  lemma {:induction false} ChainRecords(t: Target, v: string, bin: string, chain: seq<nat>, layout: Layout, n: nat)
    requires n <= |chain|
    ensures var list := Records(Corrected(t, v), ChainCalls(bin, chain, layout, n));
      forall i :: 0 <= i < n ==> list[i] == WordsRecord(t, i, chain[i], layout, v)
  {
    var calls := ChainCalls(bin, chain, layout, n);
    forall i | 0 <= i < n
      ensures Records(Corrected(t, v), calls)[i] == WordsRecord(t, i, chain[i], layout, v)
    {
      RecordsAt(Corrected(t, v), calls, i);
    }
  }

  /**
   * When a plan's calls to a bin that starts out absent are the records of
   * the first `n` entries of a list, the bin ends up holding exactly those
   * records, in order.
   */
  lemma {:induction false} RunChainBin(t: Target, v: string, reg: R.Registry, plan: seq<Call>,
                    bin: string, chain: seq<nat>, layout: Layout, n: nat)
    requires R.Valid(reg) && bin !in reg.bins.values && n <= |chain|
    requires For(plan, true, bin) == ChainCalls(bin, chain, layout, n)
    ensures var list := ListOf(Run(reg, plan, Corrected(t, v)), bin);
      && |list| == n
      && forall i :: 0 <= i < n ==> list[i] == WordsRecord(t, i, chain[i], layout, v)
  {
    RunBin(reg, plan, Corrected(t, v), bin);
    ChainRecords(t, v, bin, chain, layout, n);
  }

  function PartOf(k: BinKind): (part: nat)
    ensures part < 5 && KindOfPart(part) == k
  {
    match k
    case TcacheBins => 0
    case FastBins => 1
    case UnsortedBin => 2
    case SmallBins => 3
    case LargeBins => 4
  }

  /** The calls of `vhstate` that write the `j`-th bin of kind `k` and its head are that bin's group. */
  lemma {:induction false} VhStatePlanBin(t: Target, s: Snapshot, k: BinKind, j: nat)
    requires SnapshotOk(s) && Slot(s, k).Some? && j < |Slot(s, k).value.bins|
    ensures SlotOk(Slot(s, k), k)
    ensures var c := Slot(s, k).value;
      var chain := BinAddrs(c.bins[j].entry);
      && For(VhStatePlan(t, s), true, BinName(k, Counter(c, j)))
           == (if chain[0] == 0 then []
               else ChainCalls(BinName(k, Counter(c, j)), chain, LayoutOf(k), |chain| - 1))
      && For(VhStatePlan(t, s), false, HeadName(k, Counter(c, j)))
           == (if chain[0] == 0 then [] else [HeadCall(HeadName(k, Counter(c, j)), Hex(chain[0]))])
  {
    SnapshotSlot(s, k);
    var c := Slot(s, k).value;
    PlanGroupFor(t, s, k, j, true);
    PlanGroupFor(t, s, k, j, false);
    GroupFor(c, j);
  }

  /** Within the whole plan, only the bin's own group writes its key. */
  lemma {:induction false} PlanGroupFor(t: Target, s: Snapshot, k: BinKind, j: nat, chunk: bool)
    requires SnapshotOk(s) && Slot(s, k).Some? && j < |Slot(s, k).value.bins|
    ensures SlotOk(Slot(s, k), k)
    ensures var c := Slot(s, k).value;
      For(VhStatePlan(t, s), chunk, GroupKey(c, j, chunk)) == For(GroupPlan(c, j), chunk, GroupKey(c, j, chunk))
  {
    SnapshotSlot(s, k);
    var c := Slot(s, k).value;
    var part := PartOf(k);
    var key := GroupKey(c, j, chunk);
    assert key[0] == Initial(part);
    PlanFor(t, s, part, chunk, key);
    assert Parts(t, s)[part] == CollectionPlan(c);
    CollectionFor(c, j, chunk);
  }

  /**
   * With the ten-argument call `vhstate` never raises, and afterwards the head
   * of the `j`-th bin of a kind is present exactly when the bin's head
   * address is non-zero, and then holds that address in hex.
   */
  lemma {:induction false} VhStateHead(t: Target, s: Snapshot, k: BinKind, j: nat, v: string)
    requires SnapshotOk(s) && Slot(s, k).Some? && j < |Slot(s, k).value.bins|
    ensures var c := Slot(s, k).value;
      var chain := BinAddrs(c.bins[j].entry);
      var o := VhState(t, s, TenArgs(v));
      var hn := HeadName(k, Counter(c, j));
      && o.raised.None?
      && (hn in o.reg.heads.values <==> chain[0] != 0)
      && (chain[0] != 0 ==> o.reg.heads.values[hn] == Hex(chain[0]))
  {
    VhStatePlanBin(t, s, k, j);
    var c := Slot(s, k).value;
    var plan := VhStatePlan(t, s);
    var hn := HeadName(k, Counter(c, j));
    ApplyTenArgs(t, R.ClearHeap(), plan, v);
    RunHeadPresent(R.ClearHeap(), plan, Corrected(t, v), hn);
    if BinAddrs(c.bins[j].entry)[0] != 0 {
      RunHead(R.ClearHeap(), plan, Corrected(t, v), hn);
    }
  }

  /**
   * With the ten-argument call, after `vhstate` the `j`-th bin of a kind holds
   * one record per listed address but the last (none when the head is 0);
   * record `i` is the `WordsRecord` of the `i`-th address at the kind's
   * offsets, with index `i`.
   */
  lemma {:induction false} VhStateBin(t: Target, s: Snapshot, k: BinKind, j: nat, v: string)
    requires SnapshotOk(s) && Slot(s, k).Some? && j < |Slot(s, k).value.bins|
    ensures var c := Slot(s, k).value;
      var chain := BinAddrs(c.bins[j].entry);
      var list := ListOf(VhState(t, s, TenArgs(v)).reg, BinName(k, Counter(c, j)));
      && |list| == (if chain[0] == 0 then 0 else |chain| - 1)
      && forall i :: 0 <= i < |list| ==> list[i] == WordsRecord(t, i, chain[i], LayoutOf(k), v)
  {
    VhStatePlanBin(t, s, k, j);
    var c := Slot(s, k).value;
    var chain := BinAddrs(c.bins[j].entry);
    var plan := VhStatePlan(t, s);
    var bn := BinName(k, Counter(c, j));
    ApplyTenArgs(t, R.ClearHeap(), plan, v);
    if chain[0] != 0 {
      RunChainBin(t, v, R.ClearHeap(), plan, bn, chain, LayoutOf(k), |chain| - 1);
    } else {
      RunBin(R.ClearHeap(), plan, Corrected(t, v), bn);
    }
  }

  /** The calls of `vhstate` that write `allchunks` and `allchunkshead` are those of `vhadd_allchunks`. */
  lemma {:induction false} VhStatePlanAll(t: Target, s: Snapshot)
    requires SnapshotOk(s)
    ensures var w := ChunkWalk(t, SkipPad(t, s.page.vaddr), RegionEnd(s.page));
      && For(VhStatePlan(t, s), true, "allchunks")
           == (if s.arenaKnown then ChainCalls("allchunks", w, WalkLayout, |w|) else [])
      && For(VhStatePlan(t, s), false, "allchunkshead")
           == (if s.arenaKnown then [HeadCall("allchunkshead", "all")] else [])
  {
    PlanFor(t, s, 5, true, "allchunks");
    PlanFor(t, s, 5, false, "allchunkshead");
    var w := ChunkWalk(t, SkipPad(t, s.page.vaddr), RegionEnd(s.page));
    if s.arenaKnown {
      var head := [HeadCall("allchunkshead", "all")];
      var calls := ChainCalls("allchunks", w, WalkLayout, |w|);
      assert Parts(t, s)[5] == head + calls;
      ForConcat(head, calls, true, "allchunks");
      ForConcat(head, calls, false, "allchunkshead");
      ForNone(head, true, "allchunks");
      ForAll(head, false, "allchunkshead");
      ForAll(calls, true, "allchunks");
      ForNone(calls, false, "allchunkshead");
    } else {
      assert Parts(t, s)[5] == [];
    }
  }

  /**
   * With the ten-argument call, after `vhstate` the `allchunks` bin holds one
   * record per chunk of the walk from the (pad-skipped) start of the heap,
   * read at the chunk address itself, and the `allchunkshead` head exists
   * exactly when a main arena is known.
   */
  lemma {:induction false} VhStateAllChunks(t: Target, s: Snapshot, v: string)
    requires SnapshotOk(s)
    ensures var o := VhState(t, s, TenArgs(v));
      var w := ChunkWalk(t, SkipPad(t, s.page.vaddr), RegionEnd(s.page));
      var list := ListOf(o.reg, "allchunks");
      && ("allchunkshead" in o.reg.heads.values <==> s.arenaKnown)
      && (s.arenaKnown ==> o.reg.heads.values["allchunkshead"] == "all")
      && |list| == (if s.arenaKnown then |w| else 0)
      && forall i :: 0 <= i < |list| ==> list[i] == WordsRecord(t, i, w[i], WalkLayout, v)
  {
    VhStatePlanAll(t, s);
    var plan := VhStatePlan(t, s);
    var w := ChunkWalk(t, SkipPad(t, s.page.vaddr), RegionEnd(s.page));
    ApplyTenArgs(t, R.ClearHeap(), plan, v);
    RunHeadPresent(R.ClearHeap(), plan, Corrected(t, v), "allchunkshead");
    if s.arenaKnown {
      RunHead(R.ClearHeap(), plan, Corrected(t, v), "allchunkshead");
      RunChainBin(t, v, R.ClearHeap(), plan, "allchunks", w, WalkLayout, |w|);
    } else {
      RunBin(R.ClearHeap(), plan, Corrected(t, v), "allchunks");
    }
  }

  /**
   * In an `allchunks` record `getfdbk` reads the chunk address itself, so its
   * `fd` is the chunk's `prev_size` and its `bk` the raw size word, flag bits
   * included; in a free-list record both are the words at the list layout's
   * link offset.
   */
  lemma {:induction false} WalkRecordLinks(t: Target, i: nat, a: nat, v: string)
    ensures var r := WordsRecord(t, i, a, WalkLayout, v);
      && r.fd == r.prevSize == Hex(t.mem(a))
      && r.bk == Hex(t.mem(a + t.ptrSize))
      && r.chunkSize == Hex(ClearFlagBits(t.mem(a + t.ptrSize)))
  {
    assert a + WalkLayout.headerOffset == a && a + WalkLayout.linkOffset == a;
    assert PrevSizeAt(t, a) == t.mem(a) && SizeAt(t, a) == t.mem(a + t.ptrSize);
  }

  /**
   * As written, `vhstate` records no chunk at all, and it raises `TypeError`
   * exactly when the corrected run would have recorded something.
   */
  lemma {:induction false} VhStateAsWritten(t: Target, s: Snapshot, v: string)
    requires SnapshotOk(s)
    ensures var o := VhState(t, s, NineArgs);
      && o.reg.bins.values == map[] && o.reg.bins.keys == []
      && (o.raised.Some? ==> o.raised.value == TypeError)
      && (o.raised.Some? <==> VhState(t, s, TenArgs(v)).reg.bins.values != map[])
  {
    var plan := VhStatePlan(t, s);
    ApplyNineArgs(t, R.ClearHeap(), plan);
    var k := FirstChunk(plan);
    ApplyTenArgs(t, R.ClearHeap(), plan, v);
    var bins := VhState(t, s, TenArgs(v)).reg.bins.values;
    if k < |plan| {
      FirstChunkFor(plan);
      RunBinPresent(R.ClearHeap(), plan, Corrected(t, v), plan[k].bin);
      assert plan[k].bin in bins;
    } else {
      forall b ensures b !in bins {
        ForNone(plan, true, b);
        RunBinPresent(R.ClearHeap(), plan, Corrected(t, v), b);
      }
      assert bins == map[];
    }
  }

  lemma {:induction false} FirstChunkFor(plan: seq<Call>)
    requires FirstChunk(plan) < |plan|
    ensures |For(plan, true, plan[FirstChunk(plan)].bin)| > 0
    decreases |plan|
  {
    if !plan[0].ChunkCall? {
      FirstChunkFor(plan[1..]);
    }
  }
}
