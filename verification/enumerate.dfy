/**
 * The sequential chunk enumerator of lib/heap.py: the walk `heap` and
 * `vhadd_allchunks` perform from the start of the heap region, and the
 * fallback walk `top_chunk` performs when the arena is unknown.
 */
module Enumerate {
  import opened Wrappers
  import opened Chunks

  /** A heap mapping: start address and size. */
  datatype Region = Region(vaddr: nat, memsz: nat)

  function RegionEnd(r: Region): nat {
    r.vaddr + r.memsz
  }

  /** The chunk size at `a` with the flag bits cleared (`size & ~7`). */
  function MaskedSizeAt(t: Target, a: int): nat {
    ClearFlagBits(SizeAt(t, a))
  }

  /**
   * Where the walk starts: two words further when the word at `addr + ptrsize`
   * is zero, which marks an alignment pad at the start of the heap.
   */
  function SkipPad(t: Target, addr: nat): nat {
    if t.mem(addr + t.ptrSize) == 0 then addr + 2 * t.ptrSize else addr
  }

  /**
   * Independent description of a sequential walk from `addr` to `end`: it
   * starts at `addr`, every address lies in `[addr, end)`, each next address
   * is the previous one plus its non-zero masked size, and the last address
   * either has masked size 0 or steps out of the region.
   */
  ghost predicate WalkShape(t: Target, addr: int, end: int, s: seq<nat>) {
    && (|s| == 0 <==> addr >= end)
    && (|s| > 0 ==> s[0] == addr)
    && (forall i :: 0 <= i < |s| ==> addr <= s[i] < end)
    && (forall i :: 0 <= i < |s| - 1 ==> StepOk(t, s, i))
    && (|s| > 0 ==>
          MaskedSizeAt(t, s[|s| - 1]) == 0 || s[|s| - 1] + MaskedSizeAt(t, s[|s| - 1]) >= end)
  }

  /** From the `i`-th address the walk moves on by that chunk's non-zero masked size. */
  ghost predicate StepOk(t: Target, s: seq<nat>, i: int)
    requires 0 <= i < |s| - 1
  {
    MaskedSizeAt(t, s[i]) > 0 && s[i + 1] == s[i] + MaskedSizeAt(t, s[i])
  }

  /**
   * The addresses of the chunks visited by the `while addr < end` loop of
   * `heap` and `vhadd_allchunks`; the chunk whose masked size is 0 is visited
   * (and recorded) before the loop breaks.
   */
  function ChunkWalk(t: Target, addr: nat, end: int): seq<nat>
    decreases end - addr
  {
    if addr >= end then []
    else
      var size := MaskedSizeAt(t, addr);
      if size == 0 then [addr] else [addr] + ChunkWalk(t, addr + size, end)
  }

  /** The walk has the shape its description demands. */
  lemma {:induction false} ChunkWalkShape(t: Target, addr: nat, end: int)
    ensures WalkShape(t, addr, end, ChunkWalk(t, addr, end))
    decreases end - addr
  {
    var size := MaskedSizeAt(t, addr);
    if addr < end && size > 0 {
      ChunkWalkShape(t, addr + size, end);
      var rest := ChunkWalk(t, addr + size, end);
      var r := [addr] + rest;
      assert ChunkWalk(t, addr, end) == r;
      assert forall i :: 1 <= i < |r| ==> r[i] == rest[i - 1];
      forall i | 1 <= i < |r| - 1 ensures StepOk(t, r, i) {
        assert StepOk(t, rest, i - 1);
      }
    }
  }

  /** A walk only ever moves forward: its addresses are strictly ascending. */
  lemma {:induction false} WalkAscending(t: Target, addr: nat, end: int, i: nat, j: nat)
    requires i < j < |ChunkWalk(t, addr, end)|
    ensures ChunkWalk(t, addr, end)[i] < ChunkWalk(t, addr, end)[j]
    decreases j - i
  {
    var w := ChunkWalk(t, addr, end);
    ChunkWalkShape(t, addr, end);
    assert StepOk(t, w, j - 1);
    if j > i + 1 {
      WalkAscending(t, addr, end, i, j - 1);
    }
  }

  /** Nothing else satisfies the walk's description: it is the only such sequence. */
  lemma {:induction false} WalkShapeUnique(t: Target, addr: nat, end: int, s: seq<nat>)
    requires WalkShape(t, addr, end, s)
    ensures s == ChunkWalk(t, addr, end)
    decreases end - addr
  {
    if addr < end {
      var size := MaskedSizeAt(t, addr);
      if |s| == 1 {
        assert s == [addr];
        if size > 0 {
          assert ChunkWalk(t, addr + size, end) == [];
        }
      } else {
        assert StepOk(t, s, 0);
        var rest := s[1..];
        WalkShapeTail(t, addr, end, s);
        WalkShapeUnique(t, addr + size, end, rest);
        assert s == [addr] + rest;
      }
    }
  }

  /** Past its first address, a walk is the walk from the second one. */
  lemma {:induction false} WalkShapeTail(t: Target, addr: int, end: int, s: seq<nat>)
    requires WalkShape(t, addr, end, s) && |s| > 1
    ensures s[1] == addr + MaskedSizeAt(t, addr)
    ensures WalkShape(t, s[1], end, s[1..])
  {
    assert StepOk(t, s, 0);
    var rest := s[1..];
    forall i | 0 <= i < |rest| ensures s[1] <= rest[i] < end {
      assert rest[i] == s[i + 1];
      WalkShapeMonotone(t, addr, end, s, 1, i + 1);
    }
    forall i | 0 <= i < |rest| - 1 ensures StepOk(t, rest, i) {
      assert StepOk(t, s, i + 1);
      assert rest[i] == s[i + 1] && rest[i + 1] == s[i + 2];
    }
    assert rest[|rest| - 1] == s[|s| - 1];
  }

  lemma {:induction false} WalkShapeMonotone(t: Target, addr: int, end: int, s: seq<nat>, i: nat, j: nat)
    requires WalkShape(t, addr, end, s)
    requires i <= j < |s|
    ensures s[i] <= s[j]
    decreases j - i
  {
    if i < j {
      WalkShapeMonotone(t, addr, end, s, i, j - 1);
      assert StepOk(t, s, j - 1);
    }
  }

  /** The walk can be restarted from any address it visits and yields the rest of it. */
  lemma {:induction false} WalkRestart(t: Target, addr: nat, end: int, k: nat)
    requires k < |ChunkWalk(t, addr, end)|
    ensures ChunkWalk(t, ChunkWalk(t, addr, end)[k], end) == ChunkWalk(t, addr, end)[k..]
    decreases k
  {
    if k > 0 {
      var w := ChunkWalk(t, addr, end);
      var next := addr + MaskedSizeAt(t, addr);
      assert w[1..] == ChunkWalk(t, next, end);
      WalkRestart(t, next, end, k - 1);
      assert w[k..] == w[1..][k - 1..];
    }
  }

  function SizesBefore(t: Target, s: seq<nat>, n: nat): int
    requires n <= |s|
  {
    if n == 0 then 0 else SizesBefore(t, s, n - 1) + MaskedSizeAt(t, s[n - 1])
  }

  /** The masked sizes of all chunks but the last add up to the distance from the first to the last. */
  lemma {:induction false} WalkSizesSum(t: Target, addr: nat, end: int, n: nat)
    requires 0 < n <= |ChunkWalk(t, addr, end)|
    ensures var w := ChunkWalk(t, addr, end);
      SizesBefore(t, w, n - 1) == w[n - 1] as int - w[0]
  {
    ChunkWalkShape(t, addr, end);
    if n > 1 {
      WalkSizesSum(t, addr, end, n - 1);
      assert StepOk(t, ChunkWalk(t, addr, end), n - 2);
    }
  }

  /**
   * The `heap` command: nothing when no arena is known; otherwise the walk from
   * the given address (the region start by default) after the pad check, up
   * to the end of the region. Each visited chunk is printed by `malloc_chunk`.
   */
  function HeapCommand(t: Target, arenaKnown: bool, page: Region, addr: Option<nat>): (r: Option<seq<nat>>)
    ensures r.Some? <==> arenaKnown
    ensures r.Some? ==>
      var a := if addr.Some? then addr.value else page.vaddr;
      var start := if t.mem(a + t.ptrSize) == 0 then a + 2 * t.ptrSize else a;
      WalkShape(t, start, RegionEnd(page), r.value)
  {
    if !arenaKnown then None
    else
      var a := if addr.Some? then addr.value else page.vaddr;
      ChunkWalkShape(t, SkipPad(t, a), RegionEnd(page));
      Some(ChunkWalk(t, SkipPad(t, a), RegionEnd(page)))
  }

  // ---------------------------------------------------------------- top_chunk

  /**
   * What `top_chunk` hands to `malloc_chunk`: an address; nothing when the
   * heap region is unknown; a `TypeError` when the fallback loop never ran
   * (`malloc_chunk(None)`); or no answer because the loop does not end.
   */
  datatype TopOutcome = TopAt(addr: int) | HeapNotFound | NoChunkRead | Diverges

  /**
   * The fallback loop of `top_chunk` as written: it advances by the masked
   * size twice per step and has no zero-size stop. `fuel` bounds the number of
   * steps; running out of it stands for a loop that never ends.
   */
  function TopWalkAsWritten(t: Target, addr: int, end: int, last: Option<int>, fuel: nat): TopOutcome
    decreases fuel
  {
    if addr >= end then (if last.None? then NoChunkRead else TopAt(last.value))
    else if fuel == 0 then Diverges
    else
      var size := MaskedSizeAt(t, addr);
      TopWalkAsWritten(t, addr + size + size, end, Some(addr), fuel - 1)
  }

  /** `top_chunk(addr)` as written: the arena's `top` field when the arena is known. */
  function TopChunkAsWritten(t: Target, arenaTop: Option<nat>, region: Option<Region>, fuel: nat): TopOutcome {
    if arenaTop.Some? then TopAt(arenaTop.value)
    else if region.None? then HeapNotFound
    else TopWalkAsWritten(t, region.value.vaddr, RegionEnd(region.value), None, fuel)
  }

  /** Once the fallback loop meets a chunk of masked size 0 inside the region it never ends. */
  lemma {:induction false} TopWalkZeroSizeDiverges(t: Target, addr: int, end: int, last: Option<int>, fuel: nat)
    requires addr < end && MaskedSizeAt(t, addr) == 0
    ensures TopWalkAsWritten(t, addr, end, last, fuel) == Diverges
    decreases fuel
  {
    if fuel > 0 {
      TopWalkZeroSizeDiverges(t, addr, end, Some(addr), fuel - 1);
    }
  }

  /** An answer found with some fuel is found with any larger fuel. */
  lemma {:induction false} TopWalkFuelMonotone(t: Target, addr: int, end: int, last: Option<int>, fuel: nat, more: nat)
    requires fuel <= more
    requires TopWalkAsWritten(t, addr, end, last, fuel) != Diverges
    ensures TopWalkAsWritten(t, addr, end, last, more) == TopWalkAsWritten(t, addr, end, last, fuel)
    decreases fuel
  {
    if addr < end {
      var size := MaskedSizeAt(t, addr);
      TopWalkFuelMonotone(t, addr + size + size, end, Some(addr), fuel - 1, more - 1);
    }
  }

  /**
   * `top_chunk` with the fallback corrected: it skips the alignment pad as
   * `heap` does and then walks one chunk at a time with the enumerator's
   * zero-size stop, so the top chunk is the last chunk that walk visits. With
   * a known arena the answer is the arena's `top` field.
   */
  function TopChunk(t: Target, arenaTop: Option<nat>, region: Option<Region>): (r: TopOutcome)
    ensures r != Diverges
    ensures arenaTop.Some? ==> r == TopAt(arenaTop.value)
    ensures arenaTop.None? && region.None? ==> r == HeapNotFound
    ensures arenaTop.None? && region.Some? ==>
      var start := SkipPad(t, region.value.vaddr);
      var w := ChunkWalk(t, start, RegionEnd(region.value));
      && (r.TopAt? <==> start < RegionEnd(region.value))
      && (r.TopAt? ==> |w| > 0 && r.addr == w[|w| - 1] && start <= r.addr < RegionEnd(region.value))
      && (r == NoChunkRead <==> start >= RegionEnd(region.value))
  {
    if arenaTop.Some? then TopAt(arenaTop.value)
    else if region.None? then HeapNotFound
    else
      var start := SkipPad(t, region.value.vaddr);
      ChunkWalkShape(t, start, RegionEnd(region.value));
      var w := ChunkWalk(t, start, RegionEnd(region.value));
      if |w| == 0 then NoChunkRead else TopAt(w[|w| - 1])
  }

  /** An empty region yields no chunk; a region without the pad and of non-zero size yields a top chunk. */
  lemma {:induction false} TopChunkRegion(t: Target, region: Region)
    ensures region.memsz == 0 ==> TopChunk(t, None, Some(region)) == NoChunkRead
    ensures region.memsz > 0 && t.mem(region.vaddr + t.ptrSize) != 0 ==> TopChunk(t, None, Some(region)).TopAt?
  {
  }

  /**
   * A heap of a 0x20-byte chunk at 0x1000, a 0x30-byte chunk at 0x1020 and
   * the top chunk at 0x1050 filling the region up to 0x22000.
   */
  function ThreeChunkHeap(): Target {
    Target(8,
      a => if a == 0x1008 then 0x21 else if a == 0x1028 then 0x31 else if a == 0x1058 then 0x20fb1 else 0,
      s => Flags(s % 2, 0, 0),
      true)
  }

  /**
   * On that heap the fallback as written jumps from 0x1000 to 0x1040, into the
   * middle of the second chunk, reads a zero size there and never ends, while
   * the corrected fallback reports the top chunk at 0x1050.
   */
  lemma {:induction false} TopWalkSkipsChunks(fuel: nat)
    ensures TopChunkAsWritten(ThreeChunkHeap(), None, Some(Region(0x1000, 0x21000)), fuel) == Diverges
    ensures TopChunk(ThreeChunkHeap(), None, Some(Region(0x1000, 0x21000))) == TopAt(0x1050)
  {
    ThreeChunkAsWritten(fuel);
    ThreeChunkWalk();
  }

  lemma {:induction false} ThreeChunkAsWritten(fuel: nat)
    ensures TopWalkAsWritten(ThreeChunkHeap(), 0x1000, 0x22000, None, fuel) == Diverges
  {
    var t := ThreeChunkHeap();
    assert MaskedSizeAt(t, 0x1000) == 0x20;
    assert MaskedSizeAt(t, 0x1040) == 0;
    if fuel > 0 {
      TopWalkZeroSizeDiverges(t, 0x1040, 0x22000, Some(0x1000), fuel - 1);
    }
  }

  lemma {:induction false} ThreeChunkWalk()
    ensures ChunkWalk(ThreeChunkHeap(), 0x1000, 0x22000) == [0x1000, 0x1020, 0x1050]
  {
    var t := ThreeChunkHeap();
    assert MaskedSizeAt(t, 0x1050) == 0x20fb0;
    assert ChunkWalk(t, 0x1050, 0x22000) == [0x1050];
    assert MaskedSizeAt(t, 0x1020) == 0x30;
    assert ChunkWalk(t, 0x1020, 0x22000) == [0x1020, 0x1050];
    assert MaskedSizeAt(t, 0x1000) == 0x20;
  }
}
