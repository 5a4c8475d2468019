/**
 * `vis_heap_chunks` (lib/heap.py): the map from word-sized cells to the chunk
 * they belong to, built by walking at most `count` chunks from an address,
 * and the grid of rows drawn from it, with colour groups, the printable
 * bytes of each cell (`bin_ascii`) and the bin-membership labels
 * (`bin_labels`, `bin_addrs`).
 */
module Grid {
  import opened Wrappers
  import opened Bytes
  import opened Chunks
  import opened Bins

  /**
   * What the command reads. `alignment` is the allocator's
   * `malloc_align_mask + 1`.
   */
  datatype GridTarget = GridTarget(ptrSize: nat, endian: Endian, byteAt: int -> byte, alignment: nat)

  predicate ValidGridTarget(t: GridTarget) {
    ValidPtrSize(t.ptrSize) && (t.alignment == 8 || t.alignment == 16)
  }

  /** `pwndbg.arch.unpack(pwndbg.memory.read(a, ptrsize))` */
  function WordAt(t: GridTarget, a: int): nat {
    Word(t.endian, Read(t.byteAt, a, t.ptrSize))
  }

  /** One entry of `cells_map`: a cell address and the chunk id it is drawn with. */
  datatype Cell = Cell(addr: int, id: int)

  predicate Ascending(cells: seq<Cell>) {
    forall i, j :: 0 <= i < j < |cells| ==> cells[i].addr < cells[j].addr
  }

  predicate Below(cells: seq<Cell>, a: int) {
    forall i :: 0 <= i < |cells| ==> cells[i].addr < a
  }

  predicate IdsAtMost(cells: seq<Cell>, n: int) {
    forall i :: 0 <= i < |cells| ==> cells[i].id <= n
  }

  /** The cells one chunk fills, and the address the filling stopped at. */
  datatype Fill = Fill(cells: seq<Cell>, next: int)

  /**
   * The inner loop: give chunk `id` every cell from `address`, one word at a
   * time, while below `stop` and, unless naive, below the top chunk.
   */
  function FillFrom(ps: nat, address: int, stop: int, top: int, naive: bool, id: int): (f: Fill)
    requires ps > 0
    decreases stop - address
    ensures Ascending(f.cells) && address <= f.next
    ensures forall i :: 0 <= i < |f.cells| ==>
      f.cells[i].id == id && address <= f.cells[i].addr < f.next && (naive || f.cells[i].addr < top)
  {
    if address < stop && (naive || address < top) then
      var rest := FillFrom(ps, address + ps, stop, top, naive, id);
      ConsAscending(Cell(address, id), rest.cells);
      Fill([Cell(address, id)] + rest.cells, rest.next)
    else Fill([], address)
  }

  lemma {:induction false} ConsAscending(c: Cell, cells: seq<Cell>)
    requires Ascending(cells) && forall i :: 0 <= i < |cells| ==> c.addr < cells[i].addr
    ensures Ascending([c] + cells)
  {
    var s := [c] + cells;
    forall i, j | 0 <= i < j < |s| ensures s[i].addr < s[j].addr {
      assert s[j] == cells[j - 1];
      if i > 0 { assert s[i] == cells[i - 1]; }
    }
  }

  /**
   * The fill starts at `address`, stays below `stop`, and ends at the first
   * word that is not below `stop` or, unless naive, not below the top chunk.
   */
  lemma {:induction false} FillBounds(ps: nat, address: int, stop: int, top: int, naive: bool, id: int)
    requires ps > 0
    decreases stop - address
    ensures var f := FillFrom(ps, address, stop, top, naive, id);
      && (|f.cells| == 0 <==> f.next == address)
      && (|f.cells| > 0 ==> f.cells[0] == Cell(address, id) && f.next == f.cells[|f.cells| - 1].addr + ps)
      && (forall i :: 0 <= i < |f.cells| ==> f.cells[i].addr < stop)
      && !(f.next < stop && (naive || f.next < top))
  {
    if address < stop && (naive || address < top) {
      FillBounds(ps, address + ps, stop, top, naive, id);
    }
  }

  /** Consecutive cells of one chunk are one word apart. */
  lemma {:induction false} FillSteps(ps: nat, address: int, stop: int, top: int, naive: bool, id: int, i: nat)
    requires ps > 0
    requires i + 1 < |FillFrom(ps, address, stop, top, naive, id).cells|
    decreases stop - address
    ensures var f := FillFrom(ps, address, stop, top, naive, id);
      f.cells[i + 1].addr == f.cells[i].addr + ps
  {
    var f := FillFrom(ps, address, stop, top, naive, id);
    var rest := FillFrom(ps, address + ps, stop, top, naive, id);
    assert f.cells == [Cell(address, id)] + rest.cells;
    if i > 0 {
      FillSteps(ps, address + ps, stop, top, naive, id, i - 1);
      assert f.cells[i] == rest.cells[i - 1] && f.cells[i + 1] == rest.cells[i];
    } else {
      FillBounds(ps, address + ps, stop, top, naive, id);
      assert f.cells[1] == rest.cells[0];
    }
  }

  predicate HasCell(cells: seq<Cell>, key: int) {
    exists i :: 0 <= i < |cells| && cells[i].addr == key
  }

  function IndexOf(cells: seq<Cell>, key: int): (r: Option<nat>)
    ensures r.Some? ==> r.value < |cells| && cells[r.value].addr == key
    ensures r.None? ==> forall i :: 0 <= i < |cells| ==> cells[i].addr != key
  {
    if |cells| == 0 then None
    else if cells[|cells| - 1].addr == key then Some(|cells| - 1)
    else IndexOf(cells[..|cells| - 1], key)
  }

  /**
   * `cells_map[key] -= 1`: the cell at `key` moves to the previous chunk's
   * colour, nothing else changes, and a missing key raises `KeyError`.
   */
  function Decrement(cells: seq<Cell>, key: int): (r: Result<seq<Cell>>)
    requires Ascending(cells)
    ensures r.Ok? <==> HasCell(cells, key)
    ensures r.Err? ==> r.error == KeyError
    ensures r.Ok? ==> |r.value| == |cells|
    ensures r.Ok? ==> forall i :: 0 <= i < |cells| ==>
      r.value[i] == if cells[i].addr == key then Cell(key, cells[i].id - 1) else cells[i]
  {
    match IndexOf(cells, key)
    case None => Err(KeyError)
    case Some(i) => Ok(cells[i := Cell(key, cells[i].id - 1)])
  }

  /**
   * One pass of the outer loop body before the top-chunk test, given the
   * chunk's size word `currentSize`: fill chunk `id` from `address` up to its
   * masked size and, when its prev-in-use bit
   * is set (unless, in the default mode, the fill ended exactly at the top
   * chunk), move the cell `real_size` below the fill's end to the previous
   * chunk. The cells stay ascending and below the new address; in the
   * default mode no cell reaches the top chunk.
   */
  function ChunkStep(t: GridTarget, currentSize: nat, cells: seq<Cell>, address: int, id: int, top: int, naive: bool): (r: Result<Fill>)
    requires ValidGridTarget(t)
    requires Ascending(cells) && Below(cells, address)
    ensures r.Ok? ==> Ascending(r.value.cells) && Below(r.value.cells, r.value.next) && address <= r.value.next
    ensures r.Ok? && IdsAtMost(cells, id) ==> IdsAtMost(r.value.cells, id)
    ensures r.Ok? && !naive && Below(cells, top) ==> Below(r.value.cells, top)
    ensures r.Err? ==> r.error == KeyError
  {
    SettleFill(cells, address, AlignDown(currentSize, t.alignment), currentSize % 2 == 1,
      FillFrom(t.ptrSize, address, address + AlignDown(currentSize, t.alignment), top, naive, id), id, top, naive)
  }

  /** The settle step after a fill of `realSize` bytes from `address`. */
  function SettleFill(cells: seq<Cell>, address: int, realSize: nat, prevInuse: bool, fill: Fill, id: int, top: int, naive: bool): (r: Result<Fill>)
    requires Ascending(cells) && Below(cells, address)
    requires Ascending(fill.cells) && address <= fill.next
    requires forall i :: 0 <= i < |fill.cells| ==>
      fill.cells[i].id == id && address <= fill.cells[i].addr < fill.next && (naive || fill.cells[i].addr < top)
    ensures r.Ok? ==> Ascending(r.value.cells) && Below(r.value.cells, r.value.next) && address <= r.value.next
    ensures r.Ok? && IdsAtMost(cells, id) ==> IdsAtMost(r.value.cells, id)
    ensures r.Ok? && !naive && Below(cells, top) ==> Below(r.value.cells, top)
    ensures r.Err? ==> r.error == KeyError
  {
    AppendFill(cells, fill, address, id, top);
    Settle(cells + fill.cells, fill.next, fill.next - realSize, prevInuse && (naive || fill.next != top), id, top)
  }

  /** The prev-in-use decrement of the cell at `key`, when `decrement` is set. */
  function Settle(filled: seq<Cell>, a: int, key: int, decrement: bool, id: int, top: int): (r: Result<Fill>)
    requires Ascending(filled) && Below(filled, a)
    ensures r.Ok? ==> Ascending(r.value.cells) && Below(r.value.cells, a) && r.value.next == a
    ensures r.Ok? && IdsAtMost(filled, id) ==> IdsAtMost(r.value.cells, id)
    ensures r.Ok? && Below(filled, top) ==> Below(r.value.cells, top)
    ensures r.Err? ==> r.error == KeyError
  {
    if decrement then
      DecrementKeeps(filled, key, a, id, top);
      match Decrement(filled, key)
      case Err(e) => Err(e)
      case Ok(cs) => Ok(Fill(cs, a))
    else Ok(Fill(filled, a))
  }

  /** A decrement keeps the cells' addresses and never raises an id. */
  lemma {:induction false} DecrementKeeps(cells: seq<Cell>, key: int, a: int, id: int, top: int)
    requires Ascending(cells)
    ensures var r := Decrement(cells, key);
      r.Ok? ==>
        && (Below(cells, a) ==> Ascending(r.value) && Below(r.value, a))
        && (IdsAtMost(cells, id) ==> IdsAtMost(r.value, id))
        && (Below(cells, top) ==> Below(r.value, top))
  {
    var r := Decrement(cells, key);
    if r.Ok? {
      assert forall i :: 0 <= i < |cells| ==> r.value[i].addr == cells[i].addr && r.value[i].id <= cells[i].id;
    }
  }

  /** The result of the walk: the cells, and whether it stopped at the top chunk. */
  datatype Walked = Walked(cells: seq<Cell>, reachedTop: bool)

  /** The cells the walk put below the top chunk: all but the top chunk's two header cells. */
  function BodyCells(w: Walked): seq<Cell> {
    if w.reachedTop && |w.cells| >= 2 then w.cells[..|w.cells| - 2] else w.cells
  }

  /**
   * The last two cells are the top chunk's header words: at or above the
   * top chunk, one word apart, with the same id.
   */
  predicate EndsAtTop(cells: seq<Cell>, top: int, ps: nat) {
    var n := |cells|;
    && n >= 2 && cells[n - 2].addr >= top
    && cells[n - 1].addr == cells[n - 2].addr + ps
    && cells[n - 1].id == cells[n - 2].id
  }

  /** `cells_map[address] = cells_map[address + ptrsize] = chunk_id` at the top chunk. */
  function AddTop(cells: seq<Cell>, a: int, id: int, ps: nat, top: int): (w: Walked)
    requires Ascending(cells) && Below(cells, a) && ps > 0 && a >= top
    ensures w.reachedTop && Ascending(w.cells) && BodyCells(w) == cells
    ensures EndsAtTop(w.cells, top, ps) && w.cells[|w.cells| - 1].id == id
    ensures IdsAtMost(cells, id) ==> IdsAtMost(w.cells, id)
  {
    var out := cells + [Cell(a, id), Cell(a + ps, id)];
    assert out[..|out| - 2] == cells;
    assert Ascending(out) by {
      forall i, j | 0 <= i < j < |out| ensures out[i].addr < out[j].addr {
        if j < |cells| { assert out[i] == cells[i] && out[j] == cells[j]; }
        else if i < |cells| { assert out[i] == cells[i]; }
      }
    }
    Walked(out, true)
  }

  /**
   * The outer loop from chunk `id` at `address`, where `sizeOf(a)` is the
   * size word of the chunk at `a`: one chunk step, then, once
   * the top chunk is reached, its two header cells get the next id and the
   * walk stops. The cells are never assigned twice (the source's `assert
   * address not in cells_map` holds), so their insertion order is the
   * sorted order of the map's keys.
   */
  function Walk(t: GridTarget, sizeOf: int -> nat, cells: seq<Cell>, address: int, id: int, count: int, top: int, naive: bool): (r: Result<Walked>)
    requires ValidGridTarget(t)
    requires Ascending(cells) && Below(cells, address)
    decreases count - id
    ensures r.Ok? ==> Ascending(r.value.cells)
    ensures r.Ok? && IdsAtMost(cells, id) ==> IdsAtMost(r.value.cells, if id < count then count else id)
    ensures r.Err? ==> r.error == KeyError
  {
    if id >= count then Ok(Walked(cells, false))
    else
      match ChunkStep(t, sizeOf(address), cells, address, id, top, naive)
      case Err(e) => Err(e)
      case Ok(step) =>
        var a := step.next;
        IdsRaise(step.cells, id, id + 1);
        if a >= top then
          var w := AddTop(step.cells, a, id + 1, t.ptrSize, top);
          IdsRaise(w.cells, id + 1, count);
          Ok(w)
        else Walk(t, sizeOf, step.cells, a, id + 1, count, top, naive)
  }

  /** A fill that starts above every existing cell keeps the cells ascending. */
  lemma {:induction false} AppendFill(cells: seq<Cell>, f: Fill, address: int, id: int, top: int)
    requires Ascending(cells) && Below(cells, address)
    requires forall i :: 0 <= i < |f.cells| ==> address <= f.cells[i].addr < f.next
    requires Ascending(f.cells)
    requires address <= f.next
    ensures Ascending(cells + f.cells) && Below(cells + f.cells, f.next)
    ensures IdsAtMost(cells, id) && (forall i :: 0 <= i < |f.cells| ==> f.cells[i].id == id) ==>
      IdsAtMost(cells + f.cells, id)
    ensures Below(cells, top) && (forall i :: 0 <= i < |f.cells| ==> f.cells[i].addr < top) ==>
      Below(cells + f.cells, top)
  {
    var s := cells + f.cells;
    forall i, j | 0 <= i < j < |s| ensures s[i].addr < s[j].addr {
      if j >= |cells| {
        assert s[j] == f.cells[j - |cells|];
        if i >= |cells| { assert s[i] == f.cells[i - |cells|]; }
      }
    }
  }

  lemma {:induction false} IdsRaise(cells: seq<Cell>, n: int, m: int)
    requires n <= m
    ensures IdsAtMost(cells, n) ==> IdsAtMost(cells, m)
  {
    if IdsAtMost(cells, n) {
      forall i | 0 <= i < |cells| ensures cells[i].id <= m {
        assert cells[i].id <= n;
      }
    }
  }

  /**
   * When the walk reaches the top chunk it ends on that chunk's two header
   * words, one word apart and with the same id, at or above the top chunk.
   */
  lemma {:induction false} WalkTop(t: GridTarget, sizeOf: int -> nat, cells: seq<Cell>, address: int, id: int, count: int, top: int, naive: bool)
    requires ValidGridTarget(t)
    requires Ascending(cells) && Below(cells, address)
    decreases count - id
    ensures var r := Walk(t, sizeOf, cells, address, id, count, top, naive);
      r.Ok? && r.value.reachedTop ==> EndsAtTop(r.value.cells, top, t.ptrSize)
  {
    if id < count {
      var r := Walk(t, sizeOf, cells, address, id, count, top, naive);
      var step := ChunkStep(t, sizeOf(address), cells, address, id, top, naive);
      if step.Ok? {
        var st := step.value;
        if st.next < top {
          assert r == Walk(t, sizeOf, st.cells, st.next, id + 1, count, top, naive);
          WalkTop(t, sizeOf, st.cells, st.next, id + 1, count, top, naive);
        } else {
          assert r == Ok(AddTop(st.cells, st.next, id + 1, t.ptrSize, top));
        }
      }
    }
  }

  /**
   * In the default (non-naive) mode every cell the walk fills lies below the
   * top chunk; only the top chunk's own two header cells are at or above it.
   */
  lemma {:induction false} WalkBelowTop(t: GridTarget, sizeOf: int -> nat, cells: seq<Cell>, address: int, id: int, count: int, top: int)
    requires ValidGridTarget(t)
    requires Ascending(cells) && Below(cells, address) && Below(cells, top)
    decreases count - id
    ensures var r := Walk(t, sizeOf, cells, address, id, count, top, false);
      r.Ok? ==> Below(BodyCells(r.value), top)
  {
    if id < count {
      var r := Walk(t, sizeOf, cells, address, id, count, top, false);
      var step := ChunkStep(t, sizeOf(address), cells, address, id, top, false);
      if step.Ok? {
        var st := step.value;
        if st.next < top {
          assert r == Walk(t, sizeOf, st.cells, st.next, id + 1, count, top, false);
          WalkBelowTop(t, sizeOf, st.cells, st.next, id + 1, count, top);
        } else {
          assert r == Ok(AddTop(st.cells, st.next, id + 1, t.ptrSize, top));
        }
      }
    }
  }

  lemma {:induction false} FillReachesStop(ps: nat, address: int, n: nat, top: int, naive: bool, id: int)
    requires ps > 0 && (naive || address + n * ps <= top)
    decreases n
    ensures FillFrom(ps, address, address + n * ps, top, naive, id).next == address + n * ps
  {
    if n > 0 {
      assert address + n * ps == (address + ps) + (n - 1) * ps;
      FillReachesStop(ps, address + ps, n - 1, top, naive, id);
    }
  }

  /** How many words of `ps` bytes a masked chunk size spans. */
  function WordCount(realSize: nat, ps: nat): (n: nat)
    requires realSize % 8 == 0 && ValidPtrSize(ps)
    ensures n * ps == realSize
  {
    if ps == 4 then realSize / 4 else realSize / 8
  }

  /** A masked size spans whole words, so the fill of an unobstructed chunk ends exactly at its end. */
  lemma {:induction false} FillWholeChunk(ps: nat, address: int, realSize: nat, top: int, naive: bool, id: int)
    requires ValidPtrSize(ps) && realSize % 8 == 0 && (naive || address + realSize <= top)
    ensures FillFrom(ps, address, address + realSize, top, naive, id).next == address + realSize
  {
    var n := WordCount(realSize, ps);
    FillReachesStop(ps, address, n, top, naive, id);
  }

  /** The fill of a whole chunk of non-zero size starts with its first cell and ends at its end. */
  lemma {:induction false} ChunkFill(ps: nat, address: int, realSize: nat, top: int, naive: bool, id: int)
    requires ValidPtrSize(ps) && realSize % 8 == 0 && realSize > 0 && (naive || address + realSize <= top)
    ensures var fill := FillFrom(ps, address, address + realSize, top, naive, id);
      && |fill.cells| > 0 && fill.cells[0] == Cell(address, id) && fill.next == address + realSize
  {
    FillWholeChunk(ps, address, realSize, top, naive, id);
    FillBounds(ps, address, address + realSize, top, naive, id);
  }

  /**
   * A whole chunk of non-zero size: its cells all get its id, except that
   * its first cell goes to the previous chunk when the size's prev-in-use
   * bit is set, unless, in the default mode, the chunk ends exactly at the
   * top chunk. Earlier cells are untouched.
   */
  lemma {:induction false} ChunkStepPrevInuse(t: GridTarget, size: nat, cells: seq<Cell>, address: int, id: int, top: int, naive: bool)
    requires ValidGridTarget(t)
    requires Ascending(cells) && Below(cells, address)
    requires AlignDown(size, t.alignment) > 0 && (naive || address + AlignDown(size, t.alignment) <= top)
    ensures var realSize := AlignDown(size, t.alignment);
      var fill := FillFrom(t.ptrSize, address, address + realSize, top, naive, id);
      var first := if size % 2 == 1 && (naive || address + realSize != top) then id - 1 else id;
      ChunkStep(t, size, cells, address, id, top, naive)
        == Ok(Fill(cells + [Cell(address, first)] + fill.cells[1..], address + realSize))
  {
    var realSize := AlignDown(size, t.alignment);
    var fill := FillFrom(t.ptrSize, address, address + realSize, top, naive, id);
    var settled := SettleFill(cells, address, realSize, size % 2 == 1, fill, id, top, naive);
    assert ChunkStep(t, size, cells, address, id, top, naive) == settled by {
      ChunkStepIs(t, size, cells, address, id, top, naive);
    }
    var first := if size % 2 == 1 && (naive || address + realSize != top) then id - 1 else id;
    assert settled == Ok(Fill(cells + [Cell(address, first)] + fill.cells[1..], address + realSize)) by {
      FillSettles(t.ptrSize, cells, address, realSize, size % 2 == 1, id, top, naive);
    }
  }

  lemma {:induction false} ChunkStepIs(t: GridTarget, size: nat, cells: seq<Cell>, address: int, id: int, top: int, naive: bool)
    requires ValidGridTarget(t)
    requires Ascending(cells) && Below(cells, address)
    ensures var realSize := AlignDown(size, t.alignment);
      ChunkStep(t, size, cells, address, id, top, naive)
        == SettleFill(cells, address, realSize, size % 2 == 1, FillFrom(t.ptrSize, address, address + realSize, top, naive, id), id, top, naive)
  {
  }

  /** `ChunkStepPrevInuse` for a masked size `realSize` and prev-in-use bit `prevInuse`. */
  lemma {:induction false} FillSettles(ps: nat, cells: seq<Cell>, address: int, realSize: nat, prevInuse: bool, id: int, top: int, naive: bool)
    requires ValidPtrSize(ps) && realSize % 8 == 0 && realSize > 0 && (naive || address + realSize <= top)
    requires Ascending(cells) && Below(cells, address)
    ensures var fill := FillFrom(ps, address, address + realSize, top, naive, id);
      var first := if prevInuse && (naive || address + realSize != top) then id - 1 else id;
      SettleFill(cells, address, realSize, prevInuse, fill, id, top, naive)
        == Ok(Fill(cells + [Cell(address, first)] + fill.cells[1..], address + realSize))
  {
    ChunkFill(ps, address, realSize, top, naive, id);
    var fill := FillFrom(ps, address, address + realSize, top, naive, id);
    AppendFill(cells, fill, address, id, top);
    var decrement := prevInuse && (naive || address + realSize != top);
    SettleFillIs(ps, cells, address, realSize, prevInuse, id, top, naive);
    SettleAt(cells, fill.cells, address, address + realSize, decrement, id, top);
  }

  /** The settle step of a whole chunk's fill decrements, if at all, the cell at the chunk's own address. */
  lemma {:induction false} SettleFillIs(ps: nat, cells: seq<Cell>, address: int, realSize: nat, prevInuse: bool, id: int, top: int, naive: bool)
    requires ValidPtrSize(ps) && realSize % 8 == 0 && realSize > 0 && (naive || address + realSize <= top)
    requires Ascending(cells) && Below(cells, address)
    ensures var fill := FillFrom(ps, address, address + realSize, top, naive, id);
      && Ascending(cells + fill.cells) && Below(cells + fill.cells, address + realSize)
      && SettleFill(cells, address, realSize, prevInuse, fill, id, top, naive)
         == Settle(cells + fill.cells, address + realSize, address, prevInuse && (naive || address + realSize != top), id, top)
  {
    ChunkFill(ps, address, realSize, top, naive, id);
    var fill := FillFrom(ps, address, address + realSize, top, naive, id);
    AppendFill(cells, fill, address, id, top);
  }

  /**
   * Settling a fill that starts at `key` above earlier cells: only the
   * fill's first cell can change, and only by the decrement.
   */
  lemma {:induction false} SettleAt(cells: seq<Cell>, added: seq<Cell>, key: int, a: int, decrement: bool, id: int, top: int)
    requires |added| > 0 && added[0] == Cell(key, id)
    requires Ascending(cells + added) && Below(cells + added, a) && Below(cells, key)
    ensures Settle(cells + added, a, key, decrement, id, top)
      == Ok(Fill(cells + [Cell(key, if decrement then id - 1 else id)] + added[1..], a))
  {
    var filled := cells + added;
    assert filled[|cells|] == Cell(key, id);
    assert filled == cells + [Cell(key, id)] + added[1..];
    if decrement {
      assert HasCell(filled, key);
      var d := Decrement(filled, key).value;
      var want := cells + [Cell(key, id - 1)] + added[1..];
      assert forall i :: 0 <= i < |cells| ==> filled[i].addr < key;
      assert forall i :: |cells| < i < |filled| ==> filled[i].addr > key;
      assert |d| == |want|;
      forall i | 0 <= i < |d| ensures d[i] == want[i] {
        if i < |cells| { assert want[i] == cells[i] == filled[i]; }
        else if i > |cells| { assert want[i] == added[i - |cells|] == filled[i]; }
      }
      assert d == want;
      assert Settle(filled, a, key, decrement, id, top) == Ok(Fill(d, a));
    }
  }

  /** The colour group of a cell: `chunk_id % 5`, which is 4 for the id -1. */
  function Colour(id: int): (g: nat)
    ensures g < 5 && (id - g) % 5 == 0
  {
    id % 5
  }

  /** Python's `%` with a positive divisor is non-negative, as Dafny's is. */
  lemma {:induction false} ColourOfPrevious()
    ensures Colour(-1) == 4
  {
  }

  /**
   * `string.printable` without tab, carriage return and newline: the
   * visible characters, space, and vertical tab and form feed.
   */
  predicate Printable(b: int) {
    0x20 <= b <= 0x7e || b == 0x0b || b == 0x0c
  }

  /** `bin_ascii(bs)`: each printable byte as its character, any other as `.`. */
  function BinAscii(bs: seq<byte>): (r: string)
    ensures |r| == |bs|
    ensures forall i :: 0 <= i < |bs| ==> (Printable(bs[i]) ==> r[i] as int == bs[i])
    ensures forall i :: 0 <= i < |bs| ==> (!Printable(bs[i]) ==> r[i] == '.')
  {
    if |bs| == 0 then ""
    else [if Printable(bs[0]) then bs[0] as char else '.'] + BinAscii(bs[1..])
  }

  /** The rendering is printable itself, so rendering its characters again changes nothing. */
  lemma {:induction false} BinAsciiPrintable(bs: seq<byte>)
    ensures var r := BinAscii(bs);
      && (forall i :: 0 <= i < |r| ==> Printable(r[i] as int))
      && BinAscii(seq(|r|, i requires 0 <= i < |r| => r[i] as int as byte)) == r
  {
    var r := BinAscii(bs);
    assert Printable('.' as int);
    var back := seq(|r|, i requires 0 <= i < |r| => r[i] as int as byte);
    var again := BinAscii(back);
    assert forall i :: 0 <= i < |r| ==> again[i] == r[i];
  }

  /** The labels of one cell: its bin memberships, then `Top chunk` at the top chunk. */
  function CellLabels(addr: int, colls: seq<Collection>, top: int): (r: seq<string>)
    requires AllWellFormed(colls)
    ensures |r| == |BinLabels(addr, colls)| + (if addr == top then 1 else 0)
    ensures r[..|BinLabels(addr, colls)|] == BinLabels(addr, colls)
    ensures addr == top <==> "Top chunk" in r[|BinLabels(addr, colls)|..]
  {
    BinLabels(addr, colls) + (if addr == top then ["Top chunk"] else [])
  }

  /**
   * The collections labels are looked up in: tcache first when the library
   * has a tcache, then fast, unsorted, small and large bins.
   */
  function Collections(tcache: Option<Collection>, fast: Collection, unsorted: Collection,
                       small: Collection, large: Collection): (r: seq<Collection>)
    ensures |r| == if tcache.Some? then 5 else 4
    ensures tcache.Some? ==> r[0] == tcache.value
    ensures r[|r| - 4..] == [fast, unsorted, small, large]
  {
    (if tcache.Some? then [tcache.value] else []) + [fast, unsorted, small, large]
  }

  /** How a cell is drawn: its word and its colour group. */
  datatype Shown = Shown(word: nat, colour: nat)

  /**
   * One printed row: its first cell's address, its cells, and, for a full
   * row of two, the annotation: the ASCII of both cells in the second
   * cell's colour and the labels of both cells.
   */
  datatype Row = Row(addr: int, shown: seq<Shown>, annotation: Option<Annotation>)
  datatype Annotation = Annotation(ascii: string, colour: nat, labels: seq<string>)

  function ShowCell(t: GridTarget, c: Cell): Shown {
    Shown(WordAt(t, c.addr), Colour(c.id))
  }

  function Annotate(t: GridTarget, c0: Cell, c1: Cell, colls: seq<Collection>, top: int): Annotation
    requires AllWellFormed(colls)
  {
    Annotation(BinAscii(Read(t.byteAt, c0.addr, t.ptrSize)) + BinAscii(Read(t.byteAt, c1.addr, t.ptrSize)),
               Colour(c1.id),
               CellLabels(c0.addr, colls, top) + CellLabels(c1.addr, colls, top))
  }

  /**
   * The printing loop over the sorted cells, two per row. A final odd cell
   * opens a row that is never annotated: its ASCII and labels, `Top chunk`
   * included, are accumulated but not printed.
   */
  function Rows(t: GridTarget, cells: seq<Cell>, colls: seq<Collection>, top: int): seq<Row>
    requires AllWellFormed(colls)
  {
    PairRows(cells, FullRow(t, colls, top), HalfRow(t))
  }

  /** A row of two cells, annotated with their ASCII, the second cell's colour and their labels. */
  function FullRow(t: GridTarget, colls: seq<Collection>, top: int): (Cell, Cell) -> Row
    requires AllWellFormed(colls)
  {
    (c0: Cell, c1: Cell) => Row(c0.addr, [ShowCell(t, c0), ShowCell(t, c1)], Some(Annotate(t, c0, c1, colls, top)))
  }

  /** The row a final odd cell opens: shown, never annotated. */
  function HalfRow(t: GridTarget): Cell -> Row {
    (c: Cell) => Row(c.addr, [ShowCell(t, c)], None)
  }

  /** The cells two at a time, the last one alone when their number is odd. */
  function PairRows(cells: seq<Cell>, full: (Cell, Cell) -> Row, half: Cell -> Row): seq<Row>
    decreases |cells|
  {
    if |cells| == 0 then []
    else if |cells| == 1 then [half(cells[0])]
    else [full(cells[0], cells[1])] + PairRows(cells[2..], full, half)
  }

  lemma {:induction false} PairRowsShape(cells: seq<Cell>, full: (Cell, Cell) -> Row, half: Cell -> Row)
    requires forall c0, c1 :: full(c0, c1).addr == c0.addr && full(c0, c1).annotation.Some?
    requires forall c :: half(c).addr == c.addr && half(c).annotation.None?
    ensures var rows := PairRows(cells, full, half);
      && |rows| == (|cells| + 1) / 2
      && (forall k :: 0 <= k < |rows| ==> rows[k].addr == cells[2 * k].addr)
      && (forall k :: 0 <= k < |rows| ==> (rows[k].annotation.Some? <==> 2 * k + 1 < |cells|))
    decreases |cells|
  {
    if |cells| >= 2 {
      var tail := cells[2..];
      PairRowsShape(tail, full, half);
      var rest := PairRows(tail, full, half);
      var rows := PairRows(cells, full, half);
      assert rows == [full(cells[0], cells[1])] + rest;
      forall k | 1 <= k < |rows|
        ensures rows[k].addr == cells[2 * k].addr && (rows[k].annotation.Some? <==> 2 * k + 1 < |cells|)
      {
        assert rows[k] == rest[k - 1];
        assert tail[2 * (k - 1)] == cells[2 * k];
      }
    }
  }

  /**
   * Row `k` starts at cell `2k`, and is annotated exactly when it has a
   * second cell: only a final odd cell goes unannotated.
   */
  lemma {:induction false} RowsPairCells(t: GridTarget, cells: seq<Cell>, colls: seq<Collection>, top: int)
    requires AllWellFormed(colls)
    ensures var rows := Rows(t, cells, colls, top);
      && |rows| == (|cells| + 1) / 2
      && (forall k :: 0 <= k < |rows| ==> rows[k].addr == cells[2 * k].addr)
      && (forall k :: 0 <= k < |rows| ==> (rows[k].annotation.Some? <==> 2 * k + 1 < |cells|))
  {
    PairRowsShape(cells, FullRow(t, colls, top), HalfRow(t));
  }

  /**
   * `vis_heap_chunks(address, count, naive)`: walk from `address`, or from
   * the start of the heap region when none is given, reading each chunk's
   * size at its second word, then print the sorted cells two to a row.
   */
  function VisHeapChunks(t: GridTarget, address: Option<int>, heapStart: int, count: int, top: int, naive: bool,
                         colls: seq<Collection>): (r: Result<seq<Row>>)
    requires ValidGridTarget(t) && AllWellFormed(colls)
    ensures r.Err? ==> r.error == KeyError
  {
    var start := if address.Some? then address.value else heapStart;
    match Walk(t, a => WordAt(t, a + t.ptrSize), [], start, 0, count, top, naive)
    case Err(e) => Err(e)
    case Ok(w) => Ok(Rows(t, w.cells, colls, top))
  }

  /**
   * The cells of `vis_heap_chunks`: sorted and never assigned twice, with
   * ids of at most `count` (at most `count` chunks are walked), ending on
   * the top chunk's two header words when the walk got there, and, in the
   * default mode, with every other cell below the top chunk.
   */
  lemma {:induction false} VisCells(t: GridTarget, start: int, count: int, top: int, naive: bool)
    requires ValidGridTarget(t)
    ensures var r := Walk(t, a => WordAt(t, a + t.ptrSize), [], start, 0, count, top, naive);
      r.Ok? ==>
        && Ascending(r.value.cells)
        && IdsAtMost(r.value.cells, if count > 0 then count else 0)
        && (r.value.reachedTop ==> EndsAtTop(r.value.cells, top, t.ptrSize))
        && (!naive ==> Below(BodyCells(r.value), top))
  {
    var sizeOf := a => WordAt(t, a + t.ptrSize);
    WalkTop(t, sizeOf, [], start, 0, count, top, naive);
    if !naive {
      WalkBelowTop(t, sizeOf, [], start, 0, count, top);
    }
  }
}
