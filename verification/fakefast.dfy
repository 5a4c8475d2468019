/**
 * `find_fake_fast` (lib/heap.py): look, in the `global_max_fast` bytes below
 * an address, for every byte offset whose word would pass as the size field
 * of a fast chunk of the same size class as a requested size.
 */
module FakeFast {
  import opened Wrappers
  import opened Bytes

  /**
   * What the command asks of the debugger. `readable(a)` is how many bytes
   * can be read from `a` before an unmapped address cuts a partial read
   * short; `fastbinIndex` is the allocator's size-class function and
   * `maxFast` its `global_max_fast`.
   */
  datatype FakeTarget = FakeTarget(
    ptrSize: nat,
    endian: Endian,
    byteAt: int -> byte,
    readable: int -> nat,
    maxFast: nat,
    fastbinIndex: int -> int)

  function Min(a: nat, b: nat): nat {
    if a <= b then a else b
  }

  /** `memory.read(start, n, partial=True)`: the readable prefix of the `n` bytes. */
  function ReadPartial(t: FakeTarget, start: int, n: nat): (mem: seq<byte>)
    ensures |mem| <= n
    ensures forall i :: 0 <= i < |mem| ==> mem[i] == t.byteAt(start + i)
  {
    Read(t.byteAt, start, Min(n, t.readable(start)))
  }

  /**
   * An offset qualifies when a whole word can be cut from the bytes read
   * there and its size class is the wanted one.
   */
  predicate Qualifies(t: FakeTarget, mem: seq<byte>, offset: nat, fastbin: int) {
    offset + t.ptrSize <= |mem| &&
    t.fastbinIndex(Word(t.endian, mem[offset..offset + t.ptrSize])) == fastbin
  }

  /**
   * The chunk addresses reported for the offsets from `offset` up to
   * `limit`: a qualifying offset `o` reports the chunk whose size field is
   * at `start + o`, that is the chunk at `start + o - ptrsize`.
   */
  function ScanFrom(t: FakeTarget, mem: seq<byte>, start: int, fastbin: int, offset: nat, limit: int): (r: seq<int>)
    decreases limit - offset
  {
    if offset >= limit then []
    else
      var rest := ScanFrom(t, mem, start, fastbin, offset + 1, limit);
      if Qualifies(t, mem, offset, fastbin) then [start + offset - t.ptrSize] + rest else rest
  }

  lemma {:induction false} ScanFromMembers(t: FakeTarget, mem: seq<byte>, start: int, fastbin: int, offset: nat, limit: int, x: int)
    decreases limit - offset
    ensures x in ScanFrom(t, mem, start, fastbin, offset, limit) <==>
      exists o :: offset <= o < limit && Qualifies(t, mem, o, fastbin) && x == start + o - t.ptrSize
  {
    if offset < limit {
      ScanFromMembers(t, mem, start, fastbin, offset + 1, limit, x);
      if exists o :: offset <= o < limit && Qualifies(t, mem, o, fastbin) && x == start + o - t.ptrSize {
        var o :| offset <= o < limit && Qualifies(t, mem, o, fastbin) && x == start + o - t.ptrSize;
        if o > offset {
          assert offset + 1 <= o < limit && Qualifies(t, mem, o, fastbin) && x == start + o - t.ptrSize;
        }
      }
    }
  }

  predicate Ascending(r: seq<int>) {
    forall i, j :: 0 <= i < j < |r| ==> r[i] < r[j]
  }

  lemma {:induction false} ScanFromAscending(t: FakeTarget, mem: seq<byte>, start: int, fastbin: int, offset: nat, limit: int)
    decreases limit - offset
    ensures forall x :: x in ScanFrom(t, mem, start, fastbin, offset, limit) ==> x >= start + offset - t.ptrSize
    ensures Ascending(ScanFrom(t, mem, start, fastbin, offset, limit))
  {
    if offset < limit {
      ScanFromAscending(t, mem, start, fastbin, offset + 1, limit);
      var rest := ScanFrom(t, mem, start, fastbin, offset + 1, limit);
      if Qualifies(t, mem, offset, fastbin) {
        var r := [start + offset - t.ptrSize] + rest;
        assert r == ScanFrom(t, mem, start, fastbin, offset, limit);
        forall i, j | 0 <= i < j < |r| ensures r[i] < r[j] {
          assert r[j] == rest[j - 1] && r[j] in rest;
          if i > 0 { assert r[i] == rest[i - 1]; }
        }
      }
    }
  }

  /**
   * `find_fake_fast(addr, size)`: the chunks reported, in order, or the
   * `KeyError` the format table raises for a pointer size other than 4 or 8.
   */
  function FindFakeFast(t: FakeTarget, addr: int, size: int): (r: Result<seq<int>>)
    ensures r.Err? <==> !(t.ptrSize == 4 || t.ptrSize == 8)
    ensures r.Err? ==> r.error == KeyError
  {
    var start := addr - t.maxFast;
    var mem := ReadPartial(t, start, t.maxFast);
    if !(t.ptrSize == 4 || t.ptrSize == 8) then Err(KeyError)
    else Ok(ScanFrom(t, mem, start, t.fastbinIndex(size), 0, t.maxFast - t.ptrSize))
  }

  /**
   * The reported chunks are exactly those at `start + o - ptrsize` for the
   * byte offsets `o` below `max_fast - ptrsize` where a whole word was read
   * and its size class matches `size`'s, in ascending order.
   */
  lemma {:induction false} FindFakeFastReports(t: FakeTarget, addr: int, size: int, x: int)
    requires t.ptrSize == 4 || t.ptrSize == 8
    ensures var start := addr - t.maxFast;
      var mem := ReadPartial(t, start, t.maxFast);
      var r := FindFakeFast(t, addr, size).value;
      && (x in r <==> exists o :: 0 <= o < t.maxFast - t.ptrSize && Qualifies(t, mem, o, t.fastbinIndex(size))
                                  && x == start + o - t.ptrSize)
      && Ascending(r)
  {
    var start := addr - t.maxFast;
    var mem := ReadPartial(t, start, t.maxFast);
    ScanFromMembers(t, mem, start, t.fastbinIndex(size), 0, t.maxFast - t.ptrSize, x);
    ScanFromAscending(t, mem, start, t.fastbinIndex(size), 0, t.maxFast - t.ptrSize);
  }

  /**
   * The scan looks at every byte offset, aligned or not: a matching word at
   * an odd offset is reported.
   */
  lemma {:induction false} FindFakeFastUnaligned(t: FakeTarget, addr: int, size: int, o: nat)
    requires t.ptrSize == 4 || t.ptrSize == 8
    requires o < t.maxFast - t.ptrSize && o % 2 == 1
    requires Qualifies(t, ReadPartial(t, addr - t.maxFast, t.maxFast), o, t.fastbinIndex(size))
    ensures addr - t.maxFast + o - t.ptrSize in FindFakeFast(t, addr, size).value
  {
    FindFakeFastReports(t, addr, size, addr - t.maxFast + o - t.ptrSize);
  }

  /** Offsets whose word a partial read cut short are never reported. */
  lemma {:induction false} FindFakeFastPartial(t: FakeTarget, addr: int, size: int)
    requires t.ptrSize == 4 || t.ptrSize == 8
    ensures var start := addr - t.maxFast;
      forall x :: x in FindFakeFast(t, addr, size).value ==>
        x + 2 * t.ptrSize <= start + t.readable(start)
  {
    forall x | x in FindFakeFast(t, addr, size).value
      ensures x + 2 * t.ptrSize <= addr - t.maxFast + t.readable(addr - t.maxFast)
    {
      FindFakeFastReports(t, addr, size, x);
    }
  }

  /** One offset of the scan: what it reports, then the rest. */
  lemma {:induction false} ScanFromStep(t: FakeTarget, mem: seq<byte>, start: int, fastbin: int, offset: nat, limit: int,
                                        found: seq<int>, hit: seq<int>)
    requires offset < limit
    requires hit == if Qualifies(t, mem, offset, fastbin) then [start + offset - t.ptrSize] else []
    ensures found + ScanFrom(t, mem, start, fastbin, offset, limit)
      == (found + hit) + ScanFrom(t, mem, start, fastbin, offset + 1, limit)
  {
    var rest := ScanFrom(t, mem, start, fastbin, offset + 1, limit);
    assert ScanFrom(t, mem, start, fastbin, offset, limit) == hit + rest;
    assert found + (hit + rest) == (found + hit) + rest;
  }

  /** The scan as the source's loop performs it. */
  method ScanFakeFast(t: FakeTarget, addr: int, size: int) returns (r: Result<seq<int>>)
    ensures r == FindFakeFast(t, addr, size)
  {
    var fastbin := t.fastbinIndex(size);
    var start := addr - t.maxFast;
    var mem := ReadPartial(t, start, t.maxFast);
    if !(t.ptrSize == 4 || t.ptrSize == 8) {
      return Err(KeyError);
    }
    var limit := t.maxFast - t.ptrSize;
    var found: seq<int> := [];
    var offset: nat := 0;
    while offset < limit
      invariant found + ScanFrom(t, mem, start, fastbin, offset, limit) == ScanFrom(t, mem, start, fastbin, 0, limit)
    {
      var hit := [];
      if offset + t.ptrSize <= |mem| {
        var value := Word(t.endian, mem[offset..offset + t.ptrSize]);
        if t.fastbinIndex(value) == fastbin {
          hit := [start + offset - t.ptrSize];
        }
      }
      ScanFromStep(t, mem, start, fastbin, offset, limit, found, hit);
      found := found + hit;
      offset := offset + 1;
    }
    assert ScanFrom(t, mem, start, fastbin, offset, limit) == [];
    assert found == ScanFrom(t, mem, start, fastbin, 0, limit) by {
      assert found + [] == found;
    }
    return Ok(found);
  }
}
