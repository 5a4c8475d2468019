/**
 * Chunk decoding: the debugged process's memory, `read_chunk` with its field
 * renaming, `getfdbk`, the size masks and the header labels `malloc_chunk`
 * prints (lib/heap.py).
 */
module Chunks {

  /**
   * What the debugger exposes about the target. `mem(a)` is the pointer-sized
   * word at address `a`, already decoded with the target's byte order;
   * `chunkFlags` is the allocator library's flag decoder applied to a raw size
   * field; `renamedFields` tells whether the C library names its header fields
   * `mchunk_prev_size`/`mchunk_size` (newer releases) or `prev_size`/`size`.
   */
  datatype Target = Target(
    ptrSize: nat,
    mem: int -> nat,
    chunkFlags: nat -> Flags,
    renamedFields: bool)

  /** The three flag values of a size field; a flag is set when its value is non-zero. */
  datatype Flags = Flags(prevInuse: nat, isMmapped: nat, nonMainArena: nat)

  predicate ValidPtrSize(ps: nat) {
    ps == 4 || ps == 8
  }

  /** `size & ~7`: the size with its three flag bits cleared. */
  function ClearFlagBits(size: nat): (r: nat)
    ensures r % 8 == 0 && r <= size < r + 8
  {
    size - size % 8
  }

  /**
   * `size & ~mask` for the allocator's alignment mask `mask == alignment - 1`
   * (`alignment` is 8 or 16): the largest multiple of `alignment` not above
   * `size`.
   */
  function AlignDown(size: nat, alignment: nat): (r: nat)
    requires alignment == 8 || alignment == 16
    ensures r <= size < r + alignment
    ensures r % alignment == 0 && r % 8 == 0
  {
    if alignment == 8 then size - size % 8
    else
      var r := size - size % 16;
      EightDividesSixteen(r);
      r
  }

  lemma {:induction false} EightDividesSixteen(r: int)
    requires r % 16 == 0
    ensures r % 8 == 0
  {
    var q := r / 16;
    assert r == 16 * q;
    assert r == 8 * (2 * q);
  }

  lemma {:induction false} ClearFlagBitsIsAlignDown(size: nat)
    ensures ClearFlagBits(size) == AlignDown(size, 8)
  {
  }

  datatype GdbField = GdbField(name: string, value: nat)

  /** The fields of `struct malloc_chunk` at address `a`, in declaration order. */
  function StructAt(t: Target, a: int): seq<GdbField> {
    var ps := t.ptrSize;
    [ GdbField(if t.renamedFields then "mchunk_prev_size" else "prev_size", t.mem(a)),
      GdbField(if t.renamedFields then "mchunk_size" else "size", t.mem(a + ps)),
      GdbField("fd", t.mem(a + 2 * ps)),
      GdbField("bk", t.mem(a + 3 * ps)),
      GdbField("fd_nextsize", t.mem(a + 4 * ps)),
      GdbField("bk_nextsize", t.mem(a + 5 * ps)) ]
  }

  /** The renaming `read_chunk` applies so that both field spellings look alike. */
  function Rename(key: string): string {
    if key == "mchunk_size" then "size"
    else if key == "mchunk_prev_size" then "prev_size"
    else key
  }

  /** The dictionary comprehension of `read_chunk`: a later field wins a clash. */
  function FieldMap(fs: seq<GdbField>): map<string, nat> {
    if |fs| == 0 then map[]
    else FieldMap(fs[..|fs| - 1])[Rename(fs[|fs| - 1].name) := fs[|fs| - 1].value]
  }

  /** The dictionary `read_chunk` returns: canonical field names plus the raw value. */
  datatype ChunkDict = ChunkDict(fields: map<string, nat>, value: seq<GdbField>)

  function ReadChunk(t: Target, a: int): ChunkDict {
    var fs := StructAt(t, a);
    ChunkDict(FieldMap(fs) - {"value"}, fs)
  }

  /**
   * Whichever names the library uses, `read_chunk` exposes the same six
   * fields with the words found at consecutive pointer-sized offsets.
   */
  lemma {:induction false} ReadChunkCanonical(t: Target, a: int)
    ensures var c := ReadChunk(t, a); var ps := t.ptrSize;
      c.fields == map[
        "prev_size" := t.mem(a), "size" := t.mem(a + ps),
        "fd" := t.mem(a + 2 * ps), "bk" := t.mem(a + 3 * ps),
        "fd_nextsize" := t.mem(a + 4 * ps), "bk_nextsize" := t.mem(a + 5 * ps)]
  {
    var ps := t.ptrSize;
    var m := map[
        "prev_size" := t.mem(a), "size" := t.mem(a + ps),
        "fd" := t.mem(a + 2 * ps), "bk" := t.mem(a + 3 * ps),
        "fd_nextsize" := t.mem(a + 4 * ps), "bk_nextsize" := t.mem(a + 5 * ps)];
    StructFieldMap(t, a);
    assert "value" !in m;
    assert m - {"value"} == m;
  }

  /** The renamed fields of the struct at `a`, whichever spelling the library uses. */
  lemma {:induction false} StructFieldMap(t: Target, a: int)
    ensures var ps := t.ptrSize;
      FieldMap(StructAt(t, a)) == map[
        "prev_size" := t.mem(a), "size" := t.mem(a + ps),
        "fd" := t.mem(a + 2 * ps), "bk" := t.mem(a + 3 * ps),
        "fd_nextsize" := t.mem(a + 4 * ps), "bk_nextsize" := t.mem(a + 5 * ps)]
  {
    var fs := StructAt(t, a);
    FieldMapSix(fs);
    assert Rename(fs[0].name) == "prev_size";
    assert Rename(fs[1].name) == "size";
  }

  lemma {:induction false} FieldMapSix(fs: seq<GdbField>)
    requires |fs| == 6
    ensures FieldMap(fs) == map[][Rename(fs[0].name) := fs[0].value][Rename(fs[1].name) := fs[1].value]
      [Rename(fs[2].name) := fs[2].value][Rename(fs[3].name) := fs[3].value]
      [Rename(fs[4].name) := fs[4].value][Rename(fs[5].name) := fs[5].value]
  {
    assert fs[..0] == [];
    var m1 := FieldMapStep(fs, 0, map[]);
    var m2 := FieldMapStep(fs, 1, m1);
    var m3 := FieldMapStep(fs, 2, m2);
    var m4 := FieldMapStep(fs, 3, m3);
    var m5 := FieldMapStep(fs, 4, m4);
    var m6 := FieldMapStep(fs, 5, m5);
    assert fs[..6] == fs;
  }

  /** One more field: the map of the first `k + 1` fields, given that of the first `k`. */
  function FieldMapStep(fs: seq<GdbField>, k: nat, m: map<string, nat>): (m': map<string, nat>)
    requires k < |fs| && FieldMap(fs[..k]) == m
    ensures m' == m[Rename(fs[k].name) := fs[k].value] && FieldMap(fs[..k + 1]) == m'
  {
    assert fs[..k + 1][..k] == fs[..k];
    m[Rename(fs[k].name) := fs[k].value]
  }

  /** The `prev_size` word of the chunk at `a`. */
  function PrevSizeAt(t: Target, a: int): nat {
    t.mem(a)
  }

  /** The raw `size` word of the chunk at `a`, flag bits included. */
  function SizeAt(t: Target, a: int): nat {
    t.mem(a + t.ptrSize)
  }

  /** `read_chunk(a)['prev_size']` and `read_chunk(a)['size']` are the two header words. */
  lemma {:induction false} ReadChunkHeader(t: Target, a: int)
    ensures "prev_size" in ReadChunk(t, a).fields && "size" in ReadChunk(t, a).fields
    ensures ReadChunk(t, a).fields["prev_size"] == PrevSizeAt(t, a)
    ensures ReadChunk(t, a).fields["size"] == SizeAt(t, a)
  {
    ReadChunkCanonical(t, a);
  }

  /**
   * `getfdbk(c)`: despite its name it returns the first two header words of
   * the chunk at `c` (`read_chunk(c)`'s `prev_size` and `size`), which are the
   * free-list links when the caller passes the address two words past the
   * chunk start.
   */
  function GetFdBk(t: Target, c: int): (r: (nat, nat))
    ensures r == (t.mem(c), t.mem(c + t.ptrSize))
  {
    (PrevSizeAt(t, c), SizeAt(t, c))
  }

  /** `getfdbk` returns exactly the two fields `read_chunk` decodes under the canonical names. */
  lemma {:induction false} GetFdBkReadsChunk(t: Target, c: int)
    ensures "prev_size" in ReadChunk(t, c).fields && "size" in ReadChunk(t, c).fields
    ensures GetFdBk(t, c) == (ReadChunk(t, c).fields["prev_size"], ReadChunk(t, c).fields["size"])
  {
    ReadChunkHeader(t, c);
  }

  /** The labels `malloc_chunk` prints after the chunk address. */
  datatype HeaderTag = FakeTag | FastbinTag | PrevInuseTag | IsMmapedTag | NonMainArenaTag

  datatype ChunkView = ChunkView(chunk: ChunkDict, header: seq<HeaderTag>)

  /** The place of a label on the header line; `FASTBIN` and `PREV_INUSE` share one. */
  function Rank(tag: HeaderTag): nat {
    match tag
    case FakeTag => 0
    case FastbinTag => 1
    case PrevInuseTag => 1
    case IsMmapedTag => 2
    case NonMainArenaTag => 3
  }

  /** The labels appear in increasing rank, so each at most once and in printing order. */
  predicate InPrintOrder(h: seq<HeaderTag>) {
    forall i, j :: 0 <= i < j < |h| ==> Rank(h[i]) < Rank(h[j])
  }

  predicate RanksIn(h: seq<HeaderTag>, lo: nat, hi: nat) {
    forall i :: 0 <= i < |h| ==> lo <= Rank(h[i]) < hi
  }

  /** Labels of lower ranks followed by labels of higher ranks stay in printing order. */
  lemma {:induction false} AppendInOrder(a: seq<HeaderTag>, b: seq<HeaderTag>, lo: nat, mid: nat, hi: nat)
    requires lo <= mid <= hi
    requires InPrintOrder(a) && InPrintOrder(b) && RanksIn(a, lo, mid) && RanksIn(b, mid, hi)
    ensures InPrintOrder(a + b) && RanksIn(a + b, lo, hi)
  {
    var h := a + b;
    forall i | 0 <= i < |h| ensures lo <= Rank(h[i]) < hi {
      if i < |a| { assert h[i] == a[i]; } else { assert h[i] == b[i - |a|]; }
    }
    forall i, j | 0 <= i < j < |h| ensures Rank(h[i]) < Rank(h[j]) {
      if j < |a| {
        assert h[i] == a[i] && h[j] == a[j];
      } else if i >= |a| {
        assert h[i] == b[i - |a|] && h[j] == b[j - |a|];
      } else {
        assert h[i] == a[i] && h[j] == b[j - |a|];
      }
    }
  }

  /** The label `tag` when `present`, nothing otherwise. */
  function Tag(present: bool, tag: HeaderTag): seq<HeaderTag> {
    if present then [tag] else []
  }

  lemma {:induction false} TagRanks(present: bool, tag: HeaderTag)
    ensures InPrintOrder(Tag(present, tag)) && RanksIn(Tag(present, tag), Rank(tag), Rank(tag) + 1)
  {
    if present {
      assert Tag(present, tag)[0] == tag;
    }
  }

  /** The four optional labels, each of a rank above the one before, are in printing order. */
  lemma {:induction false} TagsInOrder(fake: bool, inuse: bool, inuseTag: HeaderTag, mmapped: bool, nonMain: bool)
    requires Rank(inuseTag) == 1
    ensures InPrintOrder(Tag(fake, FakeTag) + Tag(inuse, inuseTag) + Tag(mmapped, IsMmapedTag) + Tag(nonMain, NonMainArenaTag))
  {
    var first, second := Tag(fake, FakeTag), Tag(inuse, inuseTag);
    var third, fourth := Tag(mmapped, IsMmapedTag), Tag(nonMain, NonMainArenaTag);
    TagRanks(fake, FakeTag);
    TagRanks(inuse, inuseTag);
    TagRanks(mmapped, IsMmapedTag);
    TagRanks(nonMain, NonMainArenaTag);
    AppendInOrder(first, second, 0, 1, 2);
    AppendInOrder(first + second, third, 0, 2, 3);
    AppendInOrder(first + second + third, fourth, 0, 3, 4);
  }

  /**
   * `malloc_chunk(addr, fake)`. `fastbinSizes` are the size keys of the fast
   * bins of the chunk's arena (the debugger looks the arena up for chunks
   * flagged non-main); a fake chunk is checked against no fast bins.
   */
  function MallocChunk(t: Target, a: int, fake: bool, fastbinSizes: set<nat>): (r: ChunkView)
    ensures r.chunk == ReadChunk(t, a)
    ensures var f := t.chunkFlags(SizeAt(t, a));
      && (FakeTag in r.header <==> fake)
      && ((FastbinTag in r.header || PrevInuseTag in r.header) <==> f.prevInuse != 0)
      && (FastbinTag in r.header <==> f.prevInuse != 0 && !fake && ClearFlagBits(SizeAt(t, a)) in fastbinSizes)
      && (IsMmapedTag in r.header <==> f.isMmapped != 0)
      && (NonMainArenaTag in r.header <==> f.nonMainArena != 0)
    ensures InPrintOrder(r.header)
  {
    var c := ReadChunk(t, a);
    var size := SizeAt(t, a);
    var actual := ClearFlagBits(size);
    var f := t.chunkFlags(size);
    var fastbins := if fake then {} else fastbinSizes;
    ChunkView(c, Header(fake, f.prevInuse != 0, actual in fastbins, f.isMmapped != 0, f.nonMainArena != 0))
  }

  /**
   * The labels in printing order: `FAKE`, then `FASTBIN` or `PREV_INUSE`
   * for a set prev-in-use bit, then `IS_MMAPED` and `NON_MAIN_ARENA`.
   */
  function Header(fake: bool, prevInuse: bool, fastbin: bool, mmapped: bool, nonMain: bool): (h: seq<HeaderTag>)
    ensures FakeTag in h <==> fake
    ensures FastbinTag in h <==> prevInuse && fastbin
    ensures PrevInuseTag in h <==> prevInuse && !fastbin
    ensures IsMmapedTag in h <==> mmapped
    ensures NonMainArenaTag in h <==> nonMain
    ensures InPrintOrder(h)
  {
    var inuseTag := if fastbin then FastbinTag else PrevInuseTag;
    TagsInOrder(fake, prevInuse, inuseTag, mmapped, nonMain);
    Tag(fake, FakeTag) + Tag(prevInuse, inuseTag) + Tag(mmapped, IsMmapedTag) + Tag(nonMain, NonMainArenaTag)
  }
}
