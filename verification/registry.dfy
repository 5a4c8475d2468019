/**
 * The per-query record registry of vheap.py: the bin heads dictionary, the
 * bins dictionary of appended chunk records, and the snapshot handed to the
 * browser.
 */
module Registry {
  import opened Wrappers
  import opened OrderedMap

  /** The dictionary `vheap_makeChunk` builds; every value is a string. */
  datatype ChunkRecord = ChunkRecord(
    index: string, address: string, prevSize: string, chunkSize: string,
    a: string, m: string, p: string, fd: string, bk: string, alloc: string)

  /** The record's values in parameter order, `index` to `allocated` (here `alloc`, a reserved word in Dafny). */
  function Fields(r: ChunkRecord): seq<string> {
    [r.index, r.address, r.prevSize, r.chunkSize, r.a, r.m, r.p, r.fd, r.bk, r.alloc]
  }

  /**
   * A call `vheap_makeChunk(*args)`. The function takes exactly ten
   * positional parameters; any other number of arguments raises `TypeError`.
   */
  function MakeChunk(args: seq<string>): (r: Result<ChunkRecord>)
    ensures r.Ok? <==> |args| == 10
    ensures r.Ok? ==> Fields(r.value) == args
    ensures r.Err? ==> r.error == TypeError
  {
    if |args| != 10 then Err(TypeError)
    else Ok(ChunkRecord(args[0], args[1], args[2], args[3], args[4], args[5], args[6], args[7], args[8], args[9]))
  }

  /** Building a record from another's values gives that record back. */
  lemma {:induction false} MakeChunkFields(rec: ChunkRecord)
    ensures MakeChunk(Fields(rec)) == Ok(rec)
  {
  }

  /** The two module-level dictionaries `binsheads` and `binschunks`. */
  datatype Registry = Registry(heads: OMap<string>, bins: OMap<seq<ChunkRecord>>)

  ghost predicate Valid(reg: Registry) {
    reg.heads.Valid() && reg.bins.Valid()
  }

  /** `vheap_clearHeap`: both dictionaries become empty. */
  function ClearHeap(): (r: Registry)
    ensures Valid(r)
    ensures r.heads.keys == [] && r.heads.values == map[]
    ensures r.bins.keys == [] && r.bins.values == map[]
  {
    Registry(Empty(), Empty())
  }

  /** `vheap_addBinHead`: `heads[head] = address`, replacing an older value; bins untouched. */
  function AddBinHead(reg: Registry, head: string, address: string): (r: Registry)
    requires Valid(reg)
    ensures Valid(r)
    ensures r.heads.values == reg.heads.values[head := address]
    ensures head in reg.heads.keys ==> r.heads.keys == reg.heads.keys
    ensures head !in reg.heads.keys ==> r.heads.keys == reg.heads.keys + [head]
    ensures r.bins == reg.bins
  {
    Registry(Put(reg.heads, head, address), reg.bins)
  }

  /**
   * `vheap_addChunkToBin`: appends the chunk to its bin's list, creating a
   * one-element list on first use; other bins and the heads stay as they were.
   */
  function AddChunkToBin(reg: Registry, bin: string, chunk: ChunkRecord): (r: Registry)
    requires Valid(reg)
    ensures Valid(r)
    ensures bin in r.bins.values
    ensures bin in reg.bins.values ==>
      r.bins.values[bin] == reg.bins.values[bin] + [chunk] && r.bins.keys == reg.bins.keys
    ensures bin !in reg.bins.values ==>
      r.bins.values[bin] == [chunk] && r.bins.keys == reg.bins.keys + [bin]
    ensures forall b :: b != bin ==> (b in r.bins.values <==> b in reg.bins.values)
    ensures forall b :: b != bin && b in reg.bins.values ==> r.bins.values[b] == reg.bins.values[b]
    ensures r.heads == reg.heads
  {
    var list := if bin in reg.bins.values then reg.bins.values[bin] else [];
    Registry(reg.heads, Put(reg.bins, bin, list + [chunk]))
  }

  /** The snapshot sent to the browser: `{"heads": ..., "bins": ...}` with keys in insertion order. */
  datatype HeapData = HeapData(heads: seq<(string, string)>, bins: seq<(string, seq<ChunkRecord>)>)

  function Entries<V>(d: OMap<V>, n: nat): (r: seq<(string, V)>)
    requires d.Valid() && n <= |d.keys|
    ensures |r| == n
    ensures forall i :: 0 <= i < n ==> r[i].0 == d.keys[i] && r[i].1 == d.values[d.keys[i]]
  {
    if n == 0 then [] else Entries(d, n - 1) + [(d.keys[n - 1], d.values[d.keys[n - 1]])]
  }

  /**
   * `vheap_makeHeapData`: the registry's two dictionaries, each as its keys
   * in insertion order with their values. The registry itself is a value and
   * stays as it was.
   */
  function MakeHeapData(reg: Registry): (r: HeapData)
    requires Valid(reg)
    ensures |r.heads| == |reg.heads.keys| && |r.bins| == |reg.bins.keys|
    ensures forall i :: 0 <= i < |r.heads| ==>
      r.heads[i].0 == reg.heads.keys[i] && r.heads[i].1 == reg.heads.values[reg.heads.keys[i]]
    ensures forall i :: 0 <= i < |r.bins| ==>
      r.bins[i].0 == reg.bins.keys[i] && r.bins[i].1 == reg.bins.values[reg.bins.keys[i]]
  {
    HeapData(Entries(reg.heads, |reg.heads.keys|), Entries(reg.bins, |reg.bins.keys|))
  }

  /** The registry when the module has been loaded: one welcome head and no bins. */
  function InitialRegistry(): (r: Registry)
    ensures Valid(r)
    ensures r.heads.keys == ["vHeap is ready"] && r.heads.values == map["vHeap is ready" := "0x200"]
    ensures r.bins.keys == [] && r.bins.values == map[]
  {
    AddBinHead(ClearHeap(), "vHeap is ready", "0x200")
  }

  /** Clearing forgets everything that was recorded before. */
  lemma {:induction false} ClearForgets()
    ensures MakeHeapData(ClearHeap()) == HeapData([], [])
  {
  }
}
