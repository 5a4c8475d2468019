/**
 * The browser's view of a snapshot (vheapViews/static/js/Vheap.js): the
 * records of every bin flattened into one list of chunk structures, the
 * walked chunks split into allocated ones and ones already on a free list,
 * the bin heads with the allocated count, and the edges drawn between heads
 * and chunks.
 */
module Browser {
  import opened Wrappers
  import opened Text
  import opened OrderedMap
  import R = Registry

  /** One row the extension hooks add to a chunk's box. */
  datatype Note = Note(text: string, color: string)

  datatype Extended = Extended(rows: seq<Note>, backgroundColor: string)

  /** `ChunkStruct`: a record's strings, the name of the bin it came from, and the extension state. */
  datatype ChunkStruct = ChunkStruct(
    bin: string, index: string, address: string, prevSize: string, chunkSize: string,
    a: string, m: string, p: string, fd: string, bk: string, extended: Extended)

  /** `new ChunkStruct(bin, jchunk.index, …, jchunk.bk)`: the record's `allocated` field is not copied. */
  function NewChunk(bin: string, rec: R.ChunkRecord): ChunkStruct {
    ChunkStruct(bin, rec.index, rec.address, rec.prevSize, rec.chunkSize,
                rec.a, rec.m, rec.p, rec.fd, rec.bk, Extended([], ""))
  }

  /** The number of records in the bins. */
  function Total(bins: seq<(string, seq<R.ChunkRecord>)>): nat {
    if |bins| == 0 then 0 else Total(bins[..|bins| - 1]) + |bins[|bins| - 1].1|
  }

  function BinStructs(bin: string, recs: seq<R.ChunkRecord>): (r: seq<ChunkStruct>)
    ensures |r| == |recs|
    ensures forall i :: 0 <= i < |recs| ==> r[i] == NewChunk(bin, recs[i])
  {
    seq(|recs|, i requires 0 <= i < |recs| => NewChunk(bin, recs[i]))
  }

  /** The loops over `bins` and over each bin's records that fill `hchunks`. */
  function Flatten(bins: seq<(string, seq<R.ChunkRecord>)>): (r: seq<ChunkStruct>)
  {
    if |bins| == 0 then []
    else Flatten(bins[..|bins| - 1]) + BinStructs(bins[|bins| - 1].0, bins[|bins| - 1].1)
  }

  /**
   * One structure per record, in bin order and then record order: record
   * `i` of bin `k` sits after all records of the bins before `k`.
   */
  lemma {:induction false} FlattenAt(bins: seq<(string, seq<R.ChunkRecord>)>, k: nat, i: nat)
    requires k < |bins| && i < |bins[k].1|
    decreases |bins|
    ensures |Flatten(bins)| == Total(bins)
    ensures Total(bins[..k]) + i < Total(bins)
    ensures Flatten(bins)[Total(bins[..k]) + i] == NewChunk(bins[k].0, bins[k].1[i])
  {
    var n := |bins| - 1;
    var front := bins[..n];
    FlattenLength(front);
    if k == n {
      assert bins[..k] == front;
    } else {
      FlattenAt(front, k, i);
      assert front[..k] == bins[..k];
      assert front[k] == bins[k];
    }
  }

  lemma {:induction false} FlattenLength(bins: seq<(string, seq<R.ChunkRecord>)>)
    decreases |bins|
    ensures |Flatten(bins)| == Total(bins)
  {
    if |bins| > 0 {
      FlattenLength(bins[..|bins| - 1]);
    }
  }

  /**
   * `hInt(x) == hInt(y) || hInt(x) == hInt(y) - 16`: the same chunk, or a
   * tcache entry's address 16 bytes past the chunk's start. A `NaN` on
   * either side equals nothing.
   */
  predicate SameChunk(x: string, y: string) {
    var u, v := HInt(x), HInt(y);
    u.Some? && v.Some? && (u.value == v.value || u.value == v.value - 16)
  }

  /**
   * The classification below is stated for any test `same` on two address
   * strings; `InitHeap` uses `SameChunk`.
   */
  type AddressTest = (string, string) -> bool

  /**
   * Entry `ca` matches the walked entry `c` when it is another entry whose
   * bin, at the time `c` is examined, is no longer `"allchunks"`: a free-list
   * entry anywhere, or a walked entry already examined.
   */
  predicate Matches(hs: seq<ChunkStruct>, same: AddressTest, c: nat, ca: nat)
    requires c < |hs| && ca < |hs|
  {
    ca != c && (ca < c || hs[ca].bin != "allchunks") && same(hs[c].address, hs[ca].address)
  }

  /** How many of the entries below `n` match entry `c`. */
  function MatchCount(hs: seq<ChunkStruct>, same: AddressTest, c: nat, n: nat): nat
    requires c < |hs| && n <= |hs|
  {
    if n == 0 then 0 else MatchCount(hs, same, c, n - 1) + (if Matches(hs, same, c, n - 1) then 1 else 0)
  }

  lemma {:induction false} MatchCountPositive(hs: seq<ChunkStruct>, same: AddressTest, c: nat, n: nat)
    requires c < |hs| && n <= |hs|
    ensures MatchCount(hs, same, c, n) > 0 <==> exists ca :: 0 <= ca < n && Matches(hs, same, c, ca)
  {
    if n > 0 {
      MatchCountPositive(hs, same, c, n - 1);
    }
  }

  /** The mark of a walked entry with `matches` matching entries. */
  function Mark(matches: nat): string {
    if matches > 0 then "toRemove" else "allocated"
  }

  /** The bin of entry `c` once classified: `"toRemove"` or `"allocated"` for a walked entry, otherwise unchanged. */
  function Classified(hs: seq<ChunkStruct>, same: AddressTest, c: nat): (b: string)
    requires c < |hs|
    ensures b != "allchunks"
  {
    if hs[c].bin != "allchunks" then hs[c].bin else Mark(MatchCount(hs, same, c, |hs|))
  }

  /** The allocated counter after the entries below `n` were examined. */
  function AllocatedUpTo(hs: seq<ChunkStruct>, same: AddressTest, n: nat): int
    requires n <= |hs|
  {
    if n == 0 then 0
    else
      AllocatedUpTo(hs, same, n - 1) + (if hs[n - 1].bin == "allchunks" then 1 - MatchCount(hs, same, n - 1, |hs|) else 0)
  }

  function Relabel(hs: seq<ChunkStruct>, same: AddressTest): (r: seq<ChunkStruct>)
    ensures |r| == |hs|
  {
    seq(|hs|, k requires 0 <= k < |hs| => hs[k].(bin := Classified(hs, same, k)))
  }

  /**
   * The classification loop of `InitHeap`, with `same` for its address
   * test: each walked entry is relabelled `"allocated"` and counted, then
   * marked `"toRemove"` and uncounted once for every matching entry.
   */
  method ClassifyChunks(hs: seq<ChunkStruct>, same: AddressTest) returns (out: seq<ChunkStruct>, count: int)
    ensures out == Relabel(hs, same)
    ensures count == AllocatedUpTo(hs, same, |hs|)
  {
    out := hs;
    count := 0;
    var c := 0;
    while c < |out|
      invariant 0 <= c <= |hs| && |out| == |hs|
      invariant out == Relabel(hs, same)[..c] + hs[c..]
      invariant count == AllocatedUpTo(hs, same, c)
    {
      out, count := ClassifyStep(hs, same, out, c, count);
      c := c + 1;
    }
    assert hs[|hs|..] == [];
    assert Relabel(hs, same)[..|hs|] == Relabel(hs, same);
  }

  /** One pass of the classification loop: entry `c` is examined when it is a walked entry. */
  method ClassifyStep(hs: seq<ChunkStruct>, same: AddressTest, out0: seq<ChunkStruct>, c: nat, count0: int)
    returns (out: seq<ChunkStruct>, count: int)
    requires c < |hs|
    requires out0 == Relabel(hs, same)[..c] + hs[c..]
    requires count0 == AllocatedUpTo(hs, same, c)
    ensures out == Relabel(hs, same)[..c + 1] + hs[c + 1..]
    ensures count == AllocatedUpTo(hs, same, c + 1)
  {
    assert hs[c..] == [hs[c]] + hs[c + 1..];
    assert out0[c] == hs[c];
    if out0[c].bin == "allchunks" {
      out, count := ExamineWalked(hs, same, out0, c, count0);
    } else {
      out, count := out0, count0;
      assert Relabel(hs, same)[..c + 1] == Relabel(hs, same)[..c] + [hs[c]];
    }
  }

  /**
   * The body of the classification loop for a walked entry `c`: the inner
   * loop over every entry. `current` is the entry being examined, the same
   * object as `hchunks[c]`.
   */
  method ExamineWalked(hs: seq<ChunkStruct>, same: AddressTest, out0: seq<ChunkStruct>, c: nat, count0: int)
    returns (out: seq<ChunkStruct>, count: int)
    requires c < |hs| && hs[c].bin == "allchunks"
    requires out0 == Relabel(hs, same)[..c] + [hs[c]] + hs[c + 1..]
    ensures out == Relabel(hs, same)[..c + 1] + hs[c + 1..]
    ensures count == count0 + 1 - MatchCount(hs, same, c, |hs|)
  {
    var front := Relabel(hs, same)[..c];
    var back := hs[c + 1..];
    var current := hs[c].(bin := "allocated");
    count := count0 + 1;
    var ca := 0;
    while ca < |hs|
      invariant 0 <= ca <= |hs|
      invariant current == hs[c].(bin := Mark(MatchCount(hs, same, c, ca)))
      invariant count == count0 + 1 - MatchCount(hs, same, c, ca)
    {
      var check := EntryAt(hs, same, c, current, ca);
      if check.bin != "allchunks" && c != ca {
        if same(current.address, check.address) {
          current := current.(bin := "toRemove");
          count := count - 1;
        }
      }
      ca := ca + 1;
    }
    out := front + [current] + back;
    assert Relabel(hs, same)[..c + 1] == front + [hs[c].(bin := Classified(hs, same, c))];
  }

  /**
   * `hchunks[ca]` while entry `c` is examined: the classified entry below
   * `c`, the current entry at `c`, the untouched entry above; which of them
   * is one whose bin is not `"allchunks"` is what `Matches` says.
   */
  function EntryAt(hs: seq<ChunkStruct>, same: AddressTest, c: nat, current: ChunkStruct, ca: nat): (check: ChunkStruct)
    requires c < |hs| && ca < |hs| && current.address == hs[c].address
    ensures check.address == hs[ca].address
    ensures MatchCount(hs, same, c, ca + 1) == MatchCount(hs, same, c, ca) +
      (if check.bin != "allchunks" && c != ca && same(current.address, check.address) then 1 else 0)
  {
    if ca < c then hs[ca].(bin := Classified(hs, same, ca))
    else if ca == c then current
    else hs[ca]
  }

  /** The entries that survive the removal pass: every one not marked `"toRemove"`, in order. */
  function Keep(hs: seq<ChunkStruct>): (r: seq<ChunkStruct>)
    ensures |r| <= |hs|
  {
    if |hs| == 0 then []
    else (if hs[0].bin == "toRemove" then [] else [hs[0]]) + Keep(hs[1..])
  }

  lemma {:induction false} KeepMembers(hs: seq<ChunkStruct>, x: ChunkStruct)
    ensures x in Keep(hs) <==> x in hs && x.bin != "toRemove"
  {
    if |hs| > 0 {
      KeepMembers(hs[1..], x);
      assert hs == [hs[0]] + hs[1..];
    }
  }

  /** The backward `splice` loop removing the entries marked `"toRemove"`. */
  method RemoveMarked(hs: seq<ChunkStruct>) returns (out: seq<ChunkStruct>)
    ensures out == Keep(hs)
  {
    out := hs;
    var r := |hs| - 1;
    while r >= 0
      invariant -1 <= r < |hs|
      invariant out == hs[..r + 1] + Keep(hs[r + 1..])
    {
      assert hs[r..] == [hs[r]] + hs[r + 1..];
      if out[r].bin == "toRemove" {
        out := out[..r] + out[r + 1..];
        assert out == hs[..r] + Keep(hs[r..]);
      } else {
        assert out == hs[..r] + Keep(hs[r..]);
      }
      r := r - 1;
    }
    assert hs[0..] == hs;
  }

  /** The browser's globals after a snapshot arrives: `binsheads` and `hchunks`. */
  datatype Loaded = Loaded(heads: OMap<string>, chunks: seq<ChunkStruct>)

  /** `k` is the key of some entry. */
  predicate HasKey(entries: seq<(string, string)>, k: string) {
    exists i :: 0 <= i < |entries| && entries[i].0 == k
  }

  /** The position of the first entry with key `k`. */
  function FirstAt(entries: seq<(string, string)>, k: string): (i: nat)
    requires HasKey(entries, k)
    ensures i < |entries| && entries[i].0 == k
    ensures forall j :: 0 <= j < i ==> entries[j].0 != k
  {
    if entries[0].0 == k then 0
    else
      assert HasKey(entries[1..], k) by {
        var i :| 0 <= i < |entries| && entries[i].0 == k;
        assert entries[1..][i - 1] == entries[i];
      }
      1 + FirstAt(entries[1..], k)
  }

  /** No entry after the `i`-th has the same key: the `i`-th entry is its key's last. */
  predicate LastOfKey(entries: seq<(string, string)>, i: int)
    requires 0 <= i < |entries|
  {
    forall j :: i < j < |entries| ==> entries[j].0 != entries[i].0
  }

  /** Each key holds the value of its last entry. */
  predicate LastValues(entries: seq<(string, string)>, values: map<string, string>) {
    forall i :: 0 <= i < |entries| && LastOfKey(entries, i) ==> entries[i].0 in values && values[entries[i].0] == entries[i].1
  }

  /** The keys come in the order of their first entries. */
  predicate InFirstOrder(entries: seq<(string, string)>, keys: seq<string>) {
    forall i, j :: 0 <= i < j < |keys| ==>
      (HasKey(entries, keys[i]) && HasKey(entries, keys[j]) && FirstAt(entries, keys[i]) < FirstAt(entries, keys[j]))
  }

  /** The heads object built by copying the snapshot's heads in order. */
  function CopyHeads(entries: seq<(string, string)>): (d: OMap<string>)
    ensures d.Valid()
    ensures forall k :: k in d.values <==> HasKey(entries, k)
  {
    if |entries| == 0 then Empty()
    else
      var n := |entries| - 1;
      var front := CopyHeads(entries[..n]);
      CopyHeadsKeys(entries, front);
      Put(front, entries[n].0, entries[n].1)
  }

  /** The heads are copied verbatim: each key holds the value of its last entry. */
  lemma {:induction false} CopyHeadsValuesKept(entries: seq<(string, string)>)
    ensures LastValues(entries, CopyHeads(entries).values)
  {
    if |entries| > 0 {
      var n := |entries| - 1;
      CopyHeadsValuesKept(entries[..n]);
      var front := CopyHeads(entries[..n]);
      assert CopyHeads(entries) == Put(front, entries[n].0, entries[n].1);
      assert entries[..|entries| - 1] == entries[..n];
      CopyHeadsValues(entries, front);
    }
  }

  /** The heads keep the order of their first entries. */
  lemma {:induction false} CopyHeadsKeyOrder(entries: seq<(string, string)>)
    ensures InFirstOrder(entries, CopyHeads(entries).keys)
  {
    if |entries| > 0 {
      var n := |entries| - 1;
      CopyHeadsKeyOrder(entries[..n]);
      var front := CopyHeads(entries[..n]);
      assert CopyHeads(entries) == Put(front, entries[n].0, entries[n].1);
      assert entries[..|entries| - 1] == entries[..n];
      assert forall k :: k in front.values <==> HasKey(entries[..n], k);
      CopyHeadsOrder(entries, front);
    }
  }

  /** Adding the last entry: the keys present are the keys of all entries. */
  lemma {:induction false} CopyHeadsKeys(entries: seq<(string, string)>, front: OMap<string>)
    requires |entries| > 0 && front.Valid()
    requires forall k :: k in front.values <==> HasKey(entries[..|entries| - 1], k)
    ensures forall k :: k in Put(front, entries[|entries| - 1].0, entries[|entries| - 1].1).values <==> HasKey(entries, k)
  {
    var n := |entries| - 1;
    var init := entries[..n];
    forall k | HasKey(entries, k) && k != entries[n].0 ensures HasKey(init, k) {
      var i :| 0 <= i < |entries| && entries[i].0 == k;
      assert init[i] == entries[i];
    }
    forall k | HasKey(init, k) ensures HasKey(entries, k) {
      var i :| 0 <= i < |init| && init[i].0 == k;
      assert entries[i] == init[i];
    }
  }

  /** Adding the last entry: every key holds its last entry's value. */
  lemma {:induction false} CopyHeadsValues(entries: seq<(string, string)>, front: OMap<string>)
    requires |entries| > 0 && front.Valid()
    requires LastValues(entries[..|entries| - 1], front.values)
    ensures LastValues(entries, Put(front, entries[|entries| - 1].0, entries[|entries| - 1].1).values)
  {
    var n := |entries| - 1;
    var init := entries[..n];
    forall i | 0 <= i < n && LastOfKey(entries, i) ensures LastOfKey(init, i) && init[i] == entries[i] && entries[i].0 != entries[n].0 {
      forall j | i < j < |init| ensures init[j].0 != init[i].0 {
        assert init[j] == entries[j];
      }
    }
  }

  /** Adding the last entry: the keys stay in the order of their first entries. */
  lemma {:induction false} CopyHeadsOrder(entries: seq<(string, string)>, front: OMap<string>)
    requires |entries| > 0 && front.Valid()
    requires forall k :: k in front.values <==> HasKey(entries[..|entries| - 1], k)
    requires InFirstOrder(entries[..|entries| - 1], front.keys)
    ensures InFirstOrder(entries, Put(front, entries[|entries| - 1].0, entries[|entries| - 1].1).keys)
  {
    var n := |entries| - 1;
    var init := entries[..n];
    var last := entries[n];
    forall x | x in front.keys ensures HasKey(init, x) && HasKey(entries, x) && FirstAt(entries, x) == FirstAt(init, x) < n {
      FirstAtPrefix(entries, n, x);
    }
    InFirstOrderTransfer(entries, init, front.keys);
    if last.0 !in front.keys {
      assert HasKey(entries, last.0);
      assert FirstAt(entries, last.0) == n by {
        forall m | 0 <= m < n ensures entries[m].0 != last.0 {
          assert init[m] == entries[m];
        }
      }
      InFirstOrderSnoc(entries, front.keys, last.0);
    }
  }

  /** Keys first found at the same places in two entry sequences are ordered alike in both. */
  lemma {:induction false} InFirstOrderTransfer(entries: seq<(string, string)>, other: seq<(string, string)>, keys: seq<string>)
    requires InFirstOrder(other, keys)
    requires forall x :: x in keys ==>
      HasKey(other, x) && HasKey(entries, x) && FirstAt(entries, x) == FirstAt(other, x)
    ensures InFirstOrder(entries, keys)
  {
    forall i, j | 0 <= i < j < |keys|
      ensures HasKey(entries, keys[i]) && HasKey(entries, keys[j]) && FirstAt(entries, keys[i]) < FirstAt(entries, keys[j])
    {
      assert keys[i] in keys && keys[j] in keys;
    }
  }

  /** A key first found after all the others may follow them. */
  lemma {:induction false} InFirstOrderSnoc(entries: seq<(string, string)>, keys: seq<string>, x: string)
    requires InFirstOrder(entries, keys) && HasKey(entries, x)
    requires forall y :: y in keys ==> HasKey(entries, y) && FirstAt(entries, y) < FirstAt(entries, x)
    ensures InFirstOrder(entries, keys + [x])
  {
    var keys' := keys + [x];
    forall i, j | 0 <= i < j < |keys'|
      ensures HasKey(entries, keys'[i]) && HasKey(entries, keys'[j]) && FirstAt(entries, keys'[i]) < FirstAt(entries, keys'[j])
    {
      assert keys'[i] == keys[i] && keys[i] in keys;
      if j < |keys| {
        assert keys'[j] == keys[j];
      }
    }
  }

  /** A key of a prefix is first found at the same place in the whole sequence. */
  lemma {:induction false} FirstAtPrefix(entries: seq<(string, string)>, n: nat, x: string)
    requires n <= |entries| && HasKey(entries[..n], x)
    ensures HasKey(entries, x) && FirstAt(entries, x) == FirstAt(entries[..n], x)
  {
    var init := entries[..n];
    var p := FirstAt(init, x);
    assert entries[p] == init[p];
    var q := FirstAt(entries, x);
    assert q <= p;
    assert init[q] == entries[q];
  }

  function SetCount(heads: OMap<string>, count: int): (d: OMap<string>)
    requires heads.Valid()
    ensures d.Valid()
    ensures d.values == heads.values[ "allocated" := DecStr(count)] - {"allchunkshead"}
  {
    Remove(Put(heads, "allocated", DecStr(count)), "allchunkshead")
  }

  lemma {:induction false} SetCountShows(heads: OMap<string>, count: int)
    requires heads.Valid()
    ensures SetCount(heads, count).values["allocated"] == DecStr(count)
    ensures "allchunkshead" !in SetCount(heads, count).values
  {
    var m := heads.values["allocated" := DecStr(count)];
    assert "allocated" != "allchunkshead";
    assert (m - {"allchunkshead"})["allocated"] == m["allocated"];
  }

  /** `InitHeap` as written: its counter is lowered once per matching entry. */
  function InitHeapAsWritten(data: R.HeapData): (s: Loaded)
    ensures s.heads.Valid()
  {
    LoadAsWritten(data, SameChunk)
  }

  /** `InitHeap` as written, with `same` for its address test. */
  function LoadAsWritten(data: R.HeapData, same: AddressTest): (s: Loaded)
    ensures s.heads.Valid()
  {
    var hs := Flatten(data.bins);
    Loaded(SetCount(CopyHeads(data.heads), AllocatedUpTo(hs, same, |hs|)), Keep(Relabel(hs, same)))
  }

  /** `InitHeap` step by step: flatten, classify, remove, set the count. */
  method LoadHeap(data: R.HeapData) returns (s: Loaded)
    ensures s == InitHeapAsWritten(data)
  {
    var hs := Flatten(data.bins);
    var classified, count := ClassifyChunks(hs, SameChunk);
    var kept := RemoveMarked(classified);
    s := Loaded(SetCount(CopyHeads(data.heads), count), kept);
  }

  /** `getBinChunks(bin)`: the entries of `bin`, in list order. */
  function GetBinChunks(hs: seq<ChunkStruct>, bin: string): (r: seq<ChunkStruct>)
    ensures |r| <= |hs|
    ensures forall i :: 0 <= i < |r| ==> r[i].bin == bin
  {
    if |hs| == 0 then []
    else GetBinChunks(hs[..|hs| - 1], bin) + (if hs[|hs| - 1].bin == bin then [hs[|hs| - 1]] else [])
  }

  /** An entry is selected exactly when it is in the list with that bin. */
  lemma {:induction false} GetBinChunksMembers(hs: seq<ChunkStruct>, bin: string, x: ChunkStruct)
    ensures x in GetBinChunks(hs, bin) <==> x in hs && x.bin == bin
  {
    if |hs| > 0 {
      GetBinChunksMembers(hs[..|hs| - 1], bin, x);
      assert hs == hs[..|hs| - 1] + [hs[|hs| - 1]];
    }
  }

  /** Selecting from a concatenation selects from each part, so relative order is kept. */
  lemma {:induction false} GetBinChunksAppend(xs: seq<ChunkStruct>, ys: seq<ChunkStruct>, bin: string)
    decreases |ys|
    ensures GetBinChunks(xs + ys, bin) == GetBinChunks(xs, bin) + GetBinChunks(ys, bin)
  {
    if |ys| == 0 {
      assert xs + ys == xs;
    } else {
      var front := ys[..|ys| - 1];
      GetBinChunksAppend(xs, front, bin);
      assert (xs + ys)[..|xs + ys| - 1] == xs + front;
      assert (xs + ys)[|xs + ys| - 1] == ys[|ys| - 1];
    }
  }

  lemma {:induction false} GetBinChunksSingle(x: ChunkStruct, bin: string)
    ensures GetBinChunks([x], bin) == if x.bin == bin then [x] else []
  {
    assert [x][..0] == [];
  }

  lemma {:induction false} GetBinChunksKeep(hs: seq<ChunkStruct>, bin: string)
    requires bin != "toRemove"
    ensures GetBinChunks(Keep(hs), bin) == GetBinChunks(hs, bin)
  {
    if |hs| > 0 {
      var head := if hs[0].bin == "toRemove" then [] else [hs[0]];
      var rest := hs[1..];
      calc {
        GetBinChunks(Keep(hs), bin);
        GetBinChunks(head + Keep(rest), bin);
        { GetBinChunksAppend(head, Keep(rest), bin); }
        GetBinChunks(head, bin) + GetBinChunks(Keep(rest), bin);
        { GetBinChunksKeep(rest, bin); GetBinChunksHead(hs[0], bin); }
        GetBinChunks([hs[0]], bin) + GetBinChunks(rest, bin);
        { GetBinChunksAppend([hs[0]], rest, bin); }
        GetBinChunks([hs[0]] + rest, bin);
        { assert hs == [hs[0]] + rest; }
        GetBinChunks(hs, bin);
      }
    }
  }

  /** A removed entry was not in any bin that can be selected. */
  lemma {:induction false} GetBinChunksHead(x: ChunkStruct, bin: string)
    requires bin != "toRemove"
    ensures GetBinChunks(if x.bin == "toRemove" then [] else [x], bin) == GetBinChunks([x], bin)
  {
    GetBinChunksSingle(x, bin);
  }

  /** Two lists that agree on which entries are in `bin`, and on those entries, select the same. */
  lemma {:induction false} GetBinChunksAgree(s: seq<ChunkStruct>, t: seq<ChunkStruct>, bin: string)
    requires |s| == |t|
    requires forall k :: 0 <= k < |s| ==> (s[k].bin == bin <==> t[k].bin == bin)
    requires forall k :: 0 <= k < |s| && s[k].bin == bin ==> s[k] == t[k]
    ensures GetBinChunks(s, bin) == GetBinChunks(t, bin)
  {
    if |s| > 0 {
      GetBinChunksAgree(s[..|s| - 1], t[..|t| - 1], bin);
    }
  }

  /**
   * A walked entry is removed exactly when another entry matches it, and
   * otherwise becomes `"allocated"`; free-list entries keep their bin.
   */
  lemma {:induction false} ClassifiedWalked(hs: seq<ChunkStruct>, same: AddressTest, c: nat)
    requires c < |hs|
    ensures hs[c].bin == "allchunks" ==>
      (Classified(hs, same, c) == "toRemove" <==> exists ca :: 0 <= ca < |hs| && Matches(hs, same, c, ca))
    ensures hs[c].bin == "allchunks" ==>
      (Classified(hs, same, c) == "allocated" <==> !exists ca :: 0 <= ca < |hs| && Matches(hs, same, c, ca))
    ensures hs[c].bin != "allchunks" ==> Classified(hs, same, c) == hs[c].bin
  {
    MatchCountPositive(hs, same, c, |hs|);
  }

  /**
   * Every free list reaches the browser whole: the entries of any bin other
   * than the three classification labels are the snapshot's records of that
   * bin, in the same order.
   */
  lemma {:induction false} FreeListsKept(data: R.HeapData, bin: string)
    requires bin != "allchunks" && bin != "toRemove" && bin != "allocated"
    ensures GetBinChunks(InitHeapAsWritten(data).chunks, bin) == GetBinChunks(Flatten(data.bins), bin)
  {
    var hs := Flatten(data.bins);
    GetBinChunksKeep(Relabel(hs, SameChunk), bin);
    GetBinChunksAgree(Relabel(hs, SameChunk), hs, bin);
  }

  /** The walked entries with no matching entry: the count the browser evidently means to show. */
  function Unmatched(hs: seq<ChunkStruct>, same: AddressTest, n: nat): (count: nat)
    requires n <= |hs|
    ensures count <= n
  {
    if n == 0 then 0
    else
      Unmatched(hs, same, n - 1) + (if hs[n - 1].bin == "allchunks" && MatchCount(hs, same, n - 1, |hs|) == 0 then 1 else 0)
  }

  /** `InitHeap` with the count of walked entries that stay allocated. */
  function InitHeap(data: R.HeapData): (s: Loaded)
    ensures s.heads.Valid()
    ensures s.chunks == InitHeapAsWritten(data).chunks
  {
    Load(data, SameChunk)
  }

  /** `InitHeap` with the corrected count, with `same` for its address test. */
  function Load(data: R.HeapData, same: AddressTest): (s: Loaded)
    ensures s.heads.Valid()
    ensures s.chunks == LoadAsWritten(data, same).chunks
  {
    var hs := Flatten(data.bins);
    Loaded(SetCount(CopyHeads(data.heads), Unmatched(hs, same, |hs|)), Keep(Relabel(hs, same)))
  }

  function CountBin(hs: seq<ChunkStruct>, bin: string): nat {
    |GetBinChunks(hs, bin)|
  }

  lemma {:induction false} UnmatchedIsAllocated(hs: seq<ChunkStruct>, same: AddressTest, n: nat)
    requires n <= |hs|
    requires forall k :: 0 <= k < |hs| ==> hs[k].bin != "allocated"
    ensures Unmatched(hs, same, n) == CountBin(Relabel(hs, same)[..n], "allocated")
  {
    if n > 0 {
      var r := Relabel(hs, same);
      calc {
        CountBin(r[..n], "allocated");
        { assert r[..n] == r[..n - 1] + [r[n - 1]]; }
        CountBin(r[..n - 1] + [r[n - 1]], "allocated");
        { CountBinSnoc(r[..n - 1], r[n - 1], "allocated"); }
        CountBin(r[..n - 1], "allocated") + (if r[n - 1].bin == "allocated" then 1 else 0);
        { UnmatchedIsAllocated(hs, same, n - 1); RelabelAllocated(hs, same, n - 1); }
        Unmatched(hs, same, n);
      }
    }
  }

  /** With no snapshot bin called `"allocated"`, an entry is classified allocated exactly when it is an unmatched walked entry. */
  lemma {:induction false} RelabelAllocated(hs: seq<ChunkStruct>, same: AddressTest, k: nat)
    requires k < |hs| && hs[k].bin != "allocated"
    ensures (Relabel(hs, same)[k].bin == "allocated") == (hs[k].bin == "allchunks" && MatchCount(hs, same, k, |hs|) == 0)
  {
    assert Relabel(hs, same)[k] == hs[k].(bin := Classified(hs, same, k));
  }

  lemma {:induction false} CountBinSnoc(xs: seq<ChunkStruct>, x: ChunkStruct, bin: string)
    ensures CountBin(xs + [x], bin) == CountBin(xs, bin) + (if x.bin == bin then 1 else 0)
  {
    GetBinChunksAppend(xs, [x], bin);
    GetBinChunksSingle(x, bin);
  }

  /**
   * The corrected count is the number of entries the browser then shows as
   * allocated, provided no bin of the snapshot is itself called `"allocated"`.
   */
  lemma {:induction false} InitHeapCount(data: R.HeapData)
    requires forall k :: 0 <= k < |Flatten(data.bins)| ==> Flatten(data.bins)[k].bin != "allocated"
    ensures var s := InitHeap(data);
      s.heads.values["allocated"] == DecStr(CountBin(s.chunks, "allocated"))
      && "allchunkshead" !in s.heads.values
  {
    LoadCount(data, SameChunk);
  }

  /** `InitHeapCount` for any address test. */
  lemma {:induction false} LoadCount(data: R.HeapData, same: AddressTest)
    requires forall k :: 0 <= k < |Flatten(data.bins)| ==> Flatten(data.bins)[k].bin != "allocated"
    ensures var s := Load(data, same);
      s.heads.values["allocated"] == DecStr(CountBin(s.chunks, "allocated"))
      && "allchunkshead" !in s.heads.values
  {
    var hs := Flatten(data.bins);
    UnmatchedIsAllocated(hs, same, |hs|);
    assert Relabel(hs, same)[..|hs|] == Relabel(hs, same);
    GetBinChunksKeep(Relabel(hs, same), "allocated");
    SetCountShows(CopyHeads(data.heads), Unmatched(hs, same, |hs|));
  }

  /**
   * A walked entry followed by two free-list entries that both match it:
   * the counter ends at `-1`, though the walked entry is removed and nothing
   * is left allocated.
   */
  lemma {:induction false} TwiceFreed(w: ChunkStruct, f: ChunkStruct, same: AddressTest)
    requires w.bin == "allchunks" && f.bin == "tcachebins" && same(w.address, f.address)
    ensures AllocatedUpTo([w, f, f], same, 3) == -1
    ensures Unmatched([w, f, f], same, 3) == 0
    ensures Keep(Relabel([w, f, f], same)) == [f, f]
  {
    var hs := [w, f, f];
    assert Matches(hs, same, 0, 1) && Matches(hs, same, 0, 2) && !Matches(hs, same, 0, 0);
    assert MatchCount(hs, same, 0, 1) == 0;
    assert MatchCount(hs, same, 0, 2) == 1;
    assert MatchCount(hs, same, 0, 3) == 2;
    assert AllocatedUpTo(hs, same, 1) == -1;
    assert AllocatedUpTo(hs, same, 2) == -1;
    assert Unmatched(hs, same, 1) == 0;
    assert Unmatched(hs, same, 2) == 0;
    var r := Relabel(hs, same);
    assert r[0].bin == "toRemove" && r[1] == f && r[2] == f;
    assert r[1..][1..] == [f] && [f][1..] == [];
    assert Keep(r[1..][1..]) == [f];
  }

  /**
   * The count as written can disagree with the entries shown: a walked chunk
   * whose address a double free put twice on a tcache list is uncounted
   * twice, so the head reads `-1` while no entry is allocated.
   */
  lemma {:induction false} AllocatedCountAsWritten(rec: R.ChunkRecord)
    requires HInt(rec.address).Some?
    ensures var data := R.HeapData([], [("allchunks", [rec]), ("tcachebins", [rec, rec])]);
      && InitHeapAsWritten(data).heads.values["allocated"] == DecStr(-1)
      && InitHeap(data).heads.values["allocated"] == DecStr(0)
      && CountBin(InitHeapAsWritten(data).chunks, "allocated") == 0
  {
    var data := R.HeapData([], [("allchunks", [rec]), ("tcachebins", [rec, rec])]);
    var w, f := NewChunk("allchunks", rec), NewChunk("tcachebins", rec);
    assert SameChunk(w.address, f.address);
    TwiceFreedFlat(rec);
    LoadTwiceFreed(data, w, f, SameChunk);
  }

  /** `AllocatedCountAsWritten` for any snapshot that flattens to such a walked entry and two matching free-list entries. */
  lemma {:induction false} LoadTwiceFreed(data: R.HeapData, w: ChunkStruct, f: ChunkStruct, same: AddressTest)
    requires data.heads == [] && Flatten(data.bins) == [w, f, f]
    requires w.bin == "allchunks" && f.bin == "tcachebins" && same(w.address, f.address)
    ensures LoadAsWritten(data, same).heads.values["allocated"] == DecStr(-1)
    ensures Load(data, same).heads.values["allocated"] == DecStr(0)
    ensures CountBin(LoadAsWritten(data, same).chunks, "allocated") == 0
  {
    LoadTwiceFreedShape(data, w, f, same);
    SetCountShows(CopyHeads([]), -1);
    SetCountShows(CopyHeads([]), 0);
    CountBinTwice(f);
  }

  lemma {:induction false} LoadTwiceFreedShape(data: R.HeapData, w: ChunkStruct, f: ChunkStruct, same: AddressTest)
    requires data.heads == [] && Flatten(data.bins) == [w, f, f]
    requires w.bin == "allchunks" && f.bin == "tcachebins" && same(w.address, f.address)
    ensures LoadAsWritten(data, same) == Loaded(SetCount(CopyHeads([]), -1), [f, f])
    ensures Load(data, same) == Loaded(SetCount(CopyHeads([]), 0), [f, f])
  {
    TwiceFreed(w, f, same);
  }

  lemma {:induction false} CountBinTwice(f: ChunkStruct)
    requires f.bin != "allocated"
    ensures CountBin([f, f], "allocated") == 0
  {
    GetBinChunksAppend([f], [f], "allocated");
    GetBinChunksSingle(f, "allocated");
    assert [f] + [f] == [f, f];
  }

  lemma {:induction false} TwiceFreedFlat(rec: R.ChunkRecord)
    ensures Flatten([("allchunks", [rec]), ("tcachebins", [rec, rec])])
      == [NewChunk("allchunks", rec), NewChunk("tcachebins", rec), NewChunk("tcachebins", rec)]
  {
    var bins := [("allchunks", [rec]), ("tcachebins", [rec, rec])];
    assert bins[..1] == [("allchunks", [rec])];
    assert bins[..1][..0] == [];
    assert Flatten(bins[..1]) == [NewChunk("allchunks", rec)];
  }

  /** A record written by the recorders, whose address is `hex` of an integer, has a number for `hInt`. */
  lemma {:induction false} AllocatedCountAsWrittenHex(rec: R.ChunkRecord, n: nat)
    requires rec.address == Hex(n)
    ensures var data := R.HeapData([], [("allchunks", [rec]), ("tcachebins", [rec, rec])]);
      InitHeapAsWritten(data).heads.values["allocated"] == DecStr(-1)
  {
    HIntHex(n);
    AllocatedCountAsWritten(rec);
  }

  /** Where an edge leaves or enters a chunk's box. */
  datatype Port = FdPtr | BkPtr | PrevSize

  datatype End = HeadEnd(name: string) | ChunkEnd(bin: string, index: string, port: Port)

  /** An edge of the graph; `visible` is false for the layout edges `[style=invis]`. */
  datatype Edge = Edge(src: End, dst: End, visible: bool)

  /** Only tcache entries point at the user data, where `fd` is; the others at the chunk's start. */
  function PointAt(bin: string): (p: Port)
    ensures p == FdPtr <==> Contains(bin, "tcache")
    ensures p != BkPtr
  {
    if Contains(bin, "tcache") then FdPtr else PrevSize
  }

  function HeadEdge(name: string, c: ChunkStruct): Edge {
    Edge(HeadEnd(name), ChunkEnd(c.bin, c.index, PointAt(c.bin)), true)
  }

  /** The edges from one head: one to every entry whose address string equals the head's value. */
  function HeadTargets(name: string, value: string, hs: seq<ChunkStruct>): (r: seq<Edge>)
  {
    if |hs| == 0 then []
    else HeadTargets(name, value, hs[..|hs| - 1]) + (if value == hs[|hs| - 1].address then [HeadEdge(name, hs[|hs| - 1])] else [])
  }

  lemma {:induction false} HeadTargetsMembers(name: string, value: string, hs: seq<ChunkStruct>, e: Edge)
    ensures e in HeadTargets(name, value, hs) <==>
      exists k :: 0 <= k < |hs| && value == hs[k].address && e == HeadEdge(name, hs[k])
  {
    if |hs| > 0 {
      var n := |hs| - 1;
      HeadTargetsMembers(name, value, hs[..n], e);
      if exists k :: 0 <= k < |hs| && value == hs[k].address && e == HeadEdge(name, hs[k]) {
        var k :| 0 <= k < |hs| && value == hs[k].address && e == HeadEdge(name, hs[k]);
        if k < n { assert hs[..n][k] == hs[k]; }
      }
    }
  }

  /** The loop over the heads, given as their (name, value) entries in key order. */
  function HeadEdges(heads: seq<(string, string)>, hs: seq<ChunkStruct>): (r: seq<Edge>)
  {
    if |heads| == 0 then []
    else HeadEdges(heads[..|heads| - 1], hs) + HeadTargets(heads[|heads| - 1].0, heads[|heads| - 1].1, hs)
  }

  /** Head `h` holds entry `k`'s address string, and `e` is the edge between them. */
  predicate HeadLinks(heads: seq<(string, string)>, h: nat, hs: seq<ChunkStruct>, k: nat, e: Edge)
    requires h < |heads| && k < |hs|
  {
    heads[h].1 == hs[k].address && e == HeadEdge(heads[h].0, hs[k])
  }

  /**
   * A head edge `head -> entry k` exists exactly when the head's value is
   * the entry's address string; it enters at `fdPtr` exactly when the
   * entry's bin is a tcache bin.
   */
  lemma {:induction false} HeadEdgesMembers(heads: seq<(string, string)>, hs: seq<ChunkStruct>, e: Edge)
    ensures e in HeadEdges(heads, hs) <==>
      exists h, k :: 0 <= h < |heads| && 0 <= k < |hs| && HeadLinks(heads, h, hs, k, e)
  {
    if e in HeadEdges(heads, hs) {
      HeadEdgesSound(heads, hs, e);
    }
    if exists h, k :: 0 <= h < |heads| && 0 <= k < |hs| && HeadLinks(heads, h, hs, k, e) {
      var h, k :| 0 <= h < |heads| && 0 <= k < |hs| && HeadLinks(heads, h, hs, k, e);
      HeadEdgesComplete(heads, hs, h, k, e);
    }
  }

  lemma {:induction false} HeadEdgesSound(heads: seq<(string, string)>, hs: seq<ChunkStruct>, e: Edge)
    requires e in HeadEdges(heads, hs)
    ensures exists h, k :: 0 <= h < |heads| && 0 <= k < |hs| && HeadLinks(heads, h, hs, k, e)
  {
    var n := |heads| - 1;
    var front := heads[..n];
    if e in HeadEdges(front, hs) {
      HeadEdgesSound(front, hs, e);
      var h, k :| 0 <= h < n && 0 <= k < |hs| && HeadLinks(front, h, hs, k, e);
      assert HeadLinks(heads, h, hs, k, e);
    } else {
      assert e in HeadTargets(heads[n].0, heads[n].1, hs);
      HeadTargetsMembers(heads[n].0, heads[n].1, hs, e);
      var k :| 0 <= k < |hs| && heads[n].1 == hs[k].address && e == HeadEdge(heads[n].0, hs[k]);
      assert HeadLinks(heads, n, hs, k, e);
    }
  }

  lemma {:induction false} HeadEdgesComplete(heads: seq<(string, string)>, hs: seq<ChunkStruct>, h: nat, k: nat, e: Edge)
    requires h < |heads| && k < |hs| && HeadLinks(heads, h, hs, k, e)
    ensures e in HeadEdges(heads, hs)
  {
    var n := |heads| - 1;
    var front := heads[..n];
    var targets := HeadTargets(heads[n].0, heads[n].1, hs);
    assert HeadEdges(heads, hs) == HeadEdges(front, hs) + targets;
    if h < n {
      assert HeadLinks(front, h, hs, k, e);
      HeadEdgesComplete(front, hs, h, k, e);
    } else {
      HeadTargetsMembers(heads[n].0, heads[n].1, hs, e);
      assert heads[n].1 == hs[k].address && e == HeadEdge(heads[n].0, hs[k]);
      assert e in targets;
    }
  }

  function FdEdge(c: ChunkStruct, d: ChunkStruct): Edge {
    Edge(ChunkEnd(c.bin, c.index, FdPtr), ChunkEnd(d.bin, d.index, PointAt(c.bin)), true)
  }

  function BkEdge(c: ChunkStruct, d: ChunkStruct): Edge {
    Edge(ChunkEnd(c.bin, c.index, BkPtr), ChunkEnd(d.bin, d.index, PointAt(c.bin)), true)
  }

  /**
   * The inner loop over `j` for chunk `c`: an `fd` edge to every entry
   * whose address string is `c`'s `fd` string, then likewise for `bk`. The
   * port is chosen by `c`'s bin, not the target's.
   */
  function PointerEdges(c: ChunkStruct, hs: seq<ChunkStruct>): (r: seq<Edge>)
  {
    if |hs| == 0 then []
    else
      var d := hs[|hs| - 1];
      PointerEdges(c, hs[..|hs| - 1])
        + (if c.fd == d.address then [FdEdge(c, d)] else [])
        + (if c.bk == d.address then [BkEdge(c, d)] else [])
  }

  /** Edges leaving `c` are exactly its `fd` and `bk` edges to the entries they name, the entry itself included. */
  lemma {:induction false} PointerEdgesMembers(c: ChunkStruct, hs: seq<ChunkStruct>, e: Edge)
    ensures e in PointerEdges(c, hs) <==>
      exists j :: 0 <= j < |hs| && ((c.fd == hs[j].address && e == FdEdge(c, hs[j]))
                                   || (c.bk == hs[j].address && e == BkEdge(c, hs[j])))
  {
    if |hs| > 0 {
      var n := |hs| - 1;
      PointerEdgesMembers(c, hs[..n], e);
      if exists j :: 0 <= j < |hs| && ((c.fd == hs[j].address && e == FdEdge(c, hs[j]))
                                      || (c.bk == hs[j].address && e == BkEdge(c, hs[j]))) {
        var j :| 0 <= j < |hs| && ((c.fd == hs[j].address && e == FdEdge(c, hs[j]))
                                  || (c.bk == hs[j].address && e == BkEdge(c, hs[j])));
        if j < n { assert hs[..n][j] == hs[j]; }
      }
    }
  }

  /**
   * The entry the invisible layout edge into allocated entry `i` comes
   * from: the closest allocated entry before `i` with the same size string,
   * or `i` itself when there is none.
   */
  function PrevSameSize(hs: seq<ChunkStruct>, i: nat): (k: nat)
    requires i < |hs|
    ensures k <= i
  {
    PrevSameSizeBelow(hs, hs[i].chunkSize, i, i)
  }

  function PrevSameSizeBelow(hs: seq<ChunkStruct>, size: string, n: nat, dflt: nat): (k: nat)
    requires n <= dflt < |hs|
    ensures k == dflt || (k < n && hs[k].bin == "allocated" && hs[k].chunkSize == size)
    ensures k != dflt ==> forall m :: k < m < n ==> !(hs[m].bin == "allocated" && hs[m].chunkSize == size)
    ensures k == dflt ==> forall m :: 0 <= m < n ==> !(hs[m].bin == "allocated" && hs[m].chunkSize == size)
  {
    if n == 0 then dflt
    else if hs[n - 1].bin == "allocated" && hs[n - 1].chunkSize == size then n - 1
    else PrevSameSizeBelow(hs, size, n - 1, dflt)
  }

  function InvisibleEdge(from: ChunkStruct, to: ChunkStruct): Edge {
    Edge(ChunkEnd(from.bin, from.index, FdPtr), ChunkEnd(to.bin, to.index, FdPtr), false)
  }

  /** `lastAllocated` after the entries below `n`: for each size string, the last allocated entry of that size. */
  predicate LastAllocated(hs: seq<ChunkStruct>, n: nat, last: map<string, nat>)
    requires n <= |hs|
  {
    && (forall s :: s in last ==> last[s] < n && hs[last[s]].bin == "allocated" && hs[last[s]].chunkSize == s)
    && (forall s :: s in last ==> forall m :: last[s] < m < n ==> !(hs[m].bin == "allocated" && hs[m].chunkSize == s))
    && (forall m :: 0 <= m < n && hs[m].bin == "allocated" ==> hs[m].chunkSize in last)
  }

  /**
   * The outer loop of the chunk-to-chunk part from entry `i` on, with
   * `last` as `lastAllocated`: for each entry, its layout edge when it is
   * allocated, then its pointer edges.
   */
  function ChunkEdgesFrom(hs: seq<ChunkStruct>, i: nat, last: map<string, nat>): (r: seq<Edge>)
    requires i <= |hs|
    requires forall s :: s in last ==> last[s] < |hs|
    decreases |hs| - i
  {
    if i == |hs| then []
    else
      var c := hs[i];
      var invisible :=
        if c.bin == "allocated" then [InvisibleEdge(hs[if c.chunkSize in last then last[c.chunkSize] else i], c)] else [];
      var last' := if c.bin == "allocated" then last[c.chunkSize := i] else last;
      invisible + PointerEdges(c, hs) + ChunkEdgesFrom(hs, i + 1, last')
  }

  /** The rows of the chunk-to-chunk loop: entry `i`'s layout edge and pointer edges. */
  function ChunkRow(hs: seq<ChunkStruct>, i: nat): seq<Edge>
    requires i < |hs|
  {
    (if hs[i].bin == "allocated" then [InvisibleEdge(hs[PrevSameSize(hs, i)], hs[i])] else []) + PointerEdges(hs[i], hs)
  }

  function ChunkRows(hs: seq<ChunkStruct>, i: nat): seq<Edge>
    requires i <= |hs|
    decreases |hs| - i
  {
    if i == |hs| then [] else ChunkRow(hs, i) + ChunkRows(hs, i + 1)
  }

  /**
   * The `lastAllocated` bookkeeping draws each allocated entry's layout
   * edge from the previous allocated entry of the same size string, and
   * the first entry of each size from itself.
   */
  lemma {:induction false} ChunkEdgesLayout(hs: seq<ChunkStruct>, i: nat, last: map<string, nat>)
    requires i <= |hs| && LastAllocated(hs, i, last)
    decreases |hs| - i
    ensures ChunkEdgesFrom(hs, i, last) == ChunkRows(hs, i)
  {
    if i < |hs| {
      var last' := if hs[i].bin == "allocated" then last[hs[i].chunkSize := i] else last;
      LastAllocatedStep(hs, i, last);
      ChunkEdgesStep(hs, i, last);
      ChunkEdgesLayout(hs, i + 1, last');
    }
  }

  /** One pass of the outer loop produces entry `i`'s row. */
  lemma {:induction false} ChunkEdgesStep(hs: seq<ChunkStruct>, i: nat, last: map<string, nat>)
    requires i < |hs| && LastAllocated(hs, i, last)
    ensures var last' := if hs[i].bin == "allocated" then last[hs[i].chunkSize := i] else last;
      ChunkEdgesFrom(hs, i, last) == ChunkRow(hs, i) + ChunkEdgesFrom(hs, i + 1, last')
  {
    if hs[i].bin == "allocated" {
      LayoutSource(hs, i, last);
    }
  }

  /** `lastAllocated[size] || i` is the entry `PrevSameSize` names. */
  lemma {:induction false} LayoutSource(hs: seq<ChunkStruct>, i: nat, last: map<string, nat>)
    requires i < |hs| && LastAllocated(hs, i, last)
    ensures (if hs[i].chunkSize in last then last[hs[i].chunkSize] else i) == PrevSameSize(hs, i)
  {
    var k := PrevSameSizeBelow(hs, hs[i].chunkSize, i, i);
    if hs[i].chunkSize in last {
      assert last[hs[i].chunkSize] == k;
    } else {
      assert k == i;
    }
  }

  lemma {:induction false} LastAllocatedStep(hs: seq<ChunkStruct>, i: nat, last: map<string, nat>)
    requires i < |hs| && LastAllocated(hs, i, last)
    ensures hs[i].bin == "allocated" ==> LastAllocated(hs, i + 1, last[hs[i].chunkSize := i])
    ensures hs[i].bin != "allocated" ==> LastAllocated(hs, i + 1, last)
  {
  }

  /** `makeChunksEdgesDot`: head edges first, then the chunk-to-chunk rows. */
  function MakeChunksEdges(s: Loaded): (r: seq<Edge>)
    requires s.heads.Valid()
    ensures r == HeadEdges(R.Entries(s.heads, |s.heads.keys|), s.chunks) + ChunkRows(s.chunks, 0)
  {
    ChunkEdgesLayout(s.chunks, 0, map[]);
    HeadEdges(R.Entries(s.heads, |s.heads.keys|), s.chunks) + ChunkEdgesFrom(s.chunks, 0, map[])
  }
}
