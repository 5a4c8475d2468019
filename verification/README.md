# vheap in Dafny

vheap is a pwndbg extension for looking at the glibc heap, with a browser
view. The debugger side is in `lib/heap.py`. It walks the heap region chunk
by chunk, reads each chunk's `malloc_chunk` header, and formats the bin lists
the debugger's bin walkers return. It also searches memory for fake fast
chunks and draws a word grid of the heap (`vis_heap_chunks`).

Its `vhadd_*` recorders and `vhstate` copy every bin head and every listed
chunk into a registry (`vheap.py`). The browser then reads that registry as
JSON. On the browser side, `InitHeap` in `Vheap.js` flattens the bins into one
chunk list. It marks the walked chunks that are not on any free list as
allocated, counts them and removes the rest. The edge builder then links heads
and chunks, calling the diagnostic hooks in `extended.js` as it goes.

The model treats the debugger as data:
- memory is a function from addresses to words or bytes;
- glibc's `chunk_flags`, `fastbin_index` and `global_max_fast` are function-
  or value-typed fields of a target record;
- each bin walker's result is a `Collection` whose `"type"` key sits at a
  given position among its keys.

Each command is a pure function of that data. Its results are stated against
independent descriptions:
- `WalkShape` describes a sequential chunk walk;
- `ShownIndices`, with `ShownIndicesSpec`, lists the bins `format_bin` shows;
- `Rank` fixes the print order of `malloc_chunk`'s labels;
- `FirstAt` and `LastOfKey` say where a key first and last occurs among the JSON heads;
- `For` lists the registry writes a plan makes for one key;
- `HeadLinks` describes a head-to-chunk edge;
- `Qualifies` says when an offset holds a fake fast chunk's size word;
- `Ascending` and `IdsAtMost` describe the grid's cell map.

Modules, in the program's own order:

- `Wrappers`: `Option` and `Result`, plus the Python and JavaScript errors
  the model raises (`KeyError`, `TypeError`).
- `Bytes`: byte strings as little- or big-endian words, `pwndbg.arch.unpack`
  and `memory.read`.
- `Text`: Python's `hex` and `str`, and the browser's `hInt`, which is
  `parseInt(s.replace("0x", ""), 16)` over the part of ECMAScript `parseInt`
  that integers need.
- `Chunks`: `read_chunk`, `getfdbk`, the flag-bit mask, the header tags of
  `malloc_chunk`.
- `Enumerate`: the walk of `heap` and `vhadd_allchunks`, and `top_chunk`.
- `Bins`: the bin collections, `format_bin`, `bin_addrs` and `bin_labels`.
- `OrderedMap`, `Registry`: insertion-ordered dictionaries and the registry
  of `vheap.py`.
- `Recorders`: the six `vhadd_*` recorders and `vhstate`.
- `FakeFast`: `find_fake_fast`.
- `Grid`: `vis_heap_chunks` and `bin_ascii`.
- `Browser`: `ChunkStruct`, `InitHeap`, `getBinChunks` and the edge builder
  of `Vheap.js`.
- `Extensions`: the hooks `doubleFreeCheck` and `overlaps` of `extended.js`.

## Model

| member | source | states |
|---|---|---|
| Bytes.DecodeEncodeLE | lib/heap.py:116 | decoding the `len` little-endian bytes of a value that fits gives the value back |
| Bytes.EncodeDecodeLE | lib/heap.py:116 | a byte string is determined by its value and length: re-encoding what was decoded gives the same bytes |
| Bytes.DecodeBEReversed | lib/heap.py:794-806 | a big-endian unpack is the little-endian unpack of the reversed bytes |
| Bytes.WordEndianAgree | lib/heap.py:794-806 | the `<` and `>` formats read the same word exactly when the bytes are a palindrome |
| Bytes.Read | lib/heap.py:116 | `memory.read(a, n)` returns `n` bytes, the `i`-th being the byte at `a + i` |
| Text.Digits | lib/heap.py:70 | the digits `hex`/`str` print are non-empty and all valid in the base |
| Text.ParseDigitsInverse | lib/heap.py:70 | reading the printed digits back in the same base gives the number |
| Text.DecStr | lib/heap.py:287 | `str(i)` is non-empty and starts with `-` exactly for negative `i` |
| Text.DecStrInjective | lib/heap.py:322 | two non-negative integers print the same decimal string only if equal, so bin counters give distinct names |
| Text.HexInjective | lib/heap.py:288 | two addresses give the same `hex` string only if equal |
| Text.RemoveFirst0x | vheapViews/static/js/extended.js:71 | `replace("0x", "")` removes either nothing or exactly two characters |
| Text.RemoveFirst0xNoX | vheapViews/static/js/extended.js:71 | a string without `x` is left unchanged by the replace |
| Text.TrimStart | vheapViews/static/js/extended.js:71 | the white space `parseInt` skips is a prefix, and what is left does not start with white space |
| Text.HexPrefix | vheapViews/static/js/extended.js:71 | the digits `parseInt` consumes are the longest hexadecimal prefix |
| Text.ParseInt16NaN | vheapViews/static/js/extended.js:70-72 | `hInt` is `NaN` exactly when no hexadecimal digit follows the white space, sign and `0x` |
| Text.ParseInt16Digits | vheapViews/static/js/extended.js:71 | `parseInt(d, 16)` of a digit string is its base-16 value |
| Text.HIntHex | vheapViews/static/js/extended.js:70-72 | the browser's `hInt` reads back exactly the integer the recorder wrote with `hex` |
| Text.HIntNone | vheapViews/static/js/extended.js:70-72 | the string `"None"` reads as `NaN` |
| Chunks.ClearFlagBits | lib/heap.py:125 | `size & ~7` is the largest multiple of 8 not above `size` |
| Chunks.AlignDown | lib/heap.py:836 | `size & ~malloc_align_mask` is the largest multiple of the alignment not above `size` |
| Chunks.ClearFlagBitsIsAlignDown | lib/heap.py:125 | with 8-byte alignment the two masks agree |
| Chunks.ReadChunkCanonical | lib/heap.py:23-32 | `read_chunk` yields the six `malloc_chunk` words under their old glibc names (`prev_size`, `size`), with no `value` key among them |
| Chunks.StructFieldMap | lib/heap.py:27-32 | renaming `mchunk_prev_size`/`mchunk_size` maps the struct's fields to the six words at successive word offsets |
| Chunks.ReadChunkHeader | lib/heap.py:23-32 | a read chunk has `prev_size` and `size` fields holding the header's two words |
| Chunks.GetFdBk | lib/heap.py:250-252 | `getfdbk(c)` returns the two words at `c` and `c + ptrsize` |
| Chunks.GetFdBkReadsChunk | lib/heap.py:250-252 | `getfdbk` returns the `prev_size` and `size` fields `read_chunk` reads at the same address |
| Chunks.MallocChunk | lib/heap.py:568-600 | `FAKE` shows iff fake; `FASTBIN` shows iff the prev-in-use flag is set, the chunk is not fake and its masked size is a fast bin size; one of `FASTBIN`/`PREV_INUSE` shows iff the prev-in-use flag is set; `IS_MMAPED` and `NON_MAIN_ARENA` follow their flags; the labels appear in printing order; the returned chunk is `read_chunk`'s |
| Chunks.Header | lib/heap.py:586-597 | each label appears exactly under its condition, and the labels are in strictly increasing print rank (`FAKE`, then `FASTBIN` or `PREV_INUSE`, then `IS_MMAPED`, then `NON_MAIN_ARENA`), so the sequence is fixed by the flags |
| Enumerate.ChunkWalkShape | lib/heap.py:120-128 | the visited addresses form a `WalkShape`: they start at the start address and stay in the region, each step moves by a non-zero masked size, and the walk ends at a zero size or past the region |
| Enumerate.WalkShapeUnique | lib/heap.py:120-128 | there is only one walk of that shape, so `WalkShape` fully specifies the loop |
| Enumerate.WalkAscending | lib/heap.py:120-128 | the visited addresses strictly increase, so no chunk is visited twice |
| Enumerate.WalkShapeMonotone | lib/heap.py:120-128 | along any walk of that shape the addresses never decrease |
| Enumerate.WalkRestart | lib/heap.py:120-128 | restarting the walk from its `k`-th address gives the rest of the same walk |
| Enumerate.WalkSizesSum | lib/heap.py:120-128 | the masked sizes of the chunks before the `n`-th add up to its distance from the start |
| Enumerate.HeapCommand | lib/heap.py:98-128 | `heap` prints nothing without a main arena; otherwise it walks from the given address, or the region start, past a zero-size alignment pad, to the end of the region |
| Enumerate.TopWalkZeroSizeDiverges | lib/heap.py:231-240 | the fallback loop as written never ends once it meets a zero size inside the region |
| Enumerate.TopWalkFuelMonotone | lib/heap.py:231-240 | an answer of the fallback loop does not depend on the step bound once it is found |
| Enumerate.TopChunk | lib/heap.py:210-245 | `top_chunk` with the corrected fallback always ends; with a known arena it reports the arena's `top`; with no arena and no heap region it reports that the heap was not found; otherwise it reports the last chunk of the sequential walk from the pad-skipped region start, which lies in the region, and reads no chunk exactly when that start is already past the region |
| Enumerate.TopChunkRegion | lib/heap.py:222-243 | with no arena, an empty region reads no chunk, and a non-empty region without the alignment pad always yields a top chunk |
| Enumerate.TopWalkSkipsChunks | lib/heap.py:239-240 | on a three-chunk heap the fallback as written jumps into the second chunk and never ends, while the corrected one reports the top chunk |
| Bins.TcacheLimit | lib/heap.py:60-64 | a tcache chain is followed for its count plus one entries, at most 8 |
| Bins.FormatLine | lib/heap.py:57-83 | a shown bin's line carries its printed size, a chain from the first listed address with the fd offset, the tcache limit only for tcache bins, the count, and the `BK` chain exactly when the bin is corrupted |
| Bins.CountShown | lib/heap.py:57-58 | in verbose mode every bin is shown; otherwise at most all of them |
| Bins.FormatLines | lib/heap.py:43-83 | one line per shown bin, each a bin line |
| Bins.ShownIndicesSpec | lib/heap.py:57-58 | the shown bins are exactly those below the bound that are not hidden, listed once each in increasing order |
| Bins.FormatLinesShown | lib/heap.py:43-83 | in every mode the `t`-th line is the formatted line of the `t`-th shown bin |
| Bins.FormatLinesVerbose | lib/heap.py:43-83 | in verbose mode the lines are exactly the formatted bins, in order |
| Bins.FormatBin | lib/heap.py:35-88 | the result is never empty; it is the lone `empty` line exactly when no bin is shown; otherwise it is the formatted lines of the shown bins, in key order; verbose output formats every bin in order |
| Bins.CountShownZero | lib/heap.py:57-58 | no bin is shown exactly when every bin is hidden: a `[0]` chain, no count and not corrupted, outside verbose mode |
| Bins.FormatBinEmptyIff | lib/heap.py:85-86 | `format_bin` prints `empty` exactly when every bin is hidden |
| Bins.FirstIndex | lib/heap.py:926 | `chunks.index(addr)` is the first position holding `addr` |
| Bins.MatchLabels | lib/heap.py:924-926 | a chain gets one label per occurrence of the address |
| Bins.EntryLabels | lib/heap.py:918-926 | one label per occurrence of the address in the bin's listed addresses, each naming the first occurrence's index |
| Bins.CollectionLabelsCount | lib/heap.py:911-928 | a collection yields one label per occurrence of the address among its bins |
| Bins.BinLabelsCount | lib/heap.py:911-928 | `bin_labels` yields one label per occurrence of the address across all collections |
| OrderedMap.Put | vheap.py:128-130 | a dictionary assignment changes only that key's value; a new key goes last in iteration order |
| OrderedMap.Remove | vheapViews/static/js/Vheap.js:102 | `delete` drops the key's value, cuts the key out of its position so the other keys keep their order, and changes nothing if the key is absent |
| OrderedMap.RemoveKeyAppend | vheapViews/static/js/Vheap.js:102 | removing a key distributes over concatenation, so the remaining keys keep their relative order |
| OrderedMap.RemoveKeyAt | vheapViews/static/js/Vheap.js:102 | removing a key that occurs only at position `p` removes exactly that position |
| OrderedMap.RemoveKeyDistinct | vheapViews/static/js/Vheap.js:102 | the key order stays free of duplicates after a delete |
| Registry.MakeChunk | vheap.py:155-169 | `vheap_makeChunk` returns a record whose fields are its arguments in order exactly when it is given ten arguments, and raises `TypeError` otherwise |
| Registry.MakeChunkFields | vheap.py:155-169 | a record rebuilt from its own field list is the same record |
| Registry.ClearHeap | vheap.py:119-123 | clearing leaves no heads and no bins |
| Registry.AddBinHead | vheap.py:128-130 | only that head changes, and the bins are untouched |
| Registry.AddChunkToBin | vheap.py:135-141 | the chunk is appended to its bin, and a missing bin is created last; other bins and the heads are untouched |
| Registry.MakeHeapData | vheap.py:146-150 | the JSON lists every head and bin in insertion order with its value |
| Registry.ClearForgets | vheap.py:119-123 | after clearing, the JSON holds no heads and no bins |
| Registry.InitialRegistry | vheap.py:175-176 | at load time the registry holds the single head `vHeap is ready` at `0x200` |
| Recorders.ChunkArgs | lib/heap.py:327-343 | the record arguments are the index, the address, the header's `prev_size`, its masked size, the three flags and the two `getfdbk` words, read at the layout's offsets; a tenth argument is passed only in the corrected arity |
| Recorders.MakeChunkArity | lib/heap.py:287-296 | the recorders' nine-argument call always raises `TypeError`, and the ten-argument call builds the record of the chunk's words |
| Recorders.Groups | lib/heap.py:317-345 | a recorder's calls split into one group per bin, in the collection's key order |
| Recorders.GroupKeys | lib/heap.py:321-345 | every call of a bin's group writes that bin's head name or bin name, all starting with the collection's prefix letter |
| Recorders.GroupKeyInjective | lib/heap.py:316-322 | two bins of a collection never share a head name or a bin name |
| Recorders.CollectionKeys | lib/heap.py:309-510 | every key a bin recorder writes starts with its kind's prefix letter |
| Recorders.AllChunksKeys | lib/heap.py:277-298 | every key `vhadd_allchunks` writes starts with `a` |
| Recorders.PartsKeys | lib/heap.py:544-557 | each of the six recorders `vhstate` runs writes only keys with its own initial letter |
| Recorders.PartSlot | lib/heap.py:549-555 | the first five parts of `vhstate` are the five bin recorders in the order tcache, fast, unsorted, small, large |
| Recorders.GroupForOther | lib/heap.py:316-345 | a bin's group writes nothing under another bin's names |
| Recorders.CollectionFor | lib/heap.py:316-345 | the writes a collection's recorder makes under one bin's name come from that bin's group alone |
| Recorders.GroupFor | lib/heap.py:320-345 | for a bin with a non-zero head, the recorder sets the head name to `hex(head)` and records every listed address but the terminating last one, in order; a zero head writes nothing |
| Recorders.PlanFor | lib/heap.py:544-557 | the writes `vhstate` makes to a name are those of the one recorder whose initial it carries |
| Recorders.ForConcat | lib/heap.py:544-557 | the writes to one key of two plans run in turn are those of the first plan followed by those of the second |
| Recorders.ApplyTenArgs | vheap.py:155-169 | with ten arguments no call raises, and applying a plan is running its head and chunk writes in order |
| Recorders.ApplyNineArgs | lib/heap.py:287-296 | with nine arguments the run raises `TypeError` exactly when the plan records any chunk; it stops at the first chunk record, having added only the heads before it and no bin |
| Recorders.NextBin | vheap.py:135-141 | one call appends to bin `b` exactly the record it writes there |
| Recorders.NextHead | vheap.py:128-130 | one call sets head `h` only when it writes that head, and to the call's address |
| Recorders.RunBin | vheap.py:135-141 | after a run, a bin's list is its old list followed by one record per chunk call for it, in order |
| Recorders.RunBinPresent | vheap.py:135-141 | a bin exists after a run exactly when it existed before or the run records into it |
| Recorders.RunHead | vheap.py:128-130 | after a run, a head holds the address of the last call that wrote it |
| Recorders.RunHeadPresent | vheap.py:128-130 | a head exists after a run exactly when it existed before or the run writes it |
| Recorders.FirstChunk | lib/heap.py:287 | the plan's calls before the first chunk record are all head calls |
| Recorders.RunChainBin | lib/heap.py:326-345 | a bin that receives exactly one chain's records holds the record of each listed address, indexed from 0 |
| Recorders.VhStatePlanBin | lib/heap.py:544-557 | in the whole of `vhstate`, a bin's names receive exactly that bin's head and chain writes |
| Recorders.VhStateHead | lib/heap.py:320-323 | corrected `vhstate` raises nothing; a bin's head name is present exactly when the head is non-zero, and then holds `hex(head)` |
| Recorders.VhStateBin | lib/heap.py:309-510 | after corrected `vhstate` a bin's list holds one record per listed address but the last, each with index `i` and the words read at that kind's header and link offsets |
| Recorders.VhStatePlanAll | lib/heap.py:256-305 | `vhstate` writes the `all` head and one record per walked chunk exactly when the main arena is known |
| Recorders.VhStateAllChunks | lib/heap.py:256-305 | after corrected `vhstate`, `allchunks` holds one record per chunk of the sequential walk past the pad, in order, exactly when the arena is known |
| Recorders.WalkRecordLinks | lib/heap.py:280-296 | a walked chunk's `fd` repeats its `prev_size` and its `bk` is its raw size word, because `getfdbk(addr)` reads the header |
| Recorders.VhStateAsWritten | lib/heap.py:287-296 | `vhstate` as written records no bin, and raises `TypeError` exactly when the corrected run would record a chunk |
| Recorders.FirstChunkFor | lib/heap.py:287 | the first chunk call of a plan is a write to its own bin |
| FakeFast.ReadPartial | lib/heap.py:792 | a partial read returns at most the asked bytes, each being the byte at its address |
| FakeFast.ScanFromMembers | lib/heap.py:803-809 | an address is reported exactly when some scanned offset holds a whole word of the wanted size class, the address being one word below that offset |
| FakeFast.FindFakeFast | lib/heap.py:794-800 | only 4- and 8-byte words have a struct format; any other size is a `KeyError` |
| FakeFast.FindFakeFastReports | lib/heap.py:783-809 | the candidates are exactly the chunk addresses one word below each offset under `global_max_fast - ptrsize` whose word has the size's fast bin index, listed in increasing order |
| FakeFast.FindFakeFastUnaligned | lib/heap.py:803 | the scan steps one byte at a time, so candidates at odd offsets are reported too |
| FakeFast.FindFakeFastPartial | lib/heap.py:792-806 | every reported candidate's size word lies within the readable part of memory |
| FakeFast.ScanFakeFast | lib/heap.py:803-809 | the offset loop reports exactly what `FindFakeFast` describes |
| Grid.FillFrom | lib/heap.py:840-843 | the inner loop gives the chunk's id to cells in increasing order from `address`, below where it stopped and, unless naive, below the top chunk |
| Grid.FillBounds | lib/heap.py:840-843 | the first cell is at `address`; the loop stops one word past the last cell, and only once past the stop address or, unless naive, at the top chunk |
| Grid.FillSteps | lib/heap.py:843 | consecutive cells are one word apart |
| Grid.FillWholeChunk | lib/heap.py:838-843 | a chunk that ends at or below the top chunk is filled to its end |
| Grid.Decrement | lib/heap.py:846 | `cells_map[key] -= 1` succeeds exactly when the key has a cell, lowering that cell's id by one and nothing else; otherwise it is a `KeyError` |
| Grid.ChunkStep | lib/heap.py:834-846 | one chunk keeps the cells sorted and below the next address, raises no id, and fails only with `KeyError` |
| Grid.ChunkStepPrevInuse | lib/heap.py:836-846 | a chunk of non-zero size inside the heap gets its own cells, the first one counted against the previous chunk (id − 1) exactly when prev-in-use is set and, unless naive, the chunk does not end at the top chunk |
| Grid.AddTop | lib/heap.py:850-854 | at the top chunk two cells one word apart are added with the next id after all the others, keeping the order |
| Grid.Walk | lib/heap.py:833-854 | the cell map's keys are assigned once each, in increasing order, with ids at most `count`; failure is only a `KeyError` |
| Grid.WalkTop | lib/heap.py:851-854 | a walk that reaches the top chunk ends on its two header cells |
| Grid.WalkBelowTop | lib/heap.py:840 | in the default mode every cell before the top chunk's two is below it |
| Grid.VisCells | lib/heap.py:822-854 | the cells `vis_heap_chunks` prints are sorted, never assigned twice, carry ids at most `count`, end on the top chunk's header when it is reached and, unless naive, otherwise lie below it |
| Grid.VisHeapChunks | lib/heap.py:822-904 | `vis_heap_chunks` fails only with the `KeyError` of a missing decrement key |
| Grid.Colour | lib/heap.py:888 | the colour is the chunk id modulo 5, as Python computes it for negative ids too |
| Grid.ColourOfPrevious | lib/heap.py:846-888 | a decremented first cell of chunk 0 has id −1 and gets the last colour, blue |
| Grid.BinAscii | lib/heap.py:906-909 | each byte becomes itself when printable (without tab, CR, LF) and `.` otherwise |
| Grid.BinAsciiPrintable | lib/heap.py:906-909 | the output is all printable and is a fixed point of `bin_ascii` |
| Grid.CellLabels | lib/heap.py:894-896 | a cell's labels are its bin labels followed by `Top chunk` exactly at the top chunk |
| Grid.Collections | lib/heap.py:866-873 | the label sources are fast, unsorted, small and large bins, with the tcache bins first when there is a tcache |
| Grid.RowsPairCells | lib/heap.py:880-902 | one row per two sorted cells, each starting at its first cell; only full rows are annotated, and an odd last cell's annotation is never printed |
| Browser.BinStructs | vheapViews/static/js/Vheap.js:44-61 | one `ChunkStruct` per record of a bin, in order, tagged with the bin's name |
| Browser.FlattenAt | vheapViews/static/js/Vheap.js:43-62 | record `i` of bin `k` lands after all records of the earlier bins |
| Browser.FlattenLength | vheapViews/static/js/Vheap.js:43-62 | the flattened list has one entry per record |
| Browser.MatchCountPositive | vheapViews/static/js/Vheap.js:76-91 | a walked entry is matched exactly when some other entry already off the `allchunks` label has the same chunk address |
| Browser.ClassifiedWalked | vheapViews/static/js/Vheap.js:66-95 | a walked entry becomes `toRemove` exactly when it is matched and `allocated` exactly when it is not; free-list entries keep their bin |
| Browser.ClassifyChunks | vheapViews/static/js/Vheap.js:66-95 | the classification loop relabels every entry as `ClassifiedWalked` describes and leaves the counter at the number of walked entries minus all their matches |
| Browser.ClassifyStep | vheapViews/static/js/Vheap.js:67-95 | one outer iteration relabels entry `c` and updates the counter |
| Browser.ExamineWalked | vheapViews/static/js/Vheap.js:70-92 | examining a walked entry adds one to the counter and takes one off per match |
| Browser.KeepMembers | vheapViews/static/js/Vheap.js:98 | an entry survives the splice loop exactly when it is not marked `toRemove` |
| Browser.RemoveMarked | vheapViews/static/js/Vheap.js:98 | the backwards splice loop removes exactly the marked entries and keeps the order |
| Browser.CopyHeads | vheapViews/static/js/Vheap.js:37-40 | the browser's heads have exactly the JSON's head keys |
| Browser.CopyHeadsValuesKept | vheapViews/static/js/Vheap.js:37-40 | the heads are copied verbatim: each key holds the value of its last entry |
| Browser.CopyHeadsKeyOrder | vheapViews/static/js/Vheap.js:37-40 | the heads keep the order of their first entries |
| Browser.SetCountShows | vheapViews/static/js/Vheap.js:101-102 | after loading, `allocated` shows the counter and `allchunkshead` is gone |
| Browser.LoadHeap | vheapViews/static/js/Vheap.js:29-105 | `InitHeap`'s loops compute the load as written |
| Browser.GetBinChunks | vheapViews/static/js/Vheap.js:341-351 | the result lists only chunks of the asked bin |
| Browser.GetBinChunksMembers | vheapViews/static/js/Vheap.js:341-351 | a chunk is returned exactly when it is in the list with that bin |
| Browser.GetBinChunksAppend | vheapViews/static/js/Vheap.js:341-351 | `getBinChunks` of two lists in turn is the concatenation of their results |
| Browser.GetBinChunksKeep | vheapViews/static/js/Vheap.js:98 | removing the marked entries leaves every other bin's chunks unchanged |
| Browser.FreeListsKept | vheapViews/static/js/Vheap.js:29-105 | after `InitHeap`, every free-list bin holds exactly the chunks the JSON listed for it, in order |
| Browser.UnmatchedIsAllocated | vheapViews/static/js/Vheap.js:66-95 | the walked entries with no match are exactly the entries labelled `allocated` |
| Browser.InitHeap | vheapViews/static/js/Vheap.js:29-105 | the corrected load keeps the same chunk list as the source |
| Browser.InitHeapCount | vheapViews/static/js/Vheap.js:66-102 | the corrected load shows as `allocated` the number of chunks labelled allocated, and drops `allchunkshead` |
| Browser.LoadCount | vheapViews/static/js/Vheap.js:66-102 | the same for any address test |
| Browser.TwiceFreed | vheapViews/static/js/Vheap.js:66-98 | a walked chunk listed twice in a tcache bin drives the counter to −1, though nothing stays allocated |
| Browser.AllocatedCountAsWritten | vheapViews/static/js/Vheap.js:66-101 | for a JSON snapshot with a chunk walked once and listed twice in a tcache bin, the source shows `allocated` as `-1`; the corrected load shows `0`, the number of allocated chunks |
| Browser.LoadTwiceFreedShape | vheapViews/static/js/Vheap.js:66-102 | in that case both loads keep only the two free-list entries |
| Browser.PointAt | vheapViews/static/js/Vheap.js:230-233 | edges into tcache chunks point at `fdPtr`, all others at `prevSize` |
| Browser.HeadTargetsMembers | vheapViews/static/js/Vheap.js:224-241 | a head gets an edge to a chunk exactly when its value is the chunk's address string |
| Browser.HeadEdgesMembers | vheapViews/static/js/Vheap.js:223-242 | the head edges are exactly the pairs of a head and a chunk at the head's address |
| Browser.HeadEdgesSound | vheapViews/static/js/Vheap.js:223-242 | every head edge joins a head to a chunk at its address |
| Browser.HeadEdgesComplete | vheapViews/static/js/Vheap.js:223-242 | every head and chunk at its address are joined |
| Browser.PointerEdgesMembers | vheapViews/static/js/Vheap.js:266-288 | a chunk gets an `fd` edge to each chunk whose address is its `fd` string, and a `bk` edge likewise |
| Browser.PrevSameSizeBelow | vheapViews/static/js/Vheap.js:256-263 | the layout source is the last earlier allocated chunk of the same size, or the chunk itself when there is none |
| Browser.LayoutSource | vheapViews/static/js/Vheap.js:256-263 | the `lastAllocated` map holds, for each size, the last allocated chunk of that size seen so far |
| Browser.ChunkEdgesLayout | vheapViews/static/js/Vheap.js:246-294 | the chunk loop emits, chunk by chunk, the invisible layout edge followed by the `fd`/`bk` edges |
| Browser.MakeChunksEdges | vheapViews/static/js/Vheap.js:217-297 | the edges are the head edges followed by the chunk rows |
| Extensions.PointsToItselfHex | vheapViews/static/js/extended.js:60 | for hex-written pointers, the string test flags a chunk exactly when its `fd` is its own address |
| Extensions.OverlapsHex | vheapViews/static/js/extended.js:48 | for hex-written values, an overlap is flagged exactly when `fd` lies strictly inside the checked chunk |
| Extensions.RunHooks | vheapViews/static/js/Vheap.js:248-271 | the edge loop's hook calls leave the chunks as `AfterHooks` describes |
| Extensions.HooksStep | vheapViews/static/js/Vheap.js:248-271 | one outer iteration settles entry `i` and leaves the later entries untouched |
| Extensions.OverlapPass | vheapViews/static/js/Vheap.js:267-271 | the inner loop adds one overlap row per checked chunk the test accepts, in order |
| Extensions.OverlapNotesMembers | vheapViews/static/js/extended.js:43-52 | a chunk whose test succeeds against another gets that chunk's overlap row |
| Extensions.OverlapFlagged | vheapViews/static/js/extended.js:48-51 | after the hooks an overlapping chunk carries the overlap row and the dark red background |
| Extensions.OverlapFlaggedHex | vheapViews/static/js/extended.js:48-51 | a chunk whose `fd` lies strictly inside another chunk is flagged after the edge loop |
| Extensions.DoubleFreeFlagged | vheapViews/static/js/extended.js:57-64 | a chunk whose `fd` is its address gets the loop row first and the dark red background |
| Extensions.Unflagged | vheapViews/static/js/extended.js:43-64 | a chunk with no self-loop and no overlap comes out of the hooks unchanged |
| Extensions.OverlapNotesNone | vheapViews/static/js/extended.js:43-52 | no overlap row is added when the test accepts no checked chunk |
| Extensions.HooksRepeat | vheapViews/static/js/Vheap.js:217-297 | drawing the edges a second time appends the same rows again: the hooks are not idempotent |

## Left out

- Argument parsing, the `gdb`/pwndbg command decorators and colouring are not modelled. Also left out is `vis_heap_chunks`'s `count` arriving as a string from the command line: the `<` between an int and a str raises `TypeError` under Python 3. The model takes `count` as an integer.
- Printing is not modelled. The model returns what would be printed: the chain formatter's calls (start, offset, limit) rather than its text, the grid rows rather than the `0x%x` strings, and the header tags rather than the coloured header.
- The debugger's own routines are not modelled: `read_gdbvalue`, `chunk_flags`, `fastbin_index`, the bin walkers, `get_heap_boundaries` and `get_heap(addr)['ar_ptr']`. They appear as parameters or as fields of the target and snapshot records.
- The aiohttp server, its thread and `vheap_serve`/`vheap_stop` in `vheap.py` are I/O and are not modelled. `json.dumps` and `JSON.parse` are not modelled either: the JSON is an ordered list of pairs.
- The DOT text of `makeHeadsDot`, `makeBinDot` and `getChunksDot` is not modelled; only the edges `makeChunksEdgesDot` draws are. The `console.log` is left out too.
- `arena`, `arenas`, `tcache`, `mp`, `bins` and the per-kind bin printing commands only print the debugger's objects. They are not modelled beyond `format_bin`.
- Enumerate.TopChunk: the fallback loop as written is modelled with a step bound (`fuel`) standing in for non-termination (`Diverges`). A bound that runs out is read as a loop that never ends.
- Browser.InitHeap: JavaScript numbers are doubles. `hInt` of an address above 2^53 loses precision, and the model's exact integers do not.
- FakeFast.FindFakeFast: each report is a `malloc_chunk(candidate, fake=True)` call that reads a whole six-word chunk starting one word below the scanned word. The model does not model that read. A candidate whose six words run past the readable memory, or that starts below the scanned range at offset 0, is still listed. The debugger would stop there with a memory error instead.
- Browser.CopyHeads: JavaScript enumerates integer-like object keys before the others. vheap's keys never look like integers, so insertion order is used.
- Extensions.OverlapPass: the hooks are stated for any overlap test on the chunks' data. `OverlapsHex` and `OverlapFlaggedHex` connect that test to the source's `hInt` comparison.
- Text.TrimStart: `parseInt`'s white space is modelled as the ASCII white space, the no-break space, the byte order mark and the line and paragraph separators. The other Unicode space separators are not covered.
- Grid.Colour: the five colour functions are only a number from 0 to 4.
- Bins.FormatLine: `pwndbg.chain.format` itself is not modelled, only how it is called.

## Findings

| source | as written | input that shows it | evidently intended | confidence | as-written member | corrected member |
|---|---|---|---|---|---|---|
| lib/heap.py:287-296 | `vheap_makeChunk` (vheap.py:155) takes ten parameters, the last being `allocated`, but this call and the five in the bin recorders pass nine | any snapshot with a non-zero bin head, or a known arena and a non-empty heap region: `vhstate` raises `TypeError` at the first chunk record and leaves the bins empty | pass a tenth `allocated` value so that every listed and walked chunk is recorded | high, not executed | Recorders.VhStateAsWritten | Recorders.VhStateBin |
| lib/heap.py:239-240 | the `top_chunk` fallback adds the masked size twice per step and has no zero-size stop; it also starts at the region start without the pad check `heap` makes, so a padded heap reads size 0 at once | 0x20-byte chunk at 0x1000, 0x30-byte chunk at 0x1020, top chunk at 0x1050, region 0x1000-0x22000: the loop jumps to 0x1040, inside the second chunk, reads size 0 and never ends | skip the alignment pad as `heap` does, advance by one chunk per step, stop at a zero size, and report the last chunk visited (0x1050) | high, not executed | Enumerate.TopWalkSkipsChunks | Enumerate.TopChunk |
| vheapViews/static/js/Vheap.js:66-101 | `allocated` is decremented once per matching free-list entry, so a chunk listed twice in a tcache bin (a double free) is subtracted twice | a chunk walked once and listed twice in `tcachebins`: the heads show `allocated` = `-1` | count the walked chunks that stay allocated, which is 0 here | high, not executed | Browser.AllocatedCountAsWritten | Browser.InitHeapCount |
