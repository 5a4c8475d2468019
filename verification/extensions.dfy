/**
 * The diagnostic hooks of vheapViews/static/js/extended.js, which the edge
 * builder of Vheap.js calls while it draws the chunk-to-chunk edges: a chunk
 * whose `fd` is its own address is flagged as a possible double free, and a
 * chunk whose `fd` points strictly inside some chunk as a possible overlap.
 */
module Extensions {
  import opened Wrappers
  import opened Text
  import opened Browser

  const RedColor: string := "#d02d2d"
  const DarkRedColor: string := "#7e1e1e"

  /** The row `doubleFreeCheck` adds. */
  const LoopNote: Note := Note("Infinite loop, Possibly double free", RedColor)

  /** The row `overlaps` adds when the `fd` points inside `check`. */
  function OverlapNote(check: ChunkStruct): Note {
    Note("Possible overlap, fd points inside chunk " + check.bin + "[" + check.index + "]", RedColor)
  }

  /**
   * The test of `overlaps`: `hInt(fd) > hInt(address)` and
   * `hInt(fd) < hInt(address) + hInt(chunkSize)`; any `NaN` makes it false.
   */
  predicate Overlaps(current: ChunkStruct, check: ChunkStruct) {
    var f, a, z := HInt(current.fd), HInt(check.address), HInt(check.chunkSize);
    f.Some? && a.Some? && z.Some? && a.value < f.value && f.value < a.value + z.value
  }

  /** The test of `doubleFreeCheck`: the `fd` string is the chunk's own address string. */
  predicate PointsToItself(c: ChunkStruct) {
    c.fd == c.address
  }

  /** One flag: a red row appended and the box's background turned dark red. */
  function Flag(c: ChunkStruct, note: Note): ChunkStruct {
    c.(extended := Extended(c.extended.rows + [note], DarkRedColor))
  }

  /** An entry's data: everything but the extension state the hooks write. */
  function DataOf(c: ChunkStruct): ChunkStruct {
    c.(extended := Extended([], ""))
  }

  /**
   * The hooks below are stated for any overlap test on the entries' data;
   * the edge builder uses `Overlaps`.
   */
  type OverlapTest = (ChunkStruct, ChunkStruct) -> bool

  /** `doubleFreeCheck(globalChunks, i)`. */
  function DoubleFreeCheck(gs: seq<ChunkStruct>, i: nat): (r: seq<ChunkStruct>)
    requires i < |gs|
    ensures |r| == |gs|
  {
    if PointsToItself(gs[i]) then gs[i := Flag(gs[i], LoopNote)] else gs
  }

  /** The overlap rows for `current` against the entries of `hs`, in order. */
  function OverlapNotes(test: OverlapTest, current: ChunkStruct, hs: seq<ChunkStruct>): seq<Note> {
    if |hs| == 0 then []
    else
      var check := hs[|hs| - 1];
      OverlapNotes(test, current, hs[..|hs| - 1]) + (if test(DataOf(current), DataOf(check)) then [OverlapNote(check)] else [])
  }

  /** Every row the hooks add to entry `i` in one edge build: the double-free row first, then one per overlapped entry. */
  function Findings(test: OverlapTest, hs: seq<ChunkStruct>, i: nat): seq<Note>
    requires i < |hs|
  {
    (if PointsToItself(hs[i]) then [LoopNote] else []) + OverlapNotes(test, hs[i], hs)
  }

  /** An entry with the rows `notes` appended; flagged dark red when there is at least one. */
  function Flagged(c: ChunkStruct, notes: seq<Note>): ChunkStruct {
    c.(extended := Extended(c.extended.rows + notes, if |notes| > 0 then DarkRedColor else c.extended.backgroundColor))
  }

  /** The entries after one edge build's hook calls. */
  function AfterHooks(test: OverlapTest, hs: seq<ChunkStruct>): (r: seq<ChunkStruct>)
    ensures |r| == |hs|
  {
    seq(|hs|, i requires 0 <= i < |hs| => Flagged(hs[i], Findings(test, hs, i)))
  }

  /**
   * The hook calls of one `makeChunksEdgesDot`, with `test` as the test of
   * `overlaps`: for each entry `i`, `doubleFreeCheck(i)`, then
   * `overlaps(i, j)` for every `j`, `i` itself included. Only entry `i`
   * changes while it is the current entry, and only its extension state.
   */
  method RunHooks(test: OverlapTest, hs: seq<ChunkStruct>) returns (out: seq<ChunkStruct>)
    ensures out == AfterHooks(test, hs)
  {
    out := hs;
    var i := 0;
    while i < |hs|
      invariant 0 <= i <= |hs| && |out| == |hs|
      invariant out == AfterHooks(test, hs)[..i] + hs[i..]
    {
      out := HooksStep(test, hs, out, i);
      i := i + 1;
    }
    assert AfterHooks(test, hs)[..|hs|] == AfterHooks(test, hs);
  }

  /** The hook calls while entry `i` is the current entry. */
  method HooksStep(test: OverlapTest, hs: seq<ChunkStruct>, out0: seq<ChunkStruct>, i: nat) returns (out: seq<ChunkStruct>)
    requires i < |hs|
    requires out0 == AfterHooks(test, hs)[..i] + hs[i..]
    ensures out == AfterHooks(test, hs)[..i + 1] + hs[i + 1..]
  {
    var done := AfterHooks(test, hs)[..i];
    AfterHooksCarries(test, hs, i);
    var loop := if PointsToItself(hs[i]) then [LoopNote] else [];
    out := DoubleFreeStep(hs, done, out0, i);
    out := OverlapPass(test, hs, done, out, i, loop);
    AfterHooksSnoc(test, hs, i);
  }

  lemma {:induction false} AfterHooksSnoc(test: OverlapTest, hs: seq<ChunkStruct>, i: nat)
    requires i < |hs|
    ensures AfterHooks(test, hs)[..i + 1] == AfterHooks(test, hs)[..i] + [Flagged(hs[i], Findings(test, hs, i))]
  {
  }

  /** The entries of `done` carry the data, bin and index of the entries of `hs` at the same positions. */
  predicate Carries(done: seq<ChunkStruct>, hs: seq<ChunkStruct>) {
    |done| <= |hs| &&
    forall k :: 0 <= k < |done| ==> DataOf(done[k]) == DataOf(hs[k]) && done[k].bin == hs[k].bin && done[k].index == hs[k].index
  }

  lemma {:induction false} AfterHooksCarries(test: OverlapTest, hs: seq<ChunkStruct>, i: nat)
    requires i <= |hs|
    ensures Carries(AfterHooks(test, hs)[..i], hs)
  {
  }

  /** `doubleFreeCheck(globalChunks, i)` on the entries as they stand when entry `i` becomes current. */
  function DoubleFreeStep(hs: seq<ChunkStruct>, done: seq<ChunkStruct>, out: seq<ChunkStruct>, i: nat): (r: seq<ChunkStruct>)
    requires i < |hs| && |done| == i
    requires out == done + hs[i..]
    ensures r == done + [Flagged(hs[i], if PointsToItself(hs[i]) then [LoopNote] else [])] + hs[i + 1..]
  {
    assert hs[i..] == [hs[i]] + hs[i + 1..];
    var loop := if PointsToItself(hs[i]) then [LoopNote] else [];
    assert hs[i].extended.rows + [] == hs[i].extended.rows;
    assert out[i] == hs[i];
    var r := DoubleFreeCheck(out, i);
    assert r == out[i := Flagged(hs[i], loop)];
    r
  }

  /** The calls `overlaps(i, j)` for every `j`, in order. */
  method OverlapPass(test: OverlapTest, hs: seq<ChunkStruct>, done: seq<ChunkStruct>, out0: seq<ChunkStruct>, i: nat, loop: seq<Note>)
    returns (out: seq<ChunkStruct>)
    requires i < |hs| && |done| == i && Carries(done, hs)
    requires out0 == done + [Flagged(hs[i], loop)] + hs[i + 1..]
    ensures out == done + [Flagged(hs[i], loop + OverlapNotes(test, hs[i], hs))] + hs[i + 1..]
  {
    out := out0;
    assert loop + [] == loop;
    var j := 0;
    while j < |hs|
      invariant 0 <= j <= |hs| && |out| == |hs|
      invariant out == done + [Flagged(hs[i], loop + OverlapNotes(test, hs[i], hs[..j]))] + hs[i + 1..]
    {
      out := OverlapStep(test, hs, done, out, i, j, loop);
      j := j + 1;
    }
    assert hs[..|hs|] == hs;
  }

  /** One call `overlaps(i, j)`: entry `i` gets a row when its `fd` points inside entry `j`. */
  function OverlapStep(test: OverlapTest, hs: seq<ChunkStruct>, done: seq<ChunkStruct>, out: seq<ChunkStruct>, i: nat, j: nat, loop: seq<Note>)
    : (r: seq<ChunkStruct>)
    requires i < |hs| && j < |hs| && |done| == i && Carries(done, hs)
    requires out == done + [Flagged(hs[i], loop + OverlapNotes(test, hs[i], hs[..j]))] + hs[i + 1..]
    ensures r == done + [Flagged(hs[i], loop + OverlapNotes(test, hs[i], hs[..j + 1]))] + hs[i + 1..]
  {
    var notes := loop + OverlapNotes(test, hs[i], hs[..j]);
    var check := CheckAt(hs, done, out, i, j, notes);
    OverlapNotesSnoc(test, hs[i], hs, j);
    if test(DataOf(out[i]), DataOf(check)) then
      FlagFlagged(hs[i], loop, OverlapNotes(test, hs[i], hs[..j]), OverlapNote(check));
      ReplaceAt(done, Flagged(hs[i], notes), Flag(out[i], OverlapNote(check)), hs[i + 1..]);
      out[i := Flag(out[i], OverlapNote(check))]
    else
      assert OverlapNotes(test, hs[i], hs[..j]) + [] == OverlapNotes(test, hs[i], hs[..j]);
      out
  }

  lemma {:induction false} OverlapNotesSnoc(test: OverlapTest, current: ChunkStruct, hs: seq<ChunkStruct>, j: nat)
    requires j < |hs|
    ensures OverlapNotes(test, current, hs[..j + 1]) == OverlapNotes(test, current, hs[..j])
      + (if test(DataOf(current), DataOf(hs[j])) then [OverlapNote(hs[j])] else [])
  {
    assert hs[..j + 1][..j] == hs[..j];
  }

  /** Flagging an entry once more adds one row to the rows already appended. */
  lemma {:induction false} FlagFlagged(c: ChunkStruct, loop: seq<Note>, notes: seq<Note>, note: Note)
    ensures Flag(Flagged(c, loop + notes), note) == Flagged(c, loop + (notes + [note]))
    ensures DataOf(Flagged(c, loop + notes)) == DataOf(c)
  {
    assert c.extended.rows + (loop + notes) + [note] == c.extended.rows + (loop + (notes + [note]));
  }

  lemma {:induction false} ReplaceAt(done: seq<ChunkStruct>, x: ChunkStruct, y: ChunkStruct, rest: seq<ChunkStruct>)
    ensures (done + [x] + rest)[|done| := y] == done + [y] + rest
  {
  }

  /** `globalChunks[j]` during the inner loop: whichever copy it is, it carries `hs[j]`'s data. */
  function CheckAt(hs: seq<ChunkStruct>, done: seq<ChunkStruct>, out: seq<ChunkStruct>, i: nat, j: nat, notes: seq<Note>): (check: ChunkStruct)
    requires i < |hs| && j < |hs| && |done| == i && Carries(done, hs)
    requires out == done + [Flagged(hs[i], notes)] + hs[i + 1..]
    ensures check == out[j]
    ensures DataOf(check) == DataOf(hs[j]) && check.bin == hs[j].bin && check.index == hs[j].index
  {
    if j < i then
      assert out[j] == done[j];
      out[j]
    else if j == i then out[j]
    else
      assert out[j] == hs[j];
      out[j]
  }

  /** `hInt` reads back the integers the recorders wrote with `hex`. */
  lemma {:induction false} OverlapsHex(current: ChunkStruct, check: ChunkStruct, fd: nat, address: nat, size: nat)
    requires current.fd == Hex(fd) && check.address == Hex(address) && check.chunkSize == Hex(size)
    ensures Overlaps(current, check) <==> address < fd < address + size
  {
    HIntHex(fd);
    HIntHex(address);
    HIntHex(size);
  }

  /** On recorded chunks the double-free test is equality of the two integers. */
  lemma {:induction false} PointsToItselfHex(c: ChunkStruct, fd: nat, address: nat)
    requires c.fd == Hex(fd) && c.address == Hex(address)
    ensures PointsToItself(c) <==> fd == address
  {
    HexInjective(fd, address);
  }

  lemma {:induction false} OverlapNotesMembers(test: OverlapTest, current: ChunkStruct, hs: seq<ChunkStruct>, j: nat)
    requires j < |hs| && test(DataOf(current), DataOf(hs[j]))
    ensures OverlapNote(hs[j]) in OverlapNotes(test, current, hs)
  {
    var n := |hs| - 1;
    if j < n {
      OverlapNotesMembers(test, current, hs[..n], j);
      assert hs[..n][j] == hs[j];
    }
  }

  /**
   * The row an entry gets for an overlap: present whenever its `fd` lies
   * strictly inside some entry, that entry included, and then the entry is
   * dark red.
   */
  lemma {:induction false} OverlapFlagged(test: OverlapTest, hs: seq<ChunkStruct>, i: nat, j: nat)
    requires i < |hs| && j < |hs| && test(DataOf(hs[i]), DataOf(hs[j]))
    ensures OverlapNote(hs[j]) in AfterHooks(test, hs)[i].extended.rows
    ensures AfterHooks(test, hs)[i].extended.backgroundColor == DarkRedColor
  {
    OverlapNotesMembers(test, hs[i], hs, j);
  }

  lemma {:induction false} OverlapNotesNone(test: OverlapTest, current: ChunkStruct, hs: seq<ChunkStruct>)
    requires forall j :: 0 <= j < |hs| ==> !test(DataOf(current), DataOf(hs[j]))
    ensures OverlapNotes(test, current, hs) == []
  {
    if |hs| > 0 {
      OverlapNotesNone(test, current, hs[..|hs| - 1]);
    }
  }

  /** An entry neither test fires on comes out exactly as it went in. */
  lemma {:induction false} Unflagged(test: OverlapTest, hs: seq<ChunkStruct>, i: nat)
    requires i < |hs| && !PointsToItself(hs[i])
    requires forall j :: 0 <= j < |hs| ==> !test(DataOf(hs[i]), DataOf(hs[j]))
    ensures AfterHooks(test, hs)[i] == hs[i]
  {
    OverlapNotesNone(test, hs[i], hs);
    assert hs[i].extended.rows + [] == hs[i].extended.rows;
  }

  /** A self-pointing entry's first new row is the double-free row. */
  lemma {:induction false} DoubleFreeFlagged(test: OverlapTest, hs: seq<ChunkStruct>, i: nat)
    requires i < |hs| && PointsToItself(hs[i])
    ensures var rows := AfterHooks(test, hs)[i].extended.rows;
      |rows| > |hs[i].extended.rows| && rows[|hs[i].extended.rows|] == LoopNote
    ensures AfterHooks(test, hs)[i].extended.backgroundColor == DarkRedColor
  {
  }

  /**
   * The hooks read only what they never write, so a second edge build finds
   * the same things and appends every row again.
   */
  lemma {:induction false} HooksRepeat(test: OverlapTest, hs: seq<ChunkStruct>, i: nat)
    requires i < |hs|
    ensures AfterHooks(test, AfterHooks(test, hs))[i].extended.rows
      == hs[i].extended.rows + Findings(test, hs, i) + Findings(test, hs, i)
  {
    var once := AfterHooks(test, hs);
    assert forall k :: 0 <= k < |hs| ==> DataOf(once[k]) == DataOf(hs[k]) && once[k].bin == hs[k].bin && once[k].index == hs[k].index;
    OverlapNotesSameData(test, once[i], hs[i], once, hs);
  }

  lemma {:induction false} OverlapNotesSameData(test: OverlapTest, c: ChunkStruct, d: ChunkStruct, s: seq<ChunkStruct>, t: seq<ChunkStruct>)
    requires DataOf(c) == DataOf(d) && |s| == |t|
    requires forall k :: 0 <= k < |s| ==> DataOf(s[k]) == DataOf(t[k]) && s[k].bin == t[k].bin && s[k].index == t[k].index
    ensures OverlapNotes(test, c, s) == OverlapNotes(test, d, t)
  {
    if |s| > 0 {
      OverlapNotesSameData(test, c, d, s[..|s| - 1], t[..|t| - 1]);
    }
  }

  /**
   * With the test the edge builder uses, on recorded chunks: whenever entry
   * `i`'s `fd` lies strictly between entry `j`'s address and its end, entry
   * `i` shows the overlap row naming entry `j`.
   */
  lemma {:induction false} OverlapFlaggedHex(hs: seq<ChunkStruct>, i: nat, j: nat, fd: nat, address: nat, size: nat)
    requires i < |hs| && j < |hs|
    requires hs[i].fd == Hex(fd) && hs[j].address == Hex(address) && hs[j].chunkSize == Hex(size)
    requires address < fd < address + size
    ensures OverlapNote(hs[j]) in AfterHooks(Overlaps, hs)[i].extended.rows
    ensures AfterHooks(Overlaps, hs)[i].extended.backgroundColor == DarkRedColor
  {
    OverlapsHex(DataOf(hs[i]), DataOf(hs[j]), fd, address, size);
    OverlapFlagged(Overlaps, hs, i, j);
  }
}
