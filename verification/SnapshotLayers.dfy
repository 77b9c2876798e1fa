// A snapshot as a new layer: the dirty pages go to a diff file, their mapping is merged over the old
// one, and the header looks bytes up in the merged mapping.
module SnapshotLayers {
  import opened Prelude
  import opened BuildMapping

  // ---- ValidateMappings ---------------------------------------------------------------------

  /** The entries follow each other in whole blocks, without gap or overlap, from `start` to the size. */
  ghost predicate Contiguous(ms: seq<BuildMap>, start: nat, g: Geometry) {
    if ms == [] then start == g.size
    else ms[0].offset == start && Blocks(ms[0].length, g) && ms[0].End() <= g.size && Contiguous(ms[1..], ms[0].End(), g)
  }

  datatype Verdict = Valid | Invalid | IndexPanic

  /** The message about an image not covered names the last entry, which an empty list does not have. */
  method ValidateMappings(ms: seq<BuildMap>, g: Geometry) returns (v: Verdict)
    requires g.blockSize > 0
    ensures v == Valid <==> Contiguous(ms, 0, g)
    ensures v == IndexPanic <==> ms == [] && g.size > 0
  {
    var current: nat := 0;
    assert ms[0..] == ms;
    for i := 0 to |ms|
      invariant current <= g.size || i == 0
      invariant Contiguous(ms, 0, g) <==> Contiguous(ms[i..], current, g)
    {
      assert ms[i..][1..] == ms[i + 1..];
      if current != ms[i].offset {
        return Invalid;
      }
      if ms[i].length % g.blockSize != 0 {
        return Invalid;
      }
      if current + ms[i].length > g.size {
        return Invalid;
      }
      current := current + ms[i].length;
    }
    if current != g.size {
      return if |ms| == 0 then IndexPanic else Invalid;
    }
    return Valid;
  }

  /** Valid mappings are sorted, block-aligned, and locate exactly the bytes of the image. */
  lemma {:induction false} ContiguousCovers(ms: seq<BuildMap>, start: nat, g: Geometry)
    requires Contiguous(ms, start, g) && Blocks(start, g)
    ensures Sorted(ms) && Fits(ms, g)
    ensures forall i :: 0 <= i < |ms| ==> start <= ms[i].offset
    ensures forall x: nat :: Locate(ms, x).Some? <==> start <= x < g.size
  {
    if ms != [] {
      BlocksSum(start, ms[0].length, g);
      ContiguousCovers(ms[1..], ms[0].End(), g);
      assert ms == [ms[0]] + ms[1..];
      SortedCons(ms[0], ms[1..]);
      FitsConcat([ms[0]], ms[1..], g);
      assert forall i :: 1 <= i < |ms| ==> ms[i] == ms[1..][i - 1];
    }
  }

  /** Conversely, sorted block-aligned entries that locate every byte of the image pass the validation. */
  lemma {:induction false} CoversIsContiguous(ms: seq<BuildMap>, start: nat, g: Geometry)
    requires g.blockSize > 0 && start <= g.size && Sorted(ms) && Fits(ms, g)
    requires forall i :: 0 <= i < |ms| ==> start <= ms[i].offset
    requires forall x: nat :: start <= x < g.size ==> Locate(ms, x).Some?
    ensures Contiguous(ms, start, g)
  {
    if ms == [] {
      assert start < g.size ==> Locate(ms, start).Some?;
    } else {
      var m, rest := ms[0], ms[1..];
      assert ms == [m] + rest;
      SortedCons(m, rest);
      FitsConcat([m], rest, g);
      assert forall i :: 0 <= i < |rest| ==> rest[i] == ms[i + 1];
      if start < m.offset {
        assert Locate(ms, start).Some?;
        LocateNone(ms, start);
      }
      forall x: nat | m.End() <= x < g.size ensures Locate(rest, x).Some? {
        assert Locate(ms, x).Some?;
      }
      CoversIsContiguous(rest, m.End(), g);
    }
  }

  /** Merging a block-aligned diff into a valid mapping gives a valid mapping. */
  lemma OverlayIsContiguous(merged: seq<BuildMap>, diff: seq<BuildMap>, base: seq<BuildMap>, g: Geometry)
    requires g.blockSize > 0 && Contiguous(base, 0, g)
    requires Sorted(merged) && Fits(merged, g) && IsOverlay(merged, diff, base)
    ensures Contiguous(merged, 0, g)
  {
    assert Blocks(0, g);
    ContiguousCovers(base, 0, g);
    CoversIsContiguous(merged, 0, g);
  }

  // ---- CreateMapping ------------------------------------------------------------------------

  /** The dirty pages of an image, one bit per block. */
  type BitSet = seq<bool>

  predicate Test(bits: BitSet, i: nat) {
    i < |bits| && bits[i]
  }

  /** The bit set library's search for the first set bit at or after i. */
  function NextSet(bits: BitSet, i: nat): (r: Option<nat>)
    ensures r.Some? ==> i <= r.value && Test(bits, r.value) && forall j :: i <= j < r.value ==> !Test(bits, j)
    ensures r.None? ==> forall j :: i <= j ==> !Test(bits, j)
    decreases |bits| - i
  {
    if i >= |bits| then None else if bits[i] then Some(i) else NextSet(bits, i + 1)
  }

  /** How many blocks below b are dirty: the position of block b in the diff file. */
  function Rank(bits: BitSet, b: nat): nat {
    if b == 0 then 0 else Rank(bits, b - 1) + if Test(bits, b - 1) then 1 else 0
  }

  lemma {:induction false} RankGap(bits: BitSet, a: nat, b: nat)
    requires a <= b && forall j :: a <= j < b ==> !Test(bits, j)
    ensures Rank(bits, b) == Rank(bits, a)
    decreases b
  {
    if a < b {
      RankGap(bits, a, b - 1);
    }
  }

  lemma {:induction false} RankRun(bits: BitSet, a: nat, b: nat)
    requires a <= b && forall j :: a <= j < b ==> Test(bits, j)
    ensures Rank(bits, b) == Rank(bits, a) + (b - a)
    decreases b
  {
    if a < b {
      RankRun(bits, a, b - 1);
    }
  }

  lemma DivBound(x: nat, k: nat, s: nat)
    requires s > 0
    ensures k * s <= x <==> k <= x / s
  {
    var q := x / s;
    assert x == q * s + x % s;
    assert k <= q ==> k * s <= q * s;
    assert k >= q + 1 ==> k * s >= (q + 1) * s;
    assert (q + 1) * s == q * s + s;
  }

  /** Where the byte x of the image is stored if its block is dirty and lies below `upto`. */
  function DirtyLocation(bits: BitSet, buildId: BuildId, g: Geometry, upto: nat, x: nat): Option<Location>
    requires g.blockSize > 0
  {
    var block := x / g.blockSize;
    if block < upto && Test(bits, block)
    then Some(Location(buildId, Rank(bits, block) * g.blockSize + x % g.blockSize))
    else None
  }

  /** One maximal run of dirty blocks becomes one entry. */
  lemma RunLocates(bits: BitSet, buildId: BuildId, g: Geometry, start: nat, length: nat, x: nat)
    requires g.blockSize > 0 && forall j :: start <= j < start + length ==> Test(bits, j)
    ensures LocateOne(BuildMap(start * g.blockSize, length * g.blockSize, buildId, Rank(bits, start) * g.blockSize), x)
         == if start <= x / g.blockSize < start + length then DirtyLocation(bits, buildId, g, start + length, x) else None
  {
    var s, block := g.blockSize, x / g.blockSize;
    DivBound(x, start, s);
    DivBound(x, start + length, s);
    assert (start + length) * s == start * s + length * s;
    if start <= block < start + length {
      RankRun(bits, start, block);
      RunPosition(Rank(bits, start), start, s, x);
    }
  }

  lemma RunPosition(rank: nat, start: nat, s: nat, x: nat)
    requires s > 0 && start <= x / s
    ensures (rank + (x / s - start)) * s + x % s == rank * s + (x - start * s)
  {
    var block := x / s;
    assert x == block * s + x % s;
    assert (rank + (block - start)) * s == rank * s + (block - start) * s;
    assert (block - start) * s == block * s - start * s;
  }

  ghost predicate MapsDirty(ms: seq<BuildMap>, bits: BitSet, buildId: BuildId, g: Geometry, upto: nat) {
    g.blockSize > 0 && forall x: nat :: Locate(ms, x) == DirtyLocation(bits, buildId, g, upto, x)
  }

  /** The entries so far, all of whole blocks, end at or before `end`. */
  ghost predicate EndsBy(ms: seq<BuildMap>, g: Geometry, end: nat) {
    forall i :: 0 <= i < |ms| ==> 0 < ms[i].length && ms[i].End() <= end && Blocks(ms[i].offset, g) && Blocks(ms[i].length, g)
  }

  /** The state of the loop between two dirty blocks: the run [start, start + length) is not emitted yet. */
  ghost predicate RunInv(ms: seq<BuildMap>, bits: BitSet, buildId: BuildId, g: Geometry, start: nat, length: nat, storage: nat) {
    && MapsDirty(ms, bits, buildId, g, start)
    && Sorted(ms)
    && EndsBy(ms, g, start * g.blockSize)
    && storage == Rank(bits, start) * g.blockSize
    && forall j :: start <= j < start + length ==> Test(bits, j)
  }

  /** Emitting the pending run accounts for every dirty block up to the next one. */
  lemma EmitRunLocates(ms: seq<BuildMap>, bits: BitSet, buildId: BuildId, g: Geometry, start: nat, length: nat, next: nat, x: nat)
    requires g.blockSize > 0 && Locate(ms, x) == DirtyLocation(bits, buildId, g, start, x)
    requires forall j :: start <= j < start + length ==> Test(bits, j)
    requires start + length <= next && forall j :: start + length <= j < next ==> !Test(bits, j)
    ensures var m := BuildMap(start * g.blockSize, length * g.blockSize, buildId, Rank(bits, start) * g.blockSize);
            Locate(if length > 0 then ms + [m] else ms, x) == DirtyLocation(bits, buildId, g, next, x)
  {
    LocatePush(ms, BuildMap(start * g.blockSize, length * g.blockSize, buildId, Rank(bits, start) * g.blockSize), x);
    RunLocates(bits, buildId, g, start, length, x);
  }

  lemma Distribute(a: nat, b: nat, s: nat)
    ensures (a + b) * s == a * s + b * s
    ensures a * s <= (a + b) * s
  {
  }

  lemma RankStep(bits: BitSet, start: nat, length: nat, next: nat, s: nat)
    requires forall j :: start <= j < start + length ==> Test(bits, j)
    requires start + length <= next && forall j :: start + length <= j < next ==> !Test(bits, j)
    ensures Rank(bits, next) * s == Rank(bits, start) * s + length * s
    ensures start * s + length * s <= next * s
  {
    RankRun(bits, start, start + length);
    RankGap(bits, start + length, next);
    Distribute(Rank(bits, start), length, s);
    Distribute(start, length, s);
    Distribute(start + length, next - (start + length), s);
  }

  lemma EndsByPush(ms: seq<BuildMap>, m: BuildMap, g: Geometry, end: nat)
    requires Sorted(ms) && EndsBy(ms, g, m.offset) && m.length > 0 && Blocks(m.offset, g) && Blocks(m.length, g)
    requires m.End() <= end
    ensures Sorted(ms + [m]) && EndsBy(ms + [m], g, end)
  {
  }

  lemma EmitRun(ms: seq<BuildMap>, bits: BitSet, buildId: BuildId, g: Geometry, start: nat, length: nat, storage: nat, next: nat)
    requires RunInv(ms, bits, buildId, g, start, length, storage)
    requires start + length <= next && forall j :: start + length <= j < next ==> !Test(bits, j)
    ensures var m := BuildMap(start * g.blockSize, length * g.blockSize, buildId, storage);
            && (length > 0 ==> RunInv(ms + [m], bits, buildId, g, next, 0, storage + m.length))
            && (length == 0 ==> RunInv(ms, bits, buildId, g, next, 0, storage))
  {
    var m := BuildMap(start * g.blockSize, length * g.blockSize, buildId, storage);
    EmitMapsDirty(ms, bits, buildId, g, start, length, storage, next);
    RankStep(bits, start, length, next, g.blockSize);
    Multiple(start, g.blockSize);
    Multiple(length, g.blockSize);
    if length > 0 {
      Distribute(1, length - 1, g.blockSize);
      EndsByPush(ms, m, g, next * g.blockSize);
    }
  }

  /** The run's entry accounts for the dirty blocks up to the next one. */
  lemma EmitMapsDirty(ms: seq<BuildMap>, bits: BitSet, buildId: BuildId, g: Geometry, start: nat, length: nat, storage: nat, next: nat)
    requires RunInv(ms, bits, buildId, g, start, length, storage)
    requires start + length <= next && forall j :: start + length <= j < next ==> !Test(bits, j)
    ensures var m := BuildMap(start * g.blockSize, length * g.blockSize, buildId, storage);
            MapsDirty(if length > 0 then ms + [m] else ms, bits, buildId, g, next)
  {
    var m := BuildMap(start * g.blockSize, length * g.blockSize, buildId, storage);
    var ms' := if length > 0 then ms + [m] else ms;
    forall x: nat ensures Locate(ms', x) == DirtyLocation(bits, buildId, g, next, x) {
      assert Locate(ms, x) == DirtyLocation(bits, buildId, g, start, x);
      EmitRunLocates(ms, bits, buildId, g, start, length, next, x);
    }
  }

  /** One entry per maximal run of dirty blocks; the build's file holds the dirty blocks back to back. */
  method CreateMapping(bits: BitSet, buildId: BuildId, g: Geometry) returns (mappings: seq<BuildMap>)
    requires g.blockSize > 0
    ensures Sorted(mappings)
    ensures MapsDirty(mappings, bits, buildId, g, |bits|)
    ensures forall i :: 0 <= i < |mappings| ==>
              0 < mappings[i].length && Blocks(mappings[i].offset, g) && Blocks(mappings[i].length, g)
  {
    mappings := [];
    var startBlock: nat, blockLength: nat, storage: nat := 0, 0, 0;
    var block := NextSet(bits, 0);
    while block.Some?
      invariant RunInv(mappings, bits, buildId, g, startBlock, blockLength, storage)
      invariant startBlock + blockLength <= |bits|
      invariant block.Some? ==> startBlock + blockLength <= block.value && Test(bits, block.value)
      invariant forall j :: startBlock + blockLength <= j && (block.Some? ==> j < block.value) ==> !Test(bits, j)
      decreases if block.Some? then |bits| - block.value + 1 else 0
    {
      if startBlock + blockLength == block.value {
        blockLength := blockLength + 1;
      } else {
        EmitRun(mappings, bits, buildId, g, startBlock, blockLength, storage, block.value);
        if blockLength > 0 {
          var m := BuildMap(startBlock * g.blockSize, blockLength * g.blockSize, buildId, storage);
          mappings := mappings + [m];
          storage := storage + m.length;
        }
        startBlock := block.value;
        blockLength := 1;
      }
      block := NextSet(bits, block.value + 1);
    }
    EmitRun(mappings, bits, buildId, g, startBlock, blockLength, storage, |bits|);
    if blockLength > 0 {
      mappings := mappings + [BuildMap(startBlock * g.blockSize, blockLength * g.blockSize, buildId, storage)];
    }
  }

  // ---- CreateDiff and reading through the layers --------------------------------------------

  /** The diff file holds the dirty blocks below `upto` of the source, back to back. */
  ghost predicate HoldsDirty(diff: seq<Byte>, source: seq<Byte>, bits: BitSet, s: nat, upto: nat) {
    && s > 0 && |diff| == Rank(bits, upto) * s
    && forall b: nat, k: nat :: b < upto && Test(bits, b) && k < s ==> HoldsByte(diff, source, bits, s, b, k)
  }

  predicate HoldsByte(diff: seq<Byte>, source: seq<Byte>, bits: BitSet, s: nat, b: nat, k: nat) {
    var at, x := Rank(bits, b) * s + k, b * s + k;
    at < |diff| && x < |source| && diff[at] == source[x]
  }

  lemma PushBlock(diff: seq<Byte>, source: seq<Byte>, bits: BitSet, s: nat, from: nat, next: nat)
    requires HoldsDirty(diff, source, bits, s, from)
    requires from <= next && (forall j :: from <= j < next ==> !Test(bits, j)) && Test(bits, next)
    requires next * s + s <= |source|
    ensures HoldsDirty(diff + source[next * s..next * s + s], source, bits, s, next + 1)
  {
    var diff' := diff + source[next * s..next * s + s];
    RankGap(bits, from, next);
    Distribute(Rank(bits, next), 1, s);
    forall b: nat, k: nat | b < next + 1 && Test(bits, b) && k < s
      ensures HoldsByte(diff', source, bits, s, b, k)
    {
      if b < from {
        assert HoldsByte(diff, source, bits, s, b, k);
      }
    }
  }

  datatype DiffError = ReadFailed | WriteFailed

  /** Copies every dirty page; reading past the end of the source is an error, and so is writing more pages than there
      is room for. */
  method CreateDiff(source: seq<Byte>, pageSize: nat, bits: BitSet, room: nat) returns (r: Result<seq<Byte>, DiffError>)
    requires pageSize > 0
    ensures r.Success? <==> PagesInside(bits, pageSize, |source|) && Rank(bits, |bits|) <= room
    ensures r.Success? ==> HoldsDirty(r.value, source, bits, pageSize, |bits|)
  {
    var s := pageSize;
    var diff: seq<Byte> := [];
    var written := 0;
    var block := NextSet(bits, 0);
    ghost var from: nat := 0;
    while block.Some?
      invariant HoldsDirty(diff, source, bits, s, from) && from <= |bits|
      invariant written == Rank(bits, from) <= room
      invariant forall b: nat :: b < from && Test(bits, b) ==> b * s + s <= |source|
      invariant block.Some? ==> from <= block.value && Test(bits, block.value)
      invariant forall j: nat :: from <= j && (block.Some? ==> j < block.value) ==> !Test(bits, j)
      decreases |bits| - from
    {
      var i := block.value;
      if i * s + s > |source| {
        return Failure(ReadFailed);
      }
      RankGap(bits, from, i);
      if written == room {
        RankGrows(bits, i + 1, |bits|);
        return Failure(WriteFailed);
      }
      PushBlock(diff, source, bits, s, from, i);
      diff := diff + source[i * s..i * s + s];
      written := written + 1;
      from := i + 1;
      block := NextSet(bits, i + 1);
    }
    RankGap(bits, from, |bits|);
    return Success(diff);
  }

  /** Every dirty page lies inside the source. */
  ghost predicate PagesInside(bits: BitSet, pageSize: nat, size: nat) {
    forall b: nat :: Test(bits, b) ==> b * pageSize + pageSize <= size
  }

  lemma {:induction false} RankGrows(bits: BitSet, a: nat, b: nat)
    requires a <= b
    ensures Rank(bits, a) <= Rank(bits, b)
  {
    if a < b {
      RankGrows(bits, a, b - 1);
    }
  }

  const NIL_BUILD: BuildId := "00000000-0000-0000-0000-000000000000"

  /** The byte a reader gets at x: nothing is stored for the nil build, which reads as zero. */
  function ReadByte(ms: seq<BuildMap>, store: map<BuildId, seq<Byte>>, x: nat): Option<Byte> {
    match Locate(ms, x)
    case None => None
    case Some(loc) =>
      if loc.buildId == NIL_BUILD then Some(0)
      else if loc.buildId in store && loc.position < |store[loc.buildId]| then Some(store[loc.buildId][loc.position])
      else None
  }

  /** The image a header and the stored builds describe. */
  ghost predicate Describes(ms: seq<BuildMap>, store: map<BuildId, seq<Byte>>, image: seq<Byte>) {
    forall x: nat :: x < |image| ==> ReadByte(ms, store, x) == Some(image[x])
  }

  lemma DirtyByte(diff: seq<Byte>, source: seq<Byte>, bits: BitSet, s: nat, x: nat)
    requires HoldsDirty(diff, source, bits, s, |bits|) && Test(bits, x / s)
    ensures var at := Rank(bits, x / s) * s + x % s; at < |diff| && x < |source| && diff[at] == source[x]
  {
    assert x == (x / s) * s + x % s;
    assert HoldsByte(diff, source, bits, s, x / s, x % s);
  }

  /** Bytes outside the dirty blocks are those of the earlier layers. */
  ghost predicate CleanUnchanged(base: seq<BuildMap>, store: map<BuildId, seq<Byte>>, image: seq<Byte>, bits: BitSet, s: nat) {
    s > 0 && forall x: nat :: x < |image| && !Test(bits, x / s) ==> ReadByte(base, store, x) == Some(image[x])
  }

  /** Reading the merged layers gives back the paused image, dirty or not. */
  lemma OverlayDescribes(merged: seq<BuildMap>, diffMap: seq<BuildMap>, base: seq<BuildMap>, store: map<BuildId, seq<Byte>>,
                         diff: seq<Byte>, image: seq<Byte>, bits: BitSet, buildId: BuildId, g: Geometry)
    requires IsOverlay(merged, diffMap, base) && MapsDirty(diffMap, bits, buildId, g, |bits|)
    requires HoldsDirty(diff, image, bits, g.blockSize, |bits|)
    requires CleanUnchanged(base, store, image, bits, g.blockSize)
    requires buildId !in store && buildId != NIL_BUILD
    ensures Describes(merged, store[buildId := diff], image)
  {
    forall x: nat | x < |image| ensures ReadByte(merged, store[buildId := diff], x) == Some(image[x]) {
      OverlayByte(merged, diffMap, base, store, diff, image, bits, buildId, g, x);
    }
  }

  lemma OverlayByte(merged: seq<BuildMap>, diffMap: seq<BuildMap>, base: seq<BuildMap>, store: map<BuildId, seq<Byte>>,
                    diff: seq<Byte>, image: seq<Byte>, bits: BitSet, buildId: BuildId, g: Geometry, x: nat)
    requires g.blockSize > 0 && x < |image|
    requires Locate(merged, x) == OrElse(Locate(diffMap, x), Locate(base, x))
    requires Locate(diffMap, x) == DirtyLocation(bits, buildId, g, |bits|, x)
    requires HoldsDirty(diff, image, bits, g.blockSize, |bits|)
    requires !Test(bits, x / g.blockSize) ==> ReadByte(base, store, x) == Some(image[x])
    requires buildId !in store && buildId != NIL_BUILD
    ensures ReadByte(merged, store[buildId := diff], x) == Some(image[x])
  {
    if Test(bits, x / g.blockSize) {
      DirtyByte(diff, image, bits, g.blockSize, x);
    }
  }

  /** The memory part of a snapshot: write the dirty pages, map them, and lay the mapping over the old one. The pages
      are those of the memory, the mapping counts in blocks of the header; where the two sizes agree, the result
      describes the image. */
  method SnapshotMemory(base: seq<BuildMap>, image: seq<Byte>, bits: BitSet, buildId: BuildId, pageSize: nat, g: Geometry,
                        room: nat, ghost store: map<BuildId, seq<Byte>>)
    returns (r: Result<(seq<Byte>, seq<BuildMap>), DiffError>)
    requires pageSize > 0 && g.blockSize > 0
    requires Contiguous(base, 0, g) && |image| == g.size && Blocks(g.size, g)
    requires CleanUnchanged(base, store, image, bits, pageSize)
    requires buildId !in store && buildId != NIL_BUILD
    ensures r.Success? <==> PagesInside(bits, pageSize, g.size) && Rank(bits, |bits|) <= room
    ensures r.Success? && pageSize == g.blockSize ==> Contiguous(r.value.1, 0, g)
    ensures r.Success? && pageSize == g.blockSize ==> Describes(r.value.1, store[buildId := r.value.0], image)
  {
    var diff := CreateDiff(image, pageSize, bits, room);
    if diff.Failure? {
      return Failure(diff.error);
    }
    var diffMap := CreateMapping(bits, buildId, g);
    assert Blocks(0, g);
    ContiguousCovers(base, 0, g);
    ghost var fit := g;
    if pageSize == g.blockSize {
      DirtyFits(diffMap, bits, buildId, g);
    } else {
      fit := Geometry(TotalEnd(base) + TotalEnd(diffMap), 1);
      FitsTotal(base, TotalEnd(diffMap));
      FitsTotal(diffMap, TotalEnd(base));
    }
    var merged := MergeMappings(base, diffMap, fit);
    if pageSize == g.blockSize {
      OverlayIsContiguous(merged, diffMap, base, g);
      OverlayDescribes(merged, diffMap, base, store, diff.value, image, bits, buildId, g);
    }
    return Success((diff.value, merged));
  }

  /** Some bound on where the entries end. */
  ghost function TotalEnd(ms: seq<BuildMap>): nat {
    if ms == [] then 0 else TotalEnd(ms[..|ms| - 1]) + ms[|ms| - 1].End()
  }

  lemma {:induction false} FitsTotal(ms: seq<BuildMap>, extra: nat)
    ensures Fits(ms, Geometry(TotalEnd(ms) + extra, 1)) && Fits(ms, Geometry(extra + TotalEnd(ms), 1))
  {
    if ms != [] {
      FitsTotal(ms[..|ms| - 1], extra + ms[|ms| - 1].End());
      assert ms == ms[..|ms| - 1] + [ms[|ms| - 1]];
      assert Fits([ms[|ms| - 1]], Geometry(TotalEnd(ms) + extra, 1));
      FitsConcat(ms[..|ms| - 1], [ms[|ms| - 1]], Geometry(TotalEnd(ms) + extra, 1));
    }
  }

  lemma DirtyFits(ms: seq<BuildMap>, bits: BitSet, buildId: BuildId, g: Geometry)
    requires MapsDirty(ms, bits, buildId, g, |bits|) && Sorted(ms)
    requires forall i :: 0 <= i < |ms| ==> 0 < ms[i].length && Blocks(ms[i].offset, g) && Blocks(ms[i].length, g)
    requires forall b: nat :: Test(bits, b) ==> b * g.blockSize + g.blockSize <= g.size
    ensures Fits(ms, g)
  {
    forall i | 0 <= i < |ms| ensures ms[i].End() <= g.size {
      var x := ms[i].End() - 1;
      LocateAt(ms, i, x);
      DirtyInside(bits, buildId, g, x);
    }
  }

  lemma DirtyInside(bits: BitSet, buildId: BuildId, g: Geometry, x: nat)
    requires g.blockSize > 0 && DirtyLocation(bits, buildId, g, |bits|, x).Some?
    requires forall b: nat :: Test(bits, b) ==> b * g.blockSize + g.blockSize <= g.size
    ensures x < g.size
  {
    BlockBounds(x, g.blockSize);
    assert Test(bits, x / g.blockSize);
  }

  lemma BlockBounds(x: nat, s: nat)
    requires s > 0
    ensures (x / s) * s <= x < (x / s) * s + s && (x / s) * s == x - x % s
  {
  }

  // ---- Header -------------------------------------------------------------------------------

  /** `blockStarts` and `words` are the bit set of the blocks where entries start: its bits and its length in words. */
  datatype Header = Header(blockStarts: set<nat>, words: nat, startMap: map<nat, BuildMap>, mapping: seq<BuildMap>, g: Geometry)

  /** Bits in a word of the bit set. */
  const WORD: nat := 64

  function WordsNeeded(bits: nat): nat {
    (bits + WORD - 1) / WORD
  }

  function TotalBlocks(g: Geometry): nat
    requires g.blockSize > 0
  {
    (g.size + g.blockSize - 1) / g.blockSize
  }

  function BlockIdx(offset: nat, g: Geometry): nat
    requires g.blockSize > 0
  {
    offset / g.blockSize
  }

  function LastSet(bits: set<nat>, i: nat): (r: Option<nat>)
    ensures r.Some? ==> r.value <= i && r.value in bits && forall j :: r.value < j <= i ==> j !in bits
    ensures r.None? ==> forall j: nat :: j <= i ==> j !in bits
  {
    if i in bits then Some(i) else if i == 0 then None else LastSet(bits, i - 1)
  }

  /** The bit set library's search for the last set bit at or before i; it finds nothing from beyond the last word. */
  function PreviousSet(bits: set<nat>, words: nat, i: nat): (r: Option<nat>)
    ensures r.Some? ==> r.value <= i && r.value in bits && forall j :: r.value < j <= i ==> j !in bits
    ensures r.None? <==> i / WORD >= words || forall j: nat :: j <= i ==> j !in bits
  {
    if i / WORD >= words then None else LastSet(bits, i)
  }

  /** An empty mapping stands for one entry covering the whole image. */
  function Effective(mapping: seq<BuildMap>, buildId: BuildId, g: Geometry): seq<BuildMap> {
    if mapping == [] then [BuildMap(0, g.size, buildId, 0)] else mapping
  }

  /** The index over a mapping: at each block where an entry starts, the last entry starting there. */
  ghost predicate Indexes(blockStarts: set<nat>, startMap: map<nat, BuildMap>, ms: seq<BuildMap>, s: nat) {
    && s > 0 && blockStarts == startMap.Keys
    && (forall i :: 0 <= i < |ms| ==> StartIndexed(startMap, ms, s, i))
    && (forall k {:trigger PointsToLast(startMap, ms, s, k)} :: k in startMap ==> PointsToLast(startMap, ms, s, k))
  }

  predicate StartIndexed(startMap: map<nat, BuildMap>, ms: seq<BuildMap>, s: nat, i: nat)
    requires s > 0 && i < |ms|
  {
    ms[i].offset / s in startMap
  }

  ghost predicate PointsToLast(startMap: map<nat, BuildMap>, ms: seq<BuildMap>, s: nat, k: nat)
    requires s > 0 && k in startMap
  {
    exists i :: LastStart(ms, s, k, i) && startMap[k] == ms[i]
  }

  ghost predicate LastStart(ms: seq<BuildMap>, s: nat, block: nat, i: int)
    requires s > 0
  {
    0 <= i < |ms| && ms[i].offset / s == block && forall j :: i < j < |ms| ==> ms[j].offset / s != block
  }

  /** The bit set starts with a bit for each block, and grows where an entry starts beyond its last word. */
  function Words(ms: seq<BuildMap>, g: Geometry): (w: nat)
    requires g.blockSize > 0
    ensures w >= WordsNeeded(TotalBlocks(g))
  {
    if ms == [] then WordsNeeded(TotalBlocks(g))
    else
      var w, block := Words(ms[..|ms| - 1], g), ms[|ms| - 1].offset / g.blockSize;
      if block / WORD >= w then block / WORD + 1 else w
  }

  lemma WordsPush(ms: seq<BuildMap>, i: nat, g: Geometry)
    requires g.blockSize > 0 && i < |ms|
    ensures var w, block := Words(ms[..i], g), ms[i].offset / g.blockSize;
            Words(ms[..i + 1], g) == if block / WORD >= w then block / WORD + 1 else w
  {
    assert ms[..i + 1][..i] == ms[..i];
  }

  lemma WholeLocates(buildId: BuildId, g: Geometry)
    ensures forall x: nat :: Locate([BuildMap(0, g.size, buildId, 0)], x) ==
                             if x < g.size then Some(Location(buildId, x)) else None
  {
    assert [BuildMap(0, g.size, buildId, 0)][1..] == [];
  }

  method NewHeader(mapping: seq<BuildMap>, buildId: BuildId, g: Geometry) returns (h: Header)
    requires g.blockSize > 0
    ensures mapping != [] ==> h.mapping == mapping
    ensures mapping == [] ==>
              forall x: nat :: Locate(h.mapping, x) == if x < g.size then Some(Location(buildId, x)) else None
    ensures h.words == Words(h.mapping, g)
    ensures h.mapping == Effective(mapping, buildId, g) && h.g == g
    ensures Indexes(h.blockStarts, h.startMap, h.mapping, g.blockSize)
  {
    var ms := mapping;
    if |ms| == 0 {
      ms := [BuildMap(0, g.size, buildId, 0)];
    }
    var blockStarts: set<nat> := {};
    var words := WordsNeeded(TotalBlocks(g));
    var startMap: map<nat, BuildMap> := map[];
    for i := 0 to |ms|
      invariant Indexes(blockStarts, startMap, ms[..i], g.blockSize)
      invariant words == Words(ms[..i], g)
    {
      var block := BlockIdx(ms[i].offset, g);
      IndexNext(blockStarts, startMap, ms, i, g.blockSize);
      WordsPush(ms, i, g);
      if block / WORD >= words {
        words := block / WORD + 1;
      }
      blockStarts := blockStarts + {block};
      startMap := startMap[block := ms[i]];
    }
    assert ms[..|ms|] == ms;
    WholeLocates(buildId, g);
    return Header(blockStarts, words, startMap, ms, g);
  }

  lemma IndexPush(blockStarts: set<nat>, startMap: map<nat, BuildMap>, ms: seq<BuildMap>, m: BuildMap, s: nat)
    requires Indexes(blockStarts, startMap, ms, s)
    ensures Indexes(blockStarts + {m.offset / s}, startMap[m.offset / s := m], ms + [m], s)
  {
    var ms', map' := ms + [m], startMap[m.offset / s := m];
    forall i | 0 <= i < |ms'| ensures StartIndexed(map', ms', s, i) {
      assert i < |ms| ==> StartIndexed(startMap, ms, s, i);
    }
    forall k | k in map' ensures PointsToLast(map', ms', s, k) {
      if k == m.offset / s {
        assert LastStart(ms', s, k, |ms|);
      } else {
        assert PointsToLast(startMap, ms, s, k);
        var i :| LastStart(ms, s, k, i) && startMap[k] == ms[i];
        assert LastStart(ms', s, k, i);
      }
    }
  }

  lemma IndexNext(blockStarts: set<nat>, startMap: map<nat, BuildMap>, ms: seq<BuildMap>, i: nat, s: nat)
    requires i < |ms| && Indexes(blockStarts, startMap, ms[..i], s)
    ensures Indexes(blockStarts + {ms[i].offset / s}, startMap[ms[i].offset / s := ms[i]], ms[..i + 1], s)
  {
    assert ms[..i + 1] == ms[..i] + [ms[i]];
    IndexPush(blockStarts, startMap, ms[..i], ms[i], s);
  }

  /** Where the block of x is stored: position, bytes left in the entry, and build. */
  function GetShiftedMapping(h: Header, x: nat): Option<(int, int, BuildId)>
    requires h.g.blockSize > 0
  {
    Shifted(h, x / h.g.blockSize)
  }

  function Shifted(h: Header, block: nat): Option<(int, int, BuildId)> {
    match PreviousSet(h.blockStarts, h.words, block)
    case None => None
    case Some(start) =>
      if start !in h.startMap then None
      else
        var m := h.startMap[start];
        var shift := (block - start) * h.g.blockSize;
        Some((m.storage + shift, m.length - shift, m.buildId))
  }

  /** In a valid mapping, the last entry starting at or before a byte's block covers that block. */
  lemma {:induction false} LastStartCovers(ms: seq<BuildMap>, from: nat, g: Geometry, i: nat, x: nat)
    requires Contiguous(ms, from, g) && Blocks(from, g) && i < |ms| && x < g.size && Blocks(x, g)
    requires ms[i].offset <= x && forall j :: i < j < |ms| ==> ms[j].offset > x
    ensures ms[i].Covers(x)
    decreases |ms|
  {
    if i > 0 {
      BlocksSum(from, ms[0].length, g);
      assert forall j :: 0 <= j < |ms[1..]| ==> ms[1..][j] == ms[j + 1];
      LastStartCovers(ms[1..], ms[0].End(), g, i - 1, x);
    } else if |ms| > 1 {
      assert ms[1..][0] == ms[1];
    }
  }

  /** Comparing two multiples of the block size is comparing the block numbers. */
  lemma BlockOrder(offset: nat, b: nat, g: Geometry)
    requires Blocks(offset, g)
    ensures offset <= b * g.blockSize <==> offset / g.blockSize <= b
  {
    BlockBounds(offset, g.blockSize);
    Multiple(b, g.blockSize);
    DivBound(b * g.blockSize, offset / g.blockSize, g.blockSize);
  }

  lemma StartsOrdered(ms: seq<BuildMap>, i: nat, j: nat, s: nat)
    requires Sorted(ms) && i < j < |ms| && s > 0
    ensures ms[i].offset / s <= ms[j].offset / s
  {
    BlockBounds(ms[i].offset, s);
    DivBound(ms[j].offset, ms[i].offset / s, s);
  }

  /** The entry the header finds for block b is the one covering it. */
  lemma HeaderFinds(h: Header, b: nat, start: nat, i: nat)
    requires Contiguous(h.mapping, 0, h.g) && Indexes(h.blockStarts, h.startMap, h.mapping, h.g.blockSize)
    requires b * h.g.blockSize < h.g.size && LastSet(h.blockStarts, b) == Some(start)
    requires i < |h.mapping| && LastStart(h.mapping, h.g.blockSize, start, i)
    ensures h.mapping[i].Covers(b * h.g.blockSize)
  {
    var ms, s := h.mapping, h.g.blockSize;
    assert Blocks(0, h.g);
    ContiguousCovers(ms, 0, h.g);
    BlockOrder(ms[i].offset, b, h.g);
    forall j | i < j < |ms| ensures ms[j].offset > b * s {
      StartsOrdered(ms, i, j, s);
      BlockOrder(ms[j].offset, b, h.g);
      assert StartIndexed(h.startMap, ms, s, j);
    }
    Multiple(b, s);
    LastStartCovers(ms, 0, h.g, i, b * s);
  }

  /** An aligned entry covering the first byte of a block covers the whole block. */
  lemma EntryHoldsBlock(m: BuildMap, b: nat, g: Geometry)
    requires Blocks(m.offset, g) && Blocks(m.length, g) && m.Covers(b * g.blockSize)
    ensures b * g.blockSize + g.blockSize <= m.End()
  {
    BlocksSum(m.offset, m.length, g);
    BlockOrder(m.End(), b, g);
    BlockOrder(m.End(), b + 1, g);
    BlockBounds(m.End(), g.blockSize);
    var e := m.End() / g.blockSize;
    Distribute(b + 1, e - (b + 1), g.blockSize);
    Distribute(b, 1, g.blockSize);
  }

  /** The words for all blocks hold each of them. */
  lemma WordsReach(g: Geometry, b: nat)
    requires b * g.blockSize < g.size && g.blockSize > 0
    ensures b / WORD < WordsNeeded(TotalBlocks(g))
  {
    DivBound(g.size + g.blockSize - 1, b + 1, g.blockSize);
    Distribute(b, 1, g.blockSize);
  }

  /** The entry the header finds at block b covers the block. */
  lemma FoundEntry(h: Header, b: nat) returns (start: nat, i: nat)
    requires ValidHeader(h) && b * h.g.blockSize < h.g.size
    ensures PreviousSet(h.blockStarts, h.words, b) == Some(start) && start in h.startMap
    ensures i < |h.mapping| && h.startMap[start] == h.mapping[i] && h.mapping[i].offset == start * h.g.blockSize
    ensures h.mapping[i].Covers(b * h.g.blockSize)
    ensures b * h.g.blockSize + h.g.blockSize <= h.mapping[i].End()
  {
    var ms, s := h.mapping, h.g.blockSize;
    assert Blocks(0, h.g);
    ContiguousCovers(ms, 0, h.g);
    assert StartIndexed(h.startMap, ms, s, 0) && ms[0].offset / s == 0;
    start := LastSet(h.blockStarts, b).value;
    WordsReach(h.g, b);
    assert PointsToLast(h.startMap, ms, s, start);
    i :| LastStart(ms, s, start, i) && h.startMap[start] == ms[i];
    HeaderFinds(h, b, start, i);
    EntryHoldsBlock(ms[i], b, h.g);
    BlockBounds(ms[i].offset, s);
  }

  /** The first byte of the block of x. */
  function BlockStart(x: nat, s: nat): (y: nat)
    requires s > 0
    ensures y % s == 0 && y <= x < y + s
    ensures y == x <==> x % s == 0
  {
    Multiple(x / s, s);
    (x / s) * s
  }

  ghost predicate ValidHeader(h: Header) {
    && h.g.blockSize > 0 && Contiguous(h.mapping, 0, h.g)
    && Indexes(h.blockStarts, h.startMap, h.mapping, h.g.blockSize) && h.words == Words(h.mapping, h.g)
  }

  /** What the header answers at block b: its first byte, as far as the found entry reaches. */
  lemma ShiftedEntry(h: Header, b: nat) returns (m: BuildMap)
    requires ValidHeader(h) && b * h.g.blockSize < h.g.size
    ensures m in h.mapping && m.Covers(b * h.g.blockSize)
    ensures b * h.g.blockSize + h.g.blockSize <= m.End()
    ensures Shifted(h, b) == Some((m.storage + (b * h.g.blockSize - m.offset), m.End() - b * h.g.blockSize, m.buildId))
  {
    var start, i := FoundEntry(h, b);
    m := h.mapping[i];
    ShiftFrom(start, b, h.g.blockSize);
  }

  lemma ShiftFrom(start: nat, b: nat, s: nat)
    requires start <= b
    ensures (b - start) * s == b * s - start * s
  {
    Distribute(start, b - start, s);
  }

  lemma EntryLocates(h: Header, m: BuildMap, z: nat)
    requires h.g.blockSize > 0 && Contiguous(h.mapping, 0, h.g) && m in h.mapping && m.Covers(z)
    ensures Locate(h.mapping, z) == LocateOne(m, z)
  {
    assert Blocks(0, h.g);
    ContiguousCovers(h.mapping, 0, h.g);
    var i :| 0 <= i < |h.mapping| && h.mapping[i] == m;
    LocateAt(h.mapping, i, z);
  }

  ghost predicate LocatedBy(ms: seq<BuildMap>, m: BuildMap) {
    forall z: nat :: m.Covers(z) ==> Locate(ms, z) == LocateOne(m, z)
  }

  lemma EntryIsLocated(h: Header, m: BuildMap)
    requires ValidHeader(h) && m in h.mapping
    ensures LocatedBy(h.mapping, m)
  {
    forall z: nat | m.Covers(z) ensures Locate(h.mapping, z) == LocateOne(m, z) {
      EntryLocates(h, m, z);
    }
  }

  lemma EntryAnswers(ms: seq<BuildMap>, m: BuildMap, x: nat, y: nat, r: (int, int, BuildId))
    requires LocatedBy(ms, m) && m.Covers(y) && m.Covers(x) && y <= x
    requires r == (m.storage + (y - m.offset), m.End() - y, m.buildId)
    ensures r.0 >= 0 && x < y + r.1
    ensures forall z: nat :: y <= z < y + r.1 ==> Locate(ms, z) == Some(Location(r.2, r.0 + (z - y)))
    ensures Locate(ms, x) == Some(Location(r.2, r.0)) <==> x == y
  {
    assert Locate(ms, x) == LocateOne(m, x);
    forall z: nat | y <= z < y + r.1 ensures Locate(ms, z) == Some(Location(r.2, r.0 + (z - y))) {
      assert Locate(ms, z) == LocateOne(m, z);
    }
  }

  lemma AnswerAt(h: Header, b: nat, y: nat, x: nat)
    requires ValidHeader(h) && y == b * h.g.blockSize && y <= x < y + h.g.blockSize && x < h.g.size
    ensures Shifted(h, b).Some?
    ensures var r := Shifted(h, b).value;
            && r.0 >= 0 && x < y + r.1
            && (forall z: nat :: y <= z < y + r.1 ==> Locate(h.mapping, z) == Some(Location(r.2, r.0 + (z - y))))
            && (Locate(h.mapping, x) == Some(Location(r.2, r.0)) <==> x == y)
  {
    var m := ShiftedEntry(h, b);
    EntryIsLocated(h, m);
    EntryAnswers(h.mapping, m, x, y, Shifted(h, b).value);
  }

  /** The header answers with the place of the first byte of the block of x, good for the rest of the entry.
      That is the place of x itself exactly when x is a multiple of the block size. */
  lemma HeaderLookup(h: Header, x: nat)
    requires ValidHeader(h) && x < h.g.size
    ensures var r, y := GetShiftedMapping(h, x), BlockStart(x, h.g.blockSize);
            && r.Some? && r.value.0 >= 0 && x < y + r.value.1
            && (forall z: nat :: y <= z < y + r.value.1 ==>
                  Locate(h.mapping, z) == Some(Location(r.value.2, r.value.0 + (z - y))))
            && (Locate(h.mapping, x) == Some(Location(r.value.2, r.value.0)) <==> x % h.g.blockSize == 0)
  {
    BlockBounds(x, h.g.blockSize);
    AnswerAt(h, x / h.g.blockSize, BlockStart(x, h.g.blockSize), x);
  }
}
