// Reading an image through its layers: the loop over the header's answers
// (packages/orchestrator/internal/sandbox/build/build.go).
module LayerReads {
  import opened Prelude
  import opened BuildMapping
  import opened SnapshotLayers

  datatype ReadError = NoSource | EndOfFile | BuildUnavailable

  /** The part of the image a read returns. */
  function Window(image: seq<Byte>, from: nat, n: nat): seq<Byte> {
    if from + n <= |image| then image[from..from + n] else []
  }

  // ---- What the header answers, as bytes ----------------------------------------------------

  /** The answer (position, length, build) holds the bytes of the image from y on. */
  ghost predicate Answers(r: (int, int, BuildId), store: map<BuildId, seq<Byte>>, image: seq<Byte>, y: nat) {
    && r.0 >= 0 && r.1 > 0 && y + r.1 <= |image|
    && (r.2 != NIL_BUILD ==> r.2 in store && r.0 + r.1 <= |store[r.2]|)
    && image[y..y + r.1] == if r.2 == NIL_BUILD then Zeros(r.1) else store[r.2][r.0..r.0 + r.1]
  }

  function Zeros(n: nat): seq<Byte> {
    seq(n, _ => 0)
  }

  /** One entry for the whole image, as in a header made without a mapping; the image need not fill its last block. */
  ghost predicate WholeHeader(h: Header) {
    && h.g.blockSize > 0 && |h.mapping| == 1 && h.mapping[0].offset == 0 && h.mapping[0].length == h.g.size
    && Indexes(h.blockStarts, h.startMap, h.mapping, h.g.blockSize) && h.words == Words(h.mapping, h.g)
  }

  ghost predicate Readable(h: Header) {
    ValidHeader(h) || WholeHeader(h)
  }

  /** The answer reaches another block boundary, or the end of the image. */
  predicate Reaches(y: nat, length: int, image: seq<Byte>, s: nat)
    requires s > 0
  {
    (y + length) % s == 0 || y + length == |image|
  }

  /** What a header with one entry answers at any block its search looks at. */
  lemma WholeAnswer(h: Header, b: nat)
    requires WholeHeader(h)
    ensures var m, y := h.mapping[0], b * h.g.blockSize;
            Shifted(h, b) == if Searched(h, b) then Some((m.storage + y, m.length - y, m.buildId)) else None
  {
    var s := h.g.blockSize;
    assert StartIndexed(h.startMap, h.mapping, s, 0);
    forall k | k in h.blockStarts ensures k == 0 {
      assert PointsToLast(h.startMap, h.mapping, s, k);
    }
    assert PointsToLast(h.startMap, h.mapping, s, 0);
    if Searched(h, b) {
      assert PreviousSet(h.blockStarts, h.words, b) == Some(0);
    }
  }

  lemma WholeInside(h: Header, store: map<BuildId, seq<Byte>>, image: seq<Byte>, b: nat)
    requires WholeHeader(h) && |image| == h.g.size && Describes(h.mapping, store, image)
    requires b * h.g.blockSize < |image|
    ensures Shifted(h, b).Some? && Answers(Shifted(h, b).value, store, image, b * h.g.blockSize)
    ensures b * h.g.blockSize + Shifted(h, b).value.1 == |image|
  {
    var m, y := h.mapping[0], b * h.g.blockSize;
    WholeAnswer(h, b);
    WordsReach(h.g, b);
    forall z: nat | m.Covers(z) ensures Locate(h.mapping, z) == LocateOne(m, z) {
      assert h.mapping[1..] == [];
    }
    EntryBytes(h.mapping, m, store, image, y);
  }

  /** An offset in the block that starts at y gets y's answer; it is good up to another block boundary. */
  lemma AnswerInside(h: Header, store: map<BuildId, seq<Byte>>, image: seq<Byte>, b: nat)
    requires ValidHeader(h) && |image| == h.g.size && Describes(h.mapping, store, image)
    requires b * h.g.blockSize < |image|
    ensures Shifted(h, b).Some? && Answers(Shifted(h, b).value, store, image, b * h.g.blockSize)
    ensures Blocks(b * h.g.blockSize + Shifted(h, b).value.1, h.g)
  {
    var y := b * h.g.blockSize;
    var m := ShiftedEntry(h, b);
    var r := Shifted(h, b).value;
    EntryIsLocated(h, m);
    assert Blocks(0, h.g);
    ContiguousCovers(h.mapping, 0, h.g);
    EntryBytes(h.mapping, m, store, image, y);
    EntryEnd(h, m);
  }

  lemma EntryEnd(h: Header, m: BuildMap)
    requires Fits(h.mapping, h.g) && m in h.mapping
    ensures Blocks(m.End(), h.g) && m.End() <= h.g.size
  {
    BlocksSum(m.offset, m.length, h.g);
  }

  lemma EntryBytes(ms: seq<BuildMap>, m: BuildMap, store: map<BuildId, seq<Byte>>, image: seq<Byte>, y: nat)
    requires LocatedBy(ms, m) && m.Covers(y) && m.End() <= |image| && Describes(ms, store, image)
    ensures Answers((m.storage + (y - m.offset), m.End() - y, m.buildId), store, image, y)
  {
    forall z: nat | y <= z < m.End() ensures ByteAt(m, store, image, z) {
      assert Locate(ms, z) == LocateOne(m, z);
      assert ReadByte(ms, store, z) == Some(image[z]);
    }
    var length := m.End() - y;
    var window := image[y..m.End()];
    assert ByteAt(m, store, image, m.End() - 1);
    if m.buildId != NIL_BUILD {
      var at := m.storage + (y - m.offset);
      var stored := store[m.buildId][at..at + length];
      forall k | 0 <= k < |window| ensures window[k] == stored[k] {
        assert ByteAt(m, store, image, y + k);
      }
    } else {
      forall k | 0 <= k < |window| ensures window[k] == Zeros(length)[k] {
        assert ByteAt(m, store, image, y + k);
      }
    }
  }

  /** The image's byte at z is the one the entry names. */
  predicate ByteAt(m: BuildMap, store: map<BuildId, seq<Byte>>, image: seq<Byte>, z: nat)
    requires z < |image| && m.offset <= z
  {
    var at := m.storage + (z - m.offset);
    if m.buildId == NIL_BUILD then image[z] == 0
    else m.buildId in store && at < |store[m.buildId]| && image[z] == store[m.buildId][at]
  }

  /** The header's search looks at block b. */
  predicate Searched(h: Header, b: nat) {
    h.mapping != [] && b / WORD < h.words
  }

  /** Past the end the header has nothing left to answer, and it answers only as far as its search reaches. */
  lemma AnswerPastEnd(h: Header, b: nat)
    requires ValidHeader(h) && b * h.g.blockSize >= h.g.size
    ensures Shifted(h, b).Some? <==> Searched(h, b)
    ensures Shifted(h, b).Some? ==> Shifted(h, b).value.1 <= 0
  {
    var s := h.g.blockSize;
    FirstStart(h);
    if Shifted(h, b).Some? {
      var start := PreviousSet(h.blockStarts, h.words, b).value;
      assert PointsToLast(h.startMap, h.mapping, s, start);
      var i :| LastStart(h.mapping, s, start, i) && h.startMap[start] == h.mapping[i];
      assert Blocks(0, h.g);
      ContiguousCovers(h.mapping, 0, h.g);
      EntryEnd(h, h.mapping[i]);
      BlockBounds(h.mapping[i].offset, s);
      ShiftFrom(start, b, s);
    }
  }

  /** Some entry starts at the first block, unless there is none at all. */
  lemma FirstStart(h: Header)
    requires ValidHeader(h)
    ensures h.mapping != [] ==> 0 in h.blockStarts
    ensures h.mapping == [] ==> h.blockStarts == {}
  {
    if h.mapping != [] {
      assert StartIndexed(h.startMap, h.mapping, h.g.blockSize, 0);
    }
    assert forall k :: k in h.blockStarts ==> PointsToLast(h.startMap, h.mapping, h.g.blockSize, k);
  }

  /** Blocks keep their distance: an offset n bytes on, with the block start n bytes on at a boundary. */
  lemma StartMoves(off: nat, n: nat, s: nat)
    requires s > 0 && (BlockStart(off, s) + n) % s == 0
    ensures BlockStart(off + n, s) == BlockStart(off, s) + n == ((off + n) / s) * s
  {
    var y := BlockStart(off, s);
    BlockBounds(off, s);
    var b := (y + n) / s;
    BlockBounds(y + n, s);
    DivBound(off + n, b, s);
    DivBound(off + n, b + 1, s);
    Distribute(b, 1, s);
  }

  // ---- ReadAt -------------------------------------------------------------------------------

  /** The bytes for one answer; a build that is shorter copies what it has. */
  method CopyFrom(build: seq<Byte>, at: nat, p: array<Byte>, n: nat, length: nat) returns (copied: nat)
    requires n + length <= p.Length && at + length <= |build|
    modifies p
    ensures copied == length
    ensures p[n..n + length] == build[at..at + length]
    ensures p[..n] == old(p[..n]) && p[n + length..] == old(p[n + length..])
  {
    forall k | 0 <= k < length {
      p[n + k] := build[at + k];
    }
    return length;
  }

  /** What a read has done so far: n bytes from y on, and more to come only from a block boundary. */
  ghost predicate Filled(p: seq<Byte>, n: nat, image: seq<Byte>, y: nat, s: nat)
    requires s > 0
  {
    && n <= |p| && p[..n] == Window(image, y, n)
    && (n > 0 ==> y + n <= |image|)
    && (n < |p| ==> (y + n) % s == 0)
    && forall i :: n <= i < |p| ==> p[i] == 0
  }

  lemma FilledGrows(was: seq<Byte>, now: seq<Byte>, n: nat, more: nat, image: seq<Byte>, y: nat, s: nat)
    requires s > 0 && n < |was| && Filled(was, n, image, y, s) && |now| == |was| && n + more <= |now|
    requires y + n + more <= |image| && (n + more < |now| ==> (y + n + more) % s == 0)
    requires now[..n + more] == was[..n] + image[y + n..y + n + more]
    requires forall i :: n + more <= i < |now| ==> now[i] == 0
    ensures Filled(now, n + more, image, y, s)
  {
    WindowGrows(image, y, n, more);
  }

  /** What the header answers at a block. */
  lemma Answered(h: Header, store: map<BuildId, seq<Byte>>, image: seq<Byte>, b: nat)
    requires Readable(h) && |image| == h.g.size && Describes(h.mapping, store, image)
    ensures var y, r := b * h.g.blockSize, Shifted(h, b);
            && (y < |image| ==> r.Some? && Answers(r.value, store, image, y) && Reaches(y, r.value.1, image, h.g.blockSize))
            && (y >= |image| && r.Some? ==> r.value.1 <= 0)
            && (y >= |image| ==> (r.Some? <==> Searched(h, b)))
  {
    if ValidHeader(h) {
      if b * h.g.blockSize < |image| {
        AnswerInside(h, store, image, b);
      } else {
        AnswerPastEnd(h, b);
      }
    } else {
      WholeAnswer(h, b);
      if b * h.g.blockSize < |image| {
        WholeInside(h, store, image, b);
      }
    }
  }

  lemma AnsweredAt(h: Header, store: map<BuildId, seq<Byte>>, image: seq<Byte>, x: nat)
    requires Readable(h) && |image| == h.g.size && Describes(h.mapping, store, image)
    ensures var z, r := BlockStart(x, h.g.blockSize), GetShiftedMapping(h, x);
            && (z < |image| ==> r.Some? && Answers(r.value, store, image, z) && Reaches(z, r.value.1, image, h.g.blockSize))
            && (z >= |image| && r.Some? ==> r.value.1 <= 0)
            && (z >= |image| ==> (r.Some? <==> Searched(h, x / h.g.blockSize)))
  {
    Answered(h, store, image, x / h.g.blockSize);
  }

  /** One turn of the loop, with the header's answer for the block that starts at z. */
  method ReadOne(r: Option<(int, int, BuildId)>, store: map<BuildId, seq<Byte>>, p: array<Byte>, n: nat,
                 unavailable: set<BuildId>, ghost image: seq<Byte>, ghost z: nat)
    returns (copied: nat, err: Option<ReadError>)
    requires n < p.Length && forall i :: n <= i < p.Length ==> p[i] == 0
    requires z < |image| ==> r.Some? && Answers(r.value, store, image, z)
    requires z >= |image| && r.Some? ==> r.value.1 <= 0
    modifies p
    ensures err == None ==> z < |image| && copied == (if r.value.1 < p.Length - n then r.value.1 else p.Length - n)
    ensures err == None ==> Extends(old(p[..]), p[..], n, copied, image, z)
    ensures err != None ==> p[..] == old(p[..])
    ensures err == Some(NoSource) <==> r.None?
    ensures err == Some(EndOfFile) <==> z >= |image| && r.Some?
    ensures err == Some(BuildUnavailable) ==> unavailable != {}
  {
    if r.None? {
      return 0, Some(NoSource);
    }
    var mapped := r.value.1;
    var left := p.Length - n;
    var length := if mapped < left then mapped else left;
    if length <= 0 {
      return 0, Some(EndOfFile);
    }
    if r.value.2 != NIL_BUILD && r.value.2 in unavailable {
      return 0, Some(BuildUnavailable);
    }
    copied := ReadPart(r.value, store, p, n, length, image, z);
    err := None;
  }

  /** The block at which a read from `off` on leaves the image. */
  function BlockPastEnd(off: nat, g: Geometry): nat
    requires g.blockSize > 0
  {
    (if BlockStart(off, g.blockSize) < g.size then g.size else off) / g.blockSize
  }

  /** Fills p from the image, starting not at the offset but at the start of its block. Short of the end of the image
      p is filled. There the rest up to the end is read, with an end-of-file error, if the header's search still looks
      at the block past it, and none of it, with an error, otherwise. p starts out zero. */
  method ReadAt(h: Header, store: map<BuildId, seq<Byte>>, p: array<Byte>, off: nat, unavailable: set<BuildId>,
                ghost image: seq<Byte>)
    returns (n: nat, err: Option<ReadError>)
    requires Readable(h) && |image| == h.g.size && Describes(h.mapping, store, image)
    requires forall i :: 0 <= i < p.Length ==> p[i] == 0
    modifies p
    ensures err in {None, Some(EndOfFile), Some(NoSource), Some(BuildUnavailable)}
    ensures err != None && err != Some(EndOfFile) ==> n == 0
    ensures unavailable == {} ==> err != Some(BuildUnavailable)
    ensures BlockStart(off, h.g.blockSize) + p.Length <= |image| ==>
              && (unavailable == {} ==> err == None)
              && (err == None ==> n == p.Length && p[..] == Window(image, BlockStart(off, h.g.blockSize), n))
    ensures h.g.size % h.g.blockSize == 0 ==> ReadsToEnd(h, image, off, p[..], n, err, unavailable)
  {
    n := 0;
    while n < p.Length
      invariant Progress(p[..], n, image, off, h.g)
      decreases p.Length - n
    {
      var copied, e := ReadTurn(h, store, p, off, n, unavailable, image);
      if e.Some? {
        match e.value {
          case EndOfFile => return n, e;
          case NoSource => return 0, e;
          case BuildUnavailable => return 0, e;
        }
      }
      n := n + copied;
    }
    assert p[..][..n] == p[..];
    return n, None;
  }

  /** One turn of the loop, from asking the header to copying. */
  method ReadTurn(h: Header, store: map<BuildId, seq<Byte>>, p: array<Byte>, off: nat, n: nat, unavailable: set<BuildId>,
                  ghost image: seq<Byte>)
    returns (copied: nat, err: Option<ReadError>)
    requires Readable(h) && |image| == h.g.size && Describes(h.mapping, store, image)
    requires n < p.Length && Progress(p[..], n, image, off, h.g)
    modifies p
    ensures err == None ==> copied > 0 && Progress(p[..], n + copied, image, off, h.g)
    ensures err != None ==> p[..] == old(p[..])
    ensures err == Some(BuildUnavailable) ==> unavailable != {}
    ensures Sane(off, p.Length, h.g) && (err == Some(EndOfFile) || err == Some(NoSource)) ==>
              && BlockStart(off, h.g.blockSize) + n >= |image|
              && (err == Some(EndOfFile) <==> Searched(h, BlockPastEnd(off, h.g)))
  {
    AnsweredAt(h, store, image, off + n);
    LeavesAt(h.g, off, n, p[..], image);
    var r := GetShiftedMapping(h, off + n);
    ghost var was := p[..];
    copied, err := ReadOne(r, store, p, n, unavailable, image, BlockStart(off + n, h.g.blockSize));
    if err.None? {
      Turn(was, p[..], n, copied, r.value.1, image, off, h.g);
    }
  }

  /** The read stays inside the image, or the image fills its last block. */
  predicate Sane(off: nat, length: nat, g: Geometry)
    requires g.blockSize > 0
  {
    g.size % g.blockSize == 0 || BlockStart(off, g.blockSize) + length <= g.size
  }

  /** What a read from `off` on has done so far. */
  ghost predicate Progress(p: seq<Byte>, n: nat, image: seq<Byte>, off: nat, g: Geometry)
    requires g.blockSize > 0
  {
    && n <= |p| && (forall i :: n <= i < |p| ==> p[i] == 0)
    && (Sane(off, |p|, g) ==> Filled(p, n, image, BlockStart(off, g.blockSize), g.blockSize))
  }

  /** A turn of the loop keeps what it has done so far. */
  lemma Turn(was: seq<Byte>, now: seq<Byte>, n: nat, more: nat, length: int, image: seq<Byte>, off: nat, g: Geometry)
    requires g.blockSize > 0 && |image| == g.size && n < |was| && Progress(was, n, image, off, g)
    requires Extends(was, now, n, more, image, BlockStart(off + n, g.blockSize))
    requires more == (if length < |was| - n then length else |was| - n) && 0 < length
    requires Reaches(BlockStart(off + n, g.blockSize), length, image, g.blockSize)
    ensures Progress(now, n + more, image, off, g)
  {
    KeepsZeros(was, now, n + more);
    if Sane(off, |was|, g) {
      LeavesAt(g, off, n, was, image);
      GrowsBy(was, now, n, more, length, image, BlockStart(off, g.blockSize), g);
    }
  }

  /** The result of a read of an image that fills its last block: what it returns at the end of the image. */
  ghost predicate ReadsToEnd(h: Header, image: seq<Byte>, off: nat, p: seq<Byte>, n: nat, err: Option<ReadError>,
                             unavailable: set<BuildId>)
    requires h.g.blockSize > 0
  {
    var y := BlockStart(off, h.g.blockSize);
    && (err == None ==> n == |p| && p == Window(image, y, n))
    && (unavailable == {} ==> (err == None <==> |p| == 0 || y + |p| <= |image|))
    && (err == Some(EndOfFile) ==>
          && n < |p| && p[..n] == Window(image, y, n) && y + n >= |image|
          && (n > 0 ==> y + n == |image|)
          && Searched(h, BlockPastEnd(off, h.g)))
    && (err == Some(NoSource) ==> y + |p| > |image| && !Searched(h, BlockPastEnd(off, h.g)))
  }

  /** A sane read goes on from the start of a block; past the image it leaves at a block known beforehand. */
  lemma LeavesAt(g: Geometry, off: nat, n: nat, p: seq<Byte>, image: seq<Byte>)
    requires g.blockSize > 0 && |image| == g.size && n < |p| && Progress(p, n, image, off, g)
    ensures Sane(off, |p|, g) ==>
              var y := BlockStart(off, g.blockSize) + n;
              BlockStart(off + n, g.blockSize) == y && (y >= g.size ==> (off + n) / g.blockSize == BlockPastEnd(off, g))
  {
    if Sane(off, |p|, g) {
      StartMoves(off, n, g.blockSize);
      Multiple((off + n) / g.blockSize, g.blockSize);
    }
  }

  /** A read at a block boundary returns the bytes asked for. Off a boundary it returns as many bytes from the start of
      the block, which are those asked for only if they happen to be the same. */
  lemma ReadsExactly(image: seq<Byte>, off: nat, n: nat, s: nat)
    requires s > 0 && n > 0 && off + n <= |image|
    ensures off % s == 0 ==> Window(image, BlockStart(off, s), n) == image[off..off + n]
    ensures off % s != 0 ==> BlockStart(off, s) < off
    ensures (forall bytes: seq<Byte> :: |bytes| == |image| ==>
               Window(bytes, BlockStart(off, s), n) == bytes[off..off + n]) <==> off % s == 0
  {
    var y := BlockStart(off, s);
    if off % s != 0 {
      var bytes := seq(|image|, i => if i == y then 1 else 0);
      assert Window(bytes, y, n)[0] == 1 && bytes[off..off + n][0] == 0;
    }
  }

  /** The next bytes of p are those of the image from z on; the others are as they were. */
  ghost predicate Extends(was: seq<Byte>, now: seq<Byte>, n: nat, more: nat, image: seq<Byte>, z: nat) {
    && n + more <= |was| == |now| && z + more <= |image|
    && now[..n] == was[..n] && now[n..n + more] == image[z..z + more] && now[n + more..] == was[n + more..]
  }

  /** The bytes for one answer; nothing is copied for the nil build. */
  method ReadPart(r: (int, int, BuildId), store: map<BuildId, seq<Byte>>, p: array<Byte>, n: nat, length: nat,
                  ghost image: seq<Byte>, ghost z: nat)
    returns (copied: nat)
    requires n < p.Length && forall i :: n <= i < p.Length ==> p[i] == 0
    requires 0 < length <= r.1 && n + length <= p.Length && Answers(r, store, image, z)
    modifies p
    ensures copied == length && Extends(old(p[..]), p[..], n, length, image, z)
  {
    copied := length;
    PartOfAnswer(r, store, image, z, length);
    if r.2 == NIL_BUILD {
      assert p[..][n..n + length] == Zeros(length);
    } else {
      copied := CopyFrom(store[r.2], r.0, p, n, length);
      assert p[..][n..n + length] == p[n..n + length];
      assert p[..][..n] == p[..n] && p[..][n + length..] == p[n + length..];
    }
  }

  /** A turn that reads on from where the last one stopped. */
  lemma GrowsBy(was: seq<Byte>, now: seq<Byte>, n: nat, more: nat, length: int, image: seq<Byte>, y: nat, g: Geometry)
    requires g.blockSize > 0 && |image| == g.size && n < |was| && Filled(was, n, image, y, g.blockSize)
    requires Extends(was, now, n, more, image, y + n) && more == if length < |was| - n then length else |was| - n
    requires Reaches(y + n, length, image, g.blockSize) && 0 < length
    requires g.size % g.blockSize == 0 || y + |was| <= |image|
    ensures Filled(now, n + more, image, y, g.blockSize)
  {
    assert now[..n + more] == now[..n] + now[n..n + more];
    KeepsZeros(was, now, n + more);
    FilledGrows(was, now, n, more, image, y, g.blockSize);
  }

  lemma PartOfAnswer(r: (int, int, BuildId), store: map<BuildId, seq<Byte>>, image: seq<Byte>, y: nat, length: nat)
    requires Answers(r, store, image, y) && length <= r.1
    ensures image[y..y + length] == if r.2 == NIL_BUILD then Zeros(length) else store[r.2][r.0..r.0 + length]
  {
    assert image[y..y + length] == image[y..y + r.1][..length];
    assert Zeros(length) == Zeros(r.1)[..length];
    if r.2 != NIL_BUILD {
      assert store[r.2][r.0..r.0 + length] == store[r.2][r.0..r.0 + r.1][..length];
    }
  }

  lemma KeepsZeros(was: seq<Byte>, now: seq<Byte>, n: nat)
    requires n <= |was| == |now| && now[n..] == was[n..]
    ensures (forall i :: n <= i < |was| ==> was[i] == 0) ==> forall i :: n <= i < |now| ==> now[i] == 0
  {
    forall i | n <= i < |now| ensures now[i] == was[i] {
      assert now[n..][i - n] == was[n..][i - n];
    }
  }

  lemma WindowGrows(image: seq<Byte>, y: nat, n: nat, more: nat)
    requires y + n + more <= |image|
    ensures Window(image, y, n + more) == Window(image, y, n) + image[y + n..y + n + more]
  {
  }

  /** A template without a stored header: a read at a block boundary returns the bytes of the build's own file, whatever
      its size. */
  method ReadTemplate(buildId: BuildId, g: Geometry, store: map<BuildId, seq<Byte>>, p: array<Byte>, off: nat)
    returns (n: nat, err: Option<ReadError>)
    requires g.blockSize > 0 && buildId in store && buildId != NIL_BUILD && |store[buildId]| == g.size
    requires forall i :: 0 <= i < p.Length ==> p[i] == 0
    modifies p
    ensures off % g.blockSize == 0 && off + p.Length <= g.size ==>
              err == None && n == p.Length && p[..] == store[buildId][off..off + n]
    ensures off % g.blockSize == 0 && g.size % g.blockSize == 0 && off < g.size < off + p.Length ==>
              if (g.size / g.blockSize) % 64 != 0
              then err == Some(EndOfFile) && n == g.size - off && p[..n] == store[buildId][off..]
              else err == Some(NoSource) && n == 0
  {
    var h := NewHeader([], buildId, g);
    assert h.mapping[1..] == [];
    assert WholeHeader(h);
    if g.size > 0 && g.size % g.blockSize == 0 {
      SearchedPastEnd(h);
    }
    n, err := ReadAt(h, store, p, off, {}, store[buildId]);
  }

  /** Where such a template does not fill its last block, the header still answers at its very end, with the bytes of
      that block over again; otherwise it does not. */
  lemma AnswersAtEnd(h: Header)
    requires WholeHeader(h) && h.g.size > 0
    ensures var r := GetShiftedMapping(h, h.g.size);
            r.Some? && r.value.1 > 0 <==> h.g.size % h.g.blockSize != 0
  {
    var s, b := h.g.blockSize, h.g.size / h.g.blockSize;
    BlockBounds(h.g.size, s);
    WholeAnswer(h, b);
    if h.g.size % s != 0 {
      WordsReach(h.g, b);
    }
  }

  /** An entry, necessarily an empty one, starts at the end of the image. */
  ghost predicate StartsAtEnd(ms: seq<BuildMap>, g: Geometry) {
    exists i :: 0 <= i < |ms| && ms[i].offset == g.size
  }

  /** The header's search looks at the block past the image exactly if the blocks do not fill the words of its bit set,
      or an entry starts there. */
  lemma SearchedPastEnd(h: Header)
    requires ValidHeader(h) && h.g.size > 0
    ensures Searched(h, h.g.size / h.g.blockSize) <==>
              (h.g.size / h.g.blockSize) % 64 != 0 || StartsAtEnd(h.mapping, h.g)
  {
    var blocks := h.g.size / h.g.blockSize;
    assert Blocks(0, h.g);
    ContiguousCovers(h.mapping, 0, h.g);
    SizeInBlocks(h.mapping, 0, h.g);
    WordsExact(h.mapping, h.g);
  }

  /** A valid mapping covers whole blocks. */
  lemma {:induction false} SizeInBlocks(ms: seq<BuildMap>, start: nat, g: Geometry)
    requires Contiguous(ms, start, g) && Blocks(start, g)
    ensures Blocks(g.size, g) && TotalBlocks(g) == g.size / g.blockSize
    decreases |ms|
  {
    if ms != [] {
      BlocksSum(start, ms[0].length, g);
      SizeInBlocks(ms[1..], ms[0].End(), g);
    } else {
      var s, blocks := g.blockSize, g.size / g.blockSize;
      BlockBounds(g.size, s);
      DivBound(g.size + s - 1, blocks, s);
      DivBound(g.size + s - 1, blocks + 1, s);
      Distribute(blocks, 1, s);
    }
  }

  /** The bit set has the words for its blocks, and one more if those are full and an entry starts past them. */
  lemma {:induction false} WordsExact(ms: seq<BuildMap>, g: Geometry)
    requires Fits(ms, g) && Blocks(g.size, g) && TotalBlocks(g) == g.size / g.blockSize
    ensures var blocks := TotalBlocks(g);
            Words(ms, g) == if blocks % 64 == 0 && StartsAtEnd(ms, g) then blocks / 64 + 1 else WordsNeeded(blocks)
  {
    if ms != [] {
      var front, last := ms[..|ms| - 1], ms[|ms| - 1];
      WordsExact(front, g);
      StartsAtEndPush(front, last, g);
      assert ms == front + [last];
      OffsetBlock(last.offset, g);
    }
  }

  lemma StartsAtEndPush(front: seq<BuildMap>, last: BuildMap, g: Geometry)
    ensures StartsAtEnd(front + [last], g) <==> StartsAtEnd(front, g) || last.offset == g.size
  {
    var ms := front + [last];
    if StartsAtEnd(front, g) {
      var i :| 0 <= i < |front| && front[i].offset == g.size;
      assert ms[i].offset == g.size;
    }
    assert ms[|front|] == last;
  }

  /** An offset in the image lies in one of its blocks, unless it is the end. */
  lemma OffsetBlock(offset: nat, g: Geometry)
    requires Blocks(offset, g) && Blocks(g.size, g) && offset <= g.size
    ensures offset / g.blockSize <= g.size / g.blockSize
    ensures offset / g.blockSize == g.size / g.blockSize <==> offset == g.size
  {
    BlockBounds(offset, g.blockSize);
    BlockBounds(g.size, g.blockSize);
    DivBound(g.size, offset / g.blockSize, g.blockSize);
  }

  /** A snapshot read back: after a pause that succeeds, with pages of the header's block size, the merged header over
      the old builds and the new diff gives back the image that was paused, in reads at block boundaries. A read past
      the end returns the rest, or nothing at all if the blocks fill the words of the header's bit set. */
  method SnapshotAndRead(base: seq<BuildMap>, image: seq<Byte>, bits: BitSet, buildId: BuildId, pageSize: nat, g: Geometry,
                         room: nat, store: map<BuildId, seq<Byte>>, p: array<Byte>, off: nat)
    returns (saved: Option<Header>, n: nat, err: Option<ReadError>)
    requires pageSize == g.blockSize > 0
    requires Contiguous(base, 0, g) && |image| == g.size && Blocks(g.size, g)
    requires CleanUnchanged(base, store, image, bits, pageSize)
    requires buildId !in store && buildId != NIL_BUILD
    requires forall i :: 0 <= i < p.Length ==> p[i] == 0
    modifies p
    ensures saved.Some? <==> PagesInside(bits, pageSize, g.size) && Rank(bits, |bits|) <= room
    ensures saved.Some? ==> ValidHeader(saved.value) && saved.value.g == g
    ensures saved.Some? && off % pageSize == 0 && off + p.Length <= |image| ==>
              err == None && n == p.Length && p[..] == image[off..off + n]
    ensures saved.Some? && off % pageSize == 0 && off < |image| < off + p.Length ==>
              if (|image| / pageSize) % 64 != 0 || StartsAtEnd(saved.value.mapping, g)
              then err == Some(EndOfFile) && n == |image| - off && p[..n] == image[off..]
              else err == Some(NoSource) && n == 0
  {
    var r := SnapshotMemory(base, image, bits, buildId, pageSize, g, room, store);
    if r.Failure? {
      return None, 0, None;
    }
    var h := NewHeader(r.value.1, buildId, g);
    HeaderOf(h, r.value.1, buildId, store[buildId := r.value.0], image);
    if g.size > 0 {
      SearchedPastEnd(h);
    }
    n, err := ReadAt(h, store[buildId := r.value.0], p, off, {}, image);
    saved := Some(h);
  }

  /** The header over a valid mapping is valid and describes the same image. */
  lemma HeaderOf(h: Header, ms: seq<BuildMap>, buildId: BuildId, store: map<BuildId, seq<Byte>>, image: seq<Byte>)
    requires h.g.blockSize > 0 && |image| == h.g.size
    requires Contiguous(ms, 0, h.g) && Describes(ms, store, image)
    requires h.mapping == Effective(ms, buildId, h.g)
    requires Indexes(h.blockStarts, h.startMap, h.mapping, h.g.blockSize) && h.words == Words(h.mapping, h.g)
    ensures ValidHeader(h) && Describes(h.mapping, store, image) && h.mapping != []
  {
    if ms == [] {
      assert h.mapping[1..] == [];
    }
  }
}
