// Layered block mappings of a snapshot: which build's data file holds each byte of a memory or
// rootfs image (packages/shared/pkg/storage/header).
module BuildMapping {
  import opened Prelude

  type BuildId = string
  type Byte = bv8

  /** Bytes [offset, offset + length) of the image are bytes [storage, storage + length) of the build. */
  datatype BuildMap = BuildMap(offset: nat, length: nat, buildId: BuildId, storage: nat) {
    function End(): nat { offset + length }
    predicate Covers(x: nat) { offset <= x < End() }
  }

  datatype Location = Location(buildId: BuildId, position: nat)

  // The reference meaning of one entry and of a list of entries.

  function LocateOne(m: BuildMap, x: nat): Option<Location> {
    if m.Covers(x) then Some(Location(m.buildId, m.storage + (x - m.offset))) else None
  }

  function Locate(ms: seq<BuildMap>, x: nat): Option<Location> {
    if ms == [] then None else OrElse(LocateOne(ms[0], x), Locate(ms[1..], x))
  }

  ghost predicate Sorted(ms: seq<BuildMap>) {
    forall i, j :: 0 <= i < j < |ms| ==> ms[i].End() <= ms[j].offset
  }

  /** Size and block size of an image, in bytes. */
  datatype Geometry = Geometry(size: nat, blockSize: nat)

  ghost predicate Blocks(n: nat, g: Geometry) {
    g.blockSize > 0 && n % g.blockSize == 0
  }

  ghost predicate Fits(ms: seq<BuildMap>, g: Geometry) {
    forall i :: 0 <= i < |ms| ==> ms[i].End() <= g.size && Blocks(ms[i].offset, g) && Blocks(ms[i].length, g)
  }

  lemma BlocksSum(a: nat, b: nat, g: Geometry)
    requires Blocks(a, g) && Blocks(b, g)
    ensures Blocks(a + b, g)
    ensures b <= a ==> Blocks(a - b, g)
  {
    var p, q, s := a / g.blockSize, b / g.blockSize, g.blockSize;
    assert a == p * s && b == q * s;
    assert a + b == (p + q) * s;
    Multiple(p + q, s);
    if b <= a {
      assert a - b == (p - q) * s;
      Multiple(p - q, s);
    }
  }

  lemma Multiple(k: int, s: nat)
    requires s > 0
    ensures (k * s) % s == 0 && (k * s) / s == k
  {
    var q := k - (k * s) / s;
    assert q * s == (k * s) % s;
    assert q >= 1 ==> q * s >= s;
    assert q <= -1 ==> q * s + s <= 0;
  }

  /** Cutting at a block boundary keeps both parts block-sized. */
  lemma FitsCut(m: BuildMap, k: nat, g: Geometry)
    requires k <= m.length && Blocks(k, g) && Fits([m], g)
    ensures Fits([Left(m, k)], g) && Fits([Right(m, k)], g)
  {
    assert [m][0] == m;
    BlocksSum(m.offset, k, g);
    BlocksSum(m.length, k, g);
  }

  lemma FitsConcat(a: seq<BuildMap>, b: seq<BuildMap>, g: Geometry)
    ensures Fits(a + b, g) <==> Fits(a, g) && Fits(b, g)
  {
    if Fits(a + b, g) {
      assert forall i :: 0 <= i < |a| ==> a[i] == (a + b)[i];
      assert forall i :: 0 <= i < |b| ==> b[i] == (a + b)[i + |a|];
    }
  }

  lemma {:induction false} LocateConcat(a: seq<BuildMap>, b: seq<BuildMap>, x: nat)
    ensures Locate(a + b, x) == OrElse(Locate(a, x), Locate(b, x))
  {
    if a == [] {
      assert a + b == b;
    } else {
      assert (a + b)[1..] == a[1..] + b;
      LocateConcat(a[1..], b, x);
    }
  }

  lemma {:induction false} LocateNone(ms: seq<BuildMap>, x: nat)
    ensures Locate(ms, x) == None <==> forall i :: 0 <= i < |ms| ==> !ms[i].Covers(x)
  {
    if ms != [] {
      LocateNone(ms[1..], x);
      assert forall i :: 1 <= i < |ms| ==> ms[i] == ms[1..][i - 1];
      assert forall i :: 0 <= i < |ms[1..]| ==> ms[1..][i] == ms[i + 1];
    }
  }

  /** In a sorted list the entry covering a byte is the only one, so it decides the lookup. */
  lemma {:induction false} LocateAt(ms: seq<BuildMap>, i: nat, x: nat)
    requires Sorted(ms) && i < |ms| && ms[i].Covers(x)
    ensures Locate(ms, x) == LocateOne(ms[i], x)
  {
    if i > 0 {
      assert !ms[0].Covers(x);
      LocateAt(ms[1..], i - 1, x);
    }
  }

  function Left(m: BuildMap, length: nat): BuildMap
    requires length <= m.length
  {
    BuildMap(m.offset, length, m.buildId, m.storage)
  }

  function Right(m: BuildMap, shift: nat): BuildMap
    requires shift <= m.length
  {
    BuildMap(m.offset + shift, m.length - shift, m.buildId, m.storage + shift)
  }

  /** Reading through `merged` is reading the diff where it has an entry and the base elsewhere. */
  ghost predicate IsOverlay(merged: seq<BuildMap>, diff: seq<BuildMap>, base: seq<BuildMap>) {
    forall x: nat :: Locate(merged, x) == OrElse(Locate(diff, x), Locate(base, x))
  }

  /** What a reader sees through the emitted entries, then the rest of the diff, then the rest of the base. */
  ghost function Layered(done: seq<BuildMap>, diff: seq<BuildMap>, base: seq<BuildMap>, x: nat): Option<Location> {
    OrElse(Locate(done, x), OrElse(Locate(diff, x), Locate(base, x)))
  }

  /** Every entry already emitted ends before everything still to be merged begins. */
  ghost predicate Precedes(done: seq<BuildMap>, rest: seq<BuildMap>) {
    forall i, j :: 0 <= i < |done| && 0 <= j < |rest| ==> done[i].End() <= rest[j].offset
  }

  /** The merge invariant; (base0, diff0) is the original input. */
  ghost predicate MergeInv(done: seq<BuildMap>, diff: seq<BuildMap>, base: seq<BuildMap>,
                           diff0: seq<BuildMap>, base0: seq<BuildMap>, g: Geometry) {
    && Sorted(done) && Sorted(diff) && Sorted(base)
    && Fits(done, g) && Fits(diff, g) && Fits(base, g)
    && Precedes(done, diff) && Precedes(done, base)
    && forall x: nat :: Layered(done, diff, base, x) == Layered([], diff0, base0, x)
  }

  lemma LocatePush(done: seq<BuildMap>, m: BuildMap, x: nat)
    ensures Locate(done + [m], x) == OrElse(Locate(done, x), LocateOne(m, x))
  {
    LocateConcat(done, [m], x);
    assert [m][1..] == [];
  }

  lemma LocateCons(m: BuildMap, ms: seq<BuildMap>, x: nat)
    ensures Locate([m] + ms, x) == OrElse(LocateOne(m, x), Locate(ms, x))
    ensures Sorted([m] + ms) && x < m.offset ==> Locate(ms, x) == None
  {
    assert ([m] + ms)[1..] == ms;
    LocateNone(ms, x);
    assert forall i :: 0 <= i < |ms| ==> ms[i] == ([m] + ms)[i + 1];
  }

  lemma SortedCons(m: BuildMap, ms: seq<BuildMap>)
    ensures Sorted([m] + ms) <==> Sorted(ms) && forall i :: 0 <= i < |ms| ==> m.End() <= ms[i].offset
  {
    var all := [m] + ms;
    if Sorted(all) {
      assert forall i :: 0 <= i < |ms| ==> ms[i] == all[i + 1];
      assert all[0] == m;
    }
  }

  lemma LayeredCutBase(done: seq<BuildMap>, n: BuildMap, diff: seq<BuildMap>, m: BuildMap, base: seq<BuildMap>, k: nat, x: nat)
    requires Sorted([n] + diff) && k <= m.length && m.offset + k <= n.offset
    ensures Layered(done + [Left(m, k)], [n] + diff, [Right(m, k)] + base, x) == Layered(done, [n] + diff, [m] + base, x)
  {
    LocatePush(done, Left(m, k), x);
    LocateCons(m, base, x);
    LocateCons(Right(m, k), base, x);
    LocateCons(n, diff, x);
  }

  lemma LayeredTakeDiff(done: seq<BuildMap>, n: BuildMap, diff: seq<BuildMap>, m: BuildMap, base: seq<BuildMap>, k: nat, x: nat)
    requires k <= m.length && (k == 0 || (n.offset <= m.offset && n.End() == m.offset + k))
    ensures Layered(done + [n], diff, [Right(m, k)] + base, x) == Layered(done, [n] + diff, [m] + base, x)
  {
    LocatePush(done, n, x);
    LocateCons(m, base, x);
    LocateCons(Right(m, k), base, x);
    LocateCons(n, diff, x);
  }

  /** The first bytes of the base entry lie before the diff entry: they move to the result. */
  lemma EmitBase(done: seq<BuildMap>, n: BuildMap, diff: seq<BuildMap>, m: BuildMap, base: seq<BuildMap>, k: nat,
                 diff0: seq<BuildMap>, base0: seq<BuildMap>, g: Geometry)
    requires MergeInv(done, [n] + diff, [m] + base, diff0, base0, g)
    requires Blocks(k, g) && k <= m.length && m.offset + k <= n.offset
    ensures MergeInv(done + [Left(m, k)], [n] + diff, [Right(m, k)] + base, diff0, base0, g)
  {
    FitsConcat([m], base, g);
    FitsConcat([n], diff, g);
    FitsCut(m, k, g);
    FitsConcat([Right(m, k)], base, g);
    FitsConcat(done, [Left(m, k)], g);
    SortedCons(m, base);
    SortedCons(Right(m, k), base);
    SortedCons(n, diff);
    assert ([m] + base)[0] == m;
    forall x: nat
      ensures Layered(done + [Left(m, k)], [n] + diff, [Right(m, k)] + base, x) == Layered([], diff0, base0, x)
    {
      LayeredCutBase(done, n, diff, m, base, k, x);
    }
  }

  /** The diff entry moves to the result and hides the first bytes of the base entry. */
  lemma EmitDiff(done: seq<BuildMap>, n: BuildMap, diff: seq<BuildMap>, m: BuildMap, base: seq<BuildMap>, k: nat,
                 diff0: seq<BuildMap>, base0: seq<BuildMap>, g: Geometry)
    requires MergeInv(done, [n] + diff, [m] + base, diff0, base0, g)
    requires Blocks(k, g) && k <= m.length && (if k == 0 then n.End() <= m.offset else n.offset <= m.offset && n.End() == m.offset + k)
    ensures MergeInv(done + [n], diff, [Right(m, k)] + base, diff0, base0, g)
  {
    FitsConcat([m], base, g);
    FitsConcat([n], diff, g);
    FitsCut(m, k, g);
    FitsConcat([Right(m, k)], base, g);
    FitsConcat(done, [n], g);
    SortedCons(m, base);
    SortedCons(Right(m, k), base);
    SortedCons(n, diff);
    assert ([m] + base)[0] == m;
    assert ([n] + diff)[0] == n;
    assert forall i :: 0 <= i < |diff| ==> diff[i] == ([n] + diff)[i + 1];
    forall x: nat
      ensures Layered(done + [n], diff, [Right(m, k)] + base, x) == Layered([], diff0, base0, x)
    {
      LayeredTakeDiff(done, n, diff, m, base, k, x);
    }
  }

  lemma DropEmpty(done: seq<BuildMap>, diff: seq<BuildMap>, m: BuildMap, base: seq<BuildMap>,
                  diff0: seq<BuildMap>, base0: seq<BuildMap>, g: Geometry)
    requires MergeInv(done, diff, [m] + base, diff0, base0, g) && m.length == 0
    ensures MergeInv(done, diff, base, diff0, base0, g)
  {
    FitsConcat([m], base, g);
    SortedCons(m, base);
    assert forall i :: 0 <= i < |base| ==> base[i] == ([m] + base)[i + 1];
    forall x: nat ensures Layered(done, diff, base, x) == Layered([], diff0, base0, x) {
      LocateCons(m, base, x);
    }
  }

  /** A base entry inside the diff entry is never seen. */
  lemma DropHidden(done: seq<BuildMap>, n: BuildMap, diff: seq<BuildMap>, m: BuildMap, base: seq<BuildMap>,
                   diff0: seq<BuildMap>, base0: seq<BuildMap>, g: Geometry)
    requires MergeInv(done, [n] + diff, [m] + base, diff0, base0, g)
    requires n.offset <= m.offset && m.End() <= n.End()
    ensures MergeInv(done, [n] + diff, base, diff0, base0, g)
  {
    FitsConcat([m], base, g);
    SortedCons(m, base);
    assert forall i :: 0 <= i < |base| ==> base[i] == ([m] + base)[i + 1];
    forall x: nat ensures Layered(done, [n] + diff, base, x) == Layered([], diff0, base0, x) {
      LocateCons(m, base, x);
      LocateCons(n, diff, x);
    }
  }

  lemma DropDiff(done: seq<BuildMap>, n: BuildMap, diff: seq<BuildMap>, base: seq<BuildMap>,
                 diff0: seq<BuildMap>, base0: seq<BuildMap>, g: Geometry)
    requires MergeInv(done, [n] + diff, base, diff0, base0, g) && n.length == 0
    ensures MergeInv(done, diff, base, diff0, base0, g)
  {
    FitsConcat([n], diff, g);
    SortedCons(n, diff);
    assert forall i :: 0 <= i < |diff| ==> diff[i] == ([n] + diff)[i + 1];
    forall x: nat ensures Layered(done, diff, base, x) == Layered([], diff0, base0, x) {
      LocateCons(n, diff, x);
    }
  }

  // The invariant at the loop's own indices, and what each kind of round does to it.

  ghost predicate MergeAt(done: seq<BuildMap>, diff: seq<BuildMap>, d: nat, rest: seq<BuildMap>, b: nat, base: seq<BuildMap>, g: Geometry) {
    d <= |diff| && b <= |rest| && MergeInv(done, diff[d..], rest[b..], diff, base, g)
  }

  lemma SkipBase(done: seq<BuildMap>, diff: seq<BuildMap>, d: nat, rest: seq<BuildMap>, b: nat, base: seq<BuildMap>, g: Geometry)
    requires MergeAt(done, diff, d, rest, b, base, g) && d < |diff| && b < |rest|
    requires rest[b].length == 0 || (diff[d].offset <= rest[b].offset && rest[b].End() <= diff[d].End())
    ensures MergeAt(done, diff, d, rest, b + 1, base, g)
  {
    assert diff[d..] == [diff[d]] + diff[d + 1..] && rest[b..] == [rest[b]] + rest[b + 1..];
    if rest[b].length == 0 {
      DropEmpty(done, diff[d..], rest[b], rest[b + 1..], diff, base, g);
    } else {
      DropHidden(done, diff[d], diff[d + 1..], rest[b], rest[b + 1..], diff, base, g);
    }
  }

  lemma SkipDiff(done: seq<BuildMap>, diff: seq<BuildMap>, d: nat, rest: seq<BuildMap>, b: nat, base: seq<BuildMap>, g: Geometry)
    requires MergeAt(done, diff, d, rest, b, base, g) && d < |diff| && diff[d].length == 0
    ensures MergeAt(done, diff, d + 1, rest, b, base, g)
  {
    assert diff[d..] == [diff[d]] + diff[d + 1..];
    DropDiff(done, diff[d], diff[d + 1..], rest[b..], diff, base, g);
  }

  lemma CutBase(done: seq<BuildMap>, diff: seq<BuildMap>, d: nat, rest: seq<BuildMap>, b: nat, base: seq<BuildMap>, g: Geometry, k: nat)
    requires MergeAt(done, diff, d, rest, b, base, g) && d < |diff| && b < |rest|
    requires k <= rest[b].length && rest[b].offset + k <= diff[d].offset
    requires k == rest[b].length || rest[b].offset + k == diff[d].offset
    ensures MergeAt(done + [Left(rest[b], k)], diff, d, rest[b := Right(rest[b], k)], b, base, g)
    ensures k == rest[b].length || rest[b].End() <= diff[d].End() ==>
              MergeAt(done + [Left(rest[b], k)], diff, d, rest, b + 1, base, g)
  {
    var cut := rest[b := Right(rest[b], k)];
    assert diff[d..] == [diff[d]] + diff[d + 1..] && rest[b..] == [rest[b]] + rest[b + 1..];
    assert cut[b..] == [cut[b]] + rest[b + 1..];
    assert diff[d] == diff[d..][0] && rest[b] == rest[b..][0];
    BlocksSum(diff[d].offset, rest[b].offset, g);
    EmitBase(done, diff[d], diff[d + 1..], rest[b], rest[b + 1..], k, diff, base, g);
    if k == rest[b].length || rest[b].End() <= diff[d].End() {
      SkipBase(done + [Left(rest[b], k)], diff, d, cut, b, base, g);
      assert cut[b + 1..] == rest[b + 1..];
    }
  }

  lemma TakeDiff(done: seq<BuildMap>, diff: seq<BuildMap>, d: nat, rest: seq<BuildMap>, b: nat, base: seq<BuildMap>, g: Geometry, k: nat)
    requires MergeAt(done, diff, d, rest, b, base, g) && d < |diff| && b < |rest|
    requires k <= rest[b].length
    requires if k == 0 then diff[d].End() <= rest[b].offset
             else diff[d].offset <= rest[b].offset && diff[d].End() == rest[b].offset + k
    ensures MergeAt(done + [diff[d]], diff, d + 1, rest[b := Right(rest[b], k)], b, base, g)
    ensures k == rest[b].length ==> MergeAt(done + [diff[d]], diff, d + 1, rest, b + 1, base, g)
  {
    var cut := rest[b := Right(rest[b], k)];
    assert diff[d..] == [diff[d]] + diff[d + 1..] && rest[b..] == [rest[b]] + rest[b + 1..];
    assert cut[b..] == [cut[b]] + rest[b + 1..];
    assert diff[d] == diff[d..][0] && rest[b] == rest[b..][0];
    BlocksSum(diff[d].offset, diff[d].length, g);
    BlocksSum(diff[d].End(), rest[b].offset, g);
    EmitDiff(done, diff[d], diff[d + 1..], rest[b], rest[b + 1..], k, diff, base, g);
    if k == rest[b].length {
      DropEmpty(done + [diff[d]], diff[d + 1..], cut[b], rest[b + 1..], diff, base, g);
    }
  }

  /** The diff entry splits the base entry in up to two visible parts. */
  lemma SplitBase(done: seq<BuildMap>, diff: seq<BuildMap>, d: nat, rest: seq<BuildMap>, b: nat, base: seq<BuildMap>, g: Geometry,
                  left: nat, shift: nat)
    requires MergeAt(done, diff, d, rest, b, base, g) && d < |diff| && b < |rest| && diff[d].length > 0
    requires left <= shift <= rest[b].length
    requires diff[d].offset == rest[b].offset + left && diff[d].End() == rest[b].offset + shift
    ensures var done' := if left > 0 then done + [Left(rest[b], left), diff[d]] else done + [diff[d]];
            if shift < rest[b].length then MergeAt(done', diff, d + 1, rest[b := Right(rest[b], shift)], b, base, g)
            else MergeAt(done', diff, d + 1, rest, b + 1, base, g)
  {
    var m, n := rest[b], diff[d];
    if left == 0 {
      TakeDiff(done, diff, d, rest, b, base, g, shift);
    } else {
      var cut := rest[b := Right(m, left)];
      CutBase(done, diff, d, rest, b, base, g, left);
      TakeDiff(done + [Left(m, left)], diff, d, cut, b, base, g, n.length);
      assert done + [Left(m, left)] + [n] == done + [Left(m, left), n];
      assert cut[b := Right(cut[b], n.length)] == rest[b := Right(m, shift)];
      assert cut[b + 1..] == rest[b + 1..];
    }
  }

  lemma MergeStart(diff: seq<BuildMap>, base: seq<BuildMap>, g: Geometry)
    requires Sorted(diff) && Sorted(base) && Fits(diff, g) && Fits(base, g)
    ensures MergeAt([], diff, 0, base, 0, base, g)
  {
    assert diff[0..] == diff && base[0..] == base;
  }

  /** When one side is used up, appending both remainders finishes the overlay. */
  lemma MergeEnd(done: seq<BuildMap>, diff: seq<BuildMap>, d: nat, rest: seq<BuildMap>, b: nat, base: seq<BuildMap>, g: Geometry)
    requires MergeAt(done, diff, d, rest, b, base, g) && (d == |diff| || b == |rest|)
    ensures Sorted(done + rest[b..] + diff[d..]) && Fits(done + rest[b..] + diff[d..], g)
    ensures IsOverlay(done + rest[b..] + diff[d..], diff, base)
  {
    forall x: nat ensures Locate(done + rest[b..] + diff[d..], x) == OrElse(Locate(diff, x), Locate(base, x)) {
      LocateConcat(done + rest[b..], diff[d..], x);
      LocateConcat(done, rest[b..], x);
      assert Layered(done, diff[d..], rest[b..], x) == Layered([], diff, base, x);
    }
  }

  /** The overlay of two sorted lists of mappings. */
  method MergeMappings(base: seq<BuildMap>, diff: seq<BuildMap>, ghost g: Geometry) returns (mappings: seq<BuildMap>)
    requires Sorted(base) && Sorted(diff) && Fits(base, g) && Fits(diff, g)
    ensures Sorted(mappings) && Fits(mappings, g)
    ensures IsOverlay(mappings, diff, base)
  {
    if |diff| == 0 {
      return base;
    }
    var rest := base;
    mappings := [];
    var b, d := 0, 0;
    MergeStart(diff, base, g);
    while b < |rest| && d < |diff|
      invariant MergeAt(mappings, diff, d, rest, b, base, g)
      decreases |rest| - b + |diff| - d
    {
      var m, n := rest[b], diff[d];
      if m.length == 0 {
        SkipBase(mappings, diff, d, rest, b, base, g);
        b := b + 1;
      } else if n.length == 0 {
        SkipDiff(mappings, diff, d, rest, b, base, g);
        d := d + 1;
      } else if m.End() <= n.offset {
        CutBase(mappings, diff, d, rest, b, base, g, m.length);
        mappings := mappings + [m];
        b := b + 1;
      } else if n.End() <= m.offset {
        TakeDiff(mappings, diff, d, rest, b, base, g, 0);
        assert rest[b := Right(m, 0)] == rest;
        mappings := mappings + [n];
        d := d + 1;
      } else if m.offset >= n.offset && m.End() <= n.End() {
        SkipBase(mappings, diff, d, rest, b, base, g);
        b := b + 1;
      } else if n.offset >= m.offset && n.End() <= m.End() {
        var left := n.offset - m.offset;
        var shift := n.End() - m.offset;
        SplitBase(mappings, diff, d, rest, b, base, g, left, shift);
        if left > 0 {
          mappings := mappings + [Left(m, left), n];
        } else {
          mappings := mappings + [n];
        }
        d := d + 1;
        if m.length - shift > 0 {
          rest := rest[b := Right(m, shift)];
        } else {
          b := b + 1;
        }
      } else if m.offset > n.offset {
        var shift := n.End() - m.offset;
        TakeDiff(mappings, diff, d, rest, b, base, g, shift);
        mappings := mappings + [n];
        d := d + 1;
        if m.length - shift > 0 {
          rest := rest[b := Right(m, shift)];
        } else {
          b := b + 1;
        }
      } else {
        var left := n.offset - m.offset;
        CutBase(mappings, diff, d, rest, b, base, g, left);
        if left > 0 {
          mappings := mappings + [Left(m, left)];
        }
        b := b + 1;
      }
    }
    MergeEnd(mappings, diff, d, rest, b, base, g);
    mappings := mappings + rest[b..];
    mappings := mappings + diff[d..];
  }
}
