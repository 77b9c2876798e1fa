// Creating the missing directories of a path (packages/envd/internal/permissions/path.go), on a tree whose host
// follows paths piece by piece. There are no symbolic links.
module Directories {
  import opened Prelude
  import opened Paths

  datatype Entry = Entry(dir: bool, uid: int, gid: int)

  type Entries = map<seq<Name>, Entry>

  predicate IsDirectory(entries: Entries, names: seq<Name>) {
    names in entries && entries[names].dir
  }

  predicate IsFile(entries: Entries, names: seq<Name>) {
    names in entries && !entries[names].dir
  }

  /** A directory can be made where nothing is yet, inside a directory. */
  predicate CanMake(entries: Entries, names: seq<Name>) {
    names != [] && names !in entries && IsDirectory(entries, names[..|names| - 1])
  }

  /** The root is a directory and the parent of every entry is one. */
  ghost predicate ParentClosed(entries: Entries) {
    && IsDirectory(entries, [])
    && forall names {:trigger HasParent(entries, names)} :: names in entries ==> HasParent(entries, names)
  }

  predicate HasParent(entries: Entries, names: seq<Name>) {
    names == [] || IsDirectory(entries, names[..|names| - 1])
  }

  lemma {:induction false} AncestorsAreDirectories(entries: Entries, names: seq<Name>, n: nat)
    requires ParentClosed(entries) && names in entries && n < |names|
    ensures IsDirectory(entries, names[..n])
    decreases |names|
  {
    var front := names[..|names| - 1];
    assert HasParent(entries, names);
    if n == |front| {
      assert names[..n] == front;
    } else {
      AncestorsAreDirectories(entries, front, n);
      assert front[..n] == names[..n];
    }
  }

  // ---- Following a path ---------------------------------------------------------------------

  /** Where following a path ends: at an entry, at a name that does not exist, or at a file taken for a directory. */
  datatype Walked = At(names: seq<Name>) | Missing | Blocked

  function Enter(entries: Entries, w: Walked, piece: string): Walked {
    match w
    case At(names) =>
      if !IsDirectory(entries, names) then Blocked
      else if piece == "" || piece == "." then w
      else if piece == ".." then At(if names == [] then [] else names[..|names| - 1])
      else if names + [piece] in entries then At(names + [piece])
      else Missing
    case _ => w
  }

  function Follow(entries: Entries, pieces: seq<string>): Walked {
    if pieces == [] then At([])
    else Enter(entries, Follow(entries, pieces[..|pieces| - 1]), pieces[|pieces| - 1])
  }

  function Resolve(entries: Entries, path: string): Walked {
    Follow(entries, Split(path))
  }

  /** The pieces without the empty ones at the end. */
  function Trimmed(pieces: seq<string>): seq<string> {
    if pieces != [] && pieces[|pieces| - 1] == "" then Trimmed(pieces[..|pieces| - 1]) else pieces
  }

  /** What making a directory at a path would make: its last piece must be a free name in an existing directory. */
  function Makes(entries: Entries, path: string): Option<seq<Name>> {
    var pieces := Trimmed(Split(path));
    if pieces == [] || pieces[|pieces| - 1] == "." || pieces[|pieces| - 1] == ".." then None
    else
      match Follow(entries, pieces[..|pieces| - 1])
      case At(names) =>
        var made := names + [pieces[|pieces| - 1]];
        if CanMake(entries, made) then Some(made) else None
      case _ => None
  }

  lemma FollowPush(entries: Entries, pieces: seq<string>, piece: string)
    ensures Follow(entries, pieces + [piece]) == Enter(entries, Follow(entries, pieces), piece)
  {
    assert (pieces + [piece])[..|pieces|] == pieces;
  }

  /** Without symbolic links a path that can be followed ends where its cleaned form says. */
  lemma {:induction false} FollowsNames(entries: Entries, pieces: seq<string>)
    requires forall i :: 0 <= i < |pieces| ==> '/' !in pieces[i]
    ensures Follow(entries, pieces).At? ==> Follow(entries, pieces).names == Fold(pieces, true)
  {
    if pieces != [] {
      var front := pieces[..|pieces| - 1];
      FollowsNames(entries, front);
      FoldNames(front);
      var names := Fold(front, true);
      assert names != [] ==> IsName(names[|names| - 1]);
    }
  }

  /** After some of the pieces the walk stands at a file, and there are more to come. */
  ghost predicate FileInTheWay(entries: Entries, pieces: seq<string>, k: nat) {
    k < |pieces| && Follow(entries, pieces[..k]).At? && IsFile(entries, Follow(entries, pieces[..k]).names)
  }

  /** After some of the pieces the walk stands in a directory without an entry of the next name. */
  ghost predicate NoSuchEntry(entries: Entries, pieces: seq<string>, k: nat) {
    && k < |pieces| && Follow(entries, pieces[..k]).At? && IsDirectory(entries, Follow(entries, pieces[..k]).names)
    && pieces[k] != "" && pieces[k] != "." && pieces[k] != ".."
    && Follow(entries, pieces[..k]).names + [pieces[k]] !in entries
  }

  /** A path is blocked exactly if it goes on behind a file, and leads to nothing exactly if some name on it does not
      exist. */
  lemma {:induction false} WhereItStops(entries: Entries, pieces: seq<string>)
    requires ParentClosed(entries)
    ensures Follow(entries, pieces).Blocked? <==> exists k: nat :: FileInTheWay(entries, pieces, k)
    ensures Follow(entries, pieces).Missing? <==> exists k: nat :: NoSuchEntry(entries, pieces, k)
  {
    if pieces != [] {
      var n := |pieces| - 1;
      var front := pieces[..n];
      WhereItStops(entries, front);
      FollowsEntries(entries, front);
      forall k: nat | k < n
        ensures FileInTheWay(entries, pieces, k) <==> FileInTheWay(entries, front, k)
        ensures NoSuchEntry(entries, pieces, k) <==> NoSuchEntry(entries, front, k)
      {
        assert pieces[..k] == front[..k] && pieces[k] == front[k];
      }
      StopsAtLast(entries, pieces);
    }
  }

  lemma StopsAtLast(entries: Entries, pieces: seq<string>)
    requires pieces != []
    requires var w := Follow(entries, pieces[..|pieces| - 1]); w.At? ==> w.names in entries
    ensures var w := Follow(entries, pieces[..|pieces| - 1]);
            if w.At? then
              && (Follow(entries, pieces).Blocked? <==> FileInTheWay(entries, pieces, |pieces| - 1))
              && (Follow(entries, pieces).Missing? <==> NoSuchEntry(entries, pieces, |pieces| - 1))
            else
              && Follow(entries, pieces) == w
              && !FileInTheWay(entries, pieces, |pieces| - 1) && !NoSuchEntry(entries, pieces, |pieces| - 1)
  {
  }

  /** Every directory passed on the way exists. */
  ghost predicate AllDirectories(entries: Entries, pieces: seq<string>) {
    forall k :: 0 <= k <= |pieces| ==> PassesDirectory(entries, pieces, k)
  }

  predicate PassesDirectory(entries: Entries, pieces: seq<string>, k: nat)
    requires k <= |pieces|
  {
    IsDirectory(entries, Fold(pieces[..k], true))
  }

  lemma AllDirectoriesPush(entries: Entries, front: seq<string>, piece: string)
    ensures AllDirectories(entries, front + [piece]) <==>
            AllDirectories(entries, front) && IsDirectory(entries, Fold(front + [piece], true))
  {
    var pieces := front + [piece];
    assert pieces[..|pieces|] == pieces;
    forall k: nat | k <= |front| ensures PassesDirectory(entries, pieces, k) == PassesDirectory(entries, front, k) {
      assert pieces[..k] == front[..k];
    }
    assert PassesDirectory(entries, pieces, |pieces|) <==> IsDirectory(entries, Fold(pieces, true));
  }

  ghost predicate EndsInDirectory(entries: Entries, w: Walked) {
    w.At? && IsDirectory(entries, w.names)
  }

  lemma {:induction false} FollowsDirectories(entries: Entries, pieces: seq<string>)
    requires IsDirectory(entries, []) && forall i :: 0 <= i < |pieces| ==> '/' !in pieces[i]
    ensures AllDirectories(entries, pieces) <==> EndsInDirectory(entries, Follow(entries, pieces))
  {
    if pieces == [] {
      assert pieces[..0] == [];
      assert PassesDirectory(entries, pieces, 0);
    } else {
      var front, piece := pieces[..|pieces| - 1], pieces[|pieces| - 1];
      FollowsDirectories(entries, front);
      assert pieces == front + [piece];
      AllDirectoriesPush(entries, front, piece);
      if EndsInDirectory(entries, Follow(entries, front)) {
        DirectoryStep(entries, front, piece);
      }
    }
  }

  lemma DirectoryStep(entries: Entries, front: seq<string>, piece: string)
    requires forall i :: 0 <= i < |front| ==> '/' !in front[i]
    requires EndsInDirectory(entries, Follow(entries, front))
    ensures IsDirectory(entries, Fold(front + [piece], true)) <==>
            EndsInDirectory(entries, Follow(entries, front + [piece]))
  {
    FollowPush(entries, front, piece);
    FoldPush(front, piece, true);
    FollowsNames(entries, front);
    FoldNames(front);
    var names := Fold(front, true);
    assert names != [] ==> IsName(names[|names| - 1]);
  }

  /** More directories do not stop a walk. */
  lemma {:induction false} FollowMore(entries: Entries, more: Entries, pieces: seq<string>)
    requires forall n :: n in entries ==> n in more && more[n] == entries[n]
    requires Follow(entries, pieces).At?
    ensures Follow(more, pieces) == Follow(entries, pieces)
  {
    if pieces != [] {
      FollowMore(entries, more, pieces[..|pieces| - 1]);
    }
  }

  // ---- The chain ----------------------------------------------------------------------------

  ghost function FillOne(entries: Entries, names: seq<Name>, owner: (int, int)): Entries {
    if names in entries then entries else entries[names := Entry(true, owner.0, owner.1)]
  }

  /** A failed step leaves the tree alone, or with the new directory made but not yet handed over. */
  ghost predicate LeftBy(before: Entries, names: seq<Name>, self: (int, int), after: Entries) {
    || after == before
    || (CanMake(before, names) && after == before[names := Entry(true, self.0, self.1)])
  }

  ghost predicate NoFileUpTo(entries: Entries, names: seq<Name>, n: nat)
    requires n <= |names|
  {
    forall i :: 0 <= i <= n ==> !IsFile(entries, names[..i])
  }

  /** The tree once the first n directories of the chain have been seen to. */
  ghost function Fill(entries: Entries, names: seq<Name>, n: nat, owner: (int, int)): Entries
    requires n <= |names|
  {
    if n == 0 then entries
    else FillOne(Fill(entries, names, n - 1, owner), names[..n], owner)
  }

  /** Filling adds exactly the missing directories of the chain, all with the given owner, and touches nothing else. */
  lemma {:induction false} FillAddsExactlyTheMissing(entries: Entries, names: seq<Name>, n: nat, owner: (int, int), key: seq<Name>)
    requires n <= |names|
    ensures var after := Fill(entries, names, n, owner);
            && (key in entries ==> key in after && after[key] == entries[key])
            && (key !in entries ==>
                  && (key in after <==> 0 < |key| <= n && key == names[..|key|])
                  && (key in after ==> after[key] == Entry(true, owner.0, owner.1)))
  {
    if n > 0 {
      FillAddsExactlyTheMissing(entries, names, n - 1, owner, key);
      FillAddsExactlyTheMissing(entries, names, n - 1, owner, names[..n]);
    }
  }

  /** The chain has been seen to up to n names, and none of them was a file. */
  ghost predicate Reached(before: Entries, names: seq<Name>, n: nat, owner: (int, int), entries: Entries) {
    && n <= |names|
    && entries == Fill(before, names, n, owner)
    && IsDirectory(entries, names[..n])
    && NoFileUpTo(before, names, n)
  }

  lemma ReachedStep(before: Entries, names: seq<Name>, n: nat, owner: (int, int), entries: Entries, after: Entries)
    requires Reached(before, names, n, owner, entries) && n < |names|
    requires after == FillOne(entries, names[..n + 1], owner) && IsDirectory(after, names[..n + 1])
    ensures Reached(before, names, n + 1, owner, after)
  {
    FillAddsExactlyTheMissing(before, names, n, owner, names[..n + 1]);
  }

  lemma FileStops(before: Entries, names: seq<Name>, n: nat, owner: (int, int), entries: Entries)
    requires Reached(before, names, n, owner, entries) && n < |names| && IsFile(entries, names[..n + 1])
    ensures !NoFileUpTo(before, names, |names|)
  {
    FillAddsExactlyTheMissing(before, names, n, owner, names[..n + 1]);
    assert IsFile(before, names[..n + 1]);
  }

  lemma AddKeepsClosed(entries: Entries, names: seq<Name>, e: Entry)
    requires ParentClosed(entries)
    requires if names in entries then e.dir == entries[names].dir else e.dir && CanMake(entries, names)
    ensures ParentClosed(entries[names := e])
  {
    var after := entries[names := e];
    forall key | key in after ensures HasParent(after, key) {
      assert key in entries ==> HasParent(entries, key);
    }
  }


  // ---- Clean paths --------------------------------------------------------------------------

  lemma FollowRoot(entries: Entries)
    requires IsDirectory(entries, [])
    ensures Resolve(entries, Render([])) == At([])
  {
    SplitWithSlash([]);
    assert Render([]) == "/" == WithSlash([]);
    assert Split("/") == [""] + [""];
    FollowPush(entries, [""], "");
    FollowPush(entries, [], "");
    assert [] + [""] == [""];
  }

  /** A clean path whose parent is a directory leads to its entry, or can be made. */
  lemma FollowClean(entries: Entries, names: seq<Name>)
    requires ParentClosed(entries) && AreNames(names)
    requires names == [] || IsDirectory(entries, names[..|names| - 1])
    ensures Resolve(entries, Render(names)) == if names in entries then At(names) else Missing
    ensures names !in entries ==> Makes(entries, Render(names)) == Some(names)
  {
    if names == [] {
      FollowRoot(entries);
    } else {
      var front, last := names[..|names| - 1], names[|names| - 1];
      assert names == front + [last];
      SplitWithSlash(names);
      FollowDirectory(entries, front);
      MakesLast(entries, Render(names), front, last);
    }
  }

  lemma FollowLast(entries: Entries, front: seq<Name>, last: Name)
    requires IsName(last) && IsDirectory(entries, front) && Follow(entries, [""] + front) == At(front)
    ensures Follow(entries, [""] + (front + [last])) == if front + [last] in entries then At(front + [last]) else Missing
    ensures Trimmed([""] + (front + [last])) == [""] + (front + [last])
    ensures ([""] + (front + [last]))[..|front| + 1] == [""] + front
  {
    assert [""] + (front + [last]) == ([""] + front) + [last];
    FollowPush(entries, [""] + front, last);
  }

  lemma MakesLast(entries: Entries, path: string, front: seq<Name>, last: Name)
    requires IsName(last) && IsDirectory(entries, front) && Follow(entries, [""] + front) == At(front)
    requires Split(path) == [""] + (front + [last])
    ensures Resolve(entries, path) == if front + [last] in entries then At(front + [last]) else Missing
    ensures front + [last] !in entries ==> Makes(entries, path) == Some(front + [last])
  {
    FollowLast(entries, front, last);
    var pieces := [""] + (front + [last]);
    assert pieces[|pieces| - 1] == last && |pieces| - 1 == |front| + 1;
    assert (front + [last])[..|front|] == front;
  }

  lemma {:induction false} FollowDirectory(entries: Entries, names: seq<Name>)
    requires ParentClosed(entries) && AreNames(names) && IsDirectory(entries, names)
    ensures Follow(entries, [""] + names) == At(names)
  {
    if names == [] {
      assert [""] + names == [] + [""];
      FollowPush(entries, [], "");
    } else {
      var front := names[..|names| - 1];
      assert HasParent(entries, names);
      FollowDirectory(entries, front);
      assert [""] + names == ([""] + front) + [names[|names| - 1]] && names == front + [names[|names| - 1]];
      FollowPush(entries, [""] + front, names[|names| - 1]);
    }
  }

  /** What a path would make is named by its cleaned form; afterwards the path leads to it. */
  lemma MakesNames(entries: Entries, path: string, e: Entry)
    requires IsAbs(path) && Makes(entries, path).Some? && e.dir
    ensures var made := Makes(entries, path).value;
            && made == Names(path) && CanMake(entries, made)
            && Resolve(entries[made := e], path) == At(made)
  {
    var all := Split(path);
    var pieces := Trimmed(all);
    var front, last := pieces[..|pieces| - 1], pieces[|pieces| - 1];
    SplitNoSeparator(path, '/');
    TrimmedIsPrefix(all);
    assert pieces == front + [last];
    MadeThere(entries, front, last, e);
    TrimmedNames(all);
    FollowTrimmed(entries[Makes(entries, path).value := e], all, Makes(entries, path).value);
  }

  lemma MadeThere(entries: Entries, front: seq<string>, last: string, e: Entry)
    requires forall i :: 0 <= i < |front| ==> '/' !in front[i]
    requires last != "" && last != "." && last != ".."
    requires Follow(entries, front).At? && CanMake(entries, Follow(entries, front).names + [last])
    ensures var made := Follow(entries, front).names + [last];
            made == Fold(front + [last], true) && Follow(entries[made := e], front + [last]) == At(made)
  {
    var names := Follow(entries, front).names;
    var made := names + [last];
    FollowsNames(entries, front);
    FoldPush(front, last, true);
    FollowMore(entries, entries[made := e], front);
    FollowPush(entries[made := e], front, last);
    assert made[..|made| - 1] == names;
  }

  lemma {:induction false} TrimmedIsPrefix(pieces: seq<string>)
    ensures Trimmed(pieces) <= pieces && (Trimmed(pieces) != [] ==> Trimmed(pieces)[|Trimmed(pieces)| - 1] != "")
  {
    if pieces != [] && pieces[|pieces| - 1] == "" {
      TrimmedIsPrefix(pieces[..|pieces| - 1]);
    }
  }

  lemma {:induction false} TrimmedNames(pieces: seq<string>)
    ensures Fold(Trimmed(pieces), true) == Fold(pieces, true)
  {
    if pieces != [] && pieces[|pieces| - 1] == "" {
      TrimmedNames(pieces[..|pieces| - 1]);
    }
  }

  lemma {:induction false} FollowTrimmed(entries: Entries, pieces: seq<string>, names: seq<Name>)
    requires Follow(entries, Trimmed(pieces)) == At(names) && IsDirectory(entries, names)
    ensures Follow(entries, pieces) == At(names)
  {
    if pieces != [] && pieces[|pieces| - 1] == "" {
      FollowTrimmed(entries, pieces[..|pieces| - 1], names);
    }
  }

  // ---- The file system ----------------------------------------------------------------------

  datatype Stat = Found(entry: Entry) | NotExist | StatFailed

  lemma {:induction false} FollowsEntries(entries: Entries, pieces: seq<string>)
    requires ParentClosed(entries)
    ensures Follow(entries, pieces).At? ==> Follow(entries, pieces).names in entries
  {
    if pieces != [] {
      var front := pieces[..|pieces| - 1];
      FollowsEntries(entries, front);
      if Follow(entries, front).At? {
        assert HasParent(entries, Follow(entries, front).names);
      }
    }
  }

  /** The tree below the root. Any call may also fail for reasons of the host; such failures are counted. */
  class FileSystem {
    var entries: Entries
    var hostFailures: nat
    const self: (int, int)

    ghost predicate Valid()
      reads this
    {
      ParentClosed(entries)
    }

    /** A file taken for a directory is an error, not a missing entry. */
    method StatPath(path: string) returns (r: Stat)
      requires Valid()
      modifies this`hostFailures
      ensures hostFailures >= old(hostFailures)
      ensures hostFailures != old(hostFailures) ==> r.StatFailed?
      ensures hostFailures == old(hostFailures) ==>
                match Resolve(entries, path)
                case At(names) => names in entries && r == Found(entries[names])
                case Missing => r == NotExist
                case Blocked => r == StatFailed
    {
      var fails: bool := *;
      if fails {
        hostFailures := hostFailures + 1;
        return StatFailed;
      }
      FollowsEntries(entries, Split(path));
      match Resolve(entries, path) {
        case At(names) => return Found(entries[names]);
        case Missing => return NotExist;
        case Blocked => return StatFailed;
      }
    }

    method Mkdir(path: string) returns (ok: bool)
      requires Valid()
      modifies this
      ensures Valid()
      ensures hostFailures >= old(hostFailures)
      ensures ok <==> hostFailures == old(hostFailures) && Makes(old(entries), path).Some?
      ensures entries == if ok then old(entries)[Makes(old(entries), path).value := Entry(true, self.0, self.1)]
                         else old(entries)
    {
      var fails: bool := *;
      if fails {
        hostFailures := hostFailures + 1;
        return false;
      }
      var made := Makes(entries, path);
      if made.None? {
        return false;
      }
      AddKeepsClosed(entries, made.value, Entry(true, self.0, self.1));
      entries := entries[made.value := Entry(true, self.0, self.1)];
      return true;
    }

    method Chown(path: string, uid: int, gid: int) returns (ok: bool)
      requires Valid()
      modifies this
      ensures Valid()
      ensures hostFailures >= old(hostFailures)
      ensures ok <==> hostFailures == old(hostFailures) && Resolve(old(entries), path).At?
      ensures ok ==> Resolve(old(entries), path).names in old(entries)
      ensures entries == if ok then Owned(old(entries), Resolve(old(entries), path).names, uid, gid) else old(entries)
    {
      var fails: bool := *;
      if fails {
        hostFailures := hostFailures + 1;
        return false;
      }
      var w := Resolve(entries, path);
      if !w.At? {
        return false;
      }
      FollowsEntries(entries, Split(path));
      AddKeepsClosed(entries, w.names, Entry(entries[w.names].dir, uid, gid));
      entries := Owned(entries, w.names, uid, gid);
      return true;
    }
  }

  function Owned(entries: Entries, names: seq<Name>, uid: int, gid: int): Entries
    requires names in entries
  {
    entries[names := Entry(entries[names].dir, uid, gid)]
  }

  /** Making a missing directory and handing it over. */
  method MakeOwned(fs: FileSystem, subpath: string, uid: int, gid: int) returns (ok: bool)
    requires fs.Valid() && IsAbs(subpath)
    modifies fs
    ensures fs.Valid() && fs.hostFailures >= old(fs.hostFailures)
    ensures ok <==> fs.hostFailures == old(fs.hostFailures) && Makes(old(fs.entries), subpath).Some?
    ensures Makes(old(fs.entries), subpath).Some? ==> CanMake(old(fs.entries), Names(subpath))
    ensures ok ==> fs.entries == old(fs.entries)[Names(subpath) := Entry(true, uid, gid)]
    ensures !ok ==> LeftBy(old(fs.entries), Names(subpath), fs.self, fs.entries)
  {
    ghost var before := fs.entries;
    if Makes(fs.entries, subpath).Some? {
      MakesNames(fs.entries, subpath, Entry(true, fs.self.0, fs.self.1));
    }
    ok := fs.Mkdir(subpath);
    if ok {
      ok := fs.Chown(subpath, uid, gid);
    }
  }

  /** The path leads to a directory, or to nothing where one can be made. */
  ghost predicate Settles(entries: Entries, path: string) {
    var w := Resolve(entries, path);
    EndsInDirectory(entries, w) || (w.Missing? && Makes(entries, path).Some?)
  }

  /** One turn of the loop. */
  method EnsureDir(fs: FileSystem, subpath: string, uid: int, gid: int) returns (ok: bool)
    requires fs.Valid() && IsAbs(subpath)
    modifies fs
    ensures fs.Valid() && fs.hostFailures >= old(fs.hostFailures)
    ensures ok ==> fs.entries == FillOne(old(fs.entries), Names(subpath), (uid, gid))
    ensures ok ==> IsDirectory(fs.entries, Names(subpath))
    ensures ok ==> Settles(old(fs.entries), subpath)
    ensures !ok ==> LeftBy(old(fs.entries), Names(subpath), fs.self, fs.entries)
    ensures fs.hostFailures == old(fs.hostFailures) ==> (ok <==> Settles(old(fs.entries), subpath))
  {
    SplitNoSeparator(subpath, '/');
    FollowsNames(fs.entries, Split(subpath));
    var info := fs.StatPath(subpath);
    if info.StatFailed? {
      return false;
    }
    if info.NotExist? {
      ok := MakeOwned(fs, subpath, uid, gid);
      return ok;
    }
    return info.entry.dir;
  }

  // ---- EnsureDirs ---------------------------------------------------------------------------

  /** The loop over the ancestors, one after the other until one fails. */
  method EnsureChain(fs: FileSystem, subpaths: seq<string>, ghost names: seq<Name>, uid: int, gid: int)
    returns (ok: bool, ghost reached: nat)
    requires fs.Valid() && AreNames(names) && subpaths == Chain(names)
    modifies fs
    ensures fs.Valid() && reached <= |names|
    ensures ok ==> Reached(old(fs.entries), names, |names|, (uid, gid), fs.entries)
    ensures !ok ==> reached < |names|
    ensures !ok ==> LeftBy(Fill(old(fs.entries), names, reached, (uid, gid)), names[..reached + 1], fs.self, fs.entries)
    ensures fs.hostFailures >= old(fs.hostFailures)
    ensures fs.hostFailures == old(fs.hostFailures) ==> (ok <==> NoFileUpTo(old(fs.entries), names, |names|))
  {
    ghost var before := fs.entries;
    reached := 0;
    var i: nat := 0;
    while i < |subpaths|
      invariant i == reached <= |subpaths| && fs.Valid() && fs.hostFailures >= old(fs.hostFailures)
      invariant Reached(before, names, reached, (uid, gid), fs.entries)
    {
      ghost var entries := fs.entries;
      ChainSettles(entries, names, reached);
      ok := EnsureDir(fs, subpaths[i], uid, gid);
      if !ok {
        if fs.hostFailures == old(fs.hostFailures) {
          FileStops(before, names, reached, (uid, gid), entries);
        }
        return;
      }
      ReachedStep(before, names, reached, (uid, gid), entries, fs.entries);
      reached := reached + 1;
      i := i + 1;
    }
    return true, reached;
  }

  /** The next ancestor, whose parent is a directory, can be seen to unless it is a file. */
  lemma ChainSettles(entries: Entries, names: seq<Name>, n: nat)
    requires ParentClosed(entries) && AreNames(names) && n < |names| && IsDirectory(entries, names[..n])
    ensures var p := Chain(names)[n];
            IsAbs(p) && Names(p) == names[..n + 1] && (Settles(entries, p) <==> !IsFile(entries, names[..n + 1]))
  {
    var key := names[..n + 1];
    assert key[..n] == names[..n];
    RenderNames(key);
    FollowClean(entries, key);
  }

  /** The pieces before the last slash. */
  function Above(path: string): seq<string> {
    Split(path)[..|Split(path)| - 1]
  }

  lemma {:induction false} SplitPrefix(path: string)
    requires IsAbs(path)
    ensures Split(Prefix(path)) == Above(path) + [""]
  {
    if path[|path| - 1] == '/' {
      assert Split(path) == Split(path[..|path| - 1]) + [""];
    } else {
      SplitPrefix(path[..|path| - 1]);
    }
  }

  /** A directory passed on the way is one of the ancestors to be made, or was already there. */
  predicate Passable(before: Entries, chain: seq<Name>, names: seq<Name>) {
    names <= chain || IsDirectory(before, names)
  }

  /** Exactly when EnsureDirs succeeds: no ancestor is a file, every detour of the path as given leads through a
      directory that was already there, and the path itself is no file. */
  ghost predicate CanEnsure(before: Entries, path: string) {
    var chain := Names(Prefix(path));
    && NoFileUpTo(before, chain, |chain|)
    && AllDetours(before, chain, Above(path))
    && !IsFile(before, Names(path))
  }

  ghost predicate AllDetours(before: Entries, chain: seq<Name>, pieces: seq<string>) {
    forall k :: 0 <= k <= |pieces| ==> Detour(before, chain, pieces, k)
  }

  predicate Detour(before: Entries, chain: seq<Name>, pieces: seq<string>, k: nat)
    requires k <= |pieces|
  {
    Passable(before, chain, Fold(pieces[..k], true))
  }

  /** In the filled tree the directories are the ancestors and those that were there before. */
  lemma FilledDirectories(before: Entries, chain: seq<Name>, owner: (int, int), after: Entries, names: seq<Name>)
    requires Reached(before, chain, |chain|, owner, after) && IsDirectory(before, [])
    ensures IsDirectory(after, names) <==> Passable(before, chain, names)
    ensures IsFile(after, names) <==> IsFile(before, names)
  {
    FillAddsExactlyTheMissing(before, chain, |chain|, owner, names);
    if names <= chain {
      assert names == chain[..|names|];
      assert !IsFile(before, chain[..|names|]);
    }
  }

  /** The names of the path and of its ancestors, from its pieces. */
  lemma PathPieces(path: string)
    requires IsAbs(path)
    ensures Split(path) == Above(path) + [Split(path)[|Split(path)| - 1]]
    ensures Names(Prefix(path)) == Fold(Above(path), true)
    ensures Names(path) == Push(Fold(Above(path), true), Split(path)[|Split(path)| - 1], true)
    ensures forall i :: 0 <= i < |Above(path)| ==> '/' !in Above(path)[i]
  {
    PrefixAbs(path);
    SplitPrefix(path);
    FoldPush(Above(path), "", true);
    FoldPush(Above(path), Split(path)[|Split(path)| - 1], true);
    SplitNoSeparator(path, '/');
  }

  lemma DetoursAreDirectories(before: Entries, path: string, owner: (int, int), after: Entries)
    requires IsAbs(path) && IsDirectory(before, [])
    requires Reached(before, Names(Prefix(path)), |Names(Prefix(path))|, owner, after)
    ensures AllDetours(before, Names(Prefix(path)), Above(path)) <==> AllDirectories(after, Above(path))
  {
    var chain := Names(Prefix(path));
    var pieces := Above(path);
    forall k: nat | k <= |pieces| ensures Detour(before, chain, pieces, k) <==> PassesDirectory(after, pieces, k) {
      FilledDirectories(before, chain, owner, after, Fold(pieces[..k], true));
    }
    if AllDirectories(after, pieces) {
      forall k | 0 <= k <= |pieces| ensures Detour(before, chain, pieces, k) {
        assert PassesDirectory(after, pieces, k);
      }
    } else {
      var k :| 0 <= k <= |pieces| && !PassesDirectory(after, pieces, k);
      assert !Detour(before, chain, pieces, k);
    }
  }

  /** Once the ancestors are there: which paths can still be seen to. */
  lemma LastSettles(before: Entries, path: string, owner: (int, int), after: Entries)
    requires IsAbs(path) && ParentClosed(before) && ParentClosed(after)
    requires Reached(before, Names(Prefix(path)), |Names(Prefix(path))|, owner, after)
    ensures Settles(after, path) <==> CanEnsure(before, path)
  {
    var chain := Names(Prefix(path));
    PathPieces(path);
    DetoursAreDirectories(before, path, owner, after);
    FollowsDirectories(after, Above(path));
    FollowsNames(after, Above(path));
    FilledDirectories(before, chain, owner, after, Names(path));
    FollowPush(after, Above(path), Split(path)[|Split(path)| - 1]);
    assert chain == chain[..|chain|];
    if EndsInDirectory(after, Follow(after, Above(path))) {
      LastStep(after, path);
      NotAFile(before, path, owner, after);
    } else {
      NothingToMake(after, path);
    }
  }

  /** The last piece of a path whose pieces above lead to a directory. */
  lemma LastStep(entries: Entries, path: string)
    requires IsAbs(path) && ParentClosed(entries)
    requires Follow(entries, Above(path)) == At(Names(Prefix(path))) && IsDirectory(entries, Names(Prefix(path)))
    ensures Settles(entries, path) <==> !IsFile(entries, Names(path))
  {
    var names, last := Names(Prefix(path)), Split(path)[|Split(path)| - 1];
    PathPieces(path);
    PrefixAbs(path);
    AbsNames(Prefix(path));
    FollowPush(entries, Above(path), last);
    if last == ".." {
      assert HasParent(entries, names);
      assert names != [] ==> IsName(names[|names| - 1]);
    } else if last != "" && last != "." {
      assert (names + [last])[..|names|] == names;
    }
  }

  /** The filled ancestors and their parents are no files. */
  lemma NotAFile(before: Entries, path: string, owner: (int, int), after: Entries)
    requires IsAbs(path) && ParentClosed(after) && IsDirectory(before, [])
    requires Reached(before, Names(Prefix(path)), |Names(Prefix(path))|, owner, after)
    ensures IsFile(after, Names(path)) <==> IsFile(before, Names(path))
  {
    FilledDirectories(before, Names(Prefix(path)), owner, after, Names(path));
  }

  /** What can be made under a last name lies in the directory the pieces above lead to. */
  lemma MakesInDirectory(entries: Entries, path: string)
    requires Makes(entries, path).Some? && Split(path)[|Split(path)| - 1] != ""
    ensures EndsInDirectory(entries, Follow(entries, Above(path)))
  {
    var names := Follow(entries, Above(path)).names;
    assert (names + [Split(path)[|Split(path)| - 1]])[..|names|] == names;
  }

  /** Nothing can be made where the way there is broken and the ancestors exist. */
  lemma NothingToMake(entries: Entries, path: string)
    requires IsAbs(path) && Names(Prefix(path)) in entries
    requires !EndsInDirectory(entries, Follow(entries, Above(path)))
    ensures !Settles(entries, path)
  {
    var last := Split(path)[|Split(path)| - 1];
    PathPieces(path);
    FollowPush(entries, Above(path), last);
    if Makes(entries, path).Some? {
      if last == "" {
        MakesNames(entries, path, Entry(true, 0, 0));
      } else {
        MakesInDirectory(entries, path);
      }
    }
  }

  /** Creating the missing directories of any absolute path. On success the path is a directory and exactly the missing
      ones among it and its ancestors were made; on failure the ancestors were seen to up to some element, which may be
      made but not handed over. Unless the host fails, it succeeds exactly if the tree allows it. */
  method EnsureDirs(fs: FileSystem, path: string, uid: int, gid: int) returns (ok: bool, ghost reached: nat)
    requires fs.Valid() && IsAbs(path)
    modifies fs
    ensures fs.Valid()
    ensures reached <= |Names(Prefix(path))|
    ensures ok ==> IsDirectory(fs.entries, Names(path))
    ensures ok ==> fs.entries == FillOne(Fill(old(fs.entries), Names(Prefix(path)), |Names(Prefix(path))|, (uid, gid)),
                                         Names(path), (uid, gid))
    ensures !ok ==> LeftBy(Fill(old(fs.entries), Names(Prefix(path)), reached, (uid, gid)), Element(path, reached),
                           fs.self, fs.entries)
    ensures ok ==> CanEnsure(old(fs.entries), path)
    ensures fs.hostFailures == old(fs.hostFailures) ==> (ok <==> CanEnsure(old(fs.entries), path))
  {
    ghost var chain := Names(Prefix(path));
    PrefixAbs(path);
    AbsNames(Prefix(path));
    var subpaths := GetSubpaths(path);
    var n := |subpaths| - 1;
    ok, reached := EnsureChain(fs, subpaths[..n], chain, uid, gid);
    if !ok {
      return;
    }
    LastSettles(old(fs.entries), path, (uid, gid), fs.entries);
    ok := EnsureDir(fs, subpaths[n], uid, gid);
    reached := |chain|;
  }

  /** What was being seen to after so many ancestors: the next one, or the path itself. */
  ghost function Element(path: string, n: nat): seq<Name>
    requires n <= |Names(Prefix(path))|
  {
    if n == |Names(Prefix(path))| then Names(path) else Names(Prefix(path))[..n + 1]
  }

  /** A clean path takes no detours: it can be seen to exactly if nothing on it is a file. */
  lemma CleanTakesNoDetour(before: Entries, names: seq<Name>)
    requires AreNames(names) && IsDirectory(before, [])
    ensures CanEnsure(before, Render(names)) <==> NoFileUpTo(before, names, |names|)
  {
    if names == [] {
      RootTakesNoDetour(before);
    } else {
      var front, last := names[..|names| - 1], names[|names| - 1];
      assert names == front + [last];
      CleanAbove(front, last);
      NoDetours(before, front);
      assert names[..|names|] == names;
      assert forall i :: 0 <= i <= |front| ==> names[..i] == front[..i];
    }
  }

  lemma CleanAbove(front: seq<Name>, last: Name)
    requires AreNames(front + [last])
    ensures var path := Render(front + [last]);
            Above(path) == [""] + front && Names(Prefix(path)) == front && Names(path) == front + [last]
  {
    SplitWithSlash(front + [last]);
    RenderNames(front + [last]);
    assert [""] + (front + [last]) == ([""] + front) + [last];
    PathPieces(Render(front + [last]));
    forall i | 0 <= i < |front| ensures IsName(front[i]) {
      assert (front + [last])[i] == front[i];
    }
    FoldOfNames(front);
  }

  lemma RootTakesNoDetour(before: Entries)
    requires IsDirectory(before, [])
    ensures CanEnsure(before, Render([])) && NoFileUpTo(before, [], 0)
  {
    SplitWithSlash([]);
    RenderNames([]);
    assert Render([]) == "/" == WithSlash([]) && Prefix("/") == "/";
    assert Split("/") == [""] + [""];
    assert Above("/") == [""] + [];
    NoDetours(before, []);
  }

  lemma NoDetours(before: Entries, names: seq<Name>)
    requires AreNames(names)
    ensures AllDetours(before, names, [""] + names)
  {
    var pieces := [""] + names;
    forall k | 0 <= k <= |pieces| ensures Detour(before, names, pieces, k) {
      if k > 0 {
        assert pieces[..k] == [""] + names[..k - 1];
        FoldOfNames(names[..k - 1]);
      } else {
        assert pieces[..0] == [];
      }
    }
  }

  /** A path through x and back can be seen to only if x is already a directory, even if nothing on it is a file. */
  lemma DetourMustExist(before: Entries, a: Name, x: Name, b: Name)
    requires IsName(a) && IsName(x) && IsName(b) && IsDirectory(before, [])
    ensures var path := "" + ['/'] + (a + ['/'] + (x + ['/'] + (".." + ['/'] + b)));
            && Names(path) == [a, b]
            && (CanEnsure(before, path) <==>
                  !IsFile(before, [a]) && !IsFile(before, [a, b]) && IsDirectory(before, [a, x]))
  {
    var path := "" + ['/'] + (a + ['/'] + (x + ['/'] + (".." + ['/'] + b)));
    FivePieces("", a, x, "..", b);
    assert Above(path) == ["", a, x, ".."];
    PathPieces(path);
    FoldDetour(a, x, b);
    DetoursThrough(before, a, x);
    assert [a][..0] == [] && [a][..1] == [a];
  }

  lemma FivePieces(r: string, a: string, x: string, up: string, b: string)
    requires '/' !in r && '/' !in a && '/' !in x && '/' !in up && '/' !in b
    ensures Split(r + ['/'] + (a + ['/'] + (x + ['/'] + (up + ['/'] + b)))) == [r, a, x, up, b]
  {
    SplitPlain(b, '/');
    PieceBefore(up, b, [b]);
    PieceBefore(x, up + ['/'] + b, [up, b]);
    PieceBefore(a, x + ['/'] + (up + ['/'] + b), [x, up, b]);
    PieceBefore(r, a + ['/'] + (x + ['/'] + (up + ['/'] + b)), [a, x, up, b]);
  }

  lemma PieceBefore(piece: string, path: string, pieces: seq<string>)
    requires '/' !in piece && Split(path) == pieces
    ensures Split(piece + ['/'] + path) == [piece] + pieces
  {
    SplitPlain(piece, '/');
    SplitConcat(piece, path, '/');
  }

  lemma DetoursThrough(before: Entries, a: Name, x: Name)
    requires IsName(a) && IsName(x) && IsDirectory(before, [])
    ensures AllDetours(before, [a], ["", a, x, ".."]) <==> IsDirectory(before, [a, x])
  {
    FoldDetour(a, x, a);
    var pieces := ["", a, x, ".."];
    assert pieces[..0] == [] && pieces[..1] == [""] && pieces[..2] == ["", a] && pieces[..3] == ["", a, x] && pieces[..4] == pieces;
    assert forall k :: 0 <= k <= 4 && k != 3 ==> Detour(before, [a], pieces, k);
    assert Detour(before, [a], pieces, 3) <==> IsDirectory(before, [a, x]);
  }

  lemma FoldDetour(a: Name, x: Name, b: Name)
    requires IsName(a) && IsName(x) && IsName(b)
    ensures Fold([], true) == [] && Fold([""], true) == [] && Fold(["", a], true) == [a]
    ensures Fold(["", a, x], true) == [a, x] && Fold(["", a, x, ".."], true) == [a]
    ensures Fold(["", a, x, "..", b], true) == [a, b]
  {
    assert [] + [""] == [""] && [""] + [a] == ["", a] && ["", a] + [x] == ["", a, x];
    assert ["", a, x] + [".."] == ["", a, x, ".."] && ["", a, x, ".."] + [b] == ["", a, x, "..", b];
    FoldPush([], "", true);
    FoldPush([""], a, true);
    FoldPush(["", a], x, true);
    FoldPush(["", a, x], "..", true);
    FoldPush(["", a, x, ".."], b, true);
    assert [a, x][..1] == [a];
  }
}
