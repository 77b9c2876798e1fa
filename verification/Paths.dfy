// Resolving user paths and walking to their ancestors (packages/envd/internal/permissions/path.go), over the lexical path functions of the host's file path library on Unix.
module Paths {
  import opened Prelude

  type Name = string

  // ---- Splitting and cleaning ---------------------------------------------------------------

  /** The pieces between slashes. */
  function Split(p: string): seq<string> {
    SplitOn(p, '/')
  }

  /** One piece applied to the names kept so far: empty and "." vanish, ".." removes the last name. */
  function Push(names: seq<Name>, piece: string, rooted: bool): seq<Name> {
    if piece == "" || piece == "." then names
    else if piece == ".." then
      if names != [] && names[|names| - 1] != ".." then names[..|names| - 1]
      else if rooted then names
      else names + [piece]
    else names + [piece]
  }

  function Fold(pieces: seq<string>, rooted: bool): seq<Name> {
    if pieces == [] then [] else Push(Fold(pieces[..|pieces| - 1], rooted), pieces[|pieces| - 1], rooted)
  }

  function IsAbs(p: string): bool {
    p != "" && p[0] == '/'
  }

  function JoinNames(names: seq<Name>): string {
    if names == [] then ""
    else if |names| == 1 then names[0]
    else JoinNames(names[..|names| - 1]) + "/" + names[|names| - 1]
  }

  /** The names of a path once cleaned. */
  function Names(p: string): seq<Name> {
    Fold(Split(p), IsAbs(p))
  }

  function Clean(p: string): string {
    if IsAbs(p) then "/" + JoinNames(Names(p))
    else if Names(p) == [] then "."
    else JoinNames(Names(p))
  }

  /** The part up to and including the last slash. */
  function Prefix(p: string): string {
    if p == "" || p[|p| - 1] == '/' then p else Prefix(p[..|p| - 1])
  }

  /** The parent directory, cleaned. */
  function Dir(p: string): string {
    Clean(Prefix(p))
  }

  predicate IsName(n: string) {
    n != "" && n != "." && n != ".." && '/' !in n
  }

  ghost predicate AreNames(names: seq<Name>) {
    forall i :: 0 <= i < |names| ==> IsName(names[i])
  }

  /** The absolute path with the given names. */
  function Render(names: seq<Name>): string {
    "/" + JoinNames(names)
  }

  lemma {:induction false} FoldPush(pieces: seq<string>, piece: string, rooted: bool)
    ensures Fold(pieces + [piece], rooted) == Push(Fold(pieces, rooted), piece, rooted)
  {
    assert (pieces + [piece])[..|pieces|] == pieces;
  }

  /** Cleaning an absolute path leaves only real names. */
  lemma {:induction false} FoldNames(pieces: seq<string>)
    requires forall i :: 0 <= i < |pieces| ==> '/' !in pieces[i]
    ensures AreNames(Fold(pieces, true))
  {
    if pieces != [] {
      FoldNames(pieces[..|pieces| - 1]);
    }
  }

  lemma AbsNames(p: string)
    requires IsAbs(p)
    ensures AreNames(Names(p))
  {
    SplitNoSeparator(p, '/');
    FoldNames(Split(p));
  }

  // ---- The parent of a path -----------------------------------------------------------------

  function WithSlash(names: seq<Name>): string {
    if names == [] then "/" else Render(names) + "/"
  }

  lemma RenderLast(names: seq<Name>)
    requires names != []
    ensures Render(names) == WithSlash(names[..|names| - 1]) + names[|names| - 1]
  {
    var front, last := names[..|names| - 1], names[|names| - 1];
    if front == [] {
      assert JoinNames(names) == last;
    } else {
      assert JoinNames(names) == JoinNames(front) + "/" + last;
      assert "/" + (JoinNames(front) + "/" + last) == ("/" + JoinNames(front)) + "/" + last;
    }
  }

  lemma SplitLast(p: string, front: seq<Name>, last: Name)
    requires '/' !in last && Split(p) == [""] + front + [""]
    ensures Split(p + last) == [""] + (front + [last])
    ensures Split(p + last + ['/']) == [""] + (front + [last]) + [""]
  {
    SplitName(p, last, '/');
    var r := Split(p);
    assert r[..|r| - 1] == [""] + front && r[|r| - 1] + last == last;
    assert [""] + front + [last] == [""] + (front + [last]);
    SplitPush(p + last, '/', '/');
  }

  lemma {:induction false} SplitWithSlash(names: seq<Name>)
    requires AreNames(names)
    ensures Split(WithSlash(names)) == [""] + names + [""]
    ensures names != [] ==> Split(Render(names)) == [""] + names
  {
    if names == [] {
      assert Split("") == [""] && "/"[..0] == "";
    } else {
      var front, last := names[..|names| - 1], names[|names| - 1];
      assert names == front + [last];
      SplitWithSlash(front);
      RenderLast(names);
      SplitLast(WithSlash(front), front, last);
      assert Render(names) + ['/'] == WithSlash(names);
    }
  }

  lemma {:induction false} FoldOfNames(names: seq<Name>)
    requires AreNames(names)
    ensures Fold([""] + names, true) == names
  {
    if names == [] {
      FoldPush([], "", true);
      assert [""] == [] + [""];
    } else {
      var front, last := names[..|names| - 1], names[|names| - 1];
      FoldOfNames(front);
      FoldPush([""] + front, last, true);
      assert [""] + names == [""] + front + [last] && names == front + [last];
    }
  }

  /** An absolute path of real names is clean, and its names are those it was rendered from. */
  lemma RenderNames(names: seq<Name>)
    requires AreNames(names)
    ensures Names(Render(names)) == names && Names(WithSlash(names)) == names
    ensures Clean(Render(names)) == Render(names) && Clean(WithSlash(names)) == Render(names)
  {
    SplitWithSlash(names);
    FoldOfNames(names);
    FoldPush([""] + names, "", true);
    if names == [] {
      assert Render(names) == "/" == WithSlash(names);
    }
  }

  lemma CleanIdempotent(p: string)
    requires IsAbs(p)
    ensures Clean(Clean(p)) == Clean(p) && IsAbs(Clean(p))
  {
    AbsNames(p);
    RenderNames(Names(p));
  }

  lemma {:induction false} PrefixName(p: string, n: string)
    requires p != "" && p[|p| - 1] == '/' && '/' !in n
    ensures Prefix(p + n) == p
  {
    if n == "" {
      assert p + n == p;
    } else {
      assert (p + n)[..|p + n| - 1] == p + n[..|n| - 1];
      PrefixName(p, n[..|n| - 1]);
    }
  }

  lemma {:induction false} PrefixAbs(p: string)
    ensures IsAbs(Prefix(p)) <==> IsAbs(p)
    ensures p == "" || p[|p| - 1] != '/' ==> |Prefix(p)| <= |p|
  {
    if p != "" && p[|p| - 1] != '/' {
      PrefixAbs(p[..|p| - 1]);
    }
  }

  /** The parent of a clean absolute path drops its last name. */
  lemma DirRender(names: seq<Name>)
    requires AreNames(names) && names != []
    ensures Prefix(Render(names)) == WithSlash(names[..|names| - 1])
    ensures Dir(Render(names)) == Render(names[..|names| - 1])
  {
    var front, last := names[..|names| - 1], names[|names| - 1];
    RenderLast(names);
    PrefixName(WithSlash(front), last);
    RenderNames(front);
  }

  lemma RenderRoot(names: seq<Name>)
    requires AreNames(names)
    ensures Render(names) == "/" <==> names == []
  {
    if names != [] {
      RenderNames(names);
      RenderNames([]);
    }
  }

  // ---- Termination of the walk --------------------------------------------------------------

  function Ancestor(p: string, n: nat): string
    decreases n
  {
    if n == 0 then p else Ancestor(Dir(p), n - 1)
  }

  /** The walk meets the root after so many parents. */
  ghost predicate EndsAfter(p: string, n: nat) {
    n > 0 && Ancestor(p, n) == "/"
  }

  lemma {:induction false} RelativeNames(pieces: seq<string>)
    requires forall i :: 0 <= i < |pieces| ==> '/' !in pieces[i]
    ensures forall i :: 0 <= i < |Fold(pieces, false)| ==> Fold(pieces, false)[i] != "" && '/' !in Fold(pieces, false)[i]
  {
    if pieces != [] {
      RelativeNames(pieces[..|pieces| - 1]);
    }
  }

  lemma {:induction false} JoinStart(names: seq<Name>)
    requires names != [] && names[0] != ""
    ensures JoinNames(names) != "" && JoinNames(names)[0] == names[0][0]
  {
    if |names| > 1 {
      JoinStart(names[..|names| - 1]);
    }
  }

  lemma DirRelative(p: string)
    requires !IsAbs(p)
    ensures !IsAbs(Dir(p))
  {
    PrefixAbs(p);
    SplitNoSeparator(Prefix(p), '/');
    RelativeNames(Split(Prefix(p)));
    if Names(Prefix(p)) != [] {
      JoinStart(Names(Prefix(p)));
    }
  }

  lemma {:induction false} RelativeNeverEnds(p: string, n: nat)
    requires !IsAbs(p)
    ensures Ancestor(p, n) != "/"
    decreases n
  {
    if n > 0 {
      DirRelative(p);
      RelativeNeverEnds(Dir(p), n - 1);
    }
  }

  lemma {:induction false} AbsoluteEnds(names: seq<Name>)
    requires AreNames(names)
    ensures Ancestor(Render(names), |names|) == "/"
    decreases |names|
  {
    if names != [] {
      DirRender(names);
      AbsoluteEnds(names[..|names| - 1]);
    }
  }

  /** Going from parent to parent reaches the root, and so the walk ends, exactly if the path is absolute. */
  lemma WalkEndsIffAbsolute(p: string)
    ensures (exists n: nat :: EndsAfter(p, n)) <==> IsAbs(p)
  {
    if IsAbs(p) {
      PrefixAbs(p);
      AbsNames(Prefix(p));
      var names := Names(Prefix(p));
      AbsoluteEnds(names);
      assert Dir(p) == Render(names);
      assert EndsAfter(p, |names| + 1);
    } else {
      forall n: nat ensures !EndsAfter(p, n) { RelativeNeverEnds(p, n); }
    }
  }

  // ---- getSubpaths --------------------------------------------------------------------------

  /** The ancestors below the root, shallowest first, ending with the path itself. */
  ghost function Chain(names: seq<Name>): seq<string> {
    seq(|names|, i requires 0 <= i < |names| => Render(names[..i + 1]))
  }

  lemma {:induction false} ReversePush<T>(s: seq<T>, x: T)
    ensures Reverse(s + [x]) == [x] + Reverse(s)
  {
    if s == [] {
      assert s + [x] == [x];
    } else {
      assert (s + [x])[1..] == s[1..] + [x];
      ReversePush(s[1..], x);
    }
  }

  /** One turn of the walk: the parent goes in front of what the reversal will give. */
  lemma WalkStep(names: seq<Name>, k: nat)
    requires AreNames(names) && 0 < k <= |names|
    ensures Dir(Render(names[..k])) == Render(names[..k - 1])
    ensures Chain(names)[k - 1..] == [Render(names[..k])] + Chain(names)[k..]
    ensures Render(names[..k]) != "/"
  {
    DirRender(names[..k]);
    assert names[..k][..k - 1] == names[..k - 1];
    RenderRoot(names[..k]);
  }

  /** What is collected, reversed, is the end of the chain and the path. */
  lemma CollectStep(subpaths: seq<string>, names: seq<Name>, k: nat, path: string)
    requires AreNames(names) && k <= |names| && Render(names[..k]) != "/"
    requires Reverse(subpaths) == Chain(names)[k..] + [path]
    ensures k > 0 && Dir(Render(names[..k])) == Render(names[..k - 1])
    ensures Reverse(subpaths + [Render(names[..k])]) == Chain(names)[k - 1..] + [path]
  {
    RenderRoot(names[..k]);
    WalkStep(names, k);
    ReversePush(subpaths, Render(names[..k]));
  }

  /** The ancestors of the path's parent directory, then the path as given. */
  method GetSubpaths(path: string) returns (subpaths: seq<string>)
    requires IsAbs(path)
    ensures subpaths == Chain(Names(Prefix(path))) + [path]
  {
    ghost var names := Names(Prefix(path));
    PrefixAbs(path);
    AbsNames(Prefix(path));
    subpaths := [path];
    var current := Dir(path);
    ghost var k: nat := |names|;
    assert names[..k] == names && Reverse([path]) == [path];
    while current != "/"
      invariant k <= |names| && current == Render(names[..k])
      invariant Reverse(subpaths) == Chain(names)[k..] + [path]
      decreases k
    {
      CollectStep(subpaths, names, k, path);
      subpaths := subpaths + [current];
      current := Dir(current);
      k := k - 1;
    }
    WalkDone(names, k);
    subpaths := Reverse(subpaths);
  }

  lemma WalkDone(names: seq<Name>, k: nat)
    requires AreNames(names) && k <= |names| && Render(names[..k]) == "/"
    ensures Chain(names)[k..] == Chain(names)
  {
    RenderRoot(names[..k]);
  }

  lemma ChainPush(names: seq<Name>)
    requires names != []
    ensures Chain(names) == Chain(names[..|names| - 1]) + [Render(names)]
  {
    var front := names[..|names| - 1];
    assert names[..|names|] == names;
    forall i: nat | i < |front| ensures Chain(front)[i] == Chain(names)[i] {
      assert front[..i + 1] == names[..i + 1];
    }
  }

  /** For a clean path the result is the ancestor chain; the root appears only as its own chain. */
  lemma SubpathsOfClean(names: seq<Name>)
    requires AreNames(names)
    ensures Chain(Names(Prefix(Render(names)))) + [Render(names)] == if names == [] then ["/"] else Chain(names)
  {
    if names == [] {
      RenderNames([]);
      assert Render([]) == "/" && WithSlash([]) == "/" && Prefix("/") == "/";
    } else {
      DirRender(names);
      RenderNames(names[..|names| - 1]);
      ChainPush(names);
    }
  }

  /** In the chain each element is the parent of the next, the first lies in the root, and the last is the path. */
  lemma ChainOfParents(names: seq<Name>, i: nat)
    requires AreNames(names) && i < |names|
    ensures Dir(Chain(names)[i]) == if i == 0 then "/" else Chain(names)[i - 1]
    ensures Chain(names)[i] != "/"
    ensures Chain(names)[|names| - 1] == Render(names)
  {
    assert Chain(names)[i] == Render(names[..i + 1]);
    WalkStep(names, i + 1);
    ChainEnds(names);
    assert i > 0 ==> Chain(names)[i - 1] == Render(names[..i]);
  }

  lemma ChainEnds(names: seq<Name>)
    requires names != []
    ensures Chain(names)[|names| - 1] == Render(names) && Render(names[..0]) == "/"
  {
    assert names[..|names|] == names && names[..0] == [];
  }

  // ---- expand and ExpandAndResolve ----------------------------------------------------------

  /** Joining two path elements: empty leading ones are skipped, the result is cleaned. */
  function Join(first: string, second: string): string {
    if first != "" then Clean(first + "/" + second)
    else if second != "" then Clean(second)
    else ""
  }

  /** A tilde followed by anything but a separator names some other user's home. */
  predicate OtherHome(path: string) {
    |path| > 1 && path[0] == '~' && path[1] != '/' && path[1] != '\\'
  }

  datatype PathError = UserSpecificHome | NoWorkingDirectory

  function Expand(path: string, home: string): Result<string, PathError> {
    if path == "" || path[0] != '~' then Success(path)
    else if OtherHome(path) then Failure(UserSpecificHome)
    else Success(Join(home, path[1..]))
  }

  /** The working directory is asked for only when nothing else makes the path absolute. */
  function ExpandAndResolve(path: string, home: string, cwd: Option<string>): Result<string, PathError> {
    match Expand(path, home)
    case Failure(e) => Failure(e)
    case Success(p) =>
      if IsAbs(p) then Success(p)
      else
        var joined := Join(home, p);
        if IsAbs(joined) then Success(Clean(joined))
        else if cwd.None? then Failure(NoWorkingDirectory)
        else Success(Join(cwd.value, joined))
  }

  /** What the path says relative to the home directory. */
  function Relative(path: string): string {
    if path != "" && path[0] == '~' then path[1..] else path
  }

  /** Following pieces one after the other from a directory. */
  function Walk(start: seq<Name>, pieces: seq<string>): seq<Name>
    decreases |pieces|
  {
    if pieces == [] then start else Walk(Push(start, pieces[0], true), pieces[1..])
  }

  lemma {:induction false} FoldConcat(first: seq<string>, second: seq<string>)
    ensures Fold(first + second, true) == Walk(Fold(first, true), second)
    decreases |second|
  {
    if second == [] {
      assert first + second == first;
    } else {
      FoldPush(first, second[0], true);
      FoldConcat(first + [second[0]], second[1..]);
      assert first + second == first + [second[0]] + second[1..];
    }
  }

  lemma CleanKeepsKind(p: string)
    ensures IsAbs(Clean(p)) <==> IsAbs(p)
  {
    if !IsAbs(p) {
      SplitNoSeparator(p, '/');
      RelativeNames(Split(p));
      if Names(p) != [] {
        JoinStart(Names(p));
      }
    }
  }

  lemma JoinAbs(home: string, path: string)
    requires IsAbs(home)
    ensures var r := Join(home, path);
            IsAbs(r) && Clean(r) == r && Names(r) == Walk(Names(home), Split(path))
  {
    var whole := home + "/" + path;
    SplitConcat(home, path, '/');
    assert home + "/" == home + ['/'];
    FoldConcat(Split(home), Split(path));
    AbsNames(whole);
    RenderNames(Names(whole));
  }

  lemma JoinRelative(home: string, path: string)
    requires !IsAbs(home)
    ensures IsAbs(Join(home, path)) <==> home == "" && IsAbs(path)
  {
    CleanKeepsKind(home + "/" + path);
    CleanKeepsKind(path);
  }

  /** With an absolute home directory every path resolves, except one naming another user's home. An absolute
      path comes back as it is; any other gives the clean absolute path reached from home piece by piece. */
  lemma ResolvesFromHome(path: string, home: string, cwd: Option<string>)
    requires IsAbs(home)
    ensures var r := ExpandAndResolve(path, home, cwd);
            && (r.Success? <==> !OtherHome(path))
            && (r.Success? ==> IsAbs(r.value))
            && (IsAbs(path) ==> r == Success(path))
            && (r.Success? && !IsAbs(path) ==>
                  Clean(r.value) == r.value && Names(r.value) == Walk(Names(home), Split(Relative(path))))
  {
    JoinAbs(home, Relative(path));
  }

  /** A tilde and what follows it, before a separator or alone, means the home directory and a path in it. */
  lemma TildeJoins(rest: string, home: string, cwd: Option<string>)
    requires IsAbs(home) && (rest == "" || rest[0] == '/' || rest[0] == '\\')
    ensures ExpandAndResolve("~" + rest, home, cwd) == Success(Clean(home + "/" + rest))
  {
    assert ("~" + rest)[1..] == rest;
    JoinAbs(home, rest);
  }

  /** A path that neither starts at the root nor with a tilde lies in the home directory. */
  lemma PlainJoins(path: string, home: string, cwd: Option<string>)
    requires IsAbs(home) && (path == "" || (path[0] != '/' && path[0] != '~'))
    ensures ExpandAndResolve(path, home, cwd) == Success(Clean(home + "/" + path))
  {
    JoinAbs(home, path);
    JoinCleanTwice(home, path);
  }

  lemma JoinCleanTwice(home: string, path: string)
    requires IsAbs(home)
    ensures Clean(Clean(home + "/" + path)) == Clean(home + "/" + path)
  {
    CleanIdempotent(home + "/" + path);
  }

  /** In text: a tilde alone or before a separator stands for the home directory, before anything else the path is
      refused; absolute paths stay, and all others lie in the home directory. */
  lemma TildeMeansHome(rest: string, c: char, home: string, cwd: Option<string>)
    requires IsAbs(home)
    ensures ExpandAndResolve("~", home, cwd) == Success(Clean(home)) == ExpandAndResolve("", home, cwd)
    ensures c == '/' || c == '\\' ==> ExpandAndResolve("~" + ([c] + rest), home, cwd) == Success(Clean(home + "/" + ([c] + rest)))
    ensures c != '/' && c != '\\' ==> ExpandAndResolve("~" + ([c] + rest), home, cwd) == Failure(UserSpecificHome)
    ensures c != '~' && c != '/' ==> ExpandAndResolve([c] + rest, home, cwd) == Success(Clean(home + "/" + ([c] + rest)))
    ensures ExpandAndResolve("/" + rest, home, cwd) == Success("/" + rest)
  {
    CleanTrailing(home);
    assert "~" + "" == "~" && home + "/" + "" == home + "/";
    TildeJoins("", home, cwd);
    PlainJoins("", home, cwd);
    if c == '/' || c == '\\' {
      TildeJoins([c] + rest, home, cwd);
    }
    if c != '~' && c != '/' {
      PlainJoins([c] + rest, home, cwd);
    }
  }

  /** A final slash does not matter once cleaned. */
  lemma CleanTrailing(home: string)
    requires IsAbs(home)
    ensures Clean(home + "/") == Clean(home)
  {
    SplitPush(home, '/', '/');
    assert home + "/" == home + ['/'];
    FoldPush(Split(home), "", true);
  }

  /** Over any home directory: which paths are refused, and every accepted one resolves to an absolute path. */
  lemma ResolvesExactly(path: string, home: string, cwd: Option<string>)
    requires cwd.Some? ==> IsAbs(cwd.value)
    ensures var r := ExpandAndResolve(path, home, cwd);
            && (r.Success? ==> IsAbs(r.value))
            && (r == Failure(UserSpecificHome) <==> |path| > 1 && path[0] == '~' && path[1] != '/' && path[1] != '\\')
            && (r == Failure(NoWorkingDirectory) <==>
                  && cwd.None? && !OtherHome(path) && !IsAbs(path) && !IsAbs(home)
                  && !(home == "" && |path| > 1 && path[..2] == "~/"))
  {
    if IsAbs(home) {
      ResolvesFromHome(path, home, cwd);
    } else if !IsAbs(path) && !OtherHome(path) {
      var p := Expand(path, home).value;
      JoinRelative(home, Relative(path));
      JoinRelative(home, p);
      if cwd.Some? {
        JoinAbs(cwd.value, Join(home, p));
      }
    }
  }
}
