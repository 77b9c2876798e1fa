// Stock datatypes and sequence facts shared by the other modules.
module Prelude {

  datatype Option<+T> = None | Some(value: T)

  datatype Result<+T, +E> = Success(value: T) | Failure(error: E)

  function OrElse<T>(first: Option<T>, second: Option<T>): Option<T> {
    if first.Some? then first else second
  }

  function Reverse<T>(s: seq<T>): seq<T> {
    if s == [] then [] else Reverse(s[1..]) + [s[0]]
  }

  lemma {:induction false} ReverseMultiset<T>(s: seq<T>)
    ensures multiset(Reverse(s)) == multiset(s)
  {
    if s != [] {
      ReverseMultiset(s[1..]);
      assert s == [s[0]] + s[1..];
    }
  }

  lemma {:induction false} ReverseConcat<T>(a: seq<T>, b: seq<T>)
    ensures Reverse(a + b) == Reverse(b) + Reverse(a)
  {
    if a == [] {
      assert a + b == b;
    } else {
      assert (a + b)[1..] == a[1..] + b;
      ReverseConcat(a[1..], b);
    }
  }

  /** One more element in front of a slice comes last in its reversal. */
  lemma ReverseSlice<T>(s: seq<T>, i: nat, j: nat)
    requires i < j <= |s|
    ensures Reverse(s[i..j]) == Reverse(s[i + 1..j]) + [s[i]]
  {
    assert s[i..j][1..] == s[i + 1..j];
  }

  /** The pieces between separators; there is always at least one. */
  function SplitOn(s: string, sep: char): (r: seq<string>)
    ensures |r| > 0
  {
    if s == "" then [""]
    else SplitOne(SplitOn(s[..|s| - 1], sep), s[|s| - 1], sep)
  }

  /** One more character: a separator opens a new piece, any other extends the last one. */
  function SplitOne(pieces: seq<string>, c: char, sep: char): (r: seq<string>)
    requires |pieces| > 0
    ensures |r| > 0
  {
    if c == sep then pieces + [""] else pieces[..|pieces| - 1] + [pieces[|pieces| - 1] + [c]]
  }

  lemma {:induction false} SplitPush(s: string, c: char, sep: char)
    ensures SplitOn(s + [c], sep) == SplitOne(SplitOn(s, sep), c, sep)
  {
    assert (s + [c])[..|s|] == s;
  }

  /** The last piece, longer by some text. */
  function Extended(pieces: seq<string>, n: string): seq<string>
    requires |pieces| > 0
  {
    pieces[..|pieces| - 1] + [pieces[|pieces| - 1] + n]
  }

  lemma ExtendedPush(pieces: seq<string>, front: string, c: char, sep: char)
    requires |pieces| > 0 && c != sep
    ensures SplitOne(Extended(pieces, front), c, sep) == Extended(pieces, front + [c])
  {
    var last := pieces[|pieces| - 1];
    assert (last + front) + [c] == last + (front + [c]);
    assert Extended(pieces, front)[..|pieces| - 1] == pieces[..|pieces| - 1];
  }

  /** Text without a separator extends the last piece. */
  lemma {:induction false} SplitName(s: string, n: string, sep: char)
    requires sep !in n
    ensures SplitOn(s + n, sep) == Extended(SplitOn(s, sep), n)
  {
    var r := SplitOn(s, sep);
    if n == "" {
      assert s + n == s && r[|r| - 1] + n == r[|r| - 1];
    } else {
      var front, c := n[..|n| - 1], n[|n| - 1];
      SplitName(s, front, sep);
      assert s + n == s + front + [c] && n == front + [c];
      SplitPush(s + front, c, sep);
      ExtendedPush(r, front, c, sep);
    }
  }

  lemma SplitOneConcat(r: seq<string>, s: seq<string>, c: char, sep: char)
    requires |s| > 0
    ensures SplitOne(r + s, c, sep) == r + SplitOne(s, c, sep)
  {
    if c != sep {
      assert (r + s)[..|r + s| - 1] == r + s[..|s| - 1];
    }
  }

  lemma {:induction false} SplitAfter(s: string, r: seq<string>, t: string, sep: char)
    requires SplitOn(s, sep) == r + [""]
    ensures SplitOn(s + t, sep) == r + SplitOn(t, sep)
  {
    if t == "" {
      assert s + t == s && SplitOn("", sep) == [""];
    } else {
      var front, c := t[..|t| - 1], t[|t| - 1];
      SplitAfter(s, r, front, sep);
      assert (s + t)[..|s + t| - 1] == s + front;
      SplitOneConcat(r, SplitOn(front, sep), c, sep);
    }
  }

  /** Splitting two texts joined by a separator splits each. */
  lemma SplitConcat(a: string, b: string, sep: char)
    ensures SplitOn(a + [sep] + b, sep) == SplitOn(a, sep) + SplitOn(b, sep)
  {
    SplitPush(a, sep, sep);
    SplitAfter(a + [sep], SplitOn(a, sep), b, sep);
  }

  lemma {:induction false} SplitNoSeparator(s: string, sep: char)
    ensures forall i :: 0 <= i < |SplitOn(s, sep)| ==> sep !in SplitOn(s, sep)[i]
  {
    if s != "" {
      SplitNoSeparator(s[..|s| - 1], sep);
    }
  }

  lemma SplitPlain(s: string, sep: char)
    requires sep !in s
    ensures SplitOn(s, sep) == [s]
  {
    SplitName("", s, sep);
    assert SplitOn("", sep) == [""] && "" + s == s;
  }

  /** The pieces with a separator between any two. */
  function Joined(pieces: seq<string>, sep: char): string
    requires |pieces| > 0
  {
    if |pieces| == 1 then pieces[0] else Joined(pieces[..|pieces| - 1], sep) + [sep] + pieces[|pieces| - 1]
  }

  lemma JoinedPush(pieces: seq<string>, last: string, sep: char)
    requires |pieces| > 0
    ensures Joined(pieces + [last], sep) == Joined(pieces, sep) + [sep] + last
  {
    assert (pieces + [last])[..|pieces|] == pieces;
  }

  lemma JoinedExtended(pieces: seq<string>, n: string, sep: char)
    requires |pieces| > 0
    ensures Joined(Extended(pieces, n), sep) == Joined(pieces, sep) + n
  {
    var front, last := pieces[..|pieces| - 1], pieces[|pieces| - 1];
    if front == [] {
      assert Extended(pieces, n) == [last + n];
    } else {
      JoinedPush(front, last + n, sep);
      assert Joined(front, sep) + [sep] + (last + n) == Joined(front, sep) + [sep] + last + n;
    }
  }

  /** Splitting loses nothing. */
  lemma {:induction false} SplitJoins(s: string, sep: char)
    ensures Joined(SplitOn(s, sep), sep) == s
  {
    if s != "" {
      var front, c := s[..|s| - 1], s[|s| - 1];
      SplitJoins(front, sep);
      if c == sep {
        JoinedPush(SplitOn(front, sep), "", sep);
      } else {
        JoinedExtended(SplitOn(front, sep), [c], sep);
      }
    }
  }

  /** The kept elements are those at the given positions, in order. */
  ghost predicate ReadsOff<T>(kept: seq<T>, all: seq<T>, at: seq<nat>) {
    && |kept| == |at|
    && (forall k :: 0 <= k < |at| ==> at[k] < |all| && kept[k] == all[at[k]])
    && (forall j, k :: 0 <= j < k < |at| ==> at[j] < at[k])
  }

  /** One more element, kept or not. */
  lemma ReadsOffPush<T>(kept: seq<T>, all: seq<T>, at: seq<nat>, x: T)
    requires ReadsOff(kept, all, at)
    ensures ReadsOff(kept, all + [x], at) && ReadsOff(kept + [x], all + [x], at + [|all|])
  {
  }

  ghost predicate NoDuplicates<T>(s: seq<T>) {
    forall i, j :: 0 <= i < j < |s| ==> s[i] != s[j]
  }
}
