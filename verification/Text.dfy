/** Cutting a path at its separators and joining the pieces again. */
module Text {

  /** '/' separates everywhere; a Windows path is also cut at '\'. */
  predicate IsSeparator(c: char, windows: bool) {
    c == '/' || (windows && c == '\\')
  }

  predicate Unbroken(s: string, windows: bool) {
    forall i | 0 <= i < |s| :: !IsSeparator(s[i], windows)
  }

  /** The position of the first separator, or |s| when there is none. */
  function FirstSeparator(s: string, windows: bool): (i: nat)
    ensures i <= |s| && Unbroken(s[..i], windows)
    ensures i < |s| ==> IsSeparator(s[i], windows)
  {
    if s == [] || IsSeparator(s[0], windows) then 0 else
    var i := 1 + FirstSeparator(s[1..], windows);
    assert forall k | 0 < k < i :: s[..i][k] == s[1..][..i - 1][k - 1];
    i
  }

  /** The pieces between separators; n separators make n + 1 pieces, some perhaps empty. */
  function Split(s: string, windows: bool): (pieces: seq<string>)
    ensures pieces != []
  {
    var i := FirstSeparator(s, windows);
    if i == |s| then [s] else [s[..i]] + Split(s[i + 1..], windows)
  }

  lemma {:induction false} PiecesUnbroken(s: string, windows: bool)
    ensures forall i | 0 <= i < |Split(s, windows)| :: Unbroken(Split(s, windows)[i], windows)
    decreases |s|
  {
    var i := FirstSeparator(s, windows);
    if i == |s| {
      assert s[..i] == s;
    } else {
      PiecesUnbroken(s[i + 1..], windows);
    }
  }

  function Join(pieces: seq<string>, separator: char): string {
    if pieces == [] then ""
    else if |pieces| == 1 then pieces[0]
    else pieces[0] + [separator] + Join(pieces[1..], separator)
  }

  lemma {:induction false} JoinSnoc(pieces: seq<string>, last: string, separator: char)
    requires pieces != []
    ensures Join(pieces + [last], separator) == Join(pieces, separator) + [separator] + last
  {
    if |pieces| == 1 {
      assert (pieces + [last])[1..] == [last];
    } else {
      JoinSnoc(pieces[1..], last, separator);
      assert (pieces + [last])[1..] == pieces[1..] + [last];
    }
  }

  /** The pieces one behind the other, without separators. */
  function Concat(pieces: seq<string>): string {
    if pieces == [] then "" else pieces[0] + Concat(pieces[1..])
  }

  lemma {:induction false} ConcatSnoc(pieces: seq<string>, last: string)
    ensures Concat(pieces + [last]) == Concat(pieces) + last
  {
    if pieces == [] {
      assert pieces + [last] == [last];
      assert [last][1..] == [];
    } else {
      ConcatSnoc(pieces[1..], last);
      assert (pieces + [last])[1..] == pieces[1..] + [last];
    }
  }

  lemma {:induction false} FirstSeparatorAfter(s: string, rest: string, windows: bool)
    requires Unbroken(s, windows)
    requires rest != "" ==> IsSeparator(rest[0], windows)
    ensures FirstSeparator(s + rest, windows) == |s|
  {
    if s == "" {
      assert s + rest == rest;
    } else {
      assert (s + rest)[1..] == s[1..] + rest;
      FirstSeparatorAfter(s[1..], rest, windows);
    }
  }

  /** A piece without separators followed by a separator is cut off first. */
  lemma SplitFirst(s: string, separator: char, rest: string, windows: bool)
    requires Unbroken(s, windows) && IsSeparator(separator, windows)
    ensures Split(s + [separator] + rest, windows) == [s] + Split(rest, windows)
  {
    var t := s + [separator] + rest;
    assert t == s + ([separator] + rest);
    FirstSeparatorAfter(s, [separator] + rest, windows);
    assert t[..|s|] == s && t[|s| + 1..] == rest;
  }

  lemma SplitUnbroken(s: string, windows: bool)
    requires Unbroken(s, windows)
    ensures Split(s, windows) == [s]
  {
  }

  /** Splitting undoes joining. */
  lemma {:induction false} SplitJoin(pieces: seq<string>, separator: char, windows: bool)
    requires pieces != [] && IsSeparator(separator, windows)
    requires forall i | 0 <= i < |pieces| :: Unbroken(pieces[i], windows)
    ensures Split(Join(pieces, separator), windows) == pieces
  {
    if |pieces| == 1 {
      SplitUnbroken(pieces[0], windows);
    } else {
      SplitJoin(pieces[1..], separator, windows);
      SplitFirst(pieces[0], separator, Join(pieces[1..], separator), windows);
    }
  }

  /** Text glued behind a first piece and its separator does not disturb that piece. */
  lemma SplitFirstGlued(s: string, i: nat, rest: string, windows: bool)
    requires i < |s| && Unbroken(s[..i], windows) && IsSeparator(s[i], windows)
    ensures Split(s + rest, windows) == [s[..i]] + Split(s[i + 1..] + rest, windows)
  {
    assert s + rest == s[..i] + [s[i]] + (s[i + 1..] + rest);
    SplitFirst(s[..i], s[i], s[i + 1..] + rest, windows);
  }

  lemma SplitBehindFirst(a: string, i: nat, separator: char, b: string, windows: bool)
    requires i < |a| && Unbroken(a[..i], windows) && IsSeparator(a[i], windows)
    ensures Split(a + [separator] + b, windows) == [a[..i]] + Split(a[i + 1..] + [separator] + b, windows)
  {
    var rest := [separator] + b;
    assert a + [separator] + b == a + rest;
    assert a[i + 1..] + [separator] + b == a[i + 1..] + rest;
    SplitFirstGlued(a, i, rest, windows);
  }

  /** A separator written between two texts cuts exactly there. */
  lemma {:induction false} SplitConcat(a: string, separator: char, b: string, windows: bool)
    requires IsSeparator(separator, windows)
    ensures Split(a + [separator] + b, windows) == Split(a, windows) + Split(b, windows)
    decreases |a|
  {
    var i := FirstSeparator(a, windows);
    if i == |a| {
      assert a[..i] == a;
      SplitFirst(a, separator, b, windows);
    } else {
      SplitBehindFirst(a, i, separator, b, windows);
      SplitConcat(a[i + 1..], separator, b, windows);
      FirstOfThree(a[..i], Split(a[i + 1..], windows), Split(b, windows));
    }
  }

  lemma FirstOfThree(first: string, middle: seq<string>, last: seq<string>)
    ensures [first] + (middle + last) == [first] + middle + last
  {
  }

  // ---------------------------------------------------------------- in plain characters

  /** A Unix path is cut at '/' and nowhere else, a Windows path at '/' and at '\'. */
  lemma CutAtSlashesOnly(s: string)
    ensures '/' !in s <==> Split(s, false) == [s]
    ensures '/' !in s && '\\' !in s <==> Split(s, true) == [s]
  {
    OnePieceIff(s, false);
    OnePieceIff(s, true);
  }

  lemma OnePieceIff(s: string, windows: bool)
    ensures Unbroken(s, windows) <==> Split(s, windows) == [s]
  {
    if Unbroken(s, windows) {
      SplitUnbroken(s, windows);
    } else {
      assert s[..|s|] == s;
      assert FirstSeparator(s, windows) < |s|;
    }
  }

  /** The pieces of a Unix path hold no '/', and with '/' between them they are the path again; by SplitJoin no
      other list of such pieces is. */
  lemma {:induction false} JoinSplit(s: string)
    ensures Join(Split(s, false), '/') == s
    ensures forall i | 0 <= i < |Split(s, false)| :: '/' !in Split(s, false)[i]
    decreases |s|
  {
    var i := FirstSeparator(s, false);
    if i == |s| {
      assert s[..i] == s;
    } else {
      JoinSplit(s[i + 1..]);
      JoinCons(s[..i], Split(s[i + 1..], false), '/');
      CutText(s, i);
    }
  }

  lemma JoinCons(first: string, rest: seq<string>, separator: char)
    requires rest != []
    ensures Join([first] + rest, separator) == first + [separator] + Join(rest, separator)
  {
    assert ([first] + rest)[1..] == rest;
  }

  lemma CutText(s: string, i: nat)
    requires i < |s|
    ensures s == s[..i] + [s[i]] + s[i + 1..]
  {
  }

  /** Joined pieces hold no separator but the one they were joined with. */
  lemma {:induction false} JoinedSeparators(pieces: seq<string>, separator: char, windows: bool)
    requires forall i | 0 <= i < |pieces| :: Unbroken(pieces[i], windows)
    ensures forall k | 0 <= k < |Join(pieces, separator)| && IsSeparator(Join(pieces, separator)[k], windows) ::
              Join(pieces, separator)[k] == separator
  {
    if |pieces| > 1 {
      JoinedSeparators(pieces[1..], separator, windows);
      var first, rest := pieces[0] + [separator], Join(pieces[1..], separator);
      assert Join(pieces, separator) == first + rest;
    }
  }
}
