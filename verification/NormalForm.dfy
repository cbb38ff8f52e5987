/** Cleaned paths are fixed points of the cleaner. */
module NormalForm {
  import opened Text
  import opened Paths

  /** Names; in a relative path any number of ".." may come before them. */
  predicate Normal(rooted: bool, components: seq<string>, windows: bool) {
    forall i | 0 <= i < |components| ::
      || IsName(components[i], windows)
      || (!rooted && components[i] == ".." && (i > 0 ==> components[i - 1] == ".."))
  }

  lemma {:induction false} ReduceNormal(rooted: bool, stack: seq<string>, pieces: seq<string>, windows: bool)
    requires Normal(rooted, stack, windows)
    requires forall i | 0 <= i < |pieces| :: Unbroken(pieces[i], windows)
    ensures Normal(rooted, Reduce(rooted, stack, pieces), windows)
    decreases |pieces|
  {
    if pieces != [] {
      ReduceNormal(rooted, Push(rooted, stack, pieces[0]), pieces[1..], windows);
    }
  }

  lemma ComponentsNormal(path: string, windows: bool)
    ensures Normal(Root(path, windows) != "", Components(path, windows), windows)
  {
    var root := Root(path, windows);
    PiecesUnbroken(path[|root|..], windows);
    ReduceNormal(root != "", [], Split(path[|root|..], windows), windows);
  }

  lemma {:induction false} ReduceConcat(rooted: bool, stack: seq<string>, a: seq<string>, b: seq<string>)
    ensures Reduce(rooted, stack, a + b) == Reduce(rooted, Reduce(rooted, stack, a), b)
    decreases |a|
  {
    if a == [] {
      assert a + b == b;
    } else {
      assert a + b == [a[0]] + (a[1..] + b);
      ReduceCons(rooted, stack, a[0], a[1..] + b);
      ReduceConcat(rooted, Push(rooted, stack, a[0]), a[1..], b);
    }
  }

  /** Pushing normal components only ever appends them. */
  lemma {:induction false} ReduceAppends(rooted: bool, stack: seq<string>, more: seq<string>, windows: bool)
    requires Normal(rooted, stack + more, windows)
    ensures Reduce(rooted, stack, more) == stack + more
    decreases |more|
  {
    if more == [] {
      assert stack + more == stack;
    } else {
      var c := more[0];
      assert c == (stack + more)[|stack|];
      assert stack != [] ==> stack[|stack| - 1] == (stack + more)[|stack| - 1];
      assert Push(rooted, stack, c) == stack + [c];
      assert stack + [c] + more[1..] == stack + more;
      ReduceAppends(rooted, stack + [c], more[1..], windows);
    }
  }

  lemma UnbrokenAll(rooted: bool, components: seq<string>, windows: bool)
    requires Normal(rooted, components, windows)
    ensures forall i | 0 <= i < |components| :: Unbroken(components[i], windows)
  {
  }

  /** Reading back joined normal components yields them unchanged. */
  lemma ReduceJoined(rooted: bool, components: seq<string>, windows: bool, separator: char)
    requires Normal(rooted, components, windows) && IsSeparator(separator, windows)
    ensures Reduce(rooted, [], Split(Join(components, separator), windows)) == components
  {
    if components == [] {
      ReduceNothing(rooted, [], windows);
    } else {
      UnbrokenAll(rooted, components, windows);
      SplitJoin(components, separator, windows);
      assert [] + components == components;
      ReduceAppends(rooted, [], components, windows);
    }
  }

  /** A separator in front of the joined components makes no difference. */
  lemma ReduceJoinedBehindSeparator(rooted: bool, components: seq<string>, windows: bool, separator: char)
    requires Normal(rooted, components, windows) && IsSeparator(separator, windows)
    ensures Reduce(rooted, [], Split([separator] + Join(components, separator), windows)) == components
  {
    var text := Join(components, separator);
    SplitFirst("", separator, text, windows);
    assert "" + [separator] + text == [separator] + text;
    ReduceCons(rooted, [], "", Split(text, windows));
    ReduceJoined(rooted, components, windows, separator);
  }

  lemma ReduceDot(windows: bool)
    ensures Reduce(false, [], Split(".", windows)) == []
  {
  }

  /** A cleaned path that still shows the same root shows the same components. */
  lemma SameRootSameComponents(path: string, windows: bool, separator: char)
    requires IsSeparator(separator, windows)
    requires Root(Clean(path, windows, separator), windows) == Root(path, windows)
    ensures Components(Clean(path, windows, separator), windows) == Components(path, windows)
  {
    var root, components := Root(path, windows), Components(path, windows);
    var rest := Clean(path, windows, separator)[|root|..];
    ComponentsNormal(path, windows);
    if root == "" && components == [] {
      assert rest == ".";
      ReduceDot(windows);
    } else if windows && root != "" {
      assert rest == [separator] + Join(components, separator);
      ReduceJoinedBehindSeparator(true, components, windows, separator);
    } else {
      assert rest == Join(components, separator);
      ReduceJoined(root != "", components, windows, separator);
    }
  }

  lemma StableWhenRootKept(path: string, windows: bool, separator: char)
    requires IsSeparator(separator, windows)
    requires Root(Clean(path, windows, separator), windows) == Root(path, windows)
    ensures Clean(Clean(path, windows, separator), windows, separator) == Clean(path, windows, separator)
  {
    SameRootSameComponents(path, windows, separator);
  }

  // ---------------------------------------------------------------- which root a cleaned path shows

  lemma JoinStart(components: seq<string>, windows: bool, separator: char)
    requires components != [] && components[0] != ""
    ensures Join(components, separator) != "" && Join(components, separator)[0] == components[0][0]
  {
  }

  lemma UnixRootKept(path: string)
    ensures Root(Clean(path, false, '/'), false) == Root(path, false)
  {
    var components := Components(path, false);
    ComponentsNormal(path, false);
    if Root(path, false) == "" && components != [] {
      assert Unbroken(components[0], false) && components[0] != "";
      JoinStart(components, false, '/');
    }
  }

  /** Cleaning a Unix path twice is cleaning it once. */
  lemma UnixIdempotent(path: string)
    ensures Clean(Clean(path, false, '/'), false, '/') == Clean(path, false, '/')
  {
    UnixRootKept(path);
    StableWhenRootKept(path, false, '/');
  }

  lemma DriveKept(root: string, rest: string)
    requires |root| == 2 && HasDrive(root)
    ensures Root(root + rest, true) == root
  {
    assert (root + rest)[..2] == root;
  }

  lemma HostKept(root: string, rest: string)
    requires HasHost(root) && !HasDrive(root) && Unbroken(root[2..], true)
    requires rest != "" && IsSeparator(rest[0], true)
    ensures Root(root + rest, true) == root
  {
    assert (root + rest)[2..] == root[2..] + rest;
    FirstSeparatorAfter(root[2..], rest, true);
    assert (root + rest)[..|root|] == root;
  }

  lemma WindowsRootKept(path: string, separator: char)
    requires IsSeparator(separator, true) && Root(path, true) != ""
    ensures Root(Clean(path, true, separator), true) == Root(path, true)
  {
    var root, rest := Root(path, true), [separator] + Join(Components(path, true), separator);
    assert Clean(path, true, separator) == root + rest by {
      assert root + [separator] + Join(Components(path, true), separator) == root + rest;
    }
    RootIs(path);
    if HasDrive(path) {
      DriveKept(root, rest);
    } else {
      HostIs(path, root);
      HostKept(root, rest);
    }
  }

  lemma HostIs(path: string, root: string)
    requires HasHost(path) && !HasDrive(path) && root <= path && |root| > 2 && Unbroken(path[2..|root|], true)
    ensures HasHost(root) && !HasDrive(root) && Unbroken(root[2..], true)
  {
    assert root == path[..|root|];
    assert root[2..] == path[2..|root|];
  }

  /** A cleaned relative Windows path can only be mistaken for one with a drive. */
  lemma WindowsRelativeStart(path: string, separator: char)
    requires IsSeparator(separator, true) && Root(path, true) == ""
    ensures !HasHost(Clean(path, true, separator))
  {
    var components := Components(path, true);
    ComponentsNormal(path, true);
    if components != [] {
      assert Unbroken(components[0], true) && components[0] != "";
      JoinStart(components, true, separator);
    }
  }

  /** The second cleaning inserts a separator after a drive letter and colon unless one is already there. */
  lemma DriveAlwaysFollowedBySeparator(path: string, separator: char)
    requires HasDrive(path)
    ensures |Clean(path, true, separator)| > 2 && Clean(path, true, separator)[2] == separator
  {
  }

  lemma JoinedDriveAlone(components: seq<string>, separator: char)
    requires Normal(false, components, true) && IsSeparator(separator, true) && components != []
    requires |Join(components, separator)| > 2 && HasDrive(Join(components, separator))
    requires Join(components, separator)[2] == separator
    ensures |components| > 1 && |components[0]| == 2
    ensures Normal(true, components[1..], true)
    ensures Join(components, separator)[2..] == [separator] + Join(components[1..], separator)
  {
    var text, c := Join(components, separator), components[0];
    assert IsName(c, true) by {
      assert text[0] == c[0];
    }
    assert text[..|c|] == c;
    assert Unbroken(c, true) && |c| <= 2 && |components| > 1;
    assert text == c + [separator] + Join(components[1..], separator);
    assert |c| == 2;
    NamesUpTo(components, |components|);
  }

  lemma {:induction false} NamesUpTo(components: seq<string>, k: nat)
    requires Normal(false, components, true) && 0 < k <= |components| && IsName(components[0], true)
    ensures forall i | 0 <= i < k :: IsName(components[i], true)
  {
    if k > 1 {
      NamesUpTo(components, k - 1);
      assert IsName(components[k - 2], true);
      assert k - 1 > 0;
    }
  }

  lemma DriveThenSeparatorStable(path: string, separator: char)
    requires IsSeparator(separator, true) && Root(path, true) == ""
    requires var cleaned := Clean(path, true, separator);
             HasDrive(cleaned) && |cleaned| > 2 && cleaned[2] == separator
    ensures Clean(Clean(path, true, separator), true, separator) == Clean(path, true, separator)
  {
    var cleaned, components := Clean(path, true, separator), Components(path, true);
    ComponentsNormal(path, true);
    JoinedDriveAlone(components, separator);
    ReduceJoinedBehindSeparator(true, components[1..], true, separator);
    var root := Root(cleaned, true);
    assert cleaned == Join(components, separator) == root + cleaned[2..];
    assert cleaned[|root|..] == [separator] + Join(components[1..], separator);
    assert Components(cleaned, true) == components[1..];
  }

  /** Exactly when cleaning a Windows path twice is cleaning it once: a relative path whose first
      surviving component looks like a drive letter and colon, without a separator behind it, gains one. */
  lemma WindowsIdempotentIff(path: string, separator: char)
    requires IsSeparator(separator, true)
    ensures var cleaned := Clean(path, true, separator);
            Clean(cleaned, true, separator) == cleaned <==>
            || Root(path, true) != ""
            || !HasDrive(cleaned)
            || (|cleaned| > 2 && cleaned[2] == separator)
  {
    var cleaned := Clean(path, true, separator);
    if Root(path, true) != "" {
      WindowsRootKept(path, separator);
      StableWhenRootKept(path, true, separator);
    } else if !HasDrive(cleaned) {
      WindowsRelativeStart(path, separator);
      StableWhenRootKept(path, true, separator);
    } else {
      DriveAlwaysFollowedBySeparator(cleaned, separator);
      if |cleaned| > 2 && cleaned[2] == separator {
        DriveThenSeparatorStable(path, separator);
      }
    }
  }

  /** When a joined relative path looks like a drive letter and colon without a separator behind it. */
  lemma JoinedDriveIff(components: seq<string>, separator: char)
    requires Normal(false, components, true) && IsSeparator(separator, true) && components != []
    ensures var text, c := Join(components, separator), components[0];
            (HasDrive(text) && !(|text| > 2 && text[2] == separator)) <==>
            (HasDrive(c) && !(|c| == 2 && |components| > 1))
  {
    var c := components[0];
    assert Unbroken(c, true) && c != "";
    if |components| > 1 {
      var text, rest := Join(components, separator), Join(components[1..], separator);
      assert text == c + [separator] + rest;
      assert |c| == 1 ==> text[1] == separator;
      assert |c| == 2 ==> text[2] == separator;
    }
  }

  /** The same by what the cleaner keeps: cleaning twice differs from cleaning once exactly for a relative path whose
      first surviving component begins with a letter and a colon, unless these are all of it and another follows. */
  lemma WindowsIdempotentByComponents(path: string, separator: char)
    requires IsSeparator(separator, true)
    ensures var components := Components(path, true);
            Clean(Clean(path, true, separator), true, separator) != Clean(path, true, separator) <==>
            && Root(path, true) == "" && components != [] && HasDrive(components[0])
            && !(|components[0]| == 2 && |components| > 1)
  {
    WindowsIdempotentIff(path, separator);
    if Root(path, true) == "" && Components(path, true) != [] {
      ComponentsNormal(path, true);
      JoinedDriveIff(Components(path, true), separator);
      assert Clean(path, true, separator) == Join(Components(path, true), separator);
    }
  }

  lemma DotDriveSplit()
    ensures Split(".\\C:", true) == [".", "C:"]
  {
    SplitUnbroken("C:", true);
    assert ".\\C:" == "." + ['\\'] + "C:";
    SplitFirst(".", '\\', "C:", true);
  }

  lemma DotDriveReduced()
    ensures Reduce(false, [], [".", "C:"]) == ["C:"]
  {
    ReduceCons(false, [], ".", ["C:"]);
    ReduceOne(false, [], "C:");
    assert [".", "C:"] == ["."] + ["C:"];
  }

  lemma DotDriveCleaned()
    ensures Clean(".\\C:", true, '\\') == "C:"
  {
    DotDriveSplit();
    DotDriveReduced();
    assert Root(".\\C:", true) == "" && ".\\C:"[0..] == ".\\C:";
  }

  lemma DriveCleaned()
    ensures Clean("C:", true, '\\') == "C:\\"
  {
    assert Root("C:", true) == "C:";
    ReduceNothing(true, [], true);
  }

  /** A relative path for which cleaning twice differs from cleaning once: ".\C:" becomes "C:" and then "C:\". */
  lemma WindowsNotIdempotent()
    ensures Clean(".\\C:", true, '\\') == "C:" && Clean("C:", true, '\\') == "C:\\"
  {
    DotDriveCleaned();
    DriveCleaned();
  }

  // ---------------------------------------------------------------- in plain characters

  /** A plain name is its own cleaned form; on Unix a backslash is part of the name. */
  lemma PlainNameIsClean(s: string)
    requires s !in {"", ".", ".."}
    ensures '/' !in s ==> Clean(s, false, '/') == s
    ensures Clean("a\\b", false, '/') == "a\\b"
  {
    if '/' !in s {
      NameIsClean(s);
    }
    NameIsClean("a\\b");
  }

  lemma NameIsClean(s: string)
    requires s !in {"", ".", ".."} && '/' !in s
    ensures Clean(s, false, '/') == s
  {
    CutAtSlashesOnly(s);
    ReduceOne(false, [], s);
    assert s[0..] == s && [] + [s] == [s];
  }

  /** Behind its root a cleaned path holds no separator but the one asked for. */
  lemma OneKindOfSeparator(path: string, separator: char)
    requires separator in {'/', '\\'}
    ensures var cleaned, n := Clean(path, true, separator), |Root(path, true)|;
            n <= |cleaned| && forall k | n <= k < |cleaned| && cleaned[k] in {'/', '\\'} :: cleaned[k] == separator
  {
    var root, components := Root(path, true), Components(path, true);
    ComponentsNormal(path, true);
    UnbrokenAll(root != "", components, true);
    JoinedSeparators(components, separator, true);
    if root != "" {
      assert Clean(path, true, separator) == root + ([separator] + Join(components, separator));
    }
  }
}
