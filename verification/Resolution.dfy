/** Resolving client paths: against the working directory, and below the user's local root. */
module Resolution {
  import opened Text
  import opened Paths
  import opened NormalForm
  import opened Meaning

  /** A client path made absolute within the FTP tree. */
  function AbsoluteFtpPath(cwd: string, path: string): string {
    UnixClean(if IsAbsolute(path) then path else cwd + "/" + path)
  }

  /** The path handed to the operating system. */
  function LocalPath(root: string, cwd: string, path: string): string {
    UnixClean(root + "/" + AbsoluteFtpPath(cwd, path))
  }

  /** Where a user's local root lies when the process stands in here. An empty root text resolves to "/". */
  function RootPlace(root: string, here: Place): Place {
    Destination(if root == "" then "/" else root, here)
  }

  /** A possible value of the working directory: absolute and already clean. */
  predicate IsWorkingDirectory(cwd: string) {
    IsAbsolute(cwd) && UnixClean(cwd) == cwd
  }

  // ---------------------------------------------------------------- appending

  lemma DestinationAppend(x: string, y: string, dir: Place)
    requires x != ""
    ensures Destination(x + "/" + y, dir) == Walk(Destination(x, dir), Split(y, false))
  {
    assert x + "/" + y == x + ['/'] + y;
    assert (x + "/" + y)[0] == x[0];
    SplitConcat(x, '/', y, false);
    WalkConcat(Base(x, dir), Split(x, false), Split(y, false));
  }

  lemma CleanNotEmpty(path: string)
    ensures UnixClean(path) != ""
  {
    ComponentsNormal(path, false);
    if Root(path, false) == "" && Parts(path) != [] {
      JoinStart(Parts(path), false, '/');
    }
  }

  /** Cleaning the front part early changes nothing. */
  lemma CleanAppend(x: string, y: string)
    requires x != ""
    ensures UnixClean(UnixClean(x) + "/" + y) == UnixClean(x + "/" + y)
  {
    forall dir | IsDirectory(dir)
      ensures Destination(UnixClean(x) + "/" + y, dir) == Destination(x + "/" + y, dir)
    {
      CleanNotEmpty(x);
      DestinationAppend(UnixClean(x), y, dir);
      DestinationAppend(x, y, dir);
      CleanSound(x, dir);
    }
    CleanComplete(UnixClean(x) + "/" + y, x + "/" + y);
  }

  // ---------------------------------------------------------------- working directories

  lemma PartsAreNames(path: string)
    requires IsAbsolute(path)
    ensures IsDirectory(Parts(path)) && Destination(path, []) == Parts(path)
    ensures forall dir: Place :: Destination(path, dir) == Parts(path)
  {
    ComponentsNormal(path, false);
    WalkNames([], Parts(path));
    assert [] + Parts(path) == Parts(path);
    forall dir: Place ensures Destination(path, dir) == Parts(path) {
      DestinationByParts(path, dir);
    }
    DestinationByParts(path, []);
  }

  /** Whatever the client sends, the resolved path is absolute, clean and free of ".." components. */
  lemma AbsoluteFtpPathIsClean(cwd: string, path: string)
    requires IsAbsolute(cwd)
    ensures IsWorkingDirectory(AbsoluteFtpPath(cwd, path))
    ensures IsDirectory(Parts(AbsoluteFtpPath(cwd, path)))
  {
    var raw := if IsAbsolute(path) then path else cwd + "/" + path;
    assert IsAbsolute(raw);
    CleanKeepsParts(raw);
    UnixIdempotent(raw);
    PartsAreNames(raw);
  }

  /** Only "/" has no components among clean absolute paths. */
  lemma OnlySlashIsEmpty(cwd: string)
    requires IsWorkingDirectory(cwd)
    ensures cwd == "/" <==> Parts(cwd) == []
  {
    assert cwd == Render("/", Parts(cwd), false, '/');
    if Parts(cwd) != [] {
      ComponentsNormal(cwd, false);
      JoinStart(Parts(cwd), false, '/');
    }
  }

  /** ".." drops exactly the last component. */
  lemma ParentDropsLast(cwd: string)
    requires IsWorkingDirectory(cwd) && cwd != "/"
    ensures Parts(cwd) != []
    ensures Parts(AbsoluteFtpPath(cwd, "..")) == Parts(cwd)[..|Parts(cwd)| - 1]
  {
    OnlySlashIsEmpty(cwd);
    var raw := cwd + "/" + "..";
    CleanKeepsParts(raw);
    PartsAreNames(raw);
    PartsAreNames(cwd);
    DestinationAppend(cwd, "..", []);
    SplitUnbroken("..", false);
    WalkSnoc(Parts(cwd), [], "..");
    assert [] + [".."] == [".."];
  }

  // ---------------------------------------------------------------- confinement

  lemma SplitAbsolute(absolute: string)
    requires IsWorkingDirectory(absolute)
    ensures Split(absolute, false) == [""] + Split(Join(Parts(absolute), '/'), false)
  {
    var rest := Join(Parts(absolute), '/');
    assert absolute == "" + ['/'] + rest;
    SplitFirst("", '/', rest, false);
  }

  /** Reading a clean absolute path on top of any stack appends its names: nothing in it climbs. */
  lemma ReduceOnto(rooted: bool, stack: seq<string>, absolute: string)
    requires IsWorkingDirectory(absolute) && Normal(rooted, stack, false)
    ensures Reduce(rooted, stack, Split(absolute, false)) == stack + Parts(absolute)
  {
    SplitAbsolute(absolute);
    ComponentsNormal(absolute, false);
    ReduceCons(rooted, stack, "", Split(Join(Parts(absolute), '/'), false));
    ReduceJoinedOnto(rooted, stack, Parts(absolute));
  }

  lemma ReduceJoinedOnto(rooted: bool, stack: seq<string>, names: seq<string>)
    requires Normal(rooted, stack, false) && Normal(true, names, false)
    ensures Reduce(rooted, stack, Split(Join(names, '/'), false)) == stack + names
  {
    if names == [] {
      ReduceNothing(rooted, stack, false);
    } else {
      UnbrokenAll(true, names, false);
      SplitJoin(names, '/', false);
      ReduceAppends(rooted, stack, names, false);
    }
  }

  /** The components below a local root are appended to the components of the root. */
  lemma PartsBelowRoot(root: string, absolute: string)
    requires IsWorkingDirectory(absolute)
    ensures Parts(root + "/" + absolute) == Parts(root) + Parts(absolute)
    ensures IsAbsolute(root + "/" + absolute) == (root == "" || IsAbsolute(root))
  {
    var whole := root + "/" + absolute;
    ComponentsNormal(root, false);
    if root == "" {
      assert Root(whole, false) == "/" && whole[1..] == absolute;
      ReduceNothing(false, [], false);
      ReduceOnto(true, [], absolute);
    } else {
      var n := |Root(root, false)|;
      assert Root(whole, false) == Root(root, false) by {
        assert whole[0] == root[0];
      }
      assert whole[n..] == root[n..] + ['/'] + absolute;
      SplitConcat(root[n..], '/', absolute, false);
      ReduceConcat(n != 0, [], Split(root[n..], false), Split(absolute, false));
      ReduceOnto(n != 0, Parts(root), absolute);
    }
  }

  /** Confinement: the path given to the operating system is the cleaned root followed by the names of the
      resolved client path, none of which is "..", whatever the client sent. */
  lemma Confined(root: string, cwd: string, path: string)
    requires IsAbsolute(cwd)
    ensures var absolute := AbsoluteFtpPath(cwd, path);
            var local := LocalPath(root, cwd, path);
            && IsDirectory(Parts(absolute))
            && Parts(local) == Parts(UnixClean(root)) + Parts(absolute)
            && (IsAbsolute(local) <==> root == "" || IsAbsolute(root))
  {
    var absolute := AbsoluteFtpPath(cwd, path);
    AbsoluteFtpPathIsClean(cwd, path);
    PartsBelowRoot(root, absolute);
    CleanKeepsParts(root + "/" + absolute);
    CleanKeepsParts(root);
  }

  /** Where the operating system ends up: below the place of the root, by exactly those names. */
  lemma ConfinedPlace(root: string, cwd: string, path: string, here: Place)
    requires IsAbsolute(cwd)
    ensures Destination(LocalPath(root, cwd, path), here) ==
            RootPlace(root, here) + Parts(AbsoluteFtpPath(cwd, path))
    ensures RootPlace(root, here) <= Destination(LocalPath(root, cwd, path), here)
  {
    var absolute := AbsoluteFtpPath(cwd, path);
    var shown := if root == "" then "/" else root;
    AbsoluteFtpPathIsClean(cwd, path);
    PartsBelowRoot(root, absolute);
    CleanSound(root + "/" + absolute, here);
    DestinationByParts(root + "/" + absolute, here);
    DestinationByParts(shown, here);
    if root == "" {
      ReduceNothing(true, [], false);
      ReduceNothing(false, [], false);
      assert Parts("/") == [] && Parts("") == [];
    }
    WalkConcat(Base(shown, here), Parts(root), Parts(absolute));
    WalkNames(RootPlace(root, here), Parts(absolute));
  }

  /** The local path is at or below the cleaned root, as a path, exactly when the root text is not empty. */
  lemma BelowRootIff(root: string, cwd: string, path: string)
    requires IsAbsolute(cwd)
    ensures var local, top := LocalPath(root, cwd, path), UnixClean(root);
            root != "" <==> (IsAbsolute(local) == IsAbsolute(top) && Parts(top) <= Parts(local))
  {
    Confined(root, cwd, path);
    CleanKeepsParts(root);
  }

  /** What the resolved path means: where the client's path leads from the working directory. */
  lemma ResolvedIsDestination(cwd: string, path: string)
    requires IsWorkingDirectory(cwd)
    ensures Parts(AbsoluteFtpPath(cwd, path)) == Destination(path, Parts(cwd))
  {
    var raw := if IsAbsolute(path) then path else cwd + "/" + path;
    CleanKeepsParts(raw);
    PartsAreNames(raw);
    if !IsAbsolute(path) {
      PartsAreNames(cwd);
      DestinationAppend(cwd, path, []);
    }
  }

  /** A working directory is told apart by its components. */
  lemma PartsTellDirectory(a: string, b: string)
    requires IsWorkingDirectory(a) && IsWorkingDirectory(b)
    ensures a == b <==> Parts(a) == Parts(b)
  {
    assert a == Render("/", Parts(a), false, '/') && b == Render("/", Parts(b), false, '/');
  }

  // ---------------------------------------------------------------- resolution is an action

  /** Resolving b after changing into a is resolving a + "/" + b before it. */
  lemma ResolutionAction(cwd: string, a: string, b: string)
    requires a != "" && !IsAbsolute(b)
    ensures AbsoluteFtpPath(AbsoluteFtpPath(cwd, a), b) == AbsoluteFtpPath(cwd, a + "/" + b)
  {
    if IsAbsolute(a) {
      assert IsAbsolute(a + "/" + b);
      CleanAppend(a, b);
    } else {
      assert !IsAbsolute(a + "/" + b);
      var front := cwd + "/" + a;
      assert cwd + "/" + (a + "/" + b) == front + "/" + b;
      CleanAppend(front, b);
    }
  }

  /** The working directory after a sequence of successful directory changes. */
  function AfterChanges(cwd: string, changes: seq<string>): string
    decreases |changes|
  {
    if changes == [] then cwd
    else AfterChanges(AbsoluteFtpPath(cwd, changes[0]), changes[1..])
  }

  lemma {:induction false} AfterChangesSnoc(cwd: string, changes: seq<string>, last: string)
    ensures AfterChanges(cwd, changes + [last]) == AbsoluteFtpPath(AfterChanges(cwd, changes), last)
    decreases |changes|
  {
    if changes == [] {
      assert [] + [last] == [last];
      assert [last][1..] == [];
    } else {
      assert (changes + [last])[1..] == changes[1..] + [last];
      AfterChangesSnoc(AbsoluteFtpPath(cwd, changes[0]), changes[1..], last);
    }
  }

  /** The changes and a last path written as one client path. */
  function Chained(changes: seq<string>, path: string): string {
    if changes == [] then path else changes[0] + "/" + Chained(changes[1..], path)
  }

  lemma {:induction false} ResolutionActionChain(cwd: string, changes: seq<string>, path: string)
    requires forall i | 0 <= i < |changes| :: changes[i] != "" && (i > 0 ==> !IsAbsolute(changes[i]))
    requires changes != [] ==> !IsAbsolute(path)
    ensures AbsoluteFtpPath(AfterChanges(cwd, changes), path) == AbsoluteFtpPath(cwd, Chained(changes, path))
    decreases |changes|
  {
    if changes != [] {
      var rest := Chained(changes[1..], path);
      ResolutionActionChain(AbsoluteFtpPath(cwd, changes[0]), changes[1..], path);
      assert !IsAbsolute(rest) by {
        assert |changes| > 1 ==> rest[0] == changes[1][0];
      }
      ResolutionAction(cwd, changes[0], rest);
    }
  }

  /** The directory whose status a change checks is the one later relative paths start from:
      both lie below the root's place, the later one by walking on inside the FTP tree. */
  lemma CheckedDirectoryIsUsed(root: string, cwd: string, dir: string, later: string, here: Place)
    requires IsAbsolute(cwd) && !IsAbsolute(later)
    ensures var changed := AbsoluteFtpPath(cwd, dir);
            && Destination(LocalPath(root, cwd, changed), here) == RootPlace(root, here) + Parts(changed)
            && Destination(LocalPath(root, changed, later), here) ==
               RootPlace(root, here) + Walk(Parts(changed), Split(later, false))
  {
    var changed := AbsoluteFtpPath(cwd, dir);
    AbsoluteFtpPathIsClean(cwd, dir);
    ConfinedPlace(root, cwd, changed, here);
    ConfinedPlace(root, changed, later, here);
    var raw := changed + "/" + later;
    CleanKeepsParts(raw);
    PartsAreNames(raw);
    PartsAreNames(changed);
    DestinationAppend(changed, later, []);
  }
}
