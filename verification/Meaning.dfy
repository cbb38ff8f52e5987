/** What a Unix path means: a map from the directory one stands in to the place one ends up at.
    Cleaning is a sound and complete normal form for that meaning. */
module Meaning {
  import opened Text
  import opened Paths
  import opened NormalForm

  /** A place, written as the names on the way down from the root. */
  type Place = seq<string>

  predicate IsDirectory(dir: Place) {
    forall i | 0 <= i < |dir| :: IsName(dir[i], false)
  }

  /** ".." at the root stays at the root. */
  function Enter(dir: Place, c: string): Place {
    if c == "" || c == "." then dir
    else if c == ".." then if dir == [] then [] else dir[..|dir| - 1]
    else dir + [c]
  }

  function Walk(dir: Place, pieces: seq<string>): Place
    decreases |pieces|
  {
    if pieces == [] then dir else Walk(Enter(dir, pieces[0]), pieces[1..])
  }

  predicate IsAbsolute(path: string) {
    path != "" && path[0] == '/'
  }

  /** Where a raw path leads from dir, component by component, without any cleaning. */
  function Destination(path: string, dir: Place): Place {
    Walk(if IsAbsolute(path) then [] else dir, Split(path, false))
  }

  function UnixClean(path: string): string {
    Clean(path, false, '/')
  }

  function Parts(path: string): seq<string> {
    Components(path, false)
  }

  // ---------------------------------------------------------------- walking

  lemma {:induction false} WalkConcat(dir: Place, a: seq<string>, b: seq<string>)
    ensures Walk(dir, a + b) == Walk(Walk(dir, a), b)
    decreases |a|
  {
    if a == [] {
      assert a + b == b;
    } else {
      assert (a + b)[1..] == a[1..] + b;
      WalkConcat(Enter(dir, a[0]), a[1..], b);
    }
  }

  lemma WalkSnoc(dir: Place, a: seq<string>, c: string)
    ensures Walk(dir, a + [c]) == Enter(Walk(dir, a), c)
  {
    WalkConcat(dir, a, [c]);
    assert Walk(Walk(dir, a), [c]) == Enter(Walk(dir, a), c);
  }

  lemma {:induction false} WalkNames(dir: Place, names: seq<string>)
    requires IsDirectory(names)
    ensures Walk(dir, names) == dir + names
    decreases |names|
  {
    if names != [] {
      WalkNames(dir + [names[0]], names[1..]);
      assert dir + [names[0]] + names[1..] == dir + names;
    }
  }

  // ---------------------------------------------------------------- soundness

  lemma PushIsEnter(rooted: bool, dir: Place, stack: seq<string>, c: string)
    requires rooted ==> dir == []
    requires Normal(rooted, stack, false)
    ensures Walk(dir, Push(rooted, stack, c)) == Enter(Walk(dir, stack), c)
  {
    if c == "" || c == "." {
    } else if c == ".." && stack != [] && (rooted || stack[|stack| - 1] != "..") {
      var top := stack[|stack| - 1];
      assert IsName(top, false);
      assert stack == stack[..|stack| - 1] + [top];
      WalkSnoc(dir, stack[..|stack| - 1], top);
    } else if c == ".." && rooted {
    } else {
      WalkSnoc(dir, stack, c);
    }
  }

  lemma {:induction false} WalkReduce(rooted: bool, dir: Place, stack: seq<string>, pieces: seq<string>)
    requires rooted ==> dir == []
    requires Normal(rooted, stack, false)
    requires forall i | 0 <= i < |pieces| :: Unbroken(pieces[i], false)
    ensures Walk(dir, Reduce(rooted, stack, pieces)) == Walk(Walk(dir, stack), pieces)
    decreases |pieces|
  {
    if pieces != [] {
      var c := pieces[0];
      ReduceNormal(rooted, stack, [c], false);
      ReduceOne(rooted, stack, c);
      PushIsEnter(rooted, dir, stack, c);
      WalkReduce(rooted, dir, Push(rooted, stack, c), pieces[1..]);
    }
  }

  function Base(path: string, dir: Place): Place {
    if IsAbsolute(path) then [] else dir
  }

  /** The raw path and its surviving components lead to the same place. */
  lemma DestinationByParts(path: string, dir: Place)
    ensures Destination(path, dir) == Walk(Base(path, dir), Parts(path))
  {
    var rooted, rest := IsAbsolute(path), path[|Root(path, false)|..];
    PiecesUnbroken(rest, false);
    WalkReduce(rooted, Base(path, dir), [], Split(rest, false));
    if rooted {
      assert path == "" + ['/'] + path[1..];
      SplitFirst("", '/', path[1..], false);
      WalkConcat([], [""], Split(rest, false));
    } else {
      assert rest == path;
    }
  }

  lemma CleanKeepsParts(path: string)
    ensures Parts(UnixClean(path)) == Parts(path)
    ensures IsAbsolute(UnixClean(path)) == IsAbsolute(path)
  {
    UnixRootKept(path);
    SameRootSameComponents(path, false, '/');
    assert IsAbsolute(path) == (Root(path, false) != "");
    assert IsAbsolute(UnixClean(path)) == (Root(UnixClean(path), false) != "");
  }

  /** Soundness: from every directory, the raw and the cleaned path lead to the same place. */
  lemma CleanSound(path: string, dir: Place)
    ensures Destination(UnixClean(path), dir) == Destination(path, dir)
  {
    DestinationByParts(path, dir);
    DestinationByParts(UnixClean(path), dir);
    CleanKeepsParts(path);
  }

  // ---------------------------------------------------------------- completeness

  function Ups(components: seq<string>): (n: nat)
    ensures n <= |components|
  {
    if components == [] || components[0] != ".." then 0 else 1 + Ups(components[1..])
  }

  lemma {:induction false} UpsAreDots(components: seq<string>)
    ensures forall i | 0 <= i < Ups(components) :: components[i] == ".."
    decreases |components|
  {
    if components != [] && components[0] == ".." {
      UpsAreDots(components[1..]);
      assert forall i | 0 < i < Ups(components) :: components[i] == components[1..][i - 1];
    }
  }

  lemma {:induction false} NamesFrom(components: seq<string>, k: nat)
    requires Normal(false, components, false) && k <= |components|
    requires components != [] ==> components[0] != ".."
    ensures IsDirectory(components[..k])
  {
    if k > 0 {
      NamesFrom(components, k - 1);
      assert k > 1 ==> IsName(components[..k - 1][k - 2], false);
      assert IsName(components[k - 1], false);
    }
  }

  /** From deep enough, a relative normal form climbs Ups levels and then descends. */
  lemma {:induction false} WalkDeep(dir: Place, components: seq<string>)
    requires Normal(false, components, false) && |dir| >= Ups(components)
    ensures Walk(dir, components) == dir[..|dir| - Ups(components)] + components[Ups(components)..]
    decreases |components|
  {
    if components != [] && components[0] == ".." {
      assert Normal(false, components[1..], false);
      WalkDeep(dir[..|dir| - 1], components[1..]);
    } else {
      NamesFrom(components, |components|);
      assert components[..|components|] == components && dir[..|dir|] == dir;
      WalkNames(dir, components);
    }
  }

  function WalkFrom(rooted: bool, dir: Place, components: seq<string>): Place {
    Walk(if rooted then [] else dir, components)
  }

  function Filled(n: nat, name: string): (dir: Place)
    requires IsName(name, false)
    ensures |dir| == n && IsDirectory(dir)
    ensures forall i | 0 <= i < n :: dir[i] == name
  {
    seq(n, _ => name)
  }

  /** Different climbs show from one of two directories that differ in every name. */
  lemma ClimbsDiffer(a: seq<string>, b: seq<string>, d1: Place, d2: Place)
    requires Normal(false, a, false) && Normal(false, b, false) && Ups(a) > Ups(b)
    requires |d1| == |d2| == Ups(a) + Ups(b)
    requires forall i | 0 <= i < |d1| :: d1[i] != d2[i]
    ensures Walk(d1, a) != Walk(d1, b) || Walk(d2, a) != Walk(d2, b)
  {
    WalkDeep(d1, a);
    WalkDeep(d1, b);
    WalkDeep(d2, a);
    WalkDeep(d2, b);
    var i := |d1| - Ups(a);
    assert Walk(d1, b)[i] == d1[i] && Walk(d2, b)[i] == d2[i];
    if |a| > Ups(a) {
      assert Walk(d1, a)[i] == a[Ups(a)] == Walk(d2, a)[i];
    }
  }

  lemma RelativeUnique(a: seq<string>, b: seq<string>)
    requires Normal(false, a, false) && Normal(false, b, false)
    requires forall dir | IsDirectory(dir) :: Walk(dir, a) == Walk(dir, b)
    ensures a == b
  {
    var n := Ups(a) + Ups(b);
    var d1, d2 := Filled(n, "a"), Filled(n, "b");
    if Ups(a) > Ups(b) {
      ClimbsDiffer(a, b, d1, d2);
      assert false;
    }
    if Ups(b) > Ups(a) {
      ClimbsDiffer(b, a, d1, d2);
      assert false;
    }
    WalkDeep(d1, a);
    WalkDeep(d1, b);
    UpsAreDots(a);
    UpsAreDots(b);
    var k := Ups(a);
    assert a[k..] == Walk(d1, a)[n - k..] == Walk(d1, b)[n - k..] == b[k..];
    assert a == a[..k] + a[k..] && b == b[..k] + b[k..];
  }

  /** An absolute form leads to one place; a relative one does not. */
  lemma RootednessShows(a: seq<string>, b: seq<string>)
    requires Normal(false, b, false)
    ensures exists dir | IsDirectory(dir) :: Walk([], a) != Walk(dir, b)
  {
    var n := Ups(b) + 1;
    var d1, d2 := Filled(n, "a"), Filled(n, "b");
    WalkDeep(d1, b);
    WalkDeep(d2, b);
    assert Walk(d1, b)[0] == "a" && Walk(d2, b)[0] == "b";
    assert Walk([], a) != Walk(d1, b) || Walk([], a) != Walk(d2, b);
  }

  lemma FormUnique(rootedA: bool, a: seq<string>, rootedB: bool, b: seq<string>)
    requires Normal(rootedA, a, false) && Normal(rootedB, b, false)
    requires forall dir | IsDirectory(dir) :: WalkFrom(rootedA, dir, a) == WalkFrom(rootedB, dir, b)
    ensures rootedA == rootedB && a == b
  {
    var here: Place := [];
    assert WalkFrom(rootedA, here, a) == WalkFrom(rootedB, here, b);
    if rootedA && rootedB {
      WalkNames([], a);
      WalkNames([], b);
      assert [] + a == a && [] + b == b;
    } else if rootedA {
      RootednessShows(a, b);
      assert false;
    } else if rootedB {
      RootednessShows(b, a);
      assert false;
    } else {
      forall dir | IsDirectory(dir) ensures Walk(dir, a) == Walk(dir, b) {
        assert WalkFrom(rootedA, dir, a) == WalkFrom(rootedB, dir, b);
      }
      RelativeUnique(a, b);
    }
  }

  ghost predicate SameMeaning(p: string, q: string) {
    forall dir | IsDirectory(dir) :: Destination(p, dir) == Destination(q, dir)
  }

  /** Cleaned texts are equal exactly when the paths lead to the same place from every directory. */
  lemma CleanComplete(p: string, q: string)
    ensures UnixClean(p) == UnixClean(q) <==> SameMeaning(p, q)
  {
    if UnixClean(p) == UnixClean(q) {
      forall dir | IsDirectory(dir) ensures Destination(p, dir) == Destination(q, dir) {
        CleanSound(p, dir);
        CleanSound(q, dir);
      }
    }
    if SameMeaning(p, q) {
      ComponentsNormal(p, false);
      ComponentsNormal(q, false);
      forall dir | IsDirectory(dir)
        ensures WalkFrom(IsAbsolute(p), dir, Parts(p)) == WalkFrom(IsAbsolute(q), dir, Parts(q))
      {
        DestinationByParts(p, dir);
        DestinationByParts(q, dir);
      }
      FormUnique(IsAbsolute(p), Parts(p), IsAbsolute(q), Parts(q));
    }
  }
}
