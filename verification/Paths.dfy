/** The lexical path cleaner: what it computes, the loop that computes it, and what a path means. */
module Paths {
  import opened Text

  // ---------------------------------------------------------------- roots

  predicate IsLetter(c: char) {
    'a' <= c <= 'z' || 'A' <= c <= 'Z'
  }

  /** A drive letter and a colon. */
  predicate HasDrive(path: string) {
    |path| >= 2 && IsLetter(path[0]) && path[1] == ':'
  }

  /** Two slashes of either kind and the first character of a host name. */
  predicate HasHost(path: string) {
    |path| >= 3 && IsSeparator(path[0], true) && IsSeparator(path[1], true) && !IsSeparator(path[2], true)
  }

  /** The text that makes a path absolute; empty for a relative path. */
  function Root(path: string, windows: bool): (root: string)
    ensures root <= path
  {
    if windows then
      if HasDrive(path) then path[..2]
      else if HasHost(path) then path[..2 + FirstSeparator(path[2..], true)]
      else ""
    else if path != "" && path[0] == '/' then path[..1]
    else ""
  }

  /** Which text that is: nothing, the slash, the drive letter with its colon, or the slashes with the whole host name. */
  lemma RootIs(path: string)
    ensures Root(path, false) == if path != "" && path[0] == '/' then "/" else ""
    ensures var drive := |path| > 1 && ('a' <= path[0] <= 'z' || 'A' <= path[0] <= 'Z') && path[1] == ':';
            var host := |path| > 2 && path[0] in {'/', '\\'} && path[1] in {'/', '\\'} && path[2] !in {'/', '\\'};
            var n := |Root(path, true)|;
            && (n > 0 <==> drive || host)
            && (drive ==> Root(path, true) == [path[0], ':'])
            && (host && !drive ==>
                  && n > 2 && '/' !in path[2..n] && '\\' !in path[2..n]
                  && (n < |path| ==> path[n] in {'/', '\\'}))
  {
    if HasHost(path) && !HasDrive(path) {
      HostEnds(path);
    }
  }

  lemma HostEnds(path: string)
    requires HasHost(path)
    ensures var n := 2 + FirstSeparator(path[2..], true);
            n > 2 && Unbroken(path[2..n], true) && (n < |path| ==> IsSeparator(path[n], true))
  {
    var i := FirstSeparator(path[2..], true);
    assert path[2..][..i] == path[2..2 + i];
    assert path[2..][0] == path[2];
  }

  // ---------------------------------------------------------------- components

  /** A component that neither stays nor goes up. */
  predicate IsName(c: string, windows: bool) {
    c != "" && c != "." && c != ".." && Unbroken(c, windows)
  }

  /** What one component does to the stack of components kept so far. */
  function Push(rooted: bool, stack: seq<string>, c: string): seq<string> {
    if c == "" || c == "." then stack
    else if c == ".." then
      if rooted then
        if stack != [] then stack[..|stack| - 1] else stack
      else if stack != [] && stack[|stack| - 1] != ".." then stack[..|stack| - 1]
      else stack + [".."]
    else stack + [c]
  }

  function Reduce(rooted: bool, stack: seq<string>, pieces: seq<string>): seq<string>
    decreases |pieces|
  {
    if pieces == [] then stack else Reduce(rooted, Push(rooted, stack, pieces[0]), pieces[1..])
  }

  /** The components that survive cleaning. */
  function Components(path: string, windows: bool): seq<string> {
    var root := Root(path, windows);
    Reduce(root != "", [], Split(path[|root|..], windows))
  }

  function Render(root: string, components: seq<string>, windows: bool, separator: char): string {
    if root == "" && components == [] then "."
    else root + (if windows && root != "" then [separator] else "") + Join(components, separator)
  }

  function Clean(path: string, windows: bool, separator: char): string {
    Render(Root(path, windows), Components(path, windows), windows, separator)
  }

  // ---------------------------------------------------------------- the loop

  /** The position of the first separator at or after start; |path| stands for npos. */
  function FindFrom(path: string, start: nat, windows: bool): (end: nat)
    requires start <= |path|
    ensures start <= end <= |path|
  {
    start + FirstSeparator(path[start..], windows)
  }

  lemma ReduceCons(rooted: bool, stack: seq<string>, piece: string, rest: seq<string>)
    ensures Reduce(rooted, stack, [piece] + rest) == Reduce(rooted, Push(rooted, stack, piece), rest)
  {
  }

  lemma ReduceOne(rooted: bool, stack: seq<string>, piece: string)
    ensures Reduce(rooted, stack, [piece]) == Push(rooted, stack, piece)
  {
  }

  /** Nothing after a root or after a last separator adds no component. */
  lemma ReduceNothing(rooted: bool, stack: seq<string>, windows: bool)
    ensures Reduce(rooted, stack, Split("", windows)) == stack
  {
  }

  lemma SuffixCut(path: string, start: nat, end: nat)
    requires start <= end <= |path|
    ensures path[start..][..end - start] == path[start..end]
    ensures end == |path| ==> path[start..] == path[start..end]
    ensures end < |path| ==> path[start..][end - start + 1..] == path[end + 1..]
  {
  }

  lemma CutPiece(path: string, start: nat, windows: bool)
    requires start <= |path|
    ensures var end := FindFrom(path, start, windows);
            Split(path[start..], windows) ==
            if end == |path| then [path[start..end]] else [path[start..end]] + Split(path[end + 1..], windows)
  {
    SuffixCut(path, start, FindFrom(path, start, windows));
  }

  /** One turn of the loop: cut a piece off the unread suffix and push it. */
  lemma CutAndPush(path: string, start: nat, windows: bool, rooted: bool, stack: seq<string>)
    requires start <= |path|
    ensures var end := FindFrom(path, start, windows);
            var pushed := Push(rooted, stack, path[start..end]);
            Reduce(rooted, stack, Split(path[start..], windows)) ==
            if end + 1 >= |path| then pushed else Reduce(rooted, pushed, Split(path[end + 1..], windows))
  {
    CutPiece(path, start, windows);
    var end := FindFrom(path, start, windows);
    if end == |path| {
      ReduceOne(rooted, stack, path[start..end]);
    } else {
      ReduceCons(rooted, stack, path[start..end], Split(path[end + 1..], windows));
      if end + 1 == |path| {
        ReduceNothing(rooted, Push(rooted, stack, path[start..end]), windows);
      }
    }
  }

  method JoinComponents(components: seq<string>, separator: char) returns (joined: string)
    ensures joined == Join(components, separator)
  {
    joined := "";
    for i := 0 to |components|
      invariant joined == Join(components[..i], separator)
    {
      if i != 0 {
        JoinSnoc(components[..i], components[i], separator);
        joined := joined + [separator];
      }
      joined := joined + components[i];
      assert components[..i + 1] == components[..i] + [components[i]];
    }
    assert components[..|components|] == components;
  }

  /** The part of the loop body that edits the component stack. */
  method EditStack(rooted: bool, stack: seq<string>, component: string) returns (components: seq<string>)
    ensures components == Push(rooted, stack, component)
  {
    components := stack;
    if component == "" || component == "." {
    } else if component == ".." {
      if rooted {
        if components != [] {
          components := components[..|components| - 1];
        }
      } else if components != [] && components[|components| - 1] != ".." {
        components := components[..|components| - 1];
      } else {
        components := components + [".."];
      }
    } else {
      components := components + [component];
    }
  }

  /** The split loop: start runs over the path until the unread suffix is used up. */
  method SplitAndReduce(path: string, windows: bool, first: nat, rooted: bool) returns (components: seq<string>)
    requires first < |path|
    ensures components == Reduce(rooted, [], Split(path[first..], windows))
  {
    components := [];
    var start := first;
    while true
      invariant start < |path|
      invariant Reduce(rooted, components, Split(path[start..], windows)) ==
                Reduce(rooted, [], Split(path[first..], windows))
      decreases |path| - start
    {
      var end := FindFrom(path, start, windows);
      CutAndPush(path, start, windows, rooted, components);
      components := EditStack(rooted, components, path[start..end]);
      if end == |path| {
        break;
      }
      start := end + 1;
      if !(start < |path|) {
        break;
      }
    }
  }

  method CleanPath(path: string, windows: bool, separator: char) returns (cleaned: string)
    ensures cleaned == Clean(path, windows, separator)
  {
    if path == "" {
      ReduceNothing(false, [], windows);
      return ".";
    }
    var absoluteRoot := Root(path, windows);
    var rooted := absoluteRoot != "";
    var components: seq<string> := [];
    if |path| >= |absoluteRoot| + 1 {
      components := SplitAndReduce(path, windows, |absoluteRoot|, rooted);
      if components == [] && !rooted {
        return ".";
      }
    } else {
      assert path[|absoluteRoot|..] == "";
      ReduceNothing(rooted, [], windows);
    }
    cleaned := absoluteRoot;
    if windows && rooted {
      cleaned := cleaned + [separator];
    }
    var joined := JoinComponents(components, separator);
    cleaned := cleaned + joined;
  }
}
