/** The file tree outside the server, with the operating system calls the handlers make. */
module Disks {
  import opened Wrappers
  import opened Text
  import opened Meaning

  /** What stands at a place. A file names its inode, so that open handles follow a renamed file. */
  datatype Node = Dir | File(ino: nat) | Special

  /** An open file for writing: at a position of its own, or always at the end. */
  datatype Handle = Handle(ino: nat, append: bool, pos: nat)

  /** here is the directory the process stands in. */
  datatype Disk = Disk(
    here: Place,
    tree: map<Place, Node>,
    content: map<nat, string>,
    handles: map<nat, Handle>,
    nextIno: nat)

  ghost predicate Valid(d: Disk) {
    && [] in d.tree && d.tree[[]] == Dir
    && (forall p | p in d.tree && p != [] :: Parent(p) in d.tree && d.tree[Parent(p)] == Dir)
    && (forall p | p in d.tree :: d.tree[p].File? ==> d.tree[p].ino in d.content)
    && (forall id | id in d.handles :: d.handles[id].ino in d.content)
    && (forall ino | ino in d.content :: ino < d.nextIno)
  }

  function Parent(p: Place): Place
    requires p != []
  {
    p[..|p| - 1]
  }

  /** The place a path text denotes. */
  function At(d: Disk, path: string): Place {
    Destination(path, d.here)
  }

  function Stat(d: Disk, p: Place): Option<Node> {
    if p in d.tree then Some(d.tree[p]) else None
  }

  /** The content of the file at p. */
  function ContentOf(d: Disk, p: Place): Option<string> {
    if p in d.tree && d.tree[p].File? && d.tree[p].ino in d.content then Some(d.content[d.tree[p].ino]) else None
  }

  /** Some upload has the file open. */
  predicate IsOpen(d: Disk, ino: nat) {
    exists id | id in d.handles :: d.handles[id].ino == ino
  }

  /** A new entry may be made here: nothing is here, and the parent is a directory. */
  predicate Vacant(d: Disk, p: Place) {
    p !in d.tree && p != [] && Parent(p) in d.tree && d.tree[Parent(p)] == Dir
  }

  /** open for writing: an existing file loses its content, a missing one is created. */
  function OpenTruncated(d: Disk, p: Place, id: nat): Option<Disk> {
    if Vacant(d, p) then
      Some(d.(tree := d.tree[p := File(d.nextIno)], content := d.content[d.nextIno := ""],
              handles := d.handles[id := Handle(d.nextIno, false, 0)], nextIno := d.nextIno + 1))
    else if p in d.tree && d.tree[p].File? then
      Some(d.(content := d.content[d.tree[p].ino := ""], handles := d.handles[id := Handle(d.tree[p].ino, false, 0)]))
    else if p in d.tree && d.tree[p].Special? then Some(d)
    else None
  }

  /** open for appending to an existing file. */
  function OpenAppending(d: Disk, p: Place, id: nat): Option<Disk> {
    if p in d.tree && d.tree[p].File? then Some(d.(handles := d.handles[id := Handle(d.tree[p].ino, true, 0)]))
    else None
  }

  /** Text written over what stood at pos; a gap is filled as POSIX does, with NUL. */
  function Overwritten(text: string, pos: nat, data: string): string {
    var padded := if |text| < pos then text + seq(pos - |text|, _ => 0 as char) else text;
    padded[..pos] + data + if |padded| > pos + |data| then padded[pos + |data|..] else ""
  }

  function Write(d: Disk, id: nat, data: string): Disk {
    if id in d.handles && d.handles[id].ino in d.content then
      var h := d.handles[id];
      var text := d.content[h.ino];
      if h.append then d.(content := d.content[h.ino := text + data])
      else d.(content := d.content[h.ino := Overwritten(text, h.pos, data)],
              handles := d.handles[id := h.(pos := h.pos + |data|)])
    else d
  }

  function Close(d: Disk, id: nat): Disk {
    d.(handles := d.handles - {id})
  }

  function Unlink(d: Disk, p: Place): Option<Disk> {
    if p in d.tree && d.tree[p].File? then Some(d.(tree := d.tree - {p})) else None
  }

  function Mkdir(d: Disk, p: Place): Option<Disk> {
    if Vacant(d, p) then Some(d.(tree := d.tree[p := Dir])) else None
  }

  predicate IsEmptyDir(d: Disk, p: Place) {
    p in d.tree && d.tree[p] == Dir && forall q | q in d.tree :: q == [] || Parent(q) != p
  }

  function Rmdir(d: Disk, p: Place): Option<Disk> {
    if IsEmptyDir(d, p) && p != [] then Some(d.(tree := d.tree - {p})) else None
  }

  /** Character by character: data stands from pos on, what was there before and behind stays, and a gap is NUL. */
  lemma OverwrittenAt(text: string, pos: nat, data: string, k: nat)
    requires k < |Overwritten(text, pos, data)|
    ensures |Overwritten(text, pos, data)| == if |text| > pos + |data| then |text| else pos + |data|
    ensures Overwritten(text, pos, data)[k] ==
            if pos <= k < pos + |data| then data[k - pos] else if k < |text| then text[k] else 0 as char
  {
  }

  /** A closed file is no longer open; nothing else changes. */
  lemma CloseForgets(d: Disk, id: nat)
    ensures var after := Close(d, id);
            && id !in after.handles && (forall other | other in d.handles && other != id :: other in after.handles)
            && after.tree == d.tree && after.content == d.content
  {
  }

  // ---------------------------------------------------------------- rename

  /** Where an entry stands after everything at or below source has moved to target. */
  function Moved(source: Place, target: Place, p: Place): Place {
    if source <= p then target + p[|source|..] else p
  }

  function MovedTree(tree: map<Place, Node>, source: Place, target: Place): map<Place, Node> {
    var arrived := set p | p in tree :: Moved(source, target, p);
    map q | q in arrived && CameFrom(source, target, q) in tree :: tree[CameFrom(source, target, q)]
  }

  function CameFrom(source: Place, target: Place, q: Place): Place {
    if target <= q then source + q[|target|..] else q
  }

  /** rename onto a place where nothing stands; a directory cannot move below itself. */
  function Rename(d: Disk, source: Place, target: Place): Option<Disk> {
    if source in d.tree && Vacant(d, target) && !(source <= target) then
      Some(d.(tree := MovedTree(d.tree, source, target)))
    else None
  }

  lemma {:induction false} NothingBelowNothing(d: Disk, p: Place, q: Place)
    requires Valid(d) && p !in d.tree && p <= q
    ensures q !in d.tree
    decreases |q|
  {
    if |q| > |p| {
      assert p <= Parent(q);
      NothingBelowNothing(d, p, Parent(q));
    } else {
      assert p == q;
    }
  }

  /** Renaming moves every entry at or below the source, once, and nothing else. */
  lemma RenameMoves(d: Disk, source: Place, target: Place)
    requires Valid(d) && Rename(d, source, target).Some?
    ensures var tree := Rename(d, source, target).value.tree;
            && (forall p | p in d.tree :: Moved(source, target, p) in tree && tree[Moved(source, target, p)] == d.tree[p])
            && (forall q | q in tree :: CameFrom(source, target, q) in d.tree && Moved(source, target, CameFrom(source, target, q)) == q)
            && (forall p | p in d.tree :: CameFrom(source, target, Moved(source, target, p)) == p)
  {
    var tree := Rename(d, source, target).value.tree;
    forall p | p in d.tree
      ensures CameFrom(source, target, Moved(source, target, p)) == p
      ensures Moved(source, target, p) in tree && tree[Moved(source, target, p)] == d.tree[p]
    {
      MovedBack(d, source, target, p);
    }
    forall q | q in tree
      ensures CameFrom(source, target, q) in d.tree && Moved(source, target, CameFrom(source, target, q)) == q
    {
      var p :| p in d.tree && Moved(source, target, p) == q;
      MovedBack(d, source, target, p);
    }
  }

  lemma MovedBack(d: Disk, source: Place, target: Place, p: Place)
    requires Valid(d) && target !in d.tree && p in d.tree
    ensures CameFrom(source, target, Moved(source, target, p)) == p
  {
    if source <= p {
      assert (target + p[|source|..])[|target|..] == p[|source|..];
      assert source + p[|source|..] == p;
    } else if target <= p {
      NothingBelowNothing(d, target, p);
      assert false;
    }
  }

  lemma NothingBelowBoth(d: Disk, source: Place, target: Place, p: Place)
    requires Valid(d) && source in d.tree && target !in d.tree && !(source <= target) && source <= p
    ensures !(target <= p)
  {
    if target <= p {
      assert target == p[..|target|] && source == p[..|source|];
      NothingBelowNothing(d, target, source);
      assert false;
    }
  }

  /** In plain terms: what stood at the source and below it stands at the target and below it now, nothing is left at
      the source, and everything else is where it was; contents and open files are not touched. */
  lemma RenameIs(d: Disk, source: Place, target: Place, names: Place, p: Place)
    requires Valid(d) && Rename(d, source, target).Some?
    ensures var after := Rename(d, source, target).value;
            && (target + names in after.tree <==> source + names in d.tree)
            && (source + names in d.tree ==> after.tree[target + names] == d.tree[source + names])
            && (source <= p ==> p !in after.tree)
            && (!(source <= p) && !(target <= p) ==>
                  (p in after.tree <==> p in d.tree) && (p in d.tree ==> after.tree[p] == d.tree[p]))
            && after.content == d.content && after.handles == d.handles && after.here == d.here
  {
    RenameMoves(d, source, target);
    assert (target + names)[|target|..] == names && (source + names)[|source|..] == names;
    assert Moved(source, target, source + names) == target + names;
    assert CameFrom(source, target, target + names) == source + names;
    if source <= p {
      NothingBelowBoth(d, source, target, p);
      assert CameFrom(source, target, p) == p;
    }
  }

  /** A rename succeeds exactly if its source is there, its target is not but has a directory to stand in, and is not
      below the source. */
  lemma RenameSucceedsIff(d: Disk, source: Place, target: Place)
    ensures Rename(d, source, target).Some? <==>
            && source in d.tree && target !in d.tree && !(source <= target)
            && target != [] && target[..|target| - 1] in d.tree && d.tree[target[..|target| - 1]] == Dir
  {
  }

  // ---------------------------------------------------------------- conservation

  function ContentAt(tree: map<Place, Node>, content: map<nat, string>, p: Place): multiset<string> {
    if p in tree && tree[p].File? && tree[p].ino in content then multiset{content[tree[p].ino]} else multiset{}
  }

  /** The contents of the files at the given places, with multiplicity. */
  ghost function Contents(tree: map<Place, Node>, content: map<nat, string>, places: set<Place>): multiset<string> {
    if places == {} then multiset{} else
    var p :| p in places;
    ContentAt(tree, content, p) + Contents(tree, content, places - {p})
  }

  ghost function AllContents(d: Disk): multiset<string> {
    Contents(d.tree, d.content, d.tree.Keys)
  }

  lemma {:induction false} ContentsPick(tree: map<Place, Node>, content: map<nat, string>, places: set<Place>, p: Place)
    requires p in places
    ensures Contents(tree, content, places) == ContentAt(tree, content, p) + Contents(tree, content, places - {p})
    decreases |places|
  {
    var q :| q in places && Contents(tree, content, places) ==
                            ContentAt(tree, content, q) + Contents(tree, content, places - {q});
    if q != p {
      ContentsPick(tree, content, places - {q}, p);
      ContentsPick(tree, content, places - {p}, q);
      assert places - {q} - {p} == places - {p} - {q};
    }
  }

  function Arrivals(source: Place, target: Place, places: set<Place>): set<Place> {
    set p | p in places :: Moved(source, target, p)
  }

  lemma ArrivalsWithout(source: Place, target: Place, places: set<Place>, p: Place)
    requires p in places
    requires forall q | q in places :: CameFrom(source, target, Moved(source, target, q)) == q
    ensures Arrivals(source, target, places) - {Moved(source, target, p)} == Arrivals(source, target, places - {p})
  {
  }

  lemma {:induction false} ContentsMoved(before: map<Place, Node>, after: map<Place, Node>, content: map<nat, string>,
                                         source: Place, target: Place, places: set<Place>)
    requires forall p | p in places ::
      && p in before && Moved(source, target, p) in after && after[Moved(source, target, p)] == before[p]
      && CameFrom(source, target, Moved(source, target, p)) == p
    ensures Contents(after, content, Arrivals(source, target, places)) == Contents(before, content, places)
    decreases |places|
  {
    if places == {} {
      assert Arrivals(source, target, places) == {};
    } else {
      var p :| p in places;
      ContentsPick(before, content, places, p);
      ContentsPick(after, content, Arrivals(source, target, places), Moved(source, target, p));
      ArrivalsWithout(source, target, places, p);
      ContentsMoved(before, after, content, source, target, places - {p});
    }
  }

  /** A rename conserves the multiset of file contents in the tree. */
  lemma RenameConserves(d: Disk, source: Place, target: Place)
    requires Valid(d) && Rename(d, source, target).Some?
    ensures AllContents(Rename(d, source, target).value) == AllContents(d)
  {
    var tree := Rename(d, source, target).value.tree;
    RenameMoves(d, source, target);
    ContentsMoved(d.tree, tree, d.content, source, target, d.tree.Keys);
    assert tree.Keys == Arrivals(source, target, d.tree.Keys);
  }

  // ---------------------------------------------------------------- every call keeps the tree a tree

  lemma MovedParent(source: Place, target: Place, p: Place)
    requires p != [] && target != [] && !(source <= target) && p != source
    ensures Moved(source, target, p) != []
    ensures Parent(Moved(source, target, p)) == Moved(source, target, Parent(p))
  {
  }

  lemma RenameValid(d: Disk, source: Place, target: Place)
    requires Valid(d) && Rename(d, source, target).Some?
    ensures Valid(Rename(d, source, target).value)
  {
    var tree := Rename(d, source, target).value.tree;
    RenameMoves(d, source, target);
    assert source != [] && Moved(source, target, []) == [];
    forall q | q in tree && q != [] ensures Parent(q) in tree && tree[Parent(q)] == Dir {
      var p := CameFrom(source, target, q);
      if p == source {
        assert q == target;
        assert !(source <= Parent(target));
        assert Moved(source, target, Parent(target)) == Parent(target);
      } else {
        assert p != [];
        MovedParent(source, target, p);
      }
    }
    forall q | q in tree && tree[q].File? ensures tree[q].ino in d.content {
      assert tree[q] == d.tree[CameFrom(source, target, q)];
    }
  }

  lemma OpenValid(d: Disk, p: Place, id: nat)
    requires Valid(d)
    ensures OpenTruncated(d, p, id).Some? ==> Valid(OpenTruncated(d, p, id).value)
    ensures OpenAppending(d, p, id).Some? ==> Valid(OpenAppending(d, p, id).value)
  {
  }

  lemma EntryValid(d: Disk, p: Place)
    requires Valid(d)
    ensures Unlink(d, p).Some? ==> Valid(Unlink(d, p).value)
    ensures Mkdir(d, p).Some? ==> Valid(Mkdir(d, p).value)
    ensures Rmdir(d, p).Some? ==> Valid(Rmdir(d, p).value)
  {
  }

  lemma HandleValid(d: Disk, id: nat, data: string)
    requires Valid(d)
    ensures Valid(Write(d, id, data)) && Valid(Close(d, id))
  {
  }

  // ---------------------------------------------------------------- a whole upload

  function WriteAll(d: Disk, id: nat, chunks: seq<string>): Disk
    decreases |chunks|
  {
    if chunks == [] then d else WriteAll(Write(d, id, chunks[0]), id, chunks[1..])
  }

  /** The handle stands at the end of its file, as it does after opening and after each of its writes. */
  predicate AtEnd(d: Disk, id: nat) {
    && id in d.handles && d.handles[id].ino in d.content
    && (d.handles[id].append || d.handles[id].pos == |d.content[d.handles[id].ino]|)
  }

  /** The chunks of an upload are added to the file in order, and no other file is touched. */
  lemma {:induction false} WritesAppend(d: Disk, id: nat, chunks: seq<string>)
    requires AtEnd(d, id)
    ensures var d', ino := WriteAll(d, id, chunks), d.handles[id].ino;
            AtEnd(d', id) && d'.tree == d.tree && d'.content == d.content[ino := d.content[ino] + Concat(chunks)]
    decreases |chunks|
  {
    var ino := d.handles[id].ino;
    if chunks != [] {
      var next := Write(d, id, chunks[0]);
      assert next.content[ino] == d.content[ino] + chunks[0];
      WritesAppend(next, id, chunks[1..]);
      assert d.content[ino] + chunks[0] + Concat(chunks[1..]) == d.content[ino] + Concat(chunks);
    } else {
      assert d.content[ino] + "" == d.content[ino];
    }
  }

  /** A handle for a new or truncated file, or one for appending, starts at the end. */
  lemma OpenedAtEnd(d: Disk, p: Place, id: nat)
    requires Valid(d)
    ensures var t := OpenTruncated(d, p, id);
            t.Some? && (p !in d.tree || d.tree[p].File?) ==>
              AtEnd(t.value, id) && t.value.tree[p] == File(t.value.handles[id].ino)
              && t.value.content[t.value.handles[id].ino] == ""
    ensures OpenAppending(d, p, id).Some? ==> AtEnd(OpenAppending(d, p, id).value, id)
  {
  }

  // ---------------------------------------------------------------- calls as data

  datatype Call =
    | NoCall
    | Truncate(p: Place, id: nat)
    | Append(p: Place, id: nat)
    | Delete(p: Place)
    | RemoveDir(p: Place)
    | MakeDir(p: Place)
    | Move(source: Place, target: Place)
    | WriteTo(id: nat, data: string)
    | CloseIt(id: nat)

  /** The outcome of the call; None when the tree does not allow it. */
  function Result(d: Disk, call: Call): Option<Disk> {
    match call
    case Truncate(p, id) => OpenTruncated(d, p, id)
    case Append(p, id) => OpenAppending(d, p, id)
    case Delete(p) => Unlink(d, p)
    case RemoveDir(p) => Rmdir(d, p)
    case MakeDir(p) => Mkdir(d, p)
    case Move(source, target) => Rename(d, source, target)
    case WriteTo(id, data) => Some(Write(d, id, data))
    case CloseIt(id) => Some(Close(d, id))
    case NoCall => Some(d)
  }

  predicate Succeeds(d: Disk, call: Call) {
    Result(d, call).Some?
  }

  function Apply(d: Disk, call: Call): Disk {
    match Result(d, call)
    case None => d
    case Some(changed) => changed
  }

  lemma ApplyValid(d: Disk, call: Call)
    requires Valid(d)
    ensures Valid(Apply(d, call)) && Apply(d, call).here == d.here
  {
    match call {
      case Move(source, target) => if Rename(d, source, target).Some? { RenameValid(d, source, target); }
      case Truncate(p, id) => OpenValid(d, p, id);
      case Append(p, id) => OpenValid(d, p, id);
      case Delete(p) => EntryValid(d, p);
      case RemoveDir(p) => EntryValid(d, p);
      case MakeDir(p) => EntryValid(d, p);
      case WriteTo(id, data) => HandleValid(d, id, data);
      case CloseIt(id) => HandleValid(d, id, "");
      case NoCall =>
    }
  }
}
