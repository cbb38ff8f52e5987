/** The cache of mapped files shared by all downloads: a weak table from path to the live mapping. */
module FileCache {
  import opened Wrappers

  /** Alive while somebody holds a reference; then its destructor unmaps it and, under the lock, erases its entry. */
  datatype Phase = Alive | Dying | Unmapped | Gone

  datatype Mapping = Mapping(path: string, size: nat, hasData: bool, refs: nat, phase: Phase, unmaps: nat)

  datatype Cache = Cache(files: map<string, nat>, objects: map<nat, Mapping>, nextId: nat)

  function Empty(): Cache {
    Cache(map[], map[], 0)
  }

  /** Get: size is None when the file cannot be opened; mapOk tells whether mapping a non-empty file succeeds. */
  datatype Event =
    | Get(path: string, size: Option<nat>, mapOk: bool)
    | Share(id: nat)
    | Release(id: nat)
    | Unmap(id: nat)
    | Erase(id: nat)

  predicate IsAlive(c: Cache, id: nat) {
    id in c.objects && c.objects[id].phase.Alive?
  }

  predicate Cached(c: Cache, path: string) {
    path in c.files && IsAlive(c, c.files[path])
  }

  /** A new mapping is made: the path cannot be served from the table, and the file can be opened and mapped. */
  predicate Maps(c: Cache, path: string, size: Option<nat>, mapOk: bool) {
    !Cached(c, path) && path != "" && size.Some? && (size.value > 0 ==> mapOk)
  }

  function Got(c: Cache, path: string, size: Option<nat>, mapOk: bool): Option<nat> {
    if Cached(c, path) then Some(c.files[path])
    else if Maps(c, path, size, mapOk) then Some(c.nextId)
    else None
  }

  function Held(c: Cache, id: nat): Cache
    requires id in c.objects
  {
    c.(objects := c.objects[id := c.objects[id].(refs := c.objects[id].refs + 1)])
  }

  function InPhase(c: Cache, id: nat, phase: Phase): Cache
    requires id in c.objects
  {
    c.(objects := c.objects[id := c.objects[id].(phase := phase)])
  }

  function Step(c: Cache, e: Event): Cache {
    match e
    case Get(path, size, mapOk) =>
      if Cached(c, path) then Held(c, c.files[path])
      else if Maps(c, path, size, mapOk) then
        Cache(c.files[path := c.nextId],
              c.objects[c.nextId := Mapping(path, size.value, size.value > 0, 1, Alive, 0)],
              c.nextId + 1)
      else c
    case Share(id) => if IsAlive(c, id) then Held(c, id) else c
    case Release(id) =>
      if IsAlive(c, id) && c.objects[id].refs > 0 then
        var m := c.objects[id];
        c.(objects := c.objects[id := m.(refs := m.refs - 1, phase := if m.refs == 1 then Dying else Alive)])
      else c
    case Unmap(id) =>
      if id in c.objects && c.objects[id].phase.Dying? then
        var m := c.objects[id];
        c.(objects := c.objects[id := m.(phase := Unmapped, unmaps := if m.hasData then m.unmaps + 1 else m.unmaps)])
      else c
    case Erase(id) =>
      if id in c.objects && c.objects[id].phase.Unmapped? then
        InPhase(c, id, Gone).(files := if c.objects[id].path != "" then c.files - {c.objects[id].path} else c.files)
      else c
  }

  function Run(c: Cache, events: seq<Event>): Cache
    decreases |events|
  {
    if events == [] then c else Run(Step(c, events[0]), events[1..])
  }

  // ---------------------------------------------------------------- at every interleaving

  predicate SoundMapping(m: Mapping) {
    && m.path != "" && (m.hasData <==> m.size > 0)
    && (m.phase.Alive? <==> m.refs > 0)
    && m.unmaps == if m.hasData && (m.phase.Unmapped? || m.phase.Gone?) then 1 else 0
  }

  ghost predicate Sound(c: Cache) {
    && (forall id | id in c.objects :: id < c.nextId && SoundMapping(c.objects[id]))
    && (forall p | p in c.files :: c.files[p] in c.objects && c.objects[c.files[p]].path == p)
  }

  lemma StepSound(c: Cache, e: Event)
    requires Sound(c)
    ensures Sound(Step(c, e))
  {
  }

  lemma {:induction false} RunSound(c: Cache, events: seq<Event>)
    requires Sound(c)
    ensures Sound(Run(c, events))
    decreases |events|
  {
    if events != [] {
      StepSound(c, events[0]);
      RunSound(Step(c, events[0]), events[1..]);
    }
  }

  /** Whatever other steps have been interleaved, an object handed out is alive and mapped, stands for the path asked
      for, and has data exactly when its size is positive. */
  lemma GetGivesLiveMapping(events: seq<Event>, path: string, size: Option<nat>, mapOk: bool)
    ensures var c := Run(Empty(), events);
            var id := Got(c, path, size, mapOk);
            id.Some? ==>
              var d := Step(c, Get(path, size, mapOk));
              && IsAlive(d, id.value) && d.objects[id.value].path == path
              && d.objects[id.value].unmaps == 0
              && (d.objects[id.value].hasData <==> d.objects[id.value].size > 0)
  {
    RunSound(Empty(), events);
    StepSound(Run(Empty(), events), Get(path, size, mapOk));
  }

  /** A get shares the live mapping of its path if there is one; otherwise it makes one of the size found, unless the
      file cannot be opened or mapped. */
  lemma GetDelivers(c: Cache, path: string, size: Option<nat>, mapOk: bool)
    ensures var id, d := Got(c, path, size, mapOk), Step(c, Get(path, size, mapOk));
            if path in c.files && c.files[path] in c.objects && c.objects[c.files[path]].phase == Alive then
              id == Some(c.files[path]) && d.files == c.files && d.nextId == c.nextId && d.objects.Keys == c.objects.Keys
            else if path != "" && size.Some? && (size.value == 0 || mapOk) then
              && id == Some(c.nextId) && d.files == c.files[path := c.nextId] && d.nextId == c.nextId + 1
              && c.nextId in d.objects && d.objects[c.nextId].path == path && d.objects[c.nextId].size == size.value
            else id == None && d == c
  {
  }

  // ---------------------------------------------------------------- who holds an object

  /** How often object id was handed out or shared. */
  function Taken(c: Cache, events: seq<Event>, id: nat): nat
    decreases |events|
  {
    if events == [] then 0 else
    var e := events[0];
    (if e.Get? && Got(c, e.path, e.size, e.mapOk) == Some(id) then 1
     else if e.Share? && e.id == id && IsAlive(c, id) then 1 else 0)
    + Taken(Step(c, e), events[1..], id)
  }

  /** How often it was given back. */
  function GivenBack(c: Cache, events: seq<Event>, id: nat): nat
    decreases |events|
  {
    if events == [] then 0 else
    (if events[0] == Release(id) && IsAlive(c, id) then 1 else 0) + GivenBack(Step(c, events[0]), events[1..], id)
  }

  function Refs(c: Cache, id: nat): nat {
    if id in c.objects then c.objects[id].refs else 0
  }

  lemma StepRefs(c: Cache, e: Event, id: nat)
    requires Sound(c)
    ensures Refs(Step(c, e), id) == Refs(c, id) + Taken(c, [e], id) - GivenBack(c, [e], id)
  {
    assert [e][1..] == [];
  }

  lemma {:induction false} RefsCount(c: Cache, events: seq<Event>, id: nat)
    requires Sound(c)
    ensures Refs(Run(c, events), id) == Refs(c, id) + Taken(c, events, id) - GivenBack(c, events, id)
    decreases |events|
  {
    if events != [] {
      StepRefs(c, events[0], id);
      assert [events[0]][1..] == [];
      StepSound(c, events[0]);
      RefsCount(Step(c, events[0]), events[1..], id);
    }
  }

  /** In every run an object is alive exactly as long as it was taken more often than it was given back, and until then
      it is not unmapped. Giving it back the last time starts its destructor, and no earlier time does. */
  lemma HeldWhileTaken(events: seq<Event>, id: nat)
    ensures var c, held := Run(Empty(), events), Taken(Empty(), events, id) - GivenBack(Empty(), events, id);
            && held >= 0
            && (held > 0 <==> IsAlive(c, id))
            && (held > 0 ==> c.objects[id].unmaps == 0)
            && (held > 1 ==> IsAlive(Step(c, Release(id)), id))
            && (held == 1 ==> Step(c, Release(id)).objects[id].phase == Dying)
  {
    RunSound(Empty(), events);
    RefsCount(Empty(), events, id);
  }

  /** What a download finds in the object it holds. */
  datatype SendChoice = NothingToSend | DataIsNull | SendData

  function ChooseSend(m: Mapping): SendChoice {
    if m.size == 0 then NothingToSend else if !m.hasData then DataIsNull else SendData
  }

  /** A held object never lacks its data, and a mapping is unmapped once, when its destructor runs, and never again. */
  lemma DataNeverNull(events: seq<Event>, id: nat)
    ensures var c := Run(Empty(), events);
            id in c.objects ==>
              && ChooseSend(c.objects[id]) != DataIsNull
              && c.objects[id].unmaps <= 1
              && (c.objects[id].phase.Alive? ==> c.objects[id].unmaps == 0)
              && (c.objects[id].phase.Gone? && c.objects[id].size > 0 ==> c.objects[id].unmaps == 1)
  {
    RunSound(Empty(), events);
  }

  // ---------------------------------------------------------------- one live mapping per path

  /** Every live mapping is the one the table names for its path. */
  ghost predicate Registered(c: Cache) {
    forall id | IsAlive(c, id) :: c.objects[id].path in c.files && c.files[c.objects[id].path] == id
  }

  lemma RegisteredIsUnique(c: Cache, a: nat, b: nat)
    requires Registered(c) && IsAlive(c, a) && IsAlive(c, b) && c.objects[a].path == c.objects[b].path
    ensures a == b
  {
  }

  /** At most one live mapping per path. */
  ghost predicate Unique(c: Cache) {
    forall a, b | IsAlive(c, a) && IsAlive(c, b) && c.objects[a].path == c.objects[b].path :: a == b
  }

  /** A successful get of any path leaves at most one live mapping per path. */
  ghost predicate UniqueAfterGet(c: Cache) {
    forall p | p != "" :: Unique(Step(c, Get(p, Some(1), true)))
  }

  /** The table names every live mapping exactly if there is at most one for each path, now and after the next get. */
  lemma RegisteredIff(c: Cache)
    requires Sound(c)
    ensures Registered(c) <==> Unique(c) && UniqueAfterGet(c)
  {
    if Registered(c) {
      forall p | p != "" ensures Unique(Step(c, Get(p, Some(1), true))) {
        StepRegisteredIff(c, Get(p, Some(1), true));
      }
    } else {
      var id :| IsAlive(c, id) && !(c.objects[id].path in c.files && c.files[c.objects[id].path] == id);
      SecondMapping(c, id);
    }
  }

  /** A live mapping that the table does not name is not the only one of its path after the next get. */
  lemma SecondMapping(c: Cache, id: nat)
    requires Sound(c) && IsAlive(c, id) && !(c.objects[id].path in c.files && c.files[c.objects[id].path] == id)
    ensures !(Unique(c) && UniqueAfterGet(c))
  {
    var p := c.objects[id].path;
    var d := Step(c, Get(p, Some(1), true));
    if Cached(c, p) {
      assert IsAlive(c, c.files[p]);
    } else {
      assert IsAlive(d, id) && IsAlive(d, c.nextId) && d.objects[id].path == d.objects[c.nextId].path && id != c.nextId;
      assert !Unique(d);
    }
  }

  /** The step erases the entry of a mapping that is alive: the destructor's path has been mapped anew meanwhile. */
  predicate ErasesLive(c: Cache, e: Event) {
    e.Erase? && e.id in c.objects && c.objects[e.id].phase.Unmapped? && Cached(c, c.objects[e.id].path)
  }

  predicate NeverErasesLive(c: Cache, events: seq<Event>)
    decreases |events|
  {
    events == [] || (!ErasesLive(c, events[0]) && NeverErasesLive(Step(c, events[0]), events[1..]))
  }

  /** At every point of the run there is at most one live mapping per path, and would be after one more get. */
  ghost predicate AlwaysUnique(c: Cache, events: seq<Event>)
    decreases |events|
  {
    Unique(c) && UniqueAfterGet(c) && (events == [] || AlwaysUnique(Step(c, events[0]), events[1..]))
  }

  /** Exactly when a path can come to have two live mappings: some destructor erases the entry of a live one. */
  lemma {:induction false} AlwaysUniqueIff(c: Cache, events: seq<Event>)
    requires Sound(c) && Registered(c)
    ensures AlwaysUnique(c, events) <==> NeverErasesLive(c, events)
    decreases |events|
  {
    RegisteredIff(c);
    if events != [] {
      var d := Step(c, events[0]);
      StepSound(c, events[0]);
      StepRegisteredIff(c, events[0]);
      if ErasesLive(c, events[0]) {
        RegisteredIff(d);
        NotAlwaysFrom(d, events[1..]);
      } else {
        AlwaysUniqueIff(d, events[1..]);
      }
    }
  }

  lemma NotAlwaysFrom(c: Cache, events: seq<Event>)
    requires !(Unique(c) && UniqueAfterGet(c))
    ensures !AlwaysUnique(c, events)
  {
  }

  /** Only the erasing step of a destructor can lose a live mapping, exactly when the path has been mapped anew meanwhile. */
  lemma StepRegisteredIff(c: Cache, e: Event)
    requires Sound(c) && Registered(c)
    ensures Registered(Step(c, e)) <==>
            !ErasesLive(c, e)
  {
    if ErasesLive(c, e) {
      assert IsAlive(Step(c, e), c.files[c.objects[e.id].path]);
    }
  }

  /** The destructor of an object for this path is under way. */
  predicate BeingDestroyed(c: Cache, path: string) {
    exists id | id in c.objects :: c.objects[id].path == path && (c.objects[id].phase.Dying? || c.objects[id].phase.Unmapped?)
  }

  /** Last release and erase act as one as far as get can tell. */
  predicate Atomic(c: Cache, events: seq<Event>)
    decreases |events|
  {
    events == [] ||
    (&& (events[0].Get? ==> !BeingDestroyed(c, events[0].path))
     && Atomic(Step(c, events[0]), events[1..]))
  }

  ghost predicate Orderly(c: Cache) {
    Sound(c) && Registered(c) && forall id | IsAlive(c, id) :: !BeingDestroyed(c, c.objects[id].path)
  }

  lemma StepOrderly(c: Cache, e: Event)
    requires Orderly(c) && (e.Get? ==> !BeingDestroyed(c, e.path))
    ensures Orderly(Step(c, e))
  {
    var d := Step(c, e);
    StepSound(c, e);
    StepRegisteredIff(c, e);
    forall id | IsAlive(d, id) ensures !BeingDestroyed(d, d.objects[id].path) {
      forall other | other in d.objects && d.objects[other].path == d.objects[id].path
        ensures !d.objects[other].phase.Dying? && !d.objects[other].phase.Unmapped?
      {
        if e.Release? && other == e.id && IsAlive(c, e.id) && d != c && other != id {
          RegisteredIsUnique(c, id, other);
        }
      }
    }
  }

  lemma {:induction false} AtomicNeverErasesLive(c: Cache, events: seq<Event>)
    requires Orderly(c) && Atomic(c, events)
    ensures NeverErasesLive(c, events)
    decreases |events|
  {
    if events != [] {
      StepOrderly(c, events[0]);
      StepRegisteredIff(c, events[0]);
      AtomicNeverErasesLive(Step(c, events[0]), events[1..]);
    }
  }

  lemma {:induction false} AlwaysUniqueAtEnd(c: Cache, events: seq<Event>)
    requires AlwaysUnique(c, events)
    ensures Unique(Run(c, events))
    decreases |events|
  {
    if events != [] {
      AlwaysUniqueAtEnd(Step(c, events[0]), events[1..]);
    }
  }

  /** In particular from the empty cache, if no get comes between the last release of a path and its erasure. */
  lemma OneMappingPerPath(events: seq<Event>)
    requires Atomic(Empty(), events)
    ensures AlwaysUnique(Empty(), events) && Unique(Run(Empty(), events))
  {
    AtomicNeverErasesLive(Empty(), events);
    AlwaysUniqueIff(Empty(), events);
    AlwaysUniqueAtEnd(Empty(), events);
  }

  /** Otherwise two can: a get between the last release and the erase maps the path anew, the erase removes that
      entry, and the next get maps it a third time. */
  lemma TwoMappingsOfOnePath()
    ensures var get := Get("f", Some(1), true);
            var c := Run(Empty(), [get, Release(0), get, Unmap(0), Erase(0), get]);
            IsAlive(c, 1) && IsAlive(c, 2) && c.objects[1].path == c.objects[2].path == "f"
  {
    var get := Get("f", Some(1), true);
    var c1 := Step(Empty(), get);
    var c2 := Step(c1, Release(0));
    var c3 := Step(c2, get);
    var c4 := Step(c3, Unmap(0));
    var c5 := Step(c4, Erase(0));
    var c6 := Step(c5, get);
    assert c3.files["f"] == 1 && c5.files == map[];
    assert Run(c5, [get]) == c6 by { assert [get][1..] == []; }
    assert Run(c4, [Erase(0), get]) == c6 by { assert [Erase(0), get][1..] == [get]; }
    assert Run(c3, [Unmap(0), Erase(0), get]) == c6 by { assert [Unmap(0), Erase(0), get][1..] == [Erase(0), get]; }
    assert [get, Unmap(0), Erase(0), get][1..] == [Unmap(0), Erase(0), get];
    assert Run(c2, [get, Unmap(0), Erase(0), get]) == c6;
    assert [Release(0), get, Unmap(0), Erase(0), get][1..] == [get, Unmap(0), Erase(0), get];
    assert Run(c1, [Release(0), get, Unmap(0), Erase(0), get]) == c6;
    assert [get, Release(0), get, Unmap(0), Erase(0), get][1..] == [Release(0), get, Unmap(0), Erase(0), get];
  }

  // ---------------------------------------------------------------- the object that does it

  /** The global table under its mutex, and the objects its weak references point to. */
  class ReadableFiles {
    var files: map<string, nat>
    var objects: map<nat, Mapping>
    var nextId: nat

    ghost function State(): Cache
      reads this
    {
      Cache(files, objects, nextId)
    }

    constructor ()
      ensures State() == Empty()
    {
      files, objects, nextId := map[], map[], 0;
    }

    method Retrieve(path: string, size: Option<nat>, mapOk: bool) returns (id: Option<nat>)
      modifies this
      ensures id == Got(old(State()), path, size, mapOk)
      ensures State() == Step(old(State()), Get(path, size, mapOk))
    {
      if path in files {
        var existing := files[path];
        if existing in objects && objects[existing].phase.Alive? {
          objects := objects[existing := objects[existing].(refs := objects[existing].refs + 1)];
          return Some(existing);
        }
      }
      if path == "" || size.None? {
        return None;
      }
      var hasData := false;
      if size.value > 0 {
        if !mapOk {
          return None;
        }
        hasData := true;
      }
      objects := objects[nextId := Mapping(path, size.value, hasData, 1, Alive, 0)];
      files := files[path := nextId];
      nextId := nextId + 1;
      return Some(nextId - 1);
    }

    /** The part of the destructor before the lock. */
    method DestructorUnmaps(id: nat)
      requires id in objects && objects[id].phase.Dying?
      modifies this`objects
      ensures State() == Step(old(State()), Unmap(id))
    {
      var m := objects[id];
      if m.hasData {
        m := m.(unmaps := m.unmaps + 1);
      }
      objects := objects[id := m.(phase := Unmapped)];
    }

    /** The part of the destructor under the lock. */
    method DestructorErases(id: nat)
      requires id in objects && objects[id].phase.Unmapped?
      modifies this
      ensures State() == Step(old(State()), Erase(id))
    {
      var path := objects[id].path;
      if path != "" {
        files := files - {path};
      }
      objects := objects[id := objects[id].(phase := Gone)];
    }
  }
}
