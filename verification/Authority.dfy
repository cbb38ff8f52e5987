/** What the permission masks and local roots of those who log in guarantee over whole runs of a session. */
module Authority {
  import opened Wrappers
  import opened Permissions
  import opened Users
  import opened Meaning
  import opened Resolution
  import opened Disks
  import opened Sessions
  import opened Calls
  import opened Histories

  // ---------------------------------------------------------------- who acts

  /** The user logged in when event k happens. */
  function Actor(w: World, events: seq<Event>, k: nat): Option<FtpUser>
    requires k < |events|
  {
    Before(w, events, k).session.loggedInUser
  }

  predicate UserLacks(user: Option<FtpUser>, flags: set<Permission>) {
    user.Some? ==> LacksAll(user.value.permissions, flags)
  }

  /** Whoever is logged in during the run holds none of the flags; others in the table may. */
  predicate ActorsLack(w: World, events: seq<Event>, flags: set<Permission>) {
    forall k | 0 <= k < |events| :: UserLacks(Actor(w, events, k), flags)
  }

  lemma ActorInPrefix(w: World, events: seq<Event>, n: nat, k: nat)
    requires k < n <= |events|
    ensures Actor(w, events[..n], k) == Actor(w, events, k)
  {
    BeforeInPrefix(w, events, n, k);
  }

  lemma ActorsLackBefore(w: World, events: seq<Event>, flags: set<Permission>)
    requires events != [] && ActorsLack(w, events, flags)
    ensures var before := events[..|events| - 1];
            ActorsLack(w, before, flags) && UserLacks(Run(w, before).session.loggedInUser, flags)
  {
    var n := |events| - 1;
    forall k | 0 <= k < n ensures UserLacks(Actor(w, events[..n], k), flags) {
      ActorInPrefix(w, events, n, k);
    }
    assert UserLacks(Actor(w, events, n), flags);
  }

  // ---------------------------------------------------------------- files that survive

  /** The file at p was there at the start and nobody had it open for writing. */
  predicate Settled(d: Disk, p: Place) {
    p in d.tree && d.tree[p].File? && d.tree[p].ino in d.content && !IsOpen(d, d.tree[p].ino)
  }

  /** Every settled file is still at its place, its old content a prefix of the new;
      whoever writes to it now writes at the end, and only if appending is allowed. */
  ghost predicate Kept(start: Disk, d: Disk, appending: bool) {
    forall p | Settled(start, p) ::
      && p in d.tree && d.tree[p] == start.tree[p] && start.tree[p].ino in d.content
      && start.content[start.tree[p].ino] <= d.content[start.tree[p].ino]
      && (!appending ==> d.content[start.tree[p].ino] == start.content[start.tree[p].ino])
      && forall id | id in d.handles && d.handles[id].ino == start.tree[p].ino :: appending && d.handles[id].append
  }

  /** A call that neither removes, moves nor overwrites a file. */
  predicate Harmless(d: Disk, call: Call, appending: bool) {
    match call
    case Truncate(p, _) => p !in d.tree || !d.tree[p].File?
    case Append(_, _) => appending
    case Delete(_) => false
    case Move(_, _) => false
    case _ => true
  }

  lemma WriteKeeps(start: Disk, d: Disk, id: nat, data: string, appending: bool)
    requires Valid(d) && Kept(start, d, appending)
    ensures Kept(start, Write(d, id, data), appending)
  {
  }

  lemma ApplyKeeps(start: Disk, d: Disk, call: Call, appending: bool)
    requires Valid(d) && Kept(start, d, appending) && Harmless(d, call, appending)
    ensures Kept(start, Apply(d, call), appending)
  {
    if call.WriteTo? {
      WriteKeeps(start, d, call.id, call.data, appending);
    }
  }

  const TAKING: set<Permission> := {FILE_DELETE, FILE_RENAME, DIR_RENAME}

  /** What the user logged in may not do, for files to survive. */
  function Withheld(appending: bool): set<Permission> {
    if appending then TAKING else TAKING + {FILE_APPEND}
  }

  lemma PermittedIsHarmless(w: World, call: Call, appending: bool)
    requires Permitted(w, call) && UserLacks(w.session.loggedInUser, Withheld(appending))
    ensures Harmless(w.disk, call, appending)
  {
  }

  lemma {:induction false} RunKeeps(w: World, events: seq<Event>, appending: bool)
    requires Sound(w) && ActorsLack(w, events, Withheld(appending))
    ensures Kept(w.disk, Run(w, events).disk, appending)
    decreases |events|
  {
    if events != [] {
      var before, last := events[..|events| - 1], events[|events| - 1];
      var m := Run(w, before);
      ActorsLackBefore(w, events, Withheld(appending));
      RunKeeps(w, before, appending);
      RunSound(w, before);
      StepMakesPermittedCall(m, last);
      PermittedIsHarmless(m, CallOf(m, last), appending);
      ApplyKeeps(w.disk, m.disk, CallOf(m, last), appending);
    }
  }

  /** If nobody who logs in may delete or rename, every file that was there and not being written survives the run
      at its place, with its old content as a prefix; with unchanged content if none of them may append either. */
  lemma FilesSurvive(w: World, events: seq<Event>, p: Place)
    requires Sound(w) && ActorsLack(w, events, TAKING) && Settled(w.disk, p)
    ensures var ino, d := w.disk.tree[p].ino, Run(w, events).disk;
            && p in d.tree && d.tree[p] == w.disk.tree[p] && ino in d.content
            && w.disk.content[ino] <= d.content[ino]
            && (ActorsLack(w, events, TAKING + {FILE_APPEND}) ==> d.content[ino] == w.disk.content[ino])
  {
    RunKeeps(w, events, true);
    if ActorsLack(w, events, TAKING + {FILE_APPEND}) {
      RunKeeps(w, events, false);
    }
  }

  // ---------------------------------------------------------------- nothing changes

  lemma ReadersOnlyCloseOrWrite(w: World, call: Call)
    requires Permitted(w, call) && UserLacks(w.session.loggedInUser, CHANGING)
    ensures call.NoCall? || call.WriteTo? || call.CloseIt?
  {
  }

  /** If nobody who logs in holds a permission to change something, the run changes nothing. */
  lemma {:induction false} ReadersChangeNothing(w: World, events: seq<Event>)
    requires Sound(w) && w.disk.handles == map[] && ActorsLack(w, events, CHANGING)
    ensures Run(w, events).disk == w.disk
    decreases |events|
  {
    if events != [] {
      var before, last := events[..|events| - 1], events[|events| - 1];
      var m := Run(w, before);
      ActorsLackBefore(w, events, CHANGING);
      ReadersChangeNothing(w, before);
      RunSound(w, before);
      StepMakesPermittedCall(m, last);
      ReadersOnlyCloseOrWrite(m, CallOf(m, last));
    }
  }

  // ---------------------------------------------------------------- nothing changes outside the roots

  /** At or below one of the given places. */
  predicate InZone(zone: set<Place>, p: Place) {
    exists top | top in zone :: top <= p
  }

  predicate RootedIn(user: FtpUser, here: Place, zone: set<Place>) {
    RootPlace(user.localRootPath, here) in zone
  }

  predicate UserRootedIn(user: Option<FtpUser>, here: Place, zone: set<Place>) {
    user.Some? ==> RootedIn(user.value, here, zone)
  }

  /** The roots of those who log in during the run are in the zone; those of other users may be anywhere. */
  predicate ActorsRootedIn(w: World, events: seq<Event>, zone: set<Place>) {
    forall k | 0 <= k < |events| :: UserRootedIn(Actor(w, events, k), w.disk.here, zone)
  }

  lemma ActorsRootedBefore(w: World, events: seq<Event>, zone: set<Place>)
    requires events != [] && ActorsRootedIn(w, events, zone)
    ensures var before := events[..|events| - 1];
            && ActorsRootedIn(w, before, zone)
            && UserRootedIn(Run(w, before).session.loggedInUser, w.disk.here, zone)
  {
    var n := |events| - 1;
    forall k | 0 <= k < n ensures UserRootedIn(Actor(w, events[..n], k), w.disk.here, zone) {
      ActorInPrefix(w, events, n, k);
    }
    assert UserRootedIn(Actor(w, events, n), w.disk.here, zone);
  }

  /** A file that no place in the zone names and no handle has open. */
  ghost predicate Foreign(d: Disk, ino: nat, zone: set<Place>) {
    && ino in d.content
    && (forall p | p in d.tree && d.tree[p] == File(ino) :: !InZone(zone, p))
    && (forall id | id in d.handles :: d.handles[id].ino != ino)
  }

  ghost predicate Untouched(start: Disk, d: Disk, zone: set<Place>) {
    && (forall p | !InZone(zone, p) :: (p in d.tree <==> p in start.tree) && (p in d.tree ==> d.tree[p] == start.tree[p]))
    && (forall ino | Foreign(start, ino, zone) :: Foreign(d, ino, zone) && d.content[ino] == start.content[ino])
  }

  predicate Within(call: Call, zone: set<Place>) {
    match call
    case Truncate(p, _) => InZone(zone, p)
    case Append(p, _) => InZone(zone, p)
    case Delete(p) => InZone(zone, p)
    case RemoveDir(p) => InZone(zone, p)
    case MakeDir(p) => InZone(zone, p)
    case Move(source, target) => InZone(zone, source) && InZone(zone, target)
    case _ => true
  }

  lemma MoveLeavesOutside(d: Disk, source: Place, target: Place, zone: set<Place>, p: Place)
    requires Valid(d) && Rename(d, source, target).Some? && Within(Move(source, target), zone) && !InZone(zone, p)
    ensures var tree := Rename(d, source, target).value.tree;
            (p in tree <==> p in d.tree) && (p in tree ==> tree[p] == d.tree[p])
  {
  }

  lemma MoveLeavesForeign(d: Disk, source: Place, target: Place, zone: set<Place>, ino: nat)
    requires Valid(d) && Rename(d, source, target).Some? && Within(Move(source, target), zone) && Foreign(d, ino, zone)
    ensures Foreign(Rename(d, source, target).value, ino, zone)
  {
  }

  lemma MoveStaysInside(d: Disk, source: Place, target: Place, zone: set<Place>)
    requires Valid(d) && Rename(d, source, target).Some? && Within(Move(source, target), zone)
    ensures Untouched(d, Rename(d, source, target).value, zone)
  {
    var d' := Rename(d, source, target).value;
    forall p | !InZone(zone, p)
      ensures (p in d'.tree <==> p in d.tree) && (p in d'.tree ==> d'.tree[p] == d.tree[p])
    {
      MoveLeavesOutside(d, source, target, zone, p);
    }
    forall ino | Foreign(d, ino, zone) ensures Foreign(d', ino, zone) && d'.content[ino] == d.content[ino] {
      MoveLeavesForeign(d, source, target, zone, ino);
    }
  }

  lemma TruncateStaysInside(d: Disk, p: Place, id: nat, zone: set<Place>)
    requires Valid(d) && InZone(zone, p) && OpenTruncated(d, p, id).Some?
    ensures Untouched(d, OpenTruncated(d, p, id).value, zone)
  {
  }

  lemma AppendStaysInside(d: Disk, p: Place, id: nat, zone: set<Place>)
    requires Valid(d) && InZone(zone, p) && OpenAppending(d, p, id).Some?
    ensures Untouched(d, OpenAppending(d, p, id).value, zone)
  {
  }

  lemma ApplyStaysInside(d: Disk, call: Call, zone: set<Place>)
    requires Valid(d) && Within(call, zone)
    ensures Untouched(d, Apply(d, call), zone)
  {
    if call.Move? {
      if Rename(d, call.source, call.target).Some? {
        MoveStaysInside(d, call.source, call.target, zone);
      }
    } else if call.Truncate? && Succeeds(d, call) {
      TruncateStaysInside(d, call.p, call.id, zone);
    } else if call.Append? && Succeeds(d, call) {
      AppendStaysInside(d, call.p, call.id, zone);
    }
  }

  lemma UntouchedTransitive(a: Disk, b: Disk, c: Disk, zone: set<Place>)
    requires Untouched(a, b, zone) && Untouched(b, c, zone)
    ensures Untouched(a, c, zone)
  {
  }

  lemma PermittedIsWithin(w: World, call: Call, zone: set<Place>)
    requires Permitted(w, call) && UserRootedIn(w.session.loggedInUser, w.disk.here, zone)
    ensures Within(call, zone)
  {
    if w.session.loggedInUser.Some? {
      assert RootPlace(w.session.loggedInUser.value.localRootPath, w.disk.here) in zone;
    }
  }

  /** The run changes, adds or removes nothing outside the local roots of those who log in, nor the content of a
      file that only stands outside: the roots of all other users are left alone. */
  lemma {:induction false} RunsStayInside(w: World, events: seq<Event>, zone: set<Place>)
    requires Sound(w) && ActorsRootedIn(w, events, zone)
    ensures Untouched(w.disk, Run(w, events).disk, zone)
    decreases |events|
  {
    if events != [] {
      var before, last := events[..|events| - 1], events[|events| - 1];
      var m := Run(w, before);
      ActorsRootedBefore(w, events, zone);
      RunsStayInside(w, before, zone);
      RunSound(w, before);
      StepMakesPermittedCall(m, last);
      PermittedIsWithin(m, CallOf(m, last), zone);
      ApplyStaysInside(m.disk, CallOf(m, last), zone);
      UntouchedTransitive(w.disk, m.disk, Step(m, last).disk, zone);
    }
  }

  // ---------------------------------------------------------------- whoever there is in the table

  /** Someone who is logged in or has an entry in the table. */
  predicate Known(w: World, user: FtpUser) {
    || w.session.loggedInUser == Some(user)
    || w.users.anonymous == Some(user)
    || user in w.users.named.Values
  }

  lemma OutcomeLogsInKnown(w: World, e: Event, user: FtpUser)
    requires e.Command? && Outcomes(w, e.verb, e.param, e.env).change == LogIn(user)
    ensures Known(w, user)
  {
  }

  /** Nobody becomes known but by being added. */
  lemma StepKnows(w: World, e: Event, user: FtpUser)
    requires Known(Step(w, e), user)
    ensures Known(w, user) || (e.UserAdded? && e.user == user)
  {
    if e.Command? && w.reading {
      var change := Outcomes(w, e.verb, e.param, e.env).change;
      assert Step(w, e).session.loggedInUser == SessionAfter(w.session, change).loggedInUser && Step(w, e).users == w.users;
      if change.LogIn? {
        OutcomeLogsInKnown(w, e, change.user);
      }
    }
  }

  /** Only users of the table, or added later, ever act. */
  lemma {:induction false} ActorsAreKnown(w: World, events: seq<Event>, user: FtpUser)
    requires Known(Run(w, events), user)
    ensures Known(w, user) || exists i | 0 <= i < |events| :: events[i].UserAdded? && events[i].user == user
    decreases |events|
  {
    if events != [] {
      var before, last := events[..|events| - 1], events[|events| - 1];
      StepKnows(Run(w, before), last, user);
      if Known(Run(w, before), user) {
        ActorsAreKnown(w, before, user);
        assert forall i | 0 <= i < |before| :: before[i] == events[i];
      } else {
        assert events[|events| - 1].UserAdded?;
      }
    }
  }

  /** A server all of whose users are read-only never changes the tree, whatever commands are sent. */
  lemma ReadOnlyServerChangesNothing(users: UserTable, disk: Disk, events: seq<Event>)
    requires Valid(disk) && disk.handles == map[]
    requires forall user | Known(Start(users, disk), user) :: user.permissions == READ_ONLY
    requires forall i | 0 <= i < |events| && events[i].UserAdded? :: events[i].user.permissions == READ_ONLY
    ensures Run(Start(users, disk), events).disk == disk
  {
    var w := Start(users, disk);
    StartSound(users, disk);
    ReadOnlyChangesNothing(FILE_READ);
    forall k | 0 <= k < |events| ensures UserLacks(Actor(w, events, k), CHANGING) {
      if Actor(w, events, k).Some? {
        ActorsAreKnown(w, events[..k], Actor(w, events, k).value);
        assert forall i | 0 <= i < k :: events[..k][i] == events[i];
      }
    }
    ReadersChangeNothing(w, events);
  }

  /** No session changes anything outside the local roots of all users there are, or are added, together. */
  lemma ServerStaysInside(w: World, events: seq<Event>, zone: set<Place>)
    requires Sound(w)
    requires forall user | Known(w, user) :: RootedIn(user, w.disk.here, zone)
    requires forall i | 0 <= i < |events| && events[i].UserAdded? :: RootedIn(events[i].user, w.disk.here, zone)
    ensures Untouched(w.disk, Run(w, events).disk, zone)
  {
    forall k | 0 <= k < |events| ensures UserRootedIn(Actor(w, events, k), w.disk.here, zone) {
      if Actor(w, events, k).Some? {
        ActorsAreKnown(w, events[..k], Actor(w, events, k).value);
        assert forall i | 0 <= i < k :: events[..k][i] == events[i];
      }
    }
    RunsStayInside(w, events, zone);
  }

  /** With other roots elsewhere: as long as only users of one root log in, nothing of another root changes. */
  lemma OtherRootsLeftAlone(w: World, events: seq<Event>, mine: Place, other: Place, p: Place)
    requires Sound(w) && ActorsRootedIn(w, events, {mine})
    requires !(mine <= other) && !(other <= mine) && other <= p
    ensures var d := Run(w, events).disk;
            (p in d.tree <==> p in w.disk.tree) && (p in d.tree ==> d.tree[p] == w.disk.tree[p])
  {
    RunsStayInside(w, events, {mine});
    PrefixesComparable(mine, other, p);
    assert !InZone({mine}, p);
  }

  lemma PrefixesComparable(a: Place, b: Place, p: Place)
    ensures a <= p && b <= p ==> a <= b || b <= a
  {
  }
}
