/** Every step makes at most one system call that can change the tree, and makes it only with permission,
    at or below the user's root. */
module Calls {
  import opened Wrappers
  import opened Permissions
  import opened Users
  import opened Meaning
  import opened Resolution
  import opened Disks
  import opened Sessions

  /** Someone is logged in who holds the flag, and the place is at or below that user's root. */
  predicate Entitled(w: World, flag: Permission, p: Place) {
    && w.session.loggedInUser.Some?
    && May(w, flag)
    && RootPlace(w.session.loggedInUser.value.localRootPath, w.disk.here) <= p
  }

  /** What must hold for a call to be made. */
  predicate Permitted(w: World, call: Call) {
    match call
    case NoCall => true
    case Truncate(p, id) =>
      && Entitled(w, FILE_WRITE, p)
      && (p in w.disk.tree && w.disk.tree[p].File? ==> May(w, FILE_DELETE))
    case Append(p, id) => Entitled(w, FILE_APPEND, p)
    case Delete(p) => Entitled(w, FILE_DELETE, p)
    case RemoveDir(p) => Entitled(w, DIR_DELETE, p)
    case MakeDir(p) => Entitled(w, DIR_CREATE, p)
    case Move(source, target) =>
      && source in w.disk.tree && target !in w.disk.tree
      && Entitled(w, if w.disk.tree[source] == Dir then DIR_RENAME else FILE_RENAME, source)
      && RootPlace(w.session.loggedInUser.value.localRootPath, w.disk.here) <= target
    case WriteTo(id, data) => IsRunning(w, id, true)
    case CloseIt(id) => true
  }

  lemma TargetInRoot(w: World, path: string)
    requires w.session.loggedInUser.Some? && IsAbsolute(w.session.workingDirectory)
    ensures RootPlace(w.session.loggedInUser.value.localRootPath, w.disk.here) <= Target(w, path)
  {
    ConfinedPlace(w.session.loggedInUser.value.localRootPath, w.session.workingDirectory, path, w.disk.here);
  }

  lemma {:induction false} StouPermitted(w: World, env: Env, attempt: nat)
    requires w.session.loggedInUser.Some? && IsAbsolute(w.session.workingDirectory) && May(w, FILE_WRITE)
    ensures var change := StouFrom(w, env, attempt).change;
            change == Keep || (change.OnDisk? && Permitted(w, change.call))
    decreases MAX_ATTEMPTS - attempt
  {
    if attempt < MAX_ATTEMPTS {
      TargetInRoot(w, UniqueName(env, attempt));
      StouPermitted(w, env, attempt + 1);
    }
  }

  lemma RntoPermitted(w: World, path: string, env: Env)
    requires IsAbsolute(w.session.workingDirectory)
    ensures var change := Rnto(w, path, env).change;
            change == Keep || (change.OnDisk? && Permitted(w, change.call))
  {
    if Rnto(w, path, env).change != Keep {
      TargetInRoot(w, w.session.renameFromPath);
      TargetInRoot(w, path);
      CoversFlag(w.session.loggedInUser.value.permissions, DIR_RENAME);
      CoversFlag(w.session.loggedInUser.value.permissions, FILE_RENAME);
    }
  }

  lemma StorPermitted(w: World, path: string, env: Env)
    requires IsAbsolute(w.session.workingDirectory)
    ensures var change := Stor(w, path, env).change;
            change.OnDisk? ==> Permitted(w, change.call)
  {
    if w.session.loggedInUser.Some? {
      TargetInRoot(w, path);
    }
  }

  lemma AppePermitted(w: World, path: string, env: Env)
    requires IsAbsolute(w.session.workingDirectory)
    ensures var change := Appe(w, path, env).change;
            change.OnDisk? ==> Permitted(w, change.call)
  {
    if w.session.loggedInUser.Some? {
      TargetInRoot(w, path);
    }
  }

  lemma EntryPermitted(w: World, verb: Verb, param: string, env: Env)
    requires IsAbsolute(w.session.workingDirectory) && verb in {DELE, RMD, MKD}
    ensures var change := Dispatch(w, verb, param, env).change;
            change.OnDisk? ==> Permitted(w, change.call)
  {
    if w.session.loggedInUser.Some? {
      TargetInRoot(w, param);
    }
  }

  /** The change a command makes to the tree is a permitted call. */
  lemma DispatchPermitted(w: World, verb: Verb, param: string, env: Env)
    requires IsAbsolute(w.session.workingDirectory)
    ensures var change := Dispatch(w, verb, param, env).change;
            change.OnDisk? ==> Permitted(w, change.call)
  {
    if Dispatch(w, verb, param, env).change.OnDisk? {
      if verb == STOR {
        StorPermitted(w, param, env);
      } else if verb == APPE {
        AppePermitted(w, param, env);
      } else if verb in {DELE, RMD, MKD} {
        EntryPermitted(w, verb, param, env);
      } else if verb == RNTO {
        RntoPermitted(w, param, env);
      } else {
        assert verb == STOU;
        StouPermitted(w, env, 0);
      }
    }
  }

  // ---------------------------------------------------------------- what a session must hold to read

  /** A download begins only with the permission to read, on an open passive port, and of the local path that the
      client's path resolves to. */
  lemma DownloadNeedsPermission(w: World, verb: Verb, param: string, env: Env)
    requires var job := Dispatch(w, verb, param, env).job; job.Some? && job.value.SendFile?
    ensures w.session.loggedInUser.Some? && May(w, FILE_READ) && w.acceptorOpen
    ensures Dispatch(w, verb, param, env).job.value.local == Local(w, param)
  {
    assert verb == RETR;
  }

  /** A listing begins only with the permission to list, and only of a directory. */
  lemma ListingNeedsPermission(w: World, verb: Verb, param: string, env: Env)
    requires Dispatch(w, verb, param, env).job == Some(SendListing)
    ensures w.session.loggedInUser.Some? && May(w, DIR_LIST)
    ensures Stat(w.disk, Target(w, if verb == LIST then ListTarget(param) else param)) == Some(Dir)
  {
    assert verb == LIST || verb == NLST;
  }

  /** Without a login no command touches the tree, moves the working directory or begins a transfer. */
  lemma NothingWithoutLogin(w: World, verb: Verb, param: string, env: Env)
    requires w.session.loggedInUser.None?
    ensures var o := Dispatch(w, verb, param, env);
            && o.job.None?
            && (o.change.Keep? || o.change.NewName? || o.change.LogIn? || o.change.Leave? || o.change == SetRename(""))
  {
  }

  /** The call a step makes. */
  function CallOf(w: World, e: Event): Call {
    match e
    case Command(verb, param, env) =>
      if w.reading && Outcomes(w, verb, param, env).change.OnDisk? then Outcomes(w, verb, param, env).change.call
      else NoCall
    case Chunk(id, data) => if IsRunning(w, id, true) then WriteTo(id, data) else NoCall
    case Accepted(id, _) => if Step(w, e).disk != w.disk then CloseIt(id) else NoCall
    case UploadEnded(id) => if Step(w, e).disk != w.disk then CloseIt(id) else NoCall
    case Sent(id, _) => if Step(w, e).disk != w.disk then CloseIt(id) else NoCall
    case _ => NoCall
  }

  /** The step's effect on the tree is that of one permitted call. */
  lemma StepMakesPermittedCall(w: World, e: Event)
    requires IsAbsolute(w.session.workingDirectory)
    ensures Permitted(w, CallOf(w, e)) && Step(w, e).disk == Apply(w.disk, CallOf(w, e))
  {
    if e.Command? && w.reading && e.verb.Some? {
      DispatchPermitted(w, e.verb.value, e.param, e.env);
    }
  }

  // ---------------------------------------------------------------- what holds after every step

  /** The tree stays a tree, and the working directory stays absolute and clean. */
  ghost predicate Sound(w: World) {
    Valid(w.disk) && IsWorkingDirectory(w.session.workingDirectory)
  }

  lemma SlashIsWorkingDirectory()
    ensures IsWorkingDirectory("/")
  {
    AbsoluteFtpPathIsClean("/", "/");
    assert AbsoluteFtpPath("/", "/") == "/" by {
      Paths.ReduceNothing(true, [], false);
    }
  }

  /** Only changing directory moves the working directory, and only to a resolved path. */
  lemma DispatchGoesToResolved(w: World, verb: Verb, param: string, env: Env)
    ensures var change := Dispatch(w, verb, param, env).change;
            change.GoTo? ==> change.dir == AbsoluteFtpPath(w.session.workingDirectory, if verb == CDUP then ".." else param)
  {
  }

  lemma {:induction false} StouKeepsOrOpens(w: World, env: Env, attempt: nat)
    requires w.session.loggedInUser.Some?
    ensures var change := StouFrom(w, env, attempt).change; change == Keep || change.OnDisk?
    decreases MAX_ATTEMPTS - attempt
  {
    if attempt < MAX_ATTEMPTS {
      StouKeepsOrOpens(w, env, attempt + 1);
    }
  }

  lemma ChangeKeepsDirectory(w: World, verb: Verb, param: string, env: Env)
    requires IsWorkingDirectory(w.session.workingDirectory)
    ensures IsWorkingDirectory(SessionAfter(w.session, Dispatch(w, verb, param, env).change).workingDirectory)
  {
    DispatchGoesToResolved(w, verb, param, env);
    var path := if verb == CDUP then ".." else param;
    assert IsWorkingDirectory(AbsoluteFtpPath(w.session.workingDirectory, path)) by {
      AbsoluteFtpPathIsClean(w.session.workingDirectory, path);
    }
    SlashIsWorkingDirectory();
  }

  lemma StepKeepsDirectory(w: World, e: Event)
    requires IsWorkingDirectory(w.session.workingDirectory)
    ensures IsWorkingDirectory(Step(w, e).session.workingDirectory)
  {
    if e.Command? && e.verb.Some? && w.reading {
      ChangeKeepsDirectory(w, e.verb.value, e.param, e.env);
      assert Step(w, e).session.workingDirectory ==
             SessionAfter(w.session, Dispatch(w, e.verb.value, e.param, e.env).change).workingDirectory;
    } else {
      assert Step(w, e).session.workingDirectory == w.session.workingDirectory;
    }
  }

  lemma StepSound(w: World, e: Event)
    requires Sound(w)
    ensures Sound(Step(w, e)) && Step(w, e).disk.here == w.disk.here
  {
    StepMakesPermittedCall(w, e);
    ApplyValid(w.disk, CallOf(w, e));
    StepKeepsDirectory(w, e);
  }

  /** In every reachable state the working directory starts with "/" and is a fixed point of cleaning. */
  lemma {:induction false} RunSound(w: World, events: seq<Event>)
    requires Sound(w)
    ensures Sound(Run(w, events)) && Run(w, events).disk.here == w.disk.here
    decreases |events|
  {
    if events != [] {
      RunSound(w, events[..|events| - 1]);
      StepSound(Run(w, events[..|events| - 1]), events[|events| - 1]);
    }
  }

  lemma StartSound(users: UserTable, disk: Disk)
    requires Valid(disk)
    ensures Sound(Start(users, disk))
  {
    SlashIsWorkingDirectory();
  }

  /** In every reachable state, what a download reads lies at or below the root of the user who is logged in. */
  lemma ReachableDownloadsConfined(w: World, events: seq<Event>, verb: Verb, param: string, env: Env)
    requires Sound(w)
    ensures var m := Run(w, events);
            var job := Dispatch(m, verb, param, env).job;
            job.Some? && job.value.SendFile? ==>
              && m.session.loggedInUser.Some? && May(m, FILE_READ)
              && RootPlace(m.session.loggedInUser.value.localRootPath, m.disk.here) <= At(m.disk, job.value.local)
  {
    var m := Run(w, events);
    var job := Dispatch(m, verb, param, env).job;
    if job.Some? && job.value.SendFile? {
      DownloadNeedsPermission(m, verb, param, env);
      RunSound(w, events);
      TargetInRoot(m, param);
    }
  }

  /** In every reachable state, whatever path the client names, the place it resolves to for the user logged in
      lies at or below the place of that user's root, by names only. */
  lemma ReachableTargetsConfined(w: World, events: seq<Event>, path: string)
    requires Sound(w) && Run(w, events).session.loggedInUser.Some?
    ensures var m := Run(w, events);
            var top := RootPlace(m.session.loggedInUser.value.localRootPath, m.disk.here);
            exists names :: IsDirectory(names) && Target(m, path) == top + names
  {
    RunSound(w, events);
    var m := Run(w, events);
    AbsoluteFtpPathIsClean(m.session.workingDirectory, path);
    ConfinedPlace(m.session.loggedInUser.value.localRootPath, m.session.workingDirectory, path, m.disk.here);
  }
}
