/** What the history of a session says about its present: who is logged in, what a rename moves,
    how far up one can go, and which replies have been given. */
module Histories {
  import opened Wrappers
  import opened Users
  import opened Meaning
  import opened Resolution
  import opened Disks
  import opened ReplyText
  import opened Sessions
  import opened Calls

  // ---------------------------------------------------------------- looking back

  /** The state before event k. */
  function Before(w: World, events: seq<Event>, k: nat): World
    requires k <= |events|
  {
    Run(w, events[..k])
  }

  /** The recognized command handled by event k, if it handled one. */
  function VerbAt(w: World, events: seq<Event>, k: nat): Option<Verb>
    requires k < |events|
  {
    if events[k].Command? && Before(w, events, k).reading then events[k].verb else None
  }

  lemma BeforeInPrefix(w: World, events: seq<Event>, n: nat, k: nat)
    requires k <= n <= |events|
    ensures Before(w, events[..n], k) == Before(w, events, k)
    ensures k < n ==> VerbAt(w, events[..n], k) == VerbAt(w, events, k)
  {
    assert events[..n][..k] == events[..k];
  }

  lemma BeforeNext(w: World, events: seq<Event>, k: nat)
    requires k < |events|
    ensures Before(w, events, k + 1) == Step(Before(w, events, k), events[k])
  {
    assert events[..k + 1][..k] == events[..k];
  }

  /** No recognized command was handled from event k on. */
  predicate QuietSince(w: World, events: seq<Event>, k: nat) {
    forall i | k <= i < |events| :: VerbAt(w, events, i).None?
  }

  /** What an unrecognized command and the ends of transfers leave alone. */
  predicate SameSession(a: World, b: World) {
    a.session == b.session && a.disk.here == b.disk.here
  }

  lemma StepWithoutVerb(w: World, e: Event)
    requires Sound(w)
    requires e.Command? && w.reading ==> e.verb.None?
    ensures SameSession(w, Step(w, e))
  {
    StepSound(w, e);
  }

  lemma {:induction false} QuietKeepsSession(w: World, events: seq<Event>, k: nat)
    requires Sound(w) && k <= |events| && QuietSince(w, events, k)
    ensures SameSession(Before(w, events, k), Run(w, events))
    decreases |events|
  {
    var n := |events| - 1;
    if k == |events| {
      assert events[..k] == events;
    } else {
      var before := events[..n];
      forall i | k <= i < n ensures VerbAt(w, before, i).None? {
        BeforeInPrefix(w, events, n, i);
      }
      QuietKeepsSession(w, before, k);
      BeforeInPrefix(w, events, n, k);
      RunSound(w, before);
      assert VerbAt(w, events, n).None?;
      StepWithoutVerb(Run(w, before), events[n]);
    }
  }

  /** The remembered command was handled by some event, and nothing recognized since. */
  predicate LastHandledAt(w: World, events: seq<Event>, verb: Verb, k: nat) {
    k < |events| && VerbAt(w, events, k) == Some(verb) && QuietSince(w, events, k + 1)
  }

  lemma StepLastCommand(w: World, e: Event)
    ensures Step(w, e).session.lastCommand == if e.Command? && w.reading && e.verb.Some? then e.verb else w.session.lastCommand
  {
  }

  lemma {:induction false} LastCommandWasHandled(w: World, events: seq<Event>, verb: Verb)
    requires w.session.lastCommand.None? && Run(w, events).session.lastCommand == Some(verb)
    ensures exists k: nat :: LastHandledAt(w, events, verb, k)
    decreases |events|
  {
    var n := |events| - 1;
    assert n >= 0;
    var before := events[..n];
    StepLastCommand(Run(w, before), events[n]);
    if VerbAt(w, events, n).Some? {
      assert LastHandledAt(w, events, verb, n);
    } else {
      LastCommandWasHandled(w, before, verb);
      var k: nat :| LastHandledAt(w, before, verb, k);
      BeforeInPrefix(w, events, n, k);
      forall i | k < i < |events| ensures VerbAt(w, events, i).None? {
        if i < n {
          BeforeInPrefix(w, events, n, i);
          assert VerbAt(w, before, i).None?;
        }
      }
      assert LastHandledAt(w, events, verb, k);
    }
  }

  // ---------------------------------------------------------------- who is logged in

  /** A USER with a name, next a PASS that the table accepted, and neither USER nor QUIT since. */
  predicate Justifies(w: World, events: seq<Event>, user: FtpUser, i: nat, j: nat) {
    && i < j < |events|
    && VerbAt(w, events, i) == Some(USER) && events[i].param != ""
    && VerbAt(w, events, j) == Some(PASS)
    && (forall k | i < k < j :: VerbAt(w, events, k).None?)
    && (forall k | j < k < |events| :: VerbAt(w, events, k) != Some(USER) && VerbAt(w, events, k) != Some(QUIT))
    && Lookup(Before(w, events, j).users, events[i].param, events[j].param) == Some(user)
    && (events[i].param !in {"ftp", "anonymous"} ==> events[j].param == user.password)
  }

  /** The login is still good: the same name and password would give the same user now. */
  predicate StillGood(w: World, events: seq<Event>, user: FtpUser, i: nat, j: nat) {
    && i < |events| && j < |events| && events[i].Command? && events[j].Command?
    && Lookup(Run(w, events).users, events[i].param, events[j].param) == Some(user)
  }

  lemma HandledUser(w: World, param: string, env: Env)
    requires w.reading
    ensures Step(w, Command(Some(USER), param, env)).session.usernameForLogin == param
  {
  }

  lemma StepLogin(w: World, e: Event)
    ensures var w' := Step(w, e);
            if e.Command? && w.reading && e.verb == Some(PASS) && w.session.lastCommand == Some(USER) && w.session.usernameForLogin != ""
               && Lookup(w.users, w.session.usernameForLogin, e.param).Some?
            then w'.session.loggedInUser == Lookup(w.users, w.session.usernameForLogin, e.param)
            else if e.Command? && w.reading && (e.verb == Some(USER) || e.verb == Some(QUIT)) then w'.session.loggedInUser.None?
            else w'.session.loggedInUser == w.session.loggedInUser
  {
  }

  lemma StepKeepsLookups(w: World, e: Event, name: string, password: string)
    requires Lookup(w.users, name, password).Some?
    ensures Lookup(Step(w, e).users, name, password) == Lookup(w.users, name, password)
  {
  }

  /** The PASS that logs somebody in directly follows, among recognized commands, the USER whose name it uses. */
  lemma LoginBegins(w: World, events: seq<Event>, user: FtpUser)
    requires Sound(w) && w.session.lastCommand.None? && events != []
    requires var j := |events| - 1; var m := Before(w, events, j);
             && VerbAt(w, events, j) == Some(PASS) && m.session.lastCommand == Some(USER) && m.session.usernameForLogin != ""
             && Lookup(m.users, m.session.usernameForLogin, events[j].param) == Some(user)
    ensures var j := |events| - 1;
            exists i: nat :: Justifies(w, events, user, i, j) && StillGood(w, events, user, i, j)
  {
    var j := |events| - 1;
    var before := events[..j];
    LastCommandWasHandled(w, before, USER);
    var i: nat :| LastHandledAt(w, before, USER, i);
    QuietKeepsSession(w, before, i + 1);
    BeforeNext(w, before, i);
    HandledUser(Before(w, before, i), before[i].param, before[i].env);
    forall k | i <= k < j ensures VerbAt(w, events, k) == VerbAt(w, before, k) {
      BeforeInPrefix(w, events, j, k);
    }
    StepKeepsLookups(Run(w, before), events[j], events[i].param, events[j].param);
    assert Justifies(w, events, user, i, j);
    assert StillGood(w, events, user, i, j);
  }

  lemma JustifiesOneMore(w: World, events: seq<Event>, user: FtpUser, i: nat, j: nat)
    requires events != [] && Justifies(w, events[..|events| - 1], user, i, j)
    requires VerbAt(w, events, |events| - 1) !in {Some(USER), Some(QUIT)}
    ensures Justifies(w, events, user, i, j)
  {
    var n := |events| - 1;
    var before := events[..n];
    BeforeInPrefix(w, events, n, i);
    BeforeInPrefix(w, events, n, j);
    forall k | i < k < j ensures VerbAt(w, events, k).None? {
      BeforeInPrefix(w, events, n, k);
      assert VerbAt(w, before, k).None?;
    }
    forall k | j < k < |events| ensures VerbAt(w, events, k) != Some(USER) && VerbAt(w, events, k) != Some(QUIT) {
      if k < n {
        BeforeInPrefix(w, events, n, k);
        assert VerbAt(w, before, k) != Some(USER);
      }
    }
  }

  lemma StillGoodOneMore(w: World, events: seq<Event>, user: FtpUser, i: nat, j: nat)
    requires events != [] && StillGood(w, events[..|events| - 1], user, i, j)
    ensures StillGood(w, events, user, i, j)
  {
  }

  /** Whoever is logged in, in any reachable state, got there by a USER and PASS pair that is still good. */
  lemma {:induction false} LoginJustified(w: World, events: seq<Event>)
    requires Sound(w) && w.session.lastCommand.None? && w.session.loggedInUser.None?
    ensures var user := Run(w, events).session.loggedInUser;
            user.Some? ==>
              exists i: nat, j: nat :: Justifies(w, events, user.value, i, j) && StillGood(w, events, user.value, i, j)
    decreases |events|
  {
    var user := Run(w, events).session.loggedInUser;
    if user.Some? {
      var n := |events| - 1;
      assert n >= 0;
      var before := events[..n];
      var m := Run(w, before);
      StepLogin(m, events[n]);
      if VerbAt(w, events, n) == Some(PASS) && m.session.lastCommand == Some(USER) && m.session.usernameForLogin != ""
         && Lookup(m.users, m.session.usernameForLogin, events[n].param).Some?
      {
        LoginBegins(w, events, user.value);
      } else {
        LoginJustified(w, before);
        var i: nat, j: nat :| Justifies(w, before, user.value, i, j) && StillGood(w, before, user.value, i, j);
        JustifiesOneMore(w, events, user.value, i, j);
        StillGoodOneMore(w, events, user.value, i, j);
      }
    }
  }

  /** The users added during a run. */
  function AdditionsOf(events: seq<Event>): seq<Addition> {
    if events == [] then [] else
    var last := events[|events| - 1];
    AdditionsOf(events[..|events| - 1]) + if last.UserAdded? then [Addition(last.name, last.user)] else []
  }

  lemma {:induction false} UsersAreAdditions(w: World, events: seq<Event>)
    ensures Run(w, events).users == AddAll(w.users, AdditionsOf(events))
    decreases |events|
  {
    if events != [] {
      var before, last := events[..|events| - 1], events[|events| - 1];
      UsersAreAdditions(w, before);
      StepAdds(Run(w, before), last);
      AddAllConcat(w.users, AdditionsOf(before), if last.UserAdded? then [Addition(last.name, last.user)] else []);
    }
  }

  lemma StepAdds(w: World, e: Event)
    ensures Step(w, e).users == AddAll(w.users, if e.UserAdded? then [Addition(e.name, e.user)] else [])
  {
    if e.UserAdded? {
      assert [Addition(e.name, e.user)][1..] == [];
    }
  }

  /** In plain terms: whoever is logged in was the first user added under the name that USER gave, before PASS was
      handled, and PASS gave that user's password; or USER gave "ftp" or "anonymous", and it is the first user added
      under an anonymous name. */
  lemma LoggedInIsFirstAdded(added: seq<Addition>, disk: Disk, events: seq<Event>)
    requires Valid(disk)
    ensures var w := Start(AddAll(UserTable(map[], None), added), disk);
            var user := Run(w, events).session.loggedInUser;
            user.Some? ==>
              exists i: nat, j: nat :: Justifies(w, events, user.value, i, j)
                && var name, all := events[i].param, added + AdditionsOf(events[..j]);
                   if name in {"ftp", "anonymous"} then FirstNamed(all, {"", "ftp", "anonymous"}) == user
                   else FirstNamed(all, {name}) == user && user.value.password == events[j].param
  {
    var w := Start(AddAll(UserTable(map[], None), added), disk);
    var user := Run(w, events).session.loggedInUser;
    StartSound(w.users, disk);
    LoginJustified(w, events);
    if user.Some? {
      var i: nat, j: nat :| Justifies(w, events, user.value, i, j) && StillGood(w, events, user.value, i, j);
      UsersAreAdditions(w, events[..j]);
      AddAllConcat(UserTable(map[], None), added, AdditionsOf(events[..j]));
      LookupIsFirst(added + AdditionsOf(events[..j]), events[i].param, events[j].param);
    }
  }

  // ---------------------------------------------------------------- what a rename moves

  lemma HandledRnfr(w: World, param: string, env: Env)
    requires w.reading
    ensures var w' := Step(w, Command(Some(RNFR), param, env));
            && w'.session.renameFromPath == (if Renamable(w, param) == 200 then param else "")
            && w'.session.loggedInUser == w.session.loggedInUser && w'.session.workingDirectory == w.session.workingDirectory
  {
  }

  /** Event k was the RNFR that checked the path which is moved now, for the same user in the same directory. */
  predicate Checked(w: World, events: seq<Event>, k: nat, source: Place) {
    && k < |events| && LastHandledAt(w, events, RNFR, k)
    && var m := Before(w, events, k);
       && m.session.loggedInUser.Some? && m.session.loggedInUser == Run(w, events).session.loggedInUser
       && m.session.workingDirectory == Run(w, events).session.workingDirectory
       && Renamable(m, events[k].param) == 200
       && Local(m, events[k].param) == Local(Run(w, events), Run(w, events).session.renameFromPath)
       && Target(m, events[k].param) == source
  }

  lemma StepResponds(w: World, verb: Option<Verb>, param: string, env: Env)
    requires w.reading
    ensures Step(w, Command(verb, param, env)) == Respond(w, verb, Outcomes(w, verb, param, env))
  {
  }

  lemma RespondDisk(w: World, verb: Option<Verb>, o: Outcome)
    requires o.change.OnDisk?
    ensures Respond(w, verb, o).disk == Apply(w.disk, o.change.call)
  {
  }

  lemma MoveSucceeds(d: Disk, call: Call)
    requires call.Move? && Succeeds(d, call)
    ensures call.target !in d.tree && Rename(d, call.source, call.target) == Some(Apply(d, call))
  {
  }

  /** The path to be moved was checked by the latest RNFR. */
  lemma RnfrFound(w: World, events: seq<Event>)
    requires Sound(w) && w.session.lastCommand.None?
    requires var m := Run(w, events).session;
             m.lastCommand == Some(RNFR) && m.renameFromPath != "" && m.loggedInUser.Some?
    ensures exists k: nat :: Checked(w, events, k, Target(Run(w, events), Run(w, events).session.renameFromPath))
  {
    LastCommandWasHandled(w, events, RNFR);
    var k: nat :| LastHandledAt(w, events, RNFR, k);
    QuietKeepsSession(w, events, k + 1);
    BeforeNext(w, events, k);
    HandledRnfr(Before(w, events, k), events[k].param, events[k].env);
    RunSound(w, events[..k]);
    RunSound(w, events);
    assert Checked(w, events, k, Target(Run(w, events), Run(w, events).session.renameFromPath));
  }

  /** Everything at or below the source stands below the target now, once, and the file contents are the same. */
  ghost predicate MovedWhole(before: Disk, after: Disk, source: Place, target: Place) {
    && target !in before.tree
    && AllContents(after) == AllContents(before)
    && (forall p | p in before.tree ::
          Moved(source, target, p) in after.tree && after.tree[Moved(source, target, p)] == before.tree[p])
    && (forall q | q in after.tree :: CameFrom(source, target, q) in before.tree)
  }

  lemma RenameMovesWhole(d: Disk, call: Call)
    requires Valid(d) && call.Move? && Succeeds(d, call)
    ensures MovedWhole(d, Apply(d, call), call.source, call.target)
  {
    MoveSucceeds(d, call);
    RenameConserves(d, call.source, call.target);
    RenameMoves(d, call.source, call.target);
  }

  lemma CommandDisk(w: World, verb: Option<Verb>, param: string, env: Env)
    requires w.reading
    ensures var o := Outcomes(w, verb, param, env);
            o.change.OnDisk? ==> Step(w, Command(verb, param, env)).disk == Apply(w.disk, o.change.call)
  {
    StepResponds(w, verb, param, env);
    if Outcomes(w, verb, param, env).change.OnDisk? {
      RespondDisk(w, verb, Outcomes(w, verb, param, env));
    }
  }

  lemma OutcomeMovesWhole(w: World, param: string, env: Env, o: Outcome, source: Place, target: Place)
    requires w.reading && Valid(w.disk) && o.change == OnDisk(Move(source, target)) && Succeeds(w.disk, o.change.call)
    ensures Outcomes(w, Some(RNTO), param, env) == o ==>
              MovedWhole(w.disk, Step(w, Command(Some(RNTO), param, env)).disk, source, target)
  {
    CommandDisk(w, Some(RNTO), param, env);
    RenameMovesWhole(w.disk, o.change.call);
  }

  lemma RntoOutcome(w: World, path: string, env: Env)
    ensures Outcomes(w, Some(RNTO), path, env) == Rnto(w, path, env)
  {
  }

  /** Any run that reaches the rename moves exactly the path that the latest RNFR checked, onto a place where
      nothing stood, every entry at or below it once, and conserves the file contents. */
  lemma RenamePaired(w: World, events: seq<Event>, path: string, env: Env)
    requires Sound(w) && w.session.lastCommand.None?
    ensures var m := Run(w, events);
            m.reading && Rnto(m, path, env).change.OnDisk? ==>
              var source, target := Target(m, m.session.renameFromPath), Target(m, path);
              && (exists k: nat :: Checked(w, events, k, source))
              && MovedWhole(m.disk, Step(m, Command(Some(RNTO), path, env)).disk, source, target)
  {
    var m := Run(w, events);
    if m.reading && Rnto(m, path, env).change.OnDisk? {
      var source, target := Target(m, m.session.renameFromPath), Target(m, path);
      RnfrFound(w, events);
      RunSound(w, events);
      RntoOutcome(m, path, env);
      assert Rnto(m, path, env).change == OnDisk(Move(source, target));
      OutcomeMovesWhole(m, path, env, Rnto(m, path, env), source, target);
    }
  }

  // ---------------------------------------------------------------- how far up one can go

  function Depth(w: World): nat {
    |Parts(w.session.workingDirectory)|
  }

  predicate WentUp(w: World, e: Event) {
    e.Command? && w.reading && e.verb == Some(CDUP) && Outcomes(w, e.verb, e.param, e.env).code == 200
  }

  /** How many of the events were a CDUP that was answered with 200. */
  function TimesUp(w: World, events: seq<Event>): nat {
    if events == [] then 0 else
    var before := events[..|events| - 1];
    TimesUp(w, before) + if WentUp(Run(w, before), events[|events| - 1]) then 1 else 0
  }

  predicate OnlyUp(events: seq<Event>) {
    forall i | 0 <= i < |events| && events[i].Command? :: events[i].verb == Some(CDUP)
  }

  lemma CdupGoesTo(w: World, env: Env)
    ensures var o := Cdup(w, env);
            if o.code == 200
            then o.change == GoTo(AbsoluteFtpPath(w.session.workingDirectory, "..")) && w.session.workingDirectory != "/"
            else o.change.Keep?
  {
  }

  lemma UpGoesTo(w: World, e: Event)
    requires e.Command? ==> e.verb == Some(CDUP)
    ensures Step(w, e).session.workingDirectory ==
            if WentUp(w, e) then AbsoluteFtpPath(w.session.workingDirectory, "..") else w.session.workingDirectory
    ensures WentUp(w, e) ==> w.session.workingDirectory != "/"
  {
    if e.Command? && w.reading {
      CdupGoesTo(w, e.env);
      CdupOutcome(w, e.param, e.env);
      StepResponds(w, e.verb, e.param, e.env);
      RespondGoesTo(w, e.verb, Cdup(w, e.env));
    } else {
      OnlyCommandsMove(w, e);
    }
  }

  lemma CdupOutcome(w: World, param: string, env: Env)
    ensures Outcomes(w, Some(CDUP), param, env) == Cdup(w, env)
  {
  }

  lemma RespondGoesTo(w: World, verb: Option<Verb>, o: Outcome)
    ensures Respond(w, verb, o).session.workingDirectory == SessionAfter(w.session, o.change).workingDirectory
  {
  }

  lemma OnlyCommandsMove(w: World, e: Event)
    requires !(e.Command? && w.reading)
    ensures Step(w, e).session == w.session
  {
  }

  /** A successful CDUP drops exactly the last component; an unsuccessful one changes nothing. */
  lemma UpDropsLast(w: World, e: Event)
    requires Sound(w) && (e.Command? ==> e.verb == Some(CDUP))
    ensures var before, after := Parts(w.session.workingDirectory), Parts(Step(w, e).session.workingDirectory);
            if WentUp(w, e) then before != [] && after == before[..|before| - 1] else after == before
  {
    UpGoesTo(w, e);
    if WentUp(w, e) {
      ParentDropsLast(w.session.workingDirectory);
    }
  }

  /** In any run of nothing but CDUP commands, the successes use up the depth: at most that many succeed. */
  lemma {:induction false} UpAtMostDepth(w: World, events: seq<Event>)
    requires Sound(w) && OnlyUp(events)
    ensures Depth(Run(w, events)) + TimesUp(w, events) == Depth(w)
    decreases |events|
  {
    if events != [] {
      var before := events[..|events| - 1];
      UpAtMostDepth(w, before);
      RunSound(w, before);
      UpDropsLast(Run(w, before), events[|events| - 1]);
    }
  }

  /** After a successful CWD, the path a client reads out of the PWD reply is the directory that was checked. */
  lemma PwdReadsBack(w: World, path: string, env: Env)
    requires Sound(w) && w.reading && ExecuteCwd(w, path, env).code == 250
    ensures var w' := Step(w, Command(Some(CWD), path, env));
            && Unquote(Pwd(w').text) == Some(Reading(AbsoluteFtpPath(w.session.workingDirectory, path), ""))
            && Stat(w.disk, Target(w', w'.session.workingDirectory)) == Some(Dir)
  {
    var w' := Step(w, Command(Some(CWD), path, env));
    var dir := AbsoluteFtpPath(w.session.workingDirectory, path);
    AbsoluteFtpPathIsClean(w.session.workingDirectory, path);
    assert w'.session.workingDirectory == dir && w'.session.loggedInUser == w.session.loggedInUser && w'.disk == w.disk;
    QuoteRoundTrip(dir, "");
    assert Quoted(dir) + "" == Quoted(dir);
  }

  /** The path read out of the reply to MKD names, for any working directory from then on, the directory just made. */
  lemma MkdReadsBack(w: World, path: string, env: Env, cwd: string)
    requires Sound(w) && MakeDirectory(w, path, env).change.OnDisk?
    ensures var made := AbsoluteFtpPath(w.session.workingDirectory, path);
            var o := MakeDirectory(w, path, env);
            var later := w.(session := w.session.(workingDirectory := cwd), disk := Apply(w.disk, o.change.call));
            && Unquote(o.text) == Some(Reading(made, CREATED))
            && o.change.call == MakeDir(Target(later, made))
            && Stat(w.disk, Target(later, made)).None? && Stat(later.disk, Target(later, made)) == Some(Dir)
  {
    var made := AbsoluteFtpPath(w.session.workingDirectory, path);
    AbsoluteFtpPathIsClean(w.session.workingDirectory, path);
    QuoteRoundTrip(made, CREATED);
    assert AbsoluteFtpPath(cwd, made) == made;
  }

  // ---------------------------------------------------------------- directory changes compose

  /** Event i is a CWD that succeeds. */
  predicate ChangedAt(w: World, events: seq<Event>, i: nat)
    requires i < |events|
  {
    && events[i].Command? && events[i].verb == Some(CWD) && Before(w, events, i).reading
    && ExecuteCwd(Before(w, events, i), events[i].param, events[i].env).code == 250
  }

  predicate AllChanged(w: World, events: seq<Event>) {
    forall i | 0 <= i < |events| :: ChangedAt(w, events, i)
  }

  function Params(events: seq<Event>): seq<string> {
    seq(|events|, i requires 0 <= i < |events| => if events[i].Command? then events[i].param else "")
  }

  lemma HandledCwd(w: World, path: string, env: Env)
    requires w.reading && ExecuteCwd(w, path, env).code == 250
    ensures var s := Step(w, Command(Some(CWD), path, env)).session;
            s == w.session.(lastCommand := Some(CWD), workingDirectory := AbsoluteFtpPath(w.session.workingDirectory, path))
    ensures path != ""
  {
  }

  lemma AllChangedPrefix(w: World, events: seq<Event>)
    requires AllChanged(w, events) && events != []
    ensures AllChanged(w, events[..|events| - 1])
  {
    var n := |events| - 1;
    var before := events[..n];
    forall i | 0 <= i < n ensures ChangedAt(w, before, i) {
      BeforeInPrefix(w, events, n, i);
      assert ChangedAt(w, events, i);
    }
  }

  lemma LastChanged(w: World, events: seq<Event>)
    requires AllChanged(w, events) && events != []
    ensures var n := |events| - 1; var m := Run(w, events[..n]); var s := Run(w, events).session;
            && events[n].Command? && s.loggedInUser == m.session.loggedInUser
            && s.workingDirectory == AbsoluteFtpPath(m.session.workingDirectory, events[n].param)
  {
    var n := |events| - 1;
    assert ChangedAt(w, events, n);
    HandledCwd(Run(w, events[..n]), events[n].param, events[n].env);
  }

  lemma {:induction false} ChangesGoTo(w: World, events: seq<Event>)
    requires AllChanged(w, events)
    ensures Run(w, events).session.workingDirectory == AfterChanges(w.session.workingDirectory, Params(events))
    ensures Run(w, events).session.loggedInUser == w.session.loggedInUser
    decreases |events|
  {
    if events != [] {
      var n := |events| - 1;
      AllChangedPrefix(w, events);
      LastChanged(w, events);
      ChangesGoTo(w, events[..n]);
      ParamsLast(events);
      AfterChangesSnoc(w.session.workingDirectory, Params(events[..n]), events[n].param);
    }
  }

  lemma ParamsLast(events: seq<Event>)
    requires events != [] && events[|events| - 1].Command?
    ensures Params(events) == Params(events[..|events| - 1]) + [events[|events| - 1].param]
  {
  }

  /** After any successful CWDs, the first absolute or relative and the others relative, a relative path denotes what
      all of them and the path, written as one path, denoted before. */
  lemma DirectoryChangesCompose(w: World, events: seq<Event>, path: string)
    requires AllChanged(w, events) && w.session.loggedInUser.Some? && !IsAbsolute(path)
    requires forall i | 0 < i < |events| && events[i].Command? :: !IsAbsolute(events[i].param)
    ensures Run(w, events).session.loggedInUser.Some?
    ensures Local(Run(w, events), path) == Local(w, Chained(Params(events), path))
  {
    ChangesGoTo(w, events);
    forall i | 0 <= i < |events| ensures Params(events)[i] != "" && events[i].Command? {
      assert ChangedAt(w, events, i);
      HandledCwd(Before(w, events, i), events[i].param, events[i].env);
    }
    ResolutionActionChain(w.session.workingDirectory, Params(events), path);
  }

  // ---------------------------------------------------------------- the first connection closes the passive port

  /** A command that begins a download or an upload finds the port open. */
  lemma TransferNeedsPort(w: World, verb: Verb, param: string, env: Env)
    ensures var job := Dispatch(w, verb, param, env).job;
            job.Some? && job.value != SendListing ==> w.acceptorOpen && verb in {RETR, STOR, STOU, APPE}
  {
  }

  lemma StepKeepsPortClosed(w: World, e: Event)
    requires !w.acceptorOpen && !(e.Command? && w.reading && e.verb == Some(PASV))
    ensures !Step(w, e).acceptorOpen
  {
  }

  /** Once a connection was accepted, or rejected, the port is closed: until another PASV is handled, every further
      RETR, STOR, STOU and APPE is refused. Transfers that were waiting already may still be connected. */
  lemma {:induction false} PortClosedByConnection(w: World, events: seq<Event>, id: nat, outcome: Acceptance)
    requires id in w.transfers && w.transfers[id].Waiting? && !outcome.Failed?
    requires var next := Accept(w, id, outcome);
             forall k | 0 <= k < |events| :: VerbAt(next, events, k) != Some(PASV)
    ensures var m := Run(Accept(w, id, outcome), events);
            && !m.acceptorOpen
            && forall verb, param, env | verb in {RETR, STOR, STOU, APPE} :: Dispatch(m, verb, param, env).job.None?
    decreases |events|
  {
    var next := Accept(w, id, outcome);
    if events != [] {
      var n := |events| - 1;
      var before := events[..n];
      forall k | 0 <= k < n ensures VerbAt(next, before, k) != Some(PASV) {
        BeforeInPrefix(next, events, n, k);
      }
      PortClosedByConnection(w, before, id, outcome);
      assert VerbAt(next, events, n) != Some(PASV);
      StepKeepsPortClosed(Run(next, before), events[n]);
    }
    var m := Run(next, events);
    forall verb, param, env | verb in {RETR, STOR, STOU, APPE} ensures Dispatch(m, verb, param, env).job.None? {
      if Dispatch(m, verb, param, env).job.Some? {
        NoListing(m, verb, param, env);
        TransferNeedsPort(m, verb, param, env);
      }
    }
  }

  lemma NoListing(w: World, verb: Verb, param: string, env: Env)
    requires verb in {RETR, STOR, STOU, APPE}
    ensures Dispatch(w, verb, param, env).job != Some(SendListing)
  {
  }
}
