/** What each command does and answers, in plain terms: names of commands as they are spelled, the place a client's path
    leads to, permission bits, entries of the tree, reply codes. */
module Answers {
  import opened Wrappers
  import opened Permissions
  import opened Users
  import opened Meaning
  import opened Resolution
  import opened Disks
  import opened ReplyText
  import opened CommandLines
  import opened Sessions
  import opened Calls

  // ---------------------------------------------------------------- how commands are spelled

  function Name(verb: Verb): string {
    match verb
    case USER => "USER"
    case PASS => "PASS"
    case ACCT => "ACCT"
    case CWD => "CWD"
    case CDUP => "CDUP"
    case REIN => "REIN"
    case QUIT => "QUIT"
    case PORT => "PORT"
    case PASV => "PASV"
    case TYPE => "TYPE"
    case STRU => "STRU"
    case MODE => "MODE"
    case RETR => "RETR"
    case STOR => "STOR"
    case STOU => "STOU"
    case APPE => "APPE"
    case ALLO => "ALLO"
    case REST => "REST"
    case RNFR => "RNFR"
    case RNTO => "RNTO"
    case ABOR => "ABOR"
    case DELE => "DELE"
    case RMD => "RMD"
    case MKD => "MKD"
    case PWD => "PWD"
    case LIST => "LIST"
    case NLST => "NLST"
    case SITE => "SITE"
    case SYST => "SYST"
    case STAT => "STAT"
    case HELP => "HELP"
    case NOOP => "NOOP"
    case FEAT => "FEAT"
    case OPTS => "OPTS"
    case SIZE => "SIZE"
    case MDTM => "MDTM"
  }

  predicate IsCapital(c: char) {
    'A' <= c <= 'Z'
  }

  /** The word is the name in letters of any case: a small letter comes 32 behind its capital. */
  predicate Spells(word: string, name: string) {
    |word| == |name| &&
    forall i | 0 <= i < |name| :: word[i] == name[i] || (IsCapital(name[i]) && word[i] as int == name[i] as int + 32)
  }

  lemma NameIsCapital(verb: Verb)
    ensures forall i | 0 <= i < |Name(verb)| :: IsCapital(Name(verb)[i])
  {
  }

  lemma UpperIffCapital(c: char, capital: char)
    requires IsCapital(capital)
    ensures Upper(c) == capital <==> c == capital || c as int == capital as int + 32
  {
  }

  lemma UpperIffSpells(word: string, name: string)
    requires forall i | 0 <= i < |name| :: IsCapital(name[i])
    ensures UpperText(word) == name <==> Spells(word, name)
  {
    if |word| == |name| {
      forall i | 0 <= i < |name|
        ensures UpperText(word)[i] == name[i] <==> word[i] == name[i] || word[i] as int == name[i] as int + 32
      {
        UpperIffCapital(word[i], name[i]);
      }
    }
  }

  lemma NameInMap(verb: Verb)
    ensures Name(verb) in COMMAND_MAP
  {
  }

  lemma NameTells(a: Verb, b: Verb)
    ensures Name(a) == Name(b) ==> a == b
  {
  }

  lemma MappedIsName(name: string)
    requires name in COMMAND_MAP
    ensures Name(COMMAND_MAP[name]) == name
  {
  }

  /** A command line is understood as a verb exactly if the word in front of its first space, or the whole line if it has
      none, spells the name of the verb; the parameter is what stands behind that space. */
  lemma UnderstoodIff(word: string, param: string, verb: Verb)
    requires ' ' !in word
    ensures ParseCommand(word + " " + param) == (ParseCommand(word).0, param) && ParseCommand(word).1 == ""
    ensures ParseCommand(word).0 == Some(verb) <==> Spells(word, Name(verb))
  {
    SplitUndoesJoin(word, param);
    NameIsCapital(verb);
    UpperIffSpells(word, Name(verb));
    NameInMap(verb);
    if UpperText(word) in COMMAND_MAP {
      MappedIsName(UpperText(word));
      NameTells(COMMAND_MAP[UpperText(word)], verb);
    }
  }

  // ---------------------------------------------------------------- where a path leads

  /** The place that a client's path means: from the user's root, the way the path leads from the working directory. */
  function Meant(w: World, path: string): Place
    requires w.session.loggedInUser.Some?
  {
    RootPlace(w.session.loggedInUser.value.localRootPath, w.disk.here) + Destination(path, Parts(w.session.workingDirectory))
  }

  lemma TargetIsMeant(w: World, path: string)
    requires Sound(w) && w.session.loggedInUser.Some?
    ensures Target(w, path) == Meant(w, path)
  {
    ConfinedPlace(w.session.loggedInUser.value.localRootPath, w.session.workingDirectory, path, w.disk.here);
    ResolvedIsDestination(w.session.workingDirectory, path);
  }

  predicate Holds(w: World, bits: Permission) {
    w.session.loggedInUser.Some? && w.session.loggedInUser.value.permissions & bits != 0
  }

  predicate FileAt(d: Disk, p: Place) {
    p in d.tree && d.tree[p].File?
  }

  predicate DirAt(d: Disk, p: Place) {
    p in d.tree && d.tree[p] == Dir
  }

  /** Nothing stands at p, and there is a directory for it to stand in. */
  predicate RoomAt(d: Disk, p: Place) {
    p !in d.tree && p != [] && DirAt(d, p[..|p| - 1])
  }

  // ---------------------------------------------------------------- what is left behind

  /** The verb was handled and answered, and nothing else has changed. */
  function Replied(w: World, verb: Verb, code: nat, text: string): World {
    w.(session := w.session.(lastCommand := Some(verb)),
       reading := !w.session.shutdownRequested,
       handled := w.handled + 1,
       log := w.log + [Reply(w.handled, true, code, text)])
  }

  function After(w: World, verb: Verb, param: string, env: Env): World {
    Step(w, Command(Some(verb), param, env))
  }

  lemma AfterIs(w: World, verb: Verb, param: string, env: Env)
    requires w.reading
    ensures After(w, verb, param, env) == Respond(w, Some(verb), Dispatch(w, verb, param, env))
  {
  }

  // The handler of each verb, by name.
  lemma CdupHandled(w: World, param: string, env: Env)
    requires w.reading
    ensures After(w, CDUP, param, env) == Respond(w, Some(CDUP), Cdup(w, env))
  {
    AfterIs(w, CDUP, param, env);
  }

  lemma ListHandled(w: World, verb: Verb, param: string, env: Env)
    requires w.reading && verb in {LIST, NLST}
    ensures After(w, verb, param, env) ==
            Respond(w, Some(verb), Listing(w, if verb == LIST then ListTarget(param) else param, env))
  {
    AfterIs(w, verb, param, env);
    if verb == LIST {
      assert Dispatch(w, LIST, param, env) == Listing(w, ListTarget(param), env);
    } else {
      assert Dispatch(w, NLST, param, env) == Listing(w, param, env);
    }
  }

  lemma StorHandled(w: World, path: string, env: Env)
    requires w.reading
    ensures After(w, STOR, path, env) == Respond(w, Some(STOR), Stor(w, path, env))
  {
    AfterIs(w, STOR, path, env);
    DispatchedStore(w, STOR, path, env);
  }

  lemma StouHandled(w: World, param: string, env: Env)
    requires w.reading
    ensures After(w, STOU, param, env) == Respond(w, Some(STOU), Stou(w, env))
  {
    AfterIs(w, STOU, param, env);
    DispatchedStore(w, STOU, param, env);
  }

  lemma AppeHandled(w: World, path: string, env: Env)
    requires w.reading
    ensures After(w, APPE, path, env) == Respond(w, Some(APPE), Appe(w, path, env))
  {
    AfterIs(w, APPE, path, env);
    DispatchedStore(w, APPE, path, env);
  }

  lemma RntoHandled(w: World, path: string, env: Env)
    requires w.reading
    ensures After(w, RNTO, path, env) == Respond(w, Some(RNTO), Rnto(w, path, env))
  {
    AfterIs(w, RNTO, path, env);
    DispatchedRename(w, RNTO, path, env);
  }

  lemma SayLeaves(w: World, verb: Verb, code: nat)
    ensures Respond(w, Some(verb), Say(code)) == Replied(w, verb, code, "")
  {
  }

  /** An unrecognized command is answered with 500 and not remembered. */
  lemma UnrecognizedAnswers(w: World, param: string, env: Env)
    requires w.reading
    ensures Step(w, Command(None, param, env)) ==
            w.(reading := !w.session.shutdownRequested, handled := w.handled + 1,
               log := w.log + [Reply(w.handled, true, 500, "")])
  {
  }

  /** Commands that only answer. */
  lemma StubAnswers(w: World, verb: Verb, param: string, env: Env)
    requires w.reading
    ensures verb in {ACCT, PORT, STRU, MODE, ALLO, SITE} ==> After(w, verb, param, env) == Replied(w, verb, 500, "")
    ensures verb in {REIN, REST, ABOR, STAT, HELP} ==> After(w, verb, param, env) == Replied(w, verb, 502, "")
    ensures verb == SYST ==> After(w, verb, param, env) == Replied(w, verb, 215, "")
    ensures verb == NOOP ==> After(w, verb, param, env) == Replied(w, verb, 200, "")
    ensures verb == FEAT ==> After(w, verb, param, env) == Replied(w, verb, 211, "")
  {
    AfterIs(w, verb, param, env);
  }

  // ---------------------------------------------------------------- login

  /** A new session: nobody logged in, in "/", ASCII mode, no port open, nothing handled and nothing said. */
  lemma SessionStarts(users: UserTable, disk: Disk)
    ensures var w := Start(users, disk);
            && w.users == users && w.disk == disk && w.reading && !w.acceptorOpen
            && w.handled == 0 && w.transfers == map[] && w.log == []
            && w.session.loggedInUser.None? && w.session.usernameForLogin == "" && w.session.lastCommand.None?
            && w.session.renameFromPath == "" && w.session.workingDirectory == "/" && !w.session.dataTypeBinary
            && !w.session.shutdownRequested
  {
  }

  lemma UserAnswers(w: World, name: string, env: Env)
    requires w.reading
    ensures var r := Replied(w, USER, if name == "" then 501 else 331, "");
            After(w, USER, name, env) ==
            r.(session := r.session.(loggedInUser := None, usernameForLogin := name, workingDirectory := "/"))
  {
    AfterIs(w, USER, name, env);
  }

  /** The entry that a name and a password open. */
  function Opened(table: UserTable, name: string, password: string): Option<FtpUser> {
    if name in {"", "ftp", "anonymous"} then table.anonymous
    else if name in table.named && table.named[name].password == password then Some(table.named[name])
    else None
  }

  lemma PassAnswers(w: World, password: string, env: Env)
    requires w.reading
    ensures var s := w.session;
            var found := Opened(w.users, s.usernameForLogin, password);
            After(w, PASS, password, env) ==
            if s.lastCommand != Some(USER) || s.usernameForLogin == "" then Replied(w, PASS, 503, "")
            else if found.None? then Replied(w, PASS, 530, "")
            else var r := Replied(w, PASS, 230, ""); r.(session := r.session.(loggedInUser := found))
  {
    AfterIs(w, PASS, password, env);
  }

  lemma QuitAnswers(w: World, param: string, env: Env)
    requires w.reading
    ensures var r := Replied(w, QUIT, 221, "");
            After(w, QUIT, param, env) ==
            r.(session := r.session.(loggedInUser := None, shutdownRequested := true), reading := false)
  {
    AfterIs(w, QUIT, param, env);
  }

  // ---------------------------------------------------------------- directories

  /** The working directory is now the one with these components. */
  predicate WentTo(w: World, after: World, verb: Verb, code: nat, parts: Place) {
    var dir := after.session.workingDirectory;
    && IsWorkingDirectory(dir) && Parts(dir) == parts
    && var r := Replied(w, verb, code, dir); after == r.(session := r.session.(workingDirectory := dir))
  }

  lemma ExecuteCwdAnswers(w: World, path: string, env: Env)
    requires Sound(w)
    ensures var o := ExecuteCwd(w, path, env);
            if w.session.loggedInUser.None? then o == Say(530)
            else if !Holds(w, 0x20) then o == Say(550)
            else if path == "" then o == Say(501)
            else if DirAt(w.disk, Meant(w, path)) && env.readable then
              && o.code == 250 && o.job.None? && o.change == GoTo(o.text)
              && IsWorkingDirectory(o.text) && Parts(o.text) == Destination(path, Parts(w.session.workingDirectory))
            else o == Say(550)
  {
    if w.session.loggedInUser.Some? {
      var dir := AbsoluteFtpPath(w.session.workingDirectory, path);
      AbsoluteFtpPathIsClean(w.session.workingDirectory, path);
      ResolvedIsDestination(w.session.workingDirectory, path);
      TargetIsMeant(w, dir);
      assert Destination(dir, Parts(w.session.workingDirectory)) == Parts(dir) by {
        PartsAreNames(dir);
      }
    }
  }

  /** CWD moves to where the path leads, exactly if there is a directory that can be listed and opened. */
  lemma CwdAnswers(w: World, path: string, env: Env)
    requires Sound(w) && w.reading
    ensures var after := After(w, CWD, path, env);
            if w.session.loggedInUser.None? then after == Replied(w, CWD, 530, "")
            else if !Holds(w, 0x20) then after == Replied(w, CWD, 550, "")
            else if path == "" then after == Replied(w, CWD, 501, "")
            else if DirAt(w.disk, Meant(w, path)) && env.readable
            then WentTo(w, after, CWD, 250, Destination(path, Parts(w.session.workingDirectory)))
            else after == Replied(w, CWD, 550, "")
  {
    AfterIs(w, CWD, path, env);
    ExecuteCwdAnswers(w, path, env);
    assert Dispatch(w, CWD, path, env) == ExecuteCwd(w, path, env);
  }

  lemma CdupAnswers(w: World, param: string, env: Env)
    requires Sound(w) && w.reading
    ensures var after, parts := After(w, CDUP, param, env), Parts(w.session.workingDirectory);
            if w.session.loggedInUser.None? then after == Replied(w, CDUP, 530, "")
            else if !Holds(w, 0x20) || parts == [] then after == Replied(w, CDUP, 550, "")
            else if DirAt(w.disk, Meant(w, "..")) && env.readable then WentTo(w, after, CDUP, 200, parts[..|parts| - 1])
            else after == Replied(w, CDUP, 550, "")
  {
    CdupHandled(w, param, env);
    CdupOutcome(w, env);
    SayLeaves(w, CDUP, Cdup(w, env).code);
  }

  lemma CdupOutcome(w: World, env: Env)
    requires Sound(w)
    ensures var o, parts := Cdup(w, env), Parts(w.session.workingDirectory);
            if w.session.loggedInUser.None? then o == Say(530)
            else if !Holds(w, 0x20) || parts == [] then o == Say(550)
            else if DirAt(w.disk, Meant(w, "..")) && env.readable then
              o == Outcome(200, o.text, GoTo(o.text), None) && IsWorkingDirectory(o.text) && Parts(o.text) == parts[..|parts| - 1]
            else o == Say(550)
  {
    ExecuteCwdAnswers(w, "..", env);
    OnlySlashIsEmpty(w.session.workingDirectory);
    if w.session.workingDirectory != "/" {
      ParentDropsLast(w.session.workingDirectory);
      ResolvedIsDestination(w.session.workingDirectory, "..");
    }
  }

  lemma PwdAnswers(w: World, param: string, env: Env)
    requires w.reading
    ensures var after := After(w, PWD, param, env);
            if w.session.loggedInUser.None? then after == Replied(w, PWD, 550, "")
            else exists text :: Unquote(text) == Some(Reading(w.session.workingDirectory, ""))
                             && after == Replied(w, PWD, 257, text)
  {
    AfterIs(w, PWD, param, env);
    QuoteRoundTrip(w.session.workingDirectory, "");
    assert Quoted(w.session.workingDirectory) + "" == Quoted(w.session.workingDirectory);
  }

  // ---------------------------------------------------------------- transfer parameters

  /** PASV closes the old port. The new one is open, and announced, if the acceptor listens; it stays open when only
      listening failed. */
  lemma PasvAnswers(w: World, param: string, env: Env)
    requires w.reading
    ensures var after := After(w, PASV, param, env);
            if w.session.loggedInUser.None? then after == Replied(w, PASV, 530, "")
            else match env.passive
                 case NoEndpoint => after == Replied(w, PASV, 421, "").(acceptorOpen := false)
                 case OpenFailed => after == Replied(w, PASV, 421, "").(acceptorOpen := false)
                 case ListenFailed => after == Replied(w, PASV, 421, "").(acceptorOpen := true)
                 case Listening(ip, port) =>
                   exists text :: ReadPassive(text) == Some(([ip.a, ip.b, ip.c, ip.d], port))
                               && after == Replied(w, PASV, 227, text).(acceptorOpen := true)
  {
    AfterIs(w, PASV, param, env);
    if env.passive.Listening? {
      PassiveRoundTrip(env.passive.address, env.passive.port);
    }
  }

  lemma TypeAnswers(w: World, param: string, env: Env)
    requires w.reading
    ensures var after := After(w, TYPE, param, env);
            if w.session.loggedInUser.None? then after == Replied(w, TYPE, 530, "")
            else if param == "A" || param == "I" then
              var r := Replied(w, TYPE, 200, ""); after == r.(session := r.session.(dataTypeBinary := param == "I"))
            else after == Replied(w, TYPE, 504, "")
  {
    AfterIs(w, TYPE, param, env);
  }

  lemma OptsAnswers(w: World, param: string, env: Env)
    requires w.reading
    ensures After(w, OPTS, param, env) == Replied(w, OPTS, if Spells(param, "UTF8 ON") then 200 else 504, "")
  {
    AfterIs(w, OPTS, param, env);
    UpperIffUtf8(param);
  }

  lemma UpperIffUtf8(param: string)
    ensures UpperText(param) == "UTF8 ON" <==> Spells(param, "UTF8 ON")
  {
    if |param| == 7 {
      assert UpperText(param) == "UTF8 ON" <==>
        forall i | 0 <= i < 7 :: UpperText(param)[i] == "UTF8 ON"[i];
    }
  }

  // ---------------------------------------------------------------- looking at files

  /** A download starts exactly if the user may read, the port is open and the cache delivers an object. */
  lemma RetrAnswers(w: World, path: string, env: Env)
    requires Sound(w) && w.reading
    ensures var after := After(w, RETR, path, env);
            if w.session.loggedInUser.None? then after == Replied(w, RETR, 530, "")
            else if !Holds(w, 0x1) then after == Replied(w, RETR, 550, "")
            else if !w.acceptorOpen then after == Replied(w, RETR, 425, "")
            else if env.mapped.None? then after == Replied(w, RETR, 451, "")
            else exists local :: At(w.disk, local) == Meant(w, path) && after ==
                   Replied(w, RETR, 150, "").(transfers := w.transfers[w.handled := Waiting(SendFile(local, env.mapped.value))])
  {
    AfterIs(w, RETR, path, env);
    DispatchedQuery(w, RETR, path, env);
    if w.session.loggedInUser.Some? {
      TargetIsMeant(w, path);
      assert At(w.disk, Local(w, path)) == Meant(w, path);
    }
  }

  /** SIZE tells the length of a file that can be opened. */
  lemma SizeAnswers(w: World, path: string, env: Env)
    requires Sound(w) && w.reading
    ensures var after := After(w, SIZE, path, env);
            if w.session.loggedInUser.None? then after == Replied(w, SIZE, 530, "")
            else if !Holds(w, 0x1) && !Holds(w, 0x20) then after == Replied(w, SIZE, 550, "")
            else var p := Meant(w, path);
                 if FileAt(w.disk, p) && env.callOk then
                   exists text :: ReadDigits(0, text) == (|w.disk.content[w.disk.tree[p].ino]|, "")
                               && after == Replied(w, SIZE, 213, text)
                 else p !in w.disk.tree || FileAt(w.disk, p) ==> after == Replied(w, SIZE, 451, "")
  {
    AfterIs(w, SIZE, path, env);
    DispatchedQuery(w, SIZE, path, env);
    if w.session.loggedInUser.Some? {
      TargetIsMeant(w, path);
      EitherFlag(w);
      var p := Meant(w, path);
      if FileAt(w.disk, p) {
        var n := |w.disk.content[w.disk.tree[p].ino]|;
        ReadDecimal(n, "");
        assert Decimal(n) + "" == Decimal(n);
      }
    }
  }

  lemma EitherFlag(w: World)
    requires w.session.loggedInUser.Some?
    ensures May(w, FILE_READ | DIR_LIST) <==> Holds(w, 0x1) || Holds(w, 0x20)
  {
    FlagBits(w.session.loggedInUser.value.permissions);
  }

  lemma MdtmOutcome(w: World, path: string, env: Env)
    requires Sound(w)
    ensures Mdtm(w, path, env) ==
            if w.session.loggedInUser.None? then Say(530)
            else if !Holds(w, 0x1) && !Holds(w, 0x20) then Say(550)
            else if path == "" then Say(501)
            else if FileAt(w.disk, Meant(w, path)) then Tell(213, env.time)
            else Say(550)
  {
    if w.session.loggedInUser.Some? {
      TargetIsMeant(w, path);
      EitherFlag(w);
    }
  }

  /** What is answered without any change leaves nothing else behind. */
  lemma ToldLeaves(w: World, verb: Verb, code: nat, text: string)
    ensures Respond(w, Some(verb), Tell(code, text)) == Replied(w, verb, code, text)
  {
  }

  lemma MdtmAnswers(w: World, path: string, env: Env)
    requires Sound(w) && w.reading
    ensures After(w, MDTM, path, env) ==
            if w.session.loggedInUser.None? then Replied(w, MDTM, 530, "")
            else if !Holds(w, 0x1) && !Holds(w, 0x20) then Replied(w, MDTM, 550, "")
            else if path == "" then Replied(w, MDTM, 501, "")
            else if FileAt(w.disk, Meant(w, path)) then Replied(w, MDTM, 213, env.time)
            else Replied(w, MDTM, 550, "")
  {
    AfterIs(w, MDTM, path, env);
    DispatchedQuery(w, MDTM, path, env);
    MdtmOutcome(w, path, env);
    var o := Mdtm(w, path, env);
    ToldLeaves(w, MDTM, o.code, o.text);
  }

  /** The options of ls in front of a path, and alone, are dropped; any other parameter is the path. */
  lemma ListedPath(dir: string, param: string)
    ensures dir != "" ==> ListTarget("-a " + dir) == ListTarget("-l " + dir) == dir
    ensures dir != "" ==> ListTarget("-al " + dir) == ListTarget("-la " + dir) == dir
    ensures ListTarget("-a") == ListTarget("-l") == ListTarget("-al") == ListTarget("-la") == ""
    ensures param == "" || param[0] != '-' ==> ListTarget(param) == param
  {
    if dir != "" {
      ShortOption('a', dir);
      ShortOption('l', dir);
      LongOption('a', 'l', dir);
      LongOption('l', 'a', dir);
    }
    assert "-a " == ['-', 'a', ' '] && "-l " == ['-', 'l', ' '];
    assert "-al " == ['-', 'a', 'l', ' '] && "-la " == ['-', 'l', 'a', ' '];
  }

  lemma ShortOption(option: char, dir: string)
    requires dir != "" && option in {'a', 'l'}
    ensures ListTarget(['-', option, ' '] + dir) == dir
  {
    var param := ['-', option, ' '] + dir;
    assert param[3..] == dir && param[..3] == ['-', option, ' '] && |param| > 3;
  }

  lemma LongOption(first: char, second: char, dir: string)
    requires dir != "" && (first, second) in {('a', 'l'), ('l', 'a')}
    ensures ListTarget(['-', first, second, ' '] + dir) == dir
  {
    var param := ['-', first, second, ' '] + dir;
    assert param[4..] == dir && param[..4] == ['-', first, second, ' '] && |param| > 4;
    assert param[..3] == ['-', first, second] && param[..3][2] != ' ';
  }

  /** A listing starts exactly if the user may list and the path leads to a directory that can be opened. */
  lemma ListingAnswers(w: World, verb: Verb, param: string, env: Env)
    requires Sound(w) && w.reading && verb in {LIST, NLST}
    ensures After(w, verb, param, env) ==
            if w.session.loggedInUser.None? then Replied(w, verb, 530, "")
            else if Holds(w, 0x20) && env.readable
                    && DirAt(w.disk, Meant(w, if verb == LIST then ListTarget(param) else param)) then
              Replied(w, verb, 150, "").(transfers := w.transfers[w.handled := Waiting(SendListing)])
            else Replied(w, verb, 450, "")
  {
    ListHandled(w, verb, param, env);
    if w.session.loggedInUser.Some? {
      TargetIsMeant(w, if verb == LIST then ListTarget(param) else param);
    }
  }

  // ---------------------------------------------------------------- storing files

  /** An upload has begun into a file at p that is empty, or that keeps its content and is written at its end. Its handle
      is that of this command. */
  predicate StoreBegun(w: World, after: World, verb: Verb, code: nat, text: string, p: Place, empty: bool) {
    var d := after.disk;
    && after == Replied(w, verb, code, text).(disk := d, transfers := w.transfers[w.handled := Waiting(Receive)])
    && FileAt(d, p) && w.handled in d.handles && d.handles[w.handled].ino == d.tree[p].ino
    && d.handles[w.handled].append == !empty && d.handles[w.handled].pos == 0
    && d.tree[p].ino in d.content
    && (if FileAt(w.disk, p) then d.tree == w.disk.tree else d.tree == w.disk.tree[p := d.tree[p]] && d.tree[p].ino !in w.disk.content)
    && (if empty then d.content == w.disk.content[d.tree[p].ino := ""] else d.content == w.disk.content)
  }

  lemma TruncateBegins(w: World, verb: Verb, code: nat, text: string, p: Place)
    requires Valid(w.disk) && w.reading && (RoomAt(w.disk, p) || FileAt(w.disk, p))
    ensures Succeeds(w.disk, Truncate(p, w.handled))
    ensures StoreBegun(w, Respond(w, Some(verb), Outcome(code, text, OnDisk(Truncate(p, w.handled)), Some(Receive))),
                       verb, code, text, p, true)
  {
  }

  lemma AppendBegins(w: World, verb: Verb, code: nat, text: string, p: Place)
    requires Valid(w.disk) && w.reading && FileAt(w.disk, p)
    ensures Succeeds(w.disk, Append(p, w.handled))
    ensures StoreBegun(w, Respond(w, Some(verb), Outcome(code, text, OnDisk(Append(p, w.handled)), Some(Receive))),
                       verb, code, text, p, false)
  {
  }

  lemma StorOutcome(w: World, path: string, env: Env)
    requires Sound(w)
    ensures Stor(w, path, env) ==
            if w.session.loggedInUser.None? then Say(530)
            else if !Holds(w, 0x2) then Say(550)
            else if !w.acceptorOpen then Say(425)
            else var p := Meant(w, path);
                 if DirAt(w.disk, p) || (FileAt(w.disk, p) && !Holds(w, 0x8)) then Say(553)
                 else Store(w, Truncate(p, w.handled), env, 150, "")
  {
    if w.session.loggedInUser.Some? {
      TargetIsMeant(w, path);
    }
  }

  /** STOR makes a new file, or empties an old one, exactly if the system does not refuse and the user may write, and
      delete if there is a file already. */
  lemma StorAnswers(w: World, path: string, env: Env)
    requires Sound(w) && w.reading
    ensures var after := After(w, STOR, path, env);
            if w.session.loggedInUser.None? then after == Replied(w, STOR, 530, "")
            else if !Holds(w, 0x2) then after == Replied(w, STOR, 550, "")
            else if !w.acceptorOpen then after == Replied(w, STOR, 425, "")
            else var p := Meant(w, path);
                 if DirAt(w.disk, p) || (FileAt(w.disk, p) && !Holds(w, 0x8)) then after == Replied(w, STOR, 553, "")
                 else if env.callOk && (RoomAt(w.disk, p) || FileAt(w.disk, p)) then StoreBegun(w, after, STOR, 150, "", p, true)
                 else p !in w.disk.tree || FileAt(w.disk, p) ==> after == Replied(w, STOR, 451, "")
  {
    StorHandled(w, path, env);
    StorOutcome(w, path, env);
    SayLeaves(w, STOR, Stor(w, path, env).code);
    if w.session.loggedInUser.Some? {
      StoreGivesOutcome(w, Meant(w, path), env, STOR, 150, "");
    }
  }

  lemma StoreGivesOutcome(w: World, p: Place, env: Env, verb: Verb, code: nat, text: string)
    requires Sound(w) && w.reading && OpensTransfer(code)
    ensures var o := Store(w, Truncate(p, w.handled), env, code, text);
            if env.callOk && (RoomAt(w.disk, p) || FileAt(w.disk, p))
            then StoreBegun(w, Respond(w, Some(verb), o), verb, code, text, p, true)
            else p !in w.disk.tree || FileAt(w.disk, p) ==> o == Say(451)
  {
    if RoomAt(w.disk, p) || FileAt(w.disk, p) {
      TruncateBegins(w, verb, code, text, p);
    }
  }

  lemma AppeOutcome(w: World, path: string, env: Env)
    requires Sound(w)
    ensures Appe(w, path, env) ==
            if w.session.loggedInUser.None? then Say(530)
            else var p := Meant(w, path);
                 if p in w.disk.tree && (!Holds(w, 0x4) || !FileAt(w.disk, p)) then Say(550)
                 else if p !in w.disk.tree && !Holds(w, 0x2) then Say(550)
                 else if !w.acceptorOpen then Say(425)
                 else Store(w, if p in w.disk.tree then Append(p, w.handled) else Truncate(p, w.handled), env, 150, "")
  {
    if w.session.loggedInUser.Some? {
      TargetIsMeant(w, path);
    }
  }

  /** APPE adds to a file if the user may append, and makes a missing one if the user may write. */
  lemma AppeAnswers(w: World, path: string, env: Env)
    requires Sound(w) && w.reading
    ensures var after := After(w, APPE, path, env);
            if w.session.loggedInUser.None? then after == Replied(w, APPE, 530, "")
            else var p := Meant(w, path);
                 if p in w.disk.tree && (!Holds(w, 0x4) || !FileAt(w.disk, p)) then after == Replied(w, APPE, 550, "")
                 else if p !in w.disk.tree && !Holds(w, 0x2) then after == Replied(w, APPE, 550, "")
                 else if !w.acceptorOpen then after == Replied(w, APPE, 425, "")
                 else if env.callOk && FileAt(w.disk, p) then StoreBegun(w, after, APPE, 150, "", p, false)
                 else if env.callOk && RoomAt(w.disk, p) then StoreBegun(w, after, APPE, 150, "", p, true)
                 else after == Replied(w, APPE, 451, "")
  {
    AppeHandled(w, path, env);
    AppeOutcome(w, path, env);
    SayLeaves(w, APPE, Appe(w, path, env).code);
    SayLeaves(w, APPE, 451);
    if w.session.loggedInUser.Some? {
      StoreGivesOutcome(w, Meant(w, path), env, APPE, 150, "");
      if FileAt(w.disk, Meant(w, path)) {
        AppendBegins(w, APPE, 150, "", Meant(w, path));
      }
    }
  }

  // ---------------------------------------------------------------- unique names

  function HexValue(digits: string): nat {
    if digits == "" then 0 else
    var c := digits[|digits| - 1];
    16 * HexValue(digits[..|digits| - 1]) + if '0' <= c <= '9' then (c - '0') as nat
                                            else if 'a' <= c <= 'f' then (c - 'a') as nat + 10 else 0
  }

  function Power16(n: nat): nat {
    if n == 0 then 1 else 16 * Power16(n - 1)
  }

  lemma {:induction false} HexReads(n: nat, width: nat)
    requires n < Power16(width)
    ensures |Hex(n, width)| == width && HexValue(Hex(n, width)) == n
    ensures forall i | 0 <= i < width :: '0' <= Hex(n, width)[i] <= '9' || 'a' <= Hex(n, width)[i] <= 'f'
    decreases width
  {
    if width > 0 {
      HexReads(n / 16, width - 1);
      assert Hex(n, width)[..width - 1] == Hex(n / 16, width - 1);
    }
  }

  /** The name that STOU tries: FILE_ and the drawn number in eight small hexadecimal digits, zeros in front. */
  lemma UniqueNameIs(env: Env, attempt: nat)
    requires attempt < |env.draws|
    ensures var name := UniqueName(env, attempt);
            && |name| == 13 && name[..5] == "FILE_" && HexValue(name[5..]) == env.draws[attempt]
            && forall i | 5 <= i < 13 :: '0' <= name[i] <= '9' || 'a' <= name[i] <= 'f'
  {
    assert Power16(8) == 0x1_0000_0000 by {
      assert Power16(4) == 0x1_0000;
    }
    HexReads(env.draws[attempt], 8);
    assert UniqueName(env, attempt)[5..] == Hex(env.draws[attempt], 8);
  }

  lemma {:induction false} StouTries(w: World, env: Env, from: nat, k: nat)
    requires w.session.loggedInUser.Some? && from <= k <= 10
    requires forall j | from <= j < k :: Target(w, UniqueName(env, j)) in w.disk.tree
    requires k < 10 ==> Target(w, UniqueName(env, k)) !in w.disk.tree
    ensures StouFrom(w, env, from) ==
            if k == 10 then Say(451)
            else Store(w, Truncate(Target(w, UniqueName(env, k)), w.handled), env, 125, UniqueName(env, k))
    decreases k - from
  {
    if from < k {
      StouSkips(w, env, from);
      StouTries(w, env, from + 1, k);
    } else if k < 10 {
      StouTakes(w, env, k);
    }
  }

  lemma StouSkips(w: World, env: Env, k: nat)
    requires w.session.loggedInUser.Some? && k < 10 && Target(w, UniqueName(env, k)) in w.disk.tree
    ensures StouFrom(w, env, k) == StouFrom(w, env, k + 1)
  {
  }

  lemma StouTakes(w: World, env: Env, k: nat)
    requires w.session.loggedInUser.Some? && k < 10 && Target(w, UniqueName(env, k)) !in w.disk.tree
    ensures StouFrom(w, env, k) ==
            Store(w, Truncate(Target(w, UniqueName(env, k)), w.handled), env, 125, UniqueName(env, k))
  {
  }

  /** STOU takes the first of ten names that denotes nothing. */
  lemma StouAnswers(w: World, param: string, env: Env, k: nat)
    requires Sound(w) && w.reading && k <= 10
    ensures var after := After(w, STOU, param, env);
            if w.session.loggedInUser.None? then after == Replied(w, STOU, 530, "")
            else if !Holds(w, 0x2) then after == Replied(w, STOU, 550, "")
            else if !w.acceptorOpen then after == Replied(w, STOU, 425, "")
            else TakesName(w, env, k) ==>
                 if k < 10 && env.callOk && RoomAt(w.disk, Meant(w, UniqueName(env, k)))
                 then StoreBegun(w, after, STOU, 125, UniqueName(env, k), Meant(w, UniqueName(env, k)), true)
                 else after == Replied(w, STOU, 451, "")
  {
    StouHandled(w, param, env);
    StouRefusals(w, env);
    SayLeaves(w, STOU, 530);
    SayLeaves(w, STOU, 550);
    SayLeaves(w, STOU, 425);
    SayLeaves(w, STOU, 451);
    if w.session.loggedInUser.Some? && TakesName(w, env, k) {
      StouTakesName(w, env, k);
      StoreGivesOutcome(w, Meant(w, UniqueName(env, k)), env, STOU, 125, UniqueName(env, k));
    }
  }

  /** All names in front of the k-th denote something, and it denotes nothing, or there is none left. */
  predicate TakesName(w: World, env: Env, k: nat)
    requires w.session.loggedInUser.Some?
  {
    && (forall j | 0 <= j < k :: Meant(w, UniqueName(env, j)) in w.disk.tree)
    && (k < 10 ==> Meant(w, UniqueName(env, k)) !in w.disk.tree)
  }

  lemma StouRefusals(w: World, env: Env)
    ensures Stou(w, env) ==
            if w.session.loggedInUser.None? then Say(530)
            else if !Holds(w, 0x2) then Say(550)
            else if !w.acceptorOpen then Say(425)
            else StouFrom(w, env, 0)
  {
  }

  lemma StouTakesName(w: World, env: Env, k: nat)
    requires Sound(w) && w.session.loggedInUser.Some? && k <= 10 && TakesName(w, env, k)
    ensures StouFrom(w, env, 0) ==
            if k == 10 then Say(451)
            else Store(w, Truncate(Meant(w, UniqueName(env, k)), w.handled), env, 125, UniqueName(env, k))
  {
    forall j: nat ensures Target(w, UniqueName(env, j)) == Meant(w, UniqueName(env, j)) {
      TargetIsMeant(w, UniqueName(env, j));
    }
    StouTries(w, env, 0, k);
  }

  // ---------------------------------------------------------------- changing entries

  /** The tree is as given, and nothing else of the disk has changed. */
  predicate TreeIs(w: World, after: World, verb: Verb, code: nat, text: string, tree: map<Place, Node>) {
    after == Replied(w, verb, code, text).(disk := w.disk.(tree := tree))
  }

  function Responded(w: World, verb: Verb, code: nat, text: string, call: Call): World {
    Respond(w, Some(verb), Outcome(code, text, OnDisk(call), None))
  }

  lemma CallLeaves(w: World, verb: Verb, code: nat, text: string, call: Call)
    requires w.reading
    ensures Responded(w, verb, code, text, call) == Replied(w, verb, code, text).(disk := Apply(w.disk, call))
  {
  }

  lemma DeleOutcome(w: World, path: string, env: Env)
    requires Sound(w)
    ensures var o := Dele(w, path, env);
            if w.session.loggedInUser.None? then o == Say(530)
            else var p := Meant(w, path);
                 if !FileAt(w.disk, p) || !Holds(w, 0x8) then o == Say(550)
                 else if env.callOk then o == Outcome(250, "", OnDisk(Delete(p)), None)
                 else o == Say(450)
  {
    if w.session.loggedInUser.Some? {
      TargetIsMeant(w, path);
    }
  }

  /** DELE removes exactly the file, if the user may delete and the system does not refuse. */
  lemma DeleAnswers(w: World, path: string, env: Env)
    requires Sound(w) && w.reading
    ensures var after := After(w, DELE, path, env);
            if w.session.loggedInUser.None? then after == Replied(w, DELE, 530, "")
            else var p := Meant(w, path);
                 if !FileAt(w.disk, p) || !Holds(w, 0x8) then after == Replied(w, DELE, 550, "")
                 else if env.callOk then TreeIs(w, after, DELE, 250, "", w.disk.tree - {p})
                 else after == Replied(w, DELE, 450, "")
  {
    AfterIs(w, DELE, path, env);
    DispatchedEntry(w, DELE, path, env);
    DeleOutcome(w, path, env);
    SayLeaves(w, DELE, 530);
    SayLeaves(w, DELE, 550);
    SayLeaves(w, DELE, 450);
    if w.session.loggedInUser.Some? {
      CallLeaves(w, DELE, 250, "", Delete(Meant(w, path)));
    }
  }

  predicate MayRemove(w: World, p: Place, env: Env) {
    Holds(w, 0x80) && env.callOk && p != [] && EmptyAt(w.disk, p)
  }

  /** A directory with no entry directly below it. */
  predicate EmptyAt(d: Disk, p: Place) {
    DirAt(d, p) && forall q | q in d.tree :: !(p <= q && |q| == |p| + 1)
  }

  lemma RemovableIff(d: Disk, p: Place)
    ensures Succeeds(d, RemoveDir(p)) <==> p != [] && EmptyAt(d, p)
  {
    EmptyIff(d, p);
  }

  lemma RmdOutcome(w: World, path: string, env: Env)
    requires Sound(w)
    ensures var o := RemoveDirectory(w, path, env);
            if w.session.loggedInUser.None? then o == Say(530)
            else if MayRemove(w, Meant(w, path), env) then
              o == Outcome(250, "", OnDisk(RemoveDir(Meant(w, path))), None) && Succeeds(w.disk, RemoveDir(Meant(w, path)))
            else o == Say(550)
  {
    if w.session.loggedInUser.Some? {
      TargetIsMeant(w, path);
      RemovableIff(w.disk, Meant(w, path));
    }
  }

  /** RMD removes exactly the directory, if it is empty and not the root of all. */
  lemma RmdAnswers(w: World, path: string, env: Env)
    requires Sound(w) && w.reading
    ensures var after := After(w, RMD, path, env);
            if w.session.loggedInUser.None? then after == Replied(w, RMD, 530, "")
            else if MayRemove(w, Meant(w, path), env) then TreeIs(w, after, RMD, 250, "", w.disk.tree - {Meant(w, path)})
            else after == Replied(w, RMD, 550, "")
  {
    AfterIs(w, RMD, path, env);
    DispatchedEntry(w, RMD, path, env);
    RmdOutcome(w, path, env);
    SayLeaves(w, RMD, 530);
    SayLeaves(w, RMD, 550);
    if w.session.loggedInUser.Some? && MayRemove(w, Meant(w, path), env) {
      RemovalLeaves(w, Meant(w, path), env);
    }
  }

  lemma RemovalLeaves(w: World, p: Place, env: Env)
    requires w.reading && MayRemove(w, p, env)
    ensures TreeIs(w, Responded(w, RMD, 250, "", RemoveDir(p)), RMD, 250, "", w.disk.tree - {p})
  {
    RemovableIff(w.disk, p);
    CallLeaves(w, RMD, 250, "", RemoveDir(p));
  }

  lemma MakingLeaves(w: World, p: Place, text: string)
    requires w.reading && RoomAt(w.disk, p)
    ensures TreeIs(w, Responded(w, MKD, 257, text, MakeDir(p)), MKD, 257, text, w.disk.tree[p := Dir])
  {
    CallLeaves(w, MKD, 257, text, MakeDir(p));
  }

  lemma EmptyIff(d: Disk, p: Place)
    ensures IsEmptyDir(d, p) <==> EmptyAt(d, p)
  {
    forall q | q in d.tree ensures (q != [] && Parent(q) == p) <==> (p <= q && |q| == |p| + 1) {
    }
  }

  lemma MkdOutcome(w: World, path: string, env: Env)
    requires Sound(w)
    ensures var o := MakeDirectory(w, path, env);
            if w.session.loggedInUser.None? then o == Say(530)
            else if Holds(w, 0x40) && env.callOk && RoomAt(w.disk, Meant(w, path)) then
              && o == Outcome(257, o.text, OnDisk(MakeDir(Meant(w, path))), None)
              && Succeeds(w.disk, MakeDir(Meant(w, path)))
              && Unquote(o.text) == Some(Reading(AbsoluteFtpPath(w.session.workingDirectory, path), " Successfully created"))
            else o == Say(550)
  {
    if w.session.loggedInUser.Some? {
      TargetIsMeant(w, path);
      MakableIff(w.disk, Meant(w, path));
      QuoteRoundTrip(AbsoluteFtpPath(w.session.workingDirectory, path), " Successfully created");
    }
  }

  lemma MakableIff(d: Disk, p: Place)
    ensures Succeeds(d, MakeDir(p)) <==> RoomAt(d, p)
  {
  }

  /** The reply names the directory that the client's path leads to. */
  predicate NamesMade(w: World, path: string, text: string) {
    var dir := AbsoluteFtpPath(w.session.workingDirectory, path);
    && Unquote(text) == Some(Reading(dir, " Successfully created"))
    && IsWorkingDirectory(dir) && Parts(dir) == Destination(path, Parts(w.session.workingDirectory))
  }

  /** MKD makes exactly the directory, where there was nothing but a directory for it to stand in; the reply names it. */
  lemma MkdAnswers(w: World, path: string, env: Env)
    requires Sound(w) && w.reading
    ensures var after := After(w, MKD, path, env);
            if w.session.loggedInUser.None? then after == Replied(w, MKD, 530, "")
            else var p := Meant(w, path);
                 if Holds(w, 0x40) && env.callOk && RoomAt(w.disk, p) then
                   exists text :: NamesMade(w, path, text) && TreeIs(w, after, MKD, 257, text, w.disk.tree[p := Dir])
                 else after == Replied(w, MKD, 550, "")
  {
    AfterIs(w, MKD, path, env);
    DispatchedEntry(w, MKD, path, env);
    MkdOutcome(w, path, env);
    SayLeaves(w, MKD, 530);
    SayLeaves(w, MKD, 550);
    if w.session.loggedInUser.Some? && Holds(w, 0x40) && env.callOk && RoomAt(w.disk, Meant(w, path)) {
      var text := MakeDirectory(w, path, env).text;
      MakingLeaves(w, Meant(w, path), text);
      AbsoluteFtpPathIsClean(w.session.workingDirectory, path);
      ResolvedIsDestination(w.session.workingDirectory, path);
      assert NamesMade(w, path, text);
    }
  }

  // ---------------------------------------------------------------- renaming

  /** The user may rename what stands at p. */
  predicate MayRename(w: World, p: Place) {
    p in w.disk.tree && if w.disk.tree[p] == Dir then Holds(w, 0x100) else Holds(w, 0x10)
  }

  lemma RenamableIff(w: World, path: string)
    requires Sound(w)
    ensures Renamable(w, path) ==
            if w.session.loggedInUser.None? then 530
            else if path == "" then 501
            else if MayRename(w, Meant(w, path)) then 200 else 550
  {
    if w.session.loggedInUser.Some? {
      TargetIsMeant(w, path);
      FlagBits(w.session.loggedInUser.value.permissions);
    }
  }

  lemma RnfrAnswers(w: World, path: string, env: Env)
    requires Sound(w) && w.reading
    ensures var after := After(w, RNFR, path, env);
            var code := if w.session.loggedInUser.None? then 530
                        else if path == "" then 501
                        else if MayRename(w, Meant(w, path)) then 350 else 550;
            var r := Replied(w, RNFR, code, "");
            after == r.(session := r.session.(renameFromPath := if code == 350 then path else ""))
  {
    AfterIs(w, RNFR, path, env);
    DispatchedRename(w, RNFR, path, env);
    RenamableIff(w, path);
  }

  predicate MayMove(w: World, source: Place, target: Place, env: Env) {
    env.callOk && RoomAt(w.disk, target) && !(source <= target)
  }

  lemma RntoOutcome(w: World, path: string, env: Env)
    requires Sound(w)
    ensures var o, from := Rnto(w, path, env), w.session.renameFromPath;
            if w.session.loggedInUser.None? then o == Say(530)
            else if w.session.lastCommand != Some(RNFR) || from == "" then o == Say(503)
            else if path == "" then o == Say(501)
            else var source, target := Meant(w, from), Meant(w, path);
                 if !MayRename(w, source) then o == Say(550)
                 else if MayMove(w, source, target, env) then
                   o == Outcome(250, "", OnDisk(Move(source, target)), None) && Rename(w.disk, source, target).Some?
                 else o == Say(450)
  {
    RenamableIff(w, w.session.renameFromPath);
    if w.session.loggedInUser.Some? {
      TargetIsMeant(w, path);
      TargetIsMeant(w, w.session.renameFromPath);
      MovableIff(w.disk, Meant(w, w.session.renameFromPath), Meant(w, path));
    }
  }

  lemma MovableIff(d: Disk, source: Place, target: Place)
    ensures Succeeds(d, Move(source, target)) == Rename(d, source, target).Some?
    ensures Succeeds(d, Move(source, target)) <==> source in d.tree && RoomAt(d, target) && !(source <= target)
  {
    RenameSucceedsIff(d, source, target);
  }

  lemma MoveLeaves(w: World, source: Place, target: Place)
    requires w.reading && Rename(w.disk, source, target).Some?
    ensures Responded(w, RNTO, 250, "", Move(source, target)) ==
            Replied(w, RNTO, 250, "").(disk := Rename(w.disk, source, target).value)
  {
    CallLeaves(w, RNTO, 250, "", Move(source, target));
  }

  /** RNTO moves what the remembered path leads to, exactly if it may still be renamed and there is room at the target;
      RenameIs says what the tree is then. */
  lemma RntoAnswers(w: World, path: string, env: Env)
    requires Sound(w) && w.reading
    ensures var after, from := After(w, RNTO, path, env), w.session.renameFromPath;
            if w.session.loggedInUser.None? then after == Replied(w, RNTO, 530, "")
            else if w.session.lastCommand != Some(RNFR) || from == "" then after == Replied(w, RNTO, 503, "")
            else if path == "" then after == Replied(w, RNTO, 501, "")
            else var source, target := Meant(w, from), Meant(w, path);
                 if !MayRename(w, source) then after == Replied(w, RNTO, 550, "")
                 else if MayMove(w, source, target, env) then
                   && Rename(w.disk, source, target).Some?
                   && after == Replied(w, RNTO, 250, "").(disk := Rename(w.disk, source, target).value)
                 else after == Replied(w, RNTO, 450, "")
  {
    RntoHandled(w, path, env);
    RntoOutcome(w, path, env);
    SayLeaves(w, RNTO, Rnto(w, path, env).code);
    if w.session.loggedInUser.Some? {
      var source, target := Meant(w, w.session.renameFromPath), Meant(w, path);
      if Rename(w.disk, source, target).Some? {
        MoveLeaves(w, source, target);
      }
    }
  }
}
