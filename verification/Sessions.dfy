/** What one session does, event by event: the commands of the control connection and the ends of its transfers. */
module Sessions {
  import opened Wrappers
  import opened Permissions
  import opened Users
  import opened Meaning
  import opened Resolution
  import opened Disks
  import opened ReplyText
  import opened CommandLines

  datatype Verb =
    | USER | PASS | ACCT | CWD | CDUP | REIN | QUIT
    | PORT | PASV | TYPE | STRU | MODE
    | RETR | STOR | STOU | APPE | ALLO | REST | RNFR | RNTO | ABOR | DELE | RMD | MKD | PWD
    | LIST | NLST | SITE | SYST | STAT | HELP | NOOP
    | FEAT | OPTS | SIZE | MDTM

  type Draw = n: nat | n < 0x1_0000_0000

  /** How opening the passive port went. */
  datatype Passive = NoEndpoint | OpenFailed | ListenFailed | Listening(address: Address, port: Port)

  /** What the world around the session answers while one command is handled. */
  datatype Env = Env(
    callOk: bool,        // the operating system call that changes or opens something is not refused
    readable: bool,      // the directory can be opened for reading
    mapped: Option<nat>, // the size of the object the file cache delivers, or of something that is no file
    draws: seq<Draw>,    // random numbers for STOU
    passive: Passive,
    time: string)        // a modification time as text

  datatype Reply = Reply(command: nat, immediate: bool, code: nat, text: string)

  /** What a data connection is for; a download names the local file and the size of its mapping. */
  datatype Job = SendFile(local: string, size: nat) | SendListing | Receive

  /** A download that ends as soon as its connection is there. */
  predicate SendsNothing(job: Job) {
    job.SendFile? && job.size == 0
  }

  datatype Transfer = Waiting(job: Job) | Running(job: Job) | Finished | Abandoned

  /** The fields that only commands change. */
  datatype Session = Session(
    loggedInUser: Option<FtpUser>,
    usernameForLogin: string,
    lastCommand: Option<Verb>,
    renameFromPath: string,
    workingDirectory: string,
    dataTypeBinary: bool,
    shutdownRequested: bool)

  /** The session with everything around it: users, file tree, transfers under way and replies posted so far. */
  datatype World = World(
    users: UserTable,
    session: Session,
    acceptorOpen: bool,
    reading: bool,
    disk: Disk,
    handled: nat,
    transfers: map<nat, Transfer>,
    log: seq<Reply>)

  function Start(users: UserTable, disk: Disk): World {
    World(users, Session(None, "", None, "", "/", false, false), false, true, disk, 0, map[], [])
  }

  // ---------------------------------------------------------------- what a command can change

  datatype Change =
    | Keep
    | NewName(name: string)
    | LogIn(user: FtpUser)
    | GoTo(dir: string)
    | SetBinary(binary: bool)
    | SetAcceptor(open: bool)
    | SetRename(path: string)
    | Leave
    | OnDisk(call: Call)

  /** Every command gives one reply, makes at most one change and may start one transfer. */
  datatype Outcome = Outcome(code: nat, text: string, change: Change, job: Option<Job>)

  function SessionAfter(s: Session, change: Change): Session {
    match change
    case NewName(name) => s.(loggedInUser := None, usernameForLogin := name, workingDirectory := "/")
    case LogIn(user) => s.(loggedInUser := Some(user))
    case GoTo(dir) => s.(workingDirectory := dir)
    case SetBinary(binary) => s.(dataTypeBinary := binary)
    case SetRename(path) => s.(renameFromPath := path)
    case Leave => s.(loggedInUser := None, shutdownRequested := true)
    case _ => s
  }

  /** The preliminary replies, after which another reply is due. */
  predicate OpensTransfer(code: nat) {
    code == 125 || code == 150
  }

  function Say(code: nat): Outcome {
    Outcome(code, "", Keep, None)
  }

  function Tell(code: nat, text: string): Outcome {
    Outcome(code, text, Keep, None)
  }

  function Do(code: nat, change: Change): Outcome {
    Outcome(code, "", change, None)
  }

  /** The outcome of a command that opens a file for an upload, answered with the given code, or refuses. */
  predicate Starts(o: Outcome, code: nat) {
    || (o.change.Keep? && o.job.None? && !OpensTransfer(o.code))
    || (o.change.OnDisk? && o.job == Some(Receive) && o.code == code)
  }

  function Local(w: World, path: string): string
    requires w.session.loggedInUser.Some?
  {
    LocalPath(w.session.loggedInUser.value.localRootPath, w.session.workingDirectory, path)
  }

  function Target(w: World, path: string): Place
    requires w.session.loggedInUser.Some?
  {
    At(w.disk, Local(w, path))
  }

  predicate May(w: World, flag: Permission)
    requires w.session.loggedInUser.Some?
  {
    Grants(w.session.loggedInUser.value.permissions, flag)
  }

  // ---------------------------------------------------------------- access control

  function User(w: World, name: string): (o: Outcome)
    ensures o.change.NewName? && o.job.None? && !OpensTransfer(o.code)
  {
    Do(if name == "" then 501 else 331, NewName(name))
  }

  function Pass(w: World, password: string): (o: Outcome)
    ensures (o.change.Keep? || o.change.LogIn?) && o.job.None? && !OpensTransfer(o.code)
  {
    if w.session.lastCommand != Some(USER) || w.session.usernameForLogin == "" then Say(503)
    else
      match Lookup(w.users, w.session.usernameForLogin, password)
      case None => Say(530)
      case Some(user) => Do(230, LogIn(user))
  }

  function ExecuteCwd(w: World, path: string, env: Env): (o: Outcome)
    ensures (o.change.Keep? || o.change.GoTo?) && o.job.None? && !OpensTransfer(o.code)
  {
    if w.session.loggedInUser.None? then Say(530)
    else if !May(w, DIR_LIST) then Say(550)
    else if path == "" then Say(501)
    else
      var changed := AbsoluteFtpPath(w.session.workingDirectory, path);
      if Stat(w.disk, Target(w, changed)) == Some(Dir) && env.readable then Outcome(250, changed, GoTo(changed), None)
      else Say(550)
  }

  function Cdup(w: World, env: Env): (o: Outcome)
    ensures (o.change.Keep? || o.change.GoTo?) && o.job.None? && !OpensTransfer(o.code)
  {
    if w.session.loggedInUser.None? then Say(530)
    else if !May(w, DIR_LIST) then Say(550)
    else if w.session.workingDirectory == "/" then Say(550)
    else
      WithCode(ExecuteCwd(w, "..", env), 200)
  }

  /** The same outcome with another code for success. */
  function WithCode(o: Outcome, code: nat): Outcome {
    if o.code == 250 then o.(code := code) else o
  }

  // ---------------------------------------------------------------- transfer parameters

  function PassiveOutcome(passive: Passive): (o: Outcome)
    ensures o.change.SetAcceptor? && o.job.None? && !OpensTransfer(o.code)
  {
    match passive
    case NoEndpoint => Do(421, SetAcceptor(false))
    case OpenFailed => Do(421, SetAcceptor(false))
    case ListenFailed => Do(421, SetAcceptor(true))
    case Listening(address, port) => Outcome(227, PassiveText(address, port), SetAcceptor(true), None)
  }

  function Pasv(w: World, env: Env): (o: Outcome)
    ensures (o.change.Keep? || o.change.SetAcceptor?) && o.job.None? && !OpensTransfer(o.code)
  {
    if w.session.loggedInUser.None? then Say(530) else PassiveOutcome(env.passive)
  }

  function Type(w: World, param: string): (o: Outcome)
    ensures (o.change.Keep? || o.change.SetBinary?) && o.job.None? && !OpensTransfer(o.code)
  {
    if w.session.loggedInUser.None? then Say(530)
    else if param == "A" then Do(200, SetBinary(false))
    else if param == "I" then Do(200, SetBinary(true))
    else Say(504)
  }

  // ---------------------------------------------------------------- files

  function Retr(w: World, path: string, env: Env): (o: Outcome)
    ensures o.change.Keep? && (o.job.Some? <==> o.code == 150) && o.code != 125
    ensures o.job.Some? ==>
              && w.session.loggedInUser.Some? && May(w, FILE_READ) && w.acceptorOpen
              && o.job.value.SendFile? && o.job.value.local == Local(w, path)
  {
    if w.session.loggedInUser.None? then Say(530)
    else if !May(w, FILE_READ) then Say(550)
    else if !w.acceptorOpen then Say(425)
    else if env.mapped.None? then Say(451)
    else Outcome(150, "", Keep, Some(SendFile(Local(w, path), env.mapped.value)))
  }

  function Size(w: World, path: string, env: Env): (o: Outcome)
    ensures o.change.Keep? && o.job.None? && !OpensTransfer(o.code)
  {
    if w.session.loggedInUser.None? then Say(530)
    else if !May(w, FILE_READ | DIR_LIST) then Say(550)
    else
      match Measured(w.disk, Target(w, path), env)
      case None => Say(451)
      case Some(n) => Tell(213, Decimal(n))
  }

  /** The length a stream reports: that of the content for a file, whatever the system says for anything else. */
  function Measured(d: Disk, p: Place, env: Env): Option<nat> {
    match Stat(d, p)
    case None => None
    case Some(File(ino)) => if env.callOk && ino in d.content then Some(|d.content[ino]|) else None
    case Some(_) => env.mapped
  }

  /** Opening a file for an upload: it fails if the tree forbids it or the system refuses. */
  function Store(w: World, call: Call, env: Env, code: nat, text: string): (o: Outcome)
    requires OpensTransfer(code)
    ensures Starts(o, code)
  {
    if env.callOk && Succeeds(w.disk, call) then Outcome(code, text, OnDisk(call), Some(Receive)) else Say(451)
  }

  function Stor(w: World, path: string, env: Env): (o: Outcome)
    ensures Starts(o, 150)
  {
    if w.session.loggedInUser.None? then Say(530)
    else if !May(w, FILE_WRITE) then Say(550)
    else if !w.acceptorOpen then Say(425)
    else
      var p := Target(w, path);
      match Stat(w.disk, p)
      case Some(File(_)) =>
        if !May(w, FILE_DELETE) then Say(553) else Store(w, Truncate(p, w.handled), env, 150, "")
      case Some(Dir) => Say(553)
      case _ => Store(w, Truncate(p, w.handled), env, 150, "")
  }

  const MAX_ATTEMPTS := 10

  function HexDigit(n: nat): char
    requires n < 16
  {
    if n < 10 then '0' + n as char else 'a' + (n - 10) as char
  }

  function Hex(n: nat, width: nat): string {
    if width == 0 then "" else Hex(n / 16, width - 1) + [HexDigit(n % 16)]
  }

  /** "FILE_" and eight hexadecimal digits of the drawn number. */
  function UniqueName(env: Env, attempt: nat): string {
    "FILE_" + Hex(if attempt < |env.draws| then env.draws[attempt] else 0, 8)
  }

  function StouFrom(w: World, env: Env, attempt: nat): (o: Outcome)
    requires w.session.loggedInUser.Some?
    ensures Starts(o, 125)
    decreases MAX_ATTEMPTS - attempt
  {
    if attempt >= MAX_ATTEMPTS then Say(451)
    else
      var p := Target(w, UniqueName(env, attempt));
      if Stat(w.disk, p).Some? then StouFrom(w, env, attempt + 1)
      else Store(w, Truncate(p, w.handled), env, 125, UniqueName(env, attempt))
  }

  function Stou(w: World, env: Env): (o: Outcome)
    ensures Starts(o, 125)
  {
    if w.session.loggedInUser.None? then Say(530)
    else if !May(w, FILE_WRITE) then Say(550)
    else if !w.acceptorOpen then Say(425)
    else StouFrom(w, env, 0)
  }

  function Appe(w: World, path: string, env: Env): (o: Outcome)
    ensures Starts(o, 150)
  {
    if w.session.loggedInUser.None? then Say(530)
    else
      var p := Target(w, path);
      match Stat(w.disk, p)
      case Some(node) =>
        if !May(w, FILE_APPEND) then Say(550)
        else if !node.File? then Say(550)
        else if !w.acceptorOpen then Say(425)
        else Store(w, Append(p, w.handled), env, 150, "")
      case None =>
        if !May(w, FILE_WRITE) then Say(550)
        else if !w.acceptorOpen then Say(425)
        else Store(w, Truncate(p, w.handled), env, 150, "")
  }

  /** 200 when the current user may rename what the path denotes, otherwise the code of the refusal. */
  function Renamable(w: World, path: string): (code: nat)
    ensures code in {200, 501, 530, 550}
  {
    if w.session.loggedInUser.None? then 530
    else if path == "" then 501
    else
      match Stat(w.disk, Target(w, path))
      case None => 550
      case Some(node) =>
        if Covers(w.session.loggedInUser.value.permissions, if node == Dir then DIR_RENAME else FILE_RENAME) then 200 else 550
  }

  function Rnfr(w: World, path: string): (o: Outcome)
    ensures o.change.SetRename? && o.job.None? && !OpensTransfer(o.code)
  {
    var code := Renamable(w, path);
    if code == 200 then Do(350, SetRename(path)) else Do(code, SetRename(""))
  }

  /** A call on one entry of the tree: done and answered with success, or refused. */
  function Attempt(w: World, call: Call, env: Env, success: nat, text: string, refusal: nat): (o: Outcome)
    requires !OpensTransfer(success) && !OpensTransfer(refusal)
    ensures (o.change.Keep? || (o.change == OnDisk(call) && Succeeds(w.disk, call))) && o.job.None? && !OpensTransfer(o.code)
  {
    if env.callOk && Succeeds(w.disk, call) then Outcome(success, text, OnDisk(call), None) else Say(refusal)
  }

  function Rnto(w: World, path: string, env: Env): (o: Outcome)
    ensures (o.change.Keep? || o.change.OnDisk?) && o.job.None? && !OpensTransfer(o.code)
    ensures o.change.OnDisk? ==>
              && w.session.loggedInUser.Some? && w.session.lastCommand == Some(RNFR) && w.session.renameFromPath != ""
              && o.change.call == Move(Target(w, w.session.renameFromPath), Target(w, path))
              && Succeeds(w.disk, o.change.call)
  {
    if w.session.loggedInUser.None? then Say(530)
    else if w.session.lastCommand != Some(RNFR) || w.session.renameFromPath == "" then Say(503)
    else if path == "" then Say(501)
    else if Renamable(w, w.session.renameFromPath) != 200 then Say(Renamable(w, w.session.renameFromPath))
    else if Stat(w.disk, Target(w, path)).Some? then Say(450)
    else Attempt(w, Move(Target(w, w.session.renameFromPath), Target(w, path)), env, 250, "", 450)
  }

  function Dele(w: World, path: string, env: Env): (o: Outcome)
    ensures (o.change.Keep? || o.change.OnDisk?) && o.job.None? && !OpensTransfer(o.code)
  {
    if w.session.loggedInUser.None? then Say(530)
    else
      match Stat(w.disk, Target(w, path))
      case Some(File(_)) =>
        if !May(w, FILE_DELETE) then Say(550) else Attempt(w, Delete(Target(w, path)), env, 250, "", 450)
      case _ => Say(550)
  }

  function RemoveDirectory(w: World, path: string, env: Env): (o: Outcome)
    ensures (o.change.Keep? || o.change.OnDisk?) && o.job.None? && !OpensTransfer(o.code)
  {
    if w.session.loggedInUser.None? then Say(530)
    else if !May(w, DIR_DELETE) then Say(550)
    else Attempt(w, RemoveDir(Target(w, path)), env, 250, "", 550)
  }

  const CREATED := " Successfully created"

  function MakeDirectory(w: World, path: string, env: Env): (o: Outcome)
    ensures (o.change.Keep? || o.change.OnDisk?) && o.job.None? && !OpensTransfer(o.code)
  {
    if w.session.loggedInUser.None? then Say(530)
    else if !May(w, DIR_CREATE) then Say(550)
    else
      var text := Quoted(AbsoluteFtpPath(w.session.workingDirectory, path)) + CREATED;
      Attempt(w, MakeDir(Target(w, path)), env, 257, text, 550)
  }

  function Pwd(w: World): (o: Outcome)
    ensures o.change.Keep? && o.job.None? && !OpensTransfer(o.code)
  {
    if w.session.loggedInUser.None? then Say(550) else Tell(257, Quoted(w.session.workingDirectory))
  }

  /** The directory a LIST names: options in the style of ls are dropped. */
  function ListTarget(param: string): string {
    if param == "-a" || param == "-l" || param == "-al" || param == "-la" then ""
    else if |param| > 3 && (param[..3] == "-a " || param[..3] == "-l ") then param[3..]
    else if |param| > 4 && (param[..4] == "-al " || param[..4] == "-la ") then param[4..]
    else param
  }

  function Listing(w: World, path: string, env: Env): (o: Outcome)
    ensures o.change.Keep? && (o.job.Some? <==> o.code == 150) && o.code != 125
    ensures o.job.Some? ==>
              && o.job.value == SendListing && w.session.loggedInUser.Some? && May(w, DIR_LIST)
              && Stat(w.disk, Target(w, path)) == Some(Dir)
  {
    if w.session.loggedInUser.None? then Say(530)
    else if !May(w, DIR_LIST) then Say(450)
    else if Stat(w.disk, Target(w, path)) == Some(Dir) && env.readable then Outcome(150, "", Keep, Some(SendListing))
    else Say(450)
  }

  function Mdtm(w: World, path: string, env: Env): (o: Outcome)
    ensures o.change.Keep? && o.job.None? && !OpensTransfer(o.code)
  {
    if w.session.loggedInUser.None? then Say(530)
    else if !May(w, FILE_READ | DIR_LIST) then Say(550)
    else if path == "" then Say(501)
    else
      match Stat(w.disk, Target(w, path))
      case Some(File(_)) => Tell(213, env.time)
      case _ => Say(550)
  }

  function Opts(param: string): (o: Outcome)
    ensures o.change.Keep? && o.job.None? && !OpensTransfer(o.code)
  {
    Say(if UpperText(param) == "UTF8 ON" then 200 else 504)
  }

  // ---------------------------------------------------------------- command lines

  const COMMAND_MAP: map<string, Verb> := map[
    "USER" := USER, "PASS" := PASS, "ACCT" := ACCT, "CWD" := CWD, "CDUP" := CDUP, "REIN" := REIN, "QUIT" := QUIT,
    "PORT" := PORT, "PASV" := PASV, "TYPE" := TYPE, "STRU" := STRU, "MODE" := MODE,
    "RETR" := RETR, "STOR" := STOR, "STOU" := STOU, "APPE" := APPE, "ALLO" := ALLO, "REST" := REST,
    "RNFR" := RNFR, "RNTO" := RNTO, "ABOR" := ABOR, "DELE" := DELE, "RMD" := RMD, "MKD" := MKD, "PWD" := PWD,
    "LIST" := LIST, "NLST" := NLST, "SITE" := SITE, "SYST" := SYST, "STAT" := STAT, "HELP" := HELP, "NOOP" := NOOP,
    "FEAT" := FEAT, "OPTS" := OPTS, "SIZE" := SIZE, "MDTM" := MDTM]

  function ParseCommand(command: string): (Option<Verb>, string) {
    var (word, parameters) := SplitCommand(command);
    var name := UpperText(word);
    (if name in COMMAND_MAP then Some(COMMAND_MAP[name]) else None, parameters)
  }

  /** The lines that stop the control connection are those dispatched to QUIT. */
  lemma QuitIsDispatched(line: string)
    ensures ParseCommand(line).0 == Some(QUIT) <==> IsQuit(line)
  {
    OneNameForQuit(UpperText(SplitCommand(line).0));
  }

  lemma OneNameForQuit(name: string)
    ensures (name in COMMAND_MAP && COMMAND_MAP[name] == QUIT) <==> name == "QUIT"
  {
  }

  /** Letter case in the verb makes no difference. */
  lemma CaseIgnored(a: string, b: string, parameter: string)
    requires ' ' !in a && ' ' !in b && UpperText(a) == UpperText(b)
    ensures ParseCommand(a + " " + parameter) == ParseCommand(b + " " + parameter)
  {
    SplitUndoesJoin(a, parameter);
    SplitUndoesJoin(b, parameter);
  }

  /** Commands that only answer. */
  function StubCode(verb: Verb): (code: nat)
    ensures !OpensTransfer(code)
  {
    match verb
    case REIN => 502
    case REST => 502
    case ABOR => 502
    case STAT => 502
    case HELP => 502
    case SYST => 215
    case NOOP => 200
    case FEAT => 211
    case _ => 500
  }

  function Dispatch(w: World, verb: Verb, param: string, env: Env): (o: Outcome)
    ensures match o.change
            case Keep => verb !in {USER, RNFR, QUIT}
            case NewName(_) => verb == USER
            case LogIn(_) => verb == PASS
            case GoTo(_) => verb in {CWD, CDUP}
            case SetBinary(_) => verb == TYPE
            case SetAcceptor(_) => verb == PASV
            case SetRename(_) => verb == RNFR
            case Leave => verb == QUIT
            case OnDisk(_) => verb in {STOR, STOU, APPE, RNTO, DELE, RMD, MKD}
    ensures o.job.Some? <==> OpensTransfer(o.code)
  {
    match verb
    case USER => User(w, param)
    case PASS => Pass(w, param)
    case CWD => ExecuteCwd(w, param, env)
    case CDUP => Cdup(w, env)
    case QUIT => Do(221, Leave)
    case PASV => Pasv(w, env)
    case TYPE => Type(w, param)
    case RETR => Retr(w, param, env)
    case SIZE => Size(w, param, env)
    case STOR => Stor(w, param, env)
    case STOU => Stou(w, env)
    case APPE => Appe(w, param, env)
    case RNFR => Rnfr(w, param)
    case RNTO => Rnto(w, param, env)
    case DELE => Dele(w, param, env)
    case RMD => RemoveDirectory(w, param, env)
    case MKD => MakeDirectory(w, param, env)
    case PWD => Pwd(w)
    case LIST => Listing(w, ListTarget(param), env)
    case NLST => Listing(w, param, env)
    case MDTM => Mdtm(w, param, env)
    case OPTS => Opts(param)
    case _ => Say(StubCode(verb))
  }

  // The handler of one verb.
  lemma DispatchedQuery(w: World, verb: Verb, param: string, env: Env)
    requires verb in {RETR, SIZE, MDTM}
    ensures Dispatch(w, verb, param, env) ==
            if verb == RETR then Retr(w, param, env) else if verb == SIZE then Size(w, param, env) else Mdtm(w, param, env)
  {
    if verb == RETR {
      assert Dispatch(w, RETR, param, env) == Retr(w, param, env);
    } else if verb == SIZE {
      assert Dispatch(w, SIZE, param, env) == Size(w, param, env);
    } else {
      assert Dispatch(w, MDTM, param, env) == Mdtm(w, param, env);
    }
  }

  lemma DispatchedStore(w: World, verb: Verb, param: string, env: Env)
    requires verb in {STOR, STOU, APPE}
    ensures Dispatch(w, verb, param, env) ==
            if verb == STOR then Stor(w, param, env) else if verb == STOU then Stou(w, env) else Appe(w, param, env)
  {
    if verb == STOR {
      assert Dispatch(w, STOR, param, env) == Stor(w, param, env);
    } else if verb == STOU {
      assert Dispatch(w, STOU, param, env) == Stou(w, env);
    } else {
      assert Dispatch(w, APPE, param, env) == Appe(w, param, env);
    }
  }

  lemma DispatchedRename(w: World, verb: Verb, param: string, env: Env)
    requires verb in {RNFR, RNTO}
    ensures Dispatch(w, verb, param, env) == if verb == RNFR then Rnfr(w, param) else Rnto(w, param, env)
  {
    if verb == RNFR {
      assert Dispatch(w, RNFR, param, env) == Rnfr(w, param);
    } else {
      assert Dispatch(w, RNTO, param, env) == Rnto(w, param, env);
    }
  }

  lemma DispatchedEntry(w: World, verb: Verb, param: string, env: Env)
    requires verb in {DELE, RMD, MKD}
    ensures Dispatch(w, verb, param, env) ==
            if verb == DELE then Dele(w, param, env)
            else if verb == RMD then RemoveDirectory(w, param, env)
            else MakeDirectory(w, param, env)
  {
    if verb == DELE {
      assert Dispatch(w, DELE, param, env) == Dele(w, param, env);
    } else if verb == RMD {
      assert Dispatch(w, RMD, param, env) == RemoveDirectory(w, param, env);
    } else {
      assert Dispatch(w, MKD, param, env) == MakeDirectory(w, param, env);
    }
  }

  function Outcomes(w: World, verb: Option<Verb>, param: string, env: Env): Outcome {
    match verb
    case None => Say(500)
    case Some(v) => Dispatch(w, v, param, env)
  }

  /** What a handler leaves behind: the reply is posted, the change made, and a transfer waits for its data connection. */
  function Done(w: World, o: Outcome): World {
    World(
      w.users,
      SessionAfter(w.session, o.change),
      if o.change.SetAcceptor? then o.change.open else w.acceptorOpen,
      w.reading,
      if o.change.OnDisk? then Apply(w.disk, o.change.call) else w.disk,
      w.handled,
      if o.job.Some? then w.transfers[w.handled := Waiting(o.job.value)] else w.transfers,
      w.log + [Reply(w.handled, true, o.code, o.text)])
  }

  /** Only recognized commands are remembered, and reading goes on unless QUIT was handled. */
  function Respond(w: World, verb: Option<Verb>, o: Outcome): World {
    var d := Done(w, o);
    d.(session := if verb.Some? then d.session.(lastCommand := verb) else d.session,
       reading := !d.session.shutdownRequested,
       handled := w.handled + 1)
  }

  function HandleCommand(w: World, verb: Option<Verb>, param: string, env: Env): World {
    Respond(w, verb, Outcomes(w, verb, param, env))
  }

  // ---------------------------------------------------------------- transfers

  datatype Acceptance = Failed | Rejected | Connected

  /** A reply that ends a transfer. */
  function Conclude(w: World, id: nat, code: nat): World {
    w.(log := w.log + [Reply(id, false, code, "")], transfers := w.transfers[id := Finished], disk := Close(w.disk, id))
  }

  function Accept(w: World, id: nat, outcome: Acceptance): World
    requires id in w.transfers && w.transfers[id].Waiting?
  {
    match outcome
    case Failed => Conclude(w, id, 426)
    case Rejected => Conclude(w.(acceptorOpen := false), id, 425)
    case Connected =>
      var w' := w.(acceptorOpen := false);
      if SendsNothing(w.transfers[id].job) then Conclude(w', id, 226)
      else w'.(transfers := w.transfers[id := Running(w.transfers[id].job)])
  }

  /** The last write of a download or listing has ended. */
  function EndSend(w: World, id: nat, ok: bool): World
    requires id in w.transfers && w.transfers[id].Running?
  {
    if ok then Conclude(w, id, 226)
    else if w.transfers[id].job == SendListing then w.(transfers := w.transfers[id := Abandoned])
    else Conclude(w, id, 426)
  }

  datatype Event =
    | Command(verb: Option<Verb>, param: string, env: Env)
    | ControlLost
    | UserAdded(name: string, user: FtpUser)
    | Accepted(id: nat, outcome: Acceptance)
    | Chunk(id: nat, data: string)
    | UploadEnded(id: nat)
    | Sent(id: nat, ok: bool)

  predicate IsRunning(w: World, id: nat, receiving: bool) {
    id in w.transfers && w.transfers[id].Running? && (w.transfers[id].job == Receive) == receiving
  }

  /** An event that cannot occur changes nothing. */
  function Step(w: World, e: Event): World {
    match e
    case Command(verb, param, env) => if w.reading then HandleCommand(w, verb, param, env) else w
    case ControlLost => if w.reading then w.(reading := false, acceptorOpen := false) else w
    case UserAdded(name, user) => w.(users := Added(w.users, name, user))
    case Accepted(id, outcome) =>
      if id in w.transfers && w.transfers[id].Waiting? then Accept(w, id, outcome) else w
    case Chunk(id, data) => if IsRunning(w, id, true) then w.(disk := Write(w.disk, id, data)) else w
    case UploadEnded(id) => if IsRunning(w, id, true) then Conclude(w, id, 226) else w
    case Sent(id, ok) => if IsRunning(w, id, false) then EndSend(w, id, ok) else w
  }

  function Run(w: World, events: seq<Event>): World {
    if events == [] then w else Step(Run(w, events[..|events| - 1]), events[|events| - 1])
  }
}
