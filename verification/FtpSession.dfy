/** The session object: fields updated in place by one handler per command. */
module FtpSessions {
  import opened Wrappers
  import opened Permissions
  import opened Users
  import opened Paths
  import opened Meaning
  import opened Resolution
  import opened Disks
  import opened ReplyText
  import opened CommandLines
  import opened Sessions

  class FtpSession {
    const userDatabase: UserDatabase
    var loggedInUser: Option<FtpUser>
    var usernameForLogin: string
    var lastCommand: Option<Verb>
    var renameFromPath: string
    var ftpWorkingDirectory: string
    var dataTypeBinary: bool
    var shutdownRequested: bool
    var acceptorOpen: bool
    var reading: bool
    // the file tree outside the server
    var disk: Disk
    var handled: nat
    // what the session has posted and begun
    ghost var transfers: map<nat, Transfer>
    ghost var log: seq<Reply>

    ghost function State(): World
      reads this, userDatabase
    {
      World(
        userDatabase.Table(),
        Session(loggedInUser, usernameForLogin, lastCommand, renameFromPath, ftpWorkingDirectory, dataTypeBinary,
                shutdownRequested),
        acceptorOpen, reading, disk, handled, transfers, log)
    }

    constructor (userDatabase: UserDatabase, disk: Disk)
      ensures this.userDatabase == userDatabase
      ensures State() == Start(userDatabase.Table(), disk)
    {
      this.userDatabase := userDatabase;
      loggedInUser, usernameForLogin, lastCommand, renameFromPath := None, "", None, "";
      ftpWorkingDirectory, dataTypeBinary, shutdownRequested := "/", false, false;
      acceptorOpen, reading := false, true;
      this.disk := disk;
      handled, transfers, log := 0, map[], [];
    }

    // -------------------------------------------------------------- helpers

    method SendFtpMessage(code: nat, text: string)
      modifies this`log
      ensures log == old(log) + [Reply(handled, true, code, text)]
    {
      log := log + [Reply(handled, true, code, text)];
    }

    method Send(code: nat)
      modifies this`log
      ensures State() == Done(old(State()), Say(code))
    {
      SendFtpMessage(code, "");
    }

    method AcceptDataConnection(job: Job)
      modifies this`transfers
      ensures transfers == old(transfers)[handled := Waiting(job)]
    {
      transfers := transfers[handled := Waiting(job)];
    }

    /** A system call that changes the tree: refused by the tree or by the system, or carried out. */
    method Call(call: Call, env: Env) returns (ok: bool)
      modifies this`disk
      ensures ok <==> env.callOk && Succeeds(old(disk), call)
      ensures disk == if ok then Apply(old(disk), call) else old(disk)
    {
      ok := env.callOk && Succeeds(disk, call);
      if ok {
        disk := Apply(disk, call);
      }
    }

    method ToAbsoluteFtpPath(path: string) returns (absolute: string)
      ensures absolute == AbsoluteFtpPath(ftpWorkingDirectory, path)
    {
      if path != "" && path[0] == '/' {
        absolute := CleanPath(path, false, '/');
      } else {
        absolute := CleanPath(ftpWorkingDirectory + "/" + path, false, '/');
      }
    }

    method ToLocalPath(path: string) returns (local: string)
      requires loggedInUser.Some?
      ensures local == Local(State(), path)
    {
      var absolute := ToAbsoluteFtpPath(path);
      local := CleanPath(loggedInUser.value.localRootPath + "/" + absolute, false, '/');
    }

    /** The status of what a client path denotes, and where it stands. */
    method FileStatus(path: string) returns (place: Place, status: Option<Node>)
      requires loggedInUser.Some?
      ensures place == Target(State(), path) && status == Stat(disk, place)
    {
      var local := ToLocalPath(path);
      place := At(disk, local);
      status := Stat(disk, place);
    }

    // -------------------------------------------------------------- access control

    method HandleUSER(param: string)
      modifies this
      ensures State() == Done(old(State()), User(old(State()), param))
    {
      loggedInUser := None;
      usernameForLogin := param;
      ftpWorkingDirectory := "/";
      if param == "" {
        SendFtpMessage(501, "");
      } else {
        SendFtpMessage(331, "");
      }
    }

    method HandlePASS(param: string)
      modifies this
      ensures State() == Done(old(State()), Pass(old(State()), param))
    {
      if lastCommand != Some(USER) || usernameForLogin == "" {
        Send(503);
        return;
      }
      var user := userDatabase.GetUser(usernameForLogin, param);
      if user.Some? {
        loggedInUser := user;
        SendFtpMessage(230, "");
      } else {
        Send(530);
      }
    }

    /** Changes the working directory if the path names a directory that can be opened; returns the answer. */
    method ExecuteCWD(param: string, env: Env) returns (code: nat, message: string)
      modifies this`ftpWorkingDirectory
      ensures var o := ExecuteCwd(old(State()), param, env);
              && code == o.code && message == o.text
              && ftpWorkingDirectory == if o.change.GoTo? then o.change.dir else old(ftpWorkingDirectory)
    {
      if loggedInUser.None? {
        return 530, "";
      }
      if !Grants(loggedInUser.value.permissions, DIR_LIST) {
        return 550, "";
      }
      if param == "" {
        return 501, "";
      }
      var changed := ToAbsoluteFtpPath(param);
      var _, status := FileStatus(changed);
      if status.None? {
        return 550, "";
      }
      if status.value != Dir {
        return 550, "";
      }
      if !env.readable {
        return 550, "";
      }
      ftpWorkingDirectory := changed;
      return 250, changed;
    }

    /** Changes the directory and answers, with the given code for success. */
    method ChangeAndAnswer(param: string, env: Env, success: nat)
      modifies this
      ensures State() == Done(old(State()), WithCode(ExecuteCwd(old(State()), param, env), success))
    {
      ghost var o := ExecuteCwd(State(), param, env);
      var code, message := ExecuteCWD(param, env);
      assert State().session == SessionAfter(old(State()).session, o.change);
      if code == 250 {
        SendFtpMessage(success, message);
      } else {
        SendFtpMessage(code, message);
      }
    }

    method HandleCWD(param: string, env: Env)
      modifies this
      ensures State() == Done(old(State()), ExecuteCwd(old(State()), param, env))
    {
      ChangeAndAnswer(param, env, 250);
    }

    method HandleCDUP(env: Env)
      modifies this
      ensures State() == Done(old(State()), Cdup(old(State()), env))
    {
      if loggedInUser.None? {
        Send(530);
      } else if !Grants(loggedInUser.value.permissions, DIR_LIST) {
        Send(550);
      } else if ftpWorkingDirectory != "/" {
        ChangeAndAnswer("..", env, 200);
      } else {
        Send(550);
      }
    }

    method HandleQUIT()
      modifies this
      ensures State() == Done(old(State()), Do(221, Leave))
    {
      loggedInUser := None;
      shutdownRequested := true;
      SendFtpMessage(221, "");
    }

    // -------------------------------------------------------------- transfer parameters

    method HandlePASV(env: Env)
      modifies this
      ensures State() == Done(old(State()), Pasv(old(State()), env))
    {
      if loggedInUser.None? {
        Send(530);
      } else {
        if acceptorOpen {
          acceptorOpen := false;
        }
        OpenPassive(env.passive);
      }
    }

    /** Opens the acceptor on a new port and tells the client. */
    method OpenPassive(passive: Passive)
      requires loggedInUser.Some? && !acceptorOpen
      modifies this`acceptorOpen, this`log
      ensures State() == Done(old(State()), PassiveOutcome(passive))
    {
      match passive {
        case NoEndpoint => SendFtpMessage(421, "");
        case OpenFailed => SendFtpMessage(421, "");
        case ListenFailed =>
          acceptorOpen := true;
          SendFtpMessage(421, "");
        case Listening(address, port) =>
          acceptorOpen := true;
          SendFtpMessage(227, PassiveText(address, port));
      }
    }

    method HandleTYPE(param: string)
      modifies this
      ensures State() == Done(old(State()), Type(old(State()), param))
    {
      if loggedInUser.None? {
        Send(530);
      } else if param == "A" {
        dataTypeBinary := false;
        SendFtpMessage(200, "");
      } else if param == "I" {
        dataTypeBinary := true;
        SendFtpMessage(200, "");
      } else {
        Send(504);
      }
    }

    // -------------------------------------------------------------- files

    /** Sends what the file cache delivers for a local path. */
    method SendMapped(local: string, mapped: Option<nat>)
      modifies this
      ensures State() == Done(old(State()), if mapped.None? then Say(451) else
                                            Outcome(150, "", Keep, Some(SendFile(local, mapped.value))))
    {
      if mapped.None? {
        Send(451);
      } else {
        SendFtpMessage(150, "");
        AcceptDataConnection(SendFile(local, mapped.value));
      }
    }

    method HandleRETR(param: string, env: Env)
      modifies this
      ensures State() == Done(old(State()), Retr(old(State()), param, env))
    {
      if loggedInUser.None? {
        Send(530);
      } else if !Grants(loggedInUser.value.permissions, FILE_READ) {
        Send(550);
      } else if !acceptorOpen {
        Send(425);
      } else {
        var local := ToLocalPath(param);
        SendMapped(local, env.mapped);
      }
    }

    method HandleSIZE(param: string, env: Env)
      modifies this
      ensures State() == Done(old(State()), Size(old(State()), param, env))
    {
      if loggedInUser.None? {
        Send(530);
        return;
      }
      if !Grants(loggedInUser.value.permissions, FILE_READ | DIR_LIST) {
        Send(550);
        return;
      }
      var place, _ := FileStatus(param);
      var size := Measured(disk, place, env);
      if size.None? {
        Send(451);
      } else {
        SendFtpMessage(213, Decimal(size.value));
      }
    }

    /** Opens a file for an upload and begins to receive. */
    method ReceiveInto(call: Call, env: Env, code: nat, text: string)
      requires OpensTransfer(code)
      modifies this
      ensures State() == Done(old(State()), Store(old(State()), call, env, code, text))
    {
      var good := Call(call, env);
      if !good {
        Send(451);
        return;
      }
      SendFtpMessage(code, text);
      AcceptDataConnection(Receive);
    }

    method HandleSTOR(param: string, env: Env)
      modifies this
      ensures State() == Done(old(State()), Stor(old(State()), param, env))
    {
      if loggedInUser.None? {
        Send(530);
        return;
      }
      if !Grants(loggedInUser.value.permissions, FILE_WRITE) {
        Send(550);
        return;
      }
      if !acceptorOpen {
        Send(425);
        return;
      }
      var place, status := FileStatus(param);
      if status.Some? {
        if status.value.File? && !Grants(loggedInUser.value.permissions, FILE_DELETE) {
          Send(553);
          return;
        } else if status.value == Dir {
          Send(553);
          return;
        }
      }
      ReceiveInto(Truncate(place, handled), env, 150, "");
    }

    method HandleSTOU(env: Env)
      modifies this
      ensures State() == Done(old(State()), Stou(old(State()), env))
    {
      if loggedInUser.None? {
        Send(530);
        return;
      }
      if !Grants(loggedInUser.value.permissions, FILE_WRITE) {
        Send(550);
        return;
      }
      if !acceptorOpen {
        Send(425);
        return;
      }
      for attempt := 0 to MAX_ATTEMPTS
        invariant State() == old(State())
        invariant StouFrom(State(), env, attempt) == StouFrom(State(), env, 0)
      {
        var name := UniqueName(env, attempt);
        var place, status := FileStatus(name);
        if status.None? {
          ReceiveInto(Truncate(place, handled), env, 125, name);
          return;
        }
      }
      Send(451);
    }

    method HandleAPPE(param: string, env: Env)
      modifies this
      ensures State() == Done(old(State()), Appe(old(State()), param, env))
    {
      if loggedInUser.None? {
        Send(530);
        return;
      }
      var place, status := FileStatus(param);
      if status.Some? {
        if !Grants(loggedInUser.value.permissions, FILE_APPEND) {
          Send(550);
          return;
        }
        if !status.value.File? {
          Send(550);
          return;
        }
      } else {
        if !Grants(loggedInUser.value.permissions, FILE_WRITE) {
          Send(550);
          return;
        }
      }
      if !acceptorOpen {
        Send(425);
        return;
      }
      if status.Some? {
        ReceiveInto(Append(place, handled), env, 150, "");
      } else {
        ReceiveInto(Truncate(place, handled), env, 150, "");
      }
    }

    method CheckIfPathIsRenamable(path: string) returns (code: nat)
      ensures code == Renamable(State(), path)
    {
      if loggedInUser.None? {
        return 530;
      }
      if path == "" {
        return 501;
      }
      var _, status := FileStatus(path);
      if status.None? {
        return 550;
      }
      var required := if status.value == Dir then DIR_RENAME else FILE_RENAME;
      if !Covers(loggedInUser.value.permissions, required) {
        return 550;
      }
      return 200;
    }

    method HandleRNFR(param: string)
      modifies this
      ensures State() == Done(old(State()), Rnfr(old(State()), param))
    {
      renameFromPath := "";
      var code := CheckIfPathIsRenamable(param);
      if code == 200 {
        renameFromPath := param;
        SendFtpMessage(350, "");
      } else {
        SendFtpMessage(code, "");
      }
    }

    /** A call on one entry, and its answer. */
    method CallAndAnswer(call: Call, env: Env, success: nat, text: string, refusal: nat)
      requires !OpensTransfer(success) && !OpensTransfer(refusal)
      modifies this
      ensures State() == Done(old(State()), Attempt(old(State()), call, env, success, text, refusal))
    {
      var ok := Call(call, env);
      if ok {
        SendFtpMessage(success, text);
      } else {
        Send(refusal);
      }
    }

    method HandleRNTO(param: string, env: Env)
      modifies this
      ensures State() == Done(old(State()), Rnto(old(State()), param, env))
    {
      if loggedInUser.None? {
        Send(530);
        return;
      }
      if lastCommand != Some(RNFR) || renameFromPath == "" {
        Send(503);
        return;
      }
      if param == "" {
        Send(501);
        return;
      }
      var code := CheckIfPathIsRenamable(renameFromPath);
      if code != 200 {
        Send(code);
        return;
      }
      var source, _ := FileStatus(renameFromPath);
      var target, status := FileStatus(param);
      if status.Some? {
        Send(450);
        return;
      }
      CallAndAnswer(Move(source, target), env, 250, "", 450);
    }

    method HandleDELE(param: string, env: Env)
      modifies this
      ensures State() == Done(old(State()), Dele(old(State()), param, env))
    {
      if loggedInUser.None? {
        Send(530);
        return;
      }
      var place, status := FileStatus(param);
      if status.None? {
        Send(550);
      } else if !status.value.File? {
        Send(550);
      } else if !Grants(loggedInUser.value.permissions, FILE_DELETE) {
        Send(550);
      } else {
        CallAndAnswer(Delete(place), env, 250, "", 450);
      }
    }

    method HandleRMD(param: string, env: Env)
      modifies this
      ensures State() == Done(old(State()), RemoveDirectory(old(State()), param, env))
    {
      if loggedInUser.None? {
        Send(530);
      } else if !Grants(loggedInUser.value.permissions, DIR_DELETE) {
        Send(550);
      } else {
        var place, _ := FileStatus(param);
        CallAndAnswer(RemoveDir(place), env, 250, "", 550);
      }
    }

    method HandleMKD(param: string, env: Env)
      modifies this
      ensures State() == Done(old(State()), MakeDirectory(old(State()), param, env))
    {
      if loggedInUser.None? {
        Send(530);
        return;
      }
      if !Grants(loggedInUser.value.permissions, DIR_CREATE) {
        Send(550);
        return;
      }
      var place, _ := FileStatus(param);
      var absolute := ToAbsoluteFtpPath(param);
      var text := CreateQuotedFtpPath(absolute);
      CallAndAnswer(MakeDir(place), env, 257, text + CREATED, 550);
    }

    method HandlePWD()
      modifies this
      ensures State() == Done(old(State()), Pwd(old(State())))
    {
      if loggedInUser.None? {
        Send(550);
      } else {
        var text := CreateQuotedFtpPath(ftpWorkingDirectory);
        SendFtpMessage(257, text);
      }
    }

    /** LIST and NLST, once the path is known. */
    method SendListingOf(path: string, env: Env)
      modifies this
      ensures State() == Done(old(State()), Listing(old(State()), path, env))
    {
      if loggedInUser.None? {
        Send(530);
        return;
      }
      if !Grants(loggedInUser.value.permissions, DIR_LIST) {
        Send(450);
        return;
      }
      var _, status := FileStatus(path);
      if status.None? {
        Send(450);
      } else if status.value != Dir {
        Send(450);
      } else if env.readable {
        SendFtpMessage(150, "");
        AcceptDataConnection(SendListing);
      } else {
        Send(450);
      }
    }

    method HandleMDTM(param: string, env: Env)
      modifies this
      ensures State() == Done(old(State()), Mdtm(old(State()), param, env))
    {
      if loggedInUser.None? {
        Send(530);
        return;
      }
      if !Grants(loggedInUser.value.permissions, FILE_READ | DIR_LIST) {
        Send(550);
        return;
      }
      if param == "" {
        Send(501);
        return;
      }
      var _, status := FileStatus(param);
      if status.None? || !status.value.File? {
        Send(550);
      } else {
        SendFtpMessage(213, env.time);
      }
    }

    method HandleOPTS(param: string)
      modifies this
      ensures State() == Done(old(State()), Opts(param))
    {
      if UpperText(param) == "UTF8 ON" {
        Send(200);
      } else {
        Send(504);
      }
    }

    // -------------------------------------------------------------- one command line

    /** The part of the command map that concerns the login, the directory and the connection. */
    method CallSessionHandler(verb: Verb, param: string, env: Env)
      requires verb in {USER, PASS, CWD, CDUP, QUIT, PASV, TYPE, PWD, OPTS}
      modifies this
      ensures State() == Done(old(State()), Dispatch(old(State()), verb, param, env))
    {
      match verb {
        case USER => HandleUSER(param);
        case PASS => HandlePASS(param);
        case CWD => HandleCWD(param, env);
        case CDUP => HandleCDUP(env);
        case QUIT => HandleQUIT();
        case PASV => HandlePASV(env);
        case TYPE => HandleTYPE(param);
        case PWD => HandlePWD();
        case OPTS => HandleOPTS(param);
      }
    }

    /** The part that writes files. */
    method CallStoreHandler(verb: Verb, param: string, env: Env)
      requires verb in {STOR, STOU, APPE}
      modifies this
      ensures State() == Done(old(State()), Dispatch(old(State()), verb, param, env))
    {
      DispatchedStore(State(), verb, param, env);
      match verb {
        case STOR => HandleSTOR(param, env);
        case STOU => HandleSTOU(env);
        case APPE => HandleAPPE(param, env);
      }
    }

    method CallRenameHandler(verb: Verb, param: string, env: Env)
      requires verb in {RNFR, RNTO}
      modifies this
      ensures State() == Done(old(State()), Dispatch(old(State()), verb, param, env))
    {
      DispatchedRename(State(), verb, param, env);
      match verb {
        case RNFR => HandleRNFR(param);
        case RNTO => HandleRNTO(param, env);
      }
    }

    /** The part that adds and removes the entries of directories. */
    method CallEntryHandler(verb: Verb, param: string, env: Env)
      requires verb in {DELE, RMD, MKD}
      modifies this
      ensures State() == Done(old(State()), Dispatch(old(State()), verb, param, env))
    {
      DispatchedEntry(State(), verb, param, env);
      match verb {
        case DELE => HandleDELE(param, env);
        case RMD => HandleRMD(param, env);
        case MKD => HandleMKD(param, env);
      }
    }

    /** The part that only looks at a file. */
    method CallQueryHandler(verb: Verb, param: string, env: Env)
      requires verb in {RETR, SIZE, MDTM}
      modifies this
      ensures State() == Done(old(State()), Dispatch(old(State()), verb, param, env))
    {
      DispatchedQuery(State(), verb, param, env);
      match verb {
        case RETR => HandleRETR(param, env);
        case SIZE => HandleSIZE(param, env);
        case MDTM => HandleMDTM(param, env);
      }
    }

    method CallHandler(verb: Verb, param: string, env: Env)
      modifies this
      ensures State() == Done(old(State()), Dispatch(old(State()), verb, param, env))
    {
      if verb in {USER, PASS, CWD, CDUP, QUIT, PASV, TYPE, PWD, OPTS} {
        CallSessionHandler(verb, param, env);
      } else if verb in {STOR, STOU, APPE} {
        CallStoreHandler(verb, param, env);
      } else if verb in {RNFR, RNTO} {
        CallRenameHandler(verb, param, env);
      } else if verb in {DELE, RMD, MKD} {
        CallEntryHandler(verb, param, env);
      } else if verb in {RETR, SIZE, MDTM} {
        CallQueryHandler(verb, param, env);
      } else if verb in {LIST, NLST} {
        SendListingOf(if verb == LIST then ListTarget(param) else param, env);
      } else {
        Send(StubCode(verb));
      }
    }

    /** Splits the line at its first space, looks the verb up regardless of case and calls its handler. */
    method HandleFtpCommand(command: string, env: Env)
      modifies this
      ensures var (verb, param) := ParseCommand(command);
              State() == HandleCommand(old(State()), verb, param, env)
    {
      var (word, parameters) := SplitCommand(command);
      var ftpCommand := UpperText(word);
      var verb := if ftpCommand in COMMAND_MAP then Some(COMMAND_MAP[ftpCommand]) else None;
      if verb.Some? {
        CallHandler(verb.value, parameters, env);
        lastCommand := verb;
      } else {
        Send(500);
      }
      reading := !shutdownRequested;
      handled := handled + 1;
    }

    /** The control connection was lost while a command was awaited. */
    method ReadFailed()
      requires reading
      modifies this`reading, this`acceptorOpen
      ensures State() == Step(old(State()), ControlLost)
    {
      reading := false;
      acceptorOpen := false;
    }

    // -------------------------------------------------------------- data connections

    /** A reply that ends the transfer begun by command id; its file is closed if it had one open. */
    method EndTransfer(id: nat, code: nat)
      modifies this
      ensures State() == Conclude(old(State()), id, code)
    {
      disk := Close(disk, id);
      log := log + [Reply(id, false, code, "")];
      transfers := transfers[id := Finished];
    }

    /** The handler of the accept that command id started, with the job its closure captured. */
    method ConnectionHandler(id: nat, job: Job, outcome: Acceptance)
      requires id in transfers && transfers[id] == Waiting(job)
      modifies this
      ensures State() == Accept(old(State()), id, outcome)
    {
      if outcome.Failed? {
        EndTransfer(id, 426);
        return;
      }
      acceptorOpen := false;
      if outcome.Rejected? {
        EndTransfer(id, 425);
        return;
      }
      if SendsNothing(job) {
        EndTransfer(id, 226);
      } else {
        transfers := transfers[id := Running(job)];
      }
    }

    /** The last write of a download or a listing has completed, or one has failed. */
    method SendingHandler(id: nat, job: Job, ok: bool)
      requires id in transfers && transfers[id] == Running(job)
      modifies this
      ensures State() == EndSend(old(State()), id, ok)
    {
      if ok {
        EndTransfer(id, 226);
      } else if job == SendListing {
        transfers := transfers[id := Abandoned];
      } else {
        EndTransfer(id, 426);
      }
    }

    method WriteDataToFile(id: nat, data: string)
      requires IsRunning(State(), id, true)
      modifies this`disk
      ensures State() == Step(old(State()), Chunk(id, data))
    {
      disk := Write(disk, id, data);
    }

    method EndDataReceiving(id: nat)
      requires IsRunning(State(), id, true)
      modifies this
      ensures State() == Step(old(State()), UploadEnded(id))
    {
      EndTransfer(id, 226);
    }
  }
}
