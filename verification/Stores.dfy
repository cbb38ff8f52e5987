/** What an upload leaves in the tree while the session goes on: the session, the tree and the upload put together. */
module Stores {
  import opened Wrappers
  import opened Meaning
  import opened Disks
  import opened Sessions
  import opened Calls
  import opened Histories
  import opened Replies
  import Uploads

  // ---------------------------------------------------------------- one file, one upload

  /** The upload begun by command id waits for its connection or is under way. */
  predicate Receives(w: World, id: nat) {
    id in w.transfers && (w.transfers[id] == Waiting(Receive) || w.transfers[id] == Running(Receive))
  }

  /** No other upload has the file open, and as long as this one lasts it stands at the end of the file. */
  predicate Owns(w: World, id: nat, ino: nat) {
    && id in w.transfers && ino in w.disk.content
    && (forall other | other in w.disk.handles && other != id :: w.disk.handles[other].ino != ino)
    && (Receives(w, id) ==> AtEnd(w.disk, id) && w.disk.handles[id].ino == ino)
  }

  /** The call does not open the file once more. It may remove the file or move it. */
  predicate LeavesAlone(d: Disk, call: Call, ino: nat) {
    match call
    case Truncate(p, _) => !(p in d.tree && d.tree[p] == File(ino))
    case Append(p, _) => !(p in d.tree && d.tree[p] == File(ino))
    case _ => true
  }

  /** What an upload does to its file. */
  datatype Output = Wrote(data: string) | Ended

  function TextOf(outputs: seq<Output>): string {
    if outputs == [] then "" else (if outputs[0].Wrote? then outputs[0].data else "") + TextOf(outputs[1..])
  }

  lemma {:induction false} TextOfConcat(a: seq<Output>, b: seq<Output>)
    ensures TextOf(a + b) == TextOf(a) + TextOf(b)
    decreases |a|
  {
    if a == [] {
      assert a + b == b;
    } else {
      assert (a + b)[1..] == a[1..] + b;
      TextOfConcat(a[1..], b);
    }
  }

  lemma TextOfOne(o: Output)
    ensures TextOf([o]) == if o.Wrote? then o.data else ""
  {
  }

  // ---------------------------------------------------------------- what a session does for an upload

  function OutputOf(w: World, e: Event, id: nat): seq<Output> {
    if e.Chunk? && e.id == id && IsRunning(w, id, true) then [Wrote(e.data)]
    else if e.UploadEnded? && e.id == id && IsRunning(w, id, true) then [Output.Ended]
    else []
  }

  function Outputs(w: World, events: seq<Event>, id: nat): seq<Output> {
    if events == [] then [] else
    var before := events[..|events| - 1];
    Outputs(w, before, id) + OutputOf(Run(w, before), events[|events| - 1], id)
  }

  /** A call by any other command or event leaves the upload its file. */
  lemma OtherCallKeeps(d: Disk, call: Call, id: nat, ino: nat)
    requires Valid(d) && ino in d.content
    requires forall other | other in d.handles && other != id :: d.handles[other].ino != ino
    requires LeavesAlone(d, call, ino)
    requires (call.Truncate? || call.Append? || call.WriteTo? || call.CloseIt?) ==> call.id != id
    ensures var after := Apply(d, call);
            && ino in after.content && after.content[ino] == d.content[ino]
            && (forall other | other in after.handles && other != id :: after.handles[other].ino != ino)
            && (id in d.handles ==> id in after.handles && after.handles[id] == d.handles[id])
  {
    if call.WriteTo? {
      OtherWriteKeeps(d, call.id, call.data, id, ino);
    }
  }

  lemma OtherWriteKeeps(d: Disk, writer: nat, data: string, id: nat, ino: nat)
    requires Valid(d) && ino in d.content && writer != id
    requires forall other | other in d.handles && other != id :: d.handles[other].ino != ino
    ensures var after := Write(d, writer, data);
            && ino in after.content && after.content[ino] == d.content[ino]
            && (forall other | other in after.handles && other != id :: after.handles[other].ino != ino)
            && (id in d.handles ==> id in after.handles && after.handles[id] == d.handles[id])
  {
  }

  /** Which upload a call belongs to. */
  predicate IsCallFor(call: Call, id: nat) {
    (call.Truncate? || call.Append? || call.WriteTo? || call.CloseIt?) && call.id == id
  }

  lemma StoreCallsForItself(w: World, verb: Verb, param: string, env: Env)
    requires verb in {STOR, STOU, APPE}
    ensures var change := Dispatch(w, verb, param, env).change;
            change.OnDisk? ==> (change.call.Truncate? || change.call.Append?) && change.call.id == w.handled
  {
    StoreStarts(w, verb, param, env);
    StoreMakesCall(w, verb, param, env);
  }

  lemma EntryCallsForNobody(w: World, verb: Verb, param: string, env: Env)
    requires verb in {RNTO, DELE, RMD, MKD}
    ensures var change := Dispatch(w, verb, param, env).change;
            change.OnDisk? ==> change.call.Move? || change.call.Delete? || change.call.RemoveDir? || change.call.MakeDir?
  {
    if verb == RNTO {
      DispatchedRename(w, verb, param, env);
    } else {
      DispatchedEntry(w, verb, param, env);
    }
  }

  /** A command makes no call for an upload but the one that opens the file of its own. */
  lemma CommandCallsForItself(w: World, verb: Verb, param: string, env: Env, id: nat)
    requires id != w.handled
    ensures var change := Dispatch(w, verb, param, env).change; change.OnDisk? ==> !IsCallFor(change.call, id)
  {
    if verb in {STOR, STOU, APPE} {
      StoreCallsForItself(w, verb, param, env);
    } else if verb in {RNTO, DELE, RMD, MKD} {
      EntryCallsForNobody(w, verb, param, env);
    }
  }

  lemma StoreStarts(w: World, verb: Verb, param: string, env: Env)
    requires verb in {STOR, STOU, APPE}
    ensures Starts(Dispatch(w, verb, param, env), if verb == STOU then 125 else 150)
  {
    DispatchedStore(w, verb, param, env);
  }

  lemma CommandKeepsTransfer(w: World, e: Event, id: nat)
    requires id in w.transfers && id != w.handled && e.Command?
    ensures id in Step(w, e).transfers && Step(w, e).transfers[id] == w.transfers[id]
  {
    if w.reading {
      StepResponds(w, e.verb, e.param, e.env);
    }
  }

  /** A command does not touch the handle or the transfer of an earlier one. */
  lemma CommandIsNotFor(w: World, e: Event, id: nat)
    requires Disciplined(w) && id in w.transfers && e.Command?
    ensures !IsCallFor(CallOf(w, e), id)
    ensures id in Step(w, e).transfers && Step(w, e).transfers[id] == w.transfers[id]
  {
    NewCommandIsNew(w);
    CommandKeepsTransfer(w, e, id);
    if e.verb.Some? {
      CommandCallsForItself(w, e.verb.value, e.param, e.env, id);
    }
  }

  lemma EventIsNotFor(w: World, e: Event, id: nat)
    requires id in w.transfers && !e.Command?
    requires OutputOf(w, e, id) == []
    ensures IsCallFor(CallOf(w, e), id) ==> CallOf(w, e).CloseIt? && !Receives(Step(w, e), id)
    ensures id in Step(w, e).transfers && (Receives(Step(w, e), id) ==> Receives(w, id))
  {
  }

  lemma CloseKeeps(d: Disk, id: nat, ino: nat)
    requires ino in d.content
    requires forall other | other in d.handles && other != id :: d.handles[other].ino != ino
    ensures var after := Close(d, id);
            && after.content == d.content
            && (forall other | other in after.handles && other != id :: after.handles[other].ino != ino)
  {
  }

  lemma ChunkKeeps(w: World, data: string, id: nat, ino: nat)
    requires Sound(w) && Owns(w, id, ino) && IsRunning(w, id, true)
    ensures var w' := Step(w, Chunk(id, data));
            Owns(w', id, ino) && w'.disk.content[ino] == w.disk.content[ino] + data
  {
  }

  /** Steps that are no output of the upload leave it its file, unchanged. */
  lemma OtherStepKeeps(w: World, e: Event, id: nat, ino: nat)
    requires Sound(w) && Disciplined(w) && Owns(w, id, ino) && LeavesAlone(w.disk, CallOf(w, e), ino)
    requires OutputOf(w, e, id) == []
    ensures Owns(Step(w, e), id, ino) && Step(w, e).disk.content[ino] == w.disk.content[ino]
  {
    StepMakesPermittedCall(w, e);
    if e.Command? {
      CommandIsNotFor(w, e, id);
    } else {
      EventIsNotFor(w, e, id);
    }
    if IsCallFor(CallOf(w, e), id) {
      CloseKeeps(w.disk, id, ino);
    } else {
      OtherCallKeeps(w.disk, CallOf(w, e), id, ino);
    }
  }

  lemma EndKeeps(w: World, id: nat, ino: nat)
    requires Owns(w, id, ino) && IsRunning(w, id, true)
    ensures var w' := Step(w, UploadEnded(id));
            Owns(w', id, ino) && w'.disk.content[ino] == w.disk.content[ino] && w'.transfers[id].Finished?
  {
    CloseKeeps(w.disk, id, ino);
  }

  lemma StepKeepsFile(w: World, e: Event, id: nat, ino: nat)
    requires Sound(w) && Disciplined(w) && Owns(w, id, ino) && LeavesAlone(w.disk, CallOf(w, e), ino)
    ensures Owns(Step(w, e), id, ino)
    ensures Step(w, e).disk.content[ino] == w.disk.content[ino] + TextOf(OutputOf(w, e, id))
  {
    if OutputOf(w, e, id) == [] {
      OtherStepKeeps(w, e, id, ino);
      assert w.disk.content[ino] + "" == w.disk.content[ino];
    } else if e.Chunk? {
      ChunkKeeps(w, e.data, id, ino);
      TextOfOne(Wrote(e.data));
    } else {
      EndKeeps(w, id, ino);
      TextOfOne(Output.Ended);
      assert w.disk.content[ino] + "" == w.disk.content[ino];
    }
  }

  predicate UndisturbedAt(w: World, events: seq<Event>, k: nat, ino: nat)
    requires k < |events|
  {
    LeavesAlone(Before(w, events, k).disk, CallOf(Before(w, events, k), events[k]), ino)
  }

  /** No step of the run opens the file once more. */
  predicate Undisturbed(w: World, events: seq<Event>, ino: nat) {
    forall k | 0 <= k < |events| :: UndisturbedAt(w, events, k, ino)
  }

  lemma UndisturbedPrefix(w: World, events: seq<Event>, ino: nat)
    requires Undisturbed(w, events, ino) && events != []
    ensures var n := |events| - 1;
            && Undisturbed(w, events[..n], ino)
            && LeavesAlone(Run(w, events[..n]).disk, CallOf(Run(w, events[..n]), events[n]), ino)
  {
    var n := |events| - 1;
    var before := events[..n];
    forall k | 0 <= k < n ensures UndisturbedAt(w, before, k, ino) {
      BeforeInPrefix(w, events, n, k);
      assert UndisturbedAt(w, events, k, ino);
    }
    assert UndisturbedAt(w, events, n, ino);
  }

  lemma OutputsLast(w: World, events: seq<Event>, id: nat)
    requires events != []
    ensures var n := |events| - 1; var m := Run(w, events[..n]);
            && Run(w, events) == Step(m, events[n])
            && TextOf(Outputs(w, events, id)) == TextOf(Outputs(w, events[..n], id)) + TextOf(OutputOf(m, events[n], id))
  {
    var n := |events| - 1;
    TextOfConcat(Outputs(w, events[..n], id), OutputOf(Run(w, events[..n]), events[n], id));
  }

  lemma Associate(a: string, b: string, c: string)
    ensures a + b + c == a + (b + c)
  {
  }

  /** Whatever the session and its other transfers do meanwhile, and wherever the file is moved: as long as nobody
      opens it once more, its content grows by exactly the chunks of its upload, in order. */
  lemma {:induction false} UploadGrowsByItsChunks(w: World, events: seq<Event>, id: nat, ino: nat)
    requires Sound(w) && Disciplined(w) && Owns(w, id, ino) && Undisturbed(w, events, ino)
    ensures Owns(Run(w, events), id, ino)
    ensures Run(w, events).disk.content[ino] == w.disk.content[ino] + TextOf(Outputs(w, events, id))
    decreases |events|
  {
    if events == [] {
      assert w.disk.content[ino] + "" == w.disk.content[ino];
    } else {
      var n := |events| - 1;
      UndisturbedPrefix(w, events, ino);
      UploadGrowsByItsChunks(w, events[..n], id, ino);
      RunSound(w, events[..n]);
      RunDisciplined(w, events[..n]);
      StepKeepsFile(Run(w, events[..n]), events[n], id, ino);
      Associate(w.disk.content[ino], TextOf(Outputs(w, events[..n], id)), TextOf(OutputOf(Run(w, events[..n]), events[n], id)));
      OutputsLast(w, events, id);
    }
  }

  // ---------------------------------------------------------------- how an upload begins

  lemma StorOpens(w: World, path: string, env: Env)
    ensures var o := Stor(w, path, env);
            o.job == Some(Receive) ==>
              && w.session.loggedInUser.Some? && o.change == OnDisk(Truncate(Target(w, path), w.handled))
              && Succeeds(w.disk, o.change.call)
  {
  }

  lemma AppeOpens(w: World, path: string, env: Env)
    ensures var o := Appe(w, path, env);
            o.job == Some(Receive) ==>
              && w.session.loggedInUser.Some? && o.change.OnDisk? && Succeeds(w.disk, o.change.call)
              && o.change.call == if Target(w, path) in w.disk.tree then Append(Target(w, path), w.handled)
                                  else Truncate(Target(w, path), w.handled)
  {
  }

  lemma StouOpens(w: World, env: Env)
    ensures var o := Stou(w, env);
            o.job == Some(Receive) ==>
              && w.session.loggedInUser.Some? && o.change == OnDisk(Truncate(Target(w, o.text), w.handled))
              && Succeeds(w.disk, o.change.call) && Target(w, o.text) !in w.disk.tree
  {
    if w.session.loggedInUser.Some? {
      StouOpensNew(w, env, 0);
    }
  }

  lemma StoreMakesCall(w: World, verb: Verb, path: string, env: Env)
    requires verb in {STOR, STOU, APPE}
    ensures var o := Dispatch(w, verb, path, env);
            o.job == Some(Receive) ==>
              && w.session.loggedInUser.Some? && o.change.OnDisk? && Succeeds(w.disk, o.change.call)
              && var p := Target(w, if verb == STOU then o.text else path);
                 && o.change.call == (if verb == APPE && p in w.disk.tree then Append(p, w.handled) else Truncate(p, w.handled))
                 && (verb == STOU ==> p !in w.disk.tree)
  {
    DispatchedStore(w, verb, path, env);
    if verb == STOR {
      StorOpens(w, path, env);
    } else if verb == STOU {
      StouOpens(w, env);
    } else {
      AppeOpens(w, path, env);
    }
  }

  /** STOU creates the file it names in its reply. */
  lemma {:induction false} StouOpensNew(w: World, env: Env, attempt: nat)
    requires w.session.loggedInUser.Some?
    ensures var o := StouFrom(w, env, attempt);
            o.job.Some? ==>
              && o.change == OnDisk(Truncate(Target(w, o.text), w.handled))
              && Target(w, o.text) !in w.disk.tree && Succeeds(w.disk, o.change.call)
    decreases MAX_ATTEMPTS - attempt
  {
    if attempt < MAX_ATTEMPTS {
      var name := UniqueName(env, attempt);
      if Stat(w.disk, Target(w, name)).Some? {
        StouOpensNew(w, env, attempt + 1);
      } else {
        assert StouFrom(w, env, attempt) == Store(w, Truncate(Target(w, name), w.handled), env, 125, name);
      }
    }
  }

  lemma OpenedAlone(d: Disk, p: Place, id: nat, call: Call)
    requires Valid(d) && Succeeds(d, call) && (call == Append(p, id) || call == Truncate(p, id))
    requires p in d.tree ==> d.tree[p].File? && !IsOpen(d, d.tree[p].ino)
    ensures var after := Apply(d, call);
            && p in after.tree && after.tree[p].File?
            && var ino := after.tree[p].ino;
               && AtEnd(after, id) && after.handles[id].ino == ino
               && (forall other | other in after.handles && other != id :: after.handles[other].ino != ino)
               && ContentOf(after, p) == if call.Append? then ContentOf(d, p) else Some("")
  {
  }

  lemma CommandBegins(w: World, verb: Verb, path: string, env: Env)
    requires w.reading
    ensures Dispatch(w, verb, path, env).job == Some(Receive) ==>
              Step(w, Command(Some(verb), path, env)).transfers == w.transfers[w.handled := Waiting(Receive)]
  {
  }

  /** An upload begins with the file at the resolved place, or for STOU at the place of the name that the reply tells,
      where nothing stood: empty, or with its old content for APPE, and its own if nobody has it open already. */
  lemma StoreBegins(w: World, verb: Verb, path: string, env: Env)
    requires Sound(w) && w.reading && verb in {STOR, STOU, APPE}
    ensures var o, w' := Dispatch(w, verb, path, env), Step(w, Command(Some(verb), path, env));
            o.job == Some(Receive) ==>
              && w.session.loggedInUser.Some?
              && var p := Target(w, if verb == STOU then o.text else path);
                 && (verb == STOU ==> p !in w.disk.tree)
                 && ((p in w.disk.tree ==> w.disk.tree[p].File? && !IsOpen(w.disk, w.disk.tree[p].ino)) ==>
                       && p in w'.disk.tree && w'.disk.tree[p].File?
                       && Owns(w', w.handled, w'.disk.tree[p].ino) && Receives(w', w.handled)
                       && ContentOf(w'.disk, p) ==
                          if verb == APPE && p in w.disk.tree then ContentOf(w.disk, p) else Some(""))
  {
    StoreMakesCall(w, verb, path, env);
    var o := Dispatch(w, verb, path, env);
    if o.job == Some(Receive) {
      var p := Target(w, if verb == STOU then o.text else path);
      CommandBegins(w, verb, path, env);
      CommandDisk(w, Some(verb), path, env);
      if p in w.disk.tree ==> w.disk.tree[p].File? && !IsOpen(w.disk, w.disk.tree[p].ino) {
        OpenedAlone(w.disk, p, w.handled, o.change.call);
      }
    }
  }

  // ---------------------------------------------------------------- what the upload machine does

  /** What a step of the upload does to its file. */
  function MachineOutput(u: Uploads.Upload, e: Uploads.Event): seq<Output> {
    var v := Uploads.Step(u, e);
    if |v.chunks| > |u.chunks| then [Wrote(v.chunks[|v.chunks| - 1])]
    else if u.fileOpen && !v.fileOpen then [Output.Ended]
    else []
  }

  function MachineOutputs(u: Uploads.Upload, events: seq<Uploads.Event>): seq<Output>
    decreases |events|
  {
    if events == [] then [] else MachineOutput(u, events[0]) + MachineOutputs(Uploads.Step(u, events[0]), events[1..])
  }

  lemma MachineStep(u: Uploads.Upload, e: Uploads.Event)
    ensures var v := Uploads.Step(u, e);
            && v.file == u.file + TextOf(MachineOutput(u, e))
            && (Output.Ended in MachineOutput(u, e) <==> u.fileOpen && !v.fileOpen)
            && (v.fileOpen ==> u.fileOpen)
  {
    Uploads.StepWrites(u, e);
    assert u.file + "" == u.file;
    var v := Uploads.Step(u, e);
    if |v.chunks| > |u.chunks| {
      TextOfOne(Wrote(v.chunks[|v.chunks| - 1]));
    }
  }

  lemma {:induction false} MachineTells(u: Uploads.Upload, events: seq<Uploads.Event>)
    ensures var v := Uploads.Run(u, events);
            && v.file == u.file + TextOf(MachineOutputs(u, events))
            && (Output.Ended in MachineOutputs(u, events) <==> u.fileOpen && !v.fileOpen)
            && (v.fileOpen ==> u.fileOpen)
    decreases |events|
  {
    if events == [] {
      assert u.file + "" == u.file;
    } else {
      var next := Uploads.Step(u, events[0]);
      MachineStep(u, events[0]);
      MachineTells(next, events[1..]);
      TextOfConcat(MachineOutput(u, events[0]), MachineOutputs(next, events[1..]));
      Associate(u.file, TextOf(MachineOutput(u, events[0])), TextOf(MachineOutputs(next, events[1..])));
    }
  }

  // ---------------------------------------------------------------- put together

  lemma EventEnds(w: World, e: Event, id: nat)
    requires IsRunning(w, id, true) && !e.Command?
    ensures if OutputOf(w, e, id) == [Output.Ended] then Replies.Ended(Step(w, e), id) else IsRunning(Step(w, e), id, true)
  {
  }

  lemma StepEnds(w: World, e: Event, id: nat)
    requires Disciplined(w) && IsRunning(w, id, true)
    ensures if OutputOf(w, e, id) == [Output.Ended] then Replies.Ended(Step(w, e), id) else IsRunning(Step(w, e), id, true)
  {
    if e.Command? {
      CommandIsNotFor(w, e, id);
    } else {
      EventEnds(w, e, id);
    }
  }

  lemma EventStaysEnded(w: World, e: Event, id: nat)
    requires Replies.Ended(w, id) && !e.Command?
    ensures Replies.Ended(Step(w, e), id)
  {
  }

  lemma StepStaysEnded(w: World, e: Event, id: nat)
    requires Disciplined(w) && Replies.Ended(w, id)
    ensures Replies.Ended(Step(w, e), id)
  {
    if e.Command? {
      CommandIsNotFor(w, e, id);
    } else {
      EventStaysEnded(w, e, id);
    }
  }

  lemma EndedLast(w: World, events: seq<Event>, id: nat)
    requires events != []
    ensures var n := |events| - 1; var m := Run(w, events[..n]);
            && Run(w, events) == Step(m, events[n])
            && (Output.Ended in Outputs(w, events, id) <==>
                  Output.Ended in Outputs(w, events[..n], id) || OutputOf(m, events[n], id) == [Output.Ended])
  {
  }

  /** The transfer has ended exactly if its upload has. */
  lemma {:induction false} EndedIff(w: World, events: seq<Event>, id: nat)
    requires Disciplined(w) && IsRunning(w, id, true)
    ensures var m := Run(w, events);
            if Output.Ended in Outputs(w, events, id) then Replies.Ended(m, id) else IsRunning(m, id, true)
    decreases |events|
  {
    if events != [] {
      var n := |events| - 1;
      var m := Run(w, events[..n]);
      EndedLast(w, events, id);
      EndedIff(w, events[..n], id);
      RunDisciplined(w, events[..n]);
      if Replies.Ended(m, id) {
        StepStaysEnded(m, events[n], id);
      } else {
        StepEnds(m, events[n], id);
      }
    }
  }

  lemma MachineFromBegin(upload: seq<Uploads.Event>)
    ensures var u, outputs := Uploads.Run(Uploads.Begin(), upload), MachineOutputs(Uploads.Begin(), upload);
            && u.file == TextOf(outputs) && (Output.Ended in outputs <==> !u.fileOpen)
            && |u.replies| == (if u.fileOpen then 0 else 1)
            && (!u.fileOpen ==> u.file == u.received && (!u.broken ==> u.file == u.sent))
  {
    MachineTells(Uploads.Begin(), upload);
    Uploads.UploadIntegrity(upload);
    var outputs := MachineOutputs(Uploads.Begin(), upload);
    assert "" + TextOf(outputs) == TextOf(outputs);
  }

  /** A session that does for an upload what the upload machine does, in any interleaving with everything else: the
      file holds what it held and then what the machine has written; the transfer has ended, with its one later reply,
      exactly when the machine has closed the file; and then the file ends with exactly the bytes received, which are
      those the client sent unless a read was cut off. */
  lemma StoredIsReceived(w: World, events: seq<Event>, id: nat, ino: nat, upload: seq<Uploads.Event>)
    requires Sound(w) && Disciplined(w) && IsRunning(w, id, true) && Owns(w, id, ino) && Undisturbed(w, events, ino)
    requires Outputs(w, events, id) == MachineOutputs(Uploads.Begin(), upload)
    ensures var m, u := Run(w, events), Uploads.Run(Uploads.Begin(), upload);
            && ino in m.disk.content && m.disk.content[ino] == w.disk.content[ino] + u.file
            && (Replies.Ended(m, id) <==> !u.fileOpen)
            && LaterCount(m.log, id) == |u.replies|
            && (!u.fileOpen ==>
                  && m.disk.content[ino] == w.disk.content[ino] + u.received
                  && (!u.broken ==> m.disk.content[ino] == w.disk.content[ino] + u.sent))
  {
    UploadGrowsByItsChunks(w, events, id, ino);
    MachineFromBegin(upload);
    EndedIff(w, events, id);
    RunDisciplined(w, events);
  }
}
