/** Which replies a session gives, over whole runs (sections 4.2 and 5.4 of RFC 959). */
module Replies {
  import opened Wrappers
  import opened Users
  import opened Disks
  import opened Sessions

  /** The commands answered immediately, in the order of the answers. */
  function ImmediateFor(log: seq<Reply>): seq<nat> {
    if log == [] then [] else
    var rest := ImmediateFor(log[..|log| - 1]);
    if log[|log| - 1].immediate then rest + [log[|log| - 1].command] else rest
  }

  /** How many later replies a command was given. */
  function LaterCount(log: seq<Reply>, command: nat): nat {
    if log == [] then 0 else
    var last := log[|log| - 1];
    LaterCount(log[..|log| - 1], command) + if !last.immediate && last.command == command then 1 else 0
  }

  predicate Ended(w: World, command: nat) {
    command in w.transfers && w.transfers[command].Finished?
  }

  predicate Announced(log: seq<Reply>, n: nat, command: nat) {
    exists i | 0 <= i < n <= |log| :: log[i].immediate && log[i].command == command && OpensTransfer(log[i].code)
  }

  /** Replies and transfers agree. */
  ghost predicate Disciplined(w: World) {
    // every handled command has exactly one immediate reply, in the order of the commands
    && ImmediateFor(w.log) == UpTo(w.handled)
    // a command has one later reply when its data path has ended, otherwise none
    && (forall c: nat :: LaterCount(w.log, c) == if Ended(w, c) then 1 else 0)
    // a later reply comes after a preliminary one to the same command
    && (forall j | 0 <= j < |w.log| && !w.log[j].immediate :: Announced(w.log, j, w.log[j].command))
    // a transfer is under way or over exactly for the commands that got a preliminary reply
    && (forall c: nat :: c in w.transfers <==> Announced(w.log, |w.log|, c))
  }

  lemma Appended(log: seq<Reply>, r: Reply)
    ensures var longer := log + [r];
            && ImmediateFor(longer) == ImmediateFor(log) + (if r.immediate then [r.command] else [])
            && (forall c: nat :: LaterCount(longer, c) ==
                                 LaterCount(log, c) + if !r.immediate && r.command == c then 1 else 0)
  {
  }

  lemma AnnouncedAfter(log: seq<Reply>, r: Reply, n: nat, c: nat)
    ensures n <= |log| ==> (Announced(log + [r], n, c) <==> Announced(log, n, c))
    ensures Announced(log + [r], |log| + 1, c) <==>
            Announced(log, |log|, c) || (r.immediate && r.command == c && OpensTransfer(r.code))
  {
    var longer := log + [r];
    if n <= |log| && Announced(log, n, c) {
      var i :| 0 <= i < n && log[i].immediate && log[i].command == c && OpensTransfer(log[i].code);
      assert longer[i] == log[i];
    }
    if Announced(log, |log|, c) {
      var i :| 0 <= i < |log| && log[i].immediate && log[i].command == c && OpensTransfer(log[i].code);
      assert longer[i] == log[i];
    }
    if r.immediate && r.command == c && OpensTransfer(r.code) {
      assert longer[|log|] == r;
    }
  }

  /** Posting one reply: the clauses about order and announcement carry over. */
  lemma LogGrows(w: World, w': World, r: Reply)
    requires Disciplined(w) && w'.log == w.log + [r]
    requires !r.immediate ==> r.command in w.transfers
    requires w'.transfers.Keys == w.transfers.Keys + if r.immediate && OpensTransfer(r.code) then {r.command} else {}
    ensures forall j | 0 <= j < |w'.log| && !w'.log[j].immediate :: Announced(w'.log, j, w'.log[j].command)
    ensures forall c: nat :: c in w'.transfers <==> Announced(w'.log, |w'.log|, c)
  {
    forall j | 0 <= j < |w'.log| && !w'.log[j].immediate ensures Announced(w'.log, j, w'.log[j].command) {
      AnnouncedAfter(w.log, r, j, w'.log[j].command);
      if j < |w.log| {
        assert w'.log[j] == w.log[j];
      }
    }
    forall c: nat ensures c in w'.transfers <==> Announced(w'.log, |w'.log|, c) {
      AnnouncedAfter(w.log, r, 0, c);
    }
  }

  lemma NewCommandIsNew(w: World)
    requires Disciplined(w)
    ensures w.handled !in w.transfers
  {
    if w.handled in w.transfers {
      var i :| 0 <= i < |w.log| && w.log[i].immediate && w.log[i].command == w.handled;
      ImmediateListed(w.log, i);
      assert false;
    }
  }

  lemma {:induction false} ImmediateListed(log: seq<Reply>, i: nat)
    requires i < |log| && log[i].immediate
    ensures log[i].command in ImmediateFor(log)
    decreases |log|
  {
    if i < |log| - 1 {
      ImmediateListed(log[..|log| - 1], i);
    }
  }

  lemma RespondDisciplined(w: World, verb: Option<Verb>, o: Outcome)
    requires Disciplined(w) && (o.job.Some? <==> OpensTransfer(o.code))
    ensures Disciplined(Respond(w, verb, o))
  {
    var w', r := Respond(w, verb, o), Reply(w.handled, true, o.code, o.text);
    NewCommandIsNew(w);
    Appended(w.log, r);
    LogGrows(w, w', r);
    assert UpTo(w.handled) + [w.handled] == UpTo(w.handled + 1);
  }

  lemma ConcludeDisciplined(w: World, id: nat, code: nat)
    requires Disciplined(w) && id in w.transfers && !w.transfers[id].Finished?
    ensures Disciplined(Conclude(w, id, code))
  {
  }

  /** A transfer that goes on, or is abandoned, is not answered. */
  lemma MoveOnDisciplined(w: World, id: nat, t: Transfer)
    requires Disciplined(w) && id in w.transfers && !w.transfers[id].Finished? && !t.Finished?
    ensures Disciplined(w.(transfers := w.transfers[id := t]))
  {
  }

  /** The clauses speak of replies, commands and transfers only. */
  lemma SameAnswers(w: World, w': World)
    requires Disciplined(w) && w'.log == w.log && w'.handled == w.handled && w'.transfers == w.transfers
    ensures Disciplined(w')
  {
  }

  lemma AcceptDisciplined(w: World, id: nat, outcome: Acceptance)
    requires Disciplined(w) && id in w.transfers && w.transfers[id].Waiting?
    ensures Disciplined(Accept(w, id, outcome))
  {
    var w' := w.(acceptorOpen := false);
    SameAnswers(w, w');
    if outcome.Failed? {
      ConcludeDisciplined(w, id, 426);
    } else if outcome.Rejected? {
      ConcludeDisciplined(w', id, 425);
    } else if SendsNothing(w.transfers[id].job) {
      ConcludeDisciplined(w', id, 226);
    } else {
      MoveOnDisciplined(w', id, Running(w.transfers[id].job));
    }
  }

  lemma EndSendDisciplined(w: World, id: nat, ok: bool)
    requires Disciplined(w) && id in w.transfers && w.transfers[id].Running?
    ensures Disciplined(EndSend(w, id, ok))
  {
    if !ok && w.transfers[id].job == SendListing {
      MoveOnDisciplined(w, id, Abandoned);
    } else {
      ConcludeDisciplined(w, id, if ok then 226 else 426);
    }
  }

  lemma StepDisciplined(w: World, e: Event)
    requires Disciplined(w)
    ensures Disciplined(Step(w, e))
  {
    if e.Command? && w.reading {
      RespondDisciplined(w, e.verb, Outcomes(w, e.verb, e.param, e.env));
    } else if e.Accepted? && e.id in w.transfers && w.transfers[e.id].Waiting? {
      AcceptDisciplined(w, e.id, e.outcome);
    } else if e.UploadEnded? && IsRunning(w, e.id, true) {
      ConcludeDisciplined(w, e.id, 226);
    } else if e.Sent? && IsRunning(w, e.id, false) {
      EndSendDisciplined(w, e.id, e.ok);
    } else {
      SameAnswers(w, Step(w, e));
    }
  }

  /** In every run, each handled command has exactly one immediate reply, in order; a later reply is given only
      after a 150 or 125 to the same command, and exactly once when the data path has ended. */
  lemma {:induction false} RunDisciplined(w: World, events: seq<Event>)
    requires Disciplined(w)
    ensures Disciplined(Run(w, events))
    decreases |events|
  {
    if events != [] {
      RunDisciplined(w, events[..|events| - 1]);
      StepDisciplined(Run(w, events[..|events| - 1]), events[|events| - 1]);
    }
  }

  /** In particular from the start of a session. */
  lemma SessionDisciplined(users: UserTable, disk: Disk, events: seq<Event>)
    ensures Disciplined(Run(Start(users, disk), events))
  {
    RunDisciplined(Start(users, disk), events);
  }
}
