/** The later replies of transfers: which one a command gets, and when. */
module Deliveries {
  import opened Sessions
  import opened Replies
  import Listings

  // ---------------------------------------------------------------- what happened to a transfer

  /** The codes of the later replies to a command. */
  function LaterCodes(log: seq<Reply>, id: nat): seq<nat> {
    if log == [] then [] else
    var last := log[|log| - 1];
    LaterCodes(log[..|log| - 1], id) + if !last.immediate && last.command == id then [last.code] else []
  }

  /** How its data connection was accepted, in the events that did. */
  function Accepts(w: World, events: seq<Event>, id: nat): seq<Acceptance> {
    if events == [] then [] else
    var before, last := events[..|events| - 1], events[|events| - 1];
    Accepts(w, before, id) + AcceptsNow(Run(w, before), last, id)
  }

  function AcceptsNow(w: World, e: Event, id: nat): seq<Acceptance> {
    if e.Accepted? && e.id == id && id in w.transfers && w.transfers[id].Waiting? then [e.outcome] else []
  }

  /** How its data ended, in the events that ended it: sent, or not, or received. */
  function Ends(w: World, events: seq<Event>, id: nat): seq<bool> {
    if events == [] then [] else
    var before, last := events[..|events| - 1], events[|events| - 1];
    Ends(w, before, id) + EndsNow(Run(w, before), last, id)
  }

  function EndsNow(w: World, e: Event, id: nat): seq<bool> {
    if id in w.transfers && w.transfers[id].Running? then
      if e.Sent? && e.id == id && w.transfers[id].job != Receive then [e.ok]
      else if e == UploadEnded(id) && w.transfers[id].job == Receive then [true]
      else []
    else []
  }

  // ---------------------------------------------------------------- what follows from it

  /** The reply that is due, if any, for a job of which this much has happened. */
  function Due(job: Job, accepts: seq<Acceptance>, ends: seq<bool>): seq<nat> {
    if accepts == [Acceptance.Failed] then [426]
    else if accepts == [Rejected] then [425]
    else if accepts == [Acceptance.Connected] then
      if job.SendFile? && job.size == 0 then [226]
      else if ends == [true] then [226]
      else if ends == [false] && job != SendListing then [426]
      else []
    else []
  }

  /** What has happened to the transfer, and where it stands. */
  predicate Tells(w: World, id: nat, job: Job, accepts: seq<Acceptance>, ends: seq<bool>) {
    && id in w.transfers
    && var t := w.transfers[id];
       || (accepts == [] && ends == [] && t == Waiting(job))
       || ((accepts == [Acceptance.Failed] || accepts == [Rejected]) && ends == [] && t == Finished)
       || (accepts == [Acceptance.Connected] && job.SendFile? && job.size == 0 && ends == [] && t == Finished)
       || (accepts == [Acceptance.Connected] && !(job.SendFile? && job.size == 0) &&
            (|| (ends == [] && t == Running(job))
             || (ends == [true] && t == Finished)
             || (ends == [false] && job != Receive && t == if job == SendListing then Abandoned else Finished)))
  }

  lemma CodesLast(log: seq<Reply>, r: Reply, id: nat)
    ensures LaterCodes(log + [r], id) == LaterCodes(log, id) + if !r.immediate && r.command == id then [r.code] else []
  {
    assert (log + [r])[..|log|] == log;
  }

  lemma {:induction false} CodesCount(log: seq<Reply>, id: nat)
    ensures |LaterCodes(log, id)| == LaterCount(log, id)
    decreases |log|
  {
    if log != [] {
      CodesCount(log[..|log| - 1], id);
    }
  }

  /** The new reply that a step posts, if any. */
  predicate Posts(w: World, w': World, id: nat, codes: seq<nat>) {
    LaterCodes(w'.log, id) == LaterCodes(w.log, id) + codes
  }

  lemma CommandTells(w: World, e: Event, id: nat)
    requires Disciplined(w) && id in w.transfers && e.Command?
    ensures id in Step(w, e).transfers && Step(w, e).transfers[id] == w.transfers[id]
    ensures Posts(w, Step(w, e), id, [])
  {
    NewCommandIsNew(w);
    if w.reading {
      var o := Outcomes(w, e.verb, e.param, e.env);
      assert Step(w, e) == Respond(w, e.verb, o);
      CodesLast(w.log, Reply(w.handled, true, o.code, o.text), id);
    }
    assert LaterCodes(w.log, id) + [] == LaterCodes(w.log, id);
  }

  lemma ConcludeTells(w: World, id: nat, other: nat, code: nat)
    ensures var w' := Conclude(w, other, code);
            && (id in w.transfers && other != id ==> id in w'.transfers && w'.transfers[id] == w.transfers[id])
            && w'.transfers[other] == Finished
            && Posts(w, w', id, if other == id then [code] else [])
  {
    CodesLast(w.log, Reply(other, false, code, ""), id);
  }

  lemma AcceptTells(w: World, id: nat, job: Job, e: Event)
    requires id in w.transfers && e.Accepted? && e.id in w.transfers && w.transfers[e.id].Waiting?
    requires e.id == id ==> w.transfers[id] == Waiting(job)
    ensures var w' := Step(w, e);
            && (e.id != id ==> id in w'.transfers && w'.transfers[id] == w.transfers[id] && Posts(w, w', id, []))
            && (e.id == id ==> Tells(w', id, job, [e.outcome], []) && Posts(w, w', id, Due(job, [e.outcome], [])))
  {
    var shut := w.(acceptorOpen := false);
    if e.outcome.Failed? {
      ConcludeTells(w, id, e.id, 426);
    } else if e.outcome.Rejected? {
      ConcludeTells(shut, id, e.id, 425);
    } else {
      ConcludeTells(shut, id, e.id, 226);
    }
    assert LaterCodes(w.log, id) + [] == LaterCodes(w.log, id);
    DifferentLists();
  }

  lemma EndTells(w: World, id: nat, job: Job, e: Event)
    requires id in w.transfers && (e.Sent? || e.UploadEnded?) && IsRunning(w, e.id, e.UploadEnded?)
    requires e.id == id ==> w.transfers[id] == Running(job) && !(job.SendFile? && job.size == 0)
    ensures var w' := Step(w, e);
            && (e.id != id ==> id in w'.transfers && w'.transfers[id] == w.transfers[id] && Posts(w, w', id, []))
            && (e.id == id ==>
                  && Tells(w', id, job, [Acceptance.Connected], EndsNow(w, e, id))
                  && Posts(w, w', id, Due(job, [Acceptance.Connected], EndsNow(w, e, id))))
  {
    ConcludeTells(w, id, e.id, 226);
    ConcludeTells(w, id, e.id, 426);
    assert LaterCodes(w.log, id) + [] == LaterCodes(w.log, id);
    DifferentLists();
  }

  lemma DifferentLists()
    ensures [true] != [false]
    ensures [Acceptance.Failed] != [Acceptance.Connected] && [Rejected] != [Acceptance.Connected] && [Acceptance.Failed] != [Rejected]
  {
    assert [true][0] != [false][0];
    assert [Acceptance.Failed][0] != [Acceptance.Connected][0] && [Rejected][0] != [Acceptance.Connected][0];
    assert [Acceptance.Failed][0] != [Rejected][0];
  }

  /** Nothing of the sort happens to the transfer in this step. */
  lemma OtherTells(w: World, e: Event, id: nat)
    requires id in w.transfers && !e.Command?
    requires !(e.Accepted? && e.id in w.transfers && w.transfers[e.id].Waiting?)
    requires !(e.Sent? && IsRunning(w, e.id, false)) && !(e.UploadEnded? && IsRunning(w, e.id, true))
    ensures Step(w, e).transfers == w.transfers && Step(w, e).log == w.log
    ensures AcceptsNow(w, e, id) == [] && EndsNow(w, e, id) == []
  {
  }

  /** After the step the transfer, and its later replies, tell what has happened by then. */
  predicate TellsNext(w: World, e: Event, id: nat, job: Job, accepts: seq<Acceptance>, ends: seq<bool>) {
    var accepts', ends' := accepts + AcceptsNow(w, e, id), ends + EndsNow(w, e, id);
    Tells(Step(w, e), id, job, accepts', ends') && LaterCodes(Step(w, e).log, id) == Due(job, accepts', ends')
  }

  lemma UnchangedTells(w: World, e: Event, id: nat, job: Job, accepts: seq<Acceptance>, ends: seq<bool>)
    requires Tells(w, id, job, accepts, ends) && LaterCodes(w.log, id) == Due(job, accepts, ends)
    requires AcceptsNow(w, e, id) == [] && EndsNow(w, e, id) == []
    requires id in Step(w, e).transfers && Step(w, e).transfers[id] == w.transfers[id] && Posts(w, Step(w, e), id, [])
    ensures TellsNext(w, e, id, job, accepts, ends)
  {
    assert accepts + [] == accepts && ends + [] == ends;
    assert LaterCodes(w.log, id) + [] == LaterCodes(w.log, id);
  }

  lemma AcceptedTells(w: World, e: Event, id: nat, job: Job, accepts: seq<Acceptance>, ends: seq<bool>)
    requires Tells(w, id, job, accepts, ends) && LaterCodes(w.log, id) == Due(job, accepts, ends)
    requires e.Accepted? && e.id in w.transfers && w.transfers[e.id].Waiting?
    ensures TellsNext(w, e, id, job, accepts, ends)
  {
    AcceptTells(w, id, job, e);
    if e.id == id {
      assert accepts == [] && ends == [] && [] + [e.outcome] == [e.outcome];
      assert LaterCodes(w.log, id) == [] && [] + Due(job, [e.outcome], []) == Due(job, [e.outcome], []);
      assert [] + EndsNow(w, e, id) == [];
    } else {
      UnchangedTells(w, e, id, job, accepts, ends);
    }
  }

  lemma EndedTells(w: World, e: Event, id: nat, job: Job, accepts: seq<Acceptance>, ends: seq<bool>)
    requires Tells(w, id, job, accepts, ends) && LaterCodes(w.log, id) == Due(job, accepts, ends)
    requires (e.Sent? || e.UploadEnded?) && IsRunning(w, e.id, e.UploadEnded?)
    ensures TellsNext(w, e, id, job, accepts, ends)
  {
    if e.id == id {
      DifferentLists();
      assert accepts == [Acceptance.Connected] && ends == [];
      EndTells(w, id, job, e);
      assert [] + EndsNow(w, e, id) == EndsNow(w, e, id) && accepts + [] == accepts;
      assert [] + Due(job, accepts, EndsNow(w, e, id)) == Due(job, accepts, EndsNow(w, e, id));
    } else {
      EndTells(w, id, job, e);
      UnchangedTells(w, e, id, job, accepts, ends);
    }
  }

  lemma StepTells(w: World, e: Event, id: nat, job: Job, accepts: seq<Acceptance>, ends: seq<bool>)
    requires Disciplined(w) && Tells(w, id, job, accepts, ends) && LaterCodes(w.log, id) == Due(job, accepts, ends)
    ensures TellsNext(w, e, id, job, accepts, ends)
  {
    if e.Accepted? && e.id in w.transfers && w.transfers[e.id].Waiting? {
      AcceptedTells(w, e, id, job, accepts, ends);
    } else if (e.Sent? || e.UploadEnded?) && IsRunning(w, e.id, e.UploadEnded?) {
      EndedTells(w, e, id, job, accepts, ends);
    } else {
      if e.Command? {
        CommandTells(w, e, id);
      } else {
        OtherTells(w, e, id);
        assert LaterCodes(w.log, id) + [] == LaterCodes(w.log, id);
      }
      UnchangedTells(w, e, id, job, accepts, ends);
    }
  }

  /** The later replies of a transfer in every run: those due for what has happened to it, and no others. */
  lemma {:induction false} RunTells(w: World, events: seq<Event>, id: nat, job: Job)
    requires Disciplined(w) && id in w.transfers && w.transfers[id] == Waiting(job)
    ensures Tells(Run(w, events), id, job, Accepts(w, events, id), Ends(w, events, id))
    ensures LaterCodes(Run(w, events).log, id) == Due(job, Accepts(w, events, id), Ends(w, events, id))
    decreases |events|
  {
    if events == [] {
      CodesCount(w.log, id);
    } else {
      var before, last := events[..|events| - 1], events[|events| - 1];
      RunTells(w, before, id, job);
      RunDisciplined(w, before);
      StepTells(Run(w, before), last, id, job, Accepts(w, before, id), Ends(w, before, id));
    }
  }

  // ---------------------------------------------------------------- downloads, uploads, listings

  /** What can have happened to a transfer, and in this order. */
  predicate CanHappen(job: Job, accepts: seq<Acceptance>, ends: seq<bool>) {
    || (accepts == [] && ends == [])
    || ((accepts == [Acceptance.Failed] || accepts == [Rejected]) && ends == [])
    || (accepts == [Acceptance.Connected] && job.SendFile? && job.size == 0 && ends == [])
    || (accepts == [Acceptance.Connected] && !(job.SendFile? && job.size == 0)
        && (ends == [] || ends == [true] || (ends == [false] && job != Receive)))
  }

  lemma ToldCanHappen(w: World, id: nat, job: Job, accepts: seq<Acceptance>, ends: seq<bool>)
    requires Tells(w, id, job, accepts, ends)
    ensures CanHappen(job, accepts, ends)
  {
  }

  lemma DueForDownload(local: string, size: nat, accepts: seq<Acceptance>, ends: seq<bool>)
    requires CanHappen(SendFile(local, size), accepts, ends)
    ensures var codes := Due(SendFile(local, size), accepts, ends);
            && (codes == [226] <==> accepts == [Acceptance.Connected] && (size > 0 ==> ends == [true]))
            && (codes == [426] <==> accepts == [Acceptance.Failed] || (accepts == [Acceptance.Connected] && size > 0 && ends == [false]))
            && (codes == [425] <==> accepts == [Rejected])
            && (codes == [] || codes == [226] || codes == [426] || codes == [425])
  {
    DifferentLists();
    DifferentCodes();
  }

  lemma DueForUpload(accepts: seq<Acceptance>, ends: seq<bool>)
    requires CanHappen(Receive, accepts, ends)
    ensures var codes := Due(Receive, accepts, ends);
            && (codes == [226] <==> accepts == [Acceptance.Connected] && ends == [true])
            && (codes == [426] <==> accepts == [Acceptance.Failed])
            && (codes == [425] <==> accepts == [Rejected])
            && (codes == [] || codes == [226] || codes == [426] || codes == [425])
  {
    DifferentLists();
    DifferentCodes();
  }

  lemma DifferentCodes()
    ensures [226] != [426] && [226] != [425] && [426] != [425]
  {
    assert [226][0] != [426][0] && [226][0] != [425][0] && [426][0] != [425][0];
  }

  /** In every run: a download of some bytes has its 226 exactly if it was connected and all of it was sent, one of an
      empty file as soon as it is connected; 426 if the connection failed or broke, 425 if it was rejected; and nothing
      else. */
  lemma DownloadAnswered(w: World, events: seq<Event>, id: nat, local: string, size: nat)
    requires Disciplined(w) && id in w.transfers && w.transfers[id] == Waiting(SendFile(local, size))
    ensures var codes, accepts, ends := LaterCodes(Run(w, events).log, id), Accepts(w, events, id), Ends(w, events, id);
            && (codes == [226] <==> accepts == [Acceptance.Connected] && (size > 0 ==> ends == [true]))
            && (codes == [426] <==> accepts == [Acceptance.Failed] || (accepts == [Acceptance.Connected] && size > 0 && ends == [false]))
            && (codes == [425] <==> accepts == [Rejected])
            && (codes == [] || codes == [226] || codes == [426] || codes == [425])
  {
    var accepts, ends := Accepts(w, events, id), Ends(w, events, id);
    RunTells(w, events, id, SendFile(local, size));
    ToldCanHappen(Run(w, events), id, SendFile(local, size), accepts, ends);
    DueForDownload(local, size, accepts, ends);
  }

  /** An upload has its 226 exactly if it was connected and its data ended, however it did. */
  lemma UploadAnswered(w: World, events: seq<Event>, id: nat)
    requires Disciplined(w) && id in w.transfers && w.transfers[id] == Waiting(Receive)
    ensures var codes, accepts, ends := LaterCodes(Run(w, events).log, id), Accepts(w, events, id), Ends(w, events, id);
            && (codes == [226] <==> accepts == [Acceptance.Connected] && ends == [true])
            && (codes == [426] <==> accepts == [Acceptance.Failed])
            && (codes == [425] <==> accepts == [Rejected])
            && (codes == [] || codes == [226] || codes == [426] || codes == [425])
  {
    RunTells(w, events, id, Receive);
    ToldCanHappen(Run(w, events), id, Receive, Accepts(w, events, id), Ends(w, events, id));
    DueForUpload(Accepts(w, events, id), Ends(w, events, id));
  }

  /** A session in which the listing of command id is the k-th that the data buffer was given, and ends well exactly
      if the buffer comes to its end marker: once the buffer is quiet, the command has its 226 if the buffer was empty
      when the listing's first item was added and none of its writes failed; otherwise it has no later reply. */
  lemma ListingReplied(w: World, events: seq<Event>, id: nat, pipeline: seq<Listings.Event>, k: nat)
    requires Disciplined(w) && id in w.transfers && w.transfers[id] == Waiting(SendListing)
    requires Accepts(w, events, id) == [Acceptance.Connected]
    requires var p := Listings.Run(Listings.Empty(), pipeline);
             && Listings.Quiet(p) && k < |p.posted|
             && (Ends(w, events, id) == [true] <==> k in p.answered)
    ensures var p := Listings.Run(Listings.Empty(), pipeline);
            LaterCodes(Run(w, events).log, id) == if k in p.foundEmpty && k !in p.failed then [226] else []
  {
    Listings.AnsweredIff(pipeline, k);
    RunTells(w, events, id, SendListing);
    DifferentLists();
  }

  // ---------------------------------------------------------------- the events in plain terms

  /** A connection closes the port however it is received, unless accepting it failed; the reply that ends the transfer
      closes its file. */
  lemma ConnectionLeaves(w: World, id: nat, outcome: Acceptance)
    requires id in w.transfers && w.transfers[id].Waiting?
    ensures var job := w.transfers[id].job;
            var ended := w.(acceptorOpen := w.acceptorOpen && outcome == Acceptance.Failed,
                            disk := w.disk.(handles := w.disk.handles - {id}),
                            transfers := w.transfers[id := Finished]);
            Step(w, Accepted(id, outcome)) ==
            match outcome
            case Failed => ended.(log := w.log + [Reply(id, false, 426, "")])
            case Rejected => ended.(log := w.log + [Reply(id, false, 425, "")])
            case Connected =>
              if job.SendFile? && job.size == 0 then ended.(log := w.log + [Reply(id, false, 226, "")])
              else w.(acceptorOpen := false, transfers := w.transfers[id := Running(job)])
  {
  }

  /** The end of the data closes the file and posts 226; a broken download posts 426, a broken listing nothing. */
  lemma EndLeaves(w: World, id: nat, ok: bool)
    requires id in w.transfers && w.transfers[id].Running?
    ensures var job := w.transfers[id].job;
            var ended := w.(disk := w.disk.(handles := w.disk.handles - {id}), transfers := w.transfers[id := Finished]);
            if job == Receive then Step(w, UploadEnded(id)) == ended.(log := w.log + [Reply(id, false, 226, "")])
            else Step(w, Sent(id, ok)) ==
                 if ok then ended.(log := w.log + [Reply(id, false, 226, "")])
                 else if job == SendListing then w.(transfers := w.transfers[id := Abandoned])
                 else ended.(log := w.log + [Reply(id, false, 426, "")])
  {
  }

  /** Losing the control connection ends the reading and closes the port. */
  lemma LossLeaves(w: World)
    ensures Step(w, ControlLost) == if w.reading then w.(reading := false, acceptorOpen := false) else w
  {
  }
}
