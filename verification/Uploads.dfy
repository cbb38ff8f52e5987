/** Receiving a file: the next read is issued before the current chunk is written, and still the file
    holds the received bytes in order. */
module Uploads {
  import opened Wrappers
  import opened Text
  import Disks

  const CHUNK: nat := 1024 * 1024

  /** A completed read whose handler waits for the strand: its bytes, and whether it ended in an error. */
  datatype Completion = Completion(data: string, failed: bool)

  datatype Upload = Upload(
    arrived: string,              // in the socket, not read yet
    peerDone: bool,               // the client will send no more
    outstanding: seq<string>,     // reads under way, each with the bytes it has so far
    completions: seq<Completion>, // read handlers waiting for the strand
    writing: Option<string>,      // a read handler between issuing the next read and writing its chunk
    endPosted: bool,              // the closing handler waits for the strand
    file: string,
    fileOpen: bool,
    socketOpen: bool,
    replies: seq<nat>,
    // history
    sent: string,                 // everything the client sent
    received: string,             // everything the reads took, in order
    chunks: seq<string>,          // the pieces written, in order
    broken: bool)                 // some read failed with bytes still to come

  /** After the data connection was accepted: the first read is outstanding. */
  function Begin(): Upload {
    Upload("", false, [""], [], None, false, "", true, true, [], "", "", [], false)
  }

  datatype Event =
    | Arrive(data: string)
    | PeerDone
    | Take(n: nat)        // an outstanding read takes up to n more bytes
    | FailRead            // an outstanding read ends early: end of stream or a connection error
    | RunReadHandler      // the strand starts the handler of a completed read
    | WriteChunk          // that handler writes its chunk and returns
    | RunEnd              // the strand runs the closing handler

  function Min(a: nat, b: nat): nat {
    if a < b then a else b
  }

  /** Bytes go to the file only while it is open. */
  function Written(u: Upload, data: string): Upload {
    if u.fileOpen then u.(file := u.file + data, chunks := u.chunks + [data]) else u
  }

  /** The strand is free: no handler is in the middle of its work. */
  predicate StrandFree(u: Upload) {
    u.writing.None?
  }

  /** How many bytes a read takes that is offered up to n. */
  function Taken(u: Upload, n: nat): (k: nat)
    requires u.outstanding != []
    ensures k <= |u.arrived|
  {
    Min(n, Min(if |u.outstanding[0]| < CHUNK then CHUNK - |u.outstanding[0]| else 0, |u.arrived|))
  }

  function TakeBytes(u: Upload, n: nat): Upload
    requires u.outstanding != []
  {
    var k := Taken(u, n);
    var buffer := u.outstanding[0] + u.arrived[..k];
    var rest := u.(arrived := u.arrived[k..], received := u.received + u.arrived[..k]);
    if |buffer| >= CHUNK then
      rest.(outstanding := u.outstanding[1..], completions := u.completions + [Completion(buffer, false)])
    else
      rest.(outstanding := u.outstanding[0 := buffer])
  }

  /** The handler of a completed read, up to the point where it may be overtaken by the next read. */
  function ReadHandler(u: Upload): Upload
    requires u.completions != []
  {
    var c := u.completions[0];
    var rest := u.(completions := u.completions[1..]);
    if c.failed then
      (if |c.data| > 0 then Written(rest, c.data) else rest).(endPosted := true)
    else if |c.data| > 0 then
      rest.(outstanding := u.outstanding + [""], writing := Some(c.data))
    else rest
  }

  function Step(u: Upload, e: Event): Upload {
    match e
    case Arrive(data) => if u.peerDone then u else u.(arrived := u.arrived + data, sent := u.sent + data)
    case PeerDone => u.(peerDone := true)
    case Take(n) => if u.outstanding != [] then TakeBytes(u, n) else u
    case FailRead =>
      if u.outstanding != [] then
        u.(outstanding := u.outstanding[1..], completions := u.completions + [Completion(u.outstanding[0], true)],
           broken := u.broken || !u.peerDone || u.arrived != "")
      else u
    case RunReadHandler => if StrandFree(u) && u.completions != [] then ReadHandler(u) else u
    case WriteChunk => if u.writing.Some? then Written(u, u.writing.value).(writing := None) else u
    case RunEnd =>
      if StrandFree(u) && u.endPosted then
        u.(endPosted := false, fileOpen := false, replies := u.replies + [226], socketOpen := false)
      else u
  }

  /** A step writes one chunk to the open file, or leaves its content alone; a closed file stays closed. */
  lemma StepWrites(u: Upload, e: Event)
    ensures var v := Step(u, e);
            && (v.fileOpen ==> u.fileOpen)
            && if |v.chunks| > |u.chunks|
               then u.fileOpen && v.fileOpen && v.file == u.file + v.chunks[|v.chunks| - 1]
               else v.file == u.file
  {
    if e.RunReadHandler? && StrandFree(u) && u.completions != [] {
      HandlerWrites(u);
    }
  }

  lemma HandlerWrites(u: Upload)
    requires u.completions != []
    ensures var v := ReadHandler(u);
            && v.fileOpen == u.fileOpen
            && if |v.chunks| > |u.chunks|
               then u.fileOpen && v.file == u.file + v.chunks[|v.chunks| - 1]
               else v.file == u.file
  {
  }

  function Run(u: Upload, events: seq<Event>): Upload
    decreases |events|
  {
    if events == [] then u else Run(Step(u, events[0]), events[1..])
  }

  // ---------------------------------------------------------------- what holds at every point

  function Pending(u: Upload): string {
    (if u.writing.Some? then u.writing.value else "")
    + (if u.completions != [] then u.completions[0].data else "")
    + (if u.outstanding != [] then u.outstanding[0] else "")
  }

  predicate FullButLast(chunks: seq<string>) {
    forall i | 0 <= i < |chunks| - 1 :: |chunks[i]| == CHUNK
  }

  /** Receiving: exactly one read is outstanding or completed, and all chunks so far are full. */
  predicate Receiving(u: Upload) {
    && u.fileOpen && u.socketOpen && !u.endPosted && u.replies == []
    && |u.outstanding| + |u.completions| == 1
    && (u.outstanding != [] ==> |u.outstanding[0]| < CHUNK)
    && (u.completions != [] && !u.completions[0].failed ==> |u.completions[0].data| == CHUNK)
    && (u.completions != [] && u.completions[0].failed ==> |u.completions[0].data| < CHUNK)
    && (u.writing.Some? ==> |u.writing.value| == CHUNK)
    && (forall i | 0 <= i < |u.chunks| :: |u.chunks[i]| == CHUNK)
  }

  predicate Over(u: Upload) {
    u.outstanding == [] && u.completions == [] && u.writing.None? && FullButLast(u.chunks)
  }

  predicate Ending(u: Upload) {
    Over(u) && u.endPosted && u.fileOpen && u.socketOpen && u.replies == []
  }

  predicate Closed(u: Upload) {
    Over(u) && !u.endPosted && !u.fileOpen && !u.socketOpen && u.replies == [226]
  }

  /** A read that ended although nothing is missing ended at the end of the stream. */
  predicate Complete(u: Upload) {
    u.peerDone && u.arrived == ""
  }

  predicate Ordered(u: Upload) {
    && u.received == u.file + Pending(u)
    && u.sent == u.received + u.arrived
    && u.file == Concat(u.chunks)
    && (Receiving(u) || Ending(u) || Closed(u))
    && (!u.broken && (u.outstanding == [] && !(u.completions != [] && !u.completions[0].failed)) ==> Complete(u))
  }

  lemma TakeBytesText(file: string, writing: string, buffer: string, arrived: string, k: nat)
    requires k <= |arrived|
    ensures file + (writing + "" + buffer) + arrived[..k] == file + (writing + (buffer + arrived[..k]))
    ensures file + (writing + "" + buffer) + arrived == file + (writing + "" + buffer) + arrived[..k] + arrived[k..]
  {
    assert arrived == arrived[..k] + arrived[k..];
  }

  lemma TakeKeepsText(u: Upload, n: nat)
    requires |u.outstanding| == 1 && u.completions == []
    requires u.received == u.file + Pending(u) && u.sent == u.received + u.arrived
    ensures var t := TakeBytes(u, n);
            t.received == t.file + Pending(t) && t.sent == t.received + t.arrived
  {
    var writing := if u.writing.Some? then u.writing.value else "";
    TakeBytesText(u.file, writing, u.outstanding[0], u.arrived, Taken(u, n));
    PendingTaken(u, n);
  }

  lemma PendingTaken(u: Upload, n: nat)
    requires |u.outstanding| == 1 && u.completions == []
    ensures var writing := if u.writing.Some? then u.writing.value else "";
            Pending(TakeBytes(u, n)) == writing + (u.outstanding[0] + u.arrived[..Taken(u, n)])
  {
    var t, buffer := TakeBytes(u, n), u.outstanding[0] + u.arrived[..Taken(u, n)];
    if |buffer| >= CHUNK {
      assert t.outstanding == [] && t.completions == [Completion(buffer, false)];
    } else {
      assert t.outstanding == [buffer];
    }
  }

  lemma TakeKeepsReceiving(u: Upload, n: nat)
    requires Receiving(u) && u.outstanding != []
    ensures Receiving(TakeBytes(u, n))
  {
  }

  lemma TakeOrdered(u: Upload, n: nat)
    requires Ordered(u) && u.outstanding != []
    ensures Ordered(TakeBytes(u, n))
  {
    TakeKeepsText(u, n);
    TakeKeepsReceiving(u, n);
  }

  lemma LastPiece(u: Upload)
    requires Ordered(u) && StrandFree(u) && u.completions != []
    ensures u.outstanding == [] && Pending(u) == u.completions[0].data && u.received == u.file + u.completions[0].data
    ensures Concat(u.chunks + [u.completions[0].data]) == u.received
  {
    ConcatSnoc(u.chunks, u.completions[0].data);
  }

  lemma HandlerOrdered(u: Upload)
    requires Ordered(u) && StrandFree(u) && u.completions != []
    ensures Ordered(ReadHandler(u))
  {
    LastPiece(u);
    var v := ReadHandler(u);
    if u.completions[0].failed {
      assert Pending(v) == "";
    } else {
      assert Pending(v) == u.completions[0].data;
    }
  }

  lemma GlueAssociates(file: string, chunk: string, completed: string, outstanding: string)
    ensures file + (chunk + completed + outstanding) == file + chunk + ("" + completed + outstanding)
  {
  }

  lemma WriteKeepsText(u: Upload)
    requires u.received == u.file + Pending(u) && u.file == Concat(u.chunks) && u.writing.Some? && u.fileOpen
    ensures var v := Written(u, u.writing.value).(writing := None);
            u.received == v.file + Pending(v) && v.file == Concat(v.chunks)
  {
    ConcatSnoc(u.chunks, u.writing.value);
    GlueAssociates(u.file, u.writing.value, if u.completions != [] then u.completions[0].data else "",
                   if u.outstanding != [] then u.outstanding[0] else "");
  }

  lemma WriteKeepsReceiving(u: Upload)
    requires Receiving(u) && u.writing.Some?
    ensures Receiving(Written(u, u.writing.value).(writing := None))
  {
  }

  lemma WriteOrdered(u: Upload)
    requires Ordered(u) && u.writing.Some?
    ensures Ordered(Written(u, u.writing.value).(writing := None))
  {
    WriteKeepsText(u);
    WriteKeepsReceiving(u);
  }

  lemma FailOrdered(u: Upload)
    requires Ordered(u) && u.outstanding != []
    ensures Ordered(Step(u, FailRead))
  {
  }

  lemma StepOrdered(u: Upload, e: Event)
    requires Ordered(u)
    ensures Ordered(Step(u, e))
  {
    match e {
      case Take(n) => if u.outstanding != [] { TakeOrdered(u, n); }
      case RunReadHandler => if StrandFree(u) && u.completions != [] { HandlerOrdered(u); }
      case WriteChunk => if u.writing.Some? { WriteOrdered(u); }
      case FailRead => if u.outstanding != [] { FailOrdered(u); }
      case Arrive(data) => assert u.received + (u.arrived + data) == u.received + u.arrived + data;
      case _ => assert Pending(Step(u, e)) == Pending(u);
    }
  }

  /** Under every schedule and every segmentation: at most one read is outstanding, what has been read is the file
      plus what is on its way to it, in order, and all chunks but the last are full. */
  lemma {:induction false} RunOrdered(u: Upload, events: seq<Event>)
    requires Ordered(u)
    ensures Ordered(Run(u, events))
    decreases |events|
  {
    if events != [] {
      StepOrdered(u, events[0]);
      RunOrdered(Step(u, events[0]), events[1..]);
    }
  }

  /** When the file is closed it equals the received bytes, which are everything the client sent unless a read was
      cut off; the 226 is posted once, and never before the close. */
  lemma UploadIntegrity(events: seq<Event>)
    ensures var u := Run(Begin(), events);
            && |u.outstanding| <= 1
            && (forall i | 0 <= i < |u.chunks| - 1 :: |u.chunks[i]| == 1048576) && u.file == Concat(u.chunks)
            && (u.replies != [] ==> !u.fileOpen)
            && (!u.fileOpen ==> u.replies == [226] && u.file == u.received && (!u.broken ==> u.file == u.sent))
  {
    RunOrdered(Begin(), events);
  }

  /** On the file tree: the chunks of an upload that has ended, written to the file that STOR opened, leave exactly
      the received bytes at the place that was stored to; appended, they leave the old content and then those bytes. */
  lemma UploadLandsInTree(events: seq<Event>, d: Disks.Disk, p: seq<string>, id: nat)
    requires Disks.Valid(d) && !Run(Begin(), events).fileOpen && (p in d.tree ==> d.tree[p].File?)
    ensures var u, stored := Run(Begin(), events), Disks.OpenTruncated(d, p, id);
            stored.Some? ==>
              Disks.ContentOf(Disks.Close(Disks.WriteAll(stored.value, id, u.chunks), id), p) == Some(u.received)
    ensures var u, stored := Run(Begin(), events), Disks.OpenAppending(d, p, id);
            stored.Some? ==>
              Disks.ContentOf(Disks.Close(Disks.WriteAll(stored.value, id, u.chunks), id), p) ==
              Some(d.content[d.tree[p].ino] + u.received)
  {
    var u := Run(Begin(), events);
    UploadIntegrity(events);
    Disks.OpenedAtEnd(d, p, id);
    var truncated, appending := Disks.OpenTruncated(d, p, id), Disks.OpenAppending(d, p, id);
    if truncated.Some? {
      Disks.WritesAppend(truncated.value, id, u.chunks);
      assert "" + u.received == u.received;
    }
    if appending.Some? {
      Disks.WritesAppend(appending.value, id, u.chunks);
    }
  }

  /** While a handler has yet to write, the read it issued is already under way, and the strand lets nobody else write. */
  lemma NextReadBeforeWrite(events: seq<Event>)
    ensures var u := Run(Begin(), events);
            u.writing.Some? ==>
              && |u.outstanding| + |u.completions| == 1
              && Step(u, RunReadHandler) == u && Step(u, RunEnd) == u
              && Step(u, WriteChunk).file == u.file + u.writing.value
  {
    RunOrdered(Begin(), events);
  }

  /** The branch for an empty successful read is dead. */
  lemma NoEmptyChunk(events: seq<Event>)
    ensures var u := Run(Begin(), events);
            u.completions != [] && !u.completions[0].failed ==> |u.completions[0].data| > 0
  {
    RunOrdered(Begin(), events);
  }

  // ---------------------------------------------------------------- the end is reached

  /** What remains to be done once the client has sent everything. */
  function Work(u: Upload): nat {
    4 * |u.arrived| + 4 * |u.outstanding|
    + (if u.completions == [] then 0 else if u.completions[0].failed then 3 else 6)
    + (if u.writing.Some? then 1 else 0) + (if u.endPosted then 1 else 0)
  }

  /** The next thing that can happen after the client is done. */
  function Next(u: Upload): Event {
    if u.writing.Some? then WriteChunk
    else if u.endPosted then RunEnd
    else if u.completions != [] then RunReadHandler
    else if u.arrived != "" then Take(CHUNK)
    else FailRead
  }

  /** An upload whose client is done never gets stuck: until the file is closed there is a step, and it leaves less to do. */
  lemma UploadProgresses(u: Upload)
    requires Ordered(u) && u.peerDone && !Closed(u)
    ensures Work(Step(u, Next(u))) < Work(u)
  {
    if u.writing.None? && !u.endPosted {
      if u.completions != [] {
        HandlerProgresses(u);
      } else if u.arrived != "" {
        TakeProgresses(u);
      }
    }
  }

  lemma HandlerProgresses(u: Upload)
    requires Receiving(u) && u.writing.None? && u.completions != []
    ensures Work(ReadHandler(u)) < Work(u)
  {
  }

  lemma TakeProgresses(u: Upload)
    requires Receiving(u) && u.completions == [] && u.arrived != ""
    ensures Work(TakeBytes(u, CHUNK)) < Work(u)
  {
  }

  /** Steps that do not bring in bytes or cut a read off keep what the client sent. */
  lemma NextKeepsHistory(u: Upload)
    requires u.peerDone
    ensures var v := Step(u, Next(u)); v.peerDone && v.sent == u.sent && v.broken == u.broken
  {
    if u.writing.None? && !u.endPosted && u.completions != [] {
      HandlerKeepsHistory(u);
    }
  }

  lemma HandlerKeepsHistory(u: Upload)
    requires u.completions != []
    ensures var v := ReadHandler(u); v.peerDone == u.peerDone && v.sent == u.sent && v.broken == u.broken
  {
  }

  lemma NextKeeps(u: Upload)
    requires Ordered(u) && u.peerDone && !Closed(u)
    ensures var v := Step(u, Next(u));
            Ordered(v) && v.peerDone && v.sent == u.sent && v.broken == u.broken
  {
    NextKeepsHistory(u);
    StepOrdered(u, Next(u));
  }

  function Finish(u: Upload): Upload
    requires Ordered(u) && u.peerDone
    decreases Work(u)
  {
    if Closed(u) then u else
    NextKeeps(u);
    UploadProgresses(u);
    Finish(Step(u, Next(u)))
  }

  /** Whatever has happened before, the upload can be brought to its end, and then the file is what was sent. */
  lemma {:induction false} FinishedFile(u: Upload)
    requires Ordered(u) && u.peerDone
    ensures var f := Finish(u);
            Closed(f) && (!u.broken ==> f.file == u.sent)
    decreases Work(u)
  {
    if !Closed(u) {
      NextKeeps(u);
      UploadProgresses(u);
      FinishedFile(Step(u, Next(u)));
    }
  }

  // ---------------------------------------------------------------- the object that does it

  /** The upload of one data connection: socket and strand as fields, one method per handler. */
  class Receiver {
    var arrived: string
    var peerDone: bool
    var outstanding: seq<string>
    var completions: seq<Completion>
    var writing: Option<string>
    var endPosted: bool
    var file: string
    var fileOpen: bool
    var socketOpen: bool
    ghost var replies: seq<nat>
    ghost var sent: string
    ghost var received: string
    ghost var chunks: seq<string>
    ghost var broken: bool

    ghost function State(): Upload
      reads this
    {
      Upload(arrived, peerDone, outstanding, completions, writing, endPosted, file, fileOpen, socketOpen,
             replies, sent, received, chunks, broken)
    }

    constructor ()
      ensures State() == Begin()
    {
      arrived, peerDone, outstanding, completions, writing, endPosted := "", false, [""], [], None, false;
      file, fileOpen, socketOpen := "", true, true;
      replies, sent, received, chunks, broken := [], "", "", [], false;
    }

    method ReceiveData()
      modifies this`outstanding
      ensures outstanding == old(outstanding) + [""]
    {
      outstanding := outstanding + [""];
    }

    method WriteToFile(data: string)
      modifies this`file, this`chunks
      ensures State() == Written(old(State()), data)
    {
      if fileOpen {
        file := file + data;
        chunks := chunks + [data];
      }
    }

    /** The socket delivers up to n more bytes to the read under way. */
    method Deliver(n: nat)
      requires outstanding != [] && |outstanding[0]| < CHUNK
      modifies this
      ensures State() == Step(old(State()), Take(n))
    {
      var k := Min(n, Min(CHUNK - |outstanding[0]|, |arrived|));
      var buffer := outstanding[0] + arrived[..k];
      received := received + arrived[..k];
      arrived := arrived[k..];
      if |buffer| == CHUNK {
        outstanding := outstanding[1..];
        completions := completions + [Completion(buffer, false)];
      } else {
        outstanding := outstanding[0 := buffer];
      }
    }

    /** The handler of a completed read; after a full chunk it issues the next read and still has to write. */
    method HandleRead()
      requires writing.None? && completions != []
      modifies this
      ensures State() == Step(old(State()), RunReadHandler)
    {
      var c := completions[0];
      completions := completions[1..];
      if c.failed {
        if |c.data| > 0 {
          WriteToFile(c.data);
        }
        endPosted := true;
        return;
      } else if |c.data| > 0 {
        ReceiveData();
        writing := Some(c.data);
      }
    }

    method FinishWriting()
      requires writing.Some?
      modifies this
      ensures State() == Step(old(State()), WriteChunk)
    {
      WriteToFile(writing.value);
      writing := None;
    }

    method EndDataReceiving()
      requires writing.None? && endPosted
      modifies this
      ensures State() == Step(old(State()), RunEnd)
    {
      endPosted := false;
      fileOpen := false;
      replies := replies + [226];
      socketOpen := false;
    }
  }
}
