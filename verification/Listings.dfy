/** Sending listings: blocks and end markers go through the one data buffer of the session, one write at a time.
    Listings of several data connections may overlap. */
module Listings {
  import opened Wrappers
  import opened Text

  /** A block of a listing, or None for its end. The first item is marked. */
  datatype Item = Item(listing: nat, first: bool, block: Option<string>)

  /** A handler posted to the data strand. SendFront writes to the connection of the listing it names. */
  datatype Task = Add(item: Item) | SendFront(listing: nat)

  /** Data on its way to the connection of a listing. */
  datatype Write = Write(listing: nat, data: string)

  datatype Pipeline = Pipeline(
    strand: seq<Task>,        // posted handlers, run in order
    buffer: seq<Item>,
    inFlight: Option<Write>,  // the write under way
    closed: set<nat>,         // connections closed after their listing
    // history
    answered: seq<nat>,       // the listings that got their 226, in order
    posted: seq<seq<string>>, // the blocks of every listing
    sent: seq<string>,        // what the connection of every listing has taken
    foundEmpty: set<nat>,     // listings whose first item was added to an empty buffer
    failed: set<nat>)         // listings a write of which failed

  /** Post: a data connection was accepted, and a listing is posted for it. */
  datatype Event = Post(blocks: seq<string>) | RunTask | WriteOk | WriteFailed

  function Empty(): Pipeline {
    Pipeline([], [], None, {}, [], [], [], {}, {})
  }

  function Adds(items: seq<Item>): seq<Task> {
    seq(|items|, i requires 0 <= i < |items| => Add(items[i]))
  }

  function ItemsOf(listing: nat, first: bool, blocks: seq<string>): seq<Item> {
    if blocks == [] then [Item(listing, first, None)]
    else [Item(listing, first, Some(blocks[0]))] + ItemsOf(listing, false, blocks[1..])
  }

  function Posted(p: Pipeline, blocks: seq<string>): Pipeline {
    p.(strand := p.strand + Adds(ItemsOf(|p.posted|, true, blocks)), posted := p.posted + [blocks], sent := p.sent + [""])
  }

  function Perform(p: Pipeline, task: Task): Pipeline {
    match task
    case Add(item) =>
      p.(buffer := p.buffer + [item],
         strand := if p.buffer == [] then p.strand + [SendFront(item.listing)] else p.strand,
         foundEmpty := if p.buffer == [] && item.first then p.foundEmpty + {item.listing} else p.foundEmpty)
    case SendFront(listing) =>
      if p.buffer == [] then p  // reading the front of an empty buffer: shown not to happen
      else if p.buffer[0].block.Some? then p.(inFlight := Some(Write(listing, p.buffer[0].block.value)))
      else p.(buffer := p.buffer[1..], closed := p.closed + {listing}, answered := p.answered + [listing])
  }

  function Completed(p: Pipeline, w: Write): Pipeline
    requires p.buffer != []
  {
    var q := p.(buffer := p.buffer[1..], inFlight := None,
                sent := if w.listing < |p.sent| then p.sent[w.listing := p.sent[w.listing] + w.data] else p.sent);
    if q.buffer != [] then q.(strand := q.strand + [SendFront(w.listing)]) else q
  }

  function Step(p: Pipeline, e: Event): Pipeline {
    match e
    case Post(blocks) => Posted(p, blocks)
    case RunTask => if p.strand != [] then Perform(p.(strand := p.strand[1..]), p.strand[0]) else p
    case WriteOk => if p.inFlight.Some? && p.buffer != [] then Completed(p, p.inFlight.value) else p
    case WriteFailed =>
      if p.inFlight.Some? && p.buffer != [] then
        p.(buffer := p.buffer[1..], inFlight := None, failed := p.failed + {p.buffer[0].listing})
      else p
  }

  function Run(p: Pipeline, events: seq<Event>): Pipeline
    decreases |events|
  {
    if events == [] then p else Run(Step(p, events[0]), events[1..])
  }

  // ---------------------------------------------------------------- what holds at every point

  /** The items of the listings from the given one on. */
  function AllItems(posted: seq<seq<string>>, from: nat): seq<Item>
    decreases |posted| - from
  {
    if from >= |posted| then [] else ItemsOf(from, true, posted[from]) + AllItems(posted, from + 1)
  }

  /** What is known of the phase the pipeline is in: what is left of the listing being sent, and the items that
      wait on the strand, in front of and behind the next write step. */
  datatype View =
    | Resting(pending: seq<Item>)
    | Waiting(rest: seq<string>, first: bool, before: seq<Item>, after: seq<Item>)
    | Writing(rest: seq<string>, first: bool, pending: seq<Item>)
    | Stuck(pending: seq<Item>)

  /** The listings answered are the first ones, in order. Each of them found the buffer empty and was sent whole, on
      its own connection; a listing that did not find the buffer empty has sent nothing. */
  predicate Recorded(p: Pipeline) {
    var n := |p.answered|;
    && n <= |p.posted| == |p.sent|
    && p.answered == UpTo(n)
    && (forall i | 0 <= i < n :: i in p.foundEmpty && i !in p.failed && i in p.closed && p.sent[i] == Concat(p.posted[i]))
    && (forall i | i in p.closed :: i < n)
    && (forall i | 0 <= i < |p.posted| :: p.sent[i] <= Concat(p.posted[i]))
    && (forall i | 0 <= i < |p.posted| && i !in p.foundEmpty :: p.sent[i] == "")
  }

  /** The next listing is being sent, and rest is left of it. */
  predicate Serving(p: Pipeline, rest: seq<string>) {
    var n := |p.answered|;
    && n < |p.posted| == |p.sent| && n in p.foundEmpty && p.failed == {}
    && (forall i | i in p.foundEmpty :: i <= n)
    && p.sent[n] + Concat(rest) == Concat(p.posted[n])
  }

  /** The front of the buffer belongs to a listing that did not find the buffer empty, or lost a write. */
  predicate FrontIsLost(p: Pipeline) {
    p.buffer != [] && p.buffer[0].listing < |p.posted| && (p.buffer[0].listing !in p.foundEmpty || p.buffer[0].listing in p.failed)
  }

  predicate InPhase(p: Pipeline, v: View) {
    var n := |p.answered|;
    match v
    case Resting(pending) =>
      && p.inFlight.None? && p.buffer == [] && p.strand == Adds(pending)
      && pending == AllItems(p.posted, n) && p.failed == {} && (forall i | i in p.foundEmpty :: i < n)
    case Waiting(rest, first, before, after) =>
      && Serving(p, rest) && p.inFlight.None? && p.buffer != []
      && p.strand == Adds(before) + [SendFront(n)] + Adds(after)
      && p.buffer + before + after == ItemsOf(n, first, rest) + AllItems(p.posted, n + 1)
      && |rest| < |p.buffer| + |before|
    case Writing(rest, first, pending) =>
      && Serving(p, rest) && rest != [] && p.inFlight == Some(Write(n, rest[0])) && p.strand == Adds(pending)
      && p.buffer + pending == ItemsOf(n, first, rest) + AllItems(p.posted, n + 1)
      && |rest| < |p.buffer|
    case Stuck(pending) =>
      && p.inFlight.None? && FrontIsLost(p) && p.strand == Adds(pending)
      && (forall i | i in p.foundEmpty && n <= i :: i in p.failed)
  }

  predicate Good(p: Pipeline, v: View) {
    Recorded(p) && InPhase(p, v)
  }

  // ---------------------------------------------------------------- items

  lemma AddsFirst(items: seq<Item>)
    requires items != []
    ensures Adds(items) == [Add(items[0])] + Adds(items[1..])
  {
  }

  lemma AddsConcat(a: seq<Item>, b: seq<Item>)
    ensures Adds(a + b) == Adds(a) + Adds(b)
  {
  }

  lemma {:induction false} ItemsLength(listing: nat, first: bool, blocks: seq<string>)
    ensures |ItemsOf(listing, first, blocks)| == |blocks| + 1
    ensures forall i | 0 <= i < |ItemsOf(listing, first, blocks)| :: ItemsOf(listing, first, blocks)[i].listing == listing
    decreases |blocks|
  {
    if blocks != [] {
      ItemsLength(listing, false, blocks[1..]);
    }
  }

  lemma {:induction false} AllItemsSnoc(posted: seq<seq<string>>, blocks: seq<string>, from: nat)
    requires from <= |posted|
    ensures AllItems(posted + [blocks], from) == AllItems(posted, from) + ItemsOf(|posted|, true, blocks)
    decreases |posted| - from
  {
    var longer := posted + [blocks];
    if from < |posted| {
      AllItemsSnoc(posted, blocks, from + 1);
      assert longer[from] == posted[from];
    } else {
      assert AllItems(longer, from + 1) == [];
      assert ItemsOf(from, true, blocks) + [] == ItemsOf(from, true, blocks);
    }
  }

  // ---------------------------------------------------------------- one step

  /** Another listing is posted: its items wait behind all others. */
  lemma PostWhileWaiting(p: Pipeline, v: View, blocks: seq<string>)
    requires Good(p, v) && v.Waiting?
    ensures InPhase(Posted(p, blocks), v.(after := v.after + ItemsOf(|p.posted|, true, blocks)))
  {
    var n, items := |p.answered|, ItemsOf(|p.posted|, true, blocks);
    var begun, others := ItemsOf(n, v.first, v.rest), AllItems(p.posted, n + 1);
    AllItemsSnoc(p.posted, blocks, n + 1);
    AddsConcat(v.after, items);
    assert Posted(p, blocks).strand == Adds(v.before) + [SendFront(n)] + Adds(v.after + items);
    Appended(p.buffer + v.before, v.after, begun, others, items);
  }

  lemma PostWhileWriting(p: Pipeline, v: View, blocks: seq<string>)
    requires Good(p, v) && v.Writing?
    ensures InPhase(Posted(p, blocks), v.(pending := v.pending + ItemsOf(|p.posted|, true, blocks)))
  {
    var n, items := |p.answered|, ItemsOf(|p.posted|, true, blocks);
    var begun, others := ItemsOf(n, v.first, v.rest), AllItems(p.posted, n + 1);
    AllItemsSnoc(p.posted, blocks, n + 1);
    AddsConcat(v.pending, items);
    Appended(p.buffer, v.pending, begun, others, items);
  }

  lemma Appended(a: seq<Item>, b: seq<Item>, c: seq<Item>, d: seq<Item>, items: seq<Item>)
    requires a + b == c + d
    ensures a + (b + items) == c + (d + items)
  {
    assert a + (b + items) == a + b + items;
    assert c + (d + items) == c + d + items;
  }

  lemma PostKeepsRecord(p: Pipeline, v: View, blocks: seq<string>)
    requires Good(p, v)
    ensures Recorded(Posted(p, blocks))
  {
    assert |p.posted| !in p.foundEmpty ==> Posted(p, blocks).sent[|p.posted|] == "";
  }

  lemma PostKeeps(p: Pipeline, v: View, blocks: seq<string>) returns (v': View)
    requires Good(p, v)
    ensures Good(Posted(p, blocks), v')
  {
    var items := ItemsOf(|p.posted|, true, blocks);
    PostKeepsRecord(p, v, blocks);
    if v.Waiting? {
      PostWhileWaiting(p, v, blocks);
      v' := v.(after := v.after + items);
    } else if v.Writing? {
      PostWhileWriting(p, v, blocks);
      v' := v.(pending := v.pending + items);
    } else {
      AllItemsSnoc(p.posted, blocks, |p.answered|);
      AddsConcat(v.pending, items);
      v' := if v.Resting? then Resting(v.pending + items) else Stuck(v.pending + items);
    }
  }

  /** The first item of a listing is added to the empty buffer: it is sent from now on. */
  lemma BeginKeeps(p: Pipeline, pending: seq<Item>)
    requires Good(p, Resting(pending)) && p.strand != []
    ensures Good(Step(p, RunTask), Waiting(p.posted[|p.answered|], true, pending[1..], []))
  {
    var q, n := Step(p, RunTask), |p.answered|;
    AddsFirst(pending);
    assert pending != [] && n < |p.posted|;
    var blocks := p.posted[n];
    ItemsLength(n, true, blocks);
    assert pending[0] == ItemsOf(n, true, blocks)[0];
    assert q.buffer == [pending[0]] && q.strand == Adds(pending[1..]) + [SendFront(n)];
    assert Adds(pending[1..]) + [SendFront(n)] + Adds([]) == q.strand;
    assert [pending[0]] + pending[1..] + [] == pending;
    assert "" + Concat(blocks) == Concat(blocks);
  }

  /** An item joins others in the buffer. */
  lemma AddKeeps(p: Pipeline, v: View) returns (v': View)
    requires Good(p, v) && p.buffer != [] && p.strand != [] && p.strand[0].Add?
    ensures Good(Step(p, RunTask), v')
  {
    match v {
      case Waiting(rest, first, before, after) =>
        assert before != [];
        AddsFirst(before);
        assert p.strand[1..] == Adds(before[1..]) + [SendFront(|p.answered|)] + Adds(after);
        assert p.buffer + [before[0]] + before[1..] + after == p.buffer + before + after;
        v' := Waiting(rest, first, before[1..], after);
      case Writing(rest, first, pending) =>
        AddsFirst(pending);
        assert p.buffer + [pending[0]] + pending[1..] == p.buffer + pending;
        v' := Writing(rest, first, pending[1..]);
      case Stuck(pending) =>
        AddsFirst(pending);
        v' := Stuck(pending[1..]);
    }
  }

  /** The next block is handed to the connection. */
  lemma SendKeeps(p: Pipeline, rest: seq<string>, first: bool, after: seq<Item>)
    requires Good(p, Waiting(rest, first, [], after)) && rest != []
    ensures Good(Step(p, RunTask), Writing(rest, first, after))
  {
    FrontItem(p.buffer, after, |p.answered|, first, rest, AllItems(p.posted, |p.answered| + 1));
    assert p.strand == [SendFront(|p.answered|)] + Adds(after);
    assert p.buffer + [] + after == p.buffer + after;
  }

  lemma FrontItem(buffer: seq<Item>, pending: seq<Item>, n: nat, first: bool, rest: seq<string>, others: seq<Item>)
    requires buffer != [] && buffer + [] + pending == ItemsOf(n, first, rest) + others
    ensures buffer[0] == Item(n, first, if rest == [] then None else Some(rest[0]))
    ensures rest != [] ==> buffer[1..] + pending == ItemsOf(n, false, rest[1..]) + others
    ensures rest == [] ==> buffer[1..] + pending == others
  {
    var items := ItemsOf(n, first, rest);
    assert buffer[0] == (buffer + [] + pending)[0] == items[0];
    assert buffer[1..] + pending == (buffer + [] + pending)[1..] == items[1..] + others;
  }

  /** The end marker is met: the listing is answered. Whatever is left in the buffer stays there for ever. */
  lemma EndKeeps(p: Pipeline, first: bool, after: seq<Item>)
    requires Good(p, Waiting([], first, [], after))
    ensures var q := Step(p, RunTask);
            Recorded(q) && InPhase(q, if q.buffer == [] then Resting(after) else Stuck(after))
  {
    var q, n := Step(p, RunTask), |p.answered|;
    FrontItem(p.buffer, after, n, first, [], AllItems(p.posted, n + 1));
    assert p.strand == [SendFront(n)] + Adds(after);
    assert UpTo(n) + [n] == UpTo(n + 1);
    assert p.sent[n] + "" == p.sent[n];
    if q.buffer == [] {
      assert after == [] + after;
    } else {
      assert n + 1 < |p.posted|;
      ItemsLength(n + 1, true, p.posted[n + 1]);
      assert q.buffer[0] == (q.buffer + after)[0];
    }
  }

  lemma WriteKeepsRecord(p: Pipeline, rest: seq<string>)
    requires Recorded(p) && Serving(p, rest) && rest != [] && p.inFlight == Some(Write(|p.answered|, rest[0])) && p.buffer != []
    ensures Recorded(Step(p, WriteOk)) && Serving(Step(p, WriteOk), rest[1..])
  {
    var n := |p.answered|;
    assert p.sent[n] + rest[0] + Concat(rest[1..]) == p.sent[n] + Concat(rest);
  }

  lemma WriteKeeps(p: Pipeline, rest: seq<string>, first: bool, pending: seq<Item>)
    requires Good(p, Writing(rest, first, pending))
    ensures Good(Step(p, WriteOk), Waiting(rest[1..], false, pending, []))
  {
    var n, strand := |p.answered|, Adds(pending) + [SendFront(|p.answered|)];
    WriteKeepsRecord(p, rest);
    assert p.buffer + [] + pending == p.buffer + pending;
    FrontItem(p.buffer, pending, n, first, rest, AllItems(p.posted, n + 1));
    assert strand + Adds([]) == strand;
    assert p.buffer[1..] + pending + [] == p.buffer[1..] + pending;
  }

  lemma FailureKeeps(p: Pipeline, rest: seq<string>, first: bool, pending: seq<Item>)
    requires Good(p, Writing(rest, first, pending))
    ensures Good(Step(p, WriteFailed), Stuck(pending))
  {
    var n := |p.answered|;
    assert p.buffer + [] + pending == p.buffer + pending;
    FrontItem(p.buffer, pending, n, first, rest, AllItems(p.posted, n + 1));
    ItemsLength(n, false, rest[1..]);
    assert p.buffer[1..][0] == (p.buffer[1..] + pending)[0];
  }

  lemma TaskKeeps(p: Pipeline, v: View) returns (v': View)
    requires Good(p, v) && p.strand != []
    ensures Good(Step(p, RunTask), v')
  {
    if v.Resting? {
      BeginKeeps(p, v.pending);
      v' := Waiting(p.posted[|p.answered|], true, v.pending[1..], []);
    } else if v.Waiting? && v.before == [] {
      if v.rest != [] {
        SendKeeps(p, v.rest, v.first, v.after);
        v' := Writing(v.rest, v.first, v.after);
      } else {
        EndKeeps(p, v.first, v.after);
        v' := if Step(p, RunTask).buffer == [] then Resting(v.after) else Stuck(v.after);
      }
    } else {
      v' := AddKeeps(p, v);
    }
  }

  lemma StepKeeps(p: Pipeline, v: View, e: Event) returns (v': View)
    requires Good(p, v)
    ensures Good(Step(p, e), v')
  {
    v' := v;
    match e {
      case Post(blocks) => v' := PostKeeps(p, v, blocks);
      case RunTask => if p.strand != [] { v' := TaskKeeps(p, v); }
      case WriteOk =>
        if v.Writing? {
          WriteKeeps(p, v.rest, v.first, v.pending);
          v' := Waiting(v.rest[1..], false, v.pending, []);
        }
      case WriteFailed =>
        if v.Writing? {
          FailureKeeps(p, v.rest, v.first, v.pending);
          v' := Stuck(v.pending);
        }
    }
  }

  lemma {:induction false} RunKeeps(p: Pipeline, v: View, events: seq<Event>) returns (v': View)
    requires Good(p, v)
    ensures Good(Run(p, events), v')
    decreases |events|
  {
    if events == [] {
      v' := v;
    } else {
      var next := StepKeeps(p, v, events[0]);
      v' := RunKeeps(Step(p, events[0]), next, events[1..]);
    }
  }

  lemma Reached(events: seq<Event>) returns (v: View)
    ensures Good(Run(Empty(), events), v)
  {
    v := RunKeeps(Empty(), Resting([]), events);
  }

  // ---------------------------------------------------------------- every listing of every run

  /** A write step is posted or a write is under way. */
  predicate Active(p: Pipeline) {
    p.inFlight.Some? || exists i | 0 <= i < |p.strand| :: p.strand[i].SendFront?
  }

  predicate Quiet(p: Pipeline) {
    p.strand == [] && p.inFlight.None?
  }

  /** Without a write step there is nothing left to send, or what is left is stuck. */
  lemma QuietPhase(p: Pipeline, v: View)
    requires Good(p, v) && Quiet(p)
    ensures (v.Resting? && |p.answered| == |p.posted|) || v.Stuck?
    ensures v.Stuck? ==> p.buffer[0].listing !in p.answered
  {
    match v {
      case Resting(pending) =>
        assert |p.strand| == |pending|;
        if |p.answered| < |p.posted| {
          ItemsLength(|p.answered|, true, p.posted[|p.answered|]);
          assert false;
        }
      case Waiting(_, _, _, _) =>
        assert false;
      case Writing(_, _, _) =>
        assert false;
      case Stuck(_) =>
    }
  }

  /** In every run, whatever the listings posted and whenever: the listings answered are the first ones, each once and
      in order, each sent whole on its own connection, which is closed. No connection takes anything but the beginning
      of its own listing, and one that was posted to a buffer in use takes nothing. */
  lemma OwnBytesOnly(events: seq<Event>)
    ensures Recorded(Run(Empty(), events))
  {
    var v := Reached(events);
  }

  /** Once nothing more happens, a listing has got its 226 exactly if the buffer was empty when its first item was
      added and none of its writes failed. */
  lemma AnsweredIff(events: seq<Event>, i: nat)
    requires var p := Run(Empty(), events); Quiet(p) && i < |p.posted|
    ensures var p := Run(Empty(), events);
            && |p.sent| == |p.posted|
            && (i in p.answered <==> i in p.foundEmpty && i !in p.failed)
            && (i in p.answered ==> i in p.closed && p.sent[i] == Concat(p.posted[i]))
  {
    var p := Run(Empty(), events);
    var v := Reached(events);
    QuietPhase(p, v);
    assert i in p.answered <==> i < |p.answered| by {
      if i < |p.answered| {
        assert p.answered[i] == i;
      }
    }
  }

  /** A listing posted while nothing is going on finds the buffer empty. */
  lemma AloneFindsEmpty(p: Pipeline, blocks: seq<string>)
    requires Quiet(p) && p.buffer == []
    ensures |p.posted| in Step(Step(p, Post(blocks)), RunTask).foundEmpty
  {
    var items := ItemsOf(|p.posted|, true, blocks);
    AddsFirst(items);
    assert [] + Adds(items) == Adds(items);
  }

  /** At every interleaving at most one write step is pending or in flight, and only with something in the buffer; the
      buffer is in use without one exactly if its front belongs to a listing that found the buffer in use, or lost a
      write. */
  lemma BufferInUse(events: seq<Event>)
    ensures var p := Run(Empty(), events);
            && (Active(p) ==> p.buffer != [])
            && (p.buffer != [] ==> (Active(p) <==> !FrontIsLost(p)))
            && (forall i, j | 0 <= i < |p.strand| && 0 <= j < |p.strand| && p.strand[i].SendFront? && p.strand[j].SendFront? ::
                  i == j)
            && (p.inFlight.Some? ==> forall i | 0 <= i < |p.strand| :: p.strand[i].Add?)
  {
    var p := Run(Empty(), events);
    var v := Reached(events);
    if v.Waiting? {
      assert p.strand[|v.before|] == SendFront(|p.answered|);
      WaitingFront(p, v);
    } else if v.Writing? {
      WritingFront(p, v);
    }
  }

  lemma WaitingFront(p: Pipeline, v: View)
    requires Good(p, v) && v.Waiting?
    ensures p.buffer[0].listing == |p.answered|
    ensures forall i | 0 <= i < |p.strand| && p.strand[i].SendFront? :: i == |v.before|
  {
    ItemsLength(|p.answered|, v.first, v.rest);
    assert p.buffer[0] == (p.buffer + v.before + v.after)[0] == ItemsOf(|p.answered|, v.first, v.rest)[0];
  }

  lemma WritingFront(p: Pipeline, v: View)
    requires Good(p, v) && v.Writing?
    ensures p.buffer[0].listing == |p.answered|
  {
    ItemsLength(|p.answered|, v.first, v.rest);
    assert p.buffer[0] == (p.buffer + v.pending)[0] == ItemsOf(|p.answered|, v.first, v.rest)[0];
  }

  // ---------------------------------------------------------------- the end is reached

  function AddsLeft(strand: seq<Task>): nat {
    if strand == [] then 0 else (if strand[0].Add? then 1 else 0) + AddsLeft(strand[1..])
  }

  lemma {:induction false} AddsLeftSnoc(strand: seq<Task>, listing: nat)
    ensures AddsLeft(strand + [SendFront(listing)]) == AddsLeft(strand)
  {
    if strand == [] {
      assert strand + [SendFront(listing)] == [SendFront(listing)];
    } else {
      assert (strand + [SendFront(listing)])[1..] == strand[1..] + [SendFront(listing)];
      AddsLeftSnoc(strand[1..], listing);
    }
  }

  /** Work left: additions weigh most, then buffered items, a write under way a little less. */
  function Left(p: Pipeline): int {
    4 * AddsLeft(p.strand) + 3 * |p.buffer| - if p.inFlight.Some? then 1 else 0
  }

  /** Every step but a new listing leaves less to do, so the end is reached whatever the schedule. */
  lemma StepsRunOut(events: seq<Event>, e: Event)
    requires !e.Post?
    ensures var p := Run(Empty(), events);
            && 0 <= Left(p)
            && (Step(p, e) != p ==> Left(Step(p, e)) < Left(p))
            && (!Quiet(p) ==> Step(p, if p.strand != [] then RunTask else WriteOk) != p)
  {
    var p := Run(Empty(), events);
    var v := Reached(events);
    if p.strand != [] {
      TaskLessens(p, v);
    }
    if p.inFlight.Some? {
      AddsLeftSnoc(p.strand, p.inFlight.value.listing);
    }
  }

  lemma TaskLessens(p: Pipeline, v: View)
    requires Good(p, v) && p.strand != []
    ensures Left(Step(p, RunTask)) < Left(p)
  {
    var task := p.strand[0];
    if task.Add? {
      AddsLeftSnoc(p.strand[1..], task.item.listing);
    } else {
      assert p.buffer != [];
    }
  }

  // ---------------------------------------------------------------- after an overlap or a write error

  /** Nothing will ever be sent again: the buffer is in use, and no write step is pending. */
  predicate Stalled(p: Pipeline) {
    p.buffer != [] && !Active(p)
  }

  lemma StalledStep(p: Pipeline, e: Event)
    requires Stalled(p)
    ensures Stalled(Step(p, e)) && Step(p, e).answered == p.answered && p.sent <= Step(p, e).sent
    ensures forall i | |p.sent| <= i < |Step(p, e).sent| :: Step(p, e).sent[i] == ""
  {
  }

  /** A stalled pipeline stays stalled: no listing, posted before or later, is sent or answered. */
  lemma {:induction false} StalledForEver(p: Pipeline, events: seq<Event>)
    requires Stalled(p)
    ensures var q := Run(p, events);
            && Stalled(q) && q.answered == p.answered && p.sent <= q.sent
            && forall i | |p.sent| <= i < |q.sent| :: q.sent[i] == ""
    decreases |events|
  {
    if events != [] {
      StalledStep(p, events[0]);
      StalledForEver(Step(p, events[0]), events[1..]);
    }
  }

  /** A pipeline that became quiet is stalled exactly if some listing was not answered. */
  lemma StalledIff(events: seq<Event>)
    requires Quiet(Run(Empty(), events))
    ensures var p := Run(Empty(), events); Stalled(p) <==> |p.answered| < |p.posted|
  {
    var p := Run(Empty(), events);
    var v := Reached(events);
    QuietPhase(p, v);
  }

  lemma RunFirst(p: Pipeline, e: Event, events: seq<Event>)
    ensures Run(p, [e] + events) == Run(Step(p, e), events)
  {
    assert ([e] + events)[1..] == events;
  }

  lemma {:induction false} RunConcat(p: Pipeline, a: seq<Event>, b: seq<Event>)
    ensures Run(p, a + b) == Run(Run(p, a), b)
    decreases |a|
  {
    if a == [] {
      assert a + b == b;
    } else {
      assert (a + b)[1..] == a[1..] + b;
      RunConcat(Step(p, a[0]), a[1..], b);
    }
  }

  const BEGIN_WRITING: seq<Event> := [Post(["a"]), RunTask, RunTask, RunTask]
  const SECOND_ARRIVES: seq<Event> := [Post(["b"]), RunTask, RunTask]
  const FIRST_ENDS: seq<Event> := [WriteOk, RunTask]

  lemma Run2(p: Pipeline, a: Event, b: Event)
    ensures Run(p, [a, b]) == Step(Step(p, a), b)
  {
    RunFirst(p, a, [b]);
    RunFirst(Step(p, a), b, []);
    assert [a, b] == [a] + [b] && [b] == [b] + [];
  }

  lemma Run3(p: Pipeline, a: Event, b: Event, c: Event)
    ensures Run(p, [a, b, c]) == Step(Step(Step(p, a), b), c)
  {
    RunFirst(p, a, [b, c]);
    Run2(Step(p, a), b, c);
    assert [a, b, c] == [a] + [b, c];
  }

  /** The block of the first listing is on its way. */
  function FirstOnItsWay(): Pipeline {
    Pipeline([], [Item(0, true, Some("a")), Item(0, false, None)], Some(Write(0, "a")), {}, [], [["a"]], [""], {0}, {})
  }

  lemma FirstBegins()
    ensures Run(Empty(), BEGIN_WRITING) == FirstOnItsWay()
  {
    var p0 := Step(Empty(), Post(["a"]));
    assert ItemsOf(0, true, ["a"]) == [Item(0, true, Some("a")), Item(0, false, None)];
    assert p0.strand == [Add(Item(0, true, Some("a"))), Add(Item(0, false, None))];
    var p1 := Step(p0, RunTask);
    assert p1.strand == [Add(Item(0, false, None)), SendFront(0)];
    RunFirst(Empty(), Post(["a"]), [RunTask, RunTask, RunTask]);
    Run3(p0, RunTask, RunTask, RunTask);
    assert BEGIN_WRITING == [Post(["a"])] + [RunTask, RunTask, RunTask];
  }

  /** A second listing has joined it in the buffer. */
  function BothInBuffer(): Pipeline {
    Pipeline([], [Item(0, true, Some("a")), Item(0, false, None), Item(1, true, Some("b")), Item(1, false, None)],
             Some(Write(0, "a")), {}, [], [["a"], ["b"]], ["", ""], {0}, {})
  }

  lemma SecondJoins()
    ensures Run(FirstOnItsWay(), SECOND_ARRIVES) == BothInBuffer()
  {
    assert ItemsOf(1, true, ["b"]) == [Item(1, true, Some("b")), Item(1, false, None)];
    assert Step(FirstOnItsWay(), Post(["b"])).strand == [Add(Item(1, true, Some("b"))), Add(Item(1, false, None))];
    Run3(FirstOnItsWay(), Post(["b"]), RunTask, RunTask);
  }

  lemma FirstIsWritten()
    ensures var p := BothInBuffer();
            Step(p, WriteOk) == p.(strand := [SendFront(0)], buffer := p.buffer[1..], inFlight := None, sent := ["a", ""])
  {
    assert "" + "a" == "a";
    assert ["", ""][0 := "a"] == ["a", ""];
  }

  /** The next listing is posted while the first is being written. No write fails, and the second is lost. */
  lemma OverlapLosesListing()
    ensures var p := Run(Empty(), BEGIN_WRITING + SECOND_ARRIVES + FIRST_ENDS);
            && Quiet(p) && Stalled(p) && p.failed == {}
            && p.answered == [0] && p.sent == ["a", ""] && 1 !in p.foundEmpty
  {
    FirstBegins();
    SecondJoins();
    RunConcat(Empty(), BEGIN_WRITING, SECOND_ARRIVES);
    RunConcat(Empty(), BEGIN_WRITING + SECOND_ARRIVES, FIRST_ENDS);
    FirstIsWritten();
    Run2(BothInBuffer(), WriteOk, RunTask);
  }

  /** The write of the only listing fails: its end marker stays in the buffer. */
  lemma WriteErrorStalls()
    ensures var p := Run(Empty(), BEGIN_WRITING + [WriteFailed]);
            Quiet(p) && Stalled(p) && p.answered == [] && p.failed == {0}
  {
    FirstBegins();
    RunConcat(Empty(), BEGIN_WRITING, [WriteFailed]);
    RunFirst(FirstOnItsWay(), WriteFailed, []);
    assert [WriteFailed] == [WriteFailed] + [];
  }

  // ---------------------------------------------------------------- the object that does it

  /** The data strand and the data buffer of a session. */
  class Sender {
    var strand: seq<Task>
    var dataBuffer: seq<Item>
    var inFlight: Option<Write>
    var closed: set<nat>
    ghost var answered: seq<nat>
    ghost var posted: seq<seq<string>>
    ghost var sent: seq<string>
    ghost var foundEmpty: set<nat>
    ghost var failed: set<nat>

    ghost function State(): Pipeline
      reads this
    {
      Pipeline(strand, dataBuffer, inFlight, closed, answered, posted, sent, foundEmpty, failed)
    }

    constructor ()
      ensures State() == Empty()
    {
      strand, dataBuffer, inFlight, closed := [], [], None, {};
      answered, posted, sent, foundEmpty, failed := [], [], [], {}, {};
    }

    /** Posts the handler that puts an item into the buffer. */
    method AddDataToBufferAndSend(item: Item)
      modifies this`strand
      ensures strand == old(strand) + [Add(item)]
    {
      strand := strand + [Add(item)];
    }

    /** A listing for a newly accepted connection: its text in one block and the end marker. */
    method SendDirectoryListing(text: string, listing: nat)
      requires listing == |posted|
      modifies this
      ensures State() == Step(old(State()), Post([text]))
    {
      posted := posted + [[text]];
      sent := sent + [""];
      AddDataToBufferAndSend(Item(listing, true, Some(text)));
      AddDataToBufferAndSend(Item(listing, false, None));
      assert ItemsOf(listing, true, [text]) == [Item(listing, true, Some(text)), Item(listing, false, None)];
      assert Adds(ItemsOf(listing, true, [text])) ==
             [Add(Item(listing, true, Some(text))), Add(Item(listing, false, None))];
    }

    method WriteDataToSocket(listing: nat)
      modifies this`strand
      ensures strand == old(strand) + [SendFront(listing)]
    {
      strand := strand + [SendFront(listing)];
    }

    /** The strand runs its first handler. */
    method RunFirst()
      requires strand != [] && (strand[0].SendFront? ==> dataBuffer != [])
      modifies this
      ensures State() == Step(old(State()), RunTask)
    {
      var task := strand[0];
      strand := strand[1..];
      match task {
        case Add(item) =>
          var writeInProgress := dataBuffer != [];
          dataBuffer := dataBuffer + [item];
          if !writeInProgress {
            foundEmpty := if item.first then foundEmpty + {item.listing} else foundEmpty;
            WriteDataToSocket(item.listing);
          }
        case SendFront(listing) =>
          var data := dataBuffer[0].block;
          if data.Some? {
            inFlight := Some(Write(listing, data.value));
          } else {
            dataBuffer := dataBuffer[1..];
            closed := closed + {listing};
            answered := answered + [listing];
          }
      }
    }

    /** The write under way has completed, or failed. */
    method WriteHandler(ok: bool)
      requires inFlight.Some? && dataBuffer != []
      modifies this
      ensures State() == Step(old(State()), if ok then WriteOk else WriteFailed)
    {
      var write := inFlight.value;
      ghost var front := dataBuffer[0];
      dataBuffer := dataBuffer[1..];
      inFlight := None;
      if !ok {
        failed := failed + {front.listing};
        return;
      }
      sent := if write.listing < |sent| then sent[write.listing := sent[write.listing] + write.data] else sent;
      if dataBuffer != [] {
        WriteDataToSocket(write.listing);
      }
    }
  }
}
