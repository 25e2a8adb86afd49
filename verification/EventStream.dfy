/** The server-sent event stream of command events: a cursor over the table, live events
    that may come out of order, twice or not at all, and gap recovery from the table. */
module EventStream {
  import opened Common
  import opened EventLog

  const PAGE_SIZE: nat := 200
  const CHANNEL_CAPACITY: nat := 32

  /** The id `latestCommandEventID` reports: the newest row's, or 0. */
  function LatestId(rows: seq<Event>): nat {
    var page := PageBefore(rows, 0, 1);
    if page == [] then 0 else page[0].id
  }

  lemma LatestIsGreatest(rows: seq<Event>)
    requires Ordered(rows)
    ensures forall e :: e in rows ==> e.id <= LatestId(rows)
    ensures rows != [] ==> LatestId(rows) == rows[|rows| - 1].id
  {
    NoBoundKeepsAll(rows);
  }

  lemma {:induction false} NoBoundKeepsAll(rows: seq<Event>)
    ensures RowsBefore(rows, 0) == rows
  {
    if |rows| > 0 {
      NoBoundKeepsAll(rows[1..]);
    }
  }

  function LastId(page: seq<Event>, cursor: nat): nat {
    if page == [] then cursor else page[|page| - 1].id
  }

  // ------------------------------------------------------- one client, quiet table

  /** One client's connection while nobody else touches the table. */
  class Connection {
    const log: CommandLog
    var cursor: nat
    var written: seq<Event>

    constructor (log: CommandLog, after: nat)
      ensures this.log == log && cursor == after && written == []
    {
      this.log := log;
      cursor, written := after, [];
    }

    method WritePage(events: seq<Event>)
      modifies this
      ensures written == old(written) + events && cursor == LastId(events, old(cursor))
    {
      for i := 0 to |events|
        invariant written == old(written) + events[..i] && cursor == LastId(events[..i], old(cursor))
      {
        written := written + [events[i]];
        cursor := events[i].id;
        assert events[..i + 1] == events[..i] + [events[i]];
      }
      assert events[..|events|] == events;
    }

    /** Page after page until a short one: together, every row behind the cursor. */
    method WriteCommandBacklog()
      requires log.Valid()
      modifies this
      ensures written == old(written) + RowsAfter(log.rows, old(cursor))
      ensures cursor == LastId(RowsAfter(log.rows, old(cursor)), old(cursor))
    {
      hide RowsAfter, Take;
      ghost var before, start := written, cursor;
      ghost var all := RowsAfter(log.rows, start);
      ghost var done: nat := 0;
      var more := true;
      while more
        invariant done <= |all| && (!more ==> done == |all|)
        invariant written == before + all[..done]
        invariant cursor == LastId(all[..done], start)
        decreases more, |all| - done
      {
        RestOfRows(log.rows, start, all, done);
        var events := log.ListEvents(cursor, PAGE_SIZE);
        WritePage(events);
        TakeMore(before, all, done, PAGE_SIZE, start);
        done := done + |events|;
        if |events| < PAGE_SIZE {
          more := false;
        }
      }
      assert all[..|all|] == all;
    }

    method HandleEvent(event: Event)
      requires log.Valid()
      modifies this
      ensures event.id <= old(cursor) ==> written == old(written) && cursor == old(cursor)
      ensures event.id == old(cursor) + 1 ==> written == old(written) + [event] && cursor == event.id
      ensures event.id > old(cursor) + 1 ==>
                && written == old(written) + RowsAfter(log.rows, old(cursor))
                && cursor == LastId(RowsAfter(log.rows, old(cursor)), old(cursor))
    {
      if event.id <= cursor {
        return;
      }
      if event.id > cursor + 1 {
        WriteCommandBacklog();
        return;
      }
      written := written + [event];
      cursor := event.id;
    }
  }

  lemma TakeMore(before: seq<Event>, all: seq<Event>, done: nat, n: nat, cursor: nat)
    requires done <= |all| && n > 0
    ensures var page := Take(all[done..], n);
            && done + |page| <= |all| && before + all[..done] + page == before + all[..done + |page|]
            && LastId(page, LastId(all[..done], cursor)) == LastId(all[..done + |page|], cursor)
            && (|page| < n ==> done + |page| == |all|)
  {}

  /** Asking again from the last id written gives the rest of what was asked for first. */
  lemma RestOfRows(rows: seq<Event>, after: nat, all: seq<Event>, done: nat)
    requires Ordered(rows) && all == RowsAfter(rows, after) && done <= |all|
    ensures RowsAfter(rows, LastId(all[..done], after)) == all[done..]
  {
    if done > 0 {
      assert all[..done][done - 1] == all[done - 1];
      RowsAfterSuffix(rows, after, done);
    }
  }

  lemma {:induction false} RowsAfterSuffix(rows: seq<Event>, after: nat, done: nat)
    requires Ordered(rows) && 0 < done <= |RowsAfter(rows, after)|
    ensures RowsAfter(rows, RowsAfter(rows, after)[done - 1].id) == RowsAfter(rows, after)[done..]
  {
    var all := RowsAfter(rows, after);
    var id := all[done - 1].id;
    assert all[done - 1] in rows;
    TailOrdered(rows);
    hide Ordered;
    if rows[0].id <= after {
      RowsAfterSuffix(rows[1..], after, done);
      assert id > after;
    } else if done > 1 {
      assert all[done - 1] in rows[1..];
      RowsAfterSuffix(rows[1..], after, done - 1);
      assert all[1..][done - 2] == all[done - 1];
    } else {
      SkipsNone(rows[1..], after, id);
    }
  }

  lemma TailOrdered(rows: seq<Event>)
    requires Ordered(rows) && |rows| > 0
    ensures Ordered(rows[1..]) && forall e :: e in rows[1..] ==> rows[0].id < e.id
  {}

  lemma {:induction false} SkipsNone(rows: seq<Event>, a: nat, b: nat)
    requires forall e :: e in rows ==> e.id > a && e.id > b
    ensures RowsAfter(rows, a) == RowsAfter(rows, b) == rows
  {
    if |rows| > 0 {
      SkipsNone(rows[1..], a, b);
    }
  }

  // ------------------------------------------------------------ concurrent protocol

  /** `history` holds every event ever committed, `rows` those not yet cleared; `start`
      is the cursor the client began with. A client pages while `paging` holds. */
  datatype Sys = Sys(
    history: seq<Event>, rows: seq<Event>, nextId: nat, channel: seq<Event>,
    start: nat, cursor: nat, paging: bool, written: seq<Event>)

  datatype Step =
    | Commit(execution: nat, text: string)
    | Publish(event: Event)
    | Clear(finished: set<nat>)
    | ReadPage
    | Receive

  /** A client that has subscribed and is about to write its first backlog; events may
      have reached its channel meanwhile. */
  predicate Starts(sys: Sys) {
    sys.written == [] && sys.paging && sys.cursor == sys.start
  }

  predicate Enabled(sys: Sys, step: Step) {
    match step
    case Commit(_, _) => true
    case Publish(e) => e in sys.history
    case Clear(_) => true
    case ReadPage => sys.paging
    case Receive => !sys.paging && sys.channel != []
  }

  function Apply(sys: Sys, step: Step): Sys
    requires Enabled(sys, step)
  {
    match step
    case Commit(x, text) =>
      var e := Event(sys.nextId, x, text);
      sys.(history := sys.history + [e], rows := sys.rows + [e], nextId := sys.nextId + 1)
    case Publish(e) =>
      if |sys.channel| < CHANNEL_CAPACITY then sys.(channel := sys.channel + [e]) else sys
    case Clear(finished) => sys.(rows := Cleared(sys.rows, finished))
    case ReadPage =>
      var page := Page(sys.rows, sys.cursor, PAGE_SIZE);
      sys.(written := sys.written + page, cursor := LastId(page, sys.cursor), paging := |page| == PAGE_SIZE)
    case Receive =>
      var e := sys.channel[0];
      var rest := sys.(channel := sys.channel[1..]);
      if e.id <= sys.cursor then rest
      else if e.id > sys.cursor + 1 then rest.(paging := true)
      else rest.(written := sys.written + [e], cursor := e.id)
  }

  ghost predicate Table(sys: Sys) {
    && Ordered(sys.history) && Ordered(sys.rows) && sys.nextId > 0
    && (forall e :: e in sys.history ==> 0 < e.id < sys.nextId)
    && (forall e :: e in sys.rows ==> e in sys.history)
    && (forall e :: e in sys.channel ==> e in sys.history)
  }

  /** What the client has got: strictly increasing, committed, behind its start, and every
      surviving event up to its cursor. */
  ghost predicate ExactlyOnce(sys: Sys) {
    && sys.start <= sys.cursor
    && Ordered(sys.written)
    && (forall e :: e in sys.written ==> e in sys.history && sys.start < e.id <= sys.cursor)
    && (forall e :: e in sys.rows && sys.start < e.id <= sys.cursor ==> e in sys.written)
    && sys.cursor == LastId(sys.written, sys.start)
  }

  ghost predicate Inv(sys: Sys) {
    Table(sys) && ExactlyOnce(sys) && (sys.cursor < sys.nextId || sys.cursor == sys.start)
  }

  lemma SameIdSameEvent(history: seq<Event>, a: Event, b: Event)
    requires Ordered(history) && a in history && b in history && a.id == b.id
    ensures a == b
  {
    var i :| 0 <= i < |history| && history[i] == a;
    var j :| 0 <= j < |history| && history[j] == b;
  }

  lemma CommitKeepsInv(sys: Sys, execution: nat, text: string)
    requires Inv(sys)
    ensures Inv(Apply(sys, Commit(execution, text)))
  {}

  /** Appending later events to an ordered sequence. */
  lemma OrderedAppend(a: seq<Event>, b: seq<Event>, limit: nat)
    requires Ordered(a) && Ordered(b)
    requires (forall e :: e in a ==> e.id <= limit) && (forall e :: e in b ==> limit < e.id)
    ensures Ordered(a + b)
    ensures forall e :: e in b ==> e.id <= b[|b| - 1].id
  {
    forall i, j | 0 <= i < j < |a + b|
      ensures (a + b)[i].id < (a + b)[j].id
    {
      assert i < |a| ==> (a + b)[i] in a;
      assert j >= |a| ==> (a + b)[j] in b;
    }
    forall e | e in b
      ensures e.id <= b[|b| - 1].id
    {
      var k :| 0 <= k < |b| && b[k] == e;
    }
  }

  /** A page that leaves out nothing up to its last row. */
  lemma PageKeepsExactlyOnce(sys: Sys, page: seq<Event>, next: Sys)
    requires ExactlyOnce(sys) && page != [] && Ordered(page)
    requires forall e :: e in page ==> e in sys.history && e.id > sys.cursor
    requires forall e :: e in sys.rows && sys.cursor < e.id <= page[|page| - 1].id ==> e in page
    requires next.written == sys.written + page && next.cursor == page[|page| - 1].id
    requires next.history == sys.history && next.rows == sys.rows && next.start == sys.start
    ensures ExactlyOnce(next)
  {
    hide Ordered;
    assert page[|page| - 1] in page;
    OrderedAppend(sys.written, page, sys.cursor);
    forall e | e in next.rows && next.start < e.id <= next.cursor
      ensures e in next.written
    {
      assert e.id <= sys.cursor ==> e in sys.written;
    }
  }

  lemma ReadPageKeepsInv(sys: Sys)
    requires Inv(sys) && sys.paging
    ensures Inv(Apply(sys, ReadPage))
  {
    hide Page, Ordered, ExactlyOnce;
    var next := Apply(sys, ReadPage);
    var page := Page(sys.rows, sys.cursor, PAGE_SIZE);
    PageIsGapless(sys.rows, sys.cursor, PAGE_SIZE);
    if page != [] {
      assert page[|page| - 1] in page;
      PageKeepsExactlyOnce(sys, page, next);
    } else {
      EmptyPageKeepsExactlyOnce(sys, next);
    }
  }

  lemma EmptyPageKeepsExactlyOnce(sys: Sys, next: Sys)
    requires ExactlyOnce(sys)
    requires next.written == sys.written + [] && next.cursor == sys.cursor
    requires next.history == sys.history && next.rows == sys.rows && next.start == sys.start
    ensures ExactlyOnce(next)
  {
    assert next.written == sys.written;
  }

  lemma ReceiveKeepsInv(sys: Sys)
    requires Inv(sys) && Enabled(sys, Receive)
    ensures Inv(Apply(sys, Receive))
  {
    var e := sys.channel[0];
    var next := Apply(sys, Receive);
    assert e in sys.history;
    if e.id == sys.cursor + 1 {
      forall r | r in sys.rows && sys.start < r.id <= next.cursor
        ensures r in next.written
      {
        if r.id == e.id {
          SameIdSameEvent(sys.history, r, e);
        }
      }
      forall i, j | 0 <= i < j < |next.written|
        ensures next.written[i].id < next.written[j].id
      {
        assert next.written[i] in sys.written;
      }
    }
  }

  lemma ClearKeepsInv(sys: Sys, finished: set<nat>)
    requires Inv(sys)
    ensures Inv(Apply(sys, Clear(finished)))
  {
    hide Ordered;
    ClearedOrdered(sys.rows, finished);
  }

  lemma PublishKeepsInv(sys: Sys, event: Event)
    requires Inv(sys) && Enabled(sys, Publish(event))
    ensures Inv(Apply(sys, Publish(event)))
  {
    hide Ordered;
  }

  lemma StepKeepsInv(sys: Sys, step: Step)
    requires Inv(sys) && Enabled(sys, step)
    ensures Inv(Apply(sys, step)) && Apply(sys, step).start == sys.start
  {
    hide Inv, Page, Cleared;
    match step
    case Commit(x, text) => CommitKeepsInv(sys, x, text);
    case Publish(e) => PublishKeepsInv(sys, e);
    case Clear(finished) => ClearKeepsInv(sys, finished);
    case ReadPage => ReadPageKeepsInv(sys);
    case Receive => ReceiveKeepsInv(sys);
  }

  ghost predicate Runs(sys: Sys, steps: seq<Step>)
    decreases |steps|
  {
    |steps| > 0 ==> Enabled(sys, steps[0]) && Runs(Apply(sys, steps[0]), steps[1..])
  }

  ghost function After(sys: Sys, steps: seq<Step>): Sys
    requires Runs(sys, steps)
    decreases |steps|
  {
    if |steps| == 0 then sys else After(Apply(sys, steps[0]), steps[1..])
  }

  lemma {:induction false} RunKeepsInv(sys: Sys, steps: seq<Step>)
    requires Inv(sys) && Runs(sys, steps)
    ensures Inv(After(sys, steps)) && After(sys, steps).start == sys.start
    decreases |steps|
  {
    if |steps| > 0 {
      hide Inv, Apply, Enabled;
      StepKeepsInv(sys, steps[0]);
      RunKeepsInv(Apply(sys, steps[0]), steps[1..]);
    }
  }

  /** Exactly once, over every run: whatever is committed, cleared, published late, twice or
      never, and however often the client falls back to the table, the ids written are
      strictly increasing, and the surviving events behind the start cursor and up to the
      current one are precisely the surviving events that were written. */
  lemma StreamIsExactlyOnce(sys: Sys, steps: seq<Step>)
    requires Table(sys) && Starts(sys) && Runs(sys, steps)
    ensures var now := After(sys, steps);
            && Ordered(now.written)
            && (forall e :: e in now.written ==> e in now.history && sys.start < e.id <= now.cursor)
            && (forall e :: e in now.rows ==> (e in now.written <==> sys.start < e.id <= now.cursor))
  {
    RunKeepsInv(sys, steps);
  }

  /** When paging ends, the client has everything the table holds behind its start: an event
      whose publication was lost costs nothing once any later one arrives. */
  lemma EndOfPagingCatchesUp(sys: Sys)
    requires Inv(sys) && sys.paging && !Apply(sys, ReadPage).paging
    ensures forall e :: e in sys.rows && e.id > sys.start ==> e in Apply(sys, ReadPage).written
  {
    PageIsGapless(sys.rows, sys.cursor, PAGE_SIZE);
  }

  /** Handling a live event leaves no surviving event up to it unwritten, unless the client
      now turns to the table. */
  lemma ReceivedEventIsCovered(sys: Sys)
    requires Inv(sys) && Enabled(sys, Receive)
    ensures var next := Apply(sys, Receive);
            next.paging || forall e :: e in sys.rows && sys.start < e.id <= sys.channel[0].id ==> e in next.written
  {
    ReceiveKeepsInv(sys);
  }

  /** Nothing but a clearing takes an event out of the table: over every run, an event committed
      and gone belonged to an execution that was cleared as finished. */
  lemma {:induction false} OnlyClearedEventsGo(sys: Sys, steps: seq<Step>, e: Event)
    requires Runs(sys, steps) && e in After(sys, steps).history && e !in After(sys, steps).rows
    requires e in sys.history ==> e in sys.rows
    ensures exists finished :: Clear(finished) in steps && e.execution in finished
    decreases |steps|
  {
    if |steps| > 0 {
      var next := Apply(sys, steps[0]);
      if steps[0].Clear? && e in sys.rows && e !in next.rows {
        assert Clear(steps[0].finished) in steps && e.execution in steps[0].finished;
      } else {
        CommittedIsStored(sys, steps[0], e);
        OnlyClearedEventsGo(next, steps[1..], e);
      }
    }
  }

  lemma CommittedIsStored(sys: Sys, step: Step, e: Event)
    requires Enabled(sys, step) && (e in sys.history ==> e in sys.rows)
    requires step.Clear? && e in sys.rows ==> e in Apply(sys, step).rows
    ensures e in Apply(sys, step).history ==> e in Apply(sys, step).rows
  {}

  // ------------------------------------------------------------------- progress

  /** `next` comes of `sys` by steps of the client alone. */
  ghost predicate ClientReaches(sys: Sys, steps: seq<Step>, next: Sys) {
    && Runs(sys, steps) && After(sys, steps) == next
    && forall i :: 0 <= i < |steps| ==> steps[i].ReadPage? || steps[i].Receive?
  }

  lemma {:induction false} ThenReaches(sys: Sys, a: seq<Step>, mid: Sys, b: seq<Step>, next: Sys)
    requires ClientReaches(sys, a, mid) && ClientReaches(mid, b, next)
    ensures ClientReaches(sys, a + b, next)
    decreases |a|
  {
    if |a| == 0 {
      assert a + b == b;
    } else {
      ThenReaches(Apply(sys, a[0]), a[1..], mid, b, next);
      assert (a + b)[0] == a[0] && (a + b)[1..] == a[1..] + b;
    }
  }

  lemma OneStep(sys: Sys, step: Step)
    requires Enabled(sys, step) && (step.ReadPage? || step.Receive?)
    ensures ClientReaches(sys, [step], Apply(sys, step))
  {
    assert [step][1..] == [];
  }

  /** A full page leaves fewer rows behind the cursor. */
  lemma PageLeavesFewer(sys: Sys)
    requires Inv(sys) && sys.paging
    ensures var next := Apply(sys, ReadPage);
            next.paging ==> |RowsAfter(next.rows, next.cursor)| < |RowsAfter(sys.rows, sys.cursor)|
  {
    var all := RowsAfter(sys.rows, sys.cursor);
    var page := Page(sys.rows, sys.cursor, PAGE_SIZE);
    RestOfRows(sys.rows, sys.cursor, all, |page|);
  }

  /** Everything in the table behind the client's start has been written. */
  ghost predicate HasAll(sys: Sys) {
    forall e :: e in sys.rows && e.id > sys.start ==> e in sys.written
  }

  /** Everything up to `id` has been. */
  ghost predicate HasUpTo(sys: Sys, id: nat) {
    forall e :: e in sys.rows && sys.start < e.id <= id ==> e in sys.written
  }

  lemma {:induction false} PagesOut(sys: Sys) returns (steps: seq<Step>, next: Sys)
    requires Inv(sys) && sys.paging
    ensures ClientReaches(sys, steps, next) && Inv(next)
    ensures !next.paging && HasAll(next)
    ensures next.channel == sys.channel && next.rows == sys.rows && next.start == sys.start
    decreases |RowsAfter(sys.rows, sys.cursor)|
  {
    hide Inv, RowsAfter, Page;
    var mid := Apply(sys, ReadPage);
    OneStep(sys, ReadPage);
    ReadPageKeepsInv(sys);
    if mid.paging {
      PageLeavesFewer(sys);
      var rest;
      rest, next := PagesOut(mid);
      steps := [ReadPage] + rest;
      ThenReaches(sys, [ReadPage], mid, rest, next);
    } else {
      steps, next := [ReadPage], mid;
      EndOfPagingCatchesUp(sys);
    }
  }

  /** The client never gets stuck: from any reachable state its own steps alone lead to an empty
      channel and no page to read, and then nothing is missing up to any event that was in the
      channel; nor anything at all, if it was paging. */
  lemma {:induction false} ClientCatchesUp(sys: Sys) returns (steps: seq<Step>, next: Sys)
    requires Inv(sys)
    ensures ClientReaches(sys, steps, next) && Inv(next)
    ensures next.channel == [] && !next.paging && next.rows == sys.rows && next.start == sys.start
    ensures forall c :: c in sys.channel ==> HasUpTo(next, c.id)
    ensures sys.paging ==> HasAll(next)
    ensures sys.cursor <= next.cursor
    decreases |sys.channel|, sys.paging
  {
    hide Inv;
    if sys.paging {
      var first, mid := PagesOut(sys);
      var rest;
      rest, next := ClientCatchesUp(mid);
      steps := first + rest;
      ThenReaches(sys, first, mid, rest, next);
      CursorGrows(sys, steps);
      StillHasAll(mid, rest);
      assert HasAll(next);
    } else if sys.channel == [] {
      steps, next := [], sys;
    } else {
      var mid := Apply(sys, Receive);
      OneStep(sys, Receive);
      ReceiveKeepsInv(sys);
      var rest;
      rest, next := ClientCatchesUp(mid);
      steps := [Receive] + rest;
      ThenReaches(sys, [Receive], mid, rest, next);
      CursorGrows(sys, steps);
      FirstIsCovered(sys, mid, rest, next);
    }
  }

  lemma {:induction false} CursorGrows(sys: Sys, steps: seq<Step>)
    requires Inv(sys) && Runs(sys, steps)
    ensures sys.cursor <= After(sys, steps).cursor && sys.written <= After(sys, steps).written
    decreases |steps|
  {
    if |steps| > 0 {
      hide Inv;
      StepKeepsInv(sys, steps[0]);
      StepGrows(sys, steps[0]);
      CursorGrows(Apply(sys, steps[0]), steps[1..]);
    }
  }

  lemma StepGrows(sys: Sys, step: Step)
    requires Inv(sys) && Enabled(sys, step)
    ensures sys.cursor <= Apply(sys, step).cursor && sys.written <= Apply(sys, step).written
  {
    if step.ReadPage? {
      PageIsGapless(sys.rows, sys.cursor, PAGE_SIZE);
    }
  }

  lemma StillHasAll(sys: Sys, steps: seq<Step>)
    requires Inv(sys) && Runs(sys, steps) && HasAll(sys) && After(sys, steps).rows == sys.rows
    requires After(sys, steps).start == sys.start
    ensures HasAll(After(sys, steps))
  {
    CursorGrows(sys, steps);
  }

  lemma FirstIsCovered(sys: Sys, mid: Sys, rest: seq<Step>, next: Sys)
    requires Inv(sys) && Enabled(sys, Receive) && mid == Apply(sys, Receive) && ClientReaches(mid, rest, next)
    requires next.rows == sys.rows && next.start == sys.start && (mid.paging ==> HasAll(next))
    requires forall c :: c in mid.channel ==> HasUpTo(next, c.id)
    ensures forall c :: c in sys.channel ==> HasUpTo(next, c.id)
  {
    forall c | c in sys.channel
      ensures HasUpTo(next, c.id)
    {
      if c !in mid.channel {
        assert sys.channel == [sys.channel[0]] + sys.channel[1..] && c == sys.channel[0];
        HeadIsCovered(sys, mid, rest, next);
      }
    }
  }

  lemma HeadIsCovered(sys: Sys, mid: Sys, rest: seq<Step>, next: Sys)
    requires Inv(sys) && Enabled(sys, Receive) && mid == Apply(sys, Receive) && ClientReaches(mid, rest, next)
    requires next.rows == sys.rows && next.start == sys.start && (mid.paging ==> HasAll(next))
    ensures HasUpTo(next, sys.channel[0].id)
  {
    ReceiveKeepsInv(sys);
    ReceivedEventIsCovered(sys);
    hide Inv, Apply;
    CursorGrows(mid, rest);
  }
}
