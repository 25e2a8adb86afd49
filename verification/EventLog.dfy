/** The command event table: rows in id order, paged forwards and backwards, and cleared
    by finished execution. */
module EventLog {
  import opened Common

  datatype Event = Event(id: nat, execution: nat, text: string)

  const MAX_LIMIT: nat := 200
  const DEFAULT_LIMIT: nat := 100

  function ClampLimit(limit: int): (n: nat)
    ensures 1 <= n <= MAX_LIMIT
    ensures 1 <= limit <= 200 ==> n == limit
    ensures limit <= 0 ==> n == 100
    ensures limit > 200 ==> n == 200
  {
    if limit <= 0 then DEFAULT_LIMIT else if limit > MAX_LIMIT then MAX_LIMIT else limit
  }

  ghost predicate Ordered(rows: seq<Event>) {
    forall i, j :: 0 <= i < j < |rows| ==> rows[i].id < rows[j].id
  }

  /** `id > after`, ascending */
  function RowsAfter(rows: seq<Event>, after: nat): (r: seq<Event>)
    ensures forall e :: e in r <==> e in rows && e.id > after
  {
    if |rows| == 0 then []
    else if rows[0].id > after then [rows[0]] + RowsAfter(rows[1..], after)
    else RowsAfter(rows[1..], after)
  }

  /** `id < before`, ascending; 0 stands for no bound. */
  function RowsBefore(rows: seq<Event>, before: nat): (r: seq<Event>)
    ensures forall e :: e in r <==> e in rows && (before > 0 ==> e.id < before)
  {
    if |rows| == 0 then []
    else if before == 0 || rows[0].id < before then [rows[0]] + RowsBefore(rows[1..], before)
    else RowsBefore(rows[1..], before)
  }

  function Take(rows: seq<Event>, n: nat): seq<Event> {
    if |rows| <= n then rows else rows[..n]
  }

  function TakeLast(rows: seq<Event>, n: nat): seq<Event> {
    if |rows| <= n then rows else rows[|rows| - n..]
  }

  function Reversed(rows: seq<Event>): (r: seq<Event>)
    ensures |r| == |rows| && forall i :: 0 <= i < |rows| ==> r[i] == rows[|rows| - 1 - i]
  {
    seq(|rows|, i requires 0 <= i < |rows| => rows[|rows| - 1 - i])
  }

  function Page(rows: seq<Event>, after: nat, limit: int): seq<Event> {
    Take(RowsAfter(rows, after), ClampLimit(limit))
  }

  function PageBefore(rows: seq<Event>, before: nat, limit: int): seq<Event> {
    TakeLast(RowsBefore(rows, before), ClampLimit(limit))
  }

  /** Rows of executions that are still running. */
  function Cleared(rows: seq<Event>, finished: set<nat>): (r: seq<Event>)
    ensures forall e :: e in r <==> e in rows && e.execution !in finished
  {
    if |rows| == 0 then []
    else if rows[0].execution in finished then Cleared(rows[1..], finished)
    else [rows[0]] + Cleared(rows[1..], finished)
  }

  lemma {:induction false} RowsAfterOrdered(rows: seq<Event>, after: nat)
    requires Ordered(rows)
    ensures Ordered(RowsAfter(rows, after))
  {
    if |rows| > 0 {
      var rest := RowsAfter(rows[1..], after);
      RowsAfterOrdered(rows[1..], after);
      forall i | 0 <= i < |rest|
        ensures rows[0].id < rest[i].id
      {
        assert rest[i] in rows[1..];
      }
    }
  }

  lemma {:induction false} ClearedOrdered(rows: seq<Event>, finished: set<nat>)
    requires Ordered(rows)
    ensures Ordered(Cleared(rows, finished))
  {
    if |rows| > 0 {
      var rest := Cleared(rows[1..], finished);
      ClearedOrdered(rows[1..], finished);
      forall i | 0 <= i < |rest|
        ensures rows[0].id < rest[i].id
      {
        assert rest[i] in rows[1..];
      }
    }
  }

  /** What a page holds: it is ordered, its rows lie behind the cursor, and it leaves
      out no row up to its own last id; a short page leaves out none at all. */
  lemma PageIsGapless(rows: seq<Event>, after: nat, limit: int)
    requires Ordered(rows)
    ensures var page := Page(rows, after, limit);
            && Ordered(page) && (forall e :: e in page ==> e in rows && e.id > after)
            && (|page| < ClampLimit(limit) ==> forall e :: e in rows && e.id > after ==> e in page)
            && (page != [] ==> forall e :: e in rows && after < e.id <= page[|page| - 1].id ==> e in page)
  {
    var all := RowsAfter(rows, after);
    var page := Page(rows, after, limit);
    RowsAfterOrdered(rows, after);
    forall e | e in page
      ensures e in all
    {}
    if page != [] {
      forall e | e in rows && after < e.id <= page[|page| - 1].id
        ensures e in page
      {
        assert e in all;
        var k :| 0 <= k < |all| && all[k] == e;
        assert page[|page| - 1] == all[|page| - 1];
        assert k < |page| && page[k] == e;
      }
    }
  }

  class CommandLog {
    var rows: seq<Event>
    var nextId: nat

    ghost predicate Valid()
      reads this
    {
      Ordered(rows) && nextId > 0 && forall e :: e in rows ==> 0 < e.id < nextId
    }

    constructor ()
      ensures Valid() && rows == []
    {
      rows, nextId := [], 1;
    }

    /** Ids follow commit order and are never given out again. */
    method AddEvent(execution: nat, text: string) returns (event: Event)
      requires Valid()
      modifies this
      ensures Valid() && event == Event(old(nextId), execution, text)
      ensures rows == old(rows) + [event] && nextId == old(nextId) + 1
    {
      event := Event(nextId, execution, text);
      rows := rows + [event];
      nextId := nextId + 1;
    }

    method ListEvents(after: nat, limit: int) returns (page: seq<Event>)
      ensures page == Page(rows, after, limit) && |page| <= MAX_LIMIT
      ensures Valid() ==>
                && Ordered(page) && (forall e :: e in page ==> e in rows && e.id > after)
                && (|page| < ClampLimit(limit) ==> forall e :: e in rows && e.id > after ==> e in page)
                && (page != [] ==> forall e :: e in rows && after < e.id <= page[|page| - 1].id ==> e in page)
    {
      if Valid() {
        PageIsGapless(rows, after, limit);
      }
      page := Take(RowsAfter(rows, after), ClampLimit(limit));
    }

    /** The store asks for the rows in descending order and then turns them round. */
    method ListEventsBefore(before: nat, limit: int) returns (page: seq<Event>)
      ensures page == PageBefore(rows, before, limit)
    {
      var records := Take(Reversed(RowsBefore(rows, before)), ClampLimit(limit));
      var buffer := new Event[|records|](i requires 0 <= i < |records| => records[i]);
      assert buffer[..] == records;
      ReverseEvents(buffer);
      LastRowsReversed(RowsBefore(rows, before), ClampLimit(limit));
      page := buffer[..];
    }

    method ClearCompleted(finished: set<nat>)
      requires Valid()
      modifies this`rows
      ensures Valid() && rows == Cleared(old(rows), finished)
    {
      ClearedOrdered(rows, finished);
      rows := Cleared(rows, finished);
    }
  }

  lemma LastRowsReversed(rows: seq<Event>, n: nat)
    ensures Reversed(Take(Reversed(rows), n)) == TakeLast(rows, n)
  {}

  method ReverseEvents(events: array<Event>)
    modifies events
    ensures events[..] == Reversed(old(events[..]))
  {
    var left, right := 0, events.Length - 1;
    while left < right
      invariant 0 <= left && left + right == events.Length - 1
      invariant forall k :: 0 <= k < events.Length ==>
                  events[k] == if k < left || k > right then old(events[events.Length - 1 - k]) else old(events[k])
    {
      events[left], events[right] := events[right], events[left];
      left, right := left + 1, right - 1;
    }
  }
}
