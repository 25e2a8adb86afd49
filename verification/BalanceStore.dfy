/** The balance-query table: guarded updates of rows, each one statement or transaction
    of the database and so atomic. */
module BalanceStore {
  import opened Common

  /** Automatic queries carry a fresh UUID, a manual balance the id `manual:` + device. */
  datatype QueryId = Uuid(n: nat) | ManualFor(deviceId: string)

  datatype QueryState = Sending | AwaitingReply | Completed | TimedOut | Failed

  datatype ParseState = Pending | Parsed | Unparsed | Manual

  /** A rule's transport as stored with the query; `ManualEntry` is the manual balance's. */
  datatype Transport = SMS | USSD | Unsupported | Other(name: string) | ManualEntry

  datatype Completion = Completion(
    parseState: ParseState, amount: string, currency: string, summary: string, rawResponse: string)

  datatype Query = Query(
    id: QueryId, deviceId: string, iccid: string, ruleId: string, transport: Transport,
    state: QueryState, completion: Completion, startedAt: int, expiresAt: int,
    completedAt: Option<int>, error: string, createdAt: int, updatedAt: int)
  {
    predicate IsPending() {
      state == Sending || state == AwaitingReply
    }
  }

  /** What is fixed when a query is created. */
  predicate SameRequest(q: Query, r: Query) {
    && q.id == r.id && q.deviceId == r.deviceId && q.iccid == r.iccid && q.ruleId == r.ruleId
    && q.transport == r.transport && q.startedAt == r.startedAt && q.expiresAt == r.expiresAt
    && q.createdAt == r.createdAt
  }

  type Table = map<QueryId, Query>

  datatype StoreError = PendingQuery | DuplicateId | StateChanged(id: QueryId)

  predicate HasPending(rows: Table, iccid: string) {
    exists id :: id in rows && rows[id].iccid == iccid && rows[id].IsPending()
  }

  predicate PendingAt(rows: Table, id: QueryId) {
    id in rows && rows[id].IsPending()
  }

  function Marked(rows: Table, id: QueryId, now: int): Table {
    if id in rows && rows[id].state == Sending then
      rows[id := rows[id].(state := AwaitingReply, updatedAt := now)]
    else rows
  }

  function FailedRow(q: Query, cause: string, now: int): Query {
    q.(state := Failed, error := cause, completedAt := Some(now), updatedAt := now)
  }

  function MarkedFailed(rows: Table, id: QueryId, cause: string, now: int): Table {
    if PendingAt(rows, id) then rows[id := FailedRow(rows[id], cause, now)] else rows
  }

  function CompletedRow(q: Query, completion: Completion, now: int): Query {
    q.(state := Completed, completion := completion, completedAt := Some(now), updatedAt := now)
  }

  function Answered(rows: Table, id: QueryId, completion: Completion, now: int): Table {
    if PendingAt(rows, id) then rows[id := CompletedRow(rows[id], completion, now)] else rows
  }

  const TIMEOUT_MESSAGE := "等待运营商回复超时"

  function ExpiredRow(q: Query, now: int): Query {
    if q.IsPending() && q.expiresAt <= now then
      q.(state := TimedOut, error := TIMEOUT_MESSAGE, completedAt := Some(now), updatedAt := now)
    else q
  }

  function ExpiredRows(rows: Table, now: int): Table {
    map id | id in rows :: ExpiredRow(rows[id], now)
  }

  /** A pending row of the card whose window holds `at`, both ends included. */
  predicate IsCandidate(rows: Table, iccid: string, at: int, id: QueryId) {
    PendingAt(rows, id) && rows[id].iccid == iccid && rows[id].startedAt <= at <= rows[id].expiresAt
  }

  /** What the lookup may answer: a candidate started last, or nothing when there is none. */
  ghost predicate IsFound(rows: Table, iccid: string, at: int, found: Option<QueryId>) {
    match found
    case None => forall id :: id in rows ==> !IsCandidate(rows, iccid, at, id)
    case Some(best) =>
      && IsCandidate(rows, iccid, at, best)
      && forall id :: id in rows && IsCandidate(rows, iccid, at, id) ==> rows[id].startedAt <= rows[best].startedAt
  }

  ghost predicate OnePendingPerCard(rows: Table) {
    forall a, b :: PendingAt(rows, a) && PendingAt(rows, b) && rows[a].iccid == rows[b].iccid ==> a == b
  }

  class DatabaseStore {
    var rows: Table

    constructor ()
      ensures rows == map[]
    {
      rows := map[];
    }

    method CreatePending(query: Query) returns (r: Result<(), StoreError>)
      modifies this
      ensures r == if HasPending(old(rows), query.iccid) then Err(PendingQuery)
                   else if query.id in old(rows) then Err(DuplicateId)
                   else Ok(())
      ensures rows == if r.Ok? then old(rows)[query.id := query] else old(rows)
    {
      var pending := set id | id in rows && rows[id].iccid == query.iccid && rows[id].IsPending();
      if |pending| > 0 {
        var id :| id in pending;
        return Err(PendingQuery);
      }
      assert forall id :: id in rows && rows[id].iccid == query.iccid && rows[id].IsPending() ==> id in pending;
      if query.id in rows {
        return Err(DuplicateId);
      }
      rows := rows[query.id := query];
      return Ok(());
    }

    method SaveManual(query: Query)
      modifies this
      ensures rows == old(rows)[query.id := query]
    {
      rows := rows[query.id := query];
    }

    method DeleteManual(deviceId: string) returns (deleted: bool)
      modifies this
      ensures var id := ManualFor(deviceId);
              && deleted == (id in old(rows) && old(rows)[id].deviceId == deviceId
                             && old(rows)[id].transport == ManualEntry)
              && rows == if deleted then old(rows) - {id} else old(rows)
    {
      var id := ManualFor(deviceId);
      deleted := id in rows && rows[id].deviceId == deviceId && rows[id].transport == ManualEntry;
      if deleted {
        rows := rows - {id};
      }
    }

    method MarkAwaitingReply(id: QueryId, now: int) returns (r: Result<(), StoreError>)
      modifies this
      ensures r == if id in old(rows) && old(rows)[id].state == Sending then Ok(()) else Err(StateChanged(id))
      ensures rows == Marked(old(rows), id, now)
      ensures r.Ok? ==>
                && id in rows && SameRequest(rows[id], old(rows)[id]) && rows - {id} == old(rows) - {id}
                && rows[id].state == AwaitingReply && rows[id].updatedAt == now
                && rows[id].completion == old(rows)[id].completion && rows[id].error == old(rows)[id].error
                && rows[id].completedAt == old(rows)[id].completedAt
      ensures r.Err? ==> rows == old(rows)
    {
      if id in rows && rows[id].state == Sending {
        rows := rows[id := rows[id].(state := AwaitingReply, updatedAt := now)];
        return Ok(());
      }
      return Err(StateChanged(id));
    }

    method MarkFailed(id: QueryId, cause: string, now: int) returns (r: Result<(), StoreError>)
      modifies this
      ensures r == if PendingAt(old(rows), id) then Ok(()) else Err(StateChanged(id))
      ensures rows == MarkedFailed(old(rows), id, cause, now)
      ensures r.Ok? ==>
                && id in rows && SameRequest(rows[id], old(rows)[id]) && rows - {id} == old(rows) - {id}
                && rows[id].state == Failed && rows[id].error == cause
                && rows[id].completedAt == Some(now) && rows[id].updatedAt == now
                && rows[id].completion == old(rows)[id].completion
      ensures r.Err? ==> rows == old(rows)
    {
      if id in rows && rows[id].IsPending() {
        rows := rows[id := FailedRow(rows[id], cause, now)];
        return Ok(());
      }
      return Err(StateChanged(id));
    }

    method Complete(id: QueryId, completion: Completion, now: int) returns (updated: bool)
      modifies this
      ensures updated == PendingAt(old(rows), id)
      ensures rows == Answered(old(rows), id, completion, now)
      ensures updated ==>
                && id in rows && SameRequest(rows[id], old(rows)[id]) && rows - {id} == old(rows) - {id}
                && rows[id].state == Completed && rows[id].completion == completion
                && rows[id].completedAt == Some(now) && rows[id].updatedAt == now
                && rows[id].error == old(rows)[id].error
      ensures !updated ==> rows == old(rows)
    {
      updated := id in rows && rows[id].IsPending();
      if updated {
        rows := rows[id := CompletedRow(rows[id], completion, now)];
      }
    }

    method FindPending(iccid: string, at: int) returns (found: Option<QueryId>)
      ensures IsFound(rows, iccid, at, found)
    {
      found := None;
      var todo := set id | id in rows && IsCandidate(rows, iccid, at, id);
      while todo != {}
        invariant forall id :: id in todo ==> IsCandidate(rows, iccid, at, id)
        invariant found.Some? ==> IsCandidate(rows, iccid, at, found.value)
        invariant forall id :: id in rows && IsCandidate(rows, iccid, at, id) && id !in todo ==>
                    found.Some? && rows[id].startedAt <= rows[found.value].startedAt
        decreases todo
      {
        var id :| id in todo;
        if found.None? || rows[found.value].startedAt < rows[id].startedAt {
          found := Some(id);
        }
        todo := todo - {id};
      }
    }

    method ExpirePending(now: int) returns (changed: nat)
      modifies this
      ensures rows == ExpiredRows(old(rows), now)
      ensures rows.Keys == old(rows).Keys
      ensures forall id :: id in rows ==>
                if old(rows)[id].IsPending() && old(rows)[id].expiresAt <= now then
                  && SameRequest(rows[id], old(rows)[id])
                  && rows[id].state == TimedOut && rows[id].error == TIMEOUT_MESSAGE
                  && rows[id].completedAt == Some(now) && rows[id].updatedAt == now
                  && rows[id].completion == old(rows)[id].completion
                else rows[id] == old(rows)[id]
      ensures changed == |set id | id in old(rows) && old(rows)[id].IsPending() && old(rows)[id].expiresAt <= now|
    {
      changed := |set id | id in rows && rows[id].IsPending() && rows[id].expiresAt <= now|;
      rows := map id | id in rows :: ExpiredRow(rows[id], now);
    }

    method Get(id: QueryId) returns (found: Option<Query>)
      ensures found == if id in rows then Some(rows[id]) else None
    {
      found := if id in rows then Some(rows[id]) else None;
    }
  }

  // ------------------------------------------------------------------- lookups

  /** With one pending query a card, the lookup has a single possible answer and its
      tie-break never matters. */
  lemma LookupIsUnambiguous(rows: Table, iccid: string, at: int, a: Option<QueryId>, b: Option<QueryId>)
    requires OnePendingPerCard(rows)
    requires IsFound(rows, iccid, at, a) && IsFound(rows, iccid, at, b)
    ensures a == b
  {
    assert a.Some? ==> IsCandidate(rows, iccid, at, a.value);
    assert b.Some? ==> IsCandidate(rows, iccid, at, b.value);
  }

  /** After an expiry sweep a card is free for a new query exactly when every query it had
      pending had run out of time: nothing can block a card past its deadline and a sweep. */
  lemma SweepFreesCard(rows: Table, iccid: string, now: int)
    ensures !HasPending(ExpiredRows(rows, now), iccid)
            <==> forall id :: id in rows && rows[id].iccid == iccid && rows[id].IsPending() ==>
                                rows[id].expiresAt <= now
  {
    var next := ExpiredRows(rows, now);
    if id :| id in rows && rows[id].iccid == iccid && rows[id].IsPending() && rows[id].expiresAt > now {
      assert id in next && next[id] == rows[id];
    }
  }

  /** A reply and a sweep at the same moment: the last instant of a window still matches a
      reply, and the sweep of that instant already ends the query. */
  lemma BoundaryBelongsToBoth(rows: Table, id: QueryId)
    requires PendingAt(rows, id) && rows[id].startedAt <= rows[id].expiresAt
    ensures var t := rows[id].expiresAt;
            && IsCandidate(rows, rows[id].iccid, t, id)
            && ExpiredRows(rows, t)[id].state == TimedOut
            && !IsCandidate(ExpiredRows(rows, t), rows[id].iccid, t, id)
  {}
}
