/** Starting a balance query, sending it, and matching replies: the calls of one caller
    at a time. How they interleave is `BalanceProtocol`. */
module BalanceService {
  import opened Common
  import opened BalanceStore

  datatype Snapshot = Snapshot(deviceId: string, iccid: string)

  datatype Rule = Rule(id: string, transport: Transport, replyBySms: bool, currency: string)

  /** What the modem or the operator made of the request. A USSD session answers at once;
      `answer` is that answer as parsed by the rule. */
  datatype Delivery = Refused(cause: string) | Delivered(answer: Completion)

  datatype StartError =
    | NoSnapshot(cause: string)
    | NoRule(cause: string)
    | UnsupportedCarrier
    | Store(error: StoreError)
    | SendFailed(cause: string)

  datatype StartResult = StartResult(row: Option<Query>, error: Option<StartError>)

  const DEFAULT_QUERY_TIMEOUT := 5 * 60 * 1000
  const ENDED_BEFORE_RESPONSE := "余额查询已在响应返回前结束"
  const UNKNOWN_TRANSPORT := "不支持的查询传输方式"
  const STATE_CHANGED := "余额查询状态已变化"

  function NewQuery(id: QueryId, snapshot: Snapshot, rule: Rule, now: int, timeout: int): Query {
    Query(id, snapshot.deviceId, snapshot.iccid, rule.id, rule.transport, Sending,
          Completion(Pending, "", rule.currency, "", ""),
          now, now + (if timeout <= 0 then DEFAULT_QUERY_TIMEOUT else timeout), None, "", now, now)
  }

  function ManualRow(snapshot: Snapshot, amount: string, currency: string, summary: string, createdAt: int, now: int)
      : Query {
    Query(ManualFor(snapshot.deviceId), snapshot.deviceId, snapshot.iccid, "manual", ManualEntry, Completed,
          Completion(Manual, amount, currency, summary, ""), now, now, Some(now), "", createdAt, now)
  }

  /** A query whose reply comes later by SMS. */
  predicate AwaitsSms(rule: Rule) {
    rule.transport == SMS || (rule.transport == USSD && rule.replyBySms)
  }

  predicate AnswersAtOnce(rule: Rule) {
    rule.transport == USSD && !rule.replyBySms
  }

  /** The row a query ends up with when nobody else touches it. */
  function QuietRow(q: Query, rule: Rule, delivery: Delivery, later: int): Query {
    if rule.transport != SMS && rule.transport != USSD then FailedRow(q, UNKNOWN_TRANSPORT, later)
    else
      match delivery
      case Refused(cause) => FailedRow(q, cause, later)
      case Delivered(answer) =>
        if AwaitsSms(rule) then q.(state := AwaitingReply, updatedAt := later)
        else CompletedRow(q, answer, later)
  }

  /** A query made at `now` for this card under this rule. */
  predicate StartedFor(q: Query, id: QueryId, snapshot: Snapshot, rule: Rule, now: int, timeout: int) {
    && q.id == id && q.deviceId == snapshot.deviceId && q.iccid == snapshot.iccid
    && q.ruleId == rule.id && q.transport == rule.transport
    && q.startedAt == now && q.createdAt == now
    && q.expiresAt - now == if timeout > 0 then timeout else 300_000
  }

  /** How an undisturbed start leaves its query: failed with the gateway's cause, waiting for an
      SMS, or completed with the answer of the USSD session. */
  predicate EndsAs(q: Query, rule: Rule, delivery: Delivery, later: int) {
    && q.updatedAt == later
    && if rule.transport != SMS && rule.transport != USSD then
         q.state == Failed && q.error == UNKNOWN_TRANSPORT && q.completedAt == Some(later)
       else if delivery.Refused? then
         q.state == Failed && q.error == delivery.cause && q.completedAt == Some(later)
       else if rule.transport == SMS || rule.replyBySms then
         && q.state == AwaitingReply && q.completedAt == None && q.error == ""
         && q.completion == Completion(Pending, "", rule.currency, "", "")
       else
         q.state == Completed && q.completion == delivery.answer && q.completedAt == Some(later) && q.error == ""
  }

  class Service {
    const repo: DatabaseStore
    const timeout: int

    constructor (repo: DatabaseStore, timeout: int)
      ensures this.repo == repo && this.timeout == timeout
    {
      this.repo, this.timeout := repo, timeout;
    }

    method Send(rule: Rule, id: QueryId, delivery: Delivery, later: int) returns (r: Result<(), string>)
      requires id in repo.rows && repo.rows[id].state == Sending
      modifies repo
      ensures r.Ok? == (delivery.Delivered? && (rule.transport == SMS || rule.transport == USSD))
      ensures r.Err? ==> repo.rows == old(repo.rows)
                         && r.error == if delivery.Refused? && (rule.transport == SMS || rule.transport == USSD)
                                       then delivery.cause else UNKNOWN_TRANSPORT
      ensures r.Ok? ==> repo.rows == old(repo.rows)[id := QuietRow(old(repo.rows)[id], rule, delivery, later)]
    {
      if rule.transport != SMS && rule.transport != USSD {
        return Err(UNKNOWN_TRANSPORT);
      }
      if delivery.Refused? {
        return Err(delivery.cause);
      }
      if rule.transport == SMS || rule.replyBySms {
        var marked := repo.MarkAwaitingReply(id, later);
        return if marked.Ok? then Ok(()) else Err(STATE_CHANGED);
      }
      var updated := repo.Complete(id, delivery.answer, later);
      if !updated {
        return Err(ENDED_BEFORE_RESPONSE);
      }
      return Ok(());
    }

    /** `id` is the UUID drawn for the query; `later` the clock when the gateway returns. */
    method StartQuery(snapshot: Result<Snapshot, string>, rule: Result<Rule, string>, id: QueryId,
                      delivery: Delivery, now: int, later: int) returns (r: StartResult)
      requires id !in repo.rows
      modifies repo
      ensures snapshot.Err? ==> r == StartResult(None, Some(NoSnapshot(snapshot.error))) && repo.rows == old(repo.rows)
      ensures snapshot.Ok? && rule.Err? ==>
                r == StartResult(None, Some(NoRule(rule.error))) && repo.rows == old(repo.rows)
      ensures snapshot.Ok? && rule.Ok? && rule.value.transport == Unsupported ==>
                r == StartResult(None, Some(UnsupportedCarrier)) && repo.rows == old(repo.rows)
      ensures snapshot.Ok? && rule.Ok? && rule.value.transport != Unsupported
              && HasPending(old(repo.rows), snapshot.value.iccid) ==>
                r == StartResult(None, Some(Store(PendingQuery))) && repo.rows == old(repo.rows)
      ensures snapshot.Ok? && rule.Ok? && rule.value.transport != Unsupported
              && !HasPending(old(repo.rows), snapshot.value.iccid) ==>
                var row := QuietRow(NewQuery(id, snapshot.value, rule.value, now, timeout),
                                    rule.value, delivery, later);
                repo.rows == old(repo.rows)[id := row] && r.row == Some(row) && r.error.Some? == (row.state == Failed)
      ensures snapshot.Ok? && rule.Ok? && rule.value.transport != Unsupported
              && !HasPending(old(repo.rows), snapshot.value.iccid) ==>
                && id in repo.rows && r.row == Some(repo.rows[id])
                && StartedFor(repo.rows[id], id, snapshot.value, rule.value, now, timeout)
                && EndsAs(repo.rows[id], rule.value, delivery, later)
    {
      if snapshot.Err? {
        return StartResult(None, Some(NoSnapshot(snapshot.error)));
      }
      if rule.Err? {
        return StartResult(None, Some(NoRule(rule.error)));
      }
      if rule.value.transport == Unsupported {
        return StartResult(None, Some(UnsupportedCarrier));
      }
      var query := NewQuery(id, snapshot.value, rule.value, now, timeout);
      var created := repo.CreatePending(query);
      if created.Err? {
        return StartResult(None, Some(Store(created.error)));
      }
      var sent := Send(rule.value, id, delivery, later);
      if sent.Err? {
        var _ := repo.MarkFailed(id, sent.error, later);
        var failed := repo.Get(id);
        return StartResult(failed, Some(SendFailed(sent.error)));
      }
      var stored := repo.Get(id);
      return StartResult(stored, None);
    }

    /** `parsed` is the reply read by the rule of the query found, or nothing when the rule
        is gone or the sender is not one of its senders. */
    method HandleInboundSMS(iccid: string, at: int, parsed: Option<Completion>) returns (updated: bool)
      modifies repo
      ensures updated ==>
                exists id :: id in old(repo.rows) && IsCandidate(old(repo.rows), iccid, at, id) && parsed.Some?
                            && repo.rows == old(repo.rows)[id := CompletedRow(old(repo.rows)[id], parsed.value, at)]
                            && SameRequest(repo.rows[id], old(repo.rows)[id])
                            && repo.rows[id].state == Completed && repo.rows[id].completion == parsed.value
                            && repo.rows[id].completedAt == Some(at) && repo.rows[id].updatedAt == at
                            && repo.rows[id].error == old(repo.rows)[id].error
      ensures !updated ==> repo.rows == old(repo.rows)
      ensures updated == (parsed.Some?
                          && exists id :: id in old(repo.rows) && IsCandidate(old(repo.rows), iccid, at, id))
    {
      var found := repo.FindPending(iccid, at);
      if found.None? || parsed.None? {
        return false;
      }
      updated := repo.Complete(found.value, parsed.value, at);
    }
  }
}
