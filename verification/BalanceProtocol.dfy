/** Balance queries under concurrency: callers of `StartQuery`, replies by SMS, expiry sweeps
    and manual balances, one step per database statement or gateway call, in any order. A
    statement may also fail in the database and then changes nothing, and the process may
    be restarted, which loses every caller and message under way but no row. */
module BalanceProtocol {
  import opened Common
  import opened BalanceStore
  import opened BalanceService

  /** Where a `StartQuery` whose row was created stands. */
  datatype Phase =
    | Calling
    | Marking
    | Completing(answer: Completion)
    | Failing(cause: string)
    | Reading(failure: Option<string>)
    | Returned(row: Option<Query>, failure: Option<string>)

  datatype Starter = Starter(rule: Rule, phase: Phase)

  /** Where the handling of one inbound message stands. */
  datatype Handler = Matched(id: QueryId, at: int) | Finished(updated: bool)

  /** Who ended a query. */
  datatype Cause = ByReply(handler: nat) | ByAnswer | ByFailure | BySweep

  datatype Sys = Sys(
    rows: Table, starters: map<QueryId, Starter>, handlers: map<nat, Handler>,
    ended: map<QueryId, Cause>)

  datatype Step =
    | Start(n: nat, snapshot: Snapshot, rule: Rule, now: int, timeout: int)
    | GatewayReturns(id: QueryId, delivery: Delivery)
    | Mark(id: QueryId, now: int, dbFails: bool)
    | CompleteAnswer(id: QueryId, now: int, dbFails: bool)
    | Fail(id: QueryId, now: int, dbFails: bool)
    | ReadBack(id: QueryId, dbFails: bool)
    | Inbound(handler: nat, iccid: string, at: int, found: Option<QueryId>)
    | Reply(handler: nat, parsed: Option<Completion>)
    | Sweep(now: int)
    | SetManual(snapshot: Snapshot, amount: string, currency: string, summary: string, createdAt: int, now: int)
    | ClearManual(deviceId: string)
    | Restart

  const EMPTY := Sys(map[], map[], map[], map[])


  ghost predicate Enabled(sys: Sys, step: Step) {
    match step
    case Start(n, _, rule, _, _) => Uuid(n) !in sys.rows && rule.transport != Unsupported
    case GatewayReturns(id, _) => id in sys.starters && sys.starters[id].phase.Calling?
    case Mark(id, _, _) => id in sys.starters && sys.starters[id].phase.Marking?
    case CompleteAnswer(id, _, _) => id in sys.starters && sys.starters[id].phase.Completing?
    case Fail(id, _, _) => id in sys.starters && sys.starters[id].phase.Failing?
    case ReadBack(id, _) => id in sys.starters && sys.starters[id].phase.Reading?
    case Inbound(h, iccid, at, found) => h !in sys.handlers && IsFound(sys.rows, iccid, at, found)
    case Reply(h, _) => h in sys.handlers && sys.handlers[h].Matched?
    case Sweep(_) => true
    case SetManual(_, _, _, _, _, _) => true
    case ClearManual(_) => true
    case Restart => true
  }

  function Advance(sys: Sys, id: QueryId, p: Phase): Sys
    requires id in sys.starters
  {
    sys.(starters := sys.starters[id := sys.starters[id].(phase := p)])
  }

  function AfterGateway(rule: Rule, delivery: Delivery): Phase {
    if rule.transport != SMS && rule.transport != USSD then Failing(UNKNOWN_TRANSPORT)
    else
      match delivery
      case Refused(cause) => Failing(cause)
      case Delivered(answer) => if AwaitsSms(rule) then Marking else Completing(answer)
  }

  function EndedBySweep(rows: Table, now: int): map<QueryId, Cause> {
    map id | id in rows && rows[id].IsPending() && rows[id].expiresAt <= now :: BySweep
  }

  function Apply(sys: Sys, step: Step): Sys
    requires Enabled(sys, step)
  {
    match step
    case Start(n, snapshot, rule, now, timeout) =>
      if HasPending(sys.rows, snapshot.iccid) then sys
      else
        sys.(rows := sys.rows[Uuid(n) := NewQuery(Uuid(n), snapshot, rule, now, timeout)],
             starters := sys.starters[Uuid(n) := Starter(rule, Calling)])
    case GatewayReturns(id, delivery) => Advance(sys, id, AfterGateway(sys.starters[id].rule, delivery))
    case Mark(id, now, dbFails) =>
      if dbFails then Advance(sys, id, Failing("database"))
      else if id in sys.rows && sys.rows[id].state == Sending then
        Advance(sys, id, Reading(None)).(rows := Marked(sys.rows, id, now))
      else Advance(sys, id, Failing(STATE_CHANGED))
    case CompleteAnswer(id, now, dbFails) =>
      if dbFails then Advance(sys, id, Failing("database"))
      else if PendingAt(sys.rows, id) then
        Advance(sys, id, Reading(None)).(rows := Answered(sys.rows, id, sys.starters[id].phase.answer, now),
                                         ended := sys.ended[id := ByAnswer])
      else Advance(sys, id, Failing(ENDED_BEFORE_RESPONSE))
    case Fail(id, now, dbFails) =>
      var cause := sys.starters[id].phase.cause;
      var next := Advance(sys, id, Reading(Some(cause)));
      if dbFails || !PendingAt(sys.rows, id) then next
      else next.(rows := MarkedFailed(sys.rows, id, cause, now), ended := sys.ended[id := ByFailure])
    case ReadBack(id, dbFails) =>
      var failure := sys.starters[id].phase.failure;
      if dbFails then Advance(sys, id, Returned(None, Some(failure.GetOr("database"))))
      else Advance(sys, id, Returned(if id in sys.rows then Some(sys.rows[id]) else None, failure))
    case Inbound(h, iccid, at, found) =>
      sys.(handlers := sys.handlers[h := if found.Some? then Matched(found.value, at) else Finished(false)])
    case Reply(h, parsed) =>
      var id := sys.handlers[h].id;
      var updated := parsed.Some? && PendingAt(sys.rows, id);
      var next := sys.(handlers := sys.handlers[h := Finished(updated)]);
      if updated then
        next.(rows := Answered(sys.rows, id, parsed.value, sys.handlers[h].at), ended := sys.ended[id := ByReply(h)])
      else next
    case Sweep(now) =>
      sys.(rows := ExpiredRows(sys.rows, now), ended := sys.ended + EndedBySweep(sys.rows, now))
    case SetManual(snapshot, amount, currency, summary, createdAt, now) =>
      sys.(rows := sys.rows[ManualFor(snapshot.deviceId) :=
                              ManualRow(snapshot, amount, currency, summary, createdAt, now)])
    case ClearManual(deviceId) => sys.(rows := sys.rows - {ManualFor(deviceId)})
    case Restart =>
      sys.(starters := map[], handlers := map h | h in sys.handlers && sys.handlers[h].Finished? :: sys.handlers[h])
  }

  // ---------------------------------------------------------------- invariants

  /** A query ended by `cause` looks like this. */
  predicate EndedLike(q: Query, cause: Cause) {
    match cause
    case ByReply(_) => q.state == Completed && q.completedAt.Some? && q.startedAt <= q.completedAt.value <= q.expiresAt
    case ByAnswer => q.state == Completed && q.completedAt.Some?
    case ByFailure => q.state == Failed && q.completedAt.Some?
    case BySweep => q.state == TimedOut && q.completedAt.Some? && q.expiresAt <= q.completedAt.value
  }

  /** What a starter's phase says of its row: only `Mark` moves a query on from `Sending`,
      and a starter that reads back without a failure has brought it beyond `Sending`. */
  predicate PhaseFits(rule: Rule, p: Phase, q: Query, cause: Option<Cause>) {
    match p
    case Calling => q.state != AwaitingReply && cause != Some(ByFailure) && cause != Some(ByAnswer)
    case Marking => q.state != AwaitingReply && cause != Some(ByFailure) && cause != Some(ByAnswer) && AwaitsSms(rule)
    case Completing(_) =>
      q.state != AwaitingReply && cause != Some(ByFailure) && cause != Some(ByAnswer) && AnswersAtOnce(rule)
    case Failing(_) => q.state != AwaitingReply && cause != Some(ByFailure) && cause != Some(ByAnswer)
    case Reading(None) =>
      if AnswersAtOnce(rule) then cause == Some(ByAnswer)
      else q.state != Sending && cause != Some(ByFailure) && cause != Some(ByAnswer)
    case Reading(Some(_)) => q.state != AwaitingReply && cause != Some(ByAnswer)
    case Returned(row, None) =>
      && row.Some?
      && (if AnswersAtOnce(rule) then cause == Some(ByAnswer) && row.value.state == Completed
          else q.state != Sending && cause != Some(ByFailure)
               && row.value.state in {AwaitingReply, Completed, TimedOut})
    case Returned(_, Some(_)) => true
  }

  function RowOf(sys: Sys, id: QueryId): Option<Query> {
    if id in sys.rows then Some(sys.rows[id]) else None
  }

  function StarterOf(sys: Sys, id: QueryId): Option<Starter> {
    if id in sys.starters then Some(sys.starters[id]) else None
  }

  function CauseOf(sys: Sys, id: QueryId): Option<Cause> {
    if id in sys.ended then Some(sys.ended[id]) else None
  }

  /** One query's row, its starter and who ended it, taken together. */
  predicate Fits(id: QueryId, row: Option<Query>, starter: Option<Starter>, cause: Option<Cause>) {
    if id.ManualFor? then
      starter.None? && cause.None? && (row.Some? ==> row.value.id == id && row.value.state == Completed)
    else
      && (row.None? ==> starter.None? && cause.None?)
      && (row.Some? ==>
            && row.value.id == id && row.value.startedAt < row.value.expiresAt
            && (cause.None? <==> row.value.IsPending())
            && (cause.Some? ==> EndedLike(row.value, cause.value))
            && (starter.Some? ==> PhaseFits(starter.value.rule, starter.value.phase, row.value, cause)))
  }

  ghost predicate QueryFits(sys: Sys, id: QueryId) {
    Fits(id, RowOf(sys, id), StarterOf(sys, id), CauseOf(sys, id))
  }

  ghost predicate QueriesFit(sys: Sys) {
    forall id :: QueryFits(sys, id)
  }

  /** A matched message lies in the window of the query it was matched with. */
  ghost predicate HandlerFits(sys: Sys, h: nat)
    requires h in sys.handlers
  {
    sys.handlers[h].Matched? ==>
      var id := sys.handlers[h].id;
      id.Uuid? && id in sys.rows && sys.rows[id].startedAt <= sys.handlers[h].at <= sys.rows[id].expiresAt
  }

  ghost predicate HandlersFit(sys: Sys) {
    forall h :: h in sys.handlers ==> HandlerFits(sys, h)
  }

  ghost predicate Credited(sys: Sys, h: nat, id: QueryId) {
    id in sys.ended && sys.ended[id] == ByReply(h)
  }

  /** Each handler that reports success ended exactly one query, and no other reports it. */
  ghost predicate CreditFits(sys: Sys) {
    && (forall h, id :: Credited(sys, h, id) ==> h in sys.handlers && sys.handlers[h] == Finished(true))
    && (forall h, a, b :: Credited(sys, h, a) && Credited(sys, h, b) ==> a == b)
    && (forall h :: h in sys.handlers && sys.handlers[h] == Finished(true) ==> exists id :: Credited(sys, h, id))
  }

  ghost predicate Inv(sys: Sys) {
    OnePendingPerCard(sys.rows) && QueriesFit(sys) && HandlersFit(sys) && CreditFits(sys)
  }

  // --------------------------------------------------------- one step, one query

  /** What no step undoes: an ended query keeps its row and its cause for good, and a
      query that is pending was pending before or did not exist. */
  predicate Settles(row: Option<Query>, cause: Option<Cause>, nextRow: Option<Query>, nextCause: Option<Cause>) {
    && (row.Some? ==> nextRow.Some? && nextRow.value.iccid == row.value.iccid
                      && nextRow.value.startedAt == row.value.startedAt
                      && nextRow.value.expiresAt == row.value.expiresAt
                      && (nextRow.value.IsPending() ==> row.value.IsPending()))
    && (cause.Some? ==> nextRow == row && nextCause == cause)
  }

  /** The query `step` is about, if it is about one. */
  function Target(sys: Sys, step: Step): Option<QueryId> {
    match step
    case Start(n, _, _, _, _) => Some(Uuid(n))
    case GatewayReturns(id, _) => Some(id)
    case Mark(id, _, _) => Some(id)
    case CompleteAnswer(id, _, _) => Some(id)
    case Fail(id, _, _) => Some(id)
    case ReadBack(id, _) => Some(id)
    case Inbound(_, _, _, _) => None
    case Reply(h, _) => if h in sys.handlers && sys.handlers[h].Matched? then Some(sys.handlers[h].id) else None
    case Sweep(_) => None
    case SetManual(snapshot, _, _, _, _, _) => Some(ManualFor(snapshot.deviceId))
    case ClearManual(deviceId) => Some(ManualFor(deviceId))
    case Restart => None
  }

  lemma RowUntouched(sys: Sys, step: Step, id: QueryId)
    requires Enabled(sys, step) && !step.Sweep? && Target(sys, step) != Some(id)
    ensures RowOf(Apply(sys, step), id) == RowOf(sys, id)
  {}

  lemma CauseUntouched(sys: Sys, step: Step, id: QueryId)
    requires Enabled(sys, step) && !step.Sweep? && Target(sys, step) != Some(id)
    ensures CauseOf(Apply(sys, step), id) == CauseOf(sys, id)
  {}

  lemma StarterUntouched(sys: Sys, step: Step, id: QueryId)
    requires Enabled(sys, step) && !step.Sweep? && Target(sys, step) != Some(id)
    ensures StarterOf(Apply(sys, step), id) == if step.Restart? then None else StarterOf(sys, id)
  {}

  lemma OthersUntouched(sys: Sys, step: Step, id: QueryId)
    requires Enabled(sys, step) && !step.Sweep? && Target(sys, step) != Some(id)
    ensures var next := Apply(sys, step);
            && RowOf(next, id) == RowOf(sys, id) && CauseOf(next, id) == CauseOf(sys, id)
            && StarterOf(next, id) == if step.Restart? then None else StarterOf(sys, id)
  {
    hide Apply, Enabled, Target;
    RowUntouched(sys, step, id);
    CauseUntouched(sys, step, id);
    StarterUntouched(sys, step, id);
  }

  /** The step leaves the query in order and undoes nothing that is final. */
  ghost predicate KeepsQuery(sys: Sys, step: Step, id: QueryId)
    requires Enabled(sys, step)
  {
    var next := Apply(sys, step);
    && QueryFits(next, id)
    && (id.Uuid? ==> Settles(RowOf(sys, id), CauseOf(sys, id), RowOf(next, id), CauseOf(next, id)))
  }

  predicate SweptBy(row: Option<Query>, now: int) {
    row.Some? && row.value.IsPending() && row.value.expiresAt <= now
  }

  lemma SweepView(sys: Sys, now: int, id: QueryId)
    ensures var next := Apply(sys, Sweep(now));
            && RowOf(next, id) == (if id in sys.rows then Some(ExpiredRow(sys.rows[id], now)) else None)
            && StarterOf(next, id) == StarterOf(sys, id)
            && CauseOf(next, id) == if SweptBy(RowOf(sys, id), now) then Some(BySweep) else CauseOf(sys, id)
  {}

  lemma SweptFits(id: QueryId, row: Query, starter: Option<Starter>, cause: Option<Cause>, now: int)
    requires Fits(id, Some(row), starter, cause)
    ensures var swept := Some(ExpiredRow(row, now));
            var ending := if SweptBy(Some(row), now) then Some(BySweep) else cause;
            Fits(id, swept, starter, ending) && Settles(Some(row), cause, swept, ending)
  {}

  lemma SweepFits(sys: Sys, now: int, id: QueryId)
    requires QueryFits(sys, id)
    ensures KeepsQuery(sys, Sweep(now), id)
  {
    hide Apply, ExpiredRow, PhaseFits, EndedLike;
    SweepView(sys, now, id);
    if id in sys.rows {
      SweptFits(id, sys.rows[id], StarterOf(sys, id), CauseOf(sys, id), now);
    }
  }

  lemma GatewayFits(sys: Sys, step: Step, id: QueryId)
    requires QueryFits(sys, id) && Enabled(sys, step) && Target(sys, step) == Some(id) && step.GatewayReturns?
    ensures KeepsQuery(sys, step, id)
  {}

  lemma MarkFits(sys: Sys, step: Step, id: QueryId)
    requires QueryFits(sys, id) && Enabled(sys, step) && Target(sys, step) == Some(id) && step.Mark?
    ensures KeepsQuery(sys, step, id)
  {}

  lemma AnswerFits(sys: Sys, step: Step, id: QueryId)
    requires QueryFits(sys, id) && Enabled(sys, step) && Target(sys, step) == Some(id)
    requires step.CompleteAnswer?
    ensures KeepsQuery(sys, step, id)
  {}

  lemma FailureFits(sys: Sys, step: Step, id: QueryId)
    requires QueryFits(sys, id) && Enabled(sys, step) && Target(sys, step) == Some(id) && step.Fail?
    ensures KeepsQuery(sys, step, id)
  {}

  lemma ReadBackFits(sys: Sys, step: Step, id: QueryId)
    requires QueryFits(sys, id) && Enabled(sys, step) && Target(sys, step) == Some(id) && step.ReadBack?
    ensures KeepsQuery(sys, step, id)
  {}

  lemma ReplyFits(sys: Sys, step: Step, id: QueryId)
    requires QueryFits(sys, id) && Enabled(sys, step) && Target(sys, step) == Some(id)
    requires step.Reply? && HandlerFits(sys, step.handler)
    ensures KeepsQuery(sys, step, id)
  {}

  lemma CreationFits(sys: Sys, step: Step, id: QueryId)
    requires QueryFits(sys, id) && Enabled(sys, step) && Target(sys, step) == Some(id)
    requires step.Start? || step.SetManual? || step.ClearManual?
    ensures KeepsQuery(sys, step, id)
  {}

  lemma TargetFits(sys: Sys, step: Step, id: QueryId)
    requires QueryFits(sys, id) && HandlersFit(sys) && Enabled(sys, step) && Target(sys, step) == Some(id)
    ensures KeepsQuery(sys, step, id)
  {
    hide KeepsQuery, QueryFits, Apply;
    match step
    case GatewayReturns(_, _) => GatewayFits(sys, step, id);
    case Mark(_, _, _) => MarkFits(sys, step, id);
    case CompleteAnswer(_, _, _) => AnswerFits(sys, step, id);
    case Fail(_, _, _) => FailureFits(sys, step, id);
    case ReadBack(_, _) => ReadBackFits(sys, step, id);
    case Reply(_, _) => ReplyFits(sys, step, id);
    case _ => CreationFits(sys, step, id);
  }

  lemma OtherFits(sys: Sys, step: Step, id: QueryId)
    requires QueryFits(sys, id) && Enabled(sys, step) && !step.Sweep? && Target(sys, step) != Some(id)
    ensures KeepsQuery(sys, step, id)
  {
    hide Apply, Enabled, Target;
    OthersUntouched(sys, step, id);
  }

  lemma QueryKeepsFit(sys: Sys, step: Step, id: QueryId)
    requires Inv(sys) && Enabled(sys, step)
    ensures KeepsQuery(sys, step, id)
  {
    hide KeepsQuery, Apply, Enabled, Target, HandlersFit, CreditFits, OnePendingPerCard;
    assert QueryFits(sys, id);
    if step.Sweep? {
      SweepFits(sys, step.now, id);
    } else if Target(sys, step) == Some(id) {
      TargetFits(sys, step, id);
    } else {
      OtherFits(sys, step, id);
    }
  }
}
