/** Where a stored balance comes from: over every run, what a row says can be traced to the
    steps that said it. */
module BalanceTrace {
  import opened Common
  import opened BalanceStore
  import opened BalanceService
  import opened BalanceProtocol
  import opened BalanceRuns

  // ------------------------------------------------------------- what a row owes

  /** The row was created by this start, and is still of the same card and window. */
  ghost predicate StartedBy(log: seq<Step>, q: Query) {
    exists k :: 0 <= k < |log| && IsStartOf(log[k], q)
  }

  predicate IsStartOf(step: Step, q: Query) {
    step.Start? && StartedFor(q, Uuid(step.n), step.snapshot, step.rule, step.now, step.timeout)
  }

  /** Nothing has been stored as an answer yet. */
  predicate Unanswered(q: Query) {
    && q.completion.parseState == Pending && q.completion.amount == "" && q.completion.summary == ""
    && q.completion.rawResponse == ""
  }

  /** Errors that do not come from the gateway. */
  const OWN_ERRORS: set<string> := {UNKNOWN_TRANSPORT, STATE_CHANGED, ENDED_BEFORE_RESPONSE, "database"}

  ghost predicate WasFound(log: seq<Step>, h: nat, at: int, id: QueryId) {
    exists iccid :: Inbound(h, iccid, at, Some(id)) in log
  }

  /** The steps behind the end of a query: the reply that was matched with it and read, the
      answer of its USSD session, the cause for which sending failed, or a sweep. */
  ghost predicate EndTraced(log: seq<Step>, id: QueryId, q: Query, cause: Cause) {
    match cause
    case ByReply(h) =>
      && q.state == Completed && q.error == "" && q.completedAt.Some?
      && Reply(h, Some(q.completion)) in log && WasFound(log, h, q.completedAt.value, id)
    case ByAnswer =>
      q.state == Completed && q.error == "" && GatewayReturns(id, Delivered(q.completion)) in log
    case ByFailure =>
      q.state == Failed && Unanswered(q) && CauseTraced(log, id, q.error)
    case BySweep =>
      q.state == TimedOut && Unanswered(q) && q.completedAt.Some? && Sweep(q.completedAt.value) in log
      && q.error == TIMEOUT_MESSAGE
  }

  ghost predicate CauseTraced(log: seq<Step>, id: QueryId, cause: string) {
    GatewayReturns(id, Refused(cause)) in log || cause in OWN_ERRORS
  }

  ghost predicate PhaseTraced(log: seq<Step>, id: QueryId, p: Phase) {
    && (p.Completing? ==> GatewayReturns(id, Delivered(p.answer)) in log)
    && (p.Failing? ==> CauseTraced(log, id, p.cause))
  }

  /** A manual balance is what was entered for the device. */
  predicate IsEntryOf(step: Step, q: Query) {
    && step.SetManual?
    && q.id == ManualFor(step.snapshot.deviceId)
    && q.deviceId == step.snapshot.deviceId && q.iccid == step.snapshot.iccid
    && q.state == Completed && q.transport == ManualEntry
    && q.completion == Completion(Manual, step.amount, step.currency, step.summary, "")
    && q.startedAt == q.expiresAt == q.updatedAt == step.now && q.completedAt == Some(step.now)
    && q.createdAt == step.createdAt && q.error == ""
  }

  ghost predicate EnteredBy(log: seq<Step>, q: Query) {
    exists k :: 0 <= k < |log| && IsEntryOf(log[k], q)
  }

  ghost predicate RowTraced(log: seq<Step>, id: QueryId, q: Query, cause: Option<Cause>) {
    if id.ManualFor? then EnteredBy(log, q)
    else
      && StartedBy(log, q)
      && match cause
         case None => Unanswered(q) && q.error == "" && q.completedAt == None
         case Some(c) => EndTraced(log, id, q, c)
  }

  ghost predicate QueryTraced(log: seq<Step>, sys: Sys, id: QueryId) {
    && (id in sys.rows ==> RowTraced(log, id, sys.rows[id], CauseOf(sys, id)))
    && (id in sys.starters ==> PhaseTraced(log, id, sys.starters[id].phase))
  }

  ghost predicate HandlersTraced(log: seq<Step>, sys: Sys) {
    forall h :: h in sys.handlers && sys.handlers[h].Matched? ==>
                  WasFound(log, h, sys.handlers[h].at, sys.handlers[h].id)
  }

  ghost predicate Traced(log: seq<Step>, sys: Sys) {
    HandlersTraced(log, sys) && forall id :: QueryTraced(log, sys, id)
  }

  // ------------------------------------------------------------- a longer history

  lemma StartedByLonger(log: seq<Step>, step: Step, q: Query)
    ensures StartedBy(log, q) ==> StartedBy(log + [step], q)
    ensures IsStartOf(step, q) ==> StartedBy(log + [step], q)
  {
    if StartedBy(log, q) {
      var k :| 0 <= k < |log| && IsStartOf(log[k], q);
      assert IsStartOf((log + [step])[k], q);
    }
    assert (log + [step])[|log|] == step;
  }

  lemma EnteredByLonger(log: seq<Step>, step: Step, q: Query)
    ensures EnteredBy(log, q) ==> EnteredBy(log + [step], q)
    ensures IsEntryOf(step, q) ==> EnteredBy(log + [step], q)
  {
    if EnteredBy(log, q) {
      var k :| 0 <= k < |log| && IsEntryOf(log[k], q);
      assert IsEntryOf((log + [step])[k], q);
    }
    assert (log + [step])[|log|] == step;
  }

  lemma WasFoundLonger(log: seq<Step>, step: Step, h: nat, at: int, id: QueryId)
    ensures WasFound(log, h, at, id) ==> WasFound(log + [step], h, at, id)
  {
    if WasFound(log, h, at, id) {
      var iccid :| Inbound(h, iccid, at, Some(id)) in log;
      assert Inbound(h, iccid, at, Some(id)) in log + [step];
    }
  }

  lemma EndTracedLonger(log: seq<Step>, step: Step, id: QueryId, q: Query, cause: Cause)
    requires EndTraced(log, id, q, cause)
    ensures EndTraced(log + [step], id, q, cause)
  {
    if cause.ByReply? {
      WasFoundLonger(log, step, cause.handler, q.completedAt.value, id);
    }
  }

  lemma RowTracedLonger(log: seq<Step>, step: Step, id: QueryId, q: Query, cause: Option<Cause>)
    requires RowTraced(log, id, q, cause)
    ensures RowTraced(log + [step], id, q, cause)
  {
    StartedByLonger(log, step, q);
    EnteredByLonger(log, step, q);
    if id.Uuid? && cause.Some? {
      EndTracedLonger(log, step, id, q, cause.value);
    }
  }

  // ------------------------------------------------------------- one step, one row

  /** A row that differs only in how far it has come was started by the same step. */
  lemma SameStart(log: seq<Step>, q: Query, r: Query)
    requires StartedBy(log, q) && SameRequest(q, r)
    ensures StartedBy(log, r)
  {
    var k :| 0 <= k < |log| && IsStartOf(log[k], q);
    assert IsStartOf(log[k], r);
  }

  lemma MarkTraced(log: seq<Step>, sys: Sys, step: Step, id: QueryId)
    requires QueryTraced(log, sys, id) && QueryFits(sys, id) && Enabled(sys, step) && Target(sys, step) == Some(id)
    requires step.Mark? || step.GatewayReturns? || step.ReadBack?
    ensures QueryTraced(log + [step], Apply(sys, step), id)
  {
    hide StartedBy, EndTraced;
    var now := log + [step];
    assert now[|log|] == step;
    if id in sys.rows {
      RowTracedLonger(log, step, id, sys.rows[id], CauseOf(sys, id));
      if id.Uuid? && step.Mark? && sys.rows[id].state == Sending {
        SameStart(now, sys.rows[id], Marked(sys.rows, id, step.now)[id]);
      }
    }
  }

  lemma AnswerTraced(log: seq<Step>, sys: Sys, step: Step, id: QueryId)
    requires QueryTraced(log, sys, id) && QueryFits(sys, id) && Enabled(sys, step) && Target(sys, step) == Some(id)
    requires step.CompleteAnswer?
    ensures QueryTraced(log + [step], Apply(sys, step), id)
  {
    hide StartedBy;
    if id in sys.rows {
      RowTracedLonger(log, step, id, sys.rows[id], CauseOf(sys, id));
      if PendingAt(sys.rows, id) {
        SameStart(log + [step], sys.rows[id], CompletedRow(sys.rows[id], sys.starters[id].phase.answer, step.now));
      }
    }
  }

  lemma FailureTraced(log: seq<Step>, sys: Sys, step: Step, id: QueryId)
    requires QueryTraced(log, sys, id) && QueryFits(sys, id) && Enabled(sys, step) && Target(sys, step) == Some(id)
    requires step.Fail?
    ensures QueryTraced(log + [step], Apply(sys, step), id)
  {
    hide StartedBy;
    if id in sys.rows {
      RowTracedLonger(log, step, id, sys.rows[id], CauseOf(sys, id));
      if PendingAt(sys.rows, id) {
        SameStart(log + [step], sys.rows[id], FailedRow(sys.rows[id], sys.starters[id].phase.cause, step.now));
      }
    }
  }

  lemma ReplyTraced(log: seq<Step>, sys: Sys, step: Step, id: QueryId)
    requires QueryTraced(log, sys, id) && QueryFits(sys, id) && Enabled(sys, step) && Target(sys, step) == Some(id)
    requires step.Reply? && HandlerFits(sys, step.handler) && HandlersTraced(log, sys)
    ensures QueryTraced(log + [step], Apply(sys, step), id)
  {
    hide StartedBy, WasFound;
    if id in sys.rows {
      RowTracedLonger(log, step, id, sys.rows[id], CauseOf(sys, id));
      if step.parsed.Some? && PendingAt(sys.rows, id) {
        var at := sys.handlers[step.handler].at;
        SameStart(log + [step], sys.rows[id], CompletedRow(sys.rows[id], step.parsed.value, at));
        WasFoundLonger(log, step, step.handler, at, id);
        assert (log + [step])[|log|] == step;
      }
    }
  }

  lemma SweepTraced(log: seq<Step>, sys: Sys, step: Step, id: QueryId)
    requires QueryTraced(log, sys, id) && QueryFits(sys, id) && step.Sweep?
    ensures QueryTraced(log + [step], Apply(sys, step), id)
  {
    hide StartedBy, EnteredBy, Apply;
    SweepView(sys, step.now, id);
    if id in sys.rows {
      RowTracedLonger(log, step, id, sys.rows[id], CauseOf(sys, id));
      if SweptBy(RowOf(sys, id), step.now) {
        SameStart(log + [step], sys.rows[id], ExpiredRow(sys.rows[id], step.now));
        assert (log + [step])[|log|] == step;
      }
    }
  }

  lemma CreationTraced(log: seq<Step>, sys: Sys, step: Step, id: QueryId)
    requires QueryTraced(log, sys, id) && QueryFits(sys, id) && Enabled(sys, step) && Target(sys, step) == Some(id)
    requires step.Start? || step.SetManual? || step.ClearManual?
    ensures QueryTraced(log + [step], Apply(sys, step), id)
  {
    hide StartedBy, EnteredBy, EndTraced;
    var next := Apply(sys, step);
    if id in sys.rows {
      RowTracedLonger(log, step, id, sys.rows[id], CauseOf(sys, id));
    }
    if id in next.rows {
      StartedByLonger(log, step, next.rows[id]);
      EnteredByLonger(log, step, next.rows[id]);
    }
  }

  lemma OtherTraced(log: seq<Step>, sys: Sys, step: Step, id: QueryId)
    requires QueryTraced(log, sys, id) && Enabled(sys, step) && !step.Sweep? && Target(sys, step) != Some(id)
    ensures QueryTraced(log + [step], Apply(sys, step), id)
  {
    hide Apply, Enabled, Target;
    OthersUntouched(sys, step, id);
    if id in sys.rows {
      assert RowOf(Apply(sys, step), id) == Some(sys.rows[id]);
      RowTracedLonger(log, step, id, sys.rows[id], CauseOf(sys, id));
    }
  }

  lemma QueryStaysTraced(log: seq<Step>, sys: Sys, step: Step, id: QueryId)
    requires Inv(sys) && Traced(log, sys) && Enabled(sys, step)
    ensures QueryTraced(log + [step], Apply(sys, step), id)
  {
    hide Apply, Enabled, Target, OnePendingPerCard, CreditFits;
    assert QueryFits(sys, id) && QueryTraced(log, sys, id);
    hide QueryTraced, QueryFits;
    if step.Sweep? {
      SweepTraced(log, sys, step, id);
    } else if Target(sys, step) != Some(id) {
      OtherTraced(log, sys, step, id);
    } else {
      TargetTraced(log, sys, step, id);
    }
  }

  lemma TargetTraced(log: seq<Step>, sys: Sys, step: Step, id: QueryId)
    requires QueryTraced(log, sys, id) && QueryFits(sys, id) && Enabled(sys, step) && Target(sys, step) == Some(id)
    requires HandlersFit(sys) && HandlersTraced(log, sys)
    ensures QueryTraced(log + [step], Apply(sys, step), id)
  {
    hide QueryTraced, QueryFits, Apply, HandlersTraced;
    if step.CompleteAnswer? {
      AnswerTraced(log, sys, step, id);
    } else if step.Fail? {
      FailureTraced(log, sys, step, id);
    } else if step.Reply? {
      ReplyTraced(log, sys, step, id);
    } else if step.Start? || step.SetManual? || step.ClearManual? {
      CreationTraced(log, sys, step, id);
    } else {
      MarkTraced(log, sys, step, id);
    }
  }

  lemma HandlersStayTraced(log: seq<Step>, sys: Sys, step: Step)
    requires HandlersTraced(log, sys) && Enabled(sys, step)
    ensures HandlersTraced(log + [step], Apply(sys, step))
  {
    var next := Apply(sys, step);
    assert (log + [step])[|log|] == step;
    forall h | h in next.handlers && next.handlers[h].Matched?
      ensures WasFound(log + [step], h, next.handlers[h].at, next.handlers[h].id)
    {
      HandlerBefore(sys, step, h);
      WasFoundLonger(log, step, h, next.handlers[h].at, next.handlers[h].id);
      if h !in sys.handlers {
        assert step == Inbound(h, step.iccid, step.at, step.found);
      }
    }
  }

  // ---------------------------------------------------------------------- runs

  lemma {:induction false} RunStaysTraced(log: seq<Step>, sys: Sys, steps: seq<Step>)
    requires Inv(sys) && Traced(log, sys) && Runs(sys, steps)
    ensures Traced(log + steps, After(sys, steps))
    decreases |steps|
  {
    hide Inv, Apply, Enabled, QueryTraced;
    if |steps| == 0 {
      assert log + steps == log;
    } else {
      forall id
        ensures QueryTraced(log + [steps[0]], Apply(sys, steps[0]), id)
      {
        QueryStaysTraced(log, sys, steps[0], id);
      }
      HandlersStayTraced(log, sys, steps[0]);
      StepKeepsInv(sys, steps[0]);
      RunStaysTraced(log + [steps[0]], Apply(sys, steps[0]), steps[1..]);
      assert log + [steps[0]] + steps[1..] == log + steps;
    }
  }

  lemma RunIsTraced(steps: seq<Step>)
    requires Runs(EMPTY, steps)
    ensures Traced(steps, After(EMPTY, steps))
  {
    RunStaysTraced([], EMPTY, steps);
    assert [] + steps == steps;
  }

  /** What is stored is what was said, over every run. A query was created by a start with its
      card, rule and window. While pending it holds no answer. Ended by a reply, it holds what
      that message was read as, and the message was matched with it; ended by an answer, the
      answer of its own USSD session; failed, the cause its gateway call gave, or one of the
      service's own; swept, no answer. */
  lemma StoredIsWhatWasSaid(steps: seq<Step>, id: QueryId)
    requires Runs(EMPTY, steps) && id in After(EMPTY, steps).rows && id.Uuid?
    ensures var now := After(EMPTY, steps);
            && StartedBy(steps, now.rows[id])
            && (id !in now.ended ==> Unanswered(now.rows[id]) && now.rows[id].error == "")
            && (id in now.ended ==> EndTraced(steps, id, now.rows[id], now.ended[id]))
  {
    RunIsTraced(steps);
    assert QueryTraced(steps, After(EMPTY, steps), id);
  }

  /** And a manual balance in the table is one that was entered for its device. */
  lemma ManualIsWhatWasEntered(steps: seq<Step>, deviceId: string)
    requires Runs(EMPTY, steps) && ManualFor(deviceId) in After(EMPTY, steps).rows
    ensures EnteredBy(steps, After(EMPTY, steps).rows[ManualFor(deviceId)])
  {
    RunIsTraced(steps);
    assert QueryTraced(steps, After(EMPTY, steps), ManualFor(deviceId));
  }

  /** It stays in force until another is entered or it is cleared, whatever else goes on. */
  lemma {:induction false} ManualStays(sys: Sys, steps: seq<Step>, deviceId: string)
    requires Inv(sys) && Runs(sys, steps) && ManualFor(deviceId) in sys.rows
    requires forall i :: 0 <= i < |steps| ==>
               && (steps[i].SetManual? ==> steps[i].snapshot.deviceId != deviceId)
               && (steps[i].ClearManual? ==> steps[i].deviceId != deviceId)
    ensures RowOf(After(sys, steps), ManualFor(deviceId)) == RowOf(sys, ManualFor(deviceId))
    decreases |steps|
  {
    if |steps| > 0 {
      hide Inv, Apply, Enabled;
      ManualUntouched(sys, steps[0], deviceId);
      StepKeepsInv(sys, steps[0]);
      ManualStays(Apply(sys, steps[0]), steps[1..], deviceId);
    }
  }

  lemma ManualUntouched(sys: Sys, step: Step, deviceId: string)
    requires Inv(sys) && Enabled(sys, step) && ManualFor(deviceId) in sys.rows
    requires step.SetManual? ==> step.snapshot.deviceId != deviceId
    requires step.ClearManual? ==> step.deviceId != deviceId
    ensures RowOf(Apply(sys, step), ManualFor(deviceId)) == RowOf(sys, ManualFor(deviceId))
  {
    hide OnePendingPerCard, CreditFits, Apply;
    var id := ManualFor(deviceId);
    assert QueryFits(sys, id);
    if step.Sweep? {
      SweepView(sys, step.now, id);
    } else {
      if step.Reply? {
        assert HandlerFits(sys, step.handler);
      }
      assert Target(sys, step) != Some(id);
      OthersUntouched(sys, step, id);
    }
  }

  // --------------------------------------------------------- when nobody interferes

  /** The step that records what became of the request. */
  function OutcomeStep(rule: Rule, id: QueryId, delivery: Delivery, later: int): Step {
    if delivery.Refused? || (rule.transport != SMS && rule.transport != USSD) then Fail(id, later, false)
    else if rule.transport == SMS || rule.replyBySms then Mark(id, later, false)
    else CompleteAnswer(id, later, false)
  }

  /** The error a start returns with a query that has failed. */
  function FailureOf(q: Query): Option<string> {
    if q.state == Failed then Some(q.error) else None
  }

  function StartSteps(n: nat, snapshot: Snapshot, rule: Rule, now: int, timeout: int, delivery: Delivery, later: int)
      : seq<Step> {
    [Start(n, snapshot, rule, now, timeout), GatewayReturns(Uuid(n), delivery),
     OutcomeStep(rule, Uuid(n), delivery, later), ReadBack(Uuid(n), false)]
  }

  lemma StepFirst(sys: Sys, step: Step, rest: seq<Step>)
    requires Enabled(sys, step) && Runs(Apply(sys, step), rest)
    ensures Runs(sys, [step] + rest) && After(sys, [step] + rest) == After(Apply(sys, step), rest)
  {
    hide Enabled, Apply;
    assert ([step] + rest)[1..] == rest;
  }

  lemma FourSteps(sys: Sys, a: Step, b: Step, c: Step, d: Step)
    requires Enabled(sys, a) && Enabled(Apply(sys, a), b) && Enabled(Apply(Apply(sys, a), b), c)
    requires Enabled(Apply(Apply(Apply(sys, a), b), c), d)
    ensures Runs(sys, [a, b, c, d]) && After(sys, [a, b, c, d]) == Apply(Apply(Apply(Apply(sys, a), b), c), d)
  {
    hide Enabled, Apply;
    var one := Apply(sys, a);
    var two := Apply(one, b);
    var three := Apply(two, c);
    assert Runs(Apply(three, d), []);
    StepFirst(three, d, []);
    StepFirst(two, c, [d] + []);
    StepFirst(one, b, [c] + ([d] + []));
    StepFirst(sys, a, [b] + ([c] + ([d] + [])));
    assert [a, b, c, d] == [a] + ([b] + ([c] + ([d] + [])));
  }

  lemma OutcomeIsRecorded(sys: Sys, id: QueryId, q: Query, rule: Rule, delivery: Delivery, later: int)
    requires id in sys.rows && sys.rows[id] == q && q.state == Sending && q.error == "" && q.completedAt == None
    requires q.completion == Completion(Pending, "", rule.currency, "", "")
    requires id in sys.starters && sys.starters[id] == Starter(rule, Calling)
    ensures var called := Apply(sys, GatewayReturns(id, delivery));
            var step := OutcomeStep(rule, id, delivery, later);
            && Enabled(called, step)
            && var next := Apply(called, step);
               && id in next.rows && SameRequest(next.rows[id], q) && EndsAs(next.rows[id], rule, delivery, later)
               && next.rows == sys.rows[id := next.rows[id]]
               && id in next.starters && next.starters[id].phase.Reading?
               && next.starters[id].phase.failure == FailureOf(next.rows[id])
  {}

  /** A start nobody interferes with does in the protocol what `StartQuery` does alone: the same
      row for every transport, answer and refusal, and an error exactly when it failed. */
  lemma UndisturbedStart(sys: Sys, n: nat, snapshot: Snapshot, rule: Rule, now: int, timeout: int,
                         delivery: Delivery, later: int)
    requires Enabled(sys, Start(n, snapshot, rule, now, timeout)) && !HasPending(sys.rows, snapshot.iccid)
    ensures var steps := StartSteps(n, snapshot, rule, now, timeout, delivery, later);
            && Runs(sys, steps)
            && var next := After(sys, steps);
               var id := Uuid(n);
               && id in next.rows && next.rows == sys.rows[id := next.rows[id]]
               && StartedFor(next.rows[id], id, snapshot, rule, now, timeout)
               && EndsAs(next.rows[id], rule, delivery, later)
               && id in next.starters
               && next.starters[id].phase == Returned(Some(next.rows[id]), FailureOf(next.rows[id]))
  {
    hide *;
    var id := Uuid(n);
    var a, b := Start(n, snapshot, rule, now, timeout), GatewayReturns(id, delivery);
    var c, d := OutcomeStep(rule, id, delivery, later), ReadBack(id, false);
    StartIsRecorded(sys, n, snapshot, rule, now, timeout, delivery, later);
    RowIsRead(Apply(Apply(Apply(sys, a), b), c), id);
    FourSteps(sys, a, b, c, d);
    StartStepsAre(n, snapshot, rule, now, timeout, delivery, later);
  }

  lemma StartStepsAre(n: nat, snapshot: Snapshot, rule: Rule, now: int, timeout: int, delivery: Delivery, later: int)
    ensures StartSteps(n, snapshot, rule, now, timeout, delivery, later)
         == [Start(n, snapshot, rule, now, timeout), GatewayReturns(Uuid(n), delivery),
             OutcomeStep(rule, Uuid(n), delivery, later), ReadBack(Uuid(n), false)]
  {}

  lemma StartIsRecorded(sys: Sys, n: nat, snapshot: Snapshot, rule: Rule, now: int, timeout: int,
                        delivery: Delivery, later: int)
    requires Enabled(sys, Start(n, snapshot, rule, now, timeout)) && !HasPending(sys.rows, snapshot.iccid)
    ensures var id := Uuid(n);
            var started := Apply(sys, Start(n, snapshot, rule, now, timeout));
            var step := OutcomeStep(rule, id, delivery, later);
            && Enabled(started, GatewayReturns(id, delivery))
            && Enabled(Apply(started, GatewayReturns(id, delivery)), step)
            && var next := Apply(Apply(started, GatewayReturns(id, delivery)), step);
               && id in next.rows && next.rows == sys.rows[id := next.rows[id]]
               && StartedFor(next.rows[id], id, snapshot, rule, now, timeout)
               && EndsAs(next.rows[id], rule, delivery, later)
               && id in next.starters && next.starters[id].phase.Reading?
               && next.starters[id].phase.failure == FailureOf(next.rows[id])
  {
    var id := Uuid(n);
    var started := Apply(sys, Start(n, snapshot, rule, now, timeout));
    StartIsCreated(sys, n, snapshot, rule, now, timeout);
    OutcomeIsRecorded(started, id, NewQuery(id, snapshot, rule, now, timeout), rule, delivery, later);
    hide EndsAs, OutcomeStep, Apply, NewQuery, FailureOf, Enabled;
    var next := Apply(Apply(started, GatewayReturns(id, delivery)), OutcomeStep(rule, id, delivery, later));
    assert started.rows[id := next.rows[id]] == sys.rows[id := next.rows[id]];
  }

  lemma StartIsCreated(sys: Sys, n: nat, snapshot: Snapshot, rule: Rule, now: int, timeout: int)
    requires Enabled(sys, Start(n, snapshot, rule, now, timeout)) && !HasPending(sys.rows, snapshot.iccid)
    ensures var started := Apply(sys, Start(n, snapshot, rule, now, timeout));
            var q := NewQuery(Uuid(n), snapshot, rule, now, timeout);
            && started.rows == sys.rows[Uuid(n) := q] && StartedFor(q, Uuid(n), snapshot, rule, now, timeout)
            && Uuid(n) in started.starters && started.starters[Uuid(n)] == Starter(rule, Calling)
            && forall delivery :: Enabled(started, GatewayReturns(Uuid(n), delivery))
  {}

  lemma RowIsRead(sys: Sys, id: QueryId)
    requires id in sys.rows && id in sys.starters && sys.starters[id].phase.Reading?
    ensures Enabled(sys, ReadBack(id, false))
    ensures var next := Apply(sys, ReadBack(id, false));
            && next.rows == sys.rows && id in next.starters
            && next.starters[id].phase == Returned(Some(sys.rows[id]), sys.starters[id].phase.failure)
  {}

  /** So does a message nobody interferes with: when a query is pending in whose window it lies,
      that query ends completed with what was read, and the message is reported as matched; a
      message that cannot be read leaves the query alone, and one that matches none changes
      nothing. */
  lemma UndisturbedReply(sys: Sys, h: nat, iccid: string, at: int, found: Option<QueryId>, parsed: Option<Completion>)
    requires Enabled(sys, Inbound(h, iccid, at, found))
    ensures var matched := Apply(sys, Inbound(h, iccid, at, found));
            && matched.rows == sys.rows
            && (found.None? ==> h in matched.handlers && matched.handlers[h] == Finished(false))
            && (found.Some? ==>
                  && Enabled(matched, Reply(h, parsed))
                  && var next := Apply(matched, Reply(h, parsed));
                     var id := found.value;
                     && h in next.handlers && next.handlers[h] == Finished(parsed.Some?)
                     && (parsed.None? ==> next.rows == sys.rows)
                     && (parsed.Some? ==>
                           && id in next.rows && next.rows == sys.rows[id := next.rows[id]]
                           && SameRequest(next.rows[id], sys.rows[id])
                           && next.rows[id].state == Completed && next.rows[id].completion == parsed.value
                           && next.rows[id].completedAt == Some(at)))
  {
    if found.Some? {
      MatchIsPending(sys, iccid, at, found);
    }
  }
}
