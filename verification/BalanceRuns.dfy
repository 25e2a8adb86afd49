/** What holds of balance queries over every run. */
module BalanceRuns {
  import opened Common
  import opened BalanceStore
  import opened BalanceService
  import opened BalanceProtocol

  lemma QuerySettles(sys: Sys, step: Step, id: QueryId)
    requires Inv(sys) && Enabled(sys, step) && id.Uuid?
    ensures var next := Apply(sys, step);
            Settles(RowOf(sys, id), CauseOf(sys, id), RowOf(next, id), CauseOf(next, id))
  {
    QueryKeepsFit(sys, step, id);
  }

  lemma PendingIsUuid(sys: Sys, id: QueryId)
    requires QueriesFit(sys) && PendingAt(sys.rows, id)
    ensures id.Uuid?
  {
    assert QueryFits(sys, id);
  }

  /** Only `Start` makes a query pending, and only its own. */
  lemma PendingWasPending(sys: Sys, step: Step, id: QueryId)
    requires Inv(sys) && Enabled(sys, step) && PendingAt(Apply(sys, step).rows, id)
    ensures (PendingAt(sys.rows, id) && sys.rows[id].iccid == Apply(sys, step).rows[id].iccid)
            || (step.Start? && id == Uuid(step.n) && Apply(sys, step).rows[id].iccid == step.snapshot.iccid
                && !HasPending(sys.rows, step.snapshot.iccid))
  {
    QueryKeepsFit(sys, step, id);
    assert QueryFits(Apply(sys, step), id);
    QuerySettles(sys, step, id);
    if !step.Start? || id != Uuid(step.n) {
      assert RowOf(sys, id).Some? by {
        if step.Sweep? {
          assert id in sys.rows;
        } else if Target(sys, step) == Some(id) {
          assert QueryFits(sys, id);
        } else {
          OthersUntouched(sys, step, id);
        }
      }
    }
  }

  lemma StepKeepsOnePending(sys: Sys, step: Step)
    requires Inv(sys) && Enabled(sys, step)
    ensures OnePendingPerCard(Apply(sys, step).rows)
  {
    var next := Apply(sys, step);
    forall a, b | PendingAt(next.rows, a) && PendingAt(next.rows, b) && next.rows[a].iccid == next.rows[b].iccid
      ensures a == b
    {
      PendingWasPending(sys, step, a);
      PendingWasPending(sys, step, b);
    }
  }

  lemma StepKeepsHandlers(sys: Sys, step: Step)
    requires Inv(sys) && Enabled(sys, step)
    ensures HandlersFit(Apply(sys, step))
  {
    hide Inv, Apply, Enabled;
    var next := Apply(sys, step);
    forall h | h in next.handlers
      ensures HandlerFits(next, h)
    {
      if next.handlers[h].Matched? {
        MatchBefore(sys, step, h);
        var id := next.handlers[h].id;
        QuerySettles(sys, step, id);
      }
    }
  }

  /** A match in force was so before, or has just been made with a pending query. */
  lemma MatchBefore(sys: Sys, step: Step, h: nat)
    requires Inv(sys) && Enabled(sys, step)
    requires h in Apply(sys, step).handlers && Apply(sys, step).handlers[h].Matched?
    ensures var m := Apply(sys, step).handlers[h];
            && m.id.Uuid? && m.id in sys.rows
            && sys.rows[m.id].startedAt <= m.at <= sys.rows[m.id].expiresAt
  {
    hide QueriesFit, CreditFits, OnePendingPerCard, Apply, IsFound, IsCandidate;
    HandlerBefore(sys, step, h);
    if h in sys.handlers {
      assert HandlerFits(sys, h);
    } else {
      MatchIsPending(sys, step.iccid, step.at, step.found);
      PendingIsUuid(sys, step.found.value);
    }
  }

  lemma MatchIsPending(sys: Sys, iccid: string, at: int, found: Option<QueryId>)
    requires IsFound(sys.rows, iccid, at, found) && found.Some?
    ensures PendingAt(sys.rows, found.value)
    ensures sys.rows[found.value].startedAt <= at <= sys.rows[found.value].expiresAt
  {}

  lemma HandlerBefore(sys: Sys, step: Step, h: nat)
    requires Enabled(sys, step) && h in Apply(sys, step).handlers && Apply(sys, step).handlers[h].Matched?
    ensures if h in sys.handlers then Apply(sys, step).handlers[h] == sys.handlers[h]
            else step.Inbound? && step.found.Some? && Apply(sys, step).handlers[h] == Matched(step.found.value, step.at)
  {
  }

  /** A query comes to be ended only by the step that ends it. */
  lemma NewCredit(sys: Sys, step: Step, h: nat, id: QueryId)
    requires Inv(sys) && Enabled(sys, step) && Credited(Apply(sys, step), h, id)
    ensures Credited(sys, h, id)
            || (step.Reply? && step.handler == h && Target(sys, step) == Some(id)
                && h in Apply(sys, step).handlers && Apply(sys, step).handlers[h] == Finished(true))
  {
    assert QueryFits(sys, id);
    if step.Reply? {
      assert HandlerFits(sys, step.handler);
    }
  }

  lemma OldCreditStays(sys: Sys, step: Step, h: nat, id: QueryId)
    requires Inv(sys) && Enabled(sys, step) && Credited(sys, h, id)
    ensures Credited(Apply(sys, step), h, id)
  {
    assert QueryFits(sys, id);
    QuerySettles(sys, step, id);
  }

  lemma InvCredits(sys: Sys)
    requires Inv(sys)
    ensures CreditFits(sys)
  {}

  lemma FinishedStays(sys: Sys, step: Step, h: nat)
    requires Enabled(sys, step)
    ensures h in sys.handlers && sys.handlers[h] == Finished(true) ==>
              h in Apply(sys, step).handlers && Apply(sys, step).handlers[h] == Finished(true)
  {}

  lemma NewlyFinished(sys: Sys, step: Step, h: nat)
    requires Enabled(sys, step) && h in Apply(sys, step).handlers && Apply(sys, step).handlers[h] == Finished(true)
    requires h in sys.handlers ==> sys.handlers[h] != Finished(true)
    ensures h in sys.handlers && sys.handlers[h].Matched? && Credited(Apply(sys, step), h, sys.handlers[h].id)
  {}

  lemma StepKeepsCredit(sys: Sys, step: Step)
    requires Inv(sys) && Enabled(sys, step)
    ensures CreditFits(Apply(sys, step))
  {
    hide Inv, Apply, Enabled, Credited;
    assert CreditFits(sys) by {
      InvCredits(sys);
    }
    var next := Apply(sys, step);
    forall h, id | Credited(next, h, id)
      ensures h in next.handlers && next.handlers[h] == Finished(true)
    {
      FinishedStays(sys, step, h);
      NewCredit(sys, step, h, id);
    }
    forall h, a, b | Credited(next, h, a) && Credited(next, h, b)
      ensures a == b
    {
      NewCredit(sys, step, h, a);
      NewCredit(sys, step, h, b);
    }
    forall h | h in next.handlers && next.handlers[h] == Finished(true)
      ensures exists id :: Credited(next, h, id)
    {
      if h in sys.handlers && sys.handlers[h] == Finished(true) {
        var id :| Credited(sys, h, id);
        OldCreditStays(sys, step, h, id);
      } else {
        NewlyFinished(sys, step, h);
      }
    }
  }

  lemma StepKeepsInv(sys: Sys, step: Step)
    requires Inv(sys) && Enabled(sys, step)
    ensures Inv(Apply(sys, step))
  {
    StepKeepsOnePending(sys, step);
    StepKeepsHandlers(sys, step);
    StepKeepsCredit(sys, step);
    forall id
      ensures QueryFits(Apply(sys, step), id)
    {
      QueryKeepsFit(sys, step, id);
    }
  }

  // ---------------------------------------------------------------------- runs

  ghost predicate Runs(sys: Sys, steps: seq<Step>)
    decreases |steps|
  {
    |steps| > 0 ==> Enabled(sys, steps[0]) && Runs(Apply(sys, steps[0]), steps[1..])
  }

  ghost function After(sys: Sys, steps: seq<Step>): Sys
    requires Runs(sys, steps)
    decreases |steps|
  {
    if |steps| == 0 then sys else After(Apply(sys, steps[0]), steps[1..])
  }

  lemma {:induction false} RunKeepsInv(sys: Sys, steps: seq<Step>)
    requires Inv(sys) && Runs(sys, steps)
    ensures Inv(After(sys, steps))
    decreases |steps|
  {
    if |steps| > 0 {
      hide Inv, Apply, Enabled;
      StepKeepsInv(sys, steps[0]);
      RunKeepsInv(Apply(sys, steps[0]), steps[1..]);
    }
  }

  /** At most one query a card is pending, whatever overlaps. */
  lemma OnePendingOverEveryRun(steps: seq<Step>, a: QueryId, b: QueryId)
    requires Runs(EMPTY, steps)
    requires var rows := After(EMPTY, steps).rows;
             PendingAt(rows, a) && PendingAt(rows, b) && rows[a].iccid == rows[b].iccid
    ensures a == b
  {
    RunKeepsInv(EMPTY, steps);
  }

  /** Completed, failed and timed out are final: no later step of any kind changes the row
      or who ended it. */
  lemma {:induction false} EndedIsForever(sys: Sys, steps: seq<Step>, id: QueryId)
    requires Inv(sys) && Runs(sys, steps)
    requires id.Uuid? && id in sys.rows && !sys.rows[id].IsPending()
    ensures var now := After(sys, steps);
            id in now.rows && now.rows[id] == sys.rows[id] && CauseOf(now, id) == CauseOf(sys, id)
    decreases |steps|
  {
    if |steps| > 0 {
      assert QueryFits(sys, id);
      QuerySettles(sys, steps[0], id);
      StepKeepsInv(sys, steps[0]);
      EndedIsForever(Apply(sys, steps[0]), steps[1..], id);
    }
  }

  /** How each ended query ended: a reply by SMS is stamped within the query's window, a
      sweep never comes before the deadline, and a query is ended exactly when one of the
      four causes is on record for it. */
  lemma EndedForOneReason(steps: seq<Step>, id: QueryId)
    requires Runs(EMPTY, steps) && id.Uuid? && id in After(EMPTY, steps).rows
    ensures var now := After(EMPTY, steps);
            && (now.rows[id].IsPending() <==> id !in now.ended)
            && (id in now.ended ==> EndedLike(now.rows[id], now.ended[id]))
  {
    RunKeepsInv(EMPTY, steps);
    assert QueryFits(After(EMPTY, steps), id);
  }

  /** A message that is reported as matched ended one query, and no two messages the same. */
  lemma EachReplyEndsOneQuery(steps: seq<Step>, h: nat)
    requires Runs(EMPTY, steps)
    requires var now := After(EMPTY, steps); h in now.handlers && now.handlers[h] == Finished(true)
    ensures exists id :: Credited(After(EMPTY, steps), h, id)
              && forall other :: Credited(After(EMPTY, steps), h, other) ==> other == id
  {
    RunKeepsInv(EMPTY, steps);
    var id :| Credited(After(EMPTY, steps), h, id);
  }

  /** What `StartQuery` returns without an error: a USSD query answered at once is completed;
      any other has been sent and may have been answered or swept since, but is never failed
      or still being sent. */
  lemma GoodReturnIsSent(steps: seq<Step>, id: QueryId)
    requires Runs(EMPTY, steps)
    requires var now := After(EMPTY, steps);
             id in now.starters && now.starters[id].phase.Returned? && now.starters[id].phase.failure.None?
    ensures var starter := After(EMPTY, steps).starters[id];
            && starter.phase.row.Some?
            && starter.phase.row.value.state in
                 if AnswersAtOnce(starter.rule) then {Completed} else {AwaitingReply, Completed, TimedOut}
  {
    RunKeepsInv(EMPTY, steps);
    assert QueryFits(After(EMPTY, steps), id);
  }

  /** The starter of a query that somebody else has ended: still sending or about to record
      what became of it, or past that and bound for an error. */
  ghost predicate LostRace(sys: Sys, id: QueryId, row: Query) {
    && id in sys.rows && sys.rows[id] == row
    && (id in sys.starters ==>
       match sys.starters[id].phase
       case Calling => true
       case Marking => true
       case Completing(_) => true
       case Failing(_) => true
       case Reading(failure) => failure.Some?
       case Returned(stored, failure) => failure.Some? && (stored == Some(row) || stored == None))
  }

  lemma LostRaceStep(sys: Sys, step: Step, id: QueryId, row: Query)
    requires Inv(sys) && Enabled(sys, step) && id.Uuid? && LostRace(sys, id, row) && !row.IsPending()
    ensures LostRace(Apply(sys, step), id, row)
  {
    hide Inv, Settles, QueryFits;
    QuerySettles(sys, step, id);
    SettledKeepsRow(sys, step, id);
    StarterOnlyByOwnStep(sys, step, id);
  }

  lemma SettledKeepsRow(sys: Sys, step: Step, id: QueryId)
    requires Inv(sys) && Enabled(sys, step) && id.Uuid? && id in sys.rows && !sys.rows[id].IsPending()
    ensures RowOf(Apply(sys, step), id) == Some(sys.rows[id])
  {
    assert QueryFits(sys, id);
    QuerySettles(sys, step, id);
  }

  /** Only its own steps move a starter, and a restart forgets it. */
  lemma StarterOnlyByOwnStep(sys: Sys, step: Step, id: QueryId)
    requires Enabled(sys, step) && id in sys.rows
    ensures Target(sys, step) != Some(id) || step.Reply? || step.SetManual? || step.ClearManual? ==>
              StarterOf(Apply(sys, step), id) == if step.Restart? then None else StarterOf(sys, id)
  {}

  lemma {:induction false} LostRaceStays(sys: Sys, steps: seq<Step>, id: QueryId, row: Query)
    requires Inv(sys) && Runs(sys, steps) && id.Uuid? && LostRace(sys, id, row) && !row.IsPending()
    ensures LostRace(After(sys, steps), id, row)
    decreases |steps|
  {
    if |steps| > 0 {
      LostRaceStep(sys, steps[0], id, row);
      StepKeepsInv(sys, steps[0]);
      LostRaceStays(Apply(sys, steps[0]), steps[1..], id, row);
    }
  }

  /** Before `StartQuery` has recorded the outcome of its request: the send call still runs,
      the message is accepted but not marked, or the USSD answer is not stored yet. */
  predicate OutcomeOpen(p: Phase) {
    p.Calling? || p.Marking? || p.Completing?
  }

  /** Whoever ends a query before its own starter has recorded the outcome of the request, a
      reply or a sweep: the row stays as it is, and `StartQuery` can only return an error,
      with that row beside it (or no row, if reading it back fails in the database). */
  lemma EarlyEndMeansError(sys: Sys, steps: seq<Step>, id: QueryId)
    requires Inv(sys) && Runs(sys, steps) && id.Uuid? && id in sys.rows && !sys.rows[id].IsPending()
    requires id in sys.starters && OutcomeOpen(sys.starters[id].phase)
    ensures var now := After(sys, steps);
            && id in now.rows && now.rows[id] == sys.rows[id]
            && (id in now.starters && now.starters[id].phase.Returned? ==>
                  && now.starters[id].phase.failure.Some?
                  && now.starters[id].phase.row in {Some(sys.rows[id]), None})
  {
    LostRaceStays(sys, steps, id, sys.rows[id]);
  }

  /** A reply that comes before that, however early: the query stays completed with it, and
      yet the start is reported as failed. */
  lemma EarlyReplyStaysCompleted(sys: Sys, steps: seq<Step>, h: nat, parsed: Completion)
    requires Inv(sys) && Enabled(sys, Reply(h, Some(parsed)))
    requires var id := sys.handlers[h].id;
             PendingAt(sys.rows, id) && id in sys.starters && OutcomeOpen(sys.starters[id].phase)
    requires Runs(Apply(sys, Reply(h, Some(parsed))), steps)
    ensures var id := sys.handlers[h].id;
            var row := CompletedRow(sys.rows[id], parsed, sys.handlers[h].at);
            var now := After(Apply(sys, Reply(h, Some(parsed))), steps);
            && id in now.rows && now.rows[id] == row
            && row.state == Completed && row.completion == parsed && row.completedAt == Some(sys.handlers[h].at)
            && SameRequest(row, sys.rows[id])
            && (id in now.starters && now.starters[id].phase.Returned? ==>
                  now.starters[id].phase.failure.Some? && now.starters[id].phase.row in {Some(row), None})
  {
    var id := sys.handlers[h].id;
    assert HandlerFits(sys, h);
    StepKeepsInv(sys, Reply(h, Some(parsed)));
    EarlyEndMeansError(Apply(sys, Reply(h, Some(parsed))), steps, id);
  }
}
