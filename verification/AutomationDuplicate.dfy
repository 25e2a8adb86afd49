/** The run that recovery must not pick up: `RunNow` is let in as soon as `Start` has set
    `started`, so it can commit a run that recovery then finds queued as well. */
module AutomationDuplicate {
  import opened Common
  import opened Automation
  import opened AutomationProtocol
  import opened AutomationRuns

  const RUN := Run(0, "sim")
  const CALLER: nat := 2

  function PickedUp(): Sys {
    Sys(true, false, true, false, map[0 := RUN], 1, Lines(map[], [], [], []),
        map[CALLER := Producer(Manual, Ready, [RUN]), RECOVERY := Producer(Recovered, Ready, [RUN]),
            SCHEDULER := Producer(Scheduled, Waiting, [])], {0}, false)
  }

  function RanOnce(): Sys {
    Sys(true, false, true, false, map[], 1,
        Lines(map["sim" := []], [Loop("sim", Idle)], [Entry(RUN, Manual)], [Entry(RUN, Manual)]),
        map[CALLER := Producer(Manual, Ready, []), RECOVERY := Producer(Recovered, Ready, [RUN]),
            SCHEDULER := Producer(Scheduled, Waiting, [])], {0}, false)
  }

  lemma ReachesPickedUp()
    ensures Reaches(Begun(map[], 0), PickedUp())
  {
    var s0 := Begun(map[], 0);
    Stay(s0);
    var s1 := Apply(s0, RunNow(CALLER));
    Onward(s0, s0, RunNow(CALLER));
    assert FreshRuns(0, ["sim"]) == [RUN];
    assert Rows([RUN]) == map[0 := RUN];
    var s2 := Apply(s1, Commit(CALLER, "sim"));
    Onward(s0, s1, Commit(CALLER, "sim"));
    assert s2.queued == map[0 := RUN] && s2.known == {0};
    assert s2.producers == map[CALLER := Producer(Manual, Ready, [RUN])];
    Onward(s0, s2, Recover([RUN]));
    assert Carried(s2.producers, CALLER, RUN) && Handed(s2, 0);
    assert Apply(s2, Recover([RUN])) == PickedUp();
  }

  /** One way through a queue: registered, sent, received and executed. */
  function Line(phase: LoopPhase, accepted: seq<Entry>, executed: seq<Entry>): Lines {
    Lines(map["sim" := []], [Loop("sim", phase)], accepted, executed)
  }

  lemma PassThrough(lines: Lines, e: Entry)
    requires lines == Line(Idle, lines.accepted, lines.executed) && e.run == RUN
    ensures HasRoom(lines, "sim") && CanPull(Push(lines, e), 0)
    ensures Pull(Push(lines, e), 0) == Line(Received(e), lines.accepted + [e], lines.executed)
  {
    var pulled := Pull(Push(lines, e), 0);
    assert ([] + [e])[1..] == [];
    assert pulled.queues == map["sim" := []];
  }

  lemma Enqueues(start: Sys, sys: Sys, p: nat, e: Entry, open: Lines) returns (next: Sys)
    requires Reaches(start, sys) && sys.started && p in sys.producers
    requires sys.producers[p] == Producer(e.origin, Ready, [RUN]) && e.run == RUN
    requires Open(sys.lines, "sim") == open && HasRoom(open, "sim")
    ensures Reaches(start, next)
    ensures next == sys.(producers := sys.producers[p := Producer(e.origin, Ready, [])], lines := Push(open, e))
  {
    var s1 := Apply(sys, Register(p));
    Onward(start, sys, Register(p));
    assert s1.lines == open && s1.producers[p] == Producer(e.origin, AtChannel, [RUN]);
    next := Apply(s1, Send(p));
    Onward(start, s1, Send(p));
    assert [RUN][1..] == [];
    assert next.producers == sys.producers[p := Producer(e.origin, Ready, [])];
  }

  /** The run a producer is about to enqueue for an idle device gets executed. */
  lemma ExecutesNext(start: Sys, sys: Sys, p: nat, e: Entry, open: Lines) returns (next: Sys)
    requires Reaches(start, sys) && sys.started && !sys.cancelled && p in sys.producers
    requires sys.producers[p] == Producer(e.origin, Ready, [RUN]) && e.run == RUN
    requires Open(sys.lines, "sim") == open && open == Line(Idle, open.accepted, open.executed)
    ensures Reaches(start, next)
    ensures next == sys.(producers := sys.producers[p := Producer(e.origin, Ready, [])],
                         lines := Line(Executing(e), open.accepted + [e], open.executed + [e]))
  {
    PassThrough(open, e);
    var s2 := Enqueues(start, sys, p, e, open);
    var s3 := Apply(s2, Receive(0));
    Onward(start, s2, Receive(0));
    next := Apply(s3, Check(0));
    Onward(start, s3, Check(0));
  }

  lemma ReachesRunning() returns (running: Sys)
    ensures Reaches(Begun(map[], 0), running)
    ensures running == RanOnce().(queued := map[0 := RUN],
                                  lines := Line(Executing(Entry(RUN, Manual)),
                                               [Entry(RUN, Manual)], [Entry(RUN, Manual)]))
  {
    ReachesPickedUp();
    running := ExecutesNext(Begun(map[], 0), PickedUp(), CALLER, Entry(RUN, Manual), Line(Idle, [], []));
    assert running.producers == RanOnce().producers;
  }

  lemma ReachesRanOnce()
    ensures Reaches(Begun(map[], 0), RanOnce())
  {
    var s0 := Begun(map[], 0);
    var running := ReachesRunning();
    var marked := Apply(running, Mark(0));
    Onward(s0, running, Mark(0));
    assert marked.queued == map[];
    Onward(s0, marked, Finish(0));
    assert Apply(marked, Finish(0)) == RanOnce();
  }

  /** A session on an empty table in which one call of `RunNow` has its run executed twice,
      the second time although the table no longer holds it as queued. */
  lemma SameRunExecutedTwice()
    ensures exists now :: Reaches(Begun(map[], 0), now) && now.queued == map[]
              && now.lines.executed == [Entry(RUN, Manual), Entry(RUN, Recovered)]
  {
    var e := Entry(RUN, Recovered);
    ReachesRanOnce();
    var now := ExecutesNext(Begun(map[], 0), RanOnce(), RECOVERY, e, RanOnce().lines);
    assert now.lines.executed == [Entry(RUN, Manual), e];
  }
}
