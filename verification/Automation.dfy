/** Automatic tasks: one queue and one worker loop per device, filled by the recovery of
    old runs, by the scheduler and by callers of `RunNow`. One session, from `Start` to
    `Stop`; a step per locked section, database statement or channel operation. */
module Automation {
  import opened Common

  const QUEUE_SIZE: nat := 100

  datatype Run = Run(id: nat, device: string)

  datatype Origin = Recovered | Scheduled | Manual

  datatype Entry = Entry(run: Run, origin: Origin)

  type Queues = map<string, seq<Entry>>

  function Opened(queues: Queues, device: string): Queues {
    if device in queues then queues else queues[device := []]
  }

  // -------------------------------------------------------- the service's fields

  class Channel {
    var items: seq<Entry>

    constructor ()
      ensures items == []
    {
      items := [];
    }

    method TrySend(e: Entry) returns (sent: bool)
      modifies this
      ensures sent == (|old(items)| < QUEUE_SIZE)
      ensures items == if sent then old(items) + [e] else old(items)
    {
      sent := |items| < QUEUE_SIZE;
      if sent {
        items := items + [e];
      }
    }

    method TryReceive() returns (e: Option<Entry>)
      modifies this
      ensures e == if old(items) == [] then None else Some(old(items)[0])
      ensures items == if old(items) == [] then [] else old(items)[1..]
    {
      if items == [] {
        return None;
      }
      e := Some(items[0]);
      items := items[1..];
    }
  }

  class Service {
    var started: bool
    var queues: map<string, Channel>
    /** The device of every loop started in this session, in order. */
    ghost var spawned: seq<string>

    ghost predicate Valid()
      reads this
    {
      && (forall a, b :: a in queues && b in queues && queues[a] == queues[b] ==> a == b)
      && (forall d :: d in queues <==> d in spawned)
      && (forall i, j :: 0 <= i < j < |spawned| ==> spawned[i] != spawned[j])
    }

    ghost function Contents(): Queues
      reads this, queues.Values
    {
      map d | d in queues :: queues[d].items
    }

    constructor ()
      ensures Valid() && !started && queues == map[]
    {
      started, queues, spawned := false, map[], [];
    }

    /** The locked part of `Start`; false when the service was started already. */
    method Begin() returns (begun: bool)
      requires Valid()
      modifies this
      ensures Valid() && started && begun == !old(started)
      ensures if begun then queues == map[] && spawned == [] else queues == old(queues) && spawned == old(spawned)
    {
      begun := !started;
      if begun {
        started, queues, spawned := true, map[], [];
      }
    }

    method End() returns (wasStarted: bool)
      requires Valid()
      modifies this
      ensures Valid() && !started && wasStarted == old(started)
      ensures queues == old(queues) && spawned == old(spawned)
    {
      wasStarted := started;
      started := false;
    }

    /** The locked part of `enqueue`: find or make the device's queue, and start its loop
        together with it. Nothing is sent under the lock. */
    method Register(device: string) returns (queue: Option<Channel>)
      requires Valid()
      modifies this
      ensures Valid() && started == old(started)
      ensures queue.Some? == started
      ensures !started ==> queues == old(queues) && spawned == old(spawned)
      ensures started ==> device in queues && queues[device] == queue.value
                          && Contents() == Opened(old(Contents()), device)
                          && spawned == if device in old(queues) then old(spawned) else old(spawned) + [device]
    {
      if !started {
        return None;
      }
      if device !in queues {
        var channel := new Channel();
        assert forall d :: d in queues ==> queues[d] != channel;
        queues := queues[device := channel];
        spawned := spawned + [device];
      }
      return Some(queues[device]);
    }
  }

  // ------------------------------------------------------------- retried attempts

  datatype Attempt = Success(output: string) | Transient(output: string) | Permanent(output: string)

  /** `attempt` is followed by another: it failed in a retryable way, retries are left,
      and the pause after it was not cut short by `Stop`. */
  predicate GoesOn(attempts: seq<Attempt>, pauses: seq<bool>, retryCount: int, attempt: nat)
    requires 1 <= attempt <= |attempts| && |pauses| == |attempts|
  {
    attempts[attempt - 1].Transient? && attempt <= retryCount && pauses[attempt - 1]
  }

  datatype Ending = Ending(attempts: nat, output: string, failed: bool, stopped: bool)

  /** `attempts[k]` is what attempt `k + 1` would bring and `pauses[k]` whether the pause
      after it runs to its end. */
  method ExecuteAttempts(retryCount: int, attempts: seq<Attempt>, pauses: seq<bool>) returns (r: Ending)
    requires |attempts| == |pauses| && retryCount < |attempts|
    ensures r.attempts == 0 <==> retryCount < 0
    ensures r.attempts == 0 ==> r == Ending(0, "", false, false)
    ensures r.attempts > 0 ==>
              && r.attempts <= retryCount + 1
              && (forall k :: 1 <= k < r.attempts ==> GoesOn(attempts, pauses, retryCount, k))
              && !GoesOn(attempts, pauses, retryCount, r.attempts)
              && (forall k :: 0 <= k < r.attempts - 1 ==> attempts[k].Transient? && pauses[k])
              && (attempts[r.attempts - 1].Transient? ==> r.attempts == retryCount + 1 || !pauses[r.attempts - 1])
              && r.output == attempts[r.attempts - 1].output
              && r.failed == !attempts[r.attempts - 1].Success?
              && r.stopped == (attempts[r.attempts - 1].Transient? && r.attempts <= retryCount)
  {
    var attempt := 1;
    r := Ending(0, "", false, false);
    while attempt <= retryCount + 1
      invariant 1 <= attempt && r.attempts == attempt - 1 && attempt <= if retryCount < 0 then 1 else retryCount + 1
      invariant attempt == 1 ==> r == Ending(0, "", false, false)
      invariant forall k :: 1 <= k < attempt ==> GoesOn(attempts, pauses, retryCount, k)
      invariant forall k :: 0 <= k < attempt - 1 ==> attempts[k].Transient? && pauses[k]
      decreases retryCount + 1 - attempt
    {
      var outcome := attempts[attempt - 1];
      r := Ending(attempt, outcome.output, !outcome.Success?, false);
      if outcome.Success? || outcome.Permanent? || attempt > retryCount {
        break;
      }
      if !pauses[attempt - 1] {
        return r.(stopped := true);
      }
      attempt := attempt + 1;
    }
  }
}
