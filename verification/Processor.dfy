/**
 The job processor (k8s/processor.go): a bounded FIFO channel filled by Submit and drained by a fixed
 number of worker goroutines until it is closed and empty. Any schedule; a job is whatever a ticket
 stands for, tickets being numbered in the order jobs are accepted.
 */
module Processor {
  import opened Lists

  datatype State = State(
    capacity: nat,              // the channel's buffer size
    poolSize: nat,
    queue: seq<nat>,            // the channel's buffer
    hands: map<nat, nat>,       // the ticket each busy worker executes
    started: seq<nat>,          // in the order workers received them
    finished: seq<nat>,
    accepted: nat,              // tickets handed out
    closed: bool)

  datatype Action =
    | Submit            // a send into the buffer
    | HandOver(w: nat)  // a send straight to a waiting worker, the only kind without a buffer
    | Receive(w: nat)
    | Finish(w: nat)    // job.Do returns, with an error or without
    | Close

  // A send to a closed channel and a second close panic; they are not steps of the processor.
  predicate Enabled(s: State, a: Action) {
    match a
    case Submit => !s.closed && |s.queue| < s.capacity
    case HandOver(w) => !s.closed && s.queue == [] && w < s.poolSize && w !in s.hands
    case Receive(w) => s.queue != [] && w < s.poolSize && w !in s.hands
    case Finish(w) => w in s.hands
    case Close => !s.closed
  }

  function Step(s: State, a: Action): State {
    if !Enabled(s, a) then s
    else
      match a
      case Submit => s.(queue := s.queue + [s.accepted], accepted := s.accepted + 1)
      case HandOver(w) =>
        s.(hands := s.hands[w := s.accepted], started := s.started + [s.accepted], accepted := s.accepted + 1)
      case Receive(w) =>
        s.(queue := s.queue[1..], hands := s.hands[w := s.queue[0]], started := s.started + [s.queue[0]])
      case Finish(w) => s.(hands := s.hands - {w}, finished := s.finished + [s.hands[w]])
      case Close => s.(closed := true)
  }

  function Init(capacity: nat, poolSize: nat): State {
    State(capacity, poolSize, [], map[], [], [], 0, false)
  }

  function Run(s: State, acts: seq<Action>): State
    decreases |acts|
  {
    if acts == [] then s else Run(Step(s, acts[0]), acts[1..])
  }

  predicate Executing(s: State, t: nat) {
    exists w :: w in s.hands && s.hands[w] == t
  }

  ghost predicate Inv(s: State) {
    // started and queued tickets, in that order, are all tickets in the order of acceptance
    && |s.started| + |s.queue| == s.accepted
    && (forall i :: 0 <= i < |s.started| ==> s.started[i] == i)
    && (forall i :: 0 <= i < |s.queue| ==> s.queue[i] == |s.started| + i)
    && |s.queue| <= s.capacity
    && (forall w :: w in s.hands ==> w < s.poolSize)
    // what was started is being executed or finished, and not both
    && (forall t :: 0 <= t < |s.started| ==> (Executing(s, t) <==> t !in s.finished))
    && (forall w :: w in s.hands ==> s.hands[w] < |s.started|)
    && (forall v, w :: v in s.hands && w in s.hands && s.hands[v] == s.hands[w] ==> v == w)
    && (forall t :: t in s.finished ==> t < |s.started|)
    && Distinct(s.finished)
  }

  lemma StepKeepsInv(s: State, a: Action)
    requires Inv(s)
    ensures Inv(Step(s, a))
  {
    if Enabled(s, a) {
      match a
      case Submit =>
      case HandOver(w) => StartKeepsInv(s, w, Step(s, a));
      case Receive(w) => StartKeepsInv(s, w, Step(s, a));
      case Finish(w) => FinishKeepsInv(s, w);
      case Close =>
    }
  }

  // The next ticket goes to an idle worker.
  lemma StartKeepsInv(s: State, w: nat, s': State)
    requires Inv(s) && w < s.poolSize && w !in s.hands
    requires s' == s.(queue := s'.queue, hands := s.hands[w := |s.started|],
                      started := s.started + [|s.started|], accepted := s'.accepted)
    requires s'.queue == (if s.queue == [] then [] else s.queue[1..])
    requires s'.accepted == |s'.started| + |s'.queue|
    ensures Inv(s')
  {
    forall t | 0 <= t < |s'.started| ensures Executing(s', t) <==> t !in s'.finished {
      if t == |s.started| {
        assert s'.hands[w] == t;
      } else if Executing(s, t) {
        var v :| v in s.hands && s.hands[v] == t;
        assert s'.hands[v] == t;
      }
    }
  }

  lemma FinishKeepsInv(s: State, w: nat)
    requires Inv(s) && w in s.hands
    ensures Inv(Step(s, Finish(w)))
  {
    var s' := Step(s, Finish(w));
    assert Executing(s, s.hands[w]);
    forall t | 0 <= t < |s'.started| ensures Executing(s', t) <==> t !in s'.finished {
      if Executing(s, t) && t != s.hands[w] {
        var v :| v in s.hands && s.hands[v] == t;
        assert s'.hands[v] == t;
      }
    }
  }

  lemma {:induction false} RunKeepsInv(s: State, acts: seq<Action>)
    requires Inv(s)
    ensures Inv(Run(s, acts))
    ensures Run(s, acts).capacity == s.capacity && Run(s, acts).poolSize == s.poolSize
    decreases |acts|
  {
    if acts != [] {
      StepKeepsInv(s, acts[0]);
      RunKeepsInv(Step(s, acts[0]), acts[1..]);
    }
  }

  // Every accepted job is in exactly one place: the queue, one worker's hands, or done, once.
  lemma JobsConserved(capacity: nat, poolSize: nat, acts: seq<Action>, t: nat)
    ensures var s := Run(Init(capacity, poolSize), acts);
            && |s.queue| <= capacity && |s.hands| <= poolSize
            && (t < s.accepted ==>
                  && (t in s.queue <==> !Executing(s, t) && t !in s.finished)
                  && !(Executing(s, t) && t in s.finished))
            && (t >= s.accepted ==> t !in s.queue && !Executing(s, t) && t !in s.finished)
            && (forall v, w :: v in s.hands && w in s.hands && v != w ==> s.hands[v] != s.hands[w])
            && Distinct(s.queue) && Distinct(s.finished)
  {
    RunKeepsInv(Init(capacity, poolSize), acts);
    var s := Run(Init(capacity, poolSize), acts);
    HandsBounded(s.hands.Keys, poolSize);
    if t < s.accepted {
      if t >= |s.started| {
        assert s.queue[t - |s.started|] == t;
      }
    }
  }

  lemma {:induction false} HandsBounded(busy: set<nat>, n: nat)
    requires forall w :: w in busy ==> w < n
    ensures |busy| <= n
    decreases n
  {
    if n == 0 {
      assert busy == {};
    } else {
      HandsBounded(busy - {n - 1}, n - 1);
      assert busy <= busy - {n - 1} + {n - 1};
      assert |busy| <= |busy - {n - 1}| + 1;
    }
  }

  // Jobs are started in the order they were accepted.
  lemma StartedInOrder(capacity: nat, poolSize: nat, acts: seq<Action>)
    ensures var s := Run(Init(capacity, poolSize), acts);
            s.started + s.queue == seq(s.accepted, i => i)
  {
    RunKeepsInv(Init(capacity, poolSize), acts);
  }

  // A job can be submitted, before Close, exactly if the buffer has room or is empty while a worker waits.
  lemma AcceptsExactly(capacity: nat, poolSize: nat, acts: seq<Action>)
    ensures var s := Run(Init(capacity, poolSize), acts);
            (exists a :: Step(s, a).accepted == s.accepted + 1) <==>
            !s.closed && (|s.queue| < capacity || (s.queue == [] && exists w: nat :: w < poolSize && w !in s.hands))
  {
    RunKeepsInv(Init(capacity, poolSize), acts);
    var s := Run(Init(capacity, poolSize), acts);
    if !s.closed && |s.queue| < capacity {
      assert Step(s, Submit).accepted == s.accepted + 1;
    } else if !s.closed && s.queue == [] {
      if w: nat :| w < poolSize && w !in s.hands {
        assert Step(s, HandOver(w)).accepted == s.accepted + 1;
      }
    }
  }

  // --- After Close ---

  predicate WorkerStep(a: Action) {
    a.Receive? || a.Finish?
  }

  ghost predicate Stuck(s: State) {
    forall a :: WorkerStep(a) ==> !Enabled(s, a)
  }

  function Remaining(s: State): nat {
    2 * |s.queue| + |s.hands|
  }

  // Workers make only so many steps by themselves.
  lemma WorkersProgress(s: State, a: Action)
    requires WorkerStep(a) && Enabled(s, a)
    ensures Remaining(Step(s, a)) == Remaining(s) - 1
  {
    match a
    case Receive(w) => assert s.hands[w := s.queue[0]].Keys == s.hands.Keys + {w};
    case Finish(w) =>
      assert (s.hands - {w}).Keys == s.hands.Keys - {w};
      assert |(s.hands - {w}).Keys| == |s.hands.Keys| - 1;
  }

  // When no worker can go on, every accepted job has been executed exactly once, if there are workers
  // at all; without workers this is so only if nothing waits in the queue.
  lemma StuckMeansExecuted(capacity: nat, poolSize: nat, acts: seq<Action>)
    requires Stuck(Run(Init(capacity, poolSize), acts))
    ensures var s := Run(Init(capacity, poolSize), acts);
            && ((forall t :: 0 <= t < s.accepted ==> t in s.finished) <==> poolSize > 0 || s.queue == [])
            && Distinct(s.finished)
  {
    var s := Run(Init(capacity, poolSize), acts);
    RunKeepsInv(Init(capacity, poolSize), acts);
    assert s.hands == map[] by {
      if w :| w in s.hands {
        assert Enabled(s, Finish(w));
      }
    }
    if poolSize > 0 {
      assert !Enabled(s, Receive(0));
    } else if s.queue != [] {
      assert s.queue[0] < s.accepted && s.queue[0] !in s.finished;
    }
  }

  // Closing takes nothing away: the queue is drained by the workers' own steps, and every job accepted
  // before the Close is then executed exactly once.
  lemma DrainsAfterClose(s: State) returns (acts: seq<Action>)
    requires Inv(s) && s.poolSize > 0
    ensures forall i :: 0 <= i < |acts| ==> WorkerStep(acts[i])
    ensures |acts| == Remaining(s)
    ensures var s' := Run(s, acts);
            Stuck(s') && s'.accepted == s.accepted && s'.closed == s.closed
    decreases Remaining(s), 1
  {
    if w :| w in s.hands {
      acts := DrainFrom(s, Finish(w));
    } else if s.queue != [] {
      acts := DrainFrom(s, Receive(0));
    } else {
      acts := [];
    }
  }

  lemma DrainFrom(s: State, a: Action) returns (acts: seq<Action>)
    requires Inv(s) && s.poolSize > 0 && WorkerStep(a) && Enabled(s, a)
    ensures forall i :: 0 <= i < |acts| ==> WorkerStep(acts[i])
    ensures |acts| == Remaining(s)
    ensures var s' := Run(s, acts);
            Stuck(s') && s'.accepted == s.accepted && s'.closed == s.closed
    decreases Remaining(s), 0
  {
    WorkersProgress(s, a);
    StepKeepsInv(s, a);
    var rest := DrainsAfterClose(Step(s, a));
    acts := [a] + rest;
    assert acts[1..] == rest;
  }

  lemma {:induction false} RunConcat(s: State, a: seq<Action>, b: seq<Action>)
    ensures Run(s, a + b) == Run(Run(s, a), b)
    decreases |a|
  {
    if a == [] {
      assert a + b == b;
    } else {
      assert (a + b)[1..] == a[1..] + b;
      RunConcat(Step(s, a[0]), a[1..], b);
    }
  }

  lemma EveryJobExecuted(capacity: nat, poolSize: nat, acts: seq<Action>) returns (more: seq<Action>)
    requires poolSize > 0
    ensures forall i :: 0 <= i < |more| ==> WorkerStep(more[i])
    ensures var s, s' := Run(Init(capacity, poolSize), acts), Run(Init(capacity, poolSize), acts + more);
            && |more| == Remaining(s) && s'.accepted == s.accepted && s'.queue == [] && s'.hands == map[]
            && Distinct(s'.finished) && forall t :: 0 <= t < s.accepted ==> t in s'.finished
  {
    RunKeepsInv(Init(capacity, poolSize), acts);
    more := DrainsAfterClose(Run(Init(capacity, poolSize), acts));
    RunConcat(Init(capacity, poolSize), acts, more);
    StuckMeansExecuted(capacity, poolSize, acts + more);
    var s' := Run(Init(capacity, poolSize), acts + more);
    RunKeepsInv(Init(capacity, poolSize), acts + more);
    assert !Enabled(s', Receive(0));
    assert forall w :: w in s'.hands ==> Enabled(s', Finish(w));
    assert s'.hands == map[];
  }
}
