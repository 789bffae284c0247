/**
 What becomes of a deleted worker's CR (handlers/worker.handler.go, DeleteWorker; handlers/jobs/worker.jobs.go,
 deleteWorkerCRJob): the row and the CR are deleted by steps of their own, and a deploy job under way can
 come between them.
 */
module DeployDeletion {
  import opened WorkerNames
  import opened Deploy
  import opened DeployInvariant
  import opened DeployTheorems

  // The worker existed; its row and its CR are gone.
  predicate Gone(s: Sys, w: nat) {
    w in s.born && w !in s.t.workers && NameOf(s, w) !in s.crs
  }

  // A job has read the worker's row and not written its CR yet.
  predicate AboutToWrite(s: Sys, w: nat) {
    exists p :: p in s.hands && s.hands[p].Loaded? && s.hands[p].w == w
  }

  lemma WritesItsName(s: Sys, p: nat)
    requires Inv(s) && p in s.hands && s.hands[p].Loaded?
    ensures var pc := s.hands[p];
            pc.w in s.born && WorkerName(pc.wid, pc.owner) == NameOf(s, pc.w)
  {
    hide Rows, Actives, Writers, AgreesFor, WorkerName;
    HandOk(s, p);
  }

  lemma StatementsKeepRows(t: Tables, v: nat, w: nat, status: VersionStatus, wid: string, mark: WorkerStatus)
    ensures MarkVersion(t, v, status).workers.Keys == t.workers.Keys
    ensures MarkWorker(t, wid, mark).workers.Keys == t.workers.Keys
    ensures Succeed(t, v, w).workers.Keys == t.workers.Keys
    ensures DeleteWorker(t, w).workers.Keys <= t.workers.Keys
  {
  }

  // Only creating a worker adds a row, and that gets an id of its own.
  lemma RowStaysGone(s: Sys, a: Action, w: nat)
    requires Rows(s) && w in s.born && w !in s.t.workers
    ensures var s' := Step(s, a);
            w in s'.born && s'.born[w] == s.born[w] && w !in s'.t.workers
  {
    hide Identified, MarkVersion, MarkWorker, Succeed, DeleteWorker, Busy, FreshWid, WorkerName;
    if Enabled(s, a) {
      match a
      case Create(_, _) =>
      case Submit(_, _, _, _) =>
      case Delete(x) => StatementsKeepRows(s.t, 0, x, VError, "", WError);
      case DeleteCR(_) =>
      case Take(_, _) =>
      case Load(_, _) =>
      case Write(_, _) =>
      case Commit(p, _) => StatementsKeepRows(s.t, s.hands[p].v, s.hands[p].w, VError, "", WError);
      case Fail(p, _) => StatementsKeepRows(s.t, s.hands[p].v, 0, VError, "", WError);
      case Mark(p, _) => StatementsKeepRows(s.t, 0, 0, VError, s.hands[p].wid, WError);
    }
  }

  lemma NoneReadsIt(s: Sys, a: Action, w: nat)
    requires w !in s.t.workers && !AboutToWrite(s, w)
    ensures !AboutToWrite(Step(s, a), w)
  {
    hide MarkVersion, MarkWorker, Succeed, DeleteWorker, InsertVersion, InsertWorker, Busy, FreshWid, WorkerName;
  }

  lemma CRsOnlyWritten(s: Sys, a: Action)
    ensures Step(s, a).crs.Keys <= s.crs.Keys +
              if a.Write? && Enabled(s, a) then {WorkerName(s.hands[a.p].wid, s.hands[a.p].owner)} else {}
  {
    hide MarkVersion, MarkWorker, Succeed, DeleteWorker, InsertVersion, InsertWorker, Busy, FreshWid, WorkerName;
  }

  lemma StepStaysGone(s: Sys, a: Action, w: nat)
    requires Inv(s) && Gone(s, w) && !AboutToWrite(s, w)
    ensures var s' := Step(s, a);
            Gone(s', w) && !AboutToWrite(s', w) && NameOf(s', w) == NameOf(s, w)
  {
    hide Rows, Actives, Jobs, Writers, AgreesFor, WorkerName, Inv, Step;
    RowsOf(s);
    RowStaysGone(s, a, w);
    NoneReadsIt(s, a, w);
    CRsOnlyWritten(s, a);
    if Enabled(s, a) && a.Write? {
      WritesItsName(s, a.p);
      NamesDiffer(s, w, s.hands[a.p].w);
    }
  }

  lemma RowsOf(s: Sys)
    requires Inv(s)
    ensures Rows(s)
  {
  }

  lemma {:induction false} StaysGone(s: Sys, more: seq<Action>, w: nat)
    requires Inv(s) && Gone(s, w) && !AboutToWrite(s, w)
    ensures Gone(Run(s, more), w) && NameOf(Run(s, more), w) == NameOf(s, w)
    decreases |more|
  {
    hide Step, Inv, AboutToWrite, NameOf;
    if more != [] {
      StepKeepsInv(s, more[0]);
      StepStaysGone(s, more[0], w);
      StaysGone(Step(s, more[0]), more[1..], w);
    }
  }

  lemma ComesBack(s: Sys, p: nat)
    requires Inv(s) && p in s.hands && s.hands[p].Loaded?
    ensures s.hands[p].w in s.born && NameOf(s, s.hands[p].w) in Run(s, [Write(p, true)]).crs
  {
    WritesItsName(s, p);
    assert Run(s, [Write(p, true)]) == Step(s, Write(p, true)) by {
      assert [Write(p, true)][1..] == [];
    }
  }

  // In any reachable state, with any number of pool workers: a worker whose row and CR are gone keeps no CR,
  // whatever happens next, if and only if no job has read its row and is yet to write its CR.
  lemma GoneForGoodIff(poolSize: nat, acts: seq<Action>, w: nat)
    ensures var s := Run(Init(poolSize), acts);
            Gone(s, w) ==>
              ((forall more :: NameOf(s, w) !in Run(s, more).crs) <==> !AboutToWrite(s, w))
  {
    InitInv(poolSize);
    RunKeepsInv(Init(poolSize), acts);
    var s := Run(Init(poolSize), acts);
    if Gone(s, w) {
      if AboutToWrite(s, w) {
        var p :| p in s.hands && s.hands[p].Loaded? && s.hands[p].w == w;
        ComesBack(s, p);
      } else {
        forall more ensures NameOf(s, w) !in Run(s, more).crs {
          StaysGone(s, more, w);
        }
      }
    }
  }

  // So with one pool worker, which runs no other job while it deletes the CR, a CR deleted after the row is
  // gone for good.
  lemma SerialDeleteIsFinal(poolSize: nat, acts: seq<Action>, w: nat, more: seq<Action>)
    ensures var s := Run(Init(poolSize), acts);
            w in s.born && w !in s.t.workers && s.hands == map[] ==>
              NameOf(s, w) !in Run(Step(s, DeleteCR(NameOf(s, w))), more).crs
  {
    InitInv(poolSize);
    RunKeepsInv(Init(poolSize), acts);
    var s := Run(Init(poolSize), acts);
    if w in s.born && w !in s.t.workers && s.hands == map[] {
      var s' := Step(s, DeleteCR(NameOf(s, w)));
      StepKeepsInv(s, DeleteCR(NameOf(s, w)));
      StaysGone(s', more, w);
    }
  }

  // The handler sends the job before it deletes the row. Even with one pool worker, a deploy accepted after
  // that job and before the row is deleted runs after the deletion of the CR and writes it again; the row is
  // deleted then, and the CR outlives its worker.
  lemma EarlyDeleteLeavesCR(poolSize: nat, acts: seq<Action>, v: nat) returns (s': Sys)
    requires var s := Run(Init(poolSize), acts);
             s.hands == map[] && poolSize > 0 && v in s.submitted && v in s.t.versions
    ensures var s, ok := Run(Init(poolSize), acts), JobEnv(true, true, true, true, true);
            var w := s.t.versions[v].worker;
            && w in s.born
            && s' == Step(Alone(Step(Step(s, DeleteCR(NameOf(s, w))), Take(0, v)), 0, ok), Delete(w))
            && s'.hands == map[] && w !in s'.t.workers && NameOf(s, w) in s'.crs
  {
    InitInv(poolSize);
    RunKeepsInv(Init(poolSize), acts);
    KeepsPoolSize(Init(poolSize), acts);
    var s := Run(Init(poolSize), acts);
    RowsOf(s);
    s' := DeployBetween(s, v, s.t.versions[v].worker);
  }

  lemma {:induction false} KeepsPoolSize(s: Sys, acts: seq<Action>)
    ensures Run(s, acts).poolSize == s.poolSize
    decreases |acts|
  {
    if acts != [] {
      StepKeepsPoolSize(s, acts[0]);
      KeepsPoolSize(Step(s, acts[0]), acts[1..]);
    }
  }

  lemma StepKeepsPoolSize(s: Sys, a: Action)
    ensures Step(s, a).poolSize == s.poolSize
  {
    hide MarkVersion, MarkWorker, Succeed, DeleteWorker, InsertVersion, InsertWorker, Busy, FreshWid, WorkerName;
  }

  lemma DeployBetween(s: Sys, v: nat, w: nat) returns (s': Sys)
    requires Rows(s) && s.hands == map[] && s.poolSize > 0 && v in s.submitted && v in s.t.versions
    requires s.t.versions[v].worker == w && w in s.t.workers
    ensures var ok := JobEnv(true, true, true, true, true);
            s' == Step(Alone(Step(Step(s, DeleteCR(NameOf(s, w))), Take(0, v)), 0, ok), Delete(w))
    ensures s'.hands == map[] && w !in s'.t.workers && NameOf(s, w) in s'.crs
  {
    var ok := JobEnv(true, true, true, true, true);
    var s1 := Step(Step(s, DeleteCR(NameOf(s, w))), Take(0, v));
    DeletedThenTaken(s, v, NameOf(s, w));
    AloneIsJob(s1, 0, v, ok);
    var s2 := Alone(s1, 0, ok);
    assert s1.hands - {0} == map[];
    s' := Step(s2, Delete(w));
    assert w in s2.t.workers;
  }

  lemma DeletedThenTaken(s: Sys, v: nat, n: string)
    requires Rows(s) && s.hands == map[] && s.poolSize > 0 && v in s.submitted && v in s.t.versions
    ensures var s1 := Step(Step(s, DeleteCR(n)), Take(0, v));
            s1.hands == map[0 := Start(v)] && s1.t == s.t && s1.born == s.born
  {
    hide Identified;
  }
}
