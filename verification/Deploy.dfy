/**
 The deploy pipeline: the workers and worker_deploy_versions tables (dblayer/worker.actions.go,
 scripts/init.sql), the deploy job cut at each of its calls (handlers/jobs/worker.jobs.go), and pool
 workers that take submitted jobs in any order and run them in any interleaving. CRs are represented by
 the image and port of their spec; they can be deleted at any moment.
 */
module Deploy {
  import opened Common
  import opened WorkerNames

  datatype VersionStatus = VLoading | VSuccess | VError
  datatype WorkerStatus = WUnloaded | WLoading | WActive | WError

  datatype Worker = Worker(wid: string, owner: string, status: WorkerStatus, active: Option<nat>)
  datatype Version = Version(worker: nat, image: string, port: int, status: VersionStatus)

  datatype Tables = Tables(workers: map<nat, Worker>, versions: map<nat, Version>, nextWorker: nat, nextVersion: nat)

  datatype Image = Image(image: string, port: int)

  // --- The statements ---

  function InsertWorker(t: Tables, wid: string, owner: string): Tables {
    t.(workers := t.workers[t.nextWorker := Worker(wid, owner, WUnloaded, None)], nextWorker := t.nextWorker + 1)
  }

  // CreateDeployVersionForOwner, for the worker row w its UPDATE finds.
  function InsertVersion(t: Tables, w: nat, image: string, port: int): Tables
    requires w in t.workers
  {
    t.(workers := t.workers[w := t.workers[w].(status := WLoading)],
       versions := t.versions[t.nextVersion := Version(w, image, port, VLoading)],
       nextVersion := t.nextVersion + 1)
  }

  function MarkVersion(t: Tables, v: nat, status: VersionStatus): Tables {
    if v !in t.versions then t else t.(versions := t.versions[v := t.versions[v].(status := status)])
  }

  function MarkWorker(t: Tables, wid: string, status: WorkerStatus): Tables {
    t.(workers := map w | w in t.workers ::
                    if t.workers[w].wid == wid then t.workers[w].(status := status) else t.workers[w])
  }

  // DeployVersionSuccess: either UPDATE may find no row.
  function Succeed(t: Tables, v: nat, w: nat): Tables {
    var u := MarkVersion(t, v, VSuccess);
    if w !in u.workers then u
    else u.(workers := u.workers[w := u.workers[w].(active := Some(v), status := WActive)])
  }

  // DELETE FROM workers, with the cascade to the worker's versions.
  function DeleteWorker(t: Tables, w: nat): Tables {
    t.(workers := t.workers - {w}, versions := map v | v in t.versions && t.versions[v].worker != w :: t.versions[v])
  }

  // How the calls of one deploy job go.
  datatype JobEnv = JobEnv(load: bool, write: bool, commit: bool, markVersion: bool, markWorker: bool)

  // What deployWorkerJob.Do makes of tables and CRs.
  function JobResult(t: Tables, crs: map<string, Image>, v: nat, env: JobEnv): (Tables, map<string, Image>) {
    var marked := if env.markVersion then MarkVersion(t, v, VError) else t;
    if !env.load || v !in t.versions || t.versions[v].worker !in t.workers then (marked, crs)
    else
      var w := t.versions[v].worker;
      var worker := t.workers[w];
      if env.write then
        (if env.commit then Succeed(t, v, w) else t,
         crs[WorkerName(worker.wid, worker.owner) := Image(t.versions[v].image, t.versions[v].port)])
      else (if env.markWorker then MarkWorker(marked, worker.wid, WError) else marked, crs)
  }

  // --- The job, between its calls ---

  datatype Pc =
    | Start(v: nat)
    | Loaded(v: nat, w: nat, wid: string, owner: string, image: Image)
    | LoadFailed(v: nat)
    | Written(v: nat, w: nat)
    | WriteFailed(v: nat, wid: string)
    | Marking(wid: string)

  datatype Sys = Sys(
    t: Tables,
    crs: map<string, Image>,
    submitted: set<nat>,                // versions whose job waits in the queue
    hands: map<nat, Pc>,                // what each busy pool worker is at
    poolSize: nat,
    born: map<nat, (string, string)>,   // history: id and owner of every worker row ever
    made: map<nat, Version>,            // history: every version row as inserted
    writer: map<string, nat>,           // history: the version whose job last wrote each CR
    spoiled: set<nat>)                  // history: workers with overlapping jobs or a failed success transaction

  datatype Action =
    | Create(wid: string, owner: string)
    | Submit(w: nat, image: string, port: int, sent: bool)   // DeployWorker; sent: SendTask got through
    | Delete(w: nat)
    | DeleteCR(name: string)
    | Take(p: nat, v: nat)
    | Load(p: nat, ok: bool)
    | Write(p: nat, ok: bool)
    | Commit(p: nat, ok: bool)
    | Fail(p: nat, ok: bool)                                  // UpdateDeployVersionStatus "error"
    | Mark(p: nat, ok: bool)                                  // UpdateWorkerStatus "error"

  predicate FreshWid(s: Sys, wid: string) {
    DashFree(wid) && forall w :: w in s.born ==> s.born[w].0 != wid
  }

  predicate Enabled(s: Sys, a: Action) {
    match a
    case Create(wid, _) => FreshWid(s, wid)
    case Submit(w, _, _, _) => w in s.t.workers
    case Delete(w) => w in s.t.workers
    case DeleteCR(_) => true
    case Take(p, v) => p < s.poolSize && p !in s.hands && v in s.submitted && v in s.made
    case Load(p, _) => p in s.hands && s.hands[p].Start?
    case Write(p, _) => p in s.hands && s.hands[p].Loaded?
    case Commit(p, _) => p in s.hands && s.hands[p].Written?
    case Fail(p, _) => p in s.hands && (s.hands[p].LoadFailed? || s.hands[p].WriteFailed?)
    case Mark(p, _) => p in s.hands && s.hands[p].Marking?
  }

  // The job a pool worker runs is for worker row w.
  predicate About(s: Sys, pc: Pc, w: nat) {
    !pc.Marking? && pc.v in s.made && s.made[pc.v].worker == w
  }

  predicate Busy(s: Sys, w: nat) {
    exists p :: p in s.hands && About(s, s.hands[p], w)
  }

  function Hand(s: Sys, p: nat, pc: Pc): Sys {
    s.(hands := s.hands[p := pc])
  }

  function Done(s: Sys, p: nat): Sys {
    s.(hands := s.hands - {p})
  }

  function SubmitStep(s: Sys, w: nat, image: string, port: int, sent: bool): Sys
    requires w in s.t.workers
  {
    var v := s.t.nextVersion;
    s.(t := InsertVersion(s.t, w, image, port), made := s.made[v := Version(w, image, port, VLoading)],
       submitted := if sent then s.submitted + {v} else s.submitted)
  }

  function TakeStep(s: Sys, p: nat, v: nat): Sys
    requires v in s.made
  {
    var w := s.made[v].worker;
    Hand(s.(submitted := s.submitted - {v}, spoiled := if Busy(s, w) then s.spoiled + {w} else s.spoiled), p, Start(v))
  }

  // GetDeployVersionWithWorker finds the version with its worker, or no row, or fails.
  function LoadStep(s: Sys, p: nat, v: nat, ok: bool): Sys {
    if ok && v in s.t.versions && s.t.versions[v].worker in s.t.workers then
      var row := s.t.versions[v];
      var worker := s.t.workers[row.worker];
      Hand(s, p, Loaded(v, row.worker, worker.wid, worker.owner, Image(row.image, row.port)))
    else Hand(s, p, LoadFailed(v))
  }

  function WriteStep(s: Sys, p: nat, pc: Pc, ok: bool): Sys
    requires pc.Loaded?
  {
    var name := WorkerName(pc.wid, pc.owner);
    if ok then Hand(s.(crs := s.crs[name := pc.image], writer := s.writer[name := pc.v]), p, Written(pc.v, pc.w))
    else Hand(s, p, WriteFailed(pc.v, pc.wid))
  }

  function CommitStep(s: Sys, p: nat, pc: Pc, ok: bool): Sys
    requires pc.Written?
  {
    Done(if ok then s.(t := Succeed(s.t, pc.v, pc.w)) else s.(spoiled := s.spoiled + {pc.w}), p)
  }

  function FailStep(s: Sys, p: nat, pc: Pc, ok: bool): Sys
    requires pc.LoadFailed? || pc.WriteFailed?
  {
    var u := if ok then s.(t := MarkVersion(s.t, pc.v, VError)) else s;
    if pc.LoadFailed? then Done(u, p) else Hand(u, p, Marking(pc.wid))
  }

  function Step(s: Sys, a: Action): Sys {
    if !Enabled(s, a) then s
    else
      match a
      case Create(wid, owner) =>
        s.(t := InsertWorker(s.t, wid, owner), born := s.born[s.t.nextWorker := (wid, owner)])
      case Submit(w, image, port, sent) => SubmitStep(s, w, image, port, sent)
      case Delete(w) => s.(t := DeleteWorker(s.t, w))
      case DeleteCR(name) => s.(crs := s.crs - {name})
      case Take(p, v) => TakeStep(s, p, v)
      case Load(p, ok) => LoadStep(s, p, s.hands[p].v, ok)
      case Write(p, ok) => WriteStep(s, p, s.hands[p], ok)
      case Commit(p, ok) => CommitStep(s, p, s.hands[p], ok)
      case Fail(p, ok) => FailStep(s, p, s.hands[p], ok)
      case Mark(p, ok) => Done(if ok then s.(t := MarkWorker(s.t, s.hands[p].wid, WError)) else s, p)
  }

  function Init(poolSize: nat): Sys {
    Sys(Tables(map[], map[], 1, 1), map[], {}, map[], poolSize, map[], map[], map[], {})
  }

  function Run(s: Sys, acts: seq<Action>): Sys
    decreases |acts|
  {
    if acts == [] then s else Run(Step(s, acts[0]), acts[1..])
  }

  function NameOf(s: Sys, w: nat): string
    requires w in s.born
  {
    WorkerName(s.born[w].0, s.born[w].1)
  }

  function ImageOf(v: Version): Image {
    Image(v.image, v.port)
  }

  /** The tables with their statements, and the deploy job that uses them together with the CRs. */
  class ControlPlane {
    var workers: map<nat, Worker>
    var versions: map<nat, Version>
    var nextWorker: nat
    var nextVersion: nat
    var crs: map<string, Image>

    ghost function View(): Tables reads this {
      Tables(workers, versions, nextWorker, nextVersion)
    }

    // One transaction: the ownership check that marks the worker, and the new row. The id drawn from the
    // sequence is not given back when the transaction is rolled back.
    method CreateDeployVersionForOwner(wid: string, owner: string, image: string, port: int,
                                       insertOk: bool, commitOk: bool)
      returns (id: Option<nat>)
      modifies this`workers, this`versions, this`nextVersion
      ensures id.None? ==> workers == old(workers) && versions == old(versions) && nextVersion >= old(nextVersion)
      ensures id.None? <==> !insertOk || !commitOk ||
                            forall w :: w in old(workers) ==>
                                          old(workers)[w].wid != wid || old(workers)[w].owner != owner
      ensures id.Some? ==> exists w :: w in old(workers) && old(workers)[w].wid == wid && old(workers)[w].owner == owner
                                       && id.value == old(nextVersion)
                                       && View() == InsertVersion(old(View()), w, image, port)
                                       && workers == old(workers)[w := old(workers)[w].(status := WLoading)]
                                       && versions == old(versions)[id.value := Version(w, image, port, VLoading)]
    {
      var rollbackWorkers, rollbackVersions := workers, versions;
      if w :| w in workers && workers[w].wid == wid && workers[w].owner == owner {
        workers := workers[w := workers[w].(status := WLoading)];
        var v := nextVersion;
        nextVersion := nextVersion + 1;
        if insertOk {
          versions := versions[v := Version(w, image, port, VLoading)];
          if commitOk {
            id := Some(v);
            assert View() == InsertVersion(old(View()), w, image, port);
            return;
          }
        }
        workers, versions := rollbackWorkers, rollbackVersions;
      }
      id := None;
    }

    method UpdateDeployVersionStatus(v: nat, status: VersionStatus, ok: bool)
      modifies this`versions
      ensures View() == if ok then MarkVersion(old(View()), v, status) else old(View())
      ensures versions.Keys == old(versions).Keys
      ensures forall x :: x in versions && (x != v || !ok) ==> versions[x] == old(versions)[x]
      ensures ok && v in versions ==> versions[v] == old(versions)[v].(status := status)
    {
      if ok && v in versions {
        versions := versions[v := versions[v].(status := status)];
      }
    }

    method UpdateWorkerStatus(wid: string, status: WorkerStatus, ok: bool)
      modifies this`workers
      ensures View() == if ok then MarkWorker(old(View()), wid, status) else old(View())
      ensures workers.Keys == old(workers).Keys
      ensures forall w :: w in workers && (old(workers)[w].wid != wid || !ok) ==> workers[w] == old(workers)[w]
      ensures forall w :: w in workers && old(workers)[w].wid == wid && ok ==>
                workers[w] == old(workers)[w].(status := status)
    {
      if ok {
        workers := map w | w in workers :: if workers[w].wid == wid then workers[w].(status := status) else workers[w];
      }
    }

    // One transaction over both tables; a failure anywhere leaves them as they were.
    method DeployVersionSuccess(v: nat, w: nat, secondOk: bool, commitOk: bool) returns (err: bool)
      modifies this`workers, this`versions
      ensures err <==> !secondOk || !commitOk
      ensures View() == if err then old(View()) else Succeed(old(View()), v, w)
      ensures workers.Keys == old(workers).Keys && versions.Keys == old(versions).Keys
      ensures forall x :: x in workers && x != w ==> workers[x] == old(workers)[x]
      ensures forall x :: x in versions && x != v ==> versions[x] == old(versions)[x]
      ensures !err && w in workers ==> workers[w] == old(workers)[w].(active := Some(v), status := WActive)
      ensures !err && v in versions ==> versions[v] == old(versions)[v].(status := VSuccess)
    {
      var rollbackWorkers, rollbackVersions := workers, versions;
      if v in versions {
        versions := versions[v := versions[v].(status := VSuccess)];
      }
      if secondOk {
        if w in workers {
          workers := workers[w := workers[w].(active := Some(v), status := WActive)];
        }
        if commitOk {
          return false;
        }
      }
      workers, versions := rollbackWorkers, rollbackVersions;
      err := true;
    }

    // The row the WHERE clause finds, with the cascade to its versions.
    method DeleteWorkerByOwner(wid: string, owner: string, ok: bool) returns (err: bool)
      requires forall w, x :: w in workers && x in workers && workers[w].wid == workers[x].wid ==> w == x
      modifies this`workers, this`versions
      ensures err <==> !ok || forall w :: w in old(workers) ==>
                                            old(workers)[w].wid != wid || old(workers)[w].owner != owner
      ensures err ==> View() == old(View())
      ensures !err ==> exists w :: w in old(workers) && old(workers)[w].wid == wid && old(workers)[w].owner == owner
                                   && View() == DeleteWorker(old(View()), w)
                                   && workers == old(workers) - {w}
                                   && forall v :: v in versions <==> v in old(versions) && old(versions)[v].worker != w
      ensures forall v :: v in versions ==> v in old(versions) && versions[v] == old(versions)[v]
    {
      err := true;
      if ok {
        if w :| w in workers && workers[w].wid == wid && workers[w].owner == owner {
          workers, versions := workers - {w}, map v | v in versions && versions[v].worker != w :: versions[v];
          err := false;
          assert View() == DeleteWorker(old(View()), w);
        }
      }
    }

    // deployWorkerJob.Do; errors of the status updates are ignored.
    method Do(v: nat, env: JobEnv) returns (err: bool)
      modifies this`workers, this`versions, this`crs
      ensures (View(), crs) == JobResult(old(View()), old(crs), v, env)
      ensures err <==> !env.load || v !in old(versions) || old(versions)[v].worker !in old(workers) || !env.write
      ensures err ==> crs == old(crs) && (v in old(versions) && env.markVersion ==> versions[v].status == VError)
      ensures err && env.load && v in old(versions) && old(versions)[v].worker in old(workers) && env.markWorker ==>
                workers[old(versions)[v].worker].status == WError
      ensures !err ==>
                var row, w := old(versions)[v], old(workers)[old(versions)[v].worker];
                && crs == old(crs)[WorkerName(w.wid, w.owner) := Image(row.image, row.port)]
                && versions[v] == (if env.commit then row.(status := VSuccess) else row)
                && workers[row.worker] == if env.commit then w.(active := Some(v), status := WActive) else w
    {
      if !env.load || v !in versions || versions[v].worker !in workers {
        UpdateDeployVersionStatus(v, VError, env.markVersion);
        return true;
      }
      var row, worker := versions[v], workers[versions[v].worker];
      if !env.write {
        UpdateDeployVersionStatus(v, VError, env.markVersion);
        UpdateWorkerStatus(worker.wid, WError, env.markWorker);
        return true;
      }
      crs := crs[WorkerName(worker.wid, worker.owner) := Image(row.image, row.port)];
      var failed := DeployVersionSuccess(v, row.worker, env.commit, env.commit);
      err := false;
    }
  }
}
