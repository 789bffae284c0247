/**
 The deploy pipeline and the WorkerApp controller together: what the pipeline's jobs write and delete are the
 CRs the controller watches. The owner's secret key a job reads is a parameter of its write.
 */
module EndToEnd {
  import opened Common
  import opened WorkerNames
  import opened Cluster
  import opened Controller
  import D = Deploy
  import DeployDeletion
  import DeployInvariant
  import DeployTheorems
  import R = ControllerRun
  import ControllerTheorems

  datatype System = System(d: D.Sys, c: R.World)

  // A step of tables, jobs and pool workers, or one of the cluster other than on CRs.
  datatype Action = Pipeline(p: D.Action, sk: string) | InCluster(r: R.Action)

  function SpecOf(pc: D.Pc, sk: string): WorkerAppSpec
    requires pc.Loaded?
  {
    WorkerAppSpec(pc.wid, pc.owner, sk, pc.image.image, pc.image.port)
  }

  // What the action does to the cluster.
  function Effects(s: System, a: Action): seq<R.Action> {
    match a
    case Pipeline(p, sk) =>
      if p.Write? && p.ok && D.Enabled(s.d, p) then [R.Apply(SpecOf(s.d.hands[p.p], sk))]
      else if p.DeleteCR? then [R.Remove(p.name)]
      else []
    case InCluster(r) => if r.Apply? || r.Remove? then [] else [r]
  }

  function Step(s: System, a: Action): System {
    System(if a.Pipeline? then D.Step(s.d, a.p) else s.d, R.Run(s.c, Effects(s, a)))
  }

  function Run(s: System, acts: seq<Action>): System
    decreases |acts|
  {
    if acts == [] then s else Run(Step(s, acts[0]), acts[1..])
  }

  function Init(poolSize: nat, domain: string): System {
    System(D.Init(poolSize), R.Init(domain))
  }

  // --- A run is a run of the pipeline and one of the controller ---

  function PipelinePart(acts: seq<Action>): seq<D.Action> {
    if acts == [] then [] else (if acts[0].Pipeline? then [acts[0].p] else []) + PipelinePart(acts[1..])
  }

  function ClusterPart(s: System, acts: seq<Action>): seq<R.Action>
    decreases |acts|
  {
    if acts == [] then [] else Effects(s, acts[0]) + ClusterPart(Step(s, acts[0]), acts[1..])
  }

  lemma {:induction false} Projects(s: System, acts: seq<Action>)
    ensures Run(s, acts).d == D.Run(s.d, PipelinePart(acts))
    ensures Run(s, acts).c == R.Run(s.c, ClusterPart(s, acts))
    decreases |acts|
  {
    if acts != [] {
      var s' := Step(s, acts[0]);
      Projects(s', acts[1..]);
      ControllerTheorems.RunConcat(s.c, Effects(s, acts[0]), ClusterPart(s', acts[1..]));
      if acts[0].Pipeline? {
        assert PipelinePart(acts)[0] == acts[0].p && PipelinePart(acts)[1..] == PipelinePart(acts[1..]);
      } else {
        assert PipelinePart(acts) == PipelinePart(acts[1..]);
      }
    }
  }

  // --- The pipeline's CRs are the API server's ---

  ghost predicate Coupled(s: System) {
    && s.d.crs.Keys == s.c.s.crs.Keys
    && forall n :: n in s.c.s.crs ==>
         var spec := s.c.s.crs[n].spec;
         spec.Name() == n && s.d.crs[n] == D.Image(spec.image, spec.port)
  }

  ghost predicate SameSpecs(s: State, t: State) {
    s.crs.Keys == t.crs.Keys && forall n :: n in s.crs ==> t.crs[n].spec == s.crs[n].spec
  }

  lemma ReconcileKeepsSpecs(s: State, cr: CR, env: Env)
    ensures SameSpecs(s, ReconcileState(s, cr, env))
  {
    hide Reconciled, Progress;
  }

  // Nothing in the cluster but the pipeline's own writes and deletes changes the spec of a CR.
  lemma ClusterKeepsSpecs(w: R.World, r: R.Action)
    requires !r.Apply? && !r.Remove?
    ensures SameSpecs(w.s, R.Step(w, r).s)
  {
    hide ReconcileState, Cleared, Reconciled, Progress, ClearEvents, Restarted;
    if R.Enabled(w, r) {
      match r
      case Deliver =>
      case Handle(env, failed) =>
        var t := R.Told(w);
        ReconcileKeepsSpecs(t.s, w.s.notes[0].now, env);
      case HandleDelete(i, env) =>
        var app := w.s.deletes[i].1;
        var w1 := w.(s := w.s.(deletes := R.Without(w.s.deletes, i)));
        if app in w1.s.store {
          ReconcileKeepsSpecs(w1.s, w1.s.store[app], env);
        }
      case HandleConfig(i, at, ok) =>
      case Lose(kind, name) =>
      case EditConfigMap(name, data) =>
      case EditSecret(name, data) =>
      case Resync(name) =>
    }
  }

  lemma RunOne(w: R.World, r: R.Action)
    ensures R.Run(w, [r]) == R.Step(w, r)
  {
    assert [r][1..] == [];
  }

  // Only a write and a deletion of a CR change the pipeline's CRs.
  lemma PipelineCRs(d: D.Sys, p: D.Action)
    ensures !p.Write? && !p.DeleteCR? ==> D.Step(d, p).crs == d.crs
    ensures p.Write? && (!p.ok || !D.Enabled(d, p)) ==> D.Step(d, p).crs == d.crs
    ensures p.Write? && p.ok && D.Enabled(d, p) ==>
              var pc := d.hands[p.p];
              D.Step(d, p).crs == d.crs[WorkerName(pc.wid, pc.owner) := pc.image]
  {
    hide D.MarkVersion, D.MarkWorker, D.Succeed, D.DeleteWorker, D.Busy, WorkerName;
  }

  lemma StepKeepsCoupled(s: System, a: Action)
    requires Coupled(s)
    ensures Coupled(Step(s, a))
  {
    hide R.Step, D.Step, SameSpecs;
    match a
    case Pipeline(p, sk) =>
      PipelineCRs(s.d, p);
      if p.Write? && p.ok && D.Enabled(s.d, p) {
        var spec := SpecOf(s.d.hands[p.p], sk);
        RunOne(s.c, R.Apply(spec));
        ApplyStep(s.c, spec);
      } else if p.DeleteCR? {
        RunOne(s.c, R.Remove(p.name));
        RemoveStep(s.c, s.d, p.name);
      }
    case InCluster(r) =>
      if !r.Apply? && !r.Remove? {
        RunOne(s.c, r);
        ClusterKeepsSpecs(s.c, r);
        SpecsCoupled(s, R.Step(s.c, r));
      }
  }

  lemma SpecsCoupled(s: System, c: R.World)
    requires Coupled(s) && SameSpecs(s.c.s, c.s)
    ensures Coupled(System(s.d, c))
  {
  }

  lemma ApplyStep(w: R.World, spec: WorkerAppSpec)
    ensures var crs := R.Step(w, R.Apply(spec)).s.crs;
            && crs.Keys == w.s.crs.Keys + {spec.Name()} && crs[spec.Name()].spec == spec
            && forall n :: n in w.s.crs && n != spec.Name() ==> crs[n] == w.s.crs[n]
  {
  }

  lemma RemoveStep(w: R.World, d: D.Sys, n: string)
    ensures R.Step(w, R.Remove(n)).s.crs == w.s.crs - {n}
    ensures D.Step(d, D.DeleteCR(n)).crs == d.crs - {n}
  {
  }

  lemma {:induction false} RunKeepsCoupled(s: System, acts: seq<Action>)
    requires Coupled(s)
    ensures Coupled(Run(s, acts))
    decreases |acts|
  {
    hide Coupled, Step;
    if acts != [] {
      StepKeepsCoupled(s, acts[0]);
      RunKeepsCoupled(Step(s, acts[0]), acts[1..]);
    }
  }

  // What a job writes is the CR of its worker, with the owner's key and the version's image and port.
  lemma WriteArrives(s: System, p: nat, sk: string)
    requires D.Enabled(s.d, D.Write(p, true))
    ensures var pc, t := s.d.hands[p], Step(s, Pipeline(D.Write(p, true), sk));
            var n := WorkerName(pc.wid, pc.owner);
            n in t.c.s.crs && t.c.s.crs[n].spec == WorkerAppSpec(pc.wid, pc.owner, sk, pc.image.image, pc.image.port)
  {
    hide D.Step, R.Step;
    var spec := SpecOf(s.d.hands[p], sk);
    RunOne(s.c, R.Apply(spec));
    ApplyStep(s.c, spec);
  }

  // --- From the tables to the Deployments ---

  // With any number of pool workers, in any schedule, whatever failed: with no event pending, a live worker
  // with a CR whose last reconcile succeeded runs the image of its active version, on its port, if and only
  // if its CR and that version are in step; that is, if it has an active version and the job that wrote the
  // CR last deployed the same image and port.
  lemma DeployedIff(poolSize: nat, domain: string, acts: seq<Action>, w: nat, n: string)
    ensures var s := Run(Init(poolSize, domain), acts);
            ControllerTheorems.Quiescent(s.c) && HasCR(s, w, n) ==>
              && (Deployed(s, w, n) <==> DeployTheorems.InStep(s.d, w))
              && n in s.d.writer && s.d.writer[n] in s.d.made
              && var written, active := s.d.writer[n], s.d.t.workers[w].active;
                 && (active.Some? ==> active.value in s.d.made)
                 && (Deployed(s, w, n) <==>
                       active.Some? && D.ImageOf(s.d.made[written]) == D.ImageOf(s.d.made[active.value]))
  {
    hide D.NameOf;
    var s := Run(Init(poolSize, domain), acts);
    Projects(Init(poolSize, domain), acts);
    RunKeepsCoupled(Init(poolSize, domain), acts);
    if ControllerTheorems.Quiescent(s.c) && HasCR(s, w, n) {
      ControllerTheorems.QuiescentMeansConverged(domain, ClusterPart(Init(poolSize, domain), acts), n);
      DeployTheorems.InStepIff(poolSize, PipelinePart(acts), w);
    }
  }

  // So it does if its own jobs never overlapped, its own success transactions went through, and none of its
  // jobs is about to commit. A name without CR has no object but those whose delete call failed.
  lemma ActiveVersionDeployed(poolSize: nat, domain: string, acts: seq<Action>, w: nat, n: string, k: Kind)
    ensures var s := Run(Init(poolSize, domain), acts);
            ControllerTheorems.Quiescent(s.c) ==>
              && (n !in s.d.crs && Present(s.c.s.objects, k, n) ==> (k, n) in s.c.missed)
              && (HasCR(s, w, n) && w !in s.d.spoiled && !DeployInvariant.Committing(s.d, w) ==> Deployed(s, w, n))
  {
    hide Present, D.NameOf, Deployed, DeployTheorems.InStep;
    var s := Run(Init(poolSize, domain), acts);
    Projects(Init(poolSize, domain), acts);
    RunKeepsCoupled(Init(poolSize, domain), acts);
    if ControllerTheorems.Quiescent(s.c) {
      ControllerTheorems.NoOrphans(domain, ClusterPart(Init(poolSize, domain), acts), n, k);
      DeployTheorems.InStepUnlessSpoiled(poolSize, PipelinePart(acts), w);
      DeployedIff(poolSize, domain, acts, w, n);
    }
  }

  // With one pool worker and success transactions that go through, that is so whenever no job is running.
  lemma SerialActiveVersionDeployed(domain: string, acts: seq<Action>, w: nat, n: string)
    requires DeployTheorems.CommitsSucceed(PipelinePart(acts))
    ensures var s := Run(Init(1, domain), acts);
            ControllerTheorems.Quiescent(s.c) && s.d.hands == map[] && HasCR(s, w, n) ==> Deployed(s, w, n)
  {
    hide D.NameOf, Deployed;
    Projects(Init(1, domain), acts);
    DeployTheorems.SerialNeverSpoils(D.Init(1), PipelinePart(acts));
    ActiveVersionDeployed(1, domain, acts, w, n, DeploymentKind);
  }

  lemma {:induction false} RunAppended(s: System, a: seq<Action>, b: seq<Action>)
    ensures Run(s, a + b) == Run(Run(s, a), b)
    decreases |a|
  {
    hide Step;
    if a == [] {
      assert a + b == b;
    } else {
      assert (a + b)[1..] == a[1..] + b;
      RunAppended(Step(s, a[0]), a[1..], b);
    }
  }

  // A worker whose row and CR are gone, with no job about to write the CR, leaves nothing in the cluster:
  // whatever follows, whenever no event is pending its name has none of the five objects but those whose
  // delete call failed, and none at all if delete calls succeed.
  lemma DeletedLeavesNothing(poolSize: nat, domain: string, acts: seq<Action>, more: seq<Action>, w: nat, k: Kind)
    ensures var s, t := Run(Init(poolSize, domain), acts), Run(Init(poolSize, domain), acts + more);
            DeployDeletion.Gone(s.d, w) && !DeployDeletion.AboutToWrite(s.d, w)
            && ControllerTheorems.Quiescent(t.c) && Present(t.c.s.objects, k, D.NameOf(s.d, w)) ==>
              && (k, D.NameOf(s.d, w)) in t.c.missed
              && !ControllerTheorems.DeletesSucceed(ClusterPart(Init(poolSize, domain), acts + more))
  {
    hide Present, D.NameOf, DeployDeletion.AboutToWrite, Deployed, ControllerTheorems.DeletesSucceed;
    var init := Init(poolSize, domain);
    var s := Run(init, acts);
    if DeployDeletion.Gone(s.d, w) && !DeployDeletion.AboutToWrite(s.d, w) {
      Projects(init, acts);
      DeployInvariant.InitInv(poolSize);
      DeployInvariant.RunKeepsInv(D.Init(poolSize), PipelinePart(acts));
      RunAppended(init, acts, more);
      Projects(s, more);
      DeployDeletion.StaysGone(s.d, PipelinePart(more), w);
      var n := D.NameOf(s.d, w);
      ActiveVersionDeployed(poolSize, domain, acts + more, w, n, k);
      Projects(init, acts + more);
      if ControllerTheorems.DeletesSucceed(ClusterPart(init, acts + more)) {
        ControllerTheorems.NothingMissed(R.Init(domain), ClusterPart(init, acts + more));
      }
    }
  }

  // The live worker w has a CR, called n, and its last reconcile succeeded.
  predicate HasCR(s: System, w: nat, n: string) {
    && w in s.d.t.workers && w in s.d.born && D.NameOf(s.d, w) == n && n in s.d.crs
    && n in s.c.outcome && s.c.outcome[n].Succeeded?
  }

  predicate Deployed(s: System, w: nat, n: string)
    requires w in s.d.t.workers
  {
    var o, active := s.c.s.objects, s.d.t.workers[w].active;
    && active.Some? && active.value in s.d.t.versions
    && n in o.deployments && n in o.services && n in o.ingressRoutes
    && o.deployments[n].image == s.d.t.versions[active.value].image
    && o.deployments[n].containerPort == Int32(s.d.t.versions[active.value].port)
    && o.ingressRoutes[n].port == s.d.t.versions[active.value].port
  }
}
