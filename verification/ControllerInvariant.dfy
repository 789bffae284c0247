/** The invariant every run of the WorkerApp controller keeps, one lemma per kind of step. */
module ControllerInvariant {
  import opened Common
  import opened WorkerNames
  import opened Cluster
  import opened Controller
  import opened ControllerRun

  ghost predicate Keyed(m: map<string, CR>) {
    forall n :: n in m ==> m[n].Name() == n
  }

  // Store and watch make up the API server's CRs; handlers and their pending calls make up the store.
  ghost predicate Synced(w: World) {
    && Keyed(w.s.crs) && Keyed(w.s.store) && Keyed(w.handled)
    && Coherent(w.s.store, w.s.watch) && Replay(w.s.store, w.s.watch) == w.s.crs
    && CoherentNotes(w.handled, w.s.notes) && ReplayNotes(w.handled, w.s.notes) == w.s.store
  }

  // Watched objects carry their own name as app label, so their deletion finds its CR.
  ghost predicate Labelled(o: Objects) {
    && (forall n :: n in o.deployments ==> o.deployments[n].labels.app == n)
    && (forall n :: n in o.services ==> o.services[n].labels.app == n)
    && (forall n :: n in o.ingressRoutes ==> o.ingressRoutes[n].labels.app == n)
  }

  // An object belongs to a CR the handlers know, or is about to be dealt with, or could not be deleted.
  ghost predicate Owned(w: World) {
    forall k, n :: Present(w.s.objects, k, n) ==> n in w.handled || Mentioned(w.s.notes, n) || (k, n) in w.missed
  }

  // After a successful reconcile, Deployment and IngressRoute are as that reconcile rendered them.
  ghost predicate RenderedFor(w: World, n: string) {
    n in w.outcome && w.outcome[n].Succeeded? ==>
      && (n in w.s.objects.deployments ==>
            w.s.objects.deployments[n].(restartedAt := None) == RenderDeployment(w.outcome[n].spec))
      && (n in w.s.objects.ingressRoutes ==>
            w.s.objects.ingressRoutes[n] == RenderIngressRoute(w.outcome[n].spec, w.s.domain))
  }

  // The last successful reconcile used the store's spec, unless another reconcile is on its way.
  ghost predicate CurrentFor(w: World, n: string) {
    n in w.s.store && n in w.outcome && w.outcome[n].Succeeded? && !Triggered(w.s.notes, n) ==>
      w.outcome[n].spec == w.s.store[n].spec
  }

  // What the last successful reconcile put there is there, or its loss is about to be repaired.
  ghost predicate HealingFor(w: World, n: string) {
    n in w.s.store && n in w.outcome && w.outcome[n].Succeeded? ==>
      forall k :: Watched(k) ==>
        Present(w.s.objects, k, n) || (k, n) in w.s.deletes || Triggered(w.s.notes, n)
  }

  ghost predicate Named(w: World, n: string) {
    RenderedFor(w, n) && CurrentFor(w, n) && HealingFor(w, n)
  }

  ghost predicate Base(w: World) {
    Synced(w) && Labelled(w.s.objects) && Owned(w)
  }

  ghost predicate Inv(w: World) {
    Base(w) && forall n :: Named(w, n)
  }

  lemma InitInv(domain: string)
    ensures Inv(Init(domain))
  {
  }

  // --- Status writes ---

  lemma StatusKeepsSynced(w: World, n: string, phase: string, message: string, ok: bool)
    requires Synced(w)
    ensures Synced(w.(s := StatusWritten(w.s, n, phase, message, ok)))
  {
    if ok && n in w.s.crs {
      var latest := w.s.crs[n].(phase := phase, message := message);
      assert latest.Name() == n;
      ReplaySnoc(w.s.store, w.s.watch, Upsert(latest));
    }
  }

  // --- A reconcile ---

  lemma ReconcileShape(s: State, cr: CR, env: Env)
    ensures var t := ReconcileState(s, cr, env);
            t == s.(crs := t.crs, watch := t.watch,
                    objects := Reconciled(s.objects, cr.spec, s.domain, Progress(s.objects, cr.Name(), env.calls)))
  {
  }

  lemma ReconcileKeepsSynced(w: World, cr: CR, env: Env)
    requires Synced(w)
    ensures Synced(Reconcile(w, cr, env))
  {
    var n := cr.Name();
    StatusKeepsSynced(w, n, "Deploying", "", env.deploying);
    var s1 := StatusWritten(w.s, n, "Deploying", "", env.deploying);
    var done := Progress(s1.objects, n, env.calls);
    var w2 := w.(s := s1.(objects := Reconciled(s1.objects, cr.spec, s1.domain, done)));
    assert Synced(w2);
    if done < 5 {
      StatusKeepsSynced(w2, n, "Failed", env.message, env.final);
    } else {
      StatusKeepsSynced(w2, n, "Running", "", env.final);
    }
  }

  lemma ReconciledPresence(o: Objects, spec: WorkerAppSpec, domain: string, done: nat, k: Kind, n: string)
    ensures Present(o, k, n) ==> Present(Reconciled(o, spec, domain, done), k, n)
    ensures n != spec.Name() ==> (Present(Reconciled(o, spec, domain, done), k, n) <==> Present(o, k, n))
    ensures done >= 5 && n == spec.Name() ==> Present(Reconciled(o, spec, domain, done), k, n)
  {
    if n != spec.Name() {
      ReconcileFramedByName(o, spec, domain, done, n);
    }
  }

  lemma ReconcileKeepsBase(w: World, cr: CR, env: Env)
    requires Base(w)
    requires cr.Name() in w.handled || Mentioned(w.s.notes, cr.Name())
    ensures Base(Reconcile(w, cr, env))
  {
    ReconcileKeepsSynced(w, cr, env);
    ReconcileShape(w.s, cr, env);
    var w' := Reconcile(w, cr, env);
    var done := Progress(w.s.objects, cr.Name(), env.calls);
    forall k, n | Present(w'.s.objects, k, n)
      ensures n in w'.handled || Mentioned(w'.s.notes, n) || (k, n) in w'.missed
    {
      ReconciledPresence(w.s.objects, cr.spec, w.s.domain, done, k, n);
    }
  }

  lemma ReconcileKeepsOthers(w: World, cr: CR, env: Env, n: string)
    requires n != cr.Name() && Named(w, n)
    ensures Named(Reconcile(w, cr, env), n)
  {
    ReconcileShape(w.s, cr, env);
    var done := Progress(w.s.objects, cr.Name(), env.calls);
    forall k ensures Present(w.s.objects, k, n) ==> Present(Reconcile(w, cr, env).s.objects, k, n) {
      ReconciledPresence(w.s.objects, cr.spec, w.s.domain, done, k, n);
    }
  }

  lemma ReconcileEstablishes(w: World, cr: CR, env: Env)
    requires cr.Name() in w.s.store && !Triggered(w.s.notes, cr.Name()) ==> w.s.store[cr.Name()].spec == cr.spec
    ensures Named(Reconcile(w, cr, env), cr.Name())
  {
    ReconcileShape(w.s, cr, env);
    var n := cr.Name();
    var done := Progress(w.s.objects, n, env.calls);
    if done == 5 {
      forall k ensures Present(Reconcile(w, cr, env).s.objects, k, n) {
        ReconciledPresence(w.s.objects, cr.spec, w.s.domain, done, k, n);
      }
    }
  }

  // --- The steps ---

  lemma OldestFits(w: World)
    requires Synced(w) && w.s.watch != []
    ensures FitsEvent(w.s.store, w.s.watch[0])
    ensures forall n :: n in w.s.store ==> w.s.store[n].Name() == n
  {
  }

  lemma DeliverShape(w: World)
    requires Synced(w) && w.s.watch != []
    ensures var e, w' := w.s.watch[0], DeliverStep(w);
            && w'.s.store == ApplyEvent(w.s.store, e)
            && |w'.s.notes| == |w.s.notes| + 1
            && (var note := w'.s.notes[|w.s.notes|];
                && w'.s.notes == w.s.notes + [note]
                && note.Name() == e.cr.Name()
                && FitsNote(w.s.store, note)
                && ApplyNote(w.s.store, note) == w'.s.store
                && (!note.Deleted? ==> note.now == e.cr))
            && w' == w.(s := w.s.(watch := w.s.watch[1..], store := w'.s.store, notes := w'.s.notes))
  {
    hide Synced, WorkerName;
    OldestFits(w);
  }

  lemma DeliverKeepsSynced(w: World)
    requires Synced(w) && w.s.watch != []
    ensures Synced(DeliverStep(w))
  {
    DeliverShape(w);
    ReplayNotesSnoc(w.handled, w.s.notes, DeliverStep(w).s.notes[|w.s.notes|]);
  }

  lemma DeliverKeepsNamed(w: World, n: string)
    requires Synced(w) && w.s.watch != [] && Named(w, n)
    ensures Named(DeliverStep(w), n)
  {
    DeliverShape(w);
    TriggeredSnoc(w.s.notes, DeliverStep(w).s.notes[|w.s.notes|], n);
  }

  lemma DeliverKeepsInv(w: World)
    requires Inv(w) && w.s.watch != []
    ensures Inv(DeliverStep(w))
  {
    DeliverShape(w);
    DeliverKeepsSynced(w);
    var w' := DeliverStep(w);
    var note := w'.s.notes[|w.s.notes|];
    forall n ensures Named(w', n) {
      assert Named(w, n);
      DeliverKeepsNamed(w, n);
    }
    forall k, n | Present(w'.s.objects, k, n)
      ensures n in w'.handled || Mentioned(w'.s.notes, n) || (k, n) in w'.missed
    {
      TriggeredSnoc(w.s.notes, note, n);
    }
  }

  // The oldest note is told to the handlers; what it says of its own name is settled afterwards.
  lemma ToldKeeps(w: World)
    requires Inv(w) && w.s.notes != []
    ensures Synced(Told(w)) && Labelled(Told(w).s.objects)
    ensures !w.s.notes[0].Deleted? ==> Owned(Told(w))
    ensures forall n :: !Triggers(w.s.notes[0], n) ==> Named(Told(w), n)
  {
    var w1 := Told(w);
    forall n ensures Mentioned(w.s.notes, n) <==> w.s.notes[0].Name() == n || Mentioned(w1.s.notes, n) {
      TriggeredTail(w.s.notes, n);
    }
    forall n | !Triggers(w.s.notes[0], n) ensures Named(w1, n) {
      TriggeredTail(w.s.notes, n);
      assert Named(w, n);
    }
  }

  lemma HandleReconcileKeepsInv(w: World, cr: CR, env: Env)
    requires Inv(w) && w.s.notes != []
    requires cr == w.s.notes[0].now && Triggers(w.s.notes[0], cr.Name())
    ensures Inv(Reconcile(Told(w), cr, env))
  {
    ToldKeeps(w);
    var w1 := Told(w);
    var m := cr.Name();
    assert w1.handled[m] == cr;
    ReconcileKeepsBase(w1, cr, env);
    if m in w1.s.store && !Triggered(w1.s.notes, m) {
      UntriggeredKeepsSpec(w1.handled, w1.s.notes, m);
    }
    ReconcileEstablishes(w1, cr, env);
    forall n ensures Named(Reconcile(w1, cr, env), n) {
      if n != m {
        ReconcileKeepsOthers(w1, cr, env, n);
      }
    }
  }

  lemma HandleDeletedKeepsInv(w: World, failed: set<Kind>)
    requires Inv(w) && w.s.notes != [] && w.s.notes[0].Deleted?
    ensures Inv(DeleteAll(Told(w), w.s.notes[0].now, failed))
  {
    ToldKeeps(w);
    var w1 := Told(w);
    var cr := w.s.notes[0].now;
    var m := cr.Name();
    var w' := DeleteAll(w1, cr, failed);
    forall k, n ensures Present(w'.s.objects, k, n) <==> Present(w.s.objects, k, n) && (n != m || k in failed) {
      ClearedRemoves(w.s.objects, m, failed, k, n);
    }
    forall k, n | Present(w'.s.objects, k, n)
      ensures n in w'.handled || Mentioned(w'.s.notes, n) || (k, n) in w'.missed
    {
      TriggeredTail(w.s.notes, n);
    }
    forall n ensures Named(w', n) {
      if n != m {
        assert Named(w1, n);
      }
    }
  }

  lemma HandleKeepsInv(w: World, env: Env, failed: set<Kind>)
    requires Inv(w) && w.s.notes != []
    ensures Inv(HandleStep(w, env, failed))
  {
    match w.s.notes[0]
    case Added(cr) => HandleReconcileKeepsInv(w, cr, env);
    case Updated(was, now) =>
      if was.generation == now.generation {
        ToldKeeps(w);
      } else {
        HandleReconcileKeepsInv(w, now, env);
      }
    case Deleted(_) => HandleDeletedKeepsInv(w, failed);
  }

  lemma InWithout<T>(s: seq<T>, i: nat, x: T)
    requires i < |s|
    ensures x in s <==> x in Without(s, i) || x == s[i]
  {
    if x in s && x != s[i] {
      var j :| 0 <= j < |s| && s[j] == x;
      assert x == if j < i then Without(s, i)[j] else Without(s, i)[j - 1];
    }
  }

  lemma HandleDeleteKeepsInv(w: World, i: nat, env: Env)
    requires Inv(w) && i < |w.s.deletes|
    ensures Inv(HandleDeleteStep(w, i, env))
  {
    var app := w.s.deletes[i].1;
    var w1 := w.(s := w.s.(deletes := Without(w.s.deletes, i)));
    assert Base(w1);
    forall n | n != app ensures Named(w1, n) {
      assert Named(w, n);
      forall k ensures (k, n) in w.s.deletes ==> (k, n) in w1.s.deletes {
        InWithout(w.s.deletes, i, (k, n));
      }
    }
    if app != "" && app in w.s.store {
      var cr := w.s.store[app];
      assert cr.Name() == app;
      if !Mentioned(w.s.notes, app) {
        ReplayNotesKeeps(w.handled, w.s.notes, app);
      }
      ReconcileKeepsBase(w1, cr, env);
      ReconcileEstablishes(w1, cr, env);
      forall n ensures Named(Reconcile(w1, cr, env), n) {
        if n != app {
          ReconcileKeepsOthers(w1, cr, env, n);
        }
      }
    } else {
      if app in w.s.store {
        NameNotEmpty(w.s.store[app].spec);
      }
      assert Named(w, app);
      assert Named(w1, app);
    }
  }

  lemma NameNotEmpty(spec: WorkerAppSpec)
    ensures spec.Name() != ""
  {
    WorkerNameSplits(spec.workerID, spec.ownerID);
  }

  lemma LoseKeepsInv(w: World, kind: Kind, m: string)
    requires Inv(w)
    ensures Inv(LoseStep(w, kind, m))
  {
    var failed := AllKinds() - {kind};
    var w' := LoseStep(w, kind, m);
    forall k, n ensures Present(w'.s.objects, k, n) <==> Present(w.s.objects, k, n) && (n != m || k in failed) {
      ClearedRemoves(w.s.objects, m, failed, k, n);
    }
    var events := ClearEvents(w.s.objects, m, failed);
    assert Watched(kind) && Present(w.s.objects, kind, m) ==> (kind, m) in events by {
      if Watched(kind) && Present(w.s.objects, kind, m) {
        assert (kind, m) in ClearEvent(w.s.objects, kind, m, failed);
      }
    }
    forall n ensures Named(w', n) {
      assert Named(w, n);
    }
  }

  lemma EditConfigMapKeepsInv(w: World, m: string, data: map<string, string>)
    requires Inv(w)
    ensures Inv(EditConfigMapStep(w, m, data))
  {
    var w' := EditConfigMapStep(w, m, data);
    forall k, n ensures Present(w'.s.objects, k, n) <==> Present(w.s.objects, k, n) {
    }
    forall n ensures Named(w', n) {
      assert Named(w, n);
    }
  }

  lemma EditSecretKeepsInv(w: World, m: string, data: map<string, string>)
    requires Inv(w)
    ensures Inv(EditSecretStep(w, m, data))
  {
    var w' := EditSecretStep(w, m, data);
    forall k, n ensures Present(w'.s.objects, k, n) <==> Present(w.s.objects, k, n) {
    }
    forall n ensures Named(w', n) {
      assert Named(w, n);
    }
  }

  lemma RestartKeeps(o: Objects, app: string, at: int, n: string)
    ensures forall k :: Present(Restarted(o, app, at), k, n) <==> Present(o, k, n)
    ensures n in o.deployments ==>
              Restarted(o, app, at).deployments[n].(restartedAt := None) == o.deployments[n].(restartedAt := None)
    ensures n in o.deployments ==> Restarted(o, app, at).deployments[n].labels == o.deployments[n].labels
  {
  }

  lemma RestartKeepsNamed(w: World, o: Objects, configs: seq<string>, n: string)
    requires Named(w, n)
    requires forall k :: Present(o, k, n) <==> Present(w.s.objects, k, n)
    requires o == w.s.objects.(deployments := o.deployments)
    requires n in o.deployments && n in w.s.objects.deployments ==>
               o.deployments[n].(restartedAt := None) == w.s.objects.deployments[n].(restartedAt := None)
    ensures Named(w.(s := w.s.(objects := o, configs := configs)), n)
  {
    assert n in o.deployments <==> Present(o, DeploymentKind, n);
    assert n in w.s.objects.deployments <==> Present(w.s.objects, DeploymentKind, n);
  }

  lemma HandleConfigKeepsNamed(w: World, i: nat, at: int, ok: bool, n: string)
    requires Named(w, n) && i < |w.s.configs|
    ensures Named(Step(w, HandleConfig(i, at, ok)), n)
  {
    hide RenderedFor, CurrentFor, HealingFor, Named;
    var w' := Step(w, HandleConfig(i, at, ok));
    RestartKeeps(w.s.objects, w.s.configs[i], at, n);
    RestartKeepsNamed(w, w'.s.objects, w'.s.configs, n);
  }

  lemma HandleConfigKeepsBase(w: World, i: nat, at: int, ok: bool)
    requires Base(w) && i < |w.s.configs|
    ensures Base(Step(w, HandleConfig(i, at, ok)))
  {
    hide Keyed, Coherent, Replay, CoherentNotes, ReplayNotes, Present, Restarted, Mentioned;
    var w' := Step(w, HandleConfig(i, at, ok));
    RestartKeepsAll(w.s.objects, w.s.configs[i], at);
    assert Labelled(w'.s.objects);
    assert Owned(w');
  }

  lemma RestartKeepsAll(o: Objects, app: string, at: int)
    requires Labelled(o)
    ensures Labelled(Restarted(o, app, at))
    ensures forall k, n :: Present(Restarted(o, app, at), k, n) <==> Present(o, k, n)
  {
    forall k, n ensures Present(Restarted(o, app, at), k, n) <==> Present(o, k, n) {
      RestartKeeps(o, app, at, n);
    }
  }

  lemma HandleConfigKeepsInv(w: World, i: nat, at: int, ok: bool)
    requires Inv(w) && i < |w.s.configs|
    ensures Inv(Step(w, HandleConfig(i, at, ok)))
  {
    hide Base, Named, Step;
    HandleConfigKeepsBase(w, i, at, ok);
    forall n ensures Named(Step(w, HandleConfig(i, at, ok)), n) {
      HandleConfigKeepsNamed(w, i, at, ok, n);
    }
  }

  lemma ApplyKeepsInv(w: World, spec: WorkerAppSpec)
    requires Inv(w)
    ensures Inv(w.(s := ApplyState(w.s, spec)))
  {
    var w' := w.(s := ApplyState(w.s, spec));
    if w'.s != w.s {
      ReplaySnoc(w.s.store, w.s.watch, Upsert(w'.s.crs[spec.Name()]));
    }
    forall n ensures Named(w', n) {
      assert Named(w, n);
    }
  }

  lemma RemoveKeepsInv(w: World, m: string)
    requires Inv(w)
    ensures Inv(Step(w, Remove(m)))
  {
    if m in w.s.crs {
      ReplaySnoc(w.s.store, w.s.watch, Removed(w.s.crs[m]));
    }
    var w' := Step(w, Remove(m));
    forall n ensures Named(w', n) {
      assert Named(w, n);
    }
  }

  lemma ResyncKeepsInv(w: World, m: string)
    requires Inv(w)
    ensures Inv(Step(w, Resync(m)))
  {
    if m in w.s.store {
      var w' := Step(w, Resync(m));
      var note := Updated(w.s.store[m], w.s.store[m]);
      ReplayNotesSnoc(w.handled, w.s.notes, note);
      forall n ensures Triggered(w'.s.notes, n) <==> Triggered(w.s.notes, n) {
        TriggeredSnoc(w.s.notes, note, n);
      }
      forall k, n | Present(w'.s.objects, k, n)
        ensures n in w'.handled || Mentioned(w'.s.notes, n) || (k, n) in w'.missed
      {
        TriggeredSnoc(w.s.notes, note, n);
      }
      forall n ensures Named(w', n) {
        assert Named(w, n);
      }
    }
  }

  lemma StepKeepsInv(w: World, a: Action)
    requires Inv(w)
    ensures Inv(Step(w, a))
  {
    if Enabled(w, a) {
      match a
      case Deliver => DeliverKeepsInv(w);
      case Handle(env, failed) => HandleKeepsInv(w, env, failed);
      case HandleDelete(i, env) => HandleDeleteKeepsInv(w, i, env);
      case HandleConfig(i, at, ok) => HandleConfigKeepsInv(w, i, at, ok);
      case Apply(spec) => ApplyKeepsInv(w, spec);
      case Remove(n) => RemoveKeepsInv(w, n);
      case Lose(kind, n) => LoseKeepsInv(w, kind, n);
      case EditConfigMap(n, data) => EditConfigMapKeepsInv(w, n, data);
      case EditSecret(n, data) => EditSecretKeepsInv(w, n, data);
      case Resync(n) => ResyncKeepsInv(w, n);
    }
  }

  lemma {:induction false} RunKeepsInv(w: World, acts: seq<Action>)
    requires Inv(w)
    ensures Inv(Run(w, acts))
    decreases |acts|
  {
    if acts != [] {
      StepKeepsInv(w, acts[0]);
      RunKeepsInv(Step(w, acts[0]), acts[1..]);
    }
  }
}
