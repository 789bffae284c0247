/** What the invariant means for every run: no orphans, convergence, self-healing, and a cascade that drains. */
module ControllerTheorems {
  import opened Common
  import opened Cluster
  import opened Controller
  import opened ControllerRun
  import opened ControllerInvariant

  // No change of the CR n is still on its way to the handlers.
  predicate CRSettled(w: World, n: string) {
    !EventMentions(w.s.watch, n) && !Mentioned(w.s.notes, n)
  }

  predicate LossPending(w: World, n: string) {
    exists i :: 0 <= i < |w.s.deletes| && w.s.deletes[i].1 == n
  }

  predicate Quiescent(w: World) {
    w.s.watch == [] && w.s.notes == [] && w.s.deletes == [] && w.s.configs == []
  }

  lemma SettledViews(w: World, n: string)
    requires Inv(w) && CRSettled(w, n)
    ensures n in w.s.crs <==> n in w.s.store
    ensures n in w.s.store <==> n in w.handled
    ensures n in w.s.crs ==> w.s.store[n] == w.s.crs[n]
  {
    ReplayKeeps(w.s.store, w.s.watch, n);
    ReplayNotesKeeps(w.handled, w.s.notes, n);
  }

  // Whatever happened before: once a name has no CR and none of its CR events is pending, the only
  // objects it can still have are ones whose delete call failed.
  lemma NoOrphans(domain: string, acts: seq<Action>, n: string, k: Kind)
    ensures var w := Run(Init(domain), acts);
            n !in w.s.crs && CRSettled(w, n) && Present(w.s.objects, k, n) ==> (k, n) in w.missed
  {
    InitInv(domain);
    RunKeepsInv(Init(domain), acts);
    var w := Run(Init(domain), acts);
    if CRSettled(w, n) {
      SettledViews(w, n);
    }
  }

  predicate DeletesSucceed(acts: seq<Action>) {
    forall i :: 0 <= i < |acts| && acts[i].Handle? ==> acts[i].failed == {}
  }

  lemma {:induction false} NothingMissed(w: World, acts: seq<Action>)
    requires w.missed == {} && DeletesSucceed(acts)
    ensures Run(w, acts).missed == {}
    decreases |acts|
  {
    if acts != [] {
      assert Step(w, acts[0]).missed == {} by {
        if acts[0].Handle? { assert acts[0].failed == {}; }
      }
      assert forall i :: 0 <= i < |acts[1..]| ==> acts[1..][i] == acts[i + 1];
      NothingMissed(Step(w, acts[0]), acts[1..]);
    }
  }

  lemma NoOrphansIfDeletesSucceed(domain: string, acts: seq<Action>, n: string, k: Kind)
    requires DeletesSucceed(acts)
    ensures var w := Run(Init(domain), acts);
            n !in w.s.crs && CRSettled(w, n) ==> !Present(w.s.objects, k, n)
  {
    NoOrphans(domain, acts, n, k);
    NothingMissed(Init(domain), acts);
  }

  lemma LossIsPending(w: World, k: Kind, n: string)
    ensures (k, n) in w.s.deletes ==> LossPending(w, n)
  {
  }

  // A settled CR whose last reconcile succeeded has the Deployment and the IngressRoute its current spec
  // renders, if they are there; they and the Service are there once no deletion of them is pending.
  lemma Converged(domain: string, acts: seq<Action>, n: string)
    ensures var w := Run(Init(domain), acts);
            n in w.s.crs && CRSettled(w, n) && n in w.outcome && w.outcome[n].Succeeded? ==>
              && (n in w.s.objects.deployments ==>
                    w.s.objects.deployments[n].(restartedAt := None) == RenderDeployment(w.s.crs[n].spec))
              && (n in w.s.objects.ingressRoutes ==>
                    w.s.objects.ingressRoutes[n] == RenderIngressRoute(w.s.crs[n].spec, w.s.domain))
              && (!LossPending(w, n) ==> forall k :: Watched(k) ==> Present(w.s.objects, k, n))
  {
    InitInv(domain);
    RunKeepsInv(Init(domain), acts);
    var w := Run(Init(domain), acts);
    if n in w.s.crs && CRSettled(w, n) && n in w.outcome && w.outcome[n].Succeeded? {
      SettledViews(w, n);
      assert Named(w, n);
      assert !Triggered(w.s.notes, n);
      if !LossPending(w, n) {
        forall k | Watched(k) ensures Present(w.s.objects, k, n) {
          LossIsPending(w, k, n);
        }
      }
    }
  }

  // At every moment of every run: a watched object of a successfully reconciled CR is missing only
  // while an event that will reconcile that CR again is pending.
  lemma SelfHealing(domain: string, acts: seq<Action>, n: string, k: Kind)
    requires Watched(k)
    ensures var w := Run(Init(domain), acts);
            n in w.s.store && n in w.outcome && w.outcome[n].Succeeded? ==>
              Present(w.s.objects, k, n) || (k, n) in w.s.deletes || Triggered(w.s.notes, n)
  {
    InitInv(domain);
    RunKeepsInv(Init(domain), acts);
    assert Named(Run(Init(domain), acts), n);
  }

  // In every reachable state: the loss of an object that is there causes one event, carrying its worker's
  // name, if its kind is watched, and otherwise none; nothing else becomes pending.
  lemma LossNoticed(domain: string, acts: seq<Action>, k: Kind, n: string)
    ensures var w := Run(Init(domain), acts);
            var s' := Step(w, Lose(k, n)).s;
            && s' == w.s.(objects := s'.objects, deletes := s'.deletes)
            && s'.deletes == w.s.deletes + if Watched(k) && Present(w.s.objects, k, n) then [(k, n)] else []
  {
    hide ClearEvents, Cleared, Present, Synced, Owned, Named;
    InitInv(domain);
    RunKeepsInv(Init(domain), acts);
    LossEvents(Run(Init(domain), acts).s.objects, k, n);
  }

  lemma LossEvents(o: Objects, k: Kind, n: string)
    requires Labelled(o)
    ensures ClearEvents(o, n, AllKinds() - {k}) == if Watched(k) && Present(o, k, n) then [(k, n)] else []
  {
    var events := ClearEvents(o, n, AllKinds() - {k});
    match k
    case ConfigMapKind => assert events == [];
    case SecretKind => assert events == [];
    case DeploymentKind => assert events == ClearEvent(o, k, n, AllKinds() - {k});
    case ServiceKind => assert events == ClearEvent(o, k, n, AllKinds() - {k});
    case IngressRouteKind => assert events == ClearEvent(o, k, n, AllKinds() - {k});
  }

  // In every reachable state: the periodic update event of a CR joins the pending handler calls and does
  // nothing else, and when a call with an unchanged generation has its turn, handling it only uses it up.
  // So a CR whose reconcile failed stays as it is.
  lemma ResyncRepairsNothing(domain: string, acts: seq<Action>, n: string, env: Env, failed: set<Kind>)
    ensures var w := Run(Init(domain), acts);
            n in w.s.store ==>
              Step(w, Resync(n)) == w.(s := w.s.(notes := w.s.notes + [Updated(w.s.store[n], w.s.store[n])]))
    ensures var w := Run(Init(domain), acts);
            w.s.notes != [] && w.s.notes[0].Updated? && w.s.notes[0].was.generation == w.s.notes[0].now.generation ==>
              var w' := Step(w, Handle(env, failed));
              && w' == w.(s := w.s.(notes := w.s.notes[1..]), handled := w'.handled)
              && w'.handled.Keys == w.handled.Keys
              && forall m :: m in w.handled ==> w'.handled[m].spec == w.handled[m].spec
  {
    InitInv(domain);
    RunKeepsInv(Init(domain), acts);
    var w := Run(Init(domain), acts);
    if w.s.notes != [] {
      assert FitsNote(w.handled, w.s.notes[0]);
    }
  }

  // --- The cascade drains ---

  function EventWeight(m: map<string, CR>, e: WatchEvent): nat {
    match e
    case Upsert(cr) => if cr.Name() in m && m[cr.Name()].generation == cr.generation then 2 else 6
    case Removed(_) => 17
  }

  function WatchWeight(m: map<string, CR>, es: seq<WatchEvent>): nat
    decreases |es|
  {
    if es == [] then 0 else EventWeight(m, es[0]) + WatchWeight(ApplyEvent(m, es[0]), es[1..])
  }

  function NoteWeight(note: Note): nat {
    match note
    case Added(_) => 5
    case Updated(was, now) => if was.generation == now.generation then 1 else 5
    case Deleted(_) => 16
  }

  function NotesWeight(notes: seq<Note>): nat {
    if notes == [] then 0 else NoteWeight(notes[0]) + NotesWeight(notes[1..])
  }

  // A status event weighs 2, a reconcile at most two of those and itself, a DeleteAll three reconciles and itself.
  function Weight(w: World): nat {
    WatchWeight(w.s.store, w.s.watch) + NotesWeight(w.s.notes) + 5 * |w.s.deletes| + |w.s.configs|
  }

  lemma {:induction false} WatchWeightSnoc(m: map<string, CR>, es: seq<WatchEvent>, e: WatchEvent)
    ensures WatchWeight(m, es + [e]) == WatchWeight(m, es) + EventWeight(Replay(m, es), e)
    decreases |es|
  {
    if es == [] {
      assert es + [e] == [e];
    } else {
      assert (es + [e])[1..] == es[1..] + [e];
      WatchWeightSnoc(ApplyEvent(m, es[0]), es[1..], e);
    }
  }

  lemma {:induction false} NotesWeightSnoc(notes: seq<Note>, note: Note)
    ensures NotesWeight(notes + [note]) == NotesWeight(notes) + NoteWeight(note)
  {
    if notes == [] {
      assert notes + [note] == [note];
    } else {
      assert (notes + [note])[1..] == notes[1..] + [note];
      NotesWeightSnoc(notes[1..], note);
    }
  }

  lemma StatusWeight(w: World, n: string, phase: string, message: string, ok: bool)
    requires Synced(w)
    ensures Weight(w.(s := StatusWritten(w.s, n, phase, message, ok))) <= Weight(w) + 2
  {
    if ok && n in w.s.crs {
      var latest := w.s.crs[n].(phase := phase, message := message);
      WatchWeightSnoc(w.s.store, w.s.watch, Upsert(latest));
    }
  }

  // A reconcile causes at most its two status events.
  lemma ReconcileWeight(w: World, cr: CR, env: Env)
    requires Synced(w)
    ensures Weight(Reconcile(w, cr, env)) <= Weight(w) + 4
  {
    var n := cr.Name();
    StatusWeight(w, n, "Deploying", "", env.deploying);
    StatusKeepsSynced(w, n, "Deploying", "", env.deploying);
    var s1 := StatusWritten(w.s, n, "Deploying", "", env.deploying);
    var done := Progress(s1.objects, n, env.calls);
    var w2 := w.(s := s1.(objects := Reconciled(s1.objects, cr.spec, s1.domain, done)));
    assert Synced(w2) && Weight(w2) == Weight(w.(s := s1));
    if done < 5 {
      StatusWeight(w2, n, "Failed", env.message, env.final);
    } else {
      StatusWeight(w2, n, "Running", "", env.final);
    }
  }

  lemma DeliverDrains(w: World)
    requires Inv(w) && w.s.watch != []
    ensures Weight(DeliverStep(w)) < Weight(w)
  {
    DeliverShape(w);
    NotesWeightSnoc(w.s.notes, DeliverStep(w).s.notes[|w.s.notes|]);
  }

  lemma HandleDrains(w: World, env: Env, failed: set<Kind>)
    requires Inv(w) && w.s.notes != []
    ensures Weight(HandleStep(w, env, failed)) < Weight(w)
  {
    ToldKeeps(w);
    assert Weight(Told(w)) == Weight(w) - NoteWeight(w.s.notes[0]);
    match w.s.notes[0]
    case Added(cr) => ReconcileWeight(Told(w), cr, env);
    case Updated(was, now) =>
      if was.generation != now.generation {
        ReconcileWeight(Told(w), now, env);
      }
    case Deleted(cr) =>
      assert |ClearEvents(w.s.objects, cr.Name(), failed)| <= 3;
  }

  lemma HandleDeleteDrains(w: World, i: nat, env: Env)
    requires Inv(w) && i < |w.s.deletes|
    ensures Weight(HandleDeleteStep(w, i, env)) < Weight(w)
  {
    var w1 := w.(s := w.s.(deletes := Without(w.s.deletes, i)));
    assert Synced(w1) && Weight(w1) == Weight(w) - 5;
    var app := w.s.deletes[i].1;
    if app != "" && app in w1.s.store {
      ReconcileWeight(w1, w1.s.store[app], env);
    }
  }

  // Every step of informer and handlers makes the pending events weigh less.
  lemma InternalStepDrains(w: World, a: Action)
    requires Inv(w) && Internal(a) && Enabled(w, a)
    ensures Weight(Step(w, a)) < Weight(w)
  {
    match a
    case Deliver => DeliverDrains(w);
    case Handle(env, failed) => HandleDrains(w, env, failed);
    case HandleDelete(i, env) => HandleDeleteDrains(w, i, env);
    case HandleConfig(i, at, ok) =>
  }

  // Each action can be taken where the run reaches it, and none comes from outside.
  ghost predicate InternalRun(w: World, acts: seq<Action>)
    decreases |acts|
  {
    acts == [] || (Internal(acts[0]) && Enabled(w, acts[0]) && InternalRun(Step(w, acts[0]), acts[1..]))
  }

  // Left to itself, the controller makes only so many more steps, however its API calls go.
  lemma {:induction false} CascadeBounded(w: World, acts: seq<Action>)
    requires Inv(w) && InternalRun(w, acts)
    ensures |acts| + Weight(Run(w, acts)) <= Weight(w)
    decreases |acts|
  {
    if acts != [] {
      InternalStepDrains(w, acts[0]);
      StepKeepsInv(w, acts[0]);
      CascadeBounded(Step(w, acts[0]), acts[1..]);
    }
  }

  // The environment in which every call succeeds.
  function Fair(): Env {
    var ok := Call(true, true);
    Env(true, Calls(ok, ok, ok, ok, ok), "", true)
  }

  function NextInternal(w: World): Action {
    if w.s.watch != [] then Deliver
    else if w.s.notes != [] then Handle(Fair(), {})
    else if w.s.deletes != [] then HandleDelete(0, Fair())
    else HandleConfig(0, 0, true)
  }

  // It is never stuck before everything is handled: from every state it reaches quiescence by its own steps.
  lemma Drains(w: World) returns (acts: seq<Action>)
    requires Inv(w)
    ensures InternalRun(w, acts) && Quiescent(Run(w, acts)) && DeletesSucceed(acts)
    decreases Weight(w)
  {
    if Quiescent(w) {
      acts := [];
    } else {
      var a := NextInternal(w);
      InternalStepDrains(w, a);
      StepKeepsInv(w, a);
      var rest := Drains(Step(w, a));
      acts := [a] + rest;
      assert acts[1..] == rest;
    }
  }

  lemma {:induction false} RunConcat(w: World, a: seq<Action>, b: seq<Action>)
    ensures Run(w, a + b) == Run(Run(w, a), b)
    decreases |a|
  {
    if a == [] {
      assert a + b == b;
    } else {
      assert (a + b)[1..] == a[1..] + b;
      RunConcat(Step(w, a[0]), a[1..], b);
    }
  }

  // The name has no CR and none of the five objects but those whose delete call failed, or a CR whose last
  // reconcile failed, or a CR and the three watched objects, Deployment and IngressRoute as its current spec
  // renders them.
  predicate InOrder(w: World, n: string) {
    var o := w.s.objects;
    if n !in w.s.crs then forall k :: k in AllKinds() && Present(o, k, n) ==> (k, n) in w.missed
    else
      && n in w.outcome
      && (w.outcome[n].Succeeded? ==>
            && n in o.deployments && n in o.services && n in o.ingressRoutes
            && o.deployments[n].(restartedAt := None) == RenderDeployment(w.s.crs[n].spec)
            && o.ingressRoutes[n] == RenderIngressRoute(w.s.crs[n].spec, w.s.domain))
  }

  // Together: after any run, once nothing is pending every name is in order. If its delete calls succeeded,
  // no object is excepted.
  lemma QuiescentMeansConverged(domain: string, acts: seq<Action>, n: string)
    requires Quiescent(Run(Init(domain), acts))
    ensures InOrder(Run(Init(domain), acts), n)
    ensures DeletesSucceed(acts) ==> Run(Init(domain), acts).missed == {}
  {
    var w := Run(Init(domain), acts);
    forall k | n !in w.s.crs && k in AllKinds() && Present(w.s.objects, k, n) ensures (k, n) in w.missed {
      NoOrphans(domain, acts, n, k);
    }
    if DeletesSucceed(acts) {
      NothingMissed(Init(domain), acts);
    }
    Converged(domain, acts, n);
    InitInv(domain);
    RunKeepsInv(Init(domain), acts);
    if n in w.s.crs {
      SettledViews(w, n);
      OutcomeKnown(domain, acts, n);
      assert Present(w.s.objects, DeploymentKind, n) <==> n in w.s.objects.deployments;
      assert Present(w.s.objects, ServiceKind, n) <==> n in w.s.objects.services;
      assert Present(w.s.objects, IngressRouteKind, n) <==> n in w.s.objects.ingressRoutes;
    }
  }

  // And it gets there by its own steps from wherever a run left it, once its calls succeed.
  lemma EventuallyInOrder(domain: string, acts: seq<Action>) returns (more: seq<Action>)
    ensures InternalRun(Run(Init(domain), acts), more) && DeletesSucceed(more)
    ensures forall n :: InOrder(Run(Init(domain), acts + more), n)
    ensures DeletesSucceed(acts) ==> Run(Init(domain), acts + more).missed == {}
  {
    InitInv(domain);
    RunKeepsInv(Init(domain), acts);
    more := Drains(Run(Init(domain), acts));
    RunConcat(Init(domain), acts, more);
    forall n ensures InOrder(Run(Init(domain), acts + more), n) {
      QuiescentMeansConverged(domain, acts + more, n);
    }
    if DeletesSucceed(acts) {
      NothingMissed(Init(domain), acts + more);
    }
  }

  // What the handlers know of has been reconciled.
  ghost predicate Tried(w: World) {
    forall n :: n in w.handled ==> n in w.outcome
  }

  lemma OutcomeKnown(domain: string, acts: seq<Action>, n: string)
    ensures var w := Run(Init(domain), acts); n in w.handled ==> n in w.outcome
  {
    InitInv(domain);
    RunKeepsTried(Init(domain), acts);
  }

  lemma HandleKeepsTried(w: World, env: Env, failed: set<Kind>)
    requires Synced(w) && Tried(w) && w.s.notes != []
    ensures Tried(HandleStep(w, env, failed))
  {
    var note := w.s.notes[0];
    assert FitsNote(w.handled, note);
    hide Synced, ReconcileState, OnDeleteState, Progress;
    if note.Deleted? {
      assert HandleStep(w, env, failed).outcome == w.outcome - {note.Name()};
    }
  }

  lemma StepKeepsTried(w: World, a: Action)
    requires Synced(w) && Tried(w)
    ensures Tried(Step(w, a))
  {
    if Enabled(w, a) {
      if a.Handle? {
        HandleKeepsTried(w, a.env, a.failed);
      } else {
        OthersKeepTried(w, a);
      }
    }
  }

  lemma OthersKeepTried(w: World, a: Action)
    requires Enabled(w, a) && !a.Handle?
    ensures Step(w, a).handled == w.handled && w.outcome.Keys <= Step(w, a).outcome.Keys
  {
    hide ReconcileState, Cleared, ClearEvents, Restarted, Progress, ApplyState, RemoveState;
  }

  lemma {:induction false} RunKeepsTried(w: World, acts: seq<Action>)
    requires Inv(w) && Tried(w)
    ensures Tried(Run(w, acts))
    decreases |acts|
  {
    if acts != [] {
      StepKeepsTried(w, acts[0]);
      StepKeepsInv(w, acts[0]);
      RunKeepsTried(Step(w, acts[0]), acts[1..]);
    }
  }
}
