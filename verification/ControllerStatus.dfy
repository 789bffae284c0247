/** What the status of a CR says of its last reconcile, over whole runs (k8s/controller, updateStatus). */
module ControllerStatus {
  import opened Cluster
  import opened Controller
  import opened ControllerRun

  predicate Says(cr: CR, phase: string, message: string) {
    cr.phase == phase && cr.message == message
  }

  // The CR says what was written last: that a reconcile runs, that it succeeded, or that it failed, and how.
  ghost predicate ToldFor(w: World, n: string) {
    n in w.reported ==>
      && n in w.s.crs && n in w.outcome
      && match w.reported[n]
         case Started => Says(w.s.crs[n], "Deploying", "")
         case Ended(message) =>
           if w.outcome[n].Succeeded? then Says(w.s.crs[n], "Running", "") else Says(w.s.crs[n], "Failed", message)
  }

  ghost predicate Truthful(w: World) {
    forall n :: ToldFor(w, n)
  }

  lemma StatusSays(s: State, n: string, phase: string, message: string, ok: bool)
    ensures var t := StatusWritten(s, n, phase, message, ok);
            && t == s.(crs := t.crs, watch := t.watch) && t.crs.Keys == s.crs.Keys
            && (ok && n in s.crs ==> Says(t.crs[n], phase, message))
            && (!ok && n in s.crs ==> t.crs[n] == s.crs[n])
            && forall m :: m in s.crs && m != n ==> t.crs[m] == s.crs[m]
  {
  }

  lemma ReconcileSays(s: State, cr: CR, env: Env)
    ensures var t, n := ReconcileState(s, cr, env), cr.Name();
            && t.crs.Keys == s.crs.Keys && (forall m :: m in s.crs && m != n ==> t.crs[m] == s.crs[m])
            && (n in s.crs && env.final ==>
                  if Progress(s.objects, n, env.calls) == 5 then Says(t.crs[n], "Running", "")
                  else Says(t.crs[n], "Failed", env.message))
            && (n in s.crs && !env.final && env.deploying ==> Says(t.crs[n], "Deploying", ""))
  {
    hide StatusWritten, Reconciled, Progress, Says;
    var n := cr.Name();
    StatusSays(s, n, "Deploying", "", env.deploying);
    var s1 := StatusWritten(s, n, "Deploying", "", env.deploying);
    var done := Progress(s1.objects, n, env.calls);
    var s2 := s1.(objects := Reconciled(s1.objects, cr.spec, s1.domain, done));
    StatusSays(s2, n, "Failed", env.message, env.final);
    StatusSays(s2, n, "Running", "", env.final);
  }

  lemma ReconcileTruthful(w: World, cr: CR, env: Env)
    requires Truthful(w)
    ensures Truthful(Reconcile(w, cr, env))
  {
    hide ReconcileState, Says, Progress;
    ReconcileSays(w.s, cr, env);
    forall n ensures ToldFor(Reconcile(w, cr, env), n) {
      assert ToldFor(w, n);
    }
  }

  // Nothing the status of a CR depends on changes, but CRs may come.
  lemma SameStatusTruthful(w: World, v: World)
    requires Truthful(w) && v.outcome == w.outcome && v.reported == w.reported
    requires forall n :: n in w.s.crs ==> n in v.s.crs && Says(v.s.crs[n], w.s.crs[n].phase, w.s.crs[n].message)
    ensures Truthful(v)
  {
    forall n ensures ToldFor(v, n) {
      assert ToldFor(w, n);
    }
  }

  lemma DeleteAllTruthful(w: World, cr: CR, failed: set<Kind>)
    requires Truthful(w)
    ensures Truthful(DeleteAll(w, cr, failed))
  {
    hide Cleared, ClearEvents, Says;
    forall n ensures ToldFor(DeleteAll(w, cr, failed), n) {
      assert ToldFor(w, n);
    }
  }

  lemma RemoveTruthful(w: World, n: string)
    requires Truthful(w)
    ensures Truthful(Step(w, Remove(n)))
  {
    hide Says;
    forall m ensures ToldFor(Step(w, Remove(n)), m) {
      assert ToldFor(w, m);
    }
  }

  lemma HandleTruthful(w: World, env: Env, failed: set<Kind>)
    requires Truthful(w) && w.s.notes != []
    ensures Truthful(HandleStep(w, env, failed))
  {
    hide Truthful, Reconcile, DeleteAll;
    SameStatusTruthful(w, Told(w));
    match w.s.notes[0]
    case Added(cr) => ReconcileTruthful(Told(w), cr, env);
    case Updated(_, now) => ReconcileTruthful(Told(w), now, env);
    case Deleted(cr) => DeleteAllTruthful(Told(w), cr, failed);
  }

  lemma HandleDeleteTruthful(w: World, i: nat, env: Env)
    requires Truthful(w) && i < |w.s.deletes|
    ensures Truthful(HandleDeleteStep(w, i, env))
  {
    hide Truthful, Reconcile;
    var w1 := w.(s := w.s.(deletes := Without(w.s.deletes, i)));
    SameStatusTruthful(w, w1);
    var app := w.s.deletes[i].1;
    if app in w1.s.store { ReconcileTruthful(w1, w1.s.store[app], env); }
  }

  lemma StepTruthful(w: World, a: Action)
    requires Truthful(w)
    ensures Truthful(Step(w, a))
  {
    hide Truthful, HandleStep, HandleDeleteStep, Cleared, ClearEvents, Restarted;
    if Enabled(w, a) {
      match a
      case Handle(env, failed) => HandleTruthful(w, env, failed);
      case HandleDelete(i, env) => HandleDeleteTruthful(w, i, env);
      case Remove(n) => RemoveTruthful(w, n);
      case _ => SameStatusTruthful(w, Step(w, a));
    }
  }

  lemma {:induction false} RunTruthful(w: World, acts: seq<Action>)
    requires Truthful(w)
    ensures Truthful(Run(w, acts))
    decreases |acts|
  {
    hide Truthful, Step;
    if acts != [] {
      StepTruthful(w, acts[0]);
      RunTruthful(Step(w, acts[0]), acts[1..]);
    }
  }

  // In every reachable state: if the status write at the end of the last reconcile of n went through, and
  // since then neither the CR was removed nor its objects deleted, then the CR says "Running" if and only if
  // that reconcile succeeded, and otherwise "Failed" with that reconcile's error. If only the write at its
  // start went through, it says "Deploying".
  lemma StatusIsTrue(domain: string, acts: seq<Action>, n: string)
    ensures var w := Run(Init(domain), acts);
            n in w.reported ==>
              && n in w.s.crs && n in w.outcome
              && (w.reported[n].Ended? ==>
                    && (w.s.crs[n].phase == "Running" && w.s.crs[n].message == "" <==> w.outcome[n].Succeeded?)
                    && (w.outcome[n].Failed? ==>
                          w.s.crs[n].phase == "Failed" && w.s.crs[n].message == w.reported[n].message))
              && (w.reported[n].Started? ==> w.s.crs[n].phase == "Deploying" && w.s.crs[n].message == "")
  {
    RunTruthful(Init(domain), acts);
    assert ToldFor(Run(Init(domain), acts), n);
    assert |"Running"| == 7 && |"Failed"| == 6;
  }
}
