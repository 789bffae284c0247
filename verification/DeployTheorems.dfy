/** What holds of the deploy pipeline in every run, and what only holds of serial ones. */
module DeployTheorems {
  import opened Common
  import opened WorkerNames
  import opened Deploy
  import opened DeployInvariant

  // For any number of pool workers, any interleaving and any failures: an active version exists, is a
  // version of that very worker, and has succeeded.
  lemma ActiveVersionSound(poolSize: nat, acts: seq<Action>, w: nat)
    ensures var t := Run(Init(poolSize), acts).t;
            w in t.workers && t.workers[w].active.Some? ==>
              var v := t.workers[w].active.value;
              v in t.versions && t.versions[v].worker == w && t.versions[v].status == VSuccess
  {
    InitInv(poolSize);
    RunKeepsInv(Init(poolSize), acts);
  }

  // Every version row belongs to a worker row, and is as it was inserted but for its status.
  lemma VersionsBelong(poolSize: nat, acts: seq<Action>, v: nat)
    ensures var s := Run(Init(poolSize), acts);
            v in s.t.versions ==>
              s.t.versions[v].worker in s.t.workers && v in s.made && s.t.versions[v].(status := VLoading) == s.made[v]
  {
    InitInv(poolSize);
    RunKeepsInv(Init(poolSize), acts);
  }

  // --- A version's status is settled once ---

  // A job under way is for a version whose status is still open.
  lemma HandUnsettled(s: Sys, p: nat)
    requires Inv(s) && p in s.hands && !s.hands[p].Marking?
    ensures Unsettled(s, s.hands[p].v)
  {
    hide Rows, Actives, Writers, AgreesFor;
    HandOk(s, p);
  }

  lemma NewVersionId(s: Sys, v: nat)
    requires Inv(s) && v in s.t.versions
    ensures v < s.t.nextVersion
  {
    hide Actives, Jobs, Writers, AgreesFor, Identified;
  }

  lemma StatusStep(s: Sys, a: Action, v: nat)
    requires Inv(s) && v in s.t.versions && s.t.versions[v].status != VLoading
    ensures v in Step(s, a).t.versions ==> Step(s, a).t.versions[v] == s.t.versions[v]
  {
    hide Inv;
    NewVersionId(s, v);
    if Enabled(s, a) && (a.Commit? || a.Fail?) {
      HandUnsettled(s, a.p);
    }
  }

  lemma {:induction false} StatusStays(s: Sys, acts: seq<Action>, v: nat)
    requires Inv(s) && v in s.made && v < s.t.nextVersion
    requires v in s.t.versions && s.t.versions[v].status != VLoading
    ensures v in Run(s, acts).t.versions ==> Run(s, acts).t.versions[v] == s.t.versions[v]
    decreases |acts|
  {
    hide Inv, Step;
    if acts != [] {
      StepKeepsInv(s, acts[0]);
      StatusStep(s, acts[0], v);
      MadeStays(s, acts[0], v);
      if v in Step(s, acts[0]).t.versions {
        StatusStays(Step(s, acts[0]), acts[1..], v);
      } else {
        GoneStays(Step(s, acts[0]), acts[1..], v);
      }
    }
  }

  // No id below the sequence's next is given to a new version.
  predicate Later(t: Tables, u: Tables) {
    t.nextVersion <= u.nextVersion && forall v :: v in u.versions && v !in t.versions ==> v >= t.nextVersion
  }

  lemma StatementsLater(t: Tables, v: nat, w: nat, status: VersionStatus, wid: string, mark: WorkerStatus)
    ensures Later(t, MarkVersion(t, v, status)) && Later(t, MarkWorker(t, wid, mark)) && Later(t, Succeed(t, v, w))
    ensures Later(t, DeleteWorker(t, w))
  {
  }

  lemma SubmitLater(s: Sys, w: nat, image: string, port: int, sent: bool)
    requires w in s.t.workers
    ensures Later(s.t, SubmitStep(s, w, image, port, sent).t)
    ensures forall v :: v in s.made ==> v in SubmitStep(s, w, image, port, sent).made
  {
  }

  lemma StepLater(s: Sys, a: Action)
    ensures Later(s.t, Step(s, a).t) && forall v :: v in s.made ==> v in Step(s, a).made
  {
    hide MarkVersion, MarkWorker, Succeed, DeleteWorker, SubmitStep, LoadStep, WriteStep, Busy, WorkerName;
    if Enabled(s, a) {
      match a
      case Create(_, _) =>
      case Submit(w, image, port, sent) => SubmitLater(s, w, image, port, sent);
      case Delete(w) => StatementsLater(s.t, 0, w, VError, "", WError);
      case DeleteCR(_) =>
      case Take(_, _) =>
      case Load(p, ok) => LoadKeepsTables(s, p, s.hands[p].v, ok);
      case Write(p, ok) => WriteKeepsTables(s, p, s.hands[p], ok);
      case Commit(p, _) => StatementsLater(s.t, s.hands[p].v, s.hands[p].w, VError, "", WError);
      case Fail(p, _) => StatementsLater(s.t, s.hands[p].v, 0, VError, "", WError);
      case Mark(p, _) => StatementsLater(s.t, 0, 0, VError, s.hands[p].wid, WError);
    }
  }

  lemma LoadKeepsTables(s: Sys, p: nat, v: nat, ok: bool)
    ensures LoadStep(s, p, v, ok).t == s.t && LoadStep(s, p, v, ok).made == s.made
  {
  }

  lemma WriteKeepsTables(s: Sys, p: nat, pc: Pc, ok: bool)
    requires pc.Loaded?
    ensures WriteStep(s, p, pc, ok).t == s.t && WriteStep(s, p, pc, ok).made == s.made
  {
  }

  lemma MadeStays(s: Sys, a: Action, v: nat)
    requires v in s.made && v < s.t.nextVersion
    ensures v in Step(s, a).made && v < Step(s, a).t.nextVersion
    ensures v !in s.t.versions ==> v !in Step(s, a).t.versions
  {
    hide Step;
    StepLater(s, a);
  }

  lemma {:induction false} GoneStays(s: Sys, acts: seq<Action>, v: nat)
    requires v in s.made && v < s.t.nextVersion && v !in s.t.versions
    ensures v !in Run(s, acts).t.versions
    decreases |acts|
  {
    hide Step;
    if acts != [] {
      MadeStays(s, acts[0], v);
      GoneStays(Step(s, acts[0]), acts[1..], v);
    }
  }

  // Whatever a run goes on to do, a status that is success or error stays, as long as the row does.
  lemma SettledStatusIsFinal(poolSize: nat, acts: seq<Action>, more: seq<Action>, v: nat)
    ensures var s := Run(Init(poolSize), acts); var s' := Run(s, more);
            v in s.t.versions && v in s'.t.versions && s.t.versions[v].status != VLoading ==>
              s'.t.versions[v] == s.t.versions[v]
  {
    InitInv(poolSize);
    RunKeepsInv(Init(poolSize), acts);
    var s := Run(Init(poolSize), acts);
    if v in s.t.versions && s.t.versions[v].status != VLoading {
      assert v in s.made;
      StatusStays(s, more, v);
    }
  }

  // A version becomes a success only when a job that wrote its CR commits, and an error only when a job that
  // could not load it or write its CR reports so; it never goes back to loading.
  lemma StatusChanges(s: Sys, a: Action, v: nat)
    requires v in s.t.versions && v in Step(s, a).t.versions
    requires Step(s, a).t.versions[v].status != s.t.versions[v].status && v < s.t.nextVersion
    ensures match Step(s, a).t.versions[v].status
            case VSuccess => a.Commit? && a.ok && a.p in s.hands && s.hands[a.p].Written? && s.hands[a.p].v == v
            case VError => a.Fail? && a.ok && a.p in s.hands && s.hands[a.p].v == v
                           && (s.hands[a.p].LoadFailed? || s.hands[a.p].WriteFailed?)
            case VLoading => false
  {
    hide Busy, FreshWid, WorkerName, MarkVersion, MarkWorker, Succeed, DeleteWorker, InsertWorker, InsertVersion;
    hide SubmitStep, LoadStep, WriteStep;
    if Enabled(s, a) {
      match a
      case Create(wid, owner) => OldVersionsStay(s, 0, wid, owner, 0, false, v);
      case Submit(w, image, port, sent) => OldVersionsStay(s, w, "", image, port, sent, v);
      case Load(p, ok) => LoadKeepsTables(s, p, s.hands[p].v, ok);
      case Write(p, ok) => WriteKeepsTables(s, p, s.hands[p], ok);
      case Commit(p, _) => VersionsAfter(s.t, s.hands[p].v, s.hands[p].w, VError, "", v);
      case Fail(p, _) => VersionsAfter(s.t, s.hands[p].v, 0, VError, "", v);
      case Delete(w) => VersionsAfter(s.t, 0, w, VError, "", v);
      case Mark(p, _) => VersionsAfter(s.t, 0, 0, VError, s.hands[p].wid, v);
      case _ =>
    }
  }

  lemma OldVersionsStay(s: Sys, w: nat, wid: string, text: string, port: int, sent: bool, v: nat)
    requires v in s.t.versions && v < s.t.nextVersion
    ensures InsertWorker(s.t, wid, text).versions == s.t.versions
    ensures w in s.t.workers ==>
              && v in SubmitStep(s, w, text, port, sent).t.versions
              && SubmitStep(s, w, text, port, sent).t.versions[v] == s.t.versions[v]
  {
  }

  lemma VersionsAfter(t: Tables, x: nat, w: nat, status: VersionStatus, wid: string, v: nat)
    requires v in t.versions
    ensures var u := MarkVersion(t, x, status);
            v in u.versions && u.versions[v].status == if v == x then status else t.versions[v].status
    ensures var u := Succeed(t, x, w);
            v in u.versions && u.versions[v].status == if v == x then VSuccess else t.versions[v].status
    ensures MarkWorker(t, wid, WError).versions == t.versions
    ensures v in DeleteWorker(t, w).versions ==> DeleteWorker(t, w).versions[v] == t.versions[v]
  {
  }

  // --- CR and active version ---

  // The CR shows the image and port of the worker's active version.
  predicate InStep(s: Sys, w: nat)
    requires w in s.t.workers && w in s.born && NameOf(s, w) in s.crs
  {
    && s.t.workers[w].active.Some? && s.t.workers[w].active.value in s.t.versions
    && s.crs[NameOf(s, w)] == ImageOf(s.t.versions[s.t.workers[w].active.value])
  }

  // A live worker whose jobs never overlapped and whose success transactions went through is in step
  // whenever none of its jobs is between writing the CR and committing.
  lemma InStepUnlessSpoiled(poolSize: nat, acts: seq<Action>, w: nat)
    ensures var s := Run(Init(poolSize), acts);
            w in s.t.workers ==>
              w in s.born && (NameOf(s, w) in s.crs && w !in s.spoiled && !Committing(s, w) ==> InStep(s, w))
  {
    InitInv(poolSize);
    RunKeepsInv(Init(poolSize), acts);
    assert AgreesFor(Run(Init(poolSize), acts), w);
  }

  predicate CommitsSucceed(acts: seq<Action>) {
    forall i :: 0 <= i < |acts| && acts[i].Commit? ==> acts[i].ok
  }

  predicate OneHand(s: Sys) {
    s.poolSize <= 1 && s.spoiled == {} && forall p :: p in s.hands ==> p == 0
  }

  lemma SerialStep(s: Sys, a: Action)
    requires OneHand(s) && (a.Commit? ==> a.ok)
    ensures OneHand(Step(s, a))
  {
    if a.Take? && Enabled(s, a) {
      assert s.hands == map[];
      assert !Busy(s, s.made[a.v].worker);
    }
  }

  lemma {:induction false} SerialNeverSpoils(s: Sys, acts: seq<Action>)
    requires OneHand(s) && CommitsSucceed(acts)
    ensures OneHand(Run(s, acts))
    decreases |acts|
  {
    if acts != [] {
      SerialStep(s, acts[0]);
      assert forall i :: 0 <= i < |acts[1..]| ==> acts[1..][i] == acts[i + 1];
      SerialNeverSpoils(Step(s, acts[0]), acts[1..]);
    }
  }

  // With one pool worker and success transactions that go through, every live worker that has a CR is in
  // step between jobs, over any mix of deploys, failing writes, row and CR deletions.
  lemma SerialInStep(acts: seq<Action>, w: nat)
    requires CommitsSucceed(acts)
    ensures var s := Run(Init(1), acts);
            w in s.t.workers && s.hands == map[] ==> w in s.born && (NameOf(s, w) in s.crs ==> InStep(s, w))
  {
    SerialNeverSpoils(Init(1), acts);
    InStepUnlessSpoiled(1, acts, w);
  }

  // In general, with any interleaving: a live worker with a CR is in step exactly if it has an active version
  // and the job that wrote the CR last deployed the same image and port as that version.
  lemma InStepIff(poolSize: nat, acts: seq<Action>, w: nat)
    ensures var s := Run(Init(poolSize), acts);
            w in s.t.workers ==>
              w in s.born &&
              (NameOf(s, w) in s.crs ==>
                 NameOf(s, w) in s.writer &&
                 var written, active := s.writer[NameOf(s, w)], s.t.workers[w].active;
                 && written in s.made && s.made[written].worker == w
                 && (active.Some? ==> active.value in s.made && s.made[active.value].worker == w)
                 && (InStep(s, w) <==> active.Some? && ImageOf(s.made[written]) == ImageOf(s.made[active.value])))
  {
    InitInv(poolSize);
    RunKeepsInv(Init(poolSize), acts);
    var s := Run(Init(poolSize), acts);
    if w in s.t.workers && NameOf(s, w) in s.crs {
      NamesDiffer(s, w, s.made[s.writer[NameOf(s, w)]].worker);
    }
  }

  // Two pool workers can leave a worker out of step: both jobs write the CR, the second commits first.
  function Submits(s: Sys): Sys {
    Step(Step(Step(s, Create("a", "u")), Submit(1, "one", 80, true)), Submit(1, "two", 80, true))
  }

  function Deploys(s: Sys): Sys {
    Step(Step(Step(Step(s, Take(0, 1)), Take(1, 2)), Load(0, true)), Load(1, true))
  }

  function Finishes(s: Sys): Sys {
    Step(Step(Step(Step(s, Write(0, true)), Write(1, true)), Commit(1, true)), Commit(0, true))
  }

  const ONE := Version(1, "one", 80, VLoading)
  const TWO := Version(1, "two", 80, VLoading)
  const QUEUED := Sys(Tables(map[1 := Worker("a", "u", WLoading, None)], map[1 := ONE, 2 := TWO], 2, 3),
                      map[], {1, 2}, map[], 2, map[1 := ("a", "u")], map[1 := ONE, 2 := TWO], map[], {})

  lemma TwoDeploysQueued()
    ensures Submits(Init(2)) == QUEUED
  {
    var s1 := Step(Init(2), Create("a", "u"));
    assert s1.t == Tables(map[1 := Worker("a", "u", WUnloaded, None)], map[], 2, 1);
    var s2 := Step(s1, Submit(1, "one", 80, true));
    assert s2.t == Tables(map[1 := Worker("a", "u", WLoading, None)], map[1 := ONE], 2, 2);
  }

  lemma FirstTaken()
    ensures Step(QUEUED, Take(0, 1)) == QUEUED.(submitted := {2}, hands := map[0 := Start(1)])
  {
    assert {1, 2} - {1} == {2};
  }

  lemma SecondTaken(s: Sys)
    requires s == QUEUED.(submitted := {2}, hands := map[0 := Start(1)])
    ensures Step(s, Take(1, 2)) == QUEUED.(submitted := {}, hands := map[0 := Start(1), 1 := Start(2)], spoiled := {1})
  {
    assert About(s, s.hands[0], 1);
    assert {2} - {2} == {};
  }

  lemma OneLoads(s: Sys, p: nat, v: nat)
    requires s.t == QUEUED.t && p in s.hands && s.hands[p] == Start(v) && v in {1, 2}
    ensures Step(s, Load(p, true)) == s.(
              hands := s.hands[p := Loaded(v, 1, "a", "u", Image(if v == 1 then "one" else "two", 80))])
  {
  }

  lemma BothLoaded()
    ensures Deploys(QUEUED) == QUEUED.(
              submitted := {}, spoiled := {1},
              hands := map[0 := Loaded(1, 1, "a", "u", Image("one", 80)),
                           1 := Loaded(2, 1, "a", "u", Image("two", 80))])
  {
    hide Step;
    FirstTaken();
    var s1 := Step(QUEUED, Take(0, 1));
    SecondTaken(s1);
    var s2 := Step(s1, Take(1, 2));
    OneLoads(s2, 0, 1);
    OneLoads(Step(s2, Load(0, true)), 1, 2);
  }

  lemma OneWrites(s: Sys, p: nat, v: nat, image: Image)
    requires p in s.hands && s.hands[p] == Loaded(v, 1, "a", "u", image)
    ensures Step(s, Write(p, true)) == s.(
              hands := s.hands[p := Written(v, 1)], crs := s.crs[WorkerName("a", "u") := image],
              writer := s.writer[WorkerName("a", "u") := v])
  {
  }

  lemma BothWrite(s: Sys)
    requires s.crs == map[] && s.writer == map[]
    requires s.hands == map[0 := Loaded(1, 1, "a", "u", Image("one", 80)),
                            1 := Loaded(2, 1, "a", "u", Image("two", 80))]
    ensures Step(Step(s, Write(0, true)), Write(1, true)) == s.(
              hands := map[0 := Written(1, 1), 1 := Written(2, 1)],
              crs := map[WorkerName("a", "u") := Image("two", 80)], writer := map[WorkerName("a", "u") := 2])
  {
    hide Step, WorkerName;
    OneWrites(s, 0, 1, Image("one", 80));
    OneWrites(Step(s, Write(0, true)), 1, 2, Image("two", 80));
  }

  lemma OneCommits(s: Sys, p: nat, v: nat, w: nat)
    requires p in s.hands && s.hands[p] == Written(v, w)
    ensures Step(s, Commit(p, true)) == s.(t := Succeed(s.t, v, w), hands := s.hands - {p})
  {
    hide Succeed;
  }

  lemma BothSucceed()
    ensures var t := Succeed(Succeed(QUEUED.t, 2, 1), 1, 1);
            && t.workers == map[1 := Worker("a", "u", WActive, Some(1))]
            && t.versions == map[1 := ONE.(status := VSuccess), 2 := TWO.(status := VSuccess)]
  {
    assert Succeed(QUEUED.t, 2, 1).versions == map[1 := ONE, 2 := TWO.(status := VSuccess)];
  }

  lemma FirstCommitsLast(s: Sys)
    requires s.t == QUEUED.t && s.hands == map[0 := Written(1, 1), 1 := Written(2, 1)]
    ensures var s' := Step(Step(s, Commit(1, true)), Commit(0, true));
            && s' == s.(t := s'.t, hands := map[])
            && s'.t.workers == map[1 := Worker("a", "u", WActive, Some(1))]
            && s'.t.versions == map[1 := ONE.(status := VSuccess), 2 := TWO.(status := VSuccess)]
  {
    hide Step, Succeed;
    OneCommits(s, 1, 2, 1);
    assert s.hands - {1} == map[0 := Written(1, 1)];
    OneCommits(Step(s, Commit(1, true)), 0, 1, 1);
    BothSucceed();
  }

  lemma OverlapGetsOutOfStep()
    ensures var s := Finishes(Deploys(Submits(Init(2))));
            && s.hands == map[] && 1 in s.t.workers && 1 in s.born && NameOf(s, 1) in s.crs
            && s.t.workers[1].active == Some(1) && s.crs[NameOf(s, 1)] == Image("two", 80)
            && !InStep(s, 1)
  {
    hide Step;
    TwoDeploysQueued();
    BothLoaded();
    BothWrite(Deploys(QUEUED));
    FirstCommitsLast(Step(Step(Deploys(QUEUED), Write(0, true)), Write(1, true)));
  }

  // --- The job run from start to end ---

  // One pool worker runs the job of version v without interference.
  function Alone(s: Sys, p: nat, env: JobEnv): Sys {
    var s1 := Step(s, Load(p, env.load));
    if p in s1.hands && s1.hands[p].LoadFailed? then Step(s1, Fail(p, env.markVersion)) else AfterLoad(s1, p, env)
  }

  function AfterLoad(s: Sys, p: nat, env: JobEnv): Sys {
    var s1 := Step(s, Write(p, env.write));
    if p in s1.hands && s1.hands[p].WriteFailed? then Step(Step(s1, Fail(p, env.markVersion)), Mark(p, env.markWorker))
    else Step(s1, Commit(p, env.commit))
  }

  lemma LoadFailedIsJob(s: Sys, p: nat, v: nat, env: JobEnv)
    requires p in s.hands && s.hands[p] == Start(v)
    requires !env.load || v !in s.t.versions || s.t.versions[v].worker !in s.t.workers
    ensures var marked := if env.markVersion then MarkVersion(s.t, v, VError) else s.t;
            Alone(s, p, env) == s.(t := marked, hands := s.hands - {p})
  {
    hide MarkVersion;
    var s1 := Step(s, Load(p, env.load));
    assert s1 == Hand(s, p, LoadFailed(v));
    assert s1.hands - {p} == s.hands - {p};
    assert Step(s1, Fail(p, env.markVersion)) == FailStep(s1, p, LoadFailed(v), env.markVersion);
  }

  lemma WrittenIsJob(s: Sys, p: nat, env: JobEnv)
    requires p in s.hands && s.hands[p].Loaded? && env.write
    ensures var pc, s' := s.hands[p], AfterLoad(s, p, env);
            && s'.hands == s.hands - {p}
            && s'.t == (if env.commit then Succeed(s.t, pc.v, pc.w) else s.t)
            && s'.crs == s.crs[WorkerName(pc.wid, pc.owner) := pc.image]
  {
    hide Succeed, WorkerName;
    var pc := s.hands[p];
    var s1 := WriteStep(s, p, pc, true);
    assert Step(s, Write(p, true)) == s1 && s1.hands[p] == Written(pc.v, pc.w);
    assert s1.hands - {p} == s.hands - {p};
    assert Step(s1, Commit(p, env.commit)) == CommitStep(s1, p, s1.hands[p], env.commit);
  }

  lemma NotWrittenIsJob(s: Sys, p: nat, env: JobEnv)
    requires p in s.hands && s.hands[p].Loaded? && !env.write
    ensures var pc, s' := s.hands[p], AfterLoad(s, p, env);
            var marked := if env.markVersion then MarkVersion(s.t, pc.v, VError) else s.t;
            && s'.hands == s.hands - {p} && s'.crs == s.crs
            && s'.t == (if env.markWorker then MarkWorker(marked, pc.wid, WError) else marked)
  {
    hide MarkWorker, MarkVersion, WorkerName;
    var pc := s.hands[p];
    var s1 := WriteStep(s, p, pc, false);
    assert Step(s, Write(p, false)) == s1 && s1.hands[p] == WriteFailed(pc.v, pc.wid);
    var s2 := FailStep(s1, p, s1.hands[p], env.markVersion);
    assert Step(s1, Fail(p, env.markVersion)) == s2 && s2.hands[p] == Marking(pc.wid);
    assert s2.hands - {p} == s.hands - {p};
  }

  // It does to tables and CRs what the job does as a whole.
  lemma AloneIsJob(s: Sys, p: nat, v: nat, env: JobEnv)
    requires p in s.hands && s.hands[p] == Start(v)
    ensures (Alone(s, p, env).t, Alone(s, p, env).crs) == JobResult(s.t, s.crs, v, env)
    ensures Alone(s, p, env).hands == s.hands - {p}
  {
    if !env.load || v !in s.t.versions || s.t.versions[v].worker !in s.t.workers {
      LoadFailedIsJob(s, p, v, env);
    } else {
      LoadedIsJob(s, p, v, env);
    }
  }

  lemma LoadedIsJob(s: Sys, p: nat, v: nat, env: JobEnv)
    requires p in s.hands && s.hands[p] == Start(v)
    requires env.load && v in s.t.versions && s.t.versions[v].worker in s.t.workers
    ensures (Alone(s, p, env).t, Alone(s, p, env).crs) == JobResult(s.t, s.crs, v, env)
    ensures Alone(s, p, env).hands == s.hands - {p}
  {
    hide MarkWorker, MarkVersion, Succeed, WorkerName, AfterLoad;
    var s1 := LoadStep(s, p, v, true);
    assert Step(s, Load(p, true)) == s1 && s1.hands[p].Loaded?;
    assert s1.hands - {p} == s.hands - {p};
    if env.write {
      WrittenIsJob(s1, p, env);
    } else {
      NotWrittenIsJob(s1, p, env);
    }
  }
}
