/** What every step of the deploy pipeline keeps, whatever the interleaving. */
module DeployInvariant {
  import opened WorkerNames
  import opened Deploy

  // Worker ids are dash-free and were never given out twice.
  ghost predicate Identified(born: map<nat, (string, string)>) {
    && (forall w :: w in born ==> DashFree(born[w].0))
    && (forall w, x :: w in born && x in born && born[w].0 == born[x].0 ==> w == x)
  }

  // Rows agree with what was inserted; versions live exactly as long as their worker.
  ghost predicate Rows(s: Sys) {
    && (forall w :: w in s.t.workers ==> w in s.born && s.born[w] == (s.t.workers[w].wid, s.t.workers[w].owner))
    && (forall w :: w in s.born ==> w < s.t.nextWorker)
    && Identified(s.born)
    && (forall v :: v in s.made ==> v < s.t.nextVersion && s.made[v].worker in s.born)
    && (forall v :: v in s.t.versions ==> v in s.made && s.t.versions[v].(status := VLoading) == s.made[v])
    && (forall v :: v in s.made ==> (v in s.t.versions <==> s.made[v].worker in s.t.workers))
  }

  // An active version exists, belongs to the worker and succeeded.
  ghost predicate Actives(s: Sys) {
    forall w :: w in s.t.workers && s.t.workers[w].active.Some? ==>
      var v := s.t.workers[w].active.value;
      v in s.t.versions && s.t.versions[v].worker == w && s.t.versions[v].status == VSuccess
  }

  ghost predicate Unsettled(s: Sys, v: nat) {
    v in s.made && (v in s.t.versions ==> s.t.versions[v].status == VLoading)
  }

  ghost predicate PcOk(s: Sys, pc: Pc) {
    && (!pc.Marking? ==> Unsettled(s, pc.v) && pc.v !in s.submitted)
    && (pc.Loaded? ==> pc.w in s.born && s.made[pc.v].worker == pc.w && ImageOf(s.made[pc.v]) == pc.image
                       && s.born[pc.w] == (pc.wid, pc.owner))
    && (pc.Written? ==> s.made[pc.v].worker == pc.w)
  }

  // A version's job is in one place at most, and until it is done its status is still open.
  ghost predicate Jobs(s: Sys) {
    && (forall v :: v in s.submitted ==> Unsettled(s, v))
    && (forall p :: p in s.hands ==> PcOk(s, s.hands[p]))
    && (forall p, q :: p in s.hands && q in s.hands && p != q && !s.hands[p].Marking? && !s.hands[q].Marking? ==>
          s.hands[p].v != s.hands[q].v)
    && (forall p, q, w ::
          p in s.hands && q in s.hands && p != q && About(s, s.hands[p], w) && About(s, s.hands[q], w) ==>
          w in s.spoiled)
  }

  // Every CR was written by the job of a version of the worker it is named after.
  ghost predicate Writers(s: Sys) {
    forall n :: n in s.crs ==>
      && n in s.writer && s.writer[n] in s.made && s.crs[n] == ImageOf(s.made[s.writer[n]])
      && s.made[s.writer[n]].worker in s.born && n == NameOf(s, s.made[s.writer[n]].worker)
  }

  predicate Committing(s: Sys, w: nat) {
    exists p :: p in s.hands && s.hands[p].Written? && s.hands[p].w == w
  }

  // The CR of a worker whose jobs never overlapped is the active version's, or the one just written.
  ghost predicate AgreesFor(s: Sys, w: nat) {
    w in s.t.workers && w in s.born && w !in s.spoiled && NameOf(s, w) in s.crs ==>
      && (forall p :: p in s.hands && s.hands[p].Written? && s.hands[p].w == w && s.hands[p].v in s.made ==>
            s.crs[NameOf(s, w)] == ImageOf(s.made[s.hands[p].v]))
      && (!Committing(s, w) ==>
            && s.t.workers[w].active.Some? && s.t.workers[w].active.value in s.t.versions
            && s.crs[NameOf(s, w)] == ImageOf(s.t.versions[s.t.workers[w].active.value]))
  }

  ghost predicate Inv(s: Sys) {
    Rows(s) && Actives(s) && Jobs(s) && Writers(s) && forall w: nat :: AgreesFor(s, w)
  }

  lemma InitInv(poolSize: nat)
    ensures Inv(Init(poolSize))
  {
  }

  lemma NamesDiffer(s: Sys, w: nat, x: nat)
    requires Rows(s) && w in s.born && x in s.born
    ensures NameOf(s, w) == NameOf(s, x) <==> w == x
  {
    WorkerNameInjective(s.born[w].0, s.born[w].1, s.born[x].0, s.born[x].1);
  }

  lemma WritersFrame(s: Sys, s': Sys)
    requires Writers(s) && s'.crs == s.crs && s'.writer == s.writer
    requires forall v :: v in s.made ==> v in s'.made && s'.made[v] == s.made[v]
    requires forall w :: w in s.born ==> w in s'.born && s'.born[w] == s.born[w]
    ensures Writers(s')
  {
  }

  lemma HandOk(s: Sys, p: nat)
    requires Jobs(s) && p in s.hands
    ensures PcOk(s, s.hands[p])
  {
  }

  // The rows and their history do not depend on where the jobs are.
  lemma TablesFrame(s: Sys, s': Sys)
    requires Rows(s) && Actives(s) && s'.t == s.t && s'.born == s.born && s'.made == s.made
    ensures Rows(s') && Actives(s')
  {
    hide Identified;
  }

  lemma FreshNameUnused(s: Sys, wid: string, owner: string)
    requires Rows(s) && Writers(s) && FreshWid(s, wid)
    ensures WorkerName(wid, owner) !in s.crs
  {
    if WorkerName(wid, owner) in s.crs {
      var w := s.made[s.writer[WorkerName(wid, owner)]].worker;
      WorkerNameInjective(wid, owner, s.born[w].0, s.born[w].1);
    }
  }

  lemma CreateRows(s: Sys, wid: string, owner: string)
    requires Rows(s) && Actives(s) && FreshWid(s, wid)
    ensures var s' := Step(s, Create(wid, owner));
            && Rows(s') && Actives(s')
            && (forall w :: w in s.born ==> w in s'.born && s'.born[w] == s.born[w])
  {
  }

  lemma CreateJobs(s: Sys, wid: string, owner: string)
    requires Rows(s) && Jobs(s) && FreshWid(s, wid)
    ensures Jobs(Step(s, Create(wid, owner)))
  {
    var s' := Step(s, Create(wid, owner));
    forall p | p in s'.hands ensures PcOk(s', s'.hands[p]) {
      assert PcOk(s, s.hands[p]);
    }
  }

  lemma CreateAgrees(s: Sys, wid: string, owner: string, w: nat)
    requires Rows(s) && AgreesFor(s, w) && FreshWid(s, wid) && WorkerName(wid, owner) !in s.crs
    ensures AgreesFor(Step(s, Create(wid, owner)), w)
  {
    assert Committing(Step(s, Create(wid, owner)), w) <==> Committing(s, w);
  }

  lemma CreateKeepsInv(s: Sys, wid: string, owner: string)
    requires Inv(s) && FreshWid(s, wid)
    ensures Inv(Step(s, Create(wid, owner)))
  {
    hide Rows, Actives, Jobs, Writers, AgreesFor;
    var s' := Step(s, Create(wid, owner));
    CreateRows(s, wid, owner);
    CreateJobs(s, wid, owner);
    WritersFrame(s, s');
    FreshNameUnused(s, wid, owner);
    forall w: nat ensures AgreesFor(s', w) {
      CreateAgrees(s, wid, owner, w);
    }
  }

  lemma SubmitRows(s: Sys, w: nat, image: string, port: int, sent: bool)
    requires Rows(s) && w in s.t.workers
    ensures Rows(SubmitStep(s, w, image, port, sent))
    ensures forall v :: v in s.made ==> v != s.t.nextVersion
  {
    hide Identified;
  }

  lemma SubmitActives(s: Sys, w: nat, image: string, port: int, sent: bool)
    requires Rows(s) && Actives(s) && w in s.t.workers
    ensures Actives(SubmitStep(s, w, image, port, sent))
  {
    hide Identified;
  }

  lemma SubmitJobs(s: Sys, w: nat, image: string, port: int, sent: bool)
    requires Rows(s) && Jobs(s) && w in s.t.workers
    ensures Jobs(SubmitStep(s, w, image, port, sent))
  {
    var s' := SubmitStep(s, w, image, port, sent);
    forall p, x | p in s.hands && About(s', s'.hands[p], x) ensures About(s, s.hands[p], x) {
      assert PcOk(s, s.hands[p]);
    }
    forall p | p in s'.hands ensures PcOk(s', s'.hands[p]) {
      assert PcOk(s, s.hands[p]);
    }
  }

  lemma SubmitAgrees(s: Sys, w: nat, image: string, port: int, sent: bool, x: nat)
    requires Rows(s) && Actives(s) && Jobs(s) && AgreesFor(s, x) && w in s.t.workers
    ensures AgreesFor(SubmitStep(s, w, image, port, sent), x)
  {
    var s' := SubmitStep(s, w, image, port, sent);
    forall p | p in s.hands && s.hands[p].Written? ensures s.hands[p].v in s.made && s.hands[p].v != s.t.nextVersion {
      assert PcOk(s, s.hands[p]);
    }
    assert Committing(s', x) <==> Committing(s, x);
  }

  lemma SubmitKeepsInv(s: Sys, w: nat, image: string, port: int, sent: bool)
    requires Inv(s) && w in s.t.workers
    ensures Inv(SubmitStep(s, w, image, port, sent))
  {
    hide Rows, Actives, Jobs, Writers, AgreesFor;
    SubmitRows(s, w, image, port, sent);
    SubmitActives(s, w, image, port, sent);
    WritersFrame(s, SubmitStep(s, w, image, port, sent));
    SubmitJobs(s, w, image, port, sent);
    forall x: nat ensures AgreesFor(SubmitStep(s, w, image, port, sent), x) {
      SubmitAgrees(s, w, image, port, sent, x);
    }
  }

  lemma DeleteRows(s: Sys, w: nat)
    requires Rows(s) && Actives(s) && w in s.t.workers
    ensures Rows(Step(s, Delete(w))) && Actives(Step(s, Delete(w)))
  {
    hide Identified;
  }

  lemma DeleteJobs(s: Sys, w: nat)
    requires Jobs(s) && w in s.t.workers
    ensures Jobs(Step(s, Delete(w)))
  {
    var s' := Step(s, Delete(w));
    forall p | p in s'.hands ensures PcOk(s', s'.hands[p]) {
      assert PcOk(s, s.hands[p]);
    }
  }

  lemma DeleteAgrees(s: Sys, w: nat, x: nat)
    requires Rows(s) && Actives(s) && AgreesFor(s, x) && w in s.t.workers
    ensures AgreesFor(Step(s, Delete(w)), x)
  {
    assert Committing(Step(s, Delete(w)), x) <==> Committing(s, x);
  }

  lemma DeleteKeepsInv(s: Sys, w: nat)
    requires Inv(s) && w in s.t.workers
    ensures Inv(Step(s, Delete(w)))
  {
    hide Rows, Actives, Jobs, Writers, AgreesFor;
    DeleteRows(s, w);
    WritersFrame(s, Step(s, Delete(w)));
    DeleteJobs(s, w);
    forall x: nat ensures AgreesFor(Step(s, Delete(w)), x) {
      DeleteAgrees(s, w, x);
    }
  }

  lemma DeleteCRJobs(s: Sys, name: string)
    requires Jobs(s)
    ensures Jobs(Step(s, DeleteCR(name)))
  {
    var s' := Step(s, DeleteCR(name));
    forall p | p in s'.hands ensures PcOk(s', s'.hands[p]) {
      assert PcOk(s, s.hands[p]);
    }
  }

  lemma DeleteCRAgrees(s: Sys, name: string, x: nat)
    requires AgreesFor(s, x)
    ensures AgreesFor(Step(s, DeleteCR(name)), x)
  {
    assert Committing(Step(s, DeleteCR(name)), x) <==> Committing(s, x);
  }

  lemma DeleteCRWriters(s: Sys, name: string)
    requires Writers(s)
    ensures Writers(Step(s, DeleteCR(name)))
  {
  }

  lemma DeleteCRKeepsInv(s: Sys, name: string)
    requires Inv(s)
    ensures Inv(Step(s, DeleteCR(name)))
  {
    hide Rows, Actives, Jobs, Writers, AgreesFor;
    TablesFrame(s, Step(s, DeleteCR(name)));
    DeleteCRJobs(s, name);
    DeleteCRWriters(s, name);
    forall x: nat ensures AgreesFor(Step(s, DeleteCR(name)), x) {
      DeleteCRAgrees(s, name, x);
    }
  }

  // A pool worker's job goes on to pc or ends, the tables at most marking its version as failed.
  lemma HandAgrees(s: Sys, s': Sys, x: nat)
    requires AgreesFor(s, x) && Rows(s) && Actives(s)
    requires s'.crs == s.crs && s'.born == s.born && s'.made == s.made && s.spoiled <= s'.spoiled
    requires s'.t.workers.Keys == s.t.workers.Keys && s'.t.versions.Keys == s.t.versions.Keys
    requires forall w :: w in s.t.workers ==> s'.t.workers[w].active == s.t.workers[w].active
    requires forall v :: v in s.t.versions ==> ImageOf(s'.t.versions[v]) == ImageOf(s.t.versions[v])
    requires forall p :: (p in s'.hands && s'.hands[p].Written?) <==> (p in s.hands && s.hands[p].Written?)
    requires forall p :: p in s.hands && s.hands[p].Written? ==> s'.hands[p] == s.hands[p]
    ensures AgreesFor(s', x)
  {
    assert Committing(s, x) <==> Committing(s', x);
  }

  lemma TakeKeepsInv(s: Sys, p: nat, v: nat)
    requires Inv(s) && Enabled(s, Take(p, v))
    ensures Inv(TakeStep(s, p, v))
  {
    var s' := TakeStep(s, p, v);
    forall q | q in s'.hands ensures PcOk(s', s'.hands[q]) {
      if q != p { assert PcOk(s, s.hands[q]); }
    }
    forall q, r, w | q in s'.hands && r in s'.hands && q != r && About(s', s'.hands[q], w) && About(s', s'.hands[r], w)
      ensures w in s'.spoiled
    {
      if q == p {
        assert About(s, s.hands[r], w);
      } else if r == p {
        assert About(s, s.hands[q], w);
      } else {
        assert About(s, s.hands[q], w) && About(s, s.hands[r], w);
      }
    }
    forall x: nat ensures AgreesFor(s', x) {
      HandAgrees(s, s', x);
    }
  }

  lemma LoadedOk(s: Sys, p: nat, ok: bool)
    requires Rows(s) && Enabled(s, Load(p, ok)) && PcOk(s, s.hands[p])
    ensures var s' := Step(s, Load(p, ok)); PcOk(s', s'.hands[p]) && s'.hands[p].v == s.hands[p].v
  {
    hide Identified;
  }

  lemma LoadShape(s: Sys, p: nat, ok: bool)
    requires Enabled(s, Load(p, ok))
    ensures var s' := Step(s, Load(p, ok));
            p in s'.hands && !s'.hands[p].Marking? && s' == s.(hands := s.hands[p := s'.hands[p]])
  {
  }

  lemma LoadJobs(s: Sys, p: nat, ok: bool)
    requires Rows(s) && Jobs(s) && Enabled(s, Load(p, ok))
    ensures Jobs(Step(s, Load(p, ok)))
  {
    hide Rows, Step;
    var s' := Step(s, Load(p, ok));
    LoadShape(s, p, ok);
    LoadedOk(s, p, ok);
    forall q | q in s'.hands ensures PcOk(s', s'.hands[q]) {
      if q != p { assert PcOk(s, s.hands[q]); }
    }
    AboutSame(s, s', p);
  }

  lemma LoadRows(s: Sys, p: nat, ok: bool)
    requires Rows(s) && Actives(s) && Enabled(s, Load(p, ok))
    ensures Rows(Step(s, Load(p, ok))) && Actives(Step(s, Load(p, ok)))
    ensures exists pc: Pc :: !pc.Written? && Step(s, Load(p, ok)) == Hand(s, p, pc)
  {
    hide Identified;
  }

  lemma LoadKeepsInv(s: Sys, p: nat, ok: bool)
    requires Inv(s) && Enabled(s, Load(p, ok))
    ensures Inv(Step(s, Load(p, ok)))
  {
    hide Rows, Actives, Jobs, Writers, AgreesFor, Step;
    LoadRows(s, p, ok);
    LoadJobs(s, p, ok);
    var pc: Pc :| !pc.Written? && Step(s, Load(p, ok)) == Hand(s, p, pc);
    LoadedKeeps(s, p, pc);
  }

  lemma LoadedKeeps(s: Sys, p: nat, pc: Pc)
    requires Inv(s) && p in s.hands && s.hands[p].Start? && !pc.Written?
    ensures Writers(Hand(s, p, pc)) && forall x: nat :: AgreesFor(Hand(s, p, pc), x)
  {
    hide Rows, Actives, Jobs, Writers, AgreesFor;
    var s' := Hand(s, p, pc);
    WritersFrame(s, s');
    forall x: nat ensures AgreesFor(s', x) {
      HandAgrees(s, s', x);
    }
  }

  // Replacing one hand's place by a later one for the same version keeps who is about what.
  lemma AboutSame(s: Sys, s': Sys, p: nat)
    requires Jobs(s) && p in s.hands && !s.hands[p].Marking?
    requires s'.made == s.made && s.spoiled <= s'.spoiled
    requires forall q :: q in s'.hands && q != p ==> q in s.hands && s'.hands[q] == s.hands[q]
    requires p in s'.hands ==> s'.hands[p].Marking? || s'.hands[p].v == s.hands[p].v
    ensures forall q, w :: q in s'.hands && About(s', s'.hands[q], w) ==> q in s.hands && About(s, s.hands[q], w)
    ensures forall q, r, w ::
              q in s'.hands && r in s'.hands && q != r && About(s', s'.hands[q], w) && About(s', s'.hands[r], w) ==>
              w in s'.spoiled
  {
  }

  lemma WriteJobs(s: Sys, p: nat, ok: bool)
    requires Jobs(s) && Enabled(s, Write(p, ok))
    ensures Jobs(WriteStep(s, p, s.hands[p], ok))
  {
    var s' := WriteStep(s, p, s.hands[p], ok);
    assert PcOk(s, s.hands[p]);
    forall q | q in s'.hands ensures PcOk(s', s'.hands[q]) {
      if q != p { assert PcOk(s, s.hands[q]); }
    }
    AboutSame(s, s', p);
  }

  lemma WriteWriters(s: Sys, p: nat, ok: bool)
    requires Writers(s) && Enabled(s, Write(p, ok)) && PcOk(s, s.hands[p])
    ensures Writers(WriteStep(s, p, s.hands[p], ok))
  {
  }

  lemma WriteKeepsInv(s: Sys, p: nat, ok: bool)
    requires Inv(s) && Enabled(s, Write(p, ok))
    ensures Inv(WriteStep(s, p, s.hands[p], ok))
  {
    hide Rows, Actives, Jobs, Writers, AgreesFor;
    var s' := WriteStep(s, p, s.hands[p], ok);
    HandOk(s, p);
    TablesFrame(s, s');
    WriteJobs(s, p, ok);
    WriteWriters(s, p, ok);
    forall x: nat ensures AgreesFor(s', x) {
      if ok {
        WriteAgrees(s, p, x);
      } else {
        HandAgrees(s, s', x);
      }
    }
  }

  lemma WriteAgrees(s: Sys, p: nat, x: nat)
    requires Inv(s) && Enabled(s, Write(p, true))
    ensures AgreesFor(WriteStep(s, p, s.hands[p], true), x)
  {
    var pc := s.hands[p];
    var s' := WriteStep(s, p, pc, true);
    assert PcOk(s, pc) && AgreesFor(s, x);
    if x in s.born {
      NamesDiffer(s, x, pc.w);
    }
    if x == pc.w {
      assert s'.hands[p].Written? && s'.hands[p].w == x;
      forall q | q in s'.hands && s'.hands[q].Written? && s'.hands[q].w == x && q != p ensures x in s.spoiled {
        assert PcOk(s, s.hands[q]);
        assert About(s, s.hands[q], x) && About(s, s.hands[p], x);
      }
    } else {
      forall q ensures (q in s'.hands && s'.hands[q].Written? && s'.hands[q].w == x) <==>
                       (q in s.hands && s.hands[q].Written? && s.hands[q].w == x) {
      }
      assert Committing(s', x) <==> Committing(s, x);
    }
  }

  lemma CommitJobs(s: Sys, p: nat, ok: bool)
    requires Jobs(s) && Enabled(s, Commit(p, ok))
    ensures Jobs(CommitStep(s, p, s.hands[p], ok))
  {
    var s' := CommitStep(s, p, s.hands[p], ok);
    assert PcOk(s, s.hands[p]);
    forall q | q in s'.hands ensures PcOk(s', s'.hands[q]) {
      assert PcOk(s, s.hands[q]);
    }
    AboutSame(s, s', p);
  }

  lemma CommitKeepsInv(s: Sys, p: nat, ok: bool)
    requires Inv(s) && Enabled(s, Commit(p, ok))
    ensures Inv(CommitStep(s, p, s.hands[p], ok))
  {
    hide Rows, Actives, Jobs, Writers, AgreesFor;
    CommitJobs(s, p, ok);
    CommitRows(s, p, ok);
    forall x: nat ensures AgreesFor(CommitStep(s, p, s.hands[p], ok), x) {
      CommitAgrees(s, p, ok, x);
    }
  }

  lemma MarkRows(s: Sys, v: nat, status: VersionStatus)
    requires Rows(s)
    ensures Rows(s.(t := MarkVersion(s.t, v, status)))
  {
    hide Identified;
  }

  lemma MarkActives(s: Sys, v: nat, status: VersionStatus)
    requires Actives(s) && Unsettled(s, v)
    ensures Actives(s.(t := MarkVersion(s.t, v, status)))
  {
  }

  lemma SucceedRows(s: Sys, v: nat, w: nat)
    requires Rows(s)
    ensures Rows(s.(t := Succeed(s.t, v, w)))
  {
    hide Identified;
    MarkRows(s, v, VSuccess);
  }

  lemma SucceedActives(s: Sys, v: nat, w: nat)
    requires Rows(s) && Actives(s) && Unsettled(s, v) && s.made[v].worker == w
    ensures Actives(s.(t := Succeed(s.t, v, w)))
  {
    MarkActives(s, v, VSuccess);
  }

  lemma CommitRows(s: Sys, p: nat, ok: bool)
    requires Inv(s) && Enabled(s, Commit(p, ok))
    ensures var s' := CommitStep(s, p, s.hands[p], ok); Rows(s') && Actives(s') && Writers(s')
  {
    hide Rows, Actives, Jobs, Writers, AgreesFor;
    HandOk(s, p);
    var pc := s.hands[p];
    SucceedRows(s, pc.v, pc.w);
    SucceedActives(s, pc.v, pc.w);
    WritersFrame(s, CommitStep(s, p, pc, ok));
    TablesFrame(if ok then s.(t := Succeed(s.t, pc.v, pc.w)) else s, CommitStep(s, p, pc, ok));
  }

  lemma CommitAgrees(s: Sys, p: nat, ok: bool, x: nat)
    requires Inv(s) && Enabled(s, Commit(p, ok))
    ensures AgreesFor(CommitStep(s, p, s.hands[p], ok), x)
  {
    var pc := s.hands[p];
    var s' := CommitStep(s, p, pc, ok);
    assert PcOk(s, pc) && AgreesFor(s, x);
    if x == pc.w {
      forall q | q in s'.hands && s'.hands[q].Written? && s'.hands[q].w == x ensures x in s.spoiled {
        assert PcOk(s, s.hands[q]);
        assert About(s, s.hands[q], x) && About(s, s.hands[p], x);
      }
    } else {
      forall q ensures (q in s'.hands && s'.hands[q].Written? && s'.hands[q].w == x) <==>
                       (q in s.hands && s.hands[q].Written? && s.hands[q].w == x) {
      }
      assert Committing(s', x) <==> Committing(s, x);
    }
  }

  lemma FailJobs(s: Sys, p: nat, ok: bool)
    requires Jobs(s) && Enabled(s, Fail(p, ok))
    ensures Jobs(FailStep(s, p, s.hands[p], ok))
  {
    var pc := s.hands[p];
    var s' := FailStep(s, p, pc, ok);
    assert PcOk(s, pc);
    forall q | q in s'.hands ensures PcOk(s', s'.hands[q]) {
      if q != p { assert PcOk(s, s.hands[q]); }
    }
    AboutSame(s, s', p);
  }

  lemma FailRows(s: Sys, p: nat, ok: bool)
    requires Inv(s) && Enabled(s, Fail(p, ok))
    ensures var s' := FailStep(s, p, s.hands[p], ok); Rows(s') && Actives(s') && Writers(s')
  {
    hide Rows, Actives, Jobs, Writers, AgreesFor;
    HandOk(s, p);
    var pc := s.hands[p];
    MarkRows(s, pc.v, VError);
    MarkActives(s, pc.v, VError);
    WritersFrame(s, FailStep(s, p, pc, ok));
    TablesFrame(if ok then s.(t := MarkVersion(s.t, pc.v, VError)) else s, FailStep(s, p, pc, ok));
  }

  lemma FailKeepsInv(s: Sys, p: nat, ok: bool)
    requires Inv(s) && Enabled(s, Fail(p, ok))
    ensures Inv(FailStep(s, p, s.hands[p], ok))
  {
    hide Rows, Actives, Jobs, Writers, AgreesFor;
    FailJobs(s, p, ok);
    FailRows(s, p, ok);
    forall x: nat ensures AgreesFor(FailStep(s, p, s.hands[p], ok), x) {
      HandAgrees(s, FailStep(s, p, s.hands[p], ok), x);
    }
  }

  lemma MarkWorkerJobs(s: Sys, p: nat, ok: bool)
    requires Jobs(s) && Enabled(s, Mark(p, ok))
    ensures Jobs(Step(s, Mark(p, ok)))
  {
    var s' := Step(s, Mark(p, ok));
    forall q | q in s'.hands ensures PcOk(s', s'.hands[q]) {
      assert PcOk(s, s.hands[q]);
    }
    forall q, r, w | q in s'.hands && r in s'.hands && q != r && About(s', s'.hands[q], w) && About(s', s'.hands[r], w)
      ensures w in s'.spoiled
    {
      assert About(s, s.hands[q], w) && About(s, s.hands[r], w);
    }
  }

  lemma MarkWorkerRows(s: Sys, p: nat, ok: bool)
    requires Rows(s) && Actives(s) && Enabled(s, Mark(p, ok))
    ensures var s' := Step(s, Mark(p, ok)); Rows(s') && Actives(s')
  {
    hide Identified;
  }

  lemma MarkKeepsInv(s: Sys, p: nat, ok: bool)
    requires Inv(s) && Enabled(s, Mark(p, ok))
    ensures Inv(Step(s, Mark(p, ok)))
  {
    hide Rows, Actives, Jobs, Writers, AgreesFor;
    var s' := Step(s, Mark(p, ok));
    MarkWorkerJobs(s, p, ok);
    MarkWorkerRows(s, p, ok);
    WritersFrame(s, s');
    forall x: nat ensures AgreesFor(s', x) {
      HandAgrees(s, s', x);
    }
  }

  lemma StepKeepsInv(s: Sys, a: Action)
    requires Inv(s)
    ensures Inv(Step(s, a))
  {
    hide Inv;
    if Enabled(s, a) {
      match a
      case Create(wid, owner) => CreateKeepsInv(s, wid, owner);
      case Submit(w, image, port, sent) => SubmitKeepsInv(s, w, image, port, sent);
      case Delete(w) => DeleteKeepsInv(s, w);
      case DeleteCR(name) => DeleteCRKeepsInv(s, name);
      case Take(p, v) => TakeKeepsInv(s, p, v);
      case Load(p, ok) => LoadKeepsInv(s, p, ok);
      case Write(p, ok) => WriteKeepsInv(s, p, ok);
      case Commit(p, ok) => CommitKeepsInv(s, p, ok);
      case Fail(p, ok) => FailKeepsInv(s, p, ok);
      case Mark(p, ok) => MarkKeepsInv(s, p, ok);
    }
  }

  lemma {:induction false} RunKeepsInv(s: Sys, acts: seq<Action>)
    requires Inv(s)
    ensures Inv(Run(s, acts))
    decreases |acts|
  {
    hide Inv;
    if acts != [] {
      StepKeepsInv(s, acts[0]);
      RunKeepsInv(Step(s, acts[0]), acts[1..]);
    }
  }
}
