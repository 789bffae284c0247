/** What calls of the concurrent pool return: which handle, and when none. */
module PoolResults {
  import opened Common
  import opened Recency
  import opened PoolRun
  import opened PoolInvariant
  import opened PoolTheorems

  // The user's kept entry holds the handle, and it is open.
  predicate Serves(p: Pool, u: string, h: nat) {
    HeldBy(p, u, h) && h in p.open
  }

  predicate ReturnsServed(s: Sys, g: nat, u: string) {
    At(s, g).Returned? && At(s, g).user == u && At(s, g).result.Some? && Serves(s.pool, u, At(s, g).result.value)
  }

  lemma MovedServes(p: Pool, e: Element, u: string, h: nat)
    ensures Serves(Moved(p, e), u, h) <==> Serves(p, u, h)
  {
    hide MoveToFront;
  }

  // The double check under the write lock returns the handle of the entry it found healthy, and goes on to
  // evict and connect in every other case.
  lemma CheckReturns(s: Sys, g: nat, u: string, ok: bool)
    requires Inv(s) && At(s, g) == Checking(u)
    ensures var t := Step(s, Check(g, ok));
            if u in s.pool.userDBs && u !in ClosedUsers(s.pool) && ok then ReturnsServed(t, g, u)
            else At(t, g) == Evicting(u) && u !in t.pool.userDBs
  {
    hide PoolOk, PcOk, Dropped, Moved, MoveToFront;
    var p := s.pool;
    KeptEntry(p, u, Flight(s));
    if u in p.userDBs {
      var entry := p.entries[p.userDBs[u]];
      DropsUser(p, u);
      if entry.db.Some? && ok {
        MovedServes(p, entry.element, u, entry.db.value);
        assert Serves(p, u, entry.db.value);
      }
    }
  }

  lemma DropsUser(p: Pool, u: string)
    requires u in p.userDBs && p.userDBs[u] in p.entries
    ensures u !in Dropped(p, u).userDBs
  {
  }

  // A ping of a new handle decides: the pool keeps it and it is returned, or it is closed, and after the
  // third the call gives up.
  lemma ProbeReturns(s: Sys, g: nat, u: string, attempt: nat, h: nat, ok: bool)
    requires At(s, g) == InFlight(u, attempt, h) && h in s.pool.open
    ensures var t := Step(s, Probe(g, ok));
            if ok then At(t, g) == Returned(u, Some(h)) && Serves(t.pool, u, h)
            else
              && h !in t.pool.open && t.pool.userDBs == s.pool.userDBs
              && At(t, g) == if attempt < 2 then Dialing(u, attempt + 1) else Returned(u, None)
  {
  }

  // Whenever a call returns, in any schedule: a handle found healthy on the fast path, which others may have
  // closed since; or one its user's entry holds, open; or none, after an open that failed or a third ping
  // that failed.
  lemma ReturnsExactly(s: Sys, a: Action, g: nat)
    requires Inv(s) && !At(s, g).Returned? && At(Step(s, a), g).Returned?
    ensures var t, pc := Step(s, a), At(s, g);
            && !pc.Idle? && At(t, g).user == pc.user
            && if At(t, g).result.Some? then
                 (pc.Healthy? && At(t, g).result.value == pc.db) || ReturnsServed(t, g, pc.user)
               else (pc.Dialing? && a == Open(g, false)) || (pc.InFlight? && pc.attempt == 2 && a == Probe(g, false))
  {
    hide PoolOk, PcOk, CheckStep, ProbeStep, EvictOldest, AllClosed, Moved, Pushed, Dropped, Serves;
    OtherStays(s, a, g);
    if Enabled(s, a) {
      match a
      case Check(_, ok) => CheckReturns(s, g, At(s, g).user, ok);
      case Probe(_, ok) =>
        InFlightOpen(s, g);
        ProbeServed(s, g, ok);
      case _ =>
    }
  }

  function Of(a: Action): Option<nat> {
    match a
    case Start(g, _) => Some(g)
    case ReadDb(g) => Some(g)
    case Ping(g, _) => Some(g)
    case Move(g) => Some(g)
    case Acquire(g) => Some(g)
    case Check(g, _) => Some(g)
    case Evict(g) => Some(g)
    case Open(g, _) => Some(g)
    case Probe(g, _) => Some(g)
    case CloseAll => None
  }

  lemma OtherStays(s: Sys, a: Action, g: nat)
    ensures Of(a) != Some(g) ==> At(Step(s, a), g) == At(s, g)
  {
    hide EvictOldest, AllClosed, Moved, Pushed, Dropped;
  }

  lemma InFlightOpen(s: Sys, g: nat)
    requires Inv(s) && At(s, g).InFlight?
    ensures At(s, g).db in s.pool.open && At(s, g).attempt < 3
  {
    hide Agree, Handles, Ordered;
    assert PcOk(s.pool, At(s, g));
    assert Locked(At(s, g)) && s.writer == Some(g);
    assert Flight(s) == Some(At(s, g).db);
  }

  lemma ProbeServed(s: Sys, g: nat, ok: bool)
    requires At(s, g).InFlight? && At(s, g).db in s.pool.open && At(s, g).attempt < 3
    ensures var t, pc := Step(s, Probe(g, ok)), At(s, g);
            if ok then ReturnsServed(t, g, pc.user)
            else if pc.attempt == 2 then At(t, g) == Returned(pc.user, None) else !At(t, g).Returned?
  {
    hide Step;
    ProbeReturns(s, g, At(s, g).user, At(s, g).attempt, At(s, g).db, ok);
  }

  // closeAll closes every handle and leaves map and list alone.
  lemma CloseAllCloses(s: Sys)
    requires Inv(s) && s.writer.None?
    ensures var t := Step(s, CloseAll);
            && t.pool.open == {} && t.pcs == s.pcs && t.writer == None
            && t.pool.userDBs == s.pool.userDBs && t.pool.lru == s.pool.lru
            && forall e :: e in t.pool.entries ==> t.pool.entries[e].db.None?
  {
    hide PoolOk, PcOk, At, AllClosed;
    AllClosedOk(s.pool);
    AllClosedKeeps(s.pool);
  }

  lemma AllClosedKeeps(p: Pool)
    ensures AllClosed(p) == p.(entries := AllClosed(p).entries, open := AllClosed(p).open)
  {
  }

  // --- A call nobody interferes with ---

  lemma {:induction false} DialReturns(s: Sys, g: nat, u: string, attempts: seq<Attempt>, i: nat)
    requires At(s, g) == Dialing(u, i) && i < 3 && |attempts| >= 3
    ensures var t := DialLoop(s, g, attempts, i);
            if Connects(attempts, i) then ReturnsServed(t, g, u) else At(t, g) == Returned(u, None)
    decreases 3 - i
  {
    hide Pushed, ProbeStep;
    var t := Step(s, Open(g, !attempts[i].OpenError?));
    if !attempts[i].OpenError? {
      assert At(t, g) == InFlight(u, i, s.pool.nextDb) && s.pool.nextDb in t.pool.open;
      ProbeReturns(t, g, u, i, s.pool.nextDb, attempts[i].Connected?);
      var r := Step(t, Probe(g, attempts[i].Connected?));
      if attempts[i].Connected? {
        assert DialLoop(s, g, attempts, i) == r && ReturnsServed(r, g, u);
      } else if i < 2 {
        DialReturns(r, g, u, attempts, i + 1);
      } else {
        assert DialLoop(r, g, attempts, i + 1) == r && !Connects(attempts, i + 1);
      }
    }
  }

  predicate Answered(s: Sys, t: Sys, g: nat, u: string, ok: bool, attempts: seq<Attempt>) {
    if (u in s.pool.userDBs && u !in ClosedUsers(s.pool) && ok) || Connects(attempts, 0) then ReturnsServed(t, g, u)
    else At(t, g) == Returned(u, None)
  }

  lemma SlowPathReturns(s: Sys, g: nat, u: string, env: Env)
    requires Inv(s) && s.writer.None? && At(s, g) == Waiting(u) && |env.attempts| >= 3
    ensures Answered(s, SlowPath(s, g, env), g, u, env.slowPing, env.attempts)
  {
    hide PoolOk, PcOk, ClosedUsers, CheckStep, ReturnsServed, Connects, EvictOldest;
    var s1 := Step(s, Acquire(g));
    StepKeepsInv(s, Acquire(g));
    assert s1.pool == s.pool && At(s1, g) == Checking(u);
    var s2 := Step(s1, Check(g, env.slowPing));
    CheckReturns(s1, g, u, env.slowPing);
    if u in s.pool.userDBs && u !in ClosedUsers(s.pool) && env.slowPing {
      ServedReturned(s2, g, u);
    } else {
      var s3 := Step(s2, Evict(g));
      assert At(s3, g) == Dialing(u, 0);
      DialReturns(s3, g, u, env.attempts, 0);
    }
  }

  lemma ServedReturned(s: Sys, g: nat, u: string)
    requires ReturnsServed(s, g, u)
    ensures At(s, g).Returned?
  {
  }

  // It returns a handle exactly if the user's entry is there with a handle that answers one of the pings, or
  // a connect succeeds; that handle is then open and held by the user's entry.
  lemma SoloReturns(s: Sys, g: nat, u: string, env: Env)
    requires Inv(s) && s.writer.None? && (At(s, g).Idle? || At(s, g).Returned?) && |env.attempts| >= 3
    ensures Answered(s, Solo(s, g, u, env), g, u, env.fastPing || env.slowPing, env.attempts)
  {
    hide PoolOk, PcOk, ClosedUsers, Connects, SlowPath, ReturnsServed;
    var p := s.pool;
    KeptEntry(p, u, None);
    var s1 := Step(s, Start(g, u));
    StepKeepsInv(s, Start(g, u));
    assert s1.pool == p && s1.writer == None;
    if At(s1, g).Found? {
      FastPathReturns(s1, g, u, env);
    } else {
      SlowPathReturns(s1, g, u, env);
    }
  }

  lemma FastPathReturns(s: Sys, g: nat, u: string, env: Env)
    requires Inv(s) && s.writer.None? && |env.attempts| >= 3
    requires u in s.pool.userDBs && At(s, g) == Found(u, s.pool.userDBs[u])
    ensures var s2 := Step(s, ReadDb(g));
            var s3 := if At(s2, g).Pinging? then Step(s2, Ping(g, env.fastPing)) else s2;
            Answered(s, if At(s3, g).Healthy? then Step(s3, Move(g)) else SlowPath(s3, g, env),
                     g, u, env.fastPing || env.slowPing, env.attempts)
  {
    hide PoolOk, PcOk, ClosedUsers, Connects, SlowPath, Moved;
    var p := s.pool;
    KeptEntry(p, u, None);
    var s2 := Step(s, ReadDb(g));
    StepKeepsInv(s, ReadDb(g));
    assert s2.pool == p && s2.writer == None;
    if At(s2, g).Pinging? {
      var s3 := Step(s2, Ping(g, env.fastPing));
      StepKeepsInv(s2, Ping(g, env.fastPing));
      assert s3.pool == p && s3.writer == None;
      if At(s3, g).Healthy? {
        MovedServes(p, p.entries[p.userDBs[u]].element, u, At(s3, g).db);
      } else {
        SlowPathReturns(s3, g, u, env);
      }
    } else {
      SlowPathReturns(s2, g, u, env);
    }
  }
}
