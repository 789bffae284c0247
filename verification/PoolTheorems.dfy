/** What holds of the connection pool in every run of any number of goroutines. */
module PoolTheorems {
  import opened Common
  import opened Lists
  import opened Recency
  import opened PoolRun
  import opened PoolInvariant

  function Users(l: seq<Element>): (us: seq<string>)
    ensures |us| == |l|
    ensures forall i :: 0 <= i < |l| ==> us[i] == l[i].user
  {
    seq(|l|, i requires 0 <= i < |l| => l[i].user)
  }

  // --- Handles are counted by the entries that hold them ---

  lemma {:induction false} AtMostOnePerUser(open: set<nat>, m: map<string, nat>, entries: map<nat, Entry>)
    requires forall h :: h in open ==> exists u :: u in m && m[u] in entries && entries[m[u]].db == Some(h)
    ensures |open| <= |m|
    decreases |open|
  {
    if h :| h in open {
      var u :| u in m && m[u] in entries && entries[m[u]].db == Some(h);
      forall k | k in open - {h}
        ensures exists v :: v in m - {u} && (m - {u})[v] in entries && entries[(m - {u})[v]].db == Some(k)
      {
        var v :| v in m && m[v] in entries && entries[m[v]].db == Some(k);
        assert v in m - {u};
      }
      AtMostOnePerUser(open - {h}, m - {u}, entries);
      assert (m - {u}).Keys == m.Keys - {u};
    }
  }

  lemma OpenWithinCapacity(s: Sys)
    requires Inv(s)
    ensures |s.pool.open| <= Capacity(s.pool.size)
  {
    hide Agree, Handles, Ordered;
    var p := s.pool;
    match Flight(s)
    case None =>
      forall h | h in p.open
        ensures exists u :: u in p.userDBs && p.userDBs[u] in p.entries && p.entries[p.userDBs[u]].db == Some(h)
      {
        var u :| HeldBy(p, u, h);
      }
      AtMostOnePerUser(p.open, p.userDBs, p.entries);
    case Some(f) =>
      forall h | h in p.open - {f}
        ensures exists u :: u in p.userDBs && p.userDBs[u] in p.entries && p.entries[p.userDBs[u]].db == Some(h)
      {
        var u :| HeldBy(p, u, h);
      }
      AtMostOnePerUser(p.open - {f}, p.userDBs, p.entries);
      assert PcOk(p, At(s, s.writer.value));
      assert |p.open| == |p.open - {f}| + 1;
  }

  // At every moment of every run, inside the slow path too: map and list hold the same users, once each,
  // by the same entries; the list is in order of last use; the handles open are those of the entries kept
  // and the one being dialled; and there are never more than the pool's capacity.
  lemma PoolSafe(size: int, acts: seq<Action>)
    ensures var s := Run(Init(size), acts); var p := s.pool;
            && Distinct(Users(p.lru)) && (forall u :: u in Users(p.lru) <==> u in p.userDBs)
            && (forall x :: x in p.lru ==> p.userDBs[x.user] == x.id)
            && (forall i, j :: 0 <= i < j < |p.lru| ==>
                  p.lru[i].id in p.used && p.lru[j].id in p.used && p.used[p.lru[i].id] > p.used[p.lru[j].id])
            && (forall h :: h in p.open <==> Flight(s) == Some(h) || exists u :: HeldBy(p, u, h))
            && |p.userDBs| <= Capacity(size) && |p.open| <= Capacity(size)
  {
    InitInv(size);
    RunKeepsInv(Init(size), acts);
    RunKeepsSize(Init(size), acts);
    var s := Run(Init(size), acts);
    OpenWithinCapacity(s);
    ListedUsers(s.pool);
    forall h ensures h in s.pool.open <==> Flight(s) == Some(h) || exists u :: HeldBy(s.pool, u, h) {
      if u :| HeldBy(s.pool, u, h) {
        assert s.pool.entries[s.pool.userDBs[u]].db.value in s.pool.open;
      }
    }
  }

  lemma ListedUsers(p: Pool)
    requires Agree(p)
    ensures Distinct(Users(p.lru))
    ensures forall u :: u in Users(p.lru) <==> u in p.userDBs
  {
    forall i, j | 0 <= i < j < |p.lru| ensures Users(p.lru)[i] != Users(p.lru)[j] {
      assert p.userDBs[p.lru[i].user] == p.lru[i].id && p.userDBs[p.lru[j].user] == p.lru[j].id;
      assert p.lru[i] != p.lru[j];
    }
    forall u ensures u in Users(p.lru) <==> u in p.userDBs {
      if u in Users(p.lru) {
        var i :| 0 <= i < |p.lru| && Users(p.lru)[i] == u;
        assert p.lru[i] in p.lru;
      }
      if u in p.userDBs {
        var i :| 0 <= i < |p.lru| && p.lru[i] == Element(p.userDBs[u], u);
        assert Users(p.lru)[i] == u;
      }
    }
  }

  lemma {:induction false} RunKeepsSize(s: Sys, acts: seq<Action>)
    ensures Run(s, acts).pool.size == s.pool.size
    decreases |acts|
  {
    if acts != [] {
      StepKeepsSize(s, acts[0]);
      RunKeepsSize(Step(s, acts[0]), acts[1..]);
    }
  }

  lemma StepKeepsSize(s: Sys, a: Action)
    ensures Step(s, a).pool.size == s.pool.size
  {
  }

  // A user enters the pool only by a successful connect for that user; in particular a goroutine that
  // still has the entry of an evicted user cannot bring it back.
  lemma OnlyConnectsAdd(s: Sys, a: Action, u: string)
    requires u !in s.pool.userDBs && u in Step(s, a).pool.userDBs
    ensures a.Probe? && a.ok && At(s, a.g).InFlight? && At(s, a.g).user == u
  {
    EvictAddsNobody(s.pool);
    hide EvictOldest;
  }

  lemma EvictAddsNobody(p: Pool)
    ensures EvictOldest(p).userDBs.Keys <= p.userDBs.Keys
  {
  }

  // The fast path's last step: with an element the list still holds, that user moves to the front and the
  // others keep their order; with one it no longer holds, nothing changes, even if the user has a new entry.
  lemma FastPathMove(s: Sys, g: nat)
    requires Inv(s) && Enabled(s, Move(g))
    ensures var p, q, pc := s.pool, Step(s, Move(g)).pool, At(s, g);
            if pc.user in p.userDBs && p.userDBs[pc.user] == pc.entry
            then Users(q.lru) == Front(Users(p.lru), pc.user) && q == p.(lru := q.lru, used := q.used, clock := q.clock)
            else q == p
  {
    hide PoolOk, Users;
    var p, pc := s.pool, At(s, g);
    assert PcOk(p, pc);
    var x := p.entries[pc.entry].element;
    EntryElement(p, pc.entry, None);
    if pc.user in p.userDBs && p.userDBs[pc.user] == pc.entry {
      MovedUsers(p, pc.user, None);
    }
  }

  // An entry's element is in the list exactly as long as the pool keeps the entry for its user.
  lemma EntryElement(p: Pool, e: nat, flight: Option<nat>)
    requires PoolOk(p, flight) && e in p.entries
    ensures var x := p.entries[e].element;
            x.id == e && (x in p.lru <==> x.user in p.userDBs && p.userDBs[x.user] == e)
  {
  }

  lemma UsersCons(x: Element, l: seq<Element>)
    ensures Users([x] + l) == [x.user] + Users(l)
  {
  }

  lemma MovedUsers(p: Pool, u: string, flight: Option<nat>)
    requires PoolOk(p, flight) && u in p.userDBs
    ensures Users(Moved(p, Element(p.userDBs[u], u)).lru) == Front(Users(p.lru), u)
  {
    var x := Element(p.userDBs[u], u);
    KeptUsers(p, u, flight);
    hide PoolOk, Users;
    UsersCons(x, Remove(p.lru, x));
  }

  lemma KeptUsers(p: Pool, u: string, flight: Option<nat>)
    requires PoolOk(p, flight) && u in p.userDBs
    ensures var x := Element(p.userDBs[u], u);
            x in p.lru && Users(Remove(p.lru, x)) == Remove(Users(p.lru), u)
  {
    RemoveUsers(p.lru, Element(p.userDBs[u], u));
  }

  lemma {:induction false} RemoveUsers(l: seq<Element>, x: Element)
    requires forall y :: y in l && y.user == x.user ==> y == x
    ensures Users(Remove(l, x)) == Remove(Users(l), x.user)
  {
    hide Users;
    if l == [] {
    } else {
      assert l[0] in l;
      assert l == [l[0]] + l[1..];
      UsersCons(l[0], l[1..]);
      RemoveUsers(l[1..], x);
      assert Users(l)[1..] == Users(l[1..]);
      if l[0] != x {
        UsersCons(l[0], Remove(l[1..], x));
      }
    }
  }

  // The handle the fast path is about to return is open exactly if the entry it came from is still the
  // one kept for the user and nobody has closed it.
  lemma FastPathFresh(s: Sys, g: nat)
    requires Inv(s) && At(s, g).Healthy?
    ensures var p, pc := s.pool, At(s, g);
            pc.db in p.open <==>
            pc.user in p.userDBs && p.userDBs[pc.user] == pc.entry && p.entries[pc.entry].db.Some?
  {
    assert PcOk(s.pool, At(s, g));
  }

  // Goroutine g connects user u by the slow path, everything succeeding and nobody interfering.
  function Locks(s: Sys, g: nat, u: string): Sys {
    Step(Step(Step(s, Start(g, u)), Acquire(g)), Check(g, true))
  }

  function Dials(s: Sys, g: nat): Sys {
    Step(Step(Step(s, Evict(g)), Open(g, true)), Probe(g, true))
  }

  lemma LocksAlone(s: Sys, g: nat, u: string)
    requires (At(s, g).Idle? || At(s, g).Returned?) && s.writer.None? && u !in s.pool.userDBs
    ensures Locks(s, g, u) == s.(pcs := s.pcs[g := Evicting(u)], writer := Some(g))
  {
    var s1 := Step(s, Start(g, u));
    assert s1 == s.(pcs := s.pcs[g := Waiting(u)]);
    var s2 := Step(s1, Acquire(g));
    assert s2 == s.(pcs := s.pcs[g := Checking(u)], writer := Some(g));
  }

  lemma EvictsAlone(s: Sys, g: nat, u: string)
    requires At(s, g) == Evicting(u)
    ensures Step(s, Evict(g)) == Sys(EvictOldest(s.pool), s.pcs[g := Dialing(u, 0)], s.writer)
  {
    hide EvictOldest;
  }

  lemma OpensAlone(s: Sys, g: nat, u: string)
    requires At(s, g) == Dialing(u, 0)
    ensures var p := s.pool;
            Step(s, Open(g, true)) == Sys(p.(open := p.open + {p.nextDb}, nextDb := p.nextDb + 1),
                                          s.pcs[g := InFlight(u, 0, p.nextDb)], s.writer)
  {
  }

  lemma ProbesAlone(s: Sys, g: nat, u: string, h: nat)
    requires At(s, g) == InFlight(u, 0, h)
    ensures Step(s, Probe(g, true)) == Sys(Pushed(s.pool, u, h), s.pcs[g := Returned(u, Some(h))], None)
  {
    hide Pushed;
  }

  lemma DialsAlone(s: Sys, g: nat, u: string, pcs: map<nat, Pc>)
    requires s.pcs == pcs[g := Evicting(u)] && s.writer == Some(g)
    ensures var p := EvictOldest(s.pool);
            Dials(s, g) == Sys(Pushed(p.(open := p.open + {p.nextDb}, nextDb := p.nextDb + 1), u, p.nextDb),
                               pcs[g := Returned(u, Some(p.nextDb))], None)
  {
    hide Step, EvictOldest, Pushed;
    EvictsAlone(s, g, u);
    var s1 := Step(s, Evict(g));
    OpensAlone(s1, g, u);
    var s2 := Step(s1, Open(g, true));
    ProbesAlone(s2, g, u, s1.pool.nextDb);
    assert s2.pcs[g := Returned(u, Some(s1.pool.nextDb))] == pcs[g := Returned(u, Some(s1.pool.nextDb))];
  }

  // The pool of one after it connected "a", and after it connected "b" in its place.
  const WITH_A := Pool(1, map["a" := 0], map[0 := Entry(Element(0, "a"), Some(0))],
                       [Element(0, "a")], {0}, 1, 1, map[0 := 0], 1)
  const WITH_B := Pool(1, map["b" := 1], map[0 := Entry(Element(0, "a"), None), 1 := Entry(Element(1, "b"), Some(1))],
                       [Element(1, "b")], {1}, 2, 2, map[0 := 0, 1 := 1], 2)

  lemma ConnectA()
    ensures Dials(Locks(Init(1), 0, "a"), 0) == Sys(WITH_A, map[0 := Returned("a", Some(0))], None)
  {
    LocksAlone(Init(1), 0, "a");
    DialsAlone(Locks(Init(1), 0, "a"), 0, "a", map[]);
  }

  lemma PushB(p: Pool)
    requires p == Pool(1, map[], map[0 := Entry(Element(0, "a"), None)], [], {1}, 1, 2, map[0 := 0], 1)
    ensures Pushed(p, "b", 1) == WITH_B
  {
  }

  lemma EvictA()
    ensures EvictOldest(WITH_A) == Pool(1, map[], map[0 := Entry(Element(0, "a"), None)], [], {}, 1, 1, map[0 := 0], 1)
  {
    assert WITH_A.userDBs - {"a"} == map[];
    assert WITH_A.open - {0} == {};
    assert |WITH_A.userDBs| == 1;
    assert Remove([Element(0, "a")], Element(0, "a")) == Remove([], Element(0, "a")) == [];
  }

  lemma ConnectB(pcs: map<nat, Pc>)
    requires 0 in pcs && pcs[0].Returned?
    ensures Dials(Locks(Sys(WITH_A, pcs, None), 0, "b"), 0) == Sys(WITH_B, pcs[0 := Returned("b", Some(1))], None)
  {
    LocksAlone(Sys(WITH_A, pcs, None), 0, "b");
    DialsAlone(Locks(Sys(WITH_A, pcs, None), 0, "b"), 0, "b", pcs);
    EvictA();
    PushB(EvictOldest(WITH_A).(open := {} + {1}, nextDb := 2));
  }

  lemma PingA(pcs: map<nat, Pc>)
    requires 1 !in pcs
    ensures Step(Step(Step(Sys(WITH_A, pcs, None), Start(1, "a")), ReadDb(1)), Ping(1, true))
            == Sys(WITH_A, pcs[1 := Healthy("a", 0, 0)], None)
  {
    var s1 := Step(Sys(WITH_A, pcs, None), Start(1, "a"));
    assert s1 == Sys(WITH_A, pcs[1 := Found("a", 0)], None);
    var s2 := Step(s1, ReadDb(1));
    assert s2 == Sys(WITH_A, pcs[1 := Pinging("a", 0, 0)], None);
  }

  // It need not be open: while goroutine 1 is between its ping and its move, goroutine 0 connects another
  // user and so evicts the first one from a pool of one.
  lemma FastPathCanReturnClosed()
    ensures var connected := Dials(Locks(Init(1), 0, "a"), 0);
            var pinged := Step(Step(Step(connected, Start(1, "a")), ReadDb(1)), Ping(1, true));
            var evicted := Dials(Locks(pinged, 0, "b"), 0);
            var s := Step(evicted, Move(1));
            At(s, 1) == Returned("a", Some(0)) && 0 !in s.pool.open
  {
    hide Step, Dials, Locks;
    ConnectA();
    var first := map[0 := Returned("a", Some(0))];
    PingA(first);
    var pinged := Sys(WITH_A, first[1 := Healthy("a", 0, 0)], None);
    ConnectB(pinged.pcs);
    MovesStale(Dials(Locks(pinged, 0, "b"), 0), 1);
  }

  lemma MovesStale(s: Sys, g: nat)
    requires s.pool == WITH_B && s.writer.None? && At(s, g) == Healthy("a", 0, 0)
    ensures At(Step(s, Move(g)), g) == Returned("a", Some(0)) && 0 !in Step(s, Move(g)).pool.open
  {
    hide MoveToFront;
  }

  // --- A call nobody interferes with is a call of the recency list ---

  function DialLoop(s: Sys, g: nat, attempts: seq<Attempt>, i: nat): Sys
    decreases 3 - i
  {
    if i >= 3 || i >= |attempts| then s
    else
      var t := Step(s, Open(g, !attempts[i].OpenError?));
      if attempts[i].OpenError? then t
      else
        var r := Step(t, Probe(g, attempts[i].Connected?));
        if attempts[i].Connected? then r else DialLoop(r, g, attempts, i + 1)
  }

  function SlowPath(s: Sys, g: nat, env: Env): Sys {
    var checked := Step(Step(s, Acquire(g)), Check(g, env.slowPing));
    if At(checked, g).Returned? then checked
    else DialLoop(Step(checked, Evict(g)), g, env.attempts, 0)
  }

  // All the steps of one call of goroutine g, in a row.
  function Solo(s: Sys, g: nat, u: string, env: Env): Sys {
    var s1 := Step(s, Start(g, u));
    var s2 := if At(s1, g).Found? then Step(s1, ReadDb(g)) else s1;
    var s3 := if At(s2, g).Pinging? then Step(s2, Ping(g, env.fastPing)) else s2;
    if At(s3, g).Healthy? then Step(s3, Move(g)) else SlowPath(s3, g, env)
  }

  function ClosedUsers(p: Pool): set<string> {
    set u | u in p.userDBs && p.userDBs[u] in p.entries && p.entries[p.userDBs[u]].db.None?
  }

  lemma {:induction false} DistinctLength(l: seq<string>, users: set<string>)
    requires Distinct(l) && forall u :: u in l <==> u in users
    ensures |l| == |users|
  {
    if l == [] {
      assert users == {};
    } else {
      var u := l[0];
      forall v ensures v in l[1..] <==> v in users - {u} {
        if v in l[1..] {
          var i :| 0 <= i < |l[1..]| && l[1..][i] == v;
          assert l[i + 1] == v;
        }
      }
      DistinctLength(l[1..], users - {u});
    }
  }

  lemma {:induction false} RemoveLast(l: seq<string>)
    requires l != [] && Distinct(l)
    ensures Remove(l, l[|l| - 1]) == l[..|l| - 1]
  {
    var front, last := l[..|l| - 1], l[|l| - 1];
    assert l == front + [last];
    RemoveConcat(front, [last], last);
    RemoveNothing(front, last);
  }

  lemma ListLength(p: Pool)
    requires Agree(p)
    ensures |p.lru| == |p.userDBs|
  {
    ListedUsers(p);
    DistinctLength(Users(p.lru), p.userDBs.Keys);
  }

  lemma DropUsers(p: Pool, u: string, flight: Option<nat>)
    requires PoolOk(p, flight) && u in p.userDBs
    ensures Users(Dropped(p, u).lru) == Remove(Users(p.lru), u)
  {
    KeptUsers(p, u, flight);
  }

  lemma DropOldest(p: Pool, flight: Option<nat>)
    requires PoolOk(p, flight) && p.lru != [] && p.lru[|p.lru| - 1].user in p.userDBs
    ensures var us := Users(p.lru);
            Users(Dropped(p, p.lru[|p.lru| - 1].user).lru) == us[..|us| - 1]
  {
    DropUsers(p, p.lru[|p.lru| - 1].user, flight);
    ListedUsers(p);
    hide PoolOk, Agree, Dropped, Remove;
    RemoveLast(Users(p.lru));
  }

  lemma EvictUsers(p: Pool, flight: Option<nat>)
    requires PoolOk(p, flight)
    ensures Users(EvictOldest(p).lru) == Evicted(Users(p.lru), p.size)
  {
    ListLength(p);
    hide PoolOk, Agree, EvictOldest, Dropped;
    EvictIsDrop(p, flight);
    if |p.userDBs| >= p.size && p.lru != [] {
      DropOldest(p, flight);
    }
  }

  lemma {:induction false} DialUsers(s: Sys, g: nat, attempts: seq<Attempt>, i: nat)
    requires At(s, g).Dialing? && At(s, g).attempt == i < 3 && |attempts| >= 3
    ensures var l := Users(s.pool.lru);
            Users(DialLoop(s, g, attempts, i).pool.lru) == (if Connects(attempts, i) then [At(s, g).user] + l else l)
    decreases 3 - i
  {
    var t := Step(s, Open(g, !attempts[i].OpenError?));
    if attempts[i].PingError? {
      var r := Step(t, Probe(g, false));
      assert r.pool.lru == s.pool.lru;
      if i + 1 < 3 {
        assert At(r, g) == Dialing(At(s, g).user, i + 1);
        DialUsers(r, g, attempts, i + 1);
      }
    }
  }

  lemma KeptEntry(p: Pool, u: string, flight: Option<nat>)
    requires PoolOk(p, flight)
    ensures u in Users(p.lru) <==> u in p.userDBs
    ensures u in p.userDBs ==>
              && p.userDBs[u] in p.entries && p.entries[p.userDBs[u]].element == Element(p.userDBs[u], u)
              && (u in ClosedUsers(p) <==> p.entries[p.userDBs[u]].db.None?)
              && (p.entries[p.userDBs[u]].db.Some? ==> p.entries[p.userDBs[u]].db.value in p.open)
  {
    ListedUsers(p);
  }

  // The double check under the write lock.
  lemma CheckUsers(s: Sys, g: nat, u: string, ok: bool)
    requires PoolOk(s.pool, Flight(s)) && At(s, g) == Checking(u)
    ensures var l, t := Users(s.pool.lru), CheckStep(s, g, ok);
            if u in l && u !in ClosedUsers(s.pool) && ok
            then At(t, g).Returned? && Users(t.pool.lru) == Front(l, u)
            else At(t, g) == Evicting(u) && Users(t.pool.lru) == Remove(l, u)
  {
    hide PoolOk, ClosedUsers, Users, Moved, Dropped;
    var p := s.pool;
    KeptEntry(p, u, Flight(s));
    if u in p.userDBs {
      MovedUsers(p, u, Flight(s));
      DropUsers(p, u, Flight(s));
    } else {
      RemoveNothing(Users(p.lru), u);
    }
  }

  lemma SlowPathUsers(s: Sys, g: nat, u: string, env: Env)
    requires Inv(s) && s.writer.None? && At(s, g) == Waiting(u) && |env.attempts| >= 3
    ensures var p, l := s.pool, Users(s.pool.lru);
            Users(SlowPath(s, g, env).pool.lru) ==
            if u in l && u !in ClosedUsers(p) && env.slowPing then Front(l, u)
            else
              var rest := Evicted(Remove(l, u), p.size);
              if Connects(env.attempts, 0) then [u] + rest else rest
  {
    hide PoolOk, PcOk, ClosedUsers, Users, CheckStep, Front, Remove, Evicted, Connects, EvictOldest;
    var s1 := Step(s, Acquire(g));
    StepKeepsInv(s, Acquire(g));
    assert s1.pool == s.pool && At(s1, g) == Checking(u);
    var s2 := Step(s1, Check(g, env.slowPing));
    assert s2 == CheckStep(s1, g, env.slowPing);
    StepKeepsInv(s1, Check(g, env.slowPing));
    CheckUsers(s1, g, u, env.slowPing);
    if !At(s2, g).Returned? {
      EvictUsers(s2.pool, Flight(s2));
      var s3 := Step(s2, Evict(g));
      assert s3.pool == EvictOldest(s2.pool) && At(s3, g) == Dialing(u, 0);
      DialUsers(s3, g, env.attempts, 0);
      StepKeepsSize(s, Acquire(g));
      StepKeepsSize(s1, Check(g, env.slowPing));
    }
  }

  // So the runs of the recency list are the runs of the pool in which calls do not overlap.
  lemma SoloIsAfterCall(s: Sys, g: nat, u: string, env: Env)
    requires Inv(s) && s.writer.None? && (At(s, g).Idle? || At(s, g).Returned?) && |env.attempts| >= 3
    ensures Users(Solo(s, g, u, env).pool.lru)
            == AfterCall(Users(s.pool.lru), ClosedUsers(s.pool), s.pool.size, u, env)
  {
    hide PoolOk, ClosedUsers, Users, Front, Remove, Evicted, Connects, SlowPath;
    var p := s.pool;
    KeptEntry(p, u, None);
    var s1 := Step(s, Start(g, u));
    StepKeepsInv(s, Start(g, u));
    assert s1.pool == p && s1.writer == None;
    if At(s1, g).Found? {
      SoloFastPath(s1, g, u, env);
    } else {
      SlowPathUsers(s1, g, u, env);
    }
  }

  lemma SoloFastPath(s: Sys, g: nat, u: string, env: Env)
    requires Inv(s) && s.writer.None? && |env.attempts| >= 3
    requires u in s.pool.userDBs && At(s, g) == Found(u, s.pool.userDBs[u])
    ensures var s2 := Step(s, ReadDb(g));
            var s3 := if At(s2, g).Pinging? then Step(s2, Ping(g, env.fastPing)) else s2;
            Users((if At(s3, g).Healthy? then Step(s3, Move(g)) else SlowPath(s3, g, env)).pool.lru)
            == AfterCall(Users(s.pool.lru), ClosedUsers(s.pool), s.pool.size, u, env)
  {
    hide PoolOk, ClosedUsers, Users, Front, Remove, Evicted, Connects, SlowPath;
    var p := s.pool;
    KeptEntry(p, u, None);
    var s2 := Step(s, ReadDb(g));
    StepKeepsInv(s, ReadDb(g));
    assert s2.pool == p && s2.writer == None;
    if At(s2, g).Pinging? {
      var s3 := Step(s2, Ping(g, env.fastPing));
      StepKeepsInv(s2, Ping(g, env.fastPing));
      assert s3.pool == p && s3.writer == None;
      if At(s3, g).Healthy? {
        FastPathMove(s3, g);
      } else {
        SlowPathUsers(s3, g, u, env);
      }
    } else {
      SlowPathUsers(s2, g, u, env);
    }
  }
}
