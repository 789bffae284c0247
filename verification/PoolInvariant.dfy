/** What every step of every goroutine keeps true of the connection pool. */
module PoolInvariant {
  import opened Common
  import opened Lists
  import opened Recency
  import opened PoolRun

  // Map and list hold the same users; each entry kept has its own element, with its own user, in the list.
  ghost predicate Agree(p: Pool) {
    && (forall u :: u in p.userDBs ==>
          p.userDBs[u] in p.entries && p.entries[p.userDBs[u]].element == Element(p.userDBs[u], u))
    && (forall u :: u in p.userDBs ==> Element(p.userDBs[u], u) in p.lru)
    && (forall x :: x in p.lru ==> x.user in p.userDBs && p.userDBs[x.user] == x.id)
    && Distinct(p.lru)
  }

  // Entries have distinct handles, and only entries the pool keeps have one.
  ghost predicate Handles(p: Pool) {
    && (forall e :: e in p.entries ==> e < p.nextEntry && p.entries[e].element.id == e)
    && (forall e :: e in p.entries && p.entries[e].db.Some? ==>
          && p.entries[e].db.value < p.nextDb && p.entries[e].db.value in p.open
          && p.entries[e].element.user in p.userDBs && p.userDBs[p.entries[e].element.user] == e)
    && (forall e, f ::
          e in p.entries && f in p.entries && p.entries[e].db.Some? && p.entries[e].db == p.entries[f].db ==> e == f)
  }

  predicate HeldBy(p: Pool, u: string, h: nat) {
    u in p.userDBs && p.userDBs[u] in p.entries && p.entries[p.userDBs[u]].db == Some(h)
  }

  // Open handles are those of the entries kept, and the one in flight.
  ghost predicate Accounted(p: Pool, flight: Option<nat>) {
    && (forall h :: h in p.open ==> h < p.nextDb && (flight == Some(h) || exists u :: HeldBy(p, u, h)))
    && (flight.Some? ==> flight.value in p.open && forall u :: !HeldBy(p, u, flight.value))
  }

  // The list is strictly ordered by the time each element was last pushed or moved.
  ghost predicate Ordered(p: Pool) {
    && (forall x :: x in p.lru ==> x.id in p.used && p.used[x.id] < p.clock)
    && (forall i, j :: 0 <= i < j < |p.lru| ==> p.used[p.lru[i].id] > p.used[p.lru[j].id])
  }

  ghost predicate PoolOk(p: Pool, flight: Option<nat>) {
    Agree(p) && Handles(p) && Accounted(p, flight) && Ordered(p)
  }

  function Flight(s: Sys): Option<nat> {
    match s.writer
    case None => None
    case Some(g) => if At(s, g).InFlight? then Some(At(s, g).db) else None
  }

  predicate Locked(pc: Pc) {
    pc.Checking? || pc.Evicting? || pc.Dialing? || pc.InFlight?
  }

  // A handle a goroutine took from an entry is open exactly as long as that entry still has it.
  ghost predicate TakenFrom(p: Pool, u: string, e: nat, h: nat) {
    && e in p.entries && p.entries[e].element.user == u
    && h < p.nextDb && (p.entries[e].db == None || p.entries[e].db == Some(h))
    && (h in p.open <==> p.entries[e].db == Some(h))
  }

  ghost predicate PcOk(p: Pool, pc: Pc) {
    match pc
    case Found(u, e) => e in p.entries && p.entries[e].element.user == u
    case Pinging(u, e, h) => TakenFrom(p, u, e, h)
    case Healthy(u, e, h) => TakenFrom(p, u, e, h)
    case Evicting(u) => u !in p.userDBs
    case Dialing(u, attempt) => u !in p.userDBs && |p.userDBs| < Capacity(p.size) && attempt < 3
    case InFlight(u, attempt, h) => u !in p.userDBs && |p.userDBs| < Capacity(p.size) && attempt < 3
    case _ => true
  }

  ghost predicate Inv(s: Sys) {
    && PoolOk(s.pool, Flight(s))
    && |s.pool.userDBs| <= Capacity(s.pool.size)
    && (forall g: nat :: PcOk(s.pool, At(s, g)))
    && (forall g: nat :: Locked(At(s, g)) <==> s.writer == Some(g))
  }

  lemma InitInv(size: int)
    ensures Inv(Init(size))
  {
  }

  // --- Lists ---

  lemma {:induction false} RemoveSorted(l: seq<Element>, e: Element, used: map<nat, nat>)
    requires Distinct(l)
    requires forall x :: x in l ==> x.id in used
    requires forall i, j :: 0 <= i < j < |l| ==> used[l[i].id] > used[l[j].id]
    ensures Distinct(Remove(l, e))
    ensures forall i, j :: 0 <= i < j < |Remove(l, e)| ==> used[Remove(l, e)[i].id] > used[Remove(l, e)[j].id]
  {
    if l != [] {
      var t := l[1..];
      assert forall x :: x in t ==> x in l;
      RemoveSorted(t, e, used);
      forall y | y in Remove(t, e) ensures used[l[0].id] > used[y.id] {
        var k :| 0 <= k < |t| && t[k] == y;
        assert t[k] == l[k + 1];
      }
      if l[0] != e {
        PrependSorted(l[0], Remove(t, e), used);
      }
    }
  }

  lemma PrependSorted(x: Element, r: seq<Element>, used: map<nat, nat>)
    requires x.id in used && Distinct(r)
    requires forall y :: y in r ==> y.id in used && used[x.id] > used[y.id]
    requires forall i, j :: 0 <= i < j < |r| ==> used[r[i].id] > used[r[j].id]
    ensures Distinct([x] + r)
    ensures forall i, j :: 0 <= i < j < |[x] + r| ==> used[([x] + r)[i].id] > used[([x] + r)[j].id]
  {
    assert forall j :: 0 <= j < |r| ==> r[j] in r;
  }

  // --- The pieces of the pool's methods ---

  lemma MovedOrdered(p: Pool, x: Element)
    requires Agree(p) && Ordered(p)
    ensures Ordered(Moved(p, x)) && Distinct(Moved(p, x).lru)
    ensures forall y :: y in Moved(p, x).lru <==> y in p.lru
  {
    if x in p.lru {
      RemoveSorted(p.lru, x, p.used);
      var r := Remove(p.lru, x);
      assert MoveToFront(p.lru, x) == [x] + r;
      forall y | y in r ensures y.id != x.id {
        assert p.userDBs[y.user] == y.id && p.userDBs[x.user] == x.id;
        assert p.entries[y.id].element == y && p.entries[x.id].element == x;
      }
    }
  }

  lemma MovedOk(p: Pool, x: Element, flight: Option<nat>)
    requires PoolOk(p, flight)
    ensures PoolOk(Moved(p, x), flight)
    ensures Moved(p, x) == p.(lru := Moved(p, x).lru, used := Moved(p, x).used, clock := Moved(p, x).clock)
    ensures forall y :: y in Moved(p, x).lru <==> y in p.lru
  {
    MovedOrdered(p, x);
    var q := Moved(p, x);
    assert forall u, h :: HeldBy(q, u, h) == HeldBy(p, u, h);
  }

  lemma ClosedHandles(p: Pool, u: string, flight: Option<nat>)
    requires Handles(p) && Agree(p) && Accounted(p, flight) && u in p.userDBs
    ensures var q := Closed(p, p.userDBs[u]);
            && Handles(q) && q.entries[p.userDBs[u]].db == None
            && q == p.(entries := q.entries, open := q.open)
            && (forall v, h :: HeldBy(q, v, h) <==> HeldBy(p, v, h) && v != u)
            && (forall h :: h in q.open <==> h in p.open && !HeldBy(p, u, h))
  {
    hide Distinct, Accounted;
  }

  lemma ClosedAgrees(p: Pool, u: string)
    requires Agree(p) && u in p.userDBs
    ensures Agree(Closed(p, p.userDBs[u]))
  {
    hide Distinct;
  }

  // Closing the entry kept for u leaves an entry without a handle.
  lemma ClosedOk(p: Pool, u: string, flight: Option<nat>)
    requires PoolOk(p, flight) && u in p.userDBs
    ensures var q := Closed(p, p.userDBs[u]); PoolOk(q, flight) && q.entries[p.userDBs[u]].db == None
    ensures var q := Closed(p, p.userDBs[u]); q == p.(entries := q.entries, open := q.open)
  {
    ClosedHandles(p, u, flight);
    ClosedAgrees(p, u);
    var q := Closed(p, p.userDBs[u]);
    forall h | h in q.open && flight != Some(h) ensures exists v :: HeldBy(q, v, h) {
      var v :| HeldBy(p, v, h);
      assert HeldBy(q, v, h);
    }
  }

  lemma ForgottenListed(p: Pool, u: string)
    requires Agree(p) && Ordered(p) && u in p.userDBs
    ensures var q := p.(lru := Remove(p.lru, Element(p.userDBs[u], u)), userDBs := p.userDBs - {u});
            Agree(q) && Ordered(q)
  {
    RemoveSorted(p.lru, Element(p.userDBs[u], u), p.used);
  }

  // Forgetting an entry without a handle, in map and list.
  lemma ForgottenOk(p: Pool, u: string, flight: Option<nat>)
    requires PoolOk(p, flight) && u in p.userDBs && p.entries[p.userDBs[u]].db == None
    ensures PoolOk(p.(lru := Remove(p.lru, Element(p.userDBs[u], u)), userDBs := p.userDBs - {u}), flight)
  {
    hide Ordered;
    var q := p.(lru := Remove(p.lru, Element(p.userDBs[u], u)), userDBs := p.userDBs - {u});
    ForgottenListed(p, u);
    forall v, h ensures HeldBy(q, v, h) <==> HeldBy(p, v, h) {
    }
    forall h | h in q.open && flight != Some(h) ensures exists v :: HeldBy(q, v, h) {
      var v :| HeldBy(p, v, h);
      assert HeldBy(q, v, h);
    }
  }

  lemma DroppedOk(p: Pool, u: string, flight: Option<nat>)
    requires PoolOk(p, flight) && u in p.userDBs
    ensures PoolOk(Dropped(p, u), flight)
  {
    ClosedOk(p, u, flight);
    ForgottenOk(Closed(p, p.userDBs[u]), u, flight);
  }

  lemma EvictIsDrop(p: Pool, flight: Option<nat>)
    requires PoolOk(p, flight)
    ensures |p.userDBs| >= p.size && p.lru != [] ==>
              p.lru[|p.lru| - 1].user in p.userDBs && EvictOldest(p) == Dropped(p, p.lru[|p.lru| - 1].user)
    ensures !(|p.userDBs| >= p.size && p.lru != []) ==> EvictOldest(p) == p
  {
    if |p.userDBs| >= p.size && p.lru != [] {
      var oldest := p.lru[|p.lru| - 1];
      assert oldest in p.lru;
      assert Closed(p, p.userDBs[oldest.user]).lru == p.lru;
    }
  }

  lemma NonEmptyList(p: Pool)
    requires Agree(p)
    ensures p.userDBs != map[] ==> p.lru != []
  {
    if u :| u in p.userDBs {
      assert Element(p.userDBs[u], u) in p.lru;
    }
  }

  lemma EvictOk(p: Pool, flight: Option<nat>)
    requires PoolOk(p, flight) && |p.userDBs| <= Capacity(p.size)
    ensures PoolOk(EvictOldest(p), flight)
    ensures |EvictOldest(p).userDBs| < Capacity(p.size)
    ensures EvictOldest(p).userDBs.Keys <= p.userDBs.Keys
  {
    EvictIsDrop(p, flight);
    if |p.userDBs| >= p.size && p.lru != [] {
      var u := p.lru[|p.lru| - 1].user;
      DroppedOk(p, u, flight);
      assert (p.userDBs - {u}).Keys == p.userDBs.Keys - {u};
      assert |(p.userDBs - {u}).Keys| == |p.userDBs.Keys| - 1;
    } else if |p.userDBs| >= p.size {
      NonEmptyList(p);
    }
  }

  lemma PushedGrows(m: map<string, nat>, u: string, e: nat)
    requires u !in m
    ensures |m[u := e]| == |m| + 1
  {
    assert m[u := e].Keys == m.Keys + {u};
  }

  lemma PushedDistinct(p: Pool, x: Element)
    requires Agree(p) && x.user !in p.userDBs
    ensures Distinct([x] + p.lru)
  {
  }

  lemma PushedAgrees(p: Pool, u: string, h: nat)
    requires Agree(p) && Handles(p) && u !in p.userDBs
    ensures Agree(Pushed(p, u, h))
  {
    hide Distinct;
    var q := Pushed(p, u, h);
    var x := Element(p.nextEntry, u);
    PushedDistinct(p, x);
    forall v | v in q.userDBs
      ensures q.userDBs[v] in q.entries && q.entries[q.userDBs[v]].element == Element(q.userDBs[v], v)
      ensures Element(q.userDBs[v], v) in q.lru
    {
      if v != u {
        assert Element(p.userDBs[v], v) in p.lru;
      }
    }
    forall y | y in q.lru ensures y.user in q.userDBs && q.userDBs[y.user] == y.id {
      assert y == x || y in p.lru;
    }
  }

  lemma PushedOrdered(p: Pool, u: string, h: nat)
    requires Agree(p) && Handles(p) && Ordered(p)
    ensures Ordered(Pushed(p, u, h))
  {
    forall y | y in p.lru ensures y.id != p.nextEntry {
      assert p.userDBs[y.user] == y.id;
    }
    assert Pushed(p, u, h).lru[1..] == p.lru;
  }

  lemma PushedHandles(p: Pool, u: string, h: nat)
    requires PoolOk(p, Some(h)) && u !in p.userDBs
    ensures Handles(Pushed(p, u, h))
    ensures forall v, k :: HeldBy(Pushed(p, u, h), v, k) <==> HeldBy(p, v, k) || (v == u && k == h)
  {
    forall e | e in p.entries ensures p.entries[e].db != Some(h) {
      assert !HeldBy(p, p.entries[e].element.user, h);
    }
  }

  lemma PushedOk(p: Pool, u: string, h: nat)
    requires PoolOk(p, Some(h)) && u !in p.userDBs
    ensures PoolOk(Pushed(p, u, h), None)
    ensures |Pushed(p, u, h).userDBs| == |p.userDBs| + 1
  {
    PushedAgrees(p, u, h);
    PushedGrows(p.userDBs, u, p.nextEntry);
    PushedOrdered(p, u, h);
    PushedHandles(p, u, h);
    var q := Pushed(p, u, h);
    forall k | k in q.open ensures exists v :: HeldBy(q, v, k) {
      if k == h {
        assert HeldBy(q, u, k);
      } else {
        var v :| HeldBy(p, v, k);
        assert HeldBy(q, v, k);
      }
    }
  }

  lemma AllClosedOk(p: Pool)
    requires PoolOk(p, None)
    ensures PoolOk(AllClosed(p), None)
    ensures AllClosed(p).open == {}
    ensures forall e :: e in AllClosed(p).entries ==> AllClosed(p).entries[e].db == None
  {
    var q := AllClosed(p);
    forall h | h in p.open ensures h !in q.open {
      var u :| HeldBy(p, u, h);
    }
  }

  // --- The other goroutines ---

  // From p to q entries only lose handles, and a handle lost is closed.
  ghost predicate Later(p: Pool, q: Pool) {
    && p.nextDb <= q.nextDb
    && (forall e :: e in p.entries ==>
          && e in q.entries && q.entries[e].element == p.entries[e].element
          && (q.entries[e].db == p.entries[e].db || q.entries[e].db == None)
          && (p.entries[e].db.Some? ==> (p.entries[e].db.value in q.open <==> q.entries[e].db == p.entries[e].db)))
    && (forall h :: h < p.nextDb && h in q.open ==> h in p.open)
  }

  lemma LaterKeepsPc(p: Pool, q: Pool, pc: Pc)
    requires Later(p, q) && PcOk(p, pc) && !Locked(pc)
    ensures PcOk(q, pc)
  {
  }

  lemma MovedLater(p: Pool, x: Element, flight: Option<nat>)
    requires PoolOk(p, flight)
    ensures Later(p, Moved(p, x))
  {
  }

  lemma ClosedLater(p: Pool, u: string)
    requires Handles(p) && Agree(p) && u in p.userDBs
    ensures Later(p, Closed(p, p.userDBs[u]))
  {
  }

  lemma DroppedLater(p: Pool, u: string, flight: Option<nat>)
    requires PoolOk(p, flight) && u in p.userDBs
    ensures Later(p, Dropped(p, u))
  {
    ClosedLater(p, u);
  }

  lemma EvictLater(p: Pool, flight: Option<nat>)
    requires PoolOk(p, flight)
    ensures Later(p, EvictOldest(p))
  {
    EvictIsDrop(p, flight);
    if |p.userDBs| >= p.size && p.lru != [] {
      DroppedLater(p, p.lru[|p.lru| - 1].user, flight);
    }
  }

  lemma ProbeFailsOk(p: Pool, h: nat)
    requires PoolOk(p, Some(h))
    ensures PoolOk(p.(open := p.open - {h}), None)
    ensures Later(p, p.(open := p.open - {h}))
  {
    var q := p.(open := p.open - {h});
    forall e | e in p.entries ensures p.entries[e].db != Some(h) {
      assert !HeldBy(p, p.entries[e].element.user, h);
    }
    forall k | k in q.open ensures exists u :: HeldBy(q, u, k) {
      var u :| HeldBy(p, u, k);
      assert HeldBy(q, u, k);
    }
    assert forall u, k :: HeldBy(q, u, k) == HeldBy(p, u, k);
  }

  lemma OpenOk(p: Pool)
    requires PoolOk(p, None)
    ensures var q := p.(open := p.open + {p.nextDb}, nextDb := p.nextDb + 1);
            PoolOk(q, Some(p.nextDb)) && Later(p, q)
  {
    var q := p.(open := p.open + {p.nextDb}, nextDb := p.nextDb + 1);
    assert forall u, k :: HeldBy(q, u, k) == HeldBy(p, u, k);
    forall u ensures !HeldBy(q, u, p.nextDb) {
    }
  }

  lemma LaterSelf(p: Pool, flight: Option<nat>)
    requires PoolOk(p, flight)
    ensures Later(p, p)
  {
  }

  // --- The steps ---

  // A step that leaves the pool q and puts goroutine g at pc.
  lemma GoesOk(s: Sys, q: Pool, g: nat, pc: Pc, t: Sys)
    requires Inv(s) && Later(s.pool, q)
    requires t == Goes(s.(pool := q), g, pc).(writer := t.writer)
    requires s.writer.None? || s.writer == Some(g) || (t.writer == s.writer && q == s.pool)
    requires t.writer == (if Locked(pc) then Some(g) else if s.writer == Some(g) then None else s.writer)
    requires Locked(pc) ==> s.writer.None? || s.writer == Some(g)
    requires PoolOk(q, Flight(t)) && |q.userDBs| <= Capacity(q.size) && PcOk(q, pc)
    ensures Inv(t)
  {
    hide PoolOk, Later;
    forall f: nat ensures PcOk(t.pool, At(t, f)) && (Locked(At(t, f)) <==> t.writer == Some(f)) {
      if f != g {
        assert At(t, f) == At(s, f);
        assert PcOk(s.pool, At(s, f));
        if Locked(At(s, f)) {
          assert q == s.pool;
        } else {
          LaterKeepsPc(s.pool, q, At(s, f));
        }
      }
    }
  }

  // The same for a step that leaves the pool alone.
  lemma StaysOk(s: Sys, g: nat, pc: Pc, t: Sys)
    requires Inv(s)
    requires t == Goes(s, g, pc).(writer := t.writer)
    requires t.writer == (if Locked(pc) then Some(g) else if s.writer == Some(g) then None else s.writer)
    requires Locked(pc) ==> s.writer.None? || s.writer == Some(g)
    requires !pc.InFlight? && !At(s, g).InFlight? && PcOk(s.pool, pc)
    ensures Inv(t)
  {
    LaterSelf(s.pool, Flight(s));
    hide PoolOk, Later;
    assert Flight(t) == Flight(s);
    GoesOk(s, s.pool, g, pc, t);
  }

  lemma StartKeepsInv(s: Sys, g: nat, u: string)
    requires Inv(s) && Enabled(s, Start(g, u))
    ensures Inv(Step(s, Start(g, u)))
  {
    var t := Step(s, Start(g, u));
    assert Agree(s.pool);
    StaysOk(s, g, At(t, g), t);
  }

  lemma ReadDbKeepsInv(s: Sys, g: nat)
    requires Inv(s) && Enabled(s, ReadDb(g))
    ensures Inv(Step(s, ReadDb(g)))
  {
    var t := Step(s, ReadDb(g));
    assert PcOk(s.pool, At(s, g)) && Handles(s.pool);
    StaysOk(s, g, At(t, g), t);
  }

  lemma PingKeepsInv(s: Sys, g: nat, ok: bool)
    requires Inv(s) && Enabled(s, Ping(g, ok))
    ensures Inv(Step(s, Ping(g, ok)))
  {
    hide PoolOk, Later;
    var t := Step(s, Ping(g, ok));
    assert PcOk(s.pool, At(s, g));
    StaysOk(s, g, At(t, g), t);
  }

  lemma MoveKeepsInv(s: Sys, g: nat)
    requires Inv(s) && Enabled(s, Move(g))
    ensures Inv(Step(s, Move(g)))
  {
    hide PoolOk, Later;
    var p, t := s.pool, Step(s, Move(g));
    var x := p.entries[At(s, g).entry].element;
    MovedOk(p, x, None);
    MovedLater(p, x, None);
    GoesOk(s, Moved(p, x), g, At(t, g), t);
  }

  lemma AcquireKeepsInv(s: Sys, g: nat)
    requires Inv(s) && Enabled(s, Acquire(g))
    ensures Inv(Step(s, Acquire(g)))
  {
    hide PoolOk, Later;
    var t := Step(s, Acquire(g));
    StaysOk(s, g, Checking(At(s, g).user), t);
  }

  lemma CheckKeepsInv(s: Sys, g: nat, ok: bool)
    requires Inv(s) && At(s, g).Checking?
    ensures Inv(CheckStep(s, g, ok))
  {
    var p, u := s.pool, At(s, g).user;
    var t := CheckStep(s, g, ok);
    assert s.writer == Some(g) && Agree(p);
    if u !in p.userDBs {
      StaysOk(s, g, Evicting(u), t);
    } else {
      CheckResidentKeepsInv(s, g, ok, u);
    }
  }

  lemma CheckResidentKeepsInv(s: Sys, g: nat, ok: bool, u: string)
    requires Inv(s) && At(s, g) == Checking(u) && s.writer == Some(g)
    requires u in s.pool.userDBs && s.pool.userDBs[u] in s.pool.entries
    ensures Inv(CheckStep(s, g, ok))
  {
    hide PoolOk, Later;
    var p, t := s.pool, CheckStep(s, g, ok);
    var entry := p.entries[p.userDBs[u]];
    MovedOk(p, entry.element, None);
    MovedLater(p, entry.element, None);
    DroppedOk(p, u, None);
    DroppedLater(p, u, None);
    if entry.db.Some? && PingOk(p, entry.db.value, ok) {
      GoesOk(s, Moved(p, entry.element), g, Returned(u, entry.db), t);
    } else {
      assert Dropped(p, u).userDBs.Keys == p.userDBs.Keys - {u};
      assert |Dropped(p, u).userDBs.Keys| == |p.userDBs.Keys| - 1;
      GoesOk(s, Dropped(p, u), g, Evicting(u), t);
    }
  }

  lemma EvictKeepsInv(s: Sys, g: nat)
    requires Inv(s) && At(s, g).Evicting?
    ensures Inv(Step(s, Evict(g)))
  {
    hide PoolOk, Later;
    var p, t := s.pool, Step(s, Evict(g));
    assert PcOk(p, At(s, g)) && s.writer == Some(g);
    EvictOk(p, None);
    EvictLater(p, None);
    assert At(s, g).user !in p.userDBs.Keys;
    GoesOk(s, EvictOldest(p), g, At(t, g), t);
  }

  lemma OpenKeepsInv(s: Sys, g: nat, ok: bool)
    requires Inv(s) && At(s, g).Dialing?
    ensures Inv(Step(s, Open(g, ok)))
  {
    hide PoolOk, Later;
    var p, t := s.pool, Step(s, Open(g, ok));
    assert PcOk(p, At(s, g)) && s.writer == Some(g);
    if ok {
      OpenOk(p);
      GoesOk(s, t.pool, g, At(t, g), t);
    } else {
      StaysOk(s, g, At(t, g), t);
    }
  }

  lemma PushedLater(p: Pool, u: string, h: nat, flight: Option<nat>)
    requires PoolOk(p, flight)
    ensures Later(p, Pushed(p, u, h))
  {
  }

  lemma ProbeKeepsInv(s: Sys, g: nat, ok: bool)
    requires Inv(s) && At(s, g).InFlight?
    ensures Inv(ProbeStep(s, g, ok))
  {
    hide PoolOk, Later;
    var p, pc := s.pool, At(s, g);
    var t := ProbeStep(s, g, ok);
    assert s.writer == Some(g) && PcOk(p, pc);
    PushedOk(p, pc.user, pc.db);
    PushedLater(p, pc.user, pc.db, Some(pc.db));
    ProbeFailsOk(p, pc.db);
    if ok {
      GoesOk(s, Pushed(p, pc.user, pc.db), g, Returned(pc.user, Some(pc.db)), t);
    } else {
      var q := p.(open := p.open - {pc.db});
      if pc.attempt + 1 < 3 {
        GoesOk(s, q, g, Dialing(pc.user, pc.attempt + 1), t);
      } else {
        GoesOk(s, q, g, Returned(pc.user, None), t);
      }
    }
  }

  lemma AllClosedLater(p: Pool)
    requires PoolOk(p, None)
    ensures Later(p, AllClosed(p))
  {
    AllClosedOk(p);
  }

  lemma CloseAllKeepsInv(s: Sys)
    requires Inv(s) && s.writer.None?
    ensures Inv(s.(pool := AllClosed(s.pool)))
  {
    hide PoolOk, Later;
    AllClosedOk(s.pool);
    AllClosedLater(s.pool);
    var t := s.(pool := AllClosed(s.pool));
    assert Flight(t) == Flight(s) == None;
    forall g: nat ensures PcOk(t.pool, At(t, g)) && (Locked(At(t, g)) <==> t.writer == Some(g)) {
      assert At(t, g) == At(s, g);
      assert PcOk(s.pool, At(s, g)) && !Locked(At(s, g));
      LaterKeepsPc(s.pool, AllClosed(s.pool), At(s, g));
    }
  }

  lemma StepKeepsInv(s: Sys, a: Action)
    requires Inv(s)
    ensures Inv(Step(s, a))
  {
    hide PoolOk, Later;
    if Enabled(s, a) {
      match a
      case Start(g, u) => StartKeepsInv(s, g, u);
      case ReadDb(g) => ReadDbKeepsInv(s, g);
      case Ping(g, ok) => PingKeepsInv(s, g, ok);
      case Move(g) => MoveKeepsInv(s, g);
      case Acquire(g) => AcquireKeepsInv(s, g);
      case Check(g, ok) => CheckKeepsInv(s, g, ok);
      case Evict(g) => EvictKeepsInv(s, g);
      case Open(g, ok) => OpenKeepsInv(s, g, ok);
      case Probe(g, ok) => ProbeKeepsInv(s, g, ok);
      case CloseAll => CloseAllKeepsInv(s);
    }
  }

  lemma {:induction false} RunKeepsInv(s: Sys, acts: seq<Action>)
    requires Inv(s)
    ensures Inv(Run(s, acts))
    decreases |acts|
  {
    hide Inv;
    if acts != [] {
      StepKeepsInv(s, acts[0]);
      RunKeepsInv(Step(s, acts[0]), acts[1..]);
    }
  }
}
