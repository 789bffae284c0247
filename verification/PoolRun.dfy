/**
 The user connection pool under any number of goroutines (k8s/rdb.go). getOrCreateUserDB is cut where
 other goroutines can get in between: the lookup under the read lock, reading the entry's handle, the
 ping outside any manager lock, and the move to the front; the slow path holds the write lock, during
 which the others can still read handles and ping. List elements and entries have identities of their
 own, so a goroutine can go on using ones the pool no longer holds.
 */
module PoolRun {
  import opened Common
  import opened Lists

  datatype Element = Element(id: nat, user: string)

  datatype Entry = Entry(element: Element, db: Option<nat>)

  datatype Pool = Pool(
    size: int,                   // UserDBPoolSize
    userDBs: map<string, nat>,   // user to entry
    entries: map<nat, Entry>,    // every entry ever made, kept or not
    lru: seq<Element>,           // lruList, front first
    open: set<nat>,              // handles opened and not closed
    nextEntry: nat,
    nextDb: nat,
    used: map<nat, nat>,         // when each element was last pushed or moved to the front
    clock: nat)

  // Where a goroutine is in getOrCreateUserDB.
  datatype Pc =
    | Idle
    | Found(user: string, entry: nat)                // fast path: entry looked up
    | Pinging(user: string, entry: nat, db: nat)     // fast path: handle read
    | Healthy(user: string, entry: nat, db: nat)     // fast path: ping succeeded
    | Waiting(user: string)                          // wants the write lock
    | Checking(user: string)                         // write lock held from here on
    | Evicting(user: string)
    | Dialing(user: string, attempt: nat)
    | InFlight(user: string, attempt: nat, db: nat)  // opened, not pinged yet
    | Returned(user: string, result: Option<nat>)

  datatype Sys = Sys(pool: Pool, pcs: map<nat, Pc>, writer: Option<nat>)

  datatype Action =
    | Start(g: nat, user: string)
    | ReadDb(g: nat)
    | Ping(g: nat, ok: bool)
    | Move(g: nat)
    | Acquire(g: nat)
    | Check(g: nat, ok: bool)
    | Evict(g: nat)
    | Open(g: nat, ok: bool)
    | Probe(g: nat, ok: bool)
    | CloseAll

  function At(s: Sys, g: nat): Pc {
    if g in s.pcs then s.pcs[g] else Idle
  }

  // --- container/list ---

  // Moving an element the list no longer holds does nothing.
  function MoveToFront(l: seq<Element>, e: Element): seq<Element> {
    if e in l then [e] + Remove(l, e) else l
  }

  // --- The pieces of getOrCreateUserDB ---

  function Moved(p: Pool, e: Element): Pool {
    if e in p.lru then p.(lru := MoveToFront(p.lru, e), used := p.used[e.id := p.clock], clock := p.clock + 1)
    else p
  }

  function Closed(p: Pool, e: nat): Pool
    requires e in p.entries
  {
    match p.entries[e].db
    case None => p
    case Some(h) => p.(entries := p.entries[e := p.entries[e].(db := None)], open := p.open - {h})
  }

  // entry.close(), lruList.Remove and delete, for the entry kept for u.
  function Dropped(p: Pool, u: string): Pool
    requires u in p.userDBs && p.userDBs[u] in p.entries
  {
    var e := p.userDBs[u];
    var q := Closed(p, e);
    q.(lru := Remove(p.lru, p.entries[e].element), userDBs := p.userDBs - {u})
  }

  function EvictOldest(p: Pool): Pool {
    if |p.userDBs| >= p.size && p.lru != [] then
      var oldest := p.lru[|p.lru| - 1];
      var q := if oldest.user in p.userDBs && p.userDBs[oldest.user] in p.entries
               then Closed(p, p.userDBs[oldest.user]).(userDBs := p.userDBs - {oldest.user}) else p;
      q.(lru := Remove(p.lru, oldest))
    else p
  }

  function Pushed(p: Pool, u: string, h: nat): Pool {
    var x := Element(p.nextEntry, u);
    p.(lru := [x] + p.lru, userDBs := p.userDBs[u := x.id], entries := p.entries[x.id := Entry(x, Some(h))],
       nextEntry := p.nextEntry + 1, used := p.used[x.id := p.clock], clock := p.clock + 1)
  }

  function AllClosed(p: Pool): Pool {
    p.(entries := map e | e in p.entries ::
                    if p.entries[e].element.user in p.userDBs && p.userDBs[p.entries[e].element.user] == e
                    then p.entries[e].(db := None) else p.entries[e],
       open := set h | h in p.open &&
                       !(exists u :: u in p.userDBs && p.userDBs[u] in p.entries
                                     && p.entries[p.userDBs[u]].db == Some(h)))
  }

  // A ping of a closed handle fails.
  predicate PingOk(p: Pool, h: nat, ok: bool) {
    ok && h in p.open
  }

  predicate Enabled(s: Sys, a: Action) {
    match a
    case Start(g, _) => (At(s, g).Idle? || At(s, g).Returned?) && s.writer.None?
    case ReadDb(g) => At(s, g).Found? && At(s, g).entry in s.pool.entries
    case Ping(g, _) => At(s, g).Pinging?
    case Move(g) => At(s, g).Healthy? && At(s, g).entry in s.pool.entries && s.writer.None?
    case Acquire(g) => At(s, g).Waiting? && s.writer.None?
    case Check(g, _) => At(s, g).Checking?
    case Evict(g) => At(s, g).Evicting?
    case Open(g, _) => At(s, g).Dialing?
    case Probe(g, _) => At(s, g).InFlight?
    case CloseAll => s.writer.None?
  }

  function Goes(s: Sys, g: nat, pc: Pc): Sys {
    s.(pcs := s.pcs[g := pc])
  }

  // Returns and lets go of the write lock.
  function Leaves(s: Sys, g: nat, u: string, result: Option<nat>): Sys {
    Goes(s, g, Returned(u, result)).(writer := None)
  }

  function CheckStep(s: Sys, g: nat, ok: bool): Sys
    requires At(s, g).Checking?
  {
    var p, u := s.pool, At(s, g).user;
    if u !in p.userDBs || p.userDBs[u] !in p.entries then Goes(s, g, Evicting(u))
    else
      var entry := p.entries[p.userDBs[u]];
      if entry.db.Some? && PingOk(p, entry.db.value, ok)
      then Leaves(s.(pool := Moved(p, entry.element)), g, u, entry.db)
      else Goes(s.(pool := Dropped(p, u)), g, Evicting(u))
  }

  function ProbeStep(s: Sys, g: nat, ok: bool): Sys
    requires At(s, g).InFlight?
  {
    var p, pc := s.pool, At(s, g);
    if ok then Leaves(s.(pool := Pushed(p, pc.user, pc.db)), g, pc.user, Some(pc.db))
    else
      var t := s.(pool := p.(open := p.open - {pc.db}));
      if pc.attempt + 1 < 3 then Goes(t, g, Dialing(pc.user, pc.attempt + 1))
      else Leaves(t, g, pc.user, None)
  }

  function Step(s: Sys, a: Action): Sys {
    if !Enabled(s, a) then s
    else
      match a
      case Start(g, u) =>
        Goes(s, g, if u in s.pool.userDBs then Found(u, s.pool.userDBs[u]) else Waiting(u))
      case ReadDb(g) =>
        var pc := At(s, g);
        Goes(s, g, match s.pool.entries[pc.entry].db
                   case None => Waiting(pc.user)
                   case Some(h) => Pinging(pc.user, pc.entry, h))
      case Ping(g, ok) =>
        var pc := At(s, g);
        Goes(s, g, if PingOk(s.pool, pc.db, ok) then Healthy(pc.user, pc.entry, pc.db) else Waiting(pc.user))
      case Move(g) =>
        var pc := At(s, g);
        Goes(s.(pool := Moved(s.pool, s.pool.entries[pc.entry].element)), g, Returned(pc.user, Some(pc.db)))
      case Acquire(g) => Goes(s, g, Checking(At(s, g).user)).(writer := Some(g))
      case Check(g, ok) => CheckStep(s, g, ok)
      case Evict(g) => Goes(s.(pool := EvictOldest(s.pool)), g, Dialing(At(s, g).user, 0))
      case Open(g, ok) =>
        var pc := At(s, g);
        if !ok then Leaves(s, g, pc.user, None)
        else Goes(s.(pool := s.pool.(open := s.pool.open + {s.pool.nextDb}, nextDb := s.pool.nextDb + 1)),
                  g, InFlight(pc.user, pc.attempt, s.pool.nextDb))
      case Probe(g, ok) => ProbeStep(s, g, ok)
      case CloseAll => s.(pool := AllClosed(s.pool))
  }

  function Init(size: int): Sys {
    Sys(Pool(size, map[], map[], [], {}, 0, 0, map[], 0), map[], None)
  }

  function Run(s: Sys, acts: seq<Action>): Sys
    decreases |acts|
  {
    if acts == [] then s else Run(Step(s, acts[0]), acts[1..])
  }
}
