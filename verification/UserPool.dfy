/**
 The user connection manager as the objects it is made of (k8s/rdb.go): entries and handles are mutable
 objects, and getOrCreateUserDB updates them, the map and the list step by step. One call at a time here;
 PoolRun has the interleavings. A list element is a value with an identity of its own.
 */
module UserPool {
  import opened Lists
  import opened Recency
  import opened PoolRun
  import PoolTheorems

  /** The database server, which knows the handles opened and not closed. */
  class SqlServer {
    var open: set<SqlDb>

    constructor ()
      ensures open == {}
    {
      open := {};
    }
  }

  /** A *sql.DB, opened with one user's DSN. Only opening and closing one tells the server. */
  class SqlDb {
    const server: SqlServer
    const user: string

    constructor (server: SqlServer, user: string)
      modifies server
      ensures this.server == server && this.user == user
      ensures server.open == old(server.open) + {this}
    {
      this.server, this.user := server, user;
      new;
      server.open := server.open + {this};
    }

    method Close()
      modifies server
      ensures server.open == old(server.open) - {this}
    {
      server.open := server.open - {this};
    }
  }

  class UserDbEntry {
    var db: SqlDb?
    const element: Element

    constructor (db: SqlDb, element: Element)
      ensures this.db == db && this.element == element
    {
      this.db := db;
      this.element := element;
    }

    method Close()
      modifies this, if db != null then {db.server} else {}
      ensures db == null
      ensures old(db) != null ==> old(db).server.open == old(db.server.open) - {old(db)}
    {
      if db != null {
        db.Close();
        db := null;
      }
    }
  }

  lemma DistinctCons(x: Element, l: seq<Element>)
    requires Distinct(l) && x !in l
    ensures Distinct([x] + l)
  {
  }

  lemma EvictedIsRemove(l: seq<string>, size: int)
    requires Distinct(l)
    ensures Evicted(l, size) == if |l| >= size && l != [] then Remove(l, l[|l| - 1]) else l
  {
    if l != [] {
      PoolTheorems.RemoveLast(l);
    }
  }

  lemma KeysShrink(keys: set<string>, u: string)
    requires u in keys
    ensures |keys - {u}| == |keys| - 1
  {
  }

  // Map and list hold the same users, once each, by the same elements.
  ghost predicate ListedIn(m: map<string, UserDbEntry>, l: seq<Element>, next: nat, entries: set<UserDbEntry>) {
    && (forall u :: u in m ==> m[u] in entries && m[u].element.user == u && m[u].element in l)
    && (forall x :: x in l ==> x.user in m && m[x.user].element == x && x.id < next)
    && Distinct(l)
  }

  // The handles open are exactly those of the entries kept.
  ghost predicate CountedIn(m: map<string, UserDbEntry>, entries: set<UserDbEntry>, server: SqlServer, open: set<SqlDb>)
    reads entries
  {
    && (forall u :: u in m && m[u] in entries && m[u].db != null ==>
          m[u].db in open && m[u].db.server == server && m[u].db.user == u)
    && (forall h :: h in open ==> h.user in m && m[h.user] in entries && m[h.user].db == h)
  }

  lemma ForgetListed(m: map<string, UserDbEntry>, l: seq<Element>, next: nat, entries: set<UserDbEntry>, u: string)
    requires ListedIn(m, l, next, entries) && u in m
    ensures m[u] in entries
    ensures ListedIn(m - {u}, Remove(l, m[u].element), next, entries) && |m - {u}| <= |m|
    ensures PoolTheorems.Users(Remove(l, m[u].element)) == Remove(PoolTheorems.Users(l), u)
  {
    PoolTheorems.RemoveUsers(l, m[u].element);
    RemoveDistinct(l, m[u].element);
    assert (m - {u}).Keys == m.Keys - {u};
  }

  lemma PushListed(m: map<string, UserDbEntry>, l: seq<Element>, next: nat, entries: set<UserDbEntry>, u: string,
                   entry: UserDbEntry)
    requires ListedIn(m, l, next, entries) && u !in m && entry.element == Element(next, u)
    ensures ListedIn(m[u := entry], [entry.element] + l, next + 1, entries + {entry})
    ensures |m[u := entry]| == |m| + 1
    ensures forall v :: v in m ==> m[v] in entries
  {
    DistinctCons(entry.element, l);
    hide Distinct;
    assert m[u := entry].Keys == m.Keys + {u};
    assert forall x :: x in [entry.element] + l <==> x == entry.element || x in l;
  }

  lemma PushCounted(m: map<string, UserDbEntry>, entries: set<UserDbEntry>, server: SqlServer, open: set<SqlDb>,
                    u: string, entry: UserDbEntry)
    requires forall v :: v in m ==> m[v] in entries
    requires u !in m && entry.db != null && entry.db.server == server && entry.db.user == u
    requires CountedIn(m, entries, server, open)
    ensures CountedIn(m[u := entry], entries + {entry}, server, open + {entry.db})
  {
  }

  class UserDbManager {
    const poolSize: int
    const server: SqlServer
    var userDBs: map<string, UserDbEntry>
    var lruList: seq<Element>
    var nextElement: nat
    ghost var entries: set<UserDbEntry>   // every entry this manager ever made

    ghost predicate Listed()
      reads this
    {
      ListedIn(userDBs, lruList, nextElement, entries)
    }

    // Nothing is open on this manager's server but the handles of the entries kept.
    ghost predicate Counted()
      reads this, entries, server
    {
      CountedIn(userDBs, entries, server, server.open)
    }

    ghost predicate Valid()
      reads this, entries, server
    {
      Listed() && Counted() && |userDBs| <= Capacity(poolSize)
    }

    ghost function Uids(): seq<string>
      reads this
    {
      PoolTheorems.Users(lruList)
    }

    ghost function ClosedUids(): set<string>
      requires Listed()
      reads this, entries
    {
      set u | u in userDBs && userDBs[u].db == null
    }

    constructor (server: SqlServer, poolSize: int)
      requires server.open == {}
      ensures Valid() && this.server == server && this.poolSize == poolSize && Uids() == [] && entries == {}
    {
      this.server, this.poolSize := server, poolSize;
      userDBs, lruList, nextElement, entries := map[], [], 0, {};
    }

    lemma ListedDistinct()
      requires Listed()
      ensures Distinct(Uids())
      ensures forall u :: u in Uids() <==> u in userDBs
      ensures |lruList| == |userDBs|
    {
      forall i, j | 0 <= i < j < |lruList| ensures Uids()[i] != Uids()[j] {
        assert lruList[i] in lruList && lruList[j] in lruList;
      }
      forall u ensures u in Uids() <==> u in userDBs {
        if u in Uids() {
          var i :| 0 <= i < |lruList| && Uids()[i] == u;
          assert lruList[i] in lruList;
        }
        if u in userDBs {
          var i :| 0 <= i < |lruList| && lruList[i] == userDBs[u].element;
          assert Uids()[i] == u;
        }
      }
      PoolTheorems.DistinctLength(Uids(), userDBs.Keys);
    }

    // entry.close() for the entry kept for u.
    method CloseEntry(u: string)
      requires Valid() && u in userDBs
      modifies userDBs[u], server
      ensures Valid() && userDBs[u].db == null
      ensures forall v :: v in userDBs && v != u ==> userDBs[v].db == old(userDBs[v].db)
    {
      var entry := userDBs[u];
      assert forall v :: v in userDBs && v != u ==> userDBs[v] != entry by {
        assert forall v :: v in userDBs ==> userDBs[v].element.user == v;
      }
      entry.Close();
    }

    // lruList.Remove and delete for the entry kept for u, already closed.
    method Forget(u: string)
      requires Valid() && u in userDBs && userDBs[u].db == null
      modifies this`userDBs, this`lruList
      ensures Valid() && userDBs == old(userDBs) - {u}
      ensures Uids() == Remove(old(Uids()), u)
    {
      hide ListedIn, PoolTheorems.Users, Remove;
      ForgetListed(userDBs, lruList, nextElement, entries, u);
      var entry := userDBs[u];
      lruList := Remove(lruList, entry.element);
      userDBs := userDBs - {u};
    }

    method MoveToFront(u: string)
      requires Valid() && u in userDBs
      modifies this`lruList
      ensures Valid() && Uids() == Front(old(Uids()), u)
    {
      var x := userDBs[u].element;
      PoolTheorems.RemoveUsers(lruList, x);
      PoolTheorems.UsersCons(x, Remove(lruList, x));
      RemoveDistinct(lruList, x);
      lruList := PoolRun.MoveToFront(lruList, x);
    }

    lemma OldestUser()
      requires Listed()
      ensures lruList != [] ==>
                var u := lruList[|lruList| - 1].user;
                u in userDBs && userDBs[u] in entries && Uids()[|Uids()| - 1] == u
      ensures |lruList| == |userDBs| == |Uids()| && Distinct(Uids())
    {
      ListedDistinct();
      if lruList != [] {
        assert lruList[|lruList| - 1] in lruList;
      }
    }

    // Makes room, if the pool is full, by dropping the user at the back.
    method Evict()
      requires Valid()
      modifies this`userDBs, this`lruList, entries, server
      ensures Valid() && |userDBs| < Capacity(poolSize)
      ensures Uids() == Evicted(old(Uids()), poolSize)
      ensures userDBs.Keys <= old(userDBs).Keys
    {
      hide ListedIn, CountedIn, PoolTheorems.Users, Remove, Evicted;
      OldestUser();
      EvictedIsRemove(Uids(), poolSize);
      if |userDBs| >= poolSize && lruList != [] {
        var oldUID := lruList[|lruList| - 1].user;
        KeysShrink(userDBs.Keys, oldUID);
        ghost var m := userDBs;
        CloseEntry(oldUID);
        Forget(oldUID);
        assert userDBs.Keys == m.Keys - {oldUID};
      }
    }

    method Push(u: string, entry: UserDbEntry)
      requires Listed() && u !in userDBs && |userDBs| < Capacity(poolSize)
      requires entry.element == Element(nextElement, u)
      requires entry.db != null && entry.db.server == server && entry.db.user == u
      requires entry.db in server.open && CountedIn(userDBs, entries, server, server.open - {entry.db})
      modifies this`userDBs, this`lruList, this`nextElement, this`entries
      ensures Valid() && Uids() == [u] + old(Uids())
      ensures userDBs == old(userDBs)[u := entry]
    {
      hide Distinct, PoolTheorems.Users, ListedIn;
      PoolTheorems.UsersCons(entry.element, lruList);
      PushListed(userDBs, lruList, nextElement, entries, u, entry);
      PushCounted(userDBs, entries, server, server.open - {entry.db}, u, entry);
      assert server.open - {entry.db} + {entry.db} == server.open;
      lruList := [entry.element] + lruList;
      userDBs := userDBs[u := entry];
      nextElement := nextElement + 1;
      entries := entries + {entry};
    }

    // At most three attempts; a handle whose ping fails is closed before the next.
    method Dial(u: string, attempts: seq<Attempt>) returns (db: SqlDb?)
      requires Valid() && u !in userDBs && |userDBs| < Capacity(poolSize) && |attempts| >= 3
      modifies this, server
      ensures Valid()
      ensures db != null <==> Connects(attempts, 0)
      ensures Uids() == if db != null then [u] + old(Uids()) else old(Uids())
      ensures db != null ==> u in userDBs && userDBs[u].db == db
    {
      hide ListedIn, PoolTheorems.Users;
      var i := 0;
      while i < 3
        invariant 0 <= i <= 3
        invariant Valid() && userDBs == old(userDBs) && lruList == old(lruList)
        invariant Connects(attempts, 0) == Connects(attempts, i)
      {
        if attempts[i].OpenError? {
          return null;
        }
        db := new SqlDb(server, u);
        if attempts[i].PingError? {
          db.Close();
          i := i + 1;
        } else {
          var entry := new UserDbEntry(db, Element(nextElement, u));
          Push(u, entry);
          return;
        }
      }
      db := null;
    }

    method GetOrCreateUserDB(userUID: string, env: Env) returns (db: SqlDb?)
      requires Valid() && |env.attempts| >= 3
      modifies this, entries, server
      ensures Valid()
      ensures Uids() == AfterCall(old(Uids()), old(ClosedUids()), poolSize, userUID, env)
      ensures db != null ==> db in server.open && userUID in userDBs && userDBs[userUID].db == db
      ensures db != null <==>
              || (userUID in old(userDBs) && userUID !in old(ClosedUids()) && (env.fastPing || env.slowPing))
              || Connects(env.attempts, 0)
    {
      hide Distinct, PoolTheorems.Users, Connects, Evicted, Remove;
      ListedDistinct();
      // Fast path
      if userUID in userDBs {
        db := userDBs[userUID].db;
        if db != null && env.fastPing {
          MoveToFront(userUID);
          return;
        }
      }
      // Slow path
      if userUID in userDBs {
        db := userDBs[userUID].db;
        if db != null && env.slowPing {
          MoveToFront(userUID);
          return;
        }
        CloseEntry(userUID);
        Forget(userUID);
      } else {
        RemoveNothing(Uids(), userUID);
      }
      assert Uids() == Remove(old(Uids()), userUID) && userUID !in userDBs;
      Evict();
      db := Dial(userUID, env.attempts);
    }

    // Closes every entry's handle; map and list keep the entries.
    method CloseAll()
      requires Valid()
      modifies entries, server
      ensures Valid() && ClosedUids() == userDBs.Keys
      ensures server.open == {}
    {
      var todo := userDBs.Keys;
      while todo != {}
        invariant Valid() && todo <= userDBs.Keys
        invariant forall u :: u in userDBs && u !in todo ==> userDBs[u].db == null
      {
        var u :| u in todo;
        CloseEntry(u);
        todo := todo - {u};
      }
    }
  }
}
