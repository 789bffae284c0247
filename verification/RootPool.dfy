/** The one persistent connection to the database as root (k8s/rdb.go, tryGetRootDB and Close). */
module RootPool {
  import opened Recency
  import opened UserPool

  class RootRDBManager {
    const server: SqlServer
    var rootDB: SqlDb?

    // Nothing but rootDB is open, so at most one root connection is; Close may have closed it too.
    ghost predicate Valid()
      reads this, server
    {
      && (rootDB != null ==> rootDB.server == server && rootDB.user == "root")
      && (forall h :: h in server.open ==> h == rootDB)
    }

    constructor (server: SqlServer)
      requires server.open == {}
      ensures Valid() && this.server == server && rootDB == null
    {
      this.server, rootDB := server, null;
    }

    method TryGetRootDB(fastPing: bool, slowPing: bool, attempts: seq<Attempt>) returns (db: SqlDb?)
      requires Valid() && |attempts| >= 3
      modifies this, server
      ensures Valid() && db == rootDB && (db != null ==> db.user == "root")
      ensures server.open == if db != null then {db} else {}
      ensures db != null <==>
              (old(rootDB != null && rootDB in server.open) && (fastPing || slowPing)) || Connects(attempts, 0)
      ensures old(rootDB != null && rootDB in server.open) && (fastPing || slowPing) ==> db == old(rootDB)
    {
      // A ping of a closed handle fails.
      if rootDB != null && fastPing && rootDB in server.open {
        return rootDB;
      }
      if rootDB != null {
        if slowPing && rootDB in server.open {
          return rootDB;
        }
        rootDB.Close();
        rootDB := null;
      }
      var i := 0;
      while i < 3
        invariant 0 <= i <= 3 && rootDB == null && server.open == {}
        invariant Connects(attempts, 0) == Connects(attempts, i)
      {
        if attempts[i].OpenError? {
          return null;
        }
        db := new SqlDb(server, "root");
        if attempts[i].PingError? {
          db.Close();
          i := i + 1;
        } else {
          rootDB := db;
          return;
        }
      }
      db := null;
    }

    // Closes the connection and keeps the reference; the next TryGetRootDB finds it dead and reconnects.
    method Close()
      requires Valid()
      modifies server
      ensures Valid() && server.open == {}
    {
      if rootDB != null {
        rootDB.Close();
      }
    }
  }
}
