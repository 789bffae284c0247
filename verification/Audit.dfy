/**
 The periodic user audit (handlers/jobs/auth.cron.go, with InitUserRDB, DropDatabase and
 RootListUserDatabases of k8s/rdb.go): a scan of the users, then a two-sided repair of the databases and
 the deletion of CRs without an owner. Any call may fail.
 */
module Audit {
  import opened Like
  import opened Naming
  import opened Paging

  // The first statement of InitUserRDB that fails.
  datatype InitOutcome = RootUnreachable | CreateDatabaseFails | CreateUserFails | GrantFails | Initialized

  predicate MakesDatabase(o: InitOutcome) { o.CreateUserFails? || o.GrantFails? || o.Initialized? }

  predicate MakesUser(o: InitOutcome) { o.GrantFails? || o.Initialized? }

  datatype Env = Env(
    clients: bool,                  // both Kubernetes clients are initialized
    fetch: nat -> Fetch,            // the user queries
    listCRs: bool,
    listDatabases: bool,            // there is a database manager and its listing succeeds
    init: string -> InitOutcome,    // by uid
    drop: string -> bool,           // by database
    delete: string -> bool)         // by CR name

  // The databases of the server, its SQL users, and the owner each CR's spec names, "" if it names none.
  datatype State = State(databases: set<string>, sqlUsers: set<string>, crs: map<string, string>)

  function Listed(databases: set<string>): set<string> {
    set d | d in databases && IsUserDatabase(d)
  }

  function NamesOf(users: set<string>): set<string> {
    set u | u in users :: DatabaseName(u)
  }

  // The users for whom a database, or an SQL user, is made.
  function Missing(users: set<string>, listed: set<string>): set<string> {
    set u | u in users && DatabaseName(u) !in listed
  }

  function Made(users: set<string>, listed: set<string>, env: Env): set<string> {
    set u | u in users && DatabaseName(u) !in listed && MakesDatabase(env.init(u)) :: DatabaseName(u)
  }

  function MadeUsers(users: set<string>, listed: set<string>, env: Env): set<string> {
    set u | u in users && DatabaseName(u) !in listed && MakesUser(env.init(u)) :: Username(u)
  }

  // What the drops that succeed really remove: the statement gives the listed name without quotes, and the
  // server folds it to lower case.
  function Dropped(users: set<string>, listed: set<string>, env: Env): set<string> {
    set d | d in listed && d !in NamesOf(users) && env.drop(d) :: ToLower(d)
  }

  function DeletedCRs(users: set<string>, crs: map<string, string>, env: Env): set<string> {
    set n | n in crs && crs[n] != "" && crs[n] !in users && env.delete(n)
  }

  // The repair for the users loaded. A listing without rows is a nil slice, as after an error, and then
  // the databases are left alone.
  function Repaired(s: State, users: set<string>, env: Env): State {
    var listed := if env.listDatabases then Listed(s.databases) else {};
    var crs := s.crs - DeletedCRs(users, s.crs, env);
    if listed == {} then s.(crs := crs)
    else
      State(s.databases + Made(users, listed, env) - Dropped(users, listed, env),
            s.sqlUsers + MadeUsers(users, listed, env), crs)
  }

  function Audited(s: State, table: seq<string>, p: nat, env: Env): State
    requires p > 0
  {
    var users := Scan(table, p, env.fetch, 0, 0, {}).0;
    if !env.clients || users.None? || !env.listCRs then s else Repaired(s, users.value, env)
  }

  class UserAudit {
    const table: seq<string>
    const pageSize: nat
    var databases: set<string>
    var sqlUsers: set<string>
    var crs: map<string, string>

    ghost function Contents(): State
      reads this
    {
      State(databases, sqlUsers, crs)
    }

    constructor (table: seq<string>, pageSize: nat, s: State)
      ensures Contents() == s && this.table == table && this.pageSize == pageSize
    {
      this.table, this.pageSize := table, pageSize;
      databases, sqlUsers, crs := s.databases, s.sqlUsers, s.crs;
    }

    method InitUserRDB(uid: string, outcome: InitOutcome) returns (ok: bool)
      modifies this
      ensures databases == old(databases) + (if MakesDatabase(outcome) then {DatabaseName(uid)} else {})
      ensures sqlUsers == old(sqlUsers) + (if MakesUser(outcome) then {Username(uid)} else {})
      ensures crs == old(crs) && (ok <==> outcome.Initialized?)
      ensures match outcome
              case RootUnreachable => databases == old(databases) && sqlUsers == old(sqlUsers)
              case CreateDatabaseFails => databases == old(databases) && sqlUsers == old(sqlUsers)
              case CreateUserFails => databases == old(databases) + {DatabaseName(uid)} && sqlUsers == old(sqlUsers)
              case _ => databases == old(databases) + {DatabaseName(uid)} && sqlUsers == old(sqlUsers) + {Username(uid)}
    {
      if outcome.RootUnreachable? || outcome.CreateDatabaseFails? {
        return false;
      }
      databases := databases + {DatabaseName(uid)};
      if outcome.CreateUserFails? {
        return false;
      }
      sqlUsers := sqlUsers + {Username(uid)};
      ok := !outcome.GrantFails?;
    }

    method CheckUserRDBInitialization(userSet: set<string>, existing: set<string>, env: Env)
      modifies this
      ensures databases == old(databases) + Made(userSet, existing, env)
      ensures sqlUsers == old(sqlUsers) + MadeUsers(userSet, existing, env)
      ensures crs == old(crs)
    {
      var todo := userSet;
      while todo != {}
        invariant todo <= userSet && crs == old(crs)
        invariant databases == old(databases) + Made(userSet - todo, existing, env)
        invariant sqlUsers == old(sqlUsers) + MadeUsers(userSet - todo, existing, env)
        decreases todo
      {
        var uid :| uid in todo;
        OneMoreUser(userSet - todo, existing, env, uid);
        assert userSet - (todo - {uid}) == userSet - todo + {uid};
        todo := todo - {uid};
        if DatabaseName(uid) !in existing {
          var _ := InitUserRDB(uid, env.init(uid));
        }
      }
      assert userSet - todo == userSet;
    }

    method CleanOrphanRDBs(userSet: set<string>, existing: set<string>, env: Env)
      modifies this
      ensures databases == old(databases) - Dropped(userSet, existing, env)
      ensures sqlUsers == old(sqlUsers) && crs == old(crs)
    {
      var validDBs := NamesOf(userSet);
      var todo := existing;
      while todo != {}
        invariant todo <= existing && crs == old(crs) && sqlUsers == old(sqlUsers)
        invariant databases == old(databases) - Dropped(userSet, existing - todo, env)
        decreases todo
      {
        var dbName :| dbName in todo;
        OneMoreListed(userSet, existing - todo, env, dbName);
        assert existing - (todo - {dbName}) == existing - todo + {dbName};
        todo := todo - {dbName};
        if dbName !in validDBs {
          if env.drop(dbName) {
            databases := databases - {ToLower(dbName)};
          }
        }
      }
      assert existing - todo == existing;
    }

    method CleanOrphanWorkers(userSet: set<string>, items: map<string, string>, env: Env)
      modifies this
      ensures crs == old(crs) - DeletedCRs(userSet, items, env)
      ensures databases == old(databases) && sqlUsers == old(sqlUsers)
    {
      var todo := items.Keys;
      while todo != {}
        invariant todo <= items.Keys && databases == old(databases) && sqlUsers == old(sqlUsers)
        invariant crs == old(crs) - (DeletedCRs(userSet, items, env) - todo)
        decreases todo
      {
        var name :| name in todo;
        todo := todo - {name};
        var ownerID := items[name];
        if ownerID != "" && ownerID !in userSet {
          if env.delete(name) {
            crs := crs - {name};
          }
        }
      }
      assert DeletedCRs(userSet, items, env) - todo == DeletedCRs(userSet, items, env);
    }

    method Do(env: Env) returns (ok: bool)
      requires pageSize > 0
      modifies this
      ensures Contents() == Audited(old(Contents()), table, pageSize, env)
    {
      if !env.clients {
        return true;
      }
      var userSet, _ := LoadAllUserUIDs(table, pageSize, env.fetch);
      if userSet.None? || !env.listCRs {
        return false;
      }
      var workerCRs := crs;
      var existingDBs := if env.listDatabases then Listed(databases) else {};
      if existingDBs != {} {
        CheckUserRDBInitialization(userSet.value, existingDBs, env);
      }
      CleanOrphanWorkers(userSet.value, workerCRs, env);
      if existingDBs != {} {
        CleanOrphanRDBs(userSet.value, existingDBs, env);
      }
      ok := true;
    }
  }

  lemma OneMoreUser(users: set<string>, listed: set<string>, env: Env, uid: string)
    ensures Made(users + {uid}, listed, env) ==
            Made(users, listed, env) +
            (if DatabaseName(uid) !in listed && MakesDatabase(env.init(uid)) then {DatabaseName(uid)} else {})
    ensures MadeUsers(users + {uid}, listed, env) ==
            MadeUsers(users, listed, env) +
            (if DatabaseName(uid) !in listed && MakesUser(env.init(uid)) then {Username(uid)} else {})
  {
  }

  lemma OneMoreListed(users: set<string>, listed: set<string>, env: Env, d: string)
    ensures Dropped(users, listed + {d}, env) ==
            Dropped(users, listed, env) + (if d !in NamesOf(users) && env.drop(d) then {ToLower(d)} else {})
  {
  }
}
