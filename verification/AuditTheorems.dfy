/** What audits achieve, one by one and over any run, while the users table stays as it is. */
module AuditTheorems {
  import opened Common
  import opened Like
  import opened Lists
  import opened Naming
  import opened Paging
  import opened Audit

  // What is wrong with the databases: orphans and users without one.
  function Off(databases: set<string>, users: set<string>): set<string> {
    (Listed(databases) - NamesOf(users)) + (NamesOf(users) - Listed(databases))
  }

  lemma NamesAreListable(uid: string)
    ensures IsUserDatabase(DatabaseName(uid))
  {
    UserDatabases(DatabaseName(uid));
    assert DatabaseName(uid)[..2] == "db";
  }

  lemma ListedNames(databases: set<string>, users: set<string>)
    ensures NamesOf(users) - Listed(databases) == NamesOf(users) - databases
  {
    forall d | d in NamesOf(users) ensures IsUserDatabase(d) {
      var u :| u in users && d == DatabaseName(u);
      NamesAreListable(u);
    }
  }

  // --- One repair ---

  lemma MadeWereMissing(users: set<string>, listed: set<string>, env: Env)
    ensures Made(users, listed, env) <= NamesOf(users) - listed
    ensures Made(users, listed, env) == NamesOf(set u | u in Missing(users, listed) && MakesDatabase(env.init(u)))
  {
  }

  // The repair takes out of the difference what it made, and what it dropped of the orphans, and adds the
  // users' databases it dropped by a name that folds to theirs; without a listing it touches no database.
  lemma RepairChanges(s: State, users: set<string>, env: Env)
    ensures var listed := if env.listDatabases then Listed(s.databases) else {};
            var off, after := Off(s.databases, users), Repaired(s, users, env).databases;
            var made, dropped, names := Made(users, listed, env), Dropped(users, listed, env), NamesOf(users);
            if listed == {} then after == s.databases
            else
              && made <= names - listed
              && Off(after, users) == (off - (made - dropped) - (dropped - names)) + names * listed * dropped
  {
    var listed := if env.listDatabases then Listed(s.databases) else {};
    if listed != {} {
      MadeWereMissing(users, listed, env);
      ListedAfter(s, users, env);
    }
  }

  lemma ListedAfter(s: State, users: set<string>, env: Env)
    requires env.listDatabases && Listed(s.databases) != {}
    ensures var listed := Listed(s.databases);
            Listed(Repaired(s, users, env).databases) == listed + Made(users, listed, env) - Dropped(users, listed, env)
  {
    var listed := Listed(s.databases);
    forall d | d in Made(users, listed, env) ensures IsUserDatabase(d) {
      var u :| u in users && d == DatabaseName(u);
      NamesAreListable(u);
    }
  }

  // Dropping a database by its unquoted name drops that database.
  predicate LowerNames(databases: set<string>) {
    forall d :: d in Listed(databases) ==> ToLower(d) == d
  }

  lemma LowerDropped(s: State, users: set<string>, env: Env)
    requires LowerNames(s.databases)
    ensures var listed := Listed(s.databases);
            Dropped(users, listed, env) == set d | d in listed && d !in NamesOf(users) && env.drop(d)
  {
    var listed := Listed(s.databases);
    forall d | d in listed && d !in NamesOf(users) && env.drop(d) ensures d in Dropped(users, listed, env) {
      assert ToLower(d) == d;
    }
  }

  // Where all listed names are lower-case, what is made and what is dropped are different databases, each
  // of them one that was wrong, and exactly these leave the difference.
  lemma RepairShrinks(s: State, users: set<string>, env: Env)
    requires LowerNames(s.databases)
    ensures var listed := if env.listDatabases then Listed(s.databases) else {};
            var off, after := Off(s.databases, users), Repaired(s, users, env).databases;
            if listed == {} then after == s.databases
            else
              && Made(users, listed, env) <= off && Dropped(users, listed, env) <= off
              && Made(users, listed, env) !! Dropped(users, listed, env)
              && Off(after, users) == off - Made(users, listed, env) - Dropped(users, listed, env)
  {
    RepairChanges(s, users, env);
    LowerDropped(s, users, env);
    var listed := Listed(s.databases);
    var made, dropped := Made(users, listed, env), Dropped(users, listed, env);
    assert dropped <= listed - NamesOf(users);
    if env.listDatabases && listed != {} {
      SimplerDifference(Off(s.databases, users), made, dropped, NamesOf(users), listed);
    }
  }

  lemma SimplerDifference(off: set<string>, made: set<string>, dropped: set<string>, names: set<string>,
                          listed: set<string>)
    requires made <= names - listed && dropped <= listed - names
    ensures (off - (made - dropped) - (dropped - names)) + names * listed * dropped == off - made - dropped
  {
  }

  lemma {:induction false} NamesCount(users: set<string>)
    requires forall u :: u in users ==> Clean(u)
    ensures |NamesOf(users)| == |users|
    decreases users
  {
    if u :| u in users {
      var rest := users - {u};
      NamesCount(rest);
      forall v | v in rest ensures DatabaseName(v) != DatabaseName(u) {
        DatabaseNameInjective(u, v);
      }
      assert NamesOf(users) == NamesOf(rest) + {DatabaseName(u)};
    } else {
      assert NamesOf(users) == {};
    }
  }

  // With ids that need no cleaning besides, the difference shrinks by one per call that took effect.
  lemma ShrinksByOnePerCall(s: State, users: set<string>, env: Env)
    requires LowerNames(s.databases) && forall u :: u in users ==> Clean(u)
    requires env.listDatabases && Listed(s.databases) != {}
    ensures var listed := Listed(s.databases);
            |Off(Repaired(s, users, env).databases, users)|
            == |Off(s.databases, users)|
               - |set u | u in Missing(users, listed) && MakesDatabase(env.init(u))|
               - |set d | d in listed && d !in NamesOf(users) && env.drop(d)|
  {
    var listed := Listed(s.databases);
    RepairShrinks(s, users, env);
    LowerDropped(s, users, env);
    MadeWereMissing(users, listed, env);
    NamesCount(set u | u in Missing(users, listed) && MakesDatabase(env.init(u)));
    DifferenceCount(Off(s.databases, users), Made(users, listed, env), Dropped(users, listed, env));
  }

  lemma DifferenceCount(off: set<string>, made: set<string>, dropped: set<string>)
    requires made <= off && dropped <= off && made !! dropped
    ensures |off - made - dropped| == |off| - |made| - |dropped|
  {
    assert |off - made| == |off| - |made|;
    assert dropped <= off - made;
  }

  // --- What is dropped and deleted ---

  predicate Completes(table: seq<string>, p: nat, env: Env)
    requires p > 0
  {
    env.clients && env.listCRs && Scan(table, p, env.fetch, 0, 0, {}).0.Some?
  }

  // The users an audit that completes has loaded.
  function LoadedUsers(table: seq<string>, p: nat, env: Env): set<string>
    requires p > 0 && Completes(table, p, env)
  {
    Scan(table, p, env.fetch, 0, 0, {}).0.value
  }

  // The database called e is listed, and it is not that of a user loaded.
  predicate Orphan(s: State, users: set<string>, e: string) {
    e in s.databases && |e| > 2 && "db" <= e && forall u :: u in users ==> DatabaseName(u) != e
  }

  // A database that was there is gone exactly if an orphan whose name folds to its own can be dropped; an
  // orphan is whatever is called "db" and at least one more character, whichever, and is not the database
  // of a user loaded. Nothing but databases of loaded users appears.
  lemma DroppedExactly(s: State, table: seq<string>, p: nat, env: Env, d: string)
    requires p > 0
    ensures var after := Audited(s, table, p, env).databases;
            && (d in s.databases ==>
                  (d !in after <==>
                    && Completes(table, p, env) && env.listDatabases
                    && exists e :: Orphan(s, LoadedUsers(table, p, env), e) && env.drop(e) && ToLower(e) == d))
            && (d !in s.databases && d in after ==>
                  Completes(table, p, env) && exists u :: u in LoadedUsers(table, p, env) && DatabaseName(u) == d)
  {
    if Completes(table, p, env) && env.listDatabases {
      DroppedByOrphan(s, LoadedUsers(table, p, env), env, d);
      MadeWereMissing(LoadedUsers(table, p, env), Listed(s.databases), env);
    }
  }

  lemma DroppedByOrphan(s: State, users: set<string>, env: Env, d: string)
    ensures d in Dropped(users, Listed(s.databases), env) <==>
            exists e :: Orphan(s, users, e) && env.drop(e) && ToLower(e) == d
  {
    var listed := Listed(s.databases);
    if d in Dropped(users, listed, env) {
      var e :| e in listed && e !in NamesOf(users) && env.drop(e) && ToLower(e) == d;
      UserDatabases(e);
      assert Orphan(s, users, e);
    }
    if e :| Orphan(s, users, e) && env.drop(e) && ToLower(e) == d {
      UserDatabases(e);
      assert e in listed && e !in NamesOf(users);
    }
  }

  // A CR is deleted exactly if its spec names an owner who was not loaded and the delete succeeds.
  lemma CRDeletedExactly(s: State, table: seq<string>, p: nat, env: Env, n: string)
    requires p > 0 && n in s.crs
    ensures n !in Audited(s, table, p, env).crs <==>
            && Completes(table, p, env) && s.crs[n] != "" && env.delete(n)
            && s.crs[n] !in LoadedUsers(table, p, env)
    ensures n in Audited(s, table, p, env).crs ==> Audited(s, table, p, env).crs[n] == s.crs[n]
  {
  }

  // The scan fails, or it finds every user.
  predicate SoundScan(table: seq<string>, p: nat, fetch: nat -> Fetch)
    requires p > 0
  {
    Scan(table, p, fetch, 0, 0, {}).0.None? || WholeFrom(table, p, fetch, 0, 0)
  }

  lemma SoundLoads(table: seq<string>, p: nat, env: Env)
    requires p > 0 && Distinct(table)
    requires SoundScan(table, p, env.fetch) && Completes(table, p, env)
    ensures LoadedUsers(table, p, env) == SetOf(table)
  {
    PagedScanExact(table, p, env.fetch);
  }

  // With a sound scan a user's database is lost exactly if another listed database, whose name differs from
  // it in case only, can be dropped: the drop goes to the user's.
  lemma LiveDatabaseLost(s: State, table: seq<string>, p: nat, env: Env, uid: string)
    requires p > 0 && Distinct(table) && SoundScan(table, p, env.fetch)
    requires uid in table && DatabaseName(uid) in s.databases
    ensures DatabaseName(uid) !in Audited(s, table, p, env).databases <==>
            && Completes(table, p, env) && env.listDatabases
            && exists e :: e in s.databases && e != DatabaseName(uid) && "db" <= e
                           && ToLower(e) == DatabaseName(uid) && env.drop(e)
  {
    var d := DatabaseName(uid);
    DroppedExactly(s, table, p, env, d);
    if Completes(table, p, env) && env.listDatabases {
      SoundLoads(table, p, env);
      var users := LoadedUsers(table, p, env);
      assert uid in users;
      if e :| e in s.databases && e != d && "db" <= e && ToLower(e) == d && env.drop(e) {
        forall u | u in users ensures DatabaseName(u) != e {
          NamesFold(u);
        }
        assert Orphan(s, users, e);
      }
      if e :| Orphan(s, users, e) && env.drop(e) && ToLower(e) == d {
        assert e != d && "db" <= e;
      }
    }
  }

  // For instance "db_Alice" instead of "db_alice".
  lemma MixedCaseDropsLive() returns (s: State, env: Env)
    ensures SoundScan(["alice"], USER_PAGE_SIZE, env.fetch) && DatabaseName("alice") in s.databases
    ensures DatabaseName("alice") !in Audited(s, ["alice"], USER_PAGE_SIZE, env).databases
  {
    env := Env(true, _ => Full, true, true, _ => Initialized, _ => true, _ => true);
    s := State({"db_alice", "db_Alice"}, {}, map[]);
    assert Clean("alice");
    SanitizeFixesExactlyClean("alice");
    assert DatabaseName("alice") == "db_alice";
    assert ToLower("db_Alice") == "db_alice" && "db" <= "db_Alice" && "db_Alice"[3] != "db_alice"[3];
    PagedScanExact(["alice"], USER_PAGE_SIZE, env.fetch);
    assert "alice" in ["alice"];
    LiveDatabaseLost(s, ["alice"], USER_PAGE_SIZE, env, "alice");
  }

  // So where all listed names are lower-case, no audit with a sound scan drops a user's database, whatever fails.
  lemma LiveDatabasesStay(s: State, table: seq<string>, p: nat, env: Env, uid: string)
    requires p > 0 && Distinct(table) && SoundScan(table, p, env.fetch) && LowerNames(s.databases)
    requires uid in table && DatabaseName(uid) in s.databases
    ensures DatabaseName(uid) in Audited(s, table, p, env).databases
  {
    DroppedExactly(s, table, p, env, DatabaseName(uid));
    if Completes(table, p, env) {
      SoundLoads(table, p, env);
      assert uid in LoadedUsers(table, p, env);
      forall e | Orphan(s, LoadedUsers(table, p, env), e) ensures ToLower(e) != DatabaseName(uid) {
        UserDatabases(e);
        assert e in Listed(s.databases);
      }
    }
  }

  // And only a sound scan protects them all: rows lost without an error cost some user the database.
  lemma LostRowsDropLive(table: seq<string>, p: nat, fetch: nat -> Fetch) returns (s: State, env: Env, uid: string)
    requires p > 0 && Distinct(table) && forall u :: u in table ==> Clean(u)
    requires !SoundScan(table, p, fetch)
    ensures env.fetch == fetch && uid in table && DatabaseName(uid) in s.databases
    ensures DatabaseName(uid) !in Audited(s, table, p, env).databases
  {
    PagedScanExact(table, p, fetch);
    env := Env(true, fetch, true, true, _ => Initialized, _ => true, _ => true);
    var users := LoadedUsers(table, p, env);
    assert Scan(table, p, fetch, 0, 0, {}).0 == Some(users);
    ProperSubset(users, SetOf(table));
    uid :| uid in SetOf(table) - users;
    s := State({DatabaseName(uid)}, {}, map[]);
    forall u | u in users ensures DatabaseName(u) != DatabaseName(uid) {
      DatabaseNameInjective(u, uid);
    }
    assert DatabaseName(uid)[..2] == "db";
    NamesFold(uid);
    assert Orphan(s, users, DatabaseName(uid));
    DroppedExactly(s, table, p, env, DatabaseName(uid));
  }

  lemma ProperSubset(a: set<string>, b: set<string>)
    requires a <= b && a != b
    ensures b - a != {}
  {
    assert b == a + (b - a);
  }

  // --- An audit in which every call succeeds ---

  predicate AllSucceed(table: seq<string>, p: nat, env: Env)
    requires p > 0
  {
    && env.clients && env.listCRs && env.listDatabases && WholeFrom(table, p, env.fetch, 0, 0)
    && (forall u :: u in table ==> env.init(u).Initialized?)
  }

  ghost predicate Repairs(table: seq<string>, p: nat, env: Env, s: State)
    requires p > 0
  {
    && AllSucceed(table, p, env)
    && (forall d :: d in s.databases ==> env.drop(d))
    && (forall n :: n in s.crs ==> env.delete(n))
  }

  // It makes the listed databases exactly the users' databases if and only if there was one listed, or there
  // are no users, and all listed names are lower-case. A nil listing keeps it from repairing anything, and a
  // name in mixed case cannot be dropped.
  lemma PerfectAudit(s: State, table: seq<string>, p: nat, env: Env)
    requires p > 0 && Distinct(table) && Repairs(table, p, env, s)
    ensures var after := Audited(s, table, p, env);
            && (Listed(after.databases) == NamesOf(SetOf(table)) <==>
                  (Listed(s.databases) != {} || table == []) && LowerNames(s.databases))
            && (Listed(s.databases) != {} ==>
                  forall u :: u in table && DatabaseName(u) !in s.databases ==> Username(u) in after.sqlUsers)
            && forall n :: n in after.crs && after.crs[n] != "" ==> after.crs[n] in table
  {
    PagedScanExact(table, p, env.fetch);
    var users := SetOf(table);
    var after := Audited(s, table, p, env).databases;
    if Listed(s.databases) != {} {
      if LowerNames(s.databases) {
        RepairShrinks(s, users, env);
        ListedNames(s.databases, users);
        OffEmpty(after, users);
        assert Off(after, users) == {};
      } else {
        var e :| e in Listed(s.databases) && ToLower(e) != e;
        MixedCaseStays(s, table, p, env, e);
        MixedCaseIsNoName(users, e);
      }
    } else if table != [] {
      assert DatabaseName(table[0]) in NamesOf(users);
    }
  }

  lemma LowerIsFixed(d: string)
    ensures ToLower(ToLower(d)) == ToLower(d)
  {
  }

  lemma MixedCaseIsNoName(users: set<string>, e: string)
    requires ToLower(e) != e
    ensures e !in NamesOf(users)
  {
    forall u | u in users ensures DatabaseName(u) != e {
      NamesFold(u);
    }
  }

  // No audit ever drops a database whose name is not lower-case.
  lemma MixedCaseStays(s: State, table: seq<string>, p: nat, env: Env, e: string)
    requires p > 0 && e in Listed(s.databases) && ToLower(e) != e
    ensures e in Listed(Audited(s, table, p, env).databases)
  {
    DroppedExactly(s, table, p, env, e);
    forall d ensures ToLower(d) != e {
      LowerIsFixed(d);
    }
  }

  lemma OffEmpty(databases: set<string>, users: set<string>)
    ensures Off(databases, users) == {} <==> Listed(databases) == NamesOf(users)
  {
    if Off(databases, users) == {} {
      assert forall d :: d in Listed(databases) && d !in NamesOf(users) ==> d in Off(databases, users);
      assert forall d :: d in NamesOf(users) && d !in Listed(databases) ==> d in Off(databases, users);
    }
  }

  // Once everything fits, further audits change nothing, whatever goes wrong in them.
  lemma SettledStays(s: State, table: seq<string>, p: nat, env: Env)
    requires p > 0 && Distinct(table) && SoundScan(table, p, env.fetch)
    requires Listed(s.databases) == NamesOf(SetOf(table))
    requires forall n :: n in s.crs && s.crs[n] != "" ==> s.crs[n] in table
    ensures Audited(s, table, p, env) == s
  {
    if Completes(table, p, env) {
      SoundLoads(table, p, env);
      var users := SetOf(table);
      var listed := Listed(s.databases);
      assert DeletedCRs(users, s.crs, env) == {};
      assert Made(users, listed, env) == {} && Dropped(users, listed, env) == {};
      assert MadeUsers(users, listed, env) == {};
    }
  }

  // --- Runs ---

  function Audits(s: State, table: seq<string>, p: nat, envs: seq<Env>): State
    requires p > 0
    decreases |envs|
  {
    if envs == [] then s else Audits(Audited(s, table, p, envs[0]), table, p, envs[1..])
  }

  predicate SoundScans(table: seq<string>, p: nat, envs: seq<Env>)
    requires p > 0
  {
    forall i :: 0 <= i < |envs| ==> SoundScan(table, p, envs[i].fetch)
  }

  // An audit with a sound scan lets the difference grow exactly if it costs some user the database.
  lemma AuditGrows(s: State, table: seq<string>, p: nat, env: Env)
    requires p > 0 && Distinct(table) && SoundScan(table, p, env.fetch)
    ensures var after := Audited(s, table, p, env).databases;
            Off(after, SetOf(table)) <= Off(s.databases, SetOf(table)) <==>
            forall u :: u in table && DatabaseName(u) in s.databases ==> DatabaseName(u) in after
  {
    if Completes(table, p, env) {
      SoundLoads(table, p, env);
      RepairChanges(s, SetOf(table), env);
      if env.listDatabases && Listed(s.databases) != {} {
        LostNames(s, table, p, env);
      }
    }
  }

  lemma LostNames(s: State, table: seq<string>, p: nat, env: Env)
    requires p > 0 && Completes(table, p, env) && LoadedUsers(table, p, env) == SetOf(table)
    requires env.listDatabases && Listed(s.databases) != {}
    ensures var names, listed := NamesOf(SetOf(table)), Listed(s.databases);
            names * listed * Dropped(SetOf(table), listed, env) == {} <==>
            forall u :: u in table && DatabaseName(u) in s.databases ==>
                          DatabaseName(u) in Audited(s, table, p, env).databases
  {
    var names, listed := NamesOf(SetOf(table)), Listed(s.databases);
    var dropped, after := Dropped(SetOf(table), listed, env), Audited(s, table, p, env).databases;
    forall u | u in table
      ensures DatabaseName(u) in names && (DatabaseName(u) in s.databases ==> DatabaseName(u) in listed)
    {
      NamesAreListable(u);
      assert u in SetOf(table);
    }
    if forall u :: u in table && DatabaseName(u) in s.databases ==> DatabaseName(u) in after {
      forall d | d in names * listed ensures d !in dropped {
        var u :| u in SetOf(table) && d == DatabaseName(u);
      }
      assert names * listed * dropped == {};
    } else {
      var u :| u in table && DatabaseName(u) in s.databases && DatabaseName(u) !in after;
      assert DatabaseName(u) in names * listed * dropped;
    }
  }

  lemma AuditKeepsLower(s: State, table: seq<string>, p: nat, env: Env)
    requires p > 0 && LowerNames(s.databases)
    ensures LowerNames(Audited(s, table, p, env).databases)
  {
    var after := Audited(s, table, p, env).databases;
    forall d | d in Listed(after) ensures ToLower(d) == d {
      if d !in s.databases {
        DroppedExactly(s, table, p, env, d);
        var u :| u in LoadedUsers(table, p, env) && DatabaseName(u) == d;
        NamesFold(u);
      } else {
        assert d in Listed(s.databases);
      }
    }
  }

  lemma AuditNeverGrows(s: State, table: seq<string>, p: nat, env: Env)
    requires p > 0 && Distinct(table) && SoundScan(table, p, env.fetch) && LowerNames(s.databases)
    ensures Off(Audited(s, table, p, env).databases, SetOf(table)) <= Off(s.databases, SetOf(table))
  {
    AuditGrows(s, table, p, env);
    forall u | u in table && DatabaseName(u) in s.databases
      ensures DatabaseName(u) in Audited(s, table, p, env).databases
    {
      LiveDatabasesStay(s, table, p, env, u);
    }
  }

  lemma {:induction false} NeverGrows(s: State, table: seq<string>, p: nat, envs: seq<Env>)
    requires p > 0 && Distinct(table) && SoundScans(table, p, envs) && LowerNames(s.databases)
    ensures Off(Audits(s, table, p, envs).databases, SetOf(table)) <= Off(s.databases, SetOf(table))
    decreases |envs|
  {
    if envs != [] {
      AuditNeverGrows(s, table, p, envs[0]);
      AuditKeepsLower(s, table, p, envs[0]);
      NeverGrows(Audited(s, table, p, envs[0]), table, p, envs[1..]);
    }
  }

  lemma {:induction false} MixedCaseRemains(s: State, table: seq<string>, p: nat, envs: seq<Env>, e: string)
    requires p > 0 && e in Listed(s.databases) && ToLower(e) != e
    ensures e in Listed(Audits(s, table, p, envs).databases)
    decreases |envs|
  {
    if envs != [] {
      MixedCaseStays(s, table, p, envs[0], e);
      MixedCaseRemains(Audited(s, table, p, envs[0]), table, p, envs[1..], e);
    }
  }

  // The audit gets to the databases and its call about d, if it makes one, takes effect.
  ghost predicate Handles(table: seq<string>, p: nat, env: Env, d: string)
    requires p > 0
  {
    Completes(table, p, env) && env.listDatabases &&
    if d in NamesOf(SetOf(table)) then exists u :: u in table && DatabaseName(u) == d && MakesDatabase(env.init(u))
    else env.drop(d)
  }

  // There is something to list as long as anything needs repair.
  ghost predicate Anchored(s: State, table: seq<string>) {
    table == [] || exists u :: u in table && DatabaseName(u) in s.databases
  }

  lemma AnchoredListing(s: State, table: seq<string>)
    requires Anchored(s, table) && Off(s.databases, SetOf(table)) != {}
    ensures Listed(s.databases) != {}
  {
    if table != [] {
      var u :| u in table && DatabaseName(u) in s.databases;
      NamesAreListable(u);
      assert DatabaseName(u) in Listed(s.databases);
    }
  }

  // A wrong database is put right by an audit exactly if the audit handles it and has a listing.
  lemma LeavesIffHandled(s: State, table: seq<string>, p: nat, env: Env, d: string)
    requires p > 0 && Distinct(table) && SoundScan(table, p, env.fetch) && LowerNames(s.databases)
    requires d in Off(s.databases, SetOf(table))
    ensures d !in Off(Audited(s, table, p, env).databases, SetOf(table)) <==>
            Handles(table, p, env, d) && Listed(s.databases) != {}
  {
    var users, listed := SetOf(table), Listed(s.databases);
    if Completes(table, p, env) {
      SoundLoads(table, p, env);
      RepairShrinks(s, users, env);
      LowerDropped(s, users, env);
      ListedNames(s.databases, users);
      if d in NamesOf(users) {
        if d in Made(users, listed, env) {
          var u :| u in users && DatabaseName(u) == d && MakesDatabase(env.init(u));
          assert u in table;
        }
        if u :| u in table && DatabaseName(u) == d && MakesDatabase(env.init(u)) {
          assert u in users;
        }
      }
    }
  }

  // The i-th audit of the run finds a listing and handles d.
  ghost predicate HandledAt(s: State, table: seq<string>, p: nat, envs: seq<Env>, d: string, i: nat)
    requires p > 0 && i < |envs|
  {
    Handles(table, p, envs[i], d) && Listed(Audits(s, table, p, envs[..i]).databases) != {}
  }

  lemma HandledLater(s: State, table: seq<string>, p: nat, envs: seq<Env>, d: string, i: nat)
    requires p > 0 && i + 1 < |envs|
    ensures HandledAt(s, table, p, envs, d, i + 1) <==>
            HandledAt(Audited(s, table, p, envs[0]), table, p, envs[1..], d, i)
  {
    assert envs[..i + 1][0] == envs[0] && envs[..i + 1][1..] == envs[1..][..i];
  }

  lemma HandledFirst(s: State, table: seq<string>, p: nat, envs: seq<Env>, d: string)
    requires p > 0 && envs != []
    ensures HandledAt(s, table, p, envs, d, 0) <==> Handles(table, p, envs[0], d) && Listed(s.databases) != {}
  {
    assert envs[..0] == [];
  }

  ghost predicate HandledSomewhere(s: State, table: seq<string>, p: nat, envs: seq<Env>, d: string)
    requires p > 0
  {
    exists i :: 0 <= i < |envs| && HandledAt(s, table, p, envs, d, i)
  }

  lemma HandledSomewhereStep(s: State, table: seq<string>, p: nat, envs: seq<Env>, d: string)
    requires p > 0 && envs != []
    ensures HandledSomewhere(s, table, p, envs, d) <==>
            || (Handles(table, p, envs[0], d) && Listed(s.databases) != {})
            || HandledSomewhere(Audited(s, table, p, envs[0]), table, p, envs[1..], d)
  {
    hide HandledAt, Handles;
    var next := Audited(s, table, p, envs[0]);
    HandledFirst(s, table, p, envs, d);
    if i :| 0 <= i < |envs| && HandledAt(s, table, p, envs, d, i) {
      if i > 0 {
        HandledLater(s, table, p, envs, d, i - 1);
        assert HandledAt(next, table, p, envs[1..], d, i - 1);
      }
    }
    if i :| 0 <= i < |envs[1..]| && HandledAt(next, table, p, envs[1..], d, i) {
      HandledLater(s, table, p, envs, d, i);
      assert HandledAt(s, table, p, envs, d, i + 1);
    }
  }

  lemma {:induction false} LeavesRunIffHandled(s: State, table: seq<string>, p: nat, envs: seq<Env>, d: string)
    requires p > 0 && Distinct(table) && SoundScans(table, p, envs) && LowerNames(s.databases)
    requires d in Off(s.databases, SetOf(table))
    ensures d !in Off(Audits(s, table, p, envs).databases, SetOf(table)) <==> HandledSomewhere(s, table, p, envs, d)
    decreases |envs|
  {
    hide Off, Handles, HandledSomewhere, LowerNames, Audited;
    if envs == [] {
      NothingHandled(s, table, p, d);
    } else {
      var next := Audited(s, table, p, envs[0]);
      HandledSomewhereStep(s, table, p, envs, d);
      LeavesIffHandled(s, table, p, envs[0], d);
      AuditKeepsLower(s, table, p, envs[0]);
      if d in Off(next.databases, SetOf(table)) {
        LeavesRunIffHandled(next, table, p, envs[1..], d);
      } else {
        NeverGrows(next, table, p, envs[1..]);
      }
    }
  }

  lemma NothingHandled(s: State, table: seq<string>, p: nat, d: string)
    requires p > 0
    ensures !HandledSomewhere(s, table, p, [], d)
  {
  }

  // Over any run of audits with sound scans, from any state and with any failures: in the end the listed
  // databases are exactly the users' if and only if all listed names are lower-case at the start and each
  // wrong database is handled by some audit of the run that finds a listing.
  lemma AuditsConverge(s: State, table: seq<string>, p: nat, envs: seq<Env>)
    requires p > 0 && Distinct(table) && SoundScans(table, p, envs)
    ensures Listed(Audits(s, table, p, envs).databases) == NamesOf(SetOf(table)) <==>
            && LowerNames(s.databases)
            && forall d :: d in Off(s.databases, SetOf(table)) ==> HandledSomewhere(s, table, p, envs, d)
  {
    hide HandledSomewhere, Off;
    var after, users := Audits(s, table, p, envs).databases, SetOf(table);
    if LowerNames(s.databases) {
      NeverGrows(s, table, p, envs);
      forall d | d in Off(s.databases, users)
        ensures d !in Off(after, users) <==> HandledSomewhere(s, table, p, envs, d)
      {
        LeavesRunIffHandled(s, table, p, envs, d);
      }
      OffEmpty(after, users);
    } else {
      var e :| e in Listed(s.databases) && ToLower(e) != e;
      MixedCaseRemains(s, table, p, envs, e);
      MixedCaseIsNoName(users, e);
    }
  }

  lemma StaysAnchored(s: State, table: seq<string>, p: nat, env: Env)
    requires p > 0 && Distinct(table) && SoundScan(table, p, env.fetch) && Anchored(s, table) && LowerNames(s.databases)
    ensures Anchored(Audited(s, table, p, env), table)
  {
    if table != [] {
      var u :| u in table && DatabaseName(u) in s.databases;
      LiveDatabasesStay(s, table, p, env, u);
    }
  }

  lemma {:induction false} AnchoredLeaves(s: State, table: seq<string>, p: nat, envs: seq<Env>, d: string, i: nat)
    requires p > 0 && Distinct(table) && SoundScans(table, p, envs) && Anchored(s, table) && LowerNames(s.databases)
    requires i < |envs| && Handles(table, p, envs[i], d)
    ensures d !in Off(Audits(s, table, p, envs).databases, SetOf(table))
    decreases |envs|
  {
    hide Handles, Off, Anchored, LowerNames, Audited;
    var next := Audited(s, table, p, envs[0]);
    AuditKeepsLower(s, table, p, envs[0]);
    if d !in Off(s.databases, SetOf(table)) {
      NeverGrows(s, table, p, envs);
    } else if i == 0 {
      AnchoredListing(s, table);
      LeavesIffHandled(s, table, p, envs[0], d);
      NeverGrows(next, table, p, envs[1..]);
    } else {
      StaysAnchored(s, table, p, envs[0]);
      AnchoredLeaves(next, table, p, envs[1..], d, i - 1);
    }
  }

  // If some user's database exists at the start, or there are no users, there is a listing as long as
  // anything is wrong: then it only matters that each wrong database is handled.
  lemma AnchoredAuditsConverge(s: State, table: seq<string>, p: nat, envs: seq<Env>)
    requires p > 0 && Distinct(table) && SoundScans(table, p, envs) && Anchored(s, table)
    ensures Listed(Audits(s, table, p, envs).databases) == NamesOf(SetOf(table)) <==>
            && LowerNames(s.databases)
            && forall d :: d in Off(s.databases, SetOf(table)) ==>
                 exists i :: 0 <= i < |envs| && Handles(table, p, envs[i], d)
  {
    AuditsConverge(s, table, p, envs);
    if LowerNames(s.databases) {
      forall d | d in Off(s.databases, SetOf(table))
        ensures HandledSomewhere(s, table, p, envs, d) <==> exists i :: 0 <= i < |envs| && Handles(table, p, envs[i], d)
      {
        if i :| 0 <= i < |envs| && Handles(table, p, envs[i], d) {
          AnchoredLeaves(s, table, p, envs, d, i);
          LeavesRunIffHandled(s, table, p, envs, d);
        }
        if HandledSomewhere(s, table, p, envs, d) {
          var i :| 0 <= i < |envs| && HandledAt(s, table, p, envs, d, i);
        }
      }
    }
  }

  // Without a database to list, no run of audits ever makes or drops one.
  lemma {:induction false} StuckForever(s: State, table: seq<string>, p: nat, envs: seq<Env>)
    requires p > 0 && Listed(s.databases) == {}
    ensures Audits(s, table, p, envs).databases == s.databases
    decreases |envs|
  {
    if envs != [] {
      assert Audited(s, table, p, envs[0]).databases == s.databases;
      StuckForever(Audited(s, table, p, envs[0]), table, p, envs[1..]);
    }
  }

  // And an audit can bring that about: the only user's database cannot be created, the only orphan is
  // dropped, and from then on nothing is repaired.
  lemma AuditGetsStuck(uid: string, envs: seq<Env>) returns (s: State, env: Env)
    requires Clean(uid)
    ensures Listed(s.databases) != {} && SoundScan([uid], USER_PAGE_SIZE, env.fetch)
    ensures var after := Audits(s, [uid], USER_PAGE_SIZE, [env] + envs);
            DatabaseName(uid) !in after.databases && Off(after.databases, {uid}) != {}
  {
    var orphan := DatabaseName(uid + "x");
    assert Clean(uid + "x");
    DatabaseNameInjective(uid, uid + "x");
    NamesAreListable(uid + "x");
    NamesAreListable(uid);
    NamesFold(uid + "x");
    env := Env(true, _ => Full, true, true, _ => CreateDatabaseFails, _ => true, _ => true);
    s := State({orphan}, {}, map[]);
    assert orphan in Listed(s.databases);
    PagedScanExact([uid], USER_PAGE_SIZE, env.fetch);
    assert SetOf([uid]) == {uid};
    var next := Audited(s, [uid], USER_PAGE_SIZE, env);
    assert Made({uid}, Listed(s.databases), env) == {};
    assert NamesOf({uid}) == {DatabaseName(uid)};
    assert orphan in Dropped({uid}, Listed(s.databases), env) by {
      assert orphan !in NamesOf({uid}) && ToLower(orphan) == orphan;
    }
    assert next.databases == {};
    assert Listed(next.databases) == {};
    StuckForever(next, [uid], USER_PAGE_SIZE, envs);
    assert ([env] + envs)[1..] == envs;
    assert DatabaseName(uid) in Off({}, {uid});
  }

  // An audit with a sound scan leaves a user with an SQL user exactly if there was one, or the audit gets to
  // the repair, finds the database missing and makes the SQL user.
  lemma SqlUserExactly(s: State, table: seq<string>, p: nat, env: Env, uid: string)
    requires p > 0 && Distinct(table) && SoundScan(table, p, env.fetch)
    requires uid in table && forall u :: u in table ==> Clean(u)
    ensures Username(uid) in Audited(s, table, p, env).sqlUsers <==>
            || Username(uid) in s.sqlUsers
            || (&& Completes(table, p, env) && env.listDatabases && Listed(s.databases) != {}
                && DatabaseName(uid) !in s.databases && MakesUser(env.init(uid)))
  {
    NamesAreListable(uid);
    if Completes(table, p, env) && env.listDatabases {
      SoundLoads(table, p, env);
      var users, listed := SetOf(table), Listed(s.databases);
      assert uid in users;
      if Username(uid) in MadeUsers(users, listed, env) {
        var u :| u in users && DatabaseName(u) !in listed && MakesUser(env.init(u)) && Username(u) == Username(uid);
        DatabaseNameInjective(u, uid);
      }
    }
  }

  // A user whose database was created but whose SQL user was not never gets one from audits as long as the
  // database stays, because the database is all they look for.
  lemma {:induction false} HalfInitStays(s: State, table: seq<string>, p: nat, envs: seq<Env>, uid: string)
    requires p > 0 && Distinct(table) && SoundScans(table, p, envs) && LowerNames(s.databases)
    requires uid in table && DatabaseName(uid) in s.databases && Username(uid) !in s.sqlUsers
    ensures DatabaseName(uid) in Audits(s, table, p, envs).databases
    ensures Username(uid) !in Audits(s, table, p, envs).sqlUsers
    decreases |envs|
  {
    if envs != [] {
      LiveDatabasesStay(s, table, p, envs[0], uid);
      AuditKeepsLower(s, table, p, envs[0]);
      NoUserMade(s, table, p, envs[0], uid);
      HalfInitStays(Audited(s, table, p, envs[0]), table, p, envs[1..], uid);
    }
  }

  // An audit brings that about: CREATE USER fails after CREATE DATABASE succeeded. No audit after it helps.
  lemma AuditHalfInits(table: seq<string>, p: nat, envs: seq<Env>, uid: string) returns (s: State, env: Env)
    requires p > 0 && Distinct(table) && SoundScans(table, p, envs) && uid in table && Clean(uid)
    ensures DatabaseName(uid) !in s.databases && SoundScan(table, p, env.fetch)
    ensures DatabaseName(uid) in Audits(s, table, p, [env] + envs).databases
    ensures Username(uid) !in Audits(s, table, p, [env] + envs).sqlUsers
  {
    var other := DatabaseName(uid + "x");
    assert Clean(uid + "x");
    DatabaseNameInjective(uid, uid + "x");
    NamesAreListable(uid + "x");
    NamesFold(uid + "x");
    env := Env(true, _ => Full, true, true, _ => CreateUserFails, _ => false, _ => true);
    s := State({other}, {}, map[]);
    assert other in Listed(s.databases);
    FullScan(table, p, 0, 0);
    PagedScanExact(table, p, env.fetch);
    var next := Audited(s, table, p, env);
    assert Dropped(SetOf(table), Listed(s.databases), env) == {};
    assert MadeUsers(SetOf(table), Listed(s.databases), env) == {};
    assert uid in SetOf(table);
    assert DatabaseName(uid) in Made(SetOf(table), Listed(s.databases), env);
    AuditKeepsLower(s, table, p, env);
    HalfInitStays(next, table, p, envs, uid);
    assert ([env] + envs)[1..] == envs;
  }

  lemma {:induction false} FullScan(table: seq<string>, p: nat, k: nat, offset: nat)
    requires p > 0
    ensures WholeFrom(table, p, _ => Full, k, offset)
    decreases |table| + p - offset
  {
    if offset + p <= |table| {
      FullScan(table, p, k + 1, offset + p);
    }
  }

  lemma NoUserMade(s: State, table: seq<string>, p: nat, env: Env, uid: string)
    requires p > 0 && DatabaseName(uid) in s.databases && Username(uid) !in s.sqlUsers
    ensures Username(uid) !in Audited(s, table, p, env).sqlUsers
  {
    NamesAreListable(uid);
    forall u | DatabaseName(u) != DatabaseName(uid) ensures Username(u) != Username(uid) {
      SharedDatabase(u, uid);
    }
  }
}
