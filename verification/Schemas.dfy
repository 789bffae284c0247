/**
 The schemas of the users' databases (k8s/rdb.go, CreateSchema, DeleteSchema, ListSchemas).
 The server maps each database to the names of its schemas.
 */
module Schemas {
  import opened Common
  import opened Like
  import opened Naming

  type Server = map<string, set<string>>

  // How a request's calls go: no connection, the first statement fails, the GRANT after it fails, none fails.
  datatype Outcome = Unreachable | StatementFails | GrantFails | Done

  datatype Request =
    | Create(uid: string, id: string, outcome: Outcome)
    | Delete(uid: string, id: string, outcome: Outcome)

  // The statement is carried out. A failing GRANT makes CreateSchema report an error about a schema that is there.
  predicate Effective(outcome: Outcome) {
    outcome.GrantFails? || outcome.Done?
  }

  function Apply(s: Server, r: Request): Server {
    var db := DatabaseName(r.uid);
    if db !in s || !Effective(r.outcome) then s
    else if r.Create? then s[db := s[db] + {SchemaName(r.id)}]
    else s[db := s[db] - {SchemaName(r.id)}]
  }

  function ApplyAll(s: Server, rs: seq<Request>): Server {
    if rs == [] then s else Apply(ApplyAll(s, rs[..|rs| - 1]), rs[|rs| - 1])
  }

  predicate Exists(s: Server, uid: string, id: string) {
    DatabaseName(uid) in s && SchemaName(id) in s[DatabaseName(uid)]
  }

  function TrimPrefix(s: string, prefix: string): string {
    if prefix <= s then s[|prefix|..] else s
  }

  // What ListSchemas makes of the rows; rows that fail to scan are skipped in silence.
  function Listed(rows: seq<string>, scans: seq<bool>): (l: seq<string>)
    requires |rows| == |scans|
  {
    if rows == [] then []
    else
      var n := |rows| - 1;
      Listed(rows[..n], scans[..n]) + if scans[n] then [TrimPrefix(rows[n], "schema_")] else []
  }

  class UserDatabases {
    var schemas: Server

    constructor (schemas: Server)
      ensures this.schemas == schemas
    {
      this.schemas := schemas;
    }

    method CreateSchema(uid: string, id: string, outcome: Outcome) returns (ok: bool)
      modifies this
      ensures schemas == Apply(old(schemas), Create(uid, id, outcome))
      ensures ok ==> Exists(schemas, uid, id)
      ensures ok <==> DatabaseName(uid) in old(schemas) && outcome.Done?
      ensures outcome.Unreachable? || outcome.StatementFails? ==> schemas == old(schemas)
      ensures DatabaseName(uid) in old(schemas) && outcome.GrantFails? ==> Exists(schemas, uid, id)
    {
      var db := DatabaseName(uid);
      if outcome.Unreachable? || db !in schemas {
        return false;
      }
      var schName := SchemaName(id);
      if outcome.StatementFails? {
        return false;
      }
      schemas := schemas[db := schemas[db] + {schName}];
      ok := !outcome.GrantFails?;
    }

    // GrantFails has no meaning here and counts as success.
    method DeleteSchema(uid: string, id: string, outcome: Outcome) returns (ok: bool)
      modifies this
      ensures schemas == Apply(old(schemas), Delete(uid, id, outcome))
      ensures ok ==> !Exists(schemas, uid, id)
      ensures ok <==> DatabaseName(uid) in old(schemas) && !outcome.Unreachable? && !outcome.StatementFails?
      ensures !ok ==> schemas == old(schemas)
    {
      var db := DatabaseName(uid);
      if outcome.Unreachable? || db !in schemas {
        return false;
      }
      if outcome.StatementFails? {
        return false;
      }
      schemas := schemas[db := schemas[db] - {SchemaName(id)}];
      ok := true;
    }

    // The query returns the matching names in some order, each once.
    method ListSchemas(uid: string, outcome: Outcome, rows: seq<string>, scans: seq<bool>)
      returns (list: Option<seq<string>>)
      requires |rows| == |scans|
      requires DatabaseName(uid) in schemas ==>
                 forall n :: n in rows <==> n in schemas[DatabaseName(uid)] && IsUserSchema(n)
      ensures list.Some? <==> DatabaseName(uid) in schemas && Effective(outcome)
      ensures list.Some? ==> list.value == Listed(rows, scans)
    {
      if !Effective(outcome) || DatabaseName(uid) !in schemas {
        return None;
      }
      var l := [];
      var i := 0;
      while i < |rows|
        invariant 0 <= i <= |rows|
        invariant l == Listed(rows[..i], scans[..i])
      {
        assert rows[..i + 1][..i] == rows[..i] && scans[..i + 1][..i] == scans[..i];
        if scans[i] {
          l := l + [TrimPrefix(rows[i], "schema_")];
        }
        i := i + 1;
      }
      assert rows[..|rows|] == rows && scans[..|rows|] == scans;
      list := Some(l);
    }
  }

  // --- What the requests amount to ---

  // The server takes the two names for the same.
  predicate SameName(a: string, b: string) {
    |a| == |b| && forall i :: 0 <= i < |a| ==> Alike(a[i], b[i])
  }

  // The last effective request about this user's schema was a Create, or there was none and it was there before.
  predicate Standing(s: Server, rs: seq<Request>, uid: string, id: string) {
    if rs == [] then Exists(s, uid, id)
    else
      var r := rs[|rs| - 1];
      if Effective(r.outcome) && SameName(r.uid, uid) && SameName(r.id, id) then r.Create?
      else Standing(s, rs[..|rs| - 1], uid, id)
  }

  lemma NamesAreNames(a: string, b: string)
    ensures DatabaseName(a) == DatabaseName(b) <==> SameName(a, b)
    ensures SchemaName(a) == SchemaName(b) <==> SameName(a, b)
  {
    SharedDatabase(a, b);
    SanitizeMerges(a, b);
    PrefixCancels("schema_", Sanitize(a), Sanitize(b));
  }

  // Over any requests of any users with any outcomes, a user has exactly the schemas whose last effective
  // request was a Create, provided there is a database; nobody else's requests and no failing request matter.
  lemma {:induction false} SchemasFollowRequests(s: Server, rs: seq<Request>, uid: string, id: string)
    ensures Exists(ApplyAll(s, rs), uid, id) <==> DatabaseName(uid) in s && Standing(s, rs, uid, id)
    ensures ApplyAll(s, rs).Keys == s.Keys
    decreases |rs|
  {
    if rs != [] {
      var r := rs[|rs| - 1];
      SchemasFollowRequests(s, rs[..|rs| - 1], uid, id);
      NamesAreNames(r.uid, uid);
      NamesAreNames(r.id, id);
    }
  }

  // Every schema the listing's pattern finds carries the whole prefix; 'schema_%' itself would also
  // find a name like "schemas".
  predicate Prefixed(names: set<string>) {
    forall n :: n in names && IsUserSchema(n) ==> "schema_" <= n
  }

  lemma {:induction false} ListedAre(rows: seq<string>, scans: seq<bool>, x: string)
    requires |rows| == |scans|
    ensures x in Listed(rows, scans) <==> exists i :: 0 <= i < |rows| && scans[i] && TrimPrefix(rows[i], "schema_") == x
    decreases |rows|
  {
    if rows != [] {
      var n := |rows| - 1;
      ListedAre(rows[..n], scans[..n], x);
      if x in Listed(rows[..n], scans[..n]) {
        var i :| 0 <= i < n && scans[..n][i] && TrimPrefix(rows[..n][i], "schema_") == x;
        assert scans[i] && TrimPrefix(rows[i], "schema_") == x;
      }
      if i :| 0 <= i < n && scans[i] && TrimPrefix(rows[i], "schema_") == x {
        assert scans[..n][i] && TrimPrefix(rows[..n][i], "schema_") == x;
      }
    }
  }

  function Scanned(rows: seq<string>, scans: seq<bool>): set<string>
    requires |rows| == |scans|
  {
    set i | 0 <= i < |rows| && scans[i] :: rows[i]
  }

  // The listing holds an id exactly if the row of its schema scans, or a row the underscore's wildcard let
  // in is called just that. So it misses the ids whose rows do not scan, and what it adds are ids of
  // schemas too exactly if each such row is one's id.
  lemma ListingExact(names: set<string>, rows: seq<string>, scans: seq<bool>)
    requires |rows| == |scans|
    requires forall n :: n in rows <==> n in names && IsUserSchema(n)
    ensures forall id :: id in Listed(rows, scans) <==>
              "schema_" + id in Scanned(rows, scans) || (id in Scanned(rows, scans) && !("schema_" <= id))
    ensures (forall i :: 0 <= i < |scans| ==> scans[i]) ==>
              forall id :: "schema_" + id in names ==> id in Listed(rows, scans)
    ensures (forall id :: id in Listed(rows, scans) ==> "schema_" + id in names) <==>
            (forall n :: n in Scanned(rows, scans) && !("schema_" <= n) ==> "schema_" + n in names)
  {
    forall id
      ensures id in Listed(rows, scans) <==>
              "schema_" + id in Scanned(rows, scans) || (id in Scanned(rows, scans) && !("schema_" <= id))
    {
      ListedIff(rows, scans, id);
    }
    if forall i :: 0 <= i < |scans| ==> scans[i] {
      forall id | "schema_" + id in names ensures "schema_" + id in Scanned(rows, scans) {
        UserSchemas("schema_" + id);
        assert ("schema_" + id)[..6] == "schema";
        var i :| 0 <= i < |rows| && rows[i] == "schema_" + id;
      }
    }
    forall n | n in Scanned(rows, scans) ensures n in names {
      var i :| 0 <= i < |rows| && scans[i] && rows[i] == n;
      assert rows[i] in rows;
    }
  }

  lemma ListedIff(rows: seq<string>, scans: seq<bool>, id: string)
    requires |rows| == |scans|
    ensures id in Listed(rows, scans) <==>
            "schema_" + id in Scanned(rows, scans) || (id in Scanned(rows, scans) && !("schema_" <= id))
  {
    ListedAre(rows, scans, id);
    if i :| 0 <= i < |rows| && scans[i] && TrimPrefix(rows[i], "schema_") == id {
      if "schema_" <= rows[i] {
        assert rows[i] == "schema_" + rows[i][7..];
      }
    }
    if "schema_" + id in Scanned(rows, scans) {
      var i :| 0 <= i < |rows| && scans[i] && rows[i] == "schema_" + id;
      assert TrimPrefix(rows[i], "schema_") == id;
    } else if id in Scanned(rows, scans) && !("schema_" <= id) {
      var i :| 0 <= i < |rows| && scans[i] && rows[i] == id;
      assert TrimPrefix(rows[i], "schema_") == id;
    }
  }

  lemma {:induction false} RequestsKeepPrefixed(s: Server, rs: seq<Request>, db: string)
    requires db in s && Prefixed(s[db])
    ensures db in ApplyAll(s, rs) && Prefixed(ApplyAll(s, rs)[db])
    ensures forall n :: n in ApplyAll(s, rs)[db] && n !in s[db] ==> exists r :: r in rs && n == SchemaName(r.id)
    decreases |rs|
  {
    if rs != [] {
      RequestsKeepPrefixed(s, rs[..|rs| - 1], db);
      assert SchemaName(rs[|rs| - 1].id)[..7] == "schema_";
    }
  }

  // A user whose database starts without schemas of the pattern sees, after any requests, exactly the
  // ids that stand and whose rows scan: the user's list is a plain set of ids.
  lemma ListIsSetOfIds(s: Server, rs: seq<Request>, uid: string, rows: seq<string>, scans: seq<bool>, id: string)
    requires DatabaseName(uid) in s && forall n :: n in s[DatabaseName(uid)] ==> !IsUserSchema(n)
    requires |rows| == |scans| && DatabaseName(uid) in ApplyAll(s, rs)
    requires forall n :: n in rows <==> n in ApplyAll(s, rs)[DatabaseName(uid)] && IsUserSchema(n)
    ensures id in Listed(rows, scans) <==>
            Clean(id) && Standing(s, rs, uid, id) && SchemaName(id) in Scanned(rows, scans)
  {
    hide Standing, Listed, Scanned, ApplyAll;
    var db := DatabaseName(uid);
    var names := ApplyAll(s, rs)[db];
    RequestsKeepPrefixed(s, rs, db);
    SchemasFollowRequests(s, rs, uid, id);
    SanitizeFixesExactlyClean(id);
    ListedIff(rows, scans, id);
    ScannedExist(names, rows, scans);
    if "schema_" + id in names {
      ListedIdClean(s, rs, db, id);
    }
  }

  lemma ScannedExist(names: set<string>, rows: seq<string>, scans: seq<bool>)
    requires |rows| == |scans| && forall n :: n in rows <==> n in names && IsUserSchema(n)
    ensures forall n :: n in Scanned(rows, scans) ==> n in names && IsUserSchema(n)
  {
    forall n | n in Scanned(rows, scans) ensures n in rows {
      var i :| 0 <= i < |rows| && scans[i] && rows[i] == n;
    }
  }

  lemma ListedIdClean(s: Server, rs: seq<Request>, db: string, id: string)
    requires db in s && forall n :: n in s[db] ==> !IsUserSchema(n)
    requires db in ApplyAll(s, rs) && "schema_" + id in ApplyAll(s, rs)[db]
    ensures Clean(id)
  {
    RequestsKeepPrefixed(s, rs, db);
    UserSchemas("schema_" + id);
    assert ("schema_" + id)[..6] == "schema";
    var r :| r in rs && "schema_" + id == SchemaName(r.id);
    PrefixCancels("schema_", id, Sanitize(r.id));
    SanitizeFixesExactlyClean(r.id);
  }
}
