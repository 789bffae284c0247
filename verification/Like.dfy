/** SQL's LIKE, for patterns without escapes, and the two patterns the console lists by (k8s/rdb.go). */
module Like {

  predicate Like(s: string, pattern: string)
    decreases |s| + |pattern|
  {
    if pattern == "" then s == ""
    else if pattern[0] == '%' then Like(s, pattern[1..]) || (s != "" && Like(s[1..], pattern))
    else s != "" && (pattern[0] == '_' || pattern[0] == s[0]) && Like(s[1..], pattern[1..])
  }

  lemma {:induction false} PercentMatchesAll(s: string)
    ensures Like(s, "%")
    decreases |s|
  {
    if s != "" {
      PercentMatchesAll(s[1..]);
    }
  }

  // The underscore stands for any one character: p_% matches whatever begins with p and goes on.
  lemma {:induction false} UnderscoreIsAnyChar(s: string, p: string)
    requires '%' !in p && '_' !in p
    ensures Like(s, p + "_%") <==> |s| > |p| && s[..|p|] == p
    decreases |p|
  {
    var pattern := p + "_%";
    if p == "" {
      assert pattern == "_%" && pattern[1..] == "%";
      if s != "" {
        PercentMatchesAll(s[1..]);
      }
    } else {
      assert pattern[1..] == p[1..] + "_%";
      if s != "" && s[0] == p[0] {
        UnderscoreIsAnyChar(s[1..], p[1..]);
        assert |s| > |p| ==> s[..|p|] == [s[0]] + s[1..][..|p| - 1];
        assert p == [p[0]] + p[1..];
      }
    }
  }

  predicate IsUserDatabase(name: string) { Like(name, "db_%") }

  predicate IsUserSchema(name: string) { Like(name, "schema_%") }

  lemma UserDatabases(name: string)
    ensures IsUserDatabase(name) <==> |name| > 2 && name[..2] == "db"
  {
    UnderscoreIsAnyChar(name, "db");
    assert "db" + "_%" == "db_%";
  }

  lemma UserSchemas(name: string)
    ensures IsUserSchema(name) <==> |name| > 6 && name[..6] == "schema"
  {
    UnderscoreIsAnyChar(name, "schema");
    assert "schema" + "_%" == "schema_%";
  }
}
