/**
 Identifiers on the database server (k8s/rdb.go, sanitize and the names built from it) and the random
 resource ids that go into them (handlers/auth.utils.go, GenerateResourceUID). Letters are ASCII.
 */
module Naming {

  predicate IsLower(c: char) { 'a' <= c <= 'z' }

  predicate IsUpper(c: char) { 'A' <= c <= 'Z' }

  function LowerChar(c: char): char {
    if IsUpper(c) then c + 32 as char else c
  }

  function ReplaceAll(s: string, from: char, to: char): string {
    seq(|s|, i requires 0 <= i < |s| => if s[i] == from then to else s[i])
  }

  function ToLower(s: string): string {
    seq(|s|, i requires 0 <= i < |s| => LowerChar(s[i]))
  }

  function Sanitize(s: string): string {
    ToLower(ReplaceAll(ReplaceAll(s, '-', '_'), '.', '_'))
  }

  function Username(uid: string): string { "user_" + Sanitize(uid) }

  function DatabaseName(uid: string): string { "db_" + Sanitize(uid) }

  function SchemaName(id: string): string { "schema_" + Sanitize(id) }

  // Ids sanitize leaves alone.
  predicate Clean(s: string) {
    forall i :: 0 <= i < |s| ==> s[i] != '-' && s[i] != '.' && !IsUpper(s[i])
  }

  lemma SanitizeAt(s: string, i: nat)
    requires i < |s|
    ensures |Sanitize(s)| == |s|
    ensures Sanitize(s)[i] == if s[i] == '-' || s[i] == '.' then '_' else LowerChar(s[i])
  {
  }

  lemma SanitizeFixesExactlyClean(s: string)
    ensures Sanitize(s) == s <==> Clean(s)
    ensures Clean(Sanitize(s))
  {
    forall i | 0 <= i < |s|
      ensures s[i] == Sanitize(s)[i] <==> s[i] != '-' && s[i] != '.' && !IsUpper(s[i])
      ensures Sanitize(s)[i] != '-' && Sanitize(s)[i] != '.' && !IsUpper(Sanitize(s)[i])
    {
      SanitizeAt(s, i);
    }
  }

  // The server folds an unquoted name to lower case; sanitized names stand for themselves.
  lemma NamesFold(id: string)
    ensures ToLower(DatabaseName(id)) == DatabaseName(id)
  {
    SanitizeFixesExactlyClean(id);
    assert Clean(DatabaseName(id));
  }

  lemma SanitizeIdempotent(s: string)
    ensures Sanitize(Sanitize(s)) == Sanitize(s)
  {
    SanitizeFixesExactlyClean(s);
    SanitizeFixesExactlyClean(Sanitize(s));
  }

  // Characters that an identifier does not tell apart.
  predicate Alike(c: char, d: char) {
    || c == d
    || (c in "-._" && d in "-._")
    || (IsUpper(c) && d as int == c as int + 32)
    || (IsUpper(d) && c as int == d as int + 32)
  }

  lemma SanitizeMerges(a: string, b: string)
    ensures Sanitize(a) == Sanitize(b) <==> |a| == |b| && forall i :: 0 <= i < |a| ==> Alike(a[i], b[i])
  {
    if |a| == |b| {
      forall i | 0 <= i < |a| ensures Sanitize(a)[i] == Sanitize(b)[i] <==> Alike(a[i], b[i]) {
        SanitizeAt(a, i);
        SanitizeAt(b, i);
      }
    } else {
      assert |Sanitize(a)| == |a| && |Sanitize(b)| == |b|;
    }
  }

  lemma PrefixCancels(p: string, a: string, b: string)
    ensures p + a == p + b <==> a == b
  {
    assert (p + a)[|p|..] == a && (p + b)[|p|..] == b;
  }

  // Two users share a database, and then a SQL user too, exactly when their ids differ in nothing but
  // letter case and the choice among dash, dot and underscore.
  lemma SharedDatabase(a: string, b: string)
    ensures DatabaseName(a) == DatabaseName(b) <==> |a| == |b| && forall i :: 0 <= i < |a| ==> Alike(a[i], b[i])
    ensures DatabaseName(a) == DatabaseName(b) <==> Username(a) == Username(b)
  {
    SanitizeMerges(a, b);
    PrefixCancels("db_", Sanitize(a), Sanitize(b));
    PrefixCancels("user_", Sanitize(a), Sanitize(b));
  }

  lemma DatabaseNameInjective(a: string, b: string)
    requires Clean(a) && Clean(b)
    ensures DatabaseName(a) == DatabaseName(b) <==> a == b
    ensures Username(a) == Username(b) <==> a == b
    ensures SchemaName(a) == SchemaName(b) <==> a == b
  {
    SanitizeFixesExactlyClean(a);
    SanitizeFixesExactlyClean(b);
    PrefixCancels("db_", a, b);
    PrefixCancels("user_", a, b);
    PrefixCancels("schema_", a, b);
  }

  // The names of a clean id on the server.
  lemma CleanNames(id: string)
    requires Clean(id)
    ensures Username(id) == "user_" + id && DatabaseName(id) == "db_" + id && SchemaName(id) == "schema_" + id
  {
    SanitizeFixesExactlyClean(id);
  }

  lemma DatabaseNameCollides()
    ensures DatabaseName("a-b") == DatabaseName("a_b")
  {
    SanitizeMerges("a-b", "a_b");
  }

  // --- Resource ids ---

  newtype byte = x: int | 0 <= x < 256

  function HexChar(d: nat): (c: char)
    requires d < 16
    ensures d < 10 ==> '0' <= c <= '9'
    ensures d >= 10 ==> 'a' <= c <= 'f'
  {
    if d < 10 then '0' + d as char else 'a' + (d - 10) as char
  }

  // %x of a byte slice
  function Hex(bytes: seq<byte>): (s: string)
    ensures |s| == 2 * |bytes|
  {
    if bytes == [] then ""
    else [HexChar(bytes[0] as int / 16), HexChar(bytes[0] as int % 16)] + Hex(bytes[1..])
  }

  function HexValue(c: char): (d: nat) {
    if '0' <= c <= '9' then c as int - '0' as int else if 'a' <= c <= 'f' then c as int - 'a' as int + 10 else 0
  }

  // Two digits for each byte, the higher first.
  lemma {:induction false} HexReadsBack(bytes: seq<byte>, i: nat)
    requires i < |bytes|
    ensures 16 * HexValue(Hex(bytes)[2 * i]) + HexValue(Hex(bytes)[2 * i + 1]) == bytes[i] as int
    decreases |bytes|
  {
    if i > 0 {
      HexReadsBack(bytes[1..], i - 1);
    }
  }

  lemma {:induction false} HexInjective(a: seq<byte>, b: seq<byte>)
    ensures Hex(a) == Hex(b) <==> a == b
    decreases |a|
  {
    if Hex(a) == Hex(b) && a != [] {
      assert Hex(a)[0] == Hex(b)[0] && Hex(a)[1] == Hex(b)[1];
      assert a[0] == b[0];
      assert Hex(a)[2..] == Hex(a[1..]) && Hex(b)[2..] == Hex(b[1..]);
      HexInjective(a[1..], b[1..]);
      assert a == [a[0]] + a[1..] && b == [b[0]] + b[1..];
    }
  }

  lemma {:induction false} HexClean(bytes: seq<byte>)
    ensures Clean(Hex(bytes))
    decreases |bytes|
  {
    if bytes != [] {
      HexClean(bytes[1..]);
    }
  }

  // Resource ids are 16 characters that sanitize leaves alone, and different draws give different schemas.
  lemma ResourceUids(a: seq<byte>, b: seq<byte>)
    requires |a| == |b| == 8
    ensures |Hex(a)| == 16 && Clean(Hex(a))
    ensures SchemaName(Hex(a)) == SchemaName(Hex(b)) <==> a == b
  {
    HexClean(a);
    HexClean(b);
    DatabaseNameInjective(Hex(a), Hex(b));
    HexInjective(a, b);
  }
}
