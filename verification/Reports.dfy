/**
 The batch insert of usage reports (dblayer/actions.go, BatchSaveCombinatorResourceReports): the text of
 one INSERT with numbered placeholders, and the values bound to them.
 */
module Reports {
  import opened Common
  import opened Decimal

  // Times are opaque here: any number stands for one.
  datatype Report = Report(userID: string, resourceID: string, dataChange: int, timespanStart: int, timespanEnd: int)

  datatype SqlValue = Text(s: string) | Number(n: int) | Time(t: int)

  datatype Statement = Statement(query: string, values: seq<SqlValue>)

  const COLUMNS := "user_uid" + (", " + ("resource_id" + (", " + ("datachange" + (", " + ("record_start" + (", " +
                   "record_end")))))))
  const INSERT := "INSERT INTO combinator_resource_reports " + ("(" + (COLUMNS + (")" + " VALUES ")))

  // What a column of this name is to hold.
  function FieldOf(r: Report, name: string): Option<SqlValue> {
    if name == "user_uid" then Some(Text(r.userID))
    else if name == "resource_id" then Some(Text(r.resourceID))
    else if name == "datachange" then Some(Number(r.dataChange))
    else if name == "record_start" then Some(Time(r.timespanStart))
    else if name == "record_end" then Some(Time(r.timespanEnd))
    else None
  }

  // --- The statement ---

  function Item(before: string, k: nat): string {
    before + ("$" + Digits(k))
  }

  // ($o+1, $o+2, $o+3, $o+4, $o+5)
  function Group(o: nat): string {
    Item("(", o + 1) + (Item(", ", o + 2) + (Item(", ", o + 3) + (Item(", ", o + 4) + (Item(", ", o + 5) + ")"))))
  }

  function Query(n: nat): string {
    if n == 0 then INSERT
    else Query(n - 1) + ((if n > 1 then ", " else "") + Group(5 * (n - 1)))
  }

  function Values(reports: seq<Report>): (values: seq<SqlValue>)
    ensures |values| == 5 * |reports|
  {
    if reports == [] then []
    else
      var r := reports[|reports| - 1];
      Values(reports[..|reports| - 1]) +
      [Text(r.userID), Text(r.resourceID), Number(r.dataChange), Time(r.timespanStart), Time(r.timespanEnd)]
  }

  // The statement executed, if there is anything to insert.
  method BatchSaveCombinatorResourceReports(reports: seq<Report>) returns (stmt: Option<Statement>)
    ensures stmt == if reports == [] then None else Some(Statement(Query(|reports|), Values(reports)))
  {
    hide Group, INSERT;
    if |reports| == 0 {
      return None;
    }
    var query := INSERT;
    var values: seq<SqlValue> := [];
    var i := 0;
    while i < |reports|
      invariant 0 <= i <= |reports|
      invariant query == Query(i) && values == Values(reports[..i])
    {
      var report := reports[i];
      ghost var before := query;
      assert reports[..i + 1][..i] == reports[..i];
      if i > 0 {
        query := query + ", ";
      }
      query := query + Group(i * 5);
      assert query == before + ((if i > 0 then ", " else "") + Group(i * 5));
      values := values + [Text(report.userID), Text(report.resourceID), Number(report.dataChange),
                          Time(report.timespanStart), Time(report.timespanEnd)];
      i := i + 1;
    }
    assert reports[..i] == reports;
    stmt := Some(Statement(query, values));
  }

  // --- What the database reads ---

  // The digits s begins with.
  function Leading(s: string): (d: string)
    ensures d <= s && AllDigits(d)
    ensures |d| < |s| ==> !IsDigit(s[|d|])
  {
    if s == "" || !IsDigit(s[0]) then "" else [s[0]] + Leading(s[1..])
  }

  // The placeholders of a statement, in the order they stand in it: a dollar sign and the digits after it.
  function Placeholders(query: string): seq<nat> {
    if query == "" then []
    else if query[0] == '$' && Leading(query[1..]) != "" then
      var d := Leading(query[1..]);
      [Value(d)] + Placeholders(query[1 + |d|..])
    else Placeholders(query[1..])
  }

  lemma {:induction false} LeadingDigits(d: string, rest: string)
    requires AllDigits(d) && (rest == "" || !IsDigit(rest[0]))
    ensures Leading(d + rest) == d
    decreases |d|
  {
    if d == "" {
      assert d + rest == rest;
    } else {
      assert (d + rest)[1..] == d[1..] + rest;
      LeadingDigits(d[1..], rest);
    }
  }

  lemma {:induction false} NoPlaceholders(plain: string, rest: string)
    requires '$' !in plain
    ensures Placeholders(plain + rest) == Placeholders(rest)
    decreases |plain|
  {
    if plain == "" {
      assert plain + rest == rest;
    } else {
      assert (plain + rest)[1..] == plain[1..] + rest;
      NoPlaceholders(plain[1..], rest);
    }
  }

  predicate NoDigitFirst(s: string) {
    s == "" || !IsDigit(s[0])
  }

  // Wherever q stands, unless a digit follows, these are its placeholders.
  ghost predicate Reads(q: string, ks: seq<nat>) {
    forall rest: string :: NoDigitFirst(rest) ==> Placeholders(q + rest) == ks + Placeholders(rest)
  }

  lemma ReadsBoth(a: string, ks: seq<nat>, b: string, ls: seq<nat>)
    requires Reads(a, ks) && Reads(b, ls) && b != "" && NoDigitFirst(b)
    ensures Reads(a + b, ks + ls)
  {
    hide Placeholders;
    forall rest: string | NoDigitFirst(rest) ensures Placeholders(a + b + rest) == ks + ls + Placeholders(rest) {
      assert a + b + rest == a + (b + rest);
      assert NoDigitFirst(b + rest);
      assert ks + (ls + Placeholders(rest)) == ks + ls + Placeholders(rest);
    }
  }

  lemma ReadsPlain(plain: string)
    requires '$' !in plain
    ensures Reads(plain, [])
  {
    forall rest: string ensures Placeholders(plain + rest) == [] + Placeholders(rest) {
      NoPlaceholders(plain, rest);
    }
  }

  lemma ReadsDollar(k: nat)
    ensures Reads("$" + Digits(k), [k])
  {
    forall rest: string | NoDigitFirst(rest) ensures Placeholders("$" + Digits(k) + rest) == [k] + Placeholders(rest) {
      DollarFirst(k, rest, "$" + Digits(k) + rest);
    }
  }

  lemma DollarFirst(k: nat, rest: string, q: string)
    requires NoDigitFirst(rest) && q == "$" + Digits(k) + rest
    ensures Placeholders(q) == [k] + Placeholders(rest)
  {
    hide Digits, Leading, Value;
    LeadingDigits(Digits(k), rest);
    DigitsReadBack(k);
    assert q[0] == '$' && q[1..] == Digits(k) + rest;
    assert q[1 + |Digits(k)|..] == rest;
  }

  lemma ReadsItem(before: string, k: nat)
    requires '$' !in before
    ensures Reads(Item(before, k), [k])
  {
    hide Reads, Placeholders;
    ReadsPlain(before);
    ReadsDollar(k);
    ReadsBoth(before, [], "$" + Digits(k), [k]);
    assert [] + [k] == [k];
  }

  // An item in front of something that goes on with a comma or the closing parenthesis.
  lemma ReadsItemThen(before: string, k: nat, b: string, ls: seq<nat>)
    requires '$' !in before && Reads(b, ls) && b != "" && NoDigitFirst(b)
    ensures Reads(Item(before, k) + b, [k] + ls)
  {
    hide Reads, Placeholders, Item;
    ReadsItem(before, k);
    ReadsBoth(Item(before, k), [k], b, ls);
  }

  function UpTo(n: nat): seq<nat> {
    seq(n, i => i + 1)
  }

  function Five(o: nat): seq<nat> {
    [o + 1, o + 2, o + 3, o + 4, o + 5]
  }

  lemma CommaFirst(k: nat, b: string)
    ensures Item(", ", k) + b != "" && NoDigitFirst(Item(", ", k) + b)
  {
    assert (Item(", ", k) + b)[0] == ',';
  }

  lemma ReadsGroup(o: nat)
    ensures Reads(Group(o), Five(o))
  {
    hide Reads, Placeholders, Item;
    assert NoDigitFirst(")");
    ReadsPlain(")");
    var g5 := Item(", ", o + 5) + ")";
    var g4 := Item(", ", o + 4) + g5;
    var g3 := Item(", ", o + 3) + g4;
    var g2 := Item(", ", o + 2) + g3;
    CommaFirst(o + 5, ")");
    CommaFirst(o + 4, g5);
    CommaFirst(o + 3, g4);
    CommaFirst(o + 2, g3);
    ReadsItemThen(", ", o + 5, ")", []);
    ReadsItemThen(", ", o + 4, g5, [o + 5] + []);
    ReadsItemThen(", ", o + 3, g4, [o + 4] + ([o + 5] + []));
    ReadsItemThen(", ", o + 2, g3, [o + 3] + ([o + 4] + ([o + 5] + [])));
    ReadsItemThen("(", o + 1, g2, [o + 2] + ([o + 3] + ([o + 4] + ([o + 5] + []))));
    assert [o + 1] + ([o + 2] + ([o + 3] + ([o + 4] + ([o + 5] + [])))) == Five(o);
  }

  lemma ReadsNextGroup(first: bool, o: nat)
    ensures var b := (if first then "" else ", ") + Group(o);
            Reads(b, Five(o)) && b != "" && NoDigitFirst(b)
  {
    hide Reads, Placeholders, Item, Five;
    ReadsGroup(o);
    GroupFirst(o);
    if first {
      assert "" + Group(o) == Group(o);
    } else {
      ReadsPlain(", ");
      ReadsBoth(", ", [], Group(o), Five(o));
      assert [] + Five(o) == Five(o);
    }
  }

  lemma GroupFirst(o: nat)
    ensures Group(o) != "" && NoDigitFirst(Group(o))
  {
    assert Item("(", o + 1)[0] == '(';
  }

  lemma {:induction false} ReadsQuery(n: nat)
    ensures Reads(Query(n), UpTo(5 * n))
    decreases n
  {
    hide Reads, Placeholders, Group, NoDigitFirst, INSERT;
    if n == 0 {
      InsertIsPlain();
      ReadsPlain(INSERT);
      assert UpTo(0) == [];
    } else {
      var o := 5 * (n - 1);
      var b := (if n > 1 then ", " else "") + Group(o);
      ReadsQuery(n - 1);
      ReadsNextGroup(n == 1, o);
      ReadsBoth(Query(n - 1), UpTo(o), b, Five(o));
      assert Query(n) == Query(n - 1) + b;
      assert UpTo(5 * n) == UpTo(o) + Five(o);
    }
  }

  lemma ColumnsArePlain()
    ensures '$' !in COLUMNS && ')' !in COLUMNS
  {
  }

  lemma InsertIsPlain()
    ensures '$' !in INSERT
  {
    ColumnsArePlain();
    hide COLUMNS;
    assert '$' !in "INSERT INTO combinator_resource_reports ";
  }

  // --- The columns the statement names ---

  // What stands before the first c, and what stands after it.
  function Before(s: string, c: char): string {
    if s == "" || s[0] == c then "" else [s[0]] + Before(s[1..], c)
  }

  function After(s: string, c: char): string {
    if s == "" then "" else if s[0] == c then s[1..] else After(s[1..], c)
  }

  lemma {:induction false} FirstFound(a: string, c: char, b: string)
    requires c !in a
    ensures Before(a + ([c] + b), c) == a && After(a + ([c] + b), c) == b
    decreases |a|
  {
    var s := a + ([c] + b);
    if a == "" {
      assert s[0] == c && s[1..] == b;
    } else {
      assert s[0] == a[0] && s[1..] == a[1..] + ([c] + b);
      FirstFound(a[1..], c, b);
    }
  }

  // The parts of a list separated by ", ".
  function Split(s: string): (parts: seq<string>)
    ensures |parts| > 0
  {
    if s == "" then [""]
    else if ", " <= s then [""] + Split(s[2..])
    else
      var rest := Split(s[1..]);
      [[s[0]] + rest[0]] + rest[1..]
  }

  lemma {:induction false} SplitFirst(a: string, b: string)
    requires ',' !in a
    ensures Split(a + (", " + b)) == [a] + Split(b)
    decreases |a|
  {
    var s := a + (", " + b);
    if a == "" {
      assert ", " <= s && s[2..] == b;
    } else {
      assert s[0] == a[0] && s[0] != ", "[0] && s[1..] == a[1..] + (", " + b);
      SplitFirst(a[1..], b);
      assert Split(s[1..])[0] == a[1..] && Split(s[1..])[1..] == Split(b);
      assert [s[0]] + a[1..] == a;
    }
  }

  lemma {:induction false} SplitOne(a: string)
    requires ',' !in a
    ensures Split(a) == [a]
    decreases |a|
  {
    if a != "" {
      assert a[0] != ", "[0];
      SplitOne(a[1..]);
      assert [a[0]] + a[1..] == a;
    }
  }

  // The column names of an INSERT: the list between its first parentheses.
  function ColumnNames(query: string): seq<string> {
    Split(Before(After(query, '('), ')'))
  }

  lemma {:induction false} InsertFirst(n: nat) returns (rest: string)
    ensures Query(n) == INSERT + rest
    decreases n
  {
    hide INSERT, Group;
    if n == 0 {
      rest := "";
    } else {
      var before := InsertFirst(n - 1);
      rest := before + ((if n > 1 then ", " else "") + Group(5 * (n - 1)));
    }
  }

  lemma NamesBetween(rest: string)
    ensures ColumnNames(INSERT + rest) == Split(COLUMNS)
  {
    ColumnsArePlain();
    hide COLUMNS, Split, Before, After;
    var head := "INSERT INTO combinator_resource_reports ";
    var tail := ")" + (" VALUES " + rest);
    assert INSERT + rest == head + ("(" + (COLUMNS + tail));
    assert '(' !in head;
    FirstFound(head, '(', COLUMNS + tail);
    FirstFound(COLUMNS, ')', " VALUES " + rest);
  }

  lemma NamesListed()
    ensures Split(COLUMNS) == ["user_uid", "resource_id", "datachange", "record_start", "record_end"]
  {
    hide Split;
    var c4 := "record_end";
    var c3 := "record_start" + (", " + c4);
    var c2 := "datachange" + (", " + c3);
    var c1 := "resource_id" + (", " + c2);
    SplitOne(c4);
    SplitFirst("record_start", c4);
    SplitFirst("datachange", c3);
    SplitFirst("resource_id", c2);
    SplitFirst("user_uid", c1);
    assert COLUMNS == "user_uid" + (", " + c1);
  }

  lemma NamesOfQuery(n: nat)
    ensures ColumnNames(Query(n)) == ["user_uid", "resource_id", "datachange", "record_start", "record_end"]
  {
    hide Split, COLUMNS, INSERT, ColumnNames, Query;
    var rest := InsertFirst(n);
    NamesBetween(rest);
    NamesListed();
  }

  lemma NamesApart()
    ensures "user_uid" != "resource_id" && "user_uid" != "datachange" && "user_uid" != "record_start"
    ensures "user_uid" != "record_end" && "resource_id" != "datachange" && "resource_id" != "record_start"
    ensures "resource_id" != "record_end" && "datachange" != "record_start" && "datachange" != "record_end"
    ensures "record_start" != "record_end"
  {
    assert "datachange"[0] != "record_end"[0];
    assert |"user_uid"| == 8 && |"resource_id"| == 11 && |"datachange"| == 10;
    assert |"record_start"| == 12 && |"record_end"| == 10;
  }

  // --- What is bound to what ---

  lemma {:induction false} ValueOf(reports: seq<Report>, i: nat, j: nat)
    requires i < |reports| && j < 5
    ensures var names := ["user_uid", "resource_id", "datachange", "record_start", "record_end"];
            Some(Values(reports)[5 * i + j]) == FieldOf(reports[i], names[j])
    decreases |reports|
  {
    NamesApart();
    if i < |reports| - 1 {
      ValueOf(reports[..|reports| - 1], i, j);
    }
  }

  // For any list of reports: the statement names five columns, its placeholders are 1, 2, ... 5n in this
  // order, there is one value for each, and the j-th placeholder of the i-th group is bound to what the
  // column named at position j is to hold of report i.
  lemma BatchBindsReports(reports: seq<Report>, i: nat, j: nat)
    requires i < |reports| && j < 5
    ensures var q, values := Query(|reports|), Values(reports);
            && |ColumnNames(q)| == 5
            && Placeholders(q) == UpTo(5 * |reports|) && |values| == 5 * |reports|
            && Some(values[Placeholders(q)[5 * i + j] - 1]) == FieldOf(reports[i], ColumnNames(q)[j])
  {
    hide Query, FieldOf, Values, ColumnNames;
    ReadsQuery(|reports|);
    assert NoDigitFirst("");
    assert Placeholders("") == [];
    assert UpTo(5 * |reports|) + [] == UpTo(5 * |reports|);
    assert Query(|reports|) + "" == Query(|reports|);
    NamesOfQuery(|reports|);
    ValueOf(reports, i, j);
  }

  // Said the other way round: placeholder k gets what column (k - 1) mod 5 is to hold of report (k - 1) div 5.
  lemma PlaceholderBinding(reports: seq<Report>, k: nat)
    requires 1 <= k <= 5 * |reports|
    ensures |ColumnNames(Query(|reports|))| == 5
    ensures Some(Values(reports)[k - 1]) ==
            FieldOf(reports[(k - 1) / 5], ColumnNames(Query(|reports|))[(k - 1) % 5])
  {
    hide Query, FieldOf, Values, ColumnNames;
    NamesOfQuery(|reports|);
    ValueOf(reports, (k - 1) / 5, (k - 1) % 5);
  }
}
