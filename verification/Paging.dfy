/**
 The paged scan of the users table (handlers/jobs/auth.cron.go, loadAllUserUIDs; dblayer/actions.go,
 ListUserUIDsPaged). A query fails, or delivers its page, or loses the connection after some rows: the
 row loop does not look at rows.Err(), so that goes for a shorter page.
 */
module Paging {
  import opened Common
  import opened Lists

  const USER_PAGE_SIZE := 1000

  datatype Fetch = Full | Cut(after: nat) | Fails

  function SetOf(s: seq<string>): set<string> {
    set x | x in s
  }

  // ORDER BY uid LIMIT limit OFFSET offset, over a table that lists the uids in order.
  function Page(table: seq<string>, limit: nat, offset: nat): (page: seq<string>)
    ensures |page| <= limit
  {
    if offset >= |table| then []
    else if offset + limit <= |table| then table[offset..offset + limit]
    else table[offset..]
  }

  function ListUserUIDsPaged(table: seq<string>, limit: nat, offset: nat, f: Fetch): (r: Option<seq<string>>)
    ensures r.Some? ==> r.value <= Page(table, limit, offset)
    ensures r.Some? && |r.value| >= limit > 0 ==> offset + limit <= |table|
  {
    var page := Page(table, limit, offset);
    match f
    case Fails => None
    case Full => Some(page)
    case Cut(after) => Some(if after < |page| then page[..after] else page)
  }

  // Scanning on from query k at the given offset, with what was found before it: all uids found, unless a
  // query fails, and the number of queries made.
  function Scan(table: seq<string>, p: nat, fetch: nat -> Fetch, k: nat, offset: nat,
                found: set<string>): (Option<set<string>>, nat)
    requires p > 0
    decreases |table| + p - offset
  {
    var uids := ListUserUIDsPaged(table, p, offset, fetch(k));
    if uids.None? then (None, k + 1)
    else if |uids.value| < p then (Some(found + SetOf(uids.value)), k + 1)
    else Scan(table, p, fetch, k + 1, offset + p, found + SetOf(uids.value))
  }

  method AddAll(users: set<string>, uids: seq<string>) returns (all: set<string>)
    ensures all == users + SetOf(uids)
  {
    all := users;
    var i := 0;
    while i < |uids|
      invariant 0 <= i <= |uids|
      invariant all == users + SetOf(uids[..i])
    {
      all := all + {uids[i]};
      i := i + 1;
    }
    assert uids[..i] == uids;
  }

  method LoadAllUserUIDs(table: seq<string>, p: nat, fetch: nat -> Fetch)
    returns (userSet: Option<set<string>>, queries: nat)
    requires p > 0
    ensures (userSet, queries) == Scan(table, p, fetch, 0, 0, {})
  {
    hide SetOf, Page, ListUserUIDsPaged;
    var users: set<string> := {};
    var offset := 0;
    queries := 0;
    while true
      invariant Scan(table, p, fetch, 0, 0, {}) == Scan(table, p, fetch, queries, offset, users)
      decreases |table| + p - offset
    {
      var uids := ListUserUIDsPaged(table, p, offset, fetch(queries));
      queries := queries + 1;
      if uids.None? {
        return None, queries;
      }
      users := AddAll(users, uids.value);
      if |uids.value| < p {
        return Some(users), queries;
      }
      offset := offset + p;
    }
  }

  // Query k delivers every row of its page.
  predicate Whole(table: seq<string>, p: nat, fetch: nat -> Fetch, k: nat, offset: nat) {
    fetch(k).Full? || (fetch(k).Cut? && |Page(table, p, offset)| <= fetch(k).after)
  }

  // So does every query from k on that a complete scan makes.
  predicate WholeFrom(table: seq<string>, p: nat, fetch: nat -> Fetch, k: nat, offset: nat)
    requires p > 0
    decreases |table| + p - offset
  {
    Whole(table, p, fetch, k, offset) &&
    (offset + p <= |table| ==> WholeFrom(table, p, fetch, k + 1, offset + p))
  }

  lemma SetOfTake(table: seq<string>, offset: nat, end: nat)
    requires offset <= end <= |table|
    ensures SetOf(table[..end]) == SetOf(table[..offset]) + SetOf(table[offset..end])
  {
    assert table[..end] == table[..offset] + table[offset..end];
  }

  // No query fails and none before the last loses rows, or some uid at least is missed.
  lemma {:induction false} ScanFrom(table: seq<string>, p: nat, fetch: nat -> Fetch, k: nat, offset: nat)
    requires p > 0 && offset <= |table| && Distinct(table)
    ensures var (r, n) := Scan(table, p, fetch, k, offset, SetOf(table[..offset]));
            && (r == Some(SetOf(table)) <==> WholeFrom(table, p, fetch, k, offset))
            && (WholeFrom(table, p, fetch, k, offset) ==> n == k + Pages(|table| - offset, p))
            && (r.Some? ==> r.value <= SetOf(table))
    decreases |table| - offset
  {
    var page := Page(table, p, offset);
    var uids := ListUserUIDsPaged(table, p, offset, fetch(k));
    if uids.Some? {
      var end := offset + |uids.value|;
      assert uids.value == table[offset..end];
      SetOfTake(table, offset, end);
      if |uids.value| == p {
        ScanFrom(table, p, fetch, k + 1, offset + p);
      } else if |uids.value| < |page| {
        assert table[end] !in table[..end];
        assert table[end] in SetOf(table);
      } else {
        assert table[..end] == table;
      }
    }
  }

  // The queries a complete scan of m rows makes.
  function Pages(m: nat, p: nat): nat
    requires p > 0
  {
    if m < p then 1 else 1 + Pages(m - p, p)
  }

  lemma {:induction false} PagesDivide(m: nat, p: nat)
    requires p > 0
    ensures Pages(m, p) == m / p + 1
    decreases m
  {
    if m >= p {
      PagesDivide(m - p, p);
      DivUnique((m - p) / p + 1, (m - p) % p, m / p, m % p, p);
    } else {
      DivUnique(0, m, m / p, m % p, p);
    }
  }

  lemma DivUnique(q1: nat, r1: nat, q2: nat, r2: nat, p: nat)
    requires r1 < p && r2 < p
    requires q1 * p + r1 == q2 * p + r2
    ensures q1 == q2
  {
    if q1 < q2 { DivLess(q1, r1, q2, p); }
    if q2 < q1 { DivLess(q2, r2, q1, p); }
  }

  lemma DivLess(q: nat, r: nat, bound: nat, p: nat)
    requires r < p && q < bound
    ensures q * p + r < bound * p
  {
    MulMono(q + 1, bound, p);
  }

  lemma {:induction false} MulMono(a: nat, b: nat, p: nat)
    requires a <= b
    ensures a * p <= b * p
    decreases b
  {
    if a < b {
      MulMono(a, b - 1, p);
    }
  }

  // Over any table of distinct uids and with any page size the scan returns exactly all uids just when
  // every query delivers its page, and then it makes |table| / p + 1 queries, even when p divides |table|.
  // It never returns a uid that is not there.
  lemma PagedScanExact(table: seq<string>, p: nat, fetch: nat -> Fetch)
    requires p > 0 && Distinct(table)
    ensures var (r, n) := Scan(table, p, fetch, 0, 0, {});
            && (r == Some(SetOf(table)) <==> WholeFrom(table, p, fetch, 0, 0))
            && (WholeFrom(table, p, fetch, 0, 0) ==> n == |table| / p + 1)
            && (r.Some? ==> r.value <= SetOf(table))
  {
    ScanFrom(table, p, fetch, 0, 0);
    PagesDivide(|table|, p);
    assert SetOf(table[..0]) == {};
  }
}
