/**
 The recency list of the user connection pool as a list of user ids, most recent first
 (k8s/rdb.go, getOrCreateUserDB). This module knows no handles and no locks.
 */
module Recency {
  import opened Lists

  function Front(l: seq<string>, u: string): seq<string> {
    [u] + Remove(l, u)
  }

  function Take(l: seq<string>, n: nat): seq<string> {
    if |l| <= n then l else l[..n]
  }

  // How the calls to the database go during one call of getOrCreateUserDB.
  datatype Attempt = OpenError | PingError | Connected

  datatype Env = Env(fastPing: bool, slowPing: bool, attempts: seq<Attempt>)

  // Three attempts at most; a failing sql.Open ends them at once.
  predicate Connects(attempts: seq<Attempt>, i: nat)
    decreases 3 - i
  {
    i < 3 && i < |attempts| && (attempts[i].Connected? || (attempts[i].PingError? && Connects(attempts, i + 1)))
  }

  // Connecting succeeds exactly if one of the first three attempts does and only failed pings come before it.
  lemma ConnectsExactly(attempts: seq<Attempt>)
    ensures Connects(attempts, 0) <==>
            exists i :: 0 <= i < 3 && i < |attempts| && attempts[i].Connected?
                        && forall j :: 0 <= j < i ==> attempts[j].PingError?
  {
    if Connects(attempts, 0) {
      if !attempts[0].Connected? {
        assert Connects(attempts, 1);
        if !attempts[1].Connected? {
          assert Connects(attempts, 2);
          assert attempts[2].Connected?;
        }
      }
    }
  }

  // A pool size below 1 keeps one connection all the same.
  function Capacity(size: int): (c: nat)
    ensures c >= 1 && (size >= 1 ==> c == size) && (size < 1 ==> c == 1)
  {
    if size < 1 then 1 else size
  }

  function Evicted(l: seq<string>, size: int): seq<string> {
    if |l| >= size && l != [] then l[..|l| - 1] else l
  }

  // The list after one call for u that nobody else interferes with; `closed` are the users whose handle
  // closeAll has taken away.
  function AfterCall(l: seq<string>, closed: set<string>, size: int, u: string, env: Env): seq<string> {
    if u in l && u !in closed && (env.fastPing || env.slowPing) then Front(l, u)
    else
      var rest := Evicted(Remove(l, u), size);
      if Connects(env.attempts, 0) then [u] + rest else rest
  }

  datatype Call = Call(user: string, env: Env)

  function AfterCalls(size: int, calls: seq<Call>): seq<string>
    decreases |calls|
  {
    if calls == [] then []
    else
      var last := calls[|calls| - 1];
      AfterCall(AfterCalls(size, calls[..|calls| - 1]), {}, size, last.user, last.env)
  }

  // The users of a call history, most recent use first.
  function ByRecency(calls: seq<Call>): seq<string>
    decreases |calls|
  {
    if calls == [] then [] else Front(ByRecency(calls[..|calls| - 1]), calls[|calls| - 1].user)
  }

  // --- What ByRecency is: every user once, ordered by the index of the last call ---

  predicate LastCall(calls: seq<Call>, u: string, i: nat) {
    && i < |calls| && calls[i].user == u
    && forall j :: i < j < |calls| ==> calls[j].user != u
  }

  predicate Called(calls: seq<Call>, u: string) {
    exists i :: 0 <= i < |calls| && calls[i].user == u
  }

  lemma CalledStep(calls: seq<Call>, u: string)
    requires calls != []
    ensures Called(calls, u) <==> u == calls[|calls| - 1].user || Called(calls[..|calls| - 1], u)
  {
    var before := calls[..|calls| - 1];
    if i :| 0 <= i < |before| && calls[i].user == u {
      assert before[i].user == u;
    }
    if i :| 0 <= i < |before| && before[i].user == u {
      assert calls[i].user == u;
    }
  }

  lemma {:induction false} ByRecencyUsers(calls: seq<Call>)
    ensures Distinct(ByRecency(calls))
    ensures forall u :: u in ByRecency(calls) <==> Called(calls, u)
    decreases |calls|
  {
    hide Called;
    if calls != [] {
      var before, last := calls[..|calls| - 1], calls[|calls| - 1];
      ByRecencyUsers(before);
      RemoveDistinct(ByRecency(before), last.user);
      forall u ensures u in ByRecency(calls) <==> Called(calls, u) {
        CalledStep(calls, u);
      }
    } else {
      NobodyCalled();
    }
  }

  lemma NobodyCalled()
    ensures forall u :: !Called([], u)
  {
  }

  lemma {:induction false} ByRecencyOrder(calls: seq<Call>, i: nat, j: nat, p: nat, q: nat)
    requires i < j < |ByRecency(calls)|
    requires LastCall(calls, ByRecency(calls)[i], p) && LastCall(calls, ByRecency(calls)[j], q)
    ensures p > q
    decreases |calls|
  {
    var before, u := calls[..|calls| - 1], calls[|calls| - 1].user;
    var r := ByRecency(calls);
    ByRecencyUsers(calls);
    assert r[0] == u && r[j] != u;
    assert q < |before|;
    if i == 0 {
      assert p == |calls| - 1;
    } else {
      assert r[i] != u;
      var rest := Remove(ByRecency(before), u);
      assert r[i] == rest[i - 1] && r[j] == rest[j - 1];
      RemoveKeepsOrder(ByRecency(before), u, i - 1, j - 1);
      var earlier := ByRecency(before);
      var i', j' :| 0 <= i' < j' < |earlier| && earlier[i'] == r[i] && earlier[j'] == r[j];
      ByRecencyOrder(before, i', j', p, q);
    }
  }

  // --- The pool holds the most recent users ---

  lemma TakeOfFront(r: seq<string>, u: string, c: nat)
    requires Distinct(r) && c >= 1
    ensures Take(Front(r, u), c) == [u] + Take(Remove(r, u), c - 1)
  {
  }

  lemma RemoveFromPrefix(r: seq<string>, u: string, c: nat)
    requires Distinct(r) && c >= 1
    ensures u in Take(r, c) ==> Remove(Take(r, c), u) == Take(Remove(r, u), c - 1)
    ensures u !in Take(r, c) ==> Take(Take(r, c), c - 1) == Take(Remove(r, u), c - 1)
  {
    var a := Take(r, c);
    var b := r[|a|..];
    assert r == a + b;
    RemoveConcat(a, b, u);
    assert Distinct(a);
    RemoveDistinct(a, u);
    if u in a {
      assert u !in b by {
        var i :| 0 <= i < |a| && a[i] == u;
        assert forall j :: 0 <= j < |b| ==> b[j] == r[|a| + j];
      }
      RemoveNothing(b, u);
    } else {
      RemoveNothing(a, u);
    }
  }

  lemma AfterCallTakes(r: seq<string>, closed: set<string>, size: int, u: string, env: Env)
    requires Distinct(r) && Connects(env.attempts, 0)
    ensures AfterCall(Take(r, Capacity(size)), closed, size, u, env) == Take(Front(r, u), Capacity(size))
  {
    var c := Capacity(size);
    var l := Take(r, c);
    assert Distinct(l);
    TakeOfFront(r, u, c);
    RemoveFromPrefix(r, u, c);
    RemoveDistinct(l, u);
    if u in l {
      assert |Remove(l, u)| < c;
      if size < 1 {
        assert Remove(l, u) == [];
      }
    } else {
      RemoveNothing(l, u);
    }
  }

  // A call that finds no healthy connection and cannot connect has dropped its user all the same, and made
  // room for the connection it does not get.
  lemma FailedCallDrops(l: seq<string>, closed: set<string>, size: int, u: string, env: Env)
    requires Distinct(l) && |l| <= Capacity(size) && !Connects(env.attempts, 0)
    requires !(u in l && u !in closed && (env.fastPing || env.slowPing))
    ensures AfterCall(l, closed, size, u, env) == Take(Remove(l, u), Capacity(size) - 1)
  {
    RemoveDistinct(l, u);
  }

  // For every pool size and every history of calls that can connect, however the pings of resident
  // connections go: the pool is the first Capacity(size) users by recency.
  lemma {:induction false} PoolIsMostRecent(size: int, calls: seq<Call>)
    requires forall i :: 0 <= i < |calls| ==> Connects(calls[i].env.attempts, 0)
    ensures AfterCalls(size, calls) == Take(ByRecency(calls), Capacity(size))
    decreases |calls|
  {
    if calls != [] {
      var before, last := calls[..|calls| - 1], calls[|calls| - 1];
      PoolIsMostRecent(size, before);
      ByRecencyUsers(before);
      AfterCallTakes(ByRecency(before), {}, size, last.user, last.env);
    }
  }

  // Hence what a smaller pool holds, a larger one holds in the same order at its front.
  lemma SmallerPoolIsPrefix(small: int, large: int, calls: seq<Call>)
    requires small <= large
    requires forall i :: 0 <= i < |calls| ==> Connects(calls[i].env.attempts, 0)
    ensures AfterCalls(small, calls) <= AfterCalls(large, calls)
  {
    PoolIsMostRecent(small, calls);
    PoolIsMostRecent(large, calls);
  }
}
