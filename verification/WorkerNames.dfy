/** The names a worker's cluster objects carry (k8s/controller/worker.go). */
module WorkerNames {

  function WorkerName(workerID: string, ownerID: string): string {
    "w-" + workerID + "-" + ownerID
  }

  function EnvName(name: string): string { name + "-env" }

  function SecretName(name: string): string { name + "-secret" }

  // A worker id is the first group of a random UUID: eight hex digits, no dash.
  predicate DashFree(s: string) {
    forall i :: 0 <= i < |s| ==> s[i] != '-'
  }

  lemma WorkerNameSplits(a: string, b: string)
    ensures |WorkerName(a, b)| >= |a| + 3
    ensures WorkerName(a, b)[2..|a| + 2] == a
    ensures WorkerName(a, b)[|a| + 2] == '-'
    ensures WorkerName(a, b)[|a| + 3..] == b
  {
  }

  lemma LongerIdHasDash(a: string, b: string, c: string, d: string)
    requires WorkerName(a, b) == WorkerName(c, d)
    requires |a| < |c|
    ensures c[|a|] == '-'
  {
    WorkerNameSplits(a, b);
    WorkerNameSplits(c, d);
    assert WorkerName(c, d)[2..|c| + 2][|a|] == WorkerName(a, b)[|a| + 2];
  }

  // Two workers share a name only if they are the same worker: the first dash after "w-" ends the worker id.
  lemma WorkerNameInjective(a: string, b: string, c: string, d: string)
    requires DashFree(a) && DashFree(c)
    ensures WorkerName(a, b) == WorkerName(c, d) <==> a == c && b == d
  {
    if WorkerName(a, b) == WorkerName(c, d) {
      if |a| < |c| { LongerIdHasDash(a, b, c, d); }
      if |c| < |a| { LongerIdHasDash(c, d, a, b); }
      WorkerNameSplits(a, b);
      WorkerNameSplits(c, d);
    }
  }

  // Without the restriction on worker ids two different workers can collide.
  lemma WorkerNameCollides()
    ensures WorkerName("a-b", "c") == WorkerName("a", "b-c")
  {
    assert WorkerName("a-b", "c") == "w-a-b-c";
    assert WorkerName("a", "b-c") == "w-a-b-c";
  }

  lemma EnvNameInjective(a: string, b: string)
    ensures EnvName(a) == EnvName(b) <==> a == b
  {
    if EnvName(a) == EnvName(b) {
      assert EnvName(a)[..|a|] == a;
      assert EnvName(b)[..|b|] == b;
    }
  }

  lemma SecretNameInjective(a: string, b: string)
    ensures SecretName(a) == SecretName(b) <==> a == b
  {
    if SecretName(a) == SecretName(b) {
      assert SecretName(a)[..|a|] == a;
      assert SecretName(b)[..|b|] == b;
    }
  }
}
