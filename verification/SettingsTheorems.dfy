/** What holds of a worker's settings over every run of requests, jobs, reconciles and deletes. */
module SettingsTheorems {
  import opened Common
  import opened Lists
  import opened Settings

  // --- What the jobs carry, in any run ---

  predicate Plain(d: Data) { MANAGED_KEY !in d }

  // An env job carries what its stored update made; the ConfigMap holds what the update of its ticket made.
  predicate EnvInv(s: State) {
    && s.env == (if s.stored == [] then map[] else s.stored[|s.stored| - 1])
    && (forall d :: d in s.stored ==> Plain(d))
    && (forall j :: j in s.queue && j.EnvJob? ==> j.ticket < |s.stored| && j.data == s.stored[j.ticket])
    && (s.holds.Some? ==> s.holds.value < |s.stored| && s.configMap == Some(s.stored[s.holds.value]))
    && (s.holds.None? && s.configMap.Some? ==> s.configMap.value == map[])
  }

  // Likewise for secret jobs and the Secret.
  predicate EditsInv(s: State) {
    && (forall j :: j in s.queue && j.SecretJob? ==> j.ticket < |s.edits| && j.data == Pair(s.edits[j.ticket]))
    && (s.holdsEdit.Some? ==> s.holdsEdit.value < |s.edits| && s.secret == Some(Pair(s.edits[s.holdsEdit.value])))
    && (s.holdsEdit.None? && s.secret.Some? ==> s.secret.value == map[])
  }

  lemma EnvSetKeeps(s: State, r: Request, io: Io)
    requires EnvInv(s)
    ensures EnvInv(EnvSet(s, r, io))
  {
    var s' := EnvSet(s, r, io);
    assert Plain(s.env);
    if s'.stored != s.stored {
      assert s'.stored == s.stored + [s'.env] && Plain(s'.env);
      assert forall j :: j in s'.queue ==> j in s.queue || j == EnvJob(s'.env, |s.stored|);
    }
  }

  lemma SecretsSetKeeps(s: State, r: Request, io: Io)
    requires EditsInv(s)
    ensures EditsInv(SecretsSet(s, r, io))
  {
    hide EditKeys, Pair;
    assert forall j :: j in SecretsSet(s, r, io).queue ==> j in s.queue || j == SecretJob(Pair(r), |s.edits|);
  }

  lemma RestSubset(s: State, i: nat, get: bool, update: bool)
    requires i < |s.queue|
    ensures s.queue[i] in s.queue
    ensures forall j :: j in JobRun(s, i, get, update).queue ==> j in s.queue
  {
  }

  lemma EnvIgnoresEdits(s: State, r: Request, io: Io)
    requires EnvInv(s)
    ensures EnvInv(SecretsSet(s, r, io))
  {
    hide Plain, EditKeys, Pair;
    assert forall j :: j in SecretsSet(s, r, io).queue && j.EnvJob? ==> j in s.queue;
  }

  lemma EditsIgnoreEnv(s: State, r: Request, io: Io)
    requires EditsInv(s)
    ensures EditsInv(EnvSet(s, r, io))
  {
    hide Merge, Pair;
    assert forall j :: j in EnvSet(s, r, io).queue && j.SecretJob? ==> j in s.queue;
  }

  lemma JobRunKeepsEnv(s: State, i: nat, get: bool, update: bool)
    requires EnvInv(s) && i < |s.queue|
    ensures EnvInv(JobRun(s, i, get, update))
  {
    hide Plain;
    RestSubset(s, i, get, update);
  }

  lemma JobRunKeepsEdits(s: State, i: nat, get: bool, update: bool)
    requires EditsInv(s) && i < |s.queue|
    ensures EditsInv(JobRun(s, i, get, update))
  {
    RestSubset(s, i, get, update);
  }

  lemma StepKeepsEnvInv(s: State, a: Action)
    requires EnvInv(s)
    ensures EnvInv(Step(s, a))
  {
    hide Plain, EnvSet, SecretsSet, JobRun;
    match a
    case SetEnv(r, io) => EnvSetKeeps(s, r, io);
    case SetSecrets(r, io) => EnvIgnoresEdits(s, r, io);
    case Run(i, get, update) => if i < |s.queue| { JobRunKeepsEnv(s, i, get, update); }
    case Ensure(c, x) =>
    case Delete(c, x) =>
  }

  lemma StepKeepsEditsInv(s: State, a: Action)
    requires EditsInv(s)
    ensures EditsInv(Step(s, a))
  {
    hide Pair, EnvSet, SecretsSet, JobRun;
    match a
    case SetEnv(r, io) => EditsIgnoreEnv(s, r, io);
    case SetSecrets(r, io) => SecretsSetKeeps(s, r, io);
    case Run(i, get, update) => if i < |s.queue| { JobRunKeepsEdits(s, i, get, update); }
    case Ensure(c, x) =>
    case Delete(c, x) =>
  }

  lemma {:induction false} RunKeepsInv(acts: seq<Action>)
    ensures EnvInv(Steps(Init(), acts)) && EditsInv(Steps(Init(), acts))
    decreases |acts|
  {
    hide EnvInv, EditsInv, Step;
    if acts != [] {
      var s, a := Steps(Init(), acts[..|acts| - 1]), acts[|acts| - 1];
      RunKeepsInv(acts[..|acts| - 1]);
      StepKeepsEnvInv(s, a);
      StepKeepsEditsInv(s, a);
    } else {
      InitInv();
    }
  }

  lemma InitInv()
    ensures EnvInv(Init()) && EditsInv(Init())
  {
  }

  // Whatever the schedule: the stored environment never has the managed key, and the ConfigMap is empty
  // or as it was stored at some time. The Secret never holds more than one key.
  lemma OnlyStoredEnvironments(acts: seq<Action>)
    ensures var s := Steps(Init(), acts);
            && MANAGED_KEY !in s.env
            && (s.configMap.Some? ==>
                  MANAGED_KEY !in s.configMap.value && (s.configMap.value == map[] || s.configMap.value in s.stored))
            && (s.secret.Some? ==> |s.secret.value| <= 1)
  {
    hide Steps;
    RunKeepsInv(acts);
    var s := Steps(Init(), acts);
    assert s.stored != [] ==> s.stored[|s.stored| - 1] in s.stored;
    assert s.holds.Some? ==> s.stored[s.holds.value] in s.stored;
    assert forall d :: d in s.stored ==> Plain(d);
  }

  // --- The environment ---

  // Whatever the schedule and whatever failed: the ConfigMap, if there is one, is what the stored update of
  // its ticket made, or empty without a ticket; so it is in step exactly if that is what was stored last.
  lemma ConfigMapHolds(acts: seq<Action>)
    ensures var s := Steps(Init(), acts);
            && (s.holds.Some? ==> s.holds.value < |s.stored| && s.configMap.Some?)
            && (s.configMap.Some? ==>
                  s.configMap.value == if s.holds.Some? then s.stored[s.holds.value] else map[])
            && (s.configMap == Some(s.env) <==>
                  && s.configMap.Some?
                  && (if s.stored == [] then map[] else s.stored[|s.stored| - 1])
                     == if s.holds.Some? then s.stored[s.holds.value] else map[])
  {
    hide Steps;
    RunKeepsInv(acts);
  }

  // The tickets of the env jobs, or of the secret jobs, that wait.
  function Tickets(queue: seq<Job>, env: bool): seq<nat> {
    if queue == [] then []
    else
      var last := queue[|queue| - 1];
      Tickets(queue[..|queue| - 1], env) + if last.EnvJob? == env then [last.ticket] else []
  }

  lemma {:induction false} TicketsConcat(a: seq<Job>, b: seq<Job>, env: bool)
    ensures Tickets(a + b, env) == Tickets(a, env) + Tickets(b, env)
    decreases |b|
  {
    if b == [] {
      assert a + b == a;
    } else {
      var n := |b| - 1;
      assert (a + b)[..|a + b| - 1] == a + b[..n];
      TicketsConcat(a, b[..n], env);
    }
  }

  lemma TicketsPush(queue: seq<Job>, j: Job, env: bool)
    ensures Tickets(queue + [j], env) == Tickets(queue, env) + if j.EnvJob? == env then [j.ticket] else []
  {
    assert (queue + [j])[..|queue|] == queue;
  }

  lemma TicketsOne(j: Job, env: bool)
    ensures Tickets([j], env) == if j.EnvJob? == env then [j.ticket] else []
  {
    assert [j][..0] == [];
  }

  lemma TicketsTake(queue: seq<Job>, i: nat, env: bool)
    requires i < |queue|
    ensures var one := if queue[i].EnvJob? == env then [queue[i].ticket] else [];
            && Tickets(queue, env) == Tickets(queue[..i], env) + (one + Tickets(queue[i + 1..], env))
            && Tickets(queue[..i] + queue[i + 1..], env) == Tickets(queue[..i], env) + Tickets(queue[i + 1..], env)
  {
    hide Tickets;
    var j := queue[i];
    TicketsOne(j, env);
    TicketsConcat([j], queue[i + 1..], env);
    TicketsConcat(queue[..i], [j] + queue[i + 1..], env);
    assert queue == queue[..i] + ([j] + queue[i + 1..]);
    TicketsConcat(queue[..i], queue[i + 1..], env);
  }

  // The step does not let an env job (or a secret job) run before an older one that waits.
  predicate OldestNext(s: State, a: Action, env: bool) {
    a.Run? && a.i < |s.queue| && s.queue[a.i].EnvJob? == env ==> Tickets(s.queue[..a.i], env) == []
  }

  predicate OldestFirst(acts: seq<Action>, env: bool) {
    acts == [] || (OldestFirst(acts[..|acts| - 1], env) &&
                   OldestNext(Steps(Init(), acts[..|acts| - 1]), acts[|acts| - 1], env))
  }

  // A single pool worker runs all jobs in the order they were sent.
  lemma {:induction false} SerialIsOldestFirst(acts: seq<Action>, env: bool)
    requires Serial(acts)
    ensures OldestFirst(acts, env)
    decreases |acts|
  {
    if acts != [] {
      SerialIsOldestFirst(acts[..|acts| - 1], env);
      var s, a := Steps(Init(), acts[..|acts| - 1]), acts[|acts| - 1];
      if a.Run? && a.i < |s.queue| {
        assert s.queue[..a.i] == [];
      }
    }
  }

  // The newest update's job, if it was sent, is the last that waits or the last that ran.
  predicate InTurn(sent: bool, waiting: seq<nat>, ran: Option<nat>, count: nat) {
    sent ==> count > 0 && if waiting != [] then waiting[|waiting| - 1] == count - 1 else ran == Some(count - 1)
  }

  predicate EnvInTurn(s: State) {
    InTurn(s.sentLast, Tickets(s.queue, true), s.ran, |s.stored|)
  }

  predicate EditsInTurn(s: State) {
    InTurn(s.sentEdit, Tickets(s.queue, false), s.ranEdit, |s.edits|)
  }

  // A job of this kind is sent, with the next ticket.
  lemma InTurnPush(queue: seq<Job>, j: Job, ran: Option<nat>)
    ensures InTurn(true, Tickets(queue + [j], j.EnvJob?), ran, j.ticket + 1)
  {
    TicketsPush(queue, j, j.EnvJob?);
  }

  lemma OtherKindPush(queue: seq<Job>, j: Job, env: bool)
    requires j.EnvJob? != env
    ensures Tickets(queue + [j], env) == Tickets(queue, env)
  {
    TicketsPush(queue, j, env);
  }

  lemma InTurnTake(sent: bool, queue: seq<Job>, i: nat, env: bool, ran: Option<nat>, count: nat)
    requires i < |queue| && InTurn(sent, Tickets(queue, env), ran, count)
    requires queue[i].EnvJob? == env ==> Tickets(queue[..i], env) == []
    ensures InTurn(sent, Tickets(queue[..i] + queue[i + 1..], env),
                   if queue[i].EnvJob? == env then Some(queue[i].ticket) else ran, count)
  {
    hide Tickets;
    TicketsTake(queue, i, env);
    if queue[i].EnvJob? == env {
      assert Tickets(queue, env)[0] == queue[i].ticket;
      assert Tickets(queue, env)[1..] == Tickets(queue[..i] + queue[i + 1..], env);
    } else {
      assert [] + Tickets(queue[i + 1..], env) == Tickets(queue[i + 1..], env);
    }
  }

  lemma StepKeepsEnvInTurn(s: State, a: Action)
    requires EnvInTurn(s) && OldestNext(s, a, true)
    ensures EnvInTurn(Step(s, a))
  {
    hide Tickets, Merge, EditKeys, Pair;
    match a
    case SetEnv(r, io) => InTurnPush(s.queue, EnvJob(Merge(s.env, r), |s.stored|), s.ran);
    case SetSecrets(r, io) => OtherKindPush(s.queue, SecretJob(Pair(r), |s.edits|), true);
    case Run(i, get, update) => if i < |s.queue| { InTurnTake(s.sentLast, s.queue, i, true, s.ran, |s.stored|); }
    case Ensure(c, x) =>
    case Delete(c, x) =>
  }

  lemma StepKeepsEditsInTurn(s: State, a: Action)
    requires EditsInTurn(s) && OldestNext(s, a, false)
    ensures EditsInTurn(Step(s, a))
  {
    hide Tickets, Merge, EditKeys, Pair;
    match a
    case SetEnv(r, io) => OtherKindPush(s.queue, EnvJob(Merge(s.env, r), |s.stored|), false);
    case SetSecrets(r, io) => InTurnPush(s.queue, SecretJob(Pair(r), |s.edits|), s.ranEdit);
    case Run(i, get, update) => if i < |s.queue| { InTurnTake(s.sentEdit, s.queue, i, false, s.ranEdit, |s.edits|); }
    case Ensure(c, x) =>
    case Delete(c, x) =>
  }

  lemma {:induction false} RunKeepsInTurn(acts: seq<Action>)
    ensures OldestFirst(acts, true) ==> EnvInTurn(Steps(Init(), acts))
    ensures OldestFirst(acts, false) ==> EditsInTurn(Steps(Init(), acts))
    decreases |acts|
  {
    hide Step, EnvInTurn, EditsInTurn, OldestNext;
    if acts != [] {
      var before := acts[..|acts| - 1];
      RunKeepsInTurn(before);
      if OldestFirst(acts, true) { StepKeepsEnvInTurn(Steps(Init(), before), acts[|acts| - 1]); }
      if OldestFirst(acts, false) { StepKeepsEditsInTurn(Steps(Init(), before), acts[|acts| - 1]); }
    } else {
      InitInTurn();
    }
  }

  lemma InitInTurn()
    ensures EnvInTurn(Init()) && EditsInTurn(Init())
  {
  }

  // In any run in which no env job overtakes another, whatever the secret jobs do: when no env job waits,
  // the job of the last stored update was sent, and the ConfigMap holds the update whose job ran last (the
  // job found and updated it, and it was not deleted since), then it holds the stored environment. It does
  // not matter which earlier jobs were lost or failed, or how often reconciles came between.
  lemma EnvSynced(acts: seq<Action>)
    requires OldestFirst(acts, true)
    ensures var s := Steps(Init(), acts);
            Tickets(s.queue, true) == [] && s.sentLast && s.holds == s.ran ==> s.configMap == Some(s.env)
  {
    hide Steps, OldestFirst;
    RunKeepsInTurn(acts);
    RunKeepsInv(acts);
  }

  // So it is with one pool worker.
  lemma SerialEnvSynced(acts: seq<Action>)
    requires Serial(acts)
    ensures var s := Steps(Init(), acts);
            Tickets(s.queue, true) == [] && s.sentLast && s.holds == s.ran ==> s.configMap == Some(s.env)
  {
    SerialIsOldestFirst(acts, true);
    EnvSynced(acts);
  }

  lemma StepsSnoc(acts: seq<Action>, a: Action)
    ensures Steps(Init(), acts + [a]) == Step(Steps(Init(), acts), a)
  {
    assert (acts + [a])[..|acts|] == acts;
  }

  // Two pool workers can run two env jobs the wrong way round: then nothing waits and nothing failed, but
  // the ConfigMap is out of date.
  lemma OverlapLeavesStaleEnv(key: string, v1: string, v2: string) returns (acts: seq<Action>)
    requires key != "" && key != MANAGED_KEY && v1 != v2
    ensures var s := Steps(Init(), acts);
            && s.queue == [] && s.sentLast && s.holds == s.ran
            && s.env == map[key := v2] && s.configMap == Some(map[key := v1])
  {
    var io := Io(true, true, true);
    var e1, e2: Data := map[key := v1], map[key := v2];
    var a1, a2 := SetEnv(Request(key, v1, false), io), SetEnv(Request(key, v2, false), io);
    acts := [Ensure(true, true)];
    assert acts[..0] == [];
    StepsSnoc(acts, a1);
    acts := acts + [a1];
    assert Steps(Init(), acts).env == e1 && Steps(Init(), acts).queue == [EnvJob(e1, 0)];
    StepsSnoc(acts, a2);
    acts := acts + [a2];
    assert Steps(Init(), acts).env == e2 && Steps(Init(), acts).queue == [EnvJob(e1, 0), EnvJob(e2, 1)];
    StepsSnoc(acts, Run(1, true, true));
    acts := acts + [Run(1, true, true)];
    StepsSnoc(acts, Run(0, true, true));
    acts := acts + [Run(0, true, true)];
  }

  // --- The list of secret keys ---

  // The edit by which k came to be in the list, if it is: the first one setting it since it was last deleted.
  function Since(edits: seq<Request>, k: string): (at: Option<nat>)
    ensures at.Some? ==> at.value < |edits| && edits[at.value].key == k && !edits[at.value].delete
  {
    if edits == [] then None
    else
      var r, before := edits[|edits| - 1], Since(edits[..|edits| - 1], k);
      if r.key != k then before
      else if r.delete then None
      else if before.Some? then before
      else Some(|edits| - 1)
  }

  function At(edits: seq<Request>, k: string): int {
    if Since(edits, k).Some? then Since(edits, k).value else -1
  }

  // The list holds exactly the keys that came and stayed, the oldest first, and so none twice.
  ghost predicate KeysInv(keys: seq<string>, edits: seq<Request>) {
    && (forall k :: k in keys <==> Since(edits, k).Some?)
    && InOrder(keys, edits)
  }

  ghost predicate InOrder(keys: seq<string>, edits: seq<Request>) {
    forall i, j :: 0 <= i < j < |keys| ==> At(edits, keys[i]) < At(edits, keys[j])
  }

  lemma RemoveInOrder(keys: seq<string>, key: string, edits: seq<Request>)
    requires InOrder(keys, edits)
    ensures InOrder(Remove(keys, key), edits)
  {
    hide At, Remove;
    var r := Remove(keys, key);
    forall i, j | 0 <= i < j < |r| ensures At(edits, r[i]) < At(edits, r[j]) {
      RemoveKeepsOrder(keys, key, i, j);
      var p, q :| 0 <= p < q < |keys| && keys[p] == r[i] && keys[q] == r[j];
    }
  }

  lemma EditKeepsKeysInv(keys: seq<string>, edits: seq<Request>, r: Request)
    requires KeysInv(keys, edits)
    ensures KeysInv(EditKeys(keys, r), edits + [r])
  {
    var keys', edits' := EditKeys(keys, r), edits + [r];
    assert edits'[..|edits|] == edits;
    if r.delete {
      forall k ensures k in keys' <==> Since(edits', k).Some? {
      }
      RemoveInOrder(keys, r.key, edits);
      forall i | 0 <= i < |keys'| ensures Since(edits', keys'[i]) == Since(edits, keys'[i]) {
        assert keys'[i] in keys';
      }
    } else {
      forall k | k in keys ensures Since(edits', k) == Since(edits, k) {
      }
    }
  }

  lemma StepKeepsKeysInv(s: State, a: Action)
    requires KeysInv(s.keys, s.edits)
    ensures KeysInv(Step(s, a).keys, Step(s, a).edits)
  {
    hide KeysInv, EditKeys, Merge;
    if a.SetSecrets? {
      EditKeepsKeysInv(s.keys, s.edits, a.r);
    }
  }

  lemma {:induction false} KeysFollowEdits(acts: seq<Action>)
    ensures KeysInv(Steps(Init(), acts).keys, Steps(Init(), acts).edits)
    decreases |acts|
  {
    if acts != [] {
      KeysFollowEdits(acts[..|acts| - 1]);
      StepKeepsKeysInv(Steps(Init(), acts[..|acts| - 1]), acts[|acts| - 1]);
    }
  }

  // After any run, whatever its outcomes, the list holds each key at most once, and holds it exactly if the
  // last stored request about it set it.
  lemma KeyListMembers(acts: seq<Action>, k: string)
    ensures var s := Steps(Init(), acts);
            Distinct(s.keys) && (k in s.keys <==> LastSets(s.edits, k))
  {
    KeysFollowEdits(acts);
    SinceIsLastSet(Steps(Init(), acts).edits, k);
  }

  // And it is in the order in which its keys were first set since they were last deleted.
  lemma KeyListOrder(acts: seq<Action>, i: nat)
    requires i < |Steps(Init(), acts).keys|
    ensures var s := Steps(Init(), acts);
            && 0 <= At(s.edits, s.keys[i]) < |s.edits| && s.edits[At(s.edits, s.keys[i])].key == s.keys[i]
            && forall j :: i < j < |s.keys| ==> At(s.edits, s.keys[i]) < At(s.edits, s.keys[j])
  {
    KeysFollowEdits(acts);
    assert Steps(Init(), acts).keys[i] in Steps(Init(), acts).keys;
  }

  // The last edit of k sets it.
  predicate LastSets(edits: seq<Request>, k: string) {
    exists i :: 0 <= i < |edits| && edits[i].key == k && !edits[i].delete &&
                forall j :: i < j < |edits| ==> edits[j].key != k
  }

  lemma LastSetsStep(edits: seq<Request>, k: string)
    requires edits != []
    ensures var n := |edits| - 1;
            LastSets(edits, k) <==> if edits[n].key == k then !edits[n].delete else LastSets(edits[..n], k)
  {
    var n := |edits| - 1;
    if LastSets(edits, k) && edits[n].key != k {
      var i :| 0 <= i < |edits| && edits[i].key == k && !edits[i].delete &&
               forall j :: i < j < |edits| ==> edits[j].key != k;
      assert edits[..n][i] == edits[i];
    }
    if LastSets(edits[..n], k) && edits[n].key != k {
      var i :| 0 <= i < n && edits[..n][i].key == k && !edits[..n][i].delete &&
               forall j :: i < j < n ==> edits[..n][j].key != k;
      assert edits[i].key == k && forall j :: i < j < n ==> edits[j] == edits[..n][j];
    }
  }

  lemma {:induction false} SinceIsLastSet(edits: seq<Request>, k: string)
    ensures Since(edits, k).Some? <==> LastSets(edits, k)
    decreases |edits|
  {
    if edits != [] {
      SinceIsLastSet(edits[..|edits| - 1], k);
      LastSetsStep(edits, k);
    }
  }

  // Since then the key was not deleted, and if it had been set earlier it was deleted in between.
  lemma {:induction false} SinceLastDeleted(edits: seq<Request>, k: string, j: nat)
    requires Since(edits, k).Some? && j < |edits| && edits[j].key == k
    ensures j >= Since(edits, k).value ==> !edits[j].delete
    ensures j < Since(edits, k).value && !edits[j].delete ==>
              exists d :: j < d < Since(edits, k).value && edits[d].key == k && edits[d].delete
    decreases |edits|
  {
    var n := |edits| - 1;
    var before := Since(edits[..n], k);
    if before.Some? {
      if j < n {
        SinceLastDeleted(edits[..n], k, j);
        if d :| j < d < before.value && edits[..n][d].key == k && edits[..n][d].delete {
          assert edits[d] == edits[..n][d];
        }
      }
    } else if j < n && !edits[j].delete {
      DeletedAfter(edits[..n], k, j);
    }
  }

  lemma {:induction false} DeletedAfter(edits: seq<Request>, k: string, j: nat)
    requires Since(edits, k).None? && j < |edits| && edits[j].key == k && !edits[j].delete
    ensures exists d :: j < d < |edits| && edits[d].key == k && edits[d].delete
    decreases |edits|
  {
    var n := |edits| - 1;
    if edits[n].key != k {
      DeletedAfter(edits[..n], k, j);
      var d :| j < d < n && edits[..n][d].key == k && edits[..n][d].delete;
      assert edits[d].delete;
    } else {
      assert edits[n].delete;
    }
  }

  // --- The stored environment ---

  // The last of the edits that is about k.
  predicate IsLast(edits: seq<Request>, k: string, i: nat) {
    i < |edits| && edits[i].key == k && forall j :: i < j < |edits| ==> edits[j].key != k
  }

  ghost predicate EnvFollows(env: Data, edits: seq<Request>) {
    && (forall k :: k in env <==> LastSets(edits, k))
    && (forall k, i: nat :: IsLast(edits, k, i) && !edits[i].delete ==> k in env && env[k] == edits[i].value)
  }

  lemma MergeFollows(env: Data, edits: seq<Request>, r: Request)
    requires EnvFollows(env, edits)
    ensures EnvFollows(Merge(env, r), edits + [r])
  {
    hide LastSets;
    var env', edits' := Merge(env, r), edits + [r];
    assert edits'[..|edits|] == edits;
    forall k ensures k in env' <==> LastSets(edits', k) {
      LastSetsStep(edits', k);
    }
    forall k, i: nat | IsLast(edits', k, i) && !edits'[i].delete ensures k in env' && env'[k] == edits'[i].value {
      if i < |edits| {
        assert edits'[|edits|].key != k;
        assert forall j :: i < j < |edits| ==> edits[j] == edits'[j];
        assert IsLast(edits, k, i);
      }
    }
  }

  lemma StepKeepsEnvFollows(s: State, a: Action)
    requires EnvFollows(s.env, s.envEdits)
    ensures EnvFollows(Step(s, a).env, Step(s, a).envEdits)
  {
    hide EnvFollows, Merge, EditKeys, Pair;
    if a.SetEnv? {
      MergeFollows(s.env, s.envEdits, a.r);
    }
  }

  lemma {:induction false} RunKeepsEnvFollows(acts: seq<Action>)
    ensures EnvFollows(Steps(Init(), acts).env, Steps(Init(), acts).envEdits)
    decreases |acts|
  {
    hide Step;
    if acts != [] {
      RunKeepsEnvFollows(acts[..|acts| - 1]);
      StepKeepsEnvFollows(Steps(Init(), acts[..|acts| - 1]), acts[|acts| - 1]);
    } else {
      assert EnvFollows(Init().env, Init().envEdits);
    }
  }

  // After any run the stored environment has a variable exactly if the last stored request about it set it,
  // and then with that request's value; requests about other variables leave it alone.
  lemma EnvMembers(acts: seq<Action>, k: string, i: nat)
    ensures var s := Steps(Init(), acts);
            && (k in s.env <==> LastSets(s.envEdits, k))
            && (IsLast(s.envEdits, k, i) ==>
                  (k in s.env <==> !s.envEdits[i].delete) && (k in s.env ==> s.env[k] == s.envEdits[i].value))
  {
    hide Steps;
    RunKeepsEnvFollows(acts);
    if IsLast(Steps(Init(), acts).envEdits, k, i) {
      LastIsLast(Steps(Init(), acts).envEdits, k, i);
    }
  }

  lemma LastIsLast(edits: seq<Request>, k: string, i: nat)
    requires IsLast(edits, k, i)
    ensures LastSets(edits, k) <==> !edits[i].delete
  {
  }

  // --- The Secret against the list ---

  predicate ListsExactly(keys: seq<string>, d: Data) {
    (set k | k in keys) == d.Keys
  }

  lemma OnlyMember(keys: seq<string>, k: string)
    requires Distinct(keys)
    ensures keys == [k] <==> k in keys && forall x :: x in keys ==> x == k
    ensures ListsExactly(keys, map[k := ""]) <==> keys == [k]
  {
    var listed := set x | x in keys;
    assert k in keys <==> k in listed;
    assert forall x :: x in keys <==> x in listed;
    if k in keys && forall x :: x in keys ==> x == k {
      assert keys[0] in keys && keys[|keys| - 1] in keys;
      assert keys[0] == keys[|keys| - 1];
      assert listed == {k};
    }
  }

  // Whatever the schedule and whatever failed: the Secret, if there is one, holds just the key and value of
  // the request of its ticket, deleted or not, or nothing without a ticket; so its keys are the listed ones
  // exactly if that key alone is listed, or none.
  lemma SecretHolds(acts: seq<Action>)
    ensures var s := Steps(Init(), acts);
            && (s.holdsEdit.Some? ==> s.holdsEdit.value < |s.edits| && s.secret.Some?)
            && (s.secret.Some? ==>
                  && s.secret.value == (if s.holdsEdit.Some? then
                                          var r := s.edits[s.holdsEdit.value];
                                          map[r.key := r.value]
                                        else map[])
                  && (ListsExactly(s.keys, s.secret.value) <==>
                        s.keys == if s.holdsEdit.Some? then [s.edits[s.holdsEdit.value].key] else []))
  {
    hide Steps, LastSets, Distinct;
    RunKeepsInv(acts);
    var s := Steps(Init(), acts);
    KeyListMembers(acts, "");
    if s.holdsEdit.Some? {
      OnlyMember(s.keys, s.edits[s.holdsEdit.value].key);
    } else {
      NoMember(s.keys);
    }
  }

  lemma NoMember(keys: seq<string>)
    ensures ListsExactly(keys, map[]) <==> keys == []
  {
    var listed := set k | k in keys;
    assert keys != [] ==> keys[0] in listed;
  }

  // In any run in which no secret job overtakes another: when none waits, the last request's was sent and
  // the Secret holds the request whose job ran last, it holds the last request's key and value and nothing
  // else. Its keys are the listed ones exactly if the request was no deletion and every other key's last
  // request was one.
  lemma SecretMatchesList(acts: seq<Action>)
    requires OldestFirst(acts, false)
    ensures var s := Steps(Init(), acts);
            Tickets(s.queue, false) == [] && s.sentEdit && s.holdsEdit == s.ranEdit ==>
              && s.edits != [] && s.secret == Some(Pair(s.edits[|s.edits| - 1]))
              && (ListsExactly(s.keys, s.secret.value) <==>
                    !s.edits[|s.edits| - 1].delete &&
                    forall k :: k != s.edits[|s.edits| - 1].key ==> !LastSets(s.edits, k))
  {
    hide Steps, OldestFirst, LastSets, ListsExactly;
    RunKeepsInTurn(acts);
    SecretHolds(acts);
    if Steps(Init(), acts).edits != [] {
      OnlyLastListed(acts);
    }
  }

  // So it is with one pool worker.
  lemma SerialSecretMatchesList(acts: seq<Action>)
    requires Serial(acts)
    ensures var s := Steps(Init(), acts);
            Tickets(s.queue, false) == [] && s.sentEdit && s.holdsEdit == s.ranEdit ==>
              && s.edits != [] && s.secret == Some(Pair(s.edits[|s.edits| - 1]))
              && (ListsExactly(s.keys, s.secret.value) <==>
                    !s.edits[|s.edits| - 1].delete &&
                    forall k :: k != s.edits[|s.edits| - 1].key ==> !LastSets(s.edits, k))
  {
    hide Steps, OldestFirst, LastSets, ListsExactly, Pair, Tickets;
    SerialIsOldestFirst(acts, false);
    SecretMatchesList(acts);
  }

  // In particular right after a request's own job: then the listed keys are the Secret's exactly if the
  // request set a key and no other was listed before.
  lemma SecretAfterRequest(acts: seq<Action>, r: Request)
    requires r.key != "" && Steps(Init(), acts).secret.Some?
    ensures var s0 := Steps(Init(), acts);
            var s := SecretsSet(s0, r, Io(true, true, true));
            var s' := JobRun(s, |s.queue| - 1, true, true);
            && s'.secret == Some(map[r.key := r.value]) && s'.keys == s.keys
            && (ListsExactly(s'.keys, s'.secret.value) <==> !r.delete && forall k :: k in s0.keys ==> k == r.key)
  {
    hide Steps;
    var s0 := Steps(Init(), acts);
    var keys := EditKeys(s0.keys, r);
    assert forall k :: k in keys <==> if r.delete then k in s0.keys && k != r.key else k in s0.keys || k == r.key;
    var listed := set k | k in keys;
    assert forall k :: k in listed <==> k in keys;
    assert Pair(r).Keys == {r.key};
  }

  lemma OnlyLastListed(acts: seq<Action>)
    requires Steps(Init(), acts).edits != []
    ensures var s := Steps(Init(), acts);
            var last := s.edits[|s.edits| - 1];
            s.keys == [last.key] <==> !last.delete && forall k :: k != last.key ==> !LastSets(s.edits, k)
  {
    hide Steps, LastSets, Distinct;
    var s := Steps(Init(), acts);
    var last := s.edits[|s.edits| - 1];
    forall k ensures k in s.keys <==> LastSets(s.edits, k) {
      KeyListMembers(acts, k);
    }
    KeyListMembers(acts, last.key);
    LastSetsStep(s.edits, last.key);
    OnlyMember(s.keys, last.key);
  }
}
