/**
 One worker's environment and secrets (handlers/worker.handler.go, SetWorkerEnv and SetWorkerSecrets;
 handlers/jobs/worker.jobs.go, syncEnvJob and syncSecretJob; k8s/controller/worker.go, EnsureConfigMap,
 EnsureSecret and DeleteAll): what is stored, the sync jobs sent, and the cluster's ConfigMap and Secret.
 */
module Settings {
  import opened Common
  import opened Lists

  type Data = map<string, string>

  const MANAGED_KEY := "COMBINATOR_API_ENDPOINT"

  // The ticket is history: which stored update sent the job.
  datatype Job =
    | EnvJob(data: Data, ticket: nat)
    | SecretJob(data: Data, ticket: nat)

  datatype Request = Request(key: string, value: string, delete: bool)

  // How the calls of a request go: the row is found, stored, the job sent.
  datatype Io = Io(found: bool, store: bool, send: bool)

  datatype Code = Ok | BadRequest | NotFound | Failed

  // --- The environment ---

  function Merge(env: Data, r: Request): Data {
    if r.delete then env - {r.key} else env[r.key := r.value]
  }

  // --- The list of secret keys ---

  function WithKey(keys: seq<string>, key: string): seq<string> {
    if key in keys then keys else keys + [key]
  }

  function EditKeys(keys: seq<string>, r: Request): seq<string> {
    if r.delete then Remove(keys, r.key) else WithKey(keys, r.key)
  }

  // The slice keys[:n] is filtered through keys[:0], which shares its array: the write index never
  // passes the read index, so no key is overwritten before it is read.
  method FilterInPlace(keys: array<string>, key: string) returns (n: nat)
    modifies keys
    ensures n <= keys.Length
    ensures keys[..n] == Remove(old(keys[..]), key)
  {
    n := 0;
    var i := 0;
    while i < keys.Length
      invariant 0 <= n <= i <= keys.Length
      invariant keys[..n] == Remove(old(keys[..i]), key)
      invariant forall j :: i <= j < keys.Length ==> keys[j] == old(keys[j])
    {
      var k := keys[i];
      RemoveConcat(old(keys[..i]), [k], key);
      assert old(keys[..i + 1]) == old(keys[..i]) + [k];
      if k != key {
        keys[n] := k;
        n := n + 1;
      }
      i := i + 1;
    }
    assert old(keys[..i]) == old(keys[..]);
  }

  method Contains(keys: array<string>, key: string) returns (found: bool)
    ensures found <==> key in keys[..]
  {
    found := false;
    var i := 0;
    while i < keys.Length
      invariant 0 <= i <= keys.Length && !found
      invariant key !in keys[..i]
    {
      if keys[i] == key {
        found := true;
        break;
      }
      i := i + 1;
    }
    assert !found ==> keys[..i] == keys[..];
  }

  // --- Everything a worker's settings consist of ---

  datatype State = State(
    env: Data,                      // env_json
    keys: seq<string>,              // secrets_json
    queue: seq<Job>,
    configMap: Option<Data>,
    secret: Option<Data>,
    stored: seq<Data>,              // history: the environments stored
    envEdits: seq<Request>,         // history: the requests that stored them
    sentLast: bool,                 // history: the job of the last one was sent
    ran: Option<nat>,               // history: the ticket of the env job that ran last
    holds: Option<nat>,             // history: the ticket of the update the ConfigMap holds, none while it is empty
    edits: seq<Request>,            // history: the secret requests stored
    sentEdit: bool,                 // history: the job of the last one was sent
    ranEdit: Option<nat>,           // history: the ticket of the secret job that ran last
    holdsEdit: Option<nat>)         // history: the ticket of the request the Secret holds, none while it is empty

  function EnvSet(s: State, r: Request, io: Io): State {
    if r.key == "" || r.key == MANAGED_KEY || !io.found || !io.store then s
    else
      var env := Merge(s.env, r);
      s.(env := env, stored := s.stored + [env], envEdits := s.envEdits + [r], sentLast := io.send,
         queue := if io.send then s.queue + [EnvJob(env, |s.stored|)] else s.queue)
  }

  // The secrets a sync job carries: the request's key and value, even if the key is to be deleted.
  function Pair(r: Request): Data {
    map[r.key := r.value]
  }

  function SecretsSet(s: State, r: Request, io: Io): State {
    if r.key == "" || !io.found || !io.store then s
    else
      s.(keys := EditKeys(s.keys, r), edits := s.edits + [r], sentEdit := io.send,
         queue := if io.send then s.queue + [SecretJob(Pair(r), |s.edits|)] else s.queue)
  }

  // The i-th job of the queue runs; get and update say how its two calls go.
  function JobRun(s: State, i: nat, get: bool, update: bool): State
    requires i < |s.queue|
  {
    var rest := s.queue[..i] + s.queue[i + 1..];
    match s.queue[i]
    case EnvJob(data, ticket) =>
      var ok := s.configMap.Some? && get && update;
      s.(queue := rest, configMap := if ok then Some(data) else s.configMap, ran := Some(ticket),
         holds := if ok then Some(ticket) else s.holds)
    case SecretJob(data, ticket) =>
      var ok := s.secret.Some? && get && update;
      s.(queue := rest, secret := if ok then Some(data) else s.secret, ranEdit := Some(ticket),
         holdsEdit := if ok then Some(ticket) else s.holdsEdit)
  }

  // Reconciling creates what is missing, empty, and leaves what is there alone.
  function Ensured(s: State, configMap: bool, secret: bool): State {
    s.(configMap := if configMap && s.configMap.None? then Some(map[]) else s.configMap,
       secret := if secret && s.secret.None? then Some(map[]) else s.secret)
  }

  function Deleted(s: State, configMap: bool, secret: bool): State {
    s.(configMap := if configMap then None else s.configMap,
       holds := if configMap then None else s.holds,
       secret := if secret then None else s.secret,
       holdsEdit := if secret then None else s.holdsEdit)
  }

  class WorkerSettings {
    var env: Data
    var keys: seq<string>
    var queue: seq<Job>
    var configMap: Option<Data>
    var secret: Option<Data>
    var stored: seq<Data>     // history, as are the fields below; they decide nothing but tickets
    var edits: seq<Request>
    ghost var envEdits: seq<Request>
    ghost var sentLast: bool
    ghost var ran: Option<nat>
    ghost var holds: Option<nat>
    ghost var sentEdit: bool
    ghost var ranEdit: Option<nat>
    ghost var holdsEdit: Option<nat>

    ghost function Contents(): State
      reads this
    {
      State(env, keys, queue, configMap, secret, stored, envEdits, sentLast, ran, holds,
            edits, sentEdit, ranEdit, holdsEdit)
    }

    constructor ()
      ensures Contents() == Init()
    {
      env, keys, queue, configMap, secret := map[], [], [], None, None;
      stored, envEdits, sentLast, ran, holds := [], [], false, None, None;
      edits, sentEdit, ranEdit, holdsEdit := [], false, None, None;
    }

    method SetWorkerEnv(r: Request, io: Io) returns (code: Code)
      modifies this
      ensures Contents() == EnvSet(old(Contents()), r, io)
      ensures code == if r.key == "" || r.key == MANAGED_KEY then BadRequest else if !io.found then NotFound
                      else if io.store && io.send then Ok else Failed
      ensures code.BadRequest? || code.NotFound? || !io.store ==> env == old(env) && queue == old(queue)
      ensures !code.BadRequest? && !code.NotFound? && io.store ==>
                && (r.key in env <==> !r.delete) && (!r.delete ==> env[r.key] == r.value)
                && (forall k :: k != r.key ==> (k in env <==> k in old(env)) && (k in env ==> env[k] == old(env)[k]))
                && queue == old(queue) + if io.send then [EnvJob(env, |old(stored)|)] else []
    {
      if r.key == "" || r.key == MANAGED_KEY {
        return BadRequest;
      }
      if !io.found {
        return NotFound;
      }
      var envMap := env;
      if r.delete {
        envMap := envMap - {r.key};
      } else {
        envMap := envMap[r.key := r.value];
      }
      if !io.store {
        return Failed;
      }
      env, stored, envEdits, sentLast := envMap, stored + [envMap], envEdits + [r], io.send;
      if !io.send {
        return Failed;
      }
      queue := queue + [EnvJob(envMap, |stored| - 1)];
      code := Ok;
    }

    method SetWorkerSecrets(r: Request, io: Io) returns (code: Code)
      modifies this
      ensures Contents() == SecretsSet(old(Contents()), r, io)
      ensures code == if r.key == "" then BadRequest else if !io.found then NotFound
                      else if io.store && io.send then Ok else Failed
      ensures code.BadRequest? || code.NotFound? || !io.store ==> keys == old(keys) && queue == old(queue)
      ensures !code.BadRequest? && !code.NotFound? && io.store ==>
                && (forall k :: k in keys <==> if k == r.key then !r.delete else k in old(keys))
                && queue == old(queue) + if io.send then [SecretJob(map[r.key := r.value], |old(edits)|)] else []
    {
      if r.key == "" {
        return BadRequest;
      }
      if !io.found {
        return NotFound;
      }
      var decoded := new string[|keys|](i requires 0 <= i < |keys| reads this => keys[i]);
      assert decoded[..] == keys;
      var edited;
      if r.delete {
        var n := FilterInPlace(decoded, r.key);
        edited := decoded[..n];
      } else {
        edited := decoded[..];
        var found := Contains(decoded, r.key);
        if !found {
          edited := edited + [r.key];
        }
      }
      if !io.store {
        return Failed;
      }
      keys, edits, sentEdit := edited, edits + [r], io.send;
      if !io.send {
        return Failed;
      }
      queue := queue + [SecretJob(map[r.key := r.value], |edits| - 1)];
      code := Ok;
    }

    method SyncEnv(data: Data, ghost ticket: nat, get: bool, update: bool)
      modifies this`configMap, this`ran, this`holds
      ensures ran == Some(ticket)
      ensures if old(configMap).Some? && get && update then configMap == Some(data) && holds == Some(ticket)
              else configMap == old(configMap) && holds == old(holds)
    {
      ran := Some(ticket);
      if configMap.None? || !get || !update {
        return;
      }
      configMap, holds := Some(data), Some(ticket);
    }

    method SyncSecret(data: Data, ghost ticket: nat, get: bool, update: bool)
      modifies this`secret, this`ranEdit, this`holdsEdit
      ensures ranEdit == Some(ticket)
      ensures if old(secret).Some? && get && update then secret == Some(data) && holdsEdit == Some(ticket)
              else secret == old(secret) && holdsEdit == old(holdsEdit)
    {
      ranEdit := Some(ticket);
      if secret.None? || !get || !update {
        return;
      }
      secret, holdsEdit := Some(data), Some(ticket);
    }

    // A pool worker takes the i-th job and runs it.
    method RunJob(i: nat, get: bool, update: bool)
      requires i < |queue|
      modifies this
      ensures Contents() == JobRun(old(Contents()), i, get, update)
    {
      var job := queue[i];
      queue := queue[..i] + queue[i + 1..];
      match job
      case EnvJob(data, ticket) => SyncEnv(data, ticket, get, update);
      case SecretJob(data, ticket) => SyncSecret(data, ticket, get, update);
    }
  }

  // A new worker row, nothing in the cluster.
  function Init(): State {
    State(map[], [], [], None, None, [], [], false, None, None, [], false, None, None)
  }

  // --- Runs ---

  datatype Action =
    | SetEnv(r: Request, io: Io)
    | SetSecrets(r: Request, io: Io)
    | Run(i: nat, get: bool, update: bool)
    | Ensure(configMap: bool, secret: bool)    // the calls of a reconcile that succeed
    | Delete(configMap: bool, secret: bool)    // the deletes that succeed

  function Step(s: State, a: Action): State {
    match a
    case SetEnv(r, io) => EnvSet(s, r, io)
    case SetSecrets(r, io) => SecretsSet(s, r, io)
    case Run(i, get, update) => if i < |s.queue| then JobRun(s, i, get, update) else s
    case Ensure(c, x) => Ensured(s, c, x)
    case Delete(c, x) => Deleted(s, c, x)
  }

  function Steps(s: State, acts: seq<Action>): State {
    if acts == [] then s else Step(Steps(s, acts[..|acts| - 1]), acts[|acts| - 1])
  }

  // One pool worker: jobs run in the order they were sent.
  predicate Serial(acts: seq<Action>) {
    forall i :: 0 <= i < |acts| && acts[i].Run? ==> acts[i].i == 0
  }
}
