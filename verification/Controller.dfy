/**
 The WorkerApp controller (k8s/controller/worker.controller.go, controller.go) as a state with one
 function per handler. The API server holds the CRs and the workers' objects; CR changes travel through
 the watch to the informer's store and then, in the same order, to the CR handlers; deletions of watched
 objects and changes of ConfigMaps and Secrets are events of their own, delivered in any order.
 */
module Controller {
  import opened Common
  import opened WorkerNames
  import opened Cluster

  datatype CR = CR(spec: WorkerAppSpec, generation: nat, phase: string, message: string) {
    function Name(): string { spec.Name() }
  }

  datatype WatchEvent = Upsert(cr: CR) | Removed(cr: CR)

  // A call of onAdd, onUpdate or onDelete the informer still has to make.
  datatype Note = Added(now: CR) | Updated(was: CR, now: CR) | Deleted(now: CR) {
    function Name(): string { now.Name() }
  }

  datatype State = State(
    domain: string,
    crs: map<string, CR>,                // the API server's CRs
    objects: Objects,                    // the API server's worker objects
    watch: seq<WatchEvent>,              // CR changes the informer has not seen
    store: map<string, CR>,              // the informer's store, crCache
    notes: seq<Note>,                    // CR handler calls not made yet
    deletes: seq<(Kind, string)>,        // deletions of watched objects not handled yet, with their app label
    configs: seq<string>)                // ConfigMap and Secret changes not handled yet, by app label

  // How the API calls of one reconcile go; message is the text of the failing call's error.
  datatype Env = Env(deploying: bool, calls: Calls, message: string, final: bool)

  // --- updateStatus ---

  function StatusWritten(s: State, name: string, phase: string, message: string, ok: bool): State {
    if !ok || name !in s.crs then s
    else
      var latest := s.crs[name].(phase := phase, message := message);
      if latest == s.crs[name] then s   // a write that changes nothing causes no event
      else s.(crs := s.crs[name := latest], watch := s.watch + [Upsert(latest)])
  }

  // --- reconcile and the handlers ---

  function ReconcileState(s: State, cr: CR, env: Env): State {
    var n := cr.Name();
    var s1 := StatusWritten(s, n, "Deploying", "", env.deploying);
    var done := Progress(s1.objects, n, env.calls);
    var s2 := s1.(objects := Reconciled(s1.objects, cr.spec, s1.domain, done));
    if done < 5 then StatusWritten(s2, n, "Failed", env.message, env.final)
    else StatusWritten(s2, n, "Running", "", env.final)
  }

  function OnUpdateState(s: State, was: CR, now: CR, env: Env): State {
    if was.generation == now.generation then s else ReconcileState(s, now, env)
  }

  // The app label of a watched object, the empty string when there is none.
  function AppOf(o: Objects, k: Kind, n: string): string {
    match k
    case DeploymentKind => if n in o.deployments then o.deployments[n].labels.app else ""
    case ServiceKind => if n in o.services then o.services[n].labels.app else ""
    case IngressRouteKind => if n in o.ingressRoutes then o.ingressRoutes[n].labels.app else ""
    case _ => ""
  }

  function Event(k: Kind, happens: bool, app: string): seq<(Kind, string)> {
    if happens then [(k, app)] else []
  }

  // The deletion event DeleteAll causes for kind k: one if it really removes an object.
  function ClearEvent(o: Objects, k: Kind, n: string, failed: set<Kind>): seq<(Kind, string)> {
    Event(k, k !in failed && Present(o, k, n), AppOf(o, k, n))
  }

  function ClearEvents(o: Objects, n: string, failed: set<Kind>): seq<(Kind, string)> {
    ClearEvent(o, DeploymentKind, n, failed) +
    (ClearEvent(o, ServiceKind, n, failed) + ClearEvent(o, IngressRouteKind, n, failed))
  }

  lemma ConcatAssociates<T>(a: seq<T>, b: seq<T>, c: seq<T>, d: seq<T>)
    ensures a + b + c + d == a + (b + (c + d))
  {
  }

  function OnDeleteState(s: State, cr: CR, failed: set<Kind>): State {
    s.(objects := Cleared(s.objects, cr.Name(), failed),
       deletes := s.deletes + ClearEvents(s.objects, cr.Name(), failed))
  }

  function OnSubResourceDeleteState(s: State, app: string, env: Env): State {
    if app == "" || app !in s.store then s else ReconcileState(s, s.store[app], env)
  }

  function Restarted(o: Objects, app: string, at: int): Objects {
    if app !in o.deployments then o
    else o.(deployments := o.deployments[app := o.deployments[app].(restartedAt := Some(at))])
  }

  function OnConfigUpdateState(s: State, app: string, at: int, ok: bool): State {
    if app == "" || !ok then s else s.(objects := Restarted(s.objects, app, at))
  }

  // --- CreateWorkerAppCR and DeleteWorkerAppCR, with calls that succeed ---

  // The API server starts at generation 1 and counts changes of the spec.
  function ApplyState(s: State, spec: WorkerAppSpec): State {
    var n := spec.Name();
    if n !in s.crs then
      var cr := CR(spec, 1, "", "");
      s.(crs := s.crs[n := cr], watch := s.watch + [Upsert(cr)])
    else if s.crs[n].spec == spec then s
    else
      var cr := s.crs[n].(spec := spec, generation := s.crs[n].generation + 1);
      s.(crs := s.crs[n := cr], watch := s.watch + [Upsert(cr)])
  }

  function RemoveState(s: State, n: string): State {
    if n !in s.crs then s
    else s.(crs := s.crs - {n}, watch := s.watch + [Removed(s.crs[n])])
  }

  /** The controller with the API server it talks to: handlers write the server's objects step by step. */
  class WorkerController {
    const domain: string
    var crs: map<string, CR>
    var configMaps: map<string, ConfigMap>
    var secrets: map<string, ConfigMap>
    var deployments: map<string, Deployment>
    var services: map<string, Service>
    var ingressRoutes: map<string, IngressRoute>
    var watch: seq<WatchEvent>
    var crCache: map<string, CR>
    var notes: seq<Note>
    var deletes: seq<(Kind, string)>
    var configs: seq<string>

    ghost function Server(): Objects reads this {
      Objects(configMaps, secrets, deployments, services, ingressRoutes)
    }

    ghost function View(): State reads this {
      State(domain, crs, Server(), watch, crCache, notes, deletes, configs)
    }

    constructor (domain: string)
      ensures View() == State(domain, map[], Objects(map[], map[], map[], map[], map[]), [], map[], [], [], [])
    {
      this.domain := domain;
      crs, crCache, watch, notes, deletes, configs := map[], map[], [], [], [], [];
      configMaps, secrets, deployments, services, ingressRoutes := map[], map[], map[], map[], map[];
    }

    method UpdateStatus(name: string, phase: string, message: string, ok: bool)
      modifies this`crs, this`watch
      ensures View() == StatusWritten(old(View()), name, phase, message, ok)
      ensures crs.Keys == old(crs).Keys && forall n :: n in crs && n != name ==> crs[n] == old(crs)[n]
      ensures name in crs ==>
                crs[name] == if ok then old(crs)[name].(phase := phase, message := message) else old(crs)[name]
      ensures watch == if crs == old(crs) then old(watch) else old(watch) + [Upsert(crs[name])]
    {
      if name !in crs || !ok {
        return;
      }
      var latest := crs[name];
      latest := latest.(phase := phase);
      latest := latest.(message := message);
      if latest != crs[name] {
        crs := crs[name := latest];
        watch := watch + [Upsert(latest)];
      }
    }

    method EnsureConfigMap(w: WorkerAppSpec, call: Call) returns (err: bool)
      modifies this`configMaps
      ensures err <==> Fails(old(Server()), w.Name(), ConfigMapKind, call)
      ensures err <==> !call.getOk || (EnvName(w.Name()) !in old(configMaps) && !call.writeOk)
      ensures configMaps == if err then old(configMaps) else IfMissing(old(configMaps), EnvName(w.Name()), EmptyData(w))
    {
      err := !call.getOk;
      if !err && EnvName(w.Name()) !in configMaps {
        err := !call.writeOk;
        if !err { configMaps := configMaps[EnvName(w.Name()) := EmptyData(w)]; }
      }
    }

    method EnsureSecret(w: WorkerAppSpec, call: Call) returns (err: bool)
      modifies this`secrets
      ensures err <==> Fails(old(Server()), w.Name(), SecretKind, call)
      ensures err <==> !call.getOk || (SecretName(w.Name()) !in old(secrets) && !call.writeOk)
      ensures secrets == if err then old(secrets) else IfMissing(old(secrets), SecretName(w.Name()), EmptyData(w))
    {
      err := !call.getOk;
      if !err && SecretName(w.Name()) !in secrets {
        err := !call.writeOk;
        if !err { secrets := secrets[SecretName(w.Name()) := EmptyData(w)]; }
      }
    }

    method EnsureDeployment(w: WorkerAppSpec, call: Call) returns (err: bool)
      modifies this`deployments
      ensures err <==> Fails(old(Server()), w.Name(), DeploymentKind, call)
      ensures err <==> !call.getOk || !call.writeOk
      ensures deployments == if err then old(deployments) else old(deployments)[w.Name() := RenderDeployment(w)]
    {
      var deployment := RenderDeployment(w);
      if !call.getOk {
        err := true;
      } else if w.Name() !in deployments {
        err := !call.writeOk;   // Create
        if !err { deployments := deployments[w.Name() := deployment]; }
      } else {
        err := !call.writeOk;   // Update
        if !err { deployments := deployments[w.Name() := deployment]; }
      }
    }

    method EnsureService(w: WorkerAppSpec, call: Call) returns (err: bool)
      modifies this`services
      ensures err <==> Fails(old(Server()), w.Name(), ServiceKind, call)
      ensures err <==> !call.getOk || (w.Name() !in old(services) && !call.writeOk)
      ensures services == if err then old(services) else IfMissing(old(services), w.Name(), RenderService(w))
    {
      err := !call.getOk;
      if !err && w.Name() !in services {
        err := !call.writeOk;
        if !err { services := services[w.Name() := RenderService(w)]; }
      }
    }

    method EnsureIngressRoute(w: WorkerAppSpec, call: Call) returns (err: bool)
      modifies this`ingressRoutes
      ensures err <==> Fails(old(Server()), w.Name(), IngressRouteKind, call)
      ensures err <==> !call.getOk || !call.writeOk
      ensures ingressRoutes ==
              if err then old(ingressRoutes) else old(ingressRoutes)[w.Name() := RenderIngressRoute(w, domain)]
    {
      var route := RenderIngressRoute(w, domain);
      if !call.getOk {
        err := true;
      } else if w.Name() !in ingressRoutes {
        err := !call.writeOk;   // Create
        if !err { ingressRoutes := ingressRoutes[w.Name() := route]; }
      } else {
        err := !call.writeOk;   // Update, with the existing resource version
        if !err { ingressRoutes := ingressRoutes[w.Name() := route]; }
      }
    }

    // The five Ensure calls in order, up to the first error; done counts the calls that went through.
    method EnsureAll(w: WorkerAppSpec, calls: Calls) returns (done: nat)
      modifies this`configMaps, this`secrets, this`deployments, this`services, this`ingressRoutes
      ensures done == Progress(old(Server()), w.Name(), calls)
      ensures Server() == Reconciled(old(Server()), w, domain, done)
    {
      var err := EnsureConfigMap(w, calls.configMap);
      if err { return 0; }
      err := EnsureSecret(w, calls.secret);
      if err { return 1; }
      err := EnsureDeployment(w, calls.deployment);
      if err { return 2; }
      err := EnsureService(w, calls.service);
      if err { return 3; }
      err := EnsureIngressRoute(w, calls.ingressRoute);
      if err { return 4; }
      return 5;
    }

    method Reconcile(u: CR, env: Env)
      modifies this
      ensures View() == ReconcileState(old(View()), u, env)
      ensures forall n :: n != u.Name() ==> SameFor(old(Server()), Server(), n)
      ensures crs.Keys == old(crs).Keys && forall n :: n in crs && n != u.Name() ==> crs[n] == old(crs)[n]
      ensures u.Name() in crs && env.final ==>
                if Progress(old(Server()), u.Name(), env.calls) == 5
                then crs[u.Name()] == old(crs)[u.Name()].(phase := "Running", message := "")
                else crs[u.Name()] == old(crs)[u.Name()].(phase := "Failed", message := env.message)
      ensures u.Name() in crs && !env.final && env.deploying ==>
                crs[u.Name()] == old(crs)[u.Name()].(phase := "Deploying", message := "")
    {
      UpdateStatus(u.Name(), "Deploying", "", env.deploying);
      var done := EnsureAll(u.spec, env.calls);
      forall n | n != u.Name() ensures SameFor(old(Server()), Server(), n) {
        ReconcileFramedByName(old(Server()), u.spec, domain, done, n);
      }
      if done < 5 {
        UpdateStatus(u.Name(), "Failed", env.message, env.final);
        return;
      }
      UpdateStatus(u.Name(), "Running", "", env.final);
    }

    method DeleteConfigMap(n: string, ok: bool)
      modifies this`configMaps
      ensures configMaps == if ok then old(configMaps) - {EnvName(n)} else old(configMaps)
    {
      if ok { configMaps := configMaps - {EnvName(n)}; }
    }

    method DeleteSecret(n: string, ok: bool)
      modifies this`secrets
      ensures secrets == if ok then old(secrets) - {SecretName(n)} else old(secrets)
    {
      if ok { secrets := secrets - {SecretName(n)}; }
    }

    method DeleteDeployment(n: string, ok: bool)
      modifies this`deployments, this`deletes
      ensures deployments == if ok then old(deployments) - {n} else old(deployments)
      ensures deletes ==
              old(deletes) + Event(DeploymentKind, ok && n in old(deployments), AppOf(old(Server()), DeploymentKind, n))
    {
      if ok {
        if n in deployments { deletes := deletes + [(DeploymentKind, deployments[n].labels.app)]; }
        deployments := deployments - {n};
      }
    }

    method DeleteService(n: string, ok: bool)
      modifies this`services, this`deletes
      ensures services == if ok then old(services) - {n} else old(services)
      ensures deletes ==
              old(deletes) + Event(ServiceKind, ok && n in old(services), AppOf(old(Server()), ServiceKind, n))
    {
      if ok {
        if n in services { deletes := deletes + [(ServiceKind, services[n].labels.app)]; }
        services := services - {n};
      }
    }

    method DeleteIngressRoute(n: string, ok: bool)
      modifies this`ingressRoutes, this`deletes
      ensures ingressRoutes == if ok then old(ingressRoutes) - {n} else old(ingressRoutes)
      ensures deletes ==
              old(deletes) +
              Event(IngressRouteKind, ok && n in old(ingressRoutes), AppOf(old(Server()), IngressRouteKind, n))
    {
      if ok {
        if n in ingressRoutes { deletes := deletes + [(IngressRouteKind, ingressRoutes[n].labels.app)]; }
        ingressRoutes := ingressRoutes - {n};
      }
    }

    // Deletes that fail are ignored; deleting what is not there changes nothing.
    method DeleteAll(w: WorkerAppSpec, failed: set<Kind>)
      modifies this`configMaps, this`secrets, this`deployments, this`services, this`ingressRoutes, this`deletes
      ensures Server() == Cleared(old(Server()), w.Name(), failed)
      ensures deletes == old(deletes) + ClearEvents(old(Server()), w.Name(), failed)
    {
      var n := w.Name();
      ghost var o, pending := Server(), deletes;
      DeleteDeployment(n, DeploymentKind !in failed);
      DeleteService(n, ServiceKind !in failed);
      DeleteConfigMap(n, ConfigMapKind !in failed);
      DeleteSecret(n, SecretKind !in failed);
      DeleteIngressRoute(n, IngressRouteKind !in failed);
      ConcatAssociates(pending, ClearEvent(o, DeploymentKind, n, failed), ClearEvent(o, ServiceKind, n, failed),
                       ClearEvent(o, IngressRouteKind, n, failed));
    }

    method OnAdd(u: CR, env: Env)
      modifies this
      ensures View() == ReconcileState(old(View()), u, env)
    {
      Reconcile(u, env);
    }

    method OnUpdate(oldU: CR, newU: CR, env: Env)
      modifies this
      ensures View() == OnUpdateState(old(View()), oldU, newU, env)
      ensures oldU.generation == newU.generation ==> View() == old(View())
      ensures forall n :: n != newU.Name() ==> SameFor(old(Server()), Server(), n)
    {
      if oldU.generation == newU.generation {
        return;
      }
      Reconcile(newU, env);
    }

    method OnDelete(u: CR, failed: set<Kind>)
      modifies this`configMaps, this`secrets, this`deployments, this`services, this`ingressRoutes, this`deletes
      ensures View() == OnDeleteState(old(View()), u, failed)
      ensures forall k :: Present(Server(), k, u.Name()) <==> Present(old(Server()), k, u.Name()) && k in failed
      ensures forall n :: n != u.Name() ==> SameFor(old(Server()), Server(), n)
    {
      DeleteAll(u.spec, failed);
      forall k, n {
        ClearedRemoves(old(Server()), u.Name(), failed, k, n);
      }
    }

    method OnSubResourceDelete(app: string, env: Env)
      modifies this
      ensures View() == OnSubResourceDeleteState(old(View()), app, env)
      ensures app !in crCache ==> View() == old(View())
    {
      if app == "" {
        return;
      }
      if app !in crCache {
        return;
      }
      Reconcile(crCache[app], env);
    }

    method OnConfigUpdate(app: string, at: int, ok: bool)
      modifies this`deployments
      ensures View() == OnConfigUpdateState(old(View()), app, at, ok)
      ensures deployments.Keys == old(deployments).Keys
      ensures forall n :: n in deployments ==>
                deployments[n].(restartedAt := None) == old(deployments)[n].(restartedAt := None) &&
                (n != app ==> deployments[n] == old(deployments)[n])
      ensures app != "" && app in deployments ==>
                deployments[app].restartedAt == if ok then Some(at) else old(deployments)[app].restartedAt
    {
      if app == "" {
        return;
      }
      if ok && app in deployments {
        deployments := deployments[app := deployments[app].(restartedAt := Some(at))];
      }
    }

    // Any error of the Get, not only NotFound, leads to a Create, which fails when the CR is there.
    method CreateWorkerAppCR(spec: WorkerAppSpec, getOk: bool, writeOk: bool) returns (err: bool)
      modifies this`crs, this`watch
      ensures err <==> !writeOk || (!getOk && spec.Name() in old(crs))
      ensures View() == if err then old(View()) else ApplyState(old(View()), spec)
      ensures forall n :: n != spec.Name() ==> (n in crs <==> n in old(crs)) && (n in crs ==> crs[n] == old(crs)[n])
      ensures !err ==> spec.Name() in crs && crs[spec.Name()].spec == spec
      ensures !err && spec.Name() in old(crs) ==>
                var was, now := old(crs)[spec.Name()], crs[spec.Name()];
                && now.phase == was.phase && now.message == was.message
                && now.generation == was.generation + if was.spec == spec then 0 else 1
    {
      var name := spec.Name();
      if !getOk || name !in crs {
        err := !writeOk || name in crs;   // Create
        if !err {
          var cr := CR(spec, 1, "", "");
          crs, watch := crs[name := cr], watch + [Upsert(cr)];
        }
        return;
      }
      err := !writeOk;                    // Update
      if !err && crs[name].spec != spec {
        var cr := crs[name].(spec := spec, generation := crs[name].generation + 1);
        crs, watch := crs[name := cr], watch + [Upsert(cr)];
      }
    }

    method DeleteWorkerAppCR(name: string, ok: bool) returns (err: bool)
      modifies this`crs, this`watch
      ensures err <==> !ok || name !in old(crs)
      ensures View() == if err then old(View()) else RemoveState(old(View()), name)
      ensures crs == if err then old(crs) else old(crs) - {name}
    {
      err := !ok || name !in crs;
      if !err {
        watch := watch + [Removed(crs[name])];
        crs := crs - {name};
      }
    }
  }
}
