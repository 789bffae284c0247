/**
 The cluster objects of one worker and what a reconcile or a delete makes of them
 (k8s/controller/worker.go). Objects are maps from name to object, one map per kind;
 every API call succeeds or fails, and a failed call changes nothing.
 */
module Cluster {
  import opened Common
  import opened WorkerNames

  datatype WorkerAppSpec = WorkerAppSpec(workerID: string, ownerID: string, ownerSK: string, image: string, port: int) {
    function Name(): string { WorkerName(workerID, ownerID) }
    function LabelSet(): Labels { Labels(Name(), workerID, ownerID) }
  }

  datatype Labels = Labels(app: string, workerID: string, ownerID: string)

  datatype Deployment = Deployment(labels: Labels, image: string, containerPort: int, ownerID: string, ownerSK: string,
                                   envFrom: string, secretFrom: string, restartedAt: Option<int>)
  datatype Service = Service(labels: Labels, port: int)
  datatype ConfigMap = ConfigMap(labels: Labels, data: map<string, string>)
  datatype IngressRoute = IngressRoute(labels: Labels, host: string, service: string, port: int)

  datatype Kind = ConfigMapKind | SecretKind | DeploymentKind | ServiceKind | IngressRouteKind

  // Secrets have the shape of ConfigMaps here: labels and string data.
  datatype Objects = Objects(configMaps: map<string, ConfigMap>, secrets: map<string, ConfigMap>,
                             deployments: map<string, Deployment>, services: map<string, Service>,
                             ingressRoutes: map<string, IngressRoute>)

  // The worker called n has an object of kind k.
  predicate Present(o: Objects, k: Kind, n: string) {
    match k
    case ConfigMapKind => EnvName(n) in o.configMaps
    case SecretKind => SecretName(n) in o.secrets
    case DeploymentKind => n in o.deployments
    case ServiceKind => n in o.services
    case IngressRouteKind => n in o.ingressRoutes
  }

  // The kinds whose deletions the controller watches.
  predicate Watched(k: Kind) {
    k.DeploymentKind? || k.ServiceKind? || k.IngressRouteKind?
  }

  function RenderDeployment(w: WorkerAppSpec): Deployment {
    Deployment(w.LabelSet(), w.image, Int32(w.port), w.ownerID, w.ownerSK,
               EnvName(w.Name()), SecretName(w.Name()), None)
  }

  function RenderService(w: WorkerAppSpec): Service {
    Service(w.LabelSet(), Int32(w.port))
  }

  function RenderIngressRoute(w: WorkerAppSpec, domain: string): IngressRoute {
    IngressRoute(w.LabelSet(), w.workerID + "-" + w.ownerID + ".worker." + domain, w.Name(), w.port)
  }

  function EmptyData(w: WorkerAppSpec): ConfigMap {
    ConfigMap(w.LabelSet(), map[])
  }

  // Does the Get of an Ensure call succeed (NotFound counts as success), and would its Create or Update?
  datatype Call = Call(getOk: bool, writeOk: bool)

  datatype Calls = Calls(configMap: Call, secret: Call, deployment: Call, service: Call, ingressRoute: Call)

  // Deployments and IngressRoutes are always written; the other kinds only when missing.
  predicate Fails(o: Objects, n: string, k: Kind, call: Call) {
    !call.getOk || (!call.writeOk && (k.DeploymentKind? || k.IngressRouteKind? || !Present(o, k, n)))
  }

  // How many of the five Ensure calls, in the order reconcile makes them, succeed before the first failure.
  function Progress(o: Objects, n: string, c: Calls): (done: nat)
    ensures done <= 5
  {
    if Fails(o, n, ConfigMapKind, c.configMap) then 0
    else if Fails(o, n, SecretKind, c.secret) then 1
    else if Fails(o, n, DeploymentKind, c.deployment) then 2
    else if Fails(o, n, ServiceKind, c.service) then 3
    else if Fails(o, n, IngressRouteKind, c.ingressRoute) then 4
    else 5
  }

  function IfMissing<V>(m: map<string, V>, n: string, v: V): map<string, V> {
    if n in m then m else m[n := v]
  }

  // The objects once the first `done` Ensure calls of a reconcile have been made.
  function Reconciled(o: Objects, w: WorkerAppSpec, domain: string, done: nat): Objects {
    var n := w.Name();
    Objects(
      if done >= 1 then IfMissing(o.configMaps, EnvName(n), EmptyData(w)) else o.configMaps,
      if done >= 2 then IfMissing(o.secrets, SecretName(n), EmptyData(w)) else o.secrets,
      if done >= 3 then o.deployments[n := RenderDeployment(w)] else o.deployments,
      if done >= 4 then IfMissing(o.services, n, RenderService(w)) else o.services,
      if done >= 5 then o.ingressRoutes[n := RenderIngressRoute(w, domain)] else o.ingressRoutes)
  }

  // The objects after DeleteAll, when exactly the deletes of the kinds in `failed` fail.
  function Cleared(o: Objects, n: string, failed: set<Kind>): Objects {
    Objects(
      if ConfigMapKind in failed then o.configMaps else o.configMaps - {EnvName(n)},
      if SecretKind in failed then o.secrets else o.secrets - {SecretName(n)},
      if DeploymentKind in failed then o.deployments else o.deployments - {n},
      if ServiceKind in failed then o.services else o.services - {n},
      if IngressRouteKind in failed then o.ingressRoutes else o.ingressRoutes - {n})
  }

  // Everything the cluster holds under the name n is the same in both.
  ghost predicate SameFor(o: Objects, p: Objects, n: string) {
    && (forall k :: Present(o, k, n) <==> Present(p, k, n))
    && (Present(o, ConfigMapKind, n) ==> o.configMaps[EnvName(n)] == p.configMaps[EnvName(n)])
    && (Present(o, SecretKind, n) ==> o.secrets[SecretName(n)] == p.secrets[SecretName(n)])
    && (Present(o, DeploymentKind, n) ==> o.deployments[n] == p.deployments[n])
    && (Present(o, ServiceKind, n) ==> o.services[n] == p.services[n])
    && (Present(o, IngressRouteKind, n) ==> o.ingressRoutes[n] == p.ingressRoutes[n])
  }

  // From any objects at all, a reconcile whose calls succeed leaves all five objects, Deployment and
  // IngressRoute as the spec renders them and what ConfigMap, Secret and Service held before.
  lemma ReconcileReachesSpec(o: Objects, w: WorkerAppSpec, domain: string)
    ensures var n, r := w.Name(), Reconciled(o, w, domain, 5);
            && (forall k :: Present(r, k, n))
            && r.deployments[n] == RenderDeployment(w)
            && r.ingressRoutes[n] == RenderIngressRoute(w, domain)
            && r.configMaps[EnvName(n)] ==
                 (if Present(o, ConfigMapKind, n) then o.configMaps[EnvName(n)] else EmptyData(w))
            && r.secrets[SecretName(n)] ==
                 (if Present(o, SecretKind, n) then o.secrets[SecretName(n)] else EmptyData(w))
            && r.services[n] == (if Present(o, ServiceKind, n) then o.services[n] else RenderService(w))
  {
    forall k ensures Present(Reconciled(o, w, domain, 5), k, w.Name()) {
      match k
      case ConfigMapKind =>
      case SecretKind =>
      case DeploymentKind =>
      case ServiceKind =>
      case IngressRouteKind =>
    }
  }

  // What a reconcile puts there refers to what it puts there: the Deployment takes its environment from the
  // worker's own ConfigMap and Secret, and the IngressRoute leads to the worker's own Service.
  lemma RenderedRefers(o: Objects, w: WorkerAppSpec, domain: string)
    ensures var n, r := "w-" + w.workerID + "-" + w.ownerID, Reconciled(o, w, domain, 5);
            && n in r.deployments && n in r.ingressRoutes && n in r.services
            && r.deployments[n].envFrom == n + "-env" && n + "-env" in r.configMaps
            && r.deployments[n].secretFrom == n + "-secret" && n + "-secret" in r.secrets
            && r.ingressRoutes[n].service == n
            && r.ingressRoutes[n].host == w.workerID + "-" + w.ownerID + ".worker." + domain
            && r.deployments[n].image == w.image && r.deployments[n].ownerID == w.ownerID
            && r.deployments[n].ownerSK == w.ownerSK && r.deployments[n].restartedAt == None
            && r.deployments[n].labels == r.ingressRoutes[n].labels == Labels(n, w.workerID, w.ownerID)
  {
    ReconcileReachesSpec(o, w, domain);
    assert w.Name() == "w-" + w.workerID + "-" + w.ownerID;
    assert forall k :: Present(Reconciled(o, w, domain, 5), k, w.Name());
    assert Present(Reconciled(o, w, domain, 5), ConfigMapKind, w.Name());
    assert Present(Reconciled(o, w, domain, 5), SecretKind, w.Name());
    assert Present(Reconciled(o, w, domain, 5), ServiceKind, w.Name());
  }

  // Different workers are served under different hosts.
  lemma HostsApart(v: WorkerAppSpec, w: WorkerAppSpec, domain: string)
    requires DashFree(v.workerID) && DashFree(w.workerID)
    ensures RenderIngressRoute(v, domain).host == RenderIngressRoute(w, domain).host <==>
            v.workerID == w.workerID && v.ownerID == w.ownerID
  {
    var suffix := ".worker." + domain;
    var a, b := v.workerID + "-" + v.ownerID, w.workerID + "-" + w.ownerID;
    assert (a + suffix)[..|a|] == a && (b + suffix)[..|b|] == b;
    assert RenderIngressRoute(v, domain).host == a + suffix && RenderIngressRoute(w, domain).host == b + suffix;
    WorkerNameInjective(v.workerID, v.ownerID, w.workerID, w.ownerID);
    assert v.Name() == "w-" + a && w.Name() == "w-" + b;
    assert ("w-" + a)[2..] == a && ("w-" + b)[2..] == b;
  }

  // The order in which a reconcile deals with the kinds.
  const ORDER: seq<Kind> := [ConfigMapKind, SecretKind, DeploymentKind, ServiceKind, IngressRouteKind]

  function CallOf(c: Calls, k: Kind): Call {
    match k
    case ConfigMapKind => c.configMap
    case SecretKind => c.secret
    case DeploymentKind => c.deployment
    case ServiceKind => c.service
    case IngressRouteKind => c.ingressRoute
  }

  ghost predicate SameOfKind(o: Objects, p: Objects, k: Kind) {
    match k
    case ConfigMapKind => o.configMaps == p.configMaps
    case SecretKind => o.secrets == p.secrets
    case DeploymentKind => o.deployments == p.deployments
    case ServiceKind => o.services == p.services
    case IngressRouteKind => o.ingressRoutes == p.ingressRoutes
  }

  // A reconcile gets to the first kind in this order whose calls fail: the kinds before it are as after a
  // complete reconcile, that kind and those after it as they were.
  lemma StopsAtFirstFailure(o: Objects, w: WorkerAppSpec, domain: string, c: Calls, i: nat)
    requires i < 5
    ensures var done := Progress(o, w.Name(), c);
            && (i < done ==> !Fails(o, w.Name(), ORDER[i], CallOf(c, ORDER[i])))
            && (i == done ==> Fails(o, w.Name(), ORDER[i], CallOf(c, ORDER[i])))
            && SameOfKind(Reconciled(o, w, domain, done),
                          if i < done then Reconciled(o, w, domain, 5) else o, ORDER[i])
  {
    hide Fails;
    assert i == 0 || i == 1 || i == 2 || i == 3 || i == 4;
  }

  // Reconciling again, after a reconcile that got to the end or after one that stopped part-way,
  // is the same as reconciling once.
  lemma ReconcileIdempotent(o: Objects, w: WorkerAppSpec, domain: string, done: nat)
    ensures Reconciled(Reconciled(o, w, domain, done), w, domain, 5) == Reconciled(o, w, domain, 5)
  {
    var n := w.Name();
    var d, r := RenderDeployment(w), RenderIngressRoute(w, domain);
    assert o.deployments[n := d][n := d] == o.deployments[n := d];
    assert o.ingressRoutes[n := r][n := r] == o.ingressRoutes[n := r];
  }

  // A reconcile, complete or not, leaves the objects of every other worker alone.
  lemma ReconcileFramed(o: Objects, w: WorkerAppSpec, domain: string, done: nat, workerID: string, ownerID: string)
    requires DashFree(w.workerID) && DashFree(workerID)
    requires (workerID, ownerID) != (w.workerID, w.ownerID)
    ensures SameFor(o, Reconciled(o, w, domain, done), WorkerName(workerID, ownerID))
  {
    WorkerNameInjective(w.workerID, w.ownerID, workerID, ownerID);
    ReconcileFramedByName(o, w, domain, done, WorkerName(workerID, ownerID));
  }

  lemma ReconcileFramedByName(o: Objects, w: WorkerAppSpec, domain: string, done: nat, n: string)
    requires n != w.Name()
    ensures SameFor(o, Reconciled(o, w, domain, done), n)
  {
    EnvNameInjective(n, w.Name());
    SecretNameInjective(n, w.Name());
  }

  // A Service is never updated, so after a reconcile its port is the spec's exactly when it was
  // missing or already had that port.
  lemma ServicePortTracksSpec(o: Objects, w: WorkerAppSpec, domain: string)
    ensures var n := w.Name();
            (Reconciled(o, w, domain, 5).services[n].port == Int32(w.port)) <==>
            (n in o.services ==> o.services[n].port == Int32(w.port))
  {
    ReconcileReachesSpec(o, w, domain);
    assert Present(o, ServiceKind, w.Name()) <==> w.Name() in o.services;
  }

  // DeleteAll removes exactly the objects whose delete did not fail and touches no other name.
  lemma ClearedRemoves(o: Objects, n: string, failed: set<Kind>, k: Kind, m: string)
    ensures Present(Cleared(o, n, failed), k, m) <==> Present(o, k, m) && (m != n || k in failed)
    ensures m != n ==> SameFor(o, Cleared(o, n, failed), m)
  {
    EnvNameInjective(m, n);
    SecretNameInjective(m, n);
  }

  // DeleteAll undoes a reconcile, however far that got: what remains is what it would have left without it.
  lemma ClearUndoesReconcile(o: Objects, w: WorkerAppSpec, domain: string, done: nat)
    ensures Cleared(Reconciled(o, w, domain, done), w.Name(), {}) == Cleared(o, w.Name(), {})
  {
    var n := w.Name();
    var r := Reconciled(o, w, domain, done);
    assert r.configMaps - {EnvName(n)} == o.configMaps - {EnvName(n)};
    assert r.secrets - {SecretName(n)} == o.secrets - {SecretName(n)};
    assert r.deployments - {n} == o.deployments - {n};
    assert r.services - {n} == o.services - {n};
    assert r.ingressRoutes - {n} == o.ingressRoutes - {n};
  }
}
