# Console control plane: model and proofs

A Dafny model of the parts of the console's control plane whose correctness depends on more than one call:
the connection pool for users' databases, the WorkerApp controller, the deploy pipeline, the job processor,
the user audit, identifier naming, worker settings, and the batch insert of usage reports. External calls
(pings, SQL statements, API server calls, HTTP posts) succeed or fail as parameters say; every theorem is for
all outcomes unless it names the ones it needs.

`dafny verify dfyconfig.toml` checks the whole project.

## Structure

| files | what they hold |
|---|---|
| `Common`, `Lists` | small datatypes; lists without repetition |
| `Recency`, `UserPool`, `RootPool` | the pool as a recency list, and the classes of `k8s/rdb.go` proved against it |
| `PoolRun`, `PoolInvariant`, `PoolTheorems`, `PoolResults` | the same pool under any number of goroutines, cut where they can interleave; what its calls return |
| `WorkerNames`, `Cluster`, `Controller` | worker objects, what a reconcile and a delete make of them, and the controller class |
| `ControllerRun`, `ControllerInvariant`, `ControllerTheorems`, `ControllerStatus` | whole runs of the controller with informer store and pending events; what a CR's status says |
| `Deploy`, `DeployInvariant`, `DeployTheorems`, `DeployDeletion` | tables, transactions and deploy jobs in any interleaving; what is left of a deleted worker |
| `EndToEnd` | pipeline and controller composed, from the active version to the Deployment's image |
| `Processor` | the bounded queue and its workers |
| `Decimal`, `Naming`, `Uids`, `Like`, `Schemas` | identifiers, generated ids, SQL's LIKE, and users' schemas |
| `Paging`, `Audit`, `AuditTheorems` | the paged user scan and the two-sided repair |
| `Settings`, `SettingsTheorems` | environment and secrets: stored lists, sync jobs, ConfigMap and Secret |
| `Reports` | the text of the batch INSERT and its bindings |

Code that changes state is a class or a method with loops; its contract equates the new state with a function
of the old one, and the lemmas are about those functions. Runs are sequences of steps over an explicit state;
fields marked as history only record what happened and no step depends on them.

## Where the code does less than its comments say

The model follows the code, and the difference is stated by a lemma:

- The pool's fast path can return a handle another goroutine has just closed; `PoolTheorems.FastPathFresh` says exactly
  when it does not, `PoolTheorems.FastPathCanReturnClosed` shows that it can.
- A pool size below 1 still keeps one connection (`Recency.Capacity`).
- A Service is never updated, so its port follows the spec only if the Service was missing or had that port already
  (`Cluster.ServicePortTracksSpec`).
- Lost ConfigMaps and Secrets are not noticed (`ControllerTheorems.LossNoticed`), and a failed reconcile is not retried
  by a resync (`ControllerTheorems.ResyncRepairsNothing`).
- Two pool workers can leave a worker's CR and its active version apart (`DeployTheorems.OverlapGetsOutOfStep`), and a
  ConfigMap out of date (`SettingsTheorems.OverlapLeavesStaleEnv`). `DeployTheorems.InStepIff` and
  `SettingsTheorems.ConfigMapHolds` say for any schedule when they agree all the same.
- A deploy under way can write the CR of a deleted worker again; `DeployDeletion.GoneForGoodIff` says when. The handler
  sends the job that deletes the CR before it deletes the row (handlers/worker.handler.go:59-64), so even one pool worker
  can leave the CR behind, when a deploy is accepted in between (`DeployDeletion.EarlyDeleteLeavesCR`).
- The patterns `db_%` and `schema_%` match any character in place of the underscore (`Like.UserDatabases`,
  `Schemas.ListingExact`), so the audit also drops a database called `dbx`.
- The audit drops databases by their names without quotes, which the server folds to lower case. A listed `db_Alice` is
  never dropped, and the attempt costs user `alice` the database (`AuditTheorems.MixedCaseDropsLive`); that such names are
  absent is exactly what protects users' databases (`AuditTheorems.LiveDatabaseLost`) and lets audits converge
  (`AuditTheorems.AuditsConverge`).
- The audit's scan does not look at `rows.Err()`: rows lost that way cost their users the database
  (`AuditTheorems.LostRowsDropLive`). A listing without rows is a nil slice and switches the repair off, for good once an
  audit has dropped the last database (`AuditTheorems.AuditGetsStuck`). A database whose SQL user could not be created is
  never given one (`AuditTheorems.AuditHalfInits`, `AuditTheorems.HalfInitStays`); `AuditTheorems.SqlUserExactly` says when an
  audit makes an SQL user.
- Deleting a secret key writes that key to the Secret and removes all others (`SettingsTheorems.SecretMatchesList`).

## Model

| member | source | states |
|---|---|---|
| `Recency.ByRecencyUsers` | k8s/rdb.go:26-30 | The reference list ByRecency holds every user of a call history once and nobody else |
| `Recency.ByRecencyOrder` | k8s/rdb.go:26-30 | and is ordered by the position of each user's last call, latest first |
| `Recency.PoolIsMostRecent` | k8s/rdb.go:61-156 | For every pool size and every history of calls that can connect, with pings of resident connections failing at will, the pool's list is the first capacity-many users by recency |
| `Recency.SmallerPoolIsPrefix` | k8s/rdb.go:111-123 | What a smaller pool holds after a history, a larger one holds at its front in the same order |
| `Recency.ConnectsExactly` | k8s/rdb.go:125-155 | Connecting succeeds exactly if one of the first three attempts does and only failed pings come before it |
| `Recency.FailedCallDrops` | k8s/rdb.go:105-155 | A call that finds no healthy connection and cannot connect has dropped its user from the pool and made room all the same |
| `UserPool.UserDbEntry.Close` | k8s/rdb.go:45-52 | The entry loses its handle, and the server has just that handle open no more |
| `UserPool.UserDbManager.Evict` | k8s/rdb.go:111-123 | Makes room if and only if the pool is full, by dropping the least recently used user from map and list; what the server has open stays exactly the handles of the entries kept |
| `UserPool.UserDbManager.Dial` | k8s/rdb.go:125-155 | Connects exactly if one of at most three attempts does, before an sql.Open error; afterwards the server has open exactly the handles of the entries kept, so none of a failed attempt |
| `UserPool.UserDbManager.GetOrCreateUserDB` | k8s/rdb.go:61-156 | The class behaves as the recency list says, returns an open handle exactly when a ping or a connect succeeds, and leaves open on the server exactly the handles of the entries kept |
| `UserPool.UserDbManager.CloseAll` | k8s/rdb.go:159-165 | The server has no handle open; map and list keep their entries |
| `RootPool.RootRDBManager.TryGetRootDB` | k8s/rdb.go:181-237 | Returns the root connection if a ping of it succeeds, else a new one if one of three attempts connects; the server then has open the handle returned and no other |
| `RootPool.RootRDBManager.Close` | k8s/rdb.go:245-255 | The server has no root handle open; the reference stays |
| `PoolInvariant.StepKeepsInv` | k8s/rdb.go:61-165 | Each step of each goroutine, fast path, slow path or closeAll, keeps map, list, handles, locks and recency stamps in agreement |
| `PoolTheorems.PoolSafe` | k8s/rdb.go:61-165 | In every run of any number of goroutines: map and list hold the same users once each by the same entries, the list is in order of last use, open handles are those of the kept entries and the one in flight, never more than the capacity |
| `PoolTheorems.OpenWithinCapacity` | k8s/rdb.go:111-155 | Even in the middle of a call there are never more open handles than the capacity |
| `PoolTheorems.OnlyConnectsAdd` | k8s/rdb.go:64-87 | Only a successful connect for a user puts that user into the pool; no stale entry brings an evicted user back |
| `PoolTheorems.FastPathMove` | k8s/rdb.go:78-81 | The fast path's move changes the order only if its entry is still the kept one; with a removed element nothing changes, even if the user has a new entry |
| `PoolTheorems.FastPathFresh` | k8s/rdb.go:71-82 | The handle the fast path returns is open exactly if its entry is still kept for the user and not closed |
| `PoolTheorems.FastPathCanReturnClosed` | k8s/rdb.go:71-82 | A run in which it returns a closed handle |
| `PoolTheorems.SoloIsAfterCall` | k8s/rdb.go:61-156 | A call no other goroutine interferes with leaves the concurrent pool with the list of the recency specification |
| `PoolResults.SoloReturns` | k8s/rdb.go:61-156 | and returns a handle exactly if the user's entry has one that answers a ping or a connect succeeds; that handle is then open and held by the user's entry |
| `PoolResults.CheckReturns` | k8s/rdb.go:94-109 | Under any schedule the double check returns the open handle of the entry it found healthy, and otherwise goes on, with the user no longer in the map |
| `PoolResults.ProbeReturns` | k8s/rdb.go:125-155 | A ping of a new handle puts it into the pool and returns it, or closes it; after the third failure the call gives up |
| `PoolResults.ReturnsExactly` | k8s/rdb.go:61-156 | Whenever any call returns in any schedule: a handle found healthy on the fast path, or an open one its user's entry holds; or none, exactly after a failing open or a third failing ping |
| `PoolResults.CloseAllCloses` | k8s/rdb.go:159-165 | closeAll closes every handle, and map and list stay |
| `WorkerNames.WorkerNameInjective` | k8s/controller/worker.go:18-20 | With dash-free worker ids two workers share a name exactly if they are the same worker |
| `WorkerNames.WorkerNameCollides` | k8s/controller/worker.go:18-20 | Without that restriction two workers can collide |
| `WorkerNames.EnvNameInjective` | k8s/controller/worker.go:35-37 | ConfigMap names tell workers apart |
| `WorkerNames.SecretNameInjective` | k8s/controller/worker.go:39-41 | Secret names tell workers apart |
| `Cluster.ReconcileReachesSpec` | k8s/controller/worker.go:46-245 | From any cluster state, a reconcile whose calls succeed leaves all five objects, Deployment and IngressRoute as the spec renders them, existing ConfigMap, Secret and Service as they were |
| `Cluster.RenderedRefers` | k8s/controller/worker.go:46-245 | What a reconcile leaves refers to itself: the Deployment takes its environment from the worker's ConfigMap and its secrets from the worker's Secret, the IngressRoute leads to its Service under the worker's host |
| `Cluster.HostsApart` | k8s/controller/worker.go:199-199 | With dash-free worker ids two workers are served under one host exactly if they are the same worker |
| `Cluster.StopsAtFirstFailure` | k8s/controller/worker.controller.go:138-162 | A reconcile deals with the kinds in order up to the first whose calls fail: those before are as after a complete one, that and the later ones as before |
| `Cluster.ReconcileIdempotent` | k8s/controller/worker.controller.go:129-166 | Reconciling after a reconcile that went however far gives what reconciling once gives |
| `Cluster.ReconcileFramed` | k8s/controller/worker.controller.go:129-166 | No object of another worker with a dash-free id is touched, also when the reconcile stops part-way |
| `Cluster.ServicePortTracksSpec` | k8s/controller/worker.go:122-148 | The Service's port is the spec's afterwards exactly if the Service was missing or had it before |
| `Cluster.ClearedRemoves` | k8s/controller/worker.go:248-258 | DeleteAll removes exactly the worker's objects whose delete succeeds and nothing of other names |
| `Cluster.ClearUndoesReconcile` | k8s/controller/worker.go:248-258 | DeleteAll after a reconcile leaves what DeleteAll without it would leave |
| `Controller.WorkerController.UpdateStatus` | k8s/controller/controller.go:86-106 | Phase and message of the named CR become those given if the calls succeed, every other CR stays, and a watch event is caused exactly if that changes something |
| `Controller.WorkerController.EnsureConfigMap` | k8s/controller/worker.go:151-169 | Creates an empty ConfigMap if there is none, never changes one, and fails exactly if a call it needs fails |
| `Controller.WorkerController.EnsureSecret` | k8s/controller/worker.go:172-191 | Creates an empty Secret if there is none, never changes one, and fails exactly if a call it needs fails |
| `Controller.WorkerController.EnsureDeployment` | k8s/controller/worker.go:46-119 | Creates or overwrites the Deployment with the spec's rendering, or changes nothing |
| `Controller.WorkerController.EnsureService` | k8s/controller/worker.go:122-148 | Creates the Service if there is none and never changes one |
| `Controller.WorkerController.EnsureIngressRoute` | k8s/controller/worker.go:194-245 | Creates or overwrites the IngressRoute with the spec's rendering, or changes nothing |
| `Controller.WorkerController.Reconcile` | k8s/controller/worker.controller.go:129-166 | The step-by-step reconcile with its early returns is the function the run lemmas are about: if the last status write goes through, the CR says Running exactly if all five calls succeeded and otherwise Failed with the error; it changes no other CR and nothing the cluster holds under another name |
| `Controller.WorkerController.DeleteAll` | k8s/controller/worker.go:248-258 | Removes what can be deleted and causes one deletion event per watched object really removed |
| `Controller.WorkerController.OnUpdate` | k8s/controller/worker.controller.go:35-46 | An unchanged generation changes nothing at all; otherwise the new CR is reconciled and nothing under another name changes |
| `Controller.WorkerController.OnDelete` | k8s/controller/worker.controller.go:48-60 | Of the CR's objects those remain whose delete fails; nothing under another name and no CR changes |
| `Controller.WorkerController.OnSubResourceDelete` | k8s/controller/worker.controller.go:64-89 | Reconciles the store's CR named by the app label; without one nothing changes |
| `Controller.WorkerController.OnConfigUpdate` | k8s/controller/worker.controller.go:93-125 | The Deployment named by the app label, if there is one and the calls succeed, has the given time as its restart stamp; nothing else changes |
| `Controller.WorkerController.CreateWorkerAppCR` | k8s/controller/worker.controller.go:187-222 | Creates or overwrites the CR; fails on an existing CR when the Get fails |
| `Controller.WorkerController.DeleteWorkerAppCR` | k8s/controller/worker.controller.go:224-228 | Removes the CR, or reports an error and changes nothing |
| `ControllerInvariant.StepKeepsInv` | k8s/controller/worker.controller.go:26-166 | Every step keeps: pending events replayed over store and handlers' view give the newer view, objects have owners, successful reconciles are current and healing |
| `ControllerTheorems.NoOrphans` | k8s/controller/worker.controller.go:48-60 | In every run: a name without CR and without pending CR event has no object but those whose delete call failed |
| `ControllerTheorems.NoOrphansIfDeletesSucceed` | k8s/controller/worker.controller.go:48-60 | and none at all if delete calls succeed |
| `ControllerTheorems.Converged` | k8s/controller/worker.controller.go:26-89 | In every run: a CR with no pending event whose last reconcile succeeded has Deployment and IngressRoute as its current spec renders them, and the three watched objects unless a deletion event is pending, although older updates may be handled after a reconcile from the newer store |
| `ControllerTheorems.SelfHealing` | k8s/controller/worker.controller.go:64-89 | In every reachable state: each watched object of a successfully reconciled CR exists or an event that reconciles it again is pending |
| `ControllerTheorems.LossNoticed` | k8s/controller/controller.go:46-71 | In every reachable state the loss of an object adds one event with its worker's name if the object was there and is a Deployment, Service or IngressRoute, and otherwise none |
| `ControllerTheorems.ResyncRepairsNothing` | k8s/controller/worker.controller.go:41-43 | In every reachable state a periodic update event only joins the pending handler calls, and handling a call with unchanged generation only uses it up |
| `ControllerTheorems.InternalStepDrains` | k8s/controller/worker.controller.go:35-89 | Every informer or handler step makes a weighted sum of the pending events strictly smaller, whatever its calls do |
| `ControllerTheorems.CascadeBounded` | k8s/controller/worker.controller.go:35-89 | Without outside actions the controller makes at most as many steps as its events weigh |
| `ControllerTheorems.Drains` | k8s/controller/worker.controller.go:26-89 | and from every state it can reach the end of all events by its own steps |
| `ControllerTheorems.QuiescentMeansConverged` | k8s/controller/worker.controller.go:26-166 | After any run, with nothing pending, a name without CR has no object but those whose delete failed, and a CR has been reconciled: it failed at that, or its watched objects are there as its current spec renders Deployment and IngressRoute |
| `ControllerTheorems.EventuallyInOrder` | k8s/controller/worker.controller.go:26-166 | and from wherever a run stopped, the controller's own steps bring every name there; a CR whose reconcile failed before and has no event pending stays failed |
| `ControllerStatus.ReconcileSays` | k8s/controller/worker.controller.go:129-166 | What a reconcile writes into the status of its CR, in terms of how far it got and which of its two status writes went through |
| `ControllerStatus.StatusIsTrue` | k8s/controller/worker.controller.go:129-166 | In every reachable state: if the last status write of the last reconcile of a CR went through and the CR and its objects were not deleted since, it says Running if and only if that reconcile succeeded, and otherwise Failed with its error; if only the first write did, Deploying |
| `Deploy.ControlPlane.CreateDeployVersionForOwner` | dblayer/worker.actions.go:155-183 | Inserts a loading version for the worker found by id and owner, or leaves both tables alone |
| `Deploy.ControlPlane.UpdateDeployVersionStatus` | dblayer/worker.actions.go:39-45 | Changes the status of that version and no other row or column, or nothing |
| `Deploy.ControlPlane.UpdateWorkerStatus` | dblayer/worker.actions.go:235-241 | Changes the status of exactly the workers with that id and no other row or column, or nothing |
| `Deploy.ControlPlane.DeployVersionSuccess` | dblayer/worker.actions.go:208-232 | Both updates, each of its one row, or after any failure neither |
| `Deploy.ControlPlane.DeleteWorkerByOwner` | dblayer/worker.actions.go:139-152 | Deletes the worker found by id and owner with all its versions, or reports not found |
| `Deploy.ControlPlane.Do` | handlers/jobs/worker.jobs.go:45-68 | The job with its error branches is the function AloneIsJob relates to the interleaved steps; without an error the CR has the version's image and port, and version and worker change together exactly if the commit goes through; an error marks the version, and the worker once it is loaded |
| `DeployInvariant.StepKeepsInv` | handlers/jobs/worker.jobs.go:45-68 | Every step of every pool worker, new deploys and cascading deletes keep rows, jobs, CR writers and active versions consistent |
| `DeployTheorems.ActiveVersionSound` | scripts/init.sql:53-61 | In every interleaving: an active version exists, is the worker's own, and has status success |
| `DeployTheorems.VersionsBelong` | scripts/init.sql:53-61 | Every version row belongs to a live worker and is as inserted but for its status |
| `DeployTheorems.SettledStatusIsFinal` | dblayer/worker.actions.go:208-232 | A status that is success or error never changes again, over any continuation of any run |
| `DeployTheorems.StatusChanges` | handlers/jobs/worker.jobs.go:45-68 | A version becomes a success only by the commit of a job that wrote its CR, and an error only by a job whose load or CR write failed; it never goes back to loading |
| `DeployTheorems.InStepUnlessSpoiled` | handlers/jobs/worker.jobs.go:45-68 | A worker whose jobs never overlapped and whose success transactions went through has CR and active version in agreement, with any pool size |
| `DeployTheorems.SerialInStep` | handlers/jobs/worker.jobs.go:45-68 | With one pool worker and no failing success transaction, between jobs every live worker with a CR has the image and port of its active version |
| `DeployTheorems.InStepIff` | handlers/jobs/worker.jobs.go:45-68 | With any interleaving, a live worker with a CR agrees with its active version exactly if there is one and the job that wrote the CR last deployed the same image and port |
| `DeployTheorems.OverlapGetsOutOfStep` | k8s/processor.go:37-46 | A run of two pool workers after which they disagree |
| `DeployTheorems.AloneIsJob` | handlers/jobs/worker.jobs.go:45-68 | The interleaved steps of one job without interference amount to the whole job |
| `DeployDeletion.GoneForGoodIff` | handlers/jobs/worker.jobs.go:198-201 | In every reachable state, with any number of pool workers: a worker whose row and CR are deleted never gets a CR again, whatever follows, if and only if no job has read its row and is yet to write its CR |
| `DeployDeletion.SerialDeleteIsFinal` | handlers/jobs/worker.jobs.go:198-201 | A CR deleted while no deploy job runs, as with one pool worker, after the row was deleted, is gone for good |
| `DeployDeletion.EarlyDeleteLeavesCR` | handlers/worker.handler.go:59-71 | From every reachable idle state with a deploy accepted after the delete job: if the CR is deleted first, the deploy runs, and then the row is deleted, the CR outlives its worker |
| `EndToEnd.Projects` | handlers/jobs/worker.jobs.go:52-56 | A run of pipeline and controller together is a run of each, with the jobs' CR writes and deletions as the controller's outside actions |
| `EndToEnd.WriteArrives` | handlers/jobs/worker.jobs.go:52-56 | A job's successful write leaves the CR of its worker with the owner's key and the version's image and port |
| `EndToEnd.DeployedIff` | handlers/jobs/worker.jobs.go:45-68 | In any schedule, whatever failed, with no event pending: a live worker with a successfully reconciled CR runs the image and port of its active version if and only if CR and version are in step, that is if the job that wrote the CR last deployed the active version's image and port |
| `EndToEnd.ActiveVersionDeployed` | handlers/jobs/worker.jobs.go:45-68 | With no event pending, a name without CR has no object but those whose delete failed; and the active version runs if the worker's own jobs never overlapped, its own success transactions went through and none is about to commit, whatever happened to others |
| `EndToEnd.SerialActiveVersionDeployed` | k8s/processor.go:37-46 | With one pool worker and no failing success transaction that holds whenever no job is running |
| `EndToEnd.DeletedLeavesNothing` | handlers/worker.handler.go:54-74 | After row and CR of a worker are gone and no job is about to write the CR: whatever follows, whenever no event is pending, its name has no object but those whose delete failed, and none at all if deletes succeed |
| `Processor.JobsConserved` | k8s/processor.go:20-46 | In every schedule each accepted job is in exactly one of the queue, one worker's hands or done, and the queue and the workers stay within their sizes |
| `Processor.AcceptsExactly` | k8s/processor.go:33-46 | In every reachable state a job can be submitted exactly if the processor is not closed and there is room in the buffer, or it is empty and a worker waits |
| `Processor.StartedInOrder` | k8s/processor.go:33-46 | Jobs started and then jobs queued are the jobs in the order of acceptance |
| `Processor.WorkersProgress` | k8s/processor.go:37-46 | Each worker step brings the work left down by one |
| `Processor.StuckMeansExecuted` | k8s/processor.go:37-46 | When no worker can go on, every accepted job was executed exactly once if and only if there are workers or the queue is empty |
| `Processor.DrainsAfterClose` | k8s/processor.go:27-46 | From any reachable state, closed or not, the workers' own steps empty queue and hands |
| `Processor.EveryJobExecuted` | k8s/processor.go:27-46 | so any run can be completed, without further submits, to one that executed every accepted job exactly once |
| `Decimal.PaddedReadsBack` | handlers/auth.utils.go:86-86 | A number below ten to the width is printed in exactly that many digits, which read back as the number |
| `Naming.SanitizeIdempotent` | k8s/rdb.go:258-262 | Sanitizing twice is sanitizing once |
| `Naming.SanitizeFixesExactlyClean` | k8s/rdb.go:258-262 | The identity exactly on strings without dash, dot and upper-case letter; results always are such |
| `Naming.SharedDatabase` | k8s/rdb.go:273-279 | Two ids get one database, and one SQL user, exactly if they differ only in case and in the choice among dash, dot and underscore |
| `Naming.DatabaseNameInjective` | k8s/rdb.go:273-279 | Clean ids get distinct databases, SQL users and schemas |
| `Naming.CleanNames` | k8s/rdb.go:273-308 | The names of a clean id are the id behind user_, db_ and schema_ |
| `Naming.DatabaseNameCollides` | k8s/rdb.go:258-279 | Two ids that share a database |
| `Naming.HexInjective` | handlers/auth.utils.go:90-95 | Hex strings of byte slices are equal exactly if the slices are |
| `Naming.HexReadsBack` | handlers/auth.utils.go:90-95 | Each byte is two hex digits, the higher first |
| `Naming.ResourceUids` | handlers/auth.utils.go:90-95 | Resource ids have 16 clean characters and different draws give different schema names |
| `Uids.LettersBeforeAt` | handlers/auth.utils.go:34-53 | The loops find the letters, lowered, of what precedes the first at sign, which LettersAre pins down |
| `Uids.LettersAre` | handlers/auth.utils.go:43-53 | They are the characters at all positions of ASCII letters, in order, each in lower case |
| `Uids.GenerateUID` | handlers/auth.utils.go:33-87 | For every email and every draw, the prefix and the padded number of the specification, of which UidLetters, NumberBytes and UidShape say what they are |
| `Uids.UidLetters` | handlers/auth.utils.go:34-68 | If at least four ASCII letters precede the first at sign the id begins with the first of them, six at most, lowered; otherwise with the word the byte chooses from the list of 50 |
| `Uids.NumberBytes` | handlers/auth.utils.go:74-74 | The random number has the four bytes as its digits to base 256, the first the most significant |
| `Uids.UidShape` | handlers/auth.utils.go:33-87 | Twelve characters: four to six lower-case letters, then digits reading back as the reduced random number |
| `Uids.UidsDiffer` | handlers/auth.utils.go:33-87 | Two ids are equal exactly if letters and reduced numbers are |
| `Uids.GeneratedUsersApart` | handlers/auth.utils.go:33-87 | Generated ids need no sanitizing, so different users have different databases and SQL users |
| `Like.UnderscoreIsAnyChar` | k8s/rdb.go:406-406 | A pattern p_% matches exactly what begins with p and has at least one more character |
| `Like.UserDatabases` | k8s/rdb.go:406-406 | The audit lists every database called db and more, underscore or not |
| `Like.UserSchemas` | k8s/rdb.go:333-333 | The same of the schema listing |
| `Schemas.UserDatabases.CreateSchema` | k8s/rdb.go:303-314 | On success the schema exists; a failing GRANT reports an error although the schema is there |
| `Schemas.UserDatabases.DeleteSchema` | k8s/rdb.go:317-325 | On success the schema does not exist |
| `Schemas.UserDatabases.ListSchemas` | k8s/rdb.go:328-347 | Returns the trimmed names of the rows that scan, or nothing when a call fails |
| `Schemas.SchemasFollowRequests` | k8s/rdb.go:303-325 | Over any requests of any users with any outcomes, a schema exists exactly if the user has a database and the last effective request about the schema was a create |
| `Schemas.ListingExact` | k8s/rdb.go:328-347 | The listing holds an id exactly if its schema's row scans or a row the wildcard let in is called that; if all rows scan it misses none, and it adds no foreign id exactly if each such row is an id too |
| `Schemas.ListIsSetOfIds` | k8s/rdb.go:303-347 | A user whose database starts without such schemas sees, after any requests, exactly the ids that stand and whose rows scan |
| `Paging.LoadAllUserUIDs` | handlers/jobs/auth.cron.go:83-98 | The loop with its stop condition gathers what the page-by-page scan says |
| `Paging.PagedScanExact` | dblayer/actions.go:79-97 | For any table of distinct uids and any page size, the scan returns exactly all uids just when no query loses rows or fails, with n/p + 1 queries; it never invents a uid |
| `Audit.UserAudit.InitUserRDB` | k8s/rdb.go:362-376 | The first failing statement decides whether database and SQL user are made |
| `Audit.UserAudit.CheckUserRDBInitialization` | handlers/jobs/auth.cron.go:123-138 | Makes exactly the databases and SQL users of users missing from the listing whose statements succeed |
| `Audit.UserAudit.CleanOrphanRDBs` | handlers/jobs/auth.cron.go:141-158 | Drops what the names of the listed databases of no loaded user fold to, for those whose drop succeeds, and nothing else |
| `Audit.UserAudit.CleanOrphanWorkers` | handlers/jobs/auth.cron.go:101-120 | Deletes exactly the CRs naming an owner not loaded whose delete succeeds |
| `Audit.UserAudit.Do` | handlers/jobs/auth.cron.go:34-80 | The whole audit with its early returns is the function the theorems are about |
| `AuditTheorems.RepairChanges` | handlers/jobs/auth.cron.go:67-76 | What a repair does to the difference between listed and needed databases: out goes what it made and the orphans it dropped, in come users' databases dropped by a name folding to theirs; after a nil listing no database changes |
| `AuditTheorems.RepairShrinks` | handlers/jobs/auth.cron.go:67-76 | Where listed names are lower-case, exactly the databases made and dropped leave the difference, and each was wrong |
| `AuditTheorems.ShrinksByOnePerCall` | handlers/jobs/auth.cron.go:123-158 | Where listed names are lower-case and ids clean, the difference shrinks by one per call that took effect |
| `AuditTheorems.DroppedExactly` | handlers/jobs/auth.cron.go:141-158 | A database is gone exactly if the audit gets there and can drop an orphan whose name folds to its own; an orphan is called db and more and belongs to no loaded user; only users' databases appear |
| `AuditTheorems.CRDeletedExactly` | handlers/jobs/auth.cron.go:101-120 | A CR is deleted exactly if the audit gets there, its owner is named and not loaded, and the delete succeeds |
| `AuditTheorems.LiveDatabaseLost` | k8s/rdb.go:391-398 | If the scan fails or is complete, a user's database is lost exactly if the audit gets there and can drop another database whose name differs in case only |
| `AuditTheorems.MixedCaseDropsLive` | k8s/rdb.go:391-398 | A state and an audit in which that happens |
| `AuditTheorems.LiveDatabasesStay` | handlers/jobs/auth.cron.go:141-158 | If the scan fails or is complete and listed names are lower-case, no user's database is dropped, whatever else fails |
| `AuditTheorems.LostRowsDropLive` | dblayer/actions.go:89-96 | For every scan that loses rows without an error there is a state in which the audit drops a user's database |
| `AuditTheorems.PerfectAudit` | handlers/jobs/auth.cron.go:34-80 | When every call succeeds, listed databases equal the users' if and only if there was a listing or there are no users, and listed names are lower-case; users without a database get their SQL user and every CR left has a user |
| `AuditTheorems.SettledStays` | handlers/jobs/auth.cron.go:34-80 | Once everything fits, further audits change nothing, whatever fails in them |
| `AuditTheorems.AuditGrows` | handlers/jobs/auth.cron.go:67-76 | An audit with a sound scan lets the difference grow exactly if it costs some user the database |
| `AuditTheorems.NeverGrows` | handlers/jobs/auth.cron.go:67-76 | Over any run of audits with sound scans, from lower-case names, the difference never grows |
| `AuditTheorems.LeavesRunIffHandled` | handlers/jobs/auth.cron.go:67-76 | From lower-case names, a wrong database is put right by a run of audits if and only if some audit of it finds a listing and its call about that database takes effect |
| `AuditTheorems.AuditsConverge` | handlers/jobs/auth.cron.go:34-80 | From any state, a run of audits with sound scans ends with exactly the users' databases if and only if listed names are lower-case and each wrong database is so handled |
| `AuditTheorems.AnchoredAuditsConverge` | handlers/jobs/auth.cron.go:34-80 | With some user's database at the start, or without users, there is always a listing while anything is wrong, so it only matters that each wrong database is handled |
| `AuditTheorems.StuckForever` | handlers/jobs/auth.cron.go:67-76 | Without a listed database no run of audits makes or drops one |
| `AuditTheorems.AuditGetsStuck` | handlers/jobs/auth.cron.go:67-76 | An audit after which that is so although a user has no database |
| `AuditTheorems.SqlUserExactly` | k8s/rdb.go:362-376 | With a sound scan over clean ids a user has an SQL user afterwards exactly if there was one, or the audit gets to the repair, finds the database missing and makes it |
| `AuditTheorems.HalfInitStays` | handlers/jobs/auth.cron.go:123-138 | A user with a database but no SQL user stays so over any run of audits from lower-case names |
| `AuditTheorems.AuditHalfInits` | k8s/rdb.go:362-376 | For any table an audit that brings a user there, for good |
| `Settings.FilterInPlace` | handlers/worker.handler.go:278-286 | Filtering through the aliased slice leaves exactly the other keys in order |
| `Settings.Contains` | handlers/worker.handler.go:289-295 | The loop finds a key exactly if it is listed |
| `Settings.WorkerSettings.SetWorkerEnv` | handlers/worker.handler.go:185-235 | Sets or deletes the one variable in the stored environment, keeps every other, and sends a job with all of it, or changes nothing; refuses the managed key; an error answer when only the send failed leaves the new environment stored |
| `Settings.WorkerSettings.SetWorkerSecrets` | handlers/worker.handler.go:255-313 | Stores the edited key list and sends a job with the one key and value, or changes nothing; the answer tells which call failed |
| `Settings.WorkerSettings.SyncEnv` | handlers/jobs/worker.jobs.go:98-117 | Replaces the ConfigMap's data if it exists and both calls succeed |
| `Settings.WorkerSettings.SyncSecret` | handlers/jobs/worker.jobs.go:147-170 | Replaces the Secret's data if it exists and both calls succeed |
| `SettingsTheorems.ConfigMapHolds` | handlers/jobs/worker.jobs.go:98-117 | Under any schedule, whatever failed, a ConfigMap is what the stored update of its ticket made, or empty; it equals the stored environment if and only if that equals the update stored last |
| `SettingsTheorems.EnvSynced` | handlers/jobs/worker.jobs.go:98-117 | In any run in which no env job overtakes another, with none waiting, the last update's job sent, and the ConfigMap holding what the env job run last carried, it is the stored environment, whatever secret jobs, lost jobs and reconciles did |
| `SettingsTheorems.SerialEnvSynced` | k8s/processor.go:37-46 | So it is with one pool worker |
| `SettingsTheorems.OverlapLeavesStaleEnv` | handlers/jobs/worker.jobs.go:98-117 | For every key and two values, a run of two pool workers that leaves the older value |
| `SettingsTheorems.OnlyStoredEnvironments` | handlers/worker.handler.go:199-202 | After any run of requests one at a time and any schedule of jobs the managed key is not stored, the ConfigMap is empty or a once stored environment, and the Secret has one key at most |
| `SettingsTheorems.EnvMembers` | handlers/worker.handler.go:204-224 | After any run of requests one at a time and any schedule of jobs the stored environment has a variable exactly if the last stored request about it set it, and then with that request's value |
| `SettingsTheorems.KeyListMembers` | handlers/worker.handler.go:275-299 | After any run of requests one at a time the list has no duplicates and holds a key exactly if the last stored request about it set it |
| `SettingsTheorems.KeyListOrder` | handlers/worker.handler.go:275-299 | and is ordered by when each key came in since it was last deleted |
| `SettingsTheorems.SinceLastDeleted` | handlers/worker.handler.go:275-299 | what that time is: no deletion since, and any earlier setting was followed by a deletion before it |
| `SettingsTheorems.SecretHolds` | handlers/jobs/worker.jobs.go:147-170 | Under any schedule, whatever failed, a Secret holds just the key of the request of its ticket, or nothing; its keys are the listed ones if and only if that key alone is listed, or none |
| `SettingsTheorems.SecretMatchesList` | handlers/worker.handler.go:307-310 | In any run in which no secret job overtakes another, with none waiting, the last request's sent and the Secret holding what the one run last carried, its keys are the listed ones if and only if the last request set its key and every other key's last request was a deletion |
| `SettingsTheorems.SerialSecretMatchesList` | k8s/processor.go:37-46 | So it is with one pool worker |
| `SettingsTheorems.SecretAfterRequest` | handlers/worker.handler.go:307-310 | Right after a request's own job they are so exactly if the request set a key and no other was listed |
| `Reports.BatchSaveCombinatorResourceReports` | dblayer/actions.go:289-309 | No statement for no reports; otherwise the loop's text and values are those BatchBindsReports reads back |
| `Reports.NamesOfQuery` | dblayer/actions.go:295-295 | Read back out of the text, the list between the first parentheses names these five columns in this order |
| `Reports.BatchBindsReports` | dblayer/actions.go:289-309 | For any reports, reading column names and placeholders back out of the text gives five columns and 1 to 5n in order, and the j-th placeholder of group i is bound to what the column named at j is to hold of report i |
| `Reports.PlaceholderBinding` | dblayer/actions.go:297-305 | Placeholder k is bound to what the column named at (k-1) mod 5 is to hold of report (k-1) div 5 |

## Left out

- Handlers of the controller running at the same time: each handler is one step. Two reconciles, or a reconcile and a delete, overlapping call by call can leave orphans.
- Relists, tombstones and missed watch events: the watch delivers every CR change once and in order, and deletions of watched objects as events of their own in any order.
- CRs without a spec, which the handlers ignore; and CR names other than the one derived from the spec, which the only caller always passes (handlers/jobs/worker.jobs.go:52-56).
- API calls that report an error although they took effect: a failed call changes nothing.
- Fields of the Deployment that no worker decides (replicas, affinity, selector), and edits of existing Deployments, Services and IngressRoutes by others; their deletion by others is modelled.
- Requests about one worker that overlap: reading a row, storing it and sending the job are one step of `Settings`. Two at once can lose an update, and can send jobs in another order than the updates were stored.
- RWMutex fairness: who gets the lock next is arbitrary. Readers of the pool's map are one step each.
- The settings of a database handle (connection limits, lifetimes) and the DSN text beyond user and database.
- Other programs' connections on the database server: the pool's server and root's know only the handles opened here.
- Pings whose outcome contradicts the handle: a closed handle never answers, an open one may or may not.
- The users table in the deploy job's join: a missing user counts as a failing load. Worker ids are never reused, as they come from random UUIDs.
- Crashes of the control plane, which lose the queue. A lost job is as good as one whose first call fails.
- The processor as a class: a channel and its goroutines are a state and its steps. A send to a closed channel and a second close, which panic, are no steps.
- Go's 32-bit int in GenerateUID: with 64 bits the random number is never negative, and the shifts and ors of its four bytes are sums.
- Letters outside ASCII, which strings.ToLower also lowers, and invalid UTF-8 in an email.
- SchemaExists, DeleteUserRDB, size queries and ForceAnalyze: single statements.
- A listing of databases that loses rows without an error. It can only delay drops, and repeat creations that then change nothing but a missing SQL user.
- Statements that fail because an unquoted name in them is no identifier: a failing drop, whatever the reason, is a parameter.
- Users who come or go, and databases created by registrations, while an audit runs.
- The decoding and encoding of env_json and secrets_json, and the status column the sync jobs write.
- PostgreSQL's limit of 65535 parameters in one statement, and the types of the columns.
- HTTP handling, tokens, password hashing, cron tickers, custom domains, verification codes, RDB and KV resource status: linear flows or wrappers.
- The order of rows in the schema listing, which is whatever the server gives.
