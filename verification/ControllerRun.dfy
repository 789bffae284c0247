/**
 Whole runs of the WorkerApp controller: CRs are applied and removed, watched objects disappear and
 configuration changes at any moment, while the informer delivers and the handlers run, one at a time,
 with any API call failing. History is kept beside the state: what the CR handlers have been told,
 how the last reconcile of each name went, and which objects a failed delete left behind.
 */
module ControllerRun {
  import opened WorkerNames
  import opened Cluster
  import opened Controller

  datatype Outcome = Succeeded(spec: WorkerAppSpec) | Failed

  // The last status write of a reconcile that went through: the one at its start, or the one at its end,
  // with the text of the error there was, if any.
  datatype Report = Started | Ended(message: string)

  datatype World = World(
    s: State,
    handled: map<string, CR>,       // the CRs as the handlers know them
    outcome: map<string, Outcome>,  // the last reconcile since the last DeleteAll
    missed: set<(Kind, string)>,    // objects whose delete failed in the last DeleteAll, not reconciled since
    reported: map<string, Report>)  // of the last reconcile, while the CR it wrote to and its objects are not deleted

  datatype Action =
    | Deliver                                          // the informer applies the oldest watch event
    | Handle(env: Env, failed: set<Kind>)              // the oldest CR handler call
    | HandleDelete(i: nat, env: Env)                   // onSubResourceDelete
    | HandleConfig(i: nat, at: int, ok: bool)          // onConfigUpdate
    | Apply(spec: WorkerAppSpec)                       // CreateWorkerAppCR
    | Remove(name: string)                             // DeleteWorkerAppCR
    | Lose(kind: Kind, name: string)                   // somebody deletes an object
    | EditConfigMap(name: string, data: map<string, string>)   // an env sync job
    | EditSecret(name: string, data: map<string, string>)      // a secret sync job
    | Resync(name: string)                             // the informer's periodic update event

  // The steps of informer and handlers; the others come from outside.
  predicate Internal(a: Action) {
    a.Deliver? || a.Handle? || a.HandleDelete? || a.HandleConfig?
  }

  predicate Enabled(w: World, a: Action) {
    match a
    case Deliver => w.s.watch != []
    case Handle(_, _) => w.s.notes != []
    case HandleDelete(i, _) => i < |w.s.deletes|
    case HandleConfig(i, _, _) => i < |w.s.configs|
    case _ => true
  }

  function Without<T>(s: seq<T>, i: nat): seq<T>
    requires i < |s|
  {
    s[..i] + s[i + 1..]
  }

  function ForgetMissed(missed: set<(Kind, string)>, n: string): set<(Kind, string)> {
    set x | x in missed && x.1 != n
  }

  function AllKinds(): set<Kind> {
    {ConfigMapKind, SecretKind, DeploymentKind, ServiceKind, IngressRouteKind}
  }

  function Reconcile(w: World, cr: CR, env: Env): World {
    var n := cr.Name();
    World(ReconcileState(w.s, cr, env), w.handled,
          w.outcome[n := if Progress(w.s.objects, n, env.calls) == 5 then Succeeded(cr.spec) else Failed],
          ForgetMissed(w.missed, n),
          if n !in w.s.crs then w.reported - {n}
          else if env.final then w.reported[n := Ended(env.message)]
          else if env.deploying then w.reported[n := Started]
          else w.reported - {n})
  }

  function DeliverStep(w: World): World
    requires w.s.watch != []
  {
    var s := w.s.(watch := w.s.watch[1..]);
    match w.s.watch[0]
    case Upsert(cr) =>
      var n := cr.Name();
      var note := if n in s.store then Updated(s.store[n], cr) else Added(cr);
      w.(s := s.(store := s.store[n := cr], notes := s.notes + [note]))
    case Removed(cr) =>
      var n := cr.Name();
      if n in s.store then w.(s := s.(store := s.store - {n}, notes := s.notes + [Deleted(s.store[n])]))
      else w.(s := s)
  }

  // The handlers learn what the oldest note says.
  function Told(w: World): World
    requires w.s.notes != []
  {
    w.(s := w.s.(notes := w.s.notes[1..]), handled := ApplyNote(w.handled, w.s.notes[0]))
  }

  function HandleStep(w: World, env: Env, failed: set<Kind>): World
    requires w.s.notes != []
  {
    match w.s.notes[0]
    case Added(cr) => Reconcile(Told(w), cr, env)
    case Updated(was, now) => if was.generation == now.generation then Told(w) else Reconcile(Told(w), now, env)
    case Deleted(cr) => DeleteAll(Told(w), cr, failed)
  }

  function DeleteAll(w: World, cr: CR, failed: set<Kind>): World {
    var n := cr.Name();
    World(OnDeleteState(w.s, cr, failed), w.handled, w.outcome - {n},
          ForgetMissed(w.missed, n) + set k | k in failed && Present(w.s.objects, k, n) :: (k, n),
          w.reported - {n})
  }

  function HandleDeleteStep(w: World, i: nat, env: Env): World
    requires i < |w.s.deletes|
  {
    var app := w.s.deletes[i].1;
    var w1 := w.(s := w.s.(deletes := Without(w.s.deletes, i)));
    if app == "" || app !in w1.s.store then w1 else Reconcile(w1, w1.s.store[app], env)
  }

  function LoseStep(w: World, kind: Kind, n: string): World {
    w.(s := w.s.(objects := Cleared(w.s.objects, n, AllKinds() - {kind}),
                 deletes := w.s.deletes + ClearEvents(w.s.objects, n, AllKinds() - {kind})))
  }

  function EditConfigMapStep(w: World, n: string, data: map<string, string>): World {
    var o := w.s.objects;
    if EnvName(n) !in o.configMaps then w
    else
      var cm := o.configMaps[EnvName(n)].(data := data);
      w.(s := w.s.(objects := o.(configMaps := o.configMaps[EnvName(n) := cm]),
                   configs := w.s.configs + [cm.labels.app]))
  }

  function EditSecretStep(w: World, n: string, data: map<string, string>): World {
    var o := w.s.objects;
    if SecretName(n) !in o.secrets then w
    else
      var sec := o.secrets[SecretName(n)].(data := data);
      w.(s := w.s.(objects := o.(secrets := o.secrets[SecretName(n) := sec]),
                   configs := w.s.configs + [sec.labels.app]))
  }

  function Step(w: World, a: Action): World {
    if !Enabled(w, a) then w
    else
      match a
      case Deliver => DeliverStep(w)
      case Handle(env, failed) => HandleStep(w, env, failed)
      case HandleDelete(i, env) => HandleDeleteStep(w, i, env)
      case HandleConfig(i, at, ok) =>
        w.(s := OnConfigUpdateState(w.s.(configs := Without(w.s.configs, i)), w.s.configs[i], at, ok))
      case Apply(spec) => w.(s := ApplyState(w.s, spec))
      case Remove(n) => w.(s := RemoveState(w.s, n), reported := w.reported - {n})
      case Lose(kind, n) => LoseStep(w, kind, n)
      case EditConfigMap(n, data) => EditConfigMapStep(w, n, data)
      case EditSecret(n, data) => EditSecretStep(w, n, data)
      case Resync(n) =>
        if n !in w.s.store then w
        else w.(s := w.s.(notes := w.s.notes + [Updated(w.s.store[n], w.s.store[n])]))
  }

  function Init(domain: string): World {
    World(State(domain, map[], Objects(map[], map[], map[], map[], map[]), [], map[], [], [], []),
          map[], map[], {}, map[])
  }

  function Run(w: World, acts: seq<Action>): World
    decreases |acts|
  {
    if acts == [] then w else Run(Step(w, acts[0]), acts[1..])
  }

  // --- What is on its way: events replayed over an older view give the newer one ---

  function ApplyEvent(m: map<string, CR>, e: WatchEvent): map<string, CR> {
    match e
    case Upsert(cr) => m[cr.Name() := cr]
    case Removed(cr) => m - {cr.Name()}
  }

  function Replay(m: map<string, CR>, es: seq<WatchEvent>): map<string, CR>
    decreases |es|
  {
    if es == [] then m else Replay(ApplyEvent(m, es[0]), es[1..])
  }

  // An update that keeps the generation keeps the spec; only what is known is removed.
  predicate FitsEvent(m: map<string, CR>, e: WatchEvent) {
    match e
    case Upsert(cr) => cr.Name() in m && m[cr.Name()].generation == cr.generation ==> m[cr.Name()].spec == cr.spec
    case Removed(cr) => cr.Name() in m
  }

  predicate Coherent(m: map<string, CR>, es: seq<WatchEvent>)
    decreases |es|
  {
    es == [] || (FitsEvent(m, es[0]) && Coherent(ApplyEvent(m, es[0]), es[1..]))
  }

  function ApplyNote(m: map<string, CR>, note: Note): map<string, CR> {
    if note.Deleted? then m - {note.Name()} else m[note.Name() := note.now]
  }

  function ReplayNotes(m: map<string, CR>, notes: seq<Note>): map<string, CR>
    decreases |notes|
  {
    if notes == [] then m else ReplayNotes(ApplyNote(m, notes[0]), notes[1..])
  }

  predicate FitsNote(m: map<string, CR>, note: Note) {
    var n := note.Name();
    match note
    case Added(_) => n !in m
    case Updated(was, now) => n in m && m[n] == was && (was.generation == now.generation ==> was.spec == now.spec)
    case Deleted(_) => n in m
  }

  predicate CoherentNotes(m: map<string, CR>, notes: seq<Note>)
    decreases |notes|
  {
    notes == [] || (FitsNote(m, notes[0]) && CoherentNotes(ApplyNote(m, notes[0]), notes[1..]))
  }

  // The handler call leads to a reconcile of n.
  predicate Triggers(note: Note, n: string) {
    note.Name() == n && (note.Added? || (note.Updated? && note.was.generation != note.now.generation))
  }

  predicate Triggered(notes: seq<Note>, n: string) {
    exists i :: 0 <= i < |notes| && Triggers(notes[i], n)
  }

  predicate Mentioned(notes: seq<Note>, n: string) {
    exists i :: 0 <= i < |notes| && notes[i].Name() == n
  }

  predicate EventMentions(es: seq<WatchEvent>, n: string) {
    exists i :: 0 <= i < |es| && es[i].cr.Name() == n
  }

  lemma {:induction false} ReplaySnoc(m: map<string, CR>, es: seq<WatchEvent>, e: WatchEvent)
    ensures Replay(m, es + [e]) == ApplyEvent(Replay(m, es), e)
    ensures Coherent(m, es + [e]) <==> Coherent(m, es) && FitsEvent(Replay(m, es), e)
    decreases |es|
  {
    if es == [] {
      assert es + [e] == [e];
      assert [e][1..] == [];
    } else {
      assert (es + [e])[1..] == es[1..] + [e];
      ReplaySnoc(ApplyEvent(m, es[0]), es[1..], e);
    }
  }

  lemma {:induction false} ReplayNotesSnoc(m: map<string, CR>, notes: seq<Note>, note: Note)
    ensures ReplayNotes(m, notes + [note]) == ApplyNote(ReplayNotes(m, notes), note)
    ensures CoherentNotes(m, notes + [note]) <==> CoherentNotes(m, notes) && FitsNote(ReplayNotes(m, notes), note)
    decreases |notes|
  {
    if notes == [] {
      assert notes + [note] == [note];
      assert [note][1..] == [];
    } else {
      assert (notes + [note])[1..] == notes[1..] + [note];
      ReplayNotesSnoc(ApplyNote(m, notes[0]), notes[1..], note);
    }
  }

  // A name no event mentions is the same before and after.
  lemma {:induction false} ReplayKeeps(m: map<string, CR>, es: seq<WatchEvent>, n: string)
    requires !EventMentions(es, n)
    ensures n in Replay(m, es) <==> n in m
    ensures n in m ==> Replay(m, es)[n] == m[n]
    decreases |es|
  {
    if es != [] {
      assert es[0].cr.Name() != n;
      forall i | 0 <= i < |es[1..]| ensures es[1..][i].cr.Name() != n {
        assert es[1..][i] == es[i + 1];
      }
      ReplayKeeps(ApplyEvent(m, es[0]), es[1..], n);
    }
  }

  lemma {:induction false} ReplayNotesKeeps(m: map<string, CR>, notes: seq<Note>, n: string)
    requires !Mentioned(notes, n)
    ensures n in ReplayNotes(m, notes) <==> n in m
    decreases |notes|
  {
    if notes != [] {
      assert notes[0].Name() != n;
      forall i | 0 <= i < |notes[1..]| ensures notes[1..][i].Name() != n {
        assert notes[1..][i] == notes[i + 1];
      }
      ReplayNotesKeeps(ApplyNote(m, notes[0]), notes[1..], n);
    }
  }

  // Handler calls that trigger no reconcile of n leave its spec as it was, if n survives them.
  lemma {:induction false} UntriggeredKeepsSpec(m: map<string, CR>, notes: seq<Note>, n: string)
    requires CoherentNotes(m, notes) && !Triggered(notes, n)
    requires n in ReplayNotes(m, notes)
    ensures n in m && m[n].spec == ReplayNotes(m, notes)[n].spec
    decreases |notes|
  {
    if notes != [] {
      assert !Triggers(notes[0], n);
      forall i | 0 <= i < |notes[1..]| ensures !Triggers(notes[1..][i], n) {
        assert notes[1..][i] == notes[i + 1];
      }
      UntriggeredKeepsSpec(ApplyNote(m, notes[0]), notes[1..], n);
    }
  }

  lemma TriggeredTail(notes: seq<Note>, n: string)
    requires notes != []
    ensures Triggered(notes, n) <==> Triggers(notes[0], n) || Triggered(notes[1..], n)
    ensures Mentioned(notes, n) <==> notes[0].Name() == n || Mentioned(notes[1..], n)
  {
    assert forall i :: 0 <= i < |notes[1..]| ==> notes[1..][i] == notes[i + 1];
    if Triggered(notes, n) && !Triggers(notes[0], n) {
      var i :| 0 <= i < |notes| && Triggers(notes[i], n);
      assert Triggers(notes[1..][i - 1], n);
    }
    if Mentioned(notes, n) && notes[0].Name() != n {
      var i :| 0 <= i < |notes| && notes[i].Name() == n;
      assert notes[1..][i - 1].Name() == n;
    }
  }

  lemma TriggeredSnoc(notes: seq<Note>, note: Note, n: string)
    ensures Triggered(notes + [note], n) <==> Triggered(notes, n) || Triggers(note, n)
    ensures Mentioned(notes + [note], n) <==> Mentioned(notes, n) || note.Name() == n
  {
    var all := notes + [note];
    assert forall i :: 0 <= i < |notes| ==> all[i] == notes[i];
    assert all[|notes|] == note;
  }
}
