/**
 All behaviours of one volume ID: requests run one at a time under its fencing
 lock, any of their effects may be the last before the process or the node
 stops, and syncs made for other volumes may settle this volume's mark too,
 because all marks share one directory.
 */
module FenceMachine {
  import opened Marks
  import opened FencePrograms

  datatype Event =
    | Ran(entry: Entry, durable: Option<Mark>)   // with the durable mark at that moment
    | Acked(ack: Ack)
    | PowerLost

  /**
   `disk` holds the durable mark first, then every later renamed one; the last
   is the visible mark.  `passed` are the tokens whose grant this process ran,
   `task` is what is left of the section that holds the lock.
   */
  datatype World = World(
    disk: seq<Option<Mark>>, passed: set<Token>, exported: bool, task: seq<Effect>, log: seq<Event>)

  const INITIAL := World([None], {}, false, [], [])

  function DurableMark(w: World): Option<Mark>
    requires w.disk != []
  {
    w.disk[0]
  }

  function Visible(w: World): Option<Mark>
    requires w.disk != []
  {
    w.disk[|w.disk| - 1]
  }

  /** Only a grant can leave an export behind; a successful Unexport removes it. */
  function ExportedAfter(exported: bool, e: Entry): bool {
    match OpOf(e.kind)
    case Grant => exported || e.exports
    case Revoke => exported && !(e.kind == Unexport && e.ok)
    case Destroy => exported
  }

  function Apply(w: World, eff: Effect): World
    requires w.disk != []
  {
    match eff
    case Rename(m) => w.(disk := w.disk + [Some(m)])
    case Sync => w.(disk := [Visible(w)])
    case Mutate(e) => w.(exported := ExportedAfter(w.exported, e), log := w.log + [Ran(e, DurableMark(w))])
    case Answer(a) =>
      if a.Passed? then w.(passed := w.passed + {a.token}) else w.(log := w.log + [Acked(a)])
  }

  function RunAll(w: World, effects: seq<Effect>): (r: World)
    requires w.disk != []
    ensures r.disk != []
    decreases |effects|
  {
    if effects == [] then w else RunAll(Apply(w, effects[0]), effects[1..])
  }

  datatype Step =
    | Begin(request: Request, env: Env)
    | Exec
    | ForeignSync
    | ProcessCrash
    | PowerLoss(keep: nat)      // how many of the unsynced renames survive

  /** Reconcile rechecks a token only after the same process ran its grant. */
  predicate Enabled(w: World, s: Step) {
    && w.disk != [] && (forall m | m in w.disk :: WellFormedDisk(m))
    && match s
       case Begin(r, _) => w.task == [] && ValidRequest(r) && (r.DoRecheck? ==> r.token in w.passed)
       case Exec => w.task != []
       case PowerLoss(keep) => keep < |w.disk|
       case _ => true
  }

  function Next(w: World, s: Step): World
    requires Enabled(w, s)
  {
    match s
    case Begin(r, env) => w.(task := Program(r, env, Visible(w)))
    case Exec => Apply(w, w.task[0]).(task := w.task[1..])
    case ForeignSync => w.(disk := [Visible(w)])
    case ProcessCrash => w.(passed := {}, task := [])
    case PowerLoss(keep) =>
      World([w.disk[keep]], {}, false, [], w.log + [PowerLost])
  }

  /** `steps` is a run from `w`; `End` is where it leads. */
  predicate IsRun(w: World, steps: seq<Step>)
    decreases |steps|
  {
    steps == [] || (Enabled(w, steps[0]) && IsRun(Next(w, steps[0]), steps[1..]))
  }

  function End(w: World, steps: seq<Step>): (r: World)
    requires IsRun(w, steps)
    ensures w.disk != [] ==> r.disk != []
    decreases |steps|
  {
    if steps == [] then w else End(Next(w, steps[0]), steps[1..])
  }

  // ---------------------------------------------------------------- invariant

  predicate DiskOk(disk: seq<Option<Mark>>) {
    && disk != []
    && (forall i | 0 <= i < |disk| :: WellFormedDisk(disk[i]))
    && (forall i, j | 0 <= i < j < |disk| :: Extends(disk[i], disk[j]))
  }

  /** What mark `m` says when mutation `e` runs under it. */
  predicate Fires(m: Option<Mark>, e: Entry) {
    && m.Some?
    && m.value.uid == e.uid && m.value.gen == e.gen
    && e.uid !in m.value.retired
    && (OpOf(e.kind) == Grant ==> !m.value.ended)
    && (e.kind == Create ==> m.value.source.None?)
    && (e.kind == Expand || e.kind == Delete ==> !m.value.preserve)
    && (e.kind == Delete && m.value.source.Some? ==> !m.value.ended)
    && (OpOf(e.kind) != Revoke && e.kind != FsPublish && m.value.source.Some? ==> e.lv == m.value.source)
  }

  /** What mark `m` says when answer `a` is given. */
  predicate Backs(m: Option<Mark>, a: Ack) {
    match a
    case Passed(t) => Dominates(m, t)
    case Destroyed(u, pinned) =>
      m.Some? && m.value.uid == u && m.value.ended && (pinned ==> m.value.source.Some?)
    case Imported(src, preserve) => m.Some? && m.value.source == src && m.value.preserve == preserve
    case Released(u, written) => written ==> m.Some? && u in m.value.retired
    case Transferred(u, digest, preserve) =>
      m.Some? && m.value.uid == u && m.value.preserve == preserve && m.value.transfer.Some? && m.value.transfer.value.digest == digest
  }

  /** What every later mark still knows about an event. */
  predicate Remembers(m: Option<Mark>, ev: Event) {
    match ev
    case Ran(e, _) => Dominates(m, Token(e.uid, e.gen))
    case PowerLost => true
    case Acked(Destroyed(u, pinned)) =>
      && m.Some? && (pinned ==> m.value.source.Some?)
      && if m.value.uid == u then m.value.ended else u in m.value.retired
    case Acked(Imported(src, preserve)) =>
      m.Some? && (src.Some? ==> m.value.source == src) && (preserve ==> m.value.preserve)
    case Acked(Transferred(u, digest, preserve)) =>
      && m.Some? && (preserve ==> m.value.preserve)
      && if m.value.uid == u then m.value.transfer.Some? && m.value.transfer.value.digest == digest
         else u in m.value.retired
    case Acked(a) => Backs(m, a)
  }

  /** May `later` follow `earlier` in the log, however much lies between them? */
  predicate Compatible(earlier: Event, later: Event) {
    match (earlier, later)
    case (Ran(a, _), Ran(b, _)) => a.uid == b.uid ==> a.gen <= b.gen
    case (Acked(Destroyed(u, pinned)), Ran(e, _)) =>
      e.uid == u ==> OpOf(e.kind) != Grant && (pinned ==> e.kind != Delete)
    case (Acked(Released(u, written)), Ran(e, _)) => written ==> e.uid != u
    case (Acked(Imported(src, preserve)), Ran(e, _)) =>
      && (src.Some? ==> e.kind != Create && (e.kind == Delete ==> e.lv == src))
      && (preserve ==> e.kind != Expand && e.kind != Delete)
    case (Acked(Imported(src, preserve)), Acked(Imported(src', preserve'))) =>
      (src.Some? ==> src' == src) && (preserve ==> preserve')
    case (Acked(Transferred(u, d, _)), Acked(Transferred(u', d', _))) => u == u' ==> d == d'
    case (Acked(Transferred(_, _, preserve)), Ran(e, _)) => preserve ==> e.kind != Expand && e.kind != Delete
    case _ => true
  }

  /** Nothing in the effects still to run contradicts durable mark `d`, visible mark `v`. */
  predicate TaskOk(task: seq<Effect>, d: Option<Mark>, v: Option<Mark>)
    decreases |task|
  {
    task == [] ||
    match task[0]
    case Rename(m) => WellFormed(m) && Extends(v, Some(m)) && TaskOk(task[1..], d, Some(m))
    case Sync => TaskOk(task[1..], v, v)
    case Mutate(e) => Fires(d, e) && Fires(v, e) && TaskOk(task[1..], d, v)
    case Answer(a) =>
      && Backs(d, a) && Backs(v, a)
      && (a.Released? ==> v.Some? && a.uid in v.value.retired)
      && TaskOk(task[1..], d, v)
  }

  predicate PowerLossBetween(log: seq<Event>, i: nat, j: nat)
    requires j <= |log|
  {
    exists k | i < k < j :: log[k] == PowerLost
  }

  predicate AllRemembered(log: seq<Event>, d: Option<Mark>) {
    forall i | 0 <= i < |log| :: Remembers(d, log[i])
  }

  predicate AllCompatible(log: seq<Event>) {
    forall i, j | 0 <= i < j < |log| :: Compatible(log[i], log[j])
  }

  predicate AllFired(log: seq<Event>) {
    forall i | 0 <= i < |log| && log[i].Ran? :: Fires(log[i].durable, log[i].entry)
  }

  /** A lifecycle that ran before another one is retired. */
  predicate OlderAreRetired(log: seq<Event>, d: Option<Mark>) {
    forall i, j | 0 <= i < j < |log| && log[i].Ran? && log[j].Ran? ::
      log[i].entry.uid != log[j].entry.uid ==> d.Some? && log[i].entry.uid in d.value.retired
  }

  /** Until a power loss, a released lifecycle is retired in the visible mark and runs nothing. */
  predicate ReleasesHold(log: seq<Event>, v: Option<Mark>) {
    && (forall i | 0 <= i < |log| && log[i].Acked? && log[i].ack.Released? ::
          (v.Some? && log[i].ack.uid in v.value.retired) || PowerLossBetween(log, i, |log|))
    && (forall i, j | 0 <= i < j < |log| && log[i].Acked? && log[i].ack.Released? && log[j].Ran? ::
          log[j].entry.uid != log[i].ack.uid || PowerLossBetween(log, i, j))
  }

  predicate LogOk(log: seq<Event>, d: Option<Mark>, v: Option<Mark>) {
    && AllRemembered(log, d)
    && AllCompatible(log)
    && AllFired(log)
    && OlderAreRetired(log, d)
    && Contiguous(log)
    && ReleasesHold(log, v)
  }

  predicate Contiguous(log: seq<Event>) {
    forall i, j, k | 0 <= i < j < k < |log| && log[i].Ran? && log[j].Ran? && log[k].Ran? ::
      log[i].entry.uid == log[k].entry.uid ==> log[j].entry.uid == log[i].entry.uid
  }

  predicate Inv(w: World) {
    && DiskOk(w.disk)
    && TaskOk(w.task, DurableMark(w), Visible(w))
    && LogOk(w.log, DurableMark(w), Visible(w))
    && (forall t | t in w.passed :: Dominates(DurableMark(w), t))
  }
}
