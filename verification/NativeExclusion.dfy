/**
 One ZFS dataset seen under two fencing marks: the legacy mark of its volume
 name and the native mark of its resource key.  A managed lifecycle activates
 the first, an adoption the second; both do so under the legacy name's lock.
 The marks live in one directory, so a sync settles both.
 */
module NativeExclusion {
  import opened Marks
  import opened FencePrograms
  import FsAdmission
  import FsSafety

  datatype Dir = Dir(legacy: Option<Mark>, native: Option<Mark>)

  /**
   `legacy` and `native` are what is left of the sections holding the two
   locks.  `guard` tells that the legacy section has yet to look for an active
   native owner, `fsHoldsLegacy` that the native section is a filesystem
   operation, which takes the legacy lock as well.  `zvol` is the type of the
   dataset, a block volume or a filesystem; it never changes.  `managed` and
   `adopted` are the lifecycles for which a managed mutation other than a
   revoke, or a native publication, ever ran.
   */
  datatype World = World(
    zvol: bool, disk: seq<Dir>, legacy: seq<Effect>, guard: bool, native: seq<Effect>, fsHoldsLegacy: bool,
    managed: set<Uid>, adopted: set<Uid>)

  function Initial(zvol: bool): World {
    World(zvol, [Dir(None, None)], [], false, [], false, {}, {})
  }

  function Visible(w: World): Dir
    requires w.disk != []
  {
    w.disk[|w.disk| - 1]
  }

  predicate ActiveManaged(m: Option<Mark>) {
    m.Some? && !m.value.ended && m.value.fs.adoption.None? && !m.value.legacyRevokeOnly
  }

  predicate ActiveNative(m: Option<Mark>) {
    m.Some? && !m.value.ended && m.value.fs.adoption.Some?
  }

  predicate Exclusive(d: Dir) {
    !(ActiveManaged(d.legacy) && ActiveNative(d.native))
  }

  predicate WellFormedDir(d: Dir) {
    WellFormedDisk(d.legacy) && WellFormedDisk(d.native)
  }

  datatype Req =
    | Managed(token: Token, kind: Kind)                 // through the dataset backend
    | ManagedRetire(token: Token, unexported: bool)
    | ManagedImport(token: Token)                       // no native-owner guard; the importer takes zvols only
    | NativeOp(token: Token, fs: FsAdmission.FsRequest, writes: seq<FsWrite>)
    | NativeRetire(token: Token, unexported: bool)

  datatype Step =
    | Begin(request: Req, env: Env)
    | ExecLegacy
    | ExecNative
    | ProcessCrash
    | PowerLoss(keep: nat)

  predicate LegacyBusy(w: World) {
    w.legacy != [] || w.guard || w.fsHoldsLegacy
  }

  predicate Enabled(w: World, s: Step) {
    && w.disk != [] && (forall i | 0 <= i < |w.disk| :: WellFormedDir(w.disk[i]))
    && match s
       case Begin(NativeOp(_, fs, _), _) => !LegacyBusy(w) && w.native == [] && !fs.op.Destroy?
       case Begin(NativeRetire(_, _), _) => w.native == []
       case Begin(_, _) => !LegacyBusy(w)
       case ExecLegacy => w.legacy != [] || w.guard
       case ExecNative => w.native != []
       case PowerLoss(keep) => keep < |w.disk|
       case ProcessCrash => true
  }

  /** What a section does to the directory: mutations and answers leave it alone. */
  function Write(disk: seq<Dir>, now: Dir, e: Effect, onNative: bool): seq<Dir> {
    match e
    case Rename(m) => disk + [if onNative then now.(native := Some(m)) else now.(legacy := Some(m))]
    case Sync => [now]
    case _ => disk
  }

  /** The lifecycle that a mutation other than a revoke acts for. */
  function Claims(e: Effect): set<Uid> {
    if e.Mutate? && !IsRevoke(e.entry.kind) then {e.entry.uid} else {}
  }

  function Start(w: World, r: Req, env: Env): World
    requires Enabled(w, Begin(r, env))
  {
    var d := Visible(w);
    match r
    case Managed(token, kind) =>
      w.(legacy := Fenced(token, kind, true, env.(guardOk := true), d.legacy), guard := OpOf(kind) != Revoke)
    case ManagedRetire(token, unexported) => w.(legacy := RetireLifecycle(token, unexported, env, d.legacy))
    case ManagedImport(token) =>
      w.(legacy := Import(token, None, false, env.(mutateOk := env.mutateOk && w.zvol), d.legacy))
    case NativeOp(token, fs, writes) =>
      var refused := fs.importing && (w.zvol || ActiveManaged(d.legacy));
      var p := if refused then [] else FsOperation(token, fs, writes, env, d.native);
      w.(native := p, fsHoldsLegacy := p != [])
    case NativeRetire(token, unexported) => w.(native := RetireLifecycle(token, unexported, env, d.native))
  }

  /** A guard that finds an active native owner ends its section before any write. */
  function Next(w: World, s: Step): World
    requires Enabled(w, s)
  {
    match s
    case Begin(r, env) => Start(w, r, env)
    case ExecLegacy =>
      if w.guard then w.(guard := false, legacy := if ActiveNative(Visible(w).native) then [] else w.legacy)
      else w.(disk := Write(w.disk, Visible(w), w.legacy[0], false), legacy := w.legacy[1..],
              managed := w.managed + Claims(w.legacy[0]))
    case ExecNative =>
      w.(disk := Write(w.disk, Visible(w), w.native[0], true), native := w.native[1..],
         fsHoldsLegacy := w.fsHoldsLegacy && w.native[1..] != [], adopted := w.adopted + Claims(w.native[0]))
    case ProcessCrash => w.(legacy := [], guard := false, native := [], fsHoldsLegacy := false)
    case PowerLoss(keep) => w.(disk := [w.disk[keep]], legacy := [], guard := false, native := [], fsHoldsLegacy := false)
  }

  predicate IsRun(w: World, steps: seq<Step>)
    decreases |steps|
  {
    steps == [] || (Enabled(w, steps[0]) && IsRun(Next(w, steps[0]), steps[1..]))
  }

  function End(w: World, steps: seq<Step>): World
    requires IsRun(w, steps)
    decreases |steps|
  {
    if steps == [] then w else End(Next(w, steps[0]), steps[1..])
  }

  // ---------------------------------------------------------------- invariant

  predicate LegacyFit(m: Option<Mark>) {
    m.Some? ==> WellFormed(m.value) && m.value.fs.adoption.None?
  }

  /** An open mark of the lifecycle that the mutation acts for counts as active. */
  predicate ActsFor(e: Effect, now: Option<Mark>, active: bool) {
    Claims(e) != {} ==> now.Some? && now.value.uid == e.entry.uid && (now.value.ended || active)
  }

  /**
   A managed mark becomes active only while no native owner can be (`quiet`); a
   mutation runs only when its mark is the only one that may survive (`settled`).
   */
  predicate LegacyOk(task: seq<Effect>, now: Option<Mark>, quiet: bool, settled: bool)
    decreases |task|
  {
    task == [] ||
    match task[0]
    case Rename(m) =>
      && LegacyFit(Some(m)) && Extends(now, Some(m)) && (ActiveManaged(Some(m)) ==> quiet || ActiveManaged(now))
      && LegacyOk(task[1..], Some(m), quiet || ActiveManaged(now), false)
    case Sync => LegacyOk(task[1..], now, quiet, true)
    case Mutate(_) =>
      && (Claims(task[0]) != {} ==> settled) && ActsFor(task[0], now, ActiveManaged(now))
      && LegacyOk(task[1..], now, quiet, settled)
    case Answer(_) => LegacyOk(task[1..], now, quiet, settled)
  }

  /** A native mark becomes active only while no managed owner can be (`free`), and an open one stays active. */
  predicate NativeOk(task: seq<Effect>, now: Option<Mark>, free: bool, settled: bool)
    decreases |task|
  {
    task == [] ||
    match task[0]
    case Rename(m) =>
      && WellFormed(m) && Extends(now, Some(m)) && (ActiveNative(Some(m)) ==> free || ActiveNative(now))
      && (ActiveNative(now) && m.uid == now.value.uid ==> m.ended || ActiveNative(Some(m)))
      && NativeOk(task[1..], Some(m), free, false)
    case Sync => NativeOk(task[1..], now, free, true)
    case Mutate(_) =>
      && (Claims(task[0]) != {} ==> settled) && ActsFor(task[0], now, ActiveNative(now))
      && NativeOk(task[1..], now, free, settled)
    case Answer(_) => NativeOk(task[1..], now, free, settled)
  }

  /** The lifecycle owns the mark or was retired from it. */
  predicate Met(m: Option<Mark>, uid: Uid) {
    m.Some? && (m.value.uid == uid || uid in m.value.retired)
  }

  /** Whoever acted as owner is still known, and is active unless it ended. */
  predicate Remembers(m: Option<Mark>, active: bool, acted: set<Uid>) {
    && (forall u | u in acted :: Met(m, u))
    && (m.Some? && m.value.uid in acted ==> m.value.ended || active)
  }

  predicate DirOk(zvol: bool, d: Dir, managed: set<Uid>, adopted: set<Uid>) {
    && LegacyFit(d.legacy) && WellFormedDisk(d.native) && Exclusive(d) && (zvol ==> !ActiveNative(d.native))
    && Remembers(d.legacy, ActiveManaged(d.legacy), managed)
    && Remembers(d.native, ActiveNative(d.native), adopted)
  }

  predicate DiskOk(zvol: bool, disk: seq<Dir>, managed: set<Uid>, adopted: set<Uid>) {
    disk != [] && forall i | 0 <= i < |disk| :: DirOk(zvol, disk[i], managed, adopted)
  }

  predicate LegacySettled(disk: seq<Dir>) {
    disk != [] && forall i | 0 <= i < |disk| :: disk[i].legacy == disk[|disk| - 1].legacy
  }

  predicate NativeSettled(disk: seq<Dir>) {
    disk != [] && forall i | 0 <= i < |disk| :: disk[i].native == disk[|disk| - 1].native
  }

  predicate Inv(w: World) {
    && DiskOk(w.zvol, w.disk, w.managed, w.adopted)
    && (w.fsHoldsLegacy ==> w.native != [] && w.legacy == [] && !w.guard && !ActiveManaged(Visible(w).legacy))
    && LegacyOk(w.legacy, Visible(w).legacy, w.guard || !ActiveNative(Visible(w).native), LegacySettled(w.disk))
    && NativeOk(w.native, Visible(w).native, w.fsHoldsLegacy && !w.zvol, NativeSettled(w.disk))
  }

  // ----------------------------------------------------- programs keep their word

  lemma {:induction false} LegacyMonotone(task: seq<Effect>, now: Option<Mark>, quiet: bool, settled: bool, q: bool, s: bool)
    requires LegacyOk(task, now, quiet, settled) && (quiet ==> q) && (settled ==> s)
    ensures LegacyOk(task, now, q, s)
    decreases |task|
  {
    if task != [] {
      match task[0]
      case Rename(m) =>
        LegacyMonotone(task[1..], Some(m), quiet || ActiveManaged(now), false, q || ActiveManaged(now), false);
      case Sync => LegacyMonotone(task[1..], now, quiet, true, q, true);
      case _ => LegacyMonotone(task[1..], now, quiet, settled, q, s);
    }
  }

  lemma {:induction false} NativeMonotone(task: seq<Effect>, now: Option<Mark>, free: bool, settled: bool, s: bool)
    requires NativeOk(task, now, free, settled) && (settled ==> s)
    ensures NativeOk(task, now, free, s)
    decreases |task|
  {
    if task != [] {
      match task[0]
      case Rename(_) =>
      case Sync =>
      case _ => NativeMonotone(task[1..], now, free, settled, s);
    }
  }

  lemma LegacyWriteOk(m: Mark, io: WriteIo, rest: seq<Effect>, now: Option<Mark>, quiet: bool, settled: bool)
    requires LegacyFit(Some(m)) && Extends(now, Some(m)) && (ActiveManaged(Some(m)) ==> quiet || ActiveManaged(now))
    requires LegacyOk(rest, Some(m), quiet || ActiveManaged(now), true)
    requires !io.Durable? ==> rest == []
    ensures LegacyOk(WriteMark(m, io) + rest, now, quiet, settled)
  {
    match io
    case NotRenamed =>
    case SyncLost => assert ([Rename(m)] + rest)[1..] == rest;
    case Durable =>
      assert ([Rename(m), Sync] + rest)[1..] == [Sync] + rest;
      assert ([Sync] + rest)[1..] == rest;
  }

  lemma LegacyPersistOk(
    m: Mark, changed: bool, io: WriteIo, rest: seq<Effect>, now: Option<Mark>, quiet: bool, settled: bool)
    requires LegacyFit(Some(m)) && Extends(now, Some(m)) && (ActiveManaged(Some(m)) ==> quiet || ActiveManaged(now))
    requires !changed ==> now == Some(m)
    requires LegacyOk(rest, Some(m), quiet, true)
    requires !io.Durable? ==> rest == []
    ensures LegacyOk(Persist(m, changed, io) + rest, now, quiet, settled)
  {
    if changed {
      LegacyMonotone(rest, Some(m), quiet, true, quiet || ActiveManaged(now), true);
      LegacyWriteOk(m, io, rest, now, quiet, settled);
    } else if io.Durable? {
      assert ([Sync] + rest)[1..] == rest;
    }
  }

  /** Ending a lifecycle never activates it. */
  lemma DestroyTailOk(next: Mark, token: Token, kind: Kind, env: Env, quiet: bool)
    requires LegacyFit(Some(next)) && next.uid == token.uid
    requires IsRevoke(kind) || next.ended || ActiveManaged(Some(next))
    ensures LegacyOk([Mutate(EntryOf(token, kind, env))] + AfterMutation(next, token, kind, env), Some(next), quiet, true)
  {
    var after := AfterMutation(next, token, kind, env);
    assert ([Mutate(EntryOf(token, kind, env))] + after)[1..] == after;
    if after != [] && OpOf(kind) == Destroy && !next.ended {
      var ack := [Answer(Destroyed(token.uid, next.source.Some?))];
      assert ack[1..] == [];
      LegacyWriteOk(next.(ended := true), env.final, if env.final.Durable? then ack else [], Some(next), quiet, true);
    } else if after != [] {
      assert after[1..] == [];
    }
  }

  lemma ManagedOk(token: Token, kind: Kind, env: Env, now: Option<Mark>, quiet: bool, settled: bool)
    requires LegacyFit(now) && (OpOf(kind) != Revoke ==> quiet)
    ensures LegacyOk(Fenced(token, kind, true, env, now), now, quiet, settled)
  {
    match PlanFenced(token, kind, true, env, now)
    case ReadFailed =>
    case Refuse =>
    case Resync(m) =>
      var rest := if env.persist.Durable? then [Answer(Destroyed(token.uid, true))] else [];
      assert rest != [] ==> rest[1..] == [];
      LegacyPersistOk(m, false, env.persist, rest, now, quiet, settled);
    case Proceed(next, changed) =>
      ManagedMarkIs(token, kind, env, now);
      var tail := [Mutate(EntryOf(token, kind, env))] + AfterMutation(next, token, kind, env);
      DestroyTailOk(next, token, kind, env, quiet);
      LegacyPersistOk(next, changed, env.persist, if env.persist.Durable? then tail else [], now, quiet, settled);
  }

  /** Any section but a revoke makes its lifecycle active; a revoke activates nothing. */
  lemma ManagedMarkIs(token: Token, kind: Kind, env: Env, now: Option<Mark>)
    requires LegacyFit(now) && PlanFenced(token, kind, true, env, now).Proceed?
    ensures var next := PlanFenced(token, kind, true, env, now).next;
            && LegacyFit(Some(next)) && (IsRevoke(kind) || next.ended || ActiveManaged(Some(next)))
            && (IsRevoke(kind) && ActiveManaged(Some(next)) ==> ActiveManaged(now))
  {
    AdmissionChangesOnly(token, OpOf(kind), now);
    FencedMarkIs(token, kind, true, env, now);
  }

  lemma ManagedRetireOk(token: Token, unexported: bool, env: Env, now: Option<Mark>, quiet: bool, settled: bool)
    requires LegacyFit(now)
    ensures LegacyOk(RetireLifecycle(token, unexported, env, now), now, quiet, settled)
  {
    if env.readOk && token.uid != "" {
      RetirementIs(token, unexported, ReleaseVerified(now, env), now);
      match Retire(token, unexported, ReleaseVerified(now, env), now)
      case RetireWith(next, _) =>
        var rest := if env.persist.Durable? then [Answer(Released(token.uid, true))] else [];
        assert rest != [] ==> rest[1..] == [];
        LegacyWriteOk(next, env.persist, rest, now, quiet, settled);
      case NothingToDo => assert [Answer(Released(token.uid, false))][1..] == [];
      case _ =>
    }
  }

  lemma ManagedImportOk(token: Token, env: Env, now: Option<Mark>, settled: bool)
    requires LegacyFit(now)
    ensures LegacyOk(Import(token, None, false, env, now), now, true, settled)
  {
    match PlanImport(token, None, false, env, now)
    case Proceed(next, changed) =>
      AdmissionChangesOnly(token, Grant, now);
      var rest := if env.persist.Durable? then [Answer(Imported(next.source, next.preserve))] else [];
      assert rest != [] ==> rest[1..] == [];
      LegacyPersistOk(next, changed, env.persist, rest, now, true, settled);
    case _ =>
  }

  lemma NativeWriteOk(m: Mark, io: WriteIo, rest: seq<Effect>, now: Option<Mark>, free: bool, settled: bool)
    requires WellFormed(m) && Extends(now, Some(m)) && (ActiveNative(Some(m)) ==> free || ActiveNative(now))
    requires ActiveNative(now) && m.uid == now.value.uid ==> m.ended || ActiveNative(Some(m))
    requires NativeOk(rest, Some(m), free, true)
    requires !io.Durable? ==> rest == []
    ensures NativeOk(WriteMark(m, io) + rest, now, free, settled)
  {
    match io
    case NotRenamed =>
    case SyncLost => assert ([Rename(m)] + rest)[1..] == rest;
    case Durable =>
      assert ([Rename(m), Sync] + rest)[1..] == [Sync] + rest;
      assert ([Sync] + rest)[1..] == rest;
  }

  lemma NativeRetireOk(token: Token, unexported: bool, env: Env, now: Option<Mark>, settled: bool)
    requires WellFormedDisk(now)
    ensures NativeOk(RetireLifecycle(token, unexported, env, now), now, false, settled)
  {
    if env.readOk && token.uid != "" {
      RetirementIs(token, unexported, ReleaseVerified(now, env), now);
      match Retire(token, unexported, ReleaseVerified(now, env), now)
      case RetireWith(next, _) =>
        var rest := if env.persist.Durable? then [Answer(Released(token.uid, true))] else [];
        assert rest != [] ==> rest[1..] == [];
        NativeWriteOk(next, env.persist, rest, now, false, settled);
      case NothingToDo => assert [Answer(Released(token.uid, false))][1..] == [];
      case _ =>
    }
  }

  lemma {:induction false} NativeFsWritesOk(next: Mark, writes: seq<FsWrite>, v: Mark)
    requires WellFormed(next) && next.fs.adoption.Some? && v == next.(fs := v.fs) && v.fs.adoption.Some?
    ensures NativeOk(FsWrites(next, writes), Some(v), true, true)
    decreases |writes|
  {
    if writes != [] {
      var m := next.(fs := KeepSource(next.fs, writes[0].fs));
      NativeFsWritesOk(next, writes[1..], m);
      NativeWriteOk(m, writes[0].io, if writes[0].io.Durable? then FsWrites(next, writes[1..]) else [], Some(v), true, true);
    }
  }

  lemma NativeOpOk(
    token: Token, r: FsAdmission.FsRequest, writes: seq<FsWrite>, env: Env, now: Option<Mark>, settled: bool)
    requires WellFormedDisk(now) && !r.op.Destroy?
    ensures NativeOk(FsOperation(token, r, writes, env, now), now, true, settled)
  {
    var adm := Admit(token, r.op, now);
    if FsOperation(token, r, writes, env, now) != [] {
      var next := FsAdmission.Claim(r, adm.next);
      AdmissionChangesOnly(token, r.op, now);
      if r.importing {
        NativeWriteOk(next, env.final, [], now, true, settled);
        assert WriteMark(next, env.final) == WriteMark(next, env.final) + [];
      } else {
        var e := EntryOf(token, if r.op.Grant? then FsPublish else FsWithdraw, env);
        NativeTailOk(next, e, writes);
        var sameSource := now.Some? && now.value.fs.adoption == next.fs.adoption;
        var rest := if env.persist.Durable? then [Mutate(e)] + FsWrites(next, writes) else [];
        if adm.changed || !sameSource {
          NativeWriteOk(next, env.persist, rest, now, true, settled);
        } else if env.persist.Durable? {
          assert ([Sync] + rest)[1..] == rest;
          assert now == Some(next);
        }
      }
    }
  }

  lemma NativeTailOk(next: Mark, e: Entry, writes: seq<FsWrite>)
    requires WellFormed(next) && next.fs.adoption.Some? && !next.ended && e.uid == next.uid
    ensures NativeOk([Mutate(e)] + FsWrites(next, writes), Some(next), true, true)
  {
    NativeFsWritesOk(next, writes, next);
    assert ([Mutate(e)] + FsWrites(next, writes))[1..] == FsWrites(next, writes);
  }

  // -------------------------------------------------------------------- steps

  /** An operation other than an import finds its lifecycle active or does nothing. */
  lemma NativeOpNeedsAnOwner(token: Token, r: FsAdmission.FsRequest, writes: seq<FsWrite>, env: Env, now: Option<Mark>)
    requires WellFormedDisk(now) && !r.op.Destroy? && !r.importing && !ActiveNative(now)
    ensures FsOperation(token, r, writes, env, now) == []
  {
  }

  lemma LegacyTaskKeepsInv(w: World, task: seq<Effect>, guard: bool)
    requires Inv(w) && !LegacyBusy(w)
    requires LegacyOk(task, Visible(w).legacy, guard || !ActiveNative(Visible(w).native), LegacySettled(w.disk))
    ensures Inv(w.(legacy := task, guard := guard))
  {
  }

  lemma ManagedStartKeepsInv(w: World, r: Req, env: Env)
    requires Inv(w) && Enabled(w, Begin(r, env)) && !r.NativeOp? && !r.NativeRetire?
    ensures Inv(Start(w, r, env))
  {
    var d, after := Visible(w), Start(w, r, env);
    var quiet, settled := after.guard || !ActiveNative(d.native), LegacySettled(w.disk);
    assert LegacyOk(after.legacy, d.legacy, quiet, settled) by {
      assert DirOk(w.zvol, d, w.managed, w.adopted);
      match r
      case Managed(token, kind) => ManagedOk(token, kind, env.(guardOk := true), d.legacy, quiet, settled);
      case ManagedRetire(token, unexported) => ManagedRetireOk(token, unexported, env, d.legacy, quiet, settled);
      case ManagedImport(token) =>
        if w.zvol { ManagedImportOk(token, env, d.legacy, settled); }
    }
    LegacyTaskKeepsInv(w, after.legacy, after.guard);
  }

  lemma NativeTaskKeepsInv(w: World, task: seq<Effect>, holds: bool)
    requires Inv(w) && w.native == [] && (holds ==> !LegacyBusy(w) && task != [] && !ActiveManaged(Visible(w).legacy))
    requires NativeOk(task, Visible(w).native, holds && !w.zvol, NativeSettled(w.disk))
    ensures Inv(w.(native := task, fsHoldsLegacy := holds))
  {
  }

  lemma NativeStartKeepsInv(w: World, r: Req, env: Env)
    requires Inv(w) && Enabled(w, Begin(r, env)) && (r.NativeOp? || r.NativeRetire?)
    ensures Inv(Start(w, r, env))
  {
    var d, after := Visible(w), Start(w, r, env);
    assert DirOk(w.zvol, d, w.managed, w.adopted);
    match r
    case NativeOp(token, fs, writes) =>
      if !fs.importing && !ActiveNative(d.native) {
        NativeOpNeedsAnOwner(token, fs, writes, env, d.native);
      } else if after.native != [] {
        NativeOpOk(token, fs, writes, env, d.native, NativeSettled(w.disk));
      }
      NativeTaskKeepsInv(w, after.native, after.native != []);
    case NativeRetire(token, unexported) =>
      NativeRetireOk(token, unexported, env, d.native, NativeSettled(w.disk));
      NativeTaskKeepsInv(w, after.native, false);
  }

  /** A rename that extends the mark keeps whoever acted known and active. */
  lemma RenameRemembers(now: Option<Mark>, m: Mark, wasActive: bool, active: bool, acted: set<Uid>)
    requires Extends(now, Some(m)) && Remembers(now, wasActive, acted)
    requires now.Some? && wasActive && m.uid == now.value.uid ==> m.ended || active
    ensures Remembers(Some(m), active, acted)
  {
    forall u | u in acted ensures Met(Some(m), u) {
      assert Met(now, u);
    }
    if m.uid in acted {
      assert Met(now, m.uid);
    }
  }

  lemma LegacyRenameKeepsDisk(w: World, m: Mark)
    requires Inv(w) && !w.guard && w.legacy != [] && w.legacy[0] == Rename(m)
    ensures DiskOk(w.zvol, w.disk + [Visible(w).(legacy := Some(m))], w.managed, w.adopted)
  {
    var d := Visible(w);
    assert DirOk(w.zvol, d, w.managed, w.adopted);
    RenameRemembers(d.legacy, m, ActiveManaged(d.legacy), ActiveManaged(Some(m)), w.managed);
  }

  lemma NativeRenameKeepsDisk(w: World, m: Mark)
    requires Inv(w) && w.native != [] && w.native[0] == Rename(m)
    ensures DiskOk(w.zvol, w.disk + [Visible(w).(native := Some(m))], w.managed, w.adopted)
  {
    var d := Visible(w);
    assert DirOk(w.zvol, d, w.managed, w.adopted);
    RenameRemembers(d.native, m, ActiveNative(d.native), ActiveNative(Some(m)), w.adopted);
  }

  /** Every directory that may survive knows whoever acts now, and holds it active or ended. */
  lemma LegacyMutationKeepsDisk(w: World)
    requires Inv(w) && w.legacy != [] && w.legacy[0].Mutate?
    ensures DiskOk(w.zvol, w.disk, w.managed + Claims(w.legacy[0]), w.adopted)
  {
    forall i | 0 <= i < |w.disk| ensures DirOk(w.zvol, w.disk[i], w.managed + Claims(w.legacy[0]), w.adopted) {
      assert DirOk(w.zvol, w.disk[i], w.managed, w.adopted);
    }
  }

  lemma NativeMutationKeepsDisk(w: World)
    requires Inv(w) && w.native != [] && w.native[0].Mutate?
    ensures DiskOk(w.zvol, w.disk, w.managed, w.adopted + Claims(w.native[0]))
  {
    forall i | 0 <= i < |w.disk| ensures DirOk(w.zvol, w.disk[i], w.managed, w.adopted + Claims(w.native[0])) {
      assert DirOk(w.zvol, w.disk[i], w.managed, w.adopted);
    }
  }

  /** The guard lets the section go on as planned unless it finds an active adoption. */
  lemma GuardKeepsInv(w: World)
    requires Inv(w) && Enabled(w, ExecLegacy) && w.guard
    ensures Inv(Next(w, ExecLegacy))
    ensures Next(w, ExecLegacy) == w.(guard := false, legacy := if ActiveNative(Visible(w).native) then [] else w.legacy)
  {
  }

  lemma LegacyRenameKeepsInv(w: World, m: Mark)
    requires Inv(w) && Enabled(w, ExecLegacy) && !w.guard && w.legacy[0] == Rename(m)
    ensures Inv(Next(w, ExecLegacy))
  {
    var d, after := Visible(w), Next(w, ExecLegacy);
    var quiet := !ActiveNative(d.native);
    LegacyRenameKeepsDisk(w, m);
    LegacyMonotone(after.legacy, Some(m), quiet || ActiveManaged(d.legacy), false, quiet, LegacySettled(after.disk));
    NativeMonotone(w.native, d.native, w.fsHoldsLegacy && !w.zvol, NativeSettled(w.disk), NativeSettled(after.disk));
  }

  lemma LegacySyncKeepsInv(w: World)
    requires Inv(w) && Enabled(w, ExecLegacy) && !w.guard && w.legacy[0].Sync?
    ensures Inv(Next(w, ExecLegacy))
  {
    NativeMonotone(w.native, Visible(w).native, w.fsHoldsLegacy && !w.zvol, NativeSettled(w.disk), true);
  }

  lemma LegacyActionKeepsInv(w: World)
    requires Inv(w) && Enabled(w, ExecLegacy) && !w.guard && (w.legacy[0].Mutate? || w.legacy[0].Answer?)
    ensures Inv(Next(w, ExecLegacy))
  {
    if w.legacy[0].Mutate? {
      LegacyMutationKeepsDisk(w);
    } else {
      assert Next(w, ExecLegacy).managed == w.managed;
    }
  }

  lemma ExecLegacyKeepsInv(w: World)
    requires Inv(w) && Enabled(w, ExecLegacy) && !w.guard
    ensures Inv(Next(w, ExecLegacy))
  {
    match w.legacy[0]
    case Rename(m) => LegacyRenameKeepsInv(w, m);
    case Sync => LegacySyncKeepsInv(w);
    case _ => LegacyActionKeepsInv(w);
  }

  /** The managed section still may do what it planned: an adoption starts only while it holds no lock. */
  lemma NativeRenameKeepsLegacyTask(w: World, m: Mark)
    requires Inv(w) && w.native != [] && w.native[0] == Rename(m)
    ensures var d := Visible(w);
            LegacyOk(w.legacy, d.legacy, w.guard || !ActiveNative(Some(m)),
                     LegacySettled(w.disk + [d.(native := Some(m))]))
  {
    var d := Visible(w);
    if w.legacy != [] {
      LegacyMonotone(w.legacy, d.legacy, w.guard || !ActiveNative(d.native), LegacySettled(w.disk),
                     w.guard || !ActiveNative(Some(m)), LegacySettled(w.disk + [d.(native := Some(m))]));
    }
  }

  lemma NativeRenameKeepsInv(w: World, m: Mark)
    requires Inv(w) && Enabled(w, ExecNative) && w.native[0] == Rename(m)
    ensures Inv(Next(w, ExecNative))
  {
    var after := Next(w, ExecNative);
    NativeRenameKeepsDisk(w, m);
    NativeMonotone(after.native, Some(m), w.fsHoldsLegacy && !w.zvol, false, NativeSettled(after.disk));
    NativeRenameKeepsLegacyTask(w, m);
  }

  lemma NativeSyncKeepsInv(w: World)
    requires Inv(w) && Enabled(w, ExecNative) && w.native[0].Sync?
    ensures Inv(Next(w, ExecNative))
  {
    var d := Visible(w);
    var quiet := w.guard || !ActiveNative(d.native);
    LegacyMonotone(w.legacy, d.legacy, quiet, LegacySettled(w.disk), quiet, true);
  }

  lemma NativeActionKeepsInv(w: World)
    requires Inv(w) && Enabled(w, ExecNative) && (w.native[0].Mutate? || w.native[0].Answer?)
    ensures Inv(Next(w, ExecNative))
  {
    if w.native[0].Mutate? {
      NativeMutationKeepsDisk(w);
    } else {
      assert Next(w, ExecNative).adopted == w.adopted;
    }
  }

  lemma ExecNativeKeepsInv(w: World)
    requires Inv(w) && Enabled(w, ExecNative)
    ensures Inv(Next(w, ExecNative))
  {
    match w.native[0]
    case Rename(m) => NativeRenameKeepsInv(w, m);
    case Sync => NativeSyncKeepsInv(w);
    case _ => NativeActionKeepsInv(w);
  }

  lemma StepKeepsInv(w: World, s: Step)
    requires Inv(w) && Enabled(w, s)
    ensures Inv(Next(w, s))
  {
    match s
    case Begin(r, env) =>
      if r.NativeOp? || r.NativeRetire? { NativeStartKeepsInv(w, r, env); } else { ManagedStartKeepsInv(w, r, env); }
    case ExecLegacy =>
      if w.guard { GuardKeepsInv(w); } else { ExecLegacyKeepsInv(w); }
    case ExecNative => ExecNativeKeepsInv(w);
    case ProcessCrash =>
    case PowerLoss(keep) =>
  }

  lemma {:induction false} RunKeepsInv(w: World, steps: seq<Step>)
    requires Inv(w) && IsRun(w, steps)
    ensures Inv(End(w, steps))
    decreases |steps|
  {
    if steps != [] {
      StepKeepsInv(w, steps[0]);
      RunKeepsInv(Next(w, steps[0]), steps[1..]);
    }
  }

  /**
   In every reachable directory, visible, durable or left by a power loss, a
   managed and an adopted lifecycle of one dataset are never both active.
   */
  lemma ManagedAndNativeNeverCoexist(zvol: bool, steps: seq<Step>, d: Dir)
    requires IsRun(Initial(zvol), steps) && d in End(Initial(zvol), steps).disk
    ensures !(ActiveManaged(d.legacy) && ActiveNative(d.native))
  {
    RunKeepsInv(Initial(zvol), steps);
  }

  /**
   The same by what was done, not by what the marks say: a lifecycle for which
   a managed mutation other than a revoke ran, and which has not ended, shares
   no directory with an active adoption, and a lifecycle that published
   natively, and has not ended, shares none with an active managed owner.
   */
  lemma WhoActedExcludesTheOther(zvol: bool, steps: seq<Step>, d: Dir)
    requires IsRun(Initial(zvol), steps) && d in End(Initial(zvol), steps).disk
    ensures var w := End(Initial(zvol), steps);
            && (d.legacy.Some? && d.legacy.value.uid in w.managed && !d.legacy.value.ended ==> !ActiveNative(d.native))
            && (d.native.Some? && d.native.value.uid in w.adopted && !d.native.value.ended ==> !ActiveManaged(d.legacy))
            && (forall u | u in w.managed :: Met(d.legacy, u)) && (forall u | u in w.adopted :: Met(d.native, u))
  {
    RunKeepsInv(Initial(zvol), steps);
    var w := End(Initial(zvol), steps);
    assert DirOk(w.zvol, d, w.managed, w.adopted);
  }

  // --------------------------------------------- and neither is kept out in vain

  lemma RunStep(w: World, s: Step, rest: seq<Step>)
    requires Enabled(w, s) && IsRun(Next(w, s), rest)
    ensures IsRun(w, [s] + rest) && End(w, [s] + rest) == End(Next(w, s), rest)
  {
    assert ([s] + rest)[1..] == rest;
  }

  /** A managed section past its guard runs on by itself; the lifecycles of its mutations are recorded. */
  lemma {:induction false} LegacyRuns(w: World, n: nat) returns (steps: seq<Step>)
    requires Inv(w) && !w.guard && n <= |w.legacy|
    ensures IsRun(w, steps) && Inv(End(w, steps)) && w.managed <= End(w, steps).managed
    ensures forall i | 0 <= i < n :: Claims(w.legacy[i]) <= End(w, steps).managed
    decreases n
  {
    if n == 0 { return []; }
    StepKeepsInv(w, ExecLegacy);
    var rest := LegacyRuns(Next(w, ExecLegacy), n - 1);
    RunStep(w, ExecLegacy, rest);
    forall i | 0 <= i < n ensures Claims(w.legacy[i]) <= End(Next(w, ExecLegacy), rest).managed {
      if i > 0 { assert w.legacy[i] == Next(w, ExecLegacy).legacy[i - 1]; }
    }
    steps := [ExecLegacy] + rest;
  }

  lemma {:induction false} NativeRuns(w: World, n: nat) returns (steps: seq<Step>)
    requires Inv(w) && n <= |w.native|
    ensures IsRun(w, steps) && Inv(End(w, steps)) && w.adopted <= End(w, steps).adopted
    ensures forall i | 0 <= i < n :: Claims(w.native[i]) <= End(w, steps).adopted
    decreases n
  {
    if n == 0 { return []; }
    StepKeepsInv(w, ExecNative);
    var rest := NativeRuns(Next(w, ExecNative), n - 1);
    RunStep(w, ExecNative, rest);
    forall i | 0 <= i < n ensures Claims(w.native[i]) <= End(Next(w, ExecNative), rest).adopted {
      if i > 0 { assert w.native[i] == Next(w, ExecNative).native[i - 1]; }
    }
    steps := [ExecNative] + rest;
  }

  lemma DurableProgramMutates(token: Token, kind: Kind, env: Env, now: Option<Mark>) returns (n: nat)
    requires WellFormedDisk(now) && PlanFenced(token, kind, true, env, now).Proceed? && env.persist.Durable?
    ensures var p := Fenced(token, kind, true, env, now);
            n < |p| && p[n] == Mutate(EntryOf(token, kind, env))
  {
    n := if PlanFenced(token, kind, true, env, now).changed then 2 else 1;
  }

  lemma GuardPasses(w: World, token: Token, kind: Kind, env: Env)
    requires Inv(w) && !LegacyBusy(w) && !ActiveNative(Visible(w).native) && !IsRevoke(kind)
    ensures var b := Begin(Managed(token, kind), env);
            && Enabled(w, b) && Enabled(Next(w, b), ExecLegacy) && Inv(Next(Next(w, b), ExecLegacy))
            && Next(Next(w, b), ExecLegacy) ==
               w.(legacy := Fenced(token, kind, true, env.(guardOk := true), Visible(w).legacy))
  {
    var b := Begin(Managed(token, kind), env);
    ManagedStartKeepsInv(w, b.request, env);
    GuardKeepsInv(Next(w, b));
  }

  /** While no adoption is active and the locks are free, a managed section that is not refused acts. */
  lemma ManagedActsUnlessAdopted(w: World, token: Token, kind: Kind, env: Env) returns (steps: seq<Step>)
    requires Inv(w) && !LegacyBusy(w) && !ActiveNative(Visible(w).native) && !IsRevoke(kind)
    requires env.persist.Durable? && PlanFenced(token, kind, true, env.(guardOk := true), Visible(w).legacy).Proceed?
    ensures IsRun(w, steps) && token.uid in End(w, steps).managed
  {
    var b := Begin(Managed(token, kind), env);
    GuardPasses(w, token, kind, env);
    var past := Next(Next(w, b), ExecLegacy);
    var n := DurableProgramMutates(token, kind, env.(guardOk := true), Visible(w).legacy);
    var rest := LegacyRuns(past, n + 1);
    RunStep(Next(w, b), ExecLegacy, rest);
    RunStep(w, b, [ExecLegacy] + rest);
    assert token.uid in Claims(past.legacy[n]);
    steps := [b] + ([ExecLegacy] + rest);
  }

  /** The node, the source and the disk let a native operation go on. */
  predicate Fair(env: Env) {
    env.readOk && env.guardOk && env.mutateOk && env.persist.Durable? && env.final.Durable?
  }

  lemma ImportBegins(w: World, token: Token, r: FsAdmission.FsRequest, env: Env) returns (next: Mark)
    requires Inv(w) && !LegacyBusy(w) && w.native == [] && !w.zvol && !ActiveManaged(Visible(w).legacy) && Fair(env)
    requires r.importing && r.op.Grant? && FsSafety.Admissible(token, r, Visible(w).native)
    ensures var b := Begin(NativeOp(token, r, []), env);
            && Enabled(w, b) && Inv(Next(w, b)) && Next(w, b).native == [Rename(next), Sync]
            && ActiveNative(Some(next)) && next.uid == token.uid
  {
    FsSafety.DecisionIff(token, r, true, Visible(w).native);
    AdmissionChangesOnly(token, r.op, Visible(w).native);
    next := FsAdmission.Claim(r, Admit(token, r.op, Visible(w).native).next);
    StepKeepsInv(w, Begin(NativeOp(token, r, []), env));
  }

  /** While no managed owner is active and the locks are free, an admissible import of a filesystem takes it over. */
  lemma AdoptsUnlessManaged(w: World, token: Token, r: FsAdmission.FsRequest, env: Env) returns (steps: seq<Step>)
    requires Inv(w) && !LegacyBusy(w) && w.native == [] && !w.zvol && !ActiveManaged(Visible(w).legacy) && Fair(env)
    requires r.importing && r.op.Grant? && FsSafety.Admissible(token, r, Visible(w).native)
    ensures IsRun(w, steps) && |End(w, steps).disk| == 1
    ensures var m := End(w, steps).disk[0].native; ActiveNative(m) && m.value.uid == token.uid
  {
    var b := Begin(NativeOp(token, r, []), env);
    var next := ImportBegins(w, token, r, env);
    var w1 := Next(w, b);
    StepKeepsInv(w1, ExecNative);
    RunStep(Next(w1, ExecNative), ExecNative, []);
    RunStep(w1, ExecNative, [ExecNative] + []);
    RunStep(w, b, [ExecNative] + ([ExecNative] + []));
    steps := [b] + ([ExecNative] + ([ExecNative] + []));
  }

  lemma PublicationBegins(w: World, token: Token, r: FsAdmission.FsRequest, env: Env) returns (n: nat)
    requires Inv(w) && !LegacyBusy(w) && w.native == [] && Fair(env)
    requires !r.importing && r.op.Grant? && FsSafety.Admissible(token, r, Visible(w).native)
    ensures var b := Begin(NativeOp(token, r, []), env);
            && Enabled(w, b) && Inv(Next(w, b))
            && n < |Next(w, b).native| && Next(w, b).native[n] == Mutate(EntryOf(token, FsPublish, env))
  {
    var b := Begin(NativeOp(token, r, []), env);
    FsSafety.DecisionIff(token, r, true, Visible(w).native);
    NativeStartKeepsInv(w, b.request, env);
    n := |Next(w, b).native| - 1;
  }

  /** An admissible publication of the adopted filesystem acts, whatever the managed side was. */
  lemma AdoptedOwnerActs(w: World, token: Token, r: FsAdmission.FsRequest, env: Env) returns (steps: seq<Step>)
    requires Inv(w) && !LegacyBusy(w) && w.native == [] && Fair(env)
    requires !r.importing && r.op.Grant? && FsSafety.Admissible(token, r, Visible(w).native)
    ensures IsRun(w, steps) && token.uid in End(w, steps).adopted
  {
    var b := Begin(NativeOp(token, r, []), env);
    var n := PublicationBegins(w, token, r, env);
    var w1 := Next(w, b);
    var rest := NativeRuns(w1, n + 1);
    RunStep(w, b, rest);
    assert token.uid in Claims(w1.native[n]);
    steps := [b] + rest;
  }

  /** A crash leaves neither lock taken. */
  lemma CrashFreesTheLocks(w: World, s: Step)
    requires Enabled(w, s) && (s.ProcessCrash? || s.PowerLoss?)
    ensures !LegacyBusy(Next(w, s)) && Next(w, s).native == []
  {
  }
}
