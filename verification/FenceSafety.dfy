/** Proof that every run of the fencing machine keeps its invariant. */
module FenceSafety {
  import opened Marks
  import opened FencePrograms
  import opened FenceMachine
  import FsAdmission

  // ------------------------------------------------- programs keep their word

  /** A sync made for another volume never invalidates a running section. */
  lemma {:induction false} TaskSurvivesSync(task: seq<Effect>, d: Option<Mark>, d': Option<Mark>, v: Option<Mark>)
    requires TaskOk(task, d, v)
    requires Extends(d, d') && Extends(d', v)
    ensures TaskOk(task, d', v)
    decreases |task|
  {
    if task != [] {
      match task[0]
      case Rename(m) =>
        ExtendsTransitive(d', v, Some(m));
        TaskSurvivesSync(task[1..], d, d', Some(m));
      case Sync =>
      case Mutate(e) =>
        OwnershipIsConvex(d, d', v);
        TaskSurvivesSync(task[1..], d, d', v);
      case Answer(a) =>
        TaskSurvivesSync(task[1..], d, d', v);
    }
  }

  lemma WriteOk(m: Mark, io: WriteIo, rest: seq<Effect>, d: Option<Mark>, v: Option<Mark>)
    requires WellFormed(m) && Extends(v, Some(m))
    requires io.Durable? ==> TaskOk(rest, Some(m), Some(m))
    requires !io.Durable? ==> rest == []
    ensures TaskOk(WriteMark(m, io) + rest, d, v)
  {
    match io
    case NotRenamed =>
    case SyncLost => assert WriteMark(m, io) + rest == [Rename(m)]; assert [Rename(m)][1..] == [];
    case Durable =>
      var p := WriteMark(m, io) + rest;
      assert p[1..][1..] == rest;
      assert p[1..][0] == Sync;
  }

  lemma PersistOk(m: Mark, changed: bool, io: WriteIo, rest: seq<Effect>, d: Option<Mark>, v: Option<Mark>)
    requires WellFormed(m) && Extends(v, Some(m))
    requires !changed ==> v == Some(m)
    requires io.Durable? ==> TaskOk(rest, Some(m), Some(m))
    requires !io.Durable? ==> rest == []
    ensures TaskOk(Persist(m, changed, io) + rest, d, v)
  {
    if changed {
      WriteOk(m, io, rest, d, v);
    } else if io.Durable? {
      assert ([Sync] + rest)[1..] == rest;
    }
  }

  lemma AckOk(a: Ack, v: Option<Mark>)
    requires Backs(v, a) && (a.Released? ==> v.Some? && a.uid in v.value.retired)
    ensures TaskOk([Answer(a)], v, v)
  {
    assert [Answer(a)][1..] == [];
  }

  lemma AfterMutationOk(next: Mark, token: Token, kind: Kind, env: Env)
    requires WellFormed(next) && next.uid == token.uid && next.gen == token.gen
    ensures TaskOk(AfterMutation(next, token, kind, env), Some(next), Some(next))
  {
    if env.mutateOk {
      match OpOf(kind)
      case Grant => AckOk(Passed(token), Some(next));
      case Revoke =>
      case Destroy =>
        var ended := next.(ended := true);
        var ack := Destroyed(token.uid, next.source.Some?);
        AckOk(ack, Some(ended));
        if !next.ended {
          WriteOk(ended, env.final, if env.final.Durable? then [Answer(ack)] else [], Some(next), Some(next));
        }
    }
  }

  lemma MutationOk(next: Mark, e: Entry, rest: seq<Effect>)
    requires Fires(Some(next), e) && TaskOk(rest, Some(next), Some(next))
    ensures TaskOk([Mutate(e)] + rest, Some(next), Some(next))
  {
    assert ([Mutate(e)] + rest)[1..] == rest;
  }

  lemma FencedFires(token: Token, kind: Kind, dataset: bool, env: Env, v: Option<Mark>)
    requires WellFormedDisk(v) && PlanFenced(token, kind, dataset, env, v).Proceed?
    ensures Fires(Some(PlanFenced(token, kind, dataset, env, v).next), EntryOf(token, kind, env))
  {
  }

  lemma PersistThenMutateOk(
    next: Mark, changed: bool, token: Token, kind: Kind, env: Env, d: Option<Mark>, v: Option<Mark>)
    requires WellFormed(next) && next.uid == token.uid && next.gen == token.gen
    requires Extends(v, Some(next)) && (!changed ==> v == Some(next)) && Fires(Some(next), EntryOf(token, kind, env))
    ensures TaskOk(PersistThenMutate(next, changed, token, kind, env), d, v)
  {
    var after := AfterMutation(next, token, kind, env);
    AfterMutationOk(next, token, kind, env);
    MutationOk(next, EntryOf(token, kind, env), after);
    var rest := if env.persist.Durable? then [Mutate(EntryOf(token, kind, env))] + after else [];
    PersistOk(next, changed, env.persist, rest, d, v);
  }

  lemma FencedOk(token: Token, kind: Kind, dataset: bool, env: Env, d: Option<Mark>, v: Option<Mark>)
    requires WellFormedDisk(v)
    ensures TaskOk(Fenced(token, kind, dataset, env, v), d, v)
  {
    match PlanFenced(token, kind, dataset, env, v)
    case ReadFailed =>
    case Refuse =>
    case Resync(m) =>
      var ack := Destroyed(token.uid, true);
      AckOk(ack, v);
      PersistOk(m, false, env.persist, if env.persist.Durable? then [Answer(ack)] else [], d, v);
    case Proceed(next, changed) =>
      FencedFires(token, kind, dataset, env, v);
      PersistThenMutateOk(next, changed, token, kind, env, d, v);
  }

  lemma ImportOk(token: Token, src: Option<Lv>, preserve: bool, env: Env, d: Option<Mark>, v: Option<Mark>)
    requires WellFormedDisk(v)
    ensures TaskOk(Import(token, src, preserve, env, v), d, v)
  {
    match PlanImport(token, src, preserve, env, v)
    case Proceed(next, changed) =>
      var ack := Imported(next.source, next.preserve);
      AckOk(ack, Some(next));
      PersistOk(next, changed, env.persist, if env.persist.Durable? then [Answer(ack)] else [], d, v);
    case _ =>
  }

  lemma RetireOk(token: Token, unexported: bool, env: Env, d: Option<Mark>, v: Option<Mark>)
    requires WellFormedDisk(v)
    ensures TaskOk(RetireLifecycle(token, unexported, env, v), d, v)
  {
    if env.readOk {
      match Retire(token, unexported, ReleaseVerified(v, env), v)
      case RetireWith(next, _) =>
        var ack := Released(token.uid, true);
        AckOk(ack, Some(next));
        WriteOk(next, env.persist, if env.persist.Durable? then [Answer(ack)] else [], d, v);
      case NothingToDo => assert [Answer(Released(token.uid, false))][1..] == [];
      case _ =>
    }
  }

  lemma RecheckOk(token: Token, env: Env, d: Option<Mark>, v: Option<Mark>)
    requires WellFormedDisk(v) && Extends(d, v) && Dominates(d, token)
    ensures TaskOk(Recheck(token, env, v), d, v)
  {
    var p := Recheck(token, env, v);
    if p != [] {
      var e := EntryOf(token, Link, env);
      assert Fires(v, e) && Fires(d, e);
      assert p[1..] == [];
    }
  }

  lemma TransferOk(auth: Authorization, snap: Snapshot, env: Env, d: Option<Mark>, v: Option<Mark>)
    requires WellFormedDisk(v)
    ensures TaskOk(TransferOwnership(auth, snap, env, v), d, v)
  {
    match PlanTransfer(auth, snap, env, v)
    case NoTransfer =>
    case Retry(m) => TransferWriteOk(m, auth, env.persist, d, v);
    case Move(m) => TransferWriteOk(m, auth, env.persist, d, v);
  }

  lemma TransferWriteOk(m: Mark, auth: Authorization, io: WriteIo, d: Option<Mark>, v: Option<Mark>)
    requires WellFormed(m) && Gained(m, auth) && Extends(v, Some(m))
    ensures TaskOk(CommitThen(m, true, io, Transferred(auth.newUid, auth.digest, m.preserve)), d, v)
  {
    var ack := Transferred(auth.newUid, auth.digest, m.preserve);
    AckOk(ack, Some(m));
    WriteOk(m, io, if io.Durable? then [Answer(ack)] else [], d, v);
  }

  lemma {:induction false} FsWritesOk(next: Mark, writes: seq<FsWrite>, d: Option<Mark>, v: Mark)
    requires WellFormed(next) && v == next.(fs := v.fs)
    ensures TaskOk(FsWrites(next, writes), d, Some(v))
    decreases |writes|
  {
    if writes != [] {
      var m := next.(fs := KeepSource(next.fs, writes[0].fs));
      FsWritesOk(next, writes[1..], Some(m), m);
      WriteOk(m, writes[0].io, if writes[0].io.Durable? then FsWrites(next, writes[1..]) else [], d, Some(v));
    }
  }

  lemma FsOperationOk(
    token: Token, r: FsAdmission.FsRequest, writes: seq<FsWrite>, env: Env, d: Option<Mark>, v: Option<Mark>)
    requires WellFormedDisk(v) && !r.op.Destroy?
    ensures TaskOk(FsOperation(token, r, writes, env, v), d, v)
  {
    var adm := Admit(token, r.op, v);
    if FsOperation(token, r, writes, env, v) != [] {
      var next := FsAdmission.Claim(r, adm.next);
      if r.importing {
        WriteOk(next, env.final, [], d, v);
        assert WriteMark(next, env.final) == WriteMark(next, env.final) + [];
      } else {
        var e := EntryOf(token, if r.op.Grant? then FsPublish else FsWithdraw, env);
        FsWritesOk(next, writes, Some(next), next);
        MutationOk(next, e, FsWrites(next, writes));
        var rest := if env.persist.Durable? then [Mutate(e)] + FsWrites(next, writes) else [];
        var sameSource := v.Some? && v.value.fs.adoption == next.fs.adoption;
        PersistOk(next, adm.changed || !sameSource, env.persist, rest, d, v);
      }
    }
  }

  lemma ProgramOk(r: Request, env: Env, d: Option<Mark>, v: Option<Mark>)
    requires WellFormedDisk(v) && Extends(d, v) && ValidRequest(r)
    requires r.DoRecheck? ==> Dominates(d, r.token)
    ensures TaskOk(Program(r, env, v), d, v)
  {
    match r
    case DoFenced(token, kind, dataset) => FencedOk(token, kind, dataset, env, d, v);
    case DoImport(token, src, preserve) => ImportOk(token, src, preserve, env, d, v);
    case DoRetire(token, unexported) => RetireOk(token, unexported, env, d, v);
    case DoRecheck(token) => RecheckOk(token, env, d, v);
    case DoTransfer(auth, snap) => TransferOk(auth, snap, env, d, v);
    case DoFs(token, fs, writes) => FsOperationOk(token, fs, writes, env, d, v);
  }

  // ------------------------------------------------------------- the log

  lemma RemembersLater(a: Option<Mark>, b: Option<Mark>, ev: Event)
    requires Extends(a, b) && Remembers(a, ev)
    ensures Remembers(b, ev)
  {
  }

  /** The marks may move on without touching what the log says. */
  lemma LogCarriesOver(log: seq<Event>, d: Option<Mark>, v: Option<Mark>, d': Option<Mark>, v': Option<Mark>)
    requires LogOk(log, d, v) && Extends(d, d') && Extends(v, v')
    ensures LogOk(log, d', v')
  {
    forall i | 0 <= i < |log| ensures Remembers(d', log[i]) {
      RemembersLater(d, d', log[i]);
    }
  }

  lemma LaterIsCompatible(m: Option<Mark>, earlier: Event, later: Event)
    requires Remembers(m, earlier)
    requires later.Ran? ==> Fires(m, later.entry)
    requires later.Acked? ==> Backs(m, later.ack)
    ensures Compatible(earlier, later)
  {
  }

  lemma CompatibleWithAll(log: seq<Event>, m: Option<Mark>, later: Event)
    requires AllRemembered(log, m) && AllCompatible(log)
    requires later.Ran? ==> Fires(m, later.entry)
    requires later.Acked? ==> Backs(m, later.ack)
    ensures AllCompatible(log + [later])
  {
    forall i | 0 <= i < |log| ensures Compatible(log[i], later) {
      LaterIsCompatible(m, log[i], later);
    }
  }

  lemma RememberedWith(log: seq<Event>, m: Option<Mark>, later: Event)
    requires AllRemembered(log, m) && Remembers(m, later)
    ensures AllRemembered(log + [later], m)
  {
  }

  /** A lifecycle that ran before another one is retired, so it cannot run again. */
  lemma RanKeepsBlocks(log: seq<Event>, d: Option<Mark>, e: Entry)
    requires Contiguous(log) && OlderAreRetired(log, d) && Fires(d, e)
    ensures Contiguous(log + [Ran(e, d)])
  {
    var log' := log + [Ran(e, d)];
    forall i, j, k | 0 <= i < j < k < |log'| && log'[i].Ran? && log'[j].Ran? && log'[k].Ran? &&
                     log'[i].entry.uid == log'[k].entry.uid
      ensures log'[j].entry.uid == log'[i].entry.uid
    {
      assert log'[i] == log[i] && log'[j] == log[j];
    }
  }

  lemma RanSupersedes(log: seq<Event>, d: Option<Mark>, e: Entry)
    requires AllRemembered(log, d) && OlderAreRetired(log, d) && Fires(d, e)
    ensures OlderAreRetired(log + [Ran(e, d)], d)
  {
    var log' := log + [Ran(e, d)];
    forall i, j | 0 <= i < j < |log'| && log'[i].Ran? && log'[j].Ran? && log'[i].entry.uid != log'[j].entry.uid
      ensures log'[i].entry.uid in d.value.retired
    {
      assert Remembers(d, log[i]);
    }
  }

  lemma PowerLossStays(log: seq<Event>, ev: Event, i: nat, j: nat)
    requires i <= j <= |log|
    ensures PowerLossBetween(log + [ev], i, j) <==> PowerLossBetween(log, i, j)
    ensures PowerLossBetween(log, i, |log|) ==> PowerLossBetween(log + [ev], i, |log| + 1)
  {
    var log' := log + [ev];
    if PowerLossBetween(log', i, j) {
      var k :| i < k < j && log'[k] == PowerLost;
      assert log[k] == PowerLost;
    }
    if PowerLossBetween(log, i, j) {
      var k :| i < k < j && log[k] == PowerLost;
      assert log'[k] == PowerLost;
    }
    if PowerLossBetween(log, i, |log|) {
      var k :| i < k < |log| && log[k] == PowerLost;
      assert log'[k] == PowerLost;
    }
  }

  lemma ReleasesHoldWith(log: seq<Event>, v: Option<Mark>, ev: Event)
    requires ReleasesHold(log, v)
    requires ev.Ran? ==> Fires(v, ev.entry)
    requires ev.Acked? && ev.ack.Released? ==> v.Some? && ev.ack.uid in v.value.retired
    ensures ReleasesHold(log + [ev], v)
  {
    var log' := log + [ev];
    forall i | 0 <= i < |log'| && log'[i].Acked? && log'[i].ack.Released?
      ensures (v.Some? && log'[i].ack.uid in v.value.retired) || PowerLossBetween(log', i, |log'|)
    {
      if i < |log| { PowerLossStays(log, ev, i, |log|); }
    }
    forall i, j | 0 <= i < j < |log'| && log'[i].Acked? && log'[i].ack.Released? && log'[j].Ran?
      ensures log'[j].entry.uid != log'[i].ack.uid || PowerLossBetween(log', i, j)
    {
      PowerLossStays(log, ev, i, j);
    }
  }

  lemma LogRan(log: seq<Event>, d: Option<Mark>, v: Option<Mark>, e: Entry)
    requires LogOk(log, d, v) && Fires(d, e) && Fires(v, e)
    ensures LogOk(log + [Ran(e, d)], d, v)
  {
    RememberedWith(log, d, Ran(e, d));
    CompatibleWithAll(log, d, Ran(e, d));
    RanSupersedes(log, d, e);
    RanKeepsBlocks(log, d, e);
    ReleasesHoldWith(log, v, Ran(e, d));
    assert AllFired(log + [Ran(e, d)]);
  }

  /** Events that are not mutations leave the order of mutations alone. */
  lemma OrderIgnores(log: seq<Event>, d: Option<Mark>, ev: Event)
    requires AllFired(log) && OlderAreRetired(log, d) && Contiguous(log) && !ev.Ran?
    ensures AllFired(log + [ev]) && OlderAreRetired(log + [ev], d) && Contiguous(log + [ev])
  {
  }

  lemma LogAck(log: seq<Event>, d: Option<Mark>, v: Option<Mark>, a: Ack)
    requires LogOk(log, d, v) && Backs(d, a)
    requires a.Released? ==> v.Some? && a.uid in v.value.retired
    ensures LogOk(log + [Acked(a)], d, v)
  {
    RememberedWith(log, d, Acked(a));
    CompatibleWithAll(log, d, Acked(a));
    OrderIgnores(log, d, Acked(a));
    ReleasesHoldWith(log, v, Acked(a));
  }

  lemma LogPowerLoss(log: seq<Event>, d: Option<Mark>, v: Option<Mark>, kept: Option<Mark>)
    requires LogOk(log, d, v) && Extends(d, kept)
    ensures LogOk(log + [PowerLost], kept, kept)
  {
    forall i | 0 <= i < |log| ensures Remembers(kept, log[i]) {
      RemembersLater(d, kept, log[i]);
    }
    RememberedWith(log, kept, PowerLost);
    CompatibleWithAll(log, kept, PowerLost);
    OrderIgnores(log, kept, PowerLost);
    PowerLossEndsReleases(log, v, kept);
  }

  lemma PowerLossEndsReleases(log: seq<Event>, v: Option<Mark>, kept: Option<Mark>)
    requires ReleasesHold(log, v)
    ensures ReleasesHold(log + [PowerLost], kept)
  {
    var log' := log + [PowerLost];
    forall i | 0 <= i < |log'| && log'[i].Acked? ensures PowerLossBetween(log', i, |log'|) {
      assert log'[|log|] == PowerLost;
    }
    forall i, j | 0 <= i < j < |log'| && log'[i].Acked? && log'[i].ack.Released? && log'[j].Ran?
      ensures log'[j].entry.uid != log'[i].ack.uid || PowerLossBetween(log', i, j)
    {
      PowerLossStays(log, PowerLost, i, j);
    }
  }

  // ----------------------------------------------------------------- steps

  lemma RenameKeepsDisk(disk: seq<Option<Mark>>, m: Mark)
    requires DiskOk(disk) && WellFormed(m) && Extends(disk[|disk| - 1], Some(m))
    ensures DiskOk(disk + [Some(m)])
  {
    forall i | 0 <= i < |disk| ensures Extends(disk[i], Some(m)) {
      if i < |disk| - 1 { ExtendsTransitive(disk[i], disk[|disk| - 1], Some(m)); }
    }
  }

  lemma ExtendsReflexive(m: Option<Mark>)
    ensures Extends(m, m)
  {
  }

  lemma RenameKeepsInv(w: World)
    requires Inv(w) && w.task != [] && w.task[0].Rename?
    ensures Inv(Next(w, Exec))
  {
    var d, v, m := DurableMark(w), Visible(w), w.task[0].mark;
    RenameKeepsDisk(w.disk, m);
    ExtendsReflexive(d);
    LogCarriesOver(w.log, d, v, d, Some(m));
    var w' := Next(w, Exec);
    assert DurableMark(w') == d && Visible(w') == Some(m);
  }

  lemma DurableToVisible(disk: seq<Option<Mark>>)
    requires DiskOk(disk)
    ensures Extends(disk[0], disk[|disk| - 1])
  {
    ExtendsReflexive(disk[0]);
  }

  lemma SyncKeepsInv(w: World)
    requires Inv(w) && w.task != [] && w.task[0].Sync?
    ensures Inv(Next(w, Exec))
  {
    var d, v := DurableMark(w), Visible(w);
    DurableToVisible(w.disk);
    ExtendsReflexive(v);
    LogCarriesOver(w.log, d, v, v, v);
  }

  lemma ExecKeepsInv(w: World)
    requires Inv(w) && w.task != []
    ensures Inv(Next(w, Exec))
  {
    match w.task[0]
    case Rename(m) => RenameKeepsInv(w);
    case Sync => SyncKeepsInv(w);
    case Mutate(e) => LogRan(w.log, DurableMark(w), Visible(w), e);
    case Answer(a) =>
      if !a.Passed? { LogAck(w.log, DurableMark(w), Visible(w), a); }
  }

  lemma BeginKeepsInv(w: World, r: Request, env: Env)
    requires Inv(w) && Enabled(w, Begin(r, env))
    ensures Inv(Next(w, Begin(r, env)))
  {
    DurableToVisible(w.disk);
    ProgramOk(r, env, DurableMark(w), Visible(w));
  }

  lemma ForeignSyncKeepsInv(w: World)
    requires Inv(w)
    ensures Inv(w.(disk := [Visible(w)]))
  {
    var d, v := DurableMark(w), Visible(w);
    DurableToVisible(w.disk);
    ExtendsReflexive(v);
    TaskSurvivesSync(w.task, d, v, v);
    LogCarriesOver(w.log, d, v, v, v);
  }

  lemma PowerLossKeepsInv(w: World, keep: nat)
    requires Inv(w) && keep < |w.disk|
    ensures Inv(World([w.disk[keep]], {}, false, [], w.log + [PowerLost]))
  {
    ExtendsReflexive(w.disk[0]);
    assert Extends(w.disk[0], w.disk[keep]);
    LogPowerLoss(w.log, DurableMark(w), Visible(w), w.disk[keep]);
  }

  lemma StepKeepsInv(w: World, s: Step)
    requires Inv(w) && Enabled(w, s)
    ensures Inv(Next(w, s))
  {
    match s
    case Begin(r, env) => BeginKeepsInv(w, r, env);
    case Exec => ExecKeepsInv(w);
    case ForeignSync => ForeignSyncKeepsInv(w);
    case ProcessCrash =>
    case PowerLoss(keep) => PowerLossKeepsInv(w, keep);
  }

  lemma {:induction false} RunKeepsInv(w: World, steps: seq<Step>)
    requires Inv(w) && IsRun(w, steps)
    ensures Inv(End(w, steps))
    decreases |steps|
  {
    if steps != [] {
      StepKeepsInv(w, steps[0]);
      RunKeepsInv(Next(w, steps[0]), steps[1..]);
    }
  }

  lemma EveryRunIsSafe(steps: seq<Step>)
    requires IsRun(INITIAL, steps)
    ensures Inv(End(INITIAL, steps))
  {
    RunKeepsInv(INITIAL, steps);
  }

  lemma StepMovesForward(w: World, s: Step)
    requires DiskOk(w.disk) && TaskOk(w.task, DurableMark(w), Visible(w)) && Enabled(w, s)
    ensures Extends(DurableMark(w), DurableMark(Next(w, s)))
    ensures !s.PowerLoss? ==> Extends(Visible(w), Visible(Next(w, s)))
  {
    DurableToVisible(w.disk);
    ExtendsReflexive(w.disk[0]);
    ExtendsReflexive(Visible(w));
  }

  /** Along any run the durable mark only moves forward, whatever is lost. */
  lemma {:induction false} DurableMovesForward(w: World, steps: seq<Step>)
    requires Inv(w) && IsRun(w, steps)
    ensures Extends(DurableMark(w), DurableMark(End(w, steps)))
    decreases |steps|
  {
    if steps == [] {
      ExtendsReflexive(DurableMark(w));
    } else {
      var w' := Next(w, steps[0]);
      StepKeepsInv(w, steps[0]);
      StepMovesForward(w, steps[0]);
      DurableMovesForward(w', steps[1..]);
      ExtendsTransitive(DurableMark(w), DurableMark(w'), DurableMark(End(w', steps[1..])));
    }
  }

  /** Until a power loss the visible mark only moves forward too. */
  lemma {:induction false} VisibleMovesForward(w: World, steps: seq<Step>)
    requires Inv(w) && IsRun(w, steps)
    requires forall s | s in steps :: !s.PowerLoss?
    ensures Extends(Visible(w), Visible(End(w, steps)))
    decreases |steps|
  {
    if steps == [] {
      ExtendsReflexive(Visible(w));
    } else {
      var w' := Next(w, steps[0]);
      StepKeepsInv(w, steps[0]);
      StepMovesForward(w, steps[0]);
      VisibleMovesForward(w', steps[1..]);
      ExtendsTransitive(Visible(w), Visible(w'), Visible(End(w', steps[1..])));
    }
  }
}
