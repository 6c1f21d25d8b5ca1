/**
 The fenced sections of one volume, step by step as the agent runs them.  Each
 method is proved to have exactly the effects of its program, so everything
 proved about runs of the fencing machine holds of the methods.
 */
module FencedVolumes {
  import opened Marks
  import opened FencePrograms
  import opened FenceMachine
  import opened FenceSafety
  import opened FenceRelease
  import opened FenceTheorems
  import opened RecoveryEvidence

  datatype Reply = Done | Refused | Failed

  lemma RunOne(w: World, a: Effect)
    requires w.disk != []
    ensures RunAll(w, [a]) == Apply(w, a)
  {
    assert [a][1..] == [];
  }

  lemma RunTwo(w: World, a: Effect, b: Effect)
    requires w.disk != []
    ensures RunAll(w, [a, b]) == Apply(Apply(w, a), b)
  {
    assert [a, b][1..] == [b];
    RunOne(Apply(w, a), b);
  }

  lemma CommitInTwo(w: World, m: Mark, changed: bool, io: WriteIo, a: Ack)
    requires w.disk != []
    ensures RunAll(w, CommitThen(m, changed, io, a)) ==
            if io.Durable? then RunAll(RunAll(w, Persist(m, changed, io)), [Answer(a)])
            else RunAll(w, Persist(m, changed, io))
  {
    if io.Durable? {
      RunAllAppend(w, Persist(m, changed, io), [Answer(a)]);
    } else {
      assert Persist(m, changed, io) + [] == Persist(m, changed, io);
    }
  }

  /** A retirement keeps the invariant, and finds no export after the release's unexport. */
  lemma ReadyToRetire(w: World, t: Token, unexported: bool, env: Env)
    requires Inv(w) && w.task == [] && (unexported ==> Quiet(w, t))
    ensures WellFormedDisk(Visible(w)) && Inv(RunAll(w, RetireLifecycle(t, unexported, env, Visible(w))))
    ensures unexported && OwnedBy(Visible(w), t.uid) ==> !w.exported
  {
    SectionIsARun(w, DoRetire(t, unexported), env);
    if unexported { QuietMeansNoExport(w, t); }
  }

  /** The token's mark is durable; `ended` asks that its lifecycle has ended. */
  predicate Settled(disk: seq<Option<Mark>>, token: Token, ended: bool) {
    && |disk| == 1 && disk[0].Some? && disk[0].value.uid == token.uid && disk[0].value.gen == token.gen
    && (ended ==> disk[0].value.ended)
  }

  /** The owner was retired: its end is durable. */
  predicate OwnerRetired(disk: seq<Option<Mark>>, uid: Uid) {
    |disk| == 1 && disk[0].Some? && uid in disk[0].value.retired && disk[0].value.ended
  }

  predicate SameOwner(a: Mark, b: Mark) {
    && a.uid == b.uid && a.gen == b.gen && a.ended == b.ended && a.transfer == b.transfer
    && a.source == b.source && a.preserve == b.preserve && a.retired <= b.retired
  }

  function Observed(env: Env, stopped: bool): Env {
    env.(stopped := stopped)
  }

  /** The pinned LV of the stored mark is proven out of use. */
  ghost predicate OwnerStopped(
    stored: Option<Mark>, obs: Option<LvObservation>, ownIds: set<string>, own: Option<seq<ExportObservation>>)
  {
    stored.Some? && stored.value.source.Some? && ProvenStopped(stored.value.source.value, obs, ownIds, own)
  }

  /**
   A transfer answer never claims more than the disk holds: committed means
   durable, unknown means visible with nothing rolled back, refused means no
   change.
   */
  predicate Honest(reply: TransferReply, auth: Authorization, was: World, now: World) {
    now.disk != [] &&
    match reply
    case Committed => |now.disk| == 1 && now.disk[0].Some? && Gained(now.disk[0].value, auth)
    case AlreadyCommitted => |now.disk| == 1 && now.disk[0].Some? && Gained(now.disk[0].value, auth)
    case Unknown => was.disk <= now.disk && Visible(now).Some? && Gained(Visible(now).value, auth)
    case TransferRefused => now == was
  }

  /** Retiring a lifecycle that does not own leaves the owner as it was. */
  predicate KeepsOthers(was: Option<Mark>, now: Option<Mark>, uid: Uid) {
    was.Some? && was.value.uid != uid ==> now.Some? && SameOwner(was.value, now.value)
  }

  predicate OwnedBy(m: Option<Mark>, uid: Uid) {
    m.Some? && m.value.uid == uid && uid !in m.value.retired
  }

  /** No call of the section fails. */
  predicate Fair(env: Env) {
    env.readOk && env.persist.Durable? && env.mutateOk && env.final.Durable?
  }

  /** The mark reached the token's generation and kept what a release looks at. */
  predicate Advanced(was: Mark, now: Mark, t: Token) {
    && now.uid == t.uid && now.gen == t.gen && now.ended == was.ended && now.retired == was.retired
    && now.source == was.source && now.preserve == was.preserve
  }

  predicate MayUnexport(m: Option<Mark>, t: Token) {
    OwnedBy(m, t.uid) && OwnerMay(t, m.value) && t.uid != ""
  }

  predicate Unexported(was: Option<Mark>, now: Option<Mark>, t: Token) {
    MayUnexport(was, t) && now.Some? && Advanced(was.value, now.value, t)
  }

  /** The pinned LV of the owner is in place and, if preserved, idle. */
  predicate SourceReady(m: Mark, env: Env) {
    m.source.Some? ==> env.lv == m.source && (m.preserve ==> env.idle)
  }

  /** An owner with a current token can always unexport, and its mark advances. */
  lemma UnexportedMarkIs(t: Token, dataset: bool, env: Env, m: Mark)
    requires WellFormed(m) && OwnedBy(Some(m), t.uid)
    ensures OwnerMay(t, m) && t.uid != "" ==> !FencedRefuses(t, Unexport, env, Some(m))
    ensures PlanFenced(t, Unexport, dataset, env, Some(m)).Proceed? ==>
              Advanced(m, PlanFenced(t, Unexport, dataset, env, Some(m)).next, t)
  {
    if PlanFenced(t, Unexport, dataset, env, Some(m)).Proceed? {
      AdmissionChangesOnly(t, Revoke, Some(m));
      FencedMarkIs(t, Unexport, dataset, env, Some(m));
    }
  }

  class FencedVolume {
    var disk: seq<Option<Mark>>   // durable mark first, visible mark last
    var passed: set<Token>        // grants this process ran
    var exported: bool
    var log: seq<Event>

    constructor ()
      ensures Valid() && Contents() == INITIAL
    {
      disk, passed, exported, log := [None], {}, false, [];
    }

    function Contents(): World
      reads this
    {
      World(disk, passed, exported, [], log)
    }

    function Current(): Option<Mark>
      requires disk != []
      reads this
    {
      disk[|disk| - 1]
    }

    /** What the sections need; the full invariant follows from their programs. */
    predicate Valid()
      reads this
    {
      disk != [] && WellFormedDisk(disk[|disk| - 1])
    }

    /** Write a temp file, rename it over the mark, sync the directory. */
    method WriteFencingMark(m: Mark, io: WriteIo) returns (renamed: bool, ok: bool)
      requires disk != []
      modifies this`disk
      ensures Contents() == RunAll(old(Contents()), WriteMark(m, io))
      ensures ok <==> io.Durable?
      ensures ok ==> disk == [Some(m)]
      ensures renamed && !ok ==> disk == old(disk) + [Some(m)]
      ensures renamed <==> !io.NotRenamed?
      ensures !renamed ==> disk == old(disk)
    {
      if io.NotRenamed? { return false, false; }
      disk := disk + [Some(m)];
      if io.SyncLost? {
        RunOne(old(Contents()), Rename(m));
        return true, false;
      }
      disk := [disk[|disk| - 1]];
      RunTwo(old(Contents()), Rename(m), Sync);
      return true, true;
    }

    method PersistFencingMark(m: Mark, changed: bool, io: WriteIo) returns (ok: bool)
      requires disk != [] && (!changed ==> disk[|disk| - 1] == Some(m))
      modifies this`disk
      ensures Contents() == RunAll(old(Contents()), Persist(m, changed, io))
      ensures ok <==> io.Durable?
      ensures ok ==> disk == [Some(m)]
      ensures !ok ==> disk == if changed && io.SyncLost? then old(disk) + [Some(m)] else old(disk)
    {
      if changed {
        var _, written := WriteFencingMark(m, io);
        return written;
      }
      if !io.Durable? { return false; }
      disk := [disk[|disk| - 1]];
      RunOne(old(Contents()), Sync);
      return true;
    }

    method Mutation(e: Entry)
      requires disk != []
      modifies this`exported, this`log
      ensures Contents() == RunAll(old(Contents()), [Mutate(e)])
    {
      RunOne(Contents(), Mutate(e));
      log := log + [Ran(e, disk[0])];
      exported := ExportedAfter(exported, e);
    }

    method Acknowledge(a: Ack)
      requires disk != []
      modifies this`passed, this`log
      ensures Contents() == RunAll(old(Contents()), [Answer(a)])
    {
      RunOne(Contents(), Answer(a));
      if a.Passed? { passed := passed + {a.token}; } else { log := log + [Acked(a)]; }
    }

    /** Makes `m` durable and only then gives the answer. */
    method Commit(m: Mark, changed: bool, io: WriteIo, a: Ack) returns (ok: bool)
      requires Valid() && WellFormed(m) && !a.Passed? && (!changed ==> disk[|disk| - 1] == Some(m))
      modifies this`disk, this`passed, this`log
      ensures Valid()
      ensures Contents() == RunAll(old(Contents()), CommitThen(m, changed, io, a))
      ensures ok <==> io.Durable?
      ensures ok ==> disk == [Some(m)]
      ensures !ok ==> disk == if changed && io.SyncLost? then old(disk) + [Some(m)] else old(disk)
    {
      CommitInTwo(Contents(), m, changed, io, a);
      ok := PersistFencingMark(m, changed, io);
      if ok { Acknowledge(a); }
    }

    /** Runs the admitted mutation; a destroy records the lifecycle as ended once it succeeded. */
    method RunFencedMutation(next: Mark, token: Token, kind: Kind, env: Env) returns (reply: Reply)
      requires disk == [Some(next)] && next.uid == token.uid && next.gen == token.gen
      modifies this
      ensures disk == [Some(next)] || (disk != [] && disk[|disk| - 1] == Some(next.(ended := true)))
      ensures Contents() ==
              RunAll(old(Contents()), [Mutate(EntryOf(token, kind, env))] + AfterMutation(next, token, kind, env))
      ensures reply != Refused
      ensures reply == Done <==> env.mutateOk && (kind == Delete && !next.ended ==> env.final.Durable?)
      ensures reply == Done ==> |disk| == 1
      ensures reply == Done && !IsRevoke(kind) && kind != Delete ==> token in passed
      ensures reply == Done ==> disk[0] == Some(next.(ended := next.ended || kind == Delete))
    {
      var e := EntryOf(token, kind, env);
      var after := AfterMutation(next, token, kind, env);
      RunAllAppend(Contents(), [Mutate(e)], after);
      Mutation(e);
      if !env.mutateOk { return Failed; }
      match OpOf(kind) {
      case Grant => Acknowledge(Passed(token));
      case Revoke =>
      case Destroy =>
        var ack := Destroyed(token.uid, next.source.Some?);
        if !next.ended {
          var ended := next.(ended := true);
          RunAllAppend(Contents(), WriteMark(ended, env.final), if env.final.Durable? then [Answer(ack)] else []);
          var _, ok := WriteFencingMark(ended, env.final);
          if !ok { return Failed; }
        }
        Acknowledge(ack);
      }
      return Done;
    }

    /** The admitted mark becomes durable before the mutation runs. */
    method ProceedFenced(next: Mark, changed: bool, token: Token, kind: Kind, env: Env) returns (reply: Reply)
      requires Valid() && WellFormed(next) && (!changed ==> Current() == Some(next))
      requires next.uid == token.uid && next.gen == token.gen
      modifies this
      ensures Valid()
      ensures Contents() == RunAll(old(Contents()), PersistThenMutate(next, changed, token, kind, env))
      ensures reply != Refused
      ensures reply == Done ==> Settled(disk, token, kind == Delete)
      ensures reply == Done <==>
              env.persist.Durable? && env.mutateOk && (kind == Delete && !next.ended ==> env.final.Durable?)
      ensures reply == Done ==> disk[0] == Some(next.(ended := next.ended || kind == Delete))
      ensures reply == Done && !IsRevoke(kind) && kind != Delete ==> token in passed
    {
      var tail := [Mutate(EntryOf(token, kind, env))] + AfterMutation(next, token, kind, env);
      RunAllAppend(Contents(), Persist(next, changed, env.persist), if env.persist.Durable? then tail else []);
      var persisted := PersistFencingMark(next, changed, env.persist);
      if !persisted { return Failed; }
      reply := RunFencedMutation(next, token, kind, env);
    }

    /** The deletion of a pinned lifecycle is not repeated, only its end made durable again. */
    method ResyncEnded(m: Mark, token: Token, env: Env) returns (reply: Reply)
      requires Valid() && WellFormed(m) && Current() == Some(m) && m.ended && m.uid == token.uid && m.gen == token.gen
      modifies this
      ensures Valid()
      ensures Contents() == RunAll(old(Contents()), CommitThen(m, false, env.persist, Destroyed(token.uid, true)))
      ensures reply != Refused && (reply == Done <==> env.persist.Durable?)
      ensures reply == Done ==> Settled(disk, token, true)
    {
      var synced := Commit(m, false, env.persist, Destroyed(token.uid, true));
      reply := if synced then Done else Failed;
    }

    method FencedChecked(token: Token, kind: Kind, dataset: bool, env: Env) returns (reply: Reply)
      requires Valid()
      modifies this
      ensures Valid()
      ensures Contents() == RunAll(old(Contents()), Fenced(token, kind, dataset, env, old(Current())))
      ensures reply == Refused ==> Contents() == old(Contents())
      ensures reply == Refused <==> env.readOk && FencedRefuses(token, kind, env, old(Current()))
      ensures env.readOk && env.persist.Durable? && env.mutateOk && env.final.Durable? ==>
                (reply == Done <==> !FencedRefuses(token, kind, env, old(Current())))
      ensures reply == Done ==> Settled(disk, token, kind == Delete)
      ensures reply == Done && !IsRevoke(kind) && kind != Delete ==> token in passed
      ensures reply == Done && kind == Unexport ==>
                && env.mutateOk && env.persist.Durable?
                && PlanFenced(token, kind, dataset, env, old(Current())).Proceed?
                && disk[0] == Some(PlanFenced(token, kind, dataset, env, old(Current())).next)
    {
      FencedRefusesIff(token, kind, dataset, env, disk[|disk| - 1]);
      match PlanFenced(token, kind, dataset, env, disk[|disk| - 1])
      case ReadFailed => reply := Failed;
      case Refuse => reply := Refused;
      case Resync(m) =>
        reply := ResyncEnded(m, token, env);
      case Proceed(next, changed) =>
        reply := ProceedFenced(next, changed, token, kind, env);
    }

    /** `preserve` and `src` are what the import expects; the import checks are read-only. */
    method FencedImport(token: Token, src: Option<Lv>, preserve: bool, env: Env) returns (reply: Reply)
      requires Valid()
      modifies this
      ensures Valid()
      ensures Contents() == RunAll(old(Contents()), Import(token, src, preserve, env, old(Current())))
      ensures reply == Refused ==> Contents() == old(Contents())
      ensures reply == Refused <==> env.readOk && ImportRefuses(token, src, preserve, env, old(Current()))
      ensures reply == Done <==>
              env.readOk && env.persist.Durable? && !ImportRefuses(token, src, preserve, env, old(Current()))
      ensures reply == Done ==>
                && Settled(disk, token, false) && disk[0].value.source == src
                && (disk[0].value.preserve <==>
                    (old(Current()).Some? && old(Current()).value.preserve) || (src.Some? && preserve))
    {
      ImportRefusesIff(token, src, preserve, env, disk[|disk| - 1]);
      match PlanImport(token, src, preserve, env, disk[|disk| - 1])
      case ReadFailed => reply := Failed;
      case Refuse => reply := Refused;
      case Proceed(next, changed) =>
        var ok := Commit(next, changed, env.persist, Imported(next.source, next.preserve));
        reply := if ok then Done else Failed;
    }

    method CommitRetirement(token: Token, unexported: bool, env: Env) returns (reply: Reply, asOwner: bool)
      requires Valid() && env.readOk
      requires Retire(token, unexported, ReleaseVerified(Current(), env), Current()).RetireWith?
      modifies this
      ensures Valid() && exported == old(exported)
      ensures Contents() == RunAll(old(Contents()), RetireLifecycle(token, unexported, env, old(Current())))
      ensures reply != Refused && (reply == Done <==> env.persist.Durable?)
      ensures reply == Done ==> Current().Some? && token.uid in Current().value.retired
      ensures asOwner <==> reply == Done && OwnedBy(old(Current()), token.uid)
      ensures asOwner ==>
                && reply == Done && unexported && OwnerRetired(disk, token.uid)
                && OwnedBy(old(Current()), token.uid)
                && disk[0].value.source == old(Current()).value.source
                && disk[0].value.preserve == old(Current()).value.preserve
      ensures asOwner && disk[0].value.source.Some? ==>
                env.lv == disk[0].value.source && (disk[0].value.preserve ==> env.idle)
      ensures KeepsOthers(old(Current()), Current(), token.uid)
    {
      var stored := disk[|disk| - 1];
      var r := Retire(token, unexported, ReleaseVerified(stored, env), stored);
      var ok := Commit(r.next, true, env.persist, Released(token.uid, true));
      return if ok then Done else Failed, ok && r.asOwner;
    }

    /** `owned` asks the caller to remove the export first; `asOwner` tells that the owner was retired. */
    method RetireFence(token: Token, unexported: bool, env: Env) returns (owned: bool, reply: Reply, asOwner: bool)
      requires Valid()
      modifies this
      ensures Valid() && exported == old(exported)
      ensures Contents() == RunAll(old(Contents()), RetireLifecycle(token, unexported, env, old(Current())))
      ensures owned && reply == Done ==> !unexported && Contents() == old(Contents())
      ensures reply == Refused ==> Contents() == old(Contents())
      ensures reply == Refused <==> env.readOk && RetireRefuses(token, unexported, env, old(Current()))
      ensures owned <==> reply == Done && !unexported && OwnedBy(old(Current()), token.uid)
      ensures asOwner <==> reply == Done && unexported && OwnedBy(old(Current()), token.uid)
      ensures env.readOk && env.persist.Durable? ==>
                (reply == Done <==> !RetireRefuses(token, unexported, env, old(Current())))
      ensures !env.readOk ==> reply == Failed
      ensures !owned && reply == Done ==> Current().Some? && token.uid in Current().value.retired
      ensures asOwner ==>
                && reply == Done && !owned && unexported && OwnerRetired(disk, token.uid)
                && OwnedBy(old(Current()), token.uid)
                && disk[0].value.source == old(Current()).value.source
                && disk[0].value.preserve == old(Current()).value.preserve
      ensures asOwner && disk[0].value.source.Some? ==>
                env.lv == disk[0].value.source && (disk[0].value.preserve ==> env.idle)
      ensures KeepsOthers(old(Current()), Current(), token.uid)
    {
      var stored := disk[|disk| - 1];
      owned, asOwner := false, false;
      RetireRefusesIff(token, unexported, env, stored);
      if !env.readOk { reply := Failed; return; }
      var r := Retire(token, unexported, ReleaseVerified(stored, env), stored);
      match r
      case NothingToDo =>
        Acknowledge(Released(token.uid, false));
        reply := Done;
      case StillOwned => owned, reply := true, Done;
      case RetireRefused => reply := Refused;
      case RetireWith(_, _) =>
        reply, asOwner := CommitRetirement(token, unexported, env);
    }

    /** Links an export; writes no mark.  A token this process prepared acts under a durable mark. */
    method RecheckFence(token: Token, env: Env) returns (reply: Reply)
      requires Valid()
      modifies this`exported, this`log
      ensures Valid() && disk == old(disk)
      ensures Contents() == RunAll(old(Contents()), Recheck(token, env, old(Current())))
      ensures reply == Refused ==> Contents() == old(Contents())
      ensures log != old(log) <==> env.readOk && RecheckActs(token, env, old(Current()))
      ensures reply == Refused <==> env.readOk && !RecheckActs(token, env, old(Current()))
      ensures reply == Done <==> env.readOk && RecheckActs(token, env, old(Current())) && env.mutateOk
      ensures old(Inv(Contents())) && log != old(log) ==>
                (Fires(disk[0], EntryOf(token, Link, env)) <==> Dominates(disk[0], token))
      ensures old(Inv(Contents())) && log != old(log) && token in passed ==>
                Fires(disk[0], EntryOf(token, Link, env))
    {
      var stored := disk[|disk| - 1];
      RecheckActsIff(token, env, stored);
      if !env.readOk { return Failed; }
      var adm := Admit(token, Grant, stored);
      if adm.Rejected? || adm.changed { return Refused; }
      if !PinnedSourceVerified(stored, env) { return Refused; }
      if Inv(Contents()) {
        DurableToVisible(disk);
        RecheckIsDurableIff(disk[0], stored, token, env);
      }
      Mutation(EntryOf(token, Link, env));
      return if env.mutateOk then Done else Failed;
    }

    method CommitTransfer(auth: Authorization, snap: Snapshot, env: Env) returns (reply: TransferReply)
      requires Valid()
      modifies this
      ensures Valid()
      ensures Honest(reply, auth, old(Contents()), Contents())
      ensures reply == Committed ==>
                PlanTransfer(auth, snap, env, old(Current())) == Move(disk[0].value)
      ensures reply == Committed <==> env.persist.Durable? && PlanTransfer(auth, snap, env, old(Current())).Move?
      ensures reply == AlreadyCommitted <==>
              env.persist.Durable? && PlanTransfer(auth, snap, env, old(Current())).Retry?
      ensures Contents() == RunAll(old(Contents()), TransferOwnership(auth, snap, env, old(Current())))
    {
      match PlanTransfer(auth, snap, env, disk[|disk| - 1])
      case NoTransfer => reply := TransferRefused;
      case Retry(m) =>
        var synced := Commit(m, true, env.persist, Transferred(auth.newUid, auth.digest, m.preserve));
        reply := if synced then AlreadyCommitted else Unknown;
      case Move(m) =>
        var ok := Commit(m, true, env.persist, Transferred(auth.newUid, auth.digest, m.preserve));
        reply := if ok then Committed else if env.persist.SyncLost? then Unknown else TransferRefused;
    }

    method Evidence(obs: Option<LvObservation>, ownIds: set<string>, own: Option<seq<ExportObservation>>)
      returns (stopped: bool)
      requires disk != []
      ensures stopped <==> OwnerStopped(Current(), obs, ownIds, own)
    {
      var stored := disk[|disk| - 1];
      stopped := false;
      if stored.Some? && stored.value.source.Some? {
        stopped := VerifyTransferEvidence(stored.value.source.value, obs, ownIds, own);
      }
    }

    /** Live evidence is read before the ownership moves. */
    method TransferVolumeOwnership(
      auth: Authorization, snap: Snapshot, env: Env,
      obs: Option<LvObservation>, ownIds: set<string>, own: Option<seq<ExportObservation>>)
      returns (reply: TransferReply, stopped: bool)
      requires Valid()
      modifies this
      ensures Valid()
      ensures Honest(reply, auth, old(Contents()), Contents())
      ensures reply == Committed ==>
                && old(Current()).Some?
                && old(Current()).value.uid == auth.oldUid && old(Current()).value.gen == auth.oldGen
                && auth.source.Some? && auth.source == old(Current()).value.source && stopped
                && auth.oldUid in disk[0].value.retired
                && disk[0].value.preserve == (old(Current()).value.preserve || auth.preserve)
      ensures reply == Committed <==>
              && env.readOk && env.persist.Durable?
              && MayMove(auth, snap, Observed(env, OwnerStopped(old(Current()), obs, ownIds, own)), old(Current()))
      ensures reply == AlreadyCommitted <==>
              env.readOk && env.persist.Durable? && old(Current()).Some? && Gained(old(Current()).value, auth)
      ensures stopped <==> OwnerStopped(old(Current()), obs, ownIds, own)
      ensures Contents() ==
              RunAll(old(Contents()), TransferOwnership(auth, snap, Observed(env, stopped), old(Current())))
    {
      stopped := Evidence(obs, ownIds, own);
      TransferProceedsIff(auth, snap, Observed(env, stopped), disk[|disk| - 1]);
      reply := CommitTransfer(auth, snap, Observed(env, stopped));
    }

    /** Other requests on the volume, run to completion before the lock is free again. */
    method Others(steps: seq<Step>, ghost t: Token)
      requires Inv(Contents())
      requires forall s | s in steps :: BumpRule(s, t)
      modifies this
      ensures Inv(Contents())
      ensures old(Quiet(Contents(), t)) ==> Quiet(Contents(), t)
      ensures steps == [] ==> Contents() == old(Contents())
    {
      var w := World(disk, passed, exported, [], log);
      for i := 0 to |steps|
        invariant Inv(w) && (i == 0 ==> w == old(Contents()))
        invariant old(Quiet(Contents(), t)) ==> Quiet(w, t)
      {
        if !steps[i].ProcessCrash? && !steps[i].PowerLoss? && Enabled(w, steps[i]) {
          StepKeepsInv(w, steps[i]);
          if Quiet(w, t) { QuietStep(w, steps[i], t); }
          w := Next(w, steps[i]);
        }
      }
      assert steps == [] ==> w == old(Contents());
      while w.task != []
        invariant Inv(w) && (steps == [] ==> w == old(Contents()))
        invariant old(Quiet(Contents(), t)) ==> Quiet(w, t)
        decreases |w.task|
      {
        StepKeepsInv(w, Exec);
        if Quiet(w, t) { QuietStep(w, Exec, t); }
        w := Next(w, Exec);
      }
      disk, passed, exported, log := w.disk, w.passed, w.exported, w.log;
    }

    method RetirePass(t: Token, unexported: bool, env: Env) returns (owned: bool, reply: Reply, asOwner: bool)
      requires Inv(Contents()) && (unexported ==> Quiet(Contents(), t))
      modifies this
      ensures Inv(Contents())
      ensures owned && reply == Done ==> !unexported && Contents() == old(Contents())
      ensures owned <==> reply == Done && !unexported && OwnedBy(old(Current()), t.uid)
      ensures env.readOk && env.persist.Durable? ==>
                (reply == Done <==> !RetireRefuses(t, unexported, env, old(Current())))
      ensures reply == Done ==> !RetireRefuses(t, unexported, env, old(Current()))
      ensures !env.readOk ==> reply == Failed
      ensures !owned && reply == Done ==> Current().Some? && t.uid in Current().value.retired
      ensures asOwner ==> reply == Done && !owned && !exported && |disk| == 1 && disk[0].Some?
      ensures asOwner && disk[0].value.source.Some? ==>
                env.lv == disk[0].value.source && (disk[0].value.preserve ==> env.idle)
      ensures asOwner ==> unexported
    {
      ReadyToRetire(Contents(), t, unexported, env);
      owned, reply, asOwner := RetireFence(t, unexported, env);
    }

    method UnexportSection(t: Token, dataset: bool, env: Env) returns (reply: Reply)
      requires Valid()
      modifies this
      ensures Valid()
      ensures Contents() == RunAll(old(Contents()), Fenced(t, Unexport, dataset, env, old(Current())))
      ensures reply == Done ==>
                env.mutateOk && env.persist.Durable? && PlanFenced(t, Unexport, dataset, env, old(Current())).Proceed?
      ensures MayUnexport(old(Current()), t) ==>
                (Fair(env) ==> reply == Done) && (reply == Done ==> Unexported(old(Current()), Current(), t))
    {
      if OwnedBy(disk[|disk| - 1], t.uid) { UnexportedMarkIs(t, dataset, env, disk[|disk| - 1].value); }
      reply := FencedChecked(t, Unexport, dataset, env);
    }

    method UnexportPass(t: Token, dataset: bool, env: Env) returns (reply: Reply)
      requires Inv(Contents())
      modifies this
      ensures Inv(Contents())
      ensures reply == Done ==> Quiet(Contents(), t)
      ensures MayUnexport(old(Current()), t) ==>
                (Fair(env) ==> reply == Done) && (reply == Done ==> Unexported(old(Current()), Current(), t))
    {
      ghost var w := Contents();
      SectionIsARun(w, DoFenced(t, Unexport, dataset), env);
      reply := UnexportSection(t, dataset, env);
      if reply == Done { UnexportMakesQuiet(w, t, dataset, env); }
    }

    /** Other requests may come before the unexport. */
    method RemoveExport(t: Token, dataset: bool, others: seq<Step>, env: Env) returns (reply: Reply)
      requires Inv(Contents()) && forall s | s in others :: BumpRule(s, t)
      modifies this
      ensures Inv(Contents())
      ensures reply == Done ==> Quiet(Contents(), t)
      ensures others == [] && MayUnexport(old(Current()), t) ==>
                && (Fair(env) ==> reply == Done)
                && (reply == Done ==> Unexported(old(Current()), Current(), t))
    {
      Others(others, t);
      reply := UnexportPass(t, dataset, env);
    }

    /** Other requests may come before the retirement. */
    method RetireTurn(t: Token, unexported: bool, others: seq<Step>, env: Env)
      returns (owned: bool, reply: Reply, asOwner: bool)
      requires Inv(Contents()) && (unexported ==> Quiet(Contents(), t)) && forall s | s in others :: BumpRule(s, t)
      modifies this
      ensures Inv(Contents())
      ensures owned && reply == Done ==> !unexported
      ensures !owned && reply == Done ==> Current().Some? && t.uid in Current().value.retired
      ensures asOwner ==> reply == Done && !owned && unexported && !exported && |disk| == 1 && disk[0].Some?
      ensures asOwner && disk[0].value.source.Some? ==>
                env.lv == disk[0].value.source && (disk[0].value.preserve ==> env.idle)
      ensures !env.readOk ==> reply == Failed
      ensures others == [] ==>
                && (owned <==> reply == Done && !unexported && OwnedBy(old(Current()), t.uid))
                && (owned ==> Contents() == old(Contents()) && MayUnexport(old(Current()), t))
                && (env.readOk && env.persist.Durable? ==>
                      (reply == Done <==> !RetireRefuses(t, unexported, env, old(Current()))))
    {
      Others(others, t);
      owned, reply, asOwner := RetirePass(t, unexported, env);
    }

    /**
     Removes the lifecycle's export, then retires it, with other requests in
     between.  When the owner is retired no export of the volume is left.
     */
    method ReleaseVolume(
      t: Token, dataset: bool, firstEnv: Env, unexportEnv: Env, lastEnv: Env,
      before: seq<Step>, between: seq<Step>, after: seq<Step>)
      returns (reply: Reply, passes: nat, asOwner: bool)
      requires Inv(Contents())
      requires forall s | s in before + between + after :: BumpRule(s, t)
      modifies this
      ensures Inv(Contents())
      ensures passes <= 2
      ensures reply == Done ==> Current().Some? && t.uid in Current().value.retired
      ensures asOwner ==> reply == Done && !exported && |disk| == 1 && t.uid in disk[0].value.retired
      ensures asOwner && disk[0].value.source.Some? ==>
                lastEnv.lv == disk[0].value.source && (disk[0].value.preserve ==> lastEnv.idle)
      ensures !firstEnv.readOk ==> reply == Failed
      ensures before == [] && firstEnv.readOk && firstEnv.persist.Durable? && !OwnedBy(old(Current()), t.uid) ==>
                (reply == Done <==> t.uid != "") && passes == 1
      ensures before == between == after == [] && Fair(firstEnv) && Fair(unexportEnv) && Fair(lastEnv) &&
              OwnedBy(old(Current()), t.uid) ==>
                (reply == Done <==> MayUnexport(old(Current()), t) && SourceReady(old(Current()).value, lastEnv))
    {
      var unexported := false;
      passes := 0;
      while true
        invariant Inv(Contents())
        invariant passes == if unexported then 1 else 0
        invariant !unexported ==> Contents() == old(Contents())
        invariant unexported ==> firstEnv.readOk
        invariant unexported && before == [] ==> OwnedBy(old(Current()), t.uid)
        invariant unexported && before == between == [] ==> Unexported(old(Current()), Current(), t)
        invariant unexported ==> Quiet(Contents(), t)
        decreases !unexported
      {
        passes := passes + 1;
        var owned;
        owned, reply, asOwner := RetireTurn(
          t, unexported, if unexported then after else before, if unexported then lastEnv else firstEnv);
        if reply != Done || !owned { return; }
        reply := RemoveExport(t, dataset, between, unexportEnv);
        if reply != Done { return; }
        unexported := true;
      }
    }
  }
}
