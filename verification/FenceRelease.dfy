/**
 ReleaseVolume drops the fencing lock between removing the export and writing
 the owner's retirement.  The controller bumps the generation before it
 deletes or releases, so every grant of the lifecycle carries an older one.
 */
module FenceRelease {
  import opened Marks
  import opened FencePrograms
  import opened FenceMachine
  import opened FenceSafety
  import FsAdmission

  // ------------------------------------------------------ sections as runs

  lemma {:induction false} RunAllAppend(w: World, a: seq<Effect>, b: seq<Effect>)
    requires w.disk != []
    ensures RunAll(w, a + b) == RunAll(RunAll(w, a), b)
    decreases |a|
  {
    if a == [] {
      assert a + b == b;
    } else {
      assert (a + b)[1..] == a[1..] + b;
      RunAllAppend(Apply(w, a[0]), a[1..], b);
    }
  }

  lemma {:induction false} RunAllKeepsTask(w: World, effects: seq<Effect>)
    requires w.disk != []
    ensures RunAll(w, effects).task == w.task
    decreases |effects|
  {
    if effects != [] { RunAllKeepsTask(Apply(w, effects[0]), effects[1..]); }
  }

  function Execs(n: nat): seq<Step> {
    seq(n, _ => Exec)
  }

  /** Running a whole program is the same as executing it effect by effect. */
  lemma {:induction false} RunAllIsARun(w: World, task: seq<Effect>)
    requires Inv(w.(task := task)) && w.task == []
    ensures IsRun(w.(task := task), Execs(|task|))
    ensures End(w.(task := task), Execs(|task|)) == RunAll(w, task)
    ensures Inv(RunAll(w, task))
    decreases |task|
  {
    if task != [] {
      var now := w.(task := task);
      StepKeepsInv(now, Exec);
      assert Next(now, Exec) == Apply(w, task[0]).(task := task[1..]);
      assert Execs(|task|)[1..] == Execs(|task| - 1);
      RunAllIsARun(Apply(w, task[0]), task[1..]);
    }
  }

  lemma SectionIsARun(w: World, r: Request, env: Env)
    requires Inv(w) && Enabled(w, Begin(r, env))
    ensures IsRun(w, [Begin(r, env)] + Execs(|Program(r, env, Visible(w))|))
    ensures End(w, [Begin(r, env)] + Execs(|Program(r, env, Visible(w))|)) == RunAll(w, Program(r, env, Visible(w)))
    ensures Inv(RunAll(w, Program(r, env, Visible(w))))
  {
    var p := Program(r, env, Visible(w));
    StepKeepsInv(w, Begin(r, env));
    RunAllIsARun(w, p);
    assert ([Begin(r, env)] + Execs(|p|))[1..] == Execs(|p|);
  }

  // ------------------------------------------------- quiet after an unexport

  predicate IsGrant(r: Request) {
    || (r.DoFenced? && OpOf(r.kind) == Grant)
    || r.DoRecheck?
    || (r.DoFs? && r.fs.op.Grant?)
  }

  /** Every grant of the released lifecycle carries a generation below its release token. */
  predicate BumpRule(s: Step, t: Token) {
    s.Begin? && IsGrant(s.request) && s.request.token.uid == t.uid ==> s.request.token.gen < t.gen
  }

  predicate EffectObeys(eff: Effect, t: Token) {
    eff.Mutate? && OpOf(eff.entry.kind) == Grant && eff.entry.uid == t.uid ==> eff.entry.gen < t.gen
  }

  predicate TaskObeys(task: seq<Effect>, t: Token) {
    forall eff | eff in task :: EffectObeys(eff, t)
  }

  /** The release token is durable, and while its lifecycle owns the mark there is no export. */
  predicate Quiet(w: World, t: Token)
    requires w.disk != []
  {
    && Dominates(DurableMark(w), t)
    && (DurableMark(w).value.uid == t.uid ==> !w.exported)
    && TaskObeys(w.task, t)
  }

  lemma {:induction false} FsWritesNeverMutate(next: Mark, writes: seq<FsWrite>)
    ensures forall eff | eff in FsWrites(next, writes) :: !eff.Mutate?
    decreases |writes|
  {
    if writes != [] { FsWritesNeverMutate(next, writes[1..]); }
  }

  lemma AfterMutationObeys(next: Mark, token: Token, kind: Kind, env: Env, t: Token)
    requires OpOf(kind) == Grant && token.uid == t.uid ==> token.gen < t.gen
    ensures TaskObeys([Mutate(EntryOf(token, kind, env))] + AfterMutation(next, token, kind, env), t)
  {
  }

  lemma FencedObeys(r: Request, env: Env, stored: Option<Mark>, t: Token)
    requires WellFormedDisk(stored) && r.DoFenced? && BumpRule(Begin(r, env), t)
    ensures TaskObeys(Program(r, env, stored), t)
  {
    match PlanFenced(r.token, r.kind, r.dataset, env, stored)
    case Proceed(next, changed) => AfterMutationObeys(next, r.token, r.kind, env, t);
    case _ =>
  }

  lemma FsObeys(r: Request, env: Env, stored: Option<Mark>, t: Token)
    requires WellFormedDisk(stored) && r.DoFs? && ValidRequest(r) && BumpRule(Begin(r, env), t)
    ensures TaskObeys(Program(r, env, stored), t)
  {
    var adm := Admit(r.token, r.fs.op, stored);
    if adm.Admitted? {
      var next := FsAdmission.Claim(r.fs, adm.next);
      FsWritesNeverMutate(next, r.writes);
      var kind := if r.fs.op.Grant? then FsPublish else FsWithdraw;
      var sameSource := stored.Some? && stored.value.fs.adoption == next.fs.adoption;
      assert TaskObeys(Persist(next, adm.changed || !sameSource, env.persist), t);
      assert TaskObeys(WriteMark(next, env.final), t);
      assert EffectObeys(Mutate(EntryOf(r.token, kind, env)), t);
    }
  }

  lemma ProgramObeys(r: Request, env: Env, stored: Option<Mark>, t: Token)
    requires WellFormedDisk(stored) && ValidRequest(r) && BumpRule(Begin(r, env), t)
    ensures TaskObeys(Program(r, env, stored), t)
  {
    match r
    case DoFenced(_, _, _) => FencedObeys(r, env, stored, t);
    case DoFs(_, _, _) => FsObeys(r, env, stored, t);
    case _ =>
  }

  lemma QuietStep(w: World, s: Step, t: Token)
    requires Inv(w) && Enabled(w, s) && Quiet(w, t) && BumpRule(s, t)
    ensures Quiet(Next(w, s), t)
  {
    DurableToVisible(w.disk);
    match s
    case Begin(r, env) => ProgramObeys(r, env, Visible(w), t);
    case Exec => assert w.task[0] in w.task; assert EffectObeys(w.task[0], t);
    case ForeignSync =>
    case ProcessCrash =>
    case PowerLoss(keep) => ExtendsReflexive(w.disk[0]); assert Extends(w.disk[0], w.disk[keep]);
  }

  lemma {:induction false} QuietRun(w: World, steps: seq<Step>, t: Token)
    requires Inv(w) && IsRun(w, steps) && Quiet(w, t)
    requires forall s | s in steps :: BumpRule(s, t)
    ensures Quiet(End(w, steps), t)
    decreases |steps|
  {
    if steps != [] {
      StepKeepsInv(w, steps[0]);
      QuietStep(w, steps[0], t);
      QuietRun(Next(w, steps[0]), steps[1..], t);
    }
  }

  /** The unexport of a release makes the volume quiet. */
  lemma UnexportMakesQuiet(w: World, t: Token, dataset: bool, env: Env)
    requires Inv(w) && w.task == []
    requires env.mutateOk && env.persist.Durable?
    requires PlanFenced(t, Unexport, dataset, env, Visible(w)).Proceed?
    ensures Quiet(RunAll(w, Fenced(t, Unexport, dataset, env, Visible(w))), t)
  {
    var Proceed(next, changed) := PlanFenced(t, Unexport, dataset, env, Visible(w));
    var persist := Persist(next, changed, env.persist);
    var rest := [Mutate(EntryOf(t, Unexport, env))] + AfterMutation(next, t, Unexport, env);
    assert rest == [Mutate(EntryOf(t, Unexport, env))];
    RunAllAppend(w, persist, rest);
    var settled := RunAll(w, persist);
    assert settled.disk == [Some(next)] && settled.task == [] by {
      if changed {
        assert persist == [Rename(next), Sync];
        assert persist[1..] == [Sync] && persist[1..][1..] == [];
        assert RunAll(w, persist) == RunAll(Apply(w, Rename(next)), [Sync]);
        assert RunAll(Apply(w, Rename(next)), [Sync]) == RunAll(Apply(Apply(w, Rename(next)), Sync), []);
      } else {
        assert persist[1..] == [];
        assert RunAll(w, persist) == RunAll(Apply(w, Sync), []);
      }
    }
    assert rest[1..] == [];
    assert RunAll(settled, rest) == RunAll(Apply(settled, rest[0]), []);
  }

  lemma QuietMeansNoExport(w: World, t: Token)
    requires Inv(w) && Quiet(w, t)
    ensures Visible(w).Some? && (Visible(w).value.uid == t.uid && t.uid !in Visible(w).value.retired ==> !w.exported)
  {
    DurableToVisible(w.disk);
  }

  lemma QuietUntilRetirement(w: World, t: Token, between: seq<Step>, checkOk: bool)
    requires Inv(w) && Quiet(w, t) && IsRun(w, between) && WellFormedDisk(Visible(End(w, between)))
    requires forall s | s in between :: BumpRule(s, t)
    ensures var r := Retire(t, true, checkOk, Visible(End(w, between)));
            r.RetireWith? && r.asOwner ==> !End(w, between).exported
  {
    QuietRun(w, between, t);
    RunKeepsInv(w, between);
    QuietMeansNoExport(End(w, between), t);
  }

  /**
   Whatever other requests, crashes and power losses come between the release's
   unexport and its retirement, no export of the volume exists when the owner's
   retirement is written.
   */
  lemma NoExportWhenTheOwnerIsRetired(w: World, t: Token, dataset: bool, env: Env, between: seq<Step>, checkOk: bool)
    requires Inv(w) && w.task == []
    requires env.mutateOk && env.persist.Durable?
    requires PlanFenced(t, Unexport, dataset, env, Visible(w)).Proceed?
    requires var w1 := RunAll(w, Fenced(t, Unexport, dataset, env, Visible(w)));
             IsRun(w1, between) && WellFormedDisk(Visible(End(w1, between)))
    requires forall s | s in between :: BumpRule(s, t)
    ensures var w2 := End(RunAll(w, Fenced(t, Unexport, dataset, env, Visible(w))), between);
            Retire(t, true, checkOk, Visible(w2)).RetireWith? && Retire(t, true, checkOk, Visible(w2)).asOwner
            ==> !w2.exported
  {
    UnexportMakesQuiet(w, t, dataset, env);
    SectionIsARun(w, DoFenced(t, Unexport, dataset), env);
    QuietUntilRetirement(RunAll(w, Fenced(t, Unexport, dataset, env, Visible(w))), t, between, checkOk);
  }

  // ----------------------------------------- what an unsynced mark may do

  lemma RunStep(w: World, s: Step, rest: seq<Step>)
    requires Enabled(w, s) && IsRun(Next(w, s), rest)
    ensures IsRun(w, [s] + rest) && End(w, [s] + rest) == End(Next(w, s), rest)
  {
    assert ([s] + rest)[1..] == rest;
  }

  /** The first unexport of a lifecycle leaves its mark durable. */
  lemma UnexportFirst(t: Token, env: Env)
    requires t.uid != "" && env.readOk && env.mutateOk && env.persist.Durable?
    ensures var e := EntryOf(t, Unexport, env);
            var unexport := Begin(DoFenced(t, Unexport, false), env);
            && IsRun(INITIAL, [unexport, Exec, Exec, Exec])
            && End(INITIAL, [unexport, Exec, Exec, Exec]) ==
               World([Some(FreshMark(t))], {}, false, [], [Ran(e, Some(FreshMark(t)))])
  {
    var m, e := FreshMark(t), EntryOf(t, Unexport, env);
    var unexport := Begin(DoFenced(t, Unexport, false), env);
    assert PlanFenced(t, Unexport, false, env, None) == Proceed(m, true);
    var w1 := Next(INITIAL, unexport);
    assert w1 == INITIAL.(task := [Rename(m), Sync, Mutate(e)]);
    var w2 := Next(w1, Exec);
    assert w2 == World([None, Some(m)], {}, false, [Sync, Mutate(e)], []);
    var w3 := Next(w2, Exec);
    assert w3 == World([Some(m)], {}, false, [Mutate(e)], []);
    RunStep(w3, Exec, []);
    RunStep(w2, Exec, [Exec]);
    RunStep(w1, Exec, [Exec, Exec]);
    RunStep(INITIAL, unexport, [Exec, Exec, Exec]);
    assert [unexport] + [Exec, Exec, Exec] == [unexport, Exec, Exec, Exec];
  }

  /** The next generation reaches the mark path, but its sync is lost. */
  lemma GrantUnsynced(w: World, m: Mark, env: Env)
    requires w.task == [] && w.disk == [Some(m)] && WellFormed(m) && !m.ended && m.source.None? && m.uid !in m.retired
    requires env.readOk && env.guardOk && env.persist.SyncLost?
    ensures var grant := Begin(DoFenced(Token(m.uid, m.gen + 1), Export, false), env);
            var newer := m.(gen := m.gen + 1);
            && IsRun(w, [grant, Exec]) && End(w, [grant, Exec]) == w.(disk := [Some(m), Some(newer)])
            && WellFormed(newer)
  {
    var grant := Begin(DoFenced(Token(m.uid, m.gen + 1), Export, false), env);
    var newer := m.(gen := m.gen + 1);
    assert PlanFenced(Token(m.uid, m.gen + 1), Export, false, env, Some(m)) == Proceed(newer, true);
    var w1 := Next(w, grant);
    assert w1 == w.(task := [Rename(newer)]);
    RunStep(w1, Exec, []);
    RunStep(w, grant, [Exec]);
    assert [grant] + [Exec] == [grant, Exec];
  }

  /** A token whose mark was renamed but not synced passes a recheck that no durable mark backs. */
  lemma RecheckMayActUnsynced(t: Token, env: Env) returns (steps: seq<Step>)
    requires t.uid != "" && env.readOk && env.mutateOk && env.guardOk && env.persist.Durable?
    ensures IsRun(INITIAL, steps)
    ensures var w := End(INITIAL, steps);
            var newer := Token(t.uid, t.gen + 1);
            && w.task == [] && WellFormedDisk(Visible(w)) && Recheck(newer, env, Visible(w)) != []
            && !Fires(DurableMark(w), EntryOf(newer, Link, env))
  {
    var m, lost := FreshMark(t), env.(persist := SyncLost);
    var first := [Begin(DoFenced(t, Unexport, false), env), Exec, Exec, Exec];
    var second := [Begin(DoFenced(Token(m.uid, m.gen + 1), Export, false), lost), Exec];
    UnexportFirst(t, env);
    GrantUnsynced(End(INITIAL, first), m, lost);
    RunAppend(INITIAL, first, second);
    var newer := m.(gen := m.gen + 1);
    assert Admit(Token(t.uid, t.gen + 1), Grant, Some(newer)) == Admitted(newer, false, SameGeneration);
    steps := first + second;
  }

  /** The owner's retirement reaches the mark path, but its sync is lost. */
  lemma RetireUnsynced(w: World, m: Mark, env: Env)
    requires w.task == [] && w.disk == [Some(m)] && WellFormed(m) && !m.ended && m.source.None? && m.uid !in m.retired
    requires env.readOk && env.persist.SyncLost?
    ensures var retire := Begin(DoRetire(Token(m.uid, m.gen), true), env);
            var gone := m.(ended := true, retired := m.retired + [m.uid]);
            && IsRun(w, [retire, Exec]) && End(w, [retire, Exec]) == w.(disk := [Some(m), Some(gone)])
            && WellFormed(gone)
  {
    var retire := Begin(DoRetire(Token(m.uid, m.gen), true), env);
    var gone := m.(ended := true, retired := m.retired + [m.uid]);
    assert Retire(Token(m.uid, m.gen), true, true, Some(m)) == RetireWith(gone, true);
    var w1 := Next(w, retire);
    assert w1 == w.(task := [Rename(gone)]);
    RunStep(w1, Exec, []);
    RunStep(w, retire, [Exec]);
    assert [retire] + [Exec] == [retire, Exec];
  }

  /** The retry answers "already retired" without a sync, and power is lost. */
  lemma AnswerAndForget(w: World, m: Mark, gone: Mark, env: Env)
    requires w.task == [] && w.disk == [Some(m), Some(gone)] && WellFormed(m) && WellFormed(gone)
    requires env.readOk && m.uid in gone.retired
    ensures var retry := Begin(DoRetire(Token(m.uid, m.gen), false), env);
            && IsRun(w, [retry, Exec, PowerLoss(0)])
            && End(w, [retry, Exec, PowerLoss(0)]) ==
               World([Some(m)], {}, false, [], w.log + [Acked(Released(m.uid, false)), PowerLost])
  {
    var retry := Begin(DoRetire(Token(m.uid, m.gen), false), env);
    var w1 := Next(w, retry);
    assert w1 == w.(task := [Answer(Released(m.uid, false))]);
    var w2 := Next(w1, Exec);
    assert w2.log == w.log + [Acked(Released(m.uid, false))] && w2.disk == w.disk;
    assert w2.log + [PowerLost] == w.log + [Acked(Released(m.uid, false)), PowerLost];
    RunStep(w2, PowerLoss(0), []);
    RunStep(w1, Exec, [PowerLoss(0)]);
    RunStep(w, retry, [Exec, PowerLoss(0)]);
    assert [retry] + [Exec, PowerLoss(0)] == [retry, Exec, PowerLoss(0)];
  }

  /** A grant of the lifecycle the durable mark still names runs. */
  lemma OwnerMayExport(w: World, env: Env)
    requires Inv(w) && w.task == [] && |w.disk| == 1 && DurableMark(w).Some?
    requires var m := DurableMark(w).value; !m.ended && m.source.None? && m.uid !in m.retired
    requires env.readOk && env.guardOk && env.persist.Durable?
    ensures var m := DurableMark(w).value;
            var t := Token(m.uid, m.gen);
            var steps := [Begin(DoFenced(t, Export, false), env), Exec, Exec];
            IsRun(w, steps) && End(w, steps).log == w.log + [Ran(EntryOf(t, Export, env), Some(m))]
  {
    var m := DurableMark(w).value;
    var t := Token(m.uid, m.gen);
    var publish := Begin(DoFenced(t, Export, false), env);
    var e := EntryOf(t, Export, env);
    var w1 := Next(w, publish);
    assert PlanFenced(t, Export, false, env, Some(m)) == Proceed(m, false);
    assert w1.task == [Sync] + ([Mutate(e)] + AfterMutation(m, t, Export, env));
    var w2 := Next(w1, Exec);
    assert w2.task[0] == Mutate(e);
    var w3 := Next(w2, Exec);
    RunStep(w2, Exec, []);
    RunStep(w1, Exec, [Exec]);
    RunStep(w, publish, [Exec, Exec]);
    assert [publish] + [Exec, Exec] == [publish, Exec, Exec];
  }

  /**
   The reply "already retired" is given without a sync.  If the first attempt
   lost its directory sync, a power loss after that reply brings the lifecycle
   back, and its grants run again.
   */
  lemma ReleaseReplyMayBeForgotten(t: Token, env: Env) returns (steps: seq<Step>)
    requires t.uid != "" && env.readOk && env.mutateOk && env.guardOk && env.persist.Durable?
    ensures IsRun(INITIAL, steps)
    ensures var m := Some(FreshMark(t));
            End(INITIAL, steps).log ==
            [Ran(EntryOf(t, Unexport, env), m), Acked(Released(t.uid, false)), PowerLost, Ran(EntryOf(t, Export, env), m)]
  {
    var before := ReleaseAndForget(t, env);
    EveryRunIsSafe(before);
    OwnerMayExport(End(INITIAL, before), env);
    var publish := [Begin(DoFenced(t, Export, false), env), Exec, Exec];
    RunAppend(INITIAL, before, publish);
    steps := before + publish;
  }

  lemma ReleaseAndForget(t: Token, env: Env) returns (steps: seq<Step>)
    requires t.uid != "" && env.readOk && env.mutateOk && env.persist.Durable?
    ensures IsRun(INITIAL, steps)
    ensures End(INITIAL, steps) ==
            World([Some(FreshMark(t))], {}, false, [],
                  [Ran(EntryOf(t, Unexport, env), Some(FreshMark(t))), Acked(Released(t.uid, false)), PowerLost])
  {
    var m := FreshMark(t);
    var lost := env.(persist := SyncLost);
    var first := [Begin(DoFenced(t, Unexport, false), env), Exec, Exec, Exec];
    var second := [Begin(DoRetire(t, true), lost), Exec];
    var third := [Begin(DoRetire(t, false), env), Exec, PowerLoss(0)];
    UnexportFirst(t, env);
    RetireUnsynced(End(INITIAL, first), m, lost);
    RunAppend(INITIAL, first, second);
    AnswerAndForget(End(INITIAL, first + second), m, m.(ended := true, retired := m.retired + [m.uid]), env);
    RunAppend(INITIAL, first + second, third);
    steps := first + second + third;
  }

  lemma {:induction false} RunAppend(w: World, a: seq<Step>, b: seq<Step>)
    requires IsRun(w, a) && IsRun(End(w, a), b)
    ensures IsRun(w, a + b) && End(w, a + b) == End(End(w, a), b)
    decreases |a|
  {
    if a == [] {
      assert a + b == b;
    } else {
      assert (a + b)[1..] == a[1..] + b;
      RunAppend(Next(w, a[0]), a[1..], b);
    }
  }
}
