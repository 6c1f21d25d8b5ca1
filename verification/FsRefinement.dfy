/**
 A filesystem section writes the mark exactly as one of the programs that the
 fencing machine interleaves, so what is proved of its runs holds of adopted
 filesystems too.
 */
module FsRefinement {
  import opened Marks
  import opened FsAdmission
  import opened FencePrograms
  import opened FenceMachine
  import FenceRelease
  import FenceSafety
  import FsSafety

  lemma {:induction false} FsWritesAppend(base: Mark, writes: seq<FsWrite>, w: FsWrite)
    requires FsSafety.AllDurable(writes)
    ensures FsWrites(base, writes + [w]) == FsWrites(base, writes) + WriteMark(base.(fs := KeepSource(base.fs, w.fs)), w.io)
    decreases |writes|
  {
    if writes == [] {
      assert [w][1..] == [] && writes + [w] == [w];
    } else {
      assert (writes + [w])[1..] == writes[1..] + [w];
      FsWritesAppend(base, writes[1..], w);
    }
  }

  lemma WriteOnDisk(w: World, m: Mark, io: WriteIo)
    requires w.disk != []
    ensures RunAll(w, WriteMark(m, io)).disk ==
            match io
            case NotRenamed => w.disk
            case SyncLost => w.disk + [Some(m)]
            case Durable => [Some(m)]
  {
    if !io.NotRenamed? {
      assert WriteMark(m, io)[0] == Rename(m);
      var w1 := Apply(w, Rename(m));
      if io.Durable? {
        assert WriteMark(m, io)[1..] == [Sync] && [Sync][1..] == [];
        assert RunAll(w1, [Sync]) == Apply(w1, Sync);
      } else {
        assert WriteMark(m, io)[1..] == [];
      }
    }
  }

  /** Replaying the recorded writes is executing the program of the mutation. */
  lemma {:induction false} ReplayIsTheProgram(w: World, base: Mark, writes: seq<FsWrite>)
    requires w.disk == [Some(base)] && FsSafety.StopsAtFailure(writes)
    ensures RunAll(w, FsWrites(base, writes)).disk == FsSafety.Replay(base, writes)
    decreases |writes|
  {
    if writes != [] {
      var n := |writes| - 1;
      var before, last := writes[..n], writes[n];
      assert writes == before + [last];
      FsWritesAppend(base, before, last);
      ReplayIsTheProgram(w, base, before);
      FenceRelease.RunAllAppend(w, FsWrites(base, before), WriteMark(base.(fs := KeepSource(base.fs, last.fs)), last.io));
      WriteOnDisk(RunAll(w, FsWrites(base, before)), base.(fs := KeepSource(base.fs, last.fs)), last.io);
    }
  }

  lemma PersistOnDisk(w: World, m: Mark, changed: bool, io: WriteIo)
    requires w.disk != [] && (!changed ==> Visible(w) == Some(m))
    ensures RunAll(w, Persist(m, changed, io)).disk ==
            if io.Durable? then [Some(m)] else if changed && io.SyncLost? then w.disk + [Some(m)] else w.disk
  {
    if changed {
      WriteOnDisk(w, m, io);
    } else if io.Durable? {
      assert [Sync][1..] == [] && RunAll(w, [Sync]) == Apply(w, Sync);
    }
  }

  /** Mutations leave the disk alone. */
  lemma MutateOnDisk(w: World, e: Entry)
    requires w.disk != []
    ensures RunAll(w, [Mutate(e)]).disk == w.disk
  {
    assert [Mutate(e)][1..] == [];
  }

  function Bare(disk: seq<Option<Mark>>): World {
    World(disk, {}, false, [], [])
  }

  function WithWrites(q: Request, writes: seq<FsWrite>): Request {
    if q.DoFs? then q.(writes := writes) else q
  }

  predicate Leads(start: seq<Option<Mark>>, q: Request, e: Env, now: seq<Option<Mark>>)
    requires start != [] && WellFormedDisk(FsSafety.Last(start))
  {
    ValidRequest(q) && !q.DoRecheck? && RunAll(Bare(start), Program(q, e, FsSafety.Last(start))).disk == now
  }

  /** A section of the fencing machine for request q, with some I/O outcomes, takes the disk from `start` to `now`. */
  ghost predicate Reaches(start: seq<Option<Mark>>, q: Request, now: seq<Option<Mark>>) {
    now == start ||
    (start != [] && WellFormedDisk(FsSafety.Last(start)) &&
     exists e: Env, writes: seq<FsWrite> :: Leads(start, WithWrites(q, writes), e, now))
  }

  /** The section of request q was admitted on `start` with mark `base`. */
  predicate Mutates(start: seq<Option<Mark>>, q: Request, base: Mark) {
    && q.DoFs? && !q.fs.importing && !q.fs.op.Destroy?
    && start != [] && WellFormedDisk(FsSafety.Last(start))
    && FsSafety.Decide(q.token, q.fs, true, FsSafety.Last(start)).Go?
    && FsSafety.Decide(q.token, q.fs, true, FsSafety.Last(start)).next == base
  }

  /** The outcomes that let a section get as far as its writes say. */
  function Outcomes(persist: WriteIo, final: WriteIo, stored: Option<Mark>): Env {
    Env(true, if stored.Some? then stored.value.source else None, true, true, persist, true, true, final, true, true)
  }

  /** The machine runs a filesystem operation for admissible requests only, and for all of them when nothing fails. */
  lemma FsProgramIff(token: Token, r: FsRequest, writes: seq<FsWrite>, e: Env, stored: Option<Mark>)
    requires WellFormedDisk(stored) && !r.op.Destroy? && (r.importing ==> r.op.Grant?)
    ensures FsOperation(token, r, writes, e, stored) != [] ==>
              e.readOk && e.guardOk && (r.importing ==> e.mutateOk) && FsSafety.Admissible(token, r, stored)
    ensures e.readOk && e.guardOk && e.mutateOk && e.persist.Durable? && e.final.Durable? ==>
              (FsOperation(token, r, writes, e, stored) != [] <==> FsSafety.Admissible(token, r, stored))
  {
    FsSafety.DecisionIff(token, r, true, stored);
  }

  function MutationOf(q: Request, e: Env): seq<Effect>
    requires q.DoFs?
  {
    [Mutate(EntryOf(q.token, if q.fs.op.Grant? then FsPublish else FsWithdraw, e))]
  }

  lemma ProgramOfMutation(start: seq<Option<Mark>>, q: Request, base: Mark, writes: seq<FsWrite>, e: Env)
    requires Mutates(start, q, base) && e.readOk && e.guardOk && e.persist.Durable?
    ensures Program(WithWrites(q, writes), e, FsSafety.Last(start)) ==
            Persist(base, FsSafety.Decide(q.token, q.fs, true, FsSafety.Last(start)).changed, Durable) +
            (MutationOf(q, e) + FsWrites(base, writes))
    ensures !FsSafety.Decide(q.token, q.fs, true, FsSafety.Last(start)).changed ==> FsSafety.Last(start) == Some(base)
  {
  }

  /** The writes of an admitted mutation are those of its program. */
  lemma MutationReaches(start: seq<Option<Mark>>, q: Request, base: Mark, writes: seq<FsWrite>)
    requires Mutates(start, q, base) && FsSafety.StopsAtFailure(writes)
    ensures Reaches(start, q, FsSafety.Replay(base, writes))
  {
    var e := Outcomes(Durable, Durable, FsSafety.Last(start));
    ProgramOfMutation(start, q, base, writes, e);
    var changed := FsSafety.Decide(q.token, q.fs, true, FsSafety.Last(start)).changed;
    MutationOnDisk(Bare(start), base, changed, MutationOf(q, e)[0].entry, writes);
    assert Leads(start, WithWrites(q, writes), e, FsSafety.Replay(base, writes));
  }

  lemma MutationOnDisk(w: World, base: Mark, changed: bool, e: Entry, writes: seq<FsWrite>)
    requires w.disk != [] && (!changed ==> Visible(w) == Some(base)) && FsSafety.StopsAtFailure(writes)
    ensures RunAll(w, Persist(base, changed, Durable) + ([Mutate(e)] + FsWrites(base, writes))).disk ==
            FsSafety.Replay(base, writes)
  {
    var persist, rest := Persist(base, changed, Durable), FsWrites(base, writes);
    FenceRelease.RunAllAppend(w, persist, [Mutate(e)] + rest);
    PersistOnDisk(w, base, changed, Durable);
    var w1 := RunAll(w, persist);
    FenceRelease.RunAllAppend(w1, [Mutate(e)], rest);
    MutateOnDisk(w1, e);
    ReplayIsTheProgram(RunAll(w1, [Mutate(e)]), base, writes);
  }

  /** So is the write of the admitted mark itself, synced or not. */
  lemma AdmissionReaches(start: seq<Option<Mark>>, q: Request, base: Mark)
    requires Mutates(start, q, base)
    ensures Reaches(start, q, [Some(base)])
    ensures FsSafety.Decide(q.token, q.fs, true, FsSafety.Last(start)).changed ==>
              Reaches(start, q, start + [Some(base)])
  {
    MutationReaches(start, q, base, []);
    var stored := FsSafety.Last(start);
    if FsSafety.Decide(q.token, q.fs, true, stored).changed {
      var e := Outcomes(SyncLost, Durable, stored);
      assert FsOperation(q.token, q.fs, [], e, stored) == Persist(base, true, SyncLost) + [];
      assert Persist(base, true, SyncLost) + [] == Persist(base, true, SyncLost);
      PersistOnDisk(Bare(start), base, true, SyncLost);
      assert Leads(start, WithWrites(q, []), e, start + [Some(base)]);
    }
  }

  lemma ImportReaches(start: seq<Option<Mark>>, q: Request, next: Mark)
    requires q.DoFs? && q.fs.importing && q.fs.op.Grant? && start != [] && WellFormedDisk(FsSafety.Last(start))
    requires var d := FsSafety.Decide(q.token, q.fs, true, FsSafety.Last(start)); d.Go? && d.next == next
    ensures Reaches(start, q, [Some(next)]) && Reaches(start, q, start + [Some(next)])
  {
    var stored := FsSafety.Last(start);
    var lost, ok := Outcomes(Durable, SyncLost, stored), Outcomes(Durable, Durable, stored);
    WriteOnDisk(Bare(start), next, SyncLost);
    WriteOnDisk(Bare(start), next, Durable);
    assert Leads(start, WithWrites(q, []), lost, start + [Some(next)]);
    assert Leads(start, WithWrites(q, []), ok, [Some(next)]);
  }

  lemma RetirementReaches(start: seq<Option<Mark>>, q: Request, next: Mark, io: WriteIo)
    requires q.DoRetire? && start != [] && WellFormedDisk(FsSafety.Last(start)) && !io.NotRenamed?
    requires var r := Retire(q.token, q.unexported, true, FsSafety.Last(start)); r.RetireWith? && r.next == next
    ensures Reaches(start, q, if io.Durable? then [Some(next)] else start + [Some(next)])
  {
    var stored := FsSafety.Last(start);
    var e := Outcomes(io, Durable, stored);
    var w := Bare(start);
    var ack := [Answer(Released(q.token.uid, true))];
    assert ReleaseVerified(stored, e);
    assert RetireLifecycle(q.token, q.unexported, e, stored) ==
           Persist(next, true, io) + if io.Durable? then ack else [];
    FenceRelease.RunAllAppend(w, Persist(next, true, io), if io.Durable? then ack else []);
    PersistOnDisk(w, next, true, io);
    assert ack[1..] == [];
    assert Leads(start, WithWrites(q, []), e, if io.Durable? then [Some(next)] else start + [Some(next)]);
  }

  /** What the fencing machine does for a section; other work leaves the disk alone. */
  function RequestOf(s: FsSafety.Section): Request
    requires s.Call?
  {
    if s.work.Retiring? then DoRetire(s.token, s.work.unexported)
    else DoFs(s.token, FsSafety.Shape(s.request, s.work), [])
  }

  /** The disks to which the fencing machine can take a section that starts on `start`. */
  ghost function Reachable(start: seq<Option<Mark>>, s: FsSafety.Section): iset<seq<Option<Mark>>> {
    iset now | if s.Call? then Reaches(start, RequestOf(s), now) else now == start
  }

  /** They are all that a filesystem section needs. */
  lemma MachineAllowsSection(start: seq<Option<Mark>>, s: FsSafety.Section)
    ensures FsSafety.AllowsSection(Reachable(start, s), start, s)
  {
    if s.Call? && start != [] && WellFormedDisk(FsSafety.Last(start)) {
      var stored, q := FsSafety.Last(start), RequestOf(s);
      if s.work.Retiring? {
        var r := Retire(s.token, s.work.unexported, true, stored);
        if r.RetireWith? {
          RetirementReaches(start, q, r.next, SyncLost);
          RetirementReaches(start, q, r.next, Durable);
        }
      } else {
        var d := FsSafety.Decide(q.token, q.fs, true, stored);
        if d.Go? { AdmittedReaches(start, q, d.next); }
      }
    }
  }

  lemma AdmittedReaches(start: seq<Option<Mark>>, q: Request, next: Mark)
    requires q.DoFs? && !q.fs.op.Destroy? && (q.fs.importing ==> q.fs.op.Grant?)
    requires start != [] && WellFormedDisk(FsSafety.Last(start))
    requires var d := FsSafety.Decide(q.token, q.fs, true, FsSafety.Last(start)); d.Go? && d.next == next
    ensures q.fs.importing || FsSafety.Decide(q.token, q.fs, true, FsSafety.Last(start)).changed ==>
              Reaches(start, q, start + [Some(next)])
    ensures q.fs.importing ==> Reaches(start, q, [Some(next)])
    ensures !q.fs.importing ==>
              forall writes | FsSafety.StopsAtFailure(writes) :: Reaches(start, q, FsSafety.Replay(next, writes))
  {
    if q.fs.importing {
      ImportReaches(start, q, next);
    } else {
      AdmissionReaches(start, q, next);
      forall writes | FsSafety.StopsAtFailure(writes)
        ensures Reaches(start, q, FsSafety.Replay(next, writes))
      {
        MutationReaches(start, q, next, writes);
      }
    }
  }

  /** The disk a program leaves depends on the disk it finds alone. */
  lemma {:induction false} DiskAlone(w: World, v: World, effects: seq<Effect>)
    requires w.disk == v.disk != []
    ensures RunAll(w, effects).disk == RunAll(v, effects).disk
    decreases |effects|
  {
    if effects != [] { DiskAlone(Apply(w, effects[0]), Apply(v, effects[0]), effects[1..]); }
  }

  /** Every disk that a filesystem section may leave is reached by a run of the fencing machine. */
  lemma SectionIsAFencedRun(w: World, q: Request, now: seq<Option<Mark>>) returns (steps: seq<Step>)
    requires Inv(w) && w.task == [] && Reaches(w.disk, q, now)
    ensures IsRun(w, steps) && End(w, steps).disk == now && Inv(End(w, steps)) && End(w, steps).task == []
  {
    if now == w.disk {
      steps := [];
    } else {
      var e: Env, writes: seq<FsWrite> :| Leads(w.disk, WithWrites(q, writes), e, now);
      var request := WithWrites(q, writes);
      var program := Program(request, e, Visible(w));
      DiskAlone(w, Bare(w.disk), program);
      FenceRelease.SectionIsARun(w, request, e);
      FenceRelease.RunAllKeepsTask(w, program);
      steps := [Begin(request, e)] + FenceRelease.Execs(|program|);
    }
  }

  /** A run from w that leaves the disk `now` with no section under way. */
  predicate Follows(w: World, steps: seq<Step>, now: seq<Option<Mark>>) {
    IsRun(w, steps) && End(w, steps).disk == now && Inv(End(w, steps)) && End(w, steps).task == []
  }

  lemma Continue(w: World, steps: seq<Step>, was: seq<Option<Mark>>, q: Request, now: seq<Option<Mark>>)
    returns (all: seq<Step>)
    requires Follows(w, steps, was) && Reaches(was, q, now)
    ensures Follows(w, all, now)
  {
    var more := SectionIsAFencedRun(End(w, steps), q, now);
    FenceRelease.RunAppend(w, steps, more);
    all := steps + more;
  }

  /** A section that starts where the run ended is a continuation of the run. */
  lemma ContinueSection(w: World, steps: seq<Step>, was: seq<Option<Mark>>, s: FsSafety.Section, now: seq<Option<Mark>>)
    returns (all: seq<Step>)
    requires Follows(w, steps, was) && now in Reachable(was, s)
    ensures Follows(w, all, now)
  {
    if s.Call? { all := Continue(w, steps, was, RequestOf(s), now); } else { all := steps; }
  }

  lemma OneMore(w: World, steps: seq<Step>, was: seq<Option<Mark>>, s: Step) returns (all: seq<Step>)
    requires Follows(w, steps, was) && Enabled(End(w, steps), s) && (s.ForeignSync? || s.ProcessCrash? || s.PowerLoss?)
    ensures Follows(w, all, Next(End(w, steps), s).disk)
  {
    FenceSafety.StepKeepsInv(End(w, steps), s);
    FenceRelease.RunStep(End(w, steps), s, []);
    FenceRelease.RunAppend(w, steps, [s]);
    assert [s] + [] == [s];
    all := steps + [s];
  }

  lemma OtherSync(w: World, steps: seq<Step>, was: seq<Option<Mark>>, sync: bool) returns (all: seq<Step>)
    requires Follows(w, steps, was) && was != []
    ensures Follows(w, all, if sync then [FsSafety.Last(was)] else was)
  {
    all := steps;
    if sync { all := OneMore(w, steps, was, ForeignSync); }
  }

  /** A crash inside a section is a crash of the machine inside the same section. */
  lemma CrashInside(
    w: World, steps: seq<Step>, was: seq<Option<Mark>>, s: FsSafety.Section, from: seq<Option<Mark>>, keep: Option<nat>)
    returns (all: seq<Step>)
    requires Follows(w, steps, was) && from in Reachable(was, s) && from != []
    ensures Follows(w, all, if keep.None? then from else [from[keep.value % |from|]])
  {
    var inside := ContinueSection(w, steps, was, s, from);
    all := OneMore(w, inside, from, if keep.None? then ProcessCrash else PowerLoss(keep.value % |from|));
  }
}
