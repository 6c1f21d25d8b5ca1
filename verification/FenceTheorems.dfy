/** What the fencing protocol guarantees over every run of one volume ID. */
module FenceTheorems {
  import opened Marks
  import opened FencePrograms
  import opened FenceMachine
  import opened FenceSafety

  ghost predicate Reachable(w: World) {
    exists steps: seq<Step> :: IsRun(INITIAL, steps) && End(INITIAL, steps) == w
  }

  lemma ReachableIsSafe(w: World)
    requires Reachable(w)
    ensures Inv(w)
  {
    var steps: seq<Step> :| IsRun(INITIAL, steps) && End(INITIAL, steps) == w;
    EveryRunIsSafe(steps);
  }

  // -------------------------------------------------------------- ordering

  /** Executed mutations of one lifecycle never go back to an older generation. */
  lemma GenerationsNeverDecrease(w: World, i: nat, j: nat)
    requires Reachable(w)
    requires i < j < |w.log| && w.log[i].Ran? && w.log[j].Ran?
    requires w.log[i].entry.uid == w.log[j].entry.uid
    ensures w.log[i].entry.gen <= w.log[j].entry.gen
  {
    ReachableIsSafe(w);
    assert Compatible(w.log[i], w.log[j]);
  }

  /** A lifecycle that lost the mark never mutates the volume again. */
  lemma LifecyclesRunInBlocks(w: World, i: nat, j: nat, k: nat)
    requires Reachable(w)
    requires i < j < k < |w.log| && w.log[i].Ran? && w.log[j].Ran? && w.log[k].Ran?
    requires w.log[i].entry.uid == w.log[k].entry.uid
    ensures w.log[j].entry.uid == w.log[i].entry.uid
  {
    ReachableIsSafe(w);
  }

  /** After a delete answered success, no grant of that lifecycle runs; a pinned LV is not deleted again. */
  lemma DeletedLifecycleStaysDeleted(w: World, i: nat, j: nat)
    requires Reachable(w)
    requires i < j < |w.log| && w.log[i].Acked? && w.log[i].ack.Destroyed? && w.log[j].Ran?
    requires w.log[i].ack.uid == w.log[j].entry.uid
    ensures OpOf(w.log[j].entry.kind) != Grant
    ensures w.log[i].ack.pinned ==> w.log[j].entry.kind != Delete
  {
    ReachableIsSafe(w);
    assert Compatible(w.log[i], w.log[j]);
  }

  // ------------------------------------------------------------ durability

  /** The durable mark, not just the visible one, names the token of every mutation that runs. */
  lemma MutationsRunUnderADurableMark(w: World, i: nat)
    requires Reachable(w)
    requires i < |w.log| && w.log[i].Ran?
    ensures var m := w.log[i].durable;
            m.Some? && m.value.uid == w.log[i].entry.uid && m.value.gen == w.log[i].entry.gen
  {
    ReachableIsSafe(w);
  }

  /** So no power loss, then or later, re-admits an older token of that lifecycle. */
  lemma PowerLossNeverReadmitsAnOlderToken(w: World, i: nat, keep: nat, stale: Token, op: Op)
    requires Reachable(w)
    requires i < |w.log| && w.log[i].Ran? && keep < |w.disk|
    requires stale.uid == w.log[i].entry.uid && stale.gen < w.log[i].entry.gen
    ensures Enabled(w, PowerLoss(keep))
    ensures WellFormedDisk(Visible(Next(w, PowerLoss(keep))))
    ensures Admit(stale, op, Visible(Next(w, PowerLoss(keep)))).Rejected?
  {
    ReachableIsSafe(w);
    ExtendsReflexive(w.disk[0]);
    assert Extends(w.disk[0], w.disk[keep]);
    var seen := Token(w.log[i].entry.uid, w.log[i].entry.gen);
    assert Remembers(w.disk[0], w.log[i]);
    RemembersLater(w.disk[0], w.disk[keep], w.log[i]);
    DominatedTokensStayOut(w.disk[keep], seen, stale, op);
  }

  /** A recheck that is admitted acts under a durable mark exactly when its token had become durable. */
  lemma RecheckIsDurableIff(d: Option<Mark>, v: Option<Mark>, token: Token, env: Env)
    requires WellFormedDisk(d) && WellFormedDisk(v) && Extends(d, v)
    requires Recheck(token, env, v) != []
    ensures Fires(d, EntryOf(token, Link, env)) <==> Dominates(d, token)
  {
  }

  // ------------------------------------------------------------- transfers

  lemma OneDigestPerDestination(w: World, i: nat, j: nat)
    requires Reachable(w)
    requires i < |w.log| && j < |w.log|
    requires w.log[i].Acked? && w.log[i].ack.Transferred? && w.log[j].Acked? && w.log[j].ack.Transferred?
    requires w.log[i].ack.uid == w.log[j].ack.uid
    ensures w.log[i].ack.digest == w.log[j].ack.digest
  {
    ReachableIsSafe(w);
    if i < j { assert Compatible(w.log[i], w.log[j]); }
    if j < i { assert Compatible(w.log[j], w.log[i]); }
  }

  /** Every mark that could be found on disk, now or after a power loss, is well formed. */
  lemma EveryMarkIsWellFormed(w: World, k: nat)
    requires Reachable(w) && k < |w.disk| && w.disk[k].Some?
    ensures WellFormed(w.disk[k].value)
    ensures var m := w.disk[k].value;
            && (m.uid in m.retired ==> m.ended) && NoDuplicates(m.retired)
            && (m.transfer.Some? ==>
                  m.transfer.value.toUid == m.uid && m.transfer.value.fromUid in m.retired &&
                  m.transfer.value.toGen <= m.gen)
  {
    ReachableIsSafe(w);
  }

  /** The retired list of the durable mark grows only, along every continuation. */
  lemma RetiredListGrowsOnly(w: World, steps: seq<Step>)
    requires Reachable(w) && IsRun(w, steps)
    requires w.disk != [] && DurableMark(w).Some?
    ensures var later := DurableMark(End(w, steps));
            later.Some? && DurableMark(w).value.retired <= later.value.retired
  {
    ReachableIsSafe(w);
    DurableMovesForward(w, steps);
  }

  // ------------------------------------------------------------------ pins

  /** Once an LV import was acknowledged, every mark that may be found on disk keeps its pin and policy. */
  lemma PinsAreForever(w: World, i: nat, k: nat)
    requires Reachable(w)
    requires i < |w.log| && w.log[i].Acked? && w.log[i].ack.Imported? && w.log[i].ack.source.Some?
    requires k < |w.disk|
    ensures w.disk[k].Some? && w.disk[k].value.source == w.log[i].ack.source
    ensures w.log[i].ack.preserve ==> w.disk[k].value.preserve
  {
    ReachableIsSafe(w);
    ExtendsReflexive(w.disk[0]);
    assert Remembers(w.disk[0], w.log[i]);
    RemembersLater(w.disk[0], w.disk[k], w.log[i]);
  }

  /** It is never provisioned, deleted only as the pinned LV, and never deleted or resized when preserved. */
  lemma PinnedVolumesAreNeverReprovisioned(w: World, i: nat, j: nat)
    requires Reachable(w)
    requires i < j < |w.log| && w.log[i].Acked? && w.log[i].ack.Imported? && w.log[i].ack.source.Some?
    requires w.log[j].Ran?
    ensures w.log[j].entry.kind != Create
    ensures w.log[j].entry.kind == Delete ==> w.log[j].entry.lv == w.log[i].ack.source
    ensures w.log[i].ack.preserve ==> w.log[j].entry.kind != Delete && w.log[j].entry.kind != Expand
  {
    ReachableIsSafe(w);
    assert Compatible(w.log[i], w.log[j]);
  }

  /**
   Under a pin every mutation but a revoke runs on the pinned LV: whatever sits
   behind the volume's locator was verified before.
   */
  lemma MutationsTouchOnlyThePinnedLv(w: World, i: nat)
    requires Reachable(w)
    requires i < |w.log| && w.log[i].Ran?
    requires var kind := w.log[i].entry.kind;
             kind != Unexport && kind != Deny && kind != FsWithdraw && kind != FsPublish
    requires w.log[i].durable.Some? && w.log[i].durable.value.source.Some?
    ensures w.log[i].entry.lv == w.log[i].durable.value.source
  {
    ReachableIsSafe(w);
  }

  /** A transfer acknowledged as preserving protects the LV from every later delete and resize. */
  lemma PreservingTransfersProtect(w: World, i: nat, j: nat)
    requires Reachable(w)
    requires i < j < |w.log| && w.log[i].Acked? && w.log[i].ack.Transferred? && w.log[i].ack.preserve && w.log[j].Ran?
    ensures w.log[j].entry.kind != Delete && w.log[j].entry.kind != Expand
  {
    ReachableIsSafe(w);
    assert Compatible(w.log[i], w.log[j]);
  }

  /** Every delete under a pin removes the LV that was verified to be the pinned one, of an open lifecycle. */
  lemma DeleteRemovesOnlyTheVerifiedLv(w: World, i: nat)
    requires Reachable(w)
    requires i < |w.log| && w.log[i].Ran? && w.log[i].entry.kind == Delete
    requires w.log[i].durable.Some? && w.log[i].durable.value.source.Some?
    ensures w.log[i].entry.lv == w.log[i].durable.value.source
    ensures !w.log[i].durable.value.ended && !w.log[i].durable.value.preserve
  {
    ReachableIsSafe(w);
  }

  // --------------------------------------------------------------- release

  /** After a release answer nothing of that lifecycle runs; only a power loss can end
      this, and only when the answer found the retirement already written. */
  lemma ReleasedLifecycleStaysOut(w: World, i: nat, j: nat)
    requires Reachable(w)
    requires i < j < |w.log| && w.log[i].Acked? && w.log[i].ack.Released? && w.log[j].Ran?
    requires w.log[i].ack.uid == w.log[j].entry.uid
    ensures !w.log[i].ack.written && PowerLossBetween(w.log, i, j)
  {
    ReachableIsSafe(w);
    assert Compatible(w.log[i], w.log[j]);
  }

  predicate RetiredIn(m: Option<Mark>, uid: Uid) {
    m.Some? && uid in m.value.retired
  }

  /**
   The answer of a release outlives every power loss exactly when it did not
   find the lifecycle already retired, or found that retirement durable.
   */
  lemma ReleaseAnswerSurvivesIff(w: World, token: Token, unexported: bool, env: Env)
    requires Reachable(w) && Enabled(w, Begin(DoRetire(token, unexported), env))
    requires var after := RunAll(w, RetireLifecycle(token, unexported, env, Visible(w)));
             exists written :: after.log == w.log + [Acked(Released(token.uid, written))]
    ensures var after := RunAll(w, RetireLifecycle(token, unexported, env, Visible(w)));
            (forall keep | 0 <= keep < |after.disk| :: RetiredIn(after.disk[keep], token.uid)) <==>
            !RetiredIn(Visible(w), token.uid) || RetiredIn(DurableMark(w), token.uid)
  {
    ReachableIsSafe(w);
    var stored := Visible(w);
    match Retire(token, unexported, ReleaseVerified(stored, env), stored)
    case NothingToDo =>
      var ack := [Answer(Released(token.uid, false))];
      assert ack[1..] == [] && RunAll(w, ack) == Apply(w, ack[0]);
      forall keep | 0 <= keep < |w.disk| && RetiredIn(w.disk[0], token.uid)
        ensures RetiredIn(w.disk[keep], token.uid)
      {
        ExtendsReflexive(w.disk[0]);
        assert Extends(w.disk[0], w.disk[keep]);
      }
    case RetireWith(next, _) => RetirementIsWritten(w, next, env.persist, Released(token.uid, true));
    case _ =>
  }

  lemma RetirementIsWritten(w: World, m: Mark, io: WriteIo, ack: Ack)
    requires w.disk != [] && !ack.Passed?
    ensures var after := RunAll(w, CommitThen(m, true, io, ack));
            if io.Durable? then after.disk == [Some(m)] && after.log == w.log + [Acked(ack)] else after.log == w.log
  {
    var effects := CommitThen(m, true, io, ack);
    match io
    case NotRenamed => assert effects == [];
    case SyncLost =>
      assert effects == [Rename(m)] && effects[1..] == [];
      assert RunAll(w, effects) == Apply(w, Rename(m));
    case Durable =>
      assert effects == [Rename(m), Sync, Answer(ack)];
      assert effects[1..] == [Sync, Answer(ack)] && effects[1..][1..] == [Answer(ack)] && [Answer(ack)][1..] == [];
      var w1 := Apply(w, Rename(m));
      var w2 := Apply(w1, Sync);
      assert RunAll(w2, [Answer(ack)]) == Apply(w2, Answer(ack));
      assert RunAll(w1, [Sync, Answer(ack)]) == Apply(w2, Answer(ack));
  }
}
