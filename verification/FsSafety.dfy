/**
 What an adopted filesystem keeps at every step: the marks that may survive a
 crash record every admitted client and claim the proxy they use.
 */
module FsSafety {
  import opened Marks
  import opened FsAdmission
  import opened FsPolicy
  import FencePrograms

  type WriteIo = FencePrograms.WriteIo
  type FsWrite = FencePrograms.FsWrite
  type Disk = seq<Option<Mark>>

  /** The proxy target; `empty` is about the directory below the mount. */
  datatype Dir = Absent | Present(mounted: bool, empty: bool)

  datatype Snap = Snap(disk: seq<Option<Mark>>, nfs: Policy, dir: Dir)

  /** A failed manager call leaves the old or the new policy. */
  datatype NfsIo = Applied | FailedBefore | FailedAfter

  datatype MkdirIo = NotMade | BadMode(removed: bool) | Made

  datatype ProxyIo = ProxyIo(
    ready: bool,               // context, namespace and target path are fine
    statOk: bool, directory: bool, claim: WriteIo, parentOk: bool, mkdir: MkdirIo,
    queryOk: bool, readOk: bool, mountOk: bool, verifyOk: bool, unmountOk: bool, removeOk: bool)

  datatype Env = Env(
    pinOk: bool,               // the native source could be pinned and validated
    persist: WriteIo, proxy: ProxyIo, write: WriteIo,
    manager: bool,             // an NFS manager is configured
    nfs: NfsIo, withdraw: NfsIo, undo: ProxyIo, final: WriteIo)

  /** No system call fails. */
  predicate Smooth(io: ProxyIo) {
    && io.ready && io.statOk && io.directory && io.claim.Durable? && io.parentOk && io.mkdir.Made?
    && io.queryOk && io.readOk && io.mountOk && io.verifyOk && io.unmountOk && io.removeOk
  }

  /** A target that is absent can be claimed and made; one that exists is ours, and mounted or empty. */
  predicate TargetFits(io: ProxyIo, d: Dir, f: FsState) {
    && io.statOk && io.parentOk && io.queryOk
    && if d.Absent? then io.claim.Durable? && io.mkdir.Made?
       else io.directory && OwnsProxy(f) && (d.mounted || (io.readOk && d.empty))
  }

  predicate Mounts(io: ProxyIo, d: Dir) {
    io.verifyOk && (io.mountOk || (d.Present? && d.mounted))
  }

  /** What a failed call made can be taken back. */
  predicate Undoes(io: ProxyIo) {
    io.unmountOk && io.removeOk && io.mkdir != BadMode(false)
  }

  predicate Calm(env: Env) {
    && env.pinOk && env.persist.Durable? && Smooth(env.proxy) && env.write.Durable? && env.manager
    && env.nfs.Applied? && env.withdraw.Applied? && Smooth(env.undo) && env.final.Durable?
  }

  // --------------------------------------------------------------- invariant

  predicate OwnsProxy(f: FsState) {
    f.proxyClaimed || f.localAttached || f.exported
  }

  /** The calls that withdraw an export succeed. */
  predicate Undoable(env: Env, d: Dir, f: FsState) {
    env.manager && env.withdraw.Applied? && (f.localAttached || (Smooth(env.undo) && Removable(d, f)))
  }

  /** Nothing is there yet, or an owned directory that is mounted or empty. */
  predicate Usable(d: Dir, f: FsState) {
    d.Absent? || (OwnsProxy(f) && (d.mounted || d.empty))
  }

  predicate Removable(d: Dir, f: FsState) {
    d.Absent? || (OwnsProxy(f) && d.empty)
  }

  /** A published proxy is claimed, and every admitted client is on record. */
  predicate FsOk(acl: bool, p: Policy, f: FsState) {
    && (f.localAttached || f.exported ==> f.proxyClaimed)
    && Covers(f, p) && ModeOk(acl, f, p)
  }

  /** What every mark that may survive a crash says about the node. */
  predicate MarkOk(acl: bool, p: Policy, c: Option<Mark>) {
    if c.None? then p.NoExport?
    else WellFormed(c.value) && FsOk(acl, p, c.value.fs) && (c.value.ended ==> p.NoExport?)
  }

  predicate SnapOk(acl: bool, s: Snap) {
    s.disk != [] && forall k | 0 <= k < |s.disk| :: MarkOk(acl, s.nfs, s.disk[k])
  }

  /** A directory appears only under a durable claim and changes only under recorded ownership. */
  predicate DirStep(a: Snap, b: Snap) {
    a.dir != b.dir ==>
      forall k | 0 <= k < |a.disk| ::
        a.disk[k].Some? && if a.dir.Absent? then a.disk[k].value.fs.proxyClaimed else OwnsProxy(a.disk[k].value.fs)
  }

  /** Every step of the trail keeps the invariant. */
  predicate TrailOk(acl: bool, trail: seq<Snap>) {
    trail != [] ==>
      var n := |trail| - 1;
      TrailOk(acl, trail[..n]) && SnapOk(acl, trail[n]) && (n > 0 ==> DirStep(trail[n - 1], trail[n]))
  }

  lemma {:induction false} EveryStepIsOk(acl: bool, trail: seq<Snap>, i: nat)
    requires TrailOk(acl, trail) && i < |trail|
    ensures SnapOk(acl, trail[i]) && (i > 0 ==> DirStep(trail[i - 1], trail[i]))
    decreases |trail|
  {
    if i < |trail| - 1 { EveryStepIsOk(acl, trail[..|trail| - 1], i); }
  }

  lemma TrailGrows(acl: bool, trail: seq<Snap>, s: Snap)
    requires TrailOk(acl, trail) && SnapOk(acl, s)
    requires trail != [] ==> DirStep(trail[|trail| - 1], s)
    ensures TrailOk(acl, trail + [s])
  {
    assert (trail + [s])[..|trail|] == trail;
  }

  function Last(disk: seq<Option<Mark>>): Option<Mark>
    requires disk != []
  {
    disk[|disk| - 1]
  }

  /** The lifecycle was met as owner and may since have been retired. */
  predicate Met(m: Option<Mark>, uid: Uid) {
    m.Some? && (m.value.uid == uid || uid in m.value.retired)
  }

  /** The teardown of t is done: older tokens are fenced and nothing is exported for it. */
  predicate TornDown(m: Option<Mark>, p: Policy, t: Token) {
    Dominates(m, t) && (m.value.uid == t.uid ==> p.NoExport?)
  }

  /** What the process remembers about releases on their way. */
  predicate Remembers(m: Option<Mark>, p: Policy, met: set<Uid>, leaving: set<Token>) {
    && (forall u | u in met :: Met(m, u))
    && (forall t | t in leaving :: TornDown(m, p, t))
  }

  /** Memory survives a step that does not publish for a leaving lifecycle. */
  lemma MemorySurvives(a: Option<Mark>, p: Policy, b: Option<Mark>, q: Policy, met: set<Uid>, leaving: set<Token>)
    requires Remembers(a, p, met, leaving) && Extends(a, b)
    requires forall t | t in leaving && b.Some? && b.value.uid == t.uid :: p.NoExport? ==> q.NoExport?
    ensures Remembers(b, q, met, leaving)
  {
    forall t | t in leaving
      ensures TornDown(b, q, t)
    {
      assert TornDown(a, p, t);
    }
    forall u | u in met
      ensures Met(b, u)
    {
      assert Met(a, u);
    }
  }

  function WithFs(m: Mark, f: FsState): Mark {
    m.(fs := f)
  }

  /** The fields that name the adopted source agree. */
  predicate SameSource(was: FsState, now: FsState) {
    was.adoption == now.adoption && was.volumeId == now.volumeId && was.capacity == now.capacity && was.layout == now.layout
  }

  /** Only the use of the filesystem differs from m. */
  predicate OnlyFs(disk: seq<Option<Mark>>, m: Mark) {
    && disk != [] && Last(disk).Some? && Last(disk).value == WithFs(m, Last(disk).value.fs)
    && SameSource(m.fs, Last(disk).value.fs)
  }

  /** What the writes of a mutation leave on a disk that holds just `base`. */
  function Replay(base: Mark, writes: seq<FsWrite>): seq<Option<Mark>> {
    if writes == [] then [Some(base)]
    else
      var d, w := Replay(base, writes[..|writes| - 1]), writes[|writes| - 1];
      match w.io
      case NotRenamed => d
      case SyncLost => d + [Some(WithFs(base, FencePrograms.KeepSource(base.fs, w.fs)))]
      case Durable => [Some(WithFs(base, FencePrograms.KeepSource(base.fs, w.fs)))]
  }

  /** A mutation stops at its first failed write. */
  predicate StopsAtFailure(writes: seq<FsWrite>) {
    forall i | 0 <= i < |writes| - 1 :: writes[i].io.Durable?
  }

  predicate AllDurable(writes: seq<FsWrite>) {
    forall i | 0 <= i < |writes| :: writes[i].io.Durable?
  }

  lemma ReplayOne(base: Mark, writes: seq<FsWrite>, w: FsWrite)
    requires AllDurable(writes) && SameSource(base.fs, w.fs)
    ensures StopsAtFailure(writes + [w]) && (w.io.Durable? ==> AllDurable(writes + [w]))
    ensures Replay(base, writes + [w]) ==
            match w.io
            case NotRenamed => Replay(base, writes)
            case SyncLost => Replay(base, writes) + [Some(WithFs(base, w.fs))]
            case Durable => [Some(WithFs(base, w.fs))]
  {
    assert (writes + [w])[..|writes|] == writes;
  }

  // ----------------------------------------------- disks a section may leave

  /** Every disk of the trail is one of those that the section may leave. */
  ghost predicate DisksOk(may: iset<Disk>, trail: seq<Snap>) {
    trail != [] ==> DisksOk(may, trail[..|trail| - 1]) && trail[|trail| - 1].disk in may
  }

  lemma DisksGrow(may: iset<Disk>, trail: seq<Snap>, s: Snap)
    requires DisksOk(may, trail) && s.disk in may
    ensures DisksOk(may, trail + [s])
  {
    assert (trail + [s])[..|trail|] == trail;
  }

  lemma {:induction false} EveryDiskIsAllowed(may: iset<Disk>, trail: seq<Snap>, i: nat)
    requires DisksOk(may, trail) && i < |trail|
    ensures trail[i].disk in may
    decreases |trail|
  {
    if i < |trail| - 1 { EveryDiskIsAllowed(may, trail[..|trail| - 1], i); }
  }

  /** All writes of a mutation of `base` that stop at the first failure. */
  ghost predicate AllowsWrites(may: iset<Disk>, base: Mark) {
    forall writes :: StopsAtFailure(writes) ==> Replay(base, writes) in may
  }

  lemma AllowWrite(may: iset<Disk>, base: Mark, writes: seq<FsWrite>, f: FsState)
    requires AllowsWrites(may, base) && AllDurable(writes) && SameSource(base.fs, f)
    ensures Replay(base, writes) + [Some(WithFs(base, f))] in may && [Some(WithFs(base, f))] in may
  {
    ReplayOne(base, writes, FencePrograms.FsWrite(f, FencePrograms.SyncLost));
    ReplayOne(base, writes, FencePrograms.FsWrite(f, FencePrograms.Durable));
    assert Replay(base, writes + [FencePrograms.FsWrite(f, FencePrograms.SyncLost)]) in may;
    assert Replay(base, writes + [FencePrograms.FsWrite(f, FencePrograms.Durable)]) in may;
  }

  ghost function AnyDisk(): iset<Disk> {
    iset d: Disk | |d| >= 0
  }

  /** The disks that the section of an admitted request has to be allowed. */
  ghost predicate Allows(may: iset<Disk>, start: Disk, token: Token, r: FsRequest) {
    && start in may
    && (start != [] && WellFormedDisk(Last(start)) && Decide(token, r, true, Last(start)).Go? ==>
          var d := Decide(token, r, true, Last(start));
          && (r.importing || d.changed ==> start + [Some(d.next)] in may)
          && (if r.importing then [Some(d.next)] in may else AllowsWrites(may, d.next)))
  }

  ghost predicate AllowsRetirement(may: iset<Disk>, start: Disk, token: Token, unexported: bool) {
    && start in may
    && (start != [] && WellFormedDisk(Last(start)) && Retire(token, unexported, true, Last(start)).RetireWith? ==>
          var next := Retire(token, unexported, true, Last(start)).next;
          start + [Some(next)] in may && [Some(next)] in may)
  }

  ghost predicate AllowsSection(may: iset<Disk>, start: Disk, s: Section) {
    s.Call? ==>
      if s.work.Retiring? then AllowsRetirement(may, start, s.token, s.work.unexported)
      else Allows(may, start, s.token, Shape(s.request, s.work))
  }

  // ------------------------------------------------------------- admission

  /** The release rule of the controller: grants stay below the generation that releases. */
  predicate Below(op: Op, token: Token, leaving: set<Token>) {
    op.Grant? ==> forall t | t in leaving && t.uid == token.uid :: token.gen < t.gen
  }

  /** The teardowns that a grant of `token` leaves standing. */
  function Standing(leaving: set<Token>, op: Op, token: Token): (r: set<Token>)
    ensures r <= leaving && Below(op, token, r)
    ensures Below(op, token, leaving) ==> r == leaving
  {
    if op.Grant? then set t | t in leaving && (t.uid == token.uid ==> token.gen < t.gen) else leaving
  }

  /** Publication state is carried over unchanged. */
  predicate SameUse(a: Option<Mark>, b: Mark) {
    && a.Some?
    && a.value.fs.localAttached == b.fs.localAttached && a.value.fs.clients == b.fs.clients
    && a.value.fs.open == b.fs.open && a.value.fs.exported == b.fs.exported
    && a.value.fs.proxyClaimed == b.fs.proxyClaimed
  }

  datatype Decision = NoWork | Deny | Go(next: Mark, changed: bool)

  /** Admission of an operation other than an import. */
  function Decide(token: Token, r: FsRequest, pinOk: bool, stored: Option<Mark>): Decision
    requires WellFormedDisk(stored)
  {
    var adm := Admit(token, r.op, stored);
    if adm.Rejected? then Deny
    else match State(r, token, stored)
      case Skip => NoWork
      case Refuse => Deny
      case Proceed =>
        if !CapacityAgrees(r, token, stored) || (r.capacity > 0 && !pinOk) then Deny
        else
          var next := Claim(r, adm.next);
          Go(next, adm.changed || stored.None? || stored.value.fs.adoption != next.fs.adoption)
  }

  /** The token is of the lifecycle that owns the filesystem. */
  predicate Mine(token: Token, stored: Option<Mark>) {
    stored.Some? && stored.value.uid == token.uid && !stored.value.ended
  }

  /**
   What a request has to satisfy: its token is not refused, it comes from the
   owner or imports, it names the source on record, and a grant states a size.
   */
  predicate Admissible(token: Token, r: FsRequest, stored: Option<Mark>) {
    && WellFormedDisk(stored) && !TokenContractRefuses(token, r.op, stored)
    && (Mine(token, stored) || r.importing) && (r.op.Grant? ==> r.capacity > 0)
    && (Mine(token, stored) ==>
          var f := stored.value.fs;
          && f.adoption == Some(r.adoption) && f.volumeId == r.volumeId
          && (r.capacity > 0 ==> f.capacity == r.capacity && f.layout == Some(r.layout)))
  }

  /** What a request was admitted for it may go on doing: its writes keep owner, token and source. */
  lemma StillAdmissible(token: Token, r: FsRequest, base: Mark, now: Mark)
    requires Admissible(token, r, Some(base)) && !r.importing
    requires WellFormed(now) && now == WithFs(base, now.fs) && SameSource(base.fs, now.fs)
    ensures Admissible(token, r, Some(now))
  {
  }

  /** The decision is exactly that, and a stated size also wants the source pinned. */
  lemma DecisionIff(token: Token, r: FsRequest, pinOk: bool, stored: Option<Mark>)
    requires WellFormedDisk(stored) && !r.op.Destroy? && (r.importing ==> r.op.Grant?)
    ensures Decide(token, r, pinOk, stored).Go? <==> Admissible(token, r, stored) && (r.capacity > 0 ==> pinOk)
    ensures Decide(token, r, pinOk, stored).NoWork? <==>
            r.op.Revoke? && !TokenContractRefuses(token, r.op, stored) && !Mine(token, stored)
  {
    AdmissionIsTheTokenContract(token, r.op, stored);
  }

  /** The owner's mark changes in its generation alone; a first import starts with nothing published. */
  lemma DecidedMarkIs(token: Token, r: FsRequest, pinOk: bool, stored: Option<Mark>)
    requires WellFormedDisk(stored) && !r.op.Destroy? && (r.importing ==> r.op.Grant?)
    requires Decide(token, r, pinOk, stored).Go?
    ensures var d := Decide(token, r, pinOk, stored);
            && (d.changed <==> stored != Some(d.next))
            && if Mine(token, stored) then d.next == stored.value.(gen := token.gen)
               else
                 && d.next.uid == token.uid && d.next.gen == token.gen && !d.next.ended
                 && d.next.fs == NO_FS.(adoption := Some(r.adoption), volumeId := r.volumeId, capacity := r.capacity,
                                        layout := Some(r.layout))
                 && (forall u :: u in d.next.retired <==>
                                 stored.Some? && (u == stored.value.uid || u in stored.value.retired))
  {
    DecisionIff(token, r, pinOk, stored);
    AdmissionChangesOnly(token, r.op, stored);
  }

  lemma DecisionIsSafe(acl: bool, p: Policy, token: Token, r: FsRequest, pinOk: bool, stored: Option<Mark>)
    requires MarkOk(acl, p, stored) && !r.op.Destroy? && !r.importing && Decide(token, r, pinOk, stored).Go?
    ensures var d := Decide(token, r, pinOk, stored);
            && MarkOk(acl, p, Some(d.next)) && !d.next.ended
            && d.next.uid == token.uid && d.next.gen == token.gen
            && SameUse(stored, d.next) && Extends(stored, Some(d.next))
            && (!d.changed ==> stored == Some(d.next))
  {
  }

  /** A first import finds nothing exported; a repeated one changes no publication state. */
  lemma ImportIsSafe(acl: bool, p: Policy, token: Token, r: FsRequest, pinOk: bool, stored: Option<Mark>)
    requires MarkOk(acl, p, stored) && r.op.Grant? && Decide(token, r, pinOk, stored).Go?
    ensures var d := Decide(token, r, pinOk, stored);
            && MarkOk(acl, p, Some(d.next)) && !d.next.ended
            && d.next.uid == token.uid && d.next.gen == token.gen
            && Extends(stored, Some(d.next))
            && d.next.fs.adoption == Some(r.adoption) && d.next.fs.capacity == r.capacity > 0
  {
  }

  predicate MayTearDown(f: FsState, deleting: bool) {
    !f.localAttached && (deleting ==> !f.open && f.clients == [])
  }

  /** A release meets no obstacle on the node. */
  predicate Releasable(f: FsState, d: Dir, deleting: bool) {
    MayTearDown(f, deleting) && Removable(d, f)
  }

  /** A token may retire its lifecycle unless it is of the owner and too old for it. */
  predicate MayRetire(m: Option<Mark>, token: Token) {
    token.uid != "" && (OwnedBy(m, token.uid) ==> OwnerMay(token, m.value))
  }

  predicate OwnedBy(m: Option<Mark>, uid: Uid) {
    m.Some? && m.value.uid == uid && uid !in m.value.retired
  }

  /** The end of the owner is durable and nothing is exported. */
  predicate OwnerGone(disk: seq<Option<Mark>>, p: Policy) {
    |disk| == 1 && disk[0].Some? && disk[0].value.ended && p.NoExport?
  }

  /** Retiring a lifecycle that does not own changes nothing but the retired list. */
  predicate KeepsOthers(was: Option<Mark>, now: Option<Mark>, uid: Uid) {
    was.Some? && was.value.uid != uid ==> now.Some? && now.value == was.value.(retired := now.value.retired)
  }

  /** A lifecycle that was met as owner and no longer owns has ended with nothing exported. */
  lemma SkippedIsTornDown(acl: bool, p: Policy, token: Token, stored: Option<Mark>)
    requires MarkOk(acl, p, stored) && Met(stored, token.uid) && !Owns(stored, token)
    requires Admit(token, Revoke, stored).Admitted?
    ensures p.NoExport? && TornDown(stored, p, token)
  {
  }

  /** A retirement keeps the publication state; the owner is retired with nothing exported. */
  lemma RetireIsSafe(acl: bool, p: Policy, token: Token, unexported: bool, stored: Option<Mark>)
    requires MarkOk(acl, p, stored) && Retire(token, unexported, true, stored).RetireWith?
    requires unexported ==> TornDown(stored, p, token)
    ensures MarkOk(acl, p, Some(Retire(token, unexported, true, stored).next))
  {
  }

  /** An admitted grant never belongs to a lifecycle whose teardown is done. */
  lemma GrantsAreForOthers(token: Token, stored: Option<Mark>, p: Policy, met: set<Uid>, leaving: set<Token>)
    requires WellFormedDisk(stored) && Admit(token, Grant, stored).Admitted?
    requires Remembers(stored, p, met, leaving) && Below(Grant, token, leaving)
    ensures forall t | t in leaving :: t.uid != token.uid
  {
    forall t | t in leaving
      ensures t.uid != token.uid
    {
      assert TornDown(stored, p, t);
    }
  }

  datatype Work =
    | Importing(nativeFree: bool) | Exporting(exact: bool, clients: seq<string>) | Allowing(client: string)
    | Denying(client: string) | Unexporting | Attaching(local: bool) | Restoring(exports: bool)
    | TearingDown(deleting: bool) | Retiring(unexported: bool)

  /** What may happen between two holds of the lock; `Stop` is a process crash or a power loss. */
  datatype Section =
    | Call(token: Token, request: FsRequest, work: Work, env: Env)
    | Stop(at: nat, keep: Option<nat>, dir: Dir)
    | Others(sync: bool, dir: Dir)

  function Shape(r: FsRequest, work: Work): FsRequest {
    var grant := work.Importing? || work.Exporting? || work.Allowing? || work.Restoring? || (work.Attaching? && work.local);
    r.(op := if grant then Grant else Revoke, importing := work.Importing?)
  }

  /** The controller's rule for a set of release tokens. */
  predicate Obeys(s: Section, releases: set<Token>) {
    s.Call? ==>
      && Below(Shape(s.request, s.work).op, s.token, releases)
      && (s.work.TearingDown? ==> s.token in releases)
  }

  datatype Opening = Skipped | Refused | Opened(mark: Mark)

  datatype Reply = Done | NotOwner | Failed

  /** Both records of an export are safe: the grown one around the manager call, the final one after it. */
  lemma PutIsSafe(acl: bool, p: Policy, f: FsState, exact: bool, clients: seq<string>)
    requires FsOk(acl, p, f) && f.proxyClaimed
    ensures var next := PutPolicy(p, acl, exact, if exact then clients else f.clients);
            var grown := BeforePut(f, acl, exact, clients);
            && FsOk(acl, p, grown) && FsOk(acl, next, grown)
            && FsOk(acl, next, AfterPut(grown, acl, exact, clients))
  {
    RecordGrowsFirst(f, p, acl, exact, clients);
    FixedModeIsCovered(f, p, acl, exact, clients);
  }

  /** The step reached after the reported trails. */
  function EndOf(history: seq<seq<Snap>>, start: Snap): Snap {
    if history == [] || history[|history| - 1] == [] then start
    else
      var t := history[|history| - 1];
      t[|t| - 1]
  }

  /** Every trail is safe, and the trail of a request starts where the previous one ended. */
  predicate Chained(acl: bool, sections: seq<Section>, history: seq<seq<Snap>>, start: Snap) {
    && |history| <= |sections|
    && (forall i | 0 <= i < |history| :: history[i] != [] && TrailOk(acl, history[i]))
    && (forall i | 0 <= i < |history| && sections[i].Call? :: history[i][0] == EndOf(history[..i], start))
  }

  lemma ChainGrows(acl: bool, sections: seq<Section>, history: seq<seq<Snap>>, start: Snap, trail: seq<Snap>)
    requires Chained(acl, sections, history, start) && |history| < |sections|
    requires trail != [] && TrailOk(acl, trail)
    requires sections[|history|].Call? ==> trail[0] == EndOf(history, start)
    ensures Chained(acl, sections, history + [trail], start)
  {
    var all := history + [trail];
    forall i | 0 <= i < |all|
      ensures all[..i] == history[..i]
      ensures i == |history| ==> all[..i] == history
    {
    }
  }

  lemma RecordedAt(acl: bool, trail: seq<Snap>, j: nat, k: nat, client: string)
    requires TrailOk(acl, trail) && j < |trail| && k < |trail[j].disk| && Admits(trail[j].nfs, client)
    ensures var c := trail[j].disk[k]; c.Some? && !c.value.ended && Recorded(c.value.fs, client)
  {
    EveryStepIsOk(acl, trail, j);
    assert MarkOk(acl, trail[j].nfs, trail[j].disk[k]);
  }

  lemma ClaimedAt(acl: bool, trail: seq<Snap>, j: nat, k: nat)
    requires TrailOk(acl, trail) && j < |trail| && k < |trail[j].disk| && trail[j].disk[k].Some?
    ensures var f := trail[j].disk[k].value.fs; f.localAttached || f.exported ==> f.proxyClaimed
  {
    EveryStepIsOk(acl, trail, j);
    assert MarkOk(acl, trail[j].nfs, trail[j].disk[k]);
  }
}
