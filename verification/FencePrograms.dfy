/**
 Every code path that runs under one volume's fencing lock, as the sequence of
 effects it has on the storage node.  The process may stop after any prefix of
 such a program.  The outcome of each system call is chosen by an `Env`.
 */
module FencePrograms {
  import opened Marks
  import FsAdmission

  /** What a fenced mutation does. */
  datatype Kind =
    | Create | Expand | Export | Allow | LocalAttach | Prepare | Link | FsPublish
    | Unexport | Deny | FsWithdraw
    | Delete

  function OpOf(kind: Kind): Op {
    match kind
    case Unexport | Deny | FsWithdraw => Revoke
    case Delete => Destroy
    case _ => Grant
  }

  /** One execution of a mutation; `lv` is the LV behind the volume's locator. */
  datatype Entry = Entry(uid: Uid, gen: nat, kind: Kind, ok: bool, lv: Option<Lv>, exports: bool)

  /** Successful answers the caller may rely on. */
  datatype Ack =
    | Passed(token: Token)                              // fenced grant, remembered by the process
    | Destroyed(uid: Uid, pinned: bool)
    | Imported(source: Option<Lv>, preserve: bool)
    | Released(uid: Uid, written: bool)                 // written: this call wrote the retirement
    | Transferred(uid: Uid, digest: string, preserve: bool)   // the policy of the committed mark

  datatype Effect =
    | Rename(mark: Mark)       // the new mark reaches the mark path
    | Sync                     // the directory fsync succeeded
    | Mutate(entry: Entry)
    | Answer(ack: Ack)

  /** Outcome of replacing the mark file; only Durable is reported as success. */
  datatype WriteIo = NotRenamed | SyncLost | Durable

  datatype Env = Env(
    readOk: bool,              // the stored mark could be read
    lv: Option<Lv>,            // what the LV verifier resolves; None when it fails
    idle: bool,                // no local consumer of the preserved LV was observed
    guardOk: bool,             // the native-owner guard passed
    persist: WriteIo,
    mutateOk: bool,
    exports: bool,             // the mutation left an export behind
    final: WriteIo,
    authentic: bool,           // peer, signatures and snapshot binding verified
    stopped: bool)             // live evidence that the old initiator stopped

  function WriteMark(m: Mark, io: WriteIo): seq<Effect> {
    match io
    case NotRenamed => []
    case SyncLost => [Rename(m)]
    case Durable => [Rename(m), Sync]
  }

  /** An unchanged mark is re-synced, never trusted as durable. */
  function Persist(m: Mark, changed: bool, io: WriteIo): seq<Effect> {
    if changed then WriteMark(m, io)
    else if io.Durable? then [Sync] else []
  }

  /** An answer is given only once the mark behind it is durable. */
  function CommitThen(m: Mark, changed: bool, io: WriteIo, ack: Ack): seq<Effect> {
    Persist(m, changed, io) + if io.Durable? then [Answer(ack)] else []
  }

  // -------------------------------------------------- fenced, checked section

  predicate PinnedSourceVerified(stored: Option<Mark>, env: Env) {
    stored.Some? && stored.value.source.Some? ==> env.lv == stored.value.source
  }

  /** The RPC's own policy check on the stored mark. */
  predicate PolicyAllows(kind: Kind, stored: Option<Mark>) {
    stored.Some? ==>
      && (kind == Create ==> stored.value.source.None?)
      && (kind == Expand || kind == Delete ==> !stored.value.preserve)
  }

  predicate PreconditionsHold(kind: Kind, stored: Option<Mark>, env: Env) {
    && PolicyAllows(kind, stored)
    && (OpOf(kind) != Revoke ==> PinnedSourceVerified(stored, env))
  }

  function LegacyFlag(stored: Option<Mark>): bool {
    stored.Some? && stored.value.legacyRevokeOnly
  }

  /** A revoke on a dataset fences its name without claiming the native source. */
  function PrepareMark(next: Mark, dataset: bool, op: Op, token: Token, stored: Option<Mark>): Mark {
    if !dataset then next
    else if op != Revoke then next.(legacyRevokeOnly := false)
    else if stored.None? || stored.value.ended || stored.value.uid != token.uid then next.(legacyRevokeOnly := true)
    else next
  }

  function EntryOf(token: Token, kind: Kind, env: Env): Entry {
    Entry(token.uid, token.gen, kind, env.mutateOk, env.lv, env.exports)
  }

  /** What follows the mutation: a destroy is recorded as ended once it succeeded. */
  function AfterMutation(next: Mark, token: Token, kind: Kind, env: Env): seq<Effect> {
    if !env.mutateOk then []
    else match OpOf(kind)
      case Grant => [Answer(Passed(token))]
      case Revoke => []
      case Destroy =>
        var ack := [Answer(Destroyed(token.uid, next.source.Some?))];
        if next.ended then ack
        else WriteMark(next.(ended := true), env.final) + if env.final.Durable? then ack else []
  }

  /** How a fenced section goes on once the stored mark is known. */
  datatype Plan =
    | ReadFailed
    | Refuse
    | Resync(mark: Mark)                     // terminal retry of a pinned destroy: nothing runs
    | Proceed(next: Mark, changed: bool)

  function PlanFenced(token: Token, kind: Kind, dataset: bool, env: Env, stored: Option<Mark>): (p: Plan)
    requires WellFormedDisk(stored)
    ensures p.Proceed? ==>
              && WellFormed(p.next) && p.next.uid == token.uid && p.next.gen == token.gen
              && Extends(stored, Some(p.next)) && (!p.changed ==> stored == Some(p.next))
    ensures p.Resync? ==>
              stored == Some(p.mark) && p.mark.uid == token.uid && p.mark.gen == token.gen && p.mark.ended &&
              p.mark.source.Some? && kind == Delete
  {
    var op := OpOf(kind);
    var adm := Admit(token, op, stored);
    if !env.readOk then ReadFailed
    else if adm.Rejected? then Refuse
    else if adm.decision == TerminalRetry && op == Destroy && stored.value.source.Some? then Resync(stored.value)
    else if adm.decision != TerminalRetry && !PreconditionsHold(kind, stored, env) then Refuse
    else if op != Revoke && !env.guardOk then Refuse
    else
      var next := PrepareMark(adm.next, dataset, op, token, stored);
      Proceed(next, adm.changed || next.legacyRevokeOnly != LegacyFlag(stored))
  }

  /** The lifecycle of the token has ended already. */
  predicate Terminal(token: Token, stored: Option<Mark>) {
    stored.Some? && stored.value.uid == token.uid && stored.value.ended
  }

  predicate IsRevoke(kind: Kind) {
    kind == Unexport || kind == Deny || kind == FsWithdraw
  }

  /** All reasons to refuse a fenced request, in terms of token, mark and node. */
  predicate FencedRefuses(token: Token, kind: Kind, env: Env, stored: Option<Mark>) {
    || TokenContractRefuses(token, if kind == Delete then Destroy else if IsRevoke(kind) then Revoke else Grant, stored)
    || (!Terminal(token, stored) && stored.Some? &&
        ((kind == Create && stored.value.source.Some?) ||
         ((kind == Expand || kind == Delete) && stored.value.preserve) ||
         (!IsRevoke(kind) && stored.value.source.Some? && env.lv != stored.value.source)))
    || (!IsRevoke(kind) && !env.guardOk && !(Terminal(token, stored) && stored.value.source.Some?))
  }

  lemma FencedRefusesIff(token: Token, kind: Kind, dataset: bool, env: Env, stored: Option<Mark>)
    requires WellFormedDisk(stored)
    ensures PlanFenced(token, kind, dataset, env, stored).Refuse? <==> env.readOk && FencedRefuses(token, kind, env, stored)
  {
    AdmissionIsTheTokenContract(token, OpOf(kind), stored);
  }

  /** Only the retry of a delete that ended a pinned lifecycle skips its mutation. */
  lemma FencedResyncsIff(token: Token, kind: Kind, dataset: bool, env: Env, stored: Option<Mark>)
    requires WellFormedDisk(stored)
    ensures PlanFenced(token, kind, dataset, env, stored).Resync? <==>
            && env.readOk && kind == Delete && Terminal(token, stored) && stored.value.source.Some?
            && !TokenContractRefuses(token, Destroy, stored)
  {
    AdmissionIsTheTokenContract(token, OpOf(kind), stored);
  }

  /** A fenced section changes the generation and, on a dataset, the revoke-only flag; nothing else of its own mark. */
  lemma FencedMarkIs(token: Token, kind: Kind, dataset: bool, env: Env, stored: Option<Mark>)
    requires WellFormedDisk(stored) && PlanFenced(token, kind, dataset, env, stored).Proceed?
    ensures var next := PlanFenced(token, kind, dataset, env, stored).next;
            var adm := Admit(token, OpOf(kind), stored);
            && adm.Admitted? && next == adm.next.(legacyRevokeOnly := next.legacyRevokeOnly)
            && (next.legacyRevokeOnly <==>
                if dataset && !IsRevoke(kind) then false
                else if dataset && (stored.None? || stored.value.ended || stored.value.uid != token.uid) then true
                else stored.Some? && stored.value.uid == token.uid && stored.value.legacyRevokeOnly)
  {
    AdmissionChangesOnly(token, OpOf(kind), stored);
  }

  /** The mutation runs only once the admitted mark is durable. */
  function PersistThenMutate(next: Mark, changed: bool, token: Token, kind: Kind, env: Env): seq<Effect> {
    Persist(next, changed, env.persist) +
    if env.persist.Durable? then [Mutate(EntryOf(token, kind, env))] + AfterMutation(next, token, kind, env) else []
  }

  function Fenced(token: Token, kind: Kind, dataset: bool, env: Env, stored: Option<Mark>): seq<Effect>
    requires WellFormedDisk(stored)
  {
    match PlanFenced(token, kind, dataset, env, stored)
    case ReadFailed => []
    case Refuse => []
    case Resync(m) =>
      CommitThen(m, false, env.persist, Destroyed(token.uid, true))
    case Proceed(next, changed) => PersistThenMutate(next, changed, token, kind, env)
  }

  // ------------------------------------------------------------------- import

  function PlanImport(token: Token, src: Option<Lv>, preserve: bool, env: Env, stored: Option<Mark>): (p: Plan)
    requires WellFormedDisk(stored)
    ensures !p.Resync?
    ensures p.Proceed? ==>
              && WellFormed(p.next) && p.next.uid == token.uid && p.next.gen == token.gen && !p.next.ended
              && Extends(stored, Some(p.next)) && (!p.changed ==> stored == Some(p.next))
              && p.next.source == src
              && (p.next.preserve <==> (stored.Some? && stored.value.preserve) || (src.Some? && preserve))
  {
    var adm := Admit(token, Grant, stored);
    if !env.readOk then ReadFailed
    else if adm.Rejected? then Refuse
    else
      var next := PinImport(adm.next, stored, src, preserve);
      if next.None? || !env.mutateOk then Refuse
      else Proceed(next.value, stored.None? || !EqualMarks(next.value, stored.value))
  }

  /** An import is refused for its token, for another pin, for a downgrade, or by the importer. */
  predicate ImportRefuses(token: Token, src: Option<Lv>, preserve: bool, env: Env, stored: Option<Mark>) {
    || TokenContractRefuses(token, Grant, stored)
    || (stored.Some? && stored.value.source.Some? &&
        (stored.value.source != src || (stored.value.preserve && !preserve)))
    || !env.mutateOk
  }

  lemma ImportRefusesIff(token: Token, src: Option<Lv>, preserve: bool, env: Env, stored: Option<Mark>)
    requires WellFormedDisk(stored)
    ensures PlanImport(token, src, preserve, env, stored).Refuse? <==>
            env.readOk && ImportRefuses(token, src, preserve, env, stored)
    ensures PlanImport(token, src, preserve, env, stored).ReadFailed? <==> !env.readOk
  {
    AdmissionIsTheTokenContract(token, Grant, stored);
  }

  function Import(token: Token, src: Option<Lv>, preserve: bool, env: Env, stored: Option<Mark>): seq<Effect>
    requires WellFormedDisk(stored)
  {
    match PlanImport(token, src, preserve, env, stored)
    case Proceed(next, changed) => CommitThen(next, changed, env.persist, Imported(next.source, next.preserve))
    case _ => []
  }

  // --------------------------------------------------------------- retirement

  predicate ReleaseVerified(stored: Option<Mark>, env: Env) {
    stored.Some? && stored.value.source.Some? ==>
      env.lv == stored.value.source && (stored.value.preserve ==> env.idle)
  }

  /** A release is refused without a lifecycle, for a stale owner token, and for a pinned LV that is elsewhere or busy. */
  predicate RetireRefuses(token: Token, unexported: bool, env: Env, stored: Option<Mark>) {
    || token.uid == ""
    || (stored.Some? && token.uid == stored.value.uid && token.uid !in stored.value.retired &&
        (!OwnerMay(token, stored.value) ||
         (unexported && stored.value.source.Some? &&
          (env.lv != stored.value.source || (stored.value.preserve && !env.idle)))))
  }

  lemma RetireRefusesIff(token: Token, unexported: bool, env: Env, stored: Option<Mark>)
    requires WellFormedDisk(stored)
    ensures Retire(token, unexported, ReleaseVerified(stored, env), stored) == RetireRefused <==>
            RetireRefuses(token, unexported, env, stored)
  {
    if token.uid != "" { RetirementIs(token, unexported, ReleaseVerified(stored, env), stored); }
  }

  function RetireLifecycle(token: Token, unexported: bool, env: Env, stored: Option<Mark>): seq<Effect>
    requires WellFormedDisk(stored)
  {
    if !env.readOk then []
    else match Retire(token, unexported, ReleaseVerified(stored, env), stored)
      case NothingToDo => [Answer(Released(token.uid, false))]
      case StillOwned => []
      case RetireRefused => []
      case RetireWith(next, _) =>
        CommitThen(next, true, env.persist, Released(token.uid, true))
  }

  // ------------------------------------------------------------------ recheck

  /** Links an export the same token prepared, without writing the mark. */
  function Recheck(token: Token, env: Env, stored: Option<Mark>): seq<Effect>
    requires WellFormedDisk(stored)
  {
    var adm := Admit(token, Grant, stored);
    if !env.readOk || adm.Rejected? || adm.changed || !PinnedSourceVerified(stored, env) then []
    else [Mutate(EntryOf(token, Link, env))]
  }

  /** A link runs for the token that an open mark names, on the pinned LV. */
  predicate RecheckActs(token: Token, env: Env, stored: Option<Mark>) {
    && stored.Some? && !TokenContractRefuses(token, Grant, stored)
    && token == Token(stored.value.uid, stored.value.gen)
    && (stored.value.source.Some? ==> env.lv == stored.value.source)
  }

  lemma RecheckActsIff(token: Token, env: Env, stored: Option<Mark>)
    requires WellFormedDisk(stored)
    ensures Recheck(token, env, stored) != [] <==> env.readOk && RecheckActs(token, env, stored)
  {
    AdmissionIsTheTokenContract(token, Grant, stored);
  }

  // ----------------------------------------------------------------- transfer

  datatype TransferReply = Committed | AlreadyCommitted | Unknown | TransferRefused

  datatype TransferPlan = NoTransfer | Retry(mark: Mark) | Move(next: Mark)

  function PlanTransfer(auth: Authorization, snap: Snapshot, env: Env, stored: Option<Mark>): (p: TransferPlan)
    requires WellFormedDisk(stored)
    ensures p.Retry? ==> stored == Some(p.mark) && Gained(p.mark, auth)
    ensures p.Move? ==>
              && WellFormed(p.next) && Gained(p.next, auth) && Extends(stored, Some(p.next))
              && stored.Some? && stored.value.uid == auth.oldUid && stored.value.gen == auth.oldGen
              && stored.value.source == auth.source && auth.source.Some? && env.stopped && env.authentic
              && auth.oldUid in p.next.retired
              && p.next.preserve == (stored.value.preserve || auth.preserve)
  {
    if !env.readOk || stored.None? then NoTransfer
    else if stored.value.uid == auth.newUid then
      if IsCommittedRetry(stored.value.transfer, auth) then Retry(stored.value) else NoTransfer
    else if !env.authentic || auth.newUid == "" then NoTransfer
    else
      var next := TransferMark(stored.value, auth, snap, env.stopped);
      if next.None? then NoTransfer else Move(next.value)
  }

  predicate MayMove(auth: Authorization, snap: Snapshot, env: Env, stored: Option<Mark>) {
    && stored.Some? && stored.value.uid != auth.newUid && auth.newUid != ""
    && env.authentic && env.stopped && TransferAgrees(stored.value, auth, snap)
  }

  /** A retry is answered from the record alone; a move needs signatures, agreement and stopped evidence. */
  lemma TransferProceedsIff(auth: Authorization, snap: Snapshot, env: Env, stored: Option<Mark>)
    requires WellFormedDisk(stored)
    ensures PlanTransfer(auth, snap, env, stored).Retry? <==> env.readOk && stored.Some? && Gained(stored.value, auth)
    ensures PlanTransfer(auth, snap, env, stored).Move? <==> env.readOk && MayMove(auth, snap, env, stored)
  {
    if stored.Some? && stored.value.uid != auth.newUid && auth.newUid != "" {
      TransferCommitsIff(stored.value, auth, snap, env.stopped);
    }
  }

  /** The mark is owned by the destination, through this authorization. */
  predicate Gained(m: Mark, auth: Authorization) {
    && m.uid == auth.newUid
    && m.transfer == Some(Transfer(auth.digest, auth.oldUid, auth.oldGen, auth.newUid, auth.newGen))
  }

  function TransferOwnership(auth: Authorization, snap: Snapshot, env: Env, stored: Option<Mark>): seq<Effect>
    requires WellFormedDisk(stored)
  {
    match PlanTransfer(auth, snap, env, stored)
    case NoTransfer => []
    case Retry(m) => CommitThen(m, true, env.persist, Transferred(auth.newUid, auth.digest, m.preserve))
    case Move(m) => CommitThen(m, true, env.persist, Transferred(auth.newUid, auth.digest, m.preserve))
  }

  // ------------------------------------------------------ filesystem operation

  /** One write of the mark by a filesystem mutation; only the publication state in `fs` differs. */
  datatype FsWrite = FsWrite(fs: FsState, io: WriteIo)

  /** A mutation never changes what was adopted. */
  function KeepSource(was: FsState, now: FsState): FsState {
    now.(adoption := was.adoption, volumeId := was.volumeId, capacity := was.capacity, layout := was.layout)
  }

  /** The mutation stops at its first failed write. */
  function FsWrites(next: Mark, writes: seq<FsWrite>): seq<Effect>
    decreases |writes|
  {
    if writes == [] then []
    else
      WriteMark(next.(fs := KeepSource(next.fs, writes[0].fs)), writes[0].io) +
      if writes[0].io.Durable? then FsWrites(next, writes[1..]) else []
  }

  function FsOperation(token: Token, r: FsAdmission.FsRequest, writes: seq<FsWrite>, env: Env, stored: Option<Mark>)
    : seq<Effect>
    requires WellFormedDisk(stored) && !r.op.Destroy?
  {
    var adm := Admit(token, r.op, stored);
    if !env.readOk || adm.Rejected? || FsAdmission.State(r, token, stored) != FsAdmission.Proceed then []
    else if !FsAdmission.CapacityAgrees(r, token, stored) || !env.guardOk then []
    else
      var next := FsAdmission.Claim(r, adm.next);
      if r.importing then (if env.mutateOk then WriteMark(next, env.final) else [])
      else
        var sameSource := stored.Some? && stored.value.fs.adoption == next.fs.adoption;
        var kind := if r.op.Grant? then FsPublish else FsWithdraw;
        Persist(next, adm.changed || !sameSource, env.persist) +
        if env.persist.Durable? then [Mutate(EntryOf(token, kind, env))] + FsWrites(next, writes) else []
  }

  // ----------------------------------------------------------------- requests

  datatype Request =
    | DoFenced(token: Token, kind: Kind, dataset: bool)
    | DoImport(token: Token, src: Option<Lv>, preserve: bool)
    | DoRetire(token: Token, unexported: bool)
    | DoRecheck(token: Token)
    | DoTransfer(auth: Authorization, snap: Snapshot)
    | DoFs(token: Token, fs: FsAdmission.FsRequest, writes: seq<FsWrite>)

  predicate ValidRequest(r: Request) {
    r.DoFs? ==> !r.fs.op.Destroy?
  }

  function Program(r: Request, env: Env, stored: Option<Mark>): seq<Effect>
    requires WellFormedDisk(stored) && ValidRequest(r)
  {
    match r
    case DoFenced(token, kind, dataset) => Fenced(token, kind, dataset, env, stored)
    case DoImport(token, src, preserve) => Import(token, src, preserve, env, stored)
    case DoRetire(token, unexported) => RetireLifecycle(token, unexported, env, stored)
    case DoRecheck(token) => Recheck(token, env, stored)
    case DoTransfer(auth, snap) => TransferOwnership(auth, snap, env, stored)
    case DoFs(token, fs, writes) => FsOperation(token, fs, writes, env, stored)
  }
}
