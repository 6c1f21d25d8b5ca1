/**
 The durable per-volume fencing mark and the pure decisions taken on it: which
 token is admitted, what an import pins, what a retirement writes and what a
 recovery transfer commits.
 */
module Marks {

  datatype Option<+T> = None | Some(value: T)

  /** Lifecycle identity; the empty string means that a request carried none. */
  type Uid = string

  datatype Token = Token(uid: Uid, gen: nat)

  /** Identity of one logical volume. */
  datatype Lv = Lv(vg: string, name: string, vgUuid: string, lvUuid: string)

  /** Record of the recovery transfer that made the mark's lifecycle the owner. */
  datatype Transfer = Transfer(digest: string, fromUid: Uid, fromGen: nat, toUid: Uid, toGen: nat)

  /** The adopted-filesystem fields of a mark. */
  datatype FsState = FsState(
    adoption: Option<string>, volumeId: string, capacity: int, layout: Option<string>,
    localAttached: bool, clients: seq<string>, open: bool, exported: bool, proxyClaimed: bool)

  const NO_FS := FsState(None, "", 0, None, false, [], false, false, false)

  datatype Mark = Mark(
    uid: Uid, gen: nat, ended: bool, retired: seq<Uid>,
    source: Option<Lv>, preserve: bool, transfer: Option<Transfer>,
    legacyRevokeOnly: bool, fs: FsState)

  /** What every mark on disk satisfies. */
  predicate WellFormed(m: Mark) {
    && m.uid != ""
    && NoDuplicates(m.retired)
    && (m.uid in m.retired ==> m.ended)
    && (m.preserve ==> m.source.Some?)
    && (m.transfer.Some? ==>
          && m.transfer.value.toUid == m.uid
          && m.transfer.value.fromUid in m.retired
          && m.transfer.value.toGen <= m.gen)
  }

  predicate NoDuplicates(s: seq<Uid>) {
    forall i, j | 0 <= i < j < |s| :: s[i] != s[j]
  }

  predicate WellFormedDisk(m: Option<Mark>) {
    m.Some? ==> WellFormed(m.value)
  }

  /**
   The order in which marks may follow each other on disk.  Ownership moves
   forward only: a lifecycle that lost the mark is retired and never returns,
   and the retired list, the pinned source and the preserve policy only grow.
   An open lifecycle that was ever more than revoke-only stays so.
   */
  predicate Extends(a: Option<Mark>, b: Option<Mark>) {
    a.Some? ==>
      && b.Some?
      && a.value.retired <= b.value.retired
      && (a.value.source.Some? ==> b.value.source == a.value.source)
      && (a.value.preserve ==> b.value.preserve)
      && (if a.value.uid == b.value.uid then
            && a.value.gen <= b.value.gen
            && (a.value.ended ==> b.value.ended)
            && a.value.transfer == b.value.transfer
            && (!b.value.ended && b.value.legacyRevokeOnly ==> a.value.legacyRevokeOnly)
          else
            && a.value.uid in b.value.retired
            && b.value.uid !in a.value.retired)
  }

  lemma ExtendsTransitive(a: Option<Mark>, b: Option<Mark>, c: Option<Mark>)
    requires Extends(a, b) && Extends(b, c)
    ensures Extends(a, c)
  {
  }

  /** Between two marks of one lifecycle lie only marks of that lifecycle. */
  lemma OwnershipIsConvex(a: Option<Mark>, b: Option<Mark>, c: Option<Mark>)
    requires Extends(a, b) && Extends(b, c)
    requires a.Some? && c.Some? && a.value.uid == c.value.uid
    ensures b.value.uid == a.value.uid && a.value.gen <= b.value.gen <= c.value.gen
  {
  }

  // ---------------------------------------------------------------- admission

  /** Grant creates or extends access, Revoke removes it, Destroy deletes the volume. */
  datatype Op = Grant | Revoke | Destroy

  datatype Decision = NewLifecycle | TerminalRetry | SameGeneration | Advance
  datatype Refusal = MissingToken | RetiredUid | OtherOwner | AlreadyEnded | Superseded

  datatype Admission =
    | Admitted(next: Mark, changed: bool, decision: Decision)
    | Rejected(reason: Refusal)

  function AddRetired(retired: seq<Uid>, uid: Uid): (r: seq<Uid>)
    ensures retired <= r && uid in r
    ensures forall u :: u in r <==> u in retired || u == uid
    ensures NoDuplicates(retired) ==> NoDuplicates(r)
  {
    if uid in retired then retired else retired + [uid]
  }

  function FreshMark(token: Token): Mark {
    Mark(token.uid, token.gen, false, [], None, false, None, false, NO_FS)
  }

  function Admit(token: Token, op: Op, stored: Option<Mark>): (r: Admission)
    requires WellFormedDisk(stored)
    ensures r.Admitted? ==>
              && WellFormed(r.next)
              && r.next.uid == token.uid && r.next.gen == token.gen
              && token.uid !in r.next.retired
              && Extends(stored, Some(r.next))
              && (op == Grant ==> !r.next.ended)
              && (!r.changed <==> stored == Some(r.next))
              && (r.decision == TerminalRetry <==> r.next.ended)
  {
    if token.uid == "" then Rejected(MissingToken)
    else if stored.None? then Admitted(FreshMark(token), true, NewLifecycle)
    else
      var m := stored.value;
      if token.uid in m.retired then Rejected(RetiredUid)
      else if token.uid != m.uid then
        if !m.ended then Rejected(OtherOwner)
        else Admitted(FreshMark(token).(retired := AddRetired(m.retired, m.uid), source := m.source, preserve := m.preserve),
                      true, NewLifecycle)
      else if m.ended then
        if op == Grant || token.gen != m.gen then Rejected(AlreadyEnded)
        else Admitted(m, false, TerminalRetry)
      else if token.gen < m.gen then Rejected(Superseded)
      else if token.gen == m.gen then Admitted(m, false, SameGeneration)
      else Admitted(m.(gen := token.gen), true, Advance)
  }

  /** The wire contract of a fencing token, as the list of reasons to refuse it. */
  predicate TokenContractRefuses(token: Token, op: Op, stored: Option<Mark>) {
    || token.uid == ""
    || (stored.Some? && token.uid in stored.value.retired)
    || (stored.Some? && token.uid == stored.value.uid && token.gen < stored.value.gen)
    || (stored.Some? && token.uid == stored.value.uid && stored.value.ended &&
        (op == Grant || token.gen != stored.value.gen))
    || (stored.Some? && token.uid != stored.value.uid && !stored.value.ended)
  }

  lemma AdmissionIsTheTokenContract(token: Token, op: Op, stored: Option<Mark>)
    requires WellFormedDisk(stored)
    ensures Admit(token, op, stored).Rejected? <==> TokenContractRefuses(token, op, stored)
  {
  }

  /** Everything an admission leaves as it was, and what a new lifecycle starts with. */
  lemma AdmissionChangesOnly(token: Token, op: Op, stored: Option<Mark>)
    requires WellFormedDisk(stored) && Admit(token, op, stored).Admitted?
    ensures var next := Admit(token, op, stored).next;
            if stored.Some? && stored.value.uid == token.uid then next == stored.value.(gen := token.gen)
            else
              && !next.ended && next.transfer.None? && !next.legacyRevokeOnly && next.fs == NO_FS
              && next.source == (if stored.Some? then stored.value.source else None)
              && next.preserve == (stored.Some? && stored.value.preserve)
              && (forall u :: u in next.retired <==>
                              stored.Some? && (u == stored.value.uid || u in stored.value.retired))
  {
  }

  /** A mark reached at or after token's lifecycle and generation. */
  predicate Dominates(m: Option<Mark>, token: Token) {
    && m.Some?
    && if m.value.uid == token.uid then m.value.gen >= token.gen else token.uid in m.value.retired
  }

  /** A mark that dominates a token refuses every older token of its lifecycle. */
  lemma DominatedTokensStayOut(m: Option<Mark>, seen: Token, stale: Token, op: Op)
    requires WellFormedDisk(m) && Dominates(m, seen)
    requires stale.uid == seen.uid && stale.gen < seen.gen
    ensures Admit(stale, op, m).Rejected?
  {
  }

  // ------------------------------------------------------------------ imports

  /** Sticky pin rules of an import; None is a refusal. */
  function PinImport(next: Mark, stored: Option<Mark>, src: Option<Lv>, preserve: bool): (r: Option<Mark>)
    requires WellFormed(next) && WellFormedDisk(stored) && Extends(stored, Some(next))
    requires stored.None? ==> next.source.None? && !next.preserve
    requires stored.Some? ==> next.source == stored.value.source && next.preserve == stored.value.preserve
    ensures r.Some? ==>
              && WellFormed(r.value)
              && Extends(stored, r)
              && r.value == next.(source := r.value.source, preserve := r.value.preserve)
              && r.value.source == src
              && (r.value.preserve <==> (stored.Some? && stored.value.preserve) || (src.Some? && preserve))
    ensures r.None? <==>
            stored.Some? && stored.value.source.Some? &&
            (stored.value.source != src || (stored.value.preserve && !preserve))
  {
    var pinned := if stored.Some? then stored.value.source else None;
    var kept := stored.Some? && stored.value.preserve;
    if pinned.Some? && pinned != src then None
    else if pinned.Some? && kept && !preserve then None
    else Some(next.(source := if pinned.Some? then pinned else src, preserve := kept || (src.Some? && preserve)))
  }

  /** The fields fencedImport compares to decide between a rewrite and a re-sync. */
  predicate EqualMarks(a: Mark, b: Mark) {
    && a.uid == b.uid && a.gen == b.gen && a.ended == b.ended && a.retired == b.retired
    && a.source == b.source && a.preserve == b.preserve && a.transfer == b.transfer
  }

  /** Comparing seven fields suffices: an import never changes the others alone. */
  lemma ImportComparisonIsExact(token: Token, stored: Mark, src: Option<Lv>, preserve: bool)
    requires WellFormed(stored)
    requires Admit(token, Grant, Some(stored)).Admitted?
    ensures var next := PinImport(Admit(token, Grant, Some(stored)).next, Some(stored), src, preserve);
            next.Some? ==> (EqualMarks(next.value, stored) <==> next.value == stored)
  {
  }

  /** Of other marks the seven fields do not tell everything. */
  lemma ComparisonMissesFilesystems(m: Mark)
    ensures var other := m.(fs := m.fs.(exported := !m.fs.exported)); EqualMarks(m, other) && m != other
  {
    assert m.fs.exported != m.(fs := m.fs.(exported := !m.fs.exported)).fs.exported;
  }

  // -------------------------------------------------------------- retirement

  datatype Retirement =
    | NothingToDo                      // already retired
    | StillOwned                       // the owner's export has to be removed first
    | RetireWith(next: Mark, asOwner: bool)
    | RetireRefused

  function Retire(token: Token, unexported: bool, checkOk: bool, stored: Option<Mark>): (r: Retirement)
    requires WellFormedDisk(stored)
    ensures r.RetireWith? ==>
              && WellFormed(r.next)
              && token.uid in r.next.retired
              && Extends(stored, Some(r.next))
              && (r.asOwner <==> stored.Some? && stored.value.uid == token.uid)
              && (r.asOwner ==> unexported && checkOk && r.next.ended && token.gen >= stored.value.gen)
              && (stored.Some? && !r.asOwner ==>
                    r.next == stored.value.(retired := stored.value.retired + [token.uid]))
    ensures r == StillOwned ==> !unexported && stored.Some? && stored.value.uid == token.uid
    ensures r == NothingToDo <==> stored.Some? && token.uid != "" && token.uid in stored.value.retired
  {
    if token.uid == "" then RetireRefused
    else if stored.None? then RetireWith(FreshMark(token).(ended := true, retired := [token.uid]), false)
    else
      var m := stored.value;
      if token.uid in m.retired then NothingToDo
      else if token.uid != m.uid then RetireWith(m.(retired := m.retired + [token.uid]), false)
      else
        var adm := Admit(token, Revoke, stored);
        if adm.Rejected? then RetireRefused
        else if !unexported then StillOwned
        else if !checkOk then RetireRefused
        else RetireWith(adm.next.(ended := true, retired := m.retired + [token.uid]), true)
  }

  /** Does the token name the owner of the mark, in a generation that may still act for it? */
  predicate OwnerMay(token: Token, m: Mark) {
    token.uid == m.uid && (if m.ended then token.gen == m.gen else token.gen >= m.gen)
  }

  /** Which outcome a release meets, and exactly what each retirement writes. */
  lemma RetirementIs(token: Token, unexported: bool, checkOk: bool, stored: Option<Mark>)
    requires WellFormedDisk(stored) && token.uid != ""
    ensures var r := Retire(token, unexported, checkOk, stored);
            if stored.None? then r.RetireWith? && r.next == FreshMark(token).(ended := true, retired := [token.uid])
            else if token.uid in stored.value.retired then r == NothingToDo
            else if token.uid != stored.value.uid then
              r == RetireWith(stored.value.(retired := stored.value.retired + [token.uid]), false)
            else if !OwnerMay(token, stored.value) then r == RetireRefused
            else if !unexported then r == StillOwned
            else if !checkOk then r == RetireRefused
            else r == RetireWith(stored.value.(gen := token.gen, ended := true,
                                               retired := stored.value.retired + [token.uid]), true)
  {
  }

  // ---------------------------------------------------------------- transfers

  datatype Authorization = Authorization(
    digest: string, oldUid: Uid, oldGen: nat, newUid: Uid, newGen: nat,
    source: Option<Lv>, preserve: bool)

  datatype Snapshot = Snapshot(oldUid: Uid, oldGen: nat, preserve: bool)

  /** Is a request for the current owner a retry of the transfer that made it owner? */
  predicate IsCommittedRetry(tr: Option<Transfer>, auth: Authorization) {
    && tr.Some?
    && tr.value.digest == auth.digest
    && tr.value.toUid == auth.newUid && tr.value.toGen == auth.newGen
    && tr.value.fromUid == auth.oldUid && tr.value.fromGen == auth.oldGen
  }

  /** The mark a transfer commits; None is a refusal.  `stopped` is the live evidence. */
  function TransferMark(stored: Mark, auth: Authorization, snap: Snapshot, stopped: bool): (r: Option<Mark>)
    requires WellFormed(stored)
    requires auth.newUid != "" && auth.newUid != stored.uid
    ensures r.Some? ==>
              && WellFormed(r.value)
              && Extends(Some(stored), r)
              && r.value.uid == auth.newUid && r.value.gen == auth.newGen && !r.value.ended
              && r.value.uid !in r.value.retired && stored.uid in r.value.retired
              && r.value.transfer == Some(Transfer(auth.digest, auth.oldUid, auth.oldGen, auth.newUid, auth.newGen))
              && r.value.source == auth.source && auth.source.Some?
              && r.value.preserve == (stored.preserve || auth.preserve)
              && stopped && !stored.ended
  {
    if stored.ended then None
    else if stored.uid != auth.oldUid || stored.gen != auth.oldGen then None
    else if auth.newUid in stored.retired then None
    else if stored.source.None? || stored.source != auth.source then None
    else if snap.oldUid != stored.uid || snap.oldGen != stored.gen then None
    else if stored.preserve && !auth.preserve then None
    else if snap.preserve != stored.preserve then None
    else if !stopped then None
    else Some(Mark(auth.newUid, auth.newGen, false, AddRetired(stored.retired, stored.uid),
                   stored.source, stored.preserve || auth.preserve,
                   Some(Transfer(auth.digest, stored.uid, stored.gen, auth.newUid, auth.newGen)),
                   false, NO_FS))
  }

  /** The live mark, the snapshot and the authorization describe the same lifecycle, LV and policy. */
  predicate TransferAgrees(stored: Mark, auth: Authorization, snap: Snapshot) {
    && !stored.ended
    && stored.uid == auth.oldUid == snap.oldUid && stored.gen == auth.oldGen == snap.oldGen
    && auth.newUid !in stored.retired
    && stored.source.Some? && stored.source == auth.source
    && snap.preserve == stored.preserve && (stored.preserve ==> auth.preserve)
  }

  /** A transfer commits exactly when everything agrees and the old initiator is proven stopped. */
  lemma TransferCommitsIff(stored: Mark, auth: Authorization, snap: Snapshot, stopped: bool)
    requires WellFormed(stored) && auth.newUid != "" && auth.newUid != stored.uid
    ensures TransferMark(stored, auth, snap, stopped).Some? <==> TransferAgrees(stored, auth, snap) && stopped
    ensures TransferMark(stored, auth, snap, stopped).Some? ==>
              var m := TransferMark(stored, auth, snap, stopped).value;
              && m.fs == NO_FS && !m.legacyRevokeOnly
              && forall u :: u in m.retired <==> u == stored.uid || u in stored.retired
  {
  }
}
