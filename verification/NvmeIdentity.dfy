/**
 The host-visible identity of an NVMe export.  It is derived from the volume
 ID unless live kernel objects hold another one; an identity that cannot be
 derived again is recorded per lifecycle.
 */
module NvmeIdentity {
  import opened Marks

  datatype Identity = Identity(uuid: string, nguid: string, serial: string)

  const EMPTY := Identity("", "", "")

  datatype Record = Record(uid: Uid, identity: Identity)

  predicate HexDigit(c: char) {
    '0' <= c <= '9' || 'a' <= c <= 'f'
  }

  /** Canonical lower-case 8-4-4-4-12 form. */
  predicate CanonicalUuid(s: string) {
    && |s| == 36
    && forall i | 0 <= i < 36 :: if i in {8, 13, 18, 23} then s[i] == '-' else HexDigit(s[i])
  }

  predicate Valid(id: Identity) {
    && CanonicalUuid(id.uuid) && CanonicalUuid(id.nguid)
    && 1 <= |id.serial| <= 20
    && forall i | 0 <= i < |id.serial| :: ' ' < id.serial[i] <= '~'
  }

  function Prefer(live: string, wanted: string): string {
    if live != "" then live else wanted
  }

  /** An identifier already held by a live kernel object is never replaced. */
  function Overlay(wanted: Identity, live: Identity): Identity {
    Identity(Prefer(live.uuid, wanted.uuid), Prefer(live.nguid, wanted.nguid), Prefer(live.serial, wanted.serial))
  }

  /** `id` agrees with every identifier the kernel already shows. */
  predicate Agrees(live: Identity, id: Identity) {
    && (live.uuid != "" ==> id.uuid == live.uuid)
    && (live.nguid != "" ==> id.nguid == live.nguid)
    && (live.serial != "" ==> id.serial == live.serial)
  }

  /** What the stored record, or its absence, asks for in lifecycle `uid`. */
  function Remembered(derived: Identity, record: Option<Record>, uid: Uid): Identity {
    if record.Some? && record.value.uid == uid then record.value.identity else derived
  }

  /** An identifier the kernel holds stays; one it does not hold is the kept one. */
  predicate Keeps(live: string, kept: string, got: string) {
    got == if live != "" then live else kept
  }

  predicate KeepsAll(live: Identity, kept: Identity, got: Identity) {
    && Keeps(live.uuid, kept.uuid, got.uuid) && Keeps(live.nguid, kept.nguid, got.nguid)
    && Keeps(live.serial, kept.serial, got.serial)
  }

  /** The record counts for its own lifecycle only; another one's, or none, leaves the derived identity. */
  lemma ResolutionIs(derived: Identity, record: Option<Record>, uid: Uid, live: Identity)
    ensures var got := Overlay(Remembered(derived, record, uid), live);
            if record.Some? && record.value.uid == uid then KeepsAll(live, record.value.identity, got)
            else KeepsAll(live, derived, got)
  {
  }

  class Export {
    const derived: Identity
    var record: Option<Record>
    var live: Identity          // empty fields are not fixed by the kernel

    constructor (derived: Identity)
      ensures this.derived == derived && record == None && live == EMPTY
    {
      this.derived, record, live := derived, None, EMPTY;
    }

    /** Some(id): the export must be applied with id, and can be recreated with it.
        `readOk` and `writeOk` are the outcomes of reading live state and of the record write. */
    method Resolve(uid: Uid, readOk: bool, writeOk: bool) returns (r: Option<Identity>)
      modifies this`record
      ensures r.Some? ==>
                && Valid(r.value)
                && Agrees(live, r.value)
                && r.value == Overlay(Remembered(derived, old(record), uid), live)
                && (record.Some? <==> r.value != derived)
                && (record.Some? ==> record.value == Record(uid, r.value))
                && Remembered(derived, record, uid) == r.value
                && State(record, live, [r.value]) == Step(derived, uid, State(old(record), live, []), Resolved)
      ensures r.Some? ==>
                if old(record).Some? && old(record).value.uid == uid
                then KeepsAll(live, old(record).value.identity, r.value) else KeepsAll(live, derived, r.value)
      ensures readOk && writeOk ==> (r.Some? <==> Valid(Overlay(Remembered(derived, old(record), uid), live)))
      ensures r.Some? ==> readOk && (!writeOk ==> record == old(record))
      ensures r.None? ==> record == old(record)
    {
      if !readOk { return None; }
      var want := Overlay(Remembered(derived, record, uid), live);
      if !Valid(want) { return None; }
      if want == derived && record.Some? {
        if !writeOk { return None; }
        record := None;
      } else if want != derived && record != Some(Record(uid, want)) {
        if !writeOk { return None; }
        record := Some(Record(uid, want));
      }
      return Some(want);
    }
  }

  // ------------------------------------------------- one lifecycle, many losses

  datatype State = State(record: Option<Record>, live: Identity, results: seq<Identity>)

  datatype Event =
    | Resolved                      // a successful resolve
    | Applied                       // the last resolved identity written to configfs
    | LostNamespace                 // namespace gone or disabled, subsystem kept
    | LostAll                       // reboot or target reload

  function ResolveResult(derived: Identity, s: State, uid: Uid): Identity {
    Overlay(Remembered(derived, s.record, uid), s.live)
  }

  function Step(derived: Identity, uid: Uid, s: State, e: Event): State {
    match e
    case Resolved =>
      var want := ResolveResult(derived, s, uid);
      State(if want == derived then None else Some(Record(uid, want)), s.live, s.results + [want])
    case Applied => if s.results == [] then s else s.(live := s.results[|s.results| - 1])
    case LostNamespace => s.(live := EMPTY.(serial := s.live.serial))
    case LostAll => s.(live := EMPTY)
  }

  function Run(derived: Identity, uid: Uid, s: State, events: seq<Event>): State
    decreases |events|
  {
    if events == [] then s else Run(derived, uid, Step(derived, uid, s, events[0]), events[1..])
  }

  /** Identity `id` is what every resolve of the lifecycle must return. */
  predicate Settled(derived: Identity, uid: Uid, s: State, id: Identity) {
    && Remembered(derived, s.record, uid) == id
    && Agrees(s.live, id)
    && forall i | 0 <= i < |s.results| :: s.results[i] == id
  }

  lemma {:induction false} SettledStays(derived: Identity, uid: Uid, s: State, id: Identity, events: seq<Event>)
    requires Settled(derived, uid, s, id)
    ensures Settled(derived, uid, Run(derived, uid, s, events), id)
    decreases |events|
  {
    if events != [] {
      SettledStays(derived, uid, Step(derived, uid, s, events[0]), id, events[1..]);
    }
  }

  /** Once resolved, the lifecycle's identity survives any sequence of applies and losses. */
  lemma IdentityIsStable(derived: Identity, uid: Uid, record: Option<Record>, live: Identity, events: seq<Event>)
    ensures var first := Step(derived, uid, State(record, live, []), Resolved);
            var last := Run(derived, uid, first, events);
            && Agrees(live, first.results[0])
            && (forall i | 0 <= i < |last.results| :: last.results[i] == first.results[0])
            && (last.record.Some? <==> first.results[0] != derived)
            && (events != [] && events[|events| - 1].Applied? ==> last.live == first.results[0])
  {
    var first := Step(derived, uid, State(record, live, []), Resolved);
    SettledStays(derived, uid, first, first.results[0], events);
    RecordMeansUnderivable(derived, uid, first, events);
    if events != [] && events[|events| - 1].Applied? { LastEventCounts(derived, uid, first, events); }
  }

  /** An apply leaves live what was resolved last. */
  lemma {:induction false} LastEventCounts(derived: Identity, uid: Uid, s: State, events: seq<Event>)
    requires s.results != [] && events != [] && events[|events| - 1].Applied?
    ensures var last := Run(derived, uid, s, events);
            last.results != [] && last.live == last.results[|last.results| - 1]
    decreases |events|
  {
    var next := Step(derived, uid, s, events[0]);
    if |events| > 1 {
      LastEventCounts(derived, uid, next, events[1..]);
    } else {
      assert Run(derived, uid, s, events) == next;
    }
  }

  predicate RecordFits(derived: Identity, uid: Uid, s: State) {
    s.record.None? || (s.record.value.uid == uid && s.record.value.identity != derived)
  }

  lemma {:induction false} RecordMeansUnderivable(derived: Identity, uid: Uid, s: State, events: seq<Event>)
    requires RecordFits(derived, uid, s)
    ensures RecordFits(derived, uid, Run(derived, uid, s, events))
    decreases |events|
  {
    if events != [] {
      RecordMeansUnderivable(derived, uid, Step(derived, uid, s, events[0]), events[1..]);
    }
  }
}
