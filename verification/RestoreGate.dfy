/**
 Block exports become reachable in two phases per batch, and while the export
 restore is pending only a complete ReconcileState may make any reachable.
 */
module RestoreGate {

  // ------------------------------------------------------- one handler batch

  datatype Act = Prepare(entry: nat) | Link(entry: nat)

  /** The indices below n that satisfy ok, in request order. */
  function Picked(ok: seq<bool>, n: nat): seq<nat>
    requires n <= |ok|
  {
    if n == 0 then [] else Picked(ok, n - 1) + if ok[n - 1] then [n - 1] else []
  }

  lemma {:induction false} PickedAre(ok: seq<bool>, n: nat)
    requires n <= |ok|
    ensures forall i :: i in Picked(ok, n) <==> 0 <= i < n && ok[i]
    ensures forall i, j | 0 <= i < j < |Picked(ok, n)| :: Picked(ok, n)[i] < Picked(ok, n)[j]
  {
    if n > 0 {
      PickedAre(ok, n - 1);
      var before := Picked(ok, n - 1);
      assert forall i | 0 <= i < |before| :: before[i] in before;
    }
  }

  function Prepares(entries: seq<nat>): seq<Act> {
    seq(|entries|, i requires 0 <= i < |entries| => Prepare(entries[i]))
  }

  function Links(entries: seq<nat>): seq<Act> {
    seq(|entries|, i requires 0 <= i < |entries| => Link(entries[i]))
  }

  lemma PickOne(ok: seq<bool>, i: nat)
    requires i < |ok|
    ensures Prepares(Picked(ok, i + 1)) == Prepares(Picked(ok, i)) + if ok[i] then [Prepare(i)] else []
    ensures Links(Picked(ok, i + 1)) == Links(Picked(ok, i)) + if ok[i] then [Link(i)] else []
  {
  }

  function And(a: seq<bool>, b: seq<bool>): seq<bool>
    requires |a| == |b|
  {
    seq(|a|, i requires 0 <= i < |a| => a[i] && b[i])
  }

  /**
   The desired exports of one protocol with the outcomes of building each
   target, of its fenced prepare and of its rechecked link.
   */
  datatype Batch = Batch(targetOk: seq<bool>, prepareOk: seq<bool>, linkOk: seq<bool>)

  predicate ValidBatch(b: Batch) {
    |b.targetOk| == |b.prepareOk| == |b.linkOk|
  }

  /** The entries whose link is attempted. */
  function Ready(b: Batch): seq<nat>
    requires ValidBatch(b)
  {
    Picked(And(b.targetOk, b.prepareOk), |b.targetOk|)
  }

  /** What the handler does: prepare what has a target, then link what was prepared. */
  function Trace(b: Batch): seq<Act>
    requires ValidBatch(b)
  {
    Prepares(Picked(b.targetOk, |b.targetOk|)) + Links(Ready(b))
  }

  /** Reconcile of one protocol. */
  method Reconcile(b: Batch) returns (oks: seq<bool>, trace: seq<Act>)
    requires ValidBatch(b)
    ensures trace == Trace(b) && oks == And(And(b.targetOk, b.prepareOk), b.linkOk)
  {
    var n := |b.targetOk|;
    var ready := b.targetOk;
    trace := [];
    for i := 0 to n
      invariant |ready| == n
      invariant forall k | 0 <= k < i :: ready[k] == (b.targetOk[k] && b.prepareOk[k])
      invariant forall k | i <= k < n :: ready[k] == b.targetOk[k]
      invariant trace == Prepares(Picked(b.targetOk, i))
    {
      PickOne(b.targetOk, i);
      if ready[i] {
        trace := trace + [Prepare(i)];
        ready := ready[i := b.prepareOk[i]];
      }
    }
    assert ready == And(b.targetOk, b.prepareOk);
    var linked;
    oks, linked := LinkPhase(ready, b.linkOk);
    trace := trace + linked;
  }

  method LinkPhase(ready: seq<bool>, linkOk: seq<bool>) returns (oks: seq<bool>, trace: seq<Act>)
    requires |ready| == |linkOk|
    ensures trace == Links(Picked(ready, |ready|)) && oks == And(ready, linkOk)
  {
    oks, trace := ready, [];
    for i := 0 to |ready|
      invariant |oks| == |ready|
      invariant forall k | 0 <= k < i :: oks[k] == (ready[k] && linkOk[k])
      invariant forall k | i <= k < |ready| :: oks[k] == ready[k]
      invariant trace == Links(Picked(ready, i))
    {
      PickOne(ready, i);
      if oks[i] {
        trace := trace + [Link(i)];
        oks := oks[i := linkOk[i]];
      }
    }
    assert oks == And(ready, linkOk);
  }

  /** An entry is prepared exactly when its target was built, and linked exactly when that prepare succeeded. */
  lemma ActsAre(b: Batch, e: nat)
    requires ValidBatch(b)
    ensures Prepare(e) in Trace(b) <==> e < |b.targetOk| && b.targetOk[e]
    ensures Link(e) in Trace(b) <==> e < |b.targetOk| && b.targetOk[e] && b.prepareOk[e]
  {
    PickedAre(b.targetOk, |b.targetOk|);
    PickedAre(And(b.targetOk, b.prepareOk), |b.targetOk|);
    TraceHas(Picked(b.targetOk, |b.targetOk|), Ready(b), e);
  }

  lemma TraceHas(prepared: seq<nat>, ready: seq<nat>, e: nat)
    ensures Prepare(e) in Prepares(prepared) + Links(ready) <==> e in prepared
    ensures Link(e) in Prepares(prepared) + Links(ready) <==> e in ready
  {
    if e in prepared {
      var i :| 0 <= i < |prepared| && prepared[i] == e;
      assert Prepares(prepared)[i] == Prepare(e);
    }
    if e in ready {
      var i :| 0 <= i < |ready| && ready[i] == e;
      assert Links(ready)[i] == Link(e);
    }
  }

  /** No act is repeated. */
  lemma ActsAreDistinct(b: Batch, i: nat, j: nat)
    requires ValidBatch(b) && i < j < |Trace(b)|
    ensures Trace(b)[i] != Trace(b)[j]
  {
    PickedAre(b.targetOk, |b.targetOk|);
    PickedAre(And(b.targetOk, b.prepareOk), |b.targetOk|);
  }

  /** When an entry is linked, its own prepare succeeded and the prepare of every entry was attempted. */
  predicate AllPrepared(b: Batch, k: nat)
    requires ValidBatch(b) && k < |Trace(b)|
  {
    var act := Trace(b)[k];
    && act.Link? && act.entry < |b.targetOk| && b.targetOk[act.entry] && b.prepareOk[act.entry]
    && forall e | 0 <= e < |b.targetOk| && b.targetOk[e] :: Prepare(e) in Trace(b)[..k]
  }

  lemma LinksComeLast(b: Batch, k: nat)
    requires ValidBatch(b) && k < |Trace(b)| && Trace(b)[k].Link?
    ensures AllPrepared(b, k)
  {
    var n := |b.targetOk|;
    PickedAre(b.targetOk, n);
    PickedAre(And(b.targetOk, b.prepareOk), n);
    var prepared := Picked(b.targetOk, n);
    assert Trace(b)[k].entry == Ready(b)[k - |prepared|];
    assert Trace(b)[k].entry in Ready(b);
    forall e | 0 <= e < n && b.targetOk[e]
      ensures Prepare(e) in Trace(b)[..k]
    {
      assert e in prepared;
      var i :| 0 <= i < |prepared| && prepared[i] == e;
      assert Trace(b)[..k][i] == Prepare(e);
    }
  }

  // ------------------------------------------------------------------ the gate

  /** A reconcile works through one batch per protocol, act by act. */
  datatype Rpc =
    | Single                                // ExportVolume, AllowInitiator, SetLocalAttach before its check
    | SinglePassed
    | Reconciling(complete: bool, batches: seq<Batch>, at: nat, done: nat)
    | Over

  /** Who linked a target, and whether the restore was still pending. */
  datatype LinkEvent = LinkEvent(linker: Rpc, pending: bool)

  datatype World = World(pending: bool, rpcs: map<nat, Rpc>, links: seq<LinkEvent>)

  datatype Step =
    | Arrive(id: nat)
    | CheckGate(id: nat)
    | LinkSingle(id: nat)
    | ArriveReconcile(id: nat, complete: bool, batches: seq<Batch>)
    | NextAct(id: nat)
    | NextBatch(id: nat)
    | FinishReconcile(id: nat)
    | Restart                               // the process starts again, gated

  predicate ValidRpc(r: Rpc) {
    r.Reconciling? ==> forall i | 0 <= i < |r.batches| :: ValidBatch(r.batches[i])
  }

  predicate InBatch(r: Rpc) {
    r.Reconciling? && r.at < |r.batches| && ValidBatch(r.batches[r.at]) && r.done <= |Trace(r.batches[r.at])|
  }

  predicate HasAct(r: Rpc) {
    InBatch(r) && r.done < |Trace(r.batches[r.at])|
  }

  function ActOf(r: Rpc): Act
    requires HasAct(r)
  {
    Trace(r.batches[r.at])[r.done]
  }

  predicate Enabled(w: World, s: Step) {
    match s
    case Arrive(id) => id !in w.rpcs
    case CheckGate(id) => id in w.rpcs && w.rpcs[id].Single?
    case LinkSingle(id) => id in w.rpcs && w.rpcs[id].SinglePassed?
    case ArriveReconcile(id, complete, batches) => id !in w.rpcs && ValidRpc(Reconciling(complete, batches, 0, 0))
    case NextAct(id) => id in w.rpcs && HasAct(w.rpcs[id])
    case NextBatch(id) => id in w.rpcs && InBatch(w.rpcs[id]) && !HasAct(w.rpcs[id])
    case FinishReconcile(id) => id in w.rpcs && w.rpcs[id].Reconciling? && w.rpcs[id].at == |w.rpcs[id].batches|
    case Restart => true
  }

  /** A complete request ends the restore whether or not its entries succeeded. */
  function Next(w: World, s: Step): World
    requires Enabled(w, s)
  {
    match s
    case Arrive(id) => w.(rpcs := w.rpcs[id := Single])
    case CheckGate(id) => w.(rpcs := w.rpcs[id := if w.pending then Over else SinglePassed])
    case LinkSingle(id) => w.(rpcs := w.rpcs[id := Over], links := w.links + [LinkEvent(w.rpcs[id], w.pending)])
    case ArriveReconcile(id, complete, batches) =>
      w.(rpcs := w.rpcs[id := if !complete && w.pending then Over else Reconciling(complete, batches, 0, 0)])
    case NextAct(id) =>
      var r := w.rpcs[id];
      w.(rpcs := w.rpcs[id := r.(done := r.done + 1)],
         links := if ActOf(r).Link? then w.links + [LinkEvent(r, w.pending)] else w.links)
    case NextBatch(id) => w.(rpcs := w.rpcs[id := w.rpcs[id].(at := w.rpcs[id].at + 1, done := 0)])
    case FinishReconcile(id) => w.(rpcs := w.rpcs[id := Over], pending := w.pending && !w.rpcs[id].complete)
    case Restart => w.(pending := true, rpcs := map[])
  }

  predicate IsRun(w: World, steps: seq<Step>)
    decreases |steps|
  {
    steps == [] || (Enabled(w, steps[0]) && IsRun(Next(w, steps[0]), steps[1..]))
  }

  function End(w: World, steps: seq<Step>): World
    requires IsRun(w, steps)
    decreases |steps|
  {
    if steps == [] then w else End(Next(w, steps[0]), steps[1..])
  }

  const STARTED := World(true, map[], [])

  /** A link in the link phase of its batch: every entry was prepared, this one with success. */
  predicate BatchLink(r: Rpc) {
    HasAct(r) && AllPrepared(r.batches[r.at], r.done)
  }

  predicate LinkOk(e: LinkEvent) {
    && (e.linker.Reconciling? ==> BatchLink(e.linker))
    && (e.pending ==> e.linker.Reconciling? && e.linker.complete)
  }

  predicate Inv(w: World) {
    && (w.pending ==> forall id | id in w.rpcs ::
                        !w.rpcs[id].SinglePassed? && (w.rpcs[id].Reconciling? ==> w.rpcs[id].complete))
    && (forall i | 0 <= i < |w.links| :: LinkOk(w.links[i]))
  }

  lemma StepKeepsInv(w: World, s: Step)
    requires Inv(w) && Enabled(w, s)
    ensures Inv(Next(w, s))
  {
    if s.NextAct? {
      var r := w.rpcs[s.id];
      if ActOf(r).Link? { LinksComeLast(r.batches[r.at], r.done); }
    }
  }

  lemma {:induction false} RunKeepsInv(w: World, steps: seq<Step>)
    requires Inv(w) && IsRun(w, steps)
    ensures Inv(End(w, steps))
    decreases |steps|
  {
    if steps != [] {
      StepKeepsInv(w, steps[0]);
      RunKeepsInv(Next(w, steps[0]), steps[1..]);
    }
  }

  /**
   While the restore is pending, a target is linked only by a complete request;
   and whenever a reconcile links, every entry of the batch was prepared before.
   */
  lemma OnlyACompleteRequestLinksWhilePending(steps: seq<Step>, i: nat)
    requires IsRun(STARTED, steps) && i < |End(STARTED, steps).links|
    ensures var e := End(STARTED, steps).links[i];
            && (e.pending ==> e.linker.Reconciling? && e.linker.complete)
            && (e.linker.Reconciling? ==> BatchLink(e.linker))
  {
    RunKeepsInv(STARTED, steps);
  }

  // -------------------------------------------- the gate opens despite failures

  function LinksOf(batches: seq<Batch>, at: nat): nat
    requires at <= |batches| && forall i | 0 <= i < |batches| :: ValidBatch(batches[i])
    decreases |batches| - at
  {
    if at == |batches| then 0 else |Ready(batches[at])| + LinksOf(batches, at + 1)
  }

  /** The links a reconcile still has to make. */
  function ToLink(r: Rpc): nat
    requires InBatch(r) && ValidRpc(r)
  {
    |Trace(r.batches[r.at])| - Max(r.done, |Trace(r.batches[r.at])| - |Ready(r.batches[r.at])|) +
    LinksOf(r.batches, r.at + 1)
  }

  function Max(a: nat, b: nat): nat {
    if a < b then b else a
  }

  lemma {:induction false} FinishesAlone(w: World, id: nat) returns (steps: seq<Step>)
    requires id in w.rpcs && w.rpcs[id].Reconciling? && w.rpcs[id].complete && ValidRpc(w.rpcs[id])
    requires w.rpcs[id].at <= |w.rpcs[id].batches| && (w.rpcs[id].at < |w.rpcs[id].batches| ==> InBatch(w.rpcs[id]))
    ensures IsRun(w, steps) && !End(w, steps).pending
    ensures |End(w, steps).links| ==
            |w.links| + if w.rpcs[id].at < |w.rpcs[id].batches| then ToLink(w.rpcs[id]) else 0
    decreases |w.rpcs[id].batches| - w.rpcs[id].at,
              if InBatch(w.rpcs[id]) then |Trace(w.rpcs[id].batches[w.rpcs[id].at])| - w.rpcs[id].done else 0
  {
    var r := w.rpcs[id];
    var s := if r.at == |r.batches| then FinishReconcile(id) else if HasAct(r) then NextAct(id) else NextBatch(id);
    var rest := [];
    if r.at < |r.batches| { rest := FinishesAlone(Next(w, s), id); }
    steps := [s] + rest;
    assert steps[1..] == rest;
  }

  /** Whatever entries fail, a complete request attempts all its links and opens the gate. */
  lemma CompleteRequestOpensTheGate(id: nat, batches: seq<Batch>) returns (steps: seq<Step>)
    requires forall i | 0 <= i < |batches| :: ValidBatch(batches[i])
    ensures IsRun(STARTED, steps) && !End(STARTED, steps).pending
    ensures |End(STARTED, steps).links| == LinksOf(batches, 0)
  {
    var s := ArriveReconcile(id, true, batches);
    var rest := FinishesAlone(Next(STARTED, s), id);
    steps := [s] + rest;
    assert steps[1..] == rest;
  }

  /** A single export that arrives is linked if and only if the restore is over. */
  lemma SinglesLinkIffOpen(w: World, id: nat)
    requires id !in w.rpcs
    ensures var checked := Next(Next(w, Arrive(id)), CheckGate(id));
            && (Enabled(checked, LinkSingle(id)) <==> !w.pending) && checked.links == w.links
            && (!w.pending ==> |Next(checked, LinkSingle(id)).links| == |w.links| + 1)
  {
    assert Next(w, Arrive(id)).rpcs[id] == Single;
  }

  /** No complete request finishes on the way. */
  predicate NoCompletion(w: World, steps: seq<Step>)
    requires IsRun(w, steps)
    decreases |steps|
  {
    steps != [] ==>
      && !(steps[0].FinishReconcile? && w.rpcs[steps[0].id].complete)
      && NoCompletion(Next(w, steps[0]), steps[1..])
  }

  lemma {:induction false} PendingStays(w: World, steps: seq<Step>, n: nat)
    requires IsRun(w, steps) && NoCompletion(w, steps) && w.pending && Inv(w) && n <= |w.links|
    requires forall i | n <= i < |w.links| :: w.links[i].pending
    ensures End(w, steps).pending && Inv(End(w, steps)) && n <= |End(w, steps).links|
    ensures forall i | n <= i < |End(w, steps).links| :: End(w, steps).links[i].pending
    decreases |steps|
  {
    if steps != [] {
      StepKeepsInv(w, steps[0]);
      PendingStays(Next(w, steps[0]), steps[1..], n);
    }
  }

  /** After every restart, until a complete request has finished, each link belongs to a complete request. */
  lemma RestartGatesAgain(steps: seq<Step>, more: seq<Step>, i: nat)
    requires IsRun(STARTED, steps) && IsRun(Next(End(STARTED, steps), Restart), more)
    requires NoCompletion(Next(End(STARTED, steps), Restart), more)
    requires |End(STARTED, steps).links| <= i < |End(Next(End(STARTED, steps), Restart), more).links|
    ensures var e := End(Next(End(STARTED, steps), Restart), more).links[i];
            e.linker.Reconciling? && e.linker.complete && BatchLink(e.linker)
  {
    RunKeepsInv(STARTED, steps);
    var w := Next(End(STARTED, steps), Restart);
    PendingStays(w, more, |w.links|);
  }
}
