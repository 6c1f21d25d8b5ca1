/**
 Drain against any number of concurrent RPCs: an atomic flag, a reader-writer
 gate held by every accepted handler, and a marker written under the writer.
 */
module DrainGate {

  datatype Rpc =
    | Arrived
    | PassedFirst          // saw drained == false before taking the gate
    | Holding              // holds the gate for reading, second check still to come
    | Running
    | Finished(served: bool)

  datatype Drain =
    | Won                  // its swap found drained == false
    | Writing              // holds the gate for writing
    | Written              // marker attempted, gate still held
    | Returned(already: bool)

  datatype World = World(
    drained: bool, rpcs: map<nat, Rpc>, drains: map<nat, Drain>, marker: bool, started: nat)

  const INITIAL := World(false, map[], map[], false, 0)

  datatype Step =
    | Arrive(id: nat)
    | FirstCheck(id: nat)
    | RLock(id: nat)
    | SecondCheck(id: nat)
    | HandlerReturns(id: nat)
    | CallDrain(id: nat)
    | Lock(id: nat)
    | WriteMarker(id: nat, ok: bool)
    | Unlock(id: nat)

  predicate Reader(r: Rpc) {
    r.Holding? || r.Running?
  }

  predicate Writer(d: Drain) {
    d.Writing? || d.Written?
  }

  predicate NoReader(w: World) {
    forall id | id in w.rpcs :: !Reader(w.rpcs[id])
  }

  predicate NoWriter(w: World) {
    forall id | id in w.drains :: !Writer(w.drains[id])
  }

  predicate Enabled(w: World, s: Step) {
    match s
    case Arrive(id) => id !in w.rpcs
    case FirstCheck(id) => id in w.rpcs && w.rpcs[id].Arrived?
    case RLock(id) => id in w.rpcs && w.rpcs[id].PassedFirst? && NoWriter(w)
    case SecondCheck(id) => id in w.rpcs && w.rpcs[id].Holding?
    case HandlerReturns(id) => id in w.rpcs && w.rpcs[id].Running?
    case CallDrain(id) => id !in w.drains
    case Lock(id) => id in w.drains && w.drains[id].Won? && NoReader(w) && NoWriter(w)
    case WriteMarker(id, _) => id in w.drains && w.drains[id].Writing?
    case Unlock(id) => id in w.drains && w.drains[id].Written?
  }

  function Next(w: World, s: Step): World
    requires Enabled(w, s)
  {
    match s
    case Arrive(id) => w.(rpcs := w.rpcs[id := Arrived])
    case FirstCheck(id) => w.(rpcs := w.rpcs[id := if w.drained then Finished(false) else PassedFirst])
    case RLock(id) => w.(rpcs := w.rpcs[id := Holding])
    case SecondCheck(id) =>
      if w.drained then w.(rpcs := w.rpcs[id := Finished(false)])
      else w.(rpcs := w.rpcs[id := Running], started := w.started + 1)
    case HandlerReturns(id) => w.(rpcs := w.rpcs[id := Finished(true)])
    case CallDrain(id) => w.(drained := true, drains := w.drains[id := if w.drained then Returned(true) else Won])
    case Lock(id) => w.(drains := w.drains[id := Writing])
    case WriteMarker(id, ok) => w.(drains := w.drains[id := Written], marker := w.marker || ok)
    case Unlock(id) => w.(drains := w.drains[id := Returned(false)])
  }

  predicate IsRun(w: World, steps: seq<Step>)
    decreases |steps|
  {
    steps == [] || (Enabled(w, steps[0]) && IsRun(Next(w, steps[0]), steps[1..]))
  }

  function End(w: World, steps: seq<Step>): World
    requires IsRun(w, steps)
    decreases |steps|
  {
    if steps == [] then w else End(Next(w, steps[0]), steps[1..])
  }

  predicate TookTheGate(d: Drain) {
    Writer(d) || d == Returned(false)
  }

  /** Drain has taken the gate at some point, so the node is quiet for good. */
  predicate Claimed(w: World) {
    w.marker || exists id :: id in w.drains && TookTheGate(w.drains[id])
  }

  /** The drain whose swap found the node not drained yet. */
  predicate Winner(w: World, id: nat) {
    id in w.drains && w.drains[id] != Returned(true)
  }

  ghost predicate OneWinner(w: World) {
    && (w.drained <==> exists id :: Winner(w, id))
    && (forall i, j | Winner(w, i) && Winner(w, j) :: i == j)
  }

  predicate NoneRunning(w: World) {
    forall id | id in w.rpcs :: !w.rpcs[id].Running?
  }

  /** The requests whose handler was started. */
  function Started(w: World): set<nat> {
    set id | id in w.rpcs && (w.rpcs[id].Running? || w.rpcs[id] == Finished(true))
  }

  ghost predicate Inv(w: World) {
    && (w.drains != map[] || w.marker ==> w.drained)
    && (!NoWriter(w) ==> NoReader(w))
    && (Claimed(w) ==> NoneRunning(w) && w.drained)
    && OneWinner(w) && |Started(w)| == w.started
  }

  lemma StepKeepsOneWinner(w: World, s: Step)
    requires Inv(w) && Enabled(w, s)
    ensures OneWinner(Next(w, s))
  {
    var w' := Next(w, s);
    assert forall id :: Winner(w', id) <==> Winner(w, id) || (s == CallDrain(id) && !w.drained);
    if w.drained {
      var id :| Winner(w, id);
      assert Winner(w', id);
    } else if s.CallDrain? {
      assert Winner(w', s.id);
    }
  }

  lemma StepCounts(w: World, s: Step)
    requires Enabled(w, s) && |Started(w)| == w.started
    ensures |Started(Next(w, s))| == Next(w, s).started
  {
    if s.SecondCheck? && !w.drained {
      assert Started(Next(w, s)) == Started(w) + {s.id};
    } else {
      assert Started(Next(w, s)) == Started(w);
    }
  }

  lemma StepKeepsInv(w: World, s: Step)
    requires Inv(w) && Enabled(w, s)
    ensures Inv(Next(w, s))
    ensures Claimed(w) ==> Claimed(Next(w, s)) && Next(w, s).started == w.started
  {
    var w' := Next(w, s);
    StepKeepsOneWinner(w, s);
    StepCounts(w, s);
    if Claimed(w) && !w.marker {
      var d :| d in w.drains && TookTheGate(w.drains[d]);
      assert d in w'.drains && TookTheGate(w'.drains[d]);
    }
    if Claimed(w') && !w'.marker && !s.Lock? {
      var d :| d in w'.drains && TookTheGate(w'.drains[d]);
      assert d in w.drains && TookTheGate(w.drains[d]);
    }
    if s.WriteMarker? {
      assert TookTheGate(w.drains[s.id]);
    }
  }

  lemma {:induction false} RunKeepsInv(w: World, steps: seq<Step>)
    requires Inv(w) && IsRun(w, steps)
    ensures Inv(End(w, steps))
    ensures Claimed(w) ==> Claimed(End(w, steps)) && End(w, steps).started == w.started
    decreases |steps|
  {
    if steps != [] {
      StepKeepsInv(w, steps[0]);
      RunKeepsInv(Next(w, steps[0]), steps[1..]);
    }
  }

  /** When the marker is written no handler runs. */
  lemma MarkerFindsNoHandlerRunning(steps: seq<Step>, id: nat, ok: bool)
    requires IsRun(INITIAL, steps) && Enabled(End(INITIAL, steps), WriteMarker(id, ok))
    ensures NoneRunning(End(INITIAL, steps)) && NoReader(End(INITIAL, steps))
  {
    RunKeepsInv(INITIAL, steps);
    var w := End(INITIAL, steps);
    assert id in w.drains && Writer(w.drains[id]);
  }

  /** And none ever starts afterwards, not even one that passed the first check in time. */
  lemma NoHandlerStartsAfterTheMarker(steps: seq<Step>, more: seq<Step>)
    requires IsRun(INITIAL, steps) && End(INITIAL, steps).marker && IsRun(End(INITIAL, steps), more)
    ensures End(End(INITIAL, steps), more).started == End(INITIAL, steps).started
    ensures NoneRunning(End(End(INITIAL, steps), more))
  {
    RunKeepsInv(INITIAL, steps);
    RunKeepsInv(End(INITIAL, steps), more);
  }

  /** However many drains are called, the first one alone writes the marker; the others report it drained. */
  lemma ExactlyOneDrainWins(steps: seq<Step>)
    requires IsRun(INITIAL, steps)
    ensures var w := End(INITIAL, steps);
            && (w.drained <==> w.drains != map[])
            && (w.drains != map[] ==>
                  exists id :: Winner(w, id) && forall j | j in w.drains && j != id :: w.drains[j] == Returned(true))
  {
    RunKeepsInv(INITIAL, steps);
    var w := End(INITIAL, steps);
    if w.drains != map[] {
      var id :| Winner(w, id);
      assert forall j | j in w.drains && j != id :: !Winner(w, j);
    }
  }

  /** A request is answered as served exactly when its handler was started, and no handler starts twice. */
  lemma ServedMeansStarted(steps: seq<Step>)
    requires IsRun(INITIAL, steps)
    ensures var w := End(INITIAL, steps); |Started(w)| == w.started
  {
    RunKeepsInv(INITIAL, steps);
  }

  // -------------------------------------------------------- a drain can finish

  function Readers(w: World): set<nat> {
    set id | id in w.rpcs && Reader(w.rpcs[id])
  }

  lemma RunStep(w: World, s: Step, rest: seq<Step>)
    requires Enabled(w, s) && IsRun(Next(w, s), rest)
    ensures IsRun(w, [s] + rest) && End(w, [s] + rest) == End(Next(w, s), rest)
  {
    assert ([s] + rest)[1..] == rest;
  }

  /** On a drained node the handlers that hold the gate let go of it one by one. */
  lemma {:induction false} ReadersLeave(w: World) returns (steps: seq<Step>)
    requires Inv(w) && w.drained
    ensures IsRun(w, steps) && NoReader(End(w, steps)) && End(w, steps).drains == w.drains
    decreases |Readers(w)|
  {
    if NoReader(w) { return []; }
    var id :| id in w.rpcs && Reader(w.rpcs[id]);
    var s := if w.rpcs[id].Holding? then SecondCheck(id) else HandlerReturns(id);
    var w' := Next(w, s);
    StepKeepsInv(w, s);
    assert Readers(w') == Readers(w) - {id};
    var rest := ReadersLeave(w');
    RunStep(w, s, rest);
    steps := [s] + rest;
  }

  /** Whatever is running, the winning drain can go on to write the marker and return. */
  lemma DrainCanFinish(steps: seq<Step>, id: nat) returns (more: seq<Step>)
    requires IsRun(INITIAL, steps) && id in End(INITIAL, steps).drains && End(INITIAL, steps).drains[id].Won?
    ensures IsRun(End(INITIAL, steps), more)
    ensures var w := End(End(INITIAL, steps), more); w.marker && id in w.drains && w.drains[id] == Returned(false)
  {
    RunKeepsInv(INITIAL, steps);
    var w := End(INITIAL, steps);
    assert Winner(w, id);
    var quiet := ReadersLeave(w);
    RunKeepsInv(w, quiet);
    var w1 := End(w, quiet);
    assert Winner(w1, id);
    assert forall j | j in w1.drains && j != id :: !Winner(w1, j);
    var w2 := Next(w1, Lock(id));
    var w3 := Next(w2, WriteMarker(id, true));
    RunStep(w3, Unlock(id), []);
    RunStep(w2, WriteMarker(id, true), [Unlock(id)] + []);
    RunStep(w1, Lock(id), [WriteMarker(id, true)] + ([Unlock(id)] + []));
    var last := [Lock(id)] + ([WriteMarker(id, true)] + ([Unlock(id)] + []));
    RunAppend(w, quiet, last);
    more := quiet + last;
  }

  lemma {:induction false} RunAppend(w: World, a: seq<Step>, b: seq<Step>)
    requires IsRun(w, a) && IsRun(End(w, a), b)
    ensures IsRun(w, a + b) && End(w, a + b) == End(End(w, a), b)
    decreases |a|
  {
    if a == [] {
      assert a + b == b;
    } else {
      RunAppend(Next(w, a[0]), a[1..], b);
      assert (a + b)[1..] == a[1..] + b;
    }
  }

  /** On a node that is not drained a request that arrives can be served. */
  lemma UndrainedNodeServes(steps: seq<Step>, id: nat) returns (more: seq<Step>)
    requires IsRun(INITIAL, steps) && !End(INITIAL, steps).drained && id !in End(INITIAL, steps).rpcs
    ensures IsRun(End(INITIAL, steps), more)
    ensures var w := End(End(INITIAL, steps), more); id in w.rpcs && w.rpcs[id] == Finished(true)
  {
    RunKeepsInv(INITIAL, steps);
    var w := End(INITIAL, steps);
    assert w.drains == map[];
    var w1 := Next(w, Arrive(id));
    var w2 := Next(w1, FirstCheck(id));
    var w3 := Next(w2, RLock(id));
    var w4 := Next(w3, SecondCheck(id));
    RunStep(w4, HandlerReturns(id), []);
    RunStep(w3, SecondCheck(id), [HandlerReturns(id)] + []);
    RunStep(w2, RLock(id), [SecondCheck(id)] + ([HandlerReturns(id)] + []));
    RunStep(w1, FirstCheck(id), [RLock(id)] + ([SecondCheck(id)] + ([HandlerReturns(id)] + [])));
    RunStep(w, Arrive(id), [FirstCheck(id)] + ([RLock(id)] + ([SecondCheck(id)] + ([HandlerReturns(id)] + []))));
    more := [Arrive(id)] + ([FirstCheck(id)] + ([RLock(id)] + ([SecondCheck(id)] + ([HandlerReturns(id)] + []))));
  }

  /** A drained node turns a request away at whichever check it meets next. */
  lemma DrainedNodeRefuses(w: World, id: nat)
    requires w.drained && id in w.rpcs
    ensures w.rpcs[id].Arrived? ==> Next(w, FirstCheck(id)).rpcs[id] == Finished(false)
    ensures w.rpcs[id].Holding? ==> Next(w, SecondCheck(id)).rpcs[id] == Finished(false)
  {
  }
}
