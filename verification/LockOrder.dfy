/** Target locks are taken once each, in increasing target ID order. */
module LockOrder {

  // ------------------------------------------- the byte order of target IDs

  predicate Less(a: string, b: string)
    decreases |a|
  {
    b != [] && (a == [] || a[0] < b[0] || (a[0] == b[0] && Less(a[1..], b[1..])))
  }

  lemma {:induction false} LessIrreflexive(a: string)
    ensures !Less(a, a)
    decreases |a|
  {
    if a != [] { LessIrreflexive(a[1..]); }
  }

  lemma {:induction false} LessTransitive(a: string, b: string, c: string)
    requires Less(a, b) && Less(b, c)
    ensures Less(a, c)
    decreases |a|
  {
    if a != [] && a[0] == b[0] && b[0] == c[0] { LessTransitive(a[1..], b[1..], c[1..]); }
  }

  lemma {:induction false} LessTotal(a: string, b: string)
    ensures Less(a, b) || a == b || Less(b, a)
    decreases |a|
  {
    if a != [] && b != [] && a[0] == b[0] {
      LessTotal(a[1..], b[1..]);
      assert a[1..] == b[1..] ==> [a[0]] + a[1..] == [b[0]] + b[1..];
      assert a == [a[0]] + a[1..] && b == [b[0]] + b[1..];
    }
  }

  predicate Sorted(s: seq<string>) {
    forall i, j | 0 <= i < j < |s| :: !Less(s[j], s[i])
  }

  predicate StrictlyIncreasing(s: seq<string>) {
    forall i, j | 0 <= i < j < |s| :: Less(s[i], s[j])
  }

  // ------------------------------------------------------ sort and compact

  /** Inserts x before the first element above it. */
  method Insert(s: seq<string>, x: string) returns (r: seq<string>)
    requires Sorted(s)
    ensures Sorted(r) && multiset(r) == multiset(s) + multiset{x}
  {
    var i := |s|;
    while i > 0 && Less(x, s[i - 1])
      invariant 0 <= i <= |s|
      invariant forall k | i <= k < |s| :: Less(x, s[k])
    {
      i := i - 1;
    }
    r := s[..i] + [x] + s[i..];
    assert s == s[..i] + s[i..];
    InsertKeepsSorted(s, i, x);
  }

  lemma InsertKeepsSorted(s: seq<string>, i: nat, x: string)
    requires Sorted(s) && i <= |s|
    requires i > 0 ==> !Less(x, s[i - 1])
    requires forall k | i <= k < |s| :: Less(x, s[k])
    ensures Sorted(s[..i] + [x] + s[i..])
  {
    forall j | 0 <= j < i ensures !Less(x, s[j]) {
      if Less(x, s[j]) && j < i - 1 { LessTotalStep(x, s[j], s[i - 1]); }
    }
    forall k | i <= k < |s| ensures !Less(s[k], x) {
      if Less(s[k], x) {
        LessTransitive(x, s[k], x);
        LessIrreflexive(x);
      }
    }
  }

  /** x < a <= b implies x < b. */
  lemma LessTotalStep(x: string, a: string, b: string)
    requires Less(x, a) && !Less(b, a)
    ensures Less(x, b)
  {
    LessTotal(a, b);
    if Less(a, b) { LessTransitive(x, a, b); }
  }

  method Sort(s: seq<string>) returns (r: seq<string>)
    ensures Sorted(r) && multiset(r) == multiset(s)
  {
    r := [];
    for i := 0 to |s|
      invariant Sorted(r) && multiset(r) == multiset(s[..i])
    {
      assert s[..i + 1] == s[..i] + [s[i]];
      r := Insert(r, s[i]);
    }
    assert s[..|s|] == s;
  }

  /** Drops every element equal to its predecessor. */
  method Compact(s: seq<string>) returns (r: seq<string>)
    requires Sorted(s)
    ensures StrictlyIncreasing(r)
    ensures forall x :: x in r <==> x in s
  {
    r := [];
    for i := 0 to |s|
      invariant StrictlyIncreasing(r)
      invariant forall x :: x in r <==> x in s[..i]
      invariant i == 0 ==> r == []
      invariant i > 0 ==> r != [] && r[|r| - 1] == s[i - 1]
    {
      assert s[..i + 1] == s[..i] + [s[i]];
      if i == 0 || s[i] != s[i - 1] {
        forall k | 0 <= k < |r| ensures Less(r[k], s[i]) {
          LessTotal(s[i - 1], s[i]);
          if k < |r| - 1 { LessTransitive(r[k], s[i - 1], s[i]); }
        }
        r := r + [s[i]];
      }
    }
    assert s[..|s|] == s;
  }

  datatype Target = NoTarget | Target(id: string)

  /** The order in which lockTargets acquires the locks of a batch. */
  method LockTargets(targets: seq<Target>) returns (order: seq<string>)
    ensures StrictlyIncreasing(order)
    ensures forall id :: id in order <==> Target(id) in targets
  {
    var ids := [];
    for i := 0 to |targets|
      invariant forall id :: id in ids <==> Target(id) in targets[..i]
    {
      assert targets[..i + 1] == targets[..i] + [targets[i]];
      if targets[i].Target? { ids := ids + [targets[i].id]; }
    }
    assert targets[..|targets|] == targets;
    var sorted := Sort(ids);
    assert forall x :: x in sorted <==> x in multiset(sorted);
    assert forall x :: x in ids <==> x in multiset(ids);
    order := Compact(sorted);
  }

  // --------------------------------------------------------- no cyclic wait

  /**
   The drain gate, the target locks, the fence of a volume name and the fence
   of a native resource key, in the order in which every thread takes them.
   */
  datatype Lock = Lock(rank: nat, id: string)

  const GATE := Lock(0, "")

  predicate Before(a: Lock, b: Lock) {
    a.rank < b.rank || (a.rank == b.rank && Less(a.id, b.id))
  }

  lemma BeforeTransitive(a: Lock, b: Lock, c: Lock)
    requires Before(a, b) && Before(b, c)
    ensures Before(a, c)
  {
    if a.rank == b.rank == c.rank { LessTransitive(a.id, b.id, c.id); }
  }

  datatype Fence = NoFence | Fence(id: string)

  /**
   A request, or the drain, that holds the first `held` locks of its order and
   waits for the next.  Requests share the gate; the drain takes it alone.
   */
  datatype Thread = Thread(drain: bool, targets: seq<string>, name: Fence, key: Fence, held: nat)

  function Optional(rank: nat, f: Fence): seq<Lock> {
    if f.NoFence? then [] else [Lock(rank, f.id)]
  }

  function Order(t: Thread): seq<Lock> {
    [GATE] + seq(|t.targets|, i requires 0 <= i < |t.targets| => Lock(1, t.targets[i])) +
    Optional(2, t.name) + Optional(3, t.key)
  }

  predicate Waiting(t: Thread) {
    StrictlyIncreasing(t.targets) && t.held < |Order(t)|
  }

  function Wanted(t: Thread): Lock
    requires Waiting(t)
  {
    Order(t)[t.held]
  }

  /** A reader of the gate queues behind a drain that waits for it. */
  predicate Queued(t: Thread, u: Thread)
    requires Waiting(t) && Waiting(u)
  {
    !t.drain && u.drain && Wanted(t) == GATE && Wanted(u) == GATE
  }

  predicate WaitsFor(t: Thread, u: Thread)
    requires Waiting(t) && Waiting(u)
  {
    || Queued(t, u)
    || (Wanted(t) in Order(u)[..u.held] && (Wanted(t) == GATE ==> t.drain || u.drain))
  }

  /** The locks of a batch from lockTargets, and the fences its entries take, are acquired in order. */
  method PlanLocks(targets: seq<Target>, name: Fence, key: Fence) returns (t: Thread)
    ensures Waiting(t) && !t.drain && t.held == 0 && t.name == name && t.key == key
    ensures forall id :: id in t.targets <==> Target(id) in targets
    ensures forall l ::
              l in Order(t) <==>
              || l == GATE || (l.rank == 1 && Target(l.id) in targets)
              || (name.Fence? && l == Lock(2, name.id)) || (key.Fence? && l == Lock(3, key.id))
  {
    var order := LockTargets(targets);
    t := Thread(false, order, name, key, 0);
    forall l ensures l in Order(t) <==> l == GATE || (l.rank == 1 && l.id in order) ||
                                        l in Optional(2, name) || l in Optional(3, key)
    {
      if l.rank == 1 && l.id in order {
        var i :| 0 <= i < |order| && order[i] == l.id;
        assert Order(t)[i + 1] == l;
      }
    }
  }

  lemma OrderIncreases(t: Thread, i: nat, j: nat)
    requires StrictlyIncreasing(t.targets) && i < j < |Order(t)|
    ensures Before(Order(t)[i], Order(t)[j])
  {
    var n := |t.targets|;
    assert Order(t)[0] == GATE && forall k | 1 <= k <= n :: Order(t)[k] == Lock(1, t.targets[k - 1]);
  }

  /** Who waits for a held lock wants a later lock's owner to go on. */
  lemma WaitClimbs(t: Thread, u: Thread)
    requires Waiting(t) && Waiting(u) && WaitsFor(t, u) && !Queued(t, u)
    ensures Before(Wanted(t), Wanted(u))
  {
    var k :| 0 <= k < u.held && Order(u)[k] == Wanted(t);
    OrderIncreases(u, k, u.held);
  }

  /** Nobody waits for a thread that queues for the gate. */
  lemma NobodyWaitsForTheQueued(s: Thread, t: Thread, u: Thread)
    requires Waiting(s) && Waiting(t) && Waiting(u) && WaitsFor(s, t) && WaitsFor(t, u)
    ensures !Queued(t, u)
  {
    if Queued(t, u) {
      var k :| 0 <= k < t.held && Order(t)[k] == Wanted(s);
      OrderIncreases(t, k, t.held);
    }
  }

  predicate Chain(ts: seq<Thread>) {
    && (forall i | 0 <= i < |ts| :: Waiting(ts[i]))
    && (forall i | 0 <= i < |ts| - 1 :: WaitsFor(ts[i], ts[i + 1]))
  }

  lemma {:induction false} ChainClimbs(ts: seq<Thread>, k: nat)
    requires Chain(ts) && 0 < k < |ts| && !Queued(ts[0], ts[1])
    ensures Before(Wanted(ts[0]), Wanted(ts[k]))
    decreases k
  {
    assert WaitsFor(ts[k - 1], ts[k - 1 + 1]);
    if k == 1 {
      WaitClimbs(ts[0], ts[1]);
    } else {
      assert WaitsFor(ts[k - 2], ts[k - 2 + 1]);
      NobodyWaitsForTheQueued(ts[k - 2], ts[k - 1], ts[k]);
      WaitClimbs(ts[k - 1], ts[k]);
      ChainClimbs(ts, k - 1);
      BeforeTransitive(Wanted(ts[0]), Wanted(ts[k - 1]), Wanted(ts[k]));
    }
  }

  /** Requests and the drain never wait for each other in a circle. */
  lemma NoCyclicWait(ts: seq<Thread>)
    requires ts != [] && Chain(ts)
    ensures !WaitsFor(ts[|ts| - 1], ts[0])
  {
    var first, last := ts[0], ts[|ts| - 1];
    if WaitsFor(last, first) {
      if |ts| > 1 {
        assert WaitsFor(ts[0], ts[0 + 1]) && WaitsFor(ts[|ts| - 2], ts[|ts| - 2 + 1]);
        NobodyWaitsForTheQueued(last, first, ts[1]);
        NobodyWaitsForTheQueued(ts[|ts| - 2], last, first);
        ChainClimbs(ts, |ts| - 1);
        WaitClimbs(last, first);
        BeforeTransitive(Wanted(first), Wanted(last), Wanted(first));
      } else {
        WaitClimbs(last, first);
      }
      LessIrreflexive(Wanted(first).id);
    }
  }
}
