/** ReconcileState regroups the exports of all listed volumes by protocol. */
module ReconcileVolumes {
  import opened Marks

  type Protocol = nat
  type Error = string

  datatype Export = Export(protocol: Protocol, spec: string)

  /**
   One volume of the desired state.  `adopted` volumes are reconciled on their
   own with outcome `adoptedErr`; the others need a backend (`backendErr`), a
   handler for every protocol, and a device path (`deviceErr`).
   */
  datatype Volume = Volume(
    adopted: bool, adoptedErr: Option<Error>, backendErr: Option<Error>, exports: seq<Export>, deviceErr: Option<Error>)

  /** Export number `pos` of volume number `vol`. */
  datatype Item = Item(vol: nat, pos: nat)

  datatype Call = Call(protocol: Protocol, items: seq<Item>)

  /** Protocols the agent does not support, with the error each yields. */
  type Unsupported = map<Protocol, Error>

  predicate Supported(v: Volume, un: Unsupported) {
    forall k | 0 <= k < |v.exports| :: v.exports[k].protocol !in un
  }

  predicate Resolvable(v: Volume, un: Unsupported) {
    && !v.adopted && v.backendErr.None? && Supported(v, un)
    && (v.exports != [] ==> v.deviceErr.None?)
  }

  // ----------------------------------------------------------- specification

  function ItemsOf(v: Volume, vol: nat, n: nat, p: Protocol): seq<Item>
    requires n <= |v.exports|
  {
    if n == 0 then []
    else ItemsOf(v, vol, n - 1, p) + if v.exports[n - 1].protocol == p then [Item(vol, n - 1)] else []
  }

  lemma {:induction false} ItemsAreExact(v: Volume, vol: nat, n: nat, p: Protocol)
    requires n <= |v.exports|
    ensures forall x :: x in ItemsOf(v, vol, n, p) <==> x.vol == vol && x.pos < n && v.exports[x.pos].protocol == p
    ensures forall i, j | 0 <= i < j < |ItemsOf(v, vol, n, p)| ::
              ItemsOf(v, vol, n, p)[i].pos < ItemsOf(v, vol, n, p)[j].pos
  {
    if n > 0 {
      ItemsAreExact(v, vol, n - 1, p);
      var rest := ItemsOf(v, vol, n - 1, p);
      assert forall i | 0 <= i < |rest| :: rest[i] in rest;
    }
  }

  /** The exports of protocol p among the first n volumes, in request order. */
  function Batch(vols: seq<Volume>, un: Unsupported, n: nat, p: Protocol): seq<Item>
    requires n <= |vols|
  {
    if n == 0 then []
    else
      Batch(vols, un, n - 1, p) +
      if Resolvable(vols[n - 1], un) then ItemsOf(vols[n - 1], n - 1, |vols[n - 1].exports|, p) else []
  }

  predicate Belongs(vols: seq<Volume>, un: Unsupported, n: nat, p: Protocol, x: Item)
    requires n <= |vols|
  {
    && x.vol < n && Resolvable(vols[x.vol], un) && x.pos < |vols[x.vol].exports|
    && vols[x.vol].exports[x.pos].protocol == p
  }

  /** The batch of p holds every export of p of a resolvable volume and nothing else. */
  lemma {:induction false} BatchIsExact(vols: seq<Volume>, un: Unsupported, n: nat, p: Protocol)
    requires n <= |vols|
    ensures forall x :: x in Batch(vols, un, n, p) <==> Belongs(vols, un, n, p, x)
  {
    if n > 0 {
      BatchIsExact(vols, un, n - 1, p);
      ItemsAreExact(vols[n - 1], n - 1, |vols[n - 1].exports|, p);
    }
  }

  lemma BatchStaysInside(vols: seq<Volume>, un: Unsupported, p: Protocol)
    ensures var b := Batch(vols, un, |vols|, p); forall j | 0 <= j < |b| :: b[j].vol < |vols|
  {
    BatchIsExact(vols, un, |vols|, p);
    var b := Batch(vols, un, |vols|, p);
    assert forall j | 0 <= j < |b| :: b[j] in b;
  }

  predicate Earlier(a: Item, b: Item) {
    a.vol < b.vol || (a.vol == b.vol && a.pos < b.pos)
  }

  /** Within a protocol the exports keep the order of the request, and none is listed twice. */
  lemma {:induction false} BatchIsInRequestOrder(vols: seq<Volume>, un: Unsupported, n: nat, p: Protocol, i: nat, j: nat)
    requires n <= |vols| && i < j < |Batch(vols, un, n, p)|
    ensures Earlier(Batch(vols, un, n, p)[i], Batch(vols, un, n, p)[j])
    decreases n
  {
    if n > 0 {
      var before := Batch(vols, un, n - 1, p);
      var r := Batch(vols, un, n, p);
      if j < |before| {
        BatchIsInRequestOrder(vols, un, n - 1, p, i, j);
      } else {
        var own := ItemsOf(vols[n - 1], n - 1, |vols[n - 1].exports|, p);
        ItemsAreExact(vols[n - 1], n - 1, |vols[n - 1].exports|, p);
        BatchIsExact(vols, un, n - 1, p);
        assert r[j] == own[j - |before|] && r[j] in own;
        if i < |before| {
          assert r[i] == before[i] && r[i] in before;
        } else {
          assert r[i] == own[i - |before|] && r[i] in own;
        }
      }
    }
  }

  function Get(m: map<Protocol, seq<Item>>, p: Protocol): seq<Item> {
    if p in m then m[p] else []
  }

  // -------------------------------------------------------------- resolution

  /** The first error met while resolving v. */
  function ResolveError(v: Volume, un: Unsupported): (r: Option<Error>)
    ensures r.None? <==> if v.adopted then v.adoptedErr.None? else Resolvable(v, un)
  {
    if v.adopted then v.adoptedErr
    else if v.backendErr.Some? then v.backendErr
    else
      var u := UnsupportedError(v, un, |v.exports|);
      if u.Some? then u else if v.exports == [] then None else v.deviceErr
  }

  function UnsupportedError(v: Volume, un: Unsupported, n: nat): (r: Option<Error>)
    requires n <= |v.exports|
    ensures r.None? <==> forall k | 0 <= k < n :: v.exports[k].protocol !in un
  {
    if n == 0 then None
    else
      var u := UnsupportedError(v, un, n - 1);
      var p := v.exports[n - 1].protocol;
      if u.Some? then u else if p in un then Some(un[p]) else None
  }

  lemma {:induction false} UnsupportedErrorStays(v: Volume, un: Unsupported, n: nat, m: nat)
    requires n <= m <= |v.exports| && UnsupportedError(v, un, n).Some?
    ensures UnsupportedError(v, un, m) == UnsupportedError(v, un, n)
    decreases m
  {
    if n < m { UnsupportedErrorStays(v, un, n, m - 1); }
  }

  // -------------------------------------------------------- first-seen order

  /** The protocols of v whose handler is looked up with success, in export order. */
  function Examined(v: Volume, un: Unsupported, n: nat): seq<Protocol>
    requires n <= |v.exports|
  {
    if n == 0 then []
    else Examined(v, un, n - 1) + if UnsupportedError(v, un, n).Some? then [] else [v.exports[n - 1].protocol]
  }

  lemma {:induction false} ExaminedStops(v: Volume, un: Unsupported, n: nat, m: nat)
    requires n <= m <= |v.exports| && UnsupportedError(v, un, n).Some?
    ensures Examined(v, un, m) == Examined(v, un, n)
    decreases m
  {
    if n < m {
      ExaminedStops(v, un, n, m - 1);
      UnsupportedErrorStays(v, un, n, m);
    }
  }

  function ExaminedBy(v: Volume, un: Unsupported): seq<Protocol> {
    if v.adopted || v.backendErr.Some? then [] else Examined(v, un, |v.exports|)
  }

  /** All looked-up protocols of the first n volumes, in request order. */
  function Seen(vols: seq<Volume>, un: Unsupported, n: nat): seq<Protocol>
    requires n <= |vols|
  {
    if n == 0 then [] else Seen(vols, un, n - 1) + ExaminedBy(vols[n - 1], un)
  }

  /** The elements of `seen`, once each, by first appearance. */
  function FirstSeen(seen: seq<Protocol>): seq<Protocol> {
    if seen == [] then []
    else
      var before, p := FirstSeen(seen[..|seen| - 1]), seen[|seen| - 1];
      if p in before then before else before + [p]
  }

  lemma SeeOne(seen: seq<Protocol>, p: Protocol)
    ensures FirstSeen(seen + [p]) == if p in FirstSeen(seen) then FirstSeen(seen) else FirstSeen(seen) + [p]
  {
    assert (seen + [p])[..|seen|] == seen;
  }

  lemma {:induction false} FirstSeenHasAll(seen: seq<Protocol>, p: Protocol)
    ensures p in FirstSeen(seen) <==> p in seen
  {
    if seen != [] {
      FirstSeenHasAll(seen[..|seen| - 1], p);
      assert seen == seen[..|seen| - 1] + [seen[|seen| - 1]];
    }
  }

  /** p appears before the first q. */
  predicate SeenBefore(seen: seq<Protocol>, p: Protocol, q: Protocol) {
    exists a :: 0 <= a < |seen| && seen[a] == p && q !in seen[..a + 1]
  }

  lemma {:induction false} FirstSeenIsOrdered(seen: seq<Protocol>, i: nat, j: nat)
    requires i < j < |FirstSeen(seen)|
    ensures SeenBefore(seen, FirstSeen(seen)[i], FirstSeen(seen)[j])
  {
    var n := |seen| - 1;
    var before, p := FirstSeen(seen[..n]), seen[n];
    if j < |before| {
      FirstSeenIsOrdered(seen[..n], i, j);
      var a :| 0 <= a < n && seen[..n][a] == before[i] && before[j] !in seen[..n][..a + 1];
      assert seen[..n][..a + 1] == seen[..a + 1];
    } else {
      FirstSeenHasAll(seen[..n], before[i]);
      FirstSeenHasAll(seen[..n], p);
      var a :| 0 <= a < n && seen[..n][a] == before[i];
      assert seen[..n][..a + 1] == seen[..a + 1];
    }
  }

  lemma ExamineOne(v: Volume, un: Unsupported, k: nat, seen: seq<Protocol>)
    requires k < |v.exports| && UnsupportedError(v, un, k).None?
    ensures var p := v.exports[k].protocol;
            var known := FirstSeen(seen + Examined(v, un, k));
            if p in un then
              && UnsupportedError(v, un, |v.exports|) == Some(un[p])
              && FirstSeen(seen + Examined(v, un, |v.exports|)) == known
            else
              && UnsupportedError(v, un, k + 1).None?
              && FirstSeen(seen + Examined(v, un, k + 1)) == if p in known then known else known + [p]
  {
    var p := v.exports[k].protocol;
    if p in un {
      UnsupportedErrorStays(v, un, k + 1, |v.exports|);
      ExaminedStops(v, un, k + 1, |v.exports|);
      assert Examined(v, un, k) + [] == Examined(v, un, k);
    } else {
      SeeOne(seen + Examined(v, un, k), p);
      assert seen + Examined(v, un, k) + [p] == seen + Examined(v, un, k + 1);
    }
  }

  /** Finds a handler for every protocol; the ones found are kept even when the volume fails. */
  method ResolveVolumeHandlers(v: Volume, un: Unsupported, known: seq<Protocol>, ghost seen: seq<Protocol>)
    returns (err: Option<Error>, order: seq<Protocol>)
    requires !v.adopted
    requires known == FirstSeen(seen) && forall p | p in known :: p !in un
    ensures order == FirstSeen(seen + ExaminedBy(v, un)) && forall p | p in order :: p !in un
    ensures err == ResolveError(v, un)
  {
    order := known;
    assert seen + [] == seen;
    if v.backendErr.Some? { return v.backendErr, order; }
    for k := 0 to |v.exports|
      invariant order == FirstSeen(seen + Examined(v, un, k)) && forall p | p in order :: p !in un
      invariant UnsupportedError(v, un, k).None?
    {
      var p := v.exports[k].protocol;
      ExamineOne(v, un, k, seen);
      if p in order { continue; }
      if p in un { return Some(un[p]), order; }
      order := order + [p];
    }
    if v.exports != [] && v.deviceErr.Some? { return v.deviceErr, order; }
    return None, order;
  }

  lemma {:induction false} ExaminedAll(v: Volume, un: Unsupported, n: nat, k: nat)
    requires k < n <= |v.exports| && UnsupportedError(v, un, n).None?
    ensures v.exports[k].protocol in Examined(v, un, n)
  {
    if k < n - 1 { ExaminedAll(v, un, n - 1, k); }
  }

  lemma {:induction false} SeenStays(vols: seq<Volume>, un: Unsupported, n: nat, m: nat, p: Protocol)
    requires n <= m <= |vols| && p in Seen(vols, un, n)
    ensures p in Seen(vols, un, m)
    decreases m
  {
    if n < m { SeenStays(vols, un, n, m - 1, p); }
  }

  /** The handler of every export of a resolvable volume was looked up. */
  lemma ResolvableIsSeen(vols: seq<Volume>, un: Unsupported, i: nat, e: nat)
    requires i < |vols| && Resolvable(vols[i], un) && e < |vols[i].exports|
    ensures vols[i].exports[e].protocol in FirstSeen(Seen(vols, un, |vols|))
  {
    var p := vols[i].exports[e].protocol;
    ExaminedAll(vols[i], un, |vols[i].exports|, e);
    assert p in Seen(vols, un, i + 1);
    SeenStays(vols, un, i + 1, |vols|, p);
    FirstSeenHasAll(Seen(vols, un, |vols|), p);
  }

  lemma AddOne(prev: map<Protocol, seq<Item>>, r: map<Protocol, seq<Item>>, was: seq<Item>,
               v: Volume, vol: nat, k: nat, p: Protocol)
    requires k < |v.exports|
    requires r == prev[v.exports[k].protocol := Get(prev, v.exports[k].protocol) + [Item(vol, k)]]
    requires Get(prev, p) == was + ItemsOf(v, vol, k, p)
    ensures Get(r, p) == was + ItemsOf(v, vol, k + 1, p)
  {
    if p == v.exports[k].protocol {
      assert was + ItemsOf(v, vol, k, p) + [Item(vol, k)] == was + (ItemsOf(v, vol, k, p) + [Item(vol, k)]);
    } else {
      assert ItemsOf(v, vol, k, p) + [] == ItemsOf(v, vol, k, p);
    }
  }

  /** Appends the exports of one resolved volume to the batches of their protocols. */
  method AddExports(v: Volume, vol: nat, desired: map<Protocol, seq<Item>>) returns (r: map<Protocol, seq<Item>>)
    ensures forall p :: Get(r, p) == Get(desired, p) + ItemsOf(v, vol, |v.exports|, p)
  {
    r := desired;
    for k := 0 to |v.exports|
      invariant forall p :: Get(r, p) == Get(desired, p) + ItemsOf(v, vol, k, p)
    {
      var q := v.exports[k].protocol;
      ghost var prev := r;
      r := r[q := Get(r, q) + [Item(vol, k)]];
      forall p ensures Get(r, p) == Get(desired, p) + ItemsOf(v, vol, k + 1, p) {
        AddOne(prev, r, Get(desired, p), v, vol, k, p);
      }
    }
  }

  // -------------------------------------------------------------- dispatch

  /** The handler's answer for position j of its batch of protocol p. */
  type Outcomes = (Protocol, nat) -> Option<Error>

  /** Did all exports of volume i in the batch of p succeed? */
  predicate AllApplied(batch: seq<Item>, n: nat, p: Protocol, outcomes: Outcomes, i: nat)
    requires n <= |batch|
  {
    forall j | 0 <= j < n && batch[j].vol == i :: outcomes(p, j).None?
  }

  function Or(first: Option<Error>, second: Option<Error>): Option<Error> {
    if first.Some? then first else second
  }

  /** The first failed export of volume i among the first n of the batch. */
  function FirstFailure(batch: seq<Item>, n: nat, p: Protocol, outcomes: Outcomes, i: nat): Option<Error>
    requires n <= |batch|
  {
    if n == 0 then None
    else Or(FirstFailure(batch, n - 1, p, outcomes, i), if batch[n - 1].vol == i then outcomes(p, n - 1) else None)
  }

  lemma {:induction false} FirstFailureIsFirst(batch: seq<Item>, n: nat, p: Protocol, outcomes: Outcomes, i: nat)
    requires n <= |batch|
    ensures FirstFailure(batch, n, p, outcomes, i).None? <==> AllApplied(batch, n, p, outcomes, i)
    ensures FirstFailure(batch, n, p, outcomes, i).Some? ==>
              exists j :: 0 <= j < n && batch[j].vol == i && AllApplied(batch, j, p, outcomes, i) &&
                          FirstFailure(batch, n, p, outcomes, i) == outcomes(p, j)
  {
    if n > 0 { FirstFailureIsFirst(batch, n - 1, p, outcomes, i); }
  }

  method ApplyOutcomes(batch: seq<Item>, p: Protocol, outcomes: Outcomes, failures: seq<Option<Error>>)
    returns (r: seq<Option<Error>>)
    requires forall j | 0 <= j < |batch| :: batch[j].vol < |failures|
    ensures |r| == |failures|
    ensures forall i | 0 <= i < |r| :: r[i] == Or(failures[i], FirstFailure(batch, |batch|, p, outcomes, i))
  {
    r := failures;
    for j := 0 to |batch|
      invariant |r| == |failures|
      invariant forall i | 0 <= i < |r| :: r[i] == Or(failures[i], FirstFailure(batch, j, p, outcomes, i))
    {
      var v := batch[j].vol;
      if outcomes(p, j).Some? && r[v].None? {
        r := r[v := outcomes(p, j)];
      }
    }
  }

  /** The first failure of volume i over all handler calls, in call order. */
  function CallsFailure(calls: seq<Call>, n: nat, outcomes: Outcomes, i: nat): Option<Error>
    requires n <= |calls|
  {
    if n == 0 then None
    else
      Or(CallsFailure(calls, n - 1, outcomes, i),
         FirstFailure(calls[n - 1].items, |calls[n - 1].items|, calls[n - 1].protocol, outcomes, i))
  }

  /** A volume's handlers report success exactly when each of its own exports was applied. */
  lemma {:induction false} SucceedsIffAllApplied(calls: seq<Call>, n: nat, outcomes: Outcomes, i: nat)
    requires n <= |calls|
    ensures CallsFailure(calls, n, outcomes, i).None? <==>
            forall k | 0 <= k < n :: AllApplied(calls[k].items, |calls[k].items|, calls[k].protocol, outcomes, i)
  {
    if n > 0 {
      SucceedsIffAllApplied(calls, n - 1, outcomes, i);
      FirstFailureIsFirst(calls[n - 1].items, |calls[n - 1].items|, calls[n - 1].protocol, outcomes, i);
    }
  }

  lemma {:induction false} EarlierCallsOnly(calls: seq<Call>, c: Call, n: nat, outcomes: Outcomes, i: nat)
    requires n <= |calls|
    ensures CallsFailure(calls + [c], n, outcomes, i) == CallsFailure(calls, n, outcomes, i)
  {
    if n > 0 { EarlierCallsOnly(calls, c, n - 1, outcomes, i); }
  }

  predicate Dispatched(calls: seq<Call>, p: Protocol, x: Item) {
    exists k :: 0 <= k < |calls| && calls[k].protocol == p && x in calls[k].items
  }

  lemma IsDispatched(vols: seq<Volume>, un: Unsupported, calls: seq<Call>, i: nat, e: nat)
    requires i < |vols| && Resolvable(vols[i], un) && e < |vols[i].exports|
    requires var p := vols[i].exports[e].protocol;
             Batch(vols, un, |vols|, p) != [] ==> Call(p, Batch(vols, un, |vols|, p)) in calls
    ensures Dispatched(calls, vols[i].exports[e].protocol, Item(i, e))
  {
    var p := vols[i].exports[e].protocol;
    BatchIsExact(vols, un, |vols|, p);
    assert Item(i, e) in Batch(vols, un, |vols|, p);
    var k :| 0 <= k < |calls| && calls[k] == Call(p, Batch(vols, un, |vols|, p));
  }

  /** One turn of the first loop. */
  method GroupOne(vols: seq<Volume>, un: Unsupported, n: nat, order: seq<Protocol>, desired: map<Protocol, seq<Item>>)
    returns (err: Option<Error>, order': seq<Protocol>, desired': map<Protocol, seq<Item>>)
    requires n < |vols| && order == FirstSeen(Seen(vols, un, n)) && forall p | p in order :: p !in un
    ensures err == ResolveError(vols[n], un)
    ensures order' == FirstSeen(Seen(vols, un, n + 1)) && forall p | p in order' :: p !in un
    ensures forall p :: Get(desired', p) ==
                        Get(desired, p) +
                        if Resolvable(vols[n], un) then ItemsOf(vols[n], n, |vols[n].exports|, p) else []
  {
    order', desired' := order, desired;
    if vols[n].adopted {
      assert Seen(vols, un, n) + [] == Seen(vols, un, n);
      return vols[n].adoptedErr, order', desired';
    }
    err, order' := ResolveVolumeHandlers(vols[n], un, order, Seen(vols, un, n));
    if err.None? {
      desired' := AddExports(vols[n], n, desired);
    }
  }

  /** The first loop: resolution failures, protocol order and batches. */
  method Group(vols: seq<Volume>, un: Unsupported)
    returns (failures: seq<Option<Error>>, order: seq<Protocol>, desired: map<Protocol, seq<Item>>)
    ensures |failures| == |vols| && order == FirstSeen(Seen(vols, un, |vols|))
    ensures forall i | 0 <= i < |vols| :: failures[i] == ResolveError(vols[i], un)
    ensures forall p :: Get(desired, p) == Batch(vols, un, |vols|, p)
  {
    failures, order, desired := [], [], map[];
    for n := 0 to |vols|
      invariant |failures| == n && order == FirstSeen(Seen(vols, un, n)) && forall p | p in order :: p !in un
      invariant forall i | 0 <= i < n :: failures[i] == ResolveError(vols[i], un)
      invariant forall p :: Get(desired, p) == Batch(vols, un, n, p)
    {
      var err;
      err, order, desired := GroupOne(vols, un, n, order, desired);
      failures := failures + [err];
    }
  }

  /** One call for each of the first m protocols that has work. */
  function CallsOf(order: seq<Protocol>, desired: map<Protocol, seq<Item>>, m: nat): seq<Call>
    requires m <= |order|
  {
    if m == 0 then []
    else
      var items := Get(desired, order[m - 1]);
      CallsOf(order, desired, m - 1) + if items == [] then [] else [Call(order[m - 1], items)]
  }

  lemma {:induction false} CallsAre(order: seq<Protocol>, desired: map<Protocol, seq<Item>>, m: nat)
    requires m <= |order|
    ensures forall c | c in CallsOf(order, desired, m) ::
              c.protocol in order[..m] && c.items == Get(desired, c.protocol) != []
    ensures forall p | p in order[..m] && Get(desired, p) != [] :: Call(p, Get(desired, p)) in CallsOf(order, desired, m)
  {
    if m > 0 {
      CallsAre(order, desired, m - 1);
      assert order[..m] == order[..m - 1] + [order[m - 1]];
    }
  }

  lemma {:induction false} CallsAreOrdered(
    seen: seq<Protocol>, desired: map<Protocol, seq<Item>>, m: nat, k: nat, l: nat)
    requires m <= |FirstSeen(seen)| && k < l < |CallsOf(FirstSeen(seen), desired, m)|
    ensures var calls := CallsOf(FirstSeen(seen), desired, m); SeenBefore(seen, calls[k].protocol, calls[l].protocol)
    decreases m
  {
    var order := FirstSeen(seen);
    var before := CallsOf(order, desired, m - 1);
    if l < |before| {
      CallsAreOrdered(seen, desired, m - 1, k, l);
    } else {
      CallsAre(order, desired, m - 1);
      assert before[k] in before;
      var i :| 0 <= i < m - 1 && order[..m - 1][i] == before[k].protocol;
      FirstSeenIsOrdered(seen, i, m - 1);
    }
  }

  /** The second loop: one handler call per protocol that has work. */
  method Dispatch(order: seq<Protocol>, desired: map<Protocol, seq<Item>>, outcomes: Outcomes,
                  resolved: seq<Option<Error>>)
    returns (failures: seq<Option<Error>>, calls: seq<Call>)
    requires forall p :: forall j | 0 <= j < |Get(desired, p)| :: Get(desired, p)[j].vol < |resolved|
    ensures |failures| == |resolved| && calls == CallsOf(order, desired, |order|)
    ensures forall i | 0 <= i < |resolved| ::
              failures[i] == Or(resolved[i], CallsFailure(calls, |calls|, outcomes, i))
  {
    failures, calls := resolved, [];
    for m := 0 to |order|
      invariant |failures| == |resolved| && calls == CallsOf(order, desired, m)
      invariant forall i | 0 <= i < |resolved| ::
                  failures[i] == Or(resolved[i], CallsFailure(calls, |calls|, outcomes, i))
    {
      var p := order[m];
      var items := Get(desired, p);
      if items == [] { continue; }
      failures := ApplyOutcomes(items, p, outcomes, failures);
      forall i | 0 <= i < |resolved|
        ensures CallsFailure(calls + [Call(p, items)], |calls|, outcomes, i) ==
                CallsFailure(calls, |calls|, outcomes, i)
      {
        EarlierCallsOnly(calls, Call(p, items), |calls|, outcomes, i);
      }
      calls := calls + [Call(p, items)];
    }
  }

  /** The calls of a request: its protocols by first appearance, with their whole batches. */
  predicate Served(vols: seq<Volume>, un: Unsupported, calls: seq<Call>) {
    && (forall i, j | 0 <= i < j < |calls| ::
          SeenBefore(Seen(vols, un, |vols|), calls[i].protocol, calls[j].protocol))
    && (forall k | 0 <= k < |calls| :: calls[k].items == Batch(vols, un, |vols|, calls[k].protocol) != [])
    && (forall i, e | 0 <= i < |vols| && Resolvable(vols[i], un) && 0 <= e < |vols[i].exports| ::
          Dispatched(calls, vols[i].exports[e].protocol, Item(i, e)))
  }

  lemma CallsServeAll(vols: seq<Volume>, un: Unsupported, desired: map<Protocol, seq<Item>>)
    requires forall p :: Get(desired, p) == Batch(vols, un, |vols|, p)
    ensures var order := FirstSeen(Seen(vols, un, |vols|)); Served(vols, un, CallsOf(order, desired, |order|))
  {
    var seen := Seen(vols, un, |vols|);
    var order := FirstSeen(seen);
    var calls := CallsOf(order, desired, |order|);
    CallsAre(order, desired, |order|);
    assert order[..|order|] == order;
    forall i, j | 0 <= i < j < |calls|
      ensures SeenBefore(seen, calls[i].protocol, calls[j].protocol)
    {
      CallsAreOrdered(seen, desired, |order|, i, j);
    }
    forall k | 0 <= k < |calls|
      ensures calls[k].items == Batch(vols, un, |vols|, calls[k].protocol) != []
    {
      assert calls[k] in calls;
    }
    forall i, e | 0 <= i < |vols| && Resolvable(vols[i], un) && 0 <= e < |vols[i].exports|
      ensures Dispatched(calls, vols[i].exports[e].protocol, Item(i, e))
    {
      ResolvableIsSeen(vols, un, i, e);
      IsDispatched(vols, un, calls, i, e);
    }
  }

  /**
   Every export of a resolvable volume goes to exactly one handler call, one
   call per protocol in first-seen order; volume i reports its resolution
   error, or else the first error of its own exports, or else success.
   */
  method Reconcile(vols: seq<Volume>, un: Unsupported, outcomes: Outcomes)
    returns (failures: seq<Option<Error>>, calls: seq<Call>)
    ensures |failures| == |vols|
    ensures Served(vols, un, calls)
    ensures forall i | 0 <= i < |vols| ::
              failures[i] == Or(ResolveError(vols[i], un), CallsFailure(calls, |calls|, outcomes, i))
  {
    var order, desired;
    failures, order, desired := Group(vols, un);
    forall p ensures forall j | 0 <= j < |Get(desired, p)| :: Get(desired, p)[j].vol < |vols| {
      BatchStaysInside(vols, un, p);
      assert Get(desired, p) == Batch(vols, un, |vols|, p);
    }
    failures, calls := Dispatch(order, desired, outcomes, failures);
    CallsServeAll(vols, un, desired);
  }
}
