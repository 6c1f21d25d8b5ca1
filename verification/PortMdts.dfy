/**
 The maximum data transfer size (MDTS) of a shared NVMe port.  A reconcile
 gives every export the smallest limit requested on its port, so that the
 batch fits an idle port whichever export is linked first.
 */
module PortMdts {

  const DEFAULT_PORT: nat := 4420
  const MIN_SIZE: nat := 8192
  const MAX_SIZE: nat := 0x4000_0000
  const UNIT: nat := 4096            // param_mdts counts 4 KiB pages

  predicate IsPowerOfTwo(v: nat) {
    v == 1 || (v > 1 && v % 2 == 0 && IsPowerOfTwo(v / 2))
  }

  predicate ValidSize(v: int) {
    v == 0 || (MIN_SIZE <= v <= MAX_SIZE && IsPowerOfTwo(v))
  }

  datatype Limit = Unset | Limit(size: int)   // Limit(0) asks for no limit

  datatype Endpoint = Endpoint(address: string, port: nat)

  class Target {
    const address: string
    const port: nat
    const limit: Limit
    var floor: Limit

    constructor (address: string, port: nat, limit: Limit)
      ensures this.address == address && this.port == port && this.limit == limit && floor == Unset
    {
      this.address, this.port, this.limit, floor := address, port, limit, Unset;
    }

    function Key(): Endpoint {
      Endpoint(address, if port == 0 then DEFAULT_PORT else port)
    }
  }

  /** Two targets share a port when they name it, the default by its number or by 0. */
  lemma EndpointsAgreeIff(a: Target, b: Target)
    ensures a.Key() == b.Key() <==>
            a.address == b.address && (a.port == b.port || (a.port in {0, 4420} && b.port in {0, 4420}))
  {
  }

  /** Does entry t of a batch impose limit `size` on endpoint `e`? */
  predicate Imposes(t: Target?, e: Endpoint, size: int) {
    t != null && t.Key() == e && t.limit == Limit(size) && size != 0 && ValidSize(size)
  }

  /** The floor of an endpoint: the least imposed limit, absent when none is imposed. */
  ghost predicate IsFloor(targets: set<Target?>, e: Endpoint, floor: Limit) {
    match floor
    case Unset => forall t, size | t in targets :: !Imposes(t, e, size)
    case Limit(f) =>
      && (exists t :: t in targets && Imposes(t, e, f))
      && (forall t, size | t in targets && Imposes(t, e, size) :: f <= size)
  }

  /** The floor depends only on which targets are in the batch, not on their order. */
  lemma FloorIsUnique(targets: set<Target?>, e: Endpoint, a: Limit, b: Limit)
    requires IsFloor(targets, e, a) && IsFloor(targets, e, b)
    ensures a == b
  {
    if a.Limit? { var t :| t in targets && Imposes(t, e, a.size); }
    if b.Limit? { var t :| t in targets && Imposes(t, e, b.size); }
  }

  function FloorOf(floors: map<Endpoint, int>, e: Endpoint): Limit {
    if e in floors then Limit(floors[e]) else Unset
  }

  ghost function Prefix(targets: seq<Target?>, n: nat): set<Target?>
    requires n <= |targets|
  {
    set t | t in targets[..n]
  }

  method CollectFloors(targets: seq<Target?>) returns (floors: map<Endpoint, int>)
    ensures forall e :: IsFloor(Prefix(targets, |targets|), e, FloorOf(floors, e))
  {
    floors := map[];
    for i := 0 to |targets|
      invariant forall e :: IsFloor(Prefix(targets, i), e, FloorOf(floors, e))
    {
      var t := targets[i];
      ghost var was := floors;
      if t != null && t.limit.Limit? && t.limit.size != 0 && ValidSize(t.limit.size) {
        var key, size := t.Key(), t.limit.size;
        if key !in floors || size < floors[key] {
          floors := floors[key := size];
        }
      }
      forall e ensures IsFloor(Prefix(targets, i + 1), e, FloorOf(floors, e)) {
        ExtendFloor(Prefix(targets, i), t, e, FloorOf(was, e), FloorOf(floors, e));
        assert Prefix(targets, i + 1) == Prefix(targets, i) + {t};
      }
    }
  }

  lemma ExtendFloor(targets: set<Target?>, t: Target?, e: Endpoint, was: Limit, now: Limit)
    requires IsFloor(targets, e, was)
    requires if t != null && t.limit.Limit? && Imposes(t, e, t.limit.size) && (was.Unset? || t.limit.size < was.size)
             then now == t.limit else now == was
    ensures IsFloor(targets + {t}, e, now)
  {
    if was.Limit? && now == was {
      var u :| u in targets && Imposes(u, e, was.size);
      assert u in targets + {t};
    } else if now.Limit? {
      assert t in targets + {t} && Imposes(t, e, now.size);
    }
  }

  /** Sets the floor of every target in place; a target without one keeps its field. */
  method SetPortMdtsFloors(targets: seq<Target?>)
    modifies set t | t in targets && t != null :: t
    ensures forall t: Target | t in targets ::
              exists f :: IsFloor(Prefix(targets, |targets|), t.Key(), f) &&
                          t.floor == if f.Limit? then f else old(t.floor)
  {
    var floors := CollectFloors(targets);
    ghost var all := Prefix(targets, |targets|);
    for i := 0 to |targets|
      invariant forall t: Target | t in targets[..i] ::
                  t.floor == if t.Key() in floors then Limit(floors[t.Key()]) else old(t.floor)
      invariant forall t: Target | t in targets && t !in targets[..i] :: t.floor == old(t.floor)
    {
      var t := targets[i];
      assert targets[..i + 1] == targets[..i] + [t];
      if t != null && t.Key() in floors {
        t.floor := Limit(floors[t.Key()]);
      }
    }
    forall t: Target | t in targets
      ensures exists f :: IsFloor(all, t.Key(), f) && t.floor == if f.Limit? then f else old(t.floor)
    {
      assert IsFloor(all, t.Key(), FloorOf(floors, t.Key()));
      assert t in targets[..|targets|];
    }
  }

  // ------------------------------------------------------------ linking a batch

  /** The exponent n for which a size is 2^n pages; 0 is no limit. */
  function Exponent(pages: nat): nat {
    if pages <= 1 then 0 else 1 + Exponent(pages / 2)
  }

  function MdtsValue(size: int): nat {
    if size <= 0 then 0 else Exponent(size / UNIT)
  }

  lemma {:induction false} ExponentMonotone(a: nat, b: nat)
    requires a <= b
    ensures Exponent(a) <= Exponent(b)
    decreases b
  {
    if a > 1 { ExponentMonotone(a / 2, b / 2); }
  }

  /** What one export asks of the port: its own limit and the batch floor. */
  datatype Export = Export(limit: Limit, floor: Limit)

  /** `linked` exports share the port; `mdts` is its param_mdts. */
  datatype Port = Port(linked: nat, mdts: nat)

  function IdleSize(x: Export): int {
    var size := if x.limit.Limit? then x.limit.size else 0;
    if x.floor.Limit? && x.floor.size > 0 && (size == 0 || x.floor.size < size) then x.floor.size else size
  }

  /** A port in use accepts an export whose limit its own does not exceed. */
  predicate LinkedPortAllows(p: Port, x: Export) {
    x.limit.Unset? || x.limit.size == 0 || p.mdts == 0 || p.mdts <= MdtsValue(x.limit.size)
  }

  datatype LinkResult = Linked(port: Port) | Conflict

  function LinkTo(p: Port, x: Export): LinkResult {
    if p.linked == 0 then Linked(Port(1, MdtsValue(IdleSize(x))))
    else if LinkedPortAllows(p, x) then Linked(p.(linked := p.linked + 1))
    else Conflict
  }

  predicate AllLink(p: Port, xs: seq<Export>)
    decreases |xs|
  {
    xs == [] || (LinkTo(p, xs[0]).Linked? && AllLink(LinkTo(p, xs[0]).port, xs[1..]))
  }

  /** The exports of one endpoint after SetPortMdtsFloors; invalid limits never reach a port. */
  predicate SameFloor(xs: seq<Export>, floor: Limit) {
    forall i | 0 <= i < |xs| ::
      && xs[i].floor == floor
      && (xs[i].limit.Limit? ==>
            && ValidSize(xs[i].limit.size)
            && (xs[i].limit.size != 0 ==> floor.Limit? && MIN_SIZE <= floor.size <= xs[i].limit.size))
  }

  lemma {:induction false} UsedPortFitsAll(p: Port, xs: seq<Export>, floor: Limit)
    requires SameFloor(xs, floor) && p.linked > 0
    requires p.mdts == if floor.Limit? then MdtsValue(floor.size) else 0
    ensures AllLink(p, xs)
    decreases |xs|
  {
    if xs != [] {
      if xs[0].limit.Limit? && xs[0].limit.size != 0 {
        ExponentMonotone(floor.size / UNIT, xs[0].limit.size / UNIT);
      }
      UsedPortFitsAll(p.(linked := p.linked + 1), xs[1..], floor);
    }
  }

  /** Linking a batch on an idle port, in any order, never meets an MDTS conflict. */
  lemma BatchNeverConflicts(xs: seq<Export>, floor: Limit, mdts: nat)
    requires SameFloor(xs, floor) && (floor.Limit? ==> floor.size > 0)
    ensures AllLink(Port(0, mdts), xs)
  {
    if xs != [] {
      UsedPortFitsAll(Port(1, MdtsValue(IdleSize(xs[0]))), xs[1..], floor);
    }
  }

  // -------------------------------------------------------- limits in bytes

  function Pow2(n: nat): nat {
    if n == 0 then 1 else 2 * Pow2(n - 1)
  }

  /** The limit in bytes that a port advertises; param_mdts 0 is none. */
  function Advertised(mdts: nat): nat {
    if mdts == 0 then 0 else UNIT * Pow2(mdts)
  }

  lemma {:induction false} PowerOfTwoSplits(v: nat, k: nat) returns (q: nat)
    requires IsPowerOfTwo(v) && Pow2(k) <= v
    ensures v == Pow2(k) * q && IsPowerOfTwo(q)
    decreases k
  {
    if k == 0 {
      q := v;
    } else {
      Pow2Positive(k);
      q := PowerOfTwoSplits(v / 2, k - 1);
      var a := Pow2(k - 1);
      assert v == 2 * (a * q) == (2 * a) * q;
    }
  }

  lemma {:induction false} ExponentInverts(pages: nat)
    requires IsPowerOfTwo(pages)
    ensures Pow2(Exponent(pages)) == pages
    decreases pages
  {
    if pages > 1 { ExponentInverts(pages / 2); }
  }

  lemma {:induction false} PowersOfTwo(n: nat)
    ensures IsPowerOfTwo(Pow2(n)) && Pow2(n) >= 1
  {
    if n > 0 {
      PowersOfTwo(n - 1);
      var half := Pow2(n - 1);
      assert (2 * half) / 2 == half && (2 * half) % 2 == 0;
    }
  }

  lemma Bounds()
    ensures Pow2(12) == UNIT && Pow2(13) == MIN_SIZE && Pow2(30) == MAX_SIZE
  {
    assert Pow2(4) == 16;
    assert Pow2(8) == 256;
    assert Pow2(12) == 4096;
    assert Pow2(16) == 65536;
    assert Pow2(20) == 0x10_0000;
    assert Pow2(24) == 0x100_0000;
    assert Pow2(28) == 0x1000_0000;
  }

  /** The sizes an export may ask for: none, or 2^13 to 2^30 bytes. */
  lemma ValidSizeIff(v: nat)
    ensures ValidSize(v) <==> v == 0 || exists n :: 13 <= n <= 30 && v == Pow2(n)
  {
    Bounds();
    if ValidSize(v) && v != 0 {
      ExponentInverts(v);
      Pow2Monotone(13, Exponent(v));
      Pow2Monotone(Exponent(v), 30);
    } else if n :| 13 <= n <= 30 && v == Pow2(n) {
      PowersOfTwo(n);
      Pow2Monotone(13, n);
      Pow2Monotone(n, 30);
    }
  }

  /** A valid size survives its encoding, and no limit stays no limit. */
  lemma SizeRoundTrips(size: int)
    requires ValidSize(size)
    ensures Advertised(MdtsValue(size)) == size
  {
    if size > 0 {
      Bounds();
      var pages := PowerOfTwoSplits(size, 12);
      assert size / UNIT == pages;
      ExponentInverts(pages);
    }
  }

  lemma {:induction false} Pow2Monotone(a: nat, b: nat)
    ensures a <= b <==> Pow2(a) <= Pow2(b)
    decreases a
  {
    if a > 0 && b > 0 { Pow2Monotone(a - 1, b - 1); } else { Pow2Positive(a); Pow2Positive(b); }
  }

  lemma {:induction false} Pow2Positive(n: nat)
    ensures Pow2(n) >= 1 && (n > 0 ==> Pow2(n) >= 2)
  {
    if n > 0 { Pow2Positive(n - 1); }
  }

  /** A port in use refuses an export exactly when it advertises more bytes than the export allows. */
  lemma ConflictIff(p: Port, x: Export)
    requires p.linked > 0 && (x.limit.Limit? ==> ValidSize(x.limit.size))
    ensures LinkTo(p, x).Conflict? <==>
            x.limit.Limit? && x.limit.size > 0 && Advertised(p.mdts) > x.limit.size
  {
    if x.limit.Limit? && x.limit.size > 0 {
      SizeRoundTrips(x.limit.size);
      Pow2Monotone(p.mdts, MdtsValue(x.limit.size));
    }
  }

  /** An idle port takes the smaller of the export's limit and the floor; zero and absence are no limit. */
  lemma IdlePortAdvertises(x: Export, mdts: nat)
    requires (x.limit.Limit? ==> ValidSize(x.limit.size)) && (x.floor.Limit? ==> ValidSize(x.floor.size))
    ensures var r := LinkTo(Port(0, mdts), x);
            var limit, floor := if x.limit.Limit? then x.limit.size else 0, if x.floor.Limit? then x.floor.size else 0;
            && r.Linked? && r.port.linked == 1
            && (Advertised(r.port.mdts) == limit || Advertised(r.port.mdts) == floor)
            && (limit > 0 ==> 0 < Advertised(r.port.mdts) <= limit)
            && (floor > 0 ==> 0 < Advertised(r.port.mdts) <= floor)
  {
    SizeRoundTrips(IdleSize(x));
  }

  /** The port after the whole batch is linked. */
  function LinkedPort(p: Port, xs: seq<Export>): Port
    requires AllLink(p, xs)
    decreases |xs|
  {
    if xs == [] then p else LinkedPort(LinkTo(p, xs[0]).port, xs[1..])
  }

  lemma {:induction false} UsedPortKeepsMdts(p: Port, xs: seq<Export>)
    requires AllLink(p, xs) && p.linked > 0
    ensures LinkedPort(p, xs) == Port(p.linked + |xs|, p.mdts)
    decreases |xs|
  {
    if xs != [] { UsedPortKeepsMdts(LinkTo(p, xs[0]).port, xs[1..]); }
  }

  /** A batch on an idle port leaves it advertising the floor, so no export is offered more than it allows. */
  lemma BatchAdvertisesTheFloor(xs: seq<Export>, floor: Limit, mdts: nat)
    requires SameFloor(xs, floor) && xs != [] && (floor.Limit? ==> floor.size > 0 && ValidSize(floor.size))
    ensures AllLink(Port(0, mdts), xs)
    ensures LinkedPort(Port(0, mdts), xs).linked == |xs|
    ensures Advertised(LinkedPort(Port(0, mdts), xs).mdts) == if floor.Limit? then floor.size else 0
    ensures forall i | 0 <= i < |xs| && xs[i].limit.Limit? && xs[i].limit.size > 0 ::
              0 < Advertised(LinkedPort(Port(0, mdts), xs).mdts) <= xs[i].limit.size
  {
    BatchNeverConflicts(xs, floor, mdts);
    var p := LinkTo(Port(0, mdts), xs[0]).port;
    UsedPortKeepsMdts(p, xs[1..]);
    if floor.Limit? { SizeRoundTrips(floor.size); }
  }

  /** What the targets ask of their port, with the floors they hold. */
  function Asked(order: seq<Target>): (r: seq<Export>)
    reads order
    ensures |r| == |order| && forall i | 0 <= i < |order| :: r[i] == Export(order[i].limit, order[i].floor)
  {
    if order == [] then [] else [Export(order[0].limit, order[0].floor)] + Asked(order[1..])
  }

  /** `order` lists targets of the batch that share endpoint e; invalid limits never reach a port. */
  predicate OnEndpoint(targets: seq<Target?>, e: Endpoint, order: seq<Target>) {
    forall i | 0 <= i < |order| ::
      order[i] in targets && order[i].Key() == e && (order[i].limit.Limit? ==> ValidSize(order[i].limit.size))
  }

  lemma FloorsServeEveryOrder(targets: seq<Target?>, e: Endpoint, floor: Limit, order: seq<Target>, mdts: nat)
    requires IsFloor(Prefix(targets, |targets|), e, floor) && OnEndpoint(targets, e, order)
    requires forall i | 0 <= i < |order| :: order[i].floor == floor
    ensures AllLink(Port(0, mdts), Asked(order))
  {
    forall i | 0 <= i < |order| && order[i].limit.Limit? && order[i].limit.size != 0
      ensures floor.Limit? && MIN_SIZE <= floor.size <= order[i].limit.size
    {
      assert order[i] in targets[..|targets|];
      assert order[i] in Prefix(targets, |targets|) && Imposes(order[i], e, order[i].limit.size);
    }
    BatchNeverConflicts(Asked(order), floor, mdts);
  }

  /** After the floors of a fresh batch are set, its targets link to an idle port in any order. */
  method PreparePorts(targets: seq<Target?>)
    requires forall t: Target | t in targets :: t.floor.Unset?
    modifies set t | t in targets && t != null :: t
    ensures forall e: Endpoint, order: seq<Target>, mdts: nat | OnEndpoint(targets, e, order) :: AllLink(Port(0, mdts), Asked(order))
  {
    SetPortMdtsFloors(targets);
    forall e: Endpoint, order: seq<Target>, mdts: nat | OnEndpoint(targets, e, order)
      ensures AllLink(Port(0, mdts), Asked(order))
    {
      if order != [] {
        var floor := order[0].floor;
        forall i | 0 <= i < |order|
          ensures order[i].floor == floor && IsFloor(Prefix(targets, |targets|), e, floor)
        {
          var f :| IsFloor(Prefix(targets, |targets|), e, f) && order[i].floor == f;
          var g :| IsFloor(Prefix(targets, |targets|), e, g) && order[0].floor == g;
          FloorIsUnique(Prefix(targets, |targets|), e, f, g);
        }
        assert order[0].floor == floor && IsFloor(Prefix(targets, |targets|), e, floor);
        FloorsServeEveryOrder(targets, e, floor, order, mdts);
      }
    }
  }
}
