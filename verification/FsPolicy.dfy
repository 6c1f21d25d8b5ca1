/**
 The NFS policy of an adopted filesystem and the record of it in the mark.  The
 record has to bound the clients the manager admits: teardown trusts it.
 */
module FsPolicy {
  import opened Marks

  /** Whom the NFS manager admits; `Open` is everybody. */
  datatype Policy = NoExport | Open | Acl(clients: set<string>)

  predicate Admits(p: Policy, client: string) {
    p.Open? || (p.Acl? && client in p.clients)
  }

  ghost predicate NobodyAdmitted(p: Policy) {
    forall client :: !Admits(p, client)
  }

  predicate Recorded(m: FsState, client: string) {
    m.exported && (m.open || client in m.clients)
  }

  /** An export is recorded, and so is every client it admits. */
  predicate Covers(m: FsState, p: Policy) {
    p.NoExport? || (m.exported && (m.open || (p.Acl? && forall c | c in p.clients :: c in m.clients)))
  }

  /** The ACL mode of a volume's exports never changes. */
  predicate ModeOk(acl: bool, m: FsState, p: Policy) {
    if acl then !m.open && !p.Open? else !p.Acl?
  }

  // ------------------------------------------------------------ client lists

  function SetOf(s: seq<string>): set<string> {
    set c | c in s
  }

  function Grow(clients: seq<string>, more: seq<string>): (r: seq<string>)
    ensures clients <= r && forall c :: c in r <==> c in clients || c in more
  {
    if more == [] then clients
    else
      var rest := Grow(clients, more[..|more| - 1]);
      var last := more[|more| - 1];
      assert more == more[..|more| - 1] + [last];
      if last in rest then rest else rest + [last]
  }

  /** The clients to hand to the manager, and the record grown to include them. */
  method DesiredClients(clients: seq<string>, exact: bool, canonical: seq<string>)
    returns (recorded: seq<string>, desired: seq<string>)
    ensures recorded == if exact then Grow(clients, canonical) else clients
    ensures desired == if exact then canonical else clients
  {
    if !exact { return clients, clients; }
    recorded := clients;
    for i := 0 to |canonical|
      invariant recorded == Grow(clients, canonical[..i])
    {
      assert canonical[..i + 1][..i] == canonical[..i];
      if canonical[i] !in recorded {
        recorded := recorded + [canonical[i]];
      }
    }
    assert canonical[..|canonical|] == canonical;
    return recorded, canonical;
  }

  function Without(clients: seq<string>, client: string): (r: seq<string>)
    ensures forall c :: c in r <==> c in clients && c != client
  {
    if clients == [] then []
    else
      assert clients == [clients[0]] + clients[1..];
      (if clients[0] == client then [] else [clients[0]]) + Without(clients[1..], client)
  }

  // ------------------------------------------- updates of record and policy

  /** The record grows before the manager publishes anything. */
  function BeforePut(m: FsState, acl: bool, exact: bool, clients: seq<string>): FsState {
    m.(open := m.open || !acl, exported := true, clients := if exact then Grow(m.clients, clients) else m.clients)
  }

  /** An ordinary export keeps the grants of an ACL export; an exact one replaces them. */
  function PutPolicy(was: Policy, acl: bool, exact: bool, desired: seq<string>): Policy {
    if !acl then Open
    else if !exact && was.Acl? then was
    else Acl(SetOf(desired))
  }

  /** The record shrinks only after the manager committed the new policy. */
  function AfterPut(m: FsState, acl: bool, exact: bool, clients: seq<string>): FsState {
    m.(open := !acl, clients := if !acl then [] else if exact then clients else m.clients)
  }

  /** While a volume is open its grants are not recorded one by one. */
  function Granted(m: FsState, client: string): FsState {
    if !m.open && client !in m.clients then m.(clients := m.clients + [client]) else m
  }

  function Denied(m: FsState, client: string): FsState {
    m.(clients := Without(m.clients, client))
  }

  /** A client change has no effect on an export without ACL. */
  function ChangePolicy(p: Policy, client: string, allow: bool): Policy {
    if !p.Acl? then p
    else Acl(if allow then p.clients + {client} else p.clients - {client})
  }

  function Withdrawn(m: FsState): FsState {
    m.(clients := [], open := false, exported := false)
  }

  // ------------------------------------------------------------------- laws

  /** The record written before Put covers both the old and the new policy. */
  lemma RecordGrowsFirst(m: FsState, p: Policy, acl: bool, exact: bool, clients: seq<string>)
    requires Covers(m, p)
    ensures var m' := BeforePut(m, acl, exact, clients);
            Covers(m', p) && Covers(m', PutPolicy(p, acl, exact, if exact then clients else m.clients))
  {
  }

  /**
   The record written after Put covers the new policy exactly when an ordinary
   ACL export did not keep a grant that the record never listed.
   */
  lemma ShrinkIsCoveredIff(m: FsState, p: Policy, acl: bool, exact: bool, clients: seq<string>)
    requires Covers(m, p)
    ensures var next := PutPolicy(p, acl, exact, if exact then clients else m.clients);
            Covers(AfterPut(BeforePut(m, acl, exact, clients), acl, exact, clients), next) <==>
            (acl && !exact && p.Acl? ==> forall c | c in p.clients :: c in m.clients)
  {
  }

  /** With a fixed ACL mode no such grant exists, so the record covers the policy again. */
  lemma FixedModeIsCovered(m: FsState, p: Policy, acl: bool, exact: bool, clients: seq<string>)
    requires Covers(m, p) && ModeOk(acl, m, p)
    ensures var next := PutPolicy(p, acl, exact, if exact then clients else m.clients);
            var m' := AfterPut(BeforePut(m, acl, exact, clients), acl, exact, clients);
            Covers(m', next) && ModeOk(acl, m', next)
  {
    ShrinkIsCoveredIff(m, p, acl, exact, clients);
  }

  lemma GrantIsCovered(m: FsState, p: Policy, client: string)
    requires Covers(m, p)
    ensures Covers(Granted(m, client), p)
    ensures m.exported ==> Covers(Granted(m, client), ChangePolicy(p, client, true))
  {
  }

  /** A denial shrinks the policy first: the old record still covers it, and so does the new one. */
  lemma DenyIsCovered(m: FsState, p: Policy, client: string)
    requires Covers(m, p)
    ensures Covers(m, ChangePolicy(p, client, false))
    ensures Covers(Denied(m, client), ChangePolicy(p, client, false))
    ensures !Admits(ChangePolicy(p, client, false), client) || p.Open?
  {
  }

  /**
   Changing the ACL mode defeats the record: an open export, an ACL export that
   fails after the manager committed it, a grant and a retried ACL export leave
   a client admitted that the record does not list.
   */
  lemma ModeChangeLosesAClient(client: string)
    ensures var m0 := AfterPut(BeforePut(NO_FS, false, false, []), false, false, []);
            var p0 := PutPolicy(NoExport, false, false, []);
            var m1 := BeforePut(m0, true, false, []);
            var p1 := PutPolicy(p0, true, false, m0.clients);
            var m2 := Granted(m1, client);
            var p2 := ChangePolicy(p1, client, true);
            var m3 := AfterPut(BeforePut(m2, true, false, []), true, false, []);
            var p3 := PutPolicy(p2, true, false, m2.clients);
            && Covers(m0, p0) && Covers(m1, p1) && Covers(m2, p2)
            && Admits(p3, client) && !m3.open && m3.clients == [] && !Covers(m3, p3)
  {
    var p1 := PutPolicy(Open, true, false, []);
    assert client in ChangePolicy(p1, client, true).clients;
  }
}
