/**
 One adopted native filesystem: its mark, its NFS policy and its proxy mount
 point, changed step by step by the filesystem operations.  Every step is kept
 in a trail, so that a crash may resume from the middle of an operation.  The
 ghost parameter `allowed` names the disks that a section may leave: all of
 them, or those that the fencing machine reaches.
 */
module AdoptedFilesystems {
  import opened Marks
  import opened FsAdmission
  import opened FsPolicy
  import opened FsSafety
  import FenceMachine
  import FencePrograms
  import FsRefinement

  class AdoptedFilesystem {
    const acl: bool               // the ACL mode of the volume's exports
    var disk: seq<Option<Mark>>   // durable mark first, visible mark last
    var wrote: seq<FsWrite>       // the writes of the current mutation
    var nfs: Policy
    var dir: Dir
    var trail: seq<Snap>          // the steps of the current section
    var met: set<Uid>             // lifecycles a release of this process found as owner
    var leaving: set<Token>       // releases of this process whose teardown still stands
    ghost var may: iset<Disk>     // the disks that the current section may leave

    constructor (acl: bool, dir: Dir)
      ensures Valid() && this.acl == acl && this.dir == dir && disk == [None] && nfs == NoExport
    {
      this.acl, this.dir := acl, dir;
      disk, nfs, met, leaving, wrote := [None], NoExport, {}, {}, [];
      trail := [Snap([None], NoExport, dir)];
      may := iset{[None]};
    }

    function Now(): Snap
      reads this
    {
      Snap(disk, nfs, dir)
    }

    ghost predicate Steady()
      reads this
    {
      trail != [] && trail[|trail| - 1] == Now() && TrailOk(acl, trail) && DisksOk(may, trail)
    }

    ghost predicate Valid()
      reads this
    {
      Steady() && Remembers(Last(disk), nfs, met, leaving)
    }

    lemma VisibleOk()
      requires Steady()
      ensures SnapOk(acl, Now()) && MarkOk(acl, nfs, Last(disk))
    {
      assert SnapOk(acl, trail[|trail| - 1]);
    }

    function NextPolicy(p: Policy, f: FsState, exact: bool, clients: seq<string>): Policy {
      PutPolicy(p, acl, exact, if exact then clients else f.clients)
    }

    /** The mutation of `base` has written f last. */
    ghost predicate At(base: Mark, f: FsState)
      reads this
    {
      && Steady() && AllowsWrites(may, base) && SameSource(base.fs, f)
      && disk == [Some(WithFs(base, f))] && disk == Replay(base, wrote) && AllDurable(wrote)
    }

    /** The mutation of `base` changed the mark only in filesystem fields, by the writes on record. */
    predicate Wrote(base: Mark)
      reads this
    {
      OnlyFs(disk, base) && disk == Replay(base, wrote) && StopsAtFailure(wrote)
    }

    /** The visible mark is what the mutation found, with at most the claim added. */
    predicate ClaimedAtMost(base: Mark, f: FsState)
      reads this
    {
      && Wrote(base)
      && (Last(disk) == Some(WithFs(base, f)) || Last(disk) == Some(WithFs(base, f.(proxyClaimed := true))))
    }

    lemma AtOk(base: Mark, f: FsState)
      requires At(base, f)
      ensures FsOk(acl, nfs, f) && WellFormed(WithFs(base, f)) && (base.ended ==> nfs.NoExport?)
    {
      VisibleOk();
    }

    // ------------------------------------------------------------ single steps

    method Begin(ghost allowed: iset<Disk>)
      requires Valid() && disk in allowed
      modifies this`trail, this`may
      ensures Valid() && trail == [Now()] && may == allowed
    {
      assert SnapOk(acl, trail[|trail| - 1]);
      trail := [Snap(disk, nfs, dir)];
      may := allowed;
    }

    method SetDisk(d: seq<Option<Mark>>)
      requires Steady() && SnapOk(acl, Snap(d, nfs, dir)) && d in may
      modifies this`disk, this`trail
      ensures Steady() && disk == d && trail[0] == old(trail[0])
    {
      TrailGrows(acl, trail, Snap(d, nfs, dir));
      DisksGrow(may, trail, Snap(d, nfs, dir));
      disk := d;
      trail := trail + [Snap(disk, nfs, dir)];
    }

    method SetNfs(p: Policy)
      requires Steady() && SnapOk(acl, Snap(disk, p, dir))
      modifies this`nfs, this`trail
      ensures Steady() && nfs == p && trail[0] == old(trail[0])
    {
      TrailGrows(acl, trail, Snap(disk, p, dir));
      DisksGrow(may, trail, Snap(disk, p, dir));
      nfs := p;
      trail := trail + [Snap(disk, nfs, dir)];
    }

    method SetDir(d: Dir)
      requires Steady() && DirStep(Now(), Snap(disk, nfs, d))
      modifies this`dir, this`trail
      ensures Steady() && dir == d && trail[0] == old(trail[0])
    {
      assert SnapOk(acl, trail[|trail| - 1]);
      TrailGrows(acl, trail, Snap(disk, nfs, d));
      DisksGrow(may, trail, Snap(disk, nfs, d));
      dir := d;
      trail := trail + [Snap(disk, nfs, dir)];
    }

    method Write(m: Mark, io: WriteIo) returns (ok: bool)
      requires Steady() && MarkOk(acl, nfs, Some(m))
      requires disk + [Some(m)] in may && [Some(m)] in may
      modifies this`disk, this`trail
      ensures Steady() && trail[0] == old(trail[0])
      ensures ok <==> io.Durable?
      ensures disk == match io
              case NotRenamed => old(disk)
              case SyncLost => old(disk) + [Some(m)]
              case Durable => [Some(m)]
    {
      assert SnapOk(acl, trail[|trail| - 1]);
      if io.NotRenamed? { return false; }
      SetDisk(disk + [Some(m)]);
      if io.SyncLost? { return false; }
      SetDisk([Some(m)]);
      return true;
    }

    method Resync(io: WriteIo) returns (ok: bool)
      requires Steady() && (disk != [] ==> [Last(disk)] in may)
      modifies this`disk, this`trail
      ensures Steady() && trail[0] == old(trail[0])
      ensures ok <==> io.Durable?
      ensures old(disk) != [] && disk == if ok then [Last(old(disk))] else old(disk)
    {
      assert SnapOk(acl, trail[|trail| - 1]);
      if !io.Durable? { return false; }
      SetDisk([disk[|disk| - 1]]);
      return true;
    }

    method Persist(m: Mark, changed: bool, io: WriteIo) returns (ok: bool)
      requires Steady() && MarkOk(acl, nfs, Some(m)) && (changed || disk == [] || Last(disk) == Some(m))
      requires (changed ==> disk + [Some(m)] in may) && [Some(m)] in may
      modifies this`disk, this`trail
      ensures Steady() && trail[0] == old(trail[0]) && disk != []
      ensures ok <==> io.Durable?
      ensures ok ==> disk == [Some(m)]
      ensures !ok ==> disk == if changed && io.SyncLost? then old(disk) + [Some(m)] else old(disk)
    {
      if changed { ok := Write(m, io); } else { ok := Resync(io); }
    }

    /** A manager call that moves the policy to p, or fails before or after doing so. */
    method Manage(p: Policy, io: NfsIo) returns (ok: bool)
      requires Steady() && SnapOk(acl, Snap(disk, p, dir))
      modifies this`nfs, this`trail
      ensures Steady() && trail[0] == old(trail[0])
      ensures ok <==> io.Applied?
      ensures nfs == if io.FailedBefore? then old(nfs) else p
    {
      if io.FailedBefore? { return false; }
      SetNfs(p);
      return io.Applied?;
    }

    // --------------------------------------------------------------- admission

    /** Makes an admitted mark durable and forgets the teardowns that its grant overtakes. */
    method Enter(token: Token, r: FsRequest, env: Env, next: Mark, changed: bool) returns (ok: bool)
      requires Valid() && Allows(may, disk, token, r)
      requires !r.op.Destroy? && !r.importing && disk != [] && MarkOk(acl, nfs, Last(disk))
      requires Decide(token, r, env.pinOk, Last(disk)) == Go(next, changed)
      modifies this`disk, this`trail, this`leaving
      ensures Valid() && trail[0] == old(trail[0])
      ensures Standing(old(leaving), r.op, token) == leaving
      ensures ok <==> env.persist.Durable?
      ensures ok ==> disk == [Some(next)] && AllowsWrites(may, next)
      ensures ok && r.op.Grant? ==> forall t | t in leaving :: t.uid != token.uid
    {
      var stored := disk[|disk| - 1];
      DecisionIsSafe(acl, nfs, token, r, env.pinOk, stored);
      assert [Some(next)] == Replay(next, []);
      leaving := Standing(leaving, r.op, token);
      MemorySurvives(stored, nfs, Some(next), nfs, met, leaving);
      if r.op.Grant? { GrantsAreForOthers(token, stored, nfs, met, leaving); }
      ok := Persist(next, changed, env.persist);
    }

    /** Admits a request of the owning lifecycle and makes its token durable before anything else. */
    method Open(token: Token, r: FsRequest, env: Env, ghost allowed: iset<Disk>) returns (o: Opening)
      requires Valid() && Allows(allowed, disk, token, r) && !r.op.Destroy? && !r.importing
      modifies this`disk, this`wrote, this`trail, this`leaving, this`may
      ensures Valid() && trail[0] == old(Now()) && may == allowed
      ensures Standing(old(leaving), r.op, token) <= leaving <= old(leaving)
      ensures o.Opened? ==>
                && At(o.mark, o.mark.fs) && !o.mark.ended
                && o.mark.uid == token.uid && o.mark.gen == token.gen && SameUse(old(Last(disk)), o.mark)
                && (r.op.Grant? ==> forall t | t in leaving :: t.uid != token.uid)
                && Admissible(token, r, Some(o.mark))
                && Admissible(token, r, old(Last(disk))) && (r.capacity > 0 ==> env.pinOk)
      ensures o.Skipped? ==>
                && Now() == old(Now()) && r.op.Revoke? && WellFormedDisk(Last(disk))
                && !Owns(Last(disk), token) && Admit(token, r.op, Last(disk)).Admitted?
      ensures Calm(env) ==> (o.Opened? <==> Admissible(token, r, old(Last(disk))))
    {
      Begin(allowed);
      VisibleOk();
      DecisionIff(token, r, env.pinOk, disk[|disk| - 1]);
      match Decide(token, r, env.pinOk, disk[|disk| - 1])
      case NoWork => return Skipped;
      case Deny => return Refused;
      case Go(next, changed) =>
        DecisionIsSafe(acl, nfs, token, r, env.pinOk, disk[|disk| - 1]);
        DecidedMarkIs(token, r, env.pinOk, disk[|disk| - 1]);
        wrote := [];
        var ok := Enter(token, r, env, next, changed);
        return if ok then Opened(next) else Refused;
    }

    // ------------------------------------------------------------------- proxy

    /** Moves the directory of an owned proxy. */
    method MoveDir(base: Mark, f: FsState, d: Dir)
      requires At(base, f)
      requires if dir.Absent? then f.proxyClaimed else OwnsProxy(f)
      modifies this`dir, this`trail
      ensures Steady() && dir == d && trail[0] == old(trail[0])
    {
      SetDir(d);
    }

    /** Records the claim of a target that does not exist yet. */
    method ClaimTarget(base: Mark, f: FsState, io: ProxyIo) returns (ok: bool)
      requires At(base, f)
      modifies this`disk, this`wrote, this`trail
      ensures Steady() && trail[0] == old(trail[0]) && ClaimedAtMost(base, f)
      ensures if dir.Absent? then ok ==> At(base, f.(proxyClaimed := true)) else At(base, f)
      ensures ok <==> io.statOk && if dir.Absent? then io.claim.Durable? else io.directory
    {
      VisibleOk();
      if !io.statOk { return false; }
      if dir.Present? { return io.directory; }
      AtOk(base, f);
      ok := WriteFs(base, f, f.(proxyClaimed := true), io.claim);
    }

    /** Makes sure the target exists; a directory is made only when its claim is durable. */
    method EnsureTarget(base: Mark, f: FsState, io: ProxyIo) returns (ok: bool, created: bool)
      requires At(base, f) && (dir.Absent? ==> f.proxyClaimed)
      modifies this`dir, this`trail
      ensures Steady() && trail[0] == old(trail[0])
      ensures created <==> ok && old(dir).Absent?
      ensures ok ==> dir == if created then Present(false, true) else old(dir)
      ensures ok <==> io.parentOk && (old(dir).Absent? ==> io.mkdir.Made?)
      ensures !ok ==> dir == if io.parentOk && io.mkdir == BadMode(false) then Present(false, true) else old(dir)
    {
      if !io.parentOk { return false, false; }
      if dir.Present? { return true, false; }
      if io.mkdir.NotMade? { return false, false; }
      MoveDir(base, f, Present(false, true));
      if io.mkdir.Made? { return true, true; }
      if io.mkdir.removed { MoveDir(base, f, Absent); }
      return false, false;
    }

    /** Mounts the pinned filesystem and rolls back what this call created. */
    method MountProxy(base: Mark, f: FsState, created: bool, io: ProxyIo) returns (ok: bool)
      requires At(base, f) && f.proxyClaimed && dir.Present? && !dir.mounted
      modifies this`dir, this`trail
      ensures Steady() && trail[0] == old(trail[0])
      ensures ok <==> io.mountOk && io.verifyOk
      ensures dir ==
              if ok || (io.mountOk && !io.unmountOk) then old(dir).(mounted := true)
              else if created && io.removeOk then Absent else old(dir)
    {
      var empty := dir.empty;
      if io.mountOk {
        MoveDir(base, f, Present(true, empty));
        if io.verifyOk { return true; }
        if !io.unmountOk { return false; }
        MoveDir(base, f, Present(false, empty));
      }
      if created && io.removeOk { MoveDir(base, f, Absent); }
      return false;
    }

    /** A target that exists has to be owned, and empty unless it is mounted. */
    method InspectTarget(base: Mark, g: FsState, created: bool, owns: bool, io: ProxyIo) returns (ok: bool)
      requires At(base, g) && dir.Present? && (created ==> g.proxyClaimed && !dir.mounted)
      modifies this`dir, this`trail
      ensures Steady() && trail[0] == old(trail[0])
      ensures dir == if created && !io.queryOk && io.removeOk then Absent else old(dir)
      ensures ok <==> io.queryOk && (created || (owns && (old(dir).mounted || (io.readOk && old(dir).empty))))
    {
      if !io.queryOk {
        if created && io.removeOk { MoveDir(base, g, Absent); }
        return false;
      }
      if !created && !owns { return false; }
      return dir.mounted || created || (io.readOk && dir.empty);
    }

    method PrepareTarget(base: Mark, f: FsState, io: ProxyIo) returns (ok: bool, g: FsState, created: bool)
      requires At(base, f)
      modifies this`disk, this`wrote, this`dir, this`trail
      ensures Steady() && trail[0] == old(trail[0]) && ClaimedAtMost(base, f)
      ensures ok ==>
                && g == f.(proxyClaimed := true) && At(base, g) && dir.Present?
                && (created <==> old(dir).Absent?)
      ensures ok ==> dir == if old(dir).Absent? then Present(false, true) else old(dir)
      ensures ok <==> TargetFits(io, old(dir), f)
      ensures !ok && Undoes(io) ==> dir == old(dir)
      ensures old(dir).Present? ==> dir == old(dir)
    {
      AtOk(base, f);
      ok, g, created := false, f, false;
      var owns, existed := OwnsProxy(f), dir.Present?;
      var claimed := ClaimTarget(base, f, io);
      if !claimed { return; }
      if !existed { g := f.(proxyClaimed := true); }
      ok, created := MakeTarget(base, g, owns, io);
    }

    method MakeTarget(base: Mark, g: FsState, owns: bool, io: ProxyIo) returns (ok: bool, created: bool)
      requires At(base, g) && (dir.Absent? ==> g.proxyClaimed)
      modifies this`dir, this`trail
      ensures Steady() && trail[0] == old(trail[0])
      ensures ok ==> (created <==> old(dir).Absent?)
      ensures ok ==> dir == if old(dir).Absent? then Present(false, true) else old(dir)
      ensures ok <==>
              && io.parentOk && io.queryOk
              && if old(dir).Absent? then io.mkdir.Made?
                 else owns && (old(dir).mounted || (io.readOk && old(dir).empty))
      ensures !ok && Undoes(io) ==> dir == old(dir)
      ensures old(dir).Present? ==> dir == old(dir)
    {
      var made;
      ok := false;
      made, created := EnsureTarget(base, g, io);
      if !made { return; }
      ok := InspectTarget(base, g, created, owns, io);
    }

    method EnsureProxy(base: Mark, f: FsState, io: ProxyIo) returns (ok: bool, g: FsState)
      requires At(base, f)
      modifies this`disk, this`wrote, this`dir, this`trail
      ensures Steady() && trail[0] == old(trail[0]) && ClaimedAtMost(base, f)
      ensures ok ==> g == f.(proxyClaimed := true) && At(base, g)
      ensures ok ==> dir.Present? && dir.mounted
      ensures old(dir).Present? && (old(dir).mounted || !old(dir).empty || !OwnsProxy(f)) ==> dir == old(dir)
      ensures ok ==> Usable(old(dir), f)
      ensures ok <==> io.ready && TargetFits(io, old(dir), f) && Mounts(io, old(dir))
      ensures !ok && Undoes(io) ==> dir == old(dir)
      ensures Smooth(io) ==> (ok <==> Usable(old(dir), f))
    {
      if !io.ready { return false, f; }
      var created;
      ok, g, created := PrepareTarget(base, f, io);
      if !ok { return; }
      if dir.mounted {
        ok := io.verifyOk;
      } else {
        ok := MountProxy(base, g, created, io);
      }
    }

    /** Unmounts and removes the owned target; a missing one is already removed. */
    method RemoveProxy(base: Mark, f: FsState, io: ProxyIo) returns (ok: bool)
      requires At(base, f)
      modifies this`dir, this`trail
      ensures Steady() && trail[0] == old(trail[0])
      ensures ok ==> dir.Absent? && Removable(old(dir), f)
      ensures ok <==>
              && io.ready && io.statOk && Removable(old(dir), f)
              && (old(dir).Present? ==>
                    io.directory && io.queryOk && io.removeOk && (old(dir).mounted ==> io.unmountOk))
      ensures !ok ==> dir == old(dir) || (old(dir).Present? && io.unmountOk && dir == old(dir).(mounted := false))
      ensures old(dir).Present? && !OwnsProxy(f) ==> dir == old(dir)
    {
      if !io.ready || !io.statOk { return false; }
      if dir.Absent? { return true; }
      if !OwnsProxy(f) || !io.directory || !io.queryOk { return false; }
      var empty := dir.empty;
      if dir.mounted {
        if !io.unmountOk { return false; }
        MoveDir(base, f, Present(false, empty));
      }
      if !io.removeOk || !empty { return false; }
      MoveDir(base, f, Absent);
      return true;
    }

    // --------------------------------------------------------------- mutations

    method WriteFs(base: Mark, f: FsState, g: FsState, io: WriteIo) returns (ok: bool)
      requires At(base, f) && FsOk(acl, nfs, g) && SameSource(base.fs, g)
      modifies this`disk, this`wrote, this`trail
      ensures Steady() && trail[0] == old(trail[0]) && Wrote(base)
      ensures ok ==> At(base, g)
      ensures ok <==> io.Durable?
      ensures Last(disk) == Some(WithFs(base, f)) || Last(disk) == Some(WithFs(base, g))
    {
      AtOk(base, f);
      AllowWrite(may, base, wrote, g);
      ReplayOne(base, wrote, FencePrograms.FsWrite(g, io));
      wrote := wrote + [FencePrograms.FsWrite(g, io)];
      ok := Write(WithFs(base, g), io);
    }

    method ManageFs(base: Mark, f: FsState, p: Policy, io: NfsIo) returns (ok: bool)
      requires At(base, f) && FsOk(acl, p, f) && (base.ended ==> p.NoExport?)
      modifies this`nfs, this`trail
      ensures At(base, f) && trail[0] == old(trail[0])
      ensures ok <==> io.Applied?
      ensures nfs == if io.FailedBefore? then old(nfs) else p
    {
      AtOk(base, f);
      ok := Manage(p, io);
    }

    /** Withdraws the export; the proxy goes too unless a local publisher still needs it. */
    method Withdraw(base: Mark, f: FsState, env: Env) returns (ok: bool, g: FsState)
      requires At(base, f)
      modifies this`nfs, this`dir, this`trail
      ensures At(base, f) && trail[0] == old(trail[0])
      ensures old(nfs).NoExport? ==> nfs.NoExport?
      ensures f.localAttached ==> dir == old(dir)
      ensures Calm(env) ==> (ok <==> f.localAttached || Removable(old(dir), f))
      ensures Undoable(env, old(dir), f) ==> ok
      ensures env.manager && env.withdraw.Applied? ==> nfs.NoExport?
      ensures ok ==>
                && nfs.NoExport? && (f.localAttached || dir.Absent?)
                && g == Withdrawn(f).(proxyClaimed := f.proxyClaimed && f.localAttached)
    {
      g := f;
      AtOk(base, f);
      if f.exported && !env.manager { return false, g; }
      if env.manager {
        ok := ManageFs(base, f, NoExport, env.withdraw);
        if !ok { return; }
      }
      if !f.localAttached {
        ok := RemoveProxy(base, f, env.undo);
        if !ok { return; }
        g := f.(proxyClaimed := false);
      }
      return true, Withdrawn(g);
    }

    method WithdrawMutation(base: Mark, f: FsState, env: Env) returns (ok: bool)
      requires At(base, f)
      modifies this`disk, this`wrote, this`nfs, this`dir, this`trail
      ensures Steady() && trail[0] == old(trail[0]) && Wrote(base)
      ensures old(nfs).NoExport? ==> nfs.NoExport?
      ensures f.localAttached ==> dir == old(dir)
      ensures Calm(env) ==> (ok <==> f.localAttached || Removable(old(dir), f))
      ensures Undoable(env, old(dir), f) && env.final.Durable? ==> ok
      ensures env.manager && env.withdraw.Applied? ==> nfs.NoExport?
      ensures ok ==>
                && nfs.NoExport? && (f.localAttached || dir.Absent?)
                && At(base, Withdrawn(f).(proxyClaimed := f.proxyClaimed && f.localAttached))
    {
      var g;
      AtOk(base, f);
      ok, g := Withdraw(base, f, env);
      if !ok { return; }
      ok := WriteFs(base, f, g, env.final);
    }

    method GrowRecord(base: Mark, f: FsState, exact: bool, clients: seq<string>, io: WriteIo)
      returns (ok: bool, desired: seq<string>)
      requires At(base, f) && FsOk(acl, nfs, BeforePut(f, acl, exact, clients))
      modifies this`disk, this`wrote, this`trail
      ensures Steady() && trail[0] == old(trail[0]) && Wrote(base)
      ensures ok ==> At(base, BeforePut(f, acl, exact, clients))
      ensures ok <==> io.Durable?
      ensures f.exported ==> Last(disk).value.fs.exported
      ensures desired == if exact then clients else f.clients
    {
      var recorded;
      recorded, desired := DesiredClients(f.clients, exact, clients);
      var grown := f.(open := f.open || !acl, exported := true, clients := recorded);
      ok := WriteFs(base, f, grown, io);
    }

    /** Publishes under the grown record; only a first export is rolled back. */
    method CommitExport(base: Mark, grown: FsState, after: FsState, next: Policy, previously: bool, env: Env)
      returns (ok: bool)
      requires At(base, grown) && grown.exported && after.exported && !base.ended
      requires FsOk(acl, next, grown) && FsOk(acl, next, after) && SameSource(base.fs, after)
      modifies this`disk, this`wrote, this`nfs, this`dir, this`trail
      ensures Steady() && trail[0] == old(trail[0]) && Wrote(base)
      ensures ok || previously ==> dir == old(dir)
      ensures ok ==> At(base, after) && nfs == next
      ensures ok <==> env.nfs.Applied? && env.final.Durable?
      ensures previously ==> Last(disk).value.fs.exported && (nfs == old(nfs) || nfs == next)
      ensures !previously && !env.nfs.Applied? && env.manager && env.withdraw.Applied? ==> nfs.NoExport?
      ensures !previously && !env.nfs.Applied? && Undoable(env, old(dir), grown) && env.final.Durable? ==>
                && |disk| == 1 && !Last(disk).value.fs.exported
                && (grown.localAttached || (dir.Absent? && !Last(disk).value.fs.proxyClaimed))
    {
      ok := ManageFs(base, grown, next, env.nfs);
      if ok {
        ok := WriteFs(base, grown, after, env.final);
      } else if !previously {
        var _ := WithdrawMutation(base, grown, env);
      }
    }

    /** The record grows, the manager publishes, the record shrinks to what was published. */
    method Publish(base: Mark, f: FsState, exact: bool, clients: seq<string>, env: Env) returns (ok: bool)
      requires At(base, f) && !base.ended && f.proxyClaimed
      modifies this`disk, this`wrote, this`nfs, this`dir, this`trail
      ensures Steady() && trail[0] == old(trail[0]) && Wrote(base)
      ensures ok || f.exported ==> dir == old(dir)
      ensures ok <==> env.write.Durable? && env.nfs.Applied? && env.final.Durable?
      ensures ok ==>
                && At(base, AfterPut(BeforePut(f, acl, exact, clients), acl, exact, clients))
                && nfs == NextPolicy(old(nfs), f, exact, clients)
      ensures f.exported ==>
                Last(disk).value.fs.exported && (nfs == old(nfs) || nfs == NextPolicy(old(nfs), f, exact, clients))
      ensures !f.exported && !env.nfs.Applied? && env.manager && env.withdraw.Applied? && old(nfs).NoExport? ==>
                nfs.NoExport?
    {
      AtOk(base, f);
      PutIsSafe(acl, nfs, f, exact, clients);
      var grown := BeforePut(f, acl, exact, clients);
      var desired;
      ok, desired := GrowRecord(base, f, exact, clients, env.write);
      if !ok { return; }
      var next := PutPolicy(nfs, acl, exact, desired);
      ok := CommitExport(base, grown, AfterPut(grown, acl, exact, clients), next, f.exported, env);
    }

    method ExportMutation(base: Mark, exact: bool, clients: seq<string>, env: Env) returns (ok: bool)
      requires At(base, base.fs) && !base.ended
      modifies this`disk, this`wrote, this`nfs, this`dir, this`trail
      ensures Steady() && trail[0] == old(trail[0]) && Wrote(base)
      ensures ok ==>
                && |disk| == 1 && Last(disk).value.fs.exported && dir.Present? && dir.mounted
                && nfs == NextPolicy(old(nfs), base.fs, exact, clients)
                && Last(disk).value.fs.clients == if !acl then [] else if exact then clients else base.fs.clients
      ensures base.fs.exported ==>
                && (nfs == old(nfs) || nfs == NextPolicy(old(nfs), base.fs, exact, clients))
                && Last(disk).value.fs.exported
                && (old(dir).Present? && old(dir).mounted ==> dir == old(dir))
      ensures Calm(env) ==> (ok <==> Usable(old(dir), base.fs))
    {
      var f;
      ok, f := EnsureProxy(base, base.fs, env.proxy);
      if !ok { return; }
      ok := PublishMounted(base, exact, clients, env);
    }

    method PublishMounted(base: Mark, exact: bool, clients: seq<string>, env: Env) returns (ok: bool)
      requires At(base, base.fs.(proxyClaimed := true)) && !base.ended
      modifies this`disk, this`wrote, this`nfs, this`dir, this`trail
      ensures Steady() && trail[0] == old(trail[0]) && Wrote(base)
      ensures ok ==>
                && |disk| == 1 && Last(disk).value.fs.exported && dir == old(dir)
                && nfs == NextPolicy(old(nfs), base.fs, exact, clients)
                && Last(disk).value.fs.clients == if !acl then [] else if exact then clients else base.fs.clients
      ensures base.fs.exported ==>
                && (nfs == old(nfs) || nfs == NextPolicy(old(nfs), base.fs, exact, clients))
                && Last(disk).value.fs.exported && dir == old(dir)
      ensures Calm(env) ==> ok
    {
      ok := Publish(base, base.fs.(proxyClaimed := true), exact, clients, env);
    }

    method ChangeClient(base: Mark, f: FsState, client: string, allow: bool, io: NfsIo) returns (ok: bool)
      requires At(base, f) && FsOk(acl, ChangePolicy(nfs, client, allow), f)
      modifies this`nfs, this`trail
      ensures At(base, f) && trail[0] == old(trail[0])
      ensures nfs == old(nfs) || nfs == ChangePolicy(old(nfs), client, allow)
      ensures ok ==> nfs == ChangePolicy(old(nfs), client, allow)
      ensures ok && allow ==> Admits(nfs, client)
      ensures io.Applied? ==> (ok <==> !allow || !old(nfs).NoExport?)
    {
      AtOk(base, f);
      if nfs.NoExport? { return !allow; }
      if nfs.Open? { return io.Applied?; }
      ok := ManageFs(base, f, ChangePolicy(nfs, client, allow), io);
    }

    method GrantClient(base: Mark, f: FsState, client: string, env: Env) returns (ok: bool)
      requires At(base, f) && f.exported
      modifies this`disk, this`wrote, this`nfs, this`trail
      ensures Steady() && trail[0] == old(trail[0]) && Wrote(base)
      ensures ok ==> |disk| == 1 && Recorded(Last(disk).value.fs, client) && Admits(nfs, client)
      ensures nfs == old(nfs) || nfs == ChangePolicy(old(nfs), client, true)
      ensures Calm(env) ==> (ok <==> !old(nfs).NoExport?)
    {
      AtOk(base, f);
      GrantIsCovered(f, nfs, client);
      var granted := Granted(f, client);
      ok := WriteFs(base, f, granted, env.write);
      if !ok { return; }
      ok := ChangeClient(base, granted, client, true, env.nfs);
      if !ok { return; }
      AtOk(base, granted);
      ok := WriteFs(base, granted, granted, env.final);
    }

    method AllowMutation(base: Mark, client: string, env: Env) returns (ok: bool)
      requires At(base, base.fs)
      modifies this`disk, this`wrote, this`nfs, this`dir, this`trail
      ensures Steady() && trail[0] == old(trail[0]) && Wrote(base)
      ensures ok ==> |disk| == 1 && Recorded(Last(disk).value.fs, client) && Admits(nfs, client)
      ensures nfs == old(nfs) || nfs == ChangePolicy(old(nfs), client, true)
      ensures Calm(env) ==> (ok <==> base.fs.exported && Usable(old(dir), base.fs) && !old(nfs).NoExport?)
    {
      if !base.fs.exported { return false; }
      var f;
      ok, f := EnsureProxy(base, base.fs, env.proxy);
      if !ok { return; }
      ok := GrantClient(base, f, client, env);
    }

    method DenyMutation(base: Mark, client: string, env: Env) returns (ok: bool)
      requires At(base, base.fs)
      modifies this`disk, this`wrote, this`nfs, this`trail
      ensures Steady() && trail[0] == old(trail[0]) && Wrote(base)
      ensures ok ==> |disk| == 1 && client !in Last(disk).value.fs.clients && !(nfs.Acl? && client in nfs.clients)
      ensures nfs == old(nfs) || nfs == ChangePolicy(old(nfs), client, false)
      ensures ok ==> env.manager
      ensures Calm(env) ==> ok
    {
      if !env.manager { return false; }
      AtOk(base, base.fs);
      DenyIsCovered(base.fs, nfs, client);
      ok := ChangeClient(base, base.fs, client, false, env.nfs);
      if !ok { return; }
      ok := WriteFs(base, base.fs, Denied(base.fs, client), env.final);
    }

    method AttachMutation(base: Mark, env: Env) returns (ok: bool)
      requires At(base, base.fs)
      modifies this`disk, this`wrote, this`dir, this`trail
      ensures Steady() && trail[0] == old(trail[0]) && Wrote(base)
      ensures ok ==> |disk| == 1 && Last(disk).value.fs.localAttached && dir.Present? && dir.mounted
      ensures Calm(env) ==> (ok <==> Usable(old(dir), base.fs))
    {
      var f;
      ok, f := EnsureProxy(base, base.fs, env.proxy);
      if !ok { return; }
      AtOk(base, f);
      ok := WriteFs(base, f, f.(localAttached := true), env.final);
    }

    /** The proxy stays while the filesystem is exported. */
    method DetachMutation(base: Mark, env: Env) returns (ok: bool)
      requires At(base, base.fs)
      modifies this`disk, this`wrote, this`dir, this`trail
      ensures Steady() && trail[0] == old(trail[0]) && Wrote(base)
      ensures ok ==>
                |disk| == 1 && !Last(disk).value.fs.localAttached && Last(disk).value.fs.exported == base.fs.exported
      ensures ok && !base.fs.exported ==> dir.Absent? && !Last(disk).value.fs.proxyClaimed
      ensures base.fs.exported ==> dir == old(dir)
      ensures Calm(env) ==> (ok <==> base.fs.exported || Removable(old(dir), base.fs))
    {
      AtOk(base, base.fs);
      var f := base.fs.(localAttached := false);
      if !f.exported {
        ok := RemoveProxy(base, base.fs, env.undo);
        if !ok { return; }
        f := f.(proxyClaimed := false);
      }
      ok := WriteFs(base, base.fs, f, env.final);
    }

    /** A locally published filesystem is not torn down; only a deletion also wants no client on record. */
    method TeardownMutation(base: Mark, deleting: bool, env: Env) returns (ok: bool)
      requires At(base, base.fs)
      modifies this`disk, this`wrote, this`nfs, this`dir, this`trail
      ensures Steady() && trail[0] == old(trail[0]) && Wrote(base)
      ensures old(nfs).NoExport? ==> nfs.NoExport?
      ensures base.fs.localAttached ==> !ok && Now() == old(Now())
      ensures deleting && !NobodyAdmitted(old(nfs)) ==> !ok && Now() == old(Now())
      ensures ok ==> nfs.NoExport? && dir.Absent? && |disk| == 1 && !OwnsProxy(Last(disk).value.fs)
      ensures Calm(env) ==> (ok <==> MayTearDown(base.fs, deleting) && Removable(old(dir), base.fs))
    {
      AtOk(base, base.fs);
      if base.fs.localAttached || (deleting && (base.fs.open || base.fs.clients != [])) { return false; }
      ok := WithdrawMutation(base, base.fs, env);
    }

    method RestoreMutation(base: Mark, exports: bool, env: Env) returns (ok: bool)
      requires At(base, base.fs)
      modifies this`disk, this`wrote, this`dir, this`trail
      ensures Steady() && trail[0] == old(trail[0]) && Wrote(base)
      ensures ok && (exports || base.fs.localAttached) ==> dir.Present? && dir.mounted
      ensures !exports && !base.fs.localAttached ==> dir == old(dir)
      ensures ok && exports ==> Last(disk).value.fs.proxyClaimed
      ensures Calm(env) ==> (ok <==> exports || base.fs.localAttached ==> Usable(old(dir), base.fs))
    {
      AtOk(base, base.fs);
      var f := base.fs;
      if f.localAttached || exports {
        ok, f := EnsureProxy(base, f, env.proxy);
        if !ok { return; }
        AtOk(base, f);
      }
      ok := WriteFs(base, f, f, env.final);
    }

    // -------------------------------------------------------------- operations

    /** Closes a section that wrote only filesystem fields of m. */
    lemma StillRemembers(m: Mark, p: Policy)
      requires OnlyFs(disk, m) && Remembers(Some(m), p, met, leaving)
      requires (forall t | t in leaving :: t.uid != m.uid) || (p.NoExport? ==> nfs.NoExport?)
      ensures Remembers(Last(disk), nfs, met, leaving)
    {
      MemorySurvives(Some(m), p, Last(disk), nfs, met, leaving);
    }

    /** Pins the native source and then records its ownership; nothing else is touched. */
    method Import(token: Token, r: FsRequest, nativeFree: bool, env: Env, ghost allowed: iset<Disk>) returns (reply: Reply)
      requires Valid() && Allows(allowed, disk, token, r) && r.importing && r.op.Grant?
      modifies this`disk, this`trail, this`leaving, this`may
      ensures Valid() && trail[0] == old(Now()) && may == allowed
      ensures Standing(old(leaving), Grant, token) <= leaving <= old(leaving)
      ensures reply == Done ==>
                && nativeFree && |disk| == 1 && disk[0].Some? && !disk[0].value.ended
                && disk[0].value.uid == token.uid && disk[0].value.gen == token.gen
                && disk[0].value.fs.adoption == Some(r.adoption) && disk[0].value.fs.capacity == r.capacity > 0
                && disk[0].value.fs.volumeId == r.volumeId && disk[0].value.fs.layout == Some(r.layout)
                && Extends(old(Last(disk)), disk[0])
                && Admissible(token, r, old(Last(disk))) && env.pinOk
      ensures Calm(env) ==> (reply == Done <==> nativeFree && Admissible(token, r, old(Last(disk))))
    {
      Begin(allowed);
      VisibleOk();
      if !nativeFree { return Failed; }
      DecisionIff(token, r, env.pinOk, disk[|disk| - 1]);
      match Decide(token, r, env.pinOk, disk[|disk| - 1])
      case NoWork => return Failed;
      case Deny => return Failed;
      case Go(next, _) =>
        ImportIsSafe(acl, nfs, token, r, env.pinOk, disk[|disk| - 1]);
        var ok := RecordImport(token, r, env, next);
        return if ok then Done else Failed;
    }

    method RecordImport(token: Token, r: FsRequest, env: Env, next: Mark) returns (ok: bool)
      requires Valid() && Allows(may, disk, token, r) && r.importing && r.op.Grant?
      requires disk != [] && WellFormedDisk(Last(disk)) && MarkOk(acl, nfs, Some(next))
      requires Decide(token, r, env.pinOk, Last(disk)).Go? && Decide(token, r, env.pinOk, Last(disk)).next == next
      modifies this`disk, this`trail, this`leaving
      ensures Valid() && trail[0] == old(trail[0]) && leaving == Standing(old(leaving), Grant, token)
      ensures ok <==> env.final.Durable?
      ensures ok ==> disk == [Some(next)]
    {
      leaving := Standing(leaving, Grant, token);
      MemorySurvives(disk[|disk| - 1], nfs, Some(next), nfs, met, leaving);
      ok := Persist(next, true, env.final);
    }

    method Export(token: Token, r: FsRequest, exact: bool, clients: seq<string>, env: Env, ghost allowed: iset<Disk>) returns (reply: Reply)
      requires Valid() && Allows(allowed, disk, token, r) && r.op.Grant? && !r.importing
      modifies this`disk, this`wrote, this`nfs, this`dir, this`trail, this`leaving, this`may
      ensures Valid() && trail[0] == old(Now()) && may == allowed
      ensures Standing(old(leaving), r.op, token) <= leaving <= old(leaving)
      ensures reply == Done ==>
                && Last(disk).Some? && Last(disk).value.uid == token.uid && Last(disk).value.fs.exported
                && |disk| == 1 && dir.Present? && dir.mounted
      ensures reply == Done ==> env.manager && if !acl then nfs == Policy.Open else nfs.Acl?
      ensures reply == Done && acl && exact ==>
                nfs.clients == SetOf(clients) && Last(disk).value.fs.clients == clients
      ensures reply == Done && acl && !exact && old(nfs).Acl? ==> nfs == old(nfs)
      ensures reply == Done ==> Admissible(token, r, Last(disk)) && Last(disk).value.fs.proxyClaimed
      ensures Calm(env) && Admissible(token, r, old(Last(disk))) && old(Last(disk)).Some? ==>
                (reply == Done <==> Usable(old(dir), old(Last(disk)).value.fs))
    {
      if !env.manager { Begin(allowed); return Failed; }
      var o := Open(token, r, env, allowed);
      match o
      case Skipped => return Failed;
      case Refused => return Failed;
      case Opened(base) =>
        ghost var p := nfs;
        var ok := ExportMutation(base, exact, clients, env);
        StillRemembers(base, p);
        if !ok { return Failed; }
        StillAdmissible(token, r, base, Last(disk).value);
        VisibleOk();
        return Done;
    }

    method Allow(token: Token, r: FsRequest, client: string, env: Env, ghost allowed: iset<Disk>) returns (reply: Reply)
      requires Valid() && Allows(allowed, disk, token, r) && r.op.Grant? && !r.importing
      modifies this`disk, this`wrote, this`nfs, this`dir, this`trail, this`leaving, this`may
      ensures Valid() && trail[0] == old(Now()) && may == allowed
      ensures Standing(old(leaving), r.op, token) <= leaving <= old(leaving)
      ensures reply == Done ==> Last(disk).Some? && Recorded(Last(disk).value.fs, client) && Admits(nfs, client)
      ensures reply == Done ==> env.manager
      ensures Calm(env) && Admissible(token, r, old(Last(disk))) && old(Last(disk)).Some? && !old(nfs).NoExport? ==>
                (reply == Done <==> Usable(old(dir), old(Last(disk)).value.fs))
    {
      if !env.manager { Begin(allowed); return Failed; }
      var o := Open(token, r, env, allowed);
      match o
      case Skipped => return Failed;
      case Refused => return Failed;
      case Opened(base) =>
        ghost var p := nfs;
        var ok := AllowMutation(base, client, env);
        StillRemembers(base, p);
        return if ok then Done else Failed;
    }

    method Deny(token: Token, r: FsRequest, client: string, env: Env, ghost allowed: iset<Disk>) returns (reply: Reply)
      requires Valid() && Allows(allowed, disk, token, r) && r.op.Revoke? && !r.importing
      modifies this`disk, this`wrote, this`nfs, this`trail, this`leaving, this`may
      ensures Valid() && trail[0] == old(Now()) && may == allowed
      ensures Standing(old(leaving), r.op, token) <= leaving <= old(leaving)
      ensures reply == Done ==> Last(disk).Some? && client !in Last(disk).value.fs.clients
      ensures reply == Done && acl ==> !Admits(nfs, client)
      ensures reply == Done ==> env.manager
      ensures Calm(env) && Admissible(token, r, old(Last(disk))) ==> reply == Done
      ensures reply == NotOwner ==> Now() == old(Now()) && !Owns(Last(disk), token)
    {
      var o := Open(token, r, env, allowed);
      match o
      case Skipped => return NotOwner;
      case Refused => return Failed;
      case Opened(base) =>
        ghost var p := nfs;
        var ok := DenyMutation(base, client, env);
        StillRemembers(base, p);
        VisibleOk();
        return if ok then Done else Failed;
    }

    /** Leaves nothing exported; the proxy is kept exactly for a local publisher. */
    method Unexport(token: Token, r: FsRequest, env: Env, ghost allowed: iset<Disk>) returns (reply: Reply)
      requires Valid() && Allows(allowed, disk, token, r) && r.op.Revoke? && !r.importing
      modifies this`disk, this`wrote, this`nfs, this`dir, this`trail, this`leaving, this`may
      ensures Valid() && trail[0] == old(Now()) && may == allowed
      ensures Standing(old(leaving), r.op, token) <= leaving <= old(leaving)
      ensures reply == Done ==>
                && nfs.NoExport? && |disk| == 1 && disk[0].Some? && !disk[0].value.fs.exported
                && (if disk[0].value.fs.localAttached then dir == old(dir)
                    else dir.Absent? && !disk[0].value.fs.proxyClaimed)
      ensures old(Last(disk)).Some? && old(Last(disk)).value.fs.localAttached ==> dir == old(dir)
      ensures Calm(env) && Admissible(token, r, old(Last(disk))) && old(Last(disk)).Some? ==>
                var f := old(Last(disk)).value.fs;
                reply == Done <==> f.localAttached || Removable(old(dir), f)
      ensures reply == NotOwner ==> Now() == old(Now()) && !Owns(Last(disk), token)
    {
      var o := Open(token, r, env, allowed);
      match o
      case Skipped => return NotOwner;
      case Refused => return Failed;
      case Opened(base) =>
        ghost var p := nfs;
        var ok := WithdrawMutation(base, base.fs, env);
        StillRemembers(base, p);
        return if ok then Done else Failed;
    }

    method LocalOpened(base: Mark, local: bool, env: Env) returns (ok: bool)
      requires Valid() && At(base, base.fs) && (local ==> forall t | t in leaving :: t.uid != base.uid)
      modifies this`disk, this`wrote, this`dir, this`trail
      ensures Valid() && trail[0] == old(trail[0]) && Wrote(base)
      ensures ok ==> |disk| == 1 && disk[0].Some? && disk[0].value.fs.localAttached == local
      ensures ok && local ==> dir.Present? && dir.mounted
      ensures ok && !local && !disk[0].value.fs.exported ==> dir.Absent? && !disk[0].value.fs.proxyClaimed
      ensures !local && base.fs.exported ==> dir == old(dir)
      ensures Calm(env) ==>
                (ok <==> if local then Usable(old(dir), base.fs) else base.fs.exported || Removable(old(dir), base.fs))
    {
      ghost var p := nfs;
      if local { ok := AttachMutation(base, env); } else { ok := DetachMutation(base, env); }
      StillRemembers(base, p);
    }

    method SetLocal(token: Token, r: FsRequest, local: bool, env: Env, ghost allowed: iset<Disk>) returns (reply: Reply)
      requires Valid() && Allows(allowed, disk, token, r) && !r.importing && r.op == (if local then Grant else Revoke)
      modifies this`disk, this`wrote, this`dir, this`trail, this`leaving, this`may
      ensures Valid() && trail[0] == old(Now()) && may == allowed
      ensures Standing(old(leaving), r.op, token) <= leaving <= old(leaving)
      ensures reply == Done ==> |disk| == 1 && disk[0].Some? && disk[0].value.fs.localAttached == local
      ensures reply == Done && local ==> dir.Present? && dir.mounted
      ensures reply == Done && !local && !disk[0].value.fs.exported ==> dir.Absent? && !disk[0].value.fs.proxyClaimed
      ensures !local && old(Last(disk)).Some? && old(Last(disk)).value.fs.exported ==> dir == old(dir)
      ensures Calm(env) && Admissible(token, r, old(Last(disk))) && old(Last(disk)).Some? ==>
                var f := old(Last(disk)).value.fs;
                reply == Done <==> if local then Usable(old(dir), f) else f.exported || Removable(old(dir), f)
      ensures reply == NotOwner ==> Now() == old(Now()) && !Owns(Last(disk), token)
    {
      var o := Open(token, r, env, allowed);
      match o
      case Skipped => return NotOwner;
      case Refused => return Failed;
      case Opened(base) =>
        var ok := LocalOpened(base, local, env);
        return if ok then Done else Failed;
    }

    /** First section of a reconcile: the proxy of a published filesystem is mounted again. */
    method Restore(token: Token, r: FsRequest, exports: bool, env: Env, ghost allowed: iset<Disk>) returns (reply: Reply)
      requires Valid() && Allows(allowed, disk, token, r) && r.op.Grant? && !r.importing
      modifies this`disk, this`wrote, this`dir, this`trail, this`leaving, this`may
      ensures Valid() && trail[0] == old(Now()) && may == allowed
      ensures Standing(old(leaving), r.op, token) <= leaving <= old(leaving)
      ensures reply == Done ==> old(Last(disk)).Some?
      ensures reply == Done && (exports || old(Last(disk)).value.fs.localAttached) ==> dir.Present? && dir.mounted
      ensures Calm(env) && Admissible(token, r, old(Last(disk))) && old(Last(disk)).Some? ==>
                var f := old(Last(disk)).value.fs;
                (reply == Done <==> (exports || f.localAttached ==> Usable(old(dir), f)))
      ensures !exports && old(Last(disk)).Some? && !old(Last(disk)).value.fs.localAttached ==> dir == old(dir)
      ensures reply == Done ==> Admissible(token, r, Last(disk)) && (exports ==> Last(disk).value.fs.proxyClaimed)
    {
      var o := Open(token, r, env, allowed);
      match o
      case Skipped => return Failed;
      case Refused => return Failed;
      case Opened(base) =>
        ghost var p := nfs;
        var ok := RestoreMutation(base, exports, env);
        StillRemembers(base, p);
        if !ok { return Failed; }
        StillAdmissible(token, r, base, Last(disk).value);
        return Done;
    }

    // ----------------------------------------------------------------- release

    method TeardownOpened(base: Mark, deleting: bool, env: Env) returns (ok: bool)
      requires Valid() && At(base, base.fs)
      modifies this`disk, this`wrote, this`nfs, this`dir, this`trail
      ensures Valid() && trail[0] == old(trail[0]) && Wrote(base)
      ensures base.fs.localAttached ==> !ok
      ensures deleting && !NobodyAdmitted(old(nfs)) ==> !ok
      ensures ok ==> nfs.NoExport? && dir.Absent? && |disk| == 1 && !OwnsProxy(Last(disk).value.fs)
      ensures Calm(env) ==> (ok <==> MayTearDown(base.fs, deleting) && Removable(old(dir), base.fs))
    {
      ghost var p := nfs;
      ok := TeardownMutation(base, deleting, env);
      StillRemembers(base, p);
    }

    method TeardownSection(token: Token, r: FsRequest, deleting: bool, env: Env, ghost allowed: iset<Disk>) returns (reply: Reply)
      requires Valid() && Allows(allowed, disk, token, r) && r.op.Revoke? && !r.importing && token.uid in met
      modifies this`disk, this`wrote, this`nfs, this`dir, this`trail, this`leaving, this`may
      ensures Valid() && trail[0] == old(Now()) && may == allowed && leaving == old(leaving)
      ensures reply != Failed ==> nfs.NoExport? && TornDown(Last(disk), nfs, token)
      ensures reply == Done ==>
                && dir.Absent? && |disk| == 1 && disk[0].value.uid == token.uid && !OwnsProxy(disk[0].value.fs)
                && disk[0].value.gen == token.gen && !disk[0].value.ended
                && !old(Last(disk)).value.fs.localAttached
                && (deleting ==> NobodyAdmitted(old(nfs)))
      ensures reply == NotOwner ==> Now() == old(Now()) && !Owns(Last(disk), token)
      ensures Calm(env) && Admissible(token, r, old(Last(disk))) && old(Last(disk)).Some? ==>
                var f := old(Last(disk)).value.fs;
                reply == Done <==> MayTearDown(f, deleting) && Removable(old(dir), f)
    {
      assert Met(Last(disk), token.uid);
      var o := Open(token, r, env, allowed);
      match o
      case Skipped =>
        VisibleOk();
        SkippedIsTornDown(acl, nfs, token, disk[|disk| - 1]);
        return NotOwner;
      case Refused => return Failed;
      case Opened(base) =>
        var ok := TeardownOpened(base, deleting, env);
        return if ok then Done else Failed;
    }

    /** Second section of a release: withdraws export and proxy of the lifecycle met as owner. */
    method Teardown(token: Token, r: FsRequest, deleting: bool, env: Env, ghost allowed: iset<Disk>) returns (reply: Reply)
      requires Valid() && Allows(allowed, disk, token, r) && r.op.Revoke? && !r.importing && token.uid in met
      modifies this`disk, this`wrote, this`nfs, this`dir, this`trail, this`leaving, this`may
      ensures Valid() && trail[0] == old(Now()) && may == allowed
      ensures leaving == if reply == Failed then old(leaving) else old(leaving) + {token}
      ensures reply == Done ==>
                && nfs.NoExport? && dir.Absent? && |disk| == 1 && disk[0].Some?
                && disk[0].value.uid == token.uid && disk[0].value.gen == token.gen && !disk[0].value.ended
                && !OwnsProxy(disk[0].value.fs)
                && old(Last(disk)).Some? && !old(Last(disk)).value.fs.localAttached
                && (deleting ==> NobodyAdmitted(old(nfs)))
      ensures reply == NotOwner ==> Now() == old(Now()) && !Owns(Last(disk), token) && nfs.NoExport?
      ensures Calm(env) && Admissible(token, r, old(Last(disk))) && old(Last(disk)).Some? ==>
                var f := old(Last(disk)).value.fs;
                reply == Done <==> MayTearDown(f, deleting) && Removable(old(dir), f)
    {
      reply := TeardownSection(token, r, deleting, env, allowed);
      if reply != Failed { leaving := leaving + {token}; }
    }

    /** Writes a retirement that was decided. */
    method RecordRetirement(token: Token, unexported: bool, env: Env, next: Mark) returns (ok: bool)
      requires Valid() && AllowsRetirement(may, disk, token, unexported)
      requires disk != [] && MarkOk(acl, nfs, Last(disk)) && (unexported ==> TornDown(Last(disk), nfs, token))
      requires var d := Retire(token, unexported, true, Last(disk)); d.RetireWith? && d.next == next
      modifies this`disk, this`trail
      ensures Valid() && trail[0] == old(trail[0])
      ensures ok <==> env.persist.Durable?
      ensures disk == match env.persist
              case NotRenamed => old(disk)
              case SyncLost => old(disk) + [Some(next)]
              case Durable => [Some(next)]
    {
      var stored := disk[|disk| - 1];
      RetireIsSafe(acl, nfs, token, unexported, stored);
      MemorySurvives(stored, nfs, Some(next), nfs, met, leaving);
      ok := Write(next, env.persist);
    }

    /** First and last section of a release; `unexported` follows a teardown that still stands. */
    method RetireFence(token: Token, unexported: bool, env: Env, ghost allowed: iset<Disk>) returns (owned: bool, ok: bool)
      requires Valid() && AllowsRetirement(allowed, disk, token, unexported) && (unexported ==> token in leaving)
      modifies this`disk, this`trail, this`met, this`may
      ensures Valid() && trail[0] == old(Now()) && may == allowed
      ensures met == if owned then old(met) + {token.uid} else old(met)
      ensures owned ==> ok && !unexported && Now() == old(Now())
      ensures ok && !owned ==> Last(disk).Some? && token.uid in Last(disk).value.retired
      ensures owned <==> !unexported && OwnedBy(old(Last(disk)), token.uid) && MayRetire(old(Last(disk)), token)
      ensures env.persist.Durable? ==> (ok <==> MayRetire(old(Last(disk)), token))
      ensures ok && unexported && OwnedBy(old(Last(disk)), token.uid) ==> OwnerGone(disk, nfs)
      ensures KeepsOthers(old(Last(disk)), Last(disk), token.uid)
    {
      Begin(allowed);
      VisibleOk();
      var stored := disk[|disk| - 1];
      if unexported { assert TornDown(stored, nfs, token); }
      if token.uid != "" { RetirementIs(token, unexported, true, stored); }
      match Retire(token, unexported, true, stored)
      case NothingToDo => return false, true;
      case StillOwned =>
        met := met + {token.uid};
        return true, true;
      case RetireRefused => return false, false;
      case RetireWith(next, _) =>
        ok := RecordRetirement(token, unexported, env, next);
        return false, ok;
    }

    // -------------------------------------------------------------------- runs

    /** A crash resumes from any step of the last section; what the process remembered is lost. */
    method Crash(at: nat, keep: Option<nat>, d: Dir)
      requires Valid()
      modifies this`disk, this`nfs, this`dir, this`trail, this`met, this`leaving, this`may
      ensures Valid() && met == {} && leaving == {} && trail == [Now()]
      ensures var s := old(trail)[at % |old(trail)|];
              && nfs == s.nfs && s.disk != []
              && if keep.None? then disk == s.disk && dir == s.dir
                 else disk == [s.disk[keep.value % |s.disk|]] && dir == d
    {
      var s := trail[at % |trail|];
      EveryStepIsOk(acl, trail, at % |trail|);
      met, leaving := {}, {};
      nfs := s.nfs;
      if keep.None? {
        disk, dir := s.disk, s.dir;
      } else {
        disk, dir := [s.disk[keep.value % |s.disk|]], d;
      }
      trail := [Snap(disk, nfs, dir)];
      may := iset{disk};
    }

    /** Others sync the state directory or change the target directory. */
    method Outside(sync: bool, d: Dir)
      requires Valid()
      modifies this`disk, this`dir, this`trail, this`may
      ensures Valid() && dir == d && old(disk) != [] && trail == [Now()]
      ensures disk == if sync then [Last(old(disk))] else old(disk)
    {
      VisibleOk();
      dir := d;
      if sync { disk := [disk[|disk| - 1]]; }
      trail := [Snap(disk, nfs, dir)];
      may := iset{disk};
    }

    method RunCall(s: Section, ghost releases: set<Token>, ghost allowed: iset<Disk>)
      requires Valid() && leaving <= releases && s.Call? && Obeys(s, releases) && AllowsSection(allowed, disk, s)
      modifies this
      ensures Valid() && leaving <= releases && old(met) <= met && old(leaving) <= leaving
      ensures trail[0] == old(Now()) && may == allowed
    {
      var token, r, env := s.token, Shape(s.request, s.work), s.env;
      match s.work {
      case Importing(nativeFree) => var _ := Import(token, r, nativeFree, env, allowed);
      case Exporting(exact, clients) => var _ := Export(token, r, exact, clients, env, allowed);
      case Allowing(client) => var _ := Allow(token, r, client, env, allowed);
      case Denying(client) => var _ := Deny(token, r, client, env, allowed);
      case Unexporting => var _ := Unexport(token, r, env, allowed);
      case Attaching(local) => var _ := SetLocal(token, r, local, env, allowed);
      case Restoring(exports) => var _ := Restore(token, r, exports, env, allowed);
      case TearingDown(deleting) =>
        if token.uid in met {
          var _ := Teardown(token, r, deleting, env, allowed);
        } else {
          Begin(allowed);
        }
      case Retiring(unexported) =>
        if unexported ==> token in leaving {
          var _, _ := RetireFence(token, unexported, env, allowed);
        } else {
          Begin(allowed);
        }
      }
    }

    method Run(s: Section, ghost releases: set<Token>, ghost allowed: iset<Disk>)
      requires Valid() && leaving <= releases && Obeys(s, releases) && AllowsSection(allowed, disk, s)
      modifies this
      ensures Valid() && leaving <= releases
      ensures !s.Stop? ==> old(met) <= met && old(leaving) <= leaving
      ensures s.Call? ==> trail[0] == old(Now()) && may == allowed
      ensures !s.Call? ==> trail == [Now()]
      ensures s.Others? ==> old(disk) != [] && disk == if s.sync then [Last(old(disk))] else old(disk)
      ensures s.Stop? ==>
                var from := old(trail)[s.at % |old(trail)|].disk;
                from != [] && disk == if s.keep.None? then from else [from[s.keep.value % |from|]]
    {
      match s
      case Stop(at, keep, d) => Crash(at, keep, d);
      case Others(sync, d) => Outside(sync, d);
      case Call(_, _, _, _) => RunCall(s, releases, allowed);
    }

    /** Any run of sections, crashes and outside events; all steps are reported. */
    method Handle(sections: seq<Section>, ghost releases: set<Token>) returns (history: seq<seq<Snap>>)
      requires Valid() && leaving <= releases && forall s | s in sections :: Obeys(s, releases)
      modifies this
      ensures Valid() && leaving <= releases
      ensures (forall s | s in sections :: !s.Stop?) ==> old(met) <= met && old(leaving) <= leaving
      ensures |history| == |sections| && Chained(acl, sections, history, old(Now()))
      ensures Now() == EndOf(history, old(Now()))
    {
      history := [];
      for i := 0 to |sections|
        invariant Valid() && leaving <= releases
        invariant (forall s | s in sections :: !s.Stop?) ==> old(met) <= met && old(leaving) <= leaving
        invariant |history| == i && Chained(acl, sections, history, old(Now()))
        invariant Now() == EndOf(history, old(Now()))
      {
        Run(sections[i], releases, AnyDisk());
        ChainGrows(acl, sections, history, old(Now()), trail);
        history := history + [trail];
      }
    }

    /**
     At every step of every run, crashes inside sections included: each mark that
     could survive is of a live lifecycle and lists every admitted client; it
     claims the proxy it publishes through; and a target directory appears only
     under a durable claim and changes only under recorded ownership.
     */
    method Serve(sections: seq<Section>, ghost releases: set<Token>) returns (history: seq<seq<Snap>>)
      requires Valid() && leaving <= releases && forall s | s in sections :: Obeys(s, releases)
      modifies this
      ensures Valid() && |history| == |sections|
      ensures forall i | 0 <= i < |history| ::
                history[i] != [] &&
                (sections[i].Call? ==> history[i][0] == EndOf(history[..i], old(Now())))
      ensures Now() == EndOf(history, old(Now()))
      ensures forall i, j, k, client ::
                0 <= i < |history| && 0 <= j < |history[i]| && 0 <= k < |history[i][j].disk| &&
                Admits(history[i][j].nfs, client) ==>
                  var c := history[i][j].disk[k]; c.Some? && !c.value.ended && Recorded(c.value.fs, client)
      ensures forall i, j, k ::
                0 <= i < |history| && 0 <= j < |history[i]| && 0 <= k < |history[i][j].disk| &&
                history[i][j].disk[k].Some? ==>
                  var f := history[i][j].disk[k].value.fs; f.localAttached || f.exported ==> f.proxyClaimed
      ensures forall i, j, k ::
                0 <= i < |history| && 0 <= j < |history[i]| - 1 && 0 <= k < |history[i][j].disk| &&
                history[i][j].dir != history[i][j + 1].dir ==>
                  var c := history[i][j].disk[k];
                  c.Some? && if history[i][j].dir.Absent? then c.value.fs.proxyClaimed else OwnsProxy(c.value.fs)
    {
      history := Handle(sections, releases);
      forall i, j, k, client |
        0 <= i < |history| && 0 <= j < |history[i]| && 0 <= k < |history[i][j].disk| && Admits(history[i][j].nfs, client)
        ensures var c := history[i][j].disk[k]; c.Some? && !c.value.ended && Recorded(c.value.fs, client)
      {
        RecordedAt(acl, history[i], j, k, client);
      }
      forall i, j, k |
        0 <= i < |history| && 0 <= j < |history[i]| && 0 <= k < |history[i][j].disk| && history[i][j].disk[k].Some?
        ensures var f := history[i][j].disk[k].value.fs; f.localAttached || f.exported ==> f.proxyClaimed
      {
        ClaimedAt(acl, history[i], j, k);
      }
      forall i, j, k |
        0 <= i < |history| && 0 <= j < |history[i]| - 1 && 0 <= k < |history[i][j].disk| &&
        history[i][j].dir != history[i][j + 1].dir
        ensures var c := history[i][j].disk[k];
                c.Some? && if history[i][j].dir.Absent? then c.value.fs.proxyClaimed else OwnsProxy(c.value.fs)
      {
        EveryStepIsOk(acl, history[i], j + 1);
      }
    }

    /** Every such run is a run of the fencing machine that leaves the same disk. */
    method ServeFenced(sections: seq<Section>, ghost releases: set<Token>, ghost w: FenceMachine.World)
      returns (ghost steps: seq<FenceMachine.Step>)
      requires Valid() && leaving <= releases && forall s | s in sections :: Obeys(s, releases)
      requires FenceMachine.Inv(w) && w.task == [] && w.disk == disk
      modifies this
      ensures Valid() && FenceMachine.IsRun(w, steps) && FenceMachine.End(w, steps).disk == disk
    {
      Begin(iset{disk});
      steps := [];
      ghost var before, current := steps, Others(false, dir);   // the run up to the current section
      ghost var start := disk;
      for i := 0 to |sections|
        invariant Valid() && leaving <= releases
        invariant FsRefinement.Follows(w, before, start) && FsRefinement.Follows(w, steps, disk)
        invariant forall k | 0 <= k < |trail| :: trail[k].disk in FsRefinement.Reachable(start, current)
      {
        var s := sections[i];
        ghost var was, past := disk, trail;
        FsRefinement.MachineAllowsSection(disk, s);
        Run(s, releases, FsRefinement.Reachable(disk, s));
        if s.Call? {
          forall k | 0 <= k < |trail| ensures trail[k].disk in may { EveryDiskIsAllowed(may, trail, k); }
          before, start, current := steps, was, s;
          steps := FsRefinement.ContinueSection(w, steps, was, s, disk);
        } else {
          if s.Others? {
            steps := FsRefinement.OtherSync(w, steps, was, s.sync);
          } else {
            steps := FsRefinement.CrashInside(w, before, start, current, past[s.at % |past|].disk, s.keep);
          }
          before, start, current := steps, disk, Others(false, dir);
        }
      }
    }

    /** Teardown and retirement of a lifecycle that was found as owner. */
    method ReleaseOwned(
      token: Token, r: FsRequest, deleting: bool, teardown: Env, last: Env, between: seq<Section>,
      ghost releases: set<Token>)
      returns (ok: bool)
      requires Valid() && leaving <= releases && token in releases && token.uid in met && r.op.Revoke? && !r.importing
      requires forall s | s in between :: Obeys(s, releases) && !s.Stop?
      modifies this
      ensures Valid()
      ensures ok ==> Last(disk).Some? && token.uid in Last(disk).value.retired
      ensures ok && deleting ==> NobodyAdmitted(old(nfs))
      ensures between == [] && Calm(teardown) && Calm(last) && Admissible(token, r, old(Last(disk))) ==>
                (ok <==> old(Last(disk)).Some? && Releasable(old(Last(disk)).value.fs, old(dir), deleting))
    {
      var torn := Teardown(token, r, deleting, teardown, AnyDisk());
      if torn == Failed { return false; }
      var _ := Handle(between, releases);
      var _, done := RetireFence(token, true, last, AnyDisk());
      ok := done;
    }

    /**
     Releases the lifecycle, with other requests between its sections.  A
     retired owner leaves no export behind; a deletion found no client admitted.
     A second turn of the agent's loop is impossible: the last retirement never
     finds the lifecycle still owned.
     */
    method ReleaseFilesystem(
      token: Token, r: FsRequest, deleting: bool, first: Env, teardown: Env, last: Env,
      before: seq<Section>, between: seq<Section>, ghost releases: set<Token>)
      returns (reply: Reply, found: Option<Policy>)
      requires Valid() && leaving <= releases && token in releases && r.op.Revoke? && !r.importing
      requires forall s | s in before + between :: Obeys(s, releases) && !s.Stop?
      modifies this
      ensures Valid()
      ensures reply == Done ==> Last(disk).Some? && token.uid in Last(disk).value.retired
      ensures reply == Done && Last(disk).value.uid == token.uid ==> Last(disk).value.ended && nfs.NoExport?
      ensures reply == Done && deleting && found.Some? ==> NobodyAdmitted(found.value)
      ensures first.persist.Durable? && !OwnedBy(old(Last(disk)), token.uid) ==> (reply == Done <==> token.uid != "")
      ensures before == [] && between == [] && Calm(teardown) && Calm(last) && Admissible(token, r, old(Last(disk))) &&
              OwnedBy(old(Last(disk)), token.uid) ==>
                (reply == Done <==> Releasable(old(Last(disk)).value.fs, old(dir), deleting))
    {
      found := None;
      var owned, ok := RetireFence(token, false, first, AnyDisk());
      if ok && owned {
        var _ := Handle(before, releases);
        found := Some(nfs);
        ok := ReleaseOwned(token, r, deleting, teardown, last, between, releases);
      }
      VisibleOk();
      reply := if ok then Done else Failed;
    }

    /**
     Mounts the proxy again and replaces the policy by each listed export in
     turn; other requests run before each of them.
     */
    method ReconcileFilesystem(
      token: Token, r: FsRequest, exports: seq<seq<string>>, env: Env, envs: seq<Env>, others: seq<seq<Section>>,
      ghost releases: set<Token>)
      returns (reply: Reply)
      requires Valid() && leaving <= releases && r.op.Grant? && !r.importing && |envs| == |exports| == |others|
      requires forall i | 0 <= i < |others| :: forall s | s in others[i] :: Obeys(s, releases) && !s.Stop?
      modifies this
      ensures Valid()
      ensures reply == Done && exports != [] ==> dir.Present? && dir.mounted
      ensures reply == Done && exports != [] && acl ==> nfs == Acl(SetOf(exports[|exports| - 1]))
      ensures reply == Done && exports != [] && !acl ==> nfs == Policy.Open
      ensures exports == [] && old(Last(disk)).Some? && !old(Last(disk)).value.fs.localAttached ==> dir == old(dir)
      ensures Calm(env) && (forall i | 0 <= i < |envs| :: Calm(envs[i]) && others[i] == []) &&
              Admissible(token, r, old(Last(disk))) && old(Last(disk)).Some? ==>
                var f := old(Last(disk)).value.fs;
                (reply == Done <==> (exports != [] || f.localAttached ==> Usable(old(dir), f)))
    {
      reply := Restore(token, r, exports != [], env, AnyDisk());
      if reply != Done { return; }
      for i := 0 to |exports|
        invariant Valid() && leaving <= releases && reply == Done
        invariant i > 0 ==> dir.Present? && dir.mounted
        invariant i > 0 && acl ==> nfs == Acl(SetOf(exports[i - 1]))
        invariant i > 0 && !acl ==> nfs == Policy.Open
        invariant exports == [] && old(Last(disk)).Some? && !old(Last(disk)).value.fs.localAttached ==> dir == old(dir)
        invariant (forall k | 0 <= k < |envs| :: others[k] == []) && exports != [] ==>
                    && Admissible(token, r, Last(disk)) && Last(disk).Some? && Last(disk).value.fs.proxyClaimed
                    && dir.Present? && dir.mounted
      {
        var _ := Handle(others[i], releases);
        reply := Export(token, r, true, exports[i], envs[i], AnyDisk());
        if reply != Done { return; }
      }
    }
  }
}
