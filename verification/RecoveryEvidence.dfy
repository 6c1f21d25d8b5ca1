/** Live evidence about a pinned LV, read before its ownership is transferred. */
module RecoveryEvidence {
  import opened Marks

  /** `claimFree`: a transient exclusive open of the device succeeded. */
  datatype LvObservation = LvObservation(
    identity: Lv, active: bool, claimFree: bool, consumers: seq<string>, exports: seq<string>)

  datatype ExportObservation = ExportObservation(
    targetId: string, namespaceEnabled: bool, aclEnabled: bool, allowedHosts: seq<string>)

  /** Can `host` do I/O through the configured export? */
  predicate Serves(e: ExportObservation, host: string) {
    e.namespaceEnabled && (e.aclEnabled ==> host in e.allowedHosts)
  }

  predicate AdmitsInitiators(e: ExportObservation) {
    e.namespaceEnabled && (!e.aclEnabled || |e.allowedHosts| > 0)
  }

  lemma AdmitsInitiatorsIff(e: ExportObservation)
    ensures AdmitsInitiators(e) <==> exists host :: Serves(e, host)
  {
    if AdmitsInitiators(e) {
      var host := if e.aclEnabled then e.allowedHosts[0] else "";
      assert Serves(e, host);
    }
  }

  /** The old initiator is proven stopped: nobody on the node or the network reaches the LV. */
  ghost predicate ProvenStopped(
    pin: Lv, obs: Option<LvObservation>, ownIds: set<string>, own: Option<seq<ExportObservation>>)
  {
    && obs.Some? && own.Some?
    && obs.value.identity == pin && obs.value.active && obs.value.claimFree && obs.value.consumers == []
    && (forall x | x in obs.value.exports :: x in ownIds)
    && (forall e, host | e in own.value :: !Serves(e, host))
  }

  /** `obs` or `own` is None when the backend or the target state cannot be observed. */
  method VerifyTransferEvidence(
    pin: Lv, obs: Option<LvObservation>, ownIds: set<string>, own: Option<seq<ExportObservation>>)
    returns (stopped: bool)
    ensures stopped <==> ProvenStopped(pin, obs, ownIds, own)
  {
    if obs.None? { return false; }
    var o := obs.value;
    for i := 0 to |o.exports|
      invariant forall k | 0 <= k < i :: o.exports[k] in ownIds
    {
      if o.exports[i] !in ownIds { return false; }
    }
    if o.identity != pin || !o.active || !o.claimFree || |o.consumers| > 0 { return false; }
    if own.None? { return false; }
    for i := 0 to |own.value|
      invariant forall k, host | 0 <= k < i :: !Serves(own.value[k], host)
    {
      AdmitsInitiatorsIff(own.value[i]);
      if AdmitsInitiators(own.value[i]) { return false; }
    }
    return true;
  }
}
