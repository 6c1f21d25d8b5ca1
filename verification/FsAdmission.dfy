/** How a native filesystem operation is admitted on the mark of its resource key. */
module FsAdmission {
  import opened Marks

  datatype FsRequest = FsRequest(
    op: Op, importing: bool, adoption: string, volumeId: string, capacity: int, layout: string)

  datatype Verdict = Skip | Refuse | Proceed

  predicate Owns(stored: Option<Mark>, token: Token) {
    stored.Some? && !stored.value.ended && stored.value.uid == token.uid
  }

  function State(r: FsRequest, token: Token, stored: Option<Mark>): (v: Verdict)
    ensures v == Proceed && !r.importing && !r.op.Destroy? ==> Owns(stored, token)
    ensures v == Proceed && stored.Some? && stored.value.uid == token.uid ==>
              stored.value.fs.adoption == Some(r.adoption) && stored.value.fs.volumeId == r.volumeId
  {
    if !r.importing && r.op.Grant? && !Owns(stored, token) then Refuse
    else if r.op.Revoke? && !Owns(stored, token) then Skip
    else if stored.Some? && stored.value.uid == token.uid &&
            (stored.value.fs.adoption != Some(r.adoption) || stored.value.fs.volumeId != r.volumeId) then Refuse
    else Proceed
  }

  /** A grant needs an exact positive capacity that agrees with the durable import. */
  predicate CapacityAgrees(r: FsRequest, token: Token, stored: Option<Mark>) {
    if r.capacity <= 0 then !r.op.Grant?
    else Owns(stored, token) ==>
           stored.value.fs.capacity == r.capacity && stored.value.fs.layout == Some(r.layout)
  }

  /** The mark the operation owns before its mutation touches anything. */
  function Claim(r: FsRequest, next: Mark): Mark {
    var named := next.fs.(adoption := Some(r.adoption), volumeId := r.volumeId);
    next.(fs := if r.capacity > 0 then named.(capacity := r.capacity, layout := Some(r.layout)) else named)
  }
}
