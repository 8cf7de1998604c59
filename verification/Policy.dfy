/** Outbox rows and the dispatcher's pure decisions: the next status of a delivered row and the children it spawns. */
module Policy {
  import opened Wrappers
  import opened Fees
  import Canonical

  datatype Status = SEEN | QUEUED | SIGNING | BROADCAST | CONFIRMED | HELD | REFUNDING | REFUNDED | FAILED

  datatype Kind = PegIn | PegOut | FeeSweep | Refund | GramReturn

  datatype Row = Row(id: string, kind: Kind, remoteChain: Option<Chain>, recipient: string, sender: Option<string>,
                     amount: int, fee: int, digest: string, status: Status, attempts: nat,
                     lastError: Option<string>, txid: Option<string>, createdAt: int, updatedAt: int,
                     nextAttemptAt: int, parentId: Option<string>)

  /** What `enqueue` is given; the row starts with no attempts and no txid. */
  datatype NewRow = NewRow(id: string, kind: Kind, remoteChain: Option<Chain>, recipient: string,
                           sender: Option<string>, amount: int, digest: string, status: Status,
                           lastError: Option<string>, parentId: Option<string>)

  /** A patch field that is `None` leaves the column; `lastError` and `txid` may also be set to null. */
  datatype Patch = Patch(attempts: Option<nat>, lastError: Option<Option<string>>, txid: Option<Option<string>>,
                         nextAttemptAt: Option<int>, fee: Option<int>)

  datatype Delivery = Delivery(broadcast: bool, txid: Option<string>, fee: Option<int>, error: Option<string>)

  const FEE_SUFFIX: string := ":fee"
  const REFUND_SUFFIX: string := ":refund"
  const RETURN_SUFFIX: string := ":return"

  const INVALID_DESTINATION: string := "INVALID_DESTINATION"
  const RETURN_INVALID_DEST: string := "RETURN_INVALID_DEST"

  function EmptyPatch(): Patch {
    Patch(None, None, None, None, None)
  }

  function PlanTransition(rec: Row, result: Delivery, now: int, retryIntervalMs: int, windowMs: int): (Status, Patch) {
    if result.broadcast then
      var fee := if result.fee.Some? && result.fee.value > 0 then result.fee else None;
      (CONFIRMED, Patch(None, Some(None), Some(result.txid), None, fee))
    else
      var error := if result.error.Some? then result.error.value else "delivery failed";
      var next := Some(now + retryIntervalMs);
      if now - rec.createdAt >= windowMs && rec.kind == PegIn
      then (REFUNDING, Patch(Some(rec.attempts + 1), Some(Some("window exhausted: " + error)), None, next, None))
      else (QUEUED, Patch(Some(rec.attempts + 1), Some(Some(error)), None, next, None))
  }

  function RefundAmount(gross: int, refundFee: int): int {
    if gross - refundFee > 0 then gross - refundFee else 0
  }

  predicate HasSender(rec: Row) {
    rec.sender.Some? && rec.sender.value != ""
  }

  function PlanChildren(rec: Row, status: Status, feesGate: string, sweep: int, refundFee: int): (children: seq<NewRow>)
    ensures |children| <= 1
  {
    var amt := RefundAmount(rec.amount, refundFee);
    if status == CONFIRMED && rec.kind == PegIn && sweep > 0 then
      [NewRow(rec.id + FEE_SUFFIX, FeeSweep, rec.remoteChain, feesGate, None, sweep,
              rec.digest + FEE_SUFFIX, QUEUED, None, Some(rec.id))]
    else if status == REFUNDING && rec.kind == PegIn && HasSender(rec) then
      if amt == 0 then []
      else [NewRow(rec.id + REFUND_SUFFIX, Refund, rec.remoteChain, rec.sender.value, None, amt,
                   rec.digest + REFUND_SUFFIX, QUEUED, None, Some(rec.id))]
    else if status == REFUNDING && rec.kind == PegOut && rec.lastError == Some(RETURN_INVALID_DEST) && HasSender(rec) then
      if amt == 0 then []
      else [NewRow(rec.id + RETURN_SUFFIX, GramReturn, rec.remoteChain, rec.sender.value, None, amt,
                   rec.digest + RETURN_SUFFIX, QUEUED, None, Some(rec.id))]
    else []
  }

  /** The action the coordinator is asked to orchestrate for a row, by `recordToAction`. */
  function ActionOf(kind: Kind, id: string, chain: Option<Chain>, recipient: string, amount: int, digest: string): Canonical.Action {
    Canonical.Action(
      match kind
      case PegIn => Canonical.PEG_IN
      case GramReturn => Canonical.GRAM_RETURN
      case _ => Canonical.PEG_OUT,
      id, chain, recipient, amount, digest)
  }

  // ---------- ids ----------

  predicate EndsWith(s: string, suffix: string) {
    |suffix| <= |s| && s[|s| - |suffix|..] == suffix
  }

  /** An id that no child carries. */
  predicate IsSourceId(id: string) {
    !EndsWith(id, FEE_SUFFIX) && !EndsWith(id, REFUND_SUFFIX) && !EndsWith(id, RETURN_SUFFIX)
  }

  lemma ChildIdEnds(parent: string, suffix: string)
    ensures EndsWith(parent + suffix, suffix)
    ensures (parent + suffix)[..|parent + suffix| - |suffix|] == parent
  {
  }

  /** A child id names its parent and its kind. */
  lemma ChildIdsInjective(p: string, s: string, q: string, t: string)
    requires s in {FEE_SUFFIX, REFUND_SUFFIX, RETURN_SUFFIX} && t in {FEE_SUFFIX, REFUND_SUFFIX, RETURN_SUFFIX}
    requires p + s == q + t
    ensures p == q && s == t
  {
    var a, b := p + s, q + t;
    assert a[|a| - 1] == s[|s| - 1] && b[|b| - 1] == t[|t| - 1];
    assert s[|s| - 1] == t[|t| - 1];
    assert p == a[..|a| - |s|] && q == b[..|b| - |t|];
  }
}
