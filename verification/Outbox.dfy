/** The durable outbox table: one row per action, and the statements that change it. */
module Outbox {
  import opened Wrappers
  import opened Policy

  type Rows = map<string, Row>

  /** `INSERT OR IGNORE`: a row that exists already is left as it is. */
  function Enqueue(rows: Rows, n: NewRow, now: int): Rows {
    if n.id in rows then rows
    else rows[n.id := Row(n.id, n.kind, n.remoteChain, n.recipient, n.sender, n.amount, 0, n.digest, n.status, 0,
                          n.lastError, None, now, now, 0, n.parentId)]
  }

  /** The id is taken by another event: the store pauses the gateway. */
  predicate Collides(rows: Rows, n: NewRow) {
    n.id in rows && rows[n.id].digest != n.digest
  }

  function Patched(r: Row, status: Status, patch: Patch, now: int): Row {
    r.(status := status,
       attempts := if patch.attempts.Some? then patch.attempts.value else r.attempts,
       lastError := if patch.lastError.Some? then patch.lastError.value else r.lastError,
       txid := if patch.txid.Some? then patch.txid.value else r.txid,
       fee := if patch.fee.Some? then patch.fee.value else r.fee,
       nextAttemptAt := if patch.nextAttemptAt.Some? then patch.nextAttemptAt.value else r.nextAttemptAt,
       updatedAt := now)
  }

  function SetStatus(rows: Rows, id: string, status: Status, patch: Patch, now: int): Rows {
    if id in rows then rows[id := Patched(rows[id], status, patch, now)] else rows
  }

  function SetFee(rows: Rows, id: string, fee: int, now: int): Rows {
    if id in rows then rows[id := rows[id].(fee := fee, updatedAt := now)] else rows
  }

  /** A query's answer: the rows satisfying `p`, each once. */
  ghost predicate Selects(rows: Rows, p: Row -> bool, answer: seq<Row>) {
    && (forall i, j :: 0 <= i < j < |answer| ==> answer[i].id != answer[j].id)
    && (forall r :: r in answer ==> r.id in rows && rows[r.id] == r && p(r))
    && (forall id :: id in rows && rows[id].id == id && p(rows[id]) ==> rows[id] in answer)
  }

  predicate OldestFirst(answer: seq<Row>) {
    forall i, j :: 0 <= i < j < |answer| ==> answer[i].createdAt <= answer[j].createdAt
  }

  class OutboxStore {
    var rows: Rows
    var paused: bool

    constructor ()
      ensures rows == map[] && !paused
    {
      rows, paused := map[], false;
    }

    /** True exactly when the row is new; a digest clash pauses the gateway and stores nothing. */
    method EnqueueRow(n: NewRow, now: int) returns (inserted: bool)
      modifies this
      ensures rows == Enqueue(old(rows), n, now)
      ensures inserted <==> n.id !in old(rows)
      ensures paused == (old(paused) || Collides(old(rows), n))
    {
      if n.id in rows {
        if rows[n.id].digest != n.digest {
          paused := true;
        }
        return false;
      }
      rows := rows[n.id := Row(n.id, n.kind, n.remoteChain, n.recipient, n.sender, n.amount, 0, n.digest, n.status, 0,
                               n.lastError, None, now, now, 0, n.parentId)];
      inserted := true;
    }

    method SetRowStatus(id: string, status: Status, patch: Patch, now: int)
      modifies this`rows
      ensures rows == SetStatus(old(rows), id, status, patch, now)
    {
      if id in rows {
        var r := rows[id].(status := status, updatedAt := now);
        if patch.attempts.Some? { r := r.(attempts := patch.attempts.value); }
        if patch.lastError.Some? { r := r.(lastError := patch.lastError.value); }
        if patch.txid.Some? { r := r.(txid := patch.txid.value); }
        if patch.fee.Some? { r := r.(fee := patch.fee.value); }
        if patch.nextAttemptAt.Some? { r := r.(nextAttemptAt := patch.nextAttemptAt.value); }
        rows := rows[id := r];
      }
    }

    method SetRowFee(id: string, fee: int, now: int)
      modifies this`rows
      ensures rows == SetFee(old(rows), id, fee, now)
    {
      if id in rows {
        rows := rows[id := rows[id].(fee := fee, updatedAt := now)];
      }
    }
  }
}
