/**
 What a tick does to the rows, told by the rows alone: what becomes of a delivery for each answer it
 may get, and of a row that a crash left in delivery; and which rows the tick's queries pick.
 */
module TickLaws {
  import opened Wrappers
  import opened Policy
  import opened Outbox
  import opened Dispatcher

  // ---------- what watchers write ----------

  /** A watcher adds a row as it is, once; it lets a row it has seen go on, or holds it with the reason, or notes its burn. */
  lemma WatchersWrite(o: Opts, s: Sys, e: Event)
    requires Inv(s) && Enabled(o, s, e)
    ensures e.Discover? ==>
              var n := e.row;
              Next(o, s, e) == if n.id in s.rows then s
                               else s.(rows := s.rows[n.id := Row(n.id, n.kind, n.remoteChain, n.recipient, n.sender, n.amount, 0,
                                                                  n.digest, n.status, 0, n.lastError, None, e.now, e.now, 0, None)])
    ensures e.Advance? ==>
              && e.id in s.rows && s.rows[e.id].status == SEEN && (e.status == QUEUED || e.status == HELD)
              && Next(o, s, e) == s.(rows := s.rows[e.id := s.rows[e.id].(status := e.status, updatedAt := e.now,
                                     lastError := if e.lastError.Some? then e.lastError else s.rows[e.id].lastError)])
    ensures e.NoteBurn? ==>
              && e.id in s.rows && s.rows[e.id].status == SEEN
              && Next(o, s, e) == s.(rows := s.rows[e.id := s.rows[e.id].(txid := Some(e.txid), updatedAt := e.now)])
    ensures e.Forget? ==> e.id in s.rows && s.rows[e.id].status == SEEN && Next(o, s, e) == s.(rows := s.rows - {e.id})
  {
  }

  // ---------- a delivery and its answer ----------

  /** The steps that take an answer, write it and spawn what follows, with nothing in between. */
  ghost predicate Answered(o: Opts, s: Sys, result: Delivery, at: int, sweep: int, s2: Sys, s3: Sys) {
    && s.tick.Submitting?
    && s2 == Next(o, Next(o, s, TakeAnswer(result, at)), WriteTransition(sweep, at))
    && s3 == Next(o, s2, SpawnChildren(at))
  }

  /** The row of the deposit's fee that is swept once it is minted. */
  function SweepRow(rec: Row, feesGate: string, sweep: int, at: int): Row {
    Row(rec.id + ":fee", FeeSweep, rec.remoteChain, feesGate, None, sweep, 0, rec.digest + ":fee", QUEUED, 0,
        None, None, at, at, 0, Some(rec.id))
  }

  function RefundRow(rec: Row, net: int, at: int): Row {
    Row(rec.id + ":refund", Refund, rec.remoteChain, if rec.sender.Some? then rec.sender.value else "", None, net, 0,
        rec.digest + ":refund", QUEUED, 0, None, None, at, at, 0, Some(rec.id))
  }

  lemma InDelivery(s: Sys)
    requires Inv(s) && s.tick.Submitting?
    ensures var rec := s.tick.rec;
            && rec.id in s.rows && s.rows[rec.id].status == BROADCAST && s.rows[rec.id].id == rec.id && rec.id + ":fee" !in s.rows
            && s.rows[rec.id].kind == rec.kind && s.rows[rec.id].parentId == rec.parentId
            && (rec.kind in {Refund, GramReturn} ==> rec.parentId.Some?)
  {
    var id := s.tick.rec.id;
    assert RowOk(s.rows, s.sent, id);
    ChildrenAgree(s.rows, s.sent, id);
  }

  lemma AnsweredBy(o: Opts, s: Sys, result: Delivery, at: int, sweep: int, s2: Sys, s3: Sys, status: Status, patch: Patch)
    requires Answered(o, s, result, at, sweep, s2, s3) && s.tick.rec.id in s.rows
    requires PlanTransition(s.tick.rec, result, at, o.retryIntervalMs, o.windowMs) == (status, patch)
    ensures var rec := s.tick.rec;
            var children := PlanChildren(rec, status, o.feesGate, sweep, o.refundFee);
            && s2.rows == s.rows[rec.id := Patched(s.rows[rec.id], status, patch, at)]
            && s3.rows == EnqueueAll(s2.rows, children, at) && s3.tick == AfterSpawn(rec, status, children, s.tick.todo)
            && s3 == s2.(rows := s3.rows, tick := s3.tick)
  {
  }

  /** A failure is planned for another attempt, and to be given up only for a peg-in past its window. */
  lemma PlanOfFailure(o: Opts, rec: Row, result: Delivery, at: int)
    requires !result.broadcast
    ensures var error, next := if result.error.Some? then result.error.value else "delivery failed", at + o.retryIntervalMs;
            PlanTransition(rec, result, at, o.retryIntervalMs, o.windowMs)
            == if rec.kind == PegIn && at - rec.createdAt >= o.windowMs
               then (REFUNDING, Patch(Some(rec.attempts + 1), Some(Some("window exhausted: " + error)), None, Some(next), None))
               else (QUEUED, Patch(Some(rec.attempts + 1), Some(Some(error)), None, Some(next), None))
  {
  }

  /** What is sent back of a peg-in given up: all but the fee, to its sender, if there is one and anything is left. */
  lemma RefundOfGivenUp(o: Opts, rows: Rows, rec: Row, sweep: int, at: int, todo: seq<Row>)
    requires rec.kind == PegIn
    ensures var children := PlanChildren(rec, REFUNDING, o.feesGate, sweep, o.refundFee);
            if rec.sender.Some? && rec.sender.value != "" && rec.amount > o.refundFee
            then AfterSpawn(rec, REFUNDING, children, todo) == Deliver(todo)
                 && EnqueueAll(rows, children, at) == (if rec.id + ":refund" in rows then rows
                                                       else rows[rec.id + ":refund" := RefundRow(rec, rec.amount - o.refundFee, at)])
            else AfterSpawn(rec, REFUNDING, children, todo) == CloseDust(rec, todo) && EnqueueAll(rows, children, at) == rows
  {
  }

  lemma NothingSpawnedForQueued(o: Opts, rec: Row, sweep: int, todo: seq<Row>)
    ensures PlanChildren(rec, QUEUED, o.feesGate, sweep, o.refundFee) == [] && AfterSpawn(rec, QUEUED, [], todo) == Deliver(todo)
  {
  }

  /** A broadcast is confirmed, with the txid and the fee it names; a minted deposit's fee is due for sweeping. */
  lemma SuccessConfirms(o: Opts, s: Sys, result: Delivery, at: int, sweep: int, s2: Sys, s3: Sys)
    requires Inv(s) && Answered(o, s, result, at, sweep, s2, s3) && result.broadcast
    ensures var rec := s.tick.rec; rec.id in s.rows && var r := s.rows[rec.id];
            && s2.rows == s.rows[rec.id := r.(status := CONFIRMED, lastError := None, txid := result.txid, updatedAt := at,
                                              fee := if result.fee.Some? && result.fee.value > 0 then result.fee.value else r.fee)]
            && s3.rows == (if rec.kind == PegIn && sweep > 0 then s2.rows[rec.id + ":fee" := SweepRow(rec, o.feesGate, sweep, at)]
                           else s2.rows)
  {
    InDelivery(s);
    var fee := if result.fee.Some? && result.fee.value > 0 then result.fee else None;
    AnsweredBy(o, s, result, at, sweep, s2, s3, CONFIRMED, Patch(None, Some(None), Some(result.txid), None, fee));
  }

  /**
   A failure within the window, or of anything but a peg-in whenever it comes, is tried again after the
   interval, with the attempt counted and whatever was pinned kept.
   */
  lemma FailureRetries(o: Opts, s: Sys, result: Delivery, at: int, sweep: int, s2: Sys, s3: Sys)
    requires Inv(s) && Answered(o, s, result, at, sweep, s2, s3) && !result.broadcast
    requires s.tick.rec.kind != PegIn || at - s.tick.rec.createdAt < o.windowMs
    ensures var rec := s.tick.rec; rec.id in s.rows && var r := s.rows[rec.id];
            && s2.rows == s.rows[rec.id := r.(status := QUEUED, attempts := rec.attempts + 1, nextAttemptAt := at + o.retryIntervalMs,
                                              lastError := Some(if result.error.Some? then result.error.value else "delivery failed"),
                                              updatedAt := at)]
            && s3 == s2.(tick := Deliver(s.tick.todo))
  {
    InDelivery(s);
    PlanOfFailure(o, s.tick.rec, result, at);
    NothingSpawnedForQueued(o, s.tick.rec, sweep, s.tick.todo);
    var patch := PlanTransition(s.tick.rec, result, at, o.retryIntervalMs, o.windowMs).1;
    AnsweredBy(o, s, result, at, sweep, s2, s3, QUEUED, patch);
  }

  /** A peg-in that fails past the window is given up, with whatever was pinned kept. */
  lemma FailureGivesUp(o: Opts, s: Sys, result: Delivery, at: int, sweep: int, s2: Sys, s3: Sys)
    requires Inv(s) && Answered(o, s, result, at, sweep, s2, s3) && !result.broadcast
    requires s.tick.rec.kind == PegIn && at - s.tick.rec.createdAt >= o.windowMs
    ensures var rec := s.tick.rec; rec.id in s.rows && var r := s.rows[rec.id];
            s2.rows == s.rows[rec.id := r.(status := REFUNDING, attempts := rec.attempts + 1,
                                           nextAttemptAt := at + o.retryIntervalMs, updatedAt := at,
                                           lastError := Some("window exhausted: " + if result.error.Some? then result.error.value
                                                                                    else "delivery failed"))]
  {
    InDelivery(s);
    PlanOfFailure(o, s.tick.rec, result, at);
    var patch := PlanTransition(s.tick.rec, result, at, o.retryIntervalMs, o.windowMs).1;
    AnsweredBy(o, s, result, at, sweep, s2, s3, REFUNDING, patch);
  }

  /** And then sent back to its sender less the fee, or about to be closed as dust. */
  lemma GivenUpIsSentBack(o: Opts, s: Sys, result: Delivery, at: int, sweep: int, s2: Sys, s3: Sys)
    requires Inv(s) && Answered(o, s, result, at, sweep, s2, s3) && !result.broadcast
    requires s.tick.rec.kind == PegIn && at - s.tick.rec.createdAt >= o.windowMs
    ensures var rec := s.tick.rec;
            if rec.sender.Some? && rec.sender.value != "" && rec.amount > o.refundFee
            then s3.tick == Deliver(s.tick.todo)
                 && s3.rows == (if rec.id + ":refund" in s2.rows then s2.rows
                                else s2.rows[rec.id + ":refund" := RefundRow(rec, rec.amount - o.refundFee, at)])
            else s3.rows == s2.rows && s3.tick == CloseDust(rec, s.tick.todo)
  {
    InDelivery(s);
    PlanOfFailure(o, s.tick.rec, result, at);
    var patch := PlanTransition(s.tick.rec, result, at, o.retryIntervalMs, o.windowMs).1;
    AnsweredBy(o, s, result, at, sweep, s2, s3, REFUNDING, patch);
    RefundOfGivenUp(o, s2.rows, s.tick.rec, sweep, at, s.tick.todo);
  }

  /** What closes after that: dust, as it is; a parent whose refund or return has been confirmed. */
  lemma ClosesRefunded(o: Opts, s: Sys, at: int)
    requires Inv(s) && (s.tick.CloseDust? || s.tick.CloseParent?)
    ensures var s', id := Next(o, s, CloseOut(at)), if s.tick.CloseDust? then s.tick.rec.id else s.tick.parentId;
            && s'.tick == Deliver(s.tick.todo) && id in s.rows
            && s'.rows == s.rows[id := s.rows[id].(status := REFUNDED, updatedAt := at,
                                                   lastError := if s.tick.CloseDust? then Some("dust retained") else s.rows[id].lastError)]
  {
  }

  /** A confirmed refund or return closes the row it was spawned from; no other success closes a row. */
  lemma ConfirmedBackClosesItsParent(o: Opts, s: Sys, result: Delivery, at: int, sweep: int, s2: Sys, s3: Sys)
    requires Inv(s) && Answered(o, s, result, at, sweep, s2, s3) && result.broadcast
    ensures var rec := s.tick.rec; rec.id in s.rows
    ensures var rec := s.tick.rec;
            if rec.kind in {Refund, GramReturn}
            then s3.tick.CloseParent? && s.rows[rec.id].parentId == Some(s3.tick.parentId) && s3.tick.todo == s.tick.todo
            else s3.tick == Deliver(s.tick.todo)
  {
    InDelivery(s);
    var fee := if result.fee.Some? && result.fee.value > 0 then result.fee else None;
    AnsweredBy(o, s, result, at, sweep, s2, s3, CONFIRMED, Patch(None, Some(None), Some(result.txid), None, fee));
  }

  // ---------- left in delivery by a crash ----------

  /** In delivery for longer than the shorter of the two timeouts, and for no less than its own. */
  predicate Stranded(o: Opts, now: int, r: Row) {
    && r.status == BROADCAST
    && (now - r.updatedAt > o.pegInTimeoutMs || now - r.updatedAt > o.pegOutTimeoutMs)
    && (if r.kind == PegIn then now - r.updatedAt >= o.pegInTimeoutMs else now - r.updatedAt >= o.pegOutTimeoutMs)
  }

  /** Due at once, with an attempt more, so that its delivery looks on chain first. */
  function Again(r: Row, now: int): Row {
    r.(status := QUEUED, attempts := r.attempts + 1, nextAttemptAt := now, updatedAt := now)
  }

  /** All of the orphans dealt with, with nothing in between. */
  ghost function AfterOrphans(o: Opts, s: Sys): Sys
    requires s.tick.Orphans?
    decreases |s.tick.todo|
  {
    if s.tick.todo == [] then s else AfterOrphans(o, Next(o, s, Requeue))
  }

  predicate Fresh(s: Sys) {
    && s.tick.Orphans? && DistinctIds(s.tick.todo)
    && forall r :: r in s.tick.todo ==> r.id in s.rows && s.rows[r.id] == r && r.status == BROADCAST
  }

  /** The row of a snapshot, if it is in it, and long enough in delivery for its kind. */
  predicate TimedOut(o: Opts, now: int, todo: seq<Row>, r: Row) {
    && r in todo
    && (if r.kind == PegIn then now - r.updatedAt >= o.pegInTimeoutMs else now - r.updatedAt >= o.pegOutTimeoutMs)
  }

  lemma OneOrphan(o: Opts, s: Sys)
    requires Fresh(s) && s.tick.todo != []
    ensures var rec, now, s' := s.tick.todo[0], s.tick.now, Next(o, s, Requeue);
            && Fresh(s') && s'.tick == Orphans(now, s.tick.todo[1..])
            && s'.rows == if TimedOut(o, now, s.tick.todo, rec) then s.rows[rec.id := Again(rec, now)] else s.rows
  {
    var rec, rest := s.tick.todo[0], s.tick.todo[1..];
    assert rec in s.tick.todo;
    forall r | r in rest ensures r in s.tick.todo && r.id != rec.id {
      var i :| 0 <= i < |rest| && rest[i] == r;
      assert s.tick.todo[i + 1] == r;
    }
  }

  lemma {:induction false} OrphansDealtWith(o: Opts, s: Sys, id: string)
    requires Fresh(s) && id in s.rows
    ensures var s' := AfterOrphans(o, s);
            && s'.tick == Orphans(s.tick.now, []) && id in s'.rows
            && s'.rows[id] == if TimedOut(o, s.tick.now, s.tick.todo, s.rows[id]) && s.rows[id].id == id
                              then Again(s.rows[id], s.tick.now) else s.rows[id]
    decreases |s.tick.todo|
  {
    if s.tick.todo != [] {
      var rec, rest := s.tick.todo[0], s.tick.todo[1..];
      OneOrphan(o, s);
      OrphansDealtWith(o, Next(o, s, Requeue), id);
      assert s.tick.todo == [rec] + rest && rec in s.tick.todo;
      if rec.id == id {
        forall r | r in rest ensures r.id != id {
          var i :| 0 <= i < |rest| && rest[i] == r;
          assert s.tick.todo[i + 1] == r;
        }
      }
    }
  }

  /**
   A tick that starts with nothing in between requeues exactly the stranded rows, and leaves every
   other as it is.
   */
  lemma StrandedAreRequeued(o: Opts, s: Sys, now: int, orphans: seq<Row>, id: string)
    requires Inv(s) && Enabled(o, s, StartTick(now, orphans)) && id in s.rows
    ensures var s' := AfterOrphans(o, Next(o, s, StartTick(now, orphans)));
            && s'.tick == Orphans(now, []) && id in s'.rows
            && s'.rows[id] == if Stranded(o, now, s.rows[id]) then Again(s.rows[id], now) else s.rows[id]
  {
    var s1 := Next(o, s, StartTick(now, orphans));
    assert RowOk(s.rows, s.sent, id);
    OrphansDealtWith(o, s1, id);
  }

  // ---------- what the queries pick ----------

  /** A query's answer lists these rows, each once and oldest first. */
  ghost predicate Lists(rows: Rows, answer: seq<Row>, status: Status, now: int) {
    && (forall r :: r in answer <==> r.id in rows && rows[r.id] == r && r.status == status && r.nextAttemptAt <= now)
    && (forall i, j :: 0 <= i < j < |answer| ==> answer[i].id != answer[j].id && answer[i].createdAt <= answer[j].createdAt)
  }

  /** Of the held rows and of the queued ones exactly those whose time has come are picked, oldest first. */
  lemma PicksWhatIsDue(o: Opts, s: Sys, answer: seq<Row>)
    requires Inv(s)
    ensures Enabled(o, s, QueryHeld(PegIn, answer)) <==> s.tick.Orphans? && s.tick.todo == [] && Lists(s.rows, answer, HELD, s.tick.now)
    ensures Enabled(o, s, QueryHeld(PegOut, answer))
            <==> s.tick.Held? && s.tick.kind == PegIn && s.tick.todo == [] && Lists(s.rows, answer, HELD, s.tick.now)
    ensures Enabled(o, s, QueryQueued(answer))
            <==> s.tick.Held? && s.tick.kind == PegOut && s.tick.todo == [] && Lists(s.rows, answer, QUEUED, s.tick.now)
  {
    assert forall id :: id in s.rows ==> RowOk(s.rows, s.sent, id);
  }

  /**
   What was picked is delivered in turn: the row is marked before the coordinator is called, which may
   write to it from then on, and nothing else changes.
   */
  lemma DeliversInTurn(o: Opts, s: Sys, at: int)
    requires Inv(s) && s.tick.Deliver? && s.tick.todo != []
    ensures var rec, s' := s.tick.todo[0], Next(o, s, MarkBroadcast(at));
            && rec.id in s.rows && s.rows[rec.id] == rec && rec.status == QUEUED
            && s'.rows == s.rows[rec.id := rec.(status := BROADCAST, updatedAt := at)]
            && s'.tick == Submitting(rec, s.tick.todo[1..]) && s'.busy == s.busy + {rec.id} && s'.sent == s.sent + {rec.id}
  {
    assert s.tick.todo[0] in s.tick.todo;
  }

  /** The coordinator may write to a row only while it is in delivery, and only its txid and its fee. */
  lemma CoordinatorPins(o: Opts, s: Sys, id: string, txid: string, fee: int, at: int)
    requires Inv(s) && id in s.busy
    ensures id in s.rows && s.rows[id].status == BROADCAST
    ensures Next(o, s, PinTxid(id, txid, at)) == s.(rows := s.rows[id := s.rows[id].(txid := Some(txid), updatedAt := at)])
    ensures Next(o, s, PinFee(id, fee, at)) == s.(rows := s.rows[id := s.rows[id].(fee := fee, updatedAt := at)])
  {
  }

  /** The row that a refund or a return closes: the one on record, or the one its id is told by. */
  lemma ParentIs(r: Row, p: string)
    ensures r.parentId.Some? ==> ParentOf(r) == r.parentId
    ensures r.parentId.None? && (r.id == p + ":refund" || r.id == p + ":return") ==> ParentOf(r) == Some(p)
    ensures r.parentId.None? && IsSourceId(r.id) ==> ParentOf(r) == None
  {
    ChildIdEnds(p, ":refund");
    ChildIdEnds(p, ":return");
  }

  // ---------- an operator's directive ----------

  /** Mint after all: applies to a deposit held, being sent back, or sent back by nothing that went out or may have. */
  predicate MayBeMintedAfterAll(rows: Rows, id: string) {
    && id in rows && rows[id].kind == PegIn
    && (rows[id].status == HELD || rows[id].status == REFUNDING || rows[id].status == REFUNDED)
    && !(id + ":refund" in rows && (rows[id + ":refund"].status == CONFIRMED || rows[id + ":refund"].txid.Some?))
  }

  /** A directive is taken between ticks, exactly for such a deposit. */
  lemma DirectiveIsTakenIff(o: Opts, s: Sys, id: string, at: int)
    ensures Enabled(o, s, Abandon(id, at)) <==> s.tick.Idle? && MayBeMintedAfterAll(s.rows, id)
  {
  }

  /**
   Its refund, if it has one, is marked failed, and then the deposit queued again, due at once, with
   its attempts and all else as they were.
   */
  lemma DirectiveQueuesAgain(o: Opts, s: Sys, id: string, at: int, later: int)
    requires Enabled(o, s, Abandon(id, at))
    ensures var s1 := Next(o, s, Abandon(id, at));
            Enabled(o, s1, Redrive(later)) && var s2 := Next(o, s1, Redrive(later));
            && s2.tick == Idle && id in s2.rows && s2.rows.Keys == s.rows.Keys
            && s2.rows[id] == s.rows[id].(status := QUEUED, nextAttemptAt := later, updatedAt := later,
                                          lastError := Some("re-driven by directive"))
            && (id + ":refund" in s.rows ==> s2.rows[id + ":refund"] == s.rows[id + ":refund"].(status := FAILED, updatedAt := at,
                                                                                               lastError := Some("abandoned by directive")))
            && forall x :: x in s.rows && x != id && x != id + ":refund" ==> s2.rows[x] == s.rows[x]
  {
    assert id + ":refund" != id;
  }
}
