/** Which held rows the dispatcher sends back by itself: those that could never go where they were meant to, and no other. */
module HeldRows {
  import opened Wrappers
  import opened Policy
  import opened Outbox
  import opened Dispatcher
  import Settlement

  /** Held for its destination, with somebody to return it to. */
  predicate NowhereToGo(r: Row) {
    && (|| (r.kind == PegIn && r.lastError == Some("INVALID_DESTINATION"))
        || (r.kind == PegOut && r.lastError == Some("RETURN_INVALID_DEST")))
    && r.sender.Some? && r.sender.value != ""
  }

  // ---------- no other row is sent back ----------

  predicate HasBack(rows: Rows, id: string) {
    id + REFUND_SUFFIX in rows || id + RETURN_SUFFIX in rows
  }

  /** A held row has a refund or a return, or is about to be flipped, only for its destination. */
  ghost predicate HeldAreDue(s: Sys) {
    && (s.tick.Flip? ==> NowhereToGo(s.tick.rec))
    && forall id :: id in s.rows && s.rows[id].status == HELD && HasBack(s.rows, id) ==> NowhereToGo(s.rows[id])
  }

  /** Something the step does sends the held row back, or takes it out of holding in any other way. */
  predicate LetGo(rows: Rows, rows': Rows, id: string) {
    || id !in rows' || rows'[id].status != HELD
    || (id + REFUND_SUFFIX in rows' && id + REFUND_SUFFIX !in rows)
    || (id + RETURN_SUFFIX in rows' && id + RETURN_SUFFIX !in rows)
  }

  // ---------- which steps touch it ----------

  lemma OutsidersLeaveHeld(o: Opts, s: Sys, e: Event, id: string)
    requires Inv(s) && Enabled(o, s, e) && id in s.rows && s.rows[id].status == HELD
    requires e.Advance? || e.NoteBurn? || e.Forget? || e.PinTxid? || e.PinFee?
    ensures id != Target(s, e)
  {
  }

  lemma TickLeavesHeld(o: Opts, s: Sys, e: Event, id: string)
    requires Inv(s) && Enabled(o, s, e) && id in s.rows && s.rows[id].status == HELD
    requires e.Requeue? || e.MarkBroadcast? || e.WriteTransition?
    ensures id != Target(s, e)
  {
    if !e.WriteTransition? {
      assert s.tick.todo[0] in s.tick.todo;
    }
  }

  lemma ClosingLeavesHeld(o: Opts, s: Sys, e: Event, id: string)
    requires Inv(s) && Enabled(o, s, e) && id in s.rows && s.rows[id].status == HELD && e.CloseOut?
    requires id == Target(s, e)
    ensures s.tick.CloseParent? && s.tick.parentId == id
  {
  }

  /** Only the flip and, once its child is confirmed, the closing take a held row out of holding; nothing else writes to it. */
  lemma HeldStatusLeft(o: Opts, s: Sys, e: Event, id: string)
    requires Inv(s) && Enabled(o, s, e) && id in s.rows && s.rows[id].status == HELD
    requires id !in Next(o, s, e).rows || Next(o, s, e).rows[id] != s.rows[id]
    ensures (e.FlipHeld? && s.tick.rec.id == id) || (e.CloseOut? && s.tick.CloseParent? && s.tick.parentId == id) || e.Redrive?
  {
    if id != Target(s, e) {
      OtherRowsAreUntouched(o, s, e, id);
    } else if Writes(e) {
      HeldTarget(o, s, e, id);
    } else {
      OnlyWritersWrite(o, s, e, id);
    }
  }

  lemma HeldTarget(o: Opts, s: Sys, e: Event, id: string)
    requires Inv(s) && Enabled(o, s, e) && Writes(e) && id in s.rows && s.rows[id].status == HELD && id == Target(s, e)
    ensures (e.FlipHeld? && s.tick.rec.id == id) || (e.CloseOut? && s.tick.CloseParent? && s.tick.parentId == id) || e.Redrive?
  {
    if e.Advance? || e.NoteBurn? || e.Forget? || e.PinTxid? || e.PinFee? {
      OutsidersLeaveHeld(o, s, e, id);
    } else if e.Requeue? || e.MarkBroadcast? || e.WriteTransition? {
      TickLeavesHeld(o, s, e, id);
    } else if e.CloseOut? {
      ClosingLeavesHeld(o, s, e, id);
    } else if e.Abandon? {
      ChildIdIsNotSource(e.parentId, Refund);
      assert RowOk(s.rows, s.sent, id);
    }
  }

  /** The planned child of another row is no child of this one. */
  lemma SpawnedForItself(o: Opts, rows: Rows, rec: Row, status: Status, sweep: int, now: int, id: string)
    requires id in rows && rows[id].status == HELD
    requires LetGo(rows, EnqueueAll(rows, PlanChildren(rec, status, o.feesGate, sweep, o.refundFee), now), id)
    ensures rec.id == id
  {
    var children := PlanChildren(rec, status, o.feesGate, sweep, o.refundFee);
    assert children != [];
    var n := children[0];
    if n.id == id + REFUND_SUFFIX {
      ChildIdsInjective(rec.id, n.id[|rec.id|..], id, REFUND_SUFFIX);
    } else {
      assert n.id == id + RETURN_SUFFIX;
      ChildIdsInjective(rec.id, n.id[|rec.id|..], id, RETURN_SUFFIX);
    }
  }

  /** A row not held before, or new, has no child when it comes to be held. */
  lemma NewlyHeldHasNoBack(o: Opts, s: Sys, e: Event, id: string)
    requires Inv(s) && Enabled(o, s, e) && id in Next(o, s, e).rows && Next(o, s, e).rows[id].status == HELD
    requires id !in s.rows || s.rows[id].status != HELD
    ensures e.Discover? || e.Advance?
    ensures !HasBack(s.rows, id) && !HasBack(Next(o, s, e).rows, id)
  {
    BecomesHeldBy(o, s, e, id);
    BackHasParent(s, id);
    ChildIdIsNotSource(id, Refund);
    ChildIdIsNotSource(id, GramReturn);
    if HasBack(Next(o, s, e).rows, id) {
      var child := if id + REFUND_SUFFIX in Next(o, s, e).rows then id + REFUND_SUFFIX else id + RETURN_SUFFIX;
      if child !in s.rows {
        OnlyTheseAddRows(o, s, e, child);
      }
    }
  }

  lemma BecomesHeldBy(o: Opts, s: Sys, e: Event, id: string)
    requires Inv(s) && Enabled(o, s, e) && id in Next(o, s, e).rows && Next(o, s, e).rows[id].status == HELD
    requires id !in s.rows || s.rows[id].status != HELD
    ensures (e.Discover? && id !in s.rows) || (e.Advance? && id in s.rows && s.rows[id].status == SEEN)
  {
    if id in s.rows {
      if id != Target(s, e) {
        OtherRowsAreUntouched(o, s, e, id);
      } else if Writes(e) {
        OnlyAdvanceHolds(o, s, e, id);
      } else {
        OnlyWritersWrite(o, s, e, id);
      }
    } else {
      OnlyTheseAddRows(o, s, e, id);
    }
  }

  lemma OnlyAdvanceHolds(o: Opts, s: Sys, e: Event, id: string)
    requires Inv(s) && Enabled(o, s, e) && Writes(e) && id == Target(s, e) && id in s.rows && s.rows[id].status != HELD
    requires id in Next(o, s, e).rows && Next(o, s, e).rows[id].status == HELD
    ensures e.Advance? && s.rows[id].status == SEEN
  {
  }

  /** A refund or a return has its parent, which is past being seen. */
  lemma BackHasParent(s: Sys, id: string)
    requires Inv(s)
    ensures HasBack(s.rows, id) ==> id in s.rows && s.rows[id].status != SEEN
  {
    if HasBack(s.rows, id) {
      var kind := if id + REFUND_SUFFIX in s.rows then Refund else GramReturn;
      RowAtChildId(s.rows, s.sent, id, kind);
      assert RowOk(s.rows, s.sent, id + Suffix(kind));
    }
  }

  /** A new refund or return of a held row is that of the row the tick has found due. */
  lemma NewBackIsDue(o: Opts, s: Sys, e: Event, id: string)
    requires Inv(s) && Enabled(o, s, e) && id in s.rows && s.rows[id].status == HELD
    requires !HasBack(s.rows, id) && HasBack(Next(o, s, e).rows, id)
    ensures NowhereToGo(s.rows[id])
  {
    var rows' := Next(o, s, e).rows;
    var child := if id + REFUND_SUFFIX in rows' then id + REFUND_SUFFIX else id + RETURN_SUFFIX;
    OnlyTheseAddRows(o, s, e, child);
    ChildIdIsNotSource(id, Refund);
    ChildIdIsNotSource(id, GramReturn);
    if e.SpawnHeld? {
      var rec := s.tick.todo[0];
      assert rec in s.tick.todo;
      SpawnedForItself(o, s.rows, rec, REFUNDING, 0, e.now, id);
    } else {
      SpawnedForItself(o, s.rows, s.tick.rec, s.tick.status, s.tick.sweep, e.now, id);
    }
  }

  lemma NewFlipIsDue(o: Opts, s: Sys, e: Event)
    requires Inv(s) && HeldAreDue(s) && Enabled(o, s, e) && Next(o, s, e).tick.Flip?
    ensures NowhereToGo(Next(o, s, e).tick.rec)
  {
  }

  lemma StepKeepsHeldDue(o: Opts, s: Sys, e: Event)
    requires Inv(s) && HeldAreDue(s) && Enabled(o, s, e)
    ensures HeldAreDue(Next(o, s, e))
  {
    var s' := Next(o, s, e);
    if s'.tick.Flip? {
      NewFlipIsDue(o, s, e);
    }
    forall id | id in s'.rows && s'.rows[id].status == HELD && HasBack(s'.rows, id) ensures NowhereToGo(s'.rows[id]) {
      if id !in s.rows || s.rows[id].status != HELD {
        NewlyHeldHasNoBack(o, s, e, id);
      } else {
        StillHeldIsDue(o, s, e, id);
      }
    }
  }

  lemma StillHeldIsDue(o: Opts, s: Sys, e: Event, id: string)
    requires Inv(s) && HeldAreDue(s) && Enabled(o, s, e) && id in s.rows && s.rows[id].status == HELD
    requires id in Next(o, s, e).rows && Next(o, s, e).rows[id].status == HELD && HasBack(Next(o, s, e).rows, id)
    ensures NowhereToGo(Next(o, s, e).rows[id])
  {
    if Next(o, s, e).rows[id] != s.rows[id] {
      HeldStatusLeft(o, s, e, id);
      assert false;
    }
    if !HasBack(s.rows, id) {
      NewBackIsDue(o, s, e, id);
    }
  }

  lemma {:induction false} HeldStayDue(o: Opts, ss: seq<Sys>, i: nat)
    requires Run(o, ss) && i < |ss|
    ensures HeldAreDue(ss[i])
  {
    if i > 0 {
      HeldStayDue(o, ss, i - 1);
      RunKeepsInv(o, ss, i - 1);
      assert Step(o, ss[i - 1], ss[i - 1 + 1]);
      var e :| Enabled(o, ss[i - 1], e) && ss[i] == Next(o, ss[i - 1], e);
      StepKeepsHeldDue(o, ss[i - 1], e);
    } else {
      assert Initial(ss[0]);
    }
  }

  lemma LetGoIsDue(o: Opts, s: Sys, e: Event, id: string)
    requires Inv(s) && HeldAreDue(s) && Settlement.TickSettles(o, s.rows, s.tick) && Enabled(o, s, e) && !e.Redrive?
    requires id in s.rows && s.rows[id].status == HELD && LetGo(s.rows, Next(o, s, e).rows, id)
    ensures NowhereToGo(s.rows[id])
  {
    var s' := Next(o, s, e);
    if id !in s'.rows || s'.rows[id].status != HELD {
      HeldStatusLeft(o, s, e, id);
      assert RowOk(s.rows, s.sent, id);
    } else if !HasBack(s.rows, id) {
      NewBackIsDue(o, s, e, id);
    }
  }

  /**
   Over every run, a held row leaves HELD, or gets a refund or a return, by no step but an
   operator's directive, unless it was held for its destination and has a sender.
   */
  lemma OnlyForItsDestination(o: Opts, ss: seq<Sys>, i: nat, e: Event, id: string)
    requires Run(o, ss) && i < |ss| && Enabled(o, ss[i], e) && !e.Redrive?
    requires id in ss[i].rows && ss[i].rows[id].status == HELD
    ensures var rows, rows' := ss[i].rows, Next(o, ss[i], e).rows;
            (|| id !in rows' || rows'[id].status != HELD
             || (id + ":refund" in rows' && id + ":refund" !in rows)
             || (id + ":return" in rows' && id + ":return" !in rows))
            ==> NowhereToGo(rows[id])
  {
    RunKeepsInv(o, ss, i);
    HeldStayDue(o, ss, i);
    Settlement.RunSettles(o, ss, i);
    if LetGo(ss[i].rows, Next(o, ss[i], e).rows, id) {
      LetGoIsDue(o, ss[i], e, id);
    }
  }

  // ---------- and those are ----------

  /** The row that sends a peg-in's gross, or a burn's amount, back but for the fee. */
  function BackRow(r: Row, refundFee: int, now: int): Row {
    var suffix := if r.kind == PegIn then ":refund" else ":return";
    Row(r.id + suffix, if r.kind == PegIn then Refund else GramReturn, r.remoteChain,
        if r.sender.Some? then r.sender.value else "", None, r.amount - refundFee, 0, r.digest + suffix, QUEUED, 0,
        None, None, now, now, 0, Some(r.id))
  }

  /** The table after a held row has been dealt with. */
  function Dealt(rows: Rows, r: Row, refundFee: int, childAt: int, at: int): Rows {
    if !NowhereToGo(r) then rows
    else if r.amount <= refundFee then
      rows[r.id := r.(status := REFUNDED, lastError := Some("dust retained"), updatedAt := at)]
    else
      var back := BackRow(r, refundFee, childAt);
      (if back.id in rows then rows else rows[back.id := back])[r.id := r.(status := REFUNDING, updatedAt := at)]
  }

  /** The head of a held snapshot: sent back in two steps when it has nowhere to go, and passed over when it has. */
  lemma HeldHeadIsDealtWith(o: Opts, s: Sys, now: int)
    requires Inv(s) && s.tick.Held? && s.tick.todo != [] && s.tick.todo[0].kind == s.tick.kind
    ensures var rec, tick := s.tick.todo[0], Held(s.tick.kind, s.tick.now, s.tick.todo[1..]);
            var s1 := Next(o, s, SpawnHeld(now));
            && rec.id in s.rows && s.rows[rec.id] == rec && rec.status == HELD
            && if NowhereToGo(rec)
               then s1.tick.Flip? && Next(o, s1, FlipHeld) == s.(rows := Dealt(s.rows, rec, o.refundFee, now, s.tick.now), tick := tick)
               else s1 == s.(tick := tick)
  {
    var rec := s.tick.todo[0];
    assert rec in s.tick.todo;
    assert rec.id + REFUND_SUFFIX != rec.id && rec.id + RETURN_SUFFIX != rec.id;
  }

  /** A row of the other kind is left to the other pass. */
  lemma OtherKindIsPassedOver(o: Opts, s: Sys, now: int)
    requires s.tick.Held? && s.tick.todo != [] && s.tick.todo[0].kind != s.tick.kind
    ensures Next(o, s, SpawnHeld(now)) == s.(tick := Held(s.tick.kind, s.tick.now, s.tick.todo[1..]))
  {
  }
}
