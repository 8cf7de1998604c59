/** What REFUNDED means: the money has gone back, or there was nothing to send or nobody to send it to. */
module Settlement {
  import opened Policy
  import opened Outbox
  import opened Dispatcher

  predicate NothingToSend(o: Opts, r: Row) {
    !HasSender(r) || r.amount <= o.refundFee
  }

  /** The child that sends a deposit or a burn back. */
  function BackId(r: Row): string {
    r.id + if r.kind == PegIn then REFUND_SUFFIX else RETURN_SUFFIX
  }

  predicate SentBack(rows: Rows, r: Row) {
    BackId(r) in rows && rows[BackId(r)].status == CONFIRMED
  }

  predicate Settled(o: Opts, rows: Rows, r: Row) {
    r.status == REFUNDED ==> NothingToSend(o, r) || SentBack(rows, r)
  }

  /** A step about to write REFUNDED may. */
  predicate TickSettles(o: Opts, rows: Rows, t: Tick) {
    match t
    case Flip(_, _, rec, spawned, _) => !spawned ==> NothingToSend(o, rec)
    case CloseDust(rec, _) => NothingToSend(o, rec)
    case CloseParent(p, _) => p in rows && SentBack(rows, rows[p])
    case _ => true
  }

  ghost predicate AllSettled(o: Opts, s: Sys) {
    (forall id :: id in s.rows ==> Settled(o, s.rows, s.rows[id])) && TickSettles(o, s.rows, s.tick)
  }

  // ---------- what a step may do to a row ----------

  predicate SameDeal(r: Row, r': Row) {
    r'.id == r.id && r'.kind == r.kind && r'.amount == r.amount && r'.sender == r.sender
  }

  lemma StepKeepsDeal(o: Opts, s: Sys, e: Event, id: string)
    requires Enabled(o, s, e) && id in s.rows && id in Next(o, s, e).rows
    ensures SameDeal(s.rows[id], Next(o, s, e).rows[id])
  {
    if id != Target(s, e) {
      OtherRowsAreUntouched(o, s, e, id);
    }
  }

  /** Only the two closing steps write REFUNDED. */
  lemma OnlyClosingRefunds(o: Opts, s: Sys, e: Event, id: string)
    requires Inv(s) && Enabled(o, s, e) && id in Next(o, s, e).rows
    requires Next(o, s, e).rows[id].status == REFUNDED
    ensures (id in s.rows && s.rows[id].status == REFUNDED) || ((e.FlipHeld? || e.CloseOut?) && id == Target(s, e))
  {
    if id !in s.rows {
      NewRowsAreNotRefunded(o, s, e, id);
    } else if id != Target(s, e) {
      OtherRowsAreUntouched(o, s, e, id);
    }
  }

  lemma NewRowsAreNotRefunded(o: Opts, s: Sys, e: Event, id: string)
    requires Enabled(o, s, e) && id !in s.rows && id in Next(o, s, e).rows
    ensures Next(o, s, e).rows[id].status in {SEEN, QUEUED, HELD}
  {
  }

  lemma SentBackStays(o: Opts, s: Sys, e: Event, r: Row)
    requires Inv(s) && Enabled(o, s, e) && SentBack(s.rows, r)
    ensures SentBack(Next(o, s, e).rows, r)
  {
    StepKeepsFinal(o, s, e, BackId(r));
  }

  // ---------- steps ----------

  lemma ClosingSettles(o: Opts, s: Sys, e: Event, id: string)
    requires Inv(s) && AllSettled(o, s) && Enabled(o, s, e) && (e.FlipHeld? || e.CloseOut?) && id == Target(s, e)
    requires id in s.rows && Next(o, s, e).rows[id].status == REFUNDED
    ensures NothingToSend(o, s.rows[id]) || SentBack(s.rows, s.rows[id])
  {
  }

  lemma RowsStaySettled(o: Opts, s: Sys, e: Event, id: string)
    requires Inv(s) && AllSettled(o, s) && Enabled(o, s, e) && id in Next(o, s, e).rows
    ensures Settled(o, Next(o, s, e).rows, Next(o, s, e).rows[id])
  {
    var rows' := Next(o, s, e).rows;
    if rows'[id].status == REFUNDED {
      OnlyClosingRefunds(o, s, e, id);
      if e.FlipHeld? || e.CloseOut? {
        assert id in s.rows;
      }
      StepKeepsDeal(o, s, e, id);
      if s.rows[id].status != REFUNDED {
        ClosingSettles(o, s, e, id);
      }
      if SentBack(s.rows, s.rows[id]) {
        SentBackStays(o, s, e, s.rows[id]);
      }
    }
  }

  /** A confirmed refund or return closes its own parent. */
  lemma SpawnedTickSettles(o: Opts, s: Sys, e: Event)
    requires Inv(s) && Enabled(o, s, e) && e.SpawnChildren?
    ensures TickSettles(o, Next(o, s, e).rows, Next(o, s, e).tick)
  {
    var s', rec := Next(o, s, e), s.tick.rec;
    assert RowOk(s.rows, s.sent, rec.id);
    if s'.tick.CloseParent? {
      assert ChildOk(s.rows, s.rows[rec.id]);
      SpawnStepKeepsInv(o, s, e);
      assert s'.rows == s.rows;
    }
  }

  lemma HeldTickSettles(o: Opts, s: Sys, e: Event)
    requires Inv(s) && Enabled(o, s, e) && e.SpawnHeld?
    ensures TickSettles(o, Next(o, s, e).rows, Next(o, s, e).tick)
  {
    assert s.tick.todo[0] in s.tick.todo;
  }

  lemma OtherTicksSettle(o: Opts, s: Sys, e: Event)
    requires Inv(s) && AllSettled(o, s) && Enabled(o, s, e) && !e.SpawnChildren? && !e.SpawnHeld?
    ensures TickSettles(o, Next(o, s, e).rows, Next(o, s, e).tick)
  {
    if s.tick.CloseParent? && Next(o, s, e).tick.CloseParent? {
      var p := s.tick.parentId;
      SentBackStays(o, s, e, s.rows[p]);
      if p in Next(o, s, e).rows {
        StepKeepsDeal(o, s, e, p);
      }
    }
  }

  lemma StepSettles(o: Opts, s: Sys, s': Sys)
    requires Inv(s) && AllSettled(o, s) && Step(o, s, s')
    ensures AllSettled(o, s')
  {
    var e :| Enabled(o, s, e) && s' == Next(o, s, e);
    forall id | id in s'.rows ensures Settled(o, s'.rows, s'.rows[id]) {
      RowsStaySettled(o, s, e, id);
    }
    if e.SpawnChildren? {
      SpawnedTickSettles(o, s, e);
    } else if e.SpawnHeld? {
      HeldTickSettles(o, s, e);
    } else {
      OtherTicksSettle(o, s, e);
    }
  }

  lemma {:induction false} RunSettles(o: Opts, ss: seq<Sys>, i: nat)
    requires Run(o, ss) && i < |ss|
    ensures AllSettled(o, ss[i])
  {
    if i > 0 {
      RunSettles(o, ss, i - 1);
      RunKeepsInv(o, ss, i - 1);
      StepSettles(o, ss[i - 1], ss[i - 1 + 1]);
    } else {
      assert Initial(ss[0]);
    }
  }

  /**
   In every run a peg-in or a burn is REFUNDED only if its refund or return is confirmed, unless
   it is dust or has no sender on record.
   */
  lemma RefundedMeansSentBack(o: Opts, ss: seq<Sys>, i: nat, id: string)
    requires Run(o, ss) && i < |ss| && id in ss[i].rows && ss[i].rows[id].status == REFUNDED
    requires ss[i].rows[id].kind in {PegIn, PegOut}
    ensures HasSender(ss[i].rows[id]) && ss[i].rows[id].amount > o.refundFee ==>
              var back := id + if ss[i].rows[id].kind == PegIn then REFUND_SUFFIX else RETURN_SUFFIX;
              && back in ss[i].rows && ss[i].rows[back].status == CONFIRMED
              && ss[i].rows[back].kind == (if ss[i].rows[id].kind == PegIn then Refund else GramReturn)
  {
    RunSettles(o, ss, i);
    RunKeepsInv(o, ss, i);
    var s := ss[i];
    assert Settled(o, s.rows, s.rows[id]) && RowOk(s.rows, s.sent, id);
    if SentBack(s.rows, s.rows[id]) {
      RowAtChildId(s.rows, s.sent, id, if s.rows[id].kind == PegIn then Refund else GramReturn);
    }
  }
}
