/**
 How one release of an action follows another: a signer that has signed a release signs another
 only when the first can no longer land, and then does.
 */
module ReleaseSuccession {
  import opened Wrappers
  import opened ReplayLedger
  import opened ReleaseProtocol
  import opened ReleaseLimits

  // ---------- a successor lands only after its predecessor's time ----------

  /** Whatever lands had its quorum in a state whose chain ended just before its block. */
  lemma {:induction false} QuorumBeforeLanding(f: Federation, ws: seq<World>, k: nat, i: nat, q: Release) returns (m: nat)
    requires Run(f, ws) && k < |ws| && i < |ws[k].chain| && q in ws[k].chain[i].txs
    ensures m <= k && ws[m].chain == ws[k].chain[..i] && Quorum(f, ws[m], q.memo, VizTx(q))
  {
    assert k > 0;
    assert Step(f, ws[k - 1], ws[k - 1 + 1]);
    var e :| Enabled(f, ws[k - 1], e) && ws[k] == Next(f, ws[k - 1], e);
    if i < |ws[k - 1].chain| {
      m := QuorumBeforeLanding(f, ws, k - 1, i, q);
      assert ws[k - 1].chain[..i] == ws[k].chain[..i];
    } else {
      m := k - 1;
      assert ws[k].chain[..i] == ws[m].chain;
    }
  }

  /** An operator that claimed both by the time of `m` shows the one that does not land dead by then. */
  lemma OtherClaimIsDead(f: Federation, ws: seq<World>, m: nat, k: nat, o: nat, id: string, r: Release, q: Release)
    requires Run(f, ws) && m <= k < |ws| && o < f.n && o < |ws[m].ops| && o < |ws[k].ops| && r != q
    requires (id, VizTx(q)) in ws[m].ops[o].claimed && (id, VizTx(r)) in ws[k].ops[o].claimed
    requires LandedIn(ws[k].chain, q)
    ensures DeadKey(ws[m].chain, ws[m].ops[o].seen, VizTx(r))
  {
    RunKeepsInv(f, ws, m);
    if (id, VizTx(r)) in ws[m].ops[o].claimed {
      if DeadKey(ws[m].chain, ws[m].ops[o].seen, VizTx(q)) {
        BuriedNeverLands(f, ws, m, k, o, VizTx(q));
      }
      assert LedgerOk(ws[m].chain, ws[m].ops[o]);
    } else {
      var later := NewClaimBuries(f, ws, m, k, o, id, VizTx(q), VizTx(r));
      BuriedNeverLands(f, ws, later, k, o, VizTx(q));
      assert false;
    }
  }

  /** When one release of an action has a quorum, another lands only in a block more than a minute past its expiration. */
  lemma SuccessorLandsLater(f: Federation, ws: seq<World>, k: nat, i: nat, r: Release, q: Release)
    requires Run(f, ws) && k < |ws| && f.n + |f.dishonest| < 2 * f.threshold && HonestWellAsked(f, ws[k])
    requires r != q && r.memo == q.memo && Quorum(f, ws[k], r.memo, VizTx(r))
    requires i < |ws[k].chain| && q in ws[k].chain[i].txs
    ensures r.expiresAtMs + 60_000 < ws[k].chain[i].timeMs <= q.expiresAtMs
  {
    var m := QuorumBeforeLanding(f, ws, k, i, q);
    RunKeepsInv(f, ws, m);
    RunKeepsInv(f, ws, k);
    forall o | 0 <= o < |ws[m].ops| && o !in f.dishonest ensures WellAsked(ws[m].ops[o]) {
      AskedGrowsOverRun(f, ws, m, k, o);
    }
    var o := SharedClaims(f, ws, k, m, r.memo, VizTx(r), VizTx(q));
    OtherClaimIsDead(f, ws, m, k, o, r.memo, r, q);
    var seen := ws[m].ops[o].seen;
    assert ws[m].chain[seen - 1] == ws[k].chain[seen - 1];
  }

  // ---------- and then it does ----------

  /** A block with nothing in it, in which the successor's account exists. */
  function Quiet(q: Release): Block {
    Block(q.expiresAtMs, {}, {q.to})
  }

  function Opening(r: Release): Start {
    Start(r.expiresAtMs, {})
  }

  function Seen2(r: Release, q: Release): seq<Block> {
    [First(Opening(r)), Quiet(q)]
  }

  lemma PlainIsCompatible(r: Release)
    ensures Compatible(Plain(r), Plain(r))
  {
  }

  /** An operator that has signed the first. */
  function SignedFirst(r: Release): Operator {
    PlainIsCompatible(r);
    SignedBoth(Plain(r), Plain(r), Opening(r))
  }

  lemma FirstIsSigned(r: Release)
    ensures var op := SignedFirst(r);
            && op.rows == map[r.memo := Entry(VizTx(r), r.expiresAtMs)] && op.seen == 1
            && op.approved == {(r.memo, VizTx(r))} && 2 !in op.calls
            && op.asked == {(Plain(r).action, Plain(r).proposal)}
  {
    PlainIsCompatible(r);
    BothSigned(Plain(r), Plain(r), Opening(r));
  }

  /** The successor's call has arrived after the quiet block, and has been resumed so many times. */
  function Resumed(r: Release, q: Release, n: nat): Operator
    ensures 2 in Resumed(r, q, n).calls
  {
    if n == 0 then BeginCall(SignedFirst(r).(seen := 2), 2, Plain(q).action, Plain(q).proposal)
    else ResumeCall(Resumed(r, q, n - 1), Seen2(r, q), 2)
  }

  lemma SuccessorBegun(r: Release, q: Release)
    ensures var op := Resumed(r, q, 0);
            && op == SignedFirst(r).(asked := op.asked, calls := op.calls, seen := 2)
            && op.asked == SignedFirst(r).asked + {(Plain(q).action, Plain(q).proposal)}
            && op.calls[2] == Call(q.memo, Entry(VizTx(q), q.expiresAtMs), Some(VizTx(q)), ReadRow)
  {
  }

  /** Two awaits that only read. */
  lemma SuccessorReads(r: Release, q: Release)
    requires r != q && r.memo == q.memo && r.expiresAtMs + 60_000 < q.expiresAtMs
    ensures var prev := Entry(VizTx(r), r.expiresAtMs);
            && Resumed(r, q, 2).calls[2] == Resumed(r, q, 0).calls[2].(stage := AskLanded(prev))
            && Resumed(r, q, 2) == Resumed(r, q, 0).(calls := Resumed(r, q, 2).calls)
  {
    FirstIsSigned(r);
    SuccessorBegun(r, q);
    var prev := Entry(VizTx(r), r.expiresAtMs);
    assert Resumed(r, q, 1).calls[2] == Resumed(r, q, 0).calls[2].(stage := ReadHead(prev));
    assert Resumed(r, q, 1) == Resumed(r, q, 0).(calls := Resumed(r, q, 1).calls);
    assert Seen2(r, q)[|Seen2(r, q)| - 1] == Quiet(q);
    assert Resumed(r, q, 2) == ResumeCall(Resumed(r, q, 1), Seen2(r, q), 2);
  }

  lemma SuccessorIsCleared(r: Release, q: Release)
    requires r != q && r.memo == q.memo && r.expiresAtMs + 60_000 < q.expiresAtMs
    ensures var op := Resumed(r, q, 4);
            && op.calls[2] == Call(q.memo, Entry(VizTx(q), q.expiresAtMs), Some(VizTx(q)), Cleared)
            && op.approved == {(r.memo, VizTx(r))} && op.seen == 2
            && op.asked == {(Plain(r).action, Plain(r).proposal), (Plain(q).action, Plain(q).proposal)}
  {
    var prev := Entry(VizTx(r), r.expiresAtMs);
    FirstIsSigned(r);
    SuccessorBegun(r, q);
    SuccessorReads(r, q);
    var view := Seen2(r, q);
    assert !LandedIn(view, r) by {
      assert view[0].txs == {} && view[1].txs == {};
    }
    assert Resumed(r, q, 3) == ResumeCall(Resumed(r, q, 2), view, 2);
    assert Resumed(r, q, 3).calls[2] == Resumed(r, q, 0).calls[2].(stage := Swap(prev));
    assert Resumed(r, q, 4) == ResumeCall(Resumed(r, q, 3), view, 2);
  }

  /** Both are signed. */
  function SignedSecond(r: Release, q: Release): Operator
    requires r != q && r.memo == q.memo && r.expiresAtMs + 60_000 < q.expiresAtMs
  {
    SuccessorIsCleared(r, q);
    SignCall(Resumed(r, q, 4), 2, {q.to})
  }

  lemma SecondIsSigned(r: Release, q: Release)
    requires r != q && r.memo == q.memo && r.expiresAtMs + 60_000 < q.expiresAtMs
    ensures var op := SignedSecond(r, q);
            && (r.memo, VizTx(r)) in op.approved && (q.memo, VizTx(q)) in op.approved && WellAsked(op)
  {
    SuccessorIsCleared(r, q);
    var op := SignedSecond(r, q);
    forall a, p | (a, p) in op.asked && SignedEffect(a, p).Some? ensures ShapeMatchesDirection(a, p) {
      assert p == Plain(r).proposal || p == Plain(q).proposal;
    }
  }

  function With(w: World, o: nat, op: Operator): World
    requires o < |w.ops|
  {
    w.(ops := w.ops[o := op])
  }

  lemma OperatorResumesOnce(f: Federation, w: World, o: nat, op: Operator, op': Operator, view: seq<Block>)
    requires o < |w.ops| && Reaches(f, With(w, o, op)) && w.chain == view && op.seen == |view| && 2 in op.calls
    requires op' == ResumeCall(op, view, 2)
    ensures Reaches(f, With(w, o, op'))
  {
    assert w.chain[..op.seen] == view;
    ReachStep(f, With(w, o, op), Resume(o, 2));
    assert With(With(w, o, op), o, op') == With(w, o, op');
  }

  lemma FourAwaits(f: Federation, w: World, o: nat, op0: Operator, op1: Operator, op2: Operator, op3: Operator, op4: Operator,
                   view: seq<Block>)
    requires o < |w.ops| && Reaches(f, With(w, o, op0)) && w.chain == view && op0.seen == |view| && 2 in op0.calls
    requires op1 == ResumeCall(op0, view, 2) && op2 == ResumeCall(op1, view, 2)
    requires op3 == ResumeCall(op2, view, 2) && op4 == ResumeCall(op3, view, 2)
    ensures Reaches(f, With(w, o, op4))
  {
    OperatorResumesOnce(f, w, o, op0, op1, view);
    OperatorResumesOnce(f, w, o, op1, op2, view);
    OperatorResumesOnce(f, w, o, op2, op3, view);
    OperatorResumesOnce(f, w, o, op3, op4, view);
  }

  lemma ResumedFourTimes(r: Release, q: Release)
    ensures var view := Seen2(r, q);
            && Resumed(r, q, 1) == ResumeCall(Resumed(r, q, 0), view, 2) && Resumed(r, q, 2) == ResumeCall(Resumed(r, q, 1), view, 2)
            && Resumed(r, q, 3) == ResumeCall(Resumed(r, q, 2), view, 2) && Resumed(r, q, 4) == ResumeCall(Resumed(r, q, 3), view, 2)
    ensures Resumed(r, q, 0).seen == 2
  {
  }

  lemma OperatorResumes(f: Federation, w: World, o: nat, r: Release, q: Release)
    requires o < |w.ops| && Reaches(f, With(w, o, Resumed(r, q, 0))) && w.chain == Seen2(r, q)
    ensures Reaches(f, With(w, o, Resumed(r, q, 4)))
  {
    ResumedFourTimes(r, q);
    FourAwaits(f, w, o, Resumed(r, q, 0), Resumed(r, q, 1), Resumed(r, q, 2), Resumed(r, q, 3), Resumed(r, q, 4), Seen2(r, q));
  }

  lemma OperatorBegins(f: Federation, w: World, o: nat, r: Release, q: Release)
    requires Reaches(f, w) && o < |w.ops| && w.ops[o] == SignedFirst(r) && w.chain == Seen2(r, q)
    ensures Reaches(f, With(w, o, Resumed(r, q, 0)))
  {
    FirstIsSigned(r);
    var w1 := With(w, o, SignedFirst(r).(seen := 2));
    ReachStep(f, w, Sync(o, 2));
    ReachStep(f, w1, Begin(o, 2, Plain(q).action, Plain(q).proposal));
    assert Next(f, w1, Begin(o, 2, Plain(q).action, Plain(q).proposal)) == With(w, o, Resumed(r, q, 0));
  }

  lemma OperatorSucceeds(f: Federation, w: World, o: nat, r: Release, q: Release)
    requires r != q && r.memo == q.memo && r.expiresAtMs + 60_000 < q.expiresAtMs && f.genuine(q)
    requires Reaches(f, w) && o < |w.ops| && w.ops[o] == SignedFirst(r) && w.chain == Seen2(r, q)
    ensures Reaches(f, With(w, o, SignedSecond(r, q)))
  {
    OperatorBegins(f, w, o, r, q);
    OperatorResumes(f, w, o, r, q);
    var w4 := With(w, o, Resumed(r, q, 4));
    SuccessorIsCleared(r, q);
    assert Accounts(w4.chain, 2) == {q.to};
    ReachStep(f, w4, Sign(o, 2));
    assert Next(f, w4, Sign(o, 2)) == With(w, o, SignedSecond(r, q));
  }

  /** The first `n` operators have signed the successor too. */
  function Succeeding(total: nat, n: nat, r: Release, q: Release): World
    requires n <= total && r != q && r.memo == q.memo && r.expiresAtMs + 60_000 < q.expiresAtMs
  {
    World(Seen2(r, q), seq(total, i requires 0 <= i < total => if i < n then SignedSecond(r, q) else SignedFirst(r)))
  }

  lemma EveryOperatorSignedFirst(f: Federation, r: Release, q: Release)
    requires f.genuine(r) && r.expiresAtMs <= q.expiresAtMs
    ensures Reaches(f, World(Seen2(r, q), seq(f.n, _ => SignedFirst(r))))
  {
    PlainIsCompatible(r);
    EveryOperatorSigns(f, f.n, Plain(r), Plain(r), Opening(r));
    var before := Asked(f.n, f.n, Plain(r), Plain(r), Opening(r));
    ReachStep(f, before, Produce(Quiet(q)));
    assert Next(f, before, Produce(Quiet(q))) == World(Seen2(r, q), seq(f.n, _ => SignedFirst(r)));
  }

  lemma {:induction false} EveryOperatorSucceeds(f: Federation, n: nat, r: Release, q: Release)
    requires n <= f.n && r != q && r.memo == q.memo && r.expiresAtMs + 60_000 < q.expiresAtMs
    requires f.genuine(r) && f.genuine(q)
    ensures Reaches(f, Succeeding(f.n, n, r, q))
  {
    var w := Succeeding(f.n, n, r, q);
    if n == 0 {
      EveryOperatorSignedFirst(f, r, q);
      assert w == World(Seen2(r, q), seq(f.n, _ => SignedFirst(r)));
    } else {
      EveryOperatorSucceeds(f, n - 1, r, q);
      var before := Succeeding(f.n, n - 1, r, q);
      OperatorSucceeds(f, before, n - 1, r, q);
      assert w == With(before, n - 1, SignedSecond(r, q));
    }
  }

  /** The successor of a release that a quorum signed and that never landed is signed by all and lands. */
  lemma SuccessorLands(f: Federation, r: Release, q: Release) returns (ws: seq<World>, w: World)
    requires r != q && r.memo == q.memo && r.expiresAtMs + 60_000 < q.expiresAtMs
    requires f.genuine(r) && f.genuine(q) && f.threshold <= f.n
    ensures Run(f, ws) && ws[|ws| - 1] == w && HonestWellAsked(f, w) && |w.chain| == 3
    ensures q in w.chain[2].txs && Quorum(f, w, r.memo, VizTx(r))
  {
    var before, b := Succeeding(f.n, f.n, r, q), Block(q.expiresAtMs, {q}, {q.to});
    EveryOperatorSucceeds(f, f.n, r, q);
    SecondIsSigned(r, q);
    AllApprove(f, before, q.memo, VizTx(q));
    assert !LandedIn(before.chain, q) by {
      assert before.chain[0].txs == {} && before.chain[1].txs == {};
    }
    ws := BlockLands(f, before, b);
    w := before.(chain := before.chain + [b]);
    AllApprove(f, w, r.memo, VizTx(r));
  }

  /** Every request was in shape, a quorum has signed the one, and the other has landed. */
  ghost predicate HasSucceeded(f: Federation, w: World, r: Release, q: Release) {
    HonestWellAsked(f, w) && Quorum(f, w, r.memo, VizTx(r)) && LandedIn(w.chain, q)
  }

  ghost predicate MaySucceed(f: Federation, r: Release, q: Release) {
    exists w :: Reaches(f, w) && HasSucceeded(f, w, r, q)
  }

  /**
   Of two genuine releases of one action, one can land though a quorum has signed the other exactly
   when it is good for more than a minute longer: signers do let go of a release, but not before
   it can no longer land.
   */
  lemma SuccessorLandsIff(f: Federation, r: Release, q: Release)
    requires f.n + |f.dishonest| < 2 * f.threshold && f.threshold <= f.n
    requires f.genuine(r) && f.genuine(q) && r != q && r.memo == q.memo
    ensures MaySucceed(f, r, q) <==> r.expiresAtMs + 60_000 < q.expiresAtMs
  {
    if MaySucceed(f, r, q) {
      var w :| Reaches(f, w) && HasSucceeded(f, w, r, q);
      var ws :| Run(f, ws) && ws[|ws| - 1] == w;
      var i :| 0 <= i < |w.chain| && q in w.chain[i].txs;
      SuccessorLandsLater(f, ws, |ws| - 1, i, r, q);
    }
    if r.expiresAtMs + 60_000 < q.expiresAtMs {
      var ws, w := SuccessorLands(f, r, q);
      assert LandedIn(w.chain, q) && Reaches(f, w);
    }
  }
}
