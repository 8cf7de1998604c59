/** Histories at the edge of the backing laws: a deposit paid both ways, and a pinned fee gone stale. */
module BackingLimits {
  import opened Wrappers
  import opened Fees
  import opened Policy
  import opened Outbox
  import opened Sums
  import opened Backing
  import D = Dispatcher

  ghost predicate Reaches(t: Terms, w: World) {
    exists ws :: History(t, ws) && ws[|ws| - 1] == w
  }

  lemma ReachMove(t: Terms, w: World, h: Happening)
    requires Reaches(t, w) && Can(t, w, h)
    ensures Reaches(t, After(t, w, h))
  {
    var ws :| History(t, ws) && ws[|ws| - 1] == w;
    var more := ws + [After(t, w, h)];
    assert Move(t, w, After(t, w, h));
    forall i | 0 <= i < |more| - 1 ensures Move(t, more[i], more[i + 1]) {
      assert i < |ws| - 1 ==> Move(t, ws[i], ws[i + 1]);
    }
    assert History(t, more);
  }

  // ---------- a tick that delivers one row ----------

  /** One row waits for delivery; no other is waiting, held or in delivery. */
  predicate OnlyWaiting(rows: Rows, q: Row) {
    && q.id in rows && rows[q.id] == q && q.status == QUEUED && q.nextAttemptAt <= 0
    && forall id :: id in rows && id != q.id ==> rows[id].status !in {QUEUED, HELD, BROADCAST}
  }

  function InDelivery(s: D.Sys, q: Row): D.Sys {
    D.Sys(s.rows[q.id := q.(status := BROADCAST, updatedAt := 0)], s.sent + {q.id}, s.busy + {q.id}, D.Submitting(q, []))
  }

  lemma Polls(t: Terms, w: World, q: Row)
    requires Reaches(t, w) && w.sys.tick == D.Idle && OnlyWaiting(w.sys.rows, q)
    ensures Reaches(t, w.(sys := w.sys.(tick := D.Held(PegOut, 0, []))))
  {
    var w1 := w.(sys := w.sys.(tick := D.Orphans(0, [])));
    ReachMove(t, w, Table(D.StartTick(0, [])));
    var w2 := w.(sys := w.sys.(tick := D.Held(PegIn, 0, [])));
    ReachMove(t, w1, Table(D.QueryHeld(PegIn, [])));
    ReachMove(t, w2, Table(D.QueryHeld(PegOut, [])));
  }

  lemma Delivers(t: Terms, w: World, q: Row)
    requires Reaches(t, w) && w.sys.tick == D.Idle && OnlyWaiting(w.sys.rows, q)
    ensures Reaches(t, w.(sys := InDelivery(w.sys, q)))
  {
    Polls(t, w, q);
    var w3 := w.(sys := w.sys.(tick := D.Held(PegOut, 0, [])));
    var w4 := w.(sys := w.sys.(tick := D.Deliver([q])));
    ReachMove(t, w3, Table(D.QueryQueued([q])));
    ReachMove(t, w4, Table(D.MarkBroadcast(0)));
    assert [q][1..] == [];
  }

  // ---------- one deposit ----------

  const DEPOSIT: string := "d"

  function NewDeposit(gross: nat, ch: Chain): NewRow {
    NewRow(DEPOSIT, PegIn, Some(ch), "r", Some("s"), gross, "", SEEN, None, None)
  }

  function Seen(gross: nat, ch: Chain): Row {
    Row(DEPOSIT, PegIn, Some(ch), "r", Some("s"), gross, 0, "", SEEN, 0, None, None, 0, 0, 0, None)
  }

  function Deposited1(gross: nat, ch: Chain): Chains {
    Chains(map[DEPOSIT := gross], map[], map[DEPOSIT := ch], {}, map[], {}, map[])
  }

  /** Deposited, found, past the caps, and handed to the coordinator. */
  function Submitted(gross: nat, ch: Chain): World {
    var q := Seen(gross, ch).(status := QUEUED);
    World(InDelivery(D.Sys(map[DEPOSIT := q], {}, {}, D.Idle), q), Deposited1(gross, ch), map[ch := Book(gross, 0)])
  }

  function InTable(r: Row, gross: nat, ch: Chain): World {
    World(D.Sys(map[DEPOSIT := r], {}, {}, D.Idle), Deposited1(gross, ch), map[ch := Book(gross, 0)])
  }

  lemma DepositIsMade(t: Terms, gross: nat, ch: Chain)
    ensures Reaches(t, World(D.Sys(map[], {}, {}, D.Idle), Deposited1(gross, ch), map[ch := Book(gross, 0)]))
  {
    var w0 := World(D.Sys(map[], {}, {}, D.Idle), Chains(map[], map[], map[], {}, map[], {}, map[]), map[]);
    assert History(t, [w0]);
    assert [w0][|[w0]| - 1] == w0;
    ReachMove(t, w0, Deposited(DEPOSIT, ch, gross));
  }

  lemma DepositIsSeen(t: Terms, gross: nat, ch: Chain)
    ensures Reaches(t, InTable(Seen(gross, ch), gross, ch))
  {
    DepositIsMade(t, gross, ch);
    var w1 := World(D.Sys(map[], {}, {}, D.Idle), Deposited1(gross, ch), map[ch := Book(gross, 0)]);
    ReachMove(t, w1, Table(D.Discover(NewDeposit(gross, ch), 0)));
  }

  lemma DepositIsSubmitted(t: Terms, gross: nat, ch: Chain)
    ensures Reaches(t, Submitted(gross, ch))
  {
    var q := Seen(gross, ch).(status := QUEUED);
    DepositIsSeen(t, gross, ch);
    ReachMove(t, InTable(Seen(gross, ch), gross, ch), Table(D.Advance(DEPOSIT, QUEUED, None, 0)));
    Delivers(t, InTable(q, gross, ch), q);
  }

  /** A row in delivery gets its txid; what it stands for lands. */
  lemma PinsAndLands(t: Terms, w: World, id: string, fee: int)
    requires Reaches(t, w) && id in w.sys.busy && id in w.sys.rows && w.sys.rows[id].status == BROADCAST
    requires id in w.sys.sent && id !in w.chains.landed
    requires w.sys.rows[id].kind == PegIn ==> id in w.chains.offers && fee in w.chains.offers[id]
    ensures var r := w.sys.rows[id].(txid := Some("x"), updatedAt := 0);
            Reaches(t, World(w.sys.(rows := w.sys.rows[id := r]), AfterLanding(w.chains, r, fee), Moved(w.books, r, fee)))
  {
    var r := w.sys.rows[id].(txid := Some("x"), updatedAt := 0);
    var w1 := w.(sys := w.sys.(rows := w.sys.rows[id := r]));
    ReachMove(t, w, Table(D.PinTxid(id, "x", 0)));
    ReachMove(t, w1, Landed(id, fee));
  }

  // ---------- a pinned fee gone stale ----------

  /** The least deposit that can bear the surcharge. */
  function LeastSurcharged(p: FeePolicy): nat {
    p.activationSurcharge + LeastNet(p)
  }

  /** Quoted with the surcharge, which was pinned, and again without, which was not; minted without. */
  function Stale(t: Terms, ch: Chain): World {
    var gross := LeastSurcharged(PolicyOn(t, ch));
    var surcharge := PolicyOn(t, ch).activationSurcharge;
    var r := Seen(gross, ch).(status := BROADCAST, fee := surcharge, txid := Some("x"));
    World(D.Sys(map[DEPOSIT := r], {DEPOSIT}, {DEPOSIT}, D.Submitting(Seen(gross, ch).(status := QUEUED), [])),
          Chains(map[DEPOSIT := gross], map[], map[DEPOSIT := ch], {"r"}, map[DEPOSIT := {surcharge, 0}], {DEPOSIT}, map[DEPOSIT := 0]),
          map[ch := Book(gross, gross)])
  }

  lemma IsQuoted(t: Terms, w: World, id: string, fee: nat)
    requires Reaches(t, w) && id in w.sys.busy && id in w.sys.rows && w.sys.rows[id].kind == PegIn
    requires w.sys.rows[id].amount >= 0 && QuoteFor(t, w.chains, w.sys.rows[id]).Accepted?
    requires QuoteFor(t, w.chains, w.sys.rows[id]).b.fee == fee
    ensures var r := w.sys.rows[id];
            Reaches(t, World(w.sys.(rows := w.sys.rows[id := if fee > 0 then r.(fee := fee, updatedAt := 0) else r]),
                             w.chains.(offers := w.chains.offers[id := OffersFor(w.chains, id) + {fee}]), w.books))
  {
    ReachMove(t, w, Quoted(id, 0));
    assert w.sys.rows[id := w.sys.rows[id]] == w.sys.rows;
  }

  /** The deposit in delivery, with the quotes it has had and the fee pinned. */
  function WithQuotes(gross: nat, ch: Chain, known: set<string>, offers: set<int>, fee: nat): World {
    var w := Submitted(gross, ch);
    World(w.sys.(rows := map[DEPOSIT := w.sys.rows[DEPOSIT].(fee := fee)]),
          w.chains.(known := known, offers := map[DEPOSIT := offers]), w.books)
  }

  lemma SurchargeIsOffered(t: Terms, ch: Chain)
    requires !PinsKeepUp(PolicyOn(t, ch))
    ensures var surcharge := PolicyOn(t, ch).activationSurcharge;
            Reaches(t, WithQuotes(LeastSurcharged(PolicyOn(t, ch)), ch, {}, {surcharge}, surcharge))
  {
    var gross, surcharge := LeastSurcharged(PolicyOn(t, ch)), PolicyOn(t, ch).activationSurcharge;
    DepositIsSubmitted(t, gross, ch);
    IsQuoted(t, Submitted(gross, ch), DEPOSIT, surcharge);
    assert {} + {surcharge} == {surcharge};
  }

  lemma ZeroQuoteIsOffered(t: Terms, ch: Chain)
    requires !PinsKeepUp(PolicyOn(t, ch))
    ensures var surcharge := PolicyOn(t, ch).activationSurcharge;
            Reaches(t, WithQuotes(LeastSurcharged(PolicyOn(t, ch)), ch, {"r"}, {surcharge, 0}, surcharge))
  {
    var gross, surcharge := LeastSurcharged(PolicyOn(t, ch)), PolicyOn(t, ch).activationSurcharge;
    SurchargeIsOffered(t, ch);
    ReachMove(t, WithQuotes(gross, ch, {}, {surcharge}, surcharge), Provisioned("r"));
    assert {} + {"r"} == {"r"};
    IsQuoted(t, WithQuotes(gross, ch, {"r"}, {surcharge}, surcharge), DEPOSIT, 0);
    assert {surcharge} + {0} == {surcharge, 0};
  }

  lemma StaleIsReached(t: Terms, ch: Chain)
    requires !PinsKeepUp(PolicyOn(t, ch))
    ensures Reaches(t, Stale(t, ch))
  {
    var surcharge := PolicyOn(t, ch).activationSurcharge;
    ZeroQuoteIsOffered(t, ch);
    PinsAndLands(t, WithQuotes(LeastSurcharged(PolicyOn(t, ch)), ch, {"r"}, {surcharge, 0}, surcharge), DEPOSIT, 0);
  }

  lemma StaleIsNotBacked(t: Terms, ch: Chain)
    requires !PinsKeepUp(PolicyOn(t, ch))
    ensures MintsInTime(Stale(t, ch)) && !IsBacked(Stale(t, ch), ch)
  {
    var rows := Stale(t, ch).sys.rows;
    SumTakeOut(rows.Keys, MintedFee(rows, ch), DEPOSIT);
    SumTakeOut(rows.Keys, SweptAmount(rows, ch), DEPOSIT);
    SumTakeOut(rows.Keys, InFlight(Stale(t, ch), ch), DEPOSIT);
    assert rows.Keys - {DEPOSIT} == {};
  }

  /** The chain's books are covered in every history whose mints land in time. */
  ghost predicate AlwaysBacked(t: Terms, ch: Chain) {
    forall ws, i :: History(t, ws) && 0 <= i < |ws| && MintsInTime(ws[i]) ==> IsBacked(ws[i], ch)
  }

  /** Exactly the fee policies under which a pin cannot go stale keep the books covered. */
  lemma AlwaysBackedIffPinsKeepUp(t: Terms, ch: Chain)
    ensures AlwaysBacked(t, ch) <==> PinsKeepUp(PolicyOn(t, ch))
  {
    if PinsKeepUp(PolicyOn(t, ch)) {
      forall ws, i | History(t, ws) && 0 <= i < |ws| && MintsInTime(ws[i]) ensures IsBacked(ws[i], ch) {
        BackedButForSweepsInFlight(t, ws, i, ch);
      }
    } else {
      StaleIsReached(t, ch);
      StaleIsNotBacked(t, ch);
      var ws :| History(t, ws) && ws[|ws| - 1] == Stale(t, ch);
      assert !IsBacked(ws[|ws| - 1], ch);
    }
  }

  // ---------- a deposit paid both ways ----------

  /** A deposit of this size is minted, at the base fee, and its refund is worth more than that fee. */
  predicate CanBeOverpaid(t: Terms, gross: nat, ch: Chain) {
    var q := QuotePegIn(gross, true, PolicyOn(t, ch));
    q.Accepted? && RefundAmount(gross, t.o.refundFee) > q.b.fee
  }

  const REFUND_ID: string := "d:refund"

  /** The chains once the mint has landed. */
  function MintedChains(gross: nat, ch: Chain, fee: nat): Chains {
    Chains(map[DEPOSIT := gross], map[], map[DEPOSIT := ch], {"r"}, map[DEPOSIT := {fee}], {DEPOSIT}, map[DEPOSIT := fee])
  }

  function MintedBooks(gross: nat, ch: Chain, fee: nat): Books {
    map[ch := Book(gross, gross - fee)]
  }

  function MintedRow(gross: nat, ch: Chain, fee: nat): Row {
    Seen(gross, ch).(status := BROADCAST, fee := fee, txid := Some("x"))
  }

  function Minted(gross: nat, ch: Chain, fee: nat): World {
    World(D.Sys(map[DEPOSIT := MintedRow(gross, ch, fee)], {DEPOSIT}, {DEPOSIT}, D.Submitting(Seen(gross, ch).(status := QUEUED), [])),
          MintedChains(gross, ch, fee), MintedBooks(gross, ch, fee))
  }

  lemma BaseIsOffered(t: Terms, gross: nat, ch: Chain, fee: nat)
    requires CanBeOverpaid(t, gross, ch) && fee == QuotePegIn(gross, true, PolicyOn(t, ch)).b.fee
    ensures Reaches(t, WithQuotes(gross, ch, {"r"}, {fee}, fee))
  {
    var w := Submitted(gross, ch);
    DepositIsSubmitted(t, gross, ch);
    ReachMove(t, w, Provisioned("r"));
    var w1 := w.(chains := w.chains.(known := {"r"}));
    assert {} + {"r"} == {"r"} && {} + {fee} == {fee};
    IsQuoted(t, w1, DEPOSIT, fee);
  }

  lemma MintLands(t: Terms, gross: nat, ch: Chain, fee: nat)
    requires CanBeOverpaid(t, gross, ch) && fee == QuotePegIn(gross, true, PolicyOn(t, ch)).b.fee
    ensures Reaches(t, Minted(gross, ch, fee))
  {
    BaseIsOffered(t, gross, ch, fee);
    PinsAndLands(t, WithQuotes(gross, ch, {"r"}, {fee}, fee), DEPOSIT, fee);
  }

  const LOST: Delivery := Delivery(false, None, None, None)

  function GivenUpPatch(t: Terms): Patch {
    PlanTransition(Seen(0, GRAM).(status := QUEUED), LOST, t.o.windowMs, t.o.retryIntervalMs, t.o.windowMs).1
  }

  function GivenUpRow(t: Terms, gross: nat, ch: Chain, fee: nat): Row {
    Patched(MintedRow(gross, ch, fee), REFUNDING, GivenUpPatch(t), 0)
  }

  function Rec(gross: nat, ch: Chain): Row {
    Seen(gross, ch).(status := QUEUED)
  }

  lemma LostIsTaken(t: Terms, gross: nat, ch: Chain, fee: nat, s: D.Sys)
    requires s == Minted(gross, ch, fee).sys
    ensures D.Enabled(t.o, s, D.TakeAnswer(LOST, t.o.windowMs))
    ensures D.Next(t.o, s, D.TakeAnswer(LOST, t.o.windowMs))
            == s.(busy := {}, tick := D.Decided(Rec(gross, ch), REFUNDING, GivenUpPatch(t), []))
  {
    assert {DEPOSIT} - {DEPOSIT} == {};
  }

  function GivenUp(t: Terms, gross: nat, ch: Chain, fee: nat): D.Sys {
    D.Sys(map[DEPOSIT := GivenUpRow(t, gross, ch, fee)], {DEPOSIT}, {}, D.Spawn(Rec(gross, ch), REFUNDING, 0, []))
  }

  lemma LostIsWritten(t: Terms, gross: nat, ch: Chain, fee: nat, s: D.Sys)
    requires s == Minted(gross, ch, fee).sys.(busy := {}, tick := D.Decided(Rec(gross, ch), REFUNDING, GivenUpPatch(t), []))
    ensures D.Enabled(t.o, s, D.WriteTransition(0, 0)) && D.Next(t.o, s, D.WriteTransition(0, 0)) == GivenUp(t, gross, ch, fee)
  {
  }

  /** The answer was lost past the window: the row is given up. */
  lemma AnswerIsLost(t: Terms, gross: nat, ch: Chain, fee: nat)
    requires Reaches(t, Minted(gross, ch, fee))
    ensures Reaches(t, World(GivenUp(t, gross, ch, fee), MintedChains(gross, ch, fee), MintedBooks(gross, ch, fee)))
  {
    var w := Minted(gross, ch, fee);
    LostIsTaken(t, gross, ch, fee, w.sys);
    ReachMove(t, w, Table(D.TakeAnswer(LOST, t.o.windowMs)));
    var w1 := w.(sys := w.sys.(busy := {}, tick := D.Decided(Rec(gross, ch), REFUNDING, GivenUpPatch(t), [])));
    LostIsWritten(t, gross, ch, fee, w1.sys);
    ReachMove(t, w1, Table(D.WriteTransition(0, 0)));
  }

  function RefundRow(t: Terms, gross: nat, ch: Chain): Row {
    Row(REFUND_ID, Refund, Some(ch), "s", None, RefundAmount(gross, t.o.refundFee), 0, ":refund", QUEUED, 0,
        None, None, 0, 0, 0, Some(DEPOSIT))
  }

  /** Its refund waits for delivery. */
  function Refunding(t: Terms, gross: nat, ch: Chain, fee: nat): World {
    World(D.Sys(map[DEPOSIT := GivenUpRow(t, gross, ch, fee), REFUND_ID := RefundRow(t, gross, ch)], {DEPOSIT}, {}, D.Idle),
          MintedChains(gross, ch, fee), MintedBooks(gross, ch, fee))
  }

  lemma RefundRowIsSpawned(t: Terms, gross: nat, ch: Chain, fee: nat, s: D.Sys)
    requires s == GivenUp(t, gross, ch, fee) && RefundAmount(gross, t.o.refundFee) > 0
    ensures D.Enabled(t.o, s, D.SpawnChildren(0))
    ensures D.Next(t.o, s, D.SpawnChildren(0)) == Refunding(t, gross, ch, fee).sys.(tick := D.Deliver([]))
  {
    assert DEPOSIT + REFUND_SUFFIX == REFUND_ID && "" + REFUND_SUFFIX == ":refund";
    var children := PlanChildren(Rec(gross, ch), REFUNDING, t.o.feesGate, 0, t.o.refundFee);
    assert Enqueue(s.rows, children[0], 0) == s.rows[REFUND_ID := RefundRow(t, gross, ch)];
  }

  lemma RefundIsSpawned(t: Terms, gross: nat, ch: Chain, fee: nat)
    requires Reaches(t, Minted(gross, ch, fee)) && RefundAmount(gross, t.o.refundFee) > 0
    ensures Reaches(t, Refunding(t, gross, ch, fee))
  {
    AnswerIsLost(t, gross, ch, fee);
    var w := World(GivenUp(t, gross, ch, fee), MintedChains(gross, ch, fee), MintedBooks(gross, ch, fee));
    RefundRowIsSpawned(t, gross, ch, fee, w.sys);
    ReachMove(t, w, Table(D.SpawnChildren(0)));
    var r := Refunding(t, gross, ch, fee);
    ReachMove(t, r.(sys := r.sys.(tick := D.Deliver([]))), Table(D.EndTick));
  }

  /** And lands as well. */
  lemma RefundLands(t: Terms, gross: nat, ch: Chain, fee: nat) returns (w: World)
    requires Reaches(t, Refunding(t, gross, ch, fee))
    ensures Reaches(t, w) && w.chains == AfterLanding(MintedChains(gross, ch, fee), RefundRow(t, gross, ch), 0)
  {
    var w0, q := Refunding(t, gross, ch, fee), RefundRow(t, gross, ch);
    Delivers(t, w0, q);
    var w1 := w0.(sys := InDelivery(w0.sys, q));
    PinsAndLands(t, w1, REFUND_ID, 0);
    var r := w1.sys.rows[REFUND_ID].(txid := Some("x"), updatedAt := 0);
    w := World(w1.sys.(rows := w1.sys.rows[REFUND_ID := r]), AfterLanding(w1.chains, r, 0), Moved(w1.books, r, 0));
  }

  lemma OverpaidIsReached(t: Terms, gross: nat, ch: Chain) returns (w: World)
    requires CanBeOverpaid(t, gross, ch)
    ensures Reaches(t, w) && DEPOSIT in w.chains.deposits && w.chains.deposits[DEPOSIT] == gross && On(w.chains, DEPOSIT) == ch
    ensures DepositLeft(t, w.chains, DEPOSIT) < 0
  {
    var fee := QuotePegIn(gross, true, PolicyOn(t, ch)).b.fee;
    MintLands(t, gross, ch, fee);
    RefundIsSpawned(t, gross, ch, fee);
    w := RefundLands(t, gross, ch, fee);
    PaidBothWays(t, gross, ch, fee);
  }

  lemma PaidBothWays(t: Terms, gross: nat, ch: Chain, fee: nat)
    ensures DepositLeft(t, AfterLanding(MintedChains(gross, ch, fee), RefundRow(t, gross, ch), 0), DEPOSIT)
            == fee - RefundAmount(gross, t.o.refundFee)
  {
    assert DEPOSIT + REFUND_SUFFIX == REFUND_ID && DEPOSIT + FEE_SUFFIX != REFUND_ID;
  }

  /** Some history overpays a deposit of this size on this chain. */
  ghost predicate IsOverpaidSomewhere(t: Terms, gross: nat, ch: Chain) {
    exists w, d :: Reaches(t, w) && d in w.chains.deposits && w.chains.deposits[d] == gross && On(w.chains, d) == ch
                   && DepositLeft(t, w.chains, d) < 0
  }

  lemma OverpaidFitsQuote(t: Terms, w: World, d: string)
    requires Fits(t, w) && d in w.chains.deposits && DepositLeft(t, w.chains, d) < 0
    ensures CanBeOverpaid(t, w.chains.deposits[d], On(w.chains, d))
  {
    OverpaidIff(t, w, d);
    RefundStands(t, w, d);
    PinStands(t, w, d);
  }

  lemma OverpaidWasQuoted(t: Terms, w: World, d: string)
    requires Reaches(t, w) && d in w.chains.deposits && DepositLeft(t, w.chains, d) < 0
    ensures CanBeOverpaid(t, w.chains.deposits[d], On(w.chains, d))
  {
    var ws :| History(t, ws) && ws[|ws| - 1] == w;
    HistoryKeepsBacking(t, ws, |ws| - 1);
    OverpaidFitsQuote(t, w, d);
  }

  /**
   Nothing but the answer tells the dispatcher what has landed, so deposits of a size are overpaid
   in some history exactly when one is accepted and its refund is worth more than the base fee.
   */
  lemma OverpaidSomewhereIff(t: Terms, gross: nat, ch: Chain)
    ensures IsOverpaidSomewhere(t, gross, ch) <==> CanBeOverpaid(t, gross, ch)
  {
    if CanBeOverpaid(t, gross, ch) {
      var w := OverpaidIsReached(t, gross, ch);
    }
    if IsOverpaidSomewhere(t, gross, ch) {
      var w, d :| Reaches(t, w) && d in w.chains.deposits && w.chains.deposits[d] == gross && On(w.chains, d) == ch
                  && DepositLeft(t, w.chains, d) < 0;
      OverpaidWasQuoted(t, w, d);
    }
  }
}
