/** What moves on one chain between two moments: the deposits, burns and landings that come in. */
module Turnover {
  import opened Wrappers
  import opened Fees
  import opened Policy
  import opened Outbox
  import opened Sums
  import opened Backing
  import D = Dispatcher

  function DepositedOn(c: Chains, ch: Chain): string -> int {
    d => if d in c.deposits && On(c, d) == ch then c.deposits[d] else 0
  }

  function BurntOn(c: Chains, ch: Chain): string -> int {
    b => if b in c.burns && On(c, b) == ch then c.burns[b] else 0
  }

  function PaidOutOn(w: World, ch: Chain): string -> int {
    id => if id in w.sys.rows && ChainOf(w.sys.rows[id]) == ch && w.sys.rows[id].kind in {PegOut, FeeSweep, Refund}
          then w.sys.rows[id].amount else 0
  }

  function IssuedOn(w: World, ch: Chain): string -> int {
    id => if id in w.sys.rows && ChainOf(w.sys.rows[id]) == ch && w.sys.rows[id].kind in {PegIn, GramReturn}
          then w.sys.rows[id].amount - (if w.sys.rows[id].kind == PegIn then Withheld(w.chains, id) else 0) else 0
  }

  function Withheld(c: Chains, id: string): int {
    if id in c.withheld then c.withheld[id] else 0
  }

  /** Deposited on VIZ for this chain between two states. */
  ghost function Deposits(w: World, w': World, ch: Chain): int {
    Sum(w'.chains.deposits.Keys - w.chains.deposits.Keys, DepositedOn(w'.chains, ch))
  }

  /** Burnt on this chain. */
  ghost function Burns(w: World, w': World, ch: Chain): int {
    Sum(w'.chains.burns.Keys - w.chains.burns.Keys, BurntOn(w'.chains, ch))
  }

  /** Paid out of its gateway account by releases, refunds and sweeps that landed. */
  ghost function PaidOut(w: World, w': World, ch: Chain): int {
    Sum(w'.chains.landed - w.chains.landed, PaidOutOn(w', ch))
  }

  /** Issued on it by mints, net of what they withheld, and by returns that landed. */
  ghost function Issued(w: World, w': World, ch: Chain): int {
    Sum(w'.chains.landed - w.chains.landed, IssuedOn(w', ch))
  }

  // ---------- the past stays ----------

  predicate SameTerm(r: Row, r': Row) {
    r'.kind == r.kind && r'.amount == r.amount && ChainOf(r') == ChainOf(r)
  }

  predicate SameMeans(w: World, w': World, id: string) {
    && id in w.sys.rows && id in w'.sys.rows
    && SameTerm(w.sys.rows[id], w'.sys.rows[id])
    && Withheld(w'.chains, id) == Withheld(w.chains, id)
  }

  predicate SourcesStay(c: Chains, c': Chains) {
    && (forall d :: d in c.deposits ==> d in c'.deposits && c'.deposits[d] == c.deposits[d] && On(c', d) == On(c, d))
    && (forall b :: b in c.burns ==> b in c'.burns && c'.burns[b] == c.burns[b] && On(c', b) == On(c, b))
  }

  /** Sources and landings are never taken back, and a landed row keeps what it stands for. */
  ghost predicate Stays(w: World, w': World) {
    && SourcesStay(w.chains, w'.chains) && w.chains.landed <= w'.chains.landed
    && forall id :: id in w.chains.landed ==> SameMeans(w, w', id)
  }

  lemma VerdictKeepsTerms(o: D.Opts, s: D.Sys, e: D.Event, s': D.Sys)
    requires D.Inv(s) && D.Enabled(o, s, e) && e.WriteTransition? && s' == D.Next(o, s, e)
    ensures var id := s.tick.rec.id; id in s.rows && id in s'.rows && SameTerm(s.rows[id], s'.rows[id])
  {
  }

  lemma SentRowKeepsTerms(o: D.Opts, s: D.Sys, e: D.Event, s': D.Sys, id: string)
    requires D.Inv(s) && D.Enabled(o, s, e) && !e.PinFee? && s' == D.Next(o, s, e) && id in s.sent
    ensures id in s.rows && id in s'.rows && SameTerm(s.rows[id], s'.rows[id])
  {
    D.StepKeepsInv(o, s, e);
    assert id in s'.sent;
    if id != D.Target(s, e) {
      D.OtherRowsAreUntouched(o, s, e, id);
    } else if e.WriteTransition? {
      VerdictKeepsTerms(o, s, e, s');
    } else {
      TargetRewrites(o, s, e, s', id);
    }
  }

  lemma TableStays(t: Terms, w: World, e: D.Event)
    requires Fits(t, w) && Can(t, w, Table(e))
    ensures Stays(w, After(t, w, Table(e)))
  {
    var s' := D.Next(t.o, w.sys, e);
    forall id | id in w.chains.landed ensures SameMeans(w, w.(sys := s'), id) {
      SentRowKeepsTerms(t.o, w.sys, e, s', id);
    }
  }

  lemma QuoteStays(t: Terms, w: World, id: string, now: int)
    requires Fits(t, w) && Can(t, w, Quoted(id, now))
    ensures Stays(w, After(t, w, Quoted(id, now)))
  {
    forall x | x in w.chains.landed ensures SameMeans(w, After(t, w, Quoted(id, now)), x) {
      assert x in w.sys.rows;
    }
  }

  /** A landing writes what was withheld only for the row that lands. */
  lemma LandingStays(w: World, w': World, r: Row, fee: int)
    requires w.chains.landed <= w.sys.rows.Keys && r.id !in w.chains.landed && w'.sys == w.sys
    requires w'.chains == AfterLanding(w.chains, r, fee)
    ensures Stays(w, w')
  {
    forall x | x in w.chains.landed ensures SameMeans(w, w', x) {
      assert x in w.sys.rows;
    }
  }

  lemma SourcesGrow(w: World, w': World)
    requires w.chains.landed <= w.sys.rows.Keys && w'.sys == w.sys && SourcesStay(w.chains, w'.chains)
    requires w'.chains.landed == w.chains.landed && w'.chains.withheld == w.chains.withheld
    ensures Stays(w, w')
  {
  }

  lemma MoveStays(t: Terms, w: World, h: Happening)
    requires Fits(t, w) && Can(t, w, h)
    ensures Stays(w, After(t, w, h))
  {
    if h.Table? {
      TableStays(t, w, h.e);
    } else if h.Quoted? {
      QuoteStays(t, w, h.id, h.now);
    } else if h.Landed? {
      assert D.RowOk(w.sys.rows, w.sys.sent, h.id);
      LandingStays(w, After(t, w, h), w.sys.rows[h.id], h.fee);
    } else {
      SourcesGrow(w, After(t, w, h));
    }
  }

  lemma StaysStays(a: World, b: World, c: World)
    requires Stays(a, b) && Stays(b, c)
    ensures Stays(a, c)
  {
    forall id | id in a.chains.landed ensures SameMeans(a, c, id) {
      assert SameMeans(a, b, id) && SameMeans(b, c, id);
    }
  }

  lemma StaysItself(t: Terms, w: World)
    requires Fits(t, w)
    ensures Stays(w, w)
  {
    forall id | id in w.chains.landed ensures SameMeans(w, w, id) {
      assert id in w.sys.sent;
    }
  }

  lemma StepStays(t: Terms, w: World, w': World)
    requires Fits(t, w) && Move(t, w, w')
    ensures Stays(w, w')
  {
    var h :| Can(t, w, h) && w' == After(t, w, h);
    MoveStays(t, w, h);
  }

  lemma {:induction false} HistoryStays(t: Terms, ws: seq<World>, i: nat, j: nat)
    requires History(t, ws) && i <= j < |ws|
    ensures Stays(ws[i], ws[j])
    decreases j
  {
    if i == j {
      HistoryKeepsBacking(t, ws, i);
      StaysItself(t, ws[i]);
    } else {
      HistoryStays(t, ws, i, j - 1);
      HistoryKeepsBacking(t, ws, j - 1);
      StepStays(t, ws[j - 1], ws[j - 1 + 1]);
      StaysStays(ws[i], ws[j - 1], ws[j]);
    }
  }

  lemma SourcesAddUp(a: World, b: World, c: World, ch: Chain)
    requires Stays(a, b) && Stays(b, c)
    ensures Deposits(a, c, ch) == Deposits(a, b, ch) + Deposits(b, c, ch)
    ensures Burns(a, c, ch) == Burns(a, b, ch) + Burns(b, c, ch)
  {
    SumOfArrivals(a.chains.deposits.Keys, b.chains.deposits.Keys, c.chains.deposits.Keys,
                  DepositedOn(b.chains, ch), DepositedOn(c.chains, ch));
    SumOfArrivals(a.chains.burns.Keys, b.chains.burns.Keys, c.chains.burns.Keys, BurntOn(b.chains, ch), BurntOn(c.chains, ch));
  }

  lemma LandingsAddUp(a: World, b: World, c: World, ch: Chain)
    requires Stays(a, b) && Stays(b, c)
    ensures PaidOut(a, c, ch) == PaidOut(a, b, ch) + PaidOut(b, c, ch)
    ensures Issued(a, c, ch) == Issued(a, b, ch) + Issued(b, c, ch)
  {
    forall id | id in b.chains.landed
      ensures PaidOutOn(b, ch)(id) == PaidOutOn(c, ch)(id) && IssuedOn(b, ch)(id) == IssuedOn(c, ch)(id)
    {
      assert SameMeans(b, c, id);
    }
    SumOfArrivals(a.chains.landed, b.chains.landed, c.chains.landed, PaidOutOn(b, ch), PaidOutOn(c, ch));
    SumOfArrivals(a.chains.landed, b.chains.landed, c.chains.landed, IssuedOn(b, ch), IssuedOn(c, ch));
  }

  /** Turnover adds up over consecutive stretches. */
  lemma TurnoverAdds(a: World, b: World, c: World, ch: Chain)
    requires Stays(a, b) && Stays(b, c)
    ensures Deposits(a, c, ch) == Deposits(a, b, ch) + Deposits(b, c, ch)
    ensures Burns(a, c, ch) == Burns(a, b, ch) + Burns(b, c, ch)
    ensures PaidOut(a, c, ch) == PaidOut(a, b, ch) + PaidOut(b, c, ch)
    ensures Issued(a, c, ch) == Issued(a, b, ch) + Issued(b, c, ch)
  {
    SourcesAddUp(a, b, c, ch);
    LandingsAddUp(a, b, c, ch);
  }

  lemma TurnoverIsNotNegative(t: Terms, w: World, w': World, ch: Chain)
    requires Fits(t, w')
    ensures Deposits(w, w', ch) >= 0 && Burns(w, w', ch) >= 0 && PaidOut(w, w', ch) >= 0 && Issued(w, w', ch) >= 0
  {
    SumNonNegative(w'.chains.deposits.Keys - w.chains.deposits.Keys, DepositedOn(w'.chains, ch));
    SumNonNegative(w'.chains.burns.Keys - w.chains.burns.Keys, BurntOn(w'.chains, ch));
    forall id | id in w'.chains.landed ensures PaidOutOn(w', ch)(id) >= 0 && IssuedOn(w', ch)(id) >= 0 {
      LandedMovesNoLess(t, w', id, ch);
    }
    SumNonNegative(w'.chains.landed - w.chains.landed, PaidOutOn(w', ch));
    SumNonNegative(w'.chains.landed - w.chains.landed, IssuedOn(w', ch));
  }

  lemma LandedMovesNoLess(t: Terms, w: World, id: string, ch: Chain)
    requires Fits(t, w) && id in w.chains.landed
    ensures PaidOutOn(w, ch)(id) >= 0 && IssuedOn(w, ch)(id) >= 0
  {
    var r := w.sys.rows[id];
    assert D.RowOk(w.sys.rows, w.sys.sent, id) && RowFits(t, w.chains, r);
    if r.kind == PegIn {
      PinStands(t, w, id);
    }
  }

  // ---------- the books move by it ----------

  /** From one state to another a chain's books move by exactly what was deposited, burnt and landed. */
  ghost predicate MovesBy(w: World, w': World, ch: Chain) {
    var b, b' := BookOn(w.books, ch), BookOn(w'.books, ch);
    && b'.locked - b.locked == Deposits(w, w', ch) - PaidOut(w, w', ch)
    && b'.circulating - b.circulating == Issued(w, w', ch) - Burns(w, w', ch)
  }

  lemma DepositMovesBy(w: World, w': World, id: string, at: Chain, gross: nat, ch: Chain)
    requires FreshSource(w.chains, id) && w'.books == Posted(w.books, at, gross, 0)
    requires w'.chains == AfterDeposit(w.chains, id, at, gross)
    ensures MovesBy(w, w', ch)
  {
    assert w'.chains.landed - w.chains.landed == {} && w'.chains.burns.Keys - w.chains.burns.Keys == {};
    assert w'.chains.deposits.Keys - w.chains.deposits.Keys == {id};
    SumOne(id, DepositedOn(w'.chains, ch));
  }

  lemma BurnMovesBy(w: World, w': World, id: string, at: Chain, amount: nat, ch: Chain)
    requires FreshSource(w.chains, id) && w'.books == Posted(w.books, at, 0, 0 - amount)
    requires w'.chains == AfterBurn(w.chains, id, at, amount)
    ensures MovesBy(w, w', ch)
  {
    assert w'.chains.landed - w.chains.landed == {} && w'.chains.deposits.Keys - w.chains.deposits.Keys == {};
    assert w'.chains.burns.Keys - w.chains.burns.Keys == {id};
    SumOne(id, BurntOn(w'.chains, ch));
  }

  lemma LandingPosts(c: Chains, books: Books, r: Row, fee: int, w': World, ch: Chain)
    requires w'.chains == AfterLanding(c, r, fee) && w'.books == Moved(books, r, fee)
    requires r.id in w'.sys.rows && w'.sys.rows[r.id] == r
    ensures BookOn(w'.books, ch).locked - BookOn(books, ch).locked == 0 - PaidOutOn(w', ch)(r.id)
    ensures BookOn(w'.books, ch).circulating - BookOn(books, ch).circulating == IssuedOn(w', ch)(r.id)
  {
  }

  lemma LandingMovesBy(w: World, w': World, r: Row, fee: int, ch: Chain)
    requires r.id in w.sys.rows && w.sys.rows[r.id] == r && r.id !in w.chains.landed && w'.sys == w.sys
    requires w'.chains == AfterLanding(w.chains, r, fee) && w'.books == Moved(w.books, r, fee)
    ensures MovesBy(w, w', ch)
  {
    LandingPosts(w.chains, w.books, r, fee, w', ch);
    assert w'.chains.landed - w.chains.landed == {r.id};
    assert w'.chains.deposits.Keys - w.chains.deposits.Keys == {} && w'.chains.burns.Keys - w.chains.burns.Keys == {};
    SumOne(r.id, PaidOutOn(w', ch));
    SumOne(r.id, IssuedOn(w', ch));
  }

  lemma NothingMoves(w: World, w': World, ch: Chain)
    requires w'.books == w.books && w'.chains.landed == w.chains.landed
    requires w'.chains.deposits == w.chains.deposits && w'.chains.burns == w.chains.burns
    ensures MovesBy(w, w', ch)
  {
    assert w'.chains.landed - w.chains.landed == {};
    assert w'.chains.deposits.Keys - w.chains.deposits.Keys == {} && w'.chains.burns.Keys - w.chains.burns.Keys == {};
  }

  lemma MoveMovesBy(t: Terms, w: World, h: Happening, ch: Chain)
    requires Fits(t, w) && Can(t, w, h)
    ensures MovesBy(w, After(t, w, h), ch)
  {
    match h
    case Landed(id, fee) =>
      assert D.RowOk(w.sys.rows, w.sys.sent, id);
      LandingMovesBy(w, After(t, w, h), w.sys.rows[id], fee, ch);
    case Deposited(id, at, gross) => DepositMovesBy(w, After(t, w, h), id, at, gross, ch);
    case Burnt(id, at, amount) => BurnMovesBy(w, After(t, w, h), id, at, amount, ch);
    case _ => NothingMoves(w, After(t, w, h), ch);
  }

  lemma StepMovesBy(t: Terms, w: World, w': World, ch: Chain)
    requires Fits(t, w) && Move(t, w, w')
    ensures MovesBy(w, w', ch)
  {
    var h :| Can(t, w, h) && w' == After(t, w, h);
    MoveMovesBy(t, w, h, ch);
  }

  /**
   Between any two moments of a history the gateway's account moves by what was deposited less what
   releases, refunds and sweeps paid out, and circulation by what mints and returns issued less what
   was burnt.
   */
  lemma {:induction false} BooksMoveByTurnover(t: Terms, ws: seq<World>, i: nat, j: nat, ch: Chain)
    requires History(t, ws) && i <= j < |ws|
    ensures var b, b' := BookOn(ws[i].books, ch), BookOn(ws[j].books, ch);
            && b'.locked - b.locked == Deposits(ws[i], ws[j], ch) - PaidOut(ws[i], ws[j], ch)
            && b'.circulating - b.circulating == Issued(ws[i], ws[j], ch) - Burns(ws[i], ws[j], ch)
    decreases j
  {
    if i == j {
      NothingMoves(ws[i], ws[i], ch);
    } else {
      BooksMoveByTurnover(t, ws, i, j - 1, ch);
      HistoryKeepsBacking(t, ws, j - 1);
      StepMovesBy(t, ws[j - 1], ws[j - 1 + 1], ch);
      HistoryStays(t, ws, i, j - 1);
      HistoryStays(t, ws, j - 1, j);
      TurnoverAdds(ws[i], ws[j - 1], ws[j], ch);
    }
  }

  /** A shorter stretch turns over no more. */
  lemma LessInLessTime(t: Terms, ws: seq<World>, lo: nat, i: nat, j: nat, hi: nat, ch: Chain)
    requires History(t, ws) && lo <= i <= j <= hi < |ws|
    ensures Deposits(ws[i], ws[j], ch) <= Deposits(ws[lo], ws[hi], ch)
    ensures Burns(ws[i], ws[j], ch) <= Burns(ws[lo], ws[hi], ch)
    ensures PaidOut(ws[i], ws[j], ch) <= PaidOut(ws[lo], ws[hi], ch)
    ensures Issued(ws[i], ws[j], ch) <= Issued(ws[lo], ws[hi], ch)
  {
    HistoryStays(t, ws, lo, i);
    HistoryStays(t, ws, i, j);
    HistoryStays(t, ws, j, hi);
    HistoryStays(t, ws, i, hi);
    TurnoverAdds(ws[lo], ws[i], ws[hi], ch);
    TurnoverAdds(ws[i], ws[j], ws[hi], ch);
    HistoryKeepsBacking(t, ws, i);
    HistoryKeepsBacking(t, ws, hi);
    TurnoverIsNotNegative(t, ws[lo], ws[i], ch);
    TurnoverIsNotNegative(t, ws[j], ws[hi], ch);
  }

  function Larger(a: int, b: int): int {
    if a < b then b else a
  }

  /** How far a balance and a supply read at different moments may be apart from those of one moment. */
  ghost function Skew(w: World, w': World, ch: Chain): int {
    Larger(Deposits(w, w', ch), PaidOut(w, w', ch)) + Larger(Issued(w, w', ch), Burns(w, w', ch))
  }

  /** Read at `i` and `j` instead of at `k`, locked less circulating falls short by no more than the skew of the time spanned. */
  lemma ReadsAreWithinSkew(t: Terms, ws: seq<World>, lo: nat, i: nat, j: nat, k: nat, hi: nat, ch: Chain)
    requires History(t, ws) && lo <= i <= hi && lo <= j <= hi && lo <= k <= hi && hi < |ws|
    ensures BookOn(ws[k].books, ch).locked - BookOn(ws[i].books, ch).locked
            + BookOn(ws[j].books, ch).circulating - BookOn(ws[k].books, ch).circulating <= Skew(ws[lo], ws[hi], ch)
  {
    LockedIsWithin(t, ws, lo, i, k, hi, ch);
    CirculatingIsWithin(t, ws, lo, k, j, hi, ch);
  }

  lemma LockedIsWithin(t: Terms, ws: seq<World>, lo: nat, i: nat, k: nat, hi: nat, ch: Chain)
    requires History(t, ws) && lo <= i <= hi && lo <= k <= hi && hi < |ws|
    ensures BookOn(ws[k].books, ch).locked - BookOn(ws[i].books, ch).locked
            <= Larger(Deposits(ws[lo], ws[hi], ch), PaidOut(ws[lo], ws[hi], ch))
  {
    var a, b := if i <= k then i else k, if i <= k then k else i;
    BooksMoveByTurnover(t, ws, a, b, ch);
    LessInLessTime(t, ws, lo, a, b, hi, ch);
    HistoryKeepsBacking(t, ws, b);
    TurnoverIsNotNegative(t, ws[a], ws[b], ch);
  }

  lemma CirculatingIsWithin(t: Terms, ws: seq<World>, lo: nat, k: nat, j: nat, hi: nat, ch: Chain)
    requires History(t, ws) && lo <= k <= hi && lo <= j <= hi && hi < |ws|
    ensures BookOn(ws[j].books, ch).circulating - BookOn(ws[k].books, ch).circulating
            <= Larger(Issued(ws[lo], ws[hi], ch), Burns(ws[lo], ws[hi], ch))
  {
    var a, b := if k <= j then k else j, if k <= j then j else k;
    BooksMoveByTurnover(t, ws, a, b, ch);
    LessInLessTime(t, ws, lo, a, b, hi, ch);
    HistoryKeepsBacking(t, ws, b);
    TurnoverIsNotNegative(t, ws[a], ws[b], ch);
  }
}
