/**
 Backing of wVIZ on each remote chain: the VIZ locked in that chain's gateway account against what
 circulates there.

 The outbox and its writers (Dispatcher) run together with VIZ and both remote chains, whose rows
 share the one table. Deposits and burns happen at any time; the coordinator quotes a peg-in from
 what it sees of the destination, which may only ever become provisioned. Each action lands at most
 once, at any later moment, crash or not, even when its row has been given up: a mint for any of
 the bodies ever quoted for it, pinned beforehand or not, anything else once its txid is persisted.
 What is taken on trust is stated in the guards `Honest` and `Can`.
 */
module Backing {
  import opened Wrappers
  import opened Fees
  import opened Policy
  import opened Outbox
  import opened Sums
  import D = Dispatcher

  datatype Terms = Terms(o: D.Opts, gram: FeePolicy, solana: FeePolicy)

  function PolicyOn(t: Terms, ch: Chain): FeePolicy {
    match ch
    case GRAM => t.gram
    case SOLANA => t.solana
  }

  /**
   `on` is the remote chain of each deposit and burn, `known` the provisioned recipients, `offers`
   every fee ever quoted for a deposit, `withheld` the fee its mint kept back.
   */
  datatype Chains = Chains(deposits: map<string, nat>, burns: map<string, nat>, on: map<string, Chain>, known: set<string>,
                           offers: map<string, set<int>>, landed: set<string>, withheld: map<string, int>)

  function On(c: Chains, id: string): Chain {
    if id in c.on then c.on[id] else SOLANA
  }

  /** What is locked in a chain's gateway account on VIZ, and what circulates on it. */
  datatype Book = Book(locked: int, circulating: int)

  type Books = map<Chain, Book>

  function BookOn(books: Books, ch: Chain): Book {
    if ch in books then books[ch] else Book(0, 0)
  }

  /** What a chain's account holds beyond what circulates there. */
  function Surplus(books: Books, ch: Chain): int {
    BookOn(books, ch).locked - BookOn(books, ch).circulating
  }

  /** Locks and circulates so much more on one chain. */
  function Posted(books: Books, ch: Chain, locked: int, circulating: int): Books {
    books[ch := Book(BookOn(books, ch).locked + locked, BookOn(books, ch).circulating + circulating)]
  }

  /** A row without a chain counts as Solana's. */
  function ChainOf(r: Row): Chain {
    if r.remoteChain.Some? then r.remoteChain.value else SOLANA
  }

  datatype World = World(sys: D.Sys, chains: Chains, books: Books)

  datatype Happening =
    | Deposited(id: string, ch: Chain, gross: nat)
    | Burnt(id: string, ch: Chain, amount: nat)
    | Provisioned(recipient: string)
    | Quoted(id: string, now: int)
    | Landed(id: string, fee: int)
    | Table(e: D.Event)

  predicate FreshSource(c: Chains, id: string) {
    IsSourceId(id) && id !in c.deposits && id !in c.burns
  }

  /** Watchers record what is on chain, and an answer of success is given only for what landed and names the fee pinned, if any. */
  predicate Honest(t: Terms, w: World, e: D.Event)
    requires e.TakeAnswer? ==> w.sys.tick.Submitting?
    requires e.WriteTransition? ==> w.sys.tick.Decided?
  {
    match e
    case Discover(n, _) =>
      var events := if n.kind == PegIn then w.chains.deposits else w.chains.burns;
      n.id in events && n.amount == events[n.id] && n.remoteChain == Some(On(w.chains, n.id))
    case TakeAnswer(result, _) =>
      var rec := w.sys.tick.rec;
      && (result.broadcast ==> rec.id in w.chains.landed)
      && (result.broadcast && result.fee.Some? && result.fee.value > 0 ==>
            rec.kind == PegIn && rec.id in w.sys.rows && w.sys.rows[rec.id].fee == result.fee.value)
    case WriteTransition(sweep, _) =>
      var tick := w.sys.tick;
      sweep == if tick.status == CONFIRMED && tick.rec.kind == PegIn && tick.rec.amount >= 0
               then BaseFee(tick.rec.amount, PolicyOn(t, ChainOf(tick.rec))) else 0
    case PinFee(_, _, _) => false
    case _ => true
  }

  function QuoteFor(t: Terms, c: Chains, rec: Row): Quote
    requires rec.amount >= 0
  {
    QuotePegIn(rec.amount, rec.recipient in c.known, PolicyOn(t, ChainOf(rec)))
  }

  ghost predicate Can(t: Terms, w: World, h: Happening) {
    match h
    case Deposited(id, _, _) => FreshSource(w.chains, id)
    case Burnt(id, _, _) => FreshSource(w.chains, id)
    case Provisioned(_) => true
    case Quoted(id, _) =>
      && id in w.sys.busy && id in w.sys.rows && w.sys.rows[id].kind == PegIn && w.sys.rows[id].amount >= 0
      && QuoteFor(t, w.chains, w.sys.rows[id]).Accepted?
    case Landed(id, fee) =>
      && id in w.sys.rows && id in w.sys.sent && id !in w.chains.landed
      && (if w.sys.rows[id].kind == PegIn then id in w.chains.offers && fee in w.chains.offers[id]
          else w.sys.rows[id].txid.Some?)
    case Table(e) => D.Enabled(t.o, w.sys, e) && Honest(t, w, e)
  }

  /** Only a positive fee is pinned. */
  function AfterQuote(t: Terms, w: World, id: string, now: int): World
    requires id in w.sys.rows && w.sys.rows[id].amount >= 0 && QuoteFor(t, w.chains, w.sys.rows[id]).Accepted?
  {
    var fee := QuoteFor(t, w.chains, w.sys.rows[id]).b.fee;
    World(if fee > 0 then w.sys.(rows := SetFee(w.sys.rows, id, fee, now)) else w.sys,
          w.chains.(offers := w.chains.offers[id := OffersFor(w.chains, id) + {fee}]), w.books)
  }

  function OffersFor(c: Chains, id: string): set<int> {
    if id in c.offers then c.offers[id] else {}
  }

  function AfterLanding(c: Chains, r: Row, fee: int): Chains {
    c.(landed := c.landed + {r.id}, withheld := if r.kind == PegIn then c.withheld[r.id := fee] else c.withheld)
  }

  /** Mints and returns put wVIZ into circulation; releases, refunds and sweeps pay VIZ out. */
  function Moved(books: Books, r: Row, fee: int): Books {
    match r.kind
    case PegIn => Posted(books, ChainOf(r), 0, r.amount - fee)
    case GramReturn => Posted(books, ChainOf(r), 0, r.amount)
    case _ => Posted(books, ChainOf(r), 0 - r.amount, 0)
  }

  function AfterDeposit(c: Chains, id: string, ch: Chain, gross: nat): Chains {
    c.(deposits := c.deposits[id := gross], on := c.on[id := ch])
  }

  function AfterBurn(c: Chains, id: string, ch: Chain, amount: nat): Chains {
    c.(burns := c.burns[id := amount], on := c.on[id := ch])
  }

  ghost function After(t: Terms, w: World, h: Happening): World
    requires Can(t, w, h)
  {
    match h
    case Deposited(id, ch, gross) =>
      w.(chains := AfterDeposit(w.chains, id, ch, gross), books := Posted(w.books, ch, gross, 0))
    case Burnt(id, ch, amount) =>
      w.(chains := AfterBurn(w.chains, id, ch, amount), books := Posted(w.books, ch, 0, 0 - amount))
    case Provisioned(recipient) => w.(chains := w.chains.(known := w.chains.known + {recipient}))
    case Quoted(id, now) => AfterQuote(t, w, id, now)
    case Landed(id, fee) =>
      w.(chains := AfterLanding(w.chains, w.sys.rows[id], fee), books := Moved(w.books, w.sys.rows[id], fee))
    case Table(e) => w.(sys := D.Next(t.o, w.sys, e))
  }

  ghost predicate Start(w: World) {
    && D.Initial(w.sys)
    && w.chains == Chains(map[], map[], map[], {}, map[], {}, map[]) && w.books == map[]
  }

  ghost predicate Move(t: Terms, w: World, w': World) {
    exists h :: Can(t, w, h) && w' == After(t, w, h)
  }

  ghost predicate History(t: Terms, ws: seq<World>) {
    && |ws| > 0 && Start(ws[0])
    && forall i :: 0 <= i < |ws| - 1 ==> Move(t, ws[i], ws[i + 1])
  }

  // ---------- residuals ----------

  /** What is left in the gateway of one deposit: pending gross, or the fee less its sweep, or the refund fee. */
  function DepositLeft(t: Terms, c: Chains, d: string): int {
    if d !in c.deposits then 0 else
    var gross := c.deposits[d];
    gross
    - (if d in c.landed && d in c.withheld then gross - c.withheld[d] else 0)
    - (if d + FEE_SUFFIX in c.landed then BaseFee(gross, PolicyOn(t, On(c, d))) else 0)
    - (if d + REFUND_SUFFIX in c.landed then RefundAmount(gross, t.o.refundFee) else 0)
  }

  /** What is left of one burn: pending amount, nothing once released, or the fee of a return. */
  function BurnLeft(t: Terms, c: Chains, b: string): int {
    if b !in c.burns then 0 else
    c.burns[b]
    - (if b in c.landed then c.burns[b] else 0)
    - (if b + RETURN_SUFFIX in c.landed then RefundAmount(c.burns[b], t.o.refundFee) else 0)
  }

  function DepositTerm(t: Terms, c: Chains, ch: Chain): string -> int {
    d => if On(c, d) == ch then DepositLeft(t, c, d) else 0
  }

  function BurnTerm(t: Terms, c: Chains, ch: Chain): string -> int {
    b => if On(c, b) == ch then BurnLeft(t, c, b) else 0
  }

  /** What is left of the deposits and burns of one chain. */
  ghost function Left(t: Terms, c: Chains, ch: Chain): int {
    Sum(c.deposits.Keys, DepositTerm(t, c, ch)) + Sum(c.burns.Keys, BurnTerm(t, c, ch))
  }

  // ---------- the invariant ----------

  /** The least net the chain's mint takes. */
  function LeastNet(p: FeePolicy): nat {
    if p.mintGasFloor > 0 then p.mintGasFloor else 1
  }

  /**
   A zero fee is not pinned, so a fee pinned before could go stale. It cannot when there is no
   activation surcharge, or when every deposit that can bear one also bears a base fee.
   */
  predicate PinsKeepUp(p: FeePolicy) {
    p.activationSurcharge > 0 ==> BaseFee(p.activationSurcharge + LeastNet(p), p) > 0
  }

  /** A fee once quoted: the base with or without the surcharge, and no less than would be quoted now. */
  predicate OfferFits(t: Terms, c: Chains, r: Row, f: int)
    requires r.amount >= 0
  {
    var p := PolicyOn(t, ChainOf(r));
    var base, surcharge := BaseFee(r.amount, p), p.activationSurcharge;
    && (f == base || f == base + surcharge)
    && f >= base + (if r.recipient in c.known then 0 else surcharge)
    && r.amount - f >= LeastNet(p)
  }

  /** The pinned fee was quoted, if any was, and covers the base; no body was quoted under it while pins keep up. */
  predicate FeeFits(t: Terms, c: Chains, r: Row)
    requires r.amount >= 0
  {
    if r.id !in c.offers then r.fee == 0
    else
      && BaseFee(r.amount, PolicyOn(t, ChainOf(r))) <= r.fee < r.amount
      && (r.fee == 0 || r.fee in c.offers[r.id])
      && (forall f :: f in c.offers[r.id] ==> OfferFits(t, c, r, f))
      && (PinsKeepUp(PolicyOn(t, ChainOf(r))) ==> forall f :: f in c.offers[r.id] ==> r.fee <= f)
  }

  /** The row carries its source's chain, and the amount due for its kind. */
  predicate AmountFits(t: Terms, c: Chains, r: Row) {
    match r.kind
    case PegIn => r.id in c.deposits && r.amount == c.deposits[r.id] && r.remoteChain == Some(On(c, r.id))
    case PegOut => r.id in c.burns && r.amount == c.burns[r.id] && r.remoteChain == Some(On(c, r.id))
    case FeeSweep =>
      r.parentId.Some? && var d := r.parentId.value;
      d in c.deposits && r.amount == BaseFee(c.deposits[d], PolicyOn(t, On(c, d))) && r.remoteChain == Some(On(c, d))
    case Refund =>
      r.parentId.Some? && var d := r.parentId.value;
      d in c.deposits && r.amount == RefundAmount(c.deposits[d], t.o.refundFee) && r.remoteChain == Some(On(c, d))
    case GramReturn =>
      r.parentId.Some? && var b := r.parentId.value;
      b in c.burns && r.amount == RefundAmount(c.burns[b], t.o.refundFee) && r.remoteChain == Some(On(c, b))
  }

  predicate RowFits(t: Terms, c: Chains, r: Row) {
    && AmountFits(t, c, r)
    && (r.kind == PegIn ==> FeeFits(t, c, r))
    && (r.status == CONFIRMED ==> r.id in c.landed)
    && (r.status == FAILED ==> r.txid.None?)
    && (r.id in c.landed && r.kind == PegIn ==>
          r.id in c.withheld && r.id in c.offers && c.withheld[r.id] in c.offers[r.id])
    && (r.id in c.landed && r.kind == Refund ==> r.status == CONFIRMED || r.txid.Some?)
  }

  predicate TickFits(t: Terms, w: World) {
    match w.sys.tick
    case Decided(rec, status, patch, _) =>
      && (status == CONFIRMED ==> rec.id in w.chains.landed)
      && (patch.fee.Some? ==> rec.kind == PegIn && rec.id in w.sys.rows && w.sys.rows[rec.id].fee == patch.fee.value)
      && (status != CONFIRMED ==> patch.txid.None?)
    case Spawn(rec, status, sweep, _) =>
      status == CONFIRMED && rec.kind == PegIn ==> rec.amount >= 0 && sweep == BaseFee(rec.amount, PolicyOn(t, ChainOf(rec)))
    case _ => true
  }

  ghost predicate SourcesApart(c: Chains) {
    && c.deposits.Keys !! c.burns.Keys
    && forall id :: id in c.deposits || id in c.burns ==> IsSourceId(id)
  }

  ghost predicate Fits(t: Terms, w: World) {
    && D.Inv(w.sys)
    && SourcesApart(w.chains)
    && w.chains.landed <= w.sys.sent && w.chains.offers.Keys <= w.sys.sent
    && (forall id :: id in w.sys.rows ==> RowFits(t, w.chains, w.sys.rows[id]))
    && TickFits(t, w)
  }

  ghost predicate Balanced(t: Terms, w: World) {
    forall ch :: Surplus(w.books, ch) == Left(t, w.chains, ch)
  }

  // ---------- writes to the table ----------

  /** How a row that exists may be rewritten, but for the dispatcher's verdict on it. */
  predicate Rewrites(e: D.Event, r: Row, r': Row) {
    && (r'.status == CONFIRMED <==> r.status == CONFIRMED)
    && (r'.status == FAILED ==> r.status == FAILED || (e.Abandon? && r.txid.None?))
    && (r'.txid == r.txid || (r'.status != FAILED && r'.txid.Some?))
    && SameTerms(r, r')
  }

  predicate SameTerms(r: Row, r': Row) {
    r' == r.(status := r'.status, attempts := r'.attempts, lastError := r'.lastError, txid := r'.txid,
             updatedAt := r'.updatedAt, nextAttemptAt := r'.nextAttemptAt)
  }

  lemma RewrittenFits(t: Terms, c: Chains, e: D.Event, r: Row, r': Row)
    requires RowFits(t, c, r) && Rewrites(e, r, r')
    ensures RowFits(t, c, r')
  {
  }

  lemma WatcherRewrites(o: D.Opts, s: D.Sys, e: D.Event, s': D.Sys)
    requires D.Inv(s) && D.Enabled(o, s, e) && (e.Advance? || e.NoteBurn?) && s' == D.Next(o, s, e)
    ensures e.id in s'.rows && Rewrites(e, s.rows[e.id], s'.rows[e.id])
  {
  }

  lemma AbandonRewrites(o: D.Opts, s: D.Sys, e: D.Event, s': D.Sys, id: string)
    requires D.Inv(s) && D.Enabled(o, s, e) && e.Abandon? && s' == D.Next(o, s, e)
    requires id == e.parentId + REFUND_SUFFIX && id in s.rows
    ensures id in s'.rows && Rewrites(e, s.rows[id], s'.rows[id])
  {
  }

  lemma RedriveRewrites(o: D.Opts, s: D.Sys, e: D.Event, s': D.Sys)
    requires D.Inv(s) && D.Enabled(o, s, e) && e.Redrive? && s' == D.Next(o, s, e)
    ensures var id := s.tick.parentId; id in s.rows && id in s'.rows && Rewrites(e, s.rows[id], s'.rows[id])
  {
  }

  lemma TodoRewrites(o: D.Opts, s: D.Sys, e: D.Event, s': D.Sys)
    requires D.Inv(s) && D.Enabled(o, s, e) && (e.Requeue? || e.MarkBroadcast?) && s' == D.Next(o, s, e)
    ensures var id := s.tick.todo[0].id; id in s.rows && id in s'.rows && Rewrites(e, s.rows[id], s'.rows[id])
  {
    assert s.tick.todo[0] in s.tick.todo;
  }

  lemma FlipRewrites(o: D.Opts, s: D.Sys, e: D.Event, s': D.Sys)
    requires D.Inv(s) && D.Enabled(o, s, e) && e.FlipHeld? && s' == D.Next(o, s, e)
    ensures var id := s.tick.rec.id; id in s.rows && id in s'.rows && Rewrites(e, s.rows[id], s'.rows[id])
  {
  }

  lemma CloseRewrites(o: D.Opts, s: D.Sys, e: D.Event, s': D.Sys, id: string)
    requires D.Inv(s) && D.Enabled(o, s, e) && e.CloseOut? && s' == D.Next(o, s, e)
    requires id == D.Target(s, e)
    ensures id in s.rows && id in s'.rows && Rewrites(e, s.rows[id], s'.rows[id])
  {
  }

  lemma PinRewrites(o: D.Opts, s: D.Sys, e: D.Event, s': D.Sys)
    requires D.Inv(s) && D.Enabled(o, s, e) && e.PinTxid? && s' == D.Next(o, s, e)
    ensures e.id in s.rows && e.id in s'.rows && Rewrites(e, s.rows[e.id], s'.rows[e.id])
  {
  }

  /** Every write but the verdict rewrites its target so. */
  lemma TargetRewrites(o: D.Opts, s: D.Sys, e: D.Event, s': D.Sys, id: string)
    requires D.Inv(s) && D.Enabled(o, s, e) && s' == D.Next(o, s, e) && id == D.Target(s, e)
    requires !e.PinFee? && !e.WriteTransition? && id in s.rows && id in s'.rows
    ensures s'.rows[id] == s.rows[id] || Rewrites(e, s.rows[id], s'.rows[id])
  {
    if e.Advance? || e.NoteBurn? {
      WatcherRewrites(o, s, e, s');
    } else if e.Abandon? {
      AbandonRewrites(o, s, e, s', id);
    } else if e.Redrive? {
      RedriveRewrites(o, s, e, s');
    } else if e.Requeue? || e.MarkBroadcast? {
      TodoRewrites(o, s, e, s');
    } else if e.FlipHeld? {
      FlipRewrites(o, s, e, s');
    } else if e.CloseOut? {
      CloseRewrites(o, s, e, s', id);
    } else if e.PinTxid? {
      PinRewrites(o, s, e, s');
    }
  }

  /** The verdict confirms what has landed and gives up only what has not. */
  lemma VerdictFits(t: Terms, c: Chains, r: Row, status: Status, patch: Patch, now: int)
    requires RowFits(t, c, r) && r.status == BROADCAST
    requires status in {CONFIRMED, QUEUED, REFUNDING}
    requires status == CONFIRMED ==> r.id in c.landed
    requires patch.fee.Some? ==> patch.fee.value == r.fee
    requires status != CONFIRMED ==> patch.txid.None?
    ensures RowFits(t, c, Patched(r, status, patch, now))
  {
  }

  lemma VerdictStepFits(t: Terms, w: World, e: D.Event, s': D.Sys)
    requires Fits(t, w) && Can(t, w, Table(e)) && e.WriteTransition? && s' == D.Next(t.o, w.sys, e)
    ensures var id := w.sys.tick.rec.id; id in s'.rows && RowFits(t, w.chains, s'.rows[id])
  {
    var tick := w.sys.tick;
    VerdictFits(t, w.chains, w.sys.rows[tick.rec.id], tick.status, tick.patch, e.now);
  }

  /** A new row comes from a chain event or from its parent. */
  lemma DiscoveredFits(t: Terms, w: World, e: D.Event, s': D.Sys)
    requires Fits(t, w) && Can(t, w, Table(e)) && e.Discover? && s' == D.Next(t.o, w.sys, e)
    requires e.row.id !in w.sys.rows
    ensures e.row.id in s'.rows && RowFits(t, w.chains, s'.rows[e.row.id])
  {
  }

  lemma ChildFits(t: Terms, w: World, rec: Row, status: Status, sweep: int, now: int)
    requires Fits(t, w) && rec.id in w.sys.rows
    requires var r := w.sys.rows[rec.id];
             r.kind == rec.kind && r.amount == rec.amount && r.id == rec.id && r.remoteChain == rec.remoteChain
    requires status == CONFIRMED && rec.kind == PegIn ==> rec.amount >= 0 && sweep == BaseFee(rec.amount, PolicyOn(t, ChainOf(rec)))
    ensures var children := PlanChildren(rec, status, t.o.feesGate, sweep, t.o.refundFee);
            children != [] && children[0].id !in w.sys.rows ==>
              RowFits(t, w.chains, D.EnqueueAll(w.sys.rows, children, now)[children[0].id])
  {
    assert RowFits(t, w.chains, w.sys.rows[rec.id]);
  }

  lemma HeldChildFits(t: Terms, w: World, e: D.Event, s': D.Sys, id: string)
    requires Fits(t, w) && Can(t, w, Table(e)) && e.SpawnHeld? && s' == D.Next(t.o, w.sys, e)
    requires id !in w.sys.rows && id in s'.rows
    ensures RowFits(t, w.chains, s'.rows[id])
  {
    assert w.sys.tick.todo[0] in w.sys.tick.todo;
    ChildFits(t, w, w.sys.tick.todo[0], REFUNDING, 0, e.now);
  }

  lemma SpawnedChildFits(t: Terms, w: World, e: D.Event, s': D.Sys, id: string)
    requires Fits(t, w) && Can(t, w, Table(e)) && e.SpawnChildren? && s' == D.Next(t.o, w.sys, e)
    requires id !in w.sys.rows && id in s'.rows
    ensures RowFits(t, w.chains, s'.rows[id])
  {
    ChildFits(t, w, w.sys.tick.rec, w.sys.tick.status, w.sys.tick.sweep, e.now);
  }

  lemma NewRowFits(t: Terms, w: World, e: D.Event, s': D.Sys, id: string)
    requires Fits(t, w) && Can(t, w, Table(e)) && s' == D.Next(t.o, w.sys, e)
    requires id !in w.sys.rows && id in s'.rows
    ensures RowFits(t, w.chains, s'.rows[id])
  {
    D.OnlyTheseAddRows(t.o, w.sys, e, id);
    if e.Discover? {
      DiscoveredFits(t, w, e, s');
    } else if e.SpawnHeld? {
      HeldChildFits(t, w, e, s', id);
    } else {
      SpawnedChildFits(t, w, e, s', id);
    }
  }

  lemma TableRowFits(t: Terms, w: World, e: D.Event, s': D.Sys, id: string)
    requires Fits(t, w) && Can(t, w, Table(e)) && s' == D.Next(t.o, w.sys, e) && id in s'.rows
    ensures RowFits(t, w.chains, s'.rows[id])
  {
    var s := w.sys;
    if id !in s.rows {
      NewRowFits(t, w, e, s', id);
    } else if id != D.Target(s, e) {
      D.OtherRowsAreUntouched(t.o, s, e, id);
    } else if e.WriteTransition? {
      VerdictStepFits(t, w, e, s');
    } else {
      TargetRewrites(t.o, s, e, s', id);
      assert D.RowOk(s.rows, s.sent, id) && RowFits(t, w.chains, s.rows[id]);
      if s'.rows[id] != s.rows[id] {
        RewrittenFits(t, w.chains, e, s.rows[id], s'.rows[id]);
      }
    }
  }

  // ---------- the tick's decisions ----------

  lemma AnswerFits(t: Terms, w: World, e: D.Event)
    requires Fits(t, w) && Can(t, w, Table(e)) && e.TakeAnswer?
    ensures TickFits(t, After(t, w, Table(e)))
  {
  }

  lemma WrittenSweepFits(t: Terms, w: World, e: D.Event)
    requires Fits(t, w) && Can(t, w, Table(e)) && e.WriteTransition?
    ensures TickFits(t, After(t, w, Table(e)))
  {
    assert RowFits(t, w.chains, w.sys.rows[w.sys.tick.rec.id]);
  }

  /** No other step starts a verdict, and none changes the fee of a row one is pending for. */
  lemma PendingVerdictKept(o: D.Opts, s: D.Sys, e: D.Event, s': D.Sys)
    requires D.Inv(s) && D.Enabled(o, s, e) && s' == D.Next(o, s, e) && !e.TakeAnswer? && s'.tick.Decided?
    ensures s.tick == s'.tick && s.tick.rec.id in s.rows
    ensures s.tick.rec.id in s'.rows && s'.rows[s.tick.rec.id] == s.rows[s.tick.rec.id]
  {
    if s.tick.Decided? && s.tick.rec.id != D.Target(s, e) {
      D.OtherRowsAreUntouched(o, s, e, s.tick.rec.id);
    }
  }

  lemma PendingSpawnKept(o: D.Opts, s: D.Sys, e: D.Event, s': D.Sys)
    requires D.Enabled(o, s, e) && s' == D.Next(o, s, e) && !e.WriteTransition? && s'.tick.Spawn?
    ensures s.tick == s'.tick
  {
  }

  lemma OtherStepsKeepTick(t: Terms, w: World, e: D.Event)
    requires Fits(t, w) && Can(t, w, Table(e)) && !e.TakeAnswer? && !e.WriteTransition?
    ensures TickFits(t, After(t, w, Table(e)))
  {
    var s' := D.Next(t.o, w.sys, e);
    if s'.tick.Decided? {
      PendingVerdictKept(t.o, w.sys, e, s');
    } else if s'.tick.Spawn? {
      PendingSpawnKept(t.o, w.sys, e, s');
    }
  }

  lemma TableKeepsTick(t: Terms, w: World, e: D.Event)
    requires Fits(t, w) && Can(t, w, Table(e))
    ensures TickFits(t, After(t, w, Table(e)))
  {
    if e.TakeAnswer? {
      AnswerFits(t, w, e);
    } else if e.WriteTransition? {
      WrittenSweepFits(t, w, e);
    } else {
      OtherStepsKeepTick(t, w, e);
    }
  }

  lemma TableKeepsFits(t: Terms, w: World, e: D.Event)
    requires Fits(t, w) && Can(t, w, Table(e))
    ensures Fits(t, After(t, w, Table(e)))
  {
    var w' := After(t, w, Table(e));
    D.StepKeepsInv(t.o, w.sys, e);
    forall id | id in w'.sys.rows ensures RowFits(t, w'.chains, w'.sys.rows[id]) {
      TableRowFits(t, w, e, w'.sys, id);
    }
    TableKeepsTick(t, w, e);
  }

  // ---------- the chains move ----------

  /** While pins keep up, a quote of nothing finds nothing pinned. */
  lemma ZeroQuoteFindsNoPin(t: Terms, c: Chains, r: Row)
    requires RowFits(t, c, r) && r.kind == PegIn && PinsKeepUp(PolicyOn(t, ChainOf(r)))
    requires BaseFee(r.amount, PolicyOn(t, ChainOf(r))) == 0
    requires r.recipient in c.known || PolicyOn(t, ChainOf(r)).activationSurcharge == 0
    ensures r.fee == 0
  {
    if r.fee != 0 {
      assert OfferFits(t, c, r, r.fee);
      var p := PolicyOn(t, ChainOf(r));
      BaseGrows(p.activationSurcharge + LeastNet(p), r.amount, p);
      assert false;
    }
  }

  lemma QuoteIsOffer(t: Terms, c: Chains, r: Row)
    requires RowFits(t, c, r) && r.kind == PegIn && QuoteFor(t, c, r).Accepted?
    ensures OfferFits(t, c, r, QuoteFor(t, c, r).b.fee)
    ensures var p := PolicyOn(t, ChainOf(r));
            QuoteFor(t, c, r).b.fee == BaseFee(r.amount, p) + if r.recipient in c.known then 0 else p.activationSurcharge
  {
  }

  lemma QuoteFits(t: Terms, c: Chains, r: Row, now: int)
    requires RowFits(t, c, r) && r.kind == PegIn && QuoteFor(t, c, r).Accepted?
    ensures var fee := QuoteFor(t, c, r).b.fee;
            RowFits(t, c.(offers := c.offers[r.id := OffersFor(c, r.id) + {fee}]),
                    if fee > 0 then r.(fee := fee, updatedAt := now) else r)
  {
    QuoteIsOffer(t, c, r);
    if QuoteFor(t, c, r).b.fee == 0 && PinsKeepUp(PolicyOn(t, ChainOf(r))) {
      ZeroQuoteFindsNoPin(t, c, r);
    }
  }

  lemma QuotedRowsFit(t: Terms, w: World, id: string, now: int, x: string)
    requires Fits(t, w) && Can(t, w, Quoted(id, now)) && x in w.sys.rows
    ensures var w' := After(t, w, Quoted(id, now));
            x in w'.sys.rows && RowFits(t, w'.chains, w'.sys.rows[x])
  {
    var c' := After(t, w, Quoted(id, now)).chains;
    assert D.RowOk(w.sys.rows, w.sys.sent, x) && RowFits(t, w.chains, w.sys.rows[x]);
    if x == id {
      QuoteFits(t, w.chains, w.sys.rows[x], now);
    } else {
      OfferElsewhereFits(t, w.chains, c', w.sys.rows[x], id);
    }
  }

  lemma QuoteKeepsSys(t: Terms, w: World, id: string, now: int)
    requires D.Inv(w.sys) && Can(t, w, Quoted(id, now))
    ensures D.Inv(After(t, w, Quoted(id, now)).sys)
  {
    D.StepKeepsInv(t.o, w.sys, D.PinFee(id, QuoteFor(t, w.chains, w.sys.rows[id]).b.fee, now));
  }

  lemma QuoteKeepsTick(t: Terms, w: World, id: string, now: int)
    requires Fits(t, w) && Can(t, w, Quoted(id, now))
    ensures TickFits(t, After(t, w, Quoted(id, now)))
  {
  }

  lemma QuoteKeepsFits(t: Terms, w: World, id: string, now: int)
    requires Fits(t, w) && Can(t, w, Quoted(id, now))
    ensures Fits(t, After(t, w, Quoted(id, now)))
  {
    var w' := After(t, w, Quoted(id, now));
    QuoteKeepsSys(t, w, id, now);
    QuoteKeepsTick(t, w, id, now);
    forall x | x in w'.sys.rows ensures RowFits(t, w'.chains, w'.sys.rows[x]) {
      QuotedRowsFit(t, w, id, now, x);
    }
  }

  lemma OfferElsewhereFits(t: Terms, c: Chains, c': Chains, r: Row, id: string)
    requires RowFits(t, c, r) && r.id != id
    requires id in c'.offers && c' == c.(offers := c.offers[id := c'.offers[id]])
    ensures RowFits(t, c', r)
  {
  }

  lemma LandingFits(t: Terms, c: Chains, landing: Row, fee: int, r: Row)
    requires RowFits(t, c, r) && (r.id == landing.id ==> r == landing)
    requires if landing.kind == PegIn then landing.id in c.offers && fee in c.offers[landing.id] else landing.txid.Some?
    ensures RowFits(t, AfterLanding(c, landing, fee), r)
  {
  }

  lemma LandingKeepsFits(t: Terms, w: World, id: string, fee: int)
    requires Fits(t, w) && Can(t, w, Landed(id, fee))
    ensures Fits(t, After(t, w, Landed(id, fee)))
  {
    var w' := After(t, w, Landed(id, fee));
    assert D.RowOk(w.sys.rows, w.sys.sent, id);
    forall x | x in w'.sys.rows ensures RowFits(t, w'.chains, w'.sys.rows[x]) {
      assert D.RowOk(w.sys.rows, w.sys.sent, x);
      LandingFits(t, w.chains, w.sys.rows[id], fee, w.sys.rows[x]);
    }
  }

  /** Deposits, burns and provisioning leave every row as fitting as it was. */
  lemma RowFitsLater(t: Terms, c: Chains, c': Chains, r: Row)
    requires RowFits(t, c, r)
    requires forall id :: id in c.deposits ==> id in c'.deposits && c'.deposits[id] == c.deposits[id] && On(c', id) == On(c, id)
    requires forall id :: id in c.burns ==> id in c'.burns && c'.burns[id] == c.burns[id] && On(c', id) == On(c, id)
    requires c.known <= c'.known && c'.offers == c.offers && c'.landed == c.landed && c'.withheld == c.withheld
    ensures RowFits(t, c', r)
  {
  }

  lemma SourceKeepsFits(t: Terms, w: World, h: Happening)
    requires Fits(t, w) && Can(t, w, h) && (h.Deposited? || h.Burnt? || h.Provisioned?)
    ensures Fits(t, After(t, w, h))
  {
    var w' := After(t, w, h);
    forall x | x in w'.sys.rows ensures RowFits(t, w'.chains, w'.sys.rows[x]) {
      RowFitsLater(t, w.chains, w'.chains, w.sys.rows[x]);
    }
  }

  // ---------- balance ----------

  /** The deposit or burn an action settles. */
  function SourceOf(r: Row): string {
    if r.kind in {PegIn, PegOut} || r.parentId.None? then r.id else r.parentId.value
  }

  /** An id can be in the landed set for one source only. */
  lemma OneSource(x: string, d: string, suffix: string, p: string, kind: Kind)
    requires IsSourceId(x) && IsSourceId(p) && suffix in {"", FEE_SUFFIX, REFUND_SUFFIX, RETURN_SUFFIX}
    requires x + suffix == p + D.Suffix(kind)
    ensures x == p && suffix == D.Suffix(kind)
  {
    if suffix == "" {
      assert x + suffix == x;
      if D.Suffix(kind) != "" { ChildIdEnds(p, D.Suffix(kind)); } else { assert p + "" == p; }
    } else if D.Suffix(kind) == "" {
      assert p + "" == p;
      ChildIdEnds(x, suffix);
    } else {
      ChildIdsInjective(x, suffix, p, D.Suffix(kind));
    }
  }

  lemma RowNamesItsSource(t: Terms, w: World, id: string)
    requires Fits(t, w) && id in w.sys.rows
    ensures var r := w.sys.rows[id];
            && r.id == id && id == SourceOf(r) + D.Suffix(r.kind) && IsSourceId(SourceOf(r))
            && (if r.kind in {PegOut, GramReturn} then SourceOf(r) in w.chains.burns else SourceOf(r) in w.chains.deposits)
            && ChainOf(r) == On(w.chains, SourceOf(r))
  {
    var r := w.sys.rows[id];
    assert D.RowOk(w.sys.rows, w.sys.sent, id) && RowFits(t, w.chains, r);
    if r.kind in {PegIn, PegOut} {
      assert id + "" == id;
    }
  }

  /** Landing an action leaves what other sources left as it was. */
  lemma LandingElsewhere(t: Terms, c: Chains, r: Row, fee: int, p: string, x: string)
    requires r.id == p + D.Suffix(r.kind) && IsSourceId(p) && IsSourceId(x) && x != p
    ensures DepositLeft(t, AfterLanding(c, r, fee), x) == DepositLeft(t, c, x)
    ensures BurnLeft(t, AfterLanding(c, r, fee), x) == BurnLeft(t, c, x)
    ensures SameLeft(t, c, AfterLanding(c, r, fee), x)
  {
    forall suffix | suffix in {"", FEE_SUFFIX, REFUND_SUFFIX, RETURN_SUFFIX}
      ensures x + suffix != r.id
    {
      if x + suffix == r.id {
        OneSource(x, x, suffix, p, r.kind);
      }
    }
    assert x + "" == x;
  }

  /** At its own source only the action that lands is new. */
  lemma LandedFlags(c: Chains, r: Row, fee: int, p: string, suffix: string)
    requires r.id == p + D.Suffix(r.kind) && IsSourceId(p)
    requires suffix in {"", FEE_SUFFIX, REFUND_SUFFIX, RETURN_SUFFIX}
    ensures p + suffix in AfterLanding(c, r, fee).landed <==> p + suffix in c.landed || suffix == D.Suffix(r.kind)
  {
    if p + suffix == r.id {
      OneSource(p, p, suffix, p, r.kind);
    }
  }

  /** At its own source it takes exactly what it moves. */
  lemma LandingAtItsSource(t: Terms, c: Chains, books: Books, r: Row, fee: int, p: string)
    requires r.id == p + D.Suffix(r.kind) && IsSourceId(p) && p == SourceOf(r)
    requires AmountFits(t, c, r) && r.id !in c.landed && SourcesApart(c)
    ensures var c' := AfterLanding(c, r, fee);
            DepositLeft(t, c', p) + BurnLeft(t, c', p) - DepositLeft(t, c, p) - BurnLeft(t, c, p)
            == Surplus(Moved(books, r, fee), ChainOf(r)) - Surplus(books, ChainOf(r))
  {
    LandedFlags(c, r, fee, p, "");
    LandedFlags(c, r, fee, p, FEE_SUFFIX);
    LandedFlags(c, r, fee, p, REFUND_SUFFIX);
    LandedFlags(c, r, fee, p, RETURN_SUFFIX);
    assert p + "" == p;
  }

  /** What is left of every source but one is as it was. */
  ghost predicate SameElsewhere(t: Terms, c: Chains, c': Chains, p: string) {
    forall x :: x in c.deposits.Keys + c.burns.Keys && x != p ==> SameLeft(t, c, c', x)
  }

  predicate SameLeft(t: Terms, c: Chains, c': Chains, x: string) {
    DepositLeft(t, c', x) == DepositLeft(t, c, x) && BurnLeft(t, c', x) == BurnLeft(t, c, x) && On(c', x) == On(c, x)
  }

  lemma DepositTermsAgree(t: Terms, c: Chains, c': Chains, p: string, ch: Chain)
    requires SameElsewhere(t, c, c', p)
    ensures forall x :: x in c.deposits.Keys && x != p ==> DepositTerm(t, c, ch)(x) == DepositTerm(t, c', ch)(x)
    ensures forall x :: x in c.burns.Keys && x != p ==> BurnTerm(t, c, ch)(x) == BurnTerm(t, c', ch)(x)
  {
    forall x | x in c.deposits.Keys && x != p ensures DepositTerm(t, c, ch)(x) == DepositTerm(t, c', ch)(x) {
      assert SameLeft(t, c, c', x);
    }
    forall x | x in c.burns.Keys && x != p ensures BurnTerm(t, c, ch)(x) == BurnTerm(t, c', ch)(x) {
      assert SameLeft(t, c, c', x);
    }
  }

  /** When one source changes, its chain's sum changes by as much. */
  lemma LeftChanges(t: Terms, c: Chains, c': Chains, p: string, ch: Chain)
    requires c'.deposits.Keys == c.deposits.Keys && c'.burns.Keys == c.burns.Keys && c.deposits.Keys !! c.burns.Keys
    requires SameElsewhere(t, c, c', p) && On(c', p) == On(c, p) && (p in c.deposits || p in c.burns)
    ensures Left(t, c', ch) == Left(t, c, ch)
                               + (if On(c, p) == ch then DepositLeft(t, c', p) + BurnLeft(t, c', p) - DepositLeft(t, c, p) - BurnLeft(t, c, p)
                                  else 0)
  {
    DepositTermsAgree(t, c, c', p, ch);
    if p in c.deposits {
      SumChange(c.deposits.Keys, DepositTerm(t, c, ch), DepositTerm(t, c', ch), p);
      SumAgree(c.burns.Keys, BurnTerm(t, c, ch), BurnTerm(t, c', ch));
    } else {
      SumChange(c.burns.Keys, BurnTerm(t, c, ch), BurnTerm(t, c', ch), p);
      SumAgree(c.deposits.Keys, DepositTerm(t, c, ch), DepositTerm(t, c', ch));
    }
  }

  /** A new deposit or burn adds what is left of it. */
  lemma LeftGrows(t: Terms, c: Chains, c': Chains, id: string, ch: Chain)
    requires id !in c.deposits && id !in c.burns && SameElsewhere(t, c, c', id)
    requires || (c'.deposits.Keys == c.deposits.Keys + {id} && c'.burns.Keys == c.burns.Keys && BurnLeft(t, c', id) == 0)
             || (c'.burns.Keys == c.burns.Keys + {id} && c'.deposits.Keys == c.deposits.Keys && DepositLeft(t, c', id) == 0)
    ensures Left(t, c', ch) == Left(t, c, ch) + (if On(c', id) == ch then DepositLeft(t, c', id) + BurnLeft(t, c', id) else 0)
  {
    DepositTermsAgree(t, c, c', id, ch);
    if c'.burns.Keys == c.burns.Keys {
      SumGrow(c.deposits.Keys, DepositTerm(t, c, ch), DepositTerm(t, c', ch), id);
      SumAgree(c.burns.Keys, BurnTerm(t, c, ch), BurnTerm(t, c', ch));
    } else {
      SumGrow(c.burns.Keys, BurnTerm(t, c, ch), BurnTerm(t, c', ch), id);
      SumAgree(c.deposits.Keys, DepositTerm(t, c, ch), DepositTerm(t, c', ch));
    }
  }

  lemma LandingIsLocal(t: Terms, w: World, id: string, fee: int)
    requires Fits(t, w) && Can(t, w, Landed(id, fee))
    ensures var r := w.sys.rows[id];
            var p, c, c' := SourceOf(r), w.chains, AfterLanding(w.chains, r, fee);
            && SameElsewhere(t, c, c', p) && On(c, p) == ChainOf(r) && (p in c.deposits || p in c.burns)
            && DepositLeft(t, c', p) + BurnLeft(t, c', p) - DepositLeft(t, c, p) - BurnLeft(t, c, p)
               == Surplus(Moved(w.books, r, fee), ChainOf(r)) - Surplus(w.books, ChainOf(r))
  {
    var r := w.sys.rows[id];
    var p, c, c' := SourceOf(r), w.chains, AfterLanding(w.chains, r, fee);
    RowNamesItsSource(t, w, id);
    assert RowFits(t, c, r);
    LandingAtItsSource(t, c, w.books, r, fee, p);
    forall x | x in c.deposits.Keys + c.burns.Keys && x != p ensures SameLeft(t, c, c', x) {
      LandingElsewhere(t, c, r, fee, p, x);
    }
  }

  lemma LandingKeepsBalanceOn(t: Terms, c: Chains, c': Chains, books: Books, r: Row, fee: int, p: string, ch: Chain)
    requires c'.deposits == c.deposits && c'.burns == c.burns && c'.on == c.on && c.deposits.Keys !! c.burns.Keys
    requires SameElsewhere(t, c, c', p) && On(c, p) == ChainOf(r) && (p in c.deposits || p in c.burns)
    requires DepositLeft(t, c', p) + BurnLeft(t, c', p) - DepositLeft(t, c, p) - BurnLeft(t, c, p)
             == Surplus(Moved(books, r, fee), ChainOf(r)) - Surplus(books, ChainOf(r))
    requires Surplus(books, ch) == Left(t, c, ch)
    ensures Surplus(Moved(books, r, fee), ch) == Left(t, c', ch)
  {
    LeftChanges(t, c, c', p, ch);
    OtherBookKept(books, r, fee, ch);
  }

  lemma LandingKeepsBalance(t: Terms, w: World, id: string, fee: int)
    requires Fits(t, w) && Can(t, w, Landed(id, fee)) && Balanced(t, w)
    ensures Balanced(t, After(t, w, Landed(id, fee)))
  {
    var r, c := w.sys.rows[id], w.chains;
    LandingIsLocal(t, w, id, fee);
    forall ch ensures Surplus(Moved(w.books, r, fee), ch) == Left(t, AfterLanding(c, r, fee), ch) {
      LandingKeepsBalanceOn(t, c, AfterLanding(c, r, fee), w.books, r, fee, SourceOf(r), ch);
    }
  }

  lemma OtherBookKept(books: Books, r: Row, fee: int, ch: Chain)
    ensures ch != ChainOf(r) ==> Surplus(Moved(books, r, fee), ch) == Surplus(books, ch)
  {
  }

  /** Nothing can have landed for a source before it exists. */
  lemma NothingLandedFor(t: Terms, w: World, p: string, suffix: string)
    requires Fits(t, w) && FreshSource(w.chains, p)
    requires suffix in {"", FEE_SUFFIX, REFUND_SUFFIX, RETURN_SUFFIX}
    ensures p + suffix !in w.chains.landed
  {
    if p + suffix in w.chains.landed {
      var r := w.sys.rows[p + suffix];
      RowNamesItsSource(t, w, p + suffix);
      OneSource(p, p, suffix, SourceOf(r), r.kind);
    }
  }

  lemma NothingSettled(t: Terms, w: World, p: string)
    requires Fits(t, w) && FreshSource(w.chains, p)
    ensures p !in w.chains.landed && p + FEE_SUFFIX !in w.chains.landed
    ensures p + REFUND_SUFFIX !in w.chains.landed && p + RETURN_SUFFIX !in w.chains.landed
  {
    NothingLandedFor(t, w, p, "");
    NothingLandedFor(t, w, p, FEE_SUFFIX);
    NothingLandedFor(t, w, p, REFUND_SUFFIX);
    NothingLandedFor(t, w, p, RETURN_SUFFIX);
    assert p + "" == p;
  }

  /** Nothing changes for sources whose own data do not. */
  lemma UnchangedLeft(t: Terms, c: Chains, c': Chains, x: string)
    requires c'.landed == c.landed && c'.withheld == c.withheld && On(c', x) == On(c, x)
    requires (x in c'.deposits <==> x in c.deposits) && (x in c.deposits ==> c'.deposits[x] == c.deposits[x])
    requires (x in c'.burns <==> x in c.burns) && (x in c.burns ==> c'.burns[x] == c.burns[x])
    ensures SameLeft(t, c, c', x)
  {
  }

  lemma NewSourceLeft(t: Terms, c: Chains, id: string, at: Chain, amount: nat)
    requires FreshSource(c, id)
    requires id !in c.landed && id + FEE_SUFFIX !in c.landed && id + REFUND_SUFFIX !in c.landed && id + RETURN_SUFFIX !in c.landed
    ensures DepositLeft(t, AfterDeposit(c, id, at, amount), id) == amount && BurnLeft(t, AfterDeposit(c, id, at, amount), id) == 0
    ensures BurnLeft(t, AfterBurn(c, id, at, amount), id) == amount && DepositLeft(t, AfterBurn(c, id, at, amount), id) == 0
  {
  }

  lemma SourceKeepsBalance(t: Terms, w: World, h: Happening)
    requires Fits(t, w) && Can(t, w, h) && Balanced(t, w) && (h.Deposited? || h.Burnt?)
    ensures Balanced(t, After(t, w, h))
  {
    var c, w' := w.chains, After(t, w, h);
    NothingSettled(t, w, h.id);
    NewSourceLeft(t, c, h.id, h.ch, if h.Deposited? then h.gross else h.amount);
    forall x | x in c.deposits.Keys + c.burns.Keys && x != h.id ensures SameLeft(t, c, w'.chains, x) {
      UnchangedLeft(t, c, w'.chains, x);
    }
    forall ch ensures Surplus(w'.books, ch) == Left(t, w'.chains, ch) {
      LeftGrows(t, c, w'.chains, h.id, ch);
    }
  }

  lemma SameLeftEverywhere(t: Terms, c: Chains, c': Chains, ch: Chain)
    requires c'.deposits == c.deposits && c'.burns == c.burns && c'.on == c.on
    requires c'.landed == c.landed && c'.withheld == c.withheld
    ensures Left(t, c', ch) == Left(t, c, ch)
  {
    forall x ensures SameLeft(t, c, c', x) {
      UnchangedLeft(t, c, c', x);
    }
    SumAgree(c.deposits.Keys, DepositTerm(t, c, ch), DepositTerm(t, c', ch));
    SumAgree(c.burns.Keys, BurnTerm(t, c, ch), BurnTerm(t, c', ch));
  }

  /** Steps of the table, quotes and provisioning move no value. */
  lemma QuietKeepsBalance(t: Terms, w: World, h: Happening)
    requires Can(t, w, h) && (h.Table? || h.Quoted? || h.Provisioned?) && Balanced(t, w)
    ensures Balanced(t, After(t, w, h))
  {
    forall ch ensures Left(t, After(t, w, h).chains, ch) == Left(t, w.chains, ch) {
      SameLeftEverywhere(t, w.chains, After(t, w, h).chains, ch);
    }
  }

  lemma MoveKeepsFits(t: Terms, w: World, h: Happening)
    requires Fits(t, w) && Can(t, w, h)
    ensures Fits(t, After(t, w, h))
  {
    match h
    case Table(e) => TableKeepsFits(t, w, e);
    case Quoted(id, now) => QuoteKeepsFits(t, w, id, now);
    case Landed(id, fee) => LandingKeepsFits(t, w, id, fee);
    case _ => SourceKeepsFits(t, w, h);
  }

  lemma MoveKeepsBalance(t: Terms, w: World, h: Happening)
    requires Fits(t, w) && Balanced(t, w) && Can(t, w, h)
    ensures Balanced(t, After(t, w, h))
  {
    if h.Landed? {
      LandingKeepsBalance(t, w, h.id, h.fee);
    } else if h.Deposited? || h.Burnt? {
      SourceKeepsBalance(t, w, h);
    } else {
      QuietKeepsBalance(t, w, h);
    }
  }

  lemma StepKeepsBacking(t: Terms, w: World, w': World)
    requires Fits(t, w) && Balanced(t, w) && Move(t, w, w')
    ensures Fits(t, w') && Balanced(t, w')
  {
    var h :| Can(t, w, h) && w' == After(t, w, h);
    MoveKeepsFits(t, w, h);
    MoveKeepsBalance(t, w, h);
  }

  lemma {:induction false} HistoryKeepsBacking(t: Terms, ws: seq<World>, i: nat)
    requires History(t, ws) && i < |ws|
    ensures Fits(t, ws[i]) && Balanced(t, ws[i])
  {
    if i > 0 {
      HistoryKeepsBacking(t, ws, i - 1);
      StepKeepsBacking(t, ws[i - 1], ws[i - 1 + 1]);
    } else {
      assert Start(ws[0]);
    }
  }

  // ---------- what is left of a deposit ----------

  lemma SweepStands(t: Terms, w: World, d: string)
    requires Fits(t, w) && d in w.chains.deposits && d + FEE_SUFFIX in w.sys.rows
    ensures var sweep := w.sys.rows[d + FEE_SUFFIX];
            && sweep.kind == FeeSweep && sweep.remoteChain == Some(On(w.chains, d))
            && sweep.amount == BaseFee(w.chains.deposits[d], PolicyOn(t, On(w.chains, d)))
            && (sweep.status == CONFIRMED ==> d + FEE_SUFFIX in w.chains.landed)
            && d in w.sys.rows && w.sys.rows[d].kind == PegIn && w.sys.rows[d].status == CONFIRMED
            && d in w.chains.landed && d in w.chains.offers
  {
    var rows := w.sys.rows;
    assert D.Suffix(FeeSweep) == FEE_SUFFIX;
    D.RowAtChildId(rows, w.sys.sent, d, FeeSweep);
    assert D.RowOk(rows, w.sys.sent, d + FEE_SUFFIX);
    assert RowFits(t, w.chains, rows[d + FEE_SUFFIX]) && RowFits(t, w.chains, rows[d]);
    assert D.RowOk(rows, w.sys.sent, d);
  }

  lemma RefundStands(t: Terms, w: World, d: string)
    requires Fits(t, w) && d in w.chains.deposits && d + REFUND_SUFFIX in w.chains.landed
    ensures d in w.sys.rows && w.sys.rows[d].status in D.OnTheWayBack
  {
    var rows := w.sys.rows;
    assert D.Suffix(Refund) == REFUND_SUFFIX;
    D.RowAtChildId(rows, w.sys.sent, d, Refund);
    assert D.RowOk(rows, w.sys.sent, d + REFUND_SUFFIX) && RowFits(t, w.chains, rows[d + REFUND_SUFFIX]);
  }

  /** The pinned fee covers the base and leaves something of the deposit, as does what a mint withheld. */
  lemma PinStands(t: Terms, w: World, d: string)
    requires Fits(t, w) && d in w.chains.deposits && d in w.sys.rows
    ensures var r := w.sys.rows[d];
            && r.kind == PegIn && 0 <= r.fee <= r.amount && r.amount == w.chains.deposits[d]
            && r.remoteChain == Some(On(w.chains, d))
            && (d in w.chains.offers ==> BaseFee(r.amount, PolicyOn(t, On(w.chains, d))) <= r.fee)
            && (d in w.chains.landed ==>
                  && d in w.chains.withheld && OfferFits(t, w.chains, r, w.chains.withheld[d])
                  && (PinsKeepUp(PolicyOn(t, On(w.chains, d))) ==> r.fee <= w.chains.withheld[d]))
  {
    RowNamesItsSource(t, w, d);
    assert RowFits(t, w.chains, w.sys.rows[d]) && D.RowOk(w.sys.rows, w.sys.sent, d);
    assert d + "" == d;
    OneSource(d, d, "", SourceOf(w.sys.rows[d]), w.sys.rows[d].kind);
  }

  /** What has landed for a deposit: a mint within it, a sweep only after the mint, and never a sweep and a refund. */
  lemma DepositStands(t: Terms, w: World, d: string)
    requires Fits(t, w) && d in w.chains.deposits
    ensures var c, gross := w.chains, w.chains.deposits[d];
            && (d in c.landed ==> d in c.withheld && BaseFee(gross, PolicyOn(t, On(c, d))) <= c.withheld[d] < gross)
            && (d + FEE_SUFFIX in c.landed ==> d in c.landed && d + REFUND_SUFFIX !in c.landed)
  {
    if d in w.sys.rows { PinStands(t, w, d); }
    if d + FEE_SUFFIX in w.chains.landed { LandedSweepStands(t, w, d); }
  }

  lemma LandedSweepStands(t: Terms, w: World, d: string)
    requires Fits(t, w) && d in w.chains.deposits && d + FEE_SUFFIX in w.chains.landed
    ensures d in w.chains.landed && d + REFUND_SUFFIX !in w.chains.landed
  {
    SweepStands(t, w, d);
    if d + REFUND_SUFFIX in w.chains.landed { RefundStands(t, w, d); }
  }

  /** A deposit is overpaid exactly when mint and refund have both landed and the refund exceeds what the mint withheld. */
  lemma OverpaidIff(t: Terms, w: World, d: string)
    requires Fits(t, w)
    ensures DepositLeft(t, w.chains, d) < 0
            <==> d in w.chains.deposits && d in w.chains.landed && d + REFUND_SUFFIX in w.chains.landed
                 && d in w.chains.withheld
                 && RefundAmount(w.chains.deposits[d], t.o.refundFee) > w.chains.withheld[d]
  {
    if d in w.chains.deposits {
      DepositStands(t, w, d);
    }
  }

  /** A burn is released or returned, never both. */
  lemma ReleasedOrReturned(t: Terms, w: World, b: string)
    requires Fits(t, w) && b in w.chains.burns
    ensures !(b in w.chains.landed && b + RETURN_SUFFIX in w.chains.landed)
  {
    if b + RETURN_SUFFIX in w.chains.landed {
      assert D.Suffix(GramReturn) == RETURN_SUFFIX;
      D.RowAtChildId(w.sys.rows, w.sys.sent, b, GramReturn);
      D.ChildrenAgree(w.sys.rows, w.sys.sent, b) by {
        assert D.RowOk(w.sys.rows, w.sys.sent, b + RETURN_SUFFIX);
      }
    }
  }

  lemma BurnIsNotOverpaid(t: Terms, w: World, b: string)
    requires Fits(t, w)
    ensures BurnLeft(t, w.chains, b) >= 0
  {
    if b in w.chains.burns {
      ReleasedOrReturned(t, w, b);
    }
  }

  // ---------- the books ----------

  /** What a deposit of this chain has been overpaid by. */
  function Overpaid(t: Terms, c: Chains, ch: Chain): string -> int {
    d => if On(c, d) == ch && DepositLeft(t, c, d) < 0 then 0 - DepositLeft(t, c, d) else 0
  }

  predicate RowOn(rows: Rows, id: string, kind: Kind, ch: Chain) {
    id in rows && rows[id].kind == kind && rows[id].remoteChain == Some(ch)
  }

  /** The terms of `unsweptFeesMilliViz` for one chain. */
  function MintedFee(rows: Rows, ch: Chain): string -> int {
    id => if RowOn(rows, id, PegIn, ch) && rows[id].status in {BROADCAST, CONFIRMED} then rows[id].fee else 0
  }

  function SweptAmount(rows: Rows, ch: Chain): string -> int {
    id => if RowOn(rows, id, FeeSweep, ch) && rows[id].status == CONFIRMED then rows[id].amount else 0
  }

  ghost function Unswept(rows: Rows, ch: Chain): int {
    Sum(rows.Keys, MintedFee(rows, ch)) - Sum(rows.Keys, SweptAmount(rows, ch))
  }

  /** A sweep that has landed but is not yet recorded as confirmed. */
  function InFlight(w: World, ch: Chain): string -> int {
    id => if RowOn(w.sys.rows, id, FeeSweep, ch) && w.sys.rows[id].status != CONFIRMED && id in w.chains.landed
          then w.sys.rows[id].amount else 0
  }

  function AtSweep(g: string -> int): string -> int {
    d => g(d + FEE_SUFFIX)
  }

  /** Sums over sweep rows are sums over deposits. */
  lemma SweepsByDeposit(t: Terms, w: World, g: string -> int)
    requires Fits(t, w)
    requires forall id :: id in w.sys.rows && w.sys.rows[id].kind != FeeSweep ==> g(id) == 0
    requires forall id :: id !in w.sys.rows ==> g(id) == 0
    ensures Sum(w.sys.rows.Keys, g) == Sum(w.chains.deposits.Keys, AtSweep(g))
  {
    var rows, deposits := w.sys.rows, w.chains.deposits;
    var s := set d | d in deposits && d + FEE_SUFFIX in rows;
    var images := set d | d in s :: d + FEE_SUFFIX;
    forall id | id in rows && rows[id].kind == FeeSweep ensures id in images {
      RowNamesItsSource(t, w, id);
      assert SourceOf(rows[id]) in s;
    }
    SumOnlyOver(rows.Keys, images, g);
    SumRename(s, images, AtSweep(g), g, FEE_SUFFIX);
    SumOnlyOver(deposits.Keys, s, AtSweep(g));
  }

  lemma FeesByDeposit(t: Terms, w: World, ch: Chain)
    requires Fits(t, w)
    ensures Sum(w.sys.rows.Keys, MintedFee(w.sys.rows, ch)) == Sum(w.chains.deposits.Keys, MintedFee(w.sys.rows, ch))
  {
    var rows, deposits, f := w.sys.rows, w.chains.deposits, MintedFee(w.sys.rows, ch);
    forall id | id in rows && id !in deposits ensures f(id) == 0 {
      assert RowFits(t, w.chains, rows[id]) && D.RowOk(rows, w.sys.sent, id);
    }
    SumOnlyOver(rows.Keys, rows.Keys * deposits.Keys, f);
    SumOnlyOver(deposits.Keys, rows.Keys * deposits.Keys, f);
  }

  /** A fee on the books is within the deposit and within what its mint withheld, and excludes a refund. */
  lemma FeeStands(t: Terms, w: World, d: string, ch: Chain)
    requires Fits(t, w) && d in w.chains.deposits
    ensures var c, fee := w.chains, MintedFee(w.sys.rows, ch)(d);
            && 0 <= fee <= c.deposits[d] && (fee > 0 ==> On(c, d) == ch)
            && (fee > 0 ==> d + REFUND_SUFFIX !in c.landed)
            && (PinsKeepUp(PolicyOn(t, ch)) && d in c.landed && d in c.withheld && On(c, d) == ch ==> fee <= c.withheld[d])
  {
    if d in w.sys.rows { PinStands(t, w, d); }
    if d + REFUND_SUFFIX in w.chains.landed { RefundStands(t, w, d); }
    DepositStands(t, w, d);
  }

  /** Of a landed sweep the base is on the books, as swept or as in flight; a sweep on the books has landed. */
  lemma SweepOnTheBooks(t: Terms, w: World, d: string, ch: Chain)
    requires Fits(t, w) && d in w.chains.deposits
    ensures var swept, flying := SweptAmount(w.sys.rows, ch)(d + FEE_SUFFIX), InFlight(w, ch)(d + FEE_SUFFIX);
            && swept >= 0 && flying >= 0
            && swept + flying == (if d + FEE_SUFFIX in w.chains.landed && On(w.chains, d) == ch
                                  then BaseFee(w.chains.deposits[d], PolicyOn(t, ch)) else 0)
            && (swept > 0 ==> swept <= MintedFee(w.sys.rows, ch)(d))
  {
    if d + FEE_SUFFIX in w.sys.rows {
      SweepStands(t, w, d);
      PinStands(t, w, d);
    }
  }

  /** Deposit by deposit: while pins keep up, what is left covers the pinned fee that is not yet swept. */
  lemma PinnedFeeIsCovered(t: Terms, w: World, d: string, ch: Chain)
    requires Fits(t, w) && d in w.chains.deposits && PinsKeepUp(PolicyOn(t, ch))
    ensures MintedFee(w.sys.rows, ch)(d)
            <= SweptAmount(w.sys.rows, ch)(d + FEE_SUFFIX) + DepositTerm(t, w.chains, ch)(d)
               + InFlight(w, ch)(d + FEE_SUFFIX) + Overpaid(t, w.chains, ch)(d)
  {
    DepositStands(t, w, d);
    FeeStands(t, w, d, ch);
    SweepOnTheBooks(t, w, d, ch);
  }

  lemma SweepsAreCovered(t: Terms, w: World, ch: Chain)
    requires Fits(t, w)
    ensures Unswept(w.sys.rows, ch) >= 0
  {
    var rows, ds := w.sys.rows, w.chains.deposits.Keys;
    var fee, swept := MintedFee(rows, ch), SweptAmount(rows, ch);
    FeesByDeposit(t, w, ch);
    SweepsByDeposit(t, w, swept);
    forall d | d in ds ensures AtSweep(swept)(d) <= fee(d) {
      SweepOnTheBooks(t, w, d, ch);
      FeeStands(t, w, d, ch);
    }
    SumAtMost(ds, AtSweep(swept), fee);
  }

  lemma SumsAreCovered(t: Terms, w: World, ch: Chain)
    requires Fits(t, w) && PinsKeepUp(PolicyOn(t, ch))
    ensures Unswept(w.sys.rows, ch)
            <= Left(t, w.chains, ch) + Sum(w.sys.rows.Keys, InFlight(w, ch))
               + Sum(w.chains.deposits.Keys, Overpaid(t, w.chains, ch))
  {
    var c, rows, ds := w.chains, w.sys.rows, w.chains.deposits.Keys;
    var fee, swept, flying := MintedFee(rows, ch), AtSweep(SweptAmount(rows, ch)), AtSweep(InFlight(w, ch));
    var left, over := DepositTerm(t, c, ch), Overpaid(t, c, ch);
    FeesByDeposit(t, w, ch);
    SweepsByDeposit(t, w, SweptAmount(rows, ch));
    SweepsByDeposit(t, w, InFlight(w, ch));
    forall d | d in ds ensures fee(d) <= swept(d) + left(d) + flying(d) + over(d) {
      PinnedFeeIsCovered(t, w, d, ch);
    }
    var sl := d => swept(d) + left(d);
    var slf := d => sl(d) + flying(d);
    var all := d => slf(d) + over(d);
    SumAdd(ds, swept, left, sl);
    SumAdd(ds, sl, flying, slf);
    SumAdd(ds, slf, over, all);
    SumAtMost(ds, fee, all);
    forall b | b in c.burns.Keys ensures BurnTerm(t, c, ch)(b) >= 0 {
      BurnIsNotOverpaid(t, w, b);
    }
    SumNonNegative(c.burns.Keys, BurnTerm(t, c, ch));
  }

  // ---------- over whole histories ----------

  /** On each chain, locked less circulating is what is left of each of its deposits and burns, and no burn is overpaid. */
  lemma Conservation(t: Terms, ws: seq<World>, i: nat, ch: Chain, b: string)
    requires History(t, ws) && i < |ws|
    ensures BookOn(ws[i].books, ch).locked - BookOn(ws[i].books, ch).circulating == Left(t, ws[i].chains, ch)
    ensures BurnLeft(t, ws[i].chains, b) >= 0
  {
    HistoryKeepsBacking(t, ws, i);
    BurnIsNotOverpaid(t, ws[i], b);
    assert Surplus(ws[i].books, ch) == Left(t, ws[i].chains, ch);
  }

  /** A deposit is overpaid exactly when its mint and its refund have both landed, and the refund exceeds the fee withheld. */
  lemma DepositIsOverpaidIff(t: Terms, ws: seq<World>, i: nat, d: string)
    requires History(t, ws) && i < |ws|
    ensures var c := ws[i].chains;
            DepositLeft(t, c, d) < 0
            <==> d in c.deposits && d in c.landed && d + REFUND_SUFFIX in c.landed
                 && d in c.withheld && RefundAmount(c.deposits[d], t.o.refundFee) > c.withheld[d]
  {
    HistoryKeepsBacking(t, ws, i);
    OverpaidIff(t, ws[i], d);
  }

  /** Confirmed sweeps of a chain never exceed its pinned fees. */
  lemma NeverOverSwept(t: Terms, ws: seq<World>, i: nat, ch: Chain)
    requires History(t, ws) && i < |ws|
    ensures Unswept(ws[i].sys.rows, ch) >= 0
  {
    HistoryKeepsBacking(t, ws, i);
    SweepsAreCovered(t, ws[i], ch);
  }

  /** The gateway and what deposits were overpaid by back circulation and the unswept fees, but for sweeps on their way. */
  lemma BackedButForOverpayment(t: Terms, ws: seq<World>, i: nat, ch: Chain)
    requires History(t, ws) && i < |ws| && PinsKeepUp(PolicyOn(t, ch))
    ensures BookOn(ws[i].books, ch).locked + Sum(ws[i].sys.rows.Keys, InFlight(ws[i], ch))
            + Sum(ws[i].chains.deposits.Keys, Overpaid(t, ws[i].chains, ch))
            >= BookOn(ws[i].books, ch).circulating + Unswept(ws[i].sys.rows, ch)
  {
    HistoryKeepsBacking(t, ws, i);
    SumsAreCovered(t, ws[i], ch);
    assert Surplus(ws[i].books, ch) == Left(t, ws[i].chains, ch);
  }

  /** No deposit whose mint has landed is being sent back or has been. */
  predicate MintsInTime(w: World) {
    forall d :: d in w.chains.landed && d in w.sys.rows && w.sys.rows[d].kind == PegIn ==>
                  w.sys.rows[d].status !in D.OnTheWayBack
  }

  /** Then a deposit is minted or refunded on chain, never both, and swept only after its mint. */
  lemma EachDepositSettlesOneWay(t: Terms, ws: seq<World>, i: nat, d: string)
    requires History(t, ws) && i < |ws| && d in ws[i].chains.deposits && MintsInTime(ws[i])
    ensures !(d in ws[i].chains.landed && d + REFUND_SUFFIX in ws[i].chains.landed)
    ensures d + FEE_SUFFIX in ws[i].chains.landed ==> d in ws[i].chains.landed
  {
    HistoryKeepsBacking(t, ws, i);
    SettlesOneWay(t, ws[i], d);
  }

  lemma SettlesOneWay(t: Terms, w: World, d: string)
    requires Fits(t, w) && d in w.chains.deposits && MintsInTime(w)
    ensures !(d in w.chains.landed && d + REFUND_SUFFIX in w.chains.landed)
    ensures d + FEE_SUFFIX in w.chains.landed ==> d in w.chains.landed
  {
    if d + REFUND_SUFFIX in w.chains.landed {
      RefundStands(t, w, d);
      PinStands(t, w, d);
    }
    if d + FEE_SUFFIX in w.chains.landed {
      SweepStands(t, w, d);
    }
  }

  /** And what the reconciler compares holds but for sweeps on their way. */
  lemma BackedButForSweepsInFlight(t: Terms, ws: seq<World>, i: nat, ch: Chain)
    requires History(t, ws) && i < |ws| && PinsKeepUp(PolicyOn(t, ch)) && MintsInTime(ws[i])
    ensures IsBacked(ws[i], ch)
  {
    BackedButForOverpayment(t, ws, i, ch);
    HistoryKeepsBacking(t, ws, i);
    NothingOverpaidInTime(t, ws[i], ch);
  }

  lemma NothingOverpaidInTime(t: Terms, w: World, ch: Chain)
    requires Fits(t, w) && MintsInTime(w)
    ensures Sum(w.chains.deposits.Keys, Overpaid(t, w.chains, ch)) == 0
  {
    var ds, over := w.chains.deposits.Keys, Overpaid(t, w.chains, ch);
    forall d | d in ds ensures over(d) == 0 {
      OverpaidIff(t, w, d);
      SettlesOneWay(t, w, d);
    }
    SumOnlyOver(ds, {}, over);
  }

  ghost predicate IsBacked(w: World, ch: Chain) {
    BookOn(w.books, ch).locked + Sum(w.sys.rows.Keys, InFlight(w, ch))
    >= BookOn(w.books, ch).circulating + Unswept(w.sys.rows, ch)
  }

  /** A confirmed peg-in's pinned fee and what its mint withheld both cover its chain's base; while pins keep up the pin is the lesser. */
  lemma ConfirmedFeeIsPinned(t: Terms, ws: seq<World>, i: nat, d: string)
    requires History(t, ws) && i < |ws|
    requires d in ws[i].sys.rows && ws[i].sys.rows[d].kind == PegIn && ws[i].sys.rows[d].status == CONFIRMED
    ensures var r, c, p := ws[i].sys.rows[d], ws[i].chains, PolicyOn(t, ChainOf(ws[i].sys.rows[d]));
            && r.amount >= 0 && d in c.withheld && BaseFee(r.amount, p) <= r.fee < r.amount
            && BaseFee(r.amount, p) <= c.withheld[d] < r.amount
            && (PinsKeepUp(p) ==> r.fee <= c.withheld[d])
  {
    HistoryKeepsBacking(t, ws, i);
    assert D.RowOk(ws[i].sys.rows, ws[i].sys.sent, d);
    assert RowFits(t, ws[i].chains, ws[i].sys.rows[d]);
  }
}
