/** Reading deposits off the irreversible VIZ chain: the watcher by block window, the signer one operation at a time. */
module VizScan {
  import opened Wrappers
  import opened Fees
  import opened Canonical
  import opened Text

  // ---------- the chain ----------

  datatype Op =
    | Transfer(from: Option<string>, to: Option<string>, amount: Option<string>, memo: Option<string>)
    | OtherOp(name: string)

  datatype Tx = Tx(id: string, ops: seq<Op>)

  /** `virtuals` are the operations no transaction carries. */
  datatype Block = Block(txs: seq<Tx>, virtuals: seq<OpWrapper>)

  datatype OpWrapper = OpWrapper(trxId: string, opInTrx: nat, virtualOp: int, op: Op)

  const ZERO_TRX: string := "0000000000000000000000000000000000000000"
  const MAX_BLOCKS_PER_SCAN: nat := 200

  /** What an operator holds: backing accounts, memo keys, and its reading of memos, addresses and amounts. */
  datatype Env = Env(accounts: map<string, Chain>, memoKeys: map<string, string>,
                     decode: (string, string) -> Option<string>, validAddress: (Chain, string) -> bool,
                     milli: string -> nat)

  /** A well-formed block: no transaction has the null id, and every virtual operation is marked. */
  ghost predicate WellFormed(b: Block) {
    && (forall t :: t in b.txs ==> t.id != ZERO_TRX)
    && (forall w :: w in b.virtuals ==> w.virtualOp != 0 || w.trxId == ZERO_TRX)
  }

  function OpsOfTx(t: Tx, n: nat): seq<OpWrapper>
    requires n <= |t.ops|
  {
    if n == 0 then [] else OpsOfTx(t, n - 1) + [OpWrapper(t.id, n - 1, 0, t.ops[n - 1])]
  }

  function OpsOfTxs(txs: seq<Tx>, n: nat): seq<OpWrapper>
    requires n <= |txs|
  {
    if n == 0 then [] else OpsOfTxs(txs, n - 1) + OpsOfTx(txs[n - 1], |txs[n - 1].ops|)
  }

  /** `get_ops_in_block`. */
  function OpsInBlock(b: Block): seq<OpWrapper> {
    OpsOfTxs(b.txs, |b.txs|) + b.virtuals
  }

  // ---------- reading one operation ----------

  function OrElse(o: Option<string>, default: string): string {
    if o.Some? then o.value else default
  }

  function ResolveMemoDestination(env: Env, account: string, rawMemo: string): string {
    if rawMemo == "" || rawMemo[0] != '#' then rawMemo
    else if account !in env.memoKeys || env.memoKeys[account] == "" then ""
    else
      var decoded := env.decode(env.memoKeys[account], rawMemo);
      if decoded.None? then ""
      else Trim(if decoded.value != "" && decoded.value[0] == '#' then decoded.value[1..] else decoded.value)
  }

  /** The watcher's reading: whatever is not a transfer to a backing account is passed over. */
  function ScanOp(env: Env, w: OpWrapper): Option<Deposit> {
    if w.virtualOp != 0 || w.trxId == ZERO_TRX || !w.op.Transfer? || OrElse(w.op.to, "") !in env.accounts then None
    else
      var to := OrElse(w.op.to, "");
      var chain := env.accounts[to];
      var raw := ResolveMemoDestination(env, to, Trim(OrElse(w.op.memo, "")));
      var valid := env.validAddress(chain, raw);
      Some(Deposit(w.trxId, w.opInTrx, OrElse(w.op.from, ""), env.milli(OrElse(w.op.amount, "0.000 VIZ")),
                   chain, if valid then raw else "", valid))
  }

  /** The signer's reading of one operation of a transaction it has looked up. */
  function DepositFromOps(env: Env, trxId: string, opIndex: nat, ops: seq<Op>): Result<Deposit, string> {
    if opIndex >= |ops| then Err("no op at index")
    else match ops[opIndex]
    case OtherOp(_) => Err("not a transfer")
    case Transfer(from, to, amount, memo) =>
      var account := OrElse(to, "");
      if account !in env.accounts then Err("not a backing account")
      else
        var chain := env.accounts[account];
        var destination := ResolveMemoDestination(env, account, Trim(OrElse(memo, "")));
        if env.validAddress(chain, destination)
        then Ok(Deposit(trxId, opIndex, OrElse(from, ""), env.milli(OrElse(amount, "0.000 VIZ")), chain, destination, true))
        else Ok(Deposit(trxId, opIndex, OrElse(from, ""), env.milli(OrElse(amount, "0.000 VIZ")), chain, "", false))
  }

  // ---------- reading blocks ----------

  function OpDeposits(env: Env, ops: seq<OpWrapper>, n: nat): seq<Deposit>
    requires n <= |ops|
  {
    if n == 0 then []
    else OpDeposits(env, ops, n - 1) + (var d := ScanOp(env, ops[n - 1]); if d.Some? then [d.value] else [])
  }

  /** All deposits in the blocks `(after, upTo]`, in order. */
  function DepositsIn(env: Env, blocks: int -> Block, after: int, upTo: int): seq<Deposit>
    decreases upTo - after
  {
    if upTo <= after then []
    else DepositsIn(env, blocks, after, upTo - 1) + var ops := OpsInBlock(blocks(upTo)); OpDeposits(env, ops, |ops|)
  }

  function Min(a: int, b: int): int {
    if a < b then a else b
  }

  method IrreversibleDepositsSince(env: Env, blocks: int -> Block, fromBlock: int, upToBlock: int)
    returns (deposits: seq<Deposit>)
    ensures deposits == DepositsIn(env, blocks, fromBlock, Min(upToBlock, fromBlock + MAX_BLOCKS_PER_SCAN))
  {
    deposits := [];
    var start := fromBlock + 1;
    if upToBlock < start {
      return;
    }
    var end := Min(upToBlock, start + MAX_BLOCKS_PER_SCAN - 1);
    var b := start;
    while b <= end
      invariant start <= b <= end + 1
      invariant deposits == DepositsIn(env, blocks, fromBlock, b - 1)
    {
      var ops := OpsInBlock(blocks(b));
      var before := deposits;
      for i := 0 to |ops|
        invariant deposits == before + OpDeposits(env, ops, i)
      {
        var d := ScanOp(env, ops[i]);
        if d.Some? {
          deposits := deposits + [d.value];
        }
      }
      b := b + 1;
    }
  }

  datatype Window = Window(scannedTo: int, caughtUp: bool)

  function NextScanWindow(cursor: int, safeHead: int): Window {
    var scannedTo := Min(safeHead, cursor + MAX_BLOCKS_PER_SCAN);
    Window(scannedTo, scannedTo >= safeHead)
  }

  // ---------- the scan finds exactly what signers confirm ----------

  lemma {:induction false} OpsOfTxAre(t: Tx, n: nat, w: OpWrapper)
    requires n <= |t.ops|
    ensures w in OpsOfTx(t, n) <==> w.opInTrx < n && w == OpWrapper(t.id, w.opInTrx, 0, t.ops[w.opInTrx])
  {
    if n > 0 {
      OpsOfTxAre(t, n - 1, w);
    }
  }

  lemma {:induction false} OpsOfTxsAre(txs: seq<Tx>, n: nat, w: OpWrapper)
    requires n <= |txs|
    ensures w in OpsOfTxs(txs, n) <==> exists i :: 0 <= i < n && w in OpsOfTx(txs[i], |txs[i].ops|)
  {
    if n > 0 {
      OpsOfTxsAre(txs, n - 1, w);
    }
  }

  lemma {:induction false} OpDepositsAre(env: Env, ops: seq<OpWrapper>, n: nat, d: Deposit)
    requires n <= |ops|
    ensures d in OpDeposits(env, ops, n) <==> exists i :: 0 <= i < n && ScanOp(env, ops[i]) == Some(d)
  {
    if n > 0 {
      OpDepositsAre(env, ops, n - 1, d);
    }
  }

  lemma {:induction false} DepositsInAre(env: Env, blocks: int -> Block, after: int, upTo: int, d: Deposit)
    ensures d in DepositsIn(env, blocks, after, upTo)
            <==> exists b :: after < b <= upTo && FoundIn(env, blocks(b), d)
    decreases upTo - after
  {
    if after < upTo {
      DepositsInAre(env, blocks, after, upTo - 1, d);
      var ops := OpsInBlock(blocks(upTo));
      OpDepositsAre(env, ops, |ops|, d);
      assert d in OpDeposits(env, ops, |ops|) <==> FoundIn(env, blocks(upTo), d);
    }
  }

  ghost predicate FoundIn(env: Env, b: Block, d: Deposit) {
    exists w :: w in OpsInBlock(b) && ScanOp(env, w) == Some(d)
  }

  /** A signer that looks up the deposit's transaction in the block re-derives it. */
  ghost predicate ConfirmedIn(env: Env, b: Block, d: Deposit) {
    exists t :: t in b.txs && t.id == d.trxId && DepositFromOps(env, d.trxId, d.opIndex, t.ops) == Ok(d)
  }

  lemma FoundIsConfirmed(env: Env, b: Block, d: Deposit)
    requires WellFormed(b) && FoundIn(env, b, d)
    ensures ConfirmedIn(env, b, d)
  {
    var w :| w in OpsInBlock(b) && ScanOp(env, w) == Some(d);
    assert w in OpsOfTxs(b.txs, |b.txs|);
    OpsOfTxsAre(b.txs, |b.txs|, w);
    var i :| 0 <= i < |b.txs| && w in OpsOfTx(b.txs[i], |b.txs[i].ops|);
    OpsOfTxAre(b.txs[i], |b.txs[i].ops|, w);
    assert b.txs[i] in b.txs && DepositFromOps(env, d.trxId, d.opIndex, b.txs[i].ops) == Ok(d);
  }

  lemma ConfirmedIsFound(env: Env, b: Block, d: Deposit)
    requires WellFormed(b) && ConfirmedIn(env, b, d)
    ensures FoundIn(env, b, d)
  {
    var t :| t in b.txs && t.id == d.trxId && DepositFromOps(env, d.trxId, d.opIndex, t.ops) == Ok(d);
    var w := OpWrapper(t.id, d.opIndex, 0, t.ops[d.opIndex]);
    OpsOfTxAre(t, |t.ops|, w);
    OpsOfTxsAre(b.txs, |b.txs|, w);
    assert w in OpsInBlock(b) && ScanOp(env, w) == Some(d);
  }

  lemma FoundIffConfirmed(env: Env, b: Block, d: Deposit)
    requires WellFormed(b)
    ensures FoundIn(env, b, d) <==> ConfirmedIn(env, b, d)
  {
    if FoundIn(env, b, d) { FoundIsConfirmed(env, b, d); }
    if ConfirmedIn(env, b, d) { ConfirmedIsFound(env, b, d); }
  }

  /** The watcher emits exactly the deposits that every signer with the same keys re-derives from its own blocks. */
  lemma ScannedIffConfirmed(env: Env, blocks: int -> Block, after: int, upTo: int, d: Deposit)
    requires forall b :: after < b <= upTo ==> WellFormed(blocks(b))
    ensures d in DepositsIn(env, blocks, after, upTo)
            <==> exists b :: after < b <= upTo && ConfirmedIn(env, blocks(b), d)
  {
    DepositsInAre(env, blocks, after, upTo, d);
    forall b | after < b <= upTo ensures FoundIn(env, blocks(b), d) <==> ConfirmedIn(env, blocks(b), d) {
      FoundIffConfirmed(env, blocks(b), d);
    }
  }

  // ---------- windows ----------

  /** Two adjoining stretches of blocks are read as one. */
  lemma {:induction false} StretchesJoin(env: Env, blocks: int -> Block, a: int, b: int, c: int)
    requires a <= b <= c
    ensures DepositsIn(env, blocks, a, b) + DepositsIn(env, blocks, b, c) == DepositsIn(env, blocks, a, c)
    decreases c - b
  {
    if b < c {
      StretchesJoin(env, blocks, a, b, c - 1);
    }
  }

  /** A window moves on, stays within the head, and is never cut short by the scan itself. */
  lemma WindowIsScannedWhole(cursor: int, safeHead: int)
    requires cursor < safeHead
    ensures var w := NextScanWindow(cursor, safeHead);
            && cursor < w.scannedTo <= safeHead
            && Min(w.scannedTo, cursor + MAX_BLOCKS_PER_SCAN) == w.scannedTo
            && (w.caughtUp <==> w.scannedTo == safeHead)
  {
  }

  // ---------- whole runs ----------

  /**
   `memory` is the loop's cursor and `persisted` the stored one; `floor` is where the last cold start
   began, `base` where this process did, and `emitted` what its committed ticks have handed on.
   */
  datatype Watcher = Watcher(memory: int, persisted: int, floor: int, base: int, head: int,
                             emitted: seq<Deposit>, outbox: map<string, Deposit>)

  datatype Event =
    | NewHead(head: int)
    | ColdStart(stored: bool)
    | Tick(handled: nat, stored: bool)
    | Restart

  function WindowDeposits(env: Env, blocks: int -> Block, w: Watcher): seq<Deposit> {
    DepositsIn(env, blocks, w.memory, NextScanWindow(w.memory, w.head).scannedTo)
  }

  function Record(outbox: map<string, Deposit>, ds: seq<Deposit>, n: nat): map<string, Deposit>
    requires n <= |ds|
  {
    if n == 0 then outbox
    else var before := Record(outbox, ds, n - 1);
         var id := PegInId(ds[n - 1]);
         if id in before then before else before[id := ds[n - 1]]
  }

  function SetCursor(persisted: int, value: int): int {
    if value <= persisted then persisted else value
  }

  /** A tick may stop after any deposit it has handled; the window is committed once all are. */
  ghost predicate Enabled(env: Env, blocks: int -> Block, w: Watcher, e: Event) {
    match e
    case NewHead(head) => head > 0 && head >= w.head
    case ColdStart(_) => w.memory == 0 && w.head > 0
    case Tick(handled, _) => w.memory != 0 && w.head > w.memory && handled <= |WindowDeposits(env, blocks, w)|
    case Restart => true
  }

  ghost function Next(env: Env, blocks: int -> Block, w: Watcher, e: Event): Watcher
    requires Enabled(env, blocks, w, e)
  {
    match e
    case NewHead(head) => w.(head := head)
    case ColdStart(stored) =>
      w.(memory := w.head, floor := w.head, base := w.head, emitted := [],
         persisted := if stored then SetCursor(w.persisted, w.head) else w.persisted)
    case Tick(handled, stored) =>
      var ds, upTo := WindowDeposits(env, blocks, w), NextScanWindow(w.memory, w.head).scannedTo;
      var w1 := w.(outbox := Record(w.outbox, ds, handled));
      if handled < |ds| then w1
      else w1.(memory := upTo, emitted := w.emitted + ds,
               persisted := if stored then SetCursor(w.persisted, upTo) else w.persisted)
    case Restart => w.(memory := w.persisted, base := w.persisted, emitted := [])
  }

  ghost predicate Step(env: Env, blocks: int -> Block, w: Watcher, w': Watcher) {
    exists e :: Enabled(env, blocks, w, e) && w' == Next(env, blocks, w, e)
  }

  ghost predicate Run(env: Env, blocks: int -> Block, ws: seq<Watcher>) {
    && |ws| > 0
    && ws[0] == Watcher(0, 0, 0, 0, 0, [], map[])
    && forall i :: 0 <= i < |ws| - 1 ==> Step(env, blocks, ws[i], ws[i + 1])
  }

  /** Transaction ids are unique over the chain, so a source operation is one deposit. */
  ghost predicate OneDepositPerOperation(env: Env, blocks: int -> Block) {
    forall b, c, d, e :: FoundIn(env, blocks(b), d) && FoundIn(env, blocks(c), e) && SameOperation(d, e) ==> d == e
  }

  predicate SameOperation(d: Deposit, e: Deposit) {
    d.trxId == e.trxId && d.opIndex == e.opIndex
  }

  ghost predicate OnChain(env: Env, blocks: int -> Block, upTo: int, d: Deposit) {
    exists b :: b <= upTo && FoundIn(env, blocks(b), d)
  }

  predicate Keyed(outbox: map<string, Deposit>) {
    forall id :: id in outbox ==> PegInId(outbox[id]) == id
  }

  predicate Recorded(outbox: map<string, Deposit>, d: Deposit) {
    PegInId(d) in outbox && outbox[PegInId(d)] == d
  }

  predicate Keeps(outbox: map<string, Deposit>, outbox': map<string, Deposit>) {
    forall id :: id in outbox ==> id in outbox' && outbox'[id] == outbox[id]
  }

  ghost predicate OutboxOk(env: Env, blocks: int -> Block, w: Watcher) {
    Keyed(w.outbox) && forall id :: id in w.outbox ==> OnChain(env, blocks, w.head, w.outbox[id])
  }

  ghost predicate Covered(env: Env, blocks: int -> Block, w: Watcher, cursor: int) {
    && w.floor <= cursor
    && forall d :: d in DepositsIn(env, blocks, w.floor, cursor) ==> Recorded(w.outbox, d)
  }

  ghost predicate Inv(env: Env, blocks: int -> Block, w: Watcher) {
    && 0 <= w.persisted <= w.memory <= w.head
    && OutboxOk(env, blocks, w)
    && (w.memory != 0 ==> Covered(env, blocks, w, w.memory) && w.base <= w.memory)
    && (w.memory != 0 ==> w.emitted == DepositsIn(env, blocks, w.base, w.memory))
    && (w.persisted != 0 ==> Covered(env, blocks, w, w.persisted))
  }

  ghost predicate OneEach(all: iset<Deposit>) {
    forall d, e :: d in all && e in all && SameOperation(d, e) ==> d == e
  }

  ghost predicate RowsFrom(outbox: map<string, Deposit>, all: iset<Deposit>) {
    Keyed(outbox) && forall id :: id in outbox ==> outbox[id] in all
  }

  lemma {:induction false} RecordKeeps(outbox: map<string, Deposit>, ds: seq<Deposit>, n: nat)
    requires n <= |ds|
    ensures Keeps(outbox, Record(outbox, ds, n))
    ensures forall i :: 0 <= i < n ==> PegInId(ds[i]) in Record(outbox, ds, n)
  {
    if n > 0 {
      RecordKeeps(outbox, ds, n - 1);
    }
  }

  lemma {:induction false} RecordIsFrom(outbox: map<string, Deposit>, ds: seq<Deposit>, n: nat, all: iset<Deposit>)
    requires n <= |ds| && RowsFrom(outbox, all) && forall i :: 0 <= i < n ==> ds[i] in all
    ensures RowsFrom(Record(outbox, ds, n), all)
  {
    if n > 0 {
      RecordIsFrom(outbox, ds, n - 1, all);
    }
  }

  /** Under an id there is no row but the deposit's own. */
  lemma RowIsTheDeposit(outbox: map<string, Deposit>, d: Deposit, all: iset<Deposit>)
    requires OneEach(all) && RowsFrom(outbox, all) && d in all && PegInId(d) in outbox
    ensures Recorded(outbox, d)
  {
    PegInIdInjective(outbox[PegInId(d)], d);
  }

  lemma ScannedIsOnChain(env: Env, blocks: int -> Block, after: int, upTo: int, head: int, d: Deposit)
    requires upTo <= head && d in DepositsIn(env, blocks, after, upTo)
    ensures OnChain(env, blocks, head, d)
  {
    DepositsInAre(env, blocks, after, upTo, d);
  }

  ghost function AllOnChain(env: Env, blocks: int -> Block, upTo: int): iset<Deposit> {
    iset d | OnChain(env, blocks, upTo, d)
  }

  /** A tick, committed or cut short, records what it handled. */
  lemma TickRecords(env: Env, blocks: int -> Block, w: Watcher, handled: nat)
    requires OneDepositPerOperation(env, blocks) && OutboxOk(env, blocks, w)
    requires handled <= |WindowDeposits(env, blocks, w)|
    ensures var ds := WindowDeposits(env, blocks, w);
            var outbox := Record(w.outbox, ds, handled);
            && OutboxOk(env, blocks, w.(outbox := outbox)) && Keeps(w.outbox, outbox)
            && forall i :: 0 <= i < handled ==> Recorded(outbox, ds[i])
  {
    var ds := WindowDeposits(env, blocks, w);
    forall d | d in ds ensures OnChain(env, blocks, w.head, d) {
      ScannedIsOnChain(env, blocks, w.memory, NextScanWindow(w.memory, w.head).scannedTo, w.head, d);
    }
    var all := AllOnChain(env, blocks, w.head);
    RecordKeeps(w.outbox, ds, handled);
    RecordIsFrom(w.outbox, ds, handled, all);
    forall i | 0 <= i < handled ensures Recorded(Record(w.outbox, ds, handled), ds[i]) {
      RowIsTheDeposit(Record(w.outbox, ds, handled), ds[i], all);
    }
  }

  lemma CoverageSurvives(env: Env, blocks: int -> Block, w: Watcher, outbox: map<string, Deposit>, cursor: int)
    requires Covered(env, blocks, w, cursor) && Keeps(w.outbox, outbox)
    ensures Covered(env, blocks, w.(outbox := outbox), cursor)
  {
  }

  /** Once a whole window is recorded, coverage reaches its end. */
  lemma CoverageGrows(env: Env, blocks: int -> Block, w: Watcher, cursor: int, upTo: int)
    requires Covered(env, blocks, w, cursor) && cursor <= upTo
    requires forall d :: d in DepositsIn(env, blocks, cursor, upTo) ==> Recorded(w.outbox, d)
    ensures Covered(env, blocks, w, upTo)
  {
    StretchesJoin(env, blocks, w.floor, cursor, upTo);
  }

  lemma TickKeepsInv(env: Env, blocks: int -> Block, w: Watcher, handled: nat, stored: bool)
    requires OneDepositPerOperation(env, blocks) && Inv(env, blocks, w)
    requires Enabled(env, blocks, w, Tick(handled, stored))
    ensures var w' := Next(env, blocks, w, Tick(handled, stored));
            Inv(env, blocks, w') && Keeps(w.outbox, w'.outbox) && w'.persisted >= w.persisted
  {
    var ds, upTo := WindowDeposits(env, blocks, w), NextScanWindow(w.memory, w.head).scannedTo;
    var w1 := w.(outbox := Record(w.outbox, ds, handled));
    TickRecords(env, blocks, w, handled);
    CoverageSurvives(env, blocks, w, w1.outbox, w.memory);
    if w.persisted != 0 {
      CoverageSurvives(env, blocks, w, w1.outbox, w.persisted);
    }
    if handled == |ds| {
      CoverageGrows(env, blocks, w1, w.memory, upTo);
      StretchesJoin(env, blocks, w.base, w.memory, upTo);
    }
  }

  lemma OutboxOkLater(env: Env, blocks: int -> Block, w: Watcher, head: int)
    requires OutboxOk(env, blocks, w) && w.head <= head
    ensures OutboxOk(env, blocks, w.(head := head))
  {
    forall id | id in w.outbox ensures OnChain(env, blocks, head, w.outbox[id]) {
      var b :| b <= w.head && FoundIn(env, blocks(b), w.outbox[id]);
    }
  }

  lemma ColdStartKeepsInv(env: Env, blocks: int -> Block, w: Watcher, stored: bool)
    requires Inv(env, blocks, w) && Enabled(env, blocks, w, ColdStart(stored))
    ensures var w' := Next(env, blocks, w, ColdStart(stored));
            Inv(env, blocks, w') && w'.outbox == w.outbox && w'.persisted >= w.persisted
  {
    assert DepositsIn(env, blocks, w.head, w.head) == [];
  }

  lemma StepKeepsInv(env: Env, blocks: int -> Block, w: Watcher, w': Watcher)
    requires OneDepositPerOperation(env, blocks) && Inv(env, blocks, w) && Step(env, blocks, w, w')
    ensures Inv(env, blocks, w') && Keeps(w.outbox, w'.outbox) && w'.persisted >= w.persisted
  {
    var e :| Enabled(env, blocks, w, e) && w' == Next(env, blocks, w, e);
    if e.NewHead? {
      OutboxOkLater(env, blocks, w, e.head);
    } else if e.Tick? {
      TickKeepsInv(env, blocks, w, e.handled, e.stored);
    } else if e.ColdStart? {
      ColdStartKeepsInv(env, blocks, w, e.stored);
    }
  }

  lemma {:induction false} RunKeepsInv(env: Env, blocks: int -> Block, ws: seq<Watcher>, i: nat)
    requires OneDepositPerOperation(env, blocks) && Run(env, blocks, ws) && i < |ws|
    ensures Inv(env, blocks, ws[i])
  {
    if i > 0 {
      RunKeepsInv(env, blocks, ws, i - 1);
      StepKeepsInv(env, blocks, ws[i - 1], ws[i - 1 + 1]);
    }
  }

  /** The cursor and the rows only ever grow. */
  lemma {:induction false} CursorAndRowsOnlyGrow(env: Env, blocks: int -> Block, ws: seq<Watcher>, i: nat, j: nat)
    requires OneDepositPerOperation(env, blocks) && Run(env, blocks, ws) && i <= j < |ws|
    ensures ws[i].persisted <= ws[j].persisted && Keeps(ws[i].outbox, ws[j].outbox)
    decreases j
  {
    if i < j {
      CursorAndRowsOnlyGrow(env, blocks, ws, i, j - 1);
      RunKeepsInv(env, blocks, ws, j - 1);
      StepKeepsInv(env, blocks, ws[j - 1], ws[j - 1 + 1]);
    }
  }

  /** The committed ticks of a process have handed on every deposit between where it began and its cursor, each once, in order. */
  lemma EachBlockScannedOnce(env: Env, blocks: int -> Block, ws: seq<Watcher>, i: nat)
    requires OneDepositPerOperation(env, blocks) && Run(env, blocks, ws) && i < |ws| && ws[i].memory != 0
    ensures ws[i].emitted == DepositsIn(env, blocks, ws[i].base, ws[i].memory)
  {
    RunKeepsInv(env, blocks, ws, i);
  }

  /** Neither cursor passes a block while a deposit in it, that a signer would confirm, has no row. */
  lemma CursorNeverPassesADeposit(env: Env, blocks: int -> Block, ws: seq<Watcher>, i: nat, b: int, d: Deposit)
    requires OneDepositPerOperation(env, blocks) && Run(env, blocks, ws) && i < |ws|
    requires WellFormed(blocks(b)) && ConfirmedIn(env, blocks(b), d)
    requires ws[i].floor < b && 0 < b && (b <= ws[i].persisted || b <= ws[i].memory)
    ensures Recorded(ws[i].outbox, d)
  {
    RunKeepsInv(env, blocks, ws, i);
    FoundIffConfirmed(env, blocks(b), d);
    DepositsInAre(env, blocks, ws[i].floor, ws[i].memory, d);
  }

  /** Every row is one irreversible deposit, keyed by its operation, that a signer would confirm. */
  lemma EveryRowIsOneDeposit(env: Env, blocks: int -> Block, ws: seq<Watcher>, i: nat, id: string)
    requires OneDepositPerOperation(env, blocks) && Run(env, blocks, ws) && i < |ws|
    requires forall k :: WellFormed(blocks(k))
    requires id in ws[i].outbox
    ensures PegInId(ws[i].outbox[id]) == id
    ensures exists b :: b <= ws[i].head && ConfirmedIn(env, blocks(b), ws[i].outbox[id])
  {
    RunKeepsInv(env, blocks, ws, i);
    var d := ws[i].outbox[id];
    var b :| b <= ws[i].head && FoundIn(env, blocks(b), d);
    FoundIffConfirmed(env, blocks(b), d);
  }

  // ---------- the cursor moves on ----------

  /** A tick that gets through its window commits it: the cursor moves up to 200 blocks, to the head if it is nearer. */
  lemma CompletedTickCommits(env: Env, blocks: int -> Block, w: Watcher, handled: nat, stored: bool)
    requires Enabled(env, blocks, w, Tick(handled, stored)) && w.persisted <= w.memory
    requires handled == |WindowDeposits(env, blocks, w)|
    ensures var w' := Next(env, blocks, w, Tick(handled, stored));
            && w'.memory == (if w.head < w.memory + 200 then w.head else w.memory + 200)
            && w'.persisted == (if stored then w'.memory else w.persisted)
            && w'.emitted == w.emitted + DepositsIn(env, blocks, w.memory, w'.memory)
            && (w'.head, w'.floor, w'.base) == (w.head, w.floor, w.base)
            && forall d :: d in DepositsIn(env, blocks, w.memory, w'.memory) ==> PegInId(d) in w'.outbox
  {
    RecordKeeps(w.outbox, WindowDeposits(env, blocks, w), handled);
  }

  /** One cut short moves neither cursor; a cold start begins at the head, a restart at the stored cursor. */
  lemma OtherStepsSetTheCursor(env: Env, blocks: int -> Block, w: Watcher, e: Event)
    requires Enabled(env, blocks, w, e) && w.persisted <= w.memory <= w.head
    ensures var w' := Next(env, blocks, w, e);
            && (e.Tick? && e.handled < |WindowDeposits(env, blocks, w)| ==> (w'.memory, w'.persisted) == (w.memory, w.persisted))
            && (e.ColdStart? ==> w'.memory == w.head && w'.persisted == if e.stored then w.head else w.persisted)
            && (e.Restart? ==> w'.memory == w.persisted == w'.persisted)
            && (e.NewHead? ==> w' == w.(head := e.head))
  {
  }

  /** Completed ticks under one head. */
  ghost function AfterTicks(env: Env, blocks: int -> Block, w: Watcher, ticks: nat): Watcher {
    if ticks == 0 then w
    else var before := AfterTicks(env, blocks, w, ticks - 1);
         if before.memory != 0 && before.memory < before.head
         then Next(env, blocks, before, Tick(|WindowDeposits(env, blocks, before)|, true)) else before
  }

  /** A backlog is worked off at full stride, and stored: after so many ticks the cursor is that many strides on, or at the head. */
  lemma {:induction false} BacklogIsDrained(env: Env, blocks: int -> Block, w: Watcher, ticks: nat)
    requires 0 < w.memory <= w.head && w.persisted <= w.memory
    ensures var w' := AfterTicks(env, blocks, w, ticks);
            && w'.memory == (if w.head < w.memory + ticks * 200 then w.head else w.memory + ticks * 200)
            && w'.head == w.head && w'.persisted == (if ticks > 0 && w.memory < w.head then w'.memory else w.persisted)
  {
    if ticks > 0 {
      BacklogIsDrained(env, blocks, w, ticks - 1);
      var before := AfterTicks(env, blocks, w, ticks - 1);
      if before.memory < before.head {
        CompletedTickCommits(env, blocks, before, |WindowDeposits(env, blocks, before)|, true);
      }
    }
  }
}
