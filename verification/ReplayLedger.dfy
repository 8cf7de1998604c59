/**
 The signer's replay ledger: which key a proposal is recorded under, the table of recorded
 keys with its compare-and-swap, and one /approve call as a sequence of steps between which
 any other call, the chain and the operator's node may move.

 Hashes and transaction ids are injective, so a key carries the thing it identifies.
 */
module ReplayLedger {
  import opened Wrappers

  /** The unsigned VIZ transfer of a release proposal, with its expiration in milliseconds. */
  datatype Release = Release(refBlockNum: int, refBlockPrefix: int, expiresAtMs: int,
                             from: string, to: string, amount: string, memo: string)

  /** The identity of one signable effect on a destination chain. */
  datatype Key = VizTx(release: Release) | GramOrder(orderAddr: string) | SolanaMsg(messageB64: string)

  datatype Direction = PegIn | PegOut | GramReturn

  datatype Action = Action(direction: Direction, id: string)

  /**
   A proposal as it arrives on the wire. `release` is absent when the expiration does not
   parse; `solana` and `gram` are present when the proposal carries that chain's marker fields.
   Nothing stops one proposal from carrying several of the three.
   */
  datatype Proposal = Proposal(release: Option<Release>, gram: Option<string>, solana: Option<string>)

  /** The ledger key and the recorded expiration; absent where the source throws. */
  function ProposalKey(p: Proposal): Option<(Key, int)> {
    if p.solana.Some? then Some((SolanaMsg(p.solana.value), 0))
    else if p.gram.Some? then Some((GramOrder(p.gram.value), 0))
    else if p.release.Some? then Some((VizTx(p.release.value), p.release.value.expiresAtMs))
    else None
  }

  /** What the signer would sign for this request; absent where routing refuses. */
  function SignedEffect(a: Action, p: Proposal): Option<Key> {
    match a.direction
    case GramReturn => if p.gram.Some? then Some(GramOrder(p.gram.value)) else None
    case PegOut => if p.release.Some? then Some(VizTx(p.release.value)) else None
    case PegIn =>
      if p.solana.Some? then Some(SolanaMsg(p.solana.value))
      else if p.gram.Some? then Some(GramOrder(p.gram.value))
      else None
  }

  /** The proposal carries no marker field of a chain that its direction is not routed to. */
  predicate ShapeMatchesDirection(a: Action, p: Proposal) {
    match a.direction
    case GramReturn => p.solana.None?
    case PegOut => p.solana.None? && p.gram.None?
    case PegIn => true
  }

  /**
   The ledger classifies a proposal by shape, the router by direction. Of all requests that
   would be signed, the recorded key names the signed effect exactly when the two agree.
   */
  lemma KeyNamesEffectIffShapeMatches(a: Action, p: Proposal)
    requires SignedEffect(a, p).Some?
    ensures (ProposalKey(p).Some? && ProposalKey(p).value.0 == SignedEffect(a, p).value)
            <==> ShapeMatchesDirection(a, p)
    ensures ShapeMatchesDirection(a, p) ==>
              ProposalKey(p).value.1 == if SignedEffect(a, p).value.VizTx? then SignedEffect(a, p).value.release.expiresAtMs else 0
  {
    match a.direction
    case GramReturn =>
    case PegOut =>
    case PegIn =>
  }

  /** Any two releases marked with one GRAM order are recorded under one key, though each would be signed as itself. */
  lemma ForeignMarkerHidesRelease(id: string, r: Release, s: Release, order: string)
    ensures var a := Action(PegOut, id);
            var p, q := Proposal(Some(r), Some(order), None), Proposal(Some(s), Some(order), None);
            && SignedEffect(a, p) == Some(VizTx(r)) && SignedEffect(a, q) == Some(VizTx(s))
            && ProposalKey(p) == ProposalKey(q)
  {
  }

  // ---------- the table ----------

  datatype Entry = Entry(key: Key, expiresAtMs: int)

  type Table = map<string, Entry>

  /** Insert when nothing is expected, replace when the row still carries the expected key. */
  function Put(rows: Table, id: string, entry: Entry, expected: Option<Key>): (bool, Table) {
    var row := if id in rows then Some(rows[id].key) else None;
    if row == expected then (true, rows[id := entry]) else (false, rows)
  }

  class SignedProposals {
    var rows: Table

    constructor ()
      ensures rows == map[]
    {
      rows := map[];
    }

    method Get(id: string) returns (entry: Option<Entry>)
      ensures entry == if id in rows then Some(rows[id]) else None
    {
      entry := if id in rows then Some(rows[id]) else None;
    }

    method PutSigned(id: string, entry: Entry, expected: Option<Key>) returns (ok: bool)
      modifies this
      ensures (ok, rows) == Put(old(rows), id, entry, expected)
    {
      if expected.None? {
        ok := id !in rows;
      } else {
        ok := id in rows && rows[id].key == expected.value;
      }
      if ok {
        rows := rows[id := entry];
      }
    }
  }

  // ---------- the operator's own node ----------

  /** `accounts` are the VIZ accounts that exist at this block. */
  datatype Block = Block(timeMs: int, txs: set<Release>, accounts: set<string>)

  predicate LandedIn(view: seq<Block>, r: Release) {
    exists i :: 0 <= i < |view| && r in view[i].txs
  }

  const VIZ_EXPIRY_MARGIN_MS: int := 60_000

  // ---------- one /approve call ----------

  /** Where a call stands: each constructor but the last two names the store or node access it awaits. */
  datatype Stage =
    | ReadRow
    | Insert
    | ReadWinner
    | ReadHead(prev: Entry)
    | AskLanded(prev: Entry)
    | Swap(prev: Entry)
    | Cleared
    | Closed

  /** `effect` is what will be signed once the call is cleared; absent where routing will refuse. */
  datatype Call = Call(id: string, entry: Entry, effect: Option<Key>, stage: Stage)

  /** One await of `assertNotReplay` against the current table and node view. */
  function Advance(rows: Table, view: seq<Block>, c: Call): (Table, Call) {
    match c.stage
    case ReadRow =>
      if c.id !in rows then (rows, c.(stage := Insert))
      else if rows[c.id].key == c.entry.key then (rows, c.(stage := Cleared))
      else if c.entry.key.VizTx? && rows[c.id].key.VizTx? then (rows, c.(stage := ReadHead(rows[c.id])))
      else (rows, c.(stage := Closed))
    case Insert =>
      var (ok, rows') := Put(rows, c.id, c.entry, None);
      (rows', c.(stage := if ok then Cleared else ReadWinner))
    case ReadWinner =>
      (rows, c.(stage := if c.id in rows && rows[c.id].key == c.entry.key then Cleared else Closed))
    case ReadHead(prev) =>
      if |view| == 0 || view[|view| - 1].timeMs <= prev.expiresAtMs + VIZ_EXPIRY_MARGIN_MS
      then (rows, c.(stage := Closed))
      else (rows, c.(stage := AskLanded(prev)))
    case AskLanded(prev) =>
      if prev.key.VizTx? && !LandedIn(view, prev.key.release)
      then (rows, c.(stage := Swap(prev)))
      else (rows, c.(stage := Closed))
    case Swap(prev) =>
      var (ok, rows') := Put(rows, c.id, c.entry, Some(prev.key));
      (rows', c.(stage := if ok then Cleared else Closed))
    case Cleared => (rows, c)
    case Closed => (rows, c)
  }

  /** A call that nothing interrupts, run to its end: at most four awaits. */
  function Uninterrupted(rows: Table, view: seq<Block>, c: Call, awaits: nat): (Table, Call)
    decreases awaits
  {
    if awaits == 0 then (rows, c)
    else
      var (rows', c') := Advance(rows, view, c);
      Uninterrupted(rows', view, c', awaits - 1)
  }

  /**
   `assertNotReplay` as the source writes it, on a store no other call touches meanwhile. It clears
   a first request, one for the key on record, and a release in place of another that this node
   shows expired for more than a minute and never landed; a cleared key is the one on record, and a
   refusal changes nothing. Beside that, it leaves the store and the verdict that the interruptible
   call reaches when nothing intervenes.
   */
  method AssertNotReplay(store: SignedProposals, id: string, entry: Entry, view: seq<Block>)
    returns (cleared: bool)
    modifies store
    ensures cleared <==>
            || id !in old(store.rows)
            || old(store.rows)[id].key == entry.key
            || (&& entry.key.VizTx? && old(store.rows)[id].key.VizTx?
                && |view| > 0 && view[|view| - 1].timeMs > old(store.rows)[id].expiresAtMs + 60_000
                && forall i :: 0 <= i < |view| ==> old(store.rows)[id].key.release !in view[i].txs)
    ensures store.rows == if cleared && !(id in old(store.rows) && old(store.rows)[id].key == entry.key)
                          then old(store.rows)[id := entry] else old(store.rows)
    ensures var (rows', c') := Uninterrupted(old(store.rows), view, Call(id, entry, Some(entry.key), ReadRow), 4);
            store.rows == rows' && (c'.stage == if cleared then Cleared else Closed)
  {
    ghost var c := Call(id, entry, Some(entry.key), ReadRow);
    ghost var before := store.rows;
    var prev := store.Get(id);
    if prev.None? {
      cleared := store.PutSigned(id, entry, None);
      UnfoldCall(before, view, c);
      return;
    }
    UnfoldCall(before, view, c);
    if prev.value.key == entry.key {
      return true;
    }
    if !entry.key.VizTx? || !prev.value.key.VizTx? {
      return false;
    }
    if |view| == 0 || view[|view| - 1].timeMs <= prev.value.expiresAtMs + VIZ_EXPIRY_MARGIN_MS {
      return false;
    }
    if LandedIn(view, prev.value.key.release) {
      return false;
    }
    cleared := store.PutSigned(id, entry, Some(prev.value.key));
  }

  lemma UnfoldCall(rows: Table, view: seq<Block>, c: Call)
    ensures Uninterrupted(rows, view, c, 4)
            == var (r1, c1) := Advance(rows, view, c);
               var (r2, c2) := Advance(r1, view, c1);
               var (r3, c3) := Advance(r2, view, c2);
               Advance(r3, view, c3)
  {
    var (r1, c1) := Advance(rows, view, c);
    var (r2, c2) := Advance(r1, view, c1);
    var (r3, c3) := Advance(r2, view, c2);
    assert Uninterrupted(r3, view, c3, 1) == Advance(r3, view, c3);
    assert Uninterrupted(r2, view, c2, 2) == Uninterrupted(r3, view, c3, 1);
    assert Uninterrupted(r1, view, c1, 3) == Uninterrupted(r2, view, c2, 2);
  }

  // ---------- the interrupted call ----------

  /** What one await of a call finds: the table and the node's blocks, whatever has happened since the last. */
  datatype Glimpse = Glimpse(rows: Table, view: seq<Block>)

  /** The call after so many awaits, each on what it finds. */
  function Interrupted(c: Call, found: seq<Glimpse>, n: nat): Call
    requires n <= |found|
  {
    if n == 0 then c
    else Advance(found[n - 1].rows, found[n - 1].view, Interrupted(c, found, n - 1)).1
  }

  /** Nobody had claimed the action; then either still nobody has, or whoever came first claimed the same key. */
  predicate ClearedAsFirst(c: Call, found: seq<Glimpse>)
    requires |found| == 4
  {
    && c.id !in found[0].rows
    && (c.id !in found[1].rows || (c.id in found[2].rows && found[2].rows[c.id].key == c.entry.key))
  }

  /**
   The release on record was more than a minute past its expiration at the second await, had not
   landed by the third, and was still on record at the fourth.
   */
  predicate ClearedAsSuccessor(c: Call, found: seq<Glimpse>)
    requires |found| == 4
  {
    && c.id in found[0].rows && found[0].rows[c.id].key != c.entry.key
    && c.entry.key.VizTx? && found[0].rows[c.id].key.VizTx?
    && |found[1].view| > 0
    && found[1].view[|found[1].view| - 1].timeMs > found[0].rows[c.id].expiresAtMs + 60_000
    && (forall i :: 0 <= i < |found[2].view| ==> found[0].rows[c.id].key.release !in found[2].view[i].txs)
    && c.id in found[3].rows && found[3].rows[c.id].key == found[0].rows[c.id].key
  }

  /** Four awaits settle a call, and whatever else goes on between them it is cleared in exactly three cases. */
  lemma InterruptedVerdict(c: Call, found: seq<Glimpse>)
    requires |found| == 4 && c.stage == ReadRow
    ensures var c' := Interrupted(c, found, 4);
            && c'.stage in {Cleared, Closed}
            && c' == c.(stage := c'.stage)
            && (c'.stage == Cleared <==>
                  || (c.id in found[0].rows && found[0].rows[c.id].key == c.entry.key)
                  || ClearedAsFirst(c, found)
                  || ClearedAsSuccessor(c, found))
  {
    InterruptedAwaits(c, found);
  }

  lemma InterruptedAwaits(c: Call, found: seq<Glimpse>)
    requires |found| == 4
    ensures var c1 := Advance(found[0].rows, found[0].view, c).1;
            var c2 := Advance(found[1].rows, found[1].view, c1).1;
            var c3 := Advance(found[2].rows, found[2].view, c2).1;
            && Interrupted(c, found, 1) == c1 && Interrupted(c, found, 2) == c2 && Interrupted(c, found, 3) == c3
            && Interrupted(c, found, 4) == Advance(found[3].rows, found[3].view, c3).1
  {
    assert Interrupted(c, found, 0) == c;
    assert Interrupted(c, found, 1) == Advance(found[0].rows, found[0].view, c).1;
    assert Interrupted(c, found, 2) == Advance(found[1].rows, found[1].view, Interrupted(c, found, 1)).1;
    assert Interrupted(c, found, 3) == Advance(found[2].rows, found[2].view, Interrupted(c, found, 2)).1;
  }

  /**
   An await writes nothing but its own action's row: its entry, where there was none, or in place of
   another release when it is then cleared; and a call not yet cleared becomes so only with its key on record.
   */
  lemma AwaitWrites(rows: Table, view: seq<Block>, c: Call)
    ensures var (rows', c') := Advance(rows, view, c);
            && (rows' == rows || (rows' == rows[c.id := c.entry] && c'.stage == Cleared))
            && (c.id !in rows && rows' != rows ==> c.stage == Insert)
            && (c.id in rows && rows' != rows ==> c.stage.Swap? && rows[c.id].key == c.stage.prev.key)
            && (c'.stage == Cleared && c.stage != Cleared ==> c.id in rows' && rows'[c.id].key == c.entry.key)
  {
  }
}
