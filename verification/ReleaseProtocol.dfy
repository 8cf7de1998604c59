/**
 The T-of-N release protocol. The coordinator is arbitrary: it may send any request whose key can
 be derived to any operator at any time, reuse and rebuild proposals, and assemble any signatures
 it holds. What it must not send for a law to hold is stated with that law.
 Dishonest operators sign anything. Honest operators run `assertNotReplay` for any number of
 concurrent calls, interleaved at every await, and sign what it clears. VIZ is a growing
 sequence of blocks; each operator's node serves a prefix of it that only grows.
 */
module ReleaseProtocol {
  import opened Wrappers
  import opened ReplayLedger

  /**
   What source validation and the signer's own checks let an honest operator do: `genuine`, the
   releases it may sign; `approves`, the actions for which it may approve an order on GRAM, given
   the VIZ accounts its node shows.
   */
  datatype Federation = Federation(n: nat, threshold: nat, dishonest: set<nat>, genuine: Release -> bool,
                                   approves: (string, set<string>) -> bool)

  /**
   `claimed` is the history of rows written, `approved` what this operator has signed and for
   which action, `saw` the VIZ accounts its node showed when it did, `asked` the requests it has
   been sent.
   */
  datatype Operator = Operator(rows: Table, claimed: set<(string, Key)>, approved: set<(string, Key)>,
                               saw: set<(string, Key, set<string>)>, asked: set<(Action, Proposal)>,
                               seen: nat, calls: map<nat, Call>)

  datatype World = World(chain: seq<Block>, ops: seq<Operator>)

  datatype Event =
    | Produce(block: Block)
    | Sync(op: nat, seen: nat)
    | Begin(op: nat, call: nat, action: Action, proposal: Proposal)
    | Resume(op: nat, call: nat)
    | Throw(op: nat, call: nat)
    | Sign(op: nat, call: nat)

  // ---------- who has approved what ----------

  ghost function Approvers(f: Federation, w: World, id: string, k: Key): set<nat> {
    set o | 0 <= o < f.n && (o in f.dishonest || (o < |w.ops| && (id, k) in w.ops[o].approved))
  }

  ghost predicate Quorum(f: Federation, w: World, id: string, k: Key) {
    |Approvers(f, w, id, k)| >= f.threshold
  }

  // ---------- steps ----------

  /**
   VIZ admits a transfer once, before it expires, to an account that exists, with enough operator
   signatures on it; accounts are only ever added.
   */
  ghost predicate Admissible(f: Federation, w: World, b: Block) {
    && (|w.chain| > 0 ==> w.chain[|w.chain| - 1].timeMs <= b.timeMs && w.chain[|w.chain| - 1].accounts <= b.accounts)
    && forall r :: r in b.txs ==>
                     && b.timeMs <= r.expiresAtMs && r.to in b.accounts
                     && !LandedIn(w.chain, r)
                     && Quorum(f, w, r.memo, VizTx(r))
  }

  ghost predicate Enabled(f: Federation, w: World, e: Event) {
    match e
    case Produce(b) => Admissible(f, w, b)
    case Sync(o, seen) => o < |w.ops| && w.ops[o].seen <= seen <= |w.chain|
    case Begin(o, c, _, p) => o < |w.ops| && c !in w.ops[o].calls && ProposalKey(p).Some?
    case Resume(o, c) => o < |w.ops| && c in w.ops[o].calls && w.ops[o].seen <= |w.chain|
    case Throw(o, c) => o < |w.ops| && c in w.ops[o].calls
    case Sign(o, c) => o < |w.ops| && c in w.ops[o].calls && MaySign(f, w.ops[o].calls[c], Accounts(w.chain, w.ops[o].seen))
  }

  /** The VIZ accounts that a node shows when it has seen so many blocks. */
  function Accounts(chain: seq<Block>, seen: nat): set<string> {
    if 0 < seen <= |chain| then chain[seen - 1].accounts else {}
  }

  /**
   The signer signs a cleared call. A release must be genuine and carry the action id as its memo;
   an order must be one it approves, seeing what its node shows.
   */
  predicate MaySign(f: Federation, c: Call, accounts: set<string>) {
    && c.stage.Cleared? && c.effect.Some?
    && (c.effect.value.VizTx? ==> f.genuine(c.effect.value.release) && c.effect.value.release.memo == c.id)
    && (c.effect.value.GramOrder? ==> f.approves(c.id, accounts))
  }

  function StartCall(a: Action, p: Proposal): Call
    requires ProposalKey(p).Some?
  {
    var (key, expiresAtMs) := ProposalKey(p).value;
    Call(a.id, Entry(key, expiresAtMs), SignedEffect(a, p), ReadRow)
  }

  function BeginCall(op: Operator, c: nat, a: Action, p: Proposal): Operator
    requires ProposalKey(p).Some?
  {
    op.(calls := op.calls[c := StartCall(a, p)], asked := op.asked + {(a, p)})
  }

  /** Signing closes the call. */
  function SignCall(op: Operator, c: nat, accounts: set<string>): Operator
    requires c in op.calls && op.calls[c].effect.Some?
  {
    var call := op.calls[c];
    op.(approved := op.approved + {(call.id, call.effect.value)},
        saw := op.saw + {(call.id, call.effect.value, accounts)}, calls := op.calls[c := call.(stage := Closed)])
  }

  function ResumeCall(op: Operator, view: seq<Block>, c: nat): Operator
    requires c in op.calls
  {
    var call := op.calls[c];
    var (rows', call') := Advance(op.rows, view, call);
    var claim := if rows' == op.rows then {} else {(call.id, call.entry.key)};
    op.(rows := rows', claimed := op.claimed + claim, calls := op.calls[c := call'])
  }

  ghost function Next(f: Federation, w: World, e: Event): World
    requires Enabled(f, w, e)
  {
    match e
    case Produce(b) => w.(chain := w.chain + [b])
    case Sync(o, seen) => w.(ops := w.ops[o := w.ops[o].(seen := seen)])
    case Begin(o, c, a, p) => w.(ops := w.ops[o := BeginCall(w.ops[o], c, a, p)])
    case Resume(o, c) =>
      w.(ops := w.ops[o := ResumeCall(w.ops[o], w.chain[..w.ops[o].seen], c)])
    case Throw(o, c) =>
      w.(ops := w.ops[o := w.ops[o].(calls := w.ops[o].calls[c := w.ops[o].calls[c].(stage := Closed)])])
    case Sign(o, c) => w.(ops := w.ops[o := SignCall(w.ops[o], c, Accounts(w.chain, w.ops[o].seen))])
  }

  ghost predicate Initial(f: Federation, w: World) {
    && w.chain == []
    && |w.ops| == f.n
    && forall o :: 0 <= o < |w.ops| ==> w.ops[o] == Operator(map[], {}, {}, {}, {}, 0, map[])
  }

  ghost predicate Step(f: Federation, w: World, w': World) {
    exists e :: Enabled(f, w, e) && w' == Next(f, w, e)
  }

  ghost predicate Run(f: Federation, ws: seq<World>) {
    && |ws| > 0
    && Initial(f, ws[0])
    && forall i :: 0 <= i < |ws| - 1 ==> Step(f, ws[i], ws[i + 1])
  }

  // ---------- the invariant ----------

  /** The release is more than a minute expired in a node's view that does not contain it: it can never land. */
  ghost predicate Dead(chain: seq<Block>, seen: nat, r: Release) {
    && 0 < seen <= |chain|
    && r.expiresAtMs + VIZ_EXPIRY_MARGIN_MS < chain[seen - 1].timeMs
    && !LandedIn(chain[..seen], r)
  }

  ghost predicate DeadKey(chain: seq<Block>, seen: nat, k: Key) {
    k.VizTx? && Dead(chain, seen, k.release)
  }

  predicate EntryOk(e: Entry) {
    e.key.VizTx? ==> e.expiresAtMs == e.key.release.expiresAtMs
  }

  ghost predicate CallOk(chain: seq<Block>, op: Operator, c: Call) {
    && EntryOk(c.entry)
    && match c.stage
       case ReadHead(prev) => c.entry.key.VizTx? && prev.key.VizTx? && EntryOk(prev)
       case AskLanded(prev) =>
         && c.entry.key.VizTx? && prev.key.VizTx? && EntryOk(prev)
         && 0 < op.seen <= |chain| && prev.expiresAtMs + VIZ_EXPIRY_MARGIN_MS < chain[op.seen - 1].timeMs
       case Swap(prev) => c.entry.key.VizTx? && DeadKey(chain, op.seen, prev.key)
       case Cleared => (c.id, c.entry.key) in op.claimed
       case _ => true
  }

  /** Of all keys ever claimed for an action, every one but the current row's is dead. */
  ghost predicate LedgerOk(chain: seq<Block>, op: Operator) {
    && op.seen <= |chain|
    && (forall id :: id in op.rows ==> EntryOk(op.rows[id]) && (id, op.rows[id].key) in op.claimed)
    && (forall id, k :: (id, k) in op.claimed ==>
                          id in op.rows && (op.rows[id].key == k || DeadKey(chain, op.seen, k)))
  }

  ghost predicate CallsOk(chain: seq<Block>, op: Operator) {
    forall c :: c in op.calls ==> CallOk(chain, op, op.calls[c])
  }

  ghost predicate ChainOk(f: Federation, w: World) {
    && (forall i, j :: 0 <= i < j < |w.chain| ==> w.chain[i].timeMs <= w.chain[j].timeMs)
    && (forall i, r :: 0 <= i < |w.chain| && r in w.chain[i].txs ==>
                         w.chain[i].timeMs <= r.expiresAtMs && Quorum(f, w, r.memo, VizTx(r)))
    && (forall i, j, r :: 0 <= i < j < |w.chain| && r in w.chain[i].txs ==> r !in w.chain[j].txs)
  }

  ghost predicate Inv(f: Federation, w: World) {
    && |w.ops| == f.n
    && ChainOk(f, w)
    && forall o :: 0 <= o < |w.ops| ==> LedgerOk(w.chain, w.ops[o]) && CallsOk(w.chain, w.ops[o])
  }

  // ---------- what a step keeps ----------

  lemma DeadStaysDead(chain: seq<Block>, seen: nat, chain': seq<Block>, seen': nat, r: Release)
    requires Dead(chain, seen, r) && chain <= chain' && seen <= seen' <= |chain'|
    requires forall i, j :: 0 <= i < j < |chain'| ==> chain'[i].timeMs <= chain'[j].timeMs
    requires forall i, s :: 0 <= i < |chain'| && s in chain'[i].txs ==> chain'[i].timeMs <= s.expiresAtMs
    ensures Dead(chain', seen', r) && !LandedIn(chain', r)
  {
    forall i | 0 <= i < |chain'| ensures r !in chain'[i].txs {
      if i < seen {
        assert chain[..seen][i] == chain'[i];
      }
    }
  }

  /** An operator's view and the chain may move on without disturbing its ledger. */
  lemma LedgerSurvivesTime(chain: seq<Block>, op: Operator, chain': seq<Block>, seen': nat)
    requires LedgerOk(chain, op) && CallsOk(chain, op)
    requires chain <= chain' && op.seen <= seen' <= |chain'|
    requires forall i, j :: 0 <= i < j < |chain'| ==> chain'[i].timeMs <= chain'[j].timeMs
    requires forall i, s :: 0 <= i < |chain'| && s in chain'[i].txs ==> chain'[i].timeMs <= s.expiresAtMs
    ensures LedgerOk(chain', op.(seen := seen')) && CallsOk(chain', op.(seen := seen'))
  {
    forall r | Dead(chain, op.seen, r) ensures Dead(chain', seen', r) {
      DeadStaysDead(chain, op.seen, chain', seen', r);
    }
  }

  lemma AddingApprovalsKeepsQuorum(f: Federation, w: World, w': World, id: string, k: Key)
    requires Quorum(f, w, id, k) && |w.ops| == |w'.ops|
    requires forall o :: 0 <= o < |w.ops| ==> w.ops[o].approved <= w'.ops[o].approved
    ensures Quorum(f, w', id, k)
  {
    var a, b := Approvers(f, w, id, k), Approvers(f, w', id, k);
    assert a <= b;
    SubsetSize(a, b);
  }

  lemma {:induction false} SubsetSize(a: set<nat>, b: set<nat>)
    requires a <= b
    ensures |a| <= |b|
    decreases a
  {
    if a != {} {
      var x :| x in a;
      SubsetSize(a - {x}, b - {x});
    }
  }

  lemma ResumeKeepsLedger(chain: seq<Block>, op: Operator, c: nat)
    requires LedgerOk(chain, op) && CallsOk(chain, op) && c in op.calls
    ensures LedgerOk(chain, ResumeCall(op, chain[..op.seen], c))
    ensures CallOk(chain, ResumeCall(op, chain[..op.seen], c), ResumeCall(op, chain[..op.seen], c).calls[c])
    ensures var op' := ResumeCall(op, chain[..op.seen], c);
            op'.seen == op.seen && op.claimed <= op'.claimed && op'.approved == op.approved
  {
    var call, op' := op.calls[c], ResumeCall(op, chain[..op.seen], c);
    assert CallOk(chain, op, call);
    var (rows', call') := Advance(op.rows, chain[..op.seen], call);
    if rows' != op.rows {
      assert rows' == op.rows[call.id := call.entry];
      assert (call.id, call.entry.key) in op'.claimed;
    }
  }

  lemma ResumeKeepsCalls(chain: seq<Block>, op: Operator, c: nat)
    requires LedgerOk(chain, op) && CallsOk(chain, op) && c in op.calls
    ensures CallsOk(chain, ResumeCall(op, chain[..op.seen], c))
  {
    ResumeKeepsLedger(chain, op, c);
    var op' := ResumeCall(op, chain[..op.seen], c);
    forall d | d in op'.calls ensures CallOk(chain, op', op'.calls[d]) {
      if d != c {
        assert CallOk(chain, op, op.calls[d]);
      }
    }
  }

  lemma ProduceKeepsInv(f: Federation, w: World, b: Block)
    requires Inv(f, w) && Admissible(f, w, b)
    ensures Inv(f, w.(chain := w.chain + [b]))
  {
    var w' := w.(chain := w.chain + [b]);
    forall i, r | 0 <= i < |w'.chain| && r in w'.chain[i].txs
      ensures w'.chain[i].timeMs <= r.expiresAtMs && Quorum(f, w', r.memo, VizTx(r))
    {
      AddingApprovalsKeepsQuorum(f, w, w', r.memo, VizTx(r));
    }
    forall i, j, r | 0 <= i < j < |w'.chain| && r in w'.chain[i].txs ensures r !in w'.chain[j].txs {
      assert j == |w.chain| && r in b.txs ==> !LandedIn(w.chain, r);
    }
    forall o | 0 <= o < |w'.ops| ensures LedgerOk(w'.chain, w'.ops[o]) && CallsOk(w'.chain, w'.ops[o]) {
      LedgerSurvivesTime(w.chain, w.ops[o], w'.chain, w.ops[o].seen);
      assert w'.ops[o] == w.ops[o].(seen := w.ops[o].seen);
    }
  }

  /** Replacing one operator by one whose ledger is in order keeps the invariant. */
  lemma OperatorStepKeepsInv(f: Federation, w: World, o: nat, op': Operator)
    requires Inv(f, w) && o < |w.ops|
    requires w.ops[o].approved <= op'.approved
    requires LedgerOk(w.chain, op') && CallsOk(w.chain, op')
    ensures Inv(f, w.(ops := w.ops[o := op']))
  {
    var w' := w.(ops := w.ops[o := op']);
    forall i, r | 0 <= i < |w'.chain| && r in w'.chain[i].txs ensures Quorum(f, w', r.memo, VizTx(r)) {
      AddingApprovalsKeepsQuorum(f, w, w', r.memo, VizTx(r));
    }
  }

  lemma SignKeepsLedger(chain: seq<Block>, op: Operator, c: nat, accounts: set<string>)
    requires LedgerOk(chain, op) && CallsOk(chain, op) && c in op.calls && op.calls[c].effect.Some?
    ensures LedgerOk(chain, SignCall(op, c, accounts)) && CallsOk(chain, SignCall(op, c, accounts))
  {
    var op' := SignCall(op, c, accounts);
    forall d | d in op'.calls ensures CallOk(chain, op', op'.calls[d]) {
      assert CallOk(chain, op, op.calls[d]);
    }
  }

  lemma BeginKeepsLedger(chain: seq<Block>, op: Operator, c: nat, a: Action, p: Proposal)
    requires LedgerOk(chain, op) && CallsOk(chain, op) && ProposalKey(p).Some?
    ensures LedgerOk(chain, BeginCall(op, c, a, p)) && CallsOk(chain, BeginCall(op, c, a, p))
  {
    var op' := BeginCall(op, c, a, p);
    forall d | d in op'.calls ensures CallOk(chain, op', op'.calls[d]) {
      if d != c {
        assert CallOk(chain, op, op.calls[d]);
      }
    }
  }

  lemma ReplacingCallKeepsOperator(chain: seq<Block>, op: Operator, c: nat, call: Call)
    requires LedgerOk(chain, op) && CallsOk(chain, op) && CallOk(chain, op, call)
    ensures LedgerOk(chain, op.(calls := op.calls[c := call])) && CallsOk(chain, op.(calls := op.calls[c := call]))
  {
    var op' := op.(calls := op.calls[c := call]);
    forall d | d in op'.calls ensures CallOk(chain, op', op'.calls[d]) {
      if d != c {
        assert CallOk(chain, op, op.calls[d]);
      }
    }
  }

  lemma StepKeepsInv(f: Federation, w: World, e: Event)
    requires Inv(f, w) && Enabled(f, w, e)
    ensures Inv(f, Next(f, w, e))
  {
    match e
    case Produce(b) => ProduceKeepsInv(f, w, b);
    case Sync(o, seen) =>
      LedgerSurvivesTime(w.chain, w.ops[o], w.chain, seen);
      OperatorStepKeepsInv(f, w, o, w.ops[o].(seen := seen));
    case Begin(o, c, a, p) =>
      BeginKeepsLedger(w.chain, w.ops[o], c, a, p);
      OperatorStepKeepsInv(f, w, o, BeginCall(w.ops[o], c, a, p));
    case Resume(o, c) =>
      ResumeKeepsLedger(w.chain, w.ops[o], c);
      ResumeKeepsCalls(w.chain, w.ops[o], c);
      OperatorStepKeepsInv(f, w, o, ResumeCall(w.ops[o], w.chain[..w.ops[o].seen], c));
    case Throw(o, c) =>
      var call := w.ops[o].calls[c].(stage := Closed);
      assert CallOk(w.chain, w.ops[o], w.ops[o].calls[c]);
      ReplacingCallKeepsOperator(w.chain, w.ops[o], c, call);
      OperatorStepKeepsInv(f, w, o, w.ops[o].(calls := w.ops[o].calls[c := call]));
    case Sign(o, c) =>
      var accounts := Accounts(w.chain, w.ops[o].seen);
      SignKeepsLedger(w.chain, w.ops[o], c, accounts);
      OperatorStepKeepsInv(f, w, o, SignCall(w.ops[o], c, accounts));
  }

  lemma {:induction false} RunKeepsInv(f: Federation, ws: seq<World>, i: nat)
    requires Run(f, ws) && i < |ws|
    ensures Inv(f, ws[i])
  {
    if i > 0 {
      RunKeepsInv(f, ws, i - 1);
      assert Step(f, ws[i - 1], ws[i - 1 + 1]);
      var e :| Enabled(f, ws[i - 1], e) && ws[i] == Next(f, ws[i - 1], e);
      StepKeepsInv(f, ws[i - 1], e);
    }
  }

  // ---------- what an operator has signed ----------

  /** The request for this action under this key, with this effect if it is signed. */
  predicate Behind(a: Action, p: Proposal, id: string, key: Key, effect: Option<Key>) {
    a.id == id && ProposalKey(p).Some? && ProposalKey(p).value.0 == key && SignedEffect(a, p) == effect
  }

  /** It was asked for just that. */
  ghost predicate WasAsked(op: Operator, id: string, key: Key, effect: Option<Key>) {
    exists a, p :: (a, p) in op.asked && Behind(a, p, id, key, effect)
  }

  /** Every signature goes back to a request whose key the ledger recorded, and every pending call to a request. */
  ghost predicate Traced(op: Operator) {
    && (forall c :: c in op.calls ==> WasAsked(op, op.calls[c].id, op.calls[c].entry.key, op.calls[c].effect))
    && (forall id, k :: (id, k) in op.approved ==> exists key :: (id, key) in op.claimed && WasAsked(op, id, key, Some(k)))
  }

  lemma BeginKeepsTraced(op: Operator, c: nat, a: Action, p: Proposal)
    requires Traced(op) && ProposalKey(p).Some?
    ensures Traced(BeginCall(op, c, a, p))
  {
    var op' := BeginCall(op, c, a, p);
    assert (a, p) in op'.asked && Behind(a, p, a.id, ProposalKey(p).value.0, SignedEffect(a, p));
    AskedMoreTraced(op, op');
    forall d | d in op'.calls ensures WasAsked(op', op'.calls[d].id, op'.calls[d].entry.key, op'.calls[d].effect) {
      if d != c {
        StillAsked(op, op', op.calls[d].id, op.calls[d].entry.key, op.calls[d].effect);
      }
    }
  }

  lemma StillAsked(op: Operator, op': Operator, id: string, key: Key, effect: Option<Key>)
    requires WasAsked(op, id, key, effect) && op.asked <= op'.asked
    ensures WasAsked(op', id, key, effect)
  {
    var a, p :| (a, p) in op.asked && Behind(a, p, id, key, effect);
    assert (a, p) in op'.asked;
  }

  lemma AskedMoreTraced(op: Operator, op': Operator)
    requires Traced(op) && op.asked <= op'.asked && op.claimed <= op'.claimed && op'.approved == op.approved
    ensures forall id, k :: (id, k) in op'.approved ==> exists key :: (id, key) in op'.claimed && WasAsked(op', id, key, Some(k))
  {
    forall id, k | (id, k) in op'.approved
      ensures exists key :: (id, key) in op'.claimed && WasAsked(op', id, key, Some(k))
    {
      var key :| (id, key) in op.claimed && WasAsked(op, id, key, Some(k));
      StillAsked(op, op', id, key, Some(k));
    }
  }

  lemma SignKeepsTraced(chain: seq<Block>, op: Operator, c: nat, accounts: set<string>)
    requires Traced(op) && CallsOk(chain, op) && c in op.calls && op.calls[c].stage.Cleared? && op.calls[c].effect.Some?
    ensures Traced(SignCall(op, c, accounts))
  {
    var op', call := SignCall(op, c, accounts), op.calls[c];
    assert CallOk(chain, op, call);
    forall d | d in op'.calls ensures WasAsked(op', op'.calls[d].id, op'.calls[d].entry.key, op'.calls[d].effect) {
      StillAsked(op, op', op.calls[d].id, op.calls[d].entry.key, op.calls[d].effect);
    }
    forall id, k | (id, k) in op'.approved
      ensures exists key :: (id, key) in op'.claimed && WasAsked(op', id, key, Some(k))
    {
      if (id, k) in op.approved {
        var key :| (id, key) in op.claimed && WasAsked(op, id, key, Some(k));
        StillAsked(op, op', id, key, Some(k));
      } else {
        assert (id, call.entry.key) in op'.claimed && WasAsked(op', id, call.entry.key, Some(k));
      }
    }
  }

  lemma ResumeKeepsTraced(chain: seq<Block>, op: Operator, c: nat)
    requires Traced(op) && c in op.calls
    ensures Traced(ResumeCall(op, chain[..if op.seen <= |chain| then op.seen else 0], c))
  {
    var op' := ResumeCall(op, chain[..if op.seen <= |chain| then op.seen else 0], c);
    AskedMoreTraced(op, op');
    forall d | d in op'.calls ensures WasAsked(op', op'.calls[d].id, op'.calls[d].entry.key, op'.calls[d].effect) {
      StillAsked(op, op', op.calls[d].id, op.calls[d].entry.key, op.calls[d].effect);
    }
  }

  lemma CloseKeepsTraced(op: Operator, c: nat)
    requires Traced(op) && c in op.calls
    ensures Traced(op.(calls := op.calls[c := op.calls[c].(stage := Closed)]))
  {
    var op' := op.(calls := op.calls[c := op.calls[c].(stage := Closed)]);
    AskedMoreTraced(op, op');
    forall d | d in op'.calls ensures WasAsked(op', op'.calls[d].id, op'.calls[d].entry.key, op'.calls[d].effect) {
      StillAsked(op, op', op.calls[d].id, op.calls[d].entry.key, op.calls[d].effect);
    }
  }

  lemma StepKeepsTraced(f: Federation, w: World, e: Event, o: nat)
    requires Inv(f, w) && Enabled(f, w, e) && o < |w.ops| && Traced(w.ops[o])
    ensures o < |Next(f, w, e).ops| && Traced(Next(f, w, e).ops[o])
  {
    if e.Begin? && e.op == o {
      BeginKeepsTraced(w.ops[o], e.call, e.action, e.proposal);
    } else if e.Sign? && e.op == o {
      SignKeepsTraced(w.chain, w.ops[o], e.call, Accounts(w.chain, w.ops[o].seen));
    } else if e.Resume? && e.op == o {
      ResumeKeepsTraced(w.chain, w.ops[o], e.call);
    } else if e.Throw? && e.op == o {
      CloseKeepsTraced(w.ops[o], e.call);
    } else if e.Sync? && e.op == o {
      SyncKeepsTraced(w.ops[o], e.seen);
    }
  }

  lemma SyncKeepsTraced(op: Operator, seen: nat)
    requires Traced(op)
    ensures Traced(op.(seen := seen))
  {
    var op' := op.(seen := seen);
    AskedMoreTraced(op, op');
    forall d | d in op'.calls ensures WasAsked(op', op'.calls[d].id, op'.calls[d].entry.key, op'.calls[d].effect) {
      StillAsked(op, op', op.calls[d].id, op.calls[d].entry.key, op.calls[d].effect);
    }
  }

  /** Whatever an operator has signed, for whatever requests, goes back to one whose key its ledger recorded. */
  lemma {:induction false} SignaturesAreTraced(f: Federation, ws: seq<World>, i: nat, o: nat)
    requires Run(f, ws) && i < |ws| && o < |ws[i].ops|
    ensures Traced(ws[i].ops[o])
  {
    if i > 0 {
      RunKeepsInv(f, ws, i - 1);
      RunKeepsInv(f, ws, i);
      assert Step(f, ws[i - 1], ws[i - 1 + 1]);
      var e :| Enabled(f, ws[i - 1], e) && ws[i] == Next(f, ws[i - 1], e);
      SignaturesAreTraced(f, ws, i - 1, o);
      StepKeepsTraced(f, ws[i - 1], e, o);
    }
  }

  /**
   The operator was never asked, for something it would sign, with the marker fields of a chain
   that its action is not routed to. Nothing in the signer checks this.
   */
  ghost predicate WellAsked(op: Operator) {
    forall a, p :: (a, p) in op.asked && SignedEffect(a, p).Some? ==> ShapeMatchesDirection(a, p)
  }

  /** Then it has signed only what its ledger recorded. */
  lemma WellAskedSignsItsKeys(f: Federation, ws: seq<World>, i: nat, o: nat)
    requires Run(f, ws) && i < |ws| && o < |ws[i].ops| && WellAsked(ws[i].ops[o])
    ensures forall id, k :: (id, k) in ws[i].ops[o].approved ==> (id, k) in ws[i].ops[o].claimed
  {
    var op := ws[i].ops[o];
    SignaturesAreTraced(f, ws, i, o);
    forall id, k | (id, k) in op.approved ensures (id, k) in op.claimed {
      var key :| (id, key) in op.claimed && WasAsked(op, id, key, Some(k));
      var a, p :| (a, p) in op.asked && Behind(a, p, id, key, Some(k));
      KeyNamesEffectIffShapeMatches(a, p);
    }
  }

  lemma AskedGrows(f: Federation, w: World, e: Event, o: nat)
    requires Enabled(f, w, e) && o < |w.ops|
    ensures o < |Next(f, w, e).ops| && w.ops[o].asked <= Next(f, w, e).ops[o].asked
  {
  }

  lemma {:induction false} AskedGrowsOverRun(f: Federation, ws: seq<World>, i: nat, j: nat, o: nat)
    requires Run(f, ws) && i <= j < |ws| && o < |ws[i].ops|
    ensures o < |ws[j].ops| && ws[i].ops[o].asked <= ws[j].ops[o].asked
    decreases j
  {
    if i < j {
      AskedGrowsOverRun(f, ws, i, j - 1, o);
      assert Step(f, ws[j - 1], ws[j - 1 + 1]);
      var e :| Enabled(f, ws[j - 1], e) && ws[j] == Next(f, ws[j - 1], e);
      AskedGrows(f, ws[j - 1], e, o);
    }
  }

  /** No honest operator has been asked out of shape. */
  ghost predicate HonestWellAsked(f: Federation, w: World) {
    forall o :: 0 <= o < |w.ops| && o !in f.dishonest ==> WellAsked(w.ops[o])
  }

  // ---------- quorums ----------

  lemma {:induction false} UpTo(s: set<nat>, n: nat)
    requires forall x :: x in s ==> x < n
    ensures |s| <= n
  {
    if n > 0 {
      UpTo(s - {n - 1}, n - 1);
      assert s <= (s - {n - 1}) + {n - 1};
      SubsetSize(s, (s - {n - 1}) + {n - 1});
    }
  }

  /** Two quorums of a federation with fewer than 2T - N dishonest members share an honest one. */
  lemma QuorumsShareHonest(f: Federation, a: set<nat>, b: set<nat>) returns (o: nat)
    requires f.n + |f.dishonest| < 2 * f.threshold
    requires |a| >= f.threshold && |b| >= f.threshold
    requires forall x :: x in a + b ==> x < f.n
    ensures o in a && o in b && o !in f.dishonest
  {
    assert |a + b| + |a * b| == |a| + |b|;
    UpTo(a + b, f.n);
    if a * b <= f.dishonest {
      SubsetSize(a * b, f.dishonest);
      assert false;
    }
    o :| o in a * b && o !in f.dishonest;
  }

  /**
   For one action, two different effects never both hold a quorum of approvals unless one of
   them is a release that some honest operator's node proves can never land. In particular two
   GRAM orders, or two Solana messages, never both reach the threshold for one action.
   */
  lemma TwoQuorumsOneDead(f: Federation, ws: seq<World>, i: nat, id: string, k: Key, k': Key)
    requires Run(f, ws) && i < |ws| && f.n + |f.dishonest| < 2 * f.threshold && HonestWellAsked(f, ws[i])
    requires k != k' && Quorum(f, ws[i], id, k) && Quorum(f, ws[i], id, k')
    ensures exists o :: 0 <= o < f.n && o !in f.dishonest && |ws[i].ops| == f.n
                        && (DeadKey(ws[i].chain, ws[i].ops[o].seen, k) || DeadKey(ws[i].chain, ws[i].ops[o].seen, k'))
  {
    RunKeepsInv(f, ws, i);
    var o := QuorumsShareHonest(f, Approvers(f, ws[i], id, k), Approvers(f, ws[i], id, k'));
    WellAskedSignsItsKeys(f, ws, i, o);
    assert LedgerOk(ws[i].chain, ws[i].ops[o]);
    assert (id, k) in ws[i].ops[o].claimed && (id, k') in ws[i].ops[o].claimed;
  }

  lemma LandedIsNotDead(f: Federation, w: World, i: nat, r: Release)
    requires Inv(f, w) && i < |w.chain| && r in w.chain[i].txs
    ensures forall o :: 0 <= o < |w.ops| ==> !DeadKey(w.chain, w.ops[o].seen, VizTx(r))
  {
    forall o | 0 <= o < |w.ops| ensures !Dead(w.chain, w.ops[o].seen, r) {
      if Dead(w.chain, w.ops[o].seen, r) {
        DeadStaysDead(w.chain, w.ops[o].seen, w.chain, w.ops[o].seen, r);
        assert false;
      }
    }
  }

  /** Two requests for one action, recorded under one key, that would sign two different releases of it. */
  ghost predicate Clash(f: Federation, x: (Action, Proposal), y: (Action, Proposal), r: Release, s: Release) {
    && r != s && r.memo == s.memo && f.genuine(r) && f.genuine(s)
    && exists key :: Behind(x.0, x.1, r.memo, key, Some(VizTx(r))) && Behind(y.0, y.1, s.memo, key, Some(VizTx(s)))
  }

  /** A release recorded under a VIZ key is recorded as itself. */
  lemma VizKeyIsItself(a: Action, p: Proposal, id: string, key: Key, r: Release)
    requires Behind(a, p, id, key, Some(VizTx(r))) && key.VizTx?
    ensures key == VizTx(r)
  {
  }

  /** Two different releases landed under one memo were asked of one honest operator in clashing requests. */
  lemma TwoLandedClash(f: Federation, ws: seq<World>, k: nat, i: nat, j: nat, r: Release, s: Release)
    returns (o: nat, x: (Action, Proposal), y: (Action, Proposal))
    requires Run(f, ws) && k < |ws| && f.n + |f.dishonest| < 2 * f.threshold
    requires i < |ws[k].chain| && r in ws[k].chain[i].txs
    requires j < |ws[k].chain| && s in ws[k].chain[j].txs
    requires r != s && r.memo == s.memo
    ensures o < |ws[k].ops| && o !in f.dishonest && x in ws[k].ops[o].asked && y in ws[k].ops[o].asked
    ensures Clash(f, x, y, r, s)
  {
    var w, id := ws[k], r.memo;
    RunKeepsInv(f, ws, k);
    o := QuorumsShareHonest(f, Approvers(f, w, id, VizTx(r)), Approvers(f, w, id, VizTx(s)));
    SignaturesAreTraced(f, ws, k, o);
    ApprovalsStayGenuine(f, ws, k);
    var op := w.ops[o];
    var key :| (id, key) in op.claimed && WasAsked(op, id, key, Some(VizTx(r)));
    var key' :| (id, key') in op.claimed && WasAsked(op, id, key', Some(VizTx(s)));
    var a, p :| (a, p) in op.asked && Behind(a, p, id, key, Some(VizTx(r)));
    var b, q :| (b, q) in op.asked && Behind(b, q, id, key', Some(VizTx(s)));
    x, y := (a, p), (b, q);
    BothLandedOneKey(f, w, o, i, j, r, s, key, key', x, y);
    assert Behind(x.0, x.1, id, key, Some(VizTx(r))) && Behind(y.0, y.1, id, key, Some(VizTx(s)));
  }

  lemma BothLandedOneKey(f: Federation, w: World, o: nat, i: nat, j: nat, r: Release, s: Release, key: Key, key': Key,
                         x: (Action, Proposal), y: (Action, Proposal))
    requires Inv(f, w) && o < |w.ops|
    requires i < |w.chain| && r in w.chain[i].txs && j < |w.chain| && s in w.chain[j].txs
    requires (r.memo, key) in w.ops[o].claimed && (r.memo, key') in w.ops[o].claimed
    requires Behind(x.0, x.1, r.memo, key, Some(VizTx(r))) && Behind(y.0, y.1, r.memo, key', Some(VizTx(s)))
    ensures key == key'
  {
    LandedIsNotDead(f, w, i, r);
    LandedIsNotDead(f, w, j, s);
    assert LedgerOk(w.chain, w.ops[o]);
    if key != key' {
      if key.VizTx? { VizKeyIsItself(x.0, x.1, r.memo, key, r); }
      if key'.VizTx? { VizKeyIsItself(y.0, y.1, r.memo, key', s); }
    }
  }

  lemma OneBlock(f: Federation, w: World, i: nat, j: nat, r: Release)
    requires ChainOk(f, w) && i < |w.chain| && j < |w.chain| && r in w.chain[i].txs && r in w.chain[j].txs
    ensures i == j
  {
  }

  /**
   Safety over whole runs: as long as the coordinator sent honest operators no proposal with
   another chain's marker fields, releases that landed with the same memo, the action id, are one
   transfer in one block, whatever else it did and however calls interleaved. This is what a signer
   could check request by request; the exact condition is `ReleaseLimits.AtMostOneLandsIff`.
   */
  lemma AtMostOneReleaseLands(f: Federation, ws: seq<World>, k: nat, i: nat, j: nat, r: Release, s: Release)
    requires Run(f, ws) && k < |ws| && f.n + |f.dishonest| < 2 * f.threshold && HonestWellAsked(f, ws[k])
    requires 0 <= i < |ws[k].chain| && r in ws[k].chain[i].txs
    requires 0 <= j < |ws[k].chain| && s in ws[k].chain[j].txs
    requires r.memo == s.memo
    ensures r == s && i == j
  {
    RunKeepsInv(f, ws, k);
    if r != s {
      var o, x, y := TwoLandedClash(f, ws, k, i, j, r, s);
      WellAskedDoNotClash(f, ws[k].ops[o], x, y, r, s);
      assert false;
    }
    OneBlock(f, ws[k], i, j, r);
  }

  lemma WellAskedDoNotClash(f: Federation, op: Operator, x: (Action, Proposal), y: (Action, Proposal), r: Release, s: Release)
    requires WellAsked(op) && x in op.asked && y in op.asked
    ensures !Clash(f, x, y, r, s)
  {
    if Clash(f, x, y, r, s) {
      KeyNamesEffectIffShapeMatches(x.0, x.1);
      KeyNamesEffectIffShapeMatches(y.0, y.1);
    }
  }

  // ---------- one operator's ledger over a run ----------

  lemma StepMonotone(f: Federation, w: World, e: Event, o: nat)
    requires Inv(f, w) && Enabled(f, w, e) && o < |w.ops|
    ensures var w' := Next(f, w, e);
            && |w'.ops| == |w.ops| && w.chain <= w'.chain
            && w.ops[o].claimed <= w'.ops[o].claimed && w.ops[o].seen <= w'.ops[o].seen
            && (forall id :: id in w.ops[o].rows && !w.ops[o].rows[id].key.VizTx? ==>
                               id in w'.ops[o].rows && w'.ops[o].rows[id].key == w.ops[o].rows[id].key)
  {
    if e.Resume? && e.op == o {
      assert CallOk(w.chain, w.ops[o], w.ops[o].calls[e.call]);
    }
  }

  lemma {:induction false} RunMonotone(f: Federation, ws: seq<World>, i: nat, j: nat, o: nat)
    requires Run(f, ws) && i <= j < |ws| && o < f.n
    ensures Inv(f, ws[i]) && Inv(f, ws[j])
    ensures ws[i].chain <= ws[j].chain && ws[i].ops[o].seen <= ws[j].ops[o].seen
    ensures ws[i].ops[o].claimed <= ws[j].ops[o].claimed
    ensures forall id :: id in ws[i].ops[o].rows && !ws[i].ops[o].rows[id].key.VizTx? ==>
                           id in ws[j].ops[o].rows && ws[j].ops[o].rows[id].key == ws[i].ops[o].rows[id].key
    decreases j - i
  {
    RunKeepsInv(f, ws, i);
    if i < j {
      assert Step(f, ws[i], ws[i + 1]);
      var e :| Enabled(f, ws[i], e) && ws[i + 1] == Next(f, ws[i], e);
      StepMonotone(f, ws[i], e, o);
      RunMonotone(f, ws, i + 1, j, o);
    }
  }

  /**
   A key once claimed for an action is, from then on, either still the row's key or a release
   that this operator's node shows expired and that no later state of the run contains.
   */
  lemma ClaimedKeyIsCurrentOrNeverLands(f: Federation, ws: seq<World>, i: nat, j: nat, o: nat, id: string, k: Key)
    requires Run(f, ws) && i <= j < |ws| && o < f.n && o < |ws[i].ops|
    requires (id, k) in ws[i].ops[o].claimed && id in ws[i].ops[o].rows && ws[i].ops[o].rows[id].key != k
    ensures k.VizTx? && !LandedIn(ws[j].chain, k.release)
    ensures ws[i].ops[o].seen > 0 && ws[i].ops[o].seen <= |ws[i].chain|
            && k.release.expiresAtMs + 60_000 < ws[i].chain[ws[i].ops[o].seen - 1].timeMs
  {
    RunKeepsInv(f, ws, i);
    SupersededIsDead(ws[i].chain, ws[i].ops[o], id, k);
    BuriedNeverLands(f, ws, i, j, o, k);
  }

  lemma SupersededIsDead(chain: seq<Block>, op: Operator, id: string, k: Key)
    requires LedgerOk(chain, op) && (id, k) in op.claimed && id in op.rows && op.rows[id].key != k
    ensures DeadKey(chain, op.seen, k)
  {
  }

  /** A GRAM or Solana row is permanent: no later state of the run records another key for it. */
  lemma RemoteRowIsPermanent(f: Federation, ws: seq<World>, i: nat, j: nat, o: nat, id: string)
    requires Run(f, ws) && i <= j < |ws| && o < f.n && o < |ws[i].ops| && o < |ws[j].ops|
    requires id in ws[i].ops[o].rows && !ws[i].ops[o].rows[id].key.VizTx?
    ensures id in ws[j].ops[o].rows && ws[j].ops[o].rows[id].key == ws[i].ops[o].rows[id].key
  {
    RunMonotone(f, ws, i, j, o);
  }

  // ---------- what lands is what was vouched for ----------

  ghost predicate ApprovedGenuine(f: Federation, w: World) {
    forall o, id, k :: 0 <= o < |w.ops| && (id, k) in w.ops[o].approved && k.VizTx? ==> f.genuine(k.release)
  }

  lemma {:induction false} ApprovalsStayGenuine(f: Federation, ws: seq<World>, i: nat)
    requires Run(f, ws) && i < |ws|
    ensures ApprovedGenuine(f, ws[i])
  {
    if i > 0 {
      ApprovalsStayGenuine(f, ws, i - 1);
      assert Step(f, ws[i - 1], ws[i - 1 + 1]);
      var e :| Enabled(f, ws[i - 1], e) && ws[i] == Next(f, ws[i - 1], e);
    }
  }

  /** With fewer than the threshold dishonest, nothing lands that an honest operator did not find genuine. */
  lemma LandedIsGenuine(f: Federation, ws: seq<World>, k: nat, i: nat, r: Release)
    requires Run(f, ws) && k < |ws| && |f.dishonest| < f.threshold
    requires i < |ws[k].chain| && r in ws[k].chain[i].txs
    ensures f.genuine(r)
  {
    RunKeepsInv(f, ws, k);
    ApprovalsStayGenuine(f, ws, k);
    var a := Approvers(f, ws[k], r.memo, VizTx(r));
    if a <= f.dishonest {
      SubsetSize(a, f.dishonest);
      assert false;
    }
    var o :| o in a && o !in f.dishonest;
    assert (r.memo, VizTx(r)) in ws[k].ops[o].approved;
  }

  /** A transfer lands only to an account that exists. */
  lemma {:induction false} LandedHasAccount(f: Federation, ws: seq<World>, k: nat, i: nat, r: Release)
    requires Run(f, ws) && k < |ws| && i < |ws[k].chain| && r in ws[k].chain[i].txs
    ensures r.to in ws[k].chain[i].accounts
  {
    if k > 0 {
      assert Step(f, ws[k - 1], ws[k - 1 + 1]);
      var e :| Enabled(f, ws[k - 1], e) && ws[k] == Next(f, ws[k - 1], e);
      if i < |ws[k - 1].chain| {
        LandedHasAccount(f, ws, k - 1, i, r);
      }
    }
  }

  /** Each approval was given seeing some accounts, and an order's only seeing accounts that let it be. */
  ghost predicate ApprovedSeeing(f: Federation, op: Operator) {
    && (forall id, k :: (id, k) in op.approved ==> exists accounts :: (id, k, accounts) in op.saw)
    && (forall id, k, accounts :: (id, k, accounts) in op.saw && k.GramOrder? ==> f.approves(id, accounts))
  }

  lemma SignKeepsSeeing(f: Federation, op: Operator, c: nat, accounts: set<string>)
    requires ApprovedSeeing(f, op) && c in op.calls && MaySign(f, op.calls[c], accounts)
    ensures ApprovedSeeing(f, SignCall(op, c, accounts))
  {
    var op', call := SignCall(op, c, accounts), op.calls[c];
    forall id, k | (id, k) in op'.approved ensures exists v :: (id, k, v) in op'.saw {
      if (id, k) in op.approved {
        var v :| (id, k, v) in op.saw;
        assert (id, k, v) in op'.saw;
      } else {
        assert (id, k, accounts) in op'.saw;
      }
    }
  }

  lemma StepKeepsSeeing(f: Federation, w: World, e: Event, o: nat)
    requires Enabled(f, w, e) && o < |w.ops| && ApprovedSeeing(f, w.ops[o])
    ensures o < |Next(f, w, e).ops| && ApprovedSeeing(f, Next(f, w, e).ops[o])
  {
    if e.Sign? && e.op == o {
      SignKeepsSeeing(f, w.ops[o], e.call, Accounts(w.chain, w.ops[o].seen));
    }
  }

  lemma {:induction false} ApprovalsSaw(f: Federation, ws: seq<World>, i: nat, o: nat)
    requires Run(f, ws) && i < |ws| && o < |ws[i].ops|
    ensures ApprovedSeeing(f, ws[i].ops[o])
  {
    if i > 0 {
      RunKeepsInv(f, ws, i - 1);
      RunKeepsInv(f, ws, i);
      ApprovalsSaw(f, ws, i - 1, o);
      assert Step(f, ws[i - 1], ws[i - 1 + 1]);
      var e :| Enabled(f, ws[i - 1], e) && ws[i] == Next(f, ws[i - 1], e);
      StepKeepsSeeing(f, ws[i - 1], e, o);
    }
  }

  /** An honest operator approved this order while its node showed these accounts. */
  ghost predicate HonestApprovedSeeing(f: Federation, w: World, id: string, k: Key, accounts: set<string>) {
    exists o :: 0 <= o < |w.ops| && o !in f.dishonest && (id, k, accounts) in w.ops[o].saw
  }

  lemma SeenLetItApprove(f: Federation, ws: seq<World>, i: nat, id: string, k: Key, accounts: set<string>)
    requires Run(f, ws) && i < |ws| && k.GramOrder? && HonestApprovedSeeing(f, ws[i], id, k, accounts)
    ensures f.approves(id, accounts)
  {
    var o :| 0 <= o < |ws[i].ops| && o !in f.dishonest && (id, k, accounts) in ws[i].ops[o].saw;
    ApprovalsSaw(f, ws, i, o);
  }

  /** With fewer than the threshold dishonest, an order with a quorum was approved by an honest operator that saw what it needed to. */
  lemma OrderWasApproved(f: Federation, ws: seq<World>, i: nat, id: string, k: Key) returns (accounts: set<string>)
    requires Run(f, ws) && i < |ws| && |f.dishonest| < f.threshold && k.GramOrder? && Quorum(f, ws[i], id, k)
    ensures HonestApprovedSeeing(f, ws[i], id, k, accounts) && f.approves(id, accounts)
  {
    var a := Approvers(f, ws[i], id, k);
    if a <= f.dishonest {
      SubsetSize(a, f.dishonest);
      assert false;
    }
    var o :| o in a && o !in f.dishonest;
    ApprovalsSaw(f, ws, i, o);
    accounts :| (id, k, accounts) in ws[i].ops[o].saw;
  }

  // ---------- the last body with a quorum is the only one to look up ----------

  /** A claim writes the row. */
  lemma ClaimSetsRow(f: Federation, w: World, e: Event, o: nat, id: string, k: Key)
    requires Inv(f, w) && Enabled(f, w, e) && o < |w.ops|
    requires (id, k) !in w.ops[o].claimed && (id, k) in Next(f, w, e).ops[o].claimed
    ensures var op := Next(f, w, e).ops[o]; id in op.rows && op.rows[id].key == k
  {
    if e.Resume? && e.op == o {
      assert CallOk(w.chain, w.ops[o], w.ops[o].calls[e.call]);
    }
  }

  /** When an operator claims a new key for an action, every key it claimed before is dead. */
  lemma ClaimStepBuries(f: Federation, w: World, w': World, o: nat, id: string, k: Key, k': Key)
    requires Inv(f, w) && Inv(f, w') && Step(f, w, w') && o < |w.ops| && o < |w'.ops| && k != k'
    requires (id, k) in w'.ops[o].claimed && (id, k') !in w.ops[o].claimed && (id, k') in w'.ops[o].claimed
    ensures DeadKey(w'.chain, w'.ops[o].seen, k)
  {
    var e :| Enabled(f, w, e) && w' == Next(f, w, e);
    ClaimSetsRow(f, w, e, o, id, k');
    assert LedgerOk(w'.chain, w'.ops[o]);
  }

  lemma LastStepBuries(f: Federation, ws: seq<World>, j: nat, o: nat, id: string, k: Key, k': Key)
    requires Run(f, ws) && 0 < j < |ws| && k != k' && o < |ws[j - 1].ops| && o < |ws[j].ops|
    requires (id, k) in ws[j].ops[o].claimed && (id, k') in ws[j].ops[o].claimed && (id, k') !in ws[j - 1].ops[o].claimed
    ensures DeadKey(ws[j].chain, ws[j].ops[o].seen, k)
  {
    var w, w' := ws[j - 1], ws[j];
    StepInto(f, ws, j);
    RunKeepsInv(f, ws, j);
    RunKeepsInv(f, ws, j - 1);
    ClaimStepBuries(f, w, w', o, id, k, k');
  }

  lemma StepInto(f: Federation, ws: seq<World>, j: nat)
    requires Run(f, ws) && 0 < j < |ws|
    ensures Step(f, ws[j - 1], ws[j])
  {
    assert Step(f, ws[j - 1], ws[j - 1 + 1]);
  }

  lemma {:induction false} NewClaimBuries(f: Federation, ws: seq<World>, i: nat, j: nat, o: nat, id: string, k: Key, k': Key)
    returns (m: nat)
    requires Run(f, ws) && i <= j < |ws| && o < f.n && o < |ws[i].ops| && o < |ws[j].ops| && k != k'
    requires (id, k) in ws[i].ops[o].claimed && (id, k') !in ws[i].ops[o].claimed
    requires (id, k') in ws[j].ops[o].claimed
    ensures i < m <= j && o < |ws[m].ops| && DeadKey(ws[m].chain, ws[m].ops[o].seen, k)
    decreases j
  {
    ClaimedIsKept(f, ws, i, j - 1, o);
    if (id, k') in ws[j - 1].ops[o].claimed {
      m := NewClaimBuries(f, ws, i, j - 1, o, id, k, k');
    } else {
      m := j;
      ClaimedIsKept(f, ws, i, j, o);
      LastStepBuries(f, ws, j, o, id, k, k');
    }
  }

  lemma ClaimedIsKept(f: Federation, ws: seq<World>, i: nat, j: nat, o: nat)
    requires Run(f, ws) && i <= j < |ws| && o < f.n
    ensures o < |ws[i].ops| && o < |ws[j].ops| && ws[i].ops[o].claimed <= ws[j].ops[o].claimed
  {
    RunMonotone(f, ws, i, j, o);
  }

  lemma BuriedNeverLands(f: Federation, ws: seq<World>, m: nat, n: nat, o: nat, k: Key)
    requires Run(f, ws) && m <= n < |ws| && o < f.n && o < |ws[m].ops|
    requires DeadKey(ws[m].chain, ws[m].ops[o].seen, k)
    ensures !LandedIn(ws[n].chain, k.release)
  {
    RunMonotone(f, ws, m, n, o);
    DeadStaysDead(ws[m].chain, ws[m].ops[o].seen, ws[n].chain, ws[n].ops[o].seen, k.release);
  }

  /** Two quorums, at two times, have an honest operator that claimed both keys by then. */
  lemma SharedClaims(f: Federation, ws: seq<World>, i: nat, j: nat, id: string, k: Key, k': Key) returns (o: nat)
    requires Run(f, ws) && i < |ws| && j < |ws| && f.n + |f.dishonest| < 2 * f.threshold
    requires HonestWellAsked(f, ws[i]) && HonestWellAsked(f, ws[j])
    requires Quorum(f, ws[i], id, k) && Quorum(f, ws[j], id, k')
    ensures o < f.n == |ws[i].ops| == |ws[j].ops|
    ensures (id, k) in ws[i].ops[o].claimed && (id, k') in ws[j].ops[o].claimed
  {
    RunKeepsInv(f, ws, i);
    RunKeepsInv(f, ws, j);
    o := QuorumsShareHonest(f, Approvers(f, ws[i], id, k), Approvers(f, ws[j], id, k'));
    WellAskedSignsItsKeys(f, ws, i, o);
    WellAskedSignsItsKeys(f, ws, j, o);
  }

  /**
   When a body first proposed after `k` had its quorum gathers a quorum of its own, `k` is a
   release that has not landed and never will: of the ids persisted before each broadcast,
   the last is the only one that can be on chain.
   */
  lemma LaterQuorumBuriesEarlier(f: Federation, ws: seq<World>, i: nat, j: nat, n: nat, id: string, k: Key, k': Key)
    requires Run(f, ws) && i <= j <= n < |ws| && f.n + |f.dishonest| < 2 * f.threshold
    requires HonestWellAsked(f, ws[j])
    requires k != k' && Quorum(f, ws[i], id, k) && Quorum(f, ws[j], id, k')
    requires forall o :: 0 <= o < |ws[i].ops| ==> (id, k') !in ws[i].ops[o].claimed
    ensures k.VizTx? && !LandedIn(ws[n].chain, k.release)
  {
    forall o | 0 <= o < |ws[i].ops| && o !in f.dishonest ensures WellAsked(ws[i].ops[o]) {
      AskedGrowsOverRun(f, ws, i, j, o);
    }
    var o := SharedClaims(f, ws, i, j, id, k, k');
    var m := NewClaimBuries(f, ws, i, j, o, id, k, k');
    BuriedNeverLands(f, ws, m, n, o, k);
  }
}
