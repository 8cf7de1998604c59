/**
 Where the release protocol's law ends: exactly which requests let two releases of one action land,
 and the runs in which two requests are signed side by side.
 */
module ReleaseLimits {
  import opened Wrappers
  import opened ReplayLedger
  import opened ReleaseProtocol

  ghost predicate Reaches(f: Federation, w: World) {
    exists ws :: Run(f, ws) && ws[|ws| - 1] == w
  }

  lemma ReachStep(f: Federation, w: World, e: Event)
    requires Reaches(f, w) && Enabled(f, w, e)
    ensures Reaches(f, Next(f, w, e))
  {
    var ws :| Run(f, ws) && ws[|ws| - 1] == w;
    var more := ws + [Next(f, w, e)];
    assert Step(f, w, Next(f, w, e));
    forall i | 0 <= i < |more| - 1 ensures Step(f, more[i], more[i + 1]) {
      assert i < |ws| - 1 ==> Step(f, ws[i], ws[i + 1]);
    }
    assert Run(f, more);
  }

  // ---------- two requests, side by side ----------

  /** A request, and what the signer would sign for it. */
  datatype Ask = Ask(action: Action, proposal: Proposal, effect: Key)

  predicate Formed(x: Ask) {
    SignedEffect(x.action, x.proposal) == Some(x.effect) && ProposalKey(x.proposal).Some?
  }

  /** An honest operator whose node shows these accounts signs it. */
  predicate Signable(f: Federation, x: Ask, accounts: set<string>) {
    && Formed(x)
    && (x.effect.VizTx? ==> f.genuine(x.effect.release) && x.effect.release.memo == x.action.id)
    && (x.effect.GramOrder? ==> f.approves(x.action.id, accounts))
  }

  function KeyOf(x: Ask): Key
    requires Formed(x)
  {
    ProposalKey(x.proposal).value.0
  }

  /** The ledger does not set the two against each other: different actions, or one recorded key. */
  predicate Compatible(x: Ask, y: Ask) {
    Formed(x) && Formed(y) && (x.action.id != y.action.id || KeyOf(x) == KeyOf(y))
  }

  /** The world's first block, which every node has seen. */
  datatype Start = Start(timeMs: int, accounts: set<string>)

  function First(st: Start): Block {
    Block(st.timeMs, {}, st.accounts)
  }

  const Fresh: Operator := Operator(map[], {}, {}, {}, {}, 1, map[])

  /** The operator after both requests have arrived and both gates have been passed. */
  function Cleared2(x: Ask, y: Ask, st: Start): Operator
    requires Formed(x) && Formed(y)
  {
    var begun := BeginCall(BeginCall(Fresh, 0, x.action, x.proposal), 1, y.action, y.proposal);
    var first := ResumeCall(ResumeCall(begun, [First(st)], 0), [First(st)], 0);
    ResumeCall(ResumeCall(first, [First(st)], 1), [First(st)], 1)
  }

  lemma BothClear(x: Ask, y: Ask, st: Start)
    requires Compatible(x, y)
    ensures var op := Cleared2(x, y, st);
            && op.seen == 1 && op.approved == {} && op.asked == {(x.action, x.proposal), (y.action, y.proposal)}
            && 0 in op.calls && 1 in op.calls
            && op.calls[0].stage == Cleared && op.calls[0].id == x.action.id && op.calls[0].effect == Some(x.effect)
            && op.calls[1].stage == Cleared && op.calls[1].id == y.action.id && op.calls[1].effect == Some(y.effect)
  {
  }

  function SignedBoth(x: Ask, y: Ask, st: Start): Operator
    requires Compatible(x, y)
  {
    BothClear(x, y, st);
    SignCall(SignCall(Cleared2(x, y, st), 0, st.accounts), 1, st.accounts)
  }

  lemma BothSigned(x: Ask, y: Ask, st: Start)
    requires Compatible(x, y)
    ensures var op := SignedBoth(x, y, st);
            && op.asked == {(x.action, x.proposal), (y.action, y.proposal)}
            && (x.action.id, x.effect) in op.approved && (y.action.id, y.effect) in op.approved
            && (x.action.id, x.effect, st.accounts) in op.saw
  {
    BothClear(x, y, st);
  }

  lemma OperatorClearsBoth(f: Federation, w: World, o: nat, x: Ask, y: Ask, st: Start)
    requires Reaches(f, w) && w.chain == [First(st)] && o < |w.ops| && w.ops[o] == Fresh && Formed(x) && Formed(y)
    ensures Reaches(f, w.(ops := w.ops[o := Cleared2(x, y, st)]))
  {
    var w1 := Next(f, w, Begin(o, 0, x.action, x.proposal));
    ReachStep(f, w, Begin(o, 0, x.action, x.proposal));
    var w2 := Next(f, w1, Begin(o, 1, y.action, y.proposal));
    ReachStep(f, w1, Begin(o, 1, y.action, y.proposal));
    var w4 := ResumedTwice(f, w2, o, 0, st);
    var w6 := ResumedTwice(f, w4, o, 1, st);
    assert w6 == w.(ops := w.ops[o := Cleared2(x, y, st)]);
  }

  /** Two awaits of one call, on a node that has seen the first block. */
  lemma ResumedTwice(f: Federation, w: World, o: nat, c: nat, st: Start) returns (w': World)
    requires Reaches(f, w) && w.chain == [First(st)] && o < |w.ops| && c in w.ops[o].calls && w.ops[o].seen == 1
    ensures Reaches(f, w')
    ensures w' == w.(ops := w.ops[o := ResumeCall(ResumeCall(w.ops[o], [First(st)], c), [First(st)], c)])
  {
    assert w.chain[..1] == [First(st)];
    var w1 := Next(f, w, Resume(o, c));
    ReachStep(f, w, Resume(o, c));
    assert w1.chain[..1] == [First(st)];
    ReachStep(f, w1, Resume(o, c));
    w' := Next(f, w1, Resume(o, c));
  }

  lemma OperatorSignsBoth(f: Federation, w: World, o: nat, x: Ask, y: Ask, st: Start)
    requires Reaches(f, w) && w.chain == [First(st)] && o < |w.ops| && w.ops[o] == Fresh && Compatible(x, y)
    requires Signable(f, x, st.accounts) && Signable(f, y, st.accounts)
    ensures Reaches(f, w.(ops := w.ops[o := SignedBoth(x, y, st)]))
  {
    BothClear(x, y, st);
    OperatorClearsBoth(f, w, o, x, y, st);
    var w6 := w.(ops := w.ops[o := Cleared2(x, y, st)]);
    ReachStep(f, w6, Sign(o, 0));
    var w7 := Next(f, w6, Sign(o, 0));
    ReachStep(f, w7, Sign(o, 1));
    assert Next(f, w7, Sign(o, 1)) == w.(ops := w.ops[o := SignedBoth(x, y, st)]);
  }

  // ---------- every operator signs both ----------

  const Unsynced: Operator := Operator(map[], {}, {}, {}, {}, 0, map[])

  /** The first `n` operators have seen the first block. */
  function Synced(total: nat, n: nat, st: Start): World
    requires n <= total
  {
    World([First(st)], seq(total, i requires 0 <= i < total => if i < n then Fresh else Unsynced))
  }

  lemma {:induction false} EveryOperatorSyncs(f: Federation, n: nat, st: Start)
    requires n <= f.n
    ensures Reaches(f, Synced(f.n, n, st))
  {
    var w := Synced(f.n, n, st);
    if n == 0 {
      var w0 := World([], w.ops);
      assert Run(f, [w0]);
      assert [w0][|[w0]| - 1] == w0;
      ReachStep(f, w0, Produce(First(st)));
      assert Next(f, w0, Produce(First(st))) == w;
    } else {
      EveryOperatorSyncs(f, n - 1, st);
      var before := Synced(f.n, n - 1, st);
      ReachStep(f, before, Sync(n - 1, 1));
      assert w == before.(ops := before.ops[n - 1 := Fresh]);
    }
  }

  /** The first `n` operators have signed both, the others have not been asked. */
  function Asked(total: nat, n: nat, x: Ask, y: Ask, st: Start): World
    requires n <= total && Compatible(x, y)
  {
    World([First(st)], seq(total, i requires 0 <= i < total => if i < n then SignedBoth(x, y, st) else Fresh))
  }

  lemma {:induction false} EveryOperatorSigns(f: Federation, n: nat, x: Ask, y: Ask, st: Start)
    requires n <= f.n && Compatible(x, y) && Signable(f, x, st.accounts) && Signable(f, y, st.accounts)
    ensures Reaches(f, Asked(f.n, n, x, y, st))
  {
    var w := Asked(f.n, n, x, y, st);
    if n == 0 {
      EveryOperatorSyncs(f, f.n, st);
      assert w == Synced(f.n, f.n, st);
    } else {
      EveryOperatorSigns(f, n - 1, x, y, st);
      var before := Asked(f.n, n - 1, x, y, st);
      OperatorSignsBoth(f, before, n - 1, x, y, st);
      assert w == before.(ops := before.ops[n - 1 := SignedBoth(x, y, st)]);
    }
  }

  lemma {:induction false} AllOf(n: nat) returns (s: set<nat>)
    ensures |s| == n && forall i :: 0 <= i < n <==> i in s
  {
    if n == 0 {
      s := {};
    } else {
      s := AllOf(n - 1);
      s := s + {n - 1};
    }
  }

  lemma AllApprove(f: Federation, w: World, id: string, k: Key)
    requires f.threshold <= f.n == |w.ops| && forall o :: 0 <= o < f.n ==> (id, k) in w.ops[o].approved
    ensures Quorum(f, w, id, k)
  {
    var all := AllOf(f.n);
    assert Approvers(f, w, id, k) == all;
  }

  lemma BothHaveQuorums(f: Federation, x: Ask, y: Ask, st: Start)
    requires f.threshold <= f.n && Compatible(x, y)
    ensures Quorum(f, Asked(f.n, f.n, x, y, st), x.action.id, x.effect)
    ensures Quorum(f, Asked(f.n, f.n, x, y, st), y.action.id, y.effect)
  {
    BothSigned(x, y, st);
    AllApprove(f, Asked(f.n, f.n, x, y, st), x.action.id, x.effect);
    AllApprove(f, Asked(f.n, f.n, x, y, st), y.action.id, y.effect);
  }

  lemma BlockLands(f: Federation, w: World, b: Block) returns (ws: seq<World>)
    requires Reaches(f, w) && Admissible(f, w, b)
    ensures Run(f, ws) && ws[|ws| - 1] == w.(chain := w.chain + [b])
  {
    ReachStep(f, w, Produce(b));
    ws :| Run(f, ws) && ws[|ws| - 1] == Next(f, w, Produce(b));
  }

  function Earlier(r: Release, s: Release): int {
    if r.expiresAtMs < s.expiresAtMs then r.expiresAtMs else s.expiresAtMs
  }

  /**
   Two genuine releases, asked for compatibly, both land in some run of any federation, no operator
   being asked for anything else.
   */
  lemma BothLand(f: Federation, x: Ask, y: Ask) returns (ws: seq<World>, w: World)
    requires f.threshold <= f.n && Compatible(x, y) && x.effect.VizTx? && y.effect.VizTx?
    requires Signable(f, x, {}) && Signable(f, y, {})
    ensures Run(f, ws) && ws[|ws| - 1] == w && |w.chain| == 2 && |w.ops| == f.n
    ensures w.chain[1].txs == {x.effect.release, y.effect.release}
    ensures forall o :: 0 <= o < |w.ops| ==> w.ops[o].asked == {(x.action, x.proposal), (y.action, y.proposal)}
  {
    var r, s := x.effect.release, y.effect.release;
    var st := Start(Earlier(r, s), {});
    var before, b := Asked(f.n, f.n, x, y, st), Block(st.timeMs, {r, s}, {r.to, s.to});
    EveryOperatorSigns(f, f.n, x, y, st);
    BothHaveQuorums(f, x, y, st);
    ws := BlockLands(f, before, b);
    w := before.(chain := [First(st), b]);
    BothSigned(x, y, st);
  }

  // ---------- exactly when at most one lands ----------

  ghost predicate AtMostOnePerMemo(chain: seq<Block>) {
    forall i, j, r, s :: 0 <= i < |chain| && 0 <= j < |chain| && r in chain[i].txs && s in chain[j].txs && r.memo == s.memo ==>
                           r == s && i == j
  }

  /** Honest operators have been asked for nothing outside the set. */
  ghost predicate AskedOnly(f: Federation, w: World, requests: iset<(Action, Proposal)>) {
    forall o, x :: 0 <= o < |w.ops| && o !in f.dishonest && x in w.ops[o].asked ==> x in requests
  }

  /** In every run in which honest operators are asked only for these, at most one release per memo lands. */
  ghost predicate AtMostOneFrom(f: Federation, requests: iset<(Action, Proposal)>) {
    forall ws: seq<World> :: Run(f, ws) && AskedOnly(f, ws[|ws| - 1], requests) ==> AtMostOnePerMemo(ws[|ws| - 1].chain)
  }

  ghost predicate SomeClash(f: Federation, requests: iset<(Action, Proposal)>) {
    exists x, y, r, s :: x in requests && y in requests && Clash(f, x, y, r, s)
  }

  lemma NoClashAtMostOne(f: Federation, ws: seq<World>, requests: iset<(Action, Proposal)>)
    requires Run(f, ws) && f.n + |f.dishonest| < 2 * f.threshold
    requires AskedOnly(f, ws[|ws| - 1], requests) && !SomeClash(f, requests)
    ensures AtMostOnePerMemo(ws[|ws| - 1].chain)
  {
    var k := |ws| - 1;
    var chain := ws[k].chain;
    RunKeepsInv(f, ws, k);
    forall i, j, r, s | 0 <= i < |chain| && 0 <= j < |chain| && r in chain[i].txs && s in chain[j].txs && r.memo == s.memo
      ensures r == s && i == j
    {
      if r != s {
        var o, x, y := TwoLandedClash(f, ws, k, i, j, r, s);
      }
      OneBlock(f, ws[k], i, j, r);
    }
  }

  lemma ClashBothLand(f: Federation, requests: iset<(Action, Proposal)>,
                      x: (Action, Proposal), y: (Action, Proposal), r: Release, s: Release)
    requires f.threshold <= f.n && x in requests && y in requests && Clash(f, x, y, r, s)
    ensures !AtMostOneFrom(f, requests)
  {
    var ws, w := BothLand(f, Ask(x.0, x.1, VizTx(r)), Ask(y.0, y.1, VizTx(s)));
    assert r in w.chain[1].txs && s in w.chain[1].txs;
    assert !AtMostOnePerMemo(w.chain);
  }

  /**
   At most one release per action lands, whatever the coordinator does with a set of requests,
   exactly when no two of them for one action would be recorded under one key and sign different
   releases of it.
   */
  lemma AtMostOneLandsIff(f: Federation, requests: iset<(Action, Proposal)>)
    requires f.n + |f.dishonest| < 2 * f.threshold && f.threshold <= f.n
    ensures AtMostOneFrom(f, requests) <==> !SomeClash(f, requests)
  {
    if SomeClash(f, requests) {
      var x, y, r, s :| x in requests && y in requests && Clash(f, x, y, r, s);
      ClashBothLand(f, requests, x, y, r, s);
    } else {
      forall ws: seq<World> | Run(f, ws) && AskedOnly(f, ws[|ws| - 1], requests) ensures AtMostOnePerMemo(ws[|ws| - 1].chain) {
        NoClashAtMostOne(f, ws, requests);
      }
    }
  }

  /** A release proposal that also carries a GRAM order's marker field. */
  function Marked(r: Release, order: string): Ask {
    Ask(Action(PegOut, r.memo), Proposal(Some(r), Some(order), None), VizTx(r))
  }

  /**
   Marked alike, any two genuine releases of one action are recorded under one key, and both land,
   whatever the federation.
   */
  lemma MarkedReleasesBothLand(f: Federation, r: Release, s: Release, order: string) returns (ws: seq<World>, w: World)
    requires f.threshold <= f.n && f.genuine(r) && f.genuine(s) && r.memo == s.memo
    ensures Run(f, ws) && ws[|ws| - 1] == w && |w.chain| == 2
    ensures r in w.chain[1].txs && s in w.chain[1].txs
    ensures |w.ops| == f.n && forall o :: 0 <= o < |w.ops| ==> !WellAsked(w.ops[o])
  {
    var x, y := Marked(r, order), Marked(s, order);
    ws, w := BothLand(f, x, y);
    forall o | 0 <= o < |w.ops| ensures !WellAsked(w.ops[o]) {
      assert (x.action, x.proposal) in w.ops[o].asked && SignedEffect(x.action, x.proposal).Some?;
    }
  }

  // ---------- different actions ----------

  function Plain(r: Release): Ask {
    Ask(Action(PegOut, r.memo), Proposal(Some(r), None, None), VizTx(r))
  }

  /** Two releases of different actions both land, with every request in proper shape. */
  lemma DifferentActionsBothLand(f: Federation, r: Release, s: Release) returns (ws: seq<World>, w: World)
    requires f.threshold <= f.n && f.genuine(r) && f.genuine(s) && r.memo != s.memo
    ensures Run(f, ws) && ws[|ws| - 1] == w && HonestWellAsked(f, w) && |w.chain| == 2
    ensures r in w.chain[1].txs && s in w.chain[1].txs
  {
    ws, w := BothLand(f, Plain(r), Plain(s));
  }

  function Order(id: string, order: string): Ask {
    Ask(Action(GramReturn, id), Proposal(None, Some(order), None), GramOrder(order))
  }

  /** The order gathers a quorum from operators that see some accounts, and the release lands when there are more. */
  lemma OrderAndReleaseBothHappen(f: Federation, id: string, order: string, r: Release,
                                  before: set<string>, after: set<string>)
    returns (ws: seq<World>, w: World)
    requires f.threshold <= f.n && f.approves(id, before) && f.genuine(r) && id != r.memo
    requires before <= after && r.to in after
    ensures Run(f, ws) && ws[|ws| - 1] == w && HonestWellAsked(f, w)
    ensures |w.chain| == 2 && w.chain[1] == Block(r.expiresAtMs, {r}, after)
    ensures Quorum(f, w, id, GramOrder(order))
    ensures |w.ops| == f.n && forall o :: 0 <= o < f.n ==> (id, GramOrder(order), before) in w.ops[o].saw
  {
    var x, y, st := Order(id, order), Plain(r), Start(r.expiresAtMs, before);
    var signed, b := Asked(f.n, f.n, x, y, st), Block(st.timeMs, {r}, after);
    EveryOperatorSigns(f, f.n, x, y, st);
    BothHaveQuorums(f, x, y, st);
    ws := BlockLands(f, signed, b);
    w := signed.(chain := [First(st), b]);
    BothSigned(x, y, st);
    assert Approvers(f, w, id, GramOrder(order)) == Approvers(f, signed, id, GramOrder(order));
  }
}
