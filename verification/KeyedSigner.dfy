/** What a signer puts its key to: a validated action, and a proposal that carries out exactly that action. */
module KeyedSigner {
  import opened Wrappers
  import opened Fees
  import opened Canonical
  import opened SourceValidator
  import Policy
  import VizAmount
  import Decimal
  import RL = ReplayLedger
  import RP = ReleaseProtocol
  import Limits = ReleaseLimits
  import Accepted = Acceptance

  /** `backing` names the VIZ account that holds each remote chain's funds. */
  datatype Signer = Signer(hash: string -> string, deps: Deps, backing: map<Chain, string>)

  /** `signVizRelease`, up to the signature. */
  predicate SignsRelease(s: Signer, a: Action, r: RL.Release) {
    && a.direction == PEG_OUT
    && Validate(s.hash, a, s.deps)
    && a.remoteChain.Some? && a.remoteChain.value in s.backing
    && r.from == s.backing[a.remoteChain.value]
    && r.to == a.recipient
    && r.amount == VizAmount.MilliToViz(a.amountMilliViz)
    && r.memo == a.id
  }

  /** The router's way to `approveGramMint`, and its checks up to the on-chain approval. */
  predicate ApprovesGramMint(s: Signer, a: Action, toAddress: string, destProvisioned: bool, proposalNet: string) {
    && a.direction == PEG_IN && (a.remoteChain.Some? ==> a.remoteChain.value == GRAM)
    && Validate(s.hash, a, s.deps)
    && toAddress == a.recipient
    && a.amountMilliViz >= 0
    && AssertNet(a.amountMilliViz, destProvisioned, proposalNet, PolicyFor(s.deps.fees, GRAM))
  }

  // ---------- the payments that source events call for ----------

  predicate PaysBurn(s: Signer, r: RL.Release) {
    && LooksLikeTonTxHash(r.memo) && r.memo in s.deps.burns
    && var b := s.deps.burns[r.memo];
       && b.chain in s.backing && r.from == s.backing[b.chain]
       && r.to == b.homeDestination && r.amount == VizAmount.MilliToViz(b.amountMilliViz)
  }

  predicate PaysSolanaTransfer(s: Signer, r: RL.Release) {
    && LooksLikeSolanaSignature(r.memo) && (r.memo, r.to) in s.deps.solanaTransfers
    && SOLANA in s.backing && r.from == s.backing[SOLANA]
    && r.amount == VizAmount.MilliToViz(s.deps.solanaTransfers[(r.memo, r.to)])
  }

  predicate PaysSweep(s: Signer, r: RL.Release, d: Deposit) {
    && r.memo == PegInId(d) + Policy.FEE_SUFFIX
    && d.chain in s.backing && r.from == s.backing[d.chain]
    && r.to == s.deps.feesGate && r.amount == VizAmount.MilliToViz(SweepAmount(s.deps.fees, d))
  }

  predicate PaysRefund(s: Signer, r: RL.Release, d: Deposit) {
    && r.memo == PegInId(d) + Policy.REFUND_SUFFIX
    && d.chain in s.backing && r.from == s.backing[d.chain]
    && r.to == d.from && d.amountMilliViz > s.deps.fees.refundFee
    && r.amount == VizAmount.MilliToViz(d.amountMilliViz - s.deps.fees.refundFee)
  }

  /** The return of a burn with no home account; validation tells it by its id, not by its direction. */
  predicate PaysReturn(s: Signer, r: RL.Release, b: RemoteBurn) {
    && LooksLikeTonTxHash(b.sourceId) && r.memo == b.sourceId + Policy.RETURN_SUFFIX
    && b.homeDestination !in s.deps.accounts
    && b.chain in s.backing && r.from == s.backing[b.chain]
    && r.to == b.from && b.amountMilliViz > s.deps.fees.refundFee
    && r.amount == VizAmount.MilliToViz(b.amountMilliViz - s.deps.fees.refundFee)
  }

  /**
   A burn's amount to its home account, a Solana transfer's to its recipient, a deposit's base
   fee to the fees gate, a deposit less the refund fee back to its sender, or a returned burn
   less that fee to its sender.
   */
  ghost predicate CalledFor(s: Signer, r: RL.Release) {
    || PaysBurn(s, r)
    || PaysSolanaTransfer(s, r)
    || (exists k :: k in s.deps.deposits && PaysSweep(s, r, s.deps.deposits[k]))
    || (exists k :: k in s.deps.deposits && PaysRefund(s, r, s.deps.deposits[k]))
    || (exists k :: k in s.deps.burns && PaysReturn(s, r, s.deps.burns[k]))
  }

  // ---------- signed exactly when called for ----------

  lemma HexIdHasNoSuffix(id: string)
    requires LooksLikeTonTxHash(id) || LooksLikeSolanaSignature(id)
    ensures Policy.IsSourceId(id)
  {
    assert id[|id| - 4] in id && id[|id| - 7] in id;
  }

  lemma AcceptedReturn(s: Signer, a: Action)
    requires NodeOk(s.deps) && a.direction != PEG_IN && Policy.EndsWith(a.id, Policy.RETURN_SUFFIX)
    ensures Validate(s.hash, a, s.deps) ==> ValidGramReturn(s.hash, a, s.deps)
    ensures ValidGramReturn(s.hash, a, s.deps) ==> Validate(s.hash, a, s.deps)
  {
    assert a.id[|a.id| - 1] == Policy.RETURN_SUFFIX[6];
    assert a.id[|a.id| - 3] == Policy.RETURN_SUFFIX[4];
  }

  lemma ReturnIsCalledFor(s: Signer, a: Action, r: RL.Release)
    requires NodeOk(s.deps) && SignsRelease(s, a, r) && Policy.EndsWith(a.id, Policy.RETURN_SUFFIX)
    ensures CalledFor(s, r)
  {
    AcceptedReturn(s, a);
    var k := a.id[..|a.id| - |Policy.RETURN_SUFFIX|];
    assert a.id == k + Policy.RETURN_SUFFIX;
    assert PaysReturn(s, r, s.deps.burns[k]);
  }

  lemma SignedIsCalledFor(s: Signer, a: Action, r: RL.Release)
    requires NodeOk(s.deps) && SignsRelease(s, a, r)
    ensures CalledFor(s, r)
  {
    if Policy.EndsWith(a.id, Policy.RETURN_SUFFIX) {
      ReturnIsCalledFor(s, a, r);
    } else if Policy.EndsWith(a.id, Policy.FEE_SUFFIX) {
      AcceptedSweepIsTheSpawnedChild(s.hash, s.deps, a);
      var k :| k in s.deps.deposits && IsSweepChild(s.hash, s.deps, s.deps.deposits[k], a);
      assert PaysSweep(s, r, s.deps.deposits[k]);
    } else if Policy.EndsWith(a.id, Policy.REFUND_SUFFIX) {
      AcceptedRefundIsTheSpawnedChild(s.hash, s.deps, a);
      var k :| k in s.deps.deposits && IsRefundChild(s.hash, s.deps, s.deps.deposits[k], a);
      assert PaysRefund(s, r, s.deps.deposits[k]);
    }
  }

  lemma BurnPaymentIsSigned(s: Signer, r: RL.Release) returns (a: Action)
    requires NodeOk(s.deps) && PaysBurn(s, r)
    ensures SignsRelease(s, a, r)
  {
    a := CanonicalPegOut(s.hash, s.deps.burns[r.memo]);
    HexIdHasNoSuffix(r.memo);
    AcceptedTonPegOutIsCanonical(s.hash, s.deps, a);
  }

  lemma SolanaPaymentIsSigned(s: Signer, r: RL.Release) returns (a: Action)
    requires NodeOk(s.deps) && PaysSolanaTransfer(s, r)
    ensures SignsRelease(s, a, r)
  {
    a := CanonicalPegOut(s.hash, RemoteBurn(SOLANA, r.memo, "", s.deps.solanaTransfers[(r.memo, r.to)], r.to));
    HexIdHasNoSuffix(r.memo);
  }

  lemma SweepIsSigned(s: Signer, r: RL.Release, k: (string, nat)) returns (a: Action)
    requires NodeOk(s.deps) && k in s.deps.deposits && PaysSweep(s, r, s.deps.deposits[k])
    ensures SignsRelease(s, a, r)
  {
    var d := s.deps.deposits[k];
    var parent := CanonicalPegIn(s.hash, d);
    a := Action(PEG_OUT, r.memo, Some(d.chain), r.to, SweepAmount(s.deps.fees, d), parent.digest + Policy.FEE_SUFFIX);
    Policy.ChildIdEnds(parent.id, Policy.FEE_SUFFIX);
    assert IsSweepChild(s.hash, s.deps, d, a);
    AcceptedSweepIsTheSpawnedChild(s.hash, s.deps, a);
  }

  lemma RefundIsSigned(s: Signer, r: RL.Release, k: (string, nat)) returns (a: Action)
    requires NodeOk(s.deps) && k in s.deps.deposits && PaysRefund(s, r, s.deps.deposits[k])
    ensures SignsRelease(s, a, r)
  {
    a := RefundOf(s.hash, s.deps, s.deps.deposits[k]);
    AcceptedRefundIff(s.hash, s.deps, k);
  }

  lemma ReturnIsSigned(s: Signer, r: RL.Release, k: string) returns (a: Action)
    requires NodeOk(s.deps) && k in s.deps.burns && PaysReturn(s, r, s.deps.burns[k])
    ensures SignsRelease(s, a, r)
  {
    var b := s.deps.burns[k];
    a := Action(PEG_OUT, r.memo, Some(b.chain), r.to, b.amountMilliViz - s.deps.fees.refundFee,
                CanonicalPegOut(s.hash, b).digest + Policy.RETURN_SUFFIX);
    Policy.ChildIdEnds(b.sourceId, Policy.RETURN_SUFFIX);
    AcceptedReturn(s, a);
  }

  /** Some action lets a signer sign a release exactly when a source event on its own node calls for that release. */
  lemma SignedIffCalledFor(s: Signer, r: RL.Release)
    requires NodeOk(s.deps)
    ensures (exists a :: SignsRelease(s, a, r)) <==> CalledFor(s, r)
  {
    if a :| SignsRelease(s, a, r) {
      SignedIsCalledFor(s, a, r);
    }
    if PaysBurn(s, r) {
      var a := BurnPaymentIsSigned(s, r);
    } else if PaysSolanaTransfer(s, r) {
      var a := SolanaPaymentIsSigned(s, r);
    } else if k :| k in s.deps.deposits && PaysSweep(s, r, s.deps.deposits[k]) {
      var a := SweepIsSigned(s, r, k);
    } else if k :| k in s.deps.deposits && PaysRefund(s, r, s.deps.deposits[k]) {
      var a := RefundIsSigned(s, r, k);
    } else if k :| k in s.deps.burns && PaysReturn(s, r, s.deps.burns[k]) {
      var a := ReturnIsSigned(s, r, k);
    }
  }

  // ---------- from source event to landed transfer ----------

  /** The same signer when its node shows these VIZ accounts. */
  function At(s: Signer, accounts: set<string>): Signer {
    s.(deps := s.deps.(accounts := accounts))
  }

  /** The federation's honest operators run this signer, each on a node whose final data agree with `s`. */
  ghost predicate SignsAs(f: RP.Federation, s: Signer) {
    forall r :: f.genuine(r) <==> SignsSomewhere(s, r)
  }

  ghost predicate SignsSomewhere(s: Signer, r: RL.Release) {
    exists accounts, a :: SignsRelease(At(s, accounts), a, r)
  }

  /** A source event calls for it, by some state of the VIZ accounts. */
  ghost predicate CalledForSomewhere(s: Signer, r: RL.Release) {
    exists accounts :: CalledFor(At(s, accounts), r)
  }

  /** Every release that lands is one a source event calls for. */
  lemma LandedIsCalledFor(s: Signer, f: RP.Federation, ws: seq<RP.World>, n: nat, i: nat, r: RL.Release)
    requires NodeOk(s.deps) && SignsAs(f, s)
    requires RP.Run(f, ws) && n < |ws| && |f.dishonest| < f.threshold
    requires i < |ws[n].chain| && r in ws[n].chain[i].txs
    ensures CalledForSomewhere(s, r)
  {
    RP.LandedIsGenuine(f, ws, n, i, r);
    var accounts, a :| SignsRelease(At(s, accounts), a, r);
    SignedIffCalledFor(At(s, accounts), r);
  }

  /** Releases landed under a burn's own id are one transfer, to its home account and for exactly what was burnt. */
  lemma BurnIsPaidOnceAndExactly(s: Signer, f: RP.Federation, ws: seq<RP.World>, n: nat, i: nat, j: nat,
                                 r: RL.Release, q: RL.Release, id: string)
    requires NodeOk(s.deps) && SignsAs(f, s) && LooksLikeTonTxHash(id)
    requires RP.Run(f, ws) && n < |ws| && RP.HonestWellAsked(f, ws[n])
    requires |f.dishonest| < f.threshold && f.n + |f.dishonest| < 2 * f.threshold
    requires i < |ws[n].chain| && r in ws[n].chain[i].txs && r.memo == id
    requires j < |ws[n].chain| && q in ws[n].chain[j].txs && q.memo == id
    ensures r == q && i == j && id in s.deps.burns
    ensures r.to == s.deps.burns[id].homeDestination
    ensures VizAmount.VizToMilli(r.amount) == Some(s.deps.burns[id].amountMilliViz)
  {
    RP.AtMostOneReleaseLands(f, ws, n, i, j, r, q);
    LandedBurnRelease(s, f, ws, n, i, r, id);
    VizAmount.RoundTripExactly(s.deps.burns[id].amountMilliViz);
  }

  lemma LandedBurnRelease(s: Signer, f: RP.Federation, ws: seq<RP.World>, n: nat, i: nat, r: RL.Release, id: string)
    requires NodeOk(s.deps) && SignsAs(f, s) && LooksLikeTonTxHash(id)
    requires RP.Run(f, ws) && n < |ws| && |f.dishonest| < f.threshold
    requires i < |ws[n].chain| && r in ws[n].chain[i].txs && r.memo == id
    ensures PaysBurn(s, r)
  {
    LandedIsCalledFor(s, f, ws, n, i, r);
    var accounts :| CalledFor(At(s, accounts), r);
    BurnIdHasNoOtherUse(At(s, accounts), r);
  }

  lemma BurnIdHasNoOtherUse(s: Signer, r: RL.Release)
    requires CalledFor(s, r) && LooksLikeTonTxHash(r.memo)
    ensures PaysBurn(s, r)
  {
    HexIdHasNoSuffix(r.memo);
    if k :| k in s.deps.deposits && PaysSweep(s, r, s.deps.deposits[k]) {
      Policy.ChildIdEnds(PegInId(s.deps.deposits[k]), Policy.FEE_SUFFIX);
    }
    if k :| k in s.deps.deposits && PaysRefund(s, r, s.deps.deposits[k]) {
      Policy.ChildIdEnds(PegInId(s.deps.deposits[k]), Policy.REFUND_SUFFIX);
    }
    if k :| k in s.deps.burns && PaysReturn(s, r, s.deps.burns[k]) {
      Policy.ChildIdEnds(s.deps.burns[k].sourceId, Policy.RETURN_SUFFIX);
    }
  }

  // ---------- one burn, one VIZ payment ----------

  /** `/^[a-z][a-z0-9.-]{1,31}$/` */
  predicate IsVizName(name: string) {
    && 2 <= |name| <= 32 && 'a' <= name[0] <= 'z'
    && forall c :: c in name ==> 'a' <= c <= 'z' || '0' <= c <= '9' || c == '.' || c == '-'
  }

  /** A wallet address as the node writes it. */
  predicate IsTonAddress(s: string) {
    |s| == 48
  }

  predicate AccountsAreNames(chain: seq<RL.Block>) {
    forall i, name :: 0 <= i < |chain| && name in chain[i].accounts ==> IsVizName(name)
  }

  /** The transfer goes out under the burn's own id or under its return's. */
  predicate Concerns(b: RemoteBurn, r: RL.Release) {
    r.memo == b.sourceId || r.memo == b.sourceId + Policy.RETURN_SUFFIX
  }

  lemma ReturnIdHasNoOtherUse(s: Signer, b: RemoteBurn, r: RL.Release)
    requires NodeOk(s.deps) && CalledFor(s, r) && LooksLikeTonTxHash(b.sourceId)
    requires r.memo == b.sourceId + Policy.RETURN_SUFFIX
    ensures b.sourceId in s.deps.burns && PaysReturn(s, r, s.deps.burns[b.sourceId])
  {
    Policy.ChildIdEnds(b.sourceId, Policy.RETURN_SUFFIX);
    if LooksLikeTonTxHash(r.memo) || LooksLikeSolanaSignature(r.memo) {
      HexIdHasNoSuffix(r.memo);
    }
    if k :| k in s.deps.deposits && PaysSweep(s, r, s.deps.deposits[k]) {
      Policy.ChildIdsInjective(b.sourceId, Policy.RETURN_SUFFIX, PegInId(s.deps.deposits[k]), Policy.FEE_SUFFIX);
    } else if k :| k in s.deps.deposits && PaysRefund(s, r, s.deps.deposits[k]) {
      Policy.ChildIdsInjective(b.sourceId, Policy.RETURN_SUFFIX, PegInId(s.deps.deposits[k]), Policy.REFUND_SUFFIX);
    } else {
      var k :| k in s.deps.burns && PaysReturn(s, r, s.deps.burns[k]);
      Policy.ChildIdsInjective(b.sourceId, Policy.RETURN_SUFFIX, s.deps.burns[k].sourceId, Policy.RETURN_SUFFIX);
    }
  }

  lemma LandedReturnGoesToSender(s: Signer, f: RP.Federation, ws: seq<RP.World>, n: nat, i: nat, r: RL.Release, b: RemoteBurn)
    requires NodeOk(s.deps) && SignsAs(f, s) && LooksLikeTonTxHash(b.sourceId)
    requires b.sourceId in s.deps.burns && s.deps.burns[b.sourceId] == b
    requires RP.Run(f, ws) && n < |ws| && |f.dishonest| < f.threshold
    requires i < |ws[n].chain| && r in ws[n].chain[i].txs && r.memo == b.sourceId + Policy.RETURN_SUFFIX
    ensures r.to == b.from
  {
    LandedIsCalledFor(s, f, ws, n, i, r);
    var accounts :| CalledFor(At(s, accounts), r);
    ReturnIdHasNoOtherUse(At(s, accounts), b, r);
  }

  lemma AddressIsNoName(name: string)
    requires IsTonAddress(name)
    ensures !IsVizName(name)
  {
  }

  /** A release under a return's id would go to a wallet address, which is no account: it never lands. */
  lemma ReturnNeverLandsOnViz(s: Signer, f: RP.Federation, ws: seq<RP.World>, n: nat, i: nat, r: RL.Release, b: RemoteBurn)
    requires NodeOk(s.deps) && SignsAs(f, s) && LooksLikeTonTxHash(b.sourceId)
    requires b.sourceId in s.deps.burns && s.deps.burns[b.sourceId] == b && IsTonAddress(b.from)
    requires RP.Run(f, ws) && n < |ws| && |f.dishonest| < f.threshold && AccountsAreNames(ws[n].chain)
    requires i < |ws[n].chain| && r in ws[n].chain[i].txs
    ensures r.memo != b.sourceId + Policy.RETURN_SUFFIX
  {
    RP.LandedHasAccount(f, ws, n, i, r);
    if r.memo == b.sourceId + Policy.RETURN_SUFFIX {
      LandedReturnGoesToSender(s, f, ws, n, i, r, b);
      AddressIsNoName(b.from);
    }
  }

  /** VIZ pays for a burn at most once, under whichever of its ids, and then its release. */
  lemma VizPaysBurnAtMostOnce(s: Signer, f: RP.Federation, ws: seq<RP.World>, n: nat, i: nat, j: nat,
                              r: RL.Release, q: RL.Release, b: RemoteBurn)
    requires NodeOk(s.deps) && SignsAs(f, s) && LooksLikeTonTxHash(b.sourceId)
    requires b.sourceId in s.deps.burns && s.deps.burns[b.sourceId] == b && IsTonAddress(b.from)
    requires RP.Run(f, ws) && n < |ws| && RP.HonestWellAsked(f, ws[n]) && AccountsAreNames(ws[n].chain)
    requires |f.dishonest| < f.threshold && f.n + |f.dishonest| < 2 * f.threshold
    requires i < |ws[n].chain| && r in ws[n].chain[i].txs && Concerns(b, r)
    requires j < |ws[n].chain| && q in ws[n].chain[j].txs && Concerns(b, q)
    ensures r == q && i == j && PaysBurn(s, r)
  {
    ReturnNeverLandsOnViz(s, f, ws, n, i, r, b);
    ReturnNeverLandsOnViz(s, f, ws, n, j, q, b);
    RP.AtMostOneReleaseLands(f, ws, n, i, j, r, q);
    LandedBurnRelease(s, f, ws, n, i, r, b.sourceId);
  }

  // ---------- one burn, paid on both sides ----------

  /** The router's way to `approveGramReturn`, and its checks up to the on-chain approval. */
  predicate ApprovesGramReturn(s: Signer, a: Action, toAddress: string, proposalAmount: string) {
    && a.direction == GRAM_RETURN
    && Validate(s.hash, a, s.deps)
    && toAddress == a.recipient
    && VizAmount.ReadInteger(proposalAmount) == Some(a.amountMilliViz)
  }

  lemma ApprovedReturnPays(s: Signer, b: RemoteBurn, a: Action, toAddress: string, proposalAmount: string)
    requires NodeOk(s.deps) && b.sourceId in s.deps.burns && s.deps.burns[b.sourceId] == b
    requires a.id == b.sourceId + Policy.RETURN_SUFFIX && ApprovesGramReturn(s, a, toAddress, proposalAmount)
    ensures Returnable(s.deps, b) && toAddress == b.from
    ensures VizAmount.ReadInteger(proposalAmount) == Some(b.amountMilliViz - s.deps.fees.refundFee)
  {
    Policy.ChildIdEnds(b.sourceId, Policy.RETURN_SUFFIX);
    AcceptedReturn(s, a);
  }

  /** A return is approved exactly for a returnable burn, to its sender and for what is left of it. */
  lemma ReturnIsApprovedIff(s: Signer, b: RemoteBurn, toAddress: string, proposalAmount: string)
    requires NodeOk(s.deps) && LooksLikeTonTxHash(b.sourceId)
    requires b.sourceId in s.deps.burns && s.deps.burns[b.sourceId] == b
    ensures (exists a: Action :: a.id == b.sourceId + Policy.RETURN_SUFFIX && ApprovesGramReturn(s, a, toAddress, proposalAmount))
            <==> Returnable(s.deps, b) && toAddress == b.from
                 && VizAmount.ReadInteger(proposalAmount) == Some(b.amountMilliViz - s.deps.fees.refundFee)
  {
    if a: Action :| a.id == b.sourceId + Policy.RETURN_SUFFIX && ApprovesGramReturn(s, a, toAddress, proposalAmount) {
      ApprovedReturnPays(s, b, a, toAddress, proposalAmount);
    }
    AcceptedReturnIff(s.hash, s.deps, b);
    var spawned := ReturnOf(s.hash, s.deps, b);
    assert spawned.id == b.sourceId + Policy.RETURN_SUFFIX && spawned.direction == GRAM_RETURN;
  }

  /** Some order on GRAM for this action is one the signer approves. */
  ghost predicate ApprovesSomeOrder(s: Signer, id: string) {
    || (exists a: Action, toAddress, amount :: a.id == id && ApprovesGramReturn(s, a, toAddress, amount))
    || (exists a: Action, toAddress, provisioned, net :: a.id == id && ApprovesGramMint(s, a, toAddress, provisioned, net))
  }

  ghost predicate OrdersAs(f: RP.Federation, s: Signer) {
    forall id, accounts :: f.approves(id, accounts) <==> ApprovesSomeOrder(At(s, accounts), id)
  }

  /** No deposit has a return's id. */
  lemma ReturnIdIsNoDeposit(s: Signer, b: RemoteBurn, a: Action)
    requires LooksLikeTonTxHash(b.sourceId) && a.id == b.sourceId + Policy.RETURN_SUFFIX && a.direction == PEG_IN
    ensures !Validate(s.hash, a, s.deps)
  {
    assert ':' !in b.sourceId;
    assert a.id == b.sourceId + ":" + "return";
    SplitOfJoined(b.sourceId, "return");
    assert "return"[0] in "return" && !Decimal.IsDigit("return"[0]);
  }

  lemma OrderForReturnIff(s: Signer, b: RemoteBurn)
    requires NodeOk(s.deps) && LooksLikeTonTxHash(b.sourceId)
    requires b.sourceId in s.deps.burns && s.deps.burns[b.sourceId] == b
    ensures ApprovesSomeOrder(s, b.sourceId + Policy.RETURN_SUFFIX) <==> Returnable(s.deps, b)
  {
    var id := b.sourceId + Policy.RETURN_SUFFIX;
    if ApprovesSomeOrder(s, id) {
      if a: Action, toAddress, amount :| a.id == id && ApprovesGramReturn(s, a, toAddress, amount) {
        ReturnIsApprovedIff(s, b, toAddress, amount);
      } else {
        var a: Action, toAddress, provisioned, net :| a.id == id && ApprovesGramMint(s, a, toAddress, provisioned, net);
        ReturnIdIsNoDeposit(s, b, a);
      }
    }
    if Returnable(s.deps, b) {
      var net := b.amountMilliViz - s.deps.fees.refundFee;
      Decimal.ValueOfDec(net);
      ReturnIsApprovedIff(s, b, b.from, Decimal.Dec(net));
    }
  }

  /**
   The order that returns the burn has its quorum, an honest operator among it that saw the accounts
   `before`, and the burn's release has landed in a block with the accounts `after`.
   */
  ghost predicate PaidOnBothSides(f: RP.Federation, w: RP.World, b: RemoteBurn, before: set<string>, after: set<string>) {
    var id := b.sourceId + Policy.RETURN_SUFFIX;
    && (exists order :: RP.Quorum(f, w, id, RL.GramOrder(order))
                        && RP.HonestApprovedSeeing(f, w, id, RL.GramOrder(order), before))
    && (exists i, r :: 0 <= i < |w.chain| && r in w.chain[i].txs && r.memo == b.sourceId && w.chain[i].accounts == after)
  }

  ghost predicate MayBePaidOnBothSides(f: RP.Federation, b: RemoteBurn, before: set<string>, after: set<string>) {
    exists ws: seq<RP.World> :: RP.Run(f, ws) && RP.HonestWellAsked(f, ws[|ws| - 1])
                                && PaidOnBothSides(f, ws[|ws| - 1], b, before, after)
  }

  lemma PaidOnBothSidesSaw(s: Signer, f: RP.Federation, ws: seq<RP.World>, b: RemoteBurn,
                           before: set<string>, after: set<string>)
    requires NodeOk(s.deps) && SignsAs(f, s) && OrdersAs(f, s) && LooksLikeTonTxHash(b.sourceId)
    requires b.sourceId in s.deps.burns && s.deps.burns[b.sourceId] == b
    requires |f.dishonest| < f.threshold && RP.Run(f, ws) && PaidOnBothSides(f, ws[|ws| - 1], b, before, after)
    ensures Returnable(At(s, before).deps, b) && b.homeDestination in after
  {
    var n, id := |ws| - 1, b.sourceId + Policy.RETURN_SUFFIX;
    var order :| RP.Quorum(f, ws[n], id, RL.GramOrder(order))
                 && RP.HonestApprovedSeeing(f, ws[n], id, RL.GramOrder(order), before);
    RP.SeenLetItApprove(f, ws, n, id, RL.GramOrder(order), before);
    OrderForReturnIff(At(s, before), b);
    var i, r :| 0 <= i < |ws[n].chain| && r in ws[n].chain[i].txs && r.memo == b.sourceId && ws[n].chain[i].accounts == after;
    LandedBurnRelease(s, f, ws, n, i, r, b.sourceId);
    RP.LandedHasAccount(f, ws, n, i, r);
  }

  function ReleaseOfBurn(s: Signer, b: RemoteBurn): RL.Release
    requires b.chain in s.backing
  {
    RL.Release(0, 0, 0, s.backing[b.chain], b.homeDestination, VizAmount.MilliToViz(b.amountMilliViz), b.sourceId)
  }

  lemma BurnReleaseIsGenuine(s: Signer, f: RP.Federation, b: RemoteBurn)
    requires NodeOk(s.deps) && SignsAs(f, s) && LooksLikeTonTxHash(b.sourceId)
    requires b.sourceId in s.deps.burns && s.deps.burns[b.sourceId] == b && b.chain in s.backing
    ensures f.genuine(ReleaseOfBurn(s, b))
  {
    var here := At(s, {});
    assert PaysBurn(here, ReleaseOfBurn(s, b));
    var a := BurnPaymentIsSigned(here, ReleaseOfBurn(s, b));
    assert SignsSomewhere(s, ReleaseOfBurn(s, b));
  }

  lemma AccountMadeBetween(s: Signer, f: RP.Federation, b: RemoteBurn, before: set<string>, after: set<string>)
    requires NodeOk(s.deps) && SignsAs(f, s) && OrdersAs(f, s) && LooksLikeTonTxHash(b.sourceId) && f.threshold <= f.n
    requires b.sourceId in s.deps.burns && s.deps.burns[b.sourceId] == b && b.chain in s.backing
    requires |f.dishonest| < f.n
    requires Returnable(At(s, before).deps, b) && before <= after && b.homeDestination in after
    ensures MayBePaidOnBothSides(f, b, before, after)
  {
    var id, r := b.sourceId + Policy.RETURN_SUFFIX, ReleaseOfBurn(s, b);
    OrderForReturnIff(At(s, before), b);
    BurnReleaseIsGenuine(s, f, b);
    assert |id| > |r.memo|;
    var ws, w := Limits.OrderAndReleaseBothHappen(f, id, "order", r, before, after);
    assert r in w.chain[1].txs;
    SomeHonest(f, w, id, RL.GramOrder("order"), before);
    assert PaidOnBothSides(f, w, b, before, after);
  }

  lemma SomeHonest(f: RP.Federation, w: RP.World, id: string, k: RL.Key, accounts: set<string>)
    requires |w.ops| == f.n && |f.dishonest| < f.n
    requires forall o :: 0 <= o < f.n ==> (id, k, accounts) in w.ops[o].saw
    ensures RP.HonestApprovedSeeing(f, w, id, k, accounts)
  {
    var all := Limits.AllOf(f.n);
    if all <= f.dishonest {
      RP.SubsetSize(all, f.dishonest);
      assert false;
    }
    var o :| o in all && o !in f.dishonest;
    assert (id, k, accounts) in w.ops[o].saw;
  }

  /**
   A burn is paid on both sides, returned on GRAM and released on VIZ, in some run exactly when it
   exceeds the refund fee and its home account is made in between: missing on a node when the order
   is approved, there when the release lands. Nothing in the ledger sets the two against each other.
   */
  lemma PaidOnBothSidesIff(s: Signer, f: RP.Federation, b: RemoteBurn, before: set<string>, after: set<string>)
    requires NodeOk(s.deps) && SignsAs(f, s) && OrdersAs(f, s) && LooksLikeTonTxHash(b.sourceId)
    requires b.sourceId in s.deps.burns && s.deps.burns[b.sourceId] == b && b.chain in s.backing
    requires |f.dishonest| < f.threshold <= f.n && before <= after
    ensures MayBePaidOnBothSides(f, b, before, after)
            <==> b.amountMilliViz > s.deps.fees.refundFee && b.homeDestination !in before && b.homeDestination in after
  {
    if MayBePaidOnBothSides(f, b, before, after) {
      var ws: seq<RP.World> :| RP.Run(f, ws) && RP.HonestWellAsked(f, ws[|ws| - 1])
                               && PaidOnBothSides(f, ws[|ws| - 1], b, before, after);
      PaidOnBothSidesSaw(s, f, ws, b, before, after);
    }
    if Returnable(At(s, before).deps, b) && b.homeDestination in after {
      AccountMadeBetween(s, f, b, before, after);
    }
  }

  // ---------- mints ----------

  /** Signers approve what the coordinator quotes for a canonical mint on GRAM, at that net and destination only. */
  lemma QuotedMintIsApprovedIff(s: Signer, k: (string, nat), toAddress: string, destProvisioned: bool, proposalNet: string)
    requires NodeOk(s.deps) && k in s.deps.deposits && s.deps.deposits[k].destinationValid
    requires QuotePegIn(s.deps.deposits[k].amountMilliViz, destProvisioned, PolicyFor(s.deps.fees, GRAM)).Accepted?
    ensures var d := s.deps.deposits[k];
            var q := QuotePegIn(d.amountMilliViz, destProvisioned, PolicyFor(s.deps.fees, GRAM));
            ApprovesGramMint(s, CanonicalPegIn(s.hash, d), toAddress, destProvisioned, proposalNet)
            <==> d.chain == GRAM && toAddress == d.destination && proposalNet == Decimal.Dec(q.b.net)
  {
    var d := s.deps.deposits[k];
    AcceptedPegInIsCanonical(s.hash, s.deps, CanonicalPegIn(s.hash, d));
    SignersAgreeWithQuote(d.amountMilliViz, destProvisioned, PolicyFor(s.deps.fees, GRAM), proposalNet);
  }

  // ---------- every action that is signed or approved ----------

  /** One of the payments that source validation accepts besides a mint. */
  ghost predicate IsPayout(s: Signer, a: Action) {
    || (exists k :: Accepted.IsSweep(s.hash, s.deps, a, k))
    || (exists k :: Accepted.IsRefund(s.hash, s.deps, a, k))
    || (exists id :: Accepted.IsReturn(s.hash, s.deps, a, id))
    || Accepted.IsRelease(s.hash, s.deps, a)
    || Accepted.IsSolanaRelease(s.hash, s.deps, a)
  }

  /** A signer signs a release for a payout of an event on its node, out of that chain's account, and to the letter. */
  lemma ReleaseIsSignedIff(s: Signer, a: Action, r: RL.Release)
    requires NodeOk(s.deps)
    ensures SignsRelease(s, a, r)
            <==> && a.direction == PEG_OUT && IsPayout(s, a)
                 && (exists ch :: a.remoteChain == Some(ch) && ch in s.backing && r.from == s.backing[ch])
                 && r.to == a.recipient && r.amount == VizAmount.MilliToViz(a.amountMilliViz) && r.memo == a.id
  {
    Accepted.AcceptedIff(s.hash, s.deps, a);
  }

  /**
   An order on GRAM is approved as a return for any payout told by a child's id, since validation goes
   by the id and not by the direction: a return, but a sweep or a refund as well, in each case to the
   action's own recipient and for exactly its amount.
   */
  lemma GramReturnIsApprovedIff(s: Signer, a: Action, toAddress: string, proposalAmount: string)
    requires NodeOk(s.deps)
    ensures ApprovesGramReturn(s, a, toAddress, proposalAmount)
            <==> && a.direction == GRAM_RETURN && toAddress == a.recipient
                 && VizAmount.ReadInteger(proposalAmount) == Some(a.amountMilliViz)
                 && (|| (exists k :: Accepted.IsSweep(s.hash, s.deps, a, k))
                     || (exists k :: Accepted.IsRefund(s.hash, s.deps, a, k))
                     || (exists id :: Accepted.IsReturn(s.hash, s.deps, a, id)))
  {
    Accepted.AcceptedIff(s.hash, s.deps, a);
  }

  /** A mint on GRAM is approved for a deposit for GRAM, to its destination, at its gross less base fee and surcharge. */
  lemma GramMintIsApprovedIff(s: Signer, a: Action, toAddress: string, destProvisioned: bool, proposalNet: string)
    requires NodeOk(s.deps)
    ensures ApprovesGramMint(s, a, toAddress, destProvisioned, proposalNet)
            <==> exists k :: Accepted.IsMint(s.hash, s.deps, a, k) && MintsOnGram(s, k, toAddress, destProvisioned, proposalNet)
  {
    Accepted.AcceptedIff(s.hash, s.deps, a);
    if ApprovesGramMint(s, a, toAddress, destProvisioned, proposalNet) {
      var k :| Accepted.IsMint(s.hash, s.deps, a, k);
      assert MintsOnGram(s, k, toAddress, destProvisioned, proposalNet);
    }
  }

  predicate MintsOnGram(s: Signer, k: (string, nat), toAddress: string, destProvisioned: bool, proposalNet: string) {
    k in s.deps.deposits && var d := s.deps.deposits[k];
    && d.chain == GRAM && toAddress == d.destination
    && var net := d.amountMilliViz - BaseFee(d.amountMilliViz, PolicyFor(s.deps.fees, GRAM))
                  - (if destProvisioned then 0 else s.deps.fees.activationGram);
       net > 0 && proposalNet == Decimal.Dec(net)
  }
}
