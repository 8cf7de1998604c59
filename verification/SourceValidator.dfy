/**
 The signer's independent source validation. Every reader below is the operator's own node;
 the action is whatever an untrusted coordinator sent. What the validator accepts is compared
 with what the watchers enqueue and the dispatcher spawns.
 */
module SourceValidator {
  import opened Wrappers
  import opened Decimal
  import opened Fees
  import opened Canonical
  import Policy

  /** The operator's own view and configuration; `accounts` are the VIZ accounts that exist. */
  datatype Deps = Deps(deposits: map<(string, nat), Deposit>, burns: map<string, RemoteBurn>,
                       solanaTransfers: map<(string, string), nat>, accounts: set<string>,
                       fees: FeeConfig, feesGate: string)

  /** What a node's answers look like: it echoes the key it was asked for, and ids have their chain's form. */
  ghost predicate NodeOk(deps: Deps) {
    && (forall k :: k in deps.deposits ==> deps.deposits[k].trxId == k.0 && deps.deposits[k].opIndex == k.1
                                           && k.0 != "" && ':' !in k.0)
    && (forall k :: k in deps.burns ==> deps.burns[k].sourceId == k && deps.burns[k].chain == GRAM)
  }

  predicate IsHex(s: string) {
    forall c :: c in s ==> '0' <= c <= '9' || 'a' <= c <= 'f' || 'A' <= c <= 'F'
  }

  /** `/^[0-9a-f]{64}$/i` */
  predicate LooksLikeTonTxHash(id: string) {
    |id| == 64 && IsHex(id)
  }

  /** `/^[1-9A-HJ-NP-Za-km-z]{86,90}$/` */
  predicate LooksLikeSolanaSignature(id: string) {
    86 <= |id| <= 90
    && forall c :: c in id ==>
                     '1' <= c <= '9' || 'A' <= c <= 'H' || 'J' <= c <= 'N' || 'P' <= c <= 'Z'
                     || 'a' <= c <= 'k' || 'm' <= c <= 'z'
  }

  function IndexOf(s: string, c: char): (i: int)
    ensures if i < 0 then i == -1 && c !in s else i < |s| && s[i] == c && c !in s[..i]
  {
    if s == "" then -1
    else if s[0] == c then 0
    else
      var i := IndexOf(s[1..], c);
      assert i >= 0 ==> s[..i + 1] == [s[0]] + s[1..][..i];
      if i < 0 then -1 else i + 1
  }

  /** Transaction id and operation index as text; the transaction id is "" unless a ':' follows it. */
  function SplitId(id: string): (string, string) {
    var sep := IndexOf(id, ':');
    (if sep > 0 then id[..sep] else "", id[sep + 1..])
  }

  lemma SplitOfJoined(trxId: string, rest: string)
    requires trxId != "" && ':' !in trxId
    ensures SplitId(trxId + ":" + rest) == (trxId, rest)
  {
    var id := trxId + ":" + rest;
    var sep := IndexOf(id, ':');
    assert id[|trxId|] == ':';
    assert forall i :: 0 <= i < |trxId| ==> id[i] == trxId[i] && id[i] != ':';
    assert forall i :: 0 <= i < sep ==> id[..sep][i] == id[i];
    assert sep == |trxId|;
    assert id[..sep] == trxId && id[sep + 1..] == rest;
  }

  /** The deposit that a strict `<trxId>:<digits>` id leads to on this node. */
  function ReadDeposit(deps: Deps, id: string): Option<Deposit> {
    var (trxId, opStr) := SplitId(id);
    if trxId == "" || !IsNumeral(opStr) then None
    else if (trxId, Value(opStr)) in deps.deposits then Some(deps.deposits[(trxId, Value(opStr))])
    else None
  }

  predicate SameAction(derived: Action, wire: Action) {
    && derived.id == wire.id && derived.direction == wire.direction && derived.recipient == wire.recipient
    && derived.amountMilliViz == wire.amountMilliViz && derived.remoteChain == wire.remoteChain
    && derived.digest == wire.digest
  }

  predicate ValidPegIn(hash: string -> string, a: Action, deps: Deps) {
    var d := ReadDeposit(deps, a.id);
    d.Some? && d.value.destinationValid && SameAction(CanonicalPegIn(hash, d.value), a)
  }

  /** The parent deposit of a child, provided the child id is the canonical one. */
  function ReReadParent(hash: string -> string, a: Action, suffix: string, deps: Deps): Option<Deposit>
    requires |suffix| <= |a.id|
  {
    var d := ReadDeposit(deps, a.id[..|a.id| - |suffix|]);
    if d.Some? && a.id == CanonicalPegIn(hash, d.value).id + suffix then d else None
  }

  predicate ValidFeeSweep(hash: string -> string, a: Action, deps: Deps)
    requires Policy.EndsWith(a.id, Policy.FEE_SUFFIX)
  {
    var d := ReReadParent(hash, a, Policy.FEE_SUFFIX, deps);
    && d.Some?
    && a.remoteChain == Some(d.value.chain)
    && a.recipient == deps.feesGate
    && a.digest == CanonicalPegIn(hash, d.value).digest + Policy.FEE_SUFFIX
    && a.amountMilliViz == BaseFee(d.value.amountMilliViz, PolicyFor(deps.fees, d.value.chain))
  }

  predicate ValidRefund(hash: string -> string, a: Action, deps: Deps)
    requires Policy.EndsWith(a.id, Policy.REFUND_SUFFIX)
  {
    var d := ReReadParent(hash, a, Policy.REFUND_SUFFIX, deps);
    && d.Some?
    && a.remoteChain == Some(d.value.chain)
    && a.recipient == d.value.from
    && (var net := d.value.amountMilliViz - deps.fees.refundFee; net > 0 && a.amountMilliViz == net)
    && a.digest == CanonicalPegIn(hash, d.value).digest + Policy.REFUND_SUFFIX
  }

  predicate ValidGramReturn(hash: string -> string, a: Action, deps: Deps)
    requires Policy.EndsWith(a.id, Policy.RETURN_SUFFIX)
  {
    var parentId := a.id[..|a.id| - |Policy.RETURN_SUFFIX|];
    && LooksLikeTonTxHash(parentId)
    && parentId in deps.burns
    && var b := deps.burns[parentId];
       && b.homeDestination !in deps.accounts
       && a.remoteChain == Some(b.chain)
       && a.recipient == b.from
       && (var net := b.amountMilliViz - deps.fees.refundFee; net > 0 && a.amountMilliViz == net)
       && a.digest == CanonicalPegOut(hash, b).digest + Policy.RETURN_SUFFIX
  }

  predicate ValidSolanaPegOut(hash: string -> string, a: Action, deps: Deps) {
    (a.id, a.recipient) in deps.solanaTransfers
    && SameAction(CanonicalPegOut(hash, RemoteBurn(SOLANA, a.id, "", deps.solanaTransfers[(a.id, a.recipient)], a.recipient)), a)
  }

  predicate ValidTonPegOut(hash: string -> string, a: Action, deps: Deps) {
    a.id in deps.burns && SameAction(CanonicalPegOut(hash, deps.burns[a.id]), a)
  }

  /** `validateAction`: true where the source returns, false where it throws. */
  predicate Validate(hash: string -> string, a: Action, deps: Deps) {
    if a.direction == PEG_IN then ValidPegIn(hash, a, deps)
    else if Policy.EndsWith(a.id, Policy.FEE_SUFFIX) then ValidFeeSweep(hash, a, deps)
    else if Policy.EndsWith(a.id, Policy.REFUND_SUFFIX) then ValidRefund(hash, a, deps)
    else if Policy.EndsWith(a.id, Policy.RETURN_SUFFIX) then ValidGramReturn(hash, a, deps)
    else if LooksLikeSolanaSignature(a.id) then ValidSolanaPegOut(hash, a, deps)
    else if LooksLikeTonTxHash(a.id) then ValidTonPegOut(hash, a, deps)
    else false
  }

  // ---------- reading ids ----------

  /** The id of a deposit leads back to it. */
  lemma ReadBackDeposit(deps: Deps, k: (string, nat))
    requires NodeOk(deps) && k in deps.deposits
    ensures ReadDeposit(deps, PegInId(deps.deposits[k])) == Some(deps.deposits[k])
  {
    SplitOfJoined(k.0, Dec(k.1));
    ValueOfDec(k.1);
  }

  lemma ReadDepositIsOnNode(deps: Deps, id: string)
    requires NodeOk(deps) && ReadDeposit(deps, id).Some?
    ensures var d := ReadDeposit(deps, id).value; (d.trxId, d.opIndex) in deps.deposits && deps.deposits[(d.trxId, d.opIndex)] == d
  {
  }

  // ---------- what is accepted is what is spawned ----------

  /** The row a watcher records for a deposit, in whatever delivery state. */
  predicate RowOfDeposit(hash: string -> string, d: Deposit, r: Policy.Row) {
    var a := CanonicalPegIn(hash, d);
    && r.kind == Policy.PegIn && r.id == a.id && r.remoteChain == a.remoteChain && r.recipient == a.recipient
    && r.sender == Some(d.from) && r.amount == a.amountMilliViz && r.digest == a.digest
  }

  predicate RowOfBurn(hash: string -> string, b: RemoteBurn, r: Policy.Row) {
    var a := CanonicalPegOut(hash, b);
    && r.kind == Policy.PegOut && r.id == a.id && r.remoteChain == a.remoteChain && r.recipient == a.recipient
    && r.sender == Some(b.from) && r.amount == a.amountMilliViz && r.digest == a.digest
  }

  function ChildAction(c: Policy.NewRow): Action {
    Policy.ActionOf(c.kind, c.id, c.remoteChain, c.recipient, c.amount, c.digest)
  }

  /** The sweep amount the dispatcher passes for a confirmed peg-in, by its own fee configuration. */
  function SweepAmount(fees: FeeConfig, d: Deposit): nat {
    BaseFee(d.amountMilliViz, PolicyFor(fees, d.chain))
  }

  /**
   Children of a peg-in: every child the dispatcher spawns from a deposit's row is accepted by
   a signer that sees the deposit and shares the fee configuration.
   */
  lemma SpawnedChildrenAreAccepted(hash: string -> string, deps: Deps, k: (string, nat), r: Policy.Row,
                                   status: Policy.Status, c: Policy.NewRow)
    requires NodeOk(deps) && k in deps.deposits && RowOfDeposit(hash, deps.deposits[k], r)
    requires c in Policy.PlanChildren(r, status, deps.feesGate, SweepAmount(deps.fees, deps.deposits[k]), deps.fees.refundFee)
    ensures Validate(hash, ChildAction(c), deps)
  {
    var d, a := deps.deposits[k], ChildAction(c);
    if status == Policy.CONFIRMED {
      Policy.ChildIdEnds(r.id, Policy.FEE_SUFFIX);
      assert IsSweepChild(hash, deps, d, a);
      AcceptedSweepIsTheSpawnedChild(hash, deps, a);
    } else {
      Policy.ChildIdEnds(r.id, Policy.REFUND_SUFFIX);
      assert IsRefundChild(hash, deps, d, a);
      AcceptedRefundIsTheSpawnedChild(hash, deps, a);
    }
  }

  /**
   Conversely an accepted sweep is, but for the direction it claims, the one child that the
   dispatcher spawns for one deposit on this node: same id, recipient, amount, chain and
   digest. So zero-padded and other parse-equivalent ids are refused.
   */
  lemma AcceptedSweepIsTheSpawnedChild(hash: string -> string, deps: Deps, a: Action)
    requires NodeOk(deps) && a.direction != PEG_IN && Policy.EndsWith(a.id, Policy.FEE_SUFFIX)
    ensures Validate(hash, a, deps)
            <==> exists k :: k in deps.deposits && IsSweepChild(hash, deps, deps.deposits[k], a)
  {
    if Validate(hash, a, deps) {
      var d := ReReadParent(hash, a, Policy.FEE_SUFFIX, deps).value;
      ReadDepositIsOnNode(deps, a.id[..|a.id| - |Policy.FEE_SUFFIX|]);
      assert IsSweepChild(hash, deps, deps.deposits[(d.trxId, d.opIndex)], a);
    }
    if k :| k in deps.deposits && IsSweepChild(hash, deps, deps.deposits[k], a) {
      Policy.ChildIdEnds(PegInId(deps.deposits[k]), Policy.FEE_SUFFIX);
      ReadBackDeposit(deps, k);
    }
  }

  predicate IsSweepChild(hash: string -> string, deps: Deps, d: Deposit, a: Action) {
    var parent := CanonicalPegIn(hash, d);
    && a.id == parent.id + Policy.FEE_SUFFIX && a.remoteChain == parent.remoteChain && a.recipient == deps.feesGate
    && a.amountMilliViz == SweepAmount(deps.fees, d) && a.digest == parent.digest + Policy.FEE_SUFFIX
  }

  lemma AcceptedRefundIsTheSpawnedChild(hash: string -> string, deps: Deps, a: Action)
    requires NodeOk(deps) && a.direction != PEG_IN && Policy.EndsWith(a.id, Policy.REFUND_SUFFIX)
    ensures Validate(hash, a, deps)
            <==> exists k :: k in deps.deposits && IsRefundChild(hash, deps, deps.deposits[k], a)
  {
    RefundIsNotSweep(a.id);
    if Validate(hash, a, deps) {
      var d := ReReadParent(hash, a, Policy.REFUND_SUFFIX, deps).value;
      ReadDepositIsOnNode(deps, a.id[..|a.id| - |Policy.REFUND_SUFFIX|]);
      assert IsRefundChild(hash, deps, deps.deposits[(d.trxId, d.opIndex)], a);
    }
    if k :| k in deps.deposits && IsRefundChild(hash, deps, deps.deposits[k], a) {
      Policy.ChildIdEnds(PegInId(deps.deposits[k]), Policy.REFUND_SUFFIX);
      ReadBackDeposit(deps, k);
    }
  }

  predicate IsRefundChild(hash: string -> string, deps: Deps, d: Deposit, a: Action) {
    var parent := CanonicalPegIn(hash, d);
    && a.id == parent.id + Policy.REFUND_SUFFIX && a.remoteChain == parent.remoteChain && a.recipient == d.from
    && a.amountMilliViz == Policy.RefundAmount(d.amountMilliViz, deps.fees.refundFee) > 0
    && a.digest == parent.digest + Policy.REFUND_SUFFIX
  }

  /** At most one sweep and one refund per deposit: two accepted ones of a kind agree in all but direction. */
  lemma OneChildPerDepositAndKind(hash: string -> string, deps: Deps, a: Action, b: Action, suffix: string)
    requires NodeOk(deps) && Validate(hash, a, deps) && Validate(hash, b, deps)
    requires a.direction != PEG_IN && b.direction != PEG_IN
    requires suffix == Policy.FEE_SUFFIX || suffix == Policy.REFUND_SUFFIX
    requires Policy.EndsWith(a.id, suffix) && Policy.EndsWith(b.id, suffix)
    requires ParentOfChild(deps, a, suffix) == ParentOfChild(deps, b, suffix)
    ensures a.(direction := b.direction) == b
  {
    if suffix == Policy.REFUND_SUFFIX {
      OneRefundPerDeposit(hash, deps, a, b);
    } else {
      OneSweepPerDeposit(hash, deps, a, b);
    }
  }

  /** The deposit that a child's id leads to without its suffix. */
  function ParentOfChild(deps: Deps, a: Action, suffix: string): Option<Deposit>
    requires Policy.EndsWith(a.id, suffix)
  {
    ReadDeposit(deps, a.id[..|a.id| - |suffix|])
  }

  lemma OneSweepPerDeposit(hash: string -> string, deps: Deps, a: Action, b: Action)
    requires Validate(hash, a, deps) && Validate(hash, b, deps) && a.direction != PEG_IN && b.direction != PEG_IN
    requires Policy.EndsWith(a.id, Policy.FEE_SUFFIX) && Policy.EndsWith(b.id, Policy.FEE_SUFFIX)
    requires ParentOfChild(deps, a, Policy.FEE_SUFFIX) == ParentOfChild(deps, b, Policy.FEE_SUFFIX)
    ensures a.(direction := b.direction) == b
  {
    SameParentSameSweep(hash, deps, a, b);
  }

  lemma OneRefundPerDeposit(hash: string -> string, deps: Deps, a: Action, b: Action)
    requires Validate(hash, a, deps) && Validate(hash, b, deps) && a.direction != PEG_IN && b.direction != PEG_IN
    requires Policy.EndsWith(a.id, Policy.REFUND_SUFFIX) && Policy.EndsWith(b.id, Policy.REFUND_SUFFIX)
    requires ParentOfChild(deps, a, Policy.REFUND_SUFFIX) == ParentOfChild(deps, b, Policy.REFUND_SUFFIX)
    ensures a.(direction := b.direction) == b
  {
    ValidatedRefund(hash, deps, a);
    ValidatedRefund(hash, deps, b);
    SameParentSameRefund(hash, deps, a, b);
  }

  lemma ValidatedRefund(hash: string -> string, deps: Deps, a: Action)
    requires Validate(hash, a, deps) && a.direction != PEG_IN && Policy.EndsWith(a.id, Policy.REFUND_SUFFIX)
    ensures ValidRefund(hash, a, deps)
  {
    RefundIsNotSweep(a.id);
  }

  lemma RefundIsNotSweep(id: string)
    requires Policy.EndsWith(id, Policy.REFUND_SUFFIX)
    ensures !Policy.EndsWith(id, Policy.FEE_SUFFIX)
  {
    assert id[|id| - 1] == Policy.REFUND_SUFFIX[6];
  }

  lemma SameParentSameSweep(hash: string -> string, deps: Deps, a: Action, b: Action)
    requires Policy.EndsWith(a.id, Policy.FEE_SUFFIX) && Policy.EndsWith(b.id, Policy.FEE_SUFFIX)
    requires ValidFeeSweep(hash, a, deps) && ValidFeeSweep(hash, b, deps)
    requires ParentOfChild(deps, a, Policy.FEE_SUFFIX) == ParentOfChild(deps, b, Policy.FEE_SUFFIX)
    ensures a.(direction := b.direction) == b
  {
  }

  lemma SameParentSameRefund(hash: string -> string, deps: Deps, a: Action, b: Action)
    requires Policy.EndsWith(a.id, Policy.REFUND_SUFFIX) && Policy.EndsWith(b.id, Policy.REFUND_SUFFIX)
    requires ValidRefund(hash, a, deps) && ValidRefund(hash, b, deps)
    requires ParentOfChild(deps, a, Policy.REFUND_SUFFIX) == ParentOfChild(deps, b, Policy.REFUND_SUFFIX)
    ensures a.(direction := b.direction) == b
  {
  }

  /** A peg-in is accepted exactly when it is the canonical action of a mintable deposit on this node. */
  lemma AcceptedPegInIsCanonical(hash: string -> string, deps: Deps, a: Action)
    requires NodeOk(deps) && a.direction == PEG_IN
    ensures Validate(hash, a, deps)
            <==> exists k :: k in deps.deposits && deps.deposits[k].destinationValid && a == CanonicalPegIn(hash, deps.deposits[k])
  {
    if Validate(hash, a, deps) {
      var d := ReadDeposit(deps, a.id).value;
      ReadDepositIsOnNode(deps, a.id);
      assert a == CanonicalPegIn(hash, deps.deposits[(d.trxId, d.opIndex)]);
    }
    if k :| k in deps.deposits && deps.deposits[k].destinationValid && a == CanonicalPegIn(hash, deps.deposits[k]) {
      ReadBackDeposit(deps, k);
    }
  }

  /** A padded operation index reads as the same deposit and is still refused. */
  lemma PaddedIdIsRefused(hash: string -> string, deps: Deps, k: (string, nat), a: Action)
    requires NodeOk(deps) && k in deps.deposits
    requires a.id == k.0 + ":0" + Dec(k.1)
    ensures ReadDeposit(deps, a.id) == Some(deps.deposits[k])
    ensures a.direction == PEG_IN ==> !Validate(hash, a, deps)
  {
    var padded := "0" + Dec(k.1);
    assert a.id == k.0 + ":" + padded;
    SplitOfJoined(k.0, padded);
    LeadingZero(Dec(k.1));
    ValueOfDec(k.1);
    assert |a.id| == |PegInId(deps.deposits[k])| + 1;
  }

  lemma {:induction false} LeadingZero(s: string)
    requires forall c :: c in s ==> IsDigit(c)
    ensures Value("0" + s) == Value(s)
  {
    if s == "" {
      assert ("0" + s)[..0] == "";
    } else {
      assert ("0" + s)[..|s|] == "0" + s[..|s| - 1];
      assert forall c :: c in s[..|s| - 1] ==> c in s;
      LeadingZero(s[..|s| - 1]);
    }
  }

  // ---------- peg-outs and returns ----------

  /** A TON burn's action is accepted exactly as the watcher derives it. */
  lemma AcceptedTonPegOutIsCanonical(hash: string -> string, deps: Deps, a: Action)
    requires NodeOk(deps) && a.direction != PEG_IN && LooksLikeTonTxHash(a.id)
    ensures Validate(hash, a, deps) <==> a.id in deps.burns && a == CanonicalPegOut(hash, deps.burns[a.id])
  {
    assert IsHex(a.id) && a.id[|a.id| - 4] in a.id && a.id[|a.id| - 7] in a.id;
  }

  /** The burn's home account is missing, and there is something to send back. */
  predicate Returnable(deps: Deps, b: RemoteBurn) {
    b.homeDestination !in deps.accounts && b.amountMilliViz > deps.fees.refundFee
  }

  /** The action of the return that the dispatcher spawns for a burn. */
  function ReturnOf(hash: string -> string, deps: Deps, b: RemoteBurn): Action {
    var parent := CanonicalPegOut(hash, b);
    Action(GRAM_RETURN, parent.id + Policy.RETURN_SUFFIX, parent.remoteChain, b.from,
           b.amountMilliViz - deps.fees.refundFee, parent.digest + Policy.RETURN_SUFFIX)
  }

  lemma ReturnChildIs(hash: string -> string, deps: Deps, b: RemoteBurn, r: Policy.Row, c: Policy.NewRow)
    requires RowOfBurn(hash, b, r)
    requires c in Policy.PlanChildren(r, Policy.REFUNDING, deps.feesGate, 0, deps.fees.refundFee)
    ensures ChildAction(c) == ReturnOf(hash, deps, b) && b.amountMilliViz > deps.fees.refundFee
  {
  }

  lemma AcceptedReturnIff(hash: string -> string, deps: Deps, b: RemoteBurn)
    requires NodeOk(deps) && LooksLikeTonTxHash(b.sourceId)
    requires b.sourceId in deps.burns && deps.burns[b.sourceId] == b
    ensures Validate(hash, ReturnOf(hash, deps, b), deps) <==> Returnable(deps, b)
  {
    var a := ReturnOf(hash, deps, b);
    Policy.ChildIdEnds(b.sourceId, Policy.RETURN_SUFFIX);
    assert a.id[|a.id| - 1] == Policy.RETURN_SUFFIX[6];
  }

  /** The return that the dispatcher spawns for a burn is accepted exactly when its home account does not exist. */
  lemma ReturnOnlyWithoutDestination(hash: string -> string, deps: Deps, b: RemoteBurn, r: Policy.Row, c: Policy.NewRow)
    requires NodeOk(deps) && LooksLikeTonTxHash(b.sourceId)
    requires b.sourceId in deps.burns && deps.burns[b.sourceId] == b && RowOfBurn(hash, b, r)
    requires c in Policy.PlanChildren(r, Policy.REFUNDING, deps.feesGate, 0, deps.fees.refundFee)
    ensures Validate(hash, ChildAction(c), deps) <==> b.homeDestination !in deps.accounts
  {
    ReturnChildIs(hash, deps, b, r, c);
    AcceptedReturnIff(hash, deps, b);
  }

  // ---------- what validation does not decide ----------

  /**
   One burn has two payouts that a signer accepts side by side exactly when its home account is
   missing and it exceeds the refund fee: the release is accepted whether the account exists or not.
   */
  lemma ReleaseAndReturnBothAcceptedIff(hash: string -> string, deps: Deps, b: RemoteBurn)
    requires NodeOk(deps) && LooksLikeTonTxHash(b.sourceId)
    requires b.sourceId in deps.burns && deps.burns[b.sourceId] == b
    ensures Validate(hash, CanonicalPegOut(hash, b), deps) && Validate(hash, ReturnOf(hash, deps, b), deps)
            <==> Returnable(deps, b)
  {
    AcceptedTonPegOutIsCanonical(hash, deps, CanonicalPegOut(hash, b));
    AcceptedReturnIff(hash, deps, b);
  }

  function RefundOf(hash: string -> string, deps: Deps, d: Deposit): Action {
    var parent := CanonicalPegIn(hash, d);
    Action(PEG_OUT, parent.id + Policy.REFUND_SUFFIX, parent.remoteChain, d.from,
           d.amountMilliViz - deps.fees.refundFee, parent.digest + Policy.REFUND_SUFFIX)
  }

  lemma AcceptedRefundIff(hash: string -> string, deps: Deps, k: (string, nat))
    requires NodeOk(deps) && k in deps.deposits
    ensures Validate(hash, RefundOf(hash, deps, deps.deposits[k]), deps)
            <==> deps.deposits[k].amountMilliViz > deps.fees.refundFee
  {
    var d := deps.deposits[k];
    var a := RefundOf(hash, deps, d);
    Policy.ChildIdEnds(PegInId(d), Policy.REFUND_SUFFIX);
    AcceptedRefundIsTheSpawnedChild(hash, deps, a);
    if d.amountMilliViz > deps.fees.refundFee {
      assert IsRefundChild(hash, deps, d, a);
    }
  }

  /**
   A deposit's mint and its refund are accepted side by side exactly when the deposit can be
   minted and exceeds the refund fee. Choosing one of the two is left to the dispatcher.
   */
  lemma MintAndRefundBothAcceptedIff(hash: string -> string, deps: Deps, k: (string, nat))
    requires NodeOk(deps) && k in deps.deposits
    ensures var d := deps.deposits[k];
            Validate(hash, CanonicalPegIn(hash, d), deps) && Validate(hash, RefundOf(hash, deps, d), deps)
            <==> d.destinationValid && d.amountMilliViz > deps.fees.refundFee
  {
    var d := deps.deposits[k];
    ReadBackDeposit(deps, k);
    AcceptedRefundIff(hash, deps, k);
  }
}
