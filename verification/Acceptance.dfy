/**
 Everything a signer's source validation accepts, told by what its own node holds: the six payments
 there are, with their ids, recipients, amounts and the texts under their digests written out.
 */
module Acceptance {
  import opened Wrappers
  import opened Decimal
  import opened Fees
  import opened Canonical
  import opened SourceValidator
  import Policy

  // ---------- the texts under the digests ----------

  function Tagged(s: string): string {
    Dec(|s|) + ":" + s
  }

  function Then(field: string, rest: string): string {
    field + ("|" + rest)
  }

  function ChainTag(c: Chain): string {
    match c
    case GRAM => "4:GRAM"
    case SOLANA => "6:SOLANA"
  }

  function MintText(d: Deposit): string {
    Then("1:v=1:1", Then("3:dir=6:PEG_IN", Then("3:src=" + Tagged(d.trxId + ":" + Dec(d.opIndex)),
    Then("5:chain=" + ChainTag(d.chain), Then("9:recipient=" + Tagged(d.destination),
    "16:amount_milli_viz=" + Tagged(Dec(d.amountMilliViz)))))))
  }

  function BurnText(b: RemoteBurn): string {
    Then("1:v=1:1", Then("3:dir=7:PEG_OUT", Then("5:chain=" + ChainTag(b.chain), Then("3:src=" + Tagged(b.sourceId),
    Then("9:recipient=" + Tagged(b.homeDestination), "16:amount_milli_viz=" + Tagged(Dec(b.amountMilliViz)))))))
  }

  lemma FieldIs(key: string, value: string, text: string)
    requires text == Dec(|key|) + ":" + key + "="
    ensures EncodeField(Field(key, value)) == text + Tagged(value)
  {
  }

  lemma Lengths()
    ensures Dec(1) == "1" && Dec(3) == "3" && Dec(4) == "4" && Dec(5) == "5" && Dec(6) == "6" && Dec(7) == "7" && Dec(9) == "9"
    ensures Dec(16) == "16"
  {
    assert DigitOf(1) == '1' && DigitOf(6) == '6';
    assert Dec(16) == Dec(1) + [DigitOf(6)];
  }

  lemma FirstField(f: Field, rest: seq<Field>)
    ensures CanonicalString([f] + rest) == if rest == [] then EncodeField(f) else Then(EncodeField(f), CanonicalString(rest))
  {
    assert ([f] + rest)[1..] == rest;
    assert EncodeField(f) + "" == EncodeField(f);
  }

  lemma SixFields(a: Field, b: Field, c: Field, d: Field, e: Field, f: Field)
    ensures CanonicalString([a, b, c, d, e, f])
            == Then(EncodeField(a), Then(EncodeField(b), Then(EncodeField(c), Then(EncodeField(d), Then(EncodeField(e), EncodeField(f))))))
  {
    FirstField(f, []);
    FirstField(e, [f]);
    FirstField(d, [e, f]);
    FirstField(c, [d, e, f]);
    FirstField(b, [c, d, e, f]);
    FirstField(a, [b, c, d, e, f]);
    assert [f] + [] == [f] && [e] + [f] == [e, f] && [d] + [e, f] == [d, e, f] && [c] + [d, e, f] == [c, d, e, f];
    assert [b] + [c, d, e, f] == [b, c, d, e, f] && [a] + [b, c, d, e, f] == [a, b, c, d, e, f];
  }

  lemma ChainField(c: Chain)
    ensures EncodeField(Field("chain", ChainName(c))) == "5:chain=" + ChainTag(c)
  {
    Lengths();
    FieldIs("chain", ChainName(c), "5:chain=");
  }

  lemma ShortField(key: string, value: string)
    ensures |key| == 3 ==> EncodeField(Field(key, value)) == ("3:" + key + "=") + Tagged(value)
    ensures |key| == 9 ==> EncodeField(Field(key, value)) == ("9:" + key + "=") + Tagged(value)
    ensures |key| == 16 ==> EncodeField(Field(key, value)) == ("16:" + key + "=") + Tagged(value)
  {
    Lengths();
    FieldIs(key, value, Dec(|key|) + ":" + key + "=");
  }

  lemma ValueFields(id: string, recipient: string, amount: string)
    ensures EncodeField(Field("src", id)) == "3:src=" + Tagged(id)
    ensures EncodeField(Field("recipient", recipient)) == "9:recipient=" + Tagged(recipient)
    ensures EncodeField(Field("amount_milli_viz", amount)) == "16:amount_milli_viz=" + Tagged(amount)
  {
    ShortField("src", id);
    ShortField("recipient", recipient);
    ShortField("amount_milli_viz", amount);
    assert "3:" + "src" + "=" == "3:src=" && "9:" + "recipient" + "=" == "9:recipient=";
    assert "16:" + "amount_milli_viz" + "=" == "16:amount_milli_viz=";
  }

  lemma VersionField()
    ensures EncodeField(Field("v", "1")) == "1:v=1:1"
  {
    Lengths();
    FieldIs("v", "1", "1:v=");
    assert Tagged("1") == "1:1";
  }

  lemma DirectionField(out: bool)
    ensures EncodeField(Field("dir", if out then "PEG_OUT" else "PEG_IN")) == if out then "3:dir=7:PEG_OUT" else "3:dir=6:PEG_IN"
  {
    Lengths();
    ShortField("dir", if out then "PEG_OUT" else "PEG_IN");
    assert "3:" + "dir" + "=" == "3:dir=";
    assert Tagged("PEG_OUT") == "7:PEG_OUT" && Tagged("PEG_IN") == "6:PEG_IN";
  }

  lemma MintTextIsHashed(hash: string -> string, d: Deposit)
    ensures CanonicalPegIn(hash, d).digest == hash(MintText(d))
  {
    var f := PegInFields(d);
    SixFields(f[0], f[1], f[2], f[3], f[4], f[5]);
    assert f == [f[0], f[1], f[2], f[3], f[4], f[5]];
    VersionField();
    DirectionField(false);
    ChainField(d.chain);
    ValueFields(PegInId(d), d.destination, Dec(d.amountMilliViz));
  }

  lemma BurnTextIsHashed(hash: string -> string, b: RemoteBurn)
    ensures CanonicalPegOut(hash, b).digest == hash(BurnText(b))
  {
    var f := PegOutFields(b);
    SixFields(f[0], f[1], f[2], f[3], f[4], f[5]);
    assert f == [f[0], f[1], f[2], f[3], f[4], f[5]];
    VersionField();
    DirectionField(true);
    ChainField(b.chain);
    ValueFields(b.sourceId, b.homeDestination, Dec(b.amountMilliViz));
  }

  // ---------- the six payments ----------

  predicate IsLetter(c: char) {
    'a' <= c <= 'z' || 'A' <= c <= 'Z'
  }

  /** 64 hexadecimal digits, in either case. */
  predicate HexId(id: string) {
    |id| == 64 && forall i :: 0 <= i < 64 ==> IsDigit(id[i]) || (IsLetter(id[i]) && (id[i] <= 'F' || 'a' <= id[i] <= 'f'))
  }

  /** 86 to 90 digits and letters, but none of the four that look alike. */
  predicate Base58Id(id: string) {
    86 <= |id| <= 90 && forall i :: 0 <= i < |id| ==> (IsDigit(id[i]) || IsLetter(id[i])) && id[i] !in {'0', 'I', 'O', 'l'}
  }

  /** A deposit that names a usable destination is minted to it. */
  ghost predicate IsMint(hash: string -> string, deps: Deps, a: Action, k: (string, nat)) {
    k in deps.deposits && var d := deps.deposits[k];
    && d.destinationValid
    && a == Action(PEG_IN, k.0 + ":" + Dec(k.1), Some(d.chain), d.destination, d.amountMilliViz, hash(MintText(d)))
  }

  /** Its base fee is swept to the fees gate. */
  ghost predicate IsSweep(hash: string -> string, deps: Deps, a: Action, k: (string, nat)) {
    k in deps.deposits && var d := deps.deposits[k];
    && a.direction != PEG_IN
    && a == Action(a.direction, k.0 + ":" + Dec(k.1) + ":fee", Some(d.chain), deps.feesGate,
                   BaseFee(d.amountMilliViz, PolicyFor(deps.fees, d.chain)), hash(MintText(d)) + ":fee")
  }

  /** Or it is refunded to its sender, less the refund fee. */
  ghost predicate IsRefund(hash: string -> string, deps: Deps, a: Action, k: (string, nat)) {
    k in deps.deposits && var d := deps.deposits[k];
    && a.direction != PEG_IN && d.amountMilliViz > deps.fees.refundFee
    && a == Action(a.direction, k.0 + ":" + Dec(k.1) + ":refund", Some(d.chain), d.from,
                   d.amountMilliViz - deps.fees.refundFee, hash(MintText(d)) + ":refund")
  }

  /** A burn is released to its home account. */
  ghost predicate IsRelease(hash: string -> string, deps: Deps, a: Action) {
    HexId(a.id) && a.id in deps.burns && var b := deps.burns[a.id];
    a == Action(PEG_OUT, b.sourceId, Some(b.chain), b.homeDestination, b.amountMilliViz, hash(BurnText(b)))
  }

  /** Or, while that account is missing, returned to its sender, less the refund fee. */
  ghost predicate IsReturn(hash: string -> string, deps: Deps, a: Action, id: string) {
    HexId(id) && id in deps.burns && var b := deps.burns[id];
    && a.direction != PEG_IN && b.homeDestination !in deps.accounts && b.amountMilliViz > deps.fees.refundFee
    && a == Action(a.direction, id + ":return", Some(b.chain), b.from,
                   b.amountMilliViz - deps.fees.refundFee, hash(BurnText(b)) + ":return")
  }

  /** A transfer on Solana to the deposit address of a recipient is released to that recipient. */
  ghost predicate IsSolanaRelease(hash: string -> string, deps: Deps, a: Action) {
    Base58Id(a.id) && (a.id, a.recipient) in deps.solanaTransfers
    && var amount := deps.solanaTransfers[(a.id, a.recipient)];
    a == Action(PEG_OUT, a.id, Some(SOLANA), a.recipient, amount,
                hash(BurnText(RemoteBurn(SOLANA, a.id, "", amount, a.recipient))))
  }

  // ---------- accepted exactly when it is one of them ----------

  lemma IdForms(id: string)
    ensures LooksLikeTonTxHash(id) <==> HexId(id)
    ensures LooksLikeSolanaSignature(id) <==> Base58Id(id)
  {
    if HexId(id) {
      forall c | c in id ensures '0' <= c <= '9' || 'a' <= c <= 'f' || 'A' <= c <= 'F' {
        var i :| 0 <= i < |id| && id[i] == c;
      }
    }
    if Base58Id(id) {
      forall c | c in id ensures IsDigit(c) || IsLetter(c) {
        var i :| 0 <= i < |id| && id[i] == c;
      }
    }
    assert forall i :: 0 <= i < |id| ==> id[i] in id;
  }

  /** No two of the forms share an id. */
  lemma FormsApart(id: string)
    ensures Policy.EndsWith(id, ":fee") ==> !Policy.EndsWith(id, ":refund") && !Policy.EndsWith(id, ":return")
    ensures Policy.EndsWith(id, ":refund") ==> !Policy.EndsWith(id, ":return")
    ensures LooksLikeTonTxHash(id) || LooksLikeSolanaSignature(id) ==> Policy.IsSourceId(id)
    ensures !(LooksLikeTonTxHash(id) && LooksLikeSolanaSignature(id))
  {
    if LooksLikeTonTxHash(id) || LooksLikeSolanaSignature(id) {
      assert id[|id| - 4] in id && id[|id| - 7] in id;
    }
    if |id| >= 7 {
      var last := id[|id| - 1];
      assert Policy.EndsWith(id, ":fee") ==> last == ":fee"[3];
      assert Policy.EndsWith(id, ":refund") ==> last == ":refund"[6];
      assert Policy.EndsWith(id, ":return") ==> last == ":return"[6];
    }
  }

  lemma MintAccepted(hash: string -> string, deps: Deps, a: Action)
    requires NodeOk(deps) && a.direction == PEG_IN
    ensures Validate(hash, a, deps) <==> exists k :: IsMint(hash, deps, a, k)
  {
    AcceptedPegInIsCanonical(hash, deps, a);
    forall k | k in deps.deposits ensures CanonicalPegIn(hash, deps.deposits[k]).digest == hash(MintText(deps.deposits[k])) {
      MintTextIsHashed(hash, deps.deposits[k]);
    }
    if k :| k in deps.deposits && deps.deposits[k].destinationValid && a == CanonicalPegIn(hash, deps.deposits[k]) {
      assert IsMint(hash, deps, a, k);
    }
  }

  lemma SweepAccepted(hash: string -> string, deps: Deps, a: Action)
    requires NodeOk(deps) && a.direction != PEG_IN && Policy.EndsWith(a.id, ":fee")
    ensures Validate(hash, a, deps) <==> exists k :: IsSweep(hash, deps, a, k)
  {
    AcceptedSweepIsTheSpawnedChild(hash, deps, a);
    forall k | k in deps.deposits ensures IsSweepChild(hash, deps, deps.deposits[k], a) <==> IsSweep(hash, deps, a, k) {
      MintTextIsHashed(hash, deps.deposits[k]);
    }
  }

  lemma RefundAccepted(hash: string -> string, deps: Deps, a: Action)
    requires NodeOk(deps) && a.direction != PEG_IN && Policy.EndsWith(a.id, ":refund")
    ensures Validate(hash, a, deps) <==> exists k :: IsRefund(hash, deps, a, k)
  {
    AcceptedRefundIsTheSpawnedChild(hash, deps, a);
    forall k | k in deps.deposits ensures IsRefundChild(hash, deps, deps.deposits[k], a) <==> IsRefund(hash, deps, a, k) {
      MintTextIsHashed(hash, deps.deposits[k]);
    }
  }

  lemma ReturnAccepted(hash: string -> string, deps: Deps, a: Action)
    requires NodeOk(deps) && a.direction != PEG_IN && Policy.EndsWith(a.id, ":return")
    ensures Validate(hash, a, deps) <==> exists id :: IsReturn(hash, deps, a, id)
  {
    FormsApart(a.id);
    var id := a.id[..|a.id| - 7];
    IdForms(id);
    assert a.id == id + ":return";
    if id in deps.burns {
      BurnTextIsHashed(hash, deps.burns[id]);
    }
    forall x | IsReturn(hash, deps, a, x) ensures x == id {
      assert (x + ":return")[..|x|] == x;
    }
    assert Validate(hash, a, deps) <==> IsReturn(hash, deps, a, id);
  }

  lemma ReleaseAccepted(hash: string -> string, deps: Deps, a: Action)
    requires NodeOk(deps) && a.direction != PEG_IN && Policy.IsSourceId(a.id)
    ensures Validate(hash, a, deps) <==> IsRelease(hash, deps, a) || IsSolanaRelease(hash, deps, a)
  {
    IdForms(a.id);
    FormsApart(a.id);
    if a.id in deps.burns {
      BurnTextIsHashed(hash, deps.burns[a.id]);
    }
    if (a.id, a.recipient) in deps.solanaTransfers {
      BurnTextIsHashed(hash, RemoteBurn(SOLANA, a.id, "", deps.solanaTransfers[(a.id, a.recipient)], a.recipient));
    }
  }

  lemma FormsEnd(hash: string -> string, deps: Deps, a: Action)
    requires NodeOk(deps)
    ensures (exists k :: IsSweep(hash, deps, a, k)) ==> a.direction != PEG_IN && Policy.EndsWith(a.id, ":fee")
    ensures (exists k :: IsRefund(hash, deps, a, k)) ==> a.direction != PEG_IN && Policy.EndsWith(a.id, ":refund")
    ensures (exists id :: IsReturn(hash, deps, a, id)) ==> a.direction != PEG_IN && Policy.EndsWith(a.id, ":return")
    ensures IsRelease(hash, deps, a) || IsSolanaRelease(hash, deps, a) ==> a.direction != PEG_IN && Policy.IsSourceId(a.id)
  {
    if k :| IsSweep(hash, deps, a, k) { Policy.ChildIdEnds(k.0 + ":" + Dec(k.1), ":fee"); }
    if k :| IsRefund(hash, deps, a, k) { Policy.ChildIdEnds(k.0 + ":" + Dec(k.1), ":refund"); }
    if id :| IsReturn(hash, deps, a, id) { Policy.ChildIdEnds(id, ":return"); }
    IdForms(a.id);
    FormsApart(a.id);
  }

  /** A signer accepts an action if and only if it is one of the six payments of an event on its own node. */
  lemma AcceptedIff(hash: string -> string, deps: Deps, a: Action)
    requires NodeOk(deps)
    ensures Validate(hash, a, deps)
            <==> || (exists k :: IsMint(hash, deps, a, k))
                 || (exists k :: IsSweep(hash, deps, a, k))
                 || (exists k :: IsRefund(hash, deps, a, k))
                 || (exists id :: IsReturn(hash, deps, a, id))
                 || IsRelease(hash, deps, a)
                 || IsSolanaRelease(hash, deps, a)
  {
    FormsEnd(hash, deps, a);
    FormsApart(a.id);
    if a.direction == PEG_IN {
      MintAccepted(hash, deps, a);
    } else if Policy.EndsWith(a.id, ":fee") {
      SweepAccepted(hash, deps, a);
    } else if Policy.EndsWith(a.id, ":refund") {
      RefundAccepted(hash, deps, a);
    } else if Policy.EndsWith(a.id, ":return") {
      ReturnAccepted(hash, deps, a);
    } else {
      ReleaseAccepted(hash, deps, a);
    }
  }
}
