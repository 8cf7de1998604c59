/** The peg-in fee, in milli-VIZ, as the coordinator quotes it and each signer re-derives it. */
module Fees {
  import opened Wrappers
  import opened Decimal

  datatype Chain = GRAM | SOLANA

  datatype FeePolicy = FeePolicy(floor: nat, bps: nat, activationSurcharge: nat, mintGasFloor: nat)

  datatype FeeConfig = FeeConfig(floor: nat, gramFloor: Option<nat>, bps: nat,
                                 activationGram: nat, activationSolana: nat,
                                 mintGasGram: nat, mintGasSolana: nat, refundFee: nat)

  datatype Breakdown = Breakdown(gross: nat, base: nat, activation: nat, fee: nat, net: int)

  datatype Quote = Accepted(b: Breakdown) | BelowMin(minMilliViz: nat)

  function PolicyFor(fees: FeeConfig, chain: Chain): FeePolicy {
    match chain
    case GRAM =>
      FeePolicy(if fees.gramFloor.Some? then fees.gramFloor.value else fees.floor, fees.bps,
                fees.activationGram, fees.mintGasGram)
    case SOLANA => FeePolicy(fees.floor, fees.bps, fees.activationSolana, fees.mintGasSolana)
  }

  function BaseFee(gross: nat, p: FeePolicy): nat {
    var pct := gross * p.bps / 10000;
    if pct > p.floor then pct else p.floor
  }

  function QuotePegIn(gross: nat, destProvisioned: bool, p: FeePolicy): Quote {
    var base := BaseFee(gross, p);
    var activation := if destProvisioned then 0 else p.activationSurcharge;
    var fee := base + activation;
    var net := gross - fee;
    if net <= 0 || net < p.mintGasFloor
    then BelowMin(fee + p.mintGasFloor)
    else Accepted(Breakdown(gross, base, activation, fee, net))
  }

  /** The signer's check on a mint proposal: the net it re-derives, positive, and written the same. */
  predicate AssertNet(gross: nat, destProvisioned: bool, proposalNet: string, p: FeePolicy) {
    var net := gross - BaseFee(gross, p) - (if destProvisioned then 0 else p.activationSurcharge);
    net > 0 && proposalNet == Dec(net)
  }

  // ---------- agreement ----------

  /**
   What the coordinator quotes, every signer with the same policy signs, for that net and no
   other, and nothing of the deposit is unaccounted for. What a signer accepts, the
   coordinator quotes unless it falls under the mint-gas floor.
   */
  lemma SignersAgreeWithQuote(gross: nat, destProvisioned: bool, p: FeePolicy, proposalNet: string)
    ensures var q := QuotePegIn(gross, destProvisioned, p);
            && (q.Accepted? ==> q.b.base + q.b.activation + q.b.net == gross && q.b.net > 0)
            && (q.Accepted? ==> (AssertNet(gross, destProvisioned, proposalNet, p) <==> proposalNet == Dec(q.b.net)))
            && (q.BelowMin? && AssertNet(gross, destProvisioned, proposalNet, p) ==>
                  0 < Value(proposalNet) < p.mintGasFloor)
  {
    var net := gross - BaseFee(gross, p) - (if destProvisioned then 0 else p.activationSurcharge);
    if net > 0 {
      ValueOfDec(net);
    }
  }

  // ---------- monotonicity ----------

  lemma PercentGrowsSlowly(g: nat, h: nat, bps: nat)
    requires g <= h && bps <= 10000
    ensures 0 <= h * bps / 10000 - g * bps / 10000 <= h - g
  {
    assert g * bps <= h * bps by { MulMonotone(g, h, bps); }
    assert h * bps - g * bps == (h - g) * bps;
    assert (h - g) * bps <= (h - g) * 10000 by { MulMonotone(bps, 10000, h - g); }
    DivStep(g * bps, h * bps, h - g);
  }

  lemma MulMonotone(a: nat, b: nat, c: nat)
    requires a <= b
    ensures a * c <= b * c && c * a <= c * b
  {
    assert b * c - a * c == (b - a) * c;
    assert (b - a) * c >= 0;
  }

  lemma DivStep(a: nat, b: nat, d: nat)
    requires a <= b <= a + d * 10000
    ensures a / 10000 <= b / 10000 <= a / 10000 + d
  {
  }

  /** A larger deposit never has a smaller base fee. */
  lemma BaseGrows(g: nat, h: nat, p: FeePolicy)
    requires g <= h
    ensures BaseFee(g, p) <= BaseFee(h, p)
  {
    MulMonotone(g, h, p.bps);
  }

  /** The base fee is the least that is at least the floor and at least the percentage, rounded down. */
  lemma BaseIsLarger(gross: nat, p: FeePolicy, fee: nat)
    ensures fee >= BaseFee(gross, p) <==> fee >= p.floor && 10000 * (fee + 1) > gross * p.bps
  {
    var pct := gross * p.bps / 10000;
    assert gross * p.bps == 10000 * pct + gross * p.bps % 10000;
  }

  /** With bps at most 10000 a larger deposit never nets less. */
  lemma NetMonotone(g: nat, h: nat, p: FeePolicy)
    requires g <= h && p.bps <= 10000
    ensures BaseFee(g, p) <= BaseFee(h, p)
    ensures g - BaseFee(g, p) <= h - BaseFee(h, p)
  {
    PercentGrowsSlowly(g, h, p.bps);
  }

  /** So acceptance is upward closed. */
  lemma AcceptanceUpwardClosed(g: nat, h: nat, destProvisioned: bool, p: FeePolicy)
    requires g <= h && p.bps <= 10000 && QuotePegIn(g, destProvisioned, p).Accepted?
    ensures QuotePegIn(h, destProvisioned, p).Accepted?
    ensures QuotePegIn(g, destProvisioned, p).b.net <= QuotePegIn(h, destProvisioned, p).b.net
  {
    NetMonotone(g, h, p);
  }

  /**
   The minimum named in a rejection is itself accepted exactly when there is a mint-gas floor
   and the base fee does not rise on the way to it.
   */
  lemma QuotedMinimumSuffices(g: nat, destProvisioned: bool, p: FeePolicy)
    requires p.bps <= 10000 && QuotePegIn(g, destProvisioned, p).BelowMin?
    ensures var min := QuotePegIn(g, destProvisioned, p).minMilliViz;
            QuotePegIn(min, destProvisioned, p).Accepted? <==> p.mintGasFloor > 0 && BaseFee(min, p) == BaseFee(g, p)
  {
    var min := QuotePegIn(g, destProvisioned, p).minMilliViz;
    NetMonotone(g, min, p);
  }

  /** Conversely every rejected deposit is below the named minimum, or equal to it when there is no mint-gas floor. */
  lemma RejectedIsBelowQuotedMinimum(g: nat, destProvisioned: bool, p: FeePolicy)
    requires QuotePegIn(g, destProvisioned, p).BelowMin?
    ensures var min := QuotePegIn(g, destProvisioned, p).minMilliViz;
            g < min || (g == min && p.mintGasFloor == 0)
  {
    var base := BaseFee(g, p);
    assert QuotePegIn(g, destProvisioned, p).minMilliViz
           == base + (if destProvisioned then 0 else p.activationSurcharge) + p.mintGasFloor;
  }
}
