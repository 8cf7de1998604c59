/**
 The canonical encoding operators hash and sign. Strings here are UTF-8 byte strings, one
 `char` per byte, so lengths are the byte lengths the encoding is tagged with.
 */
module Canonical {
  import opened Wrappers
  import opened Decimal
  import opened Fees

  datatype Field = Field(key: string, value: string)

  /** `<len>:<key>=<len>:<value>` */
  function EncodeField(f: Field): string {
    Dec(|f.key|) + ":" + f.key + "=" + Dec(|f.value|) + ":" + f.value
  }

  /** The fields joined by '|'. */
  function CanonicalString(fields: seq<Field>): string
    decreases fields, 0
  {
    if fields == [] then "" else EncodeField(fields[0]) + Joined(fields[1..])
  }

  function Joined(fields: seq<Field>): string
    decreases fields, 1
  {
    if fields == [] then "" else "|" + CanonicalString(fields)
  }

  // ---------- injectivity ----------

  /** `<len>:<bytes>` followed by anything determines the bytes and what follows. */
  lemma TaggedPrefix(a: string, x: string, b: string, y: string)
    requires Dec(|a|) + (":" + a + x) == Dec(|b|) + (":" + b + y)
    ensures a == b && x == y
  {
    NumeralThenOther(Dec(|a|), ":" + a + x, Dec(|b|), ":" + b + y);
    DecInjective(|a|, |b|);
    assert (":" + a + x)[1..|a| + 1] == a && (":" + b + y)[1..|a| + 1] == b;
    assert (":" + a + x)[|a| + 1..] == x && (":" + b + y)[|a| + 1..] == y;
  }

  lemma SameTail(c: string, x: string, y: string)
    requires |c| == 1 && c + x == c + y
    ensures x == y
  {
    assert (c + x)[1..] == x && (c + y)[1..] == y;
  }

  function EncodeValue(v: string, x: string): string {
    Dec(|v|) + (":" + v + x)
  }

  lemma FieldThen(f: Field, x: string)
    ensures EncodeField(f) + x == Dec(|f.key|) + (":" + f.key + ("=" + EncodeValue(f.value, x)))
  {
  }

  lemma FieldPrefix(f: Field, x: string, g: Field, y: string)
    requires EncodeField(f) + x == EncodeField(g) + y
    ensures f == g && x == y
  {
    var fv, gv := EncodeValue(f.value, x), EncodeValue(g.value, y);
    FieldThen(f, x);
    FieldThen(g, y);
    TaggedPrefix(f.key, "=" + fv, g.key, "=" + gv);
    SameTail("=", fv, gv);
    TaggedPrefix(f.value, x, g.value, y);
  }

  /** Different field lists are different strings, whatever ':', '=', '|' or digits their values hold. */
  lemma {:induction false} CanonicalStringInjective(fs: seq<Field>, gs: seq<Field>)
    requires CanonicalString(fs) == CanonicalString(gs)
    ensures fs == gs
  {
    if fs != [] && gs != [] {
      FieldPrefix(fs[0], Joined(fs[1..]), gs[0], Joined(gs[1..]));
      if fs[1..] != [] && gs[1..] != [] {
        SameTail("|", CanonicalString(fs[1..]), CanonicalString(gs[1..]));
        CanonicalStringInjective(fs[1..], gs[1..]);
      }
      assert fs == [fs[0]] + fs[1..] && gs == [gs[0]] + gs[1..];
    }
  }

  /** Without the length tags two lists of fields can collide. */
  lemma TagsAreNeeded()
    ensures var fs, gs := [Field("a", "1|b=2")], [Field("a", "1"), Field("b", "2")];
            fs[0].key + "=" + fs[0].value == gs[0].key + "=" + gs[0].value + "|" + gs[1].key + "=" + gs[1].value
            && CanonicalString(fs) != CanonicalString(gs)
  {
    var fs, gs := [Field("a", "1|b=2")], [Field("a", "1"), Field("b", "2")];
    if CanonicalString(fs) == CanonicalString(gs) {
      CanonicalStringInjective(fs, gs);
      assert false;
    }
  }

  // ---------- actions ----------

  datatype Direction = PEG_IN | PEG_OUT | GRAM_RETURN

  datatype Action = Action(direction: Direction, id: string, remoteChain: Option<Chain>, recipient: string,
                           amountMilliViz: int, digest: string)

  datatype Deposit = Deposit(trxId: string, opIndex: nat, from: string, amountMilliViz: nat,
                             chain: Chain, destination: string, destinationValid: bool)

  datatype RemoteBurn = RemoteBurn(chain: Chain, sourceId: string, from: string, amountMilliViz: nat,
                                   homeDestination: string)

  function ChainName(c: Chain): string {
    match c
    case GRAM => "GRAM"
    case SOLANA => "SOLANA"
  }

  function PegInId(d: Deposit): string {
    d.trxId + ":" + Dec(d.opIndex)
  }

  function PegInFields(d: Deposit): seq<Field> {
    [Field("v", "1"), Field("dir", "PEG_IN"), Field("src", PegInId(d)), Field("chain", ChainName(d.chain)),
     Field("recipient", d.destination), Field("amount_milli_viz", Dec(d.amountMilliViz))]
  }

  function PegOutFields(b: RemoteBurn): seq<Field> {
    [Field("v", "1"), Field("dir", "PEG_OUT"), Field("chain", ChainName(b.chain)), Field("src", b.sourceId),
     Field("recipient", b.homeDestination), Field("amount_milli_viz", Dec(b.amountMilliViz))]
  }

  function CanonicalPegIn(hash: string -> string, d: Deposit): Action {
    Action(PEG_IN, PegInId(d), Some(d.chain), d.destination, d.amountMilliViz, hash(CanonicalString(PegInFields(d))))
  }

  function CanonicalPegOut(hash: string -> string, b: RemoteBurn): Action {
    Action(PEG_OUT, b.sourceId, Some(b.chain), b.homeDestination, b.amountMilliViz, hash(CanonicalString(PegOutFields(b))))
  }

  ghost predicate CollisionFree(hash: string -> string) {
    forall x, y :: hash(x) == hash(y) ==> x == y
  }

  lemma PegInIdInjective(d: Deposit, e: Deposit)
    requires PegInId(d) == PegInId(e)
    ensures d.trxId == e.trxId && d.opIndex == e.opIndex
  {
    assert PegInId(d) == d.trxId + [':'] + Dec(d.opIndex);
    assert PegInId(e) == e.trxId + [':'] + Dec(e.opIndex);
    OtherThenNumeral(d.trxId, Dec(d.opIndex), e.trxId, Dec(e.opIndex), ':');
    DecInjective(d.opIndex, e.opIndex);
  }

  /** A peg-in digest binds the source operation, chain, recipient and gross amount. */
  lemma PegInDigestBinds(hash: string -> string, d: Deposit, e: Deposit)
    requires CollisionFree(hash)
    ensures CanonicalPegIn(hash, d).digest == CanonicalPegIn(hash, e).digest
            <==> d.trxId == e.trxId && d.opIndex == e.opIndex && d.chain == e.chain
                 && d.destination == e.destination && d.amountMilliViz == e.amountMilliViz
  {
    if CanonicalPegIn(hash, d).digest == CanonicalPegIn(hash, e).digest {
      var fs, gs := PegInFields(d), PegInFields(e);
      CanonicalStringInjective(fs, gs);
      assert fs[2] == gs[2] && fs[3] == gs[3] && fs[4] == gs[4] && fs[5] == gs[5];
      PegInIdInjective(d, e);
      DecInjective(d.amountMilliViz, e.amountMilliViz);
    }
  }

  lemma PegOutDigestBinds(hash: string -> string, b: RemoteBurn, c: RemoteBurn)
    requires CollisionFree(hash)
    ensures CanonicalPegOut(hash, b).digest == CanonicalPegOut(hash, c).digest
            <==> b.sourceId == c.sourceId && b.chain == c.chain
                 && b.homeDestination == c.homeDestination && b.amountMilliViz == c.amountMilliViz
  {
    if CanonicalPegOut(hash, b).digest == CanonicalPegOut(hash, c).digest {
      var fs, gs := PegOutFields(b), PegOutFields(c);
      CanonicalStringInjective(fs, gs);
      assert fs[2] == gs[2] && fs[3] == gs[3] && fs[4] == gs[4] && fs[5] == gs[5];
      DecInjective(b.amountMilliViz, c.amountMilliViz);
    }
  }

  /** No deposit and no burn share a digest. */
  lemma PegInNeverPegOut(hash: string -> string, d: Deposit, b: RemoteBurn)
    requires CollisionFree(hash)
    ensures CanonicalPegIn(hash, d).digest != CanonicalPegOut(hash, b).digest
  {
    assert PegInFields(d)[1] != PegOutFields(b)[1];
    if CanonicalPegIn(hash, d).digest == CanonicalPegOut(hash, b).digest {
      CanonicalStringInjective(PegInFields(d), PegOutFields(b));
    }
  }
}
