/** What a deposit is, told by the chain alone: one transfer to a backing account, and what its memo says. */
module ChainDeposits {
  import opened Wrappers
  import opened Fees
  import opened Canonical
  import opened Text
  import opened VizScan

  predicate Encrypted(memo: string) {
    |memo| > 0 && memo[0] == '#'
  }

  /** The operator holds a memo key for the account. */
  predicate HasKey(env: Env, account: string) {
    account in env.memoKeys && env.memoKeys[account] != ""
  }

  /** What a memo, trimmed, names as its destination. */
  predicate Names(env: Env, account: string, memo: string, destination: string) {
    && (!Encrypted(memo) ==> destination == memo)
    && (Encrypted(memo) && !HasKey(env, account) ==> destination == "")
    && (Encrypted(memo) && HasKey(env, account) ==>
          var plain := env.decode(env.memoKeys[account], memo);
          && (plain.None? ==> destination == "")
          && (plain.Some? && Encrypted(plain.value) ==> destination == Trim(plain.value[1..]))
          && (plain.Some? && !Encrypted(plain.value) ==> destination == Trim(plain.value)))
  }

  /** The transfer that is operation `i` of a transaction makes this deposit. */
  ghost predicate Makes(env: Env, t: Tx, i: nat, d: Deposit) {
    && i < |t.ops| && t.ops[i].Transfer?
    && var account := OrElse(t.ops[i].to, "");
    && account in env.accounts
    && d.trxId == t.id && d.opIndex == i && d.from == OrElse(t.ops[i].from, "")
    && d.amountMilliViz == env.milli(OrElse(t.ops[i].amount, "0.000 VIZ"))
    && d.chain == env.accounts[account]
    && exists named :: Names(env, account, Trim(OrElse(t.ops[i].memo, "")), named)
                       && d.destinationValid == env.validAddress(d.chain, named)
                       && d.destination == if d.destinationValid then named else ""
  }

  lemma MemoNames(env: Env, account: string, memo: string, destination: string)
    ensures ResolveMemoDestination(env, account, memo) == destination <==> Names(env, account, memo, destination)
  {
  }

  /** The signer reads from an operation exactly the deposit that it makes, and nothing from any other. */
  lemma ReadIffMade(env: Env, t: Tx, i: nat, d: Deposit)
    ensures DepositFromOps(env, t.id, i, t.ops) == Ok(d) <==> Makes(env, t, i, d)
  {
    if i < |t.ops| && t.ops[i].Transfer? {
      var account := OrElse(t.ops[i].to, "");
      var memo := Trim(OrElse(t.ops[i].memo, ""));
      forall named ensures ResolveMemoDestination(env, account, memo) == named <==> Names(env, account, memo, named) {
        MemoNames(env, account, memo, named);
      }
      assert Names(env, account, memo, ResolveMemoDestination(env, account, memo));
    }
  }

  ghost predicate MadeIn(env: Env, b: Block, d: Deposit) {
    exists t, i: nat :: t in b.txs && Makes(env, t, i, d)
  }

  lemma ConfirmedIffMade(env: Env, b: Block, d: Deposit)
    ensures ConfirmedIn(env, b, d) <==> MadeIn(env, b, d)
  {
    forall t: Tx, i: nat ensures DepositFromOps(env, t.id, i, t.ops) == Ok(d) <==> Makes(env, t, i, d) {
      ReadIffMade(env, t, i, d);
    }
  }

  /**
   The scan reports exactly the deposits that the chain holds in its window: each the transfer of one
   operation to a backing account, of its amount, from its sender, to what its memo names.
   */
  lemma ScannedIffMade(env: Env, blocks: int -> Block, after: int, upTo: int, d: Deposit)
    requires forall b :: after < b <= upTo ==> WellFormed(blocks(b))
    ensures d in DepositsIn(env, blocks, after, upTo)
            <==> exists b, t, i: nat :: after < b <= upTo && t in blocks(b).txs && Makes(env, t, i, d)
  {
    ScannedIffConfirmed(env, blocks, after, upTo, d);
    forall b | after < b <= upTo ensures ConfirmedIn(env, blocks(b), d) <==> MadeIn(env, blocks(b), d) {
      ConfirmedIffMade(env, blocks(b), d);
    }
    if exists b, t, i: nat :: after < b <= upTo && t in blocks(b).txs && Makes(env, t, i, d) {
      var b, t, i: nat :| after < b <= upTo && t in blocks(b).txs && Makes(env, t, i, d);
      assert MadeIn(env, blocks(b), d);
    }
  }
}
