/** Packing a list of multisig actions of any length into orders of at most 255 entries, chained by `execute_internal`. */
module MultisigOrder {
  import opened Wrappers

  /** An order's dictionary: the entry with key `i` is `entries[i]`. */
  datatype Order = Order(entries: seq<Action>)

  datatype Action =
    | Update(threshold: int, signers: seq<string>, proposers: seq<string>)
    | Transfer(sendMode: int, to: string, value: int, body: Body)

  datatype Body = Plain(payload: string) | ExecuteInternal(queryId: int, order: Order)

  const CHUNK: nat := 254
  const MAX_ENTRIES: nat := 255
  const CHAIN_VALUE: int := 10_000_000

  function PackChained(address: string, order: Order): Action {
    Transfer(1, address, CHAIN_VALUE, ExecuteInternal(0, order))
  }

  // ---------- what an order does ----------

  predicate Chains(address: string, a: Action) {
    a.Transfer? && a.to == address && a.body.ExecuteInternal?
  }

  /** The actions carried out, in order, when the multisig at `address` executes the first `n`: chained orders are run in place. */
  function UnfoldTo(address: string, actions: seq<Action>, n: nat): seq<Action>
    requires n <= |actions|
    decreases actions, n
  {
    if n == 0 then [] else UnfoldTo(address, actions, n - 1) + UnfoldOne(address, actions[n - 1])
  }

  function Unfold(address: string, actions: seq<Action>): seq<Action>
    decreases actions, |actions| + 1
  {
    UnfoldTo(address, actions, |actions|)
  }

  function UnfoldOne(address: string, a: Action): seq<Action>
    decreases a, 0
  {
    if Chains(address, a) then Unfold(address, a.body.order.entries) else [a]
  }

  /** How the list is to be split: full chunks first, each chained to what follows. */
  function Packed(address: string, actions: seq<Action>): Order {
    if |actions| <= CHUNK then Order(actions)
    else Order(actions[..CHUNK] + [PackChained(address, Packed(address, actions[CHUNK..]))])
  }

  /**
   The order is a chain of exactly `n`: each but the last is full, its 255th entry sending the next to
   the multisig itself, with 0.01 TON and the fees paid apart; the last holds at most 254 entries.
   */
  predicate ChainOf(address: string, order: Order, n: nat) {
    && n > 0
    && if n == 1 then |order.entries| <= 254
       else && |order.entries| == 255
            && order.entries[254].Transfer? && order.entries[254].body.ExecuteInternal?
            && var next := order.entries[254].body.order;
               && order.entries[254] == Transfer(1, address, 10_000_000, ExecuteInternal(0, next))
               && ChainOf(address, next, n - 1)
  }

  function Chunks(n: nat): nat {
    (n + CHUNK - 1) / CHUNK
  }

  // ---------- the algorithm ----------

  /** `slice` with a start counted from the end: out-of-range positions are clamped. */
  function SliceFromEnd(s: seq<Action>, back: nat, end: nat): seq<Action>
    requires end <= |s|
  {
    var start := if back <= |s| then |s| - back else 0;
    if start <= end then s[start..end] else []
  }

  method PackOrder(actions: seq<Action>) returns (r: Result<Order, string>)
    ensures |actions| > 255 <==> r.Err?
    ensures r.Ok? ==> r.value == Order(actions)
  {
    if |actions| > MAX_ENTRIES {
      return Err("For action chains above 255, use packLarge method");
    }
    var entries: seq<Action> := [];
    for i := 0 to |actions|
      invariant entries == actions[..i]
    {
      entries := entries + [actions[i]];
    }
    return Ok(Order(entries));
  }

  method PackLarge(actions: seq<Action>, address: string) returns (r: Result<Order, string>, rounds: nat)
    ensures r.Ok? <==> actions != []
    ensures r.Ok? ==> r.value == Packed(address, actions)
    ensures rounds == (|actions| + 253) / 254
  {
    var n := |actions|;
    var tailChunk: Option<Order> := None;
    var chunkCount := Chunks(n);
    var actionProcessed := 0;
    var lastSz := n % CHUNK;
    ghost var done := [];
    rounds := 0;
    while chunkCount > 0
      invariant rounds + chunkCount == Chunks(n)
      invariant 0 <= actionProcessed <= n && done == actions[n - actionProcessed..]
      invariant rounds == 0 ==> actionProcessed == 0 && lastSz == n % CHUNK && tailChunk.None?
      invariant rounds > 0 ==> lastSz == 0 && n - actionProcessed == chunkCount * CHUNK && 0 < actionProcessed
      invariant rounds > 0 ==> tailChunk == Some(Packed(address, done))
    {
      rounds, chunkCount := rounds + 1, chunkCount - 1;
      FirstChunk(n);
      var chunkSize := CHUNK;
      if lastSz > 0 {
        chunkSize, lastSz := lastSz, 0;
      }
      assert n - actionProcessed - chunkSize == chunkCount * CHUNK;
      var chunk := SliceFromEnd(actions, chunkSize + actionProcessed, n - actionProcessed);
      assert |chunk| == chunkSize && chunk + done == actions[n - actionProcessed - chunkSize..];
      var order: Result<Order, string>;
      if tailChunk.None? {
        order := PackOrder(chunk);
        done := chunk;
      } else {
        order := PackOrder(chunk + [PackChained(address, tailChunk.value)]);
        PackedCons(address, chunk, done);
        done := chunk + done;
      }
      actionProcessed := actionProcessed + chunkSize;
      tailChunk := Some(order.value);
    }
    r := if tailChunk.None? then Err("Something went wrong during large order pack") else Ok(tailChunk.value);
    assert actions[0..] == actions;
  }

  /** The chunk at the tail takes what does not fill a whole chunk. */
  lemma FirstChunk(n: nat)
    ensures n == 0 ==> Chunks(n) == 0
    ensures n > 0 ==> var first := if n % CHUNK > 0 then n % CHUNK else CHUNK;
                      first <= n && n - first == (Chunks(n) - 1) * CHUNK
  {
  }

  lemma PackedCons(address: string, chunk: seq<Action>, rest: seq<Action>)
    requires |chunk| == CHUNK && rest != []
    ensures Packed(address, chunk + rest) == Order(chunk + [PackChained(address, Packed(address, rest))])
  {
    assert (chunk + rest)[..CHUNK] == chunk && (chunk + rest)[CHUNK..] == rest;
  }

  // ---------- packing preserves meaning ----------

  lemma {:induction false} UnfoldOfPrefix(address: string, a: seq<Action>, b: seq<Action>, n: nat)
    requires n <= |a|
    ensures UnfoldTo(address, a + b, n) == UnfoldTo(address, a, n)
  {
    if n > 0 {
      UnfoldOfPrefix(address, a, b, n - 1);
    }
  }

  lemma {:induction false} UnfoldAppendTo(address: string, a: seq<Action>, b: seq<Action>, n: nat)
    requires n <= |b|
    ensures UnfoldTo(address, a + b, |a| + n) == Unfold(address, a) + UnfoldTo(address, b, n)
  {
    if n == 0 {
      UnfoldOfPrefix(address, a, b, |a|);
    } else {
      UnfoldAppendTo(address, a, b, n - 1);
      assert (a + b)[|a| + n - 1] == b[n - 1];
    }
  }

  lemma UnfoldAppend(address: string, a: seq<Action>, b: seq<Action>)
    ensures Unfold(address, a + b) == Unfold(address, a) + Unfold(address, b)
  {
    UnfoldAppendTo(address, a, b, |b|);
  }

  /** Executing the packed order does exactly what the list does, in the same order. */
  lemma {:induction false} PackedDoesTheSame(address: string, actions: seq<Action>)
    ensures Unfold(address, Packed(address, actions).entries) == Unfold(address, actions)
    decreases |actions|
  {
    if |actions| > CHUNK {
      var head, rest := actions[..CHUNK], actions[CHUNK..];
      PackedDoesTheSame(address, rest);
      ChainedInPlace(address, head, rest);
      assert head + rest == actions;
    }
  }

  lemma ChainedInPlace(address: string, head: seq<Action>, rest: seq<Action>)
    requires Unfold(address, Packed(address, rest).entries) == Unfold(address, rest)
    ensures Unfold(address, head + [PackChained(address, Packed(address, rest))]) == Unfold(address, head + rest)
  {
    var chained := PackChained(address, Packed(address, rest));
    UnfoldAppend(address, head, [chained]);
    UnfoldAppend(address, head, rest);
    assert Chains(address, chained) && UnfoldTo(address, [chained], 0) == [];
    assert UnfoldTo(address, [chained], 1) == UnfoldTo(address, [chained], 0) + UnfoldOne(address, chained);
  }

  /** A list with no chaining of its own is unfolded to itself. */
  lemma {:induction false} UnchainedUnfoldsToItself(address: string, actions: seq<Action>, n: nat)
    requires n <= |actions| && forall a :: a in actions ==> !Chains(address, a)
    ensures UnfoldTo(address, actions, n) == actions[..n]
  {
    if n > 0 {
      UnchainedUnfoldsToItself(address, actions, n - 1);
      assert actions[n - 1] in actions;
    }
  }

  lemma ChunksStep(n: nat)
    requires n > CHUNK
    ensures Chunks(n) == Chunks(n - CHUNK) + 1 && Chunks(n - CHUNK) > 0
  {
    assert (n + CHUNK - 1) / CHUNK == (n - CHUNK + CHUNK - 1) / CHUNK + 1;
  }

  /** The packed order is a chain of as many orders as the list has chunks, none over the limit. */
  lemma {:induction false} PackedIsAChain(address: string, actions: seq<Action>)
    requires actions != []
    ensures ChainOf(address, Packed(address, actions), (|actions| + 253) / 254)
    decreases |actions|
  {
    if |actions| > CHUNK {
      ChunksStep(|actions|);
      PackedIsAChain(address, actions[CHUNK..]);
    }
  }

  /** Two lists that pack to one order do the same; without chaining of their own they are one list. */
  lemma PackedInjective(address: string, a: seq<Action>, b: seq<Action>)
    requires forall x :: x in a || x in b ==> !Chains(address, x)
    ensures Packed(address, a) == Packed(address, b) <==> a == b
  {
    PackedDoesTheSame(address, a);
    PackedDoesTheSame(address, b);
    UnchainedUnfoldsToItself(address, a, |a|);
    UnchainedUnfoldsToItself(address, b, |b|);
  }
}
