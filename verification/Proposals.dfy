/** Rotation proposals: the authority an operator set gets, and the one transaction co-signers agree to. */
module Proposals {
  import opened Wrappers
  import opened Rotation
  import A = Authority

  type Weighted = (string, nat)

  datatype VizAuthority = VizAuthority(weightThreshold: int, accountAuths: seq<Weighted>, keyAuths: seq<Weighted>)

  type Order = (string, string) -> bool

  ghost predicate TotalOrder(leq: Order) {
    && (forall x, y :: leq(x, y) || leq(y, x))
    && (forall x, y :: leq(x, y) && leq(y, x) ==> x == y)
    && (forall x, y, z :: leq(x, y) && leq(y, z) ==> leq(x, z))
  }

  // ---------- sorting by key ----------

  function Insert(leq: Order, x: Weighted, s: seq<Weighted>): seq<Weighted> {
    if s == [] then [x]
    else if leq(x.0, s[0].0) then [x] + s
    else [s[0]] + Insert(leq, x, s[1..])
  }

  function SortByKey(leq: Order, s: seq<Weighted>): seq<Weighted> {
    if s == [] then [] else Insert(leq, s[0], SortByKey(leq, s[1..]))
  }

  predicate Ascending(leq: Order, s: seq<Weighted>) {
    forall i, j :: 0 <= i < j < |s| ==> leq(s[i].0, s[j].0)
  }

  predicate DistinctKeys(s: seq<Weighted>) {
    forall i, j :: 0 <= i < j < |s| ==> s[i].0 != s[j].0
  }

  lemma {:induction false} InsertKeepsEntries(leq: Order, x: Weighted, s: seq<Weighted>)
    ensures multiset(Insert(leq, x, s)) == multiset{x} + multiset(s)
  {
    if s != [] {
      InsertKeepsEntries(leq, x, s[1..]);
      assert s == [s[0]] + s[1..];
    }
  }

  lemma ConsAscends(leq: Order, x: Weighted, s: seq<Weighted>)
    requires Ascending(leq, s) && forall y :: y in s ==> leq(x.0, y.0)
    ensures Ascending(leq, [x] + s)
  {
  }

  lemma {:induction false} InsertSorts(leq: Order, x: Weighted, s: seq<Weighted>)
    requires TotalOrder(leq) && Ascending(leq, s)
    ensures Ascending(leq, Insert(leq, x, s))
  {
    if s != [] {
      assert forall y :: y in s ==> y == s[0] || leq(s[0].0, y.0);
      if leq(x.0, s[0].0) {
        ConsAscends(leq, x, s);
      } else {
        InsertSorts(leq, x, s[1..]);
        InsertKeepsEntries(leq, x, s[1..]);
        forall y | y in Insert(leq, x, s[1..]) ensures leq(s[0].0, y.0) {
          assert y in multiset{x} + multiset(s[1..]);
        }
        ConsAscends(leq, s[0], Insert(leq, x, s[1..]));
      }
    }
  }

  lemma {:induction false} SortSorts(leq: Order, s: seq<Weighted>)
    requires TotalOrder(leq)
    ensures Ascending(leq, SortByKey(leq, s)) && multiset(SortByKey(leq, s)) == multiset(s)
  {
    if s != [] {
      SortSorts(leq, s[1..]);
      InsertSorts(leq, s[0], SortByKey(leq, s[1..]));
      InsertKeepsEntries(leq, s[0], SortByKey(leq, s[1..]));
      assert s == [s[0]] + s[1..];
    }
  }

  /** Entries of one key in a list of distinct keys are one entry. */
  lemma OneEntryPerKey(s: seq<Weighted>, x: Weighted, y: Weighted)
    requires DistinctKeys(s) && x in s && y in s && x.0 == y.0
    ensures x == y
  {
    var i :| 0 <= i < |s| && s[i] == x;
    var j :| 0 <= j < |s| && s[j] == y;
  }

  lemma FirstsAgree(leq: Order, a: seq<Weighted>, b: seq<Weighted>)
    requires TotalOrder(leq) && Ascending(leq, a) && Ascending(leq, b) && DistinctKeys(a)
    requires a != [] && b != [] && a[0] in b && b[0] in a
    ensures a[0] == b[0]
  {
    var i :| 0 <= i < |b| && b[i] == a[0];
    var j :| 0 <= j < |a| && a[j] == b[0];
    assert leq(a[0].0, b[0].0) by {
      if j == 0 { assert leq(a[0].0, a[0].0); }
    }
    assert leq(b[0].0, a[0].0) by {
      if i == 0 { assert leq(b[0].0, b[0].0); }
    }
  }

  lemma TailsAgree(a: seq<Weighted>, b: seq<Weighted>)
    requires a != [] && b != [] && a[0] == b[0] && multiset(a) == multiset(b)
    ensures multiset(a[1..]) == multiset(b[1..])
  {
    assert a == [a[0]] + a[1..] && b == [b[0]] + b[1..];
    assert multiset(a[1..]) == multiset(a) - multiset{a[0]};
    assert multiset(b[1..]) == multiset(b) - multiset{b[0]};
  }

  /** An ascending arrangement of distinct keys is unique. */
  lemma {:induction false} AscendingIsUnique(leq: Order, a: seq<Weighted>, b: seq<Weighted>)
    requires TotalOrder(leq) && Ascending(leq, a) && Ascending(leq, b) && DistinctKeys(a)
    requires multiset(a) == multiset(b)
    ensures a == b
  {
    assert |multiset(a)| == |a| && |multiset(b)| == |b|;
    if a != [] {
      assert a[0] in multiset(b) && b[0] in multiset(a);
      FirstsAgree(leq, a, b);
      TailsAgree(a, b);
      AscendingIsUnique(leq, a[1..], b[1..]);
      assert a == [a[0]] + a[1..] && b == [b[0]] + b[1..];
    }
  }

  lemma SortIgnoresOrderIff(leq: Order, a: seq<Weighted>, b: seq<Weighted>)
    requires TotalOrder(leq) && DistinctKeys(a) && DistinctKeys(b)
    ensures SortByKey(leq, a) == SortByKey(leq, b) <==> multiset(a) == multiset(b)
  {
    SortSorts(leq, a);
    SortSorts(leq, b);
    if multiset(a) == multiset(b) {
      var s := SortByKey(leq, a);
      PermutationKeepsDistinct(a, s);
      AscendingIsUnique(leq, s, SortByKey(leq, b));
    }
  }

  lemma {:induction false} PermutationKeepsDistinct(a: seq<Weighted>, b: seq<Weighted>)
    requires DistinctKeys(a) && multiset(a) == multiset(b)
    ensures DistinctKeys(b)
  {
    forall i, j | 0 <= i < j < |b| ensures b[i].0 != b[j].0 {
      assert b[i] in multiset(a) && b[j] in multiset(a);
      if b[i].0 == b[j].0 {
        OneEntryPerKey(a, b[i], b[j]);
        TwiceCountsTwo(b, i, j);
        var k :| 0 <= k < |a| && a[k] == b[i];
        OnceCountsOne(a, k);
      }
    }
  }

  lemma TwiceCountsTwo(s: seq<Weighted>, i: nat, j: nat)
    requires i < j < |s| && s[i] == s[j]
    ensures multiset(s)[s[i]] >= 2
  {
    assert s == s[..j] + s[j..];
    assert s[i] in s[..j] && s[j] in s[j..];
  }

  lemma OnceCountsOne(s: seq<Weighted>, k: nat)
    requires DistinctKeys(s) && k < |s|
    ensures multiset(s)[s[k]] <= 1
  {
    var before, after := s[..k], s[k + 1..];
    assert s == before + [s[k]] + after;
    assert s[k] !in before && s[k] !in after;
  }

  // ---------- authorities ----------

  function Canonical(leq: Order, auth: VizAuthority): VizAuthority {
    auth.(accountAuths := SortByKey(leq, auth.accountAuths), keyAuths := SortByKey(leq, auth.keyAuths))
  }

  function AuthorityHash(hash: VizAuthority -> string, leq: Order, auth: VizAuthority): string {
    hash(Canonical(leq, auth))
  }

  /** Two authorities hash alike exactly when they have the same threshold and the same entries, in any order. */
  lemma HashIgnoresOrderIff(hash: VizAuthority -> string, leq: Order, a: VizAuthority, b: VizAuthority)
    requires TotalOrder(leq) && forall x, y :: hash(x) == hash(y) ==> x == y
    requires DistinctKeys(a.keyAuths) && DistinctKeys(b.keyAuths)
    requires DistinctKeys(a.accountAuths) && DistinctKeys(b.accountAuths)
    ensures AuthorityHash(hash, leq, a) == AuthorityHash(hash, leq, b)
            <==> a.weightThreshold == b.weightThreshold
                 && multiset(a.keyAuths) == multiset(b.keyAuths)
                 && multiset(a.accountAuths) == multiset(b.accountAuths)
  {
    SortIgnoresOrderIff(leq, a.keyAuths, b.keyAuths);
    SortIgnoresOrderIff(leq, a.accountAuths, b.accountAuths);
  }

  /** Weight one each, in the operators' order. */
  function KeysOf(ops: seq<Operator>): (r: seq<Weighted>)
    ensures |r| == |ops| && forall i :: 0 <= i < |ops| ==> r[i] == (ops[i].vizPubkey, 1)
  {
    seq(|ops|, i requires 0 <= i < |ops| => (ops[i].vizPubkey, 1))
  }

  function BuildActiveAuthority(leq: Order, ops: seq<Operator>, threshold: int): Result<VizAuthority, string> {
    if threshold < 1 then Err("threshold must be >= 1")
    else if threshold > |ops| then Err("threshold exceeds operator count")
    else if !DistinctKeys(KeysOf(ops)) then Err("duplicate vizPubkey in operator set")
    else Ok(VizAuthority(threshold, [], SortByKey(leq, KeysOf(ops))))
  }

  /** The authority depends on the set of keys alone, and has them in canonical order. */
  lemma BuiltAuthority(leq: Order, ops: seq<Operator>, ops': seq<Operator>, threshold: int)
    requires TotalOrder(leq) && BuildActiveAuthority(leq, ops, threshold).Ok?
    ensures var auth := BuildActiveAuthority(leq, ops, threshold).value;
            && Ascending(leq, auth.keyAuths) && DistinctKeys(auth.keyAuths)
            && multiset(auth.keyAuths) == multiset(KeysOf(ops))
            && (BuildActiveAuthority(leq, ops', threshold) == Ok(auth) <==> multiset(KeysOf(ops')) == multiset(KeysOf(ops)))
  {
    var keys, keys' := KeysOf(ops), KeysOf(ops');
    SortSorts(leq, keys);
    SortSorts(leq, keys');
    PermutationKeepsDistinct(keys, SortByKey(leq, keys));
    if multiset(keys') == multiset(keys) {
      assert |multiset(keys)| == |keys| && |multiset(keys')| == |keys'|;
      PermutationKeepsDistinct(keys, keys');
      SortIgnoresOrderIff(leq, keys, keys');
    }
  }

  lemma {:induction false} WeightsAreOne(entries: seq<Weighted>, n: nat)
    requires n <= |entries| && forall i :: 0 <= i < |entries| ==> entries[i].1 == 1
    ensures forall k :: k in A.Weights(entries, n) ==> A.Weights(entries, n)[k] == 1
  {
    if n > 0 {
      WeightsAreOne(entries, n - 1);
    }
  }

  /** So a release signed under a built authority carries exactly `threshold` signatures. */
  lemma BuiltAuthoritySelectsThreshold(leq: Order, ops: seq<Operator>, threshold: int, recover: A.Recovery, chosen: seq<string>)
    requires TotalOrder(leq) && BuildActiveAuthority(leq, ops, threshold).Ok?
    requires A.IsSelection(recover, chosen, A.Authority(threshold, BuildActiveAuthority(leq, ops, threshold).value.keyAuths))
    ensures |chosen| == threshold
  {
    var entries := BuildActiveAuthority(leq, ops, threshold).value.keyAuths;
    SortSorts(leq, KeysOf(ops));
    forall i | 0 <= i < |entries| ensures entries[i].1 == 1 {
      assert entries[i] in multiset(KeysOf(ops));
    }
    WeightsAreOne(entries, |entries|);
    A.WeightOneSelectsThreshold(recover, chosen, A.Authority(threshold, entries));
  }

  // ---------- proposals ----------

  datatype Json = Text(s: string) | Auth(auth: VizAuthority) | OtherJson(text: string)

  datatype Operation = Operation(name: string, fields: seq<(string, Json)>)

  datatype RotationTx = RotationTx(refBlockNum: int, refBlockPrefix: int, expiration: string,
                                   operations: seq<Operation>, extensions: seq<Json>, signatures: seq<string>)

  datatype Proposal = Proposal(version: int, chainId: string, newOperators: seq<Operator>, newThreshold: int,
                               currentActiveHash: string, tx: RotationTx)

  function Lookup(fields: seq<(string, Json)>, key: string): Option<Json> {
    if fields == [] then None else if fields[0].0 == key then Some(fields[0].1) else Lookup(fields[1..], key)
  }

  function AsText(o: Option<Json>): string {
    if o.None? then "" else match o.value
    case Text(s) => s
    case Auth(_) => "[object Object]"
    case OtherJson(text) => text
  }

  function BuildRotationOp(leq: Order, account: string, ops: seq<Operator>, threshold: int, memoKey: string, meta: string)
    : Result<Operation, string>
  {
    var auth := BuildActiveAuthority(leq, ops, threshold);
    if auth.Err? then Err(auth.error)
    else Ok(Operation("account_update",
                      [("account", Text(account)), ("active", Auth(auth.value)), ("regular", Auth(auth.value)),
                       ("memo_key", Text(memoKey)), ("json_metadata", Text(meta))]))
  }

  function BuildProposal(leq: Order, chainId: string, account: string, ops: seq<Operator>, threshold: int, memoKey: string,
                         meta: string, currentActiveHash: string, refBlockNum: int, refBlockPrefix: int, expiration: string)
    : Result<Proposal, string>
  {
    var op := BuildRotationOp(leq, account, ops, threshold, memoKey, meta);
    if op.Err? then Err(op.error)
    else Ok(Proposal(1, chainId, ops, threshold, currentActiveHash,
                     RotationTx(refBlockNum, refBlockPrefix, expiration, [op.value], [], [])))
  }

  /** What a co-signer checks against; `parseDate` reads an expiration as UTC milliseconds. */
  datatype Context = Context(leq: Order, chainId: string, nowMs: int, skipExpiry: bool, parseDate: string -> Option<int>)

  function ValidateProposal(p: Proposal, ctx: Context): Option<string> {
    if p.version != 1 then Some("unsupported proposal version")
    else if p.chainId != ctx.chainId then Some("unexpected chainId")
    else if |p.tx.operations| != 1 then Some("proposal must contain exactly one operation")
    else if |p.tx.extensions| != 0 then Some("proposal vizTx.extensions must be empty")
    else
      var op := p.tx.operations[0];
      if op.name != "account_update" then Some("proposal op is not account_update")
      else if Lookup(op.fields, "master").Some? then Some("proposal op must not change master")
      else
        var expected := BuildRotationOp(ctx.leq, AsText(Lookup(op.fields, "account")), p.newOperators, p.newThreshold,
                                        AsText(Lookup(op.fields, "memo_key")), AsText(Lookup(op.fields, "json_metadata")));
        if expected.Err? then Some(expected.error)
        else if expected.value != op then Some("proposal op does not match newOperators/newThreshold")
        else
          var expiry := ctx.parseDate(p.tx.expiration);
          if expiry.None? then Some("bad expiration")
          else if !ctx.skipExpiry && ctx.nowMs >= expiry.value then Some("proposal expired")
          else None
  }

  /** The single operation, and nothing else, that a proposal's operators and threshold call for. */
  ghost predicate CarriesOnlyTheRotation(p: Proposal, leq: Order) {
    && p.tx.extensions == []
    && exists account, memoKey, meta ::
         && BuildRotationOp(leq, account, p.newOperators, p.newThreshold, memoKey, meta).Ok?
         && p.tx.operations == [BuildRotationOp(leq, account, p.newOperators, p.newThreshold, memoKey, meta).value]
  }

  predicate Unexpired(p: Proposal, ctx: Context) {
    ctx.parseDate(p.tx.expiration).Some? && (ctx.skipExpiry || ctx.nowMs < ctx.parseDate(p.tx.expiration).value)
  }

  lemma {:induction false} LookupFinds(fields: seq<(string, Json)>, key: string, i: nat)
    requires i < |fields| && fields[i].0 == key && forall j :: 0 <= j < i ==> fields[j].0 != key
    ensures Lookup(fields, key) == Some(fields[i].1)
  {
    if i > 0 {
      LookupFinds(fields[1..], key, i - 1);
    }
  }

  lemma {:induction false} LookupMisses(fields: seq<(string, Json)>, key: string)
    requires forall j :: 0 <= j < |fields| ==> fields[j].0 != key
    ensures Lookup(fields, key).None?
  {
    if fields != [] {
      LookupMisses(fields[1..], key);
    }
  }

  lemma BuiltOpFields(leq: Order, account: string, ops: seq<Operator>, threshold: int, memoKey: string, meta: string)
    requires BuildRotationOp(leq, account, ops, threshold, memoKey, meta).Ok?
    ensures var op := BuildRotationOp(leq, account, ops, threshold, memoKey, meta).value;
            && Lookup(op.fields, "account") == Some(Text(account)) && Lookup(op.fields, "master") == None
            && Lookup(op.fields, "memo_key") == Some(Text(memoKey)) && Lookup(op.fields, "json_metadata") == Some(Text(meta))
  {
    var f := BuildRotationOp(leq, account, ops, threshold, memoKey, meta).value.fields;
    LookupFinds(f, "account", 0);
    LookupMisses(f, "master");
    LookupFinds(f, "memo_key", 3);
    LookupFinds(f, "json_metadata", 4);
  }

  /** A proposal is accepted exactly when it is for this chain, unexpired, and carries only the rotation it claims. */
  lemma AcceptedIffOnlyTheRotation(p: Proposal, ctx: Context)
    ensures ValidateProposal(p, ctx).None?
            <==> p.version == 1 && p.chainId == ctx.chainId && Unexpired(p, ctx) && CarriesOnlyTheRotation(p, ctx.leq)
  {
    if ValidateProposal(p, ctx).None? {
      var f := p.tx.operations[0].fields;
      assert p.tx.operations
             == [BuildRotationOp(ctx.leq, AsText(Lookup(f, "account")), p.newOperators, p.newThreshold,
                                 AsText(Lookup(f, "memo_key")), AsText(Lookup(f, "json_metadata"))).value];
    }
    if CarriesOnlyTheRotation(p, ctx.leq) {
      var account, memoKey, meta :|
        && BuildRotationOp(ctx.leq, account, p.newOperators, p.newThreshold, memoKey, meta).Ok?
        && p.tx.operations == [BuildRotationOp(ctx.leq, account, p.newOperators, p.newThreshold, memoKey, meta).value];
      BuiltOpFields(ctx.leq, account, p.newOperators, p.newThreshold, memoKey, meta);
    }
  }

  /**
   The operation hands the account over to these operators: it replaces the active and the regular
   authority, by their keys alone at weight one each, in ascending order, and touches nothing else
   that signs.
   */
  ghost predicate HandsOver(leq: Order, op: Operation, ops: seq<Operator>, threshold: int) {
    && op.name == "account_update" && |op.fields| == 5
    && op.fields[0].0 == "account" && op.fields[3].0 == "memo_key" && op.fields[4].0 == "json_metadata"
    && op.fields[0].1.Text? && op.fields[3].1.Text? && op.fields[4].1.Text?
    && op.fields[1].0 == "active" && op.fields[2].0 == "regular" && op.fields[1].1.Auth?
    && op.fields[2].1 == op.fields[1].1
    && IsTheirs(leq, op.fields[1].1.auth, ops, threshold)
  }

  ghost predicate IsTheirs(leq: Order, auth: VizAuthority, ops: seq<Operator>, threshold: int) {
    && auth.weightThreshold == threshold && auth.accountAuths == []
    && (forall i, j :: 0 <= i < j < |auth.keyAuths| ==> leq(auth.keyAuths[i].0, auth.keyAuths[j].0))
    && multiset(auth.keyAuths) == multiset(seq(|ops|, i requires 0 <= i < |ops| => (ops[i].vizPubkey, 1)))
  }

  predicate HaveDistinctKeys(ops: seq<Operator>) {
    forall i, j :: 0 <= i < j < |ops| ==> ops[i].vizPubkey != ops[j].vizPubkey
  }

  lemma TheirAuthorityIsBuilt(leq: Order, auth: VizAuthority, ops: seq<Operator>, threshold: int)
    requires TotalOrder(leq)
    ensures BuildActiveAuthority(leq, ops, threshold) == Ok(auth)
            <==> IsTheirs(leq, auth, ops, threshold) && 1 <= threshold <= |ops| && HaveDistinctKeys(ops)
  {
    var keys := KeysOf(ops);
    assert keys == seq(|ops|, i requires 0 <= i < |ops| => (ops[i].vizPubkey, 1));
    assert DistinctKeys(keys) <==> HaveDistinctKeys(ops);
    SortSorts(leq, keys);
    if IsTheirs(leq, auth, ops, threshold) && DistinctKeys(keys) {
      PermutationKeepsDistinct(keys, auth.keyAuths);
      AscendingIsUnique(leq, auth.keyAuths, SortByKey(leq, keys));
    }
  }

  lemma AuthorityIsBuiltIff(leq: Order, ops: seq<Operator>, threshold: int)
    ensures BuildActiveAuthority(leq, ops, threshold).Ok? <==> 1 <= threshold <= |ops| && HaveDistinctKeys(ops)
  {
    assert DistinctKeys(KeysOf(ops)) <==> HaveDistinctKeys(ops);
  }

  lemma RotationHandsOver(leq: Order, account: string, ops: seq<Operator>, threshold: int, memoKey: string, meta: string)
    requires TotalOrder(leq)
    ensures var op := BuildRotationOp(leq, account, ops, threshold, memoKey, meta);
            && (op.Ok? <==> 1 <= threshold <= |ops| && HaveDistinctKeys(ops))
            && (op.Ok? ==> HandsOver(leq, op.value, ops, threshold) && op.value.fields[0].1 == Text(account)
                           && op.value.fields[3].1 == Text(memoKey) && op.value.fields[4].1 == Text(meta))
  {
    AuthorityIsBuiltIff(leq, ops, threshold);
    var auth := BuildActiveAuthority(leq, ops, threshold);
    if auth.Ok? {
      TheirAuthorityIsBuilt(leq, auth.value, ops, threshold);
    }
  }

  /** There is one such operation for an account, a memo key and metadata. */
  lemma HandingOverIsTheRotation(leq: Order, op: Operation, ops: seq<Operator>, threshold: int)
    requires TotalOrder(leq) && HandsOver(leq, op, ops, threshold) && 1 <= threshold <= |ops| && HaveDistinctKeys(ops)
    ensures BuildRotationOp(leq, op.fields[0].1.s, ops, threshold, op.fields[3].1.s, op.fields[4].1.s) == Ok(op)
  {
    TheirAuthorityIsBuilt(leq, op.fields[1].1.auth, ops, threshold);
    assert op.fields == [op.fields[0], op.fields[1], op.fields[2], op.fields[3], op.fields[4]];
  }

  /**
   A proposal is accepted exactly when it is for this chain, unexpired, and its one operation hands the
   account over to the operators and the threshold it names; whoever signs it does that and nothing else.
   */
  lemma AcceptedIffHandsOver(p: Proposal, ctx: Context)
    requires TotalOrder(ctx.leq)
    ensures ValidateProposal(p, ctx).None?
            <==> && p.version == 1 && p.chainId == ctx.chainId && Unexpired(p, ctx)
                 && |p.tx.operations| == 1 && p.tx.extensions == []
                 && HandsOver(ctx.leq, p.tx.operations[0], p.newOperators, p.newThreshold)
                 && 1 <= p.newThreshold <= |p.newOperators| && HaveDistinctKeys(p.newOperators)
  {
    AcceptedIffOnlyTheRotation(p, ctx);
    if ValidateProposal(p, ctx).None? {
      var f := p.tx.operations[0].fields;
      RotationHandsOver(ctx.leq, AsText(Lookup(f, "account")), p.newOperators, p.newThreshold,
                        AsText(Lookup(f, "memo_key")), AsText(Lookup(f, "json_metadata")));
    }
    if |p.tx.operations| == 1 && p.tx.extensions == [] && 1 <= p.newThreshold <= |p.newOperators| && HaveDistinctKeys(p.newOperators)
       && HandsOver(ctx.leq, p.tx.operations[0], p.newOperators, p.newThreshold) {
      var op := p.tx.operations[0];
      HandingOverIsTheRotation(ctx.leq, op, p.newOperators, p.newThreshold);
      assert p.tx.operations == [op];
    }
  }

  /** A proposal is built exactly for a threshold that so many distinct keys can reach, and hands the account over to them. */
  lemma BuiltHandsOver(leq: Order, chainId: string, account: string, ops: seq<Operator>, threshold: int, memoKey: string,
                       meta: string, currentActiveHash: string, refBlockNum: int, refBlockPrefix: int, expiration: string)
    requires TotalOrder(leq)
    ensures var built := BuildProposal(leq, chainId, account, ops, threshold, memoKey, meta, currentActiveHash,
                                       refBlockNum, refBlockPrefix, expiration);
            && (built.Ok? <==> 1 <= threshold <= |ops| && HaveDistinctKeys(ops))
            && (built.Ok? ==>
                  && built.value.newOperators == ops && built.value.newThreshold == threshold
                  && built.value.chainId == chainId && built.value.currentActiveHash == currentActiveHash
                  && built.value.tx.refBlockNum == refBlockNum && built.value.tx.refBlockPrefix == refBlockPrefix
                  && built.value.tx.expiration == expiration
                  && |built.value.tx.operations| == 1 && built.value.tx.extensions == [] && built.value.tx.signatures == []
                  && HandsOver(leq, built.value.tx.operations[0], ops, threshold)
                  && built.value.tx.operations[0].fields[0].1 == Text(account)
                  && built.value.tx.operations[0].fields[3].1 == Text(memoKey)
                  && built.value.tx.operations[0].fields[4].1 == Text(meta))
  {
    RotationHandsOver(leq, account, ops, threshold, memoKey, meta);
  }

  /** Every built proposal is accepted on its chain until it expires, whatever partials it has gathered. */
  lemma BuiltIsAcceptedIffUnexpired(ctx: Context, account: string, ops: seq<Operator>, threshold: int, memoKey: string,
                                    meta: string, currentActiveHash: string, refBlockNum: int, refBlockPrefix: int,
                                    expiration: string, partials: seq<string>)
    requires BuildActiveAuthority(ctx.leq, ops, threshold).Ok?
    ensures var built := BuildProposal(ctx.leq, ctx.chainId, account, ops, threshold, memoKey, meta, currentActiveHash,
                                       refBlockNum, refBlockPrefix, expiration);
            && built.Ok?
            && (ValidateProposal(AddPartials(built.value, partials, |partials|), ctx).None? <==> Unexpired(built.value, ctx))
  {
    var p := BuildProposal(ctx.leq, ctx.chainId, account, ops, threshold, memoKey, meta, currentActiveHash,
                           refBlockNum, refBlockPrefix, expiration).value;
    PartialsAccumulate(p, partials, |partials|);
    var p' := AddPartials(p, partials, |partials|);
    AcceptedIffOnlyTheRotation(p', ctx);
    assert p.tx.operations == [BuildRotationOp(ctx.leq, account, ops, threshold, memoKey, meta).value];
  }

  // ---------- partial signatures ----------

  function AddPartial(p: Proposal, signature: string): Proposal {
    if signature in p.tx.signatures then p
    else p.(tx := p.tx.(signatures := p.tx.signatures + [signature]))
  }

  function AddPartials(p: Proposal, partials: seq<string>, n: nat): Proposal
    requires n <= |partials|
  {
    if n == 0 then p else AddPartial(AddPartials(p, partials, n - 1), partials[n - 1])
  }

  function SetOf(s: seq<string>): set<string> {
    set x | x in s
  }

  predicate NoRepeats(s: seq<string>) {
    forall i, j :: 0 <= i < j < |s| ==> s[i] != s[j]
  }

  lemma SetOfAppend(s: seq<string>, x: string)
    ensures SetOf(s + [x]) == SetOf(s) + {x}
  {
    assert (s + [x])[|s|] == x;
    forall y | y in s ensures y in s + [x] {}
  }

  lemma AddPartialAdds(p: Proposal, signature: string)
    ensures var p' := AddPartial(p, signature);
            && p' == p.(tx := p.tx.(signatures := p'.tx.signatures))
            && SetOf(p'.tx.signatures) == SetOf(p.tx.signatures) + {signature}
            && (NoRepeats(p.tx.signatures) ==> NoRepeats(p'.tx.signatures))
  {
    SetOfAppend(p.tx.signatures, signature);
  }

  /** Partials accumulate as a set, each once, and change nothing else. */
  lemma {:induction false} PartialsAccumulate(p: Proposal, partials: seq<string>, n: nat)
    requires n <= |partials|
    ensures var p' := AddPartials(p, partials, n);
            && p' == p.(tx := p.tx.(signatures := p'.tx.signatures))
            && SetOf(p'.tx.signatures) == SetOf(p.tx.signatures) + SetOf(partials[..n])
            && (NoRepeats(p.tx.signatures) ==> NoRepeats(p'.tx.signatures))
  {
    if n > 0 {
      PartialsAccumulate(p, partials, n - 1);
      AddPartialAdds(AddPartials(p, partials, n - 1), partials[n - 1]);
      SetOfPrefix(partials, n);
    }
  }

  lemma SetOfPrefix(s: seq<string>, n: nat)
    requires 0 < n <= |s|
    ensures SetOf(s[..n]) == SetOf(s[..n - 1]) + {s[n - 1]}
  {
    assert s[..n] == s[..n - 1] + [s[n - 1]];
    SetOfAppend(s[..n - 1], s[n - 1]);
  }

  /** So the order of co-signing and repeated partials do not matter. */
  lemma PartialsInAnyOrder(p: Proposal, a: seq<string>, b: seq<string>)
    requires SetOf(a) == SetOf(b)
    ensures SetOf(AddPartials(p, a, |a|).tx.signatures) == SetOf(AddPartials(p, b, |b|).tx.signatures)
  {
    PartialsAccumulate(p, a, |a|);
    PartialsAccumulate(p, b, |b|);
    assert a[..|a|] == a && b[..|b|] == b;
  }

  /** Adding the partials a second time changes nothing at all. */
  lemma {:induction false} PartialsAreIdempotent(p: Proposal, partials: seq<string>, n: nat)
    requires n <= |partials| && forall i :: 0 <= i < n ==> partials[i] in p.tx.signatures
    ensures AddPartials(p, partials, n) == p
  {
    if n > 0 {
      PartialsAreIdempotent(p, partials, n - 1);
    }
  }
}
