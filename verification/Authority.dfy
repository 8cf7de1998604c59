/** Choosing the signatures that a release carries: enough for the account's active authority and no more. */
module Authority {
  import opened Wrappers
  import opened Sums

  datatype Authority = Authority(threshold: int, keyAuths: seq<(string, nat)>)

  /** Which key each signature at hand recovers to; a signature left out is one that no key can be recovered from. */
  type Recovery = map<string, string>

  function Recover(recover: Recovery, sig: string): Option<string> {
    if sig in recover then Some(recover[sig]) else None
  }

  /** The table of the first `n` entries; the last entry of a key counts. */
  function Weights(keyAuths: seq<(string, nat)>, n: nat): map<string, nat>
    requires n <= |keyAuths|
  {
    if n == 0 then map[] else Weights(keyAuths, n - 1)[keyAuths[n - 1].0 := keyAuths[n - 1].1]
  }

  /** A key is in the table if an entry names it, with the weight of the last entry that does. */
  lemma {:induction false} LastEntryCounts(keyAuths: seq<(string, nat)>, n: nat, i: nat)
    requires i < n <= |keyAuths|
    ensures keyAuths[i].0 in Weights(keyAuths, n)
    ensures (forall j :: i < j < n ==> keyAuths[j].0 != keyAuths[i].0) ==> Weights(keyAuths, n)[keyAuths[i].0] == keyAuths[i].1
  {
    if i < n - 1 {
      LastEntryCounts(keyAuths, n - 1, i);
    }
  }

  lemma {:induction false} TableHasOnlyEntries(keyAuths: seq<(string, nat)>, n: nat, key: string)
    requires n <= |keyAuths| && key in Weights(keyAuths, n)
    ensures exists i :: 0 <= i < n && keyAuths[i].0 == key
  {
    if keyAuths[n - 1].0 != key {
      TableHasOnlyEntries(keyAuths, n - 1, key);
    }
  }

  function WeightTable(auth: Authority): map<string, nat> {
    Weights(auth.keyAuths, |auth.keyAuths|)
  }

  function WeightIn(table: map<string, nat>): string -> int {
    k => if k in table then table[k] else 0
  }

  /** The distinct keys of the table that one of the first `n` signatures recovers to. */
  ghost function RelevantTo(recover: Recovery, sigs: seq<string>, n: nat, table: map<string, nat>): set<string>
    requires n <= |sigs|
  {
    if n == 0 then {} else RelevantTo(recover, sigs, n - 1, table) + RelevantKey(recover, sigs[n - 1], table)
  }

  ghost function RelevantKey(recover: Recovery, sig: string, table: map<string, nat>): set<string> {
    if Recover(recover, sig).Some? && Recover(recover, sig).value in table then {Recover(recover, sig).value} else {}
  }

  lemma {:induction false} RelevantAre(recover: Recovery, sigs: seq<string>, n: nat, table: map<string, nat>, key: string)
    requires n <= |sigs|
    ensures key in RelevantTo(recover, sigs, n, table)
            <==> exists i :: 0 <= i < n && Recover(recover, sigs[i]) == Some(key) && key in table
  {
    if n > 0 {
      RelevantAre(recover, sigs, n - 1, table, key);
    }
  }

  ghost function RelevantKeys(recover: Recovery, sigs: seq<string>, table: map<string, nat>): set<string> {
    RelevantTo(recover, sigs, |sigs|, table)
  }

  /** What a set of signatures is worth: each key once, whatever its order and repetitions. */
  ghost function Worth(recover: Recovery, sigs: seq<string>, table: map<string, nat>): int {
    WorthTo(recover, sigs, |sigs|, table)
  }

  /** What the first `n` are worth. */
  ghost function WorthTo(recover: Recovery, sigs: seq<string>, n: nat, table: map<string, nat>): int
    requires n <= |sigs|
  {
    Sum(RelevantTo(recover, sigs, n, table), WeightIn(table))
  }

  ghost predicate DistinctRelevant(recover: Recovery, sigs: seq<string>, table: map<string, nat>) {
    && (forall i :: 0 <= i < |sigs| ==> Recover(recover, sigs[i]).Some? && Recover(recover, sigs[i]).value in table)
    && (forall i, j :: 0 <= i < j < |sigs| ==> Recover(recover, sigs[i]) != Recover(recover, sigs[j]))
  }

  function Without(sigs: seq<string>, i: nat): seq<string>
    requires i < |sigs|
  {
    sigs[..i] + sigs[i + 1..]
  }

  // ---------- the selection ----------

  datatype Picked = Picked(chosen: seq<string>, usedKeys: set<string>, weight: int)

  /** One signature more: taken if the threshold is not reached and it brings a new key of the table. */
  function PickOne(recover: Recovery, table: map<string, nat>, threshold: int, p: Picked, sig: string): Picked {
    var key := Recover(recover, sig);
    if p.weight >= threshold || key.None? || key.value !in table || key.value in p.usedKeys then p
    else Picked(p.chosen + [sig], p.usedKeys + {key.value}, p.weight + table[key.value])
  }

  function Pick(recover: Recovery, table: map<string, nat>, threshold: int, sigs: seq<string>, n: nat): Picked
    requires n <= |sigs|
  {
    if n == 0 then Picked([], {}, 0)
    else PickOne(recover, table, threshold, Pick(recover, table, threshold, sigs, n - 1), sigs[n - 1])
  }

  lemma {:induction false} PickStops(recover: Recovery, table: map<string, nat>, threshold: int, sigs: seq<string>, m: nat, n: nat)
    requires m <= n <= |sigs| && Pick(recover, table, threshold, sigs, m).weight >= threshold
    ensures Pick(recover, table, threshold, sigs, n) == Pick(recover, table, threshold, sigs, m)
  {
    if m < n {
      PickStops(recover, table, threshold, sigs, m, n - 1);
    }
  }

  /** Its result is judged below: `SelectionSucceedsIff`, `SelectionIsMinimal`. */
  method SelectAuthoritySignatures(recover: Recovery, signatures: seq<string>, auth: Authority)
    returns (r: Result<seq<string>, int>)
    ensures r == Selection(recover, signatures, auth)
  {
    var table := map[];
    for i := 0 to |auth.keyAuths|
      invariant table == Weights(auth.keyAuths, i)
    {
      table := table[auth.keyAuths[i].0 := auth.keyAuths[i].1];
    }
    var chosen: seq<string>, usedKeys: set<string>, weight := [], {}, 0;
    var i := 0;
    while i < |signatures| && weight < auth.threshold
      invariant i <= |signatures|
      invariant Picked(chosen, usedKeys, weight) == Pick(recover, table, auth.threshold, signatures, i)
    {
      var key := Recover(recover, signatures[i]);
      if key.Some? && key.value in table && key.value !in usedKeys {
        usedKeys := usedKeys + {key.value};
        chosen := chosen + [signatures[i]];
        weight := weight + table[key.value];
      }
      i := i + 1;
    }
    if weight >= auth.threshold {
      PickStops(recover, table, auth.threshold, signatures, i, |signatures|);
    }
    r := if weight < auth.threshold then Err(weight) else Ok(chosen);
  }

  function Selection(recover: Recovery, signatures: seq<string>, auth: Authority): Result<seq<string>, int> {
    var p := Pick(recover, WeightTable(auth), auth.threshold, signatures, |signatures|);
    if p.weight < auth.threshold then Err(p.weight) else Ok(p.chosen)
  }

  /** It succeeds exactly when the distinct authorised keys among all signatures are worth the threshold. */
  lemma SelectionSucceedsIff(recover: Recovery, signatures: seq<string>, auth: Authority)
    ensures var r, worth := Selection(recover, signatures, auth), Worth(recover, signatures, WeightTable(auth));
            && (r.Ok? <==> worth >= auth.threshold)
            && (r.Err? ==> r.error == worth)
  {
    var table, n := WeightTable(auth), |signatures|;
    PickGathers(recover, signatures, n, table, auth.threshold);
    SubsetWeighsLess(Pick(recover, table, auth.threshold, signatures, n).usedKeys,
                     RelevantKeys(recover, signatures, table), WeightIn(table));
  }

  /** The chosen signatures recover to distinct authorised keys worth the threshold, and fall short of it without the last. */
  lemma SelectionIsMinimal(recover: Recovery, signatures: seq<string>, auth: Authority)
    requires Selection(recover, signatures, auth).Ok?
    ensures IsSelection(recover, Selection(recover, signatures, auth).value, auth)
    ensures var chosen := Selection(recover, signatures, auth).value;
            forall i :: 0 <= i < |chosen| ==> chosen[i] in signatures
  {
    PickGathers(recover, signatures, |signatures|, WeightTable(auth), auth.threshold);
  }

  ghost predicate IsSelection(recover: Recovery, chosen: seq<string>, auth: Authority) {
    && DistinctRelevant(recover, chosen, WeightTable(auth))
    && Worth(recover, chosen, WeightTable(auth)) >= auth.threshold
    && (chosen != [] ==> WorthTo(recover, chosen, |chosen| - 1, WeightTable(auth)) < auth.threshold)
  }

  /** What has been gathered from the first `n` signatures: every relevant key, until the threshold is reached. */
  ghost predicate Gathered(recover: Recovery, sigs: seq<string>, n: nat, table: map<string, nat>, threshold: int, p: Picked)
    requires n <= |sigs|
  {
    && p.usedKeys == RelevantKeys(recover, p.chosen, table) <= RelevantTo(recover, sigs, n, table)
    && (p.weight < threshold ==> p.usedKeys == RelevantTo(recover, sigs, n, table))
    && p.weight == Sum(p.usedKeys, WeightIn(table))
    && DistinctRelevant(recover, p.chosen, table)
    && (forall i :: 0 <= i < |p.chosen| ==> p.chosen[i] in sigs)
    && (p.chosen != [] ==> WorthTo(recover, p.chosen, |p.chosen| - 1, table) < threshold)
  }

  lemma {:induction false} PickGathers(recover: Recovery, sigs: seq<string>, n: nat, table: map<string, nat>, threshold: int)
    requires n <= |sigs|
    ensures Gathered(recover, sigs, n, table, threshold, Pick(recover, table, threshold, sigs, n))
  {
    if n > 0 {
      PickGathers(recover, sigs, n - 1, table, threshold);
      var p := Pick(recover, table, threshold, sigs, n - 1);
      PickOneGathers(recover, sigs, n - 1, table, threshold, p);
    }
  }

  lemma PickOneGathers(recover: Recovery, sigs: seq<string>, n: nat, table: map<string, nat>, threshold: int, p: Picked)
    requires n < |sigs| && Gathered(recover, sigs, n, table, threshold, p)
    ensures Gathered(recover, sigs, n + 1, table, threshold, PickOne(recover, table, threshold, p, sigs[n]))
  {
    if p.weight < threshold && !(RelevantKey(recover, sigs[n], table) <= p.usedKeys) {
      TakeGathers(recover, sigs, n, table, threshold, p);
    } else {
      SkipGathers(recover, sigs, n, table, threshold, p);
    }
  }

  lemma SkipGathers(recover: Recovery, sigs: seq<string>, n: nat, table: map<string, nat>, threshold: int, p: Picked)
    requires n < |sigs| && Gathered(recover, sigs, n, table, threshold, p)
    requires p.weight >= threshold || RelevantKey(recover, sigs[n], table) <= p.usedKeys
    ensures PickOne(recover, table, threshold, p, sigs[n]) == p && Gathered(recover, sigs, n + 1, table, threshold, p)
  {
    var key := Recover(recover, sigs[n]);
    if p.weight < threshold && key.Some? && key.value in table {
      assert key.value in RelevantKey(recover, sigs[n], table);
    }
  }

  lemma TakeGathers(recover: Recovery, sigs: seq<string>, n: nat, table: map<string, nat>, threshold: int, p: Picked)
    requires n < |sigs| && Gathered(recover, sigs, n, table, threshold, p) && p.weight < threshold
    requires var key := Recover(recover, sigs[n]); key.Some? && key.value in table && key.value !in p.usedKeys
    ensures Gathered(recover, sigs, n + 1, table, threshold, PickOne(recover, table, threshold, p, sigs[n]))
  {
    var sig := sigs[n];
    RelevantAppend(recover, p.chosen, sig, table);
    SumGrow(p.usedKeys, WeightIn(table), WeightIn(table), Recover(recover, sig).value);
    DistinctAppend(recover, p.chosen, sig, table);
    RelevantOfPrefix(recover, p.chosen, [sig], |p.chosen|, table);
  }

  lemma {:induction false} RelevantGrows(recover: Recovery, sigs: seq<string>, m: nat, n: nat, table: map<string, nat>)
    requires m <= n <= |sigs|
    ensures RelevantTo(recover, sigs, m, table) <= RelevantTo(recover, sigs, n, table)
  {
    if m < n {
      RelevantGrows(recover, sigs, m, n - 1, table);
    }
  }

  lemma {:induction false} RelevantOfPrefix(recover: Recovery, sigs: seq<string>, more: seq<string>, n: nat, table: map<string, nat>)
    requires n <= |sigs|
    ensures RelevantTo(recover, sigs + more, n, table) == RelevantTo(recover, sigs, n, table)
  {
    if n > 0 {
      RelevantOfPrefix(recover, sigs, more, n - 1, table);
    }
  }

  lemma RelevantAppend(recover: Recovery, sigs: seq<string>, sig: string, table: map<string, nat>)
    ensures RelevantKeys(recover, sigs + [sig], table)
            == RelevantKeys(recover, sigs, table) + RelevantKey(recover, sig, table)
  {
    RelevantOfPrefix(recover, sigs, [sig], |sigs|, table);
  }

  lemma DistinctAppend(recover: Recovery, sigs: seq<string>, sig: string, table: map<string, nat>)
    requires DistinctRelevant(recover, sigs, table) && Recover(recover, sig).Some? && Recover(recover, sig).value in table
    requires Recover(recover, sig).value !in RelevantKeys(recover, sigs, table)
    ensures DistinctRelevant(recover, sigs + [sig], table)
  {
    RelevantAre(recover, sigs, |sigs|, table, Recover(recover, sig).value);
  }

  lemma {:induction false} SubsetWeighsLess(s: set<string>, t: set<string>, f: string -> int)
    requires s <= t && forall x :: x in t ==> f(x) >= 0
    ensures Sum(s, f) <= Sum(t, f)
    decreases s
  {
    if s == {} {
      SumNonNegative(t, f);
    } else {
      var x :| x in s;
      SumTakeOut(s, f, x);
      SumTakeOut(t, f, x);
      SubsetWeighsLess(s - {x}, t - {x}, f);
    }
  }

  lemma {:induction false} SameSignaturesSameKeys(recover: Recovery, a: seq<string>, n: nat, b: seq<string>, table: map<string, nat>)
    requires n <= |a| && forall s :: s in a ==> s in b
    ensures RelevantTo(recover, a, n, table) <= RelevantKeys(recover, b, table)
  {
    if n > 0 {
      SameSignaturesSameKeys(recover, a, n - 1, b, table);
      assert a[n - 1] in b;
      var j :| 0 <= j < |b| && b[j] == a[n - 1];
      RelevantGrows(recover, b, j + 1, |b|, table);
    }
  }

  /** Two collections of the same signatures, in any order and with any repetitions, succeed alike. */
  lemma OrderAndRepetitionDoNotMatter(recover: Recovery, a: seq<string>, b: seq<string>, auth: Authority)
    requires forall s :: s in a <==> s in b
    ensures Worth(recover, a, WeightTable(auth)) == Worth(recover, b, WeightTable(auth))
  {
    var table := WeightTable(auth);
    SameSignaturesSameKeys(recover, a, |a|, b, table);
    SameSignaturesSameKeys(recover, b, |b|, a, table);
    assert RelevantKeys(recover, a, table) == RelevantKeys(recover, b, table);
  }

  // ---------- minimality ----------

  lemma WithoutDropsOneKey(recover: Recovery, sigs: seq<string>, table: map<string, nat>, i: nat)
    requires DistinctRelevant(recover, sigs, table) && i < |sigs|
    ensures sigs[i] in sigs && Recover(recover, sigs[i]).value in RelevantKeys(recover, sigs, table)
    ensures RelevantKeys(recover, Without(sigs, i), table)
            == RelevantKeys(recover, sigs, table) - {Recover(recover, sigs[i]).value}
  {
    var rest, dropped := Without(sigs, i), Recover(recover, sigs[i]).value;
    assert sigs[i] in sigs;
    RelevantAre(recover, sigs, |sigs|, table, dropped);
    forall key | key != dropped
      ensures key in RelevantKeys(recover, rest, table) <==> key in RelevantKeys(recover, sigs, table)
    {
      RelevantAre(recover, sigs, |sigs|, table, key);
      RelevantAre(recover, rest, |rest|, table, key);
      forall j | 0 <= j < |rest| ensures rest[j] == sigs[if j < i then j else j + 1] {}
      if j :| 0 <= j < |sigs| && Recover(recover, sigs[j]) == Some(key) {
        assert rest[if j < i then j else j - 1] == sigs[j];
      }
    }
    RelevantAre(recover, rest, |rest|, table, dropped);
    forall j | 0 <= j < |rest| ensures Recover(recover, rest[j]) != Some(dropped) {
      assert rest[j] == sigs[if j < i then j else j + 1];
    }
  }

  /** One signature can be left out of a selection exactly when its weight is within the overshoot. */
  lemma DispensableIffWithinOvershoot(recover: Recovery, chosen: seq<string>, auth: Authority, i: nat)
    requires DistinctRelevant(recover, chosen, WeightTable(auth)) && i < |chosen|
    ensures Worth(recover, Without(chosen, i), WeightTable(auth)) >= auth.threshold
            <==> WeightTable(auth)[Recover(recover, chosen[i]).value]
                 <= Worth(recover, chosen, WeightTable(auth)) - auth.threshold
  {
    var table := WeightTable(auth);
    WithoutDropsOneKey(recover, chosen, table, i);
    SumTakeOut(RelevantKeys(recover, chosen, table), WeightIn(table), Recover(recover, chosen[i]).value);
  }

  lemma WithoutLast(recover: Recovery, sigs: seq<string>, table: map<string, nat>)
    requires sigs != []
    ensures var last := |sigs| - 1;
            Without(sigs, last) == sigs[..last] && Worth(recover, sigs[..last], table) == WorthTo(recover, sigs, last, table)
  {
    var last := |sigs| - 1;
    assert sigs == sigs[..last] + [sigs[last]];
    RelevantOfPrefix(recover, sigs[..last], [sigs[last]], last, table);
  }

  /** So with equal weights a selection is minimal: none of its signatures can be left out. */
  lemma EqualWeightsSelectMinimally(recover: Recovery, chosen: seq<string>, auth: Authority, c: nat, i: nat)
    requires IsSelection(recover, chosen, auth) && i < |chosen|
    requires forall k :: k in WeightTable(auth) ==> WeightTable(auth)[k] == c
    ensures Worth(recover, Without(chosen, i), WeightTable(auth)) < auth.threshold
  {
    var last := |chosen| - 1;
    DispensableIffWithinOvershoot(recover, chosen, auth, i);
    DispensableIffWithinOvershoot(recover, chosen, auth, last);
    WithoutLast(recover, chosen, WeightTable(auth));
  }

  lemma {:induction false} WorthOfWeightOne(recover: Recovery, sigs: seq<string>, table: map<string, nat>)
    requires DistinctRelevant(recover, sigs, table) && forall k :: k in table ==> table[k] == 1
    ensures Worth(recover, sigs, table) == |sigs|
  {
    if sigs == [] {
      assert RelevantKeys(recover, sigs, table) == {};
    } else {
      var last := |sigs| - 1;
      WithoutDropsOneKey(recover, sigs, table, last);
      SumTakeOut(RelevantKeys(recover, sigs, table), WeightIn(table), Recover(recover, sigs[last]).value);
      assert Without(sigs, last) == sigs[..last];
      WorthOfWeightOne(recover, sigs[..last], table);
    }
  }

  /** With weight one, as the federation builds its authorities, exactly `threshold` signatures are chosen. */
  lemma WeightOneSelectsThreshold(recover: Recovery, chosen: seq<string>, auth: Authority)
    requires IsSelection(recover, chosen, auth) && auth.threshold >= 0
    requires forall k :: k in WeightTable(auth) ==> WeightTable(auth)[k] == 1
    ensures |chosen| == auth.threshold
  {
    var table := WeightTable(auth);
    WorthOfWeightOne(recover, chosen, table);
    if chosen != [] {
      WithoutLast(recover, chosen, table);
      WorthOfWeightOne(recover, chosen[..|chosen| - 1], table);
    }
  }

  /** With unequal weights a selection need not be minimal: here the first signature chosen is not needed. */
  lemma UnequalWeightsMayOvershoot(recover: Recovery)
    requires Recover(recover, "a") == Some("a") && Recover(recover, "b") == Some("b")
    ensures var auth := Authority(2, [("a", 1), ("b", 2)]);
            && DistinctRelevant(recover, ["a", "b"], WeightTable(auth))
            && Worth(recover, ["a"], WeightTable(auth)) < auth.threshold
            && Worth(recover, ["a", "b"], WeightTable(auth)) >= auth.threshold
            && Worth(recover, Without(["a", "b"], 0), WeightTable(auth)) >= auth.threshold
  {
    var auth := Authority(2, [("a", 1), ("b", 2)]);
    var table, both := WeightTable(auth), ["a", "b"];
    assert table == map["a" := 1, "b" := 2];
    assert Without(both, 0) == ["b"] && Without(both, 1) == ["a"] && Without(["b"], 0) == [];
    WithoutDropsOneKey(recover, ["b"], table, 0);
    DispensableIffWithinOvershoot(recover, ["b"], auth, 0);
    DispensableIffWithinOvershoot(recover, both, auth, 0);
    DispensableIffWithinOvershoot(recover, both, auth, 1);
    SumTakeOut(RelevantKeys(recover, ["b"], table), WeightIn(table), "b");
    WithoutDropsOneKey(recover, both, table, 0);
    SumTakeOut(RelevantKeys(recover, both, table), WeightIn(table), "a");
  }
}
