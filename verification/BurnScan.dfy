/**
 The paginated peg-out scans. A remote wallet's history is read newest first, a page at a
 time, back to a durable cursor; only what is already final is taken.
 */
module BurnScan {
  import opened Wrappers

  datatype Burn = Burn(sourceId: string, homeDestination: string, amountMilliViz: int)

  /**
   One history entry. On TON `pos` is the logical time and `stamp` the block time; on Solana
   both are the slot. `failed` marks a Solana signature with an error.
   */
  datatype Entry = Entry(pos: int, stamp: int, failed: bool, burn: Option<Burn>)

  /** Newest first. */
  predicate Descending(h: seq<Entry>) {
    forall i, j :: 0 <= i < j < |h| ==> h[j].pos <= h[i].pos
  }

  predicate StrictlyDescending(h: seq<Entry>) {
    forall i, j :: 0 <= i < j < |h| ==> h[j].pos < h[i].pos
  }

  predicate Counts(e: Entry, from: int, cutoff: int) {
    from < e.pos && e.stamp <= cutoff && !e.failed
  }

  /** The final burns above `from` among the newest `k` entries, each entry once. */
  function FinalBurns(h: seq<Entry>, k: nat, from: int, cutoff: int): seq<Burn>
    requires k <= |h|
  {
    if k == 0 then []
    else
      var e := h[k - 1];
      FinalBurns(h, k - 1, from, cutoff)
      + if Counts(e, from, cutoff) && e.burn.Some? then [e.burn.value] else []
  }

  /** The position of the newest final entry above `from` among the newest `k`, or `from`. */
  function NewestFinal(h: seq<Entry>, k: nat, from: int, cutoff: int): int
    requires k <= |h|
  {
    if k == 0 then from
    else
      var e, newest := h[k - 1], NewestFinal(h, k - 1, from, cutoff);
      if Counts(e, from, cutoff) && e.pos > newest then e.pos else newest
  }

  lemma {:induction false} EntriesAtOrBelowCursorAddNothing(h: seq<Entry>, k: nat, n: nat, from: int, cutoff: int)
    requires k <= n <= |h| && forall i :: k <= i < n ==> h[i].pos <= from
    ensures FinalBurns(h, n, from, cutoff) == FinalBurns(h, k, from, cutoff)
    ensures NewestFinal(h, n, from, cutoff) == NewestFinal(h, k, from, cutoff)
  {
    if k < n {
      EntriesAtOrBelowCursorAddNothing(h, k, n - 1, from, cutoff);
    }
  }

  /** Once the newest unexamined entry is at or below the cursor, the examined ones are all that matter. */
  lemma ReachingCursorIsComplete(h: seq<Entry>, k: nat, from: int, cutoff: int)
    requires Descending(h) && k <= |h| && (k < |h| ==> h[k].pos <= from)
    ensures FinalBurns(h, |h|, from, cutoff) == FinalBurns(h, k, from, cutoff)
    ensures NewestFinal(h, |h|, from, cutoff) == NewestFinal(h, k, from, cutoff)
  {
    EntriesAtOrBelowCursorAddNothing(h, k, |h|, from, cutoff);
  }

  // ---------- TON: pages repeat their anchor ----------

  function Below(h: seq<Entry>, pos: int): seq<Entry> {
    if h != [] && h[0].pos > pos then Below(h[1..], pos) else h
  }

  /** Up to `limit` transactions, newest first, starting at the anchor transaction itself. */
  function PageFromAnchor(h: seq<Entry>, anchor: Option<int>, limit: nat): seq<Entry> {
    var older := if anchor.None? then h else Below(h, anchor.value);
    older[..if limit < |older| then limit else |older|]
  }

  lemma {:induction false} BelowStartsAtAnchor(h: seq<Entry>, k: nat)
    requires StrictlyDescending(h) && k < |h|
    ensures Below(h, h[k].pos) == h[k..]
  {
    if k > 0 {
      assert h[1..][k - 1] == h[k];
      BelowStartsAtAnchor(h[1..], k - 1);
      assert h[1..][k - 1..] == h[k..];
    }
  }

  /** Transactions covered by so many full pages: the first page is all new, each later one repeats its anchor. */
  function Reach(pages: nat, limit: nat): int {
    if pages == 0 then 0 else if pages == 1 then limit else Reach(pages - 1, limit) + (limit - 1)
  }

  lemma {:induction false} ReachInClosedForm(pages: nat, limit: nat)
    ensures pages > 0 ==> Reach(pages, limit) == pages * (limit - 1) + 1
  {
    if pages > 1 {
      ReachInClosedForm(pages - 1, limit);
      assert pages * (limit - 1) == (pages - 1) * (limit - 1) + (limit - 1);
    }
  }

  lemma PageIsSlice(h: seq<Entry>, k: nat, limit: nat)
    requires StrictlyDescending(h) && k <= |h|
    ensures var page := PageFromAnchor(h, if k == 0 then None else Some(h[k - 1].pos), limit);
            var first := if k > 0 then k - 1 else 0;
            && |page| == (if limit < |h| - first then limit else |h| - first)
            && forall i :: 0 <= i < |page| ==> page[i] == h[first + i]
  {
    if k > 0 {
      BelowStartsAtAnchor(h, k - 1);
    }
  }

  /** One page of `paginateBurnsByLt`: the transactions of `h` from index `first` on, `k0` of which are dealt with. */
  method TakeLtPage(h: seq<Entry>, page: seq<Entry>, anchor: Option<int>, fromLt: int, cutoff: int,
                    burns0: seq<Burn>, newest0: int, ghost first: nat, ghost k0: nat)
    returns (burns: seq<Burn>, newestFinalLt: int, drained: bool, sawFresh: bool, ghost k: nat)
    requires StrictlyDescending(h)
    requires first + |page| <= |h| && forall i :: 0 <= i < |page| ==> page[i] == h[first + i]
    requires k0 <= |h| && first == (if k0 > 0 then k0 - 1 else 0)
    requires anchor == (if k0 == 0 then None else Some(h[k0 - 1].pos))
    requires burns0 == FinalBurns(h, k0, fromLt, cutoff) && newest0 == NewestFinal(h, k0, fromLt, cutoff)
    ensures k0 <= k <= |h| && (k == k0 || k <= first + |page|)
    ensures burns == FinalBurns(h, k, fromLt, cutoff) && newestFinalLt == NewestFinal(h, k, fromLt, cutoff)
    ensures sawFresh <==> k > k0
    ensures forall i :: k0 <= i < k ==> h[i].pos > fromLt
    ensures if drained then k < |h| && h[k].pos <= fromLt
            else k == if first + |page| < k0 then k0 else first + |page|
  {
    burns, newestFinalLt, drained, sawFresh, k := burns0, newest0, false, false, k0;
    var i := 0;
    while i < |page|
      invariant 0 <= i <= |page| && k0 <= k <= |h|
      invariant k == if first + i < k0 then k0 else first + i
      invariant burns == FinalBurns(h, k, fromLt, cutoff)
      invariant newestFinalLt == NewestFinal(h, k, fromLt, cutoff)
      invariant sawFresh <==> k > k0
      invariant forall j :: k0 <= j < k ==> h[j].pos > fromLt
      invariant !drained
    {
      var tx := page[i];
      assert tx == h[first + i];
      if anchor.Some? && tx.pos >= anchor.value {
        i := i + 1;
        continue;
      }
      if tx.pos <= fromLt {
        drained := true;
        break;
      }
      sawFresh := true;
      if tx.stamp <= cutoff && !tx.failed {
        if tx.pos > newestFinalLt {
          newestFinalLt := tx.pos;
        }
        if tx.burn.Some? {
          burns := burns + [tx.burn.value];
        }
      }
      k, i := k + 1, i + 1;
    }
  }

  /**
   `paginateBurnsByLt`. With pages of at least two, a drained scan has reported exactly the
   final burns above the cursor; an undrained one has filled all its pages with transactions
   above the cursor. A page of one holds only the repeated anchor
   from the second fetch on, so such a scan stops after the newest transaction.
   */
  method PaginateBurnsByLt(h: seq<Entry>, fromLt: int, cutoff: int, limit: nat, maxScanPages: nat)
    returns (burns: seq<Burn>, newestFinalLt: int, drained: bool, pages: nat, ghost k: nat)
    requires StrictlyDescending(h)
    ensures pages <= maxScanPages && k <= |h|
    ensures burns == FinalBurns(h, k, fromLt, cutoff)
    ensures drained && limit >= 2 ==> burns == FinalBurns(h, |h|, fromLt, cutoff)
    ensures drained && limit >= 2 ==> newestFinalLt == NewestFinal(h, |h|, fromLt, cutoff)
    ensures !drained ==> k == Reach(maxScanPages, limit) && forall i :: 0 <= i < k ==> h[i].pos > fromLt
    ensures limit <= 1 ==> k <= limit && (maxScanPages > limit ==> drained)
  {
    burns, newestFinalLt, drained, pages, k := [], fromLt, false, 0, 0;
    var anchor: Option<int> := None;
    while pages < maxScanPages && !drained
      invariant pages <= maxScanPages && k <= |h|
      invariant burns == FinalBurns(h, k, fromLt, cutoff)
      invariant newestFinalLt == NewestFinal(h, k, fromLt, cutoff)
      invariant pages == 0 ==> k == 0
      invariant anchor == (if k == 0 then None else Some(h[k - 1].pos))
      invariant k == Reach(pages, limit) && (pages > 0 ==> k > 0)
      invariant forall i :: 0 <= i < k ==> h[i].pos > fromLt
      invariant !drained
      invariant limit <= 1 ==> k == pages <= limit
    {
      var page := PageFromAnchor(h, anchor, limit);
      PageIsSlice(h, k, limit);
      ghost var first := if k > 0 then k - 1 else 0;
      pages := pages + 1;
      if page == [] {
        drained := true;
        break;
      }
      var sawFresh: bool;
      burns, newestFinalLt, drained, sawFresh, k :=
        TakeLtPage(h, page, anchor, fromLt, cutoff, burns, newestFinalLt, first, k);
      if drained {
        break;
      }
      assert !sawFresh && limit >= 2 ==> |page| < limit;
      if !sawFresh || |page| < limit {
        drained := true;
        break;
      }
      assert page[|page| - 1] == h[k - 1];
      anchor := Some(page[|page| - 1].pos);
    }
    if drained && limit >= 2 {
      ReachingCursorIsComplete(h, k, fromLt, cutoff);
    }
  }

  // ---------- Solana: pages start after their anchor ----------

  /** Signatures covered by so many full pages. */
  function SlotReach(pages: nat, limit: nat): nat {
    if pages == 0 then 0 else SlotReach(pages - 1, limit) + limit
  }

  lemma {:induction false} SlotReachInClosedForm(pages: nat, limit: nat)
    ensures SlotReach(pages, limit) == pages * limit
  {
    if pages > 0 {
      SlotReachInClosedForm(pages - 1, limit);
      assert pages * limit == (pages - 1) * limit + limit;
    }
  }

  /** One page of `paginateBurnsBySlot`, which starts at index `before`. */
  method TakeSlotPage(h: seq<Entry>, page: seq<Entry>, fromSlot: int, safeSlot: int,
                      burns0: seq<Burn>, newest0: int, ghost before: nat)
    returns (burns: seq<Burn>, newestFinalSlot: int, drained: bool, sawFresh: bool, ghost k: nat)
    requires forall e :: e in h ==> e.pos == e.stamp
    requires before + |page| <= |h| && page == h[before..before + |page|]
    requires burns0 == FinalBurns(h, before, fromSlot, safeSlot) && newest0 == NewestFinal(h, before, fromSlot, safeSlot)
    ensures before <= k <= |h|
    ensures burns == FinalBurns(h, k, fromSlot, safeSlot) && newestFinalSlot == NewestFinal(h, k, fromSlot, safeSlot)
    ensures sawFresh <==> k > before
    ensures forall i :: before <= i < k ==> h[i].pos > fromSlot
    ensures if drained then k < |h| && h[k].pos <= fromSlot else k == before + |page|
  {
    burns, newestFinalSlot, drained, sawFresh, k := burns0, newest0, false, false, before;
    var i := 0;
    while i < |page|
      invariant 0 <= i <= |page| && k == before + i
      invariant burns == FinalBurns(h, k, fromSlot, safeSlot)
      invariant newestFinalSlot == NewestFinal(h, k, fromSlot, safeSlot)
      invariant sawFresh <==> i > 0
      invariant forall j :: before <= j < k ==> h[j].pos > fromSlot
      invariant !drained
    {
      var s := page[i];
      assert s == h[before + i];
      if s.pos <= fromSlot {
        drained := true;
        break;
      }
      sawFresh := true;
      k, i := k + 1, i + 1;
      assert s in h;
      if s.failed {
        continue;
      }
      if s.pos <= safeSlot {
        if s.pos > newestFinalSlot {
          newestFinalSlot := s.pos;
        }
        if s.burn.Some? {
          burns := burns + [s.burn.value];
        }
      }
    }
  }

  /** `paginateBurnsBySlot`; the signature that anchors a page is named by its index in the history. */
  method PaginateBurnsBySlot(h: seq<Entry>, fromSlot: int, safeSlot: int, limit: nat, maxScanPages: nat)
    returns (burns: seq<Burn>, newestFinalSlot: int, drained: bool, pages: nat, ghost k: nat)
    requires Descending(h) && forall e :: e in h ==> e.pos == e.stamp
    ensures pages <= maxScanPages && k <= |h|
    ensures burns == FinalBurns(h, k, fromSlot, safeSlot)
    ensures drained && limit >= 1 ==> burns == FinalBurns(h, |h|, fromSlot, safeSlot)
    ensures drained && limit >= 1 ==> newestFinalSlot == NewestFinal(h, |h|, fromSlot, safeSlot)
    ensures !drained ==> k == SlotReach(maxScanPages, limit) && forall i :: 0 <= i < k ==> h[i].pos > fromSlot
    ensures limit == 0 && maxScanPages > 0 ==> drained && burns == []
  {
    burns, newestFinalSlot, drained, pages, k := [], fromSlot, false, 0, 0;
    var before: nat := 0;  // entries up to and including the anchor signature
    while pages < maxScanPages && !drained
      invariant pages <= maxScanPages && k <= |h|
      invariant burns == FinalBurns(h, k, fromSlot, safeSlot)
      invariant newestFinalSlot == NewestFinal(h, k, fromSlot, safeSlot)
      invariant before == k == SlotReach(pages, limit)
      invariant forall i :: 0 <= i < k ==> h[i].pos > fromSlot
      invariant !drained
      invariant limit == 0 ==> k == 0 && pages == 0
    {
      var end := if before + limit < |h| then before + limit else |h|;
      var page := h[before..end];
      pages := pages + 1;
      if page == [] {
        drained := true;
        break;
      }
      var sawFresh: bool;
      burns, newestFinalSlot, drained, sawFresh, k :=
        TakeSlotPage(h, page, fromSlot, safeSlot, burns, newestFinalSlot, before);
      if drained {
        break;
      }
      if !sawFresh || |page| < limit {
        drained := true;
        break;
      }
      before := before + |page|;
    }
    if drained && limit >= 1 {
      ReachingCursorIsComplete(h, k, fromSlot, safeSlot);
    }
  }

  /** A page of one loses burns: the complete scan of this wallet reports more than its newest transaction. */
  lemma PageOfOneLosesBurns()
    ensures var h := [Entry(2, 2, false, None), Entry(1, 1, false, Some(Burn("b", "alice", 5)))];
            StrictlyDescending(h) && FinalBurns(h, 1, 0, 9) != FinalBurns(h, |h|, 0, 9)
            && NewestFinal(h, 1, 0, 9) == 2
  {
    var h := [Entry(2, 2, false, None), Entry(1, 1, false, Some(Burn("b", "alice", 5)))];
    assert FinalBurns(h, 1, 0, 9) == FinalBurns(h, 0, 0, 9) == [];
  }

  // ---------- where the cursor may go ----------

  /** Old enough at the cutoff, above the cursor, and not failed: the newest such entry, or the cursor. */
  lemma {:induction false} NewestFinalBounds(h: seq<Entry>, k: nat, from: int, cutoff: int)
    requires k <= |h|
    ensures from <= NewestFinal(h, k, from, cutoff)
    ensures forall i :: 0 <= i < k && h[i].stamp <= cutoff && !h[i].failed ==> h[i].pos <= NewestFinal(h, k, from, cutoff)
    ensures NewestFinal(h, k, from, cutoff) == from
            || exists i :: 0 <= i < k && h[i].stamp <= cutoff && !h[i].failed && h[i].pos == NewestFinal(h, k, from, cutoff)
  {
    if k > 0 {
      NewestFinalBounds(h, k - 1, from, cutoff);
    }
  }

  /** No entry still awaiting finality lies above `from` and at or below a final one. */
  ghost predicate FinalityFollowsPosition(h: seq<Entry>, from: int, cutoff: int) {
    forall i, j :: 0 <= i < |h| && 0 <= j < |h| && h[i].stamp > cutoff && h[i].pos > from && h[j].stamp <= cutoff && !h[j].failed
                   ==> h[j].pos < h[i].pos
  }

  /** The new cursor lies below every entry above the old one that is not final yet, exactly under that condition. */
  lemma NewestFinalBelowUnfinished(h: seq<Entry>, from: int, cutoff: int)
    ensures (forall i :: 0 <= i < |h| && h[i].stamp > cutoff && h[i].pos > from
                         ==> NewestFinal(h, |h|, from, cutoff) < h[i].pos)
            <==> FinalityFollowsPosition(h, from, cutoff)
  {
    NewestFinalBounds(h, |h|, from, cutoff);
  }

  /** Above the cursor, old enough at the cutoff, not failed, and carrying this burn. */
  predicate Carries(e: Entry, from: int, cutoff: int, b: Burn) {
    e.pos > from && e.stamp <= cutoff && !e.failed && e.burn == Some(b)
  }

  /** The reported burns are those of the final entries above the cursor, all of them and no others. */
  lemma {:induction false} FinalBurnsAreTheFinalBurns(h: seq<Entry>, k: nat, from: int, cutoff: int)
    requires k <= |h|
    ensures forall b :: b in FinalBurns(h, k, from, cutoff) <==> exists i :: 0 <= i < k && Carries(h[i], from, cutoff, b)
  {
    if k > 0 {
      FinalBurnsAreTheFinalBurns(h, k - 1, from, cutoff);
      forall b | b in FinalBurns(h, k, from, cutoff) ensures exists i :: 0 <= i < k && Carries(h[i], from, cutoff, b) {
        if b !in FinalBurns(h, k - 1, from, cutoff) {
          assert Carries(h[k - 1], from, cutoff, b);
        }
      }
    }
  }

  function Carrying(h: seq<Entry>, k: nat, from: int, cutoff: int, b: Burn): set<nat>
    requires k <= |h|
  {
    set i: nat | 0 <= i < k && Carries(h[i], from, cutoff, b)
  }

  lemma OneMoreEntry(h: seq<Entry>, k: nat, from: int, cutoff: int, b: Burn)
    requires 0 < k <= |h|
    ensures |Carrying(h, k, from, cutoff, b)|
            == |Carrying(h, k - 1, from, cutoff, b)| + if Carries(h[k - 1], from, cutoff, b) then 1 else 0
  {
    var before, at := Carrying(h, k - 1, from, cutoff, b), Carrying(h, k, from, cutoff, b);
    assert at == if Carries(h[k - 1], from, cutoff, b) then before + {k - 1} else before;
  }

  lemma OneMoreBurn(h: seq<Entry>, k: nat, from: int, cutoff: int, b: Burn)
    requires 0 < k <= |h|
    ensures multiset(FinalBurns(h, k, from, cutoff))[b]
            == multiset(FinalBurns(h, k - 1, from, cutoff))[b] + if Carries(h[k - 1], from, cutoff, b) then 1 else 0
  {
  }

  /** Each is reported as often as entries carry it. */
  lemma {:induction false} EachBurnOncePerEntry(h: seq<Entry>, k: nat, from: int, cutoff: int, b: Burn)
    requires k <= |h|
    ensures multiset(FinalBurns(h, k, from, cutoff))[b] == |Carrying(h, k, from, cutoff, b)|
  {
    if k > 0 {
      EachBurnOncePerEntry(h, k - 1, from, cutoff, b);
      OneMoreEntry(h, k, from, cutoff, b);
      OneMoreBurn(h, k, from, cutoff, b);
    }
  }
}
