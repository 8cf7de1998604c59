/**
 The gram-watcher over whole runs: history grows between ticks, finality moves on, a tick may
 drain, stop short or throw at any store write, and the process may restart at any point.
 */
module BurnWatcher {
  import opened Wrappers
  import opened BurnScan

  /** `memory` is the loop's own cursor, `persisted` the stored one; `floor` is where the last cold start began. */
  datatype Watcher = Watcher(history: seq<Entry>, cutoff: int, memory: int, persisted: int, floor: int,
                             outbox: map<string, Burn>)

  datatype Event =
    | Grow(history: seq<Entry>, cutoff: int)
    | ColdStart(stored: bool)
    | Tick(burns: seq<Burn>, newestFinal: int, drained: bool, enqueued: nat, stored: bool)
    | Restart

  /** A wallet's history: newest first, times following positions, every burn its own id. */
  ghost predicate History(h: seq<Entry>) {
    && StrictlyDescending(h)
    && (forall i, j :: 0 <= i < j < |h| ==> h[j].stamp <= h[i].stamp)
    && (forall i :: 0 <= i < |h| ==> h[i].pos > 0 && !h[i].failed)
    && (forall i, j :: 0 <= i < j < |h| && h[i].burn.Some? && h[j].burn.Some?
                       ==> h[i].burn.value.sourceId != h[j].burn.value.sourceId)
  }

  /** What was final stays; what appears afterwards carries a time past the cutoff that held before. */
  ghost predicate Extends(h: seq<Entry>, cutoff: int, h': seq<Entry>, cutoff': int) {
    && History(h') && cutoff <= cutoff'
    && (forall e :: e in h && e.stamp <= cutoff ==> e in h')
    && (forall e :: e in h' && e !in h ==> e.stamp > cutoff)
  }

  /** What `PaginateBurnsByLt` promises for pages of at least two. */
  ghost predicate ScanResult(h: seq<Entry>, from: int, cutoff: int, burns: seq<Burn>, newestFinal: int, drained: bool) {
    && (exists k :: 0 <= k <= |h| && burns == FinalBurns(h, k, from, cutoff))
    && (drained ==> burns == FinalBurns(h, |h|, from, cutoff) && newestFinal == NewestFinal(h, |h|, from, cutoff))
  }

  /** `INSERT OR IGNORE` for each burn in turn. */
  function EnqueueAll(outbox: map<string, Burn>, burns: seq<Burn>): map<string, Burn>
    decreases burns
  {
    if burns == [] then outbox
    else
      var b := burns[0];
      EnqueueAll(if b.sourceId in outbox then outbox else outbox[b.sourceId := b], burns[1..])
  }

  function ColdStartAnchorLt(tipLt: int): int {
    if tipLt > 0 then tipLt - 1 else 0
  }

  /** A cold start leaves the wallet's newest transaction, and no other, for the first scan. */
  lemma ColdStartKeepsTip(h: seq<Entry>, e: Entry)
    requires History(h) && e in h
    ensures ColdStartAnchorLt(h[0].pos) < e.pos <==> e == h[0]
  {
    var i :| 0 <= i < |h| && h[i] == e;
    if i > 0 {
      assert h[i].pos < h[0].pos;
    }
  }

  /** `setCursor` ignores a value that would move the cursor back. */
  function SetCursor(persisted: int, value: int): int {
    if value <= persisted then persisted else value
  }

  ghost predicate Enabled(w: Watcher, e: Event) {
    match e
    case Grow(h, cutoff) => Extends(w.history, w.cutoff, h, cutoff)
    case ColdStart(_) => w.memory == 0
    case Tick(burns, newest, drained, enqueued, _) =>
      w.memory != 0 && enqueued <= |burns| && ScanResult(w.history, w.memory, w.cutoff, burns, newest, drained)
    case Restart => true
  }

  ghost function Next(w: Watcher, e: Event): Watcher
    requires Enabled(w, e)
  {
    match e
    case Grow(h, cutoff) => w.(history := h, cutoff := cutoff)
    case ColdStart(stored) =>
      var start := ColdStartAnchorLt(if |w.history| == 0 then 0 else w.history[0].pos);
      w.(memory := start, floor := start, persisted := if stored then SetCursor(w.persisted, start) else w.persisted)
    case Tick(burns, newest, drained, enqueued, stored) =>
      var w1 := w.(outbox := EnqueueAll(w.outbox, burns[..enqueued]));
      if drained && enqueued == |burns|
      then w1.(memory := newest, persisted := if stored then SetCursor(w.persisted, newest) else w.persisted)
      else w1
    case Restart => w.(memory := w.persisted)
  }

  ghost predicate Initial(w: Watcher) {
    History(w.history) && w.memory == 0 && w.persisted == 0 && w.floor == 0 && w.outbox == map[]
  }

  ghost predicate Run(ws: seq<Watcher>) {
    && |ws| > 0 && Initial(ws[0])
    && forall i :: 0 <= i < |ws| - 1 ==> Step(ws[i], ws[i + 1])
  }

  ghost predicate Step(w: Watcher, w': Watcher) {
    exists e :: Enabled(w, e) && w' == Next(w, e)
  }

  // ---------- the invariant ----------

  /** Everything between the cold start and the cursor is final, and its burns have their rows. */
  ghost predicate Covered(w: Watcher, cursor: int) {
    && w.floor <= cursor
    && (cursor == w.floor || exists e :: e in w.history && e.pos == cursor && e.stamp <= w.cutoff)
    && (forall e :: e in w.history && w.floor < e.pos <= cursor ==> e.stamp <= w.cutoff && Recorded(w, e))
  }

  ghost predicate Recorded(w: Watcher, e: Entry) {
    e.burn.Some? ==> e.burn.value.sourceId in w.outbox && w.outbox[e.burn.value.sourceId] == e.burn.value
  }

  /** Every row is the record of one final burn. */
  ghost predicate OutboxOk(w: Watcher) {
    forall id :: id in w.outbox ==>
                   w.outbox[id].sourceId == id
                   && exists e :: e in w.history && e.stamp <= w.cutoff && e.burn == Some(w.outbox[id])
  }

  ghost predicate Inv(w: Watcher) {
    && History(w.history)
    && OutboxOk(w)
    && 0 <= w.persisted <= w.memory
    && (w.memory != 0 ==> Covered(w, w.memory))
    && (w.persisted != 0 ==> Covered(w, w.persisted))
  }

  // ---------- steps ----------

  lemma EntriesAreFinalBelowFinal(h: seq<Entry>, cutoff: int, e: Entry, g: Entry)
    requires History(h) && e in h && g in h && g.stamp <= cutoff < e.stamp
    ensures g.pos < e.pos
  {
    var i :| 0 <= i < |h| && h[i] == e;
    var j :| 0 <= j < |h| && h[j] == g;
    assert i != j;
  }

  lemma GrowKeepsCovered(w: Watcher, h: seq<Entry>, cutoff: int, cursor: int)
    requires History(w.history) && Extends(w.history, w.cutoff, h, cutoff) && Covered(w, cursor)
    ensures Covered(w.(history := h, cutoff := cutoff), cursor)
  {
    var w' := w.(history := h, cutoff := cutoff);
    if cursor != w.floor {
      var top :| top in w.history && top.pos == cursor && top.stamp <= w.cutoff;
      assert top in h;
      forall e | e in h && w.floor < e.pos <= cursor ensures e.stamp <= cutoff && Recorded(w', e) {
        if e !in w.history {
          EntriesAreFinalBelowFinal(h, w.cutoff, e, top);
        } else {
          assert Recorded(w, e);
        }
      }
    }
  }

  lemma {:induction false} EnqueueAllAdds(outbox: map<string, Burn>, burns: seq<Burn>)
    requires forall id :: id in outbox ==> outbox[id].sourceId == id
    ensures var out := EnqueueAll(outbox, burns);
            && (forall id :: id in outbox ==> id in out && out[id] == outbox[id])
            && (forall id :: id in out ==> out[id].sourceId == id && (id in outbox || out[id] in burns))
            && (forall b :: b in burns ==> b.sourceId in out && (out[b.sourceId] in burns || b.sourceId in outbox))
    decreases burns
  {
    if burns != [] {
      var b := burns[0];
      EnqueueAllAdds(if b.sourceId in outbox then outbox else outbox[b.sourceId := b], burns[1..]);
      assert burns == [b] + burns[1..];
    }
  }

  /** Ids are unique, so a burn with an existing row is that row's burn. */
  lemma SameIdSameBurn(h: seq<Entry>, e: Entry, g: Entry)
    requires History(h) && e in h && g in h && e.burn.Some? && g.burn.Some?
    requires e.burn.value.sourceId == g.burn.value.sourceId
    ensures e == g
  {
    var i :| 0 <= i < |h| && h[i] == e;
    var j :| 0 <= j < |h| && h[j] == g;
    assert i == j;
  }

  lemma TickRecords(w: Watcher, burns: seq<Burn>, newest: int, drained: bool, enqueued: nat)
    requires Inv(w) && enqueued <= |burns| && ScanResult(w.history, w.memory, w.cutoff, burns, newest, drained)
    ensures var w' := w.(outbox := EnqueueAll(w.outbox, burns[..enqueued]));
            && OutboxOk(w')
            && (forall e :: e in w.history && e.stamp <= w.cutoff && Recorded(w, e) ==> Recorded(w', e))
            && (forall e :: e in w.history && e.stamp <= w.cutoff && e.burn.Some? && e.burn.value in burns[..enqueued]
                  ==> Recorded(w', e))
  {
    var w' := w.(outbox := EnqueueAll(w.outbox, burns[..enqueued]));
    EnqueueAllAdds(w.outbox, burns[..enqueued]);
    var k :| 0 <= k <= |w.history| && burns == FinalBurns(w.history, k, w.memory, w.cutoff);
    FinalBurnsAreTheFinalBurns(w.history, k, w.memory, w.cutoff);
    forall id | id in w'.outbox
      ensures exists e :: e in w.history && e.stamp <= w.cutoff && e.burn == Some(w'.outbox[id])
    {
      if id !in w.outbox {
        assert w'.outbox[id] in burns;
        var i :| 0 <= i < k && Counts(w.history[i], w.memory, w.cutoff) && w.history[i].burn == Some(w'.outbox[id]);
        assert w.history[i] in w.history;
      }
    }
    forall e | e in w.history && e.stamp <= w.cutoff && e.burn.Some? && e.burn.value in burns[..enqueued]
      ensures Recorded(w', e)
    {
      var id := e.burn.value.sourceId;
      var g :| g in w.history && g.stamp <= w.cutoff && g.burn == Some(w'.outbox[id]);
      SameIdSameBurn(w.history, e, g);
    }
  }

  lemma RecordsKeepCovered(w: Watcher, w1: Watcher, cursor: int)
    requires w1 == w.(outbox := w1.outbox) && Covered(w, cursor)
    requires forall e :: e in w.history && e.stamp <= w.cutoff && Recorded(w, e) ==> Recorded(w1, e)
    ensures Covered(w1, cursor)
  {
  }

  /** Enqueueing a first part of the reported burns keeps everything but adds rows. */
  lemma EnqueueKeepsInv(w: Watcher, w1: Watcher, burns: seq<Burn>, newest: int, drained: bool, enqueued: nat)
    requires Inv(w) && enqueued <= |burns| && ScanResult(w.history, w.memory, w.cutoff, burns, newest, drained)
    requires w1 == w.(outbox := EnqueueAll(w.outbox, burns[..enqueued]))
    ensures Inv(w1)
    ensures forall e :: e in w.history && e.stamp <= w.cutoff && e.burn.Some? && e.burn.value in burns[..enqueued]
                        ==> Recorded(w1, e)
  {
    TickRecords(w, burns, newest, drained, enqueued);
    if w.memory != 0 {
      RecordsKeepCovered(w, w1, w.memory);
    }
    if w.persisted != 0 {
      RecordsKeepCovered(w, w1, w.persisted);
    }
  }

  lemma AdvanceKeepsInv(w1: Watcher, newest: int, stored: bool)
    requires Inv(w1) && w1.memory != 0 && w1.memory <= newest && Covered(w1, newest)
    ensures Inv(w1.(memory := newest, persisted := if stored then SetCursor(w1.persisted, newest) else w1.persisted))
  {
    var w2 := w1.(memory := newest, persisted := if stored then SetCursor(w1.persisted, newest) else w1.persisted);
    assert Covered(w2, newest);
  }

  lemma TickKeepsInv(w: Watcher, e: Event)
    requires Inv(w) && e.Tick? && Enabled(w, e)
    ensures Inv(Next(w, e)) && w.persisted <= Next(w, e).persisted
  {
    var Tick(burns, newest, drained, enqueued, stored) := e;
    var w1 := w.(outbox := EnqueueAll(w.outbox, burns[..enqueued]));
    EnqueueKeepsInv(w, w1, burns, newest, drained, enqueued);
    if drained && enqueued == |burns| {
      assert burns[..enqueued] == burns;
      DrainedScanCovers(w, w1, burns, newest);
      AdvanceKeepsInv(w1, newest, stored);
    }
  }

  lemma DrainedScanCovers(w: Watcher, w1: Watcher, burns: seq<Burn>, newest: int)
    requires History(w.history) && w1 == w.(outbox := w1.outbox) && Covered(w1, w.memory)
    requires burns == FinalBurns(w.history, |w.history|, w.memory, w.cutoff)
    requires newest == NewestFinal(w.history, |w.history|, w.memory, w.cutoff)
    requires forall e :: e in w.history && e.stamp <= w.cutoff && e.burn.Some? && e.burn.value in burns ==> Recorded(w1, e)
    ensures Covered(w1, newest) && w.memory <= newest
  {
    var h := w.history;
    NewestFinalBounds(h, |h|, w.memory, w.cutoff);
    FinalBurnsAreTheFinalBurns(h, |h|, w.memory, w.cutoff);
    if newest != w.memory {
      var i :| 0 <= i < |h| && Counts(h[i], w.memory, w.cutoff) && h[i].pos == newest;
      assert h[i] in h;
      forall g | g in h && w.memory < g.pos <= newest ensures g.stamp <= w.cutoff && Recorded(w1, g) {
        if g.stamp > w.cutoff {
          EntriesAreFinalBelowFinal(h, w.cutoff, g, h[i]);
        }
        var j :| 0 <= j < |h| && h[j] == g;
        assert Counts(h[j], w.memory, w.cutoff);
      }
    }
  }

  lemma GrowKeepsInv(w: Watcher, h: seq<Entry>, cutoff: int)
    requires Inv(w) && Extends(w.history, w.cutoff, h, cutoff)
    ensures Inv(w.(history := h, cutoff := cutoff))
  {
    if w.memory != 0 {
      GrowKeepsCovered(w, h, cutoff, w.memory);
    }
    if w.persisted != 0 {
      GrowKeepsCovered(w, h, cutoff, w.persisted);
    }
    GrowKeepsOutbox(w, h, cutoff);
  }

  lemma GrowKeepsOutbox(w: Watcher, h: seq<Entry>, cutoff: int)
    requires OutboxOk(w) && Extends(w.history, w.cutoff, h, cutoff)
    ensures OutboxOk(w.(history := h, cutoff := cutoff))
  {
  }

  lemma StepKeepsInv(w: Watcher, e: Event)
    requires Inv(w) && Enabled(w, e)
    ensures Inv(Next(w, e)) && w.persisted <= Next(w, e).persisted
    ensures w.persisted != 0 ==> Next(w, e).floor == w.floor
    ensures forall id :: id in w.outbox ==> id in Next(w, e).outbox && Next(w, e).outbox[id] == w.outbox[id]
  {
    match e
    case Grow(h, cutoff) => GrowKeepsInv(w, h, cutoff);
    case ColdStart(_) =>
    case Tick(burns, _, _, enqueued, _) =>
      TickKeepsInv(w, e);
      EnqueueAllAdds(w.outbox, burns[..enqueued]);
    case Restart =>
  }

  lemma {:induction false} RunKeepsInv(ws: seq<Watcher>, i: nat)
    requires Run(ws) && i < |ws|
    ensures Inv(ws[i])
  {
    if i > 0 {
      RunKeepsInv(ws, i - 1);
      assert Step(ws[i - 1], ws[i - 1 + 1]);
      var e :| Enabled(ws[i - 1], e) && ws[i] == Next(ws[i - 1], e);
      StepKeepsInv(ws[i - 1], e);
    }
  }

  /**
   In every run: no burn between the cold start and the stored cursor is missing from the
   outbox or still unfinished, and it has the one row that carries it.
   */
  lemma CursorNeverPassesAnUnrecordedBurn(ws: seq<Watcher>, i: nat, e: Entry)
    requires Run(ws) && i < |ws|
    requires e in ws[i].history && e.burn.Some? && ws[i].floor < e.pos <= ws[i].persisted
    ensures e.stamp <= ws[i].cutoff
    ensures e.burn.value.sourceId in ws[i].outbox && ws[i].outbox[e.burn.value.sourceId] == e.burn.value
  {
    RunKeepsInv(ws, i);
  }

  /** No row is invented, and rows and burns correspond one to one. */
  lemma EveryRowIsOneFinalBurn(ws: seq<Watcher>, i: nat, id: string)
    requires Run(ws) && i < |ws| && id in ws[i].outbox
    ensures exists e :: e in ws[i].history && e.stamp <= ws[i].cutoff && e.burn == Some(ws[i].outbox[id])
                        && forall g :: g in ws[i].history && g.burn.Some? && g.burn.value.sourceId == id ==> g == e
  {
    RunKeepsInv(ws, i);
    var e :| e in ws[i].history && e.stamp <= ws[i].cutoff && e.burn == Some(ws[i].outbox[id]);
    forall g | g in ws[i].history && g.burn.Some? && g.burn.value.sourceId == id ensures g == e {
      SameIdSameBurn(ws[i].history, g, e);
    }
  }

  /** The stored cursor and the outbox only grow, and once the cursor is stored there is no second cold start. */
  ghost predicate GrewInto(w: Watcher, w': Watcher) {
    && 0 <= w.persisted <= w'.persisted
    && (w.persisted != 0 ==> w'.floor == w.floor)
    && (forall id :: id in w.outbox ==> id in w'.outbox && w'.outbox[id] == w.outbox[id])
  }

  lemma GrewIntoTransitive(a: Watcher, b: Watcher, c: Watcher)
    requires GrewInto(a, b) && GrewInto(b, c)
    ensures GrewInto(a, c)
  {
  }

  lemma StepGrows(w: Watcher, w': Watcher)
    requires Inv(w) && Step(w, w')
    ensures GrewInto(w, w')
  {
    var e :| Enabled(w, e) && w' == Next(w, e);
    StepKeepsInv(w, e);
  }

  lemma RunStepGrows(ws: seq<Watcher>, j: nat)
    requires Run(ws) && j + 1 < |ws|
    ensures GrewInto(ws[j], ws[j + 1])
  {
    RunKeepsInv(ws, j);
    StepGrows(ws[j], ws[j + 1]);
  }

  lemma {:induction false} CursorAndOutboxOnlyGrow(ws: seq<Watcher>, i: nat, j: nat)
    requires Run(ws) && i < j < |ws|
    ensures GrewInto(ws[i], ws[j])
    decreases j
  {
    RunStepGrows(ws, j - 1);
    if i < j - 1 {
      CursorAndOutboxOnlyGrow(ws, i, j - 1);
      GrewIntoTransitive(ws[i], ws[j - 1], ws[j]);
    }
  }

  // ---------- the cursor moves on ----------

  /**
   A tick that drains and gets through its burns commits: both cursors come to the newest entry that is
   final, or stay if there is none above, and every final burn above the old cursor has a row.
   */
  lemma CompletedTickCommits(ws: seq<Watcher>, i: nat, burns: seq<Burn>, newest: int, stored: bool)
    requires Run(ws) && i < |ws| && Enabled(ws[i], Tick(burns, newest, true, |burns|, stored))
    ensures var w, w' := ws[i], Next(ws[i], Tick(burns, newest, true, |burns|, stored));
            && w'.persisted == (if stored then w'.memory else w.persisted)
            && (forall e :: e in w.history && e.stamp <= w.cutoff ==> e.pos <= w'.memory)
            && (w'.memory == w.memory || exists e :: e in w.history && e.stamp <= w.cutoff && e.pos == w'.memory)
            && (forall e :: e in w.history && e.pos > w.memory && e.stamp <= w.cutoff ==> Recorded(w', e))
            && (w'.history, w'.cutoff, w'.floor) == (w.history, w.cutoff, w.floor)
  {
    var w, w' := ws[i], Next(ws[i], Tick(burns, newest, true, |burns|, stored));
    var h := w.history;
    RunKeepsInv(ws, i);
    NewestFinalBounds(h, |h|, w.memory, w.cutoff);
    assert burns[..|burns|] == burns;
    TickRecords(w, burns, newest, true, |burns|);
    FinalBurnsAreTheFinalBurns(h, |h|, w.memory, w.cutoff);
    forall e | e in h && e.stamp <= w.cutoff ensures e.pos <= w'.memory && (e.pos > w.memory ==> Recorded(w', e)) {
      var j :| 0 <= j < |h| && h[j] == e;
      if e.burn.Some? && e.pos > w.memory {
        assert Carries(h[j], w.memory, w.cutoff, e.burn.value);
      }
    }
  }

  /** One that does not drain, or is cut short, moves neither; a cold start begins below the tip, a restart at the stored cursor. */
  lemma OtherStepsSetTheCursor(w: Watcher, e: Event)
    requires Inv(w) && Enabled(w, e)
    ensures var w' := Next(w, e);
            && (e.Tick? && !(e.drained && e.enqueued == |e.burns|) ==> (w'.memory, w'.persisted) == (w.memory, w.persisted))
            && (e.ColdStart? ==> w'.memory == (if w.history == [] || w.history[0].pos <= 0 then 0 else w.history[0].pos - 1)
                                 && w'.persisted == (if e.stored then w'.memory else w.persisted))
            && (e.Restart? ==> w'.memory == w.persisted == w'.persisted)
            && (e.Grow? ==> w' == w.(history := e.history, cutoff := e.cutoff))
  {
  }
}
