/** The reconciler: the backing check, its failure counter, and the automatic clearing of the stalled pause. */
module Recon {
  import opened Wrappers
  import opened Decimal
  import opened Fees
  import opened Policy
  import opened Outbox
  import opened Sums
  import D = Dispatcher
  import Backing
  import Turnover

  const STALLED: string := "recon cannot verify backing"

  function IntText(n: int): string {
    if n < 0 then "-" + Dec(0 - n) else Dec(n)
  }

  predicate StartsWith(s: string, prefix: string) {
    |prefix| <= |s| && s[..|prefix|] == prefix
  }

  /** The pause latch shared through the store. */
  class PauseStore {
    var paused: bool
    var reason: string

    constructor ()
      ensures !paused && reason == ""
    {
      paused, reason := false, "";
    }

    method Pause(why: string)
      modifies this
      ensures paused && reason == why
    {
      paused, reason := true, why;
    }

    method Unpause()
      modifies this
      ensures !paused && reason == ""
    {
      paused, reason := false, "";
    }
  }

  // ---------- the check ----------

  /** What one check reads; a value that could not be read is absent. `minFee` is absent when no peg-in is minted. */
  datatype Reads = Reads(locked: Option<int>, supplies: seq<Option<int>>, unswept: Option<int>, minFee: Option<int>)

  predicate Readable(r: Reads) {
    r.locked.Some? && r.unswept.Some? && forall s :: s in r.supplies ==> s.Some?
  }

  function Circulating(supplies: seq<Option<int>>, n: nat): int
    requires n <= |supplies|
  {
    if n == 0 then 0
    else Circulating(supplies, n - 1) + if supplies[n - 1].Some? then supplies[n - 1].value else 0
  }

  /** The gateway holds what circulates and what is still to be swept, and no recorded fee is impossible. */
  predicate Backed(r: Reads, tolerance: int, sanityFloor: Option<int>)
    requires Readable(r)
  {
    && (sanityFloor.Some? && r.minFee.Some? ==> r.minFee.value >= sanityFloor.value)
    && r.unswept.value >= 0
    && r.locked.value + tolerance >= Circulating(r.supplies, |r.supplies|) + r.unswept.value
  }

  class Recon {
    const tolerance: int
    const maxFailures: int
    const sanityFloor: Option<int>
    const store: PauseStore
    var consecutiveFailures: nat

    constructor (tolerance: int, maxFailures: int, sanityFloor: Option<int>, store: PauseStore)
      ensures consecutiveFailures == 0 && this.store == store
      ensures this.tolerance == tolerance && this.maxFailures == maxFailures && this.sanityFloor == sanityFloor
    {
      this.tolerance, this.maxFailures, this.sanityFloor, this.store := tolerance, maxFailures, sanityFloor, store;
      consecutiveFailures := 0;
    }

    /**
     Indeterminate unless everything was read; then it pauses exactly when some recorded fee is under
     the sanity floor, the unswept fees are negative, or the balance is short of circulation and
     unswept fees by more than the tolerance.
     */
    method Check(r: Reads) returns (ok: Option<bool>)
      modifies store
      ensures ok.None? <==> r.locked.None? || r.unswept.None? || None in r.supplies
      ensures ok == Some(false) <==>
              && Readable(r)
              && (|| (r.minFee.Some? && sanityFloor.Some? && r.minFee.value < sanityFloor.value)
                  || r.unswept.value < 0
                  || Circulating(r.supplies, |r.supplies|) + r.unswept.value - r.locked.value > tolerance)
      ensures ok.Some? ==> (ok.value <==> Backed(r, tolerance, sanityFloor))
      ensures ok == Some(false) ==> store.paused && !StartsWith(store.reason, STALLED)
      ensures ok != Some(false) ==> store.paused == old(store.paused) && store.reason == old(store.reason)
    {
      if r.locked.None? || r.unswept.None? {
        return None;
      }
      var circulating, failed := 0, false;
      for i := 0 to |r.supplies|
        invariant failed <==> exists j :: 0 <= j < i && r.supplies[j].None?
        invariant circulating == Circulating(r.supplies, i)
      {
        if r.supplies[i].None? {
          failed := true;
        } else {
          circulating := circulating + r.supplies[i].value;
        }
      }
      if failed {
        ghost var j :| 0 <= j < |r.supplies| && r.supplies[j].None?;
        assert r.supplies[j] in r.supplies;
        return None;
      }
      OtherReasonsAreNotStalled("pinned PEG_IN fee ");
      OtherReasonsAreNotStalled("over-swept fees ");
      OtherReasonsAreNotStalled("under-backing ");
      var unswept := r.unswept.value;
      if sanityFloor.Some? && r.minFee.Some? && r.minFee.value < sanityFloor.value {
        store.Pause("pinned PEG_IN fee " + (IntText(r.minFee.value) + " mVIZ below sanity floor"));
        return Some(false);
      }
      if unswept < 0 {
        store.Pause("over-swept fees " + (IntText(unswept) + " mVIZ"));
        return Some(false);
      }
      var drift := r.locked.value - (circulating + unswept);
      if !(drift >= 0 - tolerance) {
        store.Pause("under-backing " + (IntText(drift) + " mVIZ"));
        return Some(false);
      }
      return Some(true);
    }

    method OnCheckResult(result: Option<bool>)
      modifies this, store
      ensures consecutiveFailures == CounterAfter(old(consecutiveFailures), result)
      ensures var stalled := result.None? && consecutiveFailures >= maxFailures;
              && (stalled ==> store.paused && StartsWith(store.reason, STALLED))
              && (!stalled ==> store.paused == old(store.paused) && store.reason == old(store.reason))
    {
      if result.None? {
        consecutiveFailures := consecutiveFailures + 1;
        if consecutiveFailures >= maxFailures {
          store.Pause(STALLED + " (" + IntText(consecutiveFailures) + " consecutive failures)");
        }
      } else {
        consecutiveFailures := 0;
      }
    }
  }

  lemma OtherReasonsAreNotStalled(start: string)
    requires start != "" && start[0] != STALLED[0]
    ensures forall rest :: !StartsWith(start + rest, STALLED)
  {
    forall rest ensures !StartsWith(start + rest, STALLED) {
      assert (start + rest)[0] == start[0];
    }
  }

  function CounterAfter(counter: nat, result: Option<bool>): nat {
    if result.None? then counter + 1 else 0
  }

  /** The counter after the first `n` results. */
  function CounterOver(results: seq<Option<bool>>, n: nat): nat
    requires n <= |results|
  {
    if n == 0 then 0 else CounterAfter(CounterOver(results, n - 1), results[n - 1])
  }

  /** It is the length of the trailing run of indeterminate checks. */
  lemma {:induction false} CounterIsTrailingRun(results: seq<Option<bool>>, n: nat, k: nat)
    requires n <= |results|
    ensures CounterOver(results, n) == k <==>
              k <= n && (forall i :: n - k <= i < n ==> results[i].None?) && (k < n ==> results[n - k - 1].Some?)
  {
    if n > 0 {
      CounterIsTrailingRun(results, n - 1, if k > 0 then k - 1 else 0);
    }
  }

  /** Circulation is the total of the supplies. */
  lemma {:induction false} CirculatingIsTotal(a: seq<Option<int>>, b: seq<Option<int>>, x: int)
    ensures Circulating([], 0) == 0 && Circulating([Some(x)], 1) == x
    ensures Circulating(a + b, |a| + |b|) == Circulating(a, |a|) + Circulating(b, |b|)
  {
    assert Circulating([Some(x)], 0) == 0;
    CirculatingJoins(a, b, |b|);
  }

  lemma {:induction false} CirculatingJoins(a: seq<Option<int>>, b: seq<Option<int>>, n: nat)
    requires n <= |b|
    ensures Circulating(a + b, |a| + n) == Circulating(a, |a|) + Circulating(b, n)
  {
    if n == 0 {
      CirculatingIsLocal(a, a + b, |a|);
    } else {
      CirculatingJoins(a, b, n - 1);
    }
  }

  lemma {:induction false} CirculatingIsLocal(a: seq<Option<int>>, b: seq<Option<int>>, n: nat)
    requires n <= |a| && n <= |b| && a[..n] == b[..n]
    ensures Circulating(a, n) == Circulating(b, n)
  {
    if n > 0 {
      assert a[..n][n - 1] == b[..n][n - 1];
      assert a[..n - 1] == a[..n][..n - 1] && b[..n - 1] == b[..n][..n - 1];
      CirculatingIsLocal(a, b, n - 1);
    }
  }

  // ---------- a shortfall trips the check, an honest gateway does not ----------

  /** The smallest fee of a peg-in minted on this chain, but for those in delivery with no fee pinned yet. */
  ghost predicate IsMinFee(rows: Rows, ch: Chain, minFee: Option<int>) {
    && (minFee.Some? ==> exists id :: IsMintedAt(rows, ch, id, minFee.value))
    && (forall id, fee :: IsMintedAt(rows, ch, id, fee) ==> minFee.Some? && minFee.value <= fee)
  }

  predicate IsMintedAt(rows: Rows, ch: Chain, id: string, fee: int) {
    && Backing.RowOn(rows, id, PegIn, ch) && rows[id].fee == fee
    && (rows[id].status == CONFIRMED || (rows[id].status == BROADCAST && fee != 0))
  }

  /** The smallest fee is taken over the fees that are to be swept, and the zero fees that were confirmed. */
  lemma MinFeeSeesWhatIsToBeSwept(rows: Rows, ch: Chain, id: string, fee: int)
    ensures fee != 0 ==> (IsMintedAt(rows, ch, id, fee) <==> Backing.MintedFee(rows, ch)(id) == fee)
    ensures IsMintedAt(rows, ch, id, 0)
            <==> id in rows && rows[id].kind == PegIn && rows[id].remoteChain == Some(ch) && rows[id].status == CONFIRMED && rows[id].fee == 0
  {
  }

  /** One check of one chain, everything read at one moment. */
  ghost predicate ReadAt(w: Backing.World, ch: Chain, r: Reads) {
    && r.locked == Some(Backing.BookOn(w.books, ch).locked)
    && r.supplies == [Some(Backing.BookOn(w.books, ch).circulating)]
    && r.unswept == Some(Backing.Unswept(w.sys.rows, ch))
    && IsMinFee(w.sys.rows, ch, r.minFee)
  }

  /**
   Read at one moment, whatever has happened before, a check comes out OK exactly when the gateway's
   account falls short of what circulates and is still to be swept by no more than the tolerance, the
   fees are not over-swept, and no fee of a minted peg-in is under the sanity floor.
   */
  lemma BackedIffCovered(w: Backing.World, ch: Chain, r: Reads, tolerance: int, sanityFloor: Option<int>)
    requires ReadAt(w, ch, r)
    ensures Readable(r)
    ensures var book, unswept := Backing.BookOn(w.books, ch), Backing.Unswept(w.sys.rows, ch);
            !Backed(r, tolerance, sanityFloor)
            <==> || book.circulating + unswept - book.locked > tolerance
                 || unswept < 0
                 || (sanityFloor.Some? && exists id, fee :: IsMintedAt(w.sys.rows, ch, id, fee) && fee < sanityFloor.value)
  {
    CirculatingIsTotal([], [], Backing.BookOn(w.books, ch).circulating);
  }

  /**
   What a failing check means, in any history of a gateway whose pins keep up, with a tolerance for
   the sweeps in flight: some deposit has been paid out for more than it was.
   */
  lemma FailedCheckMeansOverpaid(t: Backing.Terms, ws: seq<Backing.World>, i: nat, ch: Chain, r: Reads,
                                 tolerance: int, sanityFloor: Option<int>) returns (d: string)
    requires Backing.History(t, ws) && i < |ws| && ReadAt(ws[i], ch, r) && Backing.PinsKeepUp(Backing.PolicyOn(t, ch))
    requires tolerance >= Sum(ws[i].sys.rows.Keys, Backing.InFlight(ws[i], ch))
    requires sanityFloor.Some? ==> sanityFloor.value <= Backing.PolicyOn(t, ch).floor
    requires !(Readable(r) && Backed(r, tolerance, sanityFloor))
    ensures d in ws[i].chains.deposits && Backing.On(ws[i].chains, d) == ch && Backing.DepositLeft(t, ws[i].chains, d) < 0
  {
    var c := ws[i].chains;
    var over := Backing.Overpaid(t, c, ch);
    Backing.HistoryKeepsBacking(t, ws, i);
    Backing.NeverOverSwept(t, ws, i, ch);
    Backing.BackedButForOverpayment(t, ws, i, ch);
    BackedIffCovered(ws[i], ch, r, tolerance, sanityFloor);
    forall id, fee | IsMintedAt(ws[i].sys.rows, ch, id, fee) ensures fee >= Backing.PolicyOn(t, ch).floor {
      MintedFeesAreSane(t, ws[i], ch, id, fee);
    }
    if forall x :: x in c.deposits.Keys ==> over(x) == 0 {
      SumOnlyOver(c.deposits.Keys, {}, over);
      assert false;
    }
    d :| d in c.deposits.Keys && over(d) != 0;
  }

  /**
   Over every honest history whose mints land in time, a check of one chain comes out OK even
   though it reads the gateway's balance, the supply and the books at three moments between two
   states, and the fees at any: the tolerance has to cover the sweeps in flight and the skew, which
   is at most what was deposited, burnt and landed on that chain in between; and the sanity floor
   must not exceed the fee floor.
   */
  lemma HonestHistoryIsBacked(t: Backing.Terms, ws: seq<Backing.World>, ch: Chain, lo: nat, i: nat, j: nat, k: nat, hi: nat,
                              m: nat, r: Reads, tolerance: int, sanityFloor: Option<int>)
    requires Backing.History(t, ws) && lo <= i <= hi && lo <= j <= hi && lo <= k <= hi && hi < |ws| && m < |ws|
    requires Backing.PinsKeepUp(Backing.PolicyOn(t, ch)) && Backing.MintsInTime(ws[k])
    requires r.locked == Some(Backing.BookOn(ws[i].books, ch).locked)
    requires r.supplies == [Some(Backing.BookOn(ws[j].books, ch).circulating)]
    requires r.unswept == Some(Backing.Unswept(ws[k].sys.rows, ch)) && IsMinFee(ws[m].sys.rows, ch, r.minFee)
    requires tolerance >= Sum(ws[k].sys.rows.Keys, Backing.InFlight(ws[k], ch)) + Turnover.Skew(ws[lo], ws[hi], ch)
    requires sanityFloor.Some? ==> sanityFloor.value <= Backing.PolicyOn(t, ch).floor
    ensures Readable(r) && Backed(r, tolerance, sanityFloor)
  {
    Backing.NeverOverSwept(t, ws, k, ch);
    Backing.BackedButForSweepsInFlight(t, ws, k, ch);
    Turnover.ReadsAreWithinSkew(t, ws, lo, i, j, k, hi, ch);
    assert Circulating(r.supplies, 1) == Circulating(r.supplies, 0) + Backing.BookOn(ws[j].books, ch).circulating;
    if r.minFee.Some? {
      Backing.HistoryKeepsBacking(t, ws, m);
      PinnedFeesAreSane(t, ws[m], ch, r.minFee.value);
    }
  }

  lemma PinnedFeesAreSane(t: Backing.Terms, w: Backing.World, ch: Chain, fee: int)
    requires Backing.Fits(t, w) && IsMinFee(w.sys.rows, ch, Some(fee))
    ensures fee >= Backing.PolicyOn(t, ch).floor
  {
    var id :| IsMintedAt(w.sys.rows, ch, id, fee);
    MintedFeesAreSane(t, w, ch, id, fee);
  }

  lemma MintedFeesAreSane(t: Backing.Terms, w: Backing.World, ch: Chain, id: string, fee: int)
    requires Backing.Fits(t, w) && IsMintedAt(w.sys.rows, ch, id, fee)
    ensures fee >= Backing.PolicyOn(t, ch).floor
  {
    assert D.RowOk(w.sys.rows, w.sys.sent, id) && Backing.RowFits(t, w.chains, w.sys.rows[id]);
  }

  // ---------- automatic unpause ----------

  /** `clearing`: the tick has read a stalled pause and is about to write the unpause. */
  datatype Latch = Latch(paused: bool, reason: string, streak: nat, clearing: bool)

  datatype Event = Pause(reason: string) | Unpause | Tick(allOk: bool) | Clear

  predicate Stalled(reason: string) {
    StartsWith(reason, STALLED)
  }

  /** A reason is of the stalled class when it begins with these words, whatever follows. */
  lemma StalledBeginsSo(reason: string)
    ensures Stalled(reason) <==> exists rest :: reason == "recon cannot verify backing" + rest
  {
    if Stalled(reason) {
      assert reason == "recon cannot verify backing" + reason[|STALLED|..];
    }
    if exists rest :: reason == "recon cannot verify backing" + rest {
      var rest :| reason == "recon cannot verify backing" + rest;
      assert reason[..|STALLED|] == STALLED;
    }
  }

  predicate Enabled(s: Latch, e: Event) {
    (e.Tick? ==> !s.clearing) && (e.Clear? ==> s.clearing)
  }

  function Next(required: int, s: Latch, e: Event): Latch {
    match e
    case Pause(reason) => s.(paused := true, reason := reason)
    case Unpause => s.(paused := false, reason := "")
    case Tick(allOk) =>
      if !allOk then s.(streak := 0)
      else s.(streak := s.streak + 1,
              clearing := required > 0 && s.streak + 1 >= required && s.paused && Stalled(s.reason))
    case Clear => s.(paused := false, reason := "", clearing := false)
  }

  class AutoUnpause {
    const required: int
    const store: PauseStore
    var okStreak: nat

    constructor (store: PauseStore, required: int)
      ensures okStreak == 0 && this.store == store && this.required == required
    {
      this.store, this.required, okStreak := store, required, 0;
    }

    function State(): Latch
      reads this, store
    {
      Latch(store.paused, store.reason, okStreak, false)
    }

    /** One tick, and the clearing it decides on, when nothing else writes the latch meanwhile. */
    method OnTick(allOk: bool) returns (unpaused: bool)
      modifies this, store
      ensures var s := Next(required, old(State()), Tick(allOk));
              && unpaused == s.clearing
              && State() == if s.clearing then Next(required, s, Clear) else s
    {
      if !allOk {
        okStreak := 0;
        return false;
      }
      okStreak := okStreak + 1;
      if required <= 0 || okStreak < required {
        return false;
      }
      if !store.paused {
        return false;
      }
      if !StartsWith(store.reason, STALLED) {
        return false;
      }
      store.Unpause();
      unpaused := true;
    }
  }

  // ---------- over whole runs ----------

  function After(required: int, log: seq<Event>, n: nat): Latch
    requires n <= |log|
  {
    if n == 0 then Latch(false, "", 0, false) else Next(required, After(required, log, n - 1), log[n - 1])
  }

  /** Any interleaving of ticks, clearings, and pauses and unpauses by others. */
  predicate Possible(required: int, log: seq<Event>) {
    forall i :: 0 <= i < |log| ==> Enabled(After(required, log, i), log[i])
  }

  function Ticks(log: seq<Event>, from: nat, n: nat): nat
    requires from <= n <= |log|
    decreases n
  {
    if from == n then 0 else Ticks(log, from, n - 1) + if log[n - 1].Tick? then 1 else 0
  }

  /** The streak counts the ticks since the last that was not all OK. */
  lemma {:induction false} StreakIsTrailingRun(required: int, log: seq<Event>, n: nat) returns (from: nat)
    requires n <= |log|
    ensures from <= n && After(required, log, n).streak == Ticks(log, from, n)
    ensures forall i :: from <= i < n ==> log[i] != Tick(false)
    ensures from > 0 ==> log[from - 1] == Tick(false)
  {
    if n == 0 {
      from := 0;
    } else if log[n - 1] == Tick(false) {
      from := n;
    } else {
      from := StreakIsTrailingRun(required, log, n - 1);
    }
  }

  /** While paused, the reason is that of the last pause, and only ticks have come since. */
  lemma {:induction false} LatchIsLastPause(required: int, log: seq<Event>, n: nat) returns (p: nat)
    requires n <= |log| && After(required, log, n).paused
    ensures p < n && log[p] == Pause(After(required, log, n).reason)
    ensures forall i :: p < i < n ==> log[i].Tick?
  {
    if log[n - 1].Pause? {
      p := n - 1;
    } else {
      p := LatchIsLastPause(required, log, n - 1);
    }
  }

  /**
   A tick decides to clear only after the required number of consecutive all-OK ticks, and only
   when the most recent pause written was of the stalled class.
   */
  lemma ClearsOnlyStalledAfterOkRun(required: int, log: seq<Event>, t: nat) returns (from: nat, p: nat)
    requires t < |log| && Possible(required, log)
    requires log[t].Tick? && After(required, log, t + 1).clearing
    ensures from <= t && 0 < required <= Ticks(log, from, t + 1)
    ensures forall i :: from <= i <= t ==> log[i] != Tick(false)
    ensures p < t && log[p].Pause? && Stalled(log[p].reason)
    ensures forall i :: p < i < t ==> log[i].Tick?
  {
    assert Enabled(After(required, log, t), log[t]);
    from := StreakIsTrailingRun(required, log, t + 1);
    p := LatchIsLastPause(required, log, t);
  }

  /** And then it does: exactly when this tick is all OK, the run is long enough, and the latch holds a stalled pause. */
  lemma ClearsIff(required: int, log: seq<Event>, t: nat) returns (from: nat)
    requires t < |log| && log[t].Tick? && Possible(required, log)
    ensures from <= t + 1 && (forall i :: from <= i <= t ==> log[i] != Tick(false)) && (from > 0 ==> log[from - 1] == Tick(false))
    ensures After(required, log, t + 1).clearing
            <==> && log[t].allOk && 0 < required <= Ticks(log, from, t + 1)
                 && After(required, log, t).paused && StartsWith(After(required, log, t).reason, "recon cannot verify backing")
    ensures (After(required, log, t + 1).paused, After(required, log, t + 1).reason)
            == (After(required, log, t).paused, After(required, log, t).reason)
  {
    assert Enabled(After(required, log, t), log[t]);
    from := StreakIsTrailingRun(required, log, t + 1);
    if log[t].allOk {
      StreakGrows(required, log, t);
    }
  }

  lemma StreakGrows(required: int, log: seq<Event>, t: nat)
    requires t < |log| && log[t] == Tick(true)
    ensures After(required, log, t + 1).streak == After(required, log, t).streak + 1
  {
  }

  /** The latch follows its writers: the last pause, unless lifted or cleared since. */
  lemma LatchFollowsWriters(required: int, log: seq<Event>, t: nat)
    requires t < |log|
    ensures var s, s' := After(required, log, t), After(required, log, t + 1);
            match log[t]
            case Pause(reason) => s'.paused && s'.reason == reason && s'.streak == s.streak && s'.clearing == s.clearing
            case Unpause => !s'.paused && s'.streak == s.streak && s'.clearing == s.clearing
            case Tick(_) => s'.paused == s.paused && s'.reason == s.reason
            case Clear => !s'.paused && s'.streak == s.streak && !s'.clearing
  {
  }

  lemma OtherPauseOutlives(required: int, s: Latch, e: Event)
    requires s.paused && !Stalled(s.reason) && !s.clearing && Enabled(s, e)
    requires !e.Unpause? && (e.Pause? ==> !Stalled(e.reason))
    ensures var s' := Next(required, s, e); s'.paused && !Stalled(s'.reason) && !s'.clearing
  {
  }

  /**
   Any other pause stays latched until an operator lifts it or a stalled pause overwrites its
   reason, unless it was written between a tick's decision to clear and the clearing.
   */
  lemma {:induction false} OtherPausesStayLatched(required: int, log: seq<Event>, p: nat, n: nat)
    requires p < n <= |log| && Possible(required, log)
    requires log[p].Pause? && !Stalled(log[p].reason) && !After(required, log, p).clearing
    requires forall i :: p < i < n ==> !log[i].Unpause? && (log[i].Pause? ==> !Stalled(log[i].reason))
    ensures var s := After(required, log, n); s.paused && !Stalled(s.reason) && !s.clearing
    decreases n
  {
    if n > p + 1 {
      OtherPausesStayLatched(required, log, p, n - 1);
      OtherPauseOutlives(required, After(required, log, n - 1), log[n - 1]);
    }
  }

  function OkTicks(n: nat): seq<Event> {
    seq(n, _ => Tick(true))
  }

  /** Another pause, a stalled one over it, the OK ticks, and the clearing they bring. */
  function Overwritten(other: string, stalled: string, required: nat): seq<Event> {
    [Pause(other), Pause(stalled)] + OkTicks(required) + [Clear]
  }

  /** A stalled pause, the OK ticks, and another pause written before the clearing they bring. */
  function Late(other: string, stalled: string, required: nat): seq<Event> {
    [Pause(stalled)] + OkTicks(required) + [Pause(other), Clear]
  }

  /** From a stalled pause with no streak, OK ticks count up, and the last one needed decides to clear. */
  lemma {:induction false} OkTicksCount(required: nat, log: seq<Event>, p: nat, n: nat, stalled: string)
    requires n <= required && 0 < required && p + required <= |log| && Stalled(stalled)
    requires After(required, log, p) == Latch(true, stalled, 0, false)
    requires forall i :: p <= i < p + required ==> log[i] == Tick(true)
    ensures After(required, log, p + n) == Latch(true, stalled, n, n == required)
    ensures forall i :: p <= i < p + n ==> Enabled(After(required, log, i), log[i])
  {
    if n > 0 {
      OkTicksCount(required, log, p, n - 1, stalled);
      assert log[p + n - 1] == Tick(true);
      assert p + n - 1 + 1 == p + n;
    }
  }

  lemma StepOf(required: int, log: seq<Event>, i: nat)
    requires i < |log|
    ensures After(required, log, i + 1) == Next(required, After(required, log, i), log[i])
  {
  }

  lemma OverwrittenIsCleared(required: nat, other: string, stalled: string)
    requires 0 < required && Stalled(stalled)
    ensures var log := Overwritten(other, stalled, required);
            Possible(required, log) && !After(required, log, |log|).paused
  {
    var log := Overwritten(other, stalled, required);
    assert log[0] == Pause(other) && log[1] == Pause(stalled) && log[required + 2] == Clear && |log| == required + 3;
    StepOf(required, log, 0);
    StepOf(required, log, 1);
    OkTicksCount(required, log, 2, required, stalled);
    StepOf(required, log, required + 2);
  }

  lemma LateIsCleared(required: nat, other: string, stalled: string)
    requires 0 < required && Stalled(stalled)
    ensures var log := Late(other, stalled, required);
            Possible(required, log) && !After(required, log, |log|).paused
  {
    var log := Late(other, stalled, required);
    assert log[0] == Pause(stalled) && log[required + 1] == Pause(other) && log[required + 2] == Clear && |log| == required + 3;
    StepOf(required, log, 0);
    OkTicksCount(required, log, 1, required, stalled);
    StepOf(required, log, required + 1);
    StepOf(required, log, required + 2);
  }

  /**
   Both exceptions happen however many ticks are required: a stalled pause that overwrites another
   reason lets it be cleared, and so does a write between the last tick's decision and the clearing.
   */
  lemma OverwrittenOrLatePausesAreCleared(required: nat, other: string, stalled: string)
    requires 0 < required && Stalled(stalled) && !Stalled(other)
    ensures var log := [Pause(other), Pause(stalled)] + OkTicks(required) + [Clear];
            Possible(required, log) && !After(required, log, |log|).paused
    ensures var log := [Pause(stalled)] + OkTicks(required) + [Pause(other), Clear];
            Possible(required, log) && !After(required, log, |log|).paused
  {
    OverwrittenIsCleared(required, other, stalled);
    LateIsCleared(required, other, stalled);
  }
}
