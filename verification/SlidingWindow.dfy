/**
 The rolling 24h cap and the per-sender rate limit, in both forms the store has: the SQLite
 tables, pruned inside the transaction, and the in-memory arrays, never pruned.
 */
module SlidingWindow {

  datatype Entry = Entry(ts: int, amount: int)

  /** Total amount recorded with lo <= ts <= hi, among the first `n` entries. */
  function TotalTo(es: seq<Entry>, n: nat, lo: int, hi: int): int
    requires n <= |es|
  {
    if n == 0 then 0
    else TotalTo(es, n - 1, lo, hi) + if lo <= es[n - 1].ts <= hi then es[n - 1].amount else 0
  }

  function Total(es: seq<Entry>, lo: int, hi: int): int {
    TotalTo(es, |es|, lo, hi)
  }

  function FromTo(es: seq<Entry>, n: nat, lo: int): seq<Entry>
    requires n <= |es|
  {
    if n == 0 then [] else FromTo(es, n - 1, lo) + if lo <= es[n - 1].ts then [es[n - 1]] else []
  }

  /** The rows that survive `DELETE ... WHERE ts < lo`, in order. */
  function From(es: seq<Entry>, lo: int): seq<Entry> {
    FromTo(es, |es|, lo)
  }

  lemma {:induction false} TotalOfPrefix(es: seq<Entry>, more: seq<Entry>, n: nat, lo: int, hi: int)
    requires n <= |es|
    ensures TotalTo(es + more, n, lo, hi) == TotalTo(es, n, lo, hi)
  {
    if n > 0 {
      TotalOfPrefix(es, more, n - 1, lo, hi);
    }
  }

  lemma {:induction false} FromOfPrefix(es: seq<Entry>, more: seq<Entry>, n: nat, lo: int)
    requires n <= |es|
    ensures FromTo(es + more, n, lo) == FromTo(es, n, lo)
  {
    if n > 0 {
      FromOfPrefix(es, more, n - 1, lo);
    }
  }

  /** A total counts, of each entry, its amount if it lies in the closed window. */
  lemma TotalAppend(es: seq<Entry>, e: Entry, lo: int, hi: int)
    ensures Total([], lo, hi) == 0
    ensures Total(es + [e], lo, hi) == Total(es, lo, hi) + if lo <= e.ts <= hi then e.amount else 0
  {
    TotalOfPrefix(es, [e], |es|, lo, hi);
  }

  lemma FromAppend(es: seq<Entry>, e: Entry, lo: int)
    ensures From(es + [e], lo) == From(es, lo) + if lo <= e.ts then [e] else []
  {
    FromOfPrefix(es, [e], |es|, lo);
  }

  /** Reserve on an array that keeps everything. */
  function Reserve(caps: seq<Entry>, amount: int, cap: int, since: int, now: int): (bool, seq<Entry>) {
    if Total(caps, since, now) + amount > cap then (false, caps) else (true, caps + [Entry(now, amount)])
  }

  class MemoryCaps {
    var caps: seq<Entry>

    constructor ()
      ensures caps == []
    {
      caps := [];
    }

    method Sum(since: int, now: int) returns (sum: int)
      ensures sum == Total(caps, since, now)
    {
      sum := Total(caps, since, now);
    }

    method TryReserve(amount: int, cap: int, since: int, now: int) returns (ok: bool)
      modifies this
      ensures (ok, caps) == Reserve(old(caps), amount, cap, since, now)
    {
      var sum := Sum(since, now);
      if sum + amount > cap {
        return false;
      }
      caps := caps + [Entry(now, amount)];
      ok := true;
    }
  }

  class SqliteCaps {
    var rows: seq<Entry>

    constructor ()
      ensures rows == []
    {
      rows := [];
    }

    /** `capSumMilliViz`: deletes what expired, then sums up to `now`. */
    method Sum(since: int, now: int) returns (sum: int)
      modifies this
      ensures rows == From(old(rows), since)
      ensures sum == Total(old(rows), since, now)
    {
      FromKeepsTotal(rows, since, since, now);
      AllFromTo(rows, |rows|, since);
      rows := From(rows, since);
      sum := SumUpTo(now, since);
    }

    /** `SELECT amount ... WHERE ts <= now`, added up row by row. */
    method SumUpTo(now: int, ghost oldest: int) returns (sum: int)
      requires forall e :: e in rows ==> oldest <= e.ts
      ensures sum == Total(rows, oldest, now)
    {
      sum := 0;
      for i := 0 to |rows|
        invariant sum == TotalTo(rows, i, oldest, now)
      {
        assert rows[i] in rows;
        if rows[i].ts <= now {
          sum := sum + rows[i].amount;
        }
      }
    }

    method TryReserve(amount: int, cap: int, since: int, now: int) returns (ok: bool)
      modifies this
      ensures ok == Reserve(old(rows), amount, cap, since, now).0
      ensures rows == From(old(rows), since) + (if ok then [Entry(now, amount)] else [])
    {
      var sum := Sum(since, now);
      if sum + amount > cap {
        return false;
      }
      rows := rows + [Entry(now, amount)];
      ok := true;
    }
  }

  // ---------- pruning does not change a later window ----------

  lemma {:induction false} FromKeepsTotalTo(es: seq<Entry>, n: nat, cut: int, lo: int, hi: int)
    requires n <= |es| && cut <= lo
    ensures Total(FromTo(es, n, cut), lo, hi) == TotalTo(es, n, lo, hi)
  {
    if n > 0 {
      var older := FromTo(es, n - 1, cut);
      FromKeepsTotalTo(es, n - 1, cut, lo, hi);
      TotalAppend(older, es[n - 1], lo, hi);
      assert older + [] == older;
    }
  }

  lemma FromKeepsTotal(es: seq<Entry>, cut: int, lo: int, hi: int)
    requires cut <= lo
    ensures Total(From(es, cut), lo, hi) == Total(es, lo, hi)
  {
    FromKeepsTotalTo(es, |es|, cut, lo, hi);
  }

  lemma {:induction false} FromTwiceTo(es: seq<Entry>, n: nat, a: int, b: int)
    requires n <= |es| && a <= b
    ensures From(FromTo(es, n, a), b) == FromTo(es, n, b)
  {
    if n > 0 {
      var older := FromTo(es, n - 1, a);
      FromTwiceTo(es, n - 1, a, b);
      FromAppend(older, es[n - 1], b);
      assert older + [] == older;
    }
  }

  lemma FromTwice(es: seq<Entry>, a: int, b: int)
    requires a <= b
    ensures From(From(es, a), b) == From(es, b)
  {
    FromTwiceTo(es, |es|, a, b);
  }

  lemma {:induction false} AllFromTo(es: seq<Entry>, n: nat, lo: int)
    requires n <= |es|
    ensures forall e :: e in FromTo(es, n, lo) ==> lo <= e.ts
  {
    if n > 0 {
      AllFromTo(es, n - 1, lo);
    }
  }

  // ---------- runs ----------

  datatype Call = TryReserve(amount: nat, now: int) | Sum(now: int)

  datatype Answer = Granted(ok: bool) | Summed(sum: int)

  /** The two stores side by side: answers so far and what each holds. */
  datatype Trace = Trace(answers: seq<Answer>, held: seq<Entry>)

  /** One call on a store that keeps everything; the circuit breaker passes `since = now - window`. */
  function MemoryStep(window: nat, cap: int, t: Trace, c: Call): Trace {
    match c
    case Sum(now) => Trace(t.answers + [Summed(Total(t.held, now - window, now))], t.held)
    case TryReserve(amount, now) =>
      var (ok, held) := Reserve(t.held, amount, cap, now - window, now);
      Trace(t.answers + [Granted(ok)], held)
  }

  /** One call on a store that prunes before it answers. */
  function SqliteStep(window: nat, cap: int, t: Trace, c: Call): Trace {
    match c
    case Sum(now) =>
      Trace(t.answers + [Summed(Total(t.held, now - window, now))], From(t.held, now - window))
    case TryReserve(amount, now) =>
      var ok := Reserve(t.held, amount, cap, now - window, now).0;
      Trace(t.answers + [Granted(ok)], From(t.held, now - window) + if ok then [Entry(now, amount)] else [])
  }

  /** The first `n` calls in order. */
  function MemoryRun(window: nat, cap: int, calls: seq<Call>, n: nat): (t: Trace)
    requires n <= |calls|
    ensures |t.answers| == n
  {
    if n == 0 then Trace([], []) else MemoryStep(window, cap, MemoryRun(window, cap, calls, n - 1), calls[n - 1])
  }

  function SqliteRun(window: nat, cap: int, calls: seq<Call>, n: nat): (t: Trace)
    requires n <= |calls|
    ensures |t.answers| == n
  {
    if n == 0 then Trace([], []) else SqliteStep(window, cap, SqliteRun(window, cap, calls, n - 1), calls[n - 1])
  }

  predicate ClockNeverGoesBack(calls: seq<Call>) {
    forall i, j :: 0 <= i < j < |calls| ==> calls[i].now <= calls[j].now
  }

  /** The pruned table is the live part of the log, and has given the same answers. */
  ghost predicate InStep(s: Trace, m: Trace, cut: int) {
    s.answers == m.answers && s.held == From(m.held, cut)
  }

  lemma SumsAgree(window: nat, cap: int, m: Trace, s: Trace, cut: int, now: int)
    requires InStep(s, m, cut) && cut <= now - window
    ensures InStep(SqliteStep(window, cap, s, Sum(now)), MemoryStep(window, cap, m, Sum(now)), now - window)
  {
    FromKeepsTotal(m.held, cut, now - window, now);
    FromTwice(m.held, cut, now - window);
  }

  lemma ReservesAgree(window: nat, cap: int, m: Trace, s: Trace, cut: int, amount: nat, now: int)
    requires InStep(s, m, cut) && cut <= now - window
    ensures InStep(SqliteStep(window, cap, s, TryReserve(amount, now)),
                   MemoryStep(window, cap, m, TryReserve(amount, now)), now - window)
  {
    FromKeepsTotal(m.held, cut, now - window, now);
    FromTwice(m.held, cut, now - window);
    FromAppend(m.held, Entry(now, amount), now - window);
    var live := From(m.held, now - window);
    assert live + [] == live;
  }

  /** Where the table was last cut. */
  function LastCut(window: nat, calls: seq<Call>, n: nat, next: int): int
    requires n <= |calls|
  {
    if n == 0 then next else calls[n - 1].now - window
  }

  /** The pruned table always holds the live part of the unpruned log, so every answer agrees. */
  lemma {:induction false} PrunedAgreesWithUnpruned(window: nat, cap: int, calls: seq<Call>, n: nat, next: int)
    requires ClockNeverGoesBack(calls) && n <= |calls|
    ensures InStep(SqliteRun(window, cap, calls, n), MemoryRun(window, cap, calls, n), LastCut(window, calls, n, next))
  {
    if n > 0 {
      var now := calls[n - 1].now;
      PrunedAgreesWithUnpruned(window, cap, calls, n - 1, now - window);
      var m, s := MemoryRun(window, cap, calls, n - 1), SqliteRun(window, cap, calls, n - 1);
      if calls[n - 1].Sum? {
        SumsAgree(window, cap, m, s, LastCut(window, calls, n - 1, now - window), now);
      } else {
        ReservesAgree(window, cap, m, s, LastCut(window, calls, n - 1, now - window), calls[n - 1].amount, now);
      }
    }
  }

  // ---------- the bound ----------

  predicate LogOk(held: seq<Entry>, now: int) {
    forall e :: e in held ==> e.amount >= 0 && e.ts <= now
  }

  lemma {:induction false} NarrowerTotals(es: seq<Entry>, n: nat, lo: int, hi: int, lo': int, hi': int)
    requires n <= |es| && lo <= lo' && hi' <= hi
    requires forall e :: e in es ==> e.amount >= 0
    ensures 0 <= TotalTo(es, n, lo', hi') <= TotalTo(es, n, lo, hi)
  {
    if n > 0 {
      NarrowerTotals(es, n - 1, lo, hi, lo', hi');
      assert es[n - 1] in es;
    }
  }

  lemma LogAppend(held: seq<Entry>, e: Entry, last: int, now: int)
    requires LogOk(held, last) && last <= now && e.amount >= 0 && e.ts <= now
    ensures LogOk(held + [e], now) && LogOk(held, now)
  {
  }

  lemma {:induction false} LogStaysOk(window: nat, cap: int, calls: seq<Call>, n: nat, now: int)
    requires ClockNeverGoesBack(calls) && n <= |calls| && (n > 0 ==> calls[n - 1].now <= now)
    ensures LogOk(MemoryRun(window, cap, calls, n).held, now)
  {
    if n > 0 {
      var c := calls[n - 1];
      LogStaysOk(window, cap, calls, n - 1, c.now);
      LogAppend(MemoryRun(window, cap, calls, n - 1).held, Entry(c.now, if c.TryReserve? then c.amount else 0), c.now, now);
    }
  }

  /** One call more, and the window starting at `start` is still under the cap. */
  lemma StepStaysUnderCap(window: nat, cap: nat, m: Trace, c: Call, start: int)
    requires LogOk(m.held, c.now) && Total(m.held, start, start + window) <= cap
    ensures Total(MemoryStep(window, cap, m, c).held, start, start + window) <= cap
  {
    if c.TryReserve? && Reserve(m.held, c.amount, cap, c.now - window, c.now).0 {
      TotalAppend(m.held, Entry(c.now, c.amount), start, start + window);
      if start <= c.now <= start + window {
        TotalStopsAtNow(m.held, |m.held|, start, c.now, start + window);
        NarrowerTotals(m.held, |m.held|, c.now - window, c.now, start, c.now);
      }
    }
  }

  /**
   In every run, the amounts accepted within any closed interval of window length, wherever it
   starts, total at most the cap.
   */
  lemma {:induction false} EveryWindowStaysUnderCap(window: nat, cap: nat, calls: seq<Call>, n: nat, start: int)
    requires ClockNeverGoesBack(calls) && n <= |calls|
    ensures Total(MemoryRun(window, cap, calls, n).held, start, start + window) <= cap
  {
    if n > 0 {
      EveryWindowStaysUnderCap(window, cap, calls, n - 1, start);
      LogStaysOk(window, cap, calls, n - 1, calls[n - 1].now);
      StepStaysUnderCap(window, cap, MemoryRun(window, cap, calls, n - 1), calls[n - 1], start);
    }
  }

  lemma {:induction false} TotalStopsAtNow(es: seq<Entry>, n: nat, lo: int, now: int, hi: int)
    requires n <= |es| && now <= hi && forall e :: e in es ==> e.ts <= now
    ensures TotalTo(es, n, lo, hi) == TotalTo(es, n, lo, now)
  {
    if n > 0 {
      TotalStopsAtNow(es, n - 1, lo, now, hi);
      assert es[n - 1] in es;
    }
  }

  /** The bound holds of the pruned table's answers too: they are the same answers. */
  lemma GrantedTotals(window: nat, cap: nat, calls: seq<Call>, start: int)
    requires ClockNeverGoesBack(calls)
    ensures var answers := SqliteRun(window, cap, calls, |calls|).answers;
            Total(Accepted(calls, answers, |calls|), start, start + window) <= cap
  {
    PrunedAgreesWithUnpruned(window, cap, calls, |calls|, 0);
    HeldIsAccepted(window, cap, calls, MemoryRun(window, cap, calls, |calls|).answers, |calls|);
    EveryWindowStaysUnderCap(window, cap, calls, |calls|, start);
  }

  /** What callers were told they may move, read off the answers alone. */
  function Accepted(calls: seq<Call>, answers: seq<Answer>, n: nat): seq<Entry>
    requires n <= |calls| && n <= |answers|
  {
    if n == 0 then []
    else
      var c, a := calls[n - 1], answers[n - 1];
      Accepted(calls, answers, n - 1) + if c.TryReserve? && a.Granted? && a.ok then [Entry(c.now, c.amount)] else []
  }

  lemma {:induction false} HeldIsAccepted(window: nat, cap: int, calls: seq<Call>, answers: seq<Answer>, n: nat)
    requires n <= |calls| && n <= |answers| && MemoryRun(window, cap, calls, n).answers == answers[..n]
    ensures MemoryRun(window, cap, calls, n).held == Accepted(calls, answers, n)
  {
    if n > 0 {
      var before := MemoryRun(window, cap, calls, n - 1).answers;
      assert answers[..n - 1] == answers[..n][..n - 1];
      assert answers[n - 1] == answers[..n][n - 1];
      HeldIsAccepted(window, cap, calls, answers, n - 1);
    }
  }

  /**
   Every answer of the pruned table is exact: a request is granted if and only if it fits under the cap
   together with what was granted before it in the closed window that ends now, and a sum is that total.
   */
  lemma AnswersAreExact(window: nat, cap: int, calls: seq<Call>, k: nat)
    requires ClockNeverGoesBack(calls) && k < |calls|
    ensures var answers, now := SqliteRun(window, cap, calls, |calls|).answers, calls[k].now;
            var granted := Total(Accepted(calls, answers, k), now - window, now);
            answers[k] == match calls[k]
                          case TryReserve(amount, _) => Granted(granted + amount <= cap)
                          case Sum(_) => Summed(granted)
  {
    PrunedAgreesWithUnpruned(window, cap, calls, |calls|, 0);
    var answers := MemoryRun(window, cap, calls, |calls|).answers;
    AnswersStay(window, cap, calls, k + 1, |calls|);
    AnswersStay(window, cap, calls, k, |calls|);
    HeldIsAccepted(window, cap, calls, answers, k);
    assert answers[k] == answers[..k + 1][k];
  }

  lemma {:induction false} AnswersStay(window: nat, cap: int, calls: seq<Call>, k: nat, n: nat)
    requires k <= n <= |calls|
    ensures MemoryRun(window, cap, calls, k).answers == MemoryRun(window, cap, calls, n).answers[..k]
  {
    if k < n {
      AnswersStay(window, cap, calls, k, n - 1);
    }
  }

  // ---------- the per-sender rate limit ----------

  datatype Hit = Hit(sender: string, ts: int)

  function CountTo(hits: seq<Hit>, n: nat, sender: string, after: int): nat
    requires n <= |hits|
  {
    if n == 0 then 0
    else CountTo(hits, n - 1, sender, after) + if hits[n - 1].sender == sender && hits[n - 1].ts > after then 1 else 0
  }

  function Count(hits: seq<Hit>, sender: string, after: int): nat {
    CountTo(hits, |hits|, sender, after)
  }

  function HitsFromTo(hits: seq<Hit>, n: nat, lo: int): seq<Hit>
    requires n <= |hits|
  {
    if n == 0 then [] else HitsFromTo(hits, n - 1, lo) + if lo <= hits[n - 1].ts then [hits[n - 1]] else []
  }

  function HitsFrom(hits: seq<Hit>, lo: int): seq<Hit> {
    HitsFromTo(hits, |hits|, lo)
  }

  lemma {:induction false} CountOfPrefix(hits: seq<Hit>, more: seq<Hit>, n: nat, sender: string, after: int)
    requires n <= |hits|
    ensures CountTo(hits + more, n, sender, after) == CountTo(hits, n, sender, after)
  {
    if n > 0 {
      CountOfPrefix(hits, more, n - 1, sender, after);
    }
  }

  lemma {:induction false} HitsFromOfPrefix(hits: seq<Hit>, more: seq<Hit>, n: nat, lo: int)
    requires n <= |hits|
    ensures HitsFromTo(hits + more, n, lo) == HitsFromTo(hits, n, lo)
  {
    if n > 0 {
      HitsFromOfPrefix(hits, more, n - 1, lo);
    }
  }

  lemma CountAppend(hits: seq<Hit>, h: Hit, sender: string, after: int)
    ensures Count(hits + [h], sender, after)
            == Count(hits, sender, after) + if h.sender == sender && h.ts > after then 1 else 0
  {
    CountOfPrefix(hits, [h], |hits|, sender, after);
  }

  lemma HitsFromAppend(hits: seq<Hit>, h: Hit, lo: int)
    ensures HitsFrom(hits + [h], lo) == HitsFrom(hits, lo) + if lo <= h.ts then [h] else []
  {
    HitsFromOfPrefix(hits, [h], |hits|, lo);
  }

  class MemoryRates {
    var rates: seq<Hit>

    method TryReserve(sender: string, max: nat, window: nat, now: int) returns (ok: bool)
      modifies this
      ensures ok == (Count(old(rates), sender, now - window) < max)
      ensures rates == old(rates) + if ok then [Hit(sender, now)] else []
    {
      var count := Count(rates, sender, now - window);
      if count >= max {
        return false;
      }
      rates := rates + [Hit(sender, now)];
      ok := true;
    }
  }

  class SqliteRates {
    var rows: seq<Hit>

    method TryReserve(sender: string, max: nat, window: nat, now: int) returns (ok: bool)
      modifies this
      ensures ok == (Count(old(rows), sender, now - window) < max)
      ensures rows == HitsFrom(old(rows), now - window) + if ok then [Hit(sender, now)] else []
    {
      PruneKeepsCount(rows, now - window, sender, now - window);
      rows := HitsFrom(rows, now - window);
      if Count(rows, sender, now - window) >= max {
        return false;
      }
      rows := rows + [Hit(sender, now)];
      ok := true;
    }
  }

  lemma {:induction false} PruneKeepsCountTo(hits: seq<Hit>, n: nat, cut: int, sender: string, after: int)
    requires n <= |hits| && cut <= after
    ensures Count(HitsFromTo(hits, n, cut), sender, after) == CountTo(hits, n, sender, after)
  {
    if n > 0 {
      var older := HitsFromTo(hits, n - 1, cut);
      PruneKeepsCountTo(hits, n - 1, cut, sender, after);
      CountAppend(older, hits[n - 1], sender, after);
      assert older + [] == older;
    }
  }

  lemma PruneKeepsCount(hits: seq<Hit>, cut: int, sender: string, after: int)
    requires cut <= after
    ensures Count(HitsFrom(hits, cut), sender, after) == Count(hits, sender, after)
  {
    PruneKeepsCountTo(hits, |hits|, cut, sender, after);
  }

  lemma {:induction false} HitsFromTwiceTo(hits: seq<Hit>, n: nat, a: int, b: int)
    requires n <= |hits| && a <= b
    ensures HitsFrom(HitsFromTo(hits, n, a), b) == HitsFromTo(hits, n, b)
  {
    if n > 0 {
      var older := HitsFromTo(hits, n - 1, a);
      HitsFromTwiceTo(hits, n - 1, a, b);
      HitsFromAppend(older, hits[n - 1], b);
      assert older + [] == older;
    }
  }

  lemma HitsFromTwice(hits: seq<Hit>, a: int, b: int)
    requires a <= b
    ensures HitsFrom(HitsFrom(hits, a), b) == HitsFrom(hits, b)
  {
    HitsFromTwiceTo(hits, |hits|, a, b);
  }

  datatype RateTrace = RateTrace(answers: seq<bool>, held: seq<Hit>)

  function RateMemoryStep(window: nat, max: nat, t: RateTrace, r: Hit): RateTrace {
    var ok := Count(t.held, r.sender, r.ts - window) < max;
    RateTrace(t.answers + [ok], t.held + if ok then [r] else [])
  }

  function RateSqliteStep(window: nat, max: nat, t: RateTrace, r: Hit): RateTrace {
    var ok := Count(t.held, r.sender, r.ts - window) < max;
    RateTrace(t.answers + [ok], HitsFrom(t.held, r.ts - window) + if ok then [r] else [])
  }

  /** The first `n` requests in order: the answers given and the hits held, oldest first. */
  function RateMemory(window: nat, max: nat, reqs: seq<Hit>, n: nat): RateTrace
    requires n <= |reqs|
  {
    if n == 0 then RateTrace([], []) else RateMemoryStep(window, max, RateMemory(window, max, reqs, n - 1), reqs[n - 1])
  }

  function RateSqlite(window: nat, max: nat, reqs: seq<Hit>, n: nat): RateTrace
    requires n <= |reqs|
  {
    if n == 0 then RateTrace([], []) else RateSqliteStep(window, max, RateSqlite(window, max, reqs, n - 1), reqs[n - 1])
  }

  predicate RequestsInOrder(reqs: seq<Hit>) {
    forall i, j :: 0 <= i < j < |reqs| ==> reqs[i].ts <= reqs[j].ts
  }

  ghost predicate RatesInStep(s: RateTrace, m: RateTrace, cut: int) {
    s.answers == m.answers && s.held == HitsFrom(m.held, cut)
  }

  lemma RateStepsAgree(window: nat, max: nat, m: RateTrace, s: RateTrace, cut: int, r: Hit)
    requires RatesInStep(s, m, cut) && cut <= r.ts - window
    ensures RatesInStep(RateSqliteStep(window, max, s, r), RateMemoryStep(window, max, m, r), r.ts - window)
  {
    PruneKeepsCount(m.held, cut, r.sender, r.ts - window);
    HitsFromTwice(m.held, cut, r.ts - window);
    HitsFromAppend(m.held, r, r.ts - window);
    var live := HitsFrom(m.held, r.ts - window);
    assert m.held + [] == m.held && live + [] == live;
  }

  function LastRateCut(window: nat, reqs: seq<Hit>, n: nat, next: int): int
    requires n <= |reqs|
  {
    if n == 0 then next else reqs[n - 1].ts - window
  }

  lemma {:induction false} PrunedRatesAgree(window: nat, max: nat, reqs: seq<Hit>, n: nat, next: int)
    requires RequestsInOrder(reqs) && n <= |reqs|
    ensures RatesInStep(RateSqlite(window, max, reqs, n), RateMemory(window, max, reqs, n), LastRateCut(window, reqs, n, next))
  {
    if n > 0 {
      var cut := LastRateCut(window, reqs, n - 1, reqs[n - 1].ts - window);
      PrunedRatesAgree(window, max, reqs, n - 1, reqs[n - 1].ts - window);
      RateStepsAgree(window, max, RateMemory(window, max, reqs, n - 1), RateSqlite(window, max, reqs, n - 1), cut, reqs[n - 1]);
    }
  }

  /** A sender's hits, each weighing one, as a cap log. */
  function WeighTo(hits: seq<Hit>, n: nat, sender: string): seq<Entry>
    requires n <= |hits|
  {
    if n == 0 then []
    else WeighTo(hits, n - 1, sender) + if hits[n - 1].sender == sender then [Entry(hits[n - 1].ts, 1)] else []
  }

  function Weigh(hits: seq<Hit>, sender: string): seq<Entry> {
    WeighTo(hits, |hits|, sender)
  }

  function CallsOf(reqs: seq<Hit>, sender: string, n: nat): seq<Call>
    requires n <= |reqs|
  {
    if n == 0 then []
    else CallsOf(reqs, sender, n - 1)
         + (var r := reqs[n - 1]; if r.sender == sender then [TryReserve(1, r.ts)] else [])
  }

  lemma {:induction false} WeighOfPrefix(hits: seq<Hit>, more: seq<Hit>, n: nat, sender: string)
    requires n <= |hits|
    ensures WeighTo(hits + more, n, sender) == WeighTo(hits, n, sender)
  {
    if n > 0 {
      WeighOfPrefix(hits, more, n - 1, sender);
    }
  }

  lemma WeighAppend(hits: seq<Hit>, h: Hit, sender: string)
    ensures Weigh(hits + [h], sender) == Weigh(hits, sender) + if h.sender == sender then [Entry(h.ts, 1)] else []
  {
    WeighOfPrefix(hits, [h], |hits|, sender);
  }

  lemma {:induction false} CountIsTotal(hits: seq<Hit>, n: nat, sender: string, after: int, now: int)
    requires n <= |hits| && forall h :: h in hits ==> h.ts <= now
    ensures CountTo(hits, n, sender, after) == Total(WeighTo(hits, n, sender), after + 1, now)
  {
    if n > 0 {
      var older, h := WeighTo(hits, n - 1, sender), hits[n - 1];
      assert h in hits;
      CountIsTotal(hits, n - 1, sender, after, now);
      TotalAppend(older, Entry(h.ts, 1), after + 1, now);
      assert older + [] == older;
    }
  }

  lemma {:induction false} HeldHitsInOrder(window: nat, max: nat, reqs: seq<Hit>, n: nat, now: int)
    requires RequestsInOrder(reqs) && n <= |reqs| && (n > 0 ==> reqs[n - 1].ts <= now)
    ensures forall h :: h in RateMemory(window, max, reqs, n).held ==> h.ts <= now
  {
    if n > 0 {
      HeldHitsInOrder(window, max, reqs, n - 1, reqs[n - 1].ts);
    }
  }

  lemma {:induction false} CallsInOrder(reqs: seq<Hit>, sender: string, n: nat, now: int)
    requires RequestsInOrder(reqs) && n <= |reqs| && (n > 0 ==> reqs[n - 1].ts <= now)
    ensures ClockNeverGoesBack(CallsOf(reqs, sender, n))
    ensures forall c :: c in CallsOf(reqs, sender, n) ==> c.now <= now
  {
    if n > 0 {
      CallsInOrder(reqs, sender, n - 1, reqs[n - 1].ts);
      var older, calls := CallsOf(reqs, sender, n - 1), CallsOf(reqs, sender, n);
      forall i, j | 0 <= i < j < |calls| ensures calls[i].now <= calls[j].now {
        assert i < |older| && older[i] in older;
      }
    }
  }

  lemma {:induction false} RunOnPrefix(window: nat, cap: int, calls: seq<Call>, more: seq<Call>, n: nat)
    requires n <= |calls|
    ensures MemoryRun(window, cap, calls + more, n) == MemoryRun(window, cap, calls, n)
  {
    if n > 0 {
      RunOnPrefix(window, cap, calls, more, n - 1);
    }
  }

  /**
   One sender's view of the rate limiter is the cap window over entries of weight one, with
   the open lower end of its interval turned into a closed one a millisecond later.
   */
  lemma {:induction false} RateIsUnitCap(window: nat, max: nat, reqs: seq<Hit>, sender: string, n: nat)
    requires window > 0 && RequestsInOrder(reqs) && n <= |reqs|
    ensures var calls := CallsOf(reqs, sender, n);
            Weigh(RateMemory(window, max, reqs, n).held, sender) == MemoryRun(window - 1, max, calls, |calls|).held
  {
    if n > 0 {
      RateIsUnitCap(window, max, reqs, sender, n - 1);
      HeldHitsInOrder(window, max, reqs, n - 1, reqs[n - 1].ts);
      RateStepIsUnitStep(window, max, RateMemory(window, max, reqs, n - 1), CallsOf(reqs, sender, n - 1), reqs[n - 1], sender);
    }
  }

  lemma RateStepIsUnitStep(window: nat, max: nat, t: RateTrace, calls: seq<Call>, r: Hit, sender: string)
    requires window > 0 && forall h :: h in t.held ==> h.ts <= r.ts
    requires Weigh(t.held, sender) == MemoryRun(window - 1, max, calls, |calls|).held
    ensures var calls' := calls + if r.sender == sender then [TryReserve(1, r.ts)] else [];
            Weigh(RateMemoryStep(window, max, t, r).held, sender) == MemoryRun(window - 1, max, calls', |calls'|).held
  {
    WeighAppend(t.held, r, sender);
    assert t.held + [] == t.held && calls + [] == calls;
    if r.sender == sender {
      CountIsTotal(t.held, |t.held|, sender, r.ts - window, r.ts);
      RunOnPrefix(window - 1, max, calls, [TryReserve(1, r.ts)], |calls|);
    }
  }

  /** At most `max` deposits of one sender are let through in any window open at its start. */
  lemma EverySenderStaysUnderRate(window: nat, max: nat, reqs: seq<Hit>, sender: string, n: nat, start: int)
    requires window > 0 && RequestsInOrder(reqs) && n <= |reqs|
    ensures Total(Weigh(RateMemory(window, max, reqs, n).held, sender), start + 1, start + window) <= max
  {
    var calls := CallsOf(reqs, sender, n);
    CallsInOrder(reqs, sender, n, if n > 0 then reqs[n - 1].ts else 0);
    RateIsUnitCap(window, max, reqs, sender, n);
    EveryWindowStaysUnderCap(window - 1, max, calls, |calls|, start + 1);
    assert start + 1 + (window - 1) == start + window;
  }

  /** Closed windows are not bounded so: two deposits exactly one window apart both pass a limit of one. */
  lemma RateAllowsBothEnds()
    ensures var reqs := [Hit("a", 0), Hit("a", 10)];
            RequestsInOrder(reqs) && RateMemory(10, 1, reqs, 2).answers == [true, true]
  {
    var reqs := [Hit("a", 0), Hit("a", 10)];
    assert RateMemory(10, 1, reqs, 0) == RateTrace([], []);
    assert RateMemory(10, 1, reqs, 1) == RateTrace([true], [Hit("a", 0)]);
    assert CountTo([Hit("a", 0)], 0, "a", 0) == 0;
  }
}
