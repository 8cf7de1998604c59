/**
 The dispatcher over the shared outbox, one store access at a time: it may crash between any
 two, losing everything but the table. Watchers and the deposit scanner add and advance rows
 at any moment. The coordinator, another process, writes to the rows it has been given: to each
 until the dispatcher takes the answer for it, which may be anything, or, when the dispatcher
 crashed meanwhile, until the row is requeued. An operator's mint directive is applied when the
 coordinator boots, between ticks.
 */
module Dispatcher {
  import opened Wrappers
  import opened Policy
  import opened Outbox

  datatype Opts = Opts(retryIntervalMs: int, windowMs: int, pegInTimeoutMs: int, pegOutTimeoutMs: int,
                       feesGate: string, refundFee: nat)

  /** Where a tick stands: rows still to do are the snapshot its query returned. */
  datatype Tick =
    | Idle
    | Orphans(now: int, todo: seq<Row>)
    | Held(kind: Kind, now: int, todo: seq<Row>)
    | Flip(kind: Kind, now: int, rec: Row, spawned: bool, todo: seq<Row>)
    | Deliver(todo: seq<Row>)
    | Submitting(rec: Row, todo: seq<Row>)
    | Decided(rec: Row, status: Status, patch: Patch, todo: seq<Row>)
    | Spawn(rec: Row, status: Status, sweep: int, todo: seq<Row>)
    | CloseDust(rec: Row, todo: seq<Row>)
    | CloseParent(parentId: string, todo: seq<Row>)
    | Redirect(parentId: string)

  /** `sent` is the history of rows ever marked BROADCAST, `busy` the rows the coordinator may be writing to. */
  datatype Sys = Sys(rows: Rows, sent: set<string>, busy: set<string>, tick: Tick)

  datatype Event =
    // watchers and the deposit scanner
    | Discover(row: NewRow, now: int)
    | Advance(id: string, status: Status, lastError: Option<string>, now: int)
    | NoteBurn(id: string, txid: string, now: int)
    | Forget(id: string)
    // the dispatcher
    | StartTick(now: int, orphans: seq<Row>)
    | Requeue
    | QueryHeld(kind: Kind, held: seq<Row>)
    | SpawnHeld(now: int)
    | FlipHeld
    | QueryQueued(queued: seq<Row>)
    | MarkBroadcast(now: int)
    | TakeAnswer(result: Delivery, now: int)
    | WriteTransition(sweep: int, now: int)
    | SpawnChildren(now: int)
    | CloseOut(now: int)
    | EndTick
    | Crash
    // the coordinator, while /submit runs
    | PinTxid(id: string, txid: string, now: int)
    | PinFee(id: string, fee: int, now: int)
    | CoordinatorStops
    // an operator's mint directive
    | Abandon(parentId: string, now: int)
    | Redrive(now: int)

  // ---------- guards ----------

  predicate IsOrphan(o: Opts, now: int, r: Row) {
    && r.status == BROADCAST
    && r.updatedAt < now - (if o.pegInTimeoutMs < o.pegOutTimeoutMs then o.pegInTimeoutMs else o.pegOutTimeoutMs)
  }

  predicate IsDue(now: int, status: Status, r: Row) {
    r.status == status && r.nextAttemptAt <= now
  }

  predicate PastItsTimeout(o: Opts, now: int, r: Row) {
    now - r.updatedAt >= if r.kind == PegIn then o.pegInTimeoutMs else o.pegOutTimeoutMs
  }

  predicate AutoReturns(kind: Kind, r: Row) {
    && r.kind == kind && HasSender(r)
    && r.lastError == Some(if kind == PegIn then INVALID_DESTINATION else RETURN_INVALID_DEST)
  }

  /** The parent that a confirmed refund or return closes out: the stored one, else the id without its suffix. */
  function ParentOf(r: Row): Option<string> {
    if r.parentId.Some? then r.parentId
    else if EndsWith(r.id, REFUND_SUFFIX) then Some(r.id[..|r.id| - |REFUND_SUFFIX|])
    else if EndsWith(r.id, RETURN_SUFFIX) then Some(r.id[..|r.id| - |RETURN_SUFFIX|])
    else None
  }

  /** `applySourceHintResolutions`: a stuck parent whose refund has neither confirmed nor been sent. */
  predicate MayRedirect(rows: Rows, parentId: string) {
    && parentId in rows && rows[parentId].kind == PegIn
    && rows[parentId].status in {REFUNDING, REFUNDED, HELD}
    && (parentId + REFUND_SUFFIX in rows ==>
          rows[parentId + REFUND_SUFFIX].status != CONFIRMED && rows[parentId + REFUND_SUFFIX].txid.None?)
  }

  predicate WatcherRow(n: NewRow) {
    && IsSourceId(n.id) && n.kind in {PegIn, PegOut} && n.parentId.None?
    && (n.status == SEEN || n.status == HELD)
  }

  ghost predicate Enabled(o: Opts, s: Sys, e: Event) {
    match e
    case Discover(n, _) => WatcherRow(n)
    case Advance(id, status, _, _) => id in s.rows && s.rows[id].status == SEEN && status in {QUEUED, HELD}
    case NoteBurn(id, _, _) => id in s.rows && s.rows[id].status == SEEN
    case Forget(id) => id in s.rows && s.rows[id].status == SEEN
    case StartTick(now, orphans) => s.tick.Idle? && Selects(s.rows, r => IsOrphan(o, now, r), orphans)
    case Requeue => s.tick.Orphans? && s.tick.todo != []
    case QueryHeld(kind, held) =>
      && (if kind == PegIn then s.tick.Orphans? else kind == PegOut && s.tick.Held? && s.tick.kind == PegIn)
      && s.tick.todo == []
      && var now := s.tick.now;
         Selects(s.rows, r => IsDue(now, HELD, r), held) && OldestFirst(held)
    case SpawnHeld(_) => s.tick.Held? && s.tick.todo != []
    case FlipHeld => s.tick.Flip?
    case QueryQueued(queued) =>
      && s.tick.Held? && s.tick.kind == PegOut && s.tick.todo == []
      && var now := s.tick.now;
         Selects(s.rows, r => IsDue(now, QUEUED, r), queued) && OldestFirst(queued)
    case MarkBroadcast(_) => s.tick.Deliver? && s.tick.todo != []
    case TakeAnswer(_, _) => s.tick.Submitting?
    case WriteTransition(_, _) => s.tick.Decided?
    case SpawnChildren(_) => s.tick.Spawn?
    case CloseOut(_) => s.tick.CloseDust? || s.tick.CloseParent?
    case EndTick => s.tick.Deliver? && s.tick.todo == []
    case Crash => true
    case PinTxid(id, _, _) => id in s.busy
    case PinFee(id, _, _) => id in s.busy
    case CoordinatorStops => true
    case Abandon(parentId, _) => s.tick.Idle? && MayRedirect(s.rows, parentId)
    case Redrive(_) => s.tick.Redirect?
  }

  // ---------- steps ----------

  function AfterSpawn(rec: Row, status: Status, children: seq<NewRow>, todo: seq<Row>): Tick {
    if status == REFUNDING && rec.kind == PegIn && children == [] then CloseDust(rec, todo)
    else if status == CONFIRMED && rec.kind in {Refund, GramReturn} && ParentOf(rec).Some?
    then CloseParent(ParentOf(rec).value, todo)
    else Deliver(todo)
  }

  ghost function Next(o: Opts, s: Sys, e: Event): Sys
    requires Enabled(o, s, e)
  {
    match e
    case Discover(n, now) => s.(rows := Enqueue(s.rows, n, now))
    case Advance(id, status, lastError, now) =>
      s.(rows := SetStatus(s.rows, id, status, EmptyPatch().(lastError := if lastError.Some? then Some(lastError) else None), now))
    case NoteBurn(id, txid, now) => s.(rows := SetStatus(s.rows, id, SEEN, EmptyPatch().(txid := Some(Some(txid))), now))
    case Forget(id) => s.(rows := s.rows - {id})
    case StartTick(now, orphans) => s.(tick := Orphans(now, orphans))
    case Requeue =>
      var rec, now, rest := s.tick.todo[0], s.tick.now, s.tick.todo[1..];
      if !PastItsTimeout(o, now, rec) then s.(tick := Orphans(now, rest))
      else s.(rows := SetStatus(s.rows, rec.id, QUEUED,
                                Patch(Some(rec.attempts + 1), None, None, Some(now), None), now),
              busy := s.busy - {rec.id},
              tick := Orphans(now, rest))
    case QueryHeld(kind, held) => s.(tick := Held(kind, s.tick.now, held))
    case SpawnHeld(now) =>
      var rec, rest := s.tick.todo[0], s.tick.todo[1..];
      if !AutoReturns(s.tick.kind, rec) then s.(tick := Held(s.tick.kind, s.tick.now, rest))
      else
        var children := PlanChildren(rec, REFUNDING, o.feesGate, 0, o.refundFee);
        s.(rows := EnqueueAll(s.rows, children, now), tick := Flip(s.tick.kind, s.tick.now, rec, children != [], rest))
    case FlipHeld =>
      s.(rows := SetStatus(s.rows, s.tick.rec.id, if s.tick.spawned then REFUNDING else REFUNDED,
                           EmptyPatch().(lastError := if s.tick.spawned then None else Some(Some("dust retained"))), s.tick.now),
         tick := Held(s.tick.kind, s.tick.now, s.tick.todo))
    case QueryQueued(queued) => s.(tick := Deliver(queued))
    case MarkBroadcast(now) =>
      var rec := s.tick.todo[0];
      Sys(SetStatus(s.rows, rec.id, BROADCAST, EmptyPatch(), now), s.sent + {rec.id}, s.busy + {rec.id},
          Submitting(rec, s.tick.todo[1..]))
    case TakeAnswer(result, now) =>
      var (status, patch) := PlanTransition(s.tick.rec, result, now, o.retryIntervalMs, o.windowMs);
      s.(busy := s.busy - {s.tick.rec.id}, tick := Decided(s.tick.rec, status, patch, s.tick.todo))
    case WriteTransition(sweep, now) =>
      s.(rows := SetStatus(s.rows, s.tick.rec.id, s.tick.status, s.tick.patch, now),
         tick := Spawn(s.tick.rec, s.tick.status, sweep, s.tick.todo))
    case SpawnChildren(now) =>
      var children := PlanChildren(s.tick.rec, s.tick.status, o.feesGate, s.tick.sweep, o.refundFee);
      s.(rows := EnqueueAll(s.rows, children, now),
         tick := AfterSpawn(s.tick.rec, s.tick.status, children, s.tick.todo))
    case CloseOut(now) =>
      var id := if s.tick.CloseDust? then s.tick.rec.id else s.tick.parentId;
      s.(rows := SetStatus(s.rows, id, REFUNDED,
                           EmptyPatch().(lastError := if s.tick.CloseDust? then Some(Some("dust retained")) else None), now),
         tick := Deliver(s.tick.todo))
    case EndTick => s.(tick := Idle)
    case Crash => s.(tick := Idle)
    case PinTxid(id, txid, now) =>
      s.(rows := SetStatus(s.rows, id, BROADCAST, EmptyPatch().(txid := Some(Some(txid))), now))
    case PinFee(id, fee, now) => s.(rows := SetFee(s.rows, id, fee, now))
    case CoordinatorStops => s.(busy := {})
    case Abandon(parentId, now) =>
      s.(rows := SetStatus(s.rows, parentId + REFUND_SUFFIX, FAILED,
                           EmptyPatch().(lastError := Some(Some("abandoned by directive"))), now),
         busy := {}, tick := Redirect(parentId))
    case Redrive(now) =>
      s.(rows := SetStatus(s.rows, s.tick.parentId, QUEUED,
                           Patch(None, Some(Some("re-driven by directive")), None, Some(now), None), now),
         tick := Idle)
  }

  /** At most one child is ever planned; it is enqueued in one statement. */
  function EnqueueAll(rows: Rows, children: seq<NewRow>, now: int): Rows {
    if children == [] then rows else Enqueue(rows, children[0], now)
  }

  ghost predicate Initial(s: Sys) {
    s.rows == map[] && s.sent == {} && s.busy == {} && s.tick == Idle
  }

  ghost predicate Step(o: Opts, s: Sys, s': Sys) {
    exists e :: Enabled(o, s, e) && s' == Next(o, s, e)
  }

  ghost predicate Run(o: Opts, ss: seq<Sys>) {
    && |ss| > 0 && Initial(ss[0])
    && forall i :: 0 <= i < |ss| - 1 ==> Step(o, ss[i], ss[i + 1])
  }

  // ---------- the invariant ----------

  function Suffix(kind: Kind): string {
    match kind
    case FeeSweep => FEE_SUFFIX
    case Refund => REFUND_SUFFIX
    case GramReturn => RETURN_SUFFIX
    case _ => ""
  }

  const OnTheWayBack: set<Status> := {HELD, REFUNDING, REFUNDED}

  /** What a child's existence says about its parent. */
  predicate ChildOk(rows: Rows, c: Row) {
    c.parentId.Some? && var p := c.parentId.value;
    && c.id == p + Suffix(c.kind)
    && p in rows && IsSourceId(p)
    && match c.kind
       case FeeSweep => rows[p].kind == PegIn && rows[p].status == CONFIRMED
       case Refund => rows[p].kind == PegIn && rows[p].status != SEEN && (c.status != FAILED ==> rows[p].status in OnTheWayBack)
       case GramReturn => rows[p].kind == PegOut && rows[p].status in OnTheWayBack
       case _ => false
  }

  predicate RowOk(rows: Rows, sent: set<string>, id: string)
    requires id in rows
  {
    var r := rows[id];
    && r.id == id
    && (if r.kind in {PegIn, PegOut} then IsSourceId(id) && r.parentId.None? else ChildOk(rows, r))
    && (r.status in {SEEN, HELD} ==> r.kind in {PegIn, PegOut} && id !in sent)
    && (id in sent && r.status !in {BROADCAST, CONFIRMED, FAILED} ==> r.attempts >= 1)
    && (r.kind == PegOut && r.status in OnTheWayBack ==> id !in sent)
    && (r.status == FAILED ==> r.kind == Refund)
  }

  predicate RowsOk(rows: Rows, sent: set<string>) {
    sent <= rows.Keys && forall id :: id in rows ==> RowOk(rows, sent, id)
  }

  predicate Snapshot(rows: Rows, todo: seq<Row>, status: Status) {
    && (forall r :: r in todo ==> r.id in rows && rows[r.id] == r && r.status == status)
    && DistinctIds(todo)
  }

  predicate DistinctIds(todo: seq<Row>) {
    forall i, j :: 0 <= i < j < |todo| ==> todo[i].id != todo[j].id
  }

  predicate NotAmong(id: string, todo: seq<Row>) {
    forall r :: r in todo ==> r.id != id
  }

  /** The row under delivery differs from its snapshot in nothing the dispatcher decides on. */
  predicate Tracks(rows: Rows, rec: Row, status: Status) {
    rec.id in rows && var r := rows[rec.id];
    && r.status == status
    && r.kind == rec.kind && r.remoteChain == rec.remoteChain && r.recipient == rec.recipient && r.sender == rec.sender
    && r.amount == rec.amount && r.digest == rec.digest && r.parentId == rec.parentId && r.createdAt == rec.createdAt
  }

  predicate TickOk(rows: Rows, sent: set<string>, t: Tick) {
    match t
    case Idle => true
    case Orphans(_, todo) => (forall r :: r in todo ==> Tracks(rows, r, BROADCAST)) && DistinctIds(todo)
    case Held(kind, _, todo) => Snapshot(rows, todo, HELD) && kind in {PegIn, PegOut}
    case Flip(kind, _, rec, spawned, todo) =>
      && Snapshot(rows, todo, HELD) && NotAmong(rec.id, todo) && kind in {PegIn, PegOut}
      && rec.id in rows && rows[rec.id] == rec && rec.status == HELD
    case Deliver(todo) => Snapshot(rows, todo, QUEUED)
    case Submitting(rec, todo) =>
      && Snapshot(rows, todo, QUEUED) && NotAmong(rec.id, todo) && rec.id in sent
      && Tracks(rows, rec, BROADCAST)
    case Decided(rec, status, patch, todo) =>
      && Snapshot(rows, todo, QUEUED) && NotAmong(rec.id, todo) && rec.id in sent
      && Tracks(rows, rec, BROADCAST)
      && (status == CONFIRMED || status == QUEUED || (status == REFUNDING && rec.kind == PegIn))
      && (status != CONFIRMED ==> patch.attempts.Some? && patch.attempts.value >= 1)
    case Spawn(rec, status, _, todo) =>
      && Snapshot(rows, todo, QUEUED) && NotAmong(rec.id, todo)
      && Tracks(rows, rec, status)
      && (status == CONFIRMED || status == QUEUED || (status == REFUNDING && rec.kind == PegIn))
    case CloseDust(rec, todo) =>
      && Snapshot(rows, todo, QUEUED) && NotAmong(rec.id, todo)
      && Tracks(rows, rec, REFUNDING) && rec.kind == PegIn
    case CloseParent(parentId, todo) =>
      && Snapshot(rows, todo, QUEUED)
      && parentId in rows && rows[parentId].status in OnTheWayBack && rows[parentId].kind in {PegIn, PegOut}
    case Redirect(parentId) =>
      && parentId in rows && rows[parentId].kind == PegIn && rows[parentId].status in OnTheWayBack
      && (parentId + REFUND_SUFFIX in rows ==> rows[parentId + REFUND_SUFFIX].status == FAILED)
  }

  /** The coordinator is at work on rows in delivery only, and on none whose answer is being applied. */
  predicate BusyOk(s: Sys) {
    && s.busy <= s.sent
    && (forall id :: id in s.busy ==> id in s.rows && s.rows[id].status == BROADCAST)
    && (s.tick.Decided? ==> s.tick.rec.id !in s.busy)
  }

  ghost predicate Inv(s: Sys) {
    RowsOk(s.rows, s.sent) && TickOk(s.rows, s.sent, s.tick) && BusyOk(s)
  }

  // ---------- changing one row ----------

  predicate SameIdentity(r: Row, r': Row) {
    r'.id == r.id && r'.kind == r.kind && r'.parentId == r.parentId
  }

  /** The moves that leave every parent-child pair in order. */
  predicate MayMove(rows: Rows, sent: set<string>, r: Row, r': Row) {
    && (r.status == CONFIRMED ==> r'.status == CONFIRMED)
    && (r.status == FAILED ==> r'.status == FAILED)
    && (r'.status == SEEN ==> r.status == SEEN)
    && (r.status in OnTheWayBack && r'.status !in OnTheWayBack && r'.status != FAILED ==>
          && r.kind == PegIn
          && (r.id + REFUND_SUFFIX in rows ==> rows[r.id + REFUND_SUFFIX].status == FAILED))
    && (r'.status == FAILED ==> r.kind == Refund)
    && (r'.status in {SEEN, HELD} ==> r.kind in {PegIn, PegOut} && r.id !in sent)
    && (r.id in sent && r'.status !in {BROADCAST, CONFIRMED, FAILED} ==> r'.attempts >= 1)
    && (r.kind == PegOut && r'.status in OnTheWayBack ==> r.id !in sent)
  }

  lemma MoveKeepsRowsOk(rows: Rows, sent: set<string>, id: string, r': Row)
    requires RowsOk(rows, sent) && id in rows && SameIdentity(rows[id], r') && MayMove(rows, sent, rows[id], r')
    ensures RowsOk(rows[id := r'], sent)
  {
    var rows' := rows[id := r'];
    forall x | x in rows' ensures RowOk(rows', sent, x) {
      assert RowOk(rows, sent, x) && RowOk(rows, sent, id);
    }
  }

  lemma EnqueueKeepsRowsOk(rows: Rows, sent: set<string>, n: NewRow, now: int)
    requires RowsOk(rows, sent)
    requires n.id !in rows ==> RowOk(Enqueue(rows, n, now), sent, n.id)
    ensures RowsOk(Enqueue(rows, n, now), sent)
  {
    var rows' := Enqueue(rows, n, now);
    forall x | x in rows' ensures RowOk(rows', sent, x) {
      if x in rows {
        assert RowOk(rows, sent, x);
      }
    }
  }

  lemma ChildIdIsNotSource(p: string, kind: Kind)
    requires kind in {FeeSweep, Refund, GramReturn}
    ensures !IsSourceId(p + Suffix(kind))
  {
    ChildIdEnds(p, Suffix(kind));
  }

  /** A row at a child's id is that child. */
  lemma RowAtChildId(rows: Rows, sent: set<string>, p: string, kind: Kind)
    requires RowsOk(rows, sent) && kind in {FeeSweep, Refund, GramReturn} && p + Suffix(kind) in rows
    ensures rows[p + Suffix(kind)].kind == kind && rows[p + Suffix(kind)].parentId == Some(p)
  {
    var id := p + Suffix(kind);
    assert RowOk(rows, sent, id);
    ChildIdIsNotSource(p, kind);
    var c := rows[id];
    ChildIdsInjective(p, Suffix(kind), c.parentId.value, Suffix(c.kind));
  }

  /** Spawning the planned child of a row whose status the plan was made for. */
  lemma SpawnKeepsRowsOk(o: Opts, rows: Rows, sent: set<string>, rec: Row, status: Status, sweep: int, now: int)
    requires RowsOk(rows, sent) && rec.id in rows && rows[rec.id].kind == rec.kind
    requires status == CONFIRMED ==> rows[rec.id].status == CONFIRMED
    requires status == REFUNDING ==> rows[rec.id].status in OnTheWayBack
    ensures RowsOk(EnqueueAll(rows, PlanChildren(rec, status, o.feesGate, sweep, o.refundFee), now), sent)
    ensures forall x :: x in rows ==>
                          var rows' := EnqueueAll(rows, PlanChildren(rec, status, o.feesGate, sweep, o.refundFee), now);
                          x in rows' && rows'[x] == rows[x]
  {
    var children := PlanChildren(rec, status, o.feesGate, sweep, o.refundFee);
    if children != [] {
      var n := children[0];
      assert RowOk(rows, sent, rec.id);
      assert n.id == rec.id + Suffix(n.kind);
      ChildIdIsNotSource(rec.id, n.kind);
      if n.id !in rows {
        var rows' := Enqueue(rows, n, now);
        assert ChildOk(rows', rows'[n.id]);
        assert RowOk(rows', sent, n.id);
      }
      EnqueueKeepsRowsOk(rows, sent, n, now);
    }
  }

  /** Writing to a row outside the snapshot leaves the snapshot current. */
  lemma SnapshotSurvives(rows: Rows, rows': Rows, todo: seq<Row>, status: Status)
    requires Snapshot(rows, todo, status)
    requires forall r :: r in todo && r.id in rows ==> r.id in rows' && rows'[r.id] == rows[r.id]
    ensures Snapshot(rows', todo, status)
  {
  }

  lemma SnapshotTail(rows: Rows, todo: seq<Row>, status: Status)
    requires Snapshot(rows, todo, status) && todo != []
    ensures todo[0].id in rows && rows[todo[0].id] == todo[0] && todo[0].status == status
    ensures Snapshot(rows, todo[1..], status) && NotAmong(todo[0].id, todo[1..])
  {
    assert todo[0] in todo;
    forall r | r in todo[1..] ensures r in todo && r.id != todo[0].id {
      var i :| 0 <= i < |todo[1..]| && todo[1..][i] == r;
      assert todo[i + 1] == r;
    }
  }

  // ---------- steps keep the invariant ----------

  /** Watchers touch rows that are SEEN or new; the tick's rows are neither. */
  lemma WatchersKeepTick(rows: Rows, rows': Rows, sent: set<string>, t: Tick)
    requires TickOk(rows, sent, t)
    requires forall x :: x in rows && rows[x].status != SEEN ==> x in rows' && rows'[x] == rows[x]
    requires forall x :: x in rows' && x !in rows ==> IsSourceId(x)
    ensures TickOk(rows', sent, t)
  {
    if t.Redirect? {
      ChildIdIsNotSource(t.parentId, Refund);
    }
  }

  lemma WatcherWriteKeepsInv(s: Sys, id: string, r': Row)
    requires Inv(s) && id in s.rows && s.rows[id].status == SEEN && SameIdentity(s.rows[id], r')
    requires r'.status in {SEEN, QUEUED, HELD}
    ensures Inv(s.(rows := s.rows[id := r']))
  {
    assert RowOk(s.rows, s.sent, id);
    MoveKeepsRowsOk(s.rows, s.sent, id, r');
    WatchersKeepTick(s.rows, s.rows[id := r'], s.sent, s.tick);
  }

  lemma DiscoverKeepsInv(s: Sys, n: NewRow, now: int)
    requires Inv(s) && WatcherRow(n)
    ensures Inv(s.(rows := Enqueue(s.rows, n, now)))
  {
    EnqueueKeepsRowsOk(s.rows, s.sent, n, now);
    WatchersKeepTick(s.rows, Enqueue(s.rows, n, now), s.sent, s.tick);
  }

  lemma ForgetKeepsInv(s: Sys, id: string)
    requires Inv(s) && id in s.rows && s.rows[id].status == SEEN
    ensures Inv(s.(rows := s.rows - {id}))
  {
    assert RowOk(s.rows, s.sent, id);
    forall x | x in s.rows - {id} ensures RowOk(s.rows - {id}, s.sent, x) {
      assert RowOk(s.rows, s.sent, x);
    }
    WatchersKeepTick(s.rows, s.rows - {id}, s.sent, s.tick);
  }

  lemma QueryStepKeepsInv(o: Opts, s: Sys, e: Event)
    requires Inv(s) && Enabled(o, s, e)
    requires e.StartTick? || e.QueryHeld? || e.QueryQueued? || e.EndTick? || e.Crash? || e.TakeAnswer? || e.CoordinatorStops?
    ensures Inv(Next(o, s, e))
  {
  }

  lemma TrackedTail(rows: Rows, todo: seq<Row>)
    requires (forall r :: r in todo ==> Tracks(rows, r, BROADCAST)) && DistinctIds(todo) && todo != []
    ensures Tracks(rows, todo[0], BROADCAST) && DistinctIds(todo[1..]) && NotAmong(todo[0].id, todo[1..])
    ensures forall r :: r in todo[1..] ==> Tracks(rows, r, BROADCAST)
  {
    assert todo[0] in todo;
    forall r | r in todo[1..] ensures r in todo && r.id != todo[0].id {
      var i :| 0 <= i < |todo[1..]| && todo[1..][i] == r;
      assert todo[i + 1] == r;
    }
  }

  lemma RequeueKeepsInv(o: Opts, s: Sys, e: Event)
    requires Inv(s) && Enabled(o, s, e) && e.Requeue?
    ensures Inv(Next(o, s, e))
  {
    var rec := s.tick.todo[0];
    TrackedTail(s.rows, s.tick.todo);
    assert RowOk(s.rows, s.sent, rec.id);
    if PastItsTimeout(o, s.tick.now, rec) {
      MoveKeepsRowsOk(s.rows, s.sent, rec.id, Next(o, s, e).rows[rec.id]);
    }
  }

  lemma HeldStepKeepsInv(o: Opts, s: Sys, e: Event)
    requires Inv(s) && Enabled(o, s, e) && (e.SpawnHeld? || e.FlipHeld?)
    ensures Inv(Next(o, s, e))
  {
    if e.SpawnHeld? {
      var rec := s.tick.todo[0];
      SnapshotTail(s.rows, s.tick.todo, HELD);
      if AutoReturns(s.tick.kind, rec) {
        SpawnKeepsRowsOk(o, s.rows, s.sent, rec, REFUNDING, 0, e.now);
        SnapshotSurvives(s.rows, Next(o, s, e).rows, s.tick.todo[1..], HELD);
      }
    } else {
      var rec := s.tick.rec;
      assert RowOk(s.rows, s.sent, rec.id);
      MoveKeepsRowsOk(s.rows, s.sent, rec.id, Next(o, s, e).rows[rec.id]);
      SnapshotSurvives(s.rows, Next(o, s, e).rows, s.tick.todo, HELD);
    }
  }

  lemma SentGrows(rows: Rows, sent: set<string>, id: string)
    requires RowsOk(rows, sent) && id in rows && rows[id].status == BROADCAST
    ensures RowsOk(rows, sent + {id})
  {
    forall x | x in rows ensures RowOk(rows, sent + {id}, x) {
      assert RowOk(rows, sent, x);
    }
  }

  lemma MarkKeepsInv(o: Opts, s: Sys, e: Event)
    requires Inv(s) && Enabled(o, s, e) && e.MarkBroadcast?
    ensures Inv(Next(o, s, e))
  {
    var rec, rest := s.tick.todo[0], s.tick.todo[1..];
    SnapshotTail(s.rows, s.tick.todo, QUEUED);
    assert RowOk(s.rows, s.sent, rec.id);
    var rows' := Next(o, s, e).rows;
    MoveToBroadcast(s.rows, s.sent, rec.id, rows'[rec.id]);
    SnapshotSurvives(s.rows, rows', rest, QUEUED);
  }

  lemma MoveToBroadcast(rows: Rows, sent: set<string>, id: string, r': Row)
    requires RowsOk(rows, sent) && id in rows && SameIdentity(rows[id], r')
    requires rows[id].status == QUEUED && r'.status == BROADCAST
    ensures RowsOk(rows[id := r'], sent + {id})
  {
    MoveKeepsRowsOk(rows, sent, id, r');
    SentGrows(rows[id := r'], sent, id);
  }

  /** A row in delivery may get a txid or a fee at any moment of any tick. */
  lemma PinKeepsTick(rows: Rows, sent: set<string>, t: Tick, id: string, r': Row)
    requires TickOk(rows, sent, t) && id in rows && rows[id].status == BROADCAST
    requires r' == rows[id].(txid := r'.txid, fee := r'.fee, updatedAt := r'.updatedAt)
    ensures TickOk(rows[id := r'], sent, t)
  {
  }

  lemma PinKeepsInv(o: Opts, s: Sys, e: Event)
    requires Inv(s) && Enabled(o, s, e) && (e.PinTxid? || e.PinFee?)
    ensures Inv(Next(o, s, e))
  {
    var r' := Next(o, s, e).rows[e.id];
    assert RowOk(s.rows, s.sent, e.id);
    MoveKeepsRowsOk(s.rows, s.sent, e.id, r');
    PinKeepsTick(s.rows, s.sent, s.tick, e.id, r');
  }

  lemma WriteKeepsInv(o: Opts, s: Sys, e: Event)
    requires Inv(s) && Enabled(o, s, e) && e.WriteTransition?
    ensures Inv(Next(o, s, e))
  {
    var rec := s.tick.rec;
    assert RowOk(s.rows, s.sent, rec.id);
    var rows' := Next(o, s, e).rows;
    MoveKeepsRowsOk(s.rows, s.sent, rec.id, rows'[rec.id]);
    SnapshotSurvives(s.rows, rows', s.tick.todo, QUEUED);
  }

  lemma SpawnStepKeepsInv(o: Opts, s: Sys, e: Event)
    requires Inv(s) && Enabled(o, s, e) && e.SpawnChildren?
    ensures Inv(Next(o, s, e))
  {
    var rec, s' := s.tick.rec, Next(o, s, e);
    assert RowOk(s.rows, s.sent, rec.id);
    SpawnKeepsRowsOk(o, s.rows, s.sent, rec, s.tick.status, s.tick.sweep, e.now);
    SnapshotSurvives(s.rows, s'.rows, s.tick.todo, QUEUED);
    if s'.tick.CloseParent? {
      assert ChildOk(s.rows, s.rows[rec.id]);
    }
  }

  lemma CloseStepKeepsInv(o: Opts, s: Sys, e: Event)
    requires Inv(s) && Enabled(o, s, e) && e.CloseOut?
    ensures Inv(Next(o, s, e))
  {
    var id := if s.tick.CloseDust? then s.tick.rec.id else s.tick.parentId;
    var rows' := Next(o, s, e).rows;
    assert RowOk(s.rows, s.sent, id);
    MoveKeepsRowsOk(s.rows, s.sent, id, rows'[id]);
    SnapshotSurvives(s.rows, rows', s.tick.todo, QUEUED);
  }

  lemma AbandonKeepsInv(o: Opts, s: Sys, e: Event)
    requires Inv(s) && Enabled(o, s, e) && e.Abandon?
    ensures Inv(Next(o, s, e))
  {
    var child := e.parentId + REFUND_SUFFIX;
    if child in s.rows {
      assert Suffix(Refund) == REFUND_SUFFIX;
      RowAtChildId(s.rows, s.sent, e.parentId, Refund);
      assert RowOk(s.rows, s.sent, child);
      MoveKeepsRowsOk(s.rows, s.sent, child, Next(o, s, e).rows[child]);
    }
  }

  lemma RedriveKeepsInv(o: Opts, s: Sys, e: Event)
    requires Inv(s) && Enabled(o, s, e) && e.Redrive?
    ensures Inv(Next(o, s, e))
  {
    var id := s.tick.parentId;
    assert RowOk(s.rows, s.sent, id);
    MoveKeepsRowsOk(s.rows, s.sent, id, Next(o, s, e).rows[id]);
  }

  lemma WatcherStepKeepsInv(o: Opts, s: Sys, e: Event)
    requires Inv(s) && Enabled(o, s, e) && (e.Discover? || e.Advance? || e.NoteBurn? || e.Forget?)
    ensures Inv(Next(o, s, e))
  {
    match e
    case Discover(n, now) => DiscoverKeepsInv(s, n, now);
    case Advance(id, _, _, _) => WatcherWriteKeepsInv(s, id, Next(o, s, e).rows[id]);
    case NoteBurn(id, _, _) => WatcherWriteKeepsInv(s, id, Next(o, s, e).rows[id]);
    case Forget(id) => ForgetKeepsInv(s, id);
  }

  lemma StepKeepsInv(o: Opts, s: Sys, e: Event)
    requires Inv(s) && Enabled(o, s, e)
    ensures Inv(Next(o, s, e))
  {
    if e.Discover? || e.Advance? || e.NoteBurn? || e.Forget? {
      WatcherStepKeepsInv(o, s, e);
    } else if e.SpawnHeld? || e.FlipHeld? {
      HeldStepKeepsInv(o, s, e);
    } else if e.PinTxid? || e.PinFee? {
      PinKeepsInv(o, s, e);
    } else if e.Abandon? {
      AbandonKeepsInv(o, s, e);
    } else if e.Redrive? {
      RedriveKeepsInv(o, s, e);
    } else if e.Requeue? {
      RequeueKeepsInv(o, s, e);
    } else if e.MarkBroadcast? {
      MarkKeepsInv(o, s, e);
    } else if e.WriteTransition? {
      WriteKeepsInv(o, s, e);
    } else if e.SpawnChildren? {
      SpawnStepKeepsInv(o, s, e);
    } else if e.CloseOut? {
      CloseStepKeepsInv(o, s, e);
    } else {
      QueryStepKeepsInv(o, s, e);
    }
  }

  lemma {:induction false} RunKeepsInv(o: Opts, ss: seq<Sys>, i: nat)
    requires Run(o, ss) && i < |ss|
    ensures Inv(ss[i])
  {
    if i > 0 {
      RunKeepsInv(o, ss, i - 1);
      StepOfRunKeepsInv(o, ss[i - 1], ss[i - 1 + 1]);
    } else {
      assert Initial(ss[0]);
    }
  }

  lemma StepOfRunKeepsInv(o: Opts, s: Sys, s': Sys)
    requires Inv(s) && Step(o, s, s')
    ensures Inv(s')
  {
    var e :| Enabled(o, s, e) && s' == Next(o, s, e);
    StepKeepsInv(o, s, e);
  }

  // ---------- over whole runs ----------

  /** Mint or refund: a confirmed peg-in has no refund but an abandoned one, and sweeps only follow confirmation. */
  lemma MintXorRefund(o: Opts, ss: seq<Sys>, i: nat, p: string)
    requires Run(o, ss) && i < |ss| && p in ss[i].rows
    ensures p + REFUND_SUFFIX in ss[i].rows && ss[i].rows[p].status == CONFIRMED ==>
              ss[i].rows[p + REFUND_SUFFIX].status == FAILED
    ensures p + FEE_SUFFIX in ss[i].rows ==>
              ss[i].rows[p].kind == PegIn && ss[i].rows[p].status == CONFIRMED
    ensures p + RETURN_SUFFIX in ss[i].rows ==>
              ss[i].rows[p].kind == PegOut && ss[i].rows[p].status in OnTheWayBack && p !in ss[i].sent
  {
    RunKeepsInv(o, ss, i);
    ChildrenAgree(ss[i].rows, ss[i].sent, p);
  }

  lemma ChildrenAgree(rows: Rows, sent: set<string>, p: string)
    requires RowsOk(rows, sent) && p in rows
    ensures p + REFUND_SUFFIX in rows && rows[p].status == CONFIRMED ==> rows[p + REFUND_SUFFIX].status == FAILED
    ensures p + FEE_SUFFIX in rows ==> rows[p].kind == PegIn && rows[p].status == CONFIRMED
    ensures p + RETURN_SUFFIX in rows ==> rows[p].kind == PegOut && rows[p].status in OnTheWayBack && p !in sent
  {
    assert RowOk(rows, sent, p);
    if p + REFUND_SUFFIX in rows {
      RowAtChildId(rows, sent, p, Refund);
      assert RowOk(rows, sent, p + REFUND_SUFFIX);
    }
    if p + FEE_SUFFIX in rows {
      RowAtChildId(rows, sent, p, FeeSweep);
      assert RowOk(rows, sent, p + FEE_SUFFIX);
    }
    if p + RETURN_SUFFIX in rows {
      RowAtChildId(rows, sent, p, GramReturn);
      assert RowOk(rows, sent, p + RETURN_SUFFIX);
    }
  }

  /** Every child row was spawned by a row that is still there. */
  lemma NoOrphanChildren(o: Opts, ss: seq<Sys>, i: nat, id: string)
    requires Run(o, ss) && i < |ss| && id in ss[i].rows && ss[i].rows[id].kind !in {PegIn, PegOut}
    ensures ss[i].rows[id].parentId.Some?
    ensures var p := ss[i].rows[id].parentId.value; p in ss[i].rows && id == p + Suffix(ss[i].rows[id].kind)
  {
    RunKeepsInv(o, ss, i);
    assert RowOk(ss[i].rows, ss[i].sent, id);
  }

  /** A row that waits again after having been marked BROADCAST carries the attempt: recovery looks on chain first. */
  lemma RequeuedRowsCarryAttempts(o: Opts, ss: seq<Sys>, i: nat, id: string)
    requires Run(o, ss) && i < |ss| && id in ss[i].rows && ss[i].rows[id].status == QUEUED && id in ss[i].sent
    ensures ss[i].rows[id].attempts >= 1
  {
    RunKeepsInv(o, ss, i);
    assert RowOk(ss[i].rows, ss[i].sent, id);
  }

  predicate IsFinal(rows: Rows, id: string) {
    id in rows && rows[id].status in {CONFIRMED, FAILED}
  }

  predicate FinalKept(rows: Rows, rows': Rows, id: string)
    requires id in rows
  {
    id in rows' && rows'[id].status == rows[id].status
  }

  /** The row a step may write to, if it exists before the step. */
  function Target(s: Sys, e: Event): string {
    match e
    case Advance(id, _, _, _) => id
    case NoteBurn(id, _, _) => id
    case Forget(id) => id
    case Requeue => if s.tick.Orphans? && s.tick.todo != [] then s.tick.todo[0].id else ""
    case MarkBroadcast(_) => if s.tick.Deliver? && s.tick.todo != [] then s.tick.todo[0].id else ""
    case FlipHeld => if s.tick.Flip? then s.tick.rec.id else ""
    case PinTxid(id, _, _) => id
    case PinFee(id, _, _) => id
    case WriteTransition(_, _) => if s.tick.Decided? then s.tick.rec.id else ""
    case CloseOut(_) => if s.tick.CloseDust? then s.tick.rec.id else if s.tick.CloseParent? then s.tick.parentId else ""
    case Abandon(parentId, _) => parentId + REFUND_SUFFIX
    case Redrive(_) => if s.tick.Redirect? then s.tick.parentId else ""
    case _ => ""
  }

  lemma OtherRowsAreUntouched(o: Opts, s: Sys, e: Event, id: string)
    requires Enabled(o, s, e) && id in s.rows && id != Target(s, e)
    ensures id in Next(o, s, e).rows && Next(o, s, e).rows[id] == s.rows[id]
  {
  }

  /** New rows come from a watcher or are spawned. */
  lemma OnlyTheseAddRows(o: Opts, s: Sys, e: Event, id: string)
    requires Enabled(o, s, e) && id !in s.rows && id in Next(o, s, e).rows
    ensures (e.Discover? && id == e.row.id) || e.SpawnHeld? || e.SpawnChildren?
  {
  }

  /** The steps that change a row which exists. */
  predicate Writes(e: Event) {
    || e.Advance? || e.NoteBurn? || e.Forget? || e.PinTxid? || e.PinFee? || e.Requeue? || e.MarkBroadcast?
    || e.WriteTransition? || e.FlipHeld? || e.CloseOut? || e.Abandon? || e.Redrive?
  }

  lemma OnlyWritersWrite(o: Opts, s: Sys, e: Event, id: string)
    requires Enabled(o, s, e) && !Writes(e) && id in s.rows
    ensures id in Next(o, s, e).rows && Next(o, s, e).rows[id] == s.rows[id]
  {
  }

  /** No step writes to a row that has reached its end, but that a directive may mark a failed refund failed again. */
  lemma TargetIsNotFinal(o: Opts, s: Sys, e: Event)
    requires Inv(s) && Enabled(o, s, e) && Writes(e) && !e.Abandon?
    ensures !IsFinal(s.rows, Target(s, e))
  {
    if e.Requeue? || e.MarkBroadcast? {
      assert s.tick.todo[0] in s.tick.todo;
    }
  }

  lemma AbandonKeepsFinal(o: Opts, s: Sys, e: Event)
    requires Inv(s) && Enabled(o, s, e) && e.Abandon? && IsFinal(s.rows, Target(s, e))
    ensures FinalKept(s.rows, Next(o, s, e).rows, Target(s, e))
  {
  }

  lemma StepKeepsFinal(o: Opts, s: Sys, e: Event, id: string)
    requires Inv(s) && Enabled(o, s, e) && IsFinal(s.rows, id)
    ensures FinalKept(s.rows, Next(o, s, e).rows, id)
  {
    if id != Target(s, e) {
      OtherRowsAreUntouched(o, s, e, id);
    } else if !Writes(e) {
      OnlyWritersWrite(o, s, e, id);
    } else if e.Abandon? {
      AbandonKeepsFinal(o, s, e);
    } else {
      TargetIsNotFinal(o, s, e);
    }
  }

  lemma StepOfRunKeepsFinal(o: Opts, s: Sys, s': Sys, id: string)
    requires Inv(s) && Step(o, s, s') && IsFinal(s.rows, id)
    ensures FinalKept(s.rows, s'.rows, id)
  {
    var e :| Enabled(o, s, e) && s' == Next(o, s, e);
    StepKeepsFinal(o, s, e, id);
  }

  /** CONFIRMED and FAILED are final. */
  lemma {:induction false} FinalStaysFinal(o: Opts, ss: seq<Sys>, i: nat, j: nat, id: string)
    requires Run(o, ss) && i <= j < |ss| && IsFinal(ss[i].rows, id)
    ensures FinalKept(ss[i].rows, ss[j].rows, id)
    decreases j
  {
    if i < j {
      FinalStaysFinal(o, ss, i, j - 1, id);
      RunKeepsInv(o, ss, j - 1);
      StepOfRunKeepsFinal(o, ss[j - 1], ss[j - 1 + 1], id);
    }
  }

  /** Once a refund is confirmed its peg-in is never confirmed, in this state or any later one. */
  lemma RefundedNeverMints(o: Opts, ss: seq<Sys>, i: nat, j: nat, p: string)
    requires Run(o, ss) && i <= j < |ss|
    requires p + REFUND_SUFFIX in ss[i].rows && ss[i].rows[p + REFUND_SUFFIX].status == CONFIRMED
    ensures p in ss[j].rows ==> ss[j].rows[p].status != CONFIRMED
  {
    FinalStaysFinal(o, ss, i, j, p + REFUND_SUFFIX);
    if p in ss[j].rows {
      MintXorRefund(o, ss, j, p);
    }
  }

  // ---------- a coordinator that writes too late ----------

  /** What a coordinator writes when it persists a txid, whatever has become of the row since. */
  function LateWrite(s: Sys, p: string, txid: string, now: int): Sys {
    s.(rows := SetStatus(s.rows, p, BROADCAST, EmptyPatch().(txid := Some(Some(txid))), now))
  }

  /** The tick is about to act on the row as it found or left it. */
  predicate TickHolds(t: Tick, p: string) {
    match t
    case Deliver(todo) => !NotAmong(p, todo)
    case Submitting(_, todo) => !NotAmong(p, todo)
    case Decided(_, _, _, todo) => !NotAmong(p, todo)
    case Spawn(rec, _, _, todo) => rec.id == p || !NotAmong(p, todo)
    case CloseDust(rec, todo) => rec.id == p || !NotAmong(p, todo)
    case CloseParent(parentId, todo) => parentId == p || !NotAmong(p, todo)
    case Redirect(parentId) => parentId == p
    case _ => false
  }

  predicate NoLiveRefund(rows: Rows, p: string) {
    p + REFUND_SUFFIX in rows ==> rows[p + REFUND_SUFFIX].status == FAILED
  }

  lemma LateWriteKeepsRow(rows: Rows, sent: set<string>, p: string, r': Row, x: string)
    requires RowsOk(rows, sent) && p in sent && !IsFinal(rows, p) && NoLiveRefund(rows, p) && x in rows
    requires r' == rows[p].(status := BROADCAST, txid := r'.txid, updatedAt := r'.updatedAt)
    ensures RowOk(rows[p := r'], sent, x)
  {
    assert RowOk(rows, sent, p) && RowOk(rows, sent, x);
  }

  lemma LateWriteUnderRefund(rows: Rows, sent: set<string>, p: string, r': Row)
    requires RowsOk(rows, sent) && p in sent && !NoLiveRefund(rows, p)
    requires r' == rows[p].(status := BROADCAST, txid := r'.txid, updatedAt := r'.updatedAt)
    ensures !RowsOk(rows[p := r'], sent)
  {
    RowAtChildId(rows, sent, p, Refund);
    assert RowOk(rows, sent, p + REFUND_SUFFIX) && !RowOk(rows[p := r'], sent, p + REFUND_SUFFIX);
  }

  lemma LateWriteKeepsRowsIff(rows: Rows, sent: set<string>, p: string, r': Row)
    requires RowsOk(rows, sent) && p in sent && !IsFinal(rows, p)
    requires r' == rows[p].(status := BROADCAST, txid := r'.txid, updatedAt := r'.updatedAt)
    ensures RowsOk(rows[p := r'], sent) <==> NoLiveRefund(rows, p)
  {
    var rows' := rows[p := r'];
    if NoLiveRefund(rows, p) {
      forall x | x in rows' ensures RowOk(rows', sent, x) {
        LateWriteKeepsRow(rows, sent, p, r', x);
      }
    } else {
      LateWriteUnderRefund(rows, sent, p, r');
    }
  }

  lemma LateWriteKeepsSnapshotIff(rows: Rows, todo: seq<Row>, status: Status, p: string, r': Row)
    requires Snapshot(rows, todo, status) && status != BROADCAST && r'.status == BROADCAST
    ensures Snapshot(rows[p := r'], todo, status) <==> NotAmong(p, todo)
  {
  }

  lemma LateWriteKeepsPolls(rows: Rows, sent: set<string>, t: Tick, p: string, r': Row)
    requires RowsOk(rows, sent) && TickOk(rows, sent, t) && p in sent && !IsFinal(rows, p)
    requires t.Idle? || t.Orphans? || t.Held? || t.Flip? || t.Redirect?
    requires r' == rows[p].(status := BROADCAST, txid := r'.txid, updatedAt := r'.updatedAt)
    ensures TickOk(rows[p := r'], sent, t) <==> !TickHolds(t, p)
  {
    assert RowOk(rows, sent, p);
    if t.Held? || t.Flip? {
      LateWriteKeepsSnapshotIff(rows, t.todo, HELD, p, r');
    }
  }

  lemma LateWriteKeepsDeliveryIff(rows: Rows, sent: set<string>, t: Tick, p: string, r': Row)
    requires TickOk(rows, sent, t) && p in rows
    requires t.Deliver? || t.Submitting? || t.Decided? || t.Spawn? || t.CloseDust? || t.CloseParent?
    requires r' == rows[p].(status := BROADCAST, txid := r'.txid, updatedAt := r'.updatedAt)
    ensures TickOk(rows[p := r'], sent, t) <==> !TickHolds(t, p)
  {
    LateWriteKeepsSnapshotIff(rows, t.todo, QUEUED, p, r');
  }

  lemma LateWriteKeepsTickIff(rows: Rows, sent: set<string>, t: Tick, p: string, r': Row)
    requires RowsOk(rows, sent) && TickOk(rows, sent, t) && p in sent && !IsFinal(rows, p)
    requires r' == rows[p].(status := BROADCAST, txid := r'.txid, updatedAt := r'.updatedAt)
    ensures TickOk(rows[p := r'], sent, t) <==> !TickHolds(t, p)
  {
    if t.Deliver? || t.Submitting? || t.Decided? || t.Spawn? || t.CloseDust? || t.CloseParent? {
      LateWriteKeepsDeliveryIff(rows, sent, t, p, r');
    } else {
      LateWriteKeepsPolls(rows, sent, t, p, r');
    }
  }

  /**
   The coordinator must have stopped writing a row before the answer for it is written. To a row
   that was ever delivered a later write leaves the machine in order and the row's end final
   exactly when the row has not ended, no live refund stands against it, and the tick is not about
   to act on it.
   */
  lemma LateWriteIsSafeIff(s: Sys, p: string, txid: string, now: int)
    requires Inv(s) && p in s.sent
    ensures Inv(LateWrite(s, p, txid, now)) && (IsFinal(s.rows, p) ==> FinalKept(s.rows, LateWrite(s, p, txid, now).rows, p))
            <==> !IsFinal(s.rows, p) && NoLiveRefund(s.rows, p) && !TickHolds(s.tick, p)
  {
    assert RowOk(s.rows, s.sent, p);
    if !IsFinal(s.rows, p) {
      var r' := LateWrite(s, p, txid, now).rows[p];
      LateWriteKeepsRowsIff(s.rows, s.sent, p, r');
      LateWriteKeepsTickIff(s.rows, s.sent, s.tick, p, r');
    }
  }
}
