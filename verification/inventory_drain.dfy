/** The expiry worker: which rows a batch takes, when it succeeds, and what it gives back. */
module InventoryDrain {
  import opened Common
  import opened Inventory
  import opened InventorySafety
  import opened InventoryCapacity
  import opened InventoryMoves

  function DueRows(holds: seq<Hold>, now: Time): set<nat> {
    set i: nat | i < |holds| && IsDue(holds[i], now)
  }

  predicate Earlier(holds: seq<Hold>, i: nat, j: nat)
    requires i < |holds| && j < |holds|
  {
    holds[i].expiresAt < holds[j].expiresAt || (holds[i].expiresAt == holds[j].expiresAt && i < j)
  }

  /** Every row of the set comes before every due row outside it. */
  ghost predicate ComesFirst(holds: seq<Hold>, rows: set<nat>, now: Time) {
    && rows <= DueRows(holds, now)
    && forall i, j :: i in rows && j in DueRows(holds, now) && j !in rows ==> Earlier(holds, i, j)
  }

  /** A batch: the earliest due rows, as many as the limit allows. */
  ghost predicate Batch(holds: seq<Hold>, rows: set<nat>, now: Time, limit: nat) {
    ComesFirst(holds, rows, now) && |rows| == Min(limit, |DueRows(holds, now)|)
  }

  /** The worker selects rows in these statuses although they may not move to expired. */
  predicate Poisoned(h: Hold) {
    h.status.Created? || h.status.LockingInventory?
  }

  ghost predicate NonePoisoned(holds: seq<Hold>) {
    forall i :: 0 <= i < |holds| ==> !Poisoned(holds[i])
  }

  // ---------------------------------------------------------------------------------------
  //  Where a batch stops
  // ---------------------------------------------------------------------------------------

  /** k is the first poisoned row of the set, or the end. */
  ghost predicate StopsAt(holds: seq<Hold>, rows: set<nat>, k: nat) {
    && k <= |holds|
    && (forall i :: i in rows && i < k ==> !Poisoned(holds[i]))
    && (k < |holds| ==> k in rows && Poisoned(holds[k]))
  }

  /** The due rows among the first k positions may expire. */
  lemma DueRowMayExpire(h: Hold, now: Time)
    requires IsDue(h, now)
    ensures MayBecome(h.status, HoldStatus.Expired) <==> !Poisoned(h)
  {
  }

  lemma TurnCommitsIff(s: State, rows: set<nat>, i: nat, now: Time)
    requires i < |s.holds| && TypesKnown(s) && RowsAllowed(s) && (i in rows ==> IsDue(s.holds[i], now))
    ensures SweepRow(s, ExpireRows(rows), i, now).Committed? <==> (i in rows ==> !Poisoned(s.holds[i]))
  {
    RowCommitsIff(s, ExpireRows(rows), i, now);
    if i in rows {
      DueRowMayExpire(s.holds[i], now);
    }
  }

  /** Every row of the set from i on is due. */
  ghost predicate DueFrom(holds: seq<Hold>, rows: set<nat>, i: nat, now: Time) {
    forall j :: j in rows && j >= i ==> j < |holds| && IsDue(holds[j], now)
  }

  /** The worker's loop, run on a bare connection, expires the rows before the first poisoned one and stops there. */
  lemma {:induction false} StopsAtPoisoned(s: State, rows: set<nat>, i: nat, k: nat, now: Time)
    requires i <= k && TypesKnown(s) && RowsAllowed(s) && DueFrom(s.holds, rows, i, now) && StopsAt(s.holds, rows, k)
    ensures SweepFrom(s, ExpireRows(Before(rows, k)), i, now) == Committed(SweepUntil(s, ExpireRows(rows), i, now))
    decreases |s.holds| - i
  {
    if i == k {
      NoTurnAfter(s, rows, k, now);
      if k < |s.holds| {
        TurnCommitsIff(s, rows, k, now);
      }
    } else {
      TurnCommitsIff(s, rows, i, now);
      SameTurnBefore(s, rows, k, i, now);
      RowKeepsRoomy(s, ExpireRows(rows), i, now);
      var s' := SweepRow(s, ExpireRows(rows), i, now).state;
      RowMovesOne(s, ExpireRows(rows), i, now);
      StopsAtPoisoned(s', rows, i + 1, k, now);
    }
  }

  /** A batch expires exactly its rows before the first poisoned one; all other rows stay as they are. */
  lemma BatchExpiresUpTo(s: State, rows: set<nat>, k: nat, now: Time)
    requires TypesKnown(s) && RowsAllowed(s) && rows <= DueRows(s.holds, now) && StopsAt(s.holds, rows, k)
    ensures SweepFrom(s, ExpireRows(Before(rows, k)), 0, now) == Committed(After(s, Expire(rows, now)))
    ensures Swept(s.holds, After(s, Expire(rows, now)).holds, ExpireRows(Before(rows, k)), 0)
  {
    StopsAtPoisoned(s, rows, 0, k, now);
    SweepMovesExactlyTouched(s, ExpireRows(Before(rows, k)), 0, now);
  }

  lemma {:induction false} StopExists(holds: seq<Hold>, rows: set<nat>, from: nat) returns (k: nat)
    requires from <= |holds| && forall i :: i in rows && i < from ==> !Poisoned(holds[i])
    ensures StopsAt(holds, rows, k)
    decreases |holds| - from
  {
    if from == |holds| || (from in rows && Poisoned(holds[from])) {
      k := from;
    } else {
      k := StopExists(holds, rows, from + 1);
    }
  }

  /** A batch expires all its rows exactly when none of them is poisoned. */
  lemma BatchCompletesIff(s: State, rows: set<nat>, now: Time)
    requires TypesKnown(s) && RowsAllowed(s) && rows <= DueRows(s.holds, now)
    ensures (forall i :: i in rows ==> After(s, Expire(rows, now)).holds[i].status == HoldStatus.Expired)
      <==> (forall i :: i in rows ==> !Poisoned(s.holds[i]))
  {
    var k := StopExists(s.holds, rows, 0);
    BatchExpiresUpTo(s, rows, k, now);
    if k < |s.holds| {
      assert k !in Before(rows, k);
    } else {
      assert Before(rows, k) == rows;
    }
  }

  /** A batch without poisoned rows leaves exactly the other rows due, now and later. */
  lemma BatchLeavesTheRest(s: State, rows: set<nat>, now: Time, later: Time)
    requires TypesKnown(s) && RowsAllowed(s) && rows <= DueRows(s.holds, now) && NonePoisoned(s.holds)
    ensures DueRows(After(s, Expire(rows, now)).holds, later) == DueRows(s.holds, later) - rows
  {
    BatchExpiresUpTo(s, rows, |s.holds|, now);
    assert Before(rows, |s.holds|) == rows;
  }

  // ---------------------------------------------------------------------------------------
  //  What a batch gives back
  // ---------------------------------------------------------------------------------------

  /** What a type's reserved counter says beyond the quantity due; batches do not change it. */
  function NotDue(s: State, now: Time, t: TypeId): int
    requires t in s.types
  {
    s.types[t].reserved - Quantity(s.holds, Due(now), t)
  }

  ghost predicate SameNotDue(s: State, s': State, now: Time) {
    s'.types.Keys == s.types.Keys && forall t :: t in s.types ==> NotDue(s', now, t) == NotDue(s, now, t)
  }

  lemma RowReleasesItsQuantity(s: State, rows: set<nat>, i: nat, now: Time, later: Time, t: TypeId)
    requires i < |s.holds| && TypesKnown(s) && RowsAllowed(s) && t in s.types && Gap(s, t) >= 0
    requires i in rows ==> IsDue(s.holds[i], later)
    requires SweepRow(s, ExpireRows(rows), i, now).Committed?
    ensures NotDue(SweepRow(s, ExpireRows(rows), i, now).state, later, t) == NotDue(s, later, t)
  {
    if i in rows {
      QuantityUpdate(s.holds, i, Moved(s.holds[i], HoldStatus.Expired, now), Due(later), t);
      OneIsPartOfAll(s.holds, i, Open, t);
    }
  }

  /** Expiring rows gives back to each type's reserved counter exactly the quantity that stops being due. */
  lemma {:induction false} BatchReleasesItsQuantity(s: State, rows: set<nat>, i: nat, now: Time, later: Time, t: TypeId)
    requires i <= |s.holds| && TypesKnown(s) && RowsAllowed(s) && t in s.types && Gap(s, t) >= 0
    requires DueFrom(s.holds, rows, i, later)
    requires SweepFrom(s, ExpireRows(rows), i, now).Committed?
    ensures NotDue(SweepFrom(s, ExpireRows(rows), i, now).state, later, t) == NotDue(s, later, t)
    decreases |s.holds| - i
  {
    if i < |s.holds| {
      RowReleasesItsQuantity(s, rows, i, now, later, t);
      RowKeepsGap(s, ExpireRows(rows), i, now, t);
      RowMovesOne(s, ExpireRows(rows), i, now);
      BatchReleasesItsQuantity(SweepRow(s, ExpireRows(rows), i, now).state, rows, i + 1, now, later, t);
    }
  }

  /** What a drain needs at its start, and keeps from batch to batch. */
  ghost predicate Drainable(s: State) {
    TypesKnown(s) && RowsAllowed(s) && HeldIsReserved(s) && NonePoisoned(s.holds)
  }

  lemma BatchKeepsDrainable(s: State, rows: set<nat>, now: Time)
    requires Drainable(s)
    ensures Drainable(After(s, Expire(rows, now)))
  {
    var w := ExpiryIsASweep(s, rows, now);
    var s' := After(s, Expire(rows, now));
    SweepKeepsRows(s, w, 0, now);
    SweepMovesExactlyTouched(s, w, 0, now);
    forall t | t in s'.types ensures Gap(s', t) >= 0 {
      SweepKeepsGap(s, w, 0, now, t);
    }
  }

  lemma BatchGivesBack(s: State, rows: set<nat>, now: Time, later: Time)
    requires Drainable(s) && rows <= DueRows(s.holds, now) && now <= later
    ensures SameNotDue(s, After(s, Expire(rows, now)), later)
  {
    BatchExpiresUpTo(s, rows, |s.holds|, now);
    assert Before(rows, |s.holds|) == rows;
    forall t | t in s.types ensures NotDue(After(s, Expire(rows, now)), later, t) == NotDue(s, later, t) {
      BatchReleasesItsQuantity(s, rows, 0, now, later, t);
    }
  }

  // ---------------------------------------------------------------------------------------
  //  Batch after batch
  // ---------------------------------------------------------------------------------------

  /**
   The state after some batches that expired the given rows, the last of them at the given time: from
   then on exactly the other rows are due, and what stopped being due was given back.
   */
  ghost predicate Drained(before: State, after: State, expired: set<nat>, last: Time) {
    && (forall later :: later >= last ==> DueRows(after.holds, later) == DueRows(before.holds, later) - expired)
    && (forall later :: later >= last ==> SameNotDue(before, after, later))
  }

  lemma BatchDrains(before: State, s: State, expired: set<nat>, last: Time, rows: set<nat>, now: Time)
    requires Drainable(s) && Drained(before, s, expired, last) && last <= now && rows <= DueRows(s.holds, now)
    ensures Drainable(After(s, Expire(rows, now))) && Drained(before, After(s, Expire(rows, now)), expired + rows, now)
  {
    BatchKeepsDrainable(s, rows, now);
    var s' := After(s, Expire(rows, now));
    forall later | later >= now ensures DueRows(s'.holds, later) == DueRows(before.holds, later) - (expired + rows) {
      BatchLeavesTheRest(s, rows, now, later);
    }
    forall later | later >= now ensures SameNotDue(before, s', later) {
      BatchGivesBack(s, rows, now, later);
      assert SameNotDue(before, s, later);
    }
  }

  lemma DueGrows(holds: seq<Hold>, now: Time, later: Time)
    requires now <= later
    ensures DueRows(holds, now) <= DueRows(holds, later)
  {
  }

  /** What was due at the start is expired first: only once all of it is gone does a batch take anything else. */
  ghost predicate StartFirst(holds: seq<Hold>, expired: set<nat>, start: Time) {
    expired <= DueRows(holds, start) || DueRows(holds, start) <= expired
  }

  /**
   What a batch adds to the rows already expired. It is new, was due all along, comes first, and is a
   full batch or all there was.
   */
  lemma BatchCounts(before: State, s: State, expired: set<nat>, last: Time, rows: set<nat>, now: Time, start: Time, limit: nat)
    requires Drained(before, s, expired, last) && start <= now && last <= now && Batch(s.holds, rows, now, limit)
    requires SameTimes(before.holds, s.holds)
    requires expired <= DueRows(before.holds, last) && StartFirst(before.holds, expired, start)
    ensures rows !! expired && expired + rows <= DueRows(before.holds, now) && StartFirst(before.holds, expired + rows, start)
    ensures |rows| == limit || (|rows| < limit && DueRows(before.holds, now) == expired + rows)
  {
    DueGrows(before.holds, last, now);
    DueGrows(before.holds, start, now);
    assert DueRows(s.holds, now) == DueRows(before.holds, now) - expired;
    if !(expired + rows <= DueRows(before.holds, start)) && !(DueRows(before.holds, start) <= expired) {
      var late :| late in expired + rows && late !in DueRows(before.holds, start);
      assert late in rows;
      forall j | j in DueRows(before.holds, start) ensures j in expired + rows {
        if j !in expired && j !in rows {
          LateIsNotEarlier(s.holds, late, j, start);
        }
      }
    }
    if |rows| != limit {
      TakenAll(rows, DueRows(s.holds, now));
    }
  }

  lemma LateIsNotEarlier(holds: seq<Hold>, late: nat, j: nat, start: Time)
    requires late < |holds| && j < |holds| && holds[j].expiresAt <= start < holds[late].expiresAt
    ensures !Earlier(holds, late, j)
  {
  }

  lemma TakenAll(a: set<nat>, b: set<nat>)
    requires a <= b && |a| == |b|
    ensures a == b
  {
    assert |b - a| == |b| - |a|;
  }

  ghost predicate SameTimes(a: seq<Hold>, b: seq<Hold>) {
    |a| == |b| && forall i :: 0 <= i < |a| ==> b[i].expiresAt == a[i].expiresAt
  }

  lemma {:induction false} SweepKeepsTimes(s: State, w: Sweep, i: nat, now: Time)
    requires i <= |s.holds| && TypesKnown(s)
    ensures SameTimes(s.holds, SweepUntil(s, w, i, now).holds)
    decreases |s.holds| - i
  {
    if i < |s.holds| && SweepRow(s, w, i, now).Committed? {
      SweepKeepsTimes(SweepRow(s, w, i, now).state, w, i + 1, now);
    }
  }

  lemma {:induction false} EmptyBatchChangesNothing(s: State, i: nat, now: Time)
    requires i <= |s.holds| && TypesKnown(s)
    ensures SweepUntil(s, ExpireRows({}), i, now) == s
    decreases |s.holds| - i
  {
    if i < |s.holds| {
      EmptyBatchChangesNothing(s, i + 1, now);
    }
  }

  lemma AtLeast(a: set<nat>, b: set<nat>)
    requires a <= b
    ensures |a| <= |b|
  {
    assert |b - a| == |b| - |a|;
  }

  lemma StartIsGone(holds: seq<Hold>, expired: set<nat>, start: Time)
    requires StartFirst(holds, expired, start)
    ensures |expired| >= |DueRows(holds, start)| ==> DueRows(holds, start) <= expired
  {
    if |expired| >= |DueRows(holds, start)| && expired <= DueRows(holds, start) {
      AtLeast(expired, DueRows(holds, start));
      TakenAll(expired, DueRows(holds, start));
    }
  }

  /** How far k batches of a hundred have come. */
  ghost predicate Progress(before: State, s: State, expired: set<nat>, last: Time, start: Time, k: nat) {
    && start <= last && SameTimes(before.holds, s.holds)
    && Drainable(s) && Drained(before, s, expired, last)
    && expired <= DueRows(before.holds, last) && StartFirst(before.holds, expired, start)
    && Min(|DueRows(before.holds, start)|, 100 * k) <= |expired| <= 100 * k
    && (expired == {} ==> s == before)
  }

  /** Nothing is due any more, and as many rows are gone as were due at the start. */
  ghost predicate Finished(before: State, s: State, expired: set<nat>, start: Time, now: Time) {
    |expired| >= |DueRows(before.holds, start)| && DueRows(s.holds, now) == {}
  }

  ghost predicate Ticking(clock: seq<Time>) {
    forall j, k :: 0 <= j <= k < |clock| ==> clock[j] <= clock[k]
  }

  lemma ProgressStarts(s: State, start: Time)
    requires Drainable(s)
    ensures Progress(s, s, {}, start, start, 0)
  {
  }

  /**
   What a drain has done when it stops. The expired rows are no longer due and all others are as due
   as before; what stopped being due was given back. What was due at the start went first and is all
   gone if it was at most five thousand. Nothing is due any more, or the clock was read fifty times.
   A drain that found nothing changed nothing.
   */
  ghost predicate DrainEnds(before: State, s: State, expired: set<nat>, start: Time, last: Time, end: Time) {
    && Drainable(s) && Drained(before, s, expired, last) && expired <= DueRows(before.holds, last)
    && Min(|DueRows(before.holds, start)|, 5000) <= |expired| <= 5000
    && (|DueRows(before.holds, start)| <= 5000 ==> DueRows(before.holds, start) <= expired)
    && (DueRows(s.holds, last) == {} || last == end)
    && (expired == {} ==> s == before)
  }

  lemma ProgressEnds(before: State, s: State, expired: set<nat>, last: Time, start: Time, k: nat, end: Time)
    requires Progress(before, s, expired, last, start, k) && k <= 50
    requires (k == 50 && last == end) || Finished(before, s, expired, start, last)
    ensures DrainEnds(before, s, expired, start, last, end)
  {
    StartIsGone(before.holds, expired, start);
  }

  lemma Together(a: set<nat>, b: set<nat>)
    requires a !! b
    ensures |a + b| == |a| + |b|
  {
  }

  lemma BatchAddsUp(holds: seq<Hold>, expired: set<nat>, rows: set<nat>, start: Time, now: Time, k: nat)
    requires rows !! expired && start <= now
    requires |rows| == 100 || (|rows| < 100 && DueRows(holds, now) == expired + rows)
    requires Min(|DueRows(holds, start)|, 100 * k) <= |expired| <= 100 * k
    ensures |expired + rows| == |expired| + |rows|
    ensures Min(|DueRows(holds, start)|, 100 * (k + 1)) <= |expired + rows| <= 100 * (k + 1)
    ensures rows == {} ==> |expired + rows| >= |DueRows(holds, start)|
  {
    DueGrows(holds, start, now);
    AtLeast(DueRows(holds, start), DueRows(holds, now));
    Together(expired, rows);
    assert rows == {} ==> expired + rows == expired;
  }

  /** One batch more; an empty one means that nothing is due and everything due at the start is gone. */
  lemma BatchProgress(before: State, s: State, expired: set<nat>, last: Time, start: Time, k: nat, rows: set<nat>, now: Time)
    requires Progress(before, s, expired, last, start, k) && last <= now && Batch(s.holds, rows, now, 100)
    ensures |expired + rows| == |expired| + |rows|
    ensures Progress(before, After(s, Expire(rows, now)), expired + rows, now, start, k + 1)
    ensures rows == {} ==> Finished(before, After(s, Expire(rows, now)), expired + rows, start, now)
  {
    BatchDrains(before, s, expired, last, rows, now);
    BatchCounts(before, s, expired, last, rows, now, start, 100);
    BatchAddsUp(before.holds, expired, rows, start, now, k);
    SweepKeepsTimes(s, ExpireRows(rows), 0, now);
    if expired + rows == {} {
      assert rows == {} && expired == {};
      EmptyBatchChangesNothing(s, 0, now);
    }
  }

  // ---------------------------------------------------------------------------------------
  //  No run poisons a hold
  // ---------------------------------------------------------------------------------------

  lemma SweepKeepsUnpoisoned(s: State, w: Sweep, now: Time)
    requires TypesKnown(s) && NonePoisoned(s.holds) && SweepFrom(s, w, 0, now).Committed?
    ensures NonePoisoned(SweepFrom(s, w, 0, now).state.holds)
  {
    SweepMovesExactlyTouched(s, w, 0, now);
  }

  lemma CreateKeepsUnpoisoned(s: State, items: seq<Item>, status: OrderStatus, expiresAt: Time, seen: map<TypeId, int>, now: Time)
    requires Sound(s) && NonePoisoned(s.holds)
    requires CreateOrder(s, items, status, expiresAt, seen, now).Committed?
    ensures NonePoisoned(CreateOrder(s, items, status, expiresAt, seen, now).state.holds)
  {
    var o := |s.orders|;
    var s0 := s.(orders := s.orders + [Order(status, items, false)]);
    InsertAppends(s0, Some(o), OrderLines(o, items), expiresAt);
    var s1 := InsertFrom(s0, Some(o), OrderLines(o, items), expiresAt).state;
    assert NonePoisoned(s1.holds);
    if status == Confirmed {
      SweepKeepsUnpoisoned(s1, ConvertOrder(o), now);
    }
  }

  lemma UpdateKeepsUnpoisoned(s: State, o: OrderId, next: OrderStatus, now: Time)
    requires Sound(s) && NonePoisoned(s.holds) && UpdateOrder(s, o, next, now).Committed?
    ensures NonePoisoned(UpdateOrder(s, o, next, now).state.holds)
  {
    UpdateBranches(s, o, next, now);
    if !Terminal(s.orders[o].status) && Terminal(next) {
      SweepKeepsUnpoisoned(WithStatus(s, o, next), ReleaseOrder(o), now);
    } else if next == Confirmed && s.orders[o].status != Confirmed {
      SweepKeepsUnpoisoned(WithStatus(s, o, next), ConvertOrder(o), now);
    }
  }

  /** Deleting an order, refunding it, or declining its payment. */
  lemma ClosingKeepsUnpoisoned(s: State, op: Op)
    requires Sound(s) && NonePoisoned(s.holds) && (op.Delete? || op.Refund? || op.Fail?)
    ensures NonePoisoned(After(s, op).holds)
  {
    if Attempt(s, op).Committed? && op.order < |s.orders| {
      var s0 := s.(orders := After(s, op).orders);
      if SweepFrom(s0, ReleaseOrder(op.order), 0, op.at).Committed? {
        SweepKeepsUnpoisoned(s0, ReleaseOrder(op.order), op.at);
      }
    }
  }

  lemma PaymentKeepsUnpoisoned(s: State, o: OrderId, outcome: HoldStatus, now: Time)
    requires Sound(s) && NonePoisoned(s.holds) && ConfirmPayment(s, o, outcome, now).Committed?
    ensures NonePoisoned(ConfirmPayment(s, o, outcome, now).state.holds)
  {
    PaymentBranches(s, o, outcome, now);
    if OnTime(s, o, now) {
      SweepKeepsUnpoisoned(SettledByPayment(s, o), BookOrder(o), now);
    } else {
      RefundSetsAside(ExpiredByPayment(s, o), o, 0, outcome, now);
    }
  }

  lemma StepKeepsUnpoisoned(s: State, op: Op)
    requires Sound(s) && NonePoisoned(s.holds)
    ensures NonePoisoned(After(s, op).holds)
  {
    if Attempt(s, op).Committed? {
      match op
      case Create(items, status, expiresAt, seen, at) => CreateKeepsUnpoisoned(s, items, status, expiresAt, seen, at);
      case ReserveLoose(lines, expiresAt, seen) => InsertAppends(s, None, lines, expiresAt);
      case Update(o, next, at) => UpdateKeepsUnpoisoned(s, o, next, at);
      case Delete(_, _) => ClosingKeepsUnpoisoned(s, op);
      case Confirm(o, outcome, at) => PaymentKeepsUnpoisoned(s, o, outcome, at);
      case Coin(o, read, at) => CoinBooks(WithStatus(s, o, Paid), o, 0, at);
      case Refund(_, _, _) => ClosingKeepsUnpoisoned(s, op);
      case Fail(_, _) => ClosingKeepsUnpoisoned(s, op);
      case Expire(rows, at) =>
        var w := ExpiryIsASweep(s, rows, at);
        SweepKeepsUnpoisoned(s, w, at);
      case Extend(o, seconds, at) => ExtensionProlongs(s, o, 0, seconds, at);
      case Repair(_, _, _) =>
      case Edit(_, _, _, _) =>
      case Add(_, _, _, _) =>
    }
  }

  lemma {:induction false} RunKeepsUnpoisoned(s: State, ops: seq<Op>)
    requires Sound(s) && NonePoisoned(s.holds)
    ensures NonePoisoned(Execute(s, ops).holds)
    decreases |ops|
  {
    if ops != [] {
      StepKeepsSound(s, ops[0]);
      StepKeepsUnpoisoned(s, ops[0]);
      RunKeepsUnpoisoned(After(s, ops[0]), ops[1..]);
    }
  }

  /** After any run, disciplined or not, a batch of the expiry worker expires all its rows and leaves exactly the others due. */
  lemma WorkerNeverStuck(s: State, ops: seq<Op>, rows: set<nat>, now: Time)
    requires Fresh(s) && Sound(s) && rows <= DueRows(Execute(s, ops).holds, now)
    ensures var s' := Execute(s, ops);
      && (forall i :: i in rows ==> After(s', Expire(rows, now)).holds[i].status == HoldStatus.Expired)
      && DueRows(After(s', Expire(rows, now)).holds, now) == DueRows(s'.holds, now) - rows
  {
    RunKeepsUnpoisoned(s, ops);
    var s' := Execute(s, ops);
    BatchCompletesIff(s', rows, now);
    BatchLeavesTheRest(s', rows, now, now);
  }
}
