/**
 What each operation does when it is accepted: which holds and which order change and how, and by
 exactly how much each ticket type's counters move. Everything not named stays as it was.
 */
module InventoryEffects {
  import opened Common
  import opened Inventory
  import opened InventorySafety
  import opened InventoryCapacity
  import opened InventoryMoves

  // ---------------------------------------------------------------------------------------
  //  Sweeps
  // ---------------------------------------------------------------------------------------

  /** The holds an order sweep takes out of the open ones are all the open ones of the order. */
  predicate Leaves(w: Sweep, i: nat, h: Hold) {
    IsOpen(h.status) && if w.ExpireRows? then i in w.rows else h.order == Some(w.order)
  }

  /** The quantity of a type that a sweep takes out of the open holds, from row i on. */
  function Leaving(holds: seq<Hold>, w: Sweep, i: nat, t: TypeId): nat
    decreases |holds| - i
  {
    if i >= |holds| then 0
    else (if holds[i].typeId == t && Leaves(w, i, holds[i]) then holds[i].quantity else 0) + Leaving(holds, w, i + 1, t)
  }

  lemma {:induction false} LeavingIsOpenOf(holds: seq<Hold>, w: Sweep, i: nat, t: TypeId)
    requires i <= |holds| && !w.ExpireRows?
    ensures Leaving(holds, w, i, t) == Quantity(holds[i..], OpenOf(w.order), t)
    decreases |holds| - i
  {
    if i < |holds| {
      QuantityStep(holds, OpenOf(w.order), i, t);
      LeavingIsOpenOf(holds, w, i + 1, t);
    }
  }

  lemma {:induction false} LaterLeaving(a: seq<Hold>, b: seq<Hold>, w: Sweep, i: nat, t: TypeId)
    requires |a| == |b| && forall j :: i <= j < |a| ==> a[j] == b[j]
    ensures Leaving(a, w, i, t) == Leaving(b, w, i, t)
    decreases |a| - i
  {
    if i < |a| {
      LaterLeaving(a, b, w, i + 1, t);
    }
  }

  /** What a change of d in a type's open quantity does to its reserved counter, which stops at zero. */
  function Follow(reserved: int, d: int): int {
    if d < 0 then Max(0, reserved + d) else reserved + d
  }

  /** A hold that changes status, closing or opening again, takes the reserved counter with it, and nothing else of the row unless it is sold. */
  lemma MoveFollowsOpen(s: State, i: nat, to: HoldStatus, now: Time, t: TypeId)
    requires i < |s.holds| && TypesKnown(s) && RowsAllowed(s) && t in s.types && MoveHold(s, i, to, now).Committed?
    ensures var s' := MoveHold(s, i, to, now).state;
      && t in s'.types && s'.types[t].total == s.types[t].total
      && s'.types[t].reserved == Follow(s.types[t].reserved, Quantity(s'.holds, Open, t) - Quantity(s.holds, Open, t))
      && (!IsSold(to) ==> s'.types[t].sold == s.types[t].sold)
  {
    assert RowAllowed(s.types[t]);
    QuantityUpdate(s.holds, i, Moved(s.holds[i], to, now), Open, t);
  }

  lemma RowCounts(s: State, w: Sweep, i: nat, now: Time, t: TypeId)
    requires i < |s.holds| && TypesKnown(s) && RowsAllowed(s) && t in s.types && SweepRow(s, w, i, now).Committed?
    ensures var s' := SweepRow(s, w, i, now).state;
      var q := if s.holds[i].typeId == t && Leaves(w, i, s.holds[i]) then s.holds[i].quantity else 0;
      && s'.types[t].total == s.types[t].total
      && s'.types[t].reserved == Max(0, s.types[t].reserved - q)
  {
    assert RowAllowed(s.types[t]);
  }

  /** A type's row once a sweep from row i on is through with it. */
  function CountersAfterSweep(s: State, w: Sweep, i: nat, t: TypeId): TicketType
    requires i <= |s.holds| && t in s.types
  {
    TicketType(s.types[t].total, s.types[t].sold + SoldBy(s.holds[i..], w, t), Max(0, s.types[t].reserved - Leaving(s.holds, w, i, t)))
  }

  lemma RowThenRest(s: State, w: Sweep, i: nat, now: Time, t: TypeId)
    requires i < |s.holds| && TypesKnown(s) && RowsAllowed(s) && t in s.types && SweepRow(s, w, i, now).Committed?
    ensures RowsAllowed(SweepRow(s, w, i, now).state)
    ensures CountersAfterSweep(SweepRow(s, w, i, now).state, w, i + 1, t) == CountersAfterSweep(s, w, i, t)
  {
    var s1 := SweepRow(s, w, i, now).state;
    RowCounts(s, w, i, now, t);
    RowKeepsGap(s, w, i, now, t);
    RowMovesOne(s, w, i, now);
    LaterLeaving(s.holds, s1.holds, w, i + 1, t);
    assert RowAllowed(s.types[t]);
  }

  /** A sweep takes off each reserved counter, down to zero, exactly what stops being open, and adds to sold exactly what it sells. */
  lemma {:induction false} SweepCounts(s: State, w: Sweep, i: nat, now: Time, t: TypeId)
    requires i <= |s.holds| && TypesKnown(s) && RowsAllowed(s) && t in s.types && SweepFrom(s, w, i, now).Committed?
    ensures SweepFrom(s, w, i, now).state.types[t] == CountersAfterSweep(s, w, i, t)
    decreases |s.holds| - i
  {
    if i == |s.holds| {
      assert RowAllowed(s.types[t]);
    } else {
      RowThenRest(s, w, i, now, t);
      SweepCounts(SweepRow(s, w, i, now).state, w, i + 1, now, t);
    }
  }

  /** The row as a sweep leaves it. */
  function Turned(w: Sweep, i: nat, h: Hold, now: Time): Hold {
    if Touches(w, i, h) && h.status != Target(w) then Moved(h, Target(w), now) else h
  }

  lemma {:induction false} SweepTurns(s: State, w: Sweep, i: nat, now: Time)
    requires i <= |s.holds| && TypesKnown(s) && SweepFrom(s, w, i, now).Committed?
    ensures var holds := SweepFrom(s, w, i, now).state.holds;
      |holds| == |s.holds| && forall j :: 0 <= j < |holds| ==> holds[j] == if j >= i then Turned(w, j, s.holds[j], now) else s.holds[j]
    decreases |s.holds| - i
  {
    if i < |s.holds| {
      SweepTurns(SweepRow(s, w, i, now).state, w, i + 1, now);
    }
  }

  // ---------------------------------------------------------------------------------------
  //  Closing an order
  // ---------------------------------------------------------------------------------------

  /** Only the given order changed, to the given row. */
  predicate OrderBecomes(s: State, s': State, o: OrderId, order: Order) {
    o < |s.orders| && s'.orders == s.orders[o := order]
  }

  /** A hold of the order that was not released before is released now; any other stays as it is. */
  function ReleasedFor(h: Hold, o: OrderId, now: Time): Hold {
    if h.order == Some(o) && !IsReleased(h.status) then h.(status := Released, releasedAt := Some(now)) else h
  }

  ghost predicate HoldsReleased(s: State, s': State, o: OrderId, now: Time) {
    |s'.holds| == |s.holds| && forall i :: 0 <= i < |s.holds| ==> s'.holds[i] == ReleasedFor(s.holds[i], o, now)
  }

  /** The type's reserved counter has fallen by what was open of the order, down to zero; nothing else of the row has moved. */
  predicate RowGivenBack(s: State, s': State, o: OrderId, t: TypeId) {
    && t in s.types && t in s'.types
    && s'.types[t] == s.types[t].(reserved := Max(0, s.types[t].reserved - Quantity(s.holds, OpenOf(o), t)))
  }

  ghost predicate GivenBack(s: State, s': State, o: OrderId) {
    s'.types.Keys == s.types.Keys && forall t :: t in s.types ==> RowGivenBack(s, s', o, t)
  }

  ghost predicate ClosedAs(s: State, s': State, o: OrderId, order: Order, now: Time) {
    OrderBecomes(s, s', o, order) && HoldsReleased(s, s', o, now) && GivenBack(s, s', o)
  }

  lemma ReleaseGivesBack(s: State, o: OrderId, order: Order, now: Time)
    requires TypesKnown(s) && RowsAllowed(s) && o < |s.orders|
    requires TypesKnown(s.(orders := s.orders[o := order]))
    requires SweepFrom(s.(orders := s.orders[o := order]), ReleaseOrder(o), 0, now).Committed?
    ensures ClosedAs(s, SweepFrom(s.(orders := s.orders[o := order]), ReleaseOrder(o), 0, now).state, o, order, now)
  {
    var s0 := s.(orders := s.orders[o := order]);
    var s' := SweepFrom(s0, ReleaseOrder(o), 0, now).state;
    SweepTurns(s0, ReleaseOrder(o), 0, now);
    forall t | t in s.types ensures RowGivenBack(s, s', o, t) {
      ReleaseRow(s0, o, now, t);
    }
  }

  lemma ReleaseRow(s: State, o: OrderId, now: Time, t: TypeId)
    requires TypesKnown(s) && RowsAllowed(s) && t in s.types && SweepFrom(s, ReleaseOrder(o), 0, now).Committed?
    ensures RowGivenBack(s, SweepFrom(s, ReleaseOrder(o), 0, now).state, o, t)
  {
    SweepCounts(s, ReleaseOrder(o), 0, now, t);
    LeavingIsOpenOf(s.holds, ReleaseOrder(o), 0, t);
    assert s.holds[0..] == s.holds;
  }

  /** Cancelling an order, or letting it expire, gives its tickets back: all that were open, and no others. */
  lemma CancellingGivesBack(s: State, o: OrderId, next: OrderStatus, now: Time)
    requires Sound(s) && UpdateOrder(s, o, next, now).Committed? && Terminal(next) && !Terminal(s.orders[o].status)
    ensures ClosedAs(s, UpdateOrder(s, o, next, now).state, o, s.orders[o].(status := next), now)
  {
    UpdateBranches(s, o, next, now);
    ReleaseGivesBack(s, o, s.orders[o].(status := next), now);
  }

  /**
   An order can be deleted exactly when it exists, has not been deleted, and is closed or has only
   holds that may be released. It ends up cancelled; if it was not closed its tickets are given back.
   */
  lemma DeletingGivesBack(s: State, o: OrderId, now: Time)
    requires Sound(s)
    ensures DeleteOrder(s, o, now).Committed? <==>
      o < |s.orders| && !s.orders[o].deleted && (Terminal(s.orders[o].status) || MayRelease(s, o))
    ensures DeleteOrder(s, o, now).Committed? ==>
      var s' := DeleteOrder(s, o, now).state;
      var order := Order(OrderStatus.Cancelled, s.orders[o].items, true);
      if Terminal(s.orders[o].status) then OrderBecomes(s, s', o, order) && s'.holds == s.holds && s'.types == s.types
      else ClosedAs(s, s', o, order, now)
  {
    if o < |s.orders| && !s.orders[o].deleted {
      var order := s.orders[o].(status := OrderStatus.Cancelled, deleted := true);
      var s0 := s.(orders := s.orders[o := order]);
      ReleaseCommitsIff(s0, o, now);
      assert MayRelease(s0, o) == MayRelease(s, o);
      if DeleteOrder(s, o, now).Committed? && !Terminal(s.orders[o].status) {
        ReleaseGivesBack(s, o, order, now);
      }
    }
  }

  /** A refund is recorded on any order; a full one also needs holds that may be released, and gives the tickets back. */
  lemma RefundingGivesBack(s: State, o: OrderId, full: bool, now: Time)
    requires Sound(s)
    ensures RefundOrder(s, o, full, now).Committed? <==> o < |s.orders| && (full ==> MayRelease(s, o))
    ensures RefundOrder(s, o, full, now).Committed? ==>
      var s' := RefundOrder(s, o, full, now).state;
      if full then ClosedAs(s, s', o, s.orders[o].(status := OrderStatus.Refunded), now)
      else OrderBecomes(s, s', o, s.orders[o].(status := PartiallyRefunded)) && s'.holds == s.holds && s'.types == s.types
  {
    if o < |s.orders| && full {
      var order := s.orders[o].(status := OrderStatus.Refunded);
      ReleaseCommitsIff(WithStatus(s, o, OrderStatus.Refunded), o, now);
      assert MayRelease(WithStatus(s, o, OrderStatus.Refunded), o) == MayRelease(s, o);
      if RefundOrder(s, o, full, now).Committed? {
        ReleaseGivesBack(s, o, order, now);
      }
    }
  }

  /** A declined payment leaves a settled order alone, and cancels any other as long as its holds may be released. */
  lemma DecliningGivesBack(s: State, o: OrderId, now: Time)
    requires Sound(s)
    ensures FailPayment(s, o, now).Committed? <==> (o < |s.orders| && !Settled(s.orders[o].status) ==> MayRelease(s, o))
    ensures FailPayment(s, o, now).Committed? ==>
      var s' := FailPayment(s, o, now).state;
      if o < |s.orders| && !Settled(s.orders[o].status) then ClosedAs(s, s', o, s.orders[o].(status := OrderStatus.Cancelled), now)
      else s' == s
  {
    if o < |s.orders| && !Settled(s.orders[o].status) {
      var order := s.orders[o].(status := OrderStatus.Cancelled);
      ReleaseCommitsIff(WithStatus(s, o, OrderStatus.Cancelled), o, now);
      assert MayRelease(WithStatus(s, o, OrderStatus.Cancelled), o) == MayRelease(s, o);
      if FailPayment(s, o, now).Committed? {
        ReleaseGivesBack(s, o, order, now);
      }
    }
  }

  // ---------------------------------------------------------------------------------------
  //  Selling an order
  // ---------------------------------------------------------------------------------------

  /** In the type's row, what was open of the order has left reserved, and what was not sold of it has joined sold. */
  predicate RowSells(s: State, s': State, o: OrderId, t: TypeId) {
    && t in s.types && t in s'.types
    && s'.types[t] == s.types[t].(sold := s.types[t].sold + Quantity(s.holds, Unsold(o), t),
                                  reserved := Max(0, s.types[t].reserved - Quantity(s.holds, OpenOf(o), t)))
  }

  ghost predicate HeldToSold(s: State, s': State, o: OrderId) {
    s'.types.Keys == s.types.Keys && forall t :: t in s.types ==> RowSells(s, s', o, t)
  }

  /** A hold of the order that was not sold before is now, in the given status; any other stays as it is. */
  function SoldFor(h: Hold, o: OrderId, status: HoldStatus, now: Time): Hold {
    if h.order == Some(o) && !IsSold(h.status) then h.(status := status, convertedAt := Some(now)) else h
  }

  ghost predicate HoldsSold(s: State, s': State, o: OrderId, status: HoldStatus, now: Time) {
    |s'.holds| == |s.holds| && forall i :: 0 <= i < |s.holds| ==> s'.holds[i] == SoldFor(s.holds[i], o, status, now)
  }

  lemma SellingRow(s: State, w: Sweep, now: Time, t: TypeId)
    requires (w.ConvertOrder? || w.BookOrder?) && TypesKnown(s) && RowsAllowed(s) && SweepFrom(s, w, 0, now).Committed?
    requires t in s.types
    ensures RowSells(s, SweepFrom(s, w, 0, now).state, w.order, t)
  {
    assert s.holds[0..] == s.holds;
    SweepCounts(s, w, 0, now, t);
    LeavingIsOpenOf(s.holds, w, 0, t);
  }

  lemma SellingCounts(s: State, w: Sweep, now: Time)
    requires (w.ConvertOrder? || w.BookOrder?) && TypesKnown(s) && RowsAllowed(s) && SweepFrom(s, w, 0, now).Committed?
    ensures HeldToSold(s, SweepFrom(s, w, 0, now).state, w.order)
  {
    forall t | t in s.types ensures RowSells(s, SweepFrom(s, w, 0, now).state, w.order, t) {
      SellingRow(s, w, now, t);
    }
  }

  lemma SellingTurns(s: State, w: Sweep, now: Time)
    requires (w.ConvertOrder? || w.BookOrder?) && TypesKnown(s) && SweepFrom(s, w, 0, now).Committed?
    ensures HoldsSold(s, SweepFrom(s, w, 0, now).state, w.order, if w.BookOrder? then Booked else Converted, now)
  {
    SweepTurns(s, w, 0, now);
    SweepMovesExactlyTouched(s, w, 0, now);
  }

  /** The counters and the holds do not depend on what the order's row says. */
  lemma SellingFrom(s: State, s0: State, s': State, o: OrderId, status: HoldStatus, now: Time)
    requires s0.types == s.types && s0.holds == s.holds && HeldToSold(s0, s', o) && HoldsSold(s0, s', o, status, now)
    ensures HeldToSold(s, s', o) && HoldsSold(s, s', o, status, now)
  {
    forall t | t in s.types ensures RowSells(s, s', o, t) {
      assert RowSells(s0, s', o, t);
    }
  }

  /** Confirming an order converts what is not sold of it; any other change that closes nothing is written and no more. */
  lemma ConfirmingSells(s: State, o: OrderId, next: OrderStatus, now: Time)
    requires Sound(s) && UpdateOrder(s, o, next, now).Committed? && (Terminal(s.orders[o].status) || !Terminal(next))
    ensures OrderBecomes(s, UpdateOrder(s, o, next, now).state, o, s.orders[o].(status := next))
    ensures var s' := UpdateOrder(s, o, next, now).state;
      if next == Confirmed && s.orders[o].status != Confirmed then HeldToSold(s, s', o) && HoldsSold(s, s', o, Converted, now)
      else s'.types == s.types && s'.holds == s.holds
  {
    UpdateBranches(s, o, next, now);
    if next == Confirmed && s.orders[o].status != Confirmed {
      var s0 := WithStatus(s, o, Confirmed);
      SellingCounts(s0, ConvertOrder(o), now);
      SellingTurns(s0, ConvertOrder(o), now);
      SellingFrom(s, s0, UpdateOrder(s, o, next, now).state, o, Converted, now);
    }
  }

  /** A payment that is accepted in time books every hold, and makes the order paid unless it was settled already. */
  lemma PaymentSells(s: State, o: OrderId, outcome: HoldStatus, now: Time)
    requires Sound(s) && ConfirmPayment(s, o, outcome, now).Committed? && OnTime(s, o, now)
    ensures var s' := ConfirmPayment(s, o, outcome, now).state;
      && HeldToSold(s, s', o) && HoldsSold(s, s', o, Booked, now)
      && o < |s.orders|
      && (if Settled(s.orders[o].status) then s'.orders == s.orders
          else OrderBecomes(s, s', o, Order(Paid, s.orders[o].items, s.orders[o].deleted)))
  {
    PaymentBranches(s, o, outcome, now);
    var s0 := SettledByPayment(s, o);
    SellingCounts(s0, BookOrder(o), now);
    SellingTurns(s0, BookOrder(o), now);
    SellingFrom(s, s0, ConfirmPayment(s, o, outcome, now).state, o, Booked, now);
    assert Settled(s.orders[o].status) ==> s0.orders == s.orders;
  }

  // ---------------------------------------------------------------------------------------
  //  Coins
  // ---------------------------------------------------------------------------------------

  /** A hold of the order is booked, sold before or not; any other stays as it is. */
  function BookedFor(h: Hold, o: OrderId, now: Time): Hold {
    if h.order == Some(o) then h.(status := Booked, convertedAt := Some(now)) else h
  }

  lemma {:induction false} CoinTurns(s: State, o: OrderId, i: nat, now: Time)
    requires i <= |s.holds| && TypesKnown(s) && CoinFrom(s, o, i, now).Committed?
    ensures var holds := CoinFrom(s, o, i, now).state.holds;
      |holds| == |s.holds| && forall j :: 0 <= j < |holds| ==> holds[j] == if j >= i then BookedFor(s.holds[j], o, now) else s.holds[j]
    decreases |s.holds| - i
  {
    if i < |s.holds| {
      CoinTurns(CoinRow(s, o, i, now).state, o, i + 1, now);
    }
  }

  /** An accepted coin checkout makes the order paid and books its holds; no other order and no other hold changes. */
  lemma CoinsBook(s: State, o: OrderId, read: OrderStatus, now: Time)
    requires Sound(s) && CoinCheckout(s, o, read, now).Committed?
    ensures var s' := CoinCheckout(s, o, read, now).state;
      && o < |s.orders| && OrderBecomes(s, s', o, Order(Paid, s.orders[o].items, s.orders[o].deleted))
      && |s'.holds| == |s.holds| && (forall i :: 0 <= i < |s.holds| ==> s'.holds[i] == BookedFor(s.holds[i], o, now))
  {
    CoinTurns(WithStatus(s, o, Paid), o, 0, now);
  }

  // ---------------------------------------------------------------------------------------
  //  A late payment
  // ---------------------------------------------------------------------------------------

  /** A hold of the order is at the outcome, released now unless it had expired before; any other stays as it is. */
  function SetAsideFor(h: Hold, o: OrderId, outcome: HoldStatus, now: Time): Hold {
    if h.order == Some(o) then h.(status := outcome, releasedAt := if h.status.Expired? then h.releasedAt else Some(now)) else h
  }

  ghost predicate HoldsSetAside(s: State, s': State, o: OrderId, outcome: HoldStatus, now: Time) {
    |s'.holds| == |s.holds| && forall i :: 0 <= i < |s.holds| ==> s'.holds[i] == SetAsideFor(s.holds[i], o, outcome, now)
  }

  lemma {:induction false} RefundTurns(s: State, o: OrderId, i: nat, outcome: HoldStatus, now: Time)
    requires i <= |s.holds| && RefundFrom(s, o, i, outcome, now).Committed?
    ensures var holds := RefundFrom(s, o, i, outcome, now).state.holds;
      && |holds| == |s.holds|
      && forall j :: 0 <= j < |holds| ==> holds[j] == if j >= i then SetAsideFor(s.holds[j], o, outcome, now) else s.holds[j]
    decreases |s.holds| - i
  {
    if i < |s.holds| {
      RefundTurns(RefundRow(s, o, i, outcome, now).state, o, i + 1, outcome, now);
    }
  }

  /** A late payment expires the order and sets its holds aside; no counter moves. */
  lemma LatePaymentExpires(s: State, o: OrderId, outcome: HoldStatus, now: Time)
    requires Sound(s) && ConfirmPayment(s, o, outcome, now).Committed? && !OnTime(s, o, now)
    ensures var s' := ConfirmPayment(s, o, outcome, now).state;
      && o < |s.orders| && OrderBecomes(s, s', o, s.orders[o].(status := OrderStatus.Expired))
      && HoldsSetAside(s, s', o, outcome, now) && s'.types == s.types
  {
    PaymentBranches(s, o, outcome, now);
    RefundTurns(ExpiredByPayment(s, o), o, 0, outcome, now);
  }

  // ---------------------------------------------------------------------------------------
  //  Expiry
  // ---------------------------------------------------------------------------------------

  lemma ExpiryIsWhole(s: State, rows: set<nat>, now: Time)
    requires TypesKnown(s) && RowsAllowed(s)
    requires forall i :: i in rows && i < |s.holds| ==> MayBecome(s.holds[i].status, HoldStatus.Expired)
    ensures SweepFrom(s, ExpireRows(rows), 0, now) == Committed(After(s, Expire(rows, now)))
  {
    var w := ExpireRows(rows);
    forall j | 0 <= j < |s.holds| ensures RowPermitted(s, w, j) {
    }
    SweepCommitsIff(s, w, 0, now);
    WholeSweepIsTheSweep(s, w, 0, now);
  }

  function ExpiredBy(h: Hold, i: nat, rows: set<nat>, now: Time): Hold {
    if i in rows && !h.status.Expired? then h.(status := HoldStatus.Expired, releasedAt := Some(now)) else h
  }

  /** Rows that may all expire do, and the reserved counters fall by what was open of them. */
  lemma ExpiryGivesBack(s: State, rows: set<nat>, now: Time, t: TypeId)
    requires TypesKnown(s) && RowsAllowed(s) && t in s.types
    requires forall i :: i in rows && i < |s.holds| ==> MayBecome(s.holds[i].status, HoldStatus.Expired)
    ensures var s' := After(s, Expire(rows, now));
      && s'.orders == s.orders && |s'.holds| == |s.holds| && s'.types.Keys == s.types.Keys
      && (forall i :: 0 <= i < |s.holds| ==> s'.holds[i] == ExpiredBy(s.holds[i], i, rows, now))
      && s'.types[t] == s.types[t].(reserved := Max(0, s.types[t].reserved - Leaving(s.holds, ExpireRows(rows), 0, t)))
  {
    var w := ExpireRows(rows);
    ExpiryIsWhole(s, rows, now);
    SweepCounts(s, w, 0, now, t);
    SweepTurns(s, w, 0, now);
  }

  // ---------------------------------------------------------------------------------------
  //  New holds
  // ---------------------------------------------------------------------------------------

  /** The holds that lines with unused tokens become. */
  function HoldsFor(order: Option<OrderId>, lines: seq<Line>, expiresAt: Time): (holds: seq<Hold>)
    ensures |holds| == |lines|
  {
    seq(|lines|, k requires 0 <= k < |lines| =>
      Hold(lines[k].typeId, order, lines[k].token, lines[k].quantity, Active, expiresAt, None, None, 0))
  }

  function LineQuantity(lines: seq<Line>, t: TypeId): nat {
    if lines == [] then 0 else (if lines[0].typeId == t then lines[0].quantity else 0) + LineQuantity(lines[1..], t)
  }

  /** The lines' tokens are unused and all different. */
  ghost predicate Unused(holds: seq<Hold>, lines: seq<Line>) {
    && (forall k :: 0 <= k < |lines| ==> !TokenTaken(holds, lines[k].token))
    && (forall j, k :: 0 <= j < k < |lines| ==> lines[j].token != lines[k].token)
  }

  /** Lines with unused tokens become active holds, one each, and each reserved counter grows by what they take of its type. */
  lemma {:induction false} InsertAdds(s: State, order: Option<OrderId>, lines: seq<Line>, expiresAt: Time)
    requires LinesKnown(s, lines) && Unused(s.holds, lines) && InsertFrom(s, order, lines, expiresAt).Committed?
    ensures var s' := InsertFrom(s, order, lines, expiresAt).state;
      && s'.holds == s.holds + HoldsFor(order, lines, expiresAt)
      && s'.orders == s.orders && s'.types.Keys == s.types.Keys
      && forall t :: t in s.types ==> s'.types[t] == s.types[t].(reserved := s.types[t].reserved + LineQuantity(lines, t))
    decreases |lines|
  {
    if lines != [] {
      var r := InsertLine(s, order, lines[0], expiresAt).state;
      assert LinesKnown(r, lines[1..]);
      forall k | 0 <= k < |lines[1..]| ensures !TokenTaken(r.holds, lines[1..][k].token) {
        assert lines[1..][k] == lines[k + 1];
      }
      InsertAdds(r, order, lines[1..], expiresAt);
      assert HoldsFor(order, lines, expiresAt) == [NewHold(lines[0], order, expiresAt)] + HoldsFor(order, lines[1..], expiresAt);
    }
  }

  /** Every type's row has room for what the lines take of it. */
  ghost predicate RoomForLines(s: State, lines: seq<Line>) {
    forall t :: t in s.types ==> LineQuantity(lines, t) <= Slack(s, t)
  }

  lemma RoomForRest(s: State, order: Option<OrderId>, lines: seq<Line>, expiresAt: Time)
    requires lines != [] && LinesKnown(s, lines) && !TokenTaken(s.holds, lines[0].token)
    requires InsertLine(s, order, lines[0], expiresAt).Committed?
    ensures RoomForLines(InsertLine(s, order, lines[0], expiresAt).state, lines[1..]) <==> RoomForLines(s, lines)
  {
    var r := InsertLine(s, order, lines[0], expiresAt).state;
    forall t | t in s.types
      ensures LineQuantity(lines[1..], t) <= Slack(r, t) <==> LineQuantity(lines, t) <= Slack(s, t)
    {
    }
  }

  lemma {:induction false} LinesCommitIff(s: State, order: Option<OrderId>, lines: seq<Line>, expiresAt: Time)
    requires LinesKnown(s, lines) && Unused(s.holds, lines) && RowsAllowed(s)
    ensures InsertFrom(s, order, lines, expiresAt).Committed? <==> RoomForLines(s, lines)
    decreases |lines|
  {
    if lines == [] {
      forall t | t in s.types ensures LineQuantity(lines, t) <= Slack(s, t) {
        assert RowAllowed(s.types[t]);
      }
    } else {
      var t0 := lines[0].typeId;
      assert RowAllowed(s.types[t0]) && LineQuantity(lines, t0) >= lines[0].quantity;
      var r := InsertLine(s, order, lines[0], expiresAt);
      if r.Committed? {
        forall k | 0 <= k < |lines[1..]| ensures !TokenTaken(r.state.holds, lines[1..][k].token) && lines[1..][k] == lines[k + 1] {
        }
        LinesCommitIff(r.state, order, lines[1..], expiresAt);
        RoomForRest(s, order, lines, expiresAt);
      }
    }
  }

  /** A reservation without an order, under unused tokens, is accepted exactly when it lists something, all of it as available as was read, and every row has room. */
  lemma ReservationCommitsIff(s: State, lines: seq<Line>, expiresAt: Time, seen: map<TypeId, int>)
    requires Sound(s) && Unused(s.holds, lines)
    ensures Attempt(s, ReserveLoose(lines, expiresAt, seen)).Committed? <==>
      && lines != [] && RoomForLines(s, lines)
      && forall k :: 0 <= k < |lines| ==> Fits(s, lines[k], seen) && lines[k].token.CallerToken?
    ensures Attempt(s, ReserveLoose(lines, expiresAt, seen)).Committed? ==>
      After(s, ReserveLoose(lines, expiresAt, seen)).holds == s.holds + HoldsFor(None, lines, expiresAt)
  {
    NoLineErrorIff(s, lines, seen);
    if LinesKnown(s, lines) {
      LinesCommitIff(s, None, lines, expiresAt);
      if InsertFrom(s, None, lines, expiresAt).Committed? {
        InsertAdds(s, None, lines, expiresAt);
      }
    }
  }

  lemma {:induction false} OrderLineQuantity(o: OrderId, items: seq<Item>, t: TypeId)
    ensures LineQuantity(OrderLines(o, items), t) == ItemQuantity(items, t)
  {
    if items != [] {
      assert OrderLines(o, items)[1..] == OrderLines(o, items[1..]);
      OrderLineQuantity(o, items[1..], t);
    }
  }

  /** The new order's holds: one active, or converted, hold per item. */
  function OrderHolds(o: OrderId, items: seq<Item>, status: HoldStatus, expiresAt: Time, convertedAt: Option<Time>): (holds: seq<Hold>)
    ensures |holds| == |items|
  {
    seq(|items|, k requires 0 <= k < |items| =>
      Hold(items[k].typeId, Some(o), OrderToken(o, items[k].typeId), items[k].quantity, status, expiresAt, convertedAt, None, 0))
  }

  /** The type's row has grown by the items: in reserved, or in sold for an order confirmed at once. */
  predicate RowGrows(s: State, s': State, items: seq<Item>, asSold: bool, t: TypeId) {
    && t in s.types && t in s'.types
    && var row, q := s.types[t], ItemQuantity(items, t);
       s'.types[t] == if asSold then row.(sold := row.sold + q) else row.(reserved := row.reserved + q)
  }

  ghost predicate ItemsCounted(s: State, s': State, items: seq<Item>, asSold: bool) {
    s'.types.Keys == s.types.Keys && forall t :: t in s.types ==> RowGrows(s, s', items, asSold, t)
  }

  lemma ReservedForOrder(s: State, items: seq<Item>, status: OrderStatus, expiresAt: Time, seen: map<TypeId, int>)
    requires Sound(s) && DistinctTypes(items)
    requires Reserve(s.(orders := s.orders + [Order(status, items, false)]), Some(|s.orders|), OrderLines(|s.orders|, items), expiresAt, seen).Committed?
    ensures var s1 := Reserve(s.(orders := s.orders + [Order(status, items, false)]), Some(|s.orders|),
                              OrderLines(|s.orders|, items), expiresAt, seen).state;
      && s1.orders == s.orders + [Order(status, items, false)]
      && s1.holds == s.holds + OrderHolds(|s.orders|, items, Active, expiresAt, None)
      && ItemsCounted(s, s1, items, false)
  {
    var o := |s.orders|;
    var s0 := s.(orders := s.orders + [Order(status, items, false)]);
    var lines := OrderLines(o, items);
    FreshTokens(s, items);
    InsertAdds(s0, Some(o), lines, expiresAt);
    assert HoldsFor(Some(o), lines, expiresAt) == OrderHolds(o, items, Active, expiresAt, None);
    forall t | t in s.types ensures RowGrows(s, InsertFrom(s0, Some(o), lines, expiresAt).state, items, false, t) {
      OrderLineQuantity(o, items, t);
    }
  }

  /** An accepted order is appended with one hold per item; its items are reserved, or sold if it is confirmed at once. */
  lemma CreationAdds(s: State, items: seq<Item>, status: OrderStatus, expiresAt: Time, seen: map<TypeId, int>, now: Time)
    requires Sound(s) && CreateOrder(s, items, status, expiresAt, seen, now).Committed?
    ensures var s' := CreateOrder(s, items, status, expiresAt, seen, now).state;
      && s'.orders == s.orders + [Order(status, items, false)]
      && (status == Confirmed || status == Pending || status == Draft)
      && s'.holds == s.holds + (if status == Confirmed then OrderHolds(|s.orders|, items, Converted, expiresAt, Some(now))
                                else OrderHolds(|s.orders|, items, Active, expiresAt, None))
      && ItemsCounted(s, s', items, status == Confirmed)
  {
    var o := |s.orders|;
    ReservedForOrder(s, items, status, expiresAt, seen);
    if status == Confirmed {
      ReserveForNewOrderSound(s, items, status, expiresAt, seen);
      var s1 := Reserve(s.(orders := s.orders + [Order(status, items, false)]), Some(o), OrderLines(o, items), expiresAt, seen).state;
      ConvertedAtOnce(s, s1, items, expiresAt, now);
    }
  }

  lemma {:induction false} NewAreOpen(holds: seq<Hold>, o: OrderId, t: TypeId)
    requires forall i :: 0 <= i < |holds| && holds[i].order == Some(o) ==> IsOpen(holds[i].status)
    ensures Quantity(holds, Unsold(o), t) == Quantity(holds, OpenOf(o), t) == Quantity(holds, OfOrder(o), t)
  {
    if holds != [] {
      NewAreOpen(holds[1..], o, t);
    }
  }

  /** The state between a confirmed order's reservation and its conversion. */
  ghost predicate JustReserved(s: State, s1: State, items: seq<Item>, expiresAt: Time) {
    && Sound(s) && Sound(s1) && s1.orders == s.orders + [Order(Confirmed, items, false)]
    && s1.holds == s.holds + OrderHolds(|s.orders|, items, Active, expiresAt, None) && ItemsCounted(s, s1, items, false)
  }

  lemma ConvertedHolds(s: State, s1: State, items: seq<Item>, expiresAt: Time, now: Time)
    requires JustReserved(s, s1, items, expiresAt) && SweepFrom(s1, ConvertOrder(|s.orders|), 0, now).Committed?
    ensures SweepFrom(s1, ConvertOrder(|s.orders|), 0, now).state.holds
      == s.holds + OrderHolds(|s.orders|, items, Converted, expiresAt, Some(now))
  {
    var o := |s.orders|;
    var holds := SweepFrom(s1, ConvertOrder(o), 0, now).state.holds;
    SellingTurns(s1, ConvertOrder(o), now);
    forall i | 0 <= i < |holds| ensures holds[i] == (s.holds + OrderHolds(o, items, Converted, expiresAt, Some(now)))[i] {
      assert holds[i] == SoldFor(s1.holds[i], o, Converted, now);
      assert i < |s.holds| ==> s1.holds[i] == s.holds[i] && s.holds[i].order != Some(o);
    }
  }

  lemma ConvertedRow(s: State, s1: State, items: seq<Item>, expiresAt: Time, now: Time, t: TypeId)
    requires JustReserved(s, s1, items, expiresAt) && SweepFrom(s1, ConvertOrder(|s.orders|), 0, now).Committed? && t in s.types
    ensures RowGrows(s, SweepFrom(s1, ConvertOrder(|s.orders|), 0, now).state, items, true, t)
  {
    var o := |s.orders|;
    SellingRow(s1, ConvertOrder(o), now, t);
    assert RowGrows(s, s1, items, false, t) && RowAllowed(s.types[t]);
    NewAreOpen(s1.holds, o, t);
    assert Quantity(s1.holds, OfOrder(o), t) == ItemQuantity(s1.orders[o].items, t);
  }

  lemma ConvertedAtOnce(s: State, s1: State, items: seq<Item>, expiresAt: Time, now: Time)
    requires JustReserved(s, s1, items, expiresAt) && SweepFrom(s1, ConvertOrder(|s.orders|), 0, now).Committed?
    ensures var s' := SweepFrom(s1, ConvertOrder(|s.orders|), 0, now).state;
      && s'.holds == s.holds + OrderHolds(|s.orders|, items, Converted, expiresAt, Some(now))
      && ItemsCounted(s, s', items, true)
  {
    ConvertedHolds(s, s1, items, expiresAt, now);
    forall t | t in s.types ensures RowGrows(s, SweepFrom(s1, ConvertOrder(|s.orders|), 0, now).state, items, true, t) {
      ConvertedRow(s, s1, items, expiresAt, now, t);
    }
  }

  /** Lines whose tokens are all taken insert nothing: sending a reservation again does not reserve again. */
  lemma {:induction false} TakenTokensInsertNothing(s: State, order: Option<OrderId>, lines: seq<Line>, expiresAt: Time)
    requires LinesKnown(s, lines) && forall k :: 0 <= k < |lines| ==> TokenTaken(s.holds, lines[k].token)
    ensures InsertFrom(s, order, lines, expiresAt) == Committed(s)
    decreases |lines|
  {
    if lines != [] {
      TakenTokensInsertNothing(s, order, lines[1..], expiresAt);
    }
  }

  lemma LineTakesToken(s: State, order: Option<OrderId>, line: Line, expiresAt: Time)
    requires line.typeId in s.types && InsertLine(s, order, line, expiresAt).Committed?
    ensures var s' := InsertLine(s, order, line, expiresAt).state;
      && TokenTaken(s'.holds, line.token)
      && |s.holds| <= |s'.holds| && forall i :: 0 <= i < |s.holds| ==> s'.holds[i] == s.holds[i]
  {
    var s' := InsertLine(s, order, line, expiresAt).state;
    if !TokenTaken(s.holds, line.token) {
      assert s'.holds[|s.holds|].token == line.token;
    }
  }

  lemma {:induction false} InsertTakesTokens(s: State, order: Option<OrderId>, lines: seq<Line>, expiresAt: Time)
    requires LinesKnown(s, lines) && InsertFrom(s, order, lines, expiresAt).Committed?
    ensures var s' := InsertFrom(s, order, lines, expiresAt).state;
      && |s.holds| <= |s'.holds| && (forall i :: 0 <= i < |s.holds| ==> s'.holds[i] == s.holds[i])
      && (forall k :: 0 <= k < |lines| ==> TokenTaken(s'.holds, lines[k].token))
    decreases |lines|
  {
    if lines != [] {
      var r := InsertLine(s, order, lines[0], expiresAt).state;
      InsertTakesTokens(r, order, lines[1..], expiresAt);
      var s' := InsertFrom(s, order, lines, expiresAt).state;
      LineTakesToken(s, order, lines[0], expiresAt);
      var i :| 0 <= i < |r.holds| && r.holds[i].token == lines[0].token;
      assert s'.holds[i] == r.holds[i];
      forall k | 0 < k < |lines| ensures TokenTaken(s'.holds, lines[k].token) {
        assert lines[k] == lines[1..][k - 1];
      }
    }
  }

  /** Reserving the same lines again changes nothing. */
  lemma ReservingTwiceIsReservingOnce(s: State, order: Option<OrderId>, lines: seq<Line>, expiresAt: Time, later: Time)
    requires LinesKnown(s, lines) && InsertFrom(s, order, lines, expiresAt).Committed?
    ensures var s' := InsertFrom(s, order, lines, expiresAt).state;
      LinesKnown(s', lines) && InsertFrom(s', order, lines, later) == Committed(s')
  {
    InsertTakesTokens(s, order, lines, expiresAt);
    TakenTokensInsertNothing(InsertFrom(s, order, lines, expiresAt).state, order, lines, later);
  }

  // ---------------------------------------------------------------------------------------
  //  Extensions and edits
  // ---------------------------------------------------------------------------------------

  ghost predicate MayExtend(s: State, o: OrderId, i: nat) {
    forall j :: i <= j < |s.holds| && s.holds[j].order == Some(o) ==> IsOpen(s.holds[j].status) && s.holds[j].extensions < 3
  }

  lemma {:induction false} ExtensionLoopCommitsIff(s: State, o: OrderId, i: nat, seconds: int, now: Time)
    requires i <= |s.holds|
    ensures ExtendFrom(s, o, i, seconds, now).Committed? <==> MayExtend(s, o, i)
    decreases |s.holds| - i
  {
    if i < |s.holds| {
      var r := ExtendRow(s, o, i, seconds, now);
      if r.Committed? {
        ExtensionLoopCommitsIff(r.state, o, i + 1, seconds, now);
        assert MayExtend(r.state, o, i + 1) <==> MayExtend(s, o, i + 1) by {
          forall j | i < j < |s.holds| ensures r.state.holds[j] == s.holds[j] {
          }
        }
      }
    }
  }

  /** An extension of at most five minutes is granted exactly when the order has holds, all open and extended less than three times. */
  lemma ExtensionCommitsIff(s: State, o: OrderId, seconds: int, now: Time)
    ensures ExtendOrder(s, o, seconds, now).Committed? <==> HasHold(s, o) && seconds <= 300 && MayExtend(s, o, 0)
  {
    ExtensionLoopCommitsIff(s, o, 0, seconds, now);
  }

  /** Only the row of the given type changed, to the given counters. */
  predicate RowBecomes(s: State, s': State, t: TypeId, row: TicketType) {
    s'.orders == s.orders && s'.holds == s.holds && s'.types == s.types[t := row]
  }

  /** What is given, or what was there. */
  predicate Keeps(value: Option<nat>, before: int, after: int) {
    match value
    case None => after == before
    case Some(v) => after == v
  }

  /** An edit writes what it is given and keeps the rest. It is accepted exactly when the row it leaves is within its constraint and a given total is positive and no less than a counter given with it. */
  lemma EditWritesWhatIsGiven(s: State, t: TypeId, total: Option<nat>, sold: Option<nat>, reserved: Option<nat>)
    requires Sound(s) && t in s.types
    ensures var row := s.types[t];
      Attempt(s, Edit(t, total, sold, reserved)).Committed? <==> exists a, b, c ::
        && Keeps(total, row.total, a) && Keeps(sold, row.sold, b) && Keeps(reserved, row.reserved, c)
        && b >= 0 && c >= 0 && b + c <= a && (total.Some? ==> a > 0)
    ensures Attempt(s, Edit(t, total, sold, reserved)).Committed? ==>
      var s' := After(s, Edit(t, total, sold, reserved));
      && t in s'.types && RowBecomes(s, s', t, s'.types[t])
      && Keeps(total, s.types[t].total, s'.types[t].total)
      && Keeps(sold, s.types[t].sold, s'.types[t].sold)
      && Keeps(reserved, s.types[t].reserved, s'.types[t].reserved)
  {
    var row := s.types[t];
    assert RowAllowed(row);
    var a, b, c := Given(total, row.total), Given(sold, row.sold), Given(reserved, row.reserved);
    assert Keeps(total, row.total, a) && Keeps(sold, row.sold, b) && Keeps(reserved, row.reserved, c);
  }

  /** A type is added exactly when it is new, has a positive total, and its counters fit it. */
  lemma AdditionCommitsIff(s: State, t: TypeId, total: nat, sold: nat, reserved: nat)
    ensures AddType(s, t, total, sold, reserved).Committed? <==> t !in s.types && total > 0 && sold + reserved <= total
    ensures AddType(s, t, total, sold, reserved).Committed? ==>
      RowBecomes(s, AddType(s, t, total, sold, reserved).state, t, TicketType(total, sold, reserved))
  {
  }
}
