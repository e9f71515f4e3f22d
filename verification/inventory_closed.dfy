/** A closed order holds nothing: no run leaves a seat with an order that was cancelled, expired or refunded. */
module InventoryClosed {
  import opened Common
  import opened Inventory
  import opened InventorySafety
  import opened InventoryCapacity

  predicate Closed(order: Order) {
    !order.deleted && (order.status.Cancelled? || order.status.Expired? || order.status.Refunded?)
  }

  predicate Gone(st: HoldStatus) {
    !IsOpen(st) && !IsSold(st)
  }

  ghost predicate HoldGone(s: State, i: nat)
    requires i < |s.holds|
  {
    s.holds[i].order.Some? && s.holds[i].order.value < |s.orders| && Closed(s.orders[s.holds[i].order.value]) ==>
      Gone(s.holds[i].status)
  }

  ghost predicate ClosedHoldNothing(s: State) {
    forall i :: 0 <= i < |s.holds| ==> HoldGone(s, i)
  }

  /** The same, leaving out the holds of one order. */
  ghost predicate OthersClosed(s: State, o: OrderId) {
    forall i :: 0 <= i < |s.holds| && s.holds[i].order != Some(o) ==> HoldGone(s, i)
  }

  lemma OrderWrittenKeepsOthers(s: State, o: OrderId, order: Order)
    requires ClosedHoldNothing(s) && o < |s.orders|
    ensures OthersClosed(s.(orders := s.orders[o := order]), o)
    ensures !Closed(order) || Closed(s.orders[o]) ==> ClosedHoldNothing(s.(orders := s.orders[o := order]))
  {
    var s' := s.(orders := s.orders[o := order]);
    forall i | 0 <= i < |s.holds| && (s.holds[i].order != Some(o) || !Closed(order) || Closed(s.orders[o])) ensures HoldGone(s', i) {
      assert HoldGone(s, i);
    }
  }

  /** Selling an order's holds needs the order not to be closed. */
  ghost predicate MayRun(s: State, w: Sweep) {
    match w
    case ConvertOrder(o) => o < |s.orders| && !Closed(s.orders[o]) && OthersClosed(s, o)
    case BookOrder(o) => o < |s.orders| && !Closed(s.orders[o]) && OthersClosed(s, o)
    case ReleaseOrder(o) => OthersClosed(s, o)
    case ExpireRows(_) => ClosedHoldNothing(s)
  }

  lemma UntouchedIsGone(s: State, w: Sweep, i: nat)
    requires i < |s.holds| && MayRun(s, w) && !Touches(w, i, s.holds[i])
    ensures HoldGone(s, i)
  {
  }

  lemma SweepKeepsClosed(s: State, w: Sweep, now: Time)
    requires TypesKnown(s) && MayRun(s, w) && SweepFrom(s, w, 0, now).Committed?
    ensures ClosedHoldNothing(SweepFrom(s, w, 0, now).state)
  {
    var s' := SweepFrom(s, w, 0, now).state;
    SweepMovesExactlyTouched(s, w, 0, now);
    forall i | 0 <= i < |s'.holds| ensures HoldGone(s', i) {
      if !Touches(w, i, s.holds[i]) {
        UntouchedIsGone(s, w, i);
      }
    }
  }

  lemma InsertKeepsClosed(s: State, order: Option<OrderId>, lines: seq<Line>, expiresAt: Time)
    requires ClosedHoldNothing(s) && RowsAllowed(s) && TokensSound(s) && LinesKnown(s, lines) && LinesFor(order, lines)
    requires order.Some? ==> order.value < |s.orders| && !Closed(s.orders[order.value])
    requires InsertFrom(s, order, lines, expiresAt).Committed?
    ensures ClosedHoldNothing(InsertFrom(s, order, lines, expiresAt).state)
  {
    var s' := InsertFrom(s, order, lines, expiresAt).state;
    InsertAppends(s, order, lines, expiresAt);
    forall i | 0 <= i < |s'.holds| ensures HoldGone(s', i) {
      assert i < |s.holds| ==> HoldGone(s, i);
    }
  }

  lemma CreateKeepsClosed(s: State, items: seq<Item>, status: OrderStatus, expiresAt: Time, seen: map<TypeId, int>, now: Time)
    requires Sound(s) && ClosedHoldNothing(s) && CreateOrder(s, items, status, expiresAt, seen, now).Committed?
    ensures ClosedHoldNothing(CreateOrder(s, items, status, expiresAt, seen, now).state)
  {
    var o := |s.orders|;
    var s0 := s.(orders := s.orders + [Order(status, items, false)]);
    forall i | 0 <= i < |s.holds| ensures HoldGone(s0, i) {
      assert HoldGone(s, i) && SoldHoldSound(s, i);
    }
    InsertKeepsClosed(s0, Some(o), OrderLines(o, items), expiresAt);
    if status == Confirmed {
      var s1 := InsertFrom(s0, Some(o), OrderLines(o, items), expiresAt).state;
      assert OthersClosed(s1, o);
      SweepKeepsClosed(s1, ConvertOrder(o), now);
    }
  }

  lemma UpdateKeepsClosed(s: State, o: OrderId, next: OrderStatus, now: Time)
    requires Sound(s) && ClosedHoldNothing(s) && UpdateOrder(s, o, next, now).Committed?
    ensures ClosedHoldNothing(UpdateOrder(s, o, next, now).state)
  {
    UpdateBranches(s, o, next, now);
    OrderWrittenKeepsOthers(s, o, s.orders[o].(status := next));
    if !Terminal(s.orders[o].status) && Terminal(next) {
      SweepKeepsClosed(WithStatus(s, o, next), ReleaseOrder(o), now);
    } else if next == Confirmed && s.orders[o].status != Confirmed {
      SweepKeepsClosed(WithStatus(s, o, next), ConvertOrder(o), now);
    }
  }

  /** Closing an order and releasing its holds. */
  lemma ReleaseKeepsClosed(s: State, o: OrderId, order: Order, now: Time)
    requires ClosedHoldNothing(s) && o < |s.orders| && TypesKnown(s.(orders := s.orders[o := order]))
    requires SweepFrom(s.(orders := s.orders[o := order]), ReleaseOrder(o), 0, now).Committed?
    ensures ClosedHoldNothing(SweepFrom(s.(orders := s.orders[o := order]), ReleaseOrder(o), 0, now).state)
  {
    OrderWrittenKeepsOthers(s, o, order);
    SweepKeepsClosed(s.(orders := s.orders[o := order]), ReleaseOrder(o), now);
  }

  lemma DeleteKeepsClosed(s: State, o: OrderId, now: Time)
    requires Sound(s) && ClosedHoldNothing(s) && DeleteOrder(s, o, now).Committed?
    ensures ClosedHoldNothing(DeleteOrder(s, o, now).state)
  {
    var order := s.orders[o].(status := OrderStatus.Cancelled, deleted := true);
    OrderWrittenKeepsOthers(s, o, order);
    if !Terminal(s.orders[o].status) {
      ReleaseKeepsClosed(s, o, order, now);
    }
  }

  lemma RefundKeepsClosed(s: State, o: OrderId, full: bool, now: Time)
    requires Sound(s) && ClosedHoldNothing(s) && RefundOrder(s, o, full, now).Committed?
    ensures ClosedHoldNothing(RefundOrder(s, o, full, now).state)
  {
    if full {
      ReleaseKeepsClosed(s, o, s.orders[o].(status := OrderStatus.Refunded), now);
    } else {
      OrderWrittenKeepsOthers(s, o, s.orders[o].(status := PartiallyRefunded));
    }
  }

  lemma FailKeepsClosed(s: State, o: OrderId, now: Time)
    requires Sound(s) && ClosedHoldNothing(s) && FailPayment(s, o, now).Committed?
    ensures ClosedHoldNothing(FailPayment(s, o, now).state)
  {
    if o < |s.orders| && !Settled(s.orders[o].status) {
      ReleaseKeepsClosed(s, o, s.orders[o].(status := OrderStatus.Cancelled), now);
    }
  }

  lemma PaymentKeepsClosed(s: State, o: OrderId, outcome: HoldStatus, now: Time)
    requires Sound(s) && ClosedHoldNothing(s) && ConfirmPayment(s, o, outcome, now).Committed?
    ensures ClosedHoldNothing(ConfirmPayment(s, o, outcome, now).state)
  {
    PaymentBranches(s, o, outcome, now);
    if OnTime(s, o, now) {
      OrderWrittenKeepsOthers(s, o, SettledByPayment(s, o).orders[o]);
      SweepKeepsClosed(SettledByPayment(s, o), BookOrder(o), now);
    } else {
      OrderWrittenKeepsOthers(s, o, ExpiredByPayment(s, o).orders[o]);
      SettingAsideKeepsClosed(ExpiredByPayment(s, o), o, outcome, now);
    }
  }

  lemma SettingAsideKeepsClosed(s: State, o: OrderId, outcome: HoldStatus, now: Time)
    requires OthersClosed(s, o) && Gone(outcome) && RefundFrom(s, o, 0, outcome, now).Committed?
    ensures ClosedHoldNothing(RefundFrom(s, o, 0, outcome, now).state)
  {
    var s' := RefundFrom(s, o, 0, outcome, now).state;
    RefundSetsAside(s, o, 0, outcome, now);
    forall i | 0 <= i < |s'.holds| ensures HoldGone(s', i) {
      assert s.holds[i].order != Some(o) ==> HoldGone(s, i);
    }
  }

  lemma CoinKeepsClosed(s: State, o: OrderId, read: OrderStatus, now: Time)
    requires Sound(s) && ClosedHoldNothing(s) && CoinCheckout(s, o, read, now).Committed?
    ensures ClosedHoldNothing(CoinCheckout(s, o, read, now).state)
  {
    var s0 := WithStatus(s, o, Paid);
    var s' := CoinFrom(s0, o, 0, now).state;
    OrderWrittenKeepsOthers(s, o, s0.orders[o]);
    CoinBooks(s0, o, 0, now);
    forall i | 0 <= i < |s'.holds| ensures HoldGone(s', i) {
      assert HoldGone(s0, i);
    }
  }

  /** Only open holds get more time, so the extended order is not a closed one. */
  lemma ExtendKeepsClosed(s: State, o: OrderId, seconds: int, now: Time)
    requires Sound(s) && ClosedHoldNothing(s) && ExtendFrom(s, o, 0, seconds, now).Committed?
    ensures ClosedHoldNothing(ExtendFrom(s, o, 0, seconds, now).state)
  {
    var s' := ExtendFrom(s, o, 0, seconds, now).state;
    ExtensionProlongs(s, o, 0, seconds, now);
    forall i | 0 <= i < |s'.holds| ensures HoldGone(s', i) {
      assert HoldGone(s, i);
    }
  }

  lemma StepKeepsClosed(s: State, op: Op)
    requires Sound(s) && ClosedHoldNothing(s)
    ensures ClosedHoldNothing(After(s, op))
  {
    if Attempt(s, op).Committed? {
      match op
      case Create(items, status, expiresAt, seen, at) => CreateKeepsClosed(s, items, status, expiresAt, seen, at);
      case ReserveLoose(lines, expiresAt, seen) => InsertKeepsClosed(s, None, lines, expiresAt);
      case Update(o, next, at) => UpdateKeepsClosed(s, o, next, at);
      case Delete(o, at) => DeleteKeepsClosed(s, o, at);
      case Confirm(o, outcome, at) => PaymentKeepsClosed(s, o, outcome, at);
      case Coin(o, read, at) => CoinKeepsClosed(s, o, read, at);
      case Refund(o, full, at) => RefundKeepsClosed(s, o, full, at);
      case Fail(o, at) => FailKeepsClosed(s, o, at);
      case Expire(rows, at) =>
        var w := ExpiryIsASweep(s, rows, at);
        SweepKeepsClosed(s, w, at);
      case Extend(o, seconds, at) => ExtendKeepsClosed(s, o, seconds, at);
      case Repair(_, _, _) => RowsAloneKeepClosed(s, After(s, op));
      case Edit(_, _, _, _) => RowsAloneKeepClosed(s, After(s, op));
      case Add(_, _, _, _) => RowsAloneKeepClosed(s, After(s, op));
    }
  }

  lemma RowsAloneKeepClosed(s: State, s': State)
    requires ClosedHoldNothing(s) && s'.holds == s.holds && s'.orders == s.orders
    ensures ClosedHoldNothing(s')
  {
    forall i | 0 <= i < |s'.holds| ensures HoldGone(s', i) {
      assert HoldGone(s, i);
    }
  }

  lemma {:induction false} RunKeepsClosed(s: State, ops: seq<Op>)
    requires Sound(s) && ClosedHoldNothing(s)
    ensures ClosedHoldNothing(Execute(s, ops))
    decreases |ops|
  {
    if ops != [] {
      StepKeepsSound(s, ops[0]);
      StepKeepsClosed(s, ops[0]);
      RunKeepsClosed(After(s, ops[0]), ops[1..]);
    }
  }

  /**
   In every run from a fresh platform, disciplined or not: an order that is cancelled, expired or
   refunded, and has not been deleted, has no ticket left that is held or sold.
   */
  lemma ClosedOrdersHoldNothing(s: State, ops: seq<Op>, i: nat)
    requires Fresh(s)
    ensures Sound(s)
    ensures i < |Execute(s, ops).holds| ==> HoldGone(Execute(s, ops), i)
  {
    RunKeepsClosed(s, ops);
  }
}
