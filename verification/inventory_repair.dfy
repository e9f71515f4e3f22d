/**
 The reconciler. It sums what is sold, then what is held, and later writes both sums over the cached
 counters, each in a statement of its own. What it writes covers the rows as they are by then or not,
 and this says when.
 */
module InventoryRepair {
  import opened Common
  import opened Inventory
  import opened InventorySafety
  import opened InventoryCapacity

  /** A repair goes through exactly when its sums fit the total; it covers the type exactly when they come to its load. */
  lemma RepairCoversIff(s: State, t: TypeId, sold: nat, reserved: nat)
    requires Sound(s) && t in s.types
    ensures Attempt(s, Repair(t, sold, reserved)).Committed? <==> sold + reserved <= s.types[t].total
    ensures Attempt(s, Repair(t, sold, reserved)).Committed? ==>
      var s' := After(s, Repair(t, sold, reserved));
      && s'.types[t] == TicketType(s.types[t].total, sold, reserved)
      && (Surplus(s', t) >= 0 <==> Load(s, t) <= sold + reserved)
  {
  }

  /** The repair that writes what was sold in one state and held in another, later one. */
  function RepairFrom(first: State, second: State, t: TypeId, now: Time): Op {
    Repair(t, Sold(first.orders, t), Quantity(second.holds, Unexpired(now), t))
  }

  /**
   Sums taken from two earlier states cover the type exactly when its load has since come down by
   what they missed: what was sold between the two readings, and what had lapsed at the second.
   */
  lemma StaleRepairCoversIff(first: State, second: State, s: State, t: TypeId, now: Time)
    requires Sound(s) && t in s.types && Attempt(s, RepairFrom(first, second, t, now)).Committed?
    ensures Surplus(After(s, RepairFrom(first, second, t, now)), t) >= 0
      <==> Load(s, t) + Quantity(second.holds, Lapsed(now), t) + Sold(second.orders, t)
           <= Load(second, t) + Sold(first.orders, t)
  {
    RepairCoversIff(s, t, Sold(first.orders, t), Quantity(second.holds, Unexpired(now), t));
    OpenIsUnexpiredPlusLapsed(second.holds, t, now);
  }

  /**
   If nothing moves between reading and writing, a repair is refused exactly when the rows themselves
   say more than the total, and covers the type exactly when no hold of it has lapsed unswept.
   */
  lemma RepairCoversIffNoneLapsed(s: State, t: TypeId, now: Time)
    requires Sound(s) && t in s.types
    ensures Attempt(s, RepairFrom(s, s, t, now)).Committed?
      <==> Sold(s.orders, t) + Quantity(s.holds, Unexpired(now), t) <= s.types[t].total
    ensures Attempt(s, RepairFrom(s, s, t, now)).Committed? ==>
      (Surplus(After(s, RepairFrom(s, s, t, now)), t) >= 0 <==> Quantity(s.holds, Lapsed(now), t) == 0)
  {
    if Attempt(s, RepairFrom(s, s, t, now)).Committed? {
      StaleRepairCoversIff(s, s, s, t, now);
    }
  }

  // ---------------------------------------------------------------------------------------
  //  Which steps add to the load
  // ---------------------------------------------------------------------------------------

  /** The accepted steps that can add to what a type's counters have to cover. */
  ghost predicate AddsLoad(s: State, op: Op)
    requires TypesKnown(s)
  {
    && Attempt(s, op).Committed?
    && match op
       case Create(_, _, _, _, _) => true
       case ReserveLoose(_, _, _) => true
       case Coin(_, _, _) => true
       case Update(o, next, _) => SellsUnconverted(s, o, next)
       case _ => false
  }

  lemma RowSellsWhatWasOpen(s: State, w: Sweep, i: nat, now: Time, t: TypeId)
    requires i < |s.holds| && TypesKnown(s) && SweepRow(s, w, i, now).Committed?
    ensures var s' := SweepRow(s, w, i, now).state;
      Quantity(s'.holds, Open, t) + SoldBy(s.holds[i..], w, t) <= Quantity(s.holds, Open, t) + SoldBy(s'.holds[i + 1..], w, t)
  {
    assert SweepRow(s, w, i, now).state.holds[i + 1..] == s.holds[i + 1..];
    SoldByStep(s.holds, w, i, t);
    if Touches(w, i, s.holds[i]) {
      if IsSold(Target(w)) {
        SalesComeFromOpenHolds(w, i, s.holds[i]);
      }
      QuantityUpdate(s.holds, i, Moved(s.holds[i], Target(w), now), Open, t);
    }
  }

  /** What a sweep sells was open before it, and what it leaves open was too. */
  lemma {:induction false} SweepSellsWhatWasOpen(s: State, w: Sweep, i: nat, now: Time, t: TypeId)
    requires i <= |s.holds| && TypesKnown(s) && SweepFrom(s, w, i, now).Committed?
    ensures Quantity(SweepFrom(s, w, i, now).state.holds, Open, t) + SoldBy(s.holds[i..], w, t) <= Quantity(s.holds, Open, t)
    decreases |s.holds| - i
  {
    if i < |s.holds| {
      RowSellsWhatWasOpen(s, w, i, now, t);
      SweepSellsWhatWasOpen(SweepRow(s, w, i, now).state, w, i + 1, now, t);
    }
  }

  /** Closing an order and releasing its holds. */
  lemma ReleaseAddsNoLoad(s: State, o: OrderId, order: Order, now: Time, t: TypeId)
    requires Sound(s) && o < |s.orders| && order.items == s.orders[o].items && !Counted(order)
    requires TypesKnown(s.(orders := s.orders[o := order]))
    requires SweepFrom(s.(orders := s.orders[o := order]), ReleaseOrder(o), 0, now).Committed?
    ensures Load(SweepFrom(s.(orders := s.orders[o := order]), ReleaseOrder(o), 0, now).state, t) <= Load(s, t)
  {
    SoldUpdate(s.orders, o, order, t);
    SweepSellsWhatWasOpen(s.(orders := s.orders[o := order]), ReleaseOrder(o), 0, now, t);
  }

  lemma ConversionAddsNoLoad(s: State, o: OrderId, now: Time, t: TypeId)
    requires Sound(s) && o < |s.orders| && !s.orders[o].deleted
    requires Settled(s.orders[o].status) || !MayHaveSold(s.orders[o])
    requires SweepFrom(WithStatus(s, o, Confirmed), ConvertOrder(o), 0, now).Committed?
    ensures Load(SweepFrom(WithStatus(s, o, Confirmed), ConvertOrder(o), 0, now).state, t) <= Load(s, t)
  {
    var s0 := WithStatus(s, o, Confirmed);
    SoldUpdate(s.orders, o, s0.orders[o], t);
    assert s0.holds[0..] == s0.holds;
    SweepSellsWhatWasOpen(s0, ConvertOrder(o), 0, now, t);
    if !Settled(s.orders[o].status) {
      UnsettledOwesItsItems(s, o, t);
    }
  }

  lemma UpdateAddsNoLoad(s: State, o: OrderId, next: OrderStatus, now: Time, t: TypeId)
    requires Sound(s) && UpdateOrder(s, o, next, now).Committed? && !SellsUnconverted(s, o, next)
    ensures Load(UpdateOrder(s, o, next, now).state, t) <= Load(s, t)
  {
    UpdateBranches(s, o, next, now);
    var current := s.orders[o].status;
    if !Terminal(current) && Terminal(next) {
      ReleaseAddsNoLoad(s, o, s.orders[o].(status := next), now, t);
    } else if next == Confirmed && current != Confirmed {
      ConversionAddsNoLoad(s, o, now, t);
    } else {
      SoldUpdate(s.orders, o, s.orders[o].(status := next), t);
    }
  }

  lemma DeleteAddsNoLoad(s: State, o: OrderId, now: Time, t: TypeId)
    requires Sound(s) && DeleteOrder(s, o, now).Committed?
    ensures Load(DeleteOrder(s, o, now).state, t) <= Load(s, t)
  {
    var order := s.orders[o].(status := OrderStatus.Cancelled, deleted := true);
    if Terminal(s.orders[o].status) {
      SoldUpdate(s.orders, o, order, t);
    } else {
      ReleaseAddsNoLoad(s, o, order, now, t);
    }
  }

  lemma RefundAddsNoLoad(s: State, o: OrderId, full: bool, now: Time, t: TypeId)
    requires Sound(s) && RefundOrder(s, o, full, now).Committed?
    ensures Load(RefundOrder(s, o, full, now).state, t) <= Load(s, t)
  {
    if full {
      ReleaseAddsNoLoad(s, o, s.orders[o].(status := OrderStatus.Refunded), now, t);
    } else {
      SoldUpdate(s.orders, o, s.orders[o].(status := PartiallyRefunded), t);
    }
  }

  lemma FailAddsNoLoad(s: State, o: OrderId, now: Time, t: TypeId)
    requires Sound(s) && FailPayment(s, o, now).Committed?
    ensures Load(FailPayment(s, o, now).state, t) <= Load(s, t)
  {
    if o < |s.orders| && !Settled(s.orders[o].status) {
      ReleaseAddsNoLoad(s, o, s.orders[o].(status := OrderStatus.Cancelled), now, t);
    }
  }

  lemma PaymentAddsNoLoad(s: State, o: OrderId, outcome: HoldStatus, now: Time, t: TypeId)
    requires Sound(s) && ConfirmPayment(s, o, outcome, now).Committed?
    ensures Load(ConfirmPayment(s, o, outcome, now).state, t) <= Load(s, t)
  {
    PaymentBranches(s, o, outcome, now);
    if OnTime(s, o, now) {
      var s0 := SettledByPayment(s, o);
      SoldUpdate(s.orders, o, s0.orders[o], t);
      assert s0.holds[0..] == s0.holds;
      SweepSellsWhatWasOpen(s0, BookOrder(o), 0, now, t);
      BookedHoldsWereUnsold(s0, o, now, t);
    } else {
      var s0 := ExpiredByPayment(s, o);
      SoldUpdate(s.orders, o, s0.orders[o], t);
      RefundSetsAside(s0, o, 0, outcome, now);
      ClosingKeepsOpenBelow(s0.holds, RefundFrom(s0, o, 0, outcome, now).state.holds, t);
    }
  }

  lemma ExpiryAddsNoLoad(s: State, rows: set<nat>, now: Time, t: TypeId)
    requires Sound(s)
    ensures Load(After(s, Expire(rows, now)), t) <= Load(s, t)
  {
    var w := ExpiryIsASweep(s, rows, now);
    SweepSellsWhatWasOpen(s, w, 0, now, t);
  }

  lemma ExtensionAddsNoLoad(s: State, o: OrderId, seconds: int, now: Time, t: TypeId)
    requires Sound(s) && ExtendFrom(s, o, 0, seconds, now).Committed?
    ensures Load(ExtendFrom(s, o, 0, seconds, now).state, t) <= Load(s, t)
  {
    ExtensionProlongs(s, o, 0, seconds, now);
    ClosingKeepsOpenBelow(s.holds, ExtendFrom(s, o, 0, seconds, now).state.holds, t);
  }

  /** Every other step moves what was held to what is sold, or gives it up. */
  lemma StepAddsNoLoad(s: State, op: Op, t: TypeId)
    requires Sound(s) && !AddsLoad(s, op)
    ensures Load(After(s, op), t) <= Load(s, t)
  {
    if Attempt(s, op).Committed? {
      match op
      case Update(o, next, at) => UpdateAddsNoLoad(s, o, next, at, t);
      case Delete(o, at) => DeleteAddsNoLoad(s, o, at, t);
      case Confirm(o, outcome, at) => PaymentAddsNoLoad(s, o, outcome, at, t);
      case Refund(o, full, at) => RefundAddsNoLoad(s, o, full, at, t);
      case Fail(o, at) => FailAddsNoLoad(s, o, at, t);
      case Expire(rows, at) => ExpiryAddsNoLoad(s, rows, at, t);
      case Extend(o, seconds, at) => ExtensionAddsNoLoad(s, o, seconds, at, t);
      case Repair(_, _, _) =>
      case Edit(_, _, _, _) =>
      case Add(_, _, _, _) =>
    }
  }

  /** No step of the run reserves, checks out with coins, or sells an order without converting it. */
  ghost predicate NothingReserved(s: State, ops: seq<Op>)
    requires Sound(s)
    decreases |ops|
  {
    ops == [] ||
    (!AddsLoad(s, ops[0]) && (StepKeepsSound(s, ops[0]); NothingReserved(After(s, ops[0]), ops[1..])))
  }

  lemma {:induction false} RunAddsNoLoad(s: State, ops: seq<Op>, t: TypeId)
    requires Sound(s) && NothingReserved(s, ops)
    ensures Load(Execute(s, ops), t) <= Load(s, t)
    decreases |ops|
  {
    if ops != [] {
      StepKeepsSound(s, ops[0]);
      StepAddsNoLoad(s, ops[0], t);
      RunAddsNoLoad(After(s, ops[0]), ops[1..], t);
    }
  }

  /**
   A repair as it happens: it reads what is sold, anything happens, it reads what is held, anything
   happens, it writes. If nothing was sold between the readings, nothing had lapsed at the second, and
   nothing was reserved after it, what it writes covers the type.
   */
  lemma QuietRepairCovers(s: State, between: seq<Op>, after: seq<Op>, t: TypeId, now: Time)
    requires Sound(s)
    requires var second := Execute(s, between);
      && Sold(second.orders, t) <= Sold(s.orders, t) && Quantity(second.holds, Lapsed(now), t) == 0
      && NothingReserved(second, after)
    ensures var second := Execute(s, between);
      var last := Execute(second, after);
      t in last.types && Attempt(last, RepairFrom(s, second, t, now)).Committed? ==>
        Surplus(After(last, RepairFrom(s, second, t, now)), t) >= 0
  {
    var second := Execute(s, between);
    var last := Execute(second, after);
    if t in last.types && Attempt(last, RepairFrom(s, second, t, now)).Committed? {
      RunAddsNoLoad(second, after, t);
      StaleRepairCoversIff(s, second, last, t, now);
    }
  }
}
