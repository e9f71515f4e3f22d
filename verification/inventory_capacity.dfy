/**
 No overselling: which steps keep the cached counters covering the rows, exactly, and what follows
 for whole runs.
 */
module InventoryCapacity {
  import opened Common
  import opened Inventory
  import opened InventorySafety

  // ---------------------------------------------------------------------------------------
  //  What one operation does to the surplus of a type
  // ---------------------------------------------------------------------------------------

  /** Neither the surplus nor the gap of the type shrinks. */
  ghost predicate NoWorse(s: State, s': State, t: TypeId) {
    t in s.types && t in s'.types && Surplus(s', t) >= Surplus(s, t) && Gap(s', t) >= Gap(s, t)
  }

  lemma {:induction false} NoneSoldYet(holds: seq<Hold>, o: OrderId, t: TypeId)
    requires forall i :: 0 <= i < |holds| && holds[i].order == Some(o) ==> !IsSold(holds[i].status)
    ensures Quantity(holds, Unsold(o), t) == Quantity(holds, OfOrder(o), t)
  {
    if holds != [] {
      NoneSoldYet(holds[1..], o, t);
    }
  }

  /** An order that never was settled owes the sold counter exactly its items. */
  lemma UnsettledOwesItsItems(s: State, o: OrderId, t: TypeId)
    requires Sound(s) && o < |s.orders| && !MayHaveSold(s.orders[o])
    ensures Quantity(s.holds, Unsold(o), t) == ItemQuantity(s.orders[o].items, t)
  {
    forall i | 0 <= i < |s.holds| && s.holds[i].order == Some(o) ensures !IsSold(s.holds[i].status) {
      assert SoldHoldSound(s, i);
    }
    NoneSoldYet(s.holds, o, t);
  }

  lemma NewHoldsAreUnsold(s: State, s0: State, items: seq<Item>, expiresAt: Time)
    requires Sound(s) && s0.types == s.types && s0.holds == s.holds && |s0.orders| == |s.orders| + 1
    requires LinesKnown(s0, OrderLines(|s.orders|, items))
    requires TokensSound(s0)
    requires InsertFrom(s0, Some(|s.orders|), OrderLines(|s.orders|, items), expiresAt).Committed?
    ensures var s1 := InsertFrom(s0, Some(|s.orders|), OrderLines(|s.orders|, items), expiresAt).state;
      forall i :: 0 <= i < |s1.holds| && s1.holds[i].order == Some(|s.orders|) ==> !IsSold(s1.holds[i].status)
  {
    InsertAppends(s0, Some(|s.orders|), OrderLines(|s.orders|, items), expiresAt);
  }

  lemma CreateKeepsSurplus(s: State, items: seq<Item>, status: OrderStatus, expiresAt: Time,
                           seen: map<TypeId, int>, now: Time, t: TypeId)
    requires Sound(s) && t in s.types
    requires CreateOrder(s, items, status, expiresAt, seen, now).Committed?
    ensures NoWorse(s, CreateOrder(s, items, status, expiresAt, seen, now).state, t)
  {
    var o := |s.orders|;
    var s0 := s.(orders := s.orders + [Order(status, items, false)]);
    var lines := OrderLines(o, items);
    SoldAppend(s.orders, Order(status, items, false), t);
    InsertKeepsGap(s0, Some(o), lines, expiresAt, t);
    if status == Confirmed {
      var s1 := InsertFrom(s0, Some(o), lines, expiresAt).state;
      ReserveForNewOrderSound(s, items, status, expiresAt, seen);
      NewHoldsAreUnsold(s, s0, items, expiresAt);
      NoneSoldYet(s1.holds, o, t);
      SweepKeepsGap(s1, ConvertOrder(o), 0, now, t);
      assert s1.holds[0..] == s1.holds;
    }
  }

  lemma LooseKeepsSurplus(s: State, lines: seq<Line>, expiresAt: Time, seen: map<TypeId, int>, t: TypeId)
    requires Sound(s) && t in s.types && Reserve(s, None, lines, expiresAt, seen).Committed?
    ensures NoWorse(s, Reserve(s, None, lines, expiresAt, seen).state, t)
  {
    InsertKeepsGap(s, None, lines, expiresAt, t);
  }

  /** Closing an order and releasing its holds. */
  lemma ReleaseKeepsSurplus(s: State, o: OrderId, order: Order, now: Time, t: TypeId)
    requires Sound(s) && t in s.types && o < |s.orders| && order.items == s.orders[o].items && !Counted(order)
    requires TypesKnown(s.(orders := s.orders[o := order]))
    requires SweepFrom(s.(orders := s.orders[o := order]), ReleaseOrder(o), 0, now).Committed?
    ensures NoWorse(s, SweepFrom(s.(orders := s.orders[o := order]), ReleaseOrder(o), 0, now).state, t)
  {
    SoldUpdate(s.orders, o, order, t);
    SweepKeepsGap(s.(orders := s.orders[o := order]), ReleaseOrder(o), 0, now, t);
  }

  /** The update sells an order's items without converting its holds. */
  predicate SellsUnconverted(s: State, o: OrderId, next: OrderStatus) {
    o < |s.orders| && (next == Paid || next == Completed) && !Settled(s.orders[o].status)
  }

  lemma ConversionKeepsSurplus(s: State, o: OrderId, now: Time, t: TypeId)
    requires Sound(s) && t in s.types && o < |s.orders| && !s.orders[o].deleted
    requires Settled(s.orders[o].status) || !MayHaveSold(s.orders[o])
    requires SweepFrom(WithStatus(s, o, Confirmed), ConvertOrder(o), 0, now).Committed?
    ensures NoWorse(s, SweepFrom(WithStatus(s, o, Confirmed), ConvertOrder(o), 0, now).state, t)
  {
    var s0 := WithStatus(s, o, Confirmed);
    SoldUpdate(s.orders, o, s0.orders[o], t);
    assert s0.holds[0..] == s0.holds;
    SweepKeepsGap(s0, ConvertOrder(o), 0, now, t);
    if !Settled(s.orders[o].status) {
      UnsettledOwesItsItems(s, o, t);
    }
  }

  /** Writing a status without moving holds. */
  lemma PlainUpdateSurplus(s: State, o: OrderId, next: OrderStatus, t: TypeId)
    requires t in s.types && o < |s.orders| && !s.orders[o].deleted
    ensures var s' := WithStatus(s, o, next);
      && Gap(s', t) == Gap(s, t)
      && (!Settled(s.orders[o].status) && Settled(next) ==> Surplus(s', t) == Surplus(s, t) - ItemQuantity(s.orders[o].items, t))
      && (Settled(s.orders[o].status) || !Settled(next) ==> Surplus(s', t) >= Surplus(s, t))
  {
    SoldUpdate(s.orders, o, s.orders[o].(status := next), t);
  }

  /** A status change costs the surplus nothing, except that writing Paid or Completed costs it the order's items. */
  lemma UpdateSurplus(s: State, o: OrderId, next: OrderStatus, now: Time, t: TypeId)
    requires Sound(s) && t in s.types && UpdateOrder(s, o, next, now).Committed?
    ensures t in UpdateOrder(s, o, next, now).state.types
    ensures !SellsUnconverted(s, o, next) ==> NoWorse(s, UpdateOrder(s, o, next, now).state, t)
    ensures SellsUnconverted(s, o, next) ==>
      && Surplus(UpdateOrder(s, o, next, now).state, t) == Surplus(s, t) - ItemQuantity(s.orders[o].items, t)
      && Gap(UpdateOrder(s, o, next, now).state, t) == Gap(s, t)
  {
    UpdateBranches(s, o, next, now);
    var current := s.orders[o].status;
    if !Terminal(current) && Terminal(next) {
      ReleaseKeepsSurplus(s, o, s.orders[o].(status := next), now, t);
    } else if next == Confirmed && current != Confirmed {
      ConversionKeepsSurplus(s, o, now, t);
    } else {
      PlainUpdateSurplus(s, o, next, t);
    }
  }

  lemma DeleteKeepsSurplus(s: State, o: OrderId, now: Time, t: TypeId)
    requires Sound(s) && t in s.types && DeleteOrder(s, o, now).Committed?
    ensures NoWorse(s, DeleteOrder(s, o, now).state, t)
  {
    var order := s.orders[o].(status := OrderStatus.Cancelled, deleted := true);
    if Terminal(s.orders[o].status) {
      SoldUpdate(s.orders, o, order, t);
    } else {
      ReleaseKeepsSurplus(s, o, order, now, t);
    }
  }

  lemma RefundKeepsSurplus(s: State, o: OrderId, full: bool, now: Time, t: TypeId)
    requires Sound(s) && t in s.types && RefundOrder(s, o, full, now).Committed?
    ensures NoWorse(s, RefundOrder(s, o, full, now).state, t)
  {
    if full {
      ReleaseKeepsSurplus(s, o, s.orders[o].(status := OrderStatus.Refunded), now, t);
    } else {
      SoldUpdate(s.orders, o, s.orders[o].(status := PartiallyRefunded), t);
    }
  }

  lemma FailKeepsSurplus(s: State, o: OrderId, now: Time, t: TypeId)
    requires Sound(s) && t in s.types && FailPayment(s, o, now).Committed?
    ensures NoWorse(s, FailPayment(s, o, now).state, t)
  {
    if o < |s.orders| && !Settled(s.orders[o].status) {
      ReleaseKeepsSurplus(s, o, s.orders[o].(status := OrderStatus.Cancelled), now, t);
    }
  }

  /** Nothing sold may start converting, so a payment is only ever accepted for holds not sold yet. */
  lemma BookedHoldsWereUnsold(s: State, o: OrderId, now: Time, t: TypeId)
    requires TypesKnown(s) && SweepFrom(s, BookOrder(o), 0, now).Committed?
    ensures Quantity(s.holds, Unsold(o), t) == Quantity(s.holds, OfOrder(o), t)
  {
    SweepMovesExactlyTouched(s, BookOrder(o), 0, now);
    forall i | 0 <= i < |s.holds| && s.holds[i].order == Some(o) ensures !IsSold(s.holds[i].status) {
      assert Touches(BookOrder(o), i, s.holds[i]);
    }
    NoneSoldYet(s.holds, o, t);
  }

  lemma OnTimePaymentKeepsSurplus(s: State, o: OrderId, now: Time, t: TypeId)
    requires Sound(s) && t in s.types && o < |s.orders|
    requires SweepFrom(SettledByPayment(s, o), BookOrder(o), 0, now).Committed?
    ensures NoWorse(s, SweepFrom(SettledByPayment(s, o), BookOrder(o), 0, now).state, t)
  {
    var s0 := SettledByPayment(s, o);
    SoldUpdate(s.orders, o, s0.orders[o], t);
    assert s0.holds[0..] == s0.holds;
    SweepKeepsGap(s0, BookOrder(o), 0, now, t);
    BookedHoldsWereUnsold(s0, o, now, t);
  }

  lemma LatePaymentKeepsSurplus(s: State, o: OrderId, outcome: HoldStatus, now: Time, t: TypeId)
    requires Sound(s) && t in s.types && o < |s.orders| && !IsOpen(outcome)
    requires RefundFrom(ExpiredByPayment(s, o), o, 0, outcome, now).Committed?
    ensures NoWorse(s, RefundFrom(ExpiredByPayment(s, o), o, 0, outcome, now).state, t)
  {
    var s0 := ExpiredByPayment(s, o);
    var s' := RefundFrom(s0, o, 0, outcome, now).state;
    SoldUpdate(s.orders, o, s0.orders[o], t);
    RefundSetsAside(s0, o, 0, outcome, now);
    ClosingKeepsOpenBelow(s0.holds, s'.holds, t);
  }

  lemma ConfirmKeepsSurplus(s: State, o: OrderId, outcome: HoldStatus, now: Time, t: TypeId)
    requires Sound(s) && t in s.types && ConfirmPayment(s, o, outcome, now).Committed?
    ensures NoWorse(s, ConfirmPayment(s, o, outcome, now).state, t)
  {
    PaymentBranches(s, o, outcome, now);
    if OnTime(s, o, now) {
      OnTimePaymentKeepsSurplus(s, o, now, t);
    } else {
      LatePaymentKeepsSurplus(s, o, outcome, now, t);
    }
  }

  lemma ExtendKeepsSurplus(s: State, o: OrderId, seconds: int, now: Time, t: TypeId)
    requires Sound(s) && t in s.types && ExtendFrom(s, o, 0, seconds, now).Committed?
    ensures NoWorse(s, ExtendFrom(s, o, 0, seconds, now).state, t)
  {
    ExtensionProlongs(s, o, 0, seconds, now);
    ClosingKeepsOpenBelow(s.holds, ExtendFrom(s, o, 0, seconds, now).state.holds, t);
  }

  lemma ExpireKeepsSurplus(s: State, rows: set<nat>, now: Time, t: TypeId)
    requires Sound(s) && t in s.types
    ensures NoWorse(s, After(s, Expire(rows, now)), t)
  {
    var w := ExpiryIsASweep(s, rows, now);
    SweepKeepsGap(s, w, 0, now, t);
  }

  // ---------------------------------------------------------------------------------------
  //  Coin checkout
  // ---------------------------------------------------------------------------------------

  /** The reserved counter once a coin checkout has taken the order's quantity off it. */
  function ReservedLess(s: State, o: OrderId, t: TypeId): int
    requires t in s.types
  {
    Max(0, s.types[t].reserved - Quantity(s.holds, OfOrder(o), t))
  }

  lemma CoinRowCounts(s: State, o: OrderId, i: nat, now: Time, t: TypeId)
    requires i < |s.holds| && TypesKnown(s) && t in s.types && CoinRow(s, o, i, now).Committed?
    ensures var s' := CoinRow(s, o, i, now).state;
      var q := Share(OfOrder(o), s.holds[i], t);
      && s'.types[t].sold == s.types[t].sold + q
      && (s.types[t].reserved >= 0 ==> s'.types[t].reserved == Max(0, s.types[t].reserved - q))
      && Quantity(s'.holds, Open, t) == Quantity(s.holds, Open, t) - Share(OpenOf(o), s.holds[i], t)
      && s'.holds[i + 1..] == s.holds[i + 1..]
  {
    if s.holds[i].order == Some(o) {
      QuantityUpdate(s.holds, i, Moved(s.holds[i], Booked, now), Open, t);
    }
  }

  lemma QuantityStep(holds: seq<Hold>, m: Measure, i: nat, t: TypeId)
    requires i < |holds|
    ensures Quantity(holds[i..], m, t) == Share(m, holds[i], t) + Quantity(holds[i + 1..], m, t)
  {
    assert holds[i..][1..] == holds[i + 1..];
  }

  /** A coin checkout counts the whole order as sold and takes it off the reserved counter, sold before or not. */
  lemma {:induction false} CoinCounts(s: State, o: OrderId, i: nat, now: Time, t: TypeId)
    requires i <= |s.holds| && TypesKnown(s) && t in s.types && s.types[t].reserved >= 0
    requires CoinFrom(s, o, i, now).Committed?
    ensures var s' := CoinFrom(s, o, i, now).state;
      && s'.types[t].sold == s.types[t].sold + Quantity(s.holds[i..], OfOrder(o), t)
      && s'.types[t].reserved == Max(0, s.types[t].reserved - Quantity(s.holds[i..], OfOrder(o), t))
      && Quantity(s'.holds, Open, t) == Quantity(s.holds, Open, t) - Quantity(s.holds[i..], OpenOf(o), t)
    decreases |s.holds| - i
  {
    if i < |s.holds| {
      CoinRowCounts(s, o, i, now, t);
      QuantityStep(s.holds, OfOrder(o), i, t);
      QuantityStep(s.holds, OpenOf(o), i, t);
      CoinCounts(CoinRow(s, o, i, now).state, o, i + 1, now, t);
    }
  }

  /** What others hold of a type when an order's own holds are left out. */
  function OpenElsewhere(s: State, o: OrderId, t: TypeId): int {
    Quantity(s.holds, Open, t) - Quantity(s.holds, OpenOf(o), t)
  }

  /** The counters still cover the type after a coin checkout of the order that was not counted as sold. */
  ghost predicate CoinCovers(s: State, o: OrderId, t: TypeId)
    requires o < |s.orders| && t in s.types
  {
    Counted(s.orders[o]) || s.orders[o].deleted
    || Sold(s.orders, t) + OpenElsewhere(s, o, t) <= s.types[t].sold + ReservedLess(s, o, t)
  }

  lemma {:induction false} PartOfOrder(holds: seq<Hold>, o: OrderId, t: TypeId)
    ensures Quantity(holds, OpenOf(o), t) <= Quantity(holds, OfOrder(o), t)
  {
    if holds != [] {
      PartOfOrder(holds[1..], o, t);
    }
  }

  lemma CoinSurplus(s: State, o: OrderId, read: OrderStatus, now: Time, t: TypeId)
    requires Sound(s) && t in s.types && Surplus(s, t) >= 0 && CoinCheckout(s, o, read, now).Committed?
    ensures var s' := CoinCheckout(s, o, read, now).state;
      && t in s'.types
      && (Surplus(s', t) >= 0 <==> CoinCovers(s, o, t))
      && (Gap(s', t) >= 0 <==> OpenElsewhere(s, o, t) <= ReservedLess(s, o, t))
  {
    var s0 := WithStatus(s, o, Paid);
    assert s0.holds[0..] == s0.holds;
    SoldUpdate(s.orders, o, s0.orders[o], t);
    assert RowAllowed(s.types[t]);
    CoinCounts(s0, o, 0, now, t);
    PartOfOrder(s.holds, o, t);
    assert Quantity(s.holds, OfOrder(o), t) == ItemQuantity(s.orders[o].items, t);
  }

  // ---------------------------------------------------------------------------------------
  //  Which steps keep the counters covering the rows
  // ---------------------------------------------------------------------------------------

  /** Everything the counters of a type have to cover. */
  function Load(s: State, t: TypeId): nat {
    Sold(s.orders, t) + Quantity(s.holds, Open, t)
  }

  /**
   What a step needs of a type for the counters to go on covering it. An order becomes sold by
   conversion, or within the surplus; a coin checkout finds room for what it counts; a repair and an
   edit write counters that cover the rows as they are by then.
   */
  ghost predicate RoomFor(s: State, op: Op, t: TypeId)
    requires t in s.types
  {
    match op
    case Update(o, next, _) => SellsUnconverted(s, o, next) ==> ItemQuantity(s.orders[o].items, t) <= Surplus(s, t)
    case Coin(o, _, _) => o < |s.orders| ==> CoinCovers(s, o, t)
    case Repair(u, sold, reserved) => u == t ==> Load(s, t) <= sold + reserved
    case Edit(u, total, sold, reserved) =>
      var row := Edited(s.types[t], total, sold, reserved);
      u == t ==> Load(s, t) <= row.sold + row.reserved
    case _ => true
  }

  /** The same for the reserved counter alone. */
  ghost predicate RoomToHold(s: State, op: Op, t: TypeId)
    requires t in s.types
  {
    match op
    case Coin(o, _, _) => OpenElsewhere(s, o, t) <= ReservedLess(s, o, t)
    case Repair(u, _, reserved) => u == t ==> Quantity(s.holds, Open, t) <= reserved
    case Edit(u, total, sold, reserved) => u == t ==> Quantity(s.holds, Open, t) <= Edited(s.types[t], total, sold, reserved).reserved
    case _ => true
  }

  ghost predicate HasRoom(s: State, op: Op) {
    forall t :: t in s.types ==> RoomFor(s, op, t)
  }

  ghost predicate HasRoomToHold(s: State, op: Op) {
    forall t :: t in s.types ==> RoomToHold(s, op, t)
  }

  /** A step is disciplined if it is refused or there is room for it. */
  ghost predicate Disciplined(s: State, op: Op)
    requires TypesKnown(s)
  {
    Attempt(s, op).Committed? ==> HasRoom(s, op)
  }

  lemma {:induction false} UnknownTypeUnheld(holds: seq<Hold>, m: Measure, t: TypeId)
    requires forall i :: 0 <= i < |holds| ==> holds[i].typeId != t
    ensures Quantity(holds, m, t) == 0
  {
    if holds != [] {
      UnknownTypeUnheld(holds[1..], m, t);
    }
  }

  lemma {:induction false} UnlistedTypeUnsold(orders: seq<Order>, t: TypeId)
    requires forall o :: 0 <= o < |orders| ==> ItemQuantity(orders[o].items, t) == 0
    ensures Sold(orders, t) == 0
  {
    if orders != [] {
      UnlistedTypeUnsold(orders[1..], t);
    }
  }

  /** A type the platform does not know has nothing held and nothing sold. */
  lemma UnknownTypeIsFree(s: State, t: TypeId)
    requires Sound(s) && t !in s.types
    ensures Quantity(s.holds, Open, t) == 0 && Sold(s.orders, t) == 0
  {
    UnknownTypeUnheld(s.holds, Open, t);
    forall o | 0 <= o < |s.orders| ensures ItemQuantity(s.orders[o].items, t) == 0 {
      UnknownTypeUnheld(s.holds, OfOrder(o), t);
    }
    UnlistedTypeUnsold(s.orders, t);
  }

  lemma RowWritten(s: State, op: Op, t: TypeId)
    requires Sound(s) && Attempt(s, op).Committed? && (op.Repair? || op.Edit? || op.Add?) && t in After(s, op).types
    requires t in s.types ==> Surplus(s, t) >= 0
    ensures t in s.types ==> (Surplus(After(s, op), t) >= 0 <==> RoomFor(s, op, t))
    ensures t !in s.types ==> Surplus(After(s, op), t) >= 0 && Gap(After(s, op), t) >= 0
    ensures t in s.types && Gap(s, t) >= 0 ==> (Gap(After(s, op), t) >= 0 <==> RoomToHold(s, op, t))
  {
    if t !in s.types {
      UnknownTypeIsFree(s, t);
    }
  }

  /** One committed step, one type: covered afterwards exactly when there was room for the step. */
  lemma TypeAfterStep(s: State, op: Op, t: TypeId)
    requires Sound(s) && Attempt(s, op).Committed? && t in s.types && Surplus(s, t) >= 0
    ensures t in After(s, op).types
    ensures Surplus(After(s, op), t) >= 0 <==> RoomFor(s, op, t)
    ensures Gap(s, t) >= 0 ==> (Gap(After(s, op), t) >= 0 <==> RoomToHold(s, op, t))
  {
    match op
    case Create(items, status, expiresAt, seen, at) => CreateKeepsSurplus(s, items, status, expiresAt, seen, at, t);
    case ReserveLoose(lines, expiresAt, seen) => LooseKeepsSurplus(s, lines, expiresAt, seen, t);
    case Update(o, next, at) => UpdateSurplus(s, o, next, at, t);
    case Delete(o, at) => DeleteKeepsSurplus(s, o, at, t);
    case Confirm(o, outcome, at) => ConfirmKeepsSurplus(s, o, outcome, at, t);
    case Coin(o, read, at) => CoinSurplus(s, o, read, at, t);
    case Refund(o, full, at) => RefundKeepsSurplus(s, o, full, at, t);
    case Fail(o, at) => FailKeepsSurplus(s, o, at, t);
    case Expire(rows, at) => ExpireKeepsSurplus(s, rows, at, t);
    case Extend(o, seconds, at) => ExtendKeepsSurplus(s, o, seconds, at, t);
    case Repair(_, _, _) => RowWritten(s, op, t);
    case Edit(_, _, _, _) => RowWritten(s, op, t);
    case Add(_, _, _, _) => RowWritten(s, op, t);
  }

  /** No step but the addition of a type brings a new one, and no step drops one. */
  lemma TypesAfterStep(s: State, op: Op, t: TypeId)
    requires Sound(s) && t in After(s, op).types && t !in s.types
    ensures op.Add? && op.typeId == t && Attempt(s, op).Committed?
  {
  }

  /** Covering counters still cover every type after a step exactly when the step is disciplined. */
  lemma StepKeepsBackedIff(s: State, op: Op)
    requires Sound(s) && Backed(s)
    ensures Backed(After(s, op)) <==> Disciplined(s, op)
  {
    var s' := After(s, op);
    if Attempt(s, op).Committed? {
      forall t | t in s.types ensures t in s'.types && (Surplus(s', t) >= 0 <==> RoomFor(s, op, t)) {
        TypeAfterStep(s, op, t);
      }
      forall t | t in s'.types && t !in s.types ensures Surplus(s', t) >= 0 {
        TypesAfterStep(s, op, t);
        RowWritten(s, op, t);
      }
    }
  }

  /** The same for the reserved counter: it goes on covering what is open exactly when the step leaves it room. */
  lemma StepKeepsHeldIff(s: State, op: Op)
    requires Sound(s) && Backed(s) && HeldIsReserved(s)
    ensures HeldIsReserved(After(s, op)) <==> (Attempt(s, op).Committed? ==> HasRoomToHold(s, op))
  {
    var s' := After(s, op);
    if Attempt(s, op).Committed? {
      forall t | t in s.types ensures t in s'.types && (Gap(s', t) >= 0 <==> RoomToHold(s, op, t)) {
        TypeAfterStep(s, op, t);
      }
      forall t | t in s'.types && t !in s.types ensures Gap(s', t) >= 0 {
        TypesAfterStep(s, op, t);
        RowWritten(s, op, t);
      }
    }
  }

  // ---------------------------------------------------------------------------------------
  //  Why the counters must cover the rows
  // ---------------------------------------------------------------------------------------

  ghost predicate Oversold(s: State, t: TypeId)
    requires t in s.types
  {
    Load(s, t) > s.types[t].total
  }

  function FreshToken(holds: seq<Hold>): (id: nat)
    ensures forall i :: 0 <= i < |holds| && holds[i].token.CallerToken? ==> holds[i].token.id < id
  {
    if holds == [] then 0
    else
      var rest := FreshToken(holds[1..]);
      if holds[0].token.CallerToken? then Max(rest, holds[0].token.id + 1) else rest
  }

  /** A reservation of everything the row still admits, made with an availability read long ago. */
  function TakeTheRest(s: State, t: TypeId, until: Time): Op
    requires t in s.types && RowAllowed(s.types[t])
  {
    var rest := s.types[t].total - s.types[t].sold - s.types[t].reserved;
    ReserveLoose([Line(t, rest, CallerToken(FreshToken(s.holds)))], until, map[t := rest])
  }

  lemma TakingTheRestFills(s: State, t: TypeId, until: Time)
    requires Sound(s) && t in s.types
    ensures var s' := After(s, TakeTheRest(s, t, until));
      && t in s'.types && s'.types[t].total == s.types[t].total
      && s'.types[t].sold + s'.types[t].reserved == s.types[t].total
      && Surplus(s', t) == Surplus(s, t)
  {
    var rest := s.types[t].total - s.types[t].sold - s.types[t].reserved;
    var line := Line(t, rest, CallerToken(FreshToken(s.holds)));
    assert RowAllowed(s.types[t]);
    assert !TokenTaken(s.holds, line.token);
    if rest > 0 {
      assert [line][1..] == [] && LineError(s, [line][1..], map[t := rest]) == None;
      assert LineError(s, [line], map[t := rest]) == None;
      var r := InsertLine(s, None, line, until);
      assert InsertFrom(r.state, None, [line][1..], until) == r;
      InsertKeepsGap(s, None, [line], until, t);
    }
  }

  /**
   A type's counters cover its rows exactly when no reservation, however old the availability it
   read, can take the type past its total.
   */
  lemma CoveredIffNoneCanOversell(s: State, t: TypeId)
    requires Sound(s) && t in s.types
    ensures Surplus(s, t) >= 0 <==> forall lines, until, seen :: NotOversoldBy(s, ReserveLoose(lines, until, seen), t)
  {
    if Surplus(s, t) >= 0 {
      forall lines, until, seen ensures NotOversoldBy(s, ReserveLoose(lines, until, seen), t) {
        var op := ReserveLoose(lines, until, seen);
        StepKeepsSound(s, op);
        if Attempt(s, op).Committed? {
          LooseKeepsSurplus(s, lines, until, seen, t);
        }
        assert RowAllowed(After(s, op).types[t]);
      }
    } else {
      TakingTheRestFills(s, t, 0);
      assert !NotOversoldBy(s, TakeTheRest(s, t, 0), t);
    }
  }

  ghost predicate NotOversoldBy(s: State, op: Op, t: TypeId)
    requires TypesKnown(s)
  {
    t in After(s, op).types && !Oversold(After(s, op), t)
  }

  // ---------------------------------------------------------------------------------------
  //  Runs
  // ---------------------------------------------------------------------------------------

  ghost function Execute(s: State, ops: seq<Op>): (s': State)
    requires Sound(s)
    ensures Sound(s')
    decreases |ops|
  {
    if ops == [] then s else StepKeepsSound(s, ops[0]); Execute(After(s, ops[0]), ops[1..])
  }

  ghost predicate DisciplinedRun(s: State, ops: seq<Op>)
    requires Sound(s)
    decreases |ops|
  {
    ops != [] ==>
      && Disciplined(s, ops[0])
      && (StepKeepsSound(s, ops[0]); DisciplinedRun(After(s, ops[0]), ops[1..]))
  }

  lemma {:induction false} RunKeepsBacked(s: State, ops: seq<Op>)
    requires Sound(s) && Backed(s) && DisciplinedRun(s, ops)
    ensures Backed(Execute(s, ops))
    decreases |ops|
  {
    if ops != [] {
      StepKeepsSound(s, ops[0]);
      StepKeepsBackedIff(s, ops[0]);
      RunKeepsBacked(After(s, ops[0]), ops[1..]);
    }
  }

  /** A platform with capacities but nothing held or sold yet. */
  predicate Fresh(s: State) {
    s.holds == [] && s.orders == [] && forall t :: t in s.types ==> s.types[t].sold == s.types[t].reserved == 0 <= s.types[t].total
  }

  /** Nobody can reserve past the total of the type, and what is sold, held and available add up to it. */
  ghost predicate WithinTotal(s: State, t: TypeId, now: Time)
    requires t in s.types
  {
    && Sold(s.orders, t) + Quantity(s.holds, Unexpired(now), t) + Available(s, t, now) == s.types[t].total
    && Available(s, t, now) >= 0
  }

  lemma CoveredIsWithinTotal(s: State, t: TypeId, now: Time)
    requires Sound(s) && t in s.types && Surplus(s, t) >= 0
    ensures WithinTotal(s, t, now) && !Oversold(s, t)
  {
    OpenIsUnexpiredPlusLapsed(s.holds, t, now);
    assert RowAllowed(s.types[t]);
  }

  /**
   No overselling. From a fresh platform, after any disciplined run of any length, whatever
   availability each transaction believed it saw, at every moment and for every type there is: what
   is sold, what is held and what is available add up to the type's total, and none is negative.
   */
  lemma NoOversell(s: State, ops: seq<Op>, t: TypeId, now: Time)
    requires Fresh(s)
    ensures Sound(s)
    ensures DisciplinedRun(s, ops) && t in Execute(s, ops).types ==> WithinTotal(Execute(s, ops), t, now)
  {
    assert Sound(s) && Backed(s);
    if DisciplinedRun(s, ops) && t in Execute(s, ops).types {
      RunKeepsBacked(s, ops);
      CoveredIsWithinTotal(Execute(s, ops), t, now);
    }
  }

  /** In every run, disciplined or not, one order never has two holds of the same ticket type. */
  lemma OneHoldPerOrderAndType(s: State, ops: seq<Op>, i: nat, j: nat)
    requires Sound(s)
    requires i < |Execute(s, ops).holds| && j < |Execute(s, ops).holds| && i != j
    requires Execute(s, ops).holds[i].order.Some? && Execute(s, ops).holds[i].order == Execute(s, ops).holds[j].order
    ensures Execute(s, ops).holds[i].typeId != Execute(s, ops).holds[j].typeId
  {
    var holds := Execute(s, ops).holds;
    assert holds[i].token != holds[j].token;
  }

  // ---------------------------------------------------------------------------------------
  //  Totals
  // ---------------------------------------------------------------------------------------

  /** The same ticket types with the same totals. */
  ghost predicate SameCapacity(s: State, s': State) {
    s'.types.Keys == s.types.Keys && forall t :: t in s.types ==> s'.types[t].total == s.types[t].total
  }

  lemma {:induction false} SweepKeepsCapacity(s: State, w: Sweep, i: nat, now: Time)
    requires i <= |s.holds| && TypesKnown(s) && SweepFrom(s, w, i, now).Committed?
    ensures SameCapacity(s, SweepFrom(s, w, i, now).state)
    decreases |s.holds| - i
  {
    if i < |s.holds| {
      SweepKeepsCapacity(SweepRow(s, w, i, now).state, w, i + 1, now);
    }
  }

  lemma {:induction false} CoinKeepsCapacity(s: State, o: OrderId, i: nat, now: Time)
    requires i <= |s.holds| && TypesKnown(s) && CoinFrom(s, o, i, now).Committed?
    ensures SameCapacity(s, CoinFrom(s, o, i, now).state)
    decreases |s.holds| - i
  {
    if i < |s.holds| {
      CoinKeepsCapacity(CoinRow(s, o, i, now).state, o, i + 1, now);
    }
  }

  lemma {:induction false} InsertKeepsCapacity(s: State, order: Option<OrderId>, lines: seq<Line>, expiresAt: Time)
    requires LinesKnown(s, lines) && InsertFrom(s, order, lines, expiresAt).Committed?
    ensures SameCapacity(s, InsertFrom(s, order, lines, expiresAt).state)
    decreases |lines|
  {
    if lines != [] {
      InsertKeepsCapacity(InsertLine(s, order, lines[0], expiresAt).state, order, lines[1..], expiresAt);
    }
  }

  lemma CreateKeepsCapacity(s: State, items: seq<Item>, status: OrderStatus, expiresAt: Time, seen: map<TypeId, int>, now: Time)
    requires Sound(s) && CreateOrder(s, items, status, expiresAt, seen, now).Committed?
    ensures SameCapacity(s, CreateOrder(s, items, status, expiresAt, seen, now).state)
  {
    var s0 := s.(orders := s.orders + [Order(status, items, false)]);
    var lines := OrderLines(|s.orders|, items);
    InsertKeepsCapacity(s0, Some(|s.orders|), lines, expiresAt);
    if status == Confirmed {
      SweepKeepsCapacity(InsertFrom(s0, Some(|s.orders|), lines, expiresAt).state, ConvertOrder(|s.orders|), 0, now);
    }
  }

  lemma UpdateKeepsCapacity(s: State, o: OrderId, next: OrderStatus, now: Time)
    requires Sound(s) && UpdateOrder(s, o, next, now).Committed?
    ensures SameCapacity(s, UpdateOrder(s, o, next, now).state)
  {
    var s0 := WithStatus(s, o, next);
    if !Terminal(s.orders[o].status) && Terminal(next) {
      SweepKeepsCapacity(s0, ReleaseOrder(o), 0, now);
    } else if next == Confirmed && s.orders[o].status != Confirmed {
      SweepKeepsCapacity(s0, ConvertOrder(o), 0, now);
    }
  }

  /** Deleting an order, refunding it, or declining its payment. */
  lemma ClosingKeepsCapacity(s: State, op: Op)
    requires Sound(s) && (op.Delete? || op.Refund? || op.Fail?)
    ensures SameCapacity(s, After(s, op))
  {
    if Attempt(s, op).Committed? && op.order < |s.orders| {
      var s0 := s.(orders := After(s, op).orders);
      if SweepFrom(s0, ReleaseOrder(op.order), 0, op.at).Committed? {
        SweepKeepsCapacity(s0, ReleaseOrder(op.order), 0, op.at);
      }
    }
  }

  /** Only an edit changes a type's total, and only the addition of a type brings a new one. */
  lemma StepKeepsCapacity(s: State, op: Op)
    requires Sound(s)
    ensures !op.Edit? && !op.Add? ==> SameCapacity(s, After(s, op))
    ensures forall t :: t in s.types && (op.Edit? ==> op.typeId != t || op.total.None?) ==>
      t in After(s, op).types && After(s, op).types[t].total == s.types[t].total
  {
    if Attempt(s, op).Committed? {
      match op
      case Create(items, status, expiresAt, seen, at) => CreateKeepsCapacity(s, items, status, expiresAt, seen, at);
      case ReserveLoose(lines, expiresAt, seen) => InsertKeepsCapacity(s, None, lines, expiresAt);
      case Update(o, next, at) => UpdateKeepsCapacity(s, o, next, at);
      case Delete(_, _) => ClosingKeepsCapacity(s, op);
      case Confirm(o, outcome, at) =>
        PaymentBranches(s, o, outcome, at);
        if OnTime(s, o, at) {
          SweepKeepsCapacity(SettledByPayment(s, o), BookOrder(o), 0, at);
        }
      case Coin(o, read, at) => CoinKeepsCapacity(WithStatus(s, o, Paid), o, 0, at);
      case Refund(_, _, _) => ClosingKeepsCapacity(s, op);
      case Fail(_, _) => ClosingKeepsCapacity(s, op);
      case Expire(rows, at) =>
        var w := ExpiryIsASweep(s, rows, at);
        SweepKeepsCapacity(s, w, 0, at);
      case Extend(_, _, _) =>
      case Repair(_, _, _) =>
      case Edit(_, _, _, _) =>
      case Add(_, _, _, _) =>
    }
  }

  /** In every run, disciplined or not, a type whose total nobody edits keeps it. */
  lemma {:induction false} RunKeepsCapacity(s: State, ops: seq<Op>, t: TypeId)
    requires Sound(s) && t in s.types
    requires forall k :: 0 <= k < |ops| && ops[k].Edit? ==> ops[k].typeId != t || ops[k].total.None?
    ensures t in Execute(s, ops).types && Execute(s, ops).types[t].total == s.types[t].total
    decreases |ops|
  {
    if ops != [] {
      StepKeepsSound(s, ops[0]);
      StepKeepsCapacity(s, ops[0]);
      RunKeepsCapacity(After(s, ops[0]), ops[1..], t);
    }
  }
}
