/**
 When a group of holds can move, and what the move does: a sweep is refused exactly when one of
 its rows may not make the move, never because of the counters.
 */
module InventoryMoves {
  import opened Common
  import opened Inventory
  import opened InventorySafety

  lemma {:induction false} OneIsPartOfAll(holds: seq<Hold>, i: nat, m: Measure, t: TypeId)
    requires i < |holds|
    ensures Share(m, holds[i], t) <= Quantity(holds, m, t)
  {
    if i > 0 {
      OneIsPartOfAll(holds[1..], i - 1, m, t);
    }
  }

  ghost predicate RowPermitted(s: State, w: Sweep, i: nat)
    requires i < |s.holds|
  {
    Touches(w, i, s.holds[i]) ==> Permitted(w, s.holds[i].status)
  }

  /** Only a sale can fail for lack of room, and not while the reserved counter covers what is open. */
  ghost predicate Roomy(s: State, w: Sweep) {
    IsSold(Target(w)) ==> HeldIsReserved(s)
  }

  lemma RowCommitsIff(s: State, w: Sweep, i: nat, now: Time)
    requires i < |s.holds| && TypesKnown(s) && RowsAllowed(s) && Roomy(s, w)
    ensures SweepRow(s, w, i, now).Committed? <==> RowPermitted(s, w, i)
  {
    OneIsPartOfAll(s.holds, i, Open, s.holds[i].typeId);
    assert RowAllowed(s.types[s.holds[i].typeId]);
  }

  lemma RowKeepsRoomy(s: State, w: Sweep, i: nat, now: Time)
    requires i < |s.holds| && TypesKnown(s) && RowsAllowed(s) && Roomy(s, w)
    requires SweepRow(s, w, i, now).Committed?
    ensures RowsAllowed(SweepRow(s, w, i, now).state) && Roomy(SweepRow(s, w, i, now).state, w)
  {
    var s' := SweepRow(s, w, i, now).state;
    forall t | t in s'.types ensures RowAllowed(s'.types[t]) && Gap(s', t) >= Gap(s, t) {
      RowKeepsGap(s, w, i, now, t);
    }
  }

  /** Every row from i on may make the sweep's move. */
  ghost predicate AllPermitted(s: State, w: Sweep, i: nat) {
    forall j :: i <= j < |s.holds| ==> RowPermitted(s, w, j)
  }

  lemma LaterRowsUnaffected(s: State, w: Sweep, i: nat, now: Time)
    requires i < |s.holds| && TypesKnown(s) && SweepRow(s, w, i, now).Committed?
    ensures AllPermitted(SweepRow(s, w, i, now).state, w, i + 1) <==> AllPermitted(s, w, i + 1)
  {
    var s' := SweepRow(s, w, i, now).state;
    forall j | i < j < |s.holds| ensures RowPermitted(s', w, j) == RowPermitted(s, w, j) {
      assert s'.holds[j] == s.holds[j];
    }
  }

  /** A sweep commits exactly when every row it touches may move. */
  lemma {:induction false} SweepCommitsIff(s: State, w: Sweep, i: nat, now: Time)
    requires i <= |s.holds| && TypesKnown(s) && RowsAllowed(s) && Roomy(s, w)
    ensures SweepFrom(s, w, i, now).Committed? <==> AllPermitted(s, w, i)
    decreases |s.holds| - i
  {
    if i < |s.holds| {
      RowCommitsIff(s, w, i, now);
      if RowPermitted(s, w, i) {
        RowKeepsRoomy(s, w, i, now);
        LaterRowsUnaffected(s, w, i, now);
        SweepCommitsIff(SweepRow(s, w, i, now).state, w, i + 1, now);
      }
    }
  }

  // ---------------------------------------------------------------------------------------
  //  Payments and releases
  // ---------------------------------------------------------------------------------------

  ghost predicate MayConvert(s: State, o: OrderId) {
    forall i :: 0 <= i < |s.holds| && s.holds[i].order == Some(o) ==> MayBecome(s.holds[i].status, Converting)
  }

  lemma OnTimePaymentIsASweep(s: State, o: OrderId, outcome: HoldStatus, now: Time)
    requires TypesKnown(s) && o < |s.orders| && HasHold(s, o) && OnTime(s, o, now)
    ensures ConfirmPayment(s, o, outcome, now) == SweepFrom(SettledByPayment(s, o), BookOrder(o), 0, now)
      || (ConfirmPayment(s, o, outcome, now).Refused? && !MayConvert(s, o))
  {
  }

  /** An on-time payment is accepted exactly when every hold of the order may start converting. */
  lemma OnTimePaymentCommitsIff(s: State, o: OrderId, outcome: HoldStatus, now: Time)
    requires Sound(s) && HeldIsReserved(s) && o < |s.orders| && HasHold(s, o) && OnTime(s, o, now)
    ensures ConfirmPayment(s, o, outcome, now).Committed? <==> MayConvert(s, o)
  {
    OnTimePaymentIsASweep(s, o, outcome, now);
    var s0 := SettledByPayment(s, o);
    SweepCommitsIff(s0, BookOrder(o), 0, now);
    assert MayConvert(s, o) <==> (forall j :: 0 <= j < |s0.holds| ==> RowPermitted(s0, BookOrder(o), j)) by {
      forall j | 0 <= j < |s.holds|
        ensures RowPermitted(s0, BookOrder(o), j) <==> (s.holds[j].order == Some(o) ==> MayBecome(s.holds[j].status, Converting))
      {
      }
    }
  }

  lemma {:induction false} BookingEmptiesHeld(before: seq<Hold>, after: seq<Hold>, o: OrderId, t: TypeId)
    requires SameRows(before, after)
    requires forall j :: 0 <= j < |before| && before[j].order != Some(o) ==> after[j] == before[j]
    requires forall j :: 0 <= j < |before| && before[j].order == Some(o) ==> IsOpen(before[j].status) && !IsOpen(after[j].status)
    ensures Quantity(after, Open, t) == Quantity(before, Open, t) - Quantity(before, OfOrder(o), t)
  {
    if before != [] {
      BookingEmptiesHeld(before[1..], after[1..], o, t);
    }
  }

  lemma BookingBooksAll(s: State, o: OrderId, now: Time, t: TypeId)
    requires TypesKnown(s) && SweepFrom(s, BookOrder(o), 0, now).Committed?
    ensures var s' := SweepFrom(s, BookOrder(o), 0, now).state;
      && Quantity(s'.holds, Open, t) == Quantity(s.holds, Open, t) - Quantity(s.holds, OfOrder(o), t)
      && (forall i :: 0 <= i < |s'.holds| && s'.holds[i].order == Some(o) ==> s'.holds[i].status == Booked)
  {
    SweepMovesExactlyTouched(s, BookOrder(o), 0, now);
    BookingEmptiesHeld(s.holds, SweepFrom(s, BookOrder(o), 0, now).state.holds, o, t);
  }

  /**
   An accepted on-time payment moves exactly the order's items, type by type, from held to sold. Only
   an order that is settled already, or deleted, is not counted as sold now.
   */
  lemma PaymentMovesHeldToSold(s: State, o: OrderId, outcome: HoldStatus, now: Time, t: TypeId)
    requires Sound(s) && ConfirmPayment(s, o, outcome, now).Committed? && OnTime(s, o, now)
    ensures o < |s.orders|
    ensures var s' := ConfirmPayment(s, o, outcome, now).state;
      && Sold(s'.orders, t) == Sold(s.orders, t)
         + (if Settled(s.orders[o].status) || s.orders[o].deleted then 0 else ItemQuantity(s.orders[o].items, t))
      && Quantity(s'.holds, Open, t) == Quantity(s.holds, Open, t) - ItemQuantity(s.orders[o].items, t)
      && (forall i :: 0 <= i < |s'.holds| && s'.holds[i].order == Some(o) ==> s'.holds[i].status == Booked)
  {
    PaymentBranches(s, o, outcome, now);
    var s0 := SettledByPayment(s, o);
    SoldUpdate(s.orders, o, s0.orders[o], t);
    BookingBooksAll(s0, o, now, t);
    assert Quantity(s.holds, OfOrder(o), t) == ItemQuantity(s.orders[o].items, t);
  }

  /**
   An accepted late payment sells nothing: the order expires, its holds are set aside for the refund
   and no other row changes. The cached counters keep counting the holds until the next repair.
   */
  lemma LatePaymentSetsAside(s: State, o: OrderId, outcome: HoldStatus, now: Time)
    requires Sound(s) && ConfirmPayment(s, o, outcome, now).Committed? && !OnTime(s, o, now)
    ensures o < |s.orders|
    ensures var s' := ConfirmPayment(s, o, outcome, now).state;
      && s'.types == s.types
      && s'.orders == s.orders[o := s.orders[o].(status := OrderStatus.Expired)]
      && SetAside(s.holds, s'.holds, o, 0, outcome)
      && (outcome.RefundPending? || outcome.Refunded? || outcome.Failed?)
  {
    PaymentBranches(s, o, outcome, now);
    RefundSetsAside(ExpiredByPayment(s, o), o, 0, outcome, now);
  }

  /** Converting, or releasing, an order's holds a second time changes nothing, whenever it happens. */
  lemma MovingTwiceIsMovingOnce(s: State, w: Sweep, now: Time, later: Time)
    requires TypesKnown(s) && (w.ConvertOrder? || w.ReleaseOrder?) && SweepFrom(s, w, 0, now).Committed?
    ensures SweepFrom(SweepFrom(s, w, 0, now).state, w, 0, later) == SweepFrom(s, w, 0, now)
  {
    SweepMovesExactlyTouched(s, w, 0, now);
    UntouchedSweep(SweepFrom(s, w, 0, now).state, w, 0, later);
  }

  /** Releasing an order's holds leaves none of its tickets held or sold. */
  lemma ReleaseLeavesNothingHeld(s: State, o: OrderId, now: Time, i: nat)
    requires TypesKnown(s) && SweepFrom(s, ReleaseOrder(o), 0, now).Committed? && i < |s.holds| && s.holds[i].order == Some(o)
    ensures var h := SweepFrom(s, ReleaseOrder(o), 0, now).state.holds[i];
      IsReleased(h.status) && h.releasedAt == (if IsReleased(s.holds[i].status) then s.holds[i].releasedAt else Some(now))
  {
    SweepMovesExactlyTouched(s, ReleaseOrder(o), 0, now);
    if !IsReleased(s.holds[i].status) {
      SweepStampsTouched(s, ReleaseOrder(o), 0, now, i);
    }
  }

  /** Cancelling or expiring an order leaves none of its tickets held or sold, unless it was closed already. */
  lemma ClosingLeavesNothingHeld(s: State, o: OrderId, next: OrderStatus, now: Time, i: nat)
    requires Sound(s) && UpdateOrder(s, o, next, now).Committed? && Terminal(next) && !Terminal(s.orders[o].status)
    requires i < |s.holds| && s.holds[i].order == Some(o)
    ensures var h := UpdateOrder(s, o, next, now).state.holds[i];
      IsReleased(h.status) && h.releasedAt == (if IsReleased(s.holds[i].status) then s.holds[i].releasedAt else Some(now))
  {
    UpdateBranches(s, o, next, now);
    ReleaseLeavesNothingHeld(WithStatus(s, o, next), o, now, i);
  }

  /** Every hold of the order is released already, or in a status that may be released. */
  ghost predicate MayRelease(s: State, o: OrderId) {
    forall i :: 0 <= i < |s.holds| && s.holds[i].order == Some(o) ==>
      IsReleased(s.holds[i].status) || MayBecome(s.holds[i].status, Released)
  }

  /** Every hold of the order is sold already, or in a status that may be converted at once. */
  ghost predicate MaySell(s: State, o: OrderId) {
    forall i :: 0 <= i < |s.holds| && s.holds[i].order == Some(o) ==>
      IsSold(s.holds[i].status) || MayBecome(s.holds[i].status, Converted)
  }

  lemma ReleaseCommitsIff(s: State, o: OrderId, now: Time)
    requires TypesKnown(s) && RowsAllowed(s)
    ensures SweepFrom(s, ReleaseOrder(o), 0, now).Committed? <==> MayRelease(s, o)
  {
    SweepCommitsIff(s, ReleaseOrder(o), 0, now);
    assert MayRelease(s, o) <==> AllPermitted(s, ReleaseOrder(o), 0) by {
      forall j | 0 <= j < |s.holds|
        ensures RowPermitted(s, ReleaseOrder(o), j)
          <==> (s.holds[j].order == Some(o) ==> IsReleased(s.holds[j].status) || MayBecome(s.holds[j].status, Released))
      {
      }
    }
  }

  lemma ConvertCommitsIff(s: State, o: OrderId, now: Time)
    requires TypesKnown(s) && RowsAllowed(s) && HeldIsReserved(s)
    ensures SweepFrom(s, ConvertOrder(o), 0, now).Committed? <==> MaySell(s, o)
  {
    SweepCommitsIff(s, ConvertOrder(o), 0, now);
    assert MaySell(s, o) <==> AllPermitted(s, ConvertOrder(o), 0) by {
      forall j | 0 <= j < |s.holds|
        ensures RowPermitted(s, ConvertOrder(o), j)
          <==> (s.holds[j].order == Some(o) ==> IsSold(s.holds[j].status) || MayBecome(s.holds[j].status, Converted))
      {
      }
    }
  }

  /**
   A status change is accepted exactly when the order's table allows it and, where it closes the order
   or confirms it, every hold of the order may go along.
   */
  lemma UpdateCommitsIff(s: State, o: OrderId, next: OrderStatus, now: Time)
    requires Sound(s) && o < |s.orders| && (next == Confirmed ==> HeldIsReserved(s))
    ensures UpdateOrder(s, o, next, now).Committed? <==>
      && !s.orders[o].deleted && OrderMayBecome(s.orders[o].status, next)
      && (!Terminal(s.orders[o].status) && Terminal(next) ==> MayRelease(s, o))
      && (s.orders[o].status != Confirmed && next == Confirmed ==> MaySell(s, o))
  {
    if !s.orders[o].deleted && OrderMayBecome(s.orders[o].status, next) {
      var s0 := WithStatus(s, o, next);
      assert MayRelease(s0, o) == MayRelease(s, o) && MaySell(s0, o) == MaySell(s, o);
      ReleaseCommitsIff(s0, o, now);
      if next == Confirmed {
        ConvertCommitsIff(s0, o, now);
      }
    }
  }

  lemma {:induction false} SweepStampsTouched(s: State, w: Sweep, i: nat, now: Time, j: nat)
    requires i <= |s.holds| && TypesKnown(s) && SweepFrom(s, w, i, now).Committed?
    requires i <= j < |s.holds| && Touches(w, j, s.holds[j]) && s.holds[j].status != Target(w) && IsReleased(Target(w))
    ensures SweepFrom(s, w, i, now).state.holds[j].releasedAt == Some(now)
    decreases |s.holds| - i
  {
    var s' := SweepRow(s, w, i, now).state;
    if i == j {
      SweepMovesExactlyTouched(s', w, i + 1, now);
    } else {
      SweepStampsTouched(s', w, i + 1, now, j);
    }
  }

  // ---------------------------------------------------------------------------------------
  //  Reservations
  // ---------------------------------------------------------------------------------------

  /** The cached counters say exactly what the rows say, at the given time. */
  ghost predicate Exact(s: State, now: Time) {
    forall t :: t in s.types ==>
      s.types[t].sold == Sold(s.orders, t) && s.types[t].reserved == Quantity(s.holds, Unexpired(now), t)
  }

  predicate Fits(s: State, line: Line, seen: map<TypeId, int>) {
    line.quantity > 0 && line.typeId in s.types && line.typeId in seen && line.quantity <= seen[line.typeId]
  }

  lemma {:induction false} NoLineErrorIff(s: State, lines: seq<Line>, seen: map<TypeId, int>)
    ensures LineError(s, lines, seen) == None <==> (forall k :: 0 <= k < |lines| ==> Fits(s, lines[k], seen))
  {
    if lines != [] {
      NoLineErrorIff(s, lines[1..], seen);
      assert (forall k :: 0 <= k < |lines| ==> Fits(s, lines[k], seen))
        <==> Fits(s, lines[0], seen) && (forall k :: 0 <= k < |lines[1..]| ==> Fits(s, lines[1..][k], seen)) by {
        forall k | 0 < k < |lines| ensures lines[k] == lines[1..][k - 1] {
        }
      }
    }
  }

  function Slack(s: State, t: TypeId): int
    requires t in s.types
  {
    s.types[t].total - s.types[t].sold - s.types[t].reserved
  }

  ghost predicate FreshFor(s: State, o: OrderId, items: seq<Item>) {
    forall k :: 0 <= k < |items| ==> !TokenTaken(s.holds, OrderToken(o, items[k].typeId)) && items[k].typeId in s.types
  }

  ghost predicate SlackFor(s: State, items: seq<Item>)
    requires forall k :: 0 <= k < |items| ==> items[k].typeId in s.types
  {
    forall k :: 0 <= k < |items| ==> items[k].quantity <= Slack(s, items[k].typeId)
  }

  /** Lines of distinct types are all inserted exactly when each fits the slack of its own row. */
  lemma {:induction false} InsertCommitsIff(s: State, o: OrderId, items: seq<Item>, expiresAt: Time)
    requires FreshFor(s, o, items) && DistinctTypes(items) && RowsAllowed(s)
    ensures InsertFrom(s, Some(o), OrderLines(o, items), expiresAt).Committed? <==> SlackFor(s, items)
    decreases |items|
  {
    if items != [] {
      var line := OrderLines(o, items)[0];
      var r := InsertLine(s, Some(o), line, expiresAt);
      assert OrderLines(o, items)[1..] == OrderLines(o, items[1..]);
      if r.Committed? {
        forall k | 0 <= k < |items[1..]|
          ensures items[1..][k] == items[k + 1] && items[k + 1].typeId != items[0].typeId
          ensures !TokenTaken(r.state.holds, OrderToken(o, items[1..][k].typeId))
        {
        }
        InsertCommitsIff(r.state, o, items[1..], expiresAt);
        assert SlackFor(s, items) <==> SlackFor(r.state, items[1..]) by {
          forall k | 0 < k < |items| ensures items[k] == items[1..][k - 1] {
          }
        }
      } else {
        assert items[0].quantity > Slack(s, items[0].typeId);
      }
    }
  }

  ghost predicate TrueView(s: State, seen: map<TypeId, int>, now: Time) {
    forall t :: t in s.types ==> t in seen && seen[t] == Available(s, t, now)
  }

  ghost predicate AllAvailable(s: State, items: seq<Item>, now: Time) {
    forall k :: 0 <= k < |items| ==>
      items[k].typeId in s.types && 0 < items[k].quantity <= Available(s, items[k].typeId, now)
  }

  lemma AvailableIsSlack(s: State, items: seq<Item>, now: Time)
    requires RowsAllowed(s) && Exact(s, now) && AllAvailable(s, items, now)
    ensures forall k :: 0 <= k < |items| ==> items[k].typeId in s.types
    ensures SlackFor(s, items)
  {
    forall k | 0 <= k < |items| ensures items[k].quantity <= Slack(s, items[k].typeId) {
      assert RowAllowed(s.types[items[k].typeId]);
    }
  }

  /** With a true view the lines of an order draw no complaint exactly when every item is available. */
  lemma NoComplaintIff(s: State, o: OrderId, items: seq<Item>, seen: map<TypeId, int>, now: Time)
    requires TrueView(s, seen, now)
    ensures LineError(s, OrderLines(o, items), seen) == None <==> AllAvailable(s, items, now)
  {
    var lines := OrderLines(o, items);
    NoLineErrorIff(s, lines, seen);
    forall k | 0 <= k < |items|
      ensures Fits(s, lines[k], seen) <==> items[k].typeId in s.types && 0 < items[k].quantity <= Available(s, items[k].typeId, now)
    {
    }
  }

  lemma SameView(s: State, items: seq<Item>, o: OrderId, seen: map<TypeId, int>, order: Order)
    ensures LineError(s.(orders := s.orders + [order]), OrderLines(o, items), seen) == LineError(s, OrderLines(o, items), seen)
  {
    SameComplaint(s, s.(orders := s.orders + [order]), OrderLines(o, items), seen);
  }

  lemma {:induction false} SameComplaint(s: State, s': State, lines: seq<Line>, seen: map<TypeId, int>)
    requires s'.types == s.types
    ensures LineError(s', lines, seen) == LineError(s, lines, seen)
  {
    if lines != [] {
      SameComplaint(s, s', lines[1..], seen);
    }
  }

  /** The new order's holds, and only those, are converted at once: nothing stands in the way. */
  lemma NewHoldsConvert(s: State, items: seq<Item>, expiresAt: Time, seen: map<TypeId, int>, now: Time)
    requires Sound(s) && HeldIsReserved(s) && DistinctTypes(items)
    requires Reserve(s.(orders := s.orders + [Order(Confirmed, items, false)]), Some(|s.orders|), OrderLines(|s.orders|, items), expiresAt, seen).Committed?
    ensures CreateOrder(s, items, Confirmed, expiresAt, seen, now).Committed?
  {
    var o := |s.orders|;
    var s0 := s.(orders := s.orders + [Order(Confirmed, items, false)]);
    var s1 := Reserve(s0, Some(o), OrderLines(o, items), expiresAt, seen).state;
    ReserveForNewOrderSound(s, items, Confirmed, expiresAt, seen);
    FreshTokens(s, items);
    InsertAppends(s0, Some(o), OrderLines(o, items), expiresAt);
    forall t | t in s1.types ensures Gap(s1, t) >= 0 {
      InsertKeepsGap(s0, Some(o), OrderLines(o, items), expiresAt, t);
    }
    ConvertCommitsIff(s1, o, now);
  }

  /** With exact counters, an order is accepted exactly when it is well formed and every item is available. */
  lemma CreateCommitsIff(s: State, items: seq<Item>, status: OrderStatus, expiresAt: Time, seen: map<TypeId, int>, now: Time)
    requires Sound(s) && Exact(s, now) && TrueView(s, seen, now) && (status == Confirmed ==> HeldIsReserved(s))
    ensures CreateOrder(s, items, status, expiresAt, seen, now).Committed?
      <==> (status == Draft || status == Pending || status == Confirmed)
           && items != [] && DistinctTypes(items) && AllAvailable(s, items, now)
  {
    if DistinctTypes(items) {
      ItemsReservedIff(s, items, status, expiresAt, seen, now);
      if status == Confirmed && items != [] && AllAvailable(s, items, now) {
        NewHoldsConvert(s, items, expiresAt, seen, now);
      }
    }
  }

  lemma ItemsReservedIff(s: State, items: seq<Item>, status: OrderStatus, expiresAt: Time, seen: map<TypeId, int>, now: Time)
    requires Sound(s) && Exact(s, now) && TrueView(s, seen, now) && DistinctTypes(items)
    ensures Reserve(s.(orders := s.orders + [Order(status, items, false)]), Some(|s.orders|),
                    OrderLines(|s.orders|, items), expiresAt, seen).Committed?
      <==> items != [] && AllAvailable(s, items, now)
  {
    var o := |s.orders|;
    SameView(s, items, o, seen, Order(status, items, false));
    NoComplaintIff(s, o, items, seen, now);
    FreshTokens(s, items);
    if AllAvailable(s, items, now) {
      AvailableIsSlack(s, items, now);
      InsertCommitsIff(s.(orders := s.orders + [Order(status, items, false)]), o, items, expiresAt);
    }
  }

  // ---------------------------------------------------------------------------------------
  //  A wave of single bookings
  // ---------------------------------------------------------------------------------------

  function SingleBooking(s: State, t: TypeId, expiresAt: Time, now: Time): Op
    requires t in s.types
  {
    Create([Item(t, 1)], Pending, expiresAt, map[t := Available(s, t, now)], now)
  }

  ghost predicate ExactFor(s: State, t: TypeId, now: Time)
    requires t in s.types
  {
    s.types[t].sold == Sold(s.orders, t) && s.types[t].reserved == Quantity(s.holds, Unexpired(now), t)
  }

  function BookedOne(s: State, t: TypeId, expiresAt: Time): State
    requires t in s.types
  {
    State(s.types[t := s.types[t].(reserved := s.types[t].reserved + 1)],
          s.holds + [Hold(t, Some(|s.orders|), OrderToken(|s.orders|, t), 1, Active, expiresAt, None, None, 0)],
          s.orders + [Order(Pending, [Item(t, 1)], false)])
  }

  lemma SingleLine(s: State, t: TypeId, expiresAt: Time, seen: map<TypeId, int>, now: Time)
    requires Sound(s) && t in s.types && t in seen
    ensures CreateOrder(s, [Item(t, 1)], Pending, expiresAt, seen, now)
      == if seen[t] < 1 then Refused(Conflict)
         else if Slack(s, t) < 1 then Refused(CheckViolation)
         else Committed(BookedOne(s, t, expiresAt))
  {
    var o, items := |s.orders|, [Item(t, 1)];
    var s0 := s.(orders := s.orders + [Order(Pending, items, false)]);
    var lines := OrderLines(o, items);
    assert lines == [Line(t, 1, OrderToken(o, t))] && lines[1..] == [];
    FreshTokens(s, items);
    assert !TokenTaken(s.holds, OrderToken(o, items[0].typeId));
    assert LineError(s0, lines[1..], seen) == None;
    var r := InsertLine(s0, Some(o), lines[0], expiresAt);
    if r.Committed? {
      assert InsertFrom(r.state, Some(o), lines[1..], expiresAt) == Committed(r.state);
    }
  }

  /** One buyer more: served exactly when a ticket is available, and then exactly one fewer is. */
  lemma SingleBookingTakesOne(s: State, t: TypeId, expiresAt: Time, now: Time)
    requires Sound(s) && t in s.types && ExactFor(s, t, now) && expiresAt > now
    ensures var r := Attempt(s, SingleBooking(s, t, expiresAt, now));
      if Available(s, t, now) == 0 then r == Refused(Conflict)
      else r == Committed(BookedOne(s, t, expiresAt)) && ExactFor(r.state, t, now)
           && Available(r.state, t, now) == Available(s, t, now) - 1
  {
    SingleLine(s, t, expiresAt, map[t := Available(s, t, now)], now);
    QuantityAppend(s.holds, BookedOne(s, t, expiresAt).holds[|s.holds|], Unexpired(now), t);
    SoldAppend(s.orders, Order(Pending, [Item(t, 1)], false), t);
  }

  datatype WaveEnd = WaveEnd(state: State, served: nat, refused: nat)

  /** n buyers, one after the other in whatever order the row lock let them in. */
  function Wave(s: State, t: TypeId, n: nat, expiresAt: Time, now: Time): WaveEnd
    requires Sound(s) && t in s.types
    decreases n
  {
    if n == 0 then WaveEnd(s, 0, 0)
    else
      var op := SingleBooking(s, t, expiresAt, now);
      assert Sound(After(s, op)) && t in After(s, op).types by { StepKeepsSound(s, op); SingleLine(s, t, expiresAt, op.seen, now); }
      var rest := Wave(After(s, op), t, n - 1, expiresAt, now);
      if Attempt(s, op).Committed? then rest.(served := rest.served + 1) else rest.(refused := rest.refused + 1)
  }

  /** n simultaneous buyers of single tickets: exactly as many are served as tickets were available. */
  lemma {:induction false} WaveServesWhatIsAvailable(s: State, t: TypeId, n: nat, expiresAt: Time, now: Time)
    requires Sound(s) && t in s.types && ExactFor(s, t, now) && expiresAt > now
    ensures var w := Wave(s, t, n, expiresAt, now);
      && w.served == Min(n, Available(s, t, now))
      && w.refused == n - w.served
      && t in w.state.types
      && Available(w.state, t, now) == Available(s, t, now) - w.served
    decreases n
  {
    if n > 0 {
      var op := SingleBooking(s, t, expiresAt, now);
      SingleBookingTakesOne(s, t, expiresAt, now);
      StepKeepsSound(s, op);
      WaveServesWhatIsAvailable(After(s, op), t, n - 1, expiresAt, now);
    }
  }
}
