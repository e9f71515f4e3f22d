/** Why a request about an order or a ticket type is refused. */
module InventoryRefusals {
  import opened Common
  import opened Inventory
  import opened InventorySafety
  import opened InventoryMoves
  import opened InventoryEffects

  /** While the reserved counters cover what is open, a sweep is only ever refused for the status of a hold. */
  lemma {:induction false} SweepRefusal(s: State, w: Sweep, i: nat, now: Time)
    requires i <= |s.holds| && TypesKnown(s) && RowsAllowed(s) && Roomy(s, w)
    ensures SweepFrom(s, w, i, now).Refused? ==> SweepFrom(s, w, i, now).error == Conflict
    decreases |s.holds| - i
  {
    if i < |s.holds| {
      RowCommitsIff(s, w, i, now);
      if RowPermitted(s, w, i) {
        RowKeepsRoomy(s, w, i, now);
        SweepRefusal(SweepRow(s, w, i, now).state, w, i + 1, now);
      }
    }
  }

  lemma {:induction false} RefundRefusal(s: State, o: OrderId, i: nat, outcome: HoldStatus, now: Time)
    requires i <= |s.holds|
    ensures RefundFrom(s, o, i, outcome, now).Refused? ==> RefundFrom(s, o, i, outcome, now).error == Conflict
    decreases |s.holds| - i
  {
    if i < |s.holds| && RefundRow(s, o, i, outcome, now).Committed? {
      RefundRefusal(RefundRow(s, o, i, outcome, now).state, o, i + 1, outcome, now);
    }
  }

  lemma {:induction false} ExtendRefusal(s: State, o: OrderId, i: nat, seconds: int, now: Time)
    requires i <= |s.holds|
    ensures ExtendFrom(s, o, i, seconds, now).Refused? ==> ExtendFrom(s, o, i, seconds, now).error == Conflict
    decreases |s.holds| - i
  {
    if i < |s.holds| && ExtendRow(s, o, i, seconds, now).Committed? {
      ExtendRefusal(ExtendRow(s, o, i, seconds, now).state, o, i + 1, seconds, now);
    }
  }

  lemma {:induction false} CoinRefusal(s: State, o: OrderId, i: nat, now: Time)
    requires i <= |s.holds| && TypesKnown(s)
    ensures CoinFrom(s, o, i, now).Refused? ==> CoinFrom(s, o, i, now).error == CheckViolation
    decreases |s.holds| - i
  {
    if i < |s.holds| && CoinRow(s, o, i, now).Committed? {
      CoinRefusal(CoinRow(s, o, i, now).state, o, i + 1, now);
    }
  }

  predicate AboutOrder(op: Op) {
    op.Update? || op.Delete? || op.Confirm? || op.Coin? || op.Refund? || op.Fail? || op.Extend?
  }

  /** There is no such order, or no longer; a payment also needs one with holds. */
  predicate Missing(s: State, op: Op)
    requires AboutOrder(op)
  {
    match op
    case Update(o, _, _) => o >= |s.orders| || s.orders[o].deleted
    case Delete(o, _) => o >= |s.orders| || s.orders[o].deleted
    case Confirm(o, _, _) => o >= |s.orders| || !HasHold(s, o)
    case Coin(o, read, _) => o >= |s.orders| || (read == Pending && !HasHold(s, o))
    case Refund(o, _, _) => o >= |s.orders|
    case _ => false
  }

  /** The request asks for what can never be: a forbidden change of status, an outcome that is none, too much time. */
  predicate Malformed(s: State, op: Op)
    requires AboutOrder(op)
  {
    match op
    case Update(o, next, _) => o < |s.orders| && !OrderMayBecome(s.orders[o].status, next)
    case Confirm(o, outcome, now) => !Blocked(s, o, now) && !OnTime(s, o, now) && !(outcome.RefundPending? || outcome.Refunded? || outcome.Failed?)
    case Coin(_, read, _) => read != Pending
    case Extend(o, seconds, _) => !HasHold(s, o) || seconds > 300
    case _ => false
  }

  /**
   A request about an order is answered as not found exactly when the order or its holds are missing, as
   malformed exactly when it otherwise could never be granted, and as a conflict in every other case that
   is not accepted; coins alone can also fail for want of room in a row.
   */
  lemma Refusals(s: State, op: Op)
    requires Sound(s) && HeldIsReserved(s) && AboutOrder(op)
    ensures Attempt(s, op) == Refused(NotFound) <==> Missing(s, op)
    ensures Attempt(s, op) == Refused(BadRequest) <==> !Missing(s, op) && Malformed(s, op)
    ensures Attempt(s, op).Refused? && !Missing(s, op) && !Malformed(s, op) ==>
      Attempt(s, op).error == Conflict || (op.Coin? && Attempt(s, op).error == CheckViolation && OnTime(s, op.order, op.at))
  {
    match op
    case Update(o, next, now) => UpdateRefusals(s, o, next, now);
    case Delete(o, now) =>
      if !Missing(s, op) {
        SweepRefusal(s.(orders := s.orders[o := s.orders[o].(status := OrderStatus.Cancelled, deleted := true)]), ReleaseOrder(o), 0, now);
      }
    case Confirm(o, outcome, now) => PaymentRefusals(s, o, outcome, now);
    case Coin(o, read, now) =>
      if o < |s.orders| {
        CoinRefusal(WithStatus(s, o, Paid), o, 0, now);
      }
    case Refund(o, full, now) =>
      if o < |s.orders| {
        SweepRefusal(WithStatus(s, o, OrderStatus.Refunded), ReleaseOrder(o), 0, now);
      }
    case Fail(o, now) =>
      if o < |s.orders| {
        SweepRefusal(WithStatus(s, o, OrderStatus.Cancelled), ReleaseOrder(o), 0, now);
      }
    case Extend(o, seconds, now) => ExtendRefusal(s, o, 0, seconds, now);
  }

  lemma UpdateRefusals(s: State, o: OrderId, next: OrderStatus, now: Time)
    requires Sound(s) && HeldIsReserved(s)
    ensures UpdateOrder(s, o, next, now) == Refused(NotFound) <==> o >= |s.orders| || s.orders[o].deleted
    ensures UpdateOrder(s, o, next, now) == Refused(BadRequest) <==>
      o < |s.orders| && !s.orders[o].deleted && !OrderMayBecome(s.orders[o].status, next)
    ensures UpdateOrder(s, o, next, now).Refused? && o < |s.orders| && !s.orders[o].deleted && OrderMayBecome(s.orders[o].status, next)
      ==> UpdateOrder(s, o, next, now).error == Conflict
  {
    if o < |s.orders| {
      var s0 := WithStatus(s, o, next);
      SweepRefusal(s0, ReleaseOrder(o), 0, now);
      SweepRefusal(s0, ConvertOrder(o), 0, now);
    }
  }

  lemma PaymentRefusals(s: State, o: OrderId, outcome: HoldStatus, now: Time)
    requires Sound(s) && HeldIsReserved(s)
    ensures ConfirmPayment(s, o, outcome, now) == Refused(NotFound) <==> Missing(s, Confirm(o, outcome, now))
    ensures ConfirmPayment(s, o, outcome, now) == Refused(BadRequest) <==>
      !Missing(s, Confirm(o, outcome, now)) && Malformed(s, Confirm(o, outcome, now))
    ensures ConfirmPayment(s, o, outcome, now).Refused? ==> ConfirmPayment(s, o, outcome, now).error in {NotFound, BadRequest, Conflict}
  {
    if o < |s.orders| {
      SweepRefusal(SettledByPayment(s, o), BookOrder(o), 0, now);
      RefundRefusal(ExpiredByPayment(s, o), o, 0, outcome, now);
    }
  }

  /** With counters that may fall short, a sweep of holds that may all move is refused for want of room and nothing else. */
  lemma {:induction false} PermittedSweepRefusal(s: State, w: Sweep, i: nat, now: Time)
    requires i <= |s.holds| && TypesKnown(s) && RowsAllowed(s) && AllPermitted(s, w, i) && SweepFrom(s, w, i, now).Refused?
    ensures SweepFrom(s, w, i, now).error == CheckViolation
    decreases |s.holds| - i
  {
    if i < |s.holds| {
      assert RowPermitted(s, w, i);
      if SweepRow(s, w, i, now).Committed? {
        LaterRowsUnaffected(s, w, i, now);
        RowStaysAllowed(s, w, i, now);
        PermittedSweepRefusal(SweepRow(s, w, i, now).state, w, i + 1, now);
      }
    }
  }

  lemma RowStaysAllowed(s: State, w: Sweep, i: nat, now: Time)
    requires i < |s.holds| && TypesKnown(s) && RowsAllowed(s) && SweepRow(s, w, i, now).Committed?
    ensures RowsAllowed(SweepRow(s, w, i, now).state)
  {
  }

  // ---------------------------------------------------------------------------------------
  //  Reservations and new orders
  // ---------------------------------------------------------------------------------------

  /** Line k is the first that asks for nothing, for an unknown type, or for more than was read as available. */
  ghost predicate FirstMisfit(s: State, lines: seq<Line>, seen: map<TypeId, int>, k: nat) {
    k < |lines| && !Fits(s, lines[k], seen) && forall j :: 0 <= j < k ==> Fits(s, lines[j], seen)
  }

  /** What is wrong with it. */
  function Complaint(s: State, line: Line, seen: map<TypeId, int>): Error {
    if line.quantity > 0 && line.typeId in s.types && line.typeId in seen then Conflict else BadRequest
  }

  lemma {:induction false} MisfitIsComplaint(s: State, lines: seq<Line>, seen: map<TypeId, int>, k: nat)
    requires FirstMisfit(s, lines, seen, k)
    ensures LineError(s, lines, seen) == Some(Complaint(s, lines[k], seen))
    decreases k
  {
    if k > 0 {
      assert Fits(s, lines[0], seen);
      forall j | 0 <= j < k - 1 ensures Fits(s, lines[1..][j], seen) {
        assert Fits(s, lines[j + 1], seen);
      }
      MisfitIsComplaint(s, lines[1..], seen, k - 1);
    }
  }

  lemma {:induction false} InsertRefusal(s: State, order: Option<OrderId>, lines: seq<Line>, expiresAt: Time)
    requires LinesKnown(s, lines) && InsertFrom(s, order, lines, expiresAt).Refused?
    ensures InsertFrom(s, order, lines, expiresAt).error == CheckViolation
    decreases |lines|
  {
    if lines != [] && InsertLine(s, order, lines[0], expiresAt).Committed? {
      InsertRefusal(InsertLine(s, order, lines[0], expiresAt).state, order, lines[1..], expiresAt);
    }
  }

  /**
   A reservation that lists nothing, or a type that does not exist, is malformed; one that lists more than
   is available conflicts, unless an earlier line is malformed; one that asks for what was read as
   available can only fail for want of room in a row.
   */
  lemma ReservationRefusals(s: State, order: Option<OrderId>, lines: seq<Line>, expiresAt: Time, seen: map<TypeId, int>)
    ensures lines == [] || !LinesKnown(s, lines) ==> Reserve(s, order, lines, expiresAt, seen) == Refused(BadRequest)
    ensures forall k: nat :: LinesKnown(s, lines) && FirstMisfit(s, lines, seen, k) ==>
      Reserve(s, order, lines, expiresAt, seen) == Refused(Complaint(s, lines[k], seen))
    ensures Reserve(s, order, lines, expiresAt, seen).Refused? && lines != [] && (forall k :: 0 <= k < |lines| ==> Fits(s, lines[k], seen)) ==>
      Reserve(s, order, lines, expiresAt, seen).error == CheckViolation
  {
    forall k: nat | LinesKnown(s, lines) && FirstMisfit(s, lines, seen, k)
      ensures Reserve(s, order, lines, expiresAt, seen) == Refused(Complaint(s, lines[k], seen))
    {
      MisfitIsComplaint(s, lines, seen, k);
    }
    NoLineErrorIff(s, lines, seen);
    if LinesKnown(s, lines) && InsertFrom(s, order, lines, expiresAt).Refused? {
      InsertRefusal(s, order, lines, expiresAt);
    }
  }

  lemma SameMisfits(s: State, s0: State, lines: seq<Line>, seen: map<TypeId, int>)
    requires s0.types == s.types
    ensures forall k: nat :: FirstMisfit(s0, lines, seen, k) == FirstMisfit(s, lines, seen, k)
    ensures forall k :: 0 <= k < |lines| ==> Complaint(s0, lines[k], seen) == Complaint(s, lines[k], seen)
    ensures (forall k :: 0 <= k < |lines| ==> Fits(s0, lines[k], seen)) <==> (forall k :: 0 <= k < |lines| ==> Fits(s, lines[k], seen))
  {
    forall k | 0 <= k < |lines| ensures Fits(s0, lines[k], seen) == Fits(s, lines[k], seen) {
    }
  }

  lemma CreationIsItsReservation(s: State, items: seq<Item>, status: OrderStatus, expiresAt: Time, seen: map<TypeId, int>, now: Time)
    requires Sound(s) && (status == Confirmed ==> HeldIsReserved(s))
    requires status in {Draft, Pending, Confirmed} && DistinctTypes(items)
    ensures var r := Reserve(s.(orders := s.orders + [Order(status, items, false)]), Some(|s.orders|), OrderLines(|s.orders|, items), expiresAt, seen);
      if r.Refused? then CreateOrder(s, items, status, expiresAt, seen, now) == r
      else CreateOrder(s, items, status, expiresAt, seen, now).Committed?
  {
    var s0 := s.(orders := s.orders + [Order(status, items, false)]);
    if status == Confirmed && Reserve(s0, Some(|s.orders|), OrderLines(|s.orders|, items), expiresAt, seen).Committed? {
      NewHoldsConvert(s, items, expiresAt, seen, now);
    }
  }

  /** An order that is neither draft, pending nor confirmed, or names a type twice, is malformed; any other is refused for its lines or for want of room. */
  lemma CreationRefusals(s: State, items: seq<Item>, status: OrderStatus, expiresAt: Time, seen: map<TypeId, int>, now: Time)
    requires Sound(s) && (status == Confirmed ==> HeldIsReserved(s))
    ensures var r := CreateOrder(s, items, status, expiresAt, seen, now);
      var lines := OrderLines(|s.orders|, items);
      if status !in {Draft, Pending, Confirmed} || !DistinctTypes(items) || items == [] || !LinesKnown(s, lines) then r == Refused(BadRequest)
      else
        && (forall k: nat :: FirstMisfit(s, lines, seen, k) ==> r == Refused(Complaint(s, lines[k], seen)))
        && (r.Refused? && (forall k :: 0 <= k < |lines| ==> Fits(s, lines[k], seen)) ==> r.error == CheckViolation)
  {
    if status in {Draft, Pending, Confirmed} && DistinctTypes(items) {
      var lines := OrderLines(|s.orders|, items);
      var s0 := s.(orders := s.orders + [Order(status, items, false)]);
      CreationIsItsReservation(s, items, status, expiresAt, seen, now);
      ReservationRefusals(s0, Some(|s.orders|), lines, expiresAt, seen);
      SameMisfits(s, s0, lines, seen);
    }
  }

  // ---------------------------------------------------------------------------------------
  //  Ticket types
  // ---------------------------------------------------------------------------------------

  /** A total is given that is zero or less than a counter given with it. */
  predicate Contradicts(total: Option<nat>, sold: Option<nat>, reserved: Option<nat>) {
    total.Some? && (total.value == 0 || (sold.Some? && sold.value > total.value) || (reserved.Some? && reserved.value > total.value))
  }

  /**
   Which error a write to a ticket type gets: an edit of one that does not exist is not found, a repair of
   one is malformed, and adding one that exists conflicts; numbers that contradict each other are
   malformed; all that is left is a row out of its constraint.
   */
  lemma TypeRefusals(s: State, t: TypeId, total: nat, given: Option<nat>, sold: Option<nat>, reserved: Option<nat>, a: nat, b: nat)
    requires TypesKnown(s)
    ensures var r := Attempt(s, Edit(t, given, sold, reserved));
      if t !in s.types then r == Refused(NotFound)
      else if Contradicts(given, sold, reserved) then r == Refused(BadRequest)
      else r.Refused? ==> r.error == CheckViolation
    ensures var r := Attempt(s, Add(t, total, a, b));
      if t in s.types then r == Refused(Conflict)
      else if Contradicts(Some(total), Some(a), Some(b)) then r == Refused(BadRequest)
      else r.Refused? ==> r.error == CheckViolation
    ensures var r := Attempt(s, Repair(t, a, b));
      if t !in s.types then r == Refused(BadRequest) else r.Refused? ==> r.error == CheckViolation
  {
  }

  /** A caller may not reserve under a token kept for orders. */
  lemma OrderTokenRefused(s: State, lines: seq<Line>, expiresAt: Time, seen: map<TypeId, int>, k: nat)
    requires TypesKnown(s) && k < |lines| && lines[k].token.OrderToken?
    ensures Attempt(s, ReserveLoose(lines, expiresAt, seen)) == Refused(BadRequest)
  {
  }
}
