/** Particular runs that oversell, and the fate of extended holds. */
module InventoryRuns {
  import opened Common
  import opened Inventory
  import opened InventorySafety
  import opened InventoryCapacity
  import opened InventoryRepair

  lemma ExecuteOne(s: State, op: Op, rest: seq<Op>)
    requires Sound(s)
    ensures Sound(After(s, op))
    ensures Execute(s, [op] + rest) == Execute(After(s, op), rest)
  {
    StepKeepsSound(s, op);
    assert ([op] + rest)[1..] == rest;
  }

  /** A run of four steps whose intermediate states are known. */
  lemma ExecuteFour(s: State, a: Op, b: Op, c: Op, d: Op, s1: State, s2: State, s3: State, s4: State)
    requires Sound(s) && After(s, a) == s1
    requires TypesKnown(s1) && After(s1, b) == s2
    requires TypesKnown(s2) && After(s2, c) == s3
    requires TypesKnown(s3) && After(s3, d) == s4
    ensures Execute(s, [a, b, c, d]) == s4
  {
    assert [a, b, c, d] == [a] + ([b] + ([c] + ([d] + [])));
    ExecuteOne(s, a, [b] + ([c] + ([d] + [])));
    ExecuteOne(s1, b, [c] + ([d] + []));
    ExecuteOne(s2, c, [d] + []);
    ExecuteOne(s3, d, []);
  }

  lemma ExecuteSix(s: State, a: Op, b: Op, c: Op, d: Op, e: Op, f: Op,
                   s1: State, s2: State, s3: State, s4: State, s5: State, s6: State)
    requires Sound(s) && After(s, a) == s1
    requires TypesKnown(s1) && After(s1, b) == s2
    requires TypesKnown(s2) && After(s2, c) == s3
    requires TypesKnown(s3) && After(s3, d) == s4
    requires TypesKnown(s4) && After(s4, e) == s5
    requires TypesKnown(s5) && After(s5, f) == s6
    ensures Execute(s, [a, b, c, d, e, f]) == s6
  {
    assert [a, b, c, d, e, f] == [a] + ([b] + [c, d, e, f]);
    ExecuteOne(s, a, [b] + [c, d, e, f]);
    ExecuteOne(s1, b, [c, d, e, f]);
    ExecuteFour(s2, c, d, e, f, s3, s4, s5, s6);
  }

  // ---------------------------------------------------------------------------------------
  //  Overselling, once discipline is dropped
  // ---------------------------------------------------------------------------------------

  const ONE_TICKET := [Item(0, 1)]
  const SEEN_ONE := map[0 := 1]

  function Only(reserved: int): map<TypeId, TicketType> {
    map[0 := TicketType(1, 0, reserved)]
  }

  /** A hold of the only ticket for order o. */
  function HoldFor(o: OrderId, status: HoldStatus, expiresAt: Time): Hold {
    Hold(0, Some(o), OrderToken(o, 0), 1, status, expiresAt, None, None, 0)
  }

  function Unpaid(): Order {
    Order(Pending, ONE_TICKET, false)
  }

  lemma CreateOne(s: State, expiresAt: Time, now: Time)
    requires TypesKnown(s) && s.types == Only(0) && !TokenTaken(s.holds, OrderToken(|s.orders|, 0))
    ensures After(s, Create(ONE_TICKET, Pending, expiresAt, SEEN_ONE, now))
         == State(Only(1), s.holds + [HoldFor(|s.orders|, Active, expiresAt)], s.orders + [Unpaid()])
  {
    var o := |s.orders|;
    var s0 := s.(orders := s.orders + [Unpaid()]);
    var lines := OrderLines(o, ONE_TICKET);
    assert lines == [Line(0, 1, OrderToken(o, 0))];
    assert lines[1..] == [];
    assert LineError(s0, lines[1..], SEEN_ONE) == None;
    assert LineError(s0, lines, SEEN_ONE) == None;
    var s1 := InsertLine(s0, Some(o), lines[0], expiresAt).state;
    assert InsertFrom(s1, Some(o), lines[1..], expiresAt) == Committed(s1);
  }

  const LAST_TICKET := State(Only(0), [], [])
  const AFTER_FIRST := State(Only(1), [HoldFor(0, Active, 15)], [Unpaid()])
  const AFTER_REPAIR := State(Only(0), [HoldFor(0, Active, 15)], [Unpaid()])
  const AFTER_SECOND := State(Only(1), [HoldFor(0, Active, 15), HoldFor(1, Active, 35)], [Unpaid(), Unpaid()])
  const OVERSOLD := State(map[0 := TicketType(1, 1, 0)],
                          [HoldFor(0, Converted, 15).(convertedAt := Some(21)), HoldFor(1, Active, 35)],
                          [Unpaid().(status := Confirmed), Unpaid()])

  lemma FirstBuyerFits()
    ensures TypesKnown(LAST_TICKET)
    ensures After(LAST_TICKET, Create(ONE_TICKET, Pending, 15, SEEN_ONE, 0)) == AFTER_FIRST
  {
    CreateOne(LAST_TICKET, 15, 0);
  }

  /** A repair that found the first hold lapsed writes nothing sold and nothing held. */
  const REPAIR_AT_20 := RepairFrom(AFTER_FIRST, AFTER_FIRST, 0, 20)

  lemma RepairForgetsLapsed()
    ensures REPAIR_AT_20 == Repair(0, 0, 0)
    ensures TypesKnown(AFTER_FIRST) && After(AFTER_FIRST, REPAIR_AT_20) == AFTER_REPAIR
  {
    var s := AFTER_FIRST;
    assert s.holds[1..] == [] && s.orders[1..] == [];
    assert Quantity(s.holds, Unexpired(20), 0) == 0;
    assert Sold(s.orders, 0) == 0;
  }

  lemma SecondBuyerFits()
    ensures TypesKnown(AFTER_REPAIR) && Available(AFTER_REPAIR, 0, 20) == SEEN_ONE[0]
    ensures After(AFTER_REPAIR, Create(ONE_TICKET, Pending, 35, SEEN_ONE, 20)) == AFTER_SECOND
  {
    var s := AFTER_REPAIR;
    assert s.holds[1..] == [] && s.orders[1..] == [];
    assert Quantity(s.holds, Unexpired(20), 0) == 0;
    assert Sold(s.orders, 0) == 0;
    CreateOne(s, 35, 20);
  }

  lemma FirstOrderIsConfirmed()
    ensures TypesKnown(AFTER_SECOND) && After(AFTER_SECOND, Update(0, Confirmed, 21)) == OVERSOLD
  {
    var s := WithStatus(AFTER_SECOND, 0, Confirmed);
    assert s.orders == OVERSOLD.orders;
    var s1 := SweepRow(s, ConvertOrder(0), 0, 21).state;
    assert s1.holds == OVERSOLD.holds && s1.types == OVERSOLD.types;
    assert SweepRow(s1, ConvertOrder(0), 1, 21) == Committed(s1);
    assert SweepFrom(s1, ConvertOrder(0), 2, 21) == Committed(s1);
    assert SweepFrom(s1, ConvertOrder(0), 1, 21) == Committed(s1);
  }

  lemma OneSoldOneHeld(s: State)
    requires s == OVERSOLD || s == PAID_TWICE
    ensures Sold(s.orders, 0) == 1 && Quantity(s.holds, Unexpired(22), 0) == 1
  {
    assert s.orders[1..] == [Unpaid()] && s.orders[1..][1..] == [];
    assert ItemQuantity(ONE_TICKET[1..], 0) == 0;
    assert Sold(s.orders[1..], 0) == 0;
    assert s.holds[1..] == [HoldFor(1, Active, 35)] && s.holds[1..][1..] == [];
    assert Quantity(s.holds[1..], Unexpired(22), 0) == 1;
  }

  /**
   Repairing the counters while a lapsed hold is still unswept lets the last ticket be sold to one
   buyer and held for another, although every transaction saw the true availability.
   */
  lemma RepairWhileLapsedOversells()
    ensures Fresh(LAST_TICKET) && Sound(LAST_TICKET)
    ensures var run := [Create(ONE_TICKET, Pending, 15, SEEN_ONE, 0), REPAIR_AT_20,
                        Create(ONE_TICKET, Pending, 35, SEEN_ONE, 20), Update(0, Confirmed, 21)];
      var s' := Execute(LAST_TICKET, run);
      Sold(s'.orders, 0) + Quantity(s'.holds, Unexpired(22), 0) > LAST_TICKET.types[0].total
  {
    FirstBuyerFits();
    RepairForgetsLapsed();
    SecondBuyerFits();
    FirstOrderIsConfirmed();
    OneSoldOneHeld(OVERSOLD);
    ExecuteFour(LAST_TICKET, Create(ONE_TICKET, Pending, 15, SEEN_ONE, 0), REPAIR_AT_20,
                Create(ONE_TICKET, Pending, 35, SEEN_ONE, 20), Update(0, Confirmed, 21),
                AFTER_FIRST, AFTER_REPAIR, AFTER_SECOND, OVERSOLD);
  }

  const AFTER_EXPIRY := State(Only(0), [HoldFor(0, Active, 15).(status := HoldStatus.Expired, releasedAt := Some(20))], [Unpaid()])
  const AFTER_REBUY := State(Only(1), AFTER_EXPIRY.holds + [HoldFor(1, Active, 35)], [Unpaid(), Unpaid()])
  const PAID_TWICE := AFTER_REBUY.(orders := [Unpaid().(status := Paid), Unpaid()])

  lemma FirstHoldExpires()
    ensures TypesKnown(AFTER_FIRST) && After(AFTER_FIRST, Expire({0}, 20)) == AFTER_EXPIRY
  {
    var s := AFTER_FIRST;
    var s1 := SweepRow(s, ExpireRows({0}), 0, 20).state;
    assert s1 == AFTER_EXPIRY;
    assert SweepUntil(s1, ExpireRows({0}), 1, 20) == s1;
  }

  lemma RebuyFits()
    ensures TypesKnown(AFTER_EXPIRY) && Available(AFTER_EXPIRY, 0, 20) == SEEN_ONE[0]
    ensures After(AFTER_EXPIRY, Create(ONE_TICKET, Pending, 35, SEEN_ONE, 20)) == AFTER_REBUY
  {
    var s := AFTER_EXPIRY;
    assert s.holds[1..] == [] && s.orders[1..] == [];
    assert Quantity(s.holds, Unexpired(20), 0) == 0;
    assert Sold(s.orders, 0) == 0;
    CreateOne(AFTER_EXPIRY, 35, 20);
  }

  lemma PaidIsWritten()
    ensures TypesKnown(AFTER_REBUY) && After(AFTER_REBUY, Update(0, Paid, 21)) == PAID_TWICE
  {
  }

  /** Writing Paid over an order whose hold has expired sells a ticket that somebody else now holds. */
  lemma WritingPaidOversells()
    ensures Fresh(LAST_TICKET) && Sound(LAST_TICKET)
    ensures var run := [Create(ONE_TICKET, Pending, 15, SEEN_ONE, 0), Expire({0}, 20),
                        Create(ONE_TICKET, Pending, 35, SEEN_ONE, 20), Update(0, Paid, 21)];
      var s' := Execute(LAST_TICKET, run);
      Sold(s'.orders, 0) + Quantity(s'.holds, Unexpired(22), 0) > LAST_TICKET.types[0].total
  {
    FirstBuyerFits();
    FirstHoldExpires();
    RebuyFits();
    PaidIsWritten();
    OneSoldOneHeld(PAID_TWICE);
    ExecuteFour(LAST_TICKET, Create(ONE_TICKET, Pending, 15, SEEN_ONE, 0), Expire({0}, 20),
                Create(ONE_TICKET, Pending, 35, SEEN_ONE, 20), Update(0, Paid, 21),
                AFTER_FIRST, AFTER_EXPIRY, AFTER_REBUY, PAID_TWICE);
  }

  const AFTER_STALE_REPAIR := AFTER_REBUY.(types := Only(0))
  const AFTER_THIRD := State(Only(1), AFTER_REBUY.holds + [HoldFor(2, Active, 60)], [Unpaid(), Unpaid(), Unpaid()])
  const SOLD_AGAIN := State(map[0 := TicketType(1, 1, 0)],
                            AFTER_EXPIRY.holds + [HoldFor(1, Converted, 35).(convertedAt := Some(41)), HoldFor(2, Active, 60)],
                            [Unpaid(), Unpaid().(status := Confirmed), Unpaid()])

  lemma StaleRepairIsWritten()
    ensures TypesKnown(AFTER_REBUY) && After(AFTER_REBUY, REPAIR_AT_20) == AFTER_STALE_REPAIR
    ensures Quantity(AFTER_REBUY.holds, Lapsed(21), 0) == 0
  {
    RepairForgetsLapsed();
    assert AFTER_REBUY.holds[1..] == [HoldFor(1, Active, 35)] && AFTER_REBUY.holds[1..][1..] == [];
    assert Quantity(AFTER_REBUY.holds[1..], Lapsed(21), 0) == 0;
  }

  lemma ThirdBuyerFits()
    ensures TypesKnown(AFTER_STALE_REPAIR) && Available(AFTER_STALE_REPAIR, 0, 40) == SEEN_ONE[0]
    ensures After(AFTER_STALE_REPAIR, Create(ONE_TICKET, Pending, 60, SEEN_ONE, 40)) == AFTER_THIRD
  {
    var s := AFTER_STALE_REPAIR;
    assert s.holds[1..] == [HoldFor(1, Active, 35)] && s.holds[1..][1..] == [];
    assert Quantity(s.holds[1..], Unexpired(40), 0) == 0;
    assert s.orders[1..] == [Unpaid()] && s.orders[1..][1..] == [];
    assert Sold(s.orders[1..], 0) == 0;
    assert Sold(s.orders, 0) == 0;
    CreateOne(s, 60, 40);
  }

  lemma SecondOrderIsConfirmed()
    ensures TypesKnown(AFTER_THIRD) && After(AFTER_THIRD, Update(1, Confirmed, 41)) == SOLD_AGAIN
  {
    var s := WithStatus(AFTER_THIRD, 1, Confirmed);
    assert s.orders == SOLD_AGAIN.orders;
    assert SweepRow(s, ConvertOrder(1), 0, 41) == Committed(s);
    SecondHoldConverts(s);
  }

  lemma SecondHoldConverts(s: State)
    requires s == WithStatus(AFTER_THIRD, 1, Confirmed)
    ensures TypesKnown(s) && SweepFrom(s, ConvertOrder(1), 1, 41) == Committed(SOLD_AGAIN)
  {
    var s1 := SweepRow(s, ConvertOrder(1), 1, 41).state;
    assert s1.holds == SOLD_AGAIN.holds && s1.types == SOLD_AGAIN.types && s1.orders == SOLD_AGAIN.orders;
    assert SweepRow(s1, ConvertOrder(1), 2, 41) == Committed(s1);
    assert SweepFrom(s1, ConvertOrder(1), 3, 41) == Committed(s1);
    assert SweepFrom(s1, ConvertOrder(1), 2, 41) == Committed(s1);
  }

  const STALE_REPAIR_RUN := [
    Create(ONE_TICKET, Pending, 15, SEEN_ONE, 0), Expire({0}, 20), Create(ONE_TICKET, Pending, 35, SEEN_ONE, 20),
    REPAIR_AT_20, Create(ONE_TICKET, Pending, 60, SEEN_ONE, 40), Update(1, Confirmed, 41)]

  lemma StaleRepairRunEnds()
    ensures Sound(LAST_TICKET) && Execute(LAST_TICKET, STALE_REPAIR_RUN) == SOLD_AGAIN
  {
    FirstBuyerFits();
    FirstHoldExpires();
    RebuyFits();
    StaleRepairIsWritten();
    ThirdBuyerFits();
    SecondOrderIsConfirmed();
    ExecuteSix(LAST_TICKET, STALE_REPAIR_RUN[0], STALE_REPAIR_RUN[1], STALE_REPAIR_RUN[2], STALE_REPAIR_RUN[3],
               STALE_REPAIR_RUN[4], STALE_REPAIR_RUN[5],
               AFTER_FIRST, AFTER_EXPIRY, AFTER_REBUY, AFTER_STALE_REPAIR, AFTER_THIRD, SOLD_AGAIN);
  }

  lemma SecondSoldThirdHeld()
    ensures Sold(SOLD_AGAIN.orders, 0) == 1 && Quantity(SOLD_AGAIN.holds, Unexpired(42), 0) == 1
  {
    var orders, holds := SOLD_AGAIN.orders, SOLD_AGAIN.holds;
    assert orders[1..][1..] == [Unpaid()] && orders[1..][1..][1..] == [];
    assert ItemQuantity(ONE_TICKET[1..], 0) == 0;
    assert Sold(orders[1..][1..], 0) == 0;
    assert Sold(orders[1..], 0) == 1;
    assert holds[1..][1..] == [HoldFor(2, Active, 60)] && holds[1..][1..][1..] == [];
    assert Quantity(holds[1..][1..], Unexpired(42), 0) == 1;
    assert Quantity(holds[1..], Unexpired(42), 0) == 1;
  }

  /**
   It is not enough that no hold is lapsed when the repair writes. Here the hold that had lapsed when
   the sums were taken has been swept since, and its ticket reserved again; the sums forget the new
   hold, and every transaction still sees the true availability.
   */
  lemma StaleRepairOversells()
    ensures Fresh(LAST_TICKET) && Sound(LAST_TICKET)
    ensures Quantity(AFTER_REBUY.holds, Lapsed(21), 0) == 0
    ensures Available(AFTER_EXPIRY, 0, 20) == Available(AFTER_STALE_REPAIR, 0, 40) == SEEN_ONE[0]
    ensures var s' := Execute(LAST_TICKET, STALE_REPAIR_RUN);
      Sold(s'.orders, 0) + Quantity(s'.holds, Unexpired(42), 0) > LAST_TICKET.types[0].total
  {
    StaleRepairIsWritten();
    RebuyFits();
    ThirdBuyerFits();
    StaleRepairRunEnds();
    SecondSoldThirdHeld();
  }

  const AFTER_SALE := State(map[0 := TicketType(1, 1, 0)], [HoldFor(0, Converted, 15).(convertedAt := Some(5))],
                            [Unpaid().(status := Confirmed)])

  /** A repair that summed what is sold before the payment, and what is held after it. */
  const REPAIR_ACROSS_SALE := RepairFrom(AFTER_FIRST, AFTER_SALE, 0, 6)

  lemma FirstOrderIsPaidInTime()
    ensures TypesKnown(AFTER_FIRST) && After(AFTER_FIRST, Update(0, Confirmed, 5)) == AFTER_SALE
  {
    var s := WithStatus(AFTER_FIRST, 0, Confirmed);
    var s1 := SweepRow(s, ConvertOrder(0), 0, 5).state;
    assert s1 == AFTER_SALE;
    assert SweepFrom(s1, ConvertOrder(0), 1, 5) == Committed(s1);
  }

  lemma RepairForgetsSale()
    ensures TypesKnown(AFTER_SALE) && After(AFTER_SALE, REPAIR_ACROSS_SALE) == SALE_FORGOTTEN
    ensures forall now :: Quantity(AFTER_SALE.holds, Lapsed(now), 0) == 0
  {
    assert AFTER_SALE.holds[1..] == [] && AFTER_FIRST.orders[1..] == [];
    assert Sold(AFTER_FIRST.orders, 0) == 0 && Quantity(AFTER_SALE.holds, Unexpired(6), 0) == 0;
  }

  const SALE_FORGOTTEN := AFTER_SALE.(types := Only(0))
  const SOLD_AND_HELD := State(Only(1), AFTER_SALE.holds + [HoldFor(1, Active, 35)], AFTER_SALE.orders + [Unpaid()])
  const REPAIR_ACROSS_SALE_RUN := [
    Create(ONE_TICKET, Pending, 15, SEEN_ONE, 0), Update(0, Confirmed, 5), REPAIR_ACROSS_SALE,
    Create(ONE_TICKET, Pending, 35, SEEN_ONE, 7)]

  lemma RepairAcrossSaleRunEnds()
    ensures Sound(LAST_TICKET) && Execute(LAST_TICKET, REPAIR_ACROSS_SALE_RUN) == SOLD_AND_HELD
  {
    FirstBuyerFits();
    FirstOrderIsPaidInTime();
    RepairForgetsSale();
    CreateOne(SALE_FORGOTTEN, 35, 7);
    ExecuteFour(LAST_TICKET, REPAIR_ACROSS_SALE_RUN[0], REPAIR_ACROSS_SALE_RUN[1], REPAIR_ACROSS_SALE_RUN[2],
                REPAIR_ACROSS_SALE_RUN[3], AFTER_FIRST, AFTER_SALE, SALE_FORGOTTEN, SOLD_AND_HELD);
  }

  /**
   Nothing lapsed, nothing reserved since: a sale between the two readings is enough, for it is then
   in neither sum. A buyer who read the availability before the first one reserved gets the ticket too.
   */
  lemma RepairAcrossSaleOversells()
    ensures Fresh(LAST_TICKET) && Sound(LAST_TICKET)
    ensures var s' := Execute(LAST_TICKET, REPAIR_ACROSS_SALE_RUN);
      Sold(s'.orders, 0) + Quantity(s'.holds, Unexpired(8), 0) > LAST_TICKET.types[0].total
  {
    RepairAcrossSaleRunEnds();
    var s := SOLD_AND_HELD;
    assert s.orders[1..] == [Unpaid()] && s.orders[1..][1..] == [] && ItemQuantity(ONE_TICKET[1..], 0) == 0;
    assert Sold(s.orders[1..], 0) == 0;
    assert s.holds[1..] == [HoldFor(1, Active, 35)] && s.holds[1..][1..] == [];
    assert Quantity(s.holds[1..], Unexpired(8), 0) == 1;
  }

  /**
   An edit of a type is accepted on the strength of the counters it brings along, so any total that
   is positive can be set; the type is oversold afterwards exactly when its rows exceed that total.
   */
  lemma EditingOversellsIff(s: State, t: TypeId, total: nat)
    requires Sound(s) && t in s.types && total > 0
    ensures Attempt(s, Edit(t, Some(total), Some(0), Some(0))).Committed?
    ensures Oversold(After(s, Edit(t, Some(total), Some(0), Some(0))), t)
      <==> Sold(s.orders, t) + Quantity(s.holds, Open, t) > total
  {
  }

  // ---------------------------------------------------------------------------------------
  //  Extended holds
  // ---------------------------------------------------------------------------------------

  /** The statuses an extended hold stays in until a coin checkout of its order. */
  predicate Stuck(st: HoldStatus) {
    st.PaymentProcessing? || st.Expired? || st.RefundPending? || st.Refunded? || st.Failed?
  }

  lemma StuckMovesToStuck(w: Sweep, st: HoldStatus)
    requires Stuck(st) && Permitted(w, st)
    ensures Stuck(Target(w))
  {
  }

  lemma SweepKeepsStuck(s: State, w: Sweep, now: Time, i: nat)
    requires TypesKnown(s) && i < |s.holds| && Stuck(s.holds[i].status) && SweepFrom(s, w, 0, now).Committed?
    ensures Stuck(SweepFrom(s, w, 0, now).state.holds[i].status)
  {
    SweepMovesExactlyTouched(s, w, 0, now);
    if Touches(w, i, s.holds[i]) {
      StuckMovesToStuck(w, s.holds[i].status);
    }
  }

  lemma InsertKeepsStuck(s: State, order: Option<OrderId>, lines: seq<Line>, expiresAt: Time, i: nat)
    requires LinesKnown(s, lines) && LinesFor(order, lines) && RowsAllowed(s) && TokensSound(s)
    requires order.Some? ==> order.value < |s.orders|
    requires i < |s.holds| && Stuck(s.holds[i].status) && InsertFrom(s, order, lines, expiresAt).Committed?
    ensures i < |InsertFrom(s, order, lines, expiresAt).state.holds|
    ensures InsertFrom(s, order, lines, expiresAt).state.holds[i] == s.holds[i]
  {
    InsertAppends(s, order, lines, expiresAt);
  }

  lemma CreateKeepsStuck(s: State, items: seq<Item>, status: OrderStatus, expiresAt: Time, seen: map<TypeId, int>, now: Time, i: nat)
    requires Sound(s) && i < |s.holds| && Stuck(s.holds[i].status)
    requires CreateOrder(s, items, status, expiresAt, seen, now).Committed?
    ensures var s' := CreateOrder(s, items, status, expiresAt, seen, now).state;
      i < |s'.holds| && Stuck(s'.holds[i].status)
  {
    var o := |s.orders|;
    var s0 := s.(orders := s.orders + [Order(status, items, false)]);
    InsertKeepsStuck(s0, Some(o), OrderLines(o, items), expiresAt, i);
    if status == Confirmed {
      SweepKeepsStuck(InsertFrom(s0, Some(o), OrderLines(o, items), expiresAt).state, ConvertOrder(o), now, i);
    }
  }

  lemma UpdateKeepsStuck(s: State, o: OrderId, next: OrderStatus, now: Time, i: nat)
    requires Sound(s) && i < |s.holds| && Stuck(s.holds[i].status) && UpdateOrder(s, o, next, now).Committed?
    ensures i < |UpdateOrder(s, o, next, now).state.holds| && Stuck(UpdateOrder(s, o, next, now).state.holds[i].status)
  {
    UpdateBranches(s, o, next, now);
    if !Terminal(s.orders[o].status) && Terminal(next) {
      SweepKeepsStuck(WithStatus(s, o, next), ReleaseOrder(o), now, i);
    } else if next == Confirmed && s.orders[o].status != Confirmed {
      SweepKeepsStuck(WithStatus(s, o, next), ConvertOrder(o), now, i);
    }
  }

  /** Deleting an order, refunding it, or declining its payment. */
  lemma ClosingKeepsStuck(s: State, op: Op, i: nat)
    requires Sound(s) && i < |s.holds| && Stuck(s.holds[i].status) && (op.Delete? || op.Refund? || op.Fail?)
    ensures i < |After(s, op).holds| && Stuck(After(s, op).holds[i].status)
  {
    if Attempt(s, op).Committed? && op.order < |s.orders| {
      var s0 := s.(orders := After(s, op).orders);
      if SweepFrom(s0, ReleaseOrder(op.order), 0, op.at).Committed? {
        SweepKeepsStuck(s0, ReleaseOrder(op.order), op.at, i);
      }
    }
  }

  lemma PaymentKeepsStuck(s: State, o: OrderId, outcome: HoldStatus, now: Time, i: nat)
    requires Sound(s) && i < |s.holds| && Stuck(s.holds[i].status) && ConfirmPayment(s, o, outcome, now).Committed?
    ensures var s' := ConfirmPayment(s, o, outcome, now).state;
      i < |s'.holds| && Stuck(s'.holds[i].status)
  {
    PaymentBranches(s, o, outcome, now);
    if OnTime(s, o, now) {
      SweepKeepsStuck(SettledByPayment(s, o), BookOrder(o), now, i);
    } else {
      RefundSetsAside(ExpiredByPayment(s, o), o, 0, outcome, now);
    }
  }

  /** The step is a coin checkout, accepted, of the order the hold belongs to. */
  predicate CoinsFor(s: State, op: Op, i: nat)
    requires TypesKnown(s) && i < |s.holds|
  {
    op.Coin? && s.holds[i].order == Some(op.order) && Attempt(s, op).Committed?
  }

  lemma CoinBooksItsOwn(s: State, o: OrderId, read: OrderStatus, now: Time, i: nat)
    requires Sound(s) && i < |s.holds| && CoinCheckout(s, o, read, now).Committed?
    ensures var s' := CoinCheckout(s, o, read, now).state;
      && |s'.holds| == |s.holds|
      && (if s.holds[i].order == Some(o) then s'.holds[i].status == Booked else s'.holds[i] == s.holds[i])
  {
    CoinBooks(WithStatus(s, o, Paid), o, 0, now);
  }

  /** Exactly one kind of step moves a stuck hold out of these statuses. */
  lemma StepKeepsStuckIff(s: State, op: Op, i: nat)
    requires Sound(s) && i < |s.holds| && Stuck(s.holds[i].status)
    ensures i < |After(s, op).holds|
    ensures Stuck(After(s, op).holds[i].status) <==> !CoinsFor(s, op, i)
    ensures CoinsFor(s, op, i) ==> After(s, op).holds[i].status == Booked
  {
    if Attempt(s, op).Committed? {
      match op
      case Create(items, status, expiresAt, seen, at) => CreateKeepsStuck(s, items, status, expiresAt, seen, at, i);
      case ReserveLoose(lines, expiresAt, seen) => InsertAppends(s, None, lines, expiresAt);
      case Update(o, next, at) => UpdateKeepsStuck(s, o, next, at, i);
      case Delete(_, _) => ClosingKeepsStuck(s, op, i);
      case Confirm(o, outcome, at) => PaymentKeepsStuck(s, o, outcome, at, i);
      case Coin(o, read, at) => CoinBooksItsOwn(s, o, read, at, i);
      case Refund(_, _, _) => ClosingKeepsStuck(s, op, i);
      case Fail(_, _) => ClosingKeepsStuck(s, op, i);
      case Expire(rows, at) =>
        var w := ExpiryIsASweep(s, rows, at);
        SweepKeepsStuck(s, w, at, i);
      case Extend(o, seconds, at) => ExtensionProlongs(s, o, 0, seconds, at);
      case Repair(_, _, _) =>
      case Edit(_, _, _, _) =>
      case Add(_, _, _, _) =>
    }
  }

  /** No step of the run is an accepted coin checkout of the order hold i belongs to. */
  ghost predicate WithoutCoins(s: State, ops: seq<Op>, i: nat)
    requires Sound(s)
    decreases |ops|
  {
    ops == [] ||
    (StepKeepsSound(s, ops[0]);
     (i < |s.holds| ==> !CoinsFor(s, ops[0], i)) && WithoutCoins(After(s, ops[0]), ops[1..], i))
  }

  lemma {:induction false} RunKeepsStuck(s: State, ops: seq<Op>, i: nat)
    requires Sound(s) && i < |s.holds| && Stuck(s.holds[i].status) && WithoutCoins(s, ops, i)
    ensures i < |Execute(s, ops).holds| && Stuck(Execute(s, ops).holds[i].status)
    decreases |ops|
  {
    if ops != [] {
      StepKeepsSound(s, ops[0]);
      StepKeepsStuckIff(s, ops[0], i);
      RunKeepsStuck(After(s, ops[0]), ops[1..], i);
    }
  }

  /**
   Once an order's holds have been given more time, a run without a coin checkout of the order
   never sells or releases any of them, paid or not: they can only lapse or be refunded.
   */
  lemma ExtendedHoldNeedsCoins(s: State, o: OrderId, seconds: int, now: Time, ops: seq<Op>, i: nat)
    requires Sound(s) && ExtendOrder(s, o, seconds, now).Committed? && i < |s.holds| && s.holds[i].order == Some(o)
    ensures Sound(ExtendOrder(s, o, seconds, now).state)
    ensures WithoutCoins(ExtendOrder(s, o, seconds, now).state, ops, i) ==>
      var holds := Execute(ExtendOrder(s, o, seconds, now).state, ops).holds;
      i < |holds| && !IsSold(holds[i].status) && holds[i].status != Released && holds[i].status != HoldStatus.Cancelled
  {
    var s1 := ExtendOrder(s, o, seconds, now).state;
    ExtendKeepsSound(s, o, seconds, now);
    ExtensionProlongs(s, o, 0, seconds, now);
    if WithoutCoins(s1, ops, i) {
      RunKeepsStuck(s1, ops, i);
    }
  }
}
