/**
 The inventory as it runs: tables updated in place, row by row, inside a transaction that restores
 them when a step fails. Every method is tied to the operation it carries out on the tables' value.
 */
module InventoryStore {
  import opened Common
  import opened Inventory
  import opened InventorySafety
  import opened InventoryDrain
  import opened InventoryEffects
  import opened InventoryMoves

  /** What a transaction on this state reads as available. */
  function View(s: State, now: Time): map<TypeId, int> {
    map t | t in s.types :: Available(s, t, now)
  }

  /** With exact counters, whether an order is accepted is decided by its form and what is available. */
  ghost predicate AcceptedIffAvailable(s: State, items: seq<Item>, status: OrderStatus, now: Time, accepted: bool) {
    Sound(s) && Exact(s, now) && HeldIsReserved(s) ==>
      (accepted <==> (status == Draft || status == Pending || status == Confirmed)
                     && items != [] && DistinctTypes(items) && AllAvailable(s, items, now))
  }

  lemma ViewDecides(s: State, items: seq<Item>, status: OrderStatus, expiresAt: Time, now: Time)
    requires TypesKnown(s)
    ensures AcceptedIffAvailable(s, items, status, now, CreateOrder(s, items, status, expiresAt, View(s, now), now).Committed?)
  {
    if Sound(s) && Exact(s, now) && HeldIsReserved(s) {
      CreateCommitsIff(s, items, status, expiresAt, View(s, now), now);
    }
  }

  /** A transaction ended as the operation prescribes, and left no trace if it failed. */
  ghost predicate Ended(before: State, op: Op, after: State, error: Option<Error>)
    requires TypesKnown(before)
  {
    && Attempt(before, op) == (if error.Some? then Refused(error.value) else Committed(after))
    && (error.Some? ==> after == before)
  }

  class Store {
    var types: map<TypeId, TicketType>
    var holds: seq<Hold>
    var orders: seq<Order>

    function Model(): State
      reads this
    {
      State(types, holds, orders)
    }

    constructor (capacity: map<TypeId, nat>)
      ensures Model() == State(map t | t in capacity :: TicketType(capacity[t], 0, 0), [], [])
    {
      types := map t | t in capacity :: TicketType(capacity[t], 0, 0);
      holds := [];
      orders := [];
    }

    /** Sum the order items that count as sold and the holds that count as reserved. */
    method Summary(t: TypeId, now: Time) returns (sold: nat, reserved: nat)
      ensures sold == Sold(orders, t) && reserved == Quantity(holds, Unexpired(now), t)
    {
      sold, reserved := 0, 0;
      for o := 0 to |orders|
        invariant sold == Sold(orders[..o], t)
      {
        var inOrder := 0;
        for k := 0 to |orders[o].items|
          invariant inOrder == ItemQuantity(orders[o].items[..k], t)
        {
          ItemsSplit(orders[o].items, k, t);
          if orders[o].items[k].typeId == t {
            inOrder := inOrder + orders[o].items[k].quantity;
          }
        }
        assert orders[o].items[..|orders[o].items|] == orders[o].items;
        assert orders[..o + 1] == orders[..o] + [orders[o]];
        SoldAppend(orders[..o], orders[o], t);
        if Counted(orders[o]) {
          sold := sold + inOrder;
        }
      }
      assert orders[..|orders|] == orders;
      for i := 0 to |holds|
        invariant reserved == Quantity(holds[..i], Unexpired(now), t)
      {
        assert holds[..i + 1] == holds[..i] + [holds[i]];
        QuantityAppend(holds[..i], holds[i], Unexpired(now), t);
        if holds[i].typeId == t && Counts(Unexpired(now), holds[i]) {
          reserved := reserved + holds[i].quantity;
        }
      }
      assert holds[..|holds|] == holds;
    }

    /** Move a hold's quantity between the cached counters of its type as the hold leaves, or enters, the open statuses. */
    method UpdateCounters(h: Hold, to: HoldStatus) returns (ok: bool)
      requires h.typeId in types
      modifies this`types
      ensures ok <==> IsOpen(h.status) == IsOpen(to) || RowAllowed(CountersAfter(old(types)[h.typeId], h, to))
      ensures types == if ok then old(types)[h.typeId := CountersAfter(old(types)[h.typeId], h, to)] else old(types)
    {
      var row := types[h.typeId];
      if IsOpen(h.status) && !IsOpen(to) {
        row := row.(reserved := if row.reserved - h.quantity > 0 then row.reserved - h.quantity else 0);
        if IsSold(to) {
          row := row.(sold := row.sold + h.quantity);
        }
      } else if !IsOpen(h.status) && IsOpen(to) {
        row := row.(reserved := row.reserved + h.quantity);
      } else {
        assert types == types[h.typeId := types[h.typeId]];
        return true;
      }
      ok := RowAllowed(row);
      if ok {
        types := types[h.typeId := row];
      }
    }

    /** Update one hold and its ticket type's counters. */
    method Transition(i: nat, to: HoldStatus, now: Time) returns (error: Option<Error>)
      requires i < |holds| && holds[i].typeId in types
      modifies this
      ensures Inventory.MoveHold(old(Model()), i, to, now)
        == if error.Some? then Refused(error.value) else Committed(Model())
      ensures error.Some? ==> unchanged(this)
      ensures error.None? && IsOpen(old(holds)[i].status) && !IsOpen(to) ==>
        types[holds[i].typeId].reserved == Max(0, old(types)[holds[i].typeId].reserved - holds[i].quantity)
    {
      var h := holds[i];
      if h.status == to {
        return None;
      }
      var ok := UpdateCounters(h, to);
      if !ok {
        return Some(CheckViolation);
      }
      holds := holds[i := Moved(h, to, now)];
      return None;
    }

    /** One row's turn in a sweep. */
    method TakeTurn(w: Sweep, i: nat, now: Time) returns (error: Option<Error>)
      requires i < |holds| && TypesKnown(Model())
      modifies this
      ensures SweepRow(old(Model()), w, i, now) == if error.Some? then Refused(error.value) else Committed(Model())
      ensures error.Some? ==> unchanged(this)
    {
      if !Touches(w, i, holds[i]) {
        return None;
      }
      if !Permitted(w, holds[i].status) {
        return Some(Conflict);
      }
      error := Transition(i, Target(w), now);
    }

    /** Move the rows of a sweep in id order; a refusal leaves the rows already moved, for the caller to roll back or keep. */
    method RunSweep(w: Sweep, now: Time) returns (error: Option<Error>)
      requires TypesKnown(Model())
      modifies this
      ensures SweepFrom(old(Model()), w, 0, now) == if error.Some? then Refused(error.value) else Committed(Model())
      ensures Model() == SweepUntil(old(Model()), w, 0, now)
    {
      var i := 0;
      while i < |holds|
        invariant i <= |holds| && TypesKnown(Model())
        invariant SweepFrom(old(Model()), w, 0, now) == SweepFrom(Model(), w, i, now)
        invariant SweepUntil(old(Model()), w, 0, now) == SweepUntil(Model(), w, i, now)
        decreases |holds| - i
      {
        error := TakeTurn(w, i, now);
        if error.Some? {
          return;
        }
        i := i + 1;
      }
      return None;
    }

    /** Release the holds of an order whose row has just been written, and give back what they held. */
    method Release(o: OrderId, now: Time, ghost before: State) returns (error: Option<Error>)
      requires TypesKnown(Model()) && o < |orders| && o < |before.orders|
      requires Model() == before.(orders := before.orders[o := orders[o]])
      modifies this
      ensures SweepFrom(old(Model()), ReleaseOrder(o), 0, now) == if error.Some? then Refused(error.value) else Committed(Model())
      ensures error.None? && RowsAllowed(before) ==> ClosedAs(before, Model(), o, old(orders)[o], now)
    {
      error := RunSweep(ReleaseOrder(o), now);
      if error.None? && RowsAllowed(before) {
        ReleaseGivesBack(before, o, old(orders)[o], now);
      }
    }

    /** Insert the lines one by one, skipping those whose token is taken. */
    method InsertLines(order: Option<OrderId>, lines: seq<Line>, expiresAt: Time) returns (error: Option<Error>)
      requires forall k :: 0 <= k < |lines| ==> lines[k].typeId in types
      modifies this
      ensures InsertFrom(old(Model()), order, lines, expiresAt) == if error.Some? then Refused(error.value) else Committed(Model())
    {
      var k := 0;
      while k < |lines|
        invariant k <= |lines| && types.Keys == old(types.Keys)
        invariant InsertFrom(old(Model()), order, lines, expiresAt) == InsertFrom(Model(), order, lines[k..], expiresAt)
      {
        ghost var s := Model();
        var line := lines[k];
        assert lines[k..][0] == line && lines[k..][1..] == lines[k + 1..];
        if !TokenTaken(holds, line.token) {
          var row := types[line.typeId].(reserved := types[line.typeId].reserved + line.quantity);
          if !RowAllowed(row) {
            return Some(CheckViolation);
          }
          holds := holds + [NewHold(line, order, expiresAt)];
          types := types[line.typeId := row];
        }
        assert InsertLine(s, order, line, expiresAt) == Committed(Model());
        k := k + 1;
      }
      return None;
    }

    /** Check the lines against the availability just read, then insert them. */
    method ReserveLines(order: Option<OrderId>, lines: seq<Line>, expiresAt: Time, seen: map<TypeId, int>)
      returns (error: Option<Error>)
      modifies this
      ensures Reserve(old(Model()), order, lines, expiresAt, seen) == if error.Some? then Refused(error.value) else Committed(Model())
    {
      if lines == [] {
        return Some(BadRequest);
      }
      for k := 0 to |lines|
        invariant forall j :: 0 <= j < k ==> lines[j].typeId in types
      {
        if lines[k].typeId !in types {
          return Some(BadRequest);
        }
      }
      for k := 0 to |lines|
        invariant LineError(Model(), lines, seen) == LineError(Model(), lines[k..], seen)
      {
        assert lines[k..][0] == lines[k] && lines[k..][1..] == lines[k + 1..];
        if lines[k].quantity == 0 || lines[k].typeId !in seen {
          return Some(BadRequest);
        }
        if lines[k].quantity > seen[lines[k].typeId] {
          return Some(Conflict);
        }
      }
      error := InsertLines(order, lines, expiresAt);
    }

    /** Create an order and hold its items, all or nothing. */
    method CreateOrder(items: seq<Item>, status: OrderStatus, expiresAt: Time, now: Time) returns (error: Option<Error>)
      requires TypesKnown(Model())
      modifies this
      ensures Ended(old(Model()), Create(items, status, expiresAt, View(old(Model()), now), now), Model(), error)
      ensures AcceptedIffAvailable(old(Model()), items, status, now, error.None?)
    {
      ViewDecides(Model(), items, status, expiresAt, now);
      var types0, holds0, orders0 := types, holds, orders;
      if !(status.Draft? || status.Pending? || status.Confirmed?) || !DistinctTypes(items) {
        return Some(BadRequest);
      }
      var seen := View(Model(), now);
      var o := |orders|;
      orders := orders + [Order(status, items, false)];
      error := ReserveLines(Some(o), OrderLines(o, items), expiresAt, seen);
      if error.None? && status == Confirmed {
        error := RunSweep(ConvertOrder(o), now);
      }
      if error.Some? {
        types, holds, orders := types0, holds0, orders0;
      }
    }

    /** Change an order's status and move its holds along, all or nothing. */
    method UpdateOrder(o: OrderId, next: OrderStatus, now: Time) returns (error: Option<Error>)
      requires TypesKnown(Model())
      modifies this
      ensures Ended(old(Model()), Update(o, next, now), Model(), error)
      ensures error.None? && RowsAllowed(old(Model())) && o < |old(orders)| && Terminal(next) && !Terminal(old(orders)[o].status) ==>
        ClosedAs(old(Model()), Model(), o, old(orders)[o].(status := next), now)
    {
      var types0, holds0, orders0 := types, holds, orders;
      if o >= |orders| || orders[o].deleted {
        return Some(NotFound);
      }
      var current := orders[o].status;
      if !OrderMayBecome(current, next) {
        return Some(BadRequest);
      }
      orders := orders[o := orders[o].(status := next)];
      error := None;
      if !Terminal(current) && Terminal(next) {
        error := Release(o, now, old(Model()));
      } else if next == Confirmed && current != Confirmed {
        error := RunSweep(ConvertOrder(o), now);
      }
      if error.Some? {
        types, holds, orders := types0, holds0, orders0;
      }
    }

    /** Delete an order, cancelling it and releasing its holds unless it was closed already. */
    method DeleteOrder(o: OrderId, now: Time) returns (error: Option<Error>)
      requires TypesKnown(Model())
      modifies this
      ensures Ended(old(Model()), Delete(o, now), Model(), error)
      ensures error.None? && RowsAllowed(old(Model())) && o < |old(orders)| && !Terminal(old(orders)[o].status) ==>
        ClosedAs(old(Model()), Model(), o, Order(OrderStatus.Cancelled, old(orders)[o].items, true), now)
    {
      var types0, holds0, orders0 := types, holds, orders;
      if o >= |orders| || orders[o].deleted {
        return Some(NotFound);
      }
      var closed := Terminal(orders[o].status);
      orders := orders[o := orders[o].(status := OrderStatus.Cancelled, deleted := true)];
      error := None;
      if !closed {
        error := Release(o, now, old(Model()));
      }
      if error.Some? {
        types, holds, orders := types0, holds0, orders0;
      }
    }

    /** Record a refund on the order; a full one releases its holds. */
    method RefundOrder(o: OrderId, full: bool, now: Time) returns (error: Option<Error>)
      requires TypesKnown(Model())
      modifies this
      ensures Ended(old(Model()), Refund(o, full, now), Model(), error)
      ensures error.None? && RowsAllowed(old(Model())) && o < |old(orders)| && full ==>
        ClosedAs(old(Model()), Model(), o, old(orders)[o].(status := OrderStatus.Refunded), now)
    {
      var types0, holds0, orders0 := types, holds, orders;
      if o >= |orders| {
        return Some(NotFound);
      }
      orders := orders[o := orders[o].(status := if full then OrderStatus.Refunded else PartiallyRefunded)];
      error := None;
      if full {
        error := Release(o, now, old(Model()));
      }
      if error.Some? {
        types, holds, orders := types0, holds0, orders0;
      }
    }

    /** A declined payment cancels an order that is not settled. */
    method FailPayment(o: OrderId, now: Time) returns (error: Option<Error>)
      requires TypesKnown(Model())
      modifies this
      ensures Ended(old(Model()), Fail(o, now), Model(), error)
      ensures error.None? && RowsAllowed(old(Model())) && o < |old(orders)| && !Settled(old(orders)[o].status) ==>
        ClosedAs(old(Model()), Model(), o, old(orders)[o].(status := OrderStatus.Cancelled), now)
    {
      var types0, holds0, orders0 := types, holds, orders;
      if o >= |orders| || Settled(orders[o].status) {
        return None;
      }
      orders := orders[o := orders[o].(status := OrderStatus.Cancelled)];
      error := Release(o, now, old(Model()));
      if error.Some? {
        types, holds, orders := types0, holds0, orders0;
      }
    }

    /** Set every hold of a late payment aside for its refund. */
    method RunRefund(o: OrderId, outcome: HoldStatus, now: Time) returns (error: Option<Error>)
      modifies this
      ensures RefundFrom(old(Model()), o, 0, outcome, now) == if error.Some? then Refused(error.value) else Committed(Model())
    {
      var i := 0;
      while i < |holds|
        invariant i <= |holds|
        invariant RefundFrom(old(Model()), o, 0, outcome, now) == RefundFrom(Model(), o, i, outcome, now)
        decreases |holds| - i
      {
        ghost var s := Model();
        var h := holds[i];
        if h.order == Some(o) {
          if !MayBecome(h.status, HoldStatus.Expired) {
            return Some(Conflict);
          }
          if !h.status.Expired? {
            h := Moved(h, HoldStatus.Expired, now);
          }
          holds := holds[i := h.(status := outcome)];
        }
        assert RefundRow(s, o, i, outcome, now) == Committed(Model());
        i := i + 1;
      }
      return None;
    }

    /** Look through an order's holds: is there one, is one late, can one no longer be paid for. */
    method Inspect(o: OrderId, now: Time) returns (found: bool, late: bool, unpayable: bool)
      ensures found <==> exists j :: 0 <= j < |holds| && holds[j].order == Some(o)
      ensures late <==> exists j :: 0 <= j < |holds| && holds[j].order == Some(o) && LateHold(holds[j], now)
      ensures unpayable <==> exists j :: 0 <= j < |holds| && holds[j].order == Some(o) && Unpayable(holds[j], now)
    {
      found, late, unpayable := false, false, false;
      for i := 0 to |holds|
        invariant found <==> exists j :: 0 <= j < i && holds[j].order == Some(o)
        invariant late <==> exists j :: 0 <= j < i && holds[j].order == Some(o) && LateHold(holds[j], now)
        invariant unpayable <==> exists j :: 0 <= j < i && holds[j].order == Some(o) && Unpayable(holds[j], now)
      {
        if holds[i].order == Some(o) {
          found := true;
          late := late || LateHold(holds[i], now);
          unpayable := unpayable || Unpayable(holds[i], now);
        }
      }
    }

    /** Settle an order paid on time and book its holds. */
    method Settle(o: OrderId, now: Time) returns (error: Option<Error>)
      requires TypesKnown(Model()) && o < |orders|
      modifies this
      ensures SweepFrom(SettledByPayment(old(Model()), o), BookOrder(o), 0, now)
        == if error.Some? then Refused(error.value) else Committed(Model())
    {
      if !Settled(orders[o].status) {
        orders := orders[o := orders[o].(status := Paid)];
      }
      assert orders == SettledByPayment(old(Model()), o).orders;
      error := RunSweep(BookOrder(o), now);
    }

    /** Confirm a captured payment: book the holds, or refund it when any of them is late. */
    method ConfirmPayment(o: OrderId, outcome: HoldStatus, now: Time) returns (error: Option<Error>)
      requires TypesKnown(Model())
      modifies this
      ensures Ended(old(Model()), Confirm(o, outcome, now), Model(), error)
    {
      var types0, holds0, orders0 := types, holds, orders;
      var found, late, unpayable := Inspect(o, now);
      if o >= |orders| || !found {
        return Some(NotFound);
      }
      if unpayable {
        return Some(Conflict);
      }
      if late && !(outcome.RefundPending? || outcome.Refunded? || outcome.Failed?) {
        return Some(BadRequest);
      }
      if late {
        orders := orders[o := orders[o].(status := OrderStatus.Expired)];
        error := RunRefund(o, outcome, now);
      } else {
        error := Settle(o, now);
      }
      if error.Some? {
        types, holds, orders := types0, holds0, orders0;
      }
    }

    /** Book every hold of an order paid with coins, counting each as sold. */
    method RunCoins(o: OrderId, now: Time) returns (error: Option<Error>)
      requires TypesKnown(Model())
      modifies this
      ensures CoinFrom(old(Model()), o, 0, now) == if error.Some? then Refused(error.value) else Committed(Model())
    {
      var i := 0;
      while i < |holds|
        invariant i <= |holds| && TypesKnown(Model())
        invariant CoinFrom(old(Model()), o, 0, now) == CoinFrom(Model(), o, i, now)
        decreases |holds| - i
      {
        ghost var s := Model();
        var h := holds[i];
        if h.order == Some(o) {
          var row := types[h.typeId];
          row := row.(sold := row.sold + h.quantity, reserved := if row.reserved > h.quantity then row.reserved - h.quantity else 0);
          if !RowAllowed(row) {
            return Some(CheckViolation);
          }
          types := types[h.typeId := row];
          holds := holds[i := Moved(h, Booked, now)];
        }
        assert CoinRow(s, o, i, now) == Committed(Model());
        i := i + 1;
      }
      return None;
    }

    /** Pay an order with coins, given the status that was read before the rows were locked. */
    method CoinCheckout(o: OrderId, read: OrderStatus, now: Time) returns (error: Option<Error>)
      requires TypesKnown(Model())
      modifies this
      ensures Ended(old(Model()), Coin(o, read, now), Model(), error)
    {
      var types0, holds0, orders0 := types, holds, orders;
      var found, late, unpayable := Inspect(o, now);
      if o >= |orders| {
        return Some(NotFound);
      }
      if read != Pending {
        return Some(BadRequest);
      }
      if !found {
        return Some(NotFound);
      }
      if late || unpayable {
        return Some(Conflict);
      }
      orders := orders[o := orders[o].(status := Paid)];
      error := RunCoins(o, now);
      if error.Some? {
        types, holds, orders := types0, holds0, orders0;
      }
    }

    /** The earliest due row outside the given ones, if there is one. */
    method NextDue(rows: set<nat>, now: Time) returns (next: Option<nat>)
      ensures next.None? ==> DueRows(holds, now) <= rows
      ensures next.Some? ==> next.value in DueRows(holds, now) && next.value !in rows
      ensures next.Some? ==> forall j :: j in DueRows(holds, now) && j !in rows && j != next.value ==> Earlier(holds, next.value, j)
    {
      next := None;
      for i := 0 to |holds|
        invariant next.Some? ==> next.value < i && next.value !in rows && IsDue(holds[next.value], now)
        invariant next.None? ==> forall j: nat :: j < i && IsDue(holds[j], now) ==> j in rows
        invariant next.Some? ==>
          forall j: nat :: j < i && IsDue(holds[j], now) && j !in rows && j != next.value ==> Earlier(holds, next.value, j)
      {
        if IsDue(holds[i], now) && i !in rows && (next.None? || Earlier(holds, i, next.value)) {
          next := Some(i);
        }
      }
    }

    /** The batch of rows the expiry worker takes. */
    method SelectDue(limit: nat, now: Time) returns (rows: set<nat>)
      ensures Batch(holds, rows, now, limit)
    {
      rows := {};
      while |rows| < limit
        invariant ComesFirst(holds, rows, now) && |rows| <= limit
      {
        var next := NextDue(rows, now);
        if next.None? {
          assert rows == DueRows(holds, now);
          return;
        }
        rows := rows + {next.value};
      }
      assert |DueRows(holds, now)| == |DueRows(holds, now) - rows| + |rows|;
    }

    /** One batch of the expiry worker, on a bare connection: what it did before a refused row stays. */
    method ExpireDue(limit: nat, now: Time) returns (error: Option<Error>, rows: set<nat>)
      requires TypesKnown(Model())
      modifies this
      ensures Batch(old(holds), rows, now, limit)
      ensures Model() == After(old(Model()), Expire(rows, now))
      ensures error.None? <==> SweepFrom(old(Model()), ExpireRows(rows), 0, now).Committed?
    {
      rows := SelectDue(limit, now);
      error := RunSweep(ExpireRows(rows), now);
    }

    /** One batch of a drain that has come some way. */
    method DrainBatch(now: Time, ghost before: State, ghost expired: set<nat>, ghost last: Time, ghost start: Time, ghost k: nat)
      returns (rows: set<nat>)
      requires Progress(before, Model(), expired, last, start, k) && last <= now
      modifies this
      ensures |expired + rows| == |expired| + |rows|
      ensures Progress(before, Model(), expired + rows, now, start, k + 1)
      ensures rows == {} ==> Finished(before, Model(), expired + rows, start, now)
    {
      ghost var s := Model();
      var error;
      error, rows := ExpireDue(100, now);
      BatchProgress(before, s, expired, last, start, k, rows, now);
    }

    /** Drain the due holds in batches of a hundred, at most fifty of them, each at its own reading of the clock. */
    method Drain(clock: seq<Time>) returns (total: nat, expired: set<nat>, last: Time)
      requires |clock| == 50 && Ticking(clock) && Drainable(Model())
      modifies this
      ensures total == |expired| && last in clock
      ensures DrainEnds(old(Model()), Model(), expired, clock[0], last, clock[49])
    {
      ghost var before := Model();
      ProgressStarts(before, clock[0]);
      var k, more := 0, true;
      total, expired, last := 0, {}, clock[0];
      while more && k < 50
        invariant 0 <= k <= 50 && last == clock[Max(0, k - 1)] && total == |expired|
        invariant Progress(before, Model(), expired, last, clock[0], k)
        invariant !more ==> Finished(before, Model(), expired, clock[0], last)
        decreases more, 50 - k
      {
        var rows := DrainBatch(clock[k], before, expired, last, clock[0], k);
        total, expired, last := total + |rows|, expired + rows, clock[k];
        k, more := k + 1, rows != {};
      }
      ProgressEnds(before, Model(), expired, last, clock[0], k, clock[49]);
    }

    /** One hold's turn in an extension. */
    method ExtendHold(o: OrderId, i: nat, seconds: int, now: Time) returns (error: Option<Error>)
      requires i < |holds|
      modifies this`holds
      ensures ExtendRow(old(Model()), o, i, seconds, now) == if error.Some? then Refused(error.value) else Committed(Model())
    {
      var h := holds[i];
      if h.order == Some(o) {
        if !IsOpen(h.status) || h.extensions >= MAX_EXTENSIONS {
          return Some(Conflict);
        }
        holds := holds[i := h.(expiresAt := now + seconds, extensions := h.extensions + 1, status := PaymentProcessing)];
      }
      return None;
    }

    /** Extend the holds of an order in id order; a refusal leaves the rows already extended, for the caller to roll back. */
    method ExtendHolds(o: OrderId, seconds: int, now: Time) returns (error: Option<Error>)
      modifies this`holds
      ensures ExtendFrom(old(Model()), o, 0, seconds, now) == if error.Some? then Refused(error.value) else Committed(Model())
    {
      var i := 0;
      while i < |holds|
        invariant i <= |holds|
        invariant ExtendFrom(old(Model()), o, 0, seconds, now) == ExtendFrom(Model(), o, i, seconds, now)
        decreases |holds| - i
      {
        error := ExtendHold(o, i, seconds, now);
        if error.Some? {
          return;
        }
        i := i + 1;
      }
      return None;
    }

    /** Give every hold of an order more time, all or nothing. */
    method ExtendOrder(o: OrderId, seconds: int, now: Time) returns (error: Option<Error>)
      requires TypesKnown(Model())
      modifies this
      ensures Ended(old(Model()), Extend(o, seconds, now), Model(), error)
    {
      var found, _, _ := Inspect(o, now);
      if !found || seconds > MAX_EXTENSION_SECONDS {
        return Some(BadRequest);
      }
      var holds0 := holds;
      error := ExtendHolds(o, seconds, now);
      if error.Some? {
        holds := holds0;
      }
    }

    /** The writing half of a repair: sums taken earlier go over the counters if the row read earlier differs from them. */
    method WriteSums(t: TypeId, read: TicketType, sold: nat, reserved: nat) returns (error: Option<Error>)
      requires TypesKnown(Model()) && t in types
      modifies this
      ensures read.sold == sold && read.reserved == reserved ==> error == None && Model() == old(Model())
      ensures read.sold != sold || read.reserved != reserved ==>
        Ended(old(Model()), Repair(t, sold, reserved), Model(), error)
    {
      if read.sold != sold || read.reserved != reserved {
        var row := types[t].(sold := sold, reserved := reserved);
        if !RowAllowed(row) {
          return Some(CheckViolation);
        }
        types := types[t := row];
      }
      return None;
    }

    /** A repair that nothing disturbs: it reads the row, sums what is sold and then what is held, and writes. */
    method Reconcile(t: TypeId, now: Time) returns (error: Option<Error>)
      requires TypesKnown(Model())
      modifies this
      ensures t !in old(types) ==> error == Some(BadRequest)
      ensures error.Some? ==> Model() == old(Model())
      ensures t in old(types) && error == None ==>
        var row := TicketType(old(types)[t].total, Sold(old(orders), t), Quantity(old(holds), Unexpired(now), t));
        Model() == old(Model()).(types := old(types)[t := row])
      ensures t in old(types) && RowAllowed(old(types)[t]) ==>
        (error == None <==> Sold(old(orders), t) + Quantity(old(holds), Unexpired(now), t) <= old(types)[t].total)
    {
      if t !in types {
        return Some(BadRequest);
      }
      var read := types[t];
      var sold, reserved := Summary(t, now);
      error := WriteSums(t, read, sold, reserved);
    }

    /** Overwrite a ticket type's capacity and counters with what is given. */
    method EditType(t: TypeId, total: Option<nat>, sold: Option<nat>, reserved: Option<nat>) returns (error: Option<Error>)
      requires TypesKnown(Model())
      modifies this
      ensures Ended(old(Model()), Edit(t, total, sold, reserved), Model(), error)
    {
      if t !in types {
        return Some(NotFound);
      }
      if !EditWellFormed(total, sold, reserved) {
        return Some(BadRequest);
      }
      var row := types[t];
      if total.Some? {
        row := row.(total := total.value);
      }
      if sold.Some? {
        row := row.(sold := sold.value);
      }
      if reserved.Some? {
        row := row.(reserved := reserved.value);
      }
      if !RowAllowed(row) {
        return Some(CheckViolation);
      }
      types := types[t := row];
      return None;
    }
  }

  lemma {:induction false} ItemsSplit(items: seq<Item>, k: nat, t: TypeId)
    requires k < |items|
    ensures ItemQuantity(items[..k + 1], t)
         == ItemQuantity(items[..k], t) + if items[k].typeId == t then items[k].quantity else 0
  {
    if k > 0 {
      ItemsSplit(items[1..], k - 1, t);
      assert items[..k + 1][1..] == items[1..][..k] && items[..k][1..] == items[1..][..k - 1];
    } else {
      assert items[..1][1..] == [];
    }
  }
}
