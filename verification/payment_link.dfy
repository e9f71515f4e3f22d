/** The payment attempts' view of one order agrees with the inventory's own decision. */
module PaymentLink {
  import opened Common
  import opened Inventory
  import opened InventorySafety
  import opened InventoryMoves
  import opened InventoryCoins
  import PaymentCapture

  ghost predicate MayAllExpire(s: State, o: OrderId, i: nat) {
    forall j :: i <= j < |s.holds| && s.holds[j].order == Some(o) ==> MayBecome(s.holds[j].status, HoldStatus.Expired)
  }

  /** The late branch commits exactly when every hold of the order may expire. */
  lemma {:induction false} RefundCommitsIff(s: State, o: OrderId, i: nat, outcome: HoldStatus, now: Time)
    requires i <= |s.holds|
    ensures RefundFrom(s, o, i, outcome, now).Committed? <==> MayAllExpire(s, o, i)
    decreases |s.holds| - i
  {
    if i < |s.holds| {
      var r := RefundRow(s, o, i, outcome, now);
      if r.Committed? {
        RefundCommitsIff(r.state, o, i + 1, outcome, now);
        assert MayAllExpire(r.state, o, i + 1) <==> MayAllExpire(s, o, i + 1) by {
          forall j | i < j < |s.holds| ensures r.state.holds[j] == s.holds[j] {
          }
        }
      }
    }
  }

  /** rows are the positions of the order's holds. */
  ghost predicate RowsOf(s: State, o: OrderId, rows: seq<nat>) {
    && (forall k :: 0 <= k < |rows| ==> rows[k] < |s.holds| && s.holds[rows[k]].order == Some(o))
    && (forall i: nat :: i < |s.holds| && s.holds[i].order == Some(o) ==> i in rows)
  }

  /** The world shows the statuses of those rows, and which of them have run out of time. */
  ghost predicate Shows(s: State, rows: seq<nat>, w: PaymentCapture.World, lapsed: set<nat>, now: Time)
    requires forall k :: 0 <= k < |rows| ==> rows[k] < |s.holds|
  {
    && |w.holds| == |rows|
    && (forall k :: 0 <= k < |rows| ==> w.holds[k] == s.holds[rows[k]].status)
    && (forall k: nat :: k < |rows| ==> (k in lapsed <==> s.holds[rows[k]].expiresAt <= now))
  }

  lemma SameLateness(s: State, o: OrderId, rows: seq<nat>, w: PaymentCapture.World, lapsed: set<nat>, now: Time)
    requires RowsOf(s, o, rows) && Shows(s, rows, w, lapsed, now)
    ensures PaymentCapture.AnyLate(w, lapsed) <==> !OnTime(s, o, now)
  {
    if !OnTime(s, o, now) {
      var i :| 0 <= i < |s.holds| && s.holds[i].order == Some(o) && LateHold(s.holds[i], now);
      var k :| 0 <= k < |rows| && rows[k] == i;
      assert PaymentCapture.IsLate(w.holds[k], k, lapsed);
    }
    if PaymentCapture.AnyLate(w, lapsed) {
      var k :| 0 <= k < |w.holds| && PaymentCapture.IsLate(w.holds[k], k, lapsed);
      assert LateHold(s.holds[rows[k]], now);
    }
  }

  lemma SameBlocking(s: State, o: OrderId, rows: seq<nat>, w: PaymentCapture.World, lapsed: set<nat>, now: Time)
    requires RowsOf(s, o, rows) && Shows(s, rows, w, lapsed, now)
    ensures PaymentCapture.AnyUnpayable(w, lapsed) <==> Blocked(s, o, now)
  {
    if Blocked(s, o, now) {
      var i :| 0 <= i < |s.holds| && s.holds[i].order == Some(o) && Unpayable(s.holds[i], now);
      var k :| 0 <= k < |rows| && rows[k] == i;
      assert !PaymentCapture.IsLate(w.holds[k], k, lapsed);
    }
    if PaymentCapture.AnyUnpayable(w, lapsed) {
      var k :| 0 <= k < |w.holds| && !PaymentCapture.IsLate(w.holds[k], k, lapsed)
        && (IsReleased(w.holds[k]) || w.holds[k].RefundPending? || w.holds[k].Refunded?);
      assert Unpayable(s.holds[rows[k]], now);
    }
  }

  lemma SamePermission(s: State, o: OrderId, rows: seq<nat>, w: PaymentCapture.World, lapsed: set<nat>, now: Time, to: HoldStatus)
    requires RowsOf(s, o, rows) && Shows(s, rows, w, lapsed, now)
    ensures PaymentCapture.AllMay(w, to)
      <==> (forall i :: 0 <= i < |s.holds| && s.holds[i].order == Some(o) ==> MayBecome(s.holds[i].status, to))
  {
    if PaymentCapture.AllMay(w, to) {
      forall i | 0 <= i < |s.holds| && s.holds[i].order == Some(o) ensures MayBecome(s.holds[i].status, to) {
        var k :| 0 <= k < |rows| && rows[k] == i;
        assert MayBecome(w.holds[k], to);
      }
    }
  }

  lemma LatePaymentCommitsIff(s: State, o: OrderId, outcome: HoldStatus, now: Time)
    requires TypesKnown(s) && o < |s.orders| && HasHold(s, o) && !OnTime(s, o, now) && !Blocked(s, o, now)
    requires outcome.RefundPending? || outcome.Refunded? || outcome.Failed?
    ensures ConfirmPayment(s, o, outcome, now).Committed? <==> MayAllExpire(s, o, 0)
  {
    RefundCommitsIff(ExpiredByPayment(s, o), o, 0, outcome, now);
  }

  /**
   An attempt is admitted exactly when the inventory, asked about the same rows at the same time,
   would commit the confirmation.
   */
  lemma AdmittedIffConfirmed(s: State, o: OrderId, rows: seq<nat>, w: PaymentCapture.World, lapsed: set<nat>,
                             outcome: HoldStatus, now: Time)
    requires Sound(s) && HeldIsReserved(s) && o < |s.orders|
    requires RowsOf(s, o, rows) && Shows(s, rows, w, lapsed, now)
    requires outcome.RefundPending? || outcome.Refunded? || outcome.Failed?
    ensures PaymentCapture.Admitted(w, lapsed) <==> ConfirmPayment(s, o, outcome, now).Committed?
  {
    SameLateness(s, o, rows, w, lapsed, now);
    SameBlocking(s, o, rows, w, lapsed, now);
    if rows == [] {
      assert !HasHold(s, o);
    } else if !Blocked(s, o, now) {
      assert s.holds[rows[0]].order == Some(o);
      if OnTime(s, o, now) {
        SamePermission(s, o, rows, w, lapsed, now, Converting);
        OnTimePaymentCommitsIff(s, o, outcome, now);
      } else {
        SamePermission(s, o, rows, w, lapsed, now, HoldStatus.Expired);
        LatePaymentCommitsIff(s, o, outcome, now);
      }
    }
  }

  /**
   A coin checkout is let in exactly when the inventory, asked about the same rows at the same time
   under the status it had read, would commit it.
   */
  lemma CoinsAdmittedIffCommitted(s: State, o: OrderId, rows: seq<nat>, w: PaymentCapture.World, lapsed: set<nat>, now: Time)
    requires Sound(s) && o < |s.orders|
    requires RowsOf(s, o, rows) && Shows(s, rows, w, lapsed, now)
    ensures PaymentCapture.AdmittedCoins(w, lapsed, RowsAdmit(s, o, 0)) <==> CoinCheckout(s, o, Pending, now).Committed?
  {
    CoinCommitsIff(s, o, Pending, now);
    SameLateness(s, o, rows, w, lapsed, now);
    SameBlocking(s, o, rows, w, lapsed, now);
    if rows == [] {
      assert !HasHold(s, o);
    } else {
      assert s.holds[rows[0]].order == Some(o);
    }
  }

  // ---------------------------------------------------------------------------------------
  //  The rest of the system
  // ---------------------------------------------------------------------------------------

  /** Anything but a payment of that order. */
  predicate Elsewhere(op: Op, o: OrderId) {
    (op.Confirm? || op.Coin?) ==> op.order != o
  }

  /** The hold is still there, and what happened to it is something others may do. */
  ghost predicate MovedByOthers(s: State, s': State, i: nat)
    requires i < |s.holds|
  {
    i < |s'.holds| && PaymentCapture.OthersMay(s.holds[i].status, s'.holds[i].status)
  }

  lemma SweepByOthers(s: State, w: Sweep, now: Time, i: nat)
    requires TypesKnown(s) && i < |s.holds| && SweepFrom(s, w, 0, now).Committed?
    requires w.BookOrder? ==> s.holds[i].order != Some(w.order)
    ensures MovedByOthers(s, SweepFrom(s, w, 0, now).state, i)
  {
    SweepMovesExactlyTouched(s, w, 0, now);
  }

  lemma CreationByOthers(s: State, items: seq<Item>, status: OrderStatus, expiresAt: Time, seen: map<TypeId, int>, now: Time, i: nat)
    requires Sound(s) && i < |s.holds| && CreateOrder(s, items, status, expiresAt, seen, now).Committed?
    ensures MovedByOthers(s, CreateOrder(s, items, status, expiresAt, seen, now).state, i)
  {
    var o := |s.orders|;
    var s0 := s.(orders := s.orders + [Order(status, items, false)]);
    InsertAppends(s0, Some(o), OrderLines(o, items), expiresAt);
    if status == Confirmed {
      SweepByOthers(InsertFrom(s0, Some(o), OrderLines(o, items), expiresAt).state, ConvertOrder(o), now, i);
    }
  }

  lemma ChangeByOthers(s: State, o: OrderId, next: OrderStatus, now: Time, i: nat)
    requires Sound(s) && i < |s.holds| && UpdateOrder(s, o, next, now).Committed?
    ensures MovedByOthers(s, UpdateOrder(s, o, next, now).state, i)
  {
    UpdateBranches(s, o, next, now);
    if !Terminal(s.orders[o].status) && Terminal(next) {
      SweepByOthers(WithStatus(s, o, next), ReleaseOrder(o), now, i);
    } else if next == Confirmed && s.orders[o].status != Confirmed {
      SweepByOthers(WithStatus(s, o, next), ConvertOrder(o), now, i);
    }
  }

  lemma ClosingByOthers(s: State, op: Op, i: nat)
    requires Sound(s) && i < |s.holds| && (op.Delete? || op.Refund? || op.Fail?)
    ensures MovedByOthers(s, After(s, op), i)
  {
    if Attempt(s, op).Committed? && op.order < |s.orders| {
      var s0 := s.(orders := After(s, op).orders);
      if SweepFrom(s0, ReleaseOrder(op.order), 0, op.at).Committed? {
        SweepByOthers(s0, ReleaseOrder(op.order), op.at, i);
      }
    }
  }

  lemma PaymentByOthers(s: State, op: Op, i: nat)
    requires Sound(s) && i < |s.holds| && (op.Confirm? || op.Coin?) && s.holds[i].order != Some(op.order)
    ensures MovedByOthers(s, After(s, op), i)
  {
    if Attempt(s, op).Committed? {
      if op.Coin? {
        CoinBooks(WithStatus(s, op.order, Paid), op.order, 0, op.at);
      } else {
        PaymentBranches(s, op.order, op.outcome, op.at);
        if OnTime(s, op.order, op.at) {
          SweepByOthers(SettledByPayment(s, op.order), BookOrder(op.order), op.at, i);
        } else {
          RefundSetsAside(ExpiredByPayment(s, op.order), op.order, 0, op.outcome, op.at);
        }
      }
    }
  }

  /**
   Whatever the rest of the system does between the steps of an order's payments, it does to each of the
   order's holds, and to the order, only what the payment attempts' view lets others do.
   */
  lemma OthersStayWithin(s: State, op: Op, o: OrderId, i: nat)
    requires Sound(s) && o < |s.orders| && i < |s.holds| && s.holds[i].order == Some(o) && Elsewhere(op, o)
    ensures MovedByOthers(s, After(s, op), i)
    ensures o < |After(s, op).orders| && PaymentCapture.OthersMaySet(s.orders[o].status, After(s, op).orders[o].status)
  {
    if Attempt(s, op).Committed? {
      OrderSetByOthers(s, op, o);
      match op
      case Create(items, status, expiresAt, seen, at) => CreationByOthers(s, items, status, expiresAt, seen, at, i);
      case ReserveLoose(lines, expiresAt, seen) => InsertAppends(s, None, lines, expiresAt);
      case Update(o', next, at) => ChangeByOthers(s, o', next, at, i);
      case Delete(_, _) => ClosingByOthers(s, op, i);
      case Confirm(_, _, _) => PaymentByOthers(s, op, i);
      case Coin(_, _, _) => PaymentByOthers(s, op, i);
      case Refund(_, _, _) => ClosingByOthers(s, op, i);
      case Fail(_, _) => ClosingByOthers(s, op, i);
      case Expire(rows, at) =>
        var w := ExpiryIsASweep(s, rows, at);
        SweepByOthers(s, w, at, i);
      case Extend(o', seconds, at) => ExtensionProlongs(s, o', 0, seconds, at);
      case Repair(_, _, _) =>
      case Edit(_, _, _, _) =>
      case Add(_, _, _, _) =>
    }
  }

  lemma OrderSetByOthers(s: State, op: Op, o: OrderId)
    requires Sound(s) && o < |s.orders| && Elsewhere(op, o) && Attempt(s, op).Committed?
    ensures o < |After(s, op).orders| && PaymentCapture.OthersMaySet(s.orders[o].status, After(s, op).orders[o].status)
  {
    if op.Update? {
      UpdateBranches(s, op.order, op.next, op.at);
    }
  }
}
