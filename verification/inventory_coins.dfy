/** The coin checkout: when it is accepted, and what it does that a payment would not. */
module InventoryCoins {
  import opened Common
  import opened Inventory
  import opened InventorySafety
  import opened InventoryCapacity

  // ---------------------------------------------------------------------------------------
  //  When a coin checkout is accepted
  // ---------------------------------------------------------------------------------------

  /** The counters once a quantity has been moved from reserved to sold. */
  function Shifted(tt: TicketType, q: nat): TicketType {
    tt.(sold := tt.sold + q, reserved := Max(0, tt.reserved - q))
  }

  /** Every type's row admits what the holds from row i on would add to it. */
  ghost predicate RowsAdmit(s: State, o: OrderId, i: nat)
    requires i <= |s.holds|
  {
    forall t :: t in s.types ==> RowAllowed(Shifted(s.types[t], Quantity(s.holds[i..], OfOrder(o), t)))
  }

  lemma ShiftedTwice(tt: TicketType, p: nat, q: nat)
    requires RowAllowed(tt)
    ensures Shifted(Shifted(tt, p), q) == Shifted(tt, p + q)
    ensures RowAllowed(Shifted(tt, p + q)) ==> RowAllowed(Shifted(tt, p))
  {
  }

  lemma CoinRowShifts(s: State, o: OrderId, i: nat, now: Time, t: TypeId)
    requires i < |s.holds| && TypesKnown(s) && RowsAllowed(s) && t in s.types && CoinRow(s, o, i, now).Committed?
    ensures CoinRow(s, o, i, now).state.types[t] == Shifted(s.types[t], Share(OfOrder(o), s.holds[i], t))
  {
    assert RowAllowed(s.types[t]);
  }

  lemma RowsAdmitStep(s: State, o: OrderId, i: nat, now: Time)
    requires i < |s.holds| && TypesKnown(s) && RowsAllowed(s) && CoinRow(s, o, i, now).Committed?
    ensures RowsAdmit(CoinRow(s, o, i, now).state, o, i + 1) <==> RowsAdmit(s, o, i)
  {
    var s' := CoinRow(s, o, i, now).state;
    assert s'.holds[i + 1..] == s.holds[i + 1..];
    forall t | t in s.types
      ensures Shifted(s'.types[t], Quantity(s.holds[i + 1..], OfOrder(o), t)) == Shifted(s.types[t], Quantity(s.holds[i..], OfOrder(o), t))
    {
      CoinRowShifts(s, o, i, now, t);
      QuantityStep(s.holds, OfOrder(o), i, t);
      ShiftedTwice(s.types[t], Share(OfOrder(o), s.holds[i], t), Quantity(s.holds[i + 1..], OfOrder(o), t));
    }
  }

  lemma RefusedRowDoesNotAdmit(s: State, o: OrderId, i: nat, now: Time)
    requires i < |s.holds| && TypesKnown(s) && RowsAllowed(s) && CoinRow(s, o, i, now).Refused?
    ensures !RowsAdmit(s, o, i)
  {
    var h := s.holds[i];
    QuantityStep(s.holds, OfOrder(o), i, h.typeId);
    ShiftedTwice(s.types[h.typeId], h.quantity, Quantity(s.holds[i + 1..], OfOrder(o), h.typeId));
    assert !RowAllowed(Shifted(s.types[h.typeId], h.quantity));
  }

  lemma {:induction false} CoinLoopCommitsIff(s: State, o: OrderId, i: nat, now: Time)
    requires i <= |s.holds| && TypesKnown(s) && RowsAllowed(s)
    ensures CoinFrom(s, o, i, now).Committed? <==> RowsAdmit(s, o, i)
    decreases |s.holds| - i
  {
    if i == |s.holds| {
      forall t | t in s.types ensures RowAllowed(Shifted(s.types[t], Quantity(s.holds[i..], OfOrder(o), t))) {
        assert RowAllowed(s.types[t]);
      }
    } else if CoinRow(s, o, i, now).Committed? {
      RowsAdmitStep(s, o, i, now);
      CoinLoopCommitsIff(CoinRow(s, o, i, now).state, o, i + 1, now);
    } else {
      RefusedRowDoesNotAdmit(s, o, i, now);
    }
  }

  /**
   A coin checkout is accepted exactly when the order was read as pending, has holds, none of them
   late or given back, and every type's row admits the order's quantity. Neither what the order has
   become since nor whether its holds are sold already is asked.
   */
  lemma CoinCommitsIff(s: State, o: OrderId, read: OrderStatus, now: Time)
    requires Sound(s)
    ensures CoinCheckout(s, o, read, now).Committed? <==>
      && o < |s.orders| && read == Pending && HasHold(s, o) && OnTime(s, o, now) && !Blocked(s, o, now)
      && RowsAdmit(s, o, 0)
  {
    if o < |s.orders| {
      var s0 := WithStatus(s, o, Paid);
      CoinLoopCommitsIff(s0, o, 0, now);
      assert RowsAdmit(s0, o, 0) <==> RowsAdmit(s, o, 0);
    }
  }

  // ---------------------------------------------------------------------------------------
  //  What it does
  // ---------------------------------------------------------------------------------------

  /** The loop of an accepted coin checkout moves the order's whole quantity from reserved to sold. */
  lemma CoinLoopShifts(s: State, o: OrderId, now: Time, t: TypeId)
    requires TypesKnown(s) && RowsAllowed(s) && t in s.types && CoinFrom(s, o, 0, now).Committed?
    ensures var s' := CoinFrom(s, o, 0, now).state;
      && s'.types[t] == Shifted(s.types[t], Quantity(s.holds, OfOrder(o), t))
      && Quantity(s'.holds, Open, t) == OpenElsewhere(s, o, t)
  {
    assert s.holds[0..] == s.holds && RowAllowed(s.types[t]);
    CoinCounts(s, o, 0, now, t);
    CoinKeepsTotals(s, o, now, t);
  }

  /**
   An accepted coin checkout marks the order paid and books every hold of it. The sold counter grows
   by the whole order, sold before or not; what is held shrinks only by what was still open of it.
   */
  lemma CoinSellsAll(s: State, o: OrderId, read: OrderStatus, now: Time, t: TypeId)
    requires Sound(s) && t in s.types && CoinCheckout(s, o, read, now).Committed?
    ensures var s' := CoinCheckout(s, o, read, now).state;
      && o < |s'.orders| && s'.orders[o].status == Paid && CoinBooked(s.holds, s'.holds, o, 0)
    ensures t in CoinCheckout(s, o, read, now).state.types
    ensures CoinCheckout(s, o, read, now).state.types[t] == Shifted(s.types[t], ItemQuantity(s.orders[o].items, t))
    ensures Quantity(CoinCheckout(s, o, read, now).state.holds, Open, t) == OpenElsewhere(s, o, t)
  {
    var s0 := WithStatus(s, o, Paid);
    CoinBooks(s0, o, 0, now);
    CoinLoopShifts(s0, o, now, t);
    assert Quantity(s.holds, OfOrder(o), t) == ItemQuantity(s.orders[o].items, t);
  }

  lemma CoinKeepsTotals(s: State, o: OrderId, now: Time, t: TypeId)
    requires TypesKnown(s) && t in s.types && CoinFrom(s, o, 0, now).Committed?
    ensures CoinFrom(s, o, 0, now).state.types[t].total == s.types[t].total
  {
    CoinKeepsCapacity(s, o, 0, now);
  }

  /** An order all of whose holds are sold and not late: a payment has been confirmed for it in time. */
  ghost predicate AllSold(s: State, o: OrderId, now: Time) {
    HasHold(s, o) && forall i :: 0 <= i < |s.holds| && s.holds[i].order == Some(o) ==>
      IsSold(s.holds[i].status) && s.holds[i].expiresAt > now
  }

  lemma {:induction false} SoldIsNotOpen(holds: seq<Hold>, o: OrderId, t: TypeId)
    requires forall i :: 0 <= i < |holds| && holds[i].order == Some(o) ==> IsSold(holds[i].status)
    ensures Quantity(holds, OpenOf(o), t) == 0
  {
    if holds != [] {
      SoldIsNotOpen(holds[1..], o, t);
    }
  }

  /**
   A coin checkout that read the order as pending before a payment sold it is accepted a second time
   as long as the rows have room, and then takes the order's quantity off what others have reserved:
   the reserved counter still covers their holds exactly when it had that much to spare.
   */
  lemma StaleCoinsTakeFromOthers(s: State, o: OrderId, now: Time, t: TypeId)
    requires Sound(s) && o < |s.orders| && AllSold(s, o, now) && t in s.types
    ensures CoinCheckout(s, o, Pending, now).Committed? <==> RowsAdmit(s, o, 0)
    ensures RowsAdmit(s, o, 0) ==>
      var s' := CoinCheckout(s, o, Pending, now).state;
      && t in s'.types
      && s'.types[t].sold == s.types[t].sold + ItemQuantity(s.orders[o].items, t)
      && (Gap(s', t) >= 0 <==> Quantity(s.holds, Open, t) <= Max(0, s.types[t].reserved - ItemQuantity(s.orders[o].items, t)))
  {
    CoinCommitsIff(s, o, Pending, now);
    SoldIsNotOpen(s.holds, o, t);
    if RowsAdmit(s, o, 0) {
      CoinSellsAll(s, o, Pending, now, t);
    }
  }

  // ---------------------------------------------------------------------------------------
  //  Extended holds
  // ---------------------------------------------------------------------------------------

  lemma {:induction false} AllOpenIsWithinOpen(holds: seq<Hold>, o: OrderId, t: TypeId)
    requires forall i :: 0 <= i < |holds| && holds[i].order == Some(o) ==> IsOpen(holds[i].status)
    ensures Quantity(holds, OfOrder(o), t) <= Quantity(holds, Open, t)
  {
    if holds != [] {
      AllOpenIsWithinOpen(holds[1..], o, t);
    }
  }

  /** An order whose holds are all open finds room: its quantity is part of what is reserved. */
  lemma OpenOrderFindsRoom(s: State, o: OrderId)
    requires Sound(s) && HeldIsReserved(s)
    requires forall i :: 0 <= i < |s.holds| && s.holds[i].order == Some(o) ==> IsOpen(s.holds[i].status)
    ensures RowsAdmit(s, o, 0)
  {
    assert s.holds[0..] == s.holds;
    forall t | t in s.types ensures RowAllowed(Shifted(s.types[t], Quantity(s.holds[0..], OfOrder(o), t))) {
      AllOpenIsWithinOpen(s.holds, o, t);
      assert RowAllowed(s.types[t]) && Gap(s, t) >= 0;
    }
  }

  /** Every hold of the order is in the status of an extended one, until the given time. */
  ghost predicate AllExtended(s: State, o: OrderId, until: Time) {
    && o < |s.orders| && HasHold(s, o)
    && forall i :: 0 <= i < |s.holds| && s.holds[i].order == Some(o) ==>
         s.holds[i].status == PaymentProcessing && s.holds[i].expiresAt == until
  }

  lemma HoldsAreProlonged(s: State, s1: State, o: OrderId, until: Time)
    requires Sound(s) && s1.orders == s.orders && HasHold(s, o) && Prolonged(s.holds, s1.holds, o, 0, until)
    ensures AllExtended(s1, o, until)
  {
    var i :| 0 <= i < |s.holds| && s.holds[i].order == Some(o);
    assert s1.holds[i].order == Some(o) && s.holds[i].token.OrderToken?;
  }

  lemma ExtendedOrderSells(s: State, o: OrderId, until: Time, later: Time)
    requires Sound(s) && HeldIsReserved(s) && AllExtended(s, o, until) && later < until
    ensures CoinCheckout(s, o, Pending, later).Committed?
    ensures CoinBooked(s.holds, CoinCheckout(s, o, Pending, later).state.holds, o, 0)
  {
    OpenOrderFindsRoom(s, o);
    CoinCommitsIff(s, o, Pending, later);
    CoinBooks(WithStatus(s, o, Paid), o, 0, later);
  }

  /** In the time an extension has given it, an order can be paid with coins, and its holds are then sold. */
  lemma CoinsSellExtended(s: State, o: OrderId, seconds: int, now: Time, later: Time)
    requires Sound(s) && ExtendOrder(s, o, seconds, now).Committed? && later < now + seconds
    requires HeldIsReserved(ExtendOrder(s, o, seconds, now).state)
    ensures Sound(ExtendOrder(s, o, seconds, now).state)
    ensures var r := CoinCheckout(ExtendOrder(s, o, seconds, now).state, o, Pending, later);
      r.Committed? && CoinBooked(ExtendOrder(s, o, seconds, now).state.holds, r.state.holds, o, 0)
  {
    var s1 := ExtendOrder(s, o, seconds, now).state;
    ExtendKeepsSound(s, o, seconds, now);
    ExtensionProlongs(s, o, 0, seconds, now);
    HoldsAreProlonged(s, s1, o, now + seconds);
    ExtendedOrderSells(s1, o, now + seconds, later);
  }
}
