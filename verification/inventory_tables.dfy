/**
 The status tables of holds and orders, read the other way round: from which statuses each one is
 reached, in one move or in many, and how long a hold can live.
 */
module InventoryTables {
  import opened Common
  import opened Inventory

  // ---------------------------------------------------------------------------------------
  //  Holds
  // ---------------------------------------------------------------------------------------

  /** The statuses a hold can move to the given one from, in one move. */
  function HoldSources(to: HoldStatus): set<HoldStatus> {
    match to
    case Created => {}
    case LockingInventory => {Created, Active}
    case Reserved => {LockingInventory, Active}
    case PaymentPending => {Reserved, Active}
    case PaymentStarted => {PaymentPending, Active}
    case PaymentProcessing => {PaymentStarted, Active}
    case PaymentVerified => {PaymentProcessing, Active}
    case Converting => {PaymentVerified, Active}
    case Booked => {Converting, Active}
    case Converted => {Converting, Active}
    case Expired => {Reserved, PaymentPending, PaymentStarted, PaymentProcessing, Active}
    case Cancelled => {Reserved, PaymentPending, PaymentStarted, Active}
    case Released => {Booked, Converted, Active}
    case ForceReleased => {}
    case RefundPending => {PaymentVerified, HoldStatus.Expired}
    case Refunded => {RefundPending}
    case Failed => {Created, LockingInventory, PaymentProcessing, Converting, RefundPending}
    case Active => {Created}
  }

  lemma HoldTableByTarget(from: HoldStatus, to: HoldStatus)
    ensures MayBecome(from, to) <==> from == to || from in HoldSources(to)
  {
  }

  /** A hold's history as far as its table goes: every move is allowed, and is one. */
  ghost predicate HoldHistory(p: seq<HoldStatus>) {
    p != [] && forall i :: 0 <= i < |p| - 1 ==> MayBecome(p[i], p[i + 1]) && p[i] != p[i + 1]
  }

  /** How many moves a hold in that status can have behind it at most. */
  function Age(st: HoldStatus): nat {
    match st
    case Created => 0
    case Active => 1
    case LockingInventory => 2
    case Reserved => 3
    case PaymentPending => 4
    case PaymentStarted => 5
    case PaymentProcessing => 6
    case PaymentVerified => 7
    case Converting => 8
    case Booked => 9
    case Converted => 9
    case Expired => 7
    case Cancelled => 6
    case Released => 10
    case ForceReleased => 0
    case RefundPending => 8
    case Refunded => 9
    case Failed => 9
  }

  lemma {:induction false} HistoryAges(p: seq<HoldStatus>, i: nat, j: nat)
    requires HoldHistory(p) && i <= j < |p|
    ensures Age(p[i]) + (j - i) <= Age(p[j])
    decreases j - i
  {
    if i < j {
      assert MayBecome(p[i], p[i + 1]);
      HistoryAges(p, i + 1, j);
    }
  }

  /** A hold that only moves as its table says never comes back to a status it has left, and moves at most ten times. */
  lemma HoldsNeverComeBack(p: seq<HoldStatus>)
    requires HoldHistory(p)
    ensures forall i, j :: 0 <= i < j < |p| ==> p[i] != p[j]
    ensures |p| <= 11
  {
    forall i, j | 0 <= i < j < |p| ensures p[i] != p[j] {
      HistoryAges(p, i, j);
    }
    HistoryAges(p, 0, |p| - 1);
  }

  lemma HistoryExtends(p: seq<HoldStatus>, to: HoldStatus)
    requires HoldHistory(p) && MayBecome(p[|p| - 1], to) && p[|p| - 1] != to
    ensures HoldHistory(p + [to])
  {
  }

  /** Ten moves are possible. */
  lemma LongestHistory()
    ensures exists p :: HoldHistory(p) && |p| == 11
  {
    var early := [Created] + [Active] + [LockingInventory] + [Reserved] + [PaymentPending];
    HistoryExtends([Created], Active);
    HistoryExtends([Created] + [Active], LockingInventory);
    HistoryExtends([Created] + [Active] + [LockingInventory], Reserved);
    HistoryExtends([Created] + [Active] + [LockingInventory] + [Reserved], PaymentPending);
    var paid := LaterHistory(early);
    assert HoldHistory(paid);
  }

  lemma LaterHistory(p: seq<HoldStatus>) returns (q: seq<HoldStatus>)
    requires HoldHistory(p) && p[|p| - 1] == PaymentPending
    ensures HoldHistory(q) && |q| == |p| + 6
  {
    q := p + [PaymentStarted];
    HistoryExtends(p, PaymentStarted);
    HistoryExtends(q, PaymentProcessing);
    q := q + [PaymentProcessing];
    HistoryExtends(q, PaymentVerified);
    q := q + [PaymentVerified];
    HistoryExtends(q, Converting);
    q := q + [Converting];
    HistoryExtends(q, Booked);
    q := q + [Booked];
    HistoryExtends(q, Released);
    q := q + [Released];
  }

  /** The next move of an open hold on its way to being sold. */
  function Onward(st: HoldStatus): HoldStatus {
    match st
    case Created => Active
    case LockingInventory => Reserved
    case Reserved => PaymentPending
    case PaymentPending => PaymentStarted
    case PaymentStarted => PaymentProcessing
    case PaymentProcessing => PaymentVerified
    case PaymentVerified => Converting
    case _ => Booked
  }

  lemma {:induction false} SaleLiesAhead(st: HoldStatus) returns (p: seq<HoldStatus>)
    requires IsOpen(st)
    ensures HoldHistory(p) && p[0] == st && IsSold(p[|p| - 1])
    decreases 10 - Age(st)
  {
    var next := Onward(st);
    if IsSold(next) {
      p := [st, next];
    } else {
      var rest := SaleLiesAhead(next);
      p := [st] + rest;
    }
  }

  lemma {:induction false} NoSaleAfterwards(p: seq<HoldStatus>)
    requires HoldHistory(p) && !IsOpen(p[0]) && !IsSold(p[0])
    ensures !IsSold(p[|p| - 1])
    decreases |p|
  {
    if |p| > 1 {
      assert MayBecome(p[0], p[1]);
      NoSaleAfterwards(p[1..]);
    }
  }

  /** The open statuses are those, short of the sold ones, from which the table still leads to a sale. */
  lemma OpenIffSaleAhead(st: HoldStatus)
    ensures IsOpen(st) <==> !IsSold(st) && exists p :: HoldHistory(p) && p[0] == st && IsSold(p[|p| - 1])
  {
    if IsOpen(st) {
      var p := SaleLiesAhead(st);
    } else if !IsSold(st) {
      forall p | HoldHistory(p) && p[0] == st ensures !IsSold(p[|p| - 1]) {
        NoSaleAfterwards(p);
      }
    }
  }

  /** A status is open, sold, released, or set aside for a refund, and only one of these. */
  lemma StatusesPartition(st: HoldStatus)
    ensures IsOpen(st) <==> !IsSold(st) && !IsReleased(st) && !st.RefundPending? && !st.Refunded?
    ensures IsSold(st) ==> !IsReleased(st) && !st.RefundPending? && !st.Refunded?
    ensures IsReleased(st) ==> !st.RefundPending? && !st.Refunded?
  {
  }

  // ---------------------------------------------------------------------------------------
  //  Orders
  // ---------------------------------------------------------------------------------------

  /** The statuses an order can change to the given one from, in one change. */
  function OrderSources(to: OrderStatus): set<OrderStatus> {
    match to
    case Draft => {}
    case Pending => {Draft}
    case Confirmed => {Draft, Pending, Paid}
    case Paid => {Draft, Pending, Confirmed}
    case Completed => {Draft, Confirmed, Paid}
    case Cancelled => {Draft, Pending, Confirmed, Paid}
    case Expired => {Draft, Pending, Paid}
    case Refunded => {Confirmed, Completed}
    case PartiallyRefunded => {Confirmed, Completed, OrderStatus.Refunded}
  }

  lemma OrderTableByTarget(from: OrderStatus, to: OrderStatus)
    ensures OrderMayBecome(from, to) <==> from == to || from in OrderSources(to)
  {
  }

  ghost predicate OrderHistory(p: seq<OrderStatus>) {
    p != [] && forall i :: 0 <= i < |p| - 1 ==> OrderMayBecome(p[i], p[i + 1])
  }

  /** Where an order can still get to: confirmed and paid lead to each other, and the closed statuses only to refunds, if anywhere. */
  predicate Ahead(a: OrderStatus, b: OrderStatus) {
    a == b ||
    match a
    case Draft => true
    case Pending => !b.Draft?
    case Confirmed => !b.Draft? && !b.Pending?
    case Paid => !b.Draft? && !b.Pending?
    case Completed => b.Refunded? || b.PartiallyRefunded?
    case Refunded => b.PartiallyRefunded?
    case _ => false
  }

  lemma {:induction false} HistoryStaysAhead(p: seq<OrderStatus>)
    requires OrderHistory(p)
    ensures Ahead(p[0], p[|p| - 1])
    decreases |p|
  {
    if |p| > 1 {
      assert OrderMayBecome(p[0], p[1]);
      HistoryStaysAhead(p[1..]);
    }
  }

  /** One way there. */
  function Way(a: OrderStatus, b: OrderStatus): seq<OrderStatus> {
    if OrderMayBecome(a, b) then [a, b]
    else if a.Confirmed? then [a, Paid, b]
    else [a, Confirmed, b]
  }

  /** An order that is changed any number of times gets from one status to another exactly when that one lies ahead. */
  lemma OrderReachesIff(a: OrderStatus, b: OrderStatus)
    ensures Ahead(a, b) <==> exists p :: OrderHistory(p) && p[0] == a && p[|p| - 1] == b
  {
    if Ahead(a, b) {
      assert OrderHistory(Way(a, b));
      assert Way(a, b)[0] == a && Way(a, b)[|Way(a, b)| - 1] == b;
    }
    forall p | OrderHistory(p) && p[0] == a && p[|p| - 1] == b ensures Ahead(a, b) {
      HistoryStaysAhead(p);
    }
  }

  /** An order is closed once it can no longer be completed, and settled from its confirmation until then. */
  lemma ClosedAndSettledIff(st: OrderStatus)
    ensures Terminal(st) <==> !exists p :: OrderHistory(p) && p[0] == st && p[|p| - 1] == Completed
    ensures Settled(st) <==>
      && (exists p :: OrderHistory(p) && p[0] == Confirmed && p[|p| - 1] == st)
      && (exists p :: OrderHistory(p) && p[0] == st && p[|p| - 1] == Completed)
  {
    OrderReachesIff(st, Completed);
    OrderReachesIff(Confirmed, st);
  }

  /** From a cancelled, expired or partially refunded order no change leads anywhere else. */
  lemma ClosedForGood(p: seq<OrderStatus>)
    requires OrderHistory(p) && (p[0].Cancelled? || p[0].Expired? || p[0].PartiallyRefunded?)
    ensures forall i :: 0 <= i < |p| ==> p[i] == p[0]
  {
    forall i | 0 <= i < |p| ensures p[i] == p[0] {
      HistoryStaysAhead(p[..i + 1]);
    }
  }
}
