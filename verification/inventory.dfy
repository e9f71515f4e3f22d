/**
 Ticket inventory: reservation rows ("holds"), the cached counters on each ticket type, and
 booking orders. Each operation is one database transaction: it either commits the new state
 or fails and leaves the old one.
 */
module Inventory {
  import opened Common

  type TypeId = nat
  type OrderId = nat
  type Time = int

  datatype HoldStatus =
    | Created | LockingInventory | Reserved | PaymentPending | PaymentStarted | PaymentProcessing
    | PaymentVerified | Converting | Booked | Converted | Expired | Cancelled | Released
    | ForceReleased | RefundPending | Refunded | Failed | Active

  /** A reservation made for an order carries a token derived from the order and the ticket type. */
  datatype Token = OrderToken(order: OrderId, typeId: TypeId) | CallerToken(id: nat)

  datatype Hold = Hold(
    typeId: TypeId,
    order: Option<OrderId>,
    token: Token,
    quantity: nat,
    status: HoldStatus,
    expiresAt: Time,
    convertedAt: Option<Time>,
    releasedAt: Option<Time>,
    extensions: nat)

  /** sold and reserved are the cached counters of the ticket type row. */
  datatype TicketType = TicketType(total: int, sold: int, reserved: int)

  datatype OrderStatus =
    | Draft | Pending | Confirmed | Paid | Completed
    | Cancelled | Expired | Refunded | PartiallyRefunded

  datatype Item = Item(typeId: TypeId, quantity: nat)
  datatype Order = Order(status: OrderStatus, items: seq<Item>, deleted: bool)

  /** Rows are only ever appended, so a row's index is its id. */
  datatype State = State(types: map<TypeId, TicketType>, holds: seq<Hold>, orders: seq<Order>)

  /** How a transaction ends. */
  datatype Outcome = Committed(state: State) | Refused(error: Error)

  // ---------------------------------------------------------------------------------------
  //  Status tables
  // ---------------------------------------------------------------------------------------

  /** The statuses a hold may move to, besides staying where it is. */
  predicate MayBecome(from: HoldStatus, to: HoldStatus) {
    from == to ||
    match from
    case Created => to.LockingInventory? || to.Failed? || to.Active?
    case LockingInventory => to.Reserved? || to.Failed?
    case Reserved => to.PaymentPending? || to.Expired? || to.Cancelled?
    case PaymentPending => to.PaymentStarted? || to.Expired? || to.Cancelled?
    case PaymentStarted => to.PaymentProcessing? || to.Expired? || to.Cancelled?
    case PaymentProcessing => to.PaymentVerified? || to.Expired? || to.Failed?
    case PaymentVerified => to.Converting? || to.RefundPending?
    case Converting => to.Booked? || to.Failed? || to.Converted?
    case Booked => to == Released
    case Converted => to == Released
    case Expired => to == RefundPending
    case RefundPending => to.Refunded? || to.Failed?
    case Active =>
      to.LockingInventory? || to.Reserved? || to.PaymentPending? || to.PaymentStarted? || to.PaymentProcessing? ||
      to.PaymentVerified? || to.Converting? || to.Booked? || to.Converted? || to.Expired? || to.Cancelled? || to.Released?
    case _ => false
  }

  /** The statuses in which a hold still occupies capacity. */
  predicate IsOpen(st: HoldStatus) {
    st.Active? || st.Created? || st.LockingInventory? || st.Reserved? || st.PaymentPending? ||
    st.PaymentStarted? || st.PaymentProcessing? || st.PaymentVerified? || st.Converting?
  }

  predicate IsSold(st: HoldStatus) {
    st.Booked? || st.Converted?
  }

  /** The statuses that stamp a hold's release time. */
  predicate IsReleased(st: HoldStatus) {
    st.Released? || st.Expired? || st.Cancelled? || st.Failed? || st.ForceReleased?
  }

  /** The order statuses whose items count as sold. */
  predicate Settled(st: OrderStatus) {
    st.Confirmed? || st.Paid? || st.Completed?
  }

  predicate Terminal(st: OrderStatus) {
    st.Cancelled? || st.Expired? || st.Refunded? || st.PartiallyRefunded?
  }

  predicate OrderMayBecome(from: OrderStatus, to: OrderStatus) {
    from == to ||
    match from
    case Draft => to.Pending? || to.Confirmed? || to.Paid? || to.Completed? || to.Cancelled? || to.Expired?
    case Pending => to.Confirmed? || to.Paid? || to.Cancelled? || to.Expired?
    case Confirmed => to.Paid? || to.Completed? || to.Cancelled? || to.Refunded? || to.PartiallyRefunded?
    case Paid => to.Confirmed? || to.Completed? || to.Cancelled? || to.Expired?
    case Completed => to.Refunded? || to.PartiallyRefunded?
    case Refunded => to == PartiallyRefunded
    case _ => false
  }

  // ---------------------------------------------------------------------------------------
  //  Sums over rows
  // ---------------------------------------------------------------------------------------

  /** Which holds a sum ranges over. */
  datatype Measure =
    | Open
    | Unexpired(now: Time)
    | Lapsed(now: Time)
    | Due(now: Time)
    | OfOrder(order: OrderId)
    | OpenOf(order: OrderId)
    | Unsold(order: OrderId)

  predicate Counts(m: Measure, h: Hold) {
    match m
    case Open => IsOpen(h.status)
    case Unexpired(now) => IsOpen(h.status) && h.convertedAt.None? && h.releasedAt.None? && h.expiresAt > now
    case Lapsed(now) => IsOpen(h.status) && !(h.convertedAt.None? && h.releasedAt.None? && h.expiresAt > now)
    case Due(now) => IsDue(h, now)
    case OfOrder(o) => h.order == Some(o)
    case OpenOf(o) => h.order == Some(o) && IsOpen(h.status)
    case Unsold(o) => h.order == Some(o) && !IsSold(h.status)
  }

  /** The expiry worker's selection. */
  predicate IsDue(h: Hold, now: Time) {
    && IsOpen(h.status) && !h.status.PaymentVerified? && !h.status.Converting?
    && h.convertedAt.None?
    && h.releasedAt.None?
    && h.expiresAt <= now
  }

  function Share(m: Measure, h: Hold, t: TypeId): nat {
    if h.typeId == t && Counts(m, h) then h.quantity else 0
  }

  function Quantity(holds: seq<Hold>, m: Measure, t: TypeId): nat {
    if holds == [] then 0 else Share(m, holds[0], t) + Quantity(holds[1..], m, t)
  }

  function ItemQuantity(items: seq<Item>, t: TypeId): nat {
    if items == [] then 0
    else (if items[0].typeId == t then items[0].quantity else 0) + ItemQuantity(items[1..], t)
  }

  /** An order counts as sold while it is settled and not deleted. */
  predicate Counted(order: Order) {
    Settled(order.status) && !order.deleted
  }

  function OrderShare(order: Order, t: TypeId): nat {
    if Counted(order) then ItemQuantity(order.items, t) else 0
  }

  /** Tickets sold, derived from the items of the orders that count. */
  function Sold(orders: seq<Order>, t: TypeId): nat {
    if orders == [] then 0 else OrderShare(orders[0], t) + Sold(orders[1..], t)
  }

  /** The derived availability, never below zero. */
  function Available(s: State, t: TypeId, now: Time): int
    requires t in s.types
  {
    Max(0, s.types[t].total - Sold(s.orders, t) - Quantity(s.holds, Unexpired(now), t))
  }

  lemma {:induction false} QuantityUpdate(holds: seq<Hold>, i: nat, h: Hold, m: Measure, t: TypeId)
    requires i < |holds|
    ensures Quantity(holds[i := h], m, t) == Quantity(holds, m, t) - Share(m, holds[i], t) + Share(m, h, t)
  {
    var changed := holds[i := h];
    if i == 0 {
      assert changed[1..] == holds[1..];
    } else {
      assert changed[1..] == holds[1..][i - 1 := h];
      QuantityUpdate(holds[1..], i - 1, h, m, t);
    }
  }

  lemma {:induction false} QuantityAppend(holds: seq<Hold>, h: Hold, m: Measure, t: TypeId)
    ensures Quantity(holds + [h], m, t) == Quantity(holds, m, t) + Share(m, h, t)
  {
    if holds == [] {
      assert (holds + [h])[1..] == [];
    } else {
      assert (holds + [h])[1..] == holds[1..] + [h];
      QuantityAppend(holds[1..], h, m, t);
    }
  }

  lemma {:induction false} SoldUpdate(orders: seq<Order>, o: nat, order: Order, t: TypeId)
    requires o < |orders|
    ensures Sold(orders[o := order], t) == Sold(orders, t) - OrderShare(orders[o], t) + OrderShare(order, t)
  {
    var changed := orders[o := order];
    if o == 0 {
      assert changed[1..] == orders[1..];
    } else {
      assert changed[1..] == orders[1..][o - 1 := order];
      SoldUpdate(orders[1..], o - 1, order, t);
    }
  }

  lemma {:induction false} SoldAppend(orders: seq<Order>, order: Order, t: TypeId)
    ensures Sold(orders + [order], t) == Sold(orders, t) + OrderShare(order, t)
  {
    if orders == [] {
      assert (orders + [order])[1..] == [];
    } else {
      assert (orders + [order])[1..] == orders[1..] + [order];
      SoldAppend(orders[1..], order, t);
    }
  }

  /** Open holds are the unexpired ones and the lapsed ones that no worker has swept yet. */
  lemma {:induction false} OpenIsUnexpiredPlusLapsed(holds: seq<Hold>, t: TypeId, now: Time)
    ensures Quantity(holds, Open, t) == Quantity(holds, Unexpired(now), t) + Quantity(holds, Lapsed(now), t)
  {
    if holds != [] {
      OpenIsUnexpiredPlusLapsed(holds[1..], t, now);
    }
  }

  // ---------------------------------------------------------------------------------------
  //  Ticket type row
  // ---------------------------------------------------------------------------------------

  /** The CHECK constraints of the ticket_types table. */
  predicate RowAllowed(tt: TicketType) {
    tt.sold >= 0 && tt.reserved >= 0 && tt.sold + tt.reserved <= tt.total
  }

  function WriteRow(s: State, t: TypeId, sold: int, reserved: int): (r: Outcome)
    requires t in s.types
  {
    var row := s.types[t].(sold := sold, reserved := reserved);
    if RowAllowed(row) then Committed(s.(types := s.types[t := row])) else Refused(CheckViolation)
  }

  // ---------------------------------------------------------------------------------------
  //  Moving holds
  // ---------------------------------------------------------------------------------------

  /** The loops that move a group of holds: which rows, to which status. */
  datatype Sweep =
    | ConvertOrder(order: OrderId)
    | ReleaseOrder(order: OrderId)
    | BookOrder(order: OrderId)
    | ExpireRows(rows: set<nat>)

  function Target(w: Sweep): HoldStatus {
    match w
    case ConvertOrder(_) => Converted
    case ReleaseOrder(_) => Released
    case BookOrder(_) => Booked
    case ExpireRows(_) => HoldStatus.Expired
  }

  predicate Touches(w: Sweep, i: nat, h: Hold) {
    match w
    case ConvertOrder(o) => h.order == Some(o) && !IsSold(h.status)
    case ReleaseOrder(o) => h.order == Some(o) && !IsReleased(h.status)
    case BookOrder(o) => h.order == Some(o)
    case ExpireRows(rows) => i in rows
  }

  /** A paid order's holds must be able to pass through Converting; the others go straight to the target. */
  predicate Permitted(w: Sweep, st: HoldStatus) {
    if w.BookOrder? then MayBecome(st, Converting) else MayBecome(st, Target(w))
  }

  function Moved(h: Hold, to: HoldStatus, now: Time): Hold {
    h.(status := to,
       convertedAt := if IsSold(to) then Some(now) else h.convertedAt,
       releasedAt := if IsReleased(to) then Some(now) else h.releasedAt)
  }

  /** The cached counters follow a hold that leaves, or enters, the open statuses. */
  function CountersAfter(tt: TicketType, h: Hold, to: HoldStatus): TicketType {
    if IsOpen(h.status) && !IsOpen(to) then
      tt.(sold := if IsSold(to) then tt.sold + h.quantity else tt.sold, reserved := Max(0, tt.reserved - h.quantity))
    else if !IsOpen(h.status) && IsOpen(to) then
      tt.(reserved := tt.reserved + h.quantity)
    else tt
  }

  /** One hold changes status, and with it its ticket type's row. */
  function MoveHold(s: State, i: nat, to: HoldStatus, now: Time): (r: Outcome)
    requires i < |s.holds| && s.holds[i].typeId in s.types
  {
    var h := s.holds[i];
    var tt := CountersAfter(s.types[h.typeId], h, to);
    if h.status == to then Committed(s)
    else if IsOpen(h.status) != IsOpen(to) && !RowAllowed(tt) then Refused(CheckViolation)
    else Committed(State(s.types[h.typeId := tt], s.holds[i := Moved(h, to, now)], s.orders))
  }

  predicate TypesKnown(s: State) {
    forall i :: 0 <= i < |s.holds| ==> s.holds[i].typeId in s.types
  }

  /** A sweep's turn at row i. */
  function SweepRow(s: State, w: Sweep, i: nat, now: Time): (r: Outcome)
    requires i < |s.holds| && TypesKnown(s)
    ensures r.Committed? ==> |r.state.holds| == |s.holds| && r.state.types.Keys == s.types.Keys
    ensures r.Committed? ==> r.state.orders == s.orders && TypesKnown(r.state)
  {
    if !Touches(w, i, s.holds[i]) then Committed(s)
    else if !Permitted(w, s.holds[i].status) then Refused(Conflict)
    else MoveHold(s, i, Target(w), now)
  }

  /** Run a sweep over the holds from row i on; the first refused move aborts it. */
  function SweepFrom(s: State, w: Sweep, i: nat, now: Time): (r: Outcome)
    requires i <= |s.holds| && TypesKnown(s)
    ensures r.Committed? ==> |r.state.holds| == |s.holds| && r.state.types.Keys == s.types.Keys
    ensures r.Committed? ==> r.state.orders == s.orders && TypesKnown(r.state)
    decreases |s.holds| - i
  {
    if i == |s.holds| then Committed(s)
    else
      var r := SweepRow(s, w, i, now);
      if r.Refused? then r else SweepFrom(r.state, w, i + 1, now)
  }

  /** A sweep outside any transaction: the rows before the first refused one stay moved. */
  function SweepUntil(s: State, w: Sweep, i: nat, now: Time): (s': State)
    requires i <= |s.holds| && TypesKnown(s)
    ensures |s'.holds| == |s.holds| && s'.types.Keys == s.types.Keys && s'.orders == s.orders && TypesKnown(s')
    decreases |s.holds| - i
  {
    if i == |s.holds| then s
    else
      var r := SweepRow(s, w, i, now);
      if r.Refused? then s else SweepUntil(r.state, w, i + 1, now)
  }

  // ---------------------------------------------------------------------------------------
  //  Operations
  // ---------------------------------------------------------------------------------------

  datatype Line = Line(typeId: TypeId, quantity: nat, token: Token)

  /** The first complaint about the lines, given the availability the transaction has read. */
  function LineError(s: State, lines: seq<Line>, seen: map<TypeId, int>): Option<Error> {
    if lines == [] then None
    else if lines[0].quantity == 0 || lines[0].typeId !in s.types || lines[0].typeId !in seen then Some(BadRequest)
    else if lines[0].quantity > seen[lines[0].typeId] then Some(Conflict)
    else LineError(s, lines[1..], seen)
  }

  predicate TokenTaken(holds: seq<Hold>, token: Token) {
    exists i :: 0 <= i < |holds| && holds[i].token == token
  }

  function NewHold(line: Line, order: Option<OrderId>, expiresAt: Time): Hold {
    Hold(line.typeId, order, line.token, line.quantity, Active, expiresAt, None, None, 0)
  }

  /** Insert one line and reserve its quantity; a token that is already taken inserts nothing. */
  function InsertLine(s: State, order: Option<OrderId>, line: Line, expiresAt: Time): (r: Outcome)
    requires line.typeId in s.types
    ensures r.Committed? ==> r.state.types.Keys == s.types.Keys && r.state.orders == s.orders
    ensures r.Committed? && TypesKnown(s) ==> TypesKnown(r.state)
  {
    if TokenTaken(s.holds, line.token) then Committed(s)
    else
      var tt := s.types[line.typeId];
      WriteRow(s.(holds := s.holds + [NewHold(line, order, expiresAt)]), line.typeId, tt.sold, tt.reserved + line.quantity)
  }

  function InsertFrom(s: State, order: Option<OrderId>, lines: seq<Line>, expiresAt: Time): (r: Outcome)
    requires forall k :: 0 <= k < |lines| ==> lines[k].typeId in s.types
    ensures r.Committed? ==> r.state.types.Keys == s.types.Keys && r.state.orders == s.orders
    ensures r.Committed? && TypesKnown(s) ==> TypesKnown(r.state)
    decreases |lines|
  {
    if lines == [] then Committed(s)
    else
      var r := InsertLine(s, order, lines[0], expiresAt);
      if r.Refused? then r else InsertFrom(r.state, order, lines[1..], expiresAt)
  }

  function Reserve(s: State, order: Option<OrderId>, lines: seq<Line>, expiresAt: Time, seen: map<TypeId, int>)
    : (r: Outcome)
    ensures r.Committed? ==> r.state.types.Keys == s.types.Keys && r.state.orders == s.orders
    ensures r.Committed? && TypesKnown(s) ==> TypesKnown(r.state)
  {
    if lines == [] then Refused(BadRequest)
    else if exists k :: 0 <= k < |lines| && lines[k].typeId !in s.types then Refused(BadRequest)
    else if LineError(s, lines, seen).Some? then Refused(LineError(s, lines, seen).value)
    else InsertFrom(s, order, lines, expiresAt)
  }

  predicate DistinctTypes(items: seq<Item>) {
    forall i, j :: 0 <= i < j < |items| ==> items[i].typeId != items[j].typeId
  }

  function OrderLines(o: OrderId, items: seq<Item>): (lines: seq<Line>)
    ensures |lines| == |items|
    ensures forall k :: 0 <= k < |items| ==>
      lines[k] == Line(items[k].typeId, items[k].quantity, OrderToken(o, items[k].typeId))
  {
    if items == [] then []
    else [Line(items[0].typeId, items[0].quantity, OrderToken(o, items[0].typeId))] + OrderLines(o, items[1..])
  }

  /** Create an order with its holds; a confirmed order is converted at once. */
  function CreateOrder(s: State, items: seq<Item>, status: OrderStatus, expiresAt: Time,
                             seen: map<TypeId, int>, now: Time): Outcome
    requires TypesKnown(s)
  {
    if !(status.Draft? || status.Pending? || status.Confirmed?) || !DistinctTypes(items) then Refused(BadRequest)
    else
      var o := |s.orders|;
      var r := Reserve(s.(orders := s.orders + [Order(status, items, false)]), Some(o), OrderLines(o, items), expiresAt, seen);
      if r.Refused? || status != Confirmed then r
      else SweepFrom(r.state, ConvertOrder(o), 0, now)
  }

  function WithStatus(s: State, o: OrderId, status: OrderStatus): State
    requires o < |s.orders|
  {
    s.(orders := s.orders[o := s.orders[o].(status := status)])
  }

  /** Change an order's status: a new terminal status releases its holds, Confirmed converts them. */
  function UpdateOrder(s: State, o: OrderId, next: OrderStatus, now: Time): Outcome
    requires TypesKnown(s)
  {
    if o >= |s.orders| || s.orders[o].deleted then Refused(NotFound)
    else
      var current := s.orders[o].status;
      if !OrderMayBecome(current, next) then Refused(BadRequest)
      else
        var s' := WithStatus(s, o, next);
        if !Terminal(current) && Terminal(next) then SweepFrom(s', ReleaseOrder(o), 0, now)
        else if next == Confirmed && current != Confirmed then SweepFrom(s', ConvertOrder(o), 0, now)
        else Committed(s')
  }

  /** Delete an order: it is cancelled, and its holds are released unless it was closed already. */
  function DeleteOrder(s: State, o: OrderId, now: Time): Outcome
    requires TypesKnown(s)
  {
    if o >= |s.orders| || s.orders[o].deleted then Refused(NotFound)
    else
      var s' := s.(orders := s.orders[o := s.orders[o].(status := OrderStatus.Cancelled, deleted := true)]);
      if Terminal(s.orders[o].status) then Committed(s') else SweepFrom(s', ReleaseOrder(o), 0, now)
  }

  /** A refund writes its status over whatever the order's status is; a full one releases the holds. */
  function RefundOrder(s: State, o: OrderId, full: bool, now: Time): Outcome
    requires TypesKnown(s)
  {
    if o >= |s.orders| then Refused(NotFound)
    else if full then SweepFrom(WithStatus(s, o, OrderStatus.Refunded), ReleaseOrder(o), 0, now)
    else Committed(WithStatus(s, o, PartiallyRefunded))
  }

  /** A declined payment cancels the order and releases its holds, unless the order is settled. */
  function FailPayment(s: State, o: OrderId, now: Time): Outcome
    requires TypesKnown(s)
  {
    if o >= |s.orders| || Settled(s.orders[o].status) then Committed(s)
    else SweepFrom(WithStatus(s, o, OrderStatus.Cancelled), ReleaseOrder(o), 0, now)
  }

  predicate LateHold(h: Hold, now: Time) {
    h.status == HoldStatus.Expired || h.expiresAt <= now
  }

  predicate Unpayable(h: Hold, now: Time) {
    !LateHold(h, now) && (IsReleased(h.status) || h.status.RefundPending? || h.status.Refunded?)
  }

  /**
   The late payment branch: every hold of the order is expired and set aside for the refund,
   whose outcome decides the last status. The cached counters are not touched.
   */
  function RefundRow(s: State, o: OrderId, i: nat, outcome: HoldStatus, now: Time): (r: Outcome)
    requires i < |s.holds|
    ensures r.Committed? ==> |r.state.holds| == |s.holds| && r.state.types == s.types && r.state.orders == s.orders
  {
    var h := s.holds[i];
    if h.order != Some(o) then Committed(s)
    else if !MayBecome(h.status, HoldStatus.Expired) then Refused(Conflict)
    else
      var released := if h.status.Expired? then h.releasedAt else Some(now);
      Committed(s.(holds := s.holds[i := h.(status := outcome, releasedAt := released)]))
  }

  function RefundFrom(s: State, o: OrderId, i: nat, outcome: HoldStatus, now: Time): (r: Outcome)
    requires i <= |s.holds|
    ensures r.Committed? ==> |r.state.holds| == |s.holds| && r.state.types == s.types && r.state.orders == s.orders
    decreases |s.holds| - i
  {
    if i == |s.holds| then Committed(s)
    else
      var r := RefundRow(s, o, i, outcome, now);
      if r.Refused? then r else RefundFrom(r.state, o, i + 1, outcome, now)
  }

  function SettledByPayment(s: State, o: OrderId): State
    requires o < |s.orders|
  {
    WithStatus(s, o, if Settled(s.orders[o].status) then s.orders[o].status else Paid)
  }

  function ExpiredByPayment(s: State, o: OrderId): State
    requires o < |s.orders|
  {
    WithStatus(s, o, OrderStatus.Expired)
  }

  predicate HasHold(s: State, o: OrderId) {
    exists i :: 0 <= i < |s.holds| && s.holds[i].order == Some(o)
  }

  /** Some hold of the order can no longer be paid for. */
  predicate Blocked(s: State, o: OrderId, now: Time) {
    exists i :: 0 <= i < |s.holds| && s.holds[i].order == Some(o) && Unpayable(s.holds[i], now)
  }

  /** No hold of the order is late. */
  predicate OnTime(s: State, o: OrderId, now: Time) {
    forall i :: 0 <= i < |s.holds| && s.holds[i].order == Some(o) ==> !LateHold(s.holds[i], now)
  }

  /** Payment confirmation: book the holds and settle the order, or refund a late payment. */
  function ConfirmPayment(s: State, o: OrderId, outcome: HoldStatus, now: Time): Outcome
    requires TypesKnown(s)
  {
    if o >= |s.orders| || !HasHold(s, o) then Refused(NotFound)
    else if Blocked(s, o, now) then Refused(Conflict)
    else if !OnTime(s, o, now) then
      if !(outcome.RefundPending? || outcome.Refunded? || outcome.Failed?) then Refused(BadRequest)
      else RefundFrom(ExpiredByPayment(s, o), o, 0, outcome, now)
    else SweepFrom(SettledByPayment(s, o), BookOrder(o), 0, now)
  }

  /**
   The coin checkout's turn at row i. It books whatever it finds and counts its quantity as sold and
   no longer reserved, even if the hold was sold before.
   */
  function CoinRow(s: State, o: OrderId, i: nat, now: Time): (r: Outcome)
    requires i < |s.holds| && TypesKnown(s)
    ensures r.Committed? ==> |r.state.holds| == |s.holds| && r.state.types.Keys == s.types.Keys
    ensures r.Committed? ==> r.state.orders == s.orders && TypesKnown(r.state)
  {
    var h := s.holds[i];
    var tt := s.types[h.typeId];
    var row := tt.(sold := tt.sold + h.quantity, reserved := Max(0, tt.reserved - h.quantity));
    if h.order != Some(o) then Committed(s)
    else if !RowAllowed(row) then Refused(CheckViolation)
    else Committed(State(s.types[h.typeId := row], s.holds[i := Moved(h, Booked, now)], s.orders))
  }

  function CoinFrom(s: State, o: OrderId, i: nat, now: Time): (r: Outcome)
    requires i <= |s.holds| && TypesKnown(s)
    ensures r.Committed? ==> |r.state.holds| == |s.holds| && r.state.types.Keys == s.types.Keys
    ensures r.Committed? ==> r.state.orders == s.orders && TypesKnown(r.state)
    decreases |s.holds| - i
  {
    if i == |s.holds| then Committed(s)
    else
      var r := CoinRow(s, o, i, now);
      if r.Refused? then r else CoinFrom(r.state, o, i + 1, now)
  }

  /**
   Pay an order with coins. The status was read before the transaction, so it may be out of date by
   the time the rows are locked; only the holds are looked at again.
   */
  function CoinCheckout(s: State, o: OrderId, seen: OrderStatus, now: Time): Outcome
    requires TypesKnown(s)
  {
    if o >= |s.orders| then Refused(NotFound)
    else if seen != Pending then Refused(BadRequest)
    else if !HasHold(s, o) then Refused(NotFound)
    else if !OnTime(s, o, now) || Blocked(s, o, now) then Refused(Conflict)
    else CoinFrom(WithStatus(s, o, Paid), o, 0, now)
  }

  const MAX_EXTENSIONS := 3
  const MAX_EXTENSION_SECONDS := 300

  /** A hold of the order gets more time, whether or not its time had already run out. */
  function ExtendRow(s: State, o: OrderId, i: nat, seconds: int, now: Time): (r: Outcome)
    requires i < |s.holds|
    ensures r.Committed? ==> |r.state.holds| == |s.holds| && r.state.types == s.types && r.state.orders == s.orders
  {
    var h := s.holds[i];
    if h.order != Some(o) then Committed(s)
    else if !IsOpen(h.status) || h.extensions >= MAX_EXTENSIONS then Refused(Conflict)
    else Committed(s.(holds := s.holds[i := h.(expiresAt := now + seconds, extensions := h.extensions + 1,
                                        status := PaymentProcessing)]))
  }

  function ExtendFrom(s: State, o: OrderId, i: nat, seconds: int, now: Time): (r: Outcome)
    requires i <= |s.holds|
    ensures r.Committed? ==> |r.state.holds| == |s.holds| && r.state.types == s.types && r.state.orders == s.orders
    decreases |s.holds| - i
  {
    if i == |s.holds| then Committed(s)
    else
      var r := ExtendRow(s, o, i, seconds, now);
      if r.Refused? then r else ExtendFrom(r.state, o, i + 1, seconds, now)
  }

  /** Extend every hold of an order, or none. */
  function ExtendOrder(s: State, o: OrderId, seconds: int, now: Time): Outcome {
    if !HasHold(s, o) || seconds > MAX_EXTENSION_SECONDS then Refused(BadRequest)
    else ExtendFrom(s, o, 0, seconds, now)
  }

  /**
   Overwrite a ticket type's cached counters with sums taken from the rows earlier. The sums and the
   write are separate statements outside any transaction, so the rows may have changed in between.
   */
  function Reconcile(s: State, t: TypeId, sold: nat, reserved: nat): Outcome {
    if t !in s.types then Refused(BadRequest) else WriteRow(s, t, sold, reserved)
  }

  function Given(value: Option<nat>, default: int): int {
    if value.Some? then value.value else default
  }

  /** The counters of a ticket type after an edit; what is not given stays. */
  function Edited(tt: TicketType, total: Option<nat>, sold: Option<nat>, reserved: Option<nat>): TicketType {
    TicketType(Given(total, tt.total), Given(sold, tt.sold), Given(reserved, tt.reserved))
  }

  /** A counter given together with the total must not exceed it, and a given total must be positive. */
  predicate EditWellFormed(total: Option<nat>, sold: Option<nat>, reserved: Option<nat>) {
    total.Some? ==>
      && total.value > 0
      && (sold.Some? ==> sold.value <= total.value)
      && (reserved.Some? ==> reserved.value <= total.value)
  }

  /** Edit a ticket type: its capacity and its cached counters can be overwritten. */
  function EditType(s: State, t: TypeId, total: Option<nat>, sold: Option<nat>, reserved: Option<nat>): Outcome {
    if t !in s.types then Refused(NotFound)
    else if !EditWellFormed(total, sold, reserved) then Refused(BadRequest)
    else
      var row := Edited(s.types[t], total, sold, reserved);
      if RowAllowed(row) then Committed(s.(types := s.types[t := row])) else Refused(CheckViolation)
  }

  /** Create a ticket type, with whatever counters it is given. */
  function AddType(s: State, t: TypeId, total: nat, sold: nat, reserved: nat): Outcome {
    if t in s.types then Refused(Conflict)
    else if !EditWellFormed(Some(total), Some(sold), Some(reserved)) then Refused(BadRequest)
    else
      var row := TicketType(total, sold, reserved);
      if RowAllowed(row) then Committed(s.(types := s.types[t := row])) else Refused(CheckViolation)
  }

  datatype Op =
    | Create(items: seq<Item>, status: OrderStatus, expiresAt: Time, seen: map<TypeId, int>, at: Time)
    | ReserveLoose(lines: seq<Line>, expiresAt: Time, seen: map<TypeId, int>)
    | Update(order: OrderId, next: OrderStatus, at: Time)
    | Delete(order: OrderId, at: Time)
    | Confirm(order: OrderId, outcome: HoldStatus, at: Time)
    | Coin(order: OrderId, read: OrderStatus, at: Time)
    | Refund(order: OrderId, full: bool, at: Time)
    | Fail(order: OrderId, at: Time)
    | Expire(rows: set<nat>, at: Time)
    | Extend(order: OrderId, seconds: int, at: Time)
    | Repair(typeId: TypeId, soldSum: nat, reservedSum: nat)
    | Edit(typeId: TypeId, total: Option<nat>, sold: Option<nat>, reserved: Option<nat>)
    | Add(typeId: TypeId, capacity: nat, soldBefore: nat, reservedBefore: nat)

  function Attempt(s: State, op: Op): Outcome
    requires TypesKnown(s)
  {
    match op
    case Create(items, status, expiresAt, seen, at) => CreateOrder(s, items, status, expiresAt, seen, at)
    case ReserveLoose(lines, expiresAt, seen) =>
      if exists k :: 0 <= k < |lines| && lines[k].token.OrderToken? then Refused(BadRequest)
      else Reserve(s, None, lines, expiresAt, seen)
    case Update(o, next, at) => UpdateOrder(s, o, next, at)
    case Delete(o, at) => DeleteOrder(s, o, at)
    case Confirm(o, outcome, at) => ConfirmPayment(s, o, outcome, at)
    case Coin(o, read, at) => CoinCheckout(s, o, read, at)
    case Refund(o, full, at) => RefundOrder(s, o, full, at)
    case Fail(o, at) => FailPayment(s, o, at)
    case Expire(rows, at) => Committed(SweepUntil(s, ExpireRows(rows), 0, at))
    case Extend(o, seconds, at) => ExtendOrder(s, o, seconds, at)
    case Repair(t, sold, reserved) => Reconcile(s, t, sold, reserved)
    case Edit(t, total, sold, reserved) => EditType(s, t, total, sold, reserved)
    case Add(t, capacity, sold, reserved) => AddType(s, t, capacity, sold, reserved)
  }

  /** An operation that fails rolls back. */
  function After(s: State, op: Op): State
    requires TypesKnown(s)
  {
    match Attempt(s, op)
    case Committed(s') => s'
    case Refused(_) => s
  }
}
