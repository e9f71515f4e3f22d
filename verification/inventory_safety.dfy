/**
 What every run of the inventory keeps. The capacity guarantee does not rest on the availability
 a transaction has read: it rests on the cached counters covering what is really held and sold,
 and on the row constraint over those counters.
 */
module InventorySafety {
  import opened Common
  import opened Inventory

  // ---------------------------------------------------------------------------------------
  //  The invariant
  // ---------------------------------------------------------------------------------------

  ghost predicate RowsAllowed(s: State) {
    forall t :: t in s.types ==> RowAllowed(s.types[t])
  }

  /** Every order's holds carry exactly the quantities of its items. */
  ghost predicate Linked(s: State) {
    forall o, t :: 0 <= o < |s.orders| ==>
      Quantity(s.holds, OfOrder(o), t) == ItemQuantity(s.orders[o].items, t)
  }

  /** A hold's token names its order and type; no token is used twice. */
  ghost predicate TokensSound(s: State) {
    && (forall i :: 0 <= i < |s.holds| ==>
         (match s.holds[i].token
          case OrderToken(o, t) => s.holds[i].order == Some(o) && s.holds[i].typeId == t && o < |s.orders|
          case CallerToken(_) => s.holds[i].order == None))
    && (forall i, j :: 0 <= i < j < |s.holds| ==> s.holds[i].token != s.holds[j].token)
  }

  /** The orders that may have sold holds: settled ones, and those refunded in part or deleted since. */
  predicate MayHaveSold(order: Order) {
    Settled(order.status) || order.status.PartiallyRefunded? || order.deleted
  }

  ghost predicate SoldHoldSound(s: State, i: nat)
    requires i < |s.holds|
  {
    IsSold(s.holds[i].status) ==>
      s.holds[i].order.Some? && s.holds[i].order.value < |s.orders| && MayHaveSold(s.orders[s.holds[i].order.value])
  }

  ghost predicate SoldOnlyOnceSettled(s: State) {
    forall i :: 0 <= i < |s.holds| ==> SoldHoldSound(s, i)
  }

  ghost predicate Sound(s: State) {
    TypesKnown(s) && RowsAllowed(s) && Linked(s) && TokensSound(s) && SoldOnlyOnceSettled(s)
  }

  /** By how much the reserved counter of a type exceeds what is open. */
  function Gap(s: State, t: TypeId): int
    requires t in s.types
  {
    s.types[t].reserved - Quantity(s.holds, Open, t)
  }

  /** By how much both counters of a type together exceed what is sold and what is open. */
  function Surplus(s: State, t: TypeId): int
    requires t in s.types
  {
    s.types[t].sold - Sold(s.orders, t) + Gap(s, t)
  }

  /** The cached counters of every type together cover what is sold and what is open. */
  ghost predicate Backed(s: State) {
    forall t :: t in s.types ==> Surplus(s, t) >= 0
  }

  /** The reserved counter of every type covers what is open. */
  ghost predicate HeldIsReserved(s: State) {
    forall t :: t in s.types ==> Gap(s, t) >= 0
  }

  // ---------------------------------------------------------------------------------------
  //  One hold moves
  // ---------------------------------------------------------------------------------------

  /** Same row apart from status and times. */
  ghost predicate SameRow(a: Hold, b: Hold) {
    a.typeId == b.typeId && a.order == b.order && a.token == b.token && a.quantity == b.quantity
  }

  ghost predicate SameRows(a: seq<Hold>, b: seq<Hold>) {
    |a| == |b| && forall i :: 0 <= i < |a| ==> SameRow(a[i], b[i])
  }

  lemma {:induction false} SameRowsKeepOrders(a: seq<Hold>, b: seq<Hold>, o: OrderId, t: TypeId)
    requires SameRows(a, b)
    ensures Quantity(a, OfOrder(o), t) == Quantity(b, OfOrder(o), t)
  {
    if a != [] {
      SameRowsKeepOrders(a[1..], b[1..], o, t);
    }
  }

  // ---------------------------------------------------------------------------------------
  //  Sweeps
  // ---------------------------------------------------------------------------------------

  /** What a sweep adds to the sold counter of a type. */
  function SoldBy(holds: seq<Hold>, w: Sweep, t: TypeId): nat {
    if w.ConvertOrder? || w.BookOrder? then Quantity(holds, Unsold(w.order), t) else 0
  }

  /** From row i on, exactly the touched rows are at the target; nothing else of a row changed. */
  ghost predicate Swept(before: seq<Hold>, after: seq<Hold>, w: Sweep, i: nat) {
    && SameRows(before, after)
    && (forall j :: 0 <= j < |before| && (j < i || !Touches(w, j, before[j])) ==> after[j] == before[j])
    && (forall j :: i <= j < |before| && Touches(w, j, before[j]) ==>
          after[j].status == Target(w) && Permitted(w, before[j].status))
  }

  /** A sweep's turn at row i changes at most that row. */
  ghost predicate RowSwept(before: seq<Hold>, after: seq<Hold>, w: Sweep, i: nat)
    requires i < |before|
  {
    && |after| == |before|
    && (forall j :: 0 <= j < |before| && j != i ==> after[j] == before[j])
    && SameRow(before[i], after[i])
    && (if Touches(w, i, before[i]) then after[i].status == Target(w) && Permitted(w, before[i].status)
        else after[i] == before[i])
  }

  lemma RowMovesOne(s: State, w: Sweep, i: nat, now: Time)
    requires i < |s.holds| && TypesKnown(s) && SweepRow(s, w, i, now).Committed?
    ensures RowSwept(s.holds, SweepRow(s, w, i, now).state.holds, w, i)
  {
  }

  lemma SweptStep(before: seq<Hold>, mid: seq<Hold>, after: seq<Hold>, w: Sweep, i: nat)
    requires i < |before| && RowSwept(before, mid, w, i) && Swept(mid, after, w, i + 1)
    ensures Swept(before, after, w, i)
  {
    assert after[i] == mid[i];
  }

  lemma {:induction false} SweepMovesExactlyTouched(s: State, w: Sweep, i: nat, now: Time)
    requires i <= |s.holds| && TypesKnown(s) && SweepFrom(s, w, i, now).Committed?
    ensures Swept(s.holds, SweepFrom(s, w, i, now).state.holds, w, i)
    decreases |s.holds| - i
  {
    if i < |s.holds| {
      var s' := SweepRow(s, w, i, now).state;
      RowMovesOne(s, w, i, now);
      SweepMovesExactlyTouched(s', w, i + 1, now);
      SweptStep(s.holds, s'.holds, SweepFrom(s', w, i + 1, now).state.holds, w, i);
    }
  }

  lemma SalesComeFromOpenHolds(w: Sweep, i: nat, h: Hold)
    requires Touches(w, i, h) && Permitted(w, h.status) && IsSold(Target(w))
    ensures IsOpen(h.status) && !IsSold(h.status)
  {
  }

  /** A hold that closes does not narrow the gap, and is counted as sold exactly when it is. */
  lemma MoveKeepsGap(s: State, i: nat, to: HoldStatus, now: Time, t: TypeId)
    requires i < |s.holds| && TypesKnown(s) && t in s.types
    requires !IsOpen(to) && MoveHold(s, i, to, now).Committed?
    requires IsSold(to) ==> IsOpen(s.holds[i].status)
    ensures var s' := MoveHold(s, i, to, now).state;
      && Gap(s', t) >= Gap(s, t)
      && s'.types[t].sold == s.types[t].sold
         + (if IsSold(to) && s.holds[i].typeId == t then s.holds[i].quantity else 0)
  {
    QuantityUpdate(s.holds, i, Moved(s.holds[i], to, now), Open, t);
  }

  lemma SoldByStep(holds: seq<Hold>, w: Sweep, i: nat, t: TypeId)
    requires i < |holds|
    requires Touches(w, i, holds[i]) ==> Permitted(w, holds[i].status)
    ensures SoldBy(holds[i..], w, t) == SoldBy(holds[i + 1..], w, t)
      + if Touches(w, i, holds[i]) && IsSold(Target(w)) && holds[i].typeId == t then holds[i].quantity else 0
  {
    assert holds[i..][1..] == holds[i + 1..];
  }

  /** One turn of a sweep does not narrow the gap, and counts a sale exactly once. */
  lemma RowKeepsGap(s: State, w: Sweep, i: nat, now: Time, t: TypeId)
    requires i < |s.holds| && TypesKnown(s) && RowsAllowed(s) && t in s.types
    requires SweepRow(s, w, i, now).Committed?
    ensures var s' := SweepRow(s, w, i, now).state;
      && RowsAllowed(s')
      && Gap(s', t) >= Gap(s, t)
      && s'.types[t].sold - s.types[t].sold == SoldBy(s.holds[i..], w, t) - SoldBy(s'.holds[i + 1..], w, t)
  {
    assert SweepRow(s, w, i, now).state.holds[i + 1..] == s.holds[i + 1..];
    SoldByStep(s.holds, w, i, t);
    if Touches(w, i, s.holds[i]) {
      if IsSold(Target(w)) {
        SalesComeFromOpenHolds(w, i, s.holds[i]);
      }
      MoveKeepsGap(s, i, Target(w), now, t);
    }
  }

  /** A sweep does not narrow the gap, and counts each sale exactly once. */
  lemma {:induction false} SweepKeepsGap(s: State, w: Sweep, i: nat, now: Time, t: TypeId)
    requires i <= |s.holds| && TypesKnown(s) && RowsAllowed(s) && t in s.types
    requires SweepFrom(s, w, i, now).Committed?
    ensures var s' := SweepFrom(s, w, i, now).state;
      && RowsAllowed(s')
      && Gap(s', t) >= Gap(s, t)
      && s'.types[t].sold == s.types[t].sold + SoldBy(s.holds[i..], w, t)
    decreases |s.holds| - i
  {
    if i < |s.holds| {
      RowKeepsGap(s, w, i, now, t);
      SweepKeepsGap(SweepRow(s, w, i, now).state, w, i + 1, now, t);
    }
  }

  lemma {:induction false} SweepKeepsRows(s: State, w: Sweep, i: nat, now: Time)
    requires i <= |s.holds| && TypesKnown(s) && RowsAllowed(s) && SweepFrom(s, w, i, now).Committed?
    ensures RowsAllowed(SweepFrom(s, w, i, now).state)
    decreases |s.holds| - i
  {
    if i < |s.holds| {
      SweepKeepsRows(SweepRow(s, w, i, now).state, w, i + 1, now);
    }
  }

  /** The order a sweep works for is the only one whose sold holds may disagree with it before the sweep runs. */
  ghost predicate SoldElsewhereSound(s: State, o: OrderId) {
    forall i :: 0 <= i < |s.holds| && s.holds[i].order != Some(o) ==> SoldHoldSound(s, i)
  }

  /** Selling an order's holds needs the order settled; releasing them needs nothing. */
  ghost predicate SweepFits(s: State, w: Sweep) {
    match w
    case ConvertOrder(o) => o < |s.orders| && MayHaveSold(s.orders[o]) && SoldElsewhereSound(s, o)
    case BookOrder(o) => o < |s.orders| && MayHaveSold(s.orders[o]) && SoldElsewhereSound(s, o)
    case ReleaseOrder(o) => SoldElsewhereSound(s, o)
    case ExpireRows(_) => SoldOnlyOnceSettled(s)
  }

  lemma SweepKeepsSound(s: State, w: Sweep, now: Time)
    requires TypesKnown(s) && RowsAllowed(s) && Linked(s) && TokensSound(s) && SweepFits(s, w)
    requires SweepFrom(s, w, 0, now).Committed?
    ensures Sound(SweepFrom(s, w, 0, now).state)
  {
    var s' := SweepFrom(s, w, 0, now).state;
    SweepKeepsRows(s, w, 0, now);
    SweepMovesExactlyTouched(s, w, 0, now);
    forall o, t | 0 <= o < |s'.orders|
      ensures Quantity(s'.holds, OfOrder(o), t) == ItemQuantity(s'.orders[o].items, t)
    {
      SameRowsKeepOrders(s.holds, s'.holds, o, t);
    }
    assert TokensSound(s');
    forall i | 0 <= i < |s'.holds| ensures SoldHoldSound(s', i) {
      if !Touches(w, i, s.holds[i]) {
        UntouchedFits(s, w, i);
      } else if IsSold(Target(w)) {
        SoldAtTargetFits(s, w, i);
      }
    }
  }

  lemma UntouchedFits(s: State, w: Sweep, i: nat)
    requires i < |s.holds| && SweepFits(s, w) && !Touches(w, i, s.holds[i])
    ensures SoldHoldSound(s, i)
  {
  }

  lemma SoldAtTargetFits(s: State, w: Sweep, i: nat)
    requires i < |s.holds| && SweepFits(s, w) && Touches(w, i, s.holds[i]) && IsSold(Target(w))
    ensures s.holds[i].order.Some? && s.holds[i].order.value < |s.orders| && MayHaveSold(s.orders[s.holds[i].order.value])
  {
  }

  // ---------------------------------------------------------------------------------------
  //  New holds
  // ---------------------------------------------------------------------------------------

  predicate LinesFor(order: Option<OrderId>, lines: seq<Line>) {
    forall k :: 0 <= k < |lines| ==>
      if order.Some? then lines[k].token == OrderToken(order.value, lines[k].typeId) else lines[k].token.CallerToken?
  }

  ghost predicate LinesKnown(s: State, lines: seq<Line>) {
    forall k :: 0 <= k < |lines| ==> lines[k].typeId in s.types
  }

  /** s' is s with active holds of the given order appended, tokens still unique. */
  ghost predicate Appended(s: State, s': State, order: Option<OrderId>) {
    && RowsAllowed(s') && TokensSound(s')
    && |s'.holds| >= |s.holds|
    && (forall i :: 0 <= i < |s.holds| ==> s'.holds[i] == s.holds[i])
    && (forall i :: |s.holds| <= i < |s'.holds| ==> s'.holds[i].status == Active && s'.holds[i].order == order)
  }

  lemma LineAppends(s: State, order: Option<OrderId>, line: Line, expiresAt: Time)
    requires line.typeId in s.types && LinesFor(order, [line]) && RowsAllowed(s) && TokensSound(s)
    requires order.Some? ==> order.value < |s.orders|
    requires InsertLine(s, order, line, expiresAt).Committed?
    ensures Appended(s, InsertLine(s, order, line, expiresAt).state, order)
  {
    assert [line][0] == line;
  }

  /** Inserting only appends active holds of the given order. */
  lemma {:induction false} InsertAppends(s: State, order: Option<OrderId>, lines: seq<Line>, expiresAt: Time)
    requires LinesKnown(s, lines) && LinesFor(order, lines) && RowsAllowed(s) && TokensSound(s)
    requires order.Some? ==> order.value < |s.orders|
    requires InsertFrom(s, order, lines, expiresAt).Committed?
    ensures Appended(s, InsertFrom(s, order, lines, expiresAt).state, order)
    decreases |lines|
  {
    if lines != [] {
      LineAppends(s, order, lines[0], expiresAt);
      InsertAppends(InsertLine(s, order, lines[0], expiresAt).state, order, lines[1..], expiresAt);
    }
  }

  /** Every inserted hold is added to the reserved counter of its type, so the gap stays what it is. */
  lemma {:induction false} InsertKeepsGap(s: State, order: Option<OrderId>, lines: seq<Line>, expiresAt: Time, t: TypeId)
    requires LinesKnown(s, lines) && t in s.types
    requires InsertFrom(s, order, lines, expiresAt).Committed?
    ensures var s' := InsertFrom(s, order, lines, expiresAt).state;
      Gap(s', t) == Gap(s, t) && s'.types[t].sold == s.types[t].sold
    decreases |lines|
  {
    if lines != [] {
      QuantityAppend(s.holds, NewHold(lines[0], order, expiresAt), Open, t);
      InsertKeepsGap(InsertLine(s, order, lines[0], expiresAt).state, order, lines[1..], expiresAt, t);
    }
  }

  /** A new order with one line per type gets holds for exactly its items; other orders keep theirs. */
  lemma {:induction false} InsertLinks(s: State, o: OrderId, items: seq<Item>, expiresAt: Time, o': OrderId, t: TypeId)
    requires LinesKnown(s, OrderLines(o, items)) && DistinctTypes(items)
    requires forall k :: 0 <= k < |items| ==> !TokenTaken(s.holds, OrderToken(o, items[k].typeId))
    requires InsertFrom(s, Some(o), OrderLines(o, items), expiresAt).Committed?
    ensures Quantity(InsertFrom(s, Some(o), OrderLines(o, items), expiresAt).state.holds, OfOrder(o'), t)
         == Quantity(s.holds, OfOrder(o'), t) + if o' == o then ItemQuantity(items, t) else 0
    decreases |items|
  {
    if items != [] {
      var line := OrderLines(o, items)[0];
      QuantityAppend(s.holds, NewHold(line, Some(o), expiresAt), OfOrder(o'), t);
      var mid := InsertLine(s, Some(o), line, expiresAt).state;
      assert OrderLines(o, items)[1..] == OrderLines(o, items[1..]);
      forall k | 0 <= k < |items[1..]| ensures !TokenTaken(mid.holds, OrderToken(o, items[1..][k].typeId)) {
        assert items[1..][k] == items[k + 1];
      }
      InsertLinks(mid, o, items[1..], expiresAt, o', t);
    }
  }

  // ---------------------------------------------------------------------------------------
  //  Every operation keeps the books sound
  // ---------------------------------------------------------------------------------------

  lemma FreshTokens(s: State, items: seq<Item>)
    requires TokensSound(s)
    ensures forall k :: 0 <= k < |items| ==> !TokenTaken(s.holds, OrderToken(|s.orders|, items[k].typeId))
  {
  }

  /** No hold carries the number of an order that does not exist yet. */
  lemma {:induction false} NothingOf(holds: seq<Hold>, o: OrderId, t: TypeId)
    requires forall i :: 0 <= i < |holds| ==> holds[i].order != Some(o)
    ensures Quantity(holds, OfOrder(o), t) == 0
  {
    if holds != [] {
      NothingOf(holds[1..], o, t);
    }
  }

  /** The state in which a new order's holds have just been inserted. */
  lemma ReserveForNewOrderSound(s: State, items: seq<Item>, status: OrderStatus, expiresAt: Time, seen: map<TypeId, int>)
    requires Sound(s) && DistinctTypes(items)
    requires var s0 := s.(orders := s.orders + [Order(status, items, false)]);
      Reserve(s0, Some(|s.orders|), OrderLines(|s.orders|, items), expiresAt, seen).Committed?
    ensures var s0 := s.(orders := s.orders + [Order(status, items, false)]);
      Sound(Reserve(s0, Some(|s.orders|), OrderLines(|s.orders|, items), expiresAt, seen).state)
  {
    var o := |s.orders|;
    var s0 := s.(orders := s.orders + [Order(status, items, false)]);
    var lines := OrderLines(o, items);
    var s' := Reserve(s0, Some(o), lines, expiresAt, seen).state;
    FreshTokens(s, items);
    InsertAppends(s0, Some(o), lines, expiresAt);
    forall o', t | 0 <= o' < |s'.orders|
      ensures Quantity(s'.holds, OfOrder(o'), t) == ItemQuantity(s'.orders[o'].items, t)
    {
      InsertLinks(s0, o, items, expiresAt, o', t);
      if o' == o {
        NothingOf(s.holds, o, t);
      }
    }
    forall i | 0 <= i < |s'.holds| ensures SoldHoldSound(s', i) {
      assert i < |s.holds| ==> SoldHoldSound(s, i);
    }
  }

  lemma CreateKeepsSound(s: State, items: seq<Item>, status: OrderStatus, expiresAt: Time, seen: map<TypeId, int>, now: Time)
    requires Sound(s) && CreateOrder(s, items, status, expiresAt, seen, now).Committed?
    ensures Sound(CreateOrder(s, items, status, expiresAt, seen, now).state)
  {
    ReserveForNewOrderSound(s, items, status, expiresAt, seen);
    var s0 := s.(orders := s.orders + [Order(status, items, false)]);
    var s1 := Reserve(s0, Some(|s.orders|), OrderLines(|s.orders|, items), expiresAt, seen).state;
    if status == Confirmed {
      SweepKeepsSound(s1, ConvertOrder(|s.orders|), now);
    }
  }

  /** Writing an order's row keeps everything about holds that does not depend on that order. */
  lemma OrderRowWritten(s: State, o: OrderId, order: Order)
    requires Sound(s) && o < |s.orders| && order.items == s.orders[o].items
    ensures var s' := s.(orders := s.orders[o := order]);
      && TypesKnown(s') && RowsAllowed(s') && Linked(s') && TokensSound(s') && SoldElsewhereSound(s', o)
      && (MayHaveSold(order) || !MayHaveSold(s.orders[o]) ==> Sound(s'))
  {
    var s' := s.(orders := s.orders[o := order]);
    forall i | 0 <= i < |s.holds| && (s.holds[i].order != Some(o) || MayHaveSold(order) || !MayHaveSold(s.orders[o]))
      ensures SoldHoldSound(s', i)
    {
      assert SoldHoldSound(s, i);
    }
  }

  lemma UpdateKeepsSound(s: State, o: OrderId, next: OrderStatus, now: Time)
    requires Sound(s) && UpdateOrder(s, o, next, now).Committed?
    ensures Sound(UpdateOrder(s, o, next, now).state)
  {
    var current := s.orders[o].status;
    OrderRowWritten(s, o, s.orders[o].(status := next));
    if !Terminal(current) && Terminal(next) {
      SweepKeepsSound(WithStatus(s, o, next), ReleaseOrder(o), now);
    } else if next == Confirmed && current != Confirmed {
      SweepKeepsSound(WithStatus(s, o, next), ConvertOrder(o), now);
    }
  }

  /** Closing an order and releasing its holds. */
  lemma ReleaseKeepsSound(s: State, o: OrderId, order: Order, now: Time)
    requires Sound(s) && o < |s.orders| && order.items == s.orders[o].items
    requires TypesKnown(s.(orders := s.orders[o := order]))
    requires SweepFrom(s.(orders := s.orders[o := order]), ReleaseOrder(o), 0, now).Committed?
    ensures Sound(SweepFrom(s.(orders := s.orders[o := order]), ReleaseOrder(o), 0, now).state)
  {
    OrderRowWritten(s, o, order);
    SweepKeepsSound(s.(orders := s.orders[o := order]), ReleaseOrder(o), now);
  }

  lemma DeleteKeepsSound(s: State, o: OrderId, now: Time)
    requires Sound(s) && DeleteOrder(s, o, now).Committed?
    ensures Sound(DeleteOrder(s, o, now).state)
  {
    var order := s.orders[o].(status := OrderStatus.Cancelled, deleted := true);
    if Terminal(s.orders[o].status) {
      OrderRowWritten(s, o, order);
    } else {
      ReleaseKeepsSound(s, o, order, now);
    }
  }

  lemma RefundKeepsSound(s: State, o: OrderId, full: bool, now: Time)
    requires Sound(s) && RefundOrder(s, o, full, now).Committed?
    ensures Sound(RefundOrder(s, o, full, now).state)
  {
    if full {
      ReleaseKeepsSound(s, o, s.orders[o].(status := OrderStatus.Refunded), now);
    } else {
      OrderRowWritten(s, o, s.orders[o].(status := PartiallyRefunded));
    }
  }

  lemma FailKeepsSound(s: State, o: OrderId, now: Time)
    requires Sound(s) && FailPayment(s, o, now).Committed?
    ensures Sound(FailPayment(s, o, now).state)
  {
    if o < |s.orders| && !Settled(s.orders[o].status) {
      ReleaseKeepsSound(s, o, s.orders[o].(status := OrderStatus.Cancelled), now);
    }
  }

  // ---------------------------------------------------------------------------------------
  //  Coin checkout
  // ---------------------------------------------------------------------------------------

  /** From row i on, the order's rows are booked; nothing else of a row changed. */
  ghost predicate CoinBooked(before: seq<Hold>, after: seq<Hold>, o: OrderId, i: nat) {
    && SameRows(before, after)
    && (forall j :: 0 <= j < |before| && (j < i || before[j].order != Some(o)) ==> after[j] == before[j])
    && (forall j :: i <= j < |before| && before[j].order == Some(o) ==> after[j].status == Booked)
  }

  lemma {:induction false} CoinBooks(s: State, o: OrderId, i: nat, now: Time)
    requires i <= |s.holds| && TypesKnown(s) && CoinFrom(s, o, i, now).Committed?
    ensures CoinBooked(s.holds, CoinFrom(s, o, i, now).state.holds, o, i)
    decreases |s.holds| - i
  {
    if i < |s.holds| {
      CoinBooks(CoinRow(s, o, i, now).state, o, i + 1, now);
    }
  }

  lemma {:induction false} CoinKeepsRows(s: State, o: OrderId, i: nat, now: Time)
    requires i <= |s.holds| && TypesKnown(s) && RowsAllowed(s) && CoinFrom(s, o, i, now).Committed?
    ensures RowsAllowed(CoinFrom(s, o, i, now).state)
    decreases |s.holds| - i
  {
    if i < |s.holds| {
      CoinKeepsRows(CoinRow(s, o, i, now).state, o, i + 1, now);
    }
  }

  lemma CoinKeepsSound(s: State, o: OrderId, read: OrderStatus, now: Time)
    requires Sound(s) && CoinCheckout(s, o, read, now).Committed?
    ensures Sound(CoinCheckout(s, o, read, now).state)
  {
    var s0 := WithStatus(s, o, Paid);
    OrderRowWritten(s, o, s.orders[o].(status := Paid));
    var s' := CoinFrom(s0, o, 0, now).state;
    CoinKeepsRows(s0, o, 0, now);
    CoinBooks(s0, o, 0, now);
    SameRowsKeepLinked(s0, s');
    forall i | 0 <= i < |s'.holds| ensures SoldHoldSound(s', i) {
      assert SoldHoldSound(s0, i);
    }
  }

  /** Moving holds without changing what they are keeps them linked to the orders. */
  lemma SameRowsKeepLinked(s: State, s': State)
    requires Linked(s) && s'.orders == s.orders && SameRows(s.holds, s'.holds)
    ensures Linked(s')
  {
    forall o, t | 0 <= o < |s'.orders| ensures Quantity(s'.holds, OfOrder(o), t) == ItemQuantity(s'.orders[o].items, t) {
      SameRowsKeepOrders(s.holds, s'.holds, o, t);
    }
  }

  /** From row i on, the order's rows are at the outcome; nothing else of a row changed. */
  ghost predicate SetAside(before: seq<Hold>, after: seq<Hold>, o: OrderId, i: nat, outcome: HoldStatus) {
    && SameRows(before, after)
    && (forall j :: 0 <= j < |before| && (j < i || before[j].order != Some(o)) ==> after[j] == before[j])
    && (forall j :: i <= j < |before| && before[j].order == Some(o) ==>
          after[j].status == outcome && MayBecome(before[j].status, HoldStatus.Expired))
  }

  lemma {:induction false} RefundSetsAside(s: State, o: OrderId, i: nat, outcome: HoldStatus, now: Time)
    requires i <= |s.holds| && RefundFrom(s, o, i, outcome, now).Committed?
    ensures SetAside(s.holds, RefundFrom(s, o, i, outcome, now).state.holds, o, i, outcome)
    decreases |s.holds| - i
  {
    if i < |s.holds| {
      RefundSetsAside(RefundRow(s, o, i, outcome, now).state, o, i + 1, outcome, now);
    }
  }

  lemma {:induction false} ClosingKeepsOpenBelow(before: seq<Hold>, after: seq<Hold>, t: TypeId)
    requires SameRows(before, after)
    requires forall j :: 0 <= j < |before| && IsOpen(after[j].status) ==> IsOpen(before[j].status)
    ensures Quantity(after, Open, t) <= Quantity(before, Open, t)
  {
    if before != [] {
      ClosingKeepsOpenBelow(before[1..], after[1..], t);
    }
  }

  lemma UpdateBranches(s: State, o: OrderId, next: OrderStatus, now: Time)
    requires TypesKnown(s) && UpdateOrder(s, o, next, now).Committed?
    ensures o < |s.orders| && !s.orders[o].deleted && OrderMayBecome(s.orders[o].status, next)
    ensures !Terminal(s.orders[o].status) && Terminal(next) ==>
      UpdateOrder(s, o, next, now) == SweepFrom(WithStatus(s, o, next), ReleaseOrder(o), 0, now)
    ensures s.orders[o].status != Confirmed && next == Confirmed ==>
      UpdateOrder(s, o, next, now) == SweepFrom(WithStatus(s, o, next), ConvertOrder(o), 0, now)
    ensures (Terminal(s.orders[o].status) || !Terminal(next)) && (s.orders[o].status == Confirmed || next != Confirmed) ==>
      UpdateOrder(s, o, next, now) == Committed(WithStatus(s, o, next))
  {
  }

  lemma PaymentBranches(s: State, o: OrderId, outcome: HoldStatus, now: Time)
    requires TypesKnown(s) && ConfirmPayment(s, o, outcome, now).Committed?
    ensures o < |s.orders|
    ensures OnTime(s, o, now) ==> ConfirmPayment(s, o, outcome, now) == SweepFrom(SettledByPayment(s, o), BookOrder(o), 0, now)
    ensures !OnTime(s, o, now) ==> !IsOpen(outcome) && !IsSold(outcome)
    ensures !OnTime(s, o, now) ==> ConfirmPayment(s, o, outcome, now) == RefundFrom(ExpiredByPayment(s, o), o, 0, outcome, now)
  {
  }

  lemma OnTimePaymentKeepsSound(s: State, o: OrderId, now: Time)
    requires Sound(s) && o < |s.orders| && SweepFrom(SettledByPayment(s, o), BookOrder(o), 0, now).Committed?
    ensures Sound(SweepFrom(SettledByPayment(s, o), BookOrder(o), 0, now).state)
  {
    var s0 := SettledByPayment(s, o);
    OrderRowWritten(s, o, s0.orders[o]);
    SweepKeepsSound(s0, BookOrder(o), now);
  }

  lemma LatePaymentKeepsSound(s: State, o: OrderId, outcome: HoldStatus, now: Time)
    requires Sound(s) && o < |s.orders| && !IsSold(outcome)
    requires RefundFrom(ExpiredByPayment(s, o), o, 0, outcome, now).Committed?
    ensures Sound(RefundFrom(ExpiredByPayment(s, o), o, 0, outcome, now).state)
  {
    var s0 := ExpiredByPayment(s, o);
    var s' := RefundFrom(s0, o, 0, outcome, now).state;
    OrderRowWritten(s, o, s0.orders[o]);
    RefundSetsAside(s0, o, 0, outcome, now);
    SameRowsKeepLinked(s0, s');
    forall i | 0 <= i < |s'.holds| ensures SoldHoldSound(s', i) {
      assert s0.holds[i].order != Some(o) ==> SoldHoldSound(s0, i);
    }
  }

  /** From row i on, the order's rows are given more time, and each was open before; nothing else changed. */
  ghost predicate Prolonged(before: seq<Hold>, after: seq<Hold>, o: OrderId, i: nat, until: Time) {
    && SameRows(before, after)
    && (forall j :: 0 <= j < |before| && (j < i || before[j].order != Some(o)) ==> after[j] == before[j])
    && (forall j :: i <= j < |before| && before[j].order == Some(o) ==>
          IsOpen(before[j].status) && after[j].status == PaymentProcessing && after[j].expiresAt == until
          && before[j].extensions < MAX_EXTENSIONS && after[j].extensions == before[j].extensions + 1)
  }

  lemma {:induction false} ExtensionProlongs(s: State, o: OrderId, i: nat, seconds: int, now: Time)
    requires i <= |s.holds| && ExtendFrom(s, o, i, seconds, now).Committed?
    ensures Prolonged(s.holds, ExtendFrom(s, o, i, seconds, now).state.holds, o, i, now + seconds)
    decreases |s.holds| - i
  {
    if i < |s.holds| {
      ExtensionProlongs(ExtendRow(s, o, i, seconds, now).state, o, i + 1, seconds, now);
    }
  }

  lemma ExtendKeepsSound(s: State, o: OrderId, seconds: int, now: Time)
    requires Sound(s) && ExtendFrom(s, o, 0, seconds, now).Committed?
    ensures Sound(ExtendFrom(s, o, 0, seconds, now).state)
  {
    var s' := ExtendFrom(s, o, 0, seconds, now).state;
    ExtensionProlongs(s, o, 0, seconds, now);
    SameRowsKeepLinked(s, s');
    forall i | 0 <= i < |s'.holds| ensures SoldHoldSound(s', i) {
      assert SoldHoldSound(s, i);
    }
  }

  lemma LooseKeepsSound(s: State, lines: seq<Line>, expiresAt: Time, seen: map<TypeId, int>)
    requires Sound(s) && LinesFor(None, lines) && Reserve(s, None, lines, expiresAt, seen).Committed?
    ensures Sound(Reserve(s, None, lines, expiresAt, seen).state)
  {
    var s' := Reserve(s, None, lines, expiresAt, seen).state;
    InsertAppends(s, None, lines, expiresAt);
    forall o, t | 0 <= o < |s'.orders|
      ensures Quantity(s'.holds, OfOrder(o), t) == ItemQuantity(s'.orders[o].items, t)
    {
      LooseAddsToNoOrder(s, lines, expiresAt, o, t);
    }
    forall i | 0 <= i < |s'.holds| ensures SoldHoldSound(s', i) {
      assert i < |s.holds| ==> SoldHoldSound(s, i);
    }
  }

  lemma {:induction false} LooseAddsToNoOrder(s: State, lines: seq<Line>, expiresAt: Time, o: OrderId, t: TypeId)
    requires LinesKnown(s, lines) && InsertFrom(s, None, lines, expiresAt).Committed?
    ensures Quantity(InsertFrom(s, None, lines, expiresAt).state.holds, OfOrder(o), t) == Quantity(s.holds, OfOrder(o), t)
    decreases |lines|
  {
    if lines != [] {
      QuantityAppend(s.holds, NewHold(lines[0], None, expiresAt), OfOrder(o), t);
      LooseAddsToNoOrder(InsertLine(s, None, lines[0], expiresAt).state, lines[1..], expiresAt, o, t);
    }
  }

  // ---------------------------------------------------------------------------------------
  //  Expiry outside a transaction
  // ---------------------------------------------------------------------------------------

  lemma {:induction false} UntouchedSweep(s: State, w: Sweep, i: nat, now: Time)
    requires i <= |s.holds| && TypesKnown(s)
    requires forall j :: i <= j < |s.holds| ==> !Touches(w, j, s.holds[j])
    ensures SweepFrom(s, w, i, now) == Committed(s)
    decreases |s.holds| - i
  {
    if i < |s.holds| {
      UntouchedSweep(s, w, i + 1, now);
    }
  }

  /** The rows before k that a set selects. */
  function Before(rows: set<nat>, k: nat): set<nat> {
    set r | r in rows && r < k
  }

  lemma SameTurnBefore(s: State, rows: set<nat>, k: nat, i: nat, now: Time)
    requires i < |s.holds| && i < k && TypesKnown(s)
    ensures SweepRow(s, ExpireRows(Before(rows, k)), i, now) == SweepRow(s, ExpireRows(rows), i, now)
  {
  }

  lemma NoTurnAfter(s: State, rows: set<nat>, k: nat, now: Time)
    requires k <= |s.holds| && TypesKnown(s)
    ensures SweepFrom(s, ExpireRows(Before(rows, k)), k, now) == Committed(s)
  {
    UntouchedSweep(s, ExpireRows(Before(rows, k)), k, now);
  }

  /** A sweep that stops at a refused row did exactly what a sweep of the rows before it does. */
  lemma {:induction false} StoppedSweepIsASweep(s: State, rows: set<nat>, i: nat, now: Time) returns (k: nat)
    requires i <= |s.holds| && TypesKnown(s)
    ensures i <= k <= |s.holds|
    ensures SweepFrom(s, ExpireRows(Before(rows, k)), i, now) == Committed(SweepUntil(s, ExpireRows(rows), i, now))
    ensures SweepFrom(s, ExpireRows(rows), i, now).Committed? ==> k == |s.holds|
    decreases |s.holds| - i
  {
    if i == |s.holds| {
      k := i;
    } else {
      var r := SweepRow(s, ExpireRows(rows), i, now);
      if r.Refused? {
        k := i;
        NoTurnAfter(s, rows, i, now);
      } else {
        k := StoppedSweepIsASweep(r.state, rows, i + 1, now);
        SameTurnBefore(s, rows, k, i, now);
      }
    }
  }

  /** The state after an expiry, as one sweep that commits. */
  lemma ExpiryIsASweep(s: State, rows: set<nat>, now: Time) returns (w: Sweep)
    requires TypesKnown(s)
    ensures w.ExpireRows? && w.rows <= rows
    ensures SweepFrom(s, w, 0, now) == Committed(After(s, Expire(rows, now)))
    ensures SweepFrom(s, ExpireRows(rows), 0, now).Committed? ==> SweepFrom(s, ExpireRows(rows), 0, now).state == After(s, Expire(rows, now))
  {
    var k := StoppedSweepIsASweep(s, rows, 0, now);
    w := ExpireRows(Before(rows, k));
    if SweepFrom(s, ExpireRows(rows), 0, now).Committed? {
      WholeSweepIsTheSweep(s, ExpireRows(rows), 0, now);
    }
  }

  lemma {:induction false} WholeSweepIsTheSweep(s: State, w: Sweep, i: nat, now: Time)
    requires i <= |s.holds| && TypesKnown(s) && SweepFrom(s, w, i, now).Committed?
    ensures SweepUntil(s, w, i, now) == SweepFrom(s, w, i, now).state
    decreases |s.holds| - i
  {
    if i < |s.holds| {
      WholeSweepIsTheSweep(SweepRow(s, w, i, now).state, w, i + 1, now);
    }
  }

  lemma ExpireKeepsSound(s: State, rows: set<nat>, now: Time)
    requires Sound(s)
    ensures Sound(After(s, Expire(rows, now)))
  {
    var w := ExpiryIsASweep(s, rows, now);
    SweepKeepsSound(s, w, now);
  }

  // ---------------------------------------------------------------------------------------
  //  Any operation
  // ---------------------------------------------------------------------------------------

  /** Writing a ticket type's row leaves holds and orders alone. */
  lemma TypesKeepSound(s: State, types: map<TypeId, TicketType>)
    requires Sound(s) && s.types.Keys <= types.Keys && forall t :: t in types ==> RowAllowed(types[t])
    ensures Sound(s.(types := types))
  {
    var s' := s.(types := types);
    forall i | 0 <= i < |s'.holds| ensures SoldHoldSound(s', i) {
      assert SoldHoldSound(s, i);
    }
  }

  lemma StepKeepsSound(s: State, op: Op)
    requires Sound(s)
    ensures Sound(After(s, op))
  {
    if Attempt(s, op).Committed? {
      match op
      case Create(items, status, expiresAt, seen, at) => CreateKeepsSound(s, items, status, expiresAt, seen, at);
      case ReserveLoose(lines, expiresAt, seen) => LooseKeepsSound(s, lines, expiresAt, seen);
      case Update(o, next, at) => UpdateKeepsSound(s, o, next, at);
      case Delete(o, at) => DeleteKeepsSound(s, o, at);
      case Confirm(o, outcome, at) =>
        PaymentBranches(s, o, outcome, at);
        if OnTime(s, o, at) {
          OnTimePaymentKeepsSound(s, o, at);
        } else {
          LatePaymentKeepsSound(s, o, outcome, at);
        }
      case Coin(o, read, at) => CoinKeepsSound(s, o, read, at);
      case Refund(o, full, at) => RefundKeepsSound(s, o, full, at);
      case Fail(o, at) => FailKeepsSound(s, o, at);
      case Expire(rows, at) => ExpireKeepsSound(s, rows, at);
      case Extend(o, seconds, at) => ExtendKeepsSound(s, o, seconds, at);
      case Repair(_, _, _) => TypesKeepSound(s, After(s, op).types);
      case Edit(_, _, _, _) => TypesKeepSound(s, After(s, op).types);
      case Add(_, _, _, _) => TypesKeepSound(s, After(s, op).types);
    }
  }
}
