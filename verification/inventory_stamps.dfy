/** No run leaves an open hold with a conversion or release time, so what the expiry worker selects is what has lapsed. */
module InventoryStamps {
  import opened Common
  import opened Inventory
  import opened InventorySafety
  import opened InventoryCapacity
  import opened InventoryEffects

  /** An open hold carries neither stamp. */
  predicate StampsFit(h: Hold) {
    IsOpen(h.status) ==> h.convertedAt.None? && h.releasedAt.None?
  }

  ghost predicate Unstamped(holds: seq<Hold>) {
    forall i :: 0 <= i < |holds| ==> StampsFit(holds[i])
  }

  lemma SweepKeepsUnstamped(s: State, w: Sweep, now: Time)
    requires TypesKnown(s) && Unstamped(s.holds) && SweepFrom(s, w, 0, now).Committed?
    ensures Unstamped(SweepFrom(s, w, 0, now).state.holds)
  {
    SweepTurns(s, w, 0, now);
  }

  lemma {:induction false} InsertKeepsUnstamped(s: State, order: Option<OrderId>, lines: seq<Line>, expiresAt: Time)
    requires LinesKnown(s, lines) && Unstamped(s.holds) && InsertFrom(s, order, lines, expiresAt).Committed?
    ensures Unstamped(InsertFrom(s, order, lines, expiresAt).state.holds)
    decreases |lines|
  {
    if lines != [] {
      InsertKeepsUnstamped(InsertLine(s, order, lines[0], expiresAt).state, order, lines[1..], expiresAt);
    }
  }

  lemma {:induction false} ExtensionKeepsUnstamped(s: State, o: OrderId, i: nat, seconds: int, now: Time)
    requires i <= |s.holds| && Unstamped(s.holds) && ExtendFrom(s, o, i, seconds, now).Committed?
    ensures Unstamped(ExtendFrom(s, o, i, seconds, now).state.holds)
    decreases |s.holds| - i
  {
    if i < |s.holds| {
      ExtensionKeepsUnstamped(ExtendRow(s, o, i, seconds, now).state, o, i + 1, seconds, now);
    }
  }

  lemma CreationKeepsUnstamped(s: State, items: seq<Item>, status: OrderStatus, expiresAt: Time, seen: map<TypeId, int>, now: Time)
    requires Sound(s) && Unstamped(s.holds) && CreateOrder(s, items, status, expiresAt, seen, now).Committed?
    ensures Unstamped(CreateOrder(s, items, status, expiresAt, seen, now).state.holds)
  {
    var o := |s.orders|;
    var s0 := s.(orders := s.orders + [Order(status, items, false)]);
    InsertKeepsUnstamped(s0, Some(o), OrderLines(o, items), expiresAt);
    if status == Confirmed {
      SweepKeepsUnstamped(InsertFrom(s0, Some(o), OrderLines(o, items), expiresAt).state, ConvertOrder(o), now);
    }
  }

  lemma ChangeKeepsUnstamped(s: State, o: OrderId, next: OrderStatus, now: Time)
    requires Sound(s) && Unstamped(s.holds) && UpdateOrder(s, o, next, now).Committed?
    ensures Unstamped(UpdateOrder(s, o, next, now).state.holds)
  {
    UpdateBranches(s, o, next, now);
    if !Terminal(s.orders[o].status) && Terminal(next) {
      SweepKeepsUnstamped(WithStatus(s, o, next), ReleaseOrder(o), now);
    } else if next == Confirmed && s.orders[o].status != Confirmed {
      SweepKeepsUnstamped(WithStatus(s, o, next), ConvertOrder(o), now);
    }
  }

  lemma ClosingKeepsUnstamped(s: State, op: Op)
    requires Sound(s) && Unstamped(s.holds) && (op.Delete? || op.Refund? || op.Fail?)
    ensures Unstamped(After(s, op).holds)
  {
    if Attempt(s, op).Committed? && op.order < |s.orders| {
      var s0 := s.(orders := After(s, op).orders);
      if SweepFrom(s0, ReleaseOrder(op.order), 0, op.at).Committed? {
        SweepKeepsUnstamped(s0, ReleaseOrder(op.order), op.at);
      }
    }
  }

  lemma PaymentKeepsUnstamped(s: State, o: OrderId, outcome: HoldStatus, now: Time)
    requires Sound(s) && Unstamped(s.holds) && ConfirmPayment(s, o, outcome, now).Committed?
    ensures Unstamped(ConfirmPayment(s, o, outcome, now).state.holds)
  {
    PaymentBranches(s, o, outcome, now);
    if OnTime(s, o, now) {
      SweepKeepsUnstamped(SettledByPayment(s, o), BookOrder(o), now);
    } else {
      RefundTurns(ExpiredByPayment(s, o), o, 0, outcome, now);
    }
  }

  lemma StepKeepsUnstamped(s: State, op: Op)
    requires Sound(s) && Unstamped(s.holds)
    ensures Unstamped(After(s, op).holds)
  {
    if Attempt(s, op).Committed? {
      match op
      case Create(items, status, expiresAt, seen, at) => CreationKeepsUnstamped(s, items, status, expiresAt, seen, at);
      case ReserveLoose(lines, expiresAt, seen) => InsertKeepsUnstamped(s, None, lines, expiresAt);
      case Update(o, next, at) => ChangeKeepsUnstamped(s, o, next, at);
      case Delete(_, _) => ClosingKeepsUnstamped(s, op);
      case Confirm(o, outcome, at) => PaymentKeepsUnstamped(s, o, outcome, at);
      case Coin(o, read, at) => CoinsBook(s, o, read, at);
      case Refund(_, _, _) => ClosingKeepsUnstamped(s, op);
      case Fail(_, _) => ClosingKeepsUnstamped(s, op);
      case Expire(rows, at) =>
        var w := ExpiryIsASweep(s, rows, at);
        SweepKeepsUnstamped(s, w, at);
      case Extend(o, seconds, at) => ExtensionKeepsUnstamped(s, o, 0, seconds, at);
      case Repair(_, _, _) =>
      case Edit(_, _, _, _) =>
      case Add(_, _, _, _) =>
    }
  }

  lemma {:induction false} RunKeepsUnstamped(s: State, ops: seq<Op>)
    requires Sound(s) && Unstamped(s.holds)
    ensures Unstamped(Execute(s, ops).holds)
    decreases |ops|
  {
    if ops != [] {
      StepKeepsUnstamped(s, ops[0]);
      StepKeepsSound(s, ops[0]);
      RunKeepsUnstamped(After(s, ops[0]), ops[1..]);
    }
  }

  /**
   In every run from a fresh platform, an open hold counts against availability exactly until its time has
   run out, and from then on the worker selects it, unless its payment is verified or being converted.
   */
  lemma SelectedIffLapsed(s: State, ops: seq<Op>, i: nat, now: Time)
    requires Fresh(s) && i < |Execute(s, ops).holds|
    ensures var h := Execute(s, ops).holds[i];
      && (Counts(Unexpired(now), h) <==> IsOpen(h.status) && now < h.expiresAt)
      && (Counts(Lapsed(now), h) <==> IsOpen(h.status) && h.expiresAt <= now)
      && (IsDue(h, now) <==> IsOpen(h.status) && h.expiresAt <= now && !h.status.PaymentVerified? && !h.status.Converting?)
  {
    RunKeepsUnstamped(s, ops);
    assert StampsFit(Execute(s, ops).holds[i]);
  }

  /** A hold with a stamp neither counts against availability nor is selected. */
  lemma StampedIsNeither(h: Hold, now: Time)
    requires h.convertedAt.Some? || h.releasedAt.Some?
    ensures !Counts(Unexpired(now), h) && !IsDue(h, now)
  {
  }
}
