/**
 One organizer's wallet, and the escrow it shares with the tenant's other organizers. Sales are
 staged as pending, settlement moves them out of escrow to available, a withdrawal locks available
 money as pending again until it is paid out or returned. Amounts are in minor units. ledgerNet is
 the net of the organizer's balance account in the ledger; captured, refunded and settled are what
 the whole tenant has put into escrow and taken out of it by sales, refunds and settlements, and
 adjusted what upgrades and downgrades of bookings have, on balance, put in besides.
 */
module Wallet {
  import opened Common

  datatype CreditStatus = Staged | Settled
  datatype Credit = Credit(gross: nat, fee: nat, tax: nat, status: CreditStatus)

  datatype RequestStatus = Waiting | Processing | Completed | Returned
  datatype Request = Request(amount: nat, status: RequestStatus, day: nat)

  datatype State = State(
    pending: int, available: int, withdrawn: int,
    credits: seq<Credit>, requests: seq<Request>,
    ledgerNet: int,
    captured: nat, refunded: nat, settled: nat, adjusted: int)

  datatype Outcome = Done(state: State) | Refused(error: Error)

  const MIN_WITHDRAWAL := 1000
  const MAX_PER_DAY := 5000000

  const NEW_WALLET := State(0, 0, 0, [], [], 0, 0, 0, 0, 0)

  function Total(s: State): int {
    s.pending + s.available + s.withdrawn
  }

  /** What is left in the tenant's escrow. */
  function Escrow(s: State): int {
    s.captured - s.refunded - s.settled + s.adjusted
  }

  /** The organizer's share of a sale. */
  function Share(c: Credit): int {
    c.gross - c.fee - c.tax
  }

  function StagedShare(c: Credit): int {
    if c.status == Staged then Share(c) else 0
  }

  /** Shares of credits that are still staged. */
  function StagedSum(credits: seq<Credit>): int {
    if credits == [] then 0 else StagedShare(credits[0]) + StagedSum(credits[1..])
  }

  predicate IsOpen(r: Request) {
    r.status == Waiting || r.status == Processing
  }

  /** Money locked by withdrawals that are neither paid out nor returned. */
  function OpenSum(requests: seq<Request>): nat {
    if requests == [] then 0 else (if IsOpen(requests[0]) then requests[0].amount else 0) + OpenSum(requests[1..])
  }

  function CompletedSum(requests: seq<Request>): nat {
    if requests == [] then 0
    else (if requests[0].status == Completed then requests[0].amount else 0) + CompletedSum(requests[1..])
  }

  /** What has been asked for on or after a day, whatever became of it. */
  function AskedSince(requests: seq<Request>, day: nat): nat {
    if requests == [] then 0 else (if requests[0].day >= day then requests[0].amount else 0) + AskedSince(requests[1..], day)
  }

  // ---------------------------------------------------------------------------------------
  //  Operations
  // ---------------------------------------------------------------------------------------

  /** A sale: its gross goes into escrow, the organizer's share is staged. */
  function Capture(s: State, gross: nat, fee: nat, tax: nat): Outcome {
    if gross == 0 then Refused(BadRequest)
    else
      var c := Credit(gross, fee, tax, Staged);
      Done(s.(pending := s.pending + Share(c), credits := s.credits + [c], captured := s.captured + gross))
  }

  /** A late sale: captured and refunded, credited and debited at once, but its credit row stays staged. */
  function LateCapture(s: State, gross: nat, fee: nat, tax: nat): Outcome {
    if gross == 0 then Refused(BadRequest)
    else
      Done(s.(credits := s.credits + [Credit(gross, fee, tax, Staged)],
              captured := s.captured + gross, refunded := s.refunded + gross))
  }

  /** The ledger takes a settlement whose parts are all positive, as far as the tenant's escrow covers it. */
  predicate Postable(s: State, c: Credit) {
    c.fee > 0 && c.tax > 0 && Share(c) > 0 && c.gross <= Escrow(s)
  }

  /** Settle one staged credit; one that the ledger does not take is skipped and stays staged. */
  function Settle(s: State, k: nat): (s': State)
    ensures |s'.credits| == |s.credits|
  {
    if k >= |s.credits| || s.credits[k].status != Staged || !Postable(s, s.credits[k]) then s
    else
      var c := s.credits[k];
      s.(pending := Max(0, s.pending - Share(c)), available := s.available + Share(c),
         credits := s.credits[k := c.(status := Settled)], ledgerNet := s.ledgerNet + Share(c), settled := s.settled + c.gross)
  }

  /** A refund of a sale that is still staged comes out of escrow; its credit row stays as it is. */
  function RefundStaged(s: State, amount: nat, share: int): Outcome {
    if amount == 0 then Refused(BadRequest)
    else if amount > Escrow(s) then Refused(Conflict)
    else Done(s.(pending := Max(0, s.pending - share), refunded := s.refunded + amount))
  }

  /** A refund of a settled sale; the ledger refuses parts that do not add up, and to overdraw the organizer. */
  function RefundSettled(s: State, amount: nat, fee: nat, tax: nat, share: int): Outcome {
    if amount == 0 || amount != fee + tax + share then Refused(BadRequest)
    else if fee == 0 || tax == 0 || share <= 0 then Refused(CheckViolation)
    else if share > s.ledgerNet then Refused(Conflict)
    else Done(s.(available := Max(0, s.available - share), ledgerNet := s.ledgerNet - share))
  }

  function RequestWithdrawal(s: State, amount: int, day: nat, verified: bool): Outcome {
    if amount < MIN_WITHDRAWAL || s.available < amount then Refused(BadRequest)
    else if !verified then Refused(Forbidden)
    else if AskedSince(s.requests, day) + amount > MAX_PER_DAY then Refused(BadRequest)
    else Done(s.(available := s.available - amount, pending := s.pending + amount,
                 requests := s.requests + [Request(amount, Waiting, day)]))
  }

  /** Hand a withdrawal to the payout provider. */
  function Approve(s: State, r: nat): Outcome {
    if r >= |s.requests| then Refused(NotFound)
    else if !IsOpen(s.requests[r]) then Refused(BadRequest)
    else Done(s.(requests := s.requests[r := s.requests[r].(status := Processing)]))
  }

  /** A withdrawal is paid out; the ledger refuses to overdraw the organizer. */
  function Complete(s: State, r: nat): Outcome {
    if r >= |s.requests| then Refused(NotFound)
    else if !IsOpen(s.requests[r]) then Refused(BadRequest)
    else
      var a := s.requests[r].amount;
      if a > s.ledgerNet then Refused(Conflict)
      else Done(s.(pending := Max(0, s.pending - a), withdrawn := s.withdrawn + a,
                   requests := s.requests[r := s.requests[r].(status := Completed)], ledgerNet := s.ledgerNet - a))
  }

  /** A withdrawal fails or is rejected: its money becomes available again. */
  function Return(s: State, r: nat): Outcome {
    if r >= |s.requests| then Refused(NotFound)
    else if !IsOpen(s.requests[r]) then Refused(BadRequest)
    else
      var a := s.requests[r].amount;
      Done(s.(available := s.available + a, pending := Max(0, s.pending - a),
              requests := s.requests[r := s.requests[r].(status := Returned)]))
  }

  /** The balances recomputed from the ledger, the staged credits and the completed withdrawals. */
  function Rebuilt(s: State): State {
    s.(available := s.ledgerNet, pending := StagedSum(s.credits), withdrawn := CompletedSum(s.requests))
  }

  /**
   Overwrite the balances with sums taken earlier: the wallet row is locked only after the entries,
   the credits and the withdrawals have been read, one after another.
   */
  function WriteSums(s: State, ledgerSum: nat, stagedSum: int, completedSum: nat): State {
    s.(available := ledgerSum, pending := stagedSum, withdrawn := completedSum)
  }

  /**
   Move money between the organizer's balance account and an account of the platform, the wallet row
   untouched: manual credits and debits, holds and their releases, disputed payments.
   */
  function MoveLedger(s: State, amount: int): Outcome {
    if amount == 0 then Refused(BadRequest)
    else if s.ledgerNet + amount < 0 then Refused(Conflict)
    else Done(s.(ledgerNet := s.ledgerNet + amount))
  }

  /** Upgrades of bookings put money into the escrow, downgrades take it out. */
  function MoveEscrow(s: State, amount: int): Outcome {
    if amount == 0 then Refused(BadRequest)
    else if Escrow(s) + amount < 0 then Refused(Conflict)
    else Done(s.(adjusted := s.adjusted + amount))
  }

  /** What happens to this wallet, and what other organizers of the tenant do to the escrow. */
  datatype Op =
    | Sale(gross: nat, fee: nat, tax: nat)
    | LateSale(gross: nat, fee: nat, tax: nat)
    | SettleOne(credit: nat)
    | StagedRefund(gross: nat, share: int)
    | SettledRefund(gross: nat, fee: nat, tax: nat, share: int)
    | Ask(asked: int, day: nat, verified: bool)
    | Hand(request: nat)
    | PayOut(request: nat)
    | GiveBack(request: nat)
    | OthersSell(gross: nat)
    | OthersSettle(gross: nat)
    | OthersRefund(gross: nat)
    | Recalculate(ledgerSum: nat, stagedSum: int, completedSum: nat)
    | LedgerMove(moved: int)
    | EscrowMove(moved: int)

  function Attempt(s: State, op: Op): Outcome {
    match op
    case Sale(gross, fee, tax) => Capture(s, gross, fee, tax)
    case LateSale(gross, fee, tax) => LateCapture(s, gross, fee, tax)
    case SettleOne(k) => Done(Settle(s, k))
    case StagedRefund(gross, share) => RefundStaged(s, gross, share)
    case SettledRefund(gross, fee, tax, share) => RefundSettled(s, gross, fee, tax, share)
    case Ask(a, day, verified) => RequestWithdrawal(s, a, day, verified)
    case Hand(r) => Approve(s, r)
    case PayOut(r) => Complete(s, r)
    case GiveBack(r) => Return(s, r)
    case OthersSell(gross) => Done(s.(captured := s.captured + gross))
    case OthersSettle(gross) => if gross > Escrow(s) then Refused(Conflict) else Done(s.(settled := s.settled + gross))
    case OthersRefund(gross) => if gross > Escrow(s) then Refused(Conflict) else Done(s.(refunded := s.refunded + gross))
    case Recalculate(ledgerSum, stagedSum, completedSum) => Done(WriteSums(s, ledgerSum, stagedSum, completedSum))
    case LedgerMove(amount) => MoveLedger(s, amount)
    case EscrowMove(amount) => MoveEscrow(s, amount)
  }

  function After(s: State, op: Op): State {
    var r := Attempt(s, op);
    if r.Done? then r.state else s
  }

  function Run(s: State, ops: seq<Op>): State
    decreases |ops|
  {
    if ops == [] then s else Run(After(s, ops[0]), ops[1..])
  }

  // ---------------------------------------------------------------------------------------
  //  Sums
  // ---------------------------------------------------------------------------------------

  lemma {:induction false} StagedAppend(credits: seq<Credit>, c: Credit)
    ensures StagedSum(credits + [c]) == StagedSum(credits) + StagedShare(c)
  {
    if credits == [] {
      assert (credits + [c])[1..] == [];
    } else {
      assert (credits + [c])[1..] == credits[1..] + [c];
      StagedAppend(credits[1..], c);
    }
  }

  lemma {:induction false} StagedUpdate(credits: seq<Credit>, k: nat, c: Credit)
    requires k < |credits|
    ensures StagedSum(credits[k := c]) == StagedSum(credits) - StagedShare(credits[k]) + StagedShare(c)
  {
    if k == 0 {
      assert credits[0 := c][1..] == credits[1..];
    } else {
      assert credits[k := c][1..] == credits[1..][k - 1 := c];
      StagedUpdate(credits[1..], k - 1, c);
    }
  }

  lemma {:induction false} RequestAppend(requests: seq<Request>, r: Request, day: nat)
    ensures OpenSum(requests + [r]) == OpenSum(requests) + if IsOpen(r) then r.amount else 0
    ensures CompletedSum(requests + [r]) == CompletedSum(requests) + if r.status == Completed then r.amount else 0
    ensures AskedSince(requests + [r], day) == AskedSince(requests, day) + if r.day >= day then r.amount else 0
  {
    if requests == [] {
      assert (requests + [r])[1..] == [];
    } else {
      assert (requests + [r])[1..] == requests[1..] + [r];
      RequestAppend(requests[1..], r, day);
    }
  }

  lemma {:induction false} RequestMoves(requests: seq<Request>, k: nat, status: RequestStatus, day: nat)
    requires k < |requests|
    ensures var moved := requests[k := requests[k].(status := status)];
      && OpenSum(moved) == OpenSum(requests) - (if IsOpen(requests[k]) then requests[k].amount else 0)
           + (if status == Waiting || status == Processing then requests[k].amount else 0)
      && CompletedSum(moved) == CompletedSum(requests) - (if requests[k].status == Completed then requests[k].amount else 0)
           + (if status == Completed then requests[k].amount else 0)
      && AskedSince(moved, day) == AskedSince(requests, day)
  {
    var moved := requests[k := requests[k].(status := status)];
    if k == 0 {
      assert moved[1..] == requests[1..];
    } else {
      assert moved[1..] == requests[1..][k - 1 := requests[k].(status := status)];
      RequestMoves(requests[1..], k - 1, status, day);
    }
  }

  lemma SettleMovesOne(s: State, k: nat)
    requires k < |s.credits| && s.credits[k].status == Staged && Postable(s, s.credits[k])
    ensures StagedSum(Settle(s, k).credits) == StagedSum(s.credits) - Share(s.credits[k])
  {
    StagedUpdate(s.credits, k, s.credits[k].(status := Settled));
  }

  // ---------------------------------------------------------------------------------------
  //  The escrow
  // ---------------------------------------------------------------------------------------

  /** What upgrades and downgrades put into the escrow over a run, on balance. */
  function TotalAdjusted(s: State, ops: seq<Op>): int
    decreases |ops|
  {
    if ops == [] then 0
    else (if ops[0].EscrowMove? && Attempt(s, ops[0]).Done? then ops[0].moved else 0) + TotalAdjusted(After(s, ops[0]), ops[1..])
  }

  /**
   In every run the tenant never settles and refunds more than it captured and adjusted: a settlement
   that the escrow does not cover is skipped, a refund or downgrade that it does not cover is refused.
   Nor does an organizer's account in the ledger ever go below zero.
   */
  lemma {:induction false} RunKeepsEscrow(s: State, ops: seq<Op>)
    requires s.settled + s.refunded <= s.captured + s.adjusted && s.ledgerNet >= 0
    ensures Run(s, ops).settled + Run(s, ops).refunded <= Run(s, ops).captured + s.adjusted + TotalAdjusted(s, ops)
    ensures Run(s, ops).adjusted == s.adjusted + TotalAdjusted(s, ops)
    ensures Run(s, ops).ledgerNet >= 0
    decreases |ops|
  {
    if ops != [] {
      RunKeepsEscrow(After(s, ops[0]), ops[1..]);
    }
  }

  // ---------------------------------------------------------------------------------------
  //  Claims
  // ---------------------------------------------------------------------------------------

  /** Everything the rows promise the organizer: staged, locked, available, and paid out. */
  function Claims(s: State): int {
    StagedSum(s.credits) + OpenSum(s.requests) + s.available + s.withdrawn
  }

  /** What the pending balance lacks of the staged credits and the locked withdrawals. */
  function Shortfall(s: State): int {
    StagedSum(s.credits) + OpenSum(s.requests) - s.pending
  }

  /**
   What an accepted operation adds to the claims: every sale its share, late or not; a refund only
   after settlement; a recalculation whatever it writes over.
   */
  function Claimed(s: State, op: Op): int {
    match op
    case Sale(gross, fee, tax) => gross - fee - tax
    case LateSale(gross, fee, tax) => gross - fee - tax
    case SettledRefund(_, _, _, share) => -Min(share, s.available)
    case Recalculate(ledgerSum, _, completedSum) => ledgerSum - s.available + completedSum - s.withdrawn
    case _ => 0
  }

  lemma StepKeepsClaims(s: State, op: Op)
    requires s.available >= 0
    ensures After(s, op).available >= 0
    ensures Claims(After(s, op)) == Claims(s) + if Attempt(s, op).Done? then Claimed(s, op) else 0
  {
    if Attempt(s, op).Done? {
      match op
      case Sale(gross, fee, tax) => StagedAppend(s.credits, Credit(gross, fee, tax, Staged));
      case LateSale(gross, fee, tax) => StagedAppend(s.credits, Credit(gross, fee, tax, Staged));
      case SettleOne(k) =>
        if k < |s.credits| && s.credits[k].status == Staged && Postable(s, s.credits[k]) {
          SettleMovesOne(s, k);
        }
      case Ask(a, day, _) => RequestAppend(s.requests, Request(a, Waiting, day), day);
      case Hand(r) => RequestMoves(s.requests, r, Processing, 0);
      case PayOut(r) => RequestMoves(s.requests, r, Completed, 0);
      case GiveBack(r) => RequestMoves(s.requests, r, Returned, 0);
      case _ =>
    }
  }

  function TotalClaimed(s: State, ops: seq<Op>): int
    decreases |ops|
  {
    if ops == [] then 0
    else (if Attempt(s, ops[0]).Done? then Claimed(s, ops[0]) else 0) + TotalClaimed(After(s, ops[0]), ops[1..])
  }

  /**
   In every run, disciplined or not, the claims are the shares of all sales, late ones included, less
   what settled refunds took back, and whatever recalculations wrote over: settling, withdrawing,
   refunding a staged sale and moving money in the ledger change nothing.
   */
  lemma {:induction false} RunKeepsClaims(s: State, ops: seq<Op>)
    requires s.available >= 0
    ensures Run(s, ops).available >= 0
    ensures Claims(Run(s, ops)) == Claims(s) + TotalClaimed(s, ops)
    decreases |ops|
  {
    if ops != [] {
      StepKeepsClaims(s, ops[0]);
      RunKeepsClaims(After(s, ops[0]), ops[1..]);
    }
  }

  // ---------------------------------------------------------------------------------------
  //  Conservation
  // ---------------------------------------------------------------------------------------

  ghost predicate SharesNotNegative(credits: seq<Credit>) {
    forall k :: 0 <= k < |credits| ==> Share(credits[k]) >= 0
  }

  /** Available money and locked withdrawals are what the ledger says the organizer has. */
  ghost predicate Covered(s: State) {
    s.available >= 0 && s.ledgerNet == s.available + OpenSum(s.requests)
  }

  /** The pending balance is exactly the staged credits and the open withdrawals; the rest agrees with the ledger. */
  ghost predicate Backed(s: State) {
    Covered(s) && SharesNotNegative(s.credits) && Shortfall(s) == 0 && s.withdrawn == CompletedSum(s.requests)
  }

  /**
   A sale whose fees do not exceed it; no late sale with a share, for that is credited without being
   pending; no refund of a staged sale that moves the pending balance; no settled refund of money
   that is locked by a withdrawal; no recalculation that finds other balances than the kept ones; and
   no money moved in the ledger behind the wallet's back.
   */
  predicate Disciplined(s: State, op: Op) {
    match op
    case Sale(gross, fee, tax) => fee + tax <= gross
    case LateSale(gross, fee, tax) => fee + tax == gross
    case StagedRefund(_, share) => Max(0, s.pending - share) == s.pending
    case SettledRefund(_, _, _, share) => share <= s.available
    case Recalculate(ledgerSum, stagedSum, completedSum) => WriteSums(s, ledgerSum, stagedSum, completedSum) == s
    case LedgerMove(_) => false
    case _ => true
  }

  lemma {:induction false} StagedNotNegative(credits: seq<Credit>, k: nat)
    requires SharesNotNegative(credits)
    ensures StagedSum(credits) >= 0
    ensures k < |credits| ==> StagedShare(credits[k]) <= StagedSum(credits)
  {
    if credits != [] {
      StagedNotNegative(credits[1..], if k > 0 then k - 1 else |credits|);
    }
  }

  lemma SaleKeepsBackedIff(s: State, gross: nat, fee: nat, tax: nat)
    requires Backed(s) && gross > 0
    ensures Backed(After(s, Sale(gross, fee, tax))) <==> fee + tax <= gross
    ensures Backed(After(s, LateSale(gross, fee, tax))) <==> fee + tax == gross
  {
    var c := Credit(gross, fee, tax, Staged);
    StagedAppend(s.credits, c);
    assert (s.credits + [c])[|s.credits|] == c;
    forall k | 0 <= k < |s.credits| ensures (s.credits + [c])[k] == s.credits[k] {
    }
  }

  lemma SettleKeepsBacked(s: State, k: nat)
    requires Backed(s)
    ensures Backed(Settle(s, k)) && Total(Settle(s, k)) == Total(s)
  {
    if k < |s.credits| && s.credits[k].status == Staged && Postable(s, s.credits[k]) {
      SettleMovesOne(s, k);
      StagedNotNegative(s.credits, k);
    }
  }

  lemma AskKeepsBacked(s: State, a: int, day: nat, verified: bool)
    requires Backed(s)
    ensures Backed(After(s, Ask(a, day, verified))) && Total(After(s, Ask(a, day, verified))) == Total(s)
  {
    if Attempt(s, Ask(a, day, verified)).Done? {
      RequestAppend(s.requests, Request(a, Waiting, day), day);
    }
  }

  lemma ProcessingKeepsBacked(s: State, op: Op)
    requires Backed(s) && (op.Hand? || op.PayOut? || op.GiveBack?)
    ensures Backed(After(s, op)) && Total(After(s, op)) == Total(s)
  {
    if Attempt(s, op).Done? {
      var next := if op.Hand? then Processing else if op.PayOut? then Completed else Returned;
      RequestMoves(s.requests, op.request, next, 0);
      OneOpenRequest(s.requests, op.request);
      StagedNotNegative(s.credits, 0);
    }
  }

  /** A step keeps the balances backed exactly when it is refused or disciplined. */
  lemma StepKeepsBackedIff(s: State, op: Op)
    requires Backed(s)
    ensures Backed(After(s, op)) <==> (Attempt(s, op).Done? ==> Disciplined(s, op))
  {
    match op
    case Sale(gross, fee, tax) => if gross > 0 { SaleKeepsBackedIff(s, gross, fee, tax); }
    case LateSale(gross, fee, tax) => if gross > 0 { SaleKeepsBackedIff(s, gross, fee, tax); }
    case SettleOne(k) => SettleKeepsBacked(s, k);
    case StagedRefund(_, _) =>
    case SettledRefund(_, _, _, _) =>
    case Ask(a, day, verified) => AskKeepsBacked(s, a, day, verified);
    case Hand(_) => ProcessingKeepsBacked(s, op);
    case PayOut(_) => ProcessingKeepsBacked(s, op);
    case GiveBack(_) => ProcessingKeepsBacked(s, op);
    case OthersSell(_) =>
    case OthersSettle(_) =>
    case OthersRefund(_) =>
    case Recalculate(_, _, _) =>
    case LedgerMove(_) =>
    case EscrowMove(_) =>
  }

  predicate DisciplinedRun(s: State, ops: seq<Op>)
    decreases |ops|
  {
    ops != [] ==> (Attempt(s, ops[0]).Done? ==> Disciplined(s, ops[0])) && DisciplinedRun(After(s, ops[0]), ops[1..])
  }

  lemma {:induction false} RunKeepsBacked(s: State, ops: seq<Op>)
    requires Backed(s) && DisciplinedRun(s, ops)
    ensures Backed(Run(s, ops))
    decreases |ops|
  {
    if ops != [] {
      StepKeepsBackedIff(s, ops[0]);
      RunKeepsBacked(After(s, ops[0]), ops[1..]);
    }
  }

  /** In every disciplined run the three balances add up to what came in, and none of them is negative. */
  lemma RunConserves(s: State, ops: seq<Op>)
    requires Backed(s) && DisciplinedRun(s, ops)
    ensures var s' := Run(s, ops);
      && Backed(s')
      && Total(s') == Total(s) + TotalClaimed(s, ops)
      && s'.pending >= 0 && s'.available >= 0 && s'.withdrawn >= 0
  {
    RunKeepsBacked(s, ops);
    RunKeepsClaims(s, ops);
    StagedNotNegative(Run(s, ops).credits, 0);
  }

  lemma {:induction false} OneOpenRequest(requests: seq<Request>, r: nat)
    requires r < |requests| && IsOpen(requests[r])
    ensures requests[r].amount <= OpenSum(requests)
  {
    if r > 0 {
      OneOpenRequest(requests[1..], r - 1);
    }
  }

  // ---------------------------------------------------------------------------------------
  //  Money behind the withdrawals
  // ---------------------------------------------------------------------------------------

  /** The ledger holds what is available and what is locked, and perhaps more. */
  ghost predicate Funded(s: State) {
    s.available >= 0 && s.available + OpenSum(s.requests) <= s.ledgerNet
  }

  /** What the ledger holds beyond what open withdrawals have locked. */
  function Unlocked(s: State): int {
    s.ledgerNet - OpenSum(s.requests)
  }

  /**
   What a step may take: a settled refund nothing locked, a debit in the ledger nothing available or
   locked; and a recalculation may not call available what is locked.
   */
  predicate TakesNothingPromised(s: State, op: Op) {
    match op
    case SettledRefund(_, _, _, share) => share <= Unlocked(s)
    case LedgerMove(amount) => s.available <= Unlocked(s) + amount
    case Recalculate(ledgerSum, _, _) => ledgerSum <= Unlocked(s)
    case _ => true
  }

  /** What an accepted step adds to the money locked by withdrawals. */
  function Locked(s: State, op: Op): int
    requires Attempt(s, op).Done?
  {
    if op.Ask? then op.asked else if op.PayOut? || op.GiveBack? then 0 - s.requests[op.request].amount else 0
  }

  lemma OpenAfterStep(s: State, op: Op)
    requires Attempt(s, op).Done?
    ensures OpenSum(After(s, op).requests) == OpenSum(s.requests) + Locked(s, op)
  {
    match op
    case Ask(a, day, _) => RequestAppend(s.requests, Request(a, Waiting, day), day);
    case Hand(r) => RequestMoves(s.requests, r, Processing, 0);
    case PayOut(r) => RequestMoves(s.requests, r, Completed, 0);
    case GiveBack(r) => RequestMoves(s.requests, r, Returned, 0);
    case _ =>
  }

  /** What is available and locked stays funded exactly when the step is refused or takes nothing promised. */
  lemma StepKeepsFundedIff(s: State, op: Op)
    requires Funded(s)
    ensures Funded(After(s, op)) <==> (Attempt(s, op).Done? ==> TakesNothingPromised(s, op))
  {
    if Attempt(s, op).Done? {
      OpenAfterStep(s, op);
    }
  }

  /** The agreement of wallet and ledger is more delicate: it is lost by any move of money in the ledger alone. */
  lemma StepKeepsCoveredIff(s: State, op: Op)
    requires Covered(s)
    ensures Covered(After(s, op)) <==>
      (Attempt(s, op).Done? ==>
         match op
         case SettledRefund(_, _, _, share) => share <= s.available
         case Recalculate(ledgerSum, _, _) => ledgerSum == s.available
         case LedgerMove(_) => false
         case _ => true)
  {
    if Attempt(s, op).Done? {
      OpenAfterStep(s, op);
    }
  }

  predicate TakesNothingPromisedRun(s: State, ops: seq<Op>)
    decreases |ops|
  {
    ops != [] ==>
      && (Attempt(s, ops[0]).Done? ==> TakesNothingPromised(s, ops[0]))
      && TakesNothingPromisedRun(After(s, ops[0]), ops[1..])
  }

  lemma {:induction false} RunKeepsFunded(s: State, ops: seq<Op>)
    requires Funded(s) && TakesNothingPromisedRun(s, ops)
    ensures Funded(Run(s, ops))
    decreases |ops|
  {
    if ops != [] {
      StepKeepsFundedIff(s, ops[0]);
      RunKeepsFunded(After(s, ops[0]), ops[1..]);
    }
  }

  /** Pay out every open withdrawal from the r-th on, as far as the ledger lets it. */
  function PayAll(s: State, r: nat): (s': State)
    ensures |s'.requests| == |s.requests|
    decreases |s.requests| - r
  {
    if r >= |s.requests| then s else PayAll(After(s, PayOut(r)), r + 1)
  }

  ghost predicate NoneOpen(requests: seq<Request>, r: nat) {
    forall i :: r <= i < |requests| ==> !IsOpen(requests[i])
  }

  lemma {:induction false} OpenSumOfTail(requests: seq<Request>, r: nat)
    requires r < |requests|
    ensures OpenSum(requests[r..]) == (if IsOpen(requests[r]) then requests[r].amount else 0) + OpenSum(requests[r + 1..])
  {
    assert requests[r..][1..] == requests[r + 1..];
  }

  lemma {:induction false} PaidEarlierStays(s: State, r: nat, i: nat)
    requires i < r && i < |s.requests|
    ensures PayAll(s, r).requests[i] == s.requests[i]
    decreases |s.requests| - r
  {
    if r < |s.requests| {
      PaidEarlierStays(After(s, PayOut(r)), r + 1, i);
    }
  }

  /** The open withdrawals can all be paid out exactly when the ledger holds what they have locked. */
  lemma {:induction false} AllPaidIff(s: State, r: nat)
    requires s.ledgerNet >= 0 && r <= |s.requests|
    ensures NoneOpen(PayAll(s, r).requests, r) <==> OpenSum(s.requests[r..]) <= s.ledgerNet
    decreases |s.requests| - r
  {
    if r < |s.requests| {
      var s1 := After(s, PayOut(r));
      OpenSumOfTail(s.requests, r);
      assert s1.requests[r + 1..] == s.requests[r + 1..];
      AllPaidIff(s1, r + 1);
      PaidEarlierStays(s1, r + 1, r);
    }
  }

  /**
   As long as nothing promised is taken, whatever late sales and staged refunds there were, each open
   withdrawal can be paid out, and so can all of them together.
   */
  lemma PayOutNeverOverdraws(s: State, ops: seq<Op>)
    requires Funded(s) && TakesNothingPromisedRun(s, ops)
    ensures forall r :: 0 <= r < |Run(s, ops).requests| && IsOpen(Run(s, ops).requests[r]) ==>
      Attempt(Run(s, ops), PayOut(r)).Done?
    ensures NoneOpen(PayAll(Run(s, ops), 0).requests, 0)
  {
    var s' := Run(s, ops);
    RunKeepsFunded(s, ops);
    forall r | 0 <= r < |s'.requests| && IsOpen(s'.requests[r]) ensures Attempt(s', PayOut(r)).Done? {
      OneOpenRequest(s'.requests, r);
    }
    assert s'.requests[0..] == s'.requests;
    AllPaidIff(s', 0);
  }

  // ---------------------------------------------------------------------------------------
  //  Recalculation
  // ---------------------------------------------------------------------------------------

  /** The recalculation that read the entries in one state, the credits in the next, the withdrawals in a third. */
  function RecalculateFrom(entries: State, credits: State, withdrawals: State): Op
    requires entries.ledgerNet >= 0
  {
    Recalculate(entries.ledgerNet, StagedSum(credits.credits), CompletedSum(withdrawals.requests))
  }

  /** A recalculation that nothing disturbs rebuilds the balances from the rows. */
  lemma UndisturbedRecalculation(s: State)
    requires s.ledgerNet >= 0
    ensures After(s, RecalculateFrom(s, s, s)) == Rebuilt(s)
  {
  }

  /** With no withdrawal open it backs the balances again, whatever was moved in the ledger before. */
  lemma RecalculationBacks(s: State)
    requires s.ledgerNet >= 0 && SharesNotNegative(s.credits)
    ensures Backed(Rebuilt(s)) <==> OpenSum(s.requests) == 0
  {
  }

  /**
   With withdrawals open it makes their money available a second time: what the rows promise rises by
   what is locked, a further request is accepted up to all the ledger holds, and afterwards the open
   withdrawals can all be paid out exactly when the ledger holds both.
   */
  lemma RecalculationPromisesTwice(s: State, amount: nat, day: nat)
    requires Backed(s)
    ensures Claims(Rebuilt(s)) == Claims(s) + OpenSum(s.requests)
    ensures var asked := Attempt(Rebuilt(s), Ask(amount, day, true));
      && (asked.Done? <==>
           MIN_WITHDRAWAL <= amount <= s.available + OpenSum(s.requests) && AskedSince(s.requests, day) + amount <= MAX_PER_DAY)
      && (asked.Done? ==>
           (NoneOpen(PayAll(asked.state, 0).requests, 0) <==> amount <= s.available))
  {
    var asked := Attempt(Rebuilt(s), Ask(amount, day, true));
    if asked.Done? {
      OpenAfterStep(Rebuilt(s), Ask(amount, day, true));
      assert asked.state.requests[0..] == asked.state.requests;
      AllPaidIff(asked.state, 0);
    }
  }

  const ONE_SETTLED := State(0, 10000, 0, [Credit(12000, 1500, 500, Settled)], [], 10000, 12000, 0, 12000, 0)
  const ONE_ASKED := ONE_SETTLED.(pending := 10000, available := 0, requests := [Request(10000, Waiting, 0)])

  const BOTH_ASKED := ONE_ASKED.(requests := [Request(10000, Waiting, 0), Request(10000, Waiting, 0)])

  const ONE_PAID := BOTH_ASKED.(pending := 0, withdrawn := 10000, ledgerNet := 0,
                                requests := [Request(10000, Completed, 0), Request(10000, Waiting, 0)])

  lemma OneSaleWithdrawn()
    ensures After(After(After(NEW_WALLET, Sale(12000, 1500, 500)), SettleOne(0)), Ask(10000, 0, true)) == ONE_ASKED
  {
    var sold := After(NEW_WALLET, Sale(12000, 1500, 500));
    assert sold.credits == [Credit(12000, 1500, 500, Staged)];
    assert After(sold, SettleOne(0)) == ONE_SETTLED;
    assert After(ONE_SETTLED, Ask(10000, 0, true)).requests == ONE_ASKED.requests;
  }

  /** One sale of 120.00, withdrawn twice: both requests are accepted, and the second cannot be paid out. */
  lemma WithdrawnTwice()
    ensures After(After(After(NEW_WALLET, Sale(12000, 1500, 500)), SettleOne(0)), Ask(10000, 0, true)) == ONE_ASKED
    ensures Attempt(Rebuilt(ONE_ASKED), Ask(10000, 0, true)) == Done(BOTH_ASKED)
    ensures Attempt(BOTH_ASKED, PayOut(0)) == Done(ONE_PAID) && Attempt(ONE_PAID, PayOut(1)) == Refused(Conflict)
  {
    OneSaleWithdrawn();
    AskedAgain();
    OnePaidOut();
  }

  lemma OnePaidOut()
    ensures Attempt(BOTH_ASKED, PayOut(0)) == Done(ONE_PAID) && Attempt(ONE_PAID, PayOut(1)) == Refused(Conflict)
  {
    assert BOTH_ASKED.requests[0 := Request(10000, Completed, 0)] == ONE_PAID.requests;
  }

  lemma AskedAgain()
    ensures Attempt(Rebuilt(ONE_ASKED), Ask(10000, 0, true)) == Done(BOTH_ASKED)
  {
    assert ONE_SETTLED.credits[1..] == [] && StagedSum(ONE_SETTLED.credits) == 0;
    assert ONE_ASKED.requests[1..] == [];
    assert AskedSince(ONE_ASKED.requests, 0) == 10000 && CompletedSum(ONE_ASKED.requests) == 0;
    assert Rebuilt(ONE_ASKED) == ONE_ASKED.(pending := 0, available := 10000);
    assert ONE_ASKED.requests + [Request(10000, Waiting, 0)] == BOTH_ASKED.requests;
  }

  /** After a disciplined run a rebuild of the balances finds what is kept exactly when no withdrawal is open. */
  lemma RebuildAgreesIff(s: State, ops: seq<Op>)
    requires Backed(s) && DisciplinedRun(s, ops)
    ensures Rebuilt(Run(s, ops)) == Run(s, ops) <==> OpenSum(Run(s, ops).requests) == 0
  {
    RunKeepsBacked(s, ops);
  }

  // ---------------------------------------------------------------------------------------
  //  Credits that outlive their sale
  // ---------------------------------------------------------------------------------------

  /** Settling a credit that the ledger takes conserves the wallet exactly when the pending balance still holds it. */
  lemma SettleConservesIff(s: State, k: nat)
    requires k < |s.credits| && s.credits[k].status == Staged && s.pending >= 0
    ensures Total(Settle(s, k)) == Total(s) <==> !Postable(s, s.credits[k]) || Share(s.credits[k]) <= s.pending
  {
  }

  /**
   The credit row of a late sale is paid at its settlement, although the buyer has the money back,
   exactly when its parts are positive and other sales have left enough in escrow.
   */
  lemma LateSaleIsPaidIff(s: State, gross: nat, fee: nat, tax: nat)
    requires gross > 0
    ensures var s1 := After(s, LateSale(gross, fee, tax));
      var s2 := After(s1, SettleOne(|s.credits|));
      && Escrow(s1) == Escrow(s) && Total(s1) == Total(s)
      && (s2 != s1 <==> fee > 0 && tax > 0 && fee + tax < gross && gross <= Escrow(s))
      && (s2 != s1 ==> s2.available == s.available + gross - fee - tax)
  {
    var s1 := After(s, LateSale(gross, fee, tax));
    assert s1.credits[|s.credits|] == Credit(gross, fee, tax, Staged);
  }

  /**
   The credit row of a staged sale that has been refunded in part is paid in full at its settlement,
   exactly when the escrow, less the refund, still covers the whole sale.
   */
  lemma RefundedSaleIsPaidIff(s: State, k: nat, amount: nat, share: int)
    requires k < |s.credits| && s.credits[k].status == Staged && Attempt(s, StagedRefund(amount, share)).Done?
    ensures var s1 := After(s, StagedRefund(amount, share));
      var s2 := After(s1, SettleOne(k));
      var c := s.credits[k];
      && (s2 != s1 <==> c.fee > 0 && c.tax > 0 && Share(c) > 0 && c.gross + amount <= Escrow(s))
      && (s2 != s1 ==> s2.available == s.available + Share(c))
  {
    var s1 := After(s, StagedRefund(amount, share));
    assert s1.credits == s.credits;
  }

  /** A late sale whose credit is paid takes its gross out of escrow. */
  lemma PaidLateSale(s: State, gross: nat, fee: nat, tax: nat)
    requires fee > 0 && tax > 0 && fee + tax < gross <= Escrow(s)
    ensures var s2 := After(After(s, LateSale(gross, fee, tax)), SettleOne(|s.credits|));
      && s2.available == s.available + gross - fee - tax
      && s2.settled == s.settled + gross && Escrow(s2) == Escrow(s) - gross
  {
    var s1 := After(s, LateSale(gross, fee, tax));
    assert s1.credits[|s.credits|] == Credit(gross, fee, tax, Staged) && Escrow(s1) == Escrow(s);
  }

  /** With an empty escrow a late sale alone is not paid. */
  lemma LateSaleAloneIsNotPaid(s: State, gross: nat, fee: nat, tax: nat)
    requires Escrow(s) == 0
    ensures After(After(s, LateSale(gross, fee, tax)), SettleOne(|s.credits|)) == After(s, LateSale(gross, fee, tax))
  {
    if gross > 0 {
      LateSaleIsPaidIff(s, gross, fee, tax);
    }
  }

  /** Once another organizer has sold as much, it is, out of that organizer's money: their own settlement is then refused. */
  lemma LateSaleTakesAnothersMoney(s: State, gross: nat, fee: nat, tax: nat)
    requires Escrow(s) == 0 && fee > 0 && tax > 0 && fee + tax < gross
    ensures var s1 := After(s, OthersSell(gross));
      var s3 := After(After(s1, LateSale(gross, fee, tax)), SettleOne(|s1.credits|));
      && s3.available == s.available + gross - fee - tax
      && s3.settled == s.settled + gross
      && After(s3, OthersSettle(gross)) == s3
  {
    var s1 := After(s, OthersSell(gross));
    assert Escrow(s1) == gross;
    PaidLateSale(s1, gross, fee, tax);
  }

  // ---------------------------------------------------------------------------------------
  //  A settlement run
  // ---------------------------------------------------------------------------------------

  /** A settlement run: every credit from k on. */
  function SettleFrom(s: State, k: nat): (s': State)
    ensures |s'.credits| == |s.credits|
    decreases |s.credits| - k
  {
    if k >= |s.credits| then s else SettleFrom(Settle(s, k), k + 1)
  }

  /**
   A settlement run pays out exactly the shares of the credits it settles, and creates exactly what
   they exceed the pending balance by.
   */
  lemma {:induction false} SettlementCreates(s: State, k: nat)
    ensures var s' := SettleFrom(s, k);
      var paid := StagedSum(s.credits) - StagedSum(s'.credits);
      && paid >= 0 && s'.available == s.available + paid && s'.ledgerNet == s.ledgerNet + paid
      && s'.pending == (if paid == 0 then s.pending else Max(0, s.pending - paid))
      && Total(s') == Total(s) + (if paid == 0 then 0 else Max(0, paid - s.pending))
    decreases |s.credits| - k
  {
    if k < |s.credits| {
      if s.credits[k].status == Staged && Postable(s, s.credits[k]) {
        SettleMovesOne(s, k);
      }
      SettlementCreates(Settle(s, k), k + 1);
    }
  }

  /** Gross of the credits from k on that are still staged. */
  function StagedGross(credits: seq<Credit>, k: nat): nat
    decreases |credits| - k
  {
    if k >= |credits| then 0
    else (if credits[k].status == Staged then credits[k].gross else 0) + StagedGross(credits, k + 1)
  }

  ghost predicate NoneStaged(credits: seq<Credit>, k: nat) {
    forall j :: k <= j < |credits| ==> credits[j].status == Settled
  }

  /** Every staged credit from k on has positive parts. */
  ghost predicate PartsPositive(credits: seq<Credit>, k: nat) {
    forall j :: k <= j < |credits| && credits[j].status == Staged ==>
      credits[j].fee > 0 && credits[j].tax > 0 && Share(credits[j]) > 0
  }

  lemma {:induction false} LaterGross(a: seq<Credit>, b: seq<Credit>, k: nat)
    requires |a| == |b| && forall j :: k <= j < |a| ==> a[j] == b[j]
    ensures StagedGross(a, k) == StagedGross(b, k)
    decreases |a| - k
  {
    if k < |a| {
      LaterGross(a, b, k + 1);
    }
  }

  lemma {:induction false} EarlierUntouched(s: State, k: nat, j: nat)
    requires j < k && j < |s.credits|
    ensures SettleFrom(s, k).credits[j] == s.credits[j]
    decreases |s.credits| - k
  {
    if k < |s.credits| {
      EarlierUntouched(Settle(s, k), k + 1, j);
    }
  }

  /** A settlement run leaves nothing staged exactly when the escrow covers the gross of everything staged. */
  lemma {:induction false} SettlementPaysAllIff(s: State, k: nat)
    requires PartsPositive(s.credits, k) && Escrow(s) >= 0
    ensures NoneStaged(SettleFrom(s, k).credits, k) <==> StagedGross(s.credits, k) <= Escrow(s)
    decreases |s.credits| - k
  {
    if k < |s.credits| {
      var s1 := Settle(s, k);
      LaterGross(s.credits, s1.credits, k + 1);
      SettlementPaysAllIff(s1, k + 1);
      EarlierUntouched(s1, k + 1, k);
    }
  }

  /**
   What a settlement run has done: it paid out what stopped being staged, took its gross from escrow
   and no more than was there, touched nothing else, and, if every part is positive, left nothing
   staged exactly when the escrow covered it all.
   */
  ghost predicate RunSettles(s: State, s': State, paid: int) {
    && paid == StagedSum(s.credits) - StagedSum(s'.credits) >= 0
    && s'.available == s.available + paid && s'.ledgerNet == s.ledgerNet + paid
    && Total(s') == Total(s) + (if paid == 0 then 0 else Max(0, paid - s.pending))
    && s'.withdrawn == s.withdrawn && s'.requests == s.requests
    && Escrow(s') == Escrow(s) - (StagedGross(s.credits, 0) - StagedGross(s'.credits, 0)) && Escrow(s') >= 0
    && (PartsPositive(s.credits, 0) ==> (NoneStaged(s'.credits, 0) <==> StagedGross(s.credits, 0) <= Escrow(s)))
  }

  lemma {:induction false} SettlementTakesItsGross(s: State, k: nat)
    requires Escrow(s) >= 0
    ensures var s' := SettleFrom(s, k);
      && Escrow(s') == Escrow(s) - (StagedGross(s.credits, k) - StagedGross(s'.credits, k)) && Escrow(s') >= 0
      && s'.withdrawn == s.withdrawn && s'.requests == s.requests
    decreases |s.credits| - k
  {
    if k < |s.credits| {
      var s1 := Settle(s, k);
      LaterGross(s.credits, s1.credits, k + 1);
      SettlementTakesItsGross(s1, k + 1);
      EarlierUntouched(s1, k + 1, k);
    }
  }

  lemma SettlementRunSettles(s: State)
    requires Escrow(s) >= 0
    ensures RunSettles(s, SettleFrom(s, 0), SettleFrom(s, 0).available - s.available)
  {
    SettlementCreates(s, 0);
    SettlementTakesItsGross(s, 0);
    if PartsPositive(s.credits, 0) {
      SettlementPaysAllIff(s, 0);
    }
  }

  // ---------------------------------------------------------------------------------------
  //  Who may withdraw, and what
  // ---------------------------------------------------------------------------------------

  /**
   A withdrawal is accepted exactly when the organizer is verified, it is at least the minimum, within
   what is available, and within what the day still allows. It moves that amount from available to
   pending and appends one request that waits; nothing else changes.
   */
  lemma WithdrawalAcceptedIff(s: State, amount: int, day: nat, verified: bool)
    ensures Attempt(s, Ask(amount, day, verified)).Done? <==>
      verified && 1000 <= amount <= s.available && AskedSince(s.requests, day) + amount <= 5000000
    ensures Attempt(s, Ask(amount, day, verified)).Done? ==>
      After(s, Ask(amount, day, verified))
        == s.(available := s.available - amount, pending := s.pending + amount, requests := s.requests + [Request(amount, Waiting, day)])
    ensures Attempt(s, Ask(amount, day, verified)).Refused? ==>
      Attempt(s, Ask(amount, day, verified)).error == if 1000 <= amount <= s.available && !verified then Forbidden else BadRequest
  {
  }

  /** A request can be handed on or given back exactly while it is open, and paid out if the ledger holds it besides. */
  lemma ProcessingAcceptedIff(s: State, r: nat, op: Op)
    requires op == Hand(r) || op == GiveBack(r) || op == PayOut(r)
    ensures Attempt(s, op) == Refused(NotFound) <==> r >= |s.requests|
    ensures Attempt(s, op) == Refused(BadRequest) <==> r < |s.requests| && (s.requests[r].status == Completed || s.requests[r].status == Returned)
    ensures Attempt(s, op) == Refused(Conflict) <==>
      op.PayOut? && r < |s.requests| && IsOpen(s.requests[r]) && s.requests[r].amount > s.ledgerNet
    ensures Attempt(s, op).Done? ==>
      After(s, op).requests == s.requests[r := s.requests[r].(status := if op.Hand? then Processing else if op.PayOut? then Completed else Returned)]
  {
  }

  ghost predicate NoneVerified(ops: seq<Op>) {
    forall k :: 0 <= k < |ops| && ops[k].Ask? ==> !ops[k].verified
  }

  lemma {:induction false} OnlyAskingOpens(requests: seq<Request>, moved: seq<Request>)
    requires |moved| == |requests| && forall r :: 0 <= r < |requests| ==>
      moved[r].amount == requests[r].amount && (IsOpen(moved[r]) ==> IsOpen(requests[r]))
    ensures OpenSum(moved) <= OpenSum(requests)
  {
    if requests != [] {
      OnlyAskingOpens(requests[1..], moved[1..]);
    }
  }

  /** As long as the organizer is not verified, no run opens a withdrawal or locks any money. */
  lemma {:induction false} UnverifiedNeverWithdraws(s: State, ops: seq<Op>)
    requires NoneVerified(ops)
    ensures |Run(s, ops).requests| == |s.requests| && OpenSum(Run(s, ops).requests) <= OpenSum(s.requests)
    decreases |ops|
  {
    if ops != [] {
      OnlyAskingOpens(s.requests, After(s, ops[0]).requests);
      UnverifiedNeverWithdraws(After(s, ops[0]), ops[1..]);
    }
  }

  // ---------------------------------------------------------------------------------------
  //  The daily limit
  // ---------------------------------------------------------------------------------------

  function AskedOn(requests: seq<Request>, day: nat): nat {
    if requests == [] then 0 else (if requests[0].day == day then requests[0].amount else 0) + AskedOn(requests[1..], day)
  }

  lemma {:induction false} AskedOnBelow(requests: seq<Request>, day: nat)
    ensures AskedOn(requests, day) <= AskedSince(requests, day)
  {
    if requests != [] {
      AskedOnBelow(requests[1..], day);
    }
  }

  lemma {:induction false} AskedOnAppend(requests: seq<Request>, r: Request, day: nat)
    ensures AskedOn(requests + [r], day) == AskedOn(requests, day) + if r.day == day then r.amount else 0
  {
    if requests == [] {
      assert (requests + [r])[1..] == [];
    } else {
      assert (requests + [r])[1..] == requests[1..] + [r];
      AskedOnAppend(requests[1..], r, day);
    }
  }

  lemma {:induction false} AskedOnMoves(requests: seq<Request>, k: nat, status: RequestStatus, day: nat)
    requires k < |requests|
    ensures AskedOn(requests[k := requests[k].(status := status)], day) == AskedOn(requests, day)
  {
    var moved := requests[k := requests[k].(status := status)];
    if k == 0 {
      assert moved[1..] == requests[1..];
    } else {
      assert moved[1..] == requests[1..][k - 1 := requests[k].(status := status)];
      AskedOnMoves(requests[1..], k - 1, status, day);
    }
  }

  lemma StepKeepsLimit(s: State, op: Op, day: nat)
    requires AskedOn(s.requests, day) <= MAX_PER_DAY
    ensures AskedOn(After(s, op).requests, day) <= MAX_PER_DAY
  {
    if Attempt(s, op).Done? {
      match op
      case Ask(a, d, _) =>
        AskedOnBelow(s.requests, day);
        AskedOnAppend(s.requests, Request(a, Waiting, d), day);
      case Hand(r) => AskedOnMoves(s.requests, r, Processing, day);
      case PayOut(r) => AskedOnMoves(s.requests, r, Completed, day);
      case GiveBack(r) => AskedOnMoves(s.requests, r, Returned, day);
      case _ =>
    }
  }

  /** In every run no day's withdrawal requests exceed the daily limit. */
  lemma {:induction false} RunKeepsLimit(s: State, ops: seq<Op>, day: nat)
    requires AskedOn(s.requests, day) <= MAX_PER_DAY
    ensures AskedOn(Run(s, ops).requests, day) <= MAX_PER_DAY
    decreases |ops|
  {
    if ops != [] {
      StepKeepsLimit(s, ops[0], day);
      RunKeepsLimit(After(s, ops[0]), ops[1..], day);
    }
  }
}
