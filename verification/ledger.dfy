/**
 The double-entry ledger of one tenant: postings, the running balances kept beside the log, and
 the hash that links each row to an earlier one. Amounts are in minor units.
 */
module Ledger {
  import opened Common

  datatype Kind =
    | PlatformCash | CustomerCash | CustomerLiability | Escrow | OrganizerPending | OrganizerAvailable
    | OrganizerPayable | PlatformFeeRevenue | GatewayFeeExpense | TaxPayable | RefundLiability
    | ChargebackReserve | Reserve | SettlementClearing | WithdrawalClearing | SystemAdjustment
    | FraudReserve | SuspenseAccount
    | PlatformEscrow | PlatformRevenue | OrganizerBalance | CustomerRefunds | PaymentGatewayClearing

  /** An organizer's or customer's account carries its owner; the platform's accounts do not. */
  datatype Account = Account(kind: Kind, owner: Option<nat>)

  datatype Direction = Debit | Credit
  datatype Entry = Entry(account: Account, amount: int, direction: Direction)
  datatype Posting = Posting(transactionType: string, amount: int, reference: nat, entries: seq<Entry>)

  /** A digest is a value of its own: equal digests come from equal inputs. */
  datatype Hash = Genesis | Of(previous: Hash, posting: Posting)

  type Time = int

  /** createdAt is the time at which the writing transaction began. */
  datatype Row = Row(posting: Posting, previous: Hash, current: Hash, createdAt: Time)

  datatype Balance = Balance(debit: int, credit: int)

  const ZERO := Balance(0, 0)

  /** The running balances: the accounts in order of creation, each with its sums. */
  datatype Projection = Projection(accounts: seq<Account>, balances: map<Account, Balance>)

  datatype Books = Books(rows: seq<Row>, projection: Projection)
  datatype Update = Applied(projection: Projection) | Overdrawn
  datatype Outcome = Posted(books: Books) | Declined(error: Error)

  /** The kinds whose credit balance may never go below zero. */
  predicate Protected(k: Kind) {
    k.OrganizerBalance? || k.OrganizerAvailable? || k.PlatformEscrow? || k.Escrow?
  }

  function BalanceOf(p: Projection, a: Account): Balance {
    if a in p.balances then p.balances[a] else ZERO
  }

  function Side(b: Balance, d: Direction): int {
    if d == Debit then b.debit else b.credit
  }

  function Net(p: Projection, a: Account): int {
    BalanceOf(p, a).credit - BalanceOf(p, a).debit
  }

  // ---------------------------------------------------------------------------------------
  //  Sums over entries and over the log
  // ---------------------------------------------------------------------------------------

  function On(e: Entry, d: Direction): int {
    if e.direction == d then e.amount else 0
  }

  function OnAccount(e: Entry, a: Account, d: Direction): int {
    if e.account == a then On(e, d) else 0
  }

  function Total(entries: seq<Entry>, d: Direction): int {
    if entries == [] then 0 else On(entries[0], d) + Total(entries[1..], d)
  }

  function Sum(entries: seq<Entry>, a: Account, d: Direction): int {
    if entries == [] then 0
    else OnAccount(entries[0], a, d) + Sum(entries[1..], a, d)
  }

  function LogTotal(rows: seq<Row>, d: Direction): int {
    if rows == [] then 0 else Total(rows[0].posting.entries, d) + LogTotal(rows[1..], d)
  }

  /** What a replay of the log finds on one side of an account. */
  function Replay(rows: seq<Row>, a: Account, d: Direction): int {
    if rows == [] then 0 else Sum(rows[0].posting.entries, a, d) + Replay(rows[1..], a, d)
  }

  lemma {:induction false} ReplayAppend(rows: seq<Row>, row: Row, a: Account, d: Direction)
    ensures Replay(rows + [row], a, d) == Replay(rows, a, d) + Sum(row.posting.entries, a, d)
  {
    if rows == [] {
      assert (rows + [row])[1..] == [];
    } else {
      assert (rows + [row])[1..] == rows[1..] + [row];
      ReplayAppend(rows[1..], row, a, d);
    }
  }

  lemma {:induction false} LogTotalAppend(rows: seq<Row>, row: Row, d: Direction)
    ensures LogTotal(rows + [row], d) == LogTotal(rows, d) + Total(row.posting.entries, d)
  {
    if rows == [] {
      assert (rows + [row])[1..] == [];
    } else {
      assert (rows + [row])[1..] == rows[1..] + [row];
      LogTotalAppend(rows[1..], row, d);
    }
  }

  lemma {:induction false} SumSplit(entries: seq<Entry>, k: nat, a: Account, d: Direction)
    requires k < |entries|
    ensures Sum(entries[..k + 1], a, d) == Sum(entries[..k], a, d) + OnAccount(entries[k], a, d)
  {
    if k == 0 {
      assert entries[..1][1..] == [];
    } else {
      assert entries[..k + 1][1..] == entries[1..][..k] && entries[..k][1..] == entries[1..][..k - 1];
      SumSplit(entries[1..], k - 1, a, d);
    }
  }

  lemma {:induction false} TotalSplit(entries: seq<Entry>, k: nat, d: Direction)
    requires k < |entries|
    ensures Total(entries[..k + 1], d) == Total(entries[..k], d) + On(entries[k], d)
  {
    if k == 0 {
      assert entries[..1][1..] == [];
    } else {
      assert entries[..k + 1][1..] == entries[1..][..k] && entries[..k][1..] == entries[1..][..k - 1];
      TotalSplit(entries[1..], k - 1, d);
    }
  }

  // ---------------------------------------------------------------------------------------
  //  Posting
  // ---------------------------------------------------------------------------------------

  /** What the builder accepts: a positive amount that both sides of the entries add up to. */
  predicate WellFormed(p: Posting) {
    && p.amount > 0
    && p.entries != []
    && Total(p.entries, Debit) == Total(p.entries, Credit) == p.amount
  }

  /** What the entry table's constraint accepts. */
  predicate AllPositive(entries: seq<Entry>) {
    forall k :: 0 <= k < |entries| ==> entries[k].amount > 0
  }

  function Raised(b: Balance, e: Entry): Balance {
    if e.direction == Debit then b.(debit := b.debit + e.amount) else b.(credit := b.credit + e.amount)
  }

  function ApplyEntry(p: Projection, e: Entry): Update {
    var b := Raised(BalanceOf(p, e.account), e);
    if Protected(e.account.kind) && b.credit - b.debit < 0 then Overdrawn
    else Applied(Projection(if e.account in p.accounts then p.accounts else p.accounts + [e.account],
                            p.balances[e.account := b]))
  }

  function ApplyEntries(p: Projection, entries: seq<Entry>): Update
    decreases |entries|
  {
    if entries == [] then Applied(p)
    else
      var u := ApplyEntry(p, entries[0]);
      if u.Overdrawn? then Overdrawn else ApplyEntries(u.projection, entries[1..])
  }

  /** The row with the latest createdAt, which a posting takes for the head of the chain. */
  function Latest(rows: seq<Row>): (i: nat)
    requires rows != []
    ensures i < |rows|
  {
    if |rows| == 1 then 0
    else
      var i := Latest(rows[..|rows| - 1]);
      if rows[|rows| - 1].createdAt > rows[i].createdAt then |rows| - 1 else i
  }

  lemma {:induction false} LatestIsLatest(rows: seq<Row>, j: nat)
    requires j < |rows|
    ensures rows[j].createdAt <= rows[Latest(rows)].createdAt
  {
    if |rows| > 1 && j < |rows| - 1 {
      LatestIsLatest(rows[..|rows| - 1], j);
    }
  }

  function Head(rows: seq<Row>): Hash {
    if rows == [] then Genesis else rows[Latest(rows)].current
  }

  function NextRow(head: Hash, p: Posting, startedAt: Time): Row {
    Row(p, head, Of(head, p), startedAt)
  }

  /** Post a transaction: one log row and its effect on the running balances, or nothing. */
  function Post(b: Books, p: Posting, startedAt: Time): Outcome {
    if !WellFormed(p) then Declined(BadRequest)
    else if !AllPositive(p.entries) then Declined(CheckViolation)
    else
      var u := ApplyEntries(b.projection, p.entries);
      if u.Overdrawn? then Declined(Conflict)
      else Posted(Books(b.rows + [NextRow(Head(b.rows), p, startedAt)], u.projection))
  }

  const EMPTY := Books([], Projection([], map[]))

  // ---------------------------------------------------------------------------------------
  //  Journal templates
  // ---------------------------------------------------------------------------------------

  const CLEARING := Account(PaymentGatewayClearing, None)
  const ESCROW := Account(PlatformEscrow, None)
  const REVENUE := Account(PlatformRevenue, None)
  const TAX := Account(TaxPayable, None)

  function Organizer(id: nat): Account {
    Account(OrganizerBalance, Some(id))
  }

  function Capture(payment: nat, amount: int): Posting {
    Posting("TICKET_PURCHASE_CAPTURE", amount, payment, [Entry(CLEARING, amount, Debit), Entry(ESCROW, amount, Credit)])
  }

  function Settlement(run: nat, organizer: nat, gross: int, fee: int, tax: int, net: int): Posting {
    Posting("ORGANIZER_SETTLEMENT", gross, run,
            [Entry(ESCROW, gross, Debit), Entry(REVENUE, fee, Credit), Entry(TAX, tax, Credit), Entry(Organizer(organizer), net, Credit)])
  }

  function EscrowRefund(refund: nat, amount: int): Posting {
    Posting("TICKET_PURCHASE_REFUND_ESCROW", amount, refund, [Entry(ESCROW, amount, Debit), Entry(CLEARING, amount, Credit)])
  }

  function SettledRefund(refund: nat, organizer: nat, amount: int, fee: int, tax: int, net: int): Posting {
    Posting("TICKET_PURCHASE_REFUND_SETTLED", amount, refund,
            [Entry(Organizer(organizer), net, Debit), Entry(REVENUE, fee, Debit), Entry(TAX, tax, Debit), Entry(CLEARING, amount, Credit)])
  }

  function Withdrawal(request: nat, organizer: nat, amount: int): Posting {
    Posting("ORGANIZER_WITHDRAWAL", amount, request, [Entry(Organizer(organizer), amount, Debit), Entry(CLEARING, amount, Credit)])
  }

  /** Manual operations, holds, disputes and changes of bookings move an amount from one account to another. */
  function Transfer(transactionType: string, reference: nat, from: Account, to: Account, amount: int): Posting {
    Posting(transactionType, amount, reference, [Entry(from, amount, Debit), Entry(to, amount, Credit)])
  }
}
