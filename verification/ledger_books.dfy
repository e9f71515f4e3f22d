/**
 What every run of postings keeps: the running balances are a replay of the log, debits equal
 credits, and protected accounts are never overdrawn. Reversals restore every account.
 */
module LedgerBooks {
  import opened Common
  import opened Ledger

  ghost predicate NoRepeats(accounts: seq<Account>) {
    forall i, j :: 0 <= i < j < |accounts| ==> accounts[i] != accounts[j]
  }

  ghost predicate Listed(p: Projection) {
    NoRepeats(p.accounts) && forall a :: a in p.accounts <==> a in p.balances
  }

  ghost predicate Solvent(p: Projection) {
    forall a: Account :: Protected(a.kind) ==> Net(p, a) >= 0
  }

  /** The running balances are what a replay of the log finds. */
  ghost predicate Replayed(b: Books) {
    forall a :: BalanceOf(b.projection, a) == Balance(Replay(b.rows, a, Debit), Replay(b.rows, a, Credit))
  }

  ghost predicate RowsWellFormed(rows: seq<Row>) {
    forall i :: 0 <= i < |rows| ==> WellFormed(rows[i].posting) && AllPositive(rows[i].posting.entries)
  }

  ghost predicate Sound(b: Books) {
    Listed(b.projection) && Solvent(b.projection) && Replayed(b) && RowsWellFormed(b.rows)
  }

  // ---------------------------------------------------------------------------------------
  //  One posting
  // ---------------------------------------------------------------------------------------

  /** Applying entries raises every account's sums by exactly its entries. */
  lemma {:induction false} EntriesRaiseSums(p: Projection, entries: seq<Entry>, a: Account)
    requires ApplyEntries(p, entries).Applied?
    ensures BalanceOf(ApplyEntries(p, entries).projection, a)
         == Balance(BalanceOf(p, a).debit + Sum(entries, a, Debit), BalanceOf(p, a).credit + Sum(entries, a, Credit))
    decreases |entries|
  {
    if entries != [] {
      EntriesRaiseSums(ApplyEntry(p, entries[0]).projection, entries[1..], a);
    }
  }

  lemma {:induction false} EntriesKeepListedAndSolvent(p: Projection, entries: seq<Entry>)
    requires Listed(p) && Solvent(p) && ApplyEntries(p, entries).Applied?
    ensures Listed(ApplyEntries(p, entries).projection) && Solvent(ApplyEntries(p, entries).projection)
    decreases |entries|
  {
    if entries != [] {
      var p' := ApplyEntry(p, entries[0]).projection;
      assert Listed(p') && Solvent(p');
      EntriesKeepListedAndSolvent(p', entries[1..]);
    }
  }

  /** Whatever is posted, accepted or not, the books stay sound. */
  lemma PostKeepsSound(b: Books, p: Posting, startedAt: Time)
    requires Sound(b) && Post(b, p, startedAt).Posted?
    ensures Sound(Post(b, p, startedAt).books)
  {
    var b' := Post(b, p, startedAt).books;
    EntriesKeepListedAndSolvent(b.projection, p.entries);
    forall a ensures BalanceOf(b'.projection, a) == Balance(Replay(b'.rows, a, Debit), Replay(b'.rows, a, Credit)) {
      EntriesRaiseSums(b.projection, p.entries, a);
      ReplayAppend(b.rows, NextRow(Head(b.rows), p, startedAt), a, Debit);
      ReplayAppend(b.rows, NextRow(Head(b.rows), p, startedAt), a, Credit);
    }
  }

  // ---------------------------------------------------------------------------------------
  //  Runs
  // ---------------------------------------------------------------------------------------

  datatype Request = Request(posting: Posting, startedAt: Time)

  /** Post a list of requests in order; the ones that are declined leave no trace. */
  function Run(b: Books, requests: seq<Request>): Books
    decreases |requests|
  {
    if requests == [] then b
    else
      var r := Post(b, requests[0].posting, requests[0].startedAt);
      Run(if r.Posted? then r.books else b, requests[1..])
  }

  /** After any run of postings the running balances are a replay of the log and no protected account is overdrawn. */
  lemma {:induction false} RunKeepsSound(b: Books, requests: seq<Request>)
    requires Sound(b)
    ensures Sound(Run(b, requests))
    decreases |requests|
  {
    if requests != [] {
      var r := Post(b, requests[0].posting, requests[0].startedAt);
      if r.Posted? {
        PostKeepsSound(b, requests[0].posting, requests[0].startedAt);
        RunKeepsSound(r.books, requests[1..]);
      } else {
        RunKeepsSound(b, requests[1..]);
      }
    }
  }

  // ---------------------------------------------------------------------------------------
  //  Trial balance
  // ---------------------------------------------------------------------------------------

  /** The trial balance adds up one side of the listed accounts. */
  function TrialSum(p: Projection, accounts: seq<Account>, d: Direction): int {
    if accounts == [] then 0 else Side(BalanceOf(p, accounts[0]), d) + TrialSum(p, accounts[1..], d)
  }

  lemma {:induction false} TrialSumUpdate(p: Projection, q: Projection, accounts: seq<Account>, a: Account, d: Direction)
    requires NoRepeats(accounts)
    requires forall x :: x != a ==> BalanceOf(q, x) == BalanceOf(p, x)
    ensures TrialSum(q, accounts, d)
         == TrialSum(p, accounts, d) + if a in accounts then Side(BalanceOf(q, a), d) - Side(BalanceOf(p, a), d) else 0
  {
    if accounts != [] {
      TrialSumUpdate(p, q, accounts[1..], a, d);
      assert a in accounts <==> a == accounts[0] || a in accounts[1..];
    }
  }

  lemma {:induction false} TrialSumAppend(p: Projection, accounts: seq<Account>, a: Account, d: Direction)
    ensures TrialSum(p, accounts + [a], d) == TrialSum(p, accounts, d) + Side(BalanceOf(p, a), d)
  {
    if accounts == [] {
      assert (accounts + [a])[1..] == [];
    } else {
      assert (accounts + [a])[1..] == accounts[1..] + [a];
      TrialSumAppend(p, accounts[1..], a, d);
    }
  }

  lemma EntryRaisesTrial(p: Projection, e: Entry, d: Direction)
    requires Listed(p) && ApplyEntry(p, e).Applied?
    ensures var q := ApplyEntry(p, e).projection;
      TrialSum(q, q.accounts, d) == TrialSum(p, p.accounts, d) + On(e, d)
  {
    var q := ApplyEntry(p, e).projection;
    TrialSumUpdate(p, q, p.accounts, e.account, d);
    if e.account !in p.accounts {
      TrialSumAppend(q, p.accounts, e.account, d);
    }
  }

  lemma {:induction false} EntriesRaiseTrial(p: Projection, entries: seq<Entry>, d: Direction)
    requires Listed(p) && Solvent(p) && ApplyEntries(p, entries).Applied?
    ensures var q := ApplyEntries(p, entries).projection;
      TrialSum(q, q.accounts, d) == TrialSum(p, p.accounts, d) + Total(entries, d)
    decreases |entries|
  {
    if entries != [] {
      EntryRaisesTrial(p, entries[0], d);
      EntriesKeepListedAndSolvent(p, [entries[0]]);
      assert ApplyEntries(p, [entries[0]]) == ApplyEntry(p, entries[0]) by {
        assert [entries[0]][1..] == [];
      }
      EntriesRaiseTrial(ApplyEntry(p, entries[0]).projection, entries[1..], d);
    }
  }

  lemma {:induction false} RunTrial(b: Books, requests: seq<Request>)
    requires Sound(b)
    requires forall d :: TrialSum(b.projection, b.projection.accounts, d) == LogTotal(b.rows, d)
    requires LogTotal(b.rows, Debit) == LogTotal(b.rows, Credit)
    ensures var b' := Run(b, requests);
      && (forall d :: TrialSum(b'.projection, b'.projection.accounts, d) == LogTotal(b'.rows, d))
      && LogTotal(b'.rows, Debit) == LogTotal(b'.rows, Credit)
    decreases |requests|
  {
    if requests != [] {
      var p, at := requests[0].posting, requests[0].startedAt;
      var r := Post(b, p, at);
      if r.Posted? {
        PostKeepsSound(b, p, at);
        forall d ensures TrialSum(r.books.projection, r.books.projection.accounts, d) == LogTotal(r.books.rows, d)
                      && LogTotal(r.books.rows, d) == LogTotal(b.rows, d) + p.amount {
          EntriesRaiseTrial(b.projection, p.entries, d);
          LogTotalAppend(b.rows, NextRow(Head(b.rows), p, at), d);
        }
        RunTrial(r.books, requests[1..]);
      } else {
        RunTrial(b, requests[1..]);
      }
    }
  }

  /** After any run from empty books the trial balance balances, and is the total of the log. */
  lemma TrialBalances(requests: seq<Request>)
    ensures var b := Run(EMPTY, requests);
      var debits, credits := TrialSum(b.projection, b.projection.accounts, Debit), TrialSum(b.projection, b.projection.accounts, Credit);
      debits == credits && debits == LogTotal(b.rows, Debit)
  {
    assert Sound(EMPTY);
    RunTrial(EMPTY, requests);
  }

  // ---------------------------------------------------------------------------------------
  //  When a posting is accepted
  // ---------------------------------------------------------------------------------------

  ghost predicate TouchesOnce(entries: seq<Entry>) {
    forall i, j :: 0 <= i < j < |entries| ==> entries[i].account != entries[j].account
  }

  ghost predicate Covers(p: Projection, e: Entry) {
    Protected(e.account.kind) && e.direction == Debit ==> e.amount <= Net(p, e.account)
  }

  lemma {:induction false} AppliedIffCovered(p: Projection, entries: seq<Entry>)
    requires TouchesOnce(entries) && AllPositive(entries) && Solvent(p)
    ensures ApplyEntries(p, entries).Applied? <==> forall k :: 0 <= k < |entries| ==> Covers(p, entries[k])
    decreases |entries|
  {
    if entries != [] {
      var u := ApplyEntry(p, entries[0]);
      assert u.Applied? <==> Covers(p, entries[0]) by {
        assert Protected(entries[0].account.kind) ==> Net(p, entries[0].account) >= 0;
      }
      if u.Applied? {
        assert Solvent(u.projection);
        AppliedIffCovered(u.projection, entries[1..]);
        forall k | 0 < k < |entries| ensures entries[k] == entries[1..][k - 1] && (Covers(p, entries[k]) <==> Covers(u.projection, entries[k])) {
        }
      }
    }
  }

  /**
   A posting that touches each account once is accepted exactly when it is balanced, has only
   positive entries, and takes from no protected account more than it has. The refusal tells which.
   */
  lemma PostAcceptedIff(b: Books, p: Posting, startedAt: Time)
    requires Sound(b) && TouchesOnce(p.entries)
    ensures Post(b, p, startedAt).Posted? <==>
      WellFormed(p) && AllPositive(p.entries) && forall k :: 0 <= k < |p.entries| ==> Covers(b.projection, p.entries[k])
    ensures Post(b, p, startedAt).Declined? ==>
      Post(b, p, startedAt).error == if !WellFormed(p) then BadRequest else if !AllPositive(p.entries) then CheckViolation else Conflict
  {
    if AllPositive(p.entries) {
      AppliedIffCovered(b.projection, p.entries);
    }
  }

  lemma TwoEntries(e: Entry, f: Entry)
    ensures forall d :: Total([e, f], d) == On(e, d) + On(f, d)
    ensures forall a, d :: Sum([e, f], a, d) == OnAccount(e, a, d) + OnAccount(f, a, d)
  {
    assert [e, f][1..] == [f] && [f][1..] == [];
    forall d ensures Total([e, f], d) == On(e, d) + On(f, d) {
      assert Total([f], d) == On(f, d);
    }
    forall a, d ensures Sum([e, f], a, d) == OnAccount(e, a, d) + OnAccount(f, a, d) {
      assert Sum([f], a, d) == OnAccount(f, a, d);
    }
  }

  lemma FourEntries(e: Entry, f: Entry, g: Entry, h: Entry)
    ensures forall d :: Total([e, f, g, h], d) == Total([e, f], d) + Total([g, h], d)
    ensures forall a, d :: Sum([e, f, g, h], a, d) == Sum([e, f], a, d) + Sum([g, h], a, d)
  {
    assert [e, f, g, h][1..] == [f, g, h] && [f, g, h][1..] == [g, h];
    TwoEntries(e, f);
    forall d ensures Total([e, f, g, h], d) == Total([e, f], d) + Total([g, h], d) {
      assert Total([f, g, h], d) == On(f, d) + Total([g, h], d);
    }
    forall a, d ensures Sum([e, f, g, h], a, d) == Sum([e, f], a, d) + Sum([g, h], a, d) {
      assert Sum([f, g, h], a, d) == OnAccount(f, a, d) + Sum([g, h], a, d);
    }
  }

  /** A withdrawal is posted exactly when it is positive and the organizer's balance covers it. */
  lemma WithdrawalAcceptedIff(b: Books, request: nat, organizer: nat, amount: int, startedAt: Time)
    requires Sound(b)
    ensures Post(b, Withdrawal(request, organizer, amount), startedAt).Posted?
      <==> 0 < amount <= Net(b.projection, Organizer(organizer))
    ensures amount > Net(b.projection, Organizer(organizer)) && amount > 0 ==>
      Post(b, Withdrawal(request, organizer, amount), startedAt) == Declined(Conflict)
  {
    var p := Withdrawal(request, organizer, amount);
    TwoEntries(p.entries[0], p.entries[1]);
    PostAcceptedIff(b, p, startedAt);
    assert Covers(b.projection, p.entries[0]) <==> amount <= Net(b.projection, Organizer(organizer));
    assert Covers(b.projection, p.entries[1]);
    assert AllPositive(p.entries) <==> p.entries[0].amount > 0 && p.entries[1].amount > 0;
  }

  /** A transfer is posted exactly when it is positive and a protected account that it debits covers it. */
  lemma TransferAcceptedIff(b: Books, transactionType: string, reference: nat, from: Account, to: Account, amount: int, at: Time)
    requires Sound(b) && from != to
    ensures Post(b, Transfer(transactionType, reference, from, to, amount), at).Posted?
      <==> amount > 0 && (Protected(from.kind) ==> amount <= Net(b.projection, from))
    ensures Post(b, Transfer(transactionType, reference, from, to, amount), at).Declined? ==>
      Post(b, Transfer(transactionType, reference, from, to, amount), at).error == if amount <= 0 then BadRequest else Conflict
  {
    var p := Transfer(transactionType, reference, from, to, amount);
    TwoEntries(p.entries[0], p.entries[1]);
    PostAcceptedIff(b, p, at);
    assert Covers(b.projection, p.entries[0]) <==> (Protected(from.kind) ==> amount <= Net(b.projection, from));
    assert Covers(b.projection, p.entries[1]);
    assert AllPositive(p.entries) <==> p.entries[0].amount > 0 && p.entries[1].amount > 0;
  }

  /**
   A settlement is posted exactly when its parts add up, the escrow covers it, and every part is
   positive: with no fee, no tax or no organizer share, the entry table refuses it.
   */
  lemma SettlementAcceptedIff(b: Books, run: nat, organizer: nat, gross: int, fee: int, tax: int, net: int, startedAt: Time)
    requires Sound(b)
    ensures Post(b, Settlement(run, organizer, gross, fee, tax, net), startedAt).Posted?
      <==> fee > 0 && tax > 0 && net > 0 && gross == fee + tax + net && gross <= Net(b.projection, ESCROW)
    ensures fee > 0 && tax > 0 && net > 0 && gross == fee + tax + net && gross > Net(b.projection, ESCROW) ==>
      Post(b, Settlement(run, organizer, gross, fee, tax, net), startedAt) == Declined(Conflict)
  {
    var p := Settlement(run, organizer, gross, fee, tax, net);
    TwoEntries(p.entries[0], p.entries[1]);
    TwoEntries(p.entries[2], p.entries[3]);
    FourEntries(p.entries[0], p.entries[1], p.entries[2], p.entries[3]);
    PostAcceptedIff(b, p, startedAt);
    assert Covers(b.projection, p.entries[0]) <==> gross <= Net(b.projection, ESCROW);
    assert forall k :: 1 <= k < 4 ==> Covers(b.projection, p.entries[k]);
    assert AllPositive(p.entries) <==>
      p.entries[0].amount > 0 && p.entries[1].amount > 0 && p.entries[2].amount > 0 && p.entries[3].amount > 0;
  }

  // ---------------------------------------------------------------------------------------
  //  Reversals
  // ---------------------------------------------------------------------------------------

  /** The same postings have been made to every account, net. */
  ghost predicate SameNets(p: Projection, q: Projection) {
    forall a :: Net(q, a) == Net(p, a)
  }

  function NetOf(entries: seq<Entry>, a: Account): int {
    Sum(entries, a, Credit) - Sum(entries, a, Debit)
  }

  lemma PostMovesNets(b: Books, p: Posting, startedAt: Time, a: Account)
    requires Post(b, p, startedAt).Posted?
    ensures Net(Post(b, p, startedAt).books.projection, a) == Net(b.projection, a) + NetOf(p.entries, a)
  {
    EntriesRaiseSums(b.projection, p.entries, a);
  }

  lemma CaptureAccepted(b: Books, payment: nat, amount: int, startedAt: Time)
    requires Sound(b)
    ensures Post(b, Capture(payment, amount), startedAt).Posted? <==> amount > 0
    ensures amount <= 0 ==> Post(b, Capture(payment, amount), startedAt) == Declined(BadRequest)
  {
    var p := Capture(payment, amount);
    TwoEntries(p.entries[0], p.entries[1]);
    PostAcceptedIff(b, p, startedAt);
    assert Covers(b.projection, p.entries[0]) && Covers(b.projection, p.entries[1]);
    assert AllPositive(p.entries) <==> p.entries[0].amount > 0 && p.entries[1].amount > 0;
  }

  lemma EscrowRefundAcceptedIff(b: Books, refund: nat, amount: int, startedAt: Time)
    requires Sound(b)
    ensures Post(b, EscrowRefund(refund, amount), startedAt).Posted? <==> 0 < amount <= Net(b.projection, ESCROW)
    ensures Post(b, EscrowRefund(refund, amount), startedAt).Declined? ==>
      Post(b, EscrowRefund(refund, amount), startedAt).error == if amount <= 0 then BadRequest else Conflict
  {
    var p := EscrowRefund(refund, amount);
    TwoEntries(p.entries[0], p.entries[1]);
    PostAcceptedIff(b, p, startedAt);
    assert Covers(b.projection, p.entries[0]) <==> amount <= Net(b.projection, ESCROW);
    assert Covers(b.projection, p.entries[1]);
    assert AllPositive(p.entries) <==> p.entries[0].amount > 0 && p.entries[1].amount > 0;
  }

  /** Reversing a settled sale needs only that the organizer still has their share. */
  lemma SettledRefundAcceptedIff(b: Books, refund: nat, organizer: nat, amount: int, fee: int, tax: int, net: int, startedAt: Time)
    requires Sound(b)
    ensures Post(b, SettledRefund(refund, organizer, amount, fee, tax, net), startedAt).Posted?
      <==> fee > 0 && tax > 0 && net > 0 && amount == fee + tax + net && net <= Net(b.projection, Organizer(organizer))
    ensures Post(b, SettledRefund(refund, organizer, amount, fee, tax, net), startedAt).Declined? ==>
      Post(b, SettledRefund(refund, organizer, amount, fee, tax, net), startedAt).error
        == if amount <= 0 || amount != fee + tax + net then BadRequest
           else if fee <= 0 || tax <= 0 || net <= 0 then CheckViolation
           else Conflict
  {
    var p := SettledRefund(refund, organizer, amount, fee, tax, net);
    TwoEntries(p.entries[0], p.entries[1]);
    TwoEntries(p.entries[2], p.entries[3]);
    FourEntries(p.entries[0], p.entries[1], p.entries[2], p.entries[3]);
    PostAcceptedIff(b, p, startedAt);
    assert Covers(b.projection, p.entries[0]) <==> net <= Net(b.projection, Organizer(organizer));
    assert forall k :: 1 <= k < 4 ==> Covers(b.projection, p.entries[k]);
    assert AllPositive(p.entries) <==>
      p.entries[0].amount > 0 && p.entries[1].amount > 0 && p.entries[2].amount > 0 && p.entries[3].amount > 0;
  }

  /** A capture refunded out of escrow is always accepted and leaves every account where it was. */
  lemma CaptureThenRefundRestores(b: Books, payment: nat, refund: nat, amount: int, at: Time, later: Time)
    requires Sound(b) && amount > 0
    ensures var captured := Post(b, Capture(payment, amount), at);
      && captured.Posted?
      && var refunded := Post(captured.books, EscrowRefund(refund, amount), later);
      && refunded.Posted? && SameNets(b.projection, refunded.books.projection)
  {
    var p, q := Capture(payment, amount), EscrowRefund(refund, amount);
    CaptureAccepted(b, payment, amount, at);
    var b1 := Post(b, p, at).books;
    PostKeepsSound(b, p, at);
    TwoEntries(p.entries[0], p.entries[1]);
    TwoEntries(q.entries[0], q.entries[1]);
    PostMovesNets(b, p, at, ESCROW);
    assert Net(b.projection, ESCROW) >= 0;
    EscrowRefundAcceptedIff(b1, refund, amount, later);
    forall a ensures Net(Post(b1, q, later).books.projection, a) == Net(b.projection, a) {
      PostMovesNets(b, p, at, a);
      PostMovesNets(b1, q, later, a);
    }
  }

  lemma SettlementMovesNets(run: nat, organizer: nat, gross: int, fee: int, tax: int, net: int, a: Account)
    ensures NetOf(Settlement(run, organizer, gross, fee, tax, net).entries, a)
      == (if a == ESCROW then -gross else if a == REVENUE then fee else if a == TAX then tax
          else if a == Organizer(organizer) then net else 0)
  {
    var e := Settlement(run, organizer, gross, fee, tax, net).entries;
    TwoEntries(e[0], e[1]);
    TwoEntries(e[2], e[3]);
    FourEntries(e[0], e[1], e[2], e[3]);
  }

  lemma SettledRefundMovesNets(refund: nat, organizer: nat, amount: int, fee: int, tax: int, net: int, a: Account)
    ensures NetOf(SettledRefund(refund, organizer, amount, fee, tax, net).entries, a)
      == (if a == CLEARING then amount else if a == REVENUE then -fee else if a == TAX then -tax
          else if a == Organizer(organizer) then -net else 0)
  {
    var e := SettledRefund(refund, organizer, amount, fee, tax, net).entries;
    TwoEntries(e[0], e[1]);
    TwoEntries(e[2], e[3]);
    FourEntries(e[0], e[1], e[2], e[3]);
  }

  lemma CaptureMovesNets(payment: nat, amount: int, a: Account)
    ensures NetOf(Capture(payment, amount).entries, a) == (if a == CLEARING then -amount else if a == ESCROW then amount else 0)
  {
    var e := Capture(payment, amount).entries;
    TwoEntries(e[0], e[1]);
  }

  /** Capture, settlement and a full settled refund are all accepted and leave every account where it was. */
  lemma FullCycleRestores(b: Books, payment: nat, run: nat, refund: nat, organizer: nat,
                          gross: int, fee: int, tax: int, net: int, at: Time, later: Time, last: Time)
    requires Sound(b) && fee > 0 && tax > 0 && net > 0 && gross == fee + tax + net
    ensures var captured := Post(b, Capture(payment, gross), at);
      && captured.Posted?
      && var settled := Post(captured.books, Settlement(run, organizer, gross, fee, tax, net), later);
      && settled.Posted?
      && var refunded := Post(settled.books, SettledRefund(refund, organizer, gross, fee, tax, net), last);
      && refunded.Posted? && SameNets(b.projection, refunded.books.projection)
  {
    var p, q, r := Capture(payment, gross), Settlement(run, organizer, gross, fee, tax, net),
                   SettledRefund(refund, organizer, gross, fee, tax, net);
    assert Net(b.projection, ESCROW) >= 0 && Net(b.projection, Organizer(organizer)) >= 0;
    CaptureAccepted(b, payment, gross, at);
    PostKeepsSound(b, p, at);
    var b1 := Post(b, p, at).books;
    forall a ensures Net(b1.projection, a) == Net(b.projection, a) + NetOf(p.entries, a) {
      PostMovesNets(b, p, at, a);
    }
    CaptureMovesNets(payment, gross, ESCROW);
    CaptureMovesNets(payment, gross, Organizer(organizer));
    SettlementAcceptedIff(b1, run, organizer, gross, fee, tax, net, later);
    PostKeepsSound(b1, q, later);
    var b2 := Post(b1, q, later).books;
    forall a ensures Net(b2.projection, a) == Net(b1.projection, a) + NetOf(q.entries, a) {
      PostMovesNets(b1, q, later, a);
    }
    SettlementMovesNets(run, organizer, gross, fee, tax, net, Organizer(organizer));
    SettledRefundAcceptedIff(b2, refund, organizer, gross, fee, tax, net, last);
    forall a ensures Net(Post(b2, r, last).books.projection, a) == Net(b.projection, a) {
      PostMovesNets(b2, r, last, a);
      CaptureMovesNets(payment, gross, a);
      SettlementMovesNets(run, organizer, gross, fee, tax, net, a);
      SettledRefundMovesNets(refund, organizer, gross, fee, tax, net, a);
    }
  }
}
