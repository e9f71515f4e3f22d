/** The wallet's view of the ledger agrees with the ledger's own: what it assumes refused is refused, and the balances move alike. */
module WalletLedger {
  import opened Common
  import Ledger
  import LedgerBooks
  import opened Wallet

  /** The escrow and the organizer's balance account stand where the wallet's sums say. */
  ghost predicate Agrees(b: Ledger.Books, s: State, organizer: nat) {
    && LedgerBooks.Sound(b)
    && Ledger.Net(b.projection, Ledger.ESCROW) == Escrow(s)
    && Ledger.Net(b.projection, Ledger.Organizer(organizer)) == s.ledgerNet
  }

  function OnEscrow(p: Ledger.Posting): int {
    LedgerBooks.NetOf(p.entries, Ledger.ESCROW)
  }

  function OnOrganizer(p: Ledger.Posting, organizer: nat): int {
    LedgerBooks.NetOf(p.entries, Ledger.Organizer(organizer))
  }

  /** The wallet refuses for the reason for which the ledger does. */
  predicate SameRefusal(wallet: Outcome, ledger: Ledger.Outcome) {
    wallet.Refused? ==> ledger == Ledger.Declined(wallet.error)
  }

  lemma PostedAgrees(b: Ledger.Books, s: State, s': State, organizer: nat, p: Ledger.Posting, at: Ledger.Time)
    requires Agrees(b, s, organizer) && Ledger.Post(b, p, at).Posted?
    requires Escrow(s') == Escrow(s) + OnEscrow(p) && s'.ledgerNet == s.ledgerNet + OnOrganizer(p, organizer)
    ensures Agrees(Ledger.Post(b, p, at).books, s', organizer)
  {
    LedgerBooks.PostKeepsSound(b, p, at);
    LedgerBooks.PostMovesNets(b, p, at, Ledger.ESCROW);
    LedgerBooks.PostMovesNets(b, p, at, Ledger.Organizer(organizer));
  }

  /** A sale goes through exactly when the ledger takes its capture, and both then stand alike. */
  lemma SaleAgrees(b: Ledger.Books, s: State, organizer: nat, payment: nat, gross: nat, fee: nat, tax: nat, at: Ledger.Time)
    requires Agrees(b, s, organizer)
    ensures Attempt(s, Sale(gross, fee, tax)).Done? <==> Ledger.Post(b, Ledger.Capture(payment, gross), at).Posted?
    ensures SameRefusal(Attempt(s, Sale(gross, fee, tax)), Ledger.Post(b, Ledger.Capture(payment, gross), at))
    ensures Attempt(s, LateSale(gross, fee, tax)).Refused? <==> Attempt(s, Sale(gross, fee, tax)).Refused?
    ensures SameRefusal(Attempt(s, LateSale(gross, fee, tax)), Ledger.Post(b, Ledger.Capture(payment, gross), at))
    ensures Attempt(s, Sale(gross, fee, tax)).Done? ==>
      Agrees(Ledger.Post(b, Ledger.Capture(payment, gross), at).books, After(s, Sale(gross, fee, tax)), organizer)
  {
    LedgerBooks.CaptureAccepted(b, payment, gross, at);
    LedgerBooks.CaptureMovesNets(payment, gross, Ledger.ESCROW);
    LedgerBooks.CaptureMovesNets(payment, gross, Ledger.Organizer(organizer));
    if gross > 0 {
      PostedAgrees(b, s, After(s, Sale(gross, fee, tax)), organizer, Ledger.Capture(payment, gross), at);
    }
  }

  lemma EscrowRefundMovesNets(refund: nat, amount: int, a: Ledger.Account)
    ensures LedgerBooks.NetOf(Ledger.EscrowRefund(refund, amount).entries, a)
      == (if a == Ledger.ESCROW then -amount else if a == Ledger.CLEARING then amount else 0)
  {
    var e := Ledger.EscrowRefund(refund, amount).entries;
    LedgerBooks.TwoEntries(e[0], e[1]);
  }

  /** A refund of a staged sale goes through exactly when the ledger takes it out of escrow. */
  lemma StagedRefundAgrees(b: Ledger.Books, s: State, organizer: nat, refund: nat, gross: nat, share: int, at: Ledger.Time)
    requires Agrees(b, s, organizer)
    ensures Attempt(s, StagedRefund(gross, share)).Done? <==> Ledger.Post(b, Ledger.EscrowRefund(refund, gross), at).Posted?
    ensures SameRefusal(Attempt(s, StagedRefund(gross, share)), Ledger.Post(b, Ledger.EscrowRefund(refund, gross), at))
    ensures Attempt(s, StagedRefund(gross, share)).Done? ==>
      Agrees(Ledger.Post(b, Ledger.EscrowRefund(refund, gross), at).books, After(s, StagedRefund(gross, share)), organizer)
  {
    LedgerBooks.EscrowRefundAcceptedIff(b, refund, gross, at);
    EscrowRefundMovesNets(refund, gross, Ledger.ESCROW);
    EscrowRefundMovesNets(refund, gross, Ledger.Organizer(organizer));
    if Attempt(s, StagedRefund(gross, share)).Done? {
      PostedAgrees(b, s, After(s, StagedRefund(gross, share)), organizer, Ledger.EscrowRefund(refund, gross), at);
    }
  }

  /** A staged credit is settled exactly when the ledger takes its settlement. */
  lemma SettlementAgrees(b: Ledger.Books, s: State, organizer: nat, run: nat, k: nat, at: Ledger.Time)
    requires Agrees(b, s, organizer) && k < |s.credits| && s.credits[k].status == Staged
    ensures var c := s.credits[k];
      var r := Ledger.Post(b, Ledger.Settlement(run, organizer, c.gross, c.fee, c.tax, Share(c)), at);
      && (Settle(s, k) != s <==> r.Posted?)
      && (r.Posted? ==> Agrees(r.books, Settle(s, k), organizer))
  {
    var c := s.credits[k];
    var p := Ledger.Settlement(run, organizer, c.gross, c.fee, c.tax, Share(c));
    LedgerBooks.SettlementAcceptedIff(b, run, organizer, c.gross, c.fee, c.tax, Share(c), at);
    LedgerBooks.SettlementMovesNets(run, organizer, c.gross, c.fee, c.tax, Share(c), Ledger.ESCROW);
    LedgerBooks.SettlementMovesNets(run, organizer, c.gross, c.fee, c.tax, Share(c), Ledger.Organizer(organizer));
    if Postable(s, c) {
      PostedAgrees(b, s, Settle(s, k), organizer, p, at);
    }
  }

  /** A refund of a settled sale goes through exactly when the ledger takes it from the organizer. */
  lemma SettledRefundAgrees(b: Ledger.Books, s: State, organizer: nat, refund: nat, gross: nat, fee: nat, tax: nat, share: int, at: Ledger.Time)
    requires Agrees(b, s, organizer)
    ensures var r := Ledger.Post(b, Ledger.SettledRefund(refund, organizer, gross, fee, tax, share), at);
      && (Attempt(s, SettledRefund(gross, fee, tax, share)).Done? <==> r.Posted?)
      && SameRefusal(Attempt(s, SettledRefund(gross, fee, tax, share)), r)
      && (r.Posted? ==> Agrees(r.books, After(s, SettledRefund(gross, fee, tax, share)), organizer))
  {
    var p := Ledger.SettledRefund(refund, organizer, gross, fee, tax, share);
    LedgerBooks.SettledRefundAcceptedIff(b, refund, organizer, gross, fee, tax, share, at);
    LedgerBooks.SettledRefundMovesNets(refund, organizer, gross, fee, tax, share, Ledger.ESCROW);
    LedgerBooks.SettledRefundMovesNets(refund, organizer, gross, fee, tax, share, Ledger.Organizer(organizer));
    if Ledger.Post(b, p, at).Posted? {
      PostedAgrees(b, s, After(s, SettledRefund(gross, fee, tax, share)), organizer, p, at);
    }
  }

  lemma WithdrawalMovesNets(request: nat, organizer: nat, amount: int, a: Ledger.Account)
    ensures LedgerBooks.NetOf(Ledger.Withdrawal(request, organizer, amount).entries, a)
      == (if a == Ledger.Organizer(organizer) then -amount else if a == Ledger.CLEARING then amount else 0)
  {
    var e := Ledger.Withdrawal(request, organizer, amount).entries;
    LedgerBooks.TwoEntries(e[0], e[1]);
  }

  /** An open withdrawal is paid out exactly when the ledger takes it from the organizer; requests are never for nothing. */
  lemma PayOutAgrees(b: Ledger.Books, s: State, organizer: nat, r: nat, at: Ledger.Time)
    requires Agrees(b, s, organizer) && r < |s.requests| && IsOpen(s.requests[r]) && s.requests[r].amount > 0
    ensures var posted := Ledger.Post(b, Ledger.Withdrawal(r, organizer, s.requests[r].amount), at);
      && (Attempt(s, PayOut(r)).Done? <==> posted.Posted?)
      && SameRefusal(Attempt(s, PayOut(r)), posted)
      && (posted.Posted? ==> Agrees(posted.books, After(s, PayOut(r)), organizer))
  {
    var amount := s.requests[r].amount;
    LedgerBooks.WithdrawalAcceptedIff(b, r, organizer, amount, at);
    WithdrawalMovesNets(r, organizer, amount, Ledger.ESCROW);
    WithdrawalMovesNets(r, organizer, amount, Ledger.Organizer(organizer));
    if amount <= s.ledgerNet {
      PostedAgrees(b, s, After(s, PayOut(r)), organizer, Ledger.Withdrawal(r, organizer, amount), at);
    }
  }

  lemma TransferMovesNets(transactionType: string, reference: nat, from: Ledger.Account, to: Ledger.Account,
                          amount: int, a: Ledger.Account)
    requires from != to
    ensures LedgerBooks.NetOf(Ledger.Transfer(transactionType, reference, from, to, amount).entries, a)
      == (if a == from then -amount else if a == to then amount else 0)
  {
    var e := Ledger.Transfer(transactionType, reference, from, to, amount).entries;
    LedgerBooks.TwoEntries(e[0], e[1]);
  }

  /** Money comes to an account from one of the platform's, or goes there. */
  function Moving(transactionType: string, reference: nat, account: Ledger.Account, platform: Ledger.Account,
                  amount: int): Ledger.Posting
  {
    if amount > 0 then Ledger.Transfer(transactionType, reference, platform, account, amount)
    else Ledger.Transfer(transactionType, reference, account, platform, -amount)
  }

  /** A manual credit or debit, a hold or its release, or a disputed payment goes through exactly when the ledger takes it. */
  lemma LedgerMoveAgrees(b: Ledger.Books, s: State, organizer: nat, transactionType: string, reference: nat,
                         platform: Ledger.Account, amount: int, at: Ledger.Time)
    requires Agrees(b, s, organizer) && !Ledger.Protected(platform.kind)
    ensures var r := Ledger.Post(b, Moving(transactionType, reference, Ledger.Organizer(organizer), platform, amount), at);
      && (Attempt(s, LedgerMove(amount)).Done? <==> r.Posted?)
      && SameRefusal(Attempt(s, LedgerMove(amount)), r)
      && (r.Posted? ==> Agrees(r.books, After(s, LedgerMove(amount)), organizer))
  {
    var account := Ledger.Organizer(organizer);
    var from, to := if amount > 0 then platform else account, if amount > 0 then account else platform;
    var size := if amount > 0 then amount else -amount;
    var p := Moving(transactionType, reference, account, platform, amount);
    LedgerBooks.TransferAcceptedIff(b, transactionType, reference, from, to, size, at);
    TransferMovesNets(transactionType, reference, from, to, size, Ledger.ESCROW);
    TransferMovesNets(transactionType, reference, from, to, size, account);
    if Ledger.Post(b, p, at).Posted? {
      PostedAgrees(b, s, After(s, LedgerMove(amount)), organizer, p, at);
    }
  }

  /** An upgrade or downgrade of a booking goes through exactly when the ledger takes it. */
  lemma EscrowMoveAgrees(b: Ledger.Books, s: State, organizer: nat, transactionType: string, reference: nat,
                         platform: Ledger.Account, amount: int, at: Ledger.Time)
    requires Agrees(b, s, organizer) && !Ledger.Protected(platform.kind)
    ensures var r := Ledger.Post(b, Moving(transactionType, reference, Ledger.ESCROW, platform, amount), at);
      && (Attempt(s, EscrowMove(amount)).Done? <==> r.Posted?)
      && SameRefusal(Attempt(s, EscrowMove(amount)), r)
      && (r.Posted? ==> Agrees(r.books, After(s, EscrowMove(amount)), organizer))
  {
    var account := Ledger.ESCROW;
    var from, to := if amount > 0 then platform else account, if amount > 0 then account else platform;
    var size := if amount > 0 then amount else -amount;
    var p := Moving(transactionType, reference, account, platform, amount);
    LedgerBooks.TransferAcceptedIff(b, transactionType, reference, from, to, size, at);
    TransferMovesNets(transactionType, reference, from, to, size, Ledger.Organizer(organizer));
    TransferMovesNets(transactionType, reference, from, to, size, account);
    if Ledger.Post(b, p, at).Posted? {
      PostedAgrees(b, s, After(s, EscrowMove(amount)), organizer, p, at);
    }
  }

  /** What somebody else's step does to the escrow it does to the ledger's, and it is refused like there. */
  ghost predicate OthersStandAlike(b: Ledger.Books, s: State, organizer: nat, op: Op, p: Ledger.Posting, at: Ledger.Time) {
    var r := Ledger.Post(b, p, at);
    && (Attempt(s, op).Done? <==> r.Posted?) && SameRefusal(Attempt(s, op), r)
    && (r.Posted? ==> Agrees(r.books, After(s, op), organizer))
  }

  lemma OthersSaleAgrees(b: Ledger.Books, s: State, organizer: nat, payment: nat, gross: nat, at: Ledger.Time)
    requires Agrees(b, s, organizer) && gross > 0
    ensures OthersStandAlike(b, s, organizer, OthersSell(gross), Ledger.Capture(payment, gross), at)
  {
    LedgerBooks.CaptureAccepted(b, payment, gross, at);
    LedgerBooks.CaptureMovesNets(payment, gross, Ledger.ESCROW);
    LedgerBooks.CaptureMovesNets(payment, gross, Ledger.Organizer(organizer));
    PostedAgrees(b, s, After(s, OthersSell(gross)), organizer, Ledger.Capture(payment, gross), at);
  }

  lemma OthersRefundAgrees(b: Ledger.Books, s: State, organizer: nat, refund: nat, gross: nat, at: Ledger.Time)
    requires Agrees(b, s, organizer) && gross > 0
    ensures OthersStandAlike(b, s, organizer, OthersRefund(gross), Ledger.EscrowRefund(refund, gross), at)
  {
    LedgerBooks.EscrowRefundAcceptedIff(b, refund, gross, at);
    EscrowRefundMovesNets(refund, gross, Ledger.ESCROW);
    EscrowRefundMovesNets(refund, gross, Ledger.Organizer(organizer));
    if gross <= Escrow(s) {
      PostedAgrees(b, s, After(s, OthersRefund(gross)), organizer, Ledger.EscrowRefund(refund, gross), at);
    }
  }

  /** Another organizer's settlement takes its gross out of the shared escrow exactly when the ledger does. */
  lemma OthersSettlementAgrees(b: Ledger.Books, s: State, organizer: nat, other: nat, run: nat,
                               gross: nat, fee: nat, tax: nat, net: nat, at: Ledger.Time)
    requires Agrees(b, s, organizer) && other != organizer && fee > 0 && tax > 0 && net > 0 && gross == fee + tax + net
    ensures OthersStandAlike(b, s, organizer, OthersSettle(gross), Ledger.Settlement(run, other, gross, fee, tax, net), at)
  {
    var p := Ledger.Settlement(run, other, gross, fee, tax, net);
    LedgerBooks.SettlementAcceptedIff(b, run, other, gross, fee, tax, net, at);
    LedgerBooks.SettlementMovesNets(run, other, gross, fee, tax, net, Ledger.ESCROW);
    LedgerBooks.SettlementMovesNets(run, other, gross, fee, tax, net, Ledger.Organizer(organizer));
    if gross <= Escrow(s) {
      PostedAgrees(b, s, After(s, OthersSettle(gross)), organizer, p, at);
    }
  }
}
