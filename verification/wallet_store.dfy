/** The wallet row, its transaction and request rows and the escrow sums, updated in place. */
module WalletStore {
  import opened Common
  import opened Wallet

  /** A transaction ended as the operation prescribes, and left no trace if it failed. */
  ghost predicate Ended(before: State, op: Op, after: State, error: Option<Error>) {
    && Attempt(before, op) == (if error.Some? then Refused(error.value) else Done(after))
    && (error.Some? ==> after == before)
  }

  class Store {
    var pending: int
    var available: int
    var withdrawn: int
    var credits: seq<Credit>
    var requests: seq<Request>
    var ledgerNet: int
    var captured: nat
    var refunded: nat
    var settled: nat
    var adjusted: int

    function Model(): State
      reads this
    {
      State(pending, available, withdrawn, credits, requests, ledgerNet, captured, refunded, settled, adjusted)
    }

    constructor ()
      ensures Model() == NEW_WALLET
    {
      pending, available, withdrawn, credits, requests, ledgerNet := 0, 0, 0, [], [], 0;
      captured, refunded, settled, adjusted := 0, 0, 0, 0;
    }

    /** Stage the organizer's share of a sale; a late one is refunded and debited again at once. */
    method Capture(gross: nat, fee: nat, tax: nat, late: bool) returns (error: Option<Error>)
      modifies this
      ensures Ended(old(Model()), if late then LateSale(gross, fee, tax) else Sale(gross, fee, tax), Model(), error)
    {
      if gross == 0 {
        return Some(BadRequest);
      }
      var c := Credit(gross, fee, tax, Staged);
      captured := captured + gross;
      pending := pending + Share(c);
      if late {
        pending := pending - Share(c);
        refunded := refunded + gross;
      }
      credits := credits + [c];
      return None;
    }

    /** Settle one staged credit if the ledger takes it. */
    method SettleCredit(k: nat) returns (paid: int)
      requires k < |credits|
      modifies this
      ensures Model() == Settle(old(Model()), k) && available == old(available) + paid
    {
      var c := credits[k];
      paid := 0;
      if c.status == Staged && c.fee > 0 && c.tax > 0 && Share(c) > 0 && c.gross <= captured - refunded - settled + adjusted {
        paid := Share(c);
        pending := if pending - paid > 0 then pending - paid else 0;
        available := available + paid;
        credits := credits[k := c.(status := CreditStatus.Settled)];
        ledgerNet := ledgerNet + paid;
        settled := settled + c.gross;
      }
    }

    /** Settle every staged credit the ledger takes, in row order. */
    method SettleRun() returns (paid: int)
      requires Escrow(Model()) >= 0
      modifies this
      ensures RunSettles(old(Model()), Model(), paid)
    {
      ghost var before := Model();
      paid := 0;
      var k := 0;
      while k < |credits|
        invariant k <= |credits| == |before.credits|
        invariant SettleFrom(before, 0) == SettleFrom(Model(), k)
        invariant available == before.available + paid
      {
        var share := SettleCredit(k);
        paid := paid + share;
        k := k + 1;
      }
      SettlementRunSettles(before);
    }

    /** Take a refund out of the escrow, or out of the organizer's balance once the sale is settled. */
    method Refund(gross: nat, fee: nat, tax: nat, share: int, afterSettlement: bool) returns (error: Option<Error>)
      modifies this
      ensures Ended(old(Model()), if afterSettlement then SettledRefund(gross, fee, tax, share) else StagedRefund(gross, share),
                    Model(), error)
    {
      if gross == 0 || (afterSettlement && gross != fee + tax + share) {
        return Some(BadRequest);
      }
      if afterSettlement {
        if fee == 0 || tax == 0 || share <= 0 {
          return Some(CheckViolation);
        }
        if share > ledgerNet {
          return Some(Conflict);
        }
        ledgerNet := ledgerNet - share;
        available := if available - share > 0 then available - share else 0;
      } else {
        if gross > captured - refunded - settled + adjusted {
          return Some(Conflict);
        }
        refunded := refunded + gross;
        pending := if pending - share > 0 then pending - share else 0;
      }
      return None;
    }

    /** Lock money for a withdrawal, within what is available and what the day still allows. */
    method RequestWithdrawal(amount: int, day: nat, verified: bool) returns (error: Option<Error>)
      modifies this
      ensures Ended(old(Model()), Ask(amount, day, verified), Model(), error)
      ensures error.None? <==>
        verified && MIN_WITHDRAWAL <= amount <= old(available) && AskedSince(old(requests), day) + amount <= MAX_PER_DAY
      ensures error.None? ==> requests == old(requests) + [Request(amount, Waiting, day)]
    {
      if amount < MIN_WITHDRAWAL || available < amount {
        return Some(BadRequest);
      }
      if !verified {
        return Some(Forbidden);
      }
      var asked := 0;
      for i := 0 to |requests|
        invariant asked + AskedSince(requests[i..], day) == AskedSince(requests, day)
      {
        assert requests[i..][0] == requests[i] && requests[i..][1..] == requests[i + 1..];
        if requests[i].day >= day {
          asked := asked + requests[i].amount;
        }
      }
      if asked + amount > MAX_PER_DAY {
        return Some(BadRequest);
      }
      available := available - amount;
      pending := pending + amount;
      requests := requests + [Request(amount, Waiting, day)];
      return None;
    }

    /** Move a withdrawal on: hand it to the provider, pay it out, or give its money back. */
    method ProcessWithdrawal(r: nat, next: RequestStatus) returns (error: Option<Error>)
      requires next != Waiting
      modifies this
      ensures Ended(old(Model()), if next == Processing then Hand(r) else if next == Completed then PayOut(r) else GiveBack(r),
                    Model(), error)
    {
      if r >= |requests| {
        return Some(NotFound);
      }
      if !IsOpen(requests[r]) {
        return Some(BadRequest);
      }
      var a := requests[r].amount;
      if next == Completed {
        if a > ledgerNet {
          return Some(Conflict);
        }
        ledgerNet := ledgerNet - a;
        pending := if pending - a > 0 then pending - a else 0;
        withdrawn := withdrawn + a;
      } else if next == Returned {
        available := available + a;
        pending := if pending - a > 0 then pending - a else 0;
      }
      requests := requests[r := requests[r].(status := next)];
      return None;
    }

    /** Sum the staged credits and the completed withdrawals. */
    method Sums() returns (staged: int, completed: nat)
      ensures staged == StagedSum(credits) && completed == CompletedSum(requests)
    {
      staged, completed := 0, 0;
      for k := 0 to |credits|
        invariant staged + StagedSum(credits[k..]) == StagedSum(credits)
      {
        assert credits[k..][0] == credits[k] && credits[k..][1..] == credits[k + 1..];
        if credits[k].status == Staged {
          staged := staged + Share(credits[k]);
        }
      }
      for i := 0 to |requests|
        invariant completed + CompletedSum(requests[i..]) == CompletedSum(requests)
      {
        assert requests[i..][0] == requests[i] && requests[i..][1..] == requests[i + 1..];
        if requests[i].status == Completed {
          completed := completed + requests[i].amount;
        }
      }
    }

    /** The writing half of a recalculation: sums taken earlier go over the balances. */
    method WriteBalances(ledgerSum: nat, stagedSum: int, completedSum: nat)
      modifies this
      ensures Ended(old(Model()), Recalculate(ledgerSum, stagedSum, completedSum), Model(), None)
    {
      available, pending, withdrawn := ledgerSum, stagedSum, completedSum;
    }

    /** A recalculation that nothing disturbs; the account's guard keeps the sum of its entries from going below zero. */
    method Rebuild()
      requires ledgerNet >= 0
      modifies this
      ensures Model() == Rebuilt(old(Model()))
    {
      var ledgerSum := ledgerNet;
      var staged, completed := Sums();
      WriteBalances(ledgerSum, staged, completed);
    }
  }
}
