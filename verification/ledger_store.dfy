/**
 The ledger tables as they run: a posting walks its entries and updates the running balances in
 place, and rolls back when one of them would be overdrawn; the projections can be rebuilt from
 the log.
 */
module LedgerStore {
  import opened Common
  import opened Ledger
  import opened LedgerBooks

  class Store {
    var rows: seq<Row>
    var accounts: seq<Account>
    var balances: map<Account, Balance>

    function Model(): Books
      reads this
    {
      Books(rows, Projection(accounts, balances))
    }

    constructor ()
      ensures Model() == EMPTY && Sound(Model())
    {
      rows, accounts, balances := [], [], map[];
    }

    /** Add up both sides of the entries and look for one that is not positive. */
    method Check(p: Posting) returns (error: Option<Error>)
      ensures error == Some(BadRequest) <==> !WellFormed(p)
      ensures error == Some(CheckViolation) <==> WellFormed(p) && !AllPositive(p.entries)
      ensures error == None <==> WellFormed(p) && AllPositive(p.entries)
    {
      var debits, credits, positive := 0, 0, true;
      for k := 0 to |p.entries|
        invariant debits == Total(p.entries[..k], Debit) && credits == Total(p.entries[..k], Credit)
        invariant positive <==> AllPositive(p.entries[..k])
      {
        var e := p.entries[k];
        TotalSplit(p.entries, k, Debit);
        TotalSplit(p.entries, k, Credit);
        if e.direction == Debit {
          debits := debits + e.amount;
        } else {
          credits := credits + e.amount;
        }
        assert p.entries[..k + 1] == p.entries[..k] + [e];
        positive := positive && e.amount > 0;
      }
      assert p.entries[..|p.entries|] == p.entries;
      if p.amount <= 0 || p.entries == [] || debits != credits || debits != p.amount {
        return Some(BadRequest);
      }
      return if positive then None else Some(CheckViolation);
    }

    /** Add one entry to its account's running balance, unless that overdraws a protected account. */
    method UpdateRunningBalance(e: Entry) returns (ok: bool)
      modifies this`accounts, this`balances
      ensures ApplyEntry(old(Model()).projection, e) == if ok then Applied(Model().projection) else Overdrawn
    {
      var b := if e.account in balances then balances[e.account] else ZERO;
      if e.direction == Debit {
        b := b.(debit := b.debit + e.amount);
      } else {
        b := b.(credit := b.credit + e.amount);
      }
      if Protected(e.account.kind) && b.credit - b.debit < 0 {
        return false;
      }
      if e.account !in accounts {
        accounts := accounts + [e.account];
      }
      balances := balances[e.account := b];
      return true;
    }

    /** Apply the entries in order, stopping at the first that overdraws. */
    method UpdateRunningBalances(entries: seq<Entry>) returns (ok: bool)
      modifies this`accounts, this`balances
      ensures ApplyEntries(old(Model()).projection, entries) == if ok then Applied(Model().projection) else Overdrawn
    {
      var k := 0;
      while k < |entries|
        invariant k <= |entries|
        invariant ApplyEntries(old(Model()).projection, entries) == ApplyEntries(Model().projection, entries[k..])
      {
        assert entries[k..][0] == entries[k] && entries[k..][1..] == entries[k + 1..];
        ok := UpdateRunningBalance(entries[k]);
        if !ok {
          return;
        }
        k := k + 1;
      }
      ok := true;
    }

    /** Post a transaction, all or nothing. */
    method Post(p: Posting, startedAt: Time) returns (error: Option<Error>)
      modifies this
      ensures Ledger.Post(old(Model()), p, startedAt) == if error.Some? then Declined(error.value) else Posted(Model())
      ensures error.Some? ==> Model() == old(Model())
    {
      error := Check(p);
      if error.Some? {
        return;
      }
      var rows0, accounts0, balances0 := rows, accounts, balances;
      rows := rows + [NextRow(Head(rows), p, startedAt)];
      var ok := UpdateRunningBalances(p.entries);
      if !ok {
        rows, accounts, balances := rows0, accounts0, balances0;
        return Some(Conflict);
      }
    }

    /** Recompute one account's balance from the log. */
    method Rebuild(a: Account)
      modifies this`balances
      ensures balances == old(balances)[a := Balance(Replay(rows, a, Debit), Replay(rows, a, Credit))]
    {
      var b := ZERO;
      for i := 0 to |rows|
        invariant b == Balance(Replay(rows[..i], a, Debit), Replay(rows[..i], a, Credit))
        invariant balances == old(balances)
      {
        ghost var before := b;
        var entries := rows[i].posting.entries;
        for k := 0 to |entries|
          invariant b == Balance(before.debit + Sum(entries[..k], a, Debit), before.credit + Sum(entries[..k], a, Credit))
          invariant balances == old(balances)
        {
          SumSplit(entries, k, a, Debit);
          SumSplit(entries, k, a, Credit);
          if entries[k].account == a {
            b := Raised(b, entries[k]);
          }
        }
        assert entries[..|entries|] == entries && rows[..i + 1] == rows[..i] + [rows[i]];
        ReplayAppend(rows[..i], rows[i], a, Debit);
        ReplayAppend(rows[..i], rows[i], a, Credit);
      }
      assert rows[..|rows|] == rows;
      balances := balances[a := b];
    }

    /** Rebuilding every account of sound books finds exactly the balances kept all along. */
    method RebuildAll()
      requires Sound(Model())
      modifies this`balances
      ensures Model() == old(Model())
    {
      for i := 0 to |accounts|
        invariant balances == old(balances)
      {
        assert accounts[i] in balances && BalanceOf(Model().projection, accounts[i]) == balances[accounts[i]];
        Rebuild(accounts[i]);
      }
    }

    /** Add up both columns of the running balances. */
    method TrialBalance() returns (debits: int, credits: int)
      ensures debits == TrialSum(Model().projection, accounts, Debit)
      ensures credits == TrialSum(Model().projection, accounts, Credit)
    {
      debits, credits := 0, 0;
      ghost var p := Model().projection;
      for i := 0 to |accounts|
        invariant debits == TrialSum(p, accounts[..i], Debit) && credits == TrialSum(p, accounts[..i], Credit)
      {
        assert accounts[..i + 1] == accounts[..i] + [accounts[i]];
        TrialSumAppend(p, accounts[..i], accounts[i], Debit);
        TrialSumAppend(p, accounts[..i], accounts[i], Credit);
        if accounts[i] in balances {
          debits := debits + balances[accounts[i]].debit;
          credits := credits + balances[accounts[i]].credit;
        }
      }
      assert accounts[..|accounts|] == accounts;
    }
  }
}
