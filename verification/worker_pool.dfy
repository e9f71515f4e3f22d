/**
 The load harness's worker pool: runners share a cursor and take items until there are none left.
 Runners interleave in any order; each step is one runner's turn between two suspensions.
 */
module WorkerPool {
  import opened Common

  datatype Runner = Ready | Busy(index: nat) | Finished

  // ---------------------------------------------------------------------------------------
  //  Progress reports
  // ---------------------------------------------------------------------------------------

  function Interval(total: nat): (n: nat)
    ensures n >= 1
  {
    if total / 10 > 1 then total / 10 else 1
  }

  predicate Reports(total: nat, done: nat) {
    done % Interval(total) == 0 || done == total
  }

  /** The values of done that have been reported once `done` items are finished. */
  function Calls(total: nat, done: nat): seq<nat> {
    if done == 0 then [] else Calls(total, done - 1) + if Reports(total, done) then [done] else []
  }

  ghost predicate Increasing(s: seq<nat>) {
    forall i, j :: 0 <= i < j < |s| ==> s[i] < s[j]
  }

  lemma {:induction false} CallsClimb(total: nat, done: nat)
    ensures Increasing(Calls(total, done))
    ensures forall i :: 0 <= i < |Calls(total, done)| ==> 1 <= Calls(total, done)[i] <= done
  {
    if done > 0 {
      CallsClimb(total, done - 1);
    }
  }

  lemma TimesAtLeast(d: int, n: nat)
    requires d >= 1
    ensures d * n >= n
  {
    assert (d - 1) * n >= 0;
  }

  lemma TimesKeepsOrder(a: int, b: int, n: nat)
    requires a >= b
    ensures a * n >= b * n
  {
    assert (a - b) * n >= 0;
  }

  lemma SmallMultiple(d: int, n: nat)
    requires 0 - n < d * n < n
    ensures d == 0
  {
    if d >= 1 {
      TimesAtLeast(d, n);
    } else if d <= -1 {
      TimesAtLeast(-d, n);
    }
  }

  lemma Remainder(x: nat, n: nat, q: int, r: nat)
    requires n >= 1 && x == q * n + r && r < n
    ensures x % n == r
  {
    var d := q - x / n;
    assert x == (x / n) * n + x % n;
    assert d * n == q * n - (x / n) * n;
    SmallMultiple(d, n);
  }

  lemma RemainderBefore(x: nat, n: nat)
    requires n >= 1 && x >= 1
    ensures (x - 1) % n == if x % n == 0 then n - 1 else x % n - 1
  {
    var q := x / n;
    assert x == q * n + x % n;
    if x % n == 0 {
      assert (q - 1) * n == q * n - n;
      Remainder(x - 1, n, q - 1, n - 1);
    } else {
      Remainder(x - 1, n, q, x % n - 1);
    }
  }

  /** Before the total is reached, the reports are the multiples of the interval. */
  lemma {:induction false} CallsAreMultiples(total: nat, done: nat)
    requires done < total
    ensures |Calls(total, done)| * Interval(total) == done - done % Interval(total)
  {
    if done > 0 {
      CallsAreMultiples(total, done - 1);
      RemainderBefore(done, Interval(total));
      assert (|Calls(total, done - 1)| + 1) * Interval(total) == |Calls(total, done - 1)| * Interval(total) + Interval(total);
    }
  }

  /** Reported are the total and, on the way there, every whole tenth of it; of fewer than twenty items, every one. */
  lemma {:induction false} ReportedIff(total: nat, done: nat, n: nat)
    ensures n in Calls(total, done) <==>
      1 <= n <= done && (n == total || if total < 20 then true else n % (total / 10) == 0)
  {
    if done > 0 {
      ReportedIff(total, done - 1, n);
    }
  }

  lemma FewCalls(total: nat)
    requires total >= 1
    ensures |Calls(total, total - 1)| <= 18
  {
    CallsAreMultiples(total, total - 1);
    var n, c := Interval(total), |Calls(total, total - 1)|;
    if c >= 19 {
      TimesKeepsOrder(c, 19, n);
    }
  }

  /** A complete run reports at most nineteen times, each time further, and last of all the total. */
  lemma ProgressReports(total: nat)
    ensures var calls := Calls(total, total);
      |calls| <= 19 && Increasing(calls) && (total >= 1 ==> calls != [] && calls[|calls| - 1] == total)
  {
    CallsClimb(total, total);
    if total >= 1 {
      FewCalls(total);
    }
  }

  // ---------------------------------------------------------------------------------------
  //  The pool
  // ---------------------------------------------------------------------------------------

  function Filled<R>(results: seq<Option<R>>): (n: nat)
    ensures n <= |results|
  {
    if results == [] then 0 else (if results[0].Some? then 1 else 0) + Filled(results[1..])
  }

  lemma {:induction false} FilledUpdate<R>(results: seq<Option<R>>, i: nat, value: R)
    requires i < |results| && results[i].None?
    ensures Filled(results[i := Some(value)]) == Filled(results) + 1
  {
    var updated := results[i := Some(value)];
    if i == 0 {
      assert updated[1..] == results[1..];
    } else {
      assert updated[1..] == results[1..][i - 1 := Some(value)];
      FilledUpdate(results[1..], i - 1, value);
    }
  }

  lemma {:induction false} AllFilled<R>(results: seq<Option<R>>)
    requires forall i :: 0 <= i < |results| ==> results[i].Some?
    ensures Filled(results) == |results|
  {
    if results != [] {
      AllFilled(results[1..]);
    }
  }

  lemma {:induction false} NoneFilled<R>(results: seq<Option<R>>)
    requires forall i :: 0 <= i < |results| ==> results[i].None?
    ensures Filled(results) == 0
  {
    if results != [] {
      NoneFilled(results[1..]);
    }
  }

  function Unfinished(runners: seq<Runner>): nat {
    if runners == [] then 0 else (if runners[0].Finished? then 0 else 1) + Unfinished(runners[1..])
  }

  lemma {:induction false} UnfinishedUpdate(runners: seq<Runner>, r: nat, to: Runner)
    requires r < |runners| && !runners[r].Finished?
    ensures Unfinished(runners[r := to]) == Unfinished(runners) - if to.Finished? then 1 else 0
  {
    if r == 0 {
      assert runners[0 := to][1..] == runners[1..];
    } else {
      assert runners[r := to][1..] == runners[1..][r - 1 := to];
      UnfinishedUpdate(runners[1..], r - 1, to);
    }
  }

  /** Runners with a call in flight. */
  function InFlight(runners: seq<Runner>): (n: nat)
    ensures n <= |runners|
  {
    if runners == [] then 0 else (if runners[0].Busy? then 1 else 0) + InFlight(runners[1..])
  }

  lemma {:induction false} InFlightUpdate(runners: seq<Runner>, r: nat, to: Runner)
    requires r < |runners|
    ensures InFlight(runners[r := to])
         == InFlight(runners) - (if runners[r].Busy? then 1 else 0) + (if to.Busy? then 1 else 0)
  {
    if r == 0 {
      assert runners[0 := to][1..] == runners[1..];
    } else {
      assert runners[r := to][1..] == runners[1..][r - 1 := to];
      InFlightUpdate(runners[1..], r - 1, to);
    }
  }

  lemma {:induction false} NoneInFlight(n: nat)
    ensures InFlight(seq(n, _ => Ready)) == 0
  {
    if n > 0 {
      assert seq(n, _ => Ready)[1..] == seq(n - 1, _ => Ready);
      NoneInFlight(n - 1);
    }
  }

  lemma StillBusy(runners: seq<Runner>, r: nat, to: Runner, k: nat)
    requires r < |runners| && runners[r] != Busy(k) && Busy(k) in runners
    ensures Busy(k) in runners[r := to]
  {
    var q :| 0 <= q < |runners| && runners[q] == Busy(k);
    assert runners[r := to][q] == Busy(k);
  }

  /** A runner's turn changes what that runner has in hand, and nothing else. */
  lemma OthersStayBusy(runners: seq<Runner>, r: nat, to: Runner)
    requires r < |runners|
    ensures forall k: nat :: Busy(k) in runners && runners[r] != Busy(k) ==> Busy(k) in runners[r := to]
    ensures to.Busy? ==> to in runners[r := to]
  {
    forall k: nat | Busy(k) in runners && runners[r] != Busy(k) ensures Busy(k) in runners[r := to] {
      StillBusy(runners, r, to, k);
    }
    assert runners[r := to][r] == to;
  }

  /** Runners work on different items, none of which is finished. */
  ghost predicate Apart<R>(runners: seq<Runner>, filled: seq<Option<R>>, next: nat) {
    && (forall r :: 0 <= r < |runners| && runners[r].Busy? ==>
          runners[r].index < next && runners[r].index < |filled| && filled[runners[r].index].None?)
    && (forall r, q :: 0 <= r < q < |runners| && runners[r].Busy? && runners[q].Busy? ==> runners[r].index != runners[q].index)
    && (forall r :: 0 <= r < |runners| && runners[r].Finished? ==> next >= |filled|)
  }

  /** An index taken from the cursor is finished or in the hands of a runner. */
  ghost predicate Kept<R>(runners: seq<Runner>, filled: seq<Option<R>>, next: nat) {
    forall k: nat :: k < next && k < |filled| ==> filled[k].Some? || Busy(k) in runners
  }

  /** Only indices already taken are finished. */
  ghost predicate Taken<R>(filled: seq<Option<R>>, next: nat) {
    forall k: nat :: k < |filled| && filled[k].Some? ==> k < next
  }

  lemma TakeKeeps<R>(runners: seq<Runner>, filled: seq<Option<R>>, next: nat, r: nat)
    requires Apart(runners, filled, next) && Kept(runners, filled, next) && Taken(filled, next)
    requires r < |runners| && runners[r].Ready?
    ensures var after := runners[r := if next >= |filled| then Finished else Busy(next)];
      Apart(after, filled, next + 1) && Kept(after, filled, next + 1)
  {
    OthersStayBusy(runners, r, if next >= |filled| then Finished else Busy(next));
  }

  lemma FinishKeeps<R>(runners: seq<Runner>, filled: seq<Option<R>>, next: nat, r: nat, value: R)
    requires Apart(runners, filled, next) && Kept(runners, filled, next)
    requires r < |runners| && runners[r].Busy?
    ensures var after := runners[r := Ready];
      var more := filled[runners[r].index := Some(value)];
      Apart(after, more, next) && Kept(after, more, next)
  {
    OthersStayBusy(runners, r, Ready);
  }

  class Pool<T(!new), R(!new)> {
    const items: seq<T>
    const worker: (T, nat) -> R
    const results: array<Option<R>>
    var next: nat
    var done: nat
    var runners: seq<Runner>
    var calls: seq<nat>
    /** The indices for which the worker has been called, in order of the calls. */
    var called: seq<nat>
    /** The most calls that have been in flight at the same time. */
    var peak: nat

    /** What has been recorded is what the worker answers for that item. */
    ghost predicate ResultsRight()
      reads this, results
    {
      && results.Length == |items|
      && forall k: nat :: k < |items| && results[k].Some? ==> k < next && results[k].value == worker(items[k], k)
    }

    ghost predicate Counted()
      reads this, results
    {
      && done == Filled(results[..])
      && calls == Calls(|items|, done)
      && InFlight(runners) <= peak <= |runners|
      && |called| == Min(next, |items|)
      && forall k: nat :: k < |called| ==> called[k] == k
    }

    ghost predicate Valid()
      reads this, results
    {
      ResultsRight() && Apart(runners, results[..], next) && Kept(runners, results[..], next) && Counted()
    }

    constructor (items: seq<T>, concurrency: nat, worker: (T, nat) -> R)
      ensures Valid() && fresh(results) && this.items == items && this.worker == worker
      ensures runners == seq(Min(concurrency, |items|) as nat, _ => Ready) && done == 0 && next == 0
    {
      this.items, this.worker := items, worker;
      results := new Option<R>[|items|](_ => None);
      next, done, calls := 0, 0, [];
      called, peak := [], 0;
      runners := seq(Min(concurrency, |items|) as nat, _ => Ready);
      new;
      NoneFilled(results[..]);
      NoneInFlight(|runners|);
    }

    /** A runner takes the next index, or finishes when there is none. */
    method Take(r: nat)
      requires Valid() && r < |runners| && runners[r].Ready?
      modifies this`next, this`runners, this`called, this`peak
      ensures Valid() && next == old(next) + 1
      ensures runners == old(runners)[r := if old(next) >= |items| then Finished else Busy(old(next))]
    {
      var i := next;
      InFlightUpdate(runners, r, Finished);
      InFlightUpdate(runners, r, Busy(i));
      TakeKeeps(runners, results[..], next, r);
      next := next + 1;
      if i >= |items| {
        runners := runners[r := Finished];
      } else {
        runners := runners[r := Busy(i)];
        called := called + [i];
        peak := Max(peak, InFlight(runners));
      }
    }

    /** A runner's call has returned: record its result and report progress. */
    method Finish(r: nat)
      requires Valid() && r < |runners| && runners[r].Busy?
      modifies this`done, this`runners, this`calls, results
      ensures Valid() && done == old(done) + 1
      ensures runners == old(runners)[r := Ready]
    {
      var i := runners[r].index;
      InFlightUpdate(runners, r, Ready);
      FinishKeeps(runners, results[..], next, r, worker(items[i], i));
      FilledUpdate(results[..], i, worker(items[i], i));
      results[i] := Some(worker(items[i], i));
      assert results[..] == old(results[..])[i := Some(worker(items[i], i))];
      done := done + 1;
      if done % Interval(|items|) == 0 || done == |items| {
        calls := calls + [done];
      }
      runners := runners[r := Ready];
    }

    /**
     Run the pool to the end under an arbitrary schedule. With at least one runner every index is
     called exactly once and every result is in its item's place.
     */
    method Run()
      requires Valid()
      modifies this, results
      ensures Valid() && forall r :: 0 <= r < |runners| ==> runners[r].Finished?
      ensures |runners| == |old(runners)|
    {
      while exists r :: 0 <= r < |runners| && !runners[r].Finished?
        invariant Valid() && |runners| == |old(runners)|
        decreases |items| - done, |items| - Min(next, |items|), Unfinished(runners)
      {
        var r :| 0 <= r < |runners| && !runners[r].Finished?;
        UnfinishedUpdate(runners, r, Finished);
        FilledAtMost();
        if runners[r].Ready? {
          Take(r);
        } else {
          Finish(r);
          FilledAtMost();
        }
      }
    }

    lemma FilledAtMost()
      requires Valid()
      ensures done <= |items|
    {
    }

    /** When every runner has finished, and there was one, every result is in place. */
    lemma FinishedIsComplete()
      requires Valid() && runners != [] && forall r :: 0 <= r < |runners| ==> runners[r].Finished?
      ensures forall k: nat :: k < |items| ==> results[k] == Some(worker(items[k], k))
      ensures done == |items| && calls == Calls(|items|, |items|)
      ensures |called| == |items| && forall k: nat :: k < |items| ==> called[k] == k
    {
      assert runners[0].Finished?;
      forall k: nat | k < |items| ensures results[k].Some? {
        assert k < next;
        assert results[k].Some? || Busy(k) in runners;
      }
      AllFilled(results[..]);
    }
  }

  /** Map the items through the worker, never more than `concurrency`, or than there are items, at a time. */
  method RunPool<T(!new), R(!new)>(items: seq<T>, concurrency: nat, worker: (T, nat) -> R)
    returns (results: seq<Option<R>>, calls: seq<nat>, called: seq<nat>, peak: nat)
    ensures |results| == |items|
    ensures peak <= Min(concurrency, |items|)
    ensures concurrency >= 1 ==> |called| == |items| && forall k: nat :: k < |items| ==> called[k] == k
    ensures concurrency >= 1 ==> forall k :: 0 <= k < |items| ==> results[k] == Some(worker(items[k], k))
    ensures concurrency == 0 ==> forall k :: 0 <= k < |items| ==> results[k].None?
    ensures concurrency >= 1 ==> calls == Calls(|items|, |items|)
  {
    var pool := new Pool(items, concurrency, worker);
    if concurrency == 0 {
      forall k: nat | k < |items| ensures pool.results[k].None? {
      }
      return pool.results[..], pool.calls, pool.called, pool.peak;
    }
    pool.Run();
    if items != [] {
      pool.FinishedIsComplete();
    }
    results, calls, called, peak := pool.results[..], pool.calls, pool.called, pool.peak;
  }

  // ---------------------------------------------------------------------------------------
  //  A wave of bookings
  // ---------------------------------------------------------------------------------------

  datatype Reply = Reply(ok: bool, status: nat, booking: Option<nat>)
  datatype Handle = Handle(booking: nat, user: nat)

  predicate Succeeded(r: Reply) {
    r.ok && r.booking.Some?
  }

  /** The bookings of the first n replies, each with the user whose request it answers. */
  function Handles(users: seq<nat>, replies: seq<Reply>, n: nat): seq<Handle>
    requires n <= |users| == |replies|
  {
    if n == 0 then []
    else Handles(users, replies, n - 1)
         + if Succeeded(replies[n - 1]) then [Handle(replies[n - 1].booking.value, users[n - 1])] else []
  }

  lemma {:induction false} HandlesAreTheirOwn(users: seq<nat>, replies: seq<Reply>, n: nat, h: nat) returns (i: nat)
    requires n <= |users| == |replies| && h < |Handles(users, replies, n)|
    ensures i < n && Succeeded(replies[i])
    ensures Handles(users, replies, n)[h] == Handle(replies[i].booking.value, users[i])
    decreases n
  {
    if h < |Handles(users, replies, n - 1)| {
      i := HandlesAreTheirOwn(users, replies, n - 1, h);
    } else {
      i := n - 1;
    }
  }

  /** The handle is a booking made by the user's own request, which succeeded. */
  predicate OwnHandle(h: Handle, send: nat -> Reply) {
    send(h.user).ok && send(h.user).booking == Some(h.booking)
  }

  lemma {:induction false} HandlesOfAll(users: seq<nat>, replies: seq<Reply>, n: nat, i: nat)
    requires i < n <= |users| == |replies| && replies[i].ok && replies[i].booking.Some?
    ensures Handle(replies[i].booking.value, users[i]) in Handles(users, replies, n)
  {
    if i < n - 1 {
      HandlesOfAll(users, replies, n - 1, i);
    }
  }

  /** The users, by position, whose requests were turned away because nothing was left, or failed in another way. */
  function Turned(users: seq<nat>, send: nat -> Reply, n: nat, away: bool): set<nat> {
    set i: nat | i < n && i < |users| && !Succeeded(send(users[i])) && (send(users[i]).status == 409) == away
  }

  lemma TurnedStep(users: seq<nat>, send: nat -> Reply, n: nat, away: bool)
    requires n < |users|
    ensures |Turned(users, send, n + 1, away)|
      == |Turned(users, send, n, away)| + if !Succeeded(send(users[n])) && (send(users[n]).status == 409) == away then 1 else 0
  {
    var counts := !Succeeded(send(users[n])) && (send(users[n]).status == 409) == away;
    assert Turned(users, send, n + 1, away) == Turned(users, send, n, away) + if counts then {n} else {};
  }

  /**
   Send one request per user through the pool and sort the replies. Every handle is its user's own; the
   conflicts are the users whose request ended in a 409, the other failures those it failed for otherwise.
   */
  method ReservationWave(users: seq<nat>, concurrency: nat, send: nat -> Reply)
    returns (bookings: seq<Handle>, conflicts: nat, otherFailures: nat)
    requires concurrency >= 1
    ensures |bookings| + conflicts + otherFailures == |users|
    ensures conflicts == |Turned(users, send, |users|, true)|
    ensures otherFailures == |Turned(users, send, |users|, false)|
    ensures forall h :: 0 <= h < |bookings| ==> bookings[h].user in users && OwnHandle(bookings[h], send)
    ensures forall i :: 0 <= i < |users| && send(users[i]).ok && send(users[i]).booking.Some? ==>
      Handle(send(users[i]).booking.value, users[i]) in bookings
    ensures bookings == Handles(users, seq(|users|, i requires 0 <= i < |users| => send(users[i])), |users|)
  {
    var results, _, _, _ := RunPool(users, concurrency, (u: nat, i: nat) => send(u));
    ghost var replies := seq(|users|, i requires 0 <= i < |users| => send(users[i]));
    bookings, conflicts, otherFailures := [], 0, 0;
    for i := 0 to |users|
      invariant |bookings| + conflicts + otherFailures == i
      invariant bookings == Handles(users, replies, i)
      invariant conflicts == |Turned(users, send, i, true)| && otherFailures == |Turned(users, send, i, false)|
    {
      TurnedStep(users, send, i, true);
      TurnedStep(users, send, i, false);
      var r := results[i].value;
      if r.ok && r.booking.Some? {
        bookings := bookings + [Handle(r.booking.value, users[i])];
      } else if r.status == 409 {
        conflicts := conflicts + 1;
      } else {
        otherFailures := otherFailures + 1;
      }
    }
    forall i | 0 <= i < |users| && send(users[i]).ok && send(users[i]).booking.Some?
      ensures Handle(send(users[i]).booking.value, users[i]) in bookings
    {
      HandlesOfAll(users, replies, |users|, i);
    }
    forall h | 0 <= h < |bookings| ensures bookings[h].user in users && OwnHandle(bookings[h], send) {
      var i := HandlesAreTheirOwn(users, replies, |users|, h);
      assert users[i] in users;
    }
  }
}
