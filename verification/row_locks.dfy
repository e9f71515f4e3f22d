/**
 Row locks taken by concurrent transactions. Each transaction locks the rows of its plan one by one
 and releases them all when it ends; a transaction whose next row is held by another waits.
 */
module RowLocks {

  type Row = nat
  type Txn = nat

  /** taken[t] rows of plan t are locked, unless t is done. */
  datatype System = System(plans: seq<seq<Row>>, taken: seq<nat>, done: seq<bool>)

  ghost predicate Valid(s: System) {
    && |s.taken| == |s.plans| == |s.done|
    && forall t :: 0 <= t < |s.plans| ==> s.taken[t] <= |s.plans[t]|
  }

  predicate Holds(s: System, t: Txn, r: Row)
    requires Valid(s)
  {
    t < |s.plans| && !s.done[t] && r in s.plans[t][..s.taken[t]]
  }

  predicate HeldByOther(s: System, t: Txn, r: Row)
    requires Valid(s)
  {
    exists u: nat :: u < |s.plans| && u != t && Holds(s, u, r)
  }

  predicate Acquiring(s: System, t: Txn)
    requires Valid(s)
  {
    t < |s.plans| && !s.done[t] && s.taken[t] < |s.plans[t]|
  }

  predicate CanStep(s: System, t: Txn)
    requires Valid(s)
  {
    t < |s.plans| && !s.done[t] && (Acquiring(s, t) ==> !HeldByOther(s, t, s.plans[t][s.taken[t]]))
  }

  /** Take the next row, or end when there is none left; a transaction that has to wait stays as it is. */
  function Step(s: System, t: Txn): (s': System)
    requires Valid(s)
    ensures Valid(s') && s'.plans == s.plans
  {
    if !CanStep(s, t) then s
    else if Acquiring(s, t) then s.(taken := s.taken[t := s.taken[t] + 1])
    else s.(done := s.done[t := true])
  }

  function Run(s: System, schedule: seq<Txn>): (s': System)
    requires Valid(s)
    ensures Valid(s') && s'.plans == s.plans
    decreases |schedule|
  {
    if schedule == [] then s else Run(Step(s, schedule[0]), schedule[1..])
  }

  function Start(plans: seq<seq<Row>>): (s: System)
    ensures Valid(s) && s.plans == plans
  {
    System(plans, seq(|plans|, _ => 0), seq(|plans|, _ => false))
  }

  /** No row is locked by two transactions. */
  ghost predicate Exclusive(s: System)
    requires Valid(s)
  {
    forall t: nat, u: nat, r :: t < u && Holds(s, t, r) ==> !Holds(s, u, r)
  }

  lemma StepKeepsExclusive(s: System, t: Txn)
    requires Valid(s) && Exclusive(s)
    ensures Exclusive(Step(s, t))
  {
    var s' := Step(s, t);
    if CanStep(s, t) && Acquiring(s, t) {
      var row := s.plans[t][s.taken[t]];
      assert s.plans[t][..s.taken[t] + 1] == s.plans[t][..s.taken[t]] + [row];
      forall u: nat, r ensures Holds(s', u, r) <==> Holds(s, u, r) || (u == t && r == row) {
      }
    } else {
      forall u: nat, r | Holds(s', u, r) ensures Holds(s, u, r) {
      }
    }
  }

  lemma {:induction false} RunKeepsExclusive(s: System, schedule: seq<Txn>)
    requires Valid(s) && Exclusive(s)
    ensures Exclusive(Run(s, schedule))
    decreases |schedule|
  {
    if schedule != [] {
      StepKeepsExclusive(s, schedule[0]);
      RunKeepsExclusive(Step(s, schedule[0]), schedule[1..]);
    }
  }

  // ---------------------------------------------------------------------------------------
  //  Plans in ascending order
  // ---------------------------------------------------------------------------------------

  ghost predicate Ascending(plan: seq<Row>) {
    forall i, j :: 0 <= i < j < |plan| ==> plan[i] < plan[j]
  }

  ghost predicate AllAscending(s: System) {
    forall t :: 0 <= t < |s.plans| ==> Ascending(s.plans[t])
  }

  function NextRow(s: System, t: Txn): Row
    requires Valid(s) && Acquiring(s, t)
  {
    s.plans[t][s.taken[t]]
  }

  /** t waits for a row that u holds. */
  predicate WaitsFor(s: System, t: Txn, u: Txn)
    requires Valid(s)
  {
    Acquiring(s, t) && t != u && Holds(s, u, s.plans[t][s.taken[t]])
  }

  /** Whoever holds a row that others wait for is itself after a greater one. */
  lemma HolderIsAhead(s: System, t: Txn, u: Txn)
    requires Valid(s) && AllAscending(s) && WaitsFor(s, t, u) && Acquiring(s, u)
    ensures NextRow(s, t) < NextRow(s, u)
  {
    var k :| 0 <= k < s.taken[u] && s.plans[u][k] == NextRow(s, t);
    assert Ascending(s.plans[u]);
  }

  /** Each transaction of a chain waits for the next one. */
  ghost predicate WaitChain(s: System, chain: seq<Txn>)
    requires Valid(s)
  {
    forall i :: 0 <= i < |chain| - 1 ==> WaitsFor(s, chain[i], chain[i + 1])
  }

  lemma {:induction false} ChainClimbs(s: System, chain: seq<Txn>)
    requires Valid(s) && AllAscending(s) && WaitChain(s, chain) && |chain| >= 2
    requires Acquiring(s, chain[|chain| - 1])
    ensures Acquiring(s, chain[0]) && NextRow(s, chain[0]) < NextRow(s, chain[|chain| - 1])
    decreases |chain|
  {
    assert WaitsFor(s, chain[0], chain[1]);
    if |chain| == 2 {
      HolderIsAhead(s, chain[0], chain[1]);
    } else {
      assert WaitsFor(s, chain[1], chain[2]);
      HolderIsAhead(s, chain[0], chain[1]);
      forall i | 0 <= i < |chain[1..]| - 1 ensures WaitsFor(s, chain[1..][i], chain[1..][i + 1]) {
        assert WaitsFor(s, chain[i + 1], chain[i + 2]);
      }
      ChainClimbs(s, chain[1..]);
    }
  }

  /** With ascending plans the waits-for relation has no cycle, in any state. */
  lemma NoWaitCycle(s: System, chain: seq<Txn>)
    requires Valid(s) && AllAscending(s) && WaitChain(s, chain) && |chain| >= 2
    ensures chain[0] != chain[|chain| - 1]
  {
    if chain[0] == chain[|chain| - 1] {
      assert WaitsFor(s, chain[0], chain[1]);
      ChainClimbs(s, chain);
    }
  }

  /** Following the waits upward from a transaction ends at one that can step. */
  lemma {:induction false} FollowWaits(s: System, t: Txn, bound: Row) returns (u: Txn)
    requires Valid(s) && AllAscending(s) && t < |s.plans| && !s.done[t]
    requires forall v: nat, k: nat :: v < |s.plans| && k < |s.plans[v]| ==> s.plans[v][k] < bound
    ensures CanStep(s, u)
    decreases if Acquiring(s, t) then bound - NextRow(s, t) else 0
  {
    if CanStep(s, t) {
      u := t;
    } else {
      var v: nat :| v < |s.plans| && v != t && Holds(s, v, s.plans[t][s.taken[t]]);
      assert WaitsFor(s, t, v);
      if Acquiring(s, v) {
        HolderIsAhead(s, t, v);
      }
      u := FollowWaits(s, v, bound);
    }
  }

  function MaxOf(plan: seq<Row>): (m: Row)
    ensures forall k: nat :: k < |plan| ==> plan[k] <= m
  {
    if plan == [] then 0 else if plan[0] > MaxOf(plan[1..]) then plan[0] else MaxOf(plan[1..])
  }

  function RowBound(plans: seq<seq<Row>>): (m: Row)
    ensures forall v: nat, k: nat :: v < |plans| && k < |plans[v]| ==> plans[v][k] < m
  {
    if plans == [] then 0
    else if MaxOf(plans[0]) + 1 > RowBound(plans[1..]) then MaxOf(plans[0]) + 1 else RowBound(plans[1..])
  }

  /** With ascending plans no state is stuck: while a transaction is unfinished, some transaction can step. */
  lemma NeverStuck(s: System, t: Txn) returns (u: Txn)
    requires Valid(s) && AllAscending(s) && t < |s.plans| && !s.done[t]
    ensures CanStep(s, u)
  {
    u := FollowWaits(s, t, RowBound(s.plans));
  }

  /** What is still to be done: the rows to lock and one step to end, for each unfinished transaction. */
  function Left(plans: seq<seq<Row>>, taken: seq<nat>, done: seq<bool>): nat
    requires |taken| == |plans| == |done|
    requires forall t :: 0 <= t < |plans| ==> taken[t] <= |plans[t]|
  {
    if plans == [] then 0
    else (if done[0] then 0 else |plans[0]| - taken[0] + 1) + Left(plans[1..], taken[1..], done[1..])
  }

  function Remaining(s: System): nat
    requires Valid(s)
  {
    Left(s.plans, s.taken, s.done)
  }

  lemma {:induction false} LeftDrops(plans: seq<seq<Row>>, taken: seq<nat>, done: seq<bool>, t: nat)
    requires |taken| == |plans| == |done| && t < |plans| && !done[t]
    requires forall u :: 0 <= u < |plans| ==> taken[u] <= |plans[u]|
    ensures taken[t] < |plans[t]| ==> Left(plans, taken[t := taken[t] + 1], done) == Left(plans, taken, done) - 1
    ensures taken[t] == |plans[t]| ==> Left(plans, taken, done[t := true]) == Left(plans, taken, done) - 1
  {
    if t == 0 {
      assert taken[0 := taken[0] + 1][1..] == taken[1..] && done[0 := true][1..] == done[1..];
    } else {
      assert taken[t := taken[t] + 1][1..] == taken[1..][t - 1 := taken[t] + 1];
      assert done[t := true][1..] == done[1..][t - 1 := true];
      LeftDrops(plans[1..], taken[1..], done[1..], t - 1);
    }
  }

  /** Every step that happens brings the end exactly one step nearer. */
  lemma StepProgresses(s: System, t: Txn)
    requires Valid(s) && CanStep(s, t)
    ensures Remaining(Step(s, t)) == Remaining(s) - 1
  {
    LeftDrops(s.plans, s.taken, s.done, t);
  }

  ghost predicate Finished(s: System) {
    forall t :: 0 <= t < |s.done| ==> s.done[t]
  }

  /** From every state a schedule of exactly the remaining number of steps finishes every transaction. */
  lemma {:induction false} CanAlwaysFinish(s: System) returns (schedule: seq<Txn>)
    requires Valid(s) && AllAscending(s)
    ensures |schedule| == Remaining(s) && Finished(Run(s, schedule))
    decreases Remaining(s)
  {
    if t :| 0 <= t < |s.done| && !s.done[t] {
      var u := NeverStuck(s, t);
      StepProgresses(s, u);
      var rest := CanAlwaysFinish(Step(s, u));
      schedule := [u] + rest;
      assert schedule[1..] == rest;
    } else {
      schedule := [];
      NothingLeft(s.plans, s.taken, s.done);
    }
  }

  lemma {:induction false} NothingLeft(plans: seq<seq<Row>>, taken: seq<nat>, done: seq<bool>)
    requires |taken| == |plans| == |done|
    requires forall t :: 0 <= t < |plans| ==> taken[t] <= |plans[t]|
    requires forall t :: 0 <= t < |done| ==> done[t]
    ensures Left(plans, taken, done) == 0
  {
    if plans != [] {
      NothingLeft(plans[1..], taken[1..], done[1..]);
    }
  }

  // ---------------------------------------------------------------------------------------
  //  Plans in any order: when transactions can deadlock
  // ---------------------------------------------------------------------------------------

  /** Each transaction of the group waits for another one of it. */
  ghost predicate Deadlocked(s: System, group: set<Txn>)
    requires Valid(s)
  {
    group != {} && forall t {:trigger WaitsWithin(s, t, group)} :: t in group ==> WaitsWithin(s, t, group)
  }

  ghost predicate WaitsWithin(s: System, t: Txn, group: set<Txn>)
    requires Valid(s)
  {
    exists u :: u in group && WaitsFor(s, t, u)
  }

  lemma StepKeepsWait(s: System, t: Txn, v: Txn, u: Txn)
    requires Valid(s) && WaitsFor(s, v, u) && (CanStep(s, t) ==> t != u)
    ensures WaitsFor(Step(s, t), v, u)
  {
  }

  lemma MemberCannotStep(s: System, t: Txn, group: set<Txn>)
    requires Valid(s) && Deadlocked(s, group) && t in group
    ensures !CanStep(s, t)
  {
    assert WaitsWithin(s, t, group);
  }

  lemma StepKeepsDeadlock(s: System, t: Txn, group: set<Txn>)
    requires Valid(s) && Deadlocked(s, group)
    ensures Deadlocked(Step(s, t), group)
  {
    if t in group {
      MemberCannotStep(s, t, group);
    }
    forall v | v in group ensures WaitsWithin(Step(s, t), v, group) {
      assert WaitsWithin(s, v, group);
      var u :| u in group && WaitsFor(s, v, u);
      StepKeepsWait(s, t, v, u);
    }
  }

  /** Nothing that anybody does gets a deadlocked group moving again. */
  lemma {:induction false} DeadlockIsForGood(s: System, schedule: seq<Txn>, group: set<Txn>)
    requires Valid(s) && Deadlocked(s, group)
    ensures Deadlocked(Run(s, schedule), group)
    decreases |schedule|
  {
    if schedule != [] {
      StepKeepsDeadlock(s, schedule[0], group);
      DeadlockIsForGood(Step(s, schedule[0]), schedule[1..], group);
    }
  }

  function Repeat(t: Txn, n: nat): seq<Txn> {
    seq(n, _ => t)
  }

  lemma {:induction false} TakesUndisturbed(s: System, t: Txn, n: nat)
    requires Valid(s) && t < |s.plans| && !s.done[t] && s.taken[t] + n <= |s.plans[t]|
    requires forall k :: s.taken[t] <= k < s.taken[t] + n ==> !HeldByOther(s, t, s.plans[t][k])
    ensures Run(s, Repeat(t, n)) == s.(taken := s.taken[t := s.taken[t] + n])
    decreases n
  {
    if n == 0 {
      assert s.taken[t := s.taken[t]] == s.taken;
    } else {
      var s1 := Step(s, t);
      assert !HeldByOther(s, t, s.plans[t][s.taken[t]]);
      assert s1 == s.(taken := s.taken[t := s.taken[t] + 1]);
      forall k | s1.taken[t] <= k < s1.taken[t] + (n - 1) ensures !HeldByOther(s1, t, s1.plans[t][k]) {
        assert !HeldByOther(s, t, s.plans[t][k]);
        forall u: nat | u < |s.plans| && u != t ensures Holds(s1, u, s.plans[t][k]) == Holds(s, u, s.plans[t][k]) {
        }
      }
      TakesUndisturbed(s1, t, n - 1);
      assert Repeat(t, n)[1..] == Repeat(t, n - 1);
      assert s1.taken[t := s1.taken[t] + (n - 1)] == s.taken[t := s.taken[t] + n];
    }
  }

  lemma {:induction false} RunAppend(s: System, a: seq<Txn>, b: seq<Txn>)
    requires Valid(s)
    ensures Run(s, a + b) == Run(Run(s, a), b)
    decreases |a|
  {
    if a == [] {
      assert a + b == b;
    } else {
      assert (a + b)[1..] == a[1..] + b;
      RunAppend(Step(s, a[0]), a[1..], b);
    }
  }

  /** Some number of rows from the front of each plan of the group, none in two plans, such that each plan goes on with a row of another. */
  ghost predicate Knot(plans: seq<seq<Row>>, group: set<Txn>, pos: seq<nat>) {
    && |pos| == |plans| && group != {}
    && (forall t :: t in group ==> t < |plans|)
    && (forall t {:trigger InPlace(plans, group, pos, t)} :: 0 <= t < |plans| ==> InPlace(plans, group, pos, t))
    && AllApart(plans, pos)
  }

  ghost predicate InPlace(plans: seq<seq<Row>>, group: set<Txn>, pos: seq<nat>, t: Txn)
    requires |pos| == |plans| && t < |plans|
  {
    if t in group then pos[t] < |plans[t]| && GoesOnInto(plans, group, pos, t) else pos[t] == 0
  }

  ghost predicate GoesOnInto(plans: seq<seq<Row>>, group: set<Txn>, pos: seq<nat>, t: Txn)
    requires |pos| == |plans| && t < |plans| && pos[t] < |plans[t]|
  {
    exists u :: u in group && u != t && u < |plans| && pos[u] <= |plans[u]| && plans[t][pos[t]] in plans[u][..pos[u]]
  }

  ghost predicate Apart(plans: seq<seq<Row>>, pos: seq<nat>, t: Txn, u: Txn)
    requires |pos| == |plans| && t < |plans| && u < |plans|
  {
    && pos[t] <= |plans[t]| && pos[u] <= |plans[u]|
    && forall i, j :: 0 <= i < pos[t] && 0 <= j < pos[u] ==> plans[t][i] != plans[u][j]
  }

  ghost predicate AllApart(plans: seq<seq<Row>>, pos: seq<nat>) {
    && |pos| == |plans|
    && (forall t :: 0 <= t < |plans| ==> pos[t] <= |plans[t]|)
    && (forall t, u {:trigger Apart(plans, pos, t, u)} :: 0 <= t < u < |plans| ==> Apart(plans, pos, t, u))
  }

  /** The first k transactions have taken their rows, the others none. */
  function Upto(plans: seq<seq<Row>>, pos: seq<nat>, k: nat): System
    requires |pos| == |plans|
  {
    System(plans, seq(|pos|, t requires 0 <= t < |pos| => if t < k then pos[t] else 0), seq(|plans|, _ => false))
  }

  function InTurn(pos: seq<nat>, k: nat): seq<Txn>
    requires k <= |pos|
  {
    if k == 0 then [] else InTurn(pos, k - 1) + Repeat(k - 1, pos[k - 1])
  }

  lemma NextIsFree(plans: seq<seq<Row>>, pos: seq<nat>, k: nat, j: nat)
    requires AllApart(plans, pos) && k < |plans| && j < pos[k]
    ensures Valid(Upto(plans, pos, k)) && !HeldByOther(Upto(plans, pos, k), k, plans[k][j])
  {
    var s := Upto(plans, pos, k);
    forall u: nat | u < |plans| && u != k ensures !Holds(s, u, plans[k][j]) {
      if u < k {
        assert Apart(plans, pos, u, k);
      }
    }
  }

  lemma OneMoreTakes(plans: seq<seq<Row>>, pos: seq<nat>, t: nat)
    requires AllApart(plans, pos) && t < |plans|
    ensures Valid(Upto(plans, pos, t)) && Run(Upto(plans, pos, t), Repeat(t, pos[t])) == Upto(plans, pos, t + 1)
  {
    var s := Upto(plans, pos, t);
    forall j | 0 <= j < pos[t] ensures !HeldByOther(s, t, plans[t][j]) {
      NextIsFree(plans, pos, t, j);
    }
    TakesUndisturbed(s, t, pos[t]);
    assert Upto(plans, pos, t + 1).taken == s.taken[t := pos[t]];
  }

  lemma NoneTaken(plans: seq<seq<Row>>, pos: seq<nat>)
    requires |pos| == |plans|
    ensures Upto(plans, pos, 0) == Start(plans) && InTurn(pos, 0) == []
  {
  }

  /** Transactions that want nothing the others have taken can take their rows one transaction after the other. */
  lemma {:induction false} TakenInTurn(plans: seq<seq<Row>>, pos: seq<nat>, k: nat)
    requires AllApart(plans, pos) && k <= |plans|
    ensures Run(Start(plans), InTurn(pos, k)) == Upto(plans, pos, k)
  {
    if k == 0 {
      NoneTaken(plans, pos);
    } else {
      var t: nat := k - 1;
      TakenInTurn(plans, pos, t);
      OneMoreTakes(plans, pos, t);
      RunAppend(Start(plans), InTurn(pos, t), Repeat(t, pos[t]));
    }
  }

  lemma KnotDeadlocks(plans: seq<seq<Row>>, group: set<Txn>, pos: seq<nat>)
    requires Knot(plans, group, pos)
    ensures Deadlocked(Run(Start(plans), InTurn(pos, |plans|)), group)
  {
    TakenInTurn(plans, pos, |plans|);
    var s := Upto(plans, pos, |plans|);
    forall t | t in group ensures WaitsWithin(s, t, group) {
      assert InPlace(plans, group, pos, t);
      var u :| u in group && u != t && u < |plans| && pos[u] <= |plans[u]| && plans[t][pos[t]] in plans[u][..pos[u]];
      assert WaitsFor(s, t, u);
    }
  }

  /** How far each member of the group has come. */
  function Positions(s: System, group: set<Txn>): seq<nat>
    requires Valid(s)
  {
    seq(|s.plans|, t requires 0 <= t < |s.plans| => if t in group then s.taken[t] else 0)
  }

  lemma HeldApart(s: System, group: set<Txn>, t: Txn, u: Txn)
    requires Valid(s) && Exclusive(s) && Deadlocked(s, group) && t < u < |s.plans|
    ensures Apart(s.plans, Positions(s, group), t, u)
  {
    var pos := Positions(s, group);
    forall i, j | 0 <= i < pos[t] && 0 <= j < pos[u] ensures s.plans[t][i] != s.plans[u][j] {
      assert WaitsWithin(s, t, group) && WaitsWithin(s, u, group);
      assert s.plans[t][i] == s.plans[t][..pos[t]][i] && s.plans[u][j] == s.plans[u][..pos[u]][j];
      assert Holds(s, t, s.plans[t][i]) && Holds(s, u, s.plans[u][j]);
    }
  }

  lemma MemberInPlace(s: System, group: set<Txn>, t: Txn)
    requires Valid(s) && Deadlocked(s, group) && t < |s.plans|
    ensures InPlace(s.plans, group, Positions(s, group), t)
  {
    var pos := Positions(s, group);
    if t in group {
      assert WaitsWithin(s, t, group);
      var u :| u in group && WaitsFor(s, t, u);
      assert s.plans[t][pos[t]] in s.plans[u][..pos[u]];
    }
  }

  lemma DeadlockIsKnot(s: System, group: set<Txn>)
    requires Valid(s) && Exclusive(s) && Deadlocked(s, group)
    ensures Knot(s.plans, group, Positions(s, group))
  {
    var pos := Positions(s, group);
    forall t | t in group ensures t < |s.plans| {
      assert WaitsWithin(s, t, group);
    }
    forall t | 0 <= t < |s.plans| ensures InPlace(s.plans, group, pos, t) {
      MemberInPlace(s, group, t);
    }
    forall t, u | 0 <= t < u < |s.plans| ensures Apart(s.plans, pos, t, u) {
      HeldApart(s, group, t, u);
    }
  }

  ghost predicate CanDeadlock(plans: seq<seq<Row>>) {
    exists schedule: seq<Txn>, group: set<Txn> :: Deadlocked(Run(Start(plans), schedule), group)
  }

  ghost predicate Knotted(plans: seq<seq<Row>>) {
    exists group: set<Txn>, pos: seq<nat> :: Knot(plans, group, pos)
  }

  /** Any number of transactions can deadlock exactly when their plans can be knotted. */
  lemma DeadlocksIff(plans: seq<seq<Row>>)
    ensures CanDeadlock(plans) <==> Knotted(plans)
  {
    if CanDeadlock(plans) {
      var schedule: seq<Txn>, group: set<Txn> :| Deadlocked(Run(Start(plans), schedule), group);
      RunKeepsExclusive(Start(plans), schedule);
      DeadlockIsKnot(Run(Start(plans), schedule), group);
    }
    if Knotted(plans) {
      var group: set<Txn>, pos: seq<nat> :| Knot(plans, group, pos);
      KnotDeadlocks(plans, group, pos);
    }
  }

  // ---------------------------------------------------------------------------------------
  //  Two transactions
  // ---------------------------------------------------------------------------------------

  ghost predicate PairDeadlocked(s: System)
    requires Valid(s) && |s.plans| == 2
  {
    WaitsFor(s, 0, 1) && WaitsFor(s, 1, 0)
  }

  /** After p rows of one plan and q of the other, with none in common, each wants a row the other has. */
  predicate Crossing(a: seq<Row>, b: seq<Row>, p: nat, q: nat) {
    && p < |a| && q < |b|
    && a[p] in b[..q] && b[q] in a[..p]
    && forall i, j :: 0 <= i < p && 0 <= j < q ==> a[i] != b[j]
  }

  lemma CrossingDeadlocks(a: seq<Row>, b: seq<Row>, p: nat, q: nat)
    requires Crossing(a, b, p, q)
    ensures PairDeadlocked(Run(Start([a, b]), Repeat(0, p) + Repeat(1, q)))
  {
    var s := Start([a, b]);
    TakesUndisturbed(s, 0, p);
    var s1 := Run(s, Repeat(0, p));
    forall k | 0 <= k < q ensures !HeldByOther(s1, 1, b[k]) {
      assert forall i :: 0 <= i < p ==> a[i] != b[k];
      assert !Holds(s1, 0, b[k]);
    }
    TakesUndisturbed(s1, 1, q);
    RunAppend(s, Repeat(0, p), Repeat(1, q));
  }

  lemma DeadlockIsCrossing(a: seq<Row>, b: seq<Row>, schedule: seq<Txn>)
    requires PairDeadlocked(Run(Start([a, b]), schedule))
    ensures var s := Run(Start([a, b]), schedule); Crossing(a, b, s.taken[0], s.taken[1])
  {
    var s := Run(Start([a, b]), schedule);
    RunKeepsExclusive(Start([a, b]), schedule);
    forall i, j | 0 <= i < s.taken[0] && 0 <= j < s.taken[1] ensures a[i] != b[j] {
      assert a[i] == a[..s.taken[0]][i] && b[j] == b[..s.taken[1]][j];
      assert Holds(s, 0, a[i]) && Holds(s, 1, b[j]);
    }
  }

  /** Two transactions can deadlock exactly when their plans cross. */
  lemma PairDeadlocksIff(a: seq<Row>, b: seq<Row>)
    ensures (exists schedule :: PairDeadlocked(Run(Start([a, b]), schedule))) <==> (exists p, q :: Crossing(a, b, p, q))
  {
    if schedule :| PairDeadlocked(Run(Start([a, b]), schedule)) {
      DeadlockIsCrossing(a, b, schedule);
    }
    if p, q :| Crossing(a, b, p, q) {
      CrossingDeadlocks(a, b, p, q);
    }
  }

  /** Two payments that convert holds of the same two ticket types, each in the order of its hold ids, can deadlock. */
  lemma OppositeOrdersDeadlock(r: Row, q: Row)
    requires r != q
    ensures exists schedule :: PairDeadlocked(Run(Start([[r, q], [q, r]]), schedule))
  {
    assert [r, q][..1] == [r] && [q, r][..1] == [q];
    assert Crossing([r, q], [q, r], 1, 1);
    PairDeadlocksIff([r, q], [q, r]);
  }

  /**
   A payment locks the order and then its holds; a coin checkout of the same order locks the holds and
   then updates the order. The two can deadlock, however many holds there are.
   */
  lemma PaymentAndCoinsDeadlock(order: Row, holds: seq<Row>)
    requires holds != [] && order !in holds
    ensures exists schedule :: PairDeadlocked(Run(Start([[order] + holds, holds + [order]]), schedule))
  {
    var a, b := [order] + holds, holds + [order];
    assert a[1] == holds[0] && b[|holds|] == order && b[..|holds|] == holds && a[..1] == [order];
    assert Crossing(a, b, 1, |holds|);
    PairDeadlocksIff(a, b);
  }

  /** Three payments, each of holds of two ticket types in the order of the hold ids, can deadlock although no two of them can. */
  lemma ThreeWithoutAPair(p: Row, q: Row, r: Row)
    requires p != q && q != r && p != r
    ensures CanDeadlock([[p, q], [q, r], [r, p]])
    ensures forall i, j :: !Crossing([p, q], [q, r], i, j) && !Crossing([q, r], [r, p], i, j) && !Crossing([r, p], [p, q], i, j)
  {
    var plans, group, pos := [[p, q], [q, r], [r, p]], {0, 1, 2}, [1, 1, 1];
    assert [p, q][..1] == [p] && [q, r][..1] == [q] && [r, p][..1] == [r];
    assert InPlace(plans, group, pos, 0) by { assert q in plans[1][..pos[1]]; }
    assert InPlace(plans, group, pos, 1) by { assert r in plans[2][..pos[2]]; }
    assert InPlace(plans, group, pos, 2) by { assert p in plans[0][..pos[0]]; }
    assert Knot(plans, group, pos);
    DeadlocksIff(plans);
  }
}
