/**
 The hash chain under concurrent posting. Each worker's transaction takes its timestamp when it
 begins, waits for the tenant's lock, reads the row with the latest timestamp as the head, and
 commits. Verification walks the rows in timestamp order. The lock alone does not make the chain
 healthy: it is healthy exactly when workers committed in the order in which they began.
 */
module LedgerChain {
  import opened Common
  import opened Ledger
  import opened LedgerBooks

  // ---------------------------------------------------------------------------------------
  //  Verification
  // ---------------------------------------------------------------------------------------

  function InsertByTime(sorted: seq<Row>, row: Row): seq<Row> {
    if sorted == [] || row.createdAt < sorted[0].createdAt then [row] + sorted
    else [sorted[0]] + InsertByTime(sorted[1..], row)
  }

  /** The rows in order of creation time, as verification reads them. */
  function ByTime(rows: seq<Row>): seq<Row> {
    if rows == [] then [] else InsertByTime(ByTime(rows[..|rows| - 1]), rows[|rows| - 1])
  }

  /** One complaint per wrong link and one per wrong hash. */
  function Errors(rows: seq<Row>, expected: Hash): nat {
    if rows == [] then 0
    else
      (if rows[0].previous != expected then 1 else 0)
      + (if rows[0].current != Of(expected, rows[0].posting) then 1 else 0)
      + Errors(rows[1..], rows[0].current)
  }

  predicate Healthy(rows: seq<Row>) {
    Errors(rows, Genesis) == 0
  }

  /** Walk the chain and count what is wrong with it. */
  method VerifyChain(rows: seq<Row>) returns (healthy: bool, verified: nat, errors: nat)
    ensures errors == Errors(rows, Genesis) && verified == |rows|
    ensures healthy <==> Healthy(rows)
  {
    var expected := Genesis;
    errors, verified := 0, 0;
    while verified < |rows|
      invariant verified <= |rows|
      invariant errors + Errors(rows[verified..], expected) == Errors(rows, Genesis)
    {
      var row := rows[verified];
      assert rows[verified..][0] == row && rows[verified..][1..] == rows[verified + 1..];
      if row.previous != expected {
        errors := errors + 1;
      }
      if row.current != Of(expected, row.posting) {
        errors := errors + 1;
      }
      expected := row.current;
      verified := verified + 1;
    }
    healthy := errors == 0;
  }

  // ---------------------------------------------------------------------------------------
  //  Tampering
  // ---------------------------------------------------------------------------------------

  function Complaint(wrong: bool): nat {
    if wrong then 1 else 0
  }

  /** What verification finds when one row of a healthy chain is replaced by another. */
  lemma {:induction false} EditedRowErrors(rows: seq<Row>, expected: Hash, j: nat, row: Row)
    requires j < |rows| && Errors(rows, expected) == 0
    ensures Errors(rows[j := row], expected)
      == Complaint(row.previous != rows[j].previous) + Complaint(row.current != Of(rows[j].previous, row.posting))
         + (if j < |rows| - 1 && row.current != rows[j].current then 2 else 0)
  {
    var changed := rows[j := row];
    if j > 0 {
      assert changed[1..] == rows[1..][j - 1 := row];
      EditedRowErrors(rows[1..], rows[0].current, j - 1, row);
    } else {
      assert changed[1..] == rows[1..];
      if |rows| > 1 {
        NextRowErrors(rows[1..], rows[0].current, row.current);
      }
    }
  }

  /** A chain that is healthy after one hash gets two complaints after any other. */
  lemma NextRowErrors(rows: seq<Row>, expected: Hash, other: Hash)
    requires rows != [] && Errors(rows, expected) == 0
    ensures Errors(rows, other) == if other == expected then 0 else 2
  {
  }

  /** Editing what any row of a healthy chain records, while its hashes stay, is reported once; undoing the edit heals it. */
  lemma TamperingIsDetected(rows: seq<Row>, j: nat, p: Posting)
    requires j < |rows| && p != rows[j].posting && Healthy(rows)
    ensures var edited := rows[j := rows[j].(posting := p)];
      Errors(edited, Genesis) == 1 && Healthy(edited[j := edited[j].(posting := rows[j].posting)])
  {
    var edited := rows[j := rows[j].(posting := p)];
    EditedRowErrors(rows, Genesis, j, rows[j].(posting := p));
    HealthyRow(rows, Genesis, j);
    assert edited[j := edited[j].(posting := rows[j].posting)] == rows;
  }

  /**
   Whatever is changed in a row of a healthy chain, its link and its hash included, verification
   reports it, unless nothing it reads has changed or the row is the last one and its hash was
   computed anew: nothing after it speaks against that.
   */
  lemma EditPassesIff(rows: seq<Row>, j: nat, row: Row)
    requires j < |rows| && Healthy(rows)
    ensures Healthy(rows[j := row]) <==>
      row.previous == rows[j].previous && row.current == Of(row.previous, row.posting)
      && (j == |rows| - 1 || row.posting == rows[j].posting)
  {
    EditedRowErrors(rows, Genesis, j, row);
    HealthyRow(rows, Genesis, j);
  }

  function Height(h: Hash): nat {
    if h.Genesis? then 0 else 1 + Height(h.previous)
  }

  lemma {:induction false} HealthyRow(rows: seq<Row>, expected: Hash, j: nat)
    requires Errors(rows, expected) == 0 && j < |rows|
    ensures Height(rows[j].current) == Height(expected) + j + 1
    ensures rows[j].previous == if j == 0 then expected else rows[j - 1].current
    ensures rows[j].current == Of(rows[j].previous, rows[j].posting)
  {
    if j > 0 {
      HealthyRow(rows[1..], rows[0].current, j - 1);
    }
  }

  /** Two healthy chains that end in the same hash record the same postings: history cannot be rewritten under a known head. */
  lemma {:induction false} SameHeadSameHistory(a: seq<Row>, b: seq<Row>, j: nat)
    requires Healthy(a) && Healthy(b) && a != [] && b != []
    requires a[|a| - 1].current == b[|b| - 1].current && j < |a|
    ensures |a| == |b| && a[j].posting == b[j].posting && a[j].current == b[j].current
    decreases |a| - j
  {
    HealthyRow(a, Genesis, |a| - 1);
    HealthyRow(b, Genesis, |b| - 1);
    if j < |a| - 1 {
      SameHeadSameHistory(a, b, j + 1);
      HealthyRow(a, Genesis, j + 1);
      HealthyRow(b, Genesis, j + 1);
      HealthyRow(a, Genesis, j);
      HealthyRow(b, Genesis, j);
    }
  }

  // ---------------------------------------------------------------------------------------
  //  Concurrent workers
  // ---------------------------------------------------------------------------------------

  datatype Phase =
    | Idle
    | Begun(startedAt: Time)
    | Holding(startedAt: Time)
    | Ready(startedAt: Time, head: Hash)

  /** The log is in order of commit. */
  datatype System = System(clock: Time, phases: seq<Phase>, holder: Option<nat>, log: seq<Row>)

  datatype Step =
    | Begin(worker: nat)
    | TakeLock(worker: nat)
    | ReadHead(worker: nat)
    | Commit(worker: nat, posting: Posting)
    | Abort(worker: nat)

  /** A step that is not possible leaves the system as it is. */
  function Next(s: System, step: Step): System {
    var w := step.worker;
    if w >= |s.phases| then s
    else
      match (step, s.phases[w])
      case (Begin(_), Idle) => s.(clock := s.clock + 1, phases := s.phases[w := Begun(s.clock)])
      case (TakeLock(_), Begun(at)) =>
        if s.holder.None? then s.(phases := s.phases[w := Holding(at)], holder := Some(w)) else s
      case (ReadHead(_), Holding(at)) => s.(phases := s.phases[w := Ready(at, Head(s.log))])
      case (Commit(_, p), Ready(at, head)) =>
        s.(phases := s.phases[w := Idle], holder := None, log := s.log + [NextRow(head, p, at)])
      case (Abort(_), _) => s.(phases := s.phases[w := Idle], holder := if s.holder == Some(w) then None else s.holder)
      case _ => s
  }

  function Exec(s: System, steps: seq<Step>): System
    decreases |steps|
  {
    if steps == [] then s else Exec(Next(s, steps[0]), steps[1..])
  }

  function Start(workers: nat): System {
    System(0, seq(workers, _ => Idle), None, [])
  }

  /** Every row was linked to the row that was latest when it committed. */
  ghost predicate Linked(log: seq<Row>) {
    forall j :: 0 <= j < |log| ==> log[j] == NextRow(Head(log[..j]), log[j].posting, log[j].createdAt)
  }

  ghost predicate DistinctTimes(log: seq<Row>) {
    forall i, j :: 0 <= i < j < |log| ==> log[i].createdAt != log[j].createdAt
  }

  /** The holder is the one worker past the lock, and what it has read is still the head. */
  ghost predicate LockHeld(s: System) {
    && (s.holder.Some? ==> s.holder.value < |s.phases|)
    && (forall w :: 0 <= w < |s.phases| ==> (s.phases[w].Holding? || s.phases[w].Ready? <==> s.holder == Some(w)))
    && (forall w :: 0 <= w < |s.phases| && s.phases[w].Ready? ==> s.phases[w].head == Head(s.log))
  }

  ghost predicate TimesUsedOnce(s: System) {
    && DistinctTimes(s.log)
    && (forall i :: 0 <= i < |s.log| ==> s.log[i].createdAt < s.clock)
    && (forall w :: 0 <= w < |s.phases| && !s.phases[w].Idle? ==> s.phases[w].startedAt < s.clock)
    && (forall v, w :: 0 <= v < w < |s.phases| && !s.phases[v].Idle? && !s.phases[w].Idle? ==>
          s.phases[v].startedAt != s.phases[w].startedAt)
    && (forall i, w :: 0 <= i < |s.log| && 0 <= w < |s.phases| && !s.phases[w].Idle? ==>
          s.log[i].createdAt != s.phases[w].startedAt)
  }

  ghost predicate Inv(s: System) {
    LockHeld(s) && TimesUsedOnce(s) && Linked(s.log)
  }

  lemma LinkedAppend(log: seq<Row>, p: Posting, at: Time)
    requires Linked(log)
    ensures Linked(log + [NextRow(Head(log), p, at)])
  {
    var longer := log + [NextRow(Head(log), p, at)];
    forall j | 0 <= j < |longer| ensures longer[j] == NextRow(Head(longer[..j]), longer[j].posting, longer[j].createdAt) {
      assert longer[..j] == log[..j];
      assert log[..|log|] == log;
    }
  }

  lemma NextKeepsLock(s: System, step: Step)
    requires LockHeld(s)
    ensures LockHeld(Next(s, step))
  {
  }

  lemma NextKeepsTimes(s: System, step: Step)
    requires TimesUsedOnce(s)
    ensures TimesUsedOnce(Next(s, step))
  {
  }

  lemma NextKeepsLinked(s: System, step: Step)
    requires LockHeld(s) && Linked(s.log)
    ensures Linked(Next(s, step).log)
  {
    var w := step.worker;
    if w < |s.phases| && step.Commit? && s.phases[w].Ready? {
      LinkedAppend(s.log, step.posting, s.phases[w].startedAt);
    }
  }

  /** Every log that any number of workers can produce, in any interleaving with any aborts, is linked. */
  lemma {:induction false} ExecKeepsInv(s: System, steps: seq<Step>)
    requires Inv(s)
    ensures Inv(Exec(s, steps))
    decreases |steps|
  {
    if steps != [] {
      NextKeepsLock(s, steps[0]);
      NextKeepsTimes(s, steps[0]);
      NextKeepsLinked(s, steps[0]);
      ExecKeepsInv(Next(s, steps[0]), steps[1..]);
    }
  }

  // ---------------------------------------------------------------------------------------
  //  When the chain is healthy
  // ---------------------------------------------------------------------------------------

  /** Rows were committed in the order in which their transactions began. */
  ghost predicate BeginOrder(log: seq<Row>) {
    forall i, j :: 0 <= i < j < |log| ==> log[i].createdAt < log[j].createdAt
  }

  lemma {:induction false} LatestIsLast(log: seq<Row>)
    requires BeginOrder(log) && log != []
    ensures Latest(log) == |log| - 1
  {
    if |log| > 1 {
      LatestIsLast(log[..|log| - 1]);
    }
  }

  ghost predicate Sorted(rows: seq<Row>) {
    forall i, j :: 0 <= i < j < |rows| ==> rows[i].createdAt <= rows[j].createdAt
  }

  lemma {:induction false} AlreadySorted(log: seq<Row>)
    requires Sorted(log)
    ensures ByTime(log) == log
  {
    if log != [] {
      var init, last := log[..|log| - 1], log[|log| - 1];
      AlreadySorted(init);
      InsertLast(init, last);
      assert init + [last] == log;
    }
  }

  lemma {:induction false} InsertLast(rows: seq<Row>, row: Row)
    requires forall i :: 0 <= i < |rows| ==> rows[i].createdAt <= row.createdAt
    ensures InsertByTime(rows, row) == rows + [row]
  {
    if rows != [] {
      InsertLast(rows[1..], row);
      assert rows + [row] == [rows[0]] + (rows[1..] + [row]);
    }
  }

  /** In a linked log committed in begin order each row's predecessor is its neighbour. */
  lemma LinkedToNeighbour(log: seq<Row>, j: nat)
    requires Linked(log) && j < |log| && BeginOrder(log[..j])
    ensures log[j].previous == if j == 0 then Genesis else log[j - 1].current
    ensures log[j].current == Of(log[j].previous, log[j].posting)
  {
    if j > 0 {
      LatestIsLast(log[..j]);
    }
  }

  lemma {:induction false} OrderedIsHealthyFrom(log: seq<Row>, j: nat)
    requires Linked(log) && BeginOrder(log) && j <= |log|
    ensures Errors(log[j..], if j == 0 then Genesis else log[j - 1].current) == 0
    decreases |log| - j
  {
    if j < |log| {
      LinkedToNeighbour(log, j);
      OrderedIsHealthyFrom(log, j + 1);
      assert log[j..][1..] == log[j + 1..];
    }
  }

  lemma {:induction false} InsertAfter(rows: seq<Row>, row: Row, from: Time)
    requires from <= row.createdAt && forall i :: 0 <= i < |rows| ==> from <= rows[i].createdAt
    ensures forall i :: 0 <= i < |InsertByTime(rows, row)| ==> from <= InsertByTime(rows, row)[i].createdAt
  {
    if rows != [] && row.createdAt >= rows[0].createdAt {
      InsertAfter(rows[1..], row, from);
    }
  }

  lemma {:induction false} InsertKeepsSorted(rows: seq<Row>, row: Row)
    requires Sorted(rows)
    ensures Sorted(InsertByTime(rows, row))
  {
    if rows != [] && row.createdAt >= rows[0].createdAt {
      InsertKeepsSorted(rows[1..], row);
      InsertAfter(rows[1..], row, rows[0].createdAt);
    }
  }

  lemma {:induction false} InsertAddsRow(rows: seq<Row>, row: Row, x: Row)
    ensures x in InsertByTime(rows, row) <==> x in rows || x == row
  {
    if rows != [] && row.createdAt >= rows[0].createdAt {
      InsertAddsRow(rows[1..], row, x);
      assert rows == [rows[0]] + rows[1..];
    }
  }

  lemma {:induction false} ByTimeSorts(rows: seq<Row>)
    ensures Sorted(ByTime(rows))
  {
    if rows != [] {
      ByTimeSorts(rows[..|rows| - 1]);
      InsertKeepsSorted(ByTime(rows[..|rows| - 1]), rows[|rows| - 1]);
    }
  }

  lemma {:induction false} ByTimeKeepsRows(rows: seq<Row>, x: Row)
    ensures x in ByTime(rows) <==> x in rows
  {
    if rows != [] {
      ByTimeKeepsRows(rows[..|rows| - 1], x);
      InsertAddsRow(ByTime(rows[..|rows| - 1]), rows[|rows| - 1], x);
      assert rows == rows[..|rows| - 1] + [rows[|rows| - 1]];
    }
  }

  lemma {:induction false} InsertAddsOne(rows: seq<Row>, row: Row)
    ensures |InsertByTime(rows, row)| == |rows| + 1
  {
    if rows != [] && row.createdAt >= rows[0].createdAt {
      InsertAddsOne(rows[1..], row);
    }
  }

  lemma {:induction false} ByTimeKeepsLength(rows: seq<Row>)
    ensures |ByTime(rows)| == |rows|
  {
    if rows != [] {
      ByTimeKeepsLength(rows[..|rows| - 1]);
      InsertAddsOne(ByTime(rows[..|rows| - 1]), rows[|rows| - 1]);
    }
  }

  /** The same rows but for their creation times. */
  ghost predicate SameButTimes(a: seq<Row>, b: seq<Row>) {
    |a| == |b| && forall i :: 0 <= i < |a| ==> b[i] == a[i].(createdAt := b[i].createdAt)
  }

  lemma {:induction false} TimesAreNotHashed(a: seq<Row>, b: seq<Row>, expected: Hash)
    requires SameButTimes(a, b)
    ensures Errors(a, expected) == Errors(b, expected)
  {
    if a != [] {
      TimesAreNotHashed(a[1..], b[1..], a[0].current);
    }
  }

  /** In a chain that verifies, a row's place is the height of its hash. */
  lemma RowIsInItsPlace(rows: seq<Row>, edited: seq<Row>, k: nat)
    requires Healthy(rows) && SameButTimes(rows, edited) && Healthy(ByTime(edited)) && k < |edited|
    ensures |ByTime(edited)| == |edited| && ByTime(edited)[k] == edited[k]
  {
    ByTimeKeepsLength(edited);
    var sorted := ByTime(edited);
    ByTimeKeepsRows(edited, sorted[k]);
    var i :| 0 <= i < |edited| && edited[i] == sorted[k];
    HealthyRow(sorted, Genesis, k);
    HealthyRow(rows, Genesis, i);
  }

  /** Changing creation times is reported exactly when it changes the order in which the rows are read. */
  lemma TimesPassIff(rows: seq<Row>, edited: seq<Row>)
    requires Healthy(rows) && SameButTimes(rows, edited)
    ensures Healthy(ByTime(edited)) <==> Sorted(edited)
  {
    if Sorted(edited) {
      AlreadySorted(edited);
      TimesAreNotHashed(rows, edited, Genesis);
    }
    if Healthy(ByTime(edited)) {
      ByTimeKeepsLength(edited);
      forall k | 0 <= k < |edited| ensures ByTime(edited)[k] == edited[k] {
        RowIsInItsPlace(rows, edited, k);
      }
      assert ByTime(edited) == edited;
      ByTimeSorts(edited);
    }
  }

  ghost predicate FirstInversion(log: seq<Row>, k: nat) {
    0 < k < |log| && BeginOrder(log[..k]) && log[k].createdAt < log[k - 1].createdAt
  }

  lemma LastKeepsOrder(log: seq<Row>)
    requires |log| >= 2 && BeginOrder(log[..|log| - 1]) && log[|log| - 2].createdAt < log[|log| - 1].createdAt
    ensures BeginOrder(log)
  {
    var init := log[..|log| - 1];
    forall i, j | 0 <= i < j < |log| ensures log[i].createdAt < log[j].createdAt {
      assert init[i] == log[i];
      if j < |init| {
        assert init[j] == log[j];
      } else if i < |init| - 1 {
        assert init[|init| - 1] == log[|log| - 2];
      }
    }
  }

  lemma {:induction false} InversionExists(log: seq<Row>) returns (k: nat)
    requires DistinctTimes(log) && !BeginOrder(log)
    ensures FirstInversion(log, k)
  {
    var init := log[..|log| - 1];
    if BeginOrder(init) {
      k := |log| - 1;
      assert k > 0;
      if log[k - 1].createdAt < log[k].createdAt {
        LastKeepsOrder(log);
      }
    } else {
      k := InversionExists(init);
      assert init[..k] == log[..k];
    }
  }

  lemma InversionIsUnhealthy(log: seq<Row>, k: nat)
    requires Linked(log) && FirstInversion(log, k)
    ensures !Healthy(ByTime(log))
  {
    LinkedToNeighbour(log, k);
    var sorted := ByTime(log);
    ByTimeSorts(log);
    ByTimeKeepsRows(log, log[k]);
    ByTimeKeepsRows(log, log[k - 1]);
    var q :| 0 <= q < |sorted| && sorted[q] == log[k];
    var p :| 0 <= p < |sorted| && sorted[p] == log[k - 1];
    if Healthy(sorted) {
      HealthyRow(sorted, Genesis, q);
      HealthyRow(sorted, Genesis, p);
    }
  }

  /** A linked log verifies exactly when rows were committed in the order in which they began. */
  lemma HealthyIffBeginOrder(log: seq<Row>)
    requires Linked(log) && DistinctTimes(log)
    ensures Healthy(ByTime(log)) <==> BeginOrder(log)
  {
    if BeginOrder(log) {
      AlreadySorted(log);
      OrderedIsHealthyFrom(log, 0);
      assert log[0..] == log;
    } else {
      var k := InversionExists(log);
      InversionIsUnhealthy(log, k);
    }
  }

  /** For any number of workers and any interleaving: the chain verifies exactly when begin order and commit order agree. */
  lemma ReachableHealthyIff(workers: nat, steps: seq<Step>)
    ensures var log := Exec(Start(workers), steps).log;
      Healthy(ByTime(log)) <==> BeginOrder(log)
  {
    assert Inv(Start(workers));
    ExecKeepsInv(Start(workers), steps);
    HealthyIffBeginOrder(Exec(Start(workers), steps).log);
  }

  // ---------------------------------------------------------------------------------------
  //  When the chain forks
  // ---------------------------------------------------------------------------------------

  /** Two rows continue the same predecessor. */
  ghost predicate Forked(log: seq<Row>) {
    exists i, j :: 0 <= i < j < |log| && log[i].previous == log[j].previous
  }

  lemma {:induction false} NeighbourHeight(log: seq<Row>, j: nat)
    requires Linked(log) && j < |log| && BeginOrder(log[..j])
    ensures Height(log[j].previous) == j
  {
    LinkedToNeighbour(log, j);
    if j > 0 {
      assert log[..j][..j - 1] == log[..j - 1];
      NeighbourHeight(log, j - 1);
      LinkedToNeighbour(log, j - 1);
    }
  }

  lemma InversionForksNext(log: seq<Row>, k: nat)
    requires Linked(log) && FirstInversion(log, k) && k + 1 < |log|
    ensures log[k + 1].previous == log[k].previous
  {
    LatestIsLast(log[..k]);
    assert log[..k + 1][..k] == log[..k];
  }

  lemma OrderedPrefix(log: seq<Row>, j: nat)
    requires log != [] && BeginOrder(log[..|log| - 1]) && j < |log|
    ensures BeginOrder(log[..j])
  {
    assert forall i :: 0 <= i < j ==> log[..j][i] == log[..|log| - 1][i];
  }

  lemma OrderedNeverForks(log: seq<Row>)
    requires Linked(log) && log != [] && BeginOrder(log[..|log| - 1])
    ensures !Forked(log)
  {
    forall i, j | 0 <= i < j < |log| ensures log[i].previous != log[j].previous {
      OrderedPrefix(log, i);
      OrderedPrefix(log, j);
      NeighbourHeight(log, i);
      NeighbourHeight(log, j);
    }
  }

  lemma InversionForks(log: seq<Row>, k: nat)
    requires Linked(log) && log != [] && FirstInversion(log[..|log| - 1], k)
    ensures Forked(log)
  {
    var init := log[..|log| - 1];
    assert init[..k] == log[..k];
    InversionForksNext(log, k);
  }

  /** The chain forks exactly when the rows before the last were not committed in begin order. */
  lemma ForksIff(log: seq<Row>)
    requires Linked(log) && DistinctTimes(log) && log != []
    ensures Forked(log) <==> !BeginOrder(log[..|log| - 1])
  {
    if BeginOrder(log[..|log| - 1]) {
      OrderedNeverForks(log);
    } else {
      var k := InversionExists(log[..|log| - 1]);
      InversionForks(log, k);
    }
  }

  lemma ExecOne(s: System, step: Step, rest: seq<Step>)
    ensures Exec(s, [step] + rest) == Exec(Next(s, step), rest)
  {
    assert ([step] + rest)[1..] == rest;
  }

  /** The system after a worker that has begun takes the lock, reads the head and commits. */
  function AfterTurn(s: System, w: nat, p: Posting): System
    requires w < |s.phases| && s.phases[w].Begun?
  {
    s.(phases := s.phases[w := Idle], log := s.log + [NextRow(Head(s.log), p, s.phases[w].startedAt)])
  }

  lemma TurnSteps(s: System, w: nat, p: Posting)
    requires w < |s.phases| && s.phases[w].Begun? && s.holder.None?
    ensures Next(Next(Next(s, TakeLock(w)), ReadHead(w)), Commit(w, p)) == AfterTurn(s, w, p)
  {
    var at, head := s.phases[w].startedAt, Head(s.log);
    assert Next(Next(s, TakeLock(w)), ReadHead(w)) == s.(phases := s.phases[w := Ready(at, head)], holder := Some(w)) by {
      assert s.phases[w := Holding(at)][w := Ready(at, head)] == s.phases[w := Ready(at, head)];
    }
    assert s.phases[w := Ready(at, head)][w := Idle] == s.phases[w := Idle];
  }

  lemma PostingTurn(s: System, w: nat, p: Posting, rest: seq<Step>)
    requires w < |s.phases| && s.phases[w].Begun? && s.holder.None?
    ensures Exec(s, [TakeLock(w)] + ([ReadHead(w)] + ([Commit(w, p)] + rest))) == Exec(AfterTurn(s, w, p), rest)
  {
    var s1 := Next(s, TakeLock(w));
    var s2 := Next(s1, ReadHead(w));
    TurnSteps(s, w, p);
    ExecOne(s, TakeLock(w), [ReadHead(w)] + ([Commit(w, p)] + rest));
    ExecOne(s1, ReadHead(w), [Commit(w, p)] + rest);
    ExecOne(s2, Commit(w, p), rest);
  }

  /** Two workers are enough: the one that began first takes the lock last, and the chain no longer verifies. */
  lemma LateLockBreaksChain(p: Posting)
    ensures !Healthy(ByTime(Exec(Start(2), [Begin(0), Begin(1), TakeLock(1), ReadHead(1), Commit(1, p),
                                            TakeLock(0), ReadHead(0), Commit(0, p)]).log))
  {
    var steps := [Begin(0), Begin(1), TakeLock(1), ReadHead(1), Commit(1, p), TakeLock(0), ReadHead(0), Commit(0, p)];
    var second := [TakeLock(0)] + ([ReadHead(0)] + ([Commit(0, p)] + []));
    var first := [TakeLock(1)] + ([ReadHead(1)] + ([Commit(1, p)] + second));
    assert steps == [Begin(0)] + ([Begin(1)] + first);
    ExecOne(Start(2), Begin(0), [Begin(1)] + first);
    var s1 := Next(Start(2), Begin(0));
    ExecOne(s1, Begin(1), first);
    var s2 := Next(s1, Begin(1));
    PostingTurn(s2, 1, p, second);
    var s3 := AfterTurn(s2, 1, p);
    PostingTurn(s3, 0, p, []);
    ReachableHealthyIff(2, steps);
    var log := Exec(Start(2), steps).log;
    assert log[0].createdAt == 1 && log[1].createdAt == 0;
  }

  // ---------------------------------------------------------------------------------------
  //  Postings that do not overlap
  // ---------------------------------------------------------------------------------------

  ghost predicate OneAfterAnother(requests: seq<Request>) {
    forall i, j :: 0 <= i < j < |requests| ==> requests[i].startedAt < requests[j].startedAt
  }

  /** Every request begins after every row of the log. */
  ghost predicate AllLater(rows: seq<Row>, requests: seq<Request>) {
    forall i, j :: 0 <= i < |rows| && 0 <= j < |requests| ==> rows[i].createdAt < requests[j].startedAt
  }

  ghost predicate InOrder(rows: seq<Row>) {
    Linked(rows) && BeginOrder(rows)
  }

  lemma SequentialPost(rows: seq<Row>, requests: seq<Request>)
    requires requests != [] && InOrder(rows) && OneAfterAnother(requests) && AllLater(rows, requests)
    ensures var longer := rows + [NextRow(Head(rows), requests[0].posting, requests[0].startedAt)];
      InOrder(longer) && AllLater(longer, requests[1..])
    ensures AllLater(rows, requests[1..]) && OneAfterAnother(requests[1..])
  {
    LinkedAppend(rows, requests[0].posting, requests[0].startedAt);
  }

  lemma {:induction false} SequentialRunInOrder(b: Books, requests: seq<Request>)
    requires InOrder(b.rows) && OneAfterAnother(requests) && AllLater(b.rows, requests)
    ensures InOrder(Run(b, requests).rows)
    decreases |requests|
  {
    if requests != [] {
      SequentialPost(b.rows, requests);
      var r := Post(b, requests[0].posting, requests[0].startedAt);
      SequentialRunInOrder(if r.Posted? then r.books else b, requests[1..]);
    }
  }

  /** Postings made one after another always leave a chain that verifies and does not fork. */
  lemma SequentialRunIsHealthy(requests: seq<Request>)
    requires OneAfterAnother(requests)
    ensures var rows := Run(EMPTY, requests).rows;
      Healthy(ByTime(rows)) && !Forked(rows)
  {
    SequentialRunInOrder(EMPTY, requests);
    var rows := Run(EMPTY, requests).rows;
    HealthyIffBeginOrder(rows);
    if rows != [] {
      ForksIff(rows);
    }
  }
}
