/**
 Paying for one order: any number of attempts, by gateway payments (verification calls and webhook
 replays) and by coin checkouts, interleaved in any way with each other and with whoever else moves
 the order or its holds, and cut by a crash at any point. An attempt locks the order's holds from
 the start of its transaction to its end, a gateway attempt the order's row as well; each ledger
 posting commits on its own in between.
 */
module PaymentCapture {
  import opened Common
  import opened Inventory

  datatype Payer = Gateway(payment: nat) | Coins

  /** What an attempt carries through its transaction; tx numbers the payment transaction row it is going to write. */
  datatype Entry = Entry(payer: Payer, tx: nat, late: bool, issues: bool, missing: nat)

  datatype Phase =
    | Idle
    | Checked(payment: nat)
    | SawPending
    | InTransaction(entry: Entry)
    | Posted(entry: Entry)
    | RefundPosted(entry: Entry)
    | Ended

  /**
   The order and what its payments have left behind. lost counts the attempts that were cut after
   posting their capture and before committing, lostRefunds those cut after posting the refund too.
   */
  datatype World = World(
    holds: seq<HoldStatus>,
    status: OrderStatus,
    quantity: nat,
    tickets: nat,
    captures: seq<Entry>,
    postings: seq<nat>,
    refundPostings: seq<nat>,
    nextTx: nat,
    attempts: seq<Phase>,
    owner: Option<nat>,
    lost: nat,
    lostRefunds: nat)

  datatype Step =
    | Check(attempt: nat, payment: nat)
    | ReadOrder(attempt: nat)
    | Enter(attempt: nat, lapsed: set<nat>)
    | EnterCoins(attempt: nat, lapsed: set<nat>, room: bool)
    | PostCapture(attempt: nat)
    | PostRefund(attempt: nat)
    | CommitTx(attempt: nat)
    | Crash(attempt: nat)
    | Move(hold: nat, to: HoldStatus)
    | SetStatus(status: OrderStatus)
    | Issue(seen: nat)

  predicate AlreadyCaptured(w: World, payment: nat) {
    exists c :: c in w.captures && c.payer == Gateway(payment)
  }

  predicate IsLate(st: HoldStatus, k: nat, lapsed: set<nat>) {
    st.Expired? || k in lapsed
  }

  predicate AnyLate(w: World, lapsed: set<nat>) {
    exists k :: 0 <= k < |w.holds| && IsLate(w.holds[k], k, lapsed)
  }

  predicate AnyUnpayable(w: World, lapsed: set<nat>) {
    exists k :: 0 <= k < |w.holds| && !IsLate(w.holds[k], k, lapsed)
      && (IsReleased(w.holds[k]) || w.holds[k].RefundPending? || w.holds[k].Refunded?)
  }

  predicate AllMay(w: World, to: HoldStatus) {
    forall k :: 0 <= k < |w.holds| ==> MayBecome(w.holds[k], to)
  }

  /** Whether a gateway attempt's checks on the locked rows let it go on. */
  predicate Admitted(w: World, lapsed: set<nat>) {
    w.holds != [] && !AnyUnpayable(w, lapsed) && AllMay(w, if AnyLate(w, lapsed) then HoldStatus.Expired else Converting)
  }

  /** Whether a coin checkout's do; room says whether the ticket types' rows admit the order once more. */
  predicate AdmittedCoins(w: World, lapsed: set<nat>, room: bool) {
    w.holds != [] && !AnyLate(w, lapsed) && !AnyUnpayable(w, lapsed) && room
  }

  /** What others may do to a hold of the order: an ordinary move, or an extension. */
  predicate OthersMay(from: HoldStatus, to: HoldStatus) {
    MayBecome(from, to) || (IsOpen(from) && to.PaymentProcessing?)
  }

  /** What others may do to the order: an ordinary change, a refund, or a cancellation that asks no table. */
  predicate OthersMaySet(from: OrderStatus, to: OrderStatus) {
    OrderMayBecome(from, to) || to.Refunded? || to.PartiallyRefunded? || to.Cancelled?
  }

  predicate Inside(p: Phase) {
    p.InTransaction? || p.Posted? || p.RefundPosted?
  }

  /** A coin checkout has not locked the order's row while it works on the holds. */
  predicate OrderRowFree(w: World) {
    w.owner.None? ||
    (w.owner.value < |w.attempts| && w.attempts[w.owner.value].InTransaction? && w.attempts[w.owner.value].entry.payer.Coins?)
  }

  function Entered(w: World, i: nat, payer: Payer, late: bool): World
    requires i < |w.attempts|
  {
    var issues := payer.Coins? || (!late && !Settled(w.status));
    if issues && w.tickets > w.quantity then w.(attempts := w.attempts[i := Ended])
    else
      w.(attempts := w.attempts[i := InTransaction(Entry(payer, w.nextTx, late, issues, if issues then w.quantity - w.tickets else 0))],
         owner := Some(i),
         nextTx := w.nextTx + 1)
  }

  function Crashed(w: World, i: nat): World
    requires i < |w.attempts|
  {
    w.(attempts := w.attempts[i := Ended],
       owner := if w.owner == Some(i) then None else w.owner,
       lost := if w.attempts[i].Posted? || w.attempts[i].RefundPosted? then w.lost + 1 else w.lost,
       lostRefunds := if w.attempts[i].RefundPosted? then w.lostRefunds + 1 else w.lostRefunds)
  }

  function StatusAfter(w: World, a: Entry): OrderStatus {
    if a.late then OrderStatus.Expired
    else if a.payer.Gateway? && Settled(w.status) then w.status
    else Paid
  }

  predicate MayCommit(p: Phase) {
    (p.Posted? && !p.entry.late) || p.RefundPosted?
  }

  function Concluded(w: World, i: nat): World
    requires i < |w.attempts| && MayCommit(w.attempts[i])
  {
    var a := w.attempts[i].entry;
    w.(holds := seq(|w.holds|, k => if a.late then RefundPending else Booked),
       status := StatusAfter(w, a),
       tickets := w.tickets + a.missing,
       captures := w.captures + [a],
       attempts := w.attempts[i := Ended],
       owner := None)
  }

  /** A step that is not possible, or waits for a row lock, leaves the world as it is. */
  function Next(w: World, step: Step): World {
    match step
    case Check(i, payment) =>
      if i < |w.attempts| && w.attempts[i].Idle? then
        w.(attempts := w.attempts[i := if AlreadyCaptured(w, payment) then Ended else Checked(payment)])
      else w
    case ReadOrder(i) =>
      if i < |w.attempts| && w.attempts[i].Idle? then
        w.(attempts := w.attempts[i := if w.status.Pending? then SawPending else Ended])
      else w
    case Enter(i, lapsed) =>
      if i < |w.attempts| && w.attempts[i].Checked? && w.owner.None? then
        if Admitted(w, lapsed) then Entered(w, i, Gateway(w.attempts[i].payment), AnyLate(w, lapsed))
        else w.(attempts := w.attempts[i := Ended])
      else w
    case EnterCoins(i, lapsed, room) =>
      if i < |w.attempts| && w.attempts[i].SawPending? && w.owner.None? then
        if AdmittedCoins(w, lapsed, room) then Entered(w, i, Coins, false)
        else w.(attempts := w.attempts[i := Ended])
      else w
    case PostCapture(i) =>
      if i < |w.attempts| && w.attempts[i].InTransaction? then
        w.(attempts := w.attempts[i := Posted(w.attempts[i].entry)], postings := w.postings + [w.attempts[i].entry.tx])
      else w
    case PostRefund(i) =>
      if i < |w.attempts| && w.attempts[i].Posted? && w.attempts[i].entry.late then
        w.(attempts := w.attempts[i := RefundPosted(w.attempts[i].entry)], refundPostings := w.refundPostings + [w.attempts[i].entry.tx])
      else w
    case CommitTx(i) => if i < |w.attempts| && MayCommit(w.attempts[i]) then Concluded(w, i) else w
    case Crash(i) => if i < |w.attempts| then Crashed(w, i) else w
    case Move(k, to) =>
      if w.owner.None? && k < |w.holds| && OthersMay(w.holds[k], to) then w.(holds := w.holds[k := to]) else w
    case SetStatus(status) => if OrderRowFree(w) && OthersMaySet(w.status, status) then w.(status := status) else w
    case Issue(seen) =>
      if Settled(w.status) && seen <= w.tickets && seen <= w.quantity then w.(tickets := w.tickets + w.quantity - seen) else w
  }

  function Exec(w: World, steps: seq<Step>): World
    decreases |steps|
  {
    if steps == [] then w else Exec(Next(w, steps[0]), steps[1..])
  }

  /** An order with holds, before any payment. */
  predicate Unpaid(w: World) {
    && w.holds != [] && w.captures == [] && w.postings == [] && w.refundPostings == []
    && w.nextTx == 0 && w.owner.None? && w.lost == 0 && w.lostRefunds == 0 && w.tickets <= w.quantity
    && forall i :: 0 <= i < |w.attempts| ==> w.attempts[i].Idle?
  }

  // ---------------------------------------------------------------------------------------
  //  What every run keeps
  // ---------------------------------------------------------------------------------------

  /** A hold from which no gateway payment can be taken any more. */
  predicate Spent(st: HoldStatus) {
    st.Booked? || st.Converted? || st.Released? || st.RefundPending? || st.Refunded? || st.Failed?
  }

  /** A hold set aside by a late payment. */
  predicate Aside(st: HoldStatus) {
    st.RefundPending? || st.Refunded? || st.Failed?
  }

  function Holder(w: World): Phase {
    if w.owner.Some? && w.owner.value < |w.attempts| then w.attempts[w.owner.value] else Ended
  }

  /** The owner of the row locks is the one attempt inside its transaction; a gateway attempt found the order uncaptured. */
  ghost predicate RowsLocked(w: World) {
    && (forall i :: 0 <= i < |w.attempts| ==> (Inside(w.attempts[i]) <==> w.owner == Some(i)))
    && (w.owner.Some? ==> w.owner.value < |w.attempts|)
    && (Inside(Holder(w)) && Holder(w).entry.payer.Gateway? ==> w.captures == [])
    && (Inside(Holder(w)) && Holder(w).entry.late ==> Holder(w).entry.payer.Gateway?)
    && (Holder(w).RefundPosted? ==> Holder(w).entry.late)
    && (Inside(Holder(w)) && Holder(w).entry.payer.Gateway? && Holder(w).entry.issues ==> !Settled(w.status))
  }

  /**
   Only the first capture can be a gateway payment's, and after a late one there is no other. Nobody
   who reads a captured order finds it pending.
   */
  ghost predicate CapturesOrdered(w: World) {
    && (w.captures != [] ==> !w.status.Draft? && !w.status.Pending?)
    && (forall k :: 0 < k < |w.captures| ==> w.captures[k].payer.Coins? && !w.captures[k].late)
    && (w.captures != [] ==> forall k :: 0 <= k < |w.holds| ==> Spent(w.holds[k]))
    && (w.captures != [] && w.captures[0].late ==> |w.captures| == 1 && w.owner.None?)
    && (w.captures != [] && w.captures[0].late ==> forall k :: 0 <= k < |w.holds| ==> Aside(w.holds[k]))
  }

  function InPosted(w: World): nat {
    if Holder(w).Posted? || Holder(w).RefundPosted? then 1 else 0
  }

  /** Every posting carries its own key, every capture has its posting, and nothing else was posted but what was lost. */
  ghost predicate PostingsCounted(w: World) {
    && (forall i, j :: 0 <= i < j < |w.postings| ==> w.postings[i] != w.postings[j])
    && (forall i :: 0 <= i < |w.postings| ==> w.postings[i] < w.nextTx)
    && (Inside(Holder(w)) ==> Holder(w).entry.tx < w.nextTx)
    && (Holder(w).InTransaction? ==> Holder(w).entry.tx !in w.postings)
    && (Holder(w).Posted? || Holder(w).RefundPosted? ==> Holder(w).entry.tx in w.postings)
    && (forall c :: c in w.captures ==> c.tx in w.postings)
    && |w.postings| == |w.captures| + w.lost + InPosted(w)
  }

  function LateCaptures(w: World): nat {
    if w.captures != [] && w.captures[0].late then 1 else 0
  }

  function InRefunded(w: World): nat {
    if Holder(w).RefundPosted? then 1 else 0
  }

  /** The same for refund postings; each follows the posting of its capture. */
  ghost predicate RefundsCounted(w: World) {
    && (forall tx :: tx in w.refundPostings ==> tx in w.postings)
    && (Holder(w).RefundPosted? ==> Holder(w).entry.tx in w.refundPostings)
    && (forall c :: c in w.captures && c.late ==> c.tx in w.refundPostings)
    && |w.refundPostings| == LateCaptures(w) + w.lostRefunds + InRefunded(w)
  }

  ghost predicate Inv(w: World) {
    w.holds != [] && RowsLocked(w) && CapturesOrdered(w) && PostingsCounted(w) && RefundsCounted(w)
  }

  /** No hold of a captured order lets a gateway payment in. */
  lemma SpentIsClosed(w: World, lapsed: set<nat>)
    requires w.holds != [] && forall k :: 0 <= k < |w.holds| ==> Spent(w.holds[k])
    ensures !Admitted(w, lapsed)
  {
    assert Spent(w.holds[0]);
  }

  /** No hold set aside by a late payment lets coins in. */
  lemma AsideIsClosed(w: World, lapsed: set<nat>, room: bool)
    requires w.holds != [] && forall k :: 0 <= k < |w.holds| ==> Aside(w.holds[k])
    ensures !AdmittedCoins(w, lapsed, room)
  {
    assert Aside(w.holds[0]);
  }

  lemma EnterKeepsInv(w: World, i: nat, lapsed: set<nat>)
    requires Inv(w)
    ensures Inv(Next(w, Enter(i, lapsed)))
  {
    if w.captures != [] {
      SpentIsClosed(w, lapsed);
    }
  }

  lemma EnterCoinsKeepsInv(w: World, i: nat, lapsed: set<nat>, room: bool)
    requires Inv(w)
    ensures Inv(Next(w, EnterCoins(i, lapsed, room)))
  {
    if w.captures != [] && w.captures[0].late {
      AsideIsClosed(w, lapsed, room);
    }
  }

  lemma CommitKeepsInv(w: World, i: nat)
    requires Inv(w)
    ensures Inv(Next(w, CommitTx(i)))
  {
  }

  lemma MoveKeepsInv(w: World, k: nat, to: HoldStatus)
    requires Inv(w)
    ensures Inv(Next(w, Move(k, to)))
  {
    if k < |w.holds| && Spent(w.holds[k]) && OthersMay(w.holds[k], to) {
      assert Spent(to) && (Aside(w.holds[k]) ==> Aside(to));
    }
  }

  lemma PostKeepsInv(w: World, i: nat)
    requires Inv(w)
    ensures Inv(Next(w, PostCapture(i)))
  {
  }

  lemma PostRefundKeepsInv(w: World, i: nat)
    requires Inv(w)
    ensures Inv(Next(w, PostRefund(i)))
  {
  }

  lemma CrashKeepsInv(w: World, i: nat)
    requires Inv(w)
    ensures Inv(Next(w, Crash(i)))
  {
  }

  lemma BeginKeepsInv(w: World, step: Step)
    requires Inv(w) && (step.Check? || step.ReadOrder?)
    ensures Inv(Next(w, step))
  {
  }

  lemma OutsideKeepsInv(w: World, step: Step)
    requires Inv(w) && (step.SetStatus? || step.Issue?)
    ensures Inv(Next(w, step))
  {
  }

  lemma NextKeepsInv(w: World, step: Step)
    requires Inv(w)
    ensures Inv(Next(w, step))
  {
    match step
    case Check(_, _) => BeginKeepsInv(w, step);
    case ReadOrder(_) => BeginKeepsInv(w, step);
    case Enter(i, lapsed) => EnterKeepsInv(w, i, lapsed);
    case EnterCoins(i, lapsed, room) => EnterCoinsKeepsInv(w, i, lapsed, room);
    case PostCapture(i) => PostKeepsInv(w, i);
    case PostRefund(i) => PostRefundKeepsInv(w, i);
    case CommitTx(i) => CommitKeepsInv(w, i);
    case Crash(i) => CrashKeepsInv(w, i);
    case Move(k, to) => MoveKeepsInv(w, k, to);
    case SetStatus(_) => OutsideKeepsInv(w, step);
    case Issue(_) => OutsideKeepsInv(w, step);
  }

  lemma {:induction false} ExecKeepsInv(w: World, steps: seq<Step>)
    requires Inv(w)
    ensures Inv(Exec(w, steps))
    decreases |steps|
  {
    if steps != [] {
      NextKeepsInv(w, steps[0]);
      ExecKeepsInv(Next(w, steps[0]), steps[1..]);
    }
  }

  ghost predicate Quiet(w: World) {
    forall i :: 0 <= i < |w.attempts| ==> !Inside(w.attempts[i])
  }

  /**
   However many attempts run and however they are interleaved and cut: the gateway captures the
   order at most once, and only as the first to capture it; every capture has its posting, and a late
   one its refund posting too. Once no attempt is under way the ledger holds exactly one posting per
   capture if and only if no attempt was cut between its posting and its commit, and likewise for
   the refund postings of late captures.
   */
  lemma GatewayCapturesAtMostOnce(w: World, steps: seq<Step>)
    requires Unpaid(w)
    ensures var w' := Exec(w, steps);
      && (forall k :: 0 <= k < |w'.captures| && w'.captures[k].payer.Gateway? ==> k == 0)
      && (forall c :: c in w'.captures ==> c.tx in w'.postings && (c.late ==> c.tx in w'.refundPostings))
      && (Quiet(w') ==> (|w'.postings| == |w'.captures| <==> w'.lost == 0))
      && (Quiet(w') ==> (|w'.refundPostings| == LateCaptures(w') <==> w'.lostRefunds == 0))
  {
    assert Inv(w);
    ExecKeepsInv(w, steps);
  }

  // ---------------------------------------------------------------------------------------
  //  What becomes of the order
  // ---------------------------------------------------------------------------------------

  ghost predicate NobodySets(steps: seq<Step>) {
    forall k :: 0 <= k < |steps| ==> !steps[k].SetStatus?
  }

  /** The order is as it was before any capture, expired after a late one, and settled after one in time. */
  ghost predicate StatusFollows(w: World, before: OrderStatus) {
    if w.captures == [] then w.status == before
    else if w.captures[0].late then w.status == OrderStatus.Expired
    else Settled(w.status)
  }

  lemma NextKeepsStatus(w: World, step: Step, before: OrderStatus)
    requires Inv(w) && StatusFollows(w, before) && !step.SetStatus?
    ensures StatusFollows(Next(w, step), before)
  {
    if step.CommitTx? && step.attempt < |w.attempts| && MayCommit(w.attempts[step.attempt]) {
      assert Next(w, step).captures[0] == if w.captures == [] then w.attempts[step.attempt].entry else w.captures[0];
    }
  }

  lemma {:induction false} ExecKeepsStatus(w: World, steps: seq<Step>, before: OrderStatus)
    requires Inv(w) && StatusFollows(w, before) && NobodySets(steps)
    ensures StatusFollows(Exec(w, steps), before)
    decreases |steps|
  {
    if steps != [] {
      NextKeepsInv(w, steps[0]);
      NextKeepsStatus(w, steps[0], before);
      ExecKeepsStatus(Next(w, steps[0]), steps[1..], before);
    }
  }

  /**
   One paid booking if any payment commits in time, none otherwise: in every run in which nobody else
   sets its status, an order that was not settled before ends settled exactly when it has been captured
   and not late, and expired if its capture was late; an order never captured keeps its status.
   */
  lemma OnePaidBookingIffCaptured(w: World, steps: seq<Step>)
    requires Unpaid(w) && NobodySets(steps)
    ensures var w' := Exec(w, steps);
      && (w'.captures == [] ==> w'.status == w.status)
      && (w'.captures != [] && w'.captures[0].late ==> w'.status == OrderStatus.Expired)
      && (!Settled(w.status) ==> (Settled(w'.status) <==> w'.captures != [] && !w'.captures[0].late))
  {
    assert Inv(w);
    ExecKeepsStatus(w, steps, w.status);
  }

  // ---------------------------------------------------------------------------------------
  //  Attempts that come to nothing
  // ---------------------------------------------------------------------------------------

  /** The attempt has ended and nothing else has happened. */
  ghost predicate JustEnded(w: World, w': World, i: nat) {
    i < |w.attempts| && w' == w.(attempts := w.attempts[i := Ended])
  }

  /**
   A replay of a payment that has been captured, a coin checkout of an order that is not pending, and an
   attempt that the rows do not admit end without a trace; any other goes on.
   */
  lemma RefusedAttemptsEnd(w: World, i: nat, payment: nat, lapsed: set<nat>, room: bool)
    requires i < |w.attempts|
    ensures w.attempts[i].Idle? && (exists k :: 0 <= k < |w.captures| && w.captures[k].payer == Gateway(payment)) ==>
      JustEnded(w, Next(w, Check(i, payment)), i)
    ensures w.attempts[i].Idle? && (forall k :: 0 <= k < |w.captures| ==> w.captures[k].payer != Gateway(payment)) ==>
      Next(w, Check(i, payment)) == w.(attempts := w.attempts[i := Checked(payment)])
    ensures w.attempts[i].Idle? ==>
      if w.status != Pending then JustEnded(w, Next(w, ReadOrder(i)), i)
      else Next(w, ReadOrder(i)) == w.(attempts := w.attempts[i := SawPending])
    ensures w.attempts[i].Checked? && w.owner.None? && !Admitted(w, lapsed) ==> JustEnded(w, Next(w, Enter(i, lapsed)), i)
    ensures w.attempts[i].SawPending? && w.owner.None? && !AdmittedCoins(w, lapsed, room) ==>
      JustEnded(w, Next(w, EnterCoins(i, lapsed, room)), i)
    ensures w.attempts[i].Checked? && w.owner.None? && w.tickets > w.quantity && !AnyLate(w, lapsed) && !Settled(w.status) ==>
      JustEnded(w, Next(w, Enter(i, lapsed)), i)
    ensures w.attempts[i].SawPending? && w.owner.None? && w.tickets > w.quantity ==> JustEnded(w, Next(w, EnterCoins(i, lapsed, room)), i)
  {
  }

  /** An attempt that is cut before it commits leaves the order and its holds as they were; only its postings stay. */
  lemma CutLeavesTheRows(w: World, i: nat)
    requires Inv(w) && i < |w.attempts|
    ensures var w' := Next(w, Crash(i));
      && w'.holds == w.holds && w'.status == w.status && w'.tickets == w.tickets && w'.captures == w.captures
      && w'.postings == w.postings && w'.refundPostings == w.refundPostings
      && w'.attempts == w.attempts[i := Ended]
      && w'.owner == (if Inside(w.attempts[i]) then None else w.owner)
  {
  }

  // ---------------------------------------------------------------------------------------
  //  Coins on top of a capture
  // ---------------------------------------------------------------------------------------

  /** A coin checkout that saw the order pending gets in although the order is captured by now. */
  ghost predicate StaleEntry(w: World, step: Step) {
    && step.EnterCoins? && w.captures != []
    && step.attempt < |w.attempts| && w.attempts[step.attempt].SawPending? && w.owner.None?
    && AdmittedCoins(w, step.lapsed, step.room)
  }

  ghost predicate NoStaleEntry(w: World, steps: seq<Step>)
    decreases |steps|
  {
    steps != [] ==> !StaleEntry(w, steps[0]) && NoStaleEntry(Next(w, steps[0]), steps[1..])
  }

  /** At most one capture, and nobody about to add one. */
  ghost predicate Once(w: World) {
    |w.captures| <= 1 && (w.captures != [] ==> w.owner.None?)
  }

  lemma NextKeepsOnce(w: World, step: Step)
    requires Inv(w) && Once(w) && !StaleEntry(w, step)
    ensures Once(Next(w, step))
  {
    if step.Enter? && w.captures != [] {
      SpentIsClosed(w, step.lapsed);
    }
  }

  lemma {:induction false} ExecKeepsOnce(w: World, steps: seq<Step>)
    requires Inv(w) && Once(w) && NoStaleEntry(w, steps)
    ensures Once(Exec(w, steps))
    decreases |steps|
  {
    if steps != [] {
      NextKeepsInv(w, steps[0]);
      NextKeepsOnce(w, steps[0]);
      ExecKeepsOnce(Next(w, steps[0]), steps[1..]);
    }
  }

  /** In every run in which no stale coin checkout gets in, the order is captured at most once. */
  lemma CapturedOnceWithoutStaleCoins(w: World, steps: seq<Step>)
    requires Unpaid(w) && NoStaleEntry(w, steps)
    ensures |Exec(w, steps).captures| <= 1
  {
    assert Inv(w) && Once(w);
    ExecKeepsOnce(w, steps);
  }

  /** Every hold of the order is sold, and none has run out of time. */
  predicate AllSoldInTime(w: World, lapsed: set<nat>) {
    forall k: nat :: k < |w.holds| ==> IsSold(w.holds[k]) && k !in lapsed
  }

  /** What lets coins into a captured order: its holds are sold in time, and the rows have room to sell them again. */
  lemma StaleCoinsAdmittedIff(w: World, lapsed: set<nat>, room: bool)
    requires Inv(w) && w.captures != []
    ensures AdmittedCoins(w, lapsed, room) <==> room && AllSoldInTime(w, lapsed)
  {
    if AdmittedCoins(w, lapsed, room) {
      forall k: nat | k < |w.holds| ensures IsSold(w.holds[k]) && k !in lapsed {
        assert Spent(w.holds[k]) && !IsLate(w.holds[k], k, lapsed);
      }
    }
  }

  /** A stale coin checkout, left to run, captures the order once more exactly when it is let in. */
  lemma StaleCoinsCaptureIff(w: World, i: nat, lapsed: set<nat>, room: bool)
    requires Inv(w) && w.captures != [] && w.tickets <= w.quantity
    requires i < |w.attempts| && w.attempts[i].SawPending? && w.owner.None?
    ensures var w' := Exec(w, [EnterCoins(i, lapsed, room)] + ([PostCapture(i)] + ([CommitTx(i)] + [])));
      |w'.captures| == |w.captures| + if room && AllSoldInTime(w, lapsed) then 1 else 0
  {
    StaleCoinsAdmittedIff(w, lapsed, room);
    var w1 := Next(w, EnterCoins(i, lapsed, room));
    var w2 := Next(w1, PostCapture(i));
    ExecOne(w, EnterCoins(i, lapsed, room), [PostCapture(i)] + ([CommitTx(i)] + []));
    ExecOne(w1, PostCapture(i), [CommitTx(i)] + []);
    ExecOne(w2, CommitTx(i), []);
  }

  /** Coin checkouts that may still capture. */
  function CoinsWaiting(attempts: seq<Phase>): nat {
    if attempts == [] then 0 else Waits(attempts[0]) + CoinsWaiting(attempts[1..])
  }

  function Waits(p: Phase): nat {
    if p.SawPending? || (Inside(p) && p.entry.payer.Coins?) then 1 else 0
  }

  /** Each attempt that waits counts once, and no other. */
  lemma {:induction false} WaitingAddsUp(a: seq<Phase>, b: seq<Phase>, p: Phase)
    ensures CoinsWaiting(a + b) == CoinsWaiting(a) + CoinsWaiting(b)
    ensures CoinsWaiting([p]) == 1 <==> p.SawPending? || (Inside(p) && p.entry.payer.Coins?)
    ensures CoinsWaiting([p]) <= 1
  {
    if a == [] {
      assert a + b == b;
    } else {
      assert (a + b)[1..] == a[1..] + b;
      WaitingAddsUp(a[1..], b, p);
    }
  }

  lemma {:induction false} WaitingUpdate(attempts: seq<Phase>, i: nat, p: Phase)
    requires i < |attempts|
    ensures CoinsWaiting(attempts[i := p]) == CoinsWaiting(attempts) - Waits(attempts[i]) + Waits(p)
  {
    if i == 0 {
      assert attempts[i := p][1..] == attempts[1..];
    } else {
      assert attempts[i := p][1..] == attempts[1..][i - 1 := p];
      WaitingUpdate(attempts[1..], i - 1, p);
    }
  }

  lemma NextUsesUpWaiting(w: World, step: Step)
    requires Inv(w) && w.captures != []
    ensures var w' := Next(w, step);
      w'.captures != [] && |w'.captures| + CoinsWaiting(w'.attempts) <= |w.captures| + CoinsWaiting(w.attempts)
  {
    var w' := Next(w, step);
    if step.Enter? {
      SpentIsClosed(w, step.lapsed);
    }
    if w'.attempts != w.attempts {
      WaitingUpdate(w.attempts, step.attempt, w'.attempts[step.attempt]);
    }
  }

  /** After the first capture each coin checkout that had seen the order pending captures at most once, and nobody else does. */
  lemma {:induction false} LaterCapturesAreWaitingCoins(w: World, steps: seq<Step>)
    requires Inv(w) && w.captures != []
    ensures |Exec(w, steps).captures| + CoinsWaiting(Exec(w, steps).attempts) <= |w.captures| + CoinsWaiting(w.attempts)
    decreases |steps|
  {
    if steps != [] {
      NextKeepsInv(w, steps[0]);
      NextUsesUpWaiting(w, steps[0]);
      LaterCapturesAreWaitingCoins(Next(w, steps[0]), steps[1..]);
    }
  }

  // ---------------------------------------------------------------------------------------
  //  Issued tickets
  // ---------------------------------------------------------------------------------------

  /** Tickets the attempt under way is going to issue. */
  function Missing(w: World): nat {
    if Inside(Holder(w)) then Holder(w).entry.missing else 0
  }

  ghost predicate TicketsWithin(w: World) {
    w.tickets + Missing(w) <= w.quantity
  }

  /** An issue counted the tickets there are, while no attempt was about to issue any. */
  predicate Tidy(w: World, step: Step) {
    step.Issue? && Settled(w.status) && step.seen <= w.tickets && step.seen <= w.quantity ==>
      step.seen == w.tickets && Missing(w) == 0
  }

  /** No more tickets than seats: kept by every step, except by an issue exactly when it overlaps another. */
  lemma StepKeepsTicketsIff(w: World, step: Step)
    requires Inv(w) && TicketsWithin(w)
    ensures TicketsWithin(Next(w, step)) <==> Tidy(w, step)
  {
  }

  /** Only a coin checkout can be overlapped: a gateway attempt that issues keeps the order unsettled until it commits. */
  lemma OnlyCoinsOverlap(w: World, seen: nat)
    requires Inv(w) && Inside(Holder(w)) && Holder(w).entry.issues && Next(w, Issue(seen)) != w
    ensures Holder(w).entry.payer.Coins?
  {
  }

  ghost predicate TidyRun(w: World, steps: seq<Step>)
    decreases |steps|
  {
    steps != [] ==> Tidy(w, steps[0]) && TidyRun(Next(w, steps[0]), steps[1..])
  }

  /** A capture that issued left a ticket for every seat. */
  ghost predicate IssuedAll(w: World) {
    && (Inside(Holder(w)) && Holder(w).entry.issues ==> w.tickets + Holder(w).entry.missing == w.quantity)
    && (Inside(Holder(w)) && !Holder(w).entry.issues ==> Holder(w).entry.missing == 0)
    && (forall c :: c in w.captures && c.issues ==> w.tickets == w.quantity)
  }

  lemma NextKeepsIssuedAll(w: World, step: Step)
    requires Inv(w) && TicketsWithin(w) && IssuedAll(w) && Tidy(w, step)
    ensures IssuedAll(Next(w, step))
  {
  }

  lemma {:induction false} ExecKeepsTickets(w: World, steps: seq<Step>)
    requires Inv(w) && TicketsWithin(w) && IssuedAll(w) && TidyRun(w, steps)
    ensures TicketsWithin(Exec(w, steps)) && IssuedAll(Exec(w, steps))
    decreases |steps|
  {
    if steps != [] {
      NextKeepsInv(w, steps[0]);
      StepKeepsTicketsIff(w, steps[0]);
      NextKeepsIssuedAll(w, steps[0]);
      ExecKeepsTickets(Next(w, steps[0]), steps[1..]);
    }
  }

  /**
   In every run in which no two issues overlap there are never more tickets than seats, however often
   the order is captured; and a capture that found the order unsettled leaves exactly one per seat.
   */
  lemma TicketsMatchSeats(w: World, steps: seq<Step>)
    requires Unpaid(w) && TidyRun(w, steps)
    ensures Exec(w, steps).tickets <= w.quantity
    ensures forall c :: c in Exec(w, steps).captures && c.issues ==> Exec(w, steps).tickets == w.quantity
  {
    assert Inv(w) && TicketsWithin(w) && IssuedAll(w);
    ExecKeepsTickets(w, steps);
    QuantityStays(w, steps);
  }

  lemma {:induction false} QuantityStays(w: World, steps: seq<Step>)
    ensures Exec(w, steps).quantity == w.quantity
    decreases |steps|
  {
    if steps != [] {
      QuantityStays(Next(w, steps[0]), steps[1..]);
    }
  }

  /** Two issues that both counted none double the tickets: nothing locks the order while it issues. */
  lemma OverlappingIssuesDouble(w: World)
    requires Settled(w.status) && w.tickets == 0
    ensures Exec(w, [Issue(0)] + ([Issue(0)] + [])).tickets == 2 * w.quantity
  {
    ExecOne(w, Issue(0), [Issue(0)] + []);
    ExecOne(Next(w, Issue(0)), Issue(0), []);
  }

  // ---------------------------------------------------------------------------------------
  //  At least once
  // ---------------------------------------------------------------------------------------

  lemma ExecOne(w: World, step: Step, rest: seq<Step>)
    ensures Exec(w, [step] + rest) == Exec(Next(w, step), rest)
  {
    assert ([step] + rest)[1..] == rest;
  }

  predicate Free(w: World, i: nat, payment: nat, lapsed: set<nat>) {
    && i < |w.attempts| && w.attempts[i].Idle? && w.owner.None?
    && !AlreadyCaptured(w, payment) && Admitted(w, lapsed) && w.tickets <= w.quantity
  }

  /** What a gateway attempt that enters now carries through its transaction. */
  function EntryOf(w: World, payment: nat, late: bool): Entry {
    var issues := !late && !Settled(w.status);
    Entry(Gateway(payment), w.nextTx, late, issues, if issues && w.tickets <= w.quantity then w.quantity - w.tickets else 0)
  }

  /** The state after an attempt has checked, locked and posted its capture. */
  function AfterPosting(w: World, i: nat, payment: nat, late: bool): World
    requires i < |w.attempts|
  {
    w.(attempts := w.attempts[i := Posted(EntryOf(w, payment, late))],
       owner := Some(i),
       nextTx := w.nextTx + 1,
       postings := w.postings + [w.nextTx])
  }

  lemma AttemptEnters(w: World, i: nat, payment: nat, lapsed: set<nat>)
    requires Free(w, i, payment, lapsed)
    ensures Next(Next(w, Check(i, payment)), Enter(i, lapsed))
      == w.(attempts := w.attempts[i := InTransaction(EntryOf(w, payment, AnyLate(w, lapsed)))], owner := Some(i), nextTx := w.nextTx + 1)
  {
    var w1 := w.(attempts := w.attempts[i := Checked(payment)]);
    assert AnyLate(w1, lapsed) == AnyLate(w, lapsed) && Admitted(w1, lapsed);
    var in1 := InTransaction(EntryOf(w, payment, AnyLate(w, lapsed)));
    assert w1.attempts[i := in1] == w.attempts[i := in1];
  }

  lemma AttemptPosts(w: World, i: nat, payment: nat, lapsed: set<nat>)
    requires Free(w, i, payment, lapsed)
    ensures Next(Next(Next(w, Check(i, payment)), Enter(i, lapsed)), PostCapture(i)) == AfterPosting(w, i, payment, AnyLate(w, lapsed))
  {
    AttemptEnters(w, i, payment, lapsed);
    var entry := EntryOf(w, payment, AnyLate(w, lapsed));
    assert w.attempts[i := InTransaction(entry)][i := Posted(entry)] == w.attempts[i := Posted(entry)];
  }

  /** An attempt that runs up to its posting and then goes on with the given steps. */
  lemma AttemptUpToPosting(w: World, i: nat, payment: nat, lapsed: set<nat>, rest: seq<Step>)
    requires Free(w, i, payment, lapsed)
    ensures Exec(w, [Check(i, payment)] + ([Enter(i, lapsed)] + ([PostCapture(i)] + rest)))
      == Exec(AfterPosting(w, i, payment, AnyLate(w, lapsed)), rest)
  {
    var w1 := Next(w, Check(i, payment));
    var w2 := Next(w1, Enter(i, lapsed));
    ExecOne(w, Check(i, payment), [Enter(i, lapsed)] + ([PostCapture(i)] + rest));
    ExecOne(w1, Enter(i, lapsed), [PostCapture(i)] + rest);
    ExecOne(w2, PostCapture(i), rest);
    AttemptPosts(w, i, payment, lapsed);
  }

  /** The rest of an attempt: a late one posts its refund before it commits. */
  function Finish(i: nat, late: bool): seq<Step> {
    if late then [PostRefund(i)] + ([CommitTx(i)] + []) else [CommitTx(i)] + []
  }

  ghost predicate HoldsEnd(w: World, n: nat, status: HoldStatus) {
    |w.holds| == n && forall k :: 0 <= k < |w.holds| ==> w.holds[k] == status
  }

  lemma AttemptFinishes(w: World, i: nat, payment: nat, late: bool)
    requires i < |w.attempts|
    ensures var w' := Exec(AfterPosting(w, i, payment, late), Finish(i, late));
      && w'.captures == w.captures + [EntryOf(w, payment, late)]
      && w'.postings == w.postings + [w.nextTx]
      && w'.refundPostings == w.refundPostings + (if late then [w.nextTx] else [])
      && w'.tickets == w.tickets + EntryOf(w, payment, late).missing
      && HoldsEnd(w', |w.holds|, if late then RefundPending else Booked)
      && w'.status == (if late then OrderStatus.Expired else if Settled(w.status) then w.status else Paid)
      && w'.attempts == w.attempts[i := Ended] && w'.owner.None?
  {
    var p := AfterPosting(w, i, payment, late);
    if late {
      ExecOne(p, PostRefund(i), [CommitTx(i)] + []);
      ExecOne(Next(p, PostRefund(i)), CommitTx(i), []);
    } else {
      ExecOne(p, CommitTx(i), []);
    }
  }

  /**
   Recovery: as long as the rows are free and their holds admit the payment, one fresh attempt is
   enough, whatever happened to the attempts before it. It is the order's only capture. On time it
   books every hold, leaves the order settled, as it was or else as paid, and a ticket for every seat
   unless the order was settled without it; late it expires the order and sets its holds aside.
   */
  lemma FreshAttemptCaptures(w: World, before: seq<Step>, i: nat, payment: nat, lapsed: set<nat>)
    requires Unpaid(w)
    requires var v := Exec(w, before);
      i < |v.attempts| && v.attempts[i].Idle? && v.owner.None? && Admitted(v, lapsed) && v.tickets <= v.quantity
    ensures var v := Exec(w, before);
      var late := AnyLate(v, lapsed);
      var w' := Exec(v, [Check(i, payment)] + ([Enter(i, lapsed)] + ([PostCapture(i)] + Finish(i, late))));
      && |w'.captures| == 1 && w'.captures[0].payer == Gateway(payment) && w'.captures[0].late == late
      && |w'.postings| == 1 + v.lost
      && |w'.refundPostings| == v.lostRefunds + (if late then 1 else 0)
      && (!late && !Settled(v.status) ==> w'.tickets == v.quantity)
      && (!late ==> HoldsEnd(w', |v.holds|, Booked) && w'.status == if Settled(v.status) then v.status else Paid)
      && (late ==> HoldsEnd(w', |v.holds|, RefundPending) && w'.status == OrderStatus.Expired && w'.tickets == v.tickets)
  {
    var v := Exec(w, before);
    assert Inv(w);
    ExecKeepsInv(w, before);
    if v.captures != [] {
      SpentIsClosed(v, lapsed);
    }
    AttemptUpToPosting(v, i, payment, lapsed, Finish(i, AnyLate(v, lapsed)));
    AttemptFinishes(v, i, payment, AnyLate(v, lapsed));
  }

  /**
   An attempt cut after its posting, followed by a successful retry, leaves two postings for one
   capture; if the payment was late, the escrow keeps the first one, for only the retry's is refunded.
   */
  lemma CutAfterPostingPostsTwice(w: World, lapsed: set<nat>, payment: nat)
    requires Unpaid(w) && |w.attempts| == 2 && Admitted(w, lapsed)
    ensures var late := AnyLate(w, lapsed);
      var retry := [Check(1, payment)] + ([Enter(1, lapsed)] + ([PostCapture(1)] + Finish(1, late)));
      var w' := Exec(w, [Check(0, payment)] + ([Enter(0, lapsed)] + ([PostCapture(0)] + ([Crash(0)] + retry))));
      |w'.captures| == 1 && |w'.postings| == 2 && |w'.refundPostings| == if late then 1 else 0
  {
    var late := AnyLate(w, lapsed);
    var retry := [Check(1, payment)] + ([Enter(1, lapsed)] + ([PostCapture(1)] + Finish(1, late)));
    AttemptUpToPosting(w, 0, payment, lapsed, [Crash(0)] + retry);
    var w0 := AfterPosting(w, 0, payment, late);
    var w1 := Next(w0, Crash(0));
    ExecOne(w0, Crash(0), retry);
    assert w1.holds == w.holds && Admitted(w1, lapsed) && AnyLate(w1, lapsed) == late && w1.attempts[1].Idle?;
    AttemptUpToPosting(w1, 1, payment, lapsed, Finish(1, late));
    AttemptFinishes(w1, 1, payment, late);
  }

  function CoinEntry(w: World): Entry {
    Entry(Coins, w.nextTx, false, true, if w.tickets <= w.quantity then w.quantity - w.tickets else 0)
  }

  lemma CoinsPost(w: World, i: nat)
    requires i < |w.attempts| && w.attempts[i].SawPending? && w.owner.None? && w.tickets <= w.quantity
    requires AdmittedCoins(w, {}, true)
    ensures Next(Next(w, EnterCoins(i, {}, true)), PostCapture(i))
      == w.(attempts := w.attempts[i := Posted(CoinEntry(w))], owner := Some(i), nextTx := w.nextTx + 1, postings := w.postings + [w.nextTx])
  {
    assert w.attempts[i := InTransaction(CoinEntry(w))][i := Posted(CoinEntry(w))] == w.attempts[i := Posted(CoinEntry(w))];
  }

  lemma CoinsRun(w: World, i: nat)
    requires i < |w.attempts| && w.attempts[i].SawPending? && w.owner.None? && w.tickets <= w.quantity
    requires AdmittedCoins(w, {}, true)
    ensures var w' := Exec(w, [EnterCoins(i, {}, true)] + ([PostCapture(i)] + ([CommitTx(i)] + [])));
      && w'.captures == w.captures + [CoinEntry(w)] && w'.tickets == w.quantity
      && w'.status == Paid && HoldsEnd(w', |w.holds|, Booked) && w'.owner.None?
  {
    var w1 := Next(w, EnterCoins(i, {}, true));
    var w2 := Next(w1, PostCapture(i));
    ExecOne(w, EnterCoins(i, {}, true), [PostCapture(i)] + ([CommitTx(i)] + []));
    ExecOne(w1, PostCapture(i), [CommitTx(i)] + []);
    ExecOne(w2, CommitTx(i), []);
    CoinsPost(w, i);
  }

  /** What an on-time payment leaves for a coin checkout that has been waiting. */
  lemma PaidWhileCoinsWait(w: World, payment: nat)
    requires w.holds != [] && |w.attempts| == 2 && w.attempts[1].SawPending? && w.tickets <= w.quantity
    ensures var v := Next(AfterPosting(w, 0, payment, false), CommitTx(0));
      && v.captures == w.captures + [EntryOf(w, payment, false)] && v.tickets == w.tickets + EntryOf(w, payment, false).missing
      && v.quantity == w.quantity && v.attempts[1].SawPending? && v.owner.None? && AdmittedCoins(v, {}, true)
  {
    SoldAdmitsCoins(Next(AfterPosting(w, 0, payment, false), CommitTx(0)));
  }

  lemma SoldAdmitsCoins(w: World)
    requires w.holds != [] && forall k :: 0 <= k < |w.holds| ==> w.holds[k].Booked?
    ensures AdmittedCoins(w, {}, true)
  {
  }

  lemma ReadingChangesNoHold(w: World, payment: nat)
    requires Unpaid(w) && |w.attempts| == 2 && w.status.Pending? && Admitted(w, {}) && !AnyLate(w, {})
    ensures var w1 := Next(w, ReadOrder(1));
      Free(w1, 0, payment, {}) && !AnyLate(w1, {}) && w1.attempts[1].SawPending? && w1.captures == [] && w1.quantity == w.quantity
  {
    assert Next(w, ReadOrder(1)).holds == w.holds;
  }

  /**
   The coin checkout that captures a second time: it reads the order while pending, waits while a
   payment is confirmed in time, and then charges the buyer's coins for the tickets just sold.
   */
  lemma CoinsCaptureAgain(w: World, payment: nat)
    requires Unpaid(w) && |w.attempts| == 2 && w.status.Pending? && Admitted(w, {}) && !AnyLate(w, {})
    ensures var coins := [EnterCoins(1, {}, true)] + ([PostCapture(1)] + ([CommitTx(1)] + []));
      var w' := Exec(w, [ReadOrder(1)] + ([Check(0, payment)] + ([Enter(0, {})] + ([PostCapture(0)] + ([CommitTx(0)] + coins)))));
      && |w'.captures| == 2 && w'.captures[0].payer == Gateway(payment) && w'.captures[1].payer == Coins
      && w'.tickets == w.quantity && w'.status == Paid
  {
    var coins := [EnterCoins(1, {}, true)] + ([PostCapture(1)] + ([CommitTx(1)] + []));
    var w1 := Next(w, ReadOrder(1));
    var w2 := AfterPosting(w1, 0, payment, false);
    ExecOne(w, ReadOrder(1), [Check(0, payment)] + ([Enter(0, {})] + ([PostCapture(0)] + ([CommitTx(0)] + coins))));
    ReadingChangesNoHold(w, payment);
    AttemptUpToPosting(w1, 0, payment, {}, [CommitTx(0)] + coins);
    ExecOne(w2, CommitTx(0), coins);
    PaidWhileCoinsWait(w1, payment);
    CoinsRun(Next(w2, CommitTx(0)), 1);
  }
}
