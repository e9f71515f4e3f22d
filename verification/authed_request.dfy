/**
 A client that retries a booking request under one idempotency key, against a server that keeps a
 record per key and logs the replies it has saved. What happens to each try is decided by the
 environment: a try may stall, and finish long after the client has given it up.
 */
module AuthedRequest {

  /** The cached record of the key. */
  datatype Record = Free | Processing | Completed

  /**
   How a stalled try ends: never, saving its reply, or failing. It does so just before the given try
   of the call, or after the call if there is none. books says whether a booking of it is committed.
   */
  datatype End =
    | Hangs(books: bool)
    | SavesBefore(later: nat)
    | FailsBefore(later: nat, books: bool)

  /**
   logged says that a reply has been saved in the database; reservations counts the bookings made
   under the key, those of stalled tries among them whenever they commit; running holds the ends of
   the tries that have stalled.
   */
  datatype Server = Server(record: Record, logged: bool, reservations: nat, running: set<End>)

  const FRESH := Server(Free, false, 0, {})

  /**
   What happens once the request is past the key's check: create the booking and save the reply;
   refuse the token, or the booking because tickets are sold out; fail and roll back; create the
   booking and then fail, so that the key is given up; or stall.
   */
  datatype Effect = Creates | Unauthorized | SoldOut | Fails | FailsAfterCommit | Stalls(end: End)

  datatype Meeting =
    | Unsent
    | GatewayDown
    | Reaches(effect: Effect, replyLost: bool)

  /** lapsed says that a record in progress has run out of time since the try before. */
  datatype Fate = Fate(lapsed: bool, meets: Meeting)

  datatype Arrival = Arrival(server: Server, status: nat)

  const LOST := 0

  /** Stalled tries that end just before try p write the key's record whatever it is; a late failure only deletes it. */
  function Settled(s: Server, p: nat, lapsed: bool): Server {
    if SavesBefore(p) in s.running then s.(record := Completed, logged := true)
    else if FailsBefore(p, true) in s.running || FailsBefore(p, false) in s.running then s.(record := Free)
    else if lapsed && s.record == Processing then s.(record := Free)
    else s
  }

  predicate Commits(effect: Effect) {
    match effect
    case Creates => true
    case FailsAfterCommit => true
    case Stalls(SavesBefore(_)) => true
    case Stalls(Hangs(books)) => books
    case Stalls(FailsBefore(_, books)) => books
    case _ => false
  }

  /** What the handler leaves behind and replies. */
  function Handle(s: Server, effect: Effect): Arrival {
    var booked := s.(reservations := s.reservations + if Commits(effect) then 1 else 0);
    match effect
    case Creates => Arrival(booked.(record := Completed, logged := true), 201)
    case Unauthorized => Arrival(booked.(record := Free), 401)
    case SoldOut => Arrival(booked.(record := Free), 409)
    case Fails => Arrival(booked.(record := Free), 500)
    case FailsAfterCommit => Arrival(booked.(record := Free), 500)
    case Stalls(end) => Arrival(booked.(record := Processing, running := s.running + {end}), LOST)
  }

  /** Which reply tells what: a handler that fails may have booked, and one that stalls may as well. */
  lemma HandlerReplies(s: Server, effect: Effect)
    ensures var a := Handle(s, effect);
      && (a.status == 201 <==> effect.Creates?) && (a.status == 401 <==> effect.Unauthorized?) && (a.status == 409 <==> effect.SoldOut?)
      && (a.status == 500 <==> effect.Fails? || effect.FailsAfterCommit?) && (a.status == LOST <==> effect.Stalls?)
      && (a.server.record == Completed <==> effect.Creates?) && (a.server.record == Processing <==> effect.Stalls?)
    ensures Handle(s, effect).server.reservations - s.reservations
      == if effect.Creates? || effect.FailsAfterCommit? || (effect.Stalls? && (effect.end.SavesBefore? || effect.end.books)) then 1 else 0
  {
  }

  /**
   Try p. A key still in progress is refused, and the refusal itself deletes the record; a saved
   reply is given again, from the record or, where there is none, from the log.
   */
  function Arrive(s: Server, p: nat, fate: Fate): Arrival {
    var t := Settled(s, p, fate.lapsed);
    match fate.meets
    case Unsent => Arrival(t, LOST)
    case GatewayDown => Arrival(t, 503)
    case Reaches(effect, lost) =>
      var a :=
        if t.record == Processing then Arrival(t.(record := Free), 409)
        else if t.record == Completed || t.logged then Arrival(t.(record := Completed), 201)
        else Handle(t, effect);
      a.(status := if lost then LOST else a.status)
  }

  /** A request that never left is lost, one the gateway stops is told so, and one whose reply is lost is as good as lost; a saved reply is given again. */
  lemma TryReplies(s: Server, p: nat, fate: Fate)
    ensures fate.meets.Unsent? || (fate.meets.Reaches? && fate.meets.replyLost) ==> Arrive(s, p, fate).status == LOST
    ensures fate.meets.GatewayDown? ==> Arrive(s, p, fate).status == 503
    ensures var t := Settled(s, p, fate.lapsed);
      fate.meets.Reaches? && !fate.meets.replyLost && t.record != Processing && (t.record == Completed || t.logged) ==>
        Arrive(s, p, fate).status == 201
    ensures fate.meets.Reaches? && !fate.meets.replyLost && Settled(s, p, fate.lapsed).record == Processing ==>
      Arrive(s, p, fate).status == 409
  {
  }

  /** What a whole call did: the statuses of its tries in order, the requests sent, the server afterwards. */
  datatype Trace = Trace(statuses: seq<nat>, sent: nat, server: Server)

  predicate Transient(status: nat) {
    status == LOST || status >= 500
  }

  /** Whether the i-th of the allowed tries is followed by another. */
  predicate Retries(status: nat, refreshed: bool, i: nat, attempts: nat) {
    i < attempts && ((status == 401 && refreshed) || Transient(status))
  }

  /** The i-th try and what follows it; refreshed[i] says whether a token refresh after it works. */
  function Tries(s: Server, fates: seq<Fate>, refreshed: seq<bool>, i: nat, attempts: nat): Trace
    requires 1 <= i <= attempts <= |fates| && attempts <= |refreshed|
    decreases attempts - i
  {
    var a := Arrive(s, i - 1, fates[i - 1]);
    var cost := if a.status == 401 && i < attempts then 2 else 1;
    if Retries(a.status, refreshed[i - 1], i, attempts) then
      var rest := Tries(a.server, fates, refreshed, i + 1, attempts);
      Trace([a.status] + rest.statuses, cost + rest.sent, rest.server)
    else Trace([a.status], cost, a.server)
  }

  /** What has been told and sent so far, followed by what comes next. */
  function Joined(told: seq<nat>, sent: nat, rest: Trace): Trace {
    Trace(told + rest.statuses, sent + rest.sent, rest.server)
  }

  lemma Continues(s: Server, fates: seq<Fate>, refreshed: seq<bool>, i: nat, attempts: nat, a: Arrival, told: seq<nat>, sent: nat)
    requires 1 <= i <= attempts <= |fates| && attempts <= |refreshed|
    requires a == Arrive(s, i - 1, fates[i - 1]) && Retries(a.status, refreshed[i - 1], i, attempts)
    ensures Joined(told, sent, Tries(s, fates, refreshed, i, attempts))
      == Joined(told + [a.status], sent + (if a.status == 401 then 2 else 1), Tries(a.server, fates, refreshed, i + 1, attempts))
  {
    var rest := Tries(a.server, fates, refreshed, i + 1, attempts).statuses;
    assert told + ([a.status] + rest) == (told + [a.status]) + rest;
  }

  lemma Stops(s: Server, fates: seq<Fate>, refreshed: seq<bool>, i: nat, attempts: nat, a: Arrival, told: seq<nat>, sent: nat)
    requires 1 <= i <= attempts <= |fates| && attempts <= |refreshed|
    requires a == Arrive(s, i - 1, fates[i - 1]) && !Retries(a.status, refreshed[i - 1], i, attempts)
    ensures Joined(told, sent, Tries(s, fates, refreshed, i, attempts))
      == Trace(told + [a.status], sent + (if a.status == 401 && i < attempts then 2 else 1), a.server)
  {
  }

  /** Send the request, refresh an expired token, retry transient faults, and give up on anything else. */
  method AuthedCall(server: Server, fates: seq<Fate>, refreshed: seq<bool>, attempts: nat)
    returns (last: nat, statuses: seq<nat>, sent: nat, after: Server)
    requires 1 <= attempts <= |fates| && attempts <= |refreshed|
    ensures Trace(statuses, sent, after) == Tries(server, fates, refreshed, 1, attempts)
    ensures statuses != [] && last == statuses[|statuses| - 1]
  {
    statuses, sent, after, last := [], 0, server, LOST;
    var i := 1;
    assert Joined([], 0, Tries(server, fates, refreshed, 1, attempts)) == Tries(server, fates, refreshed, 1, attempts);
    while i <= attempts
      invariant 1 <= i <= attempts
      invariant Joined(statuses, sent, Tries(after, fates, refreshed, i, attempts)) == Tries(server, fates, refreshed, 1, attempts)
      decreases attempts - i
    {
      var a := Arrive(after, i - 1, fates[i - 1]);
      if Retries(a.status, refreshed[i - 1], i, attempts) {
        Continues(after, fates, refreshed, i, attempts, a, statuses, sent);
      } else {
        Stops(after, fates, refreshed, i, attempts, a, statuses, sent);
      }
      last, after, sent, statuses := a.status, a.server, sent + 1, statuses + [a.status];
      if last == 401 && i < attempts {
        sent := sent + 1;
        if !refreshed[i - 1] {
          return;
        }
      } else if !(Transient(last) && i < attempts) {
        return;
      }
      i := i + 1;
    }
  }

  // ---------------------------------------------------------------------------------------
  //  How much is sent
  // ---------------------------------------------------------------------------------------

  /** At most one request per try and one refresh between tries; only the last try can end in anything but 401 or a transient fault. */
  lemma {:induction false} BoundedAndFinal(s: Server, fates: seq<Fate>, refreshed: seq<bool>, i: nat, attempts: nat)
    requires 1 <= i <= attempts <= |fates| && attempts <= |refreshed|
    ensures var t := Tries(s, fates, refreshed, i, attempts);
      && 1 <= |t.statuses| <= attempts - i + 1
      && t.sent <= 2 * (attempts - i + 1) - 1
      && (forall k :: 0 <= k < |t.statuses| - 1 ==> t.statuses[k] == 401 || Transient(t.statuses[k]))
    decreases attempts - i
  {
    var a := Arrive(s, i - 1, fates[i - 1]);
    if Retries(a.status, refreshed[i - 1], i, attempts) {
      BoundedAndFinal(a.server, fates, refreshed, i + 1, attempts);
    }
  }

  /** A call of n attempts sends at most 2n - 1 requests and never retries a 409. */
  lemma SendsAtMost(s: Server, fates: seq<Fate>, refreshed: seq<bool>, attempts: nat)
    requires 1 <= attempts <= |fates| && attempts <= |refreshed|
    ensures var t := Tries(s, fates, refreshed, 1, attempts);
      t.sent <= 2 * attempts - 1 && forall k :: 0 <= k < |t.statuses| && t.statuses[k] == 409 ==> k == |t.statuses| - 1
  {
    BoundedAndFinal(s, fates, refreshed, 1, attempts);
  }

  // ---------------------------------------------------------------------------------------
  //  More than one reservation
  // ---------------------------------------------------------------------------------------

  /** The given try saves its reply, at once or, having stalled, at latest just before try x. */
  predicate SavesBy(fates: seq<Fate>, j: nat, x: nat) {
    && j < |fates| && fates[j].meets.Reaches?
    && var effect := fates[j].meets.effect;
       effect.Creates? || (effect.Stalls? && effect.end.SavesBefore? && j < effect.end.later <= x)
  }

  predicate StallsWith(fates: seq<Fate>, j: nat, end: End) {
    j < |fates| && fates[j].meets.Reaches? && fates[j].meets.effect == Stalls(end)
  }

  /** A reply is saved by the time of try x; past are the tries that reached a handler. */
  predicate Answered(fates: seq<Fate>, past: set<nat>, x: nat) {
    exists j :: j in past && SavesBy(fates, j, x)
  }

  predicate DeletesBefore(fates: seq<Fate>, j: nat, x: nat) {
    j < x && (StallsWith(fates, j, FailsBefore(x, true)) || StallsWith(fates, j, FailsBefore(x, false)))
  }

  /** The key's record goes just before try x: its time has run out, or a try that stalled earlier fails and deletes it. */
  predicate Released(fates: seq<Fate>, past: set<nat>, x: nat) {
    (x < |fates| && fates[x].lapsed) || exists j :: j in past && DeletesBefore(fates, j, x)
  }

  /** Try h stalled, no other before try k reached the server, and the record of h stayed at least until just before try x. */
  ghost predicate HoldsUntil(fates: seq<Fate>, past: set<nat>, h: nat, k: nat, x: nat) {
    && h < |fates| && fates[h].meets.Reaches? && fates[h].meets.effect.Stalls?
    && (forall m :: h < m < k && m < |fates| ==> !fates[m].meets.Reaches?)
    && (forall y: nat :: h < y <= x ==> !Released(fates, past, y))
  }

  /** The last try to reach the server before try k is still in progress, its record in place. */
  ghost predicate Held(fates: seq<Fate>, past: set<nat>, k: nat, x: nat) {
    exists h :: h in past && HoldsUntil(fates, past, h, k, x)
  }

  /**
   Of the first n tries, those that reach a handler if they are made: each comes when no reply has been
   saved and nobody holds the key.
   */
  ghost function Admissions(fates: seq<Fate>, n: nat): set<nat>
    requires n <= |fates|
    decreases n, 0
  {
    if n == 0 then {}
    else
      var past := Admissions(fates, n - 1);
      if Admitted(fates, n - 1) then past + {n - 1} else past
  }

  ghost predicate Admitted(fates: seq<Fate>, k: nat)
    requires k < |fates|
    decreases k, 1
  {
    && fates[k].meets.Reaches?
    && !Answered(fates, Admissions(fates, k), k)
    && !Held(fates, Admissions(fates, k), k, k)
  }

  /** The client goes on to another try after this one. */
  ghost predicate Followed(fates: seq<Fate>, refreshed: seq<bool>, k: nat)
    requires k < |fates| && k < |refreshed|
  {
    match fates[k].meets
    case Unsent => true
    case GatewayDown => true
    case Reaches(effect, lost) =>
      || lost
      || (Admitted(fates, k)
          && (effect.Fails? || effect.FailsAfterCommit? || effect.Stalls? || (effect.Unauthorized? && refreshed[k])))
  }

  /** The client gets as far as try k. */
  ghost predicate Made(fates: seq<Fate>, refreshed: seq<bool>, k: nat)
    requires k <= |fates| && k <= |refreshed|
  {
    forall m: nat {:trigger Followed(fates, refreshed, m)} :: m < k ==> Followed(fates, refreshed, m)
  }

  /** Try k is made, reaches a handler, and books. */
  ghost predicate BooksAt(fates: seq<Fate>, refreshed: seq<bool>, k: nat)
    requires k < |fates| && k < |refreshed|
  {
    Made(fates, refreshed, k) && Admitted(fates, k) && Commits(fates[k].meets.effect)
  }

  /** How many of the first n tries book. */
  ghost function Bookings(fates: seq<Fate>, refreshed: seq<bool>, n: nat): nat
    requires n <= |fates| && n <= |refreshed|
  {
    if n == 0 then 0 else Bookings(fates, refreshed, n - 1) + if BooksAt(fates, refreshed, n - 1) then 1 else 0
  }

  // ---------------------------------------------------------------------------------------
  //  The server's state and the history it stands for
  // ---------------------------------------------------------------------------------------

  lemma {:induction false} AdmittedBelow(fates: seq<Fate>, n: nat)
    requires n <= |fates|
    ensures forall j :: j in Admissions(fates, n) ==> j < n && fates[j].meets.Reaches?
  {
    if n > 0 {
      AdmittedBelow(fates, n - 1);
    }
  }

  predicate StalledAmong(fates: seq<Fate>, past: set<nat>, end: End) {
    exists j :: j in past && StallsWith(fates, j, end)
  }

  ghost predicate RunningAre(s: Server, fates: seq<Fate>, past: set<nat>) {
    forall end :: end in s.running <==> StalledAmong(fates, past, end)
  }

  /** What the record and the log say, given whether a reply has been saved and whether a stalled try holds the key. */
  predicate Shows(s: Server, answered: bool, held: bool) {
    && s.logged == answered
    && (s.record == Completed ==> answered)
    && (answered ==> s.record != Processing)
    && (!answered ==> (s.record == Processing <==> held))
  }

  /** The state stands for the history of the first n tries, as far as it has got just before try x. */
  ghost predicate StandsFor(s: Server, fates: seq<Fate>, n: nat, x: nat)
    requires n <= |fates|
  {
    var past := Admissions(fates, n);
    Shows(s, Answered(fates, past, x), Held(fates, past, n, x)) && RunningAre(s, fates, past)
  }

  lemma AnsweredLater(fates: seq<Fate>, past: set<nat>, x: nat)
    requires forall j :: j in past ==> j <= x
    ensures Answered(fates, past, x + 1) <==> Answered(fates, past, x) || StalledAmong(fates, past, SavesBefore(x + 1))
  {
    var next := x + 1;
    if j :| j in past && SavesBy(fates, j, next) {
      assert SavesBy(fates, j, x) || StallsWith(fates, j, SavesBefore(next));
    }
    if j :| j in past && SavesBy(fates, j, x) {
      assert SavesBy(fates, j, next);
    }
    if j :| j in past && StallsWith(fates, j, SavesBefore(next)) {
      assert SavesBy(fates, j, next);
    }
  }

  lemma ReleasedMeans(fates: seq<Fate>, past: set<nat>, x: nat)
    requires x < |fates| && forall j :: j in past ==> j < x
    ensures Released(fates, past, x)
      <==> fates[x].lapsed || StalledAmong(fates, past, FailsBefore(x, true)) || StalledAmong(fates, past, FailsBefore(x, false))
  {
    if j :| j in past && DeletesBefore(fates, j, x) {
      assert StallsWith(fates, j, FailsBefore(x, true)) || StallsWith(fates, j, FailsBefore(x, false));
    }
    if j :| j in past && StallsWith(fates, j, FailsBefore(x, true)) {
      assert DeletesBefore(fates, j, x);
    }
    if j :| j in past && StallsWith(fates, j, FailsBefore(x, false)) {
      assert DeletesBefore(fates, j, x);
    }
  }

  lemma HeldLater(fates: seq<Fate>, past: set<nat>, k: nat, x: nat)
    requires forall j :: j in past ==> j <= x
    ensures Held(fates, past, k, x + 1) <==> Held(fates, past, k, x) && !Released(fates, past, x + 1)
  {
    var next := x + 1;
    if h :| h in past && HoldsUntil(fates, past, h, k, next) {
      assert HoldsUntil(fates, past, h, k, x);
    }
    if !Released(fates, past, next) {
      if h :| h in past && HoldsUntil(fates, past, h, k, x) {
        assert HoldsUntil(fates, past, h, k, next);
      }
    }
  }

  /** What happens between two tries brings the state to the history just before the second. */
  lemma Settles(s: Server, fates: seq<Fate>, p: nat)
    requires p + 1 < |fates| && StandsFor(s, fates, p + 1, p)
    ensures StandsFor(Settled(s, p + 1, fates[p + 1].lapsed), fates, p + 1, p + 1)
  {
    var past := Admissions(fates, p + 1);
    AdmittedBelow(fates, p + 1);
    AnsweredLater(fates, past, p);
    HeldLater(fates, past, p + 1, p);
    ReleasedMeans(fates, past, p + 1);
    assert SavesBefore(p + 1) in s.running <==> StalledAmong(fates, past, SavesBefore(p + 1));
    assert FailsBefore(p + 1, true) in s.running <==> StalledAmong(fates, past, FailsBefore(p + 1, true));
    assert FailsBefore(p + 1, false) in s.running <==> StalledAmong(fates, past, FailsBefore(p + 1, false));
  }

  lemma AnsweredWith(fates: seq<Fate>, past: set<nat>, p: nat)
    requires p < |fates| && fates[p].meets.Reaches?
    ensures Answered(fates, past + {p}, p) <==> Answered(fates, past, p) || fates[p].meets.effect.Creates?
  {
    if j :| j in past && SavesBy(fates, j, p) {
      assert j in past + {p};
    }
    assert SavesBy(fates, p, p) <==> fates[p].meets.effect.Creates?;
    assert p in past + {p};
  }

  /** An admitted try holds the key afterwards exactly when it stalls, whoever held it before. */
  lemma HeldWith(fates: seq<Fate>, past: set<nat>, p: nat)
    requires p < |fates| && fates[p].meets.Reaches? && forall j :: j in past ==> j < p
    ensures Held(fates, past + {p}, p + 1, p) <==> fates[p].meets.effect.Stalls?
  {
    var after := past + {p};
    if h :| h in after && HoldsUntil(fates, after, h, p + 1, p) {
      assert h == p;
    }
    if fates[p].meets.effect.Stalls? {
      assert HoldsUntil(fates, after, p, p + 1, p);
    }
  }

  /** A try that is not admitted takes the key from whoever held it if it reaches the server, and leaves it if not. */
  lemma HeldWithout(fates: seq<Fate>, past: set<nat>, p: nat)
    requires p < |fates| && forall j :: j in past ==> j < p
    ensures Held(fates, past, p + 1, p) <==> !fates[p].meets.Reaches? && Held(fates, past, p, p)
  {
    if h :| h in past && HoldsUntil(fates, past, h, p + 1, p) {
      assert HoldsUntil(fates, past, h, p, p);
    }
    if !fates[p].meets.Reaches? {
      if h :| h in past && HoldsUntil(fates, past, h, p, p) {
        assert HoldsUntil(fates, past, h, p + 1, p);
      }
    }
  }

  lemma RunningWith(s: Server, fates: seq<Fate>, past: set<nat>, p: nat)
    requires p < |fates| && fates[p].meets.Reaches? && RunningAre(s, fates, past)
    ensures fates[p].meets.effect.Stalls?
      ==> RunningAre(s.(running := s.running + {fates[p].meets.effect.end}), fates, past + {p})
    ensures !fates[p].meets.effect.Stalls? ==> RunningAre(s, fates, past + {p})
  {
    forall end ensures StalledAmong(fates, past + {p}, end) <==> StalledAmong(fates, past, end) || StallsWith(fates, p, end) {
      if j :| j in past && StallsWith(fates, j, end) {
        assert j in past + {p};
      }
      assert p in past + {p};
    }
  }

  /** One try: the state goes on standing for the history, and the try is admitted, books and is followed as the history says. */
  lemma TryStep(s: Server, fates: seq<Fate>, refreshed: seq<bool>, p: nat)
    requires p < |fates| && p < |refreshed| && StandsFor(Settled(s, p, fates[p].lapsed), fates, p, p)
    ensures var a := Arrive(s, p, fates[p]);
      && StandsFor(a.server, fates, p + 1, p)
      && a.server.reservations == s.reservations + (if Admitted(fates, p) && Commits(fates[p].meets.effect) then 1 else 0)
      && ((a.status == 401 && refreshed[p]) || Transient(a.status) <==> Followed(fates, refreshed, p))
  {
    var past := Admissions(fates, p);
    AdmittedBelow(fates, p);
    if Admitted(fates, p) {
      AnsweredWith(fates, past, p);
      HeldWith(fates, past, p);
      RunningWith(Settled(s, p, fates[p].lapsed), fates, past, p);
    } else {
      HeldWithout(fates, past, p);
    }
  }

  // ---------------------------------------------------------------------------------------
  //  How many bookings
  // ---------------------------------------------------------------------------------------

  lemma {:induction false} NoneAfterTheLast(fates: seq<Fate>, refreshed: seq<bool>, p: nat, n: nat)
    requires p < n <= |fates| && n <= |refreshed| && !Followed(fates, refreshed, p)
    ensures Bookings(fates, refreshed, n) == Bookings(fates, refreshed, p + 1)
  {
    if p + 1 < n {
      NoneAfterTheLast(fates, refreshed, p, n - 1);
    }
  }

  lemma {:induction false} TriesBook(s: Server, fates: seq<Fate>, refreshed: seq<bool>, i: nat, attempts: nat)
    requires 1 <= i <= attempts <= |fates| && attempts <= |refreshed|
    requires StandsFor(Settled(s, i - 1, fates[i - 1].lapsed), fates, i - 1, i - 1) && Made(fates, refreshed, i - 1)
    requires s.reservations == Bookings(fates, refreshed, i - 1)
    ensures Tries(s, fates, refreshed, i, attempts).server.reservations == Bookings(fates, refreshed, attempts)
    decreases attempts - i
  {
    var p := i - 1;
    var a := Arrive(s, p, fates[p]);
    TryStep(s, fates, refreshed, p);
    if Retries(a.status, refreshed[p], i, attempts) {
      Settles(a.server, fates, p);
      TriesBook(a.server, fates, refreshed, i + 1, attempts);
    } else if i < attempts {
      NoneAfterTheLast(fates, refreshed, p, attempts);
    }
  }

  /** A call makes exactly the bookings of the tries that are made and reach a handler that books. */
  lemma CallBooks(fates: seq<Fate>, refreshed: seq<bool>, attempts: nat)
    requires 1 <= attempts <= |fates| && attempts <= |refreshed|
    ensures Tries(FRESH, fates, refreshed, 1, attempts).server.reservations == Bookings(fates, refreshed, attempts)
  {
    assert StandsFor(Settled(FRESH, 0, fates[0].lapsed), fates, 0, 0);
    TriesBook(FRESH, fates, refreshed, 1, attempts);
  }

  ghost predicate BookTwice(fates: seq<Fate>, refreshed: seq<bool>, b: nat, c: nat)
    requires b < c < |fates| && c < |refreshed|
  {
    BooksAt(fates, refreshed, b) && BooksAt(fates, refreshed, c)
  }

  lemma {:induction false} SomeBooking(fates: seq<Fate>, refreshed: seq<bool>, n: nat)
    requires n <= |fates| && n <= |refreshed|
    ensures Bookings(fates, refreshed, n) > 0 <==> exists b: nat :: b < n && BooksAt(fates, refreshed, b)
  {
    if n > 0 {
      SomeBooking(fates, refreshed, n - 1);
    }
  }

  lemma {:induction false} TwoBookings(fates: seq<Fate>, refreshed: seq<bool>, n: nat)
    requires n <= |fates| && n <= |refreshed|
    ensures Bookings(fates, refreshed, n) > 1 <==> exists b: nat, c: nat :: b < c < n && BookTwice(fates, refreshed, b, c)
  {
    if n > 0 {
      var last := n - 1;
      TwoBookings(fates, refreshed, last);
      SomeBooking(fates, refreshed, last);
      if BooksAt(fates, refreshed, last) && Bookings(fates, refreshed, last) > 0 {
        var b: nat :| b < last && BooksAt(fates, refreshed, b);
        assert BookTwice(fates, refreshed, b, last);
      }
    }
  }

  /**
   What happens to the tries decides it beforehand: a fresh key is booked more than once exactly when
   two of the tries that are made book, each reaching the server while no reply has been saved and
   while the last try to reach it before is not still in progress with its record in place.
   */
  lemma BooksTwiceIff(fates: seq<Fate>, refreshed: seq<bool>, attempts: nat)
    requires 1 <= attempts <= |fates| && attempts <= |refreshed|
    ensures Tries(FRESH, fates, refreshed, 1, attempts).server.reservations > 1
      <==> exists b: nat, c: nat :: b < c < attempts && BookTwice(fates, refreshed, b, c)
  {
    CallBooks(fates, refreshed, attempts);
    TwoBookings(fates, refreshed, attempts);
  }

  // ---------------------------------------------------------------------------------------
  //  An atomic server
  // ---------------------------------------------------------------------------------------

  /** The handler commits the booking and saves its reply as one, or does neither, before the client gives the try up. */
  predicate Atomic(fate: Fate) {
    fate.meets.Reaches? ==> !fate.meets.effect.Stalls? && !fate.meets.effect.FailsAfterCommit?
  }

  ghost predicate AllAtomic(fates: seq<Fate>) {
    forall k :: 0 <= k < |fates| ==> Atomic(fates[k])
  }

  /** Nothing is in progress, and the key has a saved reply exactly when it has its one booking. */
  predicate BooksKept(s: Server) {
    s.record != Processing && s.running == {} && s.logged == (s.record == Completed)
    && s.reservations == if s.logged then 1 else 0
  }

  /** Each booking is kept under its key, and the last status tells. */
  lemma {:induction false} AtomicKeepsCount(s: Server, fates: seq<Fate>, refreshed: seq<bool>, i: nat, attempts: nat)
    requires 1 <= i <= attempts <= |fates| && attempts <= |refreshed| && AllAtomic(fates) && BooksKept(s)
    ensures var t := Tries(s, fates, refreshed, i, attempts);
      && BooksKept(t.server) && t.statuses != []
      && (t.statuses[|t.statuses| - 1] == 201 ==> t.server.logged)
      && (t.statuses[|t.statuses| - 1] == 409 ==> !t.server.logged)
    decreases attempts - i
  {
    assert Atomic(fates[i - 1]);
    var a := Arrive(s, i - 1, fates[i - 1]);
    if Retries(a.status, refreshed[i - 1], i, attempts) {
      AtomicKeepsCount(a.server, fates, refreshed, i + 1, attempts);
    }
  }

  /**
   Against a server whose commit and saved reply are one, whatever replies are lost and whatever else
   fails: at most one booking; a final 201 means exactly one, and a final 409 means none.
   */
  lemma AtomicServerBooksOnce(fates: seq<Fate>, refreshed: seq<bool>, attempts: nat)
    requires 1 <= attempts <= |fates| && attempts <= |refreshed| && AllAtomic(fates)
    ensures var t := Tries(FRESH, fates, refreshed, 1, attempts);
      && t.server.reservations <= 1
      && t.statuses != []
      && (t.statuses[|t.statuses| - 1] == 201 ==> t.server.reservations == 1)
      && (t.statuses[|t.statuses| - 1] == 409 ==> t.server.reservations == 0)
  {
    AtomicKeepsCount(FRESH, fates, refreshed, 1, attempts);
  }

  // ---------------------------------------------------------------------------------------
  //  Particular calls
  // ---------------------------------------------------------------------------------------

  /** A try that reaches the server in time to find its own record. */
  function Meets(effect: Effect, lost: bool): Fate {
    Fate(false, Reaches(effect, lost))
  }

  /** The middleware does not make them one: a try that stalls after its commit makes the next one a 409 that is not a sold-out. */
  lemma {:induction false} StalledTryMisleads(f: seq<bool>)
    requires |f| >= 2
    ensures var t := Tries(FRESH, [Meets(Stalls(Hangs(true)), true), Meets(Creates, false)], f, 1, 2);
      t.statuses == [LOST, 409] && t.server.reservations == 1
  {
  }

  /** If that 409 is lost, the third try books again, unless the stalled one has saved its reply in the meantime. */
  lemma {:induction false} LateSaveAnswers(f: seq<bool>, end: End)
    requires |f| >= 3 && (end == Hangs(true) || end == SavesBefore(2))
    ensures var fates := [Meets(Stalls(end), true), Meets(Creates, true), Meets(Creates, false)];
      Tries(FRESH, fates, f, 1, 3).server.reservations == if end.Hangs? then 2 else 1
  {
  }

  /**
   A try that fails late deletes the key's record, whoever's it is. If that try had saved its reply, the
   log still answers the next one; if it is itself in progress, the next one books again.
   */
  lemma {:induction false} LateFailureFreesTheKey(f: seq<bool>, third: Effect)
    requires |f| >= 4 && (third == Creates || third == Stalls(Hangs(true)))
    ensures var fates := [Meets(Stalls(FailsBefore(3, false)), true), Meets(Creates, true), Meets(third, true), Meets(Creates, false)];
      Tries(FRESH, fates, f, 1, 4).server.reservations == if third.Creates? then 1 else 2
  {
  }
}
