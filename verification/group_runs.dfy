/** What every run of a group booking keeps, what becomes of its seats, and what only careful rebalances keep. */
module GroupBookingRuns {
  import opened Common
  import opened GroupBooking
  import I = Inventory
  import Safety = InventorySafety
  import Moves = InventoryMoves
  import ClosedOrders = InventoryClosed

  // ---------------------------------------------------------------------------------------
  //  Sums
  // ---------------------------------------------------------------------------------------

  lemma {:induction false} SumsUpdate(members: seq<Member>, k: nat, m: Member)
    requires k < |members|
    ensures ShareSum(members[k := m]) == ShareSum(members) - members[k].share + m.share
    ensures PaidSum(members[k := m]) == PaidSum(members) - members[k].paid + m.paid
  {
    if k == 0 {
      assert members[0 := m][1..] == members[1..];
    } else {
      assert members[k := m][1..] == members[1..][k - 1 := m];
      SumsUpdate(members[1..], k - 1, m);
    }
  }

  lemma {:induction false} SumsAppend(members: seq<Member>, m: Member)
    ensures ShareSum(members + [m]) == ShareSum(members) + m.share
    ensures PaidSum(members + [m]) == PaidSum(members) + m.paid
  {
    if members == [] {
      assert (members + [m])[1..] == [];
    } else {
      assert (members + [m])[1..] == members[1..] + [m];
      SumsAppend(members[1..], m);
    }
  }

  lemma {:induction false} SumsWithout(members: seq<Member>, k: nat)
    requires k < |members|
    ensures ShareSum(Without(members, k)) == ShareSum(members) - members[k].share
    ensures PaidSum(Without(members, k)) == PaidSum(members) - members[k].paid
  {
    if k == 0 {
      assert Without(members, 0) == members[1..];
    } else {
      assert Without(members, k)[1..] == Without(members[1..], k - 1);
      SumsWithout(members[1..], k - 1);
    }
  }

  // ---------------------------------------------------------------------------------------
  //  The invariant of every run
  // ---------------------------------------------------------------------------------------

  ghost predicate DistinctUsers(members: seq<Member>) {
    forall i, j :: 0 <= i < j < |members| ==> members[i].user != members[j].user
  }

  /** Nobody has paid more than their share; whoever has not joined owes nothing. */
  ghost predicate PaidWithinShares(members: seq<Member>) {
    forall i :: 0 <= i < |members| ==>
      members[i].paid <= members[i].share && (members[i].invite != Accepted ==> members[i].share == 0)
  }

  ghost predicate Sound(g: Group) {
    && DistinctUsers(g.members)
    && PaidWithinShares(g.members)
    && IsMember(g.members, g.owner) && g.members[Find(g.members, g.owner)].invite == Accepted
    && g.collected == PaidSum(g.members)
    && (g.status == Running && g.total > 0 ==> g.collected < g.total)
    && (g.status == Complete ==> g.collected >= g.total)
  }

  lemma {:induction false} WriteSharesKeeps(members: seq<Member>, shares: seq<Share>)
    requires DistinctUsers(members) && PaidWithinShares(members) && ShareError(members, shares) == None
    ensures var r := WriteShares(members, shares);
      && DistinctUsers(r) && PaidWithinShares(r) && PaidSum(r) == PaidSum(members)
      && (forall i :: 0 <= i < |r| ==> r[i] == members[i].(share := r[i].share))
    decreases |shares|
  {
    if shares != [] {
      var k := Find(members, shares[0].user);
      var written := members[k := members[k].(share := shares[0].amount)];
      SumsUpdate(members, k, written[k]);
      SameErrors(members, written, shares[1..]);
      WriteSharesKeeps(written, shares[1..]);
    }
  }

  lemma {:induction false} SameFind(a: seq<Member>, b: seq<Member>, user: User)
    requires |a| == |b| && forall i :: 0 <= i < |a| ==> a[i].user == b[i].user
    ensures Find(a, user) == Find(b, user)
  {
    if a != [] && a[0].user != user {
      SameFind(a[1..], b[1..], user);
    }
  }

  /** Share lists are judged by who is a member and what is paid, not by the shares themselves. */
  lemma {:induction false} SameErrors(a: seq<Member>, b: seq<Member>, shares: seq<Share>)
    requires |a| == |b| && forall i :: 0 <= i < |a| ==> b[i] == a[i].(share := b[i].share)
    ensures ShareError(a, shares) == ShareError(b, shares)
  {
    if shares != [] {
      SameFind(a, b, shares[0].user);
      SameErrors(a, b, shares[1..]);
    }
  }

  lemma {:induction false} FindKeepsPosition(members: seq<Member>, k: nat)
    requires DistinctUsers(members) && k < |members|
    ensures Find(members, members[k].user) == k
  {
    if k > 0 {
      FindKeepsPosition(members[1..], k - 1);
    }
  }

  lemma WithoutKeeps(members: seq<Member>, k: nat, o: nat)
    requires DistinctUsers(members) && PaidWithinShares(members) && k < |members| && o < |members| && o != k
    ensures var left := Without(members, k);
      && DistinctUsers(left) && PaidWithinShares(left)
      && IsMember(left, members[o].user) && left[Find(left, members[o].user)] == members[o]
  {
    var left := Without(members, k);
    forall i | 0 <= i < |left| ensures left[i] == members[if i < k then i else i + 1] {
    }
    FindKeepsPosition(left, if o < k then o else o - 1);
  }

  lemma TakenOverKeeps(members: seq<Member>, o: nat, share: nat)
    requires DistinctUsers(members) && PaidWithinShares(members) && o < |members| && members[o].invite == Accepted
    ensures DistinctUsers(TakenOver(members, o, share)) && PaidWithinShares(TakenOver(members, o, share))
    ensures ShareSum(TakenOver(members, o, share)) == ShareSum(members) + share
    ensures PaidSum(TakenOver(members, o, share)) == PaidSum(members)
  {
    SumsUpdate(members, o, TakenOver(members, o, share)[o]);
  }

  /** The members once somebody who has paid nothing has left and the owner has the share. */
  lemma ExpelledKeeps(g: Group, k: nat)
    requires Sound(g) && k < |g.members| && g.members[k].user != g.owner && g.members[k].paid == 0
    ensures var after := Expelled(g.members, g.owner, k);
      && DistinctUsers(after) && PaidWithinShares(after)
      && IsMember(after, g.owner) && after[Find(after, g.owner)].invite == Accepted
      && PaidSum(after) == PaidSum(g.members) && ShareSum(after) == ShareSum(g.members)
  {
    var o := Find(g.members, g.owner);
    var raised := TakenOver(g.members, o, g.members[k].share);
    TakenOverKeeps(g.members, o, g.members[k].share);
    SumsWithout(raised, k);
    WithoutKeeps(raised, k, o);
  }

  lemma RemoveKeepsSound(g: Group, actor: User, user: User, echo: Option<nat>)
    requires Sound(g) && Remove(g, actor, user, echo).Changed?
    ensures Sound(Remove(g, actor, user, echo).group)
    ensures ShareSum(Remove(g, actor, user, echo).group.members) == ShareSum(g.members)
  {
    ExpelledKeeps(g, Find(g.members, user));
  }

  lemma RebalanceKeepsSound(g: Group, actor: User, shares: seq<Share>, known: nat)
    requires Sound(g) && Rebalance(g, actor, shares, known).Changed?
    ensures Sound(Rebalance(g, actor, shares, known).group)
  {
    WriteSharesKeeps(g.members, shares);
    SameFind(g.members, WriteShares(g.members, shares), g.owner);
  }

  lemma PaymentKeepsMembers(members: seq<Member>, k: nat, amount: nat)
    requires DistinctUsers(members) && PaidWithinShares(members) && k < |members| && members[k].paid + amount <= members[k].share
    ensures var after := members[k := members[k].(paid := members[k].paid + amount)];
      && DistinctUsers(after) && PaidWithinShares(after)
      && ShareSum(after) == ShareSum(members) && PaidSum(after) == PaidSum(members) + amount
      && (forall u :: Find(after, u) == Find(members, u))
  {
    var after := members[k := members[k].(paid := members[k].paid + amount)];
    SumsUpdate(members, k, after[k]);
    forall u ensures Find(after, u) == Find(members, u) {
      SameFind(members, after, u);
    }
  }

  lemma ContributeKeepsSound(g: Group, user: User, amount: nat, known: nat)
    requires Sound(g) && Contribute(g, user, amount, known).Changed?
    ensures Sound(Contribute(g, user, amount, known).group)
    ensures ShareSum(Contribute(g, user, amount, known).group.members) == ShareSum(g.members)
  {
    PaymentKeepsMembers(g.members, Find(g.members, user), amount);
  }

  /** A member other than the owner, owing and having paid nothing, is changed to one that owes nothing. */
  lemma ReplacementKeepsSound(g: Group, k: nat, m: Member)
    requires Sound(g) && k < |g.members| && g.members[k].user != g.owner
    requires m.user == g.members[k].user && m.share == g.members[k].share && m.paid == g.members[k].paid
    requires m.invite == Accepted || m.share == 0
    ensures Sound(g.(members := g.members[k := m])) && ShareSum(g.members[k := m]) == ShareSum(g.members)
  {
    SumsUpdate(g.members, k, m);
    SameFind(g.members, g.members[k := m], g.owner);
  }

  lemma NewcomerKeepsSound(g: Group, user: User)
    requires Sound(g) && Find(g.members, user) == |g.members|
    ensures var after := g.members + [Member(user, Invited, 0, 0)];
      Sound(g.(members := after)) && ShareSum(after) == ShareSum(g.members)
  {
    var after := g.members + [Member(user, Invited, 0, 0)];
    SumsAppend(g.members, Member(user, Invited, 0, 0));
    FindKeepsPosition(after, Find(g.members, g.owner));
  }

  lemma MembershipKeepsSound(g: Group, op: GroupOp)
    requires Sound(g) && (op.Ask? || op.Join? || op.Decline?) && Apply(g, op).Changed?
    ensures Sound(Apply(g, op).group)
    ensures ShareSum(Apply(g, op).group.members) == ShareSum(g.members)
  {
    var k, g' := Find(g.members, op.user), Apply(g, op).group;
    if k == |g.members| {
      NewcomerKeepsSound(g, op.user);
    } else {
      assert g.members[k].invite != Accepted && g.members[k].share == 0 && g.members[k].paid == 0;
      ReplacementKeepsSound(g, k, g'.members[k]);
      assert g'.members == g.members[k := g'.members[k]];
    }
  }

  /** Whatever is accepted, the group stays sound, and only a rebalance moves the sum of the shares. */
  lemma ChangeKeepsSound(g: Group, op: GroupOp)
    requires Sound(g) && Apply(g, op).Changed?
    ensures Sound(Apply(g, op).group) && Apply(g, op).group.total == g.total
    ensures !op.Split? ==> ShareSum(Apply(g, op).group.members) == ShareSum(g.members)
  {
    match op
    case Look(_) =>
    case Ask(_, _, _) => MembershipKeepsSound(g, op);
    case Join(_, _) => MembershipKeepsSound(g, op);
    case Decline(_, _) => MembershipKeepsSound(g, op);
    case Expel(actor, user, echo, _) => RemoveKeepsSound(g, actor, user, echo);
    case Split(actor, shares, known, _) => RebalanceKeepsSound(g, actor, shares, known);
    case Pay(user, amount, known, _) => ContributeKeepsSound(g, user, amount, known);
    case Cancel(_, _, _) =>
  }

  /** Whatever happens next, to the group or to the inventory, accepted or refused, the group stays sound. */
  lemma StepKeepsSound(w: World, e: Event)
    requires Safety.Sound(w.inventory) && Sound(w.group)
    ensures Sound(After(w, e).group)
  {
    if e.Act? && Apply(w.group, e.op).Changed? {
      ChangeKeepsSound(w.group, e.op);
    }
  }

  lemma {:induction false} RunKeepsSound(w: World, events: seq<Event>)
    requires Safety.Sound(w.inventory) && Sound(w.group)
    ensures Sound(Run(w, events).group)
    decreases |events|
  {
    if events != [] {
      EventKeepsInventorySound(w, events[0]);
      StepKeepsSound(w, events[0]);
      RunKeepsSound(After(w, events[0]), events[1..]);
    }
  }

  lemma CreatedIsSound(owner: User, total: nat, expiresAt: I.Time, order: I.OrderId)
    ensures Sound(Created(owner, total, expiresAt, order)) && ShareSum(Created(owner, total, expiresAt, order).members) == total
  {
    var members := Created(owner, total, expiresAt, order).members;
    assert members == [Member(owner, Accepted, total, 0)] && members[1..] == [];
  }

  /**
   In every run of a new group booking, whatever else happens to its order: what is collected is what
   members have paid, nobody has paid more than their share, and the group is only complete once the
   total has been collected.
   */
  lemma EveryRun(s: I.State, owner: User, total: nat, expiresAt: I.Time, order: I.OrderId, events: seq<Event>)
    requires Safety.Sound(s)
    ensures var g := Run(World(Created(owner, total, expiresAt, order), s), events).group;
      && g.collected == PaidSum(g.members)
      && (forall i :: 0 <= i < |g.members| ==> g.members[i].paid <= g.members[i].share)
      && (g.status == Complete ==> g.collected >= g.total)
  {
    CreatedIsSound(owner, total, expiresAt, order);
    RunKeepsSound(World(Created(owner, total, expiresAt, order), s), events);
  }

  // ---------------------------------------------------------------------------------------
  //  When a request is granted, and what it changes
  // ---------------------------------------------------------------------------------------

  /** The users other than the given one are members as they were, or are none. */
  ghost predicate OthersStay(before: seq<Member>, after: seq<Member>, user: User) {
    forall u :: u != user ==> SameStanding(before, after, u)
  }

  predicate SameStanding(before: seq<Member>, after: seq<Member>, u: User) {
    && IsMember(before, u) == IsMember(after, u)
    && (IsMember(before, u) ==> after[Find(after, u)] == before[Find(before, u)])
  }

  /** What is on record for a user. */
  function Standing(members: seq<Member>, user: User): Option<Member> {
    if IsMember(members, user) then Some(members[Find(members, user)]) else None
  }

  lemma {:induction false} ReplacedStanding(members: seq<Member>, k: nat, m: Member)
    requires k < |members| && k == Find(members, m.user)
    ensures Standing(members[k := m], m.user) == Some(m) && OthersStay(members, members[k := m], m.user)
  {
    forall u ensures Find(members[k := m], u) == Find(members, u) {
      SameFind(members, members[k := m], u);
    }
  }

  lemma {:induction false} AppendedStanding(members: seq<Member>, m: Member)
    requires !IsMember(members, m.user)
    ensures Standing(members + [m], m.user) == Some(m) && OthersStay(members, members + [m], m.user)
  {
    forall u ensures Find(members + [m], u) == (if u == m.user then |members| else if IsMember(members, u) then Find(members, u) else |members| + 1) {
      FindInAppended(members, m, u);
    }
  }

  lemma {:induction false} FindInAppended(members: seq<Member>, m: Member, u: User)
    ensures Find(members + [m], u)
      == if IsMember(members, u) then Find(members, u) else if u == m.user then |members| else |members| + 1
  {
    if members == [] {
      assert (members + [m])[1..] == [];
    } else if members[0].user != u {
      assert (members + [m])[1..] == members[1..] + [m];
      FindInAppended(members[1..], m, u);
    }
  }

  /** An invitation is granted to the owner, for somebody who is no member or has declined; it makes them an invited member owing nothing. */
  lemma InvitationGrantedIff(g: Group, actor: User, user: User, at: I.Time)
    requires Sound(g)
    ensures Apply(g, Ask(actor, user, at)).Changed? <==>
      actor == g.owner && (!IsMember(g.members, user) || g.members[Find(g.members, user)].invite == Declined)
    ensures Apply(g, Ask(actor, user, at)).Changed? ==>
      var g' := Apply(g, Ask(actor, user, at)).group;
      && g' == g.(members := g'.members)
      && Standing(g'.members, user) == Some(Member(user, Invited, 0, 0)) && OthersStay(g.members, g'.members, user)
  {
    var m := Member(user, Invited, 0, 0);
    if IsMember(g.members, user) {
      ReplacedStanding(g.members, Find(g.members, user), m);
    } else {
      AppendedStanding(g.members, m);
    }
  }

  /** An answer is taken from a member who is invited and has not answered; it is recorded as given. */
  lemma AnswerTakenIff(g: Group, user: User, at: I.Time)
    ensures Apply(g, Join(user, at)).Changed? <==> IsMember(g.members, user) && g.members[Find(g.members, user)].invite == Invited
    ensures Apply(g, GroupOp.Decline(user, at)).Changed? <==> Apply(g, Join(user, at)).Changed?
    ensures Apply(g, Join(user, at)).Changed? ==>
      var m, yes, no := g.members[Find(g.members, user)], Apply(g, Join(user, at)).group, Apply(g, GroupOp.Decline(user, at)).group;
      && yes == g.(members := yes.members) && OthersStay(g.members, yes.members, user)
      && Standing(yes.members, user) == Some(Member(user, Accepted, m.share, m.paid))
      && no == g.(members := no.members) && OthersStay(g.members, no.members, user)
      && Standing(no.members, user) == Some(Member(user, Declined, m.share, m.paid))
  {
    var k := Find(g.members, user);
    if k < |g.members| {
      ReplacedStanding(g.members, k, g.members[k].(invite := Accepted));
      ReplacedStanding(g.members, k, g.members[k].(invite := Declined));
    }
  }

  lemma NobodyNew(members: seq<Member>, k: nat, u: User)
    requires k < |members| && !IsMember(members, u)
    ensures !IsMember(Without(members, k), u)
  {
    var left := Without(members, k);
    forall i | 0 <= i < |left| ensures left[i].user != u {
      assert left[i] == members[if i < k then i else i + 1];
    }
  }

  lemma WithoutStanding(members: seq<Member>, k: nat)
    requires DistinctUsers(members) && k < |members|
    ensures !IsMember(Without(members, k), members[k].user) && OthersStay(members, Without(members, k), members[k].user)
  {
    var left := Without(members, k);
    WithoutForgets(members, k);
    forall u | u != members[k].user ensures SameStanding(members, left, u) {
      if IsMember(members, u) {
        var j := Find(members, u);
        assert left[if j < k then j else j - 1] == members[j];
        FindKeepsPosition(members, j);
        FoundAt(left, if j < k then j else j - 1);
      } else {
        NobodyNew(members, k, u);
      }
    }
  }

  lemma FoundAt(members: seq<Member>, j: nat)
    requires j < |members| && forall i :: 0 <= i < |members| && i != j ==> members[i].user != members[j].user
    ensures Find(members, members[j].user) == j
  {
  }

  /** The user is gone, the owner has taken over their share, and everybody else stands as before. */
  ghost predicate TookOver(g: Group, after: seq<Member>, user: User)
    requires IsMember(g.members, g.owner) && IsMember(g.members, user)
  {
    var before, share := g.members[Find(g.members, g.owner)], g.members[Find(g.members, user)].share;
    && Standing(after, user) == None
    && Standing(after, g.owner) == Some(Member(g.owner, before.invite, before.share + share, before.paid))
    && forall u :: u != user && u != g.owner ==> SameStanding(g.members, after, u)
  }

  lemma OwnerTakesOver(g: Group, user: User)
    requires Sound(g) && IsMember(g.members, user) && user != g.owner
    ensures TookOver(g, Expelled(g.members, g.owner, Find(g.members, user)), user)
  {
    var k, o := Find(g.members, user), Find(g.members, g.owner);
    var raised := TakenOver(g.members, o, g.members[k].share);
    ReplacedStanding(g.members, o, raised[o]);
    TakenOverKeeps(g.members, o, g.members[k].share);
    WithoutStanding(raised, k);
    var after := Without(raised, k);
    assert SameStanding(raised, after, g.owner);
    forall u | u != user && u != g.owner ensures SameStanding(g.members, after, u) {
      assert SameStanding(g.members, raised, u) && SameStanding(raised, after, u);
    }
  }

  /**
   A removal is granted to the owner, who has echoed nothing or the current version, for another member
   who has paid nothing. That member is gone, and the owner has taken over the share.
   */
  lemma RemovalGrantedIff(g: Group, actor: User, user: User, echo: Option<nat>, at: I.Time)
    requires Sound(g)
    ensures Apply(g, Expel(actor, user, echo, at)).Changed? <==>
      && (echo == None || echo == Some(g.version)) && actor == g.owner && user != g.owner
      && IsMember(g.members, user) && g.members[Find(g.members, user)].paid == 0
    ensures Apply(g, Expel(actor, user, echo, at)).Changed? ==>
      var g' := Apply(g, Expel(actor, user, echo, at)).group;
      && g' == g.(members := g'.members, version := if echo == None then g.version else g.version + 1)
      && TookOver(g, g'.members, user)
  {
    if Apply(g, Expel(actor, user, echo, at)).Changed? {
      OwnerTakesOver(g, user);
    }
  }

  /** The listed member has accepted, and is left with no less than what they have paid. */
  predicate MayHold(members: seq<Member>, share: Share) {
    && IsMember(members, share.user)
    && members[Find(members, share.user)].invite == Accepted && members[Find(members, share.user)].paid <= share.amount
  }

  lemma {:induction false} NoShareErrorIff(members: seq<Member>, shares: seq<Share>)
    ensures ShareError(members, shares) == None <==> forall i :: 0 <= i < |shares| ==> MayHold(members, shares[i])
  {
    if shares != [] {
      NoShareErrorIff(members, shares[1..]);
      assert (forall i :: 0 <= i < |shares| ==> MayHold(members, shares[i]))
        <==> MayHold(members, shares[0]) && (forall i :: 0 <= i < |shares[1..]| ==> MayHold(members, shares[1..][i])) by {
        forall i | 0 < i < |shares| ensures shares[i] == shares[1..][i - 1] {
        }
      }
    }
  }

  /**
   A rebalance is granted to the owner, who has echoed the current version, for a list that is not empty,
   has positive amounts for members who may hold them, and sums to the total within one minor unit. Each
   member ends up with the amount listed last for them, if any, and nothing else changes.
   */
  lemma RebalanceGrantedIff(g: Group, actor: User, shares: seq<Share>, known: nat, at: I.Time)
    requires Sound(g)
    ensures Apply(g, Split(actor, shares, known, at)).Changed? <==>
      && known == g.version && actor == g.owner && shares != [] && -1 <= Listed(shares) - g.total <= 1
      && forall i :: 0 <= i < |shares| ==> shares[i].amount > 0 && MayHold(g.members, shares[i])
    ensures Apply(g, Split(actor, shares, known, at)).Changed? ==>
      var g' := Apply(g, Split(actor, shares, known, at)).group;
      && g' == g.(members := g'.members, version := g.version + 1) && |g'.members| == |g.members|
      && forall i :: 0 <= i < |g.members| ==> g'.members[i] == g.members[i].(share := ShareAfter(g.members[i], shares))
  {
    NoShareErrorIff(g.members, shares);
    if Apply(g, Split(actor, shares, known, at)).Changed? {
      WriteSharesKeeps(g.members, shares);
      forall i | 0 <= i < |g.members| ensures WriteShares(g.members, shares)[i].share == ShareAfter(g.members[i], shares) {
        WrittenShare(g.members, shares, i);
      }
    }
  }

  /**
   A contribution is granted to a member who has accepted, has echoed the current version, and pays
   something within what is left of their share. It is recorded for them and for the group, which is
   complete exactly when the total is reached.
   */
  lemma ContributionGrantedIff(g: Group, user: User, amount: nat, known: nat, at: I.Time)
    requires g.status == Running
    ensures Apply(g, Pay(user, amount, known, at)).Changed? <==>
      && amount > 0 && known == g.version && IsMember(g.members, user)
      && var m := g.members[Find(g.members, user)]; m.invite == Accepted && amount <= m.share - m.paid
    ensures Apply(g, Pay(user, amount, known, at)).Changed? ==>
      var m, g' := g.members[Find(g.members, user)], Apply(g, Pay(user, amount, known, at)).group;
      && g' == g.(members := g'.members, collected := g.collected + amount, version := g.version + 1, status := g'.status)
      && g'.status == (if g.collected + amount >= g.total then Complete else Running)
      && Standing(g'.members, user) == Some(Member(user, Accepted, m.share, m.paid + amount)) && OthersStay(g.members, g'.members, user)
  {
    var k := Find(g.members, user);
    if k < |g.members| {
      ReplacedStanding(g.members, k, g.members[k].(paid := g.members[k].paid + amount));
    }
  }

  /** Calling off is granted to the owner, who has echoed the current version. */
  lemma CallingOffGrantedIff(g: Group, actor: User, known: nat, at: I.Time)
    requires Sound(g)
    ensures Apply(g, Cancel(actor, known, at)).Changed? <==> known == g.version && actor == g.owner
    ensures Apply(g, Cancel(actor, known, at)).Changed? ==>
      Apply(g, Cancel(actor, known, at)).group == g.(status := CalledOff, version := g.version + 1)
  {
  }

  predicate HasAccepted(g: Group, user: User) {
    Standing(g.members, user).Some? && Standing(g.members, user).value.invite == Accepted
  }

  /** The user is an accepted member with that much of their share left. */
  predicate Owes(g: Group, user: User, amount: nat) {
    HasAccepted(g, user) && amount <= Standing(g.members, user).value.share - Standing(g.members, user).value.paid
  }

  /** The request echoes a version that is not current; a contribution is asked for it last. */
  predicate Outdated(g: Group, op: GroupOp) {
    match op
    case Expel(_, _, echo, _) => echo != None && echo != Some(g.version)
    case Split(_, _, known, _) => known != g.version
    case Pay(user, amount, known, _) => known != g.version && amount > 0 && Owes(g, user, amount)
    case Cancel(_, known, _) => known != g.version
    case _ => false
  }

  /** The request is somebody else's to make: the owner's, or for a contribution an accepted member's. */
  predicate NotTheirs(g: Group, op: GroupOp) {
    match op
    case Ask(actor, _, _) => actor != g.owner
    case Expel(actor, _, _, _) => actor != g.owner
    case Split(actor, _, _, _) => actor != g.owner
    case Cancel(actor, _, _) => actor != g.owner
    case Pay(user, amount, _, _) => amount > 0 && !HasAccepted(g, user)
    case _ => false
  }

  lemma {:induction false} ShareErrorIsMalformed(members: seq<Member>, shares: seq<Share>)
    ensures ShareError(members, shares).Some? ==> ShareError(members, shares).value == BadRequest
    decreases |shares|
  {
    if shares != [] {
      ShareErrorIsMalformed(members, shares[1..]);
    }
  }

  /**
   Which error a request to a running group gets: outdated, forbidden, not found for removing somebody who
   is no member, a conflict for inviting somebody who is one and has not declined, and malformed otherwise.
   */
  lemma RequestRefusals(g: Group, op: GroupOp)
    requires Sound(g)
    ensures Apply(g, op) == Rejected(Stale) <==> Outdated(g, op)
    ensures Apply(g, op) == Rejected(Forbidden) <==> !Outdated(g, op) && NotTheirs(g, op)
    ensures Apply(g, op) == Rejected(NotFound) <==>
      !Outdated(g, op) && !NotTheirs(g, op) && op.Expel? && Standing(g.members, op.user) == None
    ensures Apply(g, op) == Rejected(Conflict) <==>
      !NotTheirs(g, op) && op.Ask? && Standing(g.members, op.user).Some? && Standing(g.members, op.user).value.invite != Declined
    ensures Apply(g, op).Rejected? ==> Apply(g, op).error in {Stale, Forbidden, NotFound, Conflict, BadRequest}
  {
    if op.Split? {
      ShareErrorIsMalformed(g.members, op.shares);
    }
  }

  /** What a list of shares comes to does not depend on how it is cut. */
  lemma {:induction false} ListedAddsUp(a: seq<Share>, b: seq<Share>)
    ensures Listed(a + b) == Listed(a) + Listed(b)
    ensures |a| == 1 ==> Listed(a) == a[0].amount
  {
    if a == [] {
      assert a + b == b;
    } else {
      assert (a + b)[1..] == a[1..] + b;
      ListedAddsUp(a[1..], b);
    }
  }

  /** What it takes for the inventory to close or confirm the group's order. */
  ghost predicate OrderMovable(s: I.State, o: I.OrderId, next: I.OrderStatus) {
    OrderGone(s, o) || (I.Terminal(next) && (s.orders[o].status.Cancelled? || s.orders[o].status.Expired?))
    || (&& I.OrderMayBecome(s.orders[o].status, next)
        && (!I.Terminal(s.orders[o].status) && I.Terminal(next) ==> Moves.MayRelease(s, o))
        && (s.orders[o].status != I.Confirmed && next == I.Confirmed ==> Moves.MaySell(s, o)))
  }

  lemma MoveOrderIff(s: I.State, o: I.OrderId, next: I.OrderStatus, now: I.Time)
    requires Safety.Sound(s) && (next == I.Confirmed ==> Safety.HeldIsReserved(s))
    ensures MoveOrder(s, o, next, now).Committed? <==> OrderMovable(s, o, next)
    ensures OrderGone(s, o) ==> MoveOrder(s, o, next, now) == I.Committed(s)
  {
    if !OrderGone(s, o) {
      Moves.UpdateCommitsIff(s, o, next, now);
    }
  }

  /**
   A running group past its time expires, and its order with it, as soon as anybody looks, provided that
   the order may be moved. Any other request then finds nobody at home: it is refused, and of what it has
   caused only the order's end stays.
   */
  lemma OverdueGroupExpires(w: World, op: GroupOp)
    requires Safety.Sound(w.inventory) && w.group.status == Running && w.group.expiresAt < op.at
    ensures !OrderMovable(w.inventory, w.group.order, I.OrderStatus.Expired) ==> Attempt(w, op).Denied? && After(w, Act(op)) == w
    ensures OrderMovable(w.inventory, w.group.order, I.OrderStatus.Expired) ==>
      && I.Committed(After(w, Act(op)).inventory) == MoveOrder(w.inventory, w.group.order, I.OrderStatus.Expired, op.at)
      && After(w, Act(op)).group == (if op.Look? then w.group.(status := Overdue, version := w.group.version + 1) else w.group)
      && (if op.Look? then Attempt(w, op).Done? else Attempt(w, op).Denied? && Attempt(w, op).error == BadRequest)
  {
    MoveOrderIff(w.inventory, w.group.order, I.OrderStatus.Expired, op.at);
  }

  /** Looking at any other group changes nothing, and one that has ended grants nothing. */
  lemma EndedGroupGrantsNothing(w: World, op: GroupOp)
    requires Safety.Sound(w.inventory) && (w.group.status != Running || op.at <= w.group.expiresAt)
    ensures op.Look? ==> Attempt(w, op) == Done(w)
    ensures !op.Look? && w.group.status != Running ==> Attempt(w, op) == Denied(BadRequest, w)
  {
  }

  /** A group that is running and not overdue hears the request, and carries out what it makes of it. */
  lemma RequestHeard(w: World, op: GroupOp)
    requires Safety.Sound(w.inventory) && w.group.status == Running && op.at <= w.group.expiresAt && !op.Look?
    ensures Attempt(w, op) == Carry(w, Apply(w.group, op), op.at)
  {
  }

  lemma GroupEndsAs(g: Group, op: GroupOp)
    requires g.status == Running && !op.Look? && Apply(g, op).Changed?
    ensures Apply(g, op).group.status == Running || Apply(g, op).group.status == (if op.Pay? then Complete else CalledOff)
  {
  }

  /**
   What a running group itself grants is carried out; if it ends the group, the order is confirmed or
   cancelled with it, or the request is refused. What the group rejects changes nothing.
   */
  lemma RequestCarriedOut(w: World, op: GroupOp)
    requires Safety.Sound(w.inventory) && w.group.status == Running && op.at <= w.group.expiresAt && !op.Look?
    ensures Apply(w.group, op).Rejected? ==> Attempt(w, op) == Denied(Apply(w.group, op).error, w)
    ensures Apply(w.group, op).Changed? && Apply(w.group, op).group.status == Running ==>
      Attempt(w, op) == Done(World(Apply(w.group, op).group, w.inventory))
    ensures Apply(w.group, op).Changed? && Apply(w.group, op).group.status != Running ==>
      var moved := MoveOrder(w.inventory, w.group.order, if op.Pay? then I.Confirmed else I.OrderStatus.Cancelled, op.at);
      Attempt(w, op) == if moved.Committed? then Done(World(Apply(w.group, op).group, moved.state)) else Denied(moved.error, w)
  {
    var change := Apply(w.group, op);
    RequestHeard(w, op);
    if change.Changed? {
      ChangeKeepsOrder(w.group, op);
      GroupEndsAs(w.group, op);
    }
  }

  // ---------------------------------------------------------------------------------------
  //  What only the owner may do
  // ---------------------------------------------------------------------------------------

  predicate ForOwner(op: GroupOp) {
    op.Ask? || op.Expel? || op.Split? || op.Cancel?
  }

  /** Inviting, removing, rebalancing and calling off by anybody but the owner is refused and changes nothing. */
  lemma OnlyOwnerManages(w: World, op: GroupOp)
    requires Safety.Sound(w.inventory) && ForOwner(op) && op.actor != w.group.owner && !PastDue(w.group, op.at)
    ensures Attempt(w, op).Denied? && After(w, Act(op)) == w
    ensures w.group.status == Running && (op.Ask? || (op.Expel? && op.echo == None) || ((op.Split? || op.Cancel?) && op.known == w.group.version))
      ==> Attempt(w, op).error == Forbidden
  {
  }

  lemma OwnerStays(w: World, e: Event)
    requires Safety.Sound(w.inventory)
    ensures After(w, e).group.owner == w.group.owner
  {
  }

  /** The event is the owner's own request to call the group off. */
  predicate OwnerCallsOff(e: Event, owner: User) {
    e.Act? && e.op.Cancel? && e.op.actor == owner
  }

  lemma StepCallsOff(w: World, e: Event)
    requires Safety.Sound(w.inventory) && w.group.status != CalledOff && After(w, e).group.status == CalledOff
    ensures OwnerCallsOff(e, w.group.owner)
  {
  }

  /** In every run a group is called off only at its owner's own request. */
  lemma {:induction false} OnlyOwnerCallsOff(w: World, events: seq<Event>)
    requires Safety.Sound(w.inventory) && w.group.status != CalledOff && Run(w, events).group.status == CalledOff
    ensures exists k :: 0 <= k < |events| && OwnerCallsOff(events[k], w.group.owner)
    decreases |events|
  {
    EventKeepsInventorySound(w, events[0]);
    if After(w, events[0]).group.status == CalledOff {
      StepCallsOff(w, events[0]);
    } else {
      OwnerStays(w, events[0]);
      OnlyOwnerCallsOff(After(w, events[0]), events[1..]);
      var k :| 0 <= k < |events[1..]| && OwnerCallsOff(events[1..][k], w.group.owner);
      assert OwnerCallsOff(events[k + 1], w.group.owner);
    }
  }

  // ---------------------------------------------------------------------------------------
  //  A removal that overlaps a contribution
  // ---------------------------------------------------------------------------------------

  lemma WithoutForgets(members: seq<Member>, k: nat)
    requires DistinctUsers(members) && k < |members|
    ensures Find(Without(members, k), members[k].user) == |Without(members, k)|
  {
    var left := Without(members, k);
    forall i | 0 <= i < |left| ensures left[i].user != members[k].user {
      assert left[i] == members[if i < k then i else i + 1];
    }
  }

  /** What a removal without an echo leaves if it looked at the member before a contribution of theirs was recorded. */
  function RemovedAfterPayment(paid: Group, user: User): Group
    requires IsMember(paid.members, user)
  {
    paid.(members := Expelled(paid.members, paid.owner, Find(paid.members, user)))
  }

  lemma SecondIsRefused(g: Group, actor: User, user: User, amount: nat, known: nat)
    requires Sound(g) && Remove(g, actor, user, None).Changed? && Contribute(g, user, amount, known).Changed?
    ensures Remove(Contribute(g, user, amount, known).group, actor, user, None) == Rejected(BadRequest)
    ensures Contribute(Remove(g, actor, user, None).group, user, amount, known) == Rejected(Forbidden)
  {
    var k, o := Find(g.members, user), Find(g.members, g.owner);
    var paid := Contribute(g, user, amount, known).group.members;
    SameFind(g.members, paid, user);
    SameFind(g.members, paid, actor);
    var raised := TakenOver(g.members, o, g.members[k].share);
    assert DistinctUsers(raised) && raised[k].user == user;
    WithoutForgets(raised, k);
  }

  lemma PaymentForgotten(g: Group, user: User, amount: nat, known: nat)
    requires Sound(g) && Contribute(g, user, amount, known).Changed? && user != g.owner
    ensures var k := Find(g.members, user);
      var paid := Contribute(g, user, amount, known).group;
      && IsMember(paid.members, user)
      && PaidSum(RemovedAfterPayment(paid, user).members) == PaidSum(g.members) - g.members[k].paid
  {
    var k, o := Find(g.members, user), Find(g.members, g.owner);
    var paid := Contribute(g, user, amount, known).group.members;
    SameFind(g.members, paid, user);
    SameFind(g.members, paid, g.owner);
    SumsUpdate(g.members, k, paid[k]);
    var raised := TakenOver(paid, o, paid[k].share);
    SumsUpdate(paid, o, raised[o]);
    SumsWithout(raised, k);
  }

  /**
   One after the other, the second of a removal and a contribution of the same member is refused. If the
   removal has looked before the contribution is recorded, both go through, and what is collected then
   exceeds what members have paid by exactly the contribution.
   */
  lemma OverlappedRemovalLosesPayment(g: Group, actor: User, user: User, amount: nat, known: nat)
    requires Sound(g) && Remove(g, actor, user, None).Changed? && Contribute(g, user, amount, known).Changed?
    ensures var paid := Contribute(g, user, amount, known).group;
      && Remove(paid, actor, user, None) == Rejected(BadRequest)
      && Contribute(Remove(g, actor, user, None).group, user, amount, known) == Rejected(Forbidden)
      && IsMember(paid.members, user)
      && RemovedAfterPayment(paid, user).collected == PaidSum(RemovedAfterPayment(paid, user).members) + amount
  {
    SecondIsRefused(g, actor, user, amount, known);
    PaymentForgotten(g, user, amount, known);
  }

  // ---------------------------------------------------------------------------------------
  //  Seats
  // ---------------------------------------------------------------------------------------

  /** The order is gone, or closed with none of its tickets held or sold. */
  ghost predicate SeatsReleased(s: I.State, o: I.OrderId) {
    OrderGone(s, o) ||
    (OrderClosed(s.orders[o].status) && forall i :: 0 <= i < |s.holds| && s.holds[i].order == Some(o) ==> ClosedOrders.Gone(s.holds[i].status))
  }

  lemma ClosedMeansReleased(s: I.State, o: I.OrderId)
    requires ClosedOrders.ClosedHoldNothing(s) && o < |s.orders| && OrderClosed(s.orders[o].status)
    ensures SeatsReleased(s, o)
  {
    if !s.orders[o].deleted {
      forall i | 0 <= i < |s.holds| && s.holds[i].order == Some(o) ensures ClosedOrders.Gone(s.holds[i].status) {
        assert ClosedOrders.HoldGone(s, i);
      }
    }
  }

  /** Closing the group's order releases all its seats. */
  lemma MoveReleasesSeats(s: I.State, o: I.OrderId, next: I.OrderStatus, now: I.Time)
    requires Safety.Sound(s) && ClosedOrders.ClosedHoldNothing(s) && OrderClosed(next) && MoveOrder(s, o, next, now).Committed?
    ensures ClosedOrders.ClosedHoldNothing(MoveOrder(s, o, next, now).state)
    ensures SeatsReleased(MoveOrder(s, o, next, now).state, o)
  {
    var s' := MoveOrder(s, o, next, now).state;
    if !OrderGone(s, o) && !OrderClosed(s.orders[o].status) {
      ClosedOrders.UpdateKeepsClosed(s, o, next, now);
      Safety.UpdateBranches(s, o, next, now);
    }
    if !OrderGone(s, o) {
      ClosedMeansReleased(s', o);
    }
  }

  /**
   Calling a group off, and any request that finds it overdue and is not itself refused by the
   inventory, leaves none of its seats held or sold, even if the request is then refused.
   */
  lemma ClosingReleasesSeats(w: World, op: GroupOp)
    requires Safety.Sound(w.inventory) && ClosedOrders.ClosedHoldNothing(w.inventory) && w.group.status == Running
    ensures After(w, Act(op)).group.status == CalledOff ==> SeatsReleased(After(w, Act(op)).inventory, w.group.order)
    ensures PastDue(w.group, op.at) && MoveOrder(w.inventory, w.group.order, I.OrderStatus.Expired, op.at).Committed? ==>
      SeatsReleased(After(w, Act(op)).inventory, w.group.order)
  {
    if PastDue(w.group, op.at) {
      if MoveOrder(w.inventory, w.group.order, I.OrderStatus.Expired, op.at).Committed? {
        MoveReleasesSeats(w.inventory, w.group.order, I.OrderStatus.Expired, op.at);
      }
    } else if op.Cancel? && MoveOrder(w.inventory, w.group.order, I.OrderStatus.Cancelled, op.at).Committed? {
      MoveReleasesSeats(w.inventory, w.group.order, I.OrderStatus.Cancelled, op.at);
    }
  }

  /** The contribution that would reach the total passes every check of the group itself. */
  predicate ReachesTotal(g: Group, user: User, amount: nat, known: nat) {
    Contribute(g, user, amount, known).Changed? && g.collected + amount >= g.total
  }

  /**
   The contribution that reaches the total is accepted exactly when the inventory confirms the order:
   when the order is gone, or confirmed already, or may be confirmed and every hold of it is sold or
   may be converted at once.
   */
  lemma LastContributionIff(w: World, user: User, amount: nat, known: nat, now: I.Time)
    requires Safety.Sound(w.inventory) && Safety.HeldIsReserved(w.inventory)
    requires w.group.status == Running && !PastDue(w.group, now) && ReachesTotal(w.group, user, amount, known)
    ensures var s, o := w.inventory, w.group.order;
      Attempt(w, Pay(user, amount, known, now)).Done? <==>
        OrderGone(s, o) || s.orders[o].status == I.Confirmed
        || (I.OrderMayBecome(s.orders[o].status, I.Confirmed) && Moves.MaySell(s, o))
  {
    if !OrderGone(w.inventory, w.group.order) {
      Moves.UpdateCommitsIff(w.inventory, w.group.order, I.Confirmed, now);
    }
  }

  /** A completed group's order, unless it is gone, is confirmed, and each of its seats is sold unless it was confirmed before. */
  lemma CompletionSellsSeats(w: World, user: User, amount: nat, known: nat, now: I.Time, i: nat)
    requires Safety.Sound(w.inventory) && w.group.status == Running && !PastDue(w.group, now)
    requires Attempt(w, Pay(user, amount, known, now)).Done? && After(w, Act(Pay(user, amount, known, now))).group.status == Complete
    requires i < |w.inventory.holds| && w.inventory.holds[i].order == Some(w.group.order) && !OrderGone(w.inventory, w.group.order)
    ensures var s', o := After(w, Act(Pay(user, amount, known, now))).inventory, w.group.order;
      && o < |s'.orders| && s'.orders[o].status == I.Confirmed
      && (w.inventory.orders[o].status != I.Confirmed ==> i < |s'.holds| && I.IsSold(s'.holds[i].status))
  {
    var s, o := w.inventory, w.group.order;
    Safety.UpdateBranches(s, o, I.Confirmed, now);
    if s.orders[o].status != I.Confirmed {
      Safety.SweepMovesExactlyTouched(I.WithStatus(s, o, I.Confirmed), I.ConvertOrder(o), 0, now);
    }
  }

  /**
   Once the expiry worker has swept a hold of the order, the group can collect everything and still
   never complete: the contribution that would do it is refused, and leaves everything as it was.
   */
  lemma SweptHoldBlocksCompletion(w: World, user: User, amount: nat, known: nat, now: I.Time, i: nat)
    requires Safety.Sound(w.inventory) && Safety.HeldIsReserved(w.inventory)
    requires w.group.status == Running && !PastDue(w.group, now) && ReachesTotal(w.group, user, amount, known)
    requires !OrderGone(w.inventory, w.group.order) && w.inventory.orders[w.group.order].status != I.Confirmed
    requires i < |w.inventory.holds| && w.inventory.holds[i].order == Some(w.group.order) && w.inventory.holds[i].status.Expired?
    ensures Attempt(w, Pay(user, amount, known, now)).Denied? && After(w, Act(Pay(user, amount, known, now))) == w
  {
    LastContributionIff(w, user, amount, known, now);
    assert !Moves.MaySell(w.inventory, w.group.order);
  }

  // ---------------------------------------------------------------------------------------
  //  Runs in which only the group moves its order
  // ---------------------------------------------------------------------------------------

  /** The event is a request to the group, or moves some other order, if any. */
  predicate HandsOff(e: Event, o: I.OrderId) {
    e.Other? && (e.move.Update? || e.move.Delete? || e.move.Confirm? || e.move.Coin? || e.move.Refund? || e.move.Fail?) ==>
      e.move.order != o
  }

  lemma OthersKeepOrder(s: I.State, move: I.Op, o: I.OrderId)
    requires Safety.Sound(s) && o < |s.orders| && HandsOff(Other(move), o)
    ensures o < |I.After(s, move).orders| && I.After(s, move).orders[o] == s.orders[o]
  {
    if I.Attempt(s, move).Committed? {
      match move
      case Create(items, status, expiresAt, seen, at) => CreationKeepsOrder(s, items, status, expiresAt, seen, at, o);
      case Confirm(p, outcome, at) => Safety.PaymentBranches(s, p, outcome, at);
      case _ =>
    }
  }

  lemma CreationKeepsOrder(s: I.State, items: seq<I.Item>, status: I.OrderStatus, expiresAt: I.Time, seen: map<I.TypeId, int>, now: I.Time, o: I.OrderId)
    requires I.TypesKnown(s) && o < |s.orders| && I.CreateOrder(s, items, status, expiresAt, seen, now).Committed?
    ensures var s' := I.CreateOrder(s, items, status, expiresAt, seen, now).state;
      o < |s'.orders| && s'.orders[o] == s.orders[o]
  {
  }

  /** The group's status and its order's go together. */
  ghost predicate OrderFollows(w: World) {
    && !OrderGone(w.inventory, w.group.order)
    && var st := w.inventory.orders[w.group.order].status;
       match w.group.status
       case Running => st == I.Pending || st == I.OrderStatus.Expired
       case Complete => st == I.Confirmed
       case CalledOff => OrderClosed(st)
       case Overdue => st == I.OrderStatus.Expired
  }

  ghost predicate Follows(w: World) {
    Safety.Sound(w.inventory) && ClosedOrders.ClosedHoldNothing(w.inventory) && Sound(w.group) && OrderFollows(w)
  }

  lemma MoveSetsStatus(s: I.State, o: I.OrderId, next: I.OrderStatus, now: I.Time)
    requires Safety.Sound(s) && !OrderGone(s, o) && MoveOrder(s, o, next, now).Committed?
    ensures var s' := MoveOrder(s, o, next, now).state;
      && !OrderGone(s', o)
      && s'.orders[o].status == (if I.Terminal(next) && OrderClosed(s.orders[o].status) then s.orders[o].status else next)
  {
    if !(I.Terminal(next) && OrderClosed(s.orders[o].status)) {
      Safety.UpdateBranches(s, o, next, now);
    }
  }

  lemma EventKeepsClosed(w: World, e: Event)
    requires Safety.Sound(w.inventory) && ClosedOrders.ClosedHoldNothing(w.inventory)
    ensures ClosedOrders.ClosedHoldNothing(After(w, e).inventory)
  {
    match e
    case Act(op) =>
      ClosedOrders.StepKeepsClosed(w.inventory, I.Update(w.group.order, I.OrderStatus.Expired, op.at));
      var c := Apply(w.group, op);
      if c.Changed? {
        ClosedOrders.StepKeepsClosed(w.inventory, I.Update(c.group.order, OrderGoal(c.group.status), op.at));
      }
    case Other(move) => ClosedOrders.StepKeepsClosed(w.inventory, move);
  }

  lemma ActKeepsFollows(w: World, op: GroupOp)
    requires Follows(w)
    ensures OrderFollows(After(w, Act(op)))
  {
    var s, o := w.inventory, w.group.order;
    if PastDue(w.group, op.at) {
      if MoveOrder(s, o, I.OrderStatus.Expired, op.at).Committed? {
        MoveSetsStatus(s, o, I.OrderStatus.Expired, op.at);
      }
    } else if w.group.status == Running && !op.Look? && Apply(w.group, op).Changed? {
      var g := Apply(w.group, op).group;
      assert g.order == o;
      if g.status != Running && MoveOrder(s, o, OrderGoal(g.status), op.at).Committed? {
        MoveSetsStatus(s, o, OrderGoal(g.status), op.at);
      }
    }
  }

  lemma StepKeepsFollows(w: World, e: Event)
    requires Follows(w) && HandsOff(e, w.group.order)
    ensures Follows(After(w, e))
  {
    EventKeepsInventorySound(w, e);
    EventKeepsClosed(w, e);
    StepKeepsSound(w, e);
    match e
    case Act(op) => ActKeepsFollows(w, op);
    case Other(move) => OthersKeepOrder(w.inventory, move, w.group.order);
  }

  lemma ChangeKeepsOrder(g: Group, op: GroupOp)
    requires Apply(g, op).Changed?
    ensures Apply(g, op).group.order == g.order && Apply(g, op).group.total == g.total
  {
  }

  lemma OrderStays(w: World, e: Event)
    requires Safety.Sound(w.inventory)
    ensures After(w, e).group.order == w.group.order && After(w, e).group.total == w.group.total
  {
    if e.Act? && Apply(w.group, e.op).Changed? {
      ChangeKeepsOrder(w.group, e.op);
    }
  }

  ghost predicate HandsOffAll(events: seq<Event>, o: I.OrderId) {
    forall k :: 0 <= k < |events| ==> HandsOff(events[k], o)
  }

  lemma {:induction false} RunKeepsFollows(w: World, events: seq<Event>)
    requires Follows(w) && HandsOffAll(events, w.group.order)
    ensures Follows(Run(w, events)) && Run(w, events).group.order == w.group.order
    decreases |events|
  {
    if events != [] {
      EventKeepsInventorySound(w, events[0]);
      StepKeepsFollows(w, events[0]);
      OrderStays(w, events[0]);
      RunKeepsFollows(After(w, events[0]), events[1..]);
    }
  }

  lemma CreatedFollows(s: I.State, owner: User, total: nat, items: seq<I.Item>, holdUntil: I.Time, seen: map<I.TypeId, int>,
                       expiresAt: I.Time, now: I.Time)
    requires Safety.Sound(s) && ClosedOrders.ClosedHoldNothing(s)
    requires CreateGroup(s, owner, total, items, holdUntil, seen, expiresAt, now).Some?
    ensures Follows(CreateGroup(s, owner, total, items, holdUntil, seen, expiresAt, now).value)
  {
    Safety.CreateKeepsSound(s, items, I.Pending, holdUntil, seen, now);
    ClosedOrders.CreateKeepsClosed(s, items, I.Pending, holdUntil, seen, now);
    CreatedIsSound(owner, total, expiresAt, |s.orders|);
  }

  /**
   In every run of a new group booking in which nobody else moves its order, whatever else goes on in
   the inventory: the order is confirmed exactly when the group is complete, and a group that was
   called off or lapsed holds none of its seats.
   */
  lemma OrderFollowsGroup(s: I.State, owner: User, total: nat, items: seq<I.Item>, holdUntil: I.Time, seen: map<I.TypeId, int>,
                          expiresAt: I.Time, now: I.Time, events: seq<Event>)
    requires Safety.Sound(s) && ClosedOrders.ClosedHoldNothing(s)
    requires CreateGroup(s, owner, total, items, holdUntil, seen, expiresAt, now).Some? && HandsOffAll(events, |s.orders|)
    ensures Safety.Sound(CreateGroup(s, owner, total, items, holdUntil, seen, expiresAt, now).value.inventory)
    ensures var w := Run(CreateGroup(s, owner, total, items, holdUntil, seen, expiresAt, now).value, events);
      var o := |s.orders|;
      && o < |w.inventory.orders|
      && (w.inventory.orders[o].status == I.Confirmed <==> w.group.status == Complete)
      && (w.group.status == CalledOff || w.group.status == Overdue ==> SeatsReleased(w.inventory, o))
  {
    CreatedFollows(s, owner, total, items, holdUntil, seen, expiresAt, now);
    var w0 := CreateGroup(s, owner, total, items, holdUntil, seen, expiresAt, now).value;
    RunKeepsFollows(w0, events);
    var w := Run(w0, events);
    if w.group.status == CalledOff || w.group.status == Overdue {
      ClosedMeansReleased(w.inventory, |s.orders|);
    }
  }

  // ---------------------------------------------------------------------------------------
  //  When a rebalance keeps the shares at the total
  // ---------------------------------------------------------------------------------------

  predicate Names(shares: seq<Share>, user: User) {
    exists i :: 0 <= i < |shares| && shares[i].user == user
  }

  /** The amount a list writes last for a user. */
  function LastFor(shares: seq<Share>, user: User): (amount: nat)
    requires Names(shares, user)
    ensures exists i :: 0 <= i < |shares| && shares[i] == Share(user, amount) && forall j :: i < j < |shares| ==> shares[j].user != user
  {
    var last := shares[|shares| - 1];
    if last.user == user then last.amount else LastFor(shares[..|shares| - 1], user)
  }

  lemma LastIsUnique(shares: seq<Share>, user: User, i: nat)
    requires i < |shares| && shares[i].user == user && forall j :: i < j < |shares| ==> shares[j].user != user
    ensures Names(shares, user) && LastFor(shares, user) == shares[i].amount
  {
  }

  /** The last amounts of the members that a list names. */
  function LastListed(members: seq<Member>, shares: seq<Share>): nat {
    if members == [] then 0
    else (if Names(shares, members[0].user) then LastFor(shares, members[0].user) else 0) + LastListed(members[1..], shares)
  }

  /** The shares of the members a list leaves out. */
  function LeftOut(members: seq<Member>, shares: seq<Share>): nat {
    if members == [] then 0
    else (if Names(shares, members[0].user) then 0 else members[0].share) + LeftOut(members[1..], shares)
  }

  function ShareAfter(m: Member, shares: seq<Share>): nat {
    if Names(shares, m.user) then LastFor(shares, m.user) else m.share
  }

  lemma NamesRest(shares: seq<Share>, user: User)
    requires shares != []
    ensures Names(shares, user) <==> shares[0].user == user || Names(shares[1..], user)
  {
    if Names(shares, user) && shares[0].user != user {
      var i :| 0 <= i < |shares| && shares[i].user == user;
      assert shares[1..][i - 1].user == user;
    }
    if Names(shares[1..], user) {
      var i :| 0 <= i < |shares[1..]| && shares[1..][i].user == user;
      assert shares[i + 1].user == user;
    }
  }

  lemma LastOfRest(m: Member, shares: seq<Share>)
    requires shares != []
    ensures var rest := shares[1..];
      ShareAfter(m, shares) == if Names(rest, m.user) then LastFor(rest, m.user) else if shares[0].user == m.user then shares[0].amount else m.share
  {
    var rest := shares[1..];
    NamesRest(shares, m.user);
    if Names(rest, m.user) {
      var i :| 0 <= i < |rest| && rest[i] == Share(m.user, LastFor(rest, m.user)) && forall j :: i < j < |rest| ==> rest[j].user != m.user;
      assert shares[i + 1] == rest[i];
      forall j | i + 1 < j < |shares| ensures shares[j].user != m.user {
        assert shares[j] == rest[j - 1];
      }
      LastIsUnique(shares, m.user, i + 1);
    } else if shares[0].user == m.user {
      forall j | 0 < j < |shares| ensures shares[j].user != m.user {
        assert shares[j] == rest[j - 1];
      }
      LastIsUnique(shares, m.user, 0);
    }
  }

  /** Each member ends up with the amount the list writes last for them, or keeps their share. */
  lemma {:induction false} WrittenShare(members: seq<Member>, shares: seq<Share>, i: nat)
    requires DistinctUsers(members) && i < |members|
    ensures WriteShares(members, shares)[i].share == ShareAfter(members[i], shares)
    decreases |shares|
  {
    if shares != [] {
      var k := Find(members, shares[0].user);
      var written := if k < |members| then members[k := members[k].(share := shares[0].amount)] else members;
      WrittenShare(written, shares[1..], i);
      LastOfRest(members[i], shares);
      if members[i].user == shares[0].user {
        FindKeepsPosition(members, i);
      }
    }
  }

  lemma {:induction false} SumOfParts(members: seq<Member>, after: seq<Member>, shares: seq<Share>)
    requires |after| == |members| && forall i :: 0 <= i < |members| ==> after[i].share == ShareAfter(members[i], shares)
    ensures ShareSum(after) == LastListed(members, shares) + LeftOut(members, shares)
  {
    if members != [] {
      SumOfParts(members[1..], after[1..], shares);
    }
  }

  /** After any list is written the shares sum to the last amounts of the members it names plus the shares it leaves out. */
  lemma WrittenSum(members: seq<Member>, shares: seq<Share>)
    requires DistinctUsers(members)
    ensures ShareSum(WriteShares(members, shares)) == LastListed(members, shares) + LeftOut(members, shares)
  {
    forall i | 0 <= i < |members| ensures WriteShares(members, shares)[i].share == ShareAfter(members[i], shares) {
      WrittenShare(members, shares, i);
    }
    SumOfParts(members, WriteShares(members, shares), shares);
  }

  /**
   An accepted rebalance makes the shares sum to the total exactly when the last amount listed for
   each member named, plus the shares left out, is the total. The check made is only that the list
   itself, repetitions included, adds up to within one minor unit of it.
   */
  lemma RebalanceKeepsTotalIff(g: Group, actor: User, shares: seq<Share>, known: nat)
    requires Sound(g) && Rebalance(g, actor, shares, known).Changed?
    ensures ShareSum(Rebalance(g, actor, shares, known).group.members) == g.total
      <==> LastListed(g.members, shares) + LeftOut(g.members, shares) == g.total
    ensures CloseTo(Listed(shares), g.total)
  {
    WrittenSum(g.members, shares);
  }

  /** A list that names one member twice is added up twice but written once. */
  lemma NamingTwiceLosesShares(owner: User, total: nat, expiresAt: I.Time, order: I.OrderId)
    requires total > 1
    ensures var g := Created(owner, total, expiresAt, order);
      var r := Rebalance(g, owner, [Share(owner, total - 1), Share(owner, 1)], 0);
      r.Changed? && ShareSum(r.group.members) == 1
  {
    var g := Created(owner, total, expiresAt, order);
    var shares := [Share(owner, total - 1), Share(owner, 1)];
    assert shares[1..] == [Share(owner, 1)] && shares[1..][1..] == [];
    assert Listed(shares[1..]) == 1;
    var first := [Member(owner, Accepted, total - 1, 0)];
    assert g.members[0 := g.members[0].(share := total - 1)] == first;
    assert ShareError(g.members, shares[1..]) == None;
    assert WriteShares(first, shares[1..]) == WriteShares(first[0 := first[0].(share := 1)], []);
    assert first[0 := first[0].(share := 1)][1..] == [];
  }

  // ---------------------------------------------------------------------------------------
  //  Runs whose rebalances are exact
  // ---------------------------------------------------------------------------------------

  /** A careful rebalance writes what, with the shares it leaves out, is the total. */
  ghost predicate Careful(g: Group, e: Event) {
    e.Act? && e.op.Split? ==> LastListed(g.members, e.op.shares) + LeftOut(g.members, e.op.shares) == g.total
  }

  ghost predicate CarefulRun(w: World, events: seq<Event>)
    requires Safety.Sound(w.inventory)
    decreases |events|
  {
    events != [] ==>
      Careful(w.group, events[0]) && (EventKeepsInventorySound(w, events[0]); CarefulRun(After(w, events[0]), events[1..]))
  }

  lemma {:induction false} PaidBelowShares(members: seq<Member>)
    requires PaidWithinShares(members)
    ensures PaidSum(members) <= ShareSum(members)
  {
    if members != [] {
      PaidBelowShares(members[1..]);
    }
  }

  ghost predicate Exact(w: World, total: nat) {
    Safety.Sound(w.inventory) && Sound(w.group) && w.group.total == total && ShareSum(w.group.members) == total
  }

  lemma CarefulChange(g: Group, op: GroupOp)
    requires Sound(g) && ShareSum(g.members) == g.total && Careful(g, Act(op)) && Apply(g, op).Changed?
    ensures ShareSum(Apply(g, op).group.members) == g.total
  {
    ChangeKeepsSound(g, op);
    if op.Split? {
      RebalanceKeepsTotalIff(g, op.actor, op.shares, op.known);
    }
  }

  lemma StepKeepsExact(w: World, e: Event, total: nat)
    requires Exact(w, total) && Careful(w.group, e)
    ensures Exact(After(w, e), total)
  {
    EventKeepsInventorySound(w, e);
    StepKeepsSound(w, e);
    OrderStays(w, e);
    if e.Act? && Apply(w.group, e.op).Changed? {
      CarefulChange(w.group, e.op);
    }
  }

  lemma {:induction false} CarefulRunKeepsTotal(w: World, events: seq<Event>, total: nat)
    requires Exact(w, total) && CarefulRun(w, events)
    ensures Exact(Run(w, events), total)
    decreases |events|
  {
    if events != [] {
      EventKeepsInventorySound(w, events[0]);
      StepKeepsExact(w, events[0], total);
      CarefulRunKeepsTotal(After(w, events[0]), events[1..], total);
    }
  }

  /**
   In a run whose rebalances are careful, whatever else happens to the order, the group never collects
   more than its total, and while it is running or complete it is complete exactly when it has
   collected the total.
   */
  lemma CarefulRunCollectsTotal(s: I.State, owner: User, total: nat, expiresAt: I.Time, order: I.OrderId, events: seq<Event>)
    requires Safety.Sound(s) && total > 0 && CarefulRun(World(Created(owner, total, expiresAt, order), s), events)
    ensures var g := Run(World(Created(owner, total, expiresAt, order), s), events).group;
      && g.collected <= total
      && (g.status == Running || g.status == Complete ==> (g.status == Complete <==> g.collected == total))
  {
    CreatedIsSound(owner, total, expiresAt, order);
    CarefulRunKeepsTotal(World(Created(owner, total, expiresAt, order), s), events, total);
    PaidBelowShares(Run(World(Created(owner, total, expiresAt, order), s), events).group.members);
  }

  /** The group rows that a list of requests leads through, each accepted by the group itself. */
  function Changes(g: Group, ops: seq<GroupOp>): Option<Group>
    decreases |ops|
  {
    if ops == [] then Some(g)
    else
      match Apply(g, ops[0])
      case Rejected(_) => None
      case Changed(g') => Changes(g', ops[1..])
  }

  /** Handing the whole total to one member while the owner keeps theirs is accepted, and collects almost twice the total. */
  lemma CarelessRebalanceOvercollects(owner: User, member: User, total: nat, at: I.Time, order: I.OrderId)
    requires owner != member && total > 1
    ensures var ops := [Ask(owner, member, at), Join(member, at), Split(owner, [Share(member, total)], 0, at),
                        Pay(member, total - 1, 1, at), Pay(owner, total, 2, at)];
      var g := Changes(Created(owner, total, at, order), ops);
      g.Some? && g.value.status == Complete && g.value.collected == 2 * total - 1
  {
    var g := Created(owner, total, at, order);
    var a, b := Ask(owner, member, at), Join(member, at);
    var c := Split(owner, [Share(member, total)], 0, at);
    var d, e := Pay(member, total - 1, 1, at), Pay(owner, total, 2, at);
    var o := Member(owner, Accepted, total, 0);
    var g1 := g.(members := [o, Member(member, Invited, 0, 0)]);
    assert Apply(g, a) == Changed(g1);
    var g2 := g.(members := [o, Member(member, Accepted, 0, 0)]);
    TwoMembers(g1.members, member);
    assert Apply(g1, b) == Changed(g2);
    var g3 := g.(members := [o, Member(member, Accepted, total, 0)], version := 1);
    TwoMembers(g2.members, member);
    OneShare(g2.members, Share(member, total));
    assert Apply(g2, c) == Changed(g3);
    var g4 := g3.(members := [o, Member(member, Accepted, total, total - 1)], version := 2, collected := total - 1);
    TwoMembers(g3.members, member);
    assert Apply(g3, d) == Changed(g4);
    assert Apply(g4, e) == Changed(g4.(members := [o.(paid := total), g4.members[1]], version := 3, collected := 2 * total - 1, status := Complete));
    assert [a, b, c, d, e] == [a] + ([b] + ([c] + ([d] + ([e] + []))));
    ChangesStep(g, a, [b] + ([c] + ([d] + ([e] + []))));
    ChangesStep(g1, b, [c] + ([d] + ([e] + [])));
    ChangesStep(g2, c, [d] + ([e] + []));
    ChangesStep(g3, d, [e] + []);
    ChangesStep(g4, e, []);
  }

  lemma ChangesStep(g: Group, op: GroupOp, rest: seq<GroupOp>)
    requires Apply(g, op).Changed?
    ensures Changes(g, [op] + rest) == Changes(Apply(g, op).group, rest)
  {
    assert ([op] + rest)[1..] == rest;
  }

  lemma TwoMembers(members: seq<Member>, user: User)
    requires |members| == 2 && members[1].user == user && members[0].user != user
    ensures Find(members, user) == 1
  {
    assert members[1..][0].user == user;
  }

  lemma OneShare(members: seq<Member>, share: Share)
    requires IsMember(members, share.user)
    requires members[Find(members, share.user)].invite == Accepted && members[Find(members, share.user)].paid <= share.amount
    ensures Listed([share]) == share.amount && ShareError(members, [share]) == None
    ensures WriteShares(members, [share])
      == members[Find(members, share.user) := members[Find(members, share.user)].(share := share.amount)]
  {
    assert [share][1..] == [];
  }

  /** A free group booking can never be completed: no contribution to it is accepted. */
  lemma FreeGroupNeverCompletes(s: I.State, owner: User, expiresAt: I.Time, order: I.OrderId, events: seq<Event>)
    requires Safety.Sound(s) && CarefulRun(World(Created(owner, 0, expiresAt, order), s), events)
    ensures Run(World(Created(owner, 0, expiresAt, order), s), events).group.status != Complete
  {
    CreatedIsSound(owner, 0, expiresAt, order);
    FreeStays(World(Created(owner, 0, expiresAt, order), s), events);
  }

  lemma {:induction false} NothingOwed(members: seq<Member>, k: nat)
    requires ShareSum(members) == 0 && k < |members|
    ensures members[k].share == 0
  {
    if k > 0 {
      NothingOwed(members[1..], k - 1);
    }
  }

  lemma FreeStep(w: World, e: Event)
    requires Exact(w, 0) && w.group.status != Complete
    ensures After(w, e).group.status != Complete
  {
    if e.Act? && e.op.Pay? && Find(w.group.members, e.op.user) < |w.group.members| {
      NothingOwed(w.group.members, Find(w.group.members, e.op.user));
    }
  }

  lemma {:induction false} FreeStays(w: World, events: seq<Event>)
    requires Exact(w, 0) && w.group.status != Complete && CarefulRun(w, events)
    ensures Run(w, events).group.status != Complete
    decreases |events|
  {
    if events != [] {
      EventKeepsInventorySound(w, events[0]);
      FreeStep(w, events[0]);
      StepKeepsExact(w, events[0], 0);
      FreeStays(After(w, events[0]), events[1..]);
    }
  }
}
