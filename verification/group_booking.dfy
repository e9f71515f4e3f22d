/**
 A group booking: one order whose total is split into members' shares and paid step by step. The
 order and its holds live in the inventory, where anybody else may move them. Amounts are in minor
 units; version stands for the timestamp that callers must echo.
 */
module GroupBooking {
  import opened Common
  import opened Inventory
  import opened InventorySafety

  type User = nat

  datatype InviteStatus = Invited | Accepted | Declined
  datatype Member = Member(user: User, invite: InviteStatus, share: nat, paid: nat)

  datatype GroupStatus = Running | Complete | CalledOff | Overdue

  datatype Group = Group(
    status: GroupStatus, owner: User, total: nat, collected: nat, expiresAt: Time, version: nat,
    members: seq<Member>, order: OrderId)

  datatype World = World(group: Group, inventory: State)

  /** What a request wants of the group row alone. */
  datatype Change = Changed(group: Group) | Rejected(error: Error)

  /** A refused operation rolls the group back, but an order it has expired on the way stays expired. */
  datatype Result = Done(world: World) | Denied(error: Error, world: World)

  datatype Share = Share(user: User, amount: nat)

  // ---------------------------------------------------------------------------------------
  //  Members
  // ---------------------------------------------------------------------------------------

  /** The position of a user among the members, or the number of members. */
  function Find(members: seq<Member>, user: User): (k: nat)
    ensures k <= |members|
    ensures k < |members| ==> members[k].user == user
    ensures forall j: nat :: j < k ==> members[j].user != user
  {
    if members == [] || members[0].user == user then 0 else 1 + Find(members[1..], user)
  }

  predicate IsMember(members: seq<Member>, user: User) {
    Find(members, user) < |members|
  }

  function ShareSum(members: seq<Member>): nat {
    if members == [] then 0 else members[0].share + ShareSum(members[1..])
  }

  function PaidSum(members: seq<Member>): nat {
    if members == [] then 0 else members[0].paid + PaidSum(members[1..])
  }

  function Without(members: seq<Member>, k: nat): seq<Member>
    requires k < |members|
  {
    members[..k] + members[k + 1..]
  }

  /** The owner takes over somebody's share. */
  function TakenOver(members: seq<Member>, o: nat, share: nat): seq<Member>
    requires o < |members|
  {
    members[o := members[o].(share := members[o].share + share)]
  }

  /** The members after position k leaves and the owner takes over that share. */
  function Expelled(members: seq<Member>, owner: User, k: nat): seq<Member>
    requires k < |members|
  {
    var o := Find(members, owner);
    Without(if o < |members| then TakenOver(members, o, members[k].share) else members, k)
  }

  // ---------------------------------------------------------------------------------------
  //  Share lists
  // ---------------------------------------------------------------------------------------

  function Listed(shares: seq<Share>): nat {
    if shares == [] then 0 else shares[0].amount + Listed(shares[1..])
  }

  /** The first complaint about a share list. */
  function ShareError(members: seq<Member>, shares: seq<Share>): Option<Error> {
    if shares == [] then None
    else
      var k := Find(members, shares[0].user);
      if k == |members| || members[k].invite != Accepted || shares[0].amount < members[k].paid then Some(BadRequest)
      else ShareError(members, shares[1..])
  }

  /** Write the listed amounts one after the other. */
  function WriteShares(members: seq<Member>, shares: seq<Share>): (r: seq<Member>)
    ensures |r| == |members|
    decreases |shares|
  {
    if shares == [] then members
    else
      var k := Find(members, shares[0].user);
      WriteShares(if k < |members| then members[k := members[k].(share := shares[0].amount)] else members, shares[1..])
  }

  predicate AllPositive(shares: seq<Share>) {
    shares != [] && forall i :: 0 <= i < |shares| ==> shares[i].amount > 0
  }

  const TOLERANCE := 1

  predicate CloseTo(a: int, b: int) {
    -TOLERANCE <= a - b <= TOLERANCE
  }

  // ---------------------------------------------------------------------------------------
  //  Changes to a running group
  // ---------------------------------------------------------------------------------------

  datatype GroupOp =
    | Look(at: Time)
    | Ask(actor: User, user: User, at: Time)
    | Join(user: User, at: Time)
    | Decline(user: User, at: Time)
    | Expel(actor: User, user: User, echo: Option<nat>, at: Time)
    | Split(actor: User, shares: seq<Share>, known: nat, at: Time)
    | Pay(user: User, amount: nat, known: nat, at: Time)
    | Cancel(actor: User, known: nat, at: Time)

  function ActorError(g: Group, actor: User): Option<Error> {
    if !IsMember(g.members, actor) || actor != g.owner then Some(Forbidden) else None
  }

  function Invite(g: Group, actor: User, user: User): Change {
    var k := Find(g.members, user);
    if ActorError(g, actor).Some? then Rejected(ActorError(g, actor).value)
    else if k == |g.members| then Changed(g.(members := g.members + [Member(user, Invited, 0, 0)]))
    else if g.members[k].invite == Declined then Changed(g.(members := g.members[k := Member(user, Invited, 0, 0)]))
    else Rejected(Conflict)
  }

  function Answer(g: Group, user: User, answer: InviteStatus): Change {
    var k := Find(g.members, user);
    if k == |g.members| || g.members[k].invite != Invited then Rejected(BadRequest)
    else Changed(g.(members := g.members[k := g.members[k].(invite := answer)]))
  }

  /** The owner takes over the share of a member who leaves unpaid; echoing the version is optional. */
  function Remove(g: Group, actor: User, user: User, echo: Option<nat>): Change {
    var k := Find(g.members, user);
    if echo.Some? && echo.value != g.version then Rejected(Stale)
    else if ActorError(g, actor).Some? then Rejected(ActorError(g, actor).value)
    else if k == |g.members| then Rejected(NotFound)
    else if user == g.owner || g.members[k].paid > 0 then Rejected(BadRequest)
    else Changed(g.(members := Expelled(g.members, g.owner, k), version := if echo.Some? then g.version + 1 else g.version))
  }

  /** Rebalance: only the listed amounts are checked against the total, and only listed members are written. */
  function Rebalance(g: Group, actor: User, shares: seq<Share>, known: nat): Change {
    if known != g.version then Rejected(Stale)
    else if ActorError(g, actor).Some? then Rejected(ActorError(g, actor).value)
    else if !AllPositive(shares) then Rejected(BadRequest)
    else if ShareError(g.members, shares).Some? then Rejected(ShareError(g.members, shares).value)
    else if !CloseTo(Listed(shares), g.total) then Rejected(BadRequest)
    else Changed(g.(members := WriteShares(g.members, shares), version := g.version + 1))
  }

  /** A member pays part of their share; the payment that reaches the total completes the group. */
  function Contribute(g: Group, user: User, amount: nat, known: nat): Change {
    var k := Find(g.members, user);
    if amount == 0 then Rejected(BadRequest)
    else if k == |g.members| || g.members[k].invite != Accepted then Rejected(Forbidden)
    else if g.members[k].paid + amount > g.members[k].share then Rejected(BadRequest)
    else if known != g.version then Rejected(Stale)
    else
      Changed(g.(members := g.members[k := g.members[k].(paid := g.members[k].paid + amount)],
                 collected := g.collected + amount, version := g.version + 1,
                 status := if g.collected + amount < g.total then g.status else Complete))
  }

  function CallOff(g: Group, actor: User, known: nat): Change {
    if known != g.version then Rejected(Stale)
    else if ActorError(g, actor).Some? then Rejected(ActorError(g, actor).value)
    else Changed(g.(status := CalledOff, version := g.version + 1))
  }

  function Apply(g: Group, op: GroupOp): Change {
    match op
    case Look(_) => Changed(g)
    case Ask(actor, user, _) => Invite(g, actor, user)
    case Join(user, _) => Answer(g, user, Accepted)
    case Decline(user, _) => Answer(g, user, Declined)
    case Expel(actor, user, echo, _) => Remove(g, actor, user, echo)
    case Split(actor, shares, known, _) => Rebalance(g, actor, shares, known)
    case Pay(user, amount, known, _) => Contribute(g, user, amount, known)
    case Cancel(actor, known, _) => CallOff(g, actor, known)
  }

  // ---------------------------------------------------------------------------------------
  //  The group and its order
  // ---------------------------------------------------------------------------------------

  predicate OrderClosed(st: OrderStatus) {
    st.Cancelled? || st.Expired?
  }

  predicate OrderGone(s: State, o: OrderId) {
    o >= |s.orders| || s.orders[o].deleted
  }

  /** Move the group's order; one that is gone is left alone, and so is a closed one that is to be closed. */
  function MoveOrder(s: State, o: OrderId, next: OrderStatus, now: Time): Outcome
    requires TypesKnown(s)
  {
    if OrderGone(s, o) || (Terminal(next) && OrderClosed(s.orders[o].status)) then Committed(s)
    else UpdateOrder(s, o, next, now)
  }

  predicate PastDue(g: Group, now: Time) {
    g.status == Running && g.expiresAt < now
  }

  /** Every request first expires a group that is overdue, and its order with it. */
  function Enter(w: World, now: Time): Result
    requires TypesKnown(w.inventory)
  {
    if !PastDue(w.group, now) then Done(w)
    else
      var r := MoveOrder(w.inventory, w.group.order, OrderStatus.Expired, now);
      if r.Refused? then Denied(r.error, w)
      else Done(World(w.group.(status := Overdue, version := w.group.version + 1), r.state))
  }

  /** What the order is to become when the group has changed to the given status. */
  function OrderGoal(status: GroupStatus): OrderStatus {
    if status == Complete then Confirmed else OrderStatus.Cancelled
  }

  /**
   What every request but a look needs: a running group. The order is moved in a transaction of its
   own: if the group turns out to be overdue the request is refused and the group rolled back, but the
   order stays expired.
   */
  function Admit(w: World, now: Time): Result
    requires TypesKnown(w.inventory)
  {
    var entered := Enter(w, now);
    if entered.Done? && entered.world.group.status != Running then Denied(BadRequest, entered.world.(group := w.group))
    else entered
  }

  /** A change of the group row, and of the order if the change ends the group. */
  function Carry(w: World, change: Change, now: Time): Result
    requires TypesKnown(w.inventory)
  {
    match change
    case Rejected(e) => Denied(e, w)
    case Changed(g) =>
      if g.status == Running then Done(w.(group := g))
      else
        match MoveOrder(w.inventory, g.order, OrderGoal(g.status), now)
        case Refused(e) => Denied(e, w)
        case Committed(s) => Done(World(g, s))
  }

  function Attempt(w: World, op: GroupOp): Result
    requires TypesKnown(w.inventory)
  {
    if op.Look? then Enter(w, op.at)
    else
      var admitted := Admit(w, op.at);
      if admitted.Denied? then admitted else Carry(w, Apply(w.group, op), op.at)
  }

  /** Creation reserves the seats under a pending order and makes the owner responsible for the whole total. */
  function CreateGroup(s: State, owner: User, total: nat, items: seq<Item>, holdUntil: Time, seen: map<TypeId, int>,
                       expiresAt: Time, now: Time): Option<World>
    requires TypesKnown(s)
  {
    match CreateOrder(s, items, Pending, holdUntil, seen, now)
    case Refused(_) => None
    case Committed(s') => Some(World(Created(owner, total, expiresAt, |s.orders|), s'))
  }

  function Created(owner: User, total: nat, expiresAt: Time, order: OrderId): Group {
    Group(Running, owner, total, 0, expiresAt, 0, [Member(owner, Accepted, total, 0)], order)
  }

  /** What can happen next: a request to the group, or anything else that moves the inventory. */
  datatype Event = Act(op: GroupOp) | Other(move: Op)

  function After(w: World, e: Event): World
    requires TypesKnown(w.inventory)
  {
    match e
    case Act(op) => Attempt(w, op).world
    case Other(move) => w.(inventory := Inventory.After(w.inventory, move))
  }

  lemma MoveKeepsInventorySound(s: State, o: OrderId, next: OrderStatus, now: Time)
    requires Sound(s) && MoveOrder(s, o, next, now).Committed?
    ensures Sound(MoveOrder(s, o, next, now).state)
  {
    StepKeepsSound(s, Update(o, next, now));
  }

  lemma EventKeepsInventorySound(w: World, e: Event)
    requires Sound(w.inventory)
    ensures Sound(After(w, e).inventory)
  {
    match e
    case Act(op) =>
      if PastDue(w.group, op.at) && MoveOrder(w.inventory, w.group.order, OrderStatus.Expired, op.at).Committed? {
        MoveKeepsInventorySound(w.inventory, w.group.order, OrderStatus.Expired, op.at);
      }
      var c := Apply(w.group, op);
      if c.Changed? && MoveOrder(w.inventory, c.group.order, OrderGoal(c.group.status), op.at).Committed? {
        MoveKeepsInventorySound(w.inventory, c.group.order, OrderGoal(c.group.status), op.at);
      }
    case Other(move) => StepKeepsSound(w.inventory, move);
  }

  ghost function Run(w: World, events: seq<Event>): (w': World)
    requires Sound(w.inventory)
    ensures Sound(w'.inventory)
    decreases |events|
  {
    if events == [] then w
    else EventKeepsInventorySound(w, events[0]); Run(After(w, events[0]), events[1..])
  }
}
