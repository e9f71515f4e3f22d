/** The group booking row and its member rows, updated in place, next to the inventory's own tables. */
module GroupStore {
  import opened Common
  import I = Inventory
  import Stock = InventoryStore
  import opened GroupBooking

  /** A request ended as prescribed: done, or refused with group and inventory as the refusal leaves them. */
  ghost predicate Ended(before: World, op: GroupOp, after: World, error: Option<Error>)
    requires I.TypesKnown(before.inventory)
  {
    Attempt(before, op) == if error.Some? then Denied(error.value, after) else Done(after)
  }

  class Store {
    const owner: User
    const total: nat
    const expiresAt: I.Time
    const order: I.OrderId
    const inventory: Stock.Store
    var status: GroupStatus
    var collected: nat
    var version: nat
    var members: seq<Member>

    function Row(): Group
      reads this
    {
      Group(status, owner, total, collected, expiresAt, version, members, order)
    }

    function Model(): World
      reads this, inventory
    {
      World(Row(), inventory.Model())
    }

    constructor (owner: User, total: nat, expiresAt: I.Time, order: I.OrderId, inventory: Stock.Store)
      ensures Row() == Created(owner, total, expiresAt, order) && this.inventory == inventory
    {
      this.owner, this.total, this.expiresAt, this.order, this.inventory := owner, total, expiresAt, order, inventory;
      status, collected, version := Running, 0, 0;
      members := [Member(owner, Accepted, total, 0)];
    }

    /** Move the order, in a transaction of its own, unless it is gone or needs no closing any more. */
    method MoveTheOrder(next: I.OrderStatus, now: I.Time) returns (error: Option<Error>)
      requires I.TypesKnown(inventory.Model())
      modifies inventory
      ensures MoveOrder(old(inventory.Model()), order, next, now)
        == if error.Some? then I.Refused(error.value) else I.Committed(inventory.Model())
      ensures error.Some? ==> inventory.Model() == old(inventory.Model())
    {
      if order >= |inventory.orders| || inventory.orders[order].deleted {
        return None;
      }
      if I.Terminal(next) && OrderClosed(inventory.orders[order].status) {
        return None;
      }
      error := inventory.UpdateOrder(order, next, now);
    }

    /** Look at the group, expiring it and its order when it is overdue. */
    method View(now: I.Time) returns (error: Option<Error>)
      requires I.TypesKnown(inventory.Model())
      modifies this, inventory
      ensures Ended(old(Model()), Look(now), Model(), error)
    {
      error := None;
      if status == Running && expiresAt < now {
        error := MoveTheOrder(I.OrderStatus.Expired, now);
        if error.None? {
          status, version := Overdue, version + 1;
        }
      }
    }

    /** Let a request in if the group is running; an overdue group's order is expired, its row left to the rollback. */
    method Guard(now: I.Time) returns (error: Option<Error>)
      requires I.TypesKnown(inventory.Model())
      modifies inventory
      ensures Admit(old(Model()), now) == if error.Some? then Denied(error.value, Model()) else Done(Model())
      ensures error.None? ==> Model() == old(Model())
    {
      if status == Running && expiresAt < now {
        error := MoveTheOrder(I.OrderStatus.Expired, now);
        if error.None? {
          error := Some(BadRequest);
        }
      } else {
        error := if status == Running then None else Some(BadRequest);
      }
    }

    /** Look a user up among the members. */
    method FindMember(user: User) returns (k: nat)
      ensures k == Find(members, user)
    {
      k := 0;
      while k < |members| && members[k].user != user
        invariant k <= |members|
        invariant Find(members, user) == k + Find(members[k..], user)
      {
        assert members[k..][1..] == members[k + 1..];
        k := k + 1;
      }
    }

    /** The request comes from a member, and from the owner. */
    method IsOwner(actor: User) returns (yes: bool)
      ensures yes <==> ActorError(Row(), actor).None?
    {
      var a := FindMember(actor);
      yes := a < |members| && actor == owner;
    }

    method Invite(actor: User, user: User, now: I.Time) returns (error: Option<Error>)
      requires I.TypesKnown(inventory.Model())
      modifies this, inventory
      ensures Ended(old(Model()), Ask(actor, user, now), Model(), error)
      ensures error.None? ==> actor == owner
      ensures actor != owner && !PastDue(old(Row()), now) ==> Model() == old(Model())
    {
      error := Guard(now);
      if error.Some? {
        return;
      }
      var allowed := IsOwner(actor);
      if !allowed {
        return Some(Forbidden);
      }
      var k := FindMember(user);
      if k == |members| {
        members := members + [Member(user, Invited, 0, 0)];
      } else if members[k].invite == Declined {
        members := members[k := Member(user, Invited, 0, 0)];
      } else {
        return Some(Conflict);
      }
    }

    method Answer(user: User, accept: bool, now: I.Time) returns (error: Option<Error>)
      requires I.TypesKnown(inventory.Model())
      modifies this, inventory
      ensures Ended(old(Model()), if accept then Join(user, now) else GroupOp.Decline(user, now), Model(), error)
    {
      error := Guard(now);
      if error.Some? {
        return;
      }
      var k := FindMember(user);
      if k == |members| || members[k].invite != Invited {
        return Some(BadRequest);
      }
      members := members[k := members[k].(invite := if accept then Accepted else Declined)];
    }

    /** Remove a member; the owner takes over the share. */
    method DropMember(k: nat)
      requires k < |members|
      modifies this`members
      ensures members == Expelled(old(members), owner, k)
    {
      var share := members[k].share;
      var o := FindMember(owner);
      if o < |members| {
        members := members[o := members[o].(share := members[o].share + share)];
      }
      members := members[..k] + members[k + 1..];
    }

    method Remove(actor: User, user: User, echo: Option<nat>, now: I.Time) returns (error: Option<Error>)
      requires I.TypesKnown(inventory.Model())
      modifies this, inventory
      ensures Ended(old(Model()), Expel(actor, user, echo, now), Model(), error)
      ensures error.None? ==> actor == owner
      ensures actor != owner && !PastDue(old(Row()), now) ==> Model() == old(Model())
    {
      error := Guard(now);
      if error.Some? {
        return;
      }
      if echo.Some? && echo.value != version {
        return Some(Stale);
      }
      var allowed := IsOwner(actor);
      if !allowed {
        return Some(Forbidden);
      }
      var k := FindMember(user);
      if k == |members| {
        return Some(NotFound);
      }
      if user == owner || members[k].paid > 0 {
        return Some(BadRequest);
      }
      DropMember(k);
      if echo.Some? {
        version := version + 1;
      }
    }

    /** Add up the listed amounts and check each listed member. */
    method CheckShares(shares: seq<Share>) returns (sum: nat, ok: bool)
      ensures ShareError(members, shares) == if ok then None else Some(BadRequest)
      ensures ok ==> sum == Listed(shares)
    {
      sum, ok := 0, true;
      for i := 0 to |shares|
        invariant sum + Listed(shares[i..]) == Listed(shares)
        invariant ShareError(members, shares[i..]) == ShareError(members, shares)
      {
        assert shares[i..][0] == shares[i] && shares[i..][1..] == shares[i + 1..];
        sum := sum + shares[i].amount;
        var k := FindMember(shares[i].user);
        if k == |members| || members[k].invite != Accepted || shares[i].amount < members[k].paid {
          return sum, false;
        }
      }
    }

    /** Overwrite the listed members' shares, in list order. */
    method ApplyShares(shares: seq<Share>)
      modifies this`members
      ensures members == WriteShares(old(members), shares)
    {
      for i := 0 to |shares|
        invariant WriteShares(members, shares[i..]) == WriteShares(old(members), shares)
      {
        assert shares[i..][0] == shares[i] && shares[i..][1..] == shares[i + 1..];
        var k := FindMember(shares[i].user);
        if k < |members| {
          members := members[k := members[k].(share := shares[i].amount)];
        }
      }
    }

    /** Check the share list and write it, or leave the members as they are. */
    method TryShares(shares: seq<Share>) returns (ok: bool)
      modifies this`members
      ensures ok <==> AllPositive(shares) && ShareError(old(members), shares).None? && CloseTo(Listed(shares), total)
      ensures AllPositive(shares) ==> ShareError(old(members), shares) in {None, Some(BadRequest)}
      ensures members == if ok then WriteShares(old(members), shares) else old(members)
    {
      ok := AllPositive(shares);
      if ok {
        var sum;
        sum, ok := CheckShares(shares);
        ok := ok && CloseTo(sum, total);
        if ok {
          ApplyShares(shares);
        }
      }
    }

    method Rebalance(actor: User, shares: seq<Share>, known: nat, now: I.Time) returns (error: Option<Error>)
      requires I.TypesKnown(inventory.Model())
      modifies this, inventory
      ensures Ended(old(Model()), Split(actor, shares, known, now), Model(), error)
      ensures error.None? ==> actor == owner
      ensures actor != owner && !PastDue(old(Row()), now) ==> Model() == old(Model())
    {
      error := Guard(now);
      if error.Some? {
        return;
      }
      if known != version {
        return Some(Stale);
      }
      var allowed := IsOwner(actor);
      if !allowed {
        return Some(Forbidden);
      }
      var ok := TryShares(shares);
      if !ok {
        return Some(BadRequest);
      }
      version := version + 1;
    }

    /** Record a contribution; the one that reaches the total confirms the order first, and falls with it. */
    method Contribute(user: User, amount: nat, known: nat, now: I.Time) returns (error: Option<Error>)
      requires I.TypesKnown(inventory.Model())
      modifies this, inventory
      ensures Ended(old(Model()), Pay(user, amount, known, now), Model(), error)
    {
      error := Guard(now);
      if error.Some? {
        return;
      }
      if amount == 0 {
        return Some(BadRequest);
      }
      var k := FindMember(user);
      if k == |members| || members[k].invite != Accepted {
        return Some(Forbidden);
      }
      if members[k].paid + amount > members[k].share {
        return Some(BadRequest);
      }
      if known != version {
        return Some(Stale);
      }
      if collected + amount >= total {
        error := MoveTheOrder(I.Confirmed, now);
        if error.Some? {
          return;
        }
        status := Complete;
      }
      members := members[k := members[k].(paid := members[k].paid + amount)];
      collected, version := collected + amount, version + 1;
    }

    /** Call the group off and cancel its order, which releases its seats. */
    method CallOff(actor: User, known: nat, now: I.Time) returns (error: Option<Error>)
      requires I.TypesKnown(inventory.Model())
      modifies this, inventory
      ensures Ended(old(Model()), Cancel(actor, known, now), Model(), error)
      ensures error.None? ==> actor == owner
      ensures actor != owner && !PastDue(old(Row()), now) ==> Model() == old(Model())
    {
      error := Guard(now);
      if error.Some? {
        return;
      }
      if known != version {
        return Some(Stale);
      }
      var allowed := IsOwner(actor);
      if !allowed {
        return Some(Forbidden);
      }
      error := MoveTheOrder(I.OrderStatus.Cancelled, now);
      if error.None? {
        status, version := CalledOff, version + 1;
      }
    }
  }
}
