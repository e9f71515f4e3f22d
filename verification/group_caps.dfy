/** Attendee caps: how many attendees a member's share lets them assign. */
module GroupCaps {
  import opened GroupBooking

  /** How many attendees a share lets its member assign. */
  function Cap(share: nat, price: nat): (c: nat)
    requires price > 0
    ensures share <= c * price < share + price
  {
    (share + price - 1) / price
  }

  function CapSum(members: seq<Member>, price: nat): nat
    requires price > 0
  {
    if members == [] then 0 else Cap(members[0].share, price) + CapSum(members[1..], price)
  }

  lemma Distributes(a: int, b: int, price: int)
    ensures (a + b) * price == a * price + b * price
  {
  }

  lemma {:induction false} CapsBracketShares(members: seq<Member>, price: nat)
    requires price > 0
    ensures ShareSum(members) <= CapSum(members, price) * price
    ensures members != [] ==> CapSum(members, price) * price < ShareSum(members) + |members| * price
  {
    if members != [] {
      CapsBracketShares(members[1..], price);
      Distributes(Cap(members[0].share, price), CapSum(members[1..], price), price);
      Distributes(1, |members| - 1, price);
    }
  }

  lemma TimesKeepsOrder(a: int, b: int, price: nat)
    requires a >= b
    ensures a * price >= b * price
  {
    Distributes(a - b, b, price);
    assert (a - b) * price >= 0;
  }

  lemma LessTimesPrice(a: int, b: int, price: nat)
    requires a * price < b * price
    ensures a < b
  {
    if a >= b {
      TimesKeepsOrder(a, b, price);
    }
  }

  /** Shares that sum to the price of the seats give caps of at least the seats and fewer than one more per member. */
  lemma CapsCoverSeats(members: seq<Member>, price: nat, seats: nat)
    requires price > 0 && members != [] && ShareSum(members) == seats * price
    ensures seats <= CapSum(members, price) <= seats + |members| - 1
  {
    CapsBracketShares(members, price);
    var c := CapSum(members, price);
    Distributes(c, 1, price);
    LessTimesPrice(seats, c + 1, price);
    Distributes(seats, |members|, price);
    LessTimesPrice(c, seats + |members|, price);
  }
}
