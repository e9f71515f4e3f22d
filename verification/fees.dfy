/**
 Fee arithmetic in minor units, rounded half up: the platform's commission and the tax on it, the
 organizer's net share, and the pro-rata split of a settled refund into the three.
 */
module Fees {
  import opened Ledger
  import opened LedgerBooks

  const BASIS := 10000
  const COMMISSION_BPS := 1000
  const GST_BPS := 1800

  /** a / b rounded half up. */
  function RoundDiv(a: nat, b: nat): nat
    requires b > 0
  {
    (2 * a + b) / (2 * b)
  }

  lemma RoundDivIsNearest(a: nat, b: nat)
    requires b > 0
    ensures 2 * a - b < 2 * b * RoundDiv(a, b) <= 2 * a + b
  {
    var x, d := 2 * a + b, 2 * b;
    assert x == (x / d) * d + x % d;
  }

  function Commission(subtotal: nat): nat {
    RoundDiv(subtotal * COMMISSION_BPS, BASIS)
  }

  function Gst(fee: nat): nat {
    RoundDiv(fee * GST_BPS, BASIS)
  }

  /** The commission is a tenth of the subtotal, and the tax 18% of the fee, each to the nearest unit, halves upwards. */
  lemma RatesToTheNearest(subtotal: nat, fee: nat)
    ensures 2 * subtotal - 10 < 20 * Commission(subtotal) <= 2 * subtotal + 10
    ensures 36 * fee - 100 < 200 * Gst(fee) <= 36 * fee + 100
  {
    RoundDivIsNearest(subtotal * COMMISSION_BPS, BASIS);
    RoundDivIsNearest(fee * GST_BPS, BASIS);
  }

  /** What is left for the organizer of a payment: the commission and the tax on it are taken off. */
  function NetShare(gross: nat, subtotal: nat): int {
    gross - Commission(subtotal) - Gst(Commission(subtotal))
  }

  function Prorate(part: nat, refund: nat, total: nat): nat {
    if total == 0 then 0 else RoundDiv(refund * part, total)
  }

  // ---------------------------------------------------------------------------------------
  //  Rounding
  // ---------------------------------------------------------------------------------------

  /** Half up: the quotient, and one more when the remainder is at least half. */
  function Up(a: nat, b: nat): nat
    requires b > 0
  {
    if 2 * (a % b) >= b then 1 else 0
  }

  lemma Between(x: int, y: int, b: int)
    requires b > 0 && x * b < (y + 1) * b && y * b < (x + 1) * b
    ensures x == y
  {
    if x >= y + 1 {
      TimesKeeps(x, y + 1, b);
    } else if y >= x + 1 {
      TimesKeeps(y, x + 1, b);
    }
  }

  lemma TimesKeeps(x: int, y: int, b: int)
    requires x >= y && b > 0
    ensures x * b >= y * b
  {
    assert (x - y) * b >= 0;
  }

  lemma RoundIsQuotientAndUp(a: nat, b: nat)
    requires b > 0
    ensures RoundDiv(a, b) == a / b + Up(a, b)
  {
    var q, r := a / b, a % b;
    assert a == q * b + r;
    var x := RoundDiv(a, b);
    RoundDivIsNearest(a, b);
    assert 2 * b * x == (2 * x) * b;
    assert (2 * x) * b <= (2 * q + 1) * b + 2 * r && (2 * x) * b > (2 * q - 1) * b + 2 * r by {
      assert (2 * q + 1) * b == 2 * (q * b) + b && (2 * q - 1) * b == 2 * (q * b) - b;
    }
    if 2 * r >= b {
      RoundUp(x, q, r, b);
    } else {
      RoundDown(x, q, r, b);
    }
  }

  lemma RoundUp(x: int, q: int, r: int, b: int)
    requires 0 <= r < b && 2 * r >= b
    requires (2 * q - 1) * b + 2 * r < (2 * x) * b <= (2 * q + 1) * b + 2 * r
    ensures x == q + 1
  {
    assert (2 * q - 1) * b + b == (2 * q) * b && (2 * q + 1) * b + 2 * b == (2 * q + 3) * b;
    assert (2 * q) * b < (2 * x) * b < (2 * q + 3) * b;
    if 2 * x <= 2 * q {
      TimesKeeps(2 * q, 2 * x, b);
    } else if 2 * x >= 2 * q + 3 {
      TimesKeeps(2 * x, 2 * q + 3, b);
    }
  }

  lemma RoundDown(x: int, q: int, r: int, b: int)
    requires 0 <= r < b && 2 * r < b
    requires (2 * q - 1) * b + 2 * r < (2 * x) * b <= (2 * q + 1) * b + 2 * r
    ensures x == q
  {
    assert (2 * q + 1) * b + b == (2 * q + 2) * b;
    assert (2 * q - 1) * b < (2 * x) * b < (2 * q + 2) * b;
    if 2 * x <= 2 * q - 1 {
      TimesKeeps(2 * q - 1, 2 * x, b);
    } else if 2 * x >= 2 * q + 2 {
      TimesKeeps(2 * x, 2 * q + 2, b);
    }
  }

  // ---------------------------------------------------------------------------------------
  //  Refunds of settled payments
  // ---------------------------------------------------------------------------------------

  datatype Split = Split(fee: nat, tax: nat, net: nat)

  function SplitRefund(refund: nat, total: nat, fee: nat, tax: nat, net: nat): Split {
    Split(Prorate(fee, refund, total), Prorate(tax, refund, total), Prorate(net, refund, total))
  }

  function SplitSum(s: Split): nat {
    s.fee + s.tax + s.net
  }

  lemma ThreeQuotients(a: nat, b: nat, c: nat, n: nat, total: nat)
    requires total > 0 && a + b + c == n * total
    ensures (a / total + b / total + c / total) * total == n * total - (a % total + b % total + c % total)
  {
    assert a == (a / total) * total + a % total;
    assert b == (b / total) * total + b % total;
    assert c == (c / total) * total + c % total;
    assert (a / total + b / total + c / total) * total == (a / total) * total + (b / total) * total + (c / total) * total;
  }

  lemma AddsUpIff(q: int, ups: int, rems: int, refund: int, total: int)
    requires total > 0 && q * total == refund * total - rems
    ensures (q + ups) * total == refund * total - rems + ups * total
    ensures q + ups == refund <==> ups * total == rems
  {
    assert (q + ups) * total == q * total + ups * total;
    if ups * total == rems {
      Between(q + ups, refund, total);
    }
  }

  lemma UpError(a: nat, total: nat)
    requires total > 0
    ensures 0 - total <= 2 * (Up(a, total) * total - a % total) <= total
  {
  }

  lemma OffByAtMostOne(sum: int, refund: int, total: int, d: int, e: int, f: int)
    requires total > 0 && sum * total == refund * total + d + e + f
    requires 0 - total <= 2 * d <= total && 0 - total <= 2 * e <= total && 0 - total <= 2 * f <= total
    ensures refund - 1 <= sum <= refund + 1
  {
    assert (refund + 2) * total == refund * total + 2 * total && (refund - 2) * total == refund * total - 2 * total;
    if sum >= refund + 2 {
      TimesKeeps(sum, refund + 2, total);
    } else if sum <= refund - 2 {
      TimesKeeps(refund - 2, sum, total);
    }
  }

  lemma ThreeUps(x: int, y: int, z: int, total: int)
    ensures (x + y + z) * total == x * total + y * total + z * total
  {
  }

  /** How many of three quotients are rounded up. */
  function Ups(a: nat, b: nat, c: nat, total: nat): nat
    requires total > 0
  {
    Up(a, total) + Up(b, total) + Up(c, total)
  }

  function Remainders(a: nat, b: nat, c: nat, total: nat): nat
    requires total > 0
  {
    a % total + b % total + c % total
  }

  /** As many are rounded up as their remainders fill wholes. */
  predicate RoundsEven(a: nat, b: nat, c: nat, total: nat)
    requires total > 0
  {
    Ups(a, b, c, total) * total == Remainders(a, b, c, total)
  }

  lemma ThreeRounded(a: nat, b: nat, c: nat, n: nat, total: nat)
    requires total > 0 && a + b + c == n * total
    ensures var sum := a / total + Up(a, total) + b / total + Up(b, total) + c / total + Up(c, total);
      (sum == n <==> RoundsEven(a, b, c, total)) && n - 1 <= sum <= n + 1
  {
    ThreeQuotients(a, b, c, n, total);
    var q := a / total + b / total + c / total;
    AddsUpIff(q, Ups(a, b, c, total), Remainders(a, b, c, total), n, total);
    ThreeUps(Up(a, total), Up(b, total), Up(c, total), total);
    UpError(a, total);
    UpError(b, total);
    UpError(c, total);
    OffByAtMostOne(q + Ups(a, b, c, total), n, total, Up(a, total) * total - a % total,
                   Up(b, total) * total - b % total, Up(c, total) * total - c % total);
  }

  lemma PartsOfRefund(refund: nat, total: nat, fee: nat, tax: nat, net: nat)
    requires fee + tax + net == total
    ensures refund * fee + refund * tax + refund * net == refund * total
  {
    assert refund * (fee + tax + net) == refund * fee + refund * tax + refund * net;
  }

  /**
   The rounded parts of a refund add up to it exactly when as many parts are rounded up as their
   remainders fill wholes; otherwise they are off by one minor unit.
   */
  lemma PartsAddUpIff(refund: nat, total: nat, fee: nat, tax: nat, net: nat)
    requires total > 0 && fee + tax + net == total
    ensures var sum := SplitSum(SplitRefund(refund, total, fee, tax, net));
      (sum == refund <==> RoundsEven(refund * fee, refund * tax, refund * net, total)) && refund - 1 <= sum <= refund + 1
  {
    var a, b, c := refund * fee, refund * tax, refund * net;
    PartsOfRefund(refund, total, fee, tax, net);
    RoundIsQuotientAndUp(a, total);
    RoundIsQuotientAndUp(b, total);
    RoundIsQuotientAndUp(c, total);
    ThreeRounded(a, b, c, refund, total);
  }

  lemma WholeRefundIsExact(total: nat, part: nat)
    requires total > 0
    ensures Prorate(part, total, total) == part
  {
    RoundIsQuotientAndUp(total * part, total);
    assert total * part == part * total + 0;
    Between((total * part) / total, part, total);
  }

  /** A payment of nothing has nothing to split. */
  lemma NothingSplitsToNothing(refund: nat, fee: nat, tax: nat, net: nat)
    ensures SplitRefund(refund, 0, fee, tax, net) == Split(0, 0, 0)
  {
  }

  /** A refund of the whole payment is split into exactly the parts that were settled. */
  lemma FullRefundSplitsExactly(total: nat, fee: nat, tax: nat, net: nat)
    requires total > 0
    ensures SplitRefund(total, total, fee, tax, net) == Split(fee, tax, net)
  {
    WholeRefundIsExact(total, fee);
    WholeRefundIsExact(total, tax);
    WholeRefundIsExact(total, net);
  }

  /**
   A refund of part of a settled payment can be posted exactly when its rounded parts are all
   positive and add up, and the organizer's balance covers their part.
   */
  lemma PartialRefundPostsIff(b: Books, refundId: nat, organizer: nat, refund: nat, total: nat, fee: nat, tax: nat, net: nat, at: Ledger.Time)
    requires Sound(b) && total > 0 && fee + tax + net == total
    ensures var s := SplitRefund(refund, total, fee, tax, net);
      Post(b, SettledRefund(refundId, organizer, refund, s.fee, s.tax, s.net), at).Posted? <==>
        s.fee > 0 && s.tax > 0 && s.net > 0
        && RoundsEven(refund * fee, refund * tax, refund * net, total)
        && s.net <= Net(b.projection, Organizer(organizer))
  {
    var s := SplitRefund(refund, total, fee, tax, net);
    PartsAddUpIff(refund, total, fee, tax, net);
    SettledRefundAcceptedIff(b, refundId, organizer, refund, s.fee, s.tax, s.net, at);
  }

  /**
   A payment of 4236.00 on a subtotal of 4000.00 leaves the organizer 3764.00; once it is settled, a
   refund of 900.00 splits into 84.99, 15.30 and 799.72, one unit too much, and no books accept it.
   */
  lemma NineHundredIsRefused(b: Books, refundId: nat, organizer: nat, at: Ledger.Time)
    requires Sound(b)
    ensures NetShare(423600, 400000) == 376400 && Commission(400000) == 40000 && Gst(40000) == 7200
    ensures SplitRefund(90000, 423600, 40000, 7200, 376400) == Split(8499, 1530, 79972)
    ensures Post(b, SettledRefund(refundId, organizer, 90000, 8499, 1530, 79972), at).Declined?
  {
    SettledRefundAcceptedIff(b, refundId, organizer, 90000, 8499, 1530, 79972, at);
  }
}
