/** The progress estimate of a sanitize operation, in the 32-bit arithmetic of the program. */
module Progress {
  import opened Types

  const POLL_INTERVAL: nat := 5
  const DRIVE_SANITIZE_TIME: nat := 30   // default of the build option, used when the drive reports none

  predicate IsUint32(x: int) {
    0 <= x < TWO_TO_THE_32
  }

  function EffectiveEnd(endTime: nat): nat {
    if endTime == UINT32_MAX then DRIVE_SANITIZE_TIME else endTime
  }

  function NextTime(time: nat): nat {
    (time + POLL_INTERVAL) % TWO_TO_THE_32
  }

  /** The published percentage at an elapsed time; nothing if the division by a zero end time traps. */
  function Percent(time: nat, endTime: nat): Option<nat> {
    var end := EffectiveEnd(endTime);
    if end == 0 then None
    else if time >= end then Some(99)
    else Some(((time * 100) % TWO_TO_THE_32) / end)
  }

  /** The same from the quantities that the program computes on the way. */
  lemma PercentFrom(before: nat, endTime: nat, time: nat, end: nat, product: nat)
    requires end == EffectiveEnd(endTime) && time == (before + POLL_INTERVAL) % TWO_TO_THE_32
    requires product == (time * 100) % TWO_TO_THE_32
    ensures time == NextTime(before)
    ensures Percent(time, endTime) ==
            if end == 0 then None else Some(if time >= end then 99 else product / end)
  {
  }

  /** The elapsed estimate after k in-progress replies. */
  function Elapsed(k: nat): nat {
    if k == 0 then 0 else NextTime(Elapsed(k - 1))
  }

  lemma NextTimeAdds(x: nat)
    ensures NextTime(x % TWO_TO_THE_32) == (x + POLL_INTERVAL) % TWO_TO_THE_32
  {
    var q := x / TWO_TO_THE_32;
    assert x == q * TWO_TO_THE_32 + x % TWO_TO_THE_32;
  }

  lemma {:induction false} ElapsedIs(k: nat)
    ensures Elapsed(k) == (POLL_INTERVAL * k) % TWO_TO_THE_32
  {
    if k > 0 {
      ElapsedIs(k - 1);
      NextTimeAdds(POLL_INTERVAL * (k - 1));
      hide NextTime;
    }
  }

  lemma AtMost(x: nat, e: nat, k: nat)
    requires e > 0
    ensures k * e <= x <==> k <= x / e
  {
    var q := x / e;
    assert x == q * e + x % e;
    if k <= q {
      assert k * e <= q * e;
    } else {
      assert k * e >= (q + 1) * e;
    }
  }

  /** At most 99 for every positive end time, even when the product wraps around; a trap exactly for a zero end time. */
  lemma PercentBounded(time: nat, endTime: nat)
    ensures Percent(time, endTime) == None <==> endTime == 0
    ensures endTime != 0 ==> Percent(time, endTime).value <= 99
  {
    var end := EffectiveEnd(endTime);
    if end != 0 && time < end {
      AtMost((time * 100) % TWO_TO_THE_32, end, 100);
    }
  }

  function Min(a: nat, b: nat): nat {
    if a < b then a else b
  }

  /**
   The published percentage is the true one, capped at 99, exactly while the product fits or the end time has
   passed.
   */
  lemma PercentExact(time: nat, endTime: nat)
    requires IsUint32(time) && IsUint32(endTime) && endTime != 0
    ensures Percent(time, endTime) == Some(Min(99, (100 * time) / EffectiveEnd(endTime))) <==>
              100 * time < TWO_TO_THE_32 || time >= EffectiveEnd(endTime)
  {
    var end := EffectiveEnd(endTime);
    var x := 100 * time;
    AtMost(x, end, 100);
    if time < end {
      assert time * 100 == x;
      if x >= TWO_TO_THE_32 {
        DroppedMultiple(x, TWO_TO_THE_32);
        SmallerQuotient(x % TWO_TO_THE_32, x, end);
        AtMost(x % TWO_TO_THE_32, end, 99);
      }
    }
  }

  lemma DroppedMultiple(x: nat, m: nat)
    requires 0 < m <= x
    ensures x % m + m <= x
  {
    var q := x / m;
    assert q >= 1;
    assert x == q * m + x % m;
    assert q * m >= m;
  }

  lemma SmallerQuotient(r: nat, x: nat, e: nat)
    requires e > 0 && r + e <= x
    ensures r / e < x / e
  {
    AtMost(r, e, r / e);
    assert (r / e + 1) * e == (r / e) * e + e;
    AtMost(x, e, r / e + 1);
  }

  /** For a fixed end time the percentage does not go back while the product fits. */
  lemma PercentMonotone(t: nat, u: nat, endTime: nat)
    requires t <= u && 100 * u < TWO_TO_THE_32 && endTime != 0
    ensures Percent(t, endTime).Some? && Percent(u, endTime).Some?
    ensures Percent(t, endTime).value <= Percent(u, endTime).value
  {
    PercentBounded(t, endTime);
    PercentBounded(u, endTime);
    var end := EffectiveEnd(endTime);
    if u < end {
      AtMost(100 * t, end, (100 * t) / end);
      AtMost(100 * u, end, (100 * t) / end);
    }
  }

  /** The same told by the number of in-progress replies. */
  lemma RepliesMonotone(k: nat, l: nat, endTime: nat)
    requires k <= l && 500 * l < TWO_TO_THE_32 && endTime != 0
    ensures var p, q := Percent((5 * k) % TWO_TO_THE_32, endTime), Percent((5 * l) % TWO_TO_THE_32, endTime);
            p.Some? && q.Some? && p.value <= q.value
  {
    hide Percent;
    PercentMonotone(5 * k, 5 * l, endTime);
  }

  /** The product as the program computes it. */
  function Product(time: nat): nat {
    (time * 100) % TWO_TO_THE_32
  }

  /** The product wraps between this poll and the next. */
  predicate Wraps(time: nat) {
    Product(time) + 500 >= TWO_TO_THE_32
  }

  /**
   From one poll to the next the published percentage falls in exactly two cases: the product wraps before the end
   time after having been a whole percent at least, or the clock itself wraps after the end time and restarts before it.
   */
  lemma FallsExactly(time: nat, endTime: nat)
    requires IsUint32(time) && IsUint32(endTime) && endTime != 0
    ensures Percent(time, endTime).Some? && Percent(NextTime(time), endTime).Some?
    ensures var end := EffectiveEnd(endTime);
            Percent(NextTime(time), endTime).value < Percent(time, endTime).value <==>
              if time + POLL_INTERVAL < TWO_TO_THE_32
              then time + POLL_INTERVAL < end && Wraps(time) && Product(time) >= end
              else end <= time && NextTime(time) < end
  {
    var end := EffectiveEnd(endTime);
    var u := NextTime(time);
    PercentBounded(time, endTime);
    PercentBounded(u, endTime);
    PercentIs(time, endTime);
    PercentIs(u, endTime);
    if time + POLL_INTERVAL < TWO_TO_THE_32 {
      assert u == time + POLL_INTERVAL;
      hide Percent, Product, NextTime, Wraps;
      if u < end { BeforeTheEnd(time, end); }
    } else {
      hide Percent, Product, NextTime, Wraps;
      if u < end { ClockWraps(time, end); }
    }
  }

  lemma PercentIs(time: nat, endTime: nat)
    requires endTime != 0
    ensures Percent(time, endTime) ==
            Some(if time >= EffectiveEnd(endTime) then 99 else Product(time) / EffectiveEnd(endTime))
  {
  }

  lemma ProductMoves(time: nat)
    ensures Product(time + 5) == if Wraps(time) then Product(time) + 500 - TWO_TO_THE_32 else Product(time) + 500
  {
    var q := (time * 100) / TWO_TO_THE_32;
    assert time * 100 == q * TWO_TO_THE_32 + Product(time);
    assert (time + 5) * 100 == time * 100 + 500;
  }

  lemma ProductFits(time: nat)
    ensures Product(time) < TWO_TO_THE_32
  {
  }

  /** Before the first wrap the product is the elapsed time a hundredfold, so it is large when it wraps. */
  lemma WrapIsLate(time: nat)
    requires Wraps(time)
    ensures time >= 42949668
  {
  }

  lemma QuotientGrows(x: nat, y: nat, e: nat)
    requires e > 0 && x <= y
    ensures x / e <= y / e
  {
    AtMost(x, e, x / e);
    AtMost(y, e, x / e);
  }

  lemma BelowOne(x: nat, e: nat)
    requires e > 0
    ensures 0 <= x / e && (x / e < 1 <==> x < e)
  {
    AtMost(x, e, 1);
  }

  /** A quotient falls exactly if the dividend restarts below the divisor after having reached it. */
  lemma QuotientFalls(x: nat, y: nat, e: nat, restarts: bool)
    requires e > 0 && if restarts then y < e else x <= y
    ensures y / e < x / e <==> restarts && x >= e
  {
    if restarts {
      BelowOne(x, e);
      BelowOne(y, e);
    } else {
      QuotientGrows(x, y, e);
    }
  }

  lemma BeforeTheEnd(time: nat, end: nat)
    requires time + 5 < end
    ensures Product(time + 5) / end < Product(time) / end <==> Wraps(time) && Product(time) >= end
  {
    hide Product;
    ProductMoves(time);
    ProductFits(time);
    if Wraps(time) { WrapIsLate(time); }
    QuotientFalls(Product(time), Product(time + 5), end, Wraps(time));
  }

  lemma ClockRestarts(time: nat)
    requires IsUint32(time) && time + 5 >= TWO_TO_THE_32
    ensures NextTime(time) == time + 5 - TWO_TO_THE_32 && Product(NextTime(time)) == 100 * NextTime(time)
  {
  }

  lemma LastProduct(time: nat, k: nat)
    requires 1 <= k <= 5 && time == TWO_TO_THE_32 - k
    ensures Product(time) == TWO_TO_THE_32 - 100 * k
  {
    assert time * 100 == 99 * TWO_TO_THE_32 + (TWO_TO_THE_32 - 100 * k);
  }

  lemma SmallQuotient(x: nat, end: nat, n: nat)
    requires end > 0 && x < n * end
    ensures x / end < n
  {
    AtMost(x, end, n);
  }

  /** At the very end of the clock the percentage is 0 or 99, and afterwards at most 80. */
  lemma ClockWraps(time: nat, end: nat)
    requires IsUint32(time) && time + 5 >= TWO_TO_THE_32 && NextTime(time) < end < TWO_TO_THE_32 - 1
    ensures Product(NextTime(time)) / end < 81
    ensures time < end ==> Product(time) / end < 1
  {
    ClockRestarts(time);
    LastProduct(time, TWO_TO_THE_32 - time);
    AfterRestart(time, NextTime(time), end, Product(NextTime(time)), Product(time));
  }

  lemma AfterRestart(time: nat, u: nat, end: nat, after: nat, before: nat)
    requires u <= 4 && u < end < 0xFFFF_FFFF && after == 100 * u
    requires 0xFFFF_FFFB <= time <= 0xFFFF_FFFF && before == 0x1_0000_0000 - 100 * (0x1_0000_0000 - time)
    ensures after / end < 81
    ensures time < end ==> before / end < 1
  {
    SmallQuotient(after, end, 81);
    if time < end { SmallQuotient(before, end, 1); }
  }

  lemma ReachedAtPoll(k: nat, time: nat)
    requires POLL_INTERVAL * k == time < TWO_TO_THE_32
    ensures Elapsed(k) == time
  {
    ElapsedIs(k);
  }

  /** It does fall: with an end time of fifty million seconds from 85 to 0, between two polls that do happen. */
  lemma WrapFallsBack() returns (k: nat)
    ensures Elapsed(k) == 42949670
    ensures Percent(Elapsed(k), 50000000) == Some(85) && Percent(NextTime(Elapsed(k)), 50000000) == Some(0)
  {
    hide Elapsed;
    k := 8589934;
    ReachedAtPoll(k, 42949670);
  }
}
