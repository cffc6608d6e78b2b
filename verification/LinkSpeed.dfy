/** PCIe link speeds in gigabits per second: the loops that halve a base of 32. */
module LinkSpeed {
  import opened Types

  function Pow2(n: nat): (r: nat)
    ensures r > 0
  {
    if n == 0 then 1 else 2 * Pow2(n - 1)
  }

  lemma {:induction false} Pow2Grows(m: nat, n: nat)
    requires m < n
    ensures Pow2(m) < Pow2(n)
  {
    if m < n - 1 { Pow2Grows(m, n - 1); }
  }

  predicate Supports(speeds: bv8, i: nat)
    requires i < 8
  {
    speeds & (1 << i) != 0
  }

  /** One more than the highest supported bit below n, or zero. */
  function TopSpeed(speeds: bv8, n: nat): (h: nat)
    requires n <= 8
    ensures h <= n
    ensures h > 0 ==> Supports(speeds, h - 1)
    ensures forall i :: h <= i < n ==> !Supports(speeds, i)
  {
    if n == 0 then 0 else if Supports(speeds, n - 1) then n else TopSpeed(speeds, n - 1)
  }

  function MaxLinkSpeed(speeds: bv8, lanes: byte): nat {
    Pow2(TopSpeed(speeds, 5)) * lanes as nat
  }

  function CurrLinkSpeed(speed: byte, lanes: byte): nat {
    if speed == 0 then 0
    else if speed <= 5 then Pow2(speed as nat) * lanes as nat
    else lanes as nat
  }

  lemma HalfOfPow2(n: nat)
    requires n > 0
    ensures Pow2(n) / 2 == Pow2(n - 1)
  {
  }

  method GetMaxLinkSpeed(speeds: bv8, lanes: byte) returns (r: nat)
    ensures r == MaxLinkSpeed(speeds, lanes)
  {
    var base := 32;
    var i := 4;
    assert Pow2(5) == 32 by { assert Pow2(2) == 4; assert Pow2(4) == 16; }
    while i >= 0
      invariant -1 <= i <= 4
      invariant base == Pow2(i + 1)
      invariant TopSpeed(speeds, 5) == TopSpeed(speeds, i + 1)
    {
      if Supports(speeds, i) {
        break;
      }
      HalfOfPow2(i + 1);
      base := base / 2;
      i := i - 1;
    }
    r := base * lanes as nat;
  }

  method GetCurrLinkSpeed(speed: byte, lanes: byte) returns (r: nat)
    ensures r == CurrLinkSpeed(speed, lanes)
  {
    var base := 32;
    if speed == 0 {
      return 0;
    }
    var i := 4;
    assert Pow2(5) == 32 by { assert Pow2(2) == 4; assert Pow2(4) == 16; }
    while i >= 0
      invariant -1 <= i <= 4
      invariant base == Pow2(i + 1)
      invariant speed as int - 1 <= i || speed > 5
    {
      if speed as int - 1 == i {
        break;
      }
      HalfOfPow2(i + 1);
      base := base / 2;
      i := i - 1;
    }
    r := base * lanes as nat;
  }

  /**
   The two loops agree: a supported negotiated link is never faster than the maximum, and equally fast only at
   the top.
   */
  lemma CurrentWithinMaximum(speeds: bv8, maxLanes: byte, speed: byte, lanes: byte)
    requires 1 <= speed <= 5 && Supports(speeds, speed as nat - 1) && lanes <= maxLanes
    ensures CurrLinkSpeed(speed, lanes) <= MaxLinkSpeed(speeds, maxLanes)
    ensures CurrLinkSpeed(speed, lanes) == MaxLinkSpeed(speeds, maxLanes) <==>
              maxLanes == 0 || (speed as nat == TopSpeed(speeds, 5) && lanes == maxLanes)
  {
    var s, top := speed as nat, TopSpeed(speeds, 5);
    var l, m := lanes as nat, maxLanes as nat;
    assert s <= top;
    ScaledLess(Pow2(s), l, m);
    if s < top {
      Pow2Grows(s, top);
      ScaledLess(m, Pow2(s), Pow2(top));
    }
  }

  lemma ScaledLess(k: nat, a: nat, b: nat)
    requires a <= b
    ensures k * a <= k * b && a * k <= b * k
    ensures a < b && k > 0 ==> k * a < k * b && a * k < b * k
  {
  }

  lemma Pow2AtLeastTwo(n: nat)
    requires n > 0
    ensures Pow2(n) >= 2
  {
  }

  /** The current speed is the true one exactly for the speeds the loop knows, or if there are no lanes. */
  lemma CurrentExactly(speed: byte, lanes: byte)
    ensures CurrLinkSpeed(speed, lanes) == Pow2(speed as nat) * lanes as nat <==> 1 <= speed <= 5 || lanes == 0
    ensures CurrLinkSpeed(speed, lanes) == (if speed == 0 then 0 else Pow2(speed as nat) * lanes as nat) <==>
              speed <= 5 || lanes == 0
  {
    if speed > 0 {
      Pow2AtLeastTwo(speed as nat);
      ScaledLess(lanes as nat, 1, Pow2(speed as nat));
    }
  }

  /** The maximum is the true one exactly if the highest supported bit is among those the loop looks at. */
  lemma MaximumExactly(speeds: bv8, lanes: byte)
    ensures MaxLinkSpeed(speeds, lanes) == Pow2(TopSpeed(speeds, 8)) * lanes as nat <==>
              TopSpeed(speeds, 8) <= 5 || lanes == 0
    ensures MaxLinkSpeed(speeds, lanes) ==
              (if TopSpeed(speeds, 8) == 0 then 0 else Pow2(TopSpeed(speeds, 8)) * lanes as nat) <==>
              1 <= TopSpeed(speeds, 8) <= 5 || lanes == 0
  {
    var low, top := TopSpeed(speeds, 5), TopSpeed(speeds, 8);
    if top <= 5 {
      TopIsUnique(speeds, low, top);
    } else {
      Pow2Grows(low, top);
      ScaledLess(lanes as nat, Pow2(low), Pow2(top));
    }
  }

  lemma TopIsUnique(speeds: bv8, low: nat, top: nat)
    requires low == TopSpeed(speeds, 5) && top == TopSpeed(speeds, 8) && top <= 5
    ensures low == top
  {
    hide TopSpeed;
    if low > 0 { assert Supports(speeds, low - 1); }
    if top > 0 { assert Supports(speeds, top - 1); }
  }

  /**
   Where that fails each side comes out as one per lane or too low: a sixth-generation link of four
   lanes, on a port that supports all six speeds, is published as 4 against a maximum of 128.
   */
  lemma UnknownSpeed(speed: byte, speeds: bv8, lanes: byte)
    ensures speed > 5 ==> CurrLinkSpeed(speed, lanes) == lanes as nat
    ensures TopSpeed(speeds, 5) == 0 ==> MaxLinkSpeed(speeds, lanes) == lanes as nat
    ensures CurrLinkSpeed(6, 4) == 4 && MaxLinkSpeed(0x3F, 4) == 128
  {
    assert Supports(0x3F, 4);
    assert TopSpeed(0x3F, 5) == 5;
    assert Pow2(5) == 32 by { assert Pow2(2) == 4; assert Pow2(4) == 16; }
  }
}
