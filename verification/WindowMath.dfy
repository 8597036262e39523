/** The formulas of the congestion window: marking averages, back-off factors, and the increment. */
module WindowMath {
  import opened Serial

  /** What one window update reads from the delay estimation and the streams. */
  datatype Net = Net(
    sRtt: real, sRttNtp: nat, sRttFalls: bool, queueDelay: real, queueDelayAvg: real, queueDelayTarget: real,
    queueDelayDev: real, targetBitrate: real, ackedBitrate: real, maxBitrate: real, relFrameSizeHigh: real)

  /** Round-trip times are positive, and so is the queue delay target. */
  predicate Sane(net: Net) {
    net.sRtt > 0.0 && net.sRttNtp > 0 && net.queueDelayTarget > 0.0 && net.queueDelayDev >= 0.0
  }

  lemma ScaleDown(a: real, f: real, r: real)
    requires 0.0 <= f <= 1.0 && r == a * f
    ensures a >= 0.0 ==> 0.0 <= r <= a
    ensures a <= 0.0 ==> a <= r <= 0.0
  {
    assert a * f - a == -a * (1.0 - f);
    assert a - a * f == a * (1.0 - f);
  }

  /** A part of a, no larger than a and with its sign. */
  function Portion(a: real, f: real): (r: real)
    requires 0.0 <= f <= 1.0
    ensures a >= 0.0 ==> 0.0 <= r <= a
    ensures a <= 0.0 ==> a <= r <= 0.0
  {
    ScaleDown(a, f, a * f);
    a * f
  }

  lemma DivideDown(a: real, d: real)
    requires a >= 0.0 && d >= 1.0
    ensures 0.0 <= a / d <= a
  {
    ScaleDown(a, 1.0 / d, a / d);
  }

  // ---------- Marking ----------

  /** One step of the marking average: up by an eighth of the way to the fraction, or down by a 128th of itself. */
  function NextAlpha(alpha: real, fraction: real): (r: real)
    requires 0.0 <= alpha <= 1.0 && 0.0 <= fraction <= 1.0
    ensures if fraction >= alpha then alpha <= r <= fraction else 0.0 <= r <= alpha
  {
    if fraction >= alpha then MinReal(1.0, fraction / 8.0 + 7.0 / 8.0 * alpha) else alpha * (1.0 - 1.0 / 128.0)
  }

  /** One step of the CE density average. */
  function NextDensity(density: real, isCe: bool): (r: real)
    requires 0.25 <= density <= 1.0
    ensures 0.25 <= r <= 1.0
    ensures if isCe then MinReal(density, 15.0 / 16.0) <= r <= MaxReal(density, 15.0 / 16.0) else r <= density
  {
    MaxReal(0.25, (if isCe then density + 1.0 / 16.0 else density) * (1.0 - 1.0 / 16.0))
  }

  /** One step toward a higher fraction leaves 7/8 of the gap; one toward a lower one leaves 127/128 of the average. */
  lemma NextAlphaIs(alpha: real, fraction: real)
    requires 0.0 <= alpha <= 1.0 && 0.0 <= fraction <= 1.0
    ensures fraction >= alpha ==> 8.0 * (fraction - NextAlpha(alpha, fraction)) == 7.0 * (fraction - alpha)
    ensures fraction < alpha ==> 128.0 * NextAlpha(alpha, fraction) == 127.0 * alpha
  {
  }

  function Power(x: real, k: nat): real { if k == 0 then 1.0 else Times(x, Power(x, k - 1)) }

  /** The marking average after k intervals of the same fraction. */
  function AlphaAfter(alpha: real, fraction: real, k: nat): (r: real)
    requires 0.0 <= alpha <= 1.0 && 0.0 <= fraction <= 1.0
    ensures if fraction >= alpha then alpha <= r <= fraction else 0.0 <= r <= alpha
  {
    if k == 0 then alpha else NextAlpha(AlphaAfter(alpha, fraction, k - 1), fraction)
  }

  /** The average approaches a higher fraction geometrically. */
  lemma {:induction false} AlphaRises(alpha: real, fraction: real, k: nat)
    requires 0.0 <= alpha <= fraction <= 1.0
    ensures fraction - AlphaAfter(alpha, fraction, k) == Times(Power(7.0 / 8.0, k), fraction - alpha)
  {
    if k > 0 {
      AlphaRises(alpha, fraction, k - 1);
      NextAlphaIs(AlphaAfter(alpha, fraction, k - 1), fraction);
      Associate(7.0 / 8.0, Power(7.0 / 8.0, k - 1), fraction - alpha);
      hide NextAlpha;
    }
  }

  /** Without marks it decays geometrically. */
  lemma {:induction false} AlphaDecays(alpha: real, k: nat)
    requires 0.0 <= alpha <= 1.0
    ensures AlphaAfter(alpha, 0.0, k) == Times(Power(127.0 / 128.0, k), alpha)
  {
    if k > 0 {
      AlphaDecays(alpha, k - 1);
      NextAlphaIs(AlphaAfter(alpha, 0.0, k - 1), 0.0);
      Associate(127.0 / 128.0, Power(127.0 / 128.0, k - 1), alpha);
      hide NextAlpha;
    }
  }

  /** A marked block closes a sixteenth of the gap to 15/16; another takes a sixteenth off the density, down to a quarter. */
  lemma NextDensityIs(density: real)
    requires 0.25 <= density <= 1.0
    ensures 16.0 * (15.0 / 16.0 - NextDensity(density, true)) == 15.0 * (15.0 / 16.0 - density)
    ensures NextDensity(density, false) == if density >= 4.0 / 15.0 then 15.0 / 16.0 * density else 0.25
  {
  }

  /** Round trips longer than 30 ms scale a back-off down. */
  function RttScale(net: Net): (d: real)
    ensures d >= 1.0
  {
    MaxReal(1.0, net.sRttNtp as real / 1966.0)
  }

  /** The marking fraction that the average queue delay stands for. */
  function VirtualAlpha(net: Net): (r: real)
    requires Sane(net)
    ensures 0.0 <= r <= 1.0
    ensures net.queueDelayAvg <= net.queueDelayTarget / 2.0 ==> r == 0.0
  {
    var half := net.queueDelayTarget / 2.0;
    var a := MinReal(1.0, MaxReal(0.0, (net.queueDelayAvg - half) / half));
    assert net.queueDelayAvg <= half ==> a == 0.0 by {
      if net.queueDelayAvg <= half {
        QuotientSign(net.queueDelayAvg - half, half);
      }
    }
    DivideDown(a, RttScale(net));
    a / RttScale(net)
  }

  lemma QuotientSign(a: real, d: real)
    requires d > 0.0 && a <= 0.0
    ensures a / d <= 0.0
  {
  }

  /** Linear from 0 at half the target to 1 at the target, spread over the round trips longer than 30 ms. */
  lemma VirtualAlphaIs(net: Net)
    requires Sane(net) && net.queueDelayAvg >= net.queueDelayTarget / 2.0
    ensures var beyond := MinReal(net.queueDelayAvg, net.queueDelayTarget) - net.queueDelayTarget / 2.0;
            && (net.sRttNtp <= 1966 ==> VirtualAlpha(net) * (net.queueDelayTarget / 2.0) == beyond)
            && (net.sRttNtp >= 1966 ==>
                  VirtualAlpha(net) * (net.sRttNtp as real / 1966.0) * (net.queueDelayTarget / 2.0) == beyond)
  {
    var half, d := net.queueDelayTarget / 2.0, RttScale(net);
    var q := (net.queueDelayAvg - half) / half;
    assert q * half == net.queueDelayAvg - half;
    QuotientIff(net.queueDelayAvg - half, half, 0.0);
    QuotientIff(net.queueDelayAvg - half, half, 1.0);
    var a := MinReal(1.0, MaxReal(0.0, q));
    assert a / d * d == a;
    assert net.sRttNtp <= 1966 ==> net.sRttNtp as real / 1966.0 <= 1.0;
    assert net.sRttNtp >= 1966 ==> net.sRttNtp as real / 1966.0 >= 1.0;
  }

  // ---------- Reaction ----------

  /** How near the window is to the inflexion point, as a scale factor. */
  function Closeness(cwnd: int, cwndI: int): (r: real)
    requires cwndI >= 1
    ensures 0.1 <= r <= 1.0
    ensures cwnd == cwndI ==> r == 0.1
  {
    var x := (cwnd - cwndI) as real / cwndI as real * 8.0;
    MaxReal(0.1, MinReal(1.0, x * x))
  }

  /** The square of eight times the relative distance: 1 from an eighth of the inflexion point on. */
  lemma ClosenessIs(cwnd: int, cwndI: int)
    requires cwndI >= 1
    ensures var (r, d, n) := (Closeness(cwnd, cwndI), (cwnd - cwndI) as real, cwndI as real);
            && (8.0 * d >= n || 8.0 * d <= -n ==> r == 1.0)
            && (-n <= 8.0 * d <= n ==> r == 0.1 || r * n * n == 64.0 * d * d)
            && (r == 0.1 ==> 64.0 * d * d <= 0.1 * n * n)
  {
    var d, n := (cwnd - cwndI) as real, cwndI as real;
    var x := d / n * 8.0;
    assert x * n == 8.0 * d;
    assert x * x * n * n == (x * n) * (x * n);
    SquareOrder(x, n, 8.0 * d);
    assert (0.1 - x * x) * (n * n) == 0.1 * n * n - 64.0 * d * d;
    if x * x <= 0.1 {
      assert n * n > 0.0;
      SignOf(0.1 - x * x, n * n);
    }
  }

  lemma SquareOrder(x: real, n: real, y: real)
    requires n > 0.0 && x * n == y
    ensures y >= n ==> x * x >= 1.0
    ensures y <= -n ==> x * x >= 1.0
    ensures -n <= y <= n ==> x * x <= 1.0
  {
    if x > 1.0 {
      assert (x - 1.0) * n > 0.0;
      assert (x - 1.0) * x > 0.0;
    } else if x < -1.0 {
      assert (-1.0 - x) * n > 0.0;
      assert (-1.0 - x) * -x > 0.0;
    } else {
      assert (1.0 - x) * n >= 0.0 && (x + 1.0) * n >= 0.0;
      assert (1.0 - x) * (1.0 + x) >= 0.0;
    }
  }

  /** The packet size relative to the window. */
  function Ratio(mss: int, cwnd: int): real
    requires cwnd >= 1
  {
    mss as real / cwnd as real
  }

  /** The tolerated deviation of the queue delay. */
  function DelayTolerance(cwndRatio: real): (r: real)
    ensures r >= 0.05
  {
    MaxReal(0.05, 0.1 * (1.0 - cwndRatio / 0.1))
  }

  /** 100 ms less the packet's share of the window, but at least 50 ms. */
  lemma DelayToleranceIs(cwndRatio: real)
    ensures DelayTolerance(cwndRatio) == MaxReal(0.05, 0.1 - cwndRatio)
  {
  }

  /** What is left of the tolerance, relative to it. */
  function Steadiness(tolerance: real, dev: real): (r: real)
    requires tolerance > 0.0 && dev >= 0.0
    ensures r <= 1.0
    ensures dev == 0.0 ==> r == 1.0
    ensures dev >= tolerance ==> r <= 0.0
  {
    QuotientSplit(tolerance, dev);
    (tolerance - dev) / tolerance
  }

  lemma QuotientSplit(a: real, b: real)
    requires a > 0.0
    ensures (a - b) / a == 1.0 - b / a
    ensures b >= 0.0 ==> b / a >= 0.0
    ensures b >= a ==> b / a >= 1.0
  {
    var u, v := b / a, (a - b) / a;
    assert u * a == b && v * a == a - b;
    assert (v - (1.0 - u)) * a == 0.0;
    NoZeroDivisors(v - (1.0 - u), a);
  }

  /** The headroom over the congestion window stays between 1.5 and the configured maximum. */
  function Headroom(most: real, tolerance: real, dev: real): (r: real)
    requires most >= 1.5 && tolerance > 0.0 && dev >= 0.0
    ensures 1.5 <= r <= most
    ensures dev == 0.0 ==> r == most
    ensures dev >= tolerance ==> r == 1.5
  {
    1.5 + Portion(most - 1.5, MaxReal(0.0, Steadiness(tolerance, dev)))
  }

  /** In between, the headroom falls linearly with the deviation. */
  lemma HeadroomIs(most: real, tolerance: real, dev: real)
    requires most >= 1.5 && 0.0 <= dev <= tolerance && tolerance > 0.0
    ensures Steadiness(tolerance, dev) * tolerance == tolerance - dev
    ensures (Headroom(most, tolerance, dev) - 1.5) * tolerance == (most - 1.5) * (tolerance - dev)
  {
    var q := Steadiness(tolerance, dev);
    assert q * tolerance == tolerance - dev;
    QuotientIff(tolerance - dev, tolerance, 0.0);
    assert (most - 1.5) * q * tolerance == (most - 1.5) * (q * tolerance);
  }

  /** Less back-off while the encoders ask for less than what arrives (with the fraction 0 that the source sets). */
  function Eased(backOff: real, net: Net): (r: real)
    requires backOff >= 0.0
    ensures 0.0 <= r <= backOff
  {
    if net.targetBitrate < net.ackedBitrate * 0.0 then backOff * 0.25 else backOff
  }

  function VirtualBackOff(alpha: real, net: Net): (r: real)
    requires 0.0 <= alpha <= 1.0
    ensures 0.0 <= r <= alpha / 2.0
  {
    var b := Eased(alpha / 2.0, net);
    DivideDown(b, RttScale(net));
    b / RttScale(net)
  }

  /** The L4S back-off: at most half the marking average, less on long round trips, less near the inflexion point. */
  function L4sBackOff(alpha: real, net: Net, sclI: real, tolerance: real): (r: real)
    requires 0.0 <= alpha <= 1.0 && sclI <= 1.0 && tolerance > 0.0 && net.queueDelayDev >= 0.0
    ensures 0.0 <= r <= alpha / 2.0
  {
    var b := VirtualBackOff(alpha, net);
    if net.queueDelay < net.queueDelayTarget * 0.25 then
      var near, steady := MaxReal(0.25, sclI), MinReal(1.0, MaxReal(0.25, Steadiness(tolerance, net.queueDelayDev)));
      Portion(Portion(b, near), steady)
    else b
  }

  /** Half the marking average, over the round trips longer than 30 ms that one back-off is spread over. */
  function PlainBackOff(alpha: real, net: Net): real
  {
    alpha / 2.0 / RttScale(net)
  }

  /** Half the average on round trips up to 30 ms; on longer ones the back-offs of one round trip add up to it. */
  lemma PlainBackOffIs(alpha: real, net: Net)
    ensures net.sRttNtp <= 1966 ==> PlainBackOff(alpha, net) == alpha / 2.0
    ensures net.sRttNtp >= 1966 ==> PlainBackOff(alpha, net) * (net.sRttNtp as real / 1966.0) == alpha / 2.0
  {
    var d := RttScale(net);
    assert net.sRttNtp <= 1966 ==> net.sRttNtp as real / 1966.0 <= 1.0;
    assert net.sRttNtp >= 1966 ==> net.sRttNtp as real / 1966.0 >= 1.0;
    assert alpha / 2.0 / d * d == alpha / 2.0;
  }

  /** With a target rate that is not negative, as every target rate is, the back-off is never eased. */
  lemma VirtualBackOffIs(alpha: real, net: Net)
    requires 0.0 <= alpha <= 1.0 && net.targetBitrate >= 0.0
    ensures VirtualBackOff(alpha, net) == PlainBackOff(alpha, net)
  {
  }

  /** The L4S back-off is the plain one while the queue delay is a quarter of the target or more. Below that it is the plain
      one times max(1/4, sclI) near the inflexion point and times what is left of the delay tolerance, at least 1/4; so it
      is never less than a sixteenth of the plain one, and in proportion to sclI between, with a steady delay. */
  lemma L4sBackOffIs(alpha: real, net: Net, sclI: real, tolerance: real)
    requires 0.0 <= alpha <= 1.0 && 0.0 <= sclI <= 1.0 && tolerance > 0.0 && net.queueDelayDev >= 0.0
    requires net.targetBitrate >= 0.0
    ensures var r, plain := L4sBackOff(alpha, net, sclI, tolerance), PlainBackOff(alpha, net);
            && plain / 16.0 <= r <= plain
            && (net.queueDelay >= net.queueDelayTarget * 0.25 ==> r == plain)
            && (net.queueDelay < net.queueDelayTarget * 0.25 ==>
                  && (sclI >= 0.25 && net.queueDelayDev == 0.0 ==> r == Times(plain, sclI))
                  && (sclI <= 0.25 && net.queueDelayDev == 0.0 ==> r == plain / 4.0)
                  && (sclI == 1.0 && net.queueDelayDev >= tolerance ==> r == plain / 4.0)
                  && (sclI <= 0.25 && net.queueDelayDev >= tolerance ==> r == plain / 16.0))
  {
    hide PlainBackOff, VirtualBackOff, Portion, Steadiness;
    VirtualBackOffIs(alpha, net);
    var b := VirtualBackOff(alpha, net);
    var near, steady := MaxReal(0.25, sclI), MinReal(1.0, MaxReal(0.25, Steadiness(tolerance, net.queueDelayDev)));
    AtLeast(b, near, 0.25, Portion(b, near));
    AtLeast(Portion(b, near), steady, 0.25, Portion(Portion(b, near), steady));
    PortionIs(b, near);
    PortionIs(Portion(b, near), steady);
  }

  lemma PortionIs(a: real, f: real)
    requires 0.0 <= f <= 1.0
    ensures f == 1.0 ==> Portion(a, f) == a
    ensures f == 0.25 ==> Portion(a, f) == a / 4.0
    ensures Portion(a, f) == Times(a, f)
  {
  }

  /** More marking, more back-off. */
  lemma L4sBackOffGrows(alpha: real, beta: real, net: Net, sclI: real, tolerance: real)
    requires 0.0 <= alpha <= beta <= 1.0 && 0.0 <= sclI <= 1.0 && tolerance > 0.0 && net.queueDelayDev >= 0.0
    ensures L4sBackOff(alpha, net, sclI, tolerance) <= L4sBackOff(beta, net, sclI, tolerance)
  {
    hide Portion, Steadiness, Eased;
    EasedGrows(alpha / 2.0, beta / 2.0, net);
    QuotientGrows(Eased(alpha / 2.0, net), Eased(beta / 2.0, net), RttScale(net));
    var a, b := VirtualBackOff(alpha, net), VirtualBackOff(beta, net);
    var near, steady := MaxReal(0.25, sclI), MinReal(1.0, MaxReal(0.25, Steadiness(tolerance, net.queueDelayDev)));
    PortionGrows(a, b, near);
    PortionGrows(Portion(a, near), Portion(b, near), steady);
  }

  lemma EasedGrows(a: real, b: real, net: Net)
    requires 0.0 <= a <= b
    ensures Eased(a, net) <= Eased(b, net)
  {
  }

  lemma QuotientGrows(a: real, b: real, d: real)
    requires a <= b && d >= 1.0
    ensures a / d <= b / d
  {
    DivideDown(b - a, d);
    assert b / d - a / d == (b - a) / d;
  }

  lemma PortionGrows(a: real, b: real, f: real)
    requires a <= b && 0.0 <= f <= 1.0
    ensures Portion(a, f) <= Portion(b, f)
  {
    ScaleDown(b - a, f, (b - a) * f);
    assert b * f - a * f == (b - a) * f;
  }

  /** A window backed off by at least b ends at most at (1 - b) of the start, or at the minimum. */
  lemma ScaledLowers(start: int, backOff: real, least: real, cwndMin: int)
    requires start >= 0 && least <= backOff <= 1.0
    ensures Scaled(start, 1.0 - backOff, cwndMin) as real <= MaxReal(cwndMin as real, Times(1.0 - least, start as real))
  {
    var w := start as real;
    SignOf(w, 1.0 - backOff);
    SignOf(w, backOff - least);
    assert (1.0 - backOff) * w == Times(w, 1.0 - backOff);
    assert Times(1.0 - least, w) == Times(w, 1.0 - backOff) + Times(w, backOff - least);
    hide Times;
  }

  /** A window scaled by a factor, not below the minimum. */
  function Scaled(cwnd: int, factor: real, cwndMin: int): int {
    Max(cwndMin, Truncate(factor * cwnd as real))
  }

  /** A factor of at least one half takes the window no lower than half, and no factor up to one raises it. */
  lemma ScaledBounds(cwnd: int, factor: real, cwndMin: int)
    requires cwnd >= 0 && 0.5 <= factor <= 1.0
    ensures Max(cwndMin, cwnd / 2) <= Scaled(cwnd, factor, cwndMin) <= Max(cwndMin, cwnd)
  {
    var x := factor * cwnd as real;
    assert 0.5 * cwnd as real <= x <= cwnd as real by {
      ScaleDown(cwnd as real, factor, x);
      ScaleDown(cwnd as real, factor - 0.5, x - 0.5 * cwnd as real);
    }
    FloorBetween(x, cwnd / 2, cwnd);
  }

  lemma FloorBetween(x: real, lo: int, hi: int)
    requires 0 <= lo && lo as real <= x <= hi as real
    ensures lo <= Truncate(x) <= hi
  {
  }

  // ---------- Increment ----------

  /** What the three limits leave of an increment. */
  function Limited(x: real, net: Net, sclI: real, tolerance: real): (r: real)
    requires Sane(net) && sclI <= 1.0 && tolerance > 0.0
    ensures x >= 0.0 ==> 0.0 <= r <= x
    ensures x <= 0.0 ==> x <= r <= 0.0
  {
    var near := MaxReal(0.25, sclI);
    var short := MinReal(1.0, net.sRtt / 0.025);
    var steady := MinReal(1.0, MaxReal(0.1, Steadiness(tolerance, net.queueDelayDev)));
    assert net.sRtt / 0.025 > 0.0;
    Portion(Portion(Portion(x, near), short), steady)
  }

  /** The window in packets, times the multiplicative increase factor. */
  function Multiplicative(cwnd: int, mss: int, scale: real): (t: real)
    requires mss >= 1 && cwnd >= 0 && scale >= 0.0
    ensures t >= 0.0
  {
    assert scale * cwnd as real >= 0.0;
    scale * cwnd as real / mss as real
  }

  /** The multiplicative part: 1 right after congestion, up to 1 + scale * cwnd / mss when there was none for long. */
  function Growth(cwnd: int, mss: int, scale: real, post: real, sclI: real): (g: real)
    requires mss >= 1 && cwnd >= 0 && scale >= 0.0 && 0.0 <= post <= 1.0 && 0.0 <= sclI <= 1.0
    ensures 1.0 <= g <= 1.0 + Multiplicative(cwnd, mss, scale)
    ensures post == 0.0 ==> g == 1.0
  {
    1.0 + Portion(Portion(Multiplicative(cwnd, mss, scale), post), sclI)
  }

  /** The increment before rounding: acked is what was acknowledged minus what was CE marked. */
  function Increment(acked: int, ratio: real, cwnd: int, mss: int, scale: real, post: real, sclI: real,
                     net: Net, tolerance: real): real
    requires Sane(net) && 0.0 <= sclI <= 1.0 && tolerance > 0.0
    requires mss >= 1 && cwnd >= 0 && scale >= 0.0 && 0.0 <= post <= 1.0
  {
    Times(Limited(Times(acked as real, ratio), net, sclI, tolerance), Growth(cwnd, mss, scale, post, sclI))
  }

  /** a bytes of growth per byte of window and mss, and the multiplicative part on top. */
  function Steepest(mss: int, base: int, scale: real): (r: real)
    requires mss >= 1 && base >= 1 && scale >= 0.0
    ensures r >= 0.0
  {
    mss as real / base as real + scale
  }

  /** A product, kept whole in longer arguments. */
  function Times(a: real, b: real): real { a * b }

  lemma ProductUp(x: real, y: real, g: real, h: real)
    requires 1.0 <= g <= h && 0.0 <= y <= x
    ensures 0.0 <= Times(y, g) <= Times(x, h)
  {
    hide Times;
    TimesMonotone(y, x, g, g);
    TimesMonotone(x, x, g, h);
  }

  lemma TimesMonotone(a: real, b: real, p: real, q: real)
    requires 0.0 <= a <= b && 0.0 <= p <= q
    ensures 0.0 <= Times(a, p) <= Times(b, q)
  {
    assert (b - a) * p >= 0.0;
    assert b * (q - p) >= 0.0;
    assert b * q - a * p == (b - a) * p + b * (q - p);
  }

  lemma Negate(x: real, h: real)
    ensures Times(-x, h) == -Times(x, h)
  {
    assert (0.0 - x) * h == 0.0 * h - x * h;
  }

  lemma ProductBetween(x: real, y: real, g: real, h: real)
    requires 1.0 <= g <= h
    requires x >= 0.0 ==> 0.0 <= y <= x
    requires x <= 0.0 ==> x <= y <= 0.0
    ensures x >= 0.0 ==> 0.0 <= Times(y, g) <= Times(x, h)
    ensures x <= 0.0 ==> Times(x, h) <= Times(y, g) <= 0.0
  {
    hide Times;
    if x >= 0.0 {
      ProductUp(x, y, g, h);
    }
    if x <= 0.0 {
      ProductUp(-x, -y, g, h);
      Negate(x, h);
      Negate(y, g);
    }
  }

  /** ratio * (1 + scale * base / mss) = mss / base + scale. */
  lemma SteepestIs(mss: int, base: int, scale: real)
    requires mss >= 1 && base >= 1 && scale >= 0.0
    ensures Times(Ratio(mss, base), 1.0 + Multiplicative(base, mss, scale)) == Steepest(mss, base, scale)
  {
    var m, b := mss as real, base as real;
    assert m / b * (scale * b / m) == scale by {
      var u, w := m / b, scale * b / m;
      assert u * b == m && w * m == scale * b;
      assert u * w * (b * m) == m * scale * b;
      assert (u * w - scale) * (b * m) == 0.0;
      assert b * m > 0.0;
      NoZeroDivisors(u * w - scale, b * m);
    }
    assert m / b * (1.0 + scale * b / m) == m / b + m / b * (scale * b / m);
  }

  lemma NoZeroDivisors(a: real, b: real)
    requires a * b == 0.0 && b != 0.0
    ensures a == 0.0
  {
  }

  /** Per byte acknowledged and not CE marked, the window grows by at most mss / base + scale; a surplus of CE marked
      bytes shrinks it by no more than that. base is the window that the ratio was computed from. */
  lemma IncrementBounds(acked: int, base: int, cwnd: int, mss: int, scale: real, post: real, sclI: real,
                        net: Net, tolerance: real)
    requires Sane(net) && 0.0 <= sclI <= 1.0 && tolerance > 0.0
    requires mss >= 1 && base >= 1 && cwnd >= 0 && scale >= 0.0 && 0.0 <= post <= 1.0
    requires cwnd == base || post == 0.0
    ensures var inc := Increment(acked, Ratio(mss, base), cwnd, mss, scale, post, sclI, net, tolerance);
            var most := Times(acked as real, Steepest(mss, base, scale));
            (acked >= 0 ==> 0.0 <= inc <= most) && (acked <= 0 ==> most <= inc <= 0.0)
  {
    hide *;
    var a, ratio := acked as real, Ratio(mss, base);
    var x, y := Times(a, ratio), Limited(Times(a, ratio), net, sclI, tolerance);
    var g, h := Growth(cwnd, mss, scale, post, sclI), 1.0 + Multiplicative(base, mss, scale);
    GrowthBelow(cwnd, base, mss, scale, post, sclI);
    ProductBetween(x, y, g, h);
    SteepestIs(mss, base, scale);
    Associate(a, ratio, h);
    RatioPositive(mss, base);
    SignOf(a, ratio);
    SignOf(a, Steepest(mss, base, scale));
    IncrementIs(acked, ratio, cwnd, mss, scale, post, sclI, net, tolerance);
  }

  /** The three limits: a quarter to all near the inflexion point, in proportion on round trips under 25 ms, and a tenth to all
      by what is left of the delay tolerance. */
  lemma LimitedIs(x: real, net: Net, sclI: real, tolerance: real)
    requires Sane(net) && sclI <= 1.0 && tolerance > 0.0
    ensures var near := if sclI < 0.25 then 0.25 else sclI;
            var short := if net.sRtt < 0.025 then 40.0 * net.sRtt else 1.0;
            var steady := if Steadiness(tolerance, net.queueDelayDev) < 0.1 then 0.1 else Steadiness(tolerance, net.queueDelayDev);
            Limited(x, net, sclI, tolerance) == Times(Times(Times(x, near), short), steady)
  {
    hide Steadiness;
  }

  /** Without congestion for long, far from the inflexion point and with a steady delay, a round trip in which the whole window
      is acknowledged adds one packet, and the configured fraction of the window. */
  lemma IncrementPerRound(cwnd: int, mss: int, scale: real, net: Net, tolerance: real)
    requires Sane(net) && net.sRtt >= 0.025 && net.queueDelayDev == 0.0 && tolerance > 0.0
    requires mss >= 1 && cwnd >= 1 && scale >= 0.0
    ensures Increment(cwnd, Ratio(mss, cwnd), cwnd, mss, scale, 1.0, 1.0, net, tolerance)
            == mss as real + Times(scale, cwnd as real)
  {
    var a, ratio := cwnd as real, Ratio(mss, cwnd);
    LimitedIs(Times(a, ratio), net, 1.0, tolerance);
    GrowthIs(cwnd, mss, scale, 1.0, 1.0);
    IncrementIs(cwnd, ratio, cwnd, mss, scale, 1.0, 1.0, net, tolerance);
    Associate(a, ratio, 1.0 + Multiplicative(cwnd, mss, scale));
    SteepestIs(mss, cwnd, scale);
    assert Times(a, Steepest(mss, cwnd, scale)) == mss as real + scale * a by {
      assert mss as real / a * a == mss as real;
    }
    hide Limited, Growth;
  }

  lemma GrowthIs(cwnd: int, mss: int, scale: real, post: real, sclI: real)
    requires mss >= 1 && cwnd >= 0 && scale >= 0.0 && 0.0 <= post <= 1.0 && 0.0 <= sclI <= 1.0
    ensures Growth(cwnd, mss, scale, post, sclI) == 1.0 + Times(Times(Multiplicative(cwnd, mss, scale), post), sclI)
    ensures Multiplicative(cwnd, mss, scale) * mss as real == scale * cwnd as real
  {
  }

  /** The limits leave at least a fortieth of an increment, on round trips of 25 ms and more. */
  lemma LimitedLeaves(x: real, net: Net, sclI: real, tolerance: real)
    requires Sane(net) && net.sRtt >= 0.025 && sclI <= 1.0 && tolerance > 0.0
    ensures x >= 0.0 ==> Limited(x, net, sclI, tolerance) >= 0.025 * x
    ensures x <= 0.0 ==> Limited(x, net, sclI, tolerance) <= 0.025 * x
  {
    hide Portion, Steadiness;
    var near := MaxReal(0.25, sclI);
    var short := MinReal(1.0, net.sRtt / 0.025);
    var steady := MinReal(1.0, MaxReal(0.1, Steadiness(tolerance, net.queueDelayDev)));
    assert net.sRtt / 0.025 >= 1.0;
    var a, b := Portion(x, near), Portion(Portion(x, near), short);
    AtLeast(x, near, 0.25, a);
    AtLeast(a, short, 1.0, b);
    AtLeast(b, steady, 0.1, Portion(b, steady));
  }

  lemma AtLeast(x: real, f: real, least: real, r: real)
    requires 0.0 <= least <= f <= 1.0 && r == Portion(x, f)
    ensures x >= 0.0 ==> r >= least * x
    ensures x <= 0.0 ==> r <= least * x
  {
    var d := f - least;
    assert r - least * x == x * d;
    SignOf(x, d);
  }

  /** On such round trips the increment is, in either direction, at least a fortieth of the bytes per byte of window. */
  lemma IncrementAtLeast(acked: int, base: int, cwnd: int, mss: int, scale: real, post: real, sclI: real, net: Net,
                         tolerance: real)
    requires Sane(net) && net.sRtt >= 0.025 && 0.0 <= sclI <= 1.0 && tolerance > 0.0
    requires mss >= 1 && base >= 1 && cwnd >= 0 && scale >= 0.0 && 0.0 <= post <= 1.0
    ensures var inc := Increment(acked, Ratio(mss, base), cwnd, mss, scale, post, sclI, net, tolerance);
            var least := 0.025 * Times(acked as real, Ratio(mss, base));
            (acked >= 0 ==> inc >= least) && (acked <= 0 ==> inc <= least)
  {
    hide Limited, Growth, Ratio, Times;
    var x := Times(acked as real, Ratio(mss, base));
    var g, y := Growth(cwnd, mss, scale, post, sclI), Limited(x, net, sclI, tolerance);
    RatioPositive(mss, base);
    SignOf(acked as real, Ratio(mss, base));
    LimitedLeaves(x, net, sclI, tolerance);
    IncrementIs(acked, Ratio(mss, base), cwnd, mss, scale, post, sclI, net, tolerance);
    AtLeastOnce(y, g);
  }

  lemma AtLeastOnce(y: real, g: real)
    requires g >= 1.0
    ensures y >= 0.0 ==> Times(y, g) >= y
    ensures y <= 0.0 ==> Times(y, g) <= y
  {
    assert Times(y, g) - y == y * (g - 1.0);
    SignOf(y, g - 1.0);
  }

  lemma RatioPositive(mss: int, base: int)
    requires mss >= 1 && base >= 1
    ensures Ratio(mss, base) > 0.0
  {
  }

  lemma GrowthBelow(cwnd: int, base: int, mss: int, scale: real, post: real, sclI: real)
    requires mss >= 1 && base >= 1 && cwnd >= 0 && scale >= 0.0 && 0.0 <= post <= 1.0 && 0.0 <= sclI <= 1.0
    requires cwnd == base || post == 0.0
    ensures 1.0 <= Growth(cwnd, mss, scale, post, sclI) <= 1.0 + Multiplicative(base, mss, scale)
  {
    hide Growth, Multiplicative;
  }

  lemma Associate(a: real, r: real, h: real)
    ensures Times(Times(a, r), h) == Times(a, Times(r, h))
  {
  }

  lemma IncrementIs(acked: int, ratio: real, cwnd: int, mss: int, scale: real, post: real, sclI: real,
                    net: Net, tolerance: real)
    requires Sane(net) && 0.0 <= sclI <= 1.0 && tolerance > 0.0
    requires mss >= 1 && cwnd >= 0 && scale >= 0.0 && 0.0 <= post <= 1.0
    ensures Increment(acked, ratio, cwnd, mss, scale, post, sclI, net, tolerance)
            == Times(Limited(Times(acked as real, ratio), net, sclI, tolerance), Growth(cwnd, mss, scale, post, sclI))
  {
    hide Limited, Growth;
  }

  lemma SignOf(a: real, r: real)
    requires r >= 0.0
    ensures a >= 0.0 ==> Times(a, r) >= 0.0
    ensures a <= 0.0 ==> Times(a, r) <= 0.0
  {
    assert a <= 0.0 ==> -a * r >= 0.0;
  }

  // ---------- The median ----------

  /** Median of three. */
  function Median(a: int, b: int, c: int): (m: int)
    ensures m == a || m == b || m == c
    ensures (a <= m && b <= m) || (a <= m && c <= m) || (b <= m && c <= m)
    ensures (a >= m && b >= m) || (a >= m && c >= m) || (b >= m && c >= m)
  {
    Max(Min(a, b), Min(Max(a, b), c))
  }
}
