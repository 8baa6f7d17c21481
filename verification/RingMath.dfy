/** Index arithmetic of the ring overlay: clockwise distance, finger jumps and
    the potential that bounds the number of hops. */
module RingMath {

  function Pow2(e: nat): (p: nat)
    ensures p >= 1
  {
    if e == 0 then 1 else 2 * Pow2(e - 1)
  }

  lemma {:induction false} Pow2Monotone(a: nat, b: nat)
    requires a <= b
    ensures Pow2(a) <= Pow2(b)
    ensures a < b ==> 2 * Pow2(a) <= Pow2(b)
  {
    if a < b { Pow2Monotone(a, b - 1); }
  }

  /** `int(math.Log2(n))`. */
  function FloorLog2(n: nat): (k: nat)
    requires n >= 1
    ensures Pow2(k) <= n < Pow2(k + 1)
  {
    if n == 1 then 0 else 1 + FloorLog2(n / 2)
  }

  /** Clockwise distance from index a to index b on a ring of size n. */
  function RingDistance(a: int, b: int, n: int): (d: int)
    ensures 0 <= a < n && 0 <= b < n ==> 0 <= d < n && (d == 0 <==> a == b)
  {
    var d := b - a;
    if d < 0 then d + n else d
  }

  /** Number of finger table entries on a ring of size n. */
  function FingerCount(n: nat): (k: nat)
  {
    if n <= 2 then 0 else FloorLog2(n)
  }

  lemma MulMonotone(a: int, b: int, n: nat)
    requires a <= b
    ensures a * n <= b * n
  {}

  lemma WrapAround(x: int, n: int)
    requires 0 <= x < 2 * n
    ensures x % n == if x < n then x else x - n
  {
    var q := x / n;
    assert x == q * n + x % n;
    if q >= 2 { MulMonotone(2, q, n); }
    if q <= -1 { MulMonotone(q, -1, n); }
    assert q == 0 || q == 1;
  }

  lemma FingersFit(n: nat, b: nat)
    requires b < FingerCount(n)
    ensures 1 <= Pow2(b) < n
  {
    Pow2Monotone(b, FloorLog2(n) - 1);
  }

  /** The index s places clockwise of i. */
  function Ahead(i: int, s: int, n: int): (c: int)
    ensures 0 <= i < n && 0 <= s < n ==> 0 <= c < n
  {
    if i + s < n then i + s else i + s - n
  }

  /** The index s places counter-clockwise of i. */
  function Behind(i: int, s: int, n: int): (c: int)
    ensures 0 <= i < n && 0 <= s < n ==> 0 <= c < n
  {
    if s <= i then i - s else i - s + n
  }

  lemma SlotAhead(i: int, s: int, n: int)
    requires 0 <= i < n && 0 <= s < n
    ensures (i + s) % n == Ahead(i, s, n)
  {
    WrapAround(i + s, n);
  }

  lemma SlotBehind(i: int, s: int, n: int)
    requires 0 <= i < n && 0 <= s < n
    ensures (i - s + n) % n == Behind(i, s, n)
  {
    WrapAround(i - s + n, n);
  }

  /** Moving s places clockwise shortens the distance to j by s, unless it overshoots. */
  lemma ClockwiseStep(i: int, j: int, s: int, n: int)
    requires 0 <= i < n && 0 <= j < n && 0 <= s < n
    ensures var d := RingDistance(i, j, n);
            RingDistance(Ahead(i, s, n), j, n) == if s <= d then d - s else d - s + n
  {}

  // --- next hops ---

  /** Index of the b-th finger of i: never i itself. */
  function FingerAt(i: int, b: nat, n: nat): (c: int)
    requires 0 <= i < n && b < FingerCount(n)
    ensures 0 <= c < n && c != i
  {
    FingersFit(n, b);
    Ahead(i, Pow2(b), n)
  }

  lemma FingersDiffer(i: int, a: nat, b: nat, n: nat)
    requires 0 <= i < n && a < b < FingerCount(n)
    ensures FingerAt(i, a, n) != FingerAt(i, b, n)
  {
    Pow2Monotone(a, b);
    FingersFit(n, b);
  }

  ghost predicate IsFinger(i: int, n: nat, c: int)
    requires 0 <= i < n
  {
    exists b: nat :: b < FingerCount(n) && c == FingerAt(i, b, n)
  }

  ghost predicate IsNeighbour(i: int, n: nat, fanout: nat, c: int)
  {
    exists m: nat :: 1 <= m <= fanout && IsNeighbourAt(i, n, m, c)
  }

  ghost predicate IsNeighbourAt(i: int, n: nat, m: nat, c: int)
  {
    c == Ahead(i, m, n) || c == Behind(i, m, n)
  }

  ghost predicate IsCandidate(i: int, n: nat, fanout: nat, c: int)
    requires 0 <= i < n
  {
    IsFinger(i, n, c) || IsNeighbour(i, n, fanout, c)
  }

  /** h is the index a greedy router at index i picks for a message to index j. */
  ghost predicate IsNextHop(i: int, j: int, n: nat, fanout: nat, h: int)
    requires 0 <= i < n
  {
    && 0 <= h < n
    && if RingDistance(i, j, n) <= fanout then h == j
       else
         && IsCandidate(i, n, fanout, h)
         && forall c | 0 <= c < n && IsCandidate(i, n, fanout, c) ::
              RingDistance(h, j, n) <= RingDistance(c, j, n)
  }

  /** Distinct ring positions have distinct distances to j, so the greedy choice is unique. */
  lemma NextHopUnique(i: int, j: int, n: nat, fanout: nat, h1: int, h2: int)
    requires 0 <= i < n && 0 <= j < n
    requires IsNextHop(i, j, n, fanout, h1) && IsNextHop(i, j, n, fanout, h2)
    ensures h1 == h2
  {
    if RingDistance(i, j, n) > fanout {
      assert RingDistance(h1, j, n) == RingDistance(h2, j, n);
    }
  }

  /** A hop gets at least as close as every finger that does not overshoot. */
  lemma HopBeatsFinger(i: int, j: int, n: nat, fanout: nat, h: int, b: nat)
    requires 0 <= i < n && 0 <= j < n && IsNextHop(i, j, n, fanout, h)
    requires b < FingerCount(n) && Pow2(b) <= RingDistance(i, j, n)
    ensures RingDistance(h, j, n) <= RingDistance(i, j, n) - Pow2(b)
  {
    FingersFit(n, b);
    ClockwiseStep(i, j, Pow2(b), n);
    assert IsFinger(i, n, FingerAt(i, b, n));
  }

  /** Every hop strictly decreases the clockwise distance to the target. */
  lemma HopProgress(i: int, j: int, n: nat, fanout: nat, h: int)
    requires 0 <= i < n && 0 <= j < n && i != j && fanout >= 1
    requires IsNextHop(i, j, n, fanout, h)
    ensures RingDistance(h, j, n) < RingDistance(i, j, n)
  {
    if RingDistance(i, j, n) > fanout {
      assert Pow2(0) == 1 && Pow2(1) == 2;
      assert FingerCount(n) >= 1;
      HopBeatsFinger(i, j, n, fanout, h, 0);
    }
  }

  // --- the hop bound ---

  /** Upper bound on the hops still needed at distance d, where k = FloorLog2(n). */
  function HopRank(d: nat, k: nat): (r: nat)
    ensures r == 0 <==> d == 0
  {
    if d == 0 then 0
    else if d < Pow2(k) then FloorLog2(d) + 1
    else if k >= 1 && d < 3 * Pow2(k - 1) then k + 1
    else k + 2
  }

  lemma HopRankBound(d: nat, n: nat)
    requires d < n
    ensures HopRank(d, FloorLog2(n)) <= FloorLog2(n) + 2
  {
    var k := FloorLog2(n);
    if 0 < d < Pow2(k) && FloorLog2(d) >= k { Pow2Monotone(k, FloorLog2(d)); }
  }

  /** Below distance 2^e the rank is at most e. */
  lemma HopRankBelow(d: nat, e: nat, k: nat)
    requires d < Pow2(e) && e <= k
    ensures HopRank(d, k) <= e
  {
    Pow2Monotone(e, k);
    if d > 0 && FloorLog2(d) >= e { Pow2Monotone(e, FloorLog2(d)); }
  }

  lemma HopRankAtMost(d: nat, k: nat)
    requires k >= 1 && d < 3 * Pow2(k - 1)
    ensures HopRank(d, k) <= k + 1
  {
    if d < Pow2(k) { HopRankBelow(d, k, k); }
  }

  /** Taking the largest finger that does not overshoot clears the top bit of d. */
  lemma NearRankDrops(d: nat, d': nat, k: nat)
    requires 0 < d < Pow2(k) && d' <= d - Pow2(FloorLog2(d))
    ensures FloorLog2(d) < k && HopRank(d', k) < HopRank(d, k)
  {
    var e := FloorLog2(d);
    if e >= k { Pow2Monotone(k, e); }
    HopRankBelow(d', e, k);
  }

  /** Beyond 2^k the longest finger, 2^(k-1), is used at most twice. */
  lemma FarRankDrops(d: nat, d': nat, k: nat)
    requires 1 <= k && Pow2(k) <= d < Pow2(k + 1) && d' <= d - Pow2(k - 1)
    ensures HopRank(d', k) < HopRank(d, k)
  {
    if d < 3 * Pow2(k - 1) { HopRankBelow(d', k, k); } else { HopRankAtMost(d', k); }
  }

  /** The rank drops by at least one at every hop. */
  lemma HopRankDecreases(i: int, j: int, n: nat, fanout: nat, h: int)
    requires 0 <= i < n && 0 <= j < n && i != j && fanout >= 1
    requires IsNextHop(i, j, n, fanout, h)
    ensures HopRank(RingDistance(h, j, n), FloorLog2(n)) < HopRank(RingDistance(i, j, n), FloorLog2(n))
  {
    var k, d, d' := FloorLog2(n), RingDistance(i, j, n), RingDistance(h, j, n);
    if d > fanout {
      assert Pow2(1) == 2;
      assert k >= 1 && FingerCount(n) == k;
      if d < Pow2(k) {
        if FloorLog2(d) >= k { Pow2Monotone(k, FloorLog2(d)); }
        HopBeatsFinger(i, j, n, fanout, h, FloorLog2(d));
        NearRankDrops(d, d', k);
      } else {
        Pow2Monotone(k - 1, k);
        HopBeatsFinger(i, j, n, fanout, h, k - 1);
        FarRankDrops(d, d', k);
      }
    }
  }
}
