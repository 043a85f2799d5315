/** Packet identifier allocation: a 32-bit counter whose low half, with 0 read as 1, is
    advanced until it names an identifier that is not in flight. */
module PacketIds {

  const UINT32 := 0x1_0000_0000
  const IDS := 65536

  /** The identifier a counter value stands for. */
  function PacketId(counter: nat): (id: nat)
    ensures 1 <= id < IDS
  {
    if counter % IDS == 0 then 1 else counter % IDS
  }

  /** The counter after `k` increments, with 32-bit wrap-around. */
  function After(counter: nat, k: nat): (c: nat)
    ensures c < UINT32
  {
    (counter + k) % UINT32
  }

  function IdAfter(counter: nat, k: nat): (id: nat)
    ensures 1 <= id < IDS
  {
    PacketId(After(counter, k))
  }

  predicate AreIds(used: set<nat>)
  {
    forall id :: id in used ==> 1 <= id < IDS
  }

  /** The 32-bit wrap does not disturb the low half. */
  lemma LowHalf(n: nat)
    ensures n % UINT32 % IDS == n % IDS
  {
    var q := n / UINT32;
    assert n == UINT32 * q + n % UINT32;
    var r := n % UINT32;
    assert n == IDS * (IDS * q + r / IDS) + r % IDS;
  }

  function Low(counter: nat, k: nat): nat
  {
    (counter + k) % IDS
  }

  /** The low halves of the first `k` counters tried. */
  function Lows(counter: nat, k: nat): set<nat>
  {
    if k == 0 then {} else Lows(counter, k - 1) + {Low(counter, k)}
  }

  lemma {:induction false} LowsAre(counter: nat, k: nat, low: nat)
    ensures low in Lows(counter, k) <==> exists j :: 1 <= j <= k && low == Low(counter, j)
  {
    if k > 0 { LowsAre(counter, k - 1, low); }
  }

  lemma CloseResiduesDiffer(a: nat, b: nat)
    requires a < b < a + IDS
    ensures a % IDS != b % IDS
  {
    var d := b / IDS - a / IDS;
    assert b - a == IDS * d + (b % IDS - a % IDS);
    assert d <= 0 ==> IDS * d <= 0;
    assert d >= 1 ==> IDS * d >= IDS;
  }

  /** Fewer than 65536 consecutive counters have distinct low halves. */
  lemma {:induction false} LowsDistinct(counter: nat, k: nat)
    requires k <= IDS
    ensures |Lows(counter, k)| == k
  {
    if k > 0 {
      LowsDistinct(counter, k - 1);
      var low := Low(counter, k);
      LowsAre(counter, k - 1, low);
      forall j | 1 <= j <= k - 1 ensures low != Low(counter, j) {
        CloseResiduesDiffer(counter + j, counter + k);
      }
    }
  }

  lemma SubsetSize(a: set<nat>, b: set<nat>)
    requires a <= b
    ensures |a| <= |b|
  {
    assert b == a + (b - a);
  }

  /** The first `k` identifiers tried are all in flight. */
  ghost predicate AllTaken(counter: nat, used: set<nat>, k: nat)
  {
    forall j :: 1 <= j <= k ==> IdAfter(counter, j) in used
  }

  lemma LowsTaken(counter: nat, used: set<nat>, k: nat)
    requires AllTaken(counter, used, k)
    ensures Lows(counter, k) - {0} <= used
  {
    forall low | low in Lows(counter, k) - {0} ensures low in used {
      LowsAre(counter, k, low);
      var j :| 1 <= j <= k && low == Low(counter, j);
      LowHalf(counter + j);
      assert IdAfter(counter, j) == low;
    }
  }

  /** The pigeonhole bound: with f identifiers in flight, at most f + 1 tries can fail. */
  lemma SearchBound(counter: nat, used: set<nat>, k: nat)
    requires |used| < IDS - 1 && AllTaken(counter, used, k)
    ensures k <= |used| + 1
  {
    var n := if k < IDS then k else IDS;
    LowsTaken(counter, used, n);
    LowsDistinct(counter, n);
    var lows := Lows(counter, n);
    SubsetSize(lows - {0}, used);
    assert lows <= (lows - {0}) + {0};
    SubsetSize(lows, (lows - {0}) + {0});
  }

  /** The number of increments the search makes, given that the first `k` failed. */
  ghost function Tries(counter: nat, used: set<nat>, k: nat): (n: nat)
    requires |used| < IDS - 1 && AllTaken(counter, used, k)
    ensures k < n <= |used| + 2
    ensures AllTaken(counter, used, n - 1) && IdAfter(counter, n) !in used
    decreases IDS - k
  {
    SearchBound(counter, used, k);
    if IdAfter(counter, k + 1) in used then Tries(counter, used, k + 1) else k + 1
  }

  /** The identifiers 1 to `n`. */
  function FirstIds(n: nat): (s: set<nat>)
    ensures |s| == n
    ensures forall id :: id in s <==> 1 <= id <= n
  {
    if n == 0 then {} else FirstIds(n - 1) + {n}
  }

  /** With every identifier in flight the search never ends: the bound above is exact. */
  lemma FullNeverFree(counter: nat, used: set<nat>, k: nat)
    requires AreIds(used) && |used| >= IDS - 1
    ensures IdAfter(counter, k) in used
  {
    var id, all := IdAfter(counter, k), FirstIds(IDS - 1);
    assert used <= all;
    if id !in used { SubsetSize(used + {id}, all); }
  }

  /** Two neighbouring counters give the same identifier exactly at the 16-bit wrap. */
  lemma NeighboursCollideIff(counter: nat)
    ensures PacketId(counter) == PacketId(counter + 1) <==> counter % IDS == 0
  {
    if counter % IDS == IDS - 1 {
      assert (counter + 1) % IDS == 0;
    } else {
      assert (counter + 1) % IDS == counter % IDS + 1;
    }
  }
}
