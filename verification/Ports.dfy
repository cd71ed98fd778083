/** The port allocator's arithmetic: a 32-bit counter that wraps, reduced to 40000 ports from 20000 up.
    2^32 is no multiple of 40000, so the sequence of candidate ports jumps at the wrap. */
module Ports {

  const WRAP := 0x1_0000_0000
  const RANGE := 40000
  const BASE := 20000

  /** Candidates left between the last multiple of the range and the wrap. */
  const TAIL := WRAP % RANGE

  /** No free port takes more attempts than this. */
  const BOUND := RANGE + TAIL

  /** The counter after i increments from c. */
  function Tick(c: nat, i: nat): nat {
    (c + i) % WRAP
  }

  lemma TickNext(c: nat, i: nat)
    ensures (Tick(c, i) + 1) % WRAP == Tick(c, i + 1)
  {
  }

  /** The port tried at attempt i. */
  function Candidate(c: nat, i: nat): int {
    Tick(c, i) % RANGE + BASE
  }

  predicate InRange(port: int) {
    BASE <= port < BASE + RANGE
  }

  /** Every port of the range is tried within the bound, wherever the counter starts. */
  lemma Covered(c: nat, port: int) returns (i: nat)
    requires c < WRAP && InRange(port)
    ensures 1 <= i <= BOUND && Candidate(c, i) == port
  {
    var off := port - BASE;
    var direct := (off - (c + 1)) % RANGE + 1;
    assert (c + direct) % RANGE == off by {
      var q := (off - (c + 1)) / RANGE;
      assert c + direct == off - q * RANGE;
      assert (off - q * RANGE) % RANGE == off;
    }
    if c + direct < WRAP {
      i := direct;
    } else {
      i := WRAP - c + off;
      assert Tick(c, i) == off by {
        assert c + i == WRAP + off;
      }
    }
  }

  lemma BeforeLast(i: nat)
    requires 1 <= i < BOUND
    ensures Candidate(WRAP - 1 - TAIL, i) != BASE + RANGE - 1
  {
    var c := WRAP - 1 - TAIL;
    if i <= TAIL {
      assert Tick(c, i) == 107374 * RANGE + (i - 1);
    } else {
      assert Tick(c, i) == i - 1 - TAIL;
    }
  }

  /** The bound is reached: starting 7296 ticks before the wrap, the last port of the range
      is tried at attempt 47296 for the first time. */
  lemma BoundTight() returns (c: nat)
    ensures c < WRAP && Candidate(c, BOUND) == BASE + RANGE - 1
    ensures forall i: nat | 1 <= i < BOUND :: Candidate(c, i) != BASE + RANGE - 1
  {
    c := WRAP - 1 - TAIL;
    forall i: nat | 1 <= i < BOUND
      ensures Candidate(c, i) != BASE + RANGE - 1
    {
      BeforeLast(i);
    }
    assert Tick(c, BOUND) == RANGE - 1;
  }

  ghost predicate Distinct(c: nat, n: nat) {
    forall i: nat, j: nat | 1 <= i < j <= n :: Candidate(c, i) != Candidate(c, j)
  }

  /** How many consecutive candidates after counter value c are pairwise distinct. */
  function WindowLimit(c: nat, n: nat): nat {
    if c + 1 < WRAP <= c + n then TAIL else RANGE
  }

  lemma SameResidue(a: nat, b: nat)
    requires a < b && a % RANGE == b % RANGE
    ensures b - a >= RANGE
  {
  }

  /** Two equal candidates in any window longer than the limit. */
  lemma Collision(c: nat, n: nat) returns (i: nat, j: nat)
    requires c < WRAP && n > WindowLimit(c, n)
    ensures 1 <= i < j <= n && Candidate(c, i) == Candidate(c, j)
  {
    if !(c + 1 < WRAP <= c + n) {
      i, j := 1, RANGE + 1;
      NoWrapPeriod(c, n);
    } else if WRAP - 1 - c >= TAIL {
      // the last multiple of the range before the wrap, and the first tick after it
      i, j := WRAP - c - TAIL, WRAP - c;
      assert Tick(c, i) == 107374 * RANGE && Tick(c, j) == 0;
    } else {
      i, j := 1, TAIL + 1;
      var k := TAIL - (WRAP - 1 - c);
      assert Tick(c, i) == 107374 * RANGE + k && Tick(c, j) == k;
    }
  }

  lemma NoWrapPeriod(c: nat, n: nat)
    requires c < WRAP && n > RANGE && (c + n < WRAP || c + 1 == WRAP)
    ensures Candidate(c, 1) == Candidate(c, RANGE + 1)
  {
    if c + n < WRAP {
      assert Tick(c, RANGE + 1) == Tick(c, 1) + RANGE;
    } else {
      assert Tick(c, 1) == 0 && Tick(c, RANGE + 1) == RANGE;
    }
  }

  /** n consecutive attempts are pairwise distinct if and only if there are at most 40000 of them,
      or at most 7296 when they straddle the wrap. */
  lemma DistinctIff(c: nat, n: nat)
    requires c < WRAP
    ensures Distinct(c, n) <==> n <= WindowLimit(c, n)
  {
    if n <= WindowLimit(c, n) {
      forall i: nat, j: nat | 1 <= i < j <= n
        ensures Candidate(c, i) != Candidate(c, j)
      {
        DistinctPair(c, n, i, j);
      }
    } else {
      var i, j := Collision(c, n);
    }
  }

  lemma PlainNumbers(c: nat, n: nat)
    ensures WindowLimit(c, n) == if c + 1 < 0x1_0000_0000 <= c + n then 7296 else 40000
    ensures Candidate(c, n) == (c + n) % 0x1_0000_0000 % 40000 + 20000
  {
  }

  /** The same in plain numbers. */
  lemma DistinctInNumbers(c: nat, n: nat)
    requires c < 0x1_0000_0000
    ensures Distinct(c, n) <==> n <= if c + 1 < 0x1_0000_0000 <= c + n then 7296 else 40000
  {
    PlainNumbers(c, n);
    DistinctIff(c, n);
  }

  lemma TickBefore(c: nat, i: nat)
    requires c + i < WRAP
    ensures Tick(c, i) == c + i
  {
  }

  lemma TickAfter(c: nat, i: nat)
    requires c < WRAP <= c + i < 2 * WRAP
    ensures Tick(c, i) == c + i - WRAP
  {
  }

  /** The last candidates before the wrap have the small offsets, in order. */
  lemma LastOffsets(k: nat)
    requires 1 <= k <= TAIL
    ensures (WRAP - k) % RANGE == TAIL - k
  {
    assert WRAP - k == 107374 * RANGE + (TAIL - k);
  }

  lemma DistinctPair(c: nat, n: nat, i: nat, j: nat)
    requires c < WRAP && n <= WindowLimit(c, n) && 1 <= i < j <= n
    ensures Candidate(c, i) != Candidate(c, j)
  {
    if c + j < WRAP {
      TickBefore(c, i);
      TickBefore(c, j);
      if (c + i) % RANGE == (c + j) % RANGE {
        SameResidue(c + i, c + j);
      }
    } else if c + i >= WRAP {
      TickAfter(c, i);
      TickAfter(c, j);
      if (c + i - WRAP) % RANGE == (c + j - WRAP) % RANGE {
        SameResidue(c + i - WRAP, c + j - WRAP);
      }
    } else {
      DistinctAcross(c, n, i, j);
    }
  }

  lemma DistinctAcross(c: nat, n: nat, i: nat, j: nat)
    requires c < WRAP && n <= TAIL && 1 <= i < j <= n && c + i < WRAP <= c + j
    ensures Candidate(c, i) != Candidate(c, j)
  {
    TickBefore(c, i);
    TickAfter(c, j);
    LastOffsets(WRAP - (c + i));
    assert (c + j - WRAP) % RANGE == c + j - WRAP;
  }
}
