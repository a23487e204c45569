/** Sequence numbers: the coded arithmetic and what it is in the integers modulo one thousand
    million. */
module CSeqs {
  const MAX_CSEQ: nat := 999_999_999
  const CYCLE: nat := 1_000_000_000
  const U32: nat := 0x1_0000_0000

  type cseq = n: nat | n <= MAX_CSEQ

  // The operations are on 32-bit words, so each sum is written with its wrap-around.

  function Increment(c: cseq): cseq {
    (c + 1) % U32 % CYCLE
  }

  function Add(a: cseq, b: cseq): cseq {
    (a + b) % U32 % CYCLE
  }

  function Sub(a: cseq, b: cseq): cseq {
    if a >= b then a - b else MAX_CSEQ - (b - a)
  }

  /** `n` increments. */
  function Ahead(c: cseq, n: nat): cseq {
    (c + n) % CYCLE
  }

  /** How many increments lead from one number to the other. */
  function Distance(from: cseq, to: cseq): nat {
    if from <= to then to - from else CYCLE - (from - to)
  }

  lemma IncrementIsNext(c: cseq)
    ensures Increment(c) == if c == MAX_CSEQ then 0 else c + 1
  {
  }

  lemma RemainderOfNext(n: nat)
    ensures (n + 1) % CYCLE == if n % CYCLE == CYCLE - 1 then 0 else n % CYCLE + 1
  {
    var q, r := n / CYCLE, n % CYCLE;
    assert n + 1 == q * CYCLE + (r + 1);
  }

  lemma AheadIsIncrements(c: cseq, n: nat)
    ensures Ahead(c, 0) == c
    ensures Ahead(c, n + 1) == Increment(Ahead(c, n))
    ensures Ahead(Increment(c), n) == Ahead(c, n + 1)
  {
    RemainderOfNext(c + n);
    IncrementIsNext(Ahead(c, n));
    IncrementIsNext(c);
    hide Increment;
    if c == MAX_CSEQ {
      assert Ahead(c, n + 1) == (n + CYCLE) % CYCLE == n % CYCLE;
    }
  }

  /** No sum reaches the word size, so addition is addition modulo the cycle. */
  lemma AddIsModular(a: cseq, b: cseq)
    ensures a + b < U32 && Add(a, b) == Ahead(a, b)
    ensures Add(a, b) == Add(b, a)
  {
  }

  /** Subtraction is the distance, except that across a wrap it is one too small; it undoes addition
      just when the sum did not wrap. */
  lemma SubIsDistance(a: cseq, b: cseq)
    ensures a >= b <==> Sub(a, b) == Distance(b, a)
    ensures a < b <==> Sub(a, b) == Distance(b, a) - 1
    ensures Add(Sub(a, b), b) == a <==> a >= b
  {
  }

  /** The requests a window of `size` admits when `next` is expected: those at a distance of up to
      `size`, and one more if it lies across the wrap. */
  lemma WindowIsDistance(next: cseq, c: cseq, size: nat)
    ensures Sub(c, next) <= size <==>
      Distance(next, c) <= (if next <= c then size else size + 1)
  {
    SubIsDistance(c, next);
  }

  /** Of two numbers admitted by the coded difference, the farther one can look nearer. */
  lemma WrapHidesOne(next: cseq)
    requires 0 < next
    ensures Distance(next, 0) == Distance(next, MAX_CSEQ) + 1
    ensures Sub(0, next) == Sub(MAX_CSEQ, next)
  {
  }
}
