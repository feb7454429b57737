/**
 * The two bit operations the forwarder relies on, written out on non-negative
 * integers, and what it builds from them: the fixed port pairing `port ^ 1`
 * and the port-count guard `n_ports < 2 || (n_ports & 1)` of `main`.
 */
module Pairing {

  /**
   * C's `a ^ b` on non-negative operands, one bit at a time from the least
   * significant: the lowest bit is set when exactly one operand has it set,
   * and no carry ever makes the result exceed the sum.
   */
  function Xor(a: nat, b: nat): (r: nat)
    ensures r % 2 == (a + b) % 2
    ensures r <= a + b
    decreases a + b
  {
    if a == 0 && b == 0 then 0
    else
      var hi := Xor(a / 2, b / 2);
      XorDigit(a, b, hi);
      2 * hi + (if a % 2 == b % 2 then 0 else 1)
  }

  /** One bit of `Xor`: the low bit is the parity of the sum, and the high bits stay within the halves' sum. */
  lemma XorDigit(a: nat, b: nat, hi: nat)
    requires hi <= a / 2 + b / 2
    ensures (2 * hi + (if a % 2 == b % 2 then 0 else 1)) % 2 == (a + b) % 2
    ensures 2 * hi + (if a % 2 == b % 2 then 0 else 1) <= a + b
  {
    assert a == 2 * (a / 2) + a % 2 && b == 2 * (b / 2) + b % 2;
  }

  /**
   * C's `a & b` on non-negative operands, one bit at a time from the least
   * significant: masking never adds a bit, so the result is at most either
   * operand.
   */
  function BitAnd(a: nat, b: nat): (r: nat)
    ensures r <= a && r <= b
    decreases a
  {
    if a == 0 || b == 0 then 0 else 2 * BitAnd(a / 2, b / 2) + (a % 2) * (b % 2)
  }

  lemma {:induction false} XorZero(a: nat)
    ensures Xor(a, 0) == a
  {
    if a != 0 {
      XorZero(a / 2);
    }
  }

  /** Flipping the lowest bit moves an even number up by one and an odd number down by one. */
  lemma XorOne(a: nat)
    ensures Xor(a, 1) == if a % 2 == 0 then a + 1 else a - 1
  {
    var h := a / 2;
    XorZero(h);
    assert 1 / 2 == 0 && 1 % 2 == 1;
    assert Xor(a, 1) == 2 * Xor(h, 0) + (if a % 2 == 1 then 0 else 1);
    assert a == 2 * h + a % 2;
  }

  /** Masking with 1 keeps the lowest bit, that is, the parity. */
  lemma AndOne(a: nat)
    ensures BitAnd(a, 1) == a % 2
  {
  }

  /**
   * The port that transmits what `port` receives: `port ^ 1` in `lcore_main`,
   * so 0 -> 1, 1 -> 0, 2 -> 3, 3 -> 2, and so on: the couples {2k, 2k+1}
   * written out by induction on k, each port's partner one of its two
   * neighbours. `PairIsXor` shows it is C's `port ^ 1`.
   */
  function Pair(p: nat): (r: nat)
    ensures r == p + 1 || r + 1 == p
    decreases p
  {
    if p < 2 then 1 - p else Pair(p - 2) + 2
  }

  /** An even port is paired with the next one and an odd port with the one before. */
  lemma {:induction false} PairFormula(p: nat)
    ensures Pair(p) == if p % 2 == 0 then p + 1 else p - 1
  {
    if p >= 2 {
      PairFormula(p - 2);
    }
  }

  /** The pairing is exactly the exclusive or with 1 that `lcore_main` computes. */
  lemma PairIsXor(p: nat)
    ensures Pair(p) == Xor(p, 1)
  {
    PairFormula(p);
    XorOne(p);
  }

  /** The partner is the other member of the couple {2k, 2k+1}: same half, other parity. */
  lemma PairIsPartner(p: nat)
    ensures Pair(p) / 2 == p / 2
    ensures Pair(p) % 2 != p % 2
  {
    PairFormula(p);
  }

  /** Taking the partner twice gives the port back. */
  lemma PairInvolution(p: nat)
    ensures Pair(Pair(p)) == p
  {
    PairFormula(p);
    PairFormula(Pair(p));
  }

  /** No port is its own partner. */
  lemma PairNotSelf(p: nat)
    ensures Pair(p) != p
  {
    PairFormula(p);
  }

  /** With an even number of ports, the partner of a port in range is in range. */
  lemma PairInRange(p: nat, n: nat)
    requires n % 2 == 0 && p < n
    ensures Pair(p) < n
  {
    PairFormula(p);
    if p % 2 == 0 {
      assert p + 1 != n by {
        assert (p + 1) % 2 == 1;
      }
    }
  }

  /**
   * The guard in `main` that accepts the topology; `main` aborts with
   * "Invalid port number" when it fails. The source tests `nb_ports & 1`, a
   * name that does not exist in `main`; `n_ports`, the count read on the line
   * before, is evidently meant and is what `n` stands for here.
   */
  function PortCountOk(n: nat): (ok: bool)
    ensures ok ==> n >= 2 && n % 2 == 0
  {
    AndOne(n);
    !(n < 2 || BitAnd(n, 1) != 0)
  }

  /** The topology is accepted exactly when there are at least two ports and an even number of them. */
  lemma PortCountOkIff(n: nat)
    ensures PortCountOk(n) <==> n >= 2 && n % 2 == 0
  {
    AndOne(n);
  }

  lemma PortCountExamples()
    ensures !PortCountOk(0) && !PortCountOk(1) && !PortCountOk(3) && !PortCountOk(5)
    ensures PortCountOk(2) && PortCountOk(4) && PortCountOk(6)
  {
    PortCountOkIff(0); PortCountOkIff(1); PortCountOkIff(3); PortCountOkIff(5);
    PortCountOkIff(2); PortCountOkIff(4); PortCountOkIff(6);
  }

  /** In every accepted topology the pairing is a fixed-point-free involution on the ports. */
  lemma AcceptedTopologyPairs(n: nat, p: nat)
    requires PortCountOk(n) && p < n
    ensures Pair(p) < n && Pair(p) != p && Pair(Pair(p)) == p
  {
    PortCountOkIff(n);
    PairInRange(p, n);
    PairNotSelf(p);
    PairInvolution(p);
  }
}
