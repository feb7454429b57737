/**
 * The forwarding engine of `lcore_main` as a state machine over the ports'
 * queues and the buffer pool. One port step receives a burst on port `p`,
 * offers it to the transmit ring of `Pair(p)` and frees what the transmit
 * did not take; a sweep does that for ports 0 .. n-1 in order; a run is a
 * number of sweeps.
 *
 * The driver is modelled by what it observably does with rings: a receive
 * burst hands back the oldest queued buffers, as many as are queued up to the
 * requested maximum, and a transmit burst accepts the offered buffers in order
 * for as long as the transmit ring has free descriptors.
 */
module Forwarding {
  import opened Pairing

  /** `BURST_SIZE`: the most buffers one receive call may return. */
  const BURST_SIZE: nat := 32

  /** A packet buffer (an mbuf reference), identified by a number. */
  type Buf = nat

  /**
   * The state the forwarding loop acts on. `rxq[p]` holds the buffers queued
   * on port p's receive ring, oldest first; `txq[p]` the buffers handed to
   * port p's transmit ring and not yet sent by the card, in the order they
   * were handed over; `txRoom[p]` the free descriptors left on that ring;
   * `pool` the free buffers.
   */
  datatype Plane = Plane(rxq: seq<seq<Buf>>, txq: seq<seq<Buf>>, txRoom: seq<nat>, pool: multiset<Buf>)

  /** One entry per port in each table, and a port count `main` lets through (a `u_int8_t`, even). */
  predicate WellFormed(s: Plane)
  {
    |s.txq| == |s.rxq| && |s.txRoom| == |s.rxq| && |s.rxq| % 2 == 0 && |s.rxq| < 256
  }

  function Min(a: nat, b: nat): nat
  {
    if a <= b then a else b
  }

  // ---------------------------------------------------------------------------
  // Buffer accounting

  /** Every buffer held in queues 0 .. n-1 of a table, with multiplicity. */
  function Held(qs: seq<seq<Buf>>, n: nat): multiset<Buf>
    requires n <= |qs|
  {
    if n == 0 then multiset{} else Held(qs, n - 1) + multiset(qs[n - 1])
  }

  /** Every buffer in the system: free in the pool, waiting to be received, or handed to a transmit ring. */
  function Total(s: Plane): multiset<Buf>
  {
    s.pool + Held(s.rxq, |s.rxq|) + Held(s.txq, |s.txq|)
  }

  /** No buffer is in two places at once. */
  predicate Unique(m: multiset<Buf>)
  {
    forall b :: b in m ==> m[b] == 1
  }

  /** Replacing queue i of a table replaces its buffers in the table's whole. */
  lemma {:induction false} HeldUpdate(qs: seq<seq<Buf>>, n: nat, i: nat, x: seq<Buf>)
    requires i < n <= |qs|
    ensures Held(qs[i := x], n) + multiset(qs[i]) == Held(qs, n) + multiset(x)
  {
    var qs' := qs[i := x];
    assert Held(qs', n) == Held(qs', n - 1) + multiset(qs'[n - 1]);
    if i == n - 1 {
      HeldUnchanged(qs, n - 1, i, x);
    } else {
      HeldUpdate(qs, n - 1, i, x);
      var a, b, c, d := Held(qs', n - 1), multiset(qs[n - 1]), multiset(qs[i]), Held(qs, n - 1);
      forall e ensures (a + b + c)[e] == (d + b + multiset(x))[e] {
        assert (a + c)[e] == (d + multiset(x))[e];
      }
    }
  }

  /** Replacing a queue at or beyond n leaves the buffers of queues 0 .. n-1 alone. */
  lemma {:induction false} HeldUnchanged(qs: seq<seq<Buf>>, n: nat, i: nat, x: seq<Buf>)
    requires n <= i < |qs|
    ensures Held(qs[i := x], n) == Held(qs, n)
  {
    if n > 0 {
      HeldUnchanged(qs, n - 1, i, x);
    }
  }

  /**
   * Taking `sent + freed` off the head of receive queue p, appending `sent`
   * to transmit ring q and returning `freed` to the pool keeps every buffer
   * exactly once.
   */
  lemma MoveConserves(s: Plane, p: nat, q: nat, sent: seq<Buf>, freed: seq<Buf>, rest: seq<Buf>, room: seq<nat>)
    requires WellFormed(s) && p < |s.rxq| && q < |s.rxq|
    requires s.rxq[p] == sent + freed + rest
    ensures Total(Plane(s.rxq[p := rest], s.txq[q := s.txq[q] + sent], room, s.pool + multiset(freed))) == Total(s)
  {
    var n := |s.rxq|;
    var rx', tx' := s.rxq[p := rest], s.txq[q := s.txq[q] + sent];
    HeldUpdate(s.rxq, n, p, rest);
    HeldUpdate(s.txq, n, q, s.txq[q] + sent);
    var hr', hr, ht', ht := Held(rx', n), Held(s.rxq, n), Held(tx', n), Held(s.txq, n);
    var ms, mf, mr, mt := multiset(sent), multiset(freed), multiset(rest), multiset(s.txq[q]);
    assert multiset(s.rxq[p]) == ms + mf + mr;
    assert multiset(s.txq[q] + sent) == mt + ms;
    forall b
      ensures (s.pool + mf + hr' + ht')[b] == (s.pool + hr + ht)[b]
    {
      assert (hr' + (ms + mf + mr))[b] == (hr + mr)[b];
      assert (ht' + mt)[b] == (ht + (mt + ms))[b];
    }
  }

  // ---------------------------------------------------------------------------
  // One port step

  /** What `rte_eth_rx_burst(p, 0, bufs, max)` hands back from receive queue `q`. */
  function RxTake(q: seq<Buf>, max: nat): (r: seq<Buf>)
    ensures r <= q && |r| <= max
    ensures |r| == max || r == q
  {
    q[..Min(max, |q|)]
  }

  /** The burst port `p` receives in its step. */
  function Burst(s: Plane, p: nat): (b: seq<Buf>)
    requires WellFormed(s) && p < |s.rxq|
    ensures |b| <= BURST_SIZE && b <= s.rxq[p]
  {
    RxTake(s.rxq[p], BURST_SIZE)
  }

  /** How many of that burst the transmit on `Pair(p)` accepts: as many as its ring has room for. */
  function Accepted(s: Plane, p: nat): (a: nat)
    requires WellFormed(s) && p < |s.rxq|
    ensures a <= |Burst(s, p)|
    ensures Pair(p) < |s.rxq| && a <= s.txRoom[Pair(p)]
    ensures a == |Burst(s, p)| || a == s.txRoom[Pair(p)]
  {
    PairInRange(p, |s.rxq|);
    Min(|Burst(s, p)|, s.txRoom[Pair(p)])
  }

  /** The buffers port p's step hands to the transmit ring of `Pair(p)`, in receive order. */
  function Sent(s: Plane, p: nat): (b: seq<Buf>)
    requires WellFormed(s) && p < |s.rxq|
    ensures b <= Burst(s, p)
  {
    Burst(s, p)[..Accepted(s, p)]
  }

  /**
   * One iteration of the port loop of `lcore_main`, on port `p`: receive a
   * burst, hand it to `Pair(p)`'s transmit ring, free what that ring did not
   * accept. The source skips the transmit and the free when the burst is
   * empty; `StepPortIdle` shows that doing them on an empty burst changes
   * nothing.
   */
  function StepPort(s: Plane, p: nat): (t: Plane)
    requires WellFormed(s) && p < |s.rxq|
    ensures WellFormed(t) && |t.rxq| == |s.rxq|
  {
    PairInRange(p, |s.rxq|);
    var got := Burst(s, p);
    var q := Pair(p);
    var a := Accepted(s, p);
    Plane(s.rxq[p := s.rxq[p][|got|..]],
          s.txq[q := s.txq[q] + got[..a]],
          s.txRoom[q := s.txRoom[q] - a],
          s.pool + multiset(got[a..]))
  }

  /** The port loop of `lcore_main` run over ports 0 .. k-1; every buffer is kept exactly once. */
  function SweepUpTo(s: Plane, k: nat): (t: Plane)
    requires WellFormed(s) && k <= |s.rxq|
    ensures WellFormed(t) && |t.rxq| == |s.rxq|
    ensures Total(t) == Total(s)
    decreases k
  {
    if k == 0 then s
    else
      var u := SweepUpTo(s, k - 1);
      StepPortConserves(u, k - 1);
      StepPort(u, k - 1)
  }

  /** One pass of the `while (!quit)` loop: every port once, in order; every buffer is kept exactly once. */
  function Sweep(s: Plane): (t: Plane)
    requires WellFormed(s)
    ensures WellFormed(t) && |t.rxq| == |s.rxq|
    ensures Total(t) == Total(s)
  {
    SweepUpTo(s, |s.rxq|)
  }

  /** `sweeps` passes of the `while (!quit)` loop: however many, no buffer is leaked or freed twice. */
  function Run(s: Plane, sweeps: nat): (t: Plane)
    requires WellFormed(s)
    ensures WellFormed(t) && |t.rxq| == |s.rxq|
    ensures Total(t) == Total(s)
    decreases sweeps
  {
    if sweeps == 0 then s else Sweep(Run(s, sweeps - 1))
  }

  /** A port step keeps every buffer exactly once: none is leaked, none is freed twice. */
  lemma StepPortConserves(s: Plane, p: nat)
    requires WellFormed(s) && p < |s.rxq|
    ensures Total(StepPort(s, p)) == Total(s)
  {
    PairInRange(p, |s.rxq|);
    var got := Burst(s, p);
    var q := Pair(p);
    var a := Accepted(s, p);
    assert s.rxq[p] == got[..a] + got[a..] + s.rxq[p][|got|..] by {
      assert got == got[..a] + got[a..];
    }
    MoveConserves(s, p, q, got[..a], got[a..], s.rxq[p][|got|..], s.txRoom[q := s.txRoom[q] - a]);
  }

  /**
   * Per burst, received == transmitted + freed: port p's receive queue loses
   * its burst from the head, `Pair(p)`'s transmit ring gains the accepted
   * prefix of it in receive order, and the pool regains exactly the rest,
   * each buffer once.
   */
  lemma StepPortAccounts(s: Plane, p: nat)
    requires WellFormed(s) && p < |s.rxq|
    ensures Pair(p) < |s.rxq|
    ensures var t := StepPort(s, p);
            s.rxq[p] == Burst(s, p) + t.rxq[p] &&
            t.txq[Pair(p)] == s.txq[Pair(p)] + Sent(s, p) &&
            t.txRoom[Pair(p)] == s.txRoom[Pair(p)] - |Sent(s, p)| &&
            t.pool == s.pool + multiset(Burst(s, p)[|Sent(s, p)|..]) &&
            multiset(Burst(s, p)) == multiset(Sent(s, p)) + (t.pool - s.pool)
  {
    PairInRange(p, |s.rxq|);
    var got := Burst(s, p);
    var a := Accepted(s, p);
    assert got == got[..a] + got[a..];
    assert s.rxq[p] == got + s.rxq[p][|got|..];
  }

  /** An empty receive burst sends nothing, frees nothing, and changes nothing. */
  lemma StepPortIdle(s: Plane, p: nat)
    requires WellFormed(s) && p < |s.rxq| && s.rxq[p] == []
    ensures StepPort(s, p) == s
  {
    PairInRange(p, |s.rxq|);
    assert s.rxq[p := s.rxq[p][0..]] == s.rxq;
    assert s.txq[Pair(p)] + [] == s.txq[Pair(p)];
    assert s.txq[Pair(p) := s.txq[Pair(p)] + []] == s.txq;
    assert s.txRoom[Pair(p) := s.txRoom[Pair(p)] - 0] == s.txRoom;
  }

  /** Port p's step, seen from port i's receive queue: only port p's own queue loses its burst. */
  lemma StepPortRxAt(u: Plane, p: nat, i: nat)
    requires WellFormed(u) && p < |u.rxq| && i < |u.rxq|
    ensures StepPort(u, p).rxq[i] == if i == p then u.rxq[i][|Burst(u, p)|..] else u.rxq[i]
  {
  }

  /** Port p's step, seen from port i's transmit ring: only `Pair(p)`'s ring takes buffers, the sent ones. */
  lemma StepPortTxAt(u: Plane, p: nat, i: nat)
    requires WellFormed(u) && p < |u.rxq| && i < |u.rxq|
    ensures Pair(p) < |u.rxq|
    ensures StepPort(u, p).txq[i] == if i == Pair(p) then u.txq[i] + Sent(u, p) else u.txq[i]
    ensures StepPort(u, p).txRoom[i] == if i == Pair(p) then u.txRoom[i] - |Sent(u, p)| else u.txRoom[i]
  {
    PairInRange(p, |u.rxq|);
  }

  // ---------------------------------------------------------------------------
  // One sweep

  /**
   * `u` is what `s` becomes once the ports below k have taken their step:
   * port i has received its burst exactly when i < k, and port i's transmit
   * ring has taken what its partner sent exactly when Pair(i) < k.
   */
  ghost predicate ServedBelow(s: Plane, u: Plane, k: nat)
    requires WellFormed(s) && WellFormed(u) && |u.rxq| == |s.rxq|
  {
    forall i :: 0 <= i < |s.rxq| ==> ServedAt(s, u, k, i)
  }

  /** `ServedBelow`, at port i. */
  ghost predicate ServedAt(s: Plane, u: Plane, k: nat, i: nat)
    requires WellFormed(s) && WellFormed(u) && |u.rxq| == |s.rxq| && i < |s.rxq|
  {
    Pair(i) < |s.rxq| &&
    u.rxq[i] == (if i < k then s.rxq[i][|Burst(s, i)|..] else s.rxq[i]) &&
    u.txq[i] == (if Pair(i) < k then s.txq[i] + Sent(s, Pair(i)) else s.txq[i]) &&
    u.txRoom[i] == (if Pair(i) < k then s.txRoom[i] - |Sent(s, Pair(i))| else s.txRoom[i])
  }

  /** Port k's step extends what has been served from the ports below k to the ports below k + 1. */
  lemma StepPortServes(s: Plane, k: nat)
    requires WellFormed(s) && 0 < k <= |s.rxq|
    requires ServedBelow(s, SweepUpTo(s, k - 1), k - 1)
    ensures ServedBelow(s, SweepUpTo(s, k), k)
  {
    PairInRange(k - 1, |s.rxq|);
    var u := SweepUpTo(s, k - 1);
    var t := StepPort(u, k - 1);
    assert SweepUpTo(s, k) == t;
    forall i | 0 <= i < |s.rxq|
      ensures ServedAt(s, t, k, i)
    {
      StepPortServesAt(s, u, k - 1, i);
    }
  }

  /** `StepPortServes`, at port i. */
  lemma StepPortServesAt(s: Plane, u: Plane, k: nat, i: nat)
    requires WellFormed(s) && WellFormed(u) && |u.rxq| == |s.rxq| && k < |s.rxq| && i < |s.rxq|
    requires ServedAt(s, u, k, k) && ServedAt(s, u, k, Pair(k)) && ServedAt(s, u, k, i)
    ensures ServedAt(s, StepPort(u, k), k + 1, i)
  {
    var j := Pair(k);
    PairInvolution(k);
    PairInvolution(i);
    // port k has not been served yet, and its partner's ring not yet used
    assert u.rxq[k] == s.rxq[k];
    assert u.txq[j] == s.txq[j] && u.txRoom[j] == s.txRoom[j];
    assert Sent(u, k) == Sent(s, k) by {
      assert Burst(u, k) == Burst(s, k);
    }
    StepPortRxAt(u, k, i);
    StepPortTxAt(u, k, i);
    assert i == j <==> Pair(i) == k;
  }

  lemma {:induction false} SweepUpToServes(s: Plane, k: nat)
    requires WellFormed(s) && k <= |s.rxq|
    ensures ServedBelow(s, SweepUpTo(s, k), k)
  {
    if k == 0 {
      NothingServedYet(s);
    } else {
      SweepUpToServes(s, k - 1);
      StepPortServes(s, k);
    }
  }

  lemma NothingServedYet(s: Plane)
    requires WellFormed(s)
    ensures ServedBelow(s, s, 0)
  {
    forall i | 0 <= i < |s.rxq| ensures ServedAt(s, s, 0, i) {
      PairInRange(i, |s.rxq|);
    }
  }

  /**
   * What one sweep does to port i: it receives one burst of at most
   * `BURST_SIZE` buffers, the oldest ones, and its transmit ring gains, in
   * receive order, the accepted prefix of its partner's burst and nothing else.
   */
  lemma SweepEffect(s: Plane, i: nat)
    requires WellFormed(s) && i < |s.rxq|
    ensures Pair(i) < |s.rxq|
    ensures |s.rxq[i]| - |Sweep(s).rxq[i]| <= BURST_SIZE
    ensures s.rxq[i] == Burst(s, i) + Sweep(s).rxq[i]
    ensures Sweep(s).txq[i] == s.txq[i] + Sent(s, Pair(i))
    ensures Sweep(s).txRoom[i] == s.txRoom[i] - |Sent(s, Pair(i))|
  {
    var n := |s.rxq|;
    var t := SweepUpTo(s, n);
    SweepUpToServes(s, n);
    assert ServedAt(s, t, n, i);
    assert Sweep(s) == t;
    assert s.rxq[i] == Burst(s, i) + s.rxq[i][|Burst(s, i)|..];
  }

  /** A buffer held in one place stays held in one place, over any number of sweeps. */
  lemma RunKeepsUnique(s: Plane, sweeps: nat)
    requires WellFormed(s) && Unique(Total(s))
    ensures Unique(Total(Run(s, sweeps)))
  {
  }

  // ---------------------------------------------------------------------------
  // The card, working while the lcore polls

  /**
   * What the card does on its own: a packet arrives on port `port` in the
   * free buffer `buf`, or the transmit ring of port `port` finishes sending
   * its oldest buffer.
   */
  datatype CardEvent = Arrival(port: nat, buf: Buf) | Completion(port: nat)

  /** A packet lands in free buffer b, which is queued at the tail of port p's receive ring. */
  function Arrive(s: Plane, p: nat, b: Buf): (t: Plane)
    requires WellFormed(s) && p < |s.rxq| && b in s.pool
    ensures WellFormed(t) && |t.rxq| == |s.rxq|
  {
    Plane(s.rxq[p := s.rxq[p] + [b]], s.txq, s.txRoom, s.pool - multiset{b})
  }

  /** Port p's transmit ring has sent its oldest buffer: the buffer is freed and its descriptor is free again. */
  function Complete(s: Plane, p: nat): (t: Plane)
    requires WellFormed(s) && p < |s.rxq| && s.txq[p] != []
    ensures WellFormed(t) && |t.rxq| == |s.rxq|
  {
    Plane(s.rxq, s.txq[p := s.txq[p][1..]], s.txRoom[p := s.txRoom[p] + 1], s.pool + multiset{s.txq[p][0]})
  }

  /**
   * One card event. One that cannot happen changes nothing: an arrival
   * naming a buffer that is not free, or a port that does not exist, and a
   * completion on a port that does not exist or on a ring with nothing in
   * flight.
   */
  function CardStep(s: Plane, e: CardEvent): (t: Plane)
    requires WellFormed(s)
    ensures WellFormed(t) && |t.rxq| == |s.rxq|
    ensures e.Arrival? && !(e.port < |s.rxq| && e.buf in s.pool) ==> t == s
    ensures e.Completion? && !(e.port < |s.rxq| && s.txq[e.port] != []) ==> t == s
  {
    match e
    case Arrival(p, b) => if p < |s.rxq| && b in s.pool then Arrive(s, p, b) else s
    case Completion(p) => if p < |s.rxq| && s.txq[p] != [] then Complete(s, p) else s
  }

  /** An arrival moves one free buffer into a receive queue: none is created or lost. */
  lemma ArriveConserves(s: Plane, p: nat, b: Buf)
    requires WellFormed(s) && p < |s.rxq| && b in s.pool
    ensures Total(Arrive(s, p, b)) == Total(s)
  {
    var n := |s.rxq|;
    HeldUpdate(s.rxq, n, p, s.rxq[p] + [b]);
    var hr', hr, ht := Held(s.rxq[p := s.rxq[p] + [b]], n), Held(s.rxq, n), Held(s.txq, n);
    var mp := multiset(s.rxq[p]);
    assert multiset(s.rxq[p] + [b]) == mp + multiset{b};
    forall x
      ensures ((s.pool - multiset{b}) + hr' + ht)[x] == (s.pool + hr + ht)[x]
    {
      assert (hr' + mp)[x] == (hr + (mp + multiset{b}))[x];
    }
  }

  /** A completion moves one buffer from a transmit ring back to the pool: none is created or lost. */
  lemma CompleteConserves(s: Plane, p: nat)
    requires WellFormed(s) && p < |s.rxq| && s.txq[p] != []
    ensures Total(Complete(s, p)) == Total(s)
  {
    var n := |s.rxq|;
    var q := s.txq[p];
    HeldUpdate(s.txq, n, p, q[1..]);
    var ht', ht, hr := Held(s.txq[p := q[1..]], n), Held(s.txq, n), Held(s.rxq, n);
    var mr := multiset(q[1..]);
    assert q == [q[0]] + q[1..];
    assert multiset(q) == multiset{q[0]} + mr;
    forall x
      ensures (s.pool + multiset{q[0]} + hr + ht')[x] == (s.pool + hr + ht)[x]
    {
      assert (ht' + (multiset{q[0]} + mr))[x] == (ht + mr)[x];
    }
  }

  lemma CardStepConserves(s: Plane, e: CardEvent)
    requires WellFormed(s)
    ensures Total(CardStep(s, e)) == Total(s)
  {
    match e
    case Arrival(p, b) =>
      if p < |s.rxq| && b in s.pool {
        ArriveConserves(s, p, b);
      }
    case Completion(p) =>
      if p < |s.rxq| && s.txq[p] != [] {
        CompleteConserves(s, p);
      }
  }

  /** The card performs `es` in order, between two sweeps; every buffer is kept exactly once. */
  function CardSteps(s: Plane, es: seq<CardEvent>): (t: Plane)
    requires WellFormed(s)
    ensures WellFormed(t) && |t.rxq| == |s.rxq|
    ensures Total(t) == Total(s)
    decreases |es|
  {
    if es == [] then s
    else
      var u := CardSteps(s, es[..|es| - 1]);
      CardStepConserves(u, es[|es| - 1]);
      CardStep(u, es[|es| - 1])
  }

  /**
   * The `while (!quit)` loop against a card that works between sweeps:
   * `card[i]` is what the card does before sweep i, and there are `|card|`
   * sweeps. Every buffer is kept exactly once.
   */
  function RunWith(s: Plane, card: seq<seq<CardEvent>>): (t: Plane)
    requires WellFormed(s)
    ensures WellFormed(t) && |t.rxq| == |s.rxq|
    ensures Total(t) == Total(s)
    decreases |card|
  {
    if card == [] then s
    else Sweep(CardSteps(RunWith(s, card[..|card| - 1]), card[|card| - 1]))
  }

  /** Sweep k of a run: the card does `card[k]`, then the ports take their turns. */
  lemma RunWithNext(s: Plane, card: seq<seq<CardEvent>>, k: nat)
    requires WellFormed(s) && k < |card|
    ensures RunWith(s, card[..k + 1]) == Sweep(CardSteps(RunWith(s, card[..k]), card[k]))
  {
    assert card[..k + 1][..k] == card[..k];
  }

  /** `Run` is the case of a card that does nothing between sweeps. */
  lemma {:induction false} RunIdleCard(s: Plane, card: seq<seq<CardEvent>>)
    requires WellFormed(s)
    requires forall k :: 0 <= k < |card| ==> card[k] == []
    ensures Run(s, |card|) == RunWith(s, card)
    decreases |card|
  {
    if card != [] {
      var n := |card| - 1;
      RunIdleCard(s, card[..n]);
      var u := RunWith(s, card[..n]);
      assert card[n] == [];
      assert CardSteps(u, card[n]) == u;
    }
  }

  /** Anything that can happen to the state: a card event, or a port's turn in the port loop. */
  datatype Event = Card(e: CardEvent) | Turn(port: nat)

  /** The events `es` in order; the turn of a port that does not exist changes nothing. */
  function Replay(s: Plane, es: seq<Event>): (t: Plane)
    requires WellFormed(s)
    ensures WellFormed(t) && |t.rxq| == |s.rxq|
    decreases |es|
  {
    if es == [] then s
    else
      var u := Replay(s, es[..|es| - 1]);
      match es[|es| - 1]
      case Card(e) => CardStep(u, e)
      case Turn(p) => if p < |u.rxq| then StepPort(u, p) else u
  }

  /** However the card's work and the ports' turns interleave, no buffer is leaked or freed twice. */
  lemma {:induction false} ReplayConserves(s: Plane, es: seq<Event>)
    requires WellFormed(s)
    ensures Total(Replay(s, es)) == Total(s)
    decreases |es|
  {
    if es != [] {
      var u := Replay(s, es[..|es| - 1]);
      ReplayConserves(s, es[..|es| - 1]);
      match es[|es| - 1]
      case Card(e) => CardStepConserves(u, e);
      case Turn(p) =>
        if p < |u.rxq| {
          StepPortConserves(u, p);
        }
    }
  }

  /**
   * However they interleave, every transmit ring keeps its number of
   * descriptors: the free ones plus those holding a buffer still to be sent.
   */
  lemma {:induction false} ReplayKeepsRings(s: Plane, es: seq<Event>, i: nat)
    requires WellFormed(s) && i < |s.rxq|
    ensures Replay(s, es).txRoom[i] + |Replay(s, es).txq[i]| == s.txRoom[i] + |s.txq[i]|
    decreases |es|
  {
    if es != [] {
      var u := Replay(s, es[..|es| - 1]);
      ReplayKeepsRings(s, es[..|es| - 1], i);
      match es[|es| - 1]
      case Card(e) =>
      case Turn(p) =>
        if p < |u.rxq| {
          StepPortTxAt(u, p, i);
        }
    }
  }

  // ---------------------------------------------------------------------------
  // Two ports, ten buffers on port 0

  function TenOnPortZero(room: nat): Plane
  {
    Plane([[1, 2, 3, 4, 5, 6, 7, 8, 9, 10], []], [[], []], [512, room], multiset{})
  }

  /** A transmit ring with room for all of them takes all ten, in order, and nothing is freed. */
  lemma ScenarioAllAccepted()
    ensures Sweep(TenOnPortZero(512)).txq[1] == [1, 2, 3, 4, 5, 6, 7, 8, 9, 10]
    ensures Sweep(TenOnPortZero(512)).rxq[0] == []
    ensures Sweep(TenOnPortZero(512)).pool == multiset{}
  {
    var s := TenOnPortZero(512);
    var got := Burst(s, 0);
    assert got == [1, 2, 3, 4, 5, 6, 7, 8, 9, 10];
    assert Accepted(s, 0) == 10;
    assert got[..10] == got && got[10..] == [];
    var t := StepPort(s, 0);
    assert t.txq[1] == [1, 2, 3, 4, 5, 6, 7, 8, 9, 10];
    assert t.pool == multiset{};
    assert t.rxq[1] == [];
    StepPortIdle(t, 1);
    assert Sweep(s) == StepPort(t, 1);
  }

  /** A transmit ring with room for seven takes the first seven; the last three go back to the pool. */
  lemma ScenarioSevenAccepted()
    ensures Sweep(TenOnPortZero(7)).txq[1] == [1, 2, 3, 4, 5, 6, 7]
    ensures Sweep(TenOnPortZero(7)).pool == multiset{8, 9, 10}
  {
    var s := TenOnPortZero(7);
    var got := Burst(s, 0);
    assert got == [1, 2, 3, 4, 5, 6, 7, 8, 9, 10];
    assert Accepted(s, 0) == 7;
    assert got[..7] == [1, 2, 3, 4, 5, 6, 7];
    assert got[7..] == [8, 9, 10];
    var t := StepPort(s, 0);
    assert t.txq[1] == [1, 2, 3, 4, 5, 6, 7];
    assert t.pool == multiset{8, 9, 10};
    assert t.rxq[1] == [];
    StepPortIdle(t, 1);
    assert Sweep(s) == StepPort(t, 1);
  }

  /** Two idle ports and one free buffer, 5, with room on both transmit rings. */
  function OneFreeBuffer(): Plane
  {
    Plane([[], []], [[], []], [4, 4], multiset{5})
  }

  /** Buffer 5 handed to port 1's transmit ring and not yet sent. */
  function FiveInFlight(): Plane
  {
    Plane([[], []], [[], [5]], [4, 3], multiset{})
  }

  /** A packet that arrives on port 0 before the first sweep is sent on port 1 by that sweep. */
  lemma ScenarioArrivalSent()
    ensures RunWith(OneFreeBuffer(), [[Arrival(0, 5)]]) == FiveInFlight()
  {
    var s := OneFreeBuffer();
    var a := Arrive(s, 0, 5);
    assert CardSteps(s, [Arrival(0, 5)]) == a by {
      assert [Arrival(0, 5)][..0] == [];
    }
    assert s.rxq[0] + [5] == [5];
    assert a.rxq == [[5], []] && a.pool == multiset{};
    assert Burst(a, 0) == [5];
    assert Accepted(a, 0) == 1;
    assert Burst(a, 0)[..1] == [5] && Burst(a, 0)[1..] == [] && a.rxq[0][1..] == [];
    assert a.txq[1] + [5] == [5];
    var t := StepPort(a, 0);
    assert t == FiveInFlight();
    StepPortIdle(t, 1);
    var card: seq<seq<CardEvent>> := [[Arrival(0, 5)]];
    assert card[..0] == [];
  }

  /** Completing buffer 5 on port 1 frees it and its descriptor. */
  lemma CompletionOfFive()
    ensures CardSteps(FiveInFlight(), [Completion(1)]) == OneFreeBuffer()
  {
    var t := FiveInFlight();
    var c := Complete(t, 1);
    assert CardSteps(t, [Completion(1)]) == c by {
      assert [Completion(1)][..0] == [];
    }
    assert t.txq[1][1..] == [] && t.txq[1][0] == 5;
    assert c.rxq == [[], []] && c.txq == [[], []];
    assert t.txRoom == [4, 3] && c.txRoom == t.txRoom[1 := t.txRoom[1] + 1];
    assert c.txRoom == [4, 4];
    assert c.pool == multiset{} + multiset{5} == multiset{5};
  }

  /**
   * Once the card has completed that packet, before the second sweep, its
   * buffer is free again and the ring has all its descriptors back: the
   * state is the one the run started from.
   */
  lemma ScenarioCompletionFrees()
    ensures RunWith(OneFreeBuffer(), [[Arrival(0, 5)], [Completion(1)]]) == OneFreeBuffer()
  {
    var card: seq<seq<CardEvent>> := [[Arrival(0, 5)], [Completion(1)]];
    assert card[..1] == [[Arrival(0, 5)]];
    ScenarioArrivalSent();
    CompletionOfFive();
    var c := OneFreeBuffer();
    StepPortIdle(c, 0);
    StepPortIdle(c, 1);
    assert SweepUpTo(c, 1) == c;
    assert Sweep(c) == c;
  }
}
