/**
 * `lcore_main` as the imperative loop it is: the ports' receive and transmit
 * rings and the buffer pool are the fields of a `Dataplane`, the driver calls
 * `rte_eth_rx_burst`, `rte_eth_tx_burst` and `rte_pktmbuf_free` are methods
 * that update them, and the forwarding loop calls them on a stack array of
 * `BURST_SIZE` buffers. Each method is proved to do what the corresponding
 * function of `Forwarding` describes. The statistics printed on exit
 * (`print_stats`, whose loop reads `port` where its counter `i` is meant) are
 * not part of this model.
 */
module Lcore {
  import opened Pairing
  import opened Forwarding
  import Link

  class Dataplane {
    /**
     * `nb_ports`, read once from the driver when the lcore starts. The source
     * declares it `const` and assigns it afterwards; here it is fixed when
     * the `Dataplane` is built, as evidently intended.
     */
    const nbPorts: nat
    var rxq: seq<seq<Buf>>
    var txq: seq<seq<Buf>>
    var txRoom: seq<nat>
    var pool: multiset<Buf>

    ghost function State(): Plane
      reads this
    {
      Plane(rxq, txq, txRoom, pool)
    }

    ghost predicate Valid()
      reads this
    {
      |rxq| == nbPorts && WellFormed(State())
    }

    constructor (s: Plane)
      requires WellFormed(s)
      ensures Valid() && State() == s && nbPorts == |s.rxq|
    {
      nbPorts := |s.rxq|;
      rxq, txq, txRoom, pool := s.rxq, s.txq, s.txRoom, s.pool;
    }

    /**
     * `rte_eth_rx_burst(port, 0, bufs, nbPkts)`: copies the oldest queued
     * buffers of the port, at most `nbPkts` of them, into `bufs` and returns
     * how many it copied.
     */
    method RxBurst(port: nat, bufs: array<Buf>, nbPkts: nat) returns (nbRx: nat)
      requires Valid() && port < nbPorts && nbPkts <= bufs.Length
      modifies this, bufs
      ensures Valid()
      ensures nbRx == |RxTake(old(rxq[port]), nbPkts)|
      ensures bufs[..nbRx] == RxTake(old(rxq[port]), nbPkts)
      ensures bufs[nbRx..] == old(bufs[nbRx..])
      ensures rxq == old(rxq)[port := old(rxq[port])[nbRx..]]
      ensures txq == old(txq) && txRoom == old(txRoom) && pool == old(pool)
    {
      var q := rxq[port];
      nbRx := Min(nbPkts, |q|);
      var i := 0;
      while i < nbRx
        modifies bufs
        invariant i <= nbRx
        invariant bufs[..i] == q[..i]
        invariant bufs[i..] == old(bufs[i..])
      {
        bufs[i] := q[i];
        i := i + 1;
      }
      rxq := rxq[port := q[nbRx..]];
    }

    /**
     * `rte_eth_tx_burst(port, 0, bufs, nbPkts)`: the transmit ring takes the
     * first buffers of `bufs`, in order, as many as it has free descriptors
     * for, and the call returns how many it took.
     */
    method TxBurst(port: nat, bufs: array<Buf>, nbPkts: nat) returns (nbTx: nat)
      requires Valid() && port < nbPorts && nbPkts <= bufs.Length
      modifies this
      ensures Valid()
      ensures nbTx == Min(nbPkts, old(txRoom[port]))
      ensures txq == old(txq)[port := old(txq[port]) + bufs[..nbTx]]
      ensures txRoom == old(txRoom)[port := old(txRoom[port]) - nbTx]
      ensures rxq == old(rxq) && pool == old(pool)
    {
      nbTx := Min(nbPkts, txRoom[port]);
      txq := txq[port := txq[port] + bufs[..nbTx]];
      txRoom := txRoom[port := txRoom[port] - nbTx];
    }

    /** `rte_pktmbuf_free(b)`: the buffer goes back to the pool. */
    method FreeBuf(b: Buf)
      modifies this
      ensures pool == old(pool) + multiset{b}
      ensures rxq == old(rxq) && txq == old(txq) && txRoom == old(txRoom)
    {
      pool := pool + multiset{b};
    }

    /** `for (buf = from; buf < to; buf++) rte_pktmbuf_free(bufs[buf]);` */
    method FreeUnsent(bufs: array<Buf>, from: nat, to: nat)
      requires from <= to <= bufs.Length
      modifies this
      ensures pool == old(pool) + multiset(bufs[from..to])
      ensures rxq == old(rxq) && txq == old(txq) && txRoom == old(txRoom)
    {
      var buf := from;
      while buf < to
        invariant from <= buf <= to
        invariant pool == old(pool) + multiset(bufs[from..buf])
        invariant rxq == old(rxq) && txq == old(txq) && txRoom == old(txRoom)
      {
        FreeBuf(bufs[buf]);
        assert bufs[from..buf + 1] == bufs[from..buf] + [bufs[buf]];
        buf := buf + 1;
      }
    }

    /**
     * The body of the port loop of `lcore_main` for one port; `Pair(port)` is
     * the source's `port ^ 1` (`PairIsXor`). The source declares `nb_rx` and
     * `nb_tx` `const` and then assigns them, and declares `nb_tx` twice; here
     * they are ordinary locals initialised by the calls, as evidently intended.
     */
    method ForwardPort(port: nat)
      requires Valid() && port < nbPorts
      modifies this
      ensures Valid()
      ensures State() == StepPort(old(State()), port)
    {
      ghost var s := State();
      var bufs := new Buf[BURST_SIZE];
      var nbRx := RxBurst(port, bufs, BURST_SIZE);
      if nbRx == 0 {
        // `continue`: nothing received, nothing to send or free
        StepPortIdle(s, port);
        return;
      }
      PairInRange(port, nbPorts);
      var nbTx := TxBurst(Pair(port), bufs, nbRx);
      if nbTx < nbRx {
        FreeUnsent(bufs, nbTx, nbRx);
      } else {
        assert bufs[nbTx..nbRx] == [];
      }
      assert bufs[..nbRx] == Burst(s, port);
      assert nbTx == Accepted(s, port);
      assert bufs[..nbTx] == Sent(s, port);
      assert bufs[nbTx..nbRx] == Burst(s, port)[nbTx..];
    }

    /** One pass of `for (port = 0; port < nb_ports; port++)`. */
    method SweepPorts()
      requires Valid()
      modifies this
      ensures Valid()
      ensures State() == Sweep(old(State()))
    {
      var port := 0;
      while port < nbPorts
        invariant Valid() && port <= nbPorts
        invariant State() == SweepUpTo(old(State()), port)
      {
        ForwardPort(port);
        port := port + 1;
      }
    }

    /**
     * The card at work between two reads of `quit`: it performs `es` in order.
     * This is hardware, not code of the source; it is what makes the receive
     * queues fill and the transmit rings drain while the lcore polls.
     */
    method CardActs(es: seq<CardEvent>)
      requires Valid()
      modifies this
      ensures Valid()
      ensures State() == CardSteps(old(State()), es)
    {
      var t := CardSteps(Plane(rxq, txq, txRoom, pool), es);
      rxq, txq, txRoom, pool := t.rxq, t.txq, t.txRoom, t.pool;
    }

    /**
     * `lcore_main`: the link check, whose result is only logged, then sweeps
     * until `quit` is read true. `quit` is set by the signal handler, which is
     * not part of this model: `|card|` is the number of times the loop reads
     * it false before reading it true, once per sweep and never in the middle
     * of one, and `card[i]` is what the card does before sweep i. The source
     * tests `quit` before its declaration further down the file, and declares
     * it `sig_atomic`, a type C does not have, for `sig_atomic_t`; the model
     * reads the one flag the source declares. The source's `int` result is
     * never returned; `linkRet` gives back what the link check returned,
     * which the source only logs. The `lcore_id` test only logs as well, so
     * every lcore runs the same loop; which lcores do is not part of this
     * model.
     */
    method LcoreMain(linkUp: seq<bool>, card: seq<seq<CardEvent>>) returns (linkRet: int)
      requires Valid() && nbPorts <= |linkUp|
      modifies this
      ensures Valid()
      ensures State() == RunWith(old(State()), card)
      ensures linkRet == Link.LINK_ALL_UP <==> forall p :: 0 <= p < nbPorts ==> linkUp[p]
    {
      ghost var s0 := State();
      var queried;
      linkRet, queried := Link.CheckLinkStatus(nbPorts, linkUp);
      var sweeps := 0;
      var quit := sweeps == |card|;
      while !quit
        invariant Valid() && sweeps <= |card| && quit == (sweeps == |card|)
        invariant State() == RunWith(s0, card[..sweeps])
        decreases |card| - sweeps
      {
        CardActs(card[sweeps]);
        SweepPorts();
        RunWithNext(s0, card, sweeps);
        sweeps := sweeps + 1;
        quit := sweeps == |card|;
      }
      assert card[..sweeps] == card;
    }
  }
}
