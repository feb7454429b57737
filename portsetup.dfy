/**
 * `port_init`: the range check on the port id, then the driver steps
 * configure, descriptor adjustment, receive-queue setup, transmit-queue setup
 * and start, in that order, each returning its error code at once. What the
 * driver answers to each step is an input (`Replies`).
 */
module PortSetup {

  /** One receive ring and one transmit ring per port (`rx_rings`, `tx_rings`). */
  const RX_RINGS: nat := 1
  const TX_RINGS: nat := 1

  /** The code `port_init` returns for a port id the driver does not know. */
  const INVALID_PORT := -1

  /** A driver call `port_init` makes, in the order it makes them. */
  datatype Step =
    | Configure
    | AdjustDescriptors
    | RxQueueSetup(queue: nat)
    | TxQueueSetup(queue: nat)
    | Start

  /** What the driver returns to each step, for one port. */
  datatype Replies = Replies(configure: int, adjust: int, rxSetup: seq<int>, txSetup: seq<int>, start: int)

  /** One reply per receive and per transmit queue set up. */
  predicate WellFormed(d: Replies)
  {
    |d.rxSetup| == RX_RINGS && |d.txSetup| == TX_RINGS
  }

  /** The whole chain, in order. */
  function Chain(): (c: seq<Step>)
    ensures |c| == 3 + RX_RINGS + TX_RINGS
    ensures c[0] == Configure && c[1] == AdjustDescriptors && c[|c| - 1] == Start
    ensures forall q :: 0 <= q < RX_RINGS ==> c[2 + q] == RxQueueSetup(q)
    ensures forall q :: 0 <= q < TX_RINGS ==> c[2 + RX_RINGS + q] == TxQueueSetup(q)
  {
    [Configure, AdjustDescriptors]
    + seq(RX_RINGS, q requires 0 <= q => RxQueueSetup(q))
    + seq(TX_RINGS, q requires 0 <= q => TxQueueSetup(q))
    + [Start]
  }

  predicate InDriverRange(d: Replies, s: Step)
  {
    (s.RxQueueSetup? ==> s.queue < |d.rxSetup|) && (s.TxQueueSetup? ==> s.queue < |d.txSetup|)
  }

  /** The driver's answer to step `s`. */
  function Reply(d: Replies, s: Step): int
    requires InDriverRange(d, s)
  {
    match s
    case Configure => d.configure
    case AdjustDescriptors => d.adjust
    case RxQueueSetup(q) => d.rxSetup[q]
    case TxQueueSetup(q) => d.txSetup[q]
    case Start => d.start
  }

  /**
   * Whether `port_init` goes on after answer `v` to step `s`: the first two
   * steps are tested with `retval != 0`, the queue setups and start with
   * `retval < 0`, so a positive answer to those counts as success. The two
   * tests agree on zero, success for every step, and on a negative answer,
   * a failure for every step.
   */
  function Passes(s: Step, v: int): (ok: bool)
    ensures v == 0 ==> ok
    ensures v < 0 ==> !ok
    ensures v > 0 ==> (ok <==> !(s.Configure? || s.AdjustDescriptors?))
  {
    if s.Configure? || s.AdjustDescriptors? then v == 0 else v >= 0
  }

  predicate StepPasses(d: Replies, s: Step)
    requires InDriverRange(d, s)
  {
    Passes(s, Reply(d, s))
  }

  /** Every step of the chain succeeds. */
  predicate AllPass(d: Replies)
    requires WellFormed(d)
  {
    forall i :: 0 <= i < |Chain()| ==> InDriverRange(d, Chain()[i]) && StepPasses(d, Chain()[i])
  }

  /**
   * `attempted` lists the driver calls made. An out-of-range id is rejected
   * before any of them. Otherwise the calls made are a prefix of the chain in
   * which every call but the last succeeded; the result is 0 exactly when the
   * whole chain succeeded, and otherwise the failing step's own answer.
   */
  method PortInit(port: nat, devCount: nat, d: Replies) returns (ret: int, attempted: seq<Step>)
    requires WellFormed(d)
    ensures port >= devCount ==> ret == INVALID_PORT && attempted == []
    ensures port < devCount ==> 0 < |attempted| && attempted <= Chain()
    ensures forall i :: 0 <= i < |attempted| ==> InDriverRange(d, attempted[i])
    ensures forall i :: 0 <= i < |attempted| - 1 ==> StepPasses(d, attempted[i])
    ensures ret == 0 <==> port < devCount && AllPass(d)
    ensures ret == 0 ==> attempted == Chain()
    ensures port < devCount && ret != 0 ==>
              ret == Reply(d, attempted[|attempted| - 1]) && !StepPasses(d, attempted[|attempted| - 1])
  {
    if port >= devCount {
      return INVALID_PORT, [];
    }
    attempted := [Configure];
    var retval := d.configure;
    if retval != 0 {
      return retval, attempted;
    }
    attempted := attempted + [AdjustDescriptors];
    retval := d.adjust;
    if retval != 0 {
      return retval, attempted;
    }
    var q := 0;
    while q < RX_RINGS
      invariant q <= RX_RINGS
      invariant attempted == [Configure, AdjustDescriptors] + seq(q, i requires 0 <= i => RxQueueSetup(i))
      invariant forall i :: 0 <= i < |attempted| ==> InDriverRange(d, attempted[i]) && StepPasses(d, attempted[i])
    {
      attempted := attempted + [RxQueueSetup(q)];
      retval := d.rxSetup[q];
      if retval < 0 {
        return retval, attempted;
      }
      q := q + 1;
    }
    ghost var rxDone := attempted;
    q := 0;
    while q < TX_RINGS
      invariant q <= TX_RINGS
      invariant attempted == rxDone + seq(q, i requires 0 <= i => TxQueueSetup(i))
      invariant forall i :: 0 <= i < |attempted| ==> InDriverRange(d, attempted[i]) && StepPasses(d, attempted[i])
    {
      attempted := attempted + [TxQueueSetup(q)];
      retval := d.txSetup[q];
      if retval < 0 {
        return retval, attempted;
      }
      q := q + 1;
    }
    attempted := attempted + [Start];
    retval := d.start;
    if retval < 0 {
      return retval, attempted;
    }
    return 0, attempted;
  }
}
