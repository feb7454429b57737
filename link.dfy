/**
 * The link pre-flight check `check_link_status`, run once by the forwarding
 * lcore before its loop. The link state the driver reports for each port is
 * an input: `linkUp[p]` is what querying port `p` yields.
 */
module Link {

  /** The code `check_link_status` returns when every link is up. */
  const LINK_ALL_UP := 0
  /** The code it returns at the first port whose link is down. */
  const LINK_SOME_DOWN := -1

  /**
   * Queries ports 0, 1, ... in order and stops at the first one that is down.
   * `queried` is the number of link queries issued. The source's loop counter
   * is a `u_int8_t` while the count is a `u_int16_t`; with 256 ports or more
   * the counter would wrap, so the model asks for what the only caller passes,
   * a `u_int8_t` count. The query is written `ret_eth_link_get` in the source,
   * a misspelling of the driver's `rte_eth_link_get`.
   */
  method CheckLinkStatus(nbPorts: nat, linkUp: seq<bool>) returns (ret: int, queried: nat)
    requires nbPorts < 256
    requires nbPorts <= |linkUp|
    ensures ret == LINK_ALL_UP || ret == LINK_SOME_DOWN
    ensures ret == LINK_ALL_UP <==> forall p :: 0 <= p < nbPorts ==> linkUp[p]
    ensures ret == LINK_ALL_UP ==> queried == nbPorts
    ensures ret == LINK_SOME_DOWN ==>
              0 < queried <= nbPorts && !linkUp[queried - 1] &&
              forall p :: 0 <= p < queried - 1 ==> linkUp[p]
  {
    queried := 0;
    var port := 0;
    while port < nbPorts
      invariant port <= nbPorts && queried == port
      invariant forall p :: 0 <= p < port ==> linkUp[p]
    {
      var up := linkUp[port];
      queried := queried + 1;
      if !up {
        return LINK_SOME_DOWN, queried;
      }
      port := port + 1;
    }
    return LINK_ALL_UP, queried;
  }
}
