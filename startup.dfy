/**
 * The startup sequence of `main`: runtime initialisation, the topology
 * check, buffer-pool creation and the initialisation of every port, each
 * failure ending the process through `rte_exit(EXIT_FAILURE, ...)` with its
 * own message. The runtime's and the pool's outcomes are inputs.
 */
module Startup {
  import opened Pairing
  import opened PortSetup

  const EXIT_SUCCESS := 0
  const EXIT_FAILURE := 1

  /** Why the process ended; each fatal case has its own message in the source. */
  datatype Reason =
    | Completed                 // `main` returns 0
    | InvalidEalParameters      // "Invalid EAL parameters"
    | InvalidPortNumber         // "Invalid port number"
    | PoolCreationFailed        // "Fail to create mbuf pool"
    | PortInitFailed(port: nat) // "Fail to init port <port>"

  function ExitStatus(r: Reason): (status: int)
    ensures status == EXIT_SUCCESS <==> r == Completed
  {
    if r == Completed then EXIT_SUCCESS else EXIT_FAILURE
  }

  /**
   * `ealRet` is what `rte_eal_init` returned, `devCount` the port count the
   * driver reports (a `u_int8_t`), `poolCreated` whether the pool came back
   * non-NULL, and `replies[p]` the driver's answers while port `p` is set up.
   * The source's port loop uses `portid`, which is not declared; `port_id`,
   * declared next to `n_ports`, is evidently meant.
   */
  method Initialize(ealRet: int, devCount: nat, poolCreated: bool, replies: seq<Replies>)
    returns (reason: Reason)
    requires devCount < 256
    requires devCount <= |replies|
    requires forall p :: 0 <= p < devCount ==> WellFormed(replies[p])
    ensures reason == InvalidEalParameters <==> ealRet < 0
    ensures reason == InvalidPortNumber <==> ealRet >= 0 && !PortCountOk(devCount)
    ensures reason == PoolCreationFailed <==> ealRet >= 0 && PortCountOk(devCount) && !poolCreated
    ensures reason.PortInitFailed? ==>
              ealRet >= 0 && PortCountOk(devCount) && poolCreated &&
              reason.port < devCount && !AllPass(replies[reason.port]) &&
              forall p :: 0 <= p < reason.port ==> AllPass(replies[p])
    ensures reason == Completed <==>
              ealRet >= 0 && PortCountOk(devCount) && poolCreated &&
              forall p :: 0 <= p < devCount ==> AllPass(replies[p])
  {
    if ealRet < 0 {
      return InvalidEalParameters;
    }
    if devCount < 2 || BitAnd(devCount, 1) != 0 {
      return InvalidPortNumber;
    }
    if !poolCreated {
      return PoolCreationFailed;
    }
    var portId := 0;
    while portId < devCount
      invariant portId <= devCount
      invariant forall p :: 0 <= p < portId ==> AllPass(replies[p])
    {
      var ret, _ := PortInit(portId, devCount, replies[portId]);
      if ret != 0 {
        return PortInitFailed(portId);
      }
      portId := portId + 1;
    }
    return Completed;
  }
}
