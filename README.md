# dpdk_demo: a pairwise poll-mode forwarder, modelled in Dafny

`dpdk_demo_test/main.c` is a small DPDK application. It moves packets between
pairs of network ports: port 0 with port 1, port 2 with port 3, and so on. At
startup `main` initialises the runtime and checks that there is an even number
of ports, at least two. It then creates the packet-buffer pool and
initialises every port with `port_init`, which configures the port, sets up one
receive ring and one transmit ring, and starts it. The forwarding lcore
(`lcore_main`) first checks the links (`check_link_status`). Then it sweeps
over the ports until `quit` is set. For each port it receives a burst of at
most 32 buffers and hands the burst to the paired port's transmit ring. It
frees every buffer that ring did not take.

In the source the two phases interleave: `port_init` itself launches
`lcore_main` on the worker lcores and waits for it (main.c:198-200). So every
sweep happens inside `port_init(0)`, after port 0 is started and before ports
1 .. n-1 are configured. Once `quit` is set that run ends, and each later
`port_init` launches `lcore_main` again, which checks the links and, `quit`
being already set, sweeps no more. The model treats startup (`Startup`) and
forwarding (`Lcore`, from ports all set up) as two separate phases; see
"## Left out".

The model has six modules, one file each:

- `pairing.dfy` (`Pairing`): C's `^` and `&` on non-negative integers
  (`Xor`, `BitAnd`), the port pairing `port ^ 1` (`Pair`) and the port-count
  guard of `main` (`PortCountOk`).
- `link.dfy` (`Link`): `check_link_status`, a loop with an early return. Each
  port's link state is an input.
- `portsetup.dfy` (`PortSetup`): `port_init`, the range check followed by the
  chain of driver steps. Each step stops the chain with its own code. The
  driver's answers are inputs.
- `startup.dfy` (`Startup`): `main`'s startup sequence and its exit reasons.
- `forwarding.dfy` (`Forwarding`): the forwarding engine as a state machine
  over values. A `Plane` holds the receive queue and transmit ring of every
  port, the free descriptors of each transmit ring, and the pool of free
  buffers. `StepPort` is one port's turn, `Sweep` one pass of the port loop and
  `Run` a number of passes. The card's own work is modelled too: packets
  arrive in free buffers (`Arrive`) and transmit rings finish sending their
  oldest buffer (`Complete`). `RunWith` is a run in which the card works
  between sweeps, and `Replay` any interleaving of card events and port
  turns. The lemmas state buffer conservation, order and framing.
- `lcore.dfy` (`Lcore`): the same loop written imperatively. A class
  `Dataplane` holds these tables as fields. The driver calls are its methods.
  `ForwardPort`, `SweepPorts` and `LcoreMain` are the loops of `lcore_main`
  over a stack array of `BURST_SIZE` buffers. Each is proved equal to the
  matching `Forwarding` function.

The driver is modelled by what it does to the rings:

- A receive burst returns the oldest queued buffers, as many as are queued,
  up to the requested maximum.
- A transmit burst accepts the offered buffers, in order, while its ring has
  free descriptors.
- A freed buffer goes back to the pool.
- Between sweeps the card receives packets into free buffers and completes
  transmissions. A completed buffer goes back to the pool and its descriptor is
  free again.

Several things are inputs rather than modelled behaviour:

- what the runtime, the pool creation and each port-setup step return;
- each port's link state;
- the value of `quit`;
- what the card does between sweeps.

`quit` is modelled as the number of sweeps after which it is read true.

The source does not compile as written. The model follows the evident intent.
A comment at the place concerned records each divergence:

- `lcore_main` declares `nb_ports` `const` and then assigns it (main.c:75,
  79). The model fixes it when the `Dataplane` is built
  (`Lcore.Dataplane.nbPorts`).
- `nb_rx` and `nb_tx` are declared `const` and then assigned, and `nb_tx` is
  declared twice (main.c:95-96, 99, 104). The model uses ordinary locals
  (`Lcore.Dataplane.ForwardPort`).
- `main` tests `nb_ports & 1`, but the variable is `n_ports` (main.c:262).
  `Pairing.PortCountOk` tests the count that was read.
- `main`'s port loop uses `portid`, but the variable is `port_id`
  (main.c:274). See `Startup.Initialize`.
- The link query is spelt `ret_eth_link_get` instead of `rte_eth_link_get`
  (main.c:55). See `Link.CheckLinkStatus`.
- `quit` is read in `lcore_main` (main.c:89) before its declaration
  (main.c:227). See `Lcore.Dataplane.LcoreMain`.
- `quit` is declared `sig_atomic`, but the C type is `sig_atomic_t`
  (main.c:227). See `Lcore.Dataplane.LcoreMain`.
- `print_stats` reads `port` where its loop variable is `i` (main.c:217-218).
  `print_stats` only prints, so it is left out (see below).

`rte_eth_rx_burst` and `rte_eth_tx_burst` return `uint16_t` counts, and
`lcore_main` never tests them for a negative value (main.c:99-107). The model
has no negative-return path.

## Model

| member | source | states |
|---|---|---|
| Pairing.Xor | dpdk_demo_test/main.c:104 | C's `^` on unsigned operands: the lowest bit of the result is set exactly when one operand's lowest bit is, and the result never exceeds the sum of the operands |
| Pairing.BitAnd | dpdk_demo_test/main.c:262 | C's `&` on unsigned operands: the result never exceeds either operand |
| Pairing.AndOne | dpdk_demo_test/main.c:262 | `n & 1` is the parity of `n` |
| Pairing.Pair | dpdk_demo_test/main.c:104 | the partner `port ^ 1` of a port is one of its two neighbours, port + 1 or port - 1 |
| Pairing.PairFormula | dpdk_demo_test/main.c:91-92 | an even port is paired with the next port, an odd port with the one before (0 -> 1, 1 -> 0, 2 -> 3, ...) |
| Pairing.PairIsXor | dpdk_demo_test/main.c:104 | the pairing is exactly C's `port ^ 1` |
| Pairing.PairIsPartner | dpdk_demo_test/main.c:91-92 | a port and its partner have the same half and opposite parity, so they form the couple {2k, 2k+1} |
| Pairing.PairInvolution | dpdk_demo_test/main.c:104 | the partner of the partner is the port itself |
| Pairing.PairNotSelf | dpdk_demo_test/main.c:104 | no port is paired with itself |
| Pairing.PairInRange | dpdk_demo_test/main.c:93-104 | with an even port count, a port in range has its partner in range |
| Pairing.PortCountOk | dpdk_demo_test/main.c:261-263 | a port count the guard of `main` lets through is at least 2 and even |
| Pairing.PortCountOkIff | dpdk_demo_test/main.c:261-263 | `main` accepts a port count exactly when it is even and at least 2 |
| Pairing.PortCountExamples | dpdk_demo_test/main.c:261-263 | counts 0, 1, 3 and 5 are rejected; 2, 4 and 6 are accepted |
| Pairing.AcceptedTopologyPairs | dpdk_demo_test/main.c:262 | in every accepted topology the pairing maps the ports to the ports, has no fixed point and is its own inverse |
| Link.CheckLinkStatus | dpdk_demo_test/main.c:48-64 | the result is 0 or -1; it is 0 exactly when every port is up, and then every port was queried; on -1 the last port queried is the first one that is down, and no later port was queried |
| PortSetup.Chain | dpdk_demo_test/main.c:139-177 | the driver steps run in this order: configure, adjust descriptors, one receive-queue setup per ring, one transmit-queue setup per ring, start |
| PortSetup.Passes | dpdk_demo_test/main.c:143-176 | the step tests of `port_init`: a zero answer passes every step and a negative one fails every step; a positive answer fails configure and descriptor adjustment (`!= 0`) but passes the queue setups and start (`< 0`) |
| PortSetup.PortInit | dpdk_demo_test/main.c:135-204 | an out-of-range id returns -1 before any driver call; otherwise the calls made are a prefix of the chain and each succeeded except the last; the result is that failing step's own code, and 0 exactly when every step succeeded and the whole chain ran |
| Startup.ExitStatus | dpdk_demo_test/main.c:249-278 | the process exits with `EXIT_SUCCESS` only when startup completed |
| Startup.Initialize | dpdk_demo_test/main.c:247-278 | each fatal reason happens exactly when its check is the first to fail (runtime init, port count, pool creation); a port-init failure names the first port whose chain failed, and every earlier port succeeded; startup completes exactly when every check passes and every port initialises |
| Forwarding.RxTake | dpdk_demo_test/main.c:99 | a receive returns a prefix of the queue, at most the requested count, and falls short only when the queue is exhausted |
| Forwarding.Burst | dpdk_demo_test/main.c:94-99 | a port receives at most `BURST_SIZE` buffers per turn, taken from the head of its queue |
| Forwarding.Accepted | dpdk_demo_test/main.c:104 | the transmit on `port ^ 1` accepts no more buffers than were received and no more than its ring has room for, and accepts all of them unless the ring fills |
| Forwarding.Sent | dpdk_demo_test/main.c:104 | the buffers sent are a prefix of the received burst |
| Forwarding.StepPort | dpdk_demo_test/main.c:93-111 | one port's turn keeps one entry per port in every table and a count `main` accepts; its effect on each table is stated by `StepPortAccounts`, `StepPortRxAt` and `StepPortTxAt` |
| Forwarding.MoveConserves | dpdk_demo_test/main.c:99-111 | taking sent + freed buffers from a receive queue, appending the sent ones to a transmit ring and returning the freed ones to the pool keeps every buffer exactly once |
| Forwarding.StepPortConserves | dpdk_demo_test/main.c:99-111 | one port's turn keeps every buffer in the system exactly once: none is leaked, none is freed twice |
| Forwarding.StepPortAccounts | dpdk_demo_test/main.c:99-111 | received == transmitted + freed: the receive queue loses the burst from its head; the partner's ring gains the accepted prefix in receive order and loses that much room; the pool gains exactly `bufs[nb_tx..nb_rx)` |
| Forwarding.StepPortIdle | dpdk_demo_test/main.c:99-101 | an empty receive burst leaves the whole state unchanged |
| Forwarding.StepPortRxAt | dpdk_demo_test/main.c:99 | a port's turn changes only its own receive queue |
| Forwarding.StepPortTxAt | dpdk_demo_test/main.c:104 | a port's turn changes only its partner's transmit ring and room, which gain exactly the sent buffers |
| Forwarding.SweepUpTo | dpdk_demo_test/main.c:93-112 | the port loop keeps every table's shape and every buffer exactly once |
| Forwarding.Sweep | dpdk_demo_test/main.c:89-113 | one sweep keeps every buffer exactly once |
| Forwarding.Run | dpdk_demo_test/main.c:89-113 | any number of sweeps keeps every buffer exactly once |
| Forwarding.StepPortServes | dpdk_demo_test/main.c:93-112 | after ports 0..k have had their turn, each port below k+1 has lost exactly its own burst, and each transmit ring has gained exactly its partner's sent buffers once the partner has had its turn |
| Forwarding.SweepUpToServes | dpdk_demo_test/main.c:93-112 | the same, by induction, for every prefix of the port loop |
| Forwarding.SweepEffect | dpdk_demo_test/main.c:89-113 | in one sweep each port receives at most `BURST_SIZE` buffers, the oldest ones; its transmit ring gains, in receive order, the accepted prefix of its partner's burst and nothing else |
| Forwarding.RunKeepsUnique | dpdk_demo_test/main.c:106-111 | if every buffer starts in exactly one place, it is in exactly one place after any number of sweeps |
| Forwarding.ScenarioAllAccepted | dpdk_demo_test/main.c:99-111 | ten buffers on port 0 with room on port 1 all go to port 1, in order, and nothing is freed |
| Forwarding.ScenarioSevenAccepted | dpdk_demo_test/main.c:99-111 | with room for seven, the first seven go to port 1 and the last three go back to the pool |
| Forwarding.Arrive | dpdk_demo_test/main.c:99 | a packet arriving on a port keeps one entry per port in every table |
| Forwarding.Complete | dpdk_demo_test/main.c:104 | a completed transmission keeps one entry per port in every table |
| Forwarding.CardStep | dpdk_demo_test/main.c:99-104 | any card event keeps one entry per port in every table; an arrival naming a buffer that is not free or a port that does not exist, and a completion on a port that does not exist or on an idle ring, change nothing |
| Forwarding.ArriveConserves | dpdk_demo_test/main.c:99 | an arrival moves one free buffer into a receive queue; no buffer is created or lost |
| Forwarding.CompleteConserves | dpdk_demo_test/main.c:104 | a completion moves a transmit ring's oldest buffer back to the pool; no buffer is created or lost |
| Forwarding.CardStepConserves | dpdk_demo_test/main.c:99-104 | every card event keeps every buffer exactly once |
| Forwarding.CardSteps | dpdk_demo_test/main.c:89-113 | the card's work between two sweeps keeps every buffer exactly once |
| Forwarding.RunWith | dpdk_demo_test/main.c:89-113 | any number of sweeps, with the card receiving and completing between them, keeps every buffer exactly once |
| Forwarding.RunIdleCard | dpdk_demo_test/main.c:89-113 | a run against a card that does nothing between sweeps is exactly `Run` |
| Forwarding.Replay | dpdk_demo_test/main.c:89-113 | any interleaving of card events and port turns keeps one entry per port in every table |
| Forwarding.ReplayConserves | dpdk_demo_test/main.c:89-113 | however card events and port turns interleave, no buffer is leaked or freed twice |
| Forwarding.ReplayKeepsRings | dpdk_demo_test/main.c:104 | however they interleave, each transmit ring keeps its number of descriptors: free ones plus those holding a buffer still to be sent |
| Forwarding.ScenarioArrivalSent | dpdk_demo_test/main.c:99-104 | a packet that arrives on idle port 0 before a sweep is on port 1's transmit ring after it, and its buffer is no longer free |
| Forwarding.CompletionOfFive | dpdk_demo_test/main.c:104 | once the card completes that packet, its buffer is free and the ring has all its descriptors back |
| Forwarding.ScenarioCompletionFrees | dpdk_demo_test/main.c:89-113 | arrival, forwarding and completion over two sweeps bring the state back to where it started |
| Lcore.Dataplane.RxBurst | dpdk_demo_test/main.c:99 | copies the received prefix of the port's queue into `bufs` and removes it from the queue; the rest of `bufs` and every other field is unchanged |
| Lcore.Dataplane.TxBurst | dpdk_demo_test/main.c:104 | the ring takes `min(offered, room)` buffers from the front of `bufs`, in order; nothing else changes |
| Lcore.Dataplane.FreeBuf | dpdk_demo_test/main.c:110 | the buffer is added to the pool; nothing else changes |
| Lcore.Dataplane.FreeUnsent | dpdk_demo_test/main.c:107-111 | the free loop returns exactly `bufs[nb_tx..nb_rx)` to the pool |
| Lcore.Dataplane.ForwardPort | dpdk_demo_test/main.c:94-111 | one iteration of the port loop, with its `continue`, leaves the state `Forwarding.StepPort` describes |
| Lcore.Dataplane.SweepPorts | dpdk_demo_test/main.c:93-112 | the port loop leaves the state `Forwarding.Sweep` describes |
| Lcore.Dataplane.CardActs | dpdk_demo_test/main.c:89 | between two reads of `quit`, the card's work leaves the state `Forwarding.CardSteps` describes |
| Lcore.Dataplane.LcoreMain | dpdk_demo_test/main.c:71-114 | the lcore runs the link check, then exactly as many sweeps as `quit` allows, with the card working between them; the result is the state `Forwarding.RunWith` describes; the link result is 0 exactly when every link is up |

## Left out

- Runtime bootstrap (`rte_eal_init`, main.c:247-252): only its return code is an input, and the argument shift is not modelled. It is done by the runtime, not by this code.
- Buffer-pool creation (main.c:268-271): only whether it succeeded is an input. `NUM_MBUFS` and `MBUF_CACHE_SIZE` are not used. The pool's allocator belongs to the runtime.
- Driver internals (`rte_eth_*`): their answers are inputs or are modelled by their effect on the rings. The port configuration structure, socket ids and the MAC address query and print (main.c:179-187) are not modelled.
- Lcore.Dataplane.RxBurst: the driver is modelled as returning every queued buffer up to the requested maximum. A real driver may return fewer, as the hardware delivers them.
- Lcore.Dataplane.TxBurst: the transmit ring is modelled as taking buffers while it has free descriptors. The initial free count is an input. Descriptors are freed again only by `Forwarding.Complete`, when the card finishes sending a buffer.
- Forwarding.Run, Lcore.Dataplane.LcoreMain: `Run` is the case of an idle card. Nothing arrives and nothing completes, so the receive queues only shrink and the rings only fill (`Forwarding.RunIdleCard`). `LcoreMain` lets the card work only between sweeps (`Forwarding.RunWith`), not during a sweep. Card events during a sweep are covered only by `Forwarding.Replay`, which proves conservation and ring descriptor counts for every interleaving but does not describe the queues' contents.
- Forwarding.Arrive: a receive ring is never full. An arrival needs only a free buffer; packets the card drops because `RX_RING_SIZE` descriptors are in use are not modelled.
- Descriptor clamping by `rte_eth_dev_adjust_nb_rx_tx_desc` (main.c:149): only its return code is modelled. `RX_RING_SIZE` and `TX_RING_SIZE` play no part, because the free room of each transmit ring is part of the state.
- The signal handler and the `volatile` `quit` flag (main.c:227-236), which cancel the loop asynchronously: `quit` is modelled as the number of sweeps after which it reads true. The handler runs outside this model.
- The launch of `lcore_main` on the worker lcores and the wait for it (main.c:198-200), which the source does inside `port_init`: the model separates startup and forwarding into two phases. `Startup.Initialize` completes with no forwarding, and `Lcore.Dataplane.LcoreMain` starts from ports that are all set up. In the source every sweep runs inside `port_init(0)`, while only port 0 is configured and started. Each later `port_init` relaunches `lcore_main`, which then only checks the links because `quit` is already set. What the driver does with an unconfigured port is not modelled.
- Several worker lcores running `lcore_main` at once, and the `lcore_id` test (main.c:81-82): the model runs one forwarding loop. The `lcore_id` test only logs, so every worker runs the same loop on the same ports; that concurrency is not modelled.
- `print_stats` (main.c:210-222), `printf` and `RTE_LOG` output, including the link speed: output only, and the statistics counters belong to the driver.
- Lcore.Dataplane.LcoreMain: the source declares an `int` result but never returns one. The model returns the link-check result, which the source only logs.
- Link.CheckLinkStatus: the loop counter is a `u_int8_t` and the count a `u_int16_t`, so 256 or more ports would wrap the counter. The model requires fewer than 256 ports, which is what the only caller can pass.
- Pairing.Xor, Pairing.BitAnd: defined on non-negative integers only. The operands in the source are unsigned port numbers and counts.
