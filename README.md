# Synchronisation testbed and community detection — a Dafny model

The system is a testbed for decentralised community detection. A network of
nodes is configured from an INI file. Each node runs one of four
synchronisation models:

- a discrete clock (`clock`);
- a discrete Potts-style model (`mypotts`, class BSRG);
- a Metropolis–Hastings model (`metropolis`);
- a continuous Kuramoto oscillator (`kuramoto`).

Nodes exchange states with their neighbours over TCP and log their state
history to a log storage. Evaluation scripts read the histories. From how
close neighbours came to each other, they classify every neighbour of every
node as "in" or "out" of the node's community at a range of deviation
thresholds. Further scripts make these classifications mutual and merge
several runs by majority vote. Finally they score everything against the
Louvain communities of the graph. Two generators write the configuration: one
builds the per-node INI sections, the other builds community ("popularity")
networks.

The model has one Dafny module per source file:

| module | source file | form |
|---|---|---|
| `Clock` | `src/node/synchronisation/clock.py` | functions for the step, class `ClockModule` for the module |
| `Bsrg` | `src/node/synchronisation/bsrg.py` | functions, class `BsrgModule` |
| `Metropolis` | `src/node/synchronisation/metrohasting.py` | functions, class `MetropolisModule` |
| `Kuramoto` | `src/node/synchronisation/kuramoto.py` | functions, class `KuramotoModule` |
| `NodeCore`, `Dispatch` | `src/node/node.py` | class `Node` (identity, neighbours, history, transport), class `NodeProcess` (module slot and message routing) |
| `CreateConfig` | `src/configuration/create_config.py` | functions, method `BuildConfig` |
| `PopularityNetwork` | `src/configuration/popularitynetwork.py` | functions and methods with loops |
| `CommonMethods` | `src/evaluation/common_methods.py` | counting and averaging loops as methods, proved against functions |
| `Classify`, `DetectAuc`, `MutualMembership` | `src/evaluation/detect_communities_auc.py` | the in/out split, the two AUC detections, the in-place mutual repair |
| `DetectDiff` | `src/evaluation/detect_communities_diff_at_t.py` | the state-difference detection |
| `MajorityVote` | `src/evaluation/majority_vote.py` | the merge of several runs |

Five modules are shared:

- `Base` holds the Python exceptions as error values and the `Result`/`Option` types.
- `Wire` holds JSON values and Python's `int()`/`float()` on strings.
- `Dict` is a Python dict: an insertion-ordered list of pairs where the last write wins.
- `Circle` holds floor division, the closest state to an angle, and the wrap-around step.
- `SyncSettings` holds the configuration fields shared by the modules.

The node is split into two modules. The four module classes hold a
reference to the node, and the node holds the active module; Dafny forbids
that cycle between modules.

Things outside the program are inputs:

- Transport is an oracle. `Node.attempts` gives the outcome of each future
  connection, and `Node.delivered` records what arrived. A retry loop stops
  when the oracle runs out.
- Random draws are parameters.
- sin, cos and exp are parameters.
- The circular mean of the neighbour angles is a parameter.
- Time stamps are parameters.

## Model

| member | source | states |
|---|---|---|
| Clock.Register | src/node/synchronisation/clock.py:38-59 | an accepted config yields consistent settings (state in range, radian map of `max_states` keys) with the message's run, time and max_states, and the dynamic fields as `ApplyDynamic` sets them; a rejected one raises and keeps state, map and dynamic fields |
| Clock.StepDistance | src/node/synchronisation/clock.py:69-77 | without dynamic coupling the step is gamma; with it, ZeroDivisionError exactly when `max_states // 2 == 0`, otherwise a step of at least 1 |
| Clock.Synchronised | src/node/synchronisation/clock.py:79-118 | max_states 0 gives ZeroDivisionError, an empty radian map ValueError; every other error is the step-distance division; a new state of consistent settings lies in `[0, max_states)` |
| Clock.SynchronisedKeepsAgreement | src/node/synchronisation/clock.py:92-97 | when the mean angle is the node's own state, the state is kept |
| Clock.SynchronisedApproachesMean | src/node/synchronisation/clock.py:104-113 | without dynamic coupling and without wrap-around, the circular distance to the mean shrinks by gamma, or to 0 when it was at most gamma |
| Clock.Response | src/node/synchronisation/clock.py:208-216 | the reply to a synchro-request is a `synchro-response` carrying the current state |
| Clock.ClockModule.constructor | src/node/synchronisation/clock.py:15-36 | a new module holds its node, the initial settings, and neither logging nor flooded_end set |
| Clock.ClockModule.RegisterNewConfig | src/node/synchronisation/clock.py:38-59 | the new settings and status are exactly `Register` of the old settings |
| Clock.ClockModule.CalculateAndSetNewState | src/node/synchronisation/clock.py:79-120 | on success the state becomes the `Synchronised` value and is written to the history under the stamp; on error nothing changes and the error is raised |
| Clock.ClockModule.HandleEndSynchro | src/node/synchronisation/clock.py:225-234 | logging stops; once flooded_end is set nothing is sent; otherwise `end` is broadcast and flooded_end is set exactly when every neighbour received it |
| Clock.ClockModule.Handle | src/node/synchronisation/clock.py:191-223 | a message without operation raises KeyError; `start` starts the run; `synchro-request` replies with the old state and applies `Synchronised` to the partner's state, logging a new state in the history, and leaves logging, the end flag and the transport untouched; `end` stops logging and relays at most once, raising SendingMessageError when a neighbour is unreachable, with the transport outcomes it used, and keeps the state and history; other operations change nothing |
| Circle.FloorDiv | src/node/synchronisation/clock.py:75 | Python's `//`: the quotient rounds toward minus infinity for both signs of the divisor |
| Circle.FloorMod | src/node/synchronisation/clock.py:113-118 | Python's `%`: the remainder has the divisor's sign and `a == b * (a // b) + a % b` |
| Circle.FirstArgMin | src/node/synchronisation/clock.py:64-67 | the index of a minimal element, and no earlier index is as small (Python `min` keeps the first) |
| Circle.FirstArgMax | src/node/synchronisation/bsrg.py:156-170 | the index of a maximal element, and no earlier index is as large |
| Circle.ClosestState | src/node/synchronisation/clock.py:64-67 | a state in `[0, m)` whose angle is nearest the given angle, the first such state |
| Circle.ClosestStateOfState | src/node/synchronisation/clock.py:64-67 | the closest state to a state's own angle is that state |
| Circle.ClosestStateDoesNotWrap | src/node/synchronisation/clock.py:64-67 | an angle beyond the last state's angle maps to the last state, not around to state 0 |
| Circle.CircularDistance | src/node/synchronisation/clock.py:104-118 | the distance on the circle is at most the plain distance and at most half the circle |
| Circle.Approach | src/node/synchronisation/clock.py:106-118 | the stepped state lies in `[0, m)` |
| Circle.ApproachWithoutWrap | src/node/synchronisation/clock.py:109-113 | when the mean is less than half the circle away, a step of at most the distance shortens the circular distance by exactly the step |
| Circle.ApproachAroundTheCircle | src/node/synchronisation/clock.py:114-118 | when the mean is at least half the circle away, the step goes the other way round and shortens that way's distance by exactly the step |
| Circle.ApproachCanOvershoot | src/node/synchronisation/clock.py:106-118 | at exactly half the circle or beyond, the capped step can move away: state 0, mean 9, step 9 of 10 gives 1, one further from 9 than before |
| Circle.UnitStepRoundTheCircle | src/node/synchronisation/bsrg.py:224-238 | state 1, mean 9, step 1 of 10 states wraps to 0 |
| Circle.AlignmentBounds | src/node/synchronisation/metrohasting.py:63-70 | with a cosine in `[-1, 1]` the summed alignment lies in `[-n, n]` for n neighbour states |
| Circle.AlignmentOfAgreement | src/node/synchronisation/metrohasting.py:63-70 | when every neighbour has the node's state, the alignment is the number of neighbours |
| Circle.AlignmentsBounded | src/node/synchronisation/bsrg.py:158-166 | with a cosine in `[-1, 1]`, the score the brute-force step gives each candidate state lies in `[-n, n]` for n neighbour states, and a state every neighbour shares scores exactly n |
| SyncSettings.IntField | src/node/synchronisation/clock.py:42 | a missing key raises KeyError of that key; otherwise Python `int()` of the value |
| SyncSettings.RealField | src/node/synchronisation/clock.py:40 | a missing key raises KeyError of that key; otherwise Python `float()` of the value |
| SyncSettings.RandInt | src/node/synchronisation/clock.py:43 | `randint(lo, hi)` succeeds exactly when `lo <= hi`, gives a value in `[lo, hi]`, and raises ValueError otherwise |
| SyncSettings.RandIntReachesEveryValue | src/node/synchronisation/clock.py:43 | every value of `[lo, hi]` is drawn by some draw |
| SyncSettings.ApplyDynamic | src/node/synchronisation/clock.py:50-59 | dynamic coupling ends on without error exactly when `dynamic == "True"` and gamma, avg_dist and dynamic_time all parse, and then takes their values; stage by stage, a missing key is caught with the flag off and a value that does not parse raises with the flag on, and in both cases the fields read before keep their new values; anything other than `"True"` switches it off |
| SyncSettings.Announcement | src/node/synchronisation/bsrg.py:96-103 | the `new_neighbor-state` message carries the node id and the state as text that parses back to the state |
| Bsrg.Register | src/node/synchronisation/bsrg.py:41-62 | an accepted config yields consistent settings with the message's run, max_states and coupling strength and the dynamic fields; a rejected one raises and keeps the dynamic fields and coupling strength |
| Bsrg.Hamiltonian | src/node/synchronisation/bsrg.py:67-78 | no neighbour states give 0; otherwise the summed cosine alignment of the own state, and an error exactly when max_states or the state is unset or max_states is 0 |
| Bsrg.BruteForce | src/node/synchronisation/bsrg.py:156-170 | an unset max_states raises AttributeError, a non-positive one ValueError; the result is the first state of maximal alignment in `[0, max_states)` |
| Bsrg.StepDistance | src/node/synchronisation/bsrg.py:85-93 | without dynamic coupling the step is 1; ZeroDivisionError when `max_states // 2 == 0`; TypeError when dynamic_time is unset; gamma before dynamic_time; at least 1 after it |
| Bsrg.Step | src/node/synchronisation/bsrg.py:172-243 | an empty neighbour table, and only that, leaves the step with nothing to do; a moved state of consistent settings lies in `[0, max_states)` |
| Bsrg.StepKeepsAgreement | src/node/synchronisation/bsrg.py:210-217 | when the mean is the own state, the state is kept (and logged, not broadcast) |
| Bsrg.UnitStepApproachesMean | src/node/synchronisation/bsrg.py:219-238 | without dynamic coupling, a node not at the mean moves, and its circular distance to the mean drops by exactly 1 |
| Bsrg.BsrgModule.constructor | src/node/synchronisation/bsrg.py:15-39 | a new module holds its node, the initial settings and an empty neighbour table |
| Bsrg.BsrgModule.RegisterNewConfig | src/node/synchronisation/bsrg.py:41-62 | the new settings and status are exactly `Register` of the old settings |
| Bsrg.BsrgModule.UpdateNeighborState | src/node/synchronisation/bsrg.py:114-115 | the neighbour table gets the state under the id, last write wins |
| Bsrg.BsrgModule.CalculateHamiltonian | src/node/synchronisation/bsrg.py:67-78 | returns `Hamiltonian` of the current settings and the table's states |
| Bsrg.BsrgModule.SynchronisationStepBruteForce | src/node/synchronisation/bsrg.py:156-170 | the state becomes the `BruteForce` result, or the error is raised and the state kept |
| Bsrg.BsrgModule.NotifyNeighborsOfNewState | src/node/synchronisation/bsrg.py:95-112 | an unset state raises AttributeError and sends nothing; otherwise the announcement is broadcast round after round until a round reaches every neighbour |
| Bsrg.BsrgModule.SynchronizationStep | src/node/synchronisation/bsrg.py:172-243 | per `Step`'s outcome: errors and an empty table change nothing; a kept state is logged and nothing is sent; a moved state is set, logged and then broadcast until delivered, with the delivered messages and attempt counts that broadcast used |
| Bsrg.BsrgModule.HandleEndSynchro | src/node/synchronisation/bsrg.py:262-276 | logging stops; `end` is relayed at most once, and flooded_end is set only by a complete broadcast |
| Bsrg.BsrgModule.Handle | src/node/synchronisation/bsrg.py:245-260 | no operation raises KeyError and changes nothing; `new_neighbor-state` stores the state under the id (KeyError without id, the parse error for a bad state) and touches nothing else; `share_state` raises AttributeError before any state is drawn, and otherwise rebroadcasts until a full round succeeds, leaving the table, logging and the end flag alone; `start` starts and changes nothing; `end` stops logging and relays at most once, raising SendingMessageError when a neighbour is unreachable, with the transport outcomes it used; others change nothing |
| Metropolis.Register | src/node/synchronisation/metrohasting.py:28-44 | an accepted config sets max_states, temperature and run, and use_random_neighbor_state exactly when `random_neighbor == "True"`; a rejected one raises and keeps that flag |
| Metropolis.Hamiltonian | src/node/synchronisation/metrohasting.py:54-72 | with no state at all AttributeError; no neighbours give 0; otherwise the negated alignment of the given state, or of the own state when given -1, over the module's own table; it succeeds whenever that state and a non-zero max_states are set |
| Metropolis.Accepts | src/node/synchronisation/metrohasting.py:183-195 | a non-positive ΔH is always accepted; a positive one raises TypeError without temperature, and is accepted exactly when the chance is below the exp term and below 1 |
| Metropolis.ZeroTemperatureIsGreedy | src/node/synchronisation/metrohasting.py:189-195 | at temperature 0 every worsening is rejected |
| Metropolis.Step | src/node/synchronisation/metrohasting.py:133-202 | with a state drawn, nothing to do exactly when there are no neighbour states; an adopted state is the one nearest the circular mean; for registered settings the outcome is `Decide` of the energy change dH of moving there; a declined step keeps the current state |
| Metropolis.Decide | src/node/synchronisation/metrohasting.py:183-200 | dH <= 0 adopts the candidate; dH > 0 raises TypeError without a temperature, declines at T = 0, and otherwise adopts exactly when the draw is below min(1, exp(-dH/(kT))) |
| Metropolis.StepFollowsMetropolisRule | src/node/synchronisation/metrohasting.py:178-200 | the same rule stated on the step's outcome, with dH the Hamiltonian at the state nearest the mean minus the current one |
| Metropolis.AgreementIsAdopted | src/node/synchronisation/metrohasting.py:179-186 | when every neighbour has state s and the mean angle is s's, s is adopted |
| Metropolis.MetropolisModule.constructor | src/node/synchronisation/metrohasting.py:14-26 | a new module holds its node, the initial settings and an empty table |
| Metropolis.MetropolisModule.RegisterNewConfig | src/node/synchronisation/metrohasting.py:28-44 | the new settings and status are exactly `Register` of the old settings |
| Metropolis.MetropolisModule.UpdateNeighborState | src/node/synchronisation/metrohasting.py:94-95 | the table gets the state under the integer id, last write wins |
| Metropolis.MetropolisModule.CalculateHamiltonian | src/node/synchronisation/metrohasting.py:54-72 | returns `Hamiltonian` over the module's own table |
| Metropolis.MetropolisModule.NotifyNeighborsOfNewState | src/node/synchronisation/metrohasting.py:74-92 | an unset state raises AttributeError; otherwise the announcement is broadcast until a round reaches every neighbour |
| Metropolis.MetropolisModule.SynchronisationStep | src/node/synchronisation/metrohasting.py:133-202 | per `Step`'s outcome: errors and an empty table change nothing; a declined step is logged and nothing is sent; an adopted state is set and broadcast with the delivered messages and attempt counts that broadcast used, and logged only when the broadcast completes |
| Metropolis.MetropolisModule.Handle | src/node/synchronisation/metrohasting.py:204-214 | no operation raises KeyError and keeps the table; only `new_neighbor-state` (integer id and state, or the parse error) and `start` are acted on; no reply is ever sent |
| Kuramoto.Register | src/node/synchronisation/kuramoto.py:30-49 | an accepted config sets frequency, run, time, c and s, a whole time skew in `[0, 500]`, and dynamic coupling exactly when requested with a dynamic_time |
| Kuramoto.Phase | src/node/synchronisation/kuramoto.py:51-53 | frequency 0 raises ZeroDivisionError; otherwise the fractional part of the elapsed cycles, in `[0, 1)` |
| Kuramoto.PhaseIsPeriodic | src/node/synchronisation/kuramoto.py:51-53 | one period later the phase is the same |
| Kuramoto.CouplingF2 | src/node/synchronisation/kuramoto.py:82-88 | `c / degree`: ZeroDivisionError exactly for degree 0, otherwise the value times the degree is c |
| Kuramoto.CouplingF3 | src/node/synchronisation/kuramoto.py:79-80 | `(c + neighbour_degree / s) / degree`: ZeroDivisionError exactly when s or the degree is 0 |
| Kuramoto.CouplingF3ExtendsF2 | src/node/synchronisation/kuramoto.py:79-88 | with a neighbour degree of 0, f3 equals f2 |
| Kuramoto.NextPeriod | src/node/synchronisation/kuramoto.py:63-75 | the only failure is the dynamic branch dividing by a zero sine |
| Kuramoto.NextPeriodDirection | src/node/synchronisation/kuramoto.py:63-75 | a positive sine never shortens the period (and lengthens it without the dynamic branch); a negative sine shortens it without the dynamic branch |
| Kuramoto.Update | src/node/synchronisation/kuramoto.py:58-77 | degree 0 or frequency 0 raises ZeroDivisionError; a new frequency is never 0 |
| Kuramoto.InPhaseKeepsFrequency | src/node/synchronisation/kuramoto.py:73-77 | a partner exactly in phase leaves the frequency unchanged outside the dynamic phase |
| Kuramoto.DynamicInPhaseRaises | src/node/synchronisation/kuramoto.py:63-72 | in the dynamic phase a partner exactly in phase makes the update divide by zero |
| Kuramoto.CouplingPullsTogether | src/node/synchronisation/kuramoto.py:58-77 | a node ahead of its partner (positive sine of its own phase minus the partner's) gets a lower frequency, never 0 or below, and strictly lower outside the dynamic phase; a node behind gets a higher one outside the dynamic phase whenever the new frequency is positive |
| Kuramoto.KuramotoModule.constructor | src/node/synchronisation/kuramoto.py:12-28 | a new module holds its node and the initial settings, not logging |
| Kuramoto.KuramotoModule.RegisterNewConfig | src/node/synchronisation/kuramoto.py:30-49 | the new settings and status are exactly `Register` of the old settings |
| Kuramoto.KuramotoModule.UpdateNewFrequency | src/node/synchronisation/kuramoto.py:58-77 | the frequency becomes the `Update` value, or the error is raised and the frequency kept |
| Kuramoto.KuramotoModule.RequestSynchro | src/node/synchronisation/kuramoto.py:133-161 | a zero frequency raises ZeroDivisionError and no neighbour raises IndexError, both before any connection and changing nothing; a failed connection uses one transport attempt and changes nothing else; otherwise the request with the own phase and degree goes to the drawn neighbour and the response updates the frequency |
| Kuramoto.KuramotoModule.HandleIncomingSynchro | src/node/synchronisation/kuramoto.py:170-188 | the reply carries the phase computed before the update, and is sent exactly when the update succeeded; any failure keeps the frequency |
| Kuramoto.KuramotoModule.HandleEndSynchro | src/node/synchronisation/kuramoto.py:190-204 | logging stops; `end` is relayed at most once, and flooded_end is set only by a complete broadcast |
| Kuramoto.KuramotoModule.FinishRun | src/node/synchronisation/kuramoto.py:163-168 | at the end of a run `end` is broadcast to every neighbour and logging stops |
| Kuramoto.KuramotoModule.Handle | src/node/synchronisation/kuramoto.py:105-120 | no operation raises KeyError; `start` starts; `synchro-request` raises ZeroDivisionError for a zero frequency, raises the field's error for a bad `initiator_phase`, else takes the frequency `Update` computes and replies with the old phase and the degree, or raises `Update`'s error keeping the frequency, and sends nothing and leaves logging and the end flag alone; `end` stops logging and floods the message once (a repeat does nothing), reporting SendingMessageError when a neighbour is unreachable; no operation, `start` and other operations change nothing |
| NodeCore.Broadcast | src/node/node.py:169-180 | a failed broadcast had neighbours to send to and consumed at least one connection attempt |
| NodeCore.BroadcastDeliversPrefix | src/node/node.py:169-180 | neighbours are reached in order up to the first failed connection, which aborts the rest; success means every neighbour received the message |
| NodeCore.BroadcastPrefix | src/node/node.py:169-180 | the delivered messages go to the first neighbours in list order, each over a successful connection attempt |
| NodeCore.BroadcastSuccess | src/node/node.py:169-180 | the broadcast succeeds exactly when every neighbour got the message, and then it used exactly one attempt per neighbour |
| NodeCore.BroadcastFailure | src/node/node.py:169-180 | a failed broadcast stopped at the failed attempt right after its deliveries, or ran out of attempts |
| NodeCore.BroadcastRetryEndsWithFullRound | src/node/synchronisation/bsrg.py:105-112 | a successful retry loop ends with one complete round to every neighbour in order; an unsuccessful one has used up the transport |
| NodeCore.FirstSuccess | src/node/node.py:72-85 | the index of the first successful connection, or none when all fail |
| NodeCore.Choice | src/node/node.py:60-61 | `choice` fails with IndexError exactly on an empty list and otherwise returns an element of it |
| NodeCore.ChoiceReachesEveryElement | src/node/node.py:60-61 | every element is chosen by some draw |
| NodeCore.LogsMessage | src/node/node.py:63-70 | the log message exists exactly when the node id converts with `int()`, and carries the run, the id and the history |
| NodeCore.NeighborList | src/node/node.py:50 | a missing key raises KeyError, a non-string AttributeError; otherwise each `-`-separated part parsed with `int()` |
| NodeCore.Node.constructor | src/node/node.py:19-34 | a new node has no id, no neighbours, degree 0 and an empty history |
| NodeCore.Node.RegisterNewNodeConfig | src/node/node.py:48-54 | the id is taken first; success exactly when node_id exists and the neighbours parse, and then neighbours, degree and an empty history are set; on failure they keep their values |
| NodeCore.Node.GetRandomNeighbor | src/node/node.py:60-61 | the drawn neighbour is one of the neighbours; no neighbours raise |
| NodeCore.Node.Record | src/node/node.py:26 | the history gets the value under the time stamp, last write wins |
| NodeCore.Node.SendMessageTo | src/node/node.py:143-155 | one connection attempt; the message is delivered exactly when it succeeds |
| NodeCore.Node.SendMessageToRandomNeighbor | src/node/node.py:157-167 | no neighbours raise without sending; otherwise the drawn neighbour is returned when the connection succeeds and SendingMessageError raised when not |
| NodeCore.Node.SendMessageToAllNeighbors | src/node/node.py:169-180 | the delivered packets and status are exactly `Broadcast`'s |
| NodeCore.Node.BroadcastUntilDelivered | src/node/synchronisation/bsrg.py:95-112 | the delivered packets are exactly `BroadcastRetry`'s, whole rounds repeated after each failure |
| NodeCore.Node.SendLogs | src/node/node.py:63-85 | a bad node id fails before sending; otherwise the logs reach the log storage once, at the first successful attempt, and every failed attempt before it is consumed |
| Dispatch.ModelNamed | src/node/node.py:37-44 | each of the four tags names its module and no other tag names one |
| Dispatch.SelectModel | src/node/node.py:36-46 | a missing tag raises KeyError; an unknown tag keeps the previous module |
| Dispatch.RouteOf | src/node/node.py:207-230 | `node`/`config` configures; `synchronization` reaches the active module exactly when one exists; a message that is not JSON is dropped; a missing key raises KeyError |
| Dispatch.NothingReachesAModuleBeforeConfig | src/node/node.py:217-220 | before any config no message reaches a module |
| Dispatch.Swallow | src/node/node.py:221-226 | an AttributeError raised by a module's handle is swallowed, every other error passes through |
| Dispatch.NodeProcess.constructor | src/node/node.py:19-34 | a new process has no active module and an unconfigured node |
| Dispatch.NodeProcess.Configure | src/node/node.py:36-54 | node config first: a missing node_id changes nothing, a bad neighbour list changes only the id, and on either error the modules are untouched; a missing tag raises KeyError after the node config with the modules untouched; then a named tag gets a fresh module registered from the initial settings, an unknown tag lets the module already in place re-register from the settings it holds, and an unknown first tag raises AttributeError; every module other than the chosen one is kept as it was, and the transport is never used |
| Dispatch.NodeProcess.StartModule | src/node/node.py:37-46 | the named module is a fresh instance, the other modules are kept, and its state and status are what its own register_new_config gives from the initial state |
| Dispatch.NodeProcess.ReregisterModule | src/node/node.py:36-46 | with no named tag the instance in place reads the message: its state and status are what its register_new_config gives from the settings it held; the other modules are kept |
| Dispatch.NodeProcess.HandleConnection | src/node/node.py:196-230 | per `RouteOf`: non-JSON and dropped messages change nothing in the node or any module, a routing error is raised and changes nothing, a config's status and new state are what `Configure` promises, and a module message gets the active module's `Handle` reaction and state change, with an AttributeError caught as done, keeping the other modules and the node's id and neighbours |
| Wire.ParseInt | src/node/node.py:50 | Python `int()` of a string made of an optional sign and ASCII decimal digits; a successful parse needs a non-empty string |
| Wire.ParseIntOfNatToString | src/node/node.py:50 | `int(str(n)) == n` for every natural number |
| Wire.IntToStringRoundTrip | src/node/synchronisation/bsrg.py:101 | `int(str(i)) == i` for every integer, which the state announcement relies on |
| Wire.SplitJoin | src/node/node.py:50 | splitting `"-".join(parts)` gives the parts back when no part contains `-` |
| Wire.JoinSplit | src/node/node.py:50 | joining the parts of a split gives the string back |
| Wire.ParseInts | src/node/node.py:50 | the list comprehension parses every part, in order, and fails exactly when some part does not parse |
| Wire.Truncate | src/configuration/popularitynetwork.py:36-39 | Python `int()` of a float truncates toward zero |
| Wire.ParseRealExtendsParseInt | src/node/synchronisation/clock.py:40 | `float()` of an integer string is that integer |
| Wire.Lookup | src/node/synchronisation/clock.py:39 | indexing a message succeeds exactly when the key is present, with KeyError of the key otherwise |
| Dict.Put | src/node/synchronisation/bsrg.py:114-115 | after `d[k] = v`, k maps to v, every other key is unchanged, and a new key is appended at the end |
| Dict.PutPut | src/node/synchronisation/bsrg.py:114-115 | a second write to the same key overwrites the first |
| Dict.Get | src/node/synchronisation/bsrg.py:114-115 | a lookup succeeds exactly for the dict's keys |
| CreateConfig.RelabelGraphmlId | src/configuration/create_config.py:56-58 | a GraphML id `n<k>` is relabelled to `<k>` |
| CreateConfig.Update | src/configuration/create_config.py:82-141 | `ConfigParser` section update succeeds exactly when every value is a string, TypeError otherwise (the interpolation check on `%` is left out) |
| CreateConfig.UpdateKeys | src/configuration/create_config.py:82-141 | an update with new keys appends them after the existing keys, in order |
| CreateConfig.UpdateValues | src/configuration/create_config.py:82-141 | after an update every new key has its value and every other key is untouched |
| CreateConfig.Fields | src/configuration/create_config.py:74-141 | each model writes its own fields, with the dynamic fields only when `dynamic == "True"`, and none for an unknown model |
| CreateConfig.FieldsAreFresh | src/configuration/create_config.py:74-141 | model and dynamic fields never repeat a key written before them |
| CreateConfig.NodeSectionWritten | src/configuration/create_config.py:74-141 | a node's section is written exactly when every field value is a string (the interpolation check on `%` is left out) |
| CreateConfig.UpdateTwice | src/configuration/create_config.py:81-96 | two successive updates write the keys of both, in order, and keep the base keys |
| CreateConfig.NodeSectionKeys | src/configuration/create_config.py:74-141 | a section's keys are node_id, synchronization_model, neighbors, time, then the model fields |
| CreateConfig.NodeSectionCommonValues | src/configuration/create_config.py:74-79 | node_id, model, the `-`-joined neighbours and the time are written as given |
| CreateConfig.DefaultGammaIsRejected | src/configuration/create_config.py:116-123 | for clock or mypotts with dynamic coupling and no gamma given, the integer default makes the update raise TypeError |
| CreateConfig.DefaultGammaFixed | src/configuration/create_config.py:31 | with a string default, the section is written and gamma is `"1"` |
| CreateConfig.NamesParseBack | src/configuration/create_config.py:70-77 | each neighbour id is written as text free of `-` that Python `int()` reads back as the same id |
| CreateConfig.NeighborsRoundTrip | src/configuration/create_config.py:70-77 | the neighbour text a section writes parses back, by the node's own parser, to the same ids in order |
| CreateConfig.IsolatedNodeCannotBeConfigured | src/configuration/create_config.py:70-77 | a node without neighbours gets an empty neighbour text, which the node rejects with ValueError |
| CreateConfig.ReplaceDots | src/configuration/create_config.py:143-146 | every `.` becomes `-`, nothing else changes |
| CreateConfig.FileName | src/configuration/create_config.py:143-146 | the file lies under `./created/<model>` and ends in `.ini`, with no other dot |
| CreateConfig.FileNamesCollide | src/configuration/create_config.py:143-146 | two graph files differing only in `.` versus `-` get the same config file name |
| CreateConfig.RelabelAllGraphmlIds | src/configuration/create_config.py:56-58 | relabelling the GraphML ids `n<k>` gives the decimal names of the ids k, in order, the names the neighbour lists are written with |
| CreateConfig.SectionsForStep | src/configuration/create_config.py:67-79 | adding one node's section keeps all earlier sections and adds this node's |
| CreateConfig.BuildConfig | src/configuration/create_config.py:61-141 | the defaults are model and graph; every node gets its section; an error comes from the first node's section |
| CreateConfig.SectionErrorDoesNotDependOnNode | src/configuration/create_config.py:74-141 | whether a section can be written does not depend on the node |
| PopularityNetwork.EdgeBudget | src/configuration/popularitynetwork.py:36-39 | intra plus inter edges make up the edge count, and the intra share lies in `[0, edges]` |
| PopularityNetwork.CommunitySize | src/configuration/popularitynetwork.py:44 | ZeroDivisionError exactly for 0 communities; otherwise the ceiling of nodes over communities |
| PopularityNetwork.IntraSplit | src/configuration/popularitynetwork.py:49-50 | `divmod` of the intra edges by the community count |
| PopularityNetwork.FeasibleCountsPairs | src/configuration/popularitynetwork.py:53-58 | the feasibility check holds exactly when one community's pairs can hold its share of intra edges |
| PopularityNetwork.ChunksCover | src/configuration/popularitynetwork.py:43-47 | the communities, read one after another, list `0..nodes-1` in order |
| PopularityNetwork.ChunksShape | src/configuration/popularitynetwork.py:43-47 | every community is a non-empty run of consecutive ids within range, of exactly `size` ids except the last |
| PopularityNetwork.ChunksOrdered | src/configuration/popularitynetwork.py:43-47 | every id of an earlier community is below every id of a later one |
| PopularityNetwork.ChunksPartition | src/configuration/popularitynetwork.py:43-47 | the chunks are consecutive runs of at most `size` ids, all full but the last, that together list `0..nodes-1` in order |
| PopularityNetwork.Communities | src/configuration/popularitynetwork.py:43-47 | a zero size raises ValueError; a negative one gives no communities; otherwise the chunks |
| PopularityNetwork.LastCommunityEscapesTheCheck | src/configuration/popularitynetwork.py:44-58 | 10 nodes, 4 communities, 8 intra edges pass the check, yet the last community is the single node 9, which has no pair |
| PopularityNetwork.LastCommunityRedrawsForever | src/configuration/popularitynetwork.py:44-58 | 8 nodes, 3 communities, 6 intra edges pass the check, yet the last community [6, 7] has one pair for two edges, and every pair drawn there is the edge (6, 7) |
| PopularityNetwork.FeasibleFixedChunks | src/configuration/popularitynetwork.py:53-58 | checking both the first and the last chunk is checking every chunk |
| PopularityNetwork.FeasibleFixedNoSingleton | src/configuration/popularitynetwork.py:53-58 | the corrected check rules out a single-node community whenever intra edges are wanted |
| PopularityNetwork.SampleTwo | src/configuration/popularitynetwork.py:85 | `random.sample(range(n), 2)` gives two different ids below n |
| PopularityNetwork.Normalise | src/configuration/popularitynetwork.py:87-90 | an edge is stored with the smaller id first |
| PopularityNetwork.TreeEdges | src/configuration/popularitynetwork.py:79-80 | each later member of a community gets one edge from an earlier member |
| PopularityNetwork.TreeEdgesWithin | src/configuration/popularitynetwork.py:79-80 | the tree edges are distinct and stay inside the community |
| PopularityNetwork.FreshPair | src/configuration/popularitynetwork.py:84-94 | a drawn pair is inside the community and not yet an edge; when every pair the community can draw is already an edge, no draw sequence ends the loop |
| PopularityNetwork.CommunityEdges | src/configuration/popularitynetwork.py:77-96 | a community gets `max(size - 1, per_community)` distinct inner edges, the tree first; a single node with edges wanted raises ValueError |
| PopularityNetwork.FreshIntraEdge | src/configuration/popularitynetwork.py:100-113 | a new edge inside some community, not already present |
| PopularityNetwork.ExtraIntra | src/configuration/popularitynetwork.py:98-113 | the extra intra edges extend the list, stay inside communities and keep it duplicate-free |
| PopularityNetwork.FreshInterEdge | src/configuration/popularitynetwork.py:117-130 | a new edge between two different communities, smaller id first |
| PopularityNetwork.InterEdges | src/configuration/popularitynetwork.py:116-130 | exactly `inter` new edges across communities, duplicate-free |
| PopularityNetwork.AllCommunityEdges | src/configuration/popularitynetwork.py:75-96 | the inner edges of all communities, duplicate-free, their count the sum of the per-community counts |
| PopularityNetwork.OneTry | src/configuration/popularitynetwork.py:75-130 | one attempt yields distinct edges, each inside a community or across two, at least intra plus inter many |
| PopularityNetwork.EdgeInRange | src/configuration/popularitynetwork.py:132-134 | every edge joins two node ids of the graph |
| PopularityNetwork.Generate | src/configuration/popularitynetwork.py:30-159 | a zero community count raises ZeroDivisionError; communities that cannot hold their share of intra edges raise NetworkCreationError before any draw; a returned network is connected, duplicate-free, within the node ids, has every edge inside one community or between two, and holds at least the intra and inter edges asked for, after fewer than 100 tries; it gives up with NetworkCreationError exactly when 100 tries were made |
| CommonMethods.MembersSplit | src/evaluation/common_methods.py:64-81 | every listed neighbour counts as a member or a non-member of the community |
| CommonMethods.AllMembers | src/evaluation/common_methods.py:64-81 | all listed neighbours are members exactly when each is in the community |
| CommonMethods.CountList | src/evaluation/common_methods.py:64-81 | the counting loop gives the member and non-member counts |
| CommonMethods.Tally | src/evaluation/common_methods.py:85-106 | without "in" nothing is counted; "in" counts split into correct and incorrect; without "out" the out counts stay 0 and the entry is incomplete |
| CommonMethods.CountDeviation | src/evaluation/common_methods.py:85-106 | the loop's counts are `Tally`'s |
| CommonMethods.SourceCounts | src/evaluation/common_methods.py:82-108 | counts are kept for a prefix of the deviations, in their order |
| CommonMethods.SourceCountsComplete | src/evaluation/common_methods.py:82-108 | when every deviation has both lists, every deviation is counted and its counts add up to the list lengths |
| CommonMethods.CountSource | src/evaluation/common_methods.py:82-108 | the loop's counts are `SourceCounts` |
| CommonMethods.CountDetections | src/evaluation/common_methods.py:55-108 | exactly the nodes of the communities are counted, each against its own community |
| CommonMethods.Ratio | src/evaluation/common_methods.py:123-149 | a share of a positive total lies in `[0, 1]` |
| CommonMethods.NodeMetric | src/evaluation/common_methods.py:123-149 | no counts at all raise ZeroDivisionError; otherwise the three rates, as written, in `[0, 1]` |
| CommonMethods.NodeMetricFixed | src/evaluation/common_methods.py:123-149 | the same error case; the rates with precision over the "in" list and recall over the true members |
| CommonMethods.PrecisionAndRecallAsWritten | src/evaluation/common_methods.py:131-149 | a perfect classification (1 correct in, 1 correct out) gets precision 0.5; one missed member of two still gets recall 1 |
| CommonMethods.PrecisionAndRecallFixed | src/evaluation/common_methods.py:131-149 | the corrected rates give precision 1 and recall 0.5 on those inputs |
| CommonMethods.PrecisionAsWrittenIsOneIff | src/evaluation/common_methods.py:131-139 | precision as written is 1 exactly when some member was correctly put in and no outsider was correctly put out |
| CommonMethods.RecallAsWrittenIsOneIff | src/evaluation/common_methods.py:140-149 | recall as written, once something was put in, is 1 exactly when no outsider was put in |
| CommonMethods.PrecisionIsOneIff | src/evaluation/common_methods.py:131-139 | the corrected precision is 1 exactly when the "in" list is non-empty and all correct |
| CommonMethods.RecallIsOneIff | src/evaluation/common_methods.py:140-149 | the corrected recall is 1 exactly when no member was put "out" |
| CommonMethods.DetectionRateIsOneIff | src/evaluation/common_methods.py:123-129 | the detection rate is 1 exactly when nothing was misclassified |
| CommonMethods.Row | src/evaluation/common_methods.py:115-154 | one metric per deviation, in order, failing with ZeroDivisionError exactly when some deviation has no counts |
| CommonMethods.EntriesExtend | src/evaluation/common_methods.py:115-118 | recording a new node's entry keeps every earlier node's entry and the node order |
| CommonMethods.NodeRow | src/evaluation/common_methods.py:120-154 | the loop over one node's counted deviations gives that node's row, or ZeroDivisionError |
| CommonMethods.NodeMetrics | src/evaluation/common_methods.py:110-158 | every node gets its row (empty when it was not counted); any zero count raises ZeroDivisionError |
| CommonMethods.Mean | src/evaluation/common_methods.py:211-213 | `statistics.mean` raises StatisticsError exactly on an empty list |
| CommonMethods.SumBounds | src/evaluation/common_methods.py:211-213 | bounds on the elements bound the sum |
| CommonMethods.MeanBounds | src/evaluation/common_methods.py:211-213 | the mean lies within the elements' bounds |
| CommonMethods.Column | src/evaluation/common_methods.py:206-209 | one node's metric per node, in order, and KeyError of the deviation when some node lacks it |
| CommonMethods.ColumnOf | src/evaluation/common_methods.py:206-209 | the loop over the nodes gives `Column` |
| CommonMethods.MetricsForRun | src/evaluation/common_methods.py:195-215 | every deviation gets the mean of each metric over the nodes, all in `[0, 1]` when the node metrics are; a failure is StatisticsError or the KeyError of a missing deviation |
| CommonMethods.RecordedPut | src/evaluation/common_methods.py:201-213 | recording one deviation's means keeps the others recorded |
| CommonMethods.ColumnInUnit | src/evaluation/common_methods.py:201-213 | means of metrics in `[0, 1]` stay in `[0, 1]` |
| Classify.SplitByBound | src/evaluation/detect_communities_auc.py:294-305 | the split loop's lists are the neighbours within and beyond the bound, in order |
| Classify.SplitCovers | src/evaluation/detect_communities_auc.py:294-305 | every neighbour lands in exactly one of the two lists |
| Classify.WithinIff | src/evaluation/detect_communities_auc.py:298-301 | a neighbour is "in" exactly when its score is at most the bound |
| Classify.BeyondIff | src/evaluation/detect_communities_auc.py:302-305 | a neighbour is "out" exactly when its score exceeds the bound |
| Classify.ExactlyOneList | src/evaluation/detect_communities_auc.py:294-305 | with distinct neighbours, each is "in" or "out" according to its own score |
| Classify.Monotone | src/evaluation/detect_communities_auc.py:284-305 | a larger bound keeps every "in" neighbour "in" and every "out" neighbour was "out" at the smaller bound |
| DetectAuc.Scores | src/evaluation/detect_communities_auc.py:294-298 | the scored neighbours are exactly the neighbours with an AUC, in order; every score is non-negative, and zero exactly when the neighbour's AUC is the mean |
| DetectAuc.Table | src/evaluation/detect_communities_auc.py:284-305 | nine deviations get a split each |
| DetectAuc.ClassifySource | src/evaluation/detect_communities_auc.py:284-305 | the deviations are 0.1 to 0.9 and each gets the split of the neighbours at that share of the mean |
| DetectAuc.EveryNeighbourOnce | src/evaluation/detect_communities_auc.py:294-305 | at every deviation each neighbour appears once across "in" and "out" |
| DetectAuc.InIff | src/evaluation/detect_communities_auc.py:298-305 | a neighbour is "in" exactly when `abs(mean - auc) <= deviation * mean`, "out" otherwise |
| DetectAuc.InMonotone | src/evaluation/detect_communities_auc.py:284-305 | with a non-negative mean, "in" at a deviation stays "in" at larger ones |
| DetectAuc.DetectFromSource | src/evaluation/detect_communities_auc.py:271-307 | a source without AUCs raises StatisticsError; otherwise every source gets the split table at its mean, and the deviations are 0.1 to 0.9 |
| DetectAuc.NeighborAucs | src/evaluation/detect_communities_auc.py:225-230 | the neighbours that have an AUC, with it |
| DetectAuc.NeighborAucsKeys | src/evaluation/detect_communities_auc.py:225-230 | a node is kept exactly when it is a neighbour and has an AUC |
| DetectAuc.CollectAucs | src/evaluation/detect_communities_auc.py:225-230 | the loop gives `NeighborAucs` |
| DetectAuc.SumMean | src/evaluation/detect_communities_auc.py:233-235 | `sum / len` raises ZeroDivisionError exactly on no values, and otherwise is the mean |
| DetectAuc.DetectNode | src/evaluation/detect_communities_auc.py:225-268 | one node with no neighbour AUC raises ZeroDivisionError; otherwise its split table at its neighbours' mean |
| DetectAuc.DetectCommunities | src/evaluation/detect_communities_auc.py:217-268 | a node with no neighbour AUC raises; otherwise every node gets the split table at its neighbours' mean |
| MutualMembership.RemoveFirst | src/evaluation/detect_communities_auc.py:345 | `list.remove` takes out one occurrence |
| MutualMembership.Common | src/evaluation/detect_communities_auc.py:321-325 | the intersection holds each node in both lists, once |
| MutualMembership.Votes | src/evaluation/detect_communities_auc.py:327-337 | the vote succeeds exactly when every voter has a table, and counts at most one vote per voter |
| MutualMembership.CountVotes | src/evaluation/detect_communities_auc.py:327-337 | the voting loop gives `Votes` |
| MutualMembership.VotesPrefix | src/evaluation/detect_communities_auc.py:327-337 | the first voter without a table is the KeyError raised |
| MutualMembership.Step | src/evaluation/detect_communities_auc.py:316-346 | one repair keeps the nodes and never lengthens the source's "in" list |
| MutualMembership.StepVote | src/evaluation/detect_communities_auc.py:339-346 | a winning vote adds the source to the target's "in"; otherwise the target moves from the source's "in" to its "out" and nothing else changes |
| MutualMembership.StepKeeps | src/evaluation/detect_communities_auc.py:316-346 | the source's listed neighbours are unchanged, and any other node only gains the source in "in" |
| MutualMembership.RepairSource | src/evaluation/detect_communities_auc.py:313-346 | the loop over the changing "in" list gives `RepairFrom` |
| MutualMembership.RepairKeepsSourceListed | src/evaluation/detect_communities_auc.py:313-346 | repairing a source keeps the multiset of its listed neighbours |
| MutualMembership.RepairOnlyAddsSource | src/evaluation/detect_communities_auc.py:313-346 | repairing a source only ever adds that source to other nodes' lists |
| MutualMembership.SkipAfterRemoval | src/evaluation/detect_communities_auc.py:313-346 | after a removal the next target is skipped: node 2 is never examined |
| MutualMembership.RepairAll | src/evaluation/detect_communities_auc.py:312-346 | a failure is a KeyError: of a node without detections, or of the deviation for a source without it |
| MutualMembership.Repair | src/evaluation/detect_communities_auc.py:312-346 | the loop over the sources gives `RepairAll` |
| MutualMembership.RepairAllOnlyAdds | src/evaluation/detect_communities_auc.py:312-346 | the whole repair keeps the nodes and only adds sources to listed neighbours |
| MutualMembership.Slice | src/evaluation/detect_communities_auc.py:311-313 | the tables at one deviation, for exactly the nodes that have it |
| MutualMembership.WriteBack | src/evaluation/detect_communities_auc.py:311-346 | writing the repaired tables back keeps the nodes |
| MutualMembership.Mutual | src/evaluation/detect_communities_auc.py:310-350 | without node "0" KeyError; only node "0"'s first deviation is repaired; the other deviations are untouched |
| MutualMembership.OtherDeviationsKept | src/evaluation/detect_communities_auc.py:348 | every other deviation keeps its lists |
| DetectDiff.MaxStatesRead | src/evaluation/detect_communities_diff_at_t.py:82-84 | as written, metropolis keeps max_states at -1 |
| DetectDiff.MaxStatesReadFixed | src/evaluation/detect_communities_diff_at_t.py:82-84 | the corrected read takes the configured max_states for every discrete model |
| DetectDiff.MaxDiff | src/evaluation/detect_communities_diff_at_t.py:176-186 | for the discrete models the largest difference is `max_states // 2` |
| DetectDiff.Deviations | src/evaluation/detect_communities_diff_at_t.py:184-191 | a zero max_diff raises ZeroDivisionError; otherwise the 19 deviations k/20 of max_diff |
| DetectDiff.DeviationsBelowMaxDiff | src/evaluation/detect_communities_diff_at_t.py:184-191 | the deviations start at max_diff/20, rise by that step and stay below max_diff |
| DetectDiff.DiffIsCircularDistance | src/evaluation/detect_communities_diff_at_t.py:199-202 | for an even number of states the wrapped difference is the distance on the circle, at most half the circle |
| DetectDiff.Scores | src/evaluation/detect_communities_diff_at_t.py:194-202 | the scored neighbours are the listed neighbours, in order; for an even number of states, max_diff half of it and values on the circle, every score lies in `[0, max_diff]` |
| DetectDiff.Table | src/evaluation/detect_communities_diff_at_t.py:189-211 | one split per deviation, in order |
| DetectDiff.ScoreNeighbours | src/evaluation/detect_communities_diff_at_t.py:194-202 | KeyError exactly when some neighbour has no value, otherwise `Scores` |
| DetectDiff.ClassifySource | src/evaluation/detect_communities_diff_at_t.py:189-211 | the loop gives `Table` |
| DetectDiff.DetectCommunities | src/evaluation/detect_communities_diff_at_t.py:112-216 | no nodes give empty results; otherwise success for all nodes with values when the deviations exist; every node gets its split table; a zero max_diff fails |
| DetectDiff.RunDetection | src/evaluation/detect_communities_diff_at_t.py:82-98 | with the corrected read, metropolis gets the deviations of half its configured states |
| DetectDiff.InIff | src/evaluation/detect_communities_diff_at_t.py:204-211 | a neighbour is "in" exactly when its difference is at most the deviation, "out" otherwise |
| DetectDiff.InMonotone | src/evaluation/detect_communities_diff_at_t.py:204 | "in" at a deviation stays "in" at larger ones |
| DetectDiff.MetropolisAllIn | src/evaluation/detect_communities_diff_at_t.py:82-84 | as written, metropolis has max_diff -1 and every neighbour is "in" at every deviation |
| DetectDiff.AllWithin | src/evaluation/detect_communities_diff_at_t.py:204-211 | when every score is within the bound, all neighbours are "in" and none "out" |
| DetectDiff.MetropolisFixedSeparates | src/evaluation/detect_communities_diff_at_t.py:82-84 | with the corrected read, a neighbour half the circle away is "out" at every deviation |
| MajorityVote.Count | src/evaluation/majority_vote.py:72-78 | the count is at most the number of other runs, and its only error is the TypeError of a non-dict entry |
| MajorityVote.CountErrIff | src/evaluation/majority_vote.py:72-78 | counting fails exactly when a non-dict entry is met before any missing key |
| MajorityVote.CountPositiveIff | src/evaluation/majority_vote.py:72-80 | the count is positive exactly when some run before the first missing key lists the target |
| MajorityVote.CountStopsAtMissing | src/evaluation/majority_vote.py:73-78 | a KeyError ends the count: later runs are not consulted |
| MajorityVote.CountVotes | src/evaluation/majority_vote.py:72-78 | the loop gives `Count` |
| MajorityVote.MergeSide | src/evaluation/majority_vote.py:70-100 | the loop over one side's targets appends `SideSplit` to what was merged before |
| MajorityVote.MergeEntry | src/evaluation/majority_vote.py:66-101 | a non-dict entry gives empty lists; a missing "in" or "out" raises KeyError of it |
| MajorityVote.MergeDeviation | src/evaluation/majority_vote.py:66-101 | the two loops give `MergeEntry` |
| MajorityVote.KeepIff | src/evaluation/majority_vote.py:80-81 | a target stays on its side exactly when another run agrees |
| MajorityVote.FlipIff | src/evaluation/majority_vote.py:82-83 | a target flips exactly when no run agrees |
| MajorityVote.KeepFlipCover | src/evaluation/majority_vote.py:69-101 | without a TypeError every target is kept or flipped |
| MajorityVote.AloneFlipsAll | src/evaluation/majority_vote.py:58-60 | with no other run every target flips |
| MajorityVote.EveryTargetOnce | src/evaluation/majority_vote.py:69-101 | the merged lists hold the first run's targets, each once |
| MajorityVote.SideSplitHas | src/evaluation/majority_vote.py:70-100 | a target of one side lands on that side exactly when another run agrees, on the opposite side exactly when none does, and nowhere when counting that side raises TypeError |
| MajorityVote.StaysInIff | src/evaluation/majority_vote.py:70-83 | an "in" target stays "in" exactly when another run lists it "in", and moves "out" otherwise |
| MajorityVote.StaysOutIff | src/evaluation/majority_vote.py:87-100 | an "out" target stays "out" exactly when another run lists it "out", and moves "in" otherwise |
| MajorityVote.SingleRunFlips | src/evaluation/majority_vote.py:58-100 | with one run, "in" and "out" are swapped |
| MajorityVote.BrokenSideDropped | src/evaluation/majority_vote.py:68-85 | a TypeError while counting "in" targets drops that whole side |
| MajorityVote.MergeNode | src/evaluation/majority_vote.py:66-101 | every deviation of a node is merged, in order; an error is the KeyError of a missing list |
| MajorityVote.MergeRun | src/evaluation/majority_vote.py:63-101 | every node of the first run is merged, in order |
| MajorityVote.MergeDeviations | src/evaluation/majority_vote.py:66-101 | the loop over a node's deviations gives `MergeNode` |
| MajorityVote.MergeNodeErrPrefix | src/evaluation/majority_vote.py:66-101 | the first failing deviation's error is the node's |
| MajorityVote.MergeRunErrPrefix | src/evaluation/majority_vote.py:63-101 | the first failing node's error is the run's |
| MajorityVote.Merge | src/evaluation/majority_vote.py:58-102 | no runs raise IndexError; the result has the first run's nodes; a failure is a missing "in" or "out" |
| MajorityVote.MajorityVote | src/evaluation/majority_vote.py:58-102 | the merge loop gives `Merge` |

## Left out

- I/O: sockets, asyncio tasks, sleeps and the log storage server. Connection outcomes are an oracle; retry loops stop when it runs out.
- Floating point: reals stand in for floats. `"%.2f"` rounding of the deviations is the exact value.
- The np.arange length in the difference detection is taken as 19 steps, as for exact arithmetic. `np.arange` with a zero step is taken as ZeroDivisionError.
- sin, cos, exp, atan2 and the circular mean are inputs. Kuramoto.Phase uses exact fractional parts. Because exp is an input, the OverflowError `math.exp` raises for a huge exponent (a negative temperature, with the tiny Boltzmann constant) is not modelled in Metropolis.Decide.
- Randomness (`randint`, `choice`, `sample`, `random`) is drawn from given numbers.
- The spline interpolation and AUC integrals are inputs: values at the detection time, or AUCs per neighbour.
- The Louvain communities are an input partition.
- `networkx` graph reading and connectivity: `Generate` takes connectivity as a predicate.
- PopularityNetwork.ExtraIntra: no termination claim. Its counter only decreases on duplicates, and the draws bound the loop.
- The ten repeated mutual-repair calls and the command-line argument parsing of the evaluation scripts.
- The file writes and JSON file reads of the evaluation scripts. majority_vote.py:103-110 only composes the metric functions modelled in CommonMethods and writes a file.
- `exit()` in the difference detection is an error result.
- The `log_task` coroutines, `send_message_to_local_cache` and the IP cache of node.py.
- `server.py`, `control.py`, `create_config_and_network.py`, `watts_strogatz.py` and the plot and analysis scripts.
- NodeCore.Node.SendLogs: the endless retry stops when the transport oracle runs out.
- Bsrg.BsrgModule.NotifyNeighborsOfNewState: the endless retry stops when the transport oracle runs out (reported as `Stalled`).
- Metropolis.MetropolisModule.NotifyNeighborsOfNewState: the same.
- Kuramoto.KuramotoModule.RequestSynchro: the response to a request is a parameter; the peer that computes it is not part of this model. A peer that fails without replying, which makes `json.loads` raise JSONDecodeError or the read block, cannot be expressed by a real-valued response.
- CreateConfig.BuildConfig: runs the corrected program, with the gamma default `"1"` (CreateConfig.DefaultGammaFixed). As written, a clock or mypotts config with `--dynamic True` and no `--gamma` raises TypeError when the section is written; CreateConfig.DefaultGammaIsRejected shows that case (first row under Findings).
- PopularityNetwork.Generate: runs the corrected feasibility check over every community (PopularityNetwork.FeasibleFixed) and refuses what it rejects. As written, only the full community size is checked. Then 10 nodes, 4 communities and 8 intra edges raise ValueError in `random.sample`, and other inputs, such as 8 nodes, 3 communities and 6 intra edges, keep redrawing forever. PopularityNetwork.LastCommunityEscapesTheCheck shows the first case (second row under Findings), PopularityNetwork.LastCommunityRedrawsForever and PopularityNetwork.FreshPair the second.
- CommonMethods.Row: computes the corrected rates of CommonMethods.NodeMetricFixed, not the as-written CommonMethods.NodeMetric (third row under Findings).
- CommonMethods.NodeRow: the same corrected rates, through CommonMethods.Row.
- CommonMethods.NodeMetrics: the same corrected rates, through CommonMethods.Row.
- CommonMethods.Column, CommonMethods.Rates, CommonMethods.Precisions, CommonMethods.Recalls and CommonMethods.MetricsForRun read the corrected metrics of CommonMethods.NodeMetrics.
- CommonMethods.PrecisionIsOneIff: states the corrected precision. For precision as written, see CommonMethods.PrecisionAsWrittenIsOneIff.
- CommonMethods.RecallIsOneIff: states the corrected recall. For recall as written, see CommonMethods.RecallAsWrittenIsOneIff.
- DetectDiff.RunDetection: runs the corrected read of max_states, which includes metropolis (DetectDiff.MetropolisFixedSeparates). As written, every metropolis neighbour is "in" (DetectDiff.MetropolisAllIn, fourth row under Findings).
- Dispatch.NodeProcess.HandleConnection: the message is a whole parsed JSON object. Two source behaviours are not modelled. First, the source reads at most 2000 bytes (src/node/node.py:207), so a longer message is cut short before it is parsed. Second, a JSON value that is not an object raises TypeError at `msg_dict["type"]` (src/node/node.py:213). The input, an optional message, cannot represent either case.
- MutualMembership.RepairAll: a target or voter missing from the deviation's table raises KeyError of that node. Python raises KeyError of the deviation when the node has detections but lacks that deviation. The table does not keep the two cases apart.
- CreateConfig.Update: `ConfigParser`'s basic interpolation check is not modelled. Setting a value that holds a `%` which is neither `%%` nor part of `%(name)s` (a `--gamma` or `--time` text, say) raises ValueError in the source; here such a value is written.
- CreateConfig.NodeSectionWritten: the same interpolation ValueError is left out, for the four common fields as well as the model fields.
- CreateConfig.BuildConfig: the same interpolation ValueError is left out, for the DEFAULT section (model name and GraphML text) as well as the node sections.
- Wire.ParseInt: reads only an optional sign followed by ASCII decimal digits. Python `int()` also strips surrounding whitespace and accepts single underscores between digits and non-ASCII decimal digits (`int(" 3")`, `int("3\n")`, `int("1_0")`); here those strings give ValueError. The gap carries over to Wire.ToInt, SyncSettings.IntField and NodeCore.NeighborList.
- Wire.ParseReal: reads only plain decimal literals. Exponents, `inf`, `nan`, surrounding whitespace and underscores, which Python `float()` accepts, give ValueError here.
- Wire.Str: a float is rendered as its truncated integer part followed by `.0`; Python's `str()` of a float keeps its fractional digits.
- MutualMembership.Common: keeps the intersection in first-occurrence order, where Python iterates the set in hash order. The elements are the same; only the KeyError reported first for a missing voter can name a different node.
- MajorityVote: a node's value in a run is always a dict, and an "in" or "out" value is always a list. A non-dict value, or a string list (where `in` tests for a substring), is not representable.

## Findings

| source | as written | input that shows it | evidently intended | confidence | as-written member | corrected member |
|---|---|---|---|---|---|---|
| src/configuration/create_config.py:31 | the default gamma is the integer 1, and `ConfigParser` section updates accept only strings | clock or mypotts with `--dynamic True` and no `--gamma` | a default of `"1"`, so the section is written | not executed | CreateConfig.DefaultGammaIsRejected | CreateConfig.DefaultGammaFixed |
| src/configuration/popularitynetwork.py:44-58 | the feasibility check looks only at the full community size, while the last chunk can be smaller | 10 nodes, 4 communities, 8 intra edges: the last community is node 9 alone, which cannot hold an edge | checking the smallest (last) community too | not executed | PopularityNetwork.LastCommunityEscapesTheCheck | PopularityNetwork.FeasibleFixedNoSingleton |
| src/evaluation/common_methods.py:131-149 | precision divides correct_in by correct_in + correct_out, and recall divides it by correct_in + incorrect_in | counts (correct in 1, wrong in 0, correct out 1, wrong out 0) give precision 0.5 for a perfect split; (1, 0, 0, 1) with 2 members gives recall 1 | precision = correct_in / (correct_in + incorrect_in), recall = correct_in / (correct_in + incorrect_out) | not executed | CommonMethods.PrecisionAndRecallAsWritten | CommonMethods.PrecisionAndRecallFixed |
| src/evaluation/detect_communities_diff_at_t.py:82-84 | max_states is read only for mypotts and clock, so metropolis keeps -1 and max_diff is -1 | any metropolis run: every neighbour is "in" at every deviation | reading max_states for metropolis too | not executed | DetectDiff.MetropolisAllIn | DetectDiff.MetropolisFixedSeparates |
