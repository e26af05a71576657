# Verified models of DHCP-DDNS, the Control-agent parser and the message manual

This project models, in Dafny, the parts of Kea that carry state or do real searching, and proves
what they promise:

- **the DHCP-DDNS engine** (`QueueMgr`, `UpdateMgr`, `Process`, `ProcessRuns`, `ProcessLoop`,
  `Intake`, `Operation`, `Drain`): the request queue and its listener, the first-fit scheduler, and the event loop that
  drives both. A run is any sequence of loop turns and IO handlers; the main results hold in every
  reachable state or over every run;
- **the add transaction** (`DnsUpdate`, `NameAdd`, `NameAddRuns`, `NameAddAnswers`, `NameAddObject`,
  `Ownership`): the state machine that adds a lease to DNS, the requests it sends, what a server that
  follows RFC 2136 does with them, and any interleaving of any number of transactions over one zone;
- **the configuration of DHCP-DDNS** (`Domains`, `DomainMatch`, `ReverseNames`, `AddressBlocks`, `D2Config`,
  `D2Entries`, `D2CfgMgr`, `Configured`): matching names and addresses to domains, parsing a configuration, printing it back,
  replacing the one in force;
- **the Control-agent parser** (`JsonString`, `IncludeStack`, `ElementStack`, `AgentGrammar`,
  `AgentParser`): string escapes, nested includes, and the semantic actions on a stack of shared
  elements;
- **the message manual generator** (`Messages`).

`Text` and `OrderedMap` hold shared vocabulary.

## How to read it

Code that works on objects is given twice. A pure function says what one call does to a value, and
lemmas prove what is promised of it, usually over whole runs. A class with the source's fields performs the
same call in place, and its `ensures` ties the new state to that function. `Model()` is the value of
an object. Where the source throws, the model returns `Threw`, a flag or a `Failed` phase.

The network, the clock and the IO service are the environment: what a receive delivers, whether a
socket opens, when a transaction completes and what a DNS server answers are parameters or events,
and the theorems quantify over them. Histories (`accepted`, `taken`, `finished`, `dropped`, `sent`,
`closed`, `deleted`) are logs that the source does not keep; no decision depends on them.

## What turned out false, and what holds instead

- **A stop can hang.** If the receive that is outstanding when a stop is requested ends by handing over a
  request for which there is room, the queue manager waits in STOPPING for a completion that has
  been spent. `QueueMgr.StopCompletes` says exactly when; `ProcessRuns.WedgeIsReachable` gives a run
  and `ProcessRuns.WedgedForever` shows that only an immediate shutdown ends it.
- **A shutdown need not stop the intake.** `Intake.ReopensExactly` says exactly when a turn of a loop that is
  shutting down listens again, `Intake.ReopenIsReachable` gives a run from start-up that accepts a request
  that way, and `Intake.QuietUntilReopened` shows that nothing is accepted otherwise once the listener is
  down. A shutdown command of unknown type cancels a pending shutdown (`Intake.UnknownTypeCancels`).
- **An accepted configuration need not reach the listener.** A refused configuration cancels the
  reconfiguration that an earlier, accepted one asked for and that is still pending (`Operation.RefusalCancels`); what each command does to a pending
  reconfiguration is `Operation.ConfigureOutcome`, and one that is not cancelled takes effect
  (`Operation.ReconfigurationTakesEffect`).
- **The wild card can go stale.** `setDomains` does not forget an earlier wild card. A manager answers every
  name as a new one with the same map would, if and only if the map has a wild card or there was none
  before (`DomainMatch.SetDomainsAnswers`); a parse makes a new manager, so its managers do
  (`Configured.ParsedIsSound`).
- **An add transaction is not bounded by its servers alone.** A server that alternates between "in use" and
  "not in use" keeps it going (`NameAddRuns.AlternationIsUnbounded`); the bound of
  `NameAddRuns.AddTransactionEnds` counts those alternations.
- **A failed include can delete a buffer twice.** When an include opens its file and gets no buffer, the
  includer's buffer is both current and saved (`IncludeStack.ParseDeletesBuffers`). A file whose own buffer cannot be
  created before parsing begins is never closed (`IncludeStack.ParseClosesFiles`).
- **A parser object parses once.** The element stack is not cleared, so a second parse by the same object
  finds two elements and fails (`AgentGrammar.ParseCommonAgrees`).
- **Comments and user contexts do not commute.** They do exactly when the user context has no comment of its
  own and no null entry (`AgentGrammar.CommentOrder`).
- **A section of the manual can be opened twice** when an id has no underscore
  (`Messages.SectionOpenedTwice`); exactly when, `Messages.EachSectionOnce`.

Where code and comments disagree the model follows the code: nc_add.h:374-378 says that the failed-state
handler ends with FAIL_EVT and throws unless entered with UPDATE_FAILED_EVT, while the code
(nc_add.cc:566-582) also accepts NO_MORE_SERVERS_EVT and ends the model with END_EVT.

## Model

| member | source | states |
|---|---|---|
| QueueMgr.DeliverKeeps | src/lib/dhcp_ddns/ncr_io.cc:104-150 | completing the outstanding receive, however it ends, keeps the listener in step with the manager's state and the queue within its maximum |
| QueueMgr.StopCompletes | src/bin/d2/d2_queue_mgr.cc:32-96 | a requested stop completes exactly when the outstanding receive does not hand over a request there is room for; otherwise the manager is stuck |
| QueueMgr.StopsFullOnlyWhenFull | src/bin/d2/d2_queue_mgr.cc:43-64 | the queue is stopped as full only by a request that found it at its maximum, and that request is not accepted |
| QueueMgr.CallsThrowExactly | src/bin/d2/d2_queue_mgr.cc:98-192 | which state each call of the manager refuses, and that a refused call changes nothing |
| QueueMgr.D2QueueMgr.StopListener | src/bin/d2/d2_queue_mgr.cc:145-172 | in place: stopping with a pending receive goes to STOPPING and keeps the target, without one goes to the target at once, with another target throws |
| QueueMgr.D2QueueMgr.OnReceiveCallback | src/bin/d2/d2_queue_mgr.cc:32-96 | in place: a request is queued at the end or stops a full queue; a cancelled receive completes a stop; an error stops the listener |
| QueueMgr.D2QueueMgr.InvokeRecvHandler | src/lib/dhcp_ddns/ncr_io.cc:104-150 | in place: callback, then the next receive if still listening, and an error callback if that cannot be started |
| QueueMgr.D2QueueMgr.InitUdpListener | src/bin/d2/d2_queue_mgr.cc:98-115 | in place: a listener is created exactly when there is none |
| QueueMgr.D2QueueMgr.Start | src/bin/d2/d2_queue_mgr.cc:117-143 | in place: listening starts unless there is no listener or it runs already; a failure leaves the state as it was |
| QueueMgr.D2QueueMgr.Remove | src/bin/d2/d2_queue_mgr.cc:182-192 | in place: the listener is dropped unless running |
| QueueMgr.D2QueueMgr.DequeueAt | src/bin/d2/d2_queue_mgr.cc:215-225 | in place: exactly the indexed request goes, the others keep their order; past the end nothing changes |
| QueueMgr.D2QueueMgr.SetMaxQueueSize | src/bin/d2/d2_queue_mgr.cc:248-261 | a maximum is accepted exactly when positive and not below the queue's size, and keeps the invariant |
| UpdateMgr.FirstEligible | src/bin/d2/d2_update_mgr.cc:94-116 | the least index whose DHCID has no transaction, or the length when every request waits for one |
| UpdateMgr.PlanServesDirections | src/bin/d2/d2_update_mgr.cc:118-214 | a transaction is started exactly when some direction is asked for and enabled and every such direction has a domain, and it holds, for each direction, exactly the domain that label stripping or else the wild card finds, and none for a direction not wanted |
| UpdateMgr.PlanFailsExactly | src/bin/d2/d2_update_mgr.cc:118-214 | exactly when a request throws (a wanted direction that cannot be looked up) and exactly when it is dropped (nothing wanted, or the first wanted direction without a domain) |
| UpdateMgr.ForwardServedExactly | src/bin/d2/d2_cfg_mgr.cc:124-148 | a forward change is served by a domain exactly when it is asked for, enabled, named, and label stripping or else the wild card finds that domain |
| UpdateMgr.ReverseServedExactly | src/bin/d2/d2_cfg_mgr.cc:150-159 | a reverse change is served by the zone of the longest prefix that contains the address, and unserved exactly when no zone contains it |
| UpdateMgr.SweepTakesFirstFree | src/bin/d2/d2_update_mgr.cc:47-116 | a sweep with room and a free client takes exactly the first such request, the front one when nothing is in flight, and carries out its plan beside the transactions under way, none of which changes |
| UpdateMgr.SweepOnlyReaps | src/bin/d2/d2_update_mgr.cc:47-116 | without room, or with every waiting client busy, a sweep only reaps |
| UpdateMgr.D2UpdateMgr.CheckFinishedTransactions | src/bin/d2/d2_update_mgr.cc:71-92 | the erase-while-walking loop removes exactly the finished transactions |
| UpdateMgr.D2UpdateMgr.PickJob | src/bin/d2/d2_update_mgr.cc:94-116 | the index scan takes the first eligible request; the "already in progress" throw is unreachable from it |
| UpdateMgr.D2UpdateMgr.MakeTransaction | src/bin/d2/d2_update_mgr.cc:118-214 | in place: a transaction is added exactly when every wanted direction has a domain and some direction is wanted, with the domain of each; otherwise the request is dropped or thrown back; a second one for a DHCID throws and changes nothing |
| UpdateMgr.D2UpdateMgr.SweepOnce | src/bin/d2/d2_update_mgr.cc:47-69 | in place: reap, then at most one new transaction, none at the maximum |
| UpdateMgr.D2UpdateMgr.SetMaxTransactions | src/bin/d2/d2_update_mgr.cc:251-267 | a maximum is accepted exactly when positive and not below the list's size |
| Process.TakeKeepsOrder | src/bin/d2/d2_update_mgr.cc:94-116 | taking a client's first waiting request keeps every client's sequence of taken and waiting requests |
| Process.SweepKeepsBooks | src/bin/d2/d2_update_mgr.cc:47-69 | a sweep that does not throw keeps the partition of requests, the limits and every client's order |
| Process.CheckQueueKeepsListener | src/bin/d2/d2_process.cc:237-363 | the loop's handling of the queue keeps listener and state in step and leaves requests and history alone |
| Process.StepKeepsInv | src/bin/d2/d2_process.cc:45-112 | every loop turn and every handler keeps the whole invariant |
| Process.RunKeepsInv | src/bin/d2/d2_process.cc:45-112 | so does every run |
| Process.ReachableInv | src/bin/d2/d2_process.cc:45-85 | it holds in every state reachable from start-up |
| ProcessRuns.ClientsServedInOrder | src/bin/d2/d2_update_mgr.cc:94-128 | in every reachable state, per DHCID, taken then waiting requests are the accepted ones in arrival order; no two transactions share a DHCID; both maxima hold |
| ProcessRuns.ExactlyOnePlace | src/bin/d2/d2_update_mgr.cc:47-214 | every accepted request is in exactly one of queued, in flight, dropped and finished, and no other request is anywhere |
| ProcessRuns.ExitAccounts | src/bin/d2/d2_process.cc:114-157 | a drain_first exit leaves only finished and dropped requests, a normal one also queued ones, and neither a transaction nor a running listener |
| ProcessRuns.OvertakesOnlyBusy | src/bin/d2/d2_update_mgr.cc:94-116 | a later request overtakes an earlier one only while the earlier one's client has a transaction in flight |
| ProcessRuns.ThresholdLeavesFifth | src/bin/d2/d2_process.cc:260-278 | the restart threshold leaves a fifth of the queue free, rounded up, also where the product wraps around |
| ProcessRuns.NoFlapping | src/bin/d2/d2_process.cc:260-278 | between the resume of a full queue and its next stop as full at least a fifth of the maximum is accepted, whatever is dequeued meanwhile |
| ProcessRuns.GuardsNeverFire | src/bin/d2/d2_process.cc:237-363 | in every reachable state the guards of initUDPListener, startListening, stopListening and removeListener do not fire where the loop calls them |
| ProcessRuns.WedgedForever | src/bin/d2/d2_process.cc:237-312 | once a stop has lost its completion, STOPPING lasts for ever, nothing is accepted, and only an immediate shutdown ends the loop |
| ProcessRuns.WedgeIsReachable | src/bin/d2/d2_queue_mgr.cc:32-96 | a run from start-up that gets there |
| Intake.UnknownTypeCancels | src/bin/d2/d2_process.cc:159-192 | a shutdown command of unknown type cancels a pending shutdown and forgets its type |
| Intake.ReturnNeedsCommand | src/bin/d2/d2_process.cc:45-157 | after that, as at any time without a pending shutdown, the loop does not return before another command |
| Intake.ReopensExactly | src/bin/d2/d2_process.cc:237-312 | a turn of a loop that is shutting down leaves the listener running exactly when the loop goes on, the socket opens, and the queue was stopped as full at or below the threshold or was down with a reconfiguration pending |
| Intake.ReopenAccepts | src/bin/d2/d2_process.cc:237-312 | the next request is then accepted, if the turn left room |
| Intake.QuietUntilReopened | src/bin/d2/d2_process.cc:237-312 | while a shutdown is pending and the listener is down, no run accepts a request before a turn meets that condition, whatever is configured meanwhile |
| Intake.ReopenIsReachable | src/bin/d2/d2_process.cc:237-363 | a run from start-up that accepts a request after the shutdown command, through a listener that was stopped and opened again |
| Intake.ClosedAcceptsNothing | src/bin/d2/d2_process.cc:237-312 | a state, a lost stop among them, from which no run without a command accepts a request |
| Operation.ReceiveOutcome | src/bin/d2/d2_queue_mgr.cc:32-96 | the state after every completed receive: a request without room stops the queue as full, an error or a next receive that cannot be started stops it as a receive error, a cancellation completes a stop |
| Operation.ThresholdIsFourFifths | src/bin/d2/d2_process.cc:260-278 | a full queue resumes at four fifths of its maximum, as long as the product fits in size_t |
| Operation.ListensExactly | src/bin/d2/d2_process.cc:237-312 | exactly when a turn leaves the listener running, in every state: kept up unless a reconfiguration or shutdown is pending; brought up, if it opens, after a receive error, after a stop as full at the threshold, or for a pending reconfiguration |
| Operation.StopBegins | src/bin/d2/d2_process.cc:237-259 | a running listener is stopped by cancelling its receive and awaiting the completion |
| Operation.ReconfiguresOnce | src/bin/d2/d2_process.cc:280-332 | a pending reconfiguration stays pending exactly until a turn replaces the listener, whether or not it opens |
| Operation.ReconfigurationTakesEffect | src/bin/d2/d2_process.cc:194-363 | a running server that accepts a configuration stops, replaces its listener and listens under the new configuration |
| Operation.ConfigureOutcome | src/bin/d2/d2_process.cc:194-235 | a check changes nothing, a refused configuration cancels a reconfiguration still pending, an accepted one is in force and asks for one |
| Operation.RefusalCancels | src/bin/d2/d2_process.cc:194-235 | a refused configuration that follows an accepted one before the loop turns leaves the new domains in force and the old listener running, with nothing pending |
| Operation.LastConfigurationInForce | src/bin/d2/d2_process.cc:194-235 | in every run the configuration in force is the last one accepted |
| Operation.ReturnsByType | src/bin/d2/d2_process.cc:114-192 | the turn after a shutdown command returns exactly when its type has nothing to wait for: now at once, normal without listener and transactions, drain_first also with an empty queue |
| Operation.WaitEnds | src/bin/d2/d2_process.cc:87-112 | waiting returns to the loop exactly when a handler ran; otherwise the loop ends with an exception |
| Operation.UnderWayStays | src/bin/d2/d2_update_mgr.cc:71-128 | no step but its own completion changes or removes a transaction under way |
| Operation.EndedIsFinished | src/bin/d2/d2_update_mgr.cc:71-92 | a completed transaction is filed as finished by the next turn |
| ProcessLoop.D2Process.OnShutdown | src/bin/d2/d2_process.cc:159-192 | in place: a known or absent type schedules the shutdown and answers 0; an unknown one clears the shutdown flag, resets the type to normal and does not answer 0 |
| ProcessLoop.D2Process.OnConfigure | src/bin/d2/d2_process.cc:194-235 | in place: only an accepted, real configuration is adopted and asks for a reconfiguration of the listener |
| ProcessLoop.D2Process.ReconfigureQueueMgr | src/bin/d2/d2_process.cc:314-363 | in place: the listener is replaced and started, and a failure is swallowed |
| ProcessLoop.D2Process.CheckQueue | src/bin/d2/d2_process.cc:237-312 | in place: the reaction to each queue state, and exactly when it leaves the listener running |
| ProcessLoop.D2Process.RunIo | src/bin/d2/d2_process.cc:87-112 | in place: the ready handlers run in order and are counted |
| ProcessLoop.D2Process.RunLoop | src/bin/d2/d2_process.cc:45-85 | the loop, against every script of its environment, ends in the state of the corresponding run, so every theorem about runs holds of the object |
| Drain.DrainFinishes | src/bin/d2/d2_process.cc:45-157 | a drain_first shutdown has returned, or has been thrown out, once more passes have completed a transaction or left none unfinished than twice the waiting requests plus the unfinished transactions plus one; transactions may span any number of passes |
| Drain.PassesAreRun | src/bin/d2/d2_process.cc:45-85 | its passes are a run of the engine |
| DnsUpdate.TouchesOnlySubject | src/bin/d2/nc_add.cc:584-716 | no request changes any other name |
| DnsUpdate.AddOutcome | src/bin/d2/nc_add.cc:584-624 | an add succeeds exactly on a free name, which then carries the lease and the DHCID and nothing else |
| DnsUpdate.ReplaceOutcome | src/bin/d2/nc_add.cc:626-672 | a replacement succeeds exactly on a name with this client's DHCID alone, and changes only the addresses of that family |
| DnsUpdate.ReplaceRevOutcome | src/bin/d2/nc_add.cc:674-716 | the reverse replacement always leaves one pointer and one DHCID, this client's, and every record of another type |
| DnsUpdate.RemoveAddrOutcome | src/bin/d2/nc_remove.cc:598-628 | removing an address succeeds exactly on a name with this client's DHCID alone and takes away that address only |
| DnsUpdate.RemoveRrsOutcome | src/bin/d2/nc_remove.cc:630-676 | removing a name succeeds exactly with this client's DHCID alone and no address of either family left |
| DnsUpdate.RemoveRevOutcome | src/bin/d2/nc_remove.cc:678-710 | removing a reverse name succeeds exactly when its only pointer is to the lease's name |
| DnsUpdate.RemoveUndoesAdd | src/bin/d2/nc_remove.cc:598-676 | the two forward removals of a lease undo its add |
| DnsUpdate.LostAnswerHeals | src/bin/d2/nc_add.h:381-417 | when an add went through unnoticed, the retry and the replacement it leads to succeed and change nothing |
| DnsUpdate.StrangerRefused | src/bin/d2/nc_add.h:381-417 | a forward request is refused on a name that carries another client's DHCID |
| Ownership.OwnerKeeps | src/bin/d2/nc_add.h:381-417 | of a client's own forward requests only the removal of its name, and only when accepted, takes its DHCID off the name |
| Ownership.StepOwns | src/bin/d2/nc_add.h:381-417 | one step on an owned name, exactly: it stays owned unless the owner's removal is accepted, and changes only by the owner's forward request |
| Ownership.NameStaysWithOwner | src/bin/d2/nc_add.h:381-417 | over any interleaving of any number of transactions, the owner's and others', with late and repeated requests, a name is its client's in every state until the client's own removal is accepted or a reverse request takes the name as its subject, and every change of its records is that client's forward request |
| Ownership.OneClientAlways | src/bin/d2/nc_add.h:381-437 | in a zone with at most one DHCID per name no run ever gives a name a second one |
| Ownership.SuccessWasCommitted | src/bin/d2/nc_add.cc:173-286 | a forward change reported as done was committed to the zone by a server under the client's DHCID |
| NameAdd.HandlerSends | src/bin/d2/nc_add.cc:124-582 | a handler sends at most its own state's request and never takes back a finished direction |
| NameAdd.ModelSettles | src/lib/util/state_model.cc:112-139 | running the model always comes to a wait or the end: no handler meets an event it does not expect |
| NameAdd.RunInOrder | src/bin/d2/nc_add.h:130-379 | in every run reverse requests follow a successful forward update or the absence of one, and success is reported exactly when every requested direction was updated |
| NameAddRuns.ResumeBudget | src/bin/d2/nc_trans.cc:262-272 | every completed exchange uses up budget; only a server taking back "in use" restores some |
| NameAddRuns.AddTransactionEnds | src/bin/d2/nc_add.h:152-343 | with F forward and R reverse servers and A alternations a transaction has ended after 6F + 3R + 6A exchanges |
| NameAddRuns.AlternationIsUnbounded | src/bin/d2/nc_add.cc:173-408 | and no bound without A exists |
| NameAddAnswers.StartsOnFirstServer | src/bin/d2/nc_add.cc:124-171 | a started transaction waits for the first server of its first direction, or has failed for want of a server |
| NameAddAnswers.ForwardNoError | src/bin/d2/nc_add.cc:210-221 | NOERROR to a forward request marks it done and completes the transaction or goes on to the first reverse server |
| NameAddAnswers.ReverseNoError | src/bin/d2/nc_add.cc:474-487 | NOERROR to a reverse request completes the transaction |
| NameAddAnswers.AddFindsInUse | src/bin/d2/nc_add.cc:221-224 | YXDOMAIN to an add sends a replacement to the same server |
| NameAddAnswers.ReplaceFindsFree | src/bin/d2/nc_add.cc:288-408 | NXDOMAIN to a replacement sends an add to the same server |
| NameAddAnswers.FatalAnswer | src/bin/d2/nc_add.cc:225-276 | any other rcode, and a stopped IO service, fails the transaction and marks nothing |
| NameAddAnswers.NoAnswerRetries | src/bin/d2/nc_trans.cc:262-272 | without a usable answer the same server is tried up to three times, then the next from the beginning of its direction, and after the last the transaction fails |
| NameAddAnswers.ForwardDoneExactly | src/bin/d2/nc_add.cc:173-408 | a forward change is marked done exactly by NOERROR, whatever the environment does next |
| NameAddAnswers.ReverseDoneExactly | src/bin/d2/nc_add.cc:440-564 | a reverse change is marked done and the transaction completed exactly by NOERROR |
| NameAddAnswers.AllGoesWell | src/bin/d2/nc_add.h:152-343 | with a server for each requested direction and only NOERROR answers, a transaction completes after one request per direction, forward first |
| NameAddObject.NameAddTransaction.SelectingServerHandler | src/bin/d2/nc_add.cc:144-171 | in place: the next server of the direction, or failure when none is left |
| NameAddObject.NameAddTransaction.RetryOr | src/bin/d2/nc_trans.cc:262-272 | in place: the same server again up to three tries, then the next |
| NameAddObject.NameAddTransaction.BuildAndSendUpdate | src/bin/d2/nc_trans.cc:168-201 | in place: build when there is no request, send, and move on when either fails |
| NameAddObject.NameAddTransaction.AddingFwdAddrsHandler | src/bin/d2/nc_add.cc:173-286 | in place: the reaction of the adding state to every event and answer; the forward change becomes done exactly by NOERROR |
| NameAddObject.NameAddTransaction.ReplacingFwdAddrsHandler | src/bin/d2/nc_add.cc:288-408 | in place: the reaction of the replacing state to every event and answer; the forward change becomes done exactly by NOERROR |
| NameAddObject.NameAddTransaction.ReplacingRevPtrsHandler | src/bin/d2/nc_add.cc:440-547 | in place: the reaction of the reverse replacing state to every event and answer; the reverse change becomes done exactly by NOERROR |
| NameAddObject.NameAddTransaction.RunStateModel | src/lib/util/state_model.cc:112-139 | the loop of the state model, which terminates |
| NameAddObject.NameAddTransaction.StartTransaction | src/bin/d2/nc_trans.cc:86-94 | a started transaction waits for a server or has ended with a truthful status |
| NameAddObject.NameAddTransaction.OnUpdateDone | src/bin/d2/nc_trans.cc:96-110 | so does one resumed by an answer |
| DomainMatch.DdnsDomainListMgr.SetDomainMap | src/bin/d2/d2_config.cc:301-317 | in place: the map is replaced, the wild card only if the map has one |
| DomainMatch.DdnsDomainListMgr.MatchDomain | src/bin/d2/d2_config.cc:319-382 | the linear scan, with every index in bounds, agrees with stripping leading labels until a configured name is hit, then the wild card |
| DomainMatch.ScanIsSearch | src/bin/d2/d2_config.cc:319-382 | the longest suffix match over all entries is what label stripping finds |
| DomainMatch.ShortCutAgrees | src/bin/d2/d2_config.cc:319-382 | the single wild card short cut gives the same answer for a manager set once |
| DomainMatch.ShortCutExact | src/bin/d2/d2_config.cc:319-382 | it is right on every name exactly when the sole domain is the remembered wild card |
| DomainMatch.SetDomainsAnswers | src/bin/d2/d2_config.cc:301-382 | after setDomains every name is answered as by a new manager with that map, if and only if the map has a wild card or there was none before |
| DomainMatch.StaleWildcardCaptures | src/bin/d2/d2_config.cc:301-382 | two maps after which every name goes to a domain no longer configured |
| DomainMatch.BlankIsDead | src/bin/d2/d2_config.cc:319-382 | an entry with a blank name never matches |
| ReverseNames.ReverseV4Address | src/bin/d2/d2_cfg_mgr.cc:179-207 | octets from the back, as section 3.5 of RFC 1035 asks |
| ReverseNames.ReverseV6Address | src/bin/d2/d2_cfg_mgr.cc:209-237 | the name of the address's nibbles from the back, as section 2.5 of RFC 3596 asks; the nibbles spell the same number as the address (AddressBlocks.NibblesSameNumber) |
| ReverseNames.ReverseIpAddress | src/bin/d2/d2_cfg_mgr.cc:161-177 | the name of the address as a zone of its own |
| ReverseNames.ZoneNameInjective | src/bin/d2/d2_cfg_mgr.cc:179-237 | two prefixes of either family have one name, in any letter case, only if they are one prefix |
| ReverseNames.MatchReverseIsLongestPrefix | src/bin/d2/d2_cfg_mgr.cc:150-237 | matchReverse returns the zone of the longest prefix, in octets or nibbles, that contains the address, or nothing when none does |
| AddressBlocks.NibblesSameNumber | src/bin/d2/d2_cfg_mgr.cc:209-237 | splitting the octets of an address into hexadecimal digits does not change the number they spell |
| AddressBlocks.WithinIsHolds | src/bin/d2/d2_cfg_mgr.cc:179-237 | a zone contains an address exactly when the families agree and the leading bits of the address's number are the zone's |
| AddressBlocks.MatchReverseIsSmallestBlock | src/bin/d2/d2_cfg_mgr.cc:150-237 | matchReverse returns the smallest configured block of addresses that holds the address's number, or nothing when none does |
| AddressBlocks.LabelReads | src/bin/d2/d2_cfg_mgr.cc:179-237 | the first label reads as the last octet in decimal, or is the capital hexadecimal digit of the last nibble |
| D2Config.KeyReparsed | src/bin/d2/d2_config.cc:184-200 | a valid TSIG key printed and parsed is the same key |
| D2Config.ServerParsed | src/bin/d2/d2_config.cc:478-528 | a parsed server has a readable address and a 32-bit port |
| D2Config.ServerReparsed | src/bin/d2/d2_config.cc:220-233 | a valid server printed and parsed is the same server |
| D2Config.DomainParsed | src/bin/d2/d2_config.cc:547-596 | a parsed domain has a server, and its key, if any, is one of the parsed keys |
| D2Config.DomainReparsed | src/bin/d2/d2_config.cc:263-287 | a valid domain printed, given defaults and parsed is the same domain |
| D2Config.CollectKeeps | src/bin/d2/d2_config.cc:455-474 | collecting a list keeps the map ordered, every entry under its own name and free of duplicates |
| D2Config.DomainElementCompleted | src/bin/d2/d2_simple_parser.cc:100-114 | defaults add to a printed domain at most the blank key name |
| D2Config.ParsedIsValid | src/bin/d2/d2_cfg_mgr.cc:303-419 | whatever parses is valid as a whole: parameters in range, keys and domains as above |
| D2Config.ValidReparsed | src/bin/d2/d2_cfg_mgr.cc:56-100 | every valid configuration printed, given defaults and parsed is itself |
| D2Config.RoundTrip | src/bin/d2/d2_cfg_mgr.cc:56-100 | for every configuration that parses, parsing what toElement prints gives the same parameters, keys and domains |
| D2Config.ValidIsParsed | src/bin/d2/d2_cfg_mgr.cc:303-419 | the valid configurations are exactly the ones some text denotes |
| D2Entries.KeyMeans | src/bin/d2/d2_config.cc:401-451 | a key is read exactly from its four entries, absent digest bits being zero |
| D2Entries.LeastBitsExactly | src/bin/d2/d2_config.cc:417-432 | a digest may be truncated to no fewer than 80 bits and half its size |
| D2Entries.UnknownAlgorithm | src/bin/d2/d2_config.cc:409-415 | the six algorithms, in any letter case, and no other are known |
| D2Entries.ServerMeans | src/bin/d2/d2_config.cc:478-528 | a server is read exactly from its address and port, an absent port being 53, and refused with a host name |
| D2Entries.DomainMeans | src/bin/d2/d2_config.cc:547-596 | a domain that is read has the name, the servers in order and the key its entries say, an absent key name meaning no key |
| D2Entries.ParametersMean | src/bin/d2/d2_simple_parser.cc:36-98 | address, port and timeout are those of their entries, or 127.0.0.1, 53001 and 100 |
| D2Entries.WordsMean | src/bin/d2/d2_simple_parser.cc:36-98 | protocol and format say UDP and JSON, which is also what their absence means |
| D2Entries.EmptyMeans | src/bin/d2/d2_simple_parser.cc:75-98 | the empty configuration is read as nothing but defaults |
| D2Entries.CollectsExactly | src/bin/d2/d2_config.cc:455-474 | a list is collected exactly when every item parses and no two have the same name |
| D2Entries.CollectedContents | src/bin/d2/d2_config.cc:455-474 | and then holds every item under its name and nothing else |
| D2CfgMgr.AlwaysValid | src/lib/process/d_cfg_mgr.cc:124-283 | after any sequence of attempts the configuration in force is valid |
| D2CfgMgr.SaveAndLoad | src/lib/process/d_cfg_mgr.cc:124-283 | loading a printed configuration restores it, whatever was attempted since |
| D2CfgMgr.LastAdoptedInForce | src/lib/process/d_cfg_mgr.cc:124-283 | the configuration in force is that of the last attempt that parsed and was not a mere check |
| Configured.ParsedIsSound | src/bin/d2/d2_config.cc:623-640 | the managers of a parsed configuration remember their own wild cards, and every domain has a server |
| Configured.TransactionsCanBeSent | src/bin/d2/d2_update_mgr.cc:118-214 | in every run configured only from texts that parse, a transaction starts with the domains label stripping finds, at least one, each with a server |
| D2CfgMgr.ParseKeyList | src/bin/d2/d2_config.cc:455-474 | the key list loop yields every key under its name, and fails on a bad key or a repeated name |
| D2CfgMgr.ParseServerList | src/bin/d2/d2_config.cc:532-543 | the server list loop yields the servers in list order, and fails on a bad one |
| D2CfgMgr.ParseOneDomain | src/bin/d2/d2_config.cc:547-596 | a domain parses exactly with a known key or none and a non-empty list of good servers |
| D2CfgMgr.ParseDomainList | src/bin/d2/d2_config.cc:600-619 | the domain list loop yields every domain under its name, and fails on a bad domain or a repeated name |
| D2CfgMgr.ParseDomainMgr | src/bin/d2/d2_config.cc:623-640 | a manager without a list has no domains; otherwise those of its list |
| D2CfgMgr.BuildParameters | src/bin/d2/d2_cfg_mgr.cc:352-419 | the parameter loop, in any order of its map: succeeds exactly when every parameter is known and well formed and address, port and timeout are present and not zero |
| D2CfgMgr.Split | src/lib/process/d_cfg_mgr.cc:161-179 | the split loop puts every entry into exactly one of scalars and objects |
| D2CfgMgr.CfgMgr.ParseConfig | src/lib/process/d_cfg_mgr.cc:124-283 | a parse succeeds exactly when the specification does, and the context is replaced only then and only if it was not a mere check |
| JsonString.DecodesWellFormed | src/bin/agent/agent_lexer.cc:2264-2364 | every text of the supported grammar of section 7 of RFC 8259 decodes to what it stands for |
| JsonString.DecodesOnlyWellFormed | src/bin/agent/agent_lexer.cc:2264-2364 | whatever decodes is such a text |
| JsonString.AcceptsExactlyGrammar | src/bin/agent/agent_lexer.cc:2264-2364 | so the decoder accepts exactly the grammar |
| JsonString.ShortEscapesExactly | src/bin/agent/agent_lexer.cc:2284-2311 | the two-character escapes and their values are those of the table in section 7 of RFC 8259 |
| JsonString.HexDigitsExactly | src/bin/agent/agent_lexer.cc:2312-2348 | hexadecimal digits of either case have the value of their place |
| JsonString.PlainExactly | src/bin/agent/agent_lexer.cc:2264-2364 | a lone byte stands for itself exactly when it is no quote, backslash or control character |
| JsonString.RoundTrip | src/bin/agent/agent_lexer.cc:2264-2364 | every byte string has an escaped form that decodes back to it |
| JsonString.ReadHex | src/bin/agent/agent_lexer.cc:2312-2348 | an escape \u00hl yields its byte; too few digits, a non-zero prefix and a bad digit are errors |
| JsonString.DecodeString | src/bin/agent/agent_lexer.cc:2264-2364 | the loop, every index in bounds, returns the decoding that the grammar theorems are about |
| IncludeStack.RunKeepsNames | src/bin/agent/agent_lexer.cc:2494-2517 | names, locations and buffers rise and fall together, and never above eleven |
| IncludeStack.ParseClosesFiles | src/bin/agent/agent_lexer.cc:3674-3693 | after a parse every file ever opened is closed exactly once, unless the parse's own file got no buffer |
| IncludeStack.ParseDeletesBuffers | src/bin/agent/agent_lexer.cc:3674-3722 | after a parse every buffer is deleted exactly once, unless an include opened its file and got no buffer |
| IncludeStack.SessionsBalance | src/bin/agent/agent_lexer.cc:3634-3722 | over any number of parses by one object both hold |
| IncludeStack.EndUndoesInclude | src/bin/agent/agent_lexer.cc:2494-2517 | the end of an included file restores name, location, buffer and open file of the includer |
| IncludeStack.IncludeEnters | src/bin/agent/agent_lexer.cc:3695-3722 | an include is entered exactly below the limit with a file that opens and gets a buffer, and then reads the named file from its start; one too deep or unopened changes nothing |
| IncludeStack.NestingRestores | src/bin/agent/agent_lexer.cc:3695-3722 | scanning any nest of includes fails exactly when it is deeper than the limit and otherwise restores every stack |
| IncludeStack.LeavesNamesBehind | src/bin/agent/agent_lexer.cc:3674-3693 | a parse that fails inside an include leaves names and locations behind |
| IncludeStack.LeftoversUnseen | src/bin/agent/agent_lexer.cc:3634-3722 | no later parse sees them: on top of any leftovers it goes the same way |
| IncludeStack.ParserContext.ScanStringBegin | src/bin/agent/agent_lexer.cc:3634-3650 | in place: a string source holds no file; without a buffer the parse does not begin |
| IncludeStack.ParserContext.ScanFileBegin | src/bin/agent/agent_lexer.cc:3652-3672 | in place: a file source holds its file from before its buffer is made, which is why a missing buffer leaks it |
| IncludeStack.ParserContext.Include | src/bin/agent/agent_lexer.cc:3695-3722 | in place: the limit, the failures and the pushes of an include |
| IncludeStack.ParserContext.FileEnds | src/bin/agent/agent_lexer.cc:2494-2517 | in place: the pops at the end of a file |
| IncludeStack.ParserContext.ScanEnd | src/bin/agent/agent_lexer.cc:3674-3693 | in place: the two loops that close and delete what is left |
| IncludeStack.ParserContext.Scan | src/bin/agent/parser_context.cc:46-69 | events until one throws, then the end, which also runs after an error |
| ElementStack.DenotesFrame | src/bin/agent/agent_parser.yy:141-207 | what an element stands for depends only on the elements it was built from |
| ElementStack.BuildValue | src/bin/agent/agent_parser.yy:133-207 | for every derivation of the generic grammar the actions build an element that stands for exactly what it denotes, and touch no stack and no earlier element |
| ElementStack.BuildEntries | src/bin/agent/agent_parser.yy:176-185 | entries go into the map at the top of the stack, the last of several under one key winning |
| ElementStack.BuildItems | src/bin/agent/agent_parser.yy:197-207 | items go to the end of the list at the top of the stack |
| ElementStack.LastEntryWins | src/bin/agent/agent_parser.yy:176-185 | an object has the keys of its entries, each with the value of its last entry |
| ElementStack.ItemsInOrder | src/bin/agent/agent_parser.yy:197-207 | an array has its items in order |
| AgentGrammar.LeafAgrees | src/bin/agent/agent_parser.yy:280-292 | a keyword and its value: the value is never read as a keyword, the context is left again |
| AgentGrammar.UserContextAgrees | src/bin/agent/agent_parser.yy:294-317 | a user context takes over a lone earlier comment and refuses any other earlier one |
| AgentGrammar.CommentAgrees | src/bin/agent/agent_parser.yy:319-344 | a comment is merged with an earlier user context and refused after an earlier comment |
| AgentGrammar.NestedHolds | src/bin/agent/agent_parser.yy:249-264 | a map hung into its parent before it is filled ends up as what it was filled with |
| AgentGrammar.KeywordSeen | src/bin/agent/agent_lexer.ll:176-430 | in the context of its map the lexer takes the first word of every entry that the rule of the map lists for its keyword |
| AgentGrammar.KeywordsExactly | src/bin/agent/agent_lexer.ll:176-430 | the keywords of a context are exactly the first words of the entries that the rule of its map lists |
| AgentGrammar.NestedKind | src/bin/agent/agent_parser.yy:249-610 | the context an action enters for a nested map or list is that of the map its rule asks for |
| AgentGrammar.ParamAgrees | src/bin/agent/agent_parser.yy:242-659 | every entry derived by the rules of the grammar, which are stated without lexer contexts: the actions fail exactly when it denotes an error, and otherwise the map holds what it denotes and all stacks are restored |
| AgentGrammar.ParamsAgree | src/bin/agent/agent_parser.yy:266-278 | the same for lists of entries |
| AgentGrammar.MapsAgree | src/bin/agent/agent_parser.yy:347-371 | the same for lists of maps |
| AgentGrammar.StartAgrees | src/bin/agent/agent_parser.yy:114-131 | every error-free derivation from each start symbol pushes one element that stands for what it denotes and restores the context stack, so leave() never fails |
| AgentGrammar.ParseCommonAgrees | src/bin/agent/parser_context.cc:46-69 | parseCommon finds exactly one element exactly when the derivation is free of errors and the object has not parsed before |
| AgentGrammar.LastParamWins | src/bin/agent/agent_parser.yy:242-659 | a map has the keys of its entries, each with what its last entry stands for |
| AgentGrammar.ContextTwice | src/bin/agent/agent_parser.yy:294-317 | a second user context is taken exactly when the first was nothing but a comment |
| AgentGrammar.CommentTwice | src/bin/agent/agent_parser.yy:319-344 | a second comment is refused |
| AgentGrammar.CommentOrder | src/bin/agent/agent_parser.yy:294-344 | user context and comment come to the same in either order exactly when the user context has no comment and no null |
| AgentParser.ParserContext.EnterContext | src/bin/agent/parser_context.cc:99-104 | in place: the old context is saved under the new one, so that one leave undoes one enter |
| AgentParser.ParserContext.LeaveContext | src/bin/agent/parser_context.cc:106-114 | in place; fails exactly on an empty context stack |
| AgentParser.ParserContext.ValueActions | src/bin/agent/agent_parser.yy:141-149 | in place: the actions of a value in derivation order build the element that BuildValue is about |
| AgentParser.ParserContext.MergeFields | src/lib/cc/data.cc:1052-1068 | the merge loop against its specification: nulls go out, everything else goes in |
| AgentParser.ParserContext.UserContextActions | src/bin/agent/agent_parser.yy:294-317 | in place: the user context rule |
| AgentParser.ParserContext.CommentActions | src/bin/agent/agent_parser.yy:319-344 | in place: the comment rule |
| AgentParser.ParserContext.ParamActions | src/bin/agent/agent_parser.yy:242-659 | in place: an entry of any map of the grammar |
| AgentParser.ParserContext.Parse | src/bin/agent/parser_context.cc:46-69 | a parse returns an element that stands for what the derivation denotes, exactly when there is one and the object is fresh |
| Messages.SuffixedInjective | tools/system_messages.cc:403-411 | different ids or copy numbers give different keys |
| Messages.TakenBound | tools/system_messages.cc:403-411 | an id and i of its copies can be taken only in a dictionary of more than i entries, so the suffix loop ends |
| Messages.AddAllGrows | tools/system_messages.cc:394-424 | n additions make n entries, alter none and keep the order |
| Messages.EveryMessageFiled | tools/system_messages.cc:394-424 | every message is in the final dictionary under the id or the least free copy number at its arrival |
| Messages.NthCopy | tools/system_messages.cc:403-411 | the key of a message in terms of the run alone, for an id such that no id of the run reads like a numbered copy of it or it of them: its n-th repetition gets the number n |
| Messages.ImitationShifts | tools/system_messages.cc:403-411 | without that the numbers shift: after a message called like the first copy of an id, its second occurrence gets the number 2 |
| Messages.PageWellFormed | tools/system_messages.cc:610-635 | headers and trailers balance and every message is inside its own section exactly when no section name is empty |
| Messages.EachSectionOnce | tools/system_messages.cc:610-635 | each section is opened once exactly when its messages stand together in key order |
| Messages.UnderscoresContiguous | tools/system_messages.cc:420-423 | they do when every id has an underscore, because keys with a common prefix are contiguous |
| Messages.ManualIsWellFormed | tools/system_messages.cc:610-635 | the manual of any messages whose ids have a non-empty part before an underscore is well formed, opens each section once and lists every key once in order |
| Messages.SectionOpenedTwice | tools/system_messages.cc:610-635 | the manual of three messages A, A_X and AB_Q, one without underscore, opens a section twice |
| Messages.RemoveEmptyLeadingTrailing | tools/system_messages.cc:343-379 | the two erasing loops compute the trimmed description |
| Messages.TrimmedMeans | tools/system_messages.cc:343-379 | blank lines go from both ends, none is left there, and nothing else goes |
| Messages.Manual.FreeKey | tools/system_messages.cc:399-411 | the suffix loop finds the least free copy number before its counter passes the dictionary's size |
| Messages.Manual.AddToDictionary | tools/system_messages.cc:394-424 | in place: one entry more, with the description trimmed and the section cut from the id |
| Messages.Manual.PrintSections | tools/system_messages.cc:610-635 | the printing loop writes the page that the section theorems are about |

## Left out

- The wire: UDP packets of name change requests, DNS messages, TSIG signing and verification, HTTP and unix sockets.
- Malformed name change requests: a receive delivers a request, a cancellation or an error.
- The inside of a transaction as the engine sees it: there a transaction is started and later completes; its protocol is modelled on its own.
- The state machine of `NameRemoveTransaction`: only its requests are modelled, as steps that may happen at any time.
- TTL values, and the CNAME and SOA rules of RFC 2136, which no request here touches.
- Case folding beyond ASCII letters.
- User contexts in the DHCP-DDNS configuration: they are accepted and not kept.
- Reading and printing an IP address, and whether the DNS library can make a key: parameters of the configuration model, with the law that a printed address reads back.
- A domain without a server list: the source dereferences a null pointer there; the model answers with an error.
- The JSON tree handed to the configuration parser, which adding defaults changes in place, also when the parse fails.
- Positions and error texts, logging, command-line handling, controllers.
- The flex and bison tables: derivations are given as values, and the one token of lookahead a generated parser may hold when a context changes is not modelled.
- The lexer and parser of DHCP-DDNS, which follow the same patterns as those of the Control agent.
- The grammar's demand that some maps and lists be non-empty: the theorems hold for empty ones as well.
- The conversion of the lexer's start conditions (comments, include directives) into events: an include is one event.
- The 32-bit copy counter of the message dictionary, which would wrap only in a dictionary of 2147483647 entries.
