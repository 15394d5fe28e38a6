# Verification of the charging stack

A Dafny model of the ISO 15118-2 communication stack for charging electric vehicles and of the library code it rests on, with
proofs about every run of the modelled parts. `dafny verify dfyconfig.toml` checks all of it.

The centre is the dialogue between the vehicle (`cIsoProcessEVCC`) and the charger (`cIsoProcessSECC`). Each process is modelled
three times over, on purpose: as functions of its state (`EvccSpec`, `SeccSpec`), as a class with the fields of the original whose
methods are proved to compute these functions (`EvccObject`, `SeccObject`), and joined to the other process by a TCP connection and
a UDP link (`ChargingSystem`). The theorems are about all runs:

- `EvccRuns`, `EvccSafety`: the vehicle against any responder. One request at a time; contactor and pilot.
- `SeccRuns`: the charger against any vehicle. Run to completion, the power source, session numbers.
- `EvccContents`, `SeccContents`: what either side's messages say, word for word, and what each message leads to; when CableCheck
  may be left; the charger's main contactor.
- `Lockstep`: both together over loss-free links. At most one message on its way, each one expected, one session id; a session begins.
- `PowerOrder`: what must have happened before the charger drives current.
- `BoundedStop`: a session that is no longer enabled ends on both sides within a bounded number of turns.
- `BoundedStart`: a session that stays enabled comes to deliver current within a bounded number of rounds.
- `Witnesses`: runs that exist, with current flowing as it should, and with current flowing although no voltages were compared.

A turn of the joint system is a cycle of either main loop: at most one datagram, then at most one frame from the connection, then
`operate`. Turns follow each other in any order. Clock, `run`, `enable`, pilot state and sensor readings are inputs of each turn;
sensor inputs of None stand for the built-in simulated hardware.

The library code comes with theorems of its own: `Crc32` (two algorithms, burst detection, residue), `EaSpec`, `EaObject` and
`EaRuns` (the command language of the EA power source driver and its switch-off latch), `EaContents` (its replies and commands), `Text`, `IpText`, `ByteArrays`, `Framing`,
`FramingBuffer` and `PhysicalValues` (round trips with their exact conditions) and `Timers`. The classes `TimerObject`, `ByteArray`
and `ExiPhysicalValue` stand alone: the process classes hold the timers, byte sequences and physical values themselves.

Assumptions about values the program leaves unset: the start count of a timer that has not been started and the contactor command
are zero or false, and the driver's previous state is idle. The host keeps the lowest byte of a number first.

Some things the program does are easy to miss; the model follows the program:

- `send` of the charger lacks an `else`: an SDP response also goes to a client if one is connected
  (LibIso15118/cIsoProcessSECC.cpp:217-230).
- The vehicle judges a session stop response through the payment service selection member of the message union
  (LibIso15118/cIsoProcessEVCC.cpp:749); the two have the same header and code.
- `enable` is read again when a PowerDelivery response arrives, so the branch taken need not match the progress that was sent
  (LibIso15118/cIsoProcessEVCC.cpp:501-525).
- The vehicle decides on the ChargeParameterDiscovery response whether it goes through CableCheck and PreCharge, but looks at the
  transfer mode again when the PowerDelivery response arrives (LibIso15118/cIsoProcessEVCC.cpp:474 and 510-515). If the application
  has changed it in between, power flows on a way on which no voltages have been compared.
- The "await reconnect" state and the second timeout of the EA driver are unreachable, because its timeout flag is never set
  (LibCpp/Lab/cEAsource.cpp:291-297).

## Model

| member | source | states |
|---|---|---|
| Lockstep.RunKeepsInv | LibIso15118/cIsoProcessEVCC.cpp:241-830 | every run of both processes over loss-free links, with turns taken in any order, keeps the joint invariant: apart, linking, in dialogue with one message at most on its way, or parting |
| Lockstep.InStep | LibIso15118/cIsoProcessEVCC.cpp:248-795 | in every reachable state at most one message is on its way or unread, it is the one its receiver expects, the charger has answered the last request once nothing is on its way, and both sides and all messages carry one session id |
| Lockstep.EvUnexpected | LibIso15118/cIsoProcessEVCC.cpp:791-795 | in every run the vehicle reaches its "unexpected message" branch only for an SDP response that comes outside a session |
| Lockstep.SeUnexpected | LibIso15118/cIsoProcessSECC.cpp:655-659 | in every run the charger reaches its "unexpected message" branch only for a repeated SDP request |
| Lockstep.OnlyMismatchFails | LibIso15118/cIsoProcessEVCC.cpp:353-395 | in every run the vehicle leaves a session for the failure state only over a service discovery response that offers no transfer mode it takes: no response code, no session id and no lost connection ever makes it fail |
| Lockstep.SessionBegins | LibIso15118/cIsoProcessEVCC.cpp:248-298 | both processes, freshly constructed and allowed to run, are in the dialogue after five turns |
| Lockstep.DecideSuccess | LibIso15118/cIsoProcessEVCC.cpp:300-760 | a response with a good code and the right id makes each vehicle state move on to its successor, pause before asking again, or, without a common transfer mode, give up |
| Lockstep.ReadyAfter | LibIso15118/cIsoProcessSECC.cpp:340-633 | whatever state the vehicle moves on to, the charger state that answered last expects the request of that state; the session stop leads to the disconnection |
| Lockstep.SeReplies | LibIso15118/cIsoProcessSECC.cpp:340-633 | an expected request in the dialogue gets one response of its type, on TCP, with the code and id the vehicle accepts; only a session setup changes the id |
| PowerOrder.CurrentIsPrepared | LibIso15118/cIsoProcessEVCC.cpp:474-478 | in every run, whenever the charger's source has been told to deliver current: this session saw a CableCheck reply, then the PreCharge voltage match, then a PowerDelivery reply, if and only if the vehicle accepted the ChargeParameterDiscovery response with another transfer mode than three-phase AC in force; if it did not, the application has taken three-phase AC out of force since |
| PowerOrder.CurrentIsPreparedUnchanged | LibIso15118/cIsoProcessSECC.cpp:234-258 | the corollary for sessions in which the application neither puts three-phase AC in force nor takes it out of force: no current without the whole sequence |
| PowerOrder.CurrentIsAwaited | LibIso15118/cIsoProcessSECC.cpp:243-252 | in every run each charger turn that answers a current demand, the first one and every repetition, finds the vehicle in awaitCurrentDemand with its contactor closed and tells the source to deliver exactly the current and voltage the vehicle has demanded |
| PowerOrder.NewCurrentIsAwaited | LibIso15118/cIsoProcessSECC.cpp:243-252 | no other turn of either side gives the source a nonzero current it did not have |
| PowerOrder.CurrentOnlyOnDemand | LibIso15118/cIsoProcessSECC.cpp:298-305 | for any charger state and message, only the answer to a current demand request gives the source a nonzero current it did not have |
| PowerOrder.SeTurnSource | LibIso15118/cIsoProcessSECC.cpp:234-305 | after a charger turn a nonzero current is the old one, in a power state, or the answer to the demand the vehicle is waiting for |
| BoundedStop.RunTame | LibIso15118/cIsoProcessSECC.cpp:243-273 | with simulated hardware on both sides no run ever reports a PreCharge voltage other than 0 V or a current other than 0 A and 10 A, and Authorization and CableCheck finish at once |
| BoundedStop.TurnLowersRank | LibIso15118/cIsoProcessEVCC.cpp:670-704 | once enable stays false, no turn raises the rank of the joint state and every productive turn lowers it, whether or not the processes may run, and although the source reports the previously commanded current |
| BoundedStop.BoundedStop | LibIso15118/cIsoProcessEVCC.cpp:670-704 | a session that is no longer enabled takes at most 58 productive turns until the vehicle and the charger have entered their finished states, whatever turns are taken in whatever order and whatever the run parameters are |
| BoundedStop.SomeTurnIsProductive | LibIso15118/cIsoProcessEVCC.cpp:248-795 | as long as not both processes have entered their finished states, one of the network, the vehicle (its repeat timer past its end) and the charger has a productive turn to take |
| BoundedStop.RoundsLowerRank | LibIso15118/cIsoProcessEVCC.cpp:657-772 | each round of turns lowers the rank until both processes have entered their finished states |
| BoundedStop.StopsFromAnywhere | LibIso15118/cIsoProcessEVCC.cpp:657-772 | from any reachable session with a common transfer mode, within 58 rounds after enable was withdrawn the vehicle and the charger have entered their finished states, for any run parameters on either side |
| BoundedStop.StopsAndRests | LibIso15118/cIsoProcessEVCC.cpp:784-788 | the corollary for run held true: after these rounds both processes are in their finished states |
| BoundedStart.RoundStarts | LibIso15118/cIsoProcessEVCC.cpp:657-681 | on the way to power every round brings the system nearer to delivering, or leaves it there |
| BoundedStart.PowerFlows | LibIso15118/cIsoProcessEVCC.cpp:657-681 | a freshly constructed system with simulated hardware and a common transfer mode other than three-phase AC: after five turns and 34 rounds with enable held the contactor is closed and the source told to deliver 10 A, and it stays so in every further round |
| BoundedStart.PowerFlowsFromAnywhere | LibIso15118/cIsoProcessEVCC.cpp:353-681 | the same from every state such a system can reach on the way, also in the middle of an exchange |
| BoundedStart.RoundsPrepare | LibIso15118/cIsoProcessEVCC.cpp:474-478 | with three-phase AC in force some round brings the vehicle to awaitPowerDelivery, or the rounds are fewer than the distance |
| BoundedStart.WayKept | LibIso15118/cIsoProcessEVCC.cpp:365-380 | no call of a session trades three-phase AC for another transfer mode or another one for it |
| Witnesses.CurrentFlows | LibIso15118/cIsoProcessSECC.cpp:243-252 | every system with simulated hardware and a common transfer mode other than three-phase AC has a run after which current flows |
| Witnesses.CurrentFlowsUnchecked | LibIso15118/cIsoProcessEVCC.cpp:474-478 | every system with simulated hardware and three-phase AC in common has a run after which current flows without any comparison of voltages: the application writes DC_core while the vehicle awaits PowerDelivery |
| Witnesses.ClosedUnchecked | LibIso15118/cIsoProcessEVCC.cpp:510-515 | the same for the vehicle alone: a run of a fresh vehicle with nothing but good responses that closes the contactor without a comparison of voltages |
| EvccRuns.OneRequestAtATime | LibIso15118/cIsoProcessEVCC.cpp:299-760 | against any responder: between two TCP requests of a session a response to the first was consumed, and while a repeat timer that can trigger a request runs every request has been answered |
| EvccRuns.RunHasNoFunction | LibIso15118/cIsoProcessEVCC.h:41-45 | once the process is running, the parameter run influences no call until the process has finished or failed |
| EvccRuns.SessionOperate | LibIso15118/cIsoProcessEVCC.cpp:299-830 | one call in a session: the message slot is empty afterwards, without a connection the process fails, without the awaited response it stays, with it the state's decision counts |
| EvccRuns.OutsideSession | LibIso15118/cIsoProcessEVCC.cpp:249-298 | one call outside a session sends nothing on TCP and can enter a session only at the handshake |
| EvccRuns.AnswerKind | LibIso15118/cIsoProcessEVCC.cpp:306-747 | the response a session state consumes is exactly a response of the type it asks for |
| EvccSafety.SlotEmptied | LibIso15118/cIsoProcessEVCC.cpp:791-795 | after every call, from any state and with any message, the message slot is empty |
| EvccSafety.ContactorRule | LibIso15118/cIsoProcessEVCC.cpp:659-660 | the contactor after a call, in every state: closed by entering awaitCurrentDemand, opened outside the power states with less than I_OFF measured, otherwise unchanged |
| EvccSafety.PilotRule | LibIso15118/cIsoProcessEVCC.cpp:797-801 | a call that starts outside CableCheck, PreCharge, PowerDelivery and CurrentDemand never leaves the pilot demand at C or D; only CableCheck and PreCharge raise it |
| EvccSafety.PreChargeEnds | LibIso15118/cIsoProcessEVCC.cpp:625-654 | PreCharge leads to PowerDelivery exactly when a valid response reported a voltage less than 5 V from the one at the socket and the client is connected |
| EvccSafety.ContactorClosedAfterCheck | LibIso15118/cIsoProcessEVCC.cpp:474-478 | in every run a closed contactor was closed by the call that entered awaitCurrentDemand and stayed closed since; that call finds the PreCharge voltages compared if and only if the ChargeParameterDiscovery response of its session was accepted with another transfer mode than three-phase AC in force; if it was not, the application has taken three-phase AC out of force since |
| EvccSafety.ContactorClosedAfterMatch | LibIso15118/cIsoProcessEVCC.cpp:638-660 | the corollary for sessions in which the application neither puts three-phase AC in force nor takes it out of force: the contactor closes only after the voltages have matched |
| EvccSafety.ContactorOpensWithoutCurrent | LibIso15118/cIsoProcessEVCC.cpp:802-806 | in every run a closed contactor is opened only by a call that starts outside the power states and measures less than I_OFF |
| EvccSafety.ModeChangeSkipsCheck | LibIso15118/cIsoProcessEVCC.cpp:510-515 | from every history in awaitPowerDelivery with three-phase AC in force, writing DC_core before the response closes the contactor without a comparison of voltages |
| EvccSafety.PilotRaisedForPower | LibIso15118/cIsoProcessEVCC.cpp:570-606 | in every run a pilot demand of C or D was raised by CableCheck or PreCharge and every call since started in a power state |
| EvccSafety.NegotiateMeaning | LibIso15118/cIsoProcessEVCC.cpp:366-380 | the search for a transfer mode succeeds if and only if the wanted one is offered or DC_extended is offered for DC_core, which it then replaces |
| EvccContents.EnteredWhenFinished | LibIso15118/cIsoProcessEVCC.cpp:586-592 | in every run of a vehicle that starts idle: PreCharge was entered from CableCheck, and ChargeParameterDiscovery from Authorization, only over a response with good code and id which said that the charger had finished |
| EvccContents.CableCheckEnds | LibIso15118/cIsoProcessEVCC.cpp:581-600 | a CableCheck response leads to PreCharge if and only if code and id are good, the charger says that its test has finished, and the client is connected; with the test still running the vehicle stays and asks again once more than 200 have passed |
| EvccContents.AuthorizationEnds | LibIso15118/cIsoProcessEVCC.cpp:430-448 | the same for Authorization, with the time its repeat timer is set to |
| EvccContents.PreChargeEnds | LibIso15118/cIsoProcessEVCC.cpp:625-654 | a PreCharge response leads to PowerDelivery if and only if it is good and the voltage it reports is less than 5 V from the measured one, which simulated hardware always meets; otherwise the vehicle asks again |
| EvccContents.CurrentDemandEnds | LibIso15118/cIsoProcessEVCC.cpp:682-711 | a CurrentDemand response leads back to PowerDelivery if and only if it is good, charging is no longer wished and no current flows; otherwise the vehicle asks again |
| EvccContents.PowerDeliveryEnds | LibIso15118/cIsoProcessEVCC.cpp:501-525 | the four ways from PowerDelivery by the wish to charge and the transfer mode at the response |
| EvccContents.ChargingStatusEnds | LibIso15118/cIsoProcessEVCC.cpp:546-562 | three-phase charging goes on exactly as long as it is wished |
| EvccContents.ServiceDiscoveryEnds | LibIso15118/cIsoProcessEVCC.cpp:362-394 | the modes of the response decide whether the session goes on and in which mode |
| EvccContents.HandshakeEnds | LibIso15118/cIsoProcessEVCC.cpp:317-328 | the handshake succeeds if and only if the charger accepts schema id 10 |
| EvccContents.SessionSetupEnds | LibIso15118/cIsoProcessEVCC.cpp:342-350 | a new session gives the vehicle its id; nothing else leads on |
| EvccContents.PaymentServiceSelectionEnds | LibIso15118/cIsoProcessEVCC.cpp:407-416 | only a good response leads to Authorization |
| EvccContents.ChargeParameterDiscoveryEnds | LibIso15118/cIsoProcessEVCC.cpp:470-486 | only a good response leads on, to PowerDelivery for three-phase AC and to CableCheck otherwise |
| EvccContents.WeldingDetectionEnds | LibIso15118/cIsoProcessEVCC.cpp:725-735 | only a good response leads to the session stop |
| EvccContents.SessionStopEnds | LibIso15118/cIsoProcessEVCC.cpp:749-759 | only a good response leads to the disconnection |
| EvccContents.AskedWhen | LibIso15118/cIsoProcessEVCC.cpp:299-760 | a session state sends its request exactly on entry or, in the five states that repeat it, when their timer has run out |
| EvccContents.RequestSaid | LibIso15118/cIsoProcessEVCC.cpp:306-747 | every request word for word: name space and schema id, the id of zeros for a new session, the session id, the transfer mode, and Start or Stop by the wish to charge |
| EvccContents.PreChargeSaid | LibIso15118/cIsoProcessEVCC.cpp:610-624 | PreCharge asks for the voltage the charger reported last |
| EvccContents.CurrentDemandSaid | LibIso15118/cIsoProcessEVCC.cpp:664-681 | the demand is 10 A if charging is wished and the contactor shows closed, and 0 A otherwise, at the greatest voltage of the vehicle |
| EvccContents.DemandedVoltage | LibIso15118/cIsoProcessEVCC.cpp:664-681 | in every run of a fresh vehicle that voltage is 400 V |
| EvccContents.SearchCall | LibIso15118/cIsoProcessEVCC.cpp:258-298 | one call of the search: what it sends, the only offer it takes (security 0x10, transport 0x00, and only one), where the connection leads, and the timer |
| EvccContents.IdleCall | LibIso15118/cIsoProcessEVCC.cpp:250-257 | a process that may run closes its client, forgets its last session and looks for a charger |
| EvccContents.DisconnectionCall | LibIso15118/cIsoProcessEVCC.cpp:762-772 | the connection is closed, and without it the process has finished |
| EvccContents.EndCall | LibIso15118/cIsoProcessEVCC.cpp:774-788 | a failed process closes its client once; failed or finished, it returns to idle when it may not run |
| EvccContents.PilotExactly | LibIso15118/cIsoProcessEVCC.cpp:565-624 | the pilot demand after a call, for every state, request and pilot |
| EvccContents.Settings | LibIso15118/cIsoProcessEVCC.cpp:581-600 | in every run of a fresh vehicle the power timer is set to 1000, the repeat timer to 1000 or 200, and the greatest voltage is 400 V |
| EvccContents.CameAsFrame | LibIso15118/cIsoProcessEVCC.cpp:117-145 | whatever is in the message slot after a run has come as a frame of that run |
| EvccContents.FrameInSlot | LibIso15118/cIsoProcessEVCC.cpp:117-145 | which frames the slot keeps |
| SeccContents.MainContactorRule | LibIso15118/cIsoProcessSECC.cpp:706-717 | after every call: with a pilot and one of the two AC core modes the main contactor is closed if and only if the pilot is in C or D; in every other call it is unchanged |
| SeccContents.MainContactorClosed | LibIso15118/cIsoProcessSECC.cpp:706-717 | in every run a closed main contactor was closed by a call in an AC mode with the pilot in C or D, and every such call since then has found the pilot there |
| SeccContents.Dialogue | LibIso15118/cIsoProcessSECC.cpp:340-633 | a connected charger answers exactly the requests its state expects and ends in the state that stands for the answer; any other request leaves it where it is and unanswered |
| SeccContents.PlainAnswers | LibIso15118/cIsoProcessSECC.cpp:410-632 | the answers without measured content, word for word |
| SeccContents.SetupAnswer | LibIso15118/cIsoProcessSECC.cpp:385-402 | a new session is announced under its new id |
| SeccContents.SearchAnswer | LibIso15118/cIsoProcessSECC.cpp:341-355 | a search is answered with TLS if it asks for TLS and the charger provides it, and with plain TCP otherwise |
| SeccContents.SchemaHeard | LibIso15118/cIsoProcessSECC.cpp:144-148 | the charger settles on the schema id of the last offered dialect with its name space, and on the number for none if and only if there is no such dialect |
| SeccContents.DialectAnswer | LibIso15118/cIsoProcessSECC.cpp:360-381 | the handshake is accepted with that id, or refused and failed |
| SeccContents.PreChargeAnswer | LibIso15118/cIsoProcessSECC.cpp:260-279 | PreCharge gives the source the target voltage without current and reports the voltage the source then shows |
| SeccContents.DemandAnswer | LibIso15118/cIsoProcessSECC.cpp:243-258 | CurrentDemand reports the current the source shows before and gives it the demanded current and voltage after |
| SeccContents.WeldingAnswer | LibIso15118/cIsoProcessSECC.cpp:281-290 | WeldingDetection switches the source off |
| SeccContents.OtherwiseOff | LibIso15118/cIsoProcessSECC.cpp:298-305 | every other call leaves the source alone in the three power states and switches it off in all others |
| SeccContents.ClientTaken | LibIso15118/cIsoProcessSECC.cpp:719-748 | a charger that offers its connection takes the first client, with TLS only after a successful handshake |
| SeccContents.ClientKept | LibIso15118/cIsoProcessSECC.cpp:746-750 | in the dialogue a connected charger keeps its client, whoever else connects |
| SeccContents.IdleCall | LibIso15118/cIsoProcessSECC.cpp:319-326 | idle waits to be run and starts without a client |
| SeccContents.EndCall | LibIso15118/cIsoProcessSECC.cpp:635-652 | finished and failure are reported as such and left for idle when the process may not run |
| SeccContents.ClientGone | LibIso15118/cIsoProcessSECC.cpp:664-676 | a lost client means the end after the session stop and failure before |
| SeccContents.FrameInSlot | LibIso15118/cIsoProcessSECC.cpp:86-132 | which frames the slot keeps |
| EaContents.MeasureHeard | LibCpp/Lab/cEAsource.cpp:66-82 | the four fields of a measurement are voltage, current, power and output, in this order |
| EaContents.NominalHeard | LibCpp/Lab/cEAsource.cpp:42-55 | the three fields of the nominal values are voltage, current and power |
| EaContents.ProtectionHeard | LibCpp/Lab/cEAsource.cpp:152-167 | the five fields of the protection values |
| EaContents.DemandHeard | LibCpp/Lab/cEAsource.cpp:107-122 | the five fields of the demand values, unless demand or nominal power are preset |
| EaContents.OthersIgnored | LibCpp/Lab/cEAsource.cpp:524-606 | any other reply only ends the waiting |
| EaContents.SetMeans | LibCpp/Lab/cEAsource.cpp:686-693 | the demand times the factors of the source is the application's voltage and current, with 1 A instead of 0 A where a voltage is to rise without current control |
| EaContents.CommandSaid | LibCpp/Lab/cEAsource.cpp:333-449 | every command, word for word |
| EaContents.DemandAfterMeasure | LibCpp/Lab/cEAsource.cpp:429-440 | from a measurement to the next one every demand sent is the application's, except that an output to be switched off is kept on with both currents at zero if and only if the measured current times its factor exceeds 0.1 A |
| EaContents.SentWhenFree | LibCpp/Lab/cEAsource.cpp:319 | a command needs an idle timer, fifty since the last one and a serial port or a connected client |
| EaContents.GivenUp | LibCpp/Lab/cEAsource.cpp:276-316 | a reply is waited for until 4500 have passed, and only until 10 have passed after the five commands that are not answered |
| EaContents.OnlineMarked | LibCpp/Lab/cEAsource.cpp:329-369 | the source counts as online from its identification until the driver is back in idle |
| EvccContents.FreshVehicle | LibIso15118/cIsoProcessEVCC.cpp:19-43 | a freshly constructed vehicle is idle with everything off and nothing heard |
| SeccContents.FreshCharger | LibIso15118/cIsoProcessSECC.cpp:10-32 | a freshly constructed charger is idle without a client, with its source and its main contactor off |
| SeccContents.ModeHeard | LibIso15118/cIsoProcessSECC.cpp:167 | the transfer mode in force is that of the last ChargeParameterDiscovery request |
| EaContents.RequestsTaken | LibCpp/Lab/cEAsource.cpp:319-331 | from every state a reset leads to idle and a configuration to the protection values, one per call and without a command |
| EaContents.Unconnected | LibCpp/Lab/cEAsource.cpp:276-284 | a closed client sets the timer, and an idle driver whose connection does not come about in time fails |
| EaContents.TimedOutAgain | LibCpp/Lab/cEAsource.cpp:273-299 | what the flag for a second timeout would bring about: the reconnection, and failure without one |
| EaContents.OtherFrames | LibCpp/Lab/cEAsource.cpp:524-532 | an interruption asks for a reset; a Modbus message has no effect |
| EaContents.FreshDriver | LibCpp/Lab/cEAsource.cpp:169-193 | a fresh driver demands nothing and waits 4500 for a reply |
| EvccObject.EvccProcess.constructor | LibIso15118/cIsoProcessEVCC.cpp:19-43 | the process starts idle, with both timers set but stopped and a cleared session |
| EvccObject.EvccProcess.Clear | LibIso15118/cIsoProcessEVCC.cpp:51-61 | all session data return to their initial values, the vehicle data and the outputs stay |
| EvccObject.EvccProcess.OnFrameReceive | LibIso15118/cIsoProcessEVCC.cpp:117-145 | a frame is dropped in idle and finished; a request is never kept; a response is kept and its content stored |
| EvccObject.EvccProcess.Evaluate | LibIso15118/cIsoProcessEVCC.cpp:147-239 | each response type stores its own content, and only with the code that permits it |
| EvccObject.EvccProcess.IsValid | LibIso15118/cIsoProcessEVCC.cpp:86-94 | a response is valid if its code is OK and its session id is that of the session |
| EvccObject.EvccProcess.SetPilotState | LibIso15118/cIsoProcessEVCC.cpp:570-606 | the pilot demand changes only if there is a control pilot |
| EvccObject.EvccProcess.AwaitSdpCase | LibIso15118/cIsoProcessEVCC.cpp:258-298 | search on entry and on timeout, accept one matching offer, open the connection, follow its status |
| EvccObject.EvccProcess.AppProtocolCase | LibIso15118/cIsoProcessEVCC.cpp:300-329 | ask once, go on only with success and the own schema id |
| EvccObject.EvccProcess.SessionSetupCase | LibIso15118/cIsoProcessEVCC.cpp:331-351 | ask once with session id 0, go on only with a new session |
| EvccObject.EvccProcess.NegotiateMode | LibIso15118/cIsoProcessEVCC.cpp:365-380 | the loop over the offered modes leaves the mode and the result of the negotiation in the fields |
| EvccObject.EvccProcess.ServiceDiscoveryCase | LibIso15118/cIsoProcessEVCC.cpp:353-395 | ask once, go on only with a valid response and a common transfer mode |
| EvccObject.EvccProcess.PaymentServiceSelectionCase | LibIso15118/cIsoProcessEVCC.cpp:397-417 | ask once, go on only with a valid response |
| EvccObject.EvccProcess.AuthorizationDecision | LibIso15118/cIsoProcessEVCC.cpp:430-448 | a valid response leads on if the vehicle is authorized and restarts the repeat timer otherwise |
| EvccObject.EvccProcess.AuthorizationAsk | LibIso15118/cIsoProcessEVCC.cpp:420-429 | the request goes out on entry and when the repeat timer has run out, and stops that timer |
| EvccObject.EvccProcess.AuthorizationCase | LibIso15118/cIsoProcessEVCC.cpp:419-449 | asking and deciding in one call |
| EvccObject.EvccProcess.ChargeParameterDiscoveryCase | LibIso15118/cIsoProcessEVCC.cpp:451-487 | ask once, go on to PowerDelivery for three-phase AC and to CableCheck otherwise |
| EvccObject.EvccProcess.PowerDeliveryCase | LibIso15118/cIsoProcessEVCC.cpp:489-533 | ask once with the progress of the moment, branch on enable and the transfer mode at the response |
| EvccObject.EvccProcess.ChargingStatusDecision | LibIso15118/cIsoProcessEVCC.cpp:546-562 | a valid response leads back to PowerDelivery without enable and restarts the repeat timer with it |
| EvccObject.EvccProcess.ChargingStatusAsk | LibIso15118/cIsoProcessEVCC.cpp:536-545 | the request goes out on entry and when the repeat timer has run out, and stops that timer |
| EvccObject.EvccProcess.ChargingStatusCase | LibIso15118/cIsoProcessEVCC.cpp:535-563 | asking and deciding in one call |
| EvccObject.EvccProcess.CableCheckDecision | LibIso15118/cIsoProcessEVCC.cpp:581-600 | a valid response leads on if the charger has finished and sets the repeat timer to 200 otherwise |
| EvccObject.EvccProcess.CableCheckAsk | LibIso15118/cIsoProcessEVCC.cpp:566-580 | every request raises the pilot demand to C and stops the repeat timer |
| EvccObject.EvccProcess.CableCheckCase | LibIso15118/cIsoProcessEVCC.cpp:565-601 | asking and deciding in one call |
| EvccObject.EvccProcess.PreChargeDecision | LibIso15118/cIsoProcessEVCC.cpp:625-654 | a valid response stores the reported voltage and leads on if it is less than 5 V from the measured one |
| EvccObject.EvccProcess.PreChargeAsk | LibIso15118/cIsoProcessEVCC.cpp:605-624 | entry raises the pilot demand; the request goes out on entry and on timeout |
| EvccObject.EvccProcess.PreChargeCase | LibIso15118/cIsoProcessEVCC.cpp:603-655 | asking and deciding in one call |
| EvccObject.EvccProcess.CurrentDemandDecision | LibIso15118/cIsoProcessEVCC.cpp:682-711 | a valid response stores the reported current and leads on without enable and with less than I_OFF measured |
| EvccObject.EvccProcess.CurrentDemandAsk | LibIso15118/cIsoProcessEVCC.cpp:659-681 | entry closes the contactor; the request demands 10 A only with enable and a closed contactor |
| EvccObject.EvccProcess.CurrentDemandCase | LibIso15118/cIsoProcessEVCC.cpp:657-712 | asking and deciding in one call |
| EvccObject.EvccProcess.WeldingDetectionCase | LibIso15118/cIsoProcessEVCC.cpp:714-736 | ask once, go on only with a valid response |
| EvccObject.EvccProcess.SessionStopCase | LibIso15118/cIsoProcessEVCC.cpp:738-760 | ask once, go on only with a valid response |
| EvccObject.EvccProcess.OtherCase | LibIso15118/cIsoProcessEVCC.cpp:250-256 | idle, disconnection, failure and finished: when the process restarts, closes its client and ends |
| EvccObject.EvccProcess.Switch | LibIso15118/cIsoProcessEVCC.cpp:248-789 | the switch over all states |
| EvccObject.EvccProcess.Safeguard | LibIso15118/cIsoProcessEVCC.cpp:797-807 | outside the power states the pilot demand falls back to B and the contactor opens below I_OFF |
| EvccObject.EvccProcess.Enter | LibIso15118/cIsoProcessEVCC.cpp:809-827 | a session state without a connected client fails; a state counts as entered exactly if it is a new one |
| EvccObject.EvccProcess.Operate | LibIso15118/cIsoProcessEVCC.cpp:241-830 | the whole call, for every state, message and environment, and the result that tells whether the process had ended |
| SeccRuns.RunToCompletion | LibIso15118/cIsoProcessSECC.cpp:307-693 | an expected request with the client it needs gets exactly one response, of its own type and with the session id, within the call that finds it, which ends in the state the request leads to |
| SeccRuns.AtMostOneResponse | LibIso15118/cIsoProcessSECC.cpp:307-693 | no call sends more than one message |
| SeccRuns.NothingToAnswer | LibIso15118/cIsoProcessSECC.cpp:326-339 | a call without an expected request sends nothing but the echo of a V2S frame while the charger waits for a vehicle |
| SeccRuns.UnreachableRequest | LibIso15118/cIsoProcessSECC.cpp:661-672 | an expected request without the client it needs goes unanswered |
| SeccRuns.OperateSettles | LibIso15118/cIsoProcessSECC.cpp:674-693 | after every call nothing is unread and only idle and failure can still be waiting to be entered |
| SeccRuns.OperateOnRequest | LibIso15118/cIsoProcessSECC.cpp:307-693 | a call that finds an expected request is its two passes: enter the state, then answer with the message already cleared |
| SeccRuns.RunKeepsInv | LibIso15118/cIsoProcessSECC.cpp:86-114 | what holds between calls holds in every run of frames, disconnections and calls |
| SeccRuns.SourceEnabledOnlyForPower | LibIso15118/cIsoProcessSECC.cpp:298-305 | if the source is enabled when a call ends, the call began or ended in a power state, and the command is an old one left alone or was issued with the pilot in C or D or without a pilot |
| SeccRuns.EnabledWithConsent | LibIso15118/cIsoProcessSECC.cpp:234-290 | in every run an enabled source was enabled by a call with the pilot in C or D or without a pilot, and that command has been in force since |
| SeccRuns.InitialKeepsInv | LibIso15118/cIsoProcessSECC.cpp:11-34 | a freshly constructed charger satisfies what holds between calls, with its source disabled |
| SeccRuns.SessionIdAfter | LibIso15118/cIsoProcessSECC.cpp:385-401 | the id changes in exactly those calls that answer a session setup request, by one |
| SeccRuns.SessionNumber | LibIso15118/cIsoProcessSECC.cpp:388-391 | after n sessions, in every run, the id is 0x0102030405060708 + n modulo 2^64 |
| SeccRuns.ResponseFacts | LibIso15118/cIsoProcessSECC.cpp:340-633 | the response of each state has the type the state stands for and carries the session id |
| SeccObject.SeccProcess.constructor | LibIso15118/cIsoProcessSECC.cpp:11-34 | the process starts idle and entered, without client and TLS |
| SeccObject.SeccProcess.Restart | LibIso15118/cIsoProcessSECC.cpp:65-70 | back to idle, to be entered |
| SeccObject.SeccProcess.Clear | LibIso15118/cIsoProcessSECC.cpp:55-63 | the client is dropped and the process restarted |
| SeccObject.SeccProcess.OnFrameReceive | LibIso15118/cIsoProcessSECC.cpp:100-113 | a frame is dropped in idle and finished, otherwise kept and evaluated |
| SeccObject.SeccProcess.OnDisconnect | LibIso15118/cIsoProcessSECC.cpp:93-99 | only the client is lost |
| SeccObject.SeccProcess.ChooseSchema | LibIso15118/cIsoProcessSECC.cpp:144-148 | the loop leaves the schema id of the last offered dialect with the supported name space, or none |
| SeccObject.SeccProcess.Evaluate | LibIso15118/cIsoProcessSECC.cpp:119-206 | each request type stores its own content; responses are thrown away |
| SeccObject.SeccProcess.Send | LibIso15118/cIsoProcessSECC.cpp:208-232 | SDP and V2S go out on UDP, everything but V2S also to a connected client, and the request counts as answered |
| SeccObject.SeccProcess.PrepareCurrentDemandRes | LibIso15118/cIsoProcessSECC.cpp:234-258 | the response reports the present current, then the source gets the demanded one from the cleared request |
| SeccObject.SeccProcess.PreparePreChargeRes | LibIso15118/cIsoProcessSECC.cpp:260-279 | the source gets the target voltage, then the response reports the present one |
| SeccObject.SeccProcess.PrepareWeldingDetectionRes | LibIso15118/cIsoProcessSECC.cpp:281-290 | the source is switched off |
| SeccObject.SeccProcess.PrepareSessionSetupRes | LibIso15118/cIsoProcessSECC.cpp:385-401 | the session id is counted up and announced |
| SeccObject.SeccProcess.AnswerEntered | LibIso15118/cIsoProcessSECC.cpp:340-633 | each answering state sends its one response |
| SeccObject.SeccProcess.Switch | LibIso15118/cIsoProcessSECC.cpp:317-653 | the switch over all states |
| SeccObject.SeccProcess.AnsweringCase | LibIso15118/cIsoProcessSECC.cpp:340-633 | answer if entered, then follow an unread request where the state lets it lead |
| SeccObject.SeccProcess.Follow | LibIso15118/cIsoProcessSECC.cpp:356-632 | the chain of comparisons of each answering state leads where the specification of the dialogue says, and re-enters a state exactly on its own request |
| SeccObject.SeccProcess.RunPass | LibIso15118/cIsoProcessSECC.cpp:311-680 | one pass: unexpected messages are dropped, a missing client fails, a state counts as entered if it is new or re-entered |
| SeccObject.SeccProcess.RunLoop | LibIso15118/cIsoProcessSECC.cpp:307-693 | the loop makes one pass, and exactly one more if the first entered a state |
| SeccObject.SeccProcess.ControlMainContactor | LibIso15118/cIsoProcessSECC.cpp:707-717 | for AC the main contactor follows the pilot |
| SeccObject.SeccProcess.AcceptClient | LibIso15118/cIsoProcessSECC.cpp:719-751 | a new client is taken over only if there is none and TLS, when agreed, succeeds |
| SeccObject.SeccProcess.Operate | LibIso15118/cIsoProcessSECC.cpp:292-753 | the whole call, for every state, message and environment |
| Timers.TimeoutExactlyAfterDuration | LibCpp/cTimer.cpp:58-114 | a started timer reports its timeout exactly once the clock is past its end, a stopped one reports nothing and still tells the time |
| Timers.TimerObject.constructor | LibCpp/cTimer.cpp:44-52 | a timer is started on request, otherwise only given its duration |
| Timers.TimerObject.Start | LibCpp/cTimer.cpp:58-63 | a duration of zero keeps the old one; the count starts anew |
| Timers.TimerObject.Restart | LibCpp/cTimer.cpp:68-73 | the start time is set and, with a duration, the count goes up |
| Timers.TimerObject.Stop | LibCpp/cTimer.cpp:79-83 | the timer is inactive and the time since its start is returned |
| Timers.TimerObject.Elapsed | LibCpp/cTimer.cpp:100-114 | the three-valued answer, and the two-valued one for a duration of the caller's |
| Crc32.EthernetIsReflected | LibCpp/cCRC32.cpp:69-86 | for every message, reversing bytes and shifting left with POLY32 gives the CRC of the right-shifting register with POLY32REV, fed with the bytes as they are |
| Crc32.BurstDetected | LibCpp/cCRC32.cpp:67-104 | two different frames of one length that agree outside of 32 consecutive bits, in the order of transmission, have different CRCs, in both modes |
| Crc32.FourBytesDetected | LibCpp/cCRC32.cpp:67-104 | in particular frames that differ only within four consecutive bytes |
| Crc32.ResidueIffIntact | LibCpp/cCRC32.cpp:67-104 | four bytes after a frame make the CRC of the whole the constant residue, 0x2144DF1C in Ethernet mode, if and only if they are the frame's CRC in the mode's byte order |
| Crc32.CheckValue | LibCpp/cCRC32.cpp:67-104 | the two values of a frame of one zero byte: 0xD202EF8D and 0xB1F7404B |
| Crc32.RunIsBits | LibCpp/cCRC32.cpp:71-84 | the bytewise register is the register fed bit by bit |
| Crc32.BitRunPlaces | LibCpp/cCRC32.cpp:77-83 | up to 32 bits shifted in one by one are the word they make up, xored in and shifted through at once |
| Crc32.BitRunLinear | LibCpp/cCRC32.cpp:77-83 | the registers of two frames differ by what the frames' difference makes of the difference of their starts |
| Crc32.StepsKernel | LibCpp/cCRC32.cpp:77-83 | shifting loses nothing: only zero becomes zero |
| Crc32.Rev32Bits | LibCpp/cCRC32.cpp:46-58 | bit k of the reversed word is bit 31 - k of the word |
| Crc32.Rev8Bits | LibCpp/cCRC32.cpp:27-39 | bit k of the reversed byte is bit 7 - k of the byte |
| Crc32.ReverseWord | LibCpp/cCRC32.cpp:46-58 | the mask loop reverses the word |
| Crc32.ReverseByte | LibCpp/cCRC32.cpp:27-39 | the mask loop, which runs on after the mask has left the byte, reverses the byte |
| Crc32.ShiftOut | LibCpp/cCRC32.cpp:77-83 | the inner loop makes eight register steps |
| Crc32.Calculate | LibCpp/cCRC32.cpp:67-104 | the nested loops compute the CRC the theorems are about, in both modes |
| EaRuns.CommandLanguage | LibCpp/Lab/cEAsource.cpp:254-522 | in every run on a steady link the commands follow the script from each restart and each configuration on, are at least CYCLE apart, and the driver neither fails nor waits for a reconnection |
| EaRuns.EnteredSends | LibCpp/Lab/cEAsource.cpp:318-449 | an entered state sends its command in the very next call unless a reset or a configuration comes first |
| EaRuns.HeededUnlessSetting | LibCpp/Lab/cEAsource.cpp:326-330 | a configuration taken up by a call makes the next call send the protection values if and only if the driver was not already setting protection values, sent or not |
| EaRuns.SecondConfigurationIsLost | LibCpp/Lab/cEAsource.cpp:326-330 | a second configuration before the protection values of the first have been sent makes the driver go on to measuring without sending them: the one case the language excludes |
| EaRuns.LateConfigurationIsLost | LibCpp/Lab/cEAsource.cpp:326-330 | a configuration taken up after the protection values of an earlier one have been sent, but before the driver has gone on, is followed by a measurement, not by its values |
| EaRuns.ConfiguredTwiceComesAbout | LibCpp/Lab/cEAsource.cpp:205-208 | every driver has a steady run to the first of these cases, after which its first command ever is a measurement |
| EaRuns.LateConfigurationComesAbout | LibCpp/Lab/cEAsource.cpp:205-208 | every driver has a steady run to the second case |
| EaRuns.SwitchOffLatch | LibCpp/Lab/cEAsource.cpp:595-603 | once a measurement reports the output off while demand and last measurement were on, every output command is off until the application enables again, for any replies, timeouts, resets and connection states |
| EaRuns.StaysOff | LibCpp/Lab/cEAsource.cpp:444-449 | a demand that is off stays off, and so do all output commands, until the application enables |
| EaRuns.DemandedState | LibCpp/Lab/cEAsource.cpp:524-606 | the exact replies that change the demanded output state |
| EaRuns.FreeCall | LibCpp/Lab/cEAsource.cpp:318-478 | what a call does when the timer is idle and the cycle time is over |
| EaRuns.WaitingCall | LibCpp/Lab/cEAsource.cpp:276-316 | any other call only waits, and at most gives up waiting for a reply |
| EaRuns.RunKeepsInv | LibCpp/Lab/cEAsource.cpp:254-522 | every run keeps the place in the script, the spacing and the freedom of an entered state to send |
| EaObject.EaSource.constructor | LibCpp/Lab/cEAsource.cpp:169-193 | the driver starts idle with its communication timer stopped |
| EaObject.EaSource.Reset | LibCpp/Lab/cEAsource.cpp:200-203 | a reset is only noted |
| EaObject.EaSource.Configure | LibCpp/Lab/cEAsource.cpp:205-208 | a configuration is only noted |
| EaObject.EaSource.Set | LibCpp/Lab/cEAsource.cpp:686-693 | the demand in the units of the source, with at least 1 A when a voltage is to rise without current control |
| EaObject.EaSource.OnFrameReceive | LibCpp/Lab/cEAsource.cpp:524-612 | any text reply ends the waiting and is stored as its state reads it; an interruption requests a reset |
| EaObject.EaSource.TakeDemand | LibCpp/Lab/cEAsource.cpp:578-589 | a preset demand is kept, a preset nominal power switches the demand off |
| EaObject.EaSource.TakeMeasure | LibCpp/Lab/cEAsource.cpp:595-603 | a well-formed reply replaces the measured values; a source that switched itself off is no longer demanded |
| EaObject.EaSource.Send | LibCpp/Lab/cEAsource.cpp:231-252 | one command, and the timer starts |
| EaObject.EaSource.DemandForOutput | LibCpp/Lab/cEAsource.cpp:429-440 | while the output is to be off but still carries current it is kept on without demanding any |
| EaObject.EaSource.SendCommand | LibCpp/Lab/cEAsource.cpp:354-446 | each state's command |
| EaObject.EaSource.MarkOnline | LibCpp/Lab/cEAsource.cpp:336-340 | only the online flag changes |
| EaObject.EaSource.Proceed | LibCpp/Lab/cEAsource.cpp:333-476 | without a request: the command of an entered state, otherwise the next state |
| EaObject.EaSource.NextSend | LibCpp/Lab/cEAsource.cpp:319-478 | requests first, then the command of an entered state, then the next state |
| EaObject.EaSource.Operate | LibCpp/Lab/cEAsource.cpp:254-522 | the whole call, for every state, timer, link and clock |
| Text.JoinSplit | LibCpp/HAL/Tools.cpp:260-287 | joining the untrimmed pieces gives the text back if and only if it holds the delimiter or is empty |
| Text.SplitIsFree | LibCpp/HAL/Tools.cpp:260-287 | no piece of a text holds the delimiter |
| Text.SplitUndoesJoin | LibCpp/HAL/Tools.cpp:260-287 | two or more pieces come back from the text they are joined to, with any nonempty delimiter, if and only if the delimiter stands nowhere else in that text, not even across a seam |
| Text.SingleMark | LibCpp/HAL/Tools.cpp:260-287 | with a delimiter of one character this means that no piece holds it |
| Text.SplitMeaning | LibCpp/HAL/Tools.cpp:277-285 | with any of the four pairs of flags: trimming cuts the surrounding whitespace off each piece of the plain split, in its place, and removal then keeps exactly the pieces that are not empty, in order |
| Text.WhitespaceOnly | LibCpp/HAL/Tools.cpp:250 | the six characters that count as whitespace |
| Text.NonEmptyKeeps | LibCpp/HAL/Tools.cpp:280-285 | removal keeps every nonempty piece as often as it was there and nothing else |
| Text.NonEmptyConcat | LibCpp/HAL/Tools.cpp:280-285 | removal keeps the order |
| Text.TrimMeaning | LibCpp/HAL/Tools.cpp:248-258 | only whitespace is cut off, none is left at the ends, and a text of whitespace alone comes back unchanged |
| Text.StringTrim | LibCpp/HAL/Tools.cpp:248-258 | the two searches find what is trimmed |
| Text.SplitPieces | LibCpp/HAL/Tools.cpp:262-276 | the loop ends and finds the pieces; a nonempty text without the delimiter is entered twice |
| Text.TrimEach | LibCpp/HAL/Tools.cpp:277-279 | every piece is trimmed |
| Text.RemoveEmpty | LibCpp/HAL/Tools.cpp:280-285 | the loop from behind leaves exactly the nonempty pieces in order |
| Text.StringSplit | LibCpp/HAL/Tools.cpp:260-287 | splitting, trimming and removing together |
| ByteArrays.NumberRoundTrip | LibCpp/HAL/Tools.cpp:107-120 | every 64 bit number survives its journey through the byte array |
| ByteArrays.BytesRoundTrip | LibCpp/HAL/Tools.cpp:166-178 | every eight byte array survives its journey through its number |
| ByteArrays.NextIdCounts | LibIso15118/cIsoProcessSECC.cpp:388-391 | reading, incrementing and writing an id counts modulo 2^64 |
| ByteArrays.NextIdOfLong | LibCpp/HAL/Tools.cpp:166-178 | only the first eight bytes of a longer id count |
| ByteArrays.OrderOfBytes | LibCpp/HAL/Tools.cpp:107-120 | byte i of k is the digit of weight 256 to the power of k - 1 - i |
| ByteArrays.ByteArray.constructor | LibCpp/HAL/Tools.cpp:27-31 | an empty array without a buffer |
| ByteArrays.ByteArray.Set | LibCpp/HAL/Tools.cpp:86-105 | the buffer is replaced by a fresh one with the given contents and a zero behind them |
| ByteArrays.ByteArray.SetUInt64 | LibCpp/HAL/Tools.cpp:107-120 | the eight bytes of a number, most significant first |
| ByteArrays.ByteArray.AsUInt64 | LibCpp/HAL/Tools.cpp:166-178 | the number of the first eight bytes or, shifted, of all if there are fewer, whatever lies in the memory behind them |
| ByteArrays.ByteArray.Equals | LibCpp/HAL/Tools.cpp:219-227 | equality of contents |
| IpText.AddressRoundTrip | LibCpp/HAL/cIp.cpp:172-212 | reading the printed form by section 2.2 of RFC 4291 gives the eight groups back if and only if the first group is nonzero or the first two are zero, and the last group is nonzero or belongs to the zeros left out; otherwise it is no address |
| IpText.OneDoubleColon | LibCpp/HAL/cIp.cpp:177-206 | the text of any address holds at most one double colon |
| IpText.GroupRoundTrip | LibCpp/HAL/cIp.cpp:184-186 | a group printed with %x is a group of one to four digits with the same value |
| IpText.ToString | LibCpp/HAL/cIp.cpp:172-212 | the loop with its counter prints the form the theorems are about |
| Framing.HeaderRoundTrip | LibIso15118/isoTypes.cpp:1742-1784 | a header is read back and accepted as written if and only if its type is known, its length fits 32 bits and its version a byte |
| Framing.RequestRoundTrip | LibIso15118/isoTypes.cpp:1786-1852 | an SDP request frame carries its fields if and only if they fit a byte |
| Framing.ResponseRoundTrip | LibIso15118/isoTypes.cpp:1801-1888 | an SDP response frame carries address, port, security and transport if and only if they fit their fields |
| Framing.SecondReadFails | LibIso15118/isoTypes.cpp:1754-1755 | reading swaps the header in place, so that every accepted header is refused when the same buffer is read again |
| FramingBuffer.TakenIsNative | LibIso15118/isoTypes.cpp:1754-1755 | a header that has been read leaves its type and length in the buffer as numbers of the host, and nothing else changed |
| FramingBuffer.PairsSwapped | LibIso15118/isoTypes.cpp:1813-1818 | an SDP response that has been read leaves the two bytes of each of its nine numbers exchanged |
| Framing.KnownTypes | LibIso15118/isoTypes.h:9-12 | the four payload types as numbers |
| Framing.HeaderLayout | LibIso15118/isoTypes.cpp:1767-1784 | the eight bytes of any header, most significant byte first |
| Framing.RequestLayout | LibIso15118/isoTypes.cpp:1829-1852 | the ten bytes of any SDP request: 01 FE 90 00 00 00 00 02, security, transport |
| Framing.ResponseLayout | LibIso15118/isoTypes.cpp:1854-1888 | the 28 bytes of any SDP response: 01 FE 90 01 00 00 00 14, the eight address groups, port, security, transport |
| Framing.ParsedFields | LibIso15118/isoTypes.cpp:1742-1765 | the three fields of a header are read from the places they are written to |
| Framing.NotConfused | LibIso15118/isoTypes.cpp:1786-1823 | the reader of either SDP message refuses the frame of the other one |
| FramingBuffer.Swap16 | LibIso15118/isoTypes.cpp:1754 | a 16 bit field changes its byte order in place |
| FramingBuffer.Swap32 | LibIso15118/isoTypes.cpp:1755 | a 32 bit field changes its byte order in place |
| FramingBuffer.Put16 | LibIso15118/isoTypes.cpp:1776-1779 | a number stored in the host's order and swapped stands most significant byte first |
| FramingBuffer.Put32 | LibIso15118/isoTypes.cpp:1777-1780 | the same for 32 bits |
| FramingBuffer.Take16 | LibIso15118/isoTypes.cpp:1754-1758 | a number swapped and read in the host's order is the one that stood most significant byte first |
| FramingBuffer.Take32 | LibIso15118/isoTypes.cpp:1755-1759 | the same for 32 bits |
| FramingBuffer.TakeHeader | LibIso15118/isoTypes.cpp:1752-1759 | the three fields and the swapped memory |
| FramingBuffer.PutAddress | LibIso15118/isoTypes.cpp:1880-1884 | the loop writes the eight groups |
| FramingBuffer.PutTail | LibIso15118/isoTypes.cpp:1876-1879 | port, security and transport |
| FramingBuffer.PutRequest | LibIso15118/isoTypes.cpp:1845-1848 | security and transport |
| FramingBuffer.PutResponse | LibIso15118/isoTypes.cpp:1874-1884 | the body of a response |
| FramingBuffer.TakeNext | LibIso15118/isoTypes.cpp:1815-1816 | one more number is read and swapped |
| FramingBuffer.TakeNumbers | LibIso15118/isoTypes.cpp:1813-1819 | the loop reads the address and the port |
| FramingBuffer.StreamControl.constructor | LibIso15118/isoTypes.cpp:1683-1692 | a view of a buffer |
| FramingBuffer.StreamControl.Move | LibIso15118/isoTypes.cpp:1694-1706 | the position moves and stops at the end |
| FramingBuffer.StreamControl.WriteHeader | LibIso15118/isoTypes.cpp:1767-1784 | eight bytes of the header at the position and nothing else, or nothing at all if there is no room |
| FramingBuffer.StreamControl.ReadHeader | LibIso15118/isoTypes.cpp:1742-1765 | the parsed header and whether it is accepted, the consumed bytes, and the memory it leaves behind |
| FramingBuffer.StreamControl.WriteRequest | LibIso15118/isoTypes.cpp:1829-1852 | ten bytes of the frame at the position and nothing else, or nothing at all if there is no room; the position ends eight bytes behind the frame, or at the end of the buffer |
| FramingBuffer.StreamControl.WriteResponse | LibIso15118/isoTypes.cpp:1854-1888 | 28 bytes of the frame at the position and nothing else, or nothing at all if there is no room; the position ends eight bytes behind the frame, or at the end of the buffer |
| FramingBuffer.StreamControl.ReadRequest | LibIso15118/isoTypes.cpp:1786-1799 | the parsed request, if the announced length is right and the bytes are there |
| FramingBuffer.StreamControl.ReadResponse | LibIso15118/isoTypes.cpp:1801-1823 | the parsed response, if the announced length is right and the bytes are there, and the memory it leaves behind |
| PhysicalValues.RoundTripError | LibIso15118/isoTypes.cpp:458-489 | outside the wide branch the value read back is within half a step of the value written if and only if the rounded mantissa fits 16 bits |
| PhysicalValues.RoundTripExact | LibIso15118/isoTypes.cpp:458-484 | whole numbers of steps come back unchanged |
| PhysicalValues.RoundMeans | LibIso15118/isoTypes.cpp:463-489 | mantissas are rounded to the nearest whole number, halves away from zero |
| PhysicalValues.PowersOfTen | LibIso15118/isoTypes.cpp:458-461 | the steps are the powers of ten |
| PhysicalValues.ExponentChosen | LibIso15118/isoTypes.cpp:463-484 | zero is sent with exponent zero, any other value outside the wide branch with the wanted exponent |
| PhysicalValues.WideBranchFails | LibIso15118/isoTypes.cpp:485-488 | from 32768 up to 100000 in magnitude, where the exponent is still zero, the value read back is the 16 bit wrap of the rounded value, within half a step of it if and only if that is -32768 |
| PhysicalValues.WideExponent | LibIso15118/isoTypes.cpp:485-488 | beyond that the exponent leaves five digits while the mantissa keeps them all and wraps |
| PhysicalValues.DemandsSurvive | LibIso15118/isoTypes.cpp:463-484 | the currents and voltages of the simulated dialogue come back unchanged |
| PhysicalValues.ExiPhysicalValue.constructor | LibIso15118/isoTypes.cpp:458-489 | zero |
| PhysicalValues.ExiPhysicalValue.FromFloat | LibIso15118/isoTypes.cpp:463-489 | the four branches set mantissa and exponent |
| PhysicalValues.ExiPhysicalValue.ToFloat | LibIso15118/isoTypes.cpp:458-461 | mantissa times power of ten |

## Left out

- BoundedStop.StopsFromAnywhere: is about simulated hardware, because a sensor that keeps reporting current keeps the vehicle in CurrentDemand; it assumes that the two sides have a common transfer mode until they have agreed on it.
- BoundedStart.PowerFlows: is about simulated hardware and about rounds in which the network, the vehicle and the charger each take a full turn.
- Lockstep.InStep: is about loss-free links on which connection attempts succeed sooner or later and closing takes effect at once; message loss and lost connections are not part of the joint system, and SDP messages are exempt from "nothing unexpected".
- EaRuns.CommandLanguage: assumes a serial port or a client that stays connected, a clock below 2^64 and no second configuration on top of the first.
- IpText.AddressRoundTrip: port and interface suffixes and the IPv4 branch are not part of this model.
- IpText.ToString: prints the eight groups; port and interface suffixes and the IPv4 branch are not part of this model.
- Text.SplitPieces: an empty delimiter is excluded, because the program does not terminate on it.
- Text.StringSplit: an empty delimiter is excluded, because the program does not terminate on it.
- PhysicalValues.WideBranchFails: goes up to 100000; beyond that `WideExponent` gives what is sent, and whether it comes near the value depends on the value modulo 65536.
- PhysicalValues.ExiPhysicalValue.FromFloat: reals stand for floats; the wide branch takes the logarithm of the magnitude, where the program computes it of a negative number.
- The EXI codec: a lossless carrier of the abstract message; message content that neither process looks at is not modelled.
- Sockets, TLS, threads, serial ports and the main loops beyond the order of receiving and operating; a TLS handshake is an input.
- SeccObject.SeccProcess.OnFrameReceive: drops a frame that reaches the charger in idle without a client, as the line intends, where the program dereferences a null pointer (LibIso15118/cIsoProcessSECC.cpp:103).
- SeccObject.SeccProcess.AcceptClient: leaves out the callback after a refused TLS handshake, which is a null pointer by then (line 744).
- The conversion of a float that does not fit an unsigned 16 bit number wraps in the model.
- Response timers and debug output, which influence nothing.
- Units of physical values, and parameters that are only stored for display.
- The replies of the EA source as text: fields with their numbers are inputs, so number parsing and identification strings are not modelled; neither is the automatic reopening of a closed client beyond its effect on the timer.
- `cDinSpecProcess`, `cVoltcraftSource`, the PLC stack, enumeration tables and the string forms of messages.
- `hasEqualAddress` and `operator==` of addresses, `set` and `asInt64` of signed numbers: plain comparisons and repetitions of what is modelled.
