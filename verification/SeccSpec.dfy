// What one call into cIsoProcessSECC does, as functions of its state (LibIso15118/cIsoProcessSECC.cpp).

module SeccSpec {
  import opened V2g
  import opened PhysicalValues
  import opened ByteArrays

  datatype SeState =
    | SeIdle
    | SeAwaitSdp
    | AnsweredSdp
    | AnsweredAppProtocol
    | AnsweredSessionSetup
    | AnsweredServiceDiscovery
    | AnsweredPaymentServiceSelection
    | AnsweredAuthorization
    | AnsweredChargeParameterDiscovery
    | AnsweredPowerDelivery
    | AnsweredChargingStatus
    | AnsweredSessionStop
    | AnsweredServiceDetail
    | AnsweredCableCheck
    | AnsweredPreCharge
    | AnsweredCurrentDemand
    | AnsweredWeldingDetection
    | SeFailure
    | SeFinished

  /** The schema id that stands for "no common dialect": -1 as an unsigned number. */
  const NO_SCHEMA: nat := 0xFFFF_FFFF

  /** stPowerControl: what the power source is told to do. */
  datatype PowerControl = PowerControl(enable: bool, voltage: real, current: real, currentControl: bool)

  const SOURCE_OFF: PowerControl := PowerControl(false, 0.0, 0.0, true)

  datatype Reading = Reading(voltage: real, current: real)

  datatype Security = Security(provideTls: bool, useTls: bool)

  /** The charger's own data that messages carry (stSeccInfo). */
  datatype Identity = Identity(sessionId: SessionId, modes: seq<TransferMode>)

  /** What the charger has learned about the vehicle (stEvccInfo). */
  datatype Vehicle = Vehicle(schemaId: nat, transferMode: TransferMode, targetVoltage: real)

  /** The target values of the last current demand request. They stay readable in the message buffer
      after the message has been cleared. */
  datatype Demand = Demand(current: PhysicalValue, voltage: PhysicalValue)

  datatype Secc = Secc(
    state: SeState,
    entered: bool,
    received: Message,
    hasClient: bool,
    security: Security,
    info: Identity,
    vehicle: Vehicle,
    demand: Demand,
    demandedCurrent: real,
    source: PowerControl,
    mainContactor: bool)

  datatype Connection = NoConnection | Plain | TlsAccepted | TlsRefused

  /** The environment of one operate call. pilot is None without a control pilot; reading is None when
      the power source is the built-in simulation, which reports its last command; connection is the
      new client the TCP server hands over at the end of the call, with the outcome of the handshake
      that follows when TLS was agreed. */
  datatype SeInput = SeInput(run: bool, pilot: Option<CpState>, reading: Option<Reading>, connection: Connection)

  datatype Sent = Udp(message: Message) | Tcp(message: Message)

  predicate MayRunUnconnected(state: SeState) {
    || state == SeIdle || state == SeAwaitSdp || state == AnsweredSdp || state == AnsweredSessionStop
    || state == SeFailure || state == SeFinished
  }

  /** The states at whose start the power source is left as it is. */
  predicate PowerState(state: SeState) {
    state == AnsweredPreCharge || state == AnsweredPowerDelivery || state == AnsweredCurrentDemand
  }

  predicate IsAnswering(state: SeState) {
    !(state == SeIdle || state == SeAwaitSdp || state == SeFailure || state == SeFinished)
  }

  /** A freshly constructed process with the application's list of transfer modes. */
  function Initial(modes: seq<TransferMode>, provideTls: bool): Secc {
    Secc(SeIdle, true, Empty, false, Security(provideTls, false), Identity(BigEndianBytes(0x0102030405060708, 8), modes),
         Vehicle(0, AC_three_phase_core, 0.0), Demand(PhysicalValue(0, 0), PhysicalValue(0, 0)), 0.0,
         PowerControl(false, 0.0, 0.0, false), false)
  }

  /** The schema id of the last offered dialect with the supported name space. */
  function ChosenSchema(list: seq<Dialect>): nat {
    if list == [] then NO_SCHEMA
    else if list[|list| - 1].protocolNamespace == ISO_2013 then list[|list| - 1].schemaId
    else ChosenSchema(list[..|list| - 1])
  }

  /** onFrameReceive and evaluate for a decoded frame. */
  function OnFrame(s: Secc, m: Message): Secc {
    if s.state == SeIdle || s.state == SeFinished then s
    else if !IsRequest(m) && !m.V2s? then s.(received := Empty)
    else Evaluate(s.(received := m))
  }

  function Evaluate(s: Secc): Secc {
    match s.received
    case SdpReq(security) =>
      s.(security := s.security.(useTls := security == SECURITY_TLS && s.security.provideTls))
    case AppProtocolReq(list) => s.(vehicle := s.vehicle.(schemaId := ChosenSchema(list)))
    case ChargeParameterDiscoveryReq(_, mode) => s.(vehicle := s.vehicle.(transferMode := mode))
    case PreChargeReq(_, voltage) => s.(vehicle := s.vehicle.(targetVoltage := ToReal(voltage)))
    case CurrentDemandReq(_, current, voltage) =>
      s.(demandedCurrent := ToReal(current), demand := Demand(current, voltage))
    case _ => s
  }

  /** onFrameReceive when the vehicle has closed the connection. */
  function OnDisconnect(s: Secc): Secc {
    s.(hasClient := false)
  }

  predicate PilotAllows(i: SeInput) {
    i.pilot.None? || PilotReady(i.pilot.value)
  }

  function ReadSource(s: Secc, i: SeInput): Reading {
    if i.reading.Some? then i.reading.value else Reading(s.source.voltage, s.source.current)
  }

  /** The actions and the message with which an answering state answers when it has been entered. */
  function Prepare(s: Secc): Secc
    requires IsAnswering(s.state)
  {
    if s.state == AnsweredSessionSetup then s.(info := s.info.(sessionId := NextId(s.info.sessionId))) else s
  }

  function Command(s: Secc, i: SeInput): PowerControl {
    match s.state
    case AnsweredPreCharge => PowerControl(PilotAllows(i), s.vehicle.targetVoltage, 0.0, false)
    case AnsweredCurrentDemand =>
      PowerControl(PilotAllows(i), ToReal(s.demand.voltage), ToReal(s.demand.current), true)
    case AnsweredWeldingDetection => SOURCE_OFF
    case _ => s.source
  }

  /** before is the state when the answer is started, s the one with its actions done. */
  function Response(before: Secc, s: Secc, i: SeInput): Message
    requires IsAnswering(s.state)
  {
    var id := s.info.sessionId;
    match s.state
    case AnsweredSdp => SdpRes(if s.security.useTls then SECURITY_TLS else SECURITY_TCP, TRANSPORT_TCP)
    case AnsweredAppProtocol =>
      if s.vehicle.schemaId != NO_SCHEMA then AppProtocolRes(true, s.vehicle.schemaId) else AppProtocolRes(false, 0)
    case AnsweredSessionSetup => SessionSetupRes(id, OK_NewSessionEstablished)
    case AnsweredServiceDiscovery => ServiceDiscoveryRes(id, OK, s.info.modes)
    case AnsweredServiceDetail => ServiceDetailRes(id, OK)
    case AnsweredPaymentServiceSelection => PaymentServiceSelectionRes(id, OK)
    case AnsweredAuthorization => AuthorizationRes(id, OK, ProcessingFinished)
    case AnsweredChargeParameterDiscovery => ChargeParameterDiscoveryRes(id, OK)
    case AnsweredPowerDelivery => PowerDeliveryRes(id, OK)
    case AnsweredChargingStatus => ChargingStatusRes(id, OK)
    case AnsweredSessionStop => SessionStopRes(id, OK)
    case AnsweredCableCheck => CableCheckRes(id, OK, ProcessingFinished)
    case AnsweredPreCharge => PreChargeRes(id, OK, FromReal(ReadSource(s, i).voltage, -1))
    case AnsweredCurrentDemand => CurrentDemandRes(id, OK, FromReal(ReadSource(before, i).current, 0))
    case AnsweredWeldingDetection => WeldingDetectionRes(id, OK)
  }

  /** send: SDP responses go out on UDP and, as the program has it, also to a connected client. */
  function Transmit(hasClient: bool, m: Message): seq<Sent> {
    if m.V2s? then [Udp(m)]
    else (if m.SdpRes? then [Udp(m)] else []) + (if hasClient then [Tcp(m)] else [])
  }

  datatype Answered = Answered(s: Secc, sent: seq<Sent>)

  function Answer(s: Secc, i: SeInput): Answered
    requires IsAnswering(s.state)
  {
    var t := Prepare(s).(source := Command(s, i));
    Answered(t.(received := Empty), Transmit(t.hasClient, Response(s, t, i)))
  }

  /** Where an unread request of each type leads; None if the state does not expect it. A state that
      leads to itself is re-entered. */
  function Route(state: SeState, k: Kind): Option<SeState> {
    match state
    case SeAwaitSdp => if k == KSdp then Some(AnsweredSdp) else None
    case AnsweredSdp => if k == KAppProtocol then Some(AnsweredAppProtocol) else None
    case AnsweredAppProtocol => if k == KSessionSetup then Some(AnsweredSessionSetup) else None
    case AnsweredSessionSetup => if k == KServiceDiscovery then Some(AnsweredServiceDiscovery) else None
    case AnsweredServiceDiscovery =>
      if k == KPaymentServiceSelection then Some(AnsweredPaymentServiceSelection)
      else if k == KServiceDetail then Some(AnsweredServiceDetail) else None
    case AnsweredServiceDetail => if k == KPaymentServiceSelection then Some(AnsweredPaymentServiceSelection) else None
    case AnsweredPaymentServiceSelection => if k == KAuthorization then Some(AnsweredAuthorization) else None
    case AnsweredAuthorization =>
      if k == KAuthorization then Some(AnsweredAuthorization)
      else if k == KChargeParameterDiscovery then Some(AnsweredChargeParameterDiscovery) else None
    case AnsweredChargeParameterDiscovery =>
      if k == KPowerDelivery then Some(AnsweredPowerDelivery)
      else if k == KCableCheck then Some(AnsweredCableCheck) else None
    case AnsweredPowerDelivery =>
      if k == KChargeParameterDiscovery then Some(AnsweredChargeParameterDiscovery)
      else if k == KChargingStatus then Some(AnsweredChargingStatus)
      else if k == KSessionStop then Some(AnsweredSessionStop)
      else if k == KCurrentDemand then Some(AnsweredCurrentDemand)
      else if k == KWeldingDetection then Some(AnsweredWeldingDetection) else None
    case AnsweredChargingStatus =>
      if k == KChargingStatus then Some(AnsweredChargingStatus)
      else if k == KPowerDelivery then Some(AnsweredPowerDelivery) else None
    case AnsweredCableCheck =>
      if k == KCableCheck then Some(AnsweredCableCheck)
      else if k == KPreCharge then Some(AnsweredPreCharge) else None
    case AnsweredPreCharge =>
      if k == KPreCharge then Some(AnsweredPreCharge)
      else if k == KPowerDelivery then Some(AnsweredPowerDelivery) else None
    case AnsweredCurrentDemand =>
      if k == KCurrentDemand then Some(AnsweredCurrentDemand)
      else if k == KPowerDelivery then Some(AnsweredPowerDelivery) else None
    case AnsweredWeldingDetection =>
      if k == KWeldingDetection then Some(AnsweredWeldingDetection)
      else if k == KSessionStop then Some(AnsweredSessionStop) else None
    case _ => None
  }

  /** One pass through the switch, before its common tail. */
  datatype SeStep = SeStep(s: Secc, next: SeState, reenter: bool, sent: seq<Sent>, result: bool)

  function AnsweringStep(s: Secc, i: SeInput): SeStep
    requires IsAnswering(s.state)
  {
    var a := if s.entered then Answer(s, i) else Answered(s, []);
    var route := Route(s.state, KindOf(a.s.received));
    var refused := s.state == AnsweredAppProtocol && s.entered && s.vehicle.schemaId == NO_SCHEMA;
    var next := if route.Some? then route.value
                else if refused then SeFailure
                else if s.state == AnsweredSessionStop && !s.hasClient then SeFinished
                else s.state;
    SeStep(a.s, next, route == Some(s.state), a.sent, false)
  }

  function Dispatch(s: Secc, i: SeInput): SeStep {
    match s.state
    case SeIdle =>
      if i.run then SeStep(s.(hasClient := false, entered := true), SeAwaitSdp, false, [], false)
      else SeStep(s, SeIdle, false, [], false)
    case SeAwaitSdp =>
      if s.received.SdpReq? then SeStep(s.(received := Empty), AnsweredSdp, false, [], false)
      else if s.received.V2s? then SeStep(s.(received := Empty), SeAwaitSdp, false, Transmit(s.hasClient, V2s), false)
      else SeStep(s, SeAwaitSdp, false, [], false)
    case SeFailure =>
      SeStep(if s.entered then s.(hasClient := false) else s, if i.run then SeFailure else SeIdle, false, [], true)
    case SeFinished => SeStep(s, if i.run then SeFinished else SeIdle, false, [], true)
    case _ => AnsweringStep(s, i)
  }

  /** True when a pass throws an unread message away. */
  predicate Discards(d: SeStep, from: SeState) {
    d.next == from && !d.reenter && d.s.received != Empty
  }

  datatype Pass = Pass(s: Secc, sent: seq<Sent>, result: bool)

  function OnePass(s: Secc, i: SeInput): Pass {
    var d := Dispatch(s, i);
    var next := if !d.s.hasClient && !MayRunUnconnected(s.state) then SeFailure else d.next;
    Pass(d.s.(received := if Discards(d, s.state) then Empty else d.s.received,
              state := next, entered := d.reenter || next != s.state), d.sent, d.result)
  }

  function SwitchOff(s: Secc): Secc {
    if PowerState(s.state) then s else s.(source := SOURCE_OFF)
  }

  /** The loop of operate: a second pass follows a pass that enters a state. */
  function Loop(s: Secc, i: SeInput): Pass {
    var first := OnePass(s, i);
    if first.s.entered then
      var second := OnePass(first.s.(received := Empty), i);
      Pass(second.s, first.sent + second.sent, first.result || second.result)
    else first
  }

  predicate AlternatingCurrent(mode: TransferMode) {
    mode == AC_three_phase_core || mode == AC_single_phase_core
  }

  function ControlContactor(s: Secc, i: SeInput): Secc {
    if i.pilot.Some? && AlternatingCurrent(s.vehicle.transferMode)
    then s.(mainContactor := PilotReady(i.pilot.value))
    else s
  }

  /** A new client is taken over if there is none and any TLS handshake succeeds. */
  function Accept(s: Secc, i: SeInput): Secc {
    if s.hasClient then s
    else s.(hasClient := if s.security.useTls then i.connection == TlsAccepted else i.connection != NoConnection)
  }

  /** operate, after the client's own frame has been received. */
  function Operate(s: Secc, i: SeInput): Pass {
    var p := Loop(SwitchOff(s), i);
    p.(s := Accept(ControlContactor(p.s, i), i))
  }
}
