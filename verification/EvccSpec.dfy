// What one call into cIsoProcessEVCC does, as functions of its state (LibIso15118/cIsoProcessEVCC.cpp).

module EvccSpec {
  import opened V2g
  import opened ByteArrays
  import opened PhysicalValues
  import opened Timers

  datatype EvState =
    | EvIdle
    | AwaitSdp
    | AwaitAppProtocol
    | AwaitSessionSetup
    | AwaitServiceDiscovery
    | AwaitPaymentServiceSelection
    | AwaitAuthorization
    | AwaitChargeParameterDiscovery
    | AwaitPowerDelivery
    | AwaitChargingStatus
    | AwaitSessionStop
    | AwaitCableCheck
    | AwaitPreCharge
    | AwaitCurrentDemand
    | AwaitWeldingDetection
    | AwaitDisconnection
    | EvFailure
    | EvFinished

  const SDP_REPEAT: nat := 1000
  const POWER_REPEAT: nat := 1000
  const CABLE_CHECK_REPEAT: nat := 200
  const I_OFF: real := 0.1

  /** The session id a fresh stSeccInfo holds: 0x0102030405060708, most significant byte first. */
  const CLEARED_ID: SessionId := BigEndianBytes(0x0102030405060708, 8)
  const CLEARED_INFO: SeccInfo := SeccInfo(CLEARED_ID, [], false, ProcessingFinished)
  const ZERO_ID: SessionId := BigEndianBytes(0, 8)

  /** What the TCP client reports: closed, neither closed nor connected, connected. */
  datatype ClientStatus = Closed | Opening | Connected

  datatype ClientOp = Keep | Open | Close

  /** The environment of one operate call. client is the state of the TCP connection on entry, afterOpen
      its state right after an open issued by this call. The three sensor inputs are None when the
      hardware is the built-in simulation, which reports the value last stored. */
  datatype EvInput = EvInput(
    run: bool,
    enable: bool,
    now: nat,
    client: ClientStatus,
    afterOpen: ClientStatus,
    socketVoltage: Option<nat>,
    socketCurrent: Option<nat>,
    contactorFeedback: Option<bool>)

  /** What the vehicle has learned about the charger in this session (stSeccInfo). */
  datatype SeccInfo = SeccInfo(
    sessionId: SessionId,
    modes: seq<TransferMode>,
    authorized: bool,
    processing: Processing)

  /** The vehicle's own parameters (stEvccInfo). */
  datatype EvccInfo = EvccInfo(transferMode: TransferMode, memorizedVoltage: real, maxVoltage: real)

  /** The vehicle's contactor command and the values last stored in its two converters. */
  datatype EvHardware = EvHardware(contactor: bool, voltageValue: nat, currentValue: nat)

  /** pilot is the demanded control pilot state, None without a control pilot. */
  datatype Evcc = Evcc(
    state: EvState,
    entered: bool,
    connecting: bool,
    received: Message,
    repeatTimer: Timer,
    powerTimer: Timer,
    secc: SeccInfo,
    info: EvccInfo,
    actualCurrent: real,
    ev: EvHardware,
    pilot: Option<CpState>)

  datatype EvOutput = EvOutput(udp: seq<Message>, tcp: seq<Message>, op: ClientOp)

  /** The switch over the state, before the common tail of operate. */
  datatype EvStep = EvStep(s: Evcc, next: EvState, out: EvOutput)

  predicate InSession(state: EvState) {
    !(state == EvIdle || state == AwaitSdp || state == AwaitDisconnection || state == EvFailure || state == EvFinished)
  }

  /** The states in which the pilot may ask for energy and the contactor may stay closed. */
  predicate PowerState(state: EvState) {
    state == AwaitCableCheck || state == AwaitPreCharge || state == AwaitPowerDelivery || state == AwaitCurrentDemand
  }

  function ReadVoltage(s: Evcc, i: EvInput): nat {
    if i.socketVoltage.Some? then i.socketVoltage.value else s.ev.voltageValue
  }

  function ReadCurrent(s: Evcc, i: EvInput): nat {
    if i.socketCurrent.Some? then i.socketCurrent.value else s.ev.currentValue
  }

  function ReadContactor(s: Evcc, i: EvInput): bool {
    if i.contactorFeedback.Some? then i.contactorFeedback.value else s.ev.contactor
  }

  /** (uint16_t) of a float. */
  function Truncate16(x: real): nat {
    (if x < 0.0 then -((-x).Floor) else x.Floor) % 65536
  }

  function SetPilot(p: Option<CpState>, c: CpState): Option<CpState> {
    if p.Some? then Some(c) else None
  }

  function Clear(s: Evcc): Evcc {
    s.(state := EvIdle, received := Empty, entered := false, repeatTimer := s.repeatTimer.Stop(),
    secc := CLEARED_INFO, connecting := false)
  }

  predicate ResponseIsValid(s: Evcc, code: ResponseCode, id: SessionId) {
    code.OK? && id == s.secc.sessionId
  }

  /** A freshly constructed process; 400 V is the preset of stEvccInfo. */
  function Initial(mode: TransferMode, pilot: Option<CpState>, now: nat): Evcc {
    Evcc(EvIdle, false, false, Empty, Timers.Initial(SDP_REPEAT, now), Timers.Initial(POWER_REPEAT, now),
         CLEARED_INFO, EvccInfo(mode, 0.0, 400.0), 0.0, EvHardware(false, 0, 0), pilot)
  }

  /** onFrameReceive and evaluate: one frame from either port, already decoded. */
  function OnFrame(s: Evcc, m: Message): Evcc {
    if s.state == EvIdle || s.state == EvFinished then s
    else if IsRequest(m) then s.(received := Empty)
    else Evaluate(s.(received := m))
  }

  function Evaluate(s: Evcc): Evcc {
    match s.received
    case SessionSetupRes(id, code) =>
      if code.OK_NewSessionEstablished? then s.(secc := s.secc.(sessionId := id)) else s
    case ServiceDiscoveryRes(_, code, modes) =>
      if code.OK? then s.(secc := s.secc.(modes := modes)) else s
    case AuthorizationRes(_, code, processing) =>
      if code.OK? then s.(secc := s.secc.(authorized := processing == ProcessingFinished)) else s
    case CableCheckRes(_, code, processing) =>
      if code.OK? then s.(secc := s.secc.(processing := processing)) else s
    case PreChargeRes(_, code, voltage) =>
      if code.OK? then s.(info := s.info.(memorizedVoltage := ToReal(voltage))) else s
    case CurrentDemandRes(_, code, current) =>
      if code.OK? then s.(actualCurrent := ToReal(current)) else s
    case _ => s
  }

  /** The message type a session state asks for. */
  function Asks(state: EvState): Kind
    requires InSession(state)
  {
    match state
    case AwaitAppProtocol => KAppProtocol
    case AwaitSessionSetup => KSessionSetup
    case AwaitServiceDiscovery => KServiceDiscovery
    case AwaitPaymentServiceSelection => KPaymentServiceSelection
    case AwaitAuthorization => KAuthorization
    case AwaitChargeParameterDiscovery => KChargeParameterDiscovery
    case AwaitPowerDelivery => KPowerDelivery
    case AwaitChargingStatus => KChargingStatus
    case AwaitSessionStop => KSessionStop
    case AwaitCableCheck => KCableCheck
    case AwaitPreCharge => KPreCharge
    case AwaitCurrentDemand => KCurrentDemand
    case AwaitWeldingDetection => KWeldingDetection
  }

  /** The timer whose end makes a session state ask again, if it has one. */
  function RepeatTimer(s: Evcc): Option<Timer> {
    match s.state
    case AwaitAuthorization => Some(s.repeatTimer)
    case AwaitChargingStatus => Some(s.repeatTimer)
    case AwaitCableCheck => Some(s.repeatTimer)
    case AwaitPreCharge => Some(s.repeatTimer)
    case AwaitCurrentDemand => Some(s.powerTimer)
    case _ => None
  }

  predicate SendDue(s: Evcc, i: EvInput) {
    s.entered || (RepeatTimer(s).Some? && RepeatTimer(s).value.Elapsed(i.now) > 0)
  }

  function StopRepeat(s: Evcc): Evcc {
    match s.state
    case AwaitAuthorization => s.(repeatTimer := s.repeatTimer.Stop())
    case AwaitChargingStatus => s.(repeatTimer := s.repeatTimer.Stop())
    case AwaitCableCheck => s.(repeatTimer := s.repeatTimer.Stop())
    case AwaitPreCharge => s.(repeatTimer := s.repeatTimer.Stop())
    case AwaitCurrentDemand => s.(powerTimer := s.powerTimer.Stop())
    case _ => s
  }

  /** Pilot and contactor commands that go with entering a state or with asking again. */
  function Actuate(s: Evcc, i: EvInput): Evcc {
    match s.state
    case AwaitCableCheck => if SendDue(s, i) then s.(pilot := SetPilot(s.pilot, C_Ready)) else s
    case AwaitPreCharge => if s.entered then s.(pilot := SetPilot(s.pilot, C_Ready)) else s
    case AwaitCurrentDemand => if s.entered then s.(ev := s.ev.(contactor := true)) else s
    case _ => s
  }

  function Request(s: Evcc, i: EvInput): Message
    requires InSession(s.state)
  {
    match s.state
    case AwaitAppProtocol => AppProtocolReq([Dialect(ISO_2013, OWN_SCHEMA)])
    case AwaitSessionSetup => SessionSetupReq(ZERO_ID)
    case AwaitServiceDiscovery => ServiceDiscoveryReq(s.secc.sessionId)
    case AwaitPaymentServiceSelection => PaymentServiceSelectionReq(s.secc.sessionId)
    case AwaitAuthorization => AuthorizationReq(s.secc.sessionId)
    case AwaitChargeParameterDiscovery => ChargeParameterDiscoveryReq(s.secc.sessionId, s.info.transferMode)
    case AwaitPowerDelivery => PowerDeliveryReq(s.secc.sessionId, s.info.transferMode, if i.enable then Start else Stop)
    case AwaitChargingStatus => ChargingStatusReq(s.secc.sessionId)
    case AwaitSessionStop => SessionStopReq(s.secc.sessionId)
    case AwaitCableCheck => CableCheckReq(s.secc.sessionId)
    case AwaitPreCharge => PreChargeReq(s.secc.sessionId, FromReal(s.info.memorizedVoltage, 0))
    case AwaitCurrentDemand =>
      CurrentDemandReq(s.secc.sessionId, FromReal(DemandedCurrent(s, i), 0), FromReal(s.info.maxVoltage, 0))
    case AwaitWeldingDetection => WeldingDetectionReq(s.secc.sessionId)
  }

  function DemandedCurrent(s: Evcc, i: EvInput): real {
    if i.enable && ReadContactor(s, i) then 10.0 else 0.0
  }

  /** The transfer mode after going through the offered modes in order, and whether one matched. */
  function Negotiate(wanted: TransferMode, offered: seq<TransferMode>): (r: (TransferMode, bool))
  {
    NegotiateFrom(wanted, offered, false)
  }

  function NegotiateFrom(wanted: TransferMode, offered: seq<TransferMode>, found: bool): (TransferMode, bool)
    decreases |offered|
  {
    if offered == [] then (wanted, found)
    else if wanted == DC_core then
      if offered[0] == DC_core || offered[0] == DC_extended then NegotiateFrom(offered[0], offered[1..], true)
      else NegotiateFrom(wanted, offered[1..], found)
    else NegotiateFrom(wanted, offered[1..], found || wanted == offered[0])
  }

  /** True when the unread message is the response the state waits for. */
  predicate HasAnswer(s: Evcc)
    requires InSession(s.state)
  {
    match s.state
    case AwaitAppProtocol => s.received.AppProtocolRes?
    case AwaitSessionSetup => s.received.SessionSetupRes?
    case AwaitServiceDiscovery => s.received.ServiceDiscoveryRes?
    case AwaitPaymentServiceSelection => s.received.PaymentServiceSelectionRes?
    case AwaitAuthorization => s.received.AuthorizationRes?
    case AwaitChargeParameterDiscovery => s.received.ChargeParameterDiscoveryRes?
    case AwaitPowerDelivery => s.received.PowerDeliveryRes?
    case AwaitChargingStatus => s.received.ChargingStatusRes?
    case AwaitSessionStop => s.received.SessionStopRes?
    case AwaitCableCheck => s.received.CableCheckRes?
    case AwaitPreCharge => s.received.PreChargeRes?
    case AwaitCurrentDemand => s.received.CurrentDemandRes?
    case AwaitWeldingDetection => s.received.WeldingDetectionRes?
  }

  datatype Verdict = Verdict(s: Evcc, next: EvState)

  function Judge(s: Evcc, valid: bool, onSuccess: EvState): Verdict {
    Verdict(s, if valid then onSuccess else EvFailure)
  }

  /** No current worth keeping the contactor closed for. */
  predicate Idle(reading: nat) {
    reading as real < I_OFF
  }

  predicate MeetsVoltage(s: Evcc, i: EvInput) {
    Abs(s.info.memorizedVoltage - ReadVoltage(s, i) as real) < 5.0
  }

  predicate MayStop(s: Evcc, i: EvInput) {
    !i.enable && Idle(ReadCurrent(s, i))
  }

  /** The decision a state takes on its response. */
  function Decide(s: Evcc, i: EvInput): Verdict
    requires InSession(s.state) && HasAnswer(s)
  {
    match s.state
    case AwaitAppProtocol =>
      Judge(s, s.received.success && s.received.schemaId == OWN_SCHEMA, AwaitSessionSetup)
    case AwaitSessionSetup =>
      Judge(s, s.received.code.OK_NewSessionEstablished?, AwaitServiceDiscovery)
    case AwaitServiceDiscovery =>
      if ResponseIsValid(s, s.received.code, s.received.id) then
        var (mode, found) := Negotiate(s.info.transferMode, s.secc.modes);
        Judge(s.(info := s.info.(transferMode := mode)), found, AwaitPaymentServiceSelection)
      else Verdict(s, EvFailure)
    case AwaitPaymentServiceSelection =>
      Judge(s, ResponseIsValid(s, s.received.code, s.received.id), AwaitAuthorization)
    case AwaitAuthorization =>
      var t := StopRepeat(s);
      if !ResponseIsValid(s, s.received.code, s.received.id) then Verdict(t, EvFailure)
      else if s.secc.authorized then Verdict(t, AwaitChargeParameterDiscovery)
      else Verdict(t.(repeatTimer := t.repeatTimer.Start(i.now, 0)), s.state)
    case AwaitChargeParameterDiscovery =>
      Judge(s, ResponseIsValid(s, s.received.code, s.received.id),
            if s.info.transferMode == AC_three_phase_core then AwaitPowerDelivery else AwaitCableCheck)
    case AwaitPowerDelivery =>
      Judge(s, ResponseIsValid(s, s.received.code, s.received.id),
            if i.enable
            then (if s.info.transferMode == AC_three_phase_core then AwaitChargingStatus else AwaitCurrentDemand)
            else (if s.info.transferMode == AC_three_phase_core then AwaitSessionStop else AwaitWeldingDetection))
    case AwaitChargingStatus =>
      var t := StopRepeat(s);
      if !ResponseIsValid(s, s.received.code, s.received.id) then Verdict(t, EvFailure)
      else if !i.enable then Verdict(t, AwaitPowerDelivery)
      else Verdict(t.(repeatTimer := t.repeatTimer.Start(i.now, 0)), s.state)
    case AwaitSessionStop =>
      Judge(s, ResponseIsValid(s, s.received.code, s.received.id), AwaitDisconnection)
    case AwaitCableCheck =>
      var t := StopRepeat(s);
      if !ResponseIsValid(s, s.received.code, s.received.id) then Verdict(t, EvFailure)
      else if s.secc.processing == ProcessingFinished then Verdict(t, AwaitPreCharge)
      else Verdict(t.(repeatTimer := t.repeatTimer.Start(i.now, CABLE_CHECK_REPEAT)), s.state)
    case AwaitPreCharge =>
      var t := StopRepeat(s);
      if !ResponseIsValid(s, s.received.code, s.received.id) then Verdict(t, EvFailure)
      else
        var u := t.(ev := t.ev.(voltageValue := Truncate16(t.info.memorizedVoltage)));
        if MeetsVoltage(u, i) then Verdict(u, AwaitPowerDelivery)
        else Verdict(u.(repeatTimer := u.repeatTimer.Start(i.now, 0)), s.state)
    case AwaitCurrentDemand =>
      var t := StopRepeat(s);
      if !ResponseIsValid(s, s.received.code, s.received.id) then Verdict(t, EvFailure)
      else
        var u := t.(ev := t.ev.(currentValue := Truncate16(t.actualCurrent)));
        if MayStop(u, i) then Verdict(u, AwaitPowerDelivery)
        else Verdict(u.(powerTimer := u.powerTimer.Start(i.now, 0)), s.state)
    case AwaitWeldingDetection =>
      Judge(s, ResponseIsValid(s, s.received.code, s.received.id), AwaitSessionStop)
  }

  /** The asking half of a session state. */
  function Asked(s: Evcc, i: EvInput): Evcc {
    if SendDue(s, i) then StopRepeat(Actuate(s, i)) else Actuate(s, i)
  }

  function AskedOutput(s: Evcc, i: EvInput): EvOutput
    requires InSession(s.state)
  {
    EvOutput([], if SendDue(s, i) then [Request(Actuate(s, i), i)] else [], Keep)
  }

  /** Every session state: ask if due, then look at the response. */
  function SessionStep(s: Evcc, i: EvInput): EvStep
    requires InSession(s.state)
  {
    var t := Asked(s, i);
    if HasAnswer(t) then
      var v := Decide(t, i);
      EvStep(v.s.(received := Empty), v.next, AskedOutput(s, i))
    else EvStep(t, s.state, AskedOutput(s, i))
  }

  function SdpStep(s: Evcc, i: EvInput): EvStep {
    var due := s.entered || s.repeatTimer.Elapsed(i.now) > 0;
    var t := s.(connecting := s.connecting && !s.entered,
    repeatTimer := if due then s.repeatTimer.Start(i.now, 0) else s.repeatTimer);
    var udp := if due then [SdpReq(SECURITY_TCP)] else [];
    var accept := s.received.SdpRes? && !t.connecting && s.received.resSecurity == SECURITY_TCP && s.received.transport == TRANSPORT_TCP;
    var u := if accept then t.(connecting := true, repeatTimer := t.repeatTimer.Stop()) else t;
    var v := if s.received.SdpRes? || s.received.V2s? then u.(received := Empty) else u;
    var status := if accept then i.afterOpen else i.client;
    var next := if !v.connecting then AwaitSdp
                else if status == Closed then EvFailure
                else if status == Connected then AwaitAppProtocol
                else AwaitSdp;
    EvStep(v, next, EvOutput(udp, [], if accept then Open else Keep))
  }

  function Dispatch(s: Evcc, i: EvInput): EvStep {
    match s.state
    case EvIdle =>
      if i.run then EvStep(Clear(s), AwaitSdp, EvOutput([], [], Close)) else EvStep(s, EvIdle, EvOutput([], [], Keep))
    case AwaitSdp => SdpStep(s, i)
    case AwaitDisconnection =>
      if i.client != Connected then EvStep(s, EvFinished, EvOutput([], [], Keep))
      else EvStep(s, AwaitDisconnection, EvOutput([], [], Close))
    case EvFailure =>
      EvStep(s, if i.run then EvFailure else EvIdle, EvOutput([], [], if s.entered then Close else Keep))
    case EvFinished =>
      EvStep(s, if i.run then EvFinished else EvIdle, EvOutput([], [], Keep))
    case _ => SessionStep(s, i)
  }

  function SafePilot(p: Option<CpState>): Option<CpState> {
    if p.Some? && PilotReady(p.value) then Some(B_Connected) else p
  }

  function SafeContactor(h: EvHardware, reading: nat): EvHardware {
    if h.contactor && Idle(reading) then h.(contactor := false) else h
  }

  /** Outside the power states the pilot falls back to B and the contactor opens once no current flows. */
  function SafeOutputs(s: Evcc, state: EvState, i: EvInput): Evcc {
    if PowerState(state) then s
    else s.(pilot := SafePilot(s.pilot), ev := SafeContactor(s.ev, ReadCurrent(s, i)))
  }

  /** The end of operate: from is the state the call started in, chosen the one the switch chose. */
  function Enter(s: Evcc, from: EvState, chosen: EvState, i: EvInput): Evcc {
    var to := if i.client != Connected && InSession(from) then EvFailure else chosen;
    s.(state := to, entered := to != from)
  }

  /** operate: the state and output after one call. */
  function Operate(s: Evcc, i: EvInput): (Evcc, EvOutput) {
    var d := Dispatch(s, i);
    (Enter(SafeOutputs(d.s.(received := Empty), s.state, i), s.state, d.next, i), d.out)
  }
}
