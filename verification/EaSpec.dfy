// What the EA power source driver does, as functions of its state (LibCpp/Lab/cEAsource.cpp).

module EaSpec {
  import opened Timers
  import opened V2g

  datatype EaState =
    | EaIdle
    | AwaitIdn
    | AwaitNominal
    | AwaitDemandValues
    | AwaitDemandState
    | AwaitProtection
    | AwaitSetRemote
    | AwaitSetComTimeout
    | AwaitSetProtection
    | AwaitMeasure
    | AwaitSetDemand
    | AwaitSetState
    | AwaitReconnect
    | EaFailure
    | EaFinished

  const COMTIMEOUT: nat := 4500
  const CYCLE: nat := 50
  const RESPONSETIME: nat := 10

  datatype Demand = Demand(enable: bool, voltage: real, currentSource: real, currentSink: real, powerSource: real, powerSink: real)
  datatype Actual = Actual(online: bool, enabled: bool, voltage: real, current: real, power: real)
  datatype Protection = Protection(voltage: real, currentSource: real, currentSink: real, powerSource: real, powerSink: real)
  datatype Nominal = Nominal(voltage: real, current: real, power: real)
  datatype Values = Values(demand: Demand, actual: Actual, protection: Protection, nominal: Nominal)

  type Factor = x: real | x > 0.0 witness 1.0

  /** The public settings of the driver. */
  datatype Config = Config(presetNominalPower: bool, presetDemand: bool, currentFactor: Factor, voltageFactor: Factor)

  datatype Requests = Requests(reset: bool, configure: bool)

  /** last is the state of the previous operate call. */
  datatype Ea = Ea(state: EaState, last: EaState, requests: Requests, timer: Timer, timeoutFlag: int, values: Values, config: Config)

  datatype Link = LinkClosed | LinkOpening | LinkConnected

  /** One operate call; link is None on a serial port. */
  datatype EaInput = EaInput(run: bool, now: nat, link: Option<Link>)

  /** One field of a reply and the number its text stands for. */
  datatype Field = Field(text: string, number: real)

  /** What the port hands over: nothing, an interruption, a Modbus frame or the fields of a text line. */
  datatype Reply = Nothing | Interrupted | Modbus | Line(fields: seq<Field>)

  datatype Command =
    | Idn
    | QueryNominal
    | QueryDemand
    | QueryOutput
    | QueryProtection
    | Lock
    | SetComTimeout
    | SetProtection(protection: Protection)
    | Measure
    | SetDemand(demand: Demand)
    | Output(on: bool)

  const NO_DEMAND: Demand := Demand(false, 0.0, 0.0, 0.0, 0.0, 0.0)
  const NO_VALUES: Values :=
    Values(NO_DEMAND, Actual(false, false, 0.0, 0.0, 0.0), Protection(0.0, 0.0, 0.0, 0.0, 0.0), Nominal(0.0, 0.0, 0.0))

  function Initial(config: Config, now: nat): Ea {
    Ea(EaIdle, EaIdle, Requests(false, false), Timers.Initial(COMTIMEOUT, now), 0, NO_VALUES, config)
  }

  // ---- Replies ----

  predicate IsOn(f: Field) {
    f.text == "ON"
  }

  function MeasureReply(v: Values, fields: seq<Field>): Values {
    if |fields| != 4 then v
    else
      var on := IsOn(fields[3]);
      var trips := v.demand.enable && v.actual.enabled && !on;
      v.(actual := Actual(true, on, fields[0].number, fields[1].number, fields[2].number),
      demand := v.demand.(enable := v.demand.enable && !trips))
  }

  function DemandReply(v: Values, fields: seq<Field>, c: Config): Values {
    var u := if c.presetDemand || |fields| != 5 then v
             else v.(demand := Demand(v.demand.enable, fields[0].number, fields[1].number, fields[2].number, fields[3].number, fields[4].number));
    if c.presetNominalPower
    then u.(demand := u.demand.(powerSource := v.nominal.power, powerSink := v.nominal.power, enable := false))
    else u
  }

  function Take(state: EaState, v: Values, fields: seq<Field>, c: Config): Values {
    match state
    case AwaitNominal =>
      if |fields| == 3 then v.(nominal := Nominal(fields[0].number, fields[1].number, fields[2].number)) else v
    case AwaitDemandValues => DemandReply(v, fields, c)
    case AwaitProtection =>
      if |fields| == 5
      then v.(protection := Protection(fields[0].number, fields[1].number, fields[2].number, fields[3].number, fields[4].number))
      else v
    case AwaitMeasure => MeasureReply(v, fields)
    case _ => v
  }

  function OnReply(s: Ea, r: Reply): Ea {
    match r
    case Nothing => s
    case Modbus => s
    case Interrupted => s.(requests := s.requests.(reset := true))
    case Line(fields) => s.(timer := s.timer.Stop(), values := Take(s.state, s.values, fields, s.config))
  }

  // ---- The application ----

  datatype PowerDemand = PowerDemand(enable: bool, voltage: real, current: real, currentControl: bool)

  function Set(s: Ea, d: PowerDemand): Ea {
    var current := if !d.currentControl && d.voltage > 0.0 && d.current == 0.0 then 1.0 else d.current;
    s.(values := s.values.(demand := s.values.demand.(enable := d.enable, voltage := d.voltage / s.config.voltageFactor,
    currentSource := current / s.config.currentFactor)))
  }

  // ---- operate ----

  function Elapsed(s: Ea, i: EaInput): int {
    if s.timeoutFlag != 0 && s.timer.Get(i.now) > CYCLE * 2 then 1 else s.timer.Elapsed(i.now)
  }

  predicate Connected(i: EaInput) {
    i.link == None || i.link == Some(LinkConnected)
  }

  predicate MaySend(s: Ea, i: EaInput) {
    Elapsed(s, i) < 0 && s.timer.Get(i.now) >= CYCLE && Connected(i)
  }

  predicate Sends(state: EaState) {
    state != EaIdle && state != AwaitReconnect && state != EaFailure && state != EaFinished
  }

  function MeasuredCurrent(a: Actual, c: Config): real {
    a.current * c.currentFactor
  }

  /** The demand sent while the output is to be switched off but still carries current. */
  function DemandToSend(s: Ea): Demand {
    var d := s.values.demand;
    if MeasuredCurrent(s.values.actual, s.config) > 0.1 && !d.enable
    then d.(currentSource := 0.0, currentSink := 0.0, enable := true)
    else d
  }

  function CommandOf(s: Ea): Command
    requires Sends(s.state)
  {
    match s.state
    case AwaitIdn => Idn
    case AwaitNominal => QueryNominal
    case AwaitDemandValues => QueryDemand
    case AwaitDemandState => QueryOutput
    case AwaitProtection => QueryProtection
    case AwaitSetRemote => Lock
    case AwaitSetComTimeout => SetComTimeout
    case AwaitSetProtection => SetProtection(s.values.protection)
    case AwaitMeasure => Measure
    case AwaitSetDemand => SetDemand(DemandToSend(s))
    case AwaitSetState => Output(s.values.demand.enable)
  }

  function Successor(state: EaState): EaState
    requires Sends(state)
  {
    match state
    case AwaitIdn => AwaitNominal
    case AwaitNominal => AwaitDemandValues
    case AwaitDemandValues => AwaitDemandState
    case AwaitDemandState => AwaitProtection
    case AwaitProtection => AwaitSetRemote
    case AwaitSetRemote => AwaitSetComTimeout
    case AwaitSetComTimeout => AwaitMeasure
    case AwaitSetProtection => AwaitMeasure
    case AwaitMeasure => AwaitSetDemand
    case AwaitSetDemand => AwaitSetState
    case AwaitSetState => AwaitMeasure
  }

  predicate GivesUpQuickly(state: EaState) {
    || state == AwaitSetProtection || state == AwaitSetRemote || state == AwaitSetComTimeout
    || state == AwaitSetDemand || state == AwaitSetState
  }

  function SetOnline(s: Ea, online: bool): Ea {
    s.(values := s.values.(actual := s.values.actual.(online := online)))
  }

  /** The state, the state to go to and the command sent by one call. */
  datatype EaStep = EaStep(s: Ea, next: EaState, sent: seq<Command>)

  /** The timer has run out: the request counts as unanswered, or a connection attempt has failed. */
  function TimeOut(s: Ea, i: EaInput): EaStep {
    var t := s.(timer := s.timer.Stop());
    if s.state == AwaitReconnect then EaStep(t, EaFailure, [])
    else if s.timeoutFlag != 0 then EaStep(t.(timeoutFlag := 0, timer := t.timer.Start(i.now, 0)), AwaitReconnect, [])
    else EaStep(t, if s.state == EaIdle then EaFailure else s.state, [])
  }

  function SendOrMoveOn(s: Ea, i: EaInput): EaStep {
    var entered := s.state != s.last;
    if s.requests.reset then EaStep(s.(requests := s.requests.(reset := false)), EaIdle, [])
    else if s.requests.configure then EaStep(s.(requests := s.requests.(configure := false)), AwaitSetProtection, [])
    else if s.state == EaIdle then EaStep(if entered then SetOnline(s, false) else s, if i.run then AwaitIdn else EaIdle, [])
    else if !Sends(s.state) then EaStep(if entered then SetOnline(s, false) else s, s.state, [])
    else if entered then EaStep(s.(timer := s.timer.Start(i.now, 0)), s.state, [CommandOf(s)])
    else EaStep(if s.state == AwaitIdn then SetOnline(s, true) else s, Successor(s.state), [])
  }

  function Switch(s: Ea, i: EaInput): EaStep {
    if Elapsed(s, i) > 0 then TimeOut(s, i)
    else if MaySend(s, i) then SendOrMoveOn(s, i)
    else if Elapsed(s, i) == 0 && GivesUpQuickly(s.state) && s.timer.Get(i.now) > RESPONSETIME
    then EaStep(s.(timer := s.timer.Stop()), s.state, [])
    else EaStep(s, s.state, [])
  }

  function CheckClient(t: Timer, i: EaInput): Timer {
    if i.link == Some(LinkClosed) then t.Start(i.now, 0) else t
  }

  function Operate(s: Ea, i: EaInput): (Ea, seq<Command>) {
    var d := Switch(s, i);
    (d.s.(last := s.state, state := d.next, timer := CheckClient(d.s.timer, i)), d.sent)
  }
}
