// What the charger's answers say, what it hears in a request, and what it does to its outputs.

module SeccContents {
  import opened V2g
  import opened PhysicalValues
  import opened ByteArrays
  import opened SeccSpec
  import opened SeccRuns

  // ---- The main contactor ----

  /** An AC charging mode is in force and there is a pilot to follow. */
  predicate Controls(mode: TransferMode, i: SeInput) {
    i.pilot.Some? && (mode == AC_three_phase_core || mode == AC_single_phase_core)
  }

  predicate Asks(i: SeInput) {
    i.pilot == Some(C_Ready) || i.pilot == Some(D_ReadyVentilation)
  }

  lemma AnswerKeepsContactor(s: Secc, i: SeInput)
    requires IsAnswering(s.state)
    ensures Answer(s, i).s.mainContactor == s.mainContactor && Answer(s, i).s.vehicle == s.vehicle
  {
    hide Response;
    hide Command;
    hide NextId;
  }

  lemma PassKeepsContactor(s: Secc, i: SeInput)
    ensures OnePass(s, i).s.mainContactor == s.mainContactor && OnePass(s, i).s.vehicle == s.vehicle
  {
    if IsAnswering(s.state) {
      AnswerKeepsContactor(s, i);
    } else {
      PassOutsideDialogue(s, i);
      hide OnePass;
    }
    hide Answer;
    hide Route;
    hide KindOf;
  }

  /** In an AC mode the main contactor follows the pilot: closed in C and D, open otherwise. In every other
      call it stays as it is. */
  lemma MainContactorRule(s: Secc, i: SeInput)
    ensures var t := Operate(s, i).s;
            && t.vehicle == s.vehicle
            && t.mainContactor == if Controls(s.vehicle.transferMode, i) then Asks(i) else s.mainContactor
  {
    hide OnePass;
    var u := SwitchOff(s);
    PassKeepsContactor(u, i);
    var first := OnePass(u, i);
    PassKeepsContactor(first.s.(received := Empty), i);
  }

  /** A call with a pilot in an AC mode. */
  predicate Controlled(s: Secc, e: Event) {
    e.Cycle? && Controls(s.vehicle.transferMode, e.i)
  }

  predicate Consents(e: Event) {
    e.Cycle? && Asks(e.i)
  }

  lemma HearingKeepsContactor(s: Secc)
    ensures Evaluate(s).mainContactor == s.mainContactor
  {
    hide ToReal;
    hide ChosenSchema;
  }

  lemma FrameKeepsContactor(s: Secc, m: Message)
    ensures OnFrame(s, m).mainContactor == s.mainContactor
  {
    HearingKeepsContactor(s.(received := m));
    hide Evaluate;
  }

  lemma ContactorStep(s: Secc, e: Event)
    ensures Step(s, e).mainContactor == if Controlled(s, e) then Consents(e) else s.mainContactor
  {
    hide Operate;
    match e
    case Cycle(i) => MainContactorRule(s, i);
    case Frame(m) => FrameKeepsContactor(s, m);
    case Disconnect =>
  }

  /** Whenever the main contactor is closed after a run, a call in an AC mode closed it with the pilot in C or
      D, and every such call since then has found the pilot there. */
  lemma {:induction false} MainContactorClosed(s: Secc, es: seq<Event>) returns (k: nat)
    requires !s.mainContactor && Run(s, es).mainContactor
    ensures k < |es| && Controlled(Run(s, es[..k]), es[k])
    ensures forall j :: k <= j < |es| && Controlled(Run(s, es[..j]), es[j]) ==> Consents(es[j])
  {
    hide Step;
    hide Controlled;
    hide Consents;
    assert es != [];
    var n := |es| - 1;
    ContactorStep(Run(s, es[..n]), es[n]);
    if Controlled(Run(s, es[..n]), es[n]) {
      k := n;
    } else {
      k := MainContactorClosed(s, es[..n]);
      assert es[..n][..k] == es[..k];
      forall j | k <= j < |es| && Controlled(Run(s, es[..j]), es[j])
        ensures Consents(es[j])
      {
        if j < n {
          assert es[..n][..j] == es[..j];
        }
      }
    }
  }

  // ---- Which requests are answered ----

  /** Idle and finished drop every frame; otherwise a request or an echo stays in the slot and a response leaves
      it empty. */
  lemma FrameInSlot(s: Secc, m: Message)
    ensures OnFrame(s, m).received ==
            if s.state == SeIdle || s.state == SeFinished then s.received else if IsRequest(m) || m.V2s? then m else Empty
  {
    HearingKeepsSlot(s.(received := m));
    hide Evaluate;
  }

  lemma HearingKeepsSlot(s: Secc)
    ensures Evaluate(s).received == s.received
  {
    hide ToReal;
    hide ChosenSchema;
  }

  /** The requests that each state of the dialogue expects. */
  predicate Expects(state: SeState, k: Kind) {
    match state
    case SeAwaitSdp => k == KSdp
    case AnsweredSdp => k == KAppProtocol
    case AnsweredAppProtocol => k == KSessionSetup
    case AnsweredSessionSetup => k == KServiceDiscovery
    case AnsweredServiceDiscovery => k == KServiceDetail || k == KPaymentServiceSelection
    case AnsweredServiceDetail => k == KPaymentServiceSelection
    case AnsweredPaymentServiceSelection => k == KAuthorization
    case AnsweredAuthorization => k == KAuthorization || k == KChargeParameterDiscovery
    case AnsweredChargeParameterDiscovery => k == KPowerDelivery || k == KCableCheck
    case AnsweredPowerDelivery => k == KChargeParameterDiscovery || k == KChargingStatus || k == KSessionStop || k == KCurrentDemand || k == KWeldingDetection
    case AnsweredChargingStatus => k == KChargingStatus || k == KPowerDelivery
    case AnsweredCableCheck => k == KCableCheck || k == KPreCharge
    case AnsweredPreCharge => k == KPreCharge || k == KPowerDelivery
    case AnsweredCurrentDemand => k == KCurrentDemand || k == KPowerDelivery
    case AnsweredWeldingDetection => k == KWeldingDetection || k == KSessionStop
    case _ => false
  }

  lemma RouteExpected(state: SeState, k: Kind)
    ensures Route(state, k).Some? <==> Expects(state, k)
    ensures Route(state, k).Some? ==> IsAnswering(Route(state, k).value) && Answers(Route(state, k).value) == k
  {
  }

  /** A connected charger answers exactly the requests its state expects, and ends in the state that stands
      for the answer; any other request leaves it where it is. */
  lemma Dialogue(s: Secc, i: SeInput)
    requires Settled(s) && IsAnswering(s.state) && s.hasClient && IsRequest(s.received)
    ensures var p := Operate(s, i);
            if Expects(s.state, KindOf(s.received)) then
              && |p.sent| >= 1
              && (if p.s.state == SeFailure then KindOf(s.received) == KAppProtocol && s.vehicle.schemaId == 0xFFFF_FFFF
                  else IsAnswering(p.s.state) && Answers(p.s.state) == KindOf(s.received))
            else p.sent == [] && p.s.state == s.state
  {
    hide Operate;
    hide KindOf;
    hide IsRequest;
    hide Expects;
    hide IsAnswering;
    var k := KindOf(s.received);
    RouteExpected(s.state, k);
    hide Route;
    if Expects(s.state, k) {
      var t := Route(s.state, k).value;
      RunToCompletion(s, i, t);
      hide Transmit;
      Answered(s, i, t);
      RefusedFor(s, t);
    } else {
      NothingToAnswer(s, i);
      Stays(s, i);
      AnsweringIsNot(s.state);
    }
  }

  lemma AnsweringIsNot(state: SeState)
    ensures IsAnswering(state) ==> state != SeAwaitSdp && state != SeFailure
  {
  }

  lemma RefusedFor(s: Secc, t: SeState)
    requires IsAnswering(t)
    ensures Refuses(s, t) ==> s.vehicle.schemaId == 0xFFFF_FFFF && Answers(t) == KAppProtocol
    ensures t != SeFailure
  {
  }

  lemma Answered(s: Secc, i: SeInput, t: SeState)
    requires Settled(s) && IsRequest(s.received) && s.hasClient
    requires Route(s.state, KindOf(s.received)) == Some(t)
    ensures |Operate(s, i).sent| >= 1
  {
    hide Operate;
    hide Route;
    hide KindOf;
    hide IsRequest;
    hide Response;
    hide Command;
    hide NextId;
    OperateOnRequest(s, i, t);
    var e := EnteredWith(s, t);
    AnswerFacts(e, i);
    hide Answer;
    NotAFrame(e, Prepare(e).(source := Command(e, i)), i);
  }

  lemma NotAFrame(before: Secc, s: Secc, i: SeInput)
    requires IsAnswering(s.state)
    ensures !Response(before, s, i).V2s?
  {
    hide FromReal;
    hide ReadSource;
  }

  lemma Stays(s: Secc, i: SeInput)
    requires Settled(s) && IsAnswering(s.state) && s.hasClient && Route(s.state, KindOf(s.received)) == None
    ensures Operate(s, i).s.state == s.state
  {
    hide OnePass;
    hide Route;
    hide KindOf;
    PassWithoutEntry(SwitchOff(s), i);
  }

  // ---- What the answers say ----

  /** The answering pass of a call. */
  lemma Said(s: Secc, i: SeInput, t: SeState)
    requires Settled(s) && IsRequest(s.received) && Reachable(s, t)
    requires Route(s.state, KindOf(s.received)) == Some(t)
    ensures IsAnswering(t)
    ensures var p := Operate(s, i);
            var e := EnteredWith(s, t);
            var u := Prepare(e).(source := Command(e, i));
            && p.sent == Transmit(s.hasClient, Response(e, u, i))
            && p.s.source == u.source && p.s.info == u.info
  {
    hide Operate;
    hide Route;
    hide KindOf;
    hide IsRequest;
    hide Answer;
    hide Command;
    hide Response;
    hide Transmit;
    hide NextId;
    OperateOnRequest(s, i, t);
    AnswerFacts(EnteredWith(s, t), i);
  }

  /** The state that answers a request. */
  lemma Leads(s: Secc) returns (t: SeState)
    requires IsRequest(s.received) && Expects(s.state, KindOf(s.received))
    ensures Route(s.state, KindOf(s.received)) == Some(t) && IsAnswering(t) && Answers(t) == KindOf(s.received)
  {
    hide KindOf;
    hide IsRequest;
    RouteExpected(s.state, KindOf(s.received));
    hide Route;
    t := Route(s.state, KindOf(s.received)).value;
  }

  /** The answers without content of their own: a good code, the session id, and what the simulated charger
      always says. */
  lemma PlainAnswers(s: Secc, i: SeInput)
    requires Settled(s) && s.hasClient && IsRequest(s.received) && Expects(s.state, KindOf(s.received))
    ensures var sent, id := Operate(s, i).sent, s.info.sessionId;
            match s.received
            case ServiceDiscoveryReq(_) => sent == [Tcp(ServiceDiscoveryRes(id, OK, s.info.modes))]
            case ServiceDetailReq(_) => sent == [Tcp(ServiceDetailRes(id, OK))]
            case PaymentServiceSelectionReq(_) => sent == [Tcp(PaymentServiceSelectionRes(id, OK))]
            case AuthorizationReq(_) => sent == [Tcp(AuthorizationRes(id, OK, ProcessingFinished))]
            case ChargeParameterDiscoveryReq(_, _) => sent == [Tcp(ChargeParameterDiscoveryRes(id, OK))]
            case PowerDeliveryReq(_, _, _) => sent == [Tcp(PowerDeliveryRes(id, OK))]
            case ChargingStatusReq(_) => sent == [Tcp(ChargingStatusRes(id, OK))]
            case CableCheckReq(_) => sent == [Tcp(CableCheckRes(id, OK, ProcessingFinished))]
            case WeldingDetectionReq(_) => sent == [Tcp(WeldingDetectionRes(id, OK))]
            case SessionStopReq(_) => sent == [Tcp(SessionStopRes(id, OK))]
            case _ => true
  {
    hide Operate;
    hide Expects;
    var t := Leads(s);
    Said(s, i, t);
    hide Route;
    hide Command;
    hide NextId;
    hide FromReal;
    hide ReadSource;
    hide SwitchOff;
    SwitchOffKeeps(s);
  }

  lemma SwitchOffKeeps(s: Secc)
    ensures SwitchOff(s).info == s.info && SwitchOff(s).vehicle == s.vehicle && SwitchOff(s).demand == s.demand
    ensures SwitchOff(s).security == s.security && SwitchOff(s).hasClient == s.hasClient
    ensures SwitchOff(s).source ==
            if s.state == AnsweredPreCharge || s.state == AnsweredPowerDelivery || s.state == AnsweredCurrentDemand then s.source
            else PowerControl(false, 0.0, 0.0, true)
  {
  }

  /** A new session is announced under its new number. */
  lemma SetupAnswer(s: Secc, i: SeInput)
    requires Settled(s) && s.hasClient && s.state == AnsweredAppProtocol && s.received.SessionSetupReq?
    ensures Operate(s, i).sent == [Tcp(SessionSetupRes(Operate(s, i).s.info.sessionId, OK_NewSessionEstablished))]
  {
    hide Operate;
    Said(s, i, AnsweredSessionSetup);
    hide NextId;
  }

  lemma SearchHeard(s: Secc, security: nat)
    requires s.state == SeAwaitSdp
    ensures OnFrame(s, SdpReq(security)) ==
            s.(received := SdpReq(security), security := s.security.(useTls := security == 0x00 && s.security.provideTls))
  {
  }

  /** A search is answered with an offer of plain TCP, or of TLS if both sides want it. */
  lemma SearchAnswer(s: Secc, security: nat, i: SeInput)
    requires Settled(s) && s.state == SeAwaitSdp
    ensures var p := Operate(OnFrame(s, SdpReq(security)), i);
            var m := SdpRes(if security == 0x00 && s.security.provideTls then 0x00 else 0x10, 0x00);
            p.s.state == AnsweredSdp && p.sent == [Udp(m)] + if s.hasClient then [Tcp(m)] else []
  {
    SearchHeard(s, security);
    var n := OnFrame(s, SdpReq(security));
    hide Operate;
    hide OnFrame;
    RunToCompletion(n, i, AnsweredSdp);
    Said(n, i, AnsweredSdp);
    SwitchOffKeeps(n);
    hide SwitchOff;
    hide Command;
    hide Transmit;
    Offered(s.hasClient, SdpRes(if n.security.useTls then 0x00 else 0x10, 0x00));
  }

  lemma Offered(hasClient: bool, m: Message)
    requires m.SdpRes?
    ensures Transmit(hasClient, m) == [Udp(m)] + if hasClient then [Tcp(m)] else []
  {
  }

  predicate Speaks(d: Dialect) {
    d.protocolNamespace == "urn:iso:15118:2:2013:MsgDef"
  }

  /** The entry is the last one with the supported name space. */
  predicate IsLast(list: seq<Dialect>, k: nat) {
    k < |list| && Speaks(list[k]) && forall j :: k < j < |list| ==> !Speaks(list[j])
  }

  /** The schema id of that entry, or the number that stands for none. */
  ghost predicate Chosen(list: seq<Dialect>, id: nat) {
    || (exists k: nat :: IsLast(list, k) && list[k].schemaId == id)
    || ((forall k :: 0 <= k < |list| ==> !Speaks(list[k])) && id == 0xFFFF_FFFF)
  }

  lemma {:induction false} SchemaIsChosen(list: seq<Dialect>)
    ensures Chosen(list, ChosenSchema(list))
  {
    if list != [] {
      var n := |list| - 1;
      if Speaks(list[n]) {
        assert IsLast(list, n);
      } else {
        SchemaIsChosen(list[..n]);
        if k: nat :| IsLast(list[..n], k) && list[..n][k].schemaId == ChosenSchema(list[..n]) {
          assert forall j :: 0 <= j < n ==> list[..n][j] == list[j];
          assert IsLast(list, k);
        } else {
          assert forall j :: 0 <= j < n ==> list[..n][j] == list[j];
        }
      }
    }
  }

  lemma OneLast(list: seq<Dialect>, a: nat, b: nat)
    requires Chosen(list, a) && Chosen(list, b)
    ensures a == b
  {
    if k: nat :| IsLast(list, k) && list[k].schemaId == a {
      var m: nat :| IsLast(list, m) && list[m].schemaId == b;
      assert k == m;
    }
  }

  /** The charger settles on the last dialect it speaks, wherever in the offer it stands. */
  lemma SchemaHeard(s: Secc, list: seq<Dialect>, id: nat)
    requires s.state != SeIdle && s.state != SeFinished
    ensures OnFrame(s, AppProtocolReq(list)).vehicle.schemaId == id <==> Chosen(list, id)
  {
    SchemaIsChosen(list);
    if Chosen(list, id) {
      OneLast(list, ChosenSchema(list), id);
    }
    hide ChosenSchema;
    hide Chosen;
  }

  /** It says so, and goes on; without a dialect it refuses and fails. */
  lemma DialectAnswer(s: Secc, i: SeInput)
    requires Settled(s) && s.hasClient && s.state == AnsweredSdp && s.received.AppProtocolReq?
    ensures var p := Operate(s, i);
            if s.vehicle.schemaId == 0xFFFF_FFFF then p.sent == [Tcp(AppProtocolRes(false, 0))] && p.s.state == SeFailure
            else p.sent == [Tcp(AppProtocolRes(true, s.vehicle.schemaId))] && p.s.state == AnsweredAppProtocol
  {
    hide Operate;
    RunToCompletion(s, i, AnsweredAppProtocol);
    Said(s, i, AnsweredAppProtocol);
    SwitchOffKeeps(s);
    hide SwitchOff;
    hide Command;
  }

  // ---- What the source is told ----

  /** The pilot forbids nothing. */
  predicate Permits(i: SeInput) {
    i.pilot == None || i.pilot == Some(C_Ready) || i.pilot == Some(D_ReadyVentilation)
  }

  /** The mode in force is that of the last ChargeParameterDiscovery request. */
  lemma ModeHeard(s: Secc, m: Message)
    ensures OnFrame(s, m).vehicle.transferMode ==
            if m.ChargeParameterDiscoveryReq? && s.state != SeIdle && s.state != SeFinished then m.mode else s.vehicle.transferMode
  {
    hide ToReal;
    hide ChosenSchema;
  }

  /** All other frames leave nothing but themselves in the slot. */
  lemma PlainHeard(s: Secc, m: Message)
    requires !m.SdpReq? && !m.AppProtocolReq? && !m.ChargeParameterDiscoveryReq? && !m.PreChargeReq? && !m.CurrentDemandReq?
    ensures OnFrame(s, m) == s.(received := OnFrame(s, m).received)
  {
  }

  lemma PreChargeHeard(s: Secc, id: SessionId, voltage: PhysicalValue)
    requires s.state != SeIdle && s.state != SeFinished
    ensures OnFrame(s, PreChargeReq(id, voltage)) ==
            s.(received := PreChargeReq(id, voltage), vehicle := s.vehicle.(targetVoltage := ToReal(voltage)))
  {
    hide ToReal;
  }

  lemma PreChargeSaid(e: Secc, i: SeInput)
    requires e.state == AnsweredPreCharge
    ensures var u := e.(source := PowerControl(Permits(i), e.vehicle.targetVoltage, 0.0, false));
            && Prepare(e).(source := Command(e, i)) == u
            && Transmit(true, Response(e, u, i)) ==
               [Tcp(PreChargeRes(e.info.sessionId, OK, FromReal(if i.reading.Some? then i.reading.value.voltage else e.vehicle.targetVoltage, -1)))]
  {
    hide FromReal;
  }

  lemma DemandSaid(e: Secc, i: SeInput)
    requires e.state == AnsweredCurrentDemand
    ensures var u := e.(source := PowerControl(Permits(i), ToReal(e.demand.voltage), ToReal(e.demand.current), true));
            && Prepare(e).(source := Command(e, i)) == u
            && Transmit(true, Response(e, u, i)) ==
               [Tcp(CurrentDemandRes(e.info.sessionId, OK, FromReal(if i.reading.Some? then i.reading.value.current else e.source.current, 0)))]
  {
    hide FromReal;
    hide ToReal;
  }

  /** PreCharge: the source gets the target voltage without current, and what it shows is reported. */
  lemma PreChargeAnswer(s: Secc, id: SessionId, voltage: PhysicalValue, i: SeInput)
    requires Settled(s) && s.hasClient && (s.state == AnsweredCableCheck || s.state == AnsweredPreCharge)
    ensures var p := Operate(OnFrame(s, PreChargeReq(id, voltage)), i);
            && p.s.source == PowerControl(Permits(i), ToReal(voltage), 0.0, false)
            && |p.sent| == 1 && p.sent[0].Tcp? && p.sent[0].message.PreChargeRes?
            && p.sent[0].message.id == s.info.sessionId && p.sent[0].message.code == OK
            && ToReal(p.sent[0].message.voltage) == Carry(if i.reading.Some? then i.reading.value.voltage else ToReal(voltage), -1)
  {
    PreChargeHeard(s, id, voltage);
    var n := OnFrame(s, PreChargeReq(id, voltage));
    hide Operate;
    hide OnFrame;
    hide ToReal;
    hide FromReal;
    Said(n, i, AnsweredPreCharge);
    PreChargeSaid(EnteredWith(n, AnsweredPreCharge), i);
    SwitchOffKeeps(n);
    hide SwitchOff;
    hide Command;
    hide Prepare;
    hide Response;
    hide Transmit;
    hide Permits;
  }

  lemma DemandHeard(s: Secc, id: SessionId, current: PhysicalValue, voltage: PhysicalValue)
    requires s.state != SeIdle && s.state != SeFinished
    ensures var t := OnFrame(s, CurrentDemandReq(id, current, voltage));
            && t.demand == Demand(current, voltage) && t.demandedCurrent == ToReal(current) && t.source == s.source && t.info == s.info && t.hasClient == s.hasClient
            && t.state == s.state && t.entered == s.entered && t.received == CurrentDemandReq(id, current, voltage)
  {
    hide ToReal;
  }

  /** CurrentDemand: the present current is reported, then the source gets the demanded current and voltage. */
  lemma DemandAnswer(s: Secc, id: SessionId, current: PhysicalValue, voltage: PhysicalValue, i: SeInput)
    requires Settled(s) && s.hasClient && (s.state == AnsweredPowerDelivery || s.state == AnsweredCurrentDemand)
    ensures var p := Operate(OnFrame(s, CurrentDemandReq(id, current, voltage)), i);
            && p.s.source == PowerControl(Permits(i), ToReal(voltage), ToReal(current), true)
            && |p.sent| == 1 && p.sent[0].Tcp? && p.sent[0].message.CurrentDemandRes?
            && p.sent[0].message.id == s.info.sessionId && p.sent[0].message.code == OK
            && ToReal(p.sent[0].message.current) == Carry(if i.reading.Some? then i.reading.value.current else s.source.current, 0)
  {
    DemandHeard(s, id, current, voltage);
    var n := OnFrame(s, CurrentDemandReq(id, current, voltage));
    hide Operate;
    hide OnFrame;
    hide ToReal;
    hide FromReal;
    Said(n, i, AnsweredCurrentDemand);
    DemandSaid(EnteredWith(n, AnsweredCurrentDemand), i);
    SwitchOffKeeps(n);
    hide SwitchOff;
    hide Command;
    hide Prepare;
    hide Response;
    hide Transmit;
    hide Permits;
  }

  /** Every other call leaves the source alone in a power state and switches it off outside. */
  lemma OtherwiseOff(s: Secc, i: SeInput)
    requires Settled(s) && Admitted(s.received) && !s.received.PreChargeReq? && !s.received.CurrentDemandReq? && !s.received.WeldingDetectionReq?
    ensures Operate(s, i).s.source ==
            if s.state == AnsweredPreCharge || s.state == AnsweredPowerDelivery || s.state == AnsweredCurrentDemand then s.source
            else PowerControl(false, 0.0, 0.0, true)
  {
    hide Operate;
    SwitchOffKeeps(s);
    NotPower(s);
    hide SwitchOff;
    hide KindOf;
    var route := Route(s.state, KindOf(s.received));
    if route != None && Reachable(s, route.value) {
      OnlyRequestsAreRouted(s.state, s.received);
      Said(s, i, route.value);
      RouteLeadsToAnswer(s.state, KindOf(s.received), route.value);
      hide Route;
    } else {
      Unanswered(s, i);
    }
  }

  lemma NotPower(s: Secc)
    requires !s.received.PreChargeReq? && !s.received.CurrentDemandReq? && !s.received.WeldingDetectionReq? && Admitted(s.received)
    ensures KindOf(s.received) !in {KPreCharge, KCurrentDemand, KWeldingDetection}
  {
  }

  /** After WeldingDetection the source is off. */
  lemma WeldingAnswer(s: Secc, i: SeInput)
    requires Settled(s) && s.hasClient && s.received.WeldingDetectionReq?
    requires s.state == AnsweredPowerDelivery || s.state == AnsweredWeldingDetection
    ensures Operate(s, i).s.source == PowerControl(false, 0.0, 0.0, true)
  {
    hide Operate;
    Said(s, i, AnsweredWeldingDetection);
    hide SwitchOff;
  }

  // ---- Clients and the way out ----

  /** A charger that offers its connection takes the first client, over TLS only after a successful handshake. */
  lemma ClientTaken(s: Secc, i: SeInput)
    requires Settled(s) && s.state == AnsweredSdp && s.received == Empty && !s.hasClient
    ensures Operate(s, i).s.hasClient <==>
              if s.security.useTls then i.connection == TlsAccepted else i.connection != NoConnection
  {
    hide OnePass;
    hide Route;
    PassWithoutEntry(SwitchOff(s), i);
    NoRequest(s.state);
  }

  lemma NoRequest(state: SeState)
    ensures Route(state, KEmpty) == None
  {
  }

  /** In the dialogue a connected charger keeps its client, whoever else connects. */
  lemma ClientKept(s: Secc, i: SeInput)
    requires Settled(s) && IsAnswering(s.state) && s.hasClient
    ensures Operate(s, i).s.hasClient
  {
    hide OnePass;
    hide Route;
    hide KindOf;
    hide Answer;
    hide Expects;
    hide SwitchOff;
    SwitchOffKeeps(s);
    SwitchOffStays(s);
    var u := SwitchOff(s);
    PassWithoutEntry(u, i);
    RouteExpected(u.state, KindOf(u.received));
    var first := OnePass(u, i);
    if first.s.entered {
      var n := first.s.(received := Empty);
      PassWithEntry(n, i);
      AnswerKeepsClient(n, i);
    }
  }

  lemma SwitchOffStays(s: Secc)
    ensures SwitchOff(s).state == s.state && SwitchOff(s).entered == s.entered && SwitchOff(s).received == s.received
  {
  }

  lemma AnswerKeepsClient(s: Secc, i: SeInput)
    requires IsAnswering(s.state)
    ensures Answer(s, i).s.hasClient == s.hasClient
  {
    hide Response;
    hide Command;
    hide NextId;
  }

  /** Idle waits to be run, and drops the client of an earlier session; without a vehicle it looks for one. */
  lemma IdleCall(s: Secc, i: SeInput)
    requires Settled(s) && s.state == SeIdle && s.received == Empty
    ensures var p := Operate(s, i);
            && p.s.state == (if i.run then SeAwaitSdp else SeIdle) && p.sent == [] && !p.result
            && (i.run && i.connection == NoConnection ==> !p.s.hasClient)
  {
    hide OnePass;
    var u := SwitchOff(s);
    PassOutsideDialogue(u, i);
    var first := OnePass(u, i);
    PassOutsideDialogue(first.s.(received := Empty), i);
  }

  /** Finished and failed, the process says so, and returns to idle when it may not run. */
  lemma EndCall(s: Secc, i: SeInput)
    requires Settled(s) && (s.state == SeFinished || s.state == SeFailure)
    ensures var p := Operate(s, i);
            && p.s.state == (if i.run then s.state else SeIdle) && p.sent == [] && p.result
            && (s.entered && i.connection == NoConnection ==> !p.s.hasClient)
  {
    hide OnePass;
    var u := SwitchOff(s);
    PassOutsideDialogue(u, i);
    var first := OnePass(u, i);
    if first.s.entered {
      PassOutsideDialogue(first.s.(received := Empty), i);
    }
  }

  /** A session in which the vehicle disconnects has finished after the session stop, and failed before. */
  lemma ClientGone(s: Secc, i: SeInput)
    requires Settled(s) && IsAnswering(s.state) && s.state != AnsweredSdp && s.received == Empty && i.run
    ensures var p := Operate(OnDisconnect(s), i);
            && p.s.state == (if s.state == AnsweredSessionStop then SeFinished else SeFailure) && p.sent == [] && p.result
  {
    var n := OnDisconnect(s);
    hide OnePass;
    var u := SwitchOff(n);
    PassWithoutEntry(u, i);
    NoRequest(s.state);
    hide Route;
    var first := OnePass(u, i);
    PassOutsideDialogue(first.s.(received := Empty), i);
  }

  /** A fresh process is idle and to be entered, without a client, with its source and its contactor off. */
  lemma FreshCharger(modes: seq<TransferMode>, tls: bool)
    ensures var s := SeccSpec.Initial(modes, tls);
            && s.state == SeIdle && s.entered && !s.hasClient && s.received == Empty && !s.mainContactor
            && s.security == Security(tls, false) && s.info.modes == modes && s.vehicle.transferMode == AC_three_phase_core
            && s.vehicle.targetVoltage == 0.0 && s.vehicle.schemaId == 0 && s.source == PowerControl(false, 0.0, 0.0, false)
            && s.demandedCurrent == ToReal(s.demand.current) == ToReal(s.demand.voltage) == 0.0
  {
  }
}
