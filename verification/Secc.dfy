// cIsoProcessSECC as the object its callers hold. Every method is proved to do what SeccSpec says.

module SeccObject {
  import opened V2g
  import opened PhysicalValues
  import opened ByteArrays
  import opened SeccSpec

  class SeccProcess {
    var state: SeState
    var entered: bool
    var received: Message
    var hasClient: bool
    var security: Security
    var seccInfo: Identity
    var evccInfo: Vehicle
    var demand: Demand
    var demandedCurrent: real
    var source: PowerControl
    var mainContactor: bool

    ghost function View(): Secc
      reads this
    {
      Secc(state, entered, received, hasClient, security, seccInfo, evccInfo, demand, demandedCurrent, source, mainContactor)
    }

    constructor (modes: seq<TransferMode>, provideTls: bool)
      ensures View() == Initial(modes, provideTls)
    {
      var blank := Initial(modes, provideTls);
      received, hasClient, security := Empty, false, blank.security;
      seccInfo, evccInfo, demand := blank.info, blank.vehicle, blank.demand;
      demandedCurrent, source, mainContactor := 0.0, blank.source, false;
      new;
      Restart();
    }

    method Restart()
      modifies this
      ensures View() == old(View()).(state := SeIdle, entered := true)
    {
      state := SeIdle;
      entered := true;
    }

    method Clear()
      modifies this
      ensures View() == old(View()).(state := SeIdle, entered := true, hasClient := false)
    {
      hasClient := false;
      Restart();
    }

    /** onFrameReceive for a frame that has been decoded to m. */
    method OnFrameReceive(m: Message)
      modifies this
      ensures View() == OnFrame(old(View()), m)
    {
      if state == SeIdle || state == SeFinished {
        return;
      }
      received := m;
      Evaluate();
    }

    method OnDisconnect()
      modifies this
      ensures View() == SeccSpec.OnDisconnect(old(View()))
    {
      hasClient := false;
    }

    method ChooseSchema(list: seq<Dialect>) returns (id: nat)
      ensures id == ChosenSchema(list)
    {
      id := NO_SCHEMA;
      for k := 0 to |list|
        invariant id == ChosenSchema(list[..k])
      {
        assert list[..k + 1][..k] == list[..k];
        if list[k].protocolNamespace == ISO_2013 {
          id := list[k].schemaId;
        }
      }
      assert list[..|list|] == list;
    }

    method Evaluate()
      modifies this
      ensures View() == if !IsRequest(old(received)) && !old(received).V2s? then old(View()).(received := Empty)
                        else SeccSpec.Evaluate(old(View()))
    {
      if !IsRequest(received) && !received.V2s? {
        received := Empty;
        return;
      }
      match received
      case SdpReq(requested) =>
        security := security.(useTls := requested == SECURITY_TLS && security.provideTls);
      case AppProtocolReq(list) =>
        var id := ChooseSchema(list);
        evccInfo := evccInfo.(schemaId := id);
      case ChargeParameterDiscoveryReq(_, mode) =>
        evccInfo := evccInfo.(transferMode := mode);
      case PreChargeReq(_, voltage) =>
        evccInfo := evccInfo.(targetVoltage := ToReal(voltage));
      case CurrentDemandReq(_, current, voltage) =>
        demandedCurrent := ToReal(current);
        demand := Demand(current, voltage);
      case _ =>
    }

    method Send(m: Message) returns (sent: seq<Sent>)
      modifies this`received
      ensures received == Empty && sent == Transmit(hasClient, m)
    {
      sent := [];
      if m.SdpRes? {
        sent := [Udp(m)];
      }
      if m.V2s? {
        sent := sent + [Udp(m)];
      } else if hasClient {
        sent := sent + [Tcp(m)];
      }
      received := Empty;
    }

    method PrepareCurrentDemandRes(i: SeInput) returns (m: Message)
      requires state == AnsweredCurrentDemand
      modifies this`source
      ensures View() == old(View()).(source := Command(old(View()), i))
      ensures m == Response(old(View()), View(), i)
    {
      var activate := true;
      if i.pilot.Some? {
        if !PilotReady(i.pilot.value) {
          activate := false;
        }
      }
      var present := if i.reading.Some? then i.reading.value.current else source.current;
      m := CurrentDemandRes(seccInfo.sessionId, OK, FromReal(present, 0));
      source := PowerControl(activate, ToReal(demand.voltage), ToReal(demand.current), true);
    }

    method PreparePreChargeRes(i: SeInput) returns (m: Message)
      requires state == AnsweredPreCharge
      modifies this`source
      ensures View() == old(View()).(source := Command(old(View()), i))
      ensures m == Response(old(View()), View(), i)
    {
      var activate := true;
      if i.pilot.Some? {
        if !PilotReady(i.pilot.value) {
          activate := false;
        }
      }
      source := PowerControl(activate, evccInfo.targetVoltage, 0.0, false);
      var present := if i.reading.Some? then i.reading.value.voltage else source.voltage;
      m := PreChargeRes(seccInfo.sessionId, OK, FromReal(present, -1));
    }

    method PrepareWeldingDetectionRes(i: SeInput) returns (m: Message)
      requires state == AnsweredWeldingDetection
      modifies this`source
      ensures View() == old(View()).(source := Command(old(View()), i))
      ensures m == Response(old(View()), View(), i)
    {
      m := WeldingDetectionRes(seccInfo.sessionId, OK);
      source := SOURCE_OFF;
    }

    method PrepareSessionSetupRes(i: SeInput) returns (m: Message)
      requires state == AnsweredSessionSetup
      modifies this`seccInfo
      ensures View() == Prepare(old(View())) && m == Response(old(View()), View(), i)
    {
      seccInfo := seccInfo.(sessionId := NextId(seccInfo.sessionId));
      m := SessionSetupRes(seccInfo.sessionId, OK_NewSessionEstablished);
    }

    /** The part of an answering state that runs when it has been entered. */
    method AnswerEntered(i: SeInput) returns (sent: seq<Sent>)
      requires IsAnswering(state)
      modifies this
      ensures Answered(View(), sent) == Answer(old(View()), i)
    {
      var m := Empty;
      match state {
        case AnsweredSessionSetup => m := PrepareSessionSetupRes(i);
        case AnsweredPreCharge => m := PreparePreChargeRes(i);
        case AnsweredCurrentDemand => m := PrepareCurrentDemandRes(i);
        case AnsweredWeldingDetection => m := PrepareWeldingDetectionRes(i);
        case AnsweredSdp =>
          m := SdpRes(if security.useTls then SECURITY_TLS else SECURITY_TCP, TRANSPORT_TCP);
        case AnsweredAppProtocol =>
          if evccInfo.schemaId != NO_SCHEMA {
            m := AppProtocolRes(true, evccInfo.schemaId);
          } else {
            m := AppProtocolRes(false, 0);
          }
        case AnsweredServiceDiscovery => m := ServiceDiscoveryRes(seccInfo.sessionId, OK, seccInfo.modes);
        case AnsweredServiceDetail => m := ServiceDetailRes(seccInfo.sessionId, OK);
        case AnsweredPaymentServiceSelection => m := PaymentServiceSelectionRes(seccInfo.sessionId, OK);
        case AnsweredAuthorization => m := AuthorizationRes(seccInfo.sessionId, OK, ProcessingFinished);
        case AnsweredChargeParameterDiscovery => m := ChargeParameterDiscoveryRes(seccInfo.sessionId, OK);
        case AnsweredPowerDelivery => m := PowerDeliveryRes(seccInfo.sessionId, OK);
        case AnsweredChargingStatus => m := ChargingStatusRes(seccInfo.sessionId, OK);
        case AnsweredSessionStop => m := SessionStopRes(seccInfo.sessionId, OK);
        case AnsweredCableCheck => m := CableCheckRes(seccInfo.sessionId, OK, ProcessingFinished);
      }
      sent := Send(m);
    }

    /** The switch. */
    method Switch(i: SeInput) returns (next: SeState, reenter: bool, sent: seq<Sent>, result: bool)
      modifies this
      ensures SeStep(View(), next, reenter, sent, result) == Dispatch(old(View()), i)
    {
      next, reenter, sent, result := state, false, [], false;
      match state
      case SeIdle =>
        if i.run {
          Clear();
          next := SeAwaitSdp;
        }
      case SeAwaitSdp =>
        if received.SdpReq? {
          received := Empty;
          next := AnsweredSdp;
        }
        if received.V2s? {
          sent := Send(V2s);
        }
      case SeFailure =>
        if entered {
          hasClient := false;
        }
        result := true;
        if !i.run {
          next := SeIdle;
        }
      case SeFinished =>
        result := true;
        if !i.run {
          next := SeIdle;
        }
      case _ =>
        next, reenter, sent := AnsweringCase(i);
    }

    method AnsweringCase(i: SeInput) returns (next: SeState, reenter: bool, sent: seq<Sent>)
      requires IsAnswering(state)
      modifies this
      ensures SeStep(View(), next, reenter, sent, false) == AnsweringStep(old(View()), i)
    {
      next, reenter, sent := state, false, [];
      if entered {
        if state == AnsweredAppProtocol && evccInfo.schemaId == NO_SCHEMA {
          next := SeFailure;
        }
        sent := AnswerEntered(i);
      }
      next, reenter := Follow(next);
    }

    /** What each answering state makes of the type of the unread message; chosen is the state chosen so far. */
    method Follow(chosen: SeState) returns (next: SeState, reenter: bool)
      requires IsAnswering(state) && (chosen == state || state == AnsweredAppProtocol)
      ensures var route := Route(state, KindOf(received));
              && (reenter <==> route == Some(state))
              && next == if route.Some? then route.value
                         else if state == AnsweredSessionStop && !hasClient then SeFinished
                         else chosen
    {
      next, reenter := chosen, false;
      var kind := KindOf(received);
      match state
      case AnsweredSdp =>
        if kind == KAppProtocol {
          next := AnsweredAppProtocol;
        }
      case AnsweredAppProtocol =>
        if kind == KSessionSetup {
          next := AnsweredSessionSetup;
        }
      case AnsweredSessionSetup =>
        if kind == KServiceDiscovery {
          next := AnsweredServiceDiscovery;
        }
      case AnsweredServiceDiscovery =>
        if kind == KPaymentServiceSelection {
          next := AnsweredPaymentServiceSelection;
        }
        if kind == KServiceDetail {
          next := AnsweredServiceDetail;
        }
      case AnsweredServiceDetail =>
        if kind == KPaymentServiceSelection {
          next := AnsweredPaymentServiceSelection;
        }
      case AnsweredPaymentServiceSelection =>
        if kind == KAuthorization {
          next := AnsweredAuthorization;
        }
      case AnsweredAuthorization =>
        if kind == KAuthorization {
          reenter := true;
        }
        if kind == KChargeParameterDiscovery {
          next := AnsweredChargeParameterDiscovery;
        }
      case AnsweredChargeParameterDiscovery =>
        if kind == KPowerDelivery {
          next := AnsweredPowerDelivery;
        } else if kind == KCableCheck {
          next := AnsweredCableCheck;
        }
      case AnsweredPowerDelivery =>
        if kind == KChargeParameterDiscovery {
          next := AnsweredChargeParameterDiscovery;
        }
        if kind == KChargingStatus {
          next := AnsweredChargingStatus;
        } else if kind == KSessionStop {
          next := AnsweredSessionStop;
        } else if kind == KCurrentDemand {
          next := AnsweredCurrentDemand;
        } else if kind == KWeldingDetection {
          next := AnsweredWeldingDetection;
        }
      case AnsweredChargingStatus =>
        if kind == KChargingStatus {
          reenter := true;
        }
        if kind == KPowerDelivery {
          next := AnsweredPowerDelivery;
        }
      case AnsweredSessionStop =>
        if !hasClient {
          next := SeFinished;
        }
      case AnsweredCableCheck =>
        if kind == KCableCheck {
          reenter := true;
        } else if kind == KPreCharge {
          next := AnsweredPreCharge;
        }
      case AnsweredPreCharge =>
        if kind == KPreCharge {
          reenter := true;
        } else if kind == KPowerDelivery {
          next := AnsweredPowerDelivery;
        }
      case AnsweredCurrentDemand =>
        if kind == KCurrentDemand {
          reenter := true;
        } else if kind == KPowerDelivery {
          next := AnsweredPowerDelivery;
        }
      case AnsweredWeldingDetection =>
        if kind == KWeldingDetection {
          reenter := true;
        } else if kind == KSessionStop {
          next := AnsweredSessionStop;
        }
    }

    /** The body of the loop in operate. */
    method RunPass(i: SeInput) returns (sent: seq<Sent>, result: bool)
      modifies this
      ensures Pass(View(), sent, result) == OnePass(old(View()), i)
    {
      var current := state;
      var next, reenter;
      next, reenter, sent, result := Switch(i);
      if next == current && !reenter && received != Empty {
        received := Empty;
      }
      if !hasClient && !MayRunUnconnected(current) {
        next := SeFailure;
      }
      entered := reenter;
      if next != current {
        entered := true;
      }
      state := next;
    }

    method ControlMainContactor(i: SeInput)
      modifies this`mainContactor
      ensures View() == ControlContactor(old(View()), i)
    {
      if i.pilot.Some? {
        if evccInfo.transferMode == AC_three_phase_core || evccInfo.transferMode == AC_single_phase_core {
          if i.pilot.value == C_Ready || i.pilot.value == D_ReadyVentilation {
            mainContactor := true;
          } else {
            mainContactor := false;
          }
        }
      }
    }

    method AcceptClient(i: SeInput)
      modifies this`hasClient
      ensures View() == Accept(old(View()), i)
    {
      if i.connection != NoConnection {
        if !hasClient {
          if !security.useTls {
            hasClient := true;
          } else {
            hasClient := i.connection == TlsAccepted;
          }
        }
      }
    }

    method RunLoop(i: SeInput) returns (result: bool, sent: seq<Sent>)
      modifies this
      ensures Pass(View(), sent, result) == Loop(old(View()), i)
    {
      ghost var start := View();
      result, sent := false, [];
      var repeat, more := false, true;
      ghost var passes := 0;
      while more
        invariant 0 <= passes <= 2
        invariant passes == 0 ==> more && !repeat && View() == start && sent == [] && !result
        invariant passes == 1 && more ==>
                    var first := OnePass(start, i);
                    repeat && first.s.entered && View() == first.s.(received := Empty) && sent == first.sent && result == first.result
        invariant passes == 2 ==> !more
        invariant !more ==> Pass(View(), sent, result) == Loop(start, i)
        decreases 2 - passes
      {
        var s, r := RunPass(i);
        sent, result := sent + s, result || r;
        passes := passes + 1;
        if entered && !repeat {
          repeat := true;
          received := Empty;
        } else {
          repeat := false;
        }
        more := repeat;
      }
    }

    /** operate. */
    method Operate(i: SeInput) returns (result: bool, sent: seq<Sent>)
      modifies this
      ensures Pass(View(), sent, result) == SeccSpec.Operate(old(View()), i)
    {
      if !(state == AnsweredPreCharge || state == AnsweredPowerDelivery || state == AnsweredCurrentDemand) {
        source := SOURCE_OFF;
      }
      result, sent := RunLoop(i);
      ControlMainContactor(i);
      AcceptClient(i);
    }
  }
}
