// cIsoProcessEVCC as the object its callers hold. Every method is proved to do what EvccSpec says.

module EvccObject {
  import opened V2g
  import opened PhysicalValues
  import opened Timers
  import opened EvccSpec

  class EvccProcess {
    var state: EvState
    var entered: bool
    var connecting: bool
    var received: Message
    var repeatTimer: Timer
    var powerTimer: Timer
    var seccInfo: SeccInfo
    var evccInfo: EvccInfo
    var actualCurrent: real
    var ev: EvHardware
    var pilot: Option<CpState>

    ghost function View(): Evcc
      reads this
    {
      Evcc(state, entered, connecting, received, repeatTimer, powerTimer, seccInfo, evccInfo, actualCurrent, ev, pilot)
    }

    constructor (mode: TransferMode, pilot: Option<CpState>, now: nat)
      ensures View() == EvccSpec.Initial(mode, pilot, now)
    {
      this.repeatTimer := Timers.Initial(SDP_REPEAT, now);
      this.powerTimer := Timers.Initial(POWER_REPEAT, now);
      this.evccInfo := EvccInfo(mode, 0.0, 400.0);
      this.actualCurrent := 0.0;
      this.ev := EvHardware(false, 0, 0);
      this.pilot := pilot;
      new;
      var op := Clear();
    }

    method Clear() returns (op: ClientOp)
      modifies this
      ensures View() == EvccSpec.Clear(old(View())) && op == Close
    {
      state := EvIdle;
      received := Empty;
      entered := false;
      repeatTimer := repeatTimer.Stop();
      seccInfo := CLEARED_INFO;
      connecting := false;
      op := Close;
    }

    /** onFrameReceive for a frame that has been decoded to m. */
    method OnFrameReceive(m: Message)
      modifies this
      ensures View() == OnFrame(old(View()), m)
    {
      if state == EvIdle || state == EvFinished {
        return;
      }
      received := m;
      Evaluate();
    }

    method Evaluate()
      modifies this
      ensures View() == if IsRequest(old(received)) then old(View()).(received := Empty) else EvccSpec.Evaluate(old(View()))
    {
      if IsRequest(received) {
        received := Empty;
        return;
      }
      match received
      case SessionSetupRes(id, code) =>
        if code.OK_NewSessionEstablished? {
          seccInfo := seccInfo.(sessionId := id);
        }
      case ServiceDiscoveryRes(_, code, offered) =>
        if code.OK? {
          seccInfo := seccInfo.(modes := offered);
        }
      case AuthorizationRes(_, code, p) =>
        if code.OK? {
          seccInfo := seccInfo.(authorized := p == ProcessingFinished);
        }
      case CableCheckRes(_, code, p) =>
        if code.OK? {
          seccInfo := seccInfo.(processing := p);
        }
      case PreChargeRes(_, code, voltage) =>
        if code.OK? {
          evccInfo := evccInfo.(memorizedVoltage := ToReal(voltage));
        }
      case CurrentDemandRes(_, code, current) =>
        if code.OK? {
          actualCurrent := ToReal(current);
        }
      case _ =>
    }

    method IsValid(code: ResponseCode, id: SessionId) returns (valid: bool)
      ensures valid == ResponseIsValid(View(), code, id)
    {
      valid := code.OK? && id == seccInfo.sessionId;
    }

    method SetPilotState(c: CpState)
      modifies this
      ensures View() == old(View()).(pilot := SetPilot(old(pilot), c))
    {
      if pilot.Some? {
        pilot := Some(c);
      }
    }

    method AwaitSdpCase(i: EvInput) returns (next: EvState, out: EvOutput)
      requires state == AwaitSdp
      modifies this
      ensures EvStep(View(), next, out) == SdpStep(old(View()), i)
    {
      next, out := state, EvOutput([], [], Keep);
      var status := i.client;
      if entered {
        connecting := false;
      }
      if entered || repeatTimer.Elapsed(i.now) > 0 {
        out := EvOutput([SdpReq(SECURITY_TCP)], [], Keep);
        repeatTimer := repeatTimer.Start(i.now, 0);
      }
      if received.SdpRes? {
        if !connecting {
          if received.resSecurity == SECURITY_TCP && received.transport == TRANSPORT_TCP {
            connecting := true;
          }
          if connecting {
            repeatTimer := repeatTimer.Stop();
            out := out.(op := Open);
            status := i.afterOpen;
          }
        }
        received := Empty;
      } else if received.V2s? {
        received := Empty;
      }
      if connecting {
        if status == Closed {
          next := EvFailure;
        } else if status == Connected {
          next := AwaitAppProtocol;
        }
      }
    }

    method AppProtocolCase(i: EvInput) returns (next: EvState, out: EvOutput)
      requires state == AwaitAppProtocol
      modifies this
      ensures EvStep(View(), next, out) == SessionStep(old(View()), i)
    {
      next, out := state, EvOutput([], [], Keep);
      if entered {
        out := EvOutput([], [AppProtocolReq([Dialect(ISO_2013, OWN_SCHEMA)])], Keep);
      }
      if received.AppProtocolRes? {
        if received.success {
          if received.schemaId != OWN_SCHEMA {
            next := EvFailure;
          } else {
            next := AwaitSessionSetup;
          }
        } else {
          next := EvFailure;
        }
        received := Empty;
      }
    }

    method SessionSetupCase(i: EvInput) returns (next: EvState, out: EvOutput)
      requires state == AwaitSessionSetup
      modifies this
      ensures EvStep(View(), next, out) == SessionStep(old(View()), i)
    {
      next, out := state, EvOutput([], [], Keep);
      if entered {
        out := EvOutput([], [SessionSetupReq(ZERO_ID)], Keep);
      }
      if received.SessionSetupRes? {
        if received.code.OK_NewSessionEstablished? {
          next := AwaitServiceDiscovery;
        } else {
          next := EvFailure;
        }
        received := Empty;
      }
    }

    /** The search for a common energy transfer mode. */
    method NegotiateMode() returns (found: bool)
      modifies this`evccInfo
      ensures evccInfo == old(evccInfo).(transferMode := evccInfo.transferMode)
      ensures (evccInfo.transferMode, found) == Negotiate(old(evccInfo.transferMode), seccInfo.modes)
    {
      found := false;
      for k := 0 to |seccInfo.modes|
        invariant evccInfo == old(evccInfo).(transferMode := evccInfo.transferMode)
        invariant NegotiateFrom(evccInfo.transferMode, seccInfo.modes[k..], found) == Negotiate(old(evccInfo.transferMode), seccInfo.modes)
      {
        assert seccInfo.modes[k..][1..] == seccInfo.modes[k + 1..];
        if evccInfo.transferMode == DC_core {
          if seccInfo.modes[k] == DC_core || seccInfo.modes[k] == DC_extended {
            found := true;
            evccInfo := evccInfo.(transferMode := seccInfo.modes[k]);
          }
        } else if evccInfo.transferMode == seccInfo.modes[k] {
          found := true;
        }
      }
    }

    method ServiceDiscoveryCase(i: EvInput) returns (next: EvState, out: EvOutput)
      requires state == AwaitServiceDiscovery
      modifies this
      ensures EvStep(View(), next, out) == SessionStep(old(View()), i)
    {
      next, out := state, EvOutput([], [], Keep);
      if entered {
        out := EvOutput([], [ServiceDiscoveryReq(seccInfo.sessionId)], Keep);
      }
      if received.ServiceDiscoveryRes? {
        var valid := IsValid(received.code, received.id);
        if valid {
          var found := NegotiateMode();
          if found {
            next := AwaitPaymentServiceSelection;
          } else {
            next := EvFailure;
          }
        } else {
          next := EvFailure;
        }
        received := Empty;
      }
    }

    method PaymentServiceSelectionCase(i: EvInput) returns (next: EvState, out: EvOutput)
      requires state == AwaitPaymentServiceSelection
      modifies this
      ensures EvStep(View(), next, out) == SessionStep(old(View()), i)
    {
      next, out := state, EvOutput([], [], Keep);
      if entered {
        out := EvOutput([], [PaymentServiceSelectionReq(seccInfo.sessionId)], Keep);
      }
      if received.PaymentServiceSelectionRes? {
        var valid := IsValid(received.code, received.id);
        next := if valid then AwaitAuthorization else EvFailure;
        received := Empty;
      }
    }

    method AuthorizationDecision(i: EvInput) returns (next: EvState)
      requires state == AwaitAuthorization && received.AuthorizationRes?
      modifies this
      ensures Verdict(View(), next) == Decide(old(View()), i)
    {
      next := state;
      repeatTimer := repeatTimer.Stop();
      var valid := IsValid(received.code, received.id);
      if valid {
        if seccInfo.authorized {
          next := AwaitChargeParameterDiscovery;
        } else {
          repeatTimer := repeatTimer.Start(i.now, 0);
        }
      } else {
        next := EvFailure;
      }
    }

    method AuthorizationAsk(i: EvInput) returns (out: EvOutput)
      requires state == AwaitAuthorization
      modifies this
      ensures View() == Asked(old(View()), i) && out == AskedOutput(old(View()), i)
    {
      out := EvOutput([], [], Keep);
      if entered || repeatTimer.Elapsed(i.now) > 0 {
        repeatTimer := repeatTimer.Stop();
        out := EvOutput([], [AuthorizationReq(seccInfo.sessionId)], Keep);
      }
    }

    method AuthorizationCase(i: EvInput) returns (next: EvState, out: EvOutput)
      requires state == AwaitAuthorization
      modifies this
      ensures EvStep(View(), next, out) == SessionStep(old(View()), i)
    {
      next := state;
      out := AuthorizationAsk(i);
      if received.AuthorizationRes? {
        next := AuthorizationDecision(i);
        received := Empty;
      }
    }

    method ChargeParameterDiscoveryCase(i: EvInput) returns (next: EvState, out: EvOutput)
      requires state == AwaitChargeParameterDiscovery
      modifies this
      ensures EvStep(View(), next, out) == SessionStep(old(View()), i)
    {
      next, out := state, EvOutput([], [], Keep);
      if entered {
        out := EvOutput([], [ChargeParameterDiscoveryReq(seccInfo.sessionId, evccInfo.transferMode)], Keep);
      }
      if received.ChargeParameterDiscoveryRes? {
        var valid := IsValid(received.code, received.id);
        if valid {
          if evccInfo.transferMode == AC_three_phase_core {
            next := AwaitPowerDelivery;
          } else {
            next := AwaitCableCheck;
          }
        } else {
          next := EvFailure;
        }
        received := Empty;
      }
    }

    method PowerDeliveryCase(i: EvInput) returns (next: EvState, out: EvOutput)
      requires state == AwaitPowerDelivery
      modifies this
      ensures EvStep(View(), next, out) == SessionStep(old(View()), i)
    {
      next, out := state, EvOutput([], [], Keep);
      if entered {
        var progress := Start;
        if !i.enable {
          progress := Stop;
        }
        out := EvOutput([], [PowerDeliveryReq(seccInfo.sessionId, evccInfo.transferMode, progress)], Keep);
      }
      if received.PowerDeliveryRes? {
        var valid := IsValid(received.code, received.id);
        if valid {
          if i.enable {
            if evccInfo.transferMode == AC_three_phase_core {
              next := AwaitChargingStatus;
            } else {
              next := AwaitCurrentDemand;
            }
          } else {
            if evccInfo.transferMode == AC_three_phase_core {
              next := AwaitSessionStop;
            } else {
              next := AwaitWeldingDetection;
            }
          }
        } else {
          next := EvFailure;
        }
        received := Empty;
      }
    }

    method ChargingStatusDecision(i: EvInput) returns (next: EvState)
      requires state == AwaitChargingStatus && received.ChargingStatusRes?
      modifies this
      ensures Verdict(View(), next) == Decide(old(View()), i)
    {
      next := state;
      repeatTimer := repeatTimer.Stop();
      var valid := IsValid(received.code, received.id);
      if valid {
        if !i.enable {
          next := AwaitPowerDelivery;
        } else {
          repeatTimer := repeatTimer.Start(i.now, 0);
        }
      } else {
        next := EvFailure;
      }
    }

    method ChargingStatusAsk(i: EvInput) returns (out: EvOutput)
      requires state == AwaitChargingStatus
      modifies this
      ensures View() == Asked(old(View()), i) && out == AskedOutput(old(View()), i)
    {
      out := EvOutput([], [], Keep);
      if entered || repeatTimer.Elapsed(i.now) > 0 {
        repeatTimer := repeatTimer.Stop();
        out := EvOutput([], [ChargingStatusReq(seccInfo.sessionId)], Keep);
      }
    }

    method ChargingStatusCase(i: EvInput) returns (next: EvState, out: EvOutput)
      requires state == AwaitChargingStatus
      modifies this
      ensures EvStep(View(), next, out) == SessionStep(old(View()), i)
    {
      next := state;
      out := ChargingStatusAsk(i);
      if received.ChargingStatusRes? {
        next := ChargingStatusDecision(i);
        received := Empty;
      }
    }

    method CableCheckDecision(i: EvInput) returns (next: EvState)
      requires state == AwaitCableCheck && received.CableCheckRes?
      modifies this
      ensures Verdict(View(), next) == Decide(old(View()), i)
    {
      next := state;
      repeatTimer := repeatTimer.Stop();
      var valid := IsValid(received.code, received.id);
      if valid {
        if seccInfo.processing == ProcessingFinished {
          next := AwaitPreCharge;
        } else {
          repeatTimer := repeatTimer.Start(i.now, CABLE_CHECK_REPEAT);
        }
      } else {
        next := EvFailure;
      }
    }

    method CableCheckAsk(i: EvInput) returns (out: EvOutput)
      requires state == AwaitCableCheck
      modifies this
      ensures View() == Asked(old(View()), i) && out == AskedOutput(old(View()), i)
    {
      out := EvOutput([], [], Keep);
      if entered || repeatTimer.Elapsed(i.now) > 0 {
        repeatTimer := repeatTimer.Stop();
        SetPilotState(C_Ready);
        out := EvOutput([], [CableCheckReq(seccInfo.sessionId)], Keep);
      }
    }

    method CableCheckCase(i: EvInput) returns (next: EvState, out: EvOutput)
      requires state == AwaitCableCheck
      modifies this
      ensures EvStep(View(), next, out) == SessionStep(old(View()), i)
    {
      next := state;
      out := CableCheckAsk(i);
      if received.CableCheckRes? {
        next := CableCheckDecision(i);
        received := Empty;
      }
    }

    method PreChargeDecision(i: EvInput) returns (next: EvState)
      requires state == AwaitPreCharge && received.PreChargeRes?
      modifies this
      ensures Verdict(View(), next) == Decide(old(View()), i)
    {
      next := state;
      repeatTimer := repeatTimer.Stop();
      var valid := IsValid(received.code, received.id);
      if valid {
        ev := ev.(voltageValue := Truncate16(evccInfo.memorizedVoltage));
        var measured := if i.socketVoltage.Some? then i.socketVoltage.value else ev.voltageValue;
        if Abs(evccInfo.memorizedVoltage - measured as real) < 5.0 {
          next := AwaitPowerDelivery;
        } else {
          repeatTimer := repeatTimer.Start(i.now, 0);
        }
      } else {
        next := EvFailure;
      }
    }

    method PreChargeAsk(i: EvInput) returns (out: EvOutput)
      requires state == AwaitPreCharge
      modifies this
      ensures View() == Asked(old(View()), i) && out == AskedOutput(old(View()), i)
    {
      out := EvOutput([], [], Keep);
      if entered {
        SetPilotState(C_Ready);
      }
      if entered || repeatTimer.Elapsed(i.now) > 0 {
        repeatTimer := repeatTimer.Stop();
        out := EvOutput([], [PreChargeReq(seccInfo.sessionId, FromReal(evccInfo.memorizedVoltage, 0))], Keep);
      }
    }

    method PreChargeCase(i: EvInput) returns (next: EvState, out: EvOutput)
      requires state == AwaitPreCharge
      modifies this
      ensures EvStep(View(), next, out) == SessionStep(old(View()), i)
    {
      next := state;
      out := PreChargeAsk(i);
      if received.PreChargeRes? {
        next := PreChargeDecision(i);
        received := Empty;
      }
    }

    method CurrentDemandDecision(i: EvInput) returns (next: EvState)
      requires state == AwaitCurrentDemand && received.CurrentDemandRes?
      modifies this
      ensures Verdict(View(), next) == Decide(old(View()), i)
    {
      next := state;
      powerTimer := powerTimer.Stop();
      var valid := IsValid(received.code, received.id);
      if valid {
        ev := ev.(currentValue := Truncate16(actualCurrent));
        var measured := if i.socketCurrent.Some? then i.socketCurrent.value else ev.currentValue;
        if i.enable || (!i.enable && measured as real >= I_OFF) {
          powerTimer := powerTimer.Start(i.now, 0);
        } else {
          next := AwaitPowerDelivery;
        }
      } else {
        next := EvFailure;
      }
    }

    method CurrentDemandAsk(i: EvInput) returns (out: EvOutput)
      requires state == AwaitCurrentDemand
      modifies this
      ensures View() == Asked(old(View()), i) && out == AskedOutput(old(View()), i)
    {
      out := EvOutput([], [], Keep);
      if entered {
        ev := ev.(contactor := true);
      }
      if entered || powerTimer.Elapsed(i.now) > 0 {
        powerTimer := powerTimer.Stop();
        var closed := if i.contactorFeedback.Some? then i.contactorFeedback.value else ev.contactor;
        var target := 0.0;
        if i.enable && closed {
          target := 10.0;
        }
        out := EvOutput([], [CurrentDemandReq(seccInfo.sessionId, FromReal(target, 0), FromReal(evccInfo.maxVoltage, 0))], Keep);
      }
    }

    method CurrentDemandCase(i: EvInput) returns (next: EvState, out: EvOutput)
      requires state == AwaitCurrentDemand
      modifies this
      ensures EvStep(View(), next, out) == SessionStep(old(View()), i)
    {
      next := state;
      out := CurrentDemandAsk(i);
      if received.CurrentDemandRes? {
        next := CurrentDemandDecision(i);
        received := Empty;
      }
    }

    method WeldingDetectionCase(i: EvInput) returns (next: EvState, out: EvOutput)
      requires state == AwaitWeldingDetection
      modifies this
      ensures EvStep(View(), next, out) == SessionStep(old(View()), i)
    {
      next, out := state, EvOutput([], [], Keep);
      if entered {
        out := EvOutput([], [WeldingDetectionReq(seccInfo.sessionId)], Keep);
      }
      if received.WeldingDetectionRes? {
        var valid := IsValid(received.code, received.id);
        next := if valid then AwaitSessionStop else EvFailure;
        received := Empty;
      }
    }

    method SessionStopCase(i: EvInput) returns (next: EvState, out: EvOutput)
      requires state == AwaitSessionStop
      modifies this
      ensures EvStep(View(), next, out) == SessionStep(old(View()), i)
    {
      next, out := state, EvOutput([], [], Keep);
      if entered {
        out := EvOutput([], [SessionStopReq(seccInfo.sessionId)], Keep);
      }
      if received.SessionStopRes? {
        var valid := IsValid(received.code, received.id);
        next := if valid then AwaitDisconnection else EvFailure;
        received := Empty;
      }
    }

    /** The states without a TCP dialogue. */
    method OtherCase(i: EvInput) returns (next: EvState, out: EvOutput)
      requires !InSession(state) && state != AwaitSdp
      modifies this
      ensures EvStep(View(), next, out) == Dispatch(old(View()), i)
    {
      next, out := state, EvOutput([], [], Keep);
      match state
      case EvIdle =>
        if i.run {
          var op := Clear();
          out := EvOutput([], [], op);
          next := AwaitSdp;
        }
      case AwaitDisconnection =>
        if i.client != Connected {
          next := EvFinished;
        } else {
          out := EvOutput([], [], Close);
        }
      case EvFailure =>
        if entered {
          out := EvOutput([], [], Close);
        }
        if !i.run {
          next := EvIdle;
        }
      case EvFinished =>
        if !i.run {
          next := EvIdle;
        }
    }

    method Switch(i: EvInput) returns (next: EvState, out: EvOutput)
      modifies this
      ensures EvStep(View(), next, out) == Dispatch(old(View()), i)
    {
      match state
      case AwaitSdp => next, out := AwaitSdpCase(i);
      case AwaitAppProtocol => next, out := AppProtocolCase(i);
      case AwaitSessionSetup => next, out := SessionSetupCase(i);
      case AwaitServiceDiscovery => next, out := ServiceDiscoveryCase(i);
      case AwaitPaymentServiceSelection => next, out := PaymentServiceSelectionCase(i);
      case AwaitAuthorization => next, out := AuthorizationCase(i);
      case AwaitChargeParameterDiscovery => next, out := ChargeParameterDiscoveryCase(i);
      case AwaitPowerDelivery => next, out := PowerDeliveryCase(i);
      case AwaitChargingStatus => next, out := ChargingStatusCase(i);
      case AwaitCableCheck => next, out := CableCheckCase(i);
      case AwaitPreCharge => next, out := PreChargeCase(i);
      case AwaitCurrentDemand => next, out := CurrentDemandCase(i);
      case AwaitWeldingDetection => next, out := WeldingDetectionCase(i);
      case AwaitSessionStop => next, out := SessionStopCase(i);
      case _ => next, out := OtherCase(i);
    }

    /** The tail of operate for the outputs; current is the state the call started in. */
    method Safeguard(current: EvState, i: EvInput)
      modifies this
      ensures View() == SafeOutputs(old(View()), current, i)
    {
      if PowerState(current) {
        return;
      }
      var measured := if i.socketCurrent.Some? then i.socketCurrent.value else ev.currentValue;
      var demand, hardware := pilot, ev;
      if demand.Some? && PilotReady(demand.value) {
        demand := Some(B_Connected);
      }
      if Idle(measured) && hardware.contactor {
        hardware := hardware.(contactor := false);
      }
      pilot, ev := demand, hardware;
    }

    method Enter(current: EvState, chosen: EvState, i: EvInput)
      modifies this
      ensures View() == EvccSpec.Enter(old(View()), current, chosen, i)
    {
      var next := chosen;
      if i.client != Connected && InSession(current) {
        next := EvFailure;
      }
      entered := next != current;
      state := next;
    }

    method Operate(i: EvInput) returns (ended: bool, out: EvOutput)
      modifies this
      ensures (View(), out) == EvccSpec.Operate(old(View()), i)
      ensures ended <==> old(state) == EvFinished || old(state) == EvFailure
    {
      var current := state;
      var next: EvState;
      next, out := Switch(i);
      received := Empty;
      Safeguard(current, i);
      Enter(current, next, i);
      ended := current == EvFinished || current == EvFailure;
    }
  }
}
