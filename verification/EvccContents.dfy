// What the vehicle's requests say, what it makes of each response, and which offers it takes.

module EvccContents {
  import opened V2g
  import opened PhysicalValues
  import opened ByteArrays
  import opened Words
  import opened Timers
  import opened EvccSpec
  import opened EvccRuns
  import ES = EvccSafety

  /** A response that belongs to the session and reports success. */
  predicate Good(s: Evcc, id: SessionId, code: ResponseCode) {
    code == OK && id == s.secc.sessionId
  }

  /** The vehicle after a response and the call that finds it. */
  function After(s: Evcc, m: Message, i: EvInput): Evcc {
    Next(OnFrame(s, m), i)
  }

  /** What a response leads to: the next state after a good one, failure after any other one or without a
      connection. */
  predicate LeadsTo(t: Evcc, i: EvInput, good: bool, to: EvState) {
    t.state == if i.client == Connected && good then to else EvFailure
  }

  /** The call that finds a response decides on it after asking. */
  lemma Turns(s: Evcc, i: EvInput)
    requires InSession(s.state) && HasAnswer(s)
    ensures var t := Next(s, i);
            var n := EvccSpec.Asked(s, i);
            && n.state == s.state && n.received == s.received && n.secc == s.secc && n.info == s.info && n.actualCurrent == s.actualCurrent
            && n.repeatTimer.duration == s.repeatTimer.duration && n.powerTimer.duration == s.powerTimer.duration
            && InSession(n.state) && HasAnswer(n)
            && t.state == (if i.client == Connected then Decide(n, i).next else EvFailure)
            && (t.entered <==> t.state != s.state)
            && t.repeatTimer == Decide(n, i).s.repeatTimer && t.powerTimer == Decide(n, i).s.powerTimer && t.info == Decide(n, i).s.info
  {
    SessionOperate(s, i);
    AskingKeeps(s, i);
    DurationsKept(s, i);
    hide Operate;
    hide HasAnswer;
    hide EvccSpec.Asked;
    hide Decide;
    hide AskedOutput;
  }

  lemma DurationsKept(s: Evcc, i: EvInput)
    ensures var n := EvccSpec.Asked(s, i);
            n.repeatTimer.duration == s.repeatTimer.duration && n.powerTimer.duration == s.powerTimer.duration
  {
    ActuateKeeps(s, i);
    hide Actuate;
    hide SendDue;
  }

  // ---- What a response leads to ----

  lemma HandshakeEnds(s: Evcc, success: bool, schemaId: nat, i: EvInput)
    requires s.state == AwaitAppProtocol
    ensures LeadsTo(After(s, AppProtocolRes(success, schemaId), i), i, success && schemaId == 10, AwaitSessionSetup)
  {
  }

  lemma SessionSetupEnds(s: Evcc, id: SessionId, code: ResponseCode, i: EvInput)
    requires s.state == AwaitSessionSetup
    ensures var t := After(s, SessionSetupRes(id, code), i);
            LeadsTo(t, i, code == OK_NewSessionEstablished, AwaitServiceDiscovery)
            && t.secc.sessionId == if code == OK_NewSessionEstablished then id else s.secc.sessionId
  {
  }

  /** The modes the vehicle takes: its own, and the extended DC mode in place of the plain one. */
  predicate Takes(mode: TransferMode, offered: seq<TransferMode>) {
    mode in offered || (mode == DC_core && DC_extended in offered)
  }

  lemma ModesHeard(s: Evcc, id: SessionId, code: ResponseCode, modes: seq<TransferMode>)
    requires s.state != EvIdle && s.state != EvFinished
    ensures var m := ServiceDiscoveryRes(id, code, modes);
            OnFrame(s, m) == s.(received := m, secc := if code == OK then s.secc.(modes := modes) else s.secc)
  {
  }

  lemma ServiceDiscoveryEnds(s: Evcc, id: SessionId, code: ResponseCode, modes: seq<TransferMode>, i: EvInput)
    requires s.state == AwaitServiceDiscovery
    ensures var t := After(s, ServiceDiscoveryRes(id, code, modes), i);
            LeadsTo(t, i, Good(s, id, code) && Takes(s.info.transferMode, modes), AwaitPaymentServiceSelection)
            && t.info.transferMode == if Good(s, id, code) && s.info.transferMode == DC_core && DC_extended in modes then DC_extended
                                      else s.info.transferMode
  {
    ModesHeard(s, id, code, modes);
    var n := OnFrame(s, ServiceDiscoveryRes(id, code, modes));
    hide OnFrame;
    hide Negotiate;
    ES.NegotiateMeaning(n.info.transferMode, n.secc.modes);
  }

  lemma PaymentServiceSelectionEnds(s: Evcc, id: SessionId, code: ResponseCode, i: EvInput)
    requires s.state == AwaitPaymentServiceSelection
    ensures LeadsTo(After(s, PaymentServiceSelectionRes(id, code), i), i, Good(s, id, code), AwaitAuthorization)
  {
    PlainHeard(s, PaymentServiceSelectionRes(id, code));
    Turns(OnFrame(s, PaymentServiceSelectionRes(id, code)), i);
    hide Operate;
    hide OnFrame;
    hide EvccSpec.Asked;
  }

  /** The state asks again once more than d has passed since now. */
  ghost predicate AsksAgainAfter(t: Evcc, now: nat, d: nat) {
    && !t.entered
    && forall k: EvInput :: Output(t, k).tcp != [] <==> (k.now - now) % WORD64 > d
  }

  lemma PausedAsks(t: Evcc, now: nat, d: nat)
    requires InSession(t.state) && !t.entered && d != 0 && RepeatTimer(t) == Some(Timer(now, d, 1))
    ensures AsksAgainAfter(t, now, d)
  {
    hide Operate;
    hide RepeatTimer;
    forall k: EvInput
      ensures Output(t, k).tcp != [] <==> (k.now - now) % WORD64 > d
    {
      PausedOutput(t, k, now, d);
    }
  }

  lemma PausedOutput(t: Evcc, k: EvInput, now: nat, d: nat)
    requires InSession(t.state) && !t.entered && d != 0 && RepeatTimer(t) == Some(Timer(now, d, 1))
    ensures Output(t, k).tcp != [] <==> (k.now - now) % WORD64 > d
  {
    SessionOperate(t, k);
    PausedDue(t, k, now, d);
    hide Operate;
    hide Request;
    hide SendDue;
  }

  lemma PausedDue(t: Evcc, k: EvInput, now: nat, d: nat)
    requires InSession(t.state) && !t.entered && d != 0 && RepeatTimer(t) == Some(Timer(now, d, 1))
    ensures SendDue(t, k) <==> (k.now - now) % WORD64 > d
  {
  }

  /** Authorization is left for ChargeParameterDiscovery exactly when the charger says that it has finished;
      otherwise the vehicle asks again after the time its repeat timer is set to. */
  lemma AuthorizationEnds(s: Evcc, id: SessionId, code: ResponseCode, p: Processing, i: EvInput)
    requires s.state == AwaitAuthorization
    ensures var t := After(s, AuthorizationRes(id, code, p), i);
            && LeadsTo(t, i, Good(s, id, code), if p == ProcessingFinished then AwaitChargeParameterDiscovery else AwaitAuthorization)
            && (t.state == AwaitAuthorization && s.repeatTimer.duration != 0 ==> AsksAgainAfter(t, i.now, s.repeatTimer.duration))
  {
    AuthorizationDecided(s, id, code, p, i);
    var t := After(s, AuthorizationRes(id, code, p), i);
    if t.state == AwaitAuthorization && s.repeatTimer.duration != 0 {
      PausedAsks(t, i.now, s.repeatTimer.duration);
    }
    hide Operate;
    hide OnFrame;
    hide AsksAgainAfter;
  }

  lemma AuthorizationHeard(s: Evcc, id: SessionId, code: ResponseCode, p: Processing)
    requires s.state != EvIdle && s.state != EvFinished
    ensures var m := AuthorizationRes(id, code, p);
            OnFrame(s, m) == s.(received := m, secc := if code == OK then s.secc.(authorized := p == ProcessingFinished) else s.secc)
  {
  }

  lemma AuthorizationDecided(s: Evcc, id: SessionId, code: ResponseCode, p: Processing, i: EvInput)
    requires s.state == AwaitAuthorization
    ensures var t := After(s, AuthorizationRes(id, code, p), i);
            && LeadsTo(t, i, Good(s, id, code), if p == ProcessingFinished then AwaitChargeParameterDiscovery else AwaitAuthorization)
            && (t.state == AwaitAuthorization && s.repeatTimer.duration != 0 ==>
                  !t.entered && t.repeatTimer == Timer(i.now, s.repeatTimer.duration, 1))
  {
    AuthorizationHeard(s, id, code, p);
    Turns(OnFrame(s, AuthorizationRes(id, code, p)), i);
    hide Operate;
    hide OnFrame;
    hide EvccSpec.Asked;
  }

  lemma ChargeParameterDiscoveryEnds(s: Evcc, id: SessionId, code: ResponseCode, i: EvInput)
    requires s.state == AwaitChargeParameterDiscovery
    ensures LeadsTo(After(s, ChargeParameterDiscoveryRes(id, code), i), i, Good(s, id, code),
                    if s.info.transferMode == AC_three_phase_core then AwaitPowerDelivery else AwaitCableCheck)
  {
    PlainHeard(s, ChargeParameterDiscoveryRes(id, code));
    Turns(OnFrame(s, ChargeParameterDiscoveryRes(id, code)), i);
    hide Operate;
    hide OnFrame;
    hide EvccSpec.Asked;
  }

  /** CableCheck is left for PreCharge exactly when the charger says that its isolation test has finished;
      otherwise the vehicle asks again after 200. */
  lemma CableCheckEnds(s: Evcc, id: SessionId, code: ResponseCode, p: Processing, i: EvInput)
    requires s.state == AwaitCableCheck
    ensures var t := After(s, CableCheckRes(id, code, p), i);
            && LeadsTo(t, i, Good(s, id, code), if p == ProcessingFinished then AwaitPreCharge else AwaitCableCheck)
            && (t.state == AwaitCableCheck ==> AsksAgainAfter(t, i.now, 200))
  {
    CableCheckDecided(s, id, code, p, i);
    var t := After(s, CableCheckRes(id, code, p), i);
    if t.state == AwaitCableCheck {
      PausedAsks(t, i.now, 200);
    }
    hide Operate;
    hide OnFrame;
    hide AsksAgainAfter;
  }

  lemma CheckHeard(s: Evcc, id: SessionId, code: ResponseCode, p: Processing)
    requires s.state != EvIdle && s.state != EvFinished
    ensures var m := CableCheckRes(id, code, p);
            OnFrame(s, m) == s.(received := m, secc := if code == OK then s.secc.(processing := p) else s.secc)
  {
  }

  lemma CableCheckDecided(s: Evcc, id: SessionId, code: ResponseCode, p: Processing, i: EvInput)
    requires s.state == AwaitCableCheck
    ensures var t := After(s, CableCheckRes(id, code, p), i);
            && LeadsTo(t, i, Good(s, id, code), if p == ProcessingFinished then AwaitPreCharge else AwaitCableCheck)
            && (t.state == AwaitCableCheck ==> !t.entered && t.repeatTimer == Timer(i.now, 200, 1))
  {
    CheckHeard(s, id, code, p);
    Turns(OnFrame(s, CableCheckRes(id, code, p)), i);
    hide Operate;
    hide OnFrame;
    hide EvccSpec.Asked;
  }

  lemma VoltageHeard(s: Evcc, id: SessionId, code: ResponseCode, voltage: PhysicalValue)
    requires s.state != EvIdle && s.state != EvFinished
    ensures var m := PreChargeRes(id, code, voltage);
            OnFrame(s, m) == s.(received := m, info := if code == OK then s.info.(memorizedVoltage := ToReal(voltage)) else s.info)
  {
    hide ToReal;
  }

  /** The voltage at the socket is less than five volts away from the one the charger reports. Simulated
      hardware shows the whole volts of the reported voltage. */
  predicate Matches(reported: real, measured: Option<nat>) {
    measured.Some? ==> -5.0 < reported - measured.value as real < 5.0
  }

  /** PreCharge is left for PowerDelivery exactly when the voltages match; otherwise the vehicle asks again
      after the time its repeat timer is set to. */
  lemma PreChargeEnds(s: Evcc, id: SessionId, code: ResponseCode, voltage: PhysicalValue, i: EvInput)
    requires s.state == AwaitPreCharge && (i.socketVoltage.Some? || -1.0 < ToReal(voltage) < 65536.0)
    ensures var t := After(s, PreChargeRes(id, code, voltage), i);
            && LeadsTo(t, i, Good(s, id, code), if Matches(ToReal(voltage), i.socketVoltage) then AwaitPowerDelivery else AwaitPreCharge)
            && (t.state == AwaitPreCharge && s.repeatTimer.duration != 0 ==> AsksAgainAfter(t, i.now, s.repeatTimer.duration))
  {
    PreChargeDecided(s, id, code, voltage, i);
    var t := After(s, PreChargeRes(id, code, voltage), i);
    if t.state == AwaitPreCharge && s.repeatTimer.duration != 0 {
      PausedAsks(t, i.now, s.repeatTimer.duration);
    }
    hide Operate;
    hide OnFrame;
    hide ToReal;
    hide AsksAgainAfter;
  }

  lemma MatchMeans(s: Evcc, i: EvInput)
    requires i.socketVoltage.Some? || -1.0 < s.info.memorizedVoltage < 65536.0
    ensures var u := s.(ev := s.ev.(voltageValue := Truncate16(s.info.memorizedVoltage)));
            MeetsVoltage(u, i) <==> Matches(s.info.memorizedVoltage, i.socketVoltage)
  {
  }

  lemma PreChargeDecided(s: Evcc, id: SessionId, code: ResponseCode, voltage: PhysicalValue, i: EvInput)
    requires s.state == AwaitPreCharge && (i.socketVoltage.Some? || -1.0 < ToReal(voltage) < 65536.0)
    ensures var t := After(s, PreChargeRes(id, code, voltage), i);
            && LeadsTo(t, i, Good(s, id, code), if Matches(ToReal(voltage), i.socketVoltage) then AwaitPowerDelivery else AwaitPreCharge)
            && (t.state == AwaitPreCharge && s.repeatTimer.duration != 0 ==>
                  !t.entered && t.repeatTimer == Timer(i.now, s.repeatTimer.duration, 1))
  {
    VoltageHeard(s, id, code, voltage);
    var n := EvccSpec.Asked(OnFrame(s, PreChargeRes(id, code, voltage)), i);
    Turns(OnFrame(s, PreChargeRes(id, code, voltage)), i);
    hide Operate;
    hide OnFrame;
    hide EvccSpec.Asked;
    hide ToReal;
    hide Truncate16;
    if code == OK {
      MatchMeans(StopRepeat(n), i);
    }
    hide MeetsVoltage;
    hide Matches;
  }

  lemma IdHeard(s: Evcc, id: SessionId, code: ResponseCode)
    requires s.state != EvIdle && s.state != EvFinished
    ensures var m := SessionSetupRes(id, code);
            OnFrame(s, m) == s.(received := m, secc := if code == OK_NewSessionEstablished then s.secc.(sessionId := id) else s.secc)
  {
  }

  /** All other responses leave nothing but themselves in the slot. */
  lemma PlainHeard(s: Evcc, m: Message)
    requires s.state != EvIdle && s.state != EvFinished && !IsRequest(m)
    requires !m.SessionSetupRes? && !m.ServiceDiscoveryRes? && !m.AuthorizationRes? && !m.CableCheckRes? && !m.PreChargeRes? && !m.CurrentDemandRes?
    ensures OnFrame(s, m) == s.(received := m)
  {
  }

  /** The four ways from PowerDelivery: the wish to charge and the transfer mode decide at the response. */
  lemma PowerDeliveryEnds(s: Evcc, id: SessionId, code: ResponseCode, i: EvInput)
    requires s.state == AwaitPowerDelivery
    ensures var ac := s.info.transferMode == AC_three_phase_core;
            LeadsTo(After(s, PowerDeliveryRes(id, code), i), i, Good(s, id, code),
                    if i.enable && ac then AwaitChargingStatus
                    else if i.enable then AwaitCurrentDemand
                    else if ac then AwaitSessionStop
                    else AwaitWeldingDetection)
  {
    PlainHeard(s, PowerDeliveryRes(id, code));
    Turns(OnFrame(s, PowerDeliveryRes(id, code)), i);
    hide Operate;
    hide OnFrame;
    hide EvccSpec.Asked;
  }

  /** Three-phase charging goes on as long as it is wished, with a new request after the time the repeat timer
      is set to. */
  lemma ChargingStatusEnds(s: Evcc, id: SessionId, code: ResponseCode, i: EvInput)
    requires s.state == AwaitChargingStatus
    ensures var t := After(s, ChargingStatusRes(id, code), i);
            && LeadsTo(t, i, Good(s, id, code), if i.enable then AwaitChargingStatus else AwaitPowerDelivery)
            && (t.state == AwaitChargingStatus && s.repeatTimer.duration != 0 ==> AsksAgainAfter(t, i.now, s.repeatTimer.duration))
  {
    ChargingStatusDecided(s, id, code, i);
    var t := After(s, ChargingStatusRes(id, code), i);
    if t.state == AwaitChargingStatus && s.repeatTimer.duration != 0 {
      PausedAsks(t, i.now, s.repeatTimer.duration);
    }
    hide Operate;
    hide OnFrame;
    hide AsksAgainAfter;
  }

  lemma ChargingStatusDecided(s: Evcc, id: SessionId, code: ResponseCode, i: EvInput)
    requires s.state == AwaitChargingStatus
    ensures var t := After(s, ChargingStatusRes(id, code), i);
            && LeadsTo(t, i, Good(s, id, code), if i.enable then AwaitChargingStatus else AwaitPowerDelivery)
            && (t.state == AwaitChargingStatus && s.repeatTimer.duration != 0 ==>
                  !t.entered && t.repeatTimer == Timer(i.now, s.repeatTimer.duration, 1))
  {
    PlainHeard(s, ChargingStatusRes(id, code));
    Turns(OnFrame(s, ChargingStatusRes(id, code)), i);
    hide Operate;
    hide OnFrame;
    hide EvccSpec.Asked;
  }

  lemma CurrentHeard(s: Evcc, id: SessionId, code: ResponseCode, current: PhysicalValue)
    requires s.state != EvIdle && s.state != EvFinished
    ensures var m := CurrentDemandRes(id, code, current);
            OnFrame(s, m) == s.(received := m, actualCurrent := if code == OK then ToReal(current) else s.actualCurrent)
  {
    hide ToReal;
  }

  /** No current at the socket. Simulated hardware shows the whole amperes of the reported current. */
  predicate NoCurrent(reported: real, measured: Option<nat>) {
    if measured.Some? then measured.value == 0 else reported < 1.0
  }

  /** Direct current charging ends when it is no longer wished and no current flows; otherwise the vehicle asks
      again after the time its power timer is set to. */
  lemma CurrentDemandEnds(s: Evcc, id: SessionId, code: ResponseCode, current: PhysicalValue, i: EvInput)
    requires s.state == AwaitCurrentDemand && (i.socketCurrent.Some? || -1.0 < ToReal(current) < 65536.0)
    ensures var t := After(s, CurrentDemandRes(id, code, current), i);
            && LeadsTo(t, i, Good(s, id, code),
                       if !i.enable && NoCurrent(ToReal(current), i.socketCurrent) then AwaitPowerDelivery else AwaitCurrentDemand)
            && (t.state == AwaitCurrentDemand && s.powerTimer.duration != 0 ==> AsksAgainAfter(t, i.now, s.powerTimer.duration))
  {
    CurrentDemandDecided(s, id, code, current, i);
    var t := After(s, CurrentDemandRes(id, code, current), i);
    if t.state == AwaitCurrentDemand && s.powerTimer.duration != 0 {
      PausedAsks(t, i.now, s.powerTimer.duration);
    }
    hide Operate;
    hide OnFrame;
    hide ToReal;
    hide AsksAgainAfter;
  }

  lemma StopMeans(s: Evcc, i: EvInput)
    requires i.socketCurrent.Some? || -1.0 < s.actualCurrent < 65536.0
    ensures var u := s.(ev := s.ev.(currentValue := Truncate16(s.actualCurrent)));
            MayStop(u, i) <==> !i.enable && NoCurrent(s.actualCurrent, i.socketCurrent)
  {
  }

  lemma CurrentDemandDecided(s: Evcc, id: SessionId, code: ResponseCode, current: PhysicalValue, i: EvInput)
    requires s.state == AwaitCurrentDemand && (i.socketCurrent.Some? || -1.0 < ToReal(current) < 65536.0)
    ensures var t := After(s, CurrentDemandRes(id, code, current), i);
            && LeadsTo(t, i, Good(s, id, code),
                       if !i.enable && NoCurrent(ToReal(current), i.socketCurrent) then AwaitPowerDelivery else AwaitCurrentDemand)
            && (t.state == AwaitCurrentDemand && s.powerTimer.duration != 0 ==>
                  !t.entered && t.powerTimer == Timer(i.now, s.powerTimer.duration, 1))
  {
    CurrentHeard(s, id, code, current);
    var n := EvccSpec.Asked(OnFrame(s, CurrentDemandRes(id, code, current)), i);
    Turns(OnFrame(s, CurrentDemandRes(id, code, current)), i);
    hide Operate;
    hide OnFrame;
    hide EvccSpec.Asked;
    hide ToReal;
    hide Truncate16;
    if code == OK {
      StopMeans(StopRepeat(n), i);
    }
    hide MayStop;
    hide NoCurrent;
  }

  lemma WeldingDetectionEnds(s: Evcc, id: SessionId, code: ResponseCode, i: EvInput)
    requires s.state == AwaitWeldingDetection
    ensures LeadsTo(After(s, WeldingDetectionRes(id, code), i), i, Good(s, id, code), AwaitSessionStop)
  {
    PlainHeard(s, WeldingDetectionRes(id, code));
    Turns(OnFrame(s, WeldingDetectionRes(id, code)), i);
    hide Operate;
    hide OnFrame;
    hide EvccSpec.Asked;
  }

  lemma SessionStopEnds(s: Evcc, id: SessionId, code: ResponseCode, i: EvInput)
    requires s.state == AwaitSessionStop
    ensures LeadsTo(After(s, SessionStopRes(id, code), i), i, Good(s, id, code), AwaitDisconnection)
  {
    PlainHeard(s, SessionStopRes(id, code));
    Turns(OnFrame(s, SessionStopRes(id, code)), i);
    hide Operate;
    hide OnFrame;
    hide EvccSpec.Asked;
  }

  // ---- When and what the vehicle asks ----

  predicate RunOut(t: Timer, now: nat) {
    t.Active() && t.Get(now) > t.duration
  }

  /** A state asks when it is entered, and the five states that repeat their request when their timer has run out. */
  lemma AskedWhen(s: Evcc, i: EvInput)
    requires InSession(s.state)
    ensures Output(s, i).tcp != [] <==>
              || s.entered
              || (s.state == AwaitCurrentDemand && RunOut(s.powerTimer, i.now))
              || ((s.state == AwaitAuthorization || s.state == AwaitChargingStatus || s.state == AwaitCableCheck || s.state == AwaitPreCharge)
                  && RunOut(s.repeatTimer, i.now))
  {
    SessionOperate(s, i);
    hide Operate;
    hide Request;
  }

  lemma RequestSent(s: Evcc, i: EvInput)
    requires InSession(s.state) && Output(s, i).tcp != []
    ensures var n := Actuate(s, i);
            && InSession(n.state) && Output(s, i) == EvOutput([], [Request(n, i)], Keep)
            && n.state == s.state && n.secc == s.secc && n.info == s.info
            && (s.state == AwaitCurrentDemand ==> n.ev.contactor == (s.ev.contactor || s.entered))
  {
    SessionOperate(s, i);
    ActuateKeeps(s, i);
    hide Operate;
    hide Request;
    hide SendDue;
  }

  /** The requests whose content is fixed by the session, the transfer mode and the wish to charge. */
  lemma RequestSaid(s: Evcc, i: EvInput)
    requires InSession(s.state) && Output(s, i).tcp != []
    ensures var sent, id := Output(s, i).tcp, s.secc.sessionId;
            match s.state
            case AwaitAppProtocol => sent == [AppProtocolReq([Dialect("urn:iso:15118:2:2013:MsgDef", 10)])]
            case AwaitSessionSetup => sent == [SessionSetupReq([0, 0, 0, 0, 0, 0, 0, 0])]
            case AwaitServiceDiscovery => sent == [ServiceDiscoveryReq(id)]
            case AwaitPaymentServiceSelection => sent == [PaymentServiceSelectionReq(id)]
            case AwaitAuthorization => sent == [AuthorizationReq(id)]
            case AwaitChargeParameterDiscovery => sent == [ChargeParameterDiscoveryReq(id, s.info.transferMode)]
            case AwaitPowerDelivery => sent == [PowerDeliveryReq(id, s.info.transferMode, if i.enable then Start else Stop)]
            case AwaitChargingStatus => sent == [ChargingStatusReq(id)]
            case AwaitSessionStop => sent == [SessionStopReq(id)]
            case AwaitCableCheck => sent == [CableCheckReq(id)]
            case AwaitWeldingDetection => sent == [WeldingDetectionReq(id)]
            case _ => true
  {
    RequestSent(s, i);
    ZeroId();
    hide Operate;
    hide Actuate;
    hide FromReal;
    hide DemandedCurrent;
  }

  lemma ZeroId()
    ensures ZERO_ID == [0, 0, 0, 0, 0, 0, 0, 0]
  {
    OrderOfBytes(0, 8, 0);
    OrderOfBytes(0, 8, 1);
    OrderOfBytes(0, 8, 2);
    OrderOfBytes(0, 8, 3);
    OrderOfBytes(0, 8, 4);
    OrderOfBytes(0, 8, 5);
    OrderOfBytes(0, 8, 6);
    OrderOfBytes(0, 8, 7);
  }

  /** PreCharge asks for the voltage the charger reported last. */
  lemma PreChargeSaid(s: Evcc, i: EvInput)
    requires s.state == AwaitPreCharge && Output(s, i).tcp != []
    ensures var m := Output(s, i).tcp[0];
            m.PreChargeReq? && m.id == s.secc.sessionId && ToReal(m.voltage) == Carry(s.info.memorizedVoltage, 0)
  {
    RequestSent(s, i);
    hide Operate;
    hide Actuate;
    hide FromReal;
    hide ToReal;
  }

  /** The contactor is closed, by its feedback or, with simulated hardware, by its command. */
  predicate ContactorShows(s: Evcc, i: EvInput) {
    match i.contactorFeedback
    case Some(closed) => closed
    case None => s.ev.contactor || s.entered
  }

  /** CurrentDemand asks for ten amperes if charging is wished and the contactor is closed, and for none
      otherwise, at the greatest voltage of the vehicle. */
  lemma CurrentDemandSaid(s: Evcc, i: EvInput)
    requires s.state == AwaitCurrentDemand && Output(s, i).tcp != []
    ensures var m := Output(s, i).tcp[0];
            && m.CurrentDemandReq? && m.id == s.secc.sessionId
            && m.current == PhysicalValue(if i.enable && ContactorShows(s, i) then 10 else 0, 0)
            && ToReal(m.voltage) == Carry(s.info.maxVoltage, 0)
  {
    RequestSent(s, i);
    DemandsSurvive();
    hide Operate;
    hide Actuate;
    hide FromReal;
    hide ToReal;
  }

  // ---- The search for a charger ----

  /** A search goes out on entry and on timeout. The only offer taken is one of plain TCP, and only one. */
  lemma SearchCall(s: Evcc, i: EvInput)
    requires s.state == AwaitSdp
    ensures var t, out := Next(s, i), Output(s, i);
            var due := s.entered || RunOut(s.repeatTimer, i.now);
            var taken := s.received == SdpRes(0x10, 0x00) && (s.entered || !s.connecting);
            var linking := taken || (s.connecting && !s.entered);
            var link := if taken then i.afterOpen else i.client;
            && out.udp == (if due then [SdpReq(0x10)] else []) && out.tcp == [] && out.op == (if taken then Open else Keep)
            && t.state == (if linking && link == Connected then AwaitAppProtocol
                           else if linking && link == Closed then EvFailure
                           else AwaitSdp)
            && t.connecting == linking
            && t.repeatTimer == (if taken then Timer(t.repeatTimer.startTime, s.repeatTimer.duration, 0)
                                 else if due then Timer(i.now, s.repeatTimer.duration, if s.repeatTimer.duration == 0 then 0 else 1)
                                 else s.repeatTimer)
  {
    hide SessionStep;
  }

  // ---- Beginning and end ----

  lemma ByteAppended(n: nat, k: nat, b: byte)
    ensures BigEndianBytes(256 * n + b as nat, k + 1) == BigEndianBytes(n, k) + [b]
  {
  }

  lemma ClearedId()
    ensures CLEARED_ID == [1, 2, 3, 4, 5, 6, 7, 8]
  {
    ByteAppended(0, 0, 1);
    ByteAppended(0x01, 1, 2);
    ByteAppended(0x0102, 2, 3);
    ByteAppended(0x010203, 3, 4);
    ByteAppended(0x01020304, 4, 5);
    ByteAppended(0x0102030405, 5, 6);
    ByteAppended(0x010203040506, 6, 7);
    ByteAppended(0x01020304050607, 7, 8);
    assert BigEndianBytes(0, 0) == [];
    hide BigEndianBytes;
  }

  /** A process that may run forgets its last session and looks for a charger. */
  lemma IdleCall(s: Evcc, i: EvInput)
    requires s.state == EvIdle
    ensures var t := Next(s, i);
            if i.run then
              && t.state == AwaitSdp && Output(s, i) == EvOutput([], [], Close)
              && t.secc == SeccInfo([1, 2, 3, 4, 5, 6, 7, 8], [], false, ProcessingFinished)
              && !t.connecting && !t.repeatTimer.Active() && t.info == s.info
            else t.state == EvIdle && Output(s, i) == EvOutput([], [], Keep) && t.secc == s.secc
  {
    ClearedId();
    hide SessionStep;
  }

  /** After the session the connection is closed, and with it gone the process has finished. */
  lemma DisconnectionCall(s: Evcc, i: EvInput)
    requires s.state == AwaitDisconnection
    ensures Next(s, i).state == (if i.client == Connected then AwaitDisconnection else EvFinished)
    ensures Output(s, i) == EvOutput([], [], if i.client == Connected then Close else Keep)
  {
    hide SessionStep;
  }

  /** A process that has failed closes its connection once; failed or finished, it waits to be stopped. */
  lemma EndCall(s: Evcc, i: EvInput)
    requires s.state == EvFailure || s.state == EvFinished
    ensures Next(s, i).state == (if i.run then s.state else EvIdle)
    ensures Output(s, i) == EvOutput([], [], if s.state == EvFailure && s.entered then Close else Keep)
  {
    hide SessionStep;
  }

  // ---- The pilot ----

  /** The whole rule: CableCheck demands C with every request, PreCharge when it is entered; PowerDelivery and
      CurrentDemand leave the demand alone; every other state takes back C and D to B. */
  lemma PilotExactly(s: Evcc, i: EvInput)
    ensures var p := Next(s, i).pilot;
            p == match s.pilot
                 case None => None
                 case Some(c) =>
                   if s.state == AwaitCableCheck then Some(if Output(s, i).tcp != [] then C_Ready else c)
                   else if s.state == AwaitPreCharge then Some(if s.entered then C_Ready else c)
                   else if s.state == AwaitPowerDelivery || s.state == AwaitCurrentDemand then s.pilot
                   else Some(if c == C_Ready || c == D_ReadyVentilation then B_Connected else c)
  {
    ES.DispatchActuators(s, i);
    if s.state == AwaitCableCheck {
      SessionOperate(s, i);
    }
    hide Dispatch;
    hide Idle;
    hide SendDue;
    hide Request;
  }

  /** A fresh process is idle, with everything off and nothing heard. */
  lemma FreshVehicle(mode: TransferMode, pilot: Option<CpState>, now: nat)
    ensures var s := EvccSpec.Initial(mode, pilot, now);
            && s.state == EvIdle && !s.entered && !s.connecting && s.received == Empty && s.pilot == pilot
            && !s.repeatTimer.Active() && !s.powerTimer.Active() && !s.ev.contactor && s.ev.voltageValue == s.ev.currentValue == 0
            && s.secc == SeccInfo([1, 2, 3, 4, 5, 6, 7, 8], [], false, ProcessingFinished)
            && s.info.transferMode == mode && s.info.memorizedVoltage == 0.0 && s.actualCurrent == 0.0
  {
    ClearedId();
  }

  // ---- Runs ----

  lemma DecideDurations(s: Evcc, i: EvInput)
    requires InSession(s.state) && HasAnswer(s)
    ensures var t := Decide(s, i).s;
            && t.powerTimer.duration == s.powerTimer.duration
            && (t.repeatTimer.duration == s.repeatTimer.duration || (s.state == AwaitCableCheck && t.repeatTimer.duration == 200))
            && t.info.maxVoltage == s.info.maxVoltage
  {
    hide Negotiate;
    hide ResponseIsValid;
    hide MeetsVoltage;
    hide MayStop;
    hide Truncate16;
  }

  /** Only CableCheck sets a timer to another time, and the vehicle's greatest voltage never changes. */
  lemma CallKeepsSettings(s: Evcc, i: EvInput)
    ensures var t := Next(s, i);
            && t.powerTimer.duration == s.powerTimer.duration
            && (t.repeatTimer.duration == s.repeatTimer.duration || t.repeatTimer.duration == 200)
            && t.info.maxVoltage == s.info.maxVoltage
  {
    if InSession(s.state) {
      if HasAnswer(s) {
        Turns(s, i);
        DecideDurations(EvccSpec.Asked(s, i), i);
      } else {
        Unanswered(s, i);
      }
      hide Operate;
      hide EvccSpec.Asked;
      hide Decide;
    } else {
      OutsideSession(s, i);
      OutsideSettings(s, i);
    }
  }

  lemma Unanswered(s: Evcc, i: EvInput)
    requires InSession(s.state) && !HasAnswer(s)
    ensures var t := Next(s, i);
            && t.powerTimer.duration == s.powerTimer.duration && t.repeatTimer.duration == s.repeatTimer.duration && t.info == s.info
  {
    SessionOperate(s, i);
    AskingKeeps(s, i);
    DurationsKept(s, i);
    hide Operate;
    hide HasAnswer;
    hide EvccSpec.Asked;
    hide AskedOutput;
  }

  lemma OutsideSettings(s: Evcc, i: EvInput)
    requires !InSession(s.state)
    ensures var t := Next(s, i);
            && t.powerTimer.duration == s.powerTimer.duration && t.repeatTimer.duration == s.repeatTimer.duration
  {
    hide SessionStep;
  }

  lemma FrameKeepsSettings(s: Evcc, m: Message)
    ensures var t := OnFrame(s, m);
            t.repeatTimer == s.repeatTimer && t.powerTimer == s.powerTimer && t.info.maxVoltage == s.info.maxVoltage
  {
    hide ToReal;
  }

  /** In every run of a fresh vehicle the power timer is set to 1000, the repeat timer to 1000 or, since a
      CableCheck that took longer, to 200, and the greatest voltage is 400 V. */
  lemma {:induction false} Settings(mode: TransferMode, pilot: Option<CpState>, now: nat, es: seq<Event>)
    ensures var t := Run(EvccSpec.Initial(mode, pilot, now), es).s;
            && t.powerTimer.duration == 1000 && (t.repeatTimer.duration == 1000 || t.repeatTimer.duration == 200)
            && t.info.maxVoltage == 400.0
  {
    hide Operate;
    hide OnFrame;
    if es != [] {
      var before, e := Run(EvccSpec.Initial(mode, pilot, now), es[..|es| - 1]), es[|es| - 1];
      Settings(mode, pilot, now, es[..|es| - 1]);
      match e
      case Frame(m) => FrameKeepsSettings(before.s, m);
      case Cycle(i) => CallKeepsSettings(before.s, i);
      case SetMode(_) =>
    }
  }

  /** So every current demand of a run asks for 400 V. */
  lemma DemandedVoltage(mode: TransferMode, pilot: Option<CpState>, now: nat, es: seq<Event>, i: EvInput)
    ensures var t := Run(EvccSpec.Initial(mode, pilot, now), es).s;
            t.state == AwaitCurrentDemand && Output(t, i).tcp != [] ==>
              Output(t, i).tcp[0].CurrentDemandReq? && ToReal(Output(t, i).tcp[0].voltage) == 400.0
  {
    Settings(mode, pilot, now, es);
    var t := Run(EvccSpec.Initial(mode, pilot, now), es).s;
    hide Run;
    hide Operate;
    if t.state == AwaitCurrentDemand && Output(t, i).tcp != [] {
      CurrentDemandSaid(t, i);
      Volts400();
    }
    hide ToReal;
    hide FromReal;
  }

  lemma Volts400()
    ensures Carry(400.0, 0) == 400.0
  {
    assert Scaled(400, 0) == 400.0;
    RoundTripExact(400, 0);
  }

  /** What the slot holds has been stored. */
  predicate Stored(s: Evcc) {
    && (s.received.CableCheckRes? && s.received.code == OK ==> s.secc.processing == s.received.processing)
    && (s.received.AuthorizationRes? && s.received.code == OK ==> s.secc.authorized == (s.received.processing == ProcessingFinished))
  }

  lemma FrameStores(s: Evcc, m: Message)
    requires Stored(s)
    ensures Stored(OnFrame(s, m))
  {
    hide ToReal;
  }

  lemma {:induction false} RunStores(s: Evcc, es: seq<Event>)
    requires s.received == Empty
    ensures Stored(Run(s, es).s)
  {
    hide Operate;
    hide OnFrame;
    if es != [] {
      var before, e := Run(s, es[..|es| - 1]), es[|es| - 1];
      RunStores(s, es[..|es| - 1]);
      match e
      case Frame(m) => FrameStores(before.s, m);
      case Cycle(i) => ES.SlotEmptied(before.s, i);
      case SetMode(_) =>
    }
  }

  /** A response in the slot that says that the charger has finished. */
  predicate SaysFinished(s: Evcc) {
    if s.state == AwaitCableCheck then s.received == CableCheckRes(s.secc.sessionId, OK, ProcessingFinished)
    else s.received == AuthorizationRes(s.secc.sessionId, OK, ProcessingFinished)
  }

  /** PreCharge is entered from CableCheck and ChargeParameterDiscovery from Authorization only over such a response. */
  lemma EnteredOver(s: Evcc, i: EvInput)
    requires Stored(s)
    ensures Next(s, i).state == AwaitPreCharge && s.state != AwaitPreCharge ==> s.state == AwaitCableCheck && SaysFinished(s)
    ensures Next(s, i).state == AwaitChargeParameterDiscovery && s.state != AwaitChargeParameterDiscovery ==>
              s.state == AwaitAuthorization && SaysFinished(s)
  {
    if InSession(s.state) {
      if HasAnswer(s) {
        Turns(s, i);
        DecidedOver(EvccSpec.Asked(s, i), i);
      } else {
        SessionOperate(s, i);
      }
      hide Operate;
      hide EvccSpec.Asked;
      hide Decide;
      hide HasAnswer;
    } else {
      OutsideSession(s, i);
    }
  }

  lemma DecidedOver(s: Evcc, i: EvInput)
    requires InSession(s.state) && HasAnswer(s) && Stored(s)
    ensures Decide(s, i).next == AwaitPreCharge && s.state != AwaitPreCharge ==> s.state == AwaitCableCheck && SaysFinished(s)
    ensures Decide(s, i).next == AwaitChargeParameterDiscovery && s.state != AwaitChargeParameterDiscovery ==>
              s.state == AwaitAuthorization && SaysFinished(s)
  {
    hide Negotiate;
    hide MeetsVoltage;
    hide MayStop;
    hide Truncate16;
  }

  /** Whenever a vehicle is in PreCharge or in ChargeParameterDiscovery after a run, it came there by a call
      that found a response in its slot which said that the charger had finished, and has stayed since. */
  lemma {:induction false} EnteredWhenFinished(s: Evcc, es: seq<Event>, state: EvState) returns (k: nat)
    requires s.received == Empty && s.state == EvIdle
    requires state == AwaitPreCharge || state == AwaitChargeParameterDiscovery
    requires Run(s, es).s.state == state
    ensures k < |es| && es[k].Cycle?
    ensures var h := Run(s, es[..k]);
            h.s.state == (if state == AwaitPreCharge then AwaitCableCheck else AwaitAuthorization) && SaysFinished(h.s)
    ensures forall j :: k < j <= |es| ==> Run(s, es[..j]).s.state == state
  {
    hide Operate;
    hide OnFrame;
    hide SaysFinished;
    assert es != [];
    var n := |es| - 1;
    var before := Run(s, es[..n]);
    RunStores(s, es[..n]);
    assert es[..|es|] == es;
    if before.s.state == state {
      k := EnteredWhenFinished(s, es[..n], state);
      assert es[..n][..k] == es[..k];
      forall j | k < j <= |es|
        ensures Run(s, es[..j]).s.state == state
      {
        if j <= n {
          assert es[..n][..j] == es[..j];
        }
      }
    } else {
      k := n;
      match es[n]
      case Frame(m) => FrameKeeps(before.s, m);
      case Cycle(i) => EnteredOver(before.s, i);
      case SetMode(_) =>
    }
  }

  /** What is in the slot after a run has come as a frame. */
  lemma {:induction false} CameAsFrame(s: Evcc, es: seq<Event>) returns (m: nat)
    requires s.received == Empty && Run(s, es).s.received != Empty
    ensures m < |es| && es[m] == Frame(Run(s, es).s.received)
  {
    hide Operate;
    hide OnFrame;
    assert es != [];
    var n := |es| - 1;
    var before := Run(s, es[..n]);
    match es[n]
    case Frame(f) =>
      FrameInSlot(before.s, f);
      if OnFrame(before.s, f).received == f {
        m := n;
      } else {
        m := CameAsFrame(s, es[..n]);
      }
    case Cycle(i) => ES.SlotEmptied(before.s, i);
    case SetMode(_) => m := CameAsFrame(s, es[..n]);
  }

  /** Idle and finished drop every frame; otherwise a request leaves the slot empty and a response stays in it. */
  lemma FrameInSlot(s: Evcc, m: Message)
    ensures OnFrame(s, m).received ==
            if s.state == EvIdle || s.state == EvFinished then s.received else if IsRequest(m) then Empty else m
  {
    hide ToReal;
  }
}
