// The two machines stay in step: on loss-free links every request and response is the one the other
// side expects.

module Lockstep {
  import opened V2g
  import opened PhysicalValues
  import opened ByteArrays
  import opened Timers
  import opened EvccSpec
  import opened SeccSpec
  import opened ChargingSystem
  import ER = EvccRuns
  import SR = SeccRuns

  // ---- Messages ----

  function CodeOf(m: Message): Option<ResponseCode> {
    match m
    case SessionSetupRes(_, code) => Some(code)
    case ServiceDiscoveryRes(_, code, _) => Some(code)
    case PaymentServiceSelectionRes(_, code) => Some(code)
    case AuthorizationRes(_, code, _) => Some(code)
    case ChargeParameterDiscoveryRes(_, code) => Some(code)
    case PowerDeliveryRes(_, code) => Some(code)
    case ChargingStatusRes(_, code) => Some(code)
    case SessionStopRes(_, code) => Some(code)
    case CableCheckRes(_, code, _) => Some(code)
    case PreChargeRes(_, code, _) => Some(code)
    case CurrentDemandRes(_, code, _) => Some(code)
    case WeldingDetectionRes(_, code) => Some(code)
    case ServiceDetailRes(_, code) => Some(code)
    case _ => None
  }

  /** A response of type k that the vehicle accepts in the session id. */
  predicate Succeeds(m: Message, k: Kind, id: SessionId) {
    && KindOf(m) == k && IsResponse(m)
    && (k == KAppProtocol ==> m == AppProtocolRes(true, OWN_SCHEMA))
    && (k == KSessionSetup ==> CodeOf(m) == Some(OK_NewSessionEstablished))
    && (k != KAppProtocol && k != KSessionSetup ==> CodeOf(m) == Some(OK))
    && (k != KAppProtocol ==> HeaderId(m) == Some(id))
  }

  /** A request of type k in the session id. */
  predicate Requests(m: Message, k: Kind, id: SessionId) {
    && KindOf(m) == k && IsRequest(m)
    && (k == KAppProtocol ==> m == AppProtocolReq([Dialect(ISO_2013, OWN_SCHEMA)]))
    && (k != KAppProtocol && k != KSessionSetup ==> HeaderId(m) == Some(id))
  }

  const SDP_OFFER: Message := SdpRes(SECURITY_TCP, TRANSPORT_TCP)
  const SDP_SEARCH: Message := SdpReq(SECURITY_TCP)

  // ---- The invariant ----

  /** The vehicle knows the id of its session. */
  predicate Named(state: EvState) {
    InSession(state) && state != AwaitAppProtocol && state != AwaitSessionSetup
  }

  /** The charger expects the request the vehicle's state sends. */
  predicate Ready(ev: EvState, se: SeState)
    requires InSession(ev)
  {
    Route(se, Asks(ev)).Some?
  }

  /** The charger has answered the request the vehicle's state sends. */
  predicate HasReplied(ev: EvState, se: SeState)
    requires InSession(ev)
  {
    IsAnswering(se) && SR.Answers(se) == Asks(ev)
  }

  predicate Dialogue(ev: Evcc, se: Secc, toSe: seq<Message>, toEv: seq<Message>)
    requires InSession(ev.state)
  {
    var k := Asks(ev.state);
    if ev.entered then toSe == [] && toEv == [] && Ready(ev.state, se.state)
    else if toSe != [] then
      |toSe| == 1 && toEv == [] && !ER.WillRepeat(ev) && Ready(ev.state, se.state) && Requests(toSe[0], k, ev.secc.sessionId)
    else if toEv != [] then
      |toEv| == 1 && !ER.WillRepeat(ev) && HasReplied(ev.state, se.state) && Succeeds(toEv[0], k, se.info.sessionId)
    else ER.WillRepeat(ev) && HasReplied(ev.state, se.state)
  }

  predicate InDialogue(w: World) {
    && InSession(w.ev.state) && w.client == Connected && !w.closed && w.udpToEv == []
    && w.backlog != w.se.hasClient && (w.backlog ==> w.se.state == AnsweredSdp)
    && Dialogue(w.ev, w.se, w.toSe, w.toEv)
    && (Named(w.ev.state) ==> w.ev.secc.sessionId == w.se.info.sessionId)
  }

  predicate Quiet(w: World) {
    w.toSe == [] && w.toEv == []
  }

  /** The states of a vehicle without a connection. */
  predicate Alone(ev: Evcc) {
    match ev.state
    case EvIdle => true
    case EvFinished => true
    case AwaitDisconnection => true
    case AwaitSdp => !ev.connecting
    case EvFailure => !ev.entered
    case _ => false
  }

  predicate Apart(w: World) {
    && Alone(w.ev) && w.client == Closed && !w.backlog && Quiet(w)
    && w.closed == w.se.hasClient
    && (if w.se.hasClient then w.se.state == AnsweredSessionStop || w.se.state == AnsweredServiceDiscovery
        else !IsAnswering(w.se.state) || w.se.state == AnsweredSdp)
    && (w.udpToEv == [] || (w.udpToEv == [SDP_OFFER] && w.se.state == AnsweredSdp && !w.se.hasClient))
  }

  /** The vehicle has an offer and is establishing its connection. */
  predicate Linking(w: World) {
    && w.ev.state == AwaitSdp && w.ev.connecting && !w.ev.entered && Quiet(w) && w.udpToEv == [] && !w.closed
    && w.se.state == AnsweredSdp
    && ((w.client == Opening && !w.backlog && !w.se.hasClient) || (w.client == Connected && w.backlog != w.se.hasClient))
  }

  /** The vehicle is through with the charger but has not yet closed its connection. */
  predicate Parting(w: World) {
    && w.client == Connected && !w.closed && !w.backlog && w.se.hasClient && Quiet(w) && w.udpToEv == []
    && ((w.ev.state == AwaitDisconnection && w.se.state == AnsweredSessionStop)
        || (w.ev.state == EvFailure && w.ev.entered && w.se.state == AnsweredServiceDiscovery))
  }

  predicate Common(w: World) {
    && w.ev.received == Empty && w.se.received == Empty && SR.Settled(w.se) && !w.se.security.useTls && !w.overlap
    && (forall m :: m in w.udpToSe ==> m == SDP_SEARCH)
    && w.ev.repeatTimer.duration != 0 && w.ev.powerTimer.duration != 0
  }

  predicate Inv(w: World) {
    Common(w) && (Apart(w) || Linking(w) || InDialogue(w) || Parting(w))
  }

  // ---- The vehicle alone ----

  /** Asking, or waiting with nothing received. */
  lemma EvAsks(s: Evcc, i: EvInput)
    requires InSession(s.state) && s.received == Empty && i.client == Connected
    ensures var t := ER.Next(s, i);
            var out := ER.Output(s, i);
            && t.state == s.state && !t.entered && t.received == Empty && t.secc == s.secc && t.info == s.info
            && t.repeatTimer.duration == s.repeatTimer.duration && t.powerTimer.duration == s.powerTimer.duration
            && out.udp == [] && out.op == Keep
            && (SendDue(s, i) ==> out.tcp == [Request(Actuate(s, i), i)] && !ER.WillRepeat(t))
            && (!SendDue(s, i) ==> out.tcp == [] && !s.entered && ER.WillRepeat(t) == ER.WillRepeat(s))
  {
    hide EvccSpec.Operate;
    hide Request;
    ER.SessionOperate(s, i);
    ER.Waiting(s, i);
    ER.ActuateKeeps(s, i);
    ActuateKeepsSecc(s, i);
    NothingAnswered(s, i);
  }

  lemma ActuateKeepsSecc(s: Evcc, i: EvInput)
    ensures Actuate(s, i).secc == s.secc && Actuate(s, i).info == s.info
  {
    hide SendDue;
  }

  lemma NothingAnswered(s: Evcc, i: EvInput)
    requires InSession(s.state) && s.received == Empty
    ensures ER.Next(s, i).secc == s.secc
    ensures !HasAnswer(s)
  {
    hide StopRepeat;
    hide SendDue;
    hide Request;
    hide Actuate;
    hide HasAnswer;
    hide Decide;
    NoAnswer(s);
    ER.AskingKeeps(s, i);
  }

  lemma NoAnswer(s: Evcc)
    requires InSession(s.state) && s.received == Empty
    ensures !HasAnswer(s)
  {
  }

  /** Where a successful response takes the vehicle. */
  predicate MovesOn(from: EvState, to: EvState) {
    match from
    case AwaitAppProtocol => to == AwaitSessionSetup
    case AwaitSessionSetup => to == AwaitServiceDiscovery
    case AwaitServiceDiscovery => to == AwaitPaymentServiceSelection
    case AwaitPaymentServiceSelection => to == AwaitAuthorization
    case AwaitAuthorization => to == AwaitChargeParameterDiscovery
    case AwaitChargeParameterDiscovery => to == AwaitPowerDelivery || to == AwaitCableCheck
    case AwaitPowerDelivery =>
      to == AwaitChargingStatus || to == AwaitCurrentDemand || to == AwaitSessionStop || to == AwaitWeldingDetection
    case AwaitChargingStatus => to == AwaitPowerDelivery
    case AwaitSessionStop => to == AwaitDisconnection
    case AwaitCableCheck => to == AwaitPreCharge
    case AwaitPreCharge => to == AwaitPowerDelivery
    case AwaitCurrentDemand => to == AwaitPowerDelivery
    case AwaitWeldingDetection => to == AwaitSessionStop
    case _ => false
  }

  predicate NoCommonMode(s: Evcc) {
    s.state == AwaitServiceDiscovery && !Negotiate(s.info.transferMode, s.secc.modes).1
  }

  /** What a state does with a successful response: it moves on, pauses before it asks again, or, with no
      common transfer mode, gives up. */
  lemma DecideSuccess(s: Evcc, i: EvInput, id: SessionId)
    requires InSession(s.state) && Succeeds(s.received, Asks(s.state), id)
    requires Named(s.state) || s.state == AwaitSessionSetup ==> s.secc.sessionId == id
    requires s.repeatTimer.duration != 0 && s.powerTimer.duration != 0
    ensures HasAnswer(s)
    ensures var v := Decide(s, i);
            && (MovesOn(s.state, v.next)
                || (v.next == s.state && ER.WillRepeat(v.s))
                || (v.next == EvFailure && NoCommonMode(s)))
            && v.s.secc == s.secc && v.s.state == s.state
            && v.s.repeatTimer.duration != 0 && v.s.powerTimer.duration != 0
  {
    hide MeetsVoltage;
    hide MayStop;
    hide Truncate16;
    hide Negotiate;
  }

  lemma EvConsumes(s: Evcc, i: EvInput, id: SessionId)
    requires InSession(s.state) && !s.entered && !ER.WillRepeat(s) && i.client == Connected
    requires Succeeds(s.received, Asks(s.state), id)
    requires Named(s.state) || s.state == AwaitSessionSetup ==> s.secc.sessionId == id
    requires s.repeatTimer.duration != 0 && s.powerTimer.duration != 0
    ensures var t := ER.Next(s, i);
            && (MovesOn(s.state, t.state)
                || (t.state == s.state && ER.WillRepeat(t))
                || (t.state == EvFailure && NoCommonMode(s)))
            && (t.entered <==> t.state != s.state)
            && t.received == Empty && t.secc == s.secc
            && t.repeatTimer.duration != 0 && t.powerTimer.duration != 0
    ensures ER.Output(s, i) == EvOutput([], [], Keep)
  {
    hide Decide;
    hide Request;
    hide Actuate;
    hide HasAnswer;
    hide Succeeds;
    hide MovesOn;
    hide NoCommonMode;
    DecideSuccess(s, i, id);
    ER.SessionOperate(s, i);
    NotDue(s, i);
    assert EvccSpec.Asked(s, i) == s;
  }

  lemma NotDue(s: Evcc, i: EvInput)
    requires InSession(s.state) && !s.entered && !ER.WillRepeat(s)
    ensures !SendDue(s, i) && EvccSpec.Asked(s, i) == s
    ensures AskedOutput(s, i) == EvOutput([], [], Keep)
  {
  }

  lemma EvReceives(s: Evcc, m: Message, id: SessionId)
    requires InSession(s.state) && Succeeds(m, Asks(s.state), id)
    ensures var t := EvccSpec.OnFrame(s, m);
            && t == s.(received := m, secc := t.secc, info := t.info, actualCurrent := t.actualCurrent)
            && t.secc.sessionId == if s.state == AwaitSessionSetup then id else s.secc.sessionId
  {
    hide ToReal;
  }

  // ---- The charger alone ----

  /** A response to an expected request is one that the vehicle accepts. */
  lemma ResponseSucceeds(before: Secc, s: Secc, i: SeInput)
    requires IsAnswering(s.state) && s.state != AnsweredSdp
    requires s.state == AnsweredAppProtocol ==> s.vehicle.schemaId == OWN_SCHEMA
    ensures Succeeds(Response(before, s, i), SR.Answers(s.state), s.info.sessionId)
  {
    hide FromReal;
    hide ReadSource;
  }

  lemma AppProtocolUnderstood(s: Secc, m: Message, id: SessionId)
    requires Requests(m, KAppProtocol, id) && s.state != SeIdle && s.state != SeFinished
    ensures SeccSpec.OnFrame(s, m).vehicle.schemaId == OWN_SCHEMA
  {
    var d := Dialect(ISO_2013, OWN_SCHEMA);
    assert [d][|[d]| - 1] == d;
  }

  lemma SeReceives(s: Secc, m: Message)
    requires IsRequest(m) && !m.SdpReq? && s.state != SeIdle && s.state != SeFinished
    ensures var t := SeccSpec.OnFrame(s, m);
            t == s.(received := m, vehicle := t.vehicle, demand := t.demand, demandedCurrent := t.demandedCurrent)
  {
    hide ToReal;
    hide ChosenSchema;
  }

  /** A search for a charger changes nothing but the unread message. */
  lemma SeReceivesSearch(s: Secc)
    requires !s.security.useTls
    ensures SeccSpec.OnFrame(s, SDP_SEARCH) == if s.state == SeIdle || s.state == SeFinished then s else s.(received := SDP_SEARCH)
  {
  }

  /** An expected request of the dialogue is answered on the connection. */
  lemma SeReplies(s: Secc, i: SeInput, t: SeState)
    requires SR.Settled(s) && IsRequest(s.received) && s.hasClient && IsAnswering(s.state)
    requires Route(s.state, KindOf(s.received)) == Some(t)
    requires t == AnsweredAppProtocol ==> s.vehicle.schemaId == OWN_SCHEMA
    ensures var p := SeccSpec.Operate(s, i);
            && IsAnswering(t) && SR.Answers(t) == KindOf(s.received)
            && p.s.state == t && !p.s.entered && p.s.received == Empty && p.s.hasClient
            && p.s.security == s.security
            && (KindOf(s.received) != KSessionSetup ==> p.s.info == s.info)
            && |p.sent| == 1 && p.sent[0].Tcp? && Succeeds(p.sent[0].message, KindOf(s.received), p.s.info.sessionId)
  {
    hide SeccSpec.Operate;
    hide Response;
    hide Answer;
    hide Command;
    hide NextId;
    hide KindOf;
    hide IsRequest;
    hide Succeeds;
    hide ControlContactor;
    SR.OperateOnRequest(s, i, t);
    SR.RouteFacts(s.state, KindOf(s.received), t);
    SR.RouteLeadsToAnswer(s.state, KindOf(s.received), t);
    var e := SR.EnteredWith(s, t);
    SR.AnswerFacts(e, i);
    var u := Prepare(e).(source := Command(e, i));
    ResponseSucceeds(e, u, i);
    SentOnConnection(Response(e, u, i), t, u.info.sessionId);
    TailKeeps(SR.EnteredWith(s, t), i);
    TailKeeps(Answer(e, i).s.(state := t, entered := false), i);
  }

  lemma SentOnConnection(m: Message, t: SeState, id: SessionId)
    requires IsAnswering(t) && t != AnsweredSdp && Succeeds(m, SR.Answers(t), id)
    ensures Transmit(true, m) == [Tcp(m)]
  {
  }

  lemma TailKeeps(s: Secc, i: SeInput)
    ensures var t := SR.Tail(s, i);
            t == s.(hasClient := t.hasClient, mainContactor := t.mainContactor)
            && (s.hasClient ==> t.hasClient)
            && (!s.hasClient && !s.security.useTls ==> t.hasClient == (i.connection != NoConnection))
  {
  }

  /** Without an expected request an answering state with its client stays as it is. */
  lemma SeWaits(s: Secc, i: SeInput)
    requires SR.Settled(s) && IsAnswering(s.state) && (s.hasClient || s.state == AnsweredSdp) && !s.security.useTls
    requires Route(s.state, KindOf(s.received)) == None
    ensures var p := SeccSpec.Operate(s, i);
            && p.s.state == s.state && !p.s.entered && p.s.received == Empty && p.s.security == s.security && p.s.info == s.info
            && p.s.vehicle == s.vehicle && p.s.demand == s.demand && p.s.source == SwitchOff(s).source
            && p.sent == [] && !p.result
            && p.s.hasClient == (s.hasClient || i.connection != NoConnection)
  {
    hide OnePass;
    hide Route;
    hide KindOf;
    SR.PassWithoutEntry(SwitchOff(s), i);
    TailKeeps(OnePass(SwitchOff(s), i).s, i);
  }

  /** The offer goes out on UDP alone while no client is connected. */
  lemma SeOffers(s: Secc, i: SeInput)
    requires SR.Settled(s) && s.state == SeAwaitSdp && s.received == SDP_SEARCH && !s.hasClient && !s.security.useTls
    requires i.connection == NoConnection
    ensures var p := SeccSpec.Operate(s, i);
            && p.s.state == AnsweredSdp && !p.s.entered && p.s.received == Empty && !p.s.hasClient
            && p.s.security == s.security && p.sent == [Udp(SDP_OFFER)]
  {
    hide SeccSpec.Operate;
    hide OnePass;
    hide ControlContactor;
    hide SR.Tail;
    SR.OperateOnRequest(s, i, AnsweredSdp);
    var e := SR.EnteredWith(s, AnsweredSdp);
    SR.AnswerFacts(e, i);
    TailKeeps(Answer(e, i).s.(state := AnsweredSdp, entered := false), i);
  }

  predicate Offers(s: Secc) {
    s.state == SeAwaitSdp && s.received == SDP_SEARCH
  }

  /** Outside the dialogue and without a search the charger stays outside the dialogue. */
  lemma SeIdles(s: Secc, i: SeInput)
    requires SR.Settled(s) && !IsAnswering(s.state) && (s.received == Empty || s.received == SDP_SEARCH) && !s.hasClient
    requires !Offers(s) && !s.security.useTls && i.connection == NoConnection
    ensures var p := SeccSpec.Operate(s, i);
            && !IsAnswering(p.s.state) && p.s.received == Empty && SR.Settled(p.s) && !p.s.hasClient
            && p.s.security == s.security && p.sent == []
  {
    hide OnePass;
    SR.OperateSettles(s, i);
    var u := SwitchOff(s);
    SR.PassOutsideDialogue(u, i);
    var first := OnePass(u, i);
    if first.s.entered {
      SR.PassOutsideDialogue(first.s.(received := Empty), i);
      TailKeeps(OnePass(first.s.(received := Empty), i).s, i);
    } else {
      TailKeeps(first.s, i);
    }
  }

  /** The vehicle has gone: the charger finishes, or fails if the session was not over. */
  lemma SeLosesClient(s: Secc, i: SeInput)
    requires SR.Settled(s) && (s.state == AnsweredSessionStop || s.state == AnsweredServiceDiscovery) && !s.hasClient
    requires (s.received == Empty || s.received == SDP_SEARCH) && !s.security.useTls && i.connection == NoConnection
    ensures var p := SeccSpec.Operate(s, i);
            && !IsAnswering(p.s.state) && p.s.received == Empty && SR.Settled(p.s) && !p.s.hasClient
            && p.s.security == s.security && p.sent == []
  {
    hide OnePass;
    SR.OperateSettles(s, i);
    var u := SwitchOff(s);
    SR.PassWithoutEntry(u, i);
    var first := OnePass(u, i);
    SR.PassOutsideDialogue(first.s.(received := Empty), i);
    TailKeeps(OnePass(first.s.(received := Empty), i).s, i);
  }

  // ---- The vehicle outside a session ----

  lemma EvAlone(s: Evcc, i: EvInput)
    requires Alone(s) && (s.received == Empty || s.received == SDP_OFFER) && i.client == Closed && i.afterOpen != Closed
    requires s.repeatTimer.duration != 0 && s.powerTimer.duration != 0
    ensures var t := ER.Next(s, i);
            var out := ER.Output(s, i);
            && t.received == Empty && t.repeatTimer.duration != 0 && t.powerTimer.duration != 0
            && out.tcp == [] && (out.udp == [] || out.udp == [SDP_SEARCH])
            && (if s.state == AwaitSdp && s.received == SDP_OFFER then
                  && out.op == Open && t.connecting
                  && t.state == (if i.afterOpen == Connected then AwaitAppProtocol else AwaitSdp)
                  && (t.entered <==> t.state == AwaitAppProtocol)
                else out.op != Open && Alone(t))
  {
    hide SessionStep;
  }

  lemma EvLinks(s: Evcc, i: EvInput)
    requires s.state == AwaitSdp && s.connecting && !s.entered && s.received == Empty && i.client != Closed
    requires s.repeatTimer.duration != 0 && s.powerTimer.duration != 0
    ensures var t := ER.Next(s, i);
            var out := ER.Output(s, i);
            && t.received == Empty && t.repeatTimer.duration != 0 && t.powerTimer.duration != 0
            && out.tcp == [] && (out.udp == [] || out.udp == [SDP_SEARCH]) && out.op == Keep
            && t.connecting
            && t.state == (if i.client == Connected then AwaitAppProtocol else AwaitSdp)
            && (t.entered <==> t.state == AwaitAppProtocol)
  {
    hide SessionStep;
  }

  lemma EvParts(s: Evcc, i: EvInput)
    requires (s.state == AwaitDisconnection || (s.state == EvFailure && s.entered)) && s.received == Empty && i.client == Connected
    requires s.repeatTimer.duration != 0 && s.powerTimer.duration != 0
    ensures var t := ER.Next(s, i);
            && Alone(t) && t.received == Empty && t.repeatTimer.duration != 0 && t.powerTimer.duration != 0
            && (s.state == AwaitDisconnection ==> t.state == s.state)
            && ER.Output(s, i) == EvOutput([], [], Close)
  {
    hide SessionStep;
  }

  // ---- How the states fit together ----

  /** The charger's state after it has answered a request. */
  function Replier(ev: EvState): SeState
    requires InSession(ev)
  {
    match ev
    case AwaitAppProtocol => AnsweredAppProtocol
    case AwaitSessionSetup => AnsweredSessionSetup
    case AwaitServiceDiscovery => AnsweredServiceDiscovery
    case AwaitPaymentServiceSelection => AnsweredPaymentServiceSelection
    case AwaitAuthorization => AnsweredAuthorization
    case AwaitChargeParameterDiscovery => AnsweredChargeParameterDiscovery
    case AwaitPowerDelivery => AnsweredPowerDelivery
    case AwaitChargingStatus => AnsweredChargingStatus
    case AwaitSessionStop => AnsweredSessionStop
    case AwaitCableCheck => AnsweredCableCheck
    case AwaitPreCharge => AnsweredPreCharge
    case AwaitCurrentDemand => AnsweredCurrentDemand
    case AwaitWeldingDetection => AnsweredWeldingDetection
  }

  lemma RepliedState(ev: EvState, se: SeState)
    requires InSession(ev)
    ensures HasReplied(ev, se) <==> se == Replier(ev)
  {
  }

  lemma ReadyAfter(from: EvState, to: EvState, se: SeState)
    requires InSession(from) && HasReplied(from, se) && MovesOn(from, to)
    ensures to != from && (InSession(to) ==> Ready(to, se))
    ensures !InSession(to) ==> to == AwaitDisconnection && se == AnsweredSessionStop
    ensures se != AnsweredSdp && (Named(to) ==> Named(from) || from == AwaitSessionSetup)
  {
    RepliedState(from, se);
    hide HasReplied;
  }

  lemma ReadyToRepeat(ev: Evcc, se: SeState)
    requires InSession(ev.state) && HasReplied(ev.state, se) && ER.WillRepeat(ev)
    ensures Ready(ev.state, se)
  {
  }

  lemma ReadyFacts(ev: EvState, se: SeState)
    requires InSession(ev) && (Ready(ev, se) || HasReplied(ev, se))
    ensures IsAnswering(se) && Asks(ev) != KSdp && Asks(ev) != KEmpty
    ensures HasReplied(ev, se) ==> se != AnsweredSdp
    ensures ev == AwaitServiceDiscovery && HasReplied(ev, se) ==> se == AnsweredServiceDiscovery
    ensures Asks(ev) == KSessionSetup ==> ev == AwaitSessionSetup
    ensures Asks(ev) == KAppProtocol ==> ev == AwaitAppProtocol
  {
  }

  lemma HandshakeFits()
    ensures Route(AnsweredSdp, KAppProtocol) == Some(AnsweredAppProtocol) && Asks(AwaitAppProtocol) == KAppProtocol
  {
  }

  lemma StaysSettled(s: Secc, t: Secc)
    requires SR.Settled(s) && (!t.entered || (t.entered == s.entered && t.state == s.state))
    ensures SR.Settled(t)
  {
  }

  lemma SeTurnKeepsEv(w: World, j: SeInput, udp: bool, tcp: bool, accept: bool)
    ensures SeTurnStep(w, j, udp, tcp, accept).ev == w.ev
  {
    hide SeccSpec.Operate;
    hide SeccSpec.OnFrame;
  }

  lemma InvCommon(w: World)
    requires Inv(w)
    ensures Common(w)
  {
  }

  lemma DialogueFacts(w: World)
    requires InDialogue(w)
    ensures InSession(w.ev.state) && !w.closed && (w.backlog ==> !w.se.hasClient)
    ensures w.toSe != [] ==> w.toEv == []
  {
    hide Requests;
    hide Succeeds;
  }

  lemma NoRoute(se: SeState)
    ensures Route(se, KEmpty) == None && (IsAnswering(se) ==> Route(se, KSdp) == None)
  {
  }

  lemma RequestIsExpected(s: Evcc, i: EvInput)
    requires InSession(s.state)
    ensures Requests(Request(s, i), Asks(s.state), s.secc.sessionId)
  {
    hide FromReal;
    hide DemandedCurrent;
  }

  // ---- The vehicle's turn ----

  lemma OfferReceived(s: Evcc)
    ensures EvccSpec.OnFrame(s, SDP_OFFER) == if s.state == EvIdle || s.state == EvFinished then s else s.(received := SDP_OFFER)
  {
  }

  /** The vehicle takes an offer and opens its connection. */
  lemma EvTurnConnects(w: World, i: EvInput, udp: bool, tcp: bool)
    requires Common(w) && Apart(w) && w.ev.state == AwaitSdp && EvReads(w, udp, tcp).ev.received == SDP_OFFER
    ensures Inv(EvTurnStep(w, i, udp, tcp))
  {
    hide EvccSpec.Operate;
    hide EvccSpec.OnFrame;
    hide Route;
    hide Asks;
    hide SR.Settled;
    hide Apart;
    OfferComes(w, udp, tcp);
    OfferReceived(w.ev);
    var r := EvReads(w, udp, tcp);
    EvAlone(r.ev, WithStatus(r, i));
    HandshakeFits();
  }

  lemma OfferComes(w: World, udp: bool, tcp: bool)
    requires Common(w) && Apart(w) && EvReads(w, udp, tcp).ev.received == SDP_OFFER
    ensures w.client == Closed && !w.backlog && Quiet(w) && w.udpToEv == [SDP_OFFER] && udp
    ensures w.se.state == AnsweredSdp && !w.se.hasClient && !w.closed && Alone(w.ev)
  {
    hide EvccSpec.OnFrame;
  }

  lemma ApartReads(w: World, udp: bool, tcp: bool)
    requires Common(w) && Apart(w)
    ensures var r := EvReads(w, udp, tcp);
            && r == w.(ev := r.ev, udpToEv := r.udpToEv) && (r.udpToEv == [] || r.udpToEv == w.udpToEv)
            && r.ev == w.ev.(received := r.ev.received) && (r.ev.received == Empty || r.ev.received == SDP_OFFER)
  {
    hide EvccSpec.OnFrame;
    hide SR.Settled;
    OfferReceived(w.ev);
  }

  lemma EvTurnAlone(w: World, i: EvInput, udp: bool, tcp: bool)
    requires Common(w) && Apart(w) && !(w.ev.state == AwaitSdp && EvReads(w, udp, tcp).ev.received == SDP_OFFER)
    ensures Inv(EvTurnStep(w, i, udp, tcp))
  {
    hide EvccSpec.Operate;
    hide EvReads;
    hide InDialogue;
    hide Linking;
    hide Parting;
    hide SR.Settled;
    ApartReads(w, udp, tcp);
    var r := EvReads(w, udp, tcp);
    EvAlone(r.ev, WithStatus(r, i));
  }

  lemma EvTurnApart(w: World, i: EvInput, udp: bool, tcp: bool)
    requires Common(w) && Apart(w)
    ensures Inv(EvTurnStep(w, i, udp, tcp))
  {
    hide EvTurnStep;
    hide EvReads;
    hide Inv;
    hide Apart;
    if w.ev.state == AwaitSdp && EvReads(w, udp, tcp).ev.received == SDP_OFFER {
      EvTurnConnects(w, i, udp, tcp);
    } else {
      EvTurnAlone(w, i, udp, tcp);
    }
  }

  lemma EvTurnLinking(w: World, i: EvInput, udp: bool, tcp: bool)
    requires Common(w) && Linking(w)
    ensures Inv(EvTurnStep(w, i, udp, tcp))
  {
    hide EvccSpec.Operate;
    hide EvccSpec.OnFrame;
    hide Route;
    hide Asks;
    hide SR.Settled;
    EvLinks(w.ev, WithStatus(w, i));
    HandshakeFits();
  }

  lemma EvTurnParting(w: World, i: EvInput, udp: bool, tcp: bool)
    requires Common(w) && Parting(w)
    ensures Inv(EvTurnStep(w, i, udp, tcp))
  {
    hide EvccSpec.Operate;
    hide EvccSpec.OnFrame;
    hide SR.Settled;
    EvParts(w.ev, WithStatus(w, i));
  }

  lemma EvTurnAsking(w: World, i: EvInput, udp: bool, tcp: bool)
    requires Common(w) && InDialogue(w) && (!tcp || w.toEv == [])
    ensures var v := EvTurnStep(w, i, udp, tcp); Common(v) && InDialogue(v)
  {
    hide EvccSpec.Operate;
    hide EvccSpec.OnFrame;
    hide Ready;
    hide HasReplied;
    hide Requests;
    hide Succeeds;
    hide Request;
    hide Asks;
    hide SR.Settled;
    var c := WithStatus(w, i);
    EvAsks(w.ev, c);
    if w.ev.entered || ER.WillRepeat(w.ev) {
      if !w.ev.entered {
        ReadyToRepeat(w.ev, w.se.state);
      }
      RequestIsExpected(Actuate(w.ev, c), c);
      ActuateKeepsSecc(w.ev, c);
      ER.ActuateKeeps(w.ev, c);
    } else {
      NotDue(w.ev, c);
    }
  }

  /** The vehicle with the response in its slot. */
  function Delivered(w: World): World
    requires w.toEv != []
  {
    w.(ev := EvccSpec.OnFrame(w.ev, w.toEv[0]), toEv := w.toEv[1..])
  }

  lemma EvTurnConsumes(w: World, i: EvInput, udp: bool)
    requires Common(w) && InDialogue(w) && w.toEv != []
    ensures var t := ER.Next(Delivered(w).ev, WithStatus(w, i));
            && EvTurnStep(w, i, udp, true) == w.(ev := t, toEv := [])
            && (MovesOn(w.ev.state, t.state)
                || (t.state == w.ev.state && ER.WillRepeat(t))
                || (t.state == EvFailure && NoCommonMode(Delivered(w).ev)))
            && (t.entered <==> t.state != w.ev.state)
            && t.received == Empty && t.repeatTimer.duration != 0 && t.powerTimer.duration != 0
            && (Named(w.ev.state) || w.ev.state == AwaitSessionSetup ==> t.secc.sessionId == w.se.info.sessionId)
  {
    hide EvccSpec.Operate;
    hide EvccSpec.OnFrame;
    hide HasReplied;
    hide Ready;
    hide Requests;
    hide Succeeds;
    hide Asks;
    hide MovesOn;
    hide NoCommonMode;
    hide SR.Settled;
    EvReceives(w.ev, w.toEv[0], w.se.info.sessionId);
    var r := EvReads(w, udp, true);
    assert r == Delivered(w);
    EvConsumes(r.ev, WithStatus(r, i), w.se.info.sessionId);
    assert w.udpToSe + [] == w.udpToSe && w.toSe + [] == w.toSe;
  }

  lemma DeliveredState(w: World)
    requires w.toEv != []
    ensures Delivered(w).ev.state == w.ev.state
  {
    ER.FrameKeeps(w.ev, w.toEv[0]);
  }

  lemma EvTurnConsuming(w: World, i: EvInput, udp: bool)
    requires Common(w) && InDialogue(w) && w.toEv != []
    ensures Inv(EvTurnStep(w, i, udp, true))
  {
    hide EvTurnStep;
    hide EvccSpec.Operate;
    hide EvccSpec.OnFrame;
    hide Ready;
    hide HasReplied;
    hide Asks;
    hide MovesOn;
    hide SR.Settled;
    EvTurnConsumes(w, i, udp);
    DeliveredState(w);
    ReadyFacts(w.ev.state, w.se.state);
    var t := ER.Next(Delivered(w).ev, WithStatus(w, i));
    if MovesOn(w.ev.state, t.state) {
      ReadyAfter(w.ev.state, t.state, w.se.state);
    } else if t.state == w.ev.state {
      assert InDialogue(EvTurnStep(w, i, udp, true));
    } else {
      assert Parting(EvTurnStep(w, i, udp, true));
    }
  }

  lemma EvTurnKeepsInv(w: World, i: EvInput, udp: bool, tcp: bool)
    requires Inv(w)
    ensures Inv(EvTurnStep(w, i, udp, tcp))
  {
    hide EvTurnStep;
    hide Common;
    if Apart(w) {
      EvTurnApart(w, i, udp, tcp);
    } else if Linking(w) {
      EvTurnLinking(w, i, udp, tcp);
    } else if Parting(w) {
      EvTurnParting(w, i, udp, tcp);
    } else if tcp && w.toEv != [] {
      EvTurnConsuming(w, i, udp);
    } else {
      EvTurnAsking(w, i, udp, tcp);
    }
  }

  // ---- The charger's turn ----

  /** A search, if one is read, is the only thing that can be in the slot besides the client's frame. */
  lemma SearchRead(w: World, udp: bool)
    requires Common(w)
    ensures var r := SeReads(w, udp, false);
            && r == w.(se := r.se, udpToSe := r.udpToSe)
            && r.se == w.se.(received := r.se.received) && (r.se.received == Empty || r.se.received == SDP_SEARCH)
            && (forall m :: m in r.udpToSe ==> m == SDP_SEARCH)
  {
    hide SeccSpec.OnFrame;
    hide SR.Settled;
    SeReceivesSearch(w.se);
    if udp && w.udpToSe != [] {
      assert w.udpToSe[0] in w.udpToSe;
      assert forall m :: m in w.udpToSe[1..] ==> m in w.udpToSe;
    }
  }

  /** The charger reads nothing from the connection and stays where it is. */
  lemma SeTurnWaiting(w: World, j: SeInput, udp: bool, tcp: bool, accept: bool)
    requires Common(w) && IsAnswering(w.se.state) && (w.se.hasClient || w.se.state == AnsweredSdp)
    requires tcp && w.se.hasClient ==> w.toSe == [] && !w.closed
    ensures var v := SeTurnStep(w, j, udp, tcp, accept);
            && Common(v)
            && v == w.(se := v.se, udpToSe := v.udpToSe, backlog := w.backlog && !accept)
            && v.se.state == w.se.state && v.se.info == w.se.info && v.se.hasClient == (w.se.hasClient || (w.backlog && accept))
            && v.se.vehicle == w.se.vehicle && v.se.demand == w.se.demand && v.se.source == SwitchOff(w.se).source
            && !v.se.entered
  {
    hide SeccSpec.Operate;
    hide SeccSpec.OnFrame;
    hide Route;
    SearchRead(w, udp);
    var r := SeReads(w, udp, tcp);
    assert r == SeReads(w, udp, false);
    NoRoute(w.se.state);
    SeWaits(r.se, Offered(r, j, accept));
    assert w.udpToEv + [] == w.udpToEv && w.toEv + [] == w.toEv;
  }

  lemma SeTurnLosing(w: World, j: SeInput, udp: bool, accept: bool)
    requires Common(w) && Apart(w) && w.se.hasClient
    ensures Inv(SeTurnStep(w, j, udp, true, accept))
  {
    hide SeccSpec.Operate;
    hide SeccSpec.OnFrame;
    hide SR.Settled;
    SearchRead(w, udp);
    var r := SeReads(w, udp, true);
    StaysSettled(w.se, r.se);
    SeLosesClient(r.se, Offered(r, j, accept));
    assert w.udpToEv + [] == w.udpToEv && w.toEv + [] == w.toEv;
  }

  lemma SeTurnOffers(w: World, j: SeInput, udp: bool, tcp: bool, accept: bool)
    requires Common(w) && Apart(w) && !w.se.hasClient && Offers(SeReads(w, udp, tcp).se)
    ensures Inv(SeTurnStep(w, j, udp, tcp, accept))
  {
    hide SeccSpec.Operate;
    hide SeccSpec.OnFrame;
    hide InDialogue;
    hide Linking;
    hide Parting;
    hide SR.Settled;
    SearchRead(w, udp);
    var r := SeReads(w, udp, tcp);
    StaysSettled(w.se, r.se);
    SeOffers(r.se, Offered(r, j, accept));
    StaysSettled(w.se, SeTurnStep(w, j, udp, tcp, accept).se);
    assert UdpPart([Udp(SDP_OFFER)]) == [SDP_OFFER];
    assert TcpPart([Udp(SDP_OFFER)]) == [];
  }

  lemma SeTurnIdles(w: World, j: SeInput, udp: bool, tcp: bool, accept: bool)
    requires Common(w) && Apart(w) && !w.se.hasClient && !IsAnswering(w.se.state) && !Offers(SeReads(w, udp, tcp).se)
    ensures Inv(SeTurnStep(w, j, udp, tcp, accept))
  {
    hide SeccSpec.Operate;
    hide SeccSpec.OnFrame;
    hide InDialogue;
    hide Linking;
    hide Parting;
    hide SR.Settled;
    SearchRead(w, udp);
    var r := SeReads(w, udp, tcp);
    StaysSettled(w.se, r.se);
    SeIdles(r.se, Offered(r, j, accept));
    assert w.udpToEv + [] == w.udpToEv;
  }

  lemma SeTurnOutside(w: World, j: SeInput, udp: bool, tcp: bool, accept: bool)
    requires Common(w) && Apart(w) && !w.se.hasClient && !IsAnswering(w.se.state)
    ensures Inv(SeTurnStep(w, j, udp, tcp, accept))
  {
    hide SeTurnStep;
    hide SeReads;
    hide Inv;
    if Offers(SeReads(w, udp, tcp).se) {
      SeTurnOffers(w, j, udp, tcp, accept);
    } else {
      SeTurnIdles(w, j, udp, tcp, accept);
    }
  }

  lemma LeadsToAppProtocol(state: SeState, k: Kind, t: SeState)
    requires Route(state, k) == Some(t)
    ensures t == AnsweredAppProtocol ==> k == KAppProtocol
  {
  }

  lemma NotASearch(m: Message, state: EvState, id: SessionId)
    requires InSession(state) && Requests(m, Asks(state), id)
    ensures IsRequest(m) && !m.SdpReq? && KindOf(m) == Asks(state)
  {
  }

  lemma Outside(se: SeState)
    ensures IsAnswering(se) ==> se != SeIdle && se != SeFinished
  {
  }

  /** The charger has the request in its slot. */
  lemma SeReadsRequest(w: World, udp: bool)
    requires Common(w) && InDialogue(w) && w.toSe != [] && w.se.hasClient
    ensures var n := SeReads(w, udp, true);
            && n == w.(se := n.se, udpToSe := n.udpToSe, toSe := [])
            && n.se == w.se.(received := w.toSe[0], vehicle := n.se.vehicle, demand := n.se.demand, demandedCurrent := n.se.demandedCurrent)
            && n.se == SeccSpec.OnFrame(w.se.(received := SeReads(w, udp, false).se.received), w.toSe[0])
            && IsRequest(n.se.received) && KindOf(n.se.received) == Asks(w.ev.state)
            && (Asks(w.ev.state) == KAppProtocol ==> n.se.vehicle.schemaId == OWN_SCHEMA)
            && (forall m :: m in n.udpToSe ==> m == SDP_SEARCH)
  {
    hide SeccSpec.OnFrame;
    hide Route;
    hide Requests;
    hide KindOf;
    hide IsRequest;
    hide Asks;
    hide IsAnswering;
    hide SR.Answers;
    hide SR.Settled;
    ReadyFacts(w.ev.state, w.se.state);
    SearchRead(w, udp);
    var r := SeReads(w, udp, false);
    NotASearch(w.toSe[0], w.ev.state, w.ev.secc.sessionId);
    Outside(w.se.state);
    SeReceives(r.se, w.toSe[0]);
    if Asks(w.ev.state) == KAppProtocol {
      AppProtocolUnderstood(r.se, w.toSe[0], w.ev.secc.sessionId);
    }
  }

  lemma SeTurnReplies(w: World, j: SeInput, udp: bool, accept: bool)
    requires Common(w) && InDialogue(w) && w.toSe != [] && w.se.hasClient
    ensures var v := SeTurnStep(w, j, udp, true, accept);
            && Common(v)
            && v == w.(se := v.se, udpToSe := v.udpToSe, toSe := [], toEv := v.toEv)
            && v.se.hasClient && !v.se.entered && HasReplied(w.ev.state, v.se.state)
            && |v.toEv| == 1 && Succeeds(v.toEv[0], Asks(w.ev.state), v.se.info.sessionId)
            && (w.ev.state != AwaitSessionSetup ==> v.se.info == w.se.info)
  {
    hide SeReads;
    hide SeccSpec.Operate;
    hide SeccSpec.OnFrame;
    hide Route;
    hide Succeeds;
    hide Requests;
    hide KindOf;
    hide IsRequest;
    hide Asks;
    hide IsAnswering;
    hide SR.Answers;
    ReadyFacts(w.ev.state, w.se.state);
    SeReadsRequest(w, udp);
    var n := SeReads(w, udp, true);
    var t := Route(w.se.state, Asks(w.ev.state)).value;
    LeadsToAppProtocol(w.se.state, Asks(w.ev.state), t);
    SeReplies(n.se, Offered(n, j, accept), t);
    OneSent(SeccSpec.Operate(n.se, Offered(n, j, accept)).sent);
    assert w.udpToEv + [] == w.udpToEv;
  }

  lemma OneSent(sent: seq<Sent>)
    requires |sent| == 1 && sent[0].Tcp?
    ensures UdpPart(sent) == [] && TcpPart(sent) == [sent[0].message]
    ensures [] + TcpPart(sent) == TcpPart(sent)
  {
  }

  lemma SeTurnKeepsInv(w: World, j: SeInput, udp: bool, tcp: bool, accept: bool)
    requires Inv(w)
    ensures Inv(SeTurnStep(w, j, udp, tcp, accept))
  {
    hide SeTurnStep;
    hide Common;
    hide Requests;
    hide Succeeds;
    hide Asks;
    hide Ready;
    hide HasReplied;
    if Apart(w) && w.se.hasClient && tcp {
      SeTurnLosing(w, j, udp, accept);
    } else if Apart(w) && !w.se.hasClient && !IsAnswering(w.se.state) {
      SeTurnOutside(w, j, udp, tcp, accept);
    } else if InDialogue(w) {
      assert Common(w);
      ReadyFacts(w.ev.state, w.se.state);
      if w.toSe != [] && tcp && w.se.hasClient {
        SeTurnReplies(w, j, udp, accept);
      } else {
        SeTurnWaiting(w, j, udp, tcp, accept);
      }
    } else {
      SeTurnWaiting(w, j, udp, tcp, accept);
    }
  }

  // ---- Runs ----

  lemma StepKeepsInv(w: World, e: Event)
    requires Inv(w)
    ensures Inv(Step(w, e))
  {
    hide Inv;
    hide EvTurnStep;
    hide SeTurnStep;
    match e
    case EvTurn(i, udp, tcp) => EvTurnKeepsInv(w, i, udp, tcp);
    case SeTurn(j, udp, tcp, accept) => SeTurnKeepsInv(w, j, udp, tcp, accept);
    case Establish => EstablishKeepsInv(w);
    case SetMode(mode) => SetModeKeepsInv(w, mode);
  }

  lemma EstablishKeepsInv(w: World)
    requires Inv(w)
    ensures Inv(Step(w, Establish))
  {
    hide Dialogue;
    hide SR.Settled;
  }

  lemma SetModeKeepsInv(w: World, mode: TransferMode)
    requires Inv(w)
    ensures Inv(Step(w, SetMode(mode)))
  {
    hide Requests;
    hide Succeeds;
    hide Asks;
    hide Ready;
    hide HasReplied;
    hide SR.Settled;
  }

  lemma BeginsWithInv(c: Setup)
    ensures Inv(Begin(c))
  {
  }

  lemma {:induction false} RunKeepsInv(w: World, es: seq<Event>)
    requires Inv(w)
    ensures Inv(Run(w, es))
  {
    hide Inv;
    hide Step;
    if es != [] {
      RunKeepsInv(w, es[..|es| - 1]);
      StepKeepsInv(Run(w, es[..|es| - 1]), es[|es| - 1]);
    }
  }

  lemma ReachableInv(c: Setup, es: seq<Event>)
    ensures Inv(Run(Begin(c), es))
  {
    hide Inv;
    hide Run;
    BeginsWithInv(c);
    RunKeepsInv(Begin(c), es);
  }

  // ---- What the invariant says ----

  /** One message at most is under way or unread; it is one that its receiver expects; a request without
      an answer is under way; and once the session has its number both sides use it. */
  lemma InStep(c: Setup, es: seq<Event>)
    ensures var w := Run(Begin(c), es);
            && |w.toSe| + |w.toEv| <= 1 && w.ev.received == Empty && w.se.received == Empty && !w.overlap
            && (w.toSe != [] ==> InSession(w.ev.state) && KindOf(w.toSe[0]) == Asks(w.ev.state) && Ready(w.ev.state, w.se.state))
            && (w.toEv != [] ==> InSession(w.ev.state) && Succeeds(w.toEv[0], Asks(w.ev.state), w.se.info.sessionId))
            && (InSession(w.ev.state) && !w.ev.entered && w.toSe == [] ==> HasReplied(w.ev.state, w.se.state))
            && (Named(w.ev.state) ==>
                  && w.ev.secc.sessionId == w.se.info.sessionId
                  && (forall m :: m in w.toSe + w.toEv ==> HeaderId(m) == Some(w.se.info.sessionId)))
  {
    hide Run;
    hide Succeeds;
    hide Requests;
    hide Asks;
    hide Ready;
    hide HasReplied;
    hide SR.Settled;
    ReachableInv(c, es);
    var w := Run(Begin(c), es);
    if InDialogue(w) {
      if w.toSe != [] {
        AskedId(w.toSe[0], w.ev.state, w.ev.secc.sessionId);
        assert w.toSe == [w.toSe[0]];
      } else if w.toEv != [] {
        RepliedId(w.toEv[0], w.ev.state, w.se.info.sessionId);
        assert w.toEv == [w.toEv[0]];
      }
    }
  }

  lemma AskedId(m: Message, state: EvState, id: SessionId)
    requires InSession(state) && Requests(m, Asks(state), id)
    ensures KindOf(m) == Asks(state) && (Named(state) ==> HeaderId(m) == Some(id))
  {
  }

  lemma RepliedId(m: Message, state: EvState, id: SessionId)
    requires InSession(state) && Succeeds(m, Asks(state), id)
    ensures Named(state) ==> HeaderId(m) == Some(id)
  {
  }

  /** What the vehicle finds in its slot during a turn. */
  lemma EvSlot(w: World, i: EvInput, udp: bool, tcp: bool)
    requires Inv(w)
    ensures var r := EvReads(w, udp, tcp);
            && r.ev.state == w.ev.state
            && (InSession(w.ev.state) ==> r.ev.received == Empty || HasAnswer(r.ev))
            && (!InSession(w.ev.state) ==> r.ev.received == Empty || r.ev.received == SDP_OFFER)
  {
    hide EvccSpec.OnFrame;
    hide Succeeds;
    hide Requests;
    hide Asks;
    hide Ready;
    hide HasReplied;
    hide SR.Settled;
    OfferReceived(w.ev);
    if InDialogue(w) && w.toEv != [] {
      EvReceives(w.ev, w.toEv[0], w.se.info.sessionId);
      SlotAnswers(w.toEv[0], EvccSpec.OnFrame(w.ev, w.toEv[0]), w.se.info.sessionId);
    }
  }

  lemma SlotAnswers(m: Message, s: Evcc, id: SessionId)
    requires InSession(s.state) && Succeeds(m, Asks(s.state), id) && s.received == m
    ensures HasAnswer(s)
  {
    ER.AnswerKind(s);
  }

  /** The vehicle throws a message away as unexpected only if it is an offer that comes outside a session. */
  lemma EvUnexpected(c: Setup, es: seq<Event>, i: EvInput, udp: bool, tcp: bool)
    ensures var w := Run(Begin(c), es);
            var r := EvReads(w, udp, tcp);
            EvccSpec.Dispatch(r.ev, WithStatus(r, i)).s.received != Empty ==> r.ev.received == SDP_OFFER && !InSession(w.ev.state)
  {
    hide Inv;
    hide Run;
    ReachableInv(c, es);
    var w := Run(Begin(c), es);
    EvSlot(w, i, udp, tcp);
    var r := EvReads(w, udp, tcp);
    hide EvReads;
    if InSession(w.ev.state) {
      DispatchEmpties(r.ev, WithStatus(r, i));
    } else {
      DispatchKeepsEmpty(r.ev, WithStatus(r, i));
    }
  }

  lemma DispatchEmpties(s: Evcc, i: EvInput)
    requires InSession(s.state) && (s.received == Empty || HasAnswer(s))
    ensures EvccSpec.Dispatch(s, i).s.received == Empty
  {
    hide Decide;
    hide Request;
    hide HasAnswer;
    hide EvccSpec.Asked;
    hide AskedOutput;
    ER.AskingKeeps(s, i);
  }

  lemma DispatchKeepsEmpty(s: Evcc, i: EvInput)
    requires !InSession(s.state)
    ensures s.received == Empty ==> EvccSpec.Dispatch(s, i).s.received == Empty
  {
    hide SessionStep;
  }

  /** The charger throws a message away as unexpected only if it is a repeated search. */
  lemma SeUnexpected(c: Setup, es: seq<Event>, j: SeInput, udp: bool, tcp: bool, accept: bool)
    ensures var w := Run(Begin(c), es);
            var r := SeReads(w, udp, tcp);
            Discards(SeccSpec.Dispatch(SwitchOff(r.se), Offered(r, j, accept)), r.se.state) ==> r.se.received == SDP_SEARCH
  {
    hide Inv;
    hide Run;
    hide SeccSpec.Dispatch;
    ReachableInv(c, es);
    var w := Run(Begin(c), es);
    SeSlot(w, udp, tcp);
    var r := SeReads(w, udp, tcp);
    hide SeReads;
    if r.se.received != SDP_SEARCH {
      ExpectedOnly(SwitchOff(r.se), Offered(r, j, accept));
    }
  }

  /** What the charger finds in its slot during a turn. */
  lemma SeSlot(w: World, udp: bool, tcp: bool)
    requires Inv(w)
    ensures var r := SeReads(w, udp, tcp);
            && r.se.state == w.se.state && SR.Settled(r.se)
            && (r.se.received == Empty || r.se.received == SDP_SEARCH
                || (IsAnswering(r.se.state) && Route(r.se.state, KindOf(r.se.received)).Some?))
  {
    hide SeccSpec.OnFrame;
    hide Succeeds;
    hide Requests;
    hide Asks;
    hide KindOf;
    hide Route;
    hide HasReplied;
    hide IsAnswering;
    hide IsRequest;
    assert Common(w);
    SearchRead(w, udp);
    if InDialogue(w) && tcp && w.se.hasClient && w.toSe != [] {
      ReadyFacts(w.ev.state, w.se.state);
      SeReadsRequest(w, udp);
    }
  }

  lemma ExpectedOnly(s: Secc, i: SeInput)
    requires SR.Settled(s)
    requires s.received == Empty || (IsAnswering(s.state) && Route(s.state, KindOf(s.received)).Some?)
    ensures !Discards(SeccSpec.Dispatch(s, i), s.state)
  {
    hide KindOf;
  }

  /** A response that offers no transfer mode the vehicle takes. */
  predicate OffersNothing(w: World) {
    w.toEv != [] && w.toEv[0].ServiceDiscoveryRes? && !Negotiate(w.ev.info.transferMode, w.toEv[0].modes).1
  }

  lemma ModesReceived(s: Evcc, m: Message, id: SessionId)
    requires s.state == AwaitServiceDiscovery && Succeeds(m, Asks(s.state), id)
    ensures m.ServiceDiscoveryRes? && EvccSpec.OnFrame(s, m).secc.modes == m.modes && EvccSpec.OnFrame(s, m).info == s.info
  {
  }

  lemma EvTurnFails(w: World, i: EvInput, udp: bool, tcp: bool)
    requires Inv(w) && InSession(w.ev.state) && EvTurnStep(w, i, udp, tcp).ev.state == EvFailure
    ensures w.ev.state == AwaitServiceDiscovery && OffersNothing(w)
  {
    hide EvTurnStep;
    hide EvccSpec.OnFrame;
    hide Inv;
    hide InDialogue;
    hide Negotiate;
    InSessionIsDialogue(w);
    InvCommon(w);
    if tcp && w.toEv != [] {
      EvTurnConsumes(w, i, udp);
      DeliveredState(w);
      MovesOnInSession(w.ev.state, EvTurnStep(w, i, udp, tcp).ev.state);
      ResponseUnderWay(w);
      ModesReceived(w.ev, w.toEv[0], w.se.info.sessionId);
    } else {
      StaysInState(w, i, udp, tcp);
    }
  }

  lemma ResponseUnderWay(w: World)
    requires InDialogue(w) && w.toEv != []
    ensures Succeeds(w.toEv[0], Asks(w.ev.state), w.se.info.sessionId)
  {
    hide Requests;
    hide Succeeds;
  }

  lemma StaysInState(w: World, i: EvInput, udp: bool, tcp: bool)
    requires Common(w) && InDialogue(w) && (!tcp || w.toEv == [])
    ensures EvTurnStep(w, i, udp, tcp).ev.state == w.ev.state
  {
    hide EvccSpec.Operate;
    hide EvccSpec.OnFrame;
    hide Dialogue;
    EvAsks(w.ev, WithStatus(w, i));
  }

  lemma MovesOnInSession(from: EvState, to: EvState)
    ensures MovesOn(from, to) ==> to != EvFailure
  {
  }

  lemma InSessionIsDialogue(w: World)
    requires Inv(w) && InSession(w.ev.state)
    ensures InDialogue(w)
  {
    hide Dialogue;
  }

  /** In a session the vehicle fails for one reason only: no transfer mode in common. */
  lemma OnlyMismatchFails(c: Setup, es: seq<Event>, e: Event)
    ensures var w := Run(Begin(c), es);
            InSession(w.ev.state) && Step(w, e).ev.state == EvFailure ==> w.ev.state == AwaitServiceDiscovery && OffersNothing(w)
  {
    hide Run;
    hide EvTurnStep;
    hide SeTurnStep;
    hide Inv;
    ReachableInv(c, es);
    var w := Run(Begin(c), es);
    match e
    case EvTurn(i, udp, tcp) =>
      if InSession(w.ev.state) && EvTurnStep(w, i, udp, tcp).ev.state == EvFailure {
        EvTurnFails(w, i, udp, tcp);
      }
    case SeTurn(j, udp, tcp, accept) => SeTurnKeepsEv(w, j, udp, tcp, accept);
    case Establish =>
    case SetMode(_) =>
  }

  // ---- A session can begin ----

  /** The vehicle has looked for a charger that waits for one. */
  predicate Searching(w: World) {
    && Inv(w) && Apart(w) && w.ev.state == AwaitSdp && w.se.state == SeAwaitSdp && !w.se.hasClient
    && w.udpToSe == [SDP_SEARCH] && w.udpToEv == []
  }

  lemma Starts(c: Setup, i: EvInput, j: SeInput)
    requires i.run && j.run
    ensures Searching(Step(Step(Step(Begin(c), EvTurn(i, false, false)), SeTurn(j, false, false, false)), EvTurn(i, false, false)))
  {
    hide Inv;
    hide Apart;
    hide EvTurnStep;
    hide SeTurnStep;
    var w0 := Begin(c);
    var w1 := Step(w0, EvTurn(i, false, false));
    var w2 := Step(w1, SeTurn(j, false, false, false));
    BeginsWithInv(c);
    StepKeepsInv(w0, EvTurn(i, false, false));
    StepKeepsInv(w1, SeTurn(j, false, false, false));
    StepKeepsInv(w2, EvTurn(i, false, false));
    EvWakes(c, i);
    SeWakes(w1, c, j);
    EvSearches(w2, i);
    IsApart(Step(w2, EvTurn(i, false, false)));
  }

  lemma IsApart(w: World)
    requires Inv(w) && w.ev.state == AwaitSdp && !w.ev.connecting
    ensures Apart(w)
  {
    hide Dialogue;
  }

  lemma EvWakes(c: Setup, i: EvInput)
    requires i.run
    ensures var w := EvTurnStep(Begin(c), i, false, false);
            && w.se == SeccSpec.Initial(c.modes, c.tls) && w.ev.state == AwaitSdp && w.ev.entered && !w.ev.connecting
            && w.ev.received == Empty && w.client == Closed && !w.backlog && w.udpToSe == [] && w.udpToEv == [] && !w.closed
  {
    FirstEvTurn(c, i);
    hide EvccSpec.Operate;
  }

  lemma SeWakes(w: World, c: Setup, j: SeInput)
    requires w.se == SeccSpec.Initial(c.modes, c.tls) && j.run && !w.backlog && !w.closed
    ensures var v := SeTurnStep(w, j, false, false, false);
            && v.ev == w.ev && v.client == w.client && v.udpToSe == w.udpToSe && v.udpToEv == w.udpToEv
            && v.se.state == SeAwaitSdp && !v.se.hasClient
  {
    FirstSeTurn(c, j);
    hide SeccSpec.Operate;
  }

  lemma EvSearches(w: World, i: EvInput)
    requires w.ev.state == AwaitSdp && w.ev.entered && !w.ev.connecting && w.ev.received == Empty && w.client == Closed
    requires w.udpToSe == []
    ensures var v := EvTurnStep(w, i, false, false);
            && v.se == w.se && v.udpToSe == [SDP_SEARCH] && v.udpToEv == w.udpToEv && v.ev.state == AwaitSdp && !v.ev.connecting
  {
    SearchSent(w.ev, WithStatus(w, i));
    hide EvccSpec.Operate;
  }

  lemma FirstEvTurn(c: Setup, i: EvInput)
    requires i.run
    ensures var s := EvccSpec.Initial(c.mode, c.pilot, c.now);
            && ER.Next(s, WithStatus(Begin(c), i)).state == AwaitSdp && ER.Next(s, WithStatus(Begin(c), i)).entered
            && !ER.Next(s, WithStatus(Begin(c), i)).connecting
            && ER.Output(s, WithStatus(Begin(c), i)) == EvOutput([], [], Close)
            && ER.Next(s, WithStatus(Begin(c), i)).received == Empty
  {
  }

  lemma FirstSeTurn(c: Setup, j: SeInput)
    requires j.run
    ensures var p := SeccSpec.Operate(SeccSpec.Initial(c.modes, c.tls), j.(connection := NoConnection));
            p.s.state == SeAwaitSdp && !p.s.hasClient && p.sent == []
  {
  }

  lemma SearchSent(s: Evcc, i: EvInput)
    requires s.state == AwaitSdp && s.entered && s.received == Empty && i.client == Closed
    ensures ER.Next(s, i).state == AwaitSdp && !ER.Next(s, i).connecting && ER.Output(s, i) == EvOutput([SDP_SEARCH], [], Keep)
  {
  }

  /** Both processes, freshly started and allowed to run, are in a session after five turns: the vehicle
      starts and searches, the charger wakes up and offers, the vehicle connects. */
  lemma SessionBegins(c: Setup, i: EvInput, j: SeInput)
    requires i.run && j.run && i.afterOpen == Connected
    ensures var w := Step(Step(Step(Begin(c), EvTurn(i, false, false)), SeTurn(j, false, false, false)), EvTurn(i, false, false));
            var v := Step(Step(w, SeTurn(j, true, false, false)), EvTurn(i, true, false));
            InDialogue(v) && v.ev.state == AwaitAppProtocol
  {
    hide Searching;
    hide InDialogue;
    hide Step;
    Starts(c, i, j);
    Connects(Step(Step(Step(Begin(c), EvTurn(i, false, false)), SeTurn(j, false, false, false)), EvTurn(i, false, false)), i, j);
  }

  lemma Connects(w: World, i: EvInput, j: SeInput)
    requires Searching(w) && i.afterOpen == Connected
    ensures var v := Step(Step(w, SeTurn(j, true, false, false)), EvTurn(i, true, false));
            InDialogue(v) && v.ev.state == AwaitAppProtocol
  {
    hide Inv;
    hide Apart;
    hide EvTurnStep;
    hide SeTurnStep;
    var v := Step(w, SeTurn(j, true, false, false));
    StepKeepsInv(w, SeTurn(j, true, false, false));
    StepKeepsInv(v, EvTurn(i, true, false));
    SearchingFacts(w);
    OfferMade(w, j);
    OfferTaken(v, i);
    InSessionIsDialogue(Step(v, EvTurn(i, true, false)));
  }

  lemma OfferMade(w: World, j: SeInput)
    requires Searching(w)
    ensures var v := SeTurnStep(w, j, true, false, false); v.ev == w.ev && v.client == w.client && v.udpToEv == [SDP_OFFER]
  {
    SearchingFacts(w);
    hide Searching;
    SearchTaken(w);
    OfferSent(SeReads(w, true, false), j);
  }

  lemma SearchTaken(w: World)
    requires Common(w) && w.se.state == SeAwaitSdp && w.udpToSe == [SDP_SEARCH]
    ensures var r := SeReads(w, true, false);
            && r == w.(se := w.se.(received := SDP_SEARCH), udpToSe := []) && SR.Settled(r.se)
  {
    hide SeccSpec.OnFrame;
    SeReceivesSearch(w.se);
  }

  lemma OfferSent(r: World, j: SeInput)
    requires SR.Settled(r.se) && Offers(r.se) && !r.se.hasClient && !r.se.security.useTls && !r.backlog && r.udpToEv == []
    ensures var v := SeSends(r, SeccSpec.Operate(r.se, Offered(r, j, false)), false);
            v.ev == r.ev && v.client == r.client && v.udpToEv == [SDP_OFFER]
  {
    hide SeccSpec.Operate;
    hide SR.Settled;
    SeOffers(r.se, Offered(r, j, false));
    assert UdpPart([Udp(SDP_OFFER)]) == [SDP_OFFER];
  }

  lemma SearchingFacts(w: World)
    requires Searching(w)
    ensures Common(w) && !w.backlog && w.client == Closed && !w.ev.connecting
    ensures w.se.state == SeAwaitSdp && !w.se.hasClient && w.udpToSe == [SDP_SEARCH] && w.udpToEv == []
  {
    InvCommon(w);
  }

  lemma OfferTaken(w: World, i: EvInput)
    requires w.ev.state == AwaitSdp && !w.ev.connecting && w.client == Closed && w.udpToEv == [SDP_OFFER] && i.afterOpen == Connected
    requires w.ev.repeatTimer.duration != 0 && w.ev.powerTimer.duration != 0
    ensures EvTurnStep(w, i, true, false).ev.state == AwaitAppProtocol
  {
    hide EvccSpec.Operate;
    hide EvccSpec.OnFrame;
    OfferReceived(w.ev);
    var r := EvReads(w, true, false);
    EvAlone(r.ev, WithStatus(r, i));
  }
}
