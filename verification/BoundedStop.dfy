// With the built-in simulated hardware a session that is no longer enabled comes to its end on both
// sides within a bounded number of exchanges.

module BoundedStop {
  import opened V2g
  import opened PhysicalValues
  import opened ByteArrays
  import opened Timers
  import opened EvccSpec
  import opened SeccSpec
  import opened ChargingSystem
  import opened Lockstep
  import ER = EvccRuns
  import ES = EvccSafety
  import SR = SeccRuns
  import PO = PowerOrder

  // ---- The values that travel ----

  /** The currents the dialogue knows: the vehicle demands ten amperes or none. */
  predicate Amps(x: real) {
    x == 0.0 || x == 10.0
  }

  /** Simulated hardware on both sides. */
  predicate Simulated(e: Event) {
    match e
    case EvTurn(i, _, _) => i.socketVoltage == None && i.socketCurrent == None && i.contactorFeedback == None
    case SeTurn(j, _, _, _) => j.reading == None
    case _ => true
  }

  predicate TameRequest(m: Message) {
    && (m.PreChargeReq? ==> ToReal(m.voltage) == 0.0)
    && (m.CurrentDemandReq? ==> Amps(ToReal(m.current)))
  }

  predicate TameResponse(m: Message, modes: seq<TransferMode>) {
    && (m.ServiceDiscoveryRes? ==> m.modes == modes)
    && (m.AuthorizationRes? ==> m.processing == ProcessingFinished)
    && (m.CableCheckRes? ==> m.processing == ProcessingFinished)
    && (m.PreChargeRes? ==> ToReal(m.voltage) == 0.0)
    && (m.CurrentDemandRes? ==> Amps(ToReal(m.current)))
  }

  /** With simulated hardware no voltage is ever reported, and currents are as demanded. */
  predicate Tame(w: World) {
    && w.ev.info.memorizedVoltage == 0.0
    && Amps(w.se.source.current)
    && (w.toSe != [] ==> TameRequest(w.toSe[0]))
    && (w.toEv != [] ==> TameResponse(w.toEv[0], w.se.info.modes))
  }

  lemma RequestIsTame(s: Evcc, i: EvInput)
    requires InSession(s.state) && s.info.memorizedVoltage == 0.0
    ensures TameRequest(Request(s, i))
    ensures !i.enable && s.state == AwaitCurrentDemand ==> ToReal(Request(s, i).current) == 0.0
  {
    hide ToReal;
    hide FromReal;
    hide ReadContactor;
    DemandsSurvive();
  }

  /** What the charger's reply tells, and what it does to the source. */
  lemma ReplyData(s: Secc, i: SeInput, t: SeState)
    requires SR.Settled(s) && IsRequest(s.received) && s.hasClient && IsAnswering(t)
    requires Route(s.state, KindOf(s.received)) == Some(t)
    ensures var p := SeccSpec.Operate(s, i);
            var e := SR.EnteredWith(s, t);
            && p.s.source == Command(e, i)
            && p.s.info.modes == s.info.modes
            && p.sent == Transmit(true, Response(e, Prepare(e).(source := Command(e, i)), i))
  {
    hide SeccSpec.Operate;
    hide Route;
    hide KindOf;
    hide IsRequest;
    hide Answer;
    hide Command;
    hide Response;
    hide Transmit;
    hide NextId;
    SR.OperateOnRequest(s, i, t);
    SR.AnswerFacts(SR.EnteredWith(s, t), i);
    var a := Answer(SR.EnteredWith(s, t), i);
    TailKeeps(a.s.(state := if SR.Refuses(s, t) then SeFailure else t, entered := SR.Refuses(s, t)), i);
  }

  lemma ResponseIsTame(e: Secc, i: SeInput)
    requires IsAnswering(e.state) && i.reading == None && Amps(e.source.current)
    requires e.state == AnsweredPreCharge ==> e.vehicle.targetVoltage == 0.0
    requires e.state == AnsweredCurrentDemand ==> Amps(ToReal(e.demand.current))
    ensures var m := Response(e, Prepare(e).(source := Command(e, i)), i);
            && TameResponse(m, e.info.modes)
            && Amps(Command(e, i).current)
            && (e.state == AnsweredCurrentDemand ==>
                  m.CurrentDemandRes? && ToReal(m.current) == e.source.current && Command(e, i).current == ToReal(e.demand.current))
  {
    hide ToReal;
    hide FromReal;
    hide NextId;
    DemandsSurvive();
  }

  /** The vehicle's bookkeeping when a tame response arrives. */
  lemma ReceiveTame(s: Evcc, m: Message, modes: seq<TransferMode>, id: SessionId)
    requires InSession(s.state) && Succeeds(m, Asks(s.state), id) && TameResponse(m, modes) && s.info.memorizedVoltage == 0.0
    ensures var t := EvccSpec.OnFrame(s, m);
            && t.received == m && t.info == s.info
            && (s.state == AwaitServiceDiscovery ==> t.secc.modes == modes)
            && (s.state == AwaitAuthorization ==> t.secc.authorized)
            && (s.state == AwaitCableCheck ==> t.secc.processing == ProcessingFinished)
            && (s.state == AwaitCurrentDemand ==> m.CurrentDemandRes? && t.actualCurrent == ToReal(m.current))
  {
    hide ToReal;
  }

  lemma ConsumeTame(s: Evcc, i: EvInput)
    requires InSession(s.state) && s.info.memorizedVoltage == 0.0
    ensures ER.Next(s, i).info.memorizedVoltage == 0.0
    ensures s.state != AwaitServiceDiscovery ==> ER.Next(s, i).info == s.info
  {
    hide EvccSpec.Operate;
    hide Truncate16;
    hide MeetsVoltage;
    hide MayStop;
    hide ResponseIsValid;
    hide Negotiate;
    hide EvccSpec.Asked;
    hide AskedOutput;
    ER.SessionOperate(s, i);
    ER.AskingKeeps(s, i);
  }

  // ---- Tame worlds stay tame ----

  lemma EvTurnTame(w: World, i: EvInput, udp: bool, tcp: bool)
    requires Inv(w) && Tame(w)
    ensures Tame(EvTurnStep(w, i, udp, tcp))
  {
    hide EvTurnStep;
    hide Inv;
    hide InDialogue;
    hide TameRequest;
    hide TameResponse;
    hide Amps;
    if !InDialogue(w) {
      EvTurnOutsideTame(w, i, udp, tcp);
    } else if tcp && w.toEv != [] {
      EvTurnConsumesTame(w, i, udp);
    } else {
      EvTurnAsksTame(w, i, udp, tcp);
    }
  }

  lemma EvTurnOutsideTame(w: World, i: EvInput, udp: bool, tcp: bool)
    requires Inv(w) && Tame(w) && !InDialogue(w)
    ensures var v := EvTurnStep(w, i, udp, tcp);
            v.toSe == [] && v.toEv == [] && v.se == w.se && v.ev.info == w.ev.info
  {
    hide EvccSpec.Operate;
    hide EvccSpec.OnFrame;
    hide Inv;
    hide Tame;
    EvSlot(w, i, udp, tcp);
    PO.NotInSession(w);
    OutsideQuiet(w);
    OfferReceived(w.ev);
    var r := EvReads(w, udp, tcp);
    OutsideInfo(w, udp, tcp);
    ER.OutsideSession(r.ev, WithStatus(r, i));
  }

  lemma OutsideQuiet(w: World)
    requires Inv(w) && !InDialogue(w)
    ensures w.toSe == [] && w.toEv == []
  {
    hide InDialogue;
  }

  lemma OutsideInfo(w: World, udp: bool, tcp: bool)
    requires Inv(w) && !InDialogue(w)
    ensures EvReads(w, udp, tcp).ev.info == w.ev.info
  {
    hide InDialogue;
    hide EvccSpec.OnFrame;
    OfferReceived(w.ev);
  }

  lemma EvTurnConsumesTame(w: World, i: EvInput, udp: bool)
    requires Inv(w) && Tame(w) && InDialogue(w) && w.toEv != []
    ensures var v := EvTurnStep(w, i, udp, true);
            && v.toSe == [] && v.toEv == [] && v.se == w.se && v.ev.info.memorizedVoltage == 0.0
            && (w.ev.state != AwaitServiceDiscovery ==> v.ev.info == w.ev.info)
  {
    hide EvTurnStep;
    hide EvccSpec.Operate;
    hide EvccSpec.OnFrame;
    hide Requests;
    hide Succeeds;
    hide Asks;
    hide HasReplied;
    hide Ready;
    hide TameResponse;
    EvTurnConsumes(w, i, udp);
    EvReceives(w.ev, w.toEv[0], w.se.info.sessionId);
    ReceiveTame(w.ev, w.toEv[0], w.se.info.modes, w.se.info.sessionId);
    ConsumeTame(Delivered(w).ev, WithStatus(w, i));
  }

  lemma EvTurnAsksTame(w: World, i: EvInput, udp: bool, tcp: bool)
    requires Inv(w) && Tame(w) && InDialogue(w) && (!tcp || w.toEv == [])
    ensures var v := EvTurnStep(w, i, udp, tcp);
            && v.toEv == w.toEv && v.se == w.se && v.ev.info == w.ev.info && v.ev.state == w.ev.state && !v.ev.entered
            && v.backlog == w.backlog && v.client == w.client && v.closed == w.closed
            && (if SendDue(w.ev, WithStatus(w, i)) then
                  && w.toSe == [] && |v.toSe| == 1 && TameRequest(v.toSe[0])
                  && (!i.enable && w.ev.state == AwaitCurrentDemand ==> v.toSe[0].CurrentDemandReq? && ToReal(v.toSe[0].current) == 0.0)
                else v.toSe == w.toSe)
  {
    hide EvccSpec.Operate;
    hide EvccSpec.OnFrame;
    hide Requests;
    hide Succeeds;
    hide Asks;
    hide HasReplied;
    hide Ready;
    hide Request;
    hide TameRequest;
    hide TameResponse;
    var c := WithStatus(w, i);
    EvAsks(w.ev, c);
    if SendDue(w.ev, c) {
      ActuateKeepsSecc(w.ev, c);
      ER.ActuateKeeps(w.ev, c);
      RequestIsTame(Actuate(w.ev, c), c);
      DemandRequest(Actuate(w.ev, c), c);
      if !w.ev.entered && !ER.WillRepeat(w.ev) {
        NotDue(w.ev, c);
      }
    }
  }

  lemma DemandRequest(s: Evcc, i: EvInput)
    requires InSession(s.state)
    ensures s.state == AwaitCurrentDemand ==> Request(s, i).CurrentDemandReq?
  {
    hide FromReal;
  }

  /** What the received request leaves in the charger. */
  lemma RequestStored(s: Secc, m: Message)
    requires s.state != SeIdle && s.state != SeFinished && TameRequest(m)
    ensures var t := SeccSpec.OnFrame(s, m);
            && (m.PreChargeReq? ==> t.vehicle.targetVoltage == 0.0)
            && (m.CurrentDemandReq? ==> t.demand.current == m.current && Amps(ToReal(t.demand.current)))
  {
    hide ToReal;
    hide ChosenSchema;
  }

  lemma KindsOfRequests(m: Message)
    requires IsRequest(m)
    ensures KindOf(m) == KPreCharge ==> m.PreChargeReq?
    ensures KindOf(m) == KCurrentDemand ==> m.CurrentDemandReq?
  {
  }

  lemma KindsOfAnswers(t: SeState)
    requires IsAnswering(t)
    ensures t == AnsweredPreCharge ==> SR.Answers(t) == KPreCharge
    ensures t == AnsweredCurrentDemand <==> SR.Answers(t) == KCurrentDemand
    ensures SR.Answers(t) == KSdp <==> t == AnsweredSdp
  {
  }

  lemma BeforeDemand(state: SeState)
    ensures Route(state, KCurrentDemand).Some? ==> SeccSpec.PowerState(state)
  {
  }

  /** The state with which the charger begins its reply. */
  lemma ReplyStart(w: World, udp: bool) returns (n: Secc, t: SeState)
    requires Inv(w) && Tame(w) && InDialogue(w) && w.toSe != [] && w.se.hasClient
    ensures n == SeReads(w, udp, true).se && IsAnswering(t) && IsRequest(n.received) && n.hasClient && SR.Settled(n)
    ensures n.received == w.toSe[0] && n.state == w.se.state && n.source == w.se.source && n.info == w.se.info
    ensures Route(n.state, KindOf(n.received)) == Some(t) && t != AnsweredSdp
    ensures t == AnsweredPreCharge ==> n.vehicle.targetVoltage == 0.0
    ensures t == AnsweredCurrentDemand ==> w.toSe[0].CurrentDemandReq? && n.demand.current == w.toSe[0].current
                                           && Amps(ToReal(n.demand.current)) && SeccSpec.PowerState(w.se.state)
    ensures t == AnsweredCurrentDemand <==> Asks(w.ev.state) == KCurrentDemand
  {
    hide SeReads;
    hide SeccSpec.OnFrame;
    hide Requests;
    hide KindOf;
    hide IsRequest;
    hide Asks;
    hide IsAnswering;
    hide Route;
    hide ToReal;
    assert Common(w);
    ReadyFacts(w.ev.state, w.se.state);
    SeReadsRequest(w, udp);
    n := SeReads(w, udp, true).se;
    t := Route(w.se.state, Asks(w.ev.state)).value;
    SR.RouteFacts(w.se.state, Asks(w.ev.state), t);
    SR.RouteLeadsToAnswer(w.se.state, Asks(w.ev.state), t);
    KindsOfRequests(w.toSe[0]);
    KindsOfAnswers(t);
    BeforeDemand(w.se.state);
    Outside(w.se.state);
    RequestStored(w.se.(received := SeReads(w, udp, false).se.received), w.toSe[0]);
  }

  lemma SwitchOffIsTame(s: Secc)
    ensures Amps(s.source.current) ==> Amps(SwitchOff(s).source.current)
  {
  }

  lemma NotAnOffer(m: Message, t: SeState)
    requires IsAnswering(t) && t != AnsweredSdp && KindOf(m) == SR.Answers(t)
    ensures TcpPart(Transmit(true, m)) == [m]
  {
  }

  /** The charger's turn with a request: n is the charger with the request in its slot, t the state it leads to. */
  lemma SeTurnReply(w: World, j: SeInput, udp: bool, accept: bool, n: Secc, t: SeState)
    requires Inv(w) && InDialogue(w) && w.toSe != [] && w.se.hasClient
    requires n == SeReads(w, udp, true).se && IsAnswering(t) && t != AnsweredSdp
    requires SR.Settled(n) && IsRequest(n.received) && n.hasClient && Route(n.state, KindOf(n.received)) == Some(t)
    ensures var v := SeTurnStep(w, j, udp, true, accept);
            var c := Offered(SeReads(w, udp, true), j, accept);
            var e := SR.EnteredWith(n, t);
            && v.ev == w.ev && v.toSe == [] && v.client == w.client && v.backlog == w.backlog && v.se.hasClient
            && v.toEv == [Response(e, Prepare(e).(source := Command(e, c)), c)]
            && v.se.source == Command(e, c) && v.se.info.modes == n.info.modes
  {
    hide SeReads;
    hide SeccSpec.Operate;
    hide Inv;
    hide InDialogue;
    hide Route;
    hide KindOf;
    hide IsRequest;
    hide IsAnswering;
    hide Response;
    hide Command;
    hide Transmit;
    assert SR.EnteredWith(n, t).state == t;
    hide SR.EnteredWith;
    InvCommon(w);
    DialogueFacts(w);
    SeTurnReplies(w, j, udp, accept);
    ReadingKeepsLink(w, udp);
    var c := Offered(SeReads(w, udp, true), j, accept);
    ReplyData(n, c, t);
    var e := SR.EnteredWith(n, t);
    SR.ResponseFacts(e, Prepare(e).(source := Command(e, c)), c);
    NotAnOffer(Response(e, Prepare(e).(source := Command(e, c)), c), t);
  }

  lemma ReadingKeepsLink(w: World, udp: bool)
    requires Common(w) && w.toSe != []
    ensures var r := SeReads(w, udp, true); r.toEv == w.toEv && r.closed == w.closed && r.client == w.client && r.backlog == w.backlog
  {
    hide SeccSpec.OnFrame;
  }

  lemma SeTurnReplyTame(w: World, j: SeInput, udp: bool, accept: bool)
    requires Inv(w) && Tame(w) && InDialogue(w) && w.toSe != [] && w.se.hasClient && j.reading == None
    ensures var v := SeTurnStep(w, j, udp, true, accept);
            && v.ev == w.ev && v.toSe == [] && |v.toEv| == 1 && v.client == w.client && v.backlog == w.backlog && v.se.hasClient
            && TameResponse(v.toEv[0], v.se.info.modes) && v.se.info.modes == w.se.info.modes
            && Amps(v.se.source.current)
            && (w.ev.state == AwaitCurrentDemand ==>
                  && w.toSe[0].CurrentDemandReq? && v.toEv[0].CurrentDemandRes?
                  && ToReal(v.toEv[0].current) == w.se.source.current && v.se.source.current == ToReal(w.toSe[0].current))
  {
    hide SeReads;
    hide SeTurnStep;
    hide Inv;
    hide InDialogue;
    hide TameResponse;
    hide Amps;
    hide Route;
    hide KindOf;
    hide IsRequest;
    hide IsAnswering;
    hide Response;
    hide Command;
    hide ToReal;
    var n, t := ReplyStart(w, udp);
    var c := Offered(SeReads(w, udp, true), j, accept);
    SwitchOffIsTame(n);
    ResponseIsTame(SR.EnteredWith(n, t), c);
    SeTurnReply(w, j, udp, accept, n, t);
    assert Asks(AwaitCurrentDemand) == KCurrentDemand;
  }

  lemma SeTurnTame(w: World, j: SeInput, udp: bool, tcp: bool, accept: bool)
    requires Inv(w) && Tame(w) && j.reading == None
    ensures Tame(SeTurnStep(w, j, udp, tcp, accept))
  {
    hide SeTurnStep;
    hide Inv;
    hide InDialogue;
    hide TameRequest;
    hide TameResponse;
    if !InDialogue(w) {
      SeTurnOutsideTame(w, j, udp, tcp, accept);
    } else if tcp && w.se.hasClient && w.toSe != [] {
      SeTurnReplyTame(w, j, udp, accept);
    } else {
      SeTurnWaitingInDialogue(w, j, udp, tcp, accept);
      SwitchOffIsTame(w.se);
    }
  }

  lemma SeTurnWaitingInDialogue(w: World, j: SeInput, udp: bool, tcp: bool, accept: bool)
    requires Inv(w) && InDialogue(w) && !(tcp && w.se.hasClient && w.toSe != [])
    ensures var v := SeTurnStep(w, j, udp, tcp, accept);
            && v == w.(se := v.se, udpToSe := v.udpToSe, backlog := w.backlog && !accept)
            && v.se.info == w.se.info && v.se.source == SwitchOff(w.se).source && v.se.state == w.se.state
  {
    hide SeTurnStep;
    hide Common;
    hide Requests;
    hide Succeeds;
    hide Asks;
    hide Ready;
    hide HasReplied;
    assert Common(w);
    ReadyFacts(w.ev.state, w.se.state);
    SeTurnWaiting(w, j, udp, tcp, accept);
  }

  lemma SeTurnOutsideTame(w: World, j: SeInput, udp: bool, tcp: bool, accept: bool)
    requires Inv(w) && Tame(w) && !InDialogue(w)
    ensures var v := SeTurnStep(w, j, udp, tcp, accept); v.ev == w.ev && v.toSe == [] && v.toEv == [] && Amps(v.se.source.current)
  {
    hide SeTurnStep;
    hide Inv;
    hide InDialogue;
    hide TameRequest;
    hide TameResponse;
    PO.SeTurnSilent(w, j, udp, tcp, accept);
    PO.SeTurnSource(w, j, udp, tcp, accept);
    SeTurnKeepsInv(w, j, udp, tcp, accept);
    PO.NotInSession(w);
    var v := SeTurnStep(w, j, udp, tcp, accept);
    if InDialogue(v) {
      DialogueFacts(v);
    }
    OutsideQuiet(v);
  }

  lemma StepTame(w: World, e: Event)
    requires Inv(w) && Tame(w) && Simulated(e)
    ensures Tame(Step(w, e))
  {
    hide EvTurnStep;
    hide SeTurnStep;
    hide Inv;
    hide TameRequest;
    hide TameResponse;
    match e
    case EvTurn(i, udp, tcp) => EvTurnTame(w, i, udp, tcp);
    case SeTurn(j, udp, tcp, accept) => SeTurnTame(w, j, udp, tcp, accept);
    case Establish =>
    case SetMode(_) =>
  }

  lemma BeginsTame(c: Setup)
    ensures Tame(Begin(c))
  {
  }

  predicate AllSimulated(es: seq<Event>) {
    forall k :: 0 <= k < |es| ==> Simulated(es[k])
  }

  lemma {:induction false} RunTame(c: Setup, es: seq<Event>)
    requires AllSimulated(es)
    ensures Inv(Run(Begin(c), es)) && Tame(Run(Begin(c), es))
  {
    hide Step;
    hide Inv;
    hide Tame;
    hide Simulated;
    if es == [] {
      BeginsWithInv(c);
      BeginsTame(c);
    } else {
      RunTame(c, es[..|es| - 1]);
      StepKeepsInv(Run(Begin(c), es[..|es| - 1]), es[|es| - 1]);
      StepTame(Run(Begin(c), es[..|es| - 1]), es[|es| - 1]);
    }
  }

  // ---- Stopping ----

  /** Simulated hardware and an application that no longer wants to charge; whether the process may run is left open. */
  predicate Off(i: EvInput) {
    !i.enable && i.socketVoltage == None && i.socketCurrent == None && i.contactorFeedback == None
  }

  /** The offered transfer modes hold one the vehicle takes, as long as that matters. */
  predicate Agreed(w: World) {
    w.ev.state == AwaitSdp || w.ev.state == AwaitAppProtocol || w.ev.state == AwaitSessionSetup || w.ev.state == AwaitServiceDiscovery ==>
      Negotiate(w.ev.info.transferMode, w.se.info.modes).1
  }

  /** A turn of such a system; the application may write another transfer mode as long as the two sides
      can still agree. */
  predicate Calm(w: World, e: Event) {
    match e
    case EvTurn(i, _, _) => Off(i)
    case SeTurn(j, _, _, _) => j.reading == None
    case Establish => true
    case SetMode(_) => Agreed(Step(w, e))
  }

  /** From the opening of the connection until the vehicle closes it. */
  predicate Underway(w: World) {
    && Inv(w) && Tame(w) && Agreed(w)
    && (Linking(w) || InDialogue(w) || (Parting(w) && w.ev.state == AwaitDisconnection))
  }

  /** A world, and which of the two processes has come to its finished state since the watch began. */
  datatype Watch = Watch(w: World, evEnded: bool, seEnded: bool)

  /** The charger's turn enters its finished state. If it may not run, the same call leaves it again. */
  predicate Finishes(w: World, j: SeInput, udp: bool, tcp: bool, accept: bool) {
    var r := SeReads(w, udp, tcp);
    OnePass(SwitchOff(r.se), Offered(r, j, accept)).s.state == SeFinished
  }

  predicate SeEnds(w: World, e: Event) {
    e.SeTurn? && Finishes(w, e.j, e.udp, e.tcp, e.accept)
  }

  function Observe(x: Watch, e: Event): Watch {
    var v := Step(x.w, e);
    Watch(v, x.evEnded || v.ev.state == EvFinished, x.seEnded || SeEnds(x.w, e))
  }

  predicate Ended(x: Watch) {
    x.evEnded && x.seEnded
  }

  /** The vehicle has closed the connection after the end of its session. It may have started to look for
      another charger, but gets no offer before this one has noticed the end. */
  predicate Closing(x: Watch) {
    && Inv(x.w) && x.w.client == Closed
    && (x.evEnded <==> x.w.ev.state != AwaitDisconnection)
    && (x.seEnded <==> !x.w.se.hasClient)
    && (x.w.se.hasClient ==> x.w.se.state == AnsweredSessionStop)
  }

  /** From the opening of the connection to the end of the session on both sides, and ever after. */
  predicate Stopping(x: Watch) {
    && Inv(x.w) && Tame(x.w)
    && (Ended(x) || Closing(x) || (!x.evEnded && !x.seEnded && Underway(x.w)))
  }

  /** The number of successful answers a state is away from the end of the session. */
  function Stage(state: EvState): nat {
    match state
    case AwaitAppProtocol => 13
    case AwaitSessionSetup => 12
    case AwaitServiceDiscovery => 11
    case AwaitPaymentServiceSelection => 10
    case AwaitAuthorization => 9
    case AwaitChargeParameterDiscovery => 8
    case AwaitCableCheck => 7
    case AwaitPreCharge => 6
    case AwaitChargingStatus => 5
    case AwaitCurrentDemand => 5
    case AwaitPowerDelivery => 4
    case AwaitWeldingDetection => 3
    case AwaitSessionStop => 2
    case _ => 0
  }

  /** How many more current demands follow the one in progress: the source reports the current it was
      told to deliver before, so that zero amperes take two exchanges to come back. */
  function Repeats(w: World): nat {
    if w.ev.state != AwaitCurrentDemand then 0
    else if w.toSe != [] then
      if w.se.source.current == 0.0 then 0 else if w.toSe[0].CurrentDemandReq? && ToReal(w.toSe[0].current) == 0.0 then 1 else 2
    else if w.toEv != [] then
      if w.toEv[0].CurrentDemandRes? && ToReal(w.toEv[0].current) == 0.0 then 0 else if w.se.source.current == 0.0 then 1 else 2
    else if w.se.source.current == 0.0 then 0 else 1
  }

  /** Ask, answer, consume; and once per session accept. */
  function Phase(w: World): nat {
    (if w.toEv != [] then 1 else if w.toSe != [] then 2 else 3) + (if w.backlog then 1 else 0)
  }

  const LONGEST: nat := 58

  /** How many productive turns away the end of the connection is at most. */
  function Distance(w: World): nat {
    if InSession(w.ev.state) then 4 * (Stage(w.ev.state) + Repeats(w)) + Phase(w)
    else if w.ev.state == AwaitSdp then 56 + if w.client == Opening then 2 else if w.backlog then 1 else 0
    else 3
  }

  function Rank(x: Watch): (r: nat) {
    if Ended(x) then 0
    else if x.w.client == Closed then (if x.evEnded then 0 else 1) + (if x.seEnded then 0 else 1)
    else Distance(x.w)
  }

  /** The turns that do something: open, accept, ask, answer, consume, close, notice the end. */
  predicate Works(w: World, e: Event) {
    match e
    case EvTurn(i, _, tcp) =>
      || (tcp && w.toEv != [])
      || (InSession(w.ev.state) && SendDue(w.ev, WithStatus(w, i)))
      || (w.ev.state == AwaitSdp && w.client == Connected)
      || w.ev.state == AwaitDisconnection
    case SeTurn(_, _, tcp, accept) =>
      (w.backlog && accept) || (tcp && w.se.hasClient && (w.toSe != [] || w.closed))
    case Establish => w.client == Opening
    case SetMode(_) => false
  }

  predicate Productive(x: Watch, e: Event) {
    !Ended(x) && Works(x.w, e)
  }

  // ---- What a consumed response leads to ----

  lemma DecideStops(s: Evcc, i: EvInput, id: SessionId)
    requires InSession(s.state) && Succeeds(s.received, Asks(s.state), id) && HasAnswer(s)
    requires Named(s.state) || s.state == AwaitSessionSetup ==> s.secc.sessionId == id
    requires !i.enable && i.socketVoltage == None && i.socketCurrent == None && s.info.memorizedVoltage == 0.0
    requires s.state == AwaitServiceDiscovery ==> Negotiate(s.info.transferMode, s.secc.modes).1
    requires s.state == AwaitAuthorization ==> s.secc.authorized
    requires s.state == AwaitCableCheck ==> s.secc.processing == ProcessingFinished
    requires s.state == AwaitCurrentDemand ==> Amps(s.actualCurrent)
    ensures var next := Decide(s, i).next;
            if s.state == AwaitCurrentDemand && s.actualCurrent != 0.0 then next == s.state
            else MovesOn(s.state, next) && next != AwaitCurrentDemand && next != AwaitChargingStatus
  {
    hide Negotiate;
  }

  lemma EvTurnConsumesStops(w: World, i: EvInput, udp: bool)
    requires Inv(w) && Tame(w) && Agreed(w) && InDialogue(w) && w.toEv != [] && Off(i)
    ensures var t := EvTurnStep(w, i, udp, true).ev.state;
            if w.ev.state == AwaitCurrentDemand && !(w.toEv[0].CurrentDemandRes? && ToReal(w.toEv[0].current) == 0.0) then t == w.ev.state
            else MovesOn(w.ev.state, t) && t != AwaitCurrentDemand && t != AwaitChargingStatus
  {
    hide EvTurnStep;
    hide EvccSpec.Operate;
    hide EvccSpec.OnFrame;
    hide Requests;
    hide Succeeds;
    hide HasReplied;
    hide Ready;
    hide Decide;
    hide Negotiate;
    hide HasAnswer;
    hide Asks;
    hide MovesOn;
    hide ToReal;
    EvTurnConsumes(w, i, udp);
    EvReceives(w.ev, w.toEv[0], w.se.info.sessionId);
    ReceiveTame(w.ev, w.toEv[0], w.se.info.modes, w.se.info.sessionId);
    var s := Delivered(w).ev;
    var c := WithStatus(w, i);
    SlotAnswers(w.toEv[0], s, w.se.info.sessionId);
    NotDue(s, c);
    ER.SessionOperate(s, c);
    DecideStops(s, c, w.se.info.sessionId);
  }

  // ---- One turn ----

  lemma StageDrops(from: EvState, to: EvState)
    requires MovesOn(from, to) && to != AwaitCurrentDemand && to != AwaitChargingStatus
    ensures Stage(to) < Stage(from) && Stage(from) >= 2
    ensures InSession(to) || to == AwaitDisconnection
  {
  }

  lemma NoLoop(state: EvState)
    ensures !MovesOn(state, state)
  {
  }

  lemma ConsumingLowersRank(w: World, i: EvInput, udp: bool)
    requires Underway(w) && InDialogue(w) && w.toEv != [] && Off(i)
    ensures var v := EvTurnStep(w, i, udp, true); Underway(v) && Distance(v) < Distance(w)
  {
    hide EvTurnStep;
    hide Inv;
    hide InDialogue;
    hide Tame;
    hide MovesOn;
    hide Negotiate;
    var v := EvTurnStep(w, i, udp, true);
    EvTurnConsumesStops(w, i, udp);
    EvTurnConsumesLink(w, i, udp);
    EvTurnConsumesTame(w, i, udp);
    EvTurnKeepsInv(w, i, udp, true);
    EvTurnTame(w, i, udp, true);
    WhereItIs(v);
    if v.ev.state != w.ev.state {
      StageDrops(w.ev.state, v.ev.state);
      AgreedLater(w, v);
    } else {
      NoLoop(v.ev.state);
    }
  }

  lemma AgreedLater(w: World, v: World)
    requires Agreed(w) && MovesOn(w.ev.state, v.ev.state) && v.se == w.se
    requires w.ev.state != AwaitServiceDiscovery ==> v.ev.info == w.ev.info
    ensures Agreed(v)
  {
    hide Negotiate;
  }

  /** Where a world is, judged by the vehicle's state. */
  lemma WhereItIs(w: World)
    requires Inv(w)
    ensures InSession(w.ev.state) ==> InDialogue(w)
    ensures w.ev.state == AwaitDisconnection && w.client == Connected ==> Parting(w)
  {
    hide Dialogue;
  }

  lemma EvTurnConsumesLink(w: World, i: EvInput, udp: bool)
    requires Inv(w) && InDialogue(w) && w.toEv != []
    ensures var v := EvTurnStep(w, i, udp, true); v.client == Connected && v.backlog == w.backlog == false && v.se.hasClient
    ensures InSession(w.ev.state) && w.toSe == []
  {
    hide EvTurnStep;
    hide Requests;
    hide Succeeds;
    hide HasReplied;
    hide MovesOn;
    EvTurnConsumes(w, i, udp);
    ReadyFacts(w.ev.state, w.se.state);
  }

  lemma AskingLowersRank(w: World, i: EvInput, udp: bool, tcp: bool)
    requires Underway(w) && InDialogue(w) && (!tcp || w.toEv == []) && Off(i)
    ensures var v := EvTurnStep(w, i, udp, tcp);
            Underway(v) && Distance(v) + (if Works(w, EvTurn(i, udp, tcp)) then 1 else 0) <= Distance(w)
  {
    hide EvTurnStep;
    hide Inv;
    hide InDialogue;
    hide Tame;
    hide SendDue;
    EvTurnAsksTame(w, i, udp, tcp);
    EvTurnKeepsInv(w, i, udp, tcp);
    EvTurnTame(w, i, udp, tcp);
    WhereItIs(EvTurnStep(w, i, udp, tcp));
    DialogueFacts(w);
    if SendDue(w.ev, WithStatus(w, i)) {
      DueMeansQuiet(w, WithStatus(w, i));
    }
  }

  lemma DueMeansQuiet(w: World, i: EvInput)
    requires InDialogue(w) && SendDue(w.ev, i)
    ensures w.toEv == [] && w.toSe == []
  {
  }

  lemma StillDriving(w: World)
    requires InDialogue(w) && w.ev.state == AwaitCurrentDemand
    ensures SeccSpec.PowerState(w.se.state)
  {
    BeforeDemand(w.se.state);
  }

  lemma SeTurnInDialogueLowersRank(w: World, j: SeInput, udp: bool, tcp: bool, accept: bool)
    requires Underway(w) && InDialogue(w) && j.reading == None
    ensures var v := SeTurnStep(w, j, udp, tcp, accept);
            Underway(v) && Distance(v) + (if Works(w, SeTurn(j, udp, tcp, accept)) then 1 else 0) <= Distance(w)
  {
    hide SeTurnStep;
    hide Inv;
    hide InDialogue;
    hide Tame;
    hide TameRequest;
    hide TameResponse;
    hide Amps;
    DialogueFacts(w);
    SeTurnKeepsInv(w, j, udp, tcp, accept);
    SeTurnTame(w, j, udp, tcp, accept);
    var v := SeTurnStep(w, j, udp, tcp, accept);
    if tcp && w.se.hasClient && w.toSe != [] {
      SeTurnReplyTame(w, j, udp, accept);
    } else {
      SeTurnWaitingInDialogue(w, j, udp, tcp, accept);
      if w.ev.state == AwaitCurrentDemand {
        StillDriving(w);
      }
    }
    WhereItIs(v);
  }

  // ---- Before and after the dialogue ----

  lemma EvTurnLinkingLowersRank(w: World, i: EvInput, udp: bool, tcp: bool)
    requires Underway(w) && Linking(w) && Off(i)
    ensures var v := EvTurnStep(w, i, udp, tcp);
            Underway(v) && Distance(v) + (if Works(w, EvTurn(i, udp, tcp)) then 1 else 0) <= Distance(w)
  {
    hide Inv;
    hide Tame;
    hide EvccSpec.Operate;
    hide EvccSpec.OnFrame;
    hide Negotiate;
    hide InDialogue;
    InvCommon(w);
    EvTurnKeepsInv(w, i, udp, tcp);
    EvTurnTame(w, i, udp, tcp);
    EvLinks(w.ev, WithStatus(w, i));
    ER.OutsideSession(w.ev, WithStatus(w, i));
    WhereItIs(EvTurnStep(w, i, udp, tcp));
  }

  lemma SeTurnLinkingLowersRank(w: World, j: SeInput, udp: bool, tcp: bool, accept: bool)
    requires Underway(w) && Linking(w) && j.reading == None
    ensures var v := SeTurnStep(w, j, udp, tcp, accept);
            Underway(v) && Distance(v) + (if Works(w, SeTurn(j, udp, tcp, accept)) then 1 else 0) <= Distance(w)
  {
    hide Inv;
    hide Tame;
    hide SeTurnStep;
    hide Negotiate;
    hide InDialogue;
    InvCommon(w);
    SeTurnKeepsInv(w, j, udp, tcp, accept);
    SeTurnTame(w, j, udp, tcp, accept);
    SeTurnWaiting(w, j, udp, tcp, accept);
  }

  /** The vehicle closes the connection. */
  lemma EvTurnParts(w: World, i: EvInput, udp: bool, tcp: bool)
    requires Inv(w) && Parting(w) && w.ev.state == AwaitDisconnection
    ensures var v := EvTurnStep(w, i, udp, tcp);
            v.client == Closed && v.ev.state == AwaitDisconnection && v.se == w.se
  {
    hide Inv;
    hide EvccSpec.Operate;
    hide EvccSpec.OnFrame;
    InvCommon(w);
    EvParts(w.ev, WithStatus(w, i));
  }

  lemma SeTurnPartingKeepsRank(w: World, j: SeInput, udp: bool, tcp: bool, accept: bool)
    requires Underway(w) && Parting(w) && w.ev.state == AwaitDisconnection && j.reading == None
    ensures var v := SeTurnStep(w, j, udp, tcp, accept);
            Underway(v) && Distance(v) <= Distance(w) && !Works(w, SeTurn(j, udp, tcp, accept))
  {
    hide Inv;
    hide Tame;
    hide SeTurnStep;
    InvCommon(w);
    SeTurnKeepsInv(w, j, udp, tcp, accept);
    SeTurnTame(w, j, udp, tcp, accept);
    SeTurnWaiting(w, j, udp, tcp, accept);
  }

  // ---- After the connection ----

  lemma ClosedIsApart(w: World)
    requires Inv(w) && w.client == Closed
    ensures Apart(w) && Common(w)
  {
    hide Dialogue;
    hide Common;
  }

  lemma UnderwayLinked(w: World)
    requires Underway(w)
    ensures w.client != Closed && w.ev.state != EvFinished
  {
    hide Inv;
    hide Tame;
    hide Dialogue;
  }

  lemma EvCloses(s: Evcc, i: EvInput)
    requires s.state == AwaitDisconnection && i.client == Closed
    ensures ER.Next(s, i).state == EvFinished && ER.Output(s, i) == EvOutput([], [], Keep)
  {
  }

  /** Without an offer a vehicle that has no connection opens none, and does not come back to the end of
      a session. */
  lemma EvStaysAlone(s: Evcc, i: EvInput)
    requires Alone(s) && s.received == Empty && i.client == Closed && s.state != AwaitDisconnection
    ensures ER.Next(s, i).state != AwaitDisconnection
  {
    hide SessionStep;
  }

  lemma NothingToRead(w: World, udp: bool, tcp: bool)
    requires w.udpToEv == [] && w.toEv == []
    ensures EvReads(w, udp, tcp) == w
  {
  }

  /** The vehicle's turn once it has closed the connection. */
  lemma EvTurnAfterwards(w: World, i: EvInput, udp: bool, tcp: bool)
    requires Inv(w) && w.client == Closed && (w.ev.state == AwaitDisconnection || w.udpToEv == [])
    ensures var v := EvTurnStep(w, i, udp, tcp);
            && v.se == w.se && v.client == Closed && v.toSe == w.toSe && v.backlog == w.backlog && v.closed == w.closed
            && (if w.ev.state == AwaitDisconnection then v.ev.state == EvFinished else v.ev.state != AwaitDisconnection)
  {
    hide EvccSpec.Operate;
    hide EvReads;
    hide Inv;
    hide Common;
    ClosedIsApart(w);
    CommonTimers(w);
    ApartReads(w, udp, tcp);
    var r := EvReads(w, udp, tcp);
    EvAlone(r.ev, WithStatus(r, i));
    if w.ev.state == AwaitDisconnection {
      EvCloses(r.ev, WithStatus(r, i));
    } else {
      NothingToRead(w, udp, tcp);
      EvStaysAlone(r.ev, WithStatus(r, i));
    }
    assert w.toSe + [] == w.toSe;
  }

  lemma CommonTimers(w: World)
    requires Common(w)
    ensures w.ev.repeatTimer.duration != 0 && w.ev.powerTimer.duration != 0 && w.ev.received == Empty && SR.Settled(w.se)
  {
  }

  /** An answering state that keeps its client does not finish. */
  lemma GoesOn(s: Secc, i: SeInput)
    requires IsAnswering(s.state) && !s.entered && (s.hasClient || s.state == AnsweredSdp)
    ensures OnePass(SwitchOff(s), i).s.state != SeFinished
  {
    hide OnePass;
    hide Route;
    hide KindOf;
    var u := SwitchOff(s);
    SR.PassWithoutEntry(u, i);
    var route := Route(u.state, KindOf(u.received));
    if route.Some? {
      SR.RouteFacts(u.state, KindOf(u.received), route.value);
    }
  }

  lemma ClientLost(s: Secc, i: SeInput)
    requires s.state == AnsweredSessionStop && !s.entered && !s.hasClient
    ensures OnePass(SwitchOff(s), i).s.state == SeFinished
  {
    hide OnePass;
    SR.PassWithoutEntry(SwitchOff(s), i);
  }

  /** Reading touches neither the state nor, on an open connection, the client. */
  lemma ReadingKeepsClient(w: World, udp: bool, tcp: bool)
    requires Common(w)
    ensures var r := SeReads(w, udp, tcp);
            && r.se.state == w.se.state && r.se.entered == w.se.entered && r.client == w.client && r.ev == w.ev
            && r.se.hasClient == (w.se.hasClient && !(tcp && w.toSe == [] && w.closed))
            && r.closed == (w.closed && !(tcp && w.se.hasClient && w.toSe == []))
  {
    hide SeccSpec.OnFrame;
    hide SR.Settled;
    SearchRead(w, udp);
    var v := SeReads(w, udp, false);
    if w.toSe != [] {
      FrameKeepsClient(v.se, w.toSe[0]);
    }
  }

  lemma FrameKeepsClient(s: Secc, m: Message)
    ensures var t := SeccSpec.OnFrame(s, m); t.state == s.state && t.entered == s.entered && t.hasClient == s.hasClient
  {
    hide ToReal;
    hide ChosenSchema;
  }

  lemma SeTurnStaysClosed(w: World, j: SeInput, udp: bool, tcp: bool, accept: bool)
    requires Common(w) && w.client == Closed
    ensures var v := SeTurnStep(w, j, udp, tcp, accept);
            && v.ev == w.ev && v.client == Closed && (v.closed ==> w.closed && !(tcp && w.se.hasClient && w.toSe == []))
  {
    hide SeccSpec.Operate;
    hide SeReads;
    hide Common;
    ReadingKeepsClient(w, udp, tcp);
  }

  /** The charger's turn once the vehicle has closed the connection. */
  lemma SeTurnAfterwards(w: World, j: SeInput, udp: bool, tcp: bool, accept: bool)
    requires Inv(w) && w.client == Closed && (w.se.hasClient ==> w.se.state == AnsweredSessionStop)
    ensures var v := SeTurnStep(w, j, udp, tcp, accept);
            && v.ev == w.ev && v.client == Closed
            && v.se.hasClient == (w.se.hasClient && !tcp)
            && (w.se.hasClient ==> (v.se.state == AnsweredSessionStop || tcp) && (Finishes(w, j, udp, tcp, accept) <==> tcp))
  {
    hide SeTurnStep;
    hide SeReads;
    hide Inv;
    hide OnePass;
    hide SwitchOff;
    ClosedIsApart(w);
    CommonTimers(w);
    SeTurnKeepsInv(w, j, udp, tcp, accept);
    SeTurnStaysClosed(w, j, udp, tcp, accept);
    ClosedIsApart(SeTurnStep(w, j, udp, tcp, accept));
    ReadingKeepsClient(w, udp, tcp);
    var r := SeReads(w, udp, tcp);
    var c := Offered(r, j, accept);
    if w.se.hasClient && !tcp {
      SeTurnWaiting(w, j, udp, tcp, accept);
      GoesOn(r.se, c);
    } else if w.se.hasClient {
      ClientLost(r.se, c);
    }
  }

  lemma UnderwayGoesOn(w: World, j: SeInput, udp: bool, tcp: bool, accept: bool)
    requires Underway(w)
    ensures !Finishes(w, j, udp, tcp, accept)
  {
    hide SeReads;
    hide OnePass;
    hide SwitchOff;
    hide Tame;
    UnderwayCharger(w);
    ReadingKeepsClient(w, udp, tcp);
    var r := SeReads(w, udp, tcp);
    GoesOn(r.se, Offered(r, j, accept));
  }

  lemma UnderwayCharger(w: World)
    requires Underway(w)
    ensures Common(w) && IsAnswering(w.se.state) && !w.se.entered && !w.closed && (w.se.hasClient || w.se.state == AnsweredSdp)
  {
    hide Requests;
    hide Succeeds;
    hide Asks;
    hide Ready;
    hide HasReplied;
    hide Tame;
    if InDialogue(w) {
      ReadyFacts(w.ev.state, w.se.state);
    }
  }

  // ---- One turn of the watched system ----

  lemma TurnLowersRank(x: Watch, e: Event)
    requires Stopping(x) && Calm(x.w, e)
    ensures Stopping(Observe(x, e)) && Rank(Observe(x, e)) + (if Productive(x, e) then 1 else 0) <= Rank(x)
  {
    hide Step;
    hide Inv;
    hide Tame;
    hide Underway;
    hide SeEnds;
    hide Distance;
    hide Works;
    if Ended(x) {
      StepKeepsInv(x.w, e);
      StepTame(x.w, e);
    } else if Closing(x) {
      ClosingLowersRank(x, e);
    } else {
      UnderwayLowersRank(x, e);
    }
  }

  lemma ClosingLowersRank(x: Watch, e: Event)
    requires Closing(x) && Tame(x.w) && !Ended(x) && Calm(x.w, e)
    ensures Stopping(Observe(x, e)) && Rank(Observe(x, e)) + (if Productive(x, e) then 1 else 0) <= Rank(x)
  {
    hide EvTurnStep;
    hide SeTurnStep;
    hide Inv;
    hide Tame;
    hide Finishes;
    hide Underway;
    hide Distance;
    var w := x.w;
    ClosedFacts(w);
    StepKeepsInv(w, e);
    StepTame(w, e);
    match e
    case EvTurn(i, udp, tcp) => EvTurnAfterwards(w, i, udp, tcp);
    case SeTurn(j, udp, tcp, accept) => SeTurnAfterwards(w, j, udp, tcp, accept);
    case Establish =>
    case SetMode(_) =>
  }

  lemma ClosedFacts(w: World)
    requires Inv(w) && w.client == Closed
    ensures !InSession(w.ev.state) && Quiet(w) && !w.backlog && w.closed == w.se.hasClient
    ensures w.se.hasClient && w.se.state == AnsweredSessionStop ==> w.udpToEv == []
  {
    ClosedIsApart(w);
  }

  lemma UnderwayLowersRank(x: Watch, e: Event)
    requires Underway(x.w) && !x.evEnded && !x.seEnded && Calm(x.w, e)
    ensures Stopping(Observe(x, e)) && Rank(Observe(x, e)) + (if Productive(x, e) then 1 else 0) <= Rank(x)
  {
    hide EvTurnStep;
    hide SeTurnStep;
    hide Underway;
    hide Inv;
    hide Tame;
    hide Finishes;
    hide Distance;
    hide Works;
    UnderwayLinked(x.w);
    match e
    case EvTurn(i, udp, tcp) => EvTurnLowersRank(x, i, udp, tcp);
    case SeTurn(j, udp, tcp, accept) =>
      UnderwayGoesOn(x.w, j, udp, tcp, accept);
      SeTurnLowersRank(x.w, j, udp, tcp, accept);
      StaysUnderway(x, e);
    case Establish =>
      EstablishLowersRank(x.w);
      StaysUnderway(x, e);
    case SetMode(_) =>
      SetModeKeepsRank(x.w, e.mode);
      StaysUnderway(x, e);
  }

  lemma StaysUnderway(x: Watch, e: Event)
    requires Underway(x.w) && !x.evEnded && !x.seEnded && !SeEnds(x.w, e)
    requires Underway(Step(x.w, e)) && Distance(Step(x.w, e)) + (if Works(x.w, e) then 1 else 0) <= Distance(x.w)
    ensures Stopping(Observe(x, e)) && Rank(Observe(x, e)) + (if Productive(x, e) then 1 else 0) <= Rank(x)
  {
    UnderwayLinked(x.w);
    UnderwayLinked(Step(x.w, e));
    hide Step;
    hide Distance;
    hide Works;
    hide SeEnds;
    hide Inv;
    hide Tame;
    hide Linking;
    hide InDialogue;
    hide Parting;
  }

  lemma EvTurnLowersRank(x: Watch, i: EvInput, udp: bool, tcp: bool)
    requires Underway(x.w) && !x.evEnded && !x.seEnded && Off(i)
    ensures var e := EvTurn(i, udp, tcp);
            Stopping(Observe(x, e)) && Rank(Observe(x, e)) + (if Productive(x, e) then 1 else 0) <= Rank(x)
  {
    hide EvTurnStep;
    hide Stopping;
    hide Rank;
    hide Distance;
    hide Off;
    hide Works;
    hide Productive;
    hide Inv;
    hide Tame;
    hide InDialogue;
    hide Linking;
    var w := x.w;
    if Linking(w) {
      EvTurnLinkingLowersRank(w, i, udp, tcp);
      StaysUnderway(x, EvTurn(i, udp, tcp));
    } else if !InDialogue(w) {
      PartingLowersRank(x, i, udp, tcp);
    } else if tcp && w.toEv != [] {
      ConsumingWins(x, i, udp);
    } else {
      AskingLowersRank(w, i, udp, tcp);
      StaysUnderway(x, EvTurn(i, udp, tcp));
    }
  }

  lemma PartingLowersRank(x: Watch, i: EvInput, udp: bool, tcp: bool)
    requires Inv(x.w) && Tame(x.w) && Parting(x.w) && x.w.ev.state == AwaitDisconnection && !x.evEnded && !x.seEnded
    ensures var e := EvTurn(i, udp, tcp);
            Stopping(Observe(x, e)) && Rank(Observe(x, e)) + (if Productive(x, e) then 1 else 0) <= Rank(x)
  {
    hide EvTurnStep;
    hide Inv;
    hide Tame;
    EvTurnParts(x.w, i, udp, tcp);
    EvTurnKeepsInv(x.w, i, udp, tcp);
    EvTurnTame(x.w, i, udp, tcp);
  }

  /** A consumed response brings the vehicle on, or, with the session over, to the disconnection. */
  lemma ConsumingWins(x: Watch, i: EvInput, udp: bool)
    requires Underway(x.w) && InDialogue(x.w) && x.w.toEv != [] && !x.evEnded && !x.seEnded && Off(i)
    ensures var e := EvTurn(i, udp, true);
            Stopping(Observe(x, e)) && Rank(Observe(x, e)) + (if Productive(x, e) then 1 else 0) <= Rank(x)
  {
    hide EvTurnStep;
    hide Stopping;
    hide Rank;
    hide Distance;
    hide Off;
    hide Productive;
    hide Underway;
    hide InDialogue;
    ConsumingLowersRank(x.w, i, udp);
    StaysUnderway(x, EvTurn(i, udp, true));
  }

  lemma SeTurnLowersRank(w: World, j: SeInput, udp: bool, tcp: bool, accept: bool)
    requires Underway(w) && j.reading == None
    ensures var v := SeTurnStep(w, j, udp, tcp, accept);
            Underway(v) && Distance(v) + (if Works(w, SeTurn(j, udp, tcp, accept)) then 1 else 0) <= Distance(w)
  {
    hide SeTurnStep;
    hide Distance;
    hide Works;
    hide Inv;
    hide Tame;
    hide InDialogue;
    hide Linking;
    if Linking(w) {
      SeTurnLinkingLowersRank(w, j, udp, tcp, accept);
    } else if InDialogue(w) {
      SeTurnInDialogueLowersRank(w, j, udp, tcp, accept);
    } else {
      SeTurnPartingKeepsRank(w, j, udp, tcp, accept);
    }
  }

  lemma EstablishLowersRank(w: World)
    requires Underway(w)
    ensures Underway(Step(w, Establish)) && Distance(Step(w, Establish)) + (if Works(w, Establish) then 1 else 0) <= Distance(w)
  {
    hide Dialogue;
    hide SR.Settled;
    hide Negotiate;
    hide TameRequest;
    hide TameResponse;
    hide Amps;
  }

  lemma SetModeKeepsRank(w: World, mode: TransferMode)
    requires Underway(w) && Agreed(Step(w, SetMode(mode)))
    ensures Underway(Step(w, SetMode(mode))) && Distance(Step(w, SetMode(mode))) == Distance(w) && !Works(w, SetMode(mode))
  {
    hide Agreed;
    hide Inv;
    SetModeKeepsInv(w, mode);
    hide Requests;
    hide Succeeds;
    hide Asks;
    hide Ready;
    hide HasReplied;
    hide TameRequest;
    hide TameResponse;
  }

  // ---- Runs ----

  function Follow(x: Watch, es: seq<Event>): Watch {
    if es == [] then x else Observe(Follow(x, es[..|es| - 1]), es[|es| - 1])
  }

  /** The number of productive turns of a run. */
  function Productives(x: Watch, es: seq<Event>): nat {
    if es == [] then 0
    else
      var before := es[..|es| - 1];
      Productives(x, before) + if Productive(Follow(x, before), es[|es| - 1]) then 1 else 0
  }

  lemma RankIsBounded(x: Watch)
    requires Stopping(x)
    ensures Rank(x) <= LONGEST
  {
    hide Inv;
    hide InDialogue;
    hide Tame;
  }

  predicate AllCalm(x: Watch, es: seq<Event>) {
    forall k :: 0 <= k < |es| ==> Calm(Follow(x, es[..k]).w, es[k])
  }

  lemma {:induction false} RunLowersRank(x: Watch, es: seq<Event>)
    requires Stopping(x) && AllCalm(x, es)
    ensures Stopping(Follow(x, es)) && Productives(x, es) + Rank(Follow(x, es)) <= Rank(x)
  {
    hide Stopping;
    hide Calm;
    hide Rank;
    hide Observe;
    hide Productive;
    if es != [] {
      var n := |es| - 1;
      forall k | 0 <= k < n
        ensures Calm(Follow(x, es[..n][..k]).w, es[..n][k])
      {
        assert es[..n][..k] == es[..k];
      }
      RunLowersRank(x, es[..n]);
      TurnLowersRank(Follow(x, es[..n]), es[n]);
    }
  }

  /** No session that is no longer enabled goes on for more than 58 productive turns, whatever turns are
      taken in whatever order, and whether or not the two processes may run. */
  lemma BoundedStop(x: Watch, es: seq<Event>)
    requires Stopping(x) && AllCalm(x, es)
    ensures Productives(x, es) + Rank(Follow(x, es)) <= Rank(x) <= LONGEST
  {
    hide Stopping;
    hide AllCalm;
    hide Rank;
    hide Follow;
    hide Productives;
    RunLowersRank(x, es);
    RankIsBounded(x);
  }

  /** The clock has passed the end of the timer that makes the vehicle ask again. */
  predicate Timely(w: World, i: EvInput) {
    InSession(w.ev.state) && ER.WillRepeat(w.ev) ==> RepeatTimer(w.ev).value.Elapsed(i.now) > 0
  }

  /** As long as the connection is there, the network, the vehicle or the charger has something to do. */
  lemma SomethingToDo(w: World, i: EvInput, j: SeInput)
    requires Underway(w) && Timely(w, i)
    ensures Works(w, Establish) || Works(w, EvTurn(i, true, true)) || Works(w, SeTurn(j, true, true, true))
  {
    hide Inv;
    hide Tame;
    hide Agreed;
    hide Asks;
    hide Ready;
    hide HasReplied;
    hide Requests;
    hide Succeeds;
  }

  /** A turn of the vehicle that does nothing leaves the charger what it had to do. */
  lemma IdleUnderway(w: World, i: EvInput)
    requires Underway(w) && !Works(w, Establish) && !Works(w, EvTurn(i, true, true))
    ensures var v := EvTurnStep(w, i, true, true);
            v.se == w.se && v.backlog == w.backlog && v.closed == w.closed && v.toSe == w.toSe
  {
    hide EvTurnStep;
    hide Inv;
    hide InDialogue;
    hide Tame;
    hide SendDue;
    assert InDialogue(w);
    DialogueFacts(w);
    EvTurnAsksTame(w, i, true, true);
  }

  /** As long as not both sides have finished, the network, the vehicle or the charger has a productive
      turn to take: the vehicle once its clock has passed the end of its repeat timer. */
  lemma SomeTurnIsProductive(x: Watch, i: EvInput, j: SeInput)
    requires Stopping(x) && !Ended(x) && Timely(x.w, i)
    ensures Productive(x, Establish) || Productive(x, EvTurn(i, true, true)) || Productive(x, SeTurn(j, true, true, true))
  {
    hide Inv;
    hide Tame;
    hide Underway;
    hide Timely;
    if Closing(x) {
      ClosedFacts(x.w);
    } else {
      SomethingToDo(x.w, i, j);
    }
  }

  lemma IdleTurn(x: Watch, i: EvInput)
    requires Stopping(x) && !Ended(x) && !Productive(x, Establish) && !Productive(x, EvTurn(i, true, true))
    ensures var v := EvTurnStep(x.w, i, true, true);
            !x.seEnded && v.se == x.w.se && v.backlog == x.w.backlog && v.closed == x.w.closed && v.toSe == x.w.toSe
  {
    hide EvTurnStep;
    hide Inv;
    hide Tame;
    hide Underway;
    hide SendDue;
    if Closing(x) {
      ClosedFacts(x.w);
      EvTurnAfterwards(x.w, i, true, true);
    } else {
      IdleUnderway(x.w, i);
    }
  }

  /** The network, the vehicle and the charger each take a full turn. */
  function Round(x: Watch, i: EvInput, j: SeInput): Watch {
    Observe(Observe(Observe(x, Establish), EvTurn(i, true, true)), SeTurn(j, true, true, true))
  }

  /** One of the three turns of a round is productive. */
  lemma RoundIsProductive(x: Watch, i: EvInput, j: SeInput)
    requires Stopping(x) && Off(i) && Timely(x.w, i) && !Ended(x)
    ensures Productive(x, Establish) || Productive(Observe(x, Establish), EvTurn(i, true, true))
            || Productive(Observe(Observe(x, Establish), EvTurn(i, true, true)), SeTurn(j, true, true, true))
  {
    hide Stopping;
    hide Off;
    hide Timely;
    hide EvTurnStep;
    SomeTurnIsProductive(x, i, j);
    if !Productive(x, Establish) {
      NothingToEstablish(x);
      if !Productive(x, EvTurn(i, true, true)) {
        IdleTurn(x, i);
      }
    }
  }

  lemma NothingToEstablish(x: Watch)
    requires Stopping(x) && !Ended(x) && !Productive(x, Establish)
    ensures Step(x.w, Establish) == x.w && Observe(x, Establish) == x
  {
    hide Inv;
    hide Tame;
    hide Dialogue;
    if !Closing(x) {
      UnderwayLinked(x.w);
    }
  }

  predicate CalmRound(r: (EvInput, SeInput)) {
    Off(r.0) && r.1.reading == None
  }

  lemma RoundLowersRank(x: Watch, i: EvInput, j: SeInput)
    requires Stopping(x) && CalmRound((i, j)) && Timely(x.w, i)
    ensures Stopping(Round(x, i, j)) && (Rank(Round(x, i, j)) < Rank(x) || (Rank(Round(x, i, j)) == Rank(x) && Ended(x)))
  {
    assert Calm(x.w, Establish);
    hide Stopping;
    hide Rank;
    hide Ended;
    hide Timely;
    hide Observe;
    hide Productive;
    var e, v := Observe(x, Establish), Observe(Observe(x, Establish), EvTurn(i, true, true));
    assert Calm(e.w, EvTurn(i, true, true)) && Calm(v.w, SeTurn(j, true, true, true));
    hide Calm;
    TurnLowersRank(x, Establish);
    TurnLowersRank(e, EvTurn(i, true, true));
    TurnLowersRank(v, SeTurn(j, true, true, true));
    if !Ended(x) {
      RoundIsProductive(x, i, j);
    } else {
      EndedRank(x);
    }
  }

  lemma EndedRank(x: Watch)
    requires Stopping(x)
    ensures Rank(x) == 0 <==> Ended(x)
  {
    hide Inv;
    hide Tame;
    hide Dialogue;
  }

  function Rounds(x: Watch, rs: seq<(EvInput, SeInput)>): Watch {
    if rs == [] then x else Round(Rounds(x, rs[..|rs| - 1]), rs[|rs| - 1].0, rs[|rs| - 1].1)
  }

  predicate CalmRounds(x: Watch, rs: seq<(EvInput, SeInput)>) {
    forall k :: 0 <= k < |rs| ==> CalmRound(rs[k]) && Timely(Rounds(x, rs[..k]).w, rs[k].0)
  }

  lemma CalmRoundsBefore(x: Watch, rs: seq<(EvInput, SeInput)>)
    requires CalmRounds(x, rs) && rs != []
    ensures CalmRounds(x, rs[..|rs| - 1])
    ensures CalmRound(rs[|rs| - 1]) && Timely(Rounds(x, rs[..|rs| - 1]).w, rs[|rs| - 1].0)
  {
    hide Timely;
    hide Rounds;
    var n := |rs| - 1;
    forall k | 0 <= k < n
      ensures CalmRound(rs[..n][k]) && Timely(Rounds(x, rs[..n][..k]).w, rs[..n][k].0)
    {
      assert rs[..n][..k] == rs[..k];
    }
  }

  lemma {:induction false} RoundsLowerRank(x: Watch, rs: seq<(EvInput, SeInput)>)
    requires Stopping(x) && CalmRounds(x, rs)
    ensures Stopping(Rounds(x, rs)) && (Ended(Rounds(x, rs)) || Rank(Rounds(x, rs)) + |rs| <= Rank(x))
  {
    hide Stopping;
    hide CalmRound;
    hide Rank;
    hide Ended;
    hide Timely;
    hide Round;
    if rs != [] {
      var n := |rs| - 1;
      CalmRoundsBefore(x, rs);
      hide CalmRounds;
      RoundsLowerRank(x, rs[..n]);
      var v := Rounds(x, rs[..n]);
      RoundLowersRank(v, rs[n].0, rs[n].1);
      EndedRank(v);
      EndedRank(Rounds(x, rs));
    }
  }

  /** The watch begins. */
  function Watching(w: World): Watch {
    Watch(w, false, false)
  }

  lemma SimulatedStops(c: Setup, before: seq<Event>)
    requires AllSimulated(before)
    ensures var w := Run(Begin(c), before); (Linking(w) || InDialogue(w)) && Agreed(w) ==> Stopping(Watching(w))
  {
    hide Run;
    hide Begin;
    hide AllSimulated;
    hide Inv;
    hide Tame;
    hide InDialogue;
    hide Linking;
    hide Parting;
    hide Closing;
    hide Agreed;
    RunTame(c, before);
  }

  lemma RoundsFinish(x: Watch, rs: seq<(EvInput, SeInput)>)
    requires Stopping(x) && CalmRounds(x, rs) && |rs| >= LONGEST
    ensures Ended(Rounds(x, rs))
  {
    hide Stopping;
    hide CalmRounds;
    hide Rounds;
    hide Rank;
    hide Ended;
    RankIsBounded(x);
    RoundsLowerRank(x, rs);
    EndedRank(Rounds(x, rs));
  }

  /** A system with simulated hardware that is in a session when the application stops enabling it has
      come to the finished state on both sides after 58 rounds, whether or not the processes may run, if
      only the rounds leave the repeat timers time to end. */
  lemma StopsFromAnywhere(c: Setup, before: seq<Event>, rs: seq<(EvInput, SeInput)>)
    requires AllSimulated(before) && |rs| >= LONGEST
    ensures var w := Run(Begin(c), before);
            (Linking(w) || InDialogue(w)) && Agreed(w) && CalmRounds(Watching(w), rs) ==> Ended(Rounds(Watching(w), rs))
  {
    hide Run;
    hide Begin;
    hide AllSimulated;
    hide InDialogue;
    hide Linking;
    hide Agreed;
    hide Stopping;
    hide CalmRounds;
    hide Rounds;
    hide Ended;
    SimulatedStops(c, before);
    var w := Run(Begin(c), before);
    if (Linking(w) || InDialogue(w)) && Agreed(w) && CalmRounds(Watching(w), rs) {
      RoundsFinish(Watching(w), rs);
    }
  }

  // ---- Held in the finished state ----

  predicate Runs(r: (EvInput, SeInput)) {
    r.0.run && r.1.run
  }

  /** Who has ended is still in its finished state. */
  predicate Rests(x: Watch) {
    && (x.evEnded ==> x.w.ev.state == EvFinished)
    && (x.seEnded ==> x.w.se.state == SeFinished)
  }

  lemma EvRests(w: World, i: EvInput, udp: bool, tcp: bool)
    requires w.ev.state == EvFinished && i.run
    ensures EvTurnStep(w, i, udp, tcp).ev.state == EvFinished
  {
    FinishedHearsNothing(w, udp, tcp);
    hide EvReads;
    var r := EvReads(w, udp, tcp);
    FinishedRests(r.ev, WithStatus(r, i));
    hide EvccSpec.Operate;
  }

  lemma FinishedHearsNothing(w: World, udp: bool, tcp: bool)
    requires w.ev.state == EvFinished
    ensures EvReads(w, udp, tcp).ev == w.ev
  {
  }

  lemma FinishedRests(s: Evcc, i: EvInput)
    requires s.state == EvFinished && i.run
    ensures ER.Next(s, i).state == EvFinished
  {
  }

  lemma SeRests(s: Secc, i: SeInput)
    requires OnePass(SwitchOff(s), i).s.state == SeFinished && i.run
    ensures SeccSpec.Operate(s, i).s.state == SeFinished
  {
    hide OnePass;
    var first := OnePass(SwitchOff(s), i);
    if first.s.entered {
      SR.PassOutsideDialogue(first.s.(received := Empty), i);
    }
  }

  lemma SeStaysFinished(s: Secc, i: SeInput)
    requires s.state == SeFinished && i.run
    ensures OnePass(SwitchOff(s), i).s.state == SeFinished
  {
    hide OnePass;
    SR.PassOutsideDialogue(SwitchOff(s), i);
  }

  lemma SeReadsKeepsState(w: World, udp: bool, tcp: bool)
    ensures SeReads(w, udp, tcp).se.state == w.se.state
  {
    hide SeccSpec.OnFrame;
    if udp && w.udpToSe != [] {
      FrameKeepsClient(w.se, w.udpToSe[0]);
    }
    var v := SeReads(w, udp, false);
    if v.toSe != [] {
      FrameKeepsClient(v.se, v.toSe[0]);
    }
  }

  lemma SeTurnRests(w: World, j: SeInput, udp: bool, tcp: bool, accept: bool)
    requires j.run && (w.se.state == SeFinished || Finishes(w, j, udp, tcp, accept))
    ensures SeTurnStep(w, j, udp, tcp, accept).se.state == SeFinished
  {
    hide SeReads;
    hide SeccSpec.Operate;
    hide OnePass;
    hide SwitchOff;
    SeReadsKeepsState(w, udp, tcp);
    var r := SeReads(w, udp, tcp);
    var c := Offered(r, j, accept);
    if w.se.state == SeFinished {
      SeStaysFinished(r.se, c);
    }
    SeRests(r.se, c);
  }

  lemma RoundRests(x: Watch, i: EvInput, j: SeInput)
    requires Rests(x) && i.run && j.run
    ensures Rests(Round(x, i, j))
  {
    hide EvTurnStep;
    hide SeTurnStep;
    hide Finishes;
    var e := Observe(x, Establish);
    var v := Observe(e, EvTurn(i, true, true));
    PO.EvTurnKeepsSe(e.w, i, true, true);
    if e.w.ev.state == EvFinished {
      EvRests(e.w, i, true, true);
    }
    SeTurnKeepsEv(v.w, j, true, true, true);
    if v.w.se.state == SeFinished || Finishes(v.w, j, true, true, true) {
      SeTurnRests(v.w, j, true, true, true);
    }
  }

  lemma {:induction false} RoundsRest(x: Watch, rs: seq<(EvInput, SeInput)>)
    requires Rests(x) && forall k :: 0 <= k < |rs| ==> Runs(rs[k])
    ensures Rests(Rounds(x, rs))
  {
    hide Rests;
    hide Round;
    if rs != [] {
      RoundsRest(x, rs[..|rs| - 1]);
      assert Runs(rs[|rs| - 1]);
      RoundRests(Rounds(x, rs[..|rs| - 1]), rs[|rs| - 1].0, rs[|rs| - 1].1);
    }
  }

  /** If the processes are allowed to run all the time, both of them are in their finished state after
      these rounds. */
  lemma StopsAndRests(c: Setup, before: seq<Event>, rs: seq<(EvInput, SeInput)>)
    requires AllSimulated(before) && |rs| >= LONGEST && forall k :: 0 <= k < |rs| ==> Runs(rs[k])
    ensures var w := Run(Begin(c), before);
            var v := Rounds(Watching(w), rs).w;
            (Linking(w) || InDialogue(w)) && Agreed(w) && CalmRounds(Watching(w), rs) ==> v.ev.state == EvFinished && v.se.state == SeFinished
  {
    hide Run;
    hide Begin;
    hide AllSimulated;
    hide InDialogue;
    hide Linking;
    hide Agreed;
    hide CalmRounds;
    hide Rounds;
    StopsFromAnywhere(c, before, rs);
    RoundsRest(Watching(Run(Begin(c), before)), rs);
  }
}
