// With the built-in simulated hardware and a common transfer mode a session that stays enabled comes to
// deliver current within a bounded number of rounds.

module BoundedStart {
  import opened V2g
  import opened PhysicalValues
  import opened Timers
  import opened EvccSpec
  import opened SeccSpec
  import opened ChargingSystem
  import opened Lockstep
  import BS = BoundedStop
  import ER = EvccRuns
  import ES = EvccSafety
  import SR = SeccRuns
  import PO = PowerOrder

  /** Simulated hardware and an application that wants to charge. */
  predicate On(i: EvInput) {
    i.enable && i.socketVoltage == None && i.socketCurrent == None && i.contactorFeedback == None
  }

  /** The states before power flows. The three-phase way is followed up to PowerDelivery, where it parts
      from the other one. */
  predicate OnTheWay(state: EvState, three: bool) {
    || ES.BeforeChoice(state) || state == AwaitPowerDelivery
    || (!three && (state == AwaitCableCheck || state == AwaitPreCharge || state == AwaitCurrentDemand))
  }

  /** The number of responses that lead from a state to PowerDelivery, or to CurrentDemand. */
  function Remaining(state: EvState, three: bool): nat {
    match state
    case AwaitAppProtocol => if three then 6 else 9
    case AwaitSessionSetup => if three then 5 else 8
    case AwaitServiceDiscovery => if three then 4 else 7
    case AwaitPaymentServiceSelection => if three then 3 else 6
    case AwaitAuthorization => if three then 2 else 5
    case AwaitChargeParameterDiscovery => if three then 1 else 4
    case AwaitCableCheck => 3
    case AwaitPreCharge => 2
    case AwaitPowerDelivery => if three then 0 else 1
    case _ => 0
  }

  predicate TenAmps(m: Message) {
    m.CurrentDemandReq? && ToReal(m.current) == 10.0
  }

  /** The contactor is closed, the source has been told to deliver ten amperes, and no other demand is on
      its way. */
  predicate Delivering(w: World) {
    && w.ev.state == AwaitCurrentDemand && !w.ev.entered && w.ev.ev.contactor && w.se.source.current == 10.0
    && (w.toSe != [] ==> TenAmps(w.toSe[0]))
  }

  predicate Arrived(w: World, three: bool) {
    if three then w.ev.state == AwaitPowerDelivery else Delivering(w)
  }

  predicate Starting(w: World, three: bool) {
    && BS.Underway(w) && (Linking(w) || InDialogue(w)) && OnTheWay(w.ev.state, three) && ER.ThreePhase(w.ev) == three
    && (w.ev.state == AwaitCurrentDemand && !w.ev.entered ==> w.ev.ev.contactor)
  }

  /** Past PreCharge. */
  predicate Late(w: World, three: bool) {
    w.ev.state == AwaitPowerDelivery || (!three && w.ev.state == AwaitCurrentDemand)
  }

  /** The three-phase way has not come to its end. */
  predicate Before(w: World, three: bool) {
    three ==> w.ev.state != AwaitPowerDelivery
  }

  const LONGEST: nat := 34

  /** How many turns that do something are left at most. */
  function Distance(w: World, three: bool): nat {
    if w.ev.state == AwaitSdp then 32 + if w.client == Opening then 2 else if w.backlog then 1 else 0
    else if w.ev.state != AwaitCurrentDemand then 3 * Remaining(w.ev.state, three) + BS.Phase(w)
    else if w.toEv != [] then 3
    else if w.toSe == [] then 2
    else if TenAmps(w.toSe[0]) then 1 else 4
  }

  lemma DistanceIsBounded(w: World, three: bool)
    requires Starting(w, three)
    ensures 0 < Distance(w, three) <= LONGEST
  {
    hide BS.Underway;
    hide Dialogue;
  }

  // ---- The vehicle's turn ----

  /** Negotiation never trades three-phase AC for something else, or something else for it. */
  lemma WayKept(s: Evcc, i: EvInput)
    requires InSession(s.state)
    ensures ER.ThreePhase(ER.Next(s, i)) == ER.ThreePhase(s)
  {
    hide EvccSpec.Operate;
    hide MeetsVoltage;
    hide MayStop;
    hide ResponseIsValid;
    hide Negotiate;
    hide EvccSpec.Asked;
    hide AskedOutput;
    hide Truncate16;
    ER.SessionOperate(s, i);
    ER.AskingKeeps(s, i);
    if s.state == AwaitServiceDiscovery {
      ES.NegotiateMeaning(s.info.transferMode, EvccSpec.Asked(s, i).secc.modes);
    } else {
      ES.Successors(s, i);
    }
  }

  lemma DecideStarts(s: Evcc, i: EvInput, id: SessionId, three: bool)
    requires InSession(s.state) && Succeeds(s.received, Asks(s.state), id) && HasAnswer(s)
    requires Named(s.state) || s.state == AwaitSessionSetup ==> s.secc.sessionId == id
    requires i.enable && i.socketVoltage == None && s.info.memorizedVoltage == 0.0
    requires s.state == AwaitServiceDiscovery ==> Negotiate(s.info.transferMode, s.secc.modes).1
    requires s.state == AwaitAuthorization ==> s.secc.authorized
    requires s.state == AwaitCableCheck ==> s.secc.processing == ProcessingFinished
    requires OnTheWay(s.state, three) && ER.ThreePhase(s) == three && !(three && s.state == AwaitPowerDelivery)
    ensures var next := Decide(s, i).next;
            if s.state == AwaitCurrentDemand then next == s.state
            else MovesOn(s.state, next) && OnTheWay(next, three) && Remaining(next, three) < Remaining(s.state, three)
  {
    hide Negotiate;
  }

  lemma ContactorStays(s: Evcc, i: EvInput)
    requires s.state == AwaitCurrentDemand
    ensures ER.Next(s, i).ev.contactor == (s.ev.contactor || s.entered)
  {
    hide EvccSpec.Operate;
    ES.ContactorRule(s, i);
  }

  lemma EvTurnConsumesStarts(w: World, i: EvInput, udp: bool, three: bool)
    requires Starting(w, three) && Before(w, three) && InDialogue(w) && w.toEv != [] && On(i)
    ensures var t := EvTurnStep(w, i, udp, true).ev;
            && ER.ThreePhase(t) == three && (t.entered <==> t.state != w.ev.state)
            && (if w.ev.state == AwaitCurrentDemand then t.state == w.ev.state && t.ev.contactor
                else MovesOn(w.ev.state, t.state) && OnTheWay(t.state, three) && Remaining(t.state, three) < Remaining(w.ev.state, three))
  {
    hide EvTurnStep;
    hide EvccSpec.Operate;
    hide EvccSpec.OnFrame;
    hide Requests;
    hide Succeeds;
    hide HasReplied;
    hide Ready;
    hide Decide;
    hide Negotiate;
    hide HasAnswer;
    hide Asks;
    hide MovesOn;
    hide OnTheWay;
    hide Remaining;
    hide ToReal;
    EvTurnConsumes(w, i, udp);
    EvReceives(w.ev, w.toEv[0], w.se.info.sessionId);
    BS.ReceiveTame(w.ev, w.toEv[0], w.se.info.modes, w.se.info.sessionId);
    var s := Delivered(w).ev;
    var c := WithStatus(w, i);
    SlotAnswers(w.toEv[0], s, w.se.info.sessionId);
    NotDue(s, c);
    ER.SessionOperate(s, c);
    DecideStarts(s, c, w.se.info.sessionId, three);
    WayKept(s, c);
    if w.ev.state == AwaitCurrentDemand {
      ContactorStays(s, c);
    }
  }

  lemma ConsumingStarts(w: World, i: EvInput, udp: bool, three: bool)
    requires Starting(w, three) && Before(w, three) && InDialogue(w) && w.toEv != [] && On(i)
    ensures var v := EvTurnStep(w, i, udp, true);
            && Starting(v, three) && Distance(v, three) < Distance(w, three)
            && (Delivering(w) ==> Delivering(v)) && (Late(w, three) ==> Late(v, three))
  {
    hide EvTurnStep;
    hide Inv;
    hide InDialogue;
    hide BS.Tame;
    hide MovesOn;
    hide Negotiate;
    var v := EvTurnStep(w, i, udp, true);
    EvTurnConsumesStarts(w, i, udp, three);
    BS.EvTurnConsumesLink(w, i, udp);
    BS.EvTurnConsumesTame(w, i, udp);
    EvTurnKeepsInv(w, i, udp, true);
    BS.EvTurnTame(w, i, udp, true);
    NotBefore(w.ev.state, v.ev.state);
    BS.WhereItIs(v);
    if w.ev.state != AwaitCurrentDemand {
      BS.AgreedLater(w, v);
    }
  }

  lemma NotBefore(from: EvState, to: EvState)
    ensures MovesOn(from, to) ==> to != AwaitSdp && from != to && from != AwaitSdp && (InSession(to) || to == AwaitDisconnection)
  {
  }

  /** The request for power once the contactor is closed. */
  lemma DemandsTen(s: Evcc, i: EvInput)
    requires s.state == AwaitCurrentDemand && (s.entered || s.ev.contactor) && i.enable && i.contactorFeedback == None
    ensures TenAmps(Request(Actuate(s, i), i))
  {
    hide ToReal;
    hide FromReal;
    hide SendDue;
    DemandsSurvive();
  }

  lemma EvTurnAsksForPower(w: World, i: EvInput, udp: bool, tcp: bool)
    requires Inv(w) && InDialogue(w) && (!tcp || w.toEv == []) && w.ev.state == AwaitCurrentDemand && On(i)
    requires w.ev.entered || w.ev.ev.contactor
    ensures var v := EvTurnStep(w, i, udp, tcp);
            v.ev.ev.contactor && (SendDue(w.ev, WithStatus(w, i)) ==> v.toSe != [] && (w.toSe == [] ==> TenAmps(v.toSe[0])))
  {
    hide EvccSpec.Operate;
    hide EvccSpec.OnFrame;
    hide Requests;
    hide Succeeds;
    hide Asks;
    hide HasReplied;
    hide Ready;
    hide Request;
    hide Actuate;
    hide TenAmps;
    hide SendDue;
    var c := WithStatus(w, i);
    EvAsks(w.ev, c);
    ContactorStays(w.ev, c);
    DemandsTen(w.ev, c);
  }

  lemma AskingStarts(w: World, i: EvInput, udp: bool, tcp: bool, three: bool)
    requires Starting(w, three) && InDialogue(w) && (!tcp || w.toEv == []) && On(i)
    ensures var v := EvTurnStep(w, i, udp, tcp);
            && Starting(v, three)
            && Distance(v, three) + (if BS.Works(w, EvTurn(i, udp, tcp)) then 1 else 0) <= Distance(w, three)
            && (Delivering(w) ==> Delivering(v)) && (Late(w, three) ==> Late(v, three))
  {
    hide EvTurnStep;
    hide Inv;
    hide InDialogue;
    hide BS.Tame;
    hide SendDue;
    hide TenAmps;
    BS.EvTurnAsksTame(w, i, udp, tcp);
    EvTurnKeepsInv(w, i, udp, tcp);
    BS.EvTurnTame(w, i, udp, tcp);
    BS.WhereItIs(EvTurnStep(w, i, udp, tcp));
    DialogueFacts(w);
    if w.ev.state == AwaitCurrentDemand {
      EvTurnAsksForPower(w, i, udp, tcp);
    }
    if SendDue(w.ev, WithStatus(w, i)) {
      BS.DueMeansQuiet(w, WithStatus(w, i));
    }
  }

  lemma EvTurnLinkingStarts(w: World, i: EvInput, udp: bool, tcp: bool, three: bool)
    requires Starting(w, three) && Linking(w) && On(i)
    ensures var v := EvTurnStep(w, i, udp, tcp);
            Starting(v, three) && Distance(v, three) + (if BS.Works(w, EvTurn(i, udp, tcp)) then 1 else 0) <= Distance(w, three)
  {
    hide Inv;
    hide BS.Tame;
    hide EvccSpec.Operate;
    hide EvccSpec.OnFrame;
    hide Negotiate;
    hide InDialogue;
    InvCommon(w);
    EvTurnKeepsInv(w, i, udp, tcp);
    BS.EvTurnTame(w, i, udp, tcp);
    EvLinks(w.ev, WithStatus(w, i));
    ER.OutsideSession(w.ev, WithStatus(w, i));
    BS.WhereItIs(EvTurnStep(w, i, udp, tcp));
  }

  lemma EvTurnStarts(w: World, i: EvInput, udp: bool, tcp: bool, three: bool)
    requires Starting(w, three) && Before(w, three) && On(i)
    ensures var v := EvTurnStep(w, i, udp, tcp);
            && Starting(v, three)
            && Distance(v, three) + (if BS.Works(w, EvTurn(i, udp, tcp)) then 1 else 0) <= Distance(w, three)
            && (Delivering(w) ==> Delivering(v)) && (Late(w, three) ==> Late(v, three))
  {
    hide EvTurnStep;
    hide Distance;
    hide On;
    hide BS.Works;
    hide BS.Underway;
    hide InDialogue;
    if Linking(w) {
      EvTurnLinkingStarts(w, i, udp, tcp, three);
    } else if tcp && w.toEv != [] {
      ConsumingStarts(w, i, udp, three);
    } else {
      AskingStarts(w, i, udp, tcp, three);
    }
  }

  // ---- The charger's turn ----

  lemma SeTurnLinkingStarts(w: World, j: SeInput, udp: bool, tcp: bool, accept: bool, three: bool)
    requires Starting(w, three) && Linking(w) && j.reading == None
    ensures var v := SeTurnStep(w, j, udp, tcp, accept);
            Starting(v, three) && Distance(v, three) + (if BS.Works(w, SeTurn(j, udp, tcp, accept)) then 1 else 0) <= Distance(w, three)
  {
    hide Inv;
    hide BS.Tame;
    hide SeTurnStep;
    hide Negotiate;
    hide InDialogue;
    InvCommon(w);
    SeTurnKeepsInv(w, j, udp, tcp, accept);
    BS.SeTurnTame(w, j, udp, tcp, accept);
    SeTurnWaiting(w, j, udp, tcp, accept);
  }

  lemma SeTurnReplyStarts(w: World, j: SeInput, udp: bool, accept: bool, three: bool)
    requires Starting(w, three) && InDialogue(w) && w.se.hasClient && w.toSe != [] && j.reading == None
    ensures var v := SeTurnStep(w, j, udp, true, accept);
            && (Arrived(w, three) ==> Arrived(v, three))
            && (Arrived(v, three) || Distance(v, three) < Distance(w, three))
  {
    hide SeTurnStep;
    hide Inv;
    hide InDialogue;
    hide BS.Tame;
    hide BS.TameRequest;
    hide BS.TameResponse;
    hide BS.Amps;
    hide Remaining;
    hide Linking;
    hide ToReal;
    BS.SeTurnReplyTame(w, j, udp, accept);
    NotEntered(w);
    DialogueFacts(w);
  }

  lemma SeTurnWaitingStarts(w: World, j: SeInput, udp: bool, tcp: bool, accept: bool, three: bool)
    requires Starting(w, three) && InDialogue(w) && !(tcp && w.se.hasClient && w.toSe != [])
    ensures var v := SeTurnStep(w, j, udp, tcp, accept);
            && (Arrived(w, three) ==> Arrived(v, three))
            && Distance(v, three) + (if BS.Works(w, SeTurn(j, udp, tcp, accept)) then 1 else 0) <= Distance(w, three)
  {
    hide SeTurnStep;
    hide Inv;
    hide InDialogue;
    hide BS.Tame;
    hide TenAmps;
    hide Remaining;
    hide Linking;
    BS.SeTurnWaitingInDialogue(w, j, udp, tcp, accept);
    DialogueFacts(w);
    if w.ev.state == AwaitCurrentDemand {
      BS.StillDriving(w);
      AcceptedBefore(w);
    }
  }

  lemma AcceptedBefore(w: World)
    requires InDialogue(w) && w.ev.state == AwaitCurrentDemand
    ensures !w.backlog
  {
    hide Requests;
    hide Succeeds;
  }

  lemma SeTurnInDialogueStarts(w: World, j: SeInput, udp: bool, tcp: bool, accept: bool, three: bool)
    requires Starting(w, three) && InDialogue(w) && j.reading == None
    ensures var v := SeTurnStep(w, j, udp, tcp, accept);
            && Starting(v, three)
            && (Arrived(w, three) ==> Arrived(v, three))
            && (Arrived(v, three)
                || Distance(v, three) + (if BS.Works(w, SeTurn(j, udp, tcp, accept)) then 1 else 0) <= Distance(w, three))
  {
    hide SeTurnStep;
    hide Inv;
    hide InDialogue;
    hide Linking;
    hide BS.Tame;
    hide Arrived;
    hide Distance;
    hide BS.Works;
    SeTurnKeepsInv(w, j, udp, tcp, accept);
    BS.SeTurnTame(w, j, udp, tcp, accept);
    SeTurnKeepsModes(w, j, udp, tcp, accept);
    SeTurnKeepsEv(w, j, udp, tcp, accept);
    if tcp && w.se.hasClient && w.toSe != [] {
      SeTurnReplyStarts(w, j, udp, accept, three);
    } else {
      SeTurnWaitingStarts(w, j, udp, tcp, accept, three);
    }
    DialogueFacts(w);
    BS.WhereItIs(SeTurnStep(w, j, udp, tcp, accept));
  }

  lemma SeTurnKeepsModes(w: World, j: SeInput, udp: bool, tcp: bool, accept: bool)
    requires Inv(w) && BS.Tame(w) && InDialogue(w) && j.reading == None
    ensures SeTurnStep(w, j, udp, tcp, accept).se.info.modes == w.se.info.modes
  {
    hide SeTurnStep;
    hide Inv;
    hide InDialogue;
    hide BS.Tame;
    hide BS.TameResponse;
    hide BS.Amps;
    if tcp && w.se.hasClient && w.toSe != [] {
      BS.SeTurnReplyTame(w, j, udp, accept);
    } else {
      BS.SeTurnWaitingInDialogue(w, j, udp, tcp, accept);
    }
  }

  lemma NotEntered(w: World)
    requires InDialogue(w) && w.toSe != []
    ensures !w.ev.entered
  {
  }

  lemma SeTurnStarts(w: World, j: SeInput, udp: bool, tcp: bool, accept: bool, three: bool)
    requires Starting(w, three) && j.reading == None
    ensures var v := SeTurnStep(w, j, udp, tcp, accept);
            && Starting(v, three)
            && (Arrived(w, three) ==> Arrived(v, three))
            && (Arrived(v, three)
                || Distance(v, three) + (if BS.Works(w, SeTurn(j, udp, tcp, accept)) then 1 else 0) <= Distance(w, three))
  {
    hide SeTurnStep;
    hide Distance;
    hide Delivering;
    hide BS.Works;
    hide BS.Underway;
    hide InDialogue;
    if Linking(w) {
      SeTurnLinkingStarts(w, j, udp, tcp, accept, three);
      LinkingNotArrived(w, three);
    } else {
      SeTurnInDialogueStarts(w, j, udp, tcp, accept, three);
    }
  }

  lemma LinkingNotArrived(w: World, three: bool)
    ensures Linking(w) ==> !Arrived(w, three)
  {
  }

  lemma EstablishStarts(w: World, three: bool)
    requires Starting(w, three)
    ensures Starting(Step(w, Establish), three)
    ensures Distance(Step(w, Establish), three) + (if BS.Works(w, Establish) then 1 else 0) <= Distance(w, three)
    ensures Arrived(Step(w, Establish), three) == Arrived(w, three)
  {
    EstablishKeepsInv(w);
    hide Inv;
    hide Dialogue;
    hide Negotiate;
    hide BS.TameRequest;
    hide BS.TameResponse;
    hide BS.Amps;
  }

  // ---- Rounds ----

  /** The network, the vehicle and the charger each take a full turn. */
  function Round(w: World, i: EvInput, j: SeInput): World {
    Step(Step(Step(w, Establish), EvTurn(i, true, true)), SeTurn(j, true, true, true))
  }

  lemma RoundWorks(w: World, i: EvInput, j: SeInput)
    requires BS.Underway(w) && BS.Timely(w, i)
    ensures BS.Works(w, Establish) || BS.Works(Step(w, Establish), EvTurn(i, true, true))
            || BS.Works(Step(Step(w, Establish), EvTurn(i, true, true)), SeTurn(j, true, true, true))
  {
    hide EvTurnStep;
    hide BS.Underway;
    hide BS.Timely;
    BS.SomethingToDo(w, i, j);
    if !BS.Works(w, Establish) && !BS.Works(w, EvTurn(i, true, true)) {
      BS.IdleUnderway(w, i);
    }
  }

  lemma RoundStarts(w: World, i: EvInput, j: SeInput, three: bool)
    requires Starting(w, three) && Before(w, three) && On(i) && j.reading == None && BS.Timely(w, i)
    ensures var v := Round(w, i, j);
            && Starting(v, three) && (Arrived(v, three) || Distance(v, three) < Distance(w, three))
            && (!three && Arrived(w, three) ==> Arrived(v, three))
  {
    assert BS.Underway(w);
    assert !three ==> Arrived(w, three) == Delivering(w);
    assert Before(Step(w, Establish), three);
    hide Starting;
    hide Arrived;
    hide On;
    hide Distance;
    hide BS.Underway;
    hide BS.Timely;
    hide BS.Works;
    hide EvTurnStep;
    hide SeTurnStep;
    var e := Step(w, Establish);
    var v := EvTurnStep(e, i, true, true);
    EstablishStarts(w, three);
    EvTurnStarts(e, i, true, true, three);
    SeTurnStarts(v, j, true, true, true, three);
    RoundWorks(w, i, j);
  }

  function Rounds(w: World, rs: seq<(EvInput, SeInput)>): World {
    if rs == [] then w else Round(Rounds(w, rs[..|rs| - 1]), rs[|rs| - 1].0, rs[|rs| - 1].1)
  }

  predicate EagerRounds(w: World, rs: seq<(EvInput, SeInput)>) {
    forall k :: 0 <= k < |rs| ==> On(rs[k].0) && rs[k].1.reading == None && BS.Timely(Rounds(w, rs[..k]), rs[k].0)
  }

  lemma EagerRoundsBefore(w: World, rs: seq<(EvInput, SeInput)>)
    requires EagerRounds(w, rs) && rs != []
    ensures EagerRounds(w, rs[..|rs| - 1])
    ensures var n := |rs| - 1; On(rs[n].0) && rs[n].1.reading == None && BS.Timely(Rounds(w, rs[..n]), rs[n].0)
  {
    hide On;
    hide BS.Timely;
    hide Rounds;
    var n := |rs| - 1;
    forall k | 0 <= k < n
      ensures On(rs[..n][k].0) && rs[..n][k].1.reading == None && BS.Timely(Rounds(w, rs[..n][..k]), rs[..n][k].0)
    {
      assert rs[..n][..k] == rs[..k];
    }
  }

  /** The source delivers, or the rounds have used up their share of the distance. */
  lemma {:induction false} RoundsStart(w: World, rs: seq<(EvInput, SeInput)>)
    requires Starting(w, false) && EagerRounds(w, rs)
    ensures Starting(Rounds(w, rs), false)
    ensures Delivering(Rounds(w, rs)) || Distance(Rounds(w, rs), false) + |rs| <= Distance(w, false)
  {
    hide Starting;
    hide Delivering;
    hide On;
    hide Distance;
    hide BS.Timely;
    hide Round;
    if rs != [] {
      var n := |rs| - 1;
      EagerRoundsBefore(w, rs);
      hide EagerRounds;
      RoundsStart(w, rs[..n]);
      RoundStarts(Rounds(w, rs[..n]), rs[n].0, rs[n].1, false);
    }
  }

  /** On the three-phase way some round brings the vehicle to PowerDelivery. */
  lemma {:induction false} RoundsPrepare(w: World, rs: seq<(EvInput, SeInput)>) returns (k: nat)
    requires Starting(w, true) && EagerRounds(w, rs)
    ensures k <= |rs| && Starting(Rounds(w, rs[..k]), true)
    ensures Rounds(w, rs[..k]).ev.state == AwaitPowerDelivery || (k == |rs| && Distance(Rounds(w, rs), true) + |rs| <= Distance(w, true))
  {
    hide Starting;
    hide On;
    hide Distance;
    hide BS.Timely;
    hide Round;
    k := |rs|;
    assert rs[..k] == rs;
    if rs != [] {
      var n := |rs| - 1;
      EagerRoundsBefore(w, rs);
      hide EagerRounds;
      var m := RoundsPrepare(w, rs[..n]);
      assert rs[..n][..m] == rs[..m];
      if Rounds(w, rs[..m]).ev.state == AwaitPowerDelivery {
        k := m;
      } else {
        assert rs[..m] == rs[..n];
        RoundStarts(Rounds(w, rs[..n]), rs[n].0, rs[n].1, true);
      }
    }
  }

  // ---- From the beginning ----

  /** The offered transfer modes stay those of the setup. */
  lemma SeTurnKeepsOffer(w: World, j: SeInput, udp: bool, tcp: bool, accept: bool)
    requires Inv(w)
    ensures SeTurnStep(w, j, udp, tcp, accept).se.info.modes == w.se.info.modes
  {
    hide SeccSpec.Operate;
    hide Inv;
    hide SR.SetsUp;
    InvCommon(w);
    ReadingKeepsOffer(w, udp, tcp);
    var r := SeReads(w, udp, tcp);
    hide SeReads;
    SR.SessionIdAfter(r.se, Offered(r, j, accept));
  }

  lemma ReadingKeepsOffer(w: World, udp: bool, tcp: bool)
    requires Common(w)
    ensures var r := SeReads(w, udp, tcp); SR.Settled(r.se) && SR.Admitted(r.se.received) && r.se.info == w.se.info
  {
    PO.ReadingKeeps(w, udp, tcp);
    hide SeccSpec.OnFrame;
    assert SR.Inv(w.se);
    hide SR.Inv;
    if udp && w.udpToSe != [] {
      SR.FrameKeepsInv(w.se, w.udpToSe[0]);
    }
    var v := SeReads(w, udp, false);
    if v.toSe != [] {
      SR.FrameKeepsInv(v.se, v.toSe[0]);
    }
  }

  lemma {:induction false} OfferStays(c: Setup, es: seq<Event>)
    ensures Run(Begin(c), es).se.info.modes == c.modes
  {
    hide EvTurnStep;
    hide SeTurnStep;
    hide Inv;
    if es != [] {
      var before, e := es[..|es| - 1], es[|es| - 1];
      OfferStays(c, before);
      ReachableInv(c, before);
      var w := Run(Begin(c), before);
      match e
      case EvTurn(i, udp, tcp) => PO.EvTurnKeepsSe(w, i, udp, tcp);
      case SeTurn(j, udp, tcp, accept) => SeTurnKeepsOffer(w, j, udp, tcp, accept);
      case Establish =>
      case SetMode(_) =>
    }
  }

  lemma EvTurnKeepsMode(w: World, i: EvInput, udp: bool, tcp: bool)
    requires Inv(w) && !InSession(w.ev.state)
    ensures EvTurnStep(w, i, udp, tcp).ev.info == w.ev.info
  {
    hide EvccSpec.Operate;
    hide EvReads;
    hide Inv;
    OutsideDialogue(w);
    BS.OutsideInfo(w, udp, tcp);
    EvSlot(w, i, udp, tcp);
    var r := EvReads(w, udp, tcp);
    ER.OutsideSession(r.ev, WithStatus(r, i));
  }

  lemma OutsideDialogue(w: World)
    requires !InSession(w.ev.state)
    ensures !InDialogue(w)
  {
    hide Dialogue;
  }

  /** The five turns that lead into a session. */
  function Handshake(i: EvInput, j: SeInput): seq<Event> {
    [EvTurn(i, false, false), SeTurn(j, false, false, false), EvTurn(i, false, false), SeTurn(j, true, false, false), EvTurn(i, true, false)]
  }

  lemma RunAppend(w: World, es: seq<Event>, e: Event)
    ensures Run(w, es + [e]) == Step(Run(w, es), e)
  {
    assert (es + [e])[..|es|] == es;
  }

  lemma HandshakeRun(w: World, i: EvInput, j: SeInput)
    ensures Run(w, Handshake(i, j)) ==
            Step(Step(Step(Step(Step(w, EvTurn(i, false, false)), SeTurn(j, false, false, false)), EvTurn(i, false, false)),
                      SeTurn(j, true, false, false)), EvTurn(i, true, false))
  {
    hide Step;
    var es := Handshake(i, j);
    assert Run(w, []) == w;
    hide Run;
    RunAppend(w, [], es[0]);
    RunAppend(w, es[..1], es[1]);
    RunAppend(w, es[..2], es[2]);
    RunAppend(w, es[..3], es[3]);
    RunAppend(w, es[..4], es[4]);
    assert [] + [es[0]] == es[..1] && es[..1] + [es[1]] == es[..2] && es[..2] + [es[2]] == es[..3];
    assert es[..3] + [es[3]] == es[..4] && es[..4] + [es[4]] == es;
  }

  /** The handshake leaves the vehicle's parameters alone. */
  lemma HandshakeKeepsMode(c: Setup, i: EvInput, j: SeInput)
    requires i.run && j.run
    ensures Run(Begin(c), Handshake(i, j)).ev.info.transferMode == c.mode
  {
    hide EvTurnStep;
    hide SeTurnStep;
    hide Inv;
    hide Run;
    HandshakeRun(Begin(c), i, j);
    var w0 := Begin(c);
    var w1 := Step(w0, EvTurn(i, false, false));
    var w2 := Step(w1, SeTurn(j, false, false, false));
    var w3 := Step(w2, EvTurn(i, false, false));
    var w4 := Step(w3, SeTurn(j, true, false, false));
    BeginsWithInv(c);
    StepKeepsInv(w0, EvTurn(i, false, false));
    StepKeepsInv(w1, SeTurn(j, false, false, false));
    StepKeepsInv(w2, EvTurn(i, false, false));
    StepKeepsInv(w3, SeTurn(j, true, false, false));
    EvWakes(c, i);
    SeTurnKeepsEv(w1, j, false, false, false);
    Starts(c, i, j);
    SeTurnKeepsEv(w3, j, true, false, false);
    EvTurnKeepsMode(w0, i, false, false);
    EvTurnKeepsMode(w2, i, false, false);
    EvTurnKeepsMode(w4, i, true, false);
  }

  /** The two sides have a transfer mode in common. */
  predicate Compatible(c: Setup) {
    Negotiate(c.mode, c.modes).1
  }

  predicate Simple(i: EvInput, j: SeInput) {
    i.run && j.run && i.afterOpen == Connected && i.socketVoltage == None && i.socketCurrent == None && i.contactorFeedback == None
    && j.reading == None
  }

  lemma HandshakeStarts(c: Setup, i: EvInput, j: SeInput)
    requires Compatible(c) && Simple(i, j)
    ensures Starting(Run(Begin(c), Handshake(i, j)), c.mode == AC_three_phase_core)
  {
    hide Step;
    hide Inv;
    hide BS.Tame;
    hide InDialogue;
    hide Negotiate;
    HandshakeRun(Begin(c), i, j);
    hide Run;
    SessionBegins(c, i, j);
    HandshakeKeepsMode(c, i, j);
    OfferStays(c, Handshake(i, j));
    HandshakeSimulated(i, j);
    BS.RunTame(c, Handshake(i, j));
  }

  lemma HandshakeSimulated(i: EvInput, j: SeInput)
    requires Simple(i, j)
    ensures BS.AllSimulated(Handshake(i, j))
  {
  }

  /** A freshly constructed system with simulated hardware and a common transfer mode other than
      three-phase AC: five turns open the session, and after 34 rounds the contactor is closed and the
      source told to deliver ten amperes, if only the rounds leave the repeat timers time to end. */
  lemma PowerFlows(c: Setup, i: EvInput, j: SeInput, rs: seq<(EvInput, SeInput)>)
    requires Compatible(c) && c.mode != AC_three_phase_core && Simple(i, j) && |rs| >= LONGEST
    ensures var w := Run(Begin(c), Handshake(i, j)); EagerRounds(w, rs) ==> Delivering(Rounds(w, rs))
  {
    hide Run;
    hide Begin;
    hide Starting;
    hide Simple;
    hide EagerRounds;
    hide Rounds;
    hide Distance;
    HandshakeStarts(c, i, j);
    var w := Run(Begin(c), Handshake(i, j));
    if EagerRounds(w, rs) {
      RoundsStart(w, rs);
      DistanceIsBounded(w, false);
      DistanceIsBounded(Rounds(w, rs), false);
    }
  }

  lemma ContactorClosed(c: Setup, es: seq<Event>)
    ensures var w := Run(Begin(c), es); w.ev.state == AwaitCurrentDemand && !w.ev.entered ==> w.ev.ev.contactor
  {
    hide PO.Trace;
    hide PO.Count;
    hide Run;
    hide Inv;
    PO.TraceKeeps(c, es);
  }

  /** The same from every state such a system can reach on the way, in the middle of an exchange or not. */
  lemma PowerFlowsFromAnywhere(c: Setup, before: seq<Event>, rs: seq<(EvInput, SeInput)>)
    requires BS.AllSimulated(before) && |rs| >= LONGEST
    ensures var w := Run(Begin(c), before);
            (Linking(w) || InDialogue(w)) && BS.Agreed(w) && OnTheWay(w.ev.state, false) && !ER.ThreePhase(w.ev) && EagerRounds(w, rs) ==>
              Delivering(Rounds(w, rs))
  {
    hide Run;
    hide Begin;
    hide Linking;
    hide InDialogue;
    hide Inv;
    hide BS.AllSimulated;
    hide BS.Agreed;
    hide BS.Tame;
    hide OnTheWay;
    hide EagerRounds;
    hide Rounds;
    hide Distance;
    BS.RunTame(c, before);
    ContactorClosed(c, before);
    var w := Run(Begin(c), before);
    if (Linking(w) || InDialogue(w)) && BS.Agreed(w) && OnTheWay(w.ev.state, false) && !ER.ThreePhase(w.ev) && EagerRounds(w, rs) {
      assert Starting(w, false);
      RoundsStart(w, rs);
      DistanceIsBounded(w, false);
      DistanceIsBounded(Rounds(w, rs), false);
    }
  }
}
