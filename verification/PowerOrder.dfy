// When the charger may drive current: what has happened between the two sides before.

module PowerOrder {
  import opened V2g
  import opened PhysicalValues
  import opened ByteArrays
  import opened EvccSpec
  import opened SeccSpec
  import opened ChargingSystem
  import opened Lockstep
  import ER = EvccRuns
  import ES = EvccSafety
  import SR = SeccRuns

  /** What the two sides have done since the session got its number: a request answered by the charger,
      the way chosen by the vehicle on the response to ChargeParameterDiscovery, the PreCharge voltage
      found to match, three-phase AC put in or out of force by the application. */
  datatype Mark = Replied(k: Kind) | Chosen(threePhase: bool) | Matched | Changed

  datatype History = History(w: World, log: seq<Mark>)

  function Noted(from: Evcc, to: Evcc): seq<Mark> {
    if from.state == AwaitChargeParameterDiscovery && to.state != from.state && to.state != EvFailure
    then [Chosen(ER.ThreePhase(from))]
    else if from.state == AwaitPreCharge && to.state == AwaitPowerDelivery then [Matched]
    else []
  }

  function Record(w: World, e: Event, v: World, log: seq<Mark>): seq<Mark> {
    match e
    case SeTurn(_, _, _, _) =>
      if |v.toEv| <= |w.toEv| then log
      else if KindOf(v.toEv[|w.toEv|]) == KSessionSetup then []
      else log + [Replied(KindOf(v.toEv[|w.toEv|]))]
    case EvTurn(_, _, _) => log + Noted(w.ev, v.ev)
    case SetMode(_) => if ER.ThreePhase(v.ev) != ER.ThreePhase(w.ev) then log + [Changed] else log
    case Establish => log
  }

  function Advance(h: History, e: Event): History {
    var v := Step(h.w, e);
    History(v, Record(h.w, e, v, h.log))
  }

  function Trace(c: Setup, es: seq<Event>): History {
    if es == [] then History(Begin(c), []) else Advance(Trace(c, es[..|es| - 1]), es[|es| - 1])
  }

  // ---- Progress towards power ----

  /** 1 after CableCheck, 2 after the matching PreCharge that follows, 3 after the PowerDelivery that follows that. */
  function Level(log: seq<Mark>): nat {
    if log == [] then 0 else Raise(Level(log[..|log| - 1]), log[|log| - 1])
  }

  function Raise(level: nat, m: Mark): nat {
    if level == 0 && m == Replied(KCableCheck) then 1
    else if level == 1 && m == Matched then 2
    else if level == 2 && m == Replied(KPowerDelivery) then 3
    else level
  }

  lemma LevelAppend(log: seq<Mark>, m: Mark)
    ensures Level(log + [m]) == Raise(Level(log), m)
  {
    assert (log + [m])[..|log|] == log;
  }

  /** CableCheck, then the match, then PowerDelivery. */
  ghost predicate Prepared(log: seq<Mark>) {
    exists i, j, k :: 0 <= i < j < k < |log| && log[i] == Replied(KCableCheck) && log[j] == Matched && log[k] == Replied(KPowerDelivery)
  }

  lemma PreparedAt(log: seq<Mark>, i: nat, j: nat, k: nat)
    requires i < j < k < |log| && log[i] == Replied(KCableCheck) && log[j] == Matched && log[k] == Replied(KPowerDelivery)
    ensures Prepared(log)
  {
  }

  lemma {:induction false} LevelOne(log: seq<Mark>) returns (i: nat)
    requires Level(log) >= 1
    ensures i < |log| && log[i] == Replied(KCableCheck)
  {
    i := |log| - 1;
    if Level(log[..i]) >= 1 {
      i := LevelOne(log[..i]);
    }
  }

  lemma {:induction false} LevelTwo(log: seq<Mark>) returns (i: nat, j: nat)
    requires Level(log) >= 2
    ensures i < j < |log| && log[i] == Replied(KCableCheck) && log[j] == Matched
  {
    j := |log| - 1;
    if Level(log[..j]) >= 2 {
      i, j := LevelTwo(log[..j]);
    } else {
      i := LevelOne(log[..j]);
    }
  }

  lemma {:induction false} LevelThree(log: seq<Mark>) returns (i: nat, j: nat, k: nat)
    requires Level(log) >= 3
    ensures i < j < k < |log| && log[i] == Replied(KCableCheck) && log[j] == Matched && log[k] == Replied(KPowerDelivery)
  {
    k := |log| - 1;
    if Level(log[..k]) >= 3 {
      i, j, k := LevelThree(log[..k]);
    } else {
      i, j := LevelTwo(log[..k]);
    }
  }

  // ---- The vehicle's side ----

  /** What the log says in short. */
  datatype Tally = Tally(direct: bool, threePhase: bool, matched: bool, changed: bool, level: nat)

  function Count(log: seq<Mark>): Tally {
    Tally(Chosen(false) in log, Chosen(true) in log, Matched in log, Changed in log, Level(log))
  }

  function Add(t: Tally, m: Mark): Tally {
    Tally(t.direct || m == Chosen(false), t.threePhase || m == Chosen(true), t.matched || m == Matched, t.changed || m == Changed,
          Raise(t.level, m))
  }

  lemma CountAppend(log: seq<Mark>, m: Mark)
    ensures Count(log + [m]) == Add(Count(log), m)
  {
    hide Level;
    hide Raise;
    LevelAppend(log, m);
  }

  /** Nothing chosen, nothing compared. */
  predicate Fresh(t: Tally) {
    !t.direct && !t.threePhase && !t.matched
  }

  /** On the way through CableCheck and PreCharge. */
  predicate Direct(t: Tally) {
    t.direct && !t.threePhase && !t.matched
  }

  /** Through CableCheck and PreCharge, with the voltages compared. */
  predicate Passed(t: Tally) {
    t.direct && !t.threePhase && t.matched && t.level >= 2
  }

  /** On the three-phase way, which compares no voltages. */
  predicate Skipped(t: Tally) {
    !t.direct && t.threePhase && !t.matched
  }

  /** The way taken is the one of the transfer mode in force, unless that has changed. */
  predicate Tuned(t: Tally, three: bool) {
    t.changed || ((t.direct ==> !three) && (t.threePhase ==> three))
  }

  /** The whole sequence, or the three-phase way with the mode changed since. */
  predicate Backing(t: Tally) {
    (Passed(t) && t.level >= 3) || (Skipped(t) && t.changed)
  }

  /** What must have happened for the vehicle to be in its state. three says that three-phase AC is in
      force, replied that the charger has answered the state's request. */
  predicate Fits(state: EvState, three: bool, replied: bool, t: Tally) {
    match state
    case AwaitSessionSetup => replied ==> Fresh(t)
    case AwaitServiceDiscovery => Fresh(t)
    case AwaitPaymentServiceSelection => Fresh(t)
    case AwaitAuthorization => Fresh(t)
    case AwaitChargeParameterDiscovery => Fresh(t)
    case AwaitCableCheck => Direct(t) && Tuned(t, three) && (replied ==> t.level >= 1)
    case AwaitPreCharge => Direct(t) && Tuned(t, three) && t.level >= 1
    case AwaitPowerDelivery => ((Passed(t) && (replied ==> t.level >= 3)) || Skipped(t)) && Tuned(t, three)
    case AwaitChargingStatus => ((Passed(t) && t.level >= 3) || Skipped(t)) && Tuned(t, three)
    case AwaitCurrentDemand => Backing(t) && Tuned(t, three)
    case _ => true
  }

  predicate Ordered(h: History) {
    && Fits(h.w.ev.state, ER.ThreePhase(h.w.ev), !h.w.ev.entered && h.w.toSe == [], Count(h.log))
    && (h.w.ev.state == AwaitCurrentDemand && !h.w.ev.entered ==> h.w.ev.ev.contactor)
  }

  /** A reply raises the level as far as its state needs. */
  lemma FitsAfterReply(state: EvState, three: bool, t: Tally, replied: bool)
    requires InSession(state) && state != AwaitSessionSetup && Fits(state, three, false, t)
    ensures Fits(state, three, replied, Add(t, Replied(Asks(state))))
  {
  }

  /** The vehicle's decision is the one its new state needs. */
  lemma FitsAfterDecision(from: Evcc, to: Evcc, t: Tally)
    requires InSession(from.state) && Fits(from.state, ER.ThreePhase(from), true, t)
    requires MovesOn(from.state, to.state)
    requires from.state != AwaitServiceDiscovery ==> to.info.transferMode == from.info.transferMode
    requires from.state == AwaitChargeParameterDiscovery ==> (to.state == AwaitPowerDelivery <==> ER.ThreePhase(from))
    requires from.state == AwaitPowerDelivery && to.state == AwaitChargingStatus ==> ER.ThreePhase(from)
    requires from.state == AwaitPowerDelivery && to.state == AwaitCurrentDemand ==> !ER.ThreePhase(from)
    ensures var noted := Noted(from, to);
            Fits(to.state, ER.ThreePhase(to), false, if noted == [] then t else Add(t, noted[0]))
  {
  }

  lemma NotedCount(log: seq<Mark>, from: Evcc, to: Evcc)
    ensures var noted := Noted(from, to); Count(log + noted) == if noted == [] then Count(log) else Add(Count(log), noted[0])
  {
    var noted := Noted(from, to);
    assert noted == [] || noted == [noted[0]];
    hide Count;
    hide Add;
    hide Noted;
    if noted == [] {
      assert log + noted == log;
    } else {
      CountAppend(log, noted[0]);
    }
  }

  lemma EvTurnConsumingOrdered(h: History, i: EvInput, udp: bool)
    requires Inv(h.w) && InDialogue(h.w) && Ordered(h) && h.w.toEv != []
    ensures Ordered(Advance(h, EvTurn(i, udp, true)))
  {
    hide EvTurnStep;
    hide EvccSpec.Operate;
    hide EvccSpec.OnFrame;
    hide Requests;
    hide Succeeds;
    hide Asks;
    hide HasReplied;
    hide Ready;
    hide Level;
    var w := h.w;
    EvTurnConsumes(w, i, udp);
    EvReceives(w.ev, w.toEv[0], w.se.info.sessionId);
    var s := Delivered(w).ev;
    ER.FrameKeeps(w.ev, w.toEv[0]);
    ES.Successors(s, WithStatus(w, i));
    ES.ContactorRule(s, WithStatus(w, i));
    NotedCount(h.log, w.ev, EvTurnStep(w, i, udp, true).ev);
    if MovesOn(w.ev.state, EvTurnStep(w, i, udp, true).ev.state) {
      FitsAfterDecision(w.ev, EvTurnStep(w, i, udp, true).ev, Count(h.log));
    }
  }

  lemma FitsUnreplied(state: EvState, three: bool, replied: bool, t: Tally)
    requires Fits(state, three, replied, t)
    ensures Fits(state, three, false, t)
  {
  }

  lemma EvTurnAsks(w: World, i: EvInput, udp: bool, tcp: bool)
    requires Inv(w) && InDialogue(w) && (!tcp || w.toEv == [])
    ensures var v := EvTurnStep(w, i, udp, tcp);
            && v.ev.state == w.ev.state && !v.ev.entered && v.ev.info == w.ev.info
            && (v.toSe == [] ==> !w.ev.entered && w.toSe == [])
            && (w.ev.state == AwaitCurrentDemand ==> v.ev.ev.contactor == (w.ev.entered || w.ev.ev.contactor))
  {
    hide EvccSpec.Operate;
    hide EvccSpec.OnFrame;
    hide Requests;
    hide Succeeds;
    hide Asks;
    hide HasReplied;
    hide Ready;
    hide Request;
    var c := WithStatus(w, i);
    EvAsks(w.ev, c);
    ES.ContactorRule(w.ev, c);
  }

  lemma EvTurnAskingOrdered(h: History, i: EvInput, udp: bool, tcp: bool)
    requires Inv(h.w) && InDialogue(h.w) && Ordered(h) && (!tcp || h.w.toEv == [])
    ensures Ordered(Advance(h, EvTurn(i, udp, tcp)))
  {
    hide EvTurnStep;
    hide Count;
    EvTurnAsks(h.w, i, udp, tcp);
    assert h.log + [] == h.log;
    FitsUnreplied(h.w.ev.state, ER.ThreePhase(h.w.ev), !h.w.ev.entered && h.w.toSe == [], Count(h.log));
    hide Fits;
  }

  lemma NotInSession(w: World)
    requires Inv(w) && !InDialogue(w)
    ensures !InSession(w.ev.state)
  {
  }

  /** A turn that starts outside the dialogue does not get beyond the handshake. */
  lemma EvTurnOutside(w: World, i: EvInput, udp: bool, tcp: bool)
    requires Inv(w) && !InDialogue(w)
    ensures var t := EvTurnStep(w, i, udp, tcp).ev.state; InSession(t) ==> t == AwaitAppProtocol
  {
    hide EvccSpec.Operate;
    hide EvccSpec.OnFrame;
    hide Inv;
    hide InDialogue;
    EvSlot(w, i, udp, tcp);
    NotInSession(w);
    var r := EvReads(w, udp, tcp);
    ER.OutsideSession(r.ev, WithStatus(r, i));
    hide EvReads;
  }

  // ---- The charger's side ----

  /** Only the answer to a current demand can make the source deliver another current than none or the
      one it is delivering. */
  lemma CurrentOnlyOnDemand(s: Secc, i: SeInput)
    requires SR.Settled(s) && SR.Admitted(s.received)
    requires Route(s.state, KindOf(s.received)) != Some(AnsweredCurrentDemand)
    ensures var t := SeccSpec.Operate(s, i).s;
            t.source.current == 0.0 || (t.source == s.source && SeccSpec.PowerState(s.state))
  {
    hide SeccSpec.Operate;
    hide Route;
    hide KindOf;
    hide IsRequest;
    hide Answer;
    hide ToReal;
    var route := Route(s.state, KindOf(s.received));
    if route != None {
      SR.OnlyRequestsAreRouted(s.state, s.received);
      if SR.Reachable(s, route.value) {
        SR.OperateOnRequest(s, i, route.value);
        SR.AnswerFacts(SR.EnteredWith(s, route.value), i);
        SourceOfAnswer(s, i, route.value);
        return;
      }
    }
    SR.Unanswered(s, i);
  }

  lemma SourceOfAnswer(s: Secc, i: SeInput, t: SeState)
    requires SR.Settled(s) && IsRequest(s.received)
    requires Route(s.state, KindOf(s.received)) == Some(t) && SR.Reachable(s, t)
    ensures SeccSpec.Operate(s, i).s.source == Command(SR.EnteredWith(s, t), i)
  {
    hide SeccSpec.Operate;
    hide Route;
    hide KindOf;
    hide IsRequest;
    hide Answer;
    hide Command;
    hide Response;
    hide NextId;
    SR.OperateOnRequest(s, i, t);
    SR.AnswerFacts(SR.EnteredWith(s, t), i);
    hide SR.EnteredWith;
    var a := Answer(SR.EnteredWith(s, t), i);
    TailKeeps(a.s.(state := if SR.Refuses(s, t) then SeFailure else t, entered := SR.Refuses(s, t)), i);
  }

  /** The charger's turn either answers the vehicle's request or leaves the connection as it is. */
  lemma SeTurnCases(w: World, j: SeInput, udp: bool, tcp: bool, accept: bool)
    requires Inv(w) && InDialogue(w)
    ensures var v := SeTurnStep(w, j, udp, tcp, accept);
            && v.ev == w.ev
            && ((v.toEv == w.toEv && v.toSe == w.toSe)
                || (w.toSe != [] && w.toEv == [] && v.toSe == [] && |v.toEv| == 1 && KindOf(v.toEv[0]) == Asks(w.ev.state)))
  {
    hide SeTurnStep;
    hide Common;
    hide Requests;
    hide Asks;
    hide Ready;
    hide HasReplied;
    hide KindOf;
    assert Common(w);
    ReadyFacts(w.ev.state, w.se.state);
    if w.toSe != [] && tcp && w.se.hasClient {
      SeTurnReplies(w, j, udp, accept);
    } else {
      SeTurnWaiting(w, j, udp, tcp, accept);
    }
  }

  /** What the turn adds to the log. */
  lemma SeTurnLog(w: World, j: SeInput, udp: bool, tcp: bool, accept: bool, log: seq<Mark>)
    requires Inv(w)
    ensures var v := SeTurnStep(w, j, udp, tcp, accept);
            var longer := Record(w, SeTurn(j, udp, tcp, accept), v, log);
            && v.ev == w.ev
            && ((longer == log && (InDialogue(w) ==> v.toSe == w.toSe))
                || (InDialogue(w) && w.toSe != []
                    && longer == if w.ev.state == AwaitSessionSetup then [] else log + [Replied(Asks(w.ev.state))]))
  {
    hide SeTurnStep;
    hide Inv;
    hide InDialogue;
    hide KindOf;
    hide Asks;
    var v := SeTurnStep(w, j, udp, tcp, accept);
    if InDialogue(w) {
      DialogueFacts(w);
      SeTurnCases(w, j, udp, tcp, accept);
      NotSetup(w.ev.state);
    } else {
      SeTurnSilent(w, j, udp, tcp, accept);
    }
  }

  lemma NotSetup(state: EvState)
    requires InSession(state)
    ensures Asks(state) == KSessionSetup <==> state == AwaitSessionSetup
  {
  }

  lemma SeTurnSilent(w: World, j: SeInput, udp: bool, tcp: bool, accept: bool)
    requires Inv(w) && !InDialogue(w)
    ensures SeTurnStep(w, j, udp, tcp, accept).toEv == [] && SeTurnStep(w, j, udp, tcp, accept).ev == w.ev
  {
    hide SeTurnStep;
    hide InDialogue;
    hide Requests;
    hide Succeeds;
    NotInSession(w);
    SeTurnKeepsInv(w, j, udp, tcp, accept);
    SeTurnKeepsEv(w, j, udp, tcp, accept);
    NotInDialogue(SeTurnStep(w, j, udp, tcp, accept));
  }

  lemma NotInDialogue(w: World)
    requires Inv(w) && !InSession(w.ev.state)
    ensures w.toEv == []
  {
  }

  lemma FitsOutside(state: EvState, three: bool, replied: bool, t: Tally)
    requires !InSession(state)
    ensures Fits(state, three, replied, t)
  {
  }

  lemma FitsNewSession(three: bool, replied: bool)
    ensures Fits(AwaitSessionSetup, three, replied, Count([]))
  {
  }

  lemma SeTurnOrdered(h: History, j: SeInput, udp: bool, tcp: bool, accept: bool)
    requires Inv(h.w) && Ordered(h)
    ensures Ordered(Advance(h, SeTurn(j, udp, tcp, accept)))
  {
    SeTurnLog(h.w, j, udp, tcp, accept, h.log);
    hide SeTurnStep;
    hide Record;
    hide Inv;
    hide InDialogue;
    hide Fits;
    hide Count;
    hide Add;
    hide Asks;
    var n := Advance(h, SeTurn(j, udp, tcp, accept));
    var state, three, replied := n.w.ev.state, ER.ThreePhase(n.w.ev), !n.w.ev.entered && n.w.toSe == [];
    if !InDialogue(h.w) {
      NotInSession(h.w);
      FitsOutside(state, three, replied, Count(n.log));
    } else if n.log != h.log {
      DialogueFacts(h.w);
      if state == AwaitSessionSetup {
        FitsNewSession(three, replied);
      } else {
        CountAppend(h.log, Replied(Asks(state)));
        FitsAfterReply(state, three, Count(h.log), replied);
      }
    }
  }

  // ---- The source ----

  lemma BackingStays(log: seq<Mark>, m: Mark)
    requires m.Replied? || m == Changed
    ensures Backing(Count(log)) ==> Backing(Count(log + [m]))
  {
    hide Level;
    CountAppend(log, m);
  }

  /** A current other than none is backed by the whole sequence, or three-phase AC was in force. */
  predicate Backed(h: History) {
    h.w.se.source.current != 0.0 ==> Backing(Count(h.log))
  }

  /** The turn answers a current demand request. */
  predicate AnswersDemand(w: World, udp: bool, tcp: bool) {
    var r := SeReads(w, udp, tcp);
    Route(r.se.state, KindOf(r.se.received)) == Some(AnsweredCurrentDemand)
  }

  /** The charger's turn finds a current demand in its slot only while the vehicle is waiting for its answer. */
  lemma DemandIsAwaited(w: World, udp: bool, tcp: bool)
    requires Inv(w)
    requires AnswersDemand(w, udp, tcp)
    ensures w.ev.state == AwaitCurrentDemand && !w.ev.entered && InDialogue(w) && w.toSe != []
  {
    hide SeReads;
    hide Inv;
    hide InDialogue;
    hide Route;
    hide KindOf;
    InvCommon(w);
    var r := SeReads(w, udp, tcp);
    if InDialogue(w) && tcp && w.se.hasClient && w.toSe != [] {
      SeReadsRequest(w, udp);
      SR.RouteLeadsToAnswer(r.se.state, KindOf(r.se.received), AnsweredCurrentDemand);
      DemandAsked(w);
    } else {
      OutsideNothingSent(w);
      OnlySearchRead(w, udp, tcp);
      NotADemand(r.se.state, r.se.received);
    }
  }

  lemma DemandAsked(w: World)
    requires InDialogue(w) && w.toSe != [] && Asks(w.ev.state) == KCurrentDemand
    ensures w.ev.state == AwaitCurrentDemand && !w.ev.entered
  {
    hide Requests;
    hide Succeeds;
  }

  lemma OutsideNothingSent(w: World)
    requires Inv(w)
    ensures !InDialogue(w) ==> w.toSe == []
  {
    hide InDialogue;
  }

  lemma OnlySearchRead(w: World, udp: bool, tcp: bool)
    requires Common(w) && (tcp && w.se.hasClient ==> w.toSe == [])
    ensures var r := SeReads(w, udp, tcp); r.se.received == Empty || r.se.received == SDP_SEARCH
  {
    hide SeccSpec.OnFrame;
    hide SR.Settled;
    SearchRead(w, udp);
  }

  lemma NotADemand(state: SeState, m: Message)
    requires m == Empty || m == SDP_SEARCH
    ensures Route(state, KindOf(m)) != Some(AnsweredCurrentDemand)
  {
  }

  lemma DisconnectKeepsInv(s: Secc)
    requires SR.Inv(s)
    ensures SR.Inv(OnDisconnect(s))
  {
  }

  /** Reading does not touch the source, and leaves the charger ready for its turn. */
  lemma ReadingKeeps(w: World, udp: bool, tcp: bool)
    requires Common(w)
    ensures var r := SeReads(w, udp, tcp);
            SR.Inv(r.se) && r.se.source == w.se.source && r.se.state == w.se.state
  {
    hide SeccSpec.OnFrame;
    assert SR.Inv(w.se);
    hide SR.Inv;
    if udp && w.udpToSe != [] {
      SR.FrameKeepsInv(w.se, w.udpToSe[0]);
    }
    var v := SeReads(w, udp, false);
    if tcp && v.se.hasClient && v.toSe != [] {
      SR.FrameKeepsInv(v.se, v.toSe[0]);
    } else if tcp && v.se.hasClient && v.closed {
      DisconnectKeepsInv(v.se);
    }
  }

  /** The rule for the charger's turn: a current other than none is an old one in a power state or the
      answer to the vehicle's demand. */
  lemma SeTurnSource(w: World, j: SeInput, udp: bool, tcp: bool, accept: bool)
    requires Inv(w)
    ensures var v := SeTurnStep(w, j, udp, tcp, accept);
            v.se.source.current != 0.0 ==>
              || (AnswersDemand(w, udp, tcp) && w.ev.state == AwaitCurrentDemand && !w.ev.entered && InDialogue(w) && w.toSe != [])
              || (v.se.source == w.se.source && SeccSpec.PowerState(w.se.state))
  {
    hide SeccSpec.Operate;
    hide SeReads;
    hide Route;
    hide InDialogue;
    assert Common(w);
    ReadingKeeps(w, udp, tcp);
    var r := SeReads(w, udp, tcp);
    if AnswersDemand(w, udp, tcp) {
      DemandIsAwaited(w, udp, tcp);
    } else {
      CurrentOnlyOnDemand(r.se, Offered(r, j, accept));
    }
  }

  lemma DemandIsBacked(h: History)
    requires Ordered(h) && h.w.ev.state == AwaitCurrentDemand
    ensures Backing(Count(h.log))
  {
    hide Count;
  }

  lemma SeTurnBacked(h: History, j: SeInput, udp: bool, tcp: bool, accept: bool)
    requires Inv(h.w) && Ordered(h) && Backed(h)
    ensures Backed(History(SeTurnStep(h.w, j, udp, tcp, accept),
                           Record(h.w, SeTurn(j, udp, tcp, accept), SeTurnStep(h.w, j, udp, tcp, accept), h.log)))
  {
    hide Record;
    hide SeTurnStep;
    hide Inv;
    hide InDialogue;
    hide Backing;
    hide Asks;
    hide Ordered;
    SeTurnSource(h.w, j, udp, tcp, accept);
    SeTurnLog(h.w, j, udp, tcp, accept, h.log);
    if h.w.ev.state == AwaitCurrentDemand {
      DemandIsBacked(h);
    }
    if InDialogue(h.w) {
      DialogueFacts(h.w);
      BackingStays(h.log, Replied(Asks(h.w.ev.state)));
      if h.w.ev.state == AwaitSessionSetup && h.w.toSe != [] {
        HandshakeWithoutPower(h.w);
      }
    }
  }

  lemma HandshakeWithoutPower(w: World)
    requires Inv(w) && InDialogue(w) && w.ev.state == AwaitSessionSetup && w.toSe != []
    ensures !SeccSpec.PowerState(w.se.state)
  {
  }

  // ---- Runs ----

  lemma EvTurnKeeps(h: History, i: EvInput, udp: bool, tcp: bool)
    requires Inv(h.w) && Ordered(h) && Backed(h)
    ensures var n := Advance(h, EvTurn(i, udp, tcp)); Ordered(n) && Backed(n)
  {
    hide EvTurnStep;
    hide Inv;
    hide InDialogue;
    hide Level;
    hide Backed;
    if !InDialogue(h.w) {
      EvTurnOutside(h.w, i, udp, tcp);
    } else if tcp && h.w.toEv != [] {
      EvTurnConsumingOrdered(h, i, udp);
    } else {
      EvTurnAskingOrdered(h, i, udp, tcp);
    }
    EvTurnBacked(h, i, udp, tcp);
  }

  lemma EvTurnBacked(h: History, i: EvInput, udp: bool, tcp: bool)
    requires Ordered(h) && Backed(h)
    ensures Backed(Advance(h, EvTurn(i, udp, tcp)))
  {
    EvTurnKeepsSe(h.w, i, udp, tcp);
    NotedCount(h.log, h.w.ev, EvTurnStep(h.w, i, udp, tcp).ev);
    hide EvTurnStep;
    hide Count;
  }

  lemma EvTurnKeepsSe(w: World, i: EvInput, udp: bool, tcp: bool)
    ensures EvTurnStep(w, i, udp, tcp).se == w.se
  {
    hide EvccSpec.Operate;
    hide EvccSpec.OnFrame;
  }

  lemma FitsChanged(state: EvState, from: bool, to: bool, replied: bool, t: Tally)
    requires Fits(state, from, replied, t)
    ensures Fits(state, to, replied, Add(t, Changed)) && (from == to ==> Fits(state, to, replied, t))
  {
  }

  lemma SetModeKeeps(h: History, mode: TransferMode)
    requires Ordered(h) && Backed(h)
    ensures var n := Advance(h, SetMode(mode)); Ordered(n) && Backed(n)
  {
    hide Count;
    CountAppend(h.log, Changed);
    BackingStays(h.log, Changed);
    hide Backing;
    hide Add;
    var v := Step(h.w, SetMode(mode));
    FitsChanged(h.w.ev.state, ER.ThreePhase(h.w.ev), ER.ThreePhase(v.ev), !h.w.ev.entered && h.w.toSe == [], Count(h.log));
    hide Fits;
  }

  lemma AdvanceKeeps(h: History, e: Event)
    requires Inv(h.w) && Ordered(h) && Backed(h)
    ensures Ordered(Advance(h, e)) && Backed(Advance(h, e))
  {
    hide EvTurnStep;
    hide SeTurnStep;
    hide Inv;
    hide Backing;
    hide Count;
    match e
    case EvTurn(i, udp, tcp) => EvTurnKeeps(h, i, udp, tcp);
    case SeTurn(j, udp, tcp, accept) =>
      SeTurnOrdered(h, j, udp, tcp, accept);
      SeTurnBacked(h, j, udp, tcp, accept);
    case Establish =>
    case SetMode(mode) => SetModeKeeps(h, mode);
  }

  lemma {:induction false} TraceKeeps(c: Setup, es: seq<Event>)
    ensures var h := Trace(c, es); h.w == Run(Begin(c), es) && Inv(h.w) && Ordered(h) && Backed(h)
  {
    hide Step;
    hide Inv;
    hide Record;
    if es == [] {
      BeginsWithInv(c);
    } else {
      var before, e := Trace(c, es[..|es| - 1]), es[|es| - 1];
      TraceKeeps(c, es[..|es| - 1]);
      StepKeepsInv(before.w, e);
      AdvanceKeeps(before, e);
    }
  }

  lemma BackingMeans(log: seq<Mark>)
    requires Backing(Count(log))
    ensures Prepared(log) <==> Chosen(false) in log
    ensures Matched in log <==> Chosen(false) in log
    ensures Chosen(true) in log <==> Chosen(false) !in log
    ensures Chosen(true) in log ==> Changed in log
  {
    hide Level;
    if Level(log) >= 3 {
      var i, j, k := LevelThree(log);
      PreparedAt(log, i, j, k);
    }
  }

  /** Whenever the source has been told to deliver current: the session went through CableCheck, a
      PreCharge match and PowerDelivery in this order if and only if the vehicle went past
      ChargeParameterDiscovery with another transfer mode than three-phase AC; and if it did not,
      three-phase AC has been put out of force since then. */
  lemma CurrentIsPrepared(c: Setup, es: seq<Event>)
    ensures var h := Trace(c, es);
            h.w.se.source.current != 0.0 ==>
              && (Prepared(h.log) <==> Chosen(false) in h.log)
              && (Matched in h.log <==> Chosen(false) in h.log)
              && (Chosen(true) in h.log <==> Chosen(false) !in h.log)
              && (Chosen(true) in h.log ==> Changed in h.log)
  {
    hide Trace;
    hide Inv;
    hide Count;
    hide Prepared;
    hide Backing;
    TraceKeeps(c, es);
    var h := Trace(c, es);
    if h.w.se.source.current != 0.0 {
      BackingMeans(h.log);
    }
  }

  /** As long as the application neither puts three-phase AC in force nor takes it out of force, no current
      flows without the whole sequence. */
  lemma CurrentIsPreparedUnchanged(c: Setup, es: seq<Event>)
    ensures var h := Trace(c, es);
            h.w.se.source.current != 0.0 && Changed !in h.log ==> Prepared(h.log)
  {
    hide Trace;
    hide Prepared;
    CurrentIsPrepared(c, es);
  }

  lemma DemandStored(s: Secc, m: Message)
    requires IsRequest(m) && KindOf(m) == KCurrentDemand && s.state != SeIdle && s.state != SeFinished
    ensures m.CurrentDemandReq? && SeccSpec.OnFrame(s, m).demand == Demand(m.current, m.voltage)
  {
    hide ToReal;
  }

  /** The turn hands the vehicle's demand to the source. */
  lemma DemandCommands(w: World, j: SeInput, udp: bool, tcp: bool, accept: bool)
    requires Inv(w) && AnswersDemand(w, udp, tcp)
    ensures w.toSe != [] && w.toSe[0].CurrentDemandReq?
    ensures SeTurnStep(w, j, udp, tcp, accept).se.source ==
            PowerControl(PilotAllows(j), ToReal(w.toSe[0].voltage), ToReal(w.toSe[0].current), true)
  {
    hide SeReads;
    hide SeccSpec.Operate;
    hide SeccSpec.OnFrame;
    hide Inv;
    hide InDialogue;
    hide Route;
    hide KindOf;
    hide IsRequest;
    hide ToReal;
    hide PilotAllows;
    InvCommon(w);
    var r := SeReads(w, udp, tcp);
    DemandIsAwaited(w, udp, tcp);
    DemandRead(w, udp, tcp);
    SourceOfAnswer(r.se, Offered(r, j, accept), AnsweredCurrentDemand);
    SamePilot(r, j, accept);
  }

  lemma SamePilot(w: World, j: SeInput, accept: bool)
    ensures PilotAllows(Offered(w, j, accept)) == PilotAllows(j)
  {
  }

  lemma DemandRead(w: World, udp: bool, tcp: bool)
    requires Inv(w) && AnswersDemand(w, udp, tcp) && InDialogue(w) && w.toSe != []
    ensures var r := SeReads(w, udp, tcp);
            && SR.Settled(r.se) && IsRequest(r.se.received) && r.se.hasClient
            && w.toSe[0].CurrentDemandReq? && r.se.demand == Demand(w.toSe[0].current, w.toSe[0].voltage)
  {
    hide SeReads;
    hide SeccSpec.OnFrame;
    hide Inv;
    hide InDialogue;
    hide Route;
    hide KindOf;
    hide IsRequest;
    hide SR.Settled;
    InvCommon(w);
    ReadingKeeps(w, udp, tcp);
    var r := SeReads(w, udp, tcp);
    if tcp && w.se.hasClient {
      SeReadsRequest(w, udp);
      SR.RouteLeadsToAnswer(r.se.state, KindOf(r.se.received), AnsweredCurrentDemand);
      PowerStateAnswers(r.se.state, KindOf(r.se.received));
      DemandStored(w.se.(received := SeReads(w, udp, false).se.received), w.toSe[0]);
    } else {
      NothingFromClient(w, udp, tcp);
      NotADemand(r.se.state, r.se.received);
    }
  }

  lemma NothingFromClient(w: World, udp: bool, tcp: bool)
    requires Common(w) && !(tcp && w.se.hasClient)
    ensures var r := SeReads(w, udp, tcp); r.se.received == Empty || r.se.received == SDP_SEARCH
  {
    hide SeccSpec.OnFrame;
    hide SR.Settled;
    SearchRead(w, udp);
  }

  lemma PowerStateAnswers(state: SeState, k: Kind)
    requires Route(state, k) == Some(AnsweredCurrentDemand)
    ensures state != SeIdle && state != SeFinished
  {
  }

  /** Every turn in which the charger answers a current demand finds the vehicle waiting for this answer,
      with its contactor closed, and tells the source to deliver what the vehicle has demanded. */
  lemma CurrentIsAwaited(c: Setup, es: seq<Event>, j: SeInput, udp: bool, tcp: bool, accept: bool)
    ensures var w := Run(Begin(c), es);
            AnswersDemand(w, udp, tcp) ==>
              && w.ev.state == AwaitCurrentDemand && !w.ev.entered && w.ev.ev.contactor
              && w.toSe != [] && w.toSe[0].CurrentDemandReq?
              && SeTurnStep(w, j, udp, tcp, accept).se.source ==
                 PowerControl(PilotAllows(j), ToReal(w.toSe[0].voltage), ToReal(w.toSe[0].current), true)
  {
    hide Run;
    hide Trace;
    hide Inv;
    hide SeTurnStep;
    hide AnswersDemand;
    hide Count;
    hide InDialogue;
    hide ToReal;
    hide PilotAllows;
    TraceKeeps(c, es);
    var w := Run(Begin(c), es);
    if AnswersDemand(w, udp, tcp) {
      DemandIsAwaited(w, udp, tcp);
      DemandCommands(w, j, udp, tcp, accept);
    }
  }

  /** No other turn gives the source a current other than none that it did not have. */
  lemma NewCurrentIsAwaited(c: Setup, es: seq<Event>, e: Event)
    ensures var w := Run(Begin(c), es);
            var v := Step(w, e);
            v.se.source.current != 0.0 && v.se.source != w.se.source ==>
              && e.SeTurn? && AnswersDemand(w, e.udp, e.tcp)
              && w.ev.state == AwaitCurrentDemand && !w.ev.entered && w.ev.ev.contactor && w.toSe != []
  {
    hide Run;
    hide Trace;
    hide Inv;
    hide EvTurnStep;
    hide SeTurnStep;
    hide Count;
    hide InDialogue;
    hide AnswersDemand;
    TraceKeeps(c, es);
    var w := Run(Begin(c), es);
    match e
    case EvTurn(i, udp, tcp) => EvTurnKeepsSe(w, i, udp, tcp);
    case SeTurn(j, udp, tcp, accept) =>
      SeTurnSource(w, j, udp, tcp, accept);
      CurrentIsAwaited(c, es, j, udp, tcp, accept);
    case Establish =>
    case SetMode(_) =>
  }
}
