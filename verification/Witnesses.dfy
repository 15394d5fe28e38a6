// Runs that exist. With simulated hardware current comes to flow in every system whose two sides have a transfer mode in
// common; and there are sessions in which the contactor closes and current flows although no voltages have been compared.

module Witnesses {
  import opened V2g
  import opened ByteArrays
  import opened Timers
  import opened EvccSpec
  import opened SeccSpec
  import BS = BoundedStop
  import CS = ChargingSystem
  import ER = EvccRuns
  import ES = EvccSafety
  import LS = Lockstep
  import PO = PowerOrder
  import ST = BoundedStart

  // ---- The vehicle alone ----

  /** A charger that offers three-phase AC only and has kept the id of a fresh vehicle answers like this. */
  function GoodResponse(state: EvState): Message {
    match state
    case AwaitAppProtocol => AppProtocolRes(true, OWN_SCHEMA)
    case AwaitSessionSetup => SessionSetupRes(CLEARED_ID, OK_NewSessionEstablished)
    case AwaitServiceDiscovery => ServiceDiscoveryRes(CLEARED_ID, OK, [AC_three_phase_core])
    case AwaitPaymentServiceSelection => PaymentServiceSelectionRes(CLEARED_ID, OK)
    case AwaitAuthorization => AuthorizationRes(CLEARED_ID, OK, ProcessingFinished)
    case _ => ChargeParameterDiscoveryRes(CLEARED_ID, OK)
  }

  /** The state that follows on the three-phase way. */
  function After(state: EvState): EvState {
    match state
    case AwaitAppProtocol => AwaitSessionSetup
    case AwaitSessionSetup => AwaitServiceDiscovery
    case AwaitServiceDiscovery => AwaitPaymentServiceSelection
    case AwaitPaymentServiceSelection => AwaitAuthorization
    case AwaitAuthorization => AwaitChargeParameterDiscovery
    case _ => AwaitPowerDelivery
  }

  predicate InSetup(state: EvState) {
    ES.BeforeChoice(state) && state != AwaitSdp
  }

  /** A vehicle that has just entered a state of its session with three-phase AC in force. */
  predicate Arriving(h: ER.History, state: EvState) {
    && h.s.state == state && h.s.entered && h.s.received == Empty && ER.ThreePhase(h.s) && h.s.secc.sessionId == CLEARED_ID
    && ER.Matched !in h.log
  }

  /** What the vehicle makes of the response. */
  lemma Heard(s: Evcc)
    requires InSetup(s.state) && s.secc.sessionId == CLEARED_ID
    ensures var t := EvccSpec.OnFrame(s, GoodResponse(s.state));
            && t == s.(received := GoodResponse(s.state), secc := t.secc) && t.secc.sessionId == CLEARED_ID
            && (s.state == AwaitServiceDiscovery ==> t.secc.modes == [AC_three_phase_core])
            && (s.state == AwaitAuthorization ==> t.secc.authorized)
  {
  }

  lemma Decided(s: Evcc, i: EvInput)
    requires InSetup(s.state) && s.received == GoodResponse(s.state) && ER.ThreePhase(s) && s.secc.sessionId == CLEARED_ID
    requires s.state == AwaitServiceDiscovery ==> s.secc.modes == [AC_three_phase_core]
    requires s.state == AwaitAuthorization ==> s.secc.authorized
    ensures HasAnswer(s)
    ensures var v := Decide(s, i); v.next == After(s.state) && ER.ThreePhase(v.s) && v.s.secc == s.secc
  {
    ES.NegotiateMeaning(s.info.transferMode, [AC_three_phase_core]);
    hide Negotiate;
  }

  lemma Answered(s: Evcc, i: EvInput)
    requires InSetup(s.state) && !s.entered && !ER.WillRepeat(s) && i.client == Connected
    requires ER.ThreePhase(s) && s.secc.sessionId == CLEARED_ID
    ensures var t := ER.Next(EvccSpec.OnFrame(s, GoodResponse(s.state)), i);
            && t.state == After(s.state) && t.entered && t.received == Empty && ER.ThreePhase(t) && t.secc.sessionId == CLEARED_ID
  {
    Heard(s);
    var t := EvccSpec.OnFrame(s, GoodResponse(s.state));
    hide EvccSpec.OnFrame;
    hide GoodResponse;
    hide HasAnswer;
    Decided(t, i);
    LS.NotDue(t, i);
    ER.SessionOperate(t, i);
    hide Decide;
    hide SendDue;
  }

  lemma RunAppend(s: Evcc, es: seq<ER.Event>, e: ER.Event)
    ensures ER.Run(s, es + [e]) == ER.Step(ER.Run(s, es), e)
  {
    assert (es + [e])[..|es|] == es;
  }

  /** Ask, hear the answer, go on. */
  lemma Exchange(s: Evcc, es: seq<ER.Event>, state: EvState, i: EvInput) returns (longer: seq<ER.Event>)
    requires Arriving(ER.Run(s, es), state) && InSetup(state) && i.client == Connected
    ensures Arriving(ER.Run(s, longer), After(state))
  {
    hide ER.Run;
    hide EvccSpec.Operate;
    hide ER.AskedEntry;
    hide ER.ConsumedEntry;
    hide ER.NotedEntry;
    hide EvccSpec.OnFrame;
    hide GoodResponse;
    hide Request;
    var h := ER.Run(s, es);
    var m := GoodResponse(state);
    longer := es + [ER.Cycle(i)] + [ER.Frame(m)] + [ER.Cycle(i)];
    RunAppend(s, es, ER.Cycle(i));
    RunAppend(s, es + [ER.Cycle(i)], ER.Frame(m));
    RunAppend(s, es + [ER.Cycle(i)] + [ER.Frame(m)], ER.Cycle(i));
    LS.EvAsks(h.s, i);
    ES.NoMatch(h.s, i, h.log);
    var asked := ER.Step(h, ER.Cycle(i));
    Answered(asked.s, i);
    var heard := ER.Step(asked, ER.Frame(m));
    ER.FrameKeeps(asked.s, m);
    ES.NoMatch(heard.s, i, heard.log);
  }

  /** The vehicle looks for a charger, finds one and connects. */
  lemma Connects(pilot: Option<CpState>, now: nat, i: EvInput) returns (es: seq<ER.Event>)
    requires i.run && i.afterOpen == Connected
    ensures Arriving(ER.Run(EvccSpec.Initial(AC_three_phase_core, pilot, now), es), AwaitAppProtocol)
  {
    hide ER.Run;
    hide EvccSpec.Operate;
    var s := EvccSpec.Initial(AC_three_phase_core, pilot, now);
    es := [] + [ER.Cycle(i)] + [ER.Frame(LS.SDP_OFFER)] + [ER.Cycle(i)];
    RunAppend(s, [], ER.Cycle(i));
    RunAppend(s, [] + [ER.Cycle(i)], ER.Frame(LS.SDP_OFFER));
    RunAppend(s, [] + [ER.Cycle(i)] + [ER.Frame(LS.SDP_OFFER)], ER.Cycle(i));
    NothingYet(s);
    Wakes(pilot, now, i);
    var woken := ER.Next(s, i);
    LS.OfferReceived(woken);
    TakesOffer(woken.(received := LS.SDP_OFFER), i);
    hide ER.NotedEntry;
    hide ER.AskedEntry;
    hide ER.ConsumedEntry;
    ER.NoEntries(woken.(received := LS.SDP_OFFER), i, []);
  }

  lemma NothingYet(s: Evcc)
    ensures ER.Run(s, []) == ER.History(s, [])
  {
  }

  lemma Wakes(pilot: Option<CpState>, now: nat, i: EvInput)
    requires i.run
    ensures var t := ER.Next(EvccSpec.Initial(AC_three_phase_core, pilot, now), i);
            t.state == AwaitSdp && t.entered && t.received == Empty && ER.ThreePhase(t) && t.secc.sessionId == CLEARED_ID
  {
  }

  lemma TakesOffer(s: Evcc, i: EvInput)
    requires s.state == AwaitSdp && s.entered && s.received == LS.SDP_OFFER && i.afterOpen == Connected
    ensures var t := ER.Next(s, i);
            t.state == AwaitAppProtocol && t.entered && t.received == Empty && t.info == s.info && t.secc == s.secc
  {
  }

  /** The vehicle has asked for power. */
  lemma AsksForPower(s: Evcc, es: seq<ER.Event>, i: EvInput) returns (longer: seq<ER.Event>)
    requires Arriving(ER.Run(s, es), AwaitPowerDelivery) && i.client == Connected
    ensures var h := ER.Run(s, longer);
            h.s.state == AwaitPowerDelivery && !h.s.entered && ER.ThreePhase(h.s) && ER.Matched !in h.log
  {
    hide ER.Run;
    hide EvccSpec.Operate;
    hide ER.AskedEntry;
    hide ER.ConsumedEntry;
    hide ER.NotedEntry;
    hide Request;
    var h := ER.Run(s, es);
    longer := es + [ER.Cycle(i)];
    RunAppend(s, es, ER.Cycle(i));
    LS.EvAsks(h.s, i);
    ES.NoMatch(h.s, i, h.log);
  }

  /** A run of a fresh vehicle, with nothing but good responses, after which the contactor is closed and no
      voltages have been compared: three-phase AC is in force until the vehicle awaits PowerDelivery. */
  lemma ClosedUnchecked(pilot: Option<CpState>, now: nat, i: EvInput) returns (es: seq<ER.Event>)
    requires i.run && i.enable && i.client == Connected && i.afterOpen == Connected
    ensures var h := ER.Run(EvccSpec.Initial(AC_three_phase_core, pilot, now), es);
            h.s.ev.contactor && ER.Matched !in h.log
  {
    hide ER.Run;
    hide ER.Step;
    var s := EvccSpec.Initial(AC_three_phase_core, pilot, now);
    es := Connects(pilot, now, i);
    es := Exchange(s, es, AwaitAppProtocol, i);
    es := Exchange(s, es, AwaitSessionSetup, i);
    es := Exchange(s, es, AwaitServiceDiscovery, i);
    es := Exchange(s, es, AwaitPaymentServiceSelection, i);
    es := Exchange(s, es, AwaitAuthorization, i);
    es := Exchange(s, es, AwaitChargeParameterDiscovery, i);
    es := AsksForPower(s, es, i);
    var h := ER.Run(s, es);
    var response := PowerDeliveryRes(h.s.secc.sessionId, OK);
    ES.ModeChangeSkipsCheck(h, i);
    RunAppend(s, es, ER.SetMode(DC_core));
    RunAppend(s, es + [ER.SetMode(DC_core)], ER.Frame(response));
    RunAppend(s, es + [ER.SetMode(DC_core)] + [ER.Frame(response)], ER.Cycle(i));
    RunAppend(s, es + [ER.SetMode(DC_core)] + [ER.Frame(response)] + [ER.Cycle(i)], ER.Cycle(i));
    es := es + [ER.SetMode(DC_core)] + [ER.Frame(response)] + [ER.Cycle(i)] + [ER.Cycle(i)];
  }

  // ---- Both sides ----

  /** No timer of the vehicle is set for longer than a second. */
  predicate ShortTimers(s: Evcc) {
    s.repeatTimer.duration <= 1000 && s.powerTimer.duration <= 1000
  }

  lemma NextShort(s: Evcc, i: EvInput)
    requires ShortTimers(s)
    ensures ShortTimers(ER.Next(s, i))
  {
    if InSession(s.state) {
      SessionShort(s, i);
    } else {
      OutsideShort(s, i);
    }
  }

  lemma OutsideShort(s: Evcc, i: EvInput)
    requires ShortTimers(s) && !InSession(s.state)
    ensures ShortTimers(ER.Next(s, i))
  {
    hide SessionStep;
  }

  lemma DecideShort(s: Evcc, i: EvInput)
    requires ShortTimers(s) && InSession(s.state) && HasAnswer(s)
    ensures ShortTimers(Decide(s, i).s)
  {
    hide Negotiate;
    hide ResponseIsValid;
    hide MeetsVoltage;
    hide MayStop;
  }

  lemma SessionShort(s: Evcc, i: EvInput)
    requires ShortTimers(s) && InSession(s.state)
    ensures ShortTimers(ER.Next(s, i))
  {
    ER.SessionOperate(s, i);
    AskedShort(s, i);
    ER.AskingKeeps(s, i);
    hide EvccSpec.Operate;
    hide EvccSpec.Asked;
    hide AskedOutput;
    hide Decide;
    if HasAnswer(EvccSpec.Asked(s, i)) {
      DecideShort(EvccSpec.Asked(s, i), i);
    }
  }

  lemma AskedShort(s: Evcc, i: EvInput)
    requires ShortTimers(s)
    ensures ShortTimers(EvccSpec.Asked(s, i))
  {
    ER.ActuateKeeps(s, i);
    hide Actuate;
    hide SendDue;
  }

  lemma ReadsShort(w: CS.World, udp: bool, tcp: bool)
    requires ShortTimers(w.ev)
    ensures ShortTimers(CS.EvReads(w, udp, tcp).ev)
  {
    hide EvccSpec.OnFrame;
    if udp && w.udpToEv != [] {
      ER.FrameKeeps(w.ev, w.udpToEv[0]);
    }
    var v := CS.EvReads(w, udp, false);
    if v.toEv != [] {
      ER.FrameKeeps(v.ev, v.toEv[0]);
    }
  }

  lemma EvTurnShort(w: CS.World, i: EvInput, udp: bool, tcp: bool)
    requires ShortTimers(w.ev)
    ensures ShortTimers(CS.EvTurnStep(w, i, udp, tcp).ev)
  {
    hide EvccSpec.Operate;
    hide CS.EvReads;
    hide ShortTimers;
    ReadsShort(w, udp, tcp);
    var r := CS.EvReads(w, udp, tcp);
    NextShort(r.ev, CS.WithStatus(r, i));
  }

  lemma StepShort(w: CS.World, e: CS.Event)
    requires ShortTimers(w.ev)
    ensures ShortTimers(CS.Step(w, e).ev)
  {
    hide CS.EvTurnStep;
    hide CS.SeTurnStep;
    match e
    case EvTurn(i, udp, tcp) => EvTurnShort(w, i, udp, tcp);
    case SeTurn(j, udp, tcp, accept) => LS.SeTurnKeepsEv(w, j, udp, tcp, accept);
    case Establish =>
    case SetMode(_) =>
  }

  /** A vehicle called after its repeat timer has run out, by an application that wants to charge. */
  function Late(w: CS.World): EvInput {
    var t := RepeatTimer(w.ev);
    EvInput(true, true, if t.Some? then t.value.startTime + t.value.duration + 1 else 0, Connected, Connected, None, None, None)
  }

  const CHARGER: SeInput := SeInput(true, None, None, NoConnection)

  lemma LateIsTimely(w: CS.World)
    requires ShortTimers(w.ev)
    ensures BS.Timely(w, Late(w)) && ST.On(Late(w))
  {
  }

  lemma RoundsAppend(w: CS.World, rs: seq<(EvInput, SeInput)>, r: (EvInput, SeInput))
    ensures ST.Rounds(w, rs + [r]) == ST.Round(ST.Rounds(w, rs), r.0, r.1)
  {
    assert (rs + [r])[..|rs|] == rs;
  }

  /** There are rounds that leave the timers time to end. */
  lemma {:induction false} EagerRoundsExist(w: CS.World, n: nat) returns (rs: seq<(EvInput, SeInput)>)
    requires ShortTimers(w.ev)
    ensures |rs| == n && ST.EagerRounds(w, rs) && ShortTimers(ST.Rounds(w, rs).ev)
  {
    hide ST.Round;
    hide ShortTimers;
    rs := [];
    if n != 0 {
      var before := EagerRoundsExist(w, n - 1);
      var v := ST.Rounds(w, before);
      rs := before + [(Late(v), CHARGER)];
      LateIsTimely(v);
      RoundsAppend(w, before, (Late(v), CHARGER));
      RoundShort(v, Late(v), CHARGER);
      EagerAppend(w, before, (Late(v), CHARGER));
    }
  }

  lemma RoundShort(w: CS.World, i: EvInput, j: SeInput)
    requires ShortTimers(w.ev)
    ensures ShortTimers(ST.Round(w, i, j).ev)
  {
    hide ShortTimers;
    hide CS.Step;
    StepShort(w, CS.Establish);
    StepShort(CS.Step(w, CS.Establish), CS.EvTurn(i, true, true));
    StepShort(CS.Step(CS.Step(w, CS.Establish), CS.EvTurn(i, true, true)), CS.SeTurn(j, true, true, true));
  }

  lemma EagerAppend(w: CS.World, rs: seq<(EvInput, SeInput)>, r: (EvInput, SeInput))
    requires ST.EagerRounds(w, rs) && ST.On(r.0) && r.1.reading == None && BS.Timely(ST.Rounds(w, rs), r.0)
    ensures ST.EagerRounds(w, rs + [r])
  {
    hide ST.On;
    hide BS.Timely;
    hide ST.Rounds;
    var more := rs + [r];
    forall k | 0 <= k < |more|
      ensures ST.On(more[k].0) && more[k].1.reading == None && BS.Timely(ST.Rounds(w, more[..k]), more[k].0)
    {
      assert more[..k] == rs[..k];
      assert rs[..|rs|] == rs;
    }
  }

  /** The turns of the rounds. */
  function Turns(rs: seq<(EvInput, SeInput)>): seq<CS.Event> {
    if rs == [] then []
    else
      var r := rs[|rs| - 1];
      Turns(rs[..|rs| - 1]) + [CS.Establish] + [CS.EvTurn(r.0, true, true)] + [CS.SeTurn(r.1, true, true, true)]
  }

  lemma TraceAppend(c: CS.Setup, es: seq<CS.Event>, e: CS.Event)
    ensures PO.Trace(c, es + [e]) == PO.Advance(PO.Trace(c, es), e)
  {
    assert (es + [e])[..|es|] == es;
  }

  lemma RunTurns(w: CS.World, es: seq<CS.Event>, e: CS.Event)
    ensures CS.Run(w, es + [e]) == CS.Step(CS.Run(w, es), e)
  {
    assert (es + [e])[..|es|] == es;
  }

  lemma {:induction false} TurnsAreRounds(w: CS.World, es: seq<CS.Event>, rs: seq<(EvInput, SeInput)>)
    ensures CS.Run(w, es + Turns(rs)) == ST.Rounds(CS.Run(w, es), rs)
  {
    hide CS.Step;
    hide CS.Run;
    if rs == [] {
      assert es + [] == es;
    } else {
      var n := |rs| - 1;
      var r := rs[n];
      TurnsAreRounds(w, es, rs[..n]);
      var before := es + Turns(rs[..n]);
      RunTurns(w, before, CS.Establish);
      RunTurns(w, before + [CS.Establish], CS.EvTurn(r.0, true, true));
      RunTurns(w, before + [CS.Establish] + [CS.EvTurn(r.0, true, true)], CS.SeTurn(r.1, true, true, true));
      assert es + Turns(rs) == before + [CS.Establish] + [CS.EvTurn(r.0, true, true)] + [CS.SeTurn(r.1, true, true, true)];
    }
  }

  /** The application leaves the transfer mode alone. */
  predicate Unwritten(es: seq<CS.Event>) {
    forall e :: e in es ==> !e.SetMode?
  }

  lemma {:induction false} TurnsUnwritten(rs: seq<(EvInput, SeInput)>)
    ensures Unwritten(Turns(rs))
  {
    if rs != [] {
      TurnsUnwritten(rs[..|rs| - 1]);
    }
  }

  lemma {:induction false} NothingChanged(c: CS.Setup, es: seq<CS.Event>)
    requires Unwritten(es)
    ensures PO.Changed !in PO.Trace(c, es).log
  {
    hide CS.Step;
    hide KindOf;
    if es != [] {
      NothingChanged(c, es[..|es| - 1]);
    }
  }

  /** The choice of a session stays in the log as long as no new session is set up. */
  lemma ChoiceStays(h: PO.History, e: CS.Event)
    requires LS.Inv(h.w) && h.w.ev.state != AwaitSessionSetup && PO.Chosen(true) in h.log
    ensures PO.Chosen(true) in PO.Advance(h, e).log
  {
    if e.SeTurn? {
      PO.SeTurnLog(h.w, e.j, e.udp, e.tcp, e.accept, h.log);
    }
    hide CS.EvTurnStep;
    hide CS.SeTurnStep;
    hide LS.Inv;
    hide LS.InDialogue;
    hide KindOf;
  }

  /** The vehicle is past its choice, on its way to the power or there. */
  predicate Committed(h: PO.History) {
    ST.Starting(h.w, false) && ST.Late(h.w, false) && PO.Chosen(true) in h.log
  }

  lemma CommittedFacts(h: PO.History)
    requires Committed(h)
    ensures LS.Inv(h.w) && h.w.ev.state != AwaitSessionSetup
  {
    hide LS.Inv;
    hide BS.Tame;
    hide LS.Linking;
    hide LS.InDialogue;
  }

  lemma LateRound(h: PO.History, i: EvInput, j: SeInput)
    requires Committed(h) && ST.On(i) && j.reading == None
    ensures var n := PO.Advance(PO.Advance(PO.Advance(h, CS.Establish), CS.EvTurn(i, true, true)), CS.SeTurn(j, true, true, true));
            n.w == ST.Round(h.w, i, j) && Committed(n)
  {
    hide CS.EvTurnStep;
    hide CS.SeTurnStep;
    hide ST.Starting;
    hide ST.On;
    hide PO.Record;
    var e := PO.Advance(h, CS.Establish);
    CommittedFacts(h);
    ST.EstablishStarts(h.w, false);
    ChoiceStays(h, CS.Establish);
    var v := PO.Advance(e, CS.EvTurn(i, true, true));
    CommittedFacts(e);
    ST.EvTurnStarts(e.w, i, true, true, false);
    ChoiceStays(e, CS.EvTurn(i, true, true));
    CommittedFacts(v);
    ST.SeTurnStarts(v.w, j, true, true, true, false);
    LS.SeTurnKeepsEv(v.w, j, true, true, true);
    ChoiceStays(v, CS.SeTurn(j, true, true, true));
  }

  /** The turns of one more round. */
  lemma TraceRound(c: CS.Setup, es: seq<CS.Event>, rs: seq<(EvInput, SeInput)>)
    requires rs != []
    ensures var r := rs[|rs| - 1];
            var h := PO.Trace(c, es + Turns(rs[..|rs| - 1]));
            PO.Trace(c, es + Turns(rs)) ==
            PO.Advance(PO.Advance(PO.Advance(h, CS.Establish), CS.EvTurn(r.0, true, true)), CS.SeTurn(r.1, true, true, true))
  {
    hide PO.Trace;
    hide PO.Advance;
    var r := rs[|rs| - 1];
    var before := es + Turns(rs[..|rs| - 1]);
    TraceAppend(c, before, CS.Establish);
    TraceAppend(c, before + [CS.Establish], CS.EvTurn(r.0, true, true));
    TraceAppend(c, before + [CS.Establish] + [CS.EvTurn(r.0, true, true)], CS.SeTurn(r.1, true, true, true));
    assert es + Turns(rs) == before + [CS.Establish] + [CS.EvTurn(r.0, true, true)] + [CS.SeTurn(r.1, true, true, true)];
  }

  lemma {:induction false} LateRounds(c: CS.Setup, es: seq<CS.Event>, rs: seq<(EvInput, SeInput)>)
    requires Committed(PO.Trace(c, es)) && ST.EagerRounds(PO.Trace(c, es).w, rs)
    ensures Committed(PO.Trace(c, es + Turns(rs)))
  {
    hide Committed;
    hide PO.Trace;
    hide PO.Advance;
    hide ST.On;
    if rs == [] {
      assert es + [] == es;
    } else {
      hide Turns;
      var n := |rs| - 1;
      ST.EagerRoundsBefore(PO.Trace(c, es).w, rs);
      hide ST.EagerRounds;
      LateRounds(c, es, rs[..n]);
      TraceRound(c, es, rs);
      LateRound(PO.Trace(c, es + Turns(rs[..n])), rs[n].0, rs[n].1);
    }
  }

  const VEHICLE: EvInput := EvInput(true, true, 0, Closed, Connected, None, None, None)

  lemma {:induction false} RunShort(w: CS.World, es: seq<CS.Event>)
    requires ShortTimers(w.ev)
    ensures ShortTimers(CS.Run(w, es).ev)
  {
    hide CS.Step;
    hide ShortTimers;
    if es != [] {
      RunShort(w, es[..|es| - 1]);
      StepShort(CS.Run(w, es[..|es| - 1]), es[|es| - 1]);
    }
  }

  /** Every system with simulated hardware and a common transfer mode other than three-phase AC has a run
      after which current flows. */
  lemma CurrentFlows(c: CS.Setup) returns (es: seq<CS.Event>)
    requires ST.Compatible(c) && c.mode != AC_three_phase_core
    ensures ST.Delivering(CS.Run(CS.Begin(c), es))
  {
    hide CS.Run;
    hide ST.Delivering;
    hide ST.Rounds;
    hide ST.EagerRounds;
    var opening := ST.Handshake(VEHICLE, CHARGER);
    RunShort(CS.Begin(c), opening);
    hide CS.Begin;
    var rs := EagerRoundsExist(CS.Run(CS.Begin(c), opening), ST.LONGEST);
    ST.PowerFlows(c, VEHICLE, CHARGER, rs);
    TurnsAreRounds(CS.Begin(c), opening, rs);
    es := opening + Turns(rs);
  }

  /** With three-phase AC in common there is a run, without a change of the transfer mode, after which the
      vehicle awaits PowerDelivery. */
  lemma ReachesPowerDelivery(c: CS.Setup) returns (es: seq<CS.Event>)
    requires ST.Compatible(c) && c.mode == AC_three_phase_core
    ensures Unwritten(es)
    ensures var w := CS.Run(CS.Begin(c), es); ST.Starting(w, true) && w.ev.state == AwaitPowerDelivery
  {
    hide CS.Run;
    hide ST.Starting;
    hide ST.Rounds;
    hide ST.EagerRounds;
    hide ST.Distance;
    var opening := ST.Handshake(VEHICLE, CHARGER);
    RunShort(CS.Begin(c), opening);
    hide CS.Begin;
    ST.HandshakeStarts(c, VEHICLE, CHARGER);
    var w := CS.Run(CS.Begin(c), opening);
    var rs := EagerRoundsExist(w, ST.LONGEST);
    var k := ST.RoundsPrepare(w, rs);
    ST.DistanceIsBounded(w, true);
    ST.DistanceIsBounded(ST.Rounds(w, rs[..k]), true);
    assert rs[..|rs|] == rs;
    TurnsAreRounds(CS.Begin(c), opening, rs[..k]);
    es := opening + Turns(rs[..k]);
    TurnsUnwritten(rs[..k]);
  }

  lemma ThreePhaseChosen(c: CS.Setup, es: seq<CS.Event>)
    requires Unwritten(es)
    requires var w := CS.Run(CS.Begin(c), es); w.ev.state == AwaitPowerDelivery && ER.ThreePhase(w.ev)
    ensures PO.Chosen(true) in PO.Trace(c, es).log
  {
    hide CS.Run;
    hide PO.Trace;
    hide PO.Level;
    hide LS.Inv;
    NothingChanged(c, es);
    PO.TraceKeeps(c, es);
  }

  /** The application takes three-phase AC out of force while the vehicle awaits PowerDelivery. */
  lemma ChangesMode(c: CS.Setup, es: seq<CS.Event>)
    requires Unwritten(es)
    requires var w := CS.Run(CS.Begin(c), es); ST.Starting(w, true) && w.ev.state == AwaitPowerDelivery
    ensures Committed(PO.Trace(c, es + [CS.SetMode(DC_core)]))
  {
    hide CS.Run;
    hide PO.Trace;
    hide LS.Inv;
    hide BS.Tame;
    hide LS.InDialogue;
    var w := CS.Run(CS.Begin(c), es);
    ThreePhaseChosen(c, es);
    PO.TraceKeeps(c, es);
    TraceAppend(c, es, CS.SetMode(DC_core));
    BS.SetModeKeepsRank(w, DC_core);
    BS.WhereItIs(CS.Step(w, CS.SetMode(DC_core)));
  }

  /** Every system with simulated hardware and three-phase AC in common has a run after which current flows
      although no voltages have been compared: the application need only write DC_core while the vehicle
      awaits PowerDelivery. */
  lemma CurrentFlowsUnchecked(c: CS.Setup) returns (es: seq<CS.Event>)
    requires ST.Compatible(c) && c.mode == AC_three_phase_core
    ensures var h := PO.Trace(c, es); ST.Delivering(h.w) && PO.Matched !in h.log && !PO.Prepared(h.log)
  {
    hide CS.Run;
    hide PO.Trace;
    hide ST.Starting;
    hide ST.Rounds;
    hide ST.EagerRounds;
    hide ST.Distance;
    es := ReachesPowerDelivery(c);
    ChangesMode(c, es);
    es := es + [CS.SetMode(DC_core)];
    PO.TraceKeeps(c, es);
    RunShort(CS.Begin(c), es);
    var h := PO.Trace(c, es);
    var rs := EagerRoundsExist(h.w, ST.LONGEST);
    ST.RoundsStart(h.w, rs);
    ST.DistanceIsBounded(h.w, false);
    ST.DistanceIsBounded(ST.Rounds(h.w, rs), false);
    LateRounds(c, es, rs);
    TurnsAreRounds(CS.Begin(c), es, rs);
    es := es + Turns(rs);
    PO.TraceKeeps(c, es);
    PO.CurrentIsPrepared(c, es);
  }
}
