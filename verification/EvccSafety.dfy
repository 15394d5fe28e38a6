// What every run of the vehicle guarantees for its contactor and its pilot demand.

module EvccSafety {
  import opened V2g
  import opened PhysicalValues
  import opened Timers
  import opened EvccSpec
  import opened EvccRuns

  // ---- The common transfer mode ----

  lemma {:induction false} NegotiateFromMeaning(wanted: TransferMode, offered: seq<TransferMode>, found: bool)
    ensures var dc := wanted == DC_core && DC_extended in offered;
            NegotiateFrom(wanted, offered, found) == (if dc then DC_extended else wanted, found || wanted in offered || dc)
    decreases |offered|
  {
    if offered != [] {
      NegotiateFromMeaning(wanted, offered[1..], found);
      NegotiateFromMeaning(wanted, offered[1..], true);
      NegotiateFromMeaning(DC_extended, offered[1..], true);
      assert offered == [offered[0]] + offered[1..];
    }
  }

  /** The loop finds the wanted mode wherever it stands in the offer, and trades DC_core for DC_extended
      whenever that is offered. */
  lemma NegotiateMeaning(wanted: TransferMode, offered: seq<TransferMode>)
    ensures var dc := wanted == DC_core && DC_extended in offered;
            Negotiate(wanted, offered) == (if dc then DC_extended else wanted, wanted in offered || dc)
  {
    NegotiateFromMeaning(wanted, offered, false);
  }

  // ---- One call ----

  /** No message survives a call, expected or not. */
  lemma SlotEmptied(s: Evcc, i: EvInput)
    ensures Next(s, i).received == Empty
  {
    if InSession(s.state) {
      SessionOperate(s, i);
    } else {
      OutsideSession(s, i);
    }
  }

  /** PreCharge ends in PowerDelivery exactly when a valid response carried a voltage less than 5 V away
      from the one measured at the socket, and the client is still connected. */
  lemma PreChargeEnds(s: Evcc, i: EvInput)
    requires s.state == AwaitPreCharge
    ensures Next(s, i).state == AwaitPowerDelivery <==>
              && i.client == Connected
              && s.received.PreChargeRes?
              && ResponseIsValid(s, s.received.code, s.received.id)
              && (if i.socketVoltage.Some? then Abs(s.info.memorizedVoltage - i.socketVoltage.value as real) < 5.0
                  else Abs(s.info.memorizedVoltage - Truncate16(s.info.memorizedVoltage) as real) < 5.0)
  {
    hide Operate;
    hide SendDue;
    hide Truncate16;
    SessionOperate(s, i);
    AskingKeeps(s, i);
  }

  lemma DecideKeepsContactor(s: Evcc, i: EvInput)
    requires InSession(s.state) && HasAnswer(s)
    ensures Decide(s, i).s.ev.contactor == s.ev.contactor && Decide(s, i).s.pilot == s.pilot
    ensures !PowerState(s.state) ==> Decide(s, i).s.ev == s.ev
  {
    hide Truncate16;
    hide Negotiate;
    hide ResponseIsValid;
  }

  lemma ActuateCases(s: Evcc, i: EvInput)
    ensures var t := EvccSpec.Asked(s, i);
            && t.ev == (if s.state == AwaitCurrentDemand && s.entered then s.ev.(contactor := true) else s.ev)
            && t.pilot == (if (s.state == AwaitCableCheck && SendDue(s, i)) || (s.state == AwaitPreCharge && s.entered)
                           then SetPilot(s.pilot, C_Ready) else s.pilot)
            && t.state == s.state
  {
    hide SendDue;
  }

  lemma DispatchActuators(s: Evcc, i: EvInput)
    ensures var d := Dispatch(s, i);
            && d.s.ev.contactor == (s.ev.contactor || (s.state == AwaitCurrentDemand && s.entered))
            && (!PowerState(s.state) ==> d.s.ev == s.ev)
            && d.s.pilot == if (s.state == AwaitCableCheck && SendDue(s, i)) || (s.state == AwaitPreCharge && s.entered)
                            then SetPilot(s.pilot, C_Ready) else s.pilot
  {
    hide Decide;
    hide SendDue;
    hide EvccSpec.Asked;
    hide AskedOutput;
    if InSession(s.state) {
      ActuateCases(s, i);
      if HasAnswer(EvccSpec.Asked(s, i)) {
        DecideKeepsContactor(EvccSpec.Asked(s, i), i);
      }
    }
  }

  /** The whole rule for the contactor: on when CurrentDemand is entered, off when a call starts outside
      the power states and the measured current is below I_OFF, unchanged otherwise. */
  lemma ContactorRule(s: Evcc, i: EvInput)
    ensures Next(s, i).ev.contactor ==
            if PowerState(s.state) then s.ev.contactor || (s.state == AwaitCurrentDemand && s.entered)
            else s.ev.contactor && !Idle(ReadCurrent(s, i))
  {
    hide Dispatch;
    hide Idle;
    DispatchActuators(s, i);
  }

  /** The whole rule for the pilot demand. A call that starts outside the power states never leaves it at
      C or D. */
  lemma PilotRule(s: Evcc, i: EvInput)
    ensures var p := Next(s, i).pilot;
            && (!PowerState(s.state) ==> !(p.Some? && PilotReady(p.value)))
            && (PowerState(s.state) && p != s.pilot ==> p == Some(C_Ready) && (s.state == AwaitCableCheck || s.state == AwaitPreCharge))
  {
    hide Dispatch;
    hide Idle;
    hide SendDue;
    DispatchActuators(s, i);
  }

  // ---- Runs ----

  /** The states up to the choice between the direct current and the three-phase way. */
  predicate BeforeChoice(state: EvState) {
    || state == AwaitSdp || state == AwaitAppProtocol || state == AwaitSessionSetup || state == AwaitServiceDiscovery
    || state == AwaitPaymentServiceSelection || state == AwaitAuthorization || state == AwaitChargeParameterDiscovery
  }

  /** Nothing chosen, nothing compared. */
  predicate Fresh(log: seq<Entry>) {
    Chosen(false) !in log && Chosen(true) !in log && Matched !in log
  }

  /** On the way through CableCheck and PreCharge. */
  predicate Direct(log: seq<Entry>) {
    Chosen(false) in log && Chosen(true) !in log && Matched !in log
  }

  /** Through PreCharge, with its voltages compared. */
  predicate Passed(log: seq<Entry>) {
    Chosen(false) in log && Chosen(true) !in log && Matched in log
  }

  /** On the three-phase way, which compares no voltages. */
  predicate Skipped(log: seq<Entry>) {
    Chosen(false) !in log && Chosen(true) in log && Matched !in log
  }

  predicate Inv(h: History) {
    && (BeforeChoice(h.s.state) ==> Fresh(h.log))
    && (h.s.state == AwaitCableCheck || h.s.state == AwaitPreCharge ==> Direct(h.log))
    && (h.s.state == AwaitPowerDelivery || h.s.state == AwaitChargingStatus ==>
          Passed(h.log) || (Skipped(h.log) && (ThreePhase(h.s) || Changed in h.log)))
    && (h.s.state == AwaitCurrentDemand ==> Passed(h.log) || (Skipped(h.log) && Changed in h.log))
  }

  /** Where a session state can lead, and with which transfer mode. */
  lemma Successors(s: Evcc, i: EvInput)
    requires InSession(s.state)
    ensures var t := Next(s, i);
            var threePhase := s.info.transferMode == AC_three_phase_core;
            && (s.state != AwaitServiceDiscovery ==> t.info.transferMode == s.info.transferMode)
            && (BeforeChoice(t.state) ==> BeforeChoice(s.state) && (s.state == AwaitChargeParameterDiscovery ==> t.state == s.state))
            && (t.state == AwaitCableCheck ==> s.state == AwaitCableCheck || (s.state == AwaitChargeParameterDiscovery && !threePhase))
            && (t.state == AwaitPreCharge ==> s.state == AwaitPreCharge || s.state == AwaitCableCheck)
            && (t.state == AwaitPowerDelivery ==>
                  s.state == AwaitPowerDelivery || s.state == AwaitPreCharge || s.state == AwaitCurrentDemand
                  || s.state == AwaitChargingStatus || (s.state == AwaitChargeParameterDiscovery && threePhase))
            && (t.state == AwaitChargingStatus ==> s.state == AwaitChargingStatus || (s.state == AwaitPowerDelivery && threePhase))
            && (t.state == AwaitCurrentDemand ==> s.state == AwaitCurrentDemand || (s.state == AwaitPowerDelivery && !threePhase))
            && (s.state == AwaitServiceDiscovery ==>
                  t.state == AwaitServiceDiscovery || t.state == AwaitPaymentServiceSelection || t.state == EvFailure)
  {
    hide Operate;
    hide MeetsVoltage;
    hide MayStop;
    hide ResponseIsValid;
    hide Negotiate;
    hide EvccSpec.Asked;
    hide AskedOutput;
    hide Truncate16;
    SessionOperate(s, i);
    AskingKeeps(s, i);
  }

  /** The response to ChargeParameterDiscovery takes the vehicle on. */
  predicate Chooses(s: Evcc, i: EvInput) {
    s.state == AwaitChargeParameterDiscovery && Next(s, i).state != s.state && Next(s, i).state != EvFailure
  }

  /** What a call within a session adds to the marks of the log. */
  lemma MarksAdded(h: History, i: EvInput)
    requires h.s.state != EvIdle
    ensures var log := Step(h, Cycle(i)).log;
            && (Matched in log <==> Matched in h.log || (h.s.state == AwaitPreCharge && Next(h.s, i).state == AwaitPowerDelivery))
            && (Changed in log <==> Changed in h.log)
            && (Chosen(true) in log <==> Chosen(true) in h.log || (Chooses(h.s, i) && ThreePhase(h.s)))
            && (Chosen(false) in log <==> Chosen(false) in h.log || (Chooses(h.s, i) && !ThreePhase(h.s)))
  {
    hide Operate;
    hide HasAnswer;
    hide KindOf;
    hide InSession;
  }

  lemma CycleKeepsInv(h: History, i: EvInput)
    requires Inv(h) && InSession(h.s.state)
    ensures Inv(Step(h, Cycle(i)))
  {
    hide Operate;
    MarksAdded(h, i);
    assert Step(h, Cycle(i)).s == Next(h.s, i);
    hide Step;
    Successors(h.s, i);
  }

  lemma OutsideKeepsInv(h: History, i: EvInput)
    requires Inv(h) && !InSession(h.s.state)
    ensures Inv(Step(h, Cycle(i)))
  {
    hide Operate;
    OutsideSession(h.s, i);
    NoEntries(h.s, i, h.log);
    hide AskedEntry;
    hide ConsumedEntry;
    hide NotedEntry;
    hide Passed;
    hide Skipped;
    hide Direct;
  }

  lemma SetModeKeepsInv(h: History, mode: TransferMode)
    requires Inv(h)
    ensures Inv(Step(h, SetMode(mode)))
  {
  }

  lemma StepKeepsInv(h: History, e: Event)
    requires Inv(h)
    ensures Inv(Step(h, e))
  {
    hide Operate;
    hide Fresh;
    hide Direct;
    hide Passed;
    hide Skipped;
    match e
    case Frame(m) => FrameKeeps(h.s, m);
    case SetMode(mode) => SetModeKeepsInv(h, mode);
    case Cycle(i) =>
      if InSession(h.s.state) {
        CycleKeepsInv(h, i);
      } else {
        OutsideKeepsInv(h, i);
      }
  }

  lemma DemandFacts(h: History)
    requires Inv(h) && h.s.state == AwaitCurrentDemand
    ensures Matched in h.log <==> Chosen(false) in h.log
    ensures Chosen(true) in h.log <==> Chosen(false) !in h.log
    ensures Chosen(true) in h.log ==> Changed in h.log
  {
  }

  lemma {:induction false} RunKeepsInv(s: Evcc, es: seq<Event>)
    requires s.state == EvIdle
    ensures Inv(Run(s, es))
  {
    assert Inv(History(s, []));
    hide Step;
    hide Inv;
    if es != [] {
      RunKeepsInv(s, es[..|es| - 1]);
      StepKeepsInv(Run(s, es[..|es| - 1]), es[|es| - 1]);
    }
  }

  lemma StepContactor(h: History, e: Event)
    ensures Step(h, e).s.ev.contactor && !h.s.ev.contactor ==> e.Cycle? && h.s.state == AwaitCurrentDemand && h.s.entered
    ensures h.s.ev.contactor && !Step(h, e).s.ev.contactor ==>
              e.Cycle? && !PowerState(h.s.state) && Idle(ReadCurrent(h.s, e.i))
  {
    hide Operate;
    match e
    case Frame(m) => FrameKeeps(h.s, m);
    case SetMode(_) =>
    case Cycle(i) => ContactorRule(h.s, i);
  }

  /** Whenever the contactor is closed after a run, it was closed by the call that entered CurrentDemand
      and has been closed ever since. The PreCharge voltages of that session had been compared if and
      only if it had gone past ChargeParameterDiscovery with another transfer mode than three-phase AC;
      and if it had not, three-phase AC has been put out of force since then. */
  lemma {:induction false} ContactorClosedAfterCheck(s: Evcc, es: seq<Event>) returns (k: nat)
    requires s.state == EvIdle && !s.ev.contactor && Run(s, es).s.ev.contactor
    ensures k < |es| && es[k].Cycle?
    ensures var h := Run(s, es[..k]);
            && h.s.state == AwaitCurrentDemand && h.s.entered && !h.s.ev.contactor
            && (Matched in h.log <==> Chosen(false) in h.log)
            && (Chosen(true) in h.log <==> Chosen(false) !in h.log)
            && (Chosen(true) in h.log ==> Changed in h.log)
    ensures forall j :: k < j <= |es| ==> Run(s, es[..j]).s.ev.contactor
  {
    hide Step;
    hide Inv;
    assert es != [];
    var n := |es| - 1;
    var before := Run(s, es[..n]);
    StepContactor(before, es[n]);
    assert es[..|es|] == es;
    if before.s.ev.contactor {
      k := ContactorClosedAfterCheck(s, es[..n]);
      assert es[..n][..k] == es[..k];
      forall j | k < j <= |es|
        ensures Run(s, es[..j]).s.ev.contactor
      {
        if j <= n {
          assert es[..n][..j] == es[..j];
        }
      }
    } else {
      k := n;
      RunKeepsInv(s, es[..n]);
      DemandFacts(before);
    }
  }

  /** Once closed, the contactor is opened only by a call that starts outside the power states and
      measures less than I_OFF. */
  lemma {:induction false} ContactorOpensWithoutCurrent(s: Evcc, es: seq<Event>, k: nat) returns (n: nat)
    requires k <= |es| && Run(s, es[..k]).s.ev.contactor && !Run(s, es).s.ev.contactor
    ensures k <= n < |es| && es[n].Cycle?
    ensures var t := Run(s, es[..n]).s; t.ev.contactor && !PowerState(t.state) && Idle(ReadCurrent(t, es[n].i))
  {
    hide Step;
    assert es[..|es|] == es;
    n := |es| - 1;
    var before := Run(s, es[..n]);
    StepContactor(before, es[n]);
    if !before.s.ev.contactor {
      assert es[..n][..k] == es[..k];
      var m := ContactorOpensWithoutCurrent(s, es[..n], k);
      assert es[..n][..m] == es[..m];
      n := m;
    }
  }

  predicate Demands(p: Option<CpState>) {
    p.Some? && PilotReady(p.value)
  }

  lemma StepPilot(h: History, e: Event)
    ensures Demands(Step(h, e).s.pilot) ==> !e.Cycle? || PowerState(h.s.state)
    ensures Demands(Step(h, e).s.pilot) && !Demands(h.s.pilot) ==>
              e.Cycle? && (h.s.state == AwaitCableCheck || h.s.state == AwaitPreCharge)
  {
    hide Operate;
    match e
    case Frame(m) => FrameKeeps(h.s, m);
    case SetMode(_) =>
    case Cycle(i) => PilotRule(h.s, i);
  }

  /** Whenever the pilot demands energy after a run, CableCheck or PreCharge raised it, and every call
      since then started in a power state. */
  lemma {:induction false} PilotRaisedForPower(s: Evcc, es: seq<Event>) returns (k: nat)
    requires !Demands(s.pilot) && Demands(Run(s, es).s.pilot)
    ensures k < |es| && es[k].Cycle?
    ensures Run(s, es[..k]).s.state == AwaitCableCheck || Run(s, es[..k]).s.state == AwaitPreCharge
    ensures forall j :: k <= j < |es| && es[j].Cycle? ==> PowerState(Run(s, es[..j]).s.state)
  {
    hide Step;
    hide PilotReady;
    assert es != [];
    var n := |es| - 1;
    StepPilot(Run(s, es[..n]), es[n]);
    if Demands(Run(s, es[..n]).s.pilot) {
      k := PilotRaisedForPower(s, es[..n]);
      assert es[..n][..k] == es[..k];
      forall j | k <= j < |es| && es[j].Cycle?
        ensures PowerState(Run(s, es[..j]).s.state)
      {
        if j < n {
          assert es[..n][..j] == es[..j];
        }
      }
    } else {
      k := n;
    }
  }

  /** As long as the application neither puts three-phase AC in force nor takes it out of force, the voltages
      have always been compared. */
  lemma ContactorClosedAfterMatch(s: Evcc, es: seq<Event>) returns (k: nat)
    requires s.state == EvIdle && !s.ev.contactor && Run(s, es).s.ev.contactor
    ensures k < |es| && es[k].Cycle?
    ensures var h := Run(s, es[..k]);
            && h.s.state == AwaitCurrentDemand && h.s.entered && !h.s.ev.contactor
            && (Changed !in h.log ==> Matched in h.log)
    ensures forall j :: k < j <= |es| ==> Run(s, es[..j]).s.ev.contactor
  {
    hide Run;
    k := ContactorClosedAfterCheck(s, es);
  }

  // ---- Why the transfer mode matters ----

  lemma DeliveryAnswered(s: Evcc, i: EvInput)
    requires s.state == AwaitPowerDelivery && s.received.PowerDeliveryRes? && s.info.transferMode == DC_core
    requires ResponseIsValid(s, s.received.code, s.received.id) && i.enable && i.client == Connected
    ensures Next(s, i).state == AwaitCurrentDemand && Next(s, i).entered
  {
    hide Operate;
    hide SendDue;
    SessionOperate(s, i);
    AskingKeeps(s, i);
  }

  lemma NoMatch(s: Evcc, i: EvInput, log: seq<Entry>)
    requires s.state != AwaitPreCharge && Matched !in log
    ensures Matched !in log + AskedEntry(s, i) + ConsumedEntry(s) + NotedEntry(s, i)
  {
    hide Operate;
    hide HasAnswer;
  }

  /** If the application replaces three-phase AC by DC while the vehicle awaits PowerDelivery, the contactor
      closes without any comparison of voltages. */
  lemma ModeChangeSkipsCheck(h: History, i: EvInput)
    requires h.s.state == AwaitPowerDelivery && h.s.info.transferMode == AC_three_phase_core && Matched !in h.log
    requires i.enable && i.client == Connected
    ensures var asked := Step(Step(h, SetMode(DC_core)), Frame(PowerDeliveryRes(h.s.secc.sessionId, OK)));
            var n := Step(Step(asked, Cycle(i)), Cycle(i));
            n.s.ev.contactor && Matched !in n.log
  {
    hide Operate;
    hide AskedEntry;
    hide ConsumedEntry;
    hide NotedEntry;
    var asked := Step(Step(h, SetMode(DC_core)), Frame(PowerDeliveryRes(h.s.secc.sessionId, OK)));
    assert Matched !in asked.log;
    DeliveryAnswered(asked.s, i);
    NoMatch(asked.s, i, asked.log);
    var closing := Step(asked, Cycle(i));
    ContactorRule(closing.s, i);
    NoMatch(closing.s, i, closing.log);
  }
}
