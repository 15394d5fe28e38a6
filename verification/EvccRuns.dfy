// What every run of the vehicle keeps, whatever it receives and whenever it is called.

module EvccRuns {
  import opened V2g
  import opened PhysicalValues
  import opened Timers
  import opened EvccSpec

  /** SetMode is the application writing the public energy transfer mode. */
  datatype Event = Frame(m: Message) | Cycle(i: EvInput) | SetMode(mode: TransferMode)

  /** What a session has done so far: a request sent, a response consumed, the way chosen on the response
      to ChargeParameterDiscovery, the PreCharge voltage found to match, three-phase AC put in or out of
      force by the application. */
  datatype Entry = Asked(k: Kind) | Consumed(k: Kind) | Chosen(threePhase: bool) | Matched | Changed

  datatype History = History(s: Evcc, log: seq<Entry>)

  function Next(s: Evcc, i: EvInput): Evcc {
    Operate(s, i).0
  }

  function Output(s: Evcc, i: EvInput): EvOutput {
    Operate(s, i).1
  }

  /** The response a session state waits for is taken from the message slot by the next call. */
  predicate Consumes(s: Evcc) {
    InSession(s.state) && HasAnswer(s)
  }

  function AskedEntry(s: Evcc, i: EvInput): seq<Entry> {
    if Output(s, i).tcp != [] then [Entry.Asked(KindOf(Output(s, i).tcp[0]))] else []
  }

  function ConsumedEntry(s: Evcc): seq<Entry> {
    if Consumes(s) then [Consumed(KindOf(s.received))] else []
  }

  predicate ThreePhase(s: Evcc) {
    s.info.transferMode == AC_three_phase_core
  }

  /** A good response to ChargeParameterDiscovery is recorded with the transfer mode in force, the
      PreCharge voltage when it lets the vehicle go on. */
  function NotedEntry(s: Evcc, i: EvInput): seq<Entry> {
    var to := Next(s, i).state;
    if s.state == AwaitChargeParameterDiscovery && to != s.state && to != EvFailure then [Chosen(ThreePhase(s))]
    else if s.state == AwaitPreCharge && to == AwaitPowerDelivery then [Matched]
    else []
  }

  /** The log starts anew with every session. */
  function Step(h: History, e: Event): History {
    match e
    case Frame(m) => History(OnFrame(h.s, m), h.log)
    case SetMode(mode) =>
      var t := h.s.(info := h.s.info.(transferMode := mode));
      History(t, if InSession(h.s.state) && ThreePhase(t) != ThreePhase(h.s) then h.log + [Changed] else h.log)
    case Cycle(i) =>
      History(Next(h.s, i),
              if h.s.state == EvIdle then [] else h.log + AskedEntry(h.s, i) + ConsumedEntry(h.s) + NotedEntry(h.s, i))
  }

  function Run(s: Evcc, es: seq<Event>): History {
    if es == [] then History(s, []) else Step(Run(s, es[..|es| - 1]), es[|es| - 1])
  }

  // ---- One call ----

  /** A session state stays, moves on after its response, or fails. */
  lemma SessionOperate(s: Evcc, i: EvInput)
    requires InSession(s.state)
    ensures var t := Next(s, i);
            && t.received == Empty
            && (t.entered <==> t.state != s.state)
            && (i.client != Connected ==> t.state == EvFailure)
            && (i.client == Connected && !Consumes(s) ==> t.state == s.state)
            && (i.client == Connected && Consumes(s) ==> t.state == Decide(EvccSpec.Asked(s, i), i).next)
            && t.repeatTimer == SessionStep(s, i).s.repeatTimer && t.powerTimer == SessionStep(s, i).s.powerTimer
            && t.info == SessionStep(s, i).s.info
            && Output(s, i) == AskedOutput(s, i)
  {
    hide Decide;
    hide StopRepeat;
    hide Actuate;
    hide Request;
    hide SendDue;
    AskingKeeps(s, i);
  }

  lemma AskingKeeps(s: Evcc, i: EvInput)
    ensures var t := EvccSpec.Asked(s, i);
            && t.state == s.state && t.entered == s.entered && t.received == s.received && t.info == s.info && t.secc == s.secc
            && t.actualCurrent == s.actualCurrent
            && (InSession(s.state) ==> HasAnswer(t) == HasAnswer(s))
  {
    hide SendDue;
  }

  /** Outside a session nothing is asked on the TCP connection. */
  lemma OutsideSession(s: Evcc, i: EvInput)
    requires !InSession(s.state)
    ensures Output(s, i).tcp == []
    ensures Next(s, i).received == Empty && (Next(s, i).entered <==> Next(s, i).state != s.state)
    ensures InSession(Next(s, i).state) ==> s.state == AwaitSdp && Next(s, i).state == AwaitAppProtocol
    ensures Next(s, i).state == AwaitSdp ==> s.state == AwaitSdp || s.state == EvIdle
    ensures Next(s, i).info == s.info
  {
  }

  lemma AskingIgnoresRun(s: Evcc, i: EvInput, run: bool)
    requires InSession(s.state)
    ensures var k := i.(run := run);
            EvccSpec.Asked(s, k) == EvccSpec.Asked(s, i) && AskedOutput(s, k) == AskedOutput(s, i)
  {
    hide FromReal;
  }

  lemma DecidingIgnoresRun(s: Evcc, i: EvInput, run: bool)
    requires InSession(s.state) && HasAnswer(s)
    ensures Decide(s, i.(run := run)) == Decide(s, i)
  {
    hide Negotiate;
    hide ResponseIsValid;
    hide Truncate16;
  }

  /** Once the process is running, the parameter run has no function until it has finished or failed. */
  lemma RunHasNoFunction(s: Evcc, i: EvInput, run: bool)
    requires s.state != EvIdle && s.state != EvFinished && s.state != EvFailure
    ensures Operate(s, i.(run := run)) == Operate(s, i)
  {
    hide HasAnswer;
    hide Decide;
    hide EvccSpec.Asked;
    hide AskedOutput;
    if InSession(s.state) {
      AskingIgnoresRun(s, i, run);
      AskingKeeps(s, i);
      if HasAnswer(EvccSpec.Asked(s, i)) {
        DecidingIgnoresRun(EvccSpec.Asked(s, i), i, run);
      }
    }
  }

  /** The request has the type its state stands for. */
  lemma RequestKind(s: Evcc, i: EvInput)
    requires InSession(s.state)
    ensures KindOf(Request(s, i)) == Asks(s.state) && IsRequest(Request(s, i))
  {
    hide FromReal;
    hide DemandedCurrent;
  }

  lemma AnswerKind(s: Evcc)
    requires InSession(s.state)
    ensures HasAnswer(s) <==> KindOf(s.received) == Asks(s.state) && IsResponse(s.received)
  {
  }

  // ---- One request at a time ----

  predicate Settles(log: seq<Entry>, i: nat, m: nat)
    requires i < |log| && log[i].Asked?
  {
    && i < m < |log| && log[m] == Consumed(log[i].k)
    && forall j :: i < j < m ==> !log[j].Asked?
  }

  /** Every request has been answered before the next one, except that the last one may still be
      waiting, if it has the type p. */
  ghost predicate Owes(log: seq<Entry>, p: Option<Kind>) {
    forall i :: 0 <= i < |log| && log[i].Asked? ==>
                  || (exists m :: Settles(log, i, m))
                  || (p == Some(log[i].k) && forall j :: i < j < |log| ==> !log[j].Asked?)
  }

  lemma OwesAppend(log: seq<Entry>, p: Option<Kind>, e: Entry)
    requires Owes(log, p)
    requires e.Asked? ==> p == None
    ensures Owes(log + [e], if e.Asked? then Some(e.k) else if e.Consumed? && p == Some(e.k) then None else p)
  {
    var longer := log + [e];
    forall i | 0 <= i < |log| && log[i].Asked?
      ensures (exists m :: Settles(longer, i, m))
              || (p == Some(log[i].k) && !e.Asked? && e != Consumed(log[i].k) && forall j :: i < j < |longer| ==> !longer[j].Asked?)
    {
      if m :| Settles(log, i, m) {
        assert Settles(longer, i, m);
      } else if e == Consumed(log[i].k) {
        assert Settles(longer, i, |log|);
      }
    }
  }

  /** The timer that makes a state ask again is running. */
  predicate WillRepeat(s: Evcc) {
    RepeatTimer(s).Some? && RepeatTimer(s).value.Active()
  }

  /** What holds between any two events: the timer that makes a state ask again runs only while no
      request is open, and so does nothing else that can make it ask. */
  ghost predicate Inv(h: History) {
    && (h.s.state == AwaitSdp ==> h.log == [])
    && (InSession(h.s.state) ==> Owes(h.log, if h.s.entered || WillRepeat(h.s) then None else Some(Asks(h.s.state))))
    && Orderly(h.log)
  }

  ghost predicate Orderly(log: seq<Entry>) {
    exists p :: Owes(log, p)
  }

  lemma OwesNothing(log: seq<Entry>, p: Option<Kind>)
    requires Owes(log, None)
    ensures Owes(log, p)
  {
  }

  /** The asking half of a call. */
  lemma AskingOwes(s: Evcc, i: EvInput, log: seq<Entry>)
    requires InSession(s.state)
    requires Owes(log, if s.entered || WillRepeat(s) then None else Some(Asks(s.state)))
    ensures Owes(log + AskedEntry(s, i), Some(Asks(s.state)))
    ensures !SendDue(s, i) && WillRepeat(s) ==> Owes(log + AskedEntry(s, i), None)
    ensures SendDue(s, i) ==> !WillRepeat(EvccSpec.Asked(s, i))
  {
    hide Owes;
    hide Asks;
    hide Operate;
    SessionOperate(s, i);
    RequestKind(Actuate(s, i), i);
    ActuateKeeps(s, i);
    if SendDue(s, i) {
      OwesAppend(log, None, Entry.Asked(Asks(s.state)));
    } else {
      assert log + [] == log;
      if s.entered || WillRepeat(s) {
        OwesNothing(log, Some(Asks(s.state)));
      }
    }
  }

  lemma ActuateKeeps(s: Evcc, i: EvInput)
    ensures Actuate(s, i).state == s.state && Actuate(s, i).repeatTimer == s.repeatTimer && Actuate(s, i).powerTimer == s.powerTimer
  {
    hide SendDue;
  }

  lemma CycleOwes(s: Evcc, i: EvInput, log: seq<Entry>)
    requires InSession(s.state)
    requires Owes(log, if s.entered || WillRepeat(s) then None else Some(Asks(s.state)))
    ensures var t := Next(s, i);
            var longer := log + AskedEntry(s, i) + ConsumedEntry(s) + NotedEntry(s, i);
            && (InSession(t.state) ==> Owes(longer, if t.entered || WillRepeat(t) then None else Some(Asks(t.state))))
            && Orderly(longer)
  {
    hide Owes;
    hide Asks;
    hide Operate;
    hide Decide;
    hide HasAnswer;
    hide KindOf;
    hide AskedEntry;
    hide NotedEntry;
    AskingOwes(s, i, log);
    SessionOperate(s, i);
    var mid := log + AskedEntry(s, i);
    if Consumes(s) {
      AnswerKind(s);
      OwesAppend(mid, Some(Asks(s.state)), Consumed(Asks(s.state)));
      AppendNoted(mid + ConsumedEntry(s), None, s, i);
      forall p ensures Owes(mid + ConsumedEntry(s) + NotedEntry(s, i), p) {
        OwesNothing(mid + ConsumedEntry(s) + NotedEntry(s, i), p);
      }
      assert Owes(mid + ConsumedEntry(s) + NotedEntry(s, i), None);
    } else {
      assert mid + [] == mid;
      var p := if !SendDue(s, i) && WillRepeat(s) then None else Some(Asks(s.state));
      AppendNoted(mid, p, s, i);
      Waiting(s, i);
    }
  }

  lemma AppendNoted(log: seq<Entry>, p: Option<Kind>, s: Evcc, i: EvInput)
    requires Owes(log, p)
    ensures Owes(log + NotedEntry(s, i), p)
  {
    hide Owes;
    hide Operate;
    if NotedEntry(s, i) == [] {
      assert log + [] == log;
    } else {
      OwesAppend(log, p, NotedEntry(s, i)[0]);
    }
  }

  /** A call without a response to consume keeps waiting as it did after asking. */
  lemma Waiting(s: Evcc, i: EvInput)
    requires InSession(s.state) && !Consumes(s)
    ensures var t := Next(s, i);
            InSession(t.state) ==> t.state == s.state && !t.entered && WillRepeat(t) == WillRepeat(EvccSpec.Asked(s, i))
    ensures !SendDue(s, i) ==> !s.entered && WillRepeat(EvccSpec.Asked(s, i)) == WillRepeat(s)
  {
    hide Operate;
    hide HasAnswer;
    hide StopRepeat;
    SessionOperate(s, i);
    AskingKeeps(s, i);
    ActuateKeeps(s, i);
  }

  lemma StepKeepsInv(h: History, e: Event)
    requires Inv(h)
    ensures Inv(Step(h, e))
  {
    hide Owes;
    hide Operate;
    hide Asks;
    hide AskedEntry;
    hide ConsumedEntry;
    hide NotedEntry;
    match e
    case Frame(m) => FrameKeeps(h.s, m);
    case SetMode(_) =>
      if InSession(h.s.state) {
        OwesAppend(h.log, if h.s.entered || WillRepeat(h.s) then None else Some(Asks(h.s.state)), Changed);
      }
    case Cycle(i) =>
      if InSession(h.s.state) {
        SessionOperate(h.s, i);
        CycleOwes(h.s, i, h.log);
      } else {
        OutsideSession(h.s, i);
        NoEntries(h.s, i, h.log);
        EmptyLog();
      }
  }

  lemma EmptyLog()
    ensures Owes([], None) && Orderly([])
  {
    assert Owes([], None);
  }

  lemma NoEntries(s: Evcc, i: EvInput, log: seq<Entry>)
    requires !InSession(s.state)
    ensures log + AskedEntry(s, i) + ConsumedEntry(s) + NotedEntry(s, i) == log
  {
    hide Operate;
    OutsideSession(s, i);
  }

  lemma FrameKeeps(s: Evcc, m: Message)
    ensures var t := OnFrame(s, m);
            && t.state == s.state && t.entered == s.entered && t.repeatTimer == s.repeatTimer && t.powerTimer == s.powerTimer
            && t.info.transferMode == s.info.transferMode && t.ev == s.ev && t.pilot == s.pilot
  {
    hide ToReal;
  }

  lemma {:induction false} RunKeepsInv(mode: TransferMode, pilot: Option<CpState>, now: nat, es: seq<Event>)
    ensures Inv(Run(EvccSpec.Initial(mode, pilot, now), es))
  {
    hide Step;
    if es == [] {
      EmptyLog();
    } else {
      RunKeepsInv(mode, pilot, now, es[..|es| - 1]);
      StepKeepsInv(Run(EvccSpec.Initial(mode, pilot, now), es[..|es| - 1]), es[|es| - 1]);
    }
  }

  /** No request follows another before a response to the first one. */
  ghost predicate Alternates(log: seq<Entry>) {
    forall i, j :: 0 <= i < j < |log| && log[i].Asked? && log[j].Asked? ==> exists m :: i < m < j && log[m] == Consumed(log[i].k)
  }

  ghost predicate AllAnswered(log: seq<Entry>) {
    forall i :: 0 <= i < |log| && log[i].Asked? ==> exists m :: i < m < |log| && log[m] == Consumed(log[i].k)
  }

  lemma OwesAlternates(log: seq<Entry>, p: Option<Kind>)
    requires Owes(log, p)
    ensures Alternates(log) && (p == None ==> AllAnswered(log))
  {
    forall i, j | 0 <= i < j < |log| && log[i].Asked? && log[j].Asked?
      ensures exists m :: i < m < j && log[m] == Consumed(log[i].k)
    {
      assert !(forall n :: i < n < |log| ==> !log[n].Asked?);
      var m: nat :| Settles(log, i, m);
      assert i < m < j;
    }
    if p == None {
      forall i | 0 <= i < |log| && log[i].Asked?
        ensures exists m :: i < m < |log| && log[m] == Consumed(log[i].k)
      {
        var m :| Settles(log, i, m);
      }
    }
  }

  /** Whatever the other side sends: between two requests of a session a response to the first one was
      consumed, and while the repeat timer of a state runs every request has been answered. */
  lemma OneRequestAtATime(mode: TransferMode, pilot: Option<CpState>, now: nat, es: seq<Event>)
    ensures var h := Run(EvccSpec.Initial(mode, pilot, now), es);
            && Alternates(h.log)
            && (InSession(h.s.state) && WillRepeat(h.s) ==> AllAnswered(h.log))
  {
    hide Run;
    hide Owes;
    hide Alternates;
    hide AllAnswered;
    RunKeepsInv(mode, pilot, now, es);
    var h := Run(EvccSpec.Initial(mode, pilot, now), es);
    var p :| Owes(h.log, p);
    OwesAlternates(h.log, p);
    if InSession(h.s.state) && WillRepeat(h.s) {
      OwesAlternates(h.log, None);
    }
  }
}
