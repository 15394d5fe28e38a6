// What every run of the charger keeps, for any sequence of frames, disconnections and operate calls.

module SeccRuns {
  import opened V2g
  import opened PhysicalValues
  import opened ByteArrays
  import opened Words
  import opened SeccSpec

  datatype Event = Frame(m: Message) | Disconnect | Cycle(i: SeInput)

  function Step(s: Secc, e: Event): Secc {
    match e
    case Frame(m) => OnFrame(s, m)
    case Disconnect => OnDisconnect(s)
    case Cycle(i) => Operate(s, i).s
  }

  function Run(s: Secc, es: seq<Event>): Secc {
    if es == [] then s else Step(Run(s, es[..|es| - 1]), es[|es| - 1])
  }

  /** Between two operate calls only the idle and the failure state can still be waiting to be entered. */
  predicate Settled(s: Secc) {
    s.entered ==> s.state == SeIdle || s.state == SeFailure
  }

  // ---- One pass ----

  /** An answering state that has been entered before only looks at the unread message. */
  lemma PassWithoutEntry(s: Secc, i: SeInput)
    requires IsAnswering(s.state) && !s.entered
    ensures var p := OnePass(s, i);
            var route := Route(s.state, KindOf(s.received));
            && p.sent == [] && !p.result
            && (s.hasClient || MayRunUnconnected(s.state) ==>
                  p.s == if route.Some? then s.(state := route.value, entered := true)
                         else if s.state == AnsweredSessionStop && !s.hasClient
                         then s.(state := SeFinished, entered := true, received := p.s.received)
                         else s.(received := Empty))
            && (!s.hasClient && !MayRunUnconnected(s.state) ==>
                  p.s == s.(state := SeFailure, entered := true, received := p.s.received))
  {
  }

  /** An answering state that has just been entered answers and stays, unless its answer is a refusal,
      or the connection is gone. */
  lemma PassWithEntry(s: Secc, i: SeInput)
    requires IsAnswering(s.state) && s.entered && s.received == Empty
    ensures var p := OnePass(s, i);
            var a := Answer(s, i);
            && p.sent == a.sent && !p.result
            && p.s.received == Empty
            && p.s == a.s.(state := p.s.state, entered := p.s.state != s.state)
            && (s.hasClient || s.state == AnsweredSdp ==>
                  p.s.state == if s.state == AnsweredAppProtocol && s.vehicle.schemaId == NO_SCHEMA then SeFailure else s.state)
            && (!s.hasClient && !MayRunUnconnected(s.state) ==> p.s.state == SeFailure)
            && (!s.hasClient && s.state == AnsweredSessionStop ==> p.s.state == SeFinished)
  {
    assert Route(s.state, KindOf(Empty)) == None;
  }

  /** Where the four states without a dialogue go. */
  function NextOutside(s: Secc, i: SeInput): SeState
    requires !IsAnswering(s.state)
  {
    match s.state
    case SeIdle => if i.run then SeAwaitSdp else SeIdle
    case SeAwaitSdp => if s.received.SdpReq? then AnsweredSdp else SeAwaitSdp
    case _ => if i.run then s.state else SeIdle
  }

  lemma PassOutsideDialogue(s: Secc, i: SeInput)
    requires !IsAnswering(s.state)
    ensures var p := OnePass(s, i);
            && p.sent == (if s.received.V2s? && s.state == SeAwaitSdp then [Udp(V2s)] else [])
            && p.result == (s.state == SeFailure || s.state == SeFinished)
            && p.s.state == NextOutside(s, i)
            && (p.s.entered <==> p.s.state != s.state)
            && p.s.hasClient == (s.hasClient && !(s.state == SeIdle && i.run) && !(s.state == SeFailure && s.entered))
            && p.s == s.(state := p.s.state, entered := p.s.entered, received := p.s.received, hasClient := p.s.hasClient)
            && (p.s.received == Empty || (p.s.entered && p.s.received == s.received))
  {
  }

  // ---- Both passes ----

  /** The second pass ends settled, with nothing unread. */
  lemma SecondPassSettles(s: Secc, i: SeInput)
    requires s.entered && s.received == Empty
    requires s.state == SeIdle ==> !i.run
    requires s.state == AnsweredSessionStop ==> s.hasClient
    ensures Settled(OnePass(s, i).s) && OnePass(s, i).s.received == Empty
  {
    hide OnePass;
    if IsAnswering(s.state) {
      PassWithEntry(s, i);
    } else {
      PassOutsideDialogue(s, i);
    }
  }

  lemma FirstPassEnters(s: Secc, i: SeInput)
    requires Settled(s)
    ensures var p := OnePass(s, i);
            && (p.s.entered && p.s.state == SeIdle ==> !i.run)
            && (p.s.entered && p.s.state == AnsweredSessionStop ==> p.s.hasClient)
            && (!p.s.entered ==> p.s.received == Empty)
  {
    hide OnePass;
    if IsAnswering(s.state) {
      PassWithoutEntry(s, i);
    } else {
      PassOutsideDialogue(s, i);
    }
  }

  lemma OperateSettles(s: Secc, i: SeInput)
    requires Settled(s)
    ensures Settled(Operate(s, i).s) && Operate(s, i).s.received == Empty
  {
    hide OnePass;
    var t := SwitchOff(s);
    FirstPassEnters(t, i);
    var first := OnePass(t, i);
    if first.s.entered {
      SecondPassSettles(first.s.(received := Empty), i);
    }
  }

  // ---- Run to completion ----

  /** The state in which the second pass of a call starts that accepts a request leading to t. */
  function EnteredWith(s: Secc, t: SeState): Secc {
    SwitchOff(s).(state := t, entered := true, received := Empty)
  }

  /** A client is there, or none is needed to get to t. */
  predicate Reachable(s: Secc, t: SeState) {
    s.hasClient || t == AnsweredSdp
  }

  predicate Refuses(s: Secc, t: SeState) {
    t == AnsweredAppProtocol && s.vehicle.schemaId == NO_SCHEMA
  }

  /** The tail of operate behind the loop. */
  function Tail(s: Secc, i: SeInput): Secc {
    Accept(ControlContactor(s, i), i)
  }

  lemma RouteFacts(state: SeState, k: Kind, t: SeState)
    requires Route(state, k) == Some(t)
    ensures IsAnswering(t) && k != KEmpty
    ensures state == SeAwaitSdp <==> t == AnsweredSdp
    ensures state == SeAwaitSdp ==> k == KSdp
    ensures IsAnswering(state) || state == SeAwaitSdp
  {
  }

  lemma SdpRequest(m: Message)
    requires IsRequest(m) && KindOf(m) == KSdp
    ensures m.SdpReq?
  {
  }

  /** A call that finds an expected request answers it and ends in the state it leads to. */
  lemma OperateOnRequest(s: Secc, i: SeInput, t: SeState)
    requires Settled(s) && IsRequest(s.received)
    requires Route(s.state, KindOf(s.received)) == Some(t) && Reachable(s, t)
    ensures IsAnswering(t)
    ensures var a := Answer(EnteredWith(s, t), i);
            var end := if Refuses(s, t) then SeFailure else t;
            Operate(s, i) == Pass(Tail(a.s.(state := end, entered := end != t), i), a.sent, false)
  {
    hide OnePass;
    hide Answer;
    hide Accept;
    hide ControlContactor;
    hide Route;
    hide KindOf;
    hide IsRequest;
    RouteFacts(s.state, KindOf(s.received), t);
    var u := SwitchOff(s);
    if s.state == SeAwaitSdp {
      SdpRequest(s.received);
      PassOutsideDialogue(u, i);
    } else {
      PassWithoutEntry(u, i);
    }
    var first := OnePass(u, i);
    assert first.s.(received := Empty) == EnteredWith(s, t);
    PassWithEntry(EnteredWith(s, t), i);
    assert [] + Answer(EnteredWith(s, t), i).sent == Answer(EnteredWith(s, t), i).sent;
  }

  /** The message type a state answers. */
  function Answers(state: SeState): Kind
    requires IsAnswering(state)
  {
    match state
    case AnsweredSdp => KSdp
    case AnsweredAppProtocol => KAppProtocol
    case AnsweredSessionSetup => KSessionSetup
    case AnsweredServiceDiscovery => KServiceDiscovery
    case AnsweredServiceDetail => KServiceDetail
    case AnsweredPaymentServiceSelection => KPaymentServiceSelection
    case AnsweredAuthorization => KAuthorization
    case AnsweredChargeParameterDiscovery => KChargeParameterDiscovery
    case AnsweredPowerDelivery => KPowerDelivery
    case AnsweredChargingStatus => KChargingStatus
    case AnsweredSessionStop => KSessionStop
    case AnsweredCableCheck => KCableCheck
    case AnsweredPreCharge => KPreCharge
    case AnsweredCurrentDemand => KCurrentDemand
    case AnsweredWeldingDetection => KWeldingDetection
  }

  lemma RouteLeadsToAnswer(state: SeState, k: Kind, t: SeState)
    requires Route(state, k) == Some(t) && IsAnswering(t)
    ensures Answers(t) == k
  {
  }

  lemma ResponseFacts(before: Secc, s: Secc, i: SeInput)
    requires IsAnswering(s.state)
    ensures var m := Response(before, s, i);
            && KindOf(m) == Answers(s.state) && IsResponse(m)
            && (HeaderId(m).Some? ==> HeaderId(m).value == s.info.sessionId)
  {
    hide FromReal;
    hide ReadSource;
  }

  lemma AnswerFacts(s: Secc, i: SeInput)
    requires IsAnswering(s.state)
    ensures var t := Prepare(s).(source := Command(s, i));
            Answer(s, i) == Answered(t.(received := Empty), Transmit(s.hasClient, Response(s, t, i)))
  {
    hide Response;
    hide Command;
    hide NextId;
  }

  /** Every expected request gets exactly one response, of its own type, within the call that finds it. */
  lemma RunToCompletion(s: Secc, i: SeInput, t: SeState)
    requires Settled(s) && IsRequest(s.received)
    requires Route(s.state, KindOf(s.received)) == Some(t) && Reachable(s, t)
    ensures var p := Operate(s, i);
            && p.s.state == (if Refuses(s, t) then SeFailure else t)
            && p.s.received == Empty
            && exists m :: && p.sent == Transmit(s.hasClient, m) && KindOf(m) == KindOf(s.received) && IsResponse(m)
                           && (HeaderId(m).Some? ==> HeaderId(m).value == p.s.info.sessionId)
  {
    hide Operate;
    hide Answer;
    hide Route;
    hide Response;
    hide Command;
    hide NextId;
    hide KindOf;
    hide IsRequest;
    hide HeaderId;
    OperateOnRequest(s, i, t);
    RouteLeadsToAnswer(s.state, KindOf(s.received), t);
    var e := EnteredWith(s, t);
    AnswerFacts(e, i);
    ResponseFacts(e, Prepare(e).(source := Command(e, i)), i);
  }

  /** A call without an expected request sends nothing, except that it echoes a V2S frame while it waits
      for a vehicle. */
  lemma NothingToAnswer(s: Secc, i: SeInput)
    requires Settled(s)
    requires Route(s.state, KindOf(s.received)) == None
    ensures Operate(s, i).sent == if s.state == SeAwaitSdp && s.received.V2s? then [Udp(V2s)] else []
  {
    hide OnePass;
    var u := SwitchOff(s);
    if IsAnswering(s.state) {
      PassWithoutEntry(u, i);
    } else {
      PassOutsideDialogue(u, i);
    }
    var first := OnePass(u, i);
    if first.s.entered {
      PassOutsideDialogue(first.s.(received := Empty), i);
    }
  }

  /** Without the client it needs, an expected request goes unanswered. */
  lemma UnreachableRequest(s: Secc, i: SeInput, t: SeState)
    requires Settled(s) && IsRequest(s.received)
    requires Route(s.state, KindOf(s.received)) == Some(t) && !Reachable(s, t)
    ensures Operate(s, i).sent == []
  {
    hide OnePass;
    hide Answer;
    hide Route;
    hide KindOf;
    hide IsRequest;
    RouteFacts(s.state, KindOf(s.received), t);
    var u := SwitchOff(s);
    PassWithoutEntry(u, i);
    var first := OnePass(u, i);
    if IsAnswering(first.s.state) {
      PassWithEntry(first.s.(received := Empty), i);
      AnswerFacts(first.s.(received := Empty), i);
      ResponseFacts(first.s, first.s, i);
      NoSdpWithoutState(first.s.(received := Empty), i);
    } else {
      PassOutsideDialogue(first.s.(received := Empty), i);
    }
  }

  lemma NoSdpWithoutState(s: Secc, i: SeInput)
    requires IsAnswering(s.state) && s.state != AnsweredSdp && !s.hasClient
    ensures Answer(s, i).sent == []
  {
    hide FromReal;
    hide ReadSource;
    hide NextId;
    hide Command;
  }

  /** A frame that onFrameReceive lets through. */
  predicate Admitted(m: Message) {
    IsRequest(m) || m.V2s? || m == Empty
  }

  /** No call sends more than one response. */
  lemma AtMostOneResponse(s: Secc, i: SeInput)
    requires Settled(s) && Admitted(s.received)
    ensures Operate(s, i).sent == [] || exists m :: Operate(s, i).sent == Transmit(s.hasClient, m)
  {
    hide Operate;
    hide Route;
    hide KindOf;
    hide IsRequest;
    var route := Route(s.state, KindOf(s.received));
    if route == None {
      NothingToAnswer(s, i);
      assert Transmit(s.hasClient, V2s) == [Udp(V2s)];
    } else {
      OnlyRequestsAreRouted(s.state, s.received);
      if Reachable(s, route.value) {
        RunToCompletion(s, i, route.value);
      } else {
        UnreachableRequest(s, i, route.value);
      }
    }
  }

  lemma OnlyRequestsAreRouted(state: SeState, m: Message)
    requires Admitted(m) && Route(state, KindOf(m)) != None
    ensures IsRequest(m)
  {
  }

  // ---- The power source ----

  /** If the source is enabled when a call ends, the call began or ended in one of the power states, and
      the command in force is an old one left alone in a power state or was issued by this call with the
      pilot's consent. A call that neither begins nor ends in a power state therefore switches it off. */
  lemma SourceEnabledOnlyForPower(s: Secc, i: SeInput)
    requires Settled(s) && Admitted(s.received)
    ensures var p := Operate(s, i);
            p.s.source.enable ==>
              && (PowerState(s.state) || PowerState(p.s.state))
              && ((p.s.source == s.source && PowerState(s.state)) || PilotAllows(i))
  {
    hide Operate;
    hide Route;
    hide KindOf;
    hide IsRequest;
    var route := Route(s.state, KindOf(s.received));
    if route != None {
      OnlyRequestsAreRouted(s.state, s.received);
      if Reachable(s, route.value) {
        AnsweredSource(s, i, route.value);
        return;
      }
    }
    Unanswered(s, i);
  }

  lemma AnsweredSource(s: Secc, i: SeInput, t: SeState)
    requires Settled(s) && IsRequest(s.received)
    requires Route(s.state, KindOf(s.received)) == Some(t) && Reachable(s, t)
    ensures var p := Operate(s, i);
            && (t == AnsweredPreCharge || t == AnsweredCurrentDemand ==> p.s.state == t && (p.s.source.enable ==> PilotAllows(i)))
            && (t == AnsweredWeldingDetection ==> p.s.source == SOURCE_OFF)
            && (t != AnsweredPreCharge && t != AnsweredCurrentDemand && t != AnsweredWeldingDetection ==>
                  p.s.source == SwitchOff(s).source)
  {
    hide Operate;
    hide Answer;
    hide Route;
    hide KindOf;
    hide IsRequest;
    hide ToReal;
    hide NextId;
    hide Response;
    OperateOnRequest(s, i, t);
    AnswerFacts(EnteredWith(s, t), i);
  }

  /** Without an answer the first pass can only enter a state outside the dialogue, or the handshake
      state when no client is there. */
  lemma FirstPassUnanswered(s: Secc, i: SeInput)
    requires Settled(s) && Admitted(s.received)
    requires var route := Route(s.state, KindOf(s.received)); route == None || !Reachable(s, route.value)
    ensures var p := OnePass(s, i);
            && p.s.source == s.source && p.s.info == s.info
            && (p.s.entered && IsAnswering(p.s.state) ==> p.s.state == AnsweredAppProtocol)
  {
    hide OnePass;
    hide KindOf;
    if IsAnswering(s.state) {
      PassWithoutEntry(s, i);
    } else {
      NoSdpRequest(s);
      PassOutsideDialogue(s, i);
    }
  }

  lemma NoSdpRequest(s: Secc)
    requires !IsAnswering(s.state)
    requires var route := Route(s.state, KindOf(s.received)); route == None || !Reachable(s, route.value)
    ensures s.state == SeAwaitSdp ==> !s.received.SdpReq?
  {
  }

  lemma SecondPassKeeps(s: Secc, i: SeInput)
    requires s.received == Empty && s.entered
    requires IsAnswering(s.state) ==> s.state == AnsweredAppProtocol
    ensures var p := OnePass(s, i); p.s.source == s.source && p.s.info == s.info
  {
    hide OnePass;
    hide Answer;
    hide Response;
    if IsAnswering(s.state) {
      PassWithEntry(s, i);
      AnswerFacts(s, i);
    } else {
      PassOutsideDialogue(s, i);
    }
  }

  lemma Unanswered(s: Secc, i: SeInput)
    requires Settled(s) && Admitted(s.received)
    requires var route := Route(s.state, KindOf(s.received)); route == None || !Reachable(s, route.value)
    ensures Operate(s, i).s.source == SwitchOff(s).source && Operate(s, i).s.info == s.info
  {
    hide OnePass;
    hide KindOf;
    hide Route;
    hide IsRequest;
    hide IsAnswering;
    FirstPassUnanswered(SwitchOff(s), i);
    var first := OnePass(SwitchOff(s), i);
    if first.s.entered {
      SecondPassKeeps(first.s.(received := Empty), i);
    }
  }

  // ---- Runs ----

  /** What holds between any two events. */
  predicate Inv(s: Secc) {
    Settled(s) && Admitted(s.received)
  }

  lemma StepKeepsInv(s: Secc, e: Event)
    requires Inv(s)
    ensures Inv(Step(s, e))
  {
    hide Operate;
    match e
    case Cycle(i) => OperateSettles(s, i);
    case Frame(m) => FrameKeepsInv(s, m);
    case Disconnect =>
  }

  lemma FrameKeepsInv(s: Secc, m: Message)
    requires Inv(s)
    ensures Inv(OnFrame(s, m)) && OnFrame(s, m).source == s.source && OnFrame(s, m).info == s.info
    ensures OnFrame(s, m).hasClient == s.hasClient && OnFrame(s, m).state == s.state
  {
    hide ToReal;
    hide ChosenSchema;
  }

  lemma {:induction false} RunKeepsInv(s: Secc, es: seq<Event>)
    requires Inv(s)
    ensures Inv(Run(s, es))
  {
    if es != [] {
      RunKeepsInv(s, es[..|es| - 1]);
      StepKeepsInv(Run(s, es[..|es| - 1]), es[|es| - 1]);
    }
  }

  /** The command at the end of the run has been in force since event k. */
  predicate InForce(s0: Secc, es: seq<Event>, k: nat) {
    forall j :: k < j <= |es| ==> Run(s0, es[..j]).source == Run(s0, es).source
  }

  lemma InForceExtends(s0: Secc, es: seq<Event>, k: nat)
    requires es != [] && InForce(s0, es[..|es| - 1], k)
    requires Run(s0, es[..|es| - 1]).source == Run(s0, es).source
    ensures InForce(s0, es, k)
  {
    hide Run;
    var n := |es| - 1;
    forall j | k < j <= |es|
      ensures Run(s0, es[..j]).source == Run(s0, es).source
    {
      if j <= n {
        assert es[..n][..j] == es[..j];
      } else {
        assert es[..j] == es;
      }
    }
  }

  lemma InForceAtEnd(s0: Secc, es: seq<Event>)
    requires es != []
    ensures InForce(s0, es, |es| - 1)
  {
    hide Run;
    assert es[..|es|] == es;
  }

  /** Whenever the source is enabled after a run, some operate call of that run issued exactly this
      command with the pilot in C or D or without a pilot, and it has been in force ever since. */
  lemma {:induction false} EnabledWithConsent(s0: Secc, es: seq<Event>) returns (k: nat)
    requires Inv(s0) && !s0.source.enable && Run(s0, es).source.enable
    ensures k < |es| && es[k].Cycle? && PilotAllows(es[k].i) && InForce(s0, es, k)
  {
    assert es != [];
    hide Step;
    hide Inv;
    hide PilotAllows;
    hide InForce;
    var n := |es| - 1;
    RunKeepsInv(s0, es[..n]);
    SourceAfter(Run(s0, es[..n]), es[n]);
    if es[n].Cycle? && PilotAllows(es[n].i) {
      k := n;
      InForceAtEnd(s0, es);
    } else {
      k := EnabledWithConsent(s0, es[..n]);
      InForceExtends(s0, es, k);
    }
  }

  lemma InitialKeepsInv(modes: seq<TransferMode>, tls: bool)
    ensures Inv(Initial(modes, tls)) && !Initial(modes, tls).source.enable
  {
  }

  lemma SourceAfter(s: Secc, e: Event)
    requires Inv(s)
    ensures Step(s, e).source.enable ==> Step(s, e).source == s.source || (e.Cycle? && PilotAllows(e.i))
  {
    hide Operate;
    match e
    case Cycle(i) => SourceEnabledOnlyForPower(s, i);
    case Frame(m) => FrameKeepsInv(s, m);
    case Disconnect =>
  }

  // ---- Session numbers ----

  /** A call that answers a session setup request. */
  predicate SetsUp(s: Secc) {
    s.state == AnsweredAppProtocol && KindOf(s.received) == KSessionSetup && s.hasClient
  }

  function Sessions(s: Secc, es: seq<Event>): nat {
    if es == [] then 0
    else
      var before := es[..|es| - 1];
      Sessions(s, before) + if es[|es| - 1].Cycle? && SetsUp(Run(s, before)) then 1 else 0
  }

  lemma SessionIdAfter(s: Secc, i: SeInput)
    requires Settled(s) && Admitted(s.received)
    ensures Operate(s, i).s.info == if SetsUp(s) then s.info.(sessionId := NextId(s.info.sessionId)) else s.info
  {
    hide Operate;
    hide KindOf;
    hide IsRequest;
    var route := Route(s.state, KindOf(s.received));
    if route != None {
      OnlyRequestsAreRouted(s.state, s.received);
      if Reachable(s, route.value) {
        AnsweredId(s, i, route.value);
        return;
      }
    }
    Unanswered(s, i);
  }

  lemma AnsweredId(s: Secc, i: SeInput, t: SeState)
    requires Settled(s) && IsRequest(s.received)
    requires Route(s.state, KindOf(s.received)) == Some(t) && Reachable(s, t)
    ensures Operate(s, i).s.info == if t == AnsweredSessionSetup then s.info.(sessionId := NextId(s.info.sessionId)) else s.info
  {
    hide Operate;
    hide Answer;
    hide Route;
    hide KindOf;
    hide IsRequest;
    hide NextId;
    hide Response;
    hide Command;
    OperateOnRequest(s, i, t);
    AnswerFacts(EnteredWith(s, t), i);
  }

  const FIRST_ID: nat := 0x0102030405060708

  lemma FirstIdFits()
    ensures FIRST_ID % WORD64 == FIRST_ID
  {
  }

  /** The id after n sessions. */
  function IdAfter(n: nat): SessionId {
    BigEndianBytes((FIRST_ID + n) % WORD64, 8)
  }

  /** The n-th session a charger sets up has the id 0x0102030405060708 + n modulo 2^64. */
  lemma {:induction false} SessionNumber(modes: seq<TransferMode>, tls: bool, es: seq<Event>)
    ensures Run(Initial(modes, tls), es).info == Identity(IdAfter(Sessions(Initial(modes, tls), es)), modes)
  {
    hide Step;
    hide BigEndianBytes;
    var s := Initial(modes, tls);
    if es == [] {
      FirstIdFits();
    } else {
      var before, e := es[..|es| - 1], es[|es| - 1];
      SessionNumber(modes, tls, before);
      RunKeepsInv(s, before);
      SessionStepId(Run(s, before), e, Sessions(s, before));
    }
  }

  lemma SessionStepId(s: Secc, e: Event, n: nat)
    requires Inv(s) && s.info.sessionId == IdAfter(n)
    ensures Step(s, e).info.modes == s.info.modes
    ensures Step(s, e).info.sessionId == IdAfter(if e.Cycle? && SetsUp(s) then n + 1 else n)
  {
    hide Operate;
    hide KindOf;
    hide BigEndianBytes;
    hide NextId;
    match e
    case Cycle(i) =>
      SessionIdAfter(s, i);
      NextIdCounts((FIRST_ID + n) % WORD64);
      SuccessorModulo(FIRST_ID + n);
    case Frame(m) => FrameKeepsInv(s, m);
    case Disconnect =>
  }
}
