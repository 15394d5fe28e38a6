// The command language of the EA power source driver.

module EaRuns {
  import opened Words
  import opened Timers
  import opened V2g
  import opened EaSpec

  datatype Event = Call(i: EaInput) | Receive(r: Reply) | Reset | Configure | SetDemand(d: PowerDemand)

  /** What an observer sees: commands with their time, and the calls that take up a reset or a configuration.
      A configuration that is taken up while the protection values are being set goes unheeded. */
  datatype Mark = Sent(time: nat, command: Command) | Restarted | Reconfigured | Unheeded

  /** at is the time of the last call. */
  datatype History = History(s: Ea, at: nat, log: seq<Mark>)

  function MarksOf(s: Ea, i: EaInput): seq<Mark> {
    var (t, sent) := Operate(s, i);
    if sent != [] then [Sent(i.now, sent[0])]
    else if s.requests.reset && !t.requests.reset then [Restarted]
    else if s.requests.configure && !t.requests.configure then (if s.state == AwaitSetProtection then [Unheeded] else [Reconfigured])
    else []
  }

  function Step(h: History, e: Event): History {
    match e
    case Call(i) => History(Operate(h.s, i).0, i.now, h.log + MarksOf(h.s, i))
    case Receive(r) => h.(s := OnReply(h.s, r))
    case Reset => h.(s := h.s.(requests := h.s.requests.(reset := true)))
    case Configure => h.(s := h.s.(requests := h.s.requests.(configure := true)))
    case SetDemand(d) => h.(s := Set(h.s, d))
  }

  function Run(h: History, es: seq<Event>): History {
    if es == [] then h else Step(Run(h, es[..|es| - 1]), es[|es| - 1])
  }

  // ---- The script ----

  /** Whether the commands at the end of a log began with the protection values. */
  predicate Configured(log: seq<Mark>) {
    log != [] &&
    match log[|log| - 1]
    case Restarted => false
    case Reconfigured => true
    case Sent(_, _) => Configured(log[..|log| - 1])
    case Unheeded => Configured(log[..|log| - 1])
  }

  /** The number of commands since the last restart or configuration. */
  function Count(log: seq<Mark>): nat {
    if log == [] then 0
    else
      match log[|log| - 1]
      case Restarted => 0
      case Reconfigured => 0
      case Sent(_, _) => 1 + Count(log[..|log| - 1])
      case Unheeded => Count(log[..|log| - 1])
  }

  function Repeating(n: nat): EaState {
    if n % 3 == 0 then AwaitMeasure else if n % 3 == 1 then AwaitSetDemand else AwaitSetState
  }

  /** The state whose command is the n-th one. */
  function Script(configured: bool, n: nat): EaState {
    if configured then (if n == 0 then AwaitSetProtection else Repeating(n - 1))
    else
      match n
      case 0 => AwaitIdn
      case 1 => AwaitNominal
      case 2 => AwaitDemandValues
      case 3 => AwaitDemandState
      case 4 => AwaitProtection
      case 5 => AwaitSetRemote
      case 6 => AwaitSetComTimeout
      case _ => Repeating(n - 7)
  }

  predicate Belongs(c: Command, state: EaState) {
    match state
    case AwaitIdn => c.Idn?
    case AwaitNominal => c.QueryNominal?
    case AwaitDemandValues => c.QueryDemand?
    case AwaitDemandState => c.QueryOutput?
    case AwaitProtection => c.QueryProtection?
    case AwaitSetRemote => c.Lock?
    case AwaitSetComTimeout => c.SetComTimeout?
    case AwaitSetProtection => c.SetProtection?
    case AwaitMeasure => c.Measure?
    case AwaitSetDemand => c.SetDemand?
    case AwaitSetState => c.Output?
    case _ => false
  }

  lemma ScriptFollows(configured: bool, n: nat)
    ensures Sends(Script(configured, n)) && Successor(Script(configured, n)) == Script(configured, n + 1)
  {
  }

  lemma MarkAppended(log: seq<Mark>, m: Mark)
    ensures Count(log + [m]) == if m.Sent? then Count(log) + 1 else if m.Unheeded? then Count(log) else 0
    ensures Configured(log + [m]) == if m.Sent? || m.Unheeded? then Configured(log) else m.Reconfigured?
  {
    assert (log + [m])[..|log|] == log;
  }

  /** Every command is the one its place in the script asks for. */
  ghost predicate FollowsScript(log: seq<Mark>) {
    forall k :: 0 <= k < |log| && log[k].Sent? ==> Belongs(log[k].command, Script(Configured(log[..k]), Count(log[..k])))
  }

  predicate Spaced(log: seq<Mark>) {
    forall i, j :: 0 <= i < j < |log| && log[i].Sent? && log[j].Sent? ==> log[j].time >= log[i].time + CYCLE
  }

  lemma ScriptAppended(log: seq<Mark>, m: Mark)
    requires FollowsScript(log) && (m.Sent? ==> Belongs(m.command, Script(Configured(log), Count(log))))
    ensures FollowsScript(log + [m])
  {
    hide Configured;
    hide Count;
    hide Script;
    hide Belongs;
    var longer := log + [m];
    forall k | 0 <= k < |longer| && longer[k].Sent?
      ensures Belongs(longer[k].command, Script(Configured(longer[..k]), Count(longer[..k])))
    {
      assert longer[..k] == log[..k];
      assert log[..|log|] == log;
    }
  }

  // ---- The invariant ----

  predicate Entered(s: Ea) {
    s.state != s.last
  }

  /** A configuration is requested again before the protection values of the first one have been sent. */
  predicate ConfiguredTwice(s: Ea) {
    s.requests.configure && !s.requests.reset && s.state == AwaitSetProtection && Entered(s)
  }

  /** A serial port or a client that stays connected, a clock that runs on within 64 bits, and no second
      configuration on top of the first. */
  predicate Steady(h: History, e: Event) {
    e.Call? ==> Connected(e.i) && h.at <= e.i.now < WORD64 && !ConfiguredTwice(h.s)
  }

  /** Where the machine stands in the script. An entered state still owes its command and is free to send it. */
  predicate Placed(h: History) {
    var place := Count(h.log);
    if h.s.state == EaIdle then place == 0 && !Configured(h.log) && !h.s.timer.Active()
    else if Entered(h.s) then
      h.s.state == Script(Configured(h.log), place) && !h.s.timer.Active() && h.at >= h.s.timer.startTime + CYCLE
    else place >= 1 && h.s.state == Script(Configured(h.log), place - 1)
  }

  ghost predicate Inv(h: History) {
    && h.s.timeoutFlag == 0 && h.s.timer.duration == COMTIMEOUT
    && h.s.timer.startTime <= h.at < WORD64
    && (h.s.state == EaIdle || Sends(h.s.state))
    && Placed(h) && FollowsScript(h.log) && Spaced(h.log)
    && (forall k :: 0 <= k < |h.log| && h.log[k].Sent? ==> h.log[k].time <= h.s.timer.startTime)
  }

  // ---- One call ----

  /** With an idle timer and the cycle time over, an entered state sends its command unless a request
      comes first. */
  lemma FreeCall(s: Ea, i: EaInput)
    requires s.timeoutFlag == 0 && s.timer.duration != 0 && MaySend(s, i) && (s.state == EaIdle || Sends(s.state))
    ensures var (t, sent) := Operate(s, i);
            && t.timeoutFlag == 0 && t.last == s.state && !s.timer.Active()
            && (if s.requests.reset then
                  sent == [] && t.state == EaIdle && t.timer == s.timer && !t.requests.reset
                else if s.requests.configure then
                  sent == [] && t.state == AwaitSetProtection && t.timer == s.timer && !t.requests.configure && !t.requests.reset
                else
                  && t.requests == s.requests
                  && (if s.state == EaIdle then sent == [] && t.timer == s.timer && t.state == (if i.run then AwaitIdn else EaIdle)
                      else if Entered(s) then sent == [CommandOf(s)] && t.state == s.state && t.timer == s.timer.Start(i.now, 0)
                      else sent == [] && t.timer == s.timer && t.state == Successor(s.state)))
  {
  }

  /** Any other call waits, and at most gives up waiting for a reply. */
  lemma WaitingCall(s: Ea, i: EaInput)
    requires s.timeoutFlag == 0 && !MaySend(s, i) && Connected(i) && (s.state == EaIdle ==> !s.timer.Active())
    requires s.state == EaIdle || Sends(s.state)
    ensures var (t, sent) := Operate(s, i);
            && t.timeoutFlag == 0 && t.last == s.state && t.state == s.state && t.requests == s.requests && sent == []
            && (t.timer == s.timer || t.timer == s.timer.Stop())
  {
  }

  lemma EnteredIsFree(h: History, i: EaInput)
    requires Inv(h) && Entered(h.s) && h.s.state != EaIdle && Steady(h, Call(i))
    ensures MaySend(h.s, i)
  {
    hide FollowsScript;
    hide Spaced;
    hide Script;
    hide Count;
    hide Configured;
  }

  lemma CommandBelongs(s: Ea)
    requires Sends(s.state)
    ensures Belongs(CommandOf(s), s.state)
  {
    hide DemandToSend;
  }

  lemma WaitingKeepsInv(h: History, i: EaInput)
    requires Inv(h) && Steady(h, Call(i)) && !MaySend(h.s, i)
    ensures Inv(Step(h, Call(i)))
  {
    hide Operate;
    hide FollowsScript;
    hide Spaced;
    hide Script;
    hide Count;
    hide Configured;
    if Entered(h.s) && h.s.state != EaIdle {
      EnteredIsFree(h, i);
    }
    WaitingCall(h.s, i);
    assert h.log + [] == h.log;
  }

  lemma SpacedAppended(log: seq<Mark>, m: Mark, start: nat)
    requires Spaced(log) && forall k :: 0 <= k < |log| && log[k].Sent? ==> log[k].time <= start
    requires m.Sent? ==> m.time >= start + CYCLE
    ensures Spaced(log + [m])
  {
  }

  lemma FreeKeepsInv(h: History, i: EaInput)
    requires Inv(h) && Steady(h, Call(i)) && MaySend(h.s, i)
    ensures Inv(Step(h, Call(i)))
  {
    hide Operate;
    hide FollowsScript;
    hide Spaced;
    hide Script;
    hide Count;
    hide Configured;
    hide Belongs;
    FreeCall(h.s, i);
    var n, c := Count(h.log), Configured(h.log);
    ScriptFollows(c, n);
    if n >= 1 {
      ScriptFollows(c, n - 1);
    }
    assert h.log + [] == h.log;
    var marks := MarksOf(h.s, i);
    if marks != [] {
      MarkAppended(h.log, marks[0]);
      SpacedAppended(h.log, marks[0], h.s.timer.startTime);
      if marks[0].Sent? {
        CommandBelongs(h.s);
      }
      ScriptAppended(h.log, marks[0]);
    }
    ScriptStarts();
  }

  lemma ScriptStarts()
    ensures Script(true, 0) == AwaitSetProtection && Script(false, 0) == AwaitIdn
  {
  }

  lemma OtherEventsKeepInv(h: History, e: Event)
    requires Inv(h) && !e.Call?
    ensures Inv(Step(h, e))
  {
    hide FollowsScript;
    hide Spaced;
    hide Script;
    hide Count;
    hide Configured;
    hide Take;
  }

  lemma StepKeepsInv(h: History, e: Event)
    requires Inv(h) && Steady(h, e)
    ensures Inv(Step(h, e))
  {
    hide Inv;
    hide Steady;
    hide Step;
    if e.Call? && MaySend(h.s, e.i) {
      FreeKeepsInv(h, e.i);
    } else if e.Call? {
      WaitingKeepsInv(h, e.i);
    } else {
      OtherEventsKeepInv(h, e);
    }
  }

  function Begin(c: Config, now: nat): History {
    History(EaSpec.Initial(c, now), now, [])
  }

  predicate SteadyRun(h: History, es: seq<Event>) {
    forall k :: 0 <= k < |es| ==> Steady(Run(h, es[..k]), es[k])
  }

  lemma {:induction false} RunKeepsInv(c: Config, now: nat, es: seq<Event>)
    requires now < WORD64 && SteadyRun(Begin(c, now), es)
    ensures Inv(Run(Begin(c, now), es))
  {
    assert Inv(Begin(c, now));
    hide Step;
    hide Inv;
    hide Steady;
    if es != [] {
      var n := |es| - 1;
      forall k | 0 <= k < n
        ensures Steady(Run(Begin(c, now), es[..n][..k]), es[..n][k])
      {
        assert es[..n][..k] == es[..k];
      }
      RunKeepsInv(c, now, es[..n]);
      StepKeepsInv(Run(Begin(c, now), es[..n]), es[n]);
    }
  }

  /** Every run sends, from each restart on, a prefix of the initial script followed by measuring, setting
      and switching in turn, from each configuration on the same without the initial script; the commands
      are at least CYCLE apart; and the driver neither fails nor waits for a reconnection. */
  lemma CommandLanguage(c: Config, now: nat, es: seq<Event>)
    requires now < WORD64 && SteadyRun(Begin(c, now), es)
    ensures var h := Run(Begin(c, now), es);
            && FollowsScript(h.log) && Spaced(h.log)
            && h.s.state != EaFailure && h.s.state != AwaitReconnect && h.s.state != EaFinished && h.s.timeoutFlag == 0
  {
    hide Run;
    hide FollowsScript;
    hide Spaced;
    hide SteadyRun;
    RunKeepsInv(c, now, es);
  }

  lemma TimerIsSet(h: History)
    requires Inv(h)
    ensures h.s.timeoutFlag == 0 && h.s.timer.duration != 0
  {
    hide FollowsScript;
    hide Spaced;
  }

  lemma EnteredSendsNext(h: History, i: EaInput)
    requires Inv(h) && Sends(h.s.state) && Entered(h.s) && Steady(h, Call(i)) && h.s.requests == Requests(false, false)
    ensures Operate(h.s, i).1 == [CommandOf(h.s)]
  {
    hide Inv;
    hide Steady;
    hide Operate;
    EnteredIsFree(h, i);
    TimerIsSet(h);
    FreeCall(h.s, i);
  }

  /** Wherever a steady run has led, an entered state sends its command in the very next call, unless a
      request is taken up first. */
  lemma EnteredSends(c: Config, now: nat, es: seq<Event>, i: EaInput)
    requires now < WORD64 && SteadyRun(Begin(c, now), es)
    ensures var h := Run(Begin(c, now), es);
            Sends(h.s.state) && Entered(h.s) && Steady(h, Call(i)) && h.s.requests == Requests(false, false) ==>
              Operate(h.s, i).1 == [CommandOf(h.s)]
  {
    hide Run;
    hide Inv;
    hide Steady;
    hide SteadyRun;
    hide Operate;
    hide Entered;
    RunKeepsInv(c, now, es);
    var h := Run(Begin(c, now), es);
    if Sends(h.s.state) && Entered(h.s) && Steady(h, Call(i)) && h.s.requests == Requests(false, false) {
      EnteredSendsNext(h, i);
    }
  }

  lemma TwiceIsFree(h: History, i: EaInput)
    requires Inv(h) && ConfiguredTwice(h.s) && Connected(i) && h.at <= i.now < WORD64
    ensures MaySend(h.s, i)
  {
    hide FollowsScript;
    hide Spaced;
    hide Script;
    hide Count;
    hide Configured;
  }

  /** A configuration taken up by a call leads to the protection values in the next call if and only if the
      driver was not already setting protection values, sent or not. */
  lemma HeededUnlessSetting(s: Ea, i: EaInput, j: EaInput)
    requires s.timeoutFlag == 0 && s.timer.duration != 0 && (s.state == EaIdle || Sends(s.state)) && MaySend(s, i)
    requires s.requests == Requests(false, true) && Connected(j)
    requires s.timer.startTime + CYCLE <= i.now <= j.now < WORD64
    ensures Operate(s, i).1 == []
    ensures Operate(Operate(s, i).0, j).1 == (if s.state == AwaitSetProtection then [] else [SetProtection(s.values.protection)])
    ensures MarksOf(s, i) == (if s.state == AwaitSetProtection then [Unheeded] else [Reconfigured])
  {
    FreeCall(s, i);
    CallKeepsProtection(s, i);
    hide Operate;
    FreeCall(Operate(s, i).0, j);
  }

  lemma CallKeepsProtection(s: Ea, i: EaInput)
    ensures Operate(s, i).0.values.protection == s.values.protection
  {
  }

  lemma Unnoticed(s: Ea, i: EaInput, j: EaInput, k: EaInput)
    requires s.state == AwaitSetProtection && s.requests == Requests(false, true)
    requires s.timeoutFlag == 0 && s.timer.duration != 0 && MaySend(s, i) && Connected(j) && Connected(k)
    requires s.timer.startTime + CYCLE <= i.now <= j.now <= k.now < WORD64
    ensures MarksOf(s, i) == [Unheeded] && MarksOf(Operate(s, i).0, j) == []
    ensures MarksOf(Operate(Operate(s, i).0, j).0, k) == [Sent(k.now, Measure)]
  {
    hide Operate;
    FreeCall(s, i);
    var t := Operate(s, i).0;
    FreeCall(t, j);
    var u := Operate(t, j).0;
    FreeCall(u, k);
  }

  /** A second configuration requested before the protection values of the first have been sent makes the
      driver go on to measuring without sending them. */
  lemma SecondConfigurationIsLost(h: History, i: EaInput, j: EaInput, k: EaInput)
    requires Inv(h) && ConfiguredTwice(h.s) && Connected(i) && Connected(j) && Connected(k)
    requires h.at <= i.now <= j.now <= k.now < WORD64
    ensures var n := Step(Step(Step(h, Call(i)), Call(j)), Call(k));
            n.log == h.log + [Unheeded, Sent(k.now, Measure)] && !FollowsScript(n.log)
  {
    hide Operate;
    hide MarksOf;
    hide Spaced;
    hide Script;
    hide MaySend;
    TwiceIsFree(h, i);
    Unnoticed(h.s, i, j, k);
    MarkAppended(h.log, Unheeded);
    hide Count;
    hide Configured;
    var n := Step(Step(Step(h, Call(i)), Call(j)), Call(k));
    assert h.log + [Unheeded] + [] + [Sent(k.now, Measure)] == h.log + [Unheeded, Sent(k.now, Measure)];
    assert n.log[..|h.log| + 1] == h.log + [Unheeded];
    assert Script(Configured(h.log), Count(h.log)) == AwaitSetProtection;
    assert n.log[|h.log| + 1].Sent?;
  }

  /** A configuration that comes when the protection values of an earlier one have been sent, but before the
      driver has gone on, is lost as well. */
  lemma LateConfigurationIsLost(h: History, i: EaInput, j: EaInput, k: EaInput)
    requires Inv(h) && h.s.state == AwaitSetProtection && !Entered(h.s) && h.s.requests == Requests(false, true)
    requires MaySend(h.s, i) && Connected(j) && Connected(k) && h.at <= i.now <= j.now <= k.now < WORD64
    ensures var n := Step(Step(Step(h, Call(i)), Call(j)), Call(k));
            n.log == h.log + [Unheeded, Sent(k.now, Measure)]
  {
    hide Operate;
    hide MarksOf;
    hide Spaced;
    hide FollowsScript;
    hide Placed;
    FreeNow(h.s, i, h.at);
    Unnoticed(h.s, i, j, k);
    assert h.log + [Unheeded] + [] + [Sent(k.now, Measure)] == h.log + [Unheeded, Sent(k.now, Measure)];
  }

  lemma FreeNow(s: Ea, i: EaInput, at: nat)
    requires MaySend(s, i) && s.timer.startTime <= at <= i.now < WORD64
    ensures s.timer.startTime + CYCLE <= i.now
  {
  }

  // ---- Both cases come about ----

  function At(time: nat): EaInput {
    EaInput(true, time, None)
  }

  lemma RunAppend(h: History, es: seq<Event>, e: Event)
    ensures Run(h, es + [e]) == Step(Run(h, es), e)
  {
    assert (es + [e])[..|es|] == es;
  }

  lemma EmptyRun(h: History)
    ensures Run(h, []) == h && SteadyRun(h, [])
  {
  }

  lemma SteadyAppend(h: History, es: seq<Event>, e: Event)
    requires SteadyRun(h, es) && Steady(Run(h, es), e)
    ensures SteadyRun(h, es + [e])
  {
    hide Run;
    hide Steady;
    var longer := es + [e];
    forall k | 0 <= k < |longer|
      ensures Steady(Run(h, longer[..k]), longer[k])
    {
      assert longer[..k] == es[..k];
      assert es[..|es|] == es;
    }
  }

  /** One more event of a steady run. */
  lemma Extends(h: History, es: seq<Event>, e: Event)
    requires SteadyRun(h, es) && Steady(Run(h, es), e)
    ensures SteadyRun(h, es + [e]) && Run(h, es + [e]) == Step(Run(h, es), e)
  {
    hide Run;
    hide Steady;
    hide SteadyRun;
    hide Step;
    SteadyAppend(h, es, e);
    RunAppend(h, es, e);
  }

  /** Configured at once, the driver is about to send its protection values. */
  lemma FirstConfiguration(c: Config, now: nat) returns (es: seq<Event>)
    requires now + CYCLE < WORD64
    ensures var h := Run(Begin(c, now), es);
            && SteadyRun(Begin(c, now), es) && h.at == now + CYCLE && h.s.state == AwaitSetProtection && Entered(h.s)
            && h.s.requests == Requests(false, false) && h.log == [Reconfigured]
  {
    hide Run;
    hide SteadyRun;
    var b := Begin(c, now);
    EmptyRun(b);
    Extends(b, [], Configure);
    Extends(b, [] + [Configure], Call(At(now + CYCLE)));
    FreeCall(Step(b, Configure).s, At(now + CYCLE));
    hide Operate;
    es := [] + [Configure] + [Call(At(now + CYCLE))];
  }

  /** A driver that is configured at once, and again after its first call, never sends its protection
      values: its first command is a measurement. */
  lemma ConfiguredTwiceComesAbout(c: Config, now: nat) returns (es: seq<Event>)
    requires now + 4 * CYCLE < WORD64
    ensures SteadyRun(Begin(c, now), es) && ConfiguredTwice(Run(Begin(c, now), es).s)
    ensures Step(Step(Step(Run(Begin(c, now), es), Call(At(now + 2 * CYCLE))), Call(At(now + 3 * CYCLE))), Call(At(now + 4 * CYCLE))).log ==
            [Reconfigured, Unheeded, Sent(now + 4 * CYCLE, Measure)]
  {
    hide Run;
    hide SteadyRun;
    hide Inv;
    var b := Begin(c, now);
    es := FirstConfiguration(c, now);
    Extends(b, es, Configure);
    es := es + [Configure];
    RunKeepsInv(c, now, es);
    hide Operate;
    SecondConfigurationIsLost(Run(b, es), At(now + 2 * CYCLE), At(now + 3 * CYCLE), At(now + 4 * CYCLE));
  }

  /** Configured at once, the driver has sent its values, got no reply, and is configured again. */
  lemma ConfiguredLate(c: Config, now: nat) returns (es: seq<Event>)
    requires now + 3 * CYCLE < WORD64
    ensures SteadyRun(Begin(c, now), es)
    ensures var h := Run(Begin(c, now), es);
            && Inv(h) && h.at == now + 3 * CYCLE && h.s.state == AwaitSetProtection && !Entered(h.s)
            && h.s.requests == Requests(false, true)
            && MaySend(h.s, At(now + 4 * CYCLE))
            && |h.log| == 2 && h.log[0] == Reconfigured && h.log[1].Sent? && h.log[1].command.SetProtection?
  {
    hide Run;
    hide SteadyRun;
    hide Inv;
    var b := Begin(c, now);
    es := FirstConfiguration(c, now);
    RunKeepsInv(c, now, es);
    ProtectionSent(Run(b, es), At(now + 2 * CYCLE), At(now + 3 * CYCLE));
    hide Operate;
    hide MarksOf;
    Extends(b, es, Call(At(now + 2 * CYCLE)));
    es := es + [Call(At(now + 2 * CYCLE))];
    Extends(b, es, Call(At(now + 3 * CYCLE)));
    es := es + [Call(At(now + 3 * CYCLE))];
    Extends(b, es, Configure);
    es := es + [Configure];
    RunKeepsInv(c, now, es);
  }

  /** The same, but with the second configuration after the values have been sent and given up waiting for. */
  lemma LateConfigurationComesAbout(c: Config, now: nat) returns (es: seq<Event>)
    requires now + 6 * CYCLE < WORD64
    ensures SteadyRun(Begin(c, now), es)
    ensures var n := Step(Step(Step(Run(Begin(c, now), es), Call(At(now + 4 * CYCLE))), Call(At(now + 5 * CYCLE))), Call(At(now + 6 * CYCLE)));
            && |n.log| == 4 && n.log[0] == Reconfigured && n.log[1].Sent? && n.log[1].command.SetProtection?
            && n.log[2] == Unheeded && n.log[3] == Sent(now + 6 * CYCLE, Measure)
  {
    hide Run;
    hide SteadyRun;
    hide Inv;
    hide Operate;
    hide MarksOf;
    hide MaySend;
    es := ConfiguredLate(c, now);
    LateConfigurationIsLost(Run(Begin(c, now), es), At(now + 4 * CYCLE), At(now + 5 * CYCLE), At(now + 6 * CYCLE));
  }

  /** The values are sent, and without a reply soon given up waiting for. */
  lemma ProtectionSent(h: History, i: EaInput, j: EaInput)
    requires Inv(h) && h.s.state == AwaitSetProtection && Entered(h.s) && h.s.requests == Requests(false, false)
    requires i.link == None && j.link == None && h.at <= i.now && i.now + RESPONSETIME < j.now && j.now <= i.now + CYCLE && j.now < WORD64
    ensures var n := Step(Step(h, Call(i)), Call(j));
            && n.at == j.now && n.s.state == AwaitSetProtection && !Entered(n.s) && n.s.requests == Requests(false, false)
            && n.log == h.log + [Sent(i.now, SetProtection(h.s.values.protection))]
            && !n.s.timer.Active() && n.s.timer.startTime == i.now && n.s.timeoutFlag == 0
  {
    EnteredIsFree(h, i);
    TimerFacts(h);
    hide Inv;
    FreeCall(h.s, i);
  }

  lemma TimerFacts(h: History)
    requires Inv(h)
    ensures h.s.timeoutFlag == 0 && h.s.timer.duration == COMTIMEOUT
  {
    hide FollowsScript;
    hide Spaced;
  }

  // ---- Switching off ----

  /** The reply with which a source that was on reports that it has switched itself off. */
  predicate Trips(s: Ea, r: Reply) {
    s.state == AwaitMeasure && s.values.demand.enable && s.values.actual.enabled && r.Line? && |r.fields| == 4 && !IsOn(r.fields[3])
  }

  /** Only the application, such a reply, or a preset nominal power change the demanded output state. */
  lemma DemandedState(s: Ea, r: Reply)
    ensures OnReply(s, r).values.demand.enable ==
            (s.values.demand.enable && !Trips(s, r) && !(r.Line? && s.state == AwaitDemandValues && s.config.presetNominalPower))
  {
  }

  lemma CallKeepsDemand(s: Ea, i: EaInput)
    ensures Operate(s, i).0.values.demand == s.values.demand
    ensures forall c :: c in Operate(s, i).1 && c.Output? ==> c.on == s.values.demand.enable
  {
    hide DemandToSend;
  }

  predicate Enables(e: Event) {
    e.SetDemand? && e.d.enable
  }

  /** All output commands from place n on switch off. */
  predicate OffFrom(log: seq<Mark>, n: nat) {
    forall k :: n <= k < |log| && log[k].Sent? && log[k].command.Output? ==> !log[k].command.on
  }

  lemma {:induction false} StaysOff(h: History, es: seq<Event>)
    requires !h.s.values.demand.enable && forall k :: 0 <= k < |es| ==> !Enables(es[k])
    ensures var n := Run(h, es); !n.s.values.demand.enable && h.log <= n.log && OffFrom(n.log, |h.log|)
  {
    hide Operate;
    hide OnReply;
    if es != [] {
      var before, e := Run(h, es[..|es| - 1]), es[|es| - 1];
      StaysOff(h, es[..|es| - 1]);
      match e
      case Call(i) => CallKeepsDemand(before.s, i);
      case Receive(r) => DemandedState(before.s, r);
      case Reset =>
      case Configure =>
      case SetDemand(_) =>
    }
  }

  /** Once the source has switched itself off, every output command is off until the application enables
      it again, whatever is received and whatever times out in between. */
  lemma SwitchOffLatch(h: History, r: Reply, es: seq<Event>)
    requires Trips(h.s, r) && forall k :: 0 <= k < |es| ==> !Enables(es[k])
    ensures OffFrom(Run(Step(h, Receive(r)), es).log, |h.log|)
  {
    hide OnReply;
    hide Trips;
    DemandedState(h.s, r);
    StaysOff(Step(h, Receive(r)), es);
  }
}
