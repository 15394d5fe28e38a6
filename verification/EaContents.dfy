// What the EA power source driver hears in a reply and says in a command.

module EaContents {
  import opened Timers
  import opened V2g
  import opened EaSpec
  import opened EaRuns

  // ---- Replies ----

  /** A measurement of four fields: voltage, current, power and output, in this order. A source that is found
      off although it was demanded and last measured on is no longer demanded. */
  lemma MeasureHeard(s: Ea, v: Field, c: Field, p: Field, o: Field)
    requires s.state == AwaitMeasure
    ensures var t := OnReply(s, Line([v, c, p, o]));
            var on := o.text == "ON";
            && t.values.actual.voltage == v.number && t.values.actual.current == c.number && t.values.actual.power == p.number
            && (t.values.actual.enabled <==> on) && t.values.actual.online
            && t.values.demand.enable == (s.values.demand.enable && (on || !s.values.actual.enabled))
            && t.values.demand == s.values.demand.(enable := t.values.demand.enable)
            && t.values.nominal == s.values.nominal && t.values.protection == s.values.protection
            && !t.timer.Active() && t.state == s.state && t.requests == s.requests
  {
  }

  /** Nominal values: voltage, current, power. */
  lemma NominalHeard(s: Ea, v: Field, c: Field, p: Field)
    requires s.state == AwaitNominal
    ensures var t := OnReply(s, Line([v, c, p]));
            && t.values.nominal.voltage == v.number && t.values.nominal.current == c.number && t.values.nominal.power == p.number
            && t.values.demand == s.values.demand && t.values.actual == s.values.actual && t.values.protection == s.values.protection
  {
  }

  /** Protection values: voltage, source and sink current, source and sink power. */
  lemma ProtectionHeard(s: Ea, v: Field, c: Field, sc: Field, p: Field, sp: Field)
    requires s.state == AwaitProtection
    ensures var t := OnReply(s, Line([v, c, sc, p, sp]));
            var x := t.values.protection;
            && x.voltage == v.number && x.currentSource == c.number && x.currentSink == sc.number
            && x.powerSource == p.number && x.powerSink == sp.number
            && t.values.demand == s.values.demand && t.values.actual == s.values.actual && t.values.nominal == s.values.nominal
  {
  }

  /** Demand values in the same order, unless the application presets them. With preset nominal power the
      powers are the nominal one and the output is not demanded. */
  lemma DemandHeard(s: Ea, v: Field, c: Field, sc: Field, p: Field, sp: Field)
    requires s.state == AwaitDemandValues
    ensures var t := OnReply(s, Line([v, c, sc, p, sp]));
            var was, d := s.values.demand, t.values.demand;
            && d.voltage == (if s.config.presetDemand then was.voltage else v.number)
            && d.currentSource == (if s.config.presetDemand then was.currentSource else c.number)
            && d.currentSink == (if s.config.presetDemand then was.currentSink else sc.number)
            && d.powerSource == (if s.config.presetNominalPower then s.values.nominal.power
                                 else if s.config.presetDemand then was.powerSource else p.number)
            && d.powerSink == (if s.config.presetNominalPower then s.values.nominal.power
                               else if s.config.presetDemand then was.powerSink else sp.number)
            && d.enable == (was.enable && !s.config.presetNominalPower)
            && t.values.actual == s.values.actual && t.values.nominal == s.values.nominal && t.values.protection == s.values.protection
  {
  }

  /** The number of fields that the reply to a state's command must have; no number for the states whose
      replies are not read. */
  function FieldsOf(state: EaState): Option<nat> {
    match state
    case AwaitNominal => Some(3)
    case AwaitDemandValues => Some(5)
    case AwaitProtection => Some(5)
    case AwaitMeasure => Some(4)
    case _ => None
  }

  /** Any other reply only ends the waiting, except that preset nominal power takes effect with any reply to
      the question for the demand. */
  lemma OthersIgnored(s: Ea, fields: seq<Field>)
    requires FieldsOf(s.state) != Some(|fields|) && !(s.state == AwaitDemandValues && s.config.presetNominalPower)
    ensures OnReply(s, Line(fields)) == s.(timer := s.timer.Stop())
  {
  }

  /** An interruption asks for a reset; nothing else but a text reply has any effect. */
  lemma OtherFrames(s: Ea, r: Reply)
    ensures r.Interrupted? ==> OnReply(s, r) == s.(requests := Requests(true, s.requests.configure))
    ensures r.Nothing? || r.Modbus? ==> OnReply(s, r) == s
  {
  }

  /** A fresh driver demands nothing and waits 4500 for a reply. */
  lemma FreshDriver(c: Config, now: nat)
    ensures var s := EaSpec.Initial(c, now);
            && s.state == EaIdle && s.last == EaIdle && s.requests == Requests(false, false) && s.timeoutFlag == 0
            && !s.timer.Active() && s.timer.duration == 4500
            && s.values.demand == Demand(false, 0.0, 0.0, 0.0, 0.0, 0.0) && !s.values.actual.online && !s.values.actual.enabled
            && s.values.actual.current == 0.0
  {
  }

  // ---- The application's demand ----

  /** In the units of the source, and with one ampere at least where a voltage is to rise without current control. */
  lemma SetMeans(s: Ea, d: PowerDemand)
    ensures var t := Set(s, d).values.demand;
            && t.enable == d.enable
            && t.voltage * s.config.voltageFactor == d.voltage
            && t.currentSource * s.config.currentFactor == (if d.voltage > 0.0 && d.current == 0.0 && !d.currentControl then 1.0 else d.current)
            && t == s.values.demand.(enable := t.enable, voltage := t.voltage, currentSource := t.currentSource)
            && Set(s, d) == s.(values := s.values.(demand := t))
  {
    Quotient(d.voltage, s.config.voltageFactor);
    Quotient(if d.voltage > 0.0 && d.current == 0.0 && !d.currentControl then 1.0 else d.current, s.config.currentFactor);
  }

  lemma Quotient(x: real, f: Factor)
    ensures x / f * f == x
  {
  }

  // ---- Commands ----

  /** What the source is told while it is to be off but still delivers current: to stay on with none. */
  function Discharging(d: Demand): Demand {
    Demand(true, d.voltage, 0.0, 0.0, d.powerSource, d.powerSink)
  }

  lemma DemandSaid(s: Ea)
    ensures var d := s.values.demand;
            DemandToSend(s) == if !d.enable && s.values.actual.current * s.config.currentFactor > 0.1 then Discharging(d) else d
  {
    var x := MeasuredCurrent(s.values.actual, s.config);
    assert x == s.values.actual.current * s.config.currentFactor;
  }

  /** Every command, word for word. */
  lemma CommandSaid(s: Ea, i: EaInput)
    requires s.timeoutFlag == 0 && Operate(s, i).1 != []
    ensures var sent := Operate(s, i).1;
            var d := s.values.demand;
            match s.state
            case AwaitIdn => sent == [Idn]
            case AwaitNominal => sent == [QueryNominal]
            case AwaitDemandValues => sent == [QueryDemand]
            case AwaitDemandState => sent == [QueryOutput]
            case AwaitProtection => sent == [QueryProtection]
            case AwaitSetRemote => sent == [Lock]
            case AwaitSetComTimeout => sent == [SetComTimeout]
            case AwaitSetProtection => sent == [SetProtection(s.values.protection)]
            case AwaitMeasure => sent == [Measure]
            case AwaitSetDemand =>
              sent == [Command.SetDemand(if !d.enable && s.values.actual.current * s.config.currentFactor > 0.1 then Discharging(d) else d)]
            case AwaitSetState => sent == [Output(d.enable)]
            case _ => false
  {
    DemandSaid(s);
    hide DemandToSend;
  }

  /** A command goes out only with the answer to the previous one received or given up, fifty after it, and
      on a serial port or a connected client. */
  lemma SentWhenFree(s: Ea, i: EaInput)
    requires s.timeoutFlag == 0
    ensures Operate(s, i).1 != [] ==>
              && !s.timer.Active() && s.timer.Get(i.now) >= 50 && (i.link == None || i.link == Some(LinkConnected))
              && Operate(s, i).0.timer.startTime == i.now
  {
  }

  /** The five commands that the source does not answer. */
  predicate Unanswered(state: EaState) {
    || state == AwaitSetRemote || state == AwaitSetComTimeout || state == AwaitSetProtection
    || state == AwaitSetDemand || state == AwaitSetState
  }

  /** A reply is waited for until 4500 have passed, but only until ten have passed where none is due. */
  lemma GivenUp(s: Ea, i: EaInput)
    requires s.timeoutFlag == 0 && s.timer.Active() && s.timer.duration == 4500 && Sends(s.state) && i.link != Some(LinkClosed)
    ensures !Operate(s, i).0.timer.Active() <==> s.timer.Get(i.now) > 4500 || (Unanswered(s.state) && s.timer.Get(i.now) > 10)
    ensures Operate(s, i).0.state == s.state && Operate(s, i).1 == []
  {
  }

  predicate Free(s: Ea, i: EaInput) {
    !s.timer.Active() && s.timer.Get(i.now) >= 50 && (i.link == None || i.link == Some(LinkConnected))
  }

  /** The source counts as online once it has identified itself, until the driver comes to a state in which it
      does not talk to it. */
  lemma OnlineMarked(s: Ea, i: EaInput)
    requires s.timeoutFlag == 0
    ensures var t := Operate(s, i).0;
            t.values.actual.online ==
            if s.state == AwaitIdn && t.state == AwaitNominal then true
            else if !Sends(s.state) && s.last != s.state && s.requests == Requests(false, false) && Free(s, i) then false
            else s.values.actual.online
  {
  }

  /** From every state a reset leads to idle and a configuration to the protection values, one per call and
      without a command. */
  lemma RequestsTaken(s: Ea, i: EaInput)
    requires s.timeoutFlag == 0 && Free(s, i) && s.requests != Requests(false, false)
    ensures var t := Operate(s, i).0;
            && Operate(s, i).1 == []
            && t.state == (if s.requests.reset then EaIdle else AwaitSetProtection)
            && t.requests == Requests(false, s.requests.reset && s.requests.configure)
  {
  }

  /** A failed or finished driver waits for such a request. */
  lemma EndsRest(s: Ea, i: EaInput)
    requires s.timeoutFlag == 0 && (s.state == EaFailure || s.state == EaFinished) && s.requests == Requests(false, false)
    ensures Operate(s, i).0.state == s.state && Operate(s, i).1 == []
  {
  }

  /** A closed client sets the timer; if no connection comes about in time, an idle driver fails. */
  lemma Unconnected(s: Ea, i: EaInput)
    requires s.timeoutFlag == 0
    ensures i.link == Some(LinkClosed) && s.timer.duration != 0 ==>
              Operate(s, i).0.timer.startTime == i.now && Operate(s, i).0.timer.Active()
              && Operate(s, i).0.timer.duration == s.timer.duration
    ensures s.state == EaIdle && s.timer.Active() && s.timer.Get(i.now) > s.timer.duration ==> Operate(s, i).0.state == EaFailure
  {
  }

  /** A second timeout, which only a set flag brings about, is one after a hundred already and leads to the
      reconnection; a reconnection that does not come about in time fails. */
  lemma TimedOutAgain(s: Ea, i: EaInput)
    requires s.timer.duration != 0 && i.link != Some(LinkClosed)
    ensures s.timeoutFlag != 0 && s.state != AwaitReconnect ==>
              var t := Operate(s, i).0;
              if s.timer.Get(i.now) > 100 || (s.timer.Active() && s.timer.Get(i.now) > s.timer.duration) then
                t.state == AwaitReconnect && t.timeoutFlag == 0 && t.timer == Timer(i.now, s.timer.duration, 1) && Operate(s, i).1 == []
              else t.timeoutFlag == s.timeoutFlag
    ensures s.timeoutFlag == 0 && s.state == AwaitReconnect && s.timer.Active() && s.timer.Get(i.now) > s.timer.duration ==>
              Operate(s, i).0.state == EaFailure
  {
  }

  // ---- From a measurement to the next demand ----

  /** The event brings a new measurement. */
  predicate Measures(h: History, e: Event) {
    e.Receive? && e.r.Line? && h.s.state == AwaitMeasure && |e.r.fields| == 4
  }

  lemma CallKeepsMeasure(s: Ea, i: EaInput)
    ensures var t := Operate(s, i).0;
            t.values.actual.(online := true) == s.values.actual.(online := true) && t.config == s.config
  {
  }

  lemma StepKeepsMeasure(h: History, e: Event)
    requires !Measures(h, e)
    ensures Step(h, e).s.values.actual.(online := true) == h.s.values.actual.(online := true) && Step(h, e).s.config == h.s.config
  {
    hide Operate;
    if e.Call? {
      CallKeepsMeasure(h.s, e.i);
    }
  }

  predicate Unmeasured(h: History, es: seq<Event>) {
    forall k :: 0 <= k < |es| ==> !Measures(Run(h, es[..k]), es[k])
  }

  lemma {:induction false} MeasureStands(h: History, es: seq<Event>)
    requires Unmeasured(h, es)
    ensures Run(h, es).s.values.actual.(online := true) == h.s.values.actual.(online := true) && Run(h, es).s.config == h.s.config
  {
    hide Step;
    hide Measures;
    if es != [] {
      var n := |es| - 1;
      forall k | 0 <= k < n
        ensures !Measures(Run(h, es[..n][..k]), es[..n][k])
      {
        assert es[..n][..k] == es[..k];
      }
      MeasureStands(h, es[..n]);
      StepKeepsMeasure(Run(h, es[..n]), es[n]);
    }
  }

  /** Until the next measurement every demand that goes out is the application's, except that an output that
      is to be off while the measured current exceeds 0.1 A is kept on with both currents at zero. */
  lemma DemandAfterMeasure(h: History, v: Field, c: Field, p: Field, o: Field, es: seq<Event>, i: EaInput)
    requires h.s.state == AwaitMeasure && Unmeasured(Step(h, Receive(Line([v, c, p, o]))), es)
    ensures var n := Run(Step(h, Receive(Line([v, c, p, o]))), es).s;
            var sent := Operate(n, i).1;
            var d := n.values.demand;
            sent != [] && sent[0].SetDemand? && n.timeoutFlag == 0 ==>
              sent == [Command.SetDemand(if !d.enable && c.number * h.s.config.currentFactor > 0.1 then Discharging(d) else d)]
  {
    hide Run;
    hide Operate;
    hide Unmeasured;
    MeasureHeard(h.s, v, c, p, o);
    var m := Step(h, Receive(Line([v, c, p, o])));
    MeasureStands(m, es);
    var n := Run(m, es).s;
    assert n.values.actual.current == c.number && n.config == h.s.config;
    assert n.values.actual.current * n.config.currentFactor == c.number * h.s.config.currentFactor;
    if Operate(n, i).1 != [] && n.timeoutFlag == 0 {
      CommandSaid(n, i);
      if n.state == AwaitSetDemand {
        assert Operate(n, i).1[0].SetDemand?;
      }
    }
  }
}
