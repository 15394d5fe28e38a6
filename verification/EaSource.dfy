// cEAsource as the object its callers hold. Every method is proved to do what EaSpec says.

module EaObject {
  import opened Timers
  import opened V2g
  import opened EaSpec

  class EaSource {
    var state: EaState
    var lastState: EaState
    var requests: Requests
    var comTimer: Timer
    var timeoutFlag: int
    var values: Values
    const config: Config

    ghost function View(): Ea
      reads this
    {
      Ea(state, lastState, requests, comTimer, timeoutFlag, values, config)
    }

    constructor (config: Config, now: nat)
      ensures View() == EaSpec.Initial(config, now)
    {
      this.config := config;
      state := EaIdle;
      lastState := EaIdle;
      requests := Requests(false, false);
      comTimer := Timers.Initial(COMTIMEOUT, now);
      timeoutFlag := 0;
      values := NO_VALUES;
    }

    method Reset()
      modifies this
      ensures View() == old(View()).(requests := old(requests).(reset := true))
    {
      requests := requests.(reset := true);
    }

    method Configure()
      modifies this
      ensures View() == old(View()).(requests := old(requests).(configure := true))
    {
      requests := requests.(configure := true);
    }

    method Set(demand: PowerDemand)
      modifies this
      ensures View() == EaSpec.Set(old(View()), demand)
    {
      var current := demand.current;
      if !demand.currentControl && demand.voltage > 0.0 && demand.current == 0.0 {
        current := 1.0;
      }
      var d := values.demand;
      d := d.(enable := demand.enable);
      d := d.(voltage := demand.voltage / config.voltageFactor);
      d := d.(currentSource := current / config.currentFactor);
      values := values.(demand := d);
    }

    method OnFrameReceive(r: Reply)
      modifies this
      ensures View() == OnReply(old(View()), r)
    {
      if r.Modbus? {
        return;
      }
      if r.Line? {
        comTimer := comTimer.Stop();
        match state
        case AwaitNominal =>
          if |r.fields| == 3 {
            values := values.(nominal := Nominal(r.fields[0].number, r.fields[1].number, r.fields[2].number));
          }
        case AwaitDemandValues => TakeDemand(r.fields);
        case AwaitProtection =>
          if |r.fields| == 5 {
            values := values.(protection := Protection(r.fields[0].number, r.fields[1].number, r.fields[2].number,
                                                       r.fields[3].number, r.fields[4].number));
          }
        case AwaitMeasure => TakeMeasure(r.fields);
        case _ =>
      } else if r.Interrupted? {
        Reset();
      }
    }

    method TakeDemand(fields: seq<Field>)
      modifies this`values
      ensures values == DemandReply(old(values), fields, config)
    {
      if !config.presetDemand && |fields| == 5 {
        values := values.(demand := Demand(values.demand.enable, fields[0].number, fields[1].number,
                                           fields[2].number, fields[3].number, fields[4].number));
      }
      if config.presetNominalPower {
        values := values.(demand := values.demand.(powerSource := values.nominal.power,
        powerSink := values.nominal.power, enable := false));
      }
    }

    method TakeMeasure(fields: seq<Field>)
      modifies this`values
      ensures values == MeasureReply(old(values), fields)
    {
      var lastOn := values.demand.enable && values.actual.enabled;
      if |fields| == 4 {
        values := values.(actual := Actual(true, IsOn(fields[3]), fields[0].number, fields[1].number, fields[2].number));
      }
      if lastOn && !values.actual.enabled {
        values := values.(demand := values.demand.(enable := false));
      }
    }

    method Send(command: Command, now: nat) returns (sent: seq<Command>)
      modifies this`comTimer
      ensures comTimer == old(comTimer).Start(now, 0) && sent == [command]
    {
      sent := [command];
      comTimer := comTimer.Start(now, 0);
    }

    /** While the output is to be off but still carries current, it is kept on without demanding any. */
    method DemandForOutput() returns (saveValues: Demand)
      ensures saveValues == DemandToSend(View())
    {
      saveValues := values.demand;
      if MeasuredCurrent(values.actual, config) > 0.1 && !values.demand.enable {
        saveValues := saveValues.(currentSource := 0.0);
        saveValues := saveValues.(currentSink := 0.0);
        saveValues := saveValues.(enable := true);
      }
    }

    /** The command a state sends when it has been entered. */
    method SendCommand(now: nat) returns (sent: seq<Command>)
      requires Sends(state)
      modifies this`comTimer
      ensures comTimer == old(comTimer).Start(now, 0) && sent == [CommandOf(old(View()))]
    {
      match state
      case AwaitIdn => sent := Send(Idn, now);
      case AwaitNominal => sent := Send(QueryNominal, now);
      case AwaitDemandValues => sent := Send(QueryDemand, now);
      case AwaitDemandState => sent := Send(QueryOutput, now);
      case AwaitProtection => sent := Send(QueryProtection, now);
      case AwaitSetRemote => sent := Send(Lock, now);
      case AwaitSetComTimeout => sent := Send(SetComTimeout, now);
      case AwaitSetProtection => sent := Send(SetProtection(values.protection), now);
      case AwaitMeasure => sent := Send(Measure, now);
      case AwaitSetDemand =>
        var saveValues := DemandForOutput();
        sent := Send(SetDemand(saveValues), now);
      case AwaitSetState => sent := Send(Output(values.demand.enable), now);
    }

    method MarkOnline(online: bool)
      modifies this`values
      ensures values == old(values).(actual := old(values.actual).(online := online))
    {
      values := values.(actual := values.actual.(online := online));
    }

    /** The part of the switch that neither request precedes. */
    method Proceed(i: EaInput) returns (next: EaState, sent: seq<Command>)
      requires requests == Requests(false, false)
      modifies this`values, this`comTimer
      ensures EaStep(View(), next, sent) == SendOrMoveOn(old(View()), i)
    {
      next, sent := state, [];
      var entered := state != lastState;
      if state == EaIdle {
        if entered {
          MarkOnline(false);
        }
        if i.run {
          next := AwaitIdn;
        }
      } else if state == AwaitReconnect || state == EaFailure || state == EaFinished {
        if entered {
          MarkOnline(false);
        }
      } else if entered {
        sent := SendCommand(i.now);
      } else {
        if state == AwaitIdn {
          MarkOnline(true);
        }
        next := Successor(state);
      }
    }

    method NextSend(i: EaInput) returns (next: EaState, sent: seq<Command>)
      modifies this
      ensures EaStep(View(), next, sent) == SendOrMoveOn(old(View()), i)
      ensures state == old(state)
    {
      next, sent := state, [];
      if requests.reset {
        requests := requests.(reset := false);
        next := EaIdle;
      } else if requests.configure {
        requests := requests.(configure := false);
        next := AwaitSetProtection;
      } else {
        next, sent := Proceed(i);
      }
    }

    method Operate(i: EaInput) returns (sent: seq<Command>)
      modifies this
      ensures (View(), sent) == EaSpec.Operate(old(View()), i)
    {
      hide SendOrMoveOn;
      var next := state;
      sent := [];
      var result := comTimer.Elapsed(i.now);
      if timeoutFlag != 0 && comTimer.Get(i.now) > CYCLE * 2 {
        result := 1;
      }
      if result > 0 {
        comTimer := comTimer.Stop();
        if state == EaIdle {
          next := EaFailure;
        }
        if state == AwaitReconnect {
          next := EaFailure;
        } else if timeoutFlag != 0 {
          next := AwaitReconnect;
          timeoutFlag := 0;
          comTimer := comTimer.Start(i.now, 0);
        }
      }
      if result < 0 && comTimer.Get(i.now) >= CYCLE && Connected(i) {
        next, sent := NextSend(i);
      }
      if result == 0 && GivesUpQuickly(state) && comTimer.Get(i.now) > RESPONSETIME {
        comTimer := comTimer.Stop();
      }
      lastState := state;
      state := next;
      if i.link == Some(LinkClosed) {
        comTimer := comTimer.Start(i.now, 0);
      }
    }
  }
}
