// One vehicle and one charger, joined by a TCP connection and by UDP, both loss-free and in order.

module ChargingSystem {
  import opened V2g
  import opened EvccSpec
  import opened SeccSpec

  /** client is the vehicle's end of the TCP connection. backlog is a connection the charger has not yet
      accepted; its own end exists while se.hasClient. closed is set once the vehicle has closed the
      connection and the charger has not yet read its end. overlap records that the vehicle opened a
      connection before the charger was through with the previous one. */
  datatype World = World(
    ev: Evcc,
    se: Secc,
    client: ClientStatus,
    backlog: bool,
    closed: bool,
    overlap: bool,
    toSe: seq<Message>,
    toEv: seq<Message>,
    udpToSe: seq<Message>,
    udpToEv: seq<Message>)

  /** One turn of either main loop: at most one datagram, then at most one frame from the connection,
      then operate. The vehicle's input takes the connection state from the world; at once says whether
      a connection opened in this turn is established at once. accept says whether the charger's server
      already sees a waiting connection. */
  datatype Event =
    | EvTurn(i: EvInput, udp: bool, tcp: bool)
    | SeTurn(j: SeInput, udp: bool, tcp: bool, accept: bool)
    | Establish
    | SetMode(mode: TransferMode)

  /** What the two applications configure: the wanted transfer mode and the offered ones, whether the
      vehicle has a control pilot, whether the charger would accept TLS. */
  datatype Setup = Setup(mode: TransferMode, pilot: Option<CpState>, now: nat, modes: seq<TransferMode>, tls: bool)

  function Begin(c: Setup): World {
    World(EvccSpec.Initial(c.mode, c.pilot, c.now), SeccSpec.Initial(c.modes, c.tls), Closed, false, false, false, [], [], [], [])
  }

  // ---- The vehicle's turn ----

  /** The vehicle after the frames of its turn have been received. */
  function EvReads(w: World, udp: bool, tcp: bool): World {
    var v := if udp && w.udpToEv != [] then w.(ev := EvccSpec.OnFrame(w.ev, w.udpToEv[0]), udpToEv := w.udpToEv[1..]) else w;
    if tcp && v.client == Connected && v.toEv != [] then v.(ev := EvccSpec.OnFrame(v.ev, v.toEv[0]), toEv := v.toEv[1..]) else v
  }

  function WithStatus(w: World, i: EvInput): EvInput {
    i.(client := w.client, afterOpen := if i.afterOpen == Closed then Opening else i.afterOpen)
  }

  function EvSends(w: World, ev: Evcc, out: EvOutput, afterOpen: ClientStatus): World {
    var sent := w.(ev := ev, udpToSe := w.udpToSe + out.udp, toSe := if w.client == Connected then w.toSe + out.tcp else w.toSe);
    match out.op
    case Keep => sent
    case Open => sent.(client := afterOpen, backlog := afterOpen == Connected, overlap := w.overlap || w.backlog || w.se.hasClient)
    case Close => sent.(client := Closed, closed := w.closed || w.client == Connected, toEv := [])
  }

  function EvTurnStep(w: World, i: EvInput, udp: bool, tcp: bool): World {
    var r := EvReads(w, udp, tcp);
    var c := WithStatus(r, i);
    var (ev, out) := EvccSpec.Operate(r.ev, c);
    EvSends(r, ev, out, c.afterOpen)
  }

  // ---- The charger's turn ----

  function SeReads(w: World, udp: bool, tcp: bool): World {
    var v := if udp && w.udpToSe != [] then w.(se := SeccSpec.OnFrame(w.se, w.udpToSe[0]), udpToSe := w.udpToSe[1..]) else w;
    if !tcp || !v.se.hasClient then v
    else if v.toSe != [] then v.(se := SeccSpec.OnFrame(v.se, v.toSe[0]), toSe := v.toSe[1..])
    else if v.closed then v.(se := OnDisconnect(v.se), closed := false)
    else v
  }

  function Offered(w: World, j: SeInput, accept: bool): SeInput {
    j.(connection := if w.backlog && accept then Plain else NoConnection)
  }

  function UdpPart(sent: seq<Sent>): seq<Message> {
    if sent == [] then [] else (if sent[0].Udp? then [sent[0].message] else []) + UdpPart(sent[1..])
  }

  function TcpPart(sent: seq<Sent>): seq<Message> {
    if sent == [] then [] else (if sent[0].Tcp? then [sent[0].message] else []) + TcpPart(sent[1..])
  }

  /** What the charger writes to a connection the vehicle has closed is lost; when the charger drops its
      end the vehicle's client is closed. */
  function SeSends(w: World, p: Pass, accept: bool): World {
    var sent := w.(se := p.s, udpToEv := w.udpToEv + UdpPart(p.sent), backlog := w.backlog && !accept,
                   toEv := if w.closed then w.toEv else w.toEv + TcpPart(p.sent));
    if w.se.hasClient && !p.s.hasClient
    then sent.(client := if w.closed then w.client else Closed, closed := false, toSe := [], toEv := [])
    else sent
  }

  function SeTurnStep(w: World, j: SeInput, udp: bool, tcp: bool, accept: bool): World {
    var r := SeReads(w, udp, tcp);
    SeSends(r, SeccSpec.Operate(r.se, Offered(r, j, accept)), accept)
  }

  // ---- Runs ----

  function Step(w: World, e: Event): World {
    match e
    case EvTurn(i, udp, tcp) => EvTurnStep(w, i, udp, tcp)
    case SeTurn(j, udp, tcp, accept) => SeTurnStep(w, j, udp, tcp, accept)
    case Establish => if w.client == Opening then w.(client := Connected, backlog := true) else w
    case SetMode(mode) => w.(ev := w.ev.(info := w.ev.info.(transferMode := mode)))
  }

  function Run(w: World, es: seq<Event>): World {
    if es == [] then w else Step(Run(w, es[..|es| - 1]), es[|es| - 1])
  }
}
