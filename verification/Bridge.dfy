/** The two threads of the Python `Bridge` and the environment, as a step relation: every
    interleaving of the CAN-to-TCP loop, the TCP manager with its receive loop, and `stop`.
    A step is what a thread does between two points where the other can be seen: one
    `bus.recv`, one locked access to `self.sock`, some bytes of one `sendall`, one `recv`,
    one record.

    Environment assumption: once a send on a connection has failed, that connection accepts
    no more bytes. Closing a connection is not assumed to stop a `sendall` in progress. */
module BridgeThreads {
  import opened Outcomes
  import opened Wire
  import opened Records
  import opened Framer

  /** The sending side of a connection: bytes accepted from `sendall` calls, and, as
      history, the bus frames whose last byte was accepted. */
  datatype Tx = Tx(sent: seq<byte>, whole: seq<nat>, failed: bool)

  /** The receiving side: bytes returned by `recv`, and, as history, what was decoded from
      them and given to `bus.send`, and whether a send raised other than a CanError. */
  datatype Rx = Rx(received: seq<byte>, offered: seq<Message>, raised: bool)

  datatype Conn = Conn(tx: Tx, rx: Rx, closed: bool)

  const NEW_TX := Tx([], [], false)
  const NEW_RX := Rx([], [], false)

  /** Where the CAN-to-TCP loop is. */
  datatype CanPc =
    | Waiting
    | Holding(frame: nat)
    | Sending(frame: nat, conn: nat, pos: nat)
    | CanStopped

  /** Where the TCP manager is. */
  datatype TcpPc =
    | Top
    | Connecting
    | Receiving(buf: seq<byte>)
    | InRecv(conn: nat, buf: seq<byte>)
    | Draining(conn: nat, buf: seq<byte>)
    | Closing
    | TcpStopped

  datatype State = State(
    bus: seq<Message>,      // received from the CAN bus so far
    lost: nat,              // history: how many of those the bridge has given up on
    busOut: seq<Message>,   // offered to the CAN bus so far
    conns: seq<Conn>,       // every connection so far, oldest first
    sock: Option<nat>,      // `self.sock`
    can: CanPc,
    tcp: TcpPc,
    stop: bool)             // `stop_event`

  const INITIAL := State([], 0, [], [], None, Waiting, Top, false)

  datatype Action =
    | BusRecv(msg: Message) | TakeSocket | SendSome(n: nat) | SendFails | Interrupt
    | SetStop | CloseShared
    | ManagerTop | ConnectOk | ConnectRaises | ConnectStopped
    | LoopHead | RecvChunk(bytes: seq<byte>) | RecvEnds | TakeRecord(outcome: BusOutcome)
    | CloseSock

  /** `frame_from_can` does not refuse the message, whatever the configuration. */
  predicate Encodable(m: Message) { FrameFromCan(m, false).Success? && FrameFromCan(m, true).Success? }

  function Payload(s: State, frame: nat, useFd: bool): seq<byte>
    requires frame < |s.bus| && Encodable(s.bus[frame])
  {
    FrameFromCan(s.bus[frame], useFd).value
  }

  predicate InRange(s: State) {
    && (s.sock.Some? ==> s.sock.value < |s.conns|)
    && (s.can.Holding? ==> s.can.frame < |s.bus| && Encodable(s.bus[s.can.frame]))
    && (s.can.Sending? ==> s.can.frame < |s.bus| && Encodable(s.bus[s.can.frame])
                           && s.can.conn < |s.conns|
                           && s.can.pos < HEADER + 2 + |s.bus[s.can.frame].data|)
    && (s.tcp.InRecv? || s.tcp.Draining? ==> s.tcp.conn < |s.conns|)
  }

  predicate Enabled(s: State, a: Action, useFd: bool)
    requires InRange(s)
  {
    match a
    case BusRecv(_) => s.can.Waiting?
    case TakeSocket => s.can.Holding?
    case SendSome(n) =>
      && s.can.Sending? && !s.conns[s.can.conn].tx.failed
      && 0 < n <= |Payload(s, s.can.frame, useFd)| - s.can.pos
    case SendFails => s.can.Sending?
    case Interrupt => true
    case SetStop => s.can.CanStopped?
    case CloseShared => s.stop
    case ManagerTop => s.tcp.Top?
    case ConnectOk => s.tcp.Connecting?
    case ConnectRaises => s.tcp.Connecting?
    case ConnectStopped => s.tcp.Connecting? && s.stop
    case LoopHead => s.tcp.Receiving?
    case RecvChunk(bytes) => s.tcp.InRecv? && bytes != []
    case RecvEnds => s.tcp.InRecv?
    case TakeRecord(_) => s.tcp.Draining?
    case CloseSock => s.tcp.Closing?
  }

  /** How many frames the CAN-to-TCP loop holds. */
  function InHand(can: CanPc): nat { if can.Holding? || can.Sending? then 1 else 0 }

  function Closed(conns: seq<Conn>, sock: Option<nat>): seq<Conn>
    requires sock.Some? ==> sock.value < |conns|
  {
    if sock.Some? then conns[sock.value := conns[sock.value].(closed := true)] else conns
  }

  function Do(s: State, a: Action, useFd: bool): State
    requires InRange(s) && Enabled(s, a, useFd)
  {
    match a
    case BusRecv(m) =>  // an unencodable message is logged and dropped
      if Encodable(m) then
        s.(bus := s.bus + [m], can := Holding(|s.bus|))
      else
        s.(bus := s.bus + [m], lost := s.lost + 1)
    case TakeSocket =>  // read under the lock; without a socket the frame is dropped
      if s.sock.None? then
        s.(can := Waiting, lost := s.lost + 1)
      else
        s.(can := Sending(s.can.frame, s.sock.value, 0))
    case SendSome(n) => DoSend(s, n, useFd)
    case SendFails =>
      var c := s.can.conn;
      s.(conns := s.conns[c := s.conns[c].(tx := s.conns[c].tx.(failed := true))],
         can := Waiting, lost := s.lost + 1)
    case Interrupt => s.(can := CanStopped, lost := s.lost + InHand(s.can))
    case SetStop => s.(stop := true)
    case CloseShared => s.(conns := Closed(s.conns, s.sock))
    case ManagerTop => s.(tcp := if s.stop then TcpStopped else Connecting)
    case ConnectOk =>
      s.(conns := Closed(s.conns, s.sock) + [Conn(NEW_TX, NEW_RX, false)], sock := Some(|s.conns|),
         tcp := Receiving([]))
    case ConnectRaises => s.(tcp := Closing)
    case ConnectStopped => s.(tcp := Receiving([]))
    case LoopHead =>
      s.(tcp := if s.stop || s.sock.None? then Closing else InRecv(s.sock.value, s.tcp.buf))
    case RecvChunk(bytes) =>
      var c := s.tcp.conn;
      var rx := s.conns[c].rx;
      s.(conns := s.conns[c := s.conns[c].(rx := rx.(received := rx.received + bytes))],
         tcp := Draining(c, s.tcp.buf + bytes))
    case RecvEnds => s.(tcp := Closing)
    case TakeRecord(outcome) => DoRecord(s, outcome)
    case CloseSock => s.(conns := Closed(s.conns, s.sock), sock := None, tcp := Top)
  }

  function DoSend(s: State, n: nat, useFd: bool): State
    requires InRange(s) && Enabled(s, SendSome(n), useFd)
  {
    var Sending(i, c, p) := s.can;
    var payload, tx := Payload(s, i, useFd), s.conns[c].tx;
    var written := tx.(sent := tx.sent + payload[p..p + n]);
    if p + n == |payload| then
      s.(conns := s.conns[c := s.conns[c].(tx := written.(whole := tx.whole + [i]))], can := Waiting)
    else
      s.(conns := s.conns[c := s.conns[c].(tx := written)], can := Sending(i, c, p + n))
  }

  function DoRecord(s: State, outcome: BusOutcome): State
    requires InRange(s) && s.tcp.Draining?
  {
    var Draining(c, buf) := s.tcp;
    if Incomplete(buf) then
      s.(tcp := Receiving(buf))
    else
      var total := 2 + Read16(buf);
      var msg := CanFromFrame(buf[2..total]);
      if msg.Failure? then
        s.(tcp := Closing)
      else
        var rx := s.conns[c].rx;
        var rx' := rx.(offered := rx.offered + [msg.value], raised := rx.raised || outcome.Raised?);
        s.(busOut := s.busOut + [msg.value], conns := s.conns[c := s.conns[c].(rx := rx')],
           tcp := if outcome.Raised? then Closing else Draining(c, buf[total..]))
  }

  lemma DoInRange(s: State, a: Action, useFd: bool)
    requires InRange(s) && Enabled(s, a, useFd)
    ensures InRange(Do(s, a, useFd))
  {
  }

  /** The state after a run of actions, each enabled when it is taken. */
  ghost predicate Run(actions: seq<Action>, s: State, useFd: bool)
    decreases |actions|
  {
    if actions == [] then
      s == INITIAL
    else
      var last := |actions| - 1;
      exists t: State :: Run(actions[..last], t, useFd) && InRange(t)
                         && Enabled(t, actions[last], useFd) && s == Do(t, actions[last], useFd)
  }
}
