/** The main results about the Python bridge: they hold after every run of the two threads,
    whatever the peers, the bus and the network do. */
module BridgeTheorems {
  import opened Sequences
  import opened Outcomes
  import opened Wire
  import opened Records
  import opened Framer
  import opened BridgeThreads
  import opened BridgeSend
  import opened BridgeReceive

  predicate SocketInv(s: State) {
    && InRange(s)
    && (s.sock.Some? ==> s.sock.value == |s.conns| - 1)
    && (forall c :: 0 <= c < |s.conns| && s.sock != Some(c) ==> s.conns[c].closed)
    && (s.sock.Some? && !s.stop ==> !s.conns[s.sock.value].closed)
    && (s.tcp.Top? || s.tcp.Connecting? || s.tcp.TcpStopped? ==> s.sock.None?)
    && (s.tcp.InRecv? || s.tcp.Draining? ==> s.sock == Some(s.tcp.conn))
  }

  ghost predicate Inv(s: State, useFd: bool) {
    && SocketInv(s)
    && SendInv(s.bus, Txs(s.conns), s.can, s.lost, useFd)
    && RecvInv(Rxs(s.conns), s.sock, s.tcp, s.busOut)
  }

  predicate ByCanThread(a: Action) {
    a.BusRecv? || a.TakeSocket? || a.SendSome? || a.SendFails? || a.Interrupt? || a.SetStop?
  }

  lemma SocketStep(s: State, a: Action, useFd: bool)
    requires SocketInv(s) && Enabled(s, a, useFd)
    ensures SocketInv(Do(s, a, useFd))
  {
    hide CanFromFrame, Incomplete, Framed, RecordOf;
    DoInRange(s, a, useFd);
  }

  lemma SendSomeStep(s: State, n: nat, useFd: bool)
    requires Inv(s, useFd) && Enabled(s, SendSome(n), useFd)
    ensures var s' := Do(s, SendSome(n), useFd);
            SendInv(s'.bus, Txs(s'.conns), s'.can, s'.lost, useFd)
  {
    hide SendInv, RecvInv, CanFromFrame, Split, Flatten, RecordOf, Framed;
    var s', txs := Do(s, SendSome(n), useFd), Txs(s.conns);
    var payload, tx := Payload(s, s.can.frame, useFd), txs[s.can.conn];
    var written := tx.(sent := tx.sent + payload[s.can.pos..s.can.pos + n]);
    if s.can.pos + n == |payload| {
      SendLast(s.bus, txs, s.can, s.lost, n, useFd);
      assert Txs(s'.conns) == txs[s.can.conn := written.(whole := tx.whole + [s.can.frame])];
    } else {
      SendMiddle(s.bus, txs, s.can, s.lost, n, useFd);
      assert Txs(s'.conns) == txs[s.can.conn := written];
    }
  }

  lemma {:induction false} CanStep(s: State, a: Action, useFd: bool)
    requires Inv(s, useFd) && Enabled(s, a, useFd) && ByCanThread(a)
    ensures Inv(Do(s, a, useFd), useFd)
  {
    hide SendInv, RecvInv, CanFromFrame, Split, Flatten, RecordOf, Framed, DoRecord;
    var s' := Do(s, a, useFd);
    SocketStep(s, a, useFd);
    assert Rxs(s'.conns) == Rxs(s.conns);
    var txs := Txs(s.conns);
    if a.SendSome? {
      SendSomeStep(s, a.n, useFd);
    } else if a.SendFails? {
      FailStep(s.bus, txs, s.can, s.lost, useFd);
      assert Txs(s'.conns) == txs[s.can.conn := txs[s.can.conn].(failed := true)];
    } else if !a.SetStop? {
      assert Txs(s'.conns) == txs;
      QuietStep(s.bus, txs, s.can, s.lost, useFd, s'.bus, s'.can, s'.lost);
    }
  }

  lemma {:induction false} TcpStep(s: State, a: Action, useFd: bool)
    requires Inv(s, useFd) && Enabled(s, a, useFd) && !ByCanThread(a)
    ensures Inv(Do(s, a, useFd), useFd)
  {
    hide SendInv, CanFromFrame, Split, Flatten, RecordOf, Framed, Live, Settled, Incomplete;
    var s' := Do(s, a, useFd);
    SocketStep(s, a, useFd);
    var txs, rxs := Txs(s.conns), Rxs(s.conns);
    if a.ConnectOk? {
      assert Txs(s'.conns) == txs + [NEW_TX] && Rxs(s'.conns) == rxs + [NEW_RX];
      ConnectStep(s.bus, txs, s.can, s.lost, useFd);
      NewStep(rxs, s.tcp, s.busOut);
    } else {
      assert Txs(s'.conns) == txs;
      if a.RecvChunk? {
        ReceiveStep(s, a.bytes, useFd);
      } else if a.TakeRecord? {
        TakeStep(s, a.outcome);
      } else {
        assert Rxs(s'.conns) == rxs;
      }
    }
  }

  lemma {:induction false} RunInv(actions: seq<Action>, s: State, useFd: bool)
    requires Run(actions, s, useFd)
    ensures Inv(s, useFd)
    decreases |actions|
  {
    if actions != [] {
      hide Inv, Do, Enabled, InRange;
      var last := |actions| - 1;
      var t: State :| Run(actions[..last], t, useFd) && InRange(t)
                      && Enabled(t, actions[last], useFd) && s == Do(t, actions[last], useFd);
      RunInv(actions[..last], t, useFd);
      if ByCanThread(actions[last]) {
        CanStep(t, actions[last], useFd);
      } else {
        TcpStep(t, actions[last], useFd);
      }
    }
  }

  /** At most one connection is ever open, `self.sock` is never an old one, and a new
      connection is published only when `self.sock` is empty. */
  lemma {:induction false} OneOpenConnection(actions: seq<Action>, s: State, useFd: bool)
    requires Run(actions, s, useFd)
    ensures forall c, d | 0 <= c < |s.conns| && 0 <= d < |s.conns| ::
              !s.conns[c].closed && !s.conns[d].closed ==> c == d
    ensures s.sock.Some? ==> s.sock.value == |s.conns| - 1
    ensures s.tcp.Connecting? ==> s.sock.None? && forall c :: 0 <= c < |s.conns| ==> s.conns[c].closed
  {
    RunInv(actions, s, useFd);
    hide SendInv, RecvInv;
  }

  // ---- Sending ----------------------------------------------------------------------

  lemma PartialIsIncomplete(bus: seq<Message>, tail: seq<byte>, useFd: bool)
    requires PartialFrame(bus, tail, useFd)
    ensures Incomplete(tail)
  {
    if tail != [] {
      var j: nat :| j < |bus| && Encodable(bus[j]) && tail < Framed(RecordOf(bus[j], useFd));
      var r := RecordOf(bus[j], useFd);
      if |tail| >= 2 {
        assert tail[0] == Framed(r)[0] == Be16(|r|)[0] && tail[1] == Framed(r)[1] == Be16(|r|)[1];
        assert Read16(tail) == |r|;
      }
    }
  }

  /** The bytes of a connection, read by the stream grammar. */
  lemma ReadsAs(bus: seq<Message>, tx: Tx, c: nat, can: CanPc, useFd: bool)
    requires TxOk(bus, tx, c, can, useFd)
    ensures Frames(bus, tx.whole)
    ensures Split(tx.sent).records == RecordsAt(bus, tx.whole, useFd)
    ensures PartialFrame(bus, Split(tx.sent).rest, useFd)
  {
    hide Split, RecordOf, PartialFrame;
    var tail :| Carries(bus, tx, tail, useFd);
    PartialIsIncomplete(bus, tail, useFd);
    SplitUnique(RecordsAt(bus, tx.whole, useFd), tail);
  }

  lemma {:induction false} FlattenRecords(bus: seq<Message>, parts: seq<seq<nat>>,
                                          records: seq<seq<seq<byte>>>, useFd: bool)
    requires |parts| == |records|
    requires forall c :: 0 <= c < |parts| ==>
               Frames(bus, parts[c]) && records[c] == RecordsAt(bus, parts[c], useFd)
    ensures Frames(bus, Flatten(parts))
    ensures Flatten(records) == RecordsAt(bus, Flatten(parts), useFd)
  {
    hide RecordOf;
    if parts != [] {
      FlattenRecords(bus, parts[1..], records[1..], useFd);
      assert RecordsAt(bus, parts[0] + Flatten(parts[1..]), useFd)
          == RecordsAt(bus, parts[0], useFd) + RecordsAt(bus, Flatten(parts[1..]), useFd);
    }
  }

  function SentRecords(conns: seq<Conn>): seq<seq<seq<byte>>> {
    seq(|conns|, c requires 0 <= c < |conns| => Split(conns[c].tx.sent).records)
  }

  /** Over all connections in order, the whole records written are the encodings of bus
      frames at increasing positions: in bus order, each at most once. Every bus frame is
      among them except those given up on and the one in hand. */
  lemma {:induction false} Delivery(actions: seq<Action>, s: State, useFd: bool)
    requires Run(actions, s, useFd)
    ensures exists idx :: Frames(s.bus, idx) && Increasing(idx)
                          && |idx| + s.lost + InHand(s.can) == |s.bus|
                          && Flatten(SentRecords(s.conns)) == RecordsAt(s.bus, idx, useFd)
  {
    hide RecvInv, SocketInv, Split, PartialFrame, TxOk, RecordsAt, Frames, Increasing, Flatten, Run;
    RunInv(actions, s, useFd);
    var txs := Txs(s.conns);
    forall c | 0 <= c < |s.conns|
      ensures Frames(s.bus, Wholes(txs)[c])
      ensures SentRecords(s.conns)[c] == RecordsAt(s.bus, Wholes(txs)[c], useFd)
    {
      ReadsAs(s.bus, txs[c], c, s.can, useFd);
    }
    FlattenRecords(s.bus, Wholes(txs), SentRecords(s.conns), useFd);
  }

  /** What a connection carries after its whole records is nothing or a strict prefix of the
      framing of one bus frame. */
  lemma {:induction false} WholeThenPartial(actions: seq<Action>, s: State, useFd: bool)
    requires Run(actions, s, useFd)
    ensures forall c :: 0 <= c < |s.conns| ==>
              PartialFrame(s.bus, Split(s.conns[c].tx.sent).rest, useFd)
  {
    hide RecvInv, SocketInv, Split, PartialFrame, TxOk, Flatten, Run;
    RunInv(actions, s, useFd);
    forall c | 0 <= c < |s.conns| ensures PartialFrame(s.bus, Split(s.conns[c].tx.sent).rest, useFd) {
      ReadsAs(s.bus, Txs(s.conns)[c], c, s.can, useFd);
    }
  }

  lemma {:induction false} AtLeastPosition(idx: seq<nat>, k: nat)
    requires Increasing(idx) && k < |idx|
    ensures k <= idx[k]
  {
    if k > 0 { AtLeastPosition(idx, k - 1); }
  }

  lemma {:induction false} IncreasingFull(idx: seq<nat>, k: nat)
    requires Increasing(idx) && Below(idx, |idx|) && k < |idx|
    ensures idx[k] == k
    decreases |idx| - k
  {
    AtLeastPosition(idx, k);
    if k + 1 < |idx| { IncreasingFull(idx, k + 1); }
  }

  function Positions(n: nat): seq<nat> { seq(n, i => i) }

  lemma AllPositions(idx: seq<nat>)
    requires Increasing(idx) && Below(idx, |idx|)
    ensures idx == Positions(|idx|)
  {
    forall i | 0 <= i < |idx| ensures idx[i] == i {
      IncreasingFull(idx, i);
    }
  }

  lemma FramesBelow(bus: seq<Message>, idx: seq<nat>)
    requires Frames(bus, idx)
    ensures Below(idx, |bus|)
  {
  }

  // ---- When nothing is lost -----------------------------------------------------------

  /** The frames that came from the CAN bus. */
  function BusFrames(actions: seq<Action>): seq<Message> {
    if actions == [] then
      []
    else
      var a := actions[|actions| - 1];
      BusFrames(actions[..|actions| - 1]) + if a.BusRecv? then [a.msg] else []
  }

  /** The last connection made has not been closed and forgotten. */
  predicate Up(actions: seq<Action>) {
    actions != [] &&
    (actions[|actions| - 1].ConnectOk? ||
     (!actions[|actions| - 1].CloseSock? && Up(actions[..|actions| - 1])))
  }

  /** How many bytes of the frame in hand are still to be accepted. */
  function Remaining(actions: seq<Action>): nat {
    if actions == [] then
      0
    else
      var before, a := actions[..|actions| - 1], actions[|actions| - 1];
      var n := Remaining(before);
      match a
      case BusRecv(m) => if Encodable(m) then 2 + HEADER + |m.data| else 0
      case TakeSocket => if Up(before) then n else 0
      case SendSome(k) => if k <= n then n - k else 0
      case SendFails => 0
      case Interrupt => 0
      case _ => n
  }

  /** The step `a` after `before` loses a frame: one too long for the wire, one taken up while
      there is no connection, one whose send fails, or one in hand at an interrupt. */
  predicate Lossy(before: seq<Action>, a: Action) {
    match a
    case BusRecv(m) => !Encodable(m)
    case TakeSocket => !Up(before)
    case SendFails => true
    case Interrupt => Remaining(before) > 0
    case _ => false
  }

  function Losses(actions: seq<Action>): nat {
    if actions == [] then
      0
    else
      var before := actions[..|actions| - 1];
      Losses(before) + if Lossy(before, actions[|actions| - 1]) then 1 else 0
  }

  /** Bytes to go, by the state. */
  function ToGo(s: State, useFd: bool): nat
    requires InRange(s)
  {
    match s.can
    case Holding(i) => |Payload(s, i, useFd)|
    case Sending(i, c, p) => |Payload(s, i, useFd)| - p
    case _ => 0
  }

  ghost predicate History(s: State, actions: seq<Action>, useFd: bool)
    requires InRange(s)
  {
    && s.bus == BusFrames(actions)
    && (s.sock.Some? <==> Up(actions))
    && ToGo(s, useFd) == Remaining(actions)
    && s.lost == Losses(actions)
  }

  lemma HistoryNext(before: seq<Action>, a: Action)
    ensures BusFrames(before + [a]) == BusFrames(before) + if a.BusRecv? then [a.msg] else []
    ensures Up(before + [a]) <==> a.ConnectOk? || (!a.CloseSock? && Up(before))
    ensures Losses(before + [a]) == Losses(before) + if Lossy(before, a) then 1 else 0
    ensures Remaining(before + [a])
            == match a
               case BusRecv(m) => if Encodable(m) then 2 + HEADER + |m.data| else 0
               case TakeSocket => if Up(before) then Remaining(before) else 0
               case SendSome(k) => if k <= Remaining(before) then Remaining(before) - k else 0
               case SendFails => 0
               case Interrupt => 0
               case _ => Remaining(before)
  {
    assert (before + [a])[..|before|] == before;
  }

  lemma SendTells(t: State, n: nat, useFd: bool)
    requires InRange(t) && Enabled(t, SendSome(n), useFd)
    ensures var s := DoSend(t, n, useFd);
            && s.bus == t.bus && s.sock == t.sock && s.lost == t.lost
            && InRange(s) && ToGo(s, useFd) == ToGo(t, useFd) - n
  {
    hide Be16, Be32, Flags;
  }

  lemma RecordTells(t: State, outcome: BusOutcome, useFd: bool)
    requires InRange(t) && t.tcp.Draining?
    ensures var s := DoRecord(t, outcome);
            && s.bus == t.bus && s.sock == t.sock && s.lost == t.lost
            && InRange(s) && ToGo(s, useFd) == ToGo(t, useFd)
  {
    hide CanFromFrame, Incomplete, Framed, RecordOf;
  }

  lemma StepHistory(t: State, before: seq<Action>, a: Action, useFd: bool)
    requires InRange(t) && Enabled(t, a, useFd) && History(t, before, useFd)
    ensures InRange(Do(t, a, useFd)) && History(Do(t, a, useFd), before + [a], useFd)
  {
    hide Be16, Be32, Flags, CanFromFrame, Incomplete, DoSend, DoRecord;
    HistoryNext(before, a);
    hide BusFrames, Up, Losses, Remaining;
    DoInRange(t, a, useFd);
    if a.SendSome? {
      SendTells(t, a.n, useFd);
    } else if a.TakeRecord? {
      RecordTells(t, a.outcome, useFd);
    }
  }

  /** The run's history is what happened: the bus frames are all there, there is a socket
      exactly while a connection is up, and the frames given up on are exactly those lost by
      a lossy step. */
  lemma {:induction false} RunHistory(actions: seq<Action>, s: State, useFd: bool)
    requires Run(actions, s, useFd)
    ensures s.bus == BusFrames(actions) && (s.sock.Some? <==> Up(actions)) && s.lost == Losses(actions)
    ensures InRange(s) && History(s, actions, useFd)
  {
    if actions == [] {
      assert History(INITIAL, [], useFd);
    } else {
      hide Do, Enabled, InRange, History, Run;
      var before, a := actions[..|actions| - 1], actions[|actions| - 1];
      var t := LastStep(actions, s, useFd);
      RunHistory(before, t, useFd);
      assert before + [a] == actions;
      StepHistory(t, before, a, useFd);
      HistoryMeans(s, actions, useFd);
    }
  }

  lemma HistoryMeans(s: State, actions: seq<Action>, useFd: bool)
    requires InRange(s) && History(s, actions, useFd)
    ensures s.bus == BusFrames(actions) && (s.sock.Some? <==> Up(actions)) && s.lost == Losses(actions)
  {
  }

  lemma LastStep(actions: seq<Action>, s: State, useFd: bool) returns (t: State)
    requires Run(actions, s, useFd) && actions != []
    ensures InRange(t) && Run(actions[..|actions| - 1], t, useFd)
    ensures Enabled(t, actions[|actions| - 1], useFd) && s == Do(t, actions[|actions| - 1], useFd)
  {
    hide Do, Enabled, InRange;
    var last := |actions| - 1;
    t :| Run(actions[..last], t, useFd) && InRange(t)
         && Enabled(t, actions[last], useFd) && s == Do(t, actions[last], useFd);
  }

  /** With no frame in hand, the connections together carry the encoding of every bus frame,
      in bus order, if and only if no step of the run was lossy. */
  lemma {:induction false} NothingLost(actions: seq<Action>, s: State, useFd: bool)
    requires Run(actions, s, useFd) && InHand(s.can) == 0
    ensures var bus := BusFrames(actions);
            Losses(actions) == 0 <==>
              && Frames(bus, Positions(|bus|))
              && Flatten(SentRecords(s.conns)) == RecordsAt(bus, Positions(|bus|), useFd)
  {
    hide Split, RecordOf, Flatten, Run, SentRecords, InHand, RecordsAt, Frames, Increasing, Losses, BusFrames;
    RunHistory(actions, s, useFd);
    Delivery(actions, s, useFd);
    var idx :| Frames(s.bus, idx) && Increasing(idx) && |idx| + s.lost + InHand(s.can) == |s.bus|
               && Flatten(SentRecords(s.conns)) == RecordsAt(s.bus, idx, useFd);
    if Losses(actions) == 0 {
      FramesBelow(s.bus, idx);
      AllPositions(idx);
    }
  }

  // ---- Receiving --------------------------------------------------------------------

  /** The bytes received, connection by connection. */
  function Streams(actions: seq<Action>): seq<seq<byte>> {
    if actions == [] then
      []
    else
      var before, a := Streams(actions[..|actions| - 1]), actions[|actions| - 1];
      if a.ConnectOk? then before + [[]]
      else if a.RecvChunk? then Longer(before, a.bytes)
      else before
  }

  /** More bytes on the last connection. */
  function Longer(streams: seq<seq<byte>>, bytes: seq<byte>): seq<seq<byte>> {
    var last := |streams| - 1;
    if streams == [] then [] else streams[..last] + [streams[last] + bytes]
  }

  function ReceivedOn(conns: seq<Conn>): seq<seq<byte>> {
    seq(|conns|, c requires 0 <= c < |conns| => conns[c].rx.received)
  }

  lemma StreamsNext(before: seq<Action>, a: Action)
    ensures var r := Streams(before);
            Streams(before + [a]) == if a.ConnectOk? then r + [[]] else if a.RecvChunk? then Longer(r, a.bytes) else r
  {
    assert (before + [a])[..|before|] == before;
  }

  lemma QuietStreams(t: State, a: Action, useFd: bool)
    requires InRange(t) && Enabled(t, a, useFd) && !a.ConnectOk? && !a.RecvChunk?
    ensures ReceivedOn(Do(t, a, useFd).conns) == ReceivedOn(t.conns)
  {
    hide Framed, RecordOf, CanFromFrame, Incomplete;
  }

  lemma StepStreams(t: State, before: seq<Action>, a: Action, useFd: bool)
    requires SocketInv(t) && Enabled(t, a, useFd) && ReceivedOn(t.conns) == Streams(before)
    ensures ReceivedOn(Do(t, a, useFd).conns) == Streams(before + [a])
  {
    StreamsNext(before, a);
    hide Streams, Framed, RecordOf, DoSend, DoRecord;
    var r := ReceivedOn(t.conns);
    if a.ConnectOk? {
      assert ReceivedOn(Do(t, a, useFd).conns) == r + [[]];
    } else if a.RecvChunk? {
      assert ReceivedOn(Do(t, a, useFd).conns) == Longer(r, a.bytes);
    } else {
      QuietStreams(t, a, useFd);
    }
  }

  lemma {:induction false} RunStreams(actions: seq<Action>, s: State, useFd: bool)
    requires Run(actions, s, useFd)
    ensures ReceivedOn(s.conns) == Streams(actions)
  {
    if actions == [] {
      assert ReceivedOn(INITIAL.conns) == Streams([]);
    } else {
      hide Do, Enabled, InRange, Streams, ReceivedOn, SocketInv, Run;
      var last := |actions| - 1;
      var before, a := actions[..last], actions[last];
      var t := LastStep(actions, s, useFd);
      RunSocket(before, t, useFd);
      RunStreams(before, t, useFd);
      assert before + [a] == actions;
      StepStreams(t, before, a, useFd);
    }
  }

  lemma {:induction false} RunSocket(actions: seq<Action>, s: State, useFd: bool)
    requires Run(actions, s, useFd)
    ensures SocketInv(s)
  {
    RunInv(actions, s, useFd);
    hide SendInv, RecvInv, SocketInv;
  }

  /** What goes out on the CAN bus is, connection by connection, the decodings of the
      records received on it up to the first malformed one: all of them once the buffer of
      that connection is drained, unless a `bus.send` raised; nothing received on one
      connection is completed by bytes of the next. */
  lemma {:induction false} Reception(actions: seq<Action>, s: State, useFd: bool)
    requires Run(actions, s, useFd)
    ensures s.busOut == Flatten(Offers(Rxs(s.conns)))
    ensures |s.conns| == |Streams(actions)|
    ensures forall c :: 0 <= c < |s.conns| ==>
              s.conns[c].rx.offered <= Readable(Split(Streams(actions)[c]).records)
    ensures forall c :: 0 <= c < |s.conns| && !s.conns[c].rx.raised
                        && !(s.tcp.Draining? && s.tcp.conn == c) ==>
              s.conns[c].rx.offered == Readable(Split(Streams(actions)[c]).records)
  {
    RunInv(actions, s, useFd);
    RunStreams(actions, s, useFd);
    hide SendInv, Split, CanFromFrame, Readable, Streams;
    forall c | 0 <= c < |s.conns|
      ensures s.conns[c].rx.received == Streams(actions)[c]
      ensures s.conns[c].rx.offered <= Readable(Split(s.conns[c].rx.received).records)
      ensures !s.conns[c].rx.raised && !(s.tcp.Draining? && s.tcp.conn == c) ==>
                s.conns[c].rx.offered == Readable(Split(s.conns[c].rx.received).records)
    {
      assert ReceivedOn(s.conns)[c] == s.conns[c].rx.received;
      var rx := Rxs(s.conns)[c];
      ReadableIs(RecordsIn(rx), rx.offered);
    }
  }

  /** With a bus that never raises, the sequential receive loop offers the readable part. */
  lemma {:induction false} OfferedIsReadable(records: seq<seq<byte>>, bus: nat -> BusOutcome, n: nat)
    requires forall j: nat :: !bus(j).Raised?
    ensures Offered(Decoded(records), bus, n) == Readable(records)
  {
    hide CanFromFrame;
    if records != [] {
      assert Decoded(records)[1..] == Decoded(records[1..]);
      OfferedIsReadable(records[1..], bus, n + 1);
    }
  }

  // ---- End to end -------------------------------------------------------------------

  function MessagesAt(bus: seq<Message>, idx: seq<nat>, useFd: bool): seq<Message>
    requires Frames(bus, idx)
  {
    seq(|idx|, k requires 0 <= k < |idx| => Normalise(bus[idx[k]], useFd))
  }

  lemma {:induction false} EncodedReadable(bus: seq<Message>, idx: seq<nat>, useFd: bool)
    requires Frames(bus, idx)
    ensures Readable(RecordsAt(bus, idx, useFd)) == MessagesAt(bus, idx, useFd)
  {
    hide CanFromFrame, RecordOf, Normalise;
    var records, ms := RecordsAt(bus, idx, useFd), MessagesAt(bus, idx, useFd);
    forall k | 0 <= k < |idx| ensures CanFromFrame(records[k]) == Success(ms[k]) {
      RoundTrip(bus[idx[k]], useFd);
    }
    ReadableIs(records, ms);
  }

  lemma {:induction false} FlattenTruncated(parts: seq<seq<nat>>, cut: seq<seq<nat>>)
    requires |cut| <= |parts| && forall c :: 0 <= c < |cut| ==> cut[c] <= parts[c]
    requires Increasing(Flatten(parts))
    ensures Increasing(Flatten(cut))
    ensures forall k :: 0 <= k < |Flatten(cut)| ==> Flatten(cut)[k] in Flatten(parts)
  {
    if cut != [] {
      var rest, rest' := Flatten(parts[1..]), Flatten(cut[1..]);
      var all, all' := Flatten(parts), Flatten(cut);
      assert all == parts[0] + rest && all' == cut[0] + rest';
      assert forall k :: 0 <= k < |rest| ==> rest[k] == all[|parts[0]| + k];
      FlattenTruncated(parts[1..], cut[1..]);
      assert forall k :: 0 <= k < |cut[0]| ==> cut[0][k] == all[k];
      assert forall k :: 0 <= k < |rest'| ==> rest'[k] in rest;
      forall j, k | 0 <= j < k < |all'| ensures all'[j] < all'[k] {
        if j < |cut[0]| <= k {
          var d :| 0 <= d < |rest| && rest[d] == rest'[k - |cut[0]|];
          assert all[j] < all[|parts[0]| + d];
        }
      }
    }
  }

  function HeardMessages(heard: seq<seq<byte>>): seq<seq<Message>> {
    seq(|heard|, c requires 0 <= c < |heard| => Readable(Split(heard[c]).records))
  }

  lemma {:induction false} FlattenMessages(bus: seq<Message>, parts: seq<seq<nat>>,
                                           ms: seq<seq<Message>>, useFd: bool)
    requires |parts| == |ms|
    requires forall c :: 0 <= c < |parts| ==>
               Frames(bus, parts[c]) && ms[c] == MessagesAt(bus, parts[c], useFd)
    ensures Frames(bus, Flatten(parts))
    ensures Flatten(ms) == MessagesAt(bus, Flatten(parts), useFd)
  {
    hide Normalise;
    if parts != [] {
      FlattenMessages(bus, parts[1..], ms[1..], useFd);
      assert MessagesAt(bus, parts[0] + Flatten(parts[1..]), useFd)
          == MessagesAt(bus, parts[0], useFd) + MessagesAt(bus, Flatten(parts[1..]), useFd);
    }
  }

  /** What a peer hears of one connection, if it hears a prefix of its bytes. */
  lemma HeardOf(bus: seq<Message>, tx: Tx, c: nat, can: CanPc, heard: seq<byte>, useFd: bool) returns (n: nat)
    requires TxOk(bus, tx, c, can, useFd) && heard <= tx.sent
    ensures n == |Split(heard).records| <= |tx.whole| && Frames(bus, tx.whole[..n])
    ensures Readable(Split(heard).records) == MessagesAt(bus, tx.whole[..n], useFd)
    ensures heard == tx.sent ==> n == |tx.whole|
  {
    hide Split, Readable, Normalise, RecordOf, TxOk;
    ReadsAs(bus, tx, c, can, useFd);
    SplitPrefix(heard, tx.sent);
    n := |Split(heard).records|;
    assert RecordsAt(bus, tx.whole[..n], useFd) == Split(heard).records;
    EncodedReadable(bus, tx.whole[..n], useFd);
  }

  lemma {:induction false} CutsOf(bus: seq<Message>, txs: seq<Tx>, can: CanPc,
                                  heard: seq<seq<byte>>, useFd: bool) returns (cut: seq<seq<nat>>)
    requires |heard| <= |txs| && forall c :: 0 <= c < |txs| ==> TxOk(bus, txs[c], c, can, useFd)
    requires forall c :: 0 <= c < |heard| ==> heard[c] <= txs[c].sent
    ensures |cut| == |heard| && forall c :: 0 <= c < |cut| ==> cut[c] <= txs[c].whole
    ensures forall c :: 0 <= c < |cut| ==>
              && |cut[c]| == |Split(heard[c]).records|
              && Frames(bus, cut[c]) && HeardMessages(heard)[c] == MessagesAt(bus, cut[c], useFd)
    ensures forall c :: 0 <= c < |cut| && heard[c] == txs[c].sent ==> cut[c] == txs[c].whole
    decreases |heard|
  {
    hide Split, Readable, TxOk, Frames, MessagesAt;
    cut := [];
    if heard != [] {
      var last := |heard| - 1;
      cut := CutsOf(bus, txs, can, heard[..last], useFd);
      var n := HeardOf(bus, txs[last], last, can, heard[last], useFd);
      cut := cut + [txs[last].whole[..n]];
    }
  }

  /** End to end, across any reconnects: if the peer receives, on each connection, some prefix
      of the bytes accepted on it, then the messages it decodes are the normal forms of bus
      frames at increasing positions, in order and never twice; and every record it completes
      decodes. */
  lemma {:induction false} EndToEnd(actions: seq<Action>, s: State, useFd: bool, heard: seq<seq<byte>>)
    requires Run(actions, s, useFd)
    requires |heard| <= |s.conns| && forall c :: 0 <= c < |heard| ==> heard[c] <= s.conns[c].tx.sent
    ensures exists idx :: Frames(s.bus, idx) && Increasing(idx)
                          && Flatten(HeardMessages(heard)) == MessagesAt(s.bus, idx, useFd)
    ensures forall c :: 0 <= c < |heard| ==> |HeardMessages(heard)[c]| == |Split(heard[c]).records|
  {
    RunInv(actions, s, useFd);
    hide RecvInv, SocketInv, Split, Readable, TxOk, Frames, MessagesAt, HeardMessages, Flatten;
    var txs := Txs(s.conns);
    var cut := CutsOf(s.bus, txs, s.can, heard, useFd);
    forall c | 0 <= c < |heard| ensures |HeardMessages(heard)[c]| == |Split(heard[c]).records| {
      MessagesCount(s.bus, cut[c], useFd);
    }
    FlattenTruncated(Wholes(txs), cut);
    FlattenMessages(s.bus, cut, HeardMessages(heard), useFd);
  }

  lemma MessagesCount(bus: seq<Message>, idx: seq<nat>, useFd: bool)
    requires Frames(bus, idx)
    ensures |MessagesAt(bus, idx, useFd)| == |idx|
  {
  }

  // ---- Two bridges ----------------------------------------------------------------------

  /** The second bridge has received, on its c-th connection, some prefix of what the first has
      sent on its own c-th. */
  predicate Linked(conns: seq<Conn>, received: seq<seq<byte>>) {
    |received| <= |conns| && forall c :: 0 <= c < |received| ==> received[c] <= conns[c].tx.sent
  }

  /** Connection by connection, what the second bridge has offered to its bus are messages at
      the first positions of what the first has carried; all, if it has received everything,
      its loop is at rest and no send of its raised. */
  lemma {:induction false} OfferedCuts(bus: seq<Message>, txs: seq<Tx>, can: CanPc, fd1: bool,
                                       actions2: seq<Action>, s2: State, fd2: bool)
    returns (cut: seq<seq<nat>>)
    requires forall c :: 0 <= c < |txs| ==> TxOk(bus, txs[c], c, can, fd1)
    requires Run(actions2, s2, fd2) && |Streams(actions2)| <= |txs|
    requires forall c :: 0 <= c < |Streams(actions2)| ==> Streams(actions2)[c] <= txs[c].sent
    ensures |cut| == |s2.conns| == |Streams(actions2)|
    ensures forall c :: 0 <= c < |cut| ==> cut[c] <= txs[c].whole
    ensures forall c :: 0 <= c < |cut| ==>
              Frames(bus, cut[c]) && s2.conns[c].rx.offered == MessagesAt(bus, cut[c], fd1)
    ensures forall c :: 0 <= c < |cut| && Streams(actions2)[c] == txs[c].sent
                        && !s2.conns[c].rx.raised && !(s2.tcp.Draining? && s2.tcp.conn == c) ==>
              cut[c] == txs[c].whole
  {
    hide Run, Split, Readable, TxOk, Streams;
    var heard := Streams(actions2);
    Reception(actions2, s2, fd2);
    var all := CutsOf(bus, txs, can, heard, fd1);
    cut := seq(|all|, c requires 0 <= c < |all| =>
      if |s2.conns[c].rx.offered| <= |all[c]| then all[c][..|s2.conns[c].rx.offered|] else all[c]);
    forall c | 0 <= c < |cut|
      ensures Frames(bus, cut[c]) && s2.conns[c].rx.offered == MessagesAt(bus, cut[c], fd1)
    {
      assert s2.conns[c].rx.offered <= HeardMessages(heard)[c] == MessagesAt(bus, all[c], fd1);
    }
  }

  /** Two bridges, any runs of both, whatever is still under way or was cut off: what the second
      offers to its bus are the normal forms of frames of the first one's bus, at increasing
      positions, in order and never twice. */
  lemma {:induction false} TwoBridges(actions1: seq<Action>, s1: State, fd1: bool,
                                      actions2: seq<Action>, s2: State, fd2: bool)
    requires Run(actions1, s1, fd1) && Run(actions2, s2, fd2) && Linked(s1.conns, Streams(actions2))
    ensures exists idx :: Frames(s1.bus, idx) && Increasing(idx) && s2.busOut == MessagesAt(s1.bus, idx, fd1)
  {
    hide Run, RecvInv, SocketInv, Split, Readable, TxOk, Frames, MessagesAt, Flatten, Streams;
    RunInv(actions1, s1, fd1);
    Reception(actions2, s2, fd2);
    var txs := Txs(s1.conns);
    var cut := OfferedCuts(s1.bus, txs, s1.can, fd1, actions2, s2, fd2);
    FlattenTruncated(Wholes(txs), cut);
    FlattenMessages(s1.bus, cut, Offers(Rxs(s2.conns)), fd1);
  }

  /** Everything arrives: when no step of the first run lost a frame, none is in hand, and the
      second bridge has received all that was sent, is done with it and no send of its raised,
      it has offered every frame of the first one's bus, in order. */
  lemma {:induction false} AllArrives(actions1: seq<Action>, s1: State, fd1: bool,
                                      actions2: seq<Action>, s2: State, fd2: bool)
    requires Run(actions1, s1, fd1) && Run(actions2, s2, fd2) && Linked(s1.conns, Streams(actions2))
    requires Losses(actions1) == 0 && InHand(s1.can) == 0
    requires |Streams(actions2)| == |s1.conns| && !s2.tcp.Draining?
    requires forall c :: 0 <= c < |s1.conns| ==> Streams(actions2)[c] == s1.conns[c].tx.sent
    requires forall c :: 0 <= c < |s2.conns| ==> !s2.conns[c].rx.raised
    ensures var bus := BusFrames(actions1);
            Frames(bus, Positions(|bus|)) && s2.busOut == MessagesAt(bus, Positions(|bus|), fd1)
  {
    hide Run, RecvInv, SocketInv, Split, Readable, TxOk, Frames, MessagesAt, Flatten, Streams, Increasing,
         Losses, BusFrames, InHand;
    RunInv(actions1, s1, fd1);
    RunHistory(actions1, s1, fd1);
    Reception(actions2, s2, fd2);
    var txs := Txs(s1.conns);
    var cut := OfferedCuts(s1.bus, txs, s1.can, fd1, actions2, s2, fd2);
    assert cut == Wholes(txs);
    FlattenMessages(s1.bus, cut, Offers(Rxs(s2.conns)), fd1);
    FramesBelow(s1.bus, Flatten(cut));
    AllPositions(Flatten(cut));
  }
}
