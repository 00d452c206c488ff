/** What every interleaving of the bridge keeps on the receiving side. */
module BridgeReceive {
  import opened Sequences
  import opened Outcomes
  import opened Wire
  import opened Records
  import opened Framer
  import opened BridgeThreads

  function Rxs(conns: seq<Conn>): seq<Rx> {
    seq(|conns|, c requires 0 <= c < |conns| => conns[c].rx)
  }

  function Offers(rxs: seq<Rx>): seq<seq<Message>> {
    seq(|rxs|, c requires 0 <= c < |rxs| => rxs[c].offered)
  }

  function RecordsIn(rx: Rx): seq<seq<byte>> { Split(rx.received).records }

  /** What was offered decodes the first records received, one by one. */
  predicate Matches(rx: Rx) {
    |rx.offered| <= |RecordsIn(rx)| &&
    forall k :: 0 <= k < |rx.offered| ==> CanFromFrame(RecordsIn(rx)[k]) == Success(rx.offered[k])
  }

  /** The receive loop is still working on this connection and `buf` is its framer's buffer. */
  predicate Live(rx: Rx, buf: seq<byte>) {
    && Matches(rx) && !rx.raised
    && RecordsIn(rx)[|rx.offered|..] == Split(buf).records
    && Split(rx.received).rest == Split(buf).rest
  }

  /** Every record received was offered, or the first one that was not is malformed, or a
      send raised. */
  predicate Settled(rx: Rx) {
    Matches(rx) &&
    (rx.raised || |rx.offered| == |RecordsIn(rx)|
     || CanFromFrame(RecordsIn(rx)[|rx.offered|]).Failure?)
  }

  ghost predicate RecvInv(rxs: seq<Rx>, sock: Option<nat>, tcp: TcpPc, busOut: seq<Message>) {
    && busOut == Flatten(Offers(rxs))
    && (forall c :: 0 <= c < |rxs| && !(tcp.Draining? && tcp.conn == c) ==> Settled(rxs[c]))
    && (tcp.Draining? ==> tcp.conn == |rxs| - 1 && Live(rxs[tcp.conn], tcp.buf))
    && (tcp.InRecv? ==> tcp.conn == |rxs| - 1 && Live(rxs[tcp.conn], tcp.buf) && Incomplete(tcp.buf))
    && (tcp.Receiving? && sock.Some? ==>
          sock.value == |rxs| - 1 && Live(rxs[sock.value], tcp.buf) && Incomplete(tcp.buf))
  }

  lemma LiveAtRest(rx: Rx, buf: seq<byte>)
    requires Live(rx, buf) && Incomplete(buf)
    ensures Settled(rx) && |rx.offered| == |RecordsIn(rx)|
  {
    SplitIncomplete(buf);
  }

  lemma ChunkStep(rx: Rx, buf: seq<byte>, bytes: seq<byte>)
    requires Live(rx, buf) && Incomplete(buf)
    ensures Live(rx.(received := rx.received + bytes), buf + bytes)
  {
    hide Split, CanFromFrame, Incomplete;
    LiveAtRest(rx, buf);
    SplitIncomplete(buf);
    SplitAppend(rx.received, bytes);
  }

  /** One record taken from the framer and decoded. */
  lemma RecordStep(rx: Rx, buf: seq<byte>, raised: bool)
    requires Live(rx, buf) && !Incomplete(buf)
    ensures var total := 2 + Read16(buf);
            var msg := CanFromFrame(buf[2..total]);
            if msg.Failure? then
              Settled(rx)
            else
              var rx' := rx.(offered := rx.offered + [msg.value], raised := raised);
              && Matches(rx')
              && (raised ==> Settled(rx'))
              && (!raised ==> Live(rx', buf[total..]))
  {
    hide CanFromFrame;
    var total := 2 + Read16(buf);
    var r, rs, n := buf[2..total], RecordsIn(rx), |rx.offered|;
    assert Split(buf) == Parsed([r] + Split(buf[total..]).records, Split(buf[total..]).rest);
    assert rs[n..] == [r] + Split(buf[total..]).records;
    assert rs[n] == rs[n..][0] == r;
    assert rs[n + 1..] == rs[n..][1..];
  }

  lemma OfferStep(rxs: seq<Rx>, m: Message, rx': Rx)
    requires rxs != [] && rx'.offered == rxs[|rxs| - 1].offered + [m]
    ensures Flatten(Offers(rxs[|rxs| - 1 := rx'])) == Flatten(Offers(rxs)) + [m]
  {
    var last := |rxs| - 1;
    var o, o' := Offers(rxs), Offers(rxs[last := rx']);
    assert o == o[..last] + [rxs[last].offered];
    assert o' == o[..last] + [rxs[last].offered + [m]];
    FlattenSnoc(o[..last], rxs[last].offered);
    FlattenSnoc(o[..last], rxs[last].offered + [m]);
  }

  /** A whole step of the receive loop on the last connection. */
  lemma TakeStep(s: State, outcome: BusOutcome)
    requires InRange(s) && s.tcp.Draining? && s.sock == Some(s.tcp.conn)
    requires RecvInv(Rxs(s.conns), s.sock, s.tcp, s.busOut)
    ensures var s' := DoRecord(s, outcome); RecvInv(Rxs(s'.conns), s'.sock, s'.tcp, s'.busOut)
  {
    hide CanFromFrame, Split, Matches, Live, Settled, Flatten;
    var rxs, c, buf := Rxs(s.conns), s.tcp.conn, s.tcp.buf;
    var s' := DoRecord(s, outcome);
    if Incomplete(buf) {
      LiveAtRest(rxs[c], buf);
    } else {
      RecordStep(rxs[c], buf, rxs[c].raised || outcome.Raised?);
      NotRaised(rxs[c], buf);
      var msg := CanFromFrame(buf[2..2 + Read16(buf)]);
      if msg.Success? {
        var rx' := s'.conns[c].rx;
        assert Rxs(s'.conns) == rxs[c := rx'];
        OfferStep(rxs, msg.value, rx');
      }
    }
  }

  lemma NotRaised(rx: Rx, buf: seq<byte>)
    requires Live(rx, buf)
    ensures !rx.raised
  {
  }

  lemma ReceiveStep(s: State, bytes: seq<byte>, useFd: bool)
    requires InRange(s) && Enabled(s, RecvChunk(bytes), useFd)
    requires RecvInv(Rxs(s.conns), s.sock, s.tcp, s.busOut)
    ensures var s' := Do(s, RecvChunk(bytes), useFd); RecvInv(Rxs(s'.conns), s'.sock, s'.tcp, s'.busOut)
  {
    hide CanFromFrame, Split, Matches, Live, Settled, Incomplete, Flatten;
    var rxs, c := Rxs(s.conns), s.tcp.conn;
    var s' := Do(s, RecvChunk(bytes), useFd);
    ChunkStep(rxs[c], s.tcp.buf, bytes);
    assert Rxs(s'.conns) == rxs[c := s'.conns[c].rx];
    assert Offers(Rxs(s'.conns)) == Offers(rxs);
  }

  lemma NewStep(rxs: seq<Rx>, tcp: TcpPc, busOut: seq<Message>)
    requires RecvInv(rxs, None, tcp, busOut) && tcp.Connecting?
    ensures RecvInv(rxs + [NEW_RX], Some(|rxs|), Receiving([]), busOut)
  {
    assert Offers(rxs + [NEW_RX]) == Offers(rxs) + [[]];
    FlattenSnoc<Message>(Offers(rxs), []);
    assert Flatten(Offers(rxs)) + [] == Flatten(Offers(rxs));
    assert Live(NEW_RX, []) && Settled(NEW_RX) && Incomplete([]);
    forall c | 0 <= c < |rxs + [NEW_RX]| ensures Settled((rxs + [NEW_RX])[c]) {
      if c < |rxs| { assert (rxs + [NEW_RX])[c] == rxs[c]; }
    }
  }

  /** The decodings up to the first malformed record. */
  function Readable(records: seq<seq<byte>>): seq<Message> {
    if records == [] || CanFromFrame(records[0]).Failure? then
      []
    else
      [CanFromFrame(records[0]).value] + Readable(records[1..])
  }

  lemma {:induction false} ReadableIs(records: seq<seq<byte>>, ms: seq<Message>)
    requires |ms| <= |records| && forall k :: 0 <= k < |ms| ==> CanFromFrame(records[k]) == Success(ms[k])
    ensures ms <= Readable(records)
    ensures |ms| == |records| || CanFromFrame(records[|ms|]).Failure? ==> Readable(records) == ms
  {
    hide CanFromFrame;
    if ms != [] {
      assert forall k :: 0 <= k < |ms[1..]| ==> records[1..][k] == records[k + 1] && ms[1..][k] == ms[k + 1];
      ReadableIs(records[1..], ms[1..]);
      assert ms == [ms[0]] + ms[1..];
    }
  }

  // ---- The steps of one drain are the inner loop -----------------------------------------

  /** Record steps until the loop leaves the buffer, when the k-th send ends as `bus(k)`. */
  function DrainSteps(s: State, bus: nat -> BusOutcome, n: nat): State
    requires InRange(s)
    decreases s.tcp.Draining?, if s.tcp.Draining? then |s.tcp.buf| else 0
  {
    if !s.tcp.Draining? then
      s
    else
      DoInRange(s, TakeRecord(bus(n)), false);
      DrainSteps(DoRecord(s, bus(n)), bus, n + 1)
  }

  lemma DrainNext(s: State, bus: nat -> BusOutcome, n: nat)
    requires InRange(s) && s.tcp.Draining?
    ensures InRange(DoRecord(s, bus(n)))
    ensures DrainSteps(s, bus, n) == DrainSteps(DoRecord(s, bus(n)), bus, n + 1)
  {
    DoInRange(s, TakeRecord(bus(n)), false);
  }

  lemma DrainEnds(s: State, bus: nat -> BusOutcome, n: nat)
    requires InRange(s) && !s.tcp.Draining?
    ensures DrainSteps(s, bus, n) == s
  {
  }

  lemma DrainRecord(buf: seq<byte>, bus: nat -> BusOutcome, n: nat)
    ensures Incomplete(buf) ==>
              Decoded(Split(buf).records) == [] && Split(buf).rest == buf
              && Offered([], bus, n) == [] && RunsOn([], bus, n)
    ensures !Incomplete(buf) ==>
              var total := 2 + Read16(buf);
              var p := Split(buf[total..]);
              Decoded(Split(buf).records) == [CanFromFrame(buf[2..total])] + Decoded(p.records)
              && Split(buf).rest == p.rest
  {
    hide CanFromFrame;
  }

  /** The record steps of one drain do what the inner loop of the sequential code does:
      they offer the same frames, and go on, with the same buffer, in the same cases. */
  lemma {:induction false} DrainIsDeliver(s: State, bus: nat -> BusOutcome, n: nat)
    requires InRange(s) && s.tcp.Draining?
    ensures var t, p := DrainSteps(s, bus, n), Split(s.tcp.buf);
            var frames := Decoded(p.records);
            && t.busOut == s.busOut + Offered(frames, bus, n)
            && t.tcp == if RunsOn(frames, bus, n) then Receiving(p.rest) else Closing
    decreases |s.tcp.buf|
  {
    hide Split, CanFromFrame, Offered, RunsOn, DrainSteps, Decoded;
    var buf := s.tcp.buf;
    var t := DoRecord(s, bus(n));
    DrainNext(s, bus, n);
    DrainRecord(buf, bus, n);
    if Incomplete(buf) {
      DrainEnds(t, bus, n + 1);
      assert s.busOut + [] == s.busOut;
    } else {
      var total := 2 + Read16(buf);
      var d, later := CanFromFrame(buf[2..total]), Decoded(Split(buf[total..]).records);
      OfferedCons(d, later, bus, n);
      if d.Failure? {
        DrainEnds(t, bus, n + 1);
        assert s.busOut + [] == s.busOut;
      } else if bus(n).Raised? {
        DrainEnds(t, bus, n + 1);
      } else {
        DrainIsDeliver(t, bus, n + 1);
      }
    }
  }
}
