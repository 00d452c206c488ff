/** The two implementations of the wire format against each other. */
module Delivery {
  import opened Sequences
  import opened Outcomes
  import opened Wire
  import opened Records
  import opened Client
  import opened BridgeReceive
  import opened BridgeThreads
  import opened BridgeSend
  import opened BridgeTheorems

  // ---- The two decoders ---------------------------------------------------------------

  /** The client accepts exactly those records the Python decoder accepts that declare at
      most 8 data bytes and have nothing after them; the two then agree on everything but
      the id bits above the 29th, which only the client drops. */
  lemma DecodersAgree(rec: seq<byte>)
    ensures Accept(rec).Some? <==>
            CanFromFrame(rec).Success? && rec[5] <= MAX_DLC && |rec| == HEADER + rec[5]
    ensures Accept(rec).Some? ==>
              var f, m := Accept(rec).value, CanFromFrame(rec).value;
              && f.id == m.id % ID_RANGE && f.ide == m.ext && f.rtr == m.rtr
              && f.data[..f.dlc] == m.data
  {
    hide Read32, HasFlag;
    if Accept(rec).Some? {
      assert rec[HEADER..HEADER + rec[5]] == rec[HEADER..];
    }
  }

  // ---- From Python to Python ------------------------------------------------------------

  /** What `frame_from_can` makes of a list of messages, those it refuses left out. */
  function Payloads(ms: seq<Message>, useFd: bool): seq<byte> {
    if ms == [] then
      []
    else
      (match FrameFromCan(ms[0], useFd) case Success(p) => p case Failure => []) + Payloads(ms[1..], useFd)
  }

  /** The messages of at most 64 data bytes. */
  function Short(ms: seq<Message>): (short: seq<Message>)
    ensures Sendable(short)
  {
    if ms == [] then [] else (if |ms[0].data| <= MAX_DATA then [ms[0]] else []) + Short(ms[1..])
  }

  function Normals(ms: seq<Message>, useFd: bool): seq<Message> {
    seq(|ms|, k requires 0 <= k < |ms| => Normalise(ms[k], useFd))
  }

  lemma {:induction false} PayloadsJoin(ms: seq<Message>, useFd: bool)
    ensures Payloads(ms, useFd) == Join(Recs(Short(ms), useFd))
  {
    hide RecordOf, Framed;
    if ms != [] {
      PayloadsJoin(ms[1..], useFd);
      var short := Short(ms);
      if |ms[0].data| <= MAX_DATA {
        assert short[1..] == Short(ms[1..]);
        assert Recs(short, useFd)[1..] == Recs(short[1..], useFd);
      } else {
        assert short == Short(ms[1..]);
      }
    }
  }

  /** Stream round trip: framing any list of messages and decoding the stream gives back the
      normal forms of all that `frame_from_can` does not refuse, in order, with no byte left. */
  lemma {:induction false} StreamRoundTrip(ms: seq<Message>, useFd: bool)
    ensures Split(Payloads(ms, useFd)) == Parsed(Recs(Short(ms), useFd), [])
    ensures Readable(Split(Payloads(ms, useFd)).records) == Normals(Short(ms), useFd)
  {
    hide Split, Readable, RecordOf, Normalise, CanFromFrame;
    PayloadsJoin(ms, useFd);
    var short := Short(ms);
    var records := Recs(short, useFd);
    AtBoundary(records);
    forall k | 0 <= k < |short| ensures CanFromFrame(records[k]) == Success(Normals(short, useFd)[k]) {
      RoundTrip(short[k], useFd);
    }
    ReadableIs(records, Normals(short, useFd));
  }

  // ---- From Python to the client ------------------------------------------------------

  predicate Sendable(ms: seq<Message>) { forall k :: 0 <= k < |ms| ==> |ms[k].data| <= MAX_DATA }

  function Recs(ms: seq<Message>, useFd: bool): (rs: seq<seq<byte>>)
    requires Sendable(ms)
    ensures |rs| == |ms| && Sized(rs)
  {
    seq(|ms|, k requires 0 <= k < |ms| => RecordOf(ms[k], useFd))
  }

  /** What the client makes of a message: a classic frame without the FD and BRS marks, or
      nothing when there are more than 8 data bytes. */
  function AsFrame(m: Message): Option<Frame> {
    if |m.data| > MAX_DLC then None
    else Some(CanFrame(m.id % ID_RANGE, m.ext, m.rtr, |m.data|, m.data + seq(MAX_DLC - |m.data|, _ => 0)))
  }

  function AsFrames(ms: seq<Message>): seq<Frame> {
    if ms == [] then
      []
    else
      (match AsFrame(ms[0]) case Some(f) => [f] case None => []) + AsFrames(ms[1..])
  }

  lemma AcceptEncoded(m: Message, useFd: bool)
    requires |m.data| <= MAX_DATA
    ensures Accept(RecordOf(m, useFd)) == AsFrame(m)
  {
    hide Read32, HasFlag, Flags, Be32;
    RoundTrip(m, useFd);
    DecodersAgree(RecordOf(m, useFd));
    assert RecordOf(m, useFd)[5] == |m.data|;
    if |m.data| <= MAX_DLC {
      var f := Accept(RecordOf(m, useFd)).value;
      assert f.data == f.data[..f.dlc] + seq(MAX_DLC - f.dlc, _ => 0);
    }
  }

  lemma {:induction false} ForwardedEncoded(ms: seq<Message>, useFd: bool)
    requires Sendable(ms)
    ensures Forwarded(Recs(ms, useFd)) == AsFrames(ms)
  {
    hide Accept, RecordOf, AsFrame;
    if ms != [] {
      AcceptEncoded(ms[0], useFd);
      assert Recs(ms, useFd)[1..] == Recs(ms[1..], useFd);
      ForwardedEncoded(ms[1..], useFd);
    }
  }

  /** Python to client: of a stream of framed messages, the client that has consumed a part
      of the stream has forwarded exactly the messages of at most 8 data bytes among those
      wholly in that part, in order; longer ones disturb nothing. */
  lemma PythonToClient(ms: seq<Message>, useFd: bool, part: seq<byte>) returns (n: nat)
    requires Sendable(ms) && part <= Join(Recs(ms, useFd))
    ensures n <= |ms| && Forwarded(Split(part).records) == AsFrames(ms[..n])
    ensures Join(Recs(ms[..n], useFd)) + Split(part).rest == part && Incomplete(Split(part).rest)
    ensures part == Join(Recs(ms, useFd)) ==> n == |ms|
  {
    hide Split, Forwarded, AsFrames, RecordOf, Framed, Incomplete;
    AtBoundary(Recs(ms, useFd));
    SplitPrefix(part, Join(Recs(ms, useFd)));
    SplitJoins(part);
    n := |Split(part).records|;
    assert Recs(ms[..n], useFd) == Split(part).records;
    ForwardedEncoded(ms[..n], useFd);
    assert part == Join(Recs(ms, useFd)) ==> Split(part).records == Recs(ms, useFd);
  }

  function BusMessages(bus: seq<Message>, idx: seq<nat>): seq<Message>
    requires Frames(bus, idx)
  {
    seq(|idx|, k requires 0 <= k < |idx| => bus[idx[k]])
  }

  /** Bridge to client, in any run of the bridge: a client that has consumed a part of what one
      connection carries has forwarded exactly the frames of at most 8 data bytes among the
      first frames carried whole, those whose records it has consumed; with all of it consumed,
      among all of them. */
  lemma {:induction false} BridgeToClient(actions: seq<Action>, s: State, useFd: bool, c: nat, part: seq<byte>)
    returns (n: nat)
    requires Run(actions, s, useFd) && c < |s.conns| && part <= s.conns[c].tx.sent
    ensures Frames(s.bus, s.conns[c].tx.whole) && n == |Split(part).records| <= |s.conns[c].tx.whole|
    ensures Forwarded(Split(part).records) == AsFrames(BusMessages(s.bus, s.conns[c].tx.whole[..n]))
    ensures part == s.conns[c].tx.sent ==> n == |s.conns[c].tx.whole|
  {
    hide Split, Forwarded, AsFrames, RecordOf, TxOk, Run, SocketInv, RecvInv;
    RunInv(actions, s, useFd);
    var tx := Txs(s.conns)[c];
    ReadsAs(s.bus, tx, c, s.can, useFd);
    SplitPrefix(part, tx.sent);
    n := |Split(part).records|;
    var ms := BusMessages(s.bus, tx.whole[..n]);
    assert Recs(ms, useFd) == Split(part).records;
    ForwardedEncoded(ms, useFd);
  }

  // ---- From the client to Python ------------------------------------------------------

  /** The message a client frame stands for. */
  function AsMessage(f: Frame): Message {
    Message(f.id % ID_RANGE, f.ide, f.rtr, false, false, f.data[..f.dlc])
  }

  /** The client encodes a frame as `frame_from_can` does. */
  lemma ClientEncodesAlike(f: Frame)
    ensures ClientRecord(f) == RecordOf(AsMessage(f), false)
    ensures CanFromFrame(ClientRecord(f)) == Success(AsMessage(f))
  {
    hide Be32;
    RoundTrip(AsMessage(f), false);
  }

  /** What `tcp_send_can_frame` puts where. */
  lemma ClientLayout(f: Frame)
    ensures var p := Framed(ClientRecord(f));
            && |p| == 8 + f.dlc as int
            && p[0] as int * 256 + p[1] as int == 6 + f.dlc as int
            && p[2] as int * 0x100_0000 + p[3] as int * 0x1_0000 + p[4] as int * 0x100 + p[5] as int
               == f.id % 0x2000_0000
            && p[6] == (if f.ide then 1 else 0) + (if f.rtr then 2 else 0)
            && p[7] == f.dlc && p[8..] == f.data[..f.dlc]
  {
    hide RecordOf, ClientRecord, Framed, CanFromFrame;
    ClientEncodesAlike(f);
    RecordLayout(AsMessage(f), false);
  }

  function ClientRecords(taken: seq<Frame>): (rs: seq<seq<byte>>)
    ensures |rs| == |taken| && Sized(rs)
  {
    seq(|taken|, k requires 0 <= k < |taken| => ClientRecord(taken[k]))
  }

  function AsMessages(taken: seq<Frame>): seq<Message> {
    seq(|taken|, k requires 0 <= k < |taken| => AsMessage(taken[k]))
  }

  /** What each send of these pieces has to return. */
  function Lengths(pieces: seq<seq<byte>>): (ns: seq<nat>)
    ensures |ns| == |pieces|
  {
    seq(|pieces|, k requires 0 <= k < |pieces| => |pieces[k]|)
  }

  /** What the sends of a frame have to return: 2, 6 and, with data, its length. */
  function NeedsOf(cf: Frame): seq<nat> {
    [2, HEADER] + if cf.dlc > 0 then [cf.dlc as nat] else []
  }

  function Needs(taken: seq<Frame>): seq<nat> {
    if taken == [] then [] else NeedsOf(taken[0]) + Needs(taken[1..])
  }

  /** No answer of `zsock_send` is short of what is needed; past the answers all is accepted. */
  predicate Enough(needs: seq<nat>, accepts: seq<int>) {
    forall k :: 0 <= k < |needs| && k < |accepts| ==> needs[k] <= accepts[k]
  }

  function Drop(accepts: seq<int>, n: nat): seq<int> { if n <= |accepts| then accepts[n..] else [] }

  lemma EnoughSplit(a: seq<nat>, b: seq<nat>, accepts: seq<int>)
    ensures Enough(a + b, accepts) <==> Enough(a, accepts) && Enough(b, Drop(accepts, |a|))
  {
    if Enough(a + b, accepts) {
      assert forall k :: 0 <= k < |a| ==> (a + b)[k] == a[k];
      assert forall k :: 0 <= k < |b| ==> (a + b)[|a| + k] == b[k];
    }
  }

  /** Sending some pieces puts an initial part of them on the stream: all exactly if no answer
      is short, and then each piece has used up one answer. */
  lemma {:induction false} PiecesIff(pieces: seq<seq<byte>>, accepts: seq<int>)
    requires forall k :: 0 <= k < |pieces| ==> pieces[k] != []
    ensures var log := SendPieces(pieces, accepts);
            && log.bytes <= Flatten(pieces)
            && (log.ok <==> Enough(Lengths(pieces), accepts))
            && (log.ok <==> log.bytes == Flatten(pieces))
            && (log.ok ==> log.left == Drop(accepts, |pieces|))
  {
    if pieces != [] {
      var later := pieces[1..];
      PiecesIff(later, Later(accepts));
      assert Lengths(pieces) == [|pieces[0]|] + Lengths(later);
      EnoughSplit([|pieces[0]|], Lengths(later), accepts);
      assert Drop(accepts, 1) == Later(accepts);
      assert Enough([|pieces[0]|], accepts) <==> Returned(|pieces[0]|, accepts) == |pieces[0]|;
      assert Drop(Later(accepts), |later|) == Drop(accepts, |pieces|);
      hide SendPieces, Flatten, Enough, Lengths;
      SendPiece(pieces, accepts);
      FlattenNext(pieces);
      var log := SendPieces(later, Later(accepts));
      if Returned(|pieces[0]|, accepts) == |pieces[0]| {
        SamePrefix(pieces[0], log.bytes, Flatten(later));
      } else {
        assert |pieces[0][..Max0(Returned(|pieces[0]|, accepts))]| < |pieces[0]|;
      }
    }
  }

  lemma FlattenNext(pieces: seq<seq<byte>>)
    requires pieces != []
    ensures Flatten(pieces) == pieces[0] + Flatten(pieces[1..])
  {
  }

  lemma SamePrefix(a: seq<byte>, b: seq<byte>, c: seq<byte>)
    requires b <= c
    ensures a + b <= a + c && (a + b == a + c <==> b == c)
  {
    if a + b == a + c { assert b == (a + b)[|a|..] == (a + c)[|a|..] == c; }
  }

  lemma FrameIff(cf: Frame, accepts: seq<int>)
    ensures var log := SendPieces(Pieces(cf), accepts);
            && log.bytes <= Framed(ClientRecord(cf))
            && (log.bytes == Framed(ClientRecord(cf)) <==> Enough(NeedsOf(cf), accepts))
            && (Enough(NeedsOf(cf), accepts) ==> log.left == Drop(accepts, |NeedsOf(cf)|))
  {
    hide SendPieces, Flatten, ClientRecord, Be32, Be16, ClientFlags, Framed, Enough;
    assert NeedsOf(cf) == Lengths(Pieces(cf));
    PiecesIff(Pieces(cf), accepts);
  }

  predicate AllWhole(taken: seq<Frame>, parts: seq<seq<byte>>)
    requires |parts| == |taken|
  {
    forall k :: 0 <= k < |parts| ==> parts[k] == Framed(ClientRecord(taken[k]))
  }

  /** The parts together are as long as the framed records exactly when none is cut. */
  lemma {:induction false} PartsLength(taken: seq<Frame>, parts: seq<seq<byte>>)
    requires |parts| == |taken|
    requires forall k :: 0 <= k < |parts| ==> parts[k] <= Framed(ClientRecord(taken[k]))
    ensures |Flatten(parts)| <= |Join(ClientRecords(taken))|
    ensures AllWhole(taken, parts) <==> |Flatten(parts)| == |Join(ClientRecords(taken))|
    ensures AllWhole(taken, parts) ==> Flatten(parts) == Join(ClientRecords(taken))
  {
    hide ClientRecord, Framed;
    if taken != [] {
      assert ClientRecords(taken)[1..] == ClientRecords(taken[1..]);
      PartsLength(taken[1..], parts[1..]);
      WholeNext(taken, parts);
    }
  }

  /** Each frame puts an initial part of its framing on the stream, and all of them are whole
      exactly if no send comes short. */
  lemma {:induction false} SendsIff(taken: seq<Frame>, accepts: seq<int>)
    ensures var parts := SendFrames(taken, accepts).parts;
            && (forall k :: 0 <= k < |parts| ==> parts[k] <= Framed(ClientRecord(taken[k])))
            && (AllWhole(taken, parts) <==> Enough(Needs(taken), accepts))
  {
    hide SendPieces, Pieces, ClientRecord, Framed, Enough, Drop, AllWhole, NeedsOf;
    if taken == [] {
      NoNeeds(accepts);
    } else {
      var first, later := SendPieces(Pieces(taken[0]), accepts), taken[1..];
      var parts := SendFrames(taken, accepts).parts;
      FrameIff(taken[0], accepts);
      SendsIff(later, first.left);
      assert Needs(taken) == NeedsOf(taken[0]) + Needs(later);
      EnoughSplit(NeedsOf(taken[0]), Needs(later), accepts);
      WholeNext(taken, parts);
      assert parts == [first.bytes] + SendFrames(later, first.left).parts;
      assert parts[1..] == SendFrames(later, first.left).parts;
    }
  }

  lemma WholeNext(taken: seq<Frame>, parts: seq<seq<byte>>)
    requires |parts| == |taken| && taken != []
    ensures AllWhole(taken, parts) <==>
            parts[0] == Framed(ClientRecord(taken[0])) && AllWhole(taken[1..], parts[1..])
  {
    hide ClientRecord, Framed;
  }

  lemma NoNeeds(accepts: seq<int>)
    ensures Enough(Needs([]), accepts) && AllWhole([], [])
  {
  }

  lemma {:induction false} JoinAtLeast(records: seq<seq<byte>>, taken: seq<Frame>)
    requires Sized(records) && |taken| <= |records|
    requires forall k :: 0 <= k < |taken| ==> |ClientRecord(taken[k])| <= |records[k]|
    ensures |Join(ClientRecords(taken))| <= |Join(records)|
  {
    hide ClientRecord;
    if taken != [] {
      assert ClientRecords(taken)[1..] == ClientRecords(taken[1..]);
      JoinAtLeast(records[1..], taken[1..]);
    }
  }

  lemma {:induction false} ReadableMeans(records: seq<seq<byte>>)
    ensures |Readable(records)| <= |records|
    ensures forall k :: 0 <= k < |Readable(records)| ==> CanFromFrame(records[k]) == Success(Readable(records)[k])
  {
    hide CanFromFrame;
    if records != [] && CanFromFrame(records[0]).Success? { ReadableMeans(records[1..]); }
  }

  /** A stream that reads as these frames is at least as long as their framings. */
  lemma HeardLength(stream: seq<byte>, taken: seq<Frame>)
    requires Readable(Split(stream).records) == AsMessages(taken)
    ensures |Join(ClientRecords(taken))| <= |stream|
  {
    hide Split, Readable, ClientRecord, CanFromFrame;
    var records := Split(stream).records;
    SplitJoins(stream);
    ReadableMeans(records);
    forall k | 0 <= k < |taken| ensures |ClientRecord(taken[k])| <= |records[k]| {
      assert CanFromFrame(records[k]) == Success(AsMessages(taken)[k]);
      DecodedLength(records[k], taken[k]);
    }
    JoinAtLeast(records, taken);
  }

  lemma DecodedLength(rec: seq<byte>, f: Frame)
    requires CanFromFrame(rec) == Success(AsMessage(f))
    ensures |ClientRecord(f)| <= |rec|
  {
    hide Read32, HasFlag, Be32;
  }

  /** Client to Python: the peer reads exactly the frames the client took from its queue,
      with nothing left over, if and only if no send of theirs comes short; and it is enough
      that the messages it reads are those frames. */
  lemma {:induction false} FramesHeard(taken: seq<Frame>, accepts: seq<int>)
    ensures var outgoing := Flatten(SendFrames(taken, accepts).parts);
            && (Enough(Needs(taken), accepts) <==> Split(outgoing) == Parsed(ClientRecords(taken), []))
            && (Enough(Needs(taken), accepts) <==> Readable(Split(outgoing).records) == AsMessages(taken))
  {
    hide Split, ClientRecord, Readable, AsMessage, Framed, SendFrames, Enough, Needs, Flatten, Join, CanFromFrame;
    var parts := SendFrames(taken, accepts).parts;
    var outgoing, whole := Flatten(parts), Join(ClientRecords(taken));
    SendsIff(taken, accepts);
    PartsLength(taken, parts);
    AtBoundary(ClientRecords(taken));
    forall k | 0 <= k < |taken|
      ensures CanFromFrame(ClientRecords(taken)[k]) == Success(AsMessages(taken)[k])
    {
      ClientEncodesAlike(taken[k]);
    }
    ReadableIs(ClientRecords(taken), AsMessages(taken));
    if Readable(Split(outgoing).records) == AsMessages(taken) {
      HeardLength(outgoing, taken);
    }
  }

  /** So the peer reads exactly the arrivals that did not find the queue full, if and only if
      every `zsock_send` for them was complete. */
  lemma {:induction false} ClientToPython(bursts: seq<seq<Frame>>, looks: nat, accepts: seq<int>)
    ensures var arrivals, outgoing := Kept(QueueWord(bursts, looks)), ClientStream(bursts, looks, accepts);
            && (Enough(Needs(arrivals), accepts) <==> Split(outgoing) == Parsed(ClientRecords(arrivals), []))
            && (Enough(Needs(arrivals), accepts) <==> Readable(Split(outgoing).records) == AsMessages(arrivals))
  {
    hide Kept, QueueWord, Split, Readable, SendFrames, Enough, Needs;
    FramesHeard(Kept(QueueWord(bursts, looks)), accepts);
  }

  // ---- A short send ---------------------------------------------------------------------

  /** A run in which a short send does harm, because `main` ignores the failure and goes on
      sending: two frames are waiting, and the one data byte of the first is not accepted. The
      peer completes that frame with the first length byte of the next, and reads a message
      that was never on the bus. */
  method ShortSendMisread() returns (outgoing: seq<byte>)
    ensures exists looks :: looks > 0 && outgoing == ClientStream([[FRAME_5, FRAME_EMPTY]], looks, [2, HEADER, 0])
    ensures Split(outgoing).records != []
    ensures CanFromFrame(Split(outgoing).records[0]).Success?
    ensures CanFromFrame(Split(outgoing).records[0]).value !in AsMessages([FRAME_5, FRAME_EMPTY])
  {
    hide Split, CanFromFrame, ClientStream;
    var forwarded, consumed, running, looks, polled, left;
    forwarded, consumed, outgoing, running, looks, polled, left :=
      Serve([], [], [2, HEADER, 0], [[FRAME_5, FRAME_EMPTY]], [TimedOut]);
    MisreadStream(looks);
    HeadIs(outgoing, MISREAD);
    MisreadDecodes();
    assert AsMessages([FRAME_5, FRAME_EMPTY])[0].data == [5];
    assert AsMessages([FRAME_5, FRAME_EMPTY])[1].data == [];
  }

  lemma MisreadStream(looks: nat)
    requires looks > 0
    ensures var outgoing := ClientStream([[FRAME_5, FRAME_EMPTY]], looks, [2, HEADER, 0]);
            |outgoing| >= 9 && Read16(outgoing) == |MISREAD| && outgoing[2..9] == MISREAD
  {
    hide Framed, ClientRecord, QueueWord, Kept, SendFrames;
    TwoArrivals(looks);
    TwoSends();
    var parts := SendFrames([FRAME_5, FRAME_EMPTY], [2, HEADER, 0]).parts;
    assert Flatten(parts[1..]) == parts[1];
    assert Flatten(parts) == [0, 7, 0, 0, 0, 1, 0, 1] + [0, 6, 0, 0, 0, 2, 0, 0];
  }

  lemma {:induction false} TwoArrivals(looks: nat)
    requires looks > 0
    ensures Kept(QueueWord([[FRAME_5, FRAME_EMPTY]], looks)) == [FRAME_5, FRAME_EMPTY]
  {
    var bursts := [[FRAME_5, FRAME_EMPTY]];
    if looks == 1 {
      var one := [Arrive(FRAME_5)];
      var two := one + [Arrive(FRAME_EMPTY)];
      assert QueueWord(bursts, 0) == [];
      assert QueueWord(bursts, 1) == two + [Take];
      assert (two + [Take])[..2] == two && two[..1] == one && one[..0] == [];
      assert Kept(one) == [FRAME_5];
      assert Kept(two) == [FRAME_5] + [FRAME_EMPTY];
    } else {
      TwoArrivals(looks - 1);
      var word := QueueWord(bursts, looks - 1);
      assert QueueWord(bursts, looks) == word + [Take];
      assert (word + [Take])[..|word|] == word;
    }
  }

  lemma TwoSends()
    ensures SendFrames([FRAME_5, FRAME_EMPTY], [2, HEADER, 0]).parts
            == [[0, 7, 0, 0, 0, 1, 0, 1], [0, 6, 0, 0, 0, 2, 0, 0]]
  {
    hide Framed, ClientRecord, SendPieces;
    CutSend();
    FrameIff(FRAME_EMPTY, []);
    TwoFramings();
    assert [FRAME_5, FRAME_EMPTY][1..] == [FRAME_EMPTY];
    assert SendFrames([], []).parts == [];
  }

  lemma CutSend()
    ensures SendPieces(Pieces(FRAME_5), [2, HEADER, 0]) == SendLog([0, 7, 0, 0, 0, 1, 0, 1], false, [])
  {
    hide Framed, ClientRecord, SendPieces;
    var ps := Pieces(FRAME_5);
    assert Be16(HEADER + FRAME_5.dlc) == [0, 7] && Be32(FRAME_5.id % ID_RANGE) == [0, 0, 0, 1];
    assert ps[0] == [0, 7];
    assert ps[1] == [0, 0, 0, 1] + [0, 1] == [0, 0, 0, 1, 0, 1];
    assert ps[2] == FRAME_5.data[..1] == [5];
    SendPiece(ps, [2, HEADER, 0]);
    SendPiece(ps[1..], [HEADER, 0]);
    SendPiece(ps[1..][1..], [0]);
    assert ps[1..][1..][0] == [5];
    assert [0, 7] + ([0, 0, 0, 1, 0, 1] + []) == [0, 7, 0, 0, 0, 1, 0, 1];
  }

  const FRAME_5: Frame := CanFrame(1, false, false, 1, [5, 0, 0, 0, 0, 0, 0, 0])
  const FRAME_EMPTY: Frame := CanFrame(2, false, false, 0, [0, 0, 0, 0, 0, 0, 0, 0])
  const MISREAD: seq<byte> := [0, 0, 0, 1, 0, 1, 0]

  lemma TwoFramings()
    ensures Framed(ClientRecord(FRAME_5)) == [0, 7, 0, 0, 0, 1, 0, 1] + [5]
    ensures Framed(ClientRecord(FRAME_EMPTY)) == [0, 6, 0, 0, 0, 2, 0, 0]
  {
    assert ClientRecord(FRAME_5) == [0, 0, 0, 1, 0, 1, 5];
    assert ClientRecord(FRAME_EMPTY) == [0, 0, 0, 2, 0, 0];
  }

  lemma MisreadDecodes()
    ensures CanFromFrame(MISREAD).Success? && CanFromFrame(MISREAD).value.data == [0]
  {
  }

  lemma HeadIs(s: seq<byte>, r: seq<byte>)
    requires |s| >= 2 + |r| && Read16(s) == |r| && s[2..2 + |r|] == r
    ensures Split(s).records != [] && Split(s).records[0] == r
  {
  }
}
