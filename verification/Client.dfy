/** The ESP32 client: its socket calls, its receive queue and the loop of `main`. */
module Client {
  import opened Sequences
  import opened Outcomes
  import opened Wire
  import opened Records

  const MAX_DLC := 8
  const RX_MSGQ_LEN := 32
  const DUMP := 32

  /** A classic `struct can_frame`: at most 8 data bytes in a fixed 8-byte array. */
  datatype RawFrame = CanFrame(id: nat, ide: bool, rtr: bool, dlc: byte, data: seq<byte>)

  type Frame = f: RawFrame | f.id < 0x1_0000_0000 && f.dlc <= MAX_DLC && |f.data| == MAX_DLC
    witness CanFrame(0, false, false, 0, [0, 0, 0, 0, 0, 0, 0, 0])

  // ---- The environment: one TCP connection ------------------------------------------

  /** What one `zsock_recv` does: deliver some bytes, report EAGAIN, or fail. */
  datatype RecvPlan = Deliver(most: nat) | WouldBlock | Fail

  /** This planned call fails or reports the peer closed. */
  predicate Ends(plan: RecvPlan) { plan == Fail || plan == Deliver(0) }

  /** From `plans` on, calls were made until `left` was left, and none of them ended the
      connection. */
  predicate Unbroken(plans: seq<RecvPlan>, left: seq<RecvPlan>) {
    && |left| <= |plans| && left == plans[|plans| - |left|..]
    && forall i :: 0 <= i < |plans| - |left| ==> !Ends(plans[i])
  }

  /** The last call made ended the connection and no earlier one did. */
  predicate Broken(plans: seq<RecvPlan>, left: seq<RecvPlan>) {
    && |left| < |plans| && left == plans[|plans| - |left|..]
    && Ends(plans[|plans| - |left| - 1])
    && forall i :: 0 <= i < |plans| - |left| - 1 ==> !Ends(plans[i])
  }

  lemma PlansUsed(plans: seq<RecvPlan>)
    ensures Unbroken(plans, plans)
    ensures plans != [] ==> if Ends(plans[0]) then Broken(plans, plans[1..]) else Unbroken(plans, plans[1..])
  {
  }

  lemma UnbrokenOn(a: seq<RecvPlan>, b: seq<RecvPlan>, c: seq<RecvPlan>)
    requires Unbroken(a, b)
    ensures Unbroken(b, c) ==> Unbroken(a, c)
    ensures Broken(b, c) ==> Broken(a, c)
  {
    var n := |a| - |b|;
    assert forall i :: 0 <= i < |b| ==> b[i] == a[n + i];
    if |c| <= |b| && c == b[|b| - |c|..] {
      assert c == a[|a| - |c|..];
      assert forall i :: n <= i < |a| ==> a[i] == b[i - n];
    }
  }

  /** What `zsock_send` of `n` bytes returns when these are the coming answers. */
  function Returned(n: nat, accepts: seq<int>): (r: int)
    ensures r <= n
  {
    if accepts == [] || n < accepts[0] then n else accepts[0]
  }

  function Later(accepts: seq<int>): seq<int> { if accepts == [] then [] else accepts[1..] }

  function Max0(r: int): nat { if r < 0 then 0 else r }

  datatype RecvResult = Got(n: nat) | Again | Failed

  method Fill(buf: array<byte>, off: nat, bytes: seq<byte>)
    requires off + |bytes| <= buf.Length
    modifies buf
    ensures buf[..off] == old(buf[..off]) && buf[off..off + |bytes|] == bytes
  {
    forall i | off <= i < off + |bytes| {
      buf[i] := bytes[i - off];
    }
  }

  class Socket {
    const incoming: seq<byte>      // every byte the peer sends
    var pos: nat                   // how many have been received
    var schedule: seq<RecvPlan>    // the coming `zsock_recv` calls; afterwards the peer closes
    var outgoing: seq<byte>        // every byte accepted from this side
    var accepts: seq<int>          // what the coming `zsock_send` calls accept; afterwards all

    ghost predicate Valid()
      reads this
    {
      pos <= |incoming|
    }

    /** Why receiving, since `plans` lay ahead, has stopped: the last call made ended the
        connection, or no plan or no byte is left and the peer closes. */
    ghost predicate Stopped(plans: seq<RecvPlan>)
      reads this
    {
      Broken(plans, schedule) || (Unbroken(plans, schedule) && (schedule == [] || pos == |incoming|))
    }

    constructor (incoming: seq<byte>, schedule: seq<RecvPlan>, accepts: seq<int>)
      ensures Valid() && pos == 0 && outgoing == []
      ensures this.incoming == incoming && this.schedule == schedule && this.accepts == accepts
    {
      this.incoming, this.schedule, this.accepts := incoming, schedule, accepts;
      pos, outgoing := 0, [];
    }

    /** `zsock_recv` of at most `n` bytes into `buf` at `off`; `Got(0)` is the peer closing. */
    method Recv(buf: array<byte>, off: nat, n: nat) returns (r: RecvResult)
      requires Valid() && off + n <= buf.Length && n > 0
      modifies this`pos, this`schedule, buf
      ensures Valid() && (r != Got(0) ==> |schedule| < |old(schedule)|)
      ensures if r == Got(0) || r.Failed? then Stopped(old(schedule)) else Unbroken(old(schedule), schedule)
      ensures !r.Got? ==> pos == old(pos)
      ensures r.Got? ==> r.n <= n && pos == old(pos) + r.n
                         && buf[off..off + r.n] == incoming[old(pos)..pos]
      ensures buf[..off] == old(buf[..off])
    {
      PlansUsed(schedule);
      hide Unbroken, Broken;
      if schedule == [] {
        return Got(0);
      }
      var plan := schedule[0];
      schedule := schedule[1..];
      match plan
      case WouldBlock => return Again;
      case Fail => return Failed;
      case Deliver(most) =>
        var k := if most < n then most else n;
        k := if pos + k <= |incoming| then k else |incoming| - pos;
        Fill(buf, off, incoming[pos..pos + k]);
        pos := pos + k;
        return Got(k);
    }

    /** `zsock_send`: returns how many bytes were accepted, or a negative number. */
    method Send(bytes: seq<byte>) returns (r: int)
      requires Valid()
      modifies this`outgoing, this`accepts
      ensures Valid() && r == Returned(|bytes|, old(accepts)) && accepts == Later(old(accepts))
      ensures outgoing == old(outgoing) + bytes[..Max0(r)]
    {
      r := |bytes|;
      if accepts != [] {
        r := if accepts[0] < r then accepts[0] else r;
        accepts := accepts[1..];
      }
      outgoing := outgoing + bytes[..if r < 0 then 0 else r];
    }
  }

  // ---- Receiving --------------------------------------------------------------------

  /** `recv_all`: survives short reads and EAGAIN; without an error it has read exactly the
      next `n` bytes, with an error fewer. */
  method RecvAll(sock: Socket, buf: array<byte>, n: nat) returns (ok: bool)
    requires sock.Valid() && n <= buf.Length
    modifies sock`pos, sock`schedule, buf
    ensures sock.Valid()
    ensures ok ==> sock.pos == old(sock.pos) + n && buf[..n] == sock.incoming[old(sock.pos)..sock.pos]
    ensures !ok ==> old(sock.pos) <= sock.pos < old(sock.pos) + n
    ensures if ok then Unbroken(old(sock.schedule), sock.schedule) else sock.Stopped(old(sock.schedule))
  {
    var got := 0;
    while got < n
      invariant sock.Valid() && 0 <= got <= n && sock.pos == old(sock.pos) + got
      invariant buf[..got] == sock.incoming[old(sock.pos)..sock.pos]
      invariant Unbroken(old(sock.schedule), sock.schedule)
      decreases |sock.schedule|
    {
      ghost var before, plans := sock.pos, sock.schedule;
      var r := sock.Recv(buf, got, n - got);
      UnbrokenOn(old(sock.schedule), plans, sock.schedule);
      if r == Got(0) {
        return false;
      }
      if r.Failed? {
        return false;
      }
      if r.Got? {
        assert buf[..got + r.n] == buf[..got] + buf[got..got + r.n];
        assert sock.incoming[old(sock.pos)..sock.pos]
            == sock.incoming[old(sock.pos)..before] + sock.incoming[before..sock.pos];
        got := got + r.n;
      }
    }
    return true;
  }

  /** The dump loop: skips `n` bytes, 32 at a time. */
  method Skip(sock: Socket, n: nat) returns (ok: bool)
    requires sock.Valid()
    modifies sock`pos, sock`schedule
    ensures sock.Valid()
    ensures ok ==> sock.pos == old(sock.pos) + n
    ensures !ok ==> old(sock.pos) <= sock.pos < old(sock.pos) + n
    ensures if ok then Unbroken(old(sock.schedule), sock.schedule) else sock.Stopped(old(sock.schedule))
  {
    var toDump := n;
    while toDump > 0
      invariant sock.Valid() && 0 <= toDump <= n && sock.pos + toDump == old(sock.pos) + n
      invariant Unbroken(old(sock.schedule), sock.schedule)
    {
      var dump := new byte[DUMP];
      var chunk := if toDump < DUMP then toDump else DUMP;
      ghost var plans := sock.schedule;
      ok := RecvAll(sock, dump, chunk);
      UnbrokenOn(old(sock.schedule), plans, sock.schedule);
      if !ok {
        return;
      }
      toDump := toDump - chunk;
    }
    return true;
  }

  /** `can_from_tcp_parts`. */
  function CanFromTcpParts(hdr: seq<byte>, data: seq<byte>, dataLen: nat): Option<Frame>
    requires |hdr| == HEADER && |data| == MAX_DLC
  {
    if hdr[5] > MAX_DLC || dataLen != hdr[5] then
      None
    else
      Some(CanFrame(Read32(hdr) % ID_RANGE, HasFlag(hdr[4], FLAG_EXT), HasFlag(hdr[4], FLAG_RTR),
                    hdr[5], data[..hdr[5]] + seq(MAX_DLC - hdr[5], _ => 0)))
  }

  /** Which records the client forwards, and as what: exactly a header and at most 8 data
      bytes, as many as the header says. */
  function Accept(rec: seq<byte>): Option<Frame> {
    if HEADER <= |rec| <= HEADER + MAX_DLC && |rec| == HEADER + rec[5] then
      Some(CanFrame(Read32(rec) % ID_RANGE, HasFlag(rec[4], FLAG_EXT), HasFlag(rec[4], FLAG_RTR),
                    rec[5], rec[HEADER..] + seq(MAX_DLC - rec[5], _ => 0)))
    else
      None
  }

  function Forwarded(records: seq<seq<byte>>): seq<Frame> {
    if records == [] then
      []
    else
      (match Accept(records[0]) case Some(f) => [f] case None => []) + Forwarded(records[1..])
  }

  lemma {:induction false} ForwardedAppend(a: seq<seq<byte>>, b: seq<seq<byte>>)
    ensures Forwarded(a + b) == Forwarded(a) + Forwarded(b)
  {
    hide Accept;
    if a == [] {
      assert a + b == b;
    } else {
      assert (a + b)[1..] == a[1..] + b;
      ForwardedAppend(a[1..], b);
    }
  }

  /** Header and data of a record whose length is good, from just after the length on. */
  method ReadParts(sock: Socket, payLen: nat, hdrbuf: array<byte>, databuf: array<byte>)
    returns (running: bool, out: Option<Frame>)
    requires sock.Valid() && hdrbuf.Length == HEADER && databuf.Length == MAX_DLC && hdrbuf != databuf
    requires HEADER <= payLen <= HEADER + MAX_DLC
    modifies sock`pos, sock`schedule, hdrbuf, databuf
    ensures sock.Valid()
    ensures if running then
              sock.pos == old(sock.pos) + payLen && out == Accept(sock.incoming[old(sock.pos)..sock.pos])
            else
              old(sock.pos) <= sock.pos < old(sock.pos) + payLen && out.None?
    ensures if running then Unbroken(old(sock.schedule), sock.schedule) else sock.Stopped(old(sock.schedule))
  {
    hide Read32, CanFromTcpParts, Accept, Unbroken, Broken;
    ghost var start, stream := sock.pos, sock.incoming;
    out := None;
    running := RecvAll(sock, hdrbuf, HEADER);
    if !running {
      return;
    }
    assert hdrbuf[..] == hdrbuf[..HEADER];
    ghost var hdr, plans := hdrbuf[..], sock.schedule;
    var dataLen := payLen - HEADER;
    if dataLen > 0 {
      running := RecvAll(sock, databuf, dataLen);
      UnbrokenOn(old(sock.schedule), plans, sock.schedule);
      if !running {
        return;
      }
    }
    ghost var rec := stream[start..sock.pos];
    assert hdrbuf[..] == hdr == rec[..HEADER];
    assert databuf[..dataLen] == rec[HEADER..];
    out := CanFromTcpParts(hdrbuf[..], databuf[..], dataLen);
    PartsAccept(rec, hdrbuf[..], databuf[..]);
  }

  /** One pass of the loop of `main` from a readable socket on. A pass that ends without a
      socket error has consumed exactly one record, good or bad, and yields the frame to
      forward; otherwise it has consumed an incomplete one. */
  method ReadRecord(sock: Socket, lenbuf: array<byte>, hdrbuf: array<byte>, databuf: array<byte>)
    returns (running: bool, out: Option<Frame>, ghost rec: seq<byte>)
    requires sock.Valid() && lenbuf.Length == 2 && hdrbuf.Length == HEADER && databuf.Length == MAX_DLC
    requires lenbuf != hdrbuf && hdrbuf != databuf && lenbuf != databuf
    modifies sock`pos, sock`schedule, lenbuf, hdrbuf, databuf
    ensures sock.Valid() && old(sock.pos) <= sock.pos
    ensures running ==> |rec| < 0x1_0000 && sock.incoming[old(sock.pos)..sock.pos] == Framed(rec)
                        && out == Accept(rec)
    ensures !running ==> Incomplete(sock.incoming[old(sock.pos)..sock.pos]) && out.None?
    ensures if running then Unbroken(old(sock.schedule), sock.schedule) else sock.Stopped(old(sock.schedule))
  {
    hide Read16, Accept, Framed, Incomplete, Unbroken, Broken;
    ghost var start, stream := sock.pos, sock.incoming;
    out, rec := None, [];
    running := RecvAll(sock, lenbuf, 2);
    if !running {
      NoLength(stream[start..sock.pos]);
      return;
    }
    ghost var plans := sock.schedule;
    var payLen := Read16(lenbuf[..]);
    assert lenbuf[..] == lenbuf[..2] == stream[start..start + 2];
    var bad := payLen < HEADER || payLen > HEADER + MAX_DLC;
    if bad {
      running := Skip(sock, payLen);
    } else {
      running, out := ReadParts(sock, payLen, hdrbuf, databuf);
    }
    UnbrokenOn(old(sock.schedule), plans, sock.schedule);
    LengthPrefix(stream, start, sock.pos, payLen);
    if running {
      rec := stream[start + 2..sock.pos];
      if bad {
        BadLength(rec);
      }
    }
  }

  lemma LengthPrefix(stream: seq<byte>, start: nat, end: nat, length: nat)
    requires start + 2 <= end <= |stream| && length < 0x1_0000
    requires Read16(stream[start..start + 2]) == length
    ensures end < start + 2 + length ==> Incomplete(stream[start..end])
    ensures end == start + 2 + length ==> stream[start..end] == Framed(stream[start + 2..end])
  {
    var s := stream[start..end];
    assert s[..2] == stream[start..start + 2] == Be16(length);
    assert Read16(s) == length;
    assert s == s[..2] + s[2..];
    assert s[2..] == stream[start + 2..end];
  }

  lemma NoLength(s: seq<byte>)
    requires |s| < 2
    ensures Incomplete(s)
  {
  }

  lemma BadLength(rec: seq<byte>)
    requires |rec| < HEADER || |rec| > HEADER + MAX_DLC
    ensures Accept(rec) == None
  {
  }

  lemma PartsAccept(rec: seq<byte>, hdr: seq<byte>, data: seq<byte>)
    requires HEADER <= |rec| <= HEADER + MAX_DLC && |data| == MAX_DLC
    requires hdr == rec[..HEADER] && data[..|rec| - HEADER] == rec[HEADER..]
    ensures CanFromTcpParts(hdr, data, |rec| - HEADER) == Accept(rec)
  {
    assert Read32(hdr) == Read32(rec);
  }

  /** What the client reads from where, and what it refuses. */
  lemma AcceptLayout(r: seq<byte>)
    ensures Accept(r).Some? <==> 6 <= |r| <= 14 && |r| == 6 + r[5] as int
    ensures Accept(r).Some? ==>
              var f := Accept(r).value;
              && f.id == (r[0] as int * 0x100_0000 + r[1] as int * 0x1_0000 + r[2] as int * 0x100 + r[3] as int)
                         % 0x2000_0000
              && (f.ide <==> r[4] % 2 == 1) && (f.rtr <==> r[4] % 4 >= 2)
              && f.dlc == r[5] && |f.data| == 8 && f.data[..r[5]] == r[6..]
              && forall k :: r[5] as int <= k < 8 ==> f.data[k] == 0
  {
    hide HasFlag;
    if |r| >= 6 { BitsAre(r[4]); }
  }

  // ---- Sending ----------------------------------------------------------------------

  function ClientFlags(cf: Frame): byte {
    Bit(cf.ide, FLAG_EXT) + Bit(cf.rtr, FLAG_RTR)
  }

  /** The record `tcp_send_can_frame` puts together. */
  function ClientRecord(cf: Frame): (rec: seq<byte>)
    ensures |rec| == HEADER + cf.dlc
  {
    Be32(cf.id % ID_RANGE) + [ClientFlags(cf), cf.dlc] + cf.data[..cf.dlc]
  }

  /** What a frame hands to `zsock_send`, call by call: length, header, and data if any. */
  function Pieces(cf: Frame): (ps: seq<seq<byte>>)
    ensures |ps| == if cf.dlc > 0 then 3 else 2
    ensures Flatten(ps) == Framed(ClientRecord(cf))
  {
    var header := Be32(cf.id % ID_RANGE) + [ClientFlags(cf), cf.dlc];
    var ps := [Be16(HEADER + cf.dlc), header] + if cf.dlc > 0 then [cf.data[..cf.dlc]] else [];
    PiecesJoin(cf, ps[0], header, ps);
    ps
  }

  lemma PiecesJoin(cf: Frame, length: seq<byte>, header: seq<byte>, ps: seq<seq<byte>>)
    requires length == Be16(HEADER + cf.dlc) && header == Be32(cf.id % ID_RANGE) + [ClientFlags(cf), cf.dlc]
    requires ps == [length, header] + if cf.dlc > 0 then [cf.data[..cf.dlc]] else []
    ensures Flatten(ps) == Framed(ClientRecord(cf))
  {
    hide Be32, Be16, ClientFlags;
    var data := cf.data[..cf.dlc];
    assert Framed(ClientRecord(cf)) == length + (header + data);
    assert ps[1..][0] == header;
    if cf.dlc > 0 {
      var tail: seq<seq<byte>> := [data];
      assert ps[1..][1..] == tail && tail[1..] == [];
    } else {
      assert ps[1..][1..] == [];
    }
    assert Flatten(ps[1..][1..]) == data;
    assert Flatten(ps[1..]) == header + data;
  }

  /** What sending some pieces puts on the stream, whether all of it went through, and the
      answers left. */
  datatype SendLog = SendLog(bytes: seq<byte>, ok: bool, left: seq<int>)

  /** Pieces are sent in order, up to the first that is not accepted whole. */
  function SendPieces(pieces: seq<seq<byte>>, accepts: seq<int>): SendLog {
    if pieces == [] then
      SendLog([], true, accepts)
    else
      var r, later := Returned(|pieces[0]|, accepts), Later(accepts);
      if r != |pieces[0]| then
        SendLog(pieces[0][..Max0(r)], false, later)
      else
        var log := SendPieces(pieces[1..], later);
        log.(bytes := pieces[0] + log.bytes)
  }

  lemma SendPiece(pieces: seq<seq<byte>>, accepts: seq<int>)
    ensures pieces == [] ==> SendPieces(pieces, accepts) == SendLog([], true, accepts)
    ensures pieces != [] ==>
              var r, log := Returned(|pieces[0]|, accepts), SendPieces(pieces[1..], Later(accepts));
              SendPieces(pieces, accepts)
              == if r == |pieces[0]| then log.(bytes := pieces[0] + log.bytes)
                 else SendLog(pieces[0][..Max0(r)], false, Later(accepts))
  {
  }

  /** `tcp_send_can_frame`: gives up at the first send that is not complete. */
  method TcpSendCanFrame(sock: Socket, cf: Frame) returns (ok: bool)
    requires sock.Valid()
    modifies sock`outgoing, sock`accepts
    ensures sock.Valid()
    ensures var log := SendPieces(Pieces(cf), old(sock.accepts));
            sock.outgoing == old(sock.outgoing) + log.bytes && ok == log.ok && sock.accepts == log.left
  {
    hide Be32, Be16, ClientFlags, SendPieces, Flatten, Returned, Later;
    var header := Be32(cf.id % ID_RANGE) + [ClientFlags(cf), cf.dlc];
    var length := Be16(HEADER + cf.dlc);
    ghost var ps, before := Pieces(cf), sock.outgoing;
    SendPiece(ps, sock.accepts);
    ok := false;
    var r := sock.Send(length);
    if r != 2 {
      return;
    }
    SendPiece(ps[1..], sock.accepts);
    r := sock.Send(header);
    Concat3(before, length, header[..Max0(r)]);
    if r != HEADER {
      return;
    }
    SendPiece(ps[2..], sock.accepts);
    assert ps[1..][1..] == ps[2..];
    if cf.dlc > 0 {
      SendPiece(ps[2..][1..], Later(sock.accepts));
      r := sock.Send(cf.data[..cf.dlc]);
      Concat3(before, length + header, cf.data[..cf.dlc][..Max0(r)]);
      Concat3(length, header, cf.data[..cf.dlc][..Max0(r)]);
      if r != cf.dlc {
        return;
      }
    }
    ok := true;
  }

  // ---- The receive queue --------------------------------------------------------------

  datatype QueueEvent = Arrive(frame: Frame) | Take

  /** How many frames the queue holds after these events, by counting alone. */
  function Occupancy(h: seq<QueueEvent>): (n: nat)
    ensures n <= RX_MSGQ_LEN
  {
    if h == [] then
      0
    else
      var n := Occupancy(h[..|h| - 1]);
      match h[|h| - 1]
      case Arrive(_) => if n < RX_MSGQ_LEN then n + 1 else n
      case Take => if n > 0 then n - 1 else n
  }

  /** The arrivals, in order, minus exactly those that found 32 frames in the queue. */
  function Kept(h: seq<QueueEvent>): seq<Frame> {
    if h == [] then
      []
    else
      var before, last := h[..|h| - 1], h[|h| - 1];
      Kept(before) + if last.Arrive? && Occupancy(before) < RX_MSGQ_LEN then [last.frame] else []
  }

  /** Of the frames that arrive at an empty queue before anything is taken, the first 32 are
      kept. */
  lemma {:induction false} BurstKept(burst: seq<Frame>)
    ensures Occupancy(Arrivals(burst)) == if |burst| <= 32 then |burst| else 32
    ensures Kept(Arrivals(burst)) == if |burst| <= 32 then burst else burst[..32]
  {
    if burst != [] {
      var last := |burst| - 1;
      ArrivalsNext(burst, last);
      assert burst[..last + 1] == burst;
      assert Arrivals(burst)[..last] == Arrivals(burst[..last]);
      BurstKept(burst[..last]);
    }
  }

  /** Taking makes room for one more. */
  lemma RoomAfterTake(h: seq<QueueEvent>, frame: Frame)
    ensures Occupancy(h) > 0 ==> Kept(h + [Take, Arrive(frame)]) == Kept(h) + [frame]
    ensures Occupancy(h) < 32 ==> Kept(h + [Arrive(frame)]) == Kept(h) + [frame]
    ensures Occupancy(h) >= 32 ==> Kept(h + [Arrive(frame)]) == Kept(h)
  {
    var t := h + [Take];
    assert (h + [Arrive(frame)])[..|h|] == h && t[..|h|] == h;
    assert h + [Take, Arrive(frame)] == t + [Arrive(frame)];
    assert (t + [Arrive(frame)])[..|t|] == t;
  }

  /** `can_rx_q`: filled by the receive callback, emptied by `main`. */
  class RxQueue {
    var slots: seq<Frame>
    ghost var history: seq<QueueEvent>
    ghost var taken: seq<Frame>

    ghost predicate Valid()
      reads this
    {
      |slots| == Occupancy(history) && taken + slots == Kept(history)
    }

    constructor ()
      ensures Valid() && slots == [] && history == [] && taken == []
    {
      slots, history, taken := [], [], [];
    }

    /** `can_rx_cb`: queues the frame, or drops it when the queue is full. */
    method CanRxCb(frame: Frame)
      requires Valid()
      modifies this
      ensures Valid() && history == old(history) + [Arrive(frame)] && taken == old(taken)
      ensures slots == if |old(slots)| < RX_MSGQ_LEN then old(slots) + [frame] else old(slots)
    {
      history := history + [Arrive(frame)];
      assert history[..|history| - 1] == old(history);
      if |slots| < RX_MSGQ_LEN {
        slots := slots + [frame];
      }
    }

    /** `k_msgq_get`. */
    method Get() returns (frame: Option<Frame>)
      requires Valid()
      modifies this
      ensures Valid() && history == old(history) + [Take]
      ensures frame.None? <==> old(slots) == []
      ensures frame.None? ==> slots == [] && taken == old(taken)
      ensures frame.Some? ==> [frame.value] + slots == old(slots) && taken == old(taken) + [frame.value]
    {
      history := history + [Take];
      assert history[..|history| - 1] == old(history);
      frame := None;
      if slots != [] {
        frame := Some(slots[0]);
        taken := taken + [slots[0]];
        slots := slots[1..];
      }
    }
  }

  // ---- main ---------------------------------------------------------------------------

  /** What sending these frames one after the other puts on the stream, frame by frame,
      whatever fails on the way, and the answers left. */
  datatype FramesLog = FramesLog(parts: seq<seq<byte>>, left: seq<int>)

  function SendFrames(taken: seq<Frame>, accepts: seq<int>): (log: FramesLog)
    ensures |log.parts| == |taken|
  {
    if taken == [] then
      FramesLog([], accepts)
    else
      var first := SendPieces(Pieces(taken[0]), accepts);
      var log := SendFrames(taken[1..], first.left);
      FramesLog([first.bytes] + log.parts, log.left)
  }

  lemma {:induction false} SendFramesSnoc(taken: seq<Frame>, cf: Frame, accepts: seq<int>)
    ensures var log := SendFrames(taken, accepts);
            var last := SendPieces(Pieces(cf), log.left);
            SendFrames(taken + [cf], accepts) == FramesLog(log.parts + [last.bytes], last.left)
  {
    hide SendPieces, Pieces;
    if taken == [] {
      assert [cf][1..] == [] && taken + [cf] == [cf];
    } else {
      assert (taken + [cf])[1..] == taken[1..] + [cf];
      SendFramesSnoc(taken[1..], cf, SendPieces(Pieces(taken[0]), accepts).left);
    }
  }

  /** The stream after these frames have been sent, and the answers left. */
  predicate SentAll(outgoing: seq<byte>, left: seq<int>, taken: seq<Frame>, accepts: seq<int>) {
    var log := SendFrames(taken, accepts);
    outgoing == Flatten(log.parts) && left == log.left
  }

  function Arrivals(burst: seq<Frame>): seq<QueueEvent> {
    seq(|burst|, i requires 0 <= i < |burst| => Arrive(burst[i]))
  }

  lemma ArrivalsNone()
    ensures Arrivals([]) == []
  {
  }

  lemma ArrivalsNext(burst: seq<Frame>, i: nat)
    requires i < |burst|
    ensures Arrivals(burst[..i + 1]) == Arrivals(burst[..i]) + [Arrive(burst[i])]
  {
  }

  /** What happens to the queue in `looks` looks by `main`, if the receive callback delivers
      `bursts[k]` before the k-th look of the run and nothing once the bursts are over. */
  function QueueWord(bursts: seq<seq<Frame>>, looks: nat): seq<QueueEvent> {
    if looks == 0 then
      []
    else
      QueueWord(bursts, looks - 1)
      + (if looks <= |bursts| then Arrivals(bursts[looks - 1]) else []) + [Take]
  }

  /** The receive callback, called once for each of these frames. */
  method Deliveries(queue: RxQueue, burst: seq<Frame>)
    requires queue.Valid()
    modifies queue
    ensures queue.Valid() && queue.taken == old(queue.taken)
    ensures queue.history == old(queue.history) + Arrivals(burst)
  {
    hide Arrivals, Kept, Occupancy;
    ArrivalsNone();
    for i := 0 to |burst|
      invariant queue.Valid() && queue.taken == old(queue.taken)
      invariant queue.history == old(queue.history) + Arrivals(burst[..i])
    {
      queue.CanRxCb(burst[i]);
      ArrivalsNext(burst, i);
    }
    assert burst[..|burst|] == burst;
  }

  /** The queue-emptying loop, from the given look of the run on: it ends with the queue
      empty, whatever arrives meanwhile. */
  method DrainQueue(sock: Socket, queue: RxQueue, bursts: seq<seq<Frame>>, look: nat, ghost accepts: seq<int>)
    returns (looks: nat)
    requires sock.Valid() && queue.Valid() && SentAll(sock.outgoing, sock.accepts, queue.taken, accepts)
    requires queue.history == QueueWord(bursts, look)
    modifies sock`outgoing, sock`accepts, queue
    ensures sock.Valid() && queue.Valid() && SentAll(sock.outgoing, sock.accepts, queue.taken, accepts)
    ensures looks > look && queue.history == QueueWord(bursts, looks) && queue.slots == []
  {
    hide Flatten, Kept, Occupancy, Arrivals, SendPieces, Pieces, SendFrames;
    looks := look;
    while true
      invariant sock.Valid() && queue.Valid() && SentAll(sock.outgoing, sock.accepts, queue.taken, accepts)
      invariant looks >= look && queue.history == QueueWord(bursts, looks)
      decreases if looks < |bursts| then |bursts| - looks else 0, |queue.slots|
    {
      if looks < |bursts| {
        Deliveries(queue, bursts[looks]);
      }
      ghost var taken := queue.taken;
      var cf := queue.Get();
      looks := looks + 1;
      if cf.None? {
        return;
      }
      var ok := TcpSendCanFrame(sock, cf.value);  // main ignores the result
      SendFramesSnoc(taken, cf.value, accepts);
      ghost var log := SendFrames(taken, accepts);
      FlattenSnoc(log.parts, SendPieces(Pieces(cf.value), log.left).bytes);
    }
  }

  /** The receiving side between two passes: which records were read, and what of them was
      forwarded; a running client stands at a record boundary. */
  ghost predicate InSync(stream: seq<byte>, pos: nat, records: seq<seq<byte>>,
                         forwarded: seq<Frame>, running: bool) {
    && pos <= |stream| && Sized(records)
    && Split(stream[..pos]).records == records && forwarded == Forwarded(records)
    && (running ==> stream[..pos] == Join(records))
  }

  /** Reads one record and appends what it forwards. */
  method ForwardNext(sock: Socket, lenbuf: array<byte>, hdrbuf: array<byte>, databuf: array<byte>,
                     forwarded: seq<Frame>, ghost records: seq<seq<byte>>)
    returns (running: bool, forwarded': seq<Frame>, ghost records': seq<seq<byte>>)
    requires sock.Valid() && lenbuf.Length == 2 && hdrbuf.Length == HEADER && databuf.Length == MAX_DLC
    requires lenbuf != hdrbuf && hdrbuf != databuf && lenbuf != databuf
    requires InSync(sock.incoming, sock.pos, records, forwarded, true)
    modifies sock`pos, sock`schedule, lenbuf, hdrbuf, databuf
    ensures sock.Valid() && InSync(sock.incoming, sock.pos, records', forwarded', running)
    ensures |records'| == |records| + if running then 1 else 0
    ensures if running then Unbroken(old(sock.schedule), sock.schedule) else sock.Stopped(old(sock.schedule))
  {
    hide Split, Forwarded, Accept, Framed, Join, Incomplete, Unbroken, Broken;
    ghost var stream, start := sock.incoming, sock.pos;
    var out;
    ghost var rec;
    running, out, rec := ReadRecord(sock, lenbuf, hdrbuf, databuf);
    ghost var more := stream[start..sock.pos];
    assert stream[..sock.pos] == stream[..start] + more;
    forwarded', records' := forwarded, records;
    if running {
      ReadOne(records, rec);
      records' := records + [rec];
      if out.Some? {
        forwarded' := forwarded + [out.value];
      }
    } else {
      SplitUnique(records, more);
    }
  }

  datatype Poll = TimedOut | PollError | NotReadable | PollIn

  function PollInCount(polls: seq<Poll>): nat {
    if polls == [] then 0 else PollInCount(polls[..|polls| - 1]) + if polls[|polls| - 1].PollIn? then 1 else 0
  }

  /** What the client has put on the stream after so many looks into its queue, when all it
      found there was taken: a function of the arrivals and of what each send accepts. */
  function ClientStream(bursts: seq<seq<Frame>>, looks: nat, accepts: seq<int>): seq<byte> {
    Flatten(SendFrames(Kept(QueueWord(bursts, looks)), accepts).parts)
  }

  /** What the polls made, the `n` records read and the receive calls used up tell about the
      loop: one record past each readable poll while it runs; it stops when the last poll
      failed, or was readable and the receive calls after it ended the connection. */
  predicate Progress(polls: seq<Poll>, n: nat, running: bool, plans: seq<RecvPlan>, left: seq<RecvPlan>, atEnd: bool)
  {
    if running then
      PollError !in polls && n == PollInCount(polls) && Unbroken(plans, left)
    else
      && polls != [] && PollError !in polls[..|polls| - 1] && n == PollInCount(polls[..|polls| - 1])
      && match polls[|polls| - 1]
         case PollError => Unbroken(plans, left)
         case PollIn => Broken(plans, left) || (Unbroken(plans, left) && (left == [] || atEnd))
         case _ => false
  }

  /** One more poll, and what it led to. */
  lemma OnePoll(polls: seq<Poll>, poll: Poll, n: nat, plans: seq<RecvPlan>, before: seq<RecvPlan>,
                left: seq<RecvPlan>, running: bool, atEnd: bool)
    requires Progress(polls, n, true, plans, before, false)
    requires poll == PollIn ==>
               if running then Unbroken(before, left)
               else Broken(before, left) || (Unbroken(before, left) && (left == [] || atEnd))
    requires poll != PollIn ==> left == before && (running <==> poll != PollError)
    ensures Progress(polls + [poll], n + if running && poll == PollIn then 1 else 0, running, plans, left, atEnd)
  {
    hide Unbroken, Broken;
    assert (polls + [poll])[..|polls|] == polls;
    UnbrokenOn(plans, before, left);
  }

  /** The receiving side after these polls: what was read and forwarded of the stream, and
      whether the loop goes on; it stands at a record boundary unless a receive stopped it. */
  ghost predicate Receiving(stream: seq<byte>, pos: nat, plans: seq<RecvPlan>, left: seq<RecvPlan>,
                            polls: seq<Poll>, forwarded: seq<Frame>, running: bool) {
    exists records: seq<seq<byte>> ::
      && Progress(polls, |records|, running, plans, left, pos == |stream|)
      && InSync(stream, pos, records, forwarded, running || (polls != [] && polls[|polls| - 1] == PollError))
  }

  /** The rest of a pass of the loop, from the poll on. */
  method AfterPoll(sock: Socket, lenbuf: array<byte>, hdrbuf: array<byte>, databuf: array<byte>, poll: Poll,
                   forwarded: seq<Frame>, ghost polls: seq<Poll>, ghost plans: seq<RecvPlan>)
    returns (running: bool, forwarded': seq<Frame>)
    requires sock.Valid() && lenbuf.Length == 2 && hdrbuf.Length == HEADER && databuf.Length == MAX_DLC
    requires lenbuf != hdrbuf && hdrbuf != databuf && lenbuf != databuf
    requires Receiving(sock.incoming, sock.pos, plans, sock.schedule, polls, forwarded, true)
    modifies sock`pos, sock`schedule, lenbuf, hdrbuf, databuf
    ensures sock.Valid()
    ensures Receiving(sock.incoming, sock.pos, plans, sock.schedule, polls + [poll], forwarded', running)
  {
    hide Unbroken, Broken, Progress, InSync;
    running, forwarded' := true, forwarded;
    ghost var before, atEnd := sock.schedule, sock.pos == |sock.incoming|;
    ghost var records: seq<seq<byte>> :|
      && Progress(polls, |records|, true, plans, before, atEnd)
      && InSync(sock.incoming, sock.pos, records, forwarded, true);
    ghost var records' := records;
    if poll == PollError {
      running := false;
    } else if poll == PollIn {
      running, forwarded', records' := ForwardNext(sock, lenbuf, hdrbuf, databuf, forwarded, records);
    }
    StillGoing(polls, |records|, plans, before);
    OnePoll(polls, poll, |records|, plans, before, sock.schedule, running, sock.pos == |sock.incoming|);
    assert (polls + [poll])[|polls|] == poll;
    assert Progress(polls + [poll], |records'|, running, plans, sock.schedule, sock.pos == |sock.incoming|);
  }

  /** `main` from a connected socket on, for any arrivals, poll results, short reads, EAGAINs
      and short sends.
      Receiving: the frames forwarded to the CAN bus are those of the whole records of the
      bytes consumed, so the record boundaries are those of `Split`; while the loop runs, and
      after a failed poll, it stands at a boundary.
      Sending: the frames taken from the queue are the arrivals that did not find it full,
      and what each put on the wire is what its sends accepted. */
  method Serve(incoming: seq<byte>, schedule: seq<RecvPlan>, accepts: seq<int>,
               bursts: seq<seq<Frame>>, polls: seq<Poll>)
    returns (forwarded: seq<Frame>, consumed: nat, outgoing: seq<byte>, running: bool, looks: nat,
             polled: nat, left: seq<RecvPlan>)
    ensures polled <= |polls| && polled <= looks && (if running then polled == |polls| else polled > 0)
    ensures outgoing == ClientStream(bursts, looks, accepts)
    ensures consumed <= |incoming| && forwarded == Forwarded(Split(incoming[..consumed]).records)
    ensures Progress(polls[..polled], |Split(incoming[..consumed]).records|, running, schedule, left,
                     consumed == |incoming|)
    ensures running || polls[polled - 1] == PollError ==> Split(incoming[..consumed]).rest == []
    ensures forall j :: 0 <= j < polled && polls[j] == PollError ==> !running && j == polled - 1
  {
    hide Split, Forwarded, ClientStream, Progress, SentAll, Kept, Occupancy, QueueWord, Receiving;
    var sock := new Socket(incoming, schedule, accepts);
    var queue := new RxQueue();
    var lenbuf, hdrbuf, databuf := new byte[2], new byte[HEADER], new byte[MAX_DLC];
    forwarded, running, looks, polled := [], true, 0, 0;
    AtStart(incoming, bursts, schedule, accepts);
    while polled < |polls| && running
      invariant 0 <= polled <= |polls| && polled <= looks && (running || polled > 0)
      invariant sock.Valid() && sock.incoming == incoming
      invariant queue.Valid() && queue.slots == [] && queue.history == QueueWord(bursts, looks)
      invariant SentAll(sock.outgoing, sock.accepts, queue.taken, accepts)
      invariant Receiving(incoming, sock.pos, schedule, sock.schedule, polls[..polled], forwarded, running)
      decreases |polls| - polled
    {
      looks := DrainQueue(sock, queue, bursts, looks, accepts);
      running, forwarded := AfterPoll(sock, lenbuf, hdrbuf, databuf, polls[polled], forwarded,
                                      polls[..polled], schedule);
      assert polls[..polled + 1] == polls[..polled] + [polls[polled]];
      polled := polled + 1;
    }
    consumed, outgoing, left := sock.pos, sock.outgoing, sock.schedule;
    ReceivingMeans(incoming, consumed, schedule, left, polls[..polled], forwarded, running);
    ErrorsStop(polls[..polled], |Split(incoming[..consumed]).records|, running, schedule, left, consumed == |incoming|);
    assert forall j :: 0 <= j < polled ==> polls[..polled][j] == polls[j];
    AllSent(outgoing, sock.accepts, queue, bursts, looks, accepts);
  }

  lemma ErrorsStop(polls: seq<Poll>, n: nat, running: bool, plans: seq<RecvPlan>, left: seq<RecvPlan>, atEnd: bool)
    requires Progress(polls, n, running, plans, left, atEnd)
    ensures forall j :: 0 <= j < |polls| && polls[j] == PollError ==> !running && j == |polls| - 1
  {
    hide Unbroken, Broken;
    assert forall j :: 0 <= j < |polls| ==> polls[j] in polls;
    assert forall j :: 0 <= j < |polls| - 1 ==> polls[j] in polls[..|polls| - 1];
  }

  lemma ReceivingMeans(stream: seq<byte>, pos: nat, plans: seq<RecvPlan>, left: seq<RecvPlan>,
                       polls: seq<Poll>, forwarded: seq<Frame>, running: bool)
    requires Receiving(stream, pos, plans, left, polls, forwarded, running)
    ensures pos <= |stream| && forwarded == Forwarded(Split(stream[..pos]).records)
    ensures Progress(polls, |Split(stream[..pos]).records|, running, plans, left, pos == |stream|)
    ensures running || (polls != [] && polls[|polls| - 1] == PollError) ==> Split(stream[..pos]).rest == []
  {
    hide Split, Join, Forwarded, Progress;
    var records: seq<seq<byte>> :|
      && Progress(polls, |records|, running, plans, left, pos == |stream|)
      && InSync(stream, pos, records, forwarded, running || (polls != [] && polls[|polls| - 1] == PollError));
    if running || (polls != [] && polls[|polls| - 1] == PollError) { AtBoundary(records); }
  }

  lemma AllSent(outgoing: seq<byte>, left: seq<int>, queue: RxQueue, bursts: seq<seq<Frame>>, looks: nat,
                accepts: seq<int>)
    requires queue.Valid() && queue.slots == [] && queue.history == QueueWord(bursts, looks)
    requires SentAll(outgoing, left, queue.taken, accepts)
    ensures outgoing == ClientStream(bursts, looks, accepts)
  {
    hide Kept, QueueWord, Occupancy, SendFrames, Flatten;
    assert queue.taken + [] == queue.taken;
  }

  lemma StillGoing(polls: seq<Poll>, n: nat, plans: seq<RecvPlan>, left: seq<RecvPlan>)
    ensures forall atEnd: bool :: Progress(polls, n, true, plans, left, atEnd) ==>
              Progress(polls, n, true, plans, left, false)
  {
  }

  lemma AtStart(stream: seq<byte>, bursts: seq<seq<Frame>>, plans: seq<RecvPlan>, accepts: seq<int>)
    ensures Receiving(stream, 0, plans, plans, [], [], true)
    ensures QueueWord(bursts, 0) == [] && SentAll([], accepts, [], accepts)
  {
    var none: seq<seq<byte>> := [];
    assert Progress([], |none|, true, plans, plans, 0 == |stream|) && InSync(stream, 0, none, [], true);
  }

  lemma AtBoundary(records: seq<seq<byte>>)
    requires Sized(records)
    ensures Split(Join(records)) == Parsed(records, [])
  {
    assert Join(records) + [] == Join(records);
    SplitUnique(records, []);
  }

  lemma ReadOne(records: seq<seq<byte>>, rec: seq<byte>)
    requires Sized(records) && |rec| < 0x1_0000
    ensures Join(records + [rec]) == Join(records) + Framed(rec)
    ensures Split(Join(records) + Framed(rec)).records == records + [rec]
    ensures Forwarded(records + [rec])
            == Forwarded(records) + match Accept(rec) case Some(f) => [f] case None => []
  {
    hide Accept;
    JoinAppend(records, [rec]);
    assert Join([rec]) == Framed(rec);
    assert Join(records + [rec]) + [] == Join(records) + Framed(rec);
    SplitUnique(records + [rec], []);
    ForwardedAppend(records, [rec]);
    assert [rec][1..] == [];
  }
}
