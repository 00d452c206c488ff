/** `TCPFramer` and the receive loop of the Python bridge for one connection. */
module Framer {
  import opened Sequences
  import opened Outcomes
  import opened Wire
  import opened Records

  class TcpFramer {
    var buf: seq<byte>

    constructor ()
      ensures buf == []
    {
      buf := [];
    }

    method Feed(chunk: seq<byte>)
      modifies this
      ensures buf == old(buf) + chunk
    {
      buf := buf + chunk;
    }

    method NextRecord() returns (rec: Option<seq<byte>>)
      modifies this
      ensures rec.None? <==> Incomplete(old(buf))
      ensures rec.None? ==> buf == old(buf)
      ensures rec.Some? ==> |rec.value| < 0x1_0000 && Framed(rec.value) + buf == old(buf)
      ensures rec.Some? ==> |buf| <= |old(buf)| - 2
    {
      if |buf| < 2 {
        return None;
      }
      var length := Read16(buf);
      var total := 2 + length;
      if |buf| < total {
        return None;
      }
      rec := Some(buf[2..total]);
      assert Framed(buf[2..total]) == buf[..total];
      buf := buf[total..];
    }

    /** Calls `NextRecord` until it returns nothing. The buffer shrinks by at least the two
        length bytes each time, so the loop ends even on zero-length records. */
    method Drain() returns (records: seq<seq<byte>>)
      modifies this
      ensures Parsed(records, buf) == Split(old(buf))
    {
      records := [];
      var more := true;
      while more
        invariant Sized(records) && Join(records) + buf == old(buf)
        invariant !more ==> Incomplete(buf)
        decreases more, |buf|
      {
        var before := buf;
        var rec := NextRecord();
        match rec
        case None =>
          more := false;
        case Some(r) =>
          JoinAppend(records, [r]);
          assert Join([r]) == Framed(r);
          assert before == Framed(r) + buf;
          records := records + [r];
      }
      SplitUnique(records, buf);
    }
  }

  /** However a stream is cut into chunks, draining after each chunk yields the records of
      the whole stream and leaves its incomplete tail. */
  method FeedAll(chunks: seq<seq<byte>>) returns (records: seq<seq<byte>>, leftover: seq<byte>)
    ensures Parsed(records, leftover) == Split(Flatten(chunks))
    ensures Sized(records) && Join(records) + leftover == Flatten(chunks)
  {
    var framer := new TcpFramer();
    records := [];
    for i := 0 to |chunks|
      invariant Parsed(records, framer.buf) == Split(Flatten(chunks[..i]))
    {
      assert chunks[..i + 1] == chunks[..i] + [chunks[i]];
      FlattenSnoc(chunks[..i], chunks[i]);
      SplitAppend(Flatten(chunks[..i]), chunks[i]);
      framer.Feed(chunks[i]);
      var rs := framer.Drain();
      records := records + rs;
    }
    assert chunks[..|chunks|] == chunks;
    SplitJoins(Flatten(chunks));
    leftover := framer.buf;
  }

  /** What one `recv` returns; an empty chunk is the peer closing the connection. */
  datatype RecvEvent = Chunk(bytes: seq<byte>) | SocketError

  /** What one `bus.send` does: `Refused` is a `CanError`, `Raised` any other exception. */
  datatype BusOutcome = Sent | Refused | Raised

  /** The bytes received before the connection ends. */
  function Received(events: seq<RecvEvent>): seq<byte> {
    if events == [] || events[0].SocketError? || events[0].bytes == [] then
      []
    else
      events[0].bytes + Received(events[1..])
  }

  /** These bytes: the chunks up to the first that is empty, the first error, or the end. */
  lemma {:induction false} ReceivedIs(events: seq<RecvEvent>, n: nat)
    requires n <= |events| && forall i :: 0 <= i < n ==> events[i].Chunk? && events[i].bytes != []
    requires n == |events| || events[n].SocketError? || events[n].bytes == []
    ensures Received(events) == Flatten(seq(n, i requires 0 <= i < n => events[i].bytes))
  {
    var chunks := seq(n, i requires 0 <= i < n => events[i].bytes);
    if n > 0 {
      ReceivedIs(events[1..], n - 1);
      assert chunks[1..] == seq(n - 1, i requires 0 <= i < n - 1 => events[1..][i].bytes);
    }
  }

  function Decoded(records: seq<seq<byte>>): seq<Result<Message>> {
    seq(|records|, i requires 0 <= i < |records| => CanFromFrame(records[i]))
  }

  /** The messages offered to `bus.send`, when `n` were offered before. */
  function Offered(decoded: seq<Result<Message>>, bus: nat -> BusOutcome, n: nat): seq<Message> {
    if decoded == [] || decoded[0].Failure? then
      []
    else if bus(n).Raised? then
      [decoded[0].value]
    else
      [decoded[0].value] + Offered(decoded[1..], bus, n + 1)
  }

  /** Every one of these records decodes and none of their sends raises. */
  predicate RunsOn(decoded: seq<Result<Message>>, bus: nat -> BusOutcome, n: nat) {
    decoded == [] ||
    (decoded[0].Success? && !bus(n).Raised? && RunsOn(decoded[1..], bus, n + 1))
  }

  /** What `Offered` means: an initial run of the decodings, which stops only before a
      malformed record or after a send that raised; refused frames do not stop it. */
  lemma {:induction false} OfferedMeaning(decoded: seq<Result<Message>>, bus: nat -> BusOutcome, n: nat)
    ensures var o := Offered(decoded, bus, n);
            && |o| <= |decoded|
            && (forall i :: 0 <= i < |o| ==> decoded[i] == Success(o[i]))
            && (forall j: nat :: n <= j < n + |o| - 1 ==> !bus(j).Raised?)
            && (|o| < |decoded| ==> decoded[|o|].Failure? || (|o| > 0 && bus(n + |o| - 1).Raised?))
            && (RunsOn(decoded, bus, n) <==>
                |o| == |decoded| && (|o| > 0 ==> !bus(n + |o| - 1).Raised?))
  {
    if decoded != [] && decoded[0].Success? && !bus(n).Raised? {
      OfferedMeaning(decoded[1..], bus, n + 1);
    }
  }

  lemma {:induction false} OfferedAppend(a: seq<Result<Message>>, b: seq<Result<Message>>,
                                         bus: nat -> BusOutcome, n: nat)
    ensures RunsOn(a, bus, n) ==>
              && Offered(a + b, bus, n) == Offered(a, bus, n) + Offered(b, bus, n + |a|)
              && |Offered(a, bus, n)| == |a|
    ensures !RunsOn(a, bus, n) ==> Offered(a + b, bus, n) == Offered(a, bus, n)
    ensures RunsOn(a + b, bus, n) <==> RunsOn(a, bus, n) && RunsOn(b, bus, n + |a|)
  {
    if a == [] {
      assert a + b == b;
    } else {
      assert (a + b)[1..] == a[1..] + b;
      OfferedAppend(a[1..], b, bus, n + 1);
    }
  }

  lemma HeadRecord(r: seq<byte>, s: seq<byte>)
    requires |r| < 0x1_0000
    ensures Split(Framed(r) + s) == Parsed([r] + Split(s).records, Split(s).rest)
  {
    var p := Split(s);
    SplitJoins(s);
    JoinCons(r, p.records, p.rest);
    SplitUnique([r] + p.records, p.rest);
  }

  lemma NothingOffered(bus: nat -> BusOutcome, n: nat)
    ensures Offered(Decoded([]), bus, n) == [] && RunsOn(Decoded([]), bus, n)
  {
  }

  lemma OfferedCons(d: Result<Message>, later: seq<Result<Message>>, bus: nat -> BusOutcome, n: nat)
    ensures Offered([d] + later, bus, n)
            == if d.Failure? then [] else if bus(n).Raised? then [d.value]
               else [d.value] + Offered(later, bus, n + 1)
    ensures RunsOn([d] + later, bus, n) <==> d.Success? && !bus(n).Raised? && RunsOn(later, bus, n + 1)
  {
    assert ([d] + later)[1..] == later;
  }

  lemma DecodedAppend(a: seq<seq<byte>>, b: seq<seq<byte>>)
    ensures Decoded(a + b) == Decoded(a) + Decoded(b)
  {
  }

  lemma DecodedCons(r: seq<byte>, records: seq<seq<byte>>)
    ensures Decoded([r] + records) == [CanFromFrame(r)] + Decoded(records)
  {
  }

  /** The inner loop of the receive loop: take records from the framer, decode, offer to the
      bus; a malformed record or a raised send ends it. */
  method DeliverBuffered(framer: TcpFramer, bus: nat -> BusOutcome, n: nat)
    returns (offered: seq<Message>, alive: bool)
    modifies framer
    ensures var p := Split(old(framer.buf));
            && offered == Offered(Decoded(p.records), bus, n)
            && (alive <==> RunsOn(Decoded(p.records), bus, n))
            && (alive ==> framer.buf == p.rest)
  {
    hide Incomplete, Split, Decoded, CanFromFrame, Join, Framed, Offered, RunsOn;
    offered, alive := [], true;
    ghost var p := Split(framer.buf);
    while true
      invariant Offered(Decoded(p.records), bus, n)
                == offered + Offered(Decoded(Split(framer.buf).records), bus, n + |offered|)
      invariant RunsOn(Decoded(p.records), bus, n)
                <==> RunsOn(Decoded(Split(framer.buf).records), bus, n + |offered|)
      invariant Split(framer.buf).rest == p.rest
      decreases |framer.buf|
    {
      var rec := framer.NextRecord();
      if rec.None? {
        SplitIncomplete(framer.buf);
        NothingOffered(bus, n + |offered|);
        return;
      }
      HeadRecord(rec.value, framer.buf);
      ghost var later := Decoded(Split(framer.buf).records);
      DecodedCons(rec.value, Split(framer.buf).records);
      OfferedCons(CanFromFrame(rec.value), later, bus, n + |offered|);
      var msg := CanFromFrame(rec.value);
      if msg.Failure? {
        return offered, false;
      }
      offered := offered + [msg.value];
      if bus(n + |offered| - 1).Raised? {
        return offered, false;
      }
    }
  }

  /** `_loop_tcp_to_can` on one connection, with a fresh framer. The frames offered to the
      bus depend only on the bytes received, not on how they were cut into chunks. */
  method LoopTcpToCan(events: seq<RecvEvent>, bus: nat -> BusOutcome) returns (offered: seq<Message>)
    ensures offered == Offered(Decoded(Split(Received(events)).records), bus, 0)
  {
    hide Split, Decoded, CanFromFrame, Offered, RunsOn, Pending, Received;
    var framer := new TcpFramer();
    offered := [];
    var i := 0;
    PendingIs(Received(events), bus, 0);
    assert events[0..] == events && [] + Received(events) == Received(events);
    while i < |events| && events[i].Chunk? && events[i].bytes != []
      invariant 0 <= i <= |events|
      invariant Pending(Received(events), bus, 0)
                == offered + Pending(framer.buf + Received(events[i..]), bus, |offered|)
      invariant Incomplete(framer.buf)
    {
      var chunk := events[i].bytes;
      ghost var later := Received(events[i + 1..]);
      ReceivedNext(events, i);
      SplitJoins(framer.buf + chunk);
      PendingAppend(framer.buf, chunk, later, bus, |offered|);
      framer.Feed(chunk);
      var batch, alive := DeliverBuffered(framer, bus, |offered|);
      offered := offered + batch;
      if !alive {
        return;
      }
      i := i + 1;
    }
    ReceivedNone(events[i..]);
    assert framer.buf + Received(events[i..]) == framer.buf;
    PendingNone(framer.buf, bus, |offered|);
  }

  /** What a stream still has to offer. */
  function Pending(s: seq<byte>, bus: nat -> BusOutcome, n: nat): seq<Message> {
    Offered(Decoded(Split(s).records), bus, n)
  }

  lemma PendingIs(s: seq<byte>, bus: nat -> BusOutcome, n: nat)
    ensures Pending(s, bus, n) == Offered(Decoded(Split(s).records), bus, n)
  {
  }

  lemma ReceivedNext(events: seq<RecvEvent>, i: nat)
    requires i < |events| && events[i].Chunk? && events[i].bytes != []
    ensures Received(events[i..]) == events[i].bytes + Received(events[i + 1..])
  {
    assert events[i..][1..] == events[i + 1..];
  }

  lemma ReceivedNone(events: seq<RecvEvent>)
    requires events == [] || events[0].SocketError? || events[0].bytes == []
    ensures Received(events) == []
  {
  }

  lemma PendingNone(s: seq<byte>, bus: nat -> BusOutcome, n: nat)
    requires Incomplete(s)
    ensures Pending(s, bus, n) == []
  {
  }

  lemma PendingAppend(buf: seq<byte>, chunk: seq<byte>, later: seq<byte>, bus: nat -> BusOutcome, n: nat)
    ensures var now := Decoded(Split(buf + chunk).records);
            Pending(buf + (chunk + later), bus, n)
            == if RunsOn(now, bus, n) then
                 Offered(now, bus, n) + Pending(Split(buf + chunk).rest + later, bus, n + |Offered(now, bus, n)|)
               else
                 Offered(now, bus, n)
  {
    hide Incomplete, Split, Offered, RunsOn, Decoded;
    Concat3(buf, chunk, later);
    SplitAppend(buf + chunk, later);
    var now, next := Split(buf + chunk), Split(Split(buf + chunk).rest + later);
    DecodedAppend(now.records, next.records);
    OfferedAppend(Decoded(now.records), Decoded(next.records), bus, n);
  }
}
