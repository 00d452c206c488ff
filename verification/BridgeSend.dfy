/** What every interleaving of the bridge keeps on the sending side. */
module BridgeSend {
  import opened Sequences
  import opened Wire
  import opened Records
  import opened BridgeThreads

  function Txs(conns: seq<Conn>): seq<Tx> {
    seq(|conns|, c requires 0 <= c < |conns| => conns[c].tx)
  }

  predicate Frames(bus: seq<Message>, idx: seq<nat>) {
    forall k :: 0 <= k < |idx| ==> idx[k] < |bus| && Encodable(bus[idx[k]])
  }

  /** The records of the bus frames with these indices. */
  function RecordsAt(bus: seq<Message>, idx: seq<nat>, useFd: bool): (rs: seq<seq<byte>>)
    requires Frames(bus, idx)
    ensures |rs| == |idx| && Sized(rs)
  {
    seq(|idx|, k requires 0 <= k < |idx| => RecordOf(bus[idx[k]], useFd))
  }

  predicate Below(idx: seq<nat>, bound: nat) {
    forall k :: 0 <= k < |idx| ==> idx[k] < bound
  }

  /** Nothing, or a strict prefix of the framing of one bus frame. */
  ghost predicate PartialFrame(bus: seq<Message>, tail: seq<byte>, useFd: bool) {
    tail == [] ||
    exists j: nat :: j < |bus| && Encodable(bus[j]) && tail < Framed(RecordOf(bus[j], useFd))
  }

  /** A connection carries its whole frames, then `tail`. */
  ghost predicate Carries(bus: seq<Message>, tx: Tx, tail: seq<byte>, useFd: bool) {
    && Frames(bus, tx.whole)
    && tx.sent == Join(RecordsAt(bus, tx.whole, useFd)) + tail
    && PartialFrame(bus, tail, useFd)
  }

  /** What the tail of connection `c` must be, as far as the thread's position tells. */
  ghost predicate TailFits(bus: seq<Message>, tx: Tx, c: nat, can: CanPc, tail: seq<byte>, useFd: bool) {
    tx.failed || can.CanStopped? ||
    if can.Sending? && can.conn == c then
      can.frame < |bus| && Encodable(bus[can.frame])
      && can.pos < |Framed(RecordOf(bus[can.frame], useFd))|
      && tail == Framed(RecordOf(bus[can.frame], useFd))[..can.pos]
    else
      tail == []
  }

  ghost predicate TxOk(bus: seq<Message>, tx: Tx, c: nat, can: CanPc, useFd: bool) {
    exists tail :: Carries(bus, tx, tail, useFd) && TailFits(bus, tx, c, can, tail, useFd)
  }

  function Wholes(txs: seq<Tx>): seq<seq<nat>> {
    seq(|txs|, c requires 0 <= c < |txs| => txs[c].whole)
  }

  /** Every frame before this one is settled: sent in full, or never to be sent. */
  function Frontier(bus: seq<Message>, can: CanPc): nat {
    if can.Holding? || can.Sending? then can.frame else |bus|
  }

  ghost predicate SendInv(bus: seq<Message>, txs: seq<Tx>, can: CanPc, lost: nat, useFd: bool) {
    && (forall c :: 0 <= c < |txs| ==> TxOk(bus, txs[c], c, can, useFd))
    && Increasing(Flatten(Wholes(txs)))
    && |Flatten(Wholes(txs))| + lost + InHand(can) == |bus|
    && Below(Flatten(Wholes(txs)), Frontier(bus, can))
    && (can.Sending? ==> forall c :: can.conn < c < |txs| ==> txs[c].whole == [])
  }

  // ---- Steps of the CAN-to-TCP loop -------------------------------------------------

  lemma KeepTx(bus: seq<Message>, tx: Tx, c: nat, can: CanPc, useFd: bool,
               bus': seq<Message>, can': CanPc)
    requires TxOk(bus, tx, c, can, useFd) && bus <= bus'
    requires forall tail :: TailFits(bus, tx, c, can, tail, useFd) ==> TailFits(bus', tx, c, can', tail, useFd)
    ensures TxOk(bus', tx, c, can', useFd)
  {
    var tail :| Carries(bus, tx, tail, useFd) && TailFits(bus, tx, c, can, tail, useFd);
    assert RecordsAt(bus', tx.whole, useFd) == RecordsAt(bus, tx.whole, useFd);
    if tail != [] {
      var j: nat :| j < |bus| && Encodable(bus[j]) && tail < Framed(RecordOf(bus[j], useFd));
      assert j < |bus'| && Encodable(bus'[j]) && tail < Framed(RecordOf(bus'[j], useFd));
    }
    assert Carries(bus', tx, tail, useFd) && TailFits(bus', tx, c, can', tail, useFd);
  }

  /** The steps that write nothing: receiving from the bus, looking up the socket, stopping. */
  lemma QuietStep(bus: seq<Message>, txs: seq<Tx>, can: CanPc, lost: nat, useFd: bool,
                  bus': seq<Message>, can': CanPc, lost': nat)
    requires |bus'| - |bus| == lost' - lost + InHand(can') - InHand(can)
    requires SendInv(bus, txs, can, lost, useFd)
    requires
      || (can.Waiting? && can'.Waiting? && bus <= bus')
      || (can.Waiting? && can' == Holding(|bus|) && bus < bus')
      || (can.Holding? && can'.Waiting? && bus' == bus && can.frame < |bus|)
      || (can.Holding? && can'.Sending? && bus' == bus && can'.frame == can.frame && can.frame < |bus|
          && Encodable(bus[can.frame]) && can'.pos == 0 && can'.conn == |txs| - 1)
      || (can'.CanStopped? && bus' == bus && Frontier(bus, can) <= |bus|)
    ensures SendInv(bus', txs, can', lost', useFd)
  {
    hide Increasing, Flatten, TxOk, Join, PartialFrame;
    forall c | 0 <= c < |txs| ensures TxOk(bus', txs[c], c, can', useFd) {
      KeepTx(bus, txs[c], c, can, useFd, bus', can');
    }
  }

  lemma {:induction false} FailStep(bus: seq<Message>, txs: seq<Tx>, can: CanPc, lost: nat, useFd: bool)
    requires SendInv(bus, txs, can, lost, useFd) && can.Sending? && can.conn < |txs| && can.frame < |bus|
    ensures SendInv(bus, txs[can.conn := txs[can.conn].(failed := true)], Waiting, lost + 1, useFd)
  {
    hide TxOk, Flatten, Increasing, RecordOf, Framed;
    var c := can.conn;
    assert Wholes(txs[c := txs[c].(failed := true)]) == Wholes(txs);
    FailedOk(bus, txs[c], c, can, useFd);
    OthersKeep(bus, txs, can, lost, Waiting, useFd);
  }

  lemma FailedOk(bus: seq<Message>, tx: Tx, c: nat, can: CanPc, useFd: bool)
    requires TxOk(bus, tx, c, can, useFd)
    ensures TxOk(bus, tx.(failed := true), c, Waiting, useFd)
  {
    hide Join, RecordOf, Framed, PartialFrame;
    var tail :| Carries(bus, tx, tail, useFd);
    assert Carries(bus, tx.(failed := true), tail, useFd)
        && TailFits(bus, tx.(failed := true), c, Waiting, tail, useFd);
  }

  lemma {:induction false} ConnectStep(bus: seq<Message>, txs: seq<Tx>, can: CanPc, lost: nat, useFd: bool)
    requires SendInv(bus, txs, can, lost, useFd) && (can.Sending? ==> can.conn < |txs|)
    ensures SendInv(bus, txs + [NEW_TX], can, lost, useFd)
  {
    hide RecordOf, Framed, Increasing;
    var txs' := txs + [NEW_TX];
    assert Carries(bus, NEW_TX, [], useFd) && TailFits(bus, NEW_TX, |txs|, can, [], useFd);
    assert Wholes(txs') == Wholes(txs) + [[]];
    FlattenSnoc<nat>(Wholes(txs), []);
    assert Flatten(Wholes(txs)) + [] == Flatten(Wholes(txs));
    forall c | 0 <= c < |txs'| ensures TxOk(bus, txs'[c], c, can, useFd) {
      if c < |txs| { assert txs'[c] == txs[c]; }
    }
  }

  /** Appending to the last non-empty part appends to the whole. */
  lemma {:induction false} FlattenUpdate<T>(parts: seq<seq<T>>, c: nat, x: T)
    requires c < |parts| && forall d :: c < d < |parts| ==> parts[d] == []
    ensures Flatten(parts[c := parts[c] + [x]]) == Flatten(parts) + [x]
  {
    if c == 0 {
      FlattenEmpty(parts[1..]);
    } else {
      assert parts[c := parts[c] + [x]][1..] == parts[1..][c - 1 := parts[1..][c - 1] + [x]];
      FlattenUpdate(parts[1..], c - 1, x);
    }
  }

  lemma {:induction false} FlattenEmpty<T>(parts: seq<seq<T>>)
    requires forall d :: 0 <= d < |parts| ==> parts[d] == []
    ensures Flatten(parts) == []
  {
    if parts != [] { FlattenEmpty(parts[1..]); }
  }

  function PayloadAt(bus: seq<Message>, i: nat, useFd: bool): (p: seq<byte>)
    requires i < |bus| && Encodable(bus[i])
    ensures p != []
  {
    Framed(RecordOf(bus[i], useFd))
  }

  ghost predicate CanSend(bus: seq<Message>, txs: seq<Tx>, can: CanPc, n: nat, useFd: bool) {
    && can.Sending? && can.conn < |txs| && can.frame < |bus| && Encodable(bus[can.frame])
    && !txs[can.conn].failed
    && 0 < n <= |PayloadAt(bus, can.frame, useFd)| - can.pos
  }

  /** The bytes so far, and the tail they leave, after `sendall` gets `n` more accepted. */
  lemma Grown(bus: seq<Message>, tx: Tx, can: CanPc, n: nat, useFd: bool)
    requires can.Sending? && can.frame < |bus| && Encodable(bus[can.frame]) && !tx.failed
    requires 0 < n <= |PayloadAt(bus, can.frame, useFd)| - can.pos
    requires TxOk(bus, tx, can.conn, can, useFd)
    ensures Frames(bus, tx.whole)
    ensures var payload := PayloadAt(bus, can.frame, useFd);
            tx.sent + payload[can.pos..can.pos + n]
            == Join(RecordsAt(bus, tx.whole, useFd)) + payload[..can.pos + n]
  {
    hide RecordOf, Framed, Join, PartialFrame;
    var payload := PayloadAt(bus, can.frame, useFd);
    var tail :| Carries(bus, tx, tail, useFd) && TailFits(bus, tx, can.conn, can, tail, useFd);
    assert tail == payload[..can.pos];
    assert tail + payload[can.pos..can.pos + n] == payload[..can.pos + n];
    Concat3(Join(RecordsAt(bus, tx.whole, useFd)), tail, payload[can.pos..can.pos + n]);
  }

  /** The written connection, when the frame's last byte is still to come. */
  lemma MiddleOk(bus: seq<Message>, tx: Tx, can: CanPc, n: nat, useFd: bool)
    requires can.Sending? && can.frame < |bus| && Encodable(bus[can.frame]) && !tx.failed
    requires 0 < n < |PayloadAt(bus, can.frame, useFd)| - can.pos
    requires TxOk(bus, tx, can.conn, can, useFd)
    ensures var written := PayloadAt(bus, can.frame, useFd)[can.pos..can.pos + n];
            TxOk(bus, tx.(sent := tx.sent + written), can.conn, can.(pos := can.pos + n), useFd)
  {
    hide RecordOf, Framed, Join;
    var payload := PayloadAt(bus, can.frame, useFd);
    Grown(bus, tx, can, n, useFd);
    var tx' := tx.(sent := tx.sent + payload[can.pos..can.pos + n]);
    assert payload[..can.pos + n] < payload;
    assert Carries(bus, tx', payload[..can.pos + n], useFd);
    assert TailFits(bus, tx', can.conn, can.(pos := can.pos + n), payload[..can.pos + n], useFd);
  }

  /** The written connection, when the frame is complete. */
  lemma LastOk(bus: seq<Message>, tx: Tx, can: CanPc, n: nat, useFd: bool)
    requires can.Sending? && can.frame < |bus| && Encodable(bus[can.frame]) && !tx.failed
    requires 0 < n == |PayloadAt(bus, can.frame, useFd)| - can.pos
    requires TxOk(bus, tx, can.conn, can, useFd)
    ensures var written := PayloadAt(bus, can.frame, useFd)[can.pos..can.pos + n];
            TxOk(bus, Tx(tx.sent + written, tx.whole + [can.frame], false), can.conn, Waiting, useFd)
  {
    hide RecordOf, Framed, Join;
    var payload := PayloadAt(bus, can.frame, useFd);
    Grown(bus, tx, can, n, useFd);
    var tx' := Tx(tx.sent + payload[can.pos..can.pos + n], tx.whole + [can.frame], false);
    WholeFrame(bus, tx.whole, can.frame, useFd);
    assert payload[..|payload|] == payload && tx'.sent + [] == tx'.sent;
    assert Carries(bus, tx', [], useFd) && TailFits(bus, tx', can.conn, Waiting, [], useFd);
  }

  /** Some of a frame's bytes, but not its last. */
  lemma {:induction false} SendMiddle(bus: seq<Message>, txs: seq<Tx>, can: CanPc, lost: nat, n: nat, useFd: bool)
    requires SendInv(bus, txs, can, lost, useFd) && CanSend(bus, txs, can, n, useFd)
    requires can.pos + n < |PayloadAt(bus, can.frame, useFd)|
    ensures var payload, tx := PayloadAt(bus, can.frame, useFd), txs[can.conn];
            var written := tx.(sent := tx.sent + payload[can.pos..can.pos + n]);
            SendInv(bus, txs[can.conn := written], can.(pos := can.pos + n), lost, useFd)
  {
    hide RecordOf, Framed, TxOk, Flatten, Increasing, Below, PayloadAt;
    var payload, tx := PayloadAt(bus, can.frame, useFd), txs[can.conn];
    var tx' := tx.(sent := tx.sent + payload[can.pos..can.pos + n]);
    MiddleOk(bus, tx, can, n, useFd);
    OthersKeep(bus, txs, can, lost, can.(pos := can.pos + n), useFd);
    assert Wholes(txs[can.conn := tx']) == Wholes(txs);
  }

  /** The rest of a frame's bytes. */
  lemma {:induction false} SendLast(bus: seq<Message>, txs: seq<Tx>, can: CanPc, lost: nat, n: nat, useFd: bool)
    requires SendInv(bus, txs, can, lost, useFd) && CanSend(bus, txs, can, n, useFd)
    requires can.pos + n == |PayloadAt(bus, can.frame, useFd)|
    ensures var payload, tx := PayloadAt(bus, can.frame, useFd), txs[can.conn];
            var written := tx.(sent := tx.sent + payload[can.pos..can.pos + n]);
            SendInv(bus, txs[can.conn := written.(whole := tx.whole + [can.frame])], Waiting, lost, useFd)
  {
    hide RecordOf, Framed, TxOk, Flatten, PayloadAt;
    var payload, tx := PayloadAt(bus, can.frame, useFd), txs[can.conn];
    var tx' := Tx(tx.sent + payload[can.pos..can.pos + n], tx.whole + [can.frame], false);
    LastOk(bus, tx, can, n, useFd);
    OthersKeep(bus, txs, can, lost, Waiting, useFd);
    assert Wholes(txs[can.conn := tx']) == Wholes(txs)[can.conn := Wholes(txs)[can.conn] + [can.frame]];
    FlattenUpdate<nat>(Wholes(txs), can.conn, can.frame);
  }

  lemma OthersKeep(bus: seq<Message>, txs: seq<Tx>, can: CanPc, lost: nat, can': CanPc, useFd: bool)
    requires SendInv(bus, txs, can, lost, useFd) && can.Sending?
    requires can'.Waiting? || (can'.Sending? && can'.conn == can.conn)
    ensures forall c :: 0 <= c < |txs| && c != can.conn ==> TxOk(bus, txs[c], c, can', useFd)
  {
    forall c | 0 <= c < |txs| && c != can.conn ensures TxOk(bus, txs[c], c, can', useFd) {
      KeepTx(bus, txs[c], c, can, useFd, bus, can');
    }
  }

  lemma WholeFrame(bus: seq<Message>, idx: seq<nat>, i: nat, useFd: bool)
    requires Frames(bus, idx) && i < |bus| && Encodable(bus[i])
    ensures Frames(bus, idx + [i])
    ensures Join(RecordsAt(bus, idx + [i], useFd))
            == Join(RecordsAt(bus, idx, useFd)) + Framed(RecordOf(bus[i], useFd))
  {
    var r := RecordOf(bus[i], useFd);
    assert RecordsAt(bus, idx + [i], useFd) == RecordsAt(bus, idx, useFd) + [r];
    JoinAppend(RecordsAt(bus, idx, useFd), [r]);
    assert Join([r]) == Framed(r);
  }
}
