/** Which sequences of actions are runs of the bridge, said of the actions alone, and what this
    says of the order in which connections are made, used, ended and closed. */
module BridgeOrder {
  import opened Sequences
  import opened Outcomes
  import opened Wire
  import opened Records
  import opened Framer
  import opened BridgeThreads
  import opened BridgeSend
  import opened BridgeReceive
  import opened BridgeTheorems

  // ---- Where the threads are, by their actions --------------------------------------------

  datatype Place = AtTop | AtConnect | AtLoop | AtRecv | AtTake | AtClose | AtEnd

  predicate Stopped(actions: seq<Action>) { SetStop in actions }

  /** The records received whole on the newest connection. */
  function NewestRecords(actions: seq<Action>): seq<seq<byte>> {
    var streams := Streams(actions);
    if streams == [] then [] else Split(streams[|streams| - 1]).records
  }

  /** How many of them were decoded and offered to the bus. */
  function Taken(actions: seq<Action>): nat {
    if actions == [] then
      0
    else
      var before, a := actions[..|actions| - 1], actions[|actions| - 1];
      var n := Taken(before);
      if a.ConnectOk? then 0 else if a.TakeRecord? && Decodes(before, n) then n + 1 else n
  }

  /** The next record is there and well-formed. */
  predicate Decodes(before: seq<Action>, n: nat) {
    n < |NewestRecords(before)| && CanFromFrame(NewestRecords(before)[n]).Success?
  }

  /** The step `a` after `before` ends the TCP path: the peer closed or an error, a failed
      connect, a stop or a lost socket seen at the head of the loop, a malformed record, or a
      send that raised. */
  predicate EndsPath(before: seq<Action>, a: Action) {
    match a
    case RecvEnds => true
    case ConnectRaises => true
    case LoopHead => Stopped(before) || !Up(before)
    case TakeRecord(outcome) =>
      Taken(before) < |NewestRecords(before)| && (!Decodes(before, Taken(before)) || outcome.Raised?)
    case _ => false
  }

  function PlaceOf(actions: seq<Action>): Place {
    if actions == [] then
      AtTop
    else
      var before, a := actions[..|actions| - 1], actions[|actions| - 1];
      if EndsPath(before, a) then
        AtClose
      else
        match a
        case ManagerTop => if Stopped(before) then AtEnd else AtConnect
        case ConnectOk => AtLoop
        case ConnectStopped => AtLoop
        case LoopHead => AtRecv
        case RecvChunk(_) => AtTake
        case TakeRecord(_) => if Taken(before) < |NewestRecords(before)| then AtTake else AtLoop
        case CloseSock => AtTop
        case _ => PlaceOf(before)
  }

  /** The connection a send is under way on. */
  function Aim(actions: seq<Action>): Option<nat> {
    if actions == [] then
      None
    else
      var before, a := actions[..|actions| - 1], actions[|actions| - 1];
      match a
      case TakeSocket => if Up(before) && Streams(before) != [] then Some(|Streams(before)| - 1) else None
      case SendSome(n) => if n == Remaining(before) then None else Aim(before)
      case SendFails => None
      case Interrupt => None
      case _ => Aim(before)
  }

  /** The connections on which a send has failed. */
  function Dead(actions: seq<Action>): set<nat> {
    if actions == [] then
      {}
    else
      var before := actions[..|actions| - 1];
      Dead(before) + if actions[|actions| - 1].SendFails? && Aim(before).Some? then {Aim(before).value} else {}
  }

  /** The action `a` can come after `before`. */
  predicate Allowed(before: seq<Action>, a: Action) {
    match a
    case BusRecv(_) => Interrupt !in before && Remaining(before) == 0
    case TakeSocket => Remaining(before) > 0 && Aim(before).None?
    case SendSome(n) => Aim(before).Some? && Aim(before).value !in Dead(before) && 0 < n <= Remaining(before)
    case SendFails => Aim(before).Some?
    case Interrupt => true
    case SetStop => Interrupt in before
    case CloseShared => Stopped(before)
    case ManagerTop => PlaceOf(before) == AtTop
    case ConnectOk => PlaceOf(before) == AtConnect
    case ConnectRaises => PlaceOf(before) == AtConnect
    case ConnectStopped => PlaceOf(before) == AtConnect && Stopped(before)
    case LoopHead => PlaceOf(before) == AtLoop
    case RecvChunk(bytes) => PlaceOf(before) == AtRecv && bytes != []
    case RecvEnds => PlaceOf(before) == AtRecv
    case TakeRecord(_) => PlaceOf(before) == AtTake
    case CloseSock => PlaceOf(before) == AtClose
  }

  predicate Legal(actions: seq<Action>) {
    forall i :: 0 <= i < |actions| ==> Allowed(actions[..i], actions[i])
  }

  // ---- The state says the same ---------------------------------------------------------------

  predicate SamePlace(s: State, actions: seq<Action>) {
    match PlaceOf(actions)
    case AtTop => s.tcp.Top?
    case AtConnect => s.tcp.Connecting?
    case AtLoop => s.tcp.Receiving?
    case AtRecv => s.tcp.InRecv?
    case AtTake => s.tcp.Draining?
    case AtClose => s.tcp.Closing?
    case AtEnd => s.tcp.TcpStopped?
  }

  predicate SameSend(s: State, actions: seq<Action>) {
    && (s.stop <==> Stopped(actions))
    && (s.can.CanStopped? <==> Interrupt in actions)
    && (if s.can.Sending? then Aim(actions) == Some(s.can.conn) else Aim(actions) == None)
  }

  predicate SameDead(s: State, actions: seq<Action>) {
    && (forall c :: 0 <= c < |s.conns| ==> (s.conns[c].tx.failed <==> c in Dead(actions)))
    && (forall c :: c in Dead(actions) ==> c < |s.conns|)
  }

  predicate SameTaken(s: State, actions: seq<Action>) {
    if s.conns == [] then Taken(actions) == 0
    else Taken(actions) == |s.conns[|s.conns| - 1].rx.offered|
  }

  ghost predicate Told(s: State, actions: seq<Action>, useFd: bool) {
    && InRange(s) && SamePlace(s, actions) && SameSend(s, actions) && SameDead(s, actions) && SameTaken(s, actions)
    && History(s, actions, useFd)
  }

  lemma SendNext(before: seq<Action>, a: Action)
    ensures Stopped(before + [a]) <==> Stopped(before) || a == SetStop
    ensures Interrupt in before + [a] <==> Interrupt in before || a == Interrupt
    ensures Dead(before + [a])
            == Dead(before) + if a.SendFails? && Aim(before).Some? then {Aim(before).value} else {}
    ensures Aim(before + [a])
            == match a
               case TakeSocket => if Up(before) && Streams(before) != [] then Some(|Streams(before)| - 1) else None
               case SendSome(n) => if n == Remaining(before) then None else Aim(before)
               case SendFails => None
               case Interrupt => None
               case _ => Aim(before)
  {
    assert (before + [a])[..|before|] == before;
  }

  lemma TakenNext(before: seq<Action>, a: Action)
    ensures Taken(before + [a])
            == if a.ConnectOk? then 0
               else if a.TakeRecord? && Decodes(before, Taken(before)) then Taken(before) + 1 else Taken(before)
  {
    assert (before + [a])[..|before|] == before;
  }

  lemma PlaceNext(before: seq<Action>, a: Action)
    ensures PlaceOf(before + [a])
            == if EndsPath(before, a) then AtClose
               else match a
                    case ManagerTop => if Stopped(before) then AtEnd else AtConnect
                    case ConnectOk => AtLoop
                    case ConnectStopped => AtLoop
                    case LoopHead => AtRecv
                    case RecvChunk(_) => AtTake
                    case TakeRecord(_) => if Taken(before) < |NewestRecords(before)| then AtTake else AtLoop
                    case CloseSock => AtTop
                    case _ => PlaceOf(before)
  {
    assert (before + [a])[..|before|] == before;
  }

  lemma StepSend(t: State, before: seq<Action>, a: Action, useFd: bool)
    requires SocketInv(t) && Enabled(t, a, useFd) && SameSend(t, before) && History(t, before, useFd)
    requires ReceivedOn(t.conns) == Streams(before)
    ensures SameSend(Do(t, a, useFd), before + [a])
  {
    hide Framed, RecordOf, CanFromFrame, Incomplete, DoRecord, Payload;
    SendNext(before, a);
    hide Stopped, Dead, Aim, Streams, BusFrames, Losses, Remaining, Up;
    assert |ReceivedOn(t.conns)| == |t.conns|;
    if a.SendSome? {
      SendEnds(t, a, useFd);
    } else if a.TakeRecord? {
      RecordKeeps(t, a.outcome);
    }
  }

  lemma RecordKeeps(t: State, outcome: BusOutcome)
    requires InRange(t) && t.tcp.Draining?
    ensures var s := DoRecord(t, outcome);
            && s.can == t.can && s.stop == t.stop && |s.conns| == |t.conns|
            && forall c :: 0 <= c < |t.conns| ==> s.conns[c].tx == t.conns[c].tx
  {
    hide CanFromFrame, Incomplete;
  }

  lemma StepDead(t: State, before: seq<Action>, a: Action, useFd: bool)
    requires InRange(t) && Enabled(t, a, useFd) && SameSend(t, before) && SameDead(t, before)
    ensures SameDead(Do(t, a, useFd), before + [a])
  {
    hide Framed, RecordOf, CanFromFrame, Incomplete, DoRecord, DoSend, Payload;
    SendNext(before, a);
    hide Stopped, Dead, Aim, Streams, Up, Remaining;
    if a.TakeRecord? {
      RecordKeeps(t, a.outcome);
    } else if a.SendSome? {
      SendKeeps(t, a.n, useFd);
    }
  }

  lemma SendKeeps(t: State, n: nat, useFd: bool)
    requires InRange(t) && Enabled(t, SendSome(n), useFd)
    ensures var s := DoSend(t, n, useFd);
            |s.conns| == |t.conns| && forall c :: 0 <= c < |t.conns| ==> s.conns[c].tx.failed == t.conns[c].tx.failed
  {
    hide Framed, RecordOf;
  }

  /** A send is complete exactly when what it has sent was all that was to go. */
  lemma SendEnds(t: State, a: Action, useFd: bool)
    requires InRange(t) && Enabled(t, a, useFd) && a.SendSome?
    ensures var s := DoSend(t, a.n, useFd);
            && s.stop == t.stop && (s.can.Sending? ==> s.can.conn == t.can.conn) && !s.can.CanStopped?
            && (s.can.Sending? <==> a.n != ToGo(t, useFd))
  {
    hide Framed, RecordOf;
  }

  /** What the buffer holds next is the first record received and not yet offered. */
  lemma NextRecordIs(rx: Rx, buf: seq<byte>)
    requires Live(rx, buf)
    ensures |rx.offered| <= |RecordsIn(rx)| && (Incomplete(buf) <==> |rx.offered| == |RecordsIn(rx)|)
    ensures !Incomplete(buf) ==> buf[2..2 + Read16(buf)] == RecordsIn(rx)[|rx.offered|]
  {
    hide CanFromFrame;
    var rs, n := RecordsIn(rx), |rx.offered|;
    if !Incomplete(buf) {
      assert rs[n..][0] == rs[n];
    }
  }

  lemma StepTake(t: State, before: seq<Action>, outcome: BusOutcome, useFd: bool)
    requires SocketInv(t) && t.tcp.Draining? && t.tcp.conn == |t.conns| - 1
    requires Live(t.conns[t.tcp.conn].rx, t.tcp.buf) && SameTaken(t, before) && ReceivedOn(t.conns) == Streams(before)
    ensures var s, a := DoRecord(t, outcome), TakeRecord(outcome);
            SameTaken(s, before + [a]) && SamePlace(s, before + [a])
  {
    hide CanFromFrame, Split, Live, Incomplete, Streams;
    TakenNext(before, TakeRecord(outcome));
    PlaceNext(before, TakeRecord(outcome));
    hide Taken, PlaceOf;
    var rx := t.conns[t.tcp.conn].rx;
    NextRecordIs(rx, t.tcp.buf);
    assert ReceivedOn(t.conns)[|t.conns| - 1] == rx.received;
    assert NewestRecords(before) == RecordsIn(rx);
  }

  lemma StepPlace(t: State, before: seq<Action>, a: Action, useFd: bool)
    requires SocketInv(t) && Enabled(t, a, useFd) && !a.TakeRecord?
    requires SamePlace(t, before) && SameTaken(t, before)
    requires (t.stop <==> Stopped(before)) && (t.sock.Some? <==> Up(before))
    ensures SamePlace(Do(t, a, useFd), before + [a]) && SameTaken(Do(t, a, useFd), before + [a])
  {
    hide Framed, RecordOf, CanFromFrame, Incomplete, DoRecord;
    TakenNext(before, a);
    PlaceNext(before, a);
    hide Taken, PlaceOf, Stopped, Up, NewestRecords;
  }

  /** The state of a run, told by its actions. */
  lemma {:induction false} RunTold(actions: seq<Action>, s: State, useFd: bool)
    requires Run(actions, s, useFd)
    ensures Told(s, actions, useFd)
  {
    RunHistory(actions, s, useFd);
    if actions == [] {
      ToldAtFirst();
    } else {
      hide Do, Enabled, Run, SamePlace, SameSend, SameDead, SameTaken, History, SendInv, SocketInv, RecvInv, InRange,
           ReceivedOn, Streams;
      var before, a := actions[..|actions| - 1], actions[|actions| - 1];
      var t := LastStep(actions, s, useFd);
      RunTold(before, t, useFd);
      RunInv(before, t, useFd);
      RunStreams(before, t, useFd);
      RunHistory(before, t, useFd);
      assert before + [a] == actions;
      StepSend(t, before, a, useFd);
      StepDead(t, before, a, useFd);
      StopTold(t, before);
      if a.TakeRecord? {
        TakeEnabled(t, a, useFd);
        StepTake(t, before, a.outcome, useFd);
      } else {
        StepPlace(t, before, a, useFd);
      }
    }
  }

  lemma ToldAtFirst()
    ensures SamePlace(INITIAL, []) && SameSend(INITIAL, []) && SameDead(INITIAL, []) && SameTaken(INITIAL, [])
  {
  }

  lemma StopTold(t: State, before: seq<Action>)
    requires SameSend(t, before)
    ensures t.stop <==> Stopped(before)
  {
  }

  lemma TakeEnabled(t: State, a: Action, useFd: bool)
    requires InRange(t) && Enabled(t, a, useFd) && a.TakeRecord?
    requires RecvInv(Rxs(t.conns), t.sock, t.tcp, t.busOut)
    ensures t.tcp.Draining? && t.tcp.conn == |t.conns| - 1 && Live(t.conns[t.tcp.conn].rx, t.tcp.buf)
    ensures Do(t, a, useFd) == DoRecord(t, a.outcome)
  {
    hide Live, Settled, Split, CanFromFrame, Flatten, Incomplete;
  }

  lemma EnabledIff(s: State, actions: seq<Action>, a: Action, useFd: bool)
    requires Told(s, actions, useFd)
    ensures Enabled(s, a, useFd) <==> Allowed(actions, a)
  {
    hide PlaceOf, Aim, Dead, Stopped, Framed, RecordOf, Remaining, Up, BusFrames, Losses, Taken;
    PayloadLeft(s, useFd);
  }

  lemma PayloadLeft(s: State, useFd: bool)
    requires InRange(s)
    ensures s.can.Holding? || s.can.Sending? <==> ToGo(s, useFd) > 0
    ensures s.can.Sending? ==> ToGo(s, useFd) == |Payload(s, s.can.frame, useFd)| - s.can.pos
  {
    hide Be16, Be32, Flags;
  }

  /** In a run, what can happen next is said by what has happened. */
  lemma NextActions(actions: seq<Action>, s: State, a: Action, useFd: bool)
    requires Run(actions, s, useFd)
    ensures InRange(s) && (Enabled(s, a, useFd) <==> Allowed(actions, a))
  {
    RunTold(actions, s, useFd);
    EnabledIff(s, actions, a, useFd);
  }

  /** The runs of the bridge are exactly the legal sequences of actions. */
  lemma {:induction false} RunsAreLegal(actions: seq<Action>, useFd: bool)
    ensures (exists s :: Run(actions, s, useFd)) <==> Legal(actions)
  {
    if actions == [] {
      assert Run([], INITIAL, useFd);
    } else {
      hide Allowed, Enabled, Do, InRange;
      var before, a := actions[..|actions| - 1], actions[|actions| - 1];
      RunsAreLegal(before, useFd);
      LegalNext(actions);
      if s :| Run(actions, s, useFd) {
        var t := LastStep(actions, s, useFd);
        NextActions(before, t, a, useFd);
      }
      if Legal(actions) {
        var t :| Run(before, t, useFd);
        NextActions(before, t, a, useFd);
        assert Run(actions, Do(t, a, useFd), useFd);
      }
    }
  }

  lemma LegalNext(actions: seq<Action>)
    requires actions != []
    ensures var last := |actions| - 1;
            Legal(actions) <==> Legal(actions[..last]) && Allowed(actions[..last], actions[last])
  {
    hide Allowed;
    var before := actions[..|actions| - 1];
    assert forall i :: 0 <= i < |before| ==> before[..i] == actions[..i] && before[i] == actions[i];
  }

  // ---- What every legal sequence keeps --------------------------------------------------------

  /** An action of the TCP manager or its receive loop. */
  predicate ByManager(a: Action) { !ByCanThread(a) && !a.CloseShared? }

  lemma OneMore(actions: seq<Action>, j: nat)
    requires 0 < j <= |actions| && Legal(actions)
    ensures actions[..j] == actions[..j - 1] + [actions[j - 1]] && Allowed(actions[..j - 1], actions[j - 1])
  {
  }

  lemma {:induction false} StaysClosing(actions: seq<Action>, i: nat, j: nat)
    requires Legal(actions) && i <= j <= |actions| && PlaceOf(actions[..i]) == AtClose
    requires forall k :: i <= k < j ==> actions[k] != CloseSock
    ensures PlaceOf(actions[..j]) == AtClose
    decreases j
  {
    hide Legal, PlaceOf, Allowed;
    if i < j {
      StaysClosing(actions, i, j - 1);
      OneMore(actions, j);
      FromClose(actions[..j - 1], actions[j - 1]);
    }
  }

  lemma FromClose(before: seq<Action>, a: Action)
    requires Allowed(before, a) && PlaceOf(before) == AtClose
    ensures ByManager(a) ==> a == CloseSock
    ensures a != CloseSock ==> PlaceOf(before + [a]) == AtClose
  {
    hide PlaceOf;
    PlaceNext(before, a);
  }

  /** Once the path is ending, the manager's next action is to close. */
  lemma CloseComes(actions: seq<Action>, i: nat, j: nat)
    requires Legal(actions) && i <= j < |actions| && PlaceOf(actions[..i]) == AtClose && ByManager(actions[j])
    ensures exists k :: i <= k <= j && actions[k] == CloseSock
  {
    if forall k :: i <= k < j ==> actions[k] != CloseSock {
      hide Legal, PlaceOf, Allowed;
      StaysClosing(actions, i, j);
      OneMore(actions, j + 1);
      FromClose(actions[..j], actions[j]);
    }
  }

  lemma {:induction false} UpSince(actions: seq<Action>, k: nat, j: nat)
    requires k < j <= |actions| && actions[k] == CloseSock && Up(actions[..j])
    ensures exists l :: k < l < j && actions[l].ConnectOk?
    decreases j
  {
    assert actions[..j][..j - 1] == actions[..j - 1];
    if !actions[j - 1].ConnectOk? {
      UpSince(actions, k, j - 1);
    }
  }

  lemma {:induction false} ReceivesUp(actions: seq<Action>, j: nat)
    requires Legal(actions) && j <= |actions|
    ensures PlaceOf(actions[..j]) == AtRecv || PlaceOf(actions[..j]) == AtTake ==> Up(actions[..j])
    decreases j
  {
    hide Legal, Allowed;
    if j > 0 {
      hide PlaceOf;
      ReceivesUp(actions, j - 1);
      OneMore(actions, j);
      ReceivingNext(actions[..j - 1], actions[j - 1]);
    }
  }

  lemma ReceivingNext(before: seq<Action>, a: Action)
    requires Allowed(before, a)
    requires PlaceOf(before) == AtRecv || PlaceOf(before) == AtTake ==> Up(before)
    ensures PlaceOf(before + [a]) == AtRecv || PlaceOf(before + [a]) == AtTake ==> Up(before + [a])
  {
    hide PlaceOf;
    PlaceNext(before, a);
    HistoryNext(before, a);
    hide Up;
  }

  lemma ReceivesOnUp(actions: seq<Action>, j: nat)
    requires Legal(actions) && j < |actions| && actions[j].RecvChunk?
    ensures Up(actions[..j])
  {
    hide Legal, PlaceOf, Up;
    OneMore(actions, j + 1);
    ReceivesUp(actions, j);
  }

  /** What the manager does after the path has ended, for each way it can end: it closes the
      socket before anything else, and receives only on a connection made after that. */
  ghost predicate ClosesFirst(actions: seq<Action>, i: nat)
    requires i < |actions|
  {
    && (forall j :: i < j < |actions| && ByManager(actions[j]) ==>
          exists k :: i < k <= j && actions[k] == CloseSock)
    && (forall j :: i < j < |actions| && actions[j].RecvChunk? ==>
          exists k, l :: i < k < l < j && actions[k] == CloseSock && actions[l].ConnectOk?)
  }

  lemma ReceivesAfter(actions: seq<Action>, i: nat, j: nat)
    requires Legal(actions) && i < j < |actions| && PlaceOf(actions[..i + 1]) == AtClose && actions[j].RecvChunk?
    ensures exists k, l :: i < k < l < j && actions[k] == CloseSock && actions[l].ConnectOk?
  {
    hide Legal, PlaceOf, Up;
    CloseComes(actions, i + 1, j);
    var k :| i + 1 <= k <= j && actions[k] == CloseSock;
    ReceivesOnUp(actions, j);
    UpSince(actions, k, j);
    var l :| k < l < j && actions[l].ConnectOk?;
    assert i < k < l < j;
  }

  lemma EndedCloses(actions: seq<Action>, i: nat)
    requires Legal(actions) && i < |actions| && PlaceOf(actions[..i + 1]) == AtClose
    ensures ClosesFirst(actions, i)
  {
    hide Legal, PlaceOf, ByManager;
    forall j | i < j < |actions| && ByManager(actions[j])
      ensures exists k :: i < k <= j && actions[k] == CloseSock
    {
      CloseComes(actions, i + 1, j);
    }
    forall j | i < j < |actions| && actions[j].RecvChunk?
      ensures exists k, l :: i < k < l < j && actions[k] == CloseSock && actions[l].ConnectOk?
    {
      ReceivesAfter(actions, i, j);
    }
  }

  /** The peer closing, a receive error, a failed connect, a stop seen at the head of the loop, a
      malformed record and a send that raised each end the connection. */
  lemma EndedConnection(actions: seq<Action>, i: nat)
    requires Legal(actions) && i < |actions|
    ensures actions[i].RecvEnds? || actions[i].ConnectRaises? ==> ClosesFirst(actions, i)
    ensures actions[i].LoopHead? && SetStop in actions[..i] ==> ClosesFirst(actions, i)
    ensures actions[i].LoopHead? && !Up(actions[..i]) ==> ClosesFirst(actions, i)
    ensures actions[i].TakeRecord? && Taken(actions[..i]) < |NewestRecords(actions[..i])|
            && (actions[i].outcome.Raised? || CanFromFrame(NewestRecords(actions[..i])[Taken(actions[..i])]).Failure?)
            ==> ClosesFirst(actions, i)
  {
    hide ClosesFirst, Legal, PlaceOf, Taken, NewestRecords, CanFromFrame, Up;
    OneMore(actions, i + 1);
    PlaceNext(actions[..i], actions[i]);
    if EndsPath(actions[..i], actions[i]) { EndedCloses(actions, i); }
  }

  /** No place from which a stopped manager comes back. */
  lemma {:induction false} StaysStopped(actions: seq<Action>, i: nat, j: nat)
    requires Legal(actions) && i <= j <= |actions| && SetStop in actions[..i]
    requires PlaceOf(actions[..i]) in {AtClose, AtTop, AtEnd}
    ensures PlaceOf(actions[..j]) in {AtClose, AtTop, AtEnd}
    ensures PlaceOf(actions[..i]) == AtEnd ==> PlaceOf(actions[..j]) == AtEnd
    decreases j
  {
    hide Legal, PlaceOf, Allowed;
    if i < j {
      StaysStopped(actions, i, j - 1);
      OneMore(actions, j);
      assert actions[..i] <= actions[..j - 1];
      FromStopped(actions[..j - 1], actions[j - 1]);
    }
  }

  lemma FromStopped(before: seq<Action>, a: Action)
    requires Allowed(before, a) && SetStop in before && PlaceOf(before) in {AtClose, AtTop, AtEnd}
    ensures PlaceOf(before + [a]) in {AtClose, AtTop, AtEnd}
    ensures PlaceOf(before) == AtEnd ==> PlaceOf(before + [a]) == AtEnd && !ByManager(a)
    ensures !a.ConnectOk? && !a.RecvChunk? && !a.LoopHead?
  {
    hide PlaceOf;
    PlaceNext(before, a);
  }

  /** After a stop, the manager's next look at it is its last action but closing: at the head of
      the receive loop, nothing is received or connected any more; at its own, it ends. */
  lemma StopEnds(actions: seq<Action>, i: nat, j: nat)
    requires Legal(actions) && i < j < |actions| && actions[i] == SetStop
    ensures actions[j].ManagerTop? ==> forall m :: j < m < |actions| ==> !ByManager(actions[m])
    ensures actions[j].LoopHead? ==>
              forall m :: j < m < |actions| ==>
                !actions[m].ConnectOk? && !actions[m].RecvChunk? && !actions[m].LoopHead?
  {
    hide Legal, PlaceOf, Allowed, Up;
    OneMore(actions, j + 1);
    assert actions[i] == actions[..j][i];
    PlaceNext(actions[..j], actions[j]);
    if actions[j].ManagerTop? || actions[j].LoopHead? {
      forall m | j < m < |actions|
        ensures actions[j].ManagerTop? ==> !ByManager(actions[m])
        ensures actions[j].LoopHead? ==>
                  !actions[m].ConnectOk? && !actions[m].RecvChunk? && !actions[m].LoopHead?
      {
        assert actions[i] == actions[..j + 1][i];
        StaysStopped(actions, j + 1, m);
        OneMore(actions, m + 1);
        assert actions[..j + 1] <= actions[..m];
        FromStopped(actions[..m], actions[m]);
      }
    }
  }

  // ---- Each frame is taken up once --------------------------------------------------------------

  lemma {:induction false} UpHasStream(actions: seq<Action>)
    ensures Up(actions) ==> Streams(actions) != []
  {
    if actions != [] { UpHasStream(actions[..|actions| - 1]); }
  }

  lemma AfterTry(before: seq<Action>, a: Action)
    requires Allowed(before, a) && !a.BusRecv?
    requires a.TakeSocket? || Aim(before).Some? || Remaining(before) == 0
    ensures Aim(before + [a]).Some? || Remaining(before + [a]) == 0
    ensures a.TakeSocket? ==> Aim(before).None? && Remaining(before) > 0
  {
    UpHasStream(before);
    SendNext(before, a);
    HistoryNext(before, a);
    hide Aim, Remaining, Dead, Streams, Up;
  }

  /** A frame that was taken up once is not taken up again, whether its send was complete, failed,
      or there was no connection: before the next look at the socket comes the next frame. */
  lemma {:induction false} OneTry(actions: seq<Action>, i: nat, j: nat)
    requires Legal(actions) && i < j < |actions| && actions[i].TakeSocket? && actions[j].TakeSocket?
    ensures exists k :: i < k < j && actions[k].BusRecv?
  {
    hide Legal, Aim, Remaining, Allowed, Up;
    OneMore(actions, j + 1);
    TakesUp(actions[..j], actions[j]);
    if forall k :: i < k < j ==> !actions[k].BusRecv? {
      TriedUntil(actions, i, j);
    }
  }

  lemma TakesUp(before: seq<Action>, a: Action)
    requires Allowed(before, a) && a.TakeSocket?
    ensures Aim(before).None? && Remaining(before) > 0
  {
  }

  lemma {:induction false} TriedUntil(actions: seq<Action>, i: nat, j: nat)
    requires Legal(actions) && i < j <= |actions| && actions[i].TakeSocket?
    requires forall k :: i < k < j ==> !actions[k].BusRecv?
    ensures Aim(actions[..j]).Some? || Remaining(actions[..j]) == 0
    decreases j
  {
    hide Legal, Aim, Remaining, Allowed, Up;
    OneMore(actions, j);
    if i < j - 1 { TriedUntil(actions, i, j - 1); }
    AfterTry(actions[..j - 1], actions[j - 1]);
  }

  // ---- Which connection is open ---------------------------------------------------------------

  /** A connection was made, and not closed since by the manager or by `stop`. */
  predicate OpenNow(actions: seq<Action>) {
    actions != [] &&
    (actions[|actions| - 1].ConnectOk? ||
     (!actions[|actions| - 1].CloseSock? && !actions[|actions| - 1].CloseShared?
      && OpenNow(actions[..|actions| - 1])))
  }

  predicate SameOpen(s: State, actions: seq<Action>) {
    forall c :: 0 <= c < |s.conns| ==> (!s.conns[c].closed <==> c == |s.conns| - 1 && OpenNow(actions))
  }

  lemma StepOpen(t: State, before: seq<Action>, a: Action, useFd: bool)
    requires SocketInv(t) && Enabled(t, a, useFd) && SameOpen(t, before)
    ensures SameOpen(Do(t, a, useFd), before + [a])
  {
    hide Framed, RecordOf, CanFromFrame, Incomplete;
    assert (before + [a])[..|before|] == before;
  }

  /** In a run exactly the newest connection is open, from when it was made until the manager or
      `stop` closes it. */
  lemma {:induction false} OpenIff(actions: seq<Action>, s: State, useFd: bool)
    requires Run(actions, s, useFd)
    ensures forall c :: 0 <= c < |s.conns| ==> (!s.conns[c].closed <==> c == |s.conns| - 1 && OpenNow(actions))
  {
    if actions == [] {
      assert SameOpen(INITIAL, []);
    } else {
      hide Do, Enabled, Run, SameOpen, OpenNow, InRange, SocketInv;
      var before, a := actions[..|actions| - 1], actions[|actions| - 1];
      var t := LastStep(actions, s, useFd);
      RunSocket(before, t, useFd);
      OpenIff(before, t, useFd);
      assert before + [a] == actions;
      OpenFrom(t, before);
      StepOpen(t, before, a, useFd);
      OpenFrom(s, actions);
    }
  }

  lemma OpenFrom(s: State, actions: seq<Action>)
    ensures SameOpen(s, actions)
            <==> forall c :: 0 <= c < |s.conns| ==> (!s.conns[c].closed <==> c == |s.conns| - 1 && OpenNow(actions))
  {
  }
}
