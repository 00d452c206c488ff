/** `MessageCached` and the two filters. A regular expression is an arbitrary predicate on
    strings. */
module Filters {
  import opened Outcomes

  datatype MessageType = SdoTx | SdoRx | Pdo | Sync | Nmt | Lss | Guarding | Emcy | Unknown

  datatype Flag = SYNC | PDO | SDO | NMT | LSS | EMCY | GUARD | UNKNOWN

  datatype CanMessage = CanMessage(index: nat, timestamp: int, kind: MessageType,
                                   node: Option<nat>, cob: string, hex: string)

  datatype DataFilter = DataFilter(regex: Option<string -> bool>, node: Option<nat>,
                                   regexCob: Option<string -> bool>)
  {
    /** True when the message is filtered out. */
    predicate Hides(m: CanMessage) {
      if node.Some? && m.node != node then true
      else if regexCob.Some? && !regexCob.value(m.cob) then true
      else if regex.Some? && !regex.value(m.hex) then true
      else false
    }
  }

  datatype GlobalFilter = GlobalFilter(ignored: set<Flag>, data: DataFilter)
  {
    predicate Hides(m: CanMessage) {
      if data.Hides(m) then true
      else
        match m.kind
        case SdoTx | SdoRx => SDO in ignored
        case Pdo => PDO in ignored
        case Sync => SYNC in ignored
        case Nmt => NMT in ignored
        case Lss => LSS in ignored
        case Guarding => GUARD in ignored
        case Emcy => EMCY in ignored
        case Unknown => UNKNOWN in ignored
    }
  }

  const NO_FILTER := DataFilter(None, None, None)

  /** Which messages each flag hides. */
  lemma FlagHides(m: CanMessage)
    ensures GlobalFilter({SYNC}, NO_FILTER).Hides(m) <==> m.kind.Sync?
    ensures GlobalFilter({PDO}, NO_FILTER).Hides(m) <==> m.kind.Pdo?
    ensures GlobalFilter({SDO}, NO_FILTER).Hides(m) <==> m.kind.SdoTx? || m.kind.SdoRx?
    ensures GlobalFilter({NMT}, NO_FILTER).Hides(m) <==> m.kind.Nmt?
    ensures GlobalFilter({LSS}, NO_FILTER).Hides(m) <==> m.kind.Lss?
    ensures GlobalFilter({EMCY}, NO_FILTER).Hides(m) <==> m.kind.Emcy?
    ensures GlobalFilter({GUARD}, NO_FILTER).Hides(m) <==> m.kind.Guarding?
    ensures GlobalFilter({UNKNOWN}, NO_FILTER).Hides(m) <==> m.kind.Unknown?
  {
  }

  /** A global filter hides what its data filter or one of its flags alone hides. */
  lemma GlobalHidesUnion(f: GlobalFilter, m: CanMessage)
    ensures f.Hides(m) <==> f.data.Hides(m) || exists g :: g in f.ignored && GlobalFilter({g}, NO_FILTER).Hides(m)
  {
    FlagHides(m);
    if f.Hides(m) && !f.data.Hides(m) {
      var g :| g in f.ignored && GlobalFilter({g}, NO_FILTER).Hides(m);
    }
  }

  /** Each part of a data filter hides what does not match in its own field, and a data filter
      hides what one of its parts alone hides. */
  lemma DataHidesUnion(f: DataFilter, m: CanMessage)
    ensures DataFilter(None, f.node, None).Hides(m) <==> f.node.Some? && m.node != f.node
    ensures DataFilter(f.regex, None, None).Hides(m) <==> f.regex.Some? && !f.regex.value(m.hex)
    ensures DataFilter(None, None, f.regexCob).Hides(m) <==> f.regexCob.Some? && !f.regexCob.value(m.cob)
    ensures f.Hides(m) <==>
            || DataFilter(None, f.node, None).Hides(m)
            || DataFilter(f.regex, None, None).Hides(m)
            || DataFilter(None, None, f.regexCob).Hides(m)
  {
  }
}

/** The driver: numbers messages, keeps a sliding window and publishes it. */
module Driver {
  import opened Outcomes
  import opened Filters

  const MAX_MESSAGES_IN_STATE := 512
  const WINDOW := MAX_MESSAGES_IN_STATE + 1  // the window is trimmed before a message is added

  datatype Command = Stop | Kill | Process

  /** What ends one wait: ctrl-c, the 100 ms timeout, or the receiver, with a message or an
      error. */
  datatype Wake = CtrlC | TimedOut | Received(msg: Option<CanMessage>)

  /** One wait, and the control command found changed after it. */
  datatype Event = Event(wake: Wake, change: Option<Command>)

  datatype Snapshot = Snapshot(data: seq<CanMessage>, exitSignal: bool)

  function Low(k: nat): (low: nat)
    ensures low <= k
  {
    if k > WINDOW then k - WINDOW else 0
  }

  /** The newest messages of a history of `k`. */
  function WindowAt(h: seq<CanMessage>, k: nat): seq<CanMessage>
    requires k <= |h|
  {
    h[Low(k)..k]
  }

  function NextCommand(command: Command, e: Event): Command {
    if e.wake.CtrlC? then Kill else if e.change.Some? then e.change.value else command
  }

  function CommandAfter(command: Command, events: seq<Event>): Command {
    if events == [] then command
    else NextCommand(CommandAfter(command, events[..|events| - 1]), events[|events| - 1])
  }

  /** The messages processed: those received while the command in force is Process, numbered
      from 0. */
  function Processed(command: Command, events: seq<Event>): seq<CanMessage> {
    if events == [] then
      []
    else
      var before, e := Processed(command, events[..|events| - 1]), events[|events| - 1];
      if CommandAfter(command, events) == Process && e.wake.Received? && e.wake.msg.Some? then
        before + [e.wake.msg.value.(index := |before|)]
      else
        before
  }

  predicate Indexed(h: seq<CanMessage>) { forall i :: 0 <= i < |h| ==> h[i].index == i }

  /** Processed messages keep their numbers: the history is contiguous and only grows. */
  lemma {:induction false} ProcessedGrows(command: Command, events: seq<Event>, n: nat)
    requires n <= |events|
    ensures Indexed(Processed(command, events))
    ensures Processed(command, events[..n]) <= Processed(command, events)
  {
    if events != [] {
      var last := |events| - 1;
      if n <= last {
        assert events[..last][..n] == events[..n];
        ProcessedGrows(command, events[..last], n);
      } else {
        assert events[..n] == events;
        ProcessedGrows(command, events[..last], last);
      }
    }
  }

  function Trimmed(data: seq<CanMessage>): seq<CanMessage> {
    if |data| > MAX_MESSAGES_IN_STATE then data[|data| - MAX_MESSAGES_IN_STATE..] else data
  }

  lemma WindowGrows(h: seq<CanMessage>, m: CanMessage)
    ensures WindowAt(h + [m], |h| + 1) == Trimmed(WindowAt(h, |h|)) + [m]
  {
  }

  lemma StartOf(command: Command)
    ensures Processed(command, []) == [] && CommandAfter(command, []) == command
  {
  }

  lemma StepOf(command: Command, events: seq<Event>, i: nat)
    requires i < |events|
    ensures CommandAfter(command, events[..i + 1]) == NextCommand(CommandAfter(command, events[..i]), events[i])
    ensures var before, e := Processed(command, events[..i]), events[i];
            Processed(command, events[..i + 1])
            == if CommandAfter(command, events[..i + 1]) == Process && e.wake.Received? && e.wake.msg.Some?
               then before + [e.wake.msg.value.(index := |before|)] else before
  {
    assert events[..i + 1][..i] == events[..i];
  }

  /** Without a ctrl-c the command in force is the last change, or else the initial one. */
  lemma {:induction false} InForce(command: Command, events: seq<Event>, n: nat)
    requires n <= |events| && forall i :: 0 <= i < |events| ==> !events[i].wake.CtrlC?
    requires (n > 0 ==> events[n - 1].change.Some?) && forall i :: n <= i < |events| ==> events[i].change.None?
    ensures CommandAfter(command, events) == if n == 0 then command else events[n - 1].change.value
  {
    if n < |events| { InForce(command, events[..|events| - 1], n); }
  }

  /** A ctrl-c puts Kill in force, whatever change there was. */
  lemma CtrlCKills(command: Command, events: seq<Event>, i: nat)
    requires i < |events| && events[i].wake.CtrlC?
    ensures CommandAfter(command, events[..i + 1]) == Kill
  {
    StepOf(command, events, i);
  }

  /** The message of a wait is processed, with the next number, exactly if one was received and
      the command then in force is Process; and every processed message comes from a wait. */
  lemma {:induction false} ProcessedAre(command: Command, events: seq<Event>, k: nat) returns (i: nat)
    requires k < |Processed(command, events)|
    ensures i < |events| && CommandAfter(command, events[..i + 1]) == Process && |Processed(command, events[..i])| == k
    ensures events[i].wake.Received? && events[i].wake.msg.Some?
            && Processed(command, events)[k] == events[i].wake.msg.value.(index := k)
  {
    var last := |events| - 1;
    var before := Processed(command, events[..last]);
    assert events[..last + 1] == events;
    if k < |before| {
      i := ProcessedAre(command, events[..last], k);
      assert events[..last][..i + 1] == events[..i + 1] && events[..last][..i] == events[..i];
    } else {
      i := last;
    }
  }

  class Driver {
    var command: Command
    var index: nat
    var data: seq<CanMessage>
    var exitSignal: bool
    var published: seq<Snapshot>       // everything sent on the watch channel
    ghost var processed: seq<CanMessage>

    ghost predicate Valid()
      reads this
    {
      index == |processed| && data == WindowAt(processed, index)
    }

    constructor (command: Command)
      ensures Valid() && this.command == command && processed == []
      ensures published == [] && !exitSignal
    {
      this.command := command;
      index, data, exitSignal, published, processed := 0, [], false, [], [];
    }

    method Trim()
      modifies this`data
      ensures data == Trimmed(old(data))
    {
      while |data| > MAX_MESSAGES_IN_STATE
        invariant |data| <= |old(data)| && data == old(data)[|old(data)| - |data|..]
        invariant |data| < |old(data)| ==> |data| >= MAX_MESSAGES_IN_STATE
      {
        data := data[1..];
      }
    }

    method Process(e: Event)
      requires Valid()
      modifies this`command, this`index, this`data, this`processed
      ensures Valid() && command == NextCommand(old(command), e)
      ensures processed == if command == Command.Process && e.wake.Received? && e.wake.msg.Some?
                           then old(processed) + [e.wake.msg.value.(index := |old(processed)|)]
                           else old(processed)
    {
      hide WindowAt;
      if e.wake.CtrlC? {
        command := Kill;
        return;
      }
      if e.change.Some? {
        command := e.change.value;
      }
      if command == Stop || command == Kill {
        return;
      }
      if e.wake.TimedOut? || e.wake.msg.None? {
        return;
      }
      var d := e.wake.msg.value.(index := index);
      index := index + 1;
      WindowGrows(processed, d);
      Trim();
      data := data + [d];
      processed := processed + [d];
    }

    /** `run`, over the waits that happen before it ends or this account of it does. */
    method Run(events: seq<Event>)
      requires Valid() && processed == [] && published == [] && !exitSignal
      modifies this
      ensures |published| <= |events|
      ensures forall j :: 0 <= j < |published| ==>
                published[j].data == WindowOf(Processed(old(command), events[..j + 1]))
      ensures forall j :: 0 <= j < |published| ==>
                (published[j].exitSignal <==> CommandAfter(old(command), events[..j + 1]) == Kill)
      ensures forall j :: 0 <= j < |published| - 1 ==> !published[j].exitSignal
      ensures |published| < |events| ==> published != [] && published[|published| - 1].exitSignal
    {
      hide WindowAt, Processed, CommandAfter;
      var i := 0;
      StartOf(command);
      while i < |events|
        invariant 0 <= i <= |events| && |published| == i && Valid() && !exitSignal
        invariant command == CommandAfter(old(command), events[..i])
        invariant processed == Processed(old(command), events[..i])
        invariant forall j :: 0 <= j < i ==>
                    published[j].data == WindowOf(Processed(old(command), events[..j + 1]))
        invariant forall j :: 0 <= j < i ==> !published[j].exitSignal
        invariant forall j :: 0 <= j < i ==>
                    (published[j].exitSignal <==> CommandAfter(old(command), events[..j + 1]) == Kill)
      {
        StepOf(old(command), events, i);
        Process(events[i]);
        if command == Kill {
          exitSignal := true;
        }
        assert data == WindowOf(Processed(old(command), events[..i + 1]));
        published := published + [Snapshot(data, exitSignal)];
        if command == Kill {
          return;
        }
        i := i + 1;
      }
    }
  }

  function WindowOf(h: seq<CanMessage>): seq<CanMessage> { WindowAt(h, |h|) }

  /** A whole life of the driver. Every published window is the last 513 messages processed
      so far, or all of them; `exit_signal` is set exactly when the command in force is Kill,
      only in the last snapshot, and the driver goes on until then. */
  method DriverLife(command: Command, events: seq<Event>) returns (published: seq<Snapshot>)
    ensures |published| <= |events|
    ensures forall j :: 0 <= j < |published| ==>
              published[j].data == WindowOf(Processed(command, events[..j + 1]))
    ensures forall j :: 0 <= j < |published| ==>
              (published[j].exitSignal <==> CommandAfter(command, events[..j + 1]) == Kill)
    ensures forall j :: 0 <= j < |published| - 1 ==> !published[j].exitSignal
    ensures |published| < |events| ==> published != [] && published[|published| - 1].exitSignal
    ensures forall j :: 0 <= j < |published| && events[j].wake.CtrlC? ==>
              published[j].exitSignal && |published| == j + 1
    ensures forall j :: 0 <= j < |published| ==>
              var h := Processed(command, events[..j + 1]);
              published[j].data == if |h| > 513 then h[|h| - 513..] else h
  {
    var driver := new Driver(command);
    driver.Run(events);
    published := driver.published;
    forall j | 0 <= j < |published| && events[j].wake.CtrlC?
      ensures published[j].exitSignal && |published| == j + 1
    {
      CtrlCKills(command, events, j);
    }
  }
}

/** The message list and the pinned filters of the user interface. */
module Gui {
  import opened Outcomes
  import opened Filters
  import opened Driver

  const MESSAGES_COUNT := 4096

  /** A pinned filter, the instant its time delta counts from, and its newest message. */
  datatype Pin = Pin(filter: DataFilter, time: int, msg: Option<CanMessage>)

  function PushPin(p: Pin, m: CanMessage, now: int): Pin {
    if p.filter.Hides(m) then
      p
    else
      p.(time := if p.msg.Some? then p.msg.value.timestamp else now, msg := Some(m))
  }

  function PushPins(pins: seq<Pin>, m: CanMessage, now: int): seq<Pin> {
    seq(|pins|, i requires 0 <= i < |pins| => PushPin(pins[i], m, now))
  }

  /** The first listed message that the filter shows. */
  function FirstShown(list: seq<CanMessage>, filter: DataFilter): Option<CanMessage> {
    if list == [] then None
    else if !filter.Hides(list[0]) then Some(list[0])
    else FirstShown(list[1..], filter)
  }

  class PinnedFilters {
    var data: seq<Pin>

    constructor ()
      ensures data == []
    {
      data := [];
    }

    method PinFilter(filter: DataFilter, list: seq<CanMessage>, now: int)
      modifies this
      ensures data == old(data) + [Pin(filter, now, FirstShown(list, filter))]
    {
      data := data + [Pin(filter, now, FirstShown(list, filter))];
    }

    method PushData(m: CanMessage, now: int)
      modifies this
      ensures data == PushPins(old(data), m, now)
    {
      for i := 0 to |data|
        invariant |data| == |old(data)|
        invariant forall k :: 0 <= k < i ==> data[k] == PushPin(old(data)[k], m, now)
        invariant forall k :: i <= k < |data| ==> data[k] == old(data)[k]
      {
        if !data[i].filter.Hides(m) {
          var time := if data[i].msg.Some? then data[i].msg.value.timestamp else now;
          data := data[i := data[i].(time := time, msg := Some(m))];
        }
      }
    }
  }

  /** What a poll reads and changes: the list, newest first, and the pins. */
  datatype View = View(list: seq<CanMessage>, pins: seq<Pin>)

  /** One message of the window: skipped unless it is newer than the newest one listed. */
  function Visit(v: View, m: CanMessage, filter: GlobalFilter, now: int): View {
    if v.list != [] && m.index <= v.list[0].index then
      v
    else
      View(if filter.Hides(m) then v.list else [m] + v.list, PushPins(v.pins, m, now))
  }

  function VisitAll(v: View, window: seq<CanMessage>, filter: GlobalFilter, now: int): View {
    if window == [] then v
    else Visit(VisitAll(v, window[..|window| - 1], filter, now), window[|window| - 1], filter, now)
  }

  function Newest(list: seq<CanMessage>): seq<CanMessage> {
    if |list| > MESSAGES_COUNT then list[..MESSAGES_COUNT] else list
  }

  function Poll(v: View, window: seq<CanMessage>, filter: GlobalFilter, now: int): View {
    var w := VisitAll(v, window, filter, now);
    View(Newest(w.list), w.pins)
  }

  class Gui {
    var data: seq<CanMessage>
    const pinnedFilters: PinnedFilters

    constructor ()
      ensures data == [] && fresh(pinnedFilters) && pinnedFilters.data == []
    {
      data := [];
      pinnedFilters := new PinnedFilters();
    }

    ghost function AsView(): View
      reads this, pinnedFilters
    {
      View(data, pinnedFilters.data)
    }

    /** `get_data_from_driver`, on the newest published snapshot, with the global filter and
        the clock as they are at this poll. */
    method GetDataFromDriver(driver: Snapshot, filter: GlobalFilter, now: int) returns (exit: bool)
      modifies this, pinnedFilters
      ensures AsView() == Poll(old(AsView()), driver.data, filter, now)
      ensures exit == driver.exitSignal
    {
      for i := 0 to |driver.data|
        invariant AsView() == VisitAll(old(AsView()), driver.data[..i], filter, now)
      {
        assert driver.data[..i + 1][..i] == driver.data[..i];
        var m := driver.data[i];
        if data != [] && m.index <= data[0].index {
          continue;
        }
        pinnedFilters.PushData(m, now);
        if !filter.Hides(m) {
          data := [m] + data;
        }
      }
      assert driver.data[..|driver.data|] == driver.data;
      ghost var all := data;
      while |data| > MESSAGES_COUNT
        invariant |data| <= |all| && data == all[..|data|]
        invariant |data| >= |Newest(all)|
        invariant pinnedFilters.data == VisitAll(old(AsView()), driver.data, filter, now).pins
      {
        data := data[..|data| - 1];
      }
      exit := driver.exitSignal;
    }
  }
}
