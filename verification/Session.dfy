/** The driver and the user interface together: the acts of the pin theorems are those the
    two really make. */
module ViewerSession {
  import opened Filters
  import opened Driver
  import opened Gui
  import opened ViewerTheorems
  import opened PinRuns

  /** What the interface does: a poll, made when the driver has published `after` snapshots or
      all it ever does, or the pinning of a filter. */
  datatype Step = Look(after: nat, filter: GlobalFilter, now: int) | PinNow(pinned: DataFilter, now: int)

  predicate InOrder(steps: seq<Step>) {
    forall i, j :: 0 <= i < j < |steps| && steps[i].Look? && steps[j].Look? ==> steps[i].after <= steps[j].after
  }

  /** Which snapshot a look finds. */
  function Found(after: nat, published: nat): (n: nat)
    ensures n <= published
  {
    if after < published then after else published
  }

  /** How many messages had been processed when that snapshot was published. */
  function Processing(command: Command, events: seq<Event>, after: nat, published: nat): nat
    requires published <= |events|
  {
    |Processed(command, events[..Found(after, published)])|
  }

  function ActOf(command: Command, events: seq<Event>, step: Step, published: nat): Act
    requires published <= |events|
  {
    match step
    case Look(after, filter, now) => Polling(PollIn(Processing(command, events, after, published), filter, now))
    case PinNow(filter, now) => Pinning(filter, now)
  }

  function ActsOf(command: Command, events: seq<Event>, steps: seq<Step>, published: nat): (acts: seq<Act>)
    requires published <= |events|
    ensures |acts| == |steps|
  {
    seq(|steps|, j requires 0 <= j < |steps| => ActOf(command, events, steps[j], published))
  }

  lemma FoundBetween(command: Command, events: seq<Event>, a: nat, b: nat)
    requires a <= b <= |events|
    ensures |Processed(command, events[..a])| <= |Processed(command, events[..b])| <= |Processed(command, events)|
  {
    ProcessedGrows(command, events, b);
    ProcessedGrows(command, events[..b], a);
    assert events[..b][..a] == events[..a];
  }

  lemma AdvancingSnoc(h: seq<CanMessage>, polls: seq<PollIn>, p: PollIn)
    requires Advancing(h, 0, polls) && p.k <= |h| && forall j :: 0 <= j < |polls| ==> polls[j].k <= p.k
    ensures Advancing(h, 0, polls + [p])
  {
  }

  /** The polls among steps that find none but the first `m` snapshots never go back, and find
      no more than was processed by then. */
  lemma {:induction false} LooksUpTo(command: Command, events: seq<Event>, steps: seq<Step>, published: nat, m: nat)
    requires m <= published <= |events| && InOrder(steps)
    requires forall i :: 0 <= i < |steps| && steps[i].Look? ==> Found(steps[i].after, published) <= m
    ensures var polls := PollsIn(ActsOf(command, events, steps, published));
            && Advancing(Processed(command, events), 0, polls)
            && forall j :: 0 <= j < |polls| ==> polls[j].k <= |Processed(command, events[..m])|
  {
    hide Processed, Advancing;
    var acts := ActsOf(command, events, steps, published);
    if steps == [] {
      NoActs(Processed(command, events));
    } else {
      var last := |steps| - 1;
      var before := steps[..last];
      assert acts[..last] == ActsOf(command, events, before, published);
      if steps[last].Look? {
        var n := Found(steps[last].after, published);
        LooksUpTo(command, events, before, published, n);
        FoundBetween(command, events, n, m);
        AdvancingSnoc(Processed(command, events), PollsIn(acts[..last]), acts[last].poll);
      } else {
        LooksUpTo(command, events, before, published, m);
        assert PollsIn(acts) == PollsIn(acts[..last]);
      }
    }
  }

  /** Through the latest-value channel the polls never go back. */
  lemma LooksAdvance(command: Command, events: seq<Event>, steps: seq<Step>, published: nat)
    requires published <= |events| && InOrder(steps)
    ensures Indexed(Processed(command, events))
    ensures Advancing(Processed(command, events), 0, PollsIn(ActsOf(command, events, steps, published)))
  {
    ProcessedGrows(command, events, |events|);
    LooksUpTo(command, events, steps, published, published);
  }

  /** A snapshot of the first `n` waits is a window of the whole history. */
  lemma WindowOfPrefix(command: Command, events: seq<Event>, n: nat)
    requires n <= |events|
    ensures var h, p := Processed(command, events), Processed(command, events[..n]);
            |p| <= |h| && WindowOf(p) == WindowAt(h, |p|) && (n == 0 ==> WindowOf(p) == [])
  {
    ProcessedGrows(command, events, n);
    StartOf(command);
  }

  /** A session: the driver lives through `events` while the interface polls its latest
      snapshot and pins filters. What the interface ends with is what these acts make of the
      numbered history, so the theorems about lists and pins in runs hold of it. */
  method Session(command: Command, events: seq<Event>, steps: seq<Step>)
    returns (list: seq<CanMessage>, pins: seq<Pin>, published: nat)
    requires InOrder(steps)
    ensures published <= |events| && Indexed(Processed(command, events))
    ensures Advancing(Processed(command, events), 0, PollsIn(ActsOf(command, events, steps, published)))
    ensures View(list, pins) == RunActs(Processed(command, events), View([], []),
                                        ActsOf(command, events, steps, published))
  {
    hide Processed, Poll, WindowAt, WindowOf, CommandAfter, Found, InOrder, PollsIn, Advancing;
    var snapshots := DriverLife(command, events);
    published := |snapshots|;
    ghost var h, acts := Processed(command, events), ActsOf(command, events, steps, published);
    LooksAdvance(command, events, steps, published);
    NoActs(h);
    var gui := new Gui();
    for j := 0 to |steps|
      invariant Advancing(h, 0, PollsIn(acts[..j]))
      invariant gui.AsView() == RunActs(h, View([], []), acts[..j])
    {
      assert acts[..j + 1][..j] == acts[..j];
      assert acts[..j + 1] + acts[j + 1..] == acts;
      RunActsSplit(h, View([], []), acts[..j + 1], acts[j + 1..]);
      ActsBefore(h, acts[..j + 1]);
      match steps[j] {
        case Look(after, filter, now) =>
          var n := Found(after, published);
          var snapshot := if n == 0 then Snapshot([], false) else snapshots[n - 1];
          WindowOfPrefix(command, events, n);
          assert snapshot.data == WindowAt(h, acts[j].poll.k);
          var exit := gui.GetDataFromDriver(snapshot, filter, now);
        case PinNow(filter, now) =>
          gui.pinnedFilters.PinFilter(filter, gui.data, now);
      }
    }
    assert acts[..|steps|] == acts;
    list, pins := gui.data, gui.pinnedFilters.data;
  }

  lemma NoActs(h: seq<CanMessage>)
    ensures Advancing(h, 0, PollsIn([]))
  {
  }
}
