/** Pins made between polls: what a run of polls and pinnings makes of each pin. */
module PinRuns {
  import opened Outcomes
  import opened Filters
  import opened Driver
  import opened Gui
  import opened ViewerTheorems
  import opened PinTheorems
  import opened PinTimes

  /** What the interface does with the list and the pins: poll, or pin a filter. */
  datatype Act = Polling(poll: PollIn) | Pinning(filter: DataFilter, now: int)

  function PollsIn(acts: seq<Act>): seq<PollIn> {
    if acts == [] then
      []
    else
      var last := acts[|acts| - 1];
      PollsIn(acts[..|acts| - 1]) + if last.Polling? then [last.poll] else []
  }

  function PinNow(list: seq<CanMessage>, act: Act): Pin
    requires act.Pinning?
  {
    Pin(act.filter, act.now, FirstShown(list, act.filter))
  }

  function RunActs(h: seq<CanMessage>, v: View, acts: seq<Act>): View
    requires Advancing(h, 0, PollsIn(acts))
  {
    if acts == [] then
      v
    else
      ActsBefore(h, acts);
      var last, w := acts[|acts| - 1], RunActs(h, v, acts[..|acts| - 1]);
      if last.Polling? then PollAt(h, w, last.poll) else View(w.list, w.pins + [PinNow(w.list, last)])
  }

  lemma ActsBefore(h: seq<CanMessage>, acts: seq<Act>)
    requires acts != [] && Advancing(h, 0, PollsIn(acts))
    ensures var before, last := acts[..|acts| - 1], acts[|acts| - 1];
            && Advancing(h, 0, PollsIn(before)) && (last.Polling? ==> last.poll.k <= |h|)
  {
    var before := PollsIn(acts[..|acts| - 1]);
    assert forall j :: 0 <= j < |before| ==> before[j] == PollsIn(acts)[j];
    if acts[|acts| - 1].Polling? { assert PollsIn(acts)[|before|] == acts[|acts| - 1].poll; }
  }

  /** Pins do not touch the list, nor each other: a view whose list and i-th pin are those of
      another ends a run of acts as the other ends the polls among them. */
  lemma {:induction false} PinsApart(h: seq<CanMessage>, v: View, w: View, acts: seq<Act>, i: nat, j: nat)
    requires Indexed(h) && Advancing(h, 0, PollsIn(acts)) && v.list == w.list
    requires i < |v.pins| && j < |w.pins| && v.pins[i] == w.pins[j]
    ensures var a, b := RunActs(h, v, acts), RunPolls(h, w, PollsIn(acts));
            && a.list == b.list && i < |a.pins| && j < |b.pins| && a.pins[i] == b.pins[j]
  {
    hide Poll, PinAfter, Shown, Low, FirstShown;
    if acts != [] {
      var before, last := acts[..|acts| - 1], acts[|acts| - 1];
      ActsBefore(h, acts);
      PinsApart(h, v, w, before, i, j);
      if last.Polling? {
        assert PollsIn(acts)[..|PollsIn(before)|] == PollsIn(before);
        PollIs(h, RunActs(h, v, before), last.poll);
        PollIs(h, RunPolls(h, w, PollsIn(before)), last.poll);
      } else {
        assert PollsIn(acts) == PollsIn(before);
      }
    }
  }

  lemma {:induction false} ListApart(h: seq<CanMessage>, v: View, w: View, acts: seq<Act>)
    requires Indexed(h) && Advancing(h, 0, PollsIn(acts)) && v.list == w.list
    ensures RunActs(h, v, acts).list == RunPolls(h, w, PollsIn(acts)).list
  {
    hide Poll, PinAfter, Shown, Low, FirstShown, PinsAfter;
    if acts != [] {
      var before, last := acts[..|acts| - 1], acts[|acts| - 1];
      ActsBefore(h, acts);
      ListApart(h, v, w, before);
      if last.Polling? {
        assert PollsIn(acts)[..|PollsIn(before)|] == PollsIn(before);
        PollIs(h, RunActs(h, v, before), last.poll);
        PollIs(h, RunPolls(h, w, PollsIn(before)), last.poll);
      } else {
        assert PollsIn(acts) == PollsIn(before);
      }
    }
  }

  lemma {:induction false} PollsInAppend(a: seq<Act>, b: seq<Act>)
    ensures PollsIn(a + b) == PollsIn(a) + PollsIn(b)
    decreases |b|
  {
    if b == [] {
      assert a + b == a;
    } else {
      assert (a + b)[..|a + b| - 1] == a + b[..|b| - 1];
      PollsInAppend(a, b[..|b| - 1]);
    }
  }

  lemma AdvancingSplit(h: seq<CanMessage>, a: seq<PollIn>, b: seq<PollIn>)
    requires Advancing(h, 0, a + b)
    ensures Advancing(h, 0, a) && Advancing(h, 0, b) && Advancing(h, Before(0, a, |a|), b)
    ensures Before(0, a, |a|) <= |h|
  {
    assert forall i :: 0 <= i < |a| ==> a[i] == (a + b)[i];
    assert forall i :: 0 <= i < |b| ==> b[i] == (a + b)[|a| + i];
  }

  lemma {:induction false} RunActsSplit(h: seq<CanMessage>, v: View, a: seq<Act>, b: seq<Act>)
    requires Advancing(h, 0, PollsIn(a + b))
    ensures Advancing(h, 0, PollsIn(a)) && Advancing(h, 0, PollsIn(b))
    ensures RunActs(h, v, a + b) == RunActs(h, RunActs(h, v, a), b)
    decreases |b|
  {
    hide PollAt, PinNow;
    PollsInAppend(a, b);
    AdvancingSplit(h, PollsIn(a), PollsIn(b));
    if b == [] {
      assert a + b == a;
    } else {
      assert (a + b)[..|a + b| - 1] == a + b[..|b| - 1];
      ActsBefore(h, a + b);
      ActsBefore(h, b);
      RunActsSplit(h, v, a, b[..|b| - 1]);
    }
  }

  /** The polls before and after the c-th act, and the messages processed by then. */
  function Earlier(acts: seq<Act>, c: nat): seq<PollIn> requires c < |acts| { PollsIn(acts[..c]) }
  function Later(acts: seq<Act>, c: nat): seq<PollIn> requires c < |acts| { PollsIn(acts[c + 1..]) }
  function CountAt(acts: seq<Act>, c: nat): nat requires c < |acts| {
    Before(0, Earlier(acts, c), |Earlier(acts, c)|)
  }

  lemma PollsAround(h: seq<CanMessage>, acts: seq<Act>, c: nat)
    requires c < |acts| && acts[c].Pinning? && Advancing(h, 0, PollsIn(acts))
    ensures PollsIn(acts) == Earlier(acts, c) + Later(acts, c)
    ensures Advancing(h, 0, Earlier(acts, c)) && Advancing(h, 0, Later(acts, c))
    ensures Advancing(h, CountAt(acts, c), Later(acts, c)) && CountAt(acts, c) <= |h|
  {
    hide Advancing, Before;
    var upTo := acts[..c + 1];
    assert acts == upTo + acts[c + 1..];
    PollsInAppend(upTo, acts[c + 1..]);
    assert PollsIn(upTo) == PollsIn(acts[..c]) by { assert upTo[..|upTo| - 1] == acts[..c]; }
    hide PollsIn;
    AdvancingSplit(h, Earlier(acts, c), Later(acts, c));
  }

  /** The interface when the c-th act pins a filter, seen by that pin alone. */
  function PinnedAt(h: seq<CanMessage>, acts: seq<Act>, c: nat): View
    requires c < |acts| && acts[c].Pinning? && Advancing(h, 0, Earlier(acts, c))
  {
    var list := RunPolls(h, View([], []), Earlier(acts, c)).list;
    View(list, [PinNow(list, acts[c])])
  }

  /** How many filters were pinned before: the place of the pin the c-th act makes. */
  function Place(acts: seq<Act>, c: nat): nat
    requires c <= |acts|
  {
    if c == 0 then 0 else Place(acts, c - 1) + if acts[c - 1].Pinning? then 1 else 0
  }

  lemma {:induction false} PinCount(h: seq<CanMessage>, acts: seq<Act>, c: nat)
    requires c <= |acts| && Indexed(h) && Advancing(h, 0, PollsIn(acts[..c]))
    ensures |RunActs(h, View([], []), acts[..c]).pins| == Place(acts, c)
  {
    hide Poll, PinAfter, Shown, Low, PinNow;
    if c > 0 {
      assert acts[..c][..c - 1] == acts[..c - 1];
      ActsBefore(h, acts[..c]);
      PinCount(h, acts, c - 1);
      if acts[c - 1].Polling? { PollIs(h, RunActs(h, View([], []), acts[..c - 1]), acts[c - 1].poll); }
    }
  }

  /** Pinning adds one pin, the newest listed match, and nothing else. */
  lemma {:induction false} JustPinned(h: seq<CanMessage>, acts: seq<Act>, c: nat)
    requires Indexed(h) && c < |acts| && acts[c].Pinning? && Advancing(h, 0, Earlier(acts, c))
    ensures Advancing(h, 0, PollsIn(acts[..c + 1]))
    ensures var v, alone := RunActs(h, View([], []), acts[..c + 1]), PinnedAt(h, acts, c);
            v.list == alone.list && |v.pins| == Place(acts, c) + 1 && v.pins[Place(acts, c)] == alone.pins[0]
  {
    hide Poll, PollAt, PinNow, RunPolls, Advancing;
    var upTo := acts[..c + 1];
    assert upTo[..|upTo| - 1] == acts[..c] && upTo[|upTo| - 1] == acts[c];
    assert PollsIn(upTo) == PollsIn(acts[..c]);
    ListApart(h, View([], []), View([], []), acts[..c]);
    PinCount(h, acts, c);
  }

  /** A pin made in a run ends as the polls after it make it, whatever else is pinned. */
  lemma {:induction false} PinInRun(h: seq<CanMessage>, acts: seq<Act>, c: nat)
    requires Indexed(h) && Advancing(h, 0, PollsIn(acts)) && c < |acts| && acts[c].Pinning?
    requires Advancing(h, 0, Earlier(acts, c)) && Advancing(h, 0, Later(acts, c))
    ensures var pins, alone := RunActs(h, View([], []), acts).pins,
                               RunPolls(h, PinnedAt(h, acts, c), Later(acts, c)).pins;
            Place(acts, c) < |pins| && |alone| == 1 && pins[Place(acts, c)] == alone[0]
  {
    hide Poll, PollAt, PinNow, RunPolls, RunActs, PollsIn, Advancing, Place;
    var upTo := acts[..c + 1];
    assert acts == upTo + acts[c + 1..];
    RunActsSplit(h, View([], []), upTo, acts[c + 1..]);
    JustPinned(h, acts, c);
    PinsApart(h, RunActs(h, View([], []), upTo), PinnedAt(h, acts, c), acts[c + 1..], Place(acts, c), 0);
    PinRunTells(h, PinnedAt(h, acts, c), Later(acts, c), 0);
  }

  /** In any run, whatever filters are in force, a pin shows the newest of the matches listed
      when it was made and of those pushed since, and its message is a match. */
  lemma {:induction false} PinNewestInRun(h: seq<CanMessage>, acts: seq<Act>, c: nat)
    requires Indexed(h) && Advancing(h, 0, PollsIn(acts)) && c < |acts| && acts[c].Pinning?
    ensures Advancing(h, 0, Earlier(acts, c)) && Advancing(h, 0, Later(acts, c))
    ensures Place(acts, c) < |RunActs(h, View([], []), acts).pins|
    ensures var v, q := PinnedAt(h, acts, c), RunActs(h, View([], []), acts).pins[Place(acts, c)];
            var pf, pushed := acts[c].filter, Pushed(h, v, Later(acts, c), acts[c].filter);
            && q.filter == pf && PinOk(h, q, Before(CountAt(acts, c), Later(acts, c), |Later(acts, c)|))
            && (forall m :: m in v.list && !pf.Hides(m) ==> q.msg.Some? && m.index <= q.msg.value.index)
            && (forall x :: x in pushed ==> q.msg.Some? && x <= q.msg.value.index)
            && (q.msg.Some? ==> q.msg.value in v.list || q.msg.value.index in pushed)
  {
    hide DataFilter.Hides, RunActs, RunPolls, Pushed, PinOk, Listed, Poll;
    PollsAround(h, acts, c);
    PinInRun(h, acts, c);
    var earlier, k0 := Earlier(acts, c), CountAt(acts, c);
    var v := PinnedAt(h, acts, c);
    ListAlwaysOrdered(h, [], earlier);
    PickIsNewest(h, v.list, k0, acts[c].filter, acts[c].now);
    PinnedIsNewest(h, v, k0, Later(acts, c), 0);
  }

  /** In a run under a constant filter that shows all the pin matches, whatever snapshots were
      skipped: the pin ends as the matches that were in polled windows since it was made tell,
      and as all matches tell if the two newest of them were; if the clock goes on, only then. */
  lemma {:induction false} PinTimeInRun(h: seq<CanMessage>, acts: seq<Act>, c: nat, f: GlobalFilter)
    requires Indexed(h) && Advancing(h, 0, PollsIn(acts)) && c < |acts| && acts[c].Pinning?
    requires Constant(PollsIn(acts), f) && ShowsAll(f, acts[c].filter)
    ensures Advancing(h, 0, Earlier(acts, c)) && Advancing(h, 0, Later(acts, c))
    ensures Before(CountAt(acts, c), Later(acts, c), |Later(acts, c)|) <= |h|
    ensures var v, later, k0 := PinnedAt(h, acts, c), Later(acts, c), CountAt(acts, c);
            var pins, pf := RunActs(h, View([], []), acts).pins, acts[c].filter;
            && Place(acts, c) < |pins| && |RunPolls(h, v, later).pins| == 1
            && pins[Place(acts, c)] == RunPolls(h, v, later).pins[0]
            && EndsAs(h, v, later, 0, SeenIn(h, later, k0, Before(k0, later, |later|), pf))
            && (NewestSeen(h, k0, later, pf) ==> PinRight(h, k0, v, later, 0))
            && (Dated(h, k0, v.pins[0], later) ==>
                  (PinRight(h, k0, v, later, 0) <==> NewestSeen(h, k0, later, pf)))
  {
    hide DataFilter.Hides, GlobalFilter.Hides, RunActs, RunPolls, PinRight, EndsAs, ShowsAll, Listed, Poll, NewestSeen,
         Dated, SeenIn;
    PollsAround(h, acts, c);
    PinInRun(h, acts, c);
    ConstantSplit(Earlier(acts, c), Later(acts, c), f);
    StartsCaughtUp(h, acts[c].filter);
    hide Constant, CaughtUp;
    NoReplays(h, View([], []), 0, Earlier(acts, c), f, acts[c].filter);
    TimeDelta(h, PinnedAt(h, acts, c), CountAt(acts, c), Later(acts, c), f, 0);
    PinRightIff(h, PinnedAt(h, acts, c), CountAt(acts, c), Later(acts, c), f, 0);
  }

  lemma ConstantSplit(a: seq<PollIn>, b: seq<PollIn>, f: GlobalFilter)
    requires Constant(a + b, f)
    ensures Constant(a, f) && Constant(b, f)
  {
    assert forall i :: 0 <= i < |a| ==> a[i] == (a + b)[i];
    assert forall i :: 0 <= i < |b| ==> b[i] == (a + b)[|a| + i];
  }

  lemma StartsCaughtUp(h: seq<CanMessage>, pf: DataFilter)
    ensures CaughtUp(h, [], 0, pf)
  {
  }

  /** The wrong delta in a run: pin a filter, then let two polls see one hidden match. */
  lemma {:induction false} WrongDeltaRun(f: GlobalFilter, pf: DataFilter, m: CanMessage)
    returns (h: seq<CanMessage>, acts: seq<Act>)
    requires !pf.Hides(m) && f.Hides(m)
    ensures |h| == 1 && Indexed(h) && |acts| == 3 && acts[0].Pinning? && acts[0].filter == pf
    ensures Advancing(h, 0, PollsIn(acts)) && Constant(PollsIn(acts), f) && NoGap(0, PollsIn(acts))
    ensures var pins := RunActs(h, View([], []), acts).pins;
            |pins| > 0 && pins[0].msg == Some(h[0]) && pins[0].time == h[0].timestamp
  {
    hide DataFilter.Hides, GlobalFilter.Hides, RunActs, RunPolls, PinRight, Constant, Advancing, NoGap;
    var v, polls;
    h, v, polls := WrongDelta(f, pf, m);
    var pinning := Pinning(pf, v.pins[0].time);
    acts := [pinning, Polling(polls[0]), Polling(polls[1])];
    PinThenPolls(pinning, polls);
    PollsAround(h, acts, 0);
    FirstPinned(h, acts);
    PinInRun(h, acts, 0);
  }

  lemma PinThenPolls(pinning: Act, polls: seq<PollIn>)
    requires pinning.Pinning? && |polls| == 2
    ensures var acts := [pinning, Polling(polls[0]), Polling(polls[1])];
            PollsIn(acts) == polls && Later(acts, 0) == polls
  {
    var later := [Polling(polls[0]), Polling(polls[1])];
    assert later[..1] == [Polling(polls[0])] && later[..1][..0] == [];
    assert PollsIn(later[..1]) == [polls[0]];
    assert PollsIn(later) == [polls[0]] + [polls[1]] == polls;
    assert [pinning][..0] == [];
    PollsInAppend([pinning], later);
    assert [pinning] + later == [pinning, Polling(polls[0]), Polling(polls[1])];
  }

  lemma FirstPinned(h: seq<CanMessage>, acts: seq<Act>)
    requires acts != [] && acts[0].Pinning? && Advancing(h, 0, Earlier(acts, 0))
    ensures PinnedAt(h, acts, 0) == View([], [Pin(acts[0].filter, acts[0].now, None)]) && Place(acts, 0) == 0
  {
    assert acts[..0] == [];
  }
}
