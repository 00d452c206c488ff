/** When a pin's time delta is right. Snapshots between two polls may be skipped, so the pin is
    pushed the matches that were in some polled window, and these are compared with all matches
    of the history. */
module PinTimes {
  import opened Sequences
  import opened Outcomes
  import opened Filters
  import opened Driver
  import opened Gui
  import opened ViewerTheorems
  import opened PinTheorems

  /** The clock of the first poll by which message `i` had been processed. */
  function FoundAt(polls: seq<PollIn>, i: nat): int {
    if polls == [] then 0 else if polls[0].k > i then polls[0].now else FoundAt(polls[1..], i)
  }

  lemma {:induction false} FoundSnoc(polls: seq<PollIn>, p: PollIn, i: nat)
    ensures (exists j :: 0 <= j < |polls| && polls[j].k > i) ==> FoundAt(polls + [p], i) == FoundAt(polls, i)
    ensures (forall j :: 0 <= j < |polls| ==> polls[j].k <= i) && p.k > i ==> FoundAt(polls + [p], i) == p.now
  {
    if polls != [] {
      assert (polls + [p])[1..] == polls[1..] + [p];
      FoundSnoc(polls[1..], p, i);
    }
  }

  /** Polls under a constant filter, following up on the first `k0` messages: of these no match
      in reach is newer than the newest listed message. */
  ghost predicate Following(h: seq<CanMessage>, k0: nat, list: seq<CanMessage>, polls: seq<PollIn>,
                            f: GlobalFilter, pf: DataFilter) {
    && Indexed(h) && Advancing(h, 0, polls) && Advancing(h, k0, polls) && k0 <= |h|
    && CaughtUp(h, list, k0, pf) && Constant(polls, f)
  }

  /** What holds of such polls holds without the last. */
  lemma FollowingBefore(h: seq<CanMessage>, k0: nat, list: seq<CanMessage>, polls: seq<PollIn>,
                        f: GlobalFilter, pf: DataFilter)
    requires Following(h, k0, list, polls, f, pf) && polls != []
    ensures var last := |polls| - 1;
            var before, k := polls[..last], polls[last].k;
            && Following(h, k0, list, before, f, pf)
            && Before(k0, before, last) == Before(k0, polls, last) <= k <= |h|
            && Before(k0, polls, |polls|) == k
  {
    hide CaughtUp, Constant, Advancing, Before;
    AllButLast(h, k0, polls, f);
  }

  // ---- What is pushed ---------------------------------------------------------------------

  /** The matches among `h[a..k]` that were in some polled window, oldest first. */
  function SeenIn(h: seq<CanMessage>, polls: seq<PollIn>, a: nat, k: nat, pf: DataFilter): seq<nat>
    requires k <= |h|
  {
    if k <= a then []
    else SeenIn(h, polls, a, k - 1, pf) + if Covered(polls, k - 1) && !pf.Hides(h[k - 1]) then [k - 1] else []
  }

  lemma {:induction false} SeenAre(h: seq<CanMessage>, polls: seq<PollIn>, a: nat, k: nat, pf: DataFilter)
    requires k <= |h|
    ensures Increasing(SeenIn(h, polls, a, k, pf)) && Between(SeenIn(h, polls, a, k, pf), a, k)
    ensures forall i: nat :: i in SeenIn(h, polls, a, k, pf) <==> a <= i < k && Covered(polls, i) && !pf.Hides(h[i])
  {
    hide DataFilter.Hides, Increasing, Between, Covered;
    if k <= a {
      NoMore(a, k);
    } else {
      SeenAre(h, polls, a, k - 1, pf);
      OneMore(SeenIn(h, polls, a, k - 1, pf), a, k - 1, Covered(polls, k - 1) && !pf.Hides(h[k - 1]));
    }
  }

  /** What the last of such polls adds to the matches that were in windows. */
  lemma CoveredByLast(h: seq<CanMessage>, k0: nat, polls: seq<PollIn>, i: nat)
    requires Advancing(h, k0, polls) && polls != [] && k0 <= i
    ensures var last := |polls| - 1;
            var k, p := Before(k0, polls, last), polls[last];
            Covered(polls, i) <==>
              (i < k && Covered(polls[..last], i)) || ((if Low(p.k) < k then k else Low(p.k)) <= i < p.k)
  {
    hide Low, Covered;
    var last := |polls| - 1;
    var before, p := polls[..last], polls[last];
    assert before + [p] == polls;
    CoveredSnoc(before, p, i);
    if before != [] {
      var k := before[last - 1].k;
      assert k == Before(k0, polls, last) <= p.k;
      if Covered(before, i) { CoveredBelow(before, i); }
      LowGrows(k, p.k);
      if Low(p.k) <= i < k { LastCovers(before, i); }
    } else {
      NotCovered(i);
    }
  }

  lemma LastCovers(polls: seq<PollIn>, i: nat)
    requires polls != [] && Low(polls[|polls| - 1].k) <= i < polls[|polls| - 1].k
    ensures Covered(polls, i)
  {
  }

  lemma NotCovered(i: nat)
    ensures !Covered([], i)
  {
  }

  lemma LowGrows(a: nat, b: nat)
    requires a <= b
    ensures Low(a) <= Low(b)
  {
  }

  /** When everything matched is shown, exactly the matches that were in windows are pushed. */
  lemma {:induction false} PushedIff(h: seq<CanMessage>, v: View, k0: nat, polls: seq<PollIn>,
                                     f: GlobalFilter, pf: DataFilter)
    requires Following(h, k0, v.list, polls, f, pf) && ShowsAll(f, pf)
    ensures Before(k0, polls, |polls|) <= |h|
    ensures forall i: nat ::
              i in Pushed(h, v, polls, pf) <==>
              k0 <= i < Before(k0, polls, |polls|) && Covered(polls, i) && !pf.Hides(h[i])
  {
    hide DataFilter.Hides, GlobalFilter.Hides, MatchesIn, ShowsAll, RunPolls, CaughtUp, Constant, Covered, Low;
    if polls != [] {
      hide Pushed;
      var last := |polls| - 1;
      var before, p := polls[..last], polls[last];
      FollowingBefore(h, k0, v.list, polls, f, pf);
      hide Advancing;
      PushedIff(h, v, k0, before, f, pf);
      NoReplays(h, v, k0, before, f, pf);
      LastPush(h, v, k0, polls, f, pf);
      var k := Before(k0, polls, last);
      var b := if Low(p.k) < k then k else Low(p.k);
      MatchesAre(h, b, p.k, pf);
      forall i: nat
        ensures i in Pushed(h, v, polls, pf) <==> k0 <= i < p.k && Covered(polls, i) && !pf.Hides(h[i])
      {
        if k0 <= i { CoveredByLast(h, k0, polls, i); }
        assert i in Pushed(h, v, polls, pf) <==> i in Pushed(h, v, before, pf) || i in MatchesIn(h, b, p.k, pf);
      }
    }
  }

  lemma PushedAre(h: seq<CanMessage>, v: View, k0: nat, polls: seq<PollIn>, f: GlobalFilter, pf: DataFilter)
    requires Following(h, k0, v.list, polls, f, pf) && ShowsAll(f, pf)
    ensures Before(k0, polls, |polls|) <= |h|
    ensures Pushed(h, v, polls, pf) == SeenIn(h, polls, k0, Before(k0, polls, |polls|), pf)
  {
    hide DataFilter.Hides, GlobalFilter.Hides, ShowsAll, RunPolls, CaughtUp, Covered, Pushed, SeenIn, Increasing;
    PushedIff(h, v, k0, polls, f, pf);
    NoReplays(h, v, k0, polls, f, pf);
    SeenAre(h, polls, k0, Before(k0, polls, |polls|), pf);
    SameIncreasing(Pushed(h, v, polls, pf), SeenIn(h, polls, k0, Before(k0, polls, |polls|), pf));
  }

  /** Every match is pushed, once and in order, if and only if each was in a polled window. */
  lemma AllPushed(h: seq<CanMessage>, v: View, k0: nat, polls: seq<PollIn>, f: GlobalFilter, pf: DataFilter)
    requires Following(h, k0, v.list, polls, f, pf) && ShowsAll(f, pf)
    ensures var k := Before(k0, polls, |polls|);
            && k <= |h|
            && (Pushed(h, v, polls, pf) == MatchesIn(h, k0, k, pf)
                <==> forall i :: k0 <= i < k && !pf.Hides(h[i]) ==> Covered(polls, i))
  {
    hide DataFilter.Hides, GlobalFilter.Hides, ShowsAll, RunPolls, CaughtUp, Covered, Pushed, MatchesIn, Increasing;
    var k := Before(k0, polls, |polls|);
    PushedIff(h, v, k0, polls, f, pf);
    NoReplays(h, v, k0, polls, f, pf);
    MatchesAre(h, k0, k, pf);
    if forall i :: k0 <= i < k && !pf.Hides(h[i]) ==> Covered(polls, i) {
      SameIncreasing(Pushed(h, v, polls, pf), MatchesIn(h, k0, k, pf));
    } else {
      var i :| k0 <= i < k && !pf.Hides(h[i]) && !Covered(polls, i);
      assert i in MatchesIn(h, k0, k, pf) && i !in Pushed(h, v, polls, pf);
    }
  }

  /** A match that was in a window is first pushed by the first poll after it arrived. */
  lemma {:induction false} FirstPushIs(h: seq<CanMessage>, v: View, k0: nat, polls: seq<PollIn>,
                                       f: GlobalFilter, pf: DataFilter)
    requires Following(h, k0, v.list, polls, f, pf) && ShowsAll(f, pf)
    requires Pushed(h, v, polls, pf) != []
    ensures FirstPush(h, v, polls, pf) == FoundAt(polls, Pushed(h, v, polls, pf)[0])
  {
    hide DataFilter.Hides, GlobalFilter.Hides, MatchesIn, ShowsAll, RunPolls, CaughtUp, Constant, Covered, Low;
    if polls != [] {
      var last := |polls| - 1;
      var before, p := polls[..last], polls[last];
      assert before + [p] == polls;
      FollowingBefore(h, k0, v.list, polls, f, pf);
      PushedIff(h, v, k0, before, f, pf);
      PushedIff(h, v, k0, polls, f, pf);
      var first := Pushed(h, v, polls, pf)[0];
      assert first in Pushed(h, v, polls, pf);
      FoundSnoc(before, p, first);
      if Pushed(h, v, before, pf) != [] {
        FirstPushIs(h, v, k0, before, f, pf);
        assert first == Pushed(h, v, before, pf)[0] && first in Pushed(h, v, before, pf);
        assert before[last - 1].k > first;
      } else {
        CoveredByLast(h, k0, polls, first);
        assert first !in Pushed(h, v, before, pf);
        assert forall j :: 0 <= j < last ==> before[j].k <= Before(k0, polls, last);
      }
    }
  }

  // ---- The time, compared with the history --------------------------------------------------

  /** How the i-th pin ends, told by the matches at `idx`: it shows the last, and counts from the
      one before it, or from the message it started with, or from the poll that found it. */
  ghost predicate EndsAs(h: seq<CanMessage>, v: View, polls: seq<PollIn>, i: nat, idx: seq<nat>)
    requires Advancing(h, 0, polls) && i < |v.pins|
  {
    var pins := RunPolls(h, v, polls).pins;
    i < |pins| && Tells(h, v.pins[i], pins[i], idx, if idx == [] then 0 else FoundAt(polls, idx[0]))
  }

  /** The i-th pin ends as all matches since the first `k0` messages tell. */
  ghost predicate PinRight(h: seq<CanMessage>, k0: nat, v: View, polls: seq<PollIn>, i: nat)
    requires Advancing(h, 0, polls) && i < |v.pins|
  {
    Before(k0, polls, |polls|) <= |h|
    && EndsAs(h, v, polls, i, MatchesIn(h, k0, Before(k0, polls, |polls|), v.pins[i].filter))
  }

  /** The two newest matches, as far as there are any, were in polled windows. */
  predicate NewestSeen(h: seq<CanMessage>, k0: nat, polls: seq<PollIn>, pf: DataFilter)
    requires Before(k0, polls, |polls|) <= |h|
  {
    var all := MatchesIn(h, k0, Before(k0, polls, |polls|), pf);
    forall j :: 0 <= j < |all| && |all| - 2 <= j ==> Covered(polls, all[j])
  }

  /** The clock goes on: messages carry increasing timestamps, later than that of the message the
      pin started with, and a poll's clock is later than the messages it can see. */
  predicate Dated(h: seq<CanMessage>, k0: nat, p: Pin, polls: seq<PollIn>) {
    && (forall i, j :: 0 <= i < j < |h| ==> h[i].timestamp < h[j].timestamp)
    && (p.msg.Some? ==> forall i :: k0 <= i < |h| ==> p.msg.value.timestamp < h[i].timestamp)
    && (forall i, j :: 0 <= j < |polls| && 0 <= i < |h| && i < polls[j].k ==> h[i].timestamp < polls[j].now)
  }

  /** Whatever the gaps: when the global filter shows everything the pin matches, the pin ends as
      the matches that were in polled windows tell. */
  lemma {:induction false} TimeDelta(h: seq<CanMessage>, v: View, k0: nat, polls: seq<PollIn>,
                                     f: GlobalFilter, i: nat)
    requires i < |v.pins| && Following(h, k0, v.list, polls, f, v.pins[i].filter)
    requires ShowsAll(f, v.pins[i].filter)
    ensures Before(k0, polls, |polls|) <= |h|
    ensures EndsAs(h, v, polls, i, SeenIn(h, polls, k0, Before(k0, polls, |polls|), v.pins[i].filter))
  {
    hide DataFilter.Hides, GlobalFilter.Hides, Pushed, RunPolls, Tells, ShowsAll, SeenIn, CaughtUp, Constant;
    var pf := v.pins[i].filter;
    PushedAre(h, v, k0, polls, f, pf);
    PinRunTells(h, v, polls, i);
    if Pushed(h, v, polls, pf) != [] {
      FirstPushIs(h, v, k0, polls, f, pf);
    } else {
      NothingTold(h, v.pins[i], RunPolls(h, v, polls).pins[i], FirstPush(h, v, polls, pf), 0);
    }
  }

  lemma NothingTold(h: seq<CanMessage>, p: Pin, q: Pin, now: int, other: int)
    requires Tells(h, p, q, [], now)
    ensures Tells(h, p, q, [], other)
  {
  }

  /** `seen` are those of `all` that were in windows. */
  ghost predicate Selected(polls: seq<PollIn>, all: seq<nat>, seen: seq<nat>) {
    Increasing(all) && Increasing(seen) && forall x: nat :: x in seen <==> x in all && Covered(polls, x)
  }

  lemma SelectedLast(polls: seq<PollIn>, all: seq<nat>, seen: seq<nat>)
    requires Selected(polls, all, seen) && all != []
    ensures var n := |all| - 1;
            Covered(polls, all[n]) ==>
              seen != [] && seen[|seen| - 1] == all[n] && Selected(polls, all[..n], seen[..|seen| - 1])
    ensures !Covered(polls, all[|all| - 1]) ==>
              forall j :: 0 <= j < |seen| ==> seen[j] < all[|all| - 1]
  {
    hide Covered;
    var n := |all| - 1;
    assert all[n] in all;
    assert forall j :: 0 <= j < |seen| ==> seen[j] in seen && seen[j] in all;
    if Covered(polls, all[n]) {
      assert all[n] in seen;
      var m := |seen| - 1;
      assert seen[m] == all[n];
      var all', seen' := all[..n], seen[..m];
      forall x: nat ensures x in seen' <==> x in all' && Covered(polls, x) {
        if x in seen' { assert x in seen && x < seen[m]; }
        if x in all' && Covered(polls, x) { assert x in all && x < all[n]; assert x in seen; }
      }
    }
  }

  lemma Selects(h: seq<CanMessage>, k0: nat, polls: seq<PollIn>, pf: DataFilter)
    requires Before(k0, polls, |polls|) <= |h|
    ensures var k := Before(k0, polls, |polls|);
            Selected(polls, MatchesIn(h, k0, k, pf), SeenIn(h, polls, k0, k, pf))
  {
    hide DataFilter.Hides, Covered, MatchesIn, SeenIn, Increasing;
    MatchesAre(h, k0, Before(k0, polls, |polls|), pf);
    SeenAre(h, polls, k0, Before(k0, polls, |polls|), pf);
  }

  /** If the two newest of `all` are selected, both tell the same. */
  lemma SameEnd(h: seq<CanMessage>, p: Pin, q: Pin, polls: seq<PollIn>, all: seq<nat>, seen: seq<nat>)
    requires Selected(polls, all, seen) && Between(all, 0, |h|)
    requires forall j :: 0 <= j < |all| && |all| - 2 <= j ==> Covered(polls, all[j])
    requires Tells(h, p, q, seen, if seen == [] then 0 else FoundAt(polls, seen[0]))
    ensures Tells(h, p, q, all, if all == [] then 0 else FoundAt(polls, all[0]))
  {
    hide Covered;
    if all == [] {
      SameIncreasing(seen, []);
    } else {
      SelectedLast(polls, all, seen);
      var n, m := |all| - 1, |seen| - 1;
      if n > 0 {
        SelectedLast(polls, all[..n], seen[..m]);
      } else {
        SameIncreasing(seen[..m], []);
      }
    }
  }

  /** The clock of a poll is later than every message up to the one it found. */
  lemma {:induction false} FoundLater(polls: seq<PollIn>, i: nat, t: int)
    requires exists j :: 0 <= j < |polls| && polls[j].k > i
    requires forall j :: 0 <= j < |polls| && polls[j].k > i ==> t < polls[j].now
    ensures t < FoundAt(polls, i)
  {
    if polls[0].k <= i {
      assert forall j :: 0 <= j < |polls[1..]| ==> polls[1..][j] == polls[j + 1];
      var j :| 0 <= j < |polls| && polls[j].k > i;
      assert polls[1..][j - 1].k > i;
      FoundLater(polls[1..], i, t);
    }
  }

  /** If the clock goes on and one of the two newest is not selected, they tell differently. */
  lemma OtherEnd(h: seq<CanMessage>, k0: nat, p: Pin, q: Pin, polls: seq<PollIn>, all: seq<nat>, seen: seq<nat>)
    requires Selected(polls, all, seen) && Between(all, k0, |h|) && Dated(h, k0, p, polls)
    requires exists j :: 0 <= j < |all| && |all| - 2 <= j && !Covered(polls, all[j])
    requires Tells(h, p, q, seen, if seen == [] then 0 else FoundAt(polls, seen[0]))
    ensures !Tells(h, p, q, all, if all == [] then 0 else FoundAt(polls, all[0]))
  {
    var n, m := |all| - 1, |seen| - 1;
    SelectedLast(polls, all, seen);
    if Covered(polls, all[n]) {
      SelectedLast(polls, all[..n], seen[..m]);
      if m == 0 && p.msg.None? {
        var j :| 0 <= j < |polls| && Low(polls[j].k) <= all[n] < polls[j].k;
        FoundLater(polls, all[n], h[all[n - 1]].timestamp);
      }
    }
  }

  /** Exactly when the pin ends as the whole history tells: when the two newest matches were in
      polled windows, if the clock goes on; without that, still whenever they were. */
  lemma {:induction false} PinRightIff(h: seq<CanMessage>, v: View, k0: nat, polls: seq<PollIn>,
                                       f: GlobalFilter, i: nat)
    requires i < |v.pins| && Following(h, k0, v.list, polls, f, v.pins[i].filter)
    requires ShowsAll(f, v.pins[i].filter)
    ensures Before(k0, polls, |polls|) <= |h|
    ensures NewestSeen(h, k0, polls, v.pins[i].filter) ==> PinRight(h, k0, v, polls, i)
    ensures Dated(h, k0, v.pins[i], polls) ==>
              (PinRight(h, k0, v, polls, i) <==> NewestSeen(h, k0, polls, v.pins[i].filter))
  {
    hide DataFilter.Hides, GlobalFilter.Hides, RunPolls, Tells, ShowsAll, SeenIn, MatchesIn, CaughtUp, Constant,
         Covered, Dated, Selected;
    var pf, k := v.pins[i].filter, Before(k0, polls, |polls|);
    TimeDelta(h, v, k0, polls, f, i);
    Selects(h, k0, polls, pf);
    MatchesAre(h, k0, k, pf);
    var q, all, seen := RunPolls(h, v, polls).pins[i], MatchesIn(h, k0, k, pf), SeenIn(h, polls, k0, k, pf);
    if NewestSeen(h, k0, polls, pf) {
      SameEnd(h, v.pins[i], q, polls, all, seen);
    } else if Dated(h, k0, v.pins[i], polls) {
      OtherEnd(h, k0, v.pins[i], q, polls, all, seen);
    }
  }

  // ---- Two ways to go wrong ---------------------------------------------------------------

  /** A wrong delta: one hidden match and two polls. The second poll pushes the match again,
      and the pin ends counting from the message it shows. */
  lemma {:induction false} WrongDelta(f: GlobalFilter, pf: DataFilter, m: CanMessage)
    returns (h: seq<CanMessage>, v: View, polls: seq<PollIn>)
    requires !pf.Hides(m) && f.Hides(m)
    ensures |h| == 1 && |polls| == 2 && Following(h, 0, v.list, polls, f, pf) && NoGap(0, polls) && |v.pins| == 1
    ensures v == View([], [Pin(pf, v.pins[0].time, None)]) && |RunPolls(h, v, polls).pins| == 1
    ensures RunPolls(h, v, polls).pins[0].msg == Some(h[0])
    ensures RunPolls(h, v, polls).pins[0].time == h[0].timestamp
    ensures !PinRight(h, 0, v, polls, 0)
  {
    var now := m.timestamp + 1;
    h, v := [m.(index := 0)], View([], [Pin(pf, now, None)]);
    assert !pf.Hides(h[0]) && f.Hides(h[0]);
    hide DataFilter.Hides, GlobalFilter.Hides, RunPolls;
    var p := PollIn(1, f, now);
    polls := [p, p];
    TwoPolls(h, v, f, now, pf);
    var once := PinAfter(v.pins[0], h, 0, 1, now);
    assert PinAfter(v.pins[0], h, 0, 0, now) == v.pins[0];
    assert once == Pin(pf, now, Some(h[0]));
    assert PinAfter(once, h, 0, 0, now) == once;
    assert MatchesIn(h, 0, 1, pf) == [0];
    assert FoundAt(polls, 0) == now;
  }

  /** 514 messages of which only the first and the last are like `m`. */
  function GapHistory(m: CanMessage, x: CanMessage): (h: seq<CanMessage>)
    ensures |h| == WINDOW + 1 && Indexed(h)
  {
    seq(WINDOW + 1, i requires 0 <= i < WINDOW + 1 => if i == 0 || i == WINDOW then m.(index := i) else x.(index := i))
  }

  /** A wrong delta although everything matched is shown: the first of two matches is no longer
      in the window of the one poll, and the pin counts from that poll. */
  lemma {:induction false} GapDelta(f: GlobalFilter, pf: DataFilter, m: CanMessage, x: CanMessage, now: int)
    requires ShowsAll(f, pf) && !pf.Hides(m) && pf.Hides(x) && now != m.timestamp
    ensures var h, v, polls := GapHistory(m, x), View([], [Pin(pf, now, None)]), [PollIn(WINDOW + 1, f, now)];
            && Following(h, 0, v.list, polls, f, pf)
            && MatchesIn(h, 0, |h|, pf) == [0, WINDOW] && Pushed(h, v, polls, pf) == [WINDOW]
            && RunPolls(h, v, polls).pins == [Pin(pf, now, Some(h[WINDOW]))]
            && !PinRight(h, 0, v, polls, 0)
  {
    hide DataFilter.Hides, GlobalFilter.Hides, ShowsAll, RunPolls, Pushed, GapHistory, MatchesIn, Following;
    var h, v, polls := GapHistory(m, x), View([], [Pin(pf, now, None)]), [PollIn(WINDOW + 1, f, now)];
    GapPushes(f, pf, m, x, v, now);
    FoundByOne(polls);
    assert h[0].timestamp == m.timestamp by { GapEnds(m, x); }
    assert Advancing(h, 0, polls) by { GapFollows(f, pf, m, x, now); }
    PinRunTells(h, v, polls, 0);
    FirstPushIs(h, v, 0, polls, f, pf);
  }

  lemma GapEnds(m: CanMessage, x: CanMessage)
    ensures GapHistory(m, x)[0].timestamp == m.timestamp
  {
  }

  lemma FoundByOne(polls: seq<PollIn>)
    requires |polls| == 1
    ensures forall i: nat :: i < polls[0].k ==> FoundAt(polls, i) == polls[0].now
  {
  }

  lemma GapFollows(f: GlobalFilter, pf: DataFilter, m: CanMessage, x: CanMessage, now: int)
    ensures Following(GapHistory(m, x), 0, [], [PollIn(WINDOW + 1, f, now)], f, pf)
  {
    hide DataFilter.Hides, GlobalFilter.Hides, GapHistory;
  }

  lemma GapMatches(pf: DataFilter, m: CanMessage, x: CanMessage)
    requires !pf.Hides(m) && pf.Hides(x)
    ensures var h := GapHistory(m, x); forall i :: 0 <= i < |h| ==> (!pf.Hides(h[i]) <==> i == 0 || i == WINDOW)
  {
  }

  lemma GapPushes(f: GlobalFilter, pf: DataFilter, m: CanMessage, x: CanMessage, v: View, now: int)
    requires ShowsAll(f, pf) && !pf.Hides(m) && pf.Hides(x) && v.list == []
    ensures var h, polls := GapHistory(m, x), [PollIn(WINDOW + 1, f, now)];
            && Following(h, 0, [], polls, f, pf)
            && MatchesIn(h, 0, |h|, pf) == [0, WINDOW] && Pushed(h, v, polls, pf) == [WINDOW]
  {
    hide DataFilter.Hides, GlobalFilter.Hides, ShowsAll, RunPolls, Pushed, GapHistory, MatchesIn;
    var h, polls := GapHistory(m, x), [PollIn(WINDOW + 1, f, now)];
    GapMatches(pf, m, x);
    GapFollows(f, pf, m, x, now);
    hide Following;
    MatchesAre(h, 0, |h|, pf);
    SameIncreasing(MatchesIn(h, 0, |h|, pf), [0, WINDOW]);
    PushedIff(h, v, 0, polls, f, pf);
    PushedAre(h, v, 0, polls, f, pf);
    SeenAre(h, polls, 0, |h|, pf);
    assert Covered(polls, WINDOW) && !Covered(polls, 0) by { assert polls[0].k == WINDOW + 1; }
    SameIncreasing(Pushed(h, v, polls, pf), [WINDOW]);
  }

  // ---- Exactly which filters keep the time right ---------------------------------------------

  /** Every run of polls without a gap gives a pin the right time. */
  ghost predicate RightWithoutGaps(f: GlobalFilter, pf: DataFilter) {
    forall h: seq<CanMessage>, k0: nat, v: View, polls: seq<PollIn>, i: nat ::
      i < |v.pins| && v.pins[i].filter == pf && Following(h, k0, v.list, polls, f, pf) && NoGap(k0, polls) ==>
        PinRight(h, k0, v, polls, i)
  }

  /** Every run of polls gives a pin the right time. */
  ghost predicate AlwaysRight(f: GlobalFilter, pf: DataFilter) {
    forall h: seq<CanMessage>, k0: nat, v: View, polls: seq<PollIn>, i: nat ::
      i < |v.pins| && v.pins[i].filter == pf && Following(h, k0, v.list, polls, f, pf) ==>
        PinRight(h, k0, v, polls, i)
  }

  /** Without gaps the time is always right exactly if the global filter shows everything the
      pin matches. */
  lemma RightWithoutGapsIff(f: GlobalFilter, pf: DataFilter)
    ensures RightWithoutGaps(f, pf) <==> ShowsAll(f, pf)
  {
    hide DataFilter.Hides, GlobalFilter.Hides, PinRight, CaughtUp, Constant, NewestSeen, RunPolls;
    if ShowsAll(f, pf) {
      forall h: seq<CanMessage>, k0: nat, v: View, polls: seq<PollIn>, i: nat |
        i < |v.pins| && v.pins[i].filter == pf && Following(h, k0, v.list, polls, f, pf) && NoGap(k0, polls)
        ensures PinRight(h, k0, v, polls, i)
      {
        PinRightIff(h, v, k0, polls, f, i);
        NoGapSeen(h, k0, polls, pf);
      }
    } else {
      var m :| !pf.Hides(m) && f.Hides(m);
      var h, v, polls := WrongDelta(f, pf, m);
    }
  }

  lemma NoGapSeen(h: seq<CanMessage>, k0: nat, polls: seq<PollIn>, pf: DataFilter)
    requires NoGap(k0, polls) && Before(k0, polls, |polls|) <= |h|
    ensures NewestSeen(h, k0, polls, pf)
  {
    hide DataFilter.Hides, NoGap, Covered, MatchesIn;
    var k := Before(k0, polls, |polls|);
    var all := MatchesIn(h, k0, k, pf);
    MatchesAre(h, k0, k, pf);
    forall j | 0 <= j < |all| ensures Covered(polls, all[j]) {
      NoGapCovers(k0, polls, all[j]);
    }
  }

  /** With gaps, it is always right exactly if besides the pin matches every message; or if it
      matches none. */
  lemma AlwaysRightIff(f: GlobalFilter, pf: DataFilter)
    ensures AlwaysRight(f, pf) <==> (forall m :: pf.Hides(m)) || (ShowsAll(f, pf) && forall m :: !pf.Hides(m))
  {
    hide DataFilter.Hides, GlobalFilter.Hides, PinRight, CaughtUp, Constant, NewestSeen, RunPolls;
    if (forall m :: pf.Hides(m)) || (ShowsAll(f, pf) && forall m :: !pf.Hides(m)) {
      forall h: seq<CanMessage>, k0: nat, v: View, polls: seq<PollIn>, i: nat |
        i < |v.pins| && v.pins[i].filter == pf && Following(h, k0, v.list, polls, f, pf)
        ensures PinRight(h, k0, v, polls, i)
      {
        PinRightIff(h, v, k0, polls, f, i);
        AllOrNoneSeen(h, k0, polls, pf);
      }
    } else if !ShowsAll(f, pf) {
      var m :| !pf.Hides(m) && f.Hides(m);
      var h, v, polls := WrongDelta(f, pf, m);
    } else {
      var m, x :| !pf.Hides(m) && pf.Hides(x);
      GapDelta(f, pf, m, x, m.timestamp + 1);
    }
  }

  lemma AllOrNoneSeen(h: seq<CanMessage>, k0: nat, polls: seq<PollIn>, pf: DataFilter)
    requires Advancing(h, k0, polls) && Before(k0, polls, |polls|) <= |h|
    requires (forall m :: pf.Hides(m)) || (forall m :: !pf.Hides(m))
    ensures NewestSeen(h, k0, polls, pf)
  {
    hide DataFilter.Hides, MatchesIn;
    var k := Before(k0, polls, |polls|);
    var all := MatchesIn(h, k0, k, pf);
    MatchesAre(h, k0, k, pf);
    forall j | 0 <= j < |all| && |all| - 2 <= j ensures Covered(polls, all[j]) {
      assert all[j] in all;
      assert !pf.Hides(h[all[j]]);
      if all[j] + 2 < k {
        assert k - 1 in all;
        TwoAbove(all, j, k - 2);
      }
      assert polls[|polls| - 1].k == k && Low(k) <= all[j] < k;
    }
  }

  /** What lies below two elements of an increasing sequence is not among its last two. */
  lemma TwoAbove(idx: seq<nat>, j: nat, x: nat)
    requires Increasing(idx) && j < |idx| && x in idx && x + 1 in idx
    ensures idx[j] < x ==> j < |idx| - 2
  {
    var a :| 0 <= a < |idx| && idx[a] == x;
    var b :| 0 <= b < |idx| && idx[b] == x + 1;
    assert a < b;
    if idx[j] < x { assert j < a; }
  }
}
