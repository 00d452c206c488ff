/** Pinned filters over whole runs of polls. Messages that the global filter hides do not
    advance the list, so later polls push them again; these lemmas say what that can and
    cannot spoil. */
module PinTheorems {
  import opened Sequences
  import opened Outcomes
  import opened Filters
  import opened Driver
  import opened Gui
  import opened ViewerTheorems

  /** The indices of the messages of `h[a..k]` the pin matches, oldest first. */
  function MatchesIn(h: seq<CanMessage>, a: nat, k: nat, pf: DataFilter): seq<nat>
    requires k <= |h|
  {
    if k <= a then []
    else MatchesIn(h, a, k - 1, pf) + if pf.Hides(h[k - 1]) then [] else [k - 1]
  }

  /** Every message pushed into the pin and matching it, in order, replays included. */
  function Pushed(h: seq<CanMessage>, v: View, polls: seq<PollIn>, pf: DataFilter): seq<nat>
    requires Advancing(h, 0, polls)
  {
    if polls == [] then
      []
    else
      var last := |polls| - 1;
      Pushed(h, v, polls[..last], pf)
      + MatchesIn(h, Fresh(RunPolls(h, v, polls[..last]).list, Low(polls[last].k)), polls[last].k, pf)
  }

  predicate Between(idx: seq<nat>, a: nat, k: nat) { forall i :: 0 <= i < |idx| ==> a <= idx[i] < k }

  lemma {:induction false} MatchesAre(h: seq<CanMessage>, a: nat, k: nat, pf: DataFilter)
    requires k <= |h|
    ensures Increasing(MatchesIn(h, a, k, pf)) && Between(MatchesIn(h, a, k, pf), a, k)
    ensures forall i: nat :: i in MatchesIn(h, a, k, pf) <==> a <= i < k && !pf.Hides(h[i])
  {
    hide DataFilter.Hides, Increasing, Between;
    if k <= a {
      NoMore(a, k);
    } else {
      MatchesAre(h, a, k - 1, pf);
      OneMore(MatchesIn(h, a, k - 1, pf), a, k - 1, !pf.Hides(h[k - 1]));
    }
  }

  lemma NoMore(a: nat, k: nat)
    ensures Increasing([]) && Between([], a, k)
  {
  }

  lemma OneMore(idx: seq<nat>, a: nat, k: nat, matches: bool)
    requires a <= k && Increasing(idx) && Between(idx, a, k)
    ensures Increasing(idx + if matches then [k] else [])
            && Between(idx + if matches then [k] else [], a, k + 1)
  {
  }

  lemma {:induction false} NothingMatches(h: seq<CanMessage>, a: nat, k: nat, pf: DataFilter)
    requires k <= |h| && forall i :: a <= i < k ==> pf.Hides(h[i])
    ensures MatchesIn(h, a, k, pf) == []
  {
    hide DataFilter.Hides;
    if k > a { NothingMatches(h, a, k - 1, pf); }
  }

  lemma {:induction false} MatchesSplit(h: seq<CanMessage>, a: nat, b: nat, k: nat, pf: DataFilter)
    requires a <= b <= k <= |h|
    ensures MatchesIn(h, a, k, pf) == MatchesIn(h, a, b, pf) + MatchesIn(h, b, k, pf)
    decreases k
  {
    hide DataFilter.Hides;
    if b < k { MatchesSplit(h, a, b, k - 1, pf); }
  }

  // ---- What a run of polls makes of a pin -----------------------------------------------

  /** The pin `q` is what pushing the messages at `idx` makes of `p`, if the first was pushed
      when the clock showed `now`: it shows the last of them, and counts from the message shown
      before that, or from `now` if there was none. */
  ghost predicate Tells(h: seq<CanMessage>, p: Pin, q: Pin, idx: seq<nat>, now: int) {
    var n := |idx|;
    && Between(idx, 0, |h|)
    && q.filter == p.filter
    && (n == 0 ==> q == p)
    && (n > 0 ==> q.msg == Some(h[idx[n - 1]]))
    && (n == 1 ==> q.time == if p.msg.Some? then p.msg.value.timestamp else now)
    && (n > 1 ==> q.time == h[idx[n - 2]].timestamp)
  }

  lemma {:induction false} PinAfterTells(h: seq<CanMessage>, p: Pin, a: nat, k: nat, now: int)
    requires k <= |h|
    ensures Tells(h, p, PinAfter(p, h, a, k, now), MatchesIn(h, a, k, p.filter), now)
  {
    hide DataFilter.Hides, Tells, PushPin;
    if k <= a {
      assert Tells(h, p, p, [], now) by { NothingPushed(h, p, now); }
    } else {
      var q := PinAfter(p, h, a, k - 1, now);
      PinAfterTells(h, p, a, k - 1, now);
      PushTells(h, q, k - 1, now);
      assert q.filter == p.filter by { FilterKept(h, p, q, MatchesIn(h, a, k - 1, p.filter), now); }
      TellsAppend(h, p, q, PushPin(q, h[k - 1], now), MatchesIn(h, a, k - 1, p.filter),
                  if p.filter.Hides(h[k - 1]) then [] else [k - 1], now, now);
    }
  }

  lemma NothingPushed(h: seq<CanMessage>, p: Pin, now: int)
    ensures Tells(h, p, p, [], now)
  {
  }

  lemma FilterKept(h: seq<CanMessage>, p: Pin, q: Pin, idx: seq<nat>, now: int)
    requires Tells(h, p, q, idx, now)
    ensures q.filter == p.filter
  {
  }

  lemma PushTells(h: seq<CanMessage>, p: Pin, i: nat, now: int)
    requires i < |h|
    ensures Tells(h, p, PushPin(p, h[i], now), if p.filter.Hides(h[i]) then [] else [i], now)
  {
    hide DataFilter.Hides;
  }

  lemma TellsAppend(h: seq<CanMessage>, p: Pin, q: Pin, r: Pin, idx: seq<nat>, more: seq<nat>, now: int, later: int)
    requires Tells(h, p, q, idx, now) && Tells(h, q, r, more, later)
    ensures Tells(h, p, r, idx + more, if idx == [] then later else now)
  {
    if more == [] { assert idx + more == idx; }
  }

  /** The clock of the poll that pushed the first match. */
  function FirstPush(h: seq<CanMessage>, v: View, polls: seq<PollIn>, pf: DataFilter): int
    requires Advancing(h, 0, polls)
  {
    if polls == [] then
      0
    else
      var before := polls[..|polls| - 1];
      if Pushed(h, v, before, pf) != [] then FirstPush(h, v, before, pf) else polls[|polls| - 1].now
  }

  /** After any polls a pin shows the last match pushed, and the time of the one pushed
      before it, or of the poll that pushed it when nothing was shown before. */
  lemma {:induction false} PinRunTells(h: seq<CanMessage>, v: View, polls: seq<PollIn>, i: nat)
    requires Indexed(h) && Advancing(h, 0, polls) && i < |v.pins|
    ensures |RunPolls(h, v, polls).pins| == |v.pins|
    ensures var pf := v.pins[i].filter;
            Tells(h, v.pins[i], RunPolls(h, v, polls).pins[i], Pushed(h, v, polls, pf), FirstPush(h, v, polls, pf))
  {
    hide DataFilter.Hides, MatchesIn, PinAfter, Poll, Low, WindowAt, Shown;
    if polls != [] {
      var last := |polls| - 1;
      var before, p := polls[..last], polls[last];
      PinRunTells(h, v, before, i);
      var w := RunPolls(h, v, before);
      var a := Fresh(w.list, Low(p.k));
      var pf := v.pins[i].filter;
      PollIs(h, w, p);
      PinAfterTells(h, w.pins[i], a, p.k, p.now);
      TellsAppend(h, v.pins[i], w.pins[i], PinAfter(w.pins[i], h, a, p.k, p.now),
                  Pushed(h, v, before, pf), MatchesIn(h, a, p.k, pf), FirstPush(h, v, before, pf), p.now);
    }
  }

  // ---- The newest match, despite replays --------------------------------------------------

  /** The pin's message, if any, is a matching message of the first `k` of the history. */
  predicate PinOk(h: seq<CanMessage>, p: Pin, k: nat) {
    p.msg.Some? ==>
      p.msg.value.index < k && k <= |h| && p.msg.value == h[p.msg.value.index]
      && !p.filter.Hides(p.msg.value)
  }

  /** Pinning picks the newest listed match, which is such a message. */
  lemma {:induction false} PickIsNewest(h: seq<CanMessage>, list: seq<CanMessage>, k: nat,
                                        filter: DataFilter, now: int)
    requires k <= |h| && Listed(h, list, k)
    ensures PinOk(h, Pin(filter, now, FirstShown(list, filter)), k)
    ensures forall m :: m in list && !filter.Hides(m) ==>
              FirstShown(list, filter).Some? && m.index <= FirstShown(list, filter).value.index
    ensures FirstShown(list, filter).Some? ==> FirstShown(list, filter).value in list
  {
    hide DataFilter.Hides;
    if list != [] {
      PickIsNewest(h, list[1..], k, filter, now);
      assert forall m :: m in list ==> m == list[0] || m in list[1..];
    }
  }

  /** For a fixed pin filter and any global filters, at the end of each run of polls the
      pinned message is the newest of the initial pick and everything pushed since; in
      particular it never goes back from one poll to a later one. */
  lemma {:induction false} PinnedIsNewest(h: seq<CanMessage>, v: View, k0: nat, polls: seq<PollIn>, i: nat)
    requires Indexed(h) && Advancing(h, 0, polls) && Advancing(h, k0, polls)
    requires i < |v.pins| && PinOk(h, v.pins[i], k0) && k0 <= |h|
    ensures |RunPolls(h, v, polls).pins| == |v.pins|
    ensures var p, q := v.pins[i], RunPolls(h, v, polls).pins[i];
            && q.filter == p.filter && PinOk(h, q, Before(k0, polls, |polls|))
            && (p.msg.Some? ==> q.msg.Some? && p.msg.value.index <= q.msg.value.index)
            && (forall x :: x in Pushed(h, v, polls, p.filter) ==> q.msg.Some? && x <= q.msg.value.index)
            && (q.msg.Some? ==> q.msg == p.msg || q.msg.value.index in Pushed(h, v, polls, p.filter))
  {
    hide DataFilter.Hides, MatchesIn, PinAfter, Poll, Low, WindowAt, Shown, Tells;
    if polls != [] {
      var last := |polls| - 1;
      var before, p := polls[..last], polls[last];
      assert Advancing(h, 0, before) && Advancing(h, k0, before);
      PinnedIsNewest(h, v, k0, before, i);
      var w := RunPolls(h, v, before);
      assert Before(k0, before, last) <= p.k;
      PollIs(h, w, p);
      var a := Fresh(w.list, Low(p.k));
      PollKeepsNewest(h, w.pins[i], Before(k0, before, last), a, p.k, p.now);
      var pf := v.pins[i].filter;
      assert Pushed(h, v, polls, pf) == Pushed(h, v, before, pf) + MatchesIn(h, a, p.k, pf);
      var q := RunPolls(h, v, polls).pins[i];
      forall x | x in Pushed(h, v, polls, pf) ensures q.msg.Some? && x <= q.msg.value.index {
        assert x in Pushed(h, v, before, pf) || x in MatchesIn(h, a, p.k, pf);
      }
    }
  }

  /** One poll: the pin moves to the newest match pushed, which is not older than it was. */
  lemma PollKeepsNewest(h: seq<CanMessage>, p: Pin, k0: nat, a: nat, k: nat, now: int)
    requires k0 <= k <= |h| && Indexed(h) && PinOk(h, p, k0)
    ensures var q, m := PinAfter(p, h, a, k, now), MatchesIn(h, a, k, p.filter);
            && q.filter == p.filter && PinOk(h, q, k)
            && (p.msg.Some? ==> q.msg.Some? && p.msg.value.index <= q.msg.value.index)
            && (forall x :: x in m ==> q.msg.Some? && x <= q.msg.value.index)
            && (q.msg.Some? ==> q.msg == p.msg || q.msg.value.index in m)
  {
    hide DataFilter.Hides, MatchesIn, PinAfter;
    PinAfterTells(h, p, a, k, now);
    MatchesAre(h, a, k, p.filter);
    var m := MatchesIn(h, a, k, p.filter);
    if m != [] {
      assert m[|m| - 1] in m;
      if p.msg.Some? && p.msg.value.index >= a {
        assert p.msg.value.index in m;
      }
    }
  }

  // ---- The time delta -----------------------------------------------------------------

  /** The global filter shows everything the pin matches. */
  ghost predicate ShowsAll(f: GlobalFilter, pf: DataFilter) {
    forall m :: !pf.Hides(m) ==> !f.Hides(m)
  }

  /** No match still in reach of a later window is newer than the newest listed message. */
  predicate CaughtUp(h: seq<CanMessage>, list: seq<CanMessage>, k: nat, pf: DataFilter)
    requires k <= |h|
  {
    && (list != [] ==> list[0].index < k)
    && (forall i :: Low(k) <= i < k && !pf.Hides(h[i]) ==> list != [] && i <= list[0].index)
  }

  /** When everything matched is shown, a poll pushes no match seen before, and all new ones
      in its window. */
  lemma PollPushesNew(h: seq<CanMessage>, v: View, k0: nat, p: PollIn, pf: DataFilter)
    requires Indexed(h) && k0 <= p.k <= |h| && CaughtUp(h, v.list, k0, pf) && ShowsAll(p.filter, pf)
    ensures CaughtUp(h, PollAt(h, v, p).list, p.k, pf)
    ensures MatchesIn(h, Fresh(v.list, Low(p.k)), p.k, pf)
            == MatchesIn(h, if Low(p.k) < k0 then k0 else Low(p.k), p.k, pf)
  {
    hide DataFilter.Hides, GlobalFilter.Hides, MatchesIn, Poll, Shown;
    var a, low := Fresh(v.list, Low(p.k)), Low(p.k);
    PollIs(h, v, p);
    ShownIndices(h, a, p.k, p.filter);
    var list := PollAt(h, v, p).list;
    forall i | low <= i < p.k && !pf.Hides(h[i]) ensures list != [] && i <= list[0].index {
      assert !p.filter.Hides(h[i]);
      if i >= a { ShownReaches(h, a, p.k, p.filter, i); }
    }
    if low < k0 {
      MatchesSplit(h, a, k0, p.k, pf);
      NothingMatches(h, a, k0, pf);
    }
  }

  lemma {:induction false} ShownReaches(h: seq<CanMessage>, a: nat, k: nat, f: GlobalFilter, i: nat)
    requires a <= i < k <= |h| && Indexed(h) && !f.Hides(h[i])
    ensures Shown(h, a, k, f) != [] && i <= Shown(h, a, k, f)[0].index
  {
    hide GlobalFilter.Hides;
    if i < k - 1 { ShownReaches(h, a, k - 1, f, i); }
  }

  /** What the last of a run of polls pushes, when everything matched is shown. */
  lemma {:induction false} LastPush(h: seq<CanMessage>, v: View, k0: nat, polls: seq<PollIn>,
                                    f: GlobalFilter, pf: DataFilter)
    requires Indexed(h) && Advancing(h, 0, polls) && Advancing(h, k0, polls) && polls != []
    requires Constant(polls, f) && ShowsAll(f, pf)
    requires var last := |polls| - 1;
             Before(k0, polls, last) <= |h|
             && CaughtUp(h, RunPolls(h, v, polls[..last]).list, Before(k0, polls, last), pf)
    ensures var last := |polls| - 1;
            var k, p := Before(k0, polls, last), polls[last];
            && k <= p.k && CaughtUp(h, RunPolls(h, v, polls).list, p.k, pf)
            && Pushed(h, v, polls, pf) == Pushed(h, v, polls[..last], pf)
                                          + MatchesIn(h, if Low(p.k) < k then k else Low(p.k), p.k, pf)
  {
    hide DataFilter.Hides, GlobalFilter.Hides, MatchesIn, Poll, CaughtUp, WindowAt, Fresh, ShowsAll;
    var last := |polls| - 1;
    PollPushesNew(h, RunPolls(h, v, polls[..last]), Before(k0, polls, last), polls[last], pf);
  }

  /** When everything matched is shown, no message is pushed twice. */
  lemma {:induction false} NoReplays(h: seq<CanMessage>, v: View, k0: nat, polls: seq<PollIn>,
                                     f: GlobalFilter, pf: DataFilter)
    requires Indexed(h) && Advancing(h, 0, polls) && Advancing(h, k0, polls) && k0 <= |h|
    requires CaughtUp(h, v.list, k0, pf) && Constant(polls, f) && ShowsAll(f, pf)
    ensures k0 <= Before(k0, polls, |polls|) <= |h|
    ensures CaughtUp(h, RunPolls(h, v, polls).list, Before(k0, polls, |polls|), pf)
    ensures Increasing(Pushed(h, v, polls, pf))
            && Between(Pushed(h, v, polls, pf), k0, Before(k0, polls, |polls|))
  {
    hide DataFilter.Hides, GlobalFilter.Hides, MatchesIn, Poll, CaughtUp, WindowAt, ShowsAll;
    if polls != [] {
      hide Increasing, Between, RunPolls, Pushed;
      var last := |polls| - 1;
      var before, p := polls[..last], polls[last];
      assert Advancing(h, 0, before) && Advancing(h, k0, before) && Constant(before, f);
      NoReplays(h, v, k0, before, f, pf);
      assert Before(k0, before, last) == Before(k0, polls, last);
      LastPush(h, v, k0, polls, f, pf);
      var k := Before(k0, polls, last);
      var b := if Low(p.k) < k then k else Low(p.k);
      MatchesAre(h, b, p.k, pf);
      LaterMatches(Pushed(h, v, before, pf), MatchesIn(h, b, p.k, pf), k0, k, b, p.k);
    }
  }

  /** What holds of a run of polls holds of the run without its last. */
  lemma AllButLast(h: seq<CanMessage>, k0: nat, polls: seq<PollIn>, f: GlobalFilter)
    requires polls != [] && Advancing(h, 0, polls) && Advancing(h, k0, polls) && k0 <= |h| && Constant(polls, f)
    ensures var last := |polls| - 1;
            var before, k := polls[..last], polls[last].k;
            && Advancing(h, 0, before) && Advancing(h, k0, before) && Constant(before, f)
            && Before(k0, before, last) == Before(k0, polls, last) <= k <= |h|
            && Before(k0, polls, |polls|) == k
  {
    hide GlobalFilter.Hides;
    var last := |polls| - 1;
    var before := polls[..last];
    assert forall j :: 0 <= j < last ==> before[j] == polls[j] && Before(k0, before, j) == Before(k0, polls, j);
  }

  lemma LaterMatches(idx: seq<nat>, more: seq<nat>, k0: nat, k: nat, b: nat, k': nat)
    requires Increasing(idx) && Between(idx, k0, k) && Increasing(more) && Between(more, b, k')
    requires k0 <= k <= b <= k'
    ensures Increasing(idx + more) && Between(idx + more, k0, k')
  {
  }

  /** Pushes never repeat, whatever the history and the polls. */
  ghost predicate NeverReplays(f: GlobalFilter, pf: DataFilter) {
    forall h: seq<CanMessage>, polls: seq<PollIn> ::
      Indexed(h) && Advancing(h, 0, polls) && Constant(polls, f) ==>
        Increasing(Pushed(h, View([], []), polls, pf))
  }

  /** Exactly when no message is ever pushed twice: when the global filter shows everything
      the pin matches. Otherwise two polls of one hidden match push it twice. */
  lemma ReplaysIff(f: GlobalFilter, pf: DataFilter)
    ensures NeverReplays(f, pf) <==> ShowsAll(f, pf)
  {
    hide Pushed, DataFilter.Hides, GlobalFilter.Hides;
    if ShowsAll(f, pf) {
      forall h: seq<CanMessage>, polls: seq<PollIn> |
        Indexed(h) && Advancing(h, 0, polls) && Constant(polls, f)
        ensures Increasing(Pushed(h, View([], []), polls, pf))
      {
        NoReplays(h, View([], []), 0, polls, f, pf);
      }
    } else {
      var m :| !pf.Hides(m) && f.Hides(m);
      var h, polls := ReplayedTwice(f, pf, m);
    }
  }

  /** One hidden match and two polls push it twice. */
  lemma {:induction false} ReplayedTwice(f: GlobalFilter, pf: DataFilter, m: CanMessage)
    returns (h: seq<CanMessage>, polls: seq<PollIn>)
    requires !pf.Hides(m) && f.Hides(m)
    ensures |h| == 1 && |polls| == 2 && Indexed(h) && Advancing(h, 0, polls) && Constant(polls, f)
    ensures Pushed(h, View([], []), polls, pf) == [0, 0]
    ensures !Increasing(Pushed(h, View([], []), polls, pf))
  {
    h := [m.(index := 0)];
    var p := PollIn(1, f, 0);
    polls := [p, p];
    assert !pf.Hides(h[0]) && f.Hides(h[0]);
    TwoPolls(h, View([], []), f, 0, pf);
    var idx := Pushed(h, View([], []), polls, pf);
    assert idx[0] == idx[1];
  }

  /** What two polls of one hidden message do. */
  lemma TwoPolls(h: seq<CanMessage>, v: View, f: GlobalFilter, now: int, pf: DataFilter)
    requires |h| == 1 && Indexed(h) && f.Hides(h[0]) && !pf.Hides(h[0]) && v.list == []
    ensures var p := PollIn(1, f, now);
            && Pushed(h, v, [p, p], pf) == [0, 0]
            && RunPolls(h, v, [p, p]).pins == PinsAfter(PinsAfter(v.pins, h, 0, 1, now), h, 0, 1, now)
  {
    hide DataFilter.Hides, GlobalFilter.Hides, Poll, PollAt, Listed, PinsAfter;
    var p := PollIn(1, f, now);
    assert [p, p][..1] == [p] && [p][..0] == [];
    HiddenPoll(h, f, v, now);
    assert RunPolls(h, v, [p]) == PollAt(h, v, p);
    HiddenPoll(h, f, RunPolls(h, v, [p]), now);
    assert MatchesIn(h, 0, 1, pf) == [0];
    assert Pushed(h, v, [p], pf) == [0];
  }

  lemma HiddenPoll(h: seq<CanMessage>, f: GlobalFilter, v: View, now: int)
    requires |h| == 1 && Indexed(h) && f.Hides(h[0]) && v.list == []
    ensures PollAt(h, v, PollIn(1, f, now)) == View([], PinsAfter(v.pins, h, 0, 1, now))
  {
    hide GlobalFilter.Hides, Poll;
    PollIs(h, v, PollIn(1, f, now));
    assert Shown(h, 0, 1, f) == [];
  }

  // ---- Replays in one run -----------------------------------------------------------------

  /** No match is still ahead of the list that an earlier poll has visited: the j-th poll finds
      all it visits a second time hidden by the pin's filter. */
  predicate NoneWaiting(h: seq<CanMessage>, v: View, polls: seq<PollIn>, j: nat, pf: DataFilter)
    requires Advancing(h, 0, polls) && j < |polls|
  {
    var before := polls[..j];
    assert Advancing(h, 0, before);
    forall i :: Fresh(RunPolls(h, v, before).list, Low(polls[j].k)) <= i < Before(0, polls, j) ==> pf.Hides(h[i])
  }

  /** What the last poll visited and is still ahead of the list was pushed. */
  lemma JustPushed(h: seq<CanMessage>, v: View, polls: seq<PollIn>, pf: DataFilter, i: nat)
    requires Indexed(h) && Advancing(h, 0, polls) && polls != []
    requires var k := polls[|polls| - 1].k;
             Fresh(RunPolls(h, v, polls).list, Low(k)) <= i < k && !pf.Hides(h[i])
    ensures i in Pushed(h, v, polls, pf)
  {
    hide DataFilter.Hides, GlobalFilter.Hides, MatchesIn, Poll, Low, Shown;
    var last := |polls| - 1;
    var w, p := RunPolls(h, v, polls[..last]), polls[last];
    var a := Fresh(w.list, Low(p.k));
    PollIs(h, w, p);
    ShownIndices(h, a, p.k, p.filter);
    assert a <= i;
    MatchesAre(h, a, p.k, pf);
  }

  lemma {:induction false} PushedBelow(h: seq<CanMessage>, v: View, polls: seq<PollIn>, pf: DataFilter)
    requires Indexed(h) && Advancing(h, 0, polls)
    ensures Between(Pushed(h, v, polls, pf), 0, Before(0, polls, |polls|))
  {
    hide DataFilter.Hides, MatchesIn, RunPolls, Low, Fresh;
    if polls != [] {
      var last := |polls| - 1;
      PushedBelow(h, v, polls[..last], pf);
      MatchesAre(h, Fresh(RunPolls(h, v, polls[..last]).list, Low(polls[last].k)), polls[last].k, pf);
    }
  }

  /** In one run, under any filters: exactly when no match is pushed twice. */
  lemma {:induction false} ReplaysInRun(h: seq<CanMessage>, pins: seq<Pin>, polls: seq<PollIn>, pf: DataFilter)
    requires Indexed(h) && Advancing(h, 0, polls)
    ensures Increasing(Pushed(h, View([], pins), polls, pf))
            <==> forall j :: 0 <= j < |polls| ==> NoneWaiting(h, View([], pins), polls, j, pf)
  {
    hide DataFilter.Hides, GlobalFilter.Hides, MatchesIn, RunPolls, Low, Fresh, Increasing, NoneWaiting, Between;
    var v := View([], pins);
    if polls == [] {
      NothingYet(h, v, pf);
    } else {
      var last := |polls| - 1;
      var before := polls[..last];
      ReplaysInRun(h, pins, before, pf);
      forall j | 0 <= j < last ensures NoneWaiting(h, v, before, j, pf) <==> NoneWaiting(h, v, polls, j, pf) {
        WaitingBefore(h, v, polls, j, pf);
      }
      LastReplays(h, pins, polls, pf);
    }
  }

  lemma NothingYet(h: seq<CanMessage>, v: View, pf: DataFilter)
    ensures Increasing(Pushed(h, v, [], pf))
  {
  }

  lemma WaitingBefore(h: seq<CanMessage>, v: View, polls: seq<PollIn>, j: nat, pf: DataFilter)
    requires Advancing(h, 0, polls) && j < |polls| - 1
    ensures var before := polls[..|polls| - 1];
            Advancing(h, 0, before) && (NoneWaiting(h, v, before, j, pf) <==> NoneWaiting(h, v, polls, j, pf))
  {
    hide DataFilter.Hides, RunPolls, Low, Fresh;
    assert polls[..|polls| - 1][..j] == polls[..j];
  }

  lemma LastReplays(h: seq<CanMessage>, pins: seq<Pin>, polls: seq<PollIn>, pf: DataFilter)
    requires Indexed(h) && Advancing(h, 0, polls) && polls != []
    ensures var v, last := View([], pins), |polls| - 1;
            Increasing(Pushed(h, v, polls, pf))
            <==> Increasing(Pushed(h, v, polls[..last], pf)) && NoneWaiting(h, v, polls, last, pf)
  {
    hide DataFilter.Hides, GlobalFilter.Hides, MatchesIn, RunPolls, Pushed;
    var v, last := View([], pins), |polls| - 1;
    var before, p := polls[..last], polls[last];
    var pushed, kb := Pushed(h, v, before, pf), Before(0, polls, last);
    var a := Fresh(RunPolls(h, v, before).list, Low(p.k));
    var more := MatchesIn(h, a, p.k, pf);
    PushedNext(h, v, polls, pf);
    PushedBelow(h, v, before, pf);
    MatchesAre(h, a, p.k, pf);
    assert Before(0, before, last) == kb;
    if NoneWaiting(h, v, polls, last, pf) {
      forall x | x in more ensures kb <= x { assert !pf.Hides(h[x]); }
      Ascending(pushed, more, kb);
    } else {
      var i: nat :| a <= i < kb && !pf.Hides(h[i]);
      assert last > 0 && kb == before[last - 1].k;
      JustPushed(h, v, before, pf, i);
      Repeated(pushed, more, i);
    }
    if Increasing(pushed + more) { PrefixIncreasing(pushed, more); }
  }

  lemma PushedNext(h: seq<CanMessage>, v: View, polls: seq<PollIn>, pf: DataFilter)
    requires Advancing(h, 0, polls) && polls != []
    ensures var last := |polls| - 1;
            Pushed(h, v, polls, pf)
            == Pushed(h, v, polls[..last], pf)
               + MatchesIn(h, Fresh(RunPolls(h, v, polls[..last]).list, Low(polls[last].k)), polls[last].k, pf)
  {
  }

  lemma Ascending(a: seq<nat>, b: seq<nat>, k: nat)
    requires Increasing(b) && Between(a, 0, k) && forall x :: x in b ==> k <= x
    ensures Increasing(a) ==> Increasing(a + b)
  {
    assert forall j :: 0 <= j < |b| ==> b[j] in b;
  }

  lemma Repeated(a: seq<nat>, b: seq<nat>, x: nat)
    requires x in a && x in b
    ensures !Increasing(a + b)
  {
    var i :| 0 <= i < |a| && a[i] == x;
    var j :| 0 <= j < |b| && b[j] == x;
    assert (a + b)[i] == (a + b)[|a| + j];
  }

  lemma PrefixIncreasing(a: seq<nat>, b: seq<nat>)
    requires Increasing(a + b)
    ensures Increasing(a)
  {
    assert forall i :: 0 <= i < |a| ==> (a + b)[i] == a[i];
  }
}
