/** The viewer's list and pins against the whole message history.

    `h` is the history the driver numbered, so `h[i].index == i`. A poll sees the window
    that was published when `k` messages had been processed. */
module ViewerTheorems {
  import opened Filters
  import opened Driver
  import opened Gui

  datatype PollIn = PollIn(k: nat, filter: GlobalFilter, now: int)

  /** The latest-value channel never goes back. */
  predicate Advancing(h: seq<CanMessage>, from: nat, polls: seq<PollIn>) {
    (forall j :: 0 <= j < |polls| ==> from <= polls[j].k <= |h|) &&
    (forall i, j :: 0 <= i < j < |polls| ==> polls[i].k <= polls[j].k)
  }

  function PollAt(h: seq<CanMessage>, v: View, p: PollIn): View
    requires p.k <= |h|
  {
    Poll(v, WindowAt(h, p.k), p.filter, p.now)
  }

  function RunPolls(h: seq<CanMessage>, v: View, polls: seq<PollIn>): View
    requires Advancing(h, 0, polls)
  {
    if polls == [] then v else PollAt(h, RunPolls(h, v, polls[..|polls| - 1]), polls[|polls| - 1])
  }

  // ---- One poll -----------------------------------------------------------------------

  /** The messages of `h[a..k]` the filter shows, newest first. */
  function Shown(h: seq<CanMessage>, a: nat, k: nat, f: GlobalFilter): seq<CanMessage>
    requires k <= |h|
  {
    if k <= a then []
    else (if f.Hides(h[k - 1]) then [] else [h[k - 1]]) + Shown(h, a, k - 1, f)
  }

  function PinAfter(p: Pin, h: seq<CanMessage>, a: nat, k: nat, now: int): Pin
    requires k <= |h|
  {
    if k <= a then p else PushPin(PinAfter(p, h, a, k - 1, now), h[k - 1], now)
  }

  function PinsAfter(pins: seq<Pin>, h: seq<CanMessage>, a: nat, k: nat, now: int): seq<Pin>
    requires k <= |h|
  {
    seq(|pins|, i requires 0 <= i < |pins| => PinAfter(pins[i], h, a, k, now))
  }

  /** The first message of a window starting at `low` that a poll does not skip. */
  function Fresh(list: seq<CanMessage>, low: nat): nat {
    if list == [] || list[0].index < low then low else list[0].index + 1
  }

  predicate NewestFirst(list: seq<CanMessage>) {
    forall i, j :: 0 <= i < j < |list| ==> list[j].index < list[i].index
  }

  predicate ShownFrom(h: seq<CanMessage>, a: nat, k: nat, f: GlobalFilter, list: seq<CanMessage>)
    requires k <= |h|
  {
    forall i :: 0 <= i < |list| ==> a <= list[i].index < k && list[i] == h[list[i].index] && !f.Hides(list[i])
  }

  lemma {:induction false} ShownIndices(h: seq<CanMessage>, a: nat, k: nat, f: GlobalFilter)
    requires k <= |h| && Indexed(h)
    ensures ShownFrom(h, a, k, f, Shown(h, a, k, f)) && NewestFirst(Shown(h, a, k, f))
  {
    hide GlobalFilter.Hides;
    if k > a { ShownIndices(h, a, k - 1, f); }
  }

  lemma ShownBelow(h: seq<CanMessage>, a: nat, k: nat, f: GlobalFilter)
    requires k <= |h| && Indexed(h)
    ensures Shown(h, a, k, f) != [] ==> Shown(h, a, k, f)[0].index < k
  {
    ShownIndices(h, a, k, f);
  }

  lemma ShownNext(h: seq<CanMessage>, a: nat, k: nat, f: GlobalFilter, list: seq<CanMessage>)
    requires k <= |h|
    ensures k <= a ==> Shown(h, a, k, f) + list == list
    ensures a < k ==> Shown(h, a, k, f) + list
                      == if f.Hides(h[k - 1]) then Shown(h, a, k - 1, f) + list
                         else [h[k - 1]] + (Shown(h, a, k - 1, f) + list)
  {
    hide GlobalFilter.Hides;
  }

  lemma PinsNext(pins: seq<Pin>, h: seq<CanMessage>, a: nat, k: nat, now: int)
    requires k <= |h|
    ensures k <= a ==> PinsAfter(pins, h, a, k, now) == pins
    ensures a < k ==> PinsAfter(pins, h, a, k, now)
                      == PushPins(PinsAfter(pins, h, a, k - 1, now), h[k - 1], now)
  {
    hide PushPin;
  }

  lemma VisitNone(h: seq<CanMessage>, v: View, k: nat, f: GlobalFilter, now: int)
    requires k <= |h|
    ensures var a := Fresh(v.list, k);
            View(Shown(h, a, k, f) + v.list, PinsAfter(v.pins, h, a, k, now)) == v
  {
    hide GlobalFilter.Hides, PushPin, Shown, PinsAfter;
    ShownNext(h, Fresh(v.list, k), k, f, v.list);
    PinsNext(v.pins, h, Fresh(v.list, k), k, now);
  }

  /** Visiting one more message of the window. */
  lemma VisitNext(h: seq<CanMessage>, v: View, low: nat, k: nat, f: GlobalFilter, now: int)
    requires low < k <= |h| && Indexed(h)
    ensures var a := Fresh(v.list, low);
            Visit(View(Shown(h, a, k - 1, f) + v.list, PinsAfter(v.pins, h, a, k - 1, now)), h[k - 1], f, now)
            == View(Shown(h, a, k, f) + v.list, PinsAfter(v.pins, h, a, k, now))
  {
    hide GlobalFilter.Hides, PushPin, PushPins, Shown, PinsAfter;
    var a := Fresh(v.list, low);
    ShownNext(h, a, k, f, v.list);
    PinsNext(v.pins, h, a, k, now);
    ShownBelow(h, a, k - 1, f);
    ShownNext(h, a, k - 1, f, v.list);
    PinsNext(v.pins, h, a, k - 1, now);
  }

  /** A poll visits exactly the messages of its window newer than the newest one listed. */
  lemma {:induction false} VisitWindow(h: seq<CanMessage>, v: View, low: nat, k: nat, f: GlobalFilter, now: int)
    requires low <= k <= |h| && Indexed(h)
    ensures var a := Fresh(v.list, low);
            VisitAll(v, h[low..k], f, now)
            == View(Shown(h, a, k, f) + v.list, PinsAfter(v.pins, h, a, k, now))
  {
    hide GlobalFilter.Hides, PushPin, PushPins, Shown, PinsAfter, Visit, Fresh;
    var a := Fresh(v.list, low);
    if low == k {
      VisitNone(h, v, k, f, now);
    } else {
      assert h[low..k] == h[low..k - 1] + [h[k - 1]];
      assert h[low..k][..|h[low..k]| - 1] == h[low..k - 1];
      VisitWindow(h, v, low, k - 1, f, now);
      VisitNext(h, v, low, k, f, now);
    }
  }

  lemma {:induction false} PollIs(h: seq<CanMessage>, v: View, p: PollIn)
    requires p.k <= |h| && Indexed(h)
    ensures var a := Fresh(v.list, Low(p.k));
            PollAt(h, v, p) == View(Newest(Shown(h, a, p.k, p.filter) + v.list),
                                    PinsAfter(v.pins, h, a, p.k, p.now))
  {
    VisitWindow(h, v, Low(p.k), p.k, p.filter, p.now);
  }

  // ---- The list under any filter changes ----------------------------------------------

  /** Newest first, no duplicates, history messages only, at most 4096. */
  predicate Listed(h: seq<CanMessage>, list: seq<CanMessage>, bound: nat) {
    && |list| <= MESSAGES_COUNT
    && (forall i :: 0 <= i < |list| ==> list[i].index < bound && list[i].index < |h| && list[i] == h[list[i].index])
    && NewestFirst(list)
  }

  lemma PollListed(h: seq<CanMessage>, v: View, p: PollIn, bound: nat)
    requires bound <= p.k <= |h| && Indexed(h) && Listed(h, v.list, bound)
    ensures Listed(h, PollAt(h, v, p).list, p.k)
    ensures forall m :: m in PollAt(h, v, p).list && m !in v.list ==>
              Low(p.k) <= m.index < p.k && !p.filter.Hides(m)
  {
    hide GlobalFilter.Hides, Poll, Shown, NewestFirst, ShownFrom, Listed, PinsAfter, Low;
    var a := Fresh(v.list, Low(p.k));
    var added := Shown(h, a, p.k, p.filter);
    PollIs(h, v, p);
    ShownIndices(h, a, p.k, p.filter);
    AboveListed(h, v.list, Low(p.k), bound);
    InFront(h, added, v.list, a, p.k, p.filter, bound);
    AddedFrom(h, added, v.list, a, p.k, p.filter);
  }

  lemma AboveListed(h: seq<CanMessage>, list: seq<CanMessage>, low: nat, bound: nat)
    requires Listed(h, list, bound)
    ensures low <= Fresh(list, low) && forall i :: 0 <= i < |list| ==> list[i].index < Fresh(list, low)
  {
  }

  lemma InFront(h: seq<CanMessage>, added: seq<CanMessage>, list: seq<CanMessage>, a: nat, k: nat,
                f: GlobalFilter, bound: nat)
    requires bound <= k <= |h| && Listed(h, list, bound) && ShownFrom(h, a, k, f, added) && NewestFirst(added)
    requires forall i :: 0 <= i < |list| ==> list[i].index < a
    ensures Listed(h, Newest(added + list), k)
  {
    hide GlobalFilter.Hides;
  }

  lemma AddedFrom(h: seq<CanMessage>, added: seq<CanMessage>, list: seq<CanMessage>, a: nat, k: nat, f: GlobalFilter)
    requires k <= |h| && ShownFrom(h, a, k, f, added)
    ensures forall m :: m in Newest(added + list) && m !in list ==> a <= m.index < k && !f.Hides(m)
  {
    hide GlobalFilter.Hides;
  }

  /** After any polls under any filters the list is strictly newest first, without
      duplicates, at most 4096 long, and each message of it was added by a poll whose
      window held it and whose filter showed it. */
  lemma {:induction false} ListAlwaysOrdered(h: seq<CanMessage>, pins: seq<Pin>, polls: seq<PollIn>)
    requires Indexed(h) && Advancing(h, 0, polls)
    ensures Listed(h, RunPolls(h, View([], pins), polls).list, if polls == [] then 0 else polls[|polls| - 1].k)
    ensures |RunPolls(h, View([], pins), polls).list| <= 4096
    ensures forall m :: m in RunPolls(h, View([], pins), polls).list ==>
              exists j :: 0 <= j < |polls| && Low(polls[j].k) <= m.index < polls[j].k
                          && !polls[j].filter.Hides(m)
  {
    hide GlobalFilter.Hides, Poll, Low;
    if polls != [] {
      var last := |polls| - 1;
      var before := polls[..last];
      ListAlwaysOrdered(h, pins, before);
      var v := RunPolls(h, View([], pins), before);
      PollListed(h, v, polls[last], if before == [] then 0 else before[last - 1].k);
      forall m | m in PollAt(h, v, polls[last]).list
        ensures exists j :: 0 <= j < |polls| && Low(polls[j].k) <= m.index < polls[j].k
                            && !polls[j].filter.Hides(m)
      {
        if m in v.list {
          var j :| 0 <= j < |before| && Low(before[j].k) <= m.index < before[j].k && !before[j].filter.Hides(m);
          assert polls[j] == before[j];
        }
      }
    }
  }

  // ---- The list under a constant filter -----------------------------------------------

  predicate Covered(polls: seq<PollIn>, i: nat) {
    exists j :: 0 <= j < |polls| && Low(polls[j].k) <= i < polls[j].k
  }

  /** The batch filter: of the first `n` messages, those shown and in some poll's window,
      newest first. */
  function Seen(h: seq<CanMessage>, polls: seq<PollIn>, n: nat, f: GlobalFilter): seq<CanMessage>
    requires n <= |h|
  {
    if n == 0 then []
    else (if Covered(polls, n - 1) && !f.Hides(h[n - 1]) then [h[n - 1]] else []) + Seen(h, polls, n - 1, f)
  }

  ghost predicate Constant(polls: seq<PollIn>, f: GlobalFilter) {
    forall j :: 0 <= j < |polls| ==> polls[j].filter == f
  }

  lemma SeenNext(h: seq<CanMessage>, polls: seq<PollIn>, n: nat, f: GlobalFilter)
    requires 0 < n <= |h|
    ensures Seen(h, polls, n, f)
            == if Covered(polls, n - 1) && !f.Hides(h[n - 1]) then [h[n - 1]] + Seen(h, polls, n - 1, f)
               else Seen(h, polls, n - 1, f)
  {
    hide GlobalFilter.Hides, Covered;
  }

  /** Whatever is seen was in a window. */
  lemma {:induction false} SeenCovered(h: seq<CanMessage>, polls: seq<PollIn>, n: nat, f: GlobalFilter)
    requires n <= |h| && Indexed(h)
    ensures Seen(h, polls, n, f) != [] ==> Covered(polls, Seen(h, polls, n, f)[0].index)
  {
    hide GlobalFilter.Hides, Covered;
    if n > 0 { SeenCovered(h, polls, n - 1, f); }
  }

  /** The newest message seen is the newest that is shown and was in a window. */
  lemma {:induction false} SeenReaches(h: seq<CanMessage>, polls: seq<PollIn>, n: nat, f: GlobalFilter, i: nat)
    requires i < n <= |h| && Indexed(h) && Covered(polls, i) && !f.Hides(h[i])
    ensures Seen(h, polls, n, f) != [] && i <= Seen(h, polls, n, f)[0].index
  {
    hide GlobalFilter.Hides, Covered;
    if i < n - 1 { SeenReaches(h, polls, n - 1, f, i); }
  }

  /** Nothing shown is covered from `a` on: the rest contributes nothing. */
  lemma {:induction false} SeenBelow(h: seq<CanMessage>, polls: seq<PollIn>, a: nat, n: nat, f: GlobalFilter)
    requires a <= n <= |h|
    requires forall i: nat :: a <= i < n && Covered(polls, i) ==> f.Hides(h[i])
    ensures Seen(h, polls, n, f) == Seen(h, polls, a, f)
    decreases n
  {
    hide GlobalFilter.Hides, Covered;
    if a < n { SeenBelow(h, polls, a, n - 1, f); }
  }

  lemma {:induction false} SeenSame(h: seq<CanMessage>, polls: seq<PollIn>, polls': seq<PollIn>,
                                    n: nat, f: GlobalFilter)
    requires n <= |h|
    requires forall i: nat :: i < n && !f.Hides(h[i]) ==> (Covered(polls, i) <==> Covered(polls', i))
    ensures Seen(h, polls, n, f) == Seen(h, polls', n, f)
  {
    hide GlobalFilter.Hides, Covered;
    if n > 0 { SeenSame(h, polls, polls', n - 1, f); }
  }

  lemma {:induction false} SeenSplit(h: seq<CanMessage>, polls: seq<PollIn>, a: nat, k: nat, f: GlobalFilter)
    requires a <= k <= |h| && forall i: nat :: a <= i < k ==> Covered(polls, i)
    ensures Seen(h, polls, k, f) == Shown(h, a, k, f) + Seen(h, polls, a, f)
    decreases k
  {
    hide GlobalFilter.Hides, Covered, Seen, Shown;
    ShownNext(h, a, k, f, Seen(h, polls, a, f));
    if a < k {
      SeenSplit(h, polls, a, k - 1, f);
      SeenNext(h, polls, k, f);
    }
  }

  lemma CoveredSnoc(polls: seq<PollIn>, p: PollIn, i: nat)
    ensures Covered(polls + [p], i) <==> Covered(polls, i) || Low(p.k) <= i < p.k
  {
    var all := polls + [p];
    if Covered(polls, i) {
      var j :| 0 <= j < |polls| && Low(polls[j].k) <= i < polls[j].k;
      assert all[j] == polls[j];
    }
    if Low(p.k) <= i < p.k { assert all[|polls|] == p; }
  }

  /** What one more poll adds to the batch filter. */
  lemma SeenSnoc(h: seq<CanMessage>, polls: seq<PollIn>, p: PollIn, f: GlobalFilter, a: nat)
    requires Indexed(h) && Advancing(h, 0, polls + [p]) && p.k <= |h|
    requires a == Fresh(Seen(h, polls, |h|, f), Low(p.k))
    ensures a <= p.k
    ensures Seen(h, polls + [p], |h|, f) == Shown(h, a, p.k, f) + Seen(h, polls, |h|, f)
  {
    hide GlobalFilter.Hides, Covered, Seen, Shown, Low;
    var all, seen := polls + [p], Seen(h, polls, |h|, f);
    LastWindow(polls, p);
    SeenCovered(h, polls, |h|, f);
    forall i: nat | i < |h| && Covered(polls, i) && !f.Hides(h[i]) ensures seen != [] && i <= seen[0].index {
      SeenReaches(h, polls, |h|, f, i);
    }
    forall i: nat ensures Covered(all, i) <==> Covered(polls, i) || Low(p.k) <= i < p.k {
      CoveredSnoc(polls, p, i);
    }
    assert seen != [] ==> Covered(polls, seen[0].index);
    SeenBelow(h, all, p.k, |h|, f);
    SeenSplit(h, all, a, p.k, f);
    SeenSame(h, all, polls, a, f);
    SeenBelow(h, polls, a, |h|, f);
  }

  /** Earlier windows lie below the new one's end, and cover what precedes their messages
      down to the new one's start. */
  lemma LastWindow(polls: seq<PollIn>, p: PollIn)
    requires forall i, j :: 0 <= i < j < |polls + [p]| ==> (polls + [p])[i].k <= (polls + [p])[j].k
    ensures forall i: nat :: Covered(polls, i) ==> i < p.k
    ensures forall i: nat, c: nat :: Covered(polls, c) && Low(p.k) <= i <= c ==> Covered(polls, i)
  {
    forall i: nat, c: nat | Covered(polls, c)
      ensures c < p.k && (Low(p.k) <= i <= c ==> Covered(polls, i))
    {
      var j :| 0 <= j < |polls| && Low(polls[j].k) <= c < polls[j].k;
      assert (polls + [p])[j].k <= (polls + [p])[|polls|].k;
      if Low(p.k) <= i <= c { assert Low(polls[j].k) <= i < polls[j].k; }
    }
  }

  lemma NewestOfNewest(a: seq<CanMessage>, b: seq<CanMessage>)
    ensures Newest(a + Newest(b)) == Newest(a + b)
  {
  }

  /** Under a constant filter the list is the newest 4096 of the batch filter's result over
      all that was ever in a polled window. */
  lemma {:induction false} ListIsBatchFilter(h: seq<CanMessage>, pins: seq<Pin>, polls: seq<PollIn>, f: GlobalFilter)
    requires Indexed(h) && Advancing(h, 0, polls) && Constant(polls, f)
    ensures RunPolls(h, View([], pins), polls).list == Newest(Seen(h, polls, |h|, f))
    ensures var seen := Seen(h, polls, |h|, f);
            RunPolls(h, View([], pins), polls).list == if |seen| > 4096 then seen[..4096] else seen
  {
    hide GlobalFilter.Hides, Covered, Seen, Shown, Poll, Low, WindowAt;
    if polls == [] {
      NoneSeen(h, |h|, f);
    } else {
      var last := |polls| - 1;
      var before, p := polls[..last], polls[last];
      assert before + [p] == polls;
      ListIsBatchFilter(h, pins, before, f);
      var seen := Seen(h, before, |h|, f);
      var v := RunPolls(h, View([], pins), before);
      PollIs(h, v, p);
      var a := Fresh(seen, Low(p.k));
      assert a == Fresh(v.list, Low(p.k));
      SeenSnoc(h, before, p, f, a);
      NewestOfNewest(Shown(h, a, p.k, f), seen);
    }
  }

  lemma {:induction false} NoneSeen(h: seq<CanMessage>, n: nat, f: GlobalFilter)
    requires n <= |h|
    ensures Seen(h, [], n, f) == []
  {
    if n > 0 { NoneSeen(h, n - 1, f); }
  }

  /** Every advance, the first from 0, is at most 513 messages. */
  predicate NoGap(from: nat, polls: seq<PollIn>) {
    forall j :: 0 <= j < |polls| ==> polls[j].k <= Before(from, polls, j) + 513
  }

  /** How many messages had been processed at the poll before the j-th. */
  function Before(from: nat, polls: seq<PollIn>, j: nat): nat
    requires j <= |polls|
  {
    if j == 0 then from else polls[j - 1].k
  }

  lemma NoGapBefore(from: nat, polls: seq<PollIn>)
    requires NoGap(from, polls) && polls != []
    ensures var last := |polls| - 1;
            NoGap(from, polls[..last]) && Low(polls[last].k) <= Before(from, polls, last)
            && Before(from, polls, last) == Before(from, polls[..last], last)
  {
    var last := |polls| - 1;
    assert forall j :: 0 <= j < last ==>
        polls[..last][j] == polls[j] && Before(from, polls[..last], j) == Before(from, polls, j);
    assert polls[last].k <= Before(from, polls, last) + WINDOW;
  }

  lemma {:induction false} NoGapCovers(from: nat, polls: seq<PollIn>, i: nat)
    requires NoGap(from, polls) && from <= i < Before(from, polls, |polls|)
    ensures Covered(polls, i)
    decreases |polls|
  {
    hide NoGap, Covered, Low;
    var last := |polls| - 1;
    assert polls[..last] + [polls[last]] == polls;
    CoveredSnoc(polls[..last], polls[last], i);
    NoGapBefore(from, polls);
    if i < Low(polls[last].k) { NoGapCovers(from, polls[..last], i); }
  }

  /** Nothing is lost when the driver advances by at most 513 messages between polls: the
      list is the newest 4096 of the whole filtered history. */
  lemma NothingMissed(h: seq<CanMessage>, pins: seq<Pin>, polls: seq<PollIn>, f: GlobalFilter)
    requires Indexed(h) && Advancing(h, 0, polls) && Constant(polls, f) && NoGap(0, polls) && polls != []
    ensures RunPolls(h, View([], pins), polls).list == Newest(Shown(h, 0, polls[|polls| - 1].k, f))
  {
    hide GlobalFilter.Hides, Covered, RunPolls;
    var k := polls[|polls| - 1].k;
    ListIsBatchFilter(h, pins, polls, f);
    forall i: nat ensures Covered(polls, i) <==> i < k {
      if i < k { NoGapCovers(0, polls, i); }
      if Covered(polls, i) { CoveredBelow(polls, i); }
    }
    SeenBelow(h, polls, k, |h|, f);
    SeenSplit(h, polls, 0, k, f);
  }

  lemma CoveredBelow(polls: seq<PollIn>, i: nat)
    requires Covered(polls, i) && forall a, b :: 0 <= a < b < |polls| ==> polls[a].k <= polls[b].k
    ensures i < polls[|polls| - 1].k
  {
  }

  lemma {:induction false} ShownSplit(h: seq<CanMessage>, a: nat, b: nat, k: nat, f: GlobalFilter)
    requires a <= b <= k <= |h|
    ensures Shown(h, a, k, f) == Shown(h, b, k, f) + Shown(h, a, b, f)
    decreases k
  {
    if b < k { ShownSplit(h, a, b, k - 1, f); }
  }

  lemma {:induction false} ShownEmpty(h: seq<CanMessage>, a: nat, k: nat, f: GlobalFilter)
    requires a <= k <= |h|
    ensures Shown(h, a, k, f) == [] <==> forall i :: a <= i < k ==> f.Hides(h[i])
    ensures |Shown(h, a, k, f)| <= k - a
    decreases k
  {
    if a < k { ShownEmpty(h, a, k - 1, f); }
  }

  lemma {:induction false} ShownHead(h: seq<CanMessage>, k: nat, f: GlobalFilter, i: nat)
    requires i < k <= |h| && Indexed(h) && !f.Hides(h[i])
    ensures Shown(h, 0, k, f) != [] && i <= Shown(h, 0, k, f)[0].index
  {
    hide GlobalFilter.Hides;
    if i < k - 1 { ShownHead(h, k - 1, f, i); }
  }

  /** From a list equal to the filtered history of `k0` messages, a poll adds what is shown
      of its window from `k0` on. */
  lemma PollAdds(h: seq<CanMessage>, v: View, k0: nat, p: PollIn)
    requires Indexed(h) && k0 <= p.k <= |h| && v.list == Newest(Shown(h, 0, k0, p.filter))
    ensures var b := if Low(p.k) < k0 then k0 else Low(p.k);
            PollAt(h, v, p).list == Newest(Shown(h, b, p.k, p.filter) + Shown(h, 0, k0, p.filter))
  {
    hide GlobalFilter.Hides, Shown, Poll;
    var f, low, listed := p.filter, Low(p.k), Shown(h, 0, k0, p.filter);
    var a := Fresh(listed, low);
    PollIs(h, v, p);
    assert a == Fresh(v.list, low);
    NewestOfNewest(Shown(h, a, p.k, f), listed);
    ShownIndices(h, 0, k0, f);
    if low < k0 {
      forall i | a <= i < k0 ensures f.Hides(h[i]) {
        if !f.Hides(h[i]) { ShownHead(h, k0, f, i); }
      }
      ShownEmpty(h, a, k0, f);
      ShownSplit(h, a, k0, p.k, f);
      assert Shown(h, k0, p.k, f) + [] == Shown(h, k0, p.k, f);
    }
  }

  lemma GapMatters(added: seq<CanMessage>, gap: seq<CanMessage>, listed: seq<CanMessage>)
    requires |added| < MESSAGES_COUNT && (gap != [] && listed != [] ==> gap[0] != listed[0])
    ensures gap == [] <==> Newest(added + listed) == Newest(added + (gap + listed))
  {
    var n := |added|;
    if gap == [] {
      assert gap + listed == listed;
    } else {
      assert (added + (gap + listed))[n] == Newest(added + (gap + listed))[n] == gap[0];
      if listed != [] {
        assert (added + listed)[n] == Newest(added + listed)[n] == listed[0];
      } else {
        assert |Newest(added + listed)| == n;
      }
    }
  }

  /** Exactly when one poll keeps the list equal to the filtered history: when no shown
      message lies in the gap between the messages polled before and the new window. */
  lemma ExactPoll(h: seq<CanMessage>, v: View, k0: nat, p: PollIn)
    requires Indexed(h) && k0 <= p.k <= |h| && v.list == Newest(Shown(h, 0, k0, p.filter))
    ensures PollAt(h, v, p).list == Newest(Shown(h, 0, p.k, p.filter))
            <==> forall i :: k0 <= i < Low(p.k) ==> p.filter.Hides(h[i])
  {
    hide GlobalFilter.Hides, Shown, Poll;
    var f := p.filter;
    var b := if Low(p.k) < k0 then k0 else Low(p.k);
    var added, gap, listed := Shown(h, b, p.k, f), Shown(h, k0, b, f), Shown(h, 0, k0, f);
    PollAdds(h, v, k0, p);
    ShownSplit(h, 0, k0, p.k, f);
    ShownSplit(h, k0, b, p.k, f);
    assert (added + gap) + listed == added + (gap + listed);
    ShownEmpty(h, k0, b, f);
    ShownEmpty(h, b, p.k, f);
    ShownIndices(h, k0, b, f);
    ShownIndices(h, 0, k0, f);
    GapMatters(added, gap, listed);
  }

  // ---- Exactly when a run shows the filtered history --------------------------------------

  function Take(list: seq<CanMessage>, n: nat): seq<CanMessage> { if |list| > n then list[..n] else list }

  lemma TakeNext(m: CanMessage, list: seq<CanMessage>, n: nat)
    ensures n > 0 ==> Take([m] + list, n) == [m] + Take(list, n - 1)
  {
  }

  lemma TakeNone(list: seq<CanMessage>)
    ensures Take(list, 0) == [] && forall n :: Take([], n) == []
  {
  }

  /** If the newest `n` shown messages were all in windows, they are the newest `n` seen. */
  lemma {:induction false} SeenFirst(h: seq<CanMessage>, polls: seq<PollIn>, k: nat, f: GlobalFilter, n: nat)
    requires k <= |h| && Indexed(h)
    requires forall m :: m in Take(Shown(h, 0, k, f), n) ==> Covered(polls, m.index)
    ensures Take(Seen(h, polls, k, f), n) == Take(Shown(h, 0, k, f), n)
    decreases k
  {
    hide GlobalFilter.Hides, Covered, Take;
    TakeNone(Seen(h, polls, k, f));
    TakeNone(Shown(h, 0, k, f));
    if k > 0 && n > 0 {
      SeenNext(h, polls, k, f);
      if f.Hides(h[k - 1]) {
        assert Shown(h, 0, k, f) == Shown(h, 0, k - 1, f);
        SeenFirst(h, polls, k - 1, f, n);
      } else {
        TakeNext(h[k - 1], Shown(h, 0, k - 1, f), n);
        assert h[k - 1] in Take(Shown(h, 0, k, f), n);
        SeenFirst(h, polls, k - 1, f, n - 1);
        TakeNext(h[k - 1], Seen(h, polls, k - 1, f), n);
      }
    }
  }

  lemma {:induction false} AllSeenCovered(h: seq<CanMessage>, polls: seq<PollIn>, n: nat, f: GlobalFilter)
    requires n <= |h| && Indexed(h)
    ensures forall m :: m in Seen(h, polls, n, f) ==> Covered(polls, m.index)
  {
    hide GlobalFilter.Hides, Covered;
    if n > 0 { AllSeenCovered(h, polls, n - 1, f); }
  }

  /** After any polls under a constant filter the list is the newest 4096 of the filtered
      history if and only if each of those 4096 was in some polled window. */
  lemma {:induction false} ExactRun(h: seq<CanMessage>, pins: seq<Pin>, polls: seq<PollIn>, f: GlobalFilter)
    requires Indexed(h) && Advancing(h, 0, polls) && Constant(polls, f) && polls != []
    ensures var newest := Newest(Shown(h, 0, polls[|polls| - 1].k, f));
            RunPolls(h, View([], pins), polls).list == newest <==> forall m :: m in newest ==> Covered(polls, m.index)
  {
    hide GlobalFilter.Hides, Covered, RunPolls, Seen, Shown;
    var k := polls[|polls| - 1].k;
    ListIsBatchFilter(h, pins, polls, f);
    forall i: nat | Covered(polls, i) ensures i < k { CoveredBelow(polls, i); }
    SeenBelow(h, polls, k, |h|, f);
    AllSeenCovered(h, polls, k, f);
    if forall m :: m in Newest(Shown(h, 0, k, f)) ==> Covered(polls, m.index) {
      SeenFirst(h, polls, k, f, MESSAGES_COUNT);
    }
  }

  /** So many messages like `m`, numbered from 0. */
  function Numbered(m: CanMessage, n: nat): (h: seq<CanMessage>)
    ensures |h| == n && Indexed(h)
  {
    seq(n, i requires 0 <= i < n => m.(index := i))
  }

  /** A run that misses a message: 514 messages arrive before the first poll, and the first of
      them, which the filter shows, is no longer in the window. */
  lemma {:induction false} MissedMessage(m: CanMessage, pins: seq<Pin>, f: GlobalFilter, now: int)
    requires !f.Hides(m.(index := 0))
    ensures var h, polls := Numbered(m, 514), [PollIn(514, f, now)];
            RunPolls(h, View([], pins), polls).list != Newest(Shown(h, 0, 514, f))
  {
    hide GlobalFilter.Hides, RunPolls, Shown;
    var k := WINDOW + 1;
    var h, polls := Numbered(m, k), [PollIn(k, f, now)];
    ShownHas(h, k, f, 0);
    ShownEmpty(h, 0, k, f);
    ExactRun(h, pins, polls, f);
    assert !Covered(polls, h[0].index);
  }

  lemma {:induction false} ShownHas(h: seq<CanMessage>, k: nat, f: GlobalFilter, i: nat)
    requires i < k <= |h| && !f.Hides(h[i])
    ensures h[i] in Shown(h, 0, k, f)
  {
    hide GlobalFilter.Hides;
    if i < k - 1 { ShownHas(h, k - 1, f, i); }
  }

  /** A message that was missed leaves no trace once 4096 shown messages have followed. */
  lemma {:induction false} LaterExact(h: seq<CanMessage>, pins: seq<Pin>, polls: seq<PollIn>, f: GlobalFilter, a: nat)
    requires Indexed(h) && Advancing(h, 0, polls) && Constant(polls, f) && polls != []
    requires var k := polls[|polls| - 1].k; a <= k && |Shown(h, a, k, f)| >= 4096
    requires forall i :: a <= i < polls[|polls| - 1].k ==> Covered(polls, i)
    ensures RunPolls(h, View([], pins), polls).list == Newest(Shown(h, 0, polls[|polls| - 1].k, f))
  {
    hide GlobalFilter.Hides, Covered, RunPolls, Shown;
    var k := polls[|polls| - 1].k;
    ShownSplit(h, 0, a, k, f);
    ShownIndices(h, a, k, f);
    var later := Shown(h, a, k, f);
    assert Newest(later + Shown(h, 0, a, f)) == later[..MESSAGES_COUNT];
    ExactRun(h, pins, polls, f);
  }
}
