/**
  "Sliding-window quota counters", says the first line of src/quota/limiter.py: no interval as long
  as a window should hold more allowed calls than the window's limit.  The windows restart instead
  of sliding.  This module says exactly for which limits the promise holds all the same, and shows
  runs of calls that break it for all others.
*/
module QuotaSliding {
  import opened Prelude
  import opened Quota
  import opened QuotaWindows

  const HOUR := 3600
  const DAY := 24 * 3600
  const WEEK := 7 * 24 * 3600

  /** The promise for one interval: when it holds any allowed call, it holds at most the limit. */
  predicate Within(ts: seq<int>, t: int, span: int, limit: int) {
    CountIn(ts, t, span) == 0 || CountIn(ts, t, span) <= limit
  }

  // ---- lives of a list of calls, block by block ----------------------------------------------

  /** The list keeps its lives to the limit, and ends in this life. */
  ghost predicate Stage(ts: seq<int>, limit: int, span: int, life: Life) {
    Admissible(ts, limit, span) && LifeOf(ts, span) == life
  }

  lemma {:induction false} Join(ts: seq<int>, us: seq<int>, limit: int, span: int, life: Life)
    requires Stage(ts, limit, span, life) && life.Life? && life.count + |us| <= limit
    requires forall k :: 0 <= k < |us| ==> us[k] < life.start + span
    ensures Stage(ts + us, limit, span, Life(life.start, life.count + |us|))
    decreases |us|
  {
    if us == [] {
      assert ts + us == ts;
    } else {
      var init := us[..|us| - 1];
      Join(ts, init, limit, span, life);
      assert (ts + us)[..|ts + us| - 1] == ts + init;
    }
  }

  /** A block of calls that starts a new life and stays in it. */
  lemma Fresh(ts: seq<int>, us: seq<int>, limit: int, span: int, life: Life)
    requires Stage(ts, limit, span, life) && us != [] && |us| <= limit
    requires life.Life? ==> life.start + span <= us[0]
    requires forall k :: 0 <= k < |us| ==> us[k] < us[0] + span
    ensures Stage(ts + us, limit, span, Life(us[0], |us|))
  {
    assert (ts + [us[0]])[..|ts|] == ts;
    assert Stage(ts + [us[0]], limit, span, Life(us[0], 1));
    Join(ts + [us[0]], us[1..], limit, span, Life(us[0], 1));
    assert ts + [us[0]] + us[1..] == ts + us;
  }

  /** All calls of the block fall within a span of its first. */
  predicate Short(us: seq<int>, span: int) {
    us != [] && forall k :: 0 <= k < |us| ==> us[k] < us[0] + span
  }

  /** Two blocks in one life, and a third in the next. */
  lemma TwoLives(a: seq<int>, b: seq<int>, c: seq<int>, limit: int, span: int)
    requires Short(a, span) && Short(c, span) && (forall k :: 0 <= k < |b| ==> b[k] < a[0] + span)
    requires a[0] + span <= c[0] && |a| + |b| <= limit && |c| <= limit
    ensures Admissible(a + b + c, limit, span)
  {
    assert [] + a == a;
    Fresh([], a, limit, span, Unborn);
    Join(a, b, limit, span, Life(a[0], |a|));
    Fresh(a + b, c, limit, span, Life(a[0], |a| + |b|));
  }

  /** Three blocks, each in its own life. */
  lemma ThreeLives(a: seq<int>, b: seq<int>, c: seq<int>, limit: int, span: int)
    requires Short(a, span) && Short(b, span) && Short(c, span)
    requires a[0] + span <= b[0] && b[0] + span <= c[0] && |a| <= limit && |b| <= limit && |c| <= limit
    ensures Admissible(a + b + c, limit, span)
  {
    assert [] + a == a;
    Fresh([], a, limit, span, Unborn);
    Fresh(a, b, limit, span, Life(a[0], |a|));
    Fresh(a + b, c, limit, span, Life(b[0], |b|));
  }

  lemma {:induction false} CountAppend(ts: seq<int>, us: seq<int>, t: int, span: int)
    ensures CountIn(ts + us, t, span) == CountIn(ts, t, span) + CountIn(us, t, span)
    decreases |us|
  {
    if us == [] {
      assert ts + us == ts;
    } else {
      CountAppend(ts, us[..|us| - 1], t, span);
      assert (ts + us)[..|ts + us| - 1] == ts + us[..|us| - 1];
    }
  }

  lemma {:induction false} CountAll(us: seq<int>, t: int, span: int)
    requires forall k :: 0 <= k < |us| ==> t <= us[k] < t + span
    ensures CountIn(us, t, span) == |us|
  {
    if us != [] {
      CountAll(us[..|us| - 1], t, span);
    }
  }

  /** The end of a list that lies in the interval is counted in full. */
  lemma CountTail(ts: seq<int>, us: seq<int>, t: int, span: int)
    requires forall k :: 0 <= k < |us| ==> t <= us[k] < t + span
    ensures CountIn(ts + us, t, span) >= |us|
  {
    CountAppend(ts, us, t, span);
    CountAll(us, t, span);
  }

  lemma OrderedAppend(ts: seq<int>, us: seq<int>)
    requires Ordered(ts) && Ordered(us) && (ts != [] && us != [] ==> ts[|ts| - 1] <= us[0])
    ensures Ordered(ts + us)
  {
  }

  /** n calls at one time. */
  function Repeat(t: int, n: nat): (ts: seq<int>)
    ensures |ts| == n && forall k :: 0 <= k < n ==> ts[k] == t
  {
    seq(n, _ => t)
  }

  // ---- calls that keep a distance ------------------------------------------------------------

  predicate Spaced(ts: seq<int>, gap: nat) {
    forall i :: 0 < i < |ts| ==> ts[i - 1] + gap <= ts[i]
  }

  lemma {:induction false} SpacedIsOrdered(ts: seq<int>, gap: nat)
    requires Spaced(ts, gap)
    ensures Ordered(ts)
  {
    if ts != [] {
      var init := ts[..|ts| - 1];
      SpacedIsOrdered(init, gap);
      OrderedAppend(init, [ts[|ts| - 1]]);
      assert init + [ts[|ts| - 1]] == ts;
    }
  }

  lemma FewFit(a: int, n: nat, gap: nat, span: int)
    ensures a * gap < span <= n * gap ==> a < n
  {
    if a >= n {
      assert (a - n) * gap >= 0;
      assert a * gap == (a - n) * gap + n * gap;
    }
  }

  /** No life of calls that keep a distance holds more than fit into it. */
  lemma {:induction false} SpacedLives(ts: seq<int>, gap: nat, span: int, n: nat, limit: int)
    requires Spaced(ts, gap) && 0 < span <= n * gap && 1 <= n <= limit
    ensures Admissible(ts, limit, span)
    ensures ts != [] ==> var life := LifeOf(ts, span);
      life.Life? && life.count >= 1 && (life.count - 1) * gap <= ts[|ts| - 1] - life.start < span
  {
    if ts != [] {
      var init, x := ts[..|ts| - 1], ts[|ts| - 1];
      SpacedLives(init, gap, span, n, limit);
      var life := LifeOf(ts, span);
      if init != [] && x < LifeOf(init, span).start + span {
        var before := LifeOf(init, span);
        assert (before.count - 1) * gap + gap == before.count * gap;
        FewFit(before.count, n, gap, span);
      }
    }
  }

  /** Nor does any interval. */
  lemma {:induction false} SpacedCount(ts: seq<int>, gap: nat, t: int, span: int, n: nat)
    requires Spaced(ts, gap) && 0 < span <= n * gap
    ensures CountIn(ts, t, span) <= n
    ensures CountIn(ts, t, span) > 0 ==>
              (CountIn(ts, t, span) - 1) * gap <= ts[|ts| - 1] - t && (CountIn(ts, t, span) - 1) * gap < span
  {
    if ts != [] {
      var init, x := ts[..|ts| - 1], ts[|ts| - 1];
      SpacedCount(init, gap, t, span, n);
      SpacedIsOrdered(ts, gap);
      var before, now := CountIn(init, t, span), CountIn(ts, t, span);
      if t <= x < t + span && before > 0 {
        assert (before - 1) * gap + gap == before * gap;
      }
      if x < t {
        NoneLater(ts, t, span);
      }
      if now > 0 {
        FewFit(now - 1, n, gap, span);
      }
    }
  }

  /** A limit of one keeps calls a window apart. */
  lemma {:induction false} OneKeepsDistance(ts: seq<int>, span: int)
    requires Admissible(ts, 1, span) && span > 0
    ensures Spaced(ts, span)
    ensures ts != [] ==> LifeOf(ts, span) == Life(ts[|ts| - 1], 1)
  {
    if ts != [] {
      OneKeepsDistance(ts[..|ts| - 1], span);
    }
  }

  // ---- the limits for which the promise holds ------------------------------------------------

  /** Some limit denies everything, or a limit of one spaces the calls so far apart that no window fills up. */
  predicate Slides(l: Limits)
    requires l.Complete()
  {
    || (exists w: Window :: l.requests[w] <= 0 || l.tokens[w] <= 0)
    || l.requests[W7d] == 1
    || (l.requests[W24h] == 1 && l.requests[W7d] >= 7)
    || (l.requests[W4h] == 1 && l.requests[W24h] >= 6 && l.requests[W7d] >= 42)
  }

  function Sibling(key: Key, w: Window): Key
    requires !key.Tok?
  {
    if key.Req? then Req(key.uid, w) else IpReq(key.ip, w)
  }

  lemma SiblingsMentioned(c: Call, l: Limits, key: Key, w: Window)
    requires l.Complete() && !key.Tok? && Mentions(Counted(c, l), key)
    ensures Mentions(Counted(c, l), Sibling(key, w))
  {
    var cs := Counted(c, l);
    UserChecksListed(c.uid, l);
    if c.ip.Some? {
      IpChecksListed(c.ip.value, l);
    }
    var k := (match w case W4h => 0 case W24h => 1 case W7d => 2);
    if key.Req? {
      assert cs[2 * k].key == Req(c.uid, w);
    } else {
      assert cs[6 + k].key == IpReq(c.ip.value, w);
    }
  }

  /** The three windows of a user, or of an address, count the same calls. */
  lemma {:induction false} SiblingTimes(calls: seq<Call>, l: Limits, key: Key, w: Window)
    requires l.Complete() && !key.Tok?
    ensures AllowedTimes(calls, l, key) == AllowedTimes(calls, l, Sibling(key, w))
  {
    if calls != [] {
      SiblingTimes(calls[..|calls| - 1], l, key, w);
      var c := calls[|calls| - 1];
      if Mentions(Counted(c, l), key) {
        SiblingsMentioned(c, l, key, w);
      }
      if Mentions(Counted(c, l), Sibling(key, w)) {
        SiblingsMentioned(c, l, Sibling(key, w), key.w);
      }
    }
  }

  lemma FirstIsDenied(c: Call, l: Limits, w: Window)
    requires l.Complete() && (l.requests[w] <= 0 || l.tokens[w] <= 0) && c.model in OPENAI_MODELS
    ensures !Allows(map[], c, l)
  {
    var cs, none: Cells := Counted(c, l), map[];
    UserChecksListed(c.uid, l);
    var k := (match w case W4h => 0 case W24h => 2 case W7d => 4);
    assert cs[k] == Check(Req(c.uid, w), l.requests[w]) && cs[k + 1] == Check(Tok(c.uid, w), l.tokens[w]);
    assert Value(none, cs[k].key, c.at) == 0 && Value(none, cs[k + 1].key, c.at) == 0;
  }

  lemma OthersChargeNothing(c: Call, l: Limits, key: Key)
    requires l.Complete() && c.model !in OPENAI_MODELS
    ensures AfterCall(map[], c, l) == map[] && !Mentions(Counted(c, l), key)
  {
    var none: Cells := map[];
    assert Counted(c, l) == [] && none - {} == none;
  }

  /** With a limit that is not positive no counted call is ever allowed. */
  lemma {:induction false} NothingAllowed(calls: seq<Call>, l: Limits, key: Key, w: Window)
    requires l.Complete() && (l.requests[w] <= 0 || l.tokens[w] <= 0)
    ensures AfterCalls(calls, l) == map[] && AllowedTimes(calls, l, key) == []
  {
    if calls != [] {
      var c := calls[|calls| - 1];
      NothingAllowed(calls[..|calls| - 1], l, key, w);
      if c.model in OPENAI_MODELS {
        FirstIsDenied(c, l, w);
      } else {
        OthersChargeNothing(c, l, key);
      }
    }
  }

  lemma SpacedTimes(calls: seq<Call>, l: Limits, key: Key, w: Window)
    requires l.Complete() && !key.Tok? && InTime(calls) && l.requests[w] == 1
    ensures Spaced(AllowedTimes(calls, l, key), w.Seconds())
  {
    SiblingTimes(calls, l, key, w);
    CounterRefinesLives(calls, l, Sibling(key, w));
    OneKeepsDistance(AllowedTimes(calls, l, key), w.Seconds());
  }

  lemma PromiseKept(calls: seq<Call>, l: Limits, key: Key, t: int)
    requires l.Complete() && !key.Tok? && InTime(calls) && Slides(l)
    ensures Within(AllowedTimes(calls, l, key), t, key.w.Seconds(), LimitOf(key, l))
  {
    var ts, span := AllowedTimes(calls, l, key), key.w.Seconds();
    if w: Window :| l.requests[w] <= 0 || l.tokens[w] <= 0 {
      NothingAllowed(calls, l, key, w);
    } else if l.requests[W7d] == 1 {
      SpacedTimes(calls, l, key, W7d);
      SpacedCount(ts, WEEK, t, span, 1);
    } else if l.requests[W24h] == 1 && l.requests[W7d] >= 7 {
      SpacedTimes(calls, l, key, W24h);
      SpacedCount(ts, DAY, t, span, if key.w == W7d then 7 else 1);
    } else {
      SpacedTimes(calls, l, key, W4h);
      SpacedCount(ts, 4 * HOUR, t, span, if key.w == W7d then 42 else if key.w == W24h then 6 else 1);
    }
  }

  // ---- runs that are allowed in full ---------------------------------------------------------

  function CallsAt(c: Call, ts: seq<int>): (calls: seq<Call>)
    ensures |calls| == |ts| && forall i :: 0 <= i < |ts| ==> calls[i] == c.(at := ts[i])
  {
    seq(|ts|, i requires 0 <= i < |ts| => c.(at := ts[i]))
  }

  /** Every window's lives stay within its limit. */
  ghost predicate FitsAll(ts: seq<int>, l: Limits)
    requires l.Complete()
  {
    forall w: Window :: Admissible(ts, l.requests[w], w.Seconds())
  }

  predicate Positive(l: Limits)
    requires l.Complete()
  {
    forall w: Window :: l.requests[w] >= 1 && l.tokens[w] >= 1
  }

  lemma TrackedValue(cells: Cells, key: Key, life: Life, x: int, limit: int)
    requires Tracks(cells, key, life) && Joined(life, x, key.w.Seconds()).count <= limit
    ensures Value(cells, key, x) < limit
  {
  }

  lemma NextAllowed(c: Call, ts: seq<int>, x: int, l: Limits)
    requires l.Complete() && Positive(l) && c.model in OPENAI_MODELS && c.tokens == 0
    requires Ordered(ts) && FitsAll(ts + [x], l)
    requires forall key: Key :: !key.Tok? && Mentions(Counted(c, l), key) ==> AllowedTimes(CallsAt(c, ts), l, key) == ts
    ensures Allows(AfterCalls(CallsAt(c, ts), l), c.(at := x), l)
  {
    var calls, d := CallsAt(c, ts), c.(at := x);
    var cells, cs := AfterCalls(calls, l), Counted(d, l);
    assert cs == Counted(c, l);
    assert (ts + [x])[..|ts|] == ts;
    forall k | 0 <= k < |cs|
      ensures Value(cells, cs[k].key, x) < cs[k].limit
    {
      CheckLimit(d, l, k);
      var key := cs[k].key;
      assert Mentions(cs, key);
      if key.Tok? {
        UnchargedTokensStayZero(calls, l, key);
      } else {
        CounterRefinesLives(calls, l, key);
        assert Admissible(ts + [x], l.requests[key.w], key.w.Seconds());
        TrackedValue(cells, key, LifeOf(ts, key.w.Seconds()), x, cs[k].limit);
      }
    }
    AllowsIfBelow(cells, d, l);
  }

  /** Calls of one user whose lives fit every window are all allowed. */
  lemma {:induction false} AllAllowed(c: Call, ts: seq<int>, l: Limits)
    requires l.Complete() && Positive(l) && c.model in OPENAI_MODELS && c.tokens == 0
    requires Ordered(ts) && FitsAll(ts, l)
    ensures InTime(CallsAt(c, ts))
    ensures forall key: Key :: !key.Tok? && Mentions(Counted(c, l), key) ==> AllowedTimes(CallsAt(c, ts), l, key) == ts
  {
    if ts != [] {
      var init, x := ts[..|ts| - 1], ts[|ts| - 1];
      assert init + [x] == ts;
      forall w: Window
        ensures Admissible(init, l.requests[w], w.Seconds())
      {
        assert Admissible(ts, l.requests[w], w.Seconds());
      }
      AllAllowed(c, init, l);
      NextAllowed(c, init, x, l);
      assert CallsAt(c, ts)[..|ts| - 1] == CallsAt(c, init);
      assert Counted(c.(at := x), l) == Counted(c, l);
    }
  }

  // ---- the bound of twice the limit less one -------------------------------------------------

  /** A window's calls: one early, the rest of its limit late, and a full limit as soon as it restarts. */
  function Doubled(limit: nat, span: int): seq<int>
    requires limit >= 1
  {
    [0] + Repeat(span - 1, limit - 1) + Repeat(span, limit)
  }

  lemma DoubledOnItself(limit: nat, span: int)
    requires limit >= 1 && span >= 2
    ensures Admissible(Doubled(limit, span), limit, span)
  {
    TwoLives([0], Repeat(span - 1, limit - 1), Repeat(span, limit), limit, span);
  }

  lemma DoubledIsOrdered(limit: nat, span: int)
    requires limit >= 1 && span >= 2
    ensures Ordered(Doubled(limit, span))
  {
    OrderedAppend([0], Repeat(span - 1, limit - 1));
    OrderedAppend([0] + Repeat(span - 1, limit - 1), Repeat(span, limit));
  }

  lemma DoubledCount(limit: nat, span: int)
    requires limit >= 1 && span >= 2
    ensures CountIn(Doubled(limit, span), 1, span) == 2 * limit - 1
  {
    var late, next := Repeat(span - 1, limit - 1), Repeat(span, limit);
    CountAppend([0], late, 1, span);
    CountAppend([0] + late, next, 1, span);
    CountAll(late, 1, span);
    CountAll(next, 1, span);
    assert [0][..0] == [];
  }

  lemma DoubledOnLonger(limit: nat, span: int, other: int, longer: int)
    requires limit >= 1 && 2 <= span < longer && other >= 2 * limit
    ensures Admissible(Doubled(limit, span), other, longer)
  {
    var late, next := Repeat(span - 1, limit - 1), Repeat(span, limit);
    Fresh([], [0], other, longer, Unborn);
    assert [] + [0] == [0];
    Join([0], late, other, longer, Life(0, 1));
    Join([0] + late, next, other, longer, Life(0, limit));
  }

  lemma DoubledOnShorter(limit: nat, span: int, other: int, shorter: int)
    requires limit >= 1 && 2 <= shorter < span && other >= 2 * limit - 1
    ensures Admissible(Doubled(limit, span), other, shorter)
  {
    var late, next := Repeat(span - 1, limit - 1), Repeat(span, limit);
    Fresh([], [0], other, shorter, Unborn);
    assert [] + [0] == [0];
    if limit == 1 {
      assert [0] + late == [0];
      Fresh([0], next, other, shorter, Life(0, 1));
    } else {
      Fresh([0], late, other, shorter, Life(0, 1));
      Join([0] + late, next, other, shorter, Life(span - 1, limit - 1));
    }
  }

  /** The other windows of the key leave room for that run. */
  predicate RoomAround(l: Limits, w: Window)
    requires l.Complete()
  {
    var n := l.requests[w];
    forall v: Window :: v != w ==> l.requests[v] >= if v.Seconds() > w.Seconds() then 2 * n else 2 * n - 1
  }

  /**
    The bound of twice the limit less one is reached: by calls to the limiter, on every request
    counter of a call whose other windows have room for them.
  */
  lemma IntervalBoundIsTight(c: Call, l: Limits, key: Key)
    requires l.Complete() && Positive(l) && c.model in OPENAI_MODELS && c.tokens == 0
    requires !key.Tok? && Mentions(Counted(c, l), key) && RoomAround(l, key.w)
    ensures exists calls: seq<Call>, t :: InTime(calls)
              && CountIn(AllowedTimes(calls, l, key), t, key.w.Seconds()) == 2 * LimitOf(key, l) - 1
  {
    var n, span := l.requests[key.w], key.w.Seconds();
    var ts := Doubled(n, span);
    DoubledOnItself(n, span);
    DoubledIsOrdered(n, span);
    DoubledCount(n, span);
    forall v: Window
      ensures Admissible(ts, l.requests[v], v.Seconds())
    {
      if v.Seconds() > span {
        DoubledOnLonger(n, span, l.requests[v], v.Seconds());
      } else if v.Seconds() < span {
        DoubledOnShorter(n, span, l.requests[v], v.Seconds());
      }
    }
    AllAllowed(c, ts, l);
    assert AllowedTimes(CallsAt(c, ts), l, key) == ts;
  }

  // ---- runs that break the promise -----------------------------------------------------------

  /** n calls, a gap apart, the last one a gap before the end. */
  function Before(end: int, gap: nat, n: nat): (ts: seq<int>)
    ensures |ts| == n && (n > 0 ==> ts[n - 1] == end - gap)
    decreases n
  {
    if n == 0 then [] else Before(end - gap, gap, n - 1) + [end - gap]
  }

  lemma {:induction false} BeforeIs(end: int, gap: nat, n: nat)
    requires gap > 0
    ensures Spaced(Before(end, gap, n), gap)
    ensures forall k :: 0 <= k < n ==> end - n * gap <= Before(end, gap, n)[k] < end
    ensures n > 0 ==> Before(end, gap, n)[0] == end - n * gap
    decreases n
  {
    if n > 0 {
      BeforeIs(end - gap, gap, n - 1);
      assert (n - 1) * gap + gap == n * gap;
      assert n * gap >= gap by {
        assert (n - 1) * gap >= 0;
      }
    }
  }

  lemma SpacedAppend(ts: seq<int>, us: seq<int>, gap: nat)
    requires Spaced(ts, gap) && Spaced(us, gap) && (ts != [] && us != [] ==> ts[|ts| - 1] + gap <= us[0])
    ensures Spaced(ts + us, gap)
  {
    var all := ts + us;
    forall i | 0 < i < |all|
      ensures all[i - 1] + gap <= all[i]
    {
    }
  }

  /** A run of calls that the limits allow in full and that breaks the promise for one window. */
  ghost predicate Breaks(ts: seq<int>, l: Limits, w: Window)
    requires l.Complete()
  {
    Ordered(ts) && FitsAll(ts, l) && exists t :: CountIn(ts, t, w.Seconds()) >= l.requests[w] + 1
  }

  /** One call, a week's limit less one just before the week is over, and two as it restarts. */
  function WeekRun(gap: nat, m: nat): seq<int>
    requires m >= 2
  {
    [0] + Before(WEEK, gap, m - 1) + [WEEK, WEEK + gap]
  }

  lemma WeekRunIsSpaced(gap: nat, m: nat)
    requires m >= 2 && 0 < gap && (m - 1) * gap + gap < WEEK
    ensures Spaced(WeekRun(gap, m), gap) && Ordered(WeekRun(gap, m))
  {
    var us, vs := Before(WEEK, gap, m - 1), [WEEK, WEEK + gap];
    BeforeIs(WEEK, gap, m - 1);
    SpacedAppend([0], us, gap);
    SpacedAppend([0] + us, vs, gap);
    SpacedIsOrdered(WeekRun(gap, m), gap);
  }

  lemma WeekRunFits(gap: nat, m: nat)
    requires m >= 2 && 0 < gap && (m - 1) * gap + gap < WEEK
    ensures Admissible(WeekRun(gap, m), m, WEEK)
  {
    BeforeIs(WEEK, gap, m - 1);
    assert gap < WEEK by {
      assert (m - 1) * gap >= 0;
    }
    TwoLives([0], Before(WEEK, gap, m - 1), [WEEK, WEEK + gap], m, WEEK);
  }

  lemma WeekRunCount(gap: nat, m: nat)
    requires m >= 2 && 0 < gap && (m - 1) * gap + gap < WEEK
    ensures CountIn(WeekRun(gap, m), WEEK - (m - 1) * gap, WEEK) >= m + 1
  {
    var us, vs := Before(WEEK, gap, m - 1), [WEEK, WEEK + gap];
    var start := WEEK - (m - 1) * gap;
    BeforeIs(WEEK, gap, m - 1);
    assert (m - 1) * gap >= 0;
    var tail := us + vs;
    assert forall k :: 0 <= k < |tail| ==> start <= tail[k] < start + WEEK;
    CountTail([0], tail, start, WEEK);
    assert [0] + tail == WeekRun(gap, m);
  }

  /** Two to six calls a week, a day apart. */
  lemma BreaksByDays(l: Limits)
    requires l.Complete() && Positive(l) && 2 <= l.requests[W7d] <= 6
    ensures exists ts :: Breaks(ts, l, W7d)
  {
    var m := l.requests[W7d];
    var ts := WeekRun(DAY, m);
    WeekRunIsSpaced(DAY, m);
    WeekRunFits(DAY, m);
    WeekRunCount(DAY, m);
    SpacedLives(ts, DAY, DAY, 1, l.requests[W24h]);
    SpacedLives(ts, DAY, 4 * HOUR, 1, l.requests[W4h]);
    forall w: Window
      ensures Admissible(ts, l.requests[w], w.Seconds())
    {
    }
    assert CountIn(ts, WEEK - (m - 1) * DAY, W7d.Seconds()) >= m + 1;
    assert Breaks(ts, l, W7d);
  }

  /** Two to forty-one calls a week, four hours apart, when a day allows six. */
  lemma BreaksByHours(l: Limits)
    requires l.Complete() && Positive(l) && 2 <= l.requests[W7d] <= 41 && l.requests[W24h] >= 6
    ensures exists ts :: Breaks(ts, l, W7d)
  {
    var m := l.requests[W7d];
    var ts := WeekRun(4 * HOUR, m);
    WeekRunIsSpaced(4 * HOUR, m);
    WeekRunFits(4 * HOUR, m);
    WeekRunCount(4 * HOUR, m);
    SpacedLives(ts, 4 * HOUR, DAY, 6, l.requests[W24h]);
    SpacedLives(ts, 4 * HOUR, 4 * HOUR, 1, l.requests[W4h]);
    forall w: Window
      ensures Admissible(ts, l.requests[w], w.Seconds())
    {
    }
    assert CountIn(ts, WEEK - (m - 1) * (4 * HOUR), W7d.Seconds()) >= m + 1;
    assert Breaks(ts, l, W7d);
  }

  /** Two to five calls a day, four hours apart, as the week restarts. */
  function DayRun(m: nat): seq<int>
    requires m >= 2
  {
    [0, WEEK - DAY] + Before(WEEK, 4 * HOUR, m - 1) + [WEEK, WEEK + 4 * HOUR]
  }

  lemma DayRunIsSpaced(m: nat)
    requires 2 <= m <= 5
    ensures Spaced(DayRun(m), 4 * HOUR) && Ordered(DayRun(m))
  {
    var us, vs := Before(WEEK, 4 * HOUR, m - 1), [WEEK, WEEK + 4 * HOUR];
    BeforeIs(WEEK, 4 * HOUR, m - 1);
    SpacedAppend([0, WEEK - DAY], us, 4 * HOUR);
    SpacedAppend([0, WEEK - DAY] + us, vs, 4 * HOUR);
    SpacedIsOrdered(DayRun(m), 4 * HOUR);
  }

  lemma DayRunFitsDay(m: nat)
    requires 2 <= m <= 5
    ensures Admissible(DayRun(m), m, DAY)
  {
    var us, vs := Before(WEEK, 4 * HOUR, m - 1), [WEEK, WEEK + 4 * HOUR];
    BeforeIs(WEEK, 4 * HOUR, m - 1);
    assert [] + [0] == [0] && [0] + [WEEK - DAY] == [0, WEEK - DAY];
    Fresh([], [0], m, DAY, Unborn);
    Fresh([0], [WEEK - DAY], m, DAY, Life(0, 1));
    Join([0, WEEK - DAY], us, m, DAY, Life(WEEK - DAY, 1));
    Fresh([0, WEEK - DAY] + us, vs, m, DAY, Life(WEEK - DAY, m));
  }

  lemma DayRunFitsWeek(m: nat, limit: int)
    requires 2 <= m <= 5 && m + 1 <= limit
    ensures Admissible(DayRun(m), limit, WEEK)
  {
    var us, vs := Before(WEEK, 4 * HOUR, m - 1), [WEEK, WEEK + 4 * HOUR];
    BeforeIs(WEEK, 4 * HOUR, m - 1);
    assert [] + [0] == [0] && [0] + [WEEK - DAY] == [0, WEEK - DAY];
    Fresh([], [0], limit, WEEK, Unborn);
    Join([0], [WEEK - DAY], limit, WEEK, Life(0, 1));
    Join([0, WEEK - DAY], us, limit, WEEK, Life(0, 2));
    Fresh([0, WEEK - DAY] + us, vs, limit, WEEK, Life(0, m + 1));
  }

  lemma DayRunCount(m: nat)
    requires 2 <= m <= 5
    ensures CountIn(DayRun(m), WEEK - (m - 1) * (4 * HOUR), DAY) >= m + 1
  {
    var tail := Before(WEEK, 4 * HOUR, m - 1) + [WEEK, WEEK + 4 * HOUR];
    BeforeIs(WEEK, 4 * HOUR, m - 1);
    CountTail([0, WEEK - DAY], tail, WEEK - (m - 1) * (4 * HOUR), DAY);
    assert [0, WEEK - DAY] + tail == DayRun(m);
  }

  lemma BreaksADay(l: Limits)
    requires l.Complete() && Positive(l) && 2 <= l.requests[W24h] <= 5 && l.requests[W7d] > l.requests[W24h]
    ensures exists ts :: Breaks(ts, l, W24h)
  {
    var m := l.requests[W24h];
    var ts := DayRun(m);
    DayRunIsSpaced(m);
    DayRunFitsDay(m);
    DayRunFitsWeek(m, l.requests[W7d]);
    DayRunCount(m);
    SpacedLives(ts, 4 * HOUR, 4 * HOUR, 1, l.requests[W4h]);
    forall w: Window
      ensures Admissible(ts, l.requests[w], w.Seconds())
    {
    }
    assert CountIn(ts, WEEK - (m - 1) * (4 * HOUR), W24h.Seconds()) >= m + 1;
    assert Breaks(ts, l, W24h);
  }

  /** Four blocks of simultaneous calls, far apart for the short windows. */
  function WeekBurst(m: nat): seq<int>
    requires m >= 2
  {
    [0] + Repeat(3 * DAY, m - 1) + Repeat(WEEK, 2)
  }

  lemma WeekBurstIsOrdered(m: nat)
    requires 2 <= m
    ensures Ordered(WeekBurst(m))
  {
    OrderedAppend([0], Repeat(3 * DAY, m - 1));
    OrderedAppend([0] + Repeat(3 * DAY, m - 1), Repeat(WEEK, 2));
  }

  lemma WeekBurstFits(m: nat, limit: int, w: Window)
    requires 2 <= m <= limit
    ensures Admissible(WeekBurst(m), limit, w.Seconds())
  {
    var a, b, c := [0], Repeat(3 * DAY, m - 1), Repeat(WEEK, 2);
    if w == W7d {
      TwoLives(a, b, c, limit, WEEK);
    } else {
      ThreeLives(a, b, c, limit, w.Seconds());
    }
  }

  /** The week has the least limit. */
  lemma BreaksAWeekAtOnce(l: Limits)
    requires l.Complete() && 2 <= l.requests[W7d] <= l.requests[W24h] && l.requests[W7d] <= l.requests[W4h]
    ensures exists ts :: Breaks(ts, l, W7d)
  {
    var m := l.requests[W7d];
    var ts := WeekBurst(m);
    forall w: Window
      ensures Admissible(ts, l.requests[w], w.Seconds())
    {
      assert w == W4h || w == W24h || w == W7d;
      WeekBurstFits(m, l.requests[w], w);
    }
    WeekBurstIsOrdered(m);
    CountTail([0], Repeat(3 * DAY, m - 1) + Repeat(WEEK, 2), 3 * DAY, WEEK);
    assert [0] + (Repeat(3 * DAY, m - 1) + Repeat(WEEK, 2)) == ts;
    assert CountIn(ts, 3 * DAY, W7d.Seconds()) >= m + 1;
    assert Breaks(ts, l, W7d);
  }

  function DayBurst(m: nat): seq<int>
    requires m >= 2
  {
    [0, WEEK - DAY] + Repeat(WEEK - 12 * HOUR, m - 1) + Repeat(WEEK, 2)
  }

  lemma DayBurstShape(m: nat, limit: int, w: Window)
    requires 2 <= m && limit >= if w == W7d then m + 1 else m
    ensures Admissible(DayBurst(m), limit, w.Seconds()) && Ordered(DayBurst(m))
  {
    var us, vs, span := Repeat(WEEK - 12 * HOUR, m - 1), Repeat(WEEK, 2), w.Seconds();
    OrderedAppend([0, WEEK - DAY], us);
    OrderedAppend([0, WEEK - DAY] + us, vs);
    assert [] + [0] == [0] && [0] + [WEEK - DAY] == [0, WEEK - DAY];
    Fresh([], [0], limit, span, Unborn);
    match w
    case W7d =>
      Join([0], [WEEK - DAY], limit, span, Life(0, 1));
      Join([0, WEEK - DAY], us, limit, span, Life(0, 2));
      Fresh([0, WEEK - DAY] + us, vs, limit, span, Life(0, m + 1));
    case W24h =>
      Fresh([0], [WEEK - DAY], limit, span, Life(0, 1));
      Join([0, WEEK - DAY], us, limit, span, Life(WEEK - DAY, 1));
      Fresh([0, WEEK - DAY] + us, vs, limit, span, Life(WEEK - DAY, m));
    case W4h =>
      Fresh([0], [WEEK - DAY], limit, span, Life(0, 1));
      Fresh([0, WEEK - DAY], us, limit, span, Life(WEEK - DAY, 1));
      Fresh([0, WEEK - DAY] + us, vs, limit, span, Life(WEEK - 12 * HOUR, m - 1));
  }

  /** The day has the least limit, below the week's. */
  lemma BreaksADayAtOnce(l: Limits)
    requires l.Complete() && 2 <= l.requests[W24h] <= l.requests[W4h] && l.requests[W24h] < l.requests[W7d]
    ensures exists ts :: Breaks(ts, l, W24h)
  {
    var m := l.requests[W24h];
    var ts := DayBurst(m);
    forall w: Window
      ensures Admissible(ts, l.requests[w], w.Seconds())
    {
      DayBurstShape(m, l.requests[w], w);
    }
    assert Ordered(ts) by {
      DayBurstShape(m, m, W24h);
    }
    var tail := Repeat(WEEK - 12 * HOUR, m - 1) + Repeat(WEEK, 2);
    CountTail([0, WEEK - DAY], tail, WEEK - 12 * HOUR, DAY);
    assert [0, WEEK - DAY] + tail == ts;
    assert CountIn(ts, WEEK - 12 * HOUR, W24h.Seconds()) >= m + 1;
    assert Breaks(ts, l, W24h);
  }

  const RESTART := WEEK + 2 * HOUR

  /** The first three calls of the run, one for each window to start a life with. */
  const OPENING := [0, RESTART - DAY, WEEK - 2 * HOUR]

  function HoursBurst(m: nat): seq<int>
    requires m >= 2
  {
    OPENING + Repeat(WEEK, m - 1) + Repeat(RESTART, 2)
  }

  lemma Opening(limit: int)
    requires limit >= 2
    ensures limit >= 3 ==> Stage(OPENING, limit, WEEK, Life(0, 3))
    ensures Stage(OPENING, limit, DAY, Life(RESTART - DAY, 2))
    ensures Stage(OPENING, limit, 4 * HOUR, Life(WEEK - 2 * HOUR, 1))
  {
    var a, b, c := [0], [RESTART - DAY], [WEEK - 2 * HOUR];
    assert [] + a == a && a + b + c == OPENING;
    Fresh([], a, limit, WEEK, Unborn);
    Join(a, b, limit, WEEK, Life(0, 1));
    if limit >= 3 {
      Join(a + b, c, limit, WEEK, Life(0, 2));
    }
    Fresh([], a, limit, DAY, Unborn);
    Fresh(a, b, limit, DAY, Life(0, 1));
    Join(a + b, c, limit, DAY, Life(RESTART - DAY, 1));
    Fresh([], a, limit, 4 * HOUR, Unborn);
    Fresh(a, b, limit, 4 * HOUR, Life(0, 1));
    Fresh(a + b, c, limit, 4 * HOUR, Life(RESTART - DAY, 1));
  }

  lemma HoursBurstShape(m: nat, limit: int, w: Window)
    requires 2 <= m && limit >= if w == W4h then m else m + 1
    ensures Admissible(HoursBurst(m), limit, w.Seconds())
  {
    var us, vs := Repeat(WEEK, m - 1), Repeat(RESTART, 2);
    Opening(limit);
    match w
    case W7d =>
      Fresh(OPENING, us, limit, WEEK, Life(0, 3));
      Join(OPENING + us, vs, limit, WEEK, Life(WEEK, m - 1));
    case W24h =>
      Join(OPENING, us, limit, DAY, Life(RESTART - DAY, 2));
      Fresh(OPENING + us, vs, limit, DAY, Life(RESTART - DAY, m + 1));
    case W4h =>
      Join(OPENING, us, limit, 4 * HOUR, Life(WEEK - 2 * HOUR, 1));
      Fresh(OPENING + us, vs, limit, 4 * HOUR, Life(WEEK - 2 * HOUR, m));
  }

  lemma HoursBurstIsOrdered(m: nat)
    requires 2 <= m
    ensures Ordered(HoursBurst(m))
  {
    OrderedAppend(OPENING, Repeat(WEEK, m - 1));
    OrderedAppend(OPENING + Repeat(WEEK, m - 1), Repeat(RESTART, 2));
  }

  /** Four hours have the least limit, below the others. */
  lemma BreaksHoursAtOnce(l: Limits)
    requires l.Complete() && 2 <= l.requests[W4h] < l.requests[W24h] && l.requests[W4h] < l.requests[W7d]
    ensures exists ts :: Breaks(ts, l, W4h)
  {
    var m := l.requests[W4h];
    var ts := HoursBurst(m);
    forall w: Window
      ensures Admissible(ts, l.requests[w], w.Seconds())
    {
      HoursBurstShape(m, l.requests[w], w);
    }
    HoursBurstIsOrdered(m);
    var tail := Repeat(WEEK, m - 1) + Repeat(RESTART, 2);
    CountTail(OPENING, tail, WEEK, 4 * HOUR);
    assert OPENING + tail == ts;
    assert CountIn(ts, WEEK, W4h.Seconds()) >= m + 1;
    assert Breaks(ts, l, W4h);
  }

  /** Limits that do not keep the promise have a run that breaks it. */
  lemma SomeRunBreaks(l: Limits)
    requires l.Complete() && !Slides(l)
    ensures exists ts, w: Window :: Breaks(ts, l, w)
  {
    var four, day, week := l.requests[W4h], l.requests[W24h], l.requests[W7d];
    assert Positive(l);
    if week <= 6 {
      BreaksByDays(l);
    } else if day <= 5 {
      BreaksADay(l);
    } else if week <= 41 {
      BreaksByHours(l);
    } else if week <= four && week <= day {
      BreaksAWeekAtOnce(l);
    } else if day <= four && day < week {
      BreaksADayAtOnce(l);
    } else {
      BreaksHoursAtOnce(l);
    }
  }

  /** Some run of calls breaks the promise for a counter. */
  ghost predicate Broken(l: Limits, calls: seq<Call>, key: Key, t: int)
    requires l.Complete()
  {
    !key.Tok? && InTime(calls) && !Within(AllowedTimes(calls, l, key), t, key.w.Seconds(), LimitOf(key, l))
  }

  lemma BreakingCalls(ts: seq<int>, l: Limits, w: Window)
    requires l.Complete() && Positive(l) && Breaks(ts, l, w)
    ensures exists calls, key, t :: Broken(l, calls, key, t)
  {
    var c, key := Call("u", None, "gpt-4o", 0, 0), Req("u", w);
    UserChecksListed("u", l);
    var k := (match w case W4h => 0 case W24h => 2 case W7d => 4);
    assert Counted(c, l)[k].key == key;
    AllAllowed(c, ts, l);
    assert AllowedTimes(CallsAt(c, ts), l, key) == ts;
    var t :| CountIn(ts, t, w.Seconds()) >= l.requests[w] + 1;
    assert Broken(l, CallsAt(c, ts), key, t);
  }

  /**
    The promise of sliding windows, for every user and address, every window, every run of calls and
    every interval as long as the window, is kept if and only if the limits are among those of Slides.
  */
  lemma WindowsSlideIff(l: Limits)
    requires l.Complete()
    ensures Slides(l) <==> forall calls, key, t :: !Broken(l, calls, key, t)
  {
    if Slides(l) {
      forall calls, key: Key, t | !key.Tok? && InTime(calls)
        ensures !Broken(l, calls, key, t)
      {
        PromiseKept(calls, l, key, t);
      }
    } else {
      SomeRunBreaks(l);
      var ts, w: Window :| Breaks(ts, l, w);
      BreakingCalls(ts, l, w);
    }
  }
}
