/** What the quota of module Quota bounds over any serial run of calls, and when it loses an expiry. */
module QuotaWindows {
  import opened Prelude
  import opened Quota

  // ---- expiries ------------------------------------------------------------------------------

  /** Every counter expires, within its window. */
  ghost predicate Expiring(cells: Cells, now: int) {
    forall key :: key in cells ==> cells[key].deadline.Some? && cells[key].deadline.value <= now + key.w.Seconds()
  }

  /** A key that was read as non-zero and is gone by the time it is charged. */
  ghost predicate LostBetweenPasses(cells: Cells, gone: set<Key>, cs: seq<Check>, now: int) {
    exists k :: 0 <= k < |cs| && cs[k].key in gone && Value(cells, cs[k].key, now) != 0
  }

  /** An allowed call leaves every counter with an expiry if and only if no counter expired between its two passes. */
  lemma ExpiryKeptIff(before: Cells, gone: set<Key>, after: Cells, cs: seq<Check>, tokens: nat, now: int)
    requires Expiring(before, now) && ChargedExactly(before, gone, after, cs, tokens, now)
    ensures Expiring(after, now) <==> !LostBetweenPasses(before, gone, cs, now)
  {
    if LostBetweenPasses(before, gone, cs, now) {
      var k :| 0 <= k < |cs| && cs[k].key in gone && Value(before, cs[k].key, now) != 0;
      assert after[cs[k].key].deadline == None;
    } else {
      forall key | key in after
        ensures after[key].deadline.Some? && after[key].deadline.value <= now + key.w.Seconds()
      {
        if Mentions(cs, key) {
          var k :| 0 <= k < |cs| && cs[k].key == key;
          assert after[key] == ChargedCell(before, gone, cs[k], tokens, now);
        } else {
          assert SameCell(after, before - gone, key);
        }
      }
    }
  }

  /** A token counter overshoots its limit by less than the last charge. */
  lemma TokenOvershoot(before: Cells, after: Cells, cs: seq<Check>, tokens: nat, now: int, k: nat)
    requires FirstExceeded(before, cs, now).None? && ChargedExactly(before, {}, after, cs, tokens, now)
    requires k < |cs| && cs[k].key.Tok?
    ensures Value(after, cs[k].key, now) < cs[k].limit + tokens
  {
    assert after[cs[k].key] == ChargedCell(before, {}, cs[k], tokens, now);
  }

  // ---- lives of a counter --------------------------------------------------------------------

  /** A request counter since its key was last created. */
  datatype Life = Unborn | Life(start: int, count: nat)

  /** The independent description: a call within the window of the first one joins its life. */
  function Joined(life: Life, t: int, span: int): Life {
    if life.Unborn? || life.start + span <= t then Life(t, 1) else life.(count := life.count + 1)
  }

  function LifeOf(ts: seq<int>, span: int): Life {
    if ts == [] then Unborn else Joined(LifeOf(ts[..|ts| - 1], span), ts[|ts| - 1], span)
  }

  /** At no point do more than `limit` calls share a life. */
  ghost predicate Admissible(ts: seq<int>, limit: int, span: int) {
    ts == [] || (Admissible(ts[..|ts| - 1], limit, span) && LifeOf(ts, span).count <= limit)
  }

  predicate Ordered(ts: seq<int>) {
    forall i, j :: 0 <= i <= j < |ts| ==> ts[i] <= ts[j]
  }

  ghost predicate Tracks(cells: Cells, key: Key, life: Life) {
    match life
    case Unborn => key !in cells
    case Life(start, count) => key in cells && cells[key] == Cell(count, Some(start + key.w.Seconds())) && count > 0
  }

  // ---- serial runs ---------------------------------------------------------------------------

  datatype Call = Call(uid: string, ip: Option<string>, model: string, tokens: nat, at: int)

  function Counted(c: Call, l: Limits): seq<Check>
    requires l.Complete()
  {
    if c.model in OPENAI_MODELS then Checks(c.uid, c.ip, l) else []
  }

  predicate Allows(cells: Cells, c: Call, l: Limits)
    requires l.Complete()
  {
    FirstExceeded(cells, Counted(c, l), c.at).None?
  }

  function AfterCall(cells: Cells, c: Call, l: Limits): Cells
    requires l.Complete()
  {
    var cs := Counted(c, l);
    if Allows(cells, c, l) then ChargedAll(cells - {}, cs, Reads(cells, cs, c.at), c.tokens, c.at) else cells
  }

  function AfterCalls(calls: seq<Call>, l: Limits): Cells
    requires l.Complete()
  {
    if calls == [] then map[] else AfterCall(AfterCalls(calls[..|calls| - 1], l), calls[|calls| - 1], l)
  }

  /** The times of the allowed calls that charge the key. */
  ghost function AllowedTimes(calls: seq<Call>, l: Limits, key: Key): (ts: seq<int>)
    requires l.Complete()
    ensures |ts| > 0 ==> |calls| > 0
  {
    if calls == [] then []
    else
      var init, c := calls[..|calls| - 1], calls[|calls| - 1];
      AllowedTimes(init, l, key)
      + if Allows(AfterCalls(init, l), c, l) && Mentions(Counted(c, l), key) then [c.at] else []
  }

  predicate InTime(calls: seq<Call>) {
    forall i, j :: 0 <= i <= j < |calls| ==> calls[i].at <= calls[j].at
  }

  function LimitOf(key: Key, l: Limits): int
    requires l.Complete()
  {
    if key.Tok? then l.tokens[key.w] else l.requests[key.w]
  }

  lemma CheckLimit(c: Call, l: Limits, k: nat)
    requires l.Complete() && k < |Counted(c, l)|
    ensures Counted(c, l)[k].limit == LimitOf(Counted(c, l)[k].key, l)
  {
    UserChecksListed(c.uid, l);
    if c.ip.Some? {
      IpChecksListed(c.ip.value, l);
    }
  }

  lemma OneCallTracks(cells: Cells, c: Call, l: Limits, key: Key, life: Life)
    requires l.Complete() && !key.Tok? && Tracks(cells, key, life)
    requires Allows(cells, c, l) && Mentions(Counted(c, l), key)
    ensures var next := Joined(life, c.at, key.w.Seconds());
      Tracks(AfterCall(cells, c, l), key, next) && next.count <= LimitOf(key, l)
  {
    var cs := Counted(c, l);
    ChecksAreDistinct(c.uid, c.ip, l);
    ChargedAllIsExact(cells, {}, cs, c.tokens, c.at);
    var k :| 0 <= k < |cs| && cs[k].key == key;
    CheckLimit(c, l, k);
    assert Value(cells, key, c.at) < cs[k].limit;
    assert AfterCall(cells, c, l)[key] == ChargedCell(cells, {}, cs[k], c.tokens, c.at);
    assert cells - {} == cells;
  }

  lemma OtherCallKeeps(cells: Cells, c: Call, l: Limits, key: Key)
    requires l.Complete() && !(Allows(cells, c, l) && Mentions(Counted(c, l), key))
    ensures SameCell(AfterCall(cells, c, l), cells, key)
  {
    var cs := Counted(c, l);
    if Allows(cells, c, l) {
      ChargedOther(cells - {}, cs, Reads(cells, cs, c.at), c.tokens, c.at, key);
    }
  }

  /** What a serial run leaves of one request counter. */
  ghost predicate Refines(cells: Cells, ts: seq<int>, key: Key, limit: int, last: int) {
    && Tracks(cells, key, LifeOf(ts, key.w.Seconds()))
    && Admissible(ts, limit, key.w.Seconds())
    && Ordered(ts) && (ts != [] ==> ts[|ts| - 1] <= last)
  }

  lemma JoinsList(ts: seq<int>, x: int, limit: int, span: int)
    requires Admissible(ts, limit, span) && Ordered(ts) && (ts != [] ==> ts[|ts| - 1] <= x)
    requires Joined(LifeOf(ts, span), x, span).count <= limit
    ensures LifeOf(ts + [x], span) == Joined(LifeOf(ts, span), x, span)
    ensures Admissible(ts + [x], limit, span) && Ordered(ts + [x])
  {
    assert (ts + [x])[..|ts|] == ts;
  }

  lemma CallRefines(cells: Cells, ts: seq<int>, key: Key, last: int, c: Call, l: Limits)
    requires l.Complete() && !key.Tok? && Refines(cells, ts, key, LimitOf(key, l), last) && last <= c.at
    ensures Refines(AfterCall(cells, c, l),
                    if Allows(cells, c, l) && Mentions(Counted(c, l), key) then ts + [c.at] else ts,
                    key, LimitOf(key, l), c.at)
  {
    if Allows(cells, c, l) && Mentions(Counted(c, l), key) {
      OneCallTracks(cells, c, l, key, LifeOf(ts, key.w.Seconds()));
      JoinsList(ts, c.at, LimitOf(key, l), key.w.Seconds());
    } else {
      OtherCallKeeps(cells, c, l, key);
      assert SameCell(AfterCall(cells, c, l), cells, key);
    }
  }

  /**
    Serial refinement: over any run of calls in time order, a request counter equals the number of
    allowed calls in its key's current life, it expires one window after that life began, and no
    life ever holds more than the limit.
  */
  lemma {:induction false} CounterRefinesLives(calls: seq<Call>, l: Limits, key: Key)
    requires l.Complete() && !key.Tok? && InTime(calls)
    ensures Refines(AfterCalls(calls, l), AllowedTimes(calls, l, key), key, LimitOf(key, l),
                    if calls == [] then 0 else calls[|calls| - 1].at)
  {
    if calls != [] {
      var init, c := calls[..|calls| - 1], calls[|calls| - 1];
      CounterRefinesLives(init, l, key);
      var ts := AllowedTimes(init, l, key);
      assert init != [] ==> init[|init| - 1].at <= c.at;
      CallRefines(AfterCalls(init, l), ts, key, if init == [] then c.at else init[|init| - 1].at, c, l);
      assert ts + [] == ts;
    }
  }

  /** The class and the run agree: an allowed call whose keys do not expire midway leaves AfterCall. */
  lemma MethodIsAfterCall(before: Cells, after: Cells, c: Call, l: Limits)
    requires l.Complete() && Allows(before, c, l)
    requires ChargedExactly(before, {}, after, Counted(c, l), c.tokens, c.at)
    ensures after == AfterCall(before, c, l)
  {
    var cs := Counted(c, l);
    ChecksAreDistinct(c.uid, c.ip, l);
    ChargedAllIsExact(before, {}, cs, c.tokens, c.at);
    var other := AfterCall(before, c, l);
    forall key
      ensures SameCell(after, other, key)
    {
      if Mentions(cs, key) {
        var k :| 0 <= k < |cs| && cs[k].key == key;
        assert after[cs[k].key] == other[cs[k].key];
      } else {
        assert SameCell(after, before - {}, key) && SameCell(other, before - {}, key);
      }
    }
    SameCellsAreEqual(after, other);
  }

  lemma SameCellsAreEqual(a: Cells, b: Cells)
    requires forall key :: SameCell(a, b, key)
    ensures a == b
  {
    forall key | key in a || key in b
      ensures key in a && key in b && a[key] == b[key]
    {
      assert SameCell(a, b, key);
    }
  }

  // ---- calls that charge no tokens -------------------------------------------------------------

  lemma {:induction false} UnchargedTokensStayZero(calls: seq<Call>, l: Limits, key: Key)
    requires l.Complete() && key.Tok? && forall i :: 0 <= i < |calls| ==> calls[i].tokens == 0
    ensures key in AfterCalls(calls, l) ==> AfterCalls(calls, l)[key].value == 0
  {
    if calls != [] {
      var init, c := calls[..|calls| - 1], calls[|calls| - 1];
      UnchargedTokensStayZero(init, l, key);
      var cells, cs := AfterCalls(init, l), Counted(c, l);
      if Allows(cells, c, l) && Mentions(cs, key) {
        ChecksAreDistinct(c.uid, c.ip, l);
        ChargedAllIsExact(cells, {}, cs, c.tokens, c.at);
        var k :| 0 <= k < |cs| && cs[k].key == key;
        assert AfterCall(cells, c, l)[key] == ChargedCell(cells, {}, cs[k], c.tokens, c.at);
      } else {
        OtherCallKeeps(cells, c, l, key);
      }
    }
  }

  lemma AllowedCallIsExact(cells: Cells, c: Call, l: Limits)
    requires l.Complete() && Allows(cells, c, l)
    ensures ChargedExactly(cells, {}, AfterCall(cells, c, l), Counted(c, l), c.tokens, c.at)
  {
    ChecksAreDistinct(c.uid, c.ip, l);
    ChargedAllIsExact(cells, {}, Counted(c, l), c.tokens, c.at);
  }

  /** Over any serial run every counter that exists expires, at the latest a window after the last call. */
  lemma {:induction false} CountersExpire(calls: seq<Call>, l: Limits)
    requires l.Complete() && InTime(calls) && calls != []
    ensures Expiring(AfterCalls(calls, l), calls[|calls| - 1].at)
  {
    var init, c := calls[..|calls| - 1], calls[|calls| - 1];
    var cells := AfterCalls(init, l);
    if init != [] {
      CountersExpire(init, l);
      assert init[|init| - 1].at <= c.at;
    }
    assert Expiring(cells, c.at);
    if Allows(cells, c, l) {
      AllowedCallIsExact(cells, c, l);
      ExpiryKeptIff(cells, {}, AfterCall(cells, c, l), Counted(c, l), c.tokens, c.at);
    }
  }

  /**
    Over any serial run of calls of at most `most` tokens, a token counter stays below its limit plus
    one such charge.
  */
  lemma {:induction false} TokensStayBelow(calls: seq<Call>, l: Limits, key: Key, most: nat)
    requires l.Complete() && key.Tok? && forall i :: 0 <= i < |calls| ==> calls[i].tokens <= most
    ensures var cells := AfterCalls(calls, l); key in cells ==> cells[key].value <= LimitOf(key, l) - 1 + most
  {
    if calls != [] {
      var init, c := calls[..|calls| - 1], calls[|calls| - 1];
      var cells, cs := AfterCalls(init, l), Counted(c, l);
      TokensStayBelow(init, l, key, most);
      if Allows(cells, c, l) && Mentions(cs, key) {
        var k :| 0 <= k < |cs| && cs[k].key == key;
        CheckLimit(c, l, k);
        AllowedCallIsExact(cells, c, l);
        assert AfterCall(cells, c, l)[key] == ChargedCell(cells, {}, cs[k], c.tokens, c.at);
        assert Value(cells, key, c.at) < LimitOf(key, l);
      } else {
        OtherCallKeeps(cells, c, l, key);
      }
    }
  }

  /**
    The chat endpoint charges every call 0 tokens, and nothing else charges.  So with positive limits
    a token window never denies: the check that fails is always about requests.
  */
  lemma {:induction false} TokenWindowsNeverDeny(calls: seq<Call>, l: Limits, c: Call)
    requires l.Complete() && (forall w :: l.tokens[w] >= 1) && forall i :: 0 <= i < |calls| ==> calls[i].tokens == 0
    ensures var r := FirstExceeded(AfterCalls(calls, l), Counted(c, l), c.at);
      r.Some? ==> !Counted(c, l)[r.value].key.Tok?
  {
    var cells := AfterCalls(calls, l);
    var r := FirstExceeded(cells, Counted(c, l), c.at);
    if r.Some? && Counted(c, l)[r.value].key.Tok? {
      CheckLimit(c, l, r.value);
      UnchargedTokensStayZero(calls, l, Counted(c, l)[r.value].key);
    }
  }

  // ---- a counter that has lost its expiry ------------------------------------------------------

  /** A call, and the keys that expire between its two passes. */
  datatype Visit = Visit(call: Call, gone: set<Key>)

  function AfterVisit(cells: Cells, x: Visit, l: Limits): Cells
    requires l.Complete()
  {
    var cs := Counted(x.call, l);
    if Allows(cells, x.call, l)
        then ChargedAll(cells - x.gone, cs, Reads(cells, cs, x.call.at), x.call.tokens, x.call.at) else cells - x.gone
  }

  function AfterVisits(cells: Cells, xs: seq<Visit>, l: Limits): Cells
    requires l.Complete()
  {
    if xs == [] then cells else AfterVisit(AfterVisits(cells, xs[..|xs| - 1], l), xs[|xs| - 1], l)
  }

  /** How many of the visits are allowed and charge the key. */
  ghost function Charges(cells: Cells, xs: seq<Visit>, l: Limits, key: Key): nat
    requires l.Complete()
  {
    if xs == [] then 0
    else
      var init, c := xs[..|xs| - 1], xs[|xs| - 1].call;
      Charges(cells, init, l, key) + if Allows(AfterVisits(cells, init, l), c, l) && Mentions(Counted(c, l), key)
          then 1 else 0
  }

  /** The counter has a value and no expiry, so Redis never drops it. */
  predicate Stuck(cells: Cells, key: Key) {
    key in cells && cells[key].value >= 1 && cells[key].deadline == None
  }

  lemma VisitKeepsStuck(cells: Cells, x: Visit, l: Limits, key: Key)
    requires l.Complete() && !key.Tok? && Stuck(cells, key) && key !in x.gone
    ensures var charged := Allows(cells, x.call, l) && Mentions(Counted(x.call, l), key);
      && Stuck(AfterVisit(cells, x, l), key)
      && AfterVisit(cells, x, l)[key].value == cells[key].value + (if charged then 1 else 0)
      && (charged ==> cells[key].value < LimitOf(key, l))
  {
    var c, cs := x.call, Counted(x.call, l);
    if Allows(cells, c, l) {
      if Mentions(cs, key) {
        var k :| 0 <= k < |cs| && cs[k].key == key;
        ChecksAreDistinct(c.uid, c.ip, l);
        ChargedAllIsExact(cells, x.gone, cs, c.tokens, c.at);
        CheckLimit(c, l, k);
        assert AfterVisit(cells, x, l)[key] == ChargedCell(cells, x.gone, cs[k], c.tokens, c.at);
      } else {
        ChargedOther(cells - x.gone, cs, Reads(cells, cs, c.at), c.tokens, c.at, key);
      }
    }
  }

  /**
    A counter that has lost its expiry never gets one back and never falls, over any later calls at
    any times and whatever other keys expire.  It counts every allowed call that charges it, and the
    last one leaves it at the limit at most: from then on every call that mentions it is denied, for ever.
  */
  lemma {:induction false} StuckForEver(cells: Cells, xs: seq<Visit>, l: Limits, key: Key)
    requires l.Complete() && !key.Tok? && Stuck(cells, key)
    requires forall i :: 0 <= i < |xs| ==> key !in xs[i].gone
    ensures var after := AfterVisits(cells, xs, l);
      && Stuck(after, key)
      && after[key].value == cells[key].value + Charges(cells, xs, l, key)
      && (Charges(cells, xs, l, key) > 0 ==> after[key].value <= LimitOf(key, l))
      && forall c :: LimitOf(key, l) <= after[key].value && Mentions(Counted(c, l), key) ==> !Allows(after, c, l)
  {
    if xs != [] {
      StuckForEver(cells, xs[..|xs| - 1], l, key);
      VisitKeepsStuck(AfterVisits(cells, xs[..|xs| - 1], l), xs[|xs| - 1], l, key);
    }
    var after := AfterVisits(cells, xs, l);
    forall c | LimitOf(key, l) <= after[key].value && Mentions(Counted(c, l), key)
      ensures !Allows(after, c, l)
    {
      var cs := Counted(c, l);
      var k :| 0 <= k < |cs| && cs[k].key == key;
      CheckLimit(c, l, k);
      assert Value(after, key, c.at) >= cs[k].limit;
    }
  }

  lemma AllowsIfBelow(cells: Cells, c: Call, l: Limits)
    requires l.Complete() && forall k :: 0 <= k < |Counted(c, l)|
                               ==> Value(cells, Counted(c, l)[k].key, c.at) < Counted(c, l)[k].limit
    ensures Allows(cells, c, l)
  {
  }

  /** The first call of a user leaves request counters of 1 and token counters of 0, each with its expiry. */
  lemma FirstVisit(c: Call, l: Limits)
    requires l.Complete() && c.tokens == 0 && c.at == 0 && forall w :: l.requests[w] >= 2 && l.tokens[w] >= 1
    ensures var cells := AfterVisits(map[], [Visit(c, {})], l);
      forall k :: 0 <= k < |Counted(c, l)| ==> var key := Counted(c, l)[k].key;
        key in cells && cells[key] == Cell(if key.Tok? then 0 else 1, Some(key.w.Seconds()))
  {
    var cs, none: Cells := Counted(c, l), map[];
    forall k | 0 <= k < |cs|
      ensures cs[k].limit >= 1
    {
      CheckLimit(c, l, k);
    }
    AllowsIfBelow(none, c, l);
    ChecksAreDistinct(c.uid, c.ip, l);
    ChargedAllIsExact(none, {}, cs, 0, 0);
    assert [Visit(c, {})][..0] == [];
    forall k | 0 <= k < |cs|
      ensures var key := cs[k].key;
        key in AfterVisit(none, Visit(c, {}), l)
            && AfterVisit(none, Visit(c, {}), l)[key] == Cell(if key.Tok? then 0 else 1, Some(key.w.Seconds()))
    {
      assert AfterVisit(none, Visit(c, {}), l)[cs[k].key] == ChargedCell(none, {}, cs[k], 0, 0);
    }
  }

  /**
    It happens to every request counter: a second call reads it in its last second, and it is gone
    when the call charges it.
  */
  lemma AnExpiryIsLost(c: Call, l: Limits, k: nat)
    requires l.Complete() && c.tokens == 0 && c.at == 0 && (forall w :: l.requests[w] >= 2 && l.tokens[w] >= 1)
    requires k < |Counted(c, l)| && !Counted(c, l)[k].key.Tok?
    ensures var key := Counted(c, l)[k].key;
      Stuck(AfterVisits(map[], [Visit(c, {}), Visit(c.(at := key.w.Seconds() - 1), {key})], l), key)
  {
    var cs, key := Counted(c, l), Counted(c, l)[k].key;
    var d := c.(at := key.w.Seconds() - 1);
    var cells := AfterVisits(map[], [Visit(c, {})], l);
    FirstVisit(c, l);
    assert Counted(d, l) == cs;
    forall i | 0 <= i < |cs|
      ensures Value(cells, cs[i].key, d.at) < cs[i].limit
    {
      CheckLimit(c, l, i);
    }
    AllowsIfBelow(cells, d, l);
    ChecksAreDistinct(c.uid, c.ip, l);
    ChargedAllIsExact(cells, {key}, cs, 0, d.at);
    assert [Visit(c, {}), Visit(d, {key})][..1] == [Visit(c, {})];
    assert AfterVisit(cells, Visit(d, {key}), l)[key] == ChargedCell(cells, {key}, cs[k], 0, d.at);
  }

  // ---- any interval --------------------------------------------------------------------------

  /** The calls in the half-open interval from t of the given length. */
  function CountIn(ts: seq<int>, t: int, span: int): nat {
    if ts == [] then 0
    else CountIn(ts[..|ts| - 1], t, span) + if t <= ts[|ts| - 1] < t + span then 1 else 0
  }

  lemma {:induction false} NoneLater(ts: seq<int>, t: int, span: int)
    requires Ordered(ts) && (ts == [] || ts[|ts| - 1] < t)
    ensures CountIn(ts, t, span) == 0
  {
    if ts != [] {
      NoneLater(ts[..|ts| - 1], t, span);
    }
  }

  lemma {:induction false} StartIsEarly(ts: seq<int>, span: int)
    requires Ordered(ts) && ts != []
    ensures var life := LifeOf(ts, span); life.Life? && life.start <= ts[|ts| - 1] && life.count >= 1
  {
    if |ts| > 1 {
      StartIsEarly(ts[..|ts| - 1], span);
    }
  }

  lemma {:induction false} IntervalBound(ts: seq<int>, t: int, limit: int, span: int)
    requires Ordered(ts) && ts != [] && span > 0 && Admissible(ts, limit, span)
    ensures var life, n := LifeOf(ts, span), CountIn(ts, t, span);
      && life.Life? && 1 <= life.count <= limit
      && (life.start < t ==> n <= life.count - 1)
      && (t <= life.start < t + span ==> n <= limit - 1 + life.count)
      && n <= 2 * limit - 1
  {
    var init, x := ts[..|ts| - 1], ts[|ts| - 1];
    StartIsEarly(ts, span);
    if init != [] {
      IntervalBound(init, t, limit, span);
      StartIsEarly(init, span);
      if x < t {
        NoneLater(init, t, span);
      }
    }
  }

  /**
    The windows do not slide: they restart when a key is created again.  Over any interval as long
    as the window, the allowed calls of a key number at most twice the limit less one.
  */
  lemma AnyIntervalBound(calls: seq<Call>, l: Limits, key: Key, t: int)
    requires l.Complete() && !key.Tok? && InTime(calls) && LimitOf(key, l) >= 1
    ensures CountIn(AllowedTimes(calls, l, key), t, key.w.Seconds()) <= 2 * LimitOf(key, l) - 1
  {
    CounterRefinesLives(calls, l, key);
    var ts := AllowedTimes(calls, l, key);
    if ts != [] {
      IntervalBound(ts, t, LimitOf(key, l), key.w.Seconds());
    }
  }
}
