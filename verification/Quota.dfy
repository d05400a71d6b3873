/**
  The request and token quota of src/quota/limiter.py: counters with expiry times in Redis, read
  in one pass, checked, then charged one by one.

  A key is modelled by the parts of its text; the test for "tokens" in the text is Key.Tok?.
*/
module Quota {
  import opened Prelude

  datatype Window = W4h | W24h | W7d {
    function Seconds(): int {
      match this
      case W4h => 4 * 3600
      case W24h => 24 * 3600
      case W7d => 7 * 24 * 3600
    }
  }

  const WINDOWS := [W4h, W24h, W7d]

  datatype Key = Req(uid: string, w: Window) | Tok(uid: string, w: Window) | IpReq(ip: string, w: Window)

  /** The six limits of the settings. */
  datatype Limits = Limits(requests: map<Window, int>, tokens: map<Window, int>) {
    predicate Complete() {
      forall w: Window :: w in requests && w in tokens
    }
  }

  datatype Check = Check(key: Key, limit: int)

  const OPENAI_MODELS := {
    "gpt-4o", "gpt-4o-mini", "gpt-4", "gpt-4-turbo", "gpt-4-turbo-preview", "gpt-3.5-turbo",
    "gpt-3.5-turbo-16k", "o1", "o1-mini", "o1-preview", "o3-mini" }

  /** A counter: its value and, when it has one, its expiry time. */
  datatype Cell = Cell(value: int, deadline: Option<int>)

  type Cells = map<Key, Cell>

  predicate Live(cells: Cells, k: Key, now: int) {
    k in cells && (cells[k].deadline.Some? ==> now < cells[k].deadline.value)
  }

  /** int(raw) if raw else 0 */
  function Value(cells: Cells, k: Key, now: int): int {
    if Live(cells, k, now) then cells[k].value else 0
  }

  function UserChecks(uid: string, l: Limits, ws: seq<Window>): seq<Check>
    requires l.Complete()
  {
    if ws == [] then []
    else
      var w := ws[0];
      [Check(Req(uid, w), l.requests[w]), Check(Tok(uid, w), l.tokens[w])] + UserChecks(uid, l, ws[1..])
  }

  function IpChecks(ip: string, l: Limits, ws: seq<Window>): seq<Check>
    requires l.Complete()
  {
    if ws == [] then [] else [Check(IpReq(ip, ws[0]), l.requests[ws[0]])] + IpChecks(ip, l, ws[1..])
  }

  /** The ordered table of checks of one call. */
  function Checks(uid: string, ip: Option<string>, l: Limits): seq<Check>
    requires l.Complete()
  {
    UserChecks(uid, l, WINDOWS) + if ip.Some? then IpChecks(ip.value, l, WINDOWS) else []
  }

  predicate DistinctKeys(cs: seq<Check>) {
    forall i, j :: 0 <= i < j < |cs| ==> cs[i].key != cs[j].key
  }

  lemma UserChecksListed(uid: string, l: Limits)
    requires l.Complete()
    ensures UserChecks(uid, l, WINDOWS) ==
              [Check(Req(uid, W4h), l.requests[W4h]), Check(Tok(uid, W4h), l.tokens[W4h]),
               Check(Req(uid, W24h), l.requests[W24h]), Check(Tok(uid, W24h), l.tokens[W24h]),
               Check(Req(uid, W7d), l.requests[W7d]), Check(Tok(uid, W7d), l.tokens[W7d])]
  {
    assert WINDOWS[1..] == [W24h, W7d] && WINDOWS[1..][1..] == [W7d] && WINDOWS[1..][1..][1..] == [];
    assert UserChecks(uid, l, WINDOWS[1..][1..])
        == [Check(Req(uid, W7d), l.requests[W7d]), Check(Tok(uid, W7d), l.tokens[W7d])];
  }

  lemma IpChecksListed(ip: string, l: Limits)
    requires l.Complete()
    ensures IpChecks(ip, l, WINDOWS) ==
              [Check(IpReq(ip, W4h), l.requests[W4h]), Check(IpReq(ip, W24h), l.requests[W24h]),
                  Check(IpReq(ip, W7d), l.requests[W7d])]
  {
    assert WINDOWS[1..] == [W24h, W7d] && WINDOWS[1..][1..] == [W7d] && WINDOWS[1..][1..][1..] == [];
    assert IpChecks(ip, l, WINDOWS[1..][1..]) == [Check(IpReq(ip, W7d), l.requests[W7d])];
  }

  /** No counter is charged twice by one call. */
  lemma ChecksAreDistinct(uid: string, ip: Option<string>, l: Limits)
    requires l.Complete()
    ensures DistinctKeys(Checks(uid, ip, l))
    ensures |Checks(uid, ip, l)| == if ip.Some? then 9 else 6
  {
    UserChecksListed(uid, l);
    if ip.Some? {
      IpChecksListed(ip.value, l);
    }
  }

  function Amount(k: Key, tokens: nat): nat {
    if k.Tok? then tokens else 1
  }

  /** INCR or INCRBY at time now: a missing or expired key restarts from 0 without an expiry. */
  function Incremented(cells: Cells, k: Key, amount: nat, now: int): Cells {
    if Live(cells, k, now) then cells[k := Cell(cells[k].value + amount, cells[k].deadline)]
    else cells[k := Cell(amount, None)]
  }

  /** The charge for one check whose earlier read gave `raw`. */
  function Charged(cells: Cells, c: Check, raw: int, tokens: nat, now: int): Cells {
    var after := Incremented(cells, c.key, Amount(c.key, tokens), now);
    if raw == 0 then after[c.key := after[c.key].(deadline := Some(now + c.key.w.Seconds()))] else after
  }

  function ChargedAll(cells: Cells, cs: seq<Check>, raws: seq<int>, tokens: nat, now: int): Cells
    requires |cs| == |raws|
  {
    if cs == [] then cells
    else
      var n := |cs| - 1;
      Charged(ChargedAll(cells, cs[..n], raws[..n], tokens, now), cs[n], raws[n], tokens, now)
  }

  function Reads(cells: Cells, cs: seq<Check>, now: int): (raws: seq<int>)
    ensures |raws| == |cs| && forall k :: 0 <= k < |cs| ==> raws[k] == Value(cells, cs[k].key, now)
  {
    seq(|cs|, k requires 0 <= k < |cs| => Value(cells, cs[k].key, now))
  }

  /** The first check, in order, whose counter has reached its limit. */
  function FirstExceeded(cells: Cells, cs: seq<Check>, now: int): (r: Option<nat>)
    ensures r.Some? ==> r.value < |cs| && Value(cells, cs[r.value].key, now) >= cs[r.value].limit
    ensures r.Some? ==> forall k :: 0 <= k < r.value ==> Value(cells, cs[k].key, now) < cs[k].limit
    ensures r.None? ==> forall k :: 0 <= k < |cs| ==> Value(cells, cs[k].key, now) < cs[k].limit
  {
    if cs == [] then None
    else if Value(cells, cs[0].key, now) >= cs[0].limit then Some(0)
    else
      var r := FirstExceeded(cells, cs[1..], now);
      if r.Some? then Some(r.value + 1) else None
  }

  datatype Status = Allowed | Denied(key: Key, current: int, limit: int, resetAt: int)

  /** What one call leaves of a counter it charges. */
  function ChargedCell(cells: Cells, gone: set<Key>, c: Check, tokens: nat, now: int): Cell {
    var raw := Value(cells, c.key, now);
    var kept := Live(cells, c.key, now) && c.key !in gone;
    Cell((if kept then raw else 0) + Amount(c.key, tokens),
         if raw == 0 then Some(now + c.key.w.Seconds()) else if kept then cells[c.key].deadline else None)
  }

  predicate Mentions(cs: seq<Check>, key: Key) {
    exists k :: 0 <= k < |cs| && cs[k].key == key
  }

  predicate SameCell(a: Cells, b: Cells, key: Key) {
    (key in a <==> key in b) && (key in a ==> a[key] == b[key])
  }

  lemma {:induction false} ChargedOther(cells: Cells, cs: seq<Check>, raws: seq<int>, tokens: nat, now: int, key: Key)
    requires |cs| == |raws| && !Mentions(cs, key)
    ensures SameCell(ChargedAll(cells, cs, raws, tokens, now), cells, key)
  {
    if cs != [] {
      var n := |cs| - 1;
      assert cs[n].key != key;
      assert forall k :: 0 <= k < n ==> cs[..n][k] == cs[k];
      ChargedOther(cells, cs[..n], raws[..n], tokens, now, key);
    }
  }

  /** Charging distinct keys: each counter ends as if it had been charged alone. */
  lemma {:induction false} ChargedAt(cells: Cells, cs: seq<Check>, raws: seq<int>, tokens: nat, now: int, k: nat)
    requires |cs| == |raws| && DistinctKeys(cs) && k < |cs|
    ensures SameCell(ChargedAll(cells, cs, raws, tokens, now), Charged(cells, cs[k], raws[k], tokens, now), cs[k].key)
  {
    var n := |cs| - 1;
    if k == n {
      assert forall i :: 0 <= i < n ==> cs[..n][i] == cs[i];
      ChargedOther(cells, cs[..n], raws[..n], tokens, now, cs[n].key);
    } else {
      ChargedAt(cells, cs[..n], raws[..n], tokens, now, k);
    }
  }

  /** The state after an allowed call: every counter of the table charged, nothing else touched. */
  ghost predicate ChargedExactly(before: Cells, gone: set<Key>, after: Cells, cs: seq<Check>, tokens: nat, now: int) {
    && (forall k :: 0 <= k < |cs|
          ==> cs[k].key in after && after[cs[k].key] == ChargedCell(before, gone, cs[k], tokens, now))
    && (forall key :: !Mentions(cs, key) ==> SameCell(after, before - gone, key))
  }

  lemma ChargedAllIsExact(cells: Cells, gone: set<Key>, cs: seq<Check>, tokens: nat, now: int)
    requires DistinctKeys(cs)
    ensures ChargedExactly(cells, gone, ChargedAll(cells - gone, cs, Reads(cells, cs, now), tokens, now),
                           cs, tokens, now)
  {
    var raws := Reads(cells, cs, now);
    var after := ChargedAll(cells - gone, cs, raws, tokens, now);
    forall k | 0 <= k < |cs|
      ensures cs[k].key in after && after[cs[k].key] == ChargedCell(cells, gone, cs[k], tokens, now)
    {
      ChargedAt(cells - gone, cs, raws, tokens, now, k);
    }
    forall key | !Mentions(cs, key)
      ensures SameCell(after, cells - gone, key)
    {
      ChargedOther(cells - gone, cs, raws, tokens, now, key);
    }
  }

  class Limiter {
    var cells: Cells

    /**
      check_and_increment at time now.  `gone` are keys that expire after the GETs and before the
      INCRs: the two passes are separate commands.
    */
    method CheckAndIncrement(uid: string, ip: Option<string>, model: string, tokens: nat, l: Limits, now: int,
        gone: set<Key>)
      returns (s: Status)
      requires l.Complete()
      modifies this
      ensures model !in OPENAI_MODELS ==> s == Allowed && cells == old(cells)
      ensures model in OPENAI_MODELS ==>
                var cs := Checks(uid, ip, l);
                match FirstExceeded(old(cells), cs, now)
                case Some(k) =>
                  && cells == old(cells)
                  && s == Denied(cs[k].key, Value(old(cells), cs[k].key, now), cs[k].limit, now + cs[k].key.w.Seconds())
                case None =>
                  && s == Allowed
                  && ChargedExactly(old(cells), gone, cells, cs, tokens, now)
    {
      if model !in OPENAI_MODELS {
        return Allowed;
      }
      var checks := Table(uid, ip, l);
      var raws := GetAll(checks, now);
      var denied := Exceeded(checks, raws, now);
      if denied.Some? {
        var c := checks[denied.value];
        return Denied(c.key, raws[denied.value], c.limit, now + c.key.w.Seconds());
      }
      cells := cells - gone;
      Charge(checks, raws, tokens, now);
      ChecksAreDistinct(uid, ip, l);
      ChargedAllIsExact(old(cells), gone, checks, tokens, now);
      return Allowed;
    }

    method GetAll(checks: seq<Check>, now: int) returns (raws: seq<int>)
      ensures raws == Reads(cells, checks, now)
    {
      raws := [];
      for i := 0 to |checks|
        invariant |raws| == i && forall k :: 0 <= k < i ==> raws[k] == Value(cells, checks[k].key, now)
      {
        raws := raws + [Value(cells, checks[i].key, now)];
      }
    }

    method Exceeded(checks: seq<Check>, raws: seq<int>, now: int) returns (r: Option<nat>)
      requires raws == Reads(cells, checks, now)
      ensures r == FirstExceeded(cells, checks, now)
    {
      for i := 0 to |checks|
        invariant forall k :: 0 <= k < i ==> raws[k] < checks[k].limit
      {
        if raws[i] >= checks[i].limit {
          return Some(i);
        }
      }
      return None;
    }

    method Charge(checks: seq<Check>, raws: seq<int>, tokens: nat, now: int)
      requires |raws| == |checks|
      modifies this
      ensures cells == ChargedAll(old(cells), checks, raws, tokens, now)
    {
      for i := 0 to |checks|
        invariant cells == ChargedAll(old(cells), checks[..i], raws[..i], tokens, now)
      {
        assert checks[..i + 1][..i] == checks[..i] && raws[..i + 1][..i] == raws[..i];
        cells := Charged(cells, checks[i], raws[i], tokens, now);
      }
      assert checks[..|checks|] == checks && raws[..|checks|] == raws;
    }

    method Table(uid: string, ip: Option<string>, l: Limits) returns (cs: seq<Check>)
      requires l.Complete()
      ensures cs == Checks(uid, ip, l)
    {
      cs := UserTable(uid, l);
      if ip.Some? {
        var more := IpTable(ip.value, l);
        cs := cs + more;
      }
    }

    method UserTable(uid: string, l: Limits) returns (cs: seq<Check>)
      requires l.Complete()
      ensures cs == UserChecks(uid, l, WINDOWS)
    {
      cs := [];
      for i := 0 to |WINDOWS|
        invariant cs + UserChecks(uid, l, WINDOWS[i..]) == UserChecks(uid, l, WINDOWS)
      {
        var w := WINDOWS[i];
        assert WINDOWS[i..][0] == w && WINDOWS[i..][1..] == WINDOWS[i + 1..];
        cs := cs + [Check(Req(uid, w), l.requests[w]), Check(Tok(uid, w), l.tokens[w])];
      }
    }

    method IpTable(ip: string, l: Limits) returns (cs: seq<Check>)
      requires l.Complete()
      ensures cs == IpChecks(ip, l, WINDOWS)
    {
      cs := [];
      for i := 0 to |WINDOWS|
        invariant cs + IpChecks(ip, l, WINDOWS[i..]) == IpChecks(ip, l, WINDOWS)
      {
        var w := WINDOWS[i];
        assert WINDOWS[i..][0] == w && WINDOWS[i..][1..] == WINDOWS[i + 1..];
        cs := cs + [Check(IpReq(ip, w), l.requests[w])];
      }
    }
  }
}
