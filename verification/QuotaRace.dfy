/**
  Concurrent calls of check_and_increment (src/quota/limiter.py): every GET, the check, every INCR
  and every EXPIRE is a separate step, steps of different calls interleave freely, and keys expire
  at any moment.
*/
module QuotaRace {
  import opened Prelude
  import opened Quota

  datatype Pc = Reading | Charging | Stamping | Finished(allowed: bool)

  /** One call: its table, what it has read so far and how many entries it has charged. */
  datatype Racer = Racer(checks: seq<Check>, raws: seq<int>, charged: nat, pc: Pc)

  datatype Sys = Sys(values: map<Key, int>, racers: map<nat, Racer>)

  datatype Step =
    | Begin(p: nat, checks: seq<Check>)
    | Get(p: nat)
    | Decide(p: nat)
    | Incr(p: nat)
    | Stamp(p: nat)    // EXPIRE after an INCR whose key was read as 0
    | Expire(key: Key)

  function ValueOf(s: Sys, key: Key): int {
    if key in s.values then s.values[key] else 0
  }

  ghost predicate InFlight(r: Racer) {
    !r.pc.Finished?
  }

  ghost function Flying(s: Sys): set<nat> {
    set p | p in s.racers && InFlight(s.racers[p])
  }

  predicate UnderLimits(r: Racer)
    requires |r.raws| == |r.checks|
  {
    forall k :: 0 <= k < |r.checks| ==> r.raws[k] < r.checks[k].limit
  }

  /** limits: one limit for each key; K: the most calls in flight at a time. */
  ghost predicate Enabled(s: Sys, step: Step, limits: map<Key, int>, K: nat) {
    match step
    case Begin(p, checks) =>
      && p !in s.racers && |Flying(s)| < K && DistinctKeys(checks)
      && (forall k :: 0 <= k < |checks| ==> checks[k].key in limits && checks[k].limit == limits[checks[k].key])
    case Get(p) => p in s.racers && s.racers[p].pc == Reading && |s.racers[p].raws| < |s.racers[p].checks|
    case Decide(p) => p in s.racers && s.racers[p].pc == Reading && |s.racers[p].raws| == |s.racers[p].checks|
    case Incr(p) => p in s.racers && s.racers[p].pc == Charging && s.racers[p].charged < |s.racers[p].checks|
    case Stamp(p) => p in s.racers && s.racers[p].pc == Stamping
    case Expire(key) => key in s.values
  }

  /** Where a call goes after charging its n-th entry. */
  function AfterCharge(r: Racer, n: nat): Pc {
    if n < |r.checks| then Charging else Finished(true)
  }

  ghost function Next(s: Sys, step: Step, limits: map<Key, int>, K: nat, tokens: nat): Sys
    requires Enabled(s, step, limits, K)
  {
    match step
    case Begin(p, checks) => s.(racers := s.racers[p := Racer(checks, [], 0, Reading)])
    case Get(p) =>
      var r := s.racers[p];
      s.(racers := s.racers[p := r.(raws := r.raws + [ValueOf(s, r.checks[|r.raws|].key)])])
    case Decide(p) =>
      var r := s.racers[p];
      s.(racers := s.racers[p := r.(pc := if UnderLimits(r) then AfterCharge(r, 0) else Finished(false))])
    case Incr(p) =>
      var r := s.racers[p];
      var key := r.checks[r.charged].key;
      var stamp := r.charged < |r.raws| && r.raws[r.charged] == 0;
      Sys(s.values[key := ValueOf(s, key) + Amount(key, tokens)],
          s.racers[p := r.(charged := r.charged + 1, pc := if stamp then Stamping else AfterCharge(r, r.charged + 1))])
    case Stamp(p) =>
      var r := s.racers[p];
      s.(racers := s.racers[p := r.(pc := AfterCharge(r, r.charged))])
    case Expire(key) => s.(values := s.values - {key})
  }

  ghost predicate Runs(s: Sys, steps: seq<Step>, limits: map<Key, int>, K: nat, tokens: nat)
    decreases |steps|, 0
  {
    steps == [] ||
    (Runs(s, steps[..|steps| - 1], limits, K, tokens)
     && Enabled(After(s, steps[..|steps| - 1], limits, K, tokens), steps[|steps| - 1], limits, K))
  }

  ghost function After(s: Sys, steps: seq<Step>, limits: map<Key, int>, K: nat, tokens: nat): Sys
    requires Runs(s, steps, limits, K, tokens)
    decreases |steps|, 1
  {
    if steps == [] then s
    else Next(After(s, steps[..|steps| - 1], limits, K, tokens), steps[|steps| - 1], limits, K, tokens)
  }

  /** The call has read the key below its limit and may still charge it. */
  ghost predicate MayCharge(r: Racer, key: Key) {
    InFlight(r) && exists k :: r.charged <= k < |r.checks| && k < |r.raws| && r.checks[k].key == key
                     && r.raws[k] < r.checks[k].limit
  }

  ghost function Chargers(s: Sys, key: Key): set<nat> {
    set p | p in s.racers && MayCharge(s.racers[p], key)
  }

  ghost predicate RacerOk(r: Racer, limits: map<Key, int>) {
    && DistinctKeys(r.checks)
    && r.charged <= |r.checks| && |r.raws| <= |r.checks|
    && (forall k :: 0 <= k < |r.checks| ==> r.checks[k].key in limits && r.checks[k].limit == limits[r.checks[k].key])
    && (r.pc == Reading ==> r.charged == 0)
    && (r.pc in {Charging, Stamping} ==> |r.raws| == |r.checks| && UnderLimits(r))
  }

  /** The counter, and every charge that may still come, fit under limit + K - 1. */
  ghost predicate KeyOk(s: Sys, key: Key, limit: int, K: nat) {
    ValueOf(s, key) + |Chargers(s, key)| > 0 ==> ValueOf(s, key) + |Chargers(s, key)| <= limit + K - 1
  }

  ghost predicate Inv(s: Sys, limits: map<Key, int>, K: nat) {
    && |Flying(s)| <= K
    && (forall p :: p in s.racers ==> RacerOk(s.racers[p], limits))
    && (forall key :: key in s.values ==> s.values[key] >= 0)
    && (forall key :: key in limits && !key.Tok? ==> KeyOk(s, key, limits[key], K))
  }

  lemma ChargersFly(s: Sys, key: Key)
    ensures Chargers(s, key) <= Flying(s)
  {
  }

  /**
    One call moves without touching the counters: who may charge the key can only shrink, or gain the
    mover on a low read.
  */
  lemma MoveKeepsKey(s: Sys, s': Sys, p: nat, key: Key, limit: int, K: nat)
    requires KeyOk(s, key, limit, K) && ValueOf(s', key) == ValueOf(s, key) >= 0
    requires |Flying(s')| <= K && p in s'.racers && s'.racers == s.racers[p := s'.racers[p]]
    requires MayCharge(s'.racers[p], key) ==> (p in s.racers && MayCharge(s.racers[p], key)) || ValueOf(s, key) < limit
    ensures KeyOk(s', key, limit, K)
  {
    var c, c' := Chargers(s, key), Chargers(s', key);
    ChargersFly(s', key);
    SubsetCard(c', Flying(s'));
    if !MayCharge(s'.racers[p], key) || (p in s.racers && MayCharge(s.racers[p], key)) {
      assert c' <= c;
      SubsetCard(c', c);
    }
  }

  /** An INCR moves one unit from "may still charge" to the counter. */
  lemma IncrKeepsKey(s: Sys, s': Sys, p: nat, key: Key, limit: int, K: nat)
    requires KeyOk(s, key, limit, K) && ValueOf(s', key) == ValueOf(s, key) + 1
    requires p in s.racers && p in s'.racers && s'.racers == s.racers[p := s'.racers[p]]
    requires MayCharge(s.racers[p], key) && !MayCharge(s'.racers[p], key)
    ensures KeyOk(s', key, limit, K)
  {
    assert p in Chargers(s, key);
    assert Chargers(s', key) == Chargers(s, key) - {p};
  }

  lemma FlyingAfter(s: Sys, step: Step, limits: map<Key, int>, K: nat, tokens: nat)
    requires Enabled(s, step, limits, K) && |Flying(s)| <= K
    ensures |Flying(Next(s, step, limits, K, tokens))| <= K
  {
    var s' := Next(s, step, limits, K, tokens);
    if step.Begin? {
      assert Flying(s') == Flying(s) + {step.p};
    } else {
      assert Flying(s') <= Flying(s);
      SubsetCard(Flying(s'), Flying(s));
    }
  }

  lemma StepKeepsKey(s: Sys, step: Step, limits: map<Key, int>, K: nat, tokens: nat, key: Key)
    requires Inv(s, limits, K) && Enabled(s, step, limits, K) && key in limits && !key.Tok?
    ensures KeyOk(Next(s, step, limits, K, tokens), key, limits[key], K)
  {
    var s' := Next(s, step, limits, K, tokens);
    FlyingAfter(s, step, limits, K, tokens);
    assert KeyOk(s, key, limits[key], K);
    match step
    case Expire(k) =>
      assert s'.racers == s.racers && Chargers(s', key) == Chargers(s, key);
    case Incr(p) =>
      var r := s.racers[p];
      assert RacerOk(r, limits);
      if r.checks[r.charged].key == key {
        assert MayCharge(r, key);
        IncrKeepsKey(s, s', p, key, limits[key], K);
      } else {
        IncrElsewhere(r, s'.racers[p], key);
        MoveKeepsKey(s, s', p, key, limits[key], K);
      }
    case Get(p) =>
      assert RacerOk(s.racers[p], limits);
      GetAddsOnlyLow(s.racers[p], s'.racers[p], ValueOf(s, s.racers[p].checks[|s.racers[p].raws|].key), key);
      MoveKeepsKey(s, s', p, key, limits[key], K);
    case Begin(p, _) => MoveKeepsKey(s, s', p, key, limits[key], K);
    case Decide(p) =>
      assert MayCharge(s'.racers[p], key) ==> MayCharge(s.racers[p], key);
      MoveKeepsKey(s, s', p, key, limits[key], K);
    case Stamp(p) =>
      assert MayCharge(s'.racers[p], key) ==> MayCharge(s.racers[p], key);
      MoveKeepsKey(s, s', p, key, limits[key], K);
  }

  lemma IncrElsewhere(r: Racer, r': Racer, key: Key)
    requires InFlight(r) && r' == r.(charged := r.charged + 1, pc := r'.pc)
    ensures MayCharge(r', key) ==> MayCharge(r, key)
  {
  }

  lemma GetAddsOnlyLow(r: Racer, r': Racer, v: int, key: Key)
    requires InFlight(r) && |r.raws| < |r.checks| && r' == r.(raws := r.raws + [v])
    ensures MayCharge(r', key) && !MayCharge(r, key) ==> r.checks[|r.raws|].key == key && v < r.checks[|r.raws|].limit
  {
    if MayCharge(r', key) {
      var k :| r'.charged <= k < |r'.checks| && k < |r'.raws| && r'.checks[k].key == key
          && r'.raws[k] < r'.checks[k].limit;
      if k < |r.raws| {
        assert r'.raws[k] == r.raws[k];
      }
    }
  }

  lemma StepKeepsRacers(s: Sys, step: Step, limits: map<Key, int>, K: nat, tokens: nat)
    requires Inv(s, limits, K) && Enabled(s, step, limits, K)
    ensures var s' := Next(s, step, limits, K, tokens);
      && (forall p :: p in s'.racers ==> RacerOk(s'.racers[p], limits))
      && (forall key :: key in s'.values ==> s'.values[key] >= 0)
  {
    if !step.Begin? && !step.Expire? {
      assert RacerOk(s.racers[step.p], limits);
    }
  }

  lemma StepKeepsInv(s: Sys, step: Step, limits: map<Key, int>, K: nat, tokens: nat)
    requires Inv(s, limits, K) && Enabled(s, step, limits, K)
    ensures Inv(Next(s, step, limits, K, tokens), limits, K)
  {
    FlyingAfter(s, step, limits, K, tokens);
    StepKeepsRacers(s, step, limits, K, tokens);
    forall key | key in limits && !key.Tok?
      ensures KeyOk(Next(s, step, limits, K, tokens), key, limits[key], K)
    {
      StepKeepsKey(s, step, limits, K, tokens, key);
    }
  }

  lemma {:induction false} RunKeepsInv(s: Sys, steps: seq<Step>, limits: map<Key, int>, K: nat, tokens: nat)
    requires Inv(s, limits, K) && Runs(s, steps, limits, K, tokens)
    ensures Inv(After(s, steps, limits, K, tokens), limits, K)
  {
    if steps != [] {
      RunKeepsInv(s, steps[..|steps| - 1], limits, K, tokens);
      StepKeepsInv(After(s, steps[..|steps| - 1], limits, K, tokens), steps[|steps| - 1], limits, K, tokens);
    }
  }

  /**
    With at most K calls in flight, no interleaving of their reads, checks and charges with each
    other and with expiries lifts a request counter above limit + K - 1; with one call at a time
    it stays within the limit.
  */
  lemma RaceBound(steps: seq<Step>, limits: map<Key, int>, K: nat, tokens: nat, key: Key)
    requires Runs(Sys(map[], map[]), steps, limits, K, tokens)
    requires key in limits && !key.Tok? && limits[key] >= 1 && K >= 1
    ensures ValueOf(After(Sys(map[], map[]), steps, limits, K, tokens), key) <= limits[key] + K - 1
  {
    var s0 := Sys(map[], map[]);
    assert Flying(s0) == {};
    forall k | k in limits && !k.Tok?
      ensures KeyOk(s0, k, limits[k], K)
    {
      assert Chargers(s0, k) == {};
    }
    RunKeepsInv(s0, steps, limits, K, tokens);
    var s := After(s0, steps, limits, K, tokens);
    assert KeyOk(s, key, limits[key], K);
  }

  // ---- the bound is reached ------------------------------------------------------------------

  /** Extends a run by one step. */
  lemma Go(s0: Sys, steps: seq<Step>, step: Step, limits: map<Key, int>, K: nat, tokens: nat)
      returns (more: seq<Step>, s: Sys)
    requires Runs(s0, steps, limits, K, tokens) && Enabled(After(s0, steps, limits, K, tokens), step, limits, K)
    ensures more == steps + [step] && Runs(s0, more, limits, K, tokens)
    ensures s == After(s0, more, limits, K, tokens)
        == Next(After(s0, steps, limits, K, tokens), step, limits, K, tokens)
  {
    more := steps + [step];
    assert more[..|steps|] == steps;
    s := After(s0, more, limits, K, tokens);
  }

  function Range(low: nat, n: nat): (r: set<nat>)
    ensures (forall p :: p in r <==> low <= p < low + n) && |r| == n
  {
    if n == 0 then {} else Range(low, n - 1) + {low + n - 1}
  }

  /** A table of checks that agrees with the limits, all of them positive. */
  ghost predicate Fits(cs: seq<Check>, limits: map<Key, int>) {
    && DistinctKeys(cs) && cs != []
    && (forall j :: 0 <= j < |cs| ==> cs[j].key in limits && cs[j].limit == limits[cs[j].key] && cs[j].limit >= 1)
  }

  /** The counters of the table are at vs, those of its first i entries charged once more, with no tokens. */
  ghost predicate Level(s: Sys, cs: seq<Check>, vs: seq<int>, i: nat) {
    |vs| == |cs| &&
    forall j :: 0 <= j < |cs| ==> ValueOf(s, cs[j].key) == vs[j] + if j < i then Amount(cs[j].key, 0) else 0
  }

  /** All counters of the table charged once more. */
  function Raised(cs: seq<Check>, vs: seq<int>): (r: seq<int>)
    requires |vs| == |cs|
    ensures |r| == |cs| && forall j :: 0 <= j < |cs| ==> r[j] == vs[j] + Amount(cs[j].key, 0)
  {
    seq(|cs|, j requires 0 <= j < |cs| => vs[j] + Amount(cs[j].key, 0))
  }

  predicate BelowLimits(cs: seq<Check>, vs: seq<int>) {
    |vs| == |cs| && forall j :: 0 <= j < |cs| ==> vs[j] < cs[j].limit
  }

  function With(s: Sys, p: nat, r: Racer): Sys {
    s.(racers := s.racers[p := r])
  }

  lemma WithTwice(s: Sys, p: nat, a: Racer, b: Racer)
    ensures With(With(s, p, a), p, b) == With(s, p, b)
  {
    assert s.racers[p := a][p := b] == s.racers[p := b];
  }

  /** A call that has read its first i counters reads the rest. */
  lemma {:induction false} ReadsOn(s0: Sys, h: seq<Step>, s: Sys, p: nat, cs: seq<Check>, limits: map<Key, int>, K: nat,
                                   vs: seq<int>, i: nat)
      returns (h': seq<Step>)
    requires i <= |cs| && Level(s, cs, vs, 0) && Runs(s0, h, limits, K, 0)
    requires After(s0, h, limits, K, 0) == With(s, p, Racer(cs, vs[..i], 0, Reading))
    ensures Runs(s0, h', limits, K, 0) && After(s0, h', limits, K, 0) == With(s, p, Racer(cs, vs, 0, Reading))
    decreases |cs| - i
  {
    if i == |cs| {
      assert vs[..i] == vs;
      h' := h;
    } else {
      var a, b := Racer(cs, vs[..i], 0, Reading), Racer(cs, vs[..i + 1], 0, Reading);
      assert vs[..i] + [vs[i]] == vs[..i + 1];
      assert ValueOf(With(s, p, a), cs[i].key) == vs[i];
      WithTwice(s, p, a, b);
      var t;
      h', t := Go(s0, h, Get(p), limits, K, 0);
      h' := ReadsOn(s0, h', s, p, cs, limits, K, vs, i + 1);
    }
  }

  /** A new call begins, reads every counter below its limit, and decides to charge. */
  lemma BeginRun(s0: Sys, h: seq<Step>, p: nat, cs: seq<Check>, limits: map<Key, int>, K: nat, vs: seq<int>)
      returns (h': seq<Step>)
    requires Fits(cs, limits) && BelowLimits(cs, vs) && Runs(s0, h, limits, K, 0)
    requires var s := After(s0, h, limits, K, 0); p !in s.racers && |Flying(s)| < K && Level(s, cs, vs, 0)
    ensures Runs(s0, h', limits, K, 0)
    ensures After(s0, h', limits, K, 0) == With(After(s0, h, limits, K, 0), p, Racer(cs, vs, 0, Charging))
  {
    var s, t := After(s0, h, limits, K, 0), After(s0, h, limits, K, 0);
    h', t := Go(s0, h, Begin(p, cs), limits, K, 0);
    assert vs[..0] == [];
    h' := ReadsOn(s0, h', s, p, cs, limits, K, vs, 0);
    var r := Racer(cs, vs, 0, Reading);
    assert UnderLimits(r);
    h', t := Go(s0, h', Decide(p), limits, K, 0);
    WithTwice(s, p, r, Racer(cs, vs, 0, Charging));
  }

  /** A call that has read us and charged its first i counters. */
  function Charger(cs: seq<Check>, us: seq<int>, i: nat): Racer {
    Racer(cs, us, i, if i < |cs| then Charging else Finished(true))
  }

  /** The state after one INCR. */
  lemma IncrState(s: Sys, p: nat, cs: seq<Check>, limits: map<Key, int>, K: nat, us: seq<int>, vs: seq<int>, i: nat)
    requires DistinctKeys(cs) && i < |cs| == |us| && p in s.racers && s.racers[p] == Charger(cs, us, i)
        && Level(s, cs, vs, i)
    ensures Enabled(s, Incr(p), limits, K)
    ensures var t := Next(s, Incr(p), limits, K, 0);
      && t.racers == s.racers[p := Charger(cs, us, i + 1).(
                                pc := if us[i] == 0 then Stamping else Charger(cs, us, i + 1).pc)]
      && Level(t, cs, vs, i + 1)
  {
    var t := Next(s, Incr(p), limits, K, 0);
    forall j | 0 <= j < |cs|
      ensures ValueOf(t, cs[j].key) == vs[j] + if j < i + 1 then Amount(cs[j].key, 0) else 0
    {
      assert j != i ==> cs[j].key != cs[i].key;
    }
  }

  /** One charge, with its expiry when the counter was read as 0. */
  lemma ChargeOnce(s0: Sys, h: seq<Step>, p: nat, cs: seq<Check>, limits: map<Key, int>, K: nat, us: seq<int>,
      vs: seq<int>, i: nat)
      returns (h': seq<Step>)
    requires DistinctKeys(cs) && i < |cs| == |us| && Runs(s0, h, limits, K, 0)
    requires var s := After(s0, h, limits, K, 0);
      p in s.racers && s.racers[p] == Charger(cs, us, i) && Level(s, cs, vs, i)
    ensures Runs(s0, h', limits, K, 0)
    ensures var s, t := After(s0, h, limits, K, 0), After(s0, h', limits, K, 0);
      t.racers == s.racers[p := Charger(cs, us, i + 1)] && Level(t, cs, vs, i + 1)
  {
    var s, t := After(s0, h, limits, K, 0), After(s0, h, limits, K, 0);
    IncrState(s, p, cs, limits, K, us, vs, i);
    h', t := Go(s0, h, Incr(p), limits, K, 0);
    if us[i] == 0 {
      var stamping := Charger(cs, us, i + 1).(pc := Stamping);
      h', t := Go(s0, h', Stamp(p), limits, K, 0);
      assert s.racers[p := stamping][p := Charger(cs, us, i + 1)] == s.racers[p := Charger(cs, us, i + 1)];
    }
  }

  /** A call that is about to charge its i-th counter charges the rest. */
  lemma {:induction false} ChargesOn(s0: Sys, h: seq<Step>, p: nat, cs: seq<Check>, limits: map<Key, int>, K: nat,
                                     us: seq<int>, vs: seq<int>, i: nat)
      returns (h': seq<Step>)
    requires DistinctKeys(cs) && i <= |cs| == |us| && Runs(s0, h, limits, K, 0)
    requires var s := After(s0, h, limits, K, 0);
      p in s.racers && s.racers[p] == Charger(cs, us, i) && Level(s, cs, vs, i)
    ensures Runs(s0, h', limits, K, 0)
    ensures var s, t := After(s0, h, limits, K, 0), After(s0, h', limits, K, 0);
      t.racers == s.racers[p := Charger(cs, us, |cs|)] && Level(t, cs, Raised(cs, vs), 0)
    decreases |cs| - i
  {
    var s := After(s0, h, limits, K, 0);
    if i == |cs| {
      h' := h;
      assert s.racers == s.racers[p := Charger(cs, us, |cs|)];
    } else {
      h' := ChargeOnce(s0, h, p, cs, limits, K, us, vs, i);
      assert s.racers[p := Charger(cs, us, i + 1)][p := Charger(cs, us, |cs|)] == s.racers[p := Charger(cs, us, |cs|)];
      h' := ChargesOn(s0, h', p, cs, limits, K, us, vs, i + 1);
    }
  }

  /** Calls up to `low` have ended; the next n have read us and are about to charge; the counters are at vs. */
  ghost predicate Crowd(s: Sys, cs: seq<Check>, us: seq<int>, vs: seq<int>, low: nat, n: nat) {
    && |us| == |cs| && Level(s, cs, vs, 0)
    && (forall p: nat :: p in s.racers <==> p < low + n)
    && (forall p :: p in s.racers ==> if p < low then s.racers[p].pc.Finished? else s.racers[p] == Charger(cs, us, 0))
  }

  lemma RoomForOne(s: Sys, cs: seq<Check>, us: seq<int>, vs: seq<int>, low: nat, n: nat, K: nat)
    requires Crowd(s, cs, us, vs, low, n) && n < K
    ensures |Flying(s)| < K && low + n !in s.racers
  {
    forall p | p in Flying(s)
      ensures p in Range(low, n)
    {
    }
    SubsetCard(Flying(s), Range(low, n));
  }

  lemma CrowdGrows(s: Sys, cs: seq<Check>, us: seq<int>, vs: seq<int>, low: nat, n: nat)
    requires Crowd(s, cs, us, vs, low, n)
    ensures Crowd(With(s, low + n, Charger(cs, us, 0)), cs, us, vs, low, n + 1)
  {
    var t := With(s, low + n, Charger(cs, us, 0));
    assert forall j :: 0 <= j < |cs| ==> ValueOf(t, cs[j].key) == ValueOf(s, cs[j].key);
  }

  lemma JoinCrowd(s0: Sys, h: seq<Step>, cs: seq<Check>, limits: map<Key, int>, K: nat, vs: seq<int>, low: nat, n: nat)
      returns (h': seq<Step>)
    requires Fits(cs, limits) && BelowLimits(cs, vs) && n < K
    requires Runs(s0, h, limits, K, 0) && Crowd(After(s0, h, limits, K, 0), cs, vs, vs, low, n)
    ensures Runs(s0, h', limits, K, 0) && Crowd(After(s0, h', limits, K, 0), cs, vs, vs, low, n + 1)
  {
    RoomForOne(After(s0, h, limits, K, 0), cs, vs, vs, low, n, K);
    CrowdGrows(After(s0, h, limits, K, 0), cs, vs, vs, low, n);
    h' := BeginRun(s0, h, low + n, cs, limits, K, vs);
  }

  lemma LeaveCrowd(s0: Sys, h: seq<Step>, cs: seq<Check>, limits: map<Key, int>, K: nat, us: seq<int>, vs: seq<int>,
      low: nat, n: nat)
      returns (h': seq<Step>)
    requires DistinctKeys(cs) && cs != [] && n > 0
    requires Runs(s0, h, limits, K, 0) && Crowd(After(s0, h, limits, K, 0), cs, us, vs, low, n)
    ensures Runs(s0, h', limits, K, 0) && Crowd(After(s0, h', limits, K, 0), cs, us, Raised(cs, vs), low + 1, n - 1)
  {
    h' := ChargesOn(s0, h, low, cs, limits, K, us, vs, 0);
  }

  /** With nobody else in flight, what the calls that have ended once read does not matter. */
  lemma EmptyCrowd(s: Sys, cs: seq<Check>, us: seq<int>, vs: seq<int>, low: nat, us': seq<int>)
    requires Crowd(s, cs, us, vs, low, 0) && |us'| == |cs|
    ensures Crowd(s, cs, us', vs, low, 0)
  {
  }

  /** All counters at 0 but the k-th. */
  function Only(cs: seq<Check>, k: nat, v: int): (vs: seq<int>)
    ensures |vs| == |cs| && forall j :: 0 <= j < |cs| ==> vs[j] == if j == k then v else 0
  {
    seq(|cs|, j => if j == k then v else 0)
  }

  /** All counters but the k-th expire, the first j of them having done so already. */
  lemma {:induction false} OthersExpire(s0: Sys, h: seq<Step>, cs: seq<Check>, limits: map<Key, int>, K: nat,
                                        vs: seq<int>, low: nat, k: nat, j: nat)
      returns (h': seq<Step>)
    requires DistinctKeys(cs) && k < |cs| && j <= |cs|
    requires Runs(s0, h, limits, K, 0) && Crowd(After(s0, h, limits, K, 0), cs, vs, vs, low, 0)
    requires forall i :: 0 <= i < j && i != k ==> vs[i] == 0
    ensures Runs(s0, h', limits, K, 0)
    ensures Crowd(After(s0, h', limits, K, 0), cs, Only(cs, k, vs[k]), Only(cs, k, vs[k]), low, 0)
    decreases |cs| - j
  {
    var s := After(s0, h, limits, K, 0);
    if j == |cs| {
      h' := h;
      assert vs == Only(cs, k, vs[k]);
    } else if j == k || cs[j].key !in s.values {
      h' := OthersExpire(s0, h, cs, limits, K, vs, low, k, j + 1);
    } else {
      var t, ws;
      h', t := Go(s0, h, Expire(cs[j].key), limits, K, 0);
      ws := vs[j := 0];
      ExpiryKeepsCrowd(s, t, cs, vs, low, j);
      h' := OthersExpire(s0, h', cs, limits, K, ws, low, k, j + 1);
    }
  }

  lemma ExpiryKeepsCrowd(s: Sys, t: Sys, cs: seq<Check>, vs: seq<int>, low: nat, j: nat)
    requires DistinctKeys(cs) && j < |cs| && Crowd(s, cs, vs, vs, low, 0)
    requires t == s.(values := s.values - {cs[j].key})
    ensures Crowd(t, cs, vs[j := 0], vs[j := 0], low, 0)
  {
    forall i | 0 <= i < |cs|
      ensures ValueOf(t, cs[i].key) == vs[j := 0][i]
    {
      assert i != j ==> cs[i].key != cs[j].key;
    }
  }

  /** n calls one after the other bring the k-th counter to n, the others expiring in between. */
  lemma {:induction false} Serially(cs: seq<Check>, limits: map<Key, int>, K: nat, k: nat, n: nat)
      returns (h: seq<Step>)
    requires Fits(cs, limits) && k < |cs| && !cs[k].key.Tok? && n < cs[k].limit && K >= 1
    ensures Runs(Sys(map[], map[]), h, limits, K, 0)
    ensures Crowd(After(Sys(map[], map[]), h, limits, K, 0), cs, Only(cs, k, n), Only(cs, k, n), n, 0)
    decreases n
  {
    var s0 := Sys(map[], map[]);
    if n == 0 {
      h := [];
    } else {
      var vs := Only(cs, k, n - 1);
      h := Serially(cs, limits, K, k, n - 1);
      h := JoinCrowd(s0, h, cs, limits, K, vs, n - 1, 0);
      h := LeaveCrowd(s0, h, cs, limits, K, vs, vs, n - 1, 1);
      EmptyCrowd(After(s0, h, limits, K, 0), cs, vs, Raised(cs, vs), n, Raised(cs, vs));
      h := OthersExpire(s0, h, cs, limits, K, Raised(cs, vs), n, k, 0);
    }
  }

  /** Then n calls read the k-th counter one below its limit. */
  lemma {:induction false} Gathered(cs: seq<Check>, limits: map<Key, int>, K: nat, k: nat, n: nat)
      returns (h: seq<Step>)
    requires Fits(cs, limits) && k < |cs| && !cs[k].key.Tok? && K >= 1 && n <= K
    ensures var vs := Only(cs, k, cs[k].limit - 1);
      && Runs(Sys(map[], map[]), h, limits, K, 0)
      && Crowd(After(Sys(map[], map[]), h, limits, K, 0), cs, vs, vs, cs[k].limit - 1, n)
    decreases n
  {
    if n == 0 {
      h := Serially(cs, limits, K, k, cs[k].limit - 1);
    } else {
      h := Gathered(cs, limits, K, k, n - 1);
      h := JoinCrowd(Sys(map[], map[]), h, cs, limits, K, Only(cs, k, cs[k].limit - 1), cs[k].limit - 1, n - 1);
    }
  }

  /** And n of K such calls charge it. */
  lemma {:induction false} Scattered(cs: seq<Check>, limits: map<Key, int>, K: nat, k: nat, n: nat)
      returns (h: seq<Step>, vs: seq<int>)
    requires Fits(cs, limits) && k < |cs| && !cs[k].key.Tok? && K >= 1 && n <= K
    ensures |vs| == |cs| && vs[k] == cs[k].limit - 1 + n
    ensures Runs(Sys(map[], map[]), h, limits, K, 0)
    ensures Crowd(After(Sys(map[], map[]), h, limits, K, 0), cs, Only(cs, k, cs[k].limit - 1), vs,
                  cs[k].limit - 1 + n, K - n)
    decreases n
  {
    var us := Only(cs, k, cs[k].limit - 1);
    if n == 0 {
      h := Gathered(cs, limits, K, k, K);
      vs := us;
    } else {
      h, vs := Scattered(cs, limits, K, k, n - 1);
      h := LeaveCrowd(Sys(map[], map[]), h, cs, limits, K, us, vs, cs[k].limit - 2 + n, K - n + 1);
      vs := Raised(cs, vs);
    }
  }

  /**
    The bound is reached for every K, by calls of the real table, on each of its request counters: K
    calls read it one below its limit, and all of them charge it, the other counters having expired.
  */
  lemma RaceBoundIsTight(uid: string, ip: Option<string>, l: Limits, limits: map<Key, int>, K: nat, k: nat)
    requires l.Complete() && K >= 1 && Fits(Checks(uid, ip, l), limits)
    requires k < |Checks(uid, ip, l)| && !Checks(uid, ip, l)[k].key.Tok?
    ensures var c := Checks(uid, ip, l)[k];
      exists steps :: Runs(Sys(map[], map[]), steps, limits, K, 0)
        && ValueOf(After(Sys(map[], map[]), steps, limits, K, 0), c.key) == c.limit + K - 1
  {
    var h, vs := Scattered(Checks(uid, ip, l), limits, K, k, K);
  }
}
