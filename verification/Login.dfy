/**
  The login throttle: the Redis keys of src/auth/rate_limit.py for one email and one address, and
  the order of checks in the login endpoint (src/api/routers/auth.py).  Times are whole seconds.
*/
module Login {
  import opened Prelude

  const WINDOW := 900
  const THRESHOLD := 10
  const SOFT_LOCK := 5

  /** A counter with its expiry. */
  datatype Counter = Counter(count: nat, deadline: int)

  /** The failure counter, the lockout key's expiry, and the address counter. */
  datatype Keys = Keys(failures: Option<Counter>, lock: Option<int>, ip: Option<Counter>)

  const NO_KEYS := Keys(None, None, None)

  datatype Outcome = IpLimited429 | Locked429(retry: int) | EmailLimited429(retry: int) | Wrong401 | Error500 | Ok200

  /** One login: when, and whether the password is the right one. */
  datatype Attempt = Attempt(at: int, correct: bool)

  function Failures(k: Keys, now: int): nat {
    if k.failures.Some? && now < k.failures.value.deadline then k.failures.value.count else 0
  }

  predicate Locked(k: Keys, now: int) {
    k.lock.Some? && now < k.lock.value
  }

  /** INCR, with the expiry set on the first one. */
  function CountedFailure(k: Keys, now: int): Counter {
    var n := Failures(k, now);
    if n == 0 then Counter(1, now + WINDOW) else Counter(n + 1, k.failures.value.deadline)
  }

  /** A failed password; minutes: AUTH_LOCKOUT_MINUTES.  SET with a non-positive expiry is an error. */
  function Failed(k: Keys, now: int, minutes: int): (Keys, Outcome) {
    var c := CountedFailure(k, now);
    var counted := k.(failures := Some(c));
    if c.count < SOFT_LOCK then (counted, Wrong401)
    else if minutes <= 0 then (counted, Error500)
    else (counted.(lock := Some(now + minutes * 60)), Wrong401)
  }

  function Step(k: Keys, a: Attempt, minutes: int): (Keys, Outcome) {
    if k.ip.Some? && a.at < k.ip.value.deadline && k.ip.value.count >= THRESHOLD then (k, IpLimited429)
    else if Locked(k, a.at) then (k, Locked429(k.lock.value - a.at))
    else if Failures(k, a.at) >= THRESHOLD then (k, EmailLimited429(k.failures.value.deadline - a.at))
    else if a.correct then (k.(failures := None, lock := None), Ok200)
    else Failed(k, a.at, minutes)
  }

  /** The attempt got as far as comparing the password. */
  predicate Checked(o: Outcome) {
    o.Wrong401? || o.Error500? || o.Ok200?
  }

  class Throttle {
    var keys: Keys

    constructor ()
      ensures keys == NO_KEYS
    {
      keys := NO_KEYS;
    }

    method CheckIp(now: int) returns (ok: bool, retry: int)
      ensures ok == !(keys.ip.Some? && now < keys.ip.value.deadline && keys.ip.value.count >= 10)
      ensures retry == if ok then 0 else keys.ip.value.deadline - now
    {
      if keys.ip.Some? && now < keys.ip.value.deadline && keys.ip.value.count >= THRESHOLD {
        return false, keys.ip.value.deadline - now;
      }
      return true, 0;
    }

    method IsLocked(now: int) returns (locked: bool, retry: int)
      ensures locked == Locked(keys, now)
      ensures retry == (if locked then keys.lock.value - now else 0) && (locked <==> retry > 0)
    {
      var ttl := if keys.lock.Some? then keys.lock.value - now else -2;
      if ttl > 0 {
        return true, ttl;
      }
      return false, 0;
    }

    method CheckEmail(now: int) returns (ok: bool, retry: int)
      ensures ok <==> Failures(keys, now) < 10
      ensures retry == if ok then 0 else keys.failures.value.deadline - now
    {
      if keys.failures.Some? && now < keys.failures.value.deadline && keys.failures.value.count >= THRESHOLD {
        return false, keys.failures.value.deadline - now;
      }
      return true, 0;
    }

    method RecordFailed(now: int, minutes: int) returns (ok: bool)
      modifies this
      ensures (keys, if ok then Wrong401 else Error500) == Failed(old(keys), now, minutes)
    {
      var live := keys.failures.Some? && now < keys.failures.value.deadline;
      var count := (if live then keys.failures.value.count else 0) + 1;
      var deadline := if live then keys.failures.value.deadline else 0;
      if count == 1 {
        deadline := now + WINDOW;
      }
      keys := keys.(failures := Some(Counter(count, deadline)));
      if count >= SOFT_LOCK {
        if minutes <= 0 {
          return false;
        }
        keys := keys.(lock := Some(now + minutes * 60));
      }
      return true;
    }

    method Reset()
      modifies this
      ensures keys == old(keys).(failures := None, lock := None)
    {
      keys := keys.(failures := None, lock := None);
    }

    /** The login endpoint up to issuing tokens. */
    method LogIn(a: Attempt, minutes: int) returns (o: Outcome)
      modifies this
      ensures (keys, o) == Step(old(keys), a, minutes)
      ensures keys.ip == old(keys.ip)
    {
      var ipOk, _ := CheckIp(a.at);
      if !ipOk {
        return IpLimited429;
      }
      var locked, lockRetry := IsLocked(a.at);
      if locked {
        return Locked429(lockRetry);
      }
      var emailOk, emailRetry := CheckEmail(a.at);
      if !emailOk {
        return EmailLimited429(emailRetry);
      }
      if !a.correct {
        var ok := RecordFailed(a.at, minutes);
        return if ok then Wrong401 else Error500;
      }
      Reset();
      return Ok200;
    }
  }

  // ---- serial runs ---------------------------------------------------------------------------

  /** The keys after a run that starts with none. */
  function After(attempts: seq<Attempt>, minutes: int): Keys {
    if attempts == [] then NO_KEYS
        else Step(After(attempts[..|attempts| - 1], minutes), attempts[|attempts| - 1], minutes).0
  }

  /** The answer to the i-th attempt. */
  function Answer(attempts: seq<Attempt>, minutes: int, i: nat): Outcome
    requires i < |attempts|
  {
    Step(After(attempts[..i], minutes), attempts[i], minutes).1
  }

  predicate InTime(attempts: seq<Attempt>) {
    forall i, j :: 0 <= i <= j < |attempts| ==> attempts[i].at <= attempts[j].at
  }

  /** The counter never exceeds ten, for any lockout setting, and the address check never denies. */
  lemma {:induction false} NeverOverTen(attempts: seq<Attempt>, minutes: int)
    ensures var k := After(attempts, minutes); (k.failures.Some? ==> 1 <= k.failures.value.count <= 10) && k.ip == None
    ensures attempts != [] ==> !Answer(attempts, minutes, |attempts| - 1).IpLimited429?
  {
    if attempts != [] {
      NeverOverTen(attempts[..|attempts| - 1], minutes);
    }
  }

  /** With a lockout at least as long as the window, a fifth failure locks for the rest of the counter's life. */
  ghost predicate LockCovers(k: Keys) {
    k.failures.Some? ==>
      k.failures.value.count <= 5
      && (k.failures.value.count == 5 ==> k.lock.Some? && k.failures.value.deadline <= k.lock.value)
  }

  lemma {:induction false} LockCoversLife(attempts: seq<Attempt>, minutes: int)
    requires InTime(attempts) && minutes * 60 >= WINDOW
    ensures var k := After(attempts, minutes);
      LockCovers(k) && (k.failures.Some?
          ==> attempts != [] && k.failures.value.deadline <= attempts[|attempts| - 1].at + WINDOW)
    ensures attempts != [] ==> !Answer(attempts, minutes, |attempts| - 1).EmailLimited429?
  {
    if attempts != [] {
      LockCoversLife(attempts[..|attempts| - 1], minutes);
    }
  }

  lemma AfterAppend(attempts: seq<Attempt>, a: Attempt, minutes: int)
    ensures After(attempts + [a], minutes) == Step(After(attempts, minutes), a, minutes).0
  {
    assert (attempts + [a])[..|attempts|] == attempts;
  }

  lemma AfterGoes(attempts: seq<Attempt>, a: Attempt, minutes: int, k: Keys, k': Keys)
    requires After(attempts, minutes) == k && Step(k, a, minutes).0 == k'
    ensures After(attempts + [a], minutes) == k'
  {
    AfterAppend(attempts, a, minutes);
  }

  /** n wrong passwords at time 0. */
  function Burst(n: nat): (attempts: seq<Attempt>)
    ensures |attempts| == n && forall k :: 0 <= k < n ==> attempts[k] == Attempt(0, false)
  {
    if n == 0 then [] else Burst(n - 1) + [Attempt(0, false)]
  }

  /** The keys after n failures at time 0. */
  function BurstKeys(n: nat, minutes: int): Keys {
    if n == 0 then NO_KEYS
    else Keys(Some(Counter(n, 900)), if n < 5 || minutes <= 0 then None else Some(minutes * 60), None)
  }

  lemma BurstStep(n: nat, minutes: int)
    requires n <= 4 || (minutes <= 0 && n <= 9)
    ensures Step(BurstKeys(n, minutes), Attempt(0, false), minutes).0 == BurstKeys(n + 1, minutes)
  {
  }

  lemma {:induction false} BurstCounts(n: nat, minutes: int)
    requires n <= 5 || (minutes <= 0 && n <= 10)
    ensures After(Burst(n), minutes) == BurstKeys(n, minutes)
  {
    if n == 0 {
      assert Burst(0) == [];
    } else {
      var a := Attempt(0, false);
      BurstCounts(n - 1, minutes);
      BurstStep(n - 1, minutes);
      AfterGoes(Burst(n - 1), a, minutes, BurstKeys(n - 1, minutes), BurstKeys(n, minutes));
      assert Burst(n) == Burst(n - 1) + [a];
    }
  }

  /** Five failures at once and one when the lock ends make six, if the counter lives that long. */
  lemma SixthFailureCounts(minutes: int)
    requires 0 < minutes && minutes * 60 < WINDOW
    ensures var six := Burst(5) + [Attempt(minutes * 60, false)];
      InTime(six) && Failures(After(six, minutes), minutes * 60) == 6
  {
    BurstCounts(5, minutes);
    AfterAppend(Burst(5), Attempt(minutes * 60, false), minutes);
  }

  /**
    The counter stays at five or below in every run exactly when the lockout is at least the
    15-minute window.
  */
  lemma StaysAtFiveIff(minutes: int)
    ensures minutes * 60 >= 900
       <==> forall attempts: seq<Attempt>, now :: InTime(attempts) ==> Failures(After(attempts, minutes), now) <= 5
  {
    if minutes * 60 >= 900 {
      forall attempts: seq<Attempt>, now | InTime(attempts)
        ensures Failures(After(attempts, minutes), now) <= 5
      {
        LockCoversLife(attempts, minutes);
      }
    } else if minutes <= 0 {
      BurstCounts(6, minutes);
      assert InTime(Burst(6)) && Failures(After(Burst(6), minutes), 0) == 6;
    } else {
      SixthFailureCounts(minutes);
      var six := Burst(5) + [Attempt(minutes * 60, false)];
      assert InTime(six);
    }
  }

  // ---- the limit of ten ----------------------------------------------------------------------

  /**
    The counted failures from the fifth on are a lockout apart and within one life, so with `gap`
    seconds of lockout their number is bounded by the life's 900 seconds.
  */
  ghost predicate Apart(k: Keys, gap: int) {
    k.failures.Some? && k.failures.value.count >= 5 ==>
      && k.lock.Some?
      && (k.failures.value.count - 5) * gap <= (k.lock.value - gap) - (k.failures.value.deadline - WINDOW)
      && k.lock.value - gap < k.failures.value.deadline
  }

  lemma StepKeepsApart(k: Keys, a: Attempt, minutes: int)
    requires minutes > 0 && Apart(k, minutes * 60) && k.ip == None
    requires k.failures.Some? ==> k.failures.value.deadline - WINDOW <= a.at
    ensures var k' := Step(k, a, minutes).0;
      Apart(k', minutes * 60) && (k'.failures.Some? ==> k'.failures.value.deadline - WINDOW <= a.at)
  {
    var gap := minutes * 60;
    var k' := Step(k, a, minutes).0;
    if k'.failures.Some? && k'.failures.value.count > 5 && k' != k {
      var n := k.failures.value.count;
      assert (n - 4) * gap == (n - 5) * gap + gap;
    }
  }

  lemma {:induction false} FailuresStayApart(attempts: seq<Attempt>, minutes: int)
    requires InTime(attempts) && minutes > 0
    ensures var k := After(attempts, minutes);
      && Apart(k, minutes * 60) && k.ip == None
      && (k.failures.Some? ==> attempts != [] && k.failures.value.deadline - WINDOW <= attempts[|attempts| - 1].at)
  {
    if attempts != [] {
      var init := attempts[..|attempts| - 1];
      FailuresStayApart(init, minutes);
      NeverOverTen(init, minutes);
      assert init != [] ==> init[|init| - 1].at <= attempts[|attempts| - 1].at;
      StepKeepsApart(After(init, minutes), attempts[|attempts| - 1], minutes);
    }
  }

  lemma AtMostFour(n: int, gap: int)
    ensures n * gap < 900 && gap >= 180 ==> n < 5
  {
    if n >= 5 && gap >= 180 {
      assert (n - 5) * gap >= 0;
    }
  }

  /** Three minutes leave room for four more failures in a life after the fifth. */
  lemma NeverTen(attempts: seq<Attempt>, minutes: int, i: nat)
    requires InTime(attempts) && minutes >= 3 && i < |attempts|
    ensures !Answer(attempts, minutes, i).EmailLimited429?
  {
    var k, gap := After(attempts[..i], minutes), minutes * 60;
    FailuresStayApart(attempts[..i], minutes);
    if k.failures.Some? {
      AtMostFour(k.failures.value.count - 5, gap);
    }
  }

  /** The five failures that lock, and then n more, each as the lock ends. */
  function Ladder(n: nat, gap: nat): (attempts: seq<Attempt>)
    ensures |attempts| == 5 + n && attempts[|attempts| - 1].at == n * gap
  {
    if n == 0 then Burst(5) else Ladder(n - 1, gap) + [Attempt(n * gap, false)]
  }

  lemma {:induction false} LadderInTime(n: nat, gap: nat)
    ensures InTime(Ladder(n, gap))
  {
    if n > 0 {
      LadderInTime(n - 1, gap);
      assert n * gap == (n - 1) * gap + gap;
      var init := Ladder(n - 1, gap);
      assert forall i :: 0 <= i < |init| ==> init[i].at <= init[|init| - 1].at;
    }
  }

  /** The keys after the n-th rung. */
  function LadderKeys(n: nat, gap: nat): Keys {
    Keys(Some(Counter(5 + n, 900)), Some(n * gap + gap), None)
  }

  lemma LadderStep(n: nat, minutes: int)
    requires 0 < minutes <= 2 && n < 5
    ensures Step(LadderKeys(n, minutes * 60), Attempt((n + 1) * (minutes * 60), false), minutes).0
        == LadderKeys(n + 1, minutes * 60)
  {
    var gap := minutes * 60;
    assert (n + 1) * gap == n * gap + gap;
    assert (n + 1) * gap <= 5 * gap by {
      assert (4 - n) * gap >= 0;
    }
  }

  lemma {:induction false} LadderCounts(n: nat, minutes: int)
    requires 0 < minutes <= 2 && n <= 5
    ensures After(Ladder(n, minutes * 60), minutes) == LadderKeys(n, minutes * 60)
  {
    if n == 0 {
      BurstCounts(5, minutes);
    } else {
      LadderCounts(n - 1, minutes);
      LadderStep(n - 1, minutes);
      var a := Attempt(n * (minutes * 60), false);
      AfterGoes(Ladder(n - 1, minutes * 60), a, minutes, LadderKeys(n - 1, minutes * 60), LadderKeys(n, minutes * 60));
      assert Ladder(n, minutes * 60) == Ladder(n - 1, minutes * 60) + [a];
    }
  }

  /** Attempts of which the last is the one that meets the limit. */
  ghost predicate MeetsTheLimit(attempts: seq<Attempt>, minutes: int) {
    InTime(attempts) && attempts != [] && Answer(attempts, minutes, |attempts| - 1).EmailLimited429?
  }

  lemma TenIsMet(minutes: int)
    requires minutes <= 2
    ensures exists attempts :: MeetsTheLimit(attempts, minutes)
  {
    var run := if minutes <= 0 then Burst(10) else Ladder(5, minutes * 60);
    var last := Attempt(if minutes <= 0 then 0 else 6 * (minutes * 60), false);
    if minutes <= 0 {
      BurstCounts(10, minutes);
    } else {
      LadderCounts(5, minutes);
      LadderInTime(5, minutes * 60);
    }
    var all := run + [last];
    assert all[..|run|] == run;
    assert forall i :: 0 <= i < |run| ==> run[i].at <= run[|run| - 1].at <= last.at;
    assert MeetsTheLimit(all, minutes);
  }

  /**
    Without a positive lockout nothing ever locks: from the fifth failure on the answer is an error
    until the limit of ten denies.  The limit never denies, in any run, if and only if the lockout is
    at least three minutes: with one or two a life has time for ten failures.
  */
  lemma TheLimitIsOutOfReachIff(minutes: int)
    ensures minutes >= 3 <==> forall attempts :: !MeetsTheLimit(attempts, minutes)
  {
    if minutes >= 3 {
      forall attempts | InTime(attempts) && attempts != []
        ensures !MeetsTheLimit(attempts, minutes)
      {
        NeverTen(attempts, minutes, |attempts| - 1);
      }
    } else {
      TenIsMet(minutes);
    }
  }

  /** While a lock stands, every attempt is answered 429 and nothing changes. */
  lemma {:induction false} LockStands(attempts: seq<Attempt>, minutes: int, i: nat, j: nat)
    requires InTime(attempts) && i <= j < |attempts|
    requires var k := After(attempts[..i], minutes); k.ip == None && k.lock.Some? && attempts[j].at < k.lock.value
    ensures After(attempts[..j], minutes) == After(attempts[..i], minutes)
    ensures Answer(attempts, minutes, j).Locked429?
  {
    if i < j {
      LockStands(attempts, minutes, i, j - 1);
      assert attempts[..j][..j - 1] == attempts[..j - 1];
    }
  }

  /**
    From the fifth failure in a counter's life on, password checks are at least the lockout apart:
    a guess that left the counter at five or more is followed by no check for `minutes` minutes.
  */
  lemma ChecksAreALockoutApart(attempts: seq<Attempt>, minutes: int, i: nat, j: nat)
    requires InTime(attempts) && minutes > 0 && i < j < |attempts|
    requires Answer(attempts, minutes, i).Wrong401? && Failures(After(attempts[..i + 1], minutes), attempts[i].at) >= 5
    requires Checked(Answer(attempts, minutes, j))
    ensures attempts[j].at >= attempts[i].at + minutes * 60
  {
    NeverOverTen(attempts[..i + 1], minutes);
    assert attempts[..i + 1][..i] == attempts[..i];
    assert After(attempts[..i + 1], minutes).lock == Some(attempts[i].at + minutes * 60);
    if attempts[j].at < attempts[i].at + minutes * 60 {
      LockStands(attempts, minutes, i + 1, j);
    }
  }
}
