/**
  Any number of emitters on one stream: the two Redis commands of SSEEmitter.emit
  (src/streaming/emitter.py), LLEN and RPUSH, as separate steps that interleave freely while the
  list lives.
*/
module SseWriters {
  import opened SseCodec
  import opened SseLog

  /** The stored list, and for each emitter the length it last read. */
  datatype Shared = Shared(log: seq<Event>, read: map<nat, nat>)

  datatype Step = ReadLength(w: nat) | Push(w: nat, m: Msg)

  predicate Enabled(s: Shared, step: Step) {
    step.Push? ==> step.w in s.read
  }

  function Next(s: Shared, step: Step): Shared
    requires Enabled(s, step)
  {
    match step
    case ReadLength(w) => s.(read := s.read[w := |s.log|])
    case Push(w, m) => Shared(s.log + [Numbered(s.read[w], m)], s.read - {w})
  }

  /** Each emitter reads the length before each of its pushes. */
  predicate Runs(s: Shared, steps: seq<Step>)
    decreases |steps|, 0
  {
    steps == [] ||
    (Runs(s, steps[..|steps| - 1]) && Enabled(After(s, steps[..|steps| - 1]), steps[|steps| - 1]))
  }

  function After(s: Shared, steps: seq<Step>): Shared
    requires Runs(s, steps)
    decreases |steps|, 1
  {
    if steps == [] then s else Next(After(s, steps[..|steps| - 1]), steps[|steps| - 1])
  }

  /** Every push of the run lands at the length that its emitter read. */
  predicate EveryPushLands(s: Shared, steps: seq<Step>)
    requires Runs(s, steps)
    decreases |steps|
  {
    steps == [] ||
    (var before, step := After(s, steps[..|steps| - 1]), steps[|steps| - 1];
     EveryPushLands(s, steps[..|steps| - 1]) && (step.Push? ==> before.read[step.w] == |before.log|))
  }

  /** No two stored events have the same id. */
  predicate DistinctIds(log: seq<Event>) {
    forall i, j :: 0 <= i < j < |log| ==> log[i].id != log[j].id
  }

  /** Lengths that were read are not above the list's. */
  predicate ReadsOk(s: Shared) {
    forall w :: w in s.read ==> s.read[w] <= |s.log|
  }

  lemma {:induction false} RunKeepsReads(s: Shared, steps: seq<Step>)
    requires Runs(s, steps) && ReadsOk(s)
    ensures ReadsOk(After(s, steps)) && s.log <= After(s, steps).log
    decreases |steps|
  {
    if steps != [] {
      RunKeepsReads(s, steps[..|steps| - 1]);
    }
  }

  /** A push onto a numbered list keeps it numbered, or else repeats an id. */
  lemma PushRepeatsOrLands(log: seq<Event>, n: nat, m: Msg)
    requires Holds(log) && n <= |log|
    ensures Holds(log + [Numbered(n, m)]) <==> n == |log|
    ensures n < |log| ==> !DistinctIds(log + [Numbered(n, m)])
    ensures n == |log| ==> DistinctIds(log + [Numbered(n, m)])
  {
    var more := log + [Numbered(n, m)];
    assert more[|log|] == Numbered(n, m);
    if n < |log| {
      assert more[n].id == n + 1 == more[|log|].id;
    }
  }

  lemma BadStaysBad(log: seq<Event>, e: Event)
    ensures !Holds(log) ==> !Holds(log + [e])
    ensures !DistinctIds(log) ==> !DistinctIds(log + [e])
  {
    var more := log + [e];
    assert forall k :: 0 <= k < |log| ==> more[k] == log[k];
  }

  /**
    After any interleaving of any number of emitters on a numbered list, event i still has id i if
    and only if every push landed at the length its emitter had read; and when one did not, two
    events share an id.
  */
  lemma {:induction false} NumberingSurvivesIff(s: Shared, steps: seq<Step>)
    requires Runs(s, steps) && Holds(s.log) && ReadsOk(s)
    ensures Holds(After(s, steps).log) <==> EveryPushLands(s, steps)
    ensures DistinctIds(After(s, steps).log) <==> EveryPushLands(s, steps)
    decreases |steps|
  {
    if steps != [] {
      var init, step := steps[..|steps| - 1], steps[|steps| - 1];
      var before := After(s, init);
      NumberingSurvivesIff(s, init);
      RunKeepsReads(s, init);
      if step.Push? {
        var e := Numbered(before.read[step.w], step.m);
        BadStaysBad(before.log, e);
        if Holds(before.log) {
          PushRepeatsOrLands(before.log, before.read[step.w], step.m);
        }
      }
    }
  }

  /** One emitter at a time: each reads and pushes before the next one starts. */
  function OneAtATime(ms: seq<(nat, Msg)>): seq<Step> {
    if ms == [] then []
    else OneAtATime(ms[..|ms| - 1]) + [ReadLength(ms[|ms| - 1].0), Push(ms[|ms| - 1].0, ms[|ms| - 1].1)]
  }

  lemma RunsOn(s: Shared, steps: seq<Step>, step: Step)
    requires Runs(s, steps) && Enabled(After(s, steps), step)
    ensures Runs(s, steps + [step]) && After(s, steps + [step]) == Next(After(s, steps), step)
    ensures EveryPushLands(s, steps + [step])
       <==> EveryPushLands(s, steps) && (step.Push? ==> After(s, steps).read[step.w] == |After(s, steps).log|)
  {
    assert (steps + [step])[..|steps|] == steps;
  }

  /** One emitter's two commands with nothing in between. */
  lemma EmitOnce(s: Shared, steps: seq<Step>, w: nat, m: Msg)
    requires Runs(s, steps)
    ensures var more := steps + [ReadLength(w), Push(w, m)]; var log := After(s, steps).log;
      Runs(s, more) && After(s, more).log == log + [Numbered(|log|, m)]
          && (EveryPushLands(s, steps) ==> EveryPushLands(s, more))
  {
    RunsOn(s, steps, ReadLength(w));
    RunsOn(s, steps + [ReadLength(w)], Push(w, m));
    assert steps + [ReadLength(w)] + [Push(w, m)] == steps + [ReadLength(w), Push(w, m)];
  }

  lemma TurnsSnoc(init: seq<(nat, Msg)>, last: (nat, Msg))
    ensures OneAtATime(init + [last]) == OneAtATime(init) + [ReadLength(last.0), Push(last.0, last.1)]
  {
    assert (init + [last])[..|init|] == init;
  }

  lemma NumberedSnoc(n: nat, init: seq<(nat, Msg)>, last: (nat, Msg))
    ensures NumberedFrom(n, Messages(init + [last])) == NumberedFrom(n, Messages(init)) + [Numbered(n + |init|, last.1)]
  {
    assert (init + [last])[..|init|] == init;
    assert Messages(init + [last])[..|init|] == Messages(init);
  }

  /** What the emits of a list of writers and messages come to. */
  ghost predicate StoresAll(s: Shared, ms: seq<(nat, Msg)>) {
    && Runs(s, OneAtATime(ms)) && EveryPushLands(s, OneAtATime(ms))
    && After(s, OneAtATime(ms)).log == s.log + NumberedFrom(|s.log|, Messages(ms))
  }

  lemma OneMoreEmit(s: Shared, init: seq<(nat, Msg)>, last: (nat, Msg))
    requires StoresAll(s, init)
    ensures StoresAll(s, init + [last])
  {
    var n := |s.log|;
    EmitOnce(s, OneAtATime(init), last.0, last.1);
    TurnsSnoc(init, last);
    NumberedSnoc(n, init, last);
    assert s.log + NumberedFrom(n, Messages(init)) + [Numbered(n + |init|, last.1)]
        == s.log + (NumberedFrom(n, Messages(init)) + [Numbered(n + |init|, last.1)]);
  }

  /**
    Emitters that take turns, such as a turn's and then its resume's, always land, and store the same
    list as one emitter would.
  */
  lemma {:induction false} TakingTurnsIsSafe(s: Shared, ms: seq<(nat, Msg)>)
    ensures StoresAll(s, ms)
    decreases |ms|
  {
    if ms == [] {
      assert s.log + NumberedFrom(|s.log|, Messages(ms)) == s.log;
    } else {
      TakingTurnsIsSafe(s, ms[..|ms| - 1]);
      OneMoreEmit(s, ms[..|ms| - 1], ms[|ms| - 1]);
      assert ms[..|ms| - 1] + [ms[|ms| - 1]] == ms;
    }
  }

  function Messages(ms: seq<(nat, Msg)>): (r: seq<Msg>)
    ensures |r| == |ms| && forall k :: 0 <= k < |ms| ==> r[k] == ms[k].1
  {
    if ms == [] then [] else Messages(ms[..|ms| - 1]) + [ms[|ms| - 1].1]
  }

  /**
    From any numbered list, a resume that starts while the turn's emitter is between its two commands
    repeats an id.
  */
  lemma TwoWritersShareAnId(log: seq<Event>, a: Msg, b: Msg)
    requires Holds(log)
    ensures var s, steps := Shared(log, map[]), [ReadLength(0), ReadLength(1), Push(0, a), Push(1, b)];
      Runs(s, steps) && !Holds(After(s, steps).log) && !DistinctIds(After(s, steps).log)
  {
    var s := Shared(log, map[]);
    var h0: seq<Step> := [ReadLength(0)];
    var h1 := [ReadLength(0), ReadLength(1)];
    var h2 := [ReadLength(0), ReadLength(1), Push(0, a)];
    RunsOn(s, [], ReadLength(0));
    assert [] + [ReadLength(0)] == h0;
    RunsOn(s, h0, ReadLength(1));
    assert h0 + [ReadLength(1)] == h1;
    RunsOn(s, h1, Push(0, a));
    assert h1 + [Push(0, a)] == h2;
    RunsOn(s, h2, Push(1, b));
    assert h2 + [Push(1, b)] == [ReadLength(0), ReadLength(1), Push(0, a), Push(1, b)];
    NumberingSurvivesIff(s, h2 + [Push(1, b)]);
  }
}
