/**
  Reading a stream: the replay endpoint (src/streaming/replay.py, stream_chat in
  src/api/routers/chat.py) and the client that reconnects to it (src/frontend/app.py).
*/
module SseClient {
  import opened Prelude
  import opened Decimals
  import opened SseCodec
  import opened SseLog

  // ---- the replay endpoint -------------------------------------------------------------------

  /** get_events_after: None when the key is gone; the stored events after the given id otherwise. */
  method GetEventsAfter(store: Store, last: nat, now: int) returns (r: Option<seq<Event>>)
    ensures last == 0 ==> r == Some([])
    ensures last != 0 ==> (r.None? <==> store.Live(now) == [])
    ensures last != 0 && r.Some? ==> r == Some(Replay(store.Live(now), last))
    ensures Holds(store.items) && last != 0 && r.Some? ==>
              forall e :: e in r.value <==> e in store.Live(now) && last < e.id
  {
    if last == 0 {
      return Some([]);
    }
    var live := store.Live(now);
    if live == [] {
      return None;
    }
    r := Some(Replay(live, last));
    if Holds(store.items) {
      ReplayIsLater(live, last);
    }
  }

  /** LRANGE key last -1 */
  function Replay(items: seq<Event>, last: nat): seq<Event> {
    if last <= |items| then items[last..] else []
  }

  lemma ReplayIsLater(items: seq<Event>, last: nat)
    requires Holds(items)
    ensures forall e :: e in Replay(items, last) <==> e in items && last < e.id
  {
    forall e | e in items && last < e.id
      ensures e in Replay(items, last)
    {
      var k :| 0 <= k < |items| && items[k] == e;
      assert items[last..][k - last] == e;
    }
  }

  datatype Answer = Expired410 | Forbidden403 | Replayed(events: seq<Event>) | RunsGraph

  /** What GET /chat/stream does; header: the Last-Event-ID as an integer, 0 when it is not one. */
  function StreamChat(owner: Option<string>, requester: string, header: Option<int>, context: bool, store: Store,
      now: int): Answer {
    if owner.None? then Expired410
    else if owner.value != requester then Forbidden403
    else if header.Some? && header.value > 0 then
      (if store.Live(now) == [] then Expired410 else Replayed(Replay(store.Live(now), header.value)))
    else if !context then Expired410
    else RunsGraph
  }

  /** The owner key is set when the message is posted and never extended. */
  function OwnerAt(owner: string, posted: int, now: int): Option<string> {
    if now < posted + TTL_NORMAL then Some(owner) else None
  }

  /**
    A reconnect replays if and only if the owner reconnects, with an id, within 300 s of posting,
    while the list lives.
  */
  lemma ReplayServedIff(owner: string, requester: string, posted: int, header: Option<int>, context: bool,
      store: Store, now: int)
    ensures StreamChat(OwnerAt(owner, posted, now), requester, header, context, store, now).Replayed?
       <==> owner == requester && now < posted + 300 && header.Some? && header.value > 0 && store.Live(now) != []
  {
  }

  /** The chat context is stored with the owner, for the same time, and never deleted. */
  predicate ContextAt(posted: int, now: int) {
    now < posted + TTL_NORMAL
  }

  /**
    A request by the owner without a positive id runs the graph, whether or not it has run already,
    if and only if it comes within 300 s of posting.
  */
  lemma RunsGraphIff(owner: string, requester: string, posted: int, header: Option<int>, store: Store, now: int)
    ensures StreamChat(OwnerAt(owner, posted, now), requester, header, ContextAt(posted, now), store, now) == RunsGraph
       <==> owner == requester && now < posted + 300 && !(header.Some? && header.value > 0)
  {
  }

  /**
    So a client that reconnects before it has seen an id re-executes the graph nodes, contrary to
    what is documented: whatever is stored by then, a second whole turn goes onto the same list, with
    a `done` of its own.
  */
  lemma ASecondRunRepeatsTheTurn(store: Store, owner: string, posted: int, header: Option<int>, now: int,
                                 evs: seq<GraphEvent>, failure: Msg, done: Msg)
    requires posted <= now < posted + 300 && !(header.Some? && header.value > 0)
    requires Holds(store.items) && failure.kind == "error" && done.kind == "done"
    requires Paced(Stream(store, false, true, []), TurnMsgs(evs, failure, done))
    ensures StreamChat(OwnerAt(owner, posted, now), owner, header, ContextAt(posted, now), store, now) == RunsGraph
    ensures var ms := TurnMsgs(evs, failure, done);
      var after := EmittedAll(Stream(store, false, true, []), ms).store.items;
      after == store.items + NumberedFrom(|store.items|, ms) && after[|after| - 1].kind == "done"
  {
    var ms := TurnMsgs(evs, failure, done);
    RunsGraphIff(owner, owner, posted, header, store, now);
    TurnLogShape(Stream(store, false, true, []), evs, failure, done);
    NumberedAt(|store.items|, ms, |ms| - 1);
  }

  /**
    The documented 15 minutes for streams with an approval are not given: after any emits that
    include an approval request, from 300 s after posting until the list expires, with the approval
    perhaps still open, every reconnect is refused although every event is still stored.
  */
  lemma AnApprovalAfterFiveMinutesIsNotReplayed(s: Stream, ms: seq<Msg>, owner: string, posted: int,
      header: Option<int>, context: bool, now: int)
    requires Asks(ms) && posted + 300 <= now < ms[|ms| - 1].at + 900
    ensures var store := EmittedAll(s, ms).store;
      && store.Live(now) == store.items != []
      && StreamChat(OwnerAt(owner, posted, now), owner, header, context, store, now) == Expired410
  {
    ListDeadline(s, ms);
  }

  // ---- exactly-once delivery -----------------------------------------------------------------

  /** What the client has shown of a stream, and the id it will send next. */
  datatype Client = Client(seen: seq<Event>, last: nat)

  /** The client decodes a parsed event; a missing id keeps the last one. */
  function Decode(f: Fields, last: nat): Event {
    var id := if "id" in f then ParseNat(f["id"]) else Some(last);
    Event(if id.Some? then id.value else last,
          if "event" in f then f["event"] else "",
          if "data" in f then f["data"] else "{}")
  }

  function Taken(c: Client, fs: seq<Fields>): Client
    decreases |fs|
  {
    if fs == [] then c
    else
      var e := Decode(fs[0], c.last);
      Taken(Client(c.seen + [e], if c.last < e.id then e.id else c.last), fs[1..])
  }

  function Blocks(es: seq<Event>): (cs: seq<Chunk>)
    ensures |cs| == |es| && forall k :: 0 <= k < |es| ==> cs[k] == Block(es[k])
  {
    if es == [] then [] else [Block(es[0])] + Blocks(es[1..])
  }

  lemma {:induction false} EventsOfBlocks(es: seq<Event>)
    ensures Events(Blocks(es)) == es
  {
    if es != [] {
      EventsOfBlocks(es[1..]);
    }
  }

  /** The client's place in the log: it has shown exactly the first `last` events. */
  predicate InStep(c: Client, log: seq<Event>) {
    c.last == |c.seen| && c.seen <= log
  }

  /**
    What happens to a stream and its client: an emit, or a reconnect cut after some characters.  A
    client that has seen nothing sends no id and is not replayed to, so the results about
    reconnects are about clients with a last id.
  */
  datatype Move = Append(m: Msg) | Reconnect(cut: nat)

  /** The bytes of a replay, cut short by the connection. */
  function Received(log: seq<Event>, last: nat, cut: nat): string {
    var text := PrintAll(Blocks(Replay(log, last)));
    if cut < |text| then text[..cut] else text
  }

  function Moved(log: seq<Event>, c: Client, mv: Move): (seq<Event>, Client) {
    match mv
    case Append(m) => (log + [Numbered(|log|, m)], c)
    case Reconnect(cut) => (log, Taken(c, Receive(Received(log, c.last, cut))))
  }

  function MovedAll(log: seq<Event>, c: Client, mvs: seq<Move>): (seq<Event>, Client)
    decreases |mvs|
  {
    if mvs == [] then (log, c)
    else
      var (log', c') := Moved(log, c, mvs[0]);
      MovedAll(log', c', mvs[1..])
  }

  predicate SafeLog(log: seq<Event>) {
    Holds(log) && forall k :: 0 <= k < |log| ==> WireSafe(log[k])
  }

  predicate SafeMsg(m: Msg) {
    Carries(m.kind) && JsonLine(m.data)
  }

  /** Taking a run of the log that continues where the client stands. */
  lemma {:induction false} TakenContinues(c: Client, log: seq<Event>, fs: seq<Fields>)
    requires SafeLog(log) && InStep(c, log)
    requires fs <= AllFields(Replay(log, c.last))
    ensures var c' := Taken(c, fs); InStep(c', log) && |c'.seen| == |c.seen| + |fs|
    decreases |fs|
  {
    if fs != [] {
      var rest := log[c.last..];
      var e := rest[0];
      assert fs[0] == AllFields(rest)[0] == AsFields(e);
      ParseOfDecimal(e.id);
      assert Decode(fs[0], c.last) == e && e.id == c.last + 1;
      var c1 := Client(c.seen + [e], e.id);
      assert log[c1.last..] == rest[1..];
      assert AllFields(rest)[1..] == AllFields(rest[1..]);
      TakenContinues(c1, log, fs[1..]);
    }
  }

  lemma ReceivedIsPrefix(log: seq<Event>, last: nat, cut: nat)
    requires SafeLog(log)
    ensures Receive(Received(log, last, cut)) <= AllFields(Replay(log, last))
    ensures |PrintAll(Blocks(Replay(log, last)))| <= cut
        ==> Receive(Received(log, last, cut)) == AllFields(Replay(log, last))
  {
    var es := Replay(log, last);
    EventsOfBlocks(es);
    CutDeliversAPrefix(Blocks(es), Received(log, last, cut));
    SafeRoundTrip(Blocks(es));
  }

  lemma MoveKeepsStep(log: seq<Event>, c: Client, mv: Move)
    requires SafeLog(log) && InStep(c, log) && c.last > 0 && (mv.Append? ==> SafeMsg(mv.m))
    ensures var (log', c') := Moved(log, c, mv); SafeLog(log') && InStep(c', log') && log <= log' && c.seen <= c'.seen
  {
    if mv.Reconnect? {
      ReceivedIsPrefix(log, c.last, mv.cut);
      TakenContinues(c, log, Receive(Received(log, c.last, mv.cut)));
    }
  }

  /**
    Exactly once: once the client has seen something, however often it reconnects, wherever each
    connection breaks, and whatever is appended in between, it has always shown a gap-free,
    duplicate-free prefix of the log, and it never takes anything back.
  */
  lemma {:induction false} ExactlyOnce(log: seq<Event>, c: Client, mvs: seq<Move>)
    requires SafeLog(log) && InStep(c, log) && c.last > 0
    requires forall k :: 0 <= k < |mvs| && mvs[k].Append? ==> SafeMsg(mvs[k].m)
    ensures var (log', c') := MovedAll(log, c, mvs);
      SafeLog(log') && InStep(c', log') && log <= log' && c.seen <= c'.seen
    decreases |mvs|
  {
    if mvs != [] {
      MoveKeepsStep(log, c, mvs[0]);
      var (log', c') := Moved(log, c, mvs[0]);
      ExactlyOnce(log', c', mvs[1..]);
    }
  }

  /** One reconnect that is not cut catches up completely. */
  lemma CatchesUp(log: seq<Event>, c: Client, cut: nat)
    requires SafeLog(log) && InStep(c, log) && c.last > 0 && |PrintAll(Blocks(Replay(log, c.last)))| <= cut
    ensures Moved(log, c, Reconnect(cut)).1.seen == log
  {
    ReceivedIsPrefix(log, c.last, cut);
    TakenContinues(c, log, Receive(Received(log, c.last, cut)));
  }

  /** The live connection of a new stream, keep-alives and a cut included, leaves the client in step. */
  lemma {:induction false} LiveConnectionInStep(log: seq<Event>, cs: seq<Chunk>, p: string)
    requires SafeLog(log) && Events(cs) == log && p <= PrintAll(cs)
    requires forall k :: 0 <= k < |cs| && cs[k].Block? ==> WireSafe(cs[k].e)
    ensures InStep(Taken(Client([], 0), Receive(p)), log)
  {
    CutDeliversAPrefix(cs, p);
    TakenContinues(Client([], 0), log, Receive(p));
  }

  /** Reconnects only: nobody writes any more. */
  predicate OnlyReconnects(mvs: seq<Move>) {
    forall k :: 0 <= k < |mvs| ==> mvs[k].Reconnect?
  }

  lemma {:induction false} ReconnectsWriteNothing(log: seq<Event>, c: Client, mvs: seq<Move>)
    requires OnlyReconnects(mvs)
    ensures MovedAll(log, c, mvs).0 == log
    decreases |mvs|
  {
    if mvs != [] {
      ReconnectsWriteNothing(log, Moved(log, c, mvs[0]).1, mvs[1..]);
    }
  }

  /**
    Reconnection does not save a broken turn: when the live connection breaks before the turn is
    over, the turn dies with it, and however often the client reconnects it never sees a `done`.
  */
  lemma ABrokenTurnNeverEnds(s: Stream, evs: seq<GraphEvent>, failure: Msg, done: Msg, n: nat, c: Client,
      mvs: seq<Move>)
    requires s.store.items == [] && failure.kind == "error" && done.kind == "done"
    requires n < |TurnMsgs(evs, failure, done)| && Paced(s, CutTurn(evs, failure, done, n))
    requires var log := EmittedAll(s, CutTurn(evs, failure, done, n)).store.items;
      SafeLog(log) && InStep(c, log) && c.last > 0
    requires OnlyReconnects(mvs)
    ensures var log := EmittedAll(s, CutTurn(evs, failure, done, n)).store.items;
      var c' := MovedAll(log, c, mvs).1;
      c'.seen <= log && !HasDone(c'.seen)
  {
    var log := EmittedAll(s, CutTurn(evs, failure, done, n)).store.items;
    CutTurnHasDoneIff(s, evs, failure, done, n);
    ReconnectsWriteNothing(log, c, mvs);
    ExactlyOnce(log, c, mvs);
    var seen := MovedAll(log, c, mvs).1.seen;
    assert forall k :: 0 <= k < |seen| ==> seen[k] == log[k];
  }

  // ---- the reconnect loop after an approval --------------------------------------------------

  const RECONNECT_RETRIES := 6

  /** What _reconnect_after_hitl has consumed, and whether it has returned. */
  datatype View = View(shown: seq<Event>, last: nat, closed: bool)

  predicate Terminal(e: Event) {
    e.kind == "done" || e.kind == "error"
  }

  /** One response: events are shown until `done` or `error`, which ends the whole loop. */
  function Shown(v: View, es: seq<Event>): View
    decreases |es|
  {
    if v.closed || es == [] then v
    else if Terminal(es[0]) then v.(closed := true)
    else Shown(View(v.shown + [es[0]], if v.last < es[0].id then es[0].id else v.last, false), es[1..])
  }

  /** The loop, every attempt being answered with a replay; logs[k] is the stored log at attempt k. */
  function Attempts(v: View, logs: seq<seq<Event>>): View
    decreases |logs|
  {
    if v.closed || logs == [] then v
    else Attempts(Shown(v, Replay(logs[0], v.last)), logs[1..])
  }

  /** The retry loop of the client. */
  method ReconnectAfterHitl(saved: nat, logs: seq<seq<Event>>) returns (v: View)
    requires saved > 0 && |logs| == RECONNECT_RETRIES
    ensures v == Attempts(View([], saved, false), logs)
  {
    v := View([], saved, false);
    assert logs[0..] == logs;
    for attempt := 0 to RECONNECT_RETRIES
      invariant !v.closed && Attempts(v, logs[attempt..]) == Attempts(View([], saved, false), logs)
    {
      assert logs[attempt..][0] == logs[attempt] && logs[attempt..][1..] == logs[attempt + 1..];
      var events := Replay(logs[attempt], v.last);
      ghost var v0 := v;
      var i := 0;
      assert events[0..] == events;
      while i < |events|
        invariant i <= |events| && !v.closed && Shown(v, events[i..]) == Shown(v0, events)
      {
        assert events[i..][0] == events[i] && events[i..][1..] == events[i + 1..];
        if events[i].kind == "error" || events[i].kind == "done" {
          v := v.(closed := true);
          return;
        }
        v := View(v.shown + [events[i]], if v.last < events[i].id then events[i].id else v.last, false);
        i := i + 1;
      }
    }
    assert logs[RECONNECT_RETRIES..] == [];
  }

  /** The id saved with the approval banner: that of the last approval request seen. */
  function SavedId(log: seq<Event>): (n: nat)
    ensures n <= |log|
    ensures n > 0 ==> log[n - 1].kind == "approval_required"
    ensures n == 0 ==> forall k :: 0 <= k < |log| ==> log[k].kind != "approval_required"
  {
    if log == [] then 0
    else if log[|log| - 1].kind == "approval_required" then |log|
    else SavedId(log[..|log| - 1])
  }

  /** The position of the first `done` or `error`, or the length. */
  function FirstTerminal(es: seq<Event>): (k: nat)
    ensures k <= |es| && (k < |es| ==> Terminal(es[k])) && forall j :: 0 <= j < k ==> !Terminal(es[j])
  {
    if es == [] || Terminal(es[0]) then 0 else 1 + FirstTerminal(es[1..])
  }

  lemma {:induction false} ShownStops(v: View, es: seq<Event>)
    requires !v.closed
    ensures Shown(v, es).shown == v.shown + es[..FirstTerminal(es)]
    ensures Shown(v, es).closed <==> FirstTerminal(es) < |es|
    decreases |es|
  {
    if es != [] && !Terminal(es[0]) {
      ShownStops(View(v.shown + [es[0]], if v.last < es[0].id then es[0].id else v.last, false), es[1..]);
      assert es[..FirstTerminal(es)] == [es[0]] + es[1..][..FirstTerminal(es[1..])];
    }
  }

  /**
    The banner saves the id of the approval request, but the suspended turn still logs its own
    `done` after it.  So the first attempt always returns on that old `done`: whatever the resumed
    graph has logged, nothing of it is ever shown.
  */
  lemma ResumedEventsAreNeverShown(suspended: seq<Event>, logs: seq<seq<Event>>)
    requires Holds(suspended) && suspended != [] && suspended[|suspended| - 1].kind == "done"
    requires SavedId(suspended) > 0
    requires |logs| == RECONNECT_RETRIES && forall k :: 0 <= k < |logs| ==> suspended <= logs[k]
    ensures var v := Attempts(View([], SavedId(suspended), false), logs);
      v.closed && |v.shown| < |suspended| && v.shown <= suspended[SavedId(suspended)..]
  {
    var n := SavedId(suspended);
    assert n < |suspended|;
    var es := Replay(logs[0], n);
    FirstTerminalWithin(suspended[n..], es);
    ShownStops(View([], n, false), es);
    assert es[..FirstTerminal(es)] == suspended[n..][..FirstTerminal(es)];
    assert Attempts(View([], n, false), logs) == Attempts(Shown(View([], n, false), es), logs[1..]);
  }

  /** The stored events of calls that end with `done` and contain an approval request. */
  lemma {:induction false} SuspendedLog(ms: seq<Msg>, k: nat)
    requires k < |ms| && ms[k].kind == "approval_required" && ms[|ms| - 1].kind == "done"
    ensures var log := NumberedFrom(0, ms);
      |log| == |ms| && log[|log| - 1].kind == "done" && SavedId(log) > 0
  {
    NumberedAt(0, ms, k);
    NumberedAt(0, ms, |ms| - 1);
  }

  /**
    From the first emit to the last attempt: if the first turn of a stream asked for an approval,
    then however the resumed turn goes, the loop closes without showing any of its events.
  */
  lemma {:induction false} TheResumedAnswerIsNeverShown(s: Stream, evs: seq<GraphEvent>, failure: Msg, done: Msg,
      k: nat, logs: seq<seq<Event>>)
    requires s.store.items == [] && s.live && failure.kind == "error" && done.kind == "done"
    requires Paced(s, TurnMsgs(evs, failure, done))
    requires k < |TurnMsgs(evs, failure, done)| && TurnMsgs(evs, failure, done)[k].kind == "approval_required"
    requires |logs| == RECONNECT_RETRIES
    requires forall i :: 0 <= i < |logs| ==> EmittedAll(s, TurnMsgs(evs, failure, done)).store.items <= logs[i]
    ensures var suspended := EmittedAll(s, TurnMsgs(evs, failure, done)).store.items;
      var v := Attempts(View([], SavedId(suspended), false), logs);
      v.closed && v.shown <= suspended[SavedId(suspended)..]
  {
    var ms := TurnMsgs(evs, failure, done);
    var suspended := EmittedAll(s, ms).store.items;
    assert suspended == NumberedFrom(0, ms) && Holds(suspended) by {
      LogGrows(s, ms);
    }
    OneFinalDone(evs, failure, done);
    SuspendedLog(ms, k);
    ResumedEventsAreNeverShown(suspended, logs);
  }

  lemma FirstTerminalWithin(xs: seq<Event>, ys: seq<Event>)
    requires xs <= ys && xs != [] && Terminal(xs[|xs| - 1])
    ensures FirstTerminal(ys) < |xs|
  {
    assert Terminal(ys[|xs| - 1]);
  }

  /**
    When an attempt after the resume does show resumed events, for any saved id: exactly when the
    suspended turn logged neither `done` nor `error` after that id and the resumed log does not open
    with one.
  */
  lemma ResumedShownIff(suspended: seq<Event>, resumed: seq<Event>, saved: nat)
    requires 0 < saved <= |suspended|
    ensures var v := Shown(View([], saved, false), Replay(suspended + resumed, saved));
      && v.shown <= suspended[saved..] + resumed
      && (|v.shown| > |suspended| - saved
          <==> (forall k :: saved <= k < |suspended| ==> !Terminal(suspended[k])) && resumed != []
               && !Terminal(resumed[0]))
  {
    var es := suspended[saved..] + resumed;
    var n := |suspended| - saved;
    assert (suspended + resumed)[saved..] == es;
    ShownStops(View([], saved, false), es);
    assert forall k :: saved <= k < |suspended| ==> es[k - saved] == suspended[k];
    assert resumed != [] ==> es[n] == resumed[0];
  }
}
