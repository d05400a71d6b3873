/**
  One stream's event log: the Redis list behind SSEEmitter (src/streaming/emitter.py), the live
  queue of _LiveEmitter and the turn runner that feeds both (src/api/routers/chat.py,
  src/agents/runner.py, _resume_graph in src/api/routers/sessions.py).
*/
module SseLog {
  import opened Prelude
  import opened SseCodec

  const TTL_NORMAL := 300
  const TTL_HITL := 900

  // ---- the stored list -----------------------------------------------------------------------

  /**
    A list key: its items, and when it expires.  A key without items does not exist.  The stored
    texts are printed events; an item stands for its text, Format(item) in SseCodec.
  */
  datatype Store = Store(items: seq<Event>, deadline: Option<int>) {
    /** The items a command sees at time now. */
    function Live(now: int): seq<Event> {
      if deadline.Some? && deadline.value <= now then [] else items
    }
  }

  /** One call of emit: the event type, its JSON text and the time. */
  datatype Msg = Msg(kind: string, data: string, at: int)

  /** The event that emit stores on a list of n items. */
  function Numbered(n: nat, m: Msg): Event {
    Event(n + 1, m.kind, m.data)
  }

  /** A stream as one emitter object sees it; `live` emitters also queue what they store. */
  datatype Stream = Stream(store: Store, hitl: bool, live: bool, queue: seq<Option<Event>>)

  /** One emit: push the numbered event, extend the key, and queue the text (a sentinel after `done`). */
  function Emitted(s: Stream, m: Msg): Stream {
    var before := s.store.Live(m.at);
    var e := Numbered(|before|, m);
    var hitl := s.hitl || m.kind == "approval_required";
    Stream(Store(before + [e], Some(m.at + if hitl then TTL_HITL else TTL_NORMAL)), hitl, s.live,
           if s.live then s.queue + [Some(e)] + (if m.kind == "done" then [None] else []) else s.queue)
  }

  function EmittedAll(s: Stream, ms: seq<Msg>): Stream {
    if ms == [] then s else Emitted(EmittedAll(s, ms[..|ms| - 1]), ms[|ms| - 1])
  }

  lemma EmittedAppend(s: Stream, ms: seq<Msg>, m: Msg)
    ensures EmittedAll(s, ms + [m]) == Emitted(EmittedAll(s, ms), m)
  {
    assert (ms + [m])[..|ms|] == ms;
  }

  /** The turn runner's events; Crash is the graph raising. */
  datatype GraphEvent =
    | ChainStart(at: int, json: string)
    | ModelStream(at: int, content: Option<string>)                          // None: nothing to show
    | ToolEnd(at: int, result: Option<string>)                               // None: not printable as JSON
    | GateEnd(at: int, pending: Option<string>, failure: Option<string>)
    | Other(at: int)
    | Crash(at: int)

  datatype Emission = Silent | Emit(m: Msg) | Raises

  function Translate(ev: GraphEvent): Emission {
    match ev
    case ChainStart(at, json) => Emit(Msg("thinking", json, at))
    case ModelStream(at, content) => if content.Some? then Emit(Msg("token", content.value, at)) else Silent
    case ToolEnd(at, result) => if result.Some? then Emit(Msg("tool_result", result.value, at)) else Raises
    case GateEnd(at, pending, failure) =>
      if pending.Some? then Emit(Msg("approval_required", pending.value, at))
      else if failure.Some? then Emit(Msg("error", failure.value, at))
      else Silent
    case Other(_) => Silent
    case Crash(_) => Raises
  }

  /** The position of the first event that raises, or the number of events. */
  function Stop(evs: seq<GraphEvent>): (k: nat)
    ensures k <= |evs| && (k < |evs| ==> Translate(evs[k]).Raises?)
    ensures forall j :: 0 <= j < k ==> !Translate(evs[j]).Raises?
  {
    if evs == [] || Translate(evs[0]).Raises? then 0 else 1 + Stop(evs[1..])
  }

  predicate Raised(evs: seq<GraphEvent>) {
    Stop(evs) < |evs|
  }

  /** What the first n events give, in order. */
  function Sent(evs: seq<GraphEvent>, n: nat): (ms: seq<Msg>)
    requires n <= |evs|
    ensures NoDone(ms)
  {
    if n == 0 then []
    else
      var e := Translate(evs[n - 1]);
      if e.Emit? then Sent(evs, n - 1) + [e.m] else Sent(evs, n - 1)
  }

  /** What is emitted before the events end or one of them raises. */
  function Translated(evs: seq<GraphEvent>): seq<Msg> {
    Sent(evs, Stop(evs))
  }

  predicate NoDone(ms: seq<Msg>) {
    forall k :: 0 <= k < |ms| ==> ms[k].kind != "done"
  }

  /** The calls of a first turn: its exception is reported, and `done` always follows. */
  function TurnMsgs(evs: seq<GraphEvent>, failure: Msg, done: Msg): seq<Msg> {
    (if Raised(evs) then Translated(evs) + [failure] else Translated(evs)) + [done]
  }

  /** The calls of a resumed turn: its exception is swallowed. */
  function ResumeMsgs(evs: seq<GraphEvent>, done: Msg): seq<Msg> {
    if Raised(evs) then Translated(evs) else Translated(evs) + [done]
  }

  /** SSEEmitter, or _LiveEmitter when `live`: then every stored text is queued as well. */
  class Emitter {
    var store: Store
    var hitl: bool
    var queue: seq<Option<Event>>
    const live: bool

    function State(): Stream
      reads this
    {
      Stream(store, hitl, live, queue)
    }

    /** A new emitter object on a stream's list; it has not seen an approval request. */
    constructor (store: Store, live: bool)
      ensures State() == Stream(store, false, live, [])
    {
      this.store, this.hitl, this.queue, this.live := store, false, [], live;
    }

    method EmitMsg(m: Msg)
      modifies this
      ensures State() == Emitted(old(State()), m)
    {
      if m.kind == "approval_required" {
        hitl := true;
      }
      var ttl := if hitl then TTL_HITL else TTL_NORMAL;
      var items := store.Live(m.at);
      var id := |items| + 1;
      items := items + [Event(id, m.kind, m.data)];
      store := Store(items, Some(m.at + ttl));
      if live {
        queue := queue + [Some(items[|items| - 1])];
        if m.kind == "done" {
          queue := queue + [None];
        }
      }
    }

    /** run_turn: translate until the events end; `raised` when an exception leaves it. */
    method RunTurn(evs: seq<GraphEvent>, done: Msg) returns (raised: bool)
      modifies this
      ensures raised == Raised(evs)
      ensures State() == EmittedAll(old(State()), ResumeMsgs(evs, done))
    {
      for i := 0 to |evs|
        invariant i <= Stop(evs)
        invariant State() == EmittedAll(old(State()), Sent(evs, i))
      {
        match Translate(evs[i])
        case Silent =>
        case Raises =>
          return true;
        case Emit(m) =>
          EmittedAppend(old(State()), Sent(evs, i), m);
          EmitMsg(m);
      }
      EmittedAppend(old(State()), Translated(evs), done);
      EmitMsg(done);
      return false;
    }

    /** _run_graph: a first turn; an exception becomes an error event followed by done. */
    method RunGraph(evs: seq<GraphEvent>, failure: Msg, done: Msg)
      modifies this
      ensures State() == EmittedAll(old(State()), TurnMsgs(evs, failure, done))
    {
      var raised := RunTurn(evs, done);
      if raised {
        EmittedAppend(old(State()), Translated(evs), failure);
        EmitMsg(failure);
        EmittedAppend(old(State()), Translated(evs) + [failure], done);
        EmitMsg(done);
      }
    }

    /** _resume_graph: a second emitter on the same list; exceptions are dropped. */
    method ResumeGraph(evs: seq<GraphEvent>, done: Msg)
      modifies this
      ensures State() == EmittedAll(old(State()), ResumeMsgs(evs, done))
    {
      var _ := RunTurn(evs, done);
    }

    /** stream(): what the response yields up to the sentinel, a keep-alive for every time-out before an item. */
    method Drain(timeouts: seq<nat>) returns (chunks: seq<Chunk>)
      requires |timeouts| == |queue| && None in queue
      modifies this`queue
      ensures exists n: nat :: n < |old(queue)| && old(queue)[n] == None && None !in old(queue)[..n]
                && queue == old(queue)[n + 1..]
                && chunks == Yielded(old(queue)[..n], timeouts) + seq(timeouts[n], _ => KeepAlive)
    {
      ghost var all := queue;
      chunks := [];
      var n := 0;
      while true
        invariant n < |all| && queue == all[n..] && None !in all[..n] && None in queue
        invariant chunks == Yielded(all[..n], timeouts)
        decreases |all| - n
      {
        chunks := chunks + seq(timeouts[n], _ => KeepAlive);
        var item := queue[0];
        queue := queue[1..];
        if item == None {
          return;
        }
        assert all[..n + 1] == all[..n] + [item];
        chunks := chunks + [Block(item.value)];
        n := n + 1;
      }
    }
  }

  function Yielded(items: seq<Option<Event>>, timeouts: seq<nat>): seq<Chunk>
    requires |items| <= |timeouts| && None !in items
  {
    if items == [] then []
    else
      var n := |items| - 1;
      assert items[n] in items;
      Yielded(items[..n], timeouts) + seq(timeouts[n], _ => KeepAlive) + [Block(items[n].value)]
  }

  // ---- the shape of a turn's log -------------------------------------------------------------

  /** Every emit comes before the key it extends has expired. */
  predicate Paced(s: Stream, ms: seq<Msg>) {
    ms == [] ||
    (var init, m := ms[..|ms| - 1], ms[|ms| - 1];
     var store := EmittedAll(s, init).store;
     Paced(s, init) && store.Live(m.at) == store.items)
  }

  /** The stored events of a list of calls, numbered on from n. */
  function NumberedFrom(n: nat, ms: seq<Msg>): (es: seq<Event>)
    ensures |es| == |ms|
  {
    if ms == [] then [] else NumberedFrom(n, ms[..|ms| - 1]) + [Numbered(n + |ms| - 1, ms[|ms| - 1])]
  }

  lemma {:induction false} NumberedAt(n: nat, ms: seq<Msg>, k: nat)
    requires k < |ms|
    ensures NumberedFrom(n, ms)[k] == Event(n + k + 1, ms[k].kind, ms[k].data)
  {
    if k < |ms| - 1 {
      NumberedAt(n, ms[..|ms| - 1], k);
    }
  }

  /** The i-th stored event has id i. */
  predicate Holds(log: seq<Event>) {
    forall k :: 0 <= k < |log| ==> log[k].id == k + 1
  }

  /** While the key lives the log only grows at its end, and event i has id i, whichever emitter writes. */
  lemma {:induction false} LogGrows(s: Stream, ms: seq<Msg>)
    requires Holds(s.store.items) && Paced(s, ms)
    ensures EmittedAll(s, ms).store.items == s.store.items + NumberedFrom(|s.store.items|, ms)
    ensures Holds(EmittedAll(s, ms).store.items)
  {
    if ms != [] {
      LogGrows(s, ms[..|ms| - 1]);
    }
  }

  /** What the queue holds of a list of events. */
  function Queued(es: seq<Event>): (items: seq<Option<Event>>)
    ensures |items| == |es| && forall k :: 0 <= k < |es| ==> items[k] == Some(es[k])
  {
    if es == [] then [] else Queued(es[..|es| - 1]) + [Some(es[|es| - 1])]
  }

  lemma {:induction false} QueuedAppend(es: seq<Event>, e: Event)
    ensures Queued(es + [e]) == Queued(es) + [Some(e)]
  {
    assert (es + [e])[..|es|] == es;
  }

  /** The last of a list of calls queues the text it stores, numbered on from the list. */
  lemma {:induction false} LastEmitQueues(s: Stream, ms: seq<Msg>)
    requires Holds(s.store.items) && Paced(s, ms) && ms != [] && ms[|ms| - 1].kind != "done"
    requires EmittedAll(s, ms[..|ms| - 1]).live
    ensures EmittedAll(s, ms).live
    ensures EmittedAll(s, ms).queue
         == EmittedAll(s, ms[..|ms| - 1]).queue + [Some(Numbered(|s.store.items| + |ms| - 1, ms[|ms| - 1]))]
  {
    LogGrows(s, ms[..|ms| - 1]);
  }

  lemma {:induction false} QueueIsLog(s: Stream, ms: seq<Msg>)
    requires Holds(s.store.items) && Paced(s, ms) && NoDone(ms) && s.live
    ensures EmittedAll(s, ms).queue == s.queue + Queued(NumberedFrom(|s.store.items|, ms)) && EmittedAll(s, ms).live
  {
    if ms == [] {
      assert Queued(NumberedFrom(|s.store.items|, ms)) == [];
    } else {
      var n, init, m := |s.store.items|, ms[..|ms| - 1], ms[|ms| - 1];
      QueueIsLog(s, init);
      LastEmitQueues(s, ms);
      QueuedAppend(NumberedFrom(n, init), Numbered(n + |init|, m));
    }
  }

  /** A first turn ends with its only `done`. */
  lemma OneFinalDone(evs: seq<GraphEvent>, failure: Msg, done: Msg)
    requires failure.kind == "error" && done.kind == "done"
    ensures var ms := TurnMsgs(evs, failure, done); ms != [] && ms[|ms| - 1] == done && NoDone(ms[..|ms| - 1])
  {
  }

  lemma DoneQueuesTheSentinel(s: Stream, init: seq<Msg>, done: Msg)
    requires Holds(s.store.items) && s.live && Paced(s, init + [done]) && NoDone(init) && done.kind == "done"
    ensures EmittedAll(s, init + [done]).queue == s.queue + Queued(NumberedFrom(|s.store.items|, init + [done]))
        + [None]
  {
    var ms := init + [done];
    assert ms[..|init|] == init;
    QueueIsLog(s, init);
    LogGrows(s, init);
  }

  /**
    A first turn, whatever the graph does: the list gains the translated prefix, then one error
    exactly if the graph raised, then one `done`, and nothing else; the live queue gets exactly the
    stored texts followed by the sentinel that ends the response.
  */
  lemma {:induction false} TurnLogShape(s: Stream, evs: seq<GraphEvent>, failure: Msg, done: Msg)
    requires Holds(s.store.items) && failure.kind == "error" && done.kind == "done" && s.live
    requires Paced(s, TurnMsgs(evs, failure, done))
    ensures var ms := TurnMsgs(evs, failure, done); var gained := NumberedFrom(|s.store.items|, ms);
      && ms != [] && ms[|ms| - 1] == done && NoDone(ms[..|ms| - 1])
      && EmittedAll(s, ms).store.items == s.store.items + gained
      && EmittedAll(s, ms).queue == s.queue + Queued(gained) + [None]
  {
    var ms := TurnMsgs(evs, failure, done);
    OneFinalDone(evs, failure, done);
    LogGrows(s, ms);
    assert ms == ms[..|ms| - 1] + [done];
    DoneQueuesTheSentinel(s, ms[..|ms| - 1], done);
  }

  // ---- a live connection that breaks ---------------------------------------------------------

  /**
    When the live response ends before the turn, because the client is gone, the turn's task is
    cancelled.  A cancellation is no Exception, so neither handler of the task runs: the list keeps
    the first n calls of the turn, and nothing else is ever emitted for it.
  */
  function CutTurn(evs: seq<GraphEvent>, failure: Msg, done: Msg, n: nat): seq<Msg>
    requires n <= |TurnMsgs(evs, failure, done)|
  {
    TurnMsgs(evs, failure, done)[..n]
  }

  predicate HasDone(log: seq<Event>) {
    exists k :: 0 <= k < |log| && log[k].kind == "done"
  }

  lemma {:induction false} DoneIsStored(n: nat, ms: seq<Msg>)
    ensures HasDone(NumberedFrom(n, ms)) <==> !NoDone(ms)
  {
    var log := NumberedFrom(n, ms);
    forall k | 0 <= k < |ms|
      ensures log[k].kind == ms[k].kind
    {
      NumberedAt(n, ms, k);
    }
    if !NoDone(ms) {
      var k :| 0 <= k < |ms| && ms[k].kind == "done";
      assert log[k].kind == "done";
    }
  }

  /** A broken connection leaves a `done` on a new stream's list if and only if the turn was over. */
  lemma CutTurnHasDoneIff(s: Stream, evs: seq<GraphEvent>, failure: Msg, done: Msg, n: nat)
    requires s.store.items == [] && failure.kind == "error" && done.kind == "done"
    requires n <= |TurnMsgs(evs, failure, done)| && Paced(s, CutTurn(evs, failure, done, n))
    ensures var log := EmittedAll(s, CutTurn(evs, failure, done, n)).store.items;
      && log == NumberedFrom(0, CutTurn(evs, failure, done, n)) && Holds(log)
      && (HasDone(log) <==> n == |TurnMsgs(evs, failure, done)|)
  {
    var ms, all := CutTurn(evs, failure, done, n), TurnMsgs(evs, failure, done);
    LogGrows(s, ms);
    OneFinalDone(evs, failure, done);
    DoneIsStored(0, ms);
    if n == |all| {
      assert ms[n - 1] == done;
    } else {
      assert forall k :: 0 <= k < n ==> ms[k] == all[..|all| - 1][k];
    }
  }

  /** A resumed turn ends its log with `done` if and only if its graph did not raise. */
  lemma ResumeEndsIff(evs: seq<GraphEvent>, done: Msg)
    requires done.kind == "done"
    ensures var ms := ResumeMsgs(evs, done);
      (ms != [] && ms[|ms| - 1].kind == "done" <==> !Raised(evs)) && (Raised(evs) ==> NoDone(ms))
  {
  }

  predicate Asks(ms: seq<Msg>) {
    exists k :: 0 <= k < |ms| && ms[k].kind == "approval_required"
  }

  /**
    After any emits the list expires 15 minutes after the last one if this emitter object has ever
    emitted an approval request, and 5 minutes after it if not, whatever other emitters did before.
  */
  lemma {:induction false} ListDeadline(s: Stream, ms: seq<Msg>)
    requires ms != []
    ensures EmittedAll(s, ms).hitl <==> s.hitl || Asks(ms)
    ensures EmittedAll(s, ms).store.deadline == Some(ms[|ms| - 1].at + if s.hitl || Asks(ms) then 900 else 300)
  {
    var init, m := ms[..|ms| - 1], ms[|ms| - 1];
    if init != [] {
      ListDeadline(s, init);
    }
    assert Asks(ms) <==> Asks(init) || m.kind == "approval_required" by {
      if Asks(init) {
        var k :| 0 <= k < |init| && init[k].kind == "approval_required";
        assert ms[k] == init[k];
      }
      if Asks(ms) && m.kind != "approval_required" {
        var k :| 0 <= k < |ms| && ms[k].kind == "approval_required";
        assert init[k] == ms[k];
      }
    }
  }

  /**
    While the emitter that requested an approval is the last to write, the list outlives the
    approval's ten minutes.
  */
  lemma ApprovalOutlived(s: Stream, ms: seq<Msg>, created: int)
    requires Asks(ms) && created <= ms[|ms| - 1].at
    ensures var d := EmittedAll(s, ms).store.deadline; d.Some? && created + 600 < d.value
  {
    ListDeadline(s, ms);
  }

  /**
    The resume's emitter is a new object on the same list and does not know of the request: from its
    first emit on the list lives 5 minutes past the last one, so it expires earlier than the
    suspended turn left it if and only if that emit comes within 10 minutes of the turn's last.
  */
  lemma ResumeCutsTheListIff(s: Stream, turn: seq<Msg>, live: bool, resumed: seq<Msg>)
    requires Asks(turn) && resumed != [] && !Asks(resumed)
    ensures var suspended := EmittedAll(s, turn).store;
      var after := EmittedAll(Stream(suspended, false, live, []), resumed).store;
      && after.deadline == Some(resumed[|resumed| - 1].at + 300)
      && (after.deadline.value < suspended.deadline.value <==> resumed[|resumed| - 1].at < turn[|turn| - 1].at + 600)
  {
    ListDeadline(s, turn);
    ListDeadline(Stream(EmittedAll(s, turn).store, false, live, []), resumed);
  }
}
