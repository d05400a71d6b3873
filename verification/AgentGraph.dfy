/**
  One turn of the agent graph: the routing functions of src/graph/edges.py, the transition table
  and the interrupt of src/agents/graph.py, and what each node writes.

  A resume is modelled as it is documented: the decision is merged into the suspended state and
  then routing goes on.  Every answer from outside is part of the run, so a statement about all
  runs covers all of them.
*/
module AgentGraph {
  import opened Prelude
  import opened Nodes

  datatype Message = Human(content: string) | Ai(content: string)

  /** The state fields that routing and the nodes read or write; error is the error's code. */
  datatype State = State(
    messages: seq<Message>,
    toolCalls: seq<ToolCall>,
    toolResults: seq<ToolResult>,
    pending: bool,
    decision: Option<string>,
    error: Option<string>,
    thread: string)

  datatype Node = Router | HitlGate | ToolExecutor | Llm | ErrorHandler | End

  // ---- edges ---------------------------------------------------------------------------------

  predicate Sensitive(calls: seq<ToolCall>) {
    exists k :: 0 <= k < |calls| && calls[k].sensitive
  }

  /** Truthiness of a result's error: None and the empty text are both false. */
  predicate Truthy(error: Option<string>) {
    error.Some? && error.value != ""
  }

  /** The labels that the routing functions return; Finish stands for the plain edge out of the error handler. */
  datatype Label = LlmDirect | Hitl | Tool | Approved | Denied | Success | Failure | Finish

  function RouteAfterRouter(s: State): Label {
    if s.toolCalls == [] then LlmDirect
    else if Sensitive(s.toolCalls) then Hitl
    else if s.error.Some? then Failure
    else Tool
  }

  function RouteAfterHitl(s: State): Label {
    if s.decision == Some("approve") then Approved
    else if s.decision == Some("deny") then Denied
    else Failure
  }

  function RouteAfterTools(s: State): Label {
    if s.error.Some? then Failure
    else if forall k :: 0 <= k < |s.toolResults| ==> Truthy(s.toolResults[k].error) then Failure
    else Success
  }

  function RouteAfterLlm(s: State): Label {
    if s.error.Some? then Failure
    else if s.messages == [] || s.messages[|s.messages| - 1].content == "" then Failure
    else Success
  }

  /** The label a node's routing function returns. */
  function Route(n: Node, s: State): Label {
    match n
    case Router => RouteAfterRouter(s)
    case HitlGate => RouteAfterHitl(s)
    case ToolExecutor => RouteAfterTools(s)
    case Llm => RouteAfterLlm(s)
    case _ => Finish
  }

  type Table = map<(Node, Label), Node>

  const TABLE: Table := map[
    (Router, Hitl) := HitlGate, (Router, Tool) := ToolExecutor, (Router, LlmDirect) := Llm,
        (Router, Failure) := ErrorHandler,
    (HitlGate, Approved) := ToolExecutor, (HitlGate, Denied) := ErrorHandler, (HitlGate, Failure) := ErrorHandler,
    (ToolExecutor, Success) := Llm, (ToolExecutor, Failure) := ErrorHandler,
    (Llm, Success) := End, (Llm, Failure) := ErrorHandler,
    (ErrorHandler, Finish) := End]

  /** The graph builder. */
  class Builder {
    var edges: Table
    var interruptAfter: set<Node>

    constructor ()
      ensures edges == map[] && interruptAfter == {}
    {
      edges, interruptAfter := map[], {};
    }

    method AddEdge(node: Node, way: Label, target: Node)
      modifies this`edges
      ensures edges == old(edges)[(node, way) := target]
    {
      edges := edges[(node, way) := target];
    }

    method Build()
      requires edges == map[]
      modifies this
      ensures edges == TABLE && interruptAfter == {HitlGate}
    {
      AddEdge(Router, Hitl, HitlGate);
      AddEdge(Router, Tool, ToolExecutor);
      AddEdge(Router, LlmDirect, Llm);
      AddEdge(Router, Failure, ErrorHandler);
      AddEdge(HitlGate, Approved, ToolExecutor);
      AddEdge(HitlGate, Denied, ErrorHandler);
      AddEdge(HitlGate, Failure, ErrorHandler);
      AddEdge(ToolExecutor, Success, Llm);
      AddEdge(ToolExecutor, Failure, ErrorHandler);
      AddEdge(Llm, Success, End);
      AddEdge(Llm, Failure, ErrorHandler);
      AddEdge(ErrorHandler, Finish, End);
      interruptAfter := {HitlGate};
    }
  }

  /** Whatever the state, the label returned after a node has an edge in the table. */
  lemma RoutingIsTotal(n: Node, s: State)
    requires n != End
    ensures (n, Route(n, s)) in TABLE
  {
  }

  // ---- nodes ---------------------------------------------------------------------------------

  /** What the world answers while one node runs. */
  datatype World = World(
    proposed: seq<(string, string)>,  // the router model's tool calls
    writes: bool,                     // the database takes a well-formed write
    uuids: map<string, nat>,          // the texts that are UUIDs, and which
    conversations: set<nat>,          // the rows of the conversation table
    trials: seq<seq<Trial>>,          // four trials for each tool call
    primary: seq<Reply>,              // three primary model replies
    fallbacks: seq<Reply>)

  /** The gate's insert succeeds: the foreign key needs the row of the conversation. */
  predicate Stores(w: World, s: State) {
    w.writes && GateConversation(s.thread, w.uuids) in w.conversations
  }

  predicate Fits(w: World, s: State) {
    && |w.primary| == 3
    && |w.trials| == |s.toolCalls|
    && (forall k :: 0 <= k < |w.trials| ==> |w.trials[k]| == 4)
  }

  function FailedNames(rs: seq<ToolResult>): seq<string> {
    if rs == [] then [] else (if Truthy(rs[0].error) then [rs[0].tool] else []) + FailedNames(rs[1..])
  }

  /** The error handler's messages; the texts stand for the user-facing ones, which are never empty. */
  datatype Notice = Cancelled | ToolsFailed(names: seq<string>) | Unavailable | TimedOut | Generic {
    function Text(): (text: string)
      ensures text != ""
    {
      match this
      case Cancelled => "cancelled"
      case ToolsFailed(names) => if names == [] then "tools failed" else "failed: " + names[0]
      case Unavailable => "unavailable"
      case TimedOut => "timed out"
      case Generic => "failed"
    }
  }

  /** Which message the state's error code gets. */
  function NoticeFor(s: State): Notice {
    var code := if s.error.Some? then s.error.value else "UNKNOWN";
    if code == "HITL_DENIED" then Cancelled
    else if code in {"TOOL_ERROR", "TOOL_TIMEOUT"} then ToolsFailed(FailedNames(s.toolResults))
    else if code in {"ALL_MODELS_FAILED", "NO_FALLBACK_CONFIGURED"} then Unavailable
    else if code == "HITL_TIMEOUT" then TimedOut
    else Generic
  }

  /** The state after a node has run. */
  function NodeRuns(n: Node, s: State, w: World, registry: Registry): State
    requires Fits(w, s)
  {
    match n
    case Router => s.(toolCalls := Selected(w.proposed, registry), toolResults := [])
    case HitlGate => if Stores(w, s) then s.(pending := true) else s.(error := Some("HITL_DB_ERROR"))
    case ToolExecutor => s.(toolResults := Executed(s.toolCalls, w.trials))
    case Llm =>
      var answer := Answer(w.primary + w.fallbacks);
      if answer.Some? then s.(messages := s.messages + [Ai(answer.value)]) else s.(error := Some("ALL_MODELS_FAILED"))
    case ErrorHandler => s.(messages := s.messages + [Ai(NoticeFor(s).Text())], error := None)
    case End => s
  }

  // ---- a turn --------------------------------------------------------------------------------

  /** Where a turn stands: about to run a node, suspended after the gate, or broken off by an exception. */
  datatype Place = At(n: Node) | Suspended | Broken

  /** open: the gate has stored an approval for this turn that is neither used nor expired. */
  datatype Turn = Turn(place: Place, state: State, open: bool)

  /** One move of a turn. */
  datatype Move =
    | Run(w: World)             // a node runs
    | Raise                     // a node raises, or its task is cancelled
    | Resume(decision: string)  // the suspended graph is resumed with a decision
    | Lapse                     // the sweeper expires the approval
    | Purged                    // the retention job deletes it
    | ResumeLost                // it is used, but the resume's task raises before the graph moves

  /** The moves that take a suspended turn's approval away without moving the graph. */
  predicate Closes(m: Move) {
    m.Lapse? || m.Purged? || m.ResumeLost?
  }

  /** The state a turn starts in: the new message, and everything else reset. */
  predicate Starts(t: Turn) {
    && t.place == At(Router) && !t.open
    && t.state.toolCalls == [] && t.state.toolResults == [] && !t.state.pending
    && t.state.decision == None && t.state.error == None
  }

  /** The approve endpoint is the only caller that resumes, and it needs an open approval. */
  predicate CanMove(t: Turn, m: Move) {
    match m
    case Run(w) => t.place.At? && t.place.n != End && Fits(w, t.state)
    case Raise => t.place.At? && t.place.n != End
    case _ => t.place == Suspended && t.open
  }

  function Moved(t: Turn, m: Move, registry: Registry): Turn
    requires CanMove(t, m)
  {
    match m
    case Run(w) =>
      var s := NodeRuns(t.place.n, t.state, w, registry);
      if t.place.n == HitlGate then Turn(Suspended, s, Stores(w, t.state))
      else
        RoutingIsTotal(t.place.n, s);
        Turn(At(TABLE[(t.place.n, Route(t.place.n, s))]), s, t.open)
    case Raise => t.(place := Broken)
    case Resume(decision) =>
      var s := t.state.(decision := Some(decision), pending := false);
      RoutingIsTotal(HitlGate, s);
      Turn(At(TABLE[(HitlGate, RouteAfterHitl(s))]), s, false)
    case _ => t.(open := false)
  }

  predicate Plays(t: Turn, ms: seq<Move>, registry: Registry)
    decreases |ms|, 0
  {
    ms == [] ||
    (Plays(t, ms[..|ms| - 1], registry) && CanMove(Played(t, ms[..|ms| - 1], registry), ms[|ms| - 1]))
  }

  function Played(t: Turn, ms: seq<Move>, registry: Registry): Turn
    requires Plays(t, ms, registry)
    decreases |ms|, 1
  {
    if ms == [] then t else Moved(Played(t, ms[..|ms| - 1], registry), ms[|ms| - 1], registry)
  }

  /** Every prefix of a play is a play. */
  lemma {:induction false} PrefixPlays(t: Turn, ms: seq<Move>, registry: Registry, i: nat)
    requires Plays(t, ms, registry) && i <= |ms|
    ensures Plays(t, ms[..i], registry)
    decreases |ms|
  {
    if i == |ms| {
      assert ms[..i] == ms;
    } else {
      PrefixPlays(t, ms[..|ms| - 1], registry, i);
      assert ms[..|ms| - 1][..i] == ms[..i];
    }
  }

  /** The turn after its first i moves. */
  function TurnAt(t: Turn, ms: seq<Move>, registry: Registry, i: nat): Turn
    requires Plays(t, ms, registry) && i <= |ms|
  {
    PrefixPlays(t, ms, registry, i);
    Played(t, ms[..i], registry)
  }

  lemma TurnAtStep(t: Turn, ms: seq<Move>, registry: Registry, i: nat)
    requires Plays(t, ms, registry) && i < |ms|
    ensures CanMove(TurnAt(t, ms, registry, i), ms[i])
    ensures TurnAt(t, ms, registry, i + 1) == Moved(TurnAt(t, ms, registry, i), ms[i], registry)
  {
    PrefixPlays(t, ms, registry, i + 1);
    assert ms[..i + 1][..i] == ms[..i];
  }

  // ---- termination ---------------------------------------------------------------------------

  /** How many moves a turn can still make. */
  function Rank(t: Turn): nat {
    match t.place
    case At(Router) => 6
    case At(HitlGate) => 5
    case Suspended => if t.open then 4 else 0
    case At(ToolExecutor) => 3
    case At(Llm) => 2
    case At(ErrorHandler) => 1
    case At(End) => 0
    case Broken => 0
  }

  lemma MoveLowersRank(t: Turn, m: Move, registry: Registry)
    requires CanMove(t, m)
    ensures Rank(Moved(t, m, registry)) < Rank(t)
  {
  }

  lemma {:induction false} RankFalls(t: Turn, ms: seq<Move>, registry: Registry, i: nat, j: nat)
    requires Plays(t, ms, registry) && i <= j <= |ms|
    ensures Rank(TurnAt(t, ms, registry, j)) + (j - i) <= Rank(TurnAt(t, ms, registry, i))
    decreases j - i
  {
    if i < j {
      RankFalls(t, ms, registry, i, j - 1);
      TurnAtStep(t, ms, registry, j - 1);
      MoveLowersRank(TurnAt(t, ms, registry, j - 1), ms[j - 1], registry);
    }
  }

  /** Every turn is over after at most six moves, whatever the world answers. */
  lemma TurnsTerminate(t: Turn, ms: seq<Move>, registry: Registry)
    requires Starts(t) && Plays(t, ms, registry)
    ensures |ms| <= 6
  {
    RankFalls(t, ms, registry, 0, |ms|);
  }

  /** A world in which nothing answers. */
  function Silence(calls: nat): (w: World)
    ensures |w.primary| == 3 && |w.trials| == calls && forall k :: 0 <= k < calls ==> |w.trials[k]| == 4
  {
    World([], true, map[], {}, seq(calls, _ => [Hangs, Hangs, Hangs, Hangs]), [Stalls, Stalls, Stalls], [])
  }

  /**
    A turn can go on exactly when it has not ended, was not broken off, and is not suspended without
    an open approval.
  */
  lemma CanGoOnIff(t: Turn)
    ensures (exists m :: CanMove(t, m)) <==> t.place !in {At(End), Broken} && (t.place == Suspended ==> t.open)
  {
    if t.place == Suspended {
      assert t.open ==> CanMove(t, Lapse);
    } else if t.place !in {At(End), Broken} {
      assert CanMove(t, Run(Silence(|t.state.toolCalls|)));
    }
  }

  // ---- what holds wherever a turn stands -----------------------------------------------------

  predicate Ok(t: Turn, registry: Registry) {
    var s := t.state;
    match t.place
    case At(Router) => s.decision == None && s.error == None && !s.pending
    case At(HitlGate) => s.decision == None && s.error == None && !s.pending && Sensitive(s.toolCalls)
        && Registered(s.toolCalls, registry)
    case Suspended =>
      && s.decision == None && Sensitive(s.toolCalls) && Registered(s.toolCalls, registry)
      && s.error == (if s.pending then None else Some("HITL_DB_ERROR"))
      && (t.open ==> s.pending)
    case At(ToolExecutor) =>
      && Registered(s.toolCalls, registry) && s.toolCalls != [] && s.error == None
      && (Sensitive(s.toolCalls) ==> s.decision == Some("approve"))
    case At(Llm) => s.error == None
    case At(ErrorHandler) => s.error in {None, Some("ALL_MODELS_FAILED")}
    case At(End) => s.error == None && s.messages != [] && s.messages[|s.messages| - 1].Ai?
        && s.messages[|s.messages| - 1].content != ""
    case Broken => true
  }

  lemma MoveKeepsOk(t: Turn, m: Move, registry: Registry)
    requires Ok(t, registry) && CanMove(t, m)
    ensures Ok(Moved(t, m, registry), registry)
  {
  }

  lemma {:induction false} PlayKeepsOk(t: Turn, ms: seq<Move>, registry: Registry)
    requires Starts(t) && Plays(t, ms, registry)
    ensures Ok(Played(t, ms, registry), registry)
    decreases |ms|
  {
    if ms != [] {
      PlayKeepsOk(t, ms[..|ms| - 1], registry);
      MoveKeepsOk(Played(t, ms[..|ms| - 1], registry), ms[|ms| - 1], registry);
    }
  }

  /** A turn that reaches the end leaves no error and a last message from the assistant that is not empty. */
  lemma EndIsClean(t: Turn, ms: seq<Move>, registry: Registry)
    requires Starts(t) && Plays(t, ms, registry) && Played(t, ms, registry).place == At(End)
    ensures var s := Played(t, ms, registry).state;
      s.error == None && s.messages != [] && s.messages[|s.messages| - 1].Ai?
          && s.messages[|s.messages| - 1].content != ""
  {
    PlayKeepsOk(t, ms, registry);
  }

  /** The executor looks up only registered tools. */
  lemma LookupsAreDefined(t: Turn, ms: seq<Move>, registry: Registry)
    requires Starts(t) && Plays(t, ms, registry) && Played(t, ms, registry).place == At(ToolExecutor)
    ensures Registered(Played(t, ms, registry).state.toolCalls, registry)
  {
    PlayKeepsOk(t, ms, registry);
  }

  // ---- safety --------------------------------------------------------------------------------

  lemma OnlyResumesDecide(t: Turn, m: Move, registry: Registry)
    requires CanMove(t, m) && !m.Resume?
    ensures Moved(t, m, registry).state.decision == t.state.decision
  {
  }

  /**
    A decision in the state was put there by resuming the suspended turn, and the tool calls are still
    those it was suspended with.
  */
  lemma {:induction false} DecisionsComeFromResumes(t: Turn, ms: seq<Move>, registry: Registry) returns (j: nat)
    requires Starts(t) && Plays(t, ms, registry) && Played(t, ms, registry).state.decision.Some?
    ensures j < |ms| && ms[j] == Resume(Played(t, ms, registry).state.decision.value)
    ensures TurnAt(t, ms, registry, j).place == Suspended
    ensures TurnAt(t, ms, registry, j).state.toolCalls == Played(t, ms, registry).state.toolCalls
    decreases |ms|
  {
    var init, m := ms[..|ms| - 1], ms[|ms| - 1];
    if m.Resume? {
      j := |ms| - 1;
    } else {
      PlayKeepsOk(t, init, registry);
      OnlyResumesDecide(Played(t, init, registry), m, registry);
      j := DecisionsComeFromResumes(t, init, registry);
      assert init[..j] == ms[..j];
    }
  }

  /** Tool results stay empty up to the executor, and with a sensitive call they need the approval. */
  predicate ResultsOk(t: Turn) {
    && (t.place in {At(Router), At(HitlGate), Suspended, At(ToolExecutor)} ==> t.state.toolResults == [])
    && (t.state.toolResults != [] && Sensitive(t.state.toolCalls) ==> t.state.decision == Some("approve"))
  }

  lemma {:induction false} PlayKeepsResultsOk(t: Turn, ms: seq<Move>, registry: Registry)
    requires Starts(t) && Plays(t, ms, registry)
    ensures ResultsOk(Played(t, ms, registry))
    decreases |ms|
  {
    if ms != [] {
      PlayKeepsResultsOk(t, ms[..|ms| - 1], registry);
      PlayKeepsOk(t, ms[..|ms| - 1], registry);
    }
  }

  /**
    Safety: in every turn, when the tool executor is about to run a list with a sensitive call, and
    whenever such a list has results, the turn was suspended at the gate with that very list and
    resumed with "approve".
  */
  lemma {:induction false} SensitiveNeedsApproval(t: Turn, ms: seq<Move>, registry: Registry)
    requires Starts(t) && Plays(t, ms, registry)
    requires var now := Played(t, ms, registry);
      (now.place == At(ToolExecutor) || now.state.toolResults != []) && Sensitive(now.state.toolCalls)
    ensures exists j: nat :: j < |ms| && ms[j] == Resume("approve") && TurnAt(t, ms, registry, j).place == Suspended
              && TurnAt(t, ms, registry, j).state.toolCalls == Played(t, ms, registry).state.toolCalls
  {
    PlayKeepsOk(t, ms, registry);
    PlayKeepsResultsOk(t, ms, registry);
    var j := DecisionsComeFromResumes(t, ms, registry);
  }

  /** A turn resumed with anything but "approve" never reaches the tool executor, before or after. */
  lemma DeniedRunsNoTool(t: Turn, ms: seq<Move>, registry: Registry, j: nat, i: nat)
    requires Starts(t) && Plays(t, ms, registry) && j < |ms| && i <= |ms|
    requires ms[j].Resume? && ms[j].decision != "approve"
    ensures TurnAt(t, ms, registry, i).place != At(ToolExecutor)
  {
    TurnAtStep(t, ms, registry, j);
    if i <= j {
      RankFalls(t, ms, registry, i, j);
    } else {
      RankFalls(t, ms, registry, j + 1, i);
    }
  }

  /** Nor does such a turn ever hold a tool result. */
  lemma {:induction false} DeniedHasNoResults(t: Turn, ms: seq<Move>, registry: Registry, j: nat, i: nat)
    requires Starts(t) && Plays(t, ms, registry) && j < |ms| && i <= |ms|
    requires ms[j].Resume? && ms[j].decision != "approve"
    ensures TurnAt(t, ms, registry, i).state.toolResults == []
    decreases i
  {
    if i > 0 {
      DeniedHasNoResults(t, ms, registry, j, i - 1);
      DeniedRunsNoTool(t, ms, registry, j, i - 1);
      TurnAtStep(t, ms, registry, i - 1);
    }
  }

  // ---- promises that do not hold as made -----------------------------------------------------

  /**
    The error handler has messages for denied and timed-out approvals and for failed tools, but no
    node sets those codes: every turn that reaches it gets the generic message, or the one for
    unavailable models exactly when the model node failed.
  */
  lemma OnlyTwoNotices(t: Turn, ms: seq<Move>, registry: Registry)
    requires Starts(t) && Plays(t, ms, registry) && Played(t, ms, registry).place == At(ErrorHandler)
    ensures var s := Played(t, ms, registry).state;
      NoticeFor(s) == if s.error == Some("ALL_MODELS_FAILED") then Unavailable else Generic
  {
    PlayKeepsOk(t, ms, registry);
  }

  /** After a denial the user reads the generic message, not the cancellation. */
  lemma DenialReadsGeneric(t: Turn, ms: seq<Move>, registry: Registry)
    requires Starts(t) && ms != [] && Plays(t, ms, registry) && ms[|ms| - 1] == Resume("deny")
    ensures var now := Played(t, ms, registry); now.place == At(ErrorHandler) && NoticeFor(now.state) == Generic
  {
    PlayKeepsOk(t, ms[..|ms| - 1], registry);
    OnlyTwoNotices(t, ms, registry);
  }

  /** Nothing moves after the approval was taken away. */
  lemma ClosingIsLast(t: Turn, ms: seq<Move>, registry: Registry, j: nat)
    requires Plays(t, ms, registry) && j < |ms| && Closes(ms[j])
    ensures j == |ms| - 1
  {
    TurnAtStep(t, ms, registry, j);
    RankFalls(t, ms, registry, j + 1, |ms|);
  }

  /**
    A suspended turn can go on if and only if the gate stored its approval and neither the sweeper,
    nor the retention job, nor a resume that failed at once has taken it away.  Otherwise it stays
    suspended for ever: it never reaches the error handler, which would answer.
  */
  lemma StrandedIff(t: Turn, ms: seq<Move>, registry: Registry)
    requires Starts(t) && Plays(t, ms, registry) && Played(t, ms, registry).place == Suspended
    ensures var now := Played(t, ms, registry);
      && ((exists m :: CanMove(now, m)) <==> now.state.pending && forall m :: m in ms ==> !Closes(m))
      && ((exists m :: CanMove(now, m)) <==> CanMove(now, Resume("approve")))
  {
    var init, m := ms[..|ms| - 1], ms[|ms| - 1];
    CanGoOnIff(Played(t, ms, registry));
    PlayKeepsOk(t, init, registry);
    if Closes(m) {
      assert m in ms && !Played(t, ms, registry).open;
    } else {
      forall x | x in ms
        ensures !Closes(x)
      {
        var j :| 0 <= j < |ms| && ms[j] == x;
        if Closes(x) {
          ClosingIsLast(t, ms, registry, j);
        }
      }
    }
  }

  /** Extends a play by one move. */
  lemma Go(t: Turn, ms: seq<Move>, m: Move, registry: Registry) returns (more: seq<Move>, now: Turn)
    requires Plays(t, ms, registry) && CanMove(Played(t, ms, registry), m)
    ensures more == ms + [m] && Plays(t, more, registry)
    ensures now == Played(t, more, registry) == Moved(Played(t, ms, registry), m, registry)
  {
    more := ms + [m];
    assert more[..|ms|] == ms;
    now := Played(t, more, registry);
  }

  /** A play that ends suspended, with an approval stored or not. */
  lemma ReachesSuspension(stored: bool) returns (t: Turn, ms: seq<Move>, registry: Registry)
    ensures Starts(t) && Plays(t, ms, registry) && forall m :: m in ms ==> !Closes(m)
    ensures var now := Played(t, ms, registry);
      now.place == Suspended && now.open == now.state.pending == stored
  {
    registry := map["web_search" := true];
    t := Turn(At(Router), State([Human("q")], [], [], false, None, None, "guest" + "|" + "f"), false);
    var calls := [ToolCall("web_search", "q", true)];
    assert [("web_search", "q")][1..] == [];
    assert Selected([("web_search", "q")], registry) == calls && calls[0].sensitive;
    var router := World([("web_search", "q")], true, map[], {}, [], [Stalls, Stalls, Stalls], []);
    var now;
    ms, now := Go(t, [], Run(router), registry);
    assert now == Turn(At(HitlGate), t.state.(toolCalls := calls), false);
    GuestsHaveNoConversation("f", map[]);
    ms, now := Go(t, ms, Run(Silence(1).(conversations := if stored then {NIL_UUID} else {})), registry);
  }

  /** Suspended, and no move is left. */
  ghost predicate Stranded(t: Turn) {
    t.place == Suspended && forall m :: !CanMove(t, m)
  }

  /** Every way of being stranded is reachable: a failed approval write, and each way of losing the approval. */
  lemma TurnsAreStranded(cause: Option<Move>)
    requires cause.Some? ==> Closes(cause.value)
    ensures exists t, ms, registry ::
      && Starts(t) && Plays(t, ms, registry) && Stranded(Played(t, ms, registry))
      && (forall m :: m in ms && Closes(m) ==> cause == Some(m))
      && (cause.Some? ==> cause.value in ms)
  {
    var t, ms, registry := ReachesSuspension(cause.Some?);
    if cause.Some? {
      var more, now := Go(t, ms, cause.value, registry);
      assert more[|ms|] == cause.value && Stranded(now);
    } else {
      assert Stranded(Played(t, ms, registry));
    }
  }

  // ---- turns without a conversation row ------------------------------------------------------

  /** Whenever a node runs, the conversation of the thread has no row. */
  predicate NoRow(thread: string, ms: seq<Move>) {
    forall i :: 0 <= i < |ms| && ms[i].Run? ==> GateConversation(thread, ms[i].w.uuids) !in ms[i].w.conversations
  }

  /** A turn whose conversation has no row never gets an approval, whatever the world answers. */
  lemma {:induction false} NoRowNoApproval(t: Turn, ms: seq<Move>, registry: Registry)
    requires Starts(t) && Plays(t, ms, registry) && NoRow(t.state.thread, ms)
    ensures var now := Played(t, ms, registry);
      !now.open && now.state.thread == t.state.thread && now.state.decision == None
    decreases |ms|
  {
    if ms != [] {
      var init := ms[..|ms| - 1];
      assert forall i :: 0 <= i < |init| ==> init[i] == ms[i];
      NoRowNoApproval(t, init, registry);
      assert ms[|ms| - 1].Run? ==> !Stores(ms[|ms| - 1].w, Played(t, init, registry).state);
    }
  }

  /** So it is stranded as soon as it is suspended, and no sensitive list of calls is ever executed. */
  lemma NoRowStrands(t: Turn, ms: seq<Move>, registry: Registry)
    requires Starts(t) && Plays(t, ms, registry) && NoRow(t.state.thread, ms)
    ensures var now := Played(t, ms, registry);
      && (now.place == Suspended ==> Stranded(now))
      && (now.place == At(ToolExecutor) || now.state.toolResults != [] ==> !Sensitive(now.state.toolCalls))
  {
    NoRowNoApproval(t, ms, registry);
    PlayKeepsOk(t, ms, registry);
    PlayKeepsResultsOk(t, ms, registry);
  }

  /**
    Guests are promised approvals too, but no conversation has the nil id: their sensitive turns are
    always stranded.
  */
  lemma GuestTurnsAreStranded(t: Turn, ms: seq<Move>, registry: Registry, fingerprint: string)
    requires Starts(t) && Plays(t, ms, registry) && t.state.thread == "guest" + "|" + fingerprint
    requires forall i :: 0 <= i < |ms| && ms[i].Run? ==> NIL_UUID !in ms[i].w.conversations
    ensures var now := Played(t, ms, registry);
      && (now.place == Suspended ==> Stranded(now))
      && (now.place == At(ToolExecutor) || now.state.toolResults != [] ==> !Sensitive(now.state.toolCalls))
  {
    forall i | 0 <= i < |ms| && ms[i].Run?
      ensures GateConversation(t.state.thread, ms[i].w.uuids) == NIL_UUID
    {
      GuestsHaveNoConversation(fingerprint, ms[i].w.uuids);
    }
    NoRowStrands(t, ms, registry);
  }

  predicate AllFailed(rs: seq<ToolResult>) {
    forall k :: 0 <= k < |rs| ==> rs[k].error.Some?
  }

  /** When every tool failed, the turn goes to the error handler exactly if no failure has an empty text. */
  lemma AllFailedRoutesToErrorIff(s: State)
    requires s.error == None && AllFailed(s.toolResults)
    ensures RouteAfterTools(s) == Failure
        <==> forall k :: 0 <= k < |s.toolResults| ==> s.toolResults[k].error != Some("")
  {
  }

  /** A time-out has no text: when every attempt of every tool times out, the model is asked all the same. */
  lemma TimeoutsCountAsSuccess(s: State, w: World, registry: Registry)
    requires Fits(w, s) && s.error == None && s.toolCalls != []
    requires forall k, i :: 0 <= k < |w.trials| && 0 <= i < 4 ==> w.trials[k][i] == Hangs
    ensures var s' := NodeRuns(ToolExecutor, s, w, registry);
      AllFailed(s'.toolResults) && RouteAfterTools(s') == Success
  {
    var s' := NodeRuns(ToolExecutor, s, w, registry);
    forall k | 0 <= k < |s'.toolResults|
      ensures s'.toolResults[k].error == Some("")
    {
      assert s'.toolResults[k] == Tried(s.toolCalls[k], w.trials[k]);
      assert forall i :: 0 <= i < 4 ==> !Succeeds(w.trials[k][i]);
    }
    assert !Truthy(s'.toolResults[0].error);
  }
}
