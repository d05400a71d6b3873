/**
  The loops inside the graph's nodes: tool selection (src/graph/nodes/router.py), tool retries
  (src/graph/nodes/tool_executor.py) and the model chain (src/graph/nodes/llm.py).  What tools and
  models answer is an arbitrary input.
*/
module Nodes {
  import opened Prelude

  datatype ToolCall = ToolCall(tool: string, input: string, sensitive: bool)

  /** error: None on success; an exception's text otherwise, which may be empty. */
  datatype ToolResult = ToolResult(tool: string, output: string, error: Option<string>)

  /** The loaded tools and whether each is sensitive. */
  type Registry = map<string, bool>

  // ---- router --------------------------------------------------------------------------------

  predicate Registered(calls: seq<ToolCall>, registry: Registry) {
    forall k :: 0 <= k < |calls| ==> calls[k].tool in registry && calls[k].sensitive == registry[calls[k].tool]
  }

  /** The model's proposals that name a registered tool, in order. */
  function Selected(proposed: seq<(string, string)>, registry: Registry): (calls: seq<ToolCall>)
    ensures Registered(calls, registry)
  {
    if proposed == [] then []
    else
      var rest := Selected(proposed[1..], registry);
      var (name, input) := proposed[0];
      if name in registry then [ToolCall(name, input, registry[name])] + rest else rest
  }

  /** The router's loop: unknown names are dropped, and every call it keeps can be looked up. */
  method SelectTools(proposed: seq<(string, string)>, registry: Registry) returns (selected: seq<ToolCall>)
    ensures selected == Selected(proposed, registry)
    ensures Registered(selected, registry)
    ensures forall k :: 0 <= k < |proposed| && proposed[k].0 in registry ==>
              ToolCall(proposed[k].0, proposed[k].1, registry[proposed[k].0]) in selected
  {
    selected := [];
    for i := 0 to |proposed|
      invariant selected + Selected(proposed[i..], registry) == Selected(proposed, registry)
      invariant Registered(selected, registry)
      invariant forall k :: 0 <= k < i && proposed[k].0 in registry ==>
                  ToolCall(proposed[k].0, proposed[k].1, registry[proposed[k].0]) in selected
    {
      assert proposed[i..][0] == proposed[i] && proposed[i..][1..] == proposed[i + 1..];
      var (name, input) := proposed[i];
      if name !in registry {
        continue;
      }
      selected := selected + [ToolCall(name, input, registry[name])];
    }
  }

  // ---- approval gate -------------------------------------------------------------------------

  /** split("|") */
  function Split(s: string): (parts: seq<string>)
    ensures parts != []
    decreases |s|
  {
    var k := Bar(s);
    if k == |s| then [s] else [s[..k]] + Split(s[k + 1..])
  }

  /** The position of the first bar, or the length. */
  function Bar(s: string): (k: nat)
    ensures k <= |s| && (k < |s| ==> s[k] == '|') && forall j :: 0 <= j < k ==> s[j] != '|'
  {
    if s == "" || s[0] == '|' then 0 else 1 + Bar(s[1..])
  }

  /** _parse_thread_id: the user and the conversation; `uuids` are the texts that UUID() reads. */
  function ParseThreadId(thread: string, uuids: map<string, nat>): (Option<nat>, Option<nat>) {
    var parts := Split(thread);
    if |parts| == 3 && parts[0] == "auth" && parts[1] in uuids && parts[2] in uuids
    then (Some(uuids[parts[1]]), Some(uuids[parts[2]]))
    else (None, None)
  }

  const NIL_UUID: nat := 0

  /** The conversation whose row the gate's insert refers to. */
  function GateConversation(thread: string, uuids: map<string, nat>): nat {
    var (_, conversation) := ParseThreadId(thread, uuids);
    if conversation.Some? then conversation.value else NIL_UUID
  }

  lemma SplitCons(head: string, rest: string)
    requires forall k :: 0 <= k < |head| ==> head[k] != '|'
    ensures Split(head + "|" + rest) == [head] + Split(rest)
  {
    var s := head + "|" + rest;
    assert s[|head|] == '|' && forall k :: 0 <= k < |head| ==> s[k] == head[k];
    assert s[..|head|] == head && s[|head| + 1..] == rest;
  }

  /** The approval of a guest's thread would belong to the conversation with the nil id. */
  lemma GuestsHaveNoConversation(fingerprint: string, uuids: map<string, nat>)
    ensures GateConversation("guest" + "|" + fingerprint, uuids) == NIL_UUID
  {
    SplitCons("guest", fingerprint);
  }

  lemma NoBar(s: string)
    requires forall k :: 0 <= k < |s| ==> s[k] != '|'
    ensures Split(s) == [s]
  {
  }

  /** An authenticated thread names its conversation, when the client sent a UUID for it. */
  lemma UsersHaveTheirConversation(user: string, conversation: string, uuids: map<string, nat>)
    requires forall k :: 0 <= k < |user| ==> user[k] != '|'
    requires forall k :: 0 <= k < |conversation| ==> conversation[k] != '|'
    requires user in uuids
    ensures GateConversation("auth" + "|" + (user + "|" + conversation), uuids)
         == if conversation in uuids then uuids[conversation] else NIL_UUID
  {
    SplitCons("auth", user + "|" + conversation);
    SplitCons(user, conversation);
    NoBar(conversation);
    assert Split("auth" + "|" + (user + "|" + conversation)) == ["auth", user, conversation];
  }

  // ---- tool retries --------------------------------------------------------------------------

  const TOOL_TIMEOUT := 3.0
  const RETRY_DELAYS := [1.0, 2.0, 4.0]

  /** How one execution of a tool would go. */
  datatype Trial = Returns(output: string, secs: real) | Throws(message: string, secs: real) | Hangs

  /** The outcome under the time limit: the output, or the exception's text; a time-out has none. */
  function Outcome(t: Trial): (Option<string>, string) {
    match t
    case Returns(output, secs) => if secs < TOOL_TIMEOUT then (Some(output), "") else (None, "")
    case Throws(message, secs) => if secs < TOOL_TIMEOUT then (None, message) else (None, "")
    case Hangs => (None, "")
  }

  function Elapsed(t: Trial): real {
    if t.Hangs? || t.secs >= TOOL_TIMEOUT then TOOL_TIMEOUT else if t.secs < 0.0 then 0.0 else t.secs
  }

  predicate Succeeds(t: Trial) {
    Outcome(t).0.Some?
  }

  /** The position of the first success, or the length. */
  function FirstSuccess(ts: seq<Trial>): (k: nat)
    ensures k <= |ts| && (k < |ts| ==> Succeeds(ts[k])) && forall j :: 0 <= j < k ==> !Succeeds(ts[j])
  {
    if ts == [] || Succeeds(ts[0]) then 0 else 1 + FirstSuccess(ts[1..])
  }

  /** What four trials of a call amount to. */
  function Tried(call: ToolCall, ts: seq<Trial>): ToolResult
    requires |ts| == 4
  {
    var k := FirstSuccess(ts);
    if k < 4 then ToolResult(call.tool, Outcome(ts[k]).0.value, None)
    else ToolResult(call.tool, "", Some(Outcome(ts[3]).1))
  }

  /** run_one: the first success of four attempts, within 19 seconds. */
  method RunOne(call: ToolCall, ts: seq<Trial>) returns (r: ToolResult, secs: real, tries: nat)
    requires |ts| == 4
    ensures r == Tried(call, ts)
    ensures tries == if FirstSuccess(ts) < 4 then FirstSuccess(ts) + 1 else 4
    ensures 0.0 <= secs <= 19.0
  {
    var lastError := "";
    secs := 0.0;
    tries := 0;
    for attempt := 0 to 4
      invariant tries == attempt <= FirstSuccess(ts)
      invariant attempt > 0 ==> lastError == Outcome(ts[attempt - 1]).1
      invariant 0.0 <= secs <= 3.0 * attempt as real
          + (if attempt <= 1 then 0.0 else if attempt == 2 then 1.0 else if attempt == 3 then 3.0 else 7.0)
    {
      if attempt > 0 {
        secs := secs + RETRY_DELAYS[attempt - 1];
      }
      secs := secs + Elapsed(ts[attempt]);
      tries := attempt + 1;
      var (output, error) := Outcome(ts[attempt]);
      if output.Some? {
        return ToolResult(call.tool, output.value, None), secs, tries;
      }
      lastError := error;
    }
    return ToolResult(call.tool, "", Some(lastError)), secs, tries;
  }

  /** The results of all calls, in their order. */
  function Executed(calls: seq<ToolCall>, trials: seq<seq<Trial>>): (rs: seq<ToolResult>)
    requires |trials| == |calls| && forall k :: 0 <= k < |trials| ==> |trials[k]| == 4
    ensures |rs| == |calls| && forall k :: 0 <= k < |calls| ==> rs[k] == Tried(calls[k], trials[k])
  {
    seq(|calls|, k requires 0 <= k < |calls| => Tried(calls[k], trials[k]))
  }

  /** tool_executor_node: result i belongs to call i; the calls run side by side, so 19 seconds bound them all. */
  method ExecuteTools(calls: seq<ToolCall>, registry: Registry, trials: seq<seq<Trial>>)
      returns (rs: seq<ToolResult>, secs: real)
    requires Registered(calls, registry)
    requires |trials| == |calls| && forall k :: 0 <= k < |trials| ==> |trials[k]| == 4
    ensures rs == Executed(calls, trials)
    ensures 0.0 <= secs <= 19.0
  {
    rs, secs := [], 0.0;
    for i := 0 to |calls|
      invariant |rs| == i && forall k :: 0 <= k < i ==> rs[k] == Tried(calls[k], trials[k])
      invariant 0.0 <= secs <= 19.0
    {
      assert calls[i].tool in registry;
      var r, took, _ := RunOne(calls[i], trials[i]);
      rs := rs + [r];
      secs := if took > secs then took else secs;
    }
  }

  // ---- model chain ---------------------------------------------------------------------------

  const LLM_TIMEOUT := 30.0
  const PRIMARY_RETRY_DELAYS := [2.0, 4.0]

  /** How one model call would go. */
  datatype Reply = Says(content: string, secs: real) | Breaks(secs: real) | Stalls

  predicate Blank(s: string) {
    forall k :: 0 <= k < |s| ==> IsSpace(s[k])
  }

  /** A model call counts only when it answers in time with something that is not blank. */
  function Heard(r: Reply): Option<string> {
    if r.Says? && r.secs < LLM_TIMEOUT && !Blank(r.content) then Some(r.content) else None
  }

  function Waited(r: Reply): real {
    if r.Stalls? || r.secs >= LLM_TIMEOUT then LLM_TIMEOUT else if r.secs < 0.0 then 0.0 else r.secs
  }

  /** The position of the first reply that counts, or the length. */
  function FirstHeard(rs: seq<Reply>): (k: nat)
    ensures k <= |rs| && (k < |rs| ==> Heard(rs[k]).Some?) && forall j :: 0 <= j < k ==> Heard(rs[j]).None?
  {
    if rs == [] || Heard(rs[0]).Some? then 0 else 1 + FirstHeard(rs[1..])
  }

  /** The answer of a chain of replies. */
  function Answer(rs: seq<Reply>): (a: Option<string>)
    ensures a.Some? ==> !Blank(a.value) && a.value != ""
  {
    var k := FirstHeard(rs);
    if k < |rs| then Heard(rs[k]) else None
  }

  lemma FirstHeardIs(rs: seq<Reply>, k: nat)
    requires k < |rs| && Heard(rs[k]).Some? && forall j :: 0 <= j < k ==> Heard(rs[j]).None?
    ensures FirstHeard(rs) == k
  {
  }

  /**
    llm_node: three primary tries, then each fallback once; the first answer that is not blank, in
    at most 3 + n calls and 96 + 30 n seconds for n fallbacks.
  */
  method AskModels(primary: seq<Reply>, fallbacks: seq<Reply>) returns (answer: Option<string>, calls: nat, secs: real)
    requires |primary| == 3
    ensures answer == Answer(primary + fallbacks)
    ensures calls == if answer.Some? then FirstHeard(primary + fallbacks) + 1 else 3 + |fallbacks|
    ensures calls <= 3 + |fallbacks|
    ensures 0.0 <= secs <= 96.0 + 30.0 * |fallbacks| as real
  {
    var all := primary + fallbacks;
    calls, secs := 0, 0.0;
    for attempt := 0 to 3
      invariant calls == attempt && forall j :: 0 <= j < attempt ==> Heard(all[j]).None?
      invariant 0.0 <= secs <= 30.0 * attempt as real
          + (if attempt <= 1 then 0.0 else if attempt == 2 then 2.0 else 6.0)
    {
      if attempt > 0 {
        secs := secs + PRIMARY_RETRY_DELAYS[attempt - 1];
      }
      calls, secs := calls + 1, secs + Waited(all[attempt]);
      answer := Heard(primary[attempt]);
      if answer.Some? {
        FirstHeardIs(all, attempt);
        return;
      }
    }
    for i := 0 to |fallbacks|
      invariant calls == 3 + i && forall j :: 0 <= j < 3 + i ==> Heard(all[j]).None?
      invariant 0.0 <= secs <= 96.0 + 30.0 * i as real
    {
      calls, secs := calls + 1, secs + Waited(fallbacks[i]);
      answer := Heard(fallbacks[i]);
      if answer.Some? {
        FirstHeardIs(all, 3 + i);
        return;
      }
    }
    return None, calls, secs;
  }
}
