/** What every run of the approval protocol guarantees, and what it does not. */
module HitlResults {
  import opened Prelude
  import opened HitlTables
  import opened HitlProtocol
  import opened HitlInvariant

  // ---- what every run guarantees -------------------------------------------------------------

  lemma InitialInv(s: Sys)
    requires Initial(s)
    ensures Inv(s)
  {
  }

  lemma {:induction false} RunKeepsInv(s: Sys, steps: seq<Step>)
    requires Inv(s) && Runs(s, steps)
    ensures Inv(After(s, steps))
    decreases |steps|
  {
    if steps != [] {
      StepKeepsInv(s, steps[0]);
      RunKeepsInv(Next(s, steps[0]), steps[1..]);
    }
  }

  /** The only ways a committed row may change: open to used, or open to expired. */
  predicate RowMoves(a: Approval, b: Approval) {
    || b == a
    || (a.Open() && b == a.(used := true))
    || (a.Open() && b == a.(expired := true))
  }

  /** The id had a committed row, which is gone and will not come back. */
  ghost predicate Removed(s: Sys, id: nat) {
    && id in s.issued && id !in s.tables.approvals
    && (forall p :: p in s.procs && s.procs[p].Gate? ==> s.procs[p].newId != id)
  }

  /** Rows only close, only an open one may be removed, and the log only grows at its end. */
  ghost predicate Moves(s: Sys, u: Sys) {
    && s.tables.audit <= u.tables.audit
    && (forall id :: id in s.tables.approvals ==>
          if id in u.tables.approvals then RowMoves(s.tables.approvals[id], u.tables.approvals[id])
          else s.tables.approvals[id].Open() && Removed(u, id))
  }

  /** A removed approval stays removed. */
  lemma {:induction false} RemovedStays(s: Sys, steps: seq<Step>, id: nat)
    requires Runs(s, steps) && Removed(s, id)
    ensures Removed(After(s, steps), id)
    decreases |steps|
  {
    if steps != [] {
      var s' := Next(s, steps[0]);
      assert forall p :: p in s'.procs && s'.procs[p].Gate? ==> s'.procs[p].newId != id;
      RemovedStays(s', steps[1..], id);
    }
  }

  /** What a purge removes no insert in flight can bring back. */
  lemma PurgeRemoves(s: Sys, p: nat, id: nat)
    requires Inv(s) && Enabled(s, PurgeDelete(p))
    requires id in s.tables.approvals && id !in Next(s, PurgeDelete(p)).tables.approvals
    ensures s.tables.approvals[id].Open() && Removed(Next(s, PurgeDelete(p)), id)
  {
    SparedConserves(s, s.procs[p].victims);
    forall q | q in s.procs && s.procs[q].Gate?
      ensures s.procs[q].newId != id
    {
      assert ProcOk(s.tables.approvals, s.conversations, s.clock, s.procs[q]);
    }
  }

  lemma CommitMoves(s: Sys, step: Step)
    requires Inv(s) && Enabled(s, step) && (step.CommitRequest? || step.SweepCommit? || step.GateCommit?)
    ensures Moves(s, Next(s, step))
  {
    assert ProcOk(s.tables.approvals, s.conversations, s.clock, s.procs[step.p]);
  }

  lemma StepMoves(s: Sys, step: Step)
    requires Inv(s) && Enabled(s, step)
    ensures Moves(s, Next(s, step))
  {
    match step
    case CommitRequest(p) => CommitMoves(s, step);
    case SweepCommit(p) => CommitMoves(s, step);
    case GateCommit(p) => CommitMoves(s, step);
    case PurgeDelete(p) =>
      forall id | id in s.tables.approvals && id !in Next(s, step).tables.approvals
        ensures s.tables.approvals[id].Open() && Removed(Next(s, step), id)
      {
        PurgeRemoves(s, p, id);
      }
    case _ =>
  }

  lemma {:induction false} RunMoves(s: Sys, steps: seq<Step>)
    requires Inv(s) && Runs(s, steps)
    ensures Moves(s, After(s, steps))
    decreases |steps|
  {
    if steps != [] {
      var s' := Next(s, steps[0]);
      StepKeepsInv(s, steps[0]);
      StepMoves(s, steps[0]);
      RunMoves(s', steps[1..]);
      forall id | id in s.tables.approvals && id !in s'.tables.approvals
        ensures Removed(After(s', steps[1..]), id)
      {
        RemovedStays(s', steps[1..], id);
      }
    }
  }

  /**
    In every interleaving, between any two points of a run, a committed approval only moves from
    open to used or from open to expired, only an open one may disappear, for good, and the audit
    log is extended, never rewritten.
  */
  lemma ApprovalsOnlyClose(s0: Sys, before: seq<Step>, steps: seq<Step>)
    requires Initial(s0) && Runs(s0, before) && Runs(After(s0, before), steps)
    ensures Moves(After(s0, before), After(After(s0, before), steps))
  {
    InitialInv(s0);
    RunKeepsInv(s0, before);
    RunMoves(After(s0, before), steps);
  }

  /**
    Audit conservation in every reachable state: one matching row for each used or expired
    approval, none for an open one, no row without its approval.
  */
  lemma AuditConservation(s0: Sys, steps: seq<Step>)
    requires Initial(s0) && Runs(s0, steps)
    ensures AuditConserved(After(s0, steps).tables)
  {
    InitialInv(s0);
    RunKeepsInv(s0, steps);
  }

  // ---- racing approve requests ---------------------------------------------------------------

  ghost predicate OnApproval(s: Sys, p: nat, id: nat) {
    p in s.procs && s.procs[p].Request? && s.procs[p].aid == id
  }

  ghost function ResumesOf(s: Sys, id: nat): set<nat> {
    set p | p in s.resumes && OnApproval(s, p, id)
  }

  /** In every state at most one request on an approval has answered 200. */
  lemma AtMostOneOk(s: Sys, id: nat, p: nat, q: nat)
    requires Inv(s) && OnApproval(s, p, id) && OnApproval(s, q, id)
    requires Wins(s.procs[p], id) && Wins(s.procs[q], id)
    ensures p == q
  {
    assert ProcOk(s.tables.approvals, s.conversations, s.clock, s.procs[p]);
    assert ProcOk(s.tables.approvals, s.conversations, s.clock, s.procs[q]);
    assert s.procs[p].pc.Done? || id in s.procs[p].Holds();
    assert s.procs[q].pc.Done? || id in s.procs[q].Holds();
  }

  /** An approval that is there or was removed; while it is there, no request on it answered that it is missing. */
  ghost predicate NoneMissing(s: Sys, id: nat) {
    if id in s.tables.approvals then forall p :: OnApproval(s, p, id) ==> s.procs[p].pc != Done(Missing410)
    else Removed(s, id)
  }

  lemma StepKeepsKnown(s: Sys, step: Step, id: nat)
    requires Enabled(s, step) && NoneMissing(s, id) && Moves(s, Next(s, step))
    ensures NoneMissing(Next(s, step), id)
  {
    var s' := Next(s, step);
    if id in s.tables.approvals {
      forall p | OnApproval(s', p, id) && id in s'.tables.approvals
        ensures s'.procs[p].pc != Done(Missing410)
      {
        assert OnApproval(s, p, id) ==> s.procs[p].pc != Done(Missing410);
      }
    } else {
      RunsOne(s, step);
      RemovedStays(s, [step], id);
    }
  }

  lemma {:induction false} KnownIsNeverMissing(s: Sys, steps: seq<Step>, id: nat)
    requires Inv(s) && Runs(s, steps) && NoneMissing(s, id)
    ensures NoneMissing(After(s, steps), id)
    decreases |steps|
  {
    if steps != [] {
      StepKeepsInv(s, steps[0]);
      StepMoves(s, steps[0]);
      StepKeepsKnown(s, steps[0], id);
      KnownIsNeverMissing(Next(s, steps[0]), steps[1..], id);
    }
  }

  /** Every request on the approval has answered, none through an exception. */
  ghost predicate AllAnswered(s: Sys, id: nat) {
    forall p :: OnApproval(s, p, id) ==> s.procs[p].pc.Done? && !s.procs[p].pc.outcome.Failed?
  }

  /** One request answered 200 and launched the approval's only resume; the others lost. */
  ghost predicate OnlyWinner(s: Sys, id: nat, w: nat) {
    && OnApproval(s, w, id) && s.procs[w].pc == Done(Ok200)
    && ResumesOf(s, id) == {w}
    && (forall p :: OnApproval(s, p, id) && p != w ==> s.procs[p].pc in {Done(Conflict409), Done(Gone410)})
  }

  /** Once one request has answered 200, the others have lost. */
  lemma OthersLost(s: Sys, id: nat, w: nat, p: nat)
    requires Inv(s) && id in s.tables.approvals && NoneMissing(s, id) && AllAnswered(s, id)
    requires OnApproval(s, w, id) && s.procs[w].pc == Done(Ok200) && OnApproval(s, p, id) && p != w
    ensures s.procs[p].pc in {Done(Conflict409), Done(Gone410)} && p !in s.resumes
  {
    if s.procs[p].pc == Done(Ok200) {
      AtMostOneOk(s, id, p, w);
    }
    assert s.procs[p].pc != Done(Missing410);
  }

  lemma AnsweredMeansUsed(s: Sys, id: nat, p: nat)
    requires Inv(s) && NoneMissing(s, id) && AllAnswered(s, id) && OnApproval(s, p, id)
    requires id in s.tables.approvals && !s.tables.approvals[id].expired
    ensures s.tables.approvals[id].used
  {
    assert ProcOk(s.tables.approvals, s.conversations, s.clock, s.procs[p]);
  }

  lemma AnsweredMeansWon(s: Sys, id: nat)
    requires Inv(s) && NoneMissing(s, id) && AllAnswered(s, id)
    requires id in s.tables.approvals && !s.tables.approvals[id].expired
    requires exists p: nat :: OnApproval(s, p, id)
    ensures exists w: nat :: OnlyWinner(s, id, w)
  {
    var p0: nat :| OnApproval(s, p0, id);
    AnsweredMeansUsed(s, id, p0);
    var w :| w in s.procs && Wins(s.procs[w], id) && s.procs[w].pc == Done(Ok200);
    forall p | OnApproval(s, p, id) && p != w
      ensures s.procs[p].pc in {Done(Conflict409), Done(Gone410)} && p !in s.resumes
    {
      OthersLost(s, id, w, p);
    }
    assert ResumesOf(s, id) == {w};
    assert OnlyWinner(s, id, w);
  }

  lemma WinnerMeansUsed(s: Sys, id: nat, w: nat)
    requires Inv(s) && OnlyWinner(s, id, w)
    ensures id in s.tables.approvals && s.tables.approvals[id].used && !s.tables.approvals[id].expired
  {
    assert ProcOk(s.tables.approvals, s.conversations, s.clock, s.procs[w]);
    assert RowsMatch(id, s.tables.approvals[id], RowsFor(s.tables.audit, id));
  }

  /**
    Any number of requests race for one approval, in any interleaving with each other and with
    every other transaction.  When all of them have answered without an exception, one of them
    answered 200 and launched the only resume, and the others 409 or 410, if and only if neither a
    sweeper nor a purge got there first.
  */
  lemma ExactlyOneWinner(s: Sys, steps: seq<Step>, id: nat)
    requires Inv(s) && Runs(s, steps) && id in s.tables.approvals
    requires forall p :: OnApproval(s, p, id) ==> s.procs[p].pc == Start
    requires (exists p: nat :: OnApproval(After(s, steps), p, id)) && AllAnswered(After(s, steps), id)
    ensures var s' := After(s, steps);
      (exists w: nat :: OnlyWinner(s', id, w)) <==> id in s'.tables.approvals && !s'.tables.approvals[id].expired
  {
    var s' := After(s, steps);
    RunKeepsInv(s, steps);
    KnownIsNeverMissing(s, steps, id);
    if id in s'.tables.approvals && !s'.tables.approvals[id].expired {
      AnsweredMeansWon(s', id);
    }
    forall w: nat | OnlyWinner(s', id, w)
      ensures id in s'.tables.approvals && !s'.tables.approvals[id].expired
    {
      WinnerMeansUsed(s', id, w);
    }
  }

  /** A request whose pre-check saw the approval open can lose only with 409, never with 410. */
  lemma {:induction false} LosingARaceIs409(s: Sys, steps: seq<Step>, p: nat)
    requires Runs(s, steps) && p in s.procs && s.procs[p].Request?
    requires s.procs[p].pc !in {Start, Done(Gone410), Done(Missing410)}
    ensures var s' := After(s, steps);
      p in s'.procs && s'.procs[p].Request? && s'.procs[p].aid == s.procs[p].aid
      && s'.procs[p].pc !in {Start, Done(Gone410), Done(Missing410)}
    decreases |steps|
  {
    if steps != [] {
      LosingARaceIs409(Next(s, steps[0]), steps[1..], p);
    }
  }

  /** An answered request keeps its answer. */
  lemma {:induction false} AnswersStand(s: Sys, steps: seq<Step>, p: nat)
    requires Runs(s, steps) && p in s.procs && s.procs[p].Request? && s.procs[p].pc.Done?
    ensures p in After(s, steps).procs && After(s, steps).procs[p] == s.procs[p]
    decreases |steps|
  {
    if steps != [] {
      AnswersStand(Next(s, steps[0]), steps[1..], p);
    }
  }

  /**
    The resume task starts before the commit.  A used approval has exactly one resume if and only
    if no request on it lost its commit after launching one.
  */
  lemma OneResumeIffNoCommitIsLost(s: Sys, id: nat)
    requires Inv(s) && id in s.tables.approvals && s.tables.approvals[id].used
    ensures (exists p :: ResumesOf(s, id) == {p})
       <==> (forall p :: OnApproval(s, p, id) ==> s.procs[p].pc != Done(Failed(true)))
  {
    var w :| w in s.procs && Wins(s.procs[w], id) && s.procs[w].pc == Done(Ok200);
    assert w in ResumesOf(s, id);
    forall p | p in ResumesOf(s, id) && p != w
      ensures s.procs[p].pc == Done(Failed(true))
    {
      if Wins(s.procs[p], id) {
        AtMostOneOk(s, id, p, w);
      }
    }
    if forall p :: OnApproval(s, p, id) ==> s.procs[p].pc != Done(Failed(true)) {
      assert ResumesOf(s, id) == {w};
    } else {
      var p :| OnApproval(s, p, id) && s.procs[p].pc == Done(Failed(true));
      assert p in ResumesOf(s, id) && p != w;
    }
  }

  // ---- one request alone ---------------------------------------------------------------------

  /** The statements of one approve request on an approval nobody else touches. */
  function SoloScript(t: Tables, p: nat, id: nat, user: nat, decision: string, ip: Option<string>): seq<Step> {
    [Arrive(p, id, user, decision, ip), PreCheck(p)]
    + if !(id in t.approvals && t.approvals[id].Open()) then []
      else [Consume(p), InsertAudit(p)] + if Accepted(decision) then [Launch(p), CommitRequest(p)] else []
  }

  lemma RunsAppend(s: Sys, xs: seq<Step>, ys: seq<Step>)
    requires Runs(s, xs) && Runs(After(s, xs), ys)
    ensures Runs(s, xs + ys) && After(s, xs + ys) == After(After(s, xs), ys)
    decreases |xs|
  {
    if xs == [] {
      assert xs + ys == ys;
    } else {
      assert (xs + ys)[1..] == xs[1..] + ys;
      RunsAppend(Next(s, xs[0]), xs[1..], ys);
    }
  }

  lemma RunsCons(s: Sys, step: Step, rest: seq<Step>)
    requires Enabled(s, step) && Runs(Next(s, step), rest)
    ensures Runs(s, [step] + rest) && After(s, [step] + rest) == After(Next(s, step), rest)
  {
    assert ([step] + rest)[1..] == rest;
  }

  lemma RunsOne(s: Sys, step: Step)
    requires Enabled(s, step)
    ensures Runs(s, [step]) && After(s, [step]) == Next(s, step)
  {
    assert [step][1..] == [];
  }

  /** Extends a run by one step. */
  lemma Go(s0: Sys, steps: seq<Step>, step: Step) returns (more: seq<Step>, s: Sys)
    requires Runs(s0, steps) && Enabled(After(s0, steps), step)
    ensures more == steps + [step] && Runs(s0, more) && s == After(s0, more) == Next(After(s0, steps), step)
  {
    RunsOne(After(s0, steps), step);
    RunsAppend(s0, steps, [step]);
    more := steps + [step];
    s := After(s0, more);
  }

  ghost function WithRequest(s: Sys, p: nat, r: Proc): Sys {
    s.(procs := s.procs[p := r])
  }

  /** A request up to its guarded update and the check on its decision. */
  lemma ReachesInsert(s: Sys, p: nat, r: Proc) returns (h: seq<Step>)
    requires r.Request? && r.pc == Start && p !in s.procs && Free(s, r.aid) && OpenRow(s.tables.approvals, r.aid)
    ensures h == [Arrive(p, r.aid, r.user, r.decision, r.ip), PreCheck(p), Consume(p)]
    ensures Runs(s, h) && After(s, h) == WithRequest(s, p, r.(pc := Holding))
  {
    var t;
    h, t := Go(s, [], Arrive(p, r.aid, r.user, r.decision, r.ip));
    assert t == WithRequest(s, p, r);
    h, t := Go(s, h, PreCheck(p));
    assert t == WithRequest(s, p, r.(pc := SawOpen));
    h, t := Go(s, h, Consume(p));
    assert t == WithRequest(s, p, r.(pc := Holding));
  }

  /** A request with a valid decision gets as far as launching its resume. */
  lemma ReachesLaunch(s: Sys, p: nat, r: Proc) returns (h: seq<Step>)
    requires r.Request? && r.pc == Start && p !in s.procs && Free(s, r.aid) && OpenRow(s.tables.approvals, r.aid)
    requires Accepted(r.decision)
    ensures h == [Arrive(p, r.aid, r.user, r.decision, r.ip), PreCheck(p), Consume(p), InsertAudit(p), Launch(p)]
    ensures Runs(s, h) && After(s, h) == WithRequest(s, p, r.(pc := Launched)).(resumes := s.resumes + {p})
  {
    var t;
    h := ReachesInsert(s, p, r);
    h, t := Go(s, h, InsertAudit(p));
    assert t == WithRequest(s, p, r.(pc := Logged));
    h, t := Go(s, h, Launch(p));
  }

  /** Without interference the protocol does exactly what the endpoint does on its own. */
  lemma SoloRunIsApprove(s: Sys, p: nat, id: nat, user: nat, decision: string, ip: Option<string>)
    requires p !in s.procs && Free(s, id)
    ensures Runs(s, SoloScript(s.tables, p, id, user, decision, ip))
    ensures var s' := After(s, SoloScript(s.tables, p, id, user, decision, ip));
      p in s'.procs && s'.procs[p].Request?
      && (s'.tables, s'.procs[p].pc) == (var r := Approve(s.tables, id, user, decision, ip); (r.0, Done(r.1)))
  {
    var r := Request(id, user, decision, ip, Start);
    var h, t := [], s;
    if !OpenRow(s.tables.approvals, id) {
      h, t := Go(s, h, Arrive(p, id, user, decision, ip));
      h, t := Go(s, h, PreCheck(p));
    } else if !Accepted(decision) {
      h := ReachesInsert(s, p, r);
      h, t := Go(s, h, InsertAudit(p));
    } else {
      h := ReachesLaunch(s, p, r);
      h, t := Go(s, h, CommitRequest(p));
    }
    assert h == SoloScript(s.tables, p, id, user, decision, ip);
  }

  // ---- reachable states -----------------------------------------------------------------------

  /** One old conversation, never used since time 0, and nothing else. */
  ghost function OldConversation(): Sys {
    Sys(map[7 := Conversation(0, 0, false)], Tables(map[], []), {}, map[], {}, {}, 0)
  }

  ghost predicate Reachable(s: Sys) {
    exists s0: Sys, steps :: Initial(s0) && Runs(s0, steps) && After(s0, steps) == s
  }

  lemma Reached(steps: seq<Step>)
    requires Runs(OldConversation(), steps)
    ensures Reachable(After(OldConversation(), steps))
  {
  }

  /** A run in which one approval is requested and approved, up to the resume. */
  lemma ApprovedOnce() returns (h: seq<Step>, s: Sys)
    ensures Runs(OldConversation(), h) && s == After(OldConversation(), h)
    ensures s.conversations == OldConversation().conversations && s.locked == {} && s.clock == 0 && 2 !in s.procs
    ensures s.tables == Tables(map[1 := NewApproval(7, None, "web_search", "t", 0)], [])
    ensures s.procs == map[0 := Ended, 1 := Request(1, 5, "approve", None, Launched)] && s.resumes == {1}
  {
    var s0 := OldConversation();
    h, s := Go(s0, [], GateInsert(0, 1, 7, None, "web_search", "t"));
    h, s := Go(s0, h, GateCommit(0));
    var more := ReachesLaunch(s, 1, Request(1, 5, "approve", None, Start));
    RunsAppend(s0, h, more);
    h, s := h + more, After(s0, h + more);
  }

  // ---- promises that do not hold as made -----------------------------------------------------

  /**
    A commit lost after the resume was launched leaves the approval open, so a second request consumes
    it and the graph is resumed twice.
  */
  lemma ALostCommitResumesTwice()
    ensures exists s: Sys, id: nat, p: nat, q: nat :: Reachable(s) && p != q && {p, q} <= ResumesOf(s, id)
  {
    var s0 := OldConversation();
    var h, s := ApprovedOnce();
    h, s := Go(s0, h, Abort(1));
    var second := ReachesLaunch(s, 2, Request(1, 6, "approve", None, Start));
    RunsAppend(s0, h, second);
    Reached(h + second);
    s := After(s0, h + second);
    assert {1, 2} <= ResumesOf(s, 1);
  }

  /**
    The log's decision column does not tell a timeout from a user's decision: a request may post
    "timeout".  The endpoint writes such a row exactly when it is posted.
  */
  lemma TimeoutDecisionIff(t: Tables, id: nat, user: nat, decision: string, ip: Option<string>)
    requires AuditConserved(t) && Approve(t, id, user, decision, ip).1 == Ok200
    ensures var u := Approve(t, id, user, decision, ip).0;
      && u.approvals[id].used && |RowsFor(u.audit, id)| == 1
      && (RowsFor(u.audit, id)[0].decision == "timeout" <==> decision == "timeout")
  {
    RowsForAppend(t.audit, DecisionRow(id, t.approvals[id], user, decision, ip), id);
    assert RowsMatch(id, t.approvals[id], RowsFor(t.audit, id));
  }

  lemma AUserCanLogATimeout()
    ensures exists t: Tables, id, user: nat :: AuditConserved(t) && Approve(t, id, user, "timeout", None).1 == Ok200
  {
    var t := Tables(map[1 := NewApproval(7, None, "web_search", "t", 0)], []);
    assert AuditConserved(t);
    assert Approve(t, 1, 5, "timeout", None).1 == Ok200;
  }

  // ---- progress ------------------------------------------------------------------------------

  /** A step of a transaction in flight other than giving up. */
  predicate Advances(step: Step) {
    step.PreCheck? || step.Consume? || step.InsertAudit? || step.Launch? || step.CommitRequest?
    || step.GateCommit? || step.SweepTake? || step.SweepLog? || step.SweepCommit? || step.PurgeTake?
          || step.PurgeDelete?
  }

  predicate InFlight(proc: Proc) {
    !proc.Ended? && !(proc.Request? && proc.pc.Done?)
  }

  lemma HolderCanMove(s: Sys, p: nat)
    requires p in s.procs && s.procs[p].Request? && s.procs[p].Holds() != {}
    ensures exists step :: Advances(step) && Enabled(s, step)
  {
    var step := if s.procs[p].pc == Holding then InsertAudit(p) else if s.procs[p].pc == Logged then Launch(p)
        else CommitRequest(p);
    assert Enabled(s, step);
  }

  lemma SweepCanMove(s: Sys, p: nat)
    requires Inv(s) && p in s.procs && s.procs[p].Sweep?
    requires forall q :: q in s.procs && s.procs[q].Sweep? ==> q == p
    ensures exists step :: Advances(step) && Enabled(s, step)
  {
    var w := s.procs[p];
    assert ProcOk(s.tables.approvals, s.conversations, s.clock, w);
    if w.todo == {} {
      assert Enabled(s, if w.logged < |w.taken| then SweepLog(p) else SweepCommit(p));
    } else {
      var id :| id in w.todo;
      if Free(s, id) {
        assert Enabled(s, SweepTake(p, id));
      } else {
        var q :| q in s.procs && id in s.procs[q].Holds();
        assert q != p;
        HolderCanMove(s, q);
      }
    }
  }

  /** Whoever holds a row that is waited for leads to a step that can be taken. */
  lemma WaitedForCanMove(s: Sys, id: nat)
    requires Inv(s) && !Free(s, id)
    requires forall q, r :: q in s.procs && r in s.procs && s.procs[q].Sweep? && s.procs[r].Sweep? ==> q == r
    ensures exists step :: Advances(step) && Enabled(s, step)
  {
    var q :| q in s.procs && id in s.procs[q].Holds();
    if s.procs[q].Sweep? {
      SweepCanMove(s, q);
    } else {
      HolderCanMove(s, q);
    }
  }

  /** With one sweeper running, the row locks never deadlock: while anything is in flight, something can advance. */
  lemma NoDeadlock(s: Sys, p: nat)
    requires Inv(s) && p in s.procs && InFlight(s.procs[p])
    requires forall q, r :: q in s.procs && r in s.procs && s.procs[q].Sweep? && s.procs[r].Sweep? ==> q == r
    ensures exists step :: Advances(step) && Enabled(s, step)
  {
    match s.procs[p]
    case Sweep(_, _, _, _, _, _) => SweepCanMove(s, p);
    case Gate(_, _) => assert Enabled(s, GateCommit(p));
    case Purge(_, _, _, left, victims, _, _) =>
      if left != {} {
        var c :| c in left;
        assert Enabled(s, PurgeTake(p, c));
      } else if CascadeFree(s, victims) {
        assert Enabled(s, PurgeDelete(p));
      } else {
        var id :| id in s.tables.approvals && !Free(s, id);
        WaitedForCanMove(s, id);
      }
    case Request(aid, _, _, _, pc) =>
      if pc == Start {
        assert Enabled(s, PreCheck(p));
      } else if pc == SawOpen {
        if Free(s, aid) {
          assert Enabled(s, Consume(p));
        } else {
          WaitedForCanMove(s, aid);
        }
      } else {
        HolderCanMove(s, p);
      }
  }
}
