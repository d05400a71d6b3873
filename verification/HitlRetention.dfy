/**
  The sweeper and the retention job among all other transactions: what they close and delete in every
  run, what they miss, and what they take that they should not.
*/
module HitlRetention {
  import opened Prelude
  import opened HitlTables
  import opened HitlProtocol
  import opened HitlInvariant
  import opened HitlResults

  // ---- sweep and retention -------------------------------------------------------------------

  /**
    When a sweep commits, no approval that is overdue by its clock is left open, if and only if every
    insert that was already overdue in flight when the sweep began has no open row: it is still
    uncommitted, or its row was closed or removed.  Every approval the sweep took has exactly one
    row, its timeout.
  */
  lemma SweepIsCleanIff(s: Sys, p: nat)
    requires Inv(s) && Enabled(s, SweepCommit(p))
    ensures StaleIds(Next(s, SweepCommit(p)).tables.approvals, s.procs[p].now) == {}
       <==> forall id :: id in s.procs[p].late ==> !OpenRow(s.tables.approvals, id)
    ensures forall id :: id in s.procs[p].taken ==>
              id in s.tables.approvals
              && RowsFor(Next(s, SweepCommit(p)).tables.audit, id) == [TimeoutRow(id, s.tables.approvals[id])]
  {
    var s', w := Next(s, SweepCommit(p)), s.procs[p];
    assert ProcOk(s.tables.approvals, s.conversations, s.clock, w);
    assert s'.tables == SweepTables(s.tables, w.taken);
    forall id | id in s.tables.approvals
      ensures id in StaleIds(s'.tables.approvals, w.now) <==> id in w.late && s.tables.approvals[id].Open()
    {
    }
    forall id | id in w.taken
      ensures RowsFor(s'.tables.audit, id) == [TimeoutRow(id, s.tables.approvals[id])]
    {
      RowsForTimeouts(s.tables.audit, s.tables.approvals, w.taken, id);
      assert RowsMatch(id, s.tables.approvals[id], RowsFor(s.tables.audit, id));
    }
  }

  /** The sweep is about to commit and will leave an approval open that its own clock calls overdue. */
  ghost predicate LeavesOverdue(s: Sys, p: nat) {
    Enabled(s, SweepCommit(p)) && StaleIds(Next(s, SweepCommit(p)).tables.approvals, s.procs[p].now) != {}
  }

  lemma LateInsertRun() returns (h: seq<Step>, s: Sys)
    ensures Runs(OldConversation(), h) && s == After(OldConversation(), h)
    ensures s.procs == map[0 := Ended, 1 := Sweep(601, {}, {1}, {}, [], 0)]
    ensures s.tables == Tables(map[1 := NewApproval(7, None, "web_search", "t", 0)], [])
  {
    var s0 := OldConversation();
    h, s := Go(s0, [], GateInsert(0, 1, 7, None, "web_search", "t"));
    h, s := Go(s0, h, Tick(601));
    assert LateInserts(s.procs, 601) == {1};
    h, s := Go(s0, h, SweepStart(1));
    assert s.procs[1] == Sweep(601, {}, {1}, {}, [], 0);
    h, s := Go(s0, h, GateCommit(0));
  }

  /**
    Such a sweep happens: an insert that is over ten minutes old when the sweep begins, and is
    committed before the sweep is, leaves an approval open that the sweep had to expire.
  */
  lemma ALateInsertEscapesTheSweep()
    ensures exists s: Sys, p: nat :: Reachable(s) && LeavesOverdue(s, p)
  {
    var h, s := LateInsertRun();
    Reached(h);
    assert 1 in StaleIds(Next(s, SweepCommit(1)).tables.approvals, s.procs[1].now);
    assert LeavesOverdue(s, 1);
  }

  /** A victim of the purge has an approval that was used or has expired. */
  ghost predicate HasClosedApproval(s: Sys, p: nat)
    requires p in s.procs && s.procs[p].Purge?
  {
    exists id :: id in s.tables.approvals && s.tables.approvals[id].conversation in s.procs[p].victims
        && !s.tables.approvals[id].Open()
  }

  /** A victim of the purge has an approval that was committed after the purge's snapshot. */
  ghost predicate HasNewApproval(s: Sys, p: nat)
    requires p in s.procs && s.procs[p].Purge?
  {
    exists id :: id in s.tables.approvals && s.tables.approvals[id].conversation in s.procs[p].victims
        && id !in s.procs[p].seen
  }

  /**
    The retention job.  Every victim is stale.  If one of them ever had an approval that was used or
    has expired, the foreign key aborts the whole delete and nothing changes; otherwise exactly the
    victims go, counted, with the log untouched, and with them exactly their approvals.
  */
  lemma RetentionDeletesExactlyItsVictims(s: Sys, p: nat)
    requires Inv(s) && Enabled(s, PurgeDelete(p))
    ensures var s' := Next(s, PurgeDelete(p)); var victims := s.procs[p].victims;
      && (forall c :: c in victims ==> c in s.conversations && Stale(s.conversations[c], s.procs[p].at))
      && s'.tables.audit == s.tables.audit
      && if HasClosedApproval(s, p)
         then s'.conversations == s.conversations && s'.tables == s.tables
         else && s'.conversations == s.conversations - victims && |s'.conversations| == |s.conversations| - |victims|
              && (forall id :: id in s'.tables.approvals
                    <==> id in s.tables.approvals && s.tables.approvals[id].conversation !in victims)
  {
    var victims := s.procs[p].victims;
    assert ProcOk(s.tables.approvals, s.conversations, s.clock, s.procs[p]);
    PurgeBlockedIff(s, victims);
    if !DeleteBlocked(s.tables, victims) {
      assert (s.conversations - victims).Keys == s.conversations.Keys - victims;
      assert |(s.conversations - victims).Keys| == |s.conversations.Keys| - |victims|;
    }
  }

  // ---- every selected row is accounted for ---------------------------------------------------

  /** At some point of the run someone else held the row. */
  ghost predicate HeldAlong(s: Sys, steps: seq<Step>, c: nat)
    requires Runs(s, steps)
    decreases |steps|
  {
    steps != [] && (HeldByOthers(s, c) || HeldAlong(Next(s, steps[0]), steps[1..], c))
  }

  /** At some point of the run the row was gone or no longer stale. */
  ghost predicate TouchedAlong(s: Sys, steps: seq<Step>, c: nat, at: int)
    requires Runs(s, steps)
    decreases |steps|
  {
    steps != [] && (!(c in s.conversations && Stale(s.conversations[c], at))
        || TouchedAlong(Next(s, steps[0]), steps[1..], c, at))
  }

  /** At some point of the run the retention query selected exactly these rows. */
  ghost predicate SelectedAlong(s: Sys, steps: seq<Step>, found: set<nat>, at: int)
    requires Runs(s, steps)
    decreases |steps|
  {
    steps != [] && ((found == Selected(s) && at == s.clock) || SelectedAlong(Next(s, steps[0]), steps[1..], found, at))
  }

  ghost function PassedBy(s: Sys, p: nat): set<nat> {
    if p in s.procs && s.procs[p].Purge? then s.procs[p].passed else {}
  }

  ghost function TouchedBy(s: Sys, p: nat): set<nat> {
    if p in s.procs && s.procs[p].Purge? then s.procs[p].touched else {}
  }

  /** The job gives up a row only because it is held or touched, and it never changes its mind about its snapshot. */
  lemma StepAccounts(s: Sys, step: Step, p: nat, c: nat)
    requires Enabled(s, step)
    requires var s' := Next(s, step); p in s'.procs && s'.procs[p].Purge?
    ensures var g := Next(s, step).procs[p];
      && (c in g.passed ==> c in PassedBy(s, p) || HeldByOthers(s, c))
      && (c in g.touched ==> c in TouchedBy(s, p) || !(c in s.conversations && Stale(s.conversations[c], g.at)))
      && if p in s.procs && s.procs[p].Purge? then g.found == s.procs[p].found && g.at == s.procs[p].at
         else g.found == Selected(s) && g.at == s.clock
  {
  }

  /** A purge was a purge, or nothing, all the way back. */
  lemma StaysPurge(s: Sys, step: Step, p: nat)
    requires Enabled(s, step) && p in s.procs && !s.procs[p].Purge?
    ensures p in Next(s, step).procs && !Next(s, step).procs[p].Purge?
  {
  }

  lemma {:induction false} NeverPurge(s: Sys, steps: seq<Step>, p: nat)
    requires Runs(s, steps) && p in s.procs && !s.procs[p].Purge?
    ensures p in After(s, steps).procs && !After(s, steps).procs[p].Purge?
    decreases |steps|
  {
    if steps != [] {
      StaysPurge(s, steps[0], p);
      NeverPurge(Next(s, steps[0]), steps[1..], p);
    }
  }

  lemma {:induction false} RunAccounts(s: Sys, steps: seq<Step>, p: nat, c: nat)
    requires Runs(s, steps) && (p in s.procs ==> s.procs[p].Purge?)
    requires p in After(s, steps).procs && After(s, steps).procs[p].Purge?
    ensures var g := After(s, steps).procs[p];
      && (c in g.passed ==> c in PassedBy(s, p) || HeldAlong(s, steps, c))
      && (c in g.touched ==> c in TouchedBy(s, p) || TouchedAlong(s, steps, c, g.at))
      && if p in s.procs then g.found == s.procs[p].found && g.at == s.procs[p].at
            else SelectedAlong(s, steps, g.found, g.at)
    decreases |steps|
  {
    if steps != [] {
      var s' := Next(s, steps[0]);
      if p in s'.procs {
        if !s'.procs[p].Purge? {
          NeverPurge(s', steps[1..], p);
        }
        StepAccounts(s, steps[0], p, c);
      }
      RunAccounts(s', steps[1..], p, c);
    }
  }

  /**
    In every interleaving, when the retention job comes to delete, every conversation that its query
    selected is a victim, or was held by another transaction, or was written in between; and its
    victims are selected rows only.
  */
  lemma RetentionAccountsForEveryRow(s: Sys, steps: seq<Step>, p: nat)
    requires Inv(s) && Runs(s, steps) && p !in s.procs && Enabled(After(s, steps), PurgeDelete(p))
    ensures var g := After(s, steps).procs[p];
      && SelectedAlong(s, steps, g.found, g.at) && g.victims <= g.found
      && forall c :: c in g.found && c !in g.victims ==> HeldAlong(s, steps, c) || TouchedAlong(s, steps, c, g.at)
  {
    var t := After(s, steps);
    var g := t.procs[p];
    RunKeepsInv(s, steps);
    assert ProcOk(t.tables.approvals, t.conversations, t.clock, g);
    RunAccounts(s, steps, p, 0);
    forall c | c in g.found && c !in g.victims
      ensures HeldAlong(s, steps, c) || TouchedAlong(s, steps, c, g.at)
    {
      RunAccounts(s, steps, p, c);
    }
  }

  /** The retention job's statements when nothing else holds a row. */
  predicate IsSoloPurge(steps: seq<Step>, p: nat) {
    && |steps| >= 2 && steps[0] == PurgeScan(p) && steps[|steps| - 1] == PurgeDelete(p)
    && forall k :: 0 < k < |steps| - 1 ==> steps[k].PurgeTake? && steps[k].p == p
  }

  /** The job alone has taken all it selected. */
  ghost predicate SoloTaken(s: Sys, b: Sys, p: nat) {
    b == s.(procs := s.procs[p := Purge(s.clock, s.tables.approvals.Keys, Selected(s), {}, Selected(s), {}, {})])
  }

  lemma SoloScan(s: Sys, p: nat)
    requires Inv(s) && p !in s.procs && s.locked == {}
    requires forall q :: q in s.procs ==> !s.procs[q].Gate? && !s.procs[q].Purge? && s.procs[q].Holds() == {}
    ensures Enabled(s, PurgeScan(p)) && Alone(Next(s, PurgeScan(p)), p)
  {
    StepKeepsInv(s, PurgeScan(p));
    var a := Next(s, PurgeScan(p));
    assert ProcOk(a.tables.approvals, a.conversations, a.clock, a.procs[p]);
  }

  lemma SoloTakes(s: Sys, p: nat) returns (h: seq<Step>)
    requires Inv(s) && p !in s.procs && s.locked == {}
    requires forall q :: q in s.procs ==> !s.procs[q].Gate? && !s.procs[q].Purge? && s.procs[q].Holds() == {}
    ensures h != [] && h[0] == PurgeScan(p) && forall k :: 0 < k < |h| ==> h[k].PurgeTake? && h[k].p == p
    ensures Runs(s, h) && SoloTaken(s, After(s, h), p) && Enabled(After(s, h), PurgeDelete(p))
  {
    SoloScan(s, p);
    var scan, a := Go(s, [], PurgeScan(p));
    var takes := TakesAll(a, p);
    RunsAppend(s, scan, takes);
    h := scan + takes;
    var b := After(s, h);
    assert {} + Selected(s) == Selected(s);
    assert forall id :: Free(b, id);
  }

  /** The rows of a snapshot have closed approvals only. */
  lemma SelectedAreClosed(s: Sys)
    ensures forall id :: id in s.tables.approvals && s.tables.approvals[id].conversation in Selected(s)
              ==> !s.tables.approvals[id].Open()
  {
    forall id | id in s.tables.approvals && s.tables.approvals[id].conversation in Selected(s)
      ensures !s.tables.approvals[id].Open()
    {
      assert !HasOpenApproval(s.tables.approvals, s.tables.approvals[id].conversation);
    }
  }

  /** What the job does when it runs alone, from the state s. */
  ghost predicate DeletesSelected(s: Sys, s': Sys, p: nat) {
    var found := Selected(s);
    && s'.procs == s.procs[p := Ended] && s'.tables == s.tables
    && if exists id :: id in s.tables.approvals && s.tables.approvals[id].conversation in found
       then s'.conversations == s.conversations
       else s'.conversations == s.conversations - found && |s'.conversations| == |s.conversations| - |found|
  }

  lemma SoloDelete(s: Sys, b: Sys, p: nat)
    requires Inv(b) && p !in s.procs && SoloTaken(s, b, p) && Enabled(b, PurgeDelete(p))
    ensures DeletesSelected(s, Next(b, PurgeDelete(p)), p)
  {
    var found := Selected(s);
    assert b.procs[p].victims == found && b.procs[p := Ended] == s.procs[p := Ended];
    RetentionDeletesExactlyItsVictims(b, p);
    SelectedAreClosed(s);
    PurgeBlockedIff(b, found);
    if !DeleteBlocked(b.tables, found) {
      assert Spared(s.tables.approvals, found) == s.tables.approvals;
    }
  }

  /**
    The job alone deletes exactly the conversations that are idle for 90 days, low-access or
    soft-deleted, and without an open approval, unless one of them ever had an approval; then it
    deletes nothing.
  */
  lemma SoloPurge(s: Sys, p: nat) returns (steps: seq<Step>)
    requires Inv(s) && p !in s.procs && s.locked == {}
    requires forall q :: q in s.procs ==> !s.procs[q].Gate? && !s.procs[q].Purge? && s.procs[q].Holds() == {}
    ensures IsSoloPurge(steps, p) && Runs(s, steps)
    ensures DeletesSelected(s, After(s, steps), p)
  {
    var h := SoloTakes(s, p);
    RunKeepsInv(s, h);
    SoloDelete(s, After(s, h), p);
    var t;
    steps, t := Go(s, h, PurgeDelete(p));
  }

  /**
    The job promises to spare conversations with an open approval.  It destroys an open approval
    exactly when one was committed for a victim after the snapshot of its SELECT, and no victim has
    a closed approval to stop the delete.
  */
  lemma PurgeTakesAnOpenApprovalIff(s: Sys, p: nat)
    requires Inv(s) && Enabled(s, PurgeDelete(p))
    ensures (exists id :: id in s.tables.approvals && id !in Next(s, PurgeDelete(p)).tables.approvals)
       <==> HasNewApproval(s, p) && !HasClosedApproval(s, p)
  {
    var g, s' := s.procs[p], Next(s, PurgeDelete(p));
    assert ProcOk(s.tables.approvals, s.conversations, s.clock, g);
    PurgeBlockedIff(s, g.victims);
    if HasNewApproval(s, p) && !HasClosedApproval(s, p) {
      var id :| id in s.tables.approvals && s.tables.approvals[id].conversation in g.victims && id !in g.seen;
      assert id !in s'.tables.approvals;
    }
  }

  /** The purge is about to delete an open approval. */
  ghost predicate Purges(s: Sys, p: nat, id: nat) {
    Enabled(s, PurgeDelete(p)) && OpenRow(s.tables.approvals, id) && id !in Next(s, PurgeDelete(p)).tables.approvals
  }

  lemma NewApprovalRun() returns (h: seq<Step>, s: Sys)
    ensures Runs(OldConversation(), h) && s == After(OldConversation(), h)
    ensures s.conversations == OldConversation().conversations && s.locked == {}
    ensures s.procs == map[0 := Purge(RETENTION + 1, {}, {7}, {7}, {}, {}, {}), 1 := Ended]
    ensures s.tables == Tables(map[1 := NewApproval(7, None, "web_search", "t", RETENTION + 1)], [])
  {
    var s0 := OldConversation();
    h, s := Go(s0, [], Tick(RETENTION + 1));
    assert Selected(s) == {7};
    h, s := Go(s0, h, PurgeScan(0));
    assert s.procs[0] == Purge(RETENTION + 1, {}, {7}, {7}, {}, {}, {});
    h, s := Go(s0, h, GateInsert(1, 1, 7, None, "web_search", "t"));
    h, s := Go(s0, h, GateCommit(1));
  }

  /** Nothing but the purge p holds a conversation row, and its rows are stale. */
  ghost predicate Alone(s: Sys, p: nat) {
    && p in s.procs && s.procs[p].Purge? && PurgeOk(s.tables.approvals, s.conversations, s.procs[p])
    && s.locked == {}
    && (forall q :: q in s.procs && q != p ==> !s.procs[q].Gate? && !s.procs[q].Purge? && s.procs[q].Holds() == {})
    && (forall c :: c in s.procs[p].left ==> c in s.conversations && Stale(s.conversations[c], s.procs[p].at))
  }

  /** All rows that are left become victims. */
  function AllTaken(s: Sys, p: nat): Sys
    requires p in s.procs && s.procs[p].Purge?
  {
    var g := s.procs[p];
    s.(procs := s.procs[p := Purge(g.at, g.seen, g.found, {}, g.victims + g.left, g.passed, g.touched)])
  }

  lemma TakesOne(s: Sys, p: nat, c: nat)
    requires Alone(s, p) && c in s.procs[p].left
    ensures var s' := Next(s, PurgeTake(p, c));
      Alone(s', p) && s'.procs[p].left == s.procs[p].left - {c} && AllTaken(s', p) == AllTaken(s, p)
  {
    var s', g := Next(s, PurgeTake(p, c)), s.procs[p];
    assert !HeldByOthers(s, c);
    assert s'.procs[p] == g.(left := g.left - {c}, victims := g.victims + {c});
    TakenOk(s, g, c);
    assert (g.victims + {c}) + (g.left - {c}) == g.victims + g.left;
    assert s.procs[p := s'.procs[p]][p := AllTaken(s, p).procs[p]] == s.procs[p := AllTaken(s, p).procs[p]];
  }

  lemma NothingLeft(s: Sys, p: nat)
    requires p in s.procs && s.procs[p].Purge? && s.procs[p].left == {}
    ensures AllTaken(s, p) == s
  {
    assert s.procs[p].victims + s.procs[p].left == s.procs[p].victims;
    assert AllTaken(s, p).procs == s.procs;
  }

  /** The steps take all rows that are left, and nothing else happens. */
  ghost predicate TakeAll(s: Sys, p: nat, h: seq<Step>)
    requires p in s.procs && s.procs[p].Purge?
  {
    (forall k :: 0 <= k < |h| ==> h[k].PurgeTake? && h[k].p == p) && Runs(s, h) && After(s, h) == AllTaken(s, p)
  }

  lemma TakeOneMore(s: Sys, p: nat, c: nat, rest: seq<Step>)
    requires Alone(s, p) && c in s.procs[p].left
    requires Alone(Next(s, PurgeTake(p, c)), p) && TakeAll(Next(s, PurgeTake(p, c)), p, rest)
    ensures TakeAll(s, p, [PurgeTake(p, c)] + rest)
  {
    TakesOne(s, p, c);
    RunsCons(s, PurgeTake(p, c), rest);
  }

  /** A purge that runs alone takes every row it has selected. */
  lemma {:induction false} TakesAll(s: Sys, p: nat) returns (h: seq<Step>)
    requires Alone(s, p)
    ensures TakeAll(s, p, h)
    decreases |s.procs[p].left|
  {
    if s.procs[p].left == {} {
      h := [];
      NothingLeft(s, p);
    } else {
      var c :| c in s.procs[p].left;
      TakesOne(s, p, c);
      var rest := TakesAll(Next(s, PurgeTake(p, c)), p);
      TakeOneMore(s, p, c, rest);
      h := [PurgeTake(p, c)] + rest;
    }
  }

  /** Then nothing keeps it from deleting. */
  lemma TakesIt(s0: Sys, h: seq<Step>, p: nat) returns (more: seq<Step>, s: Sys)
    requires Runs(s0, h) && Alone(After(s0, h), p)
    ensures Runs(s0, more) && s == After(s0, more) && Enabled(s, PurgeDelete(p))
    ensures s == AllTaken(After(s0, h), p)
  {
    var takes := TakesAll(After(s0, h), p);
    RunsAppend(s0, h, takes);
    more, s := h + takes, After(s0, h + takes);
    assert forall id :: Free(s, id);
  }

  /** It happens: the gate commits between the job's snapshot and its lock on the row. */
  lemma AnOpenApprovalIsPurged()
    ensures exists s: Sys, p: nat, id: nat :: Reachable(s) && Purges(s, p, id)
  {
    var h, s := NewApprovalRun();
    h, s := TakesIt(OldConversation(), h, 0);
    assert s.procs[0].victims == {7};
    Reached(h);
    assert !DeleteBlocked(s.tables, {7});
    assert Purges(s, 0, 1);
  }

  /** The purge has victims, all of them stale, and its delete will be refused. */
  ghost predicate Refused(s: Sys, p: nat) {
    Enabled(s, PurgeDelete(p)) && s.procs[p].victims != {} && DeleteBlocked(s.tables, s.procs[p].victims)
  }

  lemma UsedOnce() returns (h: seq<Step>, s: Sys)
    ensures Runs(OldConversation(), h) && s == After(OldConversation(), h)
    ensures s.conversations == OldConversation().conversations && s.locked == {} && s.clock == 0
    ensures s.procs == map[0 := Ended, 1 := Request(1, 5, "approve", None, Done(Ok200))]
    ensures s.tables.approvals == map[1 := NewApproval(7, None, "web_search", "t", 0).(used := true)]
    ensures |s.tables.audit| == 1 && s.tables.audit[0].approval == 1
  {
    var s0 := OldConversation();
    h, s := ApprovedOnce();
    h, s := Go(s0, h, CommitRequest(1));
  }

  lemma UsedAndIdle() returns (h: seq<Step>, s: Sys)
    ensures Runs(OldConversation(), h) && s == After(OldConversation(), h)
    ensures Alone(s, 2) && s.procs[2] == Purge(RETENTION + 1, {1}, {7}, {7}, {}, {}, {})
    ensures 1 in s.tables.approvals && s.tables.approvals[1].conversation == 7
    ensures |s.tables.audit| == 1 && s.tables.audit[0].approval == 1
  {
    var s0 := OldConversation();
    h, s := UsedOnce();
    h, s := Go(s0, h, Tick(RETENTION + 1));
    assert Selected(s) == {7} && s.tables.approvals.Keys == {1};
    h, s := Go(s0, h, PurgeScan(2));
    assert s.procs[2] == Purge(RETENTION + 1, {1}, {7}, {7}, {}, {}, {});
  }

  /**
    The refusal is reachable: an approval is used, its conversation lies idle for 90 days, the job
    selects and locks it, and the delete changes nothing.
  */
  lemma ARefusedPurgeIsReachable()
    ensures exists s: Sys, p: nat :: Reachable(s) && Refused(s, p)
  {
    var h, s := UsedAndIdle();
    h, s := TakesIt(OldConversation(), h, 2);
    Reached(h);
    assert s.procs[2].victims == {7};
    assert s.tables.audit[0].approval == 1;
    assert DeleteBlocked(s.tables, {7});
    assert Refused(s, 2);
  }
}
