/** Every step of the approval protocol keeps its invariant. */
module HitlInvariant {
  import opened Prelude
  import opened HitlTables
  import opened HitlProtocol

  // ---- the invariant is kept by every step ---------------------------------------------------

  /** One transaction moves and the tables do not change. */
  lemma ReplaceProc(s: Sys, s': Sys, p: nat)
    requires Inv(s) && p in s'.procs
    requires s'.tables == s.tables && s'.conversations == s.conversations && s'.clock == s.clock
    requires s'.procs == s.procs[p := s'.procs[p]]
    requires s'.locked == s.locked && (s'.procs[p].Purge? ==> s'.procs[p].victims !! s.locked)
    requires p in s.procs ==> !(s.procs[p].Request? && s.procs[p].pc == Done(Ok200))
    requires ProcOk(s.tables.approvals, s.conversations, s.clock, s'.procs[p])
    requires forall q :: q in s.procs && q != p
               ==> Compatible(s'.procs[p], s.procs[q]) && Compatible(s.procs[q], s'.procs[p])
    requires ResumesOk(s')
    requires s.issued <= s'.issued && Met(s'.procs[p]) <= s'.issued
    ensures Inv(s')
  {
    forall id | id in s'.tables.approvals && s'.tables.approvals[id].used
      ensures exists q :: q in s'.procs && Wins(s'.procs[q], id) && s'.procs[q].pc == Done(Ok200)
    {
      var q :| q in s.procs && Wins(s.procs[q], id) && s.procs[q].pc == Done(Ok200);
      assert q != p;
      assert s'.procs[q] == s.procs[q];
    }
  }

  lemma ConsumeKeepsInv(s: Sys, p: nat)
    requires Inv(s) && Enabled(s, Consume(p))
    ensures Inv(Next(s, Consume(p)))
  {
    var s' := Next(s, Consume(p));
    forall q | q in s.procs && q != p
      ensures Compatible(s'.procs[p], s.procs[q]) && Compatible(s.procs[q], s'.procs[p])
    {
      assert s.procs[p].aid !in s.procs[q].Holds();
    }
    ReplaceProc(s, s', p);
  }

  lemma ArriveKeepsInv(s: Sys, step: Step)
    requires Inv(s) && Enabled(s, step) && step.Arrive?
    ensures Inv(Next(s, step))
  {
    ReplaceProc(s, Next(s, step), step.p);
  }

  lemma PreCheckKeepsInv(s: Sys, p: nat)
    requires Inv(s) && Enabled(s, PreCheck(p))
    ensures Inv(Next(s, PreCheck(p)))
  {
    var s' := Next(s, PreCheck(p));
    forall q | q in s.procs && q != p
      ensures Compatible(s'.procs[p], s.procs[q]) && Compatible(s.procs[q], s'.procs[p])
    {
      assert ProcOk(s.tables.approvals, s.conversations, s.clock, s.procs[q]);
    }
    ReplaceProc(s, s', p);
  }

  /** A holder goes on: the audit insert, or the launch of the resume. */
  lemma HolderStepKeepsInv(s: Sys, step: Step)
    requires Inv(s) && Enabled(s, step) && (step.InsertAudit? || step.Launch?)
    ensures Inv(Next(s, step))
  {
    var s', p := Next(s, step), step.p;
    assert ProcOk(s.tables.approvals, s.conversations, s.clock, s.procs[p]);
    forall q | q in s.procs && q != p
      ensures Compatible(s'.procs[p], s.procs[q]) && Compatible(s.procs[q], s'.procs[p])
    {
      assert Compatible(s.procs[p], s.procs[q]) && Compatible(s.procs[q], s.procs[p]);
    }
    ReplaceProc(s, s', p);
  }

  lemma AbortKeepsInv(s: Sys, p: nat)
    requires Inv(s) && Enabled(s, Abort(p))
    ensures Inv(Next(s, Abort(p)))
  {
    ReplaceProc(s, Next(s, Abort(p)), p);
  }

  lemma GateInsertKeepsInv(s: Sys, step: Step)
    requires Inv(s) && Enabled(s, step) && step.GateInsert?
    ensures Inv(Next(s, step))
  {
    var s' := Next(s, step);
    forall q | q in s.procs && q != step.p
      ensures Compatible(s'.procs[step.p], s.procs[q]) && Compatible(s.procs[q], s'.procs[step.p])
    {
      assert ProcOk(s.tables.approvals, s.conversations, s.clock, s.procs[q]);
    }
    ReplaceProc(s, s', step.p);
  }

  lemma SweepStartKeepsInv(s: Sys, p: nat)
    requires Inv(s) && Enabled(s, SweepStart(p))
    ensures Inv(Next(s, SweepStart(p)))
  {
    var s' := Next(s, SweepStart(p));
    forall q | q in s.procs && q != p
      ensures Compatible(s'.procs[p], s.procs[q]) && Compatible(s.procs[q], s'.procs[p])
    {
      assert ProcOk(s.tables.approvals, s.conversations, s.clock, s.procs[q]);
    }
    ReplaceProc(s, s', p);
  }

  lemma SweepTakeOk(approvals: map<nat, Approval>, clock: int, w: Proc, w': Proc, id: nat)
    requires w.Sweep? && SweepOk(approvals, clock, w) && id in w.todo
    requires w' == w.(todo := w.todo - {id}, taken := if OpenRow(approvals, id) then w.taken + [id] else w.taken)
    ensures SweepOk(approvals, clock, w')
    ensures w'.Holds() <= w.Holds() + {id}
  {
    assert id !in w.taken;
    forall x | x in w'.seen && x in approvals
      ensures x in w'.todo || x in w'.taken || !approvals[x].Open() || w'.now <= approvals[x].expiresAt
    {
      assert x in w.todo || x in w.taken || !approvals[x].Open() || w.now <= approvals[x].expiresAt;
      assert OpenRow(approvals, id) ==> w'.taken[|w.taken|] == id;
    }
  }

  lemma SweepTakeKeepsInv(s: Sys, p: nat, id: nat)
    requires Inv(s) && Enabled(s, SweepTake(p, id))
    ensures Inv(Next(s, SweepTake(p, id)))
  {
    var s' := Next(s, SweepTake(p, id));
    var w, w' := s.procs[p], s'.procs[p];
    assert ProcOk(s.tables.approvals, s.conversations, s.clock, w);
    SweepTakeOk(s.tables.approvals, s.clock, w, w', id);
    forall q | q in s.procs && q != p
      ensures Compatible(w', s.procs[q]) && Compatible(s.procs[q], w')
    {
      assert Compatible(w, s.procs[q]) && Compatible(s.procs[q], w);
      assert id !in s.procs[q].Holds();
    }
    ReplaceProc(s, s', p);
  }

  lemma SweepLogKeepsInv(s: Sys, p: nat)
    requires Inv(s) && Enabled(s, SweepLog(p))
    ensures Inv(Next(s, SweepLog(p)))
  {
    var s' := Next(s, SweepLog(p));
    assert ProcOk(s.tables.approvals, s.conversations, s.clock, s.procs[p]);
    assert s'.procs[p].Holds() == s.procs[p].Holds();
    forall q | q in s.procs && q != p
      ensures Compatible(s'.procs[p], s.procs[q]) && Compatible(s.procs[q], s'.procs[p])
    {
      assert Compatible(s.procs[p], s.procs[q]) && Compatible(s.procs[q], s.procs[p]);
    }
    ReplaceProc(s, s', p);
  }

  lemma PurgeScanKeepsInv(s: Sys, p: nat)
    requires Inv(s) && Enabled(s, PurgeScan(p))
    ensures Inv(Next(s, PurgeScan(p)))
  {
    var s' := Next(s, PurgeScan(p));
    forall q | q in s.procs && q != p
      ensures Compatible(s'.procs[p], s.procs[q]) && Compatible(s.procs[q], s'.procs[p])
    {
      assert ProcOk(s.tables.approvals, s.conversations, s.clock, s.procs[q]);
    }
    ReplaceProc(s, s', p);
  }

  lemma TakenOk(s: Sys, g: Proc, c: nat)
    requires g.Purge? && PurgeOk(s.tables.approvals, s.conversations, g) && c in g.left
    ensures PurgeOk(s.tables.approvals, s.conversations, Taken(s, g, c))
  {
  }

  lemma PurgeTakeKeepsInv(s: Sys, p: nat, c: nat)
    requires Inv(s) && Enabled(s, PurgeTake(p, c))
    ensures Inv(Next(s, PurgeTake(p, c)))
  {
    var s', g := Next(s, PurgeTake(p, c)), s.procs[p];
    assert ProcOk(s.tables.approvals, s.conversations, s.clock, g);
    TakenOk(s, g, c);
    forall q | q in s.procs && q != p
      ensures Compatible(s'.procs[p], s.procs[q]) && Compatible(s.procs[q], s'.procs[p])
    {
      assert Compatible(g, s.procs[q]) && Compatible(s.procs[q], g);
      assert c in s'.procs[p].victims && s.procs[q].Gate? ==> s.procs[q].row.conversation != c;
      assert c in s'.procs[p].victims && s.procs[q].Purge? ==> c !in s.procs[q].victims;
    }
    ReplaceProc(s, s', p);
  }

  /** Closing rows that only p held leaves every other transaction in order. */
  lemma ClosingFrame(s: Sys, s': Sys, p: nat, closed: set<nat>)
    requires Inv(s) && p in s.procs && p in s'.procs && s'.procs == s.procs[p := s'.procs[p]]
    requires s'.conversations == s.conversations && s'.clock == s.clock
    requires closed <= s.procs[p].Holds()
    requires s'.tables.approvals.Keys == s.tables.approvals.Keys
    requires forall id :: id in s.tables.approvals && id !in closed
               ==> s'.tables.approvals[id] == s.tables.approvals[id]
    requires forall id :: id in closed && id in s.tables.approvals ==>
               && !s'.tables.approvals[id].Open()
               && s'.tables.approvals[id].conversation == s.tables.approvals[id].conversation
               && s'.tables.approvals[id].expiresAt == s.tables.approvals[id].expiresAt
    requires forall id :: id in closed && id in s.tables.approvals && s.tables.approvals[id].used
               ==> s'.tables.approvals[id].used
    ensures forall q :: q in s.procs && q != p ==> ProcOk(s'.tables.approvals, s'.conversations, s'.clock, s.procs[q])
  {
    forall q | q in s.procs && q != p
      ensures ProcOk(s'.tables.approvals, s'.conversations, s'.clock, s.procs[q])
    {
      var proc := s.procs[q];
      assert ProcOk(s.tables.approvals, s.conversations, s.clock, proc);
      assert proc.Holds() !! closed by { assert Compatible(s.procs[p], proc); }
      match proc
      case Sweep(_, _, _, _, taken, _) =>
        forall k | 0 <= k < |taken|
          ensures OpenRow(s'.tables.approvals, taken[k])
        {
          assert taken[k] in proc.Holds();
        }
      case Request(aid, _, _, _, pc) =>
        if pc in {Holding, Logged, Launched} {
          assert aid in proc.Holds();
        }
      case _ =>
    }
  }

  /** Who used an approval stays on record when other rows change. */
  lemma UsersFrame(s: Sys, s': Sys, p: nat)
    requires Inv(s) && p in s.procs && p in s'.procs && s'.procs == s.procs[p := s'.procs[p]]
    requires !(s.procs[p].Request? && s.procs[p].pc == Done(Ok200))
    requires forall id :: id in s'.tables.approvals && s'.tables.approvals[id].used ==>
               || (id in s.tables.approvals && s.tables.approvals[id].used)
               || (Wins(s'.procs[p], id) && s'.procs[p].pc == Done(Ok200))
    ensures UsedByRequest(s')
  {
    forall id | id in s'.tables.approvals && s'.tables.approvals[id].used
      ensures exists q :: q in s'.procs && Wins(s'.procs[q], id) && s'.procs[q].pc == Done(Ok200)
    {
      if id in s.tables.approvals && s.tables.approvals[id].used {
        var q :| q in s.procs && Wins(s.procs[q], id) && s.procs[q].pc == Done(Ok200);
        assert s'.procs[q] == s.procs[q];
      }
    }
  }

  lemma CommitRequestPairs(s: Sys, p: nat)
    requires Inv(s) && Enabled(s, CommitRequest(p))
    ensures PairsOk(Next(s, CommitRequest(p)))
  {
    var r, r' := s.procs[p], s.procs[p].(pc := Done(Ok200));
    forall q | q in s.procs && q != p
      ensures Compatible(r', s.procs[q]) && Compatible(s.procs[q], r')
    {
      assert ProcOk(s.tables.approvals, s.conversations, s.clock, r);
      assert ProcOk(s.tables.approvals, s.conversations, s.clock, s.procs[q]);
    }
  }

  lemma CommitRequestProcs(s: Sys, p: nat)
    requires Inv(s) && Enabled(s, CommitRequest(p))
    ensures var s' := Next(s, CommitRequest(p)); var id := s.procs[p].aid;
      && id in s.tables.approvals
      && s'.tables.approvals == s.tables.approvals[id := s.tables.approvals[id].(used := true)]
      && ProcsOk(s')
  {
    var s', r := Next(s, CommitRequest(p)), s.procs[p];
    assert ProcOk(s.tables.approvals, s.conversations, s.clock, r);
    assert s'.tables.approvals == s.tables.approvals[r.aid := s.tables.approvals[r.aid].(used := true)];
    ClosingFrame(s, s', p, {r.aid});
  }

  lemma CommitRequestFrame(s: Sys, p: nat)
    requires Inv(s) && Enabled(s, CommitRequest(p))
    ensures ResumesOk(Next(s, CommitRequest(p))) && UsedByRequest(Next(s, CommitRequest(p)))
  {
    CommitRequestProcs(s, p);
    UsersFrame(s, Next(s, CommitRequest(p)), p);
  }

  lemma CommitRequestKeepsInv(s: Sys, p: nat)
    requires Inv(s) && Enabled(s, CommitRequest(p))
    ensures Inv(Next(s, CommitRequest(p)))
  {
    var r := s.procs[p];
    CommitRequestProcs(s, p);
    ApproveConserves(s.tables, s.tables, r.aid, r.user, r.decision, r.ip);
    CommitRequestPairs(s, p);
    CommitRequestFrame(s, p);
  }

  lemma EndingPairs(s: Sys, p: nat)
    requires Inv(s) && p in s.procs
    ensures forall q :: q in s.procs && q != p ==> Compatible(Ended, s.procs[q]) && Compatible(s.procs[q], Ended)
  {
  }

  lemma SweepCommitProcs(s: Sys, p: nat)
    requires Inv(s) && Enabled(s, SweepCommit(p))
    ensures var s' := Next(s, SweepCommit(p));
      && s'.tables == SweepTables(s.tables, s.procs[p].taken)
      && ProcsOk(s')
  {
    var s' := Next(s, SweepCommit(p));
    assert ProcOk(s.tables.approvals, s.conversations, s.clock, s.procs[p]);
    assert s'.tables == SweepTables(s.tables, s.procs[p].taken);
    ClosingFrame(s, s', p, s.procs[p].Holds());
  }

  lemma SweepCommitAudit(s: Sys, p: nat)
    requires Inv(s) && Enabled(s, SweepCommit(p))
    ensures AuditConserved(Next(s, SweepCommit(p)).tables)
  {
    var w := s.procs[p];
    assert ProcOk(s.tables.approvals, s.conversations, s.clock, w);
    assert (set id | id in w.taken) == Elements(w.taken);
    SweepConserves(s.tables, w.now, w.taken);
  }

  lemma SweepCommitFrame(s: Sys, p: nat)
    requires Inv(s) && Enabled(s, SweepCommit(p))
    ensures UsedByRequest(Next(s, SweepCommit(p))) && ResumesOk(Next(s, SweepCommit(p)))
    ensures IdsOk(Next(s, SweepCommit(p))) && LocksOk(Next(s, SweepCommit(p)))
  {
    SweepCommitProcs(s, p);
    UsersFrame(s, Next(s, SweepCommit(p)), p);
  }

  lemma SweepCommitKeepsInv(s: Sys, p: nat)
    requires Inv(s) && Enabled(s, SweepCommit(p))
    ensures Inv(Next(s, SweepCommit(p)))
  {
    SweepCommitProcs(s, p);
    SweepCommitAudit(s, p);
    EndingPairs(s, p);
    SweepCommitFrame(s, p);
  }

  lemma GateCommitProcs(s: Sys, p: nat)
    requires Inv(s) && Enabled(s, GateCommit(p))
    ensures ProcsOk(Next(s, GateCommit(p)))
  {
    var s', g := Next(s, GateCommit(p)), s.procs[p];
    assert ProcOk(s.tables.approvals, s.conversations, s.clock, g);
    forall q | q in s.procs && q != p
      ensures ProcOk(s'.tables.approvals, s'.conversations, s'.clock, s.procs[q])
    {
      var proc := s.procs[q];
      assert ProcOk(s.tables.approvals, s.conversations, s.clock, proc);
      assert Compatible(g, proc) && Compatible(proc, g);
    }
  }

  /** A fresh open approval has no audit row yet. */
  lemma AddingConserves(t: Tables, id: nat, row: Approval)
    requires AuditConserved(t) && id !in t.approvals && row.Open()
    ensures AuditConserved(t.(approvals := t.approvals[id := row]))
  {
    NoRowsForUnknown(t, t.audit, id);
  }

  lemma GateCommitFrame(s: Sys, p: nat)
    requires Inv(s) && Enabled(s, GateCommit(p))
    ensures UsedByRequest(Next(s, GateCommit(p))) && ResumesOk(Next(s, GateCommit(p)))
    ensures IdsOk(Next(s, GateCommit(p))) && LocksOk(Next(s, GateCommit(p)))
  {
    assert ProcOk(s.tables.approvals, s.conversations, s.clock, s.procs[p]);
    UsersFrame(s, Next(s, GateCommit(p)), p);
    assert s.procs[p].newId in Met(s.procs[p]);
  }

  lemma GateCommitKeepsInv(s: Sys, p: nat)
    requires Inv(s) && Enabled(s, GateCommit(p))
    ensures Inv(Next(s, GateCommit(p)))
  {
    var g := s.procs[p];
    assert ProcOk(s.tables.approvals, s.conversations, s.clock, g);
    GateCommitProcs(s, p);
    AddingConserves(s.tables, g.newId, g.row);
    EndingPairs(s, p);
    GateCommitFrame(s, p);
  }

  lemma {:induction false} LoggedSomewhere(audit: seq<AuditRow>, id: nat)
    requires RowsFor(audit, id) != []
    ensures exists k :: 0 <= k < |audit| && audit[k].approval == id
  {
    RowsForMember(audit, id, 0);
  }

  lemma {:induction false} NotLogged(audit: seq<AuditRow>, id: nat)
    requires RowsFor(audit, id) == []
    ensures forall k :: 0 <= k < |audit| ==> audit[k].approval != id
  {
    if audit != [] {
      NotLogged(audit[..|audit| - 1], id);
    }
  }

  /**
    The retention job's DELETE is refused exactly when one of its victims has an approval that was
    used or has expired: such an approval has its audit row, and the audit row has no ON DELETE rule.
  */
  lemma PurgeBlockedIff(s: Sys, victims: set<nat>)
    requires Inv(s)
    ensures DeleteBlocked(s.tables, victims)
       <==> exists id :: id in s.tables.approvals && s.tables.approvals[id].conversation in victims
              && !s.tables.approvals[id].Open()
  {
    var t := s.tables;
    forall id | id in t.approvals && t.approvals[id].conversation in victims
      ensures (exists k :: 0 <= k < |t.audit| && t.audit[k].approval == id) <==> !t.approvals[id].Open()
    {
      assert RowsMatch(id, t.approvals[id], RowsFor(t.audit, id));
      if t.approvals[id].Open() {
        NotLogged(t.audit, id);
      } else {
        LoggedSomewhere(t.audit, id);
      }
    }
  }

  /** A delete that goes through removes open approvals only, so the log stays in step. */
  lemma SparedConserves(s: Sys, victims: set<nat>)
    requires Inv(s) && !DeleteBlocked(s.tables, victims)
    ensures AuditConserved(s.tables.(approvals := Spared(s.tables.approvals, victims)))
    ensures forall id :: id in s.tables.approvals && id !in Spared(s.tables.approvals, victims)
              ==> s.tables.approvals[id].Open()
  {
    PurgeBlockedIff(s, victims);
  }

  /** The other transactions do not notice a delete: it locks what it removes. */
  lemma PurgeDeleteProcs(s: Sys, p: nat)
    requires Inv(s) && Enabled(s, PurgeDelete(p)) && !DeleteBlocked(s.tables, s.procs[p].victims)
    ensures var victims := s.procs[p].victims;
      forall q :: q in s.procs && q != p ==>
        ProcOk(Spared(s.tables.approvals, victims), s.conversations - victims, s.clock, s.procs[q])
  {
    var victims := s.procs[p].victims;
    var spared := Spared(s.tables.approvals, victims);
    SparedConserves(s, victims);
    forall q | q in s.procs && q != p
      ensures ProcOk(spared, s.conversations - victims, s.clock, s.procs[q])
    {
      var proc := s.procs[q];
      assert ProcOk(s.tables.approvals, s.conversations, s.clock, proc);
      assert Compatible(s.procs[p], proc) && Compatible(proc, s.procs[p]);
      forall id | id in proc.Holds() && id in s.tables.approvals
        ensures id in spared
      {
        assert s.tables.approvals[id].conversation in victims ==> Free(s, id);
      }
      match proc
      case Sweep(_, _, _, _, taken, _) =>
        assert forall k :: 0 <= k < |taken| ==> taken[k] in proc.Holds();
      case Request(aid, _, _, _, pc) =>
        assert pc in {Holding, Logged, Launched} ==> aid in proc.Holds();
      case _ =>
    }
  }

  lemma PurgeDeleteKeepsInv(s: Sys, p: nat)
    requires Inv(s) && Enabled(s, PurgeDelete(p))
    ensures Inv(Next(s, PurgeDelete(p)))
  {
    var ended := s.(procs := s.procs[p := Ended]);
    EndingPairs(s, p);
    ReplaceProc(s, ended, p);
    if !DeleteBlocked(s.tables, s.procs[p].victims) {
      SparedConserves(s, s.procs[p].victims);
      PurgeDeleteProcs(s, p);
      UsersFrame(s, Next(s, PurgeDelete(p)), p);
    }
  }

  lemma EnvironmentKeepsInv(s: Sys, step: Step)
    requires Inv(s) && Enabled(s, step) && (step.Tick? || step.LockConversation? || step.ReleaseConversation?)
    ensures Inv(Next(s, step))
  {
    var s' := Next(s, step);
    forall q | q in s.procs
      ensures ProcOk(s'.tables.approvals, s'.conversations, s'.clock, s.procs[q])
    {
      assert ProcOk(s.tables.approvals, s.conversations, s.clock, s.procs[q]);
    }
  }

  lemma StepKeepsInv(s: Sys, step: Step)
    requires Inv(s) && Enabled(s, step)
    ensures Inv(Next(s, step))
  {
    match step
    case Tick(_) => EnvironmentKeepsInv(s, step);
    case LockConversation(_) => EnvironmentKeepsInv(s, step);
    case ReleaseConversation(_, _) => EnvironmentKeepsInv(s, step);
    case Consume(p) => ConsumeKeepsInv(s, p);
    case CommitRequest(p) => CommitRequestKeepsInv(s, p);
    case Abort(p) => AbortKeepsInv(s, p);
    case GateInsert(_, _, _, _, _, _) => GateInsertKeepsInv(s, step);
    case GateCommit(p) => GateCommitKeepsInv(s, p);
    case SweepStart(p) => SweepStartKeepsInv(s, p);
    case SweepTake(p, id) => SweepTakeKeepsInv(s, p, id);
    case SweepLog(p) => SweepLogKeepsInv(s, p);
    case SweepCommit(p) => SweepCommitKeepsInv(s, p);
    case PurgeScan(p) => PurgeScanKeepsInv(s, p);
    case PurgeTake(p, c) => PurgeTakeKeepsInv(s, p, c);
    case PurgeDelete(p) => PurgeDeleteKeepsInv(s, p);
    case Arrive(_, _, _, _, _) => ArriveKeepsInv(s, step);
    case PreCheck(p) => PreCheckKeepsInv(s, p);
    case _ => HolderStepKeepsInv(s, step);
  }
}
