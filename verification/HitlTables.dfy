/**
  The two approval tables and the operations that one database session runs on them
  (src/persistence/repositories/hitl_repo.py), with the transaction bracket of
  src/persistence/database.py and the serial form of the two callers: the approve endpoint and
  one pass of the timeout sweeper.

  Each method is proved against a function on the tables.  HitlProtocol uses the same functions
  when many sessions run at once.
*/
module HitlTables {
  import opened Prelude

  /** One row of hitl_approvals; ids are the keys of the table. */
  datatype Approval = Approval(
    conversation: nat,
    user: Option<nat>,
    tool: string,
    thread: string,
    expiresAt: int,
    used: bool,
    expired: bool)
  {
    /** The WHERE clause shared by every guarded update. */
    predicate Open() {
      !used && !expired
    }
  }

  /** One row of hitl_audit_log. */
  datatype AuditRow = AuditRow(
    approval: nat,
    user: Option<nat>,
    conversation: nat,
    tool: string,
    decision: string,
    ip: Option<string>)

  datatype Tables = Tables(approvals: map<nat, Approval>, audit: seq<AuditRow>)

  /** Seconds between the creation of an approval and its deadline. */
  const APPROVAL_LIFETIME := 600

  /** The CHECK constraint on hitl_audit_log.decision. */
  predicate Accepted(decision: string) {
    decision == "approve" || decision == "deny" || decision == "timeout"
  }

  function NewApproval(conversation: nat, user: Option<nat>, tool: string, thread: string, now: int): Approval {
    Approval(conversation, user, tool, thread, now + APPROVAL_LIFETIME, false, false)
  }

  function DecisionRow(id: nat, row: Approval, user: nat, decision: string, ip: Option<string>): AuditRow {
    AuditRow(id, Some(user), row.conversation, row.tool, decision, ip)
  }

  function TimeoutRow(id: nat, row: Approval): AuditRow {
    AuditRow(id, row.user, row.conversation, row.tool, "timeout", None)
  }

  /** The timeout rows of a list of approvals, in order. */
  function TimeoutRows(approvals: map<nat, Approval>, ids: seq<nat>): (rows: seq<AuditRow>)
    requires forall k :: 0 <= k < |ids| ==> ids[k] in approvals
  {
    seq(|ids|, k requires 0 <= k < |ids| => TimeoutRow(ids[k], approvals[ids[k]]))
  }

  /** The approvals the sweeper's WHERE clause selects at time now. */
  function StaleIds(approvals: map<nat, Approval>, now: int): set<nat> {
    set id | id in approvals && approvals[id].expiresAt < now && approvals[id].Open()
  }

  function ExpireAll(approvals: map<nat, Approval>, ids: set<nat>): map<nat, Approval> {
    map id | id in approvals :: if id in ids then approvals[id].(expired := true) else approvals[id]
  }

  ghost function Elements(ids: seq<nat>): (r: set<nat>)
    ensures forall id :: id in r <==> id in ids
  {
    set k | k in ids
  }

  lemma ElementsAppend(ids: seq<nat>, id: nat)
    ensures Elements(ids + [id]) == Elements(ids) + {id}
  {
  }

  lemma {:induction false} DistinctCount(ids: seq<nat>)
    requires forall j, k :: 0 <= j < k < |ids| ==> ids[j] != ids[k]
    ensures |Elements(ids)| == |ids|
  {
    if ids != [] {
      var init, last := ids[..|ids| - 1], ids[|ids| - 1];
      DistinctCount(init);
      assert ids == init + [last];
      ElementsAppend(init, last);
    }
  }

  /** The audit rows that mention one approval, oldest first. */
  ghost function RowsFor(audit: seq<AuditRow>, id: nat): seq<AuditRow> {
    if audit == [] then []
    else
      var last := audit[|audit| - 1];
      RowsFor(audit[..|audit| - 1], id) + if last.approval == id then [last] else []
  }

  lemma RowsForAppend(audit: seq<AuditRow>, row: AuditRow, id: nat)
    ensures RowsFor(audit + [row], id) == RowsFor(audit, id) + if row.approval == id then [row] else []
  {
    assert (audit + [row])[..|audit|] == audit;
  }

  /** Logging a duplicate-free list of timeouts adds exactly one row for each id on it. */
  lemma {:induction false} RowsForTimeouts(audit: seq<AuditRow>, approvals: map<nat, Approval>, ids: seq<nat>, id: nat)
    requires forall k :: 0 <= k < |ids| ==> ids[k] in approvals
    requires forall j, k :: 0 <= j < k < |ids| ==> ids[j] != ids[k]
    ensures RowsFor(audit + TimeoutRows(approvals, ids), id)
         == RowsFor(audit, id) + if id in ids then [TimeoutRow(id, approvals[id])] else []
  {
    if ids == [] {
      assert audit + TimeoutRows(approvals, ids) == audit;
    } else {
      var init, last := ids[..|ids| - 1], ids[|ids| - 1];
      RowsForTimeouts(audit, approvals, init, id);
      var row := TimeoutRow(last, approvals[last]);
      assert audit + TimeoutRows(approvals, ids) == (audit + TimeoutRows(approvals, init)) + [row];
      RowsForAppend(audit + TimeoutRows(approvals, init), row, id);
      assert ids == init + [last];
    }
  }

  /** Every logged row belongs to a row of the approval table. */
  ghost predicate AuditReferences(t: Tables) {
    forall k :: 0 <= k < |t.audit| ==> t.audit[k].approval in t.approvals
  }

  /** The audit rows an approval must have, given its state. */
  ghost predicate RowsMatch(id: nat, row: Approval, rows: seq<AuditRow>) {
    && !(row.used && row.expired)
    && |rows| == (if row.Open() then 0 else 1)
    && (!row.Open() ==>
          && rows[0].conversation == row.conversation
          && rows[0].tool == row.tool
          && Accepted(rows[0].decision)
          && (row.expired ==> rows[0] == TimeoutRow(id, row)))
  }

  /** Audit conservation: one row for a closed approval, none for an open one, and no stray rows. */
  ghost predicate AuditConserved(t: Tables) {
    && AuditReferences(t)
    && (forall id :: id in t.approvals ==> RowsMatch(id, t.approvals[id], RowsFor(t.audit, id)))
  }

  lemma {:induction false} NoRowsForUnknown(t: Tables, audit: seq<AuditRow>, id: nat)
    requires forall k :: 0 <= k < |audit| ==> audit[k].approval in t.approvals
    requires id !in t.approvals
    ensures RowsFor(audit, id) == []
  {
    if audit != [] {
      NoRowsForUnknown(t, audit[..|audit| - 1], id);
    }
  }

  lemma {:induction false} RowsForMember(audit: seq<AuditRow>, id: nat, k: nat)
    requires k < |RowsFor(audit, id)|
    ensures RowsFor(audit, id)[k] in audit && RowsFor(audit, id)[k].approval == id
  {
    var init := audit[..|audit| - 1];
    if k < |RowsFor(init, id)| {
      RowsForMember(init, id, k);
    }
  }

  // ---- one transaction of each caller, on the committed tables -------------------------------

  datatype Outcome =
    | Ok200        // consumed, logged, resume launched, committed
    | Conflict409  // the pre-check saw it open, the guarded update did not
    | Gone410      // the pre-check saw it used or expired
    | Missing410   // no such approval
    | Failed(launched: bool)  // an exception rolled the transaction back

  /**
    What the approve endpoint does when its pre-check reads the tables `seen` and, other sessions
    having committed in between, its guarded update runs on the tables t.
  */
  function ApproveAfter(seen: Tables, t: Tables, id: nat, user: nat, decision: string, ip: Option<string>)
    : (Tables, Outcome)
  {
    if id !in seen.approvals then (t, Missing410)
    else if !seen.approvals[id].Open() then (t, Gone410)
    else if id !in t.approvals || !t.approvals[id].Open() then (t, Conflict409)
    else if !Accepted(decision) then (t, Failed(false))
    else
      var row := t.approvals[id];
      (Tables(t.approvals[id := row.(used := true)], t.audit + [DecisionRow(id, row, user, decision, ip)]), Ok200)
  }

  /** What the approve endpoint does when nothing else runs. */
  function Approve(t: Tables, id: nat, user: nat, decision: string, ip: Option<string>): (Tables, Outcome) {
    ApproveAfter(t, t, id, user, decision, ip)
  }

  /** The approve endpoint keeps the audit log in step with the approvals. */
  lemma ApproveConserves(seen: Tables, t: Tables, id: nat, user: nat, decision: string, ip: Option<string>)
    requires AuditConserved(t)
    ensures AuditConserved(ApproveAfter(seen, t, id, user, decision, ip).0)
  {
    var t' := ApproveAfter(seen, t, id, user, decision, ip).0;
    if t' != t {
      var row := DecisionRow(id, t.approvals[id], user, decision, ip);
      forall x | x in t'.approvals
        ensures RowsMatch(x, t'.approvals[x], RowsFor(t'.audit, x))
      {
        RowsForAppend(t.audit, row, x);
      }
    }
  }

  /** A second approve of the same approval changes nothing, whatever it decides. */
  lemma ApproveIsOnceOnly(t: Tables, id: nat, u1: nat, u2: nat, d1: string, d2: string, ip1: Option<string>,
      ip2: Option<string>)
    requires Approve(t, id, u1, d1, ip1).1 == Ok200
    ensures Approve(Approve(t, id, u1, d1, ip1).0, id, u2, d2, ip2) == (Approve(t, id, u1, d1, ip1).0, Gone410)
  {
  }

  lemma SweepConserves(t: Tables, now: int, ids: seq<nat>)
    requires AuditConserved(t)
    requires forall k :: 0 <= k < |ids| ==> ids[k] in t.approvals && t.approvals[ids[k]].Open()
    requires forall j, k :: 0 <= j < k < |ids| ==> ids[j] != ids[k]
    ensures AuditConserved(Tables(ExpireAll(t.approvals, Elements(ids)), t.audit + TimeoutRows(t.approvals, ids)))
  {
    var expired := Elements(ids);
    var approvals' := ExpireAll(t.approvals, expired);
    forall x | x in approvals'
      ensures RowsMatch(x, approvals'[x], RowsFor(t.audit + TimeoutRows(t.approvals, ids), x))
    {
      RowsForTimeouts(t.audit, t.approvals, ids, x);
    }
  }

  /**
    A database session over the two tables.  The session works on its own copy; the context
    manager commits the copy on a clean exit and drops it when an exception leaves the block.
  */
  class Session {
    var committed: Tables
    var working: Tables
    var resumes: seq<(string, string)>  // resume tasks launched: thread and decision

    constructor (t: Tables)
      ensures committed == t && working == t && resumes == []
    {
      committed, working, resumes := t, t, [];
    }

    method Commit()
      modifies this
      ensures committed == working == old(working) && resumes == old(resumes)
    {
      committed := working;
    }

    method Rollback()
      modifies this
      ensures committed == working == old(committed) && resumes == old(resumes)
    {
      working := committed;
    }

    method CreateApproval(id: nat, conversation: nat, user: Option<nat>, tool: string, thread: string, now: int)
      requires id !in working.approvals
      modifies this
      ensures committed == old(committed) && resumes == old(resumes)
      ensures working == old(working).(approvals :=
                old(working).approvals[id := NewApproval(conversation, user, tool, thread, now)])
      ensures working.approvals[id].Open() && working.approvals[id].expiresAt == now + 600
    {
      var row := NewApproval(conversation, user, tool, thread, now);
      working := working.(approvals := working.approvals[id := row]);
    }

    method GetApproval(id: nat) returns (row: Option<Approval>)
      ensures row.Some? <==> id in working.approvals
      ensures row.Some? ==> row.value == working.approvals[id]
    {
      if id in working.approvals {
        row := Some(working.approvals[id]);
      } else {
        row := None;
      }
    }

    /** The open approvals of one conversation. */
    method GetOpenApprovalIds(conversation: nat) returns (ids: set<nat>)
      ensures forall id :: id in ids <==>
                id in working.approvals && working.approvals[id].conversation == conversation
                    && working.approvals[id].Open()
    {
      ids := set id | id in working.approvals && working.approvals[id].conversation == conversation
          && working.approvals[id].Open();
    }

    /** The guarded update: it succeeds exactly on an existing open row, and then on that row alone. */
    method ConsumeApproval(id: nat) returns (row: Option<Approval>)
      modifies this
      ensures committed == old(committed) && resumes == old(resumes) && working.audit == old(working.audit)
      ensures row.Some? <==> id in old(working.approvals) && old(working.approvals)[id].Open()
      ensures row.None? ==> working == old(working)
      ensures row.Some? ==>
        && row.value == old(working.approvals)[id].(used := true)
        && working.approvals == old(working.approvals)[id := row.value]
    {
      row := None;
      if id in working.approvals && working.approvals[id].Open() {
        row := Some(working.approvals[id].(used := true));
        working := working.(approvals := working.approvals[id := row.value]);
      }
    }

    /** The bulk update: it returns every stale row once and flips exactly those. */
    method ExpireStaleApprovals(now: int) returns (ids: seq<nat>)
      modifies this
      ensures committed == old(committed) && resumes == old(resumes) && working.audit == old(working.audit)
      ensures working.approvals == ExpireAll(old(working.approvals), StaleIds(old(working.approvals), now))
      ensures Elements(ids) == StaleIds(old(working.approvals), now)
      ensures forall j, k :: 0 <= j < k < |ids| ==> ids[j] != ids[k]
    {
      var stale := StaleIds(working.approvals, now);
      ids := [];
      var rest := stale;
      while rest != {}
        invariant unchanged(this) && rest <= stale
        invariant Elements(ids) == stale - rest
        invariant forall j, k :: 0 <= j < k < |ids| ==> ids[j] != ids[k]
        decreases rest
      {
        var id :| id in rest;
        assert id !in Elements(ids);
        ElementsAppend(ids, id);
        ids, rest := ids + [id], rest - {id};
      }
      working := working.(approvals := ExpireAll(working.approvals, stale));
    }

    /** One insert into the log; the CHECK constraint turns a bad decision into an exception. */
    method InsertAuditLog(row: AuditRow) returns (ok: bool)
      modifies this
      ensures committed == old(committed) && resumes == old(resumes)
      ensures ok <==> Accepted(row.decision)
      ensures working == if ok then old(working).(audit := old(working).audit + [row]) else old(working)
    {
      ok := Accepted(row.decision);
      if ok {
        working := working.(audit := working.audit + [row]);
      }
    }

    /** The approve endpoint; `interim` is what other sessions have committed by the time of its update. */
    method ApproveHitl(id: nat, user: nat, decision: string, ip: Option<string>, interim: Tables)
        returns (outcome: Outcome)
      requires working == committed
      modifies this
      ensures working == committed
      ensures outcome in {Missing410, Gone410} ==> committed == old(committed)
      ensures outcome !in {Missing410, Gone410}
          ==> committed == ApproveAfter(old(committed), interim, id, user, decision, ip).0
      ensures outcome == ApproveAfter(old(committed), interim, id, user, decision, ip).1
      ensures outcome == Ok200 ==> resumes == old(resumes) + [(interim.approvals[id].thread, decision)]
      ensures outcome != Ok200 ==> resumes == old(resumes)
    {
      var existing := GetApproval(id);
      if existing.None? {
        Rollback();
        return Missing410;
      }
      if existing.value.used || existing.value.expired {
        Rollback();
        return Gone410;
      }
      committed, working := interim, interim;
      var consumed := ConsumeApproval(id);
      if consumed.None? {
        Rollback();
        return Conflict409;
      }
      var ok := InsertAuditLog(DecisionRow(id, consumed.value, user, decision, ip));
      if !ok {
        Rollback();
        return Failed(false);
      }
      resumes := resumes + [(consumed.value.thread, decision)];
      Commit();
      return Ok200;
    }

    /** One pass of the timeout sweeper, run alone: no overdue approval stays open, each logs one timeout. */
    method SweepOnce(now: int)
      requires working == committed && AuditConserved(committed)
      modifies this
      ensures working == committed && AuditConserved(committed) && resumes == old(resumes)
      ensures committed.approvals == ExpireAll(old(committed.approvals), StaleIds(old(committed.approvals), now))
      ensures StaleIds(committed.approvals, now) == {}
      ensures old(committed.audit) <= committed.audit
      ensures |committed.audit| == |old(committed.audit)| + |StaleIds(old(committed.approvals), now)|
    {
      var ids := ExpireStaleApprovals(now);
      ghost var before := old(committed);
      forall k | 0 <= k < |ids|
        ensures ids[k] in before.approvals && before.approvals[ids[k]].Open()
      {
        assert ids[k] in Elements(ids);
      }
      for i := 0 to |ids|
        invariant committed == before && resumes == old(resumes)
        invariant working.approvals == ExpireAll(before.approvals, StaleIds(before.approvals, now))
        invariant working.audit == before.audit + TimeoutRows(before.approvals, ids[..i])
      {
        var ok := InsertAuditLog(TimeoutRow(ids[i], working.approvals[ids[i]]));
        assert TimeoutRows(before.approvals, ids[..i + 1])
            == TimeoutRows(before.approvals, ids[..i]) + [TimeoutRow(ids[i], before.approvals[ids[i]])];
      }
      assert ids[..|ids|] == ids;
      SweepConserves(before, now, ids);
      DistinctCount(ids);
      Commit();
    }
  }
}
