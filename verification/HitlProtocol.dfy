/**
  Approve requests, the timeout sweeper, the approval gate and the retention job running at the
  same time on the shared tables (src/api/routers/sessions.py, src/api/main.py,
  src/graph/nodes/hitl_gate.py, delete_stale_conversations in conversation_repo.py).

  A state holds the committed tables and every transaction in flight.  A step is one database
  statement, one commit or one rollback.  Transactions run at READ COMMITTED: a guarded update
  takes a row only when no other transaction holds it, and evaluates its WHERE clause on the
  committed row at that moment.  SELECT ... FOR UPDATE SKIP LOCKED works on the snapshot of its
  first moment and locks the rows one by one, looking again at the row but not at other tables.
  A run is an arbitrary sequence of enabled steps.
*/
module HitlProtocol {
  import opened Prelude
  import opened HitlTables

  datatype Conversation = Conversation(lastAccessed: int, accessCount: nat, deleted: bool)

  const RETENTION := 90 * 24 * 3600
  const LOW_ACCESS := 5

  datatype Pc =
    | Start    // nothing read yet
    | SawOpen  // the pre-check read an open row
    | Holding  // the guarded update took the row
    | Logged   // the audit row is inserted, not committed
    | Launched // the resume task is created, not committed
    | Done(outcome: Outcome)

  datatype Proc =
    | Request(aid: nat, user: nat, decision: string, ip: Option<string>, pc: Pc)
      /** `seen`: approvals committed when the bulk update began; `late`: inserts in flight then and
          already overdue; `todo`: rows not reached yet; `taken`: rows flipped, in order;
          `logged`: how many of them have their audit row. */
    | Sweep(now: int, seen: set<nat>, late: set<nat>, todo: set<nat>, taken: seq<nat>, logged: nat)
      /** An approval inserted but not committed. */
    | Gate(newId: nat, row: Approval)
      /** The retention job.  `at`: the time its cutoff counts from; `seen`: approvals committed in
          the snapshot of its SELECT; `found`: rows that the snapshot selects; `left`: those not
          reached yet; of the others, `victims` are locked for deletion, `passed` were locked by
          someone else when they were reached, and `touched` were no longer stale. */
    | Purge(at: int, seen: set<nat>, found: set<nat>, left: set<nat>, victims: set<nat>, passed: set<nat>,
        touched: set<nat>)
      /** A background transaction that has committed or rolled back. */
    | Ended
  {
    /** The approval rows whose lock this transaction holds. */
    function Holds(): set<nat> {
      match this
      case Request(aid, _, _, _, pc) => if pc in {Holding, Logged, Launched} then {aid} else {}
      case Sweep(_, _, _, _, taken, _) => set id | id in taken
      case _ => {}
    }
  }

  datatype Sys = Sys(
    conversations: map<nat, Conversation>,
    tables: Tables,
    locked: set<nat>,   // conversations that a request is writing
    procs: map<nat, Proc>,
    resumes: set<nat>,  // the requests that launched a resume task
    issued: set<nat>,   // every approval id drawn so far; ids are random and never drawn twice
    clock: int)

  datatype Step =
    | Tick(to: int)
    | LockConversation(c: nat)
    | ReleaseConversation(c: nat, conv: Conversation)
    | Arrive(p: nat, id: nat, user: nat, decision: string, ip: Option<string>)
    | PreCheck(p: nat)
    | Consume(p: nat)
    | InsertAudit(p: nat)
    | Launch(p: nat)
    | CommitRequest(p: nat)
    | Abort(p: nat)
    | GateInsert(p: nat, id: nat, c: nat, owner: Option<nat>, tool: string, thread: string)
    | GateCommit(p: nat)
    | SweepStart(p: nat)
    | SweepTake(p: nat, id: nat)
    | SweepLog(p: nat)
    | SweepCommit(p: nat)
    | PurgeScan(p: nat)
    | PurgeTake(p: nat, c: nat)
    | PurgeDelete(p: nat)

  // ---- locks ---------------------------------------------------------------------------------

  /** No transaction holds the approval row. */
  ghost predicate Free(s: Sys, id: nat) {
    forall p :: p in s.procs ==> id !in s.procs[p].Holds()
  }

  /** A retention job holds the conversation row FOR UPDATE. */
  ghost predicate Purging(s: Sys, c: nat) {
    exists p :: p in s.procs && s.procs[p].Purge? && c in s.procs[p].victims
  }

  /** An in-flight approval insert holds its conversation row through the foreign key. */
  ghost predicate Inserting(s: Sys, c: nat) {
    exists p :: p in s.procs && s.procs[p].Gate? && s.procs[p].row.conversation == c
  }

  /** What SKIP LOCKED passes over. */
  ghost predicate HeldByOthers(s: Sys, c: nat) {
    c in s.locked || Purging(s, c) || Inserting(s, c)
  }

  /** The ids of in-flight inserts that are overdue at time now. */
  ghost function LateInserts(procs: map<nat, Proc>, now: int): set<nat> {
    set p | p in procs && procs[p].Gate? && procs[p].row.expiresAt < now :: procs[p].newId
  }

  ghost predicate HasOpenApproval(approvals: map<nat, Approval>, c: nat) {
    exists id :: id in approvals && approvals[id].conversation == c && approvals[id].Open()
  }

  /** The retention job's WHERE clause. */
  predicate Stale(conv: Conversation, now: int) {
    conv.lastAccessed < now - RETENTION && (conv.accessCount < LOW_ACCESS || conv.deleted)
  }

  /** The rows that the retention job's snapshot selects. */
  ghost function Selected(s: Sys): set<nat> {
    set c | c in s.conversations && Stale(s.conversations[c], s.clock) && !HasOpenApproval(s.tables.approvals, c)
  }

  /** The cascade must lock the approvals of the victims. */
  ghost predicate CascadeFree(s: Sys, victims: set<nat>) {
    forall id :: id in s.tables.approvals && s.tables.approvals[id].conversation in victims ==> Free(s, id)
  }

  /** Deleting the victims would delete an approval that an audit row still references. */
  ghost predicate DeleteBlocked(t: Tables, victims: set<nat>) {
    exists id, k :: id in t.approvals && t.approvals[id].conversation in victims
                    && 0 <= k < |t.audit| && t.audit[k].approval == id
  }

  // ---- steps ---------------------------------------------------------------------------------

  ghost predicate IsRequest(s: Sys, p: nat, pc: Pc) {
    p in s.procs && s.procs[p].Request? && s.procs[p].pc == pc
  }

  ghost predicate Enabled(s: Sys, step: Step) {
    match step
    case Tick(to) => s.clock <= to
    case LockConversation(c) => c !in s.locked && !Purging(s, c)
    case ReleaseConversation(c, _) => c in s.locked
    case Arrive(p, _, _, _, _) => p !in s.procs
    case PreCheck(p) => IsRequest(s, p, Start)
    case Consume(p) => IsRequest(s, p, SawOpen) && Free(s, s.procs[p].aid)
    case InsertAudit(p) => IsRequest(s, p, Holding)
    case Launch(p) => IsRequest(s, p, Logged)
    case CommitRequest(p) => IsRequest(s, p, Launched)
    case Abort(p) => p in s.procs && !s.procs[p].Ended? && (s.procs[p].Request? ==> !s.procs[p].pc.Done?)
    case GateInsert(p, id, c, _, _, _) =>
      p !in s.procs && id !in s.issued && c in s.conversations && !Purging(s, c)
    case GateCommit(p) => p in s.procs && s.procs[p].Gate?
    case SweepStart(p) => p !in s.procs
    case SweepTake(p, id) => p in s.procs && s.procs[p].Sweep? && id in s.procs[p].todo && Free(s, id)
    case SweepLog(p) =>
      p in s.procs && s.procs[p].Sweep? && s.procs[p].todo == {} && s.procs[p].logged < |s.procs[p].taken|
    case SweepCommit(p) =>
      p in s.procs && s.procs[p].Sweep? && s.procs[p].todo == {} && s.procs[p].logged == |s.procs[p].taken|
    case PurgeScan(p) => p !in s.procs
    case PurgeTake(p, c) => p in s.procs && s.procs[p].Purge? && c in s.procs[p].left
    case PurgeDelete(p) =>
      p in s.procs && s.procs[p].Purge? && s.procs[p].left == {} && CascadeFree(s, s.procs[p].victims)
  }

  ghost function Aborted(proc: Proc): Proc {
    if proc.Request? then proc.(pc := Done(Failed(proc.pc == Launched))) else Ended
  }

  /** The pre-check: a plain read of the committed row. */
  function PreChecked(approvals: map<nat, Approval>, id: nat): Pc {
    if id !in approvals then Done(Missing410)
    else if !approvals[id].Open() then Done(Gone410)
    else SawOpen
  }

  ghost function Next(s: Sys, step: Step): Sys
    requires Enabled(s, step)
  {
    var t := s.tables;
    match step
    case Tick(to) => s.(clock := to)
    case LockConversation(c) => s.(locked := s.locked + {c})
    case ReleaseConversation(c, conv) => s.(locked := s.locked - {c}, conversations := s.conversations[c := conv])
    case Arrive(p, id, user, decision, ip) =>
      s.(procs := s.procs[p := Request(id, user, decision, ip, Start)])
    case PreCheck(p) =>
      s.(procs := s.procs[p := s.procs[p].(pc := PreChecked(t.approvals, s.procs[p].aid))])
    case Consume(p) =>
      var id := s.procs[p].aid;
      var taken := id in t.approvals && t.approvals[id].Open();
      s.(procs := s.procs[p := s.procs[p].(pc := if taken then Holding else Done(Conflict409))])
    case InsertAudit(p) =>
      var ok := Accepted(s.procs[p].decision);
      s.(procs := s.procs[p := s.procs[p].(pc := if ok then Logged else Done(Failed(false)))])
    case Launch(p) =>
      s.(procs := s.procs[p := s.procs[p].(pc := Launched)], resumes := s.resumes + {p})
    case CommitRequest(p) =>
      var r := s.procs[p];
      s.(procs := s.procs[p := r.(pc := Done(Ok200))],
         tables := Approve(t, r.aid, r.user, r.decision, r.ip).0)
    case Abort(p) => s.(procs := s.procs[p := Aborted(s.procs[p])])
    case GateInsert(p, id, c, owner, tool, thread) =>
      s.(procs := s.procs[p := Gate(id, NewApproval(c, owner, tool, thread, s.clock))], issued := s.issued + {id})
    case GateCommit(p) =>
      s.(procs := s.procs[p := Ended],
         tables := t.(approvals := t.approvals[s.procs[p].newId := s.procs[p].row]))
    case SweepStart(p) =>
      var late := LateInserts(s.procs, s.clock);
      s.(procs := s.procs[p := Sweep(s.clock, t.approvals.Keys, late, StaleIds(t.approvals, s.clock), [], 0)])
    case SweepTake(p, id) =>
      var w := s.procs[p];
      var still := id in t.approvals && t.approvals[id].Open();
      s.(procs := s.procs[p := w.(todo := w.todo - {id}, taken := if still then w.taken + [id] else w.taken)])
    case SweepLog(p) =>
      s.(procs := s.procs[p := s.procs[p].(logged := s.procs[p].logged + 1)])
    case SweepCommit(p) =>
      var taken := s.procs[p].taken;
      var known := forall k :: 0 <= k < |taken| ==> taken[k] in t.approvals;
      s.(procs := s.procs[p := Ended],
         tables := if known then SweepTables(t, taken) else t)
    case PurgeScan(p) => s.(procs := s.procs[p := Scanned(s)])
    case PurgeTake(p, c) => s.(procs := s.procs[p := Taken(s, s.procs[p], c)])
    case PurgeDelete(p) =>
      var victims := s.procs[p].victims;
      var s' := s.(procs := s.procs[p := Ended]);
      if DeleteBlocked(t, victims) then s'  // the foreign key aborts the whole transaction
      else s'.(conversations := s.conversations - victims, tables := t.(approvals := Spared(t.approvals, victims)))
  }

  /** A retention job with the snapshot of its SELECT. */
  ghost function Scanned(s: Sys): Proc {
    Purge(s.clock, s.tables.approvals.Keys, Selected(s), Selected(s), {}, {}, {})
  }

  /** The job reaches one of its rows: SKIP LOCKED, and a second look at the row itself. */
  ghost function Taken(s: Sys, g: Proc, c: nat): Proc
    requires g.Purge?
  {
    var rest := g.(left := g.left - {c});
    if HeldByOthers(s, c) then rest.(passed := g.passed + {c})
    else if c in s.conversations && Stale(s.conversations[c], g.at) then rest.(victims := g.victims + {c})
    else rest.(touched := g.touched + {c})
  }

  /** The approvals that deleting the victims leaves. */
  function Spared(approvals: map<nat, Approval>, victims: set<nat>): map<nat, Approval> {
    map id | id in approvals && approvals[id].conversation !in victims :: approvals[id]
  }

  function SweepTables(t: Tables, taken: seq<nat>): Tables
    requires forall k :: 0 <= k < |taken| ==> taken[k] in t.approvals
  {
    Tables(ExpireAll(t.approvals, set id | id in taken), t.audit + TimeoutRows(t.approvals, taken))
  }

  /** Every step of the sequence is enabled where it is taken. */
  ghost predicate Runs(s: Sys, steps: seq<Step>)
    decreases |steps|
  {
    steps == [] || (Enabled(s, steps[0]) && Runs(Next(s, steps[0]), steps[1..]))
  }

  ghost function After(s: Sys, steps: seq<Step>): Sys
    requires Runs(s, steps)
    decreases |steps|
  {
    if steps == [] then s else After(Next(s, steps[0]), steps[1..])
  }

  /** Any conversations, but no approvals, log rows or transactions yet. */
  ghost predicate Initial(s: Sys) {
    s.tables == Tables(map[], []) && s.locked == {} && s.procs == map[] && s.resumes == {} && s.issued == {}
  }

  // ---- the invariant -------------------------------------------------------------------------

  ghost predicate OpenRow(approvals: map<nat, Approval>, id: nat) {
    id in approvals && approvals[id].Open()
  }

  ghost predicate SweepOk(approvals: map<nat, Approval>, clock: int, w: Proc)
    requires w.Sweep?
  {
    && w.now <= clock
    && w.logged <= |w.taken|
    && w.todo <= w.seen
    && w.late !! w.seen
    && (forall id :: id in w.late && id in approvals ==> approvals[id].expiresAt < w.now)
    && (forall k :: 0 <= k < |w.taken|
          ==> w.taken[k] in w.seen && w.taken[k] !in w.todo && OpenRow(approvals, w.taken[k]))
    && (forall j, k :: 0 <= j < k < |w.taken| ==> w.taken[j] != w.taken[k])
       // what was there when the sweep began is handled, or still to be reached
    && (forall id :: id in w.seen && id in approvals
          ==> id in w.todo || id in w.taken || !approvals[id].Open() || w.now <= approvals[id].expiresAt)
       // what was committed since is not overdue, unless it was already overdue in flight
    && (forall id :: id in approvals && id !in w.seen ==> id in w.late || w.now <= approvals[id].expiresAt)
  }

  /** A victim is locked and stale, and in a selected row no approval of the snapshot is open. */
  ghost predicate PurgeOk(approvals: map<nat, Approval>, conversations: map<nat, Conversation>, g: Proc)
    requires g.Purge?
  {
    && g.found == g.left + g.victims + g.passed + g.touched
    && g.left !! g.victims !! g.passed !! g.touched
    && (forall c :: c in g.victims ==> c in conversations && Stale(conversations[c], g.at))
    && (forall id :: id in approvals && id in g.seen && approvals[id].conversation in g.left + g.victims
          ==> !approvals[id].Open())
  }

  ghost predicate ProcOk(approvals: map<nat, Approval>, conversations: map<nat, Conversation>, clock: int, proc: Proc) {
    match proc
    case Request(aid, _, decision, _, pc) =>
      && (pc in {Holding, Logged, Launched} ==> OpenRow(approvals, aid))
      && (pc in {Logged, Launched} ==> Accepted(decision))
      && (pc in {Done(Ok200)} ==> aid in approvals && approvals[aid].used)
      && (pc in {Done(Conflict409), Done(Gone410)} ==> aid !in approvals || !approvals[aid].Open())
    case Sweep(_, _, _, _, _, _) => SweepOk(approvals, clock, proc)
    case Gate(newId, row) =>
      newId !in approvals && row.Open() && row.conversation in conversations
          && row.expiresAt <= clock + APPROVAL_LIFETIME
    case Purge(_, _, _, _, _, _, _) => PurgeOk(approvals, conversations, proc)
    case Ended => true
  }

  /** The approval ids whose committed row this transaction has seen, or that it has inserted. */
  function Met(proc: Proc): set<nat> {
    match proc
    case Request(aid, _, _, _, pc) =>
      if pc == SawOpen || pc in {Holding, Logged, Launched} || pc in {Done(Ok200), Done(Conflict409), Done(Gone410)}
          then {aid} else {}
    case Sweep(_, seen, late, _, _, _) => seen + late
    case Gate(newId, _) => {newId}
    case Purge(_, seen, _, _, _, _, _) => seen
    case Ended => {}
  }

  /** A request that holds the row or has committed it. */
  predicate Wins(proc: Proc, id: nat) {
    proc.Request? && proc.aid == id && proc.pc in {Holding, Logged, Launched, Done(Ok200)}
  }

  /** Two transactions in flight do not step on each other. */
  ghost predicate Compatible(p: Proc, q: Proc) {
    && p.Holds() !! q.Holds()
    && (p.Request? && q.Request? && p.aid == q.aid ==> !(p.pc == Done(Ok200) && q.pc == Done(Ok200)))
    && (p.Gate? && q.Purge? ==> p.row.conversation !in q.victims)
    && (p.Purge? && q.Purge? ==> p.victims !! q.victims)
    && (q.Gate? && !p.Sweep? ==> q.newId !in Met(p))
    && (q.Gate? && p.Sweep? ==> q.newId !in p.seen && (q.newId in p.late <==> q.row.expiresAt < p.now))
  }

  ghost predicate ProcsOk(s: Sys) {
    forall p :: p in s.procs ==> ProcOk(s.tables.approvals, s.conversations, s.clock, s.procs[p])
  }

  ghost predicate PairsOk(s: Sys) {
    forall p, q :: p in s.procs && q in s.procs && p != q ==> Compatible(s.procs[p], s.procs[q])
  }

  ghost predicate LaunchedBy(proc: Proc) {
    proc.Request? && proc.pc in {Launched, Done(Ok200), Done(Failed(true))}
  }

  /** A resume task exists exactly for the requests that got that far. */
  ghost predicate ResumesOk(s: Sys) {
    forall p :: p in s.resumes <==> p in s.procs && LaunchedBy(s.procs[p])
  }

  ghost predicate UsedByRequest(s: Sys) {
    forall id :: id in s.tables.approvals && s.tables.approvals[id].used
      ==> exists p :: p in s.procs && Wins(s.procs[p], id) && s.procs[p].pc == Done(Ok200)
  }

  /** Every id in use was drawn. */
  ghost predicate IdsOk(s: Sys) {
    s.tables.approvals.Keys <= s.issued && forall p :: p in s.procs ==> Met(s.procs[p]) <= s.issued
  }

  /** No row is locked for deletion and for writing at once. */
  ghost predicate LocksOk(s: Sys) {
    forall p :: p in s.procs && s.procs[p].Purge? ==> s.procs[p].victims !! s.locked
  }

  ghost predicate Inv(s: Sys) {
    AuditConserved(s.tables) && ProcsOk(s) && PairsOk(s) && ResumesOk(s) && UsedByRequest(s) && IdsOk(s) && LocksOk(s)
  }
}
