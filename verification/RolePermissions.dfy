/**
  Changing a role's permissions. Additions apply at once; removals stay in the matrix behind a
  staged-deny head until a sweep has moved head and job through their states and overwrites the row.
  Each transaction is one atomic step; a sweep acts on decisions it may have taken on stale reads.
 */
module RolePermissions {
  import opened Wrappers

  datatype Role = Staff | Manager | Admin

  datatype StagingState = Draining | Verifying | Converged | Completed

  datatype Head = Head(state: StagingState, changeId: string, denied: seq<string>, targetRow: seq<string>,
                       stagedAtMs: int)

  datatype Job = Job(role: Role, changeId: string, state: StagingState, targetRow: seq<string>, startedAtMs: int)

  datatype Store = Store(matrix: map<Role, seq<string>>, heads: map<Role, Head>, jobs: map<string, Job>)

  predicate IsActive(state: StagingState) {
    state != Completed
  }

  // --- set arithmetic on rows ---------------------------------------------------------------

  ghost function Elements(row: seq<string>): set<string> {
    set p | p in row
  }

  function Without(row: seq<string>, other: seq<string>): (r: seq<string>)
    ensures forall p :: p in r <==> p in row && p !in other
  {
    if row == [] then []
    else (if row[0] in other then [] else [row[0]]) + Without(row[1..], other)
  }

  function Distinct(row: seq<string>): (r: seq<string>)
    ensures forall p :: p in r <==> p in row
    ensures forall i, j :: 0 <= i < j < |r| ==> r[i] != r[j]
  {
    if row == [] then []
    else
      var n := |row| - 1;
      var front := Distinct(row[..n]);
      assert row == row[..n] + [row[n]];
      if row[n] in front then front else front + [row[n]]
  }

  predicate IsBlank(p: string) {
    forall i :: 0 <= i < |p| ==> p[i] in " \t\n\r"
  }

  predicate ValidRow(row: seq<string>) {
    && (forall i :: 0 <= i < |row| ==> !IsBlank(row[i]))
    && (forall i, j :: 0 <= i < j < |row| ==> row[i] != row[j])
  }

  datatype Change = Change(current: seq<string>, next: seq<string>, added: seq<string>, removed: seq<string>)

  function ComputeChange(current: seq<string>, next: seq<string>): Change {
    Change(current, next, Without(next, current), Without(current, next))
  }

  function InterimRow(change: Change): seq<string> {
    Distinct(change.current + change.added)
  }

  /** The interim row with the removals denied is the requested row. */
  lemma InterimMinusRemovedIsNext(current: seq<string>, next: seq<string>)
    ensures var change := ComputeChange(current, next);
            && Elements(InterimRow(change)) - Elements(change.removed) == Elements(next)
            && (change.removed == [] ==> Elements(InterimRow(change)) == Elements(next))
  {
  }

  // --- what a snapshot grants ---------------------------------------------------------------

  datatype Reason = RoleKeyAbsent | RoleRowEmpty | PermissionAbsent | StagedDenyActive | Granted

  function StagedDenyReader(head: Option<Head>, expectedChangeId: string): seq<string> {
    if head.None? then []
    else if head.value.changeId != expectedChangeId then []
    else if !IsActive(head.value.state) then []
    else head.value.denied
  }

  function HeadOf(s: Store, role: Role): Option<Head> {
    if role in s.heads then Some(s.heads[role]) else None
  }

  function DecideLivePermission(s: Store, role: Role, permission: string): Reason {
    if role !in s.matrix then RoleKeyAbsent
    else if s.matrix[role] == [] then RoleRowEmpty
    else if permission !in s.matrix[role] then PermissionAbsent
    else
      var head := HeadOf(s, role);
      if head.Some? && permission in StagedDenyReader(head, head.value.changeId) then StagedDenyActive
      else Granted
  }

  /** The reasons on the documents' own fields: an unfinished head denies what it lists, and nothing else. */
  lemma ReasonMeaning(s: Store, role: Role, permission: string)
    ensures DecideLivePermission(s, role, permission) == RoleKeyAbsent <==> role !in s.matrix
    ensures DecideLivePermission(s, role, permission) == RoleRowEmpty <==> role in s.matrix && |s.matrix[role]| == 0
    ensures DecideLivePermission(s, role, permission) == PermissionAbsent <==>
            role in s.matrix && |s.matrix[role]| > 0 && permission !in s.matrix[role]
    ensures DecideLivePermission(s, role, permission) == StagedDenyActive <==>
            && role in s.matrix && permission in s.matrix[role]
            && role in s.heads && s.heads[role].state != Completed && permission in s.heads[role].denied
  {
  }

  // --- the transactions, as values ----------------------------------------------------------

  datatype Response = NotAuthorized | InvalidShape | StagingAlreadyActive | Accepted(staged: Option<string>)

  datatype SetRequest = SetRequest(authorized: bool, role: Role, row: seq<string>, changeId: string, jobId: string,
                                   nowMs: int)

  function RowOf(s: Store, role: Role): seq<string> {
    if role in s.matrix then s.matrix[role] else []
  }

  predicate RoundActive(s: Store, role: Role) {
    role in s.heads && IsActive(s.heads[role].state)
  }

  function Respond(s: Store, r: SetRequest): Response {
    if !r.authorized then NotAuthorized
    else if !ValidRow(r.row) then InvalidShape
    else if RoundActive(s, r.role) then StagingAlreadyActive
    else if ComputeChange(RowOf(s, r.role), r.row).removed == [] then Accepted(None)
    else Accepted(Some(r.changeId))
  }

  function AfterSet(s: Store, r: SetRequest): Store {
    var response := Respond(s, r);
    if !response.Accepted? then s
    else
      var change := ComputeChange(RowOf(s, r.role), r.row);
      var next := s.(matrix := s.matrix[r.role := InterimRow(change)]);
      if response.staged.None? then next
      else next.(heads := s.heads[r.role := Head(Draining, r.changeId, change.removed, r.row, r.nowMs)],
                 jobs := s.jobs[r.jobId := Job(r.role, r.changeId, Draining, r.row, r.nowMs)])
  }

  datatype Advancement = AlreadyCompleted | HeadMissing | ChangeIdMismatch | Advance(next: StagingState) | Finalize

  function DecideSweep(job: Job, head: Option<Head>): Advancement {
    if job.state == Completed then AlreadyCompleted
    else if head.None? then HeadMissing
    else if head.value.changeId != job.changeId then ChangeIdMismatch
    else if job.state == Draining then Advance(Verifying)
    else if job.state == Verifying then Advance(Converged)
    else Finalize
  }

  /** A sweep moves only an unfinished job whose role's head is of the same round, one state at a time. */
  lemma SweepMeaning(job: Job, head: Option<Head>)
    ensures DecideSweep(job, head) == AlreadyCompleted <==> job.state == Completed
    ensures DecideSweep(job, head) == HeadMissing <==> job.state != Completed && head == None
    ensures DecideSweep(job, head) == ChangeIdMismatch <==>
            job.state != Completed && head != None && head.value.changeId != job.changeId
    ensures var same := head != None && head.value.changeId == job.changeId;
            && (DecideSweep(job, head) == Advance(Verifying) <==> same && job.state == Draining)
            && (DecideSweep(job, head) == Advance(Converged) <==> same && job.state == Verifying)
            && (DecideSweep(job, head) == Finalize <==> same && job.state == Converged)
  {
  }

  /** Moves job and head together. */
  function Move(s: Store, jobId: string, state: StagingState): Store
    requires jobId in s.jobs && s.jobs[jobId].role in s.heads
  {
    var role := s.jobs[jobId].role;
    s.(jobs := s.jobs[jobId := s.jobs[jobId].(state := state)],
       heads := s.heads[role := s.heads[role].(state := state)])
  }

  function FreshDecision(s: Store, jobId: string): Option<Advancement> {
    if jobId !in s.jobs || s.jobs[jobId].role !in s.heads then None
    else Some(DecideSweep(s.jobs[jobId], HeadOf(s, s.jobs[jobId].role)))
  }

  function AfterAdvance(s: Store, jobId: string): Store {
    var d := FreshDecision(s, jobId);
    if d.None? || !d.value.Advance? then s else Move(s, jobId, d.value.next)
  }

  function AfterFinalize(s: Store, jobId: string): Store {
    var d := FreshDecision(s, jobId);
    if d.None? || !d.value.Finalize? then s
    else
      var job := s.jobs[jobId];
      Move(s, jobId, Completed).(matrix := s.matrix[job.role := job.targetRow])
  }

  // --- what every run keeps -----------------------------------------------------------------

  datatype Step = Set(request: SetRequest) | AdvanceTx(jobId: string) | FinalizeTx(jobId: string)

  function After(s: Store, step: Step): Store {
    match step
    case Set(r) => AfterSet(s, r)
    case AdvanceTx(jobId) => AfterAdvance(s, jobId)
    case FinalizeTx(jobId) => AfterFinalize(s, jobId)
  }

  type Rows = map<Role, seq<string>>

  /** The row last accepted for each role. */
  function AcceptedAfter(s: Store, accepted: Rows, step: Step): Rows {
    if step.Set? && Respond(s, step.request).Accepted?
      then accepted[step.request.role := step.request.row] else accepted
  }

  function Run(s: Store, steps: seq<Step>): Store {
    if steps == [] then s else After(Run(s, steps[..|steps| - 1]), steps[|steps| - 1])
  }

  /** The rows last accepted after a run that began with `accepted` in force. */
  function AcceptedFrom(s: Store, accepted: Rows, steps: seq<Step>): Rows {
    if steps == [] then accepted
    else
      var front := steps[..|steps| - 1];
      AcceptedAfter(Run(s, front), AcceptedFrom(s, accepted, front), steps[|steps| - 1])
  }

  function AcceptedRows(s: Store, steps: seq<Step>): Rows {
    AcceptedFrom(s, s.matrix, steps)
  }

  /** Job ids are random; a staged round never reuses one. */
  ghost predicate FreshIds(s: Store, steps: seq<Step>) {
    forall i :: 0 <= i < |steps| && steps[i].Set? ==> steps[i].request.jobId !in Run(s, steps[..i]).jobs
  }

  ghost predicate ActiveJob(s: Store, jobId: string, role: Role) {
    jobId in s.jobs && IsActive(s.jobs[jobId].state) && s.jobs[jobId].role == role
  }

  /** An active job and its head agree, and every active head has exactly one active job. */
  ghost predicate InLockstep(s: Store) {
    && (forall j :: j in s.jobs && IsActive(s.jobs[j].state) ==>
          && s.jobs[j].role in s.heads
          && s.heads[s.jobs[j].role].state == s.jobs[j].state
          && s.heads[s.jobs[j].role].changeId == s.jobs[j].changeId
          && s.heads[s.jobs[j].role].targetRow == s.jobs[j].targetRow)
    && (forall role, j, k :: ActiveJob(s, j, role) && ActiveJob(s, k, role) ==> j == k)
    && (forall role :: RoundActive(s, role) ==> exists j :: ActiveJob(s, j, role))
  }

  /** The permissions a role has, by what each snapshot grants. */
  ghost function Effective(s: Store, role: Role): set<string> {
    Elements(RowOf(s, role)) - (if RoundActive(s, role) then Elements(s.heads[role].denied) else {})
  }

  ghost predicate RowAgrees(s: Store, accepted: Rows, role: Role) {
    && Effective(s, role) == Elements(if role in accepted then accepted[role] else [])
    && (RoundActive(s, role) ==> Elements(s.heads[role].targetRow) == Effective(s, role))
  }

  ghost predicate RowsAgree(s: Store, accepted: Rows) {
    forall role: Role :: RowAgrees(s, accepted, role)
  }

  lemma DecisionIsEffective(s: Store, role: Role, permission: string)
    ensures DecideLivePermission(s, role, permission) == Granted <==> permission in Effective(s, role)
  {
  }

  lemma SetKeepsLockstep(s: Store, r: SetRequest)
    requires InLockstep(s) && r.jobId !in s.jobs
    ensures InLockstep(AfterSet(s, r))
  {
    var t := AfterSet(s, r);
    if Respond(s, r).Accepted? && Respond(s, r).staged.Some? {
      assert ActiveJob(t, r.jobId, r.role);
      forall j | j in s.jobs && IsActive(s.jobs[j].state) ensures s.jobs[j].role != r.role {
        assert ActiveJob(s, j, s.jobs[j].role);
      }
      forall role, j | ActiveJob(t, j, role) && j != r.jobId ensures ActiveJob(s, j, role) {
      }
      forall role | RoundActive(t, role) ensures exists j :: ActiveJob(t, j, role) {
        if role != r.role {
          assert RoundActive(s, role);
          var j :| ActiveJob(s, j, role);
          assert ActiveJob(t, j, role);
        }
      }
    } else {
      OnlyMatrixChanged(s, t);
    }
  }

  lemma OnlyMatrixChanged(s: Store, t: Store)
    requires InLockstep(s) && t.heads == s.heads && t.jobs == s.jobs
    ensures InLockstep(t)
  {
    forall role, j ensures ActiveJob(t, j, role) == ActiveJob(s, j, role) {
    }
    forall role | RoundActive(t, role) ensures exists j :: ActiveJob(t, j, role) {
      assert RoundActive(s, role);
      var j :| ActiveJob(s, j, role);
      assert ActiveJob(t, j, role);
    }
  }

  lemma SetKeepsRows(s: Store, r: SetRequest, accepted: Rows)
    requires RowsAgree(s, accepted)
    ensures RowsAgree(AfterSet(s, r), AcceptedAfter(s, accepted, Set(r)))
  {
    forall role: Role ensures RowAgrees(AfterSet(s, r), AcceptedAfter(s, accepted, Set(r)), role) {
      assert RowAgrees(s, accepted, role);
      if role == r.role {
        SetKeepsRow(s, r, accepted);
      }
    }
  }

  lemma SetKeepsRow(s: Store, r: SetRequest, accepted: Rows)
    requires RowAgrees(s, accepted, r.role)
    ensures RowAgrees(AfterSet(s, r), AcceptedAfter(s, accepted, Set(r)), r.role)
  {
    InterimMinusRemovedIsNext(RowOf(s, r.role), r.row);
  }

  lemma MoveKeepsLockstep(s: Store, jobId: string, state: StagingState)
    requires InLockstep(s) && jobId in s.jobs && IsActive(s.jobs[jobId].state)
    ensures InLockstep(Move(s, jobId, state))
  {
    var t, role := Move(s, jobId, state), s.jobs[jobId].role;
    assert ActiveJob(s, jobId, role);
    forall r, j | ActiveJob(t, j, r) ensures ActiveJob(s, j, r) {
    }
    forall j | j in t.jobs && IsActive(t.jobs[j].state) && j != jobId ensures t.jobs[j].role != role {
      assert ActiveJob(s, j, s.jobs[j].role);
    }
    forall r | RoundActive(t, r) ensures exists j :: ActiveJob(t, j, r) {
      if r == role {
        assert ActiveJob(t, jobId, role);
      } else {
        assert RoundActive(s, r);
        var j :| ActiveJob(s, j, r);
        assert ActiveJob(t, j, r);
      }
    }
  }

  lemma AdvanceKeepsRows(s: Store, jobId: string, accepted: Rows)
    requires InLockstep(s) && RowsAgree(s, accepted)
    ensures RowsAgree(AfterAdvance(s, jobId), accepted)
  {
    forall role: Role ensures RowAgrees(AfterAdvance(s, jobId), accepted, role) {
      assert RowAgrees(s, accepted, role);
    }
  }

  lemma FinalizeKeepsRows(s: Store, jobId: string, accepted: Rows)
    requires InLockstep(s) && RowsAgree(s, accepted)
    ensures RowsAgree(AfterFinalize(s, jobId), accepted)
  {
    forall role: Role ensures RowAgrees(AfterFinalize(s, jobId), accepted, role) {
      assert RowAgrees(s, accepted, role);
    }
  }

  lemma SweepKeepsRows(s: Store, jobId: string, accepted: Rows)
    requires InLockstep(s) && RowsAgree(s, accepted)
    ensures RowsAgree(AfterAdvance(s, jobId), accepted)
    ensures RowsAgree(AfterFinalize(s, jobId), accepted)
  {
    AdvanceKeepsRows(s, jobId, accepted);
    FinalizeKeepsRows(s, jobId, accepted);
  }

  lemma AdvanceKeepsLockstep(s: Store, jobId: string)
    requires InLockstep(s)
    ensures InLockstep(AfterAdvance(s, jobId))
  {
    if AfterAdvance(s, jobId) != s {
      MoveKeepsLockstep(s, jobId, FreshDecision(s, jobId).value.next);
    }
  }

  lemma FinalizeKeepsLockstep(s: Store, jobId: string)
    requires InLockstep(s)
    ensures InLockstep(AfterFinalize(s, jobId))
  {
    if AfterFinalize(s, jobId) != s {
      MoveKeepsLockstep(s, jobId, Completed);
      OnlyMatrixChanged(Move(s, jobId, Completed), AfterFinalize(s, jobId));
    }
  }

  lemma StepKeepsLockstep(s: Store, step: Step)
    requires InLockstep(s) && (step.Set? ==> step.request.jobId !in s.jobs)
    ensures InLockstep(After(s, step))
  {
    match step
    case Set(r) => SetKeepsLockstep(s, r);
    case AdvanceTx(jobId) => AdvanceKeepsLockstep(s, jobId);
    case FinalizeTx(jobId) => FinalizeKeepsLockstep(s, jobId);
  }

  lemma StepKeeps(s: Store, step: Step, accepted: Rows)
    requires InLockstep(s) && RowsAgree(s, accepted)
    requires step.Set? ==> step.request.jobId !in s.jobs
    ensures InLockstep(After(s, step))
    ensures RowsAgree(After(s, step), AcceptedAfter(s, accepted, step))
  {
    StepKeepsLockstep(s, step);
    match step
    case Set(r) => SetKeepsRows(s, r, accepted);
    case AdvanceTx(jobId) => SweepKeepsRows(s, jobId, accepted);
    case FinalizeTx(jobId) => SweepKeepsRows(s, jobId, accepted);
  }

  /** No round in flight: what is stored is what is granted. */
  ghost predicate Settled(s: Store) {
    && (forall j :: j in s.jobs ==> !IsActive(s.jobs[j].state))
    && (forall role :: role in s.heads ==> !IsActive(s.heads[role].state))
  }

  lemma FreshFront(s: Store, steps: seq<Step>)
    requires FreshIds(s, steps) && steps != []
    ensures FreshIds(s, steps[..|steps| - 1])
    ensures var last := steps[|steps| - 1];
            last.Set? ==> last.request.jobId !in Run(s, steps[..|steps| - 1]).jobs
  {
    var n := |steps| - 1;
    forall i | 0 <= i < n && steps[..n][i].Set? ensures steps[..n][i].request.jobId !in Run(s, steps[..n][..i]).jobs {
      assert steps[..n][..i] == steps[..i];
    }
  }

  lemma {:induction false} RunKeepsFrom(s: Store, accepted: Rows, steps: seq<Step>)
    requires InLockstep(s) && RowsAgree(s, accepted) && FreshIds(s, steps)
    ensures InLockstep(Run(s, steps))
    ensures RowsAgree(Run(s, steps), AcceptedFrom(s, accepted, steps))
  {
    if steps != [] {
      var n := |steps| - 1;
      FreshFront(s, steps);
      RunKeepsFrom(s, accepted, steps[..n]);
      StepKeeps(Run(s, steps[..n]), steps[n], AcceptedFrom(s, accepted, steps[..n]));
    }
  }

  lemma SettledAgrees(s: Store)
    requires Settled(s)
    ensures InLockstep(s) && RowsAgree(s, s.matrix)
  {
    forall role: Role ensures RowAgrees(s, s.matrix, role) && !RoundActive(s, role) {
    }
  }

  lemma RunKeeps(s: Store, steps: seq<Step>)
    requires Settled(s) && FreshIds(s, steps)
    ensures InLockstep(Run(s, steps))
    ensures RowsAgree(Run(s, steps), AcceptedRows(s, steps))
  {
    SettledAgrees(s);
    RunKeepsFrom(s, s.matrix, steps);
  }

  lemma GrantedByAgreement(s: Store, accepted: Rows, role: Role)
    requires RowsAgree(s, accepted)
    ensures forall p :: p in Effective(s, role) <==> role in accepted && p in accepted[role]
  {
    assert RowAgrees(s, accepted, role);
  }

  /** Over every interleaving, one snapshot grants exactly the row last accepted for the role. */
  lemma GrantsLastAccepted(s: Store, steps: seq<Step>, role: Role, permission: string)
    requires Settled(s) && FreshIds(s, steps)
    ensures DecideLivePermission(Run(s, steps), role, permission) == Granted <==>
            role in AcceptedRows(s, steps) && permission in AcceptedRows(s, steps)[role]
  {
    RunKeeps(s, steps);
    DecisionIsEffective(Run(s, steps), role, permission);
    GrantedByAgreement(Run(s, steps), AcceptedRows(s, steps), role);
  }

  // --- who may change a role -----------------------------------------------------------------

  ghost predicate HasInk(p: string) {
    exists k :: 0 <= k < |p| && p[k] != ' ' && p[k] != '\t' && p[k] != '\n' && p[k] != '\r'
  }

  lemma InkIff(p: string)
    ensures HasInk(p) <==> !IsBlank(p)
  {
    if !IsBlank(p) {
      var k :| 0 <= k < |p| && p[k] !in " \t\n\r";
      assert p[k] != ' ' && p[k] != '\t' && p[k] != '\n' && p[k] != '\r';
    }
  }

  lemma ValidRowIff(row: seq<string>)
    ensures ValidRow(row) <==>
            && (forall i :: 0 <= i < |row| ==> HasInk(row[i]))
            && (forall i, j :: 0 <= i < j < |row| ==> row[i] != row[j])
  {
    forall i | 0 <= i < |row| ensures HasInk(row[i]) <==> !IsBlank(row[i]) {
      InkIff(row[i]);
    }
  }

  /** Spelled out: an authorized caller, no blank and no repeated permission, and no round in flight. */
  lemma ChangeAcceptedIff(s: Store, r: SetRequest)
    ensures Respond(s, r).Accepted? <==>
            && r.authorized
            && (forall i :: 0 <= i < |r.row| ==> HasInk(r.row[i]))
            && (forall i, j :: 0 <= i < j < |r.row| ==> r.row[i] != r.row[j])
            && (r.role in s.heads ==> s.heads[r.role].state == Completed)
    ensures Respond(s, r) == NotAuthorized <==> !r.authorized
    ensures Respond(s, r) == Accepted(None) ==> forall p :: p in RowOf(s, r.role) ==> p in r.row
    ensures Respond(s, r).Accepted? && Respond(s, r).staged.Some? ==>
              Respond(s, r).staged.value == r.changeId && exists p :: p in RowOf(s, r.role) && p !in r.row
  {
    var removed := ComputeChange(RowOf(s, r.role), r.row).removed;
    if removed != [] {
      assert removed[0] in removed;
    }
    ValidRowIff(r.row);
  }

  /** What an accepted removal stages: head and job of one round, denying exactly what the new row drops. */
  lemma StagedDocuments(s: Store, r: SetRequest)
    requires Respond(s, r).Accepted? && Respond(s, r).staged.Some?
    ensures var t := AfterSet(s, r);
            && r.role in t.heads && r.jobId in t.jobs && r.role in t.matrix
            && t.heads[r.role].state == Draining && t.heads[r.role].changeId == r.changeId
            && t.heads[r.role].targetRow == r.row && t.heads[r.role].stagedAtMs == r.nowMs
            && (forall p :: p in t.heads[r.role].denied <==> p in RowOf(s, r.role) && p !in r.row)
            && t.jobs[r.jobId] == Job(r.role, r.changeId, Draining, r.row, r.nowMs)
            && (forall p :: p in t.matrix[r.role] <==> p in RowOf(s, r.role) || p in r.row)
  {
  }

  /** A change that is not authorized, or whose row has a blank or a repeated permission. */
  ghost predicate Improper(step: Step, role: Role) {
    step.Set? && step.request.role == role ==>
      || !step.request.authorized
      || (exists i :: 0 <= i < |step.request.row| && !HasInk(step.request.row[i]))
      || (exists i, j :: 0 <= i < j < |step.request.row| && step.request.row[i] == step.request.row[j])
  }

  lemma ImproperRefused(s: Store, step: Step, role: Role)
    requires Improper(step, role) && step.Set? && step.request.role == role
    ensures !Respond(s, step.request).Accepted?
  {
    ChangeAcceptedIff(s, step.request);
  }

  lemma {:induction false} ImproperKeepsRow(s: Store, accepted: Rows, steps: seq<Step>, role: Role)
    requires forall i :: 0 <= i < |steps| ==> Improper(steps[i], role)
    ensures role in AcceptedFrom(s, accepted, steps) <==> role in accepted
    ensures role in accepted ==> AcceptedFrom(s, accepted, steps)[role] == accepted[role]
  {
    if steps != [] {
      var n := |steps| - 1;
      ImproperKeepsRow(s, accepted, steps[..n], role);
      if steps[n].Set? && steps[n].request.role == role {
        ImproperRefused(Run(s, steps[..n]), steps[n], role);
      }
    }
  }

  /** Whatever else runs, changes of a role that are all improper leave what the role is granted as it was. */
  lemma ImproperChangesNothing(s: Store, accepted: Rows, steps: seq<Step>, role: Role, permission: string)
    requires InLockstep(s) && RowsAgree(s, accepted) && FreshIds(s, steps)
    requires forall i :: 0 <= i < |steps| ==> Improper(steps[i], role)
    ensures DecideLivePermission(Run(s, steps), role, permission) == Granted <==>
            DecideLivePermission(s, role, permission) == Granted
  {
    RunKeepsFrom(s, accepted, steps);
    ImproperKeepsRow(s, accepted, steps, role);
    DecisionIsEffective(s, role, permission);
    DecisionIsEffective(Run(s, steps), role, permission);
    GrantedByAgreement(s, accepted, role);
    GrantedByAgreement(Run(s, steps), AcceptedFrom(s, accepted, steps), role);
  }

  /** A sweep step is invisible: it changes no permission of any role. */
  lemma SweepStutters(s: Store, jobId: string, accepted: Rows, role: Role)
    requires InLockstep(s) && RowsAgree(s, accepted)
    ensures Effective(AfterAdvance(s, jobId), role) == Effective(s, role)
    ensures Effective(AfterFinalize(s, jobId), role) == Effective(s, role)
  {
    SweepKeepsRows(s, jobId, accepted);
    assert RowAgrees(s, accepted, role);
    assert RowAgrees(AfterAdvance(s, jobId), accepted, role) && RowAgrees(AfterFinalize(s, jobId), accepted, role);
  }

  // --- progress -----------------------------------------------------------------------------

  /** Transitions left before a job is complete. */
  function Remaining(state: StagingState): nat {
    match state
    case Draining => 3
    case Verifying => 2
    case Converged => 1
    case Completed => 0
  }

  /** No job is ever removed, given another round, or moved back. */
  ghost predicate JobKept(s: Store, t: Store, jobId: string) {
    jobId in s.jobs ==>
      && jobId in t.jobs
      && t.jobs[jobId] == s.jobs[jobId].(state := t.jobs[jobId].state)
      && Remaining(t.jobs[jobId].state) <= Remaining(s.jobs[jobId].state)
  }

  lemma StepKeepsJob(s: Store, step: Step, jobId: string)
    requires step.Set? ==> step.request.jobId !in s.jobs
    ensures JobKept(s, After(s, step), jobId)
  {
  }

  lemma {:induction false} RunKeepsJob(s: Store, steps: seq<Step>, jobId: string)
    requires FreshIds(s, steps)
    ensures JobKept(s, Run(s, steps), jobId)
  {
    if steps != [] {
      var n := |steps| - 1;
      FreshFront(s, steps);
      RunKeepsJob(s, steps[..n], jobId);
      StepKeepsJob(Run(s, steps[..n]), steps[n], jobId);
    }
  }

  lemma {:induction false} RunKeepsLockstep(s: Store, steps: seq<Step>)
    requires InLockstep(s) && FreshIds(s, steps)
    ensures InLockstep(Run(s, steps))
  {
    if steps != [] {
      var n := |steps| - 1;
      FreshFront(s, steps);
      RunKeepsLockstep(s, steps[..n]);
      StepKeepsLockstep(Run(s, steps[..n]), steps[n]);
    }
  }

  /** What a tick does for one listed job, from the job it listed and the head it read, both possibly stale. */
  function Visit(s: Store, jobId: string, job: Job, head: Option<Head>): Store {
    match DecideSweep(job, head)
    case Advance(_) => AfterAdvance(s, jobId)
    case Finalize => AfterFinalize(s, jobId)
    case _ => s
  }

  /** Anything may run between a tick's listing and its head read, between that and its transaction, and after it. */
  datatype Tick = Tick(beforeHead: seq<Step>, beforeTx: seq<Step>, afterTx: seq<Step>)

  /** One tick as one job sees it; a job that is not active is not listed. */
  function TickRun(s: Store, jobId: string, tick: Tick): Store
    requires jobId in s.jobs
  {
    Run(Visited(s, jobId, tick), tick.afterTx)
  }

  function Visited(s: Store, jobId: string, tick: Tick): Store
    requires jobId in s.jobs
  {
    var job := s.jobs[jobId];
    var atHead := Run(s, tick.beforeHead);
    var atTx := Run(atHead, tick.beforeTx);
    if IsActive(job.state) then Visit(atTx, jobId, job, HeadOf(atHead, job.role)) else atTx
  }

  ghost predicate FreshTick(s: Store, jobId: string, tick: Tick)
    requires jobId in s.jobs
  {
    && FreshIds(s, tick.beforeHead)
    && FreshIds(Run(s, tick.beforeHead), tick.beforeTx)
    && FreshIds(Visited(s, jobId, tick), tick.afterTx)
  }

  lemma VisitKeeps(s: Store, jobId: string, job: Job, head: Option<Head>, other: string)
    requires InLockstep(s)
    ensures InLockstep(Visit(s, jobId, job, head)) && JobKept(s, Visit(s, jobId, job, head), other)
  {
    AdvanceKeepsLockstep(s, jobId);
    FinalizeKeepsLockstep(s, jobId);
    StepKeepsJob(s, AdvanceTx(jobId), other);
    StepKeepsJob(s, FinalizeTx(jobId), other);
  }

  /** An active job matches its head, so what it needs next is what the fresh decision says. */
  lemma FreshDecisionOf(s: Store, jobId: string)
    requires InLockstep(s) && jobId in s.jobs && IsActive(s.jobs[jobId].state)
    ensures FreshDecision(s, jobId) ==
            Some(match s.jobs[jobId].state
                 case Draining => Advance(Verifying)
                 case Verifying => Advance(Converged)
                 case _ => Finalize)
    ensures HeadOf(s, s.jobs[jobId].role).Some?
    ensures HeadOf(s, s.jobs[jobId].role).value.changeId == s.jobs[jobId].changeId
  {
  }

  /** However stale its reads, by the time a visit is over the job is past the state it was listed in. */
  lemma VisitMoves(s: Store, atHead: Store, atTx: Store, jobId: string)
    requires jobId in s.jobs && IsActive(s.jobs[jobId].state)
    requires InLockstep(atHead) && InLockstep(atTx) && JobKept(s, atHead, jobId) && JobKept(atHead, atTx, jobId)
    ensures var t := Visit(atTx, jobId, s.jobs[jobId], HeadOf(atHead, s.jobs[jobId].role));
            jobId in t.jobs && Remaining(t.jobs[jobId].state) < Remaining(s.jobs[jobId].state)
  {
    if IsActive(atTx.jobs[jobId].state) {
      FreshDecisionOf(atHead, jobId);
      FreshDecisionOf(atTx, jobId);
    } else {
      VisitKeeps(atTx, jobId, s.jobs[jobId], HeadOf(atHead, s.jobs[jobId].role), jobId);
    }
  }

  /** A tick brings a listed job at least one transition nearer to completion. */
  lemma TickMoves(s: Store, jobId: string, tick: Tick)
    requires InLockstep(s) && jobId in s.jobs && FreshTick(s, jobId, tick)
    ensures var t := TickRun(s, jobId, tick);
            && InLockstep(t) && jobId in t.jobs
            && (IsActive(s.jobs[jobId].state) ==> Remaining(t.jobs[jobId].state) < Remaining(s.jobs[jobId].state))
            && (!IsActive(s.jobs[jobId].state) ==> !IsActive(t.jobs[jobId].state))
  {
    var job := s.jobs[jobId];
    var atHead := Run(s, tick.beforeHead);
    var atTx := Run(atHead, tick.beforeTx);
    RunKeepsLockstep(s, tick.beforeHead);
    RunKeepsLockstep(atHead, tick.beforeTx);
    RunKeepsJob(s, tick.beforeHead, jobId);
    RunKeepsJob(atHead, tick.beforeTx, jobId);
    if IsActive(job.state) {
      VisitMoves(s, atHead, atTx, jobId);
      VisitKeeps(atTx, jobId, job, HeadOf(atHead, job.role), jobId);
    }
    RunKeepsLockstep(Visited(s, jobId, tick), tick.afterTx);
    RunKeepsJob(Visited(s, jobId, tick), tick.afterTx, jobId);
  }

  /** Every other job is kept by a tick too. */
  lemma TickKeepsJob(s: Store, jobId: string, tick: Tick, other: string)
    requires InLockstep(s) && jobId in s.jobs && FreshTick(s, jobId, tick)
    ensures JobKept(s, TickRun(s, jobId, tick), other)
  {
    var job := s.jobs[jobId];
    var atHead := Run(s, tick.beforeHead);
    RunKeepsLockstep(s, tick.beforeHead);
    RunKeepsLockstep(atHead, tick.beforeTx);
    RunKeepsJob(s, tick.beforeHead, other);
    RunKeepsJob(atHead, tick.beforeTx, other);
    VisitKeeps(Run(atHead, tick.beforeTx), jobId, job, HeadOf(atHead, job.role), other);
    RunKeepsJob(Visited(s, jobId, tick), tick.afterTx, other);
  }

  ghost predicate FreshTicks(s: Store, jobId: string, first: Tick, second: Tick, third: Tick)
    requires InLockstep(s) && jobId in s.jobs
  {
    && FreshTick(s, jobId, first)
    && (TickMoves(s, jobId, first); FreshTick(TickRun(s, jobId, first), jobId, second))
    && (TickMoves(s, jobId, first); TickMoves(TickRun(s, jobId, first), jobId, second);
        FreshTick(TickRun(TickRun(s, jobId, first), jobId, second), jobId, third))
  }

  function ThreeTicks(s: Store, jobId: string, first: Tick, second: Tick, third: Tick): Store
    requires InLockstep(s) && jobId in s.jobs && FreshTicks(s, jobId, first, second, third)
  {
    TickMoves(s, jobId, first);
    TickMoves(TickRun(s, jobId, first), jobId, second);
    TickRun(TickRun(TickRun(s, jobId, first), jobId, second), jobId, third)
  }

  /**
    Three ticks complete every round, whatever else runs in between: other ticks, and changes to any
    role. If the role has an active round afterwards, it was staged later.
   */
  lemma ThreeTicksComplete(s: Store, jobId: string, first: Tick, second: Tick, third: Tick)
    requires InLockstep(s) && jobId in s.jobs && FreshTicks(s, jobId, first, second, third)
    ensures var role, t := s.jobs[jobId].role, ThreeTicks(s, jobId, first, second, third);
            && InLockstep(t) && jobId in t.jobs && t.jobs[jobId].state == Completed
            && (ActiveJob(s, jobId, role) && RoundActive(t, role) ==>
                  exists later :: later !in s.jobs && ActiveJob(t, later, role))
  {
    var role := s.jobs[jobId].role;
    TickMoves(s, jobId, first);
    var one := TickRun(s, jobId, first);
    TickMoves(one, jobId, second);
    var two := TickRun(one, jobId, second);
    TickMoves(two, jobId, third);
    var t := TickRun(two, jobId, third);
    if ActiveJob(s, jobId, role) && RoundActive(t, role) {
      var later :| ActiveJob(t, later, role);
      ThreeTicksKeepJob(s, jobId, first, second, third, later);
      if later in s.jobs {
        assert ActiveJob(s, later, role);
      }
    }
  }

  lemma ThreeTicksKeepJob(s: Store, jobId: string, first: Tick, second: Tick, third: Tick, later: string)
    requires InLockstep(s) && jobId in s.jobs && FreshTicks(s, jobId, first, second, third)
    ensures JobKept(s, ThreeTicks(s, jobId, first, second, third), later)
  {
    TickMoves(s, jobId, first);
    TickKeepsJob(s, jobId, first, later);
    var one := TickRun(s, jobId, first);
    TickMoves(one, jobId, second);
    TickKeepsJob(one, jobId, second, later);
    TickKeepsJob(TickRun(one, jobId, second), jobId, third, later);
  }

  // --- after a round ------------------------------------------------------------------------

  ghost predicate NoChangeOf(steps: seq<Step>, role: Role) {
    forall i :: 0 <= i < |steps| ==> !(steps[i].Set? && steps[i].request.role == role)
  }

  /** Without a change of the role, no job of the role becomes active. */
  lemma StepActivates(s: Store, step: Step, role: Role, j: string)
    requires !(step.Set? && step.request.role == role) && (step.Set? ==> step.request.jobId !in s.jobs)
    ensures ActiveJob(After(s, step), j, role) ==> ActiveJob(s, j, role)
  {
  }

  lemma {:induction false} RunActivates(s: Store, steps: seq<Step>, role: Role, j: string)
    requires NoChangeOf(steps, role) && FreshIds(s, steps)
    ensures ActiveJob(Run(s, steps), j, role) ==> ActiveJob(s, j, role)
  {
    if steps != [] {
      var n := |steps| - 1;
      FreshFront(s, steps);
      RunActivates(s, steps[..n], role, j);
      StepActivates(Run(s, steps[..n]), steps[n], role, j);
    }
  }

  ghost predicate QuietTick(tick: Tick, role: Role) {
    NoChangeOf(tick.beforeHead, role) && NoChangeOf(tick.beforeTx, role) && NoChangeOf(tick.afterTx, role)
  }

  lemma TickActivates(s: Store, jobId: string, tick: Tick, role: Role, j: string)
    requires jobId in s.jobs && FreshTick(s, jobId, tick) && QuietTick(tick, role)
    ensures ActiveJob(TickRun(s, jobId, tick), j, role) ==> ActiveJob(s, j, role)
  {
    var atHead := Run(s, tick.beforeHead);
    var atTx := Run(atHead, tick.beforeTx);
    RunActivates(s, tick.beforeHead, role, j);
    RunActivates(atHead, tick.beforeTx, role, j);
    StepActivates(atTx, AdvanceTx(jobId), role, j);
    StepActivates(atTx, FinalizeTx(jobId), role, j);
    RunActivates(Visited(s, jobId, tick), tick.afterTx, role, j);
  }

  lemma CompletionEnds(s: Store, step: Step, jobId: string, role: Role, j: string)
    requires InLockstep(s) && ActiveJob(s, jobId, role) && (step.Set? ==> step.request.jobId !in s.jobs)
    requires After(s, step).jobs[jobId].state == Completed
    ensures !ActiveJob(After(s, step), j, role)
  {
    if j in s.jobs {
      StepKeepsJob(s, step, j);
      assert ActiveJob(After(s, step), j, role) ==> ActiveJob(s, j, role);
    }
  }

  /** The step that completes a round frees its role at once: the next valid change is accepted. */
  lemma CompletionFreesRole(s: Store, step: Step, jobId: string, r: SetRequest)
    requires InLockstep(s) && ActiveJob(s, jobId, r.role) && (step.Set? ==> step.request.jobId !in s.jobs)
    requires After(s, step).jobs[jobId].state == Completed
    requires r.authorized && ValidRow(r.row)
    ensures Respond(After(s, step), r).Accepted?
  {
    StepKeepsLockstep(s, step);
    forall j ensures !ActiveJob(After(s, step), j, r.role) {
      CompletionEnds(s, step, jobId, r.role, j);
    }
  }

  /** Three ticks after a round was listed the role's next change is accepted, unless another came first. */
  lemma NextRoundAccepted(s: Store, jobId: string, first: Tick, second: Tick, third: Tick, r: SetRequest)
    requires InLockstep(s) && ActiveJob(s, jobId, r.role) && FreshTicks(s, jobId, first, second, third)
    requires QuietTick(first, r.role) && QuietTick(second, r.role) && QuietTick(third, r.role)
    requires r.authorized && ValidRow(r.row)
    ensures Respond(ThreeTicks(s, jobId, first, second, third), r).Accepted?
  {
    ThreeTicksComplete(s, jobId, first, second, third);
    TickMoves(s, jobId, first);
    var one := TickRun(s, jobId, first);
    TickMoves(one, jobId, second);
    var two := TickRun(one, jobId, second);
    if RoundActive(ThreeTicks(s, jobId, first, second, third), r.role) {
      var later :| later !in s.jobs && ActiveJob(ThreeTicks(s, jobId, first, second, third), later, r.role);
      TickActivates(two, jobId, third, r.role, later);
      TickActivates(one, jobId, second, r.role, later);
      TickActivates(s, jobId, first, r.role, later);
    }
  }

  ghost predicate StillActive(s: Store, steps: seq<Step>, role: Role) {
    forall i :: 0 <= i <= |steps| ==> RoundActive(Run(s, steps[..i]), role)
  }

  lemma StepWhileActive(s: Store, step: Step, role: Role)
    requires RoundActive(s, role) && RoundActive(After(s, step), role)
    ensures RowOf(After(s, step), role) == RowOf(s, role)
    ensures After(s, step).heads[role] == s.heads[role].(state := After(s, step).heads[role].state)
  {
  }

  /** As long as a role's round is active, whatever is requested or swept leaves its row, denials and target alone. */
  lemma {:induction false} ActiveRoundRefuses(s: Store, steps: seq<Step>, role: Role)
    requires StillActive(s, steps, role)
    ensures role in Run(s, steps).heads && role in s.heads
    ensures RowOf(Run(s, steps), role) == RowOf(s, role)
    ensures Run(s, steps).heads[role] == s.heads[role].(state := Run(s, steps).heads[role].state)
  {
    assert RoundActive(Run(s, steps[..|steps|]), role) && steps[..|steps|] == steps;
    assert RoundActive(Run(s, steps[..0]), role);
    if steps != [] {
      var n := |steps| - 1;
      forall i | 0 <= i <= n ensures RoundActive(Run(s, steps[..n][..i]), role) {
        assert steps[..n][..i] == steps[..i];
      }
      ActiveRoundRefuses(s, steps[..n], role);
      assert steps[..n][..n] == steps[..n];
      StepWhileActive(Run(s, steps[..n]), steps[n], role);
    }
  }

  /** With no round in flight the stored row is the accepted row. */
  lemma SettledRowIsAccepted(s: Store, accepted: Rows, role: Role)
    requires Settled(s) && RowsAgree(s, accepted)
    ensures Elements(RowOf(s, role)) == Elements(if role in accepted then accepted[role] else [])
  {
    assert RowAgrees(s, accepted, role);
    assert Effective(s, role) == Elements(RowOf(s, role));
  }

  // --- the documents in place ---------------------------------------------------------------

  datatype SweepResult = SweepResult(examined: nat, advanced: nat, finalized: nat, skipped: nat)

  class RoleDocs {
    var matrix: map<Role, seq<string>>
    var heads: map<Role, Head>
    var jobs: map<string, Job>

    function View(): Store
      reads this
    {
      Store(matrix, heads, jobs)
    }

    constructor (s: Store)
      ensures View() == s
    {
      matrix, heads, jobs := s.matrix, s.heads, s.jobs;
    }

    /** One transaction: refuse an active round, else write the interim row, and head and job for removals. */
    method PerformSetRolePermissions(r: SetRequest) returns (response: Response)
      modifies this
      ensures View() == AfterSet(old(View()), r)
      ensures response == Respond(old(View()), r)
    {
      if !r.authorized {
        return NotAuthorized;
      }
      if !ValidRow(r.row) {
        return InvalidShape;
      }
      var stagedChangeId: Option<string> := None;
      var current := if r.role in matrix then matrix[r.role] else [];
      var change := ComputeChange(current, r.row);
      if r.role in heads && IsActive(heads[r.role].state) {
        return StagingAlreadyActive;
      }
      if change.removed == [] {
        matrix := matrix[r.role := InterimRow(change)];
        return Accepted(stagedChangeId);
      }
      stagedChangeId := Some(r.changeId);
      heads := heads[r.role := Head(Draining, r.changeId, change.removed, r.row, r.nowMs)];
      jobs := jobs[r.jobId := Job(r.role, r.changeId, Draining, r.row, r.nowMs)];
      matrix := matrix[r.role := InterimRow(change)];
      return Accepted(stagedChangeId);
    }

    /** Decides again on fresh reads; writes only if an advance is still due. */
    method AdvanceJob(jobId: string)
      modifies this
      ensures View() == AfterAdvance(old(View()), jobId)
    {
      if jobId !in jobs || jobs[jobId].role !in heads {
        return;
      }
      var job, head := jobs[jobId], heads[jobs[jobId].role];
      var decision := DecideSweep(job, Some(head));
      if !decision.Advance? {
        return;
      }
      jobs := jobs[jobId := job.(state := decision.next)];
      heads := heads[job.role := head.(state := decision.next)];
    }

    method FinalizeJob(jobId: string)
      modifies this
      ensures View() == AfterFinalize(old(View()), jobId)
    {
      if jobId !in jobs || jobs[jobId].role !in heads {
        return;
      }
      var job, head := jobs[jobId], heads[jobs[jobId].role];
      if DecideSweep(job, Some(head)) != Finalize {
        return;
      }
      matrix := matrix[job.role := job.targetRow];
      jobs := jobs[jobId := job.(state := Completed)];
      heads := heads[job.role := head.(state := Completed)];
    }

    /** One listed job, decided on the listed job and the head read for it. */
    method VisitJob(jobId: string, job: Job, head: Option<Head>) returns (decided: Advancement)
      modifies this
      ensures View() == Visit(old(View()), jobId, job, head)
      ensures decided == DecideSweep(job, head)
    {
      decided := DecideSweep(job, head);
      match decided
      case Advance(_) => AdvanceJob(jobId);
      case Finalize => FinalizeJob(jobId);
      case _ =>
    }

    /** One tick over the jobs its query listed; each head is read when its job's turn comes. */
    method RunRoleSweepTick(listed: seq<(string, Job)>) returns (result: SweepResult)
      modifies this
      ensures View() == VisitAll(old(View()), listed)
      ensures result.examined == |listed| == result.advanced + result.finalized + result.skipped
      ensures result.advanced == Moved(old(View()), listed, {Draining, Verifying})
      ensures result.finalized == Moved(old(View()), listed, {Converged})
    {
      result := SweepResult(|listed|, 0, 0, 0);
      for i := 0 to |listed|
        invariant View() == VisitAll(old(View()), listed[..i])
        invariant result.examined == |listed| && result.advanced + result.finalized + result.skipped == i
        invariant result.advanced == Moved(old(View()), listed[..i], {Draining, Verifying})
        invariant result.finalized == Moved(old(View()), listed[..i], {Converged})
      {
        assert listed[..i + 1][..i] == listed[..i];
        SweepMeaning(listed[i].1, HeadOf(View(), listed[i].1.role));
        var (jobId, job) := listed[i];
        var head := if job.role in heads then Some(heads[job.role]) else None;
        var decided := VisitJob(jobId, job, head);
        match decided
        case Advance(_) => result := result.(advanced := result.advanced + 1);
        case Finalize => result := result.(finalized := result.finalized + 1);
        case _ => result := result.(skipped := result.skipped + 1);
      }
      assert listed[..|listed|] == listed;
    }
  }

  function VisitAll(s: Store, listed: seq<(string, Job)>): Store {
    if listed == [] then s
    else
      var (jobId, job) := listed[|listed| - 1];
      var before := VisitAll(s, listed[..|listed| - 1]);
      Visit(before, jobId, job, HeadOf(before, job.role))
  }

  ghost predicate SameRound(s: Store, job: Job) {
    job.role in s.heads && s.heads[job.role].changeId == job.changeId
  }

  /** How many of the listed jobs were listed in one of these states and met their own round's head when visited. */
  ghost function Moved(s: Store, listed: seq<(string, Job)>, states: set<StagingState>): nat {
    if listed == [] then 0
    else
      var n := |listed| - 1;
      Moved(s, listed[..n], states) +
      if listed[n].1.state in states && SameRound(VisitAll(s, listed[..n]), listed[n].1) then 1 else 0
  }
}
