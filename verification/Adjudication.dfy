/**
  The durable record of one offline-void adjudication. Relays carrying attested bytes run
  concurrently and may crash between any two transactions; each transaction is one atomic step.
 */
module Adjudication {
  import opened Wrappers
  import opened Arithmetic

  const IDENTIFIER_MAX_BYTES := 1500
  const MAX_SAFE_INTEGER := 9007199254740991
  const PENDING_EXECUTION_72H_MS := 259200000

  datatype RejectionReason =
    | DayBoundaryExpired
    | AttestedExpiryExceedsAuthority
    | PendingExpired72h
    | OtherCheck(code: nat)

  datatype ManualReason = CorrelationMissing | CorrelationConflict | ExecutionUnresolved

  datatype OutcomeKind = VoidApplied | VoidTombstoned | Noop

  datatype State = TerminallyRejected | ConsumedPendingExecution | Done | ManualAttention

  datatype Verdict = AcceptedVerdict | RejectedVerdict | ManualVerdict

  /** Every immutable field but the record's own key; equal bytes give equal bindings. */
  datatype Binding = Binding(
    attestationDigest: string,
    branchId: string,
    initiatingStaffId: string,
    approvingManagerStaffId: string,
    otherFields: seq<string>,
    trustedApprovalLowerMs: int,
    trustedApprovalUpperMs: int)

  datatype Record = Record(
    binding: Binding,
    state: State,
    serverPendingExpiryMs: int,
    executionId: Option<string>,
    verdict: Option<Verdict>,
    rejection: Option<RejectionReason>,
    manual: Option<ManualReason>,
    outcome: Option<OutcomeKind>,
    firstSeenAt: int,
    consumedAt: Option<int>,
    terminalizedAt: Option<int>,
    completedAt: Option<int>,
    firstRelay: string,
    completingRelay: Option<string>)

  // --- the strict parser -----------------------------------------------------------------

  predicate IsCanonicalId(id: string) {
    && 1 <= |id| <= IDENTIFIER_MAX_BYTES
    && (forall i :: 0 <= i < |id| ==>
          'a' <= id[i] <= 'z' || 'A' <= id[i] <= 'Z' || '0' <= id[i] <= '9' || id[i] == '_' || id[i] == '-')
  }

  predicate IsTimestamp(ms: int) {
    1 <= ms <= MAX_SAFE_INTEGER
  }

  predicate OptionalTimestamp(ms: Option<int>) {
    ms.None? || IsTimestamp(ms.value)
  }

  /** Fields a frame's structural check has already established. */
  predicate ValidBinding(b: Binding) {
    && IsCanonicalId(b.branchId) && b.branchId != "ALL"
    && IsCanonicalId(b.initiatingStaffId) && IsCanonicalId(b.approvingManagerStaffId)
    && b.initiatingStaffId != b.approvingManagerStaffId
    && IsTimestamp(b.trustedApprovalLowerMs) && IsTimestamp(b.trustedApprovalUpperMs)
    && b.trustedApprovalLowerMs <= b.trustedApprovalUpperMs
  }

  predicate CommonFields(r: Record) {
    && ValidBinding(r.binding)
    && IsTimestamp(r.serverPendingExpiryMs) && r.serverPendingExpiryMs > r.binding.trustedApprovalLowerMs
    && IsTimestamp(r.firstSeenAt)
    && OptionalTimestamp(r.consumedAt) && OptionalTimestamp(r.terminalizedAt) && OptionalTimestamp(r.completedAt)
    && IsCanonicalId(r.firstRelay)
    && (r.completingRelay.None? || IsCanonicalId(r.completingRelay.value))
  }

  /** Exactly the fields each state requires, and none it forbids. */
  predicate StateShape(r: Record) {
    match r.state
    case TerminallyRejected =>
      && r.verdict == Some(RejectedVerdict) && r.rejection.Some? && r.manual.None? && r.outcome.None?
      && r.executionId.None? && r.consumedAt.None? && r.terminalizedAt == Some(r.firstSeenAt)
      && r.completedAt.None? && r.completingRelay.None?
    case ConsumedPendingExecution =>
      && r.verdict.None? && r.rejection.None? && r.manual.None? && r.outcome.None?
      && r.executionId.Some? && r.consumedAt == Some(r.firstSeenAt) && r.terminalizedAt.None?
      && r.completedAt.None? && r.completingRelay.None?
    case Done =>
      && r.verdict == Some(AcceptedVerdict) && r.rejection.None? && r.manual.None? && r.outcome.Some?
      && r.executionId.Some? && r.consumedAt == Some(r.firstSeenAt) && r.terminalizedAt.None?
      && r.completedAt.Some? && r.completingRelay.Some? && r.completedAt.value >= r.firstSeenAt
    case ManualAttention =>
      && r.verdict == Some(ManualVerdict) && r.rejection.None? && r.manual.Some? && r.outcome.None?
      && r.executionId.Some? && r.consumedAt == Some(r.firstSeenAt) && r.terminalizedAt.None?
      && r.completedAt.Some? && r.completingRelay.Some? && r.completedAt.value >= r.firstSeenAt
  }

  predicate Readable(r: Record) {
    CommonFields(r) && StateShape(r)
  }

  // --- relays and their transactions -------------------------------------------------------

  /** One invocation; its clock is read once, when it starts. */
  datatype Relay = Relay(staffId: string, binding: Binding, branchEligible: bool, attestedExpiryMs: int, now: int)

  datatype Response =
    | Rejected(rejection: RejectionReason, at: int)
    | Accepted(executionId: string, outcome: OutcomeKind, at: int)
    | Manual(manual: ManualReason, at: int)
    | Unreadable
    | BindingConflict
    | BranchNotPermitted

  predicate IsVerdict(r: Response) {
    r.Rejected? || r.Accepted? || r.Manual?
  }

  function RejectionRecord(relay: Relay, reason: RejectionReason, expiryMs: int): Record {
    Record(relay.binding, TerminallyRejected, expiryMs, None, Some(RejectedVerdict), Some(reason), None, None,
           relay.now, None, Some(relay.now), None, relay.staffId, None)
  }

  function ConsumedRecord(relay: Relay, executionId: string, expiryMs: int): Record {
    Record(relay.binding, ConsumedPendingExecution, expiryMs, Some(executionId), None, None, None, None,
           relay.now, Some(relay.now), None, None, relay.staffId, None)
  }

  /** A rejection record as its fields read: no execution is ever bound to it. */
  ghost predicate RejectedBy(r: Record, relay: Relay, reason: RejectionReason) {
    && r.state == TerminallyRejected && r.rejection == Some(reason) && r.verdict == Some(RejectedVerdict)
    && r.executionId == None && r.manual == None && r.outcome == None
    && r.binding == relay.binding && r.firstRelay == relay.staffId
    && r.firstSeenAt == relay.now && r.terminalizedAt == Some(relay.now)
  }

  /** A pending record as its fields read: one execution id and no verdict yet. */
  ghost predicate ConsumedBy(r: Record, relay: Relay, executionId: string) {
    && r.state == ConsumedPendingExecution && r.executionId == Some(executionId)
    && r.verdict == None && r.rejection == None && r.manual == None && r.outcome == None
    && r.binding == relay.binding && r.firstRelay == relay.staffId
    && r.firstSeenAt == relay.now && r.consumedAt == Some(relay.now)
  }

  datatype Patch = Complete(outcome: OutcomeKind) | NeedsAttention(reason: ManualReason)

  function Patched(r: Record, relay: Relay, patch: Patch): Record {
    match patch
    case Complete(outcome) =>
      r.(state := Done, verdict := Some(AcceptedVerdict), outcome := Some(outcome),
         completedAt := Some(relay.now), completingRelay := Some(relay.staffId))
    case NeedsAttention(reason) =>
      r.(state := ManualAttention, verdict := Some(ManualVerdict), manual := Some(reason),
         completedAt := Some(relay.now), completingRelay := Some(relay.staffId))
  }

  /** The completed record as its fields read: the patch's verdict, everything immutable as it was. */
  ghost predicate CompletedBy(before: Record, r: Record, relay: Relay, patch: Patch) {
    && r.completedAt == Some(relay.now) && r.completingRelay == Some(relay.staffId)
    && r.binding == before.binding && r.executionId == before.executionId && r.firstRelay == before.firstRelay
    && r.firstSeenAt == before.firstSeenAt && r.consumedAt == before.consumedAt
    && r.serverPendingExpiryMs == before.serverPendingExpiryMs
    && (patch.Complete? ==> r.state == Done && r.verdict == Some(AcceptedVerdict) && r.outcome == Some(patch.outcome))
    && (patch.NeedsAttention? ==>
          r.state == ManualAttention && r.verdict == Some(ManualVerdict) && r.manual == Some(patch.reason))
  }

  // --- phase C: what the order says -----------------------------------------------------------

  datatype Correlation = NotVoided | Matching | Missing | Different

  datatype VoidResult = Applied | Tombstoned | AlreadyReconciled | OtherResult

  /** The terminal write chosen from the order before and after the void ran. */
  function ChoosePatch(before: Correlation, result: VoidResult, after: Correlation): Patch {
    match before
    case Matching => Complete(Noop)
    case Missing => NeedsAttention(CorrelationMissing)
    case Different => NeedsAttention(CorrelationConflict)
    case NotVoided =>
      match result
      case Applied => if after == Matching then Complete(VoidApplied) else NeedsAttention(ExecutionUnresolved)
      case Tombstoned => if after == Matching then Complete(VoidTombstoned) else NeedsAttention(ExecutionUnresolved)
      case AlreadyReconciled =>
        (match after
         case Matching => Complete(Noop)
         case Missing => NeedsAttention(CorrelationMissing)
         case Different => NeedsAttention(CorrelationConflict)
         case NotVoided => NeedsAttention(ExecutionUnresolved))
      case OtherResult => NeedsAttention(ExecutionUnresolved)
  }

  /** A voided order alone never completes an adjudication: the order must carry this very execution. */
  lemma CompletionNeedsThisExecution(before: Correlation, result: VoidResult, after: Correlation)
    ensures ChoosePatch(before, result, after).Complete? <==>
            before == Matching || (before == NotVoided && after == Matching && !result.OtherResult?)
    ensures ChoosePatch(before, result, after) == Complete(VoidApplied) <==>
            before == NotVoided && result == Applied && after == Matching
    ensures ChoosePatch(before, result, after) == Complete(VoidTombstoned) <==>
            before == NotVoided && result == Tombstoned && after == Matching
  {
  }

  /** What an order that does not carry this execution leads to: the void found elsewhere, or an open question. */
  lemma AttentionNames(before: Correlation, result: VoidResult, after: Correlation)
    ensures ChoosePatch(before, result, after) == NeedsAttention(CorrelationMissing) <==>
            before == Missing || (before == NotVoided && result == AlreadyReconciled && after == Missing)
    ensures ChoosePatch(before, result, after) == NeedsAttention(CorrelationConflict) <==>
            before == Different || (before == NotVoided && result == AlreadyReconciled && after == Different)
    ensures ChoosePatch(before, result, after) == NeedsAttention(ExecutionUnresolved) <==>
            && before == NotVoided
            && (result == OtherResult || after == NotVoided || (result != AlreadyReconciled && after != Matching))
  {
  }

  // --- stage F: the server's own lifetime ------------------------------------------------------

  function ServerPendingExpiry(lowerMs: int, dayEndMs: int): int {
    Min(lowerMs + PENDING_EXECUTION_72H_MS, dayEndMs)
  }

  /** The lifetime checks made once the order's day is known. */
  function LifetimeRejection(relay: Relay, dayEndMs: int, sameDay: bool): Option<RejectionReason> {
    var expiry := ServerPendingExpiry(relay.binding.trustedApprovalLowerMs, dayEndMs);
    if !sameDay then Some(DayBoundaryExpired)
    else if relay.attestedExpiryMs > expiry then Some(AttestedExpiryExceedsAuthority)
    else if relay.now >= expiry then
      if dayEndMs <= relay.binding.trustedApprovalLowerMs + PENDING_EXECUTION_72H_MS then Some(DayBoundaryExpired)
      else Some(PendingExpired72h)
    else None
  }

  /** The frame lives only while every bound holds; both ends are exclusive for the clock. */
  lemma LifetimePasses(relay: Relay, dayEndMs: int, sameDay: bool)
    ensures var limit := relay.binding.trustedApprovalLowerMs + PENDING_EXECUTION_72H_MS;
            LifetimeRejection(relay, dayEndMs, sameDay).None? <==>
            sameDay && relay.attestedExpiryMs <= limit && relay.attestedExpiryMs <= dayEndMs &&
            relay.now < limit && relay.now < dayEndMs
    ensures var limit := relay.binding.trustedApprovalLowerMs + PENDING_EXECUTION_72H_MS;
            LifetimeRejection(relay, dayEndMs, sameDay) == Some(AttestedExpiryExceedsAuthority) <==>
            sameDay && (relay.attestedExpiryMs > limit || relay.attestedExpiryMs > dayEndMs)
    ensures var limit := relay.binding.trustedApprovalLowerMs + PENDING_EXECUTION_72H_MS;
            LifetimeRejection(relay, dayEndMs, sameDay) == Some(PendingExpired72h) <==>
            && sameDay && relay.attestedExpiryMs <= limit && relay.attestedExpiryMs <= dayEndMs
            && limit < dayEndMs && limit <= relay.now
    ensures var limit := relay.binding.trustedApprovalLowerMs + PENDING_EXECUTION_72H_MS;
            LifetimeRejection(relay, dayEndMs, sameDay) == Some(DayBoundaryExpired) <==>
            || !sameDay
            || (relay.attestedExpiryMs <= dayEndMs <= limit && dayEndMs <= relay.now)
  {
  }

  // --- the transition system ------------------------------------------------------------------

  datatype Pc = Start(relay: Relay) | Fresh(relay: Relay) | Executing(relay: Relay)

  /** A response and the relay that got it. */
  datatype Entry = Entry(relay: Relay, response: Response)

  datatype World = World(record: Option<Record>, pcs: map<nat, Pc>, log: seq<Entry>)

  datatype Step =
    | Begin(id: nat, relay: Relay)
    | StageR(id: nat)
    | EarlyReject(id: nat, reason: RejectionReason)
    | Decide(id: nat, dayEndMs: int, sameDay: bool, freshRejection: Option<RejectionReason>, executionId: string)
    | Finish(id: nat, before: Correlation, result: VoidResult, after: Correlation)
    | Stop(id: nat)

  function Answer(w: World, id: nat, relay: Relay, r: Response): World {
    w.(pcs := w.pcs - {id}, log := w.log + [Entry(relay, r)])
  }

  function VerdictOf(r: Record): Response
    requires StateShape(r) && r.state != ConsumedPendingExecution
  {
    match r.state
    case TerminallyRejected => Rejected(r.rejection.value, r.terminalizedAt.value)
    case Done => Accepted(r.executionId.value, r.outcome.value, r.completedAt.value)
    case ManualAttention => Manual(r.manual.value, r.completedAt.value)
  }

  /** What a relay does with a record that already exists. */
  function Dispatch(w: World, id: nat, relay: Relay): World
    requires w.record.Some?
  {
    var r := w.record.value;
    if !Readable(r) then Answer(w, id, relay, Unreadable)
    else if r.binding != relay.binding then Answer(w, id, relay, BindingConflict)
    else if !relay.branchEligible then Answer(w, id, relay, BranchNotPermitted)
    else if r.state == ConsumedPendingExecution then w.(pcs := w.pcs[id := Executing(relay)])
    else Answer(w, id, relay, VerdictOf(r))
  }

  /** Creates the rejection only when no record exists; otherwise adopts what does. */
  function Terminalize(w: World, id: nat, relay: Relay, reason: RejectionReason, expiryMs: int): World {
    if w.record.Some? then Dispatch(w, id, relay)
    else
      Answer(w.(record := Some(RejectionRecord(relay, reason, expiryMs))), id, relay, Rejected(reason, relay.now))
  }

  function Consume(w: World, id: nat, relay: Relay, freshRejection: Option<RejectionReason>, executionId: string,
                   expiryMs: int): World {
    if w.record.Some? then Dispatch(w, id, relay)
    else if freshRejection.Some? then Terminalize(w, id, relay, freshRejection.value, expiryMs)
    else w.(record := Some(ConsumedRecord(relay, executionId, expiryMs)), pcs := w.pcs[id := Executing(relay)])
  }

  function PatchVerdict(r: Record, relay: Relay, patch: Patch): Response
    requires r.executionId.Some?
  {
    match patch
    case Complete(outcome) => Accepted(r.executionId.value, outcome, relay.now)
    case NeedsAttention(reason) => Manual(reason, relay.now)
  }

  /** The guarded terminal write. */
  function TerminalizePhaseC(w: World, id: nat, relay: Relay, patch: Patch): World {
    if w.record.None? then Answer(w, id, relay, Unreadable)
    else
      var r := w.record.value;
      if !Readable(r) then Answer(w, id, relay, Unreadable)
      else if r.binding != relay.binding then Answer(w, id, relay, BindingConflict)
      else if r.state != ConsumedPendingExecution then Answer(w, id, relay, VerdictOf(r))
      else Answer(w.(record := Some(Patched(r, relay, patch))), id, relay, PatchVerdict(r, relay, patch))
  }

  function After(w: World, s: Step): World {
    match s
    case Begin(id, relay) => if id in w.pcs then w else w.(pcs := w.pcs[id := Start(relay)])
    case StageR(id) =>
      if id !in w.pcs || !w.pcs[id].Start? then w
      else if w.record.None? then
        if w.pcs[id].relay.branchEligible then w.(pcs := w.pcs[id := Fresh(w.pcs[id].relay)])
        else Answer(w, id, w.pcs[id].relay, BranchNotPermitted)
      else Dispatch(w, id, w.pcs[id].relay)
    case EarlyReject(id, reason) =>
      if id !in w.pcs || !w.pcs[id].Fresh? then w
      else Terminalize(w, id, w.pcs[id].relay, reason, w.pcs[id].relay.attestedExpiryMs)
    case Decide(id, dayEndMs, sameDay, freshRejection, executionId) =>
      if id !in w.pcs || !w.pcs[id].Fresh? then w
      else
        var relay := w.pcs[id].relay;
        var expiry := ServerPendingExpiry(relay.binding.trustedApprovalLowerMs, dayEndMs);
        var late := LifetimeRejection(relay, dayEndMs, sameDay);
        if late.Some? then Terminalize(w, id, relay, late.value, expiry)
        else Consume(w, id, relay, freshRejection, executionId, expiry)
    case Finish(id, before, result, after) =>
      if id !in w.pcs || !w.pcs[id].Executing? then w
      else TerminalizePhaseC(w, id, w.pcs[id].relay, ChoosePatch(before, result, after))
    case Stop(id) => w.(pcs := w.pcs - {id})
  }

  const EMPTY := World(None, map[], [])

  function Run(steps: seq<Step>): World {
    if steps == [] then EMPTY else After(Run(steps[..|steps| - 1]), steps[|steps| - 1])
  }

  // --- the transactions in place ----------------------------------------------------------------

  datatype PhaseCResult = Anomaly(response: Response) | Adopted(record: Record) | AppliedPatch

  class AdjudicationDoc {
    var record: Option<Record>

    constructor ()
      ensures record == None
    {
      record := None;
    }

    method TerminalizeTx(relay: Relay, reason: RejectionReason, expiryMs: int) returns (adopted: Option<Record>)
      modifies this
      ensures adopted == old(record)
      ensures forall w: World, id :: w.record == old(record) ==>
              Terminalize(w, id, relay, reason, expiryMs).record == record
      ensures old(record).Some? ==> record == old(record)
      ensures old(record).None? ==>
                && record.Some? && RejectedBy(record.value, relay, reason)
                && record.value.serverPendingExpiryMs == expiryMs
    {
      adopted := None;
      if record.Some? {
        adopted := record;
        return;
      }
      record := Some(RejectionRecord(relay, reason, expiryMs));
    }

    /** Conditions the irreversible consume on the authority re-read inside the same transaction. */
    method ConsumeTx(relay: Relay, freshRejection: Option<RejectionReason>, executionId: string, expiryMs: int)
      returns (adopted: Option<Record>, terminalized: Option<RejectionReason>)
      modifies this
      ensures adopted == old(record)
      ensures terminalized == if adopted.Some? then None else freshRejection
      ensures forall w: World, id :: w.record == old(record) ==>
                Consume(w, id, relay, freshRejection, executionId, expiryMs).record == record
      ensures old(record).Some? ==> record == old(record)
      ensures old(record).None? ==> record.Some? && record.value.serverPendingExpiryMs == expiryMs
      ensures old(record).None? && freshRejection.Some? ==> RejectedBy(record.value, relay, freshRejection.value)
      ensures old(record).None? && freshRejection.None? ==> ConsumedBy(record.value, relay, executionId)
    {
      adopted, terminalized := None, None;
      if record.Some? {
        adopted := record;
        return;
      }
      terminalized := freshRejection;
      if terminalized.Some? {
        record := Some(RejectionRecord(relay, terminalized.value, expiryMs));
        return;
      }
      record := Some(ConsumedRecord(relay, executionId, expiryMs));
    }

    method TerminalizePhaseCTx(relay: Relay, patch: Patch) returns (result: PhaseCResult)
      modifies this
      ensures forall w: World, id :: w.record == old(record) ==> TerminalizePhaseC(w, id, relay, patch).record == record
      ensures result.AppliedPatch? <==>
                old(record).Some? && Readable(old(record).value) && old(record).value.binding == relay.binding
                && old(record).value.state == ConsumedPendingExecution
      ensures !result.AppliedPatch? ==> record == old(record)
      ensures result.AppliedPatch? ==> record.Some? && CompletedBy(old(record).value, record.value, relay, patch)
      ensures result.Adopted? ==> old(record) == Some(result.record)
    {
      if record.None? || !Readable(record.value) {
        return Anomaly(Unreadable);
      }
      if record.value.binding != relay.binding {
        return Anomaly(BindingConflict);
      }
      if record.value.state != ConsumedPendingExecution {
        return Adopted(record.value);
      }
      record := Some(Patched(record.value, relay, patch));
      return AppliedPatch;
    }
  }

  // --- what a relay is told ----------------------------------------------------------------------

  /** What any readable record promises of the frame behind it: two different people, one branch, a real window. */
  lemma ReadableFrame(r: Record)
    requires Readable(r)
    ensures r.binding.initiatingStaffId != r.binding.approvingManagerStaffId && r.binding.branchId != "ALL"
    ensures 1 <= |r.binding.branchId| <= 1500 && 1 <= |r.firstRelay| <= 1500
    ensures 1 <= r.binding.trustedApprovalLowerMs <= r.binding.trustedApprovalUpperMs <= 9007199254740991
    ensures r.binding.trustedApprovalLowerMs < r.serverPendingExpiryMs <= 9007199254740991
    ensures r.executionId.Some? <==> r.state != TerminallyRejected
    ensures r.rejection.Some? <==> r.state == TerminallyRejected
    ensures r.outcome.Some? <==> r.state == Done
    ensures r.manual.Some? <==> r.state == ManualAttention
    ensures r.verdict.None? <==> r.state == ConsumedPendingExecution
    ensures r.completedAt.Some? ==> r.firstSeenAt <= r.completedAt.value
  {
  }

  /** Whom a waiting relay meets: no record, one it may not read, one not its own, one it may not act on, or its own. */
  lemma StageAnswers(w: World, id: nat)
    requires id in w.pcs && w.pcs[id].Start?
    ensures var relay, v := w.pcs[id].relay, After(w, StageR(id));
            && v.record == w.record
            && (w.record.None? && relay.branchEligible ==> v == w.(pcs := w.pcs[id := Fresh(relay)]))
            && (w.record.None? && !relay.branchEligible ==> v.log == w.log + [Entry(relay, BranchNotPermitted)])
            && (w.record.Some? && !Readable(w.record.value) ==> v.log == w.log + [Entry(relay, Unreadable)])
    ensures var relay, v := w.pcs[id].relay, After(w, StageR(id));
            w.record.Some? && Readable(w.record.value) ==>
              && (w.record.value.binding != relay.binding ==> v.log == w.log + [Entry(relay, BindingConflict)])
              && (w.record.value.binding == relay.binding && !relay.branchEligible ==>
                    v.log == w.log + [Entry(relay, BranchNotPermitted)])
              && (w.record.value.binding == relay.binding && relay.branchEligible
                  && w.record.value.state == ConsumedPendingExecution ==>
                    v.log == w.log && v.pcs == w.pcs[id := Executing(relay)])
  {
  }

  // --- safety, with nothing assumed -------------------------------------------------------------

  const LEGAL: set<(Option<State>, State)> :=
    {(None, TerminallyRejected), (None, ConsumedPendingExecution),
     (Some(ConsumedPendingExecution), Done), (Some(ConsumedPendingExecution), ManualAttention)}

  function StateOf(r: Option<Record>): Option<State> {
    if r.None? then None else Some(r.value.state)
  }

  /** Only eligible relays get as far as attesting or executing, and no other has a verdict. */
  ghost predicate IneligibleSilent(w: World) {
    && (forall id :: id in w.pcs && !w.pcs[id].Start? ==> w.pcs[id].relay.branchEligible)
    && (forall i :: 0 <= i < |w.log| && !w.log[i].relay.branchEligible ==> !IsVerdict(w.log[i].response))
  }

  lemma DispatchSilent(w: World, id: nat, relay: Relay)
    requires IneligibleSilent(w) && w.record.Some?
    ensures IneligibleSilent(Dispatch(w, id, relay))
  {
  }

  lemma ConsumeSilent(w: World, id: nat, relay: Relay, freshRejection: Option<RejectionReason>, executionId: string,
                      expiryMs: int)
    requires IneligibleSilent(w) && relay.branchEligible
    ensures IneligibleSilent(Consume(w, id, relay, freshRejection, executionId, expiryMs))
  {
    if w.record.Some? {
      DispatchSilent(w, id, relay);
    }
  }

  lemma TerminalizeSilent(w: World, id: nat, relay: Relay, reason: RejectionReason, expiryMs: int)
    requires IneligibleSilent(w) && relay.branchEligible
    ensures IneligibleSilent(Terminalize(w, id, relay, reason, expiryMs))
  {
    if w.record.Some? {
      DispatchSilent(w, id, relay);
    }
  }

  lemma FinishSilent(w: World, id: nat, relay: Relay, patch: Patch)
    requires IneligibleSilent(w) && relay.branchEligible
    ensures IneligibleSilent(TerminalizePhaseC(w, id, relay, patch))
  {
  }

  lemma StepSilent(w: World, s: Step)
    requires IneligibleSilent(w)
    ensures IneligibleSilent(After(w, s))
  {
    match s
    case StageR(id) =>
      if id in w.pcs && w.record.Some? {
        DispatchSilent(w, id, w.pcs[id].relay);
      }
    case EarlyReject(id, reason) =>
      if id in w.pcs && w.pcs[id].Fresh? {
        TerminalizeSilent(w, id, w.pcs[id].relay, reason, w.pcs[id].relay.attestedExpiryMs);
      }
    case Decide(id, dayEndMs, sameDay, freshRejection, executionId) =>
      if id in w.pcs && w.pcs[id].Fresh? {
        var relay := w.pcs[id].relay;
        var expiry := ServerPendingExpiry(relay.binding.trustedApprovalLowerMs, dayEndMs);
        var late := LifetimeRejection(relay, dayEndMs, sameDay);
        if late.Some? {
          TerminalizeSilent(w, id, relay, late.value, expiry);
        } else {
          ConsumeSilent(w, id, relay, freshRejection, executionId, expiry);
        }
      }
    case Finish(id, before, result, after) =>
      if id in w.pcs && w.pcs[id].Executing? {
        FinishSilent(w, id, w.pcs[id].relay, ChoosePatch(before, result, after));
      }
    case _ =>
  }

  lemma {:induction false} RunSilent(steps: seq<Step>)
    ensures IneligibleSilent(Run(steps))
  {
    if steps != [] {
      RunSilent(steps[..|steps| - 1]);
      StepSilent(Run(steps[..|steps| - 1]), steps[|steps| - 1]);
    }
  }

  function Actor(s: Step): nat {
    match s
    case Begin(id, _) => id
    case StageR(id) => id
    case EarlyReject(id, _) => id
    case Decide(id, _, _, _, _) => id
    case Finish(id, _, _, _) => id
    case Stop(id) => id
  }

  /** Over every run, a relay that may not act for the branch is never given a verdict and never writes the record. */
  lemma IneligibleLearnsNothing(steps: seq<Step>, i: nat, s: Step)
    ensures i < |Run(steps).log| && !Run(steps).log[i].relay.branchEligible ==> !IsVerdict(Run(steps).log[i].response)
    ensures Actor(s) in Run(steps).pcs && !Run(steps).pcs[Actor(s)].relay.branchEligible ==>
              After(Run(steps), s).record == Run(steps).record
  {
    RunSilent(steps);
  }

  /** A step leaves the record alone or makes one legal transition that keeps everything immutable. */
  lemma OnlyLegalTransitions(w: World, s: Step)
    ensures var before, after := w.record, After(w, s).record;
            after == before || (after.Some? && (StateOf(before), after.value.state) in LEGAL)
    ensures w.record.Some? ==>
              && After(w, s).record.Some?
              && After(w, s).record.value.binding == w.record.value.binding
              && After(w, s).record.value.executionId == w.record.value.executionId
              && After(w, s).record.value.firstSeenAt == w.record.value.firstSeenAt
              && After(w, s).record.value.serverPendingExpiryMs == w.record.value.serverPendingExpiryMs
    ensures w.record.Some? && w.record.value.state != ConsumedPendingExecution ==> After(w, s).record == w.record
  {
  }

  // --- where an execution, a rejection and a completion come from -------------------------------

  /** The server's own limits on a frame, both ends exclusive for the clock. */
  ghost predicate Alive(relay: Relay, dayEndMs: int, sameDay: bool) {
    && sameDay
    && relay.attestedExpiryMs <= relay.binding.trustedApprovalLowerMs + PENDING_EXECUTION_72H_MS
    && relay.attestedExpiryMs <= dayEndMs
    && relay.now < relay.binding.trustedApprovalLowerMs + PENDING_EXECUTION_72H_MS
    && relay.now < dayEndMs
  }

  /** A consume by an eligible relay inside its lifetime, with every authority check passing again, at no record. */
  ghost predicate Consumes(w: World, s: Step, binding: Binding, executionId: string) {
    && s.Decide? && s.freshRejection == None && s.executionId == executionId
    && w.record == None && s.id in w.pcs && w.pcs[s.id].Fresh?
    && w.pcs[s.id].relay.branchEligible && w.pcs[s.id].relay.binding == binding
    && Alive(w.pcs[s.id].relay, s.dayEndMs, s.sameDay)
  }

  lemma StepOrigin(w: World, s: Step)
    requires IneligibleSilent(w)
    ensures var after := After(w, s).record;
            after.Some? && after.value.executionId.Some? ==>
              || (w.record.Some? && w.record.value.executionId == after.value.executionId
                  && w.record.value.binding == after.value.binding)
              || Consumes(w, s, after.value.binding, after.value.executionId.value)
  {
    if s.Decide? && s.id in w.pcs {
      LifetimePasses(w.pcs[s.id].relay, s.dayEndMs, s.sameDay);
    }
  }

  /** Over every run: an execution id in the record was put there by a consume whose authority still held. */
  lemma {:induction false} ExecutionIdOrigin(steps: seq<Step>)
    requires Run(steps).record.Some? && Run(steps).record.value.executionId.Some?
    ensures exists i :: 0 <= i < |steps| &&
              Consumes(Run(steps[..i]), steps[i], Run(steps).record.value.binding,
                       Run(steps).record.value.executionId.value)
  {
    var n := |steps| - 1;
    var front := steps[..n];
    RunSilent(front);
    StepOrigin(Run(front), steps[n]);
    var r := Run(steps).record.value;
    if !Consumes(Run(front), steps[n], r.binding, r.executionId.value) {
      ExecutionIdOrigin(front);
      var i :| 0 <= i < |front| && Consumes(Run(front[..i]), front[i], r.binding, r.executionId.value);
      assert front[..i] == steps[..i] && front[i] == steps[i];
    }
  }

  /** Authority found revoked at the consume rejects with that very reason, and says so. */
  lemma RevokedAuthorityRejects(w: World, s: Step)
    requires s.Decide? && s.freshRejection.Some? && w.record == None && s.id in w.pcs && w.pcs[s.id].Fresh?
    requires Alive(w.pcs[s.id].relay, s.dayEndMs, s.sameDay)
    ensures var after, relay := After(w, s), w.pcs[s.id].relay;
            && after.record.Some? && RejectedBy(after.record.value, relay, s.freshRejection.value)
            && after.log == w.log + [Entry(relay, Rejected(s.freshRejection.value, relay.now))]
            && after.pcs == w.pcs - {s.id}
  {
    LifetimePasses(w.pcs[s.id].relay, s.dayEndMs, s.sameDay);
  }

  /** Out of its lifetime a frame is rejected whatever its authority, and nothing is consumed. */
  lemma OutlivedRejects(w: World, s: Step)
    requires s.Decide? && w.record == None && s.id in w.pcs && w.pcs[s.id].Fresh?
    requires !Alive(w.pcs[s.id].relay, s.dayEndMs, s.sameDay)
    ensures var after, relay := After(w, s), w.pcs[s.id].relay;
            && after.record.Some? && after.record.value.state == TerminallyRejected
            && after.record.value.executionId == None && after.record.value.rejection.Some?
            && after.log == w.log + [Entry(relay, Rejected(after.record.value.rejection.value, relay.now))]
  {
    LifetimePasses(w.pcs[s.id].relay, s.dayEndMs, s.sameDay);
  }

  /** A failed check before the consume, authority revoked at it, or a lifetime that had run out; at no record. */
  ghost predicate Rejects(w: World, s: Step, reason: RejectionReason) {
    && w.record == None && Actor(s) in w.pcs && w.pcs[Actor(s)].Fresh? && w.pcs[Actor(s)].relay.branchEligible
    && (s.EarlyReject? || s.Decide?)
    && (s.EarlyReject? ==> s.reason == reason)
    && (s.Decide? && Alive(w.pcs[s.id].relay, s.dayEndMs, s.sameDay) ==> s.freshRejection == Some(reason))
    && (s.Decide? && !Alive(w.pcs[s.id].relay, s.dayEndMs, s.sameDay) ==>
          reason in {DayBoundaryExpired, AttestedExpiryExceedsAuthority, PendingExpired72h})
  }

  lemma StepRejects(w: World, s: Step, reason: RejectionReason)
    requires IneligibleSilent(w)
    requires After(w, s).record.Some? && After(w, s).record.value.rejection == Some(reason)
    ensures (w.record.Some? && w.record.value.rejection == Some(reason)) || Rejects(w, s, reason)
  {
    if s.Decide? && s.id in w.pcs {
      LifetimePasses(w.pcs[s.id].relay, s.dayEndMs, s.sameDay);
    }
  }

  /** Over every run: a recorded rejection is the one a step found where no record existed. */
  lemma {:induction false} RejectionOrigin(steps: seq<Step>, reason: RejectionReason)
    requires Run(steps).record.Some? && Run(steps).record.value.rejection == Some(reason)
    ensures exists i :: 0 <= i < |steps| && Rejects(Run(steps[..i]), steps[i], reason)
  {
    var n := |steps| - 1;
    var front := steps[..n];
    RunSilent(front);
    StepRejects(Run(front), steps[n], reason);
    if !Rejects(Run(front), steps[n], reason) {
      RejectionOrigin(front, reason);
      var i :| 0 <= i < |front| && Rejects(Run(front[..i]), front[i], reason);
      assert front[..i] == steps[..i] && front[i] == steps[i];
    }
  }

  /** A finish by a relay of the same bytes that saw this execution on the order, before or after the void ran. */
  ghost predicate Completes(w: World, s: Step, binding: Binding) {
    && s.Finish? && s.id in w.pcs && w.pcs[s.id].Executing? && w.pcs[s.id].relay.binding == binding
    && w.pcs[s.id].relay.branchEligible
    && (s.before == Matching || (s.before == NotVoided && s.after == Matching && !s.result.OtherResult?))
  }

  lemma StepCompletes(w: World, s: Step)
    requires IneligibleSilent(w)
    ensures var after := After(w, s).record;
            after.Some? && after.value.state == Done ==>
              || (w.record.Some? && w.record.value.state == Done && w.record.value.binding == after.value.binding)
              || Completes(w, s, after.value.binding)
  {
    if s.Finish? && s.id in w.pcs && w.pcs[s.id].Executing? {
      CompletionNeedsThisExecution(s.before, s.result, s.after);
    }
  }

  /** Over every run: a completed record was completed by a relay that found the order carrying this execution. */
  lemma {:induction false} CompletionOrigin(steps: seq<Step>)
    requires Run(steps).record.Some? && Run(steps).record.value.state == Done
    ensures exists i :: 0 <= i < |steps| &&
              Completes(Run(steps[..i]), steps[i], Run(steps).record.value.binding)
  {
    var n := |steps| - 1;
    var front := steps[..n];
    RunSilent(front);
    StepCompletes(Run(front), steps[n]);
    var binding := Run(steps).record.value.binding;
    if !Completes(Run(front), steps[n], binding) {
      CompletionOrigin(front);
      var i :| 0 <= i < |front| && Completes(Run(front[..i]), front[i], binding);
      assert front[..i] == steps[..i] && front[i] == steps[i];
    }
  }

  /** Only a relay of the record's own bytes has been given a verdict. */
  ghost predicate VerdictsOnlyToOwnBytes(w: World) {
    forall i :: 0 <= i < |w.log| && IsVerdict(w.log[i].response) ==>
      w.record.Some? && w.record.value.binding == w.log[i].relay.binding
  }

  lemma StepOwnBytes(w: World, s: Step)
    requires VerdictsOnlyToOwnBytes(w)
    ensures VerdictsOnlyToOwnBytes(After(w, s))
  {
    match s
    case StageR(id) =>
      if id in w.pcs && w.record.Some? {
        DispatchOwnBytes(w, id, w.pcs[id].relay);
      }
    case EarlyReject(id, reason) =>
      if id in w.pcs {
        TerminalizeOwnBytes(w, id, w.pcs[id].relay, reason, w.pcs[id].relay.attestedExpiryMs);
      }
    case Decide(id, dayEndMs, sameDay, freshRejection, executionId) =>
      if id in w.pcs {
        DecideOwnBytes(w, id, dayEndMs, sameDay, freshRejection, executionId);
      }
    case Finish(id, before, result, after) =>
      if id in w.pcs {
        FinishOwnBytes(w, id, w.pcs[id].relay, ChoosePatch(before, result, after));
      }
    case _ =>
  }

  lemma DispatchOwnBytes(w: World, id: nat, relay: Relay)
    requires VerdictsOnlyToOwnBytes(w) && w.record.Some?
    ensures VerdictsOnlyToOwnBytes(Dispatch(w, id, relay))
  {
  }

  lemma TerminalizeOwnBytes(w: World, id: nat, relay: Relay, reason: RejectionReason, expiryMs: int)
    requires VerdictsOnlyToOwnBytes(w)
    ensures VerdictsOnlyToOwnBytes(Terminalize(w, id, relay, reason, expiryMs))
  {
    if w.record.Some? {
      DispatchOwnBytes(w, id, relay);
    }
  }

  lemma DecideOwnBytes(w: World, id: nat, dayEndMs: int, sameDay: bool, freshRejection: Option<RejectionReason>,
                       executionId: string)
    requires VerdictsOnlyToOwnBytes(w) && id in w.pcs
    ensures VerdictsOnlyToOwnBytes(After(w, Decide(id, dayEndMs, sameDay, freshRejection, executionId)))
  {
    var relay := w.pcs[id].relay;
    var expiry := ServerPendingExpiry(relay.binding.trustedApprovalLowerMs, dayEndMs);
    var late := LifetimeRejection(relay, dayEndMs, sameDay);
    if late.Some? {
      TerminalizeOwnBytes(w, id, relay, late.value, expiry);
    } else if freshRejection.Some? {
      TerminalizeOwnBytes(w, id, relay, freshRejection.value, expiry);
    } else if w.record.Some? {
      DispatchOwnBytes(w, id, relay);
    }
  }

  lemma FinishOwnBytes(w: World, id: nat, relay: Relay, patch: Patch)
    requires VerdictsOnlyToOwnBytes(w)
    ensures VerdictsOnlyToOwnBytes(TerminalizePhaseC(w, id, relay, patch))
  {
  }

  /** Over every run: a verdict is only ever given to a relay carrying the bytes the record was made from. */
  lemma {:induction false} ForeignBytesLearnNothing(steps: seq<Step>)
    ensures VerdictsOnlyToOwnBytes(Run(steps))
  {
    if steps != [] {
      ForeignBytesLearnNothing(steps[..|steps| - 1]);
      StepOwnBytes(Run(steps[..|steps| - 1]), steps[|steps| - 1]);
    }
  }

  /** The verdict a terminal record stands for, timestamps as written. */
  ghost function Stands(r: Record): Option<Response> {
    match r.state
    case TerminallyRejected =>
      if r.rejection.Some? && r.terminalizedAt.Some?
        then Some(Rejected(r.rejection.value, r.terminalizedAt.value)) else None
    case ConsumedPendingExecution => None
    case Done =>
      if r.executionId.Some? && r.outcome.Some? && r.completedAt.Some?
      then Some(Accepted(r.executionId.value, r.outcome.value, r.completedAt.value)) else None
    case ManualAttention =>
      if r.manual.Some? && r.completedAt.Some? then Some(Manual(r.manual.value, r.completedAt.value)) else None
  }

  /** Every verdict handed out is the one the record stands for. */
  ghost predicate LogAgrees(w: World) {
    forall i :: 0 <= i < |w.log| && IsVerdict(w.log[i].response) ==>
      w.record.Some? && Stands(w.record.value) == Some(w.log[i].response)
  }

  lemma DispatchAgrees(w: World, id: nat, relay: Relay)
    requires LogAgrees(w) && w.record.Some?
    ensures LogAgrees(Dispatch(w, id, relay))
  {
  }

  lemma TerminalizeAgrees(w: World, id: nat, relay: Relay, reason: RejectionReason, expiryMs: int)
    requires LogAgrees(w)
    ensures LogAgrees(Terminalize(w, id, relay, reason, expiryMs))
  {
    if w.record.Some? {
      DispatchAgrees(w, id, relay);
    }
  }

  lemma FinishAgrees(w: World, id: nat, relay: Relay, patch: Patch)
    requires LogAgrees(w)
    ensures LogAgrees(TerminalizePhaseC(w, id, relay, patch))
  {
  }

  lemma ConsumeAgrees(w: World, id: nat, relay: Relay, freshRejection: Option<RejectionReason>, executionId: string,
                      expiryMs: int)
    requires LogAgrees(w)
    ensures LogAgrees(Consume(w, id, relay, freshRejection, executionId, expiryMs))
  {
    if w.record.Some? {
      DispatchAgrees(w, id, relay);
    } else if freshRejection.Some? {
      TerminalizeAgrees(w, id, relay, freshRejection.value, expiryMs);
    }
  }

  lemma StepKeepsAgreement(w: World, s: Step)
    requires LogAgrees(w)
    ensures LogAgrees(After(w, s))
  {
    match s
    case StageR(id) =>
      if id in w.pcs && w.record.Some? {
        DispatchAgrees(w, id, w.pcs[id].relay);
      }
    case EarlyReject(id, reason) =>
      if id in w.pcs {
        TerminalizeAgrees(w, id, w.pcs[id].relay, reason, w.pcs[id].relay.attestedExpiryMs);
      }
    case Decide(id, dayEndMs, sameDay, freshRejection, executionId) =>
      if id in w.pcs {
        var relay := w.pcs[id].relay;
        var expiry := ServerPendingExpiry(relay.binding.trustedApprovalLowerMs, dayEndMs);
        var late := LifetimeRejection(relay, dayEndMs, sameDay);
        if late.Some? {
          TerminalizeAgrees(w, id, relay, late.value, expiry);
        } else {
          ConsumeAgrees(w, id, relay, freshRejection, executionId, expiry);
        }
      }
    case Finish(id, before, result, after) =>
      if id in w.pcs {
        FinishAgrees(w, id, w.pcs[id].relay, ChoosePatch(before, result, after));
      }
    case _ =>
  }

  lemma {:induction false} RunAgrees(steps: seq<Step>)
    ensures LogAgrees(Run(steps))
  {
    if steps != [] {
      RunAgrees(steps[..|steps| - 1]);
      StepKeepsAgreement(Run(steps[..|steps| - 1]), steps[|steps| - 1]);
    }
  }

  /**
    Whatever the interleaving, the crashes, the clocks and the callers: any two verdicts ever
    returned agree on verdict, reason or outcome, and timestamp.
   */
  lemma VerdictsAgree(steps: seq<Step>, i: nat, j: nat)
    requires i < |Run(steps).log| && j < |Run(steps).log|
    requires IsVerdict(Run(steps).log[i].response) && IsVerdict(Run(steps).log[j].response)
    ensures Run(steps).log[i].response == Run(steps).log[j].response
  {
    RunAgrees(steps);
  }

  // --- when replays can read what was written -----------------------------------------------------

  /** A created record parses exactly when its relay, clock and lifetime are in order. */
  lemma CreatedReadable(relay: Relay, reason: RejectionReason, executionId: string, expiryMs: int)
    requires ValidBinding(relay.binding)
    ensures Readable(RejectionRecord(relay, reason, expiryMs)) <==>
            IsCanonicalId(relay.staffId) && IsTimestamp(relay.now) &&
            relay.binding.trustedApprovalLowerMs < expiryMs <= MAX_SAFE_INTEGER
    ensures Readable(ConsumedRecord(relay, executionId, expiryMs)) <==>
            IsCanonicalId(relay.staffId) && IsTimestamp(relay.now) &&
            relay.binding.trustedApprovalLowerMs < expiryMs <= MAX_SAFE_INTEGER
  {
  }

  /** A completed record parses exactly when the completing relay did not start before the consuming one. */
  lemma PatchedReadable(r: Record, relay: Relay, patch: Patch)
    requires Readable(r) && r.state == ConsumedPendingExecution
    ensures Readable(Patched(r, relay, patch)) <==>
            IsCanonicalId(relay.staffId) && r.firstSeenAt <= relay.now <= MAX_SAFE_INTEGER
  {
  }

  /** An approval made after its order's day never gets past the lifetime checks, and its rejection is unreadable. */
  lemma LateApprovalUnreadable(relay: Relay, dayEndMs: int, sameDay: bool)
    requires ValidBinding(relay.binding) && relay.binding.trustedApprovalLowerMs < relay.attestedExpiryMs
    requires IsCanonicalId(relay.staffId) && IsTimestamp(relay.now) && IsTimestamp(dayEndMs)
    ensures var late := LifetimeRejection(relay, dayEndMs, sameDay);
            var expiry := ServerPendingExpiry(relay.binding.trustedApprovalLowerMs, dayEndMs);
            && (late.Some? ==>
                  (Readable(RejectionRecord(relay, late.value, expiry)) <==>
                   dayEndMs > relay.binding.trustedApprovalLowerMs))
            && (dayEndMs <= relay.binding.trustedApprovalLowerMs ==> late.Some?)
  {
  }

  /** A relay whose bytes decode, called by a canonical staff id at a sane clock. */
  ghost predicate SoundRelay(relay: Relay) {
    && ValidBinding(relay.binding)
    && relay.binding.trustedApprovalLowerMs < relay.attestedExpiryMs <= MAX_SAFE_INTEGER
    && IsCanonicalId(relay.staffId) && IsTimestamp(relay.now)
  }

  /** What the caller can see to: sound relays, approvals before the day's end, no completion by an earlier starter. */
  ghost predicate SoundStep(w: World, s: Step) {
    match s
    case Begin(_, relay) => SoundRelay(relay)
    case Decide(id, dayEndMs, _, _, _) =>
      id in w.pcs ==> w.pcs[id].relay.binding.trustedApprovalLowerMs < dayEndMs <= MAX_SAFE_INTEGER
    case Finish(id, _, _, _) => id in w.pcs && w.record.Some? ==> w.record.value.firstSeenAt <= w.pcs[id].relay.now
    case _ => true
  }

  ghost predicate AllReadable(w: World) {
    && (w.record.Some? ==> Readable(w.record.value))
    && (forall id :: id in w.pcs ==> SoundRelay(w.pcs[id].relay))
    && (forall id :: id in w.pcs && w.pcs[id].Executing? ==>
          w.record.Some? && w.record.value.binding == w.pcs[id].relay.binding)
    && (forall i :: 0 <= i < |w.log| ==> w.log[i].response != Unreadable)
  }

  lemma DispatchReadable(w: World, id: nat)
    requires AllReadable(w) && w.record.Some? && id in w.pcs
    ensures AllReadable(Dispatch(w, id, w.pcs[id].relay))
  {
  }

  lemma TerminalizeReadable(w: World, id: nat, reason: RejectionReason, expiryMs: int)
    requires AllReadable(w) && id in w.pcs && w.pcs[id].Fresh?
    requires w.pcs[id].relay.binding.trustedApprovalLowerMs < expiryMs <= MAX_SAFE_INTEGER
    ensures AllReadable(Terminalize(w, id, w.pcs[id].relay, reason, expiryMs))
  {
    if w.record.Some? {
      DispatchReadable(w, id);
    } else {
      CreatedReadable(w.pcs[id].relay, reason, "", expiryMs);
    }
  }

  lemma ConsumeReadable(w: World, id: nat, freshRejection: Option<RejectionReason>, executionId: string, expiryMs: int)
    requires AllReadable(w) && id in w.pcs && w.pcs[id].Fresh?
    requires w.pcs[id].relay.binding.trustedApprovalLowerMs < expiryMs <= MAX_SAFE_INTEGER
    ensures AllReadable(Consume(w, id, w.pcs[id].relay, freshRejection, executionId, expiryMs))
  {
    if w.record.Some? {
      DispatchReadable(w, id);
    } else if freshRejection.Some? {
      TerminalizeReadable(w, id, freshRejection.value, expiryMs);
    } else {
      CreatedReadable(w.pcs[id].relay, DayBoundaryExpired, executionId, expiryMs);
    }
  }

  lemma FinishReadable(w: World, id: nat, patch: Patch)
    requires AllReadable(w) && id in w.pcs && w.pcs[id].Executing?
    requires w.record.Some? ==> w.record.value.firstSeenAt <= w.pcs[id].relay.now
    ensures AllReadable(TerminalizePhaseC(w, id, w.pcs[id].relay, patch))
  {
    if w.record.value.state == ConsumedPendingExecution {
      PatchedReadable(w.record.value, w.pcs[id].relay, patch);
    }
  }

  lemma SoundStepReadable(w: World, s: Step)
    requires AllReadable(w) && SoundStep(w, s)
    ensures AllReadable(After(w, s))
  {
    match s
    case StageR(id) =>
      if id in w.pcs && w.record.Some? {
        DispatchReadable(w, id);
      }
    case EarlyReject(id, reason) =>
      if id in w.pcs && w.pcs[id].Fresh? {
        TerminalizeReadable(w, id, reason, w.pcs[id].relay.attestedExpiryMs);
      }
    case Decide(id, dayEndMs, sameDay, freshRejection, executionId) =>
      if id in w.pcs && w.pcs[id].Fresh? {
        var relay := w.pcs[id].relay;
        var expiry := ServerPendingExpiry(relay.binding.trustedApprovalLowerMs, dayEndMs);
        var late := LifetimeRejection(relay, dayEndMs, sameDay);
        if late.Some? {
          TerminalizeReadable(w, id, late.value, expiry);
        } else {
          ConsumeReadable(w, id, freshRejection, executionId, expiry);
        }
      }
    case Finish(id, before, result, after) =>
      if id in w.pcs && w.pcs[id].Executing? {
        FinishReadable(w, id, ChoosePatch(before, result, after));
      }
    case _ =>
  }

  ghost predicate SoundRun(steps: seq<Step>) {
    forall i :: 0 <= i < |steps| ==> SoundStep(Run(steps[..i]), steps[i])
  }

  /** In a sound run every written record re-parses, so no relay is ever told it is unreadable. */
  lemma {:induction false} SoundRunReadable(steps: seq<Step>)
    requires SoundRun(steps)
    ensures AllReadable(Run(steps))
  {
    if steps != [] {
      var n := |steps| - 1;
      forall i | 0 <= i < n ensures SoundStep(Run(steps[..n][..i]), steps[..n][i]) {
        assert steps[..n][..i] == steps[..i];
      }
      SoundRunReadable(steps[..n]);
      SoundStepReadable(Run(steps[..n]), steps[n]);
    }
  }

  /** Once a sound run holds a terminal record, every eligible relay with the same bytes replays its verdict. */
  lemma ReplayReturnsVerdict(steps: seq<Step>, id: nat, relay: Relay)
    requires SoundRun(steps) && id !in Run(steps).pcs && relay.branchEligible
    requires Run(steps).record.Some? && Run(steps).record.value.state != ConsumedPendingExecution
    requires Run(steps).record.value.binding == relay.binding
    ensures Readable(Run(steps).record.value)
    ensures var w := After(After(Run(steps), Begin(id, relay)), StageR(id));
            && w.log == Run(steps).log + [Entry(relay, VerdictOf(Run(steps).record.value))]
            && w.record == Run(steps).record && IsVerdict(VerdictOf(Run(steps).record.value))
  {
    SoundRunReadable(steps);
  }

  const BYTES := Binding("d", "b", "s", "m", [], 100, 100)

  lemma BytesValid()
    ensures ValidBinding(BYTES) && IsCanonicalId("s")
  {
  }

  /** A relay that started before the consuming one but finishes for it leaves a record nobody can read. */
  lemma EarlierStarterBreaksReplay()
    ensures var slow := Relay("s", BYTES, true, 200, 150);
            var fast := Relay("s", BYTES, true, 200, 160);
            var w0 := After(After(EMPTY, Begin(0, slow)), Begin(1, fast));
            var w1 := After(After(w0, StageR(1)), Decide(1, 200, true, None, "e"));
            var w2 := After(After(w1, StageR(0)), Finish(0, NotVoided, Applied, Matching));
            && w2.log == [Entry(slow, Accepted("e", VoidApplied, 150))]
            && After(w2, Finish(1, Matching, Applied, Matching)).log[1] == Entry(fast, Unreadable)
  {
    var slow := Relay("s", BYTES, true, 200, 150);
    var fast := Relay("s", BYTES, true, 200, 160);
    BytesValid();
    CreatedReadable(fast, DayBoundaryExpired, "e", 200);
    PatchedReadable(ConsumedRecord(fast, "e", 200), slow, Complete(VoidApplied));
  }
}
