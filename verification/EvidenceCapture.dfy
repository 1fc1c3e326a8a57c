/**
  Capturing shift-close evidence. Close captures of any number of shifts are delivered in any order and
  any number of times; each delivery is one transaction over evidence, case, audit and alert documents.
 */
module EvidenceCapture {
  import opened Wrappers

  const SCHEMA_VERSION := 1

  /** Close hashes are SHA-256 in hexadecimal. */
  const HASH_LENGTH := 64

  datatype Identity = Identity(branchId: string, staffId: string, deviceId: string)

  datatype Capture = Capture(
    shiftId: string,
    identity: Identity,
    closeHash: string,
    evidenceId: string,
    sourcePath: string,
    figures: seq<Option<real>>,
    closedAtMs: Option<int>,
    horizonMs: int)

  datatype Evidence = Evidence(
    evidenceId: string,
    shiftId: string,
    closeHash: string,
    sourcePath: string,
    identity: Identity,
    figures: seq<Option<real>>,
    closedAtMs: Option<int>,
    schemaVersion: int)

  datatype Case = Case(
    shiftId: string,
    identity: Identity,
    latestEvidenceId: string,
    latestCloseHash: string,
    caseVersion: nat,
    sourceRevision: nat,
    pendingRevalidation: bool,
    horizonMs: int,
    schemaVersion: int)

  /** The hash of these three fields names the audit document; the hash is injective. */
  datatype AuditId = AuditId(shiftId: string, evidenceId: string, caseVersion: nat)

  datatype Audit = Audit(shiftId: string, caseVersion: nat, branchId: string)

  datatype Alert = Alert(caseVersion: nat, branchId: string)

  datatype Store = Store(
    evidence: map<string, Evidence>,
    cases: map<string, Case>,
    audits: map<AuditId, Audit>,
    alerts: map<string, Alert>)

  /**
    The stored document keeps the figures and the close time as observed; the hash rounds the one and omits
    the other.
   */
  function EvidenceOf(c: Capture): Evidence {
    Evidence(c.evidenceId, c.shiftId, c.closeHash, c.sourcePath, c.identity, c.figures, c.closedAtMs, SCHEMA_VERSION)
  }

  /** How a capture gets its id and path. */
  ghost predicate Planned(c: Capture) {
    && |c.closeHash| == HASH_LENGTH
    && c.evidenceId == c.shiftId + "_" + c.closeHash
    && c.sourcePath == "shifts/" + c.shiftId
  }

  /** Hashes of one length keep evidence apart, also across shifts. */
  lemma EvidenceIdInjective(a: Capture, b: Capture)
    requires Planned(a) && Planned(b)
    ensures a.evidenceId == b.evidenceId <==> a.shiftId == b.shiftId && a.closeHash == b.closeHash
  {
    var x, y := a.evidenceId, b.evidenceId;
    if x == y {
      var n := |a.shiftId|;
      assert |x| == n + 1 + |a.closeHash| && |y| == |b.shiftId| + 1 + |b.closeHash|;
      assert x[..n] == a.shiftId && y[..n] == b.shiftId;
      assert x[n + 1..] == a.closeHash && y[n + 1..] == b.closeHash;
    }
  }

  // --- the decision --------------------------------------------------------------------------

  datatype Decision =
    | EvidenceIdentityMismatch
    | CaseIdentityMismatch
    | EvidenceWithoutCase
    | NoOp
    | Init
    | Conflict(nextCaseVersion: nat, nextSourceRevision: nat)

  predicate IsAnomaly(d: Decision) {
    d.EvidenceIdentityMismatch? || d.CaseIdentityMismatch? || d.EvidenceWithoutCase?
  }

  predicate EvidenceInvariantHolds(existing: Evidence, c: Capture) {
    && existing.evidenceId == c.evidenceId
    && existing.shiftId == c.shiftId
    && existing.closeHash == c.closeHash
    && existing.sourcePath == c.sourcePath
    && existing.identity == c.identity
    && existing.schemaVersion == SCHEMA_VERSION
  }

  predicate CaseInvariantHolds(existing: Case, c: Capture) {
    existing.shiftId == c.shiftId && existing.identity == c.identity && existing.schemaVersion == SCHEMA_VERSION
  }

  /** Ordered rules; only states without the evidence may write. */
  function DecideCapture(c: Capture, evidence: Option<Evidence>, theCase: Option<Case>): Decision {
    if evidence.Some? && !EvidenceInvariantHolds(evidence.value, c) then EvidenceIdentityMismatch
    else if theCase.Some? && !CaseInvariantHolds(theCase.value, c) then CaseIdentityMismatch
    else if evidence.Some? && theCase.None? then EvidenceWithoutCase
    else if evidence.Some? then NoOp
    else if theCase.None? then Init
    else Conflict(theCase.value.caseVersion + 1, theCase.value.sourceRevision + 1)
  }

  // --- one delivery ---------------------------------------------------------------------------

  function Lookup<K, V>(m: map<K, V>, key: K): Option<V> {
    if key in m then Some(m[key]) else None
  }

  function DecisionFor(s: Store, c: Capture): Decision {
    DecideCapture(c, Lookup(s.evidence, c.evidenceId), Lookup(s.cases, c.shiftId))
  }

  function InitCase(c: Capture): Case {
    Case(c.shiftId, c.identity, c.evidenceId, c.closeHash, 1, 1, true, c.horizonMs, SCHEMA_VERSION)
  }

  function BumpedCase(before: Case, c: Capture, version: nat, revision: nat): Case {
    before.(caseVersion := version, sourceRevision := revision, latestEvidenceId := c.evidenceId,
          latestCloseHash := c.closeHash, pendingRevalidation := true)
  }

  /** A create fails the whole transaction when its document already exists. */
  predicate CreatesCollide(s: Store, c: Capture) {
    match DecisionFor(s, c)
    case Init => AuditId(c.shiftId, c.evidenceId, 1) in s.audits || c.shiftId in s.alerts
    case Conflict(version, _) => AuditId(c.shiftId, c.evidenceId, version) in s.audits
    case _ => false
  }

  function After(s: Store, c: Capture): Store {
    if CreatesCollide(s, c) then s
    else
      match DecisionFor(s, c)
      case Init =>
        Store(s.evidence[c.evidenceId := EvidenceOf(c)],
              s.cases[c.shiftId := InitCase(c)],
              s.audits[AuditId(c.shiftId, c.evidenceId, 1) := Audit(c.shiftId, 1, c.identity.branchId)],
              s.alerts[c.shiftId := Alert(1, c.identity.branchId)])
      case Conflict(version, revision) =>
        Store(s.evidence[c.evidenceId := EvidenceOf(c)],
              s.cases[c.shiftId := BumpedCase(s.cases[c.shiftId], c, version, revision)],
              s.audits[AuditId(c.shiftId, c.evidenceId, version) := Audit(c.shiftId, version, c.identity.branchId)],
              s.alerts)
      case _ => s
  }

  const EMPTY := Store(map[], map[], map[], map[])

  function Run(deliveries: seq<Capture>): Store {
    if deliveries == [] then EMPTY
    else After(Run(deliveries[..|deliveries| - 1]), deliveries[|deliveries| - 1])
  }

  class EvidenceDocs {
    var evidence: map<string, Evidence>
    var cases: map<string, Case>
    var audits: map<AuditId, Audit>
    var alerts: map<string, Alert>

    function View(): Store
      reads this
    {
      Store(evidence, cases, audits, alerts)
    }

    constructor ()
      ensures View() == EMPTY
    {
      evidence, cases, audits, alerts := map[], map[], map[], map[];
    }

    /** One delivery; `None` when a create collided and the transaction failed. */
    method CaptureOnWrite(c: Capture) returns (decision: Option<Decision>)
      modifies this
      ensures View() == After(old(View()), c)
      ensures decision == if CreatesCollide(old(View()), c) then None else Some(DecisionFor(old(View()), c))
    {
      var d := DecideCapture(c, Lookup(evidence, c.evidenceId), Lookup(cases, c.shiftId));
      if IsAnomaly(d) || d == NoOp {
        return Some(d);
      }
      var version := if d.Init? then 1 else d.nextCaseVersion;
      var auditId := AuditId(c.shiftId, c.evidenceId, version);
      if auditId in audits || (d.Init? && c.shiftId in alerts) {
        return None;
      }
      evidence := evidence[c.evidenceId := EvidenceOf(c)];
      audits := audits[auditId := Audit(c.shiftId, version, c.identity.branchId)];
      if d.Init? {
        cases := cases[c.shiftId := InitCase(c)];
        alerts := alerts[c.shiftId := Alert(1, c.identity.branchId)];
      } else {
        cases := cases[c.shiftId := BumpedCase(cases[c.shiftId], c, version, d.nextSourceRevision)];
      }
      return Some(d);
    }
  }

  // --- what one delivery does, for any documents ------------------------------------------------

  /** Another shift, close, source, closer or schema under the capture's own id. */
  ghost predicate EvidenceDiffers(s: Store, c: Capture) {
    c.evidenceId in s.evidence &&
    var e := s.evidence[c.evidenceId];
    !(e.evidenceId == c.evidenceId && e.shiftId == c.shiftId && e.closeHash == c.closeHash
      && e.sourcePath == c.sourcePath && e.identity.branchId == c.identity.branchId
      && e.identity.staffId == c.identity.staffId && e.identity.deviceId == c.identity.deviceId
      && e.schemaVersion == 1)
  }

  ghost predicate CaseDiffers(s: Store, c: Capture) {
    c.shiftId in s.cases &&
    var k := s.cases[c.shiftId];
    !(k.shiftId == c.shiftId && k.identity.branchId == c.identity.branchId
      && k.identity.staffId == c.identity.staffId && k.identity.deviceId == c.identity.deviceId
      && k.schemaVersion == 1)
  }

  /** Documents that contradict the capture, or evidence whose case is gone: an anomaly, and nothing is written. */
  lemma AnomalyIff(s: Store, c: Capture)
    ensures IsAnomaly(DecisionFor(s, c)) <==>
            || EvidenceDiffers(s, c)
            || CaseDiffers(s, c)
            || (c.evidenceId in s.evidence && c.shiftId !in s.cases)
    ensures DecisionFor(s, c) == EvidenceIdentityMismatch <==> EvidenceDiffers(s, c)
    ensures DecisionFor(s, c) == CaseIdentityMismatch <==> !EvidenceDiffers(s, c) && CaseDiffers(s, c)
    ensures IsAnomaly(DecisionFor(s, c)) ==> After(s, c) == s
  {
  }

  /** Evidence already held changes nothing; a case is made once and keeps its identity and horizon. */
  lemma DeliveryWrites(s: Store, c: Capture)
    ensures c.evidenceId in s.evidence ==> After(s, c) == s
    ensures After(s, c) != s ==>
              && c.evidenceId !in s.evidence && !CaseDiffers(s, c)
              && c.evidenceId in After(s, c).evidence && c.shiftId in After(s, c).cases
    ensures After(s, c) != s && c.shiftId in s.cases ==>
              && After(s, c).cases[c.shiftId].caseVersion == s.cases[c.shiftId].caseVersion + 1
              && After(s, c).cases[c.shiftId].sourceRevision == s.cases[c.shiftId].sourceRevision + 1
              && After(s, c).cases[c.shiftId].identity == s.cases[c.shiftId].identity
              && After(s, c).cases[c.shiftId].horizonMs == s.cases[c.shiftId].horizonMs
              && After(s, c).alerts == s.alerts
    ensures After(s, c) != s && c.shiftId !in s.cases ==>
              && After(s, c).cases[c.shiftId].caseVersion == 1 && After(s, c).cases[c.shiftId].sourceRevision == 1
              && After(s, c).cases[c.shiftId].identity == c.identity
              && After(s, c).cases[c.shiftId].horizonMs == c.horizonMs
              && c.shiftId !in s.alerts && c.shiftId in After(s, c).alerts
    ensures After(s, c) != s ==>
              && After(s, c).cases[c.shiftId].latestEvidenceId == c.evidenceId
              && After(s, c).cases[c.shiftId].latestCloseHash == c.closeHash
              && After(s, c).cases[c.shiftId].pendingRevalidation
              && StoresFields(After(s, c).evidence[c.evidenceId], c)
  {
  }

  // --- the captures that count -----------------------------------------------------------------

  /** Captures as they are planned, the close captures of each shift under one identity. */
  ghost predicate OneIdentity(deliveries: seq<Capture>) {
    && (forall c :: c in deliveries ==> Planned(c))
    && (forall a, b :: a in deliveries && b in deliveries && a.shiftId == b.shiftId ==> a.identity == b.identity)
  }

  /** Same id, same evidence as far as a replay is checked; the rest of the stored document may differ. */
  ghost predicate Consistent(deliveries: seq<Capture>) {
    forall a, b :: a in deliveries && b in deliveries ==>
      && (a.shiftId == b.shiftId ==> a.identity == b.identity)
      && (a.evidenceId == b.evidenceId ==> EvidenceInvariantHolds(EvidenceOf(a), b))
  }

  lemma PlannedConsistent(deliveries: seq<Capture>)
    requires OneIdentity(deliveries)
    ensures Consistent(deliveries)
  {
    forall a, b | a in deliveries && b in deliveries && a.evidenceId == b.evidenceId
      ensures EvidenceInvariantHolds(EvidenceOf(a), b)
    {
      EvidenceIdInjective(a, b);
    }
  }

  ghost predicate HasId(captures: seq<Capture>, e: string) {
    exists i :: 0 <= i < |captures| && captures[i].evidenceId == e
  }

  /** A shift's captures in the order their ids first came. */
  ghost function Firsts(deliveries: seq<Capture>, shift: string): seq<Capture> {
    if deliveries == [] then []
    else
      var c, firsts := deliveries[|deliveries| - 1], Firsts(deliveries[..|deliveries| - 1], shift);
      if c.shiftId == shift && !HasId(firsts, c.evidenceId) then firsts + [c] else firsts
  }

  lemma FirstsSnoc(seen: seq<Capture>, c: Capture, shift: string)
    ensures Firsts(seen + [c], shift) ==
            if c.shiftId == shift && !HasId(Firsts(seen, shift), c.evidenceId) then Firsts(seen, shift) + [c]
            else Firsts(seen, shift)
  {
    assert (seen + [c])[..|seen|] == seen;
  }

  lemma HasIdSnoc(captures: seq<Capture>, c: Capture, e: string)
    ensures HasId(captures + [c], e) <==> HasId(captures, e) || c.evidenceId == e
  {
    if HasId(captures, e) {
      var i :| 0 <= i < |captures| && captures[i].evidenceId == e;
      assert (captures + [c])[i].evidenceId == e;
    }
    assert (captures + [c])[|captures|] == c;
  }

  ghost predicate Delivered(deliveries: seq<Capture>, shift: string, e: string) {
    exists c :: c in deliveries && c.shiftId == shift && c.evidenceId == e
  }

  lemma DeliveredSnoc(seen: seq<Capture>, c: Capture, shift: string, e: string)
    ensures Delivered(seen + [c], shift, e) <==> Delivered(seen, shift, e) || (c.shiftId == shift && c.evidenceId == e)
  {
    if Delivered(seen, shift, e) {
      var d :| d in seen && d.shiftId == shift && d.evidenceId == e;
      assert d in seen + [c];
    }
    if c.shiftId == shift && c.evidenceId == e {
      assert c in seen + [c];
    }
  }

  ghost predicate DistinctIds(captures: seq<Capture>) {
    forall i, j :: 0 <= i < j < |captures| ==> captures[i].evidenceId != captures[j].evidenceId
  }

  lemma DistinctSnoc(captures: seq<Capture>, c: Capture)
    requires DistinctIds(captures) && !HasId(captures, c.evidenceId)
    ensures DistinctIds(captures + [c])
  {
    forall i | 0 <= i < |captures| ensures captures[i].evidenceId != c.evidenceId {
    }
  }

  /** The first captures are delivered captures of the shift, one for each id delivered for it. */
  lemma {:induction false} FirstsMeaning(deliveries: seq<Capture>, shift: string)
    ensures forall e :: HasId(Firsts(deliveries, shift), e) <==> Delivered(deliveries, shift, e)
    ensures forall i :: 0 <= i < |Firsts(deliveries, shift)| ==>
              Firsts(deliveries, shift)[i] in deliveries && Firsts(deliveries, shift)[i].shiftId == shift
    ensures DistinctIds(Firsts(deliveries, shift))
  {
    if deliveries != [] {
      var n := |deliveries| - 1;
      var front, c := deliveries[..n], deliveries[n];
      assert deliveries == front + [c];
      FirstsMeaning(front, shift);
      FirstsSnoc(front, c, shift);
      var firsts := Firsts(front, shift);
      if c.shiftId == shift && !HasId(firsts, c.evidenceId) {
        DistinctSnoc(firsts, c);
      }
      forall e ensures HasId(Firsts(deliveries, shift), e) <==> Delivered(deliveries, shift, e) {
        HasIdSnoc(firsts, c, e);
        DeliveredSnoc(front, c, shift, e);
      }
    }
  }

  /** The capture at the first position of its id is among the first captures of its shift. */
  lemma {:induction false} FirstIsKept(deliveries: seq<Capture>, i: nat)
    requires i < |deliveries| && (forall j :: 0 <= j < i ==> deliveries[j].evidenceId != deliveries[i].evidenceId)
    ensures deliveries[i] in Firsts(deliveries, deliveries[i].shiftId)
  {
    var n, c := |deliveries| - 1, deliveries[i];
    var front := deliveries[..n];
    assert deliveries == front + [deliveries[n]];
    FirstsSnoc(front, deliveries[n], c.shiftId);
    if i < n {
      FirstIsKept(front, i);
    } else {
      FirstsMeaning(front, c.shiftId);
      forall d | d in front ensures d.evidenceId != c.evidenceId {
        var j :| 0 <= j < n && deliveries[j] == d;
      }
    }
  }

  // --- what any delivery sequence leaves ---------------------------------------------------------

  /** The case document of a shift with these first captures. */
  ghost function CaseOf(firsts: seq<Capture>): Case
    requires firsts != []
  {
    var last := firsts[|firsts| - 1];
    Case(firsts[0].shiftId, firsts[0].identity, last.evidenceId, last.closeHash, |firsts|, |firsts|, true,
         firsts[0].horizonMs, SCHEMA_VERSION)
  }

  ghost predicate CaseMatches(s: Store, shift: string, firsts: seq<Capture>) {
    if firsts == [] then shift !in s.cases && shift !in s.alerts
    else
      && shift in s.cases && s.cases[shift] == CaseOf(firsts)
      && shift in s.alerts && s.alerts[shift] == Alert(1, firsts[0].identity.branchId)
  }

  type Audits = map<AuditId, Audit>

  ghost predicate AuditedAt(firsts: seq<Capture>, a: AuditId) {
    1 <= a.caseVersion <= |firsts| && firsts[a.caseVersion - 1].evidenceId == a.evidenceId
  }

  /** Version `v` of a shift is audited once, for its `v`-th first capture. */
  ghost predicate AuditsMatch(audits: Audits, shift: string, firsts: seq<Capture>) {
    forall a: AuditId :: a.shiftId == shift ==>
      && (a in audits <==> AuditedAt(firsts, a))
      && (a in audits ==> audits[a] == Audit(shift, a.caseVersion, firsts[a.caseVersion - 1].identity.branchId))
  }

  ghost predicate EvidenceMatches(evidence: map<string, Evidence>, firsts: seq<Capture>) {
    forall i :: 0 <= i < |firsts| ==>
      firsts[i].evidenceId in evidence && evidence[firsts[i].evidenceId] == EvidenceOf(firsts[i])
  }

  ghost predicate ShiftMatches(s: Store, shift: string, firsts: seq<Capture>) {
    CaseMatches(s, shift, firsts) && AuditsMatch(s.audits, shift, firsts) && EvidenceMatches(s.evidence, firsts)
  }

  ghost predicate Known(seen: seq<Capture>, e: string) {
    exists shift :: HasId(Firsts(seen, shift), e)
  }

  ghost predicate NoOtherEvidence(evidence: map<string, Evidence>, seen: seq<Capture>) {
    forall e :: e in evidence ==> Known(seen, e)
  }

  ghost predicate AllMatch(s: Store, seen: seq<Capture>) {
    forall shift :: ShiftMatches(s, shift, Firsts(seen, shift))
  }

  /** The documents are exactly those of the first captures of each shift. */
  ghost predicate Captured(s: Store, seen: seq<Capture>) {
    AllMatch(s, seen) && NoOtherEvidence(s.evidence, seen)
  }

  // --- one delivery ------------------------------------------------------------------------------

  lemma KnownIsNoOp(s: Store, c: Capture, firsts: seq<Capture>, i: nat)
    requires ShiftMatches(s, c.shiftId, firsts) && i < |firsts| && firsts[i].evidenceId == c.evidenceId
    requires EvidenceInvariantHolds(EvidenceOf(firsts[i]), c)
    requires firsts[0].shiftId == c.shiftId && firsts[0].identity == c.identity
    ensures DecisionFor(s, c) == NoOp && !CreatesCollide(s, c) && After(s, c) == s
  {
    assert s.evidence[firsts[i].evidenceId] == EvidenceOf(firsts[i]);
  }

  /** The writes of a delivery whose evidence is new, after `firsts`. */
  ghost predicate Wrote(s: Store, t: Store, c: Capture, firsts: seq<Capture>) {
    && t.evidence == s.evidence[c.evidenceId := EvidenceOf(c)]
    && t.audits == s.audits[AuditId(c.shiftId, c.evidenceId, |firsts| + 1) :=
                              Audit(c.shiftId, |firsts| + 1, c.identity.branchId)]
    && t.cases == s.cases[c.shiftId := CaseOf(firsts + [c])]
    && c.shiftId in t.alerts && t.alerts[c.shiftId] == Alert(1, (firsts + [c])[0].identity.branchId)
    && (forall shift :: shift != c.shiftId ==>
          (shift in t.alerts <==> shift in s.alerts) && (shift in t.alerts ==> t.alerts[shift] == s.alerts[shift]))
  }

  lemma NewIsWritten(s: Store, c: Capture, firsts: seq<Capture>)
    requires ShiftMatches(s, c.shiftId, firsts) && c.evidenceId !in s.evidence
    requires firsts != [] ==> firsts[0].shiftId == c.shiftId && firsts[0].identity == c.identity
    ensures !IsAnomaly(DecisionFor(s, c)) && !CreatesCollide(s, c)
    ensures Wrote(s, After(s, c), c, firsts)
  {
    assert AuditId(c.shiftId, c.evidenceId, |firsts| + 1) !in s.audits;
  }

  lemma SameShiftWritten(s: Store, t: Store, c: Capture, firsts: seq<Capture>)
    requires ShiftMatches(s, c.shiftId, firsts) && !HasId(firsts, c.evidenceId)
    requires t.evidence == s.evidence[c.evidenceId := EvidenceOf(c)]
    requires t.audits == s.audits[AuditId(c.shiftId, c.evidenceId, |firsts| + 1) :=
                                    Audit(c.shiftId, |firsts| + 1, c.identity.branchId)]
    requires c.shiftId in t.cases && t.cases[c.shiftId] == CaseOf(firsts + [c])
    requires c.shiftId in t.alerts && t.alerts[c.shiftId] == Alert(1, (firsts + [c])[0].identity.branchId)
    ensures ShiftMatches(t, c.shiftId, firsts + [c])
  {
    var more := firsts + [c];
    forall i | 0 <= i < |more|
      ensures more[i].evidenceId in t.evidence && t.evidence[more[i].evidenceId] == EvidenceOf(more[i])
    {
      if i < |firsts| {
        assert firsts[i].evidenceId != c.evidenceId;
      }
    }
    AuditsSnoc(s.audits, c, firsts);
  }

  lemma AuditsSnoc(audits: Audits, c: Capture, firsts: seq<Capture>)
    requires AuditsMatch(audits, c.shiftId, firsts)
    ensures AuditsMatch(audits[AuditId(c.shiftId, c.evidenceId, |firsts| + 1) :=
                                 Audit(c.shiftId, |firsts| + 1, c.identity.branchId)], c.shiftId, firsts + [c])
  {
    var added, more := AuditId(c.shiftId, c.evidenceId, |firsts| + 1), firsts + [c];
    forall a: AuditId | a.shiftId == c.shiftId && a != added ensures AuditedAt(more, a) <==> AuditedAt(firsts, a) {
    }
  }

  lemma OtherShiftKept(s: Store, t: Store, c: Capture, shift: string, firsts: seq<Capture>, version: nat, audit: Audit)
    requires ShiftMatches(s, shift, firsts) && shift != c.shiftId && !HasId(firsts, c.evidenceId)
    requires t.evidence == s.evidence[c.evidenceId := EvidenceOf(c)]
    requires t.audits == s.audits[AuditId(c.shiftId, c.evidenceId, version) := audit]
    requires shift in t.cases <==> shift in s.cases
    requires shift in t.cases ==> t.cases[shift] == s.cases[shift]
    requires shift in t.alerts <==> shift in s.alerts
    requires shift in t.alerts ==> t.alerts[shift] == s.alerts[shift]
    ensures ShiftMatches(t, shift, firsts)
  {
    forall i | 0 <= i < |firsts| ensures firsts[i].evidenceId != c.evidenceId {
    }
  }

  /** Ids first seen in one shift are seen in no other. */
  lemma IdOfOneShift(seen: seq<Capture>, c: Capture, shift: string)
    requires Consistent(seen + [c]) && HasId(Firsts(seen, shift), c.evidenceId)
    ensures shift == c.shiftId
  {
    FirstsMeaning(seen, shift);
    var d :| d in seen && d.shiftId == shift && d.evidenceId == c.evidenceId;
    assert d in seen + [c] && c in seen + [c];
    assert EvidenceInvariantHolds(EvidenceOf(d), c);
  }

  /** The first captures of the delivered shift stand for its identity. */
  lemma FirstsIdentity(seen: seq<Capture>, c: Capture, i: nat)
    requires Consistent(seen + [c]) && i < |Firsts(seen, c.shiftId)|
    ensures Firsts(seen, c.shiftId)[i].shiftId == c.shiftId && Firsts(seen, c.shiftId)[i].identity == c.identity
    ensures Firsts(seen, c.shiftId)[i].evidenceId == c.evidenceId ==>
              EvidenceInvariantHolds(EvidenceOf(Firsts(seen, c.shiftId)[i]), c)
  {
    FirstsMeaning(seen, c.shiftId);
    var d := Firsts(seen, c.shiftId)[i];
    assert d in seen + [c] && c in seen + [c];
  }

  lemma KnownDelivered(s: Store, seen: seq<Capture>, c: Capture)
    requires ShiftMatches(s, c.shiftId, Firsts(seen, c.shiftId))
    requires Consistent(seen + [c]) && HasId(Firsts(seen, c.shiftId), c.evidenceId)
    ensures DecisionFor(s, c) == NoOp && !CreatesCollide(s, c) && After(s, c) == s
  {
    var firsts := Firsts(seen, c.shiftId);
    var i :| 0 <= i < |firsts| && firsts[i].evidenceId == c.evidenceId;
    FirstsIdentity(seen, c, 0);
    FirstsIdentity(seen, c, i);
    KnownIsNoOp(s, c, firsts, i);
  }

  lemma NewIsAbsent(s: Store, seen: seq<Capture>, c: Capture)
    requires NoOtherEvidence(s.evidence, seen) && Consistent(seen + [c])
    requires !HasId(Firsts(seen, c.shiftId), c.evidenceId)
    ensures c.evidenceId !in s.evidence
  {
    if c.evidenceId in s.evidence {
      var shift :| HasId(Firsts(seen, shift), c.evidenceId);
      IdOfOneShift(seen, c, shift);
    }
  }

  lemma NewDelivered(s: Store, seen: seq<Capture>, c: Capture)
    requires ShiftMatches(s, c.shiftId, Firsts(seen, c.shiftId)) && NoOtherEvidence(s.evidence, seen)
    requires Consistent(seen + [c]) && !HasId(Firsts(seen, c.shiftId), c.evidenceId)
    ensures !IsAnomaly(DecisionFor(s, c)) && !CreatesCollide(s, c)
    ensures Wrote(s, After(s, c), c, Firsts(seen, c.shiftId))
  {
    var firsts := Firsts(seen, c.shiftId);
    NewIsAbsent(s, seen, c);
    if firsts != [] {
      FirstsIdentity(seen, c, 0);
    }
    NewIsWritten(s, c, firsts);
  }

  lemma ShiftKept(s: Store, t: Store, seen: seq<Capture>, c: Capture, shift: string)
    requires Wrote(s, t, c, Firsts(seen, c.shiftId)) && ShiftMatches(s, shift, Firsts(seen, shift))
    requires Consistent(seen + [c]) && !HasId(Firsts(seen, c.shiftId), c.evidenceId)
    ensures ShiftMatches(t, shift, Firsts(seen + [c], shift))
  {
    var firsts := Firsts(seen, c.shiftId);
    FirstsSnoc(seen, c, shift);
    if shift == c.shiftId {
      SameShiftWritten(s, t, c, firsts);
    } else {
      if HasId(Firsts(seen, shift), c.evidenceId) {
        IdOfOneShift(seen, c, shift);
      }
      var audit := Audit(c.shiftId, |firsts| + 1, c.identity.branchId);
      OtherShiftKept(s, t, c, shift, Firsts(seen, shift), |firsts| + 1, audit);
    }
  }

  lemma EvidenceStays(seen: seq<Capture>, c: Capture, e: string)
    requires Known(seen, e) || e == c.evidenceId
    ensures Known(seen + [c], e)
  {
    var shift := c.shiftId;
    if Known(seen, e) {
      shift :| HasId(Firsts(seen, shift), e);
    }
    FirstsSnoc(seen, c, shift);
    HasIdSnoc(Firsts(seen, shift), c, e);
  }

  lemma NoOtherEvidenceKept(evidence: map<string, Evidence>, more: map<string, Evidence>, seen: seq<Capture>,
                            c: Capture)
    requires NoOtherEvidence(evidence, seen)
    requires forall e :: e in more ==> e in evidence || e == c.evidenceId
    ensures NoOtherEvidence(more, seen + [c])
  {
    forall e | e in more ensures Known(seen + [c], e) {
      EvidenceStays(seen, c, e);
    }
  }

  lemma AllKept(s: Store, t: Store, seen: seq<Capture>, c: Capture)
    requires AllMatch(s, seen) && Wrote(s, t, c, Firsts(seen, c.shiftId))
    requires Consistent(seen + [c]) && !HasId(Firsts(seen, c.shiftId), c.evidenceId)
    ensures AllMatch(t, seen + [c])
  {
    forall shift ensures ShiftMatches(t, shift, Firsts(seen + [c], shift)) {
      assert ShiftMatches(s, shift, Firsts(seen, shift));
      ShiftKept(s, t, seen, c, shift);
    }
  }

  lemma NewDeliveryKeeps(s: Store, seen: seq<Capture>, c: Capture)
    requires Captured(s, seen) && Consistent(seen + [c]) && !HasId(Firsts(seen, c.shiftId), c.evidenceId)
    ensures Captured(After(s, c), seen + [c])
  {
    assert ShiftMatches(s, c.shiftId, Firsts(seen, c.shiftId));
    NewDelivered(s, seen, c);
    AllKept(s, After(s, c), seen, c);
    NoOtherEvidenceKept(s.evidence, After(s, c).evidence, seen, c);
  }

  lemma KnownAllMatch(s: Store, seen: seq<Capture>, c: Capture)
    requires AllMatch(s, seen) && HasId(Firsts(seen, c.shiftId), c.evidenceId)
    ensures AllMatch(s, seen + [c])
  {
    forall shift ensures ShiftMatches(s, shift, Firsts(seen + [c], shift)) {
      FirstsSnoc(seen, c, shift);
      assert ShiftMatches(s, shift, Firsts(seen, shift));
    }
  }

  lemma KnownIsIgnored(s: Store, seen: seq<Capture>, c: Capture)
    requires AllMatch(s, seen) && Consistent(seen + [c]) && HasId(Firsts(seen, c.shiftId), c.evidenceId)
    ensures DecisionFor(s, c) == NoOp && !CreatesCollide(s, c) && After(s, c) == s
  {
    assert ShiftMatches(s, c.shiftId, Firsts(seen, c.shiftId));
    KnownDelivered(s, seen, c);
  }

  lemma KnownDeliveryKeeps(s: Store, seen: seq<Capture>, c: Capture)
    requires AllMatch(s, seen) && NoOtherEvidence(s.evidence, seen) && HasId(Firsts(seen, c.shiftId), c.evidenceId)
    ensures Captured(s, seen + [c])
  {
    KnownAllMatch(s, seen, c);
    NoOtherEvidenceKept(s.evidence, s.evidence, seen, c);
  }

  lemma DeliveryKeeps(s: Store, seen: seq<Capture>, c: Capture)
    requires Captured(s, seen) && Consistent(seen + [c])
    ensures Captured(After(s, c), seen + [c])
  {
    if HasId(Firsts(seen, c.shiftId), c.evidenceId) {
      KnownIsIgnored(s, seen, c);
      KnownDeliveryKeeps(s, seen, c);
    } else {
      NewDeliveryKeeps(s, seen, c);
    }
  }

  lemma DeliveryIsClean(s: Store, seen: seq<Capture>, c: Capture)
    requires AllMatch(s, seen) && NoOtherEvidence(s.evidence, seen) && Consistent(seen + [c])
    ensures !IsAnomaly(DecisionFor(s, c)) && !CreatesCollide(s, c)
  {
    if HasId(Firsts(seen, c.shiftId), c.evidenceId) {
      KnownIsIgnored(s, seen, c);
    } else {
      assert ShiftMatches(s, c.shiftId, Firsts(seen, c.shiftId));
      NewDelivered(s, seen, c);
    }
  }

  /** After any delivery sequence the documents are exactly those of the first captures of each shift. */
  lemma {:induction false} ConsistentRun(deliveries: seq<Capture>)
    requires Consistent(deliveries)
    ensures Captured(Run(deliveries), deliveries)
  {
    if deliveries != [] {
      var n := |deliveries| - 1;
      assert deliveries == deliveries[..n] + [deliveries[n]];
      ConsistentRun(deliveries[..n]);
      DeliveryKeeps(Run(deliveries[..n]), deliveries[..n], deliveries[n]);
    }
  }

  // --- the results -------------------------------------------------------------------------------

  lemma RunCaptures(deliveries: seq<Capture>)
    requires OneIdentity(deliveries)
    ensures Captured(Run(deliveries), deliveries)
  {
    PlannedConsistent(deliveries);
    ConsistentRun(deliveries);
  }

  /** No delivery is ever an anomaly or a failed create. */
  lemma NoAnomaly(deliveries: seq<Capture>, c: Capture)
    requires OneIdentity(deliveries + [c])
    ensures !IsAnomaly(DecisionFor(Run(deliveries), c)) && !CreatesCollide(Run(deliveries), c)
  {
    PlannedConsistent(deliveries + [c]);
    assert forall d :: d in deliveries ==> d in deliveries + [c];
    ConsistentRun(deliveries);
    DeliveryIsClean(Run(deliveries), deliveries, c);
  }

  /** A close under another identity is refused, whatever has been delivered, and changes nothing. */
  lemma ForeignIdentityRefused(deliveries: seq<Capture>, c: Capture, d: Capture)
    requires OneIdentity(deliveries) && d in deliveries && d.shiftId == c.shiftId && d.identity != c.identity
    ensures IsAnomaly(DecisionFor(Run(deliveries), c)) && After(Run(deliveries), c) == Run(deliveries)
  {
    RunCaptures(deliveries);
    var firsts := Firsts(deliveries, c.shiftId);
    FirstsMeaning(deliveries, c.shiftId);
    assert Delivered(deliveries, c.shiftId, d.evidenceId) && HasId(firsts, d.evidenceId);
    assert ShiftMatches(Run(deliveries), c.shiftId, firsts);
    OtherIdentityRefused(Run(deliveries), c);
  }

  lemma OtherIdentityRefused(s: Store, c: Capture)
    requires c.shiftId in s.cases && s.cases[c.shiftId].identity != c.identity
    ensures IsAnomaly(DecisionFor(s, c)) && After(s, c) == s
  {
  }

  /** The distinct evidence delivered for a shift. */
  ghost function IdsOf(deliveries: seq<Capture>, shift: string): set<string> {
    set c | c in deliveries && c.shiftId == shift :: c.evidenceId
  }

  ghost function IdSet(captures: seq<Capture>): set<string> {
    if captures == [] then {} else IdSet(captures[..|captures| - 1]) + {captures[|captures| - 1].evidenceId}
  }

  lemma {:induction false} IdSetMember(captures: seq<Capture>, e: string)
    ensures e in IdSet(captures) <==> HasId(captures, e)
  {
    if captures != [] {
      var front, c := captures[..|captures| - 1], captures[|captures| - 1];
      IdSetMember(front, e);
      assert captures == front + [c];
      HasIdSnoc(front, c, e);
    }
  }

  lemma LastIdNew(captures: seq<Capture>)
    requires captures != [] && DistinctIds(captures)
    ensures DistinctIds(captures[..|captures| - 1])
    ensures !HasId(captures[..|captures| - 1], captures[|captures| - 1].evidenceId)
  {
  }

  lemma {:induction false} IdSetSize(captures: seq<Capture>)
    requires DistinctIds(captures)
    ensures |IdSet(captures)| == |captures|
  {
    if captures != [] {
      LastIdNew(captures);
      IdSetSize(captures[..|captures| - 1]);
      IdSetMember(captures[..|captures| - 1], captures[|captures| - 1].evidenceId);
    }
  }

  lemma FirstsCount(deliveries: seq<Capture>, shift: string)
    ensures |Firsts(deliveries, shift)| == |IdsOf(deliveries, shift)|
    ensures forall e :: e in IdsOf(deliveries, shift) <==> HasId(Firsts(deliveries, shift), e)
  {
    FirstsMeaning(deliveries, shift);
    IdSetSize(Firsts(deliveries, shift));
    forall e ensures e in IdsOf(deliveries, shift) <==> HasId(Firsts(deliveries, shift), e)
      ensures e in IdSet(Firsts(deliveries, shift)) <==> HasId(Firsts(deliveries, shift), e)
    {
      IdSetMember(Firsts(deliveries, shift), e);
      assert e in IdsOf(deliveries, shift) <==> Delivered(deliveries, shift, e);
    }
    assert IdsOf(deliveries, shift) == IdSet(Firsts(deliveries, shift));
  }

  /** The number of distinct captures is the shift's version and revision. */
  lemma VersionIsCount(deliveries: seq<Capture>, c: Capture)
    requires OneIdentity(deliveries) && c in deliveries
    ensures var s := Run(deliveries);
            && c.shiftId in s.cases
            && s.cases[c.shiftId].caseVersion == s.cases[c.shiftId].sourceRevision == |IdsOf(deliveries, c.shiftId)|
  {
    RunCaptures(deliveries);
    FirstsCount(deliveries, c.shiftId);
    assert c.evidenceId in IdsOf(deliveries, c.shiftId);
    assert ShiftMatches(Run(deliveries), c.shiftId, Firsts(deliveries, c.shiftId));
  }

  ghost predicate Audited(s: Store, shift: string, e: string) {
    exists v :: AuditId(shift, e, v) in s.audits
  }

  /** Exactly one audit event per distinct evidence of a shift. */
  lemma OneAuditEach(deliveries: seq<Capture>, shift: string, e: string)
    requires OneIdentity(deliveries)
    ensures Audited(Run(deliveries), shift, e) <==> e in IdsOf(deliveries, shift)
    ensures var audits := Run(deliveries).audits;
            forall v, w :: AuditId(shift, e, v) in audits && AuditId(shift, e, w) in audits ==> v == w
  {
    RunCaptures(deliveries);
    FirstsCount(deliveries, shift);
    FirstsMeaning(deliveries, shift);
    var firsts := Firsts(deliveries, shift);
    assert AuditsMatch(Run(deliveries).audits, shift, firsts) by {
      assert ShiftMatches(Run(deliveries), shift, firsts);
    }
    AuditedOnce(Run(deliveries).audits, shift, e, firsts);
  }

  lemma AuditedOnce(audits: Audits, shift: string, e: string, firsts: seq<Capture>)
    requires AuditsMatch(audits, shift, firsts) && DistinctIds(firsts)
    ensures (exists v :: AuditId(shift, e, v) in audits) <==> HasId(firsts, e)
    ensures forall v, w :: AuditId(shift, e, v) in audits && AuditId(shift, e, w) in audits ==> v == w
  {
    if HasId(firsts, e) {
      var i :| 0 <= i < |firsts| && firsts[i].evidenceId == e;
      assert AuditedAt(firsts, AuditId(shift, e, i + 1));
      assert AuditId(shift, e, i + 1) in audits;
    }
    forall v | AuditId(shift, e, v) in audits ensures HasId(firsts, e) {
      assert AuditedAt(firsts, AuditId(shift, e, v));
    }
    forall v, w | AuditId(shift, e, v) in audits && AuditId(shift, e, w) in audits ensures v == w {
      assert AuditedAt(firsts, AuditId(shift, e, v)) && AuditedAt(firsts, AuditId(shift, e, w));
    }
  }

  /** The document's fields are the capture's own: figures and close time exactly as observed. */
  ghost predicate StoresFields(e: Evidence, c: Capture) {
    && e.evidenceId == c.evidenceId && e.shiftId == c.shiftId && e.closeHash == c.closeHash
    && e.sourcePath == c.sourcePath && e.identity == c.identity
    && e.figures == c.figures && e.closedAtMs == c.closedAtMs && e.schemaVersion == 1
  }

  /** The stored document is that of the first capture delivered with its id, field by field. */
  lemma FirstDeliveryStored(deliveries: seq<Capture>, i: nat)
    requires OneIdentity(deliveries) && i < |deliveries|
    requires forall j :: 0 <= j < i ==> deliveries[j].evidenceId != deliveries[i].evidenceId
    ensures deliveries[i].evidenceId in Run(deliveries).evidence
    ensures StoresFields(Run(deliveries).evidence[deliveries[i].evidenceId], deliveries[i])
  {
    RunCaptures(deliveries);
    FirstIsKept(deliveries, i);
    assert ShiftMatches(Run(deliveries), deliveries[i].shiftId, Firsts(deliveries, deliveries[i].shiftId));
  }
}
