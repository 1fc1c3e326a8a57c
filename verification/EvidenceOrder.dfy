/**
  What the order of deliveries leaves in the captured evidence: everything a replay checks is
  confluent, while figures, close time and latest pointers are those of the order.
 */
module EvidenceOrder {
  import opened Wrappers
  import opened EvidenceCapture

  ghost predicate SameDeliveries(a: seq<Capture>, b: seq<Capture>) {
    forall c :: c in a <==> c in b
  }

  lemma SameIds(a: seq<Capture>, b: seq<Capture>, shift: string)
    requires SameDeliveries(a, b)
    ensures |Firsts(a, shift)| == |Firsts(b, shift)|
    ensures forall e :: HasId(Firsts(a, shift), e) <==> HasId(Firsts(b, shift), e)
  {
    FirstsCount(a, shift);
    FirstsCount(b, shift);
    assert IdsOf(a, shift) == IdsOf(b, shift);
  }

  /** What two orders of one set of captures always leave alike in a case. */
  ghost predicate CaseAgrees(s: Store, t: Store, shift: string) {
    && (shift in s.cases <==> shift in t.cases) && (shift in s.alerts <==> shift in t.alerts)
    && (shift in s.cases && shift in t.cases ==>
          && s.cases[shift].identity == t.cases[shift].identity
          && s.cases[shift].caseVersion == t.cases[shift].caseVersion
          && s.cases[shift].sourceRevision == t.cases[shift].sourceRevision)
  }

  lemma CasesConfluent(a: seq<Capture>, b: seq<Capture>, shift: string)
    requires OneIdentity(a) && SameDeliveries(a, b) && Captured(Run(a), a) && Captured(Run(b), b)
    ensures CaseAgrees(Run(a), Run(b), shift)
  {
    SameIds(a, b, shift);
    FirstsMeaning(a, shift);
    FirstsMeaning(b, shift);
    assert ShiftMatches(Run(a), shift, Firsts(a, shift)) && ShiftMatches(Run(b), shift, Firsts(b, shift));
    if Firsts(a, shift) != [] {
      assert Firsts(a, shift)[0] in a && Firsts(b, shift)[0] in a;
    }
  }

  lemma KnownIsDelivered(deliveries: seq<Capture>, e: string)
    ensures Known(deliveries, e) <==> exists c :: c in deliveries && c.evidenceId == e
  {
    if Known(deliveries, e) {
      var shift :| HasId(Firsts(deliveries, shift), e);
      FirstsMeaning(deliveries, shift);
      var c :| c in deliveries && c.shiftId == shift && c.evidenceId == e;
    }
    if exists c :: c in deliveries && c.evidenceId == e {
      var c :| c in deliveries && c.evidenceId == e;
      FirstsMeaning(deliveries, c.shiftId);
      assert Delivered(deliveries, c.shiftId, e);
      assert HasId(Firsts(deliveries, c.shiftId), e);
    }
  }

  /** `i` is where its id was delivered first. */
  ghost predicate IsFirst(deliveries: seq<Capture>, i: nat) {
    i < |deliveries| && forall j :: 0 <= j < i ==> deliveries[j].evidenceId != deliveries[i].evidenceId
  }

  lemma {:induction false} FirstPosition(deliveries: seq<Capture>, k: nat) returns (i: nat)
    requires k < |deliveries|
    ensures IsFirst(deliveries, i) && deliveries[i].evidenceId == deliveries[k].evidenceId
    decreases k
  {
    if j :| 0 <= j < k && deliveries[j].evidenceId == deliveries[k].evidenceId {
      i := FirstPosition(deliveries, j);
    } else {
      i := k;
    }
  }

  lemma StoredFromFirst(deliveries: seq<Capture>, e: string) returns (i: nat)
    requires OneIdentity(deliveries) && e in Run(deliveries).evidence
    ensures IsFirst(deliveries, i) && deliveries[i].evidenceId == e
    ensures Run(deliveries).evidence[e] == EvidenceOf(deliveries[i])
  {
    RunCaptures(deliveries);
    KnownIsDelivered(deliveries, e);
    assert Known(deliveries, e);
    var c :| c in deliveries && c.evidenceId == e;
    var k :| 0 <= k < |deliveries| && deliveries[k] == c;
    i := FirstPosition(deliveries, k);
    FirstDeliveryStored(deliveries, i);
  }

  lemma SameEvidenceIds(a: seq<Capture>, b: seq<Capture>, e: string)
    requires OneIdentity(a) && OneIdentity(b) && SameDeliveries(a, b)
    ensures e in Run(a).evidence ==> e in Run(b).evidence
  {
    if e in Run(a).evidence {
      var i := StoredFromFirst(a, e);
      assert a[i] in b;
      var k :| 0 <= k < |b| && b[k] == a[i];
      var j := FirstPosition(b, k);
      FirstDeliveryStored(b, j);
    }
  }

  /** The documents under one id never differ in what a replay checks. */
  ghost predicate EvidenceAgrees(s: Store, t: Store, e: string) {
    && (e in s.evidence <==> e in t.evidence)
    && (e in s.evidence && e in t.evidence ==>
          t.evidence[e] == s.evidence[e].(figures := t.evidence[e].figures, closedAtMs := t.evidence[e].closedAtMs))
  }

  lemma EvidenceConfluent(a: seq<Capture>, b: seq<Capture>, e: string)
    requires OneIdentity(a) && OneIdentity(b) && SameDeliveries(a, b)
    ensures EvidenceAgrees(Run(a), Run(b), e)
  {
    SameEvidenceIds(a, b, e);
    SameEvidenceIds(b, a, e);
    if e in Run(a).evidence {
      var i := StoredFromFirst(a, e);
      var j := StoredFromFirst(b, e);
      PlannedConsistent(a);
      assert a[i] in a && b[j] in a;
      assert EvidenceInvariantHolds(EvidenceOf(a[i]), b[j]);
    }
  }

  /** Order and duplicates never show in ids, identities, hashes, versions or audited evidence. */
  lemma Confluent(a: seq<Capture>, b: seq<Capture>)
    requires OneIdentity(a) && SameDeliveries(a, b)
    ensures forall e :: EvidenceAgrees(Run(a), Run(b), e)
    ensures forall shift :: CaseAgrees(Run(a), Run(b), shift)
    ensures forall shift, e :: Audited(Run(a), shift, e) <==> Audited(Run(b), shift, e)
  {
    assert OneIdentity(b);
    RunCaptures(a);
    RunCaptures(b);
    forall e ensures EvidenceAgrees(Run(a), Run(b), e) {
      EvidenceConfluent(a, b, e);
    }
    forall shift ensures CaseAgrees(Run(a), Run(b), shift) {
      CasesConfluent(a, b, shift);
    }
    forall shift, e ensures Audited(Run(a), shift, e) <==> Audited(Run(b), shift, e) {
      OneAuditEach(a, shift, e);
      OneAuditEach(b, shift, e);
      assert IdsOf(a, shift) == IdsOf(b, shift);
    }
  }

  // --- when two orders leave the same documents --------------------------------------------------

  ghost predicate FirstsAgree(a: seq<Capture>, b: seq<Capture>) {
    forall i: nat, j: nat :: IsFirst(a, i) && IsFirst(b, j) && a[i].evidenceId == b[j].evidenceId ==>
      EvidenceOf(a[i]) == EvidenceOf(b[j])
  }

  /** Two orders store the same evidence exactly when they agree on which capture of an id comes first. */
  lemma SameEvidenceIff(a: seq<Capture>, b: seq<Capture>)
    requires OneIdentity(a) && SameDeliveries(a, b)
    ensures Run(a).evidence == Run(b).evidence <==> FirstsAgree(a, b)
  {
    assert OneIdentity(b);
    if Run(a).evidence == Run(b).evidence {
      forall i: nat, j: nat | IsFirst(a, i) && IsFirst(b, j) && a[i].evidenceId == b[j].evidenceId
        ensures EvidenceOf(a[i]) == EvidenceOf(b[j])
      {
        FirstDeliveryStored(a, i);
        FirstDeliveryStored(b, j);
      }
    }
    if FirstsAgree(a, b) {
      forall e ensures e in Run(a).evidence <==> e in Run(b).evidence {
        SameEvidenceIds(a, b, e);
        SameEvidenceIds(b, a, e);
      }
      forall e | e in Run(a).evidence ensures Run(a).evidence[e] == Run(b).evidence[e] {
        var i := StoredFromFirst(a, e);
        var j := StoredFromFirst(b, e);
      }
    }
  }

  /** The same documents first, in the same order, with the same horizon. */
  ghost predicate SameFirsts(f: seq<Capture>, g: seq<Capture>) {
    && |f| == |g|
    && (forall i :: 0 <= i < |f| ==> EvidenceOf(f[i]) == EvidenceOf(g[i]))
    && (f != [] && g != [] ==> f[0].horizonMs == g[0].horizonMs)
  }

  lemma MatchDecides(s: Store, shift: string, f: seq<Capture>, g: seq<Capture>)
    requires ShiftMatches(s, shift, f) && ShiftMatches(s, shift, g)
    ensures SameFirsts(f, g)
  {
    if f != [] {
      assert CaseOf(f) == CaseOf(g);
      forall i | 0 <= i < |f| ensures EvidenceOf(f[i]) == EvidenceOf(g[i]) {
        assert AuditedAt(f, AuditId(shift, f[i].evidenceId, i + 1));
        assert AuditId(shift, f[i].evidenceId, i + 1) in s.audits;
        assert AuditedAt(g, AuditId(shift, f[i].evidenceId, i + 1));
      }
    }
  }

  lemma SameCaseDocs(s: Store, t: Store, shift: string, f: seq<Capture>, g: seq<Capture>)
    requires CaseMatches(s, shift, f) && CaseMatches(t, shift, g) && SameFirsts(f, g)
    ensures (shift in s.cases <==> shift in t.cases) && (shift in s.alerts <==> shift in t.alerts)
    ensures shift in s.cases ==> s.cases[shift] == t.cases[shift]
    ensures shift in s.alerts ==> s.alerts[shift] == t.alerts[shift]
  {
    if f != [] {
      assert EvidenceOf(f[0]) == EvidenceOf(g[0]) && EvidenceOf(f[|f| - 1]) == EvidenceOf(g[|g| - 1]);
    }
  }

  lemma SameAuditDocs(s: Audits, t: Audits, shift: string, f: seq<Capture>, g: seq<Capture>, a: AuditId)
    requires AuditsMatch(s, shift, f) && AuditsMatch(t, shift, g) && SameFirsts(f, g) && a.shiftId == shift
    ensures a in s <==> a in t
    ensures a in s ==> s[a] == t[a]
  {
    if 1 <= a.caseVersion <= |f| {
      assert EvidenceOf(f[a.caseVersion - 1]) == EvidenceOf(g[a.caseVersion - 1]);
    }
    assert AuditedAt(f, a) <==> AuditedAt(g, a);
  }

  lemma StoredAlike(s: Store, t: Store, f: seq<Capture>, g: seq<Capture>, e: string)
    requires EvidenceMatches(s.evidence, f) && EvidenceMatches(t.evidence, g) && SameFirsts(f, g) && HasId(f, e)
    ensures e in s.evidence && e in t.evidence && s.evidence[e] == t.evidence[e]
  {
    var i :| 0 <= i < |f| && f[i].evidenceId == e;
    assert EvidenceOf(f[i]) == EvidenceOf(g[i]);
  }

  ghost predicate SameTraces(a: seq<Capture>, b: seq<Capture>) {
    forall shift :: SameFirsts(Firsts(a, shift), Firsts(b, shift))
  }

  lemma SameEvidenceDocs(s: Store, t: Store, a: seq<Capture>, b: seq<Capture>, e: string)
    requires AllMatch(s, a) && AllMatch(t, b) && SameTraces(a, b) && Known(a, e)
    ensures e in s.evidence && e in t.evidence && s.evidence[e] == t.evidence[e]
  {
    var shift :| HasId(Firsts(a, shift), e);
    var f, g := Firsts(a, shift), Firsts(b, shift);
    assert SameFirsts(f, g) && ShiftMatches(s, shift, f) && ShiftMatches(t, shift, g);
    StoredAlike(s, t, f, g, e);
  }

  lemma TracesSymmetric(a: seq<Capture>, b: seq<Capture>)
    requires SameTraces(a, b)
    ensures SameTraces(b, a)
  {
    forall shift ensures SameFirsts(Firsts(b, shift), Firsts(a, shift)) {
      assert SameFirsts(Firsts(a, shift), Firsts(b, shift));
    }
  }

  /** One store's evidence is the other's. */
  ghost predicate EvidenceWithin(s: Store, t: Store) {
    forall e :: e in s.evidence ==> e in t.evidence && s.evidence[e] == t.evidence[e]
  }

  lemma EvidenceCovered(s: Store, t: Store, a: seq<Capture>, b: seq<Capture>)
    requires AllMatch(s, a) && AllMatch(t, b) && SameTraces(a, b) && (forall e :: e in s.evidence ==> Known(a, e))
    ensures EvidenceWithin(s, t)
  {
    forall e | e in s.evidence ensures e in t.evidence && s.evidence[e] == t.evidence[e] {
      assert Known(a, e);
      SameEvidenceDocs(s, t, a, b, e);
    }
  }

  lemma SameEvidenceMaps(s: Store, t: Store, a: seq<Capture>, b: seq<Capture>)
    requires Captured(s, a) && Captured(t, b) && SameTraces(a, b)
    ensures s.evidence == t.evidence
  {
    TracesSymmetric(a, b);
    EvidenceCovered(s, t, a, b);
    EvidenceCovered(t, s, b, a);
    WithinBoth(s, t);
  }

  lemma WithinBoth(s: Store, t: Store)
    requires EvidenceWithin(s, t) && EvidenceWithin(t, s)
    ensures s.evidence == t.evidence
  {
  }

  lemma SameShiftDocs(s: Store, t: Store, a: seq<Capture>, b: seq<Capture>, shift: string)
    requires AllMatch(s, a) && AllMatch(t, b) && SameTraces(a, b)
    ensures (shift in s.cases <==> shift in t.cases) && (shift in s.alerts <==> shift in t.alerts)
    ensures shift in s.cases ==> s.cases[shift] == t.cases[shift]
    ensures shift in s.alerts ==> s.alerts[shift] == t.alerts[shift]
  {
    assert SameFirsts(Firsts(a, shift), Firsts(b, shift));
    assert ShiftMatches(s, shift, Firsts(a, shift)) && ShiftMatches(t, shift, Firsts(b, shift));
    SameCaseDocs(s, t, shift, Firsts(a, shift), Firsts(b, shift));
  }

  lemma SameCaseMaps(s: Store, t: Store, a: seq<Capture>, b: seq<Capture>)
    requires AllMatch(s, a) && AllMatch(t, b) && SameTraces(a, b)
    ensures s.cases == t.cases && s.alerts == t.alerts
  {
    forall shift
      ensures (shift in s.cases <==> shift in t.cases) && (shift in s.alerts <==> shift in t.alerts)
      ensures shift in s.cases ==> s.cases[shift] == t.cases[shift]
      ensures shift in s.alerts ==> s.alerts[shift] == t.alerts[shift]
    {
      SameShiftDocs(s, t, a, b, shift);
    }
  }

  lemma SameAuditMaps(s: Store, t: Store, a: seq<Capture>, b: seq<Capture>)
    requires AllMatch(s, a) && AllMatch(t, b) && SameTraces(a, b)
    ensures s.audits == t.audits
  {
    forall id: AuditId ensures id in s.audits <==> id in t.audits
      ensures id in s.audits ==> s.audits[id] == t.audits[id]
    {
      var f, g := Firsts(a, id.shiftId), Firsts(b, id.shiftId);
      assert SameFirsts(f, g) && ShiftMatches(s, id.shiftId, f) && ShiftMatches(t, id.shiftId, g);
      SameAuditDocs(s.audits, t.audits, id.shiftId, f, g, id);
    }
  }

  lemma TracesDecided(s: Store, a: seq<Capture>, b: seq<Capture>)
    requires AllMatch(s, a) && AllMatch(s, b)
    ensures SameTraces(a, b)
  {
    forall shift ensures SameFirsts(Firsts(a, shift), Firsts(b, shift)) {
      assert ShiftMatches(s, shift, Firsts(a, shift)) && ShiftMatches(s, shift, Firsts(b, shift));
      MatchDecides(s, shift, Firsts(a, shift), Firsts(b, shift));
    }
  }

  /** All documents alike exactly when every shift's new captures come in the same order with the same contents. */
  lemma SameDocumentsIff(a: seq<Capture>, b: seq<Capture>)
    requires OneIdentity(a) && OneIdentity(b)
    ensures Run(a) == Run(b) <==> SameTraces(a, b)
  {
    RunCaptures(a);
    RunCaptures(b);
    if Run(a) == Run(b) {
      TracesDecided(Run(a), a, b);
    }
    if SameTraces(a, b) {
      SameEvidenceMaps(Run(a), Run(b), a, b);
      SameCaseMaps(Run(a), Run(b), a, b);
      SameAuditMaps(Run(a), Run(b), a, b);
    }
  }

  /** Two captures the hash does not tell apart: the second is a no-op, and the order shows in the stored evidence. */
  lemma HashMissesFigures(x: Capture, y: Capture)
    requires OneIdentity([x, y]) && x.evidenceId == y.evidenceId && EvidenceOf(x) != EvidenceOf(y)
    ensures SameDeliveries([x, y], [y, x])
    ensures DecisionFor(Run([x]), y) == NoOp
    ensures Run([x, y]).evidence != Run([y, x]).evidence
  {
    assert x in [x, y] && y in [x, y] && x in [y, x] && y in [y, x];
    assert OneIdentity([y, x]);
    FirstDeliveryStored([x, y], 0);
    FirstDeliveryStored([y, x], 0);
    PlannedConsistent([x, y]);
    assert EvidenceInvariantHolds(EvidenceOf(x), y);
    assert [x][..0] == [] && Run([x]) == After(EMPTY, x);
  }

  /** Such captures exist: one shift, one hash, two close times. */
  lemma HashMissesCloseTime()
    ensures exists x: Capture, y: Capture ::
              OneIdentity([x, y]) && x.evidenceId == y.evidenceId && Run([x, y]).evidence != Run([y, x]).evidence
  {
    var hash := seq(HASH_LENGTH, _ => 'a');
    var x := Capture("s", Identity("b", "f", "d"), hash, "s" + "_" + hash, "shifts/" + "s", [], Some(1), 0);
    var y := x.(closedAtMs := Some(2));
    assert OneIdentity([x, y]);
    HashMissesFigures(x, y);
  }

  /** Which capture the case names as latest depends on the order, too. */
  lemma LatestDependsOnOrder(x: Capture, y: Capture)
    requires OneIdentity([x, y]) && x.shiftId == y.shiftId && x.evidenceId != y.evidenceId
    ensures SameDeliveries([x, y], [y, x])
    ensures Run([x, y]).cases != Run([y, x]).cases
  {
    assert x in [x, y] && y in [x, y] && x in [y, x] && y in [y, x];
    assert OneIdentity([y, x]);
    TwoCaptures(x, y);
    TwoCaptures(y, x);
  }

  lemma FirstsOfTwo(x: Capture, y: Capture)
    requires x.shiftId == y.shiftId && x.evidenceId != y.evidenceId
    ensures Firsts([x, y], x.shiftId) == [x, y]
  {
    assert [] + [x] == [x] && [x] + [y] == [x, y];
    FirstsSnoc([], x, x.shiftId);
    FirstsSnoc([x], y, x.shiftId);
    assert !HasId([x], y.evidenceId);
  }

  lemma TwoCaptures(x: Capture, y: Capture)
    requires OneIdentity([x, y]) && x.shiftId == y.shiftId && x.evidenceId != y.evidenceId
    ensures x.shiftId in Run([x, y]).cases && Run([x, y]).cases[x.shiftId].latestEvidenceId == y.evidenceId
  {
    RunCaptures([x, y]);
    FirstsOfTwo(x, y);
    LatestOfMatch(Run([x, y]), x, y);
  }

  lemma LatestOfMatch(s: Store, x: Capture, y: Capture)
    requires AllMatch(s, [x, y]) && Firsts([x, y], x.shiftId) == [x, y]
    ensures x.shiftId in s.cases && s.cases[x.shiftId].latestEvidenceId == y.evidenceId
  {
    assert ShiftMatches(s, x.shiftId, Firsts([x, y], x.shiftId));
    assert CaseOf([x, y]).latestEvidenceId == y.evidenceId;
  }
}
