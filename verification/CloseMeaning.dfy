/** The close of a shift read off the stored records: which it accepts, and what its totals add up. */
module CloseMeaning {
  import opened Wrappers
  import opened ShiftClose
  import Arithmetic

  // --- one record ------------------------------------------------------------------------------

  /** A cash refund out of this shift's drawer by its staff member, all ids after its document. */
  ghost predicate RefundOwn(r: RawRefund, s: Shift) {
    && r.schemaVersion == 1 && r.refundId == r.docId && r.returnId == r.docId
    && r.isCash && r.fromDrawer
    && r.shiftId == s.shiftId && r.branchId == s.branchId && r.requesterStaffId == s.staffId
    && r.cashEntryId == "rfd_" + r.docId
    && r.minor.Some? && 1 <= r.minor.value <= 1000000000
  }

  /** A completed return paid back in cash in this shift by its staff member. */
  ghost predicate ReturnOwn(r: RawReturn, s: Shift) {
    && r.schemaVersion == 1 && r.returnId == r.docId && r.refundId == r.docId
    && r.completed && r.isCash
    && r.shiftId == s.shiftId && r.branchId == s.branchId && r.requesterStaffId == s.staffId
    && r.cashEntryId == "rfd_" + r.docId
    && r.minor.Some? && 1 <= r.minor.value <= 1000000000
  }

  lemma RefundParses(r: RawRefund, s: Shift)
    ensures ParseRefund(r, s) == if RefundOwn(r, s) then Some(Fact(r.docId, r.minor.value)) else None
  {
  }

  lemma ReturnParses(r: RawReturn, s: Shift)
    ensures ParseReturn(r, s) == if ReturnOwn(r, s) then Some(Fact(r.docId, r.minor.value)) else None
  {
  }

  ghost predicate EntryOwn(e: RawEntry) {
    e.RawEntry? && e.id != "" && e.kind.Some? && e.minor.Some? && 1 <= e.minor.value <= 1000000000
  }

  /** An entry the server writes for a refund. */
  ghost predicate ServerId(id: string) {
    |id| >= 4 && id[0] == 'r' && id[1] == 'f' && id[2] == 'd' && id[3] == '_'
  }

  lemma EntryMeaning(e: RawEntry)
    ensures EntryAcceptable(e) <==> EntryOwn(e)
    ensures e.RawEntry? ==> (IsServer(e.id) <==> ServerId(e.id))
  {
  }

  /** A list, absent or present, of at most a thousand good entries, no id twice. */
  lemma FoldableIff(raw: RawEntries)
    ensures Foldable(raw) <==>
            && !raw.NotAList? && |ListOf(raw)| <= 1000
            && (forall i :: 0 <= i < |ListOf(raw)| ==> EntryOwn(ListOf(raw)[i]))
            && (forall i, j :: 0 <= i < j < |ListOf(raw)| && ListOf(raw)[i].RawEntry? && ListOf(raw)[j].RawEntry? ==>
                  ListOf(raw)[i].id != ListOf(raw)[j].id)
  {
  }

  // --- the match -------------------------------------------------------------------------------

  ghost predicate RefundIdsDistinct(refunds: seq<RawRefund>) {
    forall i, j :: 0 <= i < j < |refunds| ==> refunds[i].docId != refunds[j].docId
  }

  ghost predicate ReturnIdsDistinct(saleReturns: seq<RawReturn>) {
    forall i, j :: 0 <= i < j < |saleReturns| ==> saleReturns[i].docId != saleReturns[j].docId
  }

  ghost predicate HasReturn(saleReturns: seq<RawReturn>, r: RawRefund) {
    exists j :: 0 <= j < |saleReturns| && saleReturns[j].docId == r.docId && saleReturns[j].minor == r.minor
  }

  ghost predicate HasRefund(refunds: seq<RawRefund>, docId: string) {
    exists i :: 0 <= i < |refunds| && refunds[i].docId == docId
  }

  ghost predicate EveryReturned(refunds: seq<RawRefund>, saleReturns: seq<RawReturn>) {
    forall i :: 0 <= i < |refunds| ==> HasReturn(saleReturns, refunds[i])
  }

  ghost predicate EveryRefunded(refunds: seq<RawRefund>, saleReturns: seq<RawReturn>) {
    forall j :: 0 <= j < |saleReturns| ==> HasRefund(refunds, saleReturns[j].docId)
  }

  /** Every refund is its own, has its return and its pay-out entry; and no return or server entry is left over. */
  ghost predicate OneToOneToOne(s: Shift, entries: seq<RawEntry>, refunds: seq<RawRefund>, saleReturns: seq<RawReturn>)
  {
    && (forall i :: 0 <= i < |refunds| ==>
          && RefundOwn(refunds[i], s) && HasReturn(saleReturns, refunds[i])
          && RawEntry("rfd_" + refunds[i].docId, Some(PayOut), refunds[i].minor) in entries)
    && (forall j :: 0 <= j < |saleReturns| ==> ReturnOwn(saleReturns[j], s) && HasRefund(refunds, saleReturns[j].docId))
    && RefundIdsDistinct(refunds) && ReturnIdsDistinct(saleReturns)
    && (forall k :: 0 <= k < |entries| && EntryOwn(entries[k]) && ServerId(entries[k].id) ==>
          HasRefund(refunds, entries[k].id[4..]))
  }

  // --- an audited shift matches ------------------------------------------------------------------

  lemma RefundFact(refunds: seq<RawRefund>, s: Shift, amounts: Amounts, i: nat)
    requires Lists(ParseRefunds(refunds, s), amounts) && i < |refunds|
    ensures RefundOwn(refunds[i], s) && refunds[i].docId in amounts
    ensures ParseRefunds(refunds, s)[i] == Some(Fact(refunds[i].docId, refunds[i].minor.value))
    ensures refunds[i].minor == Some(amounts[refunds[i].docId])
  {
    assert ParseRefunds(refunds, s)[i] in ParseRefunds(refunds, s);
    RefundParses(refunds[i], s);
  }

  lemma ReturnFact(saleReturns: seq<RawReturn>, s: Shift, amounts: Amounts, j: nat)
    requires Lists(ParseReturns(saleReturns, s), amounts) && j < |saleReturns|
    ensures ReturnOwn(saleReturns[j], s) && saleReturns[j].docId in amounts
    ensures ParseReturns(saleReturns, s)[j] == Some(Fact(saleReturns[j].docId, saleReturns[j].minor.value))
    ensures saleReturns[j].minor == Some(amounts[saleReturns[j].docId])
  {
    assert ParseReturns(saleReturns, s)[j] in ParseReturns(saleReturns, s);
    ReturnParses(saleReturns[j], s);
  }

  lemma RefundOf(refunds: seq<RawRefund>, s: Shift, amounts: Amounts, id: string)
    requires Lists(ParseRefunds(refunds, s), amounts) && id in amounts
    ensures HasRefund(refunds, id)
  {
    var facts := ParseRefunds(refunds, s);
    assert Some(Fact(id, amounts[id])) in facts;
    var i :| 0 <= i < |facts| && facts[i] == Some(Fact(id, amounts[id]));
    RefundFact(refunds, s, amounts, i);
  }

  lemma ReturnFor(saleReturns: seq<RawReturn>, s: Shift, amounts: Amounts, r: RawRefund)
    requires Lists(ParseReturns(saleReturns, s), amounts) && r.docId in amounts && r.minor == Some(amounts[r.docId])
    ensures HasReturn(saleReturns, r)
  {
    var facts := ParseReturns(saleReturns, s);
    assert Some(Fact(r.docId, amounts[r.docId])) in facts;
    var j :| 0 <= j < |facts| && facts[j] == Some(Fact(r.docId, amounts[r.docId]));
    ReturnFact(saleReturns, s, amounts, j);
  }

  lemma EntryFor(entries: seq<RawEntry>, m: map<string, ServerEntry>, amounts: Amounts, id: string)
    requires AllAcceptable(entries) && ServerEntries(entries, m) && DrawerLists(m, amounts) && id in amounts
    ensures RawEntry("rfd_" + id, Some(PayOut), Some(amounts[id])) in entries
  {
    assert EntryId(id) == "rfd_" + id && EntryId(id) in m;
    var k :| 0 <= k < |entries| && EntryAcceptable(entries[k]) && entries[k].id == EntryId(id);
    assert entries[k] == RawEntry("rfd_" + id, Some(PayOut), Some(amounts[id]));
  }

  lemma RefundIds(refunds: seq<RawRefund>, s: Shift, amounts: Amounts)
    requires Lists(ParseRefunds(refunds, s), amounts)
    ensures RefundIdsDistinct(refunds)
  {
    forall i, j | 0 <= i < j < |refunds| ensures refunds[i].docId != refunds[j].docId {
      RefundFact(refunds, s, amounts, i);
      RefundFact(refunds, s, amounts, j);
      ListsDistinct(ParseRefunds(refunds, s), amounts, i, j);
    }
  }

  lemma ReturnIds(saleReturns: seq<RawReturn>, s: Shift, amounts: Amounts)
    requires Lists(ParseReturns(saleReturns, s), amounts)
    ensures ReturnIdsDistinct(saleReturns)
  {
    forall i, j | 0 <= i < j < |saleReturns| ensures saleReturns[i].docId != saleReturns[j].docId {
      ReturnFact(saleReturns, s, amounts, i);
      ReturnFact(saleReturns, s, amounts, j);
      ListsDistinct(ParseReturns(saleReturns, s), amounts, i, j);
    }
  }

  lemma ServerEntryHasRefund(s: Shift, entries: seq<RawEntry>, refunds: seq<RawRefund>, m: map<string, ServerEntry>,
                             amounts: Amounts, k: nat)
    requires Lists(ParseRefunds(refunds, s), amounts) && ServerEntries(entries, m) && DrawerLists(m, amounts)
    requires k < |entries| && EntryOwn(entries[k]) && ServerId(entries[k].id)
    ensures HasRefund(refunds, entries[k].id[4..])
  {
    EntryMeaning(entries[k]);
    assert entries[k].id in m;
    var id :| id in amounts && EntryId(id) == entries[k].id;
    RefundOf(refunds, s, amounts, id);
  }

  lemma MatchedIs(s: Shift, entries: seq<RawEntry>, refunds: seq<RawRefund>, saleReturns: seq<RawReturn>,
                  m: map<string, ServerEntry>, amounts: Amounts)
    requires AllAcceptable(entries) && ServerEntries(entries, m) && Matched(refunds, saleReturns, s, m, amounts)
    ensures OneToOneToOne(s, entries, refunds, saleReturns)
  {
    forall i | 0 <= i < |refunds|
      ensures RefundOwn(refunds[i], s) && HasReturn(saleReturns, refunds[i])
      ensures RawEntry("rfd_" + refunds[i].docId, Some(PayOut), refunds[i].minor) in entries
    {
      RefundFact(refunds, s, amounts, i);
      ReturnFor(saleReturns, s, amounts, refunds[i]);
      EntryFor(entries, m, amounts, refunds[i].docId);
    }
    forall j | 0 <= j < |saleReturns|
      ensures ReturnOwn(saleReturns[j], s) && HasRefund(refunds, saleReturns[j].docId)
    {
      ReturnFact(saleReturns, s, amounts, j);
      RefundOf(refunds, s, amounts, saleReturns[j].docId);
    }
    forall k | 0 <= k < |entries| && EntryOwn(entries[k]) && ServerId(entries[k].id)
      ensures HasRefund(refunds, entries[k].id[4..])
    {
      ServerEntryHasRefund(s, entries, refunds, m, amounts, k);
    }
    RefundIds(refunds, s, amounts);
    ReturnIds(saleReturns, s, amounts);
  }

  // --- a matching shift is audited ---------------------------------------------------------------

  lemma {:induction false} Indexed(facts: seq<Option<Fact>>) returns (amounts: Amounts)
    requires forall i :: 0 <= i < |facts| ==> facts[i].Some?
    requires forall i, j :: 0 <= i < j < |facts| ==> facts[i].value.returnId != facts[j].value.returnId
    ensures Lists(facts, amounts)
  {
    amounts := map[];
    if facts != [] {
      var n := |facts| - 1;
      var front, last := facts[..n], facts[n].value;
      var fewer := Indexed(front);
      forall id | id in fewer ensures id != last.returnId {
        assert Some(Fact(id, fewer[id])) in front;
      }
      ListsSnoc(front, fewer, last);
      assert facts == front + [Some(last)];
      amounts := fewer[last.returnId := last.minor];
    }
  }

  lemma RefundsListed(s: Shift, refunds: seq<RawRefund>) returns (amounts: Amounts)
    requires (forall i :: 0 <= i < |refunds| ==> RefundOwn(refunds[i], s)) && RefundIdsDistinct(refunds)
    ensures Lists(ParseRefunds(refunds, s), amounts)
  {
    var facts := ParseRefunds(refunds, s);
    forall i | 0 <= i < |refunds| ensures facts[i] == Some(Fact(refunds[i].docId, refunds[i].minor.value)) {
      RefundParses(refunds[i], s);
    }
    amounts := Indexed(facts);
  }

  lemma ReturnsListed(s: Shift, saleReturns: seq<RawReturn>) returns (amounts: Amounts)
    requires (forall j :: 0 <= j < |saleReturns| ==> ReturnOwn(saleReturns[j], s)) && ReturnIdsDistinct(saleReturns)
    ensures Lists(ParseReturns(saleReturns, s), amounts)
  {
    var facts := ParseReturns(saleReturns, s);
    forall j | 0 <= j < |saleReturns|
      ensures facts[j] == Some(Fact(saleReturns[j].docId, saleReturns[j].minor.value))
    {
      ReturnParses(saleReturns[j], s);
    }
    amounts := Indexed(facts);
  }

  lemma RefundInReturns(s: Shift, refunds: seq<RawRefund>, saleReturns: seq<RawReturn>, a: Amounts, b: Amounts,
                        id: string)
    requires EveryReturned(refunds, saleReturns)
    requires Lists(ParseRefunds(refunds, s), a) && Lists(ParseReturns(saleReturns, s), b) && id in a
    ensures id in b && b[id] == a[id]
  {
    RefundOf(refunds, s, a, id);
    var i :| 0 <= i < |refunds| && refunds[i].docId == id;
    RefundFact(refunds, s, a, i);
    var j :| 0 <= j < |saleReturns| && saleReturns[j].docId == id && saleReturns[j].minor == refunds[i].minor;
    ReturnFact(saleReturns, s, b, j);
  }

  lemma ReturnInRefunds(s: Shift, refunds: seq<RawRefund>, saleReturns: seq<RawReturn>, a: Amounts, b: Amounts,
                        id: string)
    requires EveryRefunded(refunds, saleReturns)
    requires Lists(ParseRefunds(refunds, s), a) && Lists(ParseReturns(saleReturns, s), b) && id in b
    ensures id in a
  {
    var facts := ParseReturns(saleReturns, s);
    assert Some(Fact(id, b[id])) in facts;
    var j :| 0 <= j < |facts| && facts[j] == Some(Fact(id, b[id]));
    ReturnFact(saleReturns, s, b, j);
    var i :| 0 <= i < |refunds| && refunds[i].docId == saleReturns[j].docId;
    RefundFact(refunds, s, a, i);
  }

  lemma RefundsInReturns(s: Shift, refunds: seq<RawRefund>, saleReturns: seq<RawReturn>, a: Amounts, b: Amounts)
    requires EveryReturned(refunds, saleReturns)
    requires Lists(ParseRefunds(refunds, s), a) && Lists(ParseReturns(saleReturns, s), b)
    ensures Within(a, b)
  {
    forall id | id in a ensures id in b && b[id] == a[id] {
      RefundInReturns(s, refunds, saleReturns, a, b, id);
    }
  }

  lemma ReturnsInRefunds(s: Shift, refunds: seq<RawRefund>, saleReturns: seq<RawReturn>, a: Amounts, b: Amounts)
    requires EveryRefunded(refunds, saleReturns)
    requires Lists(ParseRefunds(refunds, s), a) && Lists(ParseReturns(saleReturns, s), b)
    ensures b.Keys <= a.Keys
  {
    forall id | id in b ensures id in a {
      ReturnInRefunds(s, refunds, saleReturns, a, b, id);
    }
  }

  ghost predicate Within(a: Amounts, b: Amounts) {
    forall id :: id in a ==> id in b && b[id] == a[id]
  }

  lemma WithinIsEqual(a: Amounts, b: Amounts)
    requires Within(a, b) && b.Keys <= a.Keys
    ensures a == b
  {
  }

  lemma {:induction false} ServerMap(entries: seq<RawEntry>) returns (m: map<string, ServerEntry>)
    requires AllAcceptable(entries) && EntryIdsDistinct(entries)
    ensures ServerEntries(entries, m)
  {
    m := map[];
    if entries != [] {
      var n := |entries| - 1;
      var fewer := ServerMap(entries[..n]);
      var f := CashFold(0, 0, 0, 0, 0, 0, fewer);
      assert entries[..n + 1] == entries;
      ServerEntriesSnoc(entries, n, f);
      m := AddEntry(f, entries[n]).serverEntries;
    }
  }

  lemma AmountInDrawer(entries: seq<RawEntry>, m: map<string, ServerEntry>, r: RawRefund, s: Shift)
    requires ServerEntries(entries, m) && RefundOwn(r, s)
    requires RawEntry("rfd_" + r.docId, Some(PayOut), r.minor) in entries
    ensures EntryId(r.docId) in m && m[EntryId(r.docId)] == ServerEntry(PayOut, r.minor.value)
  {
    assert EntryId(r.docId) == "rfd_" + r.docId;
    var k :| 0 <= k < |entries| && entries[k] == RawEntry("rfd_" + r.docId, Some(PayOut), r.minor);
    assert EntryAcceptable(entries[k]) && IsServer(entries[k].id);
  }

  lemma RefundKnown(s: Shift, refunds: seq<RawRefund>, amounts: Amounts, id: string)
    requires Lists(ParseRefunds(refunds, s), amounts) && HasRefund(refunds, id)
    ensures id in amounts
  {
    var i :| 0 <= i < |refunds| && refunds[i].docId == id;
    RefundFact(refunds, s, amounts, i);
  }

  lemma ServerIdSplits(e: string)
    requires ServerId(e)
    ensures EntryId(e[4..]) == e
  {
    assert e == e[..4] + e[4..] && e[..4] == "rfd_";
  }

  lemma DrawerInAmounts(s: Shift, entries: seq<RawEntry>, refunds: seq<RawRefund>, m: map<string, ServerEntry>,
                        amounts: Amounts, e: string)
    requires forall k :: 0 <= k < |entries| && EntryOwn(entries[k]) && ServerId(entries[k].id) ==>
               HasRefund(refunds, entries[k].id[4..])
    requires ServerEntries(entries, m) && Lists(ParseRefunds(refunds, s), amounts) && e in m
    ensures exists id :: id in amounts && EntryId(id) == e
  {
    var k :| 0 <= k < |entries| && EntryAcceptable(entries[k]) && entries[k].id == e;
    EntryMeaning(entries[k]);
    RefundKnown(s, refunds, amounts, e[4..]);
    ServerIdSplits(e);
  }

  lemma DrawerMatches(s: Shift, entries: seq<RawEntry>, refunds: seq<RawRefund>, saleReturns: seq<RawReturn>,
                      m: map<string, ServerEntry>, amounts: Amounts)
    requires OneToOneToOne(s, entries, refunds, saleReturns) && ServerEntries(entries, m)
    requires Lists(ParseRefunds(refunds, s), amounts)
    ensures DrawerLists(m, amounts)
  {
    forall id | id in amounts
      ensures EntryId(id) in m && m[EntryId(id)] == ServerEntry(PayOut, amounts[id])
    {
      RefundOf(refunds, s, amounts, id);
      var i :| 0 <= i < |refunds| && refunds[i].docId == id;
      RefundFact(refunds, s, amounts, i);
      AmountInDrawer(entries, m, refunds[i], s);
    }
    forall e | e in m ensures exists id :: id in amounts && EntryId(id) == e {
      DrawerInAmounts(s, entries, refunds, m, amounts, e);
    }
  }

  /** A shift audits exactly when its records are all its own and match one to one to one. */
  lemma AuditedIff(s: Shift, raw: RawEntries, refunds: seq<RawRefund>, saleReturns: seq<RawReturn>)
    ensures Audited(s, raw, refunds, saleReturns) <==>
            && Foldable(raw) && |refunds| <= 1000 && |saleReturns| <= 1000
            && OneToOneToOne(s, ListOf(raw), refunds, saleReturns)
  {
    var entries := ListOf(raw);
    if Audited(s, raw, refunds, saleReturns) {
      var m, amounts :| ServerEntries(entries, m) && Matched(refunds, saleReturns, s, m, amounts);
      MatchedIs(s, entries, refunds, saleReturns, m, amounts);
    } else if Foldable(raw) && OneToOneToOne(s, entries, refunds, saleReturns) {
      var amounts := RefundsListed(s, refunds);
      var others := ReturnsListed(s, saleReturns);
      RefundsInReturns(s, refunds, saleReturns, amounts, others);
      ReturnsInRefunds(s, refunds, saleReturns, amounts, others);
      WithinIsEqual(amounts, others);
      var m := ServerMap(entries);
      DrawerMatches(s, entries, refunds, saleReturns, m, amounts);
      assert Matched(refunds, saleReturns, s, m, amounts);
    }
  }

  // --- the totals ------------------------------------------------------------------------------

  /** What an entry adds to the sum of its kind and origin. */
  ghost function Part(e: RawEntry, kind: Kind, server: bool): int {
    if EntryOwn(e) && e.kind == Some(kind) && ServerId(e.id) == server then e.minor.value else 0
  }

  lemma {:induction false} PaidIsSum(entries: seq<RawEntry>, kind: Kind, server: bool)
    ensures Paid(entries, kind, server) ==
            Arithmetic.Sum(seq(|entries|, i requires 0 <= i < |entries| => Part(entries[i], kind, server)))
  {
    var parts := seq(|entries|, i requires 0 <= i < |entries| => Part(entries[i], kind, server));
    if entries != [] {
      var n := |entries| - 1;
      var front := entries[..n];
      PaidIsSum(front, kind, server);
      EntryMeaning(entries[n]);
      var fewer := seq(n, i requires 0 <= i < n => Part(front[i], kind, server));
      assert parts[..n] == fewer;
      assert Arithmetic.Sum(parts) == Arithmetic.Sum(fewer) + parts[n];
    }
  }

  ghost function Minor(r: RawRefund): int {
    if r.minor.Some? then r.minor.value else 0
  }

  lemma {:induction false} RefundTotalIsSum(s: Shift, refunds: seq<RawRefund>)
    requires forall i :: 0 <= i < |refunds| ==> RefundOwn(refunds[i], s)
    ensures FactTotal(ParseRefunds(refunds, s)) ==
            Arithmetic.Sum(seq(|refunds|, i requires 0 <= i < |refunds| => Minor(refunds[i])))
  {
    var minors := seq(|refunds|, i requires 0 <= i < |refunds| => Minor(refunds[i]));
    if refunds != [] {
      var n := |refunds| - 1;
      var front := refunds[..n];
      RefundTotalIsSum(s, front);
      RefundParses(refunds[n], s);
      var fewer := seq(n, i requires 0 <= i < n => Minor(front[i]));
      assert minors[..n] == fewer;
      assert ParseRefunds(refunds, s)[..n] == ParseRefunds(front, s);
      assert Arithmetic.Sum(minors) == Arithmetic.Sum(fewer) + minors[n];
    }
  }

  /** An audited close stays in bounds exactly when its own totals do. */
  lemma InBoundsIff(s: Shift, request: Request, raw: RawEntries, refunds: seq<RawRefund>, cash: CashFold,
                    audit: RefundAudit)
    requires Figures(s, raw, refunds, cash, audit)
    ensures var payIn, payOut := Paid(ListOf(raw), PayIn, false),
                                 Paid(ListOf(raw), PayOut, false) + FactTotal(ParseRefunds(refunds, s));
            var drawer := s.startingCash + request.expectedCash + payIn - payOut;
            InBounds(s, request, cash) <==>
              && payIn <= 1000000000000 && payOut <= 1000000000000
              && -9007199254740991 <= drawer <= 9007199254740991
              && -1000000000000 <= request.actualCashCount - drawer <= 1000000000000
  {
  }
}
