/**
  The authoritative close of a shift, in integer satang: the strict fold of the drawer's cash entries,
  the audit that pairs server refunds with returns and drawer entries, and the drawer equation.
 */
module ShiftClose {
  import opened Wrappers

  const CLOSE_MAX_CASH_ENTRIES := 1000
  const CLOSE_MAX_REFUND_RECORDS := 1000
  const MAX_ENTRY_MINOR := 1000000000
  const MAX_TOTAL_MINOR := 1000000000000
  const MAX_SAFE_INTEGER := 9007199254740991
  const SALE_RETURN_SCHEMA_VERSION := 1
  const SERVER_REFUND_ENTRY_PREFIX := "rfd_"

  datatype Kind = PayIn | PayOut

  /** A stored list element; an amount that is not an exact satang count is `None`. */
  datatype RawEntry = NotAnObject | RawEntry(id: string, kind: Option<Kind>, minor: Option<int>)

  datatype RawEntries = Absent | NotAList | Listed(entries: seq<RawEntry>)

  datatype ServerEntry = ServerEntry(kind: Kind, minor: int)

  datatype CashFold = CashFold(
    entryCount: nat,
    payIn: int,
    payOut: int,
    manualEntryCount: nat,
    manualPayIn: int,
    manualPayOut: int,
    serverEntries: map<string, ServerEntry>)

  datatype Code =
    | CashEntriesInvalid | CashEntriesOverCap | CashEntryDuplicate
    | RefundSetOverCap | RefundRecordInvalid | RefundReturnMismatch
    | RefundMissingInShift | RefundEntryMismatch | OrphanRefundEntry
    | AmountOutOfBounds

  predicate IsServer(id: string) {
    SERVER_REFUND_ENTRY_PREFIX <= id
  }

  // --- the strict fold ----------------------------------------------------------------------

  predicate EntryAcceptable(e: RawEntry) {
    e.RawEntry? && e.id != "" && e.kind.Some? && e.minor.Some? && 1 <= e.minor.value <= MAX_ENTRY_MINOR
  }

  ghost predicate AllAcceptable(entries: seq<RawEntry>) {
    forall i :: 0 <= i < |entries| ==> EntryAcceptable(entries[i])
  }

  ghost predicate EntryIdsDistinct(entries: seq<RawEntry>)
    requires AllAcceptable(entries)
  {
    forall i, j :: 0 <= i < j < |entries| ==> entries[i].id != entries[j].id
  }

  predicate Counts(e: RawEntry, kind: Kind, server: bool) {
    EntryAcceptable(e) && e.kind == Some(kind) && IsServer(e.id) == server
  }

  /** Sum of the entries of one kind, from the server's refunds or entered by hand. */
  function Paid(entries: seq<RawEntry>, kind: Kind, server: bool): int {
    if entries == [] then 0
    else
      var n := |entries| - 1;
      Paid(entries[..n], kind, server) + if Counts(entries[n], kind, server) then entries[n].minor.value else 0
  }

  function ManualCount(entries: seq<RawEntry>): nat {
    if entries == [] then 0
    else
      var n := |entries| - 1;
      ManualCount(entries[..n]) + if EntryAcceptable(entries[n]) && !IsServer(entries[n].id) then 1 else 0
  }

  /** The server's entries, by id. */
  ghost predicate ServerEntries(entries: seq<RawEntry>, m: map<string, ServerEntry>) {
    && (forall i :: 0 <= i < |entries| && EntryAcceptable(entries[i]) && IsServer(entries[i].id) ==>
          entries[i].id in m && m[entries[i].id] == ServerEntry(entries[i].kind.value, entries[i].minor.value))
    && (forall id :: id in m ==>
          && IsServer(id)
          && exists i :: 0 <= i < |entries| && EntryAcceptable(entries[i]) && entries[i].id == id)
  }

  ghost predicate Folded(entries: seq<RawEntry>, f: CashFold) {
    && f.entryCount == |entries|
    && f.payIn == Paid(entries, PayIn, true) + Paid(entries, PayIn, false)
    && f.payOut == Paid(entries, PayOut, true) + Paid(entries, PayOut, false)
    && f.manualEntryCount == ManualCount(entries)
    && f.manualPayIn == Paid(entries, PayIn, false)
    && f.manualPayOut == Paid(entries, PayOut, false)
    && ServerEntries(entries, f.serverEntries)
  }

  function ListOf(raw: RawEntries): seq<RawEntry> {
    if raw.Listed? then raw.entries else []
  }

  /** Which stored lists the fold accepts. */
  ghost predicate Foldable(raw: RawEntries) {
    && !raw.NotAList?
    && |ListOf(raw)| <= CLOSE_MAX_CASH_ENTRIES
    && AllAcceptable(ListOf(raw)) && EntryIdsDistinct(ListOf(raw))
  }

  /** Adds one accepted entry to the running totals. */
  function AddEntry(f: CashFold, e: RawEntry): CashFold
    requires EntryAcceptable(e)
  {
    var payIn := if e.kind.value == PayIn then e.minor.value else 0;
    var payOut := if e.kind.value == PayOut then e.minor.value else 0;
    var all := f.(entryCount := f.entryCount + 1, payIn := f.payIn + payIn, payOut := f.payOut + payOut);
    if IsServer(e.id) then all.(serverEntries := f.serverEntries[e.id := ServerEntry(e.kind.value, e.minor.value)])
    else all.(manualEntryCount := f.manualEntryCount + 1, manualPayIn := f.manualPayIn + payIn,
              manualPayOut := f.manualPayOut + payOut)
  }

  lemma PaidSnoc(entries: seq<RawEntry>, i: nat, kind: Kind, server: bool)
    requires i < |entries|
    ensures Paid(entries[..i + 1], kind, server) ==
            Paid(entries[..i], kind, server) + if Counts(entries[i], kind, server) then entries[i].minor.value else 0
  {
    assert entries[..i + 1][..i] == entries[..i];
  }

  lemma ServerEntriesSnoc(entries: seq<RawEntry>, i: nat, f: CashFold)
    requires i < |entries| && AllAcceptable(entries[..i + 1]) && EntryIdsDistinct(entries[..i + 1])
    requires ServerEntries(entries[..i], f.serverEntries)
    ensures ServerEntries(entries[..i + 1], AddEntry(f, entries[i]).serverEntries)
  {
    var more, now := AddEntry(f, entries[i]).serverEntries, entries[..i + 1];
    assert now[i] == entries[i];
    forall j | 0 <= j < i ensures now[j] == entries[..i][j] && entries[..i][j].id != entries[i].id {
      assert now[j].id != now[i].id;
    }
    forall id | id in more ensures IsServer(id)
      ensures exists j :: 0 <= j < i + 1 && EntryAcceptable(now[j]) && now[j].id == id
    {
      if id != entries[i].id {
        var j :| 0 <= j < i && EntryAcceptable(entries[..i][j]) && entries[..i][j].id == id;
        assert now[j].id == id;
      } else {
        assert now[i].id == id;
      }
    }
  }

  lemma FoldedSnoc(entries: seq<RawEntry>, i: nat, f: CashFold)
    requires i < |entries| && AllAcceptable(entries[..i + 1]) && EntryIdsDistinct(entries[..i + 1])
    requires Folded(entries[..i], f)
    ensures Folded(entries[..i + 1], AddEntry(f, entries[i]))
  {
    assert entries[..i + 1][i] == entries[i] && entries[..i + 1][..i] == entries[..i];
    PaidSnoc(entries, i, PayIn, true);
    PaidSnoc(entries, i, PayIn, false);
    PaidSnoc(entries, i, PayOut, true);
    PaidSnoc(entries, i, PayOut, false);
    ServerEntriesSnoc(entries, i, f);
  }

  /** The ids of the first `i` entries, none seen twice. */
  ghost predicate Seen(entries: seq<RawEntry>, i: nat, seen: set<string>)
    requires i <= |entries|
  {
    && AllAcceptable(entries[..i]) && EntryIdsDistinct(entries[..i])
    && (forall id :: id in seen <==> exists j :: 0 <= j < i && EntryAcceptable(entries[j]) && entries[j].id == id)
  }

  lemma SeenSnoc(entries: seq<RawEntry>, i: nat, seen: set<string>)
    requires i < |entries| && Seen(entries, i, seen) && EntryAcceptable(entries[i]) && entries[i].id !in seen
    ensures Seen(entries, i + 1, seen + {entries[i].id})
  {
    var now := entries[..i + 1];
    forall a, b | 0 <= a < b < i + 1 ensures now[a].id != now[b].id {
      assert now[a] == entries[..i][a];
      if b < i {
        assert now[b] == entries[..i][b];
      }
    }
    forall id ensures id in seen + {entries[i].id} <==>
                      exists j :: 0 <= j < i + 1 && EntryAcceptable(entries[j]) && entries[j].id == id {
      if id == entries[i].id {
        assert EntryAcceptable(entries[i]);
      }
    }
  }

  /** Never drops, repairs or merges an entry: accepts exactly the foldable lists. */
  method FoldShiftCashEntriesStrict(raw: RawEntries) returns (r: Result<CashFold, Code>)
    ensures r.Ok? <==> Foldable(raw)
    ensures r.Ok? ==> Folded(ListOf(raw), r.value)
    ensures r.Err? ==> r.error in {CashEntriesInvalid, CashEntriesOverCap, CashEntryDuplicate}
    ensures r == Err(CashEntriesOverCap) <==> |ListOf(raw)| > CLOSE_MAX_CASH_ENTRIES
    ensures r == Err(CashEntriesInvalid) ==>
              raw.NotAList? || exists i :: 0 <= i < |ListOf(raw)| && !EntryAcceptable(ListOf(raw)[i])
    ensures r == Err(CashEntryDuplicate) ==>
              exists i, j :: 0 <= i < j < |ListOf(raw)| && ListOf(raw)[i].RawEntry? && ListOf(raw)[j].RawEntry?
                             && ListOf(raw)[i].id == ListOf(raw)[j].id
  {
    if raw.NotAList? { return Err(CashEntriesInvalid); }
    var list := if raw.Listed? then raw.entries else [];
    if |list| > CLOSE_MAX_CASH_ENTRIES { return Err(CashEntriesOverCap); }
    var seen: set<string> := {};
    var fold := CashFold(0, 0, 0, 0, 0, 0, map[]);
    for i := 0 to |list|
      invariant Seen(list, i, seen)
      invariant Folded(list[..i], fold)
    {
      var e := list[i];
      if e.NotAnObject? || e.id == "" { return Err(CashEntriesInvalid); }
      if e.id in seen { return Err(CashEntryDuplicate); }
      if !EntryAcceptable(e) { return Err(CashEntriesInvalid); }
      SeenSnoc(list, i, seen);
      FoldedSnoc(list, i, fold);
      seen := seen + {e.id};
      fold := AddEntry(fold, e);
    }
    assert list[..|list|] == list;
    return Ok(fold);
  }

  // --- refund records -------------------------------------------------------------------------

  datatype Shift = Shift(shiftId: string, branchId: string, staffId: string, startingCash: int)

  datatype RawRefund = RawRefund(
    docId: string, schemaVersion: int, refundId: string, returnId: string, isCash: bool, fromDrawer: bool,
    shiftId: string, branchId: string, requesterStaffId: string, cashEntryId: string, minor: Option<int>)

  datatype RawReturn = RawReturn(
    docId: string, schemaVersion: int, returnId: string, completed: bool, branchId: string, requesterStaffId: string,
    isCash: bool, refundId: string, shiftId: string, cashEntryId: string, minor: Option<int>)

  /** A parsed record; its drawer entry id is determined by the return id. */
  datatype Fact = Fact(returnId: string, minor: int)

  function EntryId(returnId: string): (id: string)
    ensures IsServer(id) && id[4..] == returnId
  {
    SERVER_REFUND_ENTRY_PREFIX + returnId
  }

  predicate IsPositiveMinor(m: Option<int>) {
    m.Some? && 1 <= m.value <= MAX_ENTRY_MINOR
  }

  function ParseRefund(r: RawRefund, shift: Shift): Option<Fact> {
    if r.schemaVersion == SALE_RETURN_SCHEMA_VERSION && r.refundId == r.docId && r.returnId == r.docId &&
       r.isCash && r.fromDrawer && r.shiftId == shift.shiftId && r.branchId == shift.branchId &&
       r.requesterStaffId == shift.staffId && r.cashEntryId == EntryId(r.docId) && IsPositiveMinor(r.minor)
    then Some(Fact(r.docId, r.minor.value)) else None
  }

  function ParseReturn(r: RawReturn, shift: Shift): Option<Fact> {
    if r.schemaVersion == SALE_RETURN_SCHEMA_VERSION && r.returnId == r.docId && r.completed &&
       r.branchId == shift.branchId && r.requesterStaffId == shift.staffId &&
       r.isCash && r.refundId == r.docId && r.shiftId == shift.shiftId &&
       r.cashEntryId == EntryId(r.docId) && IsPositiveMinor(r.minor)
    then Some(Fact(r.docId, r.minor.value)) else None
  }

  function Image<R, S>(rs: seq<R>, f: R -> S): (r: seq<S>)
    ensures |r| == |rs| && forall i :: 0 <= i < |rs| ==> r[i] == f(rs[i])
  {
    if rs == [] then [] else Image(rs[..|rs| - 1], f) + [f(rs[|rs| - 1])]
  }

  function ParseRefunds(rs: seq<RawRefund>, shift: Shift): (facts: seq<Option<Fact>>)
    ensures |facts| == |rs|
  {
    Image(rs, r => ParseRefund(r, shift))
  }

  function ParseReturns(rs: seq<RawReturn>, shift: Shift): (facts: seq<Option<Fact>>)
    ensures |facts| == |rs|
  {
    Image(rs, r => ParseReturn(r, shift))
  }

  type Amounts = map<string, int>

  /** The records parse and list exactly these amounts, one record per return. */
  ghost predicate Lists(facts: seq<Option<Fact>>, amounts: Amounts) {
    && |facts| == |amounts|
    && (forall f :: f in facts ==> f.Some? && f.value.returnId in amounts && amounts[f.value.returnId] == f.value.minor)
    && (forall id :: id in amounts ==> Some(Fact(id, amounts[id])) in facts)
  }

  /** One pay-out entry per amount, and no other server entry. */
  ghost predicate DrawerLists(entries: map<string, ServerEntry>, amounts: Amounts) {
    && (forall id :: id in amounts ==>
        EntryId(id) in entries && entries[EntryId(id)] == ServerEntry(PayOut, amounts[id]))
    && (forall e :: e in entries ==> exists id :: id in amounts && EntryId(id) == e)
  }

  lemma ListsUnique(facts: seq<Option<Fact>>, a: Amounts, b: Amounts)
    requires Lists(facts, a) && Lists(facts, b)
    ensures a == b
  {
    forall id | id in a ensures id in b && b[id] == a[id] {
      assert Some(Fact(id, a[id])) in facts;
    }
    forall id | id in b ensures id in a {
      assert Some(Fact(id, b[id])) in facts;
    }
  }

  lemma {:induction false} CoverBound(ids: set<string>, facts: seq<Option<Fact>>)
    requires forall id :: id in ids ==> exists f :: f in facts && f.Some? && f.value.returnId == id
    ensures |ids| <= |facts|
  {
    if facts != [] {
      var last := facts[|facts| - 1];
      var rest := if last.Some? then ids - {last.value.returnId} else ids;
      forall id | id in rest ensures exists f :: f in facts[..|facts| - 1] && f.Some? && f.value.returnId == id {
        var f :| f in facts && f.Some? && f.value.returnId == id;
        assert f != last;
        assert facts == facts[..|facts| - 1] + [last];
      }
      CoverBound(rest, facts[..|facts| - 1]);
    } else {
      assert ids == {};
    }
  }

  /** Lists that name a return twice list nothing. */
  lemma ListsDistinct(facts: seq<Option<Fact>>, amounts: Amounts, i: nat, j: nat)
    requires Lists(facts, amounts) && i < j < |facts| && facts[i].Some? && facts[j].Some?
    ensures facts[i].value.returnId != facts[j].value.returnId
  {
    if facts[i].value.returnId == facts[j].value.returnId {
      var others := facts[..j] + facts[j + 1..];
      assert others[i] == facts[i];
      forall id | id in amounts.Keys ensures exists f :: f in others && f.Some? && f.value.returnId == id {
        var f := Some(Fact(id, amounts[id]));
        assert f in facts;
        var k :| 0 <= k < |facts| && facts[k] == f;
        if k < j {
          assert others[k] == f;
        } else if k > j {
          assert others[k - 1] == f;
        } else {
          assert facts[i] in facts && facts[j] in facts;
          assert facts[i].value.returnId == id;
        }
      }
      assert |amounts.Keys| == |amounts|;
      CoverBound(amounts.Keys, others);
    }
  }

  lemma ListsSnoc(facts: seq<Option<Fact>>, amounts: Amounts, f: Fact)
    requires Lists(facts, amounts) && f.returnId !in amounts
    ensures Lists(facts + [Some(f)], amounts[f.returnId := f.minor])
  {
    var more, longer := amounts[f.returnId := f.minor], facts + [Some(f)];
    assert longer[|facts|] == Some(f);
    forall id | id in more ensures Some(Fact(id, more[id])) in longer {
      if id != f.returnId {
        assert Some(Fact(id, amounts[id])) in facts;
      }
    }
  }

  /** Indexes parsed records by return; refuses what does not parse or comes twice. */
  method IndexFacts(facts: seq<Option<Fact>>) returns (r: Option<Amounts>)
    ensures r.Some? ==> Lists(facts, r.value)
    ensures r.None? ==> forall m :: !Lists(facts, m)
  {
    var amounts: Amounts := map[];
    for i := 0 to |facts|
      invariant Lists(facts[..i], amounts)
    {
      if facts[i].None? {
        assert facts[i] in facts;
        return None;
      }
      var f := facts[i].value;
      if f.returnId in amounts {
        Repeated(facts, i, amounts);
        return None;
      }
      ListsSnoc(facts[..i], amounts, f);
      assert facts[..i + 1] == facts[..i] + [Some(f)];
      amounts := amounts[f.returnId := f.minor];
    }
    assert facts[..|facts|] == facts;
    return Some(amounts);
  }

  lemma Repeated(facts: seq<Option<Fact>>, i: nat, amounts: Amounts)
    requires i < |facts| && facts[i].Some? && Lists(facts[..i], amounts) && facts[i].value.returnId in amounts
    ensures forall m :: !Lists(facts, m)
  {
    var id := facts[i].value.returnId;
    var earlier := Some(Fact(id, amounts[id]));
    assert earlier in facts[..i];
    var k :| 0 <= k < i && facts[..i][k] == earlier;
    forall m ensures !Lists(facts, m) {
      if Lists(facts, m) {
        ListsDistinct(facts, m, k, i);
      }
    }
  }

  // --- the audit ----------------------------------------------------------------------------------

  datatype RefundAudit = RefundAudit(refundCount: nat, refundTotal: int)

  /** Refunds, returns and drawer entries match one to one to one, amounts preserved. */
  ghost predicate Matched(refunds: seq<RawRefund>, saleReturns: seq<RawReturn>, shift: Shift,
                          entries: map<string, ServerEntry>, amounts: Amounts)
  {
    && Lists(ParseRefunds(refunds, shift), amounts)
    && Lists(ParseReturns(saleReturns, shift), amounts)
    && DrawerLists(entries, amounts)
  }

  function FactTotal(facts: seq<Option<Fact>>): int {
    if facts == [] then 0
    else FactTotal(facts[..|facts| - 1]) + if facts[|facts| - 1].Some? then facts[|facts| - 1].value.minor else 0
  }

  /** The drawer's entry for a fact, or what is wrong with it. */
  function EntryFailure(f: Fact, entries: map<string, ServerEntry>): (r: Option<Code>)
    ensures r.None? <==> EntryId(f.returnId) in entries && entries[EntryId(f.returnId)] == ServerEntry(PayOut, f.minor)
    ensures r == Some(RefundMissingInShift) <==> EntryId(f.returnId) !in entries
    ensures r.Some? ==> r.value in {RefundMissingInShift, RefundEntryMismatch}
  {
    if EntryId(f.returnId) !in entries then Some(RefundMissingInShift)
    else
      var entry := entries[EntryId(f.returnId)];
      if entry.kind != PayOut || entry.minor != f.minor then Some(RefundEntryMismatch) else None
  }

  /** Fact `i` is the first whose entry fails, with this code. */
  ghost predicate FirstFails(facts: seq<Option<Fact>>, entries: map<string, ServerEntry>, i: nat, code: Code) {
    && i < |facts| && facts[i].Some? && EntryFailure(facts[i].value, entries) == Some(code)
    && (forall j :: 0 <= j < i ==> facts[j].Some? && EntryFailure(facts[j].value, entries).None?)
  }

  method CheckEntries(facts: seq<Option<Fact>>, amounts: Amounts, entries: map<string, ServerEntry>)
    returns (r: Result<int, Code>)
    requires Lists(facts, amounts)
    ensures r.Ok? <==> DrawerLists(entries, amounts)
    ensures r.Ok? ==> r.value == FactTotal(facts)
    ensures r.Err? && r.error != OrphanRefundEntry ==> exists i: nat :: FirstFails(facts, entries, i, r.error)
    ensures r.Err? ==> r.error in {RefundMissingInShift, RefundEntryMismatch, OrphanRefundEntry}
    ensures r == Err(OrphanRefundEntry) ==>
              forall id :: id in amounts ==>
                  EntryId(id) in entries && entries[EntryId(id)] == ServerEntry(PayOut, amounts[id])
  {
    var paired: set<string> := {};
    var total := 0;
    for i := 0 to |facts|
      invariant total == FactTotal(facts[..i])
      invariant forall j :: 0 <= j < i ==> facts[j].Some? && EntryFailure(facts[j].value, entries).None?
      invariant forall e :: e in paired ==> exists id :: id in amounts && EntryId(id) == e
      invariant forall j :: 0 <= j < i ==> EntryId(facts[j].value.returnId) in paired
    {
      assert facts[i] in facts;
      assert facts[..i + 1][..i] == facts[..i];
      var f := facts[i].value;
      var failure := EntryFailure(f, entries);
      if failure.Some? {
        assert FirstFails(facts, entries, i, failure.value);
        FailureBlocks(facts, amounts, entries, i);
        return Err(failure.value);
      }
      paired := paired + {EntryId(f.returnId)};
      total := total + f.minor;
    }
    assert facts[..|facts|] == facts;
    forall id | id in amounts
      ensures EntryId(id) in paired && EntryId(id) in entries
      ensures entries[EntryId(id)] == ServerEntry(PayOut, amounts[id])
    {
      assert Some(Fact(id, amounts[id])) in facts;
    }
    var orphan := FindOrphan(entries, paired);
    if orphan { return Err(OrphanRefundEntry); }
    return Ok(total);
  }

  lemma FailureBlocks(facts: seq<Option<Fact>>, amounts: Amounts, entries: map<string, ServerEntry>, i: nat)
    requires Lists(facts, amounts) && i < |facts| && facts[i].Some? && EntryFailure(facts[i].value, entries).Some?
    ensures !DrawerLists(entries, amounts)
  {
    assert facts[i] in facts;
  }

  method FindOrphan(entries: map<string, ServerEntry>, paired: set<string>) returns (orphan: bool)
    ensures !orphan <==> forall e :: e in entries ==> e in paired
  {
    var todo := entries.Keys;
    while todo != {}
      invariant todo <= entries.Keys
      invariant forall e :: e in entries && e !in todo ==> e in paired
      decreases |todo|
    {
      var e :| e in todo;
      if e !in paired { return true; }
      todo := todo - {e};
    }
    return false;
  }

  /** Something does not parse, or comes twice. */
  ghost predicate Unlisted(facts: seq<Option<Fact>>) {
    forall m :: !Lists(facts, m)
  }

  /** Refunds and returns are lists each, but not of the same amounts. */
  ghost predicate Differ(facts: seq<Option<Fact>>, others: seq<Option<Fact>>) {
    exists a, b :: Lists(facts, a) && Lists(others, b) && a != b
  }

  lemma DifferIff(facts: seq<Option<Fact>>, others: seq<Option<Fact>>, a: Amounts, b: Amounts)
    requires Lists(facts, a) && Lists(others, b)
    ensures Differ(facts, others) <==> a != b
    ensures !Unlisted(facts) && !Unlisted(others)
  {
    forall c, d | Lists(facts, c) && Lists(others, d) ensures c == a && d == b {
      ListsUnique(facts, a, c);
      ListsUnique(others, b, d);
    }
  }

  /** Succeeds exactly on a one-to-one-to-one match within the caps. */
  method VerifyRefundAudit(shift: Shift, refunds: seq<RawRefund>, saleReturns: seq<RawReturn>,
                           entries: map<string, ServerEntry>)
    returns (r: Result<RefundAudit, Code>)
    ensures r.Err? ==> r.error != AmountOutOfBounds
    ensures r == Err(RefundSetOverCap) <==>
            |refunds| > CLOSE_MAX_REFUND_RECORDS || |saleReturns| > CLOSE_MAX_REFUND_RECORDS
    ensures r.Ok? <==> |refunds| <= CLOSE_MAX_REFUND_RECORDS && |saleReturns| <= CLOSE_MAX_REFUND_RECORDS &&
                       exists amounts :: Matched(refunds, saleReturns, shift, entries, amounts)
    ensures r == Err(RefundRecordInvalid) <==>
              && |refunds| <= CLOSE_MAX_REFUND_RECORDS && |saleReturns| <= CLOSE_MAX_REFUND_RECORDS
              && (Unlisted(ParseRefunds(refunds, shift)) || Unlisted(ParseReturns(saleReturns, shift)))
    ensures r == Err(RefundReturnMismatch) ==> Differ(ParseRefunds(refunds, shift), ParseReturns(saleReturns, shift))
    ensures r in {Err(RefundMissingInShift), Err(RefundEntryMismatch)} ==>
              && !Differ(ParseRefunds(refunds, shift), ParseReturns(saleReturns, shift))
              && exists i: nat :: FirstFails(ParseRefunds(refunds, shift), entries, i, r.error)
    ensures r.Err? ==> r.error in {RefundSetOverCap, RefundRecordInvalid, RefundReturnMismatch, RefundMissingInShift,
                                   RefundEntryMismatch, OrphanRefundEntry}
    ensures r.Ok? ==> r.value == RefundAudit(|refunds|, FactTotal(ParseRefunds(refunds, shift)))
  {
    if |refunds| > CLOSE_MAX_REFUND_RECORDS || |saleReturns| > CLOSE_MAX_REFUND_RECORDS {
      return Err(RefundSetOverCap);
    }
    var facts, others := ParseRefunds(refunds, shift), ParseReturns(saleReturns, shift);
    var byRefund := IndexFacts(facts);
    if byRefund.None? { return Err(RefundRecordInvalid); }
    var byReturn := IndexFacts(others);
    if byReturn.None? { return Err(RefundRecordInvalid); }
    DifferIff(facts, others, byRefund.value, byReturn.value);
    OnlyThese(refunds, saleReturns, shift, entries, byRefund.value, byReturn.value);
    var same := SameAmounts(byRefund.value, byReturn.value);
    if !same { return Err(RefundReturnMismatch); }
    var total := CheckEntries(facts, byRefund.value, entries);
    if total.Err? { return Err(total.error); }
    assert Matched(refunds, saleReturns, shift, entries, byRefund.value);
    return Ok(RefundAudit(|facts|, total.value));
  }

  lemma OnlyThese(refunds: seq<RawRefund>, saleReturns: seq<RawReturn>, shift: Shift, entries: map<string, ServerEntry>,
                  byRefund: Amounts, byReturn: Amounts)
    requires Lists(ParseRefunds(refunds, shift), byRefund) && Lists(ParseReturns(saleReturns, shift), byReturn)
    ensures forall m :: Matched(refunds, saleReturns, shift, entries, m) ==> m == byRefund == byReturn
  {
    forall m | Matched(refunds, saleReturns, shift, entries, m) ensures m == byRefund == byReturn {
      ListsUnique(ParseRefunds(refunds, shift), m, byRefund);
      ListsUnique(ParseReturns(saleReturns, shift), m, byReturn);
    }
  }

  /** Same size and every refund found with its amount. */
  method SameAmounts(byRefund: Amounts, byReturn: Amounts) returns (same: bool)
    ensures same <==> byRefund == byReturn
  {
    if |byRefund| != |byReturn| { return false; }
    var todo := byRefund.Keys;
    while todo != {}
      invariant todo <= byRefund.Keys
      invariant forall id :: id in byRefund && id !in todo ==> id in byReturn && byReturn[id] == byRefund[id]
      decreases |todo|
    {
      var id :| id in todo;
      if id !in byReturn || byReturn[id] != byRefund[id] { return false; }
      todo := todo - {id};
    }
    SubsetOfSameSize(byRefund.Keys, byReturn.Keys);
    return true;
  }

  lemma SubsetOfSameSize(a: set<string>, b: set<string>)
    requires a <= b && |a| == |b|
    ensures a == b
  {
    assert b == a + (b - a);
  }

  lemma ListsPermuted(facts: seq<Option<Fact>>, shuffled: seq<Option<Fact>>, amounts: Amounts)
    requires multiset(facts) == multiset(shuffled)
    ensures Lists(facts, amounts) <==> Lists(shuffled, amounts)
  {
    assert |facts| == |multiset(facts)| && |shuffled| == |multiset(shuffled)|;
    assert forall f :: f in facts <==> f in multiset(facts);
    assert forall f :: f in shuffled <==> f in multiset(shuffled);
  }

  function Removed<T>(s: seq<T>, k: nat): (r: seq<T>)
    requires k < |s|
    ensures |r| == |s| - 1
  {
    s[..k] + s[k + 1..]
  }

  lemma RemovedMultiset<T>(s: seq<T>, k: nat)
    requires k < |s|
    ensures multiset(s) == multiset(Removed(s, k)) + multiset{s[k]}
  {
    assert s == s[..k] + ([s[k]] + s[k + 1..]);
  }

  lemma ImageRemoved<R, S>(rs: seq<R>, k: nat, f: R -> S)
    requires k < |rs|
    ensures Image(Removed(rs, k), f) == Removed(Image(rs, f), k)
  {
    var a, b := Image(Removed(rs, k), f), Removed(Image(rs, f), k);
    forall i | 0 <= i < |a| ensures a[i] == b[i] {
      RemovedAt(rs, k, i);
      RemovedAt(Image(rs, f), k, i);
    }
  }

  lemma RemovedAt<T>(s: seq<T>, k: nat, i: nat)
    requires k < |s| && i < |s| - 1
    ensures Removed(s, k)[i] == s[if i < k then i else i + 1]
  {
  }

  lemma ImageMultiset<R, S>(rs: seq<R>, k: nat, f: R -> S)
    requires k < |rs|
    ensures multiset(Image(rs, f)) == multiset(Image(Removed(rs, k), f)) + multiset{f(rs[k])}
  {
    ImageRemoved(rs, k, f);
    RemovedMultiset(Image(rs, f), k);
  }

  lemma PermutedRest<T>(s: seq<T>, t: seq<T>) returns (k: nat)
    requires multiset(s) == multiset(t) && s != []
    ensures k < |t| && t[k] == s[0] && multiset(Removed(s, 0)) == multiset(Removed(t, k))
  {
    assert s[0] in multiset(t);
    k :| 0 <= k < |t| && t[k] == s[0];
    RemovedMultiset(s, 0);
    RemovedMultiset(t, k);
    assert multiset(Removed(s, 0)) == multiset(s) - multiset{s[0]};
    assert multiset(Removed(t, k)) == multiset(t) - multiset{t[k]};
  }

  lemma {:induction false} ImagePermuted<R, S>(rs: seq<R>, qs: seq<R>, f: R -> S)
    requires multiset(rs) == multiset(qs)
    ensures multiset(Image(rs, f)) == multiset(Image(qs, f))
    decreases |rs|
  {
    if rs == [] {
      assert |multiset(qs)| == 0;
    } else {
      var k := PermutedRest(rs, qs);
      ImagePermuted(Removed(rs, 0), Removed(qs, k), f);
      ImageMultiset(rs, 0, f);
      ImageMultiset(qs, k, f);
    }
  }

  /** The verdict does not depend on the order in which refunds and returns were read. */
  lemma OrderIrrelevant(refunds: seq<RawRefund>, shuffledRefunds: seq<RawRefund>,
                        saleReturns: seq<RawReturn>, shuffledReturns: seq<RawReturn>,
                        shift: Shift, entries: map<string, ServerEntry>, amounts: Amounts)
    requires multiset(refunds) == multiset(shuffledRefunds) && multiset(saleReturns) == multiset(shuffledReturns)
    ensures Matched(refunds, saleReturns, shift, entries, amounts)
            <==> Matched(shuffledRefunds, shuffledReturns, shift, entries, amounts)
  {
    ImagePermuted(refunds, shuffledRefunds, r => ParseRefund(r, shift));
    ImagePermuted(saleReturns, shuffledReturns, r => ParseReturn(r, shift));
    ListsPermuted(ParseRefunds(refunds, shift), ParseRefunds(shuffledRefunds, shift), amounts);
    ListsPermuted(ParseReturns(saleReturns, shift), ParseReturns(shuffledReturns, shift), amounts);
  }

  // --- the drawer equation -------------------------------------------------------------------------

  lemma {:induction false} PaidConcat(a: seq<RawEntry>, b: seq<RawEntry>, kind: Kind, server: bool)
    ensures Paid(a + b, kind, server) == Paid(a, kind, server) + Paid(b, kind, server)
  {
    if b == [] {
      assert a + b == a;
    } else {
      assert (a + b)[..|a + b| - 1] == a + b[..|b| - 1];
      PaidConcat(a, b[..|b| - 1], kind, server);
    }
  }

  /** Every fact has its pay-out entry and every server entry its fact. */
  ghost predicate Paired(facts: seq<Fact>, entries: seq<RawEntry>) {
    && (forall f :: f in facts ==> RawEntry(EntryId(f.returnId), Some(PayOut), Some(f.minor)) in entries)
    && (forall e :: e in entries && EntryAcceptable(e) && IsServer(e.id) ==>
        exists f :: f in facts && EntryId(f.returnId) == e.id)
  }

  ghost predicate FactsDistinct(facts: seq<Fact>) {
    forall i, j :: 0 <= i < j < |facts| ==> facts[i].returnId != facts[j].returnId
  }

  function Sum(facts: seq<Fact>): int {
    if facts == [] then 0 else Sum(facts[..|facts| - 1]) + facts[|facts| - 1].minor
  }

  lemma {:induction false} NoServerEntries(entries: seq<RawEntry>, kind: Kind)
    requires forall e :: e in entries && EntryAcceptable(e) ==> !IsServer(e.id)
    ensures Paid(entries, kind, true) == 0
  {
    if entries != [] {
      assert entries[|entries| - 1] in entries;
      NoServerEntries(entries[..|entries| - 1], kind);
    }
  }

  function Drop(entries: seq<RawEntry>, i: nat): (rest: seq<RawEntry>)
    requires i < |entries|
    ensures |rest| == |entries| - 1
    ensures forall k :: 0 <= k < |rest| ==> rest[k] == entries[if k < i then k else k + 1]
  {
    entries[..i] + entries[i + 1..]
  }

  lemma DropKeeps(entries: seq<RawEntry>, i: nat)
    requires i < |entries| && AllAcceptable(entries) && EntryIdsDistinct(entries)
    ensures AllAcceptable(Drop(entries, i)) && EntryIdsDistinct(Drop(entries, i))
    ensures forall e :: e in Drop(entries, i) <==> e in entries && e.RawEntry? && e.id != entries[i].id
  {
    var rest := Drop(entries, i);
    forall e | e in entries && e.RawEntry? && e.id != entries[i].id ensures e in rest {
      var k :| 0 <= k < |entries| && entries[k] == e;
      assert rest[if k < i then k else k - 1] == e;
    }
  }

  lemma PairedWithout(facts: seq<Fact>, entries: seq<RawEntry>, i: nat)
    requires facts != [] && FactsDistinct(facts) && Paired(facts, entries)
    requires AllAcceptable(entries) && EntryIdsDistinct(entries) && i < |entries|
    requires entries[i].id == EntryId(facts[|facts| - 1].returnId)
    ensures Paired(facts[..|facts| - 1], Drop(entries, i))
  {
    var n := |facts| - 1;
    var front, rest := facts[..n], Drop(entries, i);
    DropKeeps(entries, i);
    assert facts == front + [facts[n]];
    forall f | f in front ensures RawEntry(EntryId(f.returnId), Some(PayOut), Some(f.minor)) in rest {
      OtherFact(facts, f);
      EntryIdInjective(f.returnId, facts[n].returnId);
    }
    forall e | e in rest && EntryAcceptable(e) && IsServer(e.id)
      ensures exists f :: f in front && EntryId(f.returnId) == e.id
    {
      var f :| f in facts && EntryId(f.returnId) == e.id;
      assert f in front;
    }
  }

  lemma EntryIdInjective(a: string, b: string)
    ensures EntryId(a) == EntryId(b) <==> a == b
  {
  }

  lemma OtherFact(facts: seq<Fact>, f: Fact)
    requires facts != [] && FactsDistinct(facts) && f in facts[..|facts| - 1]
    ensures f in facts && f.returnId != facts[|facts| - 1].returnId
  {
    var k :| 0 <= k < |facts| - 1 && facts[k] == f;
  }

  /** Taking one entry out takes its amount off its own sum. */
  lemma PaidWithout(entries: seq<RawEntry>, i: nat, kind: Kind, server: bool)
    requires i < |entries|
    ensures Paid(entries, kind, server)
            == Paid(Drop(entries, i), kind, server)
               + if Counts(entries[i], kind, server) then entries[i].minor.value else 0
  {
    assert entries == entries[..i + 1] + entries[i + 1..];
    PaidConcat(entries[..i + 1], entries[i + 1..], kind, server);
    PaidSnoc(entries, i, kind, server);
    PaidConcat(entries[..i], entries[i + 1..], kind, server);
  }

  /** The last fact's entry, without which the rest still pairs. */
  lemma EntryOfLast(facts: seq<Fact>, entries: seq<RawEntry>) returns (i: nat)
    requires facts != [] && FactsDistinct(facts) && Paired(facts, entries)
    requires AllAcceptable(entries) && EntryIdsDistinct(entries)
    ensures i < |entries|
    ensures entries[i] == RawEntry(EntryId(facts[|facts| - 1].returnId), Some(PayOut), Some(facts[|facts| - 1].minor))
    ensures AllAcceptable(Drop(entries, i)) && EntryIdsDistinct(Drop(entries, i))
    ensures Paired(facts[..|facts| - 1], Drop(entries, i))
  {
    var last := facts[|facts| - 1];
    assert last in facts;
    i :| 0 <= i < |entries| && entries[i] == RawEntry(EntryId(last.returnId), Some(PayOut), Some(last.minor));
    PairedWithout(facts, entries, i);
    DropKeeps(entries, i);
  }

  /** The server's entries pay out exactly what was refunded, and pay nothing in. */
  lemma {:induction false} ServerPaysRefunds(facts: seq<Fact>, entries: seq<RawEntry>)
    requires FactsDistinct(facts) && Paired(facts, entries) && AllAcceptable(entries) && EntryIdsDistinct(entries)
    ensures Paid(entries, PayOut, true) == Sum(facts)
    ensures Paid(entries, PayIn, true) == 0
  {
    if facts == [] {
      NoServerEntries(entries, PayOut);
      NoServerEntries(entries, PayIn);
    } else {
      var n := |facts| - 1;
      var i := EntryOfLast(facts, entries);
      assert Counts(entries[i], PayOut, true) && !Counts(entries[i], PayIn, true);
      ServerPaysRefunds(facts[..n], Drop(entries, i));
      PaidWithout(entries, i, PayOut, true);
      PaidWithout(entries, i, PayIn, true);
    }
  }

  function Unwrapped(facts: seq<Option<Fact>>): (r: seq<Fact>)
    requires forall f :: f in facts ==> f.Some?
    ensures |r| == |facts| && forall i :: 0 <= i < |facts| ==> facts[i] == Some(r[i])
  {
    if facts == [] then [] else Unwrapped(facts[..|facts| - 1]) + [facts[|facts| - 1].value]
  }

  lemma {:induction false} FactTotalIsSum(facts: seq<Option<Fact>>)
    requires forall f :: f in facts ==> f.Some?
    ensures FactTotal(facts) == Sum(Unwrapped(facts))
  {
    if facts != [] {
      FactTotalIsSum(facts[..|facts| - 1]);
    }
  }

  lemma AuditPairs(facts: seq<Option<Fact>>, amounts: Amounts, entries: seq<RawEntry>, m: map<string, ServerEntry>)
    requires Lists(facts, amounts) && DrawerLists(m, amounts) && ServerEntries(entries, m)
    requires AllAcceptable(entries) && EntryIdsDistinct(entries)
    ensures FactsDistinct(Unwrapped(facts)) && Paired(Unwrapped(facts), entries)
  {
    var us := Unwrapped(facts);
    forall i, j | 0 <= i < j < |us| ensures us[i].returnId != us[j].returnId {
      ListsDistinct(facts, amounts, i, j);
    }
    forall f | f in us ensures RawEntry(EntryId(f.returnId), Some(PayOut), Some(f.minor)) in entries {
      assert Some(f) in facts;
      var i :| 0 <= i < |entries| && EntryAcceptable(entries[i]) && entries[i].id == EntryId(f.returnId);
      assert entries[i] == RawEntry(EntryId(f.returnId), Some(PayOut), Some(f.minor));
    }
    forall e | e in entries && EntryAcceptable(e) && IsServer(e.id)
      ensures exists f :: f in us && EntryId(f.returnId) == e.id
    {
      assert e.id in m;
      var id :| id in amounts && EntryId(id) == e.id;
      assert Some(Fact(id, amounts[id])) in facts;
      var k :| 0 <= k < |facts| && facts[k] == Some(Fact(id, amounts[id]));
      assert us[k] == Fact(id, amounts[id]);
    }
  }

  // --- the close -----------------------------------------------------------------------------------

  datatype Request = Request(expectedCash: int, actualCashCount: int)

  datatype Money = Money(payIn: int, payOut: int, expectedDrawer: int, variance: int)

  predicate WithinBounds(payIn: int, payOut: int, drawer: int, variance: int) {
    && payIn <= MAX_TOTAL_MINOR && payOut <= MAX_TOTAL_MINOR
    && -MAX_SAFE_INTEGER <= drawer <= MAX_SAFE_INTEGER
    && -MAX_TOTAL_MINOR <= variance <= MAX_TOTAL_MINOR
  }

  function Drawer(shift: Shift, request: Request, cash: CashFold): int {
    shift.startingCash + request.expectedCash + cash.payIn - cash.payOut
  }

  predicate InBounds(shift: Shift, request: Request, cash: CashFold) {
    var drawer := Drawer(shift, request, cash);
    WithinBounds(cash.payIn, cash.payOut, drawer, request.actualCashCount - drawer)
  }

  function PlanClose(shift: Shift, request: Request, cash: CashFold): Result<Money, Code> {
    var drawer := Drawer(shift, request, cash);
    if !InBounds(shift, request, cash) then Err(AmountOutOfBounds)
    else Ok(Money(cash.payIn, cash.payOut, drawer, request.actualCashCount - drawer))
  }

  /** The audited side of a close: foldable entries, complete record sets, and a one-to-one-to-one match. */
  ghost predicate Audited(shift: Shift, raw: RawEntries, refunds: seq<RawRefund>, saleReturns: seq<RawReturn>) {
    && Foldable(raw)
    && |refunds| <= CLOSE_MAX_REFUND_RECORDS && |saleReturns| <= CLOSE_MAX_REFUND_RECORDS
    && (exists m, amounts :: ServerEntries(ListOf(raw), m) && Matched(refunds, saleReturns, shift, m, amounts))
  }

  datatype Close = Close(money: Money, cash: CashFold, audit: RefundAudit)

  /** The figures of an audited shift: hand-made entries apart, the drawer only ever paid out the refunds. */
  ghost predicate Figures(shift: Shift, raw: RawEntries, refunds: seq<RawRefund>, cash: CashFold, audit: RefundAudit) {
    && Folded(ListOf(raw), cash)
    && audit == RefundAudit(|refunds|, FactTotal(ParseRefunds(refunds, shift)))
    && cash.payIn == cash.manualPayIn
    && cash.payOut == cash.manualPayOut + audit.refundTotal
  }

  /** Starting cash plus cash sales plus hand-made pay-ins minus hand-made pay-outs minus refunds. */
  ghost predicate DrawerEquation(shift: Shift, request: Request, c: Close) {
    && c.money.expectedDrawer == shift.startingCash + request.expectedCash
                                 + c.cash.manualPayIn - c.cash.manualPayOut - c.audit.refundTotal
    && c.money.variance == request.actualCashCount - c.money.expectedDrawer
    && c.money.payIn == c.cash.manualPayIn
    && c.money.payOut == c.cash.manualPayOut + c.audit.refundTotal
  }

  /** Fold and audit together: what the drawer took in and gave out besides sales. */
  method AuditShift(shift: Shift, raw: RawEntries, refunds: seq<RawRefund>, saleReturns: seq<RawReturn>)
    returns (r: Result<(CashFold, RefundAudit), Code>)
    ensures r.Ok? <==> Audited(shift, raw, refunds, saleReturns)
    ensures r.Ok? ==> Figures(shift, raw, refunds, r.value.0, r.value.1)
    ensures r.Err? ==> r.error != AmountOutOfBounds
  {
    var cash := FoldShiftCashEntriesStrict(raw);
    if cash.Err? { return Err(cash.error); }
    var audit := VerifyRefundAudit(shift, refunds, saleReturns, cash.value.serverEntries);
    AuditedBy(shift, raw, refunds, saleReturns, cash.value.serverEntries);
    if audit.Err? { return Err(audit.error); }
    ghost var amounts :| Matched(refunds, saleReturns, shift, cash.value.serverEntries, amounts);
    RefundsOfDrawer(ParseRefunds(refunds, shift), amounts, ListOf(raw), cash.value.serverEntries);
    return Ok((cash.value, audit.value));
  }

  /** A close is accepted exactly when it audits and stays within bounds, and then its drawer equation holds. */
  method CloseShift(shift: Shift, request: Request, raw: RawEntries, refunds: seq<RawRefund>,
                    saleReturns: seq<RawReturn>)
    returns (r: Result<Close, Code>)
    ensures r.Ok? ==> Audited(shift, raw, refunds, saleReturns)
    ensures r.Ok? ==> Figures(shift, raw, refunds, r.value.cash, r.value.audit)
    ensures r.Ok? ==> DrawerEquation(shift, request, r.value)
    ensures r.Ok? ==> InBounds(shift, request, r.value.cash)
    ensures r.Err? && r.error != AmountOutOfBounds ==> !Audited(shift, raw, refunds, saleReturns)
    ensures r == Err(AmountOutOfBounds) ==>
              && Audited(shift, raw, refunds, saleReturns)
              && exists cash, audit :: Figures(shift, raw, refunds, cash, audit) && !InBounds(shift, request, cash)
  {
    var audited := AuditShift(shift, raw, refunds, saleReturns);
    if audited.Err? { return Err(audited.error); }
    var (cash, audit) := audited.value;
    assert Figures(shift, raw, refunds, cash, audit);
    var money := PlanClose(shift, request, cash);
    if money.Err? { return Err(money.error); }
    return Ok(Close(money.value, cash, audit));
  }

  lemma ServerEntriesUnique(entries: seq<RawEntry>, a: map<string, ServerEntry>, b: map<string, ServerEntry>)
    requires ServerEntries(entries, a) && ServerEntries(entries, b)
    ensures a == b
  {
    forall id | id in a ensures id in b && b[id] == a[id] {
      var i :| 0 <= i < |entries| && EntryAcceptable(entries[i]) && entries[i].id == id;
    }
    forall id | id in b ensures id in a {
      var i :| 0 <= i < |entries| && EntryAcceptable(entries[i]) && entries[i].id == id;
    }
  }

  lemma AuditedBy(shift: Shift, raw: RawEntries, refunds: seq<RawRefund>, saleReturns: seq<RawReturn>,
                  m: map<string, ServerEntry>)
    requires Foldable(raw) && ServerEntries(ListOf(raw), m)
    ensures Audited(shift, raw, refunds, saleReturns) <==>
            |refunds| <= CLOSE_MAX_REFUND_RECORDS && |saleReturns| <= CLOSE_MAX_REFUND_RECORDS &&
            exists amounts :: Matched(refunds, saleReturns, shift, m, amounts)
  {
    if Audited(shift, raw, refunds, saleReturns) {
      var n, amounts :| ServerEntries(ListOf(raw), n) && Matched(refunds, saleReturns, shift, n, amounts);
      ServerEntriesUnique(ListOf(raw), m, n);
    }
  }

  lemma RefundsOfDrawer(facts: seq<Option<Fact>>, amounts: Amounts, entries: seq<RawEntry>, m: map<string, ServerEntry>)
    requires Lists(facts, amounts) && DrawerLists(m, amounts) && ServerEntries(entries, m)
    requires AllAcceptable(entries) && EntryIdsDistinct(entries)
    ensures Paid(entries, PayOut, true) == FactTotal(facts) && Paid(entries, PayIn, true) == 0
  {
    AuditPairs(facts, amounts, entries, m);
    ServerPaysRefunds(Unwrapped(facts), entries);
    FactTotalIsSum(facts);
  }
}
