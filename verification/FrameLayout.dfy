/** Where each field of the two binary frames stands, byte by byte, for every accepted frame. */
module FrameLayout {
  import opened Wrappers
  import opened Bytes
  import Paa1
  import Oks1

  // --- numbers and texts at a place -------------------------------------------------------------

  /** A 16-bit number, lowest byte first. */
  ghost predicate Spells2(bytes: seq<Byte>, at: nat, v: int) {
    at + 2 <= |bytes| && v == bytes[at] as int + 0x100 * bytes[at + 1] as int
  }

  function Low4(bytes: seq<Byte>, at: nat): int
    requires at + 4 <= |bytes|
  {
    bytes[at] as int + 0x100 * bytes[at + 1] as int + 0x1_0000 * bytes[at + 2] as int
    + 0x100_0000 * bytes[at + 3] as int
  }

  ghost predicate Spells4(bytes: seq<Byte>, at: nat, v: int) {
    at + 4 <= |bytes| && v == Low4(bytes, at)
  }

  ghost predicate Spells8(bytes: seq<Byte>, at: nat, v: int) {
    at + 8 <= |bytes| && v == Low4(bytes, at) + 0x1_0000_0000 * Low4(bytes, at + 4)
  }

  /** The seven low bits of each byte are the characters of `s`. */
  ghost predicate ReadsAs(bytes: seq<Byte>, at: nat, s: string) {
    at + |s| <= |bytes| && forall k :: 0 <= k < |s| ==> s[k] as int == bytes[at + k] % 128
  }

  lemma TwoBytes(bytes: seq<Byte>)
    requires |bytes| == 2
    ensures FromLe(bytes) == bytes[0] as int + 0x100 * bytes[1] as int
  {
    FirstByte(bytes);
    FirstByte(bytes[1..]);
    assert bytes[1..][1..] == [];
  }

  lemma FirstByte(bytes: seq<Byte>)
    requires bytes != []
    ensures FromLe(bytes) == bytes[0] + 0x100 * FromLe(bytes[1..])
  {
  }

  lemma TwoThenRest(bytes: seq<Byte>)
    requires |bytes| >= 2
    ensures FromLe(bytes) == bytes[0] as int + 0x100 * bytes[1] as int + 0x1_0000 * FromLe(bytes[2..])
  {
    FirstByte(bytes);
    FirstByte(bytes[1..]);
    assert bytes[1..][1..] == bytes[2..];
  }

  lemma FourThenRest(bytes: seq<Byte>)
    requires |bytes| >= 4
    ensures FromLe(bytes) == Low4(bytes, 0) + 0x1_0000_0000 * FromLe(bytes[4..])
  {
    TwoThenRest(bytes);
    TwoThenRest(bytes[2..]);
    assert bytes[2..][2..] == bytes[4..];
  }

  lemma FourBytes(bytes: seq<Byte>)
    requires |bytes| == 4
    ensures Spells4(bytes, 0, FromLe(bytes))
  {
    FourThenRest(bytes);
  }

  lemma EightBytes(bytes: seq<Byte>)
    requires |bytes| == 8
    ensures Spells8(bytes, 0, FromLe(bytes))
  {
    FourThenRest(bytes);
    FourThenRest(bytes[4..]);
    assert bytes[4..][4..] == [];
  }

  // --- from a slice to the whole --------------------------------------------------------------------

  lemma Slice2(bytes: seq<Byte>, i: nat, j: nat, at: nat, v: nat)
    requires i <= j <= |bytes| && Spells2(bytes[i..j], at, v)
    ensures Spells2(bytes, i + at, v)
  {
  }

  lemma Slice4(bytes: seq<Byte>, i: nat, j: nat, at: nat, v: nat)
    requires i <= j <= |bytes| && Spells4(bytes[i..j], at, v)
    ensures Spells4(bytes, i + at, v)
  {
  }

  lemma Slice8(bytes: seq<Byte>, i: nat, j: nat, at: nat, v: nat)
    requires i <= j <= |bytes| && Spells8(bytes[i..j], at, v)
    ensures Spells8(bytes, i + at, v)
  {
  }

  lemma SliceText(bytes: seq<Byte>, i: nat, j: nat, at: nat, s: string)
    requires i <= j <= |bytes| && ReadsAs(bytes[i..j], at, s)
    ensures ReadsAs(bytes, i + at, s)
  {
    var part := bytes[i..j];
    forall k | 0 <= k < |s| ensures s[k] as int == bytes[i + at + k] % 128 {
      assert part[at + k] == bytes[i + at + k];
    }
  }

  lemma SliceOfSlice(bytes: seq<Byte>, i: nat, j: nat, a: nat, b: nat)
    requires i <= j <= |bytes| && a <= b <= j - i
    ensures bytes[i..j][a..b] == bytes[i + a..i + b]
  {
    var x, y := bytes[i..j][a..b], bytes[i + a..i + b];
    assert |x| == |y| == b - a;
    forall k | 0 <= k < b - a ensures x[k] == y[k] {
      assert x[k] == bytes[i..j][a + k] == bytes[i + a + k];
    }
  }

  lemma RestOfRest(bytes: seq<Byte>, i: nat, j: nat)
    requires i + j <= |bytes|
    ensures bytes[i..][j..] == bytes[i + j..]
  {
  }

  lemma NumbersCount(bytes: seq<Byte>, w: nat, n: nat)
    requires w > 0 && |bytes| == w * n
    ensures |ReadNumbers(bytes, w, n)| == n
  {
    NumbersBytesBack(bytes, w, n);
  }

  lemma FirstNumber(bytes: seq<Byte>, w: nat, n: nat)
    requires 0 < w <= |bytes| && n > 0
    ensures ReadNumbers(bytes, w, n) == [FromLe(bytes[..w])] + ReadNumbers(bytes[w..], w, n - 1)
  {
  }

  lemma {:induction false} FoursAt(bytes: seq<Byte>, n: nat, i: nat)
    requires |bytes| == 4 * n && i < n
    ensures |ReadNumbers(bytes, 4, n)| == n && Spells4(bytes, 4 * i, ReadNumbers(bytes, 4, n)[i])
  {
    NumbersCount(bytes, 4, n);
    FirstNumber(bytes, 4, n);
    if i == 0 {
      FourBytes(bytes[..4]);
      Slice4(bytes, 0, 4, 0, FromLe(bytes[..4]));
    } else {
      FoursAt(bytes[4..], n - 1, i - 1);
      var v := ReadNumbers(bytes[4..], 4, n - 1)[i - 1];
      Tail4(bytes, 4 * i, v);
    }
  }

  lemma Tail4(bytes: seq<Byte>, at: nat, v: nat)
    requires 4 <= |bytes| && 4 <= at && Spells4(bytes[4..], at - 4, v)
    ensures Spells4(bytes, at, v)
  {
  }

  lemma {:induction false} EightsAt(bytes: seq<Byte>, n: nat, i: nat)
    requires |bytes| == 8 * n && i < n
    ensures |ReadNumbers(bytes, 8, n)| == n && Spells8(bytes, 8 * i, ReadNumbers(bytes, 8, n)[i])
  {
    NumbersCount(bytes, 8, n);
    FirstNumber(bytes, 8, n);
    if i == 0 {
      EightBytes(bytes[..8]);
      Slice8(bytes, 0, 8, 0, FromLe(bytes[..8]));
    } else {
      EightsAt(bytes[8..], n - 1, i - 1);
      var v := ReadNumbers(bytes[8..], 8, n - 1)[i - 1];
      Tail8(bytes, 8 * i, v);
    }
  }

  lemma Tail8(bytes: seq<Byte>, at: nat, v: nat)
    requires 8 <= |bytes| && 8 <= at && Spells8(bytes[8..], at - 8, v)
    ensures Spells8(bytes, at, v)
  {
  }

  lemma {:induction false} BlockAt(bytes: seq<Byte>, n: nat, i: nat)
    requires |bytes| == 32 * n && i < n
    ensures |ReadBlocks(bytes, 32, n)| == n && ReadBlocks(bytes, 32, n)[i] == bytes[32 * i..32 * i + 32]
  {
    BlocksBack(bytes, 32, n);
    if i > 0 {
      BlockAt(bytes[32..], n - 1, i - 1);
      SliceOfSlice(bytes, 32, |bytes|, 32 * (i - 1), 32 * i);
    }
  }

  // --- the attestation frame ----------------------------------------------------------------------

  ghost predicate IdChars(s: string) {
    forall k :: 0 <= k < |s| ==>
      'a' <= s[k] <= 'z' || 'A' <= s[k] <= 'Z' || '0' <= s[k] <= '9' || s[k] == '_' || s[k] == '-'
  }

  /** Four digits, two digits, two digits, with dashes between. */
  ghost predicate DateShape(s: string) {
    && |s| == 10 && s[4] == '-' && s[7] == '-'
    && (forall k :: 0 <= k < 10 && k != 4 && k != 7 ==> '0' <= s[k] <= '9')
  }

  ghost predicate SomeNonZero(bytes: seq<Byte>) {
    exists k :: 0 <= k < |bytes| && bytes[k] != 0
  }

  /**
    What a frame must say to be printed or accepted: among it, that nobody approves their own action,
    that it is for one branch, and that its approval window opens before everything expires.
   */
  lemma WellFormedIff(f: Paa1.Frame)
    ensures Paa1.StructuralFailure(f) == Some(Paa1.BadFieldLength) <==> !Paa1.LengthsOk(f)
    ensures Paa1.StructuralFailure(f).None? <==>
            && Paa1.LengthsOk(f) && SomeNonZero(f.attestationId)
            && f.actionKind in {1, 2} && f.approvalResultKind == 1 && f.managerRoleKind in {1, 2}
            && (forall i :: 0 <= i < 7 ==> f.versions[i] < 0x1_0000_0000)
            && (forall i :: 0 <= i < 4 ==> f.times[i] < 0x20_0000_0000_0000)
            && f.versions[0] != 0 && f.versions[1] == 1
            && 0 < f.times[1] <= f.times[2] && f.times[2] < f.times[0] && f.times[1] < f.times[3]
            && (forall i :: 0 <= i < 8 ==> 1 <= |f.ids[i]| <= 1500 && IdChars(f.ids[i]))
            && f.ids[0] != "ALL" && f.ids[1] != f.ids[2] && DateShape(f.ids[6])
  {
    if Paa1.LengthsOk(f) {
      NonZeroIff(f.attestationId);
      DateIff(f.ids[6]);
      forall i | 0 <= i < 8 ensures Paa1.IsCanonicalId(f.ids[i]) <==> 1 <= |f.ids[i]| <= 1500 && IdChars(f.ids[i]) {
      }
    }
  }

  lemma NonZeroIff(bytes: seq<Byte>)
    ensures SomeNonZero(bytes) <==> !Paa1.IsAllZero(bytes)
  {
  }

  lemma DateIff(s: string)
    ensures DateShape(s) <==> Paa1.IsDate(s)
  {
    if DateShape(s) {
      forall i | 0 <= i < 10 ensures if i == 4 || i == 7 then s[i] == '-' else Paa1.IsDigit(s[i]) {
      }
    }
    if Paa1.IsDate(s) {
      forall k | 0 <= k < 10 && k != 4 && k != 7 ensures '0' <= s[k] <= '9' {
        assert Paa1.IsDigit(s[k]);
      }
    }
  }

  /** A string after its two-byte length. */
  ghost predicate StringLaid(bytes: seq<Byte>, at: nat, s: string) {
    Spells2(bytes, at, |s|) && ReadsAs(bytes, at + 2, s)
  }

  /** The strings one after another. */
  ghost predicate StringsLaid(bytes: seq<Byte>, at: nat, ids: seq<string>)
    decreases |ids|
  {
    ids == [] || (StringLaid(bytes, at, ids[0]) && StringsLaid(bytes, at + 2 + |ids[0]|, ids[1..]))
  }

  /** Where strings laid from `at` end. */
  ghost function StringsEnd(at: nat, ids: seq<string>): nat
    decreases |ids|
  {
    if ids == [] then at else StringsEnd(at + 2 + |ids[0]|, ids[1..])
  }

  lemma StringMoved(bytes: seq<Byte>, from: nat, at: nat, s: string)
    requires from <= |bytes| && StringLaid(bytes[from..], at, s)
    ensures StringLaid(bytes, from + at, s)
  {
    Slice2(bytes, from, |bytes|, at, |s|);
    SliceText(bytes, from, |bytes|, at + 2, s);
  }

  lemma {:induction false} StringsMoved(bytes: seq<Byte>, from: nat, at: nat, ids: seq<string>)
    requires from <= |bytes| && StringsLaid(bytes[from..], at, ids)
    ensures StringsLaid(bytes, from + at, ids) && StringsEnd(from + at, ids) == from + StringsEnd(at, ids)
    decreases |ids|
  {
    if ids != [] {
      StringMoved(bytes, from, at, ids[0]);
      StringsMoved(bytes, from, at + 2 + |ids[0]|, ids[1..]);
    }
  }

  lemma PrefixedLaid(bytes: seq<Byte>)
    requires ReadPrefixed(bytes).Some?
    ensures var (field, rest) := ReadPrefixed(bytes).value;
            var s := MaskedText(field);
            StringLaid(bytes, 0, s) && 2 + |s| <= |bytes| && rest == bytes[2 + |s|..]
  {
    TwoBytes(bytes[..2]);
  }

  lemma ConsTexts(field: seq<Byte>, fields: seq<seq<Byte>>)
    ensures Paa1.IdTexts([field] + fields) == [MaskedText(field)] + Paa1.IdTexts(fields)
  {
  }

  /** What reading `n` strings says about the bytes they were read from. */
  ghost predicate ReadWhere(bytes: seq<Byte>, n: nat, ids: seq<string>, rest: seq<Byte>) {
    && |ids| == n && StringsEnd(0, ids) <= |bytes| && rest == bytes[StringsEnd(0, ids)..]
    && StringsLaid(bytes, 0, ids)
  }

  lemma ReadOneMore(bytes: seq<Byte>, n: nat, s: string, ids: seq<string>, rest: seq<Byte>)
    requires StringLaid(bytes, 0, s) && 2 + |s| <= |bytes| && ReadWhere(bytes[2 + |s|..], n, ids, rest)
    ensures ReadWhere(bytes, n + 1, [s] + ids, rest)
  {
    StringsMoved(bytes, 2 + |s|, 0, ids);
    RestOfRest(bytes, 2 + |s|, StringsEnd(0, ids));
    assert ([s] + ids)[1..] == ids;
  }

  lemma {:induction false} ReadLaid(bytes: seq<Byte>, n: nat)
    requires ReadAll(bytes, n).Some?
    ensures ReadWhere(bytes, n, Paa1.IdTexts(ReadAll(bytes, n).value.0), ReadAll(bytes, n).value.1)
  {
    if n > 0 {
      var (field, after) := ReadPrefixed(bytes).value;
      ReadLaid(after, n - 1);
      var (fields, rest) := ReadAll(after, n - 1).value;
      ConsTexts(field, fields);
      PrefixedLaid(bytes);
      ReadOneMore(bytes, n - 1, MaskedText(field), Paa1.IdTexts(fields), rest);
    }
  }

  /** The whole head of an accepted frame. */
  ghost predicate HeadLaid(bytes: seq<Byte>, f: Paa1.Frame) {
    && Paa1.LengthsOk(f) && 308 <= |bytes|
    && ReadsAs(bytes, 0, "PAA1") && bytes[4] == 1 && bytes[5..21] == f.attestationId
    && bytes[21] == f.actionKind && bytes[22] == f.approvalResultKind && bytes[23] == f.managerRoleKind
    && bytes[24..40] == f.securityDeviceId
    && (forall i :: 0 <= i < 7 ==> Spells4(bytes, 40 + 4 * i, f.versions[i]))
    && (forall i :: 0 <= i < 4 ==> Spells8(bytes, 68 + 8 * i, f.times[i]))
    && (forall i :: 0 <= i < 4 ==> bytes[100 + 32 * i..132 + 32 * i] == f.digests[i])
  }

  lemma VersionsLaid(bytes: seq<Byte>, i: nat)
    requires 228 <= |bytes| && i < 7
    ensures |ReadNumbers(bytes[40..68], 4, 7)| == 7
    ensures Spells4(bytes, 40 + 4 * i, ReadNumbers(bytes[40..68], 4, 7)[i])
  {
    FoursAt(bytes[40..68], 7, i);
    Slice4(bytes, 40, 68, 4 * i, ReadNumbers(bytes[40..68], 4, 7)[i]);
  }

  lemma TimesLaid(bytes: seq<Byte>, i: nat)
    requires 228 <= |bytes| && i < 4
    ensures |ReadNumbers(bytes[68..100], 8, 4)| == 4
    ensures Spells8(bytes, 68 + 8 * i, ReadNumbers(bytes[68..100], 8, 4)[i])
  {
    EightsAt(bytes[68..100], 4, i);
    Slice8(bytes, 68, 100, 8 * i, ReadNumbers(bytes[68..100], 8, 4)[i]);
  }

  lemma DigestsLaid(bytes: seq<Byte>, i: nat)
    requires 228 <= |bytes| && i < 4
    ensures |ReadBlocks(bytes[100..228], 32, 4)| == 4
    ensures ReadBlocks(bytes[100..228], 32, 4)[i] == bytes[100 + 32 * i..132 + 32 * i]
  {
    BlockAt(bytes[100..228], 4, i);
    SliceOfSlice(bytes, 100, 228, 32 * i, 32 * i + 32);
  }

  lemma MagicLaid(bytes: seq<Byte>, magic: string)
    requires |magic| <= |bytes|
    ensures MaskedText(bytes[..|magic|]) == magic <==> ReadsAs(bytes, 0, magic)
  {
    var text := MaskedText(bytes[..|magic|]);
    forall k | 0 <= k < |magic| ensures text[k] as int == bytes[0 + k] % 128 {
    }
    if ReadsAs(bytes, 0, magic) {
      forall k | 0 <= k < |magic| ensures text[k] == magic[k] {
        assert magic[k] as int == bytes[0 + k] % 128;
      }
    }
  }

  /** What is looked at first: the length, then the magic, then the version. */
  lemma Paa1Refused(bytes: seq<Byte>)
    ensures |bytes| < 308 ==> Paa1.Decode(bytes) == Err(Paa1.WrongTotalLength)
    ensures 308 <= |bytes| ==> (Paa1.Decode(bytes) == Err(Paa1.BadMagic) <==> !ReadsAs(bytes, 0, "PAA1"))
    ensures 308 <= |bytes| && ReadsAs(bytes, 0, "PAA1") ==>
              (Paa1.Decode(bytes) == Err(Paa1.BadVersion) <==> bytes[4] != 1)
  {
    if 308 <= |bytes| {
      MagicLaid(bytes, "PAA1");
    }
  }

  lemma HeadSlicesLaid(bytes: seq<Byte>, f: Paa1.Frame)
    requires 308 <= |bytes| && MaskedText(bytes[..4]) == "PAA1" && bytes[4] == 1 && Paa1.LengthsOk(f)
    requires f == Paa1.FrameOf(bytes[..228], f.ids, f.signature)
    ensures HeadLaid(bytes, f)
  {
    var head := bytes[..228];
    MagicLaid(bytes, "PAA1");
    assert head[5..21] == bytes[5..21] && head[24..40] == bytes[24..40] && head[40..68] == bytes[40..68];
    assert head[68..100] == bytes[68..100] && head[100..228] == bytes[100..228];
    forall i | 0 <= i < 7 ensures Spells4(bytes, 40 + 4 * i, f.versions[i]) {
      VersionsLaid(bytes, i);
    }
    forall i | 0 <= i < 4
      ensures Spells8(bytes, 68 + 8 * i, f.times[i]) && bytes[100 + 32 * i..132 + 32 * i] == f.digests[i]
    {
      TimesLaid(bytes, i);
      DigestsLaid(bytes, i);
    }
  }

  lemma DecodedIs(bytes: seq<Byte>)
    requires Paa1.Decode(bytes).Ok?
    ensures 308 <= |bytes| && MaskedText(bytes[..4]) == "PAA1" && bytes[4] == 1
    ensures ReadAll(bytes[228..], 8).Some? && |ReadAll(bytes[228..], 8).value.1| == 64
    ensures var f := Paa1.Decode(bytes).value;
            && f == Paa1.FrameOf(bytes[..228], f.ids, f.signature) && Paa1.StructuralFailure(f).None?
            && f.ids == Paa1.IdTexts(ReadAll(bytes[228..], 8).value.0)
            && f.signature == ReadAll(bytes[228..], 8).value.1
  {
  }

  /** Every field of an accepted attestation, at its byte. */
  lemma Paa1Layout(bytes: seq<Byte>)
    requires Paa1.Decode(bytes).Ok?
    ensures var f := Paa1.Decode(bytes).value;
            && HeadLaid(bytes, f) && StringsLaid(bytes, 228, f.ids) && |f.ids| == 8
            && |bytes| == StringsEnd(228, f.ids) + 64 && f.signature == bytes[StringsEnd(228, f.ids)..]
  {
    DecodedIs(bytes);
    var f := Paa1.Decode(bytes).value;
    HeadSlicesLaid(bytes, f);
    ReadLaid(bytes[228..], 8);
    StringsMoved(bytes, 228, 0, f.ids);
    RestOfRest(bytes, 228, StringsEnd(0, f.ids));
  }

  // --- the key-set manifest -----------------------------------------------------------------------

  ghost function StatusLength(s: Oks1.Status): nat {
    if s.VerifyOnly? then 9 else 1
  }

  ghost function KeyLength(k: Oks1.Key): nat {
    2 + |k.id| + 32 + StatusLength(k.status)
  }

  /** Where keys laid from `at` end. */
  ghost function KeysEnd(at: nat, keys: seq<Oks1.Key>): nat
    decreases |keys|
  {
    if keys == [] then at else KeysEnd(at + KeyLength(keys[0]), keys[1..])
  }

  /** One byte for the status: 1 active, 2 verify-only with its time after it, 3 retired. */
  ghost predicate StatusLaid(bytes: seq<Byte>, at: nat, s: Oks1.Status) {
    && at < |bytes|
    && (s.Active? ==> bytes[at] == 1)
    && (s.Retired? ==> bytes[at] == 3)
    && (s.VerifyOnly? ==> bytes[at] == 2 && Spells8(bytes, at + 1, s.until) && 1 <= s.until < 0x20_0000_0000_0000)
  }

  ghost predicate KeyLaid(bytes: seq<Byte>, at: nat, k: Oks1.Key) {
    && Spells2(bytes, at, |k.id|) && 1 <= |k.id| <= 1500 && ReadsAs(bytes, at + 2, k.id) && IdChars(k.id)
    && at + KeyLength(k) <= |bytes|
    && bytes[at + 2 + |k.id|..at + 34 + |k.id|] == k.publicKey
    && StatusLaid(bytes, at + 34 + |k.id|, k.status)
  }

  /** The keys one after another. */
  ghost predicate KeysLaid(bytes: seq<Byte>, at: nat, keys: seq<Oks1.Key>)
    decreases |keys|
  {
    keys == [] || (KeyLaid(bytes, at, keys[0]) && KeysLaid(bytes, at + KeyLength(keys[0]), keys[1..]))
  }

  lemma StatusRead(bytes: seq<Byte>)
    requires Oks1.ReadStatus(bytes).Ok?
    ensures var (s, rest) := Oks1.ReadStatus(bytes).value;
            StatusLaid(bytes, 0, s) && StatusLength(s) <= |bytes| && rest == bytes[StatusLength(s)..]
  {
    if bytes[0] == 2 {
      EightBytes(bytes[1..9]);
    }
  }

  lemma IdRead(bytes: seq<Byte>)
    requires Oks1.ReadId(bytes).Some?
    ensures var (id, rest) := Oks1.ReadId(bytes).value;
            && Spells2(bytes, 0, |id|) && ReadsAs(bytes, 2, id) && 1 <= |id| <= 1500
            && 2 + |id| <= |bytes| && rest == bytes[2 + |id|..]
  {
    TwoBytes(bytes[..2]);
  }

  lemma KeyRead(bytes: seq<Byte>, seen: set<string>)
    requires Oks1.ReadKey(bytes, seen).Ok?
    ensures var (k, rest) := Oks1.ReadKey(bytes, seen).value;
            KeyLaid(bytes, 0, k) && k.id !in seen && rest == bytes[KeyLength(k)..]
  {
    IdRead(bytes);
    var (id, after) := Oks1.ReadId(bytes).value;
    StatusRead(after[32..]);
    var (s, rest) := Oks1.ReadStatus(after[32..]).value;
    var tail := after[32..];
    assert after[..32] == bytes[2 + |id|..34 + |id|] && tail == bytes[34 + |id|..];
    assert forall j :: 0 <= j < |tail| ==> tail[j] == bytes[34 + |id| + j];
  }

  lemma ShiftedKey(bytes: seq<Byte>, from: nat, at: nat, k: Oks1.Key)
    requires from <= |bytes| && KeyLaid(bytes[from..], at, k)
    ensures KeyLaid(bytes, from + at, k)
  {
    var tail := bytes[from..];
    var p := at + 2 + |k.id|;
    assert tail[p..p + 32] == bytes[from + p..from + p + 32];
  }

  lemma {:induction false} KeysMoved(bytes: seq<Byte>, from: nat, at: nat, keys: seq<Oks1.Key>)
    requires from <= |bytes| && KeysLaid(bytes[from..], at, keys)
    ensures KeysLaid(bytes, from + at, keys) && KeysEnd(from + at, keys) == from + KeysEnd(at, keys)
    decreases |keys|
  {
    if keys != [] {
      ShiftedKey(bytes, from, at, keys[0]);
      KeysMoved(bytes, from, at + KeyLength(keys[0]), keys[1..]);
    }
  }

  ghost predicate KeysWhere(bytes: seq<Byte>, n: nat, keys: seq<Oks1.Key>, rest: seq<Byte>) {
    && |keys| == n && KeysEnd(0, keys) <= |bytes| && rest == bytes[KeysEnd(0, keys)..]
    && KeysLaid(bytes, 0, keys)
  }

  lemma OneMoreKey(bytes: seq<Byte>, n: nat, k: Oks1.Key, keys: seq<Oks1.Key>, rest: seq<Byte>)
    requires KeyLaid(bytes, 0, k) && KeysWhere(bytes[KeyLength(k)..], n, keys, rest)
    ensures KeysWhere(bytes, n + 1, [k] + keys, rest)
  {
    KeysMoved(bytes, KeyLength(k), 0, keys);
    RestOfRest(bytes, KeyLength(k), KeysEnd(0, keys));
    assert ([k] + keys)[1..] == keys;
  }

  lemma {:induction false} KeysRead(bytes: seq<Byte>, n: nat, seen: set<string>)
    requires Oks1.ReadKeys(bytes, n, seen).Ok?
    ensures KeysWhere(bytes, n, Oks1.ReadKeys(bytes, n, seen).value.0, Oks1.ReadKeys(bytes, n, seen).value.1)
    decreases n
  {
    if n > 0 {
      KeyRead(bytes, seen);
      var (k, after) := Oks1.ReadKey(bytes, seen).value;
      KeysRead(after, n - 1, seen + {k.id});
      var (keys, rest) := Oks1.ReadKeys(after, n - 1, seen + {k.id}).value;
      OneMoreKey(bytes, n - 1, k, keys, rest);
    }
  }

  /** A key is refused for its lengths or its format only. */
  lemma {:induction false} KeysCode(bytes: seq<Byte>, n: nat, seen: set<string>)
    ensures var r := Oks1.ReadKeys(bytes, n, seen);
            r.Err? ==> r.error in {Oks1.WrongTotalLength, Oks1.BadFieldLength, Oks1.BadFieldFormat}
    decreases n
  {
    if n > 0 && Oks1.ReadKey(bytes, seen).Ok? {
      var (k, after) := Oks1.ReadKey(bytes, seen).value;
      KeysCode(after, n - 1, seen + {k.id});
    }
  }

  /** What is looked at first: the length, the magic, the version, and that there is a key. */
  lemma Oks1Refused(bytes: seq<Byte>)
    ensures |bytes| < 82 ==> Oks1.Decode(bytes) == Err(Oks1.WrongTotalLength)
    ensures 82 <= |bytes| ==> (Oks1.Decode(bytes) == Err(Oks1.BadMagic) <==> !ReadsAs(bytes, 0, "OKS1"))
    ensures 82 <= |bytes| && ReadsAs(bytes, 0, "OKS1") ==>
              (Oks1.Decode(bytes) == Err(Oks1.BadVersion) <==> bytes[4] != 2)
    ensures 82 <= |bytes| && ReadsAs(bytes, 0, "OKS1") && bytes[4] == 2 && bytes[17] == 0 ==>
              Oks1.Decode(bytes) == Err(Oks1.BadFieldLength)
  {
    if 82 <= |bytes| {
      MagicLaid(bytes, "OKS1");
      KeysCode(bytes[18..], bytes[17], {});
    }
  }

  /** Every field of an accepted manifest, at its byte. */
  lemma Oks1Layout(bytes: seq<Byte>)
    requires Oks1.Decode(bytes).Ok?
    ensures var f := Oks1.Decode(bytes).value;
            && 82 <= |bytes| && ReadsAs(bytes, 0, "OKS1") && bytes[4] == 2
            && Spells4(bytes, 5, f.revocationEpoch) && Spells8(bytes, 9, f.generatedAt)
            && 1 <= bytes[17] == |f.keys| && KeysLaid(bytes, 18, f.keys)
            && |bytes| == KeysEnd(18, f.keys) + 64 && f.signature == bytes[KeysEnd(18, f.keys)..]
  {
    Oks1.DecodeParts(bytes);
    var f := Oks1.Decode(bytes).value;
    MagicLaid(bytes, "OKS1");
    FourBytes(bytes[5..9]);
    Slice4(bytes, 5, 9, 0, f.revocationEpoch);
    EightBytes(bytes[9..17]);
    Slice8(bytes, 9, 17, 0, f.generatedAt);
    KeysRead(bytes[18..], bytes[17], {});
    KeysMoved(bytes, 18, 0, f.keys);
    RestOfRest(bytes, 18, KeysEnd(0, f.keys));
  }
}
