/** The privileged-action attestation frame (`PAA1`): a fixed head, eight prefixed strings, a signature. */
module Paa1 {
  import opened Wrappers
  import opened Bytes

  const MAGIC := "PAA1"
  const VERSION: Byte := 1
  const HEAD_BYTES := 228
  const MINIMUM_TOTAL_BYTES := 308
  const SIGNATURE_LEN := 64
  const ID_MAX := 1500

  datatype Frame = Frame(
    attestationId: seq<Byte>,
    actionKind: Byte,
    approvalResultKind: Byte,
    managerRoleKind: Byte,
    securityDeviceId: seq<Byte>,
    /** device key, OAC schema, revocation epoch, manager auth, manager credential, SSA1 auth, attempt count */
    versions: seq<nat>,
    /** SSA1 expiry, approval lower, approval upper, pending execution expiry */
    times: seq<nat>,
    /** nonce, approval proof, OAC, SSA1 */
    digests: seq<seq<Byte>>,
    /** branch, initiating staff, approving manager, OAC, SSA1, target order, target day, local intent */
    ids: seq<string>,
    signature: seq<Byte>)

  datatype Code = WrongTotalLength | BadMagic | BadVersion | BadFieldLength | BadFieldFormat

  // --- structure ----------------------------------------------------------------------------

  predicate IsAllZero(bytes: seq<Byte>) {
    forall i :: 0 <= i < |bytes| ==> bytes[i] == 0
  }

  predicate IsCanonicalId(id: string) {
    1 <= |id| <= ID_MAX && IsIdText(id)
  }

  predicate IsDigit(c: char) {
    '0' <= c <= '9'
  }

  predicate IsDate(s: string) {
    |s| == 10 && forall i :: 0 <= i < 10 ==> if i == 4 || i == 7 then s[i] == '-' else IsDigit(s[i])
  }

  predicate LengthsOk(f: Frame) {
    && |f.attestationId| == 16 && |f.securityDeviceId| == 16
    && |f.versions| == 7 && |f.times| == 4 && |f.digests| == 4 && |f.ids| == 8
    && (forall i :: 0 <= i < 4 ==> |f.digests[i]| == 32)
  }

  predicate NumbersOk(f: Frame)
    requires LengthsOk(f)
  {
    && (forall i :: 0 <= i < 7 ==> f.versions[i] < 0x1_0000_0000)
    && (forall i :: 0 <= i < 4 ==> f.times[i] <= MAX_SAFE_INTEGER)
    && f.versions[0] != 0 && f.versions[1] == 1
    && 0 < f.times[1] <= f.times[2] < f.times[0] && f.times[1] < f.times[3]
  }

  predicate IdsOk(f: Frame)
    requires LengthsOk(f)
  {
    && (forall i :: 0 <= i < 8 ==> IsCanonicalId(f.ids[i]))
    && f.ids[0] != "ALL" && f.ids[1] != f.ids[2] && IsDate(f.ids[6])
  }

  function StructuralFailure(f: Frame): (r: Option<Code>)
    ensures r.None? ==> LengthsOk(f) && NumbersOk(f) && IdsOk(f)
  {
    if !LengthsOk(f) then Some(BadFieldLength)
    else if IsAllZero(f.attestationId) then Some(BadFieldFormat)
    else if f.actionKind != 1 && f.actionKind != 2 then Some(BadFieldFormat)
    else if f.approvalResultKind != 1 then Some(BadFieldFormat)
    else if f.managerRoleKind != 1 && f.managerRoleKind != 2 then Some(BadFieldFormat)
    else if !NumbersOk(f) || !IdsOk(f) then Some(BadFieldFormat)
    else None
  }

  // --- printing -----------------------------------------------------------------------------

  /** The first 40 bytes. */
  function Prelude(f: Frame): (bytes: seq<Byte>)
    requires LengthsOk(f)
    ensures |bytes| == 40
  {
    AsciiBytes(MAGIC) + [VERSION] + f.attestationId + [f.actionKind, f.approvalResultKind, f.managerRoleKind]
    + f.securityDeviceId
  }

  /** Seven 32-bit numbers from byte 40, four 64-bit times from byte 68, four digests from byte 100. */
  function Head(f: Frame): seq<Byte>
    requires LengthsOk(f)
  {
    Prelude(f) + NumbersBytes(f.versions, 4) + NumbersBytes(f.times, 8) + Blocks(f.digests)
  }

  function IdFields(ids: seq<string>): (fields: seq<seq<Byte>>)
    requires forall i :: 0 <= i < |ids| ==> IsAscii(ids[i])
    ensures |fields| == |ids|
  {
    seq(|ids|, i requires 0 <= i < |ids| => AsciiBytes(ids[i]))
  }

  lemma CanonicalIsAscii(ids: seq<string>)
    requires forall i :: 0 <= i < |ids| ==> IsCanonicalId(ids[i])
    ensures forall i :: 0 <= i < |ids| ==> IsAscii(ids[i])
  {
  }

  function SignedPrefix(f: Frame): seq<Byte>
    requires StructuralFailure(f).None?
  {
    CanonicalIsAscii(f.ids);
    Head(f) + PrefixedAll(IdFields(f.ids))
  }

  function Encode(f: Frame): Result<seq<Byte>, Code> {
    if |f.signature| != SIGNATURE_LEN then Err(BadFieldLength)
    else
      match StructuralFailure(f)
      case Some(code) => Err(code)
      case None => Ok(SignedPrefix(f) + f.signature)
  }

  // --- reading ------------------------------------------------------------------------------

  /** The frame the bytes of a head spell, with ids and signature read after it. */
  function FrameOf(head: seq<Byte>, ids: seq<string>, signature: seq<Byte>): Frame
    requires |head| == HEAD_BYTES
  {
    Frame(head[5..21], head[21], head[22], head[23], head[24..40],
          ReadNumbers(head[40..68], 4, 7), ReadNumbers(head[68..100], 8, 4), ReadBlocks(head[100..228], 32, 4),
          ids, signature)
  }

  predicate TimesSafe(times: seq<nat>) {
    forall i :: 0 <= i < |times| ==> times[i] <= MAX_SAFE_INTEGER
  }

  /** UTF-8 decoding, as far as ids go: a byte above 127 always yields a character no id may contain. */
  predicate AllAsciiFields(fields: seq<seq<Byte>>) {
    forall i :: 0 <= i < |fields| ==> AllAsciiBytes(fields[i])
  }

  function IdTexts(fields: seq<seq<Byte>>): (ids: seq<string>)
    ensures |ids| == |fields|
  {
    seq(|fields|, i requires 0 <= i < |fields| => MaskedText(fields[i]))
  }

  /** The strict structural decode. */
  function Decode(bytes: seq<Byte>): Result<Frame, Code> {
    if |bytes| < MINIMUM_TOTAL_BYTES then Err(WrongTotalLength)
    else if MaskedText(bytes[..4]) != MAGIC then Err(BadMagic)
    else if bytes[4] != VERSION then Err(BadVersion)
    else if !TimesSafe(ReadNumbers(bytes[68..100], 8, 4)) then Err(BadFieldFormat)
    else
      match ReadAll(bytes[HEAD_BYTES..], 8)
      case None => Err(BadFieldLength)
      case Some((fields, rest)) => DecodeTail(bytes[..HEAD_BYTES], fields, rest)
  }

  function DecodeTail(head: seq<Byte>, fields: seq<seq<Byte>>, rest: seq<Byte>): Result<Frame, Code>
    requires |head| == HEAD_BYTES
  {
    if |rest| != SIGNATURE_LEN then Err(WrongTotalLength)
    else if !AllAsciiFields(fields) then Err(BadFieldFormat)
    else
      var f := FrameOf(head, IdTexts(fields), rest);
      match StructuralFailure(f)
      case Some(code) => Err(code)
      case None => Ok(f)
  }

  /** Reads the eight strings by offset. */
  method ReadTail(bytes: seq<Byte>, offset: nat) returns (r: Option<(seq<seq<Byte>>, nat)>)
    requires offset <= |bytes|
    ensures r.Some? <==> ReadAll(bytes[offset..], 8).Some?
    ensures r.Some? ==> r.value.1 <= |bytes| && ReadAll(bytes[offset..], 8) == Some((r.value.0, bytes[r.value.1..]))
  {
    var fields: seq<seq<Byte>> := [];
    var at: nat := offset;
    ghost var whole := ReadAll(bytes[offset..], 8);
    ReadMoreNothing(whole);
    for i := 0 to 8
      invariant 0 <= at <= |bytes|
      invariant whole == ReadMore(fields, ReadAll(bytes[at..], 8 - i))
    {
      if at + 2 > |bytes| { return None; }
      assert bytes[at..][..2] == bytes[at..at + 2];
      var end := at + 2 + FromLe(bytes[at..at + 2]);
      if end > |bytes| { return None; }
      assert bytes[at..][2..end - at] == bytes[at + 2..end] && bytes[at..][end - at..] == bytes[end..];
      ReadMoreStep(fields, bytes[at + 2..end], ReadAll(bytes[end..], 7 - i));
      fields := fields + [bytes[at + 2..end]];
      at := end;
    }
    assert fields + [] == fields;
    return Some((fields, at));
  }

  function ReadMore(fields: seq<seq<Byte>>, r: Option<(seq<seq<Byte>>, seq<Byte>)>)
    : Option<(seq<seq<Byte>>, seq<Byte>)>
  {
    match r
    case None => None
    case Some((more, rest)) => Some((fields + more, rest))
  }

  lemma ReadMoreNothing(r: Option<(seq<seq<Byte>>, seq<Byte>)>)
    ensures ReadMore([], r) == r
  {
    if r.Some? {
      assert [] + r.value.0 == r.value.0;
    }
  }

  lemma ReadMoreStep(fields: seq<seq<Byte>>, field: seq<Byte>, r: Option<(seq<seq<Byte>>, seq<Byte>)>)
    ensures ReadMore(fields, ReadMore([field], r)) == ReadMore(fields + [field], r)
  {
    if r.Some? {
      assert fields + ([field] + r.value.0) == (fields + [field]) + r.value.0;
    }
  }

  method DecodePaa1(bytes: seq<Byte>) returns (r: Result<Frame, Code>)
    ensures r == Decode(bytes)
  {
    if |bytes| < MINIMUM_TOTAL_BYTES { return Err(WrongTotalLength); }
    if MaskedText(bytes[..4]) != MAGIC { return Err(BadMagic); }
    if bytes[4] != VERSION { return Err(BadVersion); }
    if !TimesSafe(ReadNumbers(bytes[68..100], 8, 4)) { return Err(BadFieldFormat); }
    var tail := ReadTail(bytes, HEAD_BYTES);
    if tail.None? { return Err(BadFieldLength); }
    var (fields, offset) := tail.value;
    return DecodeTail(bytes[..HEAD_BYTES], fields, bytes[offset..]);
  }

  // --- decode after encode --------------------------------------------------------------------

  lemma IdsBack(ids: seq<string>)
    requires forall i :: 0 <= i < |ids| ==> IsCanonicalId(ids[i])
    ensures forall i :: 0 <= i < |ids| ==> IsAscii(ids[i])
    ensures AllAsciiFields(IdFields(ids)) && IdTexts(IdFields(ids)) == ids
    ensures forall i :: 0 <= i < |ids| ==> |IdFields(ids)[i]| < 0x1_0000
  {
    CanonicalIsAscii(ids);
    forall i | 0 <= i < |ids| ensures MaskedText(AsciiBytes(ids[i])) == ids[i] {
      AsciiRoundTrip(ids[i]);
    }
  }

  lemma {:induction false} PrefixedLength(fields: seq<seq<Byte>>)
    ensures |PrefixedAll(fields)| >= 2 * |fields|
  {
    if fields != [] {
      PrefixedLength(fields[1..]);
    }
  }

  lemma PreludeBack(f: Frame)
    requires LengthsOk(f)
    ensures var p := Prelude(f);
            && p[..4] == AsciiBytes(MAGIC) && p[4] == VERSION && p[5..21] == f.attestationId
            && p[21] == f.actionKind && p[22] == f.approvalResultKind && p[23] == f.managerRoleKind
            && p[24..40] == f.securityDeviceId
  {
  }

  lemma FourSlices(a: seq<Byte>, b: seq<Byte>, c: seq<Byte>, d: seq<Byte>)
    requires |a| == 40 && |b| == 28 && |c| == 32 && |d| == 128
    ensures var s := a + b + c + d;
            |s| == HEAD_BYTES && s[..40] == a && s[40..68] == b && s[68..100] == c && s[100..228] == d
  {
  }

  lemma HeadSlices(f: Frame)
    requires LengthsOk(f) && NumbersOk(f)
    ensures var h := Head(f);
            && |h| == HEAD_BYTES && h[..40] == Prelude(f)
            && ReadNumbers(h[40..68], 4, 7) == f.versions
            && ReadNumbers(h[68..100], 8, 4) == f.times
            && ReadBlocks(h[100..228], 32, 4) == f.digests
  {
    Widths();
    NumbersLength(f.versions, 4);
    NumbersLength(f.times, 8);
    ReadNumbersBack(f.versions, 4);
    ReadNumbersBack(f.times, 8);
    ReadBlocksBack(f.digests, 32);
    FourSlices(Prelude(f), NumbersBytes(f.versions, 4), NumbersBytes(f.times, 8), Blocks(f.digests));
  }

  lemma HeadBack(f: Frame)
    requires LengthsOk(f) && NumbersOk(f)
    ensures |Head(f)| == HEAD_BYTES && FrameOf(Head(f), f.ids, f.signature) == f
    ensures Head(f)[..4] == AsciiBytes(MAGIC) && Head(f)[4] == VERSION
    ensures ReadNumbers(Head(f)[68..100], 8, 4) == f.times
  {
    HeadSlices(f);
    PreludeBack(f);
    var h, p := Head(f), Prelude(f);
    assert h[5..21] == p[5..21] && h[24..40] == p[24..40] && h[..4] == p[..4];
    assert h[4] == p[4] && h[21] == p[21] && h[22] == p[22] && h[23] == p[23];
  }

  lemma DecodeEncode(f: Frame)
    requires Encode(f).Ok?
    ensures Decode(Encode(f).value) == Ok(f)
  {
    IdsBack(f.ids);
    var fields, head := IdFields(f.ids), Head(f);
    var rest := PrefixedAll(fields) + f.signature;
    var bytes := Encode(f).value;
    assert bytes == head + rest;
    HeadBack(f);
    assert bytes[..HEAD_BYTES] == head && bytes[HEAD_BYTES..] == rest;
    assert bytes[..4] == head[..4] && bytes[68..100] == head[68..100];
    AsciiRoundTrip(MAGIC);
    ReadAllBack(fields, f.signature);
    PrefixedLength(fields);
  }

  /** Two structurally valid frames with one signed prefix are the same frame, signatures aside. */
  lemma SignedPrefixInjective(f: Frame, g: Frame)
    requires StructuralFailure(f).None? && StructuralFailure(g).None? && SignedPrefix(f) == SignedPrefix(g)
    ensures f.(signature := g.signature) == g
  {
    var zeros: seq<Byte> := seq(SIGNATURE_LEN, _ => 0);
    var a, b := f.(signature := zeros), g.(signature := zeros);
    assert SignedPrefix(a) == SignedPrefix(f) && SignedPrefix(b) == SignedPrefix(g);
    DecodeEncode(a);
    DecodeEncode(b);
  }

  // --- encode after decode ----------------------------------------------------------------------

  lemma FieldsOfIds(fields: seq<seq<Byte>>)
    requires AllAsciiFields(fields)
    ensures forall i :: 0 <= i < |fields| ==> IsAscii(IdTexts(fields)[i])
    ensures IdFields(IdTexts(fields)) == fields
  {
    forall i | 0 <= i < |fields|
      ensures IsAscii(MaskedText(fields[i])) && AsciiBytes(MaskedText(fields[i])) == fields[i]
    {
      BytesRoundTrip(fields[i]);
    }
    var ids := IdTexts(fields);
    assert forall i :: 0 <= i < |fields| ==> IdFields(ids)[i] == AsciiBytes(ids[i]);
  }

  lemma PreludeRebuilt(head: seq<Byte>, ids: seq<string>, signature: seq<Byte>)
    requires |head| == HEAD_BYTES && head[4] == VERSION && LengthsOk(FrameOf(head, ids, signature))
    ensures Prelude(FrameOf(head, ids, signature)) == AsciiBytes(MAGIC) + head[4..40]
  {
    assert [head[4]] + head[5..21] + [head[21], head[22], head[23]] + head[24..40] == head[4..40];
  }

  lemma SlicesRejoin(head: seq<Byte>, m: seq<Byte>)
    requires |head| == HEAD_BYTES
    ensures (m + head[4..40]) + head[40..68] + head[68..100] + head[100..228] == m + head[4..]
  {
  }

  /** Printing the head that was read gives its bytes back, with the exact magic in front. */
  lemma HeadRebuilt(head: seq<Byte>, ids: seq<string>, signature: seq<Byte>)
    requires |head| == HEAD_BYTES && head[4] == VERSION && |ids| == 8
    ensures LengthsOk(FrameOf(head, ids, signature))
    ensures Head(FrameOf(head, ids, signature)) == AsciiBytes(MAGIC) + head[4..]
  {
    NumbersBytesBack(head[40..68], 4, 7);
    NumbersBytesBack(head[68..100], 8, 4);
    BlocksBack(head[100..228], 32, 4);
    PreludeRebuilt(head, ids, signature);
    SlicesRejoin(head, AsciiBytes(MAGIC));
  }

  lemma Reassociate(m: seq<Byte>, head: seq<Byte>, tail: seq<Byte>, end: seq<Byte>, bytes: seq<Byte>)
    requires |head| == HEAD_BYTES && bytes == head + (tail + end)
    ensures (m + head[4..] + tail) + end == m + bytes[4..]
  {
  }

  /** Re-encoding accepted bytes restores everything after the magic, and puts the exact magic back. */
  lemma EncodeAfterDecode(bytes: seq<Byte>)
    requires Decode(bytes).Ok?
    ensures Encode(Decode(bytes).value) == Ok(AsciiBytes(MAGIC) + bytes[4..])
  {
    var head := bytes[..HEAD_BYTES];
    PrefixedAllBack(bytes[HEAD_BYTES..], 8);
    var (fields, rest) := ReadAll(bytes[HEAD_BYTES..], 8).value;
    FieldsOfIds(fields);
    HeadRebuilt(head, IdTexts(fields), rest);
    assert bytes == head + (PrefixedAll(fields) + rest);
    Reassociate(AsciiBytes(MAGIC), head, PrefixedAll(fields), rest, bytes);
  }

  /** Accepted bytes re-encode to themselves exactly when their first four bytes are the magic. */
  lemma EncodeDecodeIff(bytes: seq<Byte>)
    requires Decode(bytes).Ok?
    ensures Encode(Decode(bytes).value) == Ok(bytes) <==> bytes[..4] == AsciiBytes(MAGIC)
  {
    EncodeAfterDecode(bytes);
    assert bytes == bytes[..4] + bytes[4..];
    assert (AsciiBytes(MAGIC) + bytes[4..])[..4] == AsciiBytes(MAGIC);
  }

  lemma SameFrame(head: seq<Byte>, other: seq<Byte>, ids: seq<string>, signature: seq<Byte>)
    requires |head| == |other| == HEAD_BYTES && head[4..] == other[4..]
    ensures FrameOf(head, ids, signature) == FrameOf(other, ids, signature)
  {
    assert forall i :: 4 <= i < HEAD_BYTES ==> head[i] == head[4..][i - 4] == other[4..][i - 4] == other[i];
    assert head[5..21] == other[5..21] && head[24..40] == other[24..40] && head[40..68] == other[40..68];
    assert head[68..100] == other[68..100] && head[100..228] == other[100..228];
  }

  /** The reader sees the magic only through its low seven bits. */
  lemma MagicMasked(f: Frame, other: seq<Byte>)
    requires Encode(f).Ok? && 4 <= |other| && MaskedText(other[..4]) == MAGIC
    requires other[4..] == Encode(f).value[4..]
    ensures Decode(other) == Ok(f)
  {
    var bytes := Encode(f).value;
    DecodeEncode(f);
    TailSlices(bytes, other);
    var (fields, rest) := ReadAll(bytes[HEAD_BYTES..], 8).value;
    SameFrame(bytes[..HEAD_BYTES], other[..HEAD_BYTES], IdTexts(fields), rest);
  }

  lemma TailSlices(bytes: seq<Byte>, other: seq<Byte>)
    requires HEAD_BYTES <= |bytes| && 4 <= |other| && other[4..] == bytes[4..]
    ensures |other| == |bytes| && other[4] == bytes[4]
    ensures other[68..100] == bytes[68..100] && other[HEAD_BYTES..] == bytes[HEAD_BYTES..]
    ensures other[..HEAD_BYTES][4..] == bytes[..HEAD_BYTES][4..]
  {
    assert |other[4..]| == |other| - 4 && |bytes[4..]| == |bytes| - 4;
    assert forall i :: 4 <= i < |bytes| ==> other[i] == other[4..][i - 4] == bytes[4..][i - 4] == bytes[i];
  }

  /** Accepted are exactly the printed frames, up to the high bits of the magic. */
  lemma AcceptsExactlyPrinted(bytes: seq<Byte>, f: Frame)
    ensures Decode(bytes) == Ok(f) <==>
            && Encode(f).Ok? && 4 <= |bytes| && MaskedText(bytes[..4]) == MAGIC
            && bytes[4..] == Encode(f).value[4..]
  {
    if Decode(bytes) == Ok(f) {
      EncodeAfterDecode(bytes);
      assert (AsciiBytes(MAGIC) + bytes[4..])[4..] == bytes[4..];
    } else if Encode(f).Ok? && 4 <= |bytes| && MaskedText(bytes[..4]) == MAGIC && bytes[4..] == Encode(f).value[4..] {
      MagicMasked(f, bytes);
    }
  }

  /** So the same frame is accepted with the magic's high bit set. */
  lemma MagicHighBitAccepted(f: Frame)
    requires Encode(f).Ok?
    ensures var bytes := Encode(f).value;
            |bytes| > 4 && Decode([0xD0] + bytes[1..]) == Ok(f) && [0xD0] + bytes[1..] != bytes
  {
    var bytes := Encode(f).value;
    DecodeEncode(f);
    EncodeDecodeIff(bytes);
    var x: Byte := 0xD0;
    var other: seq<Byte> := [x] + bytes[1..];
    assert bytes[0] == bytes[..4][0] == AsciiBytes(MAGIC)[0];
    assert other[..4] == [x] + bytes[1..4] && bytes[..4] == [bytes[0]] + bytes[1..4];
    assert MaskedText(other[..4]) == MaskedText(bytes[..4]);
    FirstReplaced(bytes, x, 4, |bytes|);
    MagicMasked(f, other);
  }
}
