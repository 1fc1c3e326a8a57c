/** The signed key-set manifest frame (`OKS1`): 1 to 255 keys, some with an expiry. */
module Oks1 {
  import opened Wrappers
  import opened Bytes

  const MAGIC := "OKS1"
  const VERSION: Byte := 2
  const PUBLIC_KEY_LEN := 32
  const SIGNATURE_LEN := 64
  const ID_MAX := 1500

  datatype Status = Active | VerifyOnly(until: nat) | Retired

  datatype Key = Key(id: string, publicKey: seq<Byte>, status: Status)

  datatype Frame = Frame(revocationEpoch: nat, generatedAt: nat, keys: seq<Key>, signature: seq<Byte>)

  datatype Code = WrongTotalLength | BadMagic | BadVersion | BadFieldLength | BadFieldFormat

  predicate ValidKey(k: Key) {
    && 1 <= |k.id| <= ID_MAX && IsIdText(k.id)
    && |k.publicKey| == PUBLIC_KEY_LEN
    && (k.status.VerifyOnly? ==> 1 <= k.status.until <= MAX_SAFE_INTEGER)
  }

  ghost predicate DistinctKeys(keys: seq<Key>) {
    forall i, j :: 0 <= i < j < |keys| ==> keys[i].id != keys[j].id
  }

  ghost predicate ValidKeys(keys: seq<Key>) {
    && 1 <= |keys| <= 255
    && (forall i :: 0 <= i < |keys| ==> ValidKey(keys[i]))
    && DistinctKeys(keys)
  }

  // --- printing ---------------------------------------------------------------------------

  function StatusBytes(s: Status): seq<Byte> {
    match s
    case Active => [1]
    case VerifyOnly(until) => [2] + Le(until, 8)
    case Retired => [3]
  }

  function KeyBytes(k: Key): seq<Byte> {
    Prefixed(AsciiBytes(k.id)) + k.publicKey + StatusBytes(k.status)
  }

  function KeysBytes(keys: seq<Key>): seq<Byte> {
    if keys == [] then [] else KeyBytes(keys[0]) + KeysBytes(keys[1..])
  }

  function HeadBytes(epoch: nat, generatedAt: nat, count: Byte): (bytes: seq<Byte>)
    ensures |bytes| == 18
  {
    AsciiBytes(MAGIC) + [VERSION] + Le(epoch, 4) + Le(generatedAt, 8) + [count]
  }

  function SignedPrefix(f: Frame): seq<Byte>
    requires ValidKeys(f.keys)
  {
    HeadBytes(f.revocationEpoch, f.generatedAt, |f.keys|) + KeysBytes(f.keys)
  }

  lemma {:induction false} KeysBytesSnoc(keys: seq<Key>, k: Key)
    ensures KeysBytes(keys + [k]) == KeysBytes(keys) + KeyBytes(k)
  {
    if keys == [] {
      assert [k][1..] == [] && keys + [k] == [k];
      assert KeysBytes([k]) == KeyBytes(k) + KeysBytes([]);
    } else {
      KeysBytesSnoc(keys[1..], k);
      assert (keys + [k])[1..] == keys[1..] + [k];
      Associative(KeyBytes(keys[0]), KeysBytes(keys[1..]), KeyBytes(k));
    }
  }

  /** These keys, all valid and distinct, are on the chunk list. */
  ghost predicate Pushed(keys: seq<Key>, head: seq<Byte>, chunks: seq<Byte>, seen: set<string>) {
    && (forall j :: 0 <= j < |keys| ==> ValidKey(keys[j]))
    && DistinctKeys(keys)
    && SeenIds(keys, seen)
    && chunks == head + KeysBytes(keys)
  }

  ghost predicate SeenIds(keys: seq<Key>, seen: set<string>) {
    forall id :: id in seen <==> exists j :: 0 <= j < |keys| && keys[j].id == id
  }

  lemma SeenIdsSnoc(keys: seq<Key>, seen: set<string>, k: Key)
    requires SeenIds(keys, seen)
    ensures SeenIds(keys + [k], seen + {k.id})
  {
    var more := keys + [k];
    forall id ensures id in seen + {k.id} <==> exists j :: 0 <= j < |more| && more[j].id == id {
      if id in seen {
        var j :| 0 <= j < |keys| && keys[j].id == id;
        assert more[j].id == id;
      }
      assert more[|keys|] == k;
    }
  }

  lemma DistinctSnoc(keys: seq<Key>, seen: set<string>, k: Key)
    requires DistinctKeys(keys) && SeenIds(keys, seen) && k.id !in seen
    ensures DistinctKeys(keys + [k])
  {
    forall j | 0 <= j < |keys| ensures keys[j].id != k.id {
      assert keys[j].id in seen;
    }
  }

  lemma PushedNext(keys: seq<Key>, k: Key, head: seq<Byte>, chunks: seq<Byte>, seen: set<string>)
    requires Pushed(keys, head, chunks, seen) && ValidKey(k) && k.id !in seen
    ensures Pushed(keys + [k], head, chunks + KeyBytes(k), seen + {k.id})
  {
    ChunksSnoc(keys, k, head);
    SeenIdsSnoc(keys, seen, k);
    DistinctSnoc(keys, seen, k);
  }

  lemma ChunksSnoc(keys: seq<Key>, k: Key, head: seq<Byte>)
    ensures (head + KeysBytes(keys)) + KeyBytes(k) == head + KeysBytes(keys + [k])
  {
    KeysBytesSnoc(keys, k);
    Associative(head, KeysBytes(keys), KeyBytes(k));
  }

  lemma PushedStuck(keys: seq<Key>, i: nat, head: seq<Byte>, chunks: seq<Byte>, seen: set<string>)
    requires i < |keys| && Pushed(keys[..i], head, chunks, seen) && (!ValidKey(keys[i]) || keys[i].id in seen)
    ensures !ValidKeys(keys)
  {
    if keys[i].id in seen {
      var j :| 0 <= j < i && keys[..i][j].id == keys[i].id;
      assert keys[j].id == keys[i].id;
    }
  }

  /** Pushes one key's chunks after another; refuses a key set or a number the frame cannot hold. */
  method EncodeOks1(f: Frame) returns (r: Option<seq<Byte>>)
    ensures r.Some? <==> ValidKeys(f.keys) && f.revocationEpoch < Pow256(4) && f.generatedAt < Pow256(8)
    ensures r.Some? ==> r.value == SignedPrefix(f) + f.signature
  {
    if |f.keys| == 0 || |f.keys| > 255 { return None; }
    if f.revocationEpoch >= Pow256(4) || f.generatedAt >= Pow256(8) { return None; }
    var chunks := HeadBytes(f.revocationEpoch, f.generatedAt, |f.keys|);
    ghost var head := chunks;
    var seen: set<string> := {};
    assert head + [] == head;
    for i := 0 to |f.keys|
      invariant Pushed(f.keys[..i], head, chunks, seen)
    {
      var k := f.keys[i];
      if !ValidKey(k) || k.id in seen {
        PushedStuck(f.keys, i, head, chunks, seen);
        return None;
      }
      PushedNext(f.keys[..i], k, head, chunks, seen);
      assert f.keys[..i + 1] == f.keys[..i] + [k];
      seen := seen + {k.id};
      chunks := chunks + KeyBytes(k);
    }
    assert f.keys[..|f.keys|] == f.keys;
    return Some(chunks + f.signature);
  }

  // --- reading ----------------------------------------------------------------------------

  function ReadStatus(bytes: seq<Byte>): Result<(Status, seq<Byte>), Code> {
    if bytes == [] then Err(WrongTotalLength)
    else if bytes[0] == 1 then Ok((Active, bytes[1..]))
    else if bytes[0] == 3 then Ok((Retired, bytes[1..]))
    else if bytes[0] != 2 then Err(BadFieldFormat)
    else if |bytes| < 9 then Err(WrongTotalLength)
    else
      var until := FromLe(bytes[1..9]);
      if until < 1 || until > MAX_SAFE_INTEGER then Err(BadFieldFormat) else Ok((VerifyOnly(until), bytes[9..]))
  }

  function ReadId(bytes: seq<Byte>): Option<(string, seq<Byte>)> {
    if |bytes| < 2 then None
    else
      var len := FromLe(bytes[..2]);
      if len < 1 || len > ID_MAX || 2 + len > |bytes| then None
      else Some((MaskedText(bytes[2..2 + len]), bytes[2 + len..]))
  }

  function ReadKey(bytes: seq<Byte>, seen: set<string>): Result<(Key, seq<Byte>), Code> {
    match ReadId(bytes)
    case None => Err(BadFieldLength)
    case Some((id, rest)) =>
      if !IsIdText(id) || id in seen then Err(BadFieldFormat)
      else if |rest| < PUBLIC_KEY_LEN then Err(WrongTotalLength)
      else
        match ReadStatus(rest[PUBLIC_KEY_LEN..])
        case Err(code) => Err(code)
        case Ok((status, end)) => Ok((Key(id, rest[..PUBLIC_KEY_LEN], status), end))
  }

  function ReadKeys(bytes: seq<Byte>, n: nat, seen: set<string>): Result<(seq<Key>, seq<Byte>), Code> {
    if n == 0 then Ok(([], bytes))
    else
      match ReadKey(bytes, seen)
      case Err(code) => Err(code)
      case Ok((key, rest)) =>
        match ReadKeys(rest, n - 1, seen + {key.id})
        case Err(code) => Err(code)
        case Ok((keys, end)) => Ok(([key] + keys, end))
  }

  function Decode(bytes: seq<Byte>): Result<Frame, Code> {
    if |bytes| < 18 + SIGNATURE_LEN then Err(WrongTotalLength)
    else if MaskedText(bytes[..4]) != MAGIC then Err(BadMagic)
    else if bytes[4] != VERSION then Err(BadVersion)
    else if bytes[17] == 0 then Err(BadFieldLength)
    else
      match ReadKeys(bytes[18..], bytes[17], {})
      case Err(code) => Err(code)
      case Ok((keys, rest)) =>
        if |rest| != SIGNATURE_LEN then Err(WrongTotalLength)
        else Ok(Frame(FromLe(bytes[5..9]), FromLe(bytes[9..17]), keys, rest))
  }

  /** Walks the bytes by offset, key by key. */
  method DecodeOks1(bytes: seq<Byte>) returns (r: Result<Frame, Code>)
    ensures r == Decode(bytes)
  {
    if |bytes| < 18 + SIGNATURE_LEN { return Err(WrongTotalLength); }
    if MaskedText(bytes[..4]) != MAGIC { return Err(BadMagic); }
    if bytes[4] != VERSION { return Err(BadVersion); }
    var epoch, generatedAt, keyCount := FromLe(bytes[5..9]), FromLe(bytes[9..17]), bytes[17];
    if keyCount == 0 { return Err(BadFieldLength); }
    var keys, seen := [], {};
    var rest := bytes[18..];
    ghost var whole := ReadKeys(bytes[18..], keyCount, {});
    ExtendedNothing(whole);
    for i := 0 to keyCount
      invariant whole == Extended(keys, ReadKeys(rest, keyCount - i, seen))
    {
      var key := ReadKey(rest, seen);
      if key.Err? { return Err(key.error); }
      ghost var more := ReadKeys(key.value.1, keyCount - i - 1, seen + {key.value.0.id});
      ExtendedStep(keys, key.value.0, more);
      keys := keys + [key.value.0];
      seen := seen + {key.value.0.id};
      rest := key.value.1;
    }
    assert keys + [] == keys;
    if |rest| != SIGNATURE_LEN { return Err(WrongTotalLength); }
    return Ok(Frame(epoch, generatedAt, keys, rest));
  }

  function Extended(keys: seq<Key>, r: Result<(seq<Key>, seq<Byte>), Code>): Result<(seq<Key>, seq<Byte>), Code> {
    match r
    case Err(code) => Err(code)
    case Ok((more, rest)) => Ok((keys + more, rest))
  }

  lemma ExtendedNothing(r: Result<(seq<Key>, seq<Byte>), Code>)
    ensures Extended([], r) == r
  {
    if r.Ok? {
      assert [] + r.value.0 == r.value.0;
    }
  }

  lemma ExtendedStep(keys: seq<Key>, key: Key, r: Result<(seq<Key>, seq<Byte>), Code>)
    ensures Extended(keys, Extended([key], r)) == Extended(keys + [key], r)
  {
    if r.Ok? {
      assert keys + ([key] + r.value.0) == (keys + [key]) + r.value.0;
    }
  }

  // --- the round trip -----------------------------------------------------------------------

  lemma StatusBack(s: Status, rest: seq<Byte>)
    requires s.VerifyOnly? ==> 1 <= s.until <= MAX_SAFE_INTEGER
    ensures ReadStatus(StatusBytes(s) + rest) == Ok((s, rest))
  {
    var bytes := StatusBytes(s) + rest;
    if s.VerifyOnly? {
      Widths();
      FromLeLe(s.until, 8);
      assert bytes[1..9] == Le(s.until, 8) && bytes[9..] == rest;
    } else {
      assert bytes[1..] == rest;
    }
  }

  lemma IdBack(id: string, rest: seq<Byte>)
    requires 1 <= |id| <= ID_MAX && IsAscii(id)
    ensures ReadId(Prefixed(AsciiBytes(id)) + rest) == Some((id, rest))
  {
    Widths();
    FromLeLe(|id|, 2);
    AsciiRoundTrip(id);
    var bytes := Prefixed(AsciiBytes(id)) + rest;
    assert bytes[..2] == Le(|id|, 2);
    assert bytes[2..2 + |id|] == AsciiBytes(id) && bytes[2 + |id|..] == rest;
  }

  lemma KeyBack(k: Key, seen: set<string>, rest: seq<Byte>)
    requires ValidKey(k) && k.id !in seen
    ensures ReadKey(KeyBytes(k) + rest, seen) == Ok((k, rest))
  {
    var tail := StatusBytes(k.status) + rest;
    var after := k.publicKey + tail;
    assert KeyBytes(k) + rest == Prefixed(AsciiBytes(k.id)) + after;
    IdBack(k.id, after);
    StatusBack(k.status, rest);
    assert after[..PUBLIC_KEY_LEN] == k.publicKey && after[PUBLIC_KEY_LEN..] == tail;
  }

  /** Key boundaries are never misread, whatever mix of statuses. */
  lemma {:induction false} KeysBack(keys: seq<Key>, seen: set<string>, rest: seq<Byte>)
    requires forall i :: 0 <= i < |keys| ==> ValidKey(keys[i]) && keys[i].id !in seen
    requires DistinctKeys(keys)
    ensures ReadKeys(KeysBytes(keys) + rest, |keys|, seen) == Ok((keys, rest))
  {
    if keys == [] {
      assert KeysBytes(keys) + rest == rest;
    } else {
      KeysBack(keys[1..], seen + {keys[0].id}, rest);
      FirstKeyBack(keys[0], keys[1..], seen, rest);
      assert [keys[0]] + keys[1..] == keys;
    }
  }

  lemma FirstKeyBack(k: Key, keys: seq<Key>, seen: set<string>, rest: seq<Byte>)
    requires ValidKey(k) && (forall i :: 0 <= i < |keys| ==> ValidKey(keys[i])) && k.id !in seen
    requires ReadKeys(KeysBytes(keys) + rest, |keys|, seen + {k.id}) == Ok((keys, rest))
    ensures ReadKeys((KeyBytes(k) + KeysBytes(keys)) + rest, |keys| + 1, seen) == Ok(([k] + keys, rest))
  {
    var tail := KeysBytes(keys) + rest;
    assert (KeyBytes(k) + KeysBytes(keys)) + rest == KeyBytes(k) + tail;
    KeyBack(k, seen, tail);
  }

  ghost predicate ValidFrame(f: Frame) {
    && f.revocationEpoch < 0x1_0000_0000 && f.generatedAt <= MAX_SAFE_INTEGER
    && ValidKeys(f.keys) && |f.signature| == SIGNATURE_LEN
  }

  lemma HeadBack(epoch: nat, generatedAt: nat, count: Byte, rest: seq<Byte>)
    requires epoch < 0x1_0000_0000 && generatedAt <= MAX_SAFE_INTEGER
    ensures var bytes := HeadBytes(epoch, generatedAt, count) + rest;
            && MaskedText(bytes[..4]) == MAGIC && bytes[4] == VERSION
            && FromLe(bytes[5..9]) == epoch && FromLe(bytes[9..17]) == generatedAt
            && bytes[17] == count && bytes[18..] == rest
  {
    Widths();
    FromLeLe(epoch, 4);
    FromLeLe(generatedAt, 8);
    AsciiRoundTrip(MAGIC);
    HeadSlices(AsciiBytes(MAGIC), VERSION, Le(epoch, 4), Le(generatedAt, 8), count, rest);
  }

  lemma HeadSlices(magic: seq<Byte>, version: Byte, epoch: seq<Byte>, time: seq<Byte>, count: Byte, rest: seq<Byte>)
    requires |magic| == 4 && |epoch| == 4 && |time| == 8
    ensures var bytes := (magic + [version] + epoch + time + [count]) + rest;
            && bytes[..4] == magic && bytes[4] == version && bytes[5..9] == epoch && bytes[9..17] == time
            && bytes[17] == count && bytes[18..] == rest
  {
  }

  lemma DecodeEncode(f: Frame)
    requires ValidFrame(f)
    ensures Decode(SignedPrefix(f) + f.signature) == Ok(f)
  {
    var tail := KeysBytes(f.keys) + f.signature;
    var head := HeadBytes(f.revocationEpoch, f.generatedAt, |f.keys|);
    assert SignedPrefix(f) + f.signature == head + tail;
    HeadBack(f.revocationEpoch, f.generatedAt, |f.keys|, tail);
    KeysBack(f.keys, {}, f.signature);
  }

  /** Two manifests never share a signed prefix. */
  lemma SignedPrefixInjective(f: Frame, g: Frame)
    requires ValidFrame(f) && ValidFrame(g) && SignedPrefix(f) == SignedPrefix(g)
    ensures f.revocationEpoch == g.revocationEpoch && f.generatedAt == g.generatedAt && f.keys == g.keys
  {
    DecodeEncode(f);
    DecodeEncode(g.(signature := f.signature));
  }

  // --- encode after decode ----------------------------------------------------------------------

  lemma StatusRebuilt(bytes: seq<Byte>)
    requires ReadStatus(bytes).Ok?
    ensures var (status, rest) := ReadStatus(bytes).value;
            && bytes == StatusBytes(status) + rest
            && (status.VerifyOnly? ==> 1 <= status.until <= MAX_SAFE_INTEGER)
  {
    if bytes[0] == 2 {
      LeFromLe(bytes[1..9]);
      assert bytes == [bytes[0]] + bytes[1..9] + bytes[9..];
    } else {
      assert bytes == [bytes[0]] + bytes[1..];
    }
  }

  /** The bytes of the id a key starts with. */
  function IdField(bytes: seq<Byte>): seq<Byte>
    requires ReadId(bytes).Some?
  {
    bytes[2..2 + FromLe(bytes[..2])]
  }

  lemma IdRebuilt(bytes: seq<Byte>)
    requires ReadId(bytes).Some?
    ensures var (id, rest) := ReadId(bytes).value;
            && id == MaskedText(IdField(bytes)) && 1 <= |id| <= ID_MAX
            && bytes == Le(|id|, 2) + IdField(bytes) + rest
  {
    LeFromLe(bytes[..2]);
    assert bytes == bytes[..2] + IdField(bytes) + bytes[2 + FromLe(bytes[..2])..];
  }

  lemma MaskedIsPlain(field: seq<Byte>)
    requires IsIdText(MaskedText(field))
    ensures AsciiBytes(MaskedText(field)) == field <==> AllAsciiBytes(field)
  {
    if AllAsciiBytes(field) {
      BytesRoundTrip(field);
    } else {
      var i :| 0 <= i < |field| && field[i] >= 128;
      assert AsciiBytes(MaskedText(field))[i] == field[i] % 128;
    }
  }

  lemma MiddleDecides(a: seq<Byte>, x: seq<Byte>, y: seq<Byte>, b: seq<Byte>)
    requires |x| == |y|
    ensures a + x + b == a + y + b <==> x == y
  {
    if a + x + b == a + y + b {
      assert x == (a + x + b)[|a|..|a| + |x|] == (a + y + b)[|a|..|a| + |x|] == y;
    }
  }

  /** The bytes of a key, its id as it stood. */
  lemma KeyShape(bytes: seq<Byte>, seen: set<string>)
    requires ReadKey(bytes, seen).Ok?
    ensures ReadId(bytes).Some?
    ensures var (k, rest) := ReadKey(bytes, seen).value;
            && ValidKey(k) && k.id !in seen && k.id == MaskedText(IdField(bytes))
            && bytes == Le(|k.id|, 2) + IdField(bytes) + (k.publicKey + StatusBytes(k.status)) + rest
  {
    var (k, rest) := ReadKey(bytes, seen).value;
    var (id, after) := ReadId(bytes).value;
    IdRebuilt(bytes);
    StatusRebuilt(after[PUBLIC_KEY_LEN..]);
    assert after == k.publicKey + StatusBytes(k.status) + rest;
  }

  lemma KeyPrinted(k: Key)
    ensures KeyBytes(k) == Le(|k.id|, 2) + AsciiBytes(k.id) + (k.publicKey + StatusBytes(k.status))
  {
  }

  lemma IdDecides(a: seq<Byte>, x: seq<Byte>, y: seq<Byte>, b: seq<Byte>, c: seq<Byte>)
    requires |x| == |y|
    ensures (a + x + b) + c == (a + y + b) + c <==> x == y
    ensures ((a + y + b) + c)[|a + x + b|..] == c
  {
    assert (a + x + b) + c == a + x + (b + c) && (a + y + b) + c == a + y + (b + c);
    MiddleDecides(a, x, y, b + c);
  }

  /** A key that was read prints back to its own bytes exactly when its id carried no high bit. */
  lemma KeyRebuilt(bytes: seq<Byte>, seen: set<string>)
    requires ReadKey(bytes, seen).Ok?
    ensures ReadId(bytes).Some?
    ensures var (k, rest) := ReadKey(bytes, seen).value;
            && ValidKey(k) && k.id !in seen && |KeyBytes(k) + rest| == |bytes|
            && (KeyBytes(k) + rest == bytes <==> AllAsciiBytes(IdField(bytes)))
            && bytes[|KeyBytes(k)|..] == rest
  {
    var (k, rest) := ReadKey(bytes, seen).value;
    KeyShape(bytes, seen);
    KeyPrinted(k);
    IdDecides(Le(|k.id|, 2), AsciiBytes(k.id), IdField(bytes), k.publicKey + StatusBytes(k.status), rest);
    MaskedIsPlain(IdField(bytes));
  }

  /** No id among the next `n` keys carries a high bit. */
  predicate PlainIds(bytes: seq<Byte>, n: nat, seen: set<string>) {
    if n == 0 || ReadKey(bytes, seen).Err? then true
    else
      var (k, rest) := ReadKey(bytes, seen).value;
      ReadId(bytes).Some? && AllAsciiBytes(IdField(bytes)) && PlainIds(rest, n - 1, seen + {k.id})
  }

  lemma SplitEqual(a: seq<Byte>, x: seq<Byte>, b: seq<Byte>, y: seq<Byte>)
    requires |a| == |b|
    ensures a + x == b + y <==> a == b && x == y
  {
    if a + x == b + y {
      assert a == (a + x)[..|a|] == (b + y)[..|a|] == b;
      assert x == (a + x)[|a|..] == (b + y)[|a|..] == y;
    }
  }

  ghost predicate ReadKeysAre(keys: seq<Key>, seen: set<string>) {
    && (forall i :: 0 <= i < |keys| ==> ValidKey(keys[i]) && keys[i].id !in seen)
    && DistinctKeys(keys)
  }

  lemma ReadKeysCons(k: Key, keys: seq<Key>, seen: set<string>)
    requires ValidKey(k) && k.id !in seen && ReadKeysAre(keys, seen + {k.id})
    ensures ReadKeysAre([k] + keys, seen)
  {
    forall i | 0 <= i < |keys| ensures keys[i].id != k.id && keys[i].id !in seen {
      assert keys[i].id !in seen + {k.id};
    }
  }

  /** One more key in front: both prints agree with the bytes exactly when both parts do. */
  lemma PrintedCons(k: Key, keys: seq<Key>, bytes: seq<Byte>, after: seq<Byte>, end: seq<Byte>)
    requires |KeyBytes(k) + after| == |bytes| && bytes[|KeyBytes(k)|..] == after && |KeysBytes(keys) + end| == |after|
    ensures KeyBytes(k) + KeysBytes(keys) + end == bytes <==>
            KeyBytes(k) + after == bytes && KeysBytes(keys) + end == after
  {
    assert KeyBytes(k) + KeysBytes(keys) + end == KeyBytes(k) + (KeysBytes(keys) + end);
    assert bytes == bytes[..|KeyBytes(k)|] + after;
    SplitEqual(KeyBytes(k), KeysBytes(keys) + end, bytes[..|KeyBytes(k)|], after);
    SplitEqual(KeyBytes(k), after, bytes[..|KeyBytes(k)|], after);
  }

  /** What the keys from `bytes` on print, compared with the bytes themselves. */
  ghost predicate PrintsPlain(keys: seq<Key>, end: seq<Byte>, bytes: seq<Byte>, n: nat, seen: set<string>) {
    && |keys| == n && ReadKeysAre(keys, seen) && |KeysBytes(keys) + end| == |bytes|
    && (KeysBytes(keys) + end == bytes <==> PlainIds(bytes, n, seen))
  }

  lemma PrintsCons(bytes: seq<Byte>, n: nat, seen: set<string>, k: Key, after: seq<Byte>, more: seq<Key>,
                   end: seq<Byte>)
    requires n > 0 && ReadKey(bytes, seen) == Ok((k, after)) && PrintsPlain(more, end, after, n - 1, seen + {k.id})
    ensures PrintsPlain([k] + more, end, bytes, n, seen)
  {
    KeyRebuilt(bytes, seen);
    ReadKeysCons(k, more, seen);
    PrintedCons(k, more, bytes, after, end);
    FirstPrinted(k, more);
  }

  lemma {:induction false} KeysRebuilt(bytes: seq<Byte>, n: nat, seen: set<string>)
    requires ReadKeys(bytes, n, seen).Ok?
    ensures PrintsPlain(ReadKeys(bytes, n, seen).value.0, ReadKeys(bytes, n, seen).value.1, bytes, n, seen)
    decreases n
  {
    if n == 0 {
      assert KeysBytes([]) + bytes == bytes;
    } else {
      var (k, after) := ReadKey(bytes, seen).value;
      KeysRebuilt(after, n - 1, seen + {k.id});
      var (more, end) := ReadKeys(after, n - 1, seen + {k.id}).value;
      PrintsCons(bytes, n, seen, k, after, more, end);
    }
  }

  lemma FirstPrinted(k: Key, keys: seq<Key>)
    ensures KeysBytes([k] + keys) == KeyBytes(k) + KeysBytes(keys)
  {
    assert ([k] + keys)[1..] == keys;
  }

  lemma HeadRebuilt(bytes: seq<Byte>)
    requires 18 <= |bytes| && bytes[4] == VERSION
    ensures HeadBytes(FromLe(bytes[5..9]), FromLe(bytes[9..17]), bytes[17]) == bytes[..18] <==>
            bytes[..4] == AsciiBytes(MAGIC)
    ensures FromLe(bytes[5..9]) < 0x1_0000_0000
  {
    Widths();
    LeFromLe(bytes[5..9]);
    LeFromLe(bytes[9..17]);
    var tail := [bytes[4]] + bytes[5..9] + bytes[9..17] + [bytes[17]];
    assert bytes[..18] == bytes[..4] + tail;
    assert HeadBytes(FromLe(bytes[5..9]), FromLe(bytes[9..17]), bytes[17]) == AsciiBytes(MAGIC) + tail;
    SplitEqual(AsciiBytes(MAGIC), tail, bytes[..4], tail);
  }

  lemma DecodeParts(bytes: seq<Byte>)
    requires Decode(bytes).Ok?
    ensures var f := Decode(bytes).value;
            && 18 <= |bytes| && bytes[4] == VERSION && bytes[17] != 0
            && ReadKeys(bytes[18..], bytes[17], {}) == Ok((f.keys, f.signature)) && |f.signature| == SIGNATURE_LEN
            && f.revocationEpoch == FromLe(bytes[5..9]) && f.generatedAt == FromLe(bytes[9..17])
  {
  }

  lemma DecodedKeysValid(bytes: seq<Byte>)
    requires Decode(bytes).Ok?
    ensures var f := Decode(bytes).value;
            && ValidKeys(f.keys) && |f.keys| == bytes[17] && f.revocationEpoch < 0x1_0000_0000
            && |f.signature| == SIGNATURE_LEN
  {
    DecodeParts(bytes);
    KeysRebuilt(bytes[18..], bytes[17], {});
    HeadRebuilt(bytes);
  }

  lemma WholeSplits(bytes: seq<Byte>, head: seq<Byte>, keys: seq<Byte>, end: seq<Byte>)
    requires 18 <= |bytes| && |head| == 18
    ensures (head + keys) + end == bytes <==> head == bytes[..18] && keys + end == bytes[18..]
  {
    assert (head + keys) + end == head + (keys + end);
    assert bytes == bytes[..18] + bytes[18..];
    SplitEqual(head, keys + end, bytes[..18], bytes[18..]);
  }

  /**
    Accepted bytes print back to themselves exactly when the magic is exact and no key id carries a
    high bit, for times the reader does not round.
   */
  lemma EncodeDecodeIff(bytes: seq<Byte>)
    requires Decode(bytes).Ok? && FromLe(bytes[9..17]) <= MAX_SAFE_INTEGER
    ensures ValidFrame(Decode(bytes).value)
    ensures SignedPrefix(Decode(bytes).value) + Decode(bytes).value.signature == bytes <==>
            bytes[..4] == AsciiBytes(MAGIC) && PlainIds(bytes[18..], bytes[17], {})
  {
    DecodeParts(bytes);
    DecodedKeysValid(bytes);
    var f := Decode(bytes).value;
    KeysRebuilt(bytes[18..], bytes[17], {});
    HeadRebuilt(bytes);
    WholeSplits(bytes, HeadBytes(f.revocationEpoch, f.generatedAt, |f.keys|), KeysBytes(f.keys), f.signature);
  }

  /** Byte 225 of an id reads as the letter of byte 97. */
  lemma IdHighBitAccepted(rest: seq<Byte>)
    ensures ReadId([1, 0, 225] + rest) == ReadId([1, 0, 97] + rest) == Some(("a", rest))
  {
    var x: seq<Byte>, y: seq<Byte> := [1, 0, 225] + rest, [1, 0, 97] + rest;
    assert x[..2] == y[..2] == [1, 0] && [1, 0][1..] == [0] && [0][1..] == [];
    assert FromLe([]) == 0 && FromLe([0]) == 0 && FromLe([1, 0]) == 1;
    assert x[2..3] == [225] && y[2..3] == [97] && x[3..] == y[3..] == rest;
    assert MaskedText([225]) == MaskedText([97]) == "a";
  }

  /** The reader drops the high bit of the magic, so accepted bytes need not be what the printer prints. */
  lemma MagicHighBitAccepted(f: Frame)
    requires ValidFrame(f)
    ensures var bytes := SignedPrefix(f) + f.signature;
            var other := [bytes[0] + 128] + bytes[1..];
            other != bytes && Decode(other) == Ok(f)
  {
    var bytes := SignedPrefix(f) + f.signature;
    DecodeEncode(f);
    assert bytes[0] == AsciiBytes(MAGIC)[0];
    var x: Byte := bytes[0] + 128;
    var other: seq<Byte> := [x] + bytes[1..];
    assert other[..4] == [x] + bytes[1..4] && bytes[..4] == [bytes[0]] + bytes[1..4];
    assert MaskedText(other[..4]) == MaskedText(bytes[..4]);
    FirstReplaced(bytes, x, 5, 9);
    FirstReplaced(bytes, x, 9, 17);
    FirstReplaced(bytes, x, 18, |bytes|);
  }
}
