/**
  Little-endian numbers, length-prefixed strings and fixed-width fields, as the binary frames use them.
 */
module Bytes {
  import opened Wrappers

  type Byte = b: int | 0 <= b < 256

  const MAX_SAFE_INTEGER := 9007199254740991

  // --- little-endian numbers --------------------------------------------------------------

  function Pow256(w: nat): (p: int)
    ensures p > 0
  {
    if w == 0 then 1 else 256 * Pow256(w - 1)
  }

  function Le(v: nat, w: nat): (bytes: seq<Byte>)
    ensures |bytes| == w
  {
    if w == 0 then [] else [v % 256] + Le(v / 256, w - 1)
  }

  function FromLe(bytes: seq<Byte>): nat {
    if bytes == [] then 0 else bytes[0] + 256 * FromLe(bytes[1..])
  }

  lemma {:induction false} FromLeLe(v: nat, w: nat)
    requires v < Pow256(w)
    ensures FromLe(Le(v, w)) == v
  {
    if w > 0 {
      FromLeLe(v / 256, w - 1);
      assert Le(v, w)[1..] == Le(v / 256, w - 1);
    }
  }

  lemma {:induction false} LeFromLe(bytes: seq<Byte>)
    ensures Le(FromLe(bytes), |bytes|) == bytes
    ensures FromLe(bytes) < Pow256(|bytes|)
  {
    if bytes != [] {
      LeFromLe(bytes[1..]);
      var rest := FromLe(bytes[1..]);
      assert (bytes[0] + 256 * rest) % 256 == bytes[0] && (bytes[0] + 256 * rest) / 256 == rest;
      assert bytes == [bytes[0]] + bytes[1..];
    }
  }

  lemma Widths()
    ensures Pow256(1) == 0x100 && Pow256(2) == 0x1_0000
    ensures Pow256(4) == 0x1_0000_0000 && Pow256(8) == 0x1_0000_0000_0000_0000
  {
    assert Pow256(2) == 256 * Pow256(1);
    assert Pow256(3) == 256 * Pow256(2);
    assert Pow256(4) == 256 * Pow256(3);
    assert Pow256(5) == 256 * Pow256(4);
    assert Pow256(6) == 256 * Pow256(5);
    assert Pow256(7) == 256 * Pow256(6);
  }

  // --- text --------------------------------------------------------------------------------

  predicate IsIdChar(c: char) {
    'a' <= c <= 'z' || 'A' <= c <= 'Z' || '0' <= c <= '9' || c == '_' || c == '-'
  }

  /** The grammar of ids, lengths aside. */
  predicate IsIdText(s: string) {
    forall i :: 0 <= i < |s| ==> IsIdChar(s[i])
  }

  predicate IsAscii(s: string) {
    forall i :: 0 <= i < |s| ==> s[i] < 128 as char
  }

  /** Node's `ascii` encoding keeps the low byte of every character. */
  function AsciiBytes(s: string): (bytes: seq<Byte>)
    ensures |bytes| == |s|
  {
    seq(|s|, i requires 0 <= i < |s| => s[i] as int % 256)
  }

  /** Node's `ascii` decoding drops the high bit of every byte. */
  function MaskedText(bytes: seq<Byte>): (s: string)
    ensures |s| == |bytes|
  {
    seq(|bytes|, i requires 0 <= i < |bytes| => (bytes[i] % 128) as char)
  }

  predicate AllAsciiBytes(bytes: seq<Byte>) {
    forall i :: 0 <= i < |bytes| ==> bytes[i] < 128
  }

  lemma AsciiRoundTrip(s: string)
    requires IsAscii(s)
    ensures MaskedText(AsciiBytes(s)) == s && AllAsciiBytes(AsciiBytes(s))
  {
  }

  lemma BytesRoundTrip(bytes: seq<Byte>)
    requires AllAsciiBytes(bytes)
    ensures IsAscii(MaskedText(bytes)) && AsciiBytes(MaskedText(bytes)) == bytes
  {
  }

  // --- length-prefixed fields ------------------------------------------------------------------

  function Prefixed(field: seq<Byte>): seq<Byte> {
    Le(|field|, 2) + field
  }

  /** A field and what follows it; `None` when the bytes end too early. */
  function ReadPrefixed(bytes: seq<Byte>): Option<(seq<Byte>, seq<Byte>)> {
    if |bytes| < 2 then None
    else
      var len := FromLe(bytes[..2]);
      if 2 + len > |bytes| then None else Some((bytes[2..2 + len], bytes[2 + len..]))
  }

  lemma ReadPrefixedBack(field: seq<Byte>, rest: seq<Byte>)
    requires |field| < 0x1_0000
    ensures ReadPrefixed(Prefixed(field) + rest) == Some((field, rest))
  {
    Widths();
    FromLeLe(|field|, 2);
    var bytes := Prefixed(field) + rest;
    assert bytes[..2] == Le(|field|, 2);
    assert bytes[2..2 + |field|] == field && bytes[2 + |field|..] == rest;
  }

  lemma PrefixedBack(bytes: seq<Byte>)
    requires ReadPrefixed(bytes).Some?
    ensures var (field, rest) := ReadPrefixed(bytes).value;
            bytes == Prefixed(field) + rest && |field| < 0x1_0000
  {
    Widths();
    LeFromLe(bytes[..2]);
  }

  /** `n` fields in a row, and what follows them. */
  function ReadAll(bytes: seq<Byte>, n: nat): Option<(seq<seq<Byte>>, seq<Byte>)> {
    if n == 0 then Some(([], bytes))
    else
      match ReadPrefixed(bytes)
      case None => None
      case Some((field, rest)) =>
        match ReadAll(rest, n - 1)
        case None => None
        case Some((fields, end)) => Some(([field] + fields, end))
  }

  function PrefixedAll(fields: seq<seq<Byte>>): seq<Byte> {
    if fields == [] then [] else Prefixed(fields[0]) + PrefixedAll(fields[1..])
  }

  lemma {:induction false} ReadAllBack(fields: seq<seq<Byte>>, rest: seq<Byte>)
    requires forall i :: 0 <= i < |fields| ==> |fields[i]| < 0x1_0000
    ensures ReadAll(PrefixedAll(fields) + rest, |fields|) == Some((fields, rest))
  {
    if fields == [] {
      assert PrefixedAll(fields) + rest == rest;
    } else {
      var tail := PrefixedAll(fields[1..]) + rest;
      assert PrefixedAll(fields) + rest == Prefixed(fields[0]) + tail;
      ReadPrefixedBack(fields[0], tail);
      ReadAllBack(fields[1..], rest);
      assert [fields[0]] + fields[1..] == fields;
    }
  }

  lemma {:induction false} PrefixedAllBack(bytes: seq<Byte>, n: nat)
    requires ReadAll(bytes, n).Some?
    ensures var (fields, rest) := ReadAll(bytes, n).value;
            |fields| == n && bytes == PrefixedAll(fields) + rest
  {
    if n > 0 {
      PrefixedBack(bytes);
      var (field, rest) := ReadPrefixed(bytes).value;
      PrefixedAllBack(rest, n - 1);
      var (fields, end) := ReadAll(rest, n - 1).value;
      assert ([field] + fields)[1..] == fields;
      assert Prefixed(field) + (PrefixedAll(fields) + end) == (Prefixed(field) + PrefixedAll(fields)) + end;
    }
  }

  lemma Associative(a: seq<Byte>, b: seq<Byte>, c: seq<Byte>)
    ensures (a + b) + c == a + (b + c)
  {
  }

  /** Changing the first byte changes no later slice. */
  lemma FirstReplaced(bytes: seq<Byte>, x: Byte, i: nat, j: nat)
    requires 1 <= i <= j <= |bytes|
    ensures ([x] + bytes[1..])[i..j] == bytes[i..j]
    ensures ([x] + bytes[1..])[i..] == bytes[i..]
  {
    var other := [x] + bytes[1..];
    assert forall k :: 1 <= k < |bytes| ==> other[k] == bytes[k];
  }

  // --- fixed-width fields ----------------------------------------------------------------------

  /** Numbers one after another, each `w` bytes wide. */
  function NumbersBytes(vs: seq<nat>, w: nat): seq<Byte> {
    if vs == [] then [] else Le(vs[0], w) + NumbersBytes(vs[1..], w)
  }

  function ReadNumbers(bytes: seq<Byte>, w: nat, n: nat): seq<nat> {
    if n == 0 || |bytes| < w then [] else [FromLe(bytes[..w])] + ReadNumbers(bytes[w..], w, n - 1)
  }

  lemma {:induction false} ReadNumbersBack(vs: seq<nat>, w: nat)
    requires forall i :: 0 <= i < |vs| ==> vs[i] < Pow256(w)
    ensures ReadNumbers(NumbersBytes(vs, w), w, |vs|) == vs
  {
    if vs != [] {
      var bytes := NumbersBytes(vs, w);
      FromLeLe(vs[0], w);
      ReadNumbersBack(vs[1..], w);
      assert bytes[..w] == Le(vs[0], w) && bytes[w..] == NumbersBytes(vs[1..], w);
      assert [vs[0]] + vs[1..] == vs;
    }
  }

  lemma {:induction false} NumbersBytesBack(bytes: seq<Byte>, w: nat, n: nat)
    requires w > 0 && |bytes| == w * n
    ensures |ReadNumbers(bytes, w, n)| == n && NumbersBytes(ReadNumbers(bytes, w, n), w) == bytes
    ensures forall i :: 0 <= i < n ==> ReadNumbers(bytes, w, n)[i] < Pow256(w)
  {
    if n > 0 {
      Rows(w, n);
      var vs, rest := ReadNumbers(bytes, w, n), bytes[w..];
      NumbersBytesBack(rest, w, n - 1);
      LeFromLe(bytes[..w]);
      assert vs[1..] == ReadNumbers(rest, w, n - 1);
      assert bytes == bytes[..w] + rest;
    }
  }

  lemma Rows(w: nat, n: nat)
    requires n > 0
    ensures w * n == w + w * (n - 1) && w * (n - 1) >= 0
  {
  }

  lemma {:induction false} NumbersLength(vs: seq<nat>, w: nat)
    ensures |NumbersBytes(vs, w)| == w * |vs|
  {
    if vs != [] {
      NumbersLength(vs[1..], w);
      Rows(w, |vs|);
    }
  }

  /** Byte strings of one width one after another. */
  function Blocks(parts: seq<seq<Byte>>): seq<Byte> {
    if parts == [] then [] else parts[0] + Blocks(parts[1..])
  }

  function ReadBlocks(bytes: seq<Byte>, w: nat, n: nat): seq<seq<Byte>> {
    if n == 0 || |bytes| < w then [] else [bytes[..w]] + ReadBlocks(bytes[w..], w, n - 1)
  }

  lemma {:induction false} ReadBlocksBack(parts: seq<seq<Byte>>, w: nat)
    requires forall i :: 0 <= i < |parts| ==> |parts[i]| == w
    ensures ReadBlocks(Blocks(parts), w, |parts|) == parts && |Blocks(parts)| == w * |parts|
  {
    if parts != [] {
      var bytes := Blocks(parts);
      Rows(w, |parts|);
      ReadBlocksBack(parts[1..], w);
      assert bytes[..w] == parts[0] && bytes[w..] == Blocks(parts[1..]);
      assert [parts[0]] + parts[1..] == parts;
    }
  }

  lemma {:induction false} BlocksBack(bytes: seq<Byte>, w: nat, n: nat)
    requires |bytes| == w * n
    ensures |ReadBlocks(bytes, w, n)| == n && Blocks(ReadBlocks(bytes, w, n)) == bytes
    ensures forall i :: 0 <= i < n ==> |ReadBlocks(bytes, w, n)[i]| == w
  {
    if n > 0 {
      Rows(w, n);
      var rest := bytes[w..];
      BlocksBack(rest, w, n - 1);
      assert ReadBlocks(bytes, w, n)[1..] == ReadBlocks(rest, w, n - 1);
      assert bytes == bytes[..w] + rest;
    }
  }
}
