/** Bytes, the little-endian integers of the wire, and flattening of byte strings. */
module Bytes {

  type byte = x: int | 0 <= x < 256

  const U16_LIMIT := 0x1_0000
  const U32_LIMIT := 0x1_0000_0000

  function U16(n: nat): (s: seq<byte>)
    requires n < U16_LIMIT
    ensures |s| == 2
  {
    [n % 256, n / 256]
  }

  function U32(n: nat): (s: seq<byte>)
    requires n < U32_LIMIT
    ensures |s| == 4
  {
    U16(n % U16_LIMIT) + U16(n / U16_LIMIT)
  }

  predicate IsI32(n: int) { -0x8000_0000 <= n < 0x8000_0000 }

  /** Two's complement. */
  function I32(n: int): (s: seq<byte>)
    requires IsI32(n)
    ensures |s| == 4
  {
    U32(if n < 0 then n + U32_LIMIT else n)
  }

  function ReadU16(s: seq<byte>, offset: nat): nat
    requires offset + 2 <= |s|
  {
    s[offset] as int + 256 * (s[offset + 1] as int)
  }

  function ReadU32(s: seq<byte>, offset: nat): nat
    requires offset + 4 <= |s|
  {
    ReadU16(s, offset) + U16_LIMIT * ReadU16(s, offset + 2)
  }

  function ReadI32(s: seq<byte>, offset: nat): int
    requires offset + 4 <= |s|
  {
    var n := ReadU32(s, offset);
    if n < 0x8000_0000 then n else n - U32_LIMIT
  }

  function Flatten(ss: seq<seq<byte>>): seq<byte>
  {
    if ss == [] then [] else ss[0] + Flatten(ss[1..])
  }

  lemma {:induction false} FlattenConcat(a: seq<seq<byte>>, b: seq<seq<byte>>)
    ensures Flatten(a + b) == Flatten(a) + Flatten(b)
  {
    if a == [] {
      assert a + b == b;
    } else {
      hide Flatten;
      var x, rest := a[0], a[1..];
      assert a == [x] + rest && a + b == [x] + (rest + b);
      FlattenConcat(rest, b);
      FlattenCons(x, rest + b);
      FlattenCons(x, rest);
      assert x + (Flatten(rest) + Flatten(b)) == x + Flatten(rest) + Flatten(b);
    }
  }

  lemma FlattenCons(x: seq<byte>, ss: seq<seq<byte>>)
    ensures Flatten([x] + ss) == x + Flatten(ss)
  {
    assert ([x] + ss)[1..] == ss;
  }

  /** memcpy from outside the array, byte by byte. */
  method PutAt(a: array<byte>, at: nat, data: seq<byte>)
    requires at + |data| <= a.Length
    modifies a
    ensures a[..at] == old(a[..at]) && a[at..at + |data|] == data && a[at + |data|..] == old(a[at + |data|..])
  {
    for i := 0 to |data|
      invariant forall k :: 0 <= k < i ==> a[at + k] == data[k]
      invariant forall k :: 0 <= k < a.Length && !(at <= k < at + i) ==> a[k] == old(a[k])
    {
      a[at + i] := data[i];
    }
  }
}
