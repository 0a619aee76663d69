/**
 The length-prefixed byte encoding behind every fingerprint and digest
 (internal/shared/agentprotocol/command.go). Each `Put` function writes one field in front of
 the bytes that follow it, so reading a stream from the left peels the fields off in the order
 in which they were written.
 */
module Encoding {
  import opened Common

  function BigEndian(n: nat, width: nat): (r: string)
    ensures |r| == width
  {
    if width == 0 then "" else BigEndian(n / 256, width - 1) + [(n % 256) as char]
  }

  function Pow256(width: nat): (r: nat)
    ensures r > 0
  {
    if width == 0 then 1 else 256 * Pow256(width - 1)
  }

  lemma {:induction false} BigEndianInjective(a: nat, b: nat, width: nat)
    requires a < Pow256(width) && b < Pow256(width)
    requires BigEndian(a, width) == BigEndian(b, width)
    ensures a == b
  {
    if width > 0 {
      var x, y := BigEndian(a / 256, width - 1), BigEndian(b / 256, width - 1);
      var u, v := [(a % 256) as char], [(b % 256) as char];
      assert (x + u)[..width - 1] == x && (y + v)[..width - 1] == y;
      assert (x + u)[width - 1] == u[0] && (y + v)[width - 1] == v[0];
      BigEndianInjective(a / 256, b / 256, width - 1);
    }
  }

  /** `writeFingerprintUint64`: eight big-endian bytes. */
  function PutUint64(n: uint64, rest: string): (r: string) {
    BigEndian(n, 8) + rest
  }

  /** `writeFingerprintInt64` converts through uint64, which is two's complement. */
  function TwosComplement(n: int64): (r: uint64)
    ensures n >= 0 ==> r == n
    ensures n < 0 ==> r == n + TWO_64
  {
    if n >= 0 then n else n + TWO_64
  }

  function PutInt64(n: int64, rest: string): (r: string) {
    PutUint64(TwosComplement(n), rest)
  }

  function PutBool(b: bool, rest: string): (r: string) {
    PutUint64(if b then 1 else 0, rest)
  }

  /** What fits in a Go slice or string: `uint64(len(value))` never wraps. */
  ghost predicate Sized<T>(s: seq<T>) {
    |s| < TWO_64
  }

  /** `writeFingerprintString`: the length, then the bytes. */
  function PutString(s: string, rest: string): (r: string) {
    BigEndian(|s|, 8) + s + rest
  }

  function PutStrings(values: seq<string>, rest: string): (r: string) {
    if values == [] then rest else PutString(values[0], PutStrings(values[1..], rest))
  }

  /** A count, then the elements: how every list is written. */
  function PutStringList(values: seq<string>, rest: string): (r: string) {
    BigEndian(|values|, 8) + PutStrings(values, rest)
  }

  lemma PeelUint64(a: nat, b: nat, s: string, t: string)
    requires a < TWO_64 && b < TWO_64
    requires BigEndian(a, 8) + s == BigEndian(b, 8) + t
    ensures a == b && s == t
  {
    var x, y := BigEndian(a, 8), BigEndian(b, 8);
    assert x == (x + s)[..8] && y == (y + t)[..8];
    assert s == (x + s)[8..] && t == (y + t)[8..];
    assert Pow256(8) == TWO_64;
    BigEndianInjective(a, b, 8);
  }

  lemma PeelInt64(a: int64, b: int64, s: string, t: string)
    requires PutInt64(a, s) == PutInt64(b, t)
    ensures a == b && s == t
  {
    PeelUint64(TwosComplement(a), TwosComplement(b), s, t);
  }

  lemma PeelBool(a: bool, b: bool, s: string, t: string)
    requires PutBool(a, s) == PutBool(b, t)
    ensures a == b && s == t
  {
    PeelUint64(if a then 1 else 0, if b then 1 else 0, s, t);
  }

  lemma PeelString(a: string, b: string, s: string, t: string)
    requires Sized(a) && Sized(b)
    requires PutString(a, s) == PutString(b, t)
    ensures a == b && s == t
  {
    hide BigEndian, PutString;
    PutStringNested(a, s);
    PutStringNested(b, t);
    PeelUint64(|a|, |b|, a + s, b + t);
    assert a == (a + s)[..|a|] && b == (b + t)[..|b|];
    assert s == (a + s)[|a|..] && t == (b + t)[|b|..];
  }

  lemma PutStringNested(s: string, rest: string)
    ensures PutString(s, rest) == BigEndian(|s|, 8) + (s + rest)
  {
    hide BigEndian;
  }

  lemma {:induction false} PeelStrings(a: seq<string>, b: seq<string>, s: string, t: string)
    requires |a| == |b|
    requires forall x :: x in a || x in b ==> Sized(x)
    requires PutStrings(a, s) == PutStrings(b, t)
    ensures a == b && s == t
  {
    if a != [] {
      PeelString(a[0], b[0], PutStrings(a[1..], s), PutStrings(b[1..], t));
      PeelStrings(a[1..], b[1..], s, t);
      assert a == [a[0]] + a[1..] && b == [b[0]] + b[1..];
    }
  }

  ghost predicate SizedAll(values: seq<string>) {
    Sized(values) && forall i :: 0 <= i < |values| ==> Sized(values[i])
  }

  lemma PeelStringList(a: seq<string>, b: seq<string>, s: string, t: string)
    requires SizedAll(a) && SizedAll(b)
    requires PutStringList(a, s) == PutStringList(b, t)
    ensures a == b && s == t
  {
    PeelUint64(|a|, |b|, PutStrings(a, s), PutStrings(b, t));
    PeelStrings(a, b, s, t);
  }

  /** A field's bytes do not depend on what follows them. */
  lemma {:induction false} PutStringsAppend(values: seq<string>, rest: string)
    ensures PutStrings(values, rest) == PutStrings(values, "") + rest
  {
    if values != [] {
      PutStringsAppend(values[1..], rest);
    }
  }
}
