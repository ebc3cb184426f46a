/**
 * Big-endian byte strings and the in-place counter `inc`
 * (src/chord/util.go:116-123).
 *
 * `BigEndian` is the unsigned value of a byte string read most significant
 * byte first (what Go's `binary.BigEndian.Uint64` computes for 8 bytes);
 * `ToBytes` is its inverse for a fixed width. `Incremented` specifies `inc`.
 */
module Bytes {
  import opened Arithmetic

  type byte = x: int | 0 <= x < 256

  /** 256^n, the number of values an n-byte string can hold. */
  function Pow256(n: nat): (p: nat)
    ensures p >= 1
  {
    if n == 0 then 1 else 256 * Pow256(n - 1)
  }

  /** Unsigned value of `s`, most significant byte first. */
  function BigEndian(s: seq<byte>): (v: nat)
    ensures v < Pow256(|s|)
  {
    if s == [] then 0
    else
      var p := BigEndian(s[..|s| - 1]);
      assert p <= Pow256(|s| - 1) - 1;
      p * 256 + s[|s| - 1]
  }

  /** Reading one more byte shifts the value left by 8 bits. */
  lemma BigEndianPrefix(s: seq<byte>, i: nat)
    requires i < |s|
    ensures BigEndian(s[..i + 1]) == BigEndian(s[..i]) * 256 + s[i]
  {
    assert s[..i + 1][..i] == s[..i];
  }

  /** The `width` low-order bytes of `v`, most significant first. */
  function ToBytes(v: nat, width: nat): (s: seq<byte>)
    ensures |s| == width
  {
    if width == 0 then [] else ToBytes(v / 256, width - 1) + [v % 256]
  }

  lemma {:induction false} ToBytesValue(v: nat, width: nat)
    ensures BigEndian(ToBytes(v, width)) == v % Pow256(width)
  {
    if width > 0 {
      var s := ToBytes(v, width);
      assert s[..width - 1] == ToBytes(v / 256, width - 1);
      ToBytesValue(v / 256, width - 1);
      DivModSplit(v, Pow256(width - 1));
    }
  }

  /** v mod 256*P, read as (v/256 mod P) * 256 + v mod 256. */
  lemma DivModSplit(v: nat, p: nat)
    requires p >= 1
    ensures v % (256 * p) == (v / 256) % p * 256 + v % 256
  {
    var q := v / 256;
    var r := v % 256;
    assert v == q * 256 + r;
    var k := q / p;
    var t := q % p;
    assert q == k * p + t;
    assert v == k * (256 * p) + (t * 256 + r);
    assert 0 <= t * 256 + r < 256 * p;
    ModUnique(v, 256 * p, k, t * 256 + r);
  }

  /** Reading back an encoding of the right width gives the bytes again. */
  lemma {:induction false} ToBytesOfBigEndian(s: seq<byte>)
    ensures ToBytes(BigEndian(s), |s|) == s
  {
    if s != [] {
      var n := |s|;
      var p := s[..n - 1];
      var v := BigEndian(s);
      assert v == BigEndian(p) * 256 + s[n - 1];
      ModUnique(v, 256, BigEndian(p), s[n - 1]);
      ToBytesOfBigEndian(p);
      assert s == p + [s[n - 1]];
    }
  }

  /** The effect of `inc`: add one to the last byte, carrying leftwards over
      bytes that overflow from 255 to 0. */
  function Incremented(s: seq<byte>): (r: seq<byte>)
    ensures |r| == |s|
  {
    if s == [] then []
    else if s[|s| - 1] < 255 then s[..|s| - 1] + [s[|s| - 1] + 1]
    else Incremented(s[..|s| - 1]) + [0]
  }

  /** `inc` is a big-endian counter: it adds one modulo 256^len. */
  lemma {:induction false} IncrementedValue(s: seq<byte>)
    ensures BigEndian(Incremented(s)) == (BigEndian(s) + 1) % Pow256(|s|)
  {
    if s == [] {
      ModSelf(1);
    } else {
      var n := |s|;
      var p := s[..n - 1];
      var r := Incremented(s);
      assert BigEndian(s) == BigEndian(p) * 256 + s[n - 1];
      if s[n - 1] < 255 {
        assert r == p + [s[n - 1] + 1];
        assert r[..n - 1] == p;
        assert BigEndian(r) == BigEndian(s) + 1;
        ModOfSmall(BigEndian(s) + 1, Pow256(n));
      } else {
        assert r == Incremented(p) + [0];
        assert r[..n - 1] == Incremented(p);
        IncrementedValue(p);
        if BigEndian(p) + 1 < Pow256(n - 1) {
          ModOfSmall(BigEndian(p) + 1, Pow256(n - 1));
          assert BigEndian(r) == BigEndian(s) + 1;
          ModOfSmall(BigEndian(s) + 1, Pow256(n));
        } else {
          ModSelf(Pow256(n - 1));
          assert BigEndian(r) == 0;
          assert BigEndian(s) + 1 == Pow256(n);
          ModSelf(Pow256(n));
        }
      }
    }
  }

  /** Shape of `inc`'s result: bytes left of the last byte that is below 255
      are unchanged, that byte goes up by one, and every byte to its right
      (all of them 255) becomes 0. */
  lemma {:induction false} IncrementedShape(s: seq<byte>, k: nat)
    requires k < |s| && s[k] < 255
    requires forall j :: k < j < |s| ==> s[j] == 255
    ensures Incremented(s)[..k] == s[..k]
    ensures Incremented(s)[k] == s[k] + 1
    ensures forall j :: k < j < |s| ==> Incremented(s)[j] == 0
  {
    var n := |s|;
    var p := s[..n - 1];
    if k == n - 1 {
      assert Incremented(s) == p + [s[k] + 1];
      assert Incremented(s)[..k] == p;
    } else {
      IncrementedShape(p, k);
      assert Incremented(s) == Incremented(p) + [0];
      assert Incremented(s)[..k] == Incremented(p)[..k];
      assert p[..k] == s[..k];
    }
  }

  /** All-0xFF wraps around to all-zero. */
  lemma {:induction false} IncrementedWraps(s: seq<byte>)
    requires forall j :: 0 <= j < |s| ==> s[j] == 255
    ensures Incremented(s) == seq(|s|, _ => 0)
  {
    if s != [] {
      var p := s[..|s| - 1];
      IncrementedWraps(p);
      assert Incremented(s) == Incremented(p) + [0];
    }
  }

  /** An encoded value, incremented, is the encoding of the next value
      modulo 256^width. */
  lemma IncrementedToBytes(v: nat, width: nat)
    requires v < Pow256(width)
    ensures Incremented(ToBytes(v, width)) == ToBytes((v + 1) % Pow256(width), width)
  {
    var s := ToBytes(v, width);
    ToBytesValue(v, width);
    ModOfSmall(v, Pow256(width));
    IncrementedValue(s);
    ToBytesOfBigEndian(Incremented(s));
  }

  /** `inc`: increments `ip` in place as a big-endian counter, right to left,
      stopping at the first byte that does not overflow. */
  method Inc(ip: array<byte>)
    modifies ip
    ensures ip[..] == Incremented(old(ip[..]))
  {
    ghost var s := ip[..];
    var j := ip.Length - 1;
    while j >= 0
      invariant -1 <= j < ip.Length
      invariant forall i :: 0 <= i <= j ==> ip[i] == s[i]
      invariant forall i :: j < i < ip.Length ==> ip[i] == 0 && s[i] == 255
    {
      ip[j] := (ip[j] as int + 1) % 256;
      if ip[j] > 0 {
        break;
      }
      j := j - 1;
    }
    if j >= 0 {
      IncrementedShape(s, j);
      assert ip[..] == Incremented(s);
    } else {
      IncrementedWraps(s);
      assert ip[..] == Incremented(s);
    }
  }
}
