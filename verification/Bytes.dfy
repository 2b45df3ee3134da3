/** Machine words, big-endian numbers and C strings, as the message code uses them. */
module Bytes {

  type byte = x: int | 0 <= x < 0x100
  type int32 = x: int | -0x8000_0000 <= x < 0x8000_0000
  type int64 = x: int | -0x8000_0000_0000_0000 <= x < 0x8000_0000_0000_0000

  /** The characters of a NUL-terminated string, terminator excluded. */
  type CString = s: seq<byte> | 0 !in s

  datatype Option<+T> = None | Some(value: T)

  /** Conversion of a wider integer to `int`: the low 32 bits, read as two's complement. */
  function Wrap32(n: int): (r: int32)
    ensures -0x8000_0000 <= n < 0x8000_0000 ==> r == n
  {
    (n + 0x8000_0000) % 0x1_0000_0000 - 0x8000_0000
  }

  /** It is the only number of that width that differs by a multiple of 2^32. */
  lemma WrapIsCongruent(n: int, r: int32)
    ensures r == Wrap32(n) <==> (n - r) % 0x1_0000_0000 == 0
  {
    var w := Wrap32(n);
    var q := (n + 0x8000_0000) / 0x1_0000_0000;
    assert n - w == q * 0x1_0000_0000;
    if (n - r) % 0x1_0000_0000 == 0 {
      var p := (n - r) / 0x1_0000_0000;
      assert n - r == p * 0x1_0000_0000;
      assert w - r == (p - q) * 0x1_0000_0000;
    }
  }

  function Pow256(k: nat): nat {
    if k == 0 then 1 else 256 * Pow256(k - 1)
  }

  /** The low `k` bytes of `v`, most significant first. */
  function BE(v: nat, k: nat): (s: seq<byte>)
    ensures |s| == k
  {
    if k == 0 then [] else BE(v / 256, k - 1) + [v % 256]
  }

  function FromBE(s: seq<byte>): nat {
    if |s| == 0 then 0 else FromBE(s[..|s| - 1]) * 256 + s[|s| - 1]
  }

  lemma {:induction false} BERoundTrip(v: nat, k: nat)
    requires v < Pow256(k)
    ensures FromBE(BE(v, k)) == v
  {
    if k == 0 {
    } else {
      BERoundTrip(v / 256, k - 1);
      assert BE(v, k)[..k - 1] == BE(v / 256, k - 1);
    }
  }

  lemma Pow256Values()
    ensures Pow256(1) == 0x100 && Pow256(2) == 0x1_0000
    ensures Pow256(4) == 0x1_0000_0000 && Pow256(8) == 0x1_0000_0000_0000_0000
  {
    assert Pow256(3) == 0x100_0000;
    assert Pow256(5) == 0x100_0000_0000;
    assert Pow256(6) == 0x1_0000_0000_0000;
    assert Pow256(7) == 0x100_0000_0000_0000;
  }

  /** What C code sees through a `char*` to these bytes: everything before the first NUL. */
  function CStr(s: seq<byte>): (r: CString)
  {
    if |s| == 0 || s[0] == 0 then [] else [s[0]] + CStr(s[1..])
  }

  lemma {:induction false} CStrOfTerminated(s: CString, rest: seq<byte>)
    ensures CStr(s + [0] + rest) == s
  {
    if |s| == 0 {
      assert (s + [0] + rest)[0] == 0;
    } else {
      CStrOfTerminated(s[1..], rest);
      assert (s + [0] + rest)[1..] == s[1..] + [0] + rest;
    }
  }
}
