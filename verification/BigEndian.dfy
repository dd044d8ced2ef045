/** Fixed-width big-endian numbers: what `put_u16/u32/u64` write and
    `get_u16/u32/u64` read. */
module BigEndian {
  import opened Base

  function Pow256(n: nat): (p: nat)
    ensures p > 0
  {
    if n == 0 then 1 else 256 * Pow256(n - 1)
  }

  /** The lowest `n` bytes of `v`, most significant first. */
  function Put(v: nat, n: nat): (s: Bytes)
    ensures |s| == n
    decreases v, n
  {
    if n == 0 then [] else Put(v / 256, n - 1) + [v % 256]
  }

  function Get(s: Bytes): nat {
    if s == [] then 0 else 256 * Get(s[..|s| - 1]) + s[|s| - 1]
  }

  lemma {:induction false} GetPut(v: nat, n: nat)
    requires v < Pow256(n)
    ensures Get(Put(v, n)) == v
    decreases v, n
  {
    if n > 0 {
      GetPut(v / 256, n - 1);
      assert Put(v, n)[..n - 1] == Put(v / 256, n - 1);
    }
  }

  lemma {:induction false} PutGet(s: Bytes)
    ensures Put(Get(s), |s|) == s && Get(s) < Pow256(|s|)
  {
    if s != [] {
      PutGet(s[..|s| - 1]);
      var high, low := Get(s[..|s| - 1]), s[|s| - 1];
      assert Get(s) == 256 * high + low;
      assert Get(s) / 256 == high && Get(s) % 256 == low;
      assert s == s[..|s| - 1] + [low];
    }
  }

  lemma Widths()
    ensures Pow256(1) == 0x100 && Pow256(2) == U16 && Pow256(4) == U32 && Pow256(8) == U64
  {
    assert Pow256(3) == 0x100_0000;
    assert Pow256(4) == U32;
    assert Pow256(6) == 0x1_0000_0000_0000;
    assert Pow256(7) == 0x100_0000_0000_0000;
  }

  lemma RoundTrip(v: nat, n: nat)
    requires (n == 1 && v < 0x100) || (n == 2 && v < U16) || (n == 4 && v < U32) || (n == 8 && v < U64)
    ensures Get(Put(v, n)) == v
  {
    Widths();
    GetPut(v, n);
  }

  lemma Bounds(s: Bytes)
    requires |s| == 2 || |s| == 4 || |s| == 8
    ensures Get(s) < if |s| == 2 then U16 else if |s| == 4 then U32 else U64
  {
    Widths();
    PutGet(s);
  }

  // ---- writing into a preallocated buffer ----

  /** `memcpy(out + at, bytes)`. */
  method Copy(out: array<Byte>, at: nat, bytes: Bytes)
    requires at + |bytes| <= out.Length
    modifies out
    ensures out[..at + |bytes|] == old(out[..at]) + bytes
    ensures out[at + |bytes|..] == old(out[at + |bytes|..])
  {
    for k := 0 to |bytes|
      invariant out[..at] == old(out[..at])
      invariant out[at..at + k] == bytes[..k]
      invariant out[at + |bytes|..] == old(out[at + |bytes|..])
    {
      out[at + k] := bytes[k];
      assert out[at..at + k + 1] == out[at..at + k] + [bytes[k]];
    }
    assert out[..at + |bytes|] == out[..at] + out[at..at + |bytes|];
  }

  method PutU16(out: array<Byte>, at: nat, v: nat)
    requires at + 2 <= out.Length && v < U16
    modifies out
    ensures out[..at + 2] == old(out[..at]) + Put(v, 2)
  {
    out[at] := v / 0x100;
    out[at + 1] := v % 0x100;
    assert Put(v, 2) == [v / 0x100, v % 0x100] by { assert Put(v / 0x100, 1) == [v / 0x100]; }
    assert out[..at + 2] == old(out[..at]) + [v / 0x100, v % 0x100];
  }

  lemma FourBytes(v: nat)
    requires v < U32
    ensures Put(v, 4) == [v / 0x100_0000, v / 0x1_0000 % 0x100, v / 0x100 % 0x100, v % 0x100]
  {
    var v1 := v / 0x100;
    var v2 := v1 / 0x100;
    var v3 := v2 / 0x100;
    assert v2 == v / 0x1_0000 && v3 == v / 0x100_0000;
    assert Put(v3, 1) == [] + [v3];
    assert Put(v2, 2) == [v3] + [v2 % 0x100];
    assert Put(v1, 3) == Put(v2, 2) + [v1 % 0x100];
  }

  method PutU32(out: array<Byte>, at: nat, v: nat)
    requires at + 4 <= out.Length && v < U32
    modifies out
    ensures out[..at + 4] == old(out[..at]) + Put(v, 4)
  {
    FourBytes(v);
    out[at] := v / 0x100_0000;
    out[at + 1] := v / 0x1_0000 % 0x100;
    out[at + 2] := v / 0x100 % 0x100;
    out[at + 3] := v % 0x100;
    assert out[..at + 4] == old(out[..at]) + [out[at], out[at + 1], out[at + 2], out[at + 3]];
  }

  lemma GetSnoc(a: Bytes, b: Byte)
    ensures Get(a + [b]) == 256 * Get(a) + b
  {
    assert (a + [b])[..|a|] == a;
  }

  lemma GetHalves(a: Bytes, low: nat)
    requires low < U32
    ensures Get(a + Put(low, 4)) == U32 * Get(a) + low
  {
    FourBytes(low);
    var w, x, y, z := low / 0x100_0000, low / 0x1_0000 % 0x100, low / 0x100 % 0x100, low % 0x100;
    assert a + [w, x, y, z] == a + [w] + [x] + [y] + [z];
    assert low == 0x100_0000 * w + 0x1_0000 * x + 0x100 * y + z;
    hide Get, Put;
    GetSnoc(a, w);
    GetSnoc(a + [w], x);
    GetSnoc(a + [w] + [x], y);
    GetSnoc(a + [w] + [x] + [y], z);
  }

  /** A u64 is its two u32 halves. */
  lemma PutHalves(v: nat)
    requires v < U64
    ensures Put(v, 8) == Put(v / U32, 4) + Put(v % U32, 4)
  {
    var high, low := Put(v / U32, 4), Put(v % U32, 4);
    assert Get(high + low) == v by {
      RoundTrip(v / U32, 4);
      GetHalves(high, v % U32);
    }
    PutGet(high + low);
  }

  method PutU64(out: array<Byte>, at: nat, v: nat)
    requires at + 8 <= out.Length && v < U64
    modifies out
    ensures out[..at + 8] == old(out[..at]) + Put(v, 8)
  {
    PutU32(out, at, v / U32);
    PutU32(out, at + 4, v % U32);
    PutHalves(v);
  }
}
