// Bytes, byte strings and small sets of numbers.
module ByteSeq {
  newtype byte = x: int | 0 <= x < 256

  function Zeros(n: nat): (s: seq<byte>)
    ensures |s| == n && forall i :: 0 <= i < n ==> s[i] == 0
  {
    seq(n, i => 0)
  }

  // The number a string stands for, least significant byte first.
  function LittleEndian(b: seq<byte>): nat {
    if b == [] then 0 else b[0] as nat + 0x100 * LittleEndian(b[1..])
  }

  lemma {:induction false} ZerosAreZero(s: seq<byte>)
    requires forall i :: 0 <= i < |s| ==> s[i] == 0
    ensures LittleEndian(s) == 0
  {
    if s != [] { ZerosAreZero(s[1..]); }
  }

  // v takes the place of what was at k.
  function Splice(s: seq<byte>, k: nat, v: seq<byte>): (r: seq<byte>)
    requires k + |v| <= |s|
    ensures |r| == |s|
    ensures forall i :: 0 <= i < |s| ==> r[i] == if k <= i < k + |v| then v[i - k] else s[i]
  {
    s[..k] + v + s[k + |v|..]
  }

  lemma SpliceAgain(s: seq<byte>, k: nat, v: seq<byte>, w: seq<byte>)
    requires k + |v| + |w| <= |s|
    ensures Splice(Splice(s, k, v), k + |v|, w) == Splice(s, k, v + w)
  {}

  lemma SpliceKeepsApart(s: seq<byte>, k: nat, v: seq<byte>, i: nat, n: nat)
    requires k + |v| <= |s| && i + n <= |s| && (i + n <= k || k + |v| <= i)
    ensures Splice(s, k, v)[i..i + n] == s[i..i + n]
  {}

  lemma SpliceHolds(s: seq<byte>, k: nat, v: seq<byte>)
    requires k + |v| <= |s|
    ensures Splice(s, k, v)[k..k + |v|] == v
  {}

  // The n bytes of a number.
  function ToBytes(v: nat, n: nat): (b: seq<byte>)
    ensures |b| == n
  {
    if n == 0 then [] else [(v % 0x100) as byte] + ToBytes(v / 0x100, n - 1)
  }

  function Pow256(n: nat): nat {
    if n == 0 then 1 else 0x100 * Pow256(n - 1)
  }

  lemma {:induction false} BytesRoundTrip(v: nat, n: nat)
    requires v < Pow256(n)
    ensures LittleEndian(ToBytes(v, n)) == v
  {
    if n > 0 {
      BytesRoundTrip(v / 0x100, n - 1);
      assert ToBytes(v, n)[1..] == ToBytes(v / 0x100, n - 1);
    }
  }

  lemma LowByte(lo: nat, rest: nat)
    ensures (lo + 0x100 * rest) % 0x100 == lo % 0x100 && (lo + 0x100 * rest) / 0x100 == lo / 0x100 + rest
  {}

  lemma PowTimes(n: nat, hi: nat)
    requires n > 0
    ensures Pow256(n) * hi == 0x100 * (Pow256(n - 1) * hi)
  {}

  lemma {:induction false} BytesOfSum(lo: nat, n: nat, hi: nat, m: nat)
    requires lo < Pow256(n)
    ensures ToBytes(lo + Pow256(n) * hi, n + m) == ToBytes(lo, n) + ToBytes(hi, m)
  {
    if n > 0 {
      var rest := Pow256(n - 1) * hi;
      PowTimes(n, hi);
      LowByte(lo, rest);
      BytesOfSum(lo / 0x100, n - 1, hi, m);
      calc {
        ToBytes(lo + Pow256(n) * hi, n + m);
        { hide Pow256; }
        [(lo % 0x100) as byte] + ToBytes(lo / 0x100 + rest, n - 1 + m);
        { hide Pow256; }
        ToBytes(lo, n) + ToBytes(hi, m);
      }
    }
  }

  lemma Pow256Values()
    ensures Pow256(2) == 0x1_0000 && Pow256(4) == 0x1_0000_0000 && Pow256(8) == 0x1_0000_0000_0000_0000
  {
    assert Pow256(1) == 0x100;
    assert Pow256(3) == 0x100_0000;
    assert Pow256(5) == 0x100_0000_0000;
    assert Pow256(6) == 0x1_0000_0000_0000;
    assert Pow256(7) == 0x100_0000_0000_0000;
  }

  function Below(n: nat): (r: set<nat>)
    ensures forall i :: i in r <==> 0 <= i < n
  {
    if n == 0 then {} else Below(n - 1) + {n - 1}
  }

  lemma AddOne(s: set<nat>, x: nat)
    requires x !in s
    ensures |s + {x}| == |s| + 1
  {}

  lemma {:induction false} BelowCard(n: nat)
    ensures |Below(n)| == n
  {
    if n > 0 {
      BelowCard(n - 1);
      AddOne(Below(n - 1), n - 1);
    }
  }
}
