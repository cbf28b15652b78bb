module BarProofs {
  import opened BarSpec

  // A register as devices have them: the only flag is the kind, and the size
  // is a multiple of the flag bits (it is a power of two).
  predicate Good(b: Bar) {
    && b.reg < WRAP && b.size < WRAP
    && Flags(IsIo(b.reg), b.reg) == b.reg % 2
    && Flags(IsIo(b.reg), b.size) == 0
  }

  // No device answers to anything yet.
  ghost predicate AllGood(bars: seq<Bar>) {
    forall i :: 0 <= i < |bars| ==> Good(bars[i]) && bars[i].addr == 0
  }

  // ---- Startup ----

  // Where the registers of one kind have got to after the first n.
  function Reach(bars: seq<Bar>, n: nat, io: bool): nat
    requires n <= |bars|
  {
    if n == 0 then if io then IO_START else MEM_START
    else Reach(bars, n - 1, io) + if IsIo(bars[n - 1].reg) == io then bars[n - 1].size else 0
  }

  ghost predicate Fits(bars: seq<Bar>) {
    Reach(bars, |bars|, true) < WRAP && Reach(bars, |bars|, false) < WRAP
  }

  lemma {:induction false} ReachGrows(bars: seq<Bar>, n: nat, m: nat, io: bool)
    requires n <= m <= |bars|
    ensures Reach(bars, n, io) <= Reach(bars, m, io)
  {
    if n < m { ReachGrows(bars, n, m - 1, io); }
  }

  lemma ReachNext(bars: seq<Bar>, n: nat)
    requires n < |bars|
    ensures var io := IsIo(bars[n].reg); Reach(bars, n + 1, io) == Reach(bars, n, io) + bars[n].size
  {}

  lemma {:induction false} ReachIsAligned(bars: seq<Bar>, n: nat, io: bool)
    requires AllGood(bars) && n <= |bars|
    ensures Flags(io, Reach(bars, n, io)) == 0
  {
    if n > 0 {
      ReachIsAligned(bars, n - 1, io);
      assert Good(bars[n - 1]);
      hide Flags; hide Good;
      GoodGives(bars[n - 1]);
      if IsIo(bars[n - 1].reg) == io { SumIsAligned(io, Reach(bars, n - 1, io), bars[n - 1].size); }
    } else {
      assert Flags(true, IO_START) == 0 && Flags(false, MEM_START) == 0;
    }
  }

  lemma GoodGives(b: Bar)
    requires Good(b)
    ensures b.reg < WRAP && b.size < WRAP && Flags(IsIo(b.reg), b.size) == 0 && Flags(IsIo(b.reg), b.reg) == b.reg % 2
  {}

  lemma SumIsAligned(io: bool, x: nat, y: nat)
    requires Flags(io, x) == 0 && Flags(io, y) == 0
    ensures Flags(io, x + y) == 0
  {
    var q := Quotient(io, x);
    var r := Quotient(io, y);
    hide Flags;
    FlagsOfSum(io, q + r, 0);
  }

  // Writing all ones shows the size; writing zero clears what it did.
  lemma ProbeShowsSize(b: Bar)
    requires Good(b)
    ensures var p := WriteBar(b, ONES);
            && p.reg == Negate(b.size) + b.reg % 2 && p.reg < WRAP
            && IsIo(p.reg) == IsIo(b.reg) && SizeFrom(p.reg) == b.size
            && WriteBar(p, 0) == b.(reg := b.reg % 2)
  {
    ProbeIs(b);
    hide Negate; hide SizeFrom;
    var p := WriteBar(b, ONES);
    assert WriteBar(p, 0) == b.(reg := b.reg % 2) by { ClearIs(p); }
  }

  lemma ClearIs(b: Bar)
    ensures WriteBar(b, 0) == b.(reg := Flags(IsIo(b.reg), b.reg))
  {}

  lemma Mod2(q: nat, t: nat)
    requires t < 2
    ensures (2 * q + t) % 2 == t
  {}

  lemma Mod4(q: nat, t: nat)
    requires t < 4
    ensures (4 * q + t) % 4 == t
  {}

  lemma Mod16(q: nat, t: nat)
    requires t < 16
    ensures (16 * q + t) % 16 == t
  {}

  // A multiple of the flag bits, as such.
  lemma Quotient(io: bool, x: nat) returns (q: nat)
    requires Flags(io, x) == 0
    ensures x == (if io then 4 else 16) * q
  {
    q := if io then x / 4 else x / 16;
  }

  lemma NegateKeepsFlags(io: bool, x: nat)
    requires x < WRAP && Flags(io, x) == 0
    ensures Flags(io, Negate(x)) == 0 && Negate(x) < WRAP && Negate(Negate(x)) == x
  {
    var q := Quotient(io, x);
    if io { Mod4(if q == 0 then 0 else 0x4000_0000 - q, 0); } else { Mod16(if q == 0 then 0 else 0x1000_0000 - q, 0); }
  }

  lemma FlagsAdd(io: bool, base: nat, t: nat)
    requires Flags(io, base) == 0 && t < 2
    ensures Flags(io, base + t) == t && (base + t) % 2 == t
    ensures base < WRAP ==> base + t < ONES || (t == 1 && base == ONES - 1)
  {
    var q := Quotient(io, base);
    hide Flags;
    assert Flags(io, base + t) == t by { FlagsOfSum(io, q, t); }
    Mod2(if io then 2 * q else 8 * q, t);
  }

  lemma FlagsOfSum(io: bool, q: nat, t: nat)
    requires t < 2
    ensures Flags(io, (if io then 4 else 16) * q + t) == t
  {
    if io { Mod4(q, t); } else { Mod16(q, t); }
  }

  lemma ProbeIs(b: Bar)
    requires Good(b)
    ensures var p, t := WriteBar(b, ONES), b.reg % 2;
            && p == b.(reg := Negate(b.size) + t) && p.reg < WRAP && p.reg % 2 == t
            && SizeFrom(p.reg) == b.size && Flags(IsIo(b.reg), p.reg) == t
  {
    NegateKeepsFlags(IsIo(b.reg), b.size);
    FlagsAdd(IsIo(b.reg), Negate(b.size), b.reg % 2);
    hide Negate; hide Flags;
  }

  ghost predicate ShadowFits(bars: seq<Bar>, a: Alloc, i: nat)
    requires i < |bars| && i < |a.bars| && i < |a.shadows|
  {
    var b, io := bars[i], IsIo(bars[i].reg);
    && a.bars[i] == b.(reg := b.reg % 2)
    && a.shadows[i] == Shadow(Reach(bars, i, io) + b.reg % 2, b.size, b.reg % 2)
  }

  // What one round records, in plain numbers.
  lemma AllocNextIs(a: Alloc, b: Bar)
    requires Good(b)
    requires var io := IsIo(b.reg);
             var base := if io then a.io else a.mem;
             Flags(io, base) == 0 && base + b.size < WRAP
    ensures var io, t := IsIo(b.reg), b.reg % 2;
            var base := if io then a.io else a.mem;
            AllocNext(a, b) == Alloc(a.bars + [b.(reg := t)], a.shadows + [Shadow(base + t, b.size, t)],
                                     if io then base + b.size else a.io, if io then a.mem else base + b.size)
  {
    var io := IsIo(b.reg);
    var base := if io then a.io else a.mem;
    ProbeShowsSize(b);
    FlagsAdd(io, base, 0);
    hide WriteBar; hide SizeFrom; hide Good; hide Flags;
    Small(base + b.size);
    Small(WriteBar(b, ONES).reg);
  }

  lemma Small(x: nat)
    requires x < WRAP
    ensures x % WRAP == x
  {}

  lemma {:induction false} AllocIs(bars: seq<Bar>, n: nat)
    requires AllGood(bars) && Fits(bars) && n <= |bars|
    ensures var a := AllocAll(bars, n);
            && |a.bars| == |a.shadows| == n
            && a.io == Reach(bars, n, true) && a.mem == Reach(bars, n, false)
            && forall i :: 0 <= i < n ==> ShadowFits(bars, a, i)
  {
    hide AllocNext; hide Good; hide Flags;
    if n > 0 {
      AllocIs(bars, n - 1);
      var before, b := AllocAll(bars, n - 1), bars[n - 1];
      var io := IsIo(b.reg);
      ReachIsAligned(bars, n - 1, io);
      ReachGrows(bars, n, |bars|, io);
      AllocNextIs(before, b);
      var a := AllocAll(bars, n);
      forall i | 0 <= i < n
        ensures ShadowFits(bars, a, i)
      {
        if i < n - 1 { assert ShadowFits(bars, before, i); }
      }
    }
  }

  // What the device does with the address it was given.
  ghost predicate Survives(b: Bar, s: Shadow, bar: Bar) {
    && s.size == bar.size && IsIo(s.uniq) == IsIo(bar.reg)
    && WriteBar(b, s.uniq).reg == s.uniq
    && WriteBar(b, s.uniq).addr == Space(IsIo(s.uniq), s.uniq - s.uniq % 2)
  }

  lemma ReachIsInside(bars: seq<Bar>, k: nat, io: bool)
    requires Fits(bars) && k <= |bars|
    ensures 0 < Reach(bars, k, io) < WRAP
  {
    ReachGrows(bars, 0, k, io);
    ReachGrows(bars, k, |bars|, io);
  }

  lemma EachSurvives(bars: seq<Bar>, k: nat)
    requires AllGood(bars) && Fits(bars) && k < |bars|
    ensures var a := AllocAll(bars, |bars|);
            k < |a.bars| == |a.shadows| && Survives(a.bars[k], a.shadows[k], bars[k])
  {
    hide AllocAll; hide WriteBar; hide AllGood; hide Flags; hide Reach;
    AllocIs(bars, |bars|);
    var a, io := AllocAll(bars, |bars|), IsIo(bars[k].reg);
    assert ShadowFits(bars, a, k);
    ReachIsAligned(bars, k, io);
    ReachIsInside(bars, k, io);
    UniqSurvives(a.bars[k], a.shadows[k].uniq, Reach(bars, k, io));
  }

  // Registers of one kind have ranges of their own, at a base that the
  // device's own masking leaves alone.
  lemma StartupIsSound(bars: seq<Bar>, i: nat, j: nat)
    requires AllGood(bars) && Fits(bars) && i < j < |bars|
    ensures var a := AllocAll(bars, |bars|);
            && |a.bars| == |a.shadows| == |bars|
            && Survives(a.bars[i], a.shadows[i], bars[i]) && Survives(a.bars[j], a.shadows[j], bars[j])
            && (IsIo(bars[i].reg) == IsIo(bars[j].reg) ==>
                  a.shadows[i].uniq + a.shadows[i].size <= a.shadows[j].uniq)
  {
    AllocIs(bars, |bars|);
    EachSurvives(bars, i);
    EachSurvives(bars, j);
    ReachNext(bars, i);
    ReachGrows(bars, i + 1, j, IsIo(bars[i].reg));
    hide AllocAll; hide Survives; hide AllGood; hide Fits; hide Reach;
    var a := AllocAll(bars, |bars|);
    assert ShadowFits(bars, a, i) && ShadowFits(bars, a, j);
  }

  lemma UniqSurvives(b: Bar, uniq: nat, base: nat)
    requires b.reg < 2 && uniq == base + b.reg && Flags(IsIo(b.reg), base) == 0 && 0 < base < WRAP
    ensures WriteBar(b, uniq).reg == uniq && uniq % 2 == b.reg && uniq != ONES
    ensures WriteBar(b, uniq).addr == Space(IsIo(b.reg), base)
  {
    FlagsAdd(IsIo(b.reg), base, b.reg);
    FlagsAdd(IsIo(b.reg), 0, b.reg);
    NotOnes(IsIo(b.reg), base);
    hide Flags;
  }

  lemma NotOnes(io: bool, base: nat)
    requires Flags(io, base) == 0
    ensures base != ONES && base != ONES - 1
  {}
}
