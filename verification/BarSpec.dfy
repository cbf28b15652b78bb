// Base address registers of PCI devices and the shadow that the IOHub keeps
// of them: each device gets addresses of its own, and each guest believes in
// those it has chosen.
module BarSpec {
  const ONES: nat := 0xFFFF_FFFF
  const WRAP: nat := 0x1_0000_0000
  const WRAP64: nat := 0x1_0000_0000_0000_0000
  const IO_PREFIX: nat := 0x8000_0000_0000_0000
  const IO_START: nat := 0xC000
  const MEM_START: nat := 0xC100_0000

  // A register of a device: the size it asks for, what it holds and the
  // address the device answers to.
  datatype Bar = Bar(size: nat, reg: nat, addr: nat)

  datatype Shadow = Shadow(uniq: nat, size: nat, user: nat)

  predicate IsIo(v: nat) { v % 2 == 1 }

  // The bits that are not part of the base.
  function Flags(io: bool, v: nat): nat { if io then v % 4 else v % 16 }

  function Space(io: bool, a: nat): nat { if io then IO_PREFIX + a else a }

  // writeConfig for a register that is not a legacy one.
  function WriteBar(b: Bar, v: nat): Bar {
    var io := IsIo(b.reg);
    if v == ONES then
      var mask := Negate(b.size % WRAP);
      b.(reg := mask - Flags(io, mask) + Flags(io, b.reg))
    else
      var base := v - Flags(io, v);
      b.(reg := base + Flags(io, b.reg), addr := if base != 0 then Space(io, base) else b.addr)
  }

  // ---- startup ----

  datatype Alloc = Alloc(bars: seq<Bar>, shadows: seq<Shadow>, io: nat, mem: nat)

  function OrBit(x: nat, t: nat): nat { if t == 1 && x % 2 == 0 then x + 1 else x }

  // Two's complement in 32 bits.
  function Negate(x: nat): nat
    requires x < WRAP
  {
    if x == 0 then 0 else WRAP - x
  }

  function SizeFrom(v: nat): nat
    requires v < WRAP
  {
    Negate(v - v % 2)
  }

  // One register is probed, recorded and cleared; the next one of its kind
  // begins where it ends.
  function AllocNext(a: Alloc, b: Bar): Alloc {
    var p := WriteBar(b, ONES);
    var v := p.reg % WRAP;
    var size := SizeFrom(v);
    Alloc(a.bars + [WriteBar(p, 0)],
          a.shadows + [Shadow(OrBit(if IsIo(v) then a.io else a.mem, v % 2), size, v % 2)],
          if IsIo(v) then (a.io + size) % WRAP else a.io,
          if IsIo(v) then a.mem else (a.mem + size) % WRAP)
  }

  // The first n registers, device by device, five for each.
  function AllocAll(bars: seq<Bar>, n: nat): Alloc
    requires n <= |bars|
  {
    if n == 0 then Alloc([], [], IO_START, MEM_START) else AllocNext(AllocAll(bars, n - 1), bars[n - 1])
  }

  // ---- Accesses of guests ----

  // Addresses start..start+size of a guest are moved by offset.
  datatype Range = Range(start: nat, size: nat, offset: nat)

  datatype Hub = Hub(bars: seq<Bar>, shadows: seq<Shadow>, ranges: map<nat, seq<Range>>)

  predicate Contains(r: Range, a: int) { r.start <= a < r.start + r.size }

  predicate Overlap(r: Range, q: Range) {
    r.start < q.start + q.size && q.start < r.start + r.size
  }

  function RangesOf(h: Hub, g: nat): seq<Range> { if g in h.ranges then h.ranges[g] else [] }

  // The range map refuses what overlaps.
  function Insert(rs: seq<Range>, r: Range): seq<Range> {
    if exists i :: 0 <= i < |rs| && Overlap(rs[i], r) then rs else rs + [r]
  }

  function Find(rs: seq<Range>, a: nat): (i: nat)
    ensures i <= |rs| && (i < |rs| ==> Contains(rs[i], a))
    ensures i == |rs| ==> forall k :: 0 <= k < |rs| ==> !Contains(rs[k], a)
  {
    if rs == [] then 0
    else if Contains(rs[0], a) then 0
    else 1 + Find(rs[1..], a)
  }

  predicate PassesThrough(v: nat) { v - v % 2 == 0xFFFF_FFFE || v - v % 2 == 0 }

  // The offset is a difference of 32-bit numbers.
  function RangeFor(s: Shadow, v: nat): Range {
    Range(Space(IsIo(v), v - v % 2), s.size, (s.uniq - v) % WRAP)
  }

  // What the hook makes of a write by guest g to register i: it notes the
  // guest's address and puts the device's own into the packet.
  datatype Hooked = Hooked(hub: Hub, payload: nat)

  function HookWrite(h: Hub, g: nat, i: nat, v: nat): Hooked
    requires i < |h.shadows|
  {
    if PassesThrough(v) then Hooked(h, v)
    else
      var s := h.shadows[i];
      Hooked(h.(shadows := h.shadows[i := s.(user := v)],
                ranges := h.ranges[g := Insert(RangesOf(h, g), RangeFor(s, v))]),
             s.uniq)
  }

  // The write is accepted and reaches the device.
  function GuestWrite(h: Hub, g: nat, i: nat, v: nat): Hub
    requires i < |h.bars| == |h.shadows|
  {
    var k := HookWrite(h, g, i, v);
    k.hub.(bars := h.bars[i := WriteBar(h.bars[i], k.payload)])
  }

  // The write is refused k times; the sender offers the packet again as it is.
  function Refused(h: Hub, g: nat, i: nat, v: nat, k: nat): (r: Hooked)
    requires i < |h.shadows|
    ensures |r.hub.shadows| == |h.shadows| && r.hub.bars == h.bars
  {
    if k == 0 then Hooked(h, v)
    else
      var r := Refused(h, g, i, v, k - 1);
      HookWrite(r.hub, g, i, r.payload)
  }

  // What the hook makes of what was read from register i.
  function HookRead(h: Hub, i: nat, x: nat): nat
    requires i < |h.shadows|
  {
    if x == h.shadows[i].uniq then h.shadows[i].user else x
  }

  function GuestRead(h: Hub, i: nat): nat
    requires i < |h.bars| == |h.shadows|
  {
    HookRead(h, i, h.bars[i].reg)
  }

  function Remap(h: Hub, g: nat, a: nat): nat {
    var i := Find(RangesOf(h, g), a);
    if i < |RangesOf(h, g)| then (a + RangesOf(h, g)[i].offset) % WRAP64 else a
  }
}
