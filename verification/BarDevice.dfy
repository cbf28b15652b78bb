// The IOHub updated in place.
module BarDevice {
  import opened BarSpec

  class IoHub {
    var bars: seq<Bar>
    var shadows: seq<Shadow>
    var ranges: map<nat, seq<Range>>

    ghost function Model(): Hub
      reads this
    {
      Hub(bars, shadows, ranges)
    }

    // Five registers of each device, one device after the other.
    method Startup(devices: seq<Bar>)
      modifies this
      ensures var a := AllocAll(devices, |devices|); Model() == Hub(a.bars, a.shadows, map[])
    {
      hide WriteBar; hide SizeFrom;
      var io: nat, mem: nat := IO_START, MEM_START;
      bars, shadows, ranges := [], [], map[];
      for i := 0 to |devices|
        invariant Alloc(bars, shadows, io, mem) == AllocAll(devices, i) && ranges == map[]
      {
        var b := WriteBar(devices[i], ONES);
        var v := b.reg % WRAP;
        var t, size := v % 2, SizeFrom(v);
        shadows := shadows + [Shadow(OrBit(if t == 1 then io else mem, t), size, t)];
        b := WriteBar(b, 0);
        bars := bars + [b];
        if t == 1 {
          io := (io + size) % WRAP;
        } else {
          mem := (mem + size) % WRAP;
        }
      }
    }

    // The request side of hookPciAccess: the value that goes on to the device.
    method HookRequest(g: nat, i: nat, v: nat) returns (value: nat)
      requires i < |bars| == |shadows|
      modifies this`shadows, this`ranges
      ensures Hooked(Model(), value) == HookWrite(old(Model()), g, i, v)
    {
      value := v;
      if v - v % 2 != 0xFFFF_FFFE && v - v % 2 != 0 {
        var s := shadows[i];
        var rs := if g in ranges then ranges[g] else [];
        shadows := shadows[i := s.(user := v)];
        ranges := ranges[g := Insert(rs, RangeFor(s, v))];
        value := s.uniq;
      }
    }

    // The response side.
    method HookResponse(i: nat, x: nat) returns (v: nat)
      requires i < |shadows|
      ensures v == HookRead(Model(), i, x)
    {
      v := x;
      if x == shadows[i].uniq {
        v := shadows[i].user;
      }
    }

    // A write is hooked and then reaches the device, or is refused.
    method WriteRegister(g: nat, i: nat, v: nat, taken: bool) returns (value: nat)
      requires i < |bars| == |shadows|
      modifies this
      ensures value == HookWrite(old(Model()), g, i, v).payload
      ensures Model() == if taken then GuestWrite(old(Model()), g, i, v) else HookWrite(old(Model()), g, i, v).hub
    {
      value := HookRequest(g, i, v);
      if taken {
        bars := bars[i := WriteBar(bars[i], value)];
      }
    }

    // The device, then the response side of the hook.
    method ReadRegister(i: nat) returns (v: nat)
      requires i < |bars| == |shadows|
      ensures v == GuestRead(Model(), i)
    {
      v := HookResponse(i, bars[i].reg);
    }

    method RemapAddr(addr: nat, g: nat) returns (a: nat)
      ensures a == Remap(Model(), g, addr)
    {
      a := addr;
      if g in ranges {
        var rs := ranges[g];
        var i := 0;
        while i < |rs|
          invariant 0 <= i <= |rs| && a == addr && Find(rs, addr) == i + Find(rs[i..], addr)
        {
          if Contains(rs[i], addr) {
            return (addr + rs[i].offset) % WRAP64;
          }
          i := i + 1;
        }
      }
    }
  }
}
