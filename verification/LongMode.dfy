// Long-mode address translation.
module LongMode {
  import opened ByteSeq

  // Where a walk ends.  A page is writable and open to user mode only if
  // every level says so.
  datatype Walked =
    | Page(phys: nat, size: nat, writable: bool, user: bool)
    | NotPresent
    | OutsideMemory

  const SIZE_4K: nat := 0x1000
  const SIZE_2M: nat := 0x20_0000
  const SIZE_1G: nat := 0x4000_0000
  const SIZE_512G: nat := 0x80_0000_0000
  const SIZE_48BITS: nat := 0x1_0000_0000_0000

  predicate InMemory(mem: seq<byte>, table: nat) { table + 0x1000 <= |mem| }

  function Entry(mem: seq<byte>, table: nat, i: nat): nat
    requires InMemory(mem, table) && i < 512
  {
    LittleEndian(mem[table + 8 * i..table + 8 * i + 8])
  }

  predicate Present(e: nat) { e % 2 == 1 }
  predicate Writable(e: nat) { e / 2 % 2 == 1 }
  predicate User(e: nat) { e / 4 % 2 == 1 }
  predicate Large(e: nat) { e / 0x80 % 2 == 1 }

  // Bits 51-12 of an entry, and those of them that count for a page.
  function Base(e: nat, size: nat): nat
    requires size > 0
  {
    e % 0x10_0000_0000_0000 / size * size
  }

  function Leaf(e: nat, size: nat, v: nat, w: bool, u: bool): Walked
    requires size > 0
  {
    Page(Base(e, size) + v % size, size, w && Writable(e), u && User(e))
  }

  function WalkPt(mem: seq<byte>, table: nat, v: nat, w: bool, u: bool): Walked {
    if !InMemory(mem, table) then OutsideMemory
    else
      var e := Entry(mem, table, v / SIZE_4K % 512);
      if !Present(e) then NotPresent else Leaf(e, SIZE_4K, v, w, u)
  }

  function WalkPd(mem: seq<byte>, table: nat, v: nat, w: bool, u: bool): Walked {
    if !InMemory(mem, table) then OutsideMemory
    else
      var e := Entry(mem, table, v / SIZE_2M % 512);
      if !Present(e) then NotPresent
      else if Large(e) then Leaf(e, SIZE_2M, v, w, u)
      else WalkPt(mem, Base(e, SIZE_4K), v, w && Writable(e), u && User(e))
  }

  function WalkPdpt(mem: seq<byte>, table: nat, v: nat, w: bool, u: bool): Walked {
    if !InMemory(mem, table) then OutsideMemory
    else
      var e := Entry(mem, table, v / SIZE_1G % 512);
      if !Present(e) then NotPresent
      else if Large(e) then Leaf(e, SIZE_1G, v, w, u)
      else WalkPd(mem, Base(e, SIZE_4K), v, w && Writable(e), u && User(e))
  }

  // The walk for a 48-bit address v.
  function Walk(mem: seq<byte>, cr3: nat, v: nat): Walked {
    if !InMemory(mem, cr3) then OutsideMemory
    else
      var e := Entry(mem, cr3, v / SIZE_512G % 512);
      if !Present(e) then NotPresent
      else WalkPdpt(mem, Base(e, SIZE_4K), v, Writable(e), User(e))
  }
}
