// The tables that the system builds for a guest.
module PageTables {
  import opened ByteSeq
  import opened LongMode
  import opened PortProxy

  const PML4: nat := 0x7_0000
  const PDPT: nat := 0x7_1000
  const PDT: nat := 0x7_2000     // four of them, end to end
  const TABLES_END: nat := 0x7_6000

  const NOT_PRESENT: nat := 0x6
  const TO_TABLE: nat := 0x7
  const BIG_PAGE: nat := 0x87

  // Memory by quadwords.
  function Quad(mem: seq<byte>, q: nat): seq<byte>
    requires 8 * q + 8 <= |mem|
  {
    mem[8 * q..8 * q + 8]
  }

  // The value that belongs in quadword q of the tables.
  function TableEntry(q: nat): nat {
    if q == 0xE000 then TO_TABLE + PDPT
    else if q < 0xE200 then NOT_PRESENT
    else if q < 0xE204 then TO_TABLE + PDT + 0x1000 * (q - 0xE200)
    else if q < 0xE400 then NOT_PRESENT
    else BIG_PAGE + SIZE_2M * (q - 0xE400)
  }

  predicate HoldsAt(mem: seq<byte>, q: nat)
    requires 8 * q + 8 <= |mem|
  {
    Quad(mem, q) == ToBytes(TableEntry(q), 8)
  }

  ghost predicate HoldsTables(mem: seq<byte>) {
    |mem| >= TABLES_END && forall q :: 0xE000 <= q < 0xEC00 ==> HoldsAt(mem, q)
  }

  lemma QuadAfter(mem: seq<byte>, q: nat, v: seq<byte>, q': nat)
    requires |v| == 8 && 8 * q + 8 <= |mem| && 8 * q' + 8 <= |mem|
    ensures Quad(Splice(mem, 8 * q, v), q') == if q == q' then v else Quad(mem, q')
  {
    if q == q' { SpliceHolds(mem, 8 * q, v); } else { SpliceKeepsApart(mem, 8 * q, v, 8 * q', 8); }
  }

  // ---- The walk over them ----

  lemma EntryIs(mem: seq<byte>, table: nat, i: nat)
    requires HoldsTables(mem) && i < 512 && table % 0x1000 == 0 && PML4 <= table < TABLES_END
    ensures InMemory(mem, table) && Entry(mem, table, i) == TableEntry(table / 8 + i)
  {
    var q := table / 8 + i;
    assert 8 * q == table + 8 * i;
    assert HoldsAt(mem, q);
    Pow256Values();
    BytesRoundTrip(TableEntry(q), 8);
  }

  lemma DirectoryIndex(v: nat)
    requires v < 4 * SIZE_1G
    ensures v / SIZE_1G % 512 < 4
    ensures 512 * (v / SIZE_1G % 512) + v / SIZE_2M % 512 == v / SIZE_2M
    ensures v / SIZE_512G % 512 == 0
  {}

  lemma BigPageBase(k: nat)
    requires k < 2048
    ensures Base(0x87 + 0x20_0000 * k, 0x20_0000) == 0x20_0000 * k
  {}

  lemma Bit7(j: nat, r: nat)
    requires r < 0x80
    ensures Large(0x80 * (1 + 2 * j) + r)
  {}

  lemma BigPageIsLarge(k: nat)
    ensures Large(0x87 + 0x20_0000 * k)
  {
    hide Large;
    Bit7(0x2000 * k, 7);
  }

  lemma BigPageIsOpen(k: nat)
    ensures var e := 0x87 + 0x20_0000 * k; Present(e) && Writable(e) && User(e)
  {
    var e := 0x87 + 0x20_0000 * k;
    assert e / 4 == 1 + 2 * (0x10 + 0x4_0000 * k);
    assert e / 2 == 1 + 2 * (0x21 + 0x8_0000 * k);
  }

  lemma BigPageMapsItself(v: nat)
    requires v < 4 * SIZE_1G
    ensures Base(BIG_PAGE + SIZE_2M * (v / SIZE_2M), SIZE_2M) + v % SIZE_2M == v
    ensures var e := BIG_PAGE + SIZE_2M * (v / SIZE_2M);
            Present(e) && Large(e) && Writable(e) && User(e)
  {
    hide Base; hide Present; hide Large; hide Writable; hide User;
    BigPageBase(v / SIZE_2M);
    BigPageIsLarge(v / SIZE_2M);
    BigPageIsOpen(v / SIZE_2M);
  }

  lemma TablesChain(t: nat)
    requires t < 4
    ensures var e := TO_TABLE + PDT + 0x1000 * t;
            Present(e) && !Large(e) && Writable(e) && User(e) && Base(e, SIZE_4K) == PDT + 0x1000 * t
    ensures var e := TO_TABLE + PDPT;
            Present(e) && Writable(e) && User(e) && Base(e, SIZE_4K) == PDPT
  {}

  // Every address below 4 GB maps to itself through a 2 MB page that all
  // levels open for writing and for user mode; every other one of the 48-bit
  // space meets an entry that is not present.
  lemma TablesMapIdentity(mem: seq<byte>, v: nat)
    requires HoldsTables(mem) && v < SIZE_48BITS
    ensures Walk(mem, PML4, v) == if v < 4 * SIZE_1G then Page(v, SIZE_2M, true, true) else NotPresent
  {
    hide HoldsTables; hide Entry; hide InMemory; hide Base;
    var i4, i3, i2 := v / SIZE_512G % 512, v / SIZE_1G % 512, v / SIZE_2M % 512;
    EntryIs(mem, PML4, i4);
    EntryIs(mem, PDPT, i3);
    TablesChain(0);
    if v < 4 * SIZE_1G {
      DirectoryIndex(v);
      TablesChain(i3);
      EntryIs(mem, PDT + 0x1000 * i3, i2);
      BigPageMapsItself(v);
      assert TableEntry((PDT + 0x1000 * i3) / 8 + i2) == BIG_PAGE + SIZE_2M * (v / SIZE_2M);
      hide Present; hide Large; hide Writable; hide User;
    } else if v < SIZE_512G {
      assert i4 == 0 && i3 >= 4;
    } else {
      assert i4 >= 1;
    }
  }

  // ---- Building them ----

  ghost predicate SameExcept(mem: seq<byte>, mem': seq<byte>, from: nat, to: nat) {
    |mem'| == |mem| && forall a :: 0 <= a < |mem| && !(8 * from <= a < 8 * to) ==> mem'[a] == mem[a]
  }

  ghost predicate Done(mem: seq<byte>, from: nat, to: nat) {
    8 * to <= |mem| && forall q :: from <= q < to ==> HoldsAt(mem, q)
  }

  lemma StartEmpty(mem: seq<byte>, lo: nat, from: nat)
    requires lo <= from && |mem| >= TABLES_END && 8 * from <= TABLES_END
    ensures SameExcept(mem, mem, lo, lo) && Done(mem, from, lo) && Done(mem, from, from)
  {}

  // Nothing is done yet while q is before the first entry that stays.
  lemma SameWider(was: seq<byte>, mem: seq<byte>, lo: nat, hi: nat, hi': nat)
    requires SameExcept(was, mem, lo, hi) && hi <= hi' && 8 * hi' <= |mem|
    ensures SameExcept(was, mem, lo, hi')
    ensures forall from :: hi' <= from && 8 * from <= |mem| ==> Done(mem, from, from) && Done(mem, from, hi')
  {}

  // The entry after those done is written.
  lemma NextEntry(was: seq<byte>, mem: seq<byte>, lo: nat, from: nat, q: nat)
    requires SameExcept(was, mem, lo, q) && Done(mem, from, q) && lo <= q && 8 * q + 8 <= |mem|
    ensures var mem' := Splice(mem, 8 * q, ToBytes(TableEntry(q), 8));
            SameExcept(was, mem', lo, q + 1) && Done(mem', from, q + 1)
  {
    hide TableEntry;
    forall q' | from <= q' < q + 1
      ensures HoldsAt(Splice(mem, 8 * q, ToBytes(TableEntry(q), 8)), q')
    {
      QuadAfter(mem, q, ToBytes(TableEntry(q), 8), q');
      assert q' != q ==> HoldsAt(mem, q');
    }
  }

  // An entry is written that is to be written again.
  lemma OtherEntry(was: seq<byte>, mem: seq<byte>, lo: nat, hi: nat, from: nat, to: nat, q: nat, v: seq<byte>)
    requires SameExcept(was, mem, lo, hi) && Done(mem, from, to) && lo <= q < hi && 8 * hi <= |mem| && |v| == 8
    requires !(from <= q < to)
    ensures var mem' := Splice(mem, 8 * q, v);
            SameExcept(was, mem', lo, hi) && Done(mem', from, to)
  {
    hide TableEntry;
    forall q' | from <= q' < to
      ensures HoldsAt(Splice(mem, 8 * q, v), q')
    {
      QuadAfter(mem, q, v, q');
      assert HoldsAt(mem, q');
    }
  }

  // The entry before those done is written.
  lemma FirstEntry(was: seq<byte>, mem: seq<byte>, lo: nat, hi: nat, q: nat)
    requires SameExcept(was, mem, lo, hi) && Done(mem, q + 1, hi) && lo <= q < hi
    ensures var mem' := Splice(mem, 8 * q, ToBytes(TableEntry(q), 8));
            SameExcept(was, mem', lo, hi) && Done(mem', q, hi)
  {
    hide TableEntry;
    forall q' | q <= q' < hi
      ensures HoldsAt(Splice(mem, 8 * q, ToBytes(TableEntry(q), 8)), q')
    {
      QuadAfter(mem, q, ToBytes(TableEntry(q), 8), q');
      assert q' != q ==> HoldsAt(mem, q');
    }
  }

  lemma DoneElsewhere(was: seq<byte>, mem: seq<byte>, lo: nat, hi: nat, from: nat, to: nat)
    requires Done(was, from, to) && SameExcept(was, mem, lo, hi) && (to <= lo || hi <= from)
    ensures Done(mem, from, to)
  {
    hide TableEntry;
    forall q | from <= q < to
      ensures HoldsAt(mem, q)
    {
      assert HoldsAt(was, q);
      assert Quad(mem, q) == Quad(was, q);
    }
  }

  // The loop over the first table clears it; entry 0 is to be written again.
  lemma ClearedNext(was: seq<byte>, mem: seq<byte>, q: nat)
    requires 0xE000 <= q < 0xE200 && |mem| == |was| && |mem| >= TABLES_END
    requires SameExcept(was, mem, 0xE000, q) && Done(mem, 0xE001, q)
    ensures var mem' := Splice(mem, 8 * q, ToBytes(NOT_PRESENT, 8));
            SameExcept(was, mem', 0xE000, q + 1) && Done(mem', 0xE001, q + 1)
  {
    hide SameExcept; hide Done; hide Splice; hide ToBytes;
    if q > 0xE000 {
      NextEntry(was, mem, 0xE000, 0xE001, q);
    } else {
      SameWider(was, mem, 0xE000, 0xE000, 0xE001);
      OtherEntry(was, mem, 0xE000, 0xE001, 0xE001, 0xE001, q, ToBytes(NOT_PRESENT, 8));
    }
  }

  method BuildPml4(p: Proxy)
    requires p.Valid() && |p.guests[p.DSid]| >= TABLES_END
    modifies p`guests
    ensures p.Valid() && p.guests == old(p.guests)[p.DSid := p.guests[p.DSid]]
    ensures SameExcept(old(p.guests[p.DSid]), p.guests[p.DSid], 0xE000, 0xE200)
    ensures Done(p.guests[p.DSid], 0xE000, 0xE200)
  {
    ghost var was := p.guests[p.DSid];
    StartEmpty(was, 0xE000, 0xE001);
    hide SameExcept; hide Done; hide Splice; hide ToBytes;
    var offset := 0;
    while offset < 512 * 8
      invariant offset % 8 == 0 && 0 <= offset <= 512 * 8
      invariant p.Valid() && p.guests == old(p.guests)[p.DSid := p.guests[p.DSid]]
      invariant |p.guests[p.DSid]| == |was|
      invariant SameExcept(was, p.guests[p.DSid], 0xE000, 0xE000 + offset / 8)
      invariant Done(p.guests[p.DSid], 0xE001, 0xE000 + offset / 8)
    {
      ClearedNext(was, p.guests[p.DSid], 0xE000 + offset / 8);
      p.WriteBlob(PML4 + offset, ToBytes(NOT_PRESENT, 8));
      offset := offset + 8;
    }
    FirstEntry(was, p.guests[p.DSid], 0xE000, 0xE200, 0xE000);
    p.WriteBlob(PML4, ToBytes(TO_TABLE + PDPT, 8));
  }

  method BuildPdpt(p: Proxy)
    requires p.Valid() && |p.guests[p.DSid]| >= TABLES_END
    modifies p`guests
    ensures p.Valid() && p.guests == old(p.guests)[p.DSid := p.guests[p.DSid]]
    ensures SameExcept(old(p.guests[p.DSid]), p.guests[p.DSid], 0xE200, 0xE400)
    ensures Done(p.guests[p.DSid], 0xE200, 0xE400)
  {
    ghost var was := p.guests[p.DSid];
    StartEmpty(was, 0xE200, 0xE204);
    hide SameExcept; hide Done; hide Splice; hide ToBytes;
    var offset := 0;
    while offset < 512 * 8
      invariant offset % 8 == 0 && 0 <= offset <= 512 * 8
      invariant p.Valid() && p.guests == old(p.guests)[p.DSid := p.guests[p.DSid]]
      invariant |p.guests[p.DSid]| == |was|
      invariant SameExcept(was, p.guests[p.DSid], 0xE200, 0xE200 + offset / 8)
      invariant Done(p.guests[p.DSid], 0xE204, 0xE200 + offset / 8)
    {
      ghost var mem, q := p.guests[p.DSid], 0xE200 + offset / 8;
      if offset >= 32 {
        NextEntry(was, mem, 0xE200, 0xE204, q);
      } else {
        SameWider(was, mem, 0xE200, q, q + 1);
        OtherEntry(was, mem, 0xE200, q + 1, 0xE204, q + 1, q, ToBytes(NOT_PRESENT, 8));
      }
      p.WriteBlob(PDPT + offset, ToBytes(NOT_PRESENT, 8));
      offset := offset + 8;
    }
    PointPdpt(p, was);
  }

  method PointPdpt(p: Proxy, ghost was: seq<byte>)
    requires p.Valid() && |p.guests[p.DSid]| >= TABLES_END
    requires SameExcept(was, p.guests[p.DSid], 0xE200, 0xE400) && Done(p.guests[p.DSid], 0xE204, 0xE400)
    modifies p`guests
    ensures p.Valid() && p.guests == old(p.guests)[p.DSid := p.guests[p.DSid]]
    ensures SameExcept(was, p.guests[p.DSid], 0xE200, 0xE400) && Done(p.guests[p.DSid], 0xE200, 0xE400)
  {
    ghost var start := p.guests[p.DSid];
    for table := 0 to 4
      invariant p.Valid() && p.guests == old(p.guests)[p.DSid := p.guests[p.DSid]]
      invariant SameExcept(start, p.guests[p.DSid], 0xE200, 0xE200 + table)
      invariant Done(p.guests[p.DSid], 0xE200, 0xE200 + table)
    {
      NextEntry(start, p.guests[p.DSid], 0xE200, 0xE200, 0xE200 + table);
      hide SameExcept; hide Done; hide Splice; hide ToBytes;
      p.WriteBlob(PDPT + table * 8, ToBytes(TO_TABLE + (PDT + 0x1000 * table), 8));
    }
    DoneElsewhere(start, p.guests[p.DSid], 0xE200, 0xE204, 0xE204, 0xE400);
  }

  method BuildPdts(p: Proxy)
    requires p.Valid() && |p.guests[p.DSid]| >= TABLES_END
    modifies p`guests
    ensures p.Valid() && p.guests == old(p.guests)[p.DSid := p.guests[p.DSid]]
    ensures SameExcept(old(p.guests[p.DSid]), p.guests[p.DSid], 0xE400, 0xEC00)
    ensures Done(p.guests[p.DSid], 0xE400, 0xEC00)
  {
    ghost var was := p.guests[p.DSid];
    StartEmpty(was, 0xE400, 0xE400);
    hide SameExcept; hide Done; hide Splice; hide ToBytes;
    var base := 0;
    for table := 0 to 4
      invariant base == SIZE_2M * 512 * table
      invariant p.Valid() && p.guests == old(p.guests)[p.DSid := p.guests[p.DSid]]
      invariant SameExcept(was, p.guests[p.DSid], 0xE400, 0xE400 + 512 * table)
      invariant Done(p.guests[p.DSid], 0xE400, 0xE400 + 512 * table)
    {
      for i := 0 to 512
        invariant base == SIZE_2M * (512 * table + i)
        invariant p.Valid() && p.guests == old(p.guests)[p.DSid := p.guests[p.DSid]]
        invariant SameExcept(was, p.guests[p.DSid], 0xE400, 0xE400 + 512 * table + i)
        invariant Done(p.guests[p.DSid], 0xE400, 0xE400 + 512 * table + i)
      {
        NextEntry(was, p.guests[p.DSid], 0xE400, 0xE400, 0xE400 + 512 * table + i);
        p.WriteBlob(PDT + 0x1000 * table + 8 * i, ToBytes(BIG_PAGE + base, 8));
        base := base + SIZE_2M;
      }
    }
  }

  // The tables of a guest: complete, and nothing else is written.
  method BuildPageTables(p: Proxy)
    requires p.Valid() && |p.guests[p.DSid]| >= TABLES_END
    modifies p`guests
    ensures p.Valid() && p.guests == old(p.guests)[p.DSid := p.guests[p.DSid]]
    ensures HoldsTables(p.guests[p.DSid])
    ensures SameExcept(old(p.guests[p.DSid]), p.guests[p.DSid], PML4 / 8, TABLES_END / 8)
  {
    BuildPml4(p);
    ghost var m1 := p.guests[p.DSid];
    BuildPdpt(p);
    ghost var m2 := p.guests[p.DSid];
    BuildPdts(p);
    ghost var m3 := p.guests[p.DSid];
    DoneElsewhere(m1, m2, 0xE200, 0xE400, 0xE000, 0xE200);
    DoneElsewhere(m2, m3, 0xE400, 0xEC00, 0xE000, 0xE200);
    DoneElsewhere(m2, m3, 0xE400, 0xEC00, 0xE200, 0xE400);
    hide HoldsAt;
  }
}
