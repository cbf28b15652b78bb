// The loader that prepares a guest through the control plane adaptor.
module BiosLoader {
  import opened ByteSeq
  import opened ControlPlane
  import opened AdaptorSpec
  import opened AdaptorDevice
  import opened BootSpec

  const NO_MEMORY: int := -12

  function RowAddr(row: nat, offset: nat): nat { 0x400 * row + offset }
  function MemoryAddr(offset: nat): nat { 0x4000_0000 + offset }

  lemma RowAddrLocates(row: nat, offset: nat)
    requires row < 256 && offset < 0x400
    ensures Locate(RowAddr(row, offset)) == At(ParamRow(row), offset)
  {
    assert RowAddr(row, offset) / 0x400 == row;
  }

  lemma MemoryAddrLocates(offset: nat)
    requires offset < CFGMEM_SIZE
    ensures Locate(MemoryAddr(offset)) == At(ConfigMemory, offset)
  {}

  function WithRow(t: Table, r: nat, row: seq<byte>): Table
    requires r < |t.params|
  {
    t.(params := t.params[r := row])
  }

  lemma WithRowTwice(t: Table, r: nat, row: seq<byte>, row': seq<byte>)
    requires r < |t.params|
    ensures WithRow(WithRow(t, r, row), r, row') == WithRow(t, r, row')
  {
    assert t.params[r := row][r := row'] == t.params[r := row'];
  }

  lemma RowUpdate(t: Table, r: nat, offset: nat, v: Qword)
    requires SystemTable(t) && r < |t.params| && offset + 8 <= ROW_SIZE
    ensures UpdateTable(t, RowAddr(r, offset), v) == WithRow(t, r, Splice(t.params[r], offset, v))
    ensures SystemTable(WithRow(t, r, Splice(t.params[r], offset, v)))
  {
    RowAddrLocates(r, offset);
    hide Locate; hide Splice;
  }

  function WithMemory(t: Table, base: nat, v: seq<byte>): Table
    requires base + |v| <= |t.memory|
  {
    t.(memory := Splice(t.memory, base, v))
  }

  lemma MemoryUpdate(t: Table, offset: nat, v: Qword)
    requires SystemTable(t) && offset + 8 <= CFGMEM_SIZE
    ensures UpdateTable(t, MemoryAddr(offset), v) == WithMemory(t, offset, v)
  {
    MemoryAddrLocates(offset);
    hide Locate; hide Splice;
  }

  // One plane of the adaptor holds table t, the others what they held.
  ghost predicate OnlyTable(was: Hw, now: Hw, i: nat, t: Table) {
    && now.planes.Keys == was.planes.Keys && i in now.planes && now.planes[i].table == t
    && (forall j :: j in now.planes && j != i ==> now.planes[j].table == was.planes[j].table)
    && (forall j :: j in now.planes ==> now.planes[j].handled == was.planes[j].handled)
    && now.sent == was.sent
  }

  lemma OnlyTableTwice(was: Hw, mid: Hw, now: Hw, i: nat, t: Table, t': Table)
    requires OnlyTable(was, mid, i, t) && OnlyTable(mid, now, i, t')
    ensures OnlyTable(was, now, i, t')
  {}

  lemma OnlyTableGives(was: Hw, now: Hw, i: nat, t: Table)
    requires OnlyTable(was, now, i, t)
    ensures i in now.planes && now.planes[i].table == t
  {}

  lemma OnlyTableAtFirst(was: Hw, i: nat)
    requires i in was.planes
    ensures OnlyTable(was, was, i, was.planes[i].table)
  {}

  lemma MemoryIsSystem(t: Table, offset: nat, v: seq<byte>)
    requires SystemTable(t) && offset + |v| <= CFGMEM_SIZE
    ensures SystemTable(WithMemory(t, offset, v))
  {}

  lemma WithMemoryAgain(t: Table, base: nat, v: seq<byte>, w: seq<byte>)
    requires base + |v| + |w| <= |t.memory|
    ensures WithMemory(WithMemory(t, base, v), base + |v|, w) == WithMemory(t, base, v + w)
  {
    SpliceAgain(t.memory, base, v, w);
  }

  lemma WithNoMemory(t: Table, base: nat)
    requires base <= |t.memory|
    ensures WithMemory(t, base, []) == t
  {
    assert Splice(t.memory, base, []) == t.memory;
  }

  lemma ViewTables(was: Hw, now: Hw, i: nat, t: Table)
    requires now.planes.Keys == was.planes.Keys && i in was.planes
    requires View(now) == View(was).(tables := View(was).tables[i := t])
    ensures OnlyTable(was, now, i, t)
  {
    assert View(now).tables[i] == t;
    forall j | j in now.planes
      ensures (j != i ==> now.planes[j].table == was.planes[j].table) && now.planes[j].handled == was.planes[j].handled
    {
      assert View(now).tables[j] == now.planes[j].table;
      assert View(now).handled[j] == now.planes[j].handled && View(was).handled[j] == was.planes[j].handled;
    }
  }

  method SetEntry(a: Adaptor, cpid: nat, ldom: Bytes2, addr: nat, value: Qword)
    requires cpid % 0x400 in a.planes && addr < 0x1_0000_0000
    modifies a
    ensures OnlyTable(old(a.Model()), a.Model(), cpid % 0x400,
                      UpdateTable(old(a.planes)[cpid % 0x400].table, addr, value))
  {
    ghost var was := a.Model();
    Pow256Values();
    BytesRoundTrip(addr, 4);
    hide LittleEndian; hide ToBytes; hide Pow256; hide UpdateTable;
    a.WriteCommand(SET, cpid, ldom, ToBytes(addr, 4), value);
    ViewTables(was, a.Model(), cpid % 0x400, UpdateTable(was.planes[cpid % 0x400].table, addr, value));
  }

  method GetEntry(a: Adaptor, cpid: nat, ldom: Bytes2, addr: nat) returns (value: Qword)
    requires cpid % 0x400 in a.planes && addr < 0x1_0000_0000
    modifies a
    ensures value == QueryTable(old(a.planes)[cpid % 0x400].table, addr)
    ensures OnlyTable(old(a.Model()), a.Model(), cpid % 0x400, old(a.planes)[cpid % 0x400].table)
  {
    ghost var was := a.Model();
    Pow256Values();
    BytesRoundTrip(addr, 4);
    hide LittleEndian; hide ToBytes; hide Pow256; hide QueryTable;
    value := a.ReadConfigQword(cpid, ldom, ToBytes(addr, 4));
    assert View(was).tables[cpid % 0x400 := was.planes[cpid % 0x400].table] == View(was).tables;
    ViewTables(was, a.Model(), cpid % 0x400, was.planes[cpid % 0x400].table);
  }

  // ---- The search for a free row ----

  function Head(t: Table, r: nat): Qword
    requires SystemTable(t) && r < |t.params|
  {
    t.params[r][..8]
  }

  predicate Taken(t: Table, r: nat)
    requires SystemTable(t) && r < |t.params|
  {
    ValidRow(t.params[r]) && Head(t, r) != ALL_ONES
  }

  ghost predicate AllTaken(t: Table, n: nat)
    requires SystemTable(t) && n <= |t.params|
  {
    forall k :: 0 <= k < n ==> Taken(t, k)
  }

  lemma HeadIs(t: Table, r: nat)
    requires SystemTable(t) && r <= |t.params|
    ensures QueryTable(t, RowAddr(r, 0)) == if r < |t.params| then Head(t, r) else ALL_ONES
  {
    RowAddrLocates(r, 0);
    hide Locate;
  }

  ghost predicate SearchFails(t: Table)
    requires SystemTable(t)
  {
    exists e :: 0 <= e <= |t.params| && AllTaken(t, e) && (e < |t.params| ==> Head(t, e) == ALL_ONES)
  }

  // No row before the end of the search is free: every valid row before it
  // would have had to be skipped.
  lemma SearchFailsOnlyWhenFull(t: Table, r: nat)
    requires SystemTable(t) && SearchFails(t) && r < |t.params| && !ValidRow(t.params[r])
    ensures exists e :: 0 <= e < r && Head(t, e) == ALL_ONES
  {
    var e :| 0 <= e <= |t.params| && AllTaken(t, e) && (e < |t.params| ==> Head(t, e) == ALL_ONES);
    if r <= e { FreeIsSeen(t, e, r); }
  }

  lemma FreeIsSeen(t: Table, e: nat, r: nat)
    requires SystemTable(t) && r <= e <= |t.params| && r < |t.params| && AllTaken(t, e)
    requires e < |t.params| ==> Head(t, e) == ALL_ONES
    ensures ValidRow(t.params[r])
  {
    if r < e {
      assert Taken(t, r);
    } else {
      assert Head(t, r)[3] == t.params[r][3];
    }
  }

  // The first row that is not valid; when every row is taken the word after
  // the table ends the search (and so does a row that reads all ones).
  method FindFreeRow(a: Adaptor, cpid: nat, ldom: Bytes2) returns (row: int)
    requires cpid % 0x400 in a.planes && SystemTable(a.planes[cpid % 0x400].table)
    modifies a
    ensures OnlyTable(old(a.Model()), a.Model(), cpid % 0x400, old(a.planes)[cpid % 0x400].table)
    ensures var t := old(a.planes)[cpid % 0x400].table;
            if row < 0 then
              row == NO_MEMORY && SearchFails(t)
            else row < |t.params| && AllTaken(t, row) && !ValidRow(t.params[row])
  {
    ghost var t := a.planes[cpid % 0x400].table;
    hide AllTaken; hide Locate; hide QueryTable;
    assert AllTaken(t, 0) by { AllTakenNext(t, 0); }
    row := 0;
    while true
      invariant 0 <= row <= |t.params| && AllTaken(t, row)
      invariant OnlyTable(old(a.Model()), a.Model(), cpid % 0x400, t)
      decreases |t.params| - row
    {
      HeadIs(t, row);
      var value := GetEntry(a, cpid, ldom, RowAddr(row, 0));
      if value == ALL_ONES {
        return NO_MEMORY;
      }
      if value[3] < 0x80 {
        return;
      }
      AllTakenNext(t, row);
      row := row + 1;
    }
  }

  lemma AllTakenNext(t: Table, n: nat)
    requires SystemTable(t) && n <= |t.params|
    ensures AllTaken(t, 0)
    ensures AllTaken(t, n) && n < |t.params| && Taken(t, n) ==> AllTaken(t, n + 1)
  {}

  // ---- Configuration memory ----

  method WriteMemoryQword(a: Adaptor, cpid: nat, ghost was: Hw, ghost t: Table, base: nat, buf: seq<byte>, offset: nat)
    requires SystemTable(t) && offset + 8 <= |buf| && base + |buf| <= CFGMEM_SIZE == |t.memory|
    requires OnlyTable(was, a.Model(), cpid % 0x400, WithMemory(t, base, buf[..offset]))
    modifies a
    ensures OnlyTable(was, a.Model(), cpid % 0x400, WithMemory(t, base, buf[..offset + 8]))
  {
    hide OnlyTable; hide WithMemory; hide UpdateTable; hide SystemTable;
    ghost var mid, before := a.Model(), WithMemory(t, base, buf[..offset]);
    var value: Qword := buf[offset..offset + 8];
    MemoryIsSystem(t, base, buf[..offset]);
    MemoryUpdate(before, base + offset, value);
    WithMemoryAgain(t, base, buf[..offset], value);
    assert buf[..offset] + value == buf[..offset + 8];
    OnlyTableGives(was, mid, cpid % 0x400, before);
    SetEntry(a, cpid, [0, 0], MemoryAddr(base + offset), value);
    OnlyTableTwice(was, mid, a.Model(), cpid % 0x400, before, WithMemory(t, base, buf[..offset + 8]));
  }

  method WriteConfigMemory(a: Adaptor, cpid: nat, base: nat, buf: seq<byte>)
    requires cpid % 0x400 in a.planes && SystemTable(a.planes[cpid % 0x400].table)
    requires |buf| % 8 == 0 && base + |buf| <= CFGMEM_SIZE
    modifies a
    ensures var t := old(a.planes)[cpid % 0x400].table;
            OnlyTable(old(a.Model()), a.Model(), cpid % 0x400, WithMemory(t, base, buf))
  {
    ghost var was, t := a.Model(), a.planes[cpid % 0x400].table;
    WithNoMemory(t, base);
    OnlyTableAtFirst(was, cpid % 0x400);
    hide OnlyTable; hide WithMemory;
    var offset := 0;
    assert buf[..offset] == [];
    while offset < |buf|
      invariant 0 <= offset <= |buf| && offset % 8 == 0
      invariant OnlyTable(was, a.Model(), cpid % 0x400, WithMemory(t, base, buf[..offset]))
    {
      WriteMemoryQword(a, cpid, was, t, base, buf, offset);
      offset := offset + 8;
    }
    assert buf[..offset] == buf;
  }

  method PlaceOne(a: Adaptor, cpid: nat, ghost was: Hw, ghost t: Table, bs: seq<Blob>, k: nat, offset: nat)
    requires SystemTable(t) && GoodBlobs(bs) && |Flat(bs)| <= CFGMEM_SIZE == |t.memory|
    requires k < |bs| && offset == |Flat(bs[..k])| <= CFGMEM_SIZE
    requires OnlyTable(was, a.Model(), cpid % 0x400, WithMemory(t, 0, Flat(bs[..k])))
    modifies a
    ensures |Flat(bs[..k + 1])| == offset + |Data(bs[k])| <= CFGMEM_SIZE
    ensures OnlyTable(was, a.Model(), cpid % 0x400, WithMemory(t, 0, Flat(bs[..k + 1])))
  {
    hide OnlyTable; hide WithMemory; hide SystemTable; hide Flat; hide Data;
    ghost var mid, before := a.Model(), WithMemory(t, 0, Flat(bs[..k]));
    FlatNext(bs, k);
    FlatAt(bs, k);
    MemoryIsSystem(t, 0, Flat(bs[..k]));
    WithMemoryAgain(t, 0, Flat(bs[..k]), Data(bs[k]));
    OnlyTableGives(was, mid, cpid % 0x400, before);
    WriteConfigMemory(a, cpid, offset, Data(bs[k]));
    OnlyTableTwice(was, mid, a.Model(), cpid % 0x400, before, WithMemory(t, 0, Flat(bs[..k + 1])));
  }

  // All data end to end from address 0 on; each piece's place is noted.
  method PlaceData(a: Adaptor, cpid: nat, bs: seq<Blob>) returns (offsets: seq<nat>)
    requires cpid % 0x400 in a.planes && SystemTable(a.planes[cpid % 0x400].table)
    requires GoodBlobs(bs) && |Flat(bs)| <= CFGMEM_SIZE
    modifies a
    ensures var t := old(a.planes)[cpid % 0x400].table;
            OnlyTable(old(a.Model()), a.Model(), cpid % 0x400, WithMemory(t, 0, Flat(bs)))
    ensures |offsets| == |bs| && forall i :: 0 <= i < |bs| ==> offsets[i] == OffsetOf(bs, i)
  {
    ghost var was, t := a.Model(), a.planes[cpid % 0x400].table;
    WithNoMemory(t, 0);
    OnlyTableAtFirst(was, cpid % 0x400);
    assert Flat(bs[..0]) == [];
    hide OnlyTable; hide WithMemory; hide Flat; hide Data; hide GoodBlob;
    offsets := [];
    var offset := 0;
    for k := 0 to |bs|
      invariant |offsets| == k && offset == |Flat(bs[..k])| <= CFGMEM_SIZE
      invariant forall i :: 0 <= i < k ==> offsets[i] == OffsetOf(bs, i)
      invariant OnlyTable(was, a.Model(), cpid % 0x400, WithMemory(t, 0, Flat(bs[..k])))
    {
      PlaceOne(a, cpid, was, t, bs, k, offset);
      offsets := offsets + [offset];
      offset := offset + |Data(bs[k])|;
    }
    assert bs[..|bs|] == bs;
  }

  // ---- The row ----

  method WriteRow(a: Adaptor, cpid: nat, ldom: Bytes2, r: nat, offset: nat, value: Qword)
    requires cpid % 0x400 in a.planes && SystemTable(a.planes[cpid % 0x400].table)
    requires r < |a.planes[cpid % 0x400].table.params| && offset + 8 <= ROW_SIZE
    modifies a
    ensures var t := old(a.planes)[cpid % 0x400].table;
            && OnlyTable(old(a.Model()), a.Model(), cpid % 0x400, WithRow(t, r, Splice(t.params[r], offset, value)))
            && SystemTable(WithRow(t, r, Splice(t.params[r], offset, value)))
  {
    RowUpdate(a.planes[cpid % 0x400].table, r, offset, value);
    assert RowAddr(r, offset) < 0x1_0000_0000;
    hide OnlyTable; hide Splice; hide UpdateTable;
    SetEntry(a, cpid, ldom, RowAddr(r, offset), value);
  }

  // Slots ..n of the row describe the pieces; nothing but the slots differs
  // from what the row was.
  ghost predicate SlotsWritten(was: Row, row: Row, bs: seq<Blob>, n: nat)
    requires GoodBlobs(bs) && n <= |bs| <= SEGMENT_COUNT
  {
    && (forall i :: 0 <= i < n ==> SlotHolds(row, bs, i))
    && (forall k :: 0 <= k < ROW_SIZE && !(24 <= k < 24 + 16 * n) ==> row[k] == was[k])
  }

  function SlotQuad(b: Blob, offset: nat): Qword {
    ToBytes(Padded(b.size) + 0x1_0000_0000 * offset, 8)
  }

  lemma SlotsNext(was: Row, row: Row, bs: seq<Blob>, n: nat)
    requires GoodBlobs(bs) && n < |bs| <= SEGMENT_COUNT && SlotsWritten(was, row, bs, n)
    ensures var k := 24 + 16 * n;
            var row' := Splice(Splice(row, k, ToBytes(bs[n].base, 8)), k + 8, SlotQuad(bs[n], OffsetOf(bs, n)));
            SlotsWritten(was, row', bs, n + 1)
  {
    hide ToBytes; hide Padded;
    var k := 24 + 16 * n;
    var v, w := ToBytes(bs[n].base, 8), SlotQuad(bs[n], OffsetOf(bs, n));
    SpliceAgain(row, k, v, w);
    var row' := Splice(row, k, v + w);
    assert v + w == SegmentBytes(bs[n].base, Padded(bs[n].size), OffsetOf(bs, n));
    forall i | 0 <= i < n + 1
      ensures SlotHolds(row', bs, i)
    {
      if i < n {
        assert SlotHolds(row, bs, i);
        SpliceKeepsApart(row, k, v + w, 24 + 16 * i, 16);
      } else {
        SpliceHolds(row, k, v + w);
      }
    }
  }

  method WriteSlot(a: Adaptor, cpid: nat, ldom: Bytes2, r: nat, ghost was: Hw, ghost t: Table, ghost row: Row,
                   bs: seq<Blob>, n: nat, offset: nat) returns (ghost row': Row)
    requires SystemTable(t) && r < |t.params| && GoodBlobs(bs) && n < |bs| <= SEGMENT_COUNT
    requires SlotsWritten(t.params[r], row, bs, n) && offset == OffsetOf(bs, n)
    requires OnlyTable(was, a.Model(), cpid % 0x400, WithRow(t, r, row))
    modifies a
    ensures SlotsWritten(t.params[r], row', bs, n + 1)
    ensures OnlyTable(was, a.Model(), cpid % 0x400, WithRow(t, r, row'))
  {
    hide OnlyTable; hide SlotsWritten; hide ToBytes; hide Splice;
    var k := 24 + 16 * n;
    ghost var mid := a.Model();
    OnlyTableGives(was, mid, cpid % 0x400, WithRow(t, r, row));
    WriteRow(a, cpid, ldom, r, k, ToBytes(bs[n].base, 8));
    ghost var mid', row1 := a.Model(), Splice(row, k, ToBytes(bs[n].base, 8));
    WithRowTwice(t, r, row, row1);
    OnlyTableGives(mid, mid', cpid % 0x400, WithRow(t, r, row1));
    OnlyTableTwice(was, mid, mid', cpid % 0x400, WithRow(t, r, row), WithRow(t, r, row1));
    WriteRow(a, cpid, ldom, r, k + 8, SlotQuad(bs[n], offset));
    row' := Splice(row1, k + 8, SlotQuad(bs[n], offset));
    WithRowTwice(t, r, row1, row');
    OnlyTableTwice(was, mid', a.Model(), cpid % 0x400, WithRow(t, r, row1), WithRow(t, r, row'));
    SlotsNext(t.params[r], row, bs, n);
  }

  method WriteSlots(a: Adaptor, cpid: nat, ldom: Bytes2, r: nat, bs: seq<Blob>, offsets: seq<nat>)
    returns (ghost row: Row)
    requires cpid % 0x400 in a.planes && SystemTable(a.planes[cpid % 0x400].table)
    requires r < |a.planes[cpid % 0x400].table.params| && GoodBlobs(bs) && |bs| <= SEGMENT_COUNT
    requires |offsets| == |bs| && forall i :: 0 <= i < |bs| ==> offsets[i] == OffsetOf(bs, i)
    modifies a
    ensures var t := old(a.planes)[cpid % 0x400].table;
            && SlotsWritten(t.params[r], row, bs, |bs|)
            && OnlyTable(old(a.Model()), a.Model(), cpid % 0x400, WithRow(t, r, row))
  {
    ghost var was, t := a.Model(), a.planes[cpid % 0x400].table;
    row := t.params[r];
    OnlyTableAtFirst(was, cpid % 0x400);
    assert WithRow(t, r, row) == t by { assert t.params[r := row] == t.params; }
    hide OnlyTable; hide OffsetOf; hide SlotHolds; hide WithRow;
    for n := 0 to |bs|
      invariant SlotsWritten(t.params[r], row, bs, n)
      invariant OnlyTable(was, a.Model(), cpid % 0x400, WithRow(t, r, row))
    {
      row := WriteSlot(a, cpid, ldom, r, was, t, row, bs, n, offsets[n]);
    }
  }

  // ---- The whole ----

  // Rows not yet in use describe no segments.
  ghost predicate FreeRowsAreBlank(t: Table)
    requires SystemTable(t)
  {
    forall r, i :: 0 <= r < |t.params| && !ValidRow(t.params[r]) && 0 <= i < SEGMENT_COUNT ==>
      RowSegment(t.params[r], i).size == 0
  }

  ghost predicate OnlyRow(t: Table, t': Table, r: nat) {
    |t'.params| == |t.params| && forall k :: 0 <= k < |t.params| && k != r ==> t'.params[k] == t.params[k]
  }

  // The row after the mask and, last of all, the identity and the valid bit.
  function Published(row: Row, dsid: nat): Row {
    Splice(Splice(row, 8, ToBytes(Bit(dsid), 8)), 0, HeadBytes(dsid))
  }

  lemma PublishedDescribes(t: Table, r: nat, row: Row, dsid: nat, bs: seq<Blob>)
    requires SystemTable(t) && r < |t.params| && GoodBlobs(bs) && |bs| <= SEGMENT_COUNT && |Flat(bs)| <= CFGMEM_SIZE
    requires forall i :: 0 <= i < SEGMENT_COUNT ==> RowSegment(t.params[r], i).size == 0
    requires SlotsWritten(t.params[r], row, bs, |bs|)
    ensures Describes(WithRow(WithMemory(t, 0, Flat(bs)), r, Published(row, dsid)), r, dsid, bs)
  {
    var row' := Published(row, dsid);
    PublishedAt(row, dsid);
    PublishedSlots(t.params[r], row, dsid, bs);
    hide Published; hide HeadBytes; hide ToBytes; hide SlotHolds; hide RowSegment; hide SlotsWritten;
    SpliceHolds(t.memory, 0, Flat(bs));
  }

  lemma PublishedSlots(was: Row, row: Row, dsid: nat, bs: seq<Blob>)
    requires GoodBlobs(bs) && |bs| <= SEGMENT_COUNT && SlotsWritten(was, row, bs, |bs|)
    requires forall i :: 0 <= i < SEGMENT_COUNT ==> RowSegment(was, i).size == 0
    ensures forall i :: 0 <= i < |bs| ==> SlotHolds(Published(row, dsid), bs, i)
    ensures forall i :: |bs| <= i < SEGMENT_COUNT ==> RowSegment(Published(row, dsid), i).size == 0
  {
    var row' := Published(row, dsid);
    PublishedAt(row, dsid);
    hide Published; hide HeadBytes; hide ToBytes; hide LittleEndian;
    forall i | 0 <= i < |bs|
      ensures SlotHolds(row', bs, i)
    {
      assert SlotHolds(row, bs, i);
      assert row'[24 + 16 * i..40 + 16 * i] == row[24 + 16 * i..40 + 16 * i];
    }
    forall i | |bs| <= i < SEGMENT_COUNT
      ensures RowSegment(row', i).size == 0
    {
      var k := 24 + 16 * i;
      assert RowSegment(was, i).size == 0;
      assert row'[k + 8..k + 12] == row[k + 8..k + 12] == was[k + 8..k + 12];
    }
  }

  lemma PublishedAt(row: Row, dsid: nat)
    ensures var row' := Published(row, dsid);
            && row'[..8] == HeadBytes(dsid) && row'[8..16] == ToBytes(Bit(dsid), 8)
            && (forall k :: 16 <= k < ROW_SIZE ==> row'[k] == row[k])
  {
    hide HeadBytes; hide ToBytes;
    var mid := Splice(row, 8, ToBytes(Bit(dsid), 8));
    SpliceHolds(row, 8, ToBytes(Bit(dsid), 8));
    SpliceKeepsApart(mid, 0, HeadBytes(dsid), 8, 8);
    SpliceHolds(mid, 0, HeadBytes(dsid));
  }

  // Everything up to the boot command.  The data, its description and the
  // mask are in place before the row becomes valid.
  method LoadBios(a: Adaptor, cpid: nat, dsid: nat, bs: seq<Blob>) returns (row: int)
    requires cpid % 0x400 in a.planes && SystemTable(a.planes[cpid % 0x400].table)
    requires FreeRowsAreBlank(a.planes[cpid % 0x400].table)
    requires dsid < 4 && GoodBlobs(bs) && |bs| <= SEGMENT_COUNT && |Flat(bs)| <= CFGMEM_SIZE
    modifies a
    ensures var t, c := old(a.planes)[cpid % 0x400].table, cpid % 0x400;
            if row < 0 then SearchFails(t) && OnlyTable(old(a.Model()), a.Model(), c, t)
            else
              && row < |t.params| && AllTaken(t, row) && !ValidRow(t.params[row])
              && c in a.planes && Describes(a.planes[c].table, row, dsid, bs)
              && OnlyTable(old(a.Model()), a.Model(), c, a.planes[c].table)
              && OnlyRow(t, a.planes[c].table, row)
  {
    ghost var was, t := a.Model(), a.planes[cpid % 0x400].table;
    var ldom: Bytes2 := ToBytes(dsid, 2);
    row := FindFreeRow(a, cpid, ldom);
    if row < 0 {
      return;
    }
    FillRow(a, cpid, ldom, dsid, row, bs, was, t);
  }

  method FillRow(a: Adaptor, cpid: nat, ldom: Bytes2, dsid: nat, r: nat, bs: seq<Blob>, ghost was: Hw, ghost t: Table)
    requires SystemTable(t) && r < |t.params| && !ValidRow(t.params[r]) && FreeRowsAreBlank(t)
    requires OnlyTable(was, a.Model(), cpid % 0x400, t)
    requires dsid < 4 && GoodBlobs(bs) && |bs| <= SEGMENT_COUNT && |Flat(bs)| <= CFGMEM_SIZE
    modifies a
    ensures var c := cpid % 0x400;
            && c in a.planes && Describes(a.planes[c].table, r, dsid, bs)
            && OnlyTable(was, a.Model(), c, a.planes[c].table)
            && OnlyRow(t, a.planes[c].table, r)
  {
    ghost var c, m0 := cpid % 0x400, a.Model();
    BlankRow(t, r);
    MemoryIsSystem(t, 0, Flat(bs));
    hide OnlyTable; hide RowSegment; hide ValidRow; hide Flat; hide Splice; hide ToBytes; hide HeadBytes;
    hide SlotsWritten; hide Describes; hide FreeRowsAreBlank;
    OnlyTableGives(was, m0, c, t);
    var offsets := PlaceData(a, cpid, bs);
    ghost var m1, t1 := a.Model(), WithMemory(t, 0, Flat(bs));
    OnlyTableGives(m0, m1, c, t1);
    OnlyTableTwice(was, m0, m1, c, t, t1);
    ghost var row := WriteSlots(a, cpid, ldom, r, bs, offsets);
    ghost var m2, t2 := a.Model(), WithRow(t1, r, row);
    OnlyTableGives(m1, m2, c, t2);
    OnlyTableTwice(was, m1, m2, c, t1, t2);
    Publish(a, cpid, ldom, dsid, r, was, t1, row);
    PublishedDescribes(t, r, row, dsid, bs);
    OnlyTableGives(was, a.Model(), c, WithRow(t1, r, Published(row, dsid)));
  }

  lemma BlankRow(t: Table, r: nat)
    requires SystemTable(t) && FreeRowsAreBlank(t) && r < |t.params| && !ValidRow(t.params[r])
    ensures forall i :: 0 <= i < SEGMENT_COUNT ==> RowSegment(t.params[r], i).size == 0
  {}

  method Publish(a: Adaptor, cpid: nat, ldom: Bytes2, dsid: nat, r: nat, ghost was: Hw, ghost t: Table, ghost row: Row)
    requires SystemTable(t) && r < |t.params|
    requires OnlyTable(was, a.Model(), cpid % 0x400, WithRow(t, r, row))
    modifies a
    ensures OnlyTable(was, a.Model(), cpid % 0x400, WithRow(t, r, Published(row, dsid)))
  {
    hide OnlyTable; hide ToBytes; hide HeadBytes; hide Splice;
    ghost var c, mid := cpid % 0x400, a.Model();
    OnlyTableGives(was, mid, c, WithRow(t, r, row));
    WriteRow(a, cpid, ldom, r, 8, ToBytes(Bit(dsid), 8));
    ghost var mid', row1 := a.Model(), Splice(row, 8, ToBytes(Bit(dsid), 8));
    WithRowTwice(t, r, row, row1);
    OnlyTableGives(mid, mid', c, WithRow(t, r, row1));
    OnlyTableTwice(was, mid, mid', c, WithRow(t, r, row), WithRow(t, r, row1));
    WriteRow(a, cpid, ldom, r, 0, HeadBytes(dsid));
    WithRowTwice(t, r, row1, Published(row, dsid));
    OnlyTableTwice(was, mid', a.Model(), c, WithRow(t, r, row1), WithRow(t, r, Published(row, dsid)));
  }
}
