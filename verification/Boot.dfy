// A guest from its description to its first instruction.
module Boot {
  import opened ByteSeq
  import opened ControlPlane
  import opened AdaptorSpec
  import opened AdaptorDevice
  import opened BootSpec
  import opened BiosLoader
  import opened PageTables
  import opened GuestSystem

  const BOOT: byte := 0x42   // 'B'

  // The row that the loader fills is the one that the system finds.
  lemma LoadedRowIsFound(t: Table, t': Table, r: nat, dsid: nat, bs: seq<Blob>)
    requires SystemTable(t) && HasNoRow(t, dsid) && dsid < 0x1_0000
    requires Describes(t', r, dsid, bs) && OnlyRow(t, t', r)
    ensures IsFirstRowOf(t', dsid, r)
    ensures forall k :: 0 <= k < |t'.params| && IsRowOf(t', dsid, k) ==> k == r
  {
    HeadRoundTrip(t'.params[r], dsid);
    assert IsRowOf(t', dsid, r);
    forall k | 0 <= k < |t'.params| && k != r
      ensures !IsRowOf(t', dsid, k)
    {
      assert !IsRowOf(t, dsid, k);
    }
  }

  // Guests can be loaded one after the other: rows in use stay as they are
  // and free ones stay blank.
  lemma LoadingKeepsOthers(t: Table, t': Table, r: nat, dsid: nat, bs: seq<Blob>, other: nat)
    requires SystemTable(t) && FreeRowsAreBlank(t) && dsid < 0x1_0000 && r < |t.params| && !ValidRow(t.params[r])
    requires Describes(t', r, dsid, bs) && OnlyRow(t, t', r)
    ensures SystemTable(t') && FreeRowsAreBlank(t')
    ensures other != dsid ==> (HasNoRow(t', other) <==> HasNoRow(t, other))
    ensures forall k :: 0 <= k < |t.params| && IsRowOf(t, other, k) ==> t'.params[k] == t.params[k]
  {
    HeadRoundTrip(t'.params[r], dsid);
    hide RowSegment; hide SlotHolds; hide Flat; hide HeadBytes; hide ToBytes; hide RowDSid;
    if other != dsid {
      forall k | 0 <= k < |t.params|
        ensures IsRowOf(t', other, k) <==> IsRowOf(t, other, k)
      {}
    }
    forall k, i | 0 <= k < |t'.params| && !ValidRow(t'.params[k]) && 0 <= i < SEGMENT_COUNT
      ensures RowSegment(t'.params[k], i).size == 0
    {
      assert k != r;
    }
  }

  // A table in which nothing has been written yet has the premises.
  lemma ZeroTableIsBlank(t: Table)
    requires SystemTable(t) && forall r :: 0 <= r < |t.params| ==> t.params[r] == Zeros(ROW_SIZE)
    ensures FreeRowsAreBlank(t) && forall dsid :: HasNoRow(t, dsid)
  {
    forall r, i | 0 <= r < |t.params| && 0 <= i < SEGMENT_COUNT
      ensures RowSegment(t.params[r], i).size == 0
    {
      var k := 24 + 16 * i;
      ZerosAreZero(t.params[r][k + 8..k + 12]);
    }
  }

  ghost predicate BlobsAvoidTables(bs: seq<Blob>) {
    forall i :: 0 <= i < |bs| ==> bs[i].base + Padded(bs[i].size) <= PML4 || TABLES_END <= bs[i].base
  }

  lemma TablesSurvive(bs: seq<Blob>, tabled: seq<byte>, mem: seq<byte>)
    requires HoldsTables(tabled) && OnlyBlobs(bs, tabled, mem) && BlobsAvoidTables(bs)
    ensures HoldsTables(mem)
  {
    forall q | 0xE000 <= q < 0xEC00
      ensures HoldsAt(mem, q)
    {
      assert HoldsAt(tabled, q);
      forall a | 8 * q <= a < 8 * q + 8
        ensures mem[a] == tabled[a]
      {
        assert forall j :: 0 <= j < |bs| ==> !InBlob(bs[j], a);
      }
      assert Quad(mem, q) == Quad(tabled, q);
    }
  }

  // What guest memory is after a boot: every segment as given, a page table
  // that maps the first 4 GB to themselves, and the rest as it was.
  ghost predicate GuestReady(bs: seq<Blob>, was: seq<byte>, mem: seq<byte>)
    requires GoodBlobs(bs)
  {
    && |mem| == |was| && BlobsFit(bs, |mem|)
    && (forall j :: 0 <= j < |bs| ==> mem[bs[j].base..bs[j].base + Padded(bs[j].size)] == Data(bs[j]))
    && (BlobsAvoidTables(bs) ==> HoldsTables(mem))
    && (forall a | 0 <= a < |mem| && !(PML4 <= a < TABLES_END) && (forall j :: 0 <= j < |bs| ==> !InBlob(bs[j], a)) ::
          mem[a] == was[a])
  }

  lemma DescribesGood(t: Table, r: nat, dsid: nat, bs: seq<Blob>)
    requires Describes(t, r, dsid, bs)
    ensures GoodBlobs(bs) && r < |t.params| && |t.params[r]| == ROW_SIZE
  {}

  lemma BootMakesReady(t: Table, r: nat, dsid: nat, bs: seq<Blob>, was: seq<byte>, tabled: seq<byte>)
    requires Describes(t, r, dsid, bs) && BlobsApart(bs) && BlobsFit(bs, |was|)
    requires HoldsTables(tabled) && SameExcept(was, tabled, PML4 / 8, TABLES_END / 8)
    ensures var c := CopyOut(t.memory, t.params[r], 0, tabled);
            c.Copied? && GuestReady(bs, was, c.mem)
  {
    hide CopyOut; hide Describes; hide HoldsTables; hide Data; hide Padded; hide BlobsApart;
    DescribesGood(t, r, dsid, bs);
    BootPlacesSegments(t, r, dsid, bs, tabled);
    var mem := CopyOut(t.memory, t.params[r], 0, tabled).mem;
    if BlobsAvoidTables(bs) { TablesSurvive(bs, tabled, mem); }
  }

  // The processor that the loader asks for.
  lemma MaskSelects(t: Table, r: nat, dsid: nat, bs: seq<Blob>, n: nat)
    requires Describes(t, r, dsid, bs) && dsid < 4
    ensures Selected(RowMask(t.params[r]), n) == if dsid < n then [dsid] else []
  {
    Pow256Values();
    assert Bit(1) == 2 && Bit(2) == 4 && Bit(3) == 8;
    BytesRoundTrip(Bit(dsid), 8);
    OneCore(dsid, n);
  }

  // What software sees of the hardware when only this table has changed.
  lemma OnlyTableIsView(was: Hw, now: Hw, i: nat, t: Table)
    requires OnlyTable(was, now, i, t) && i in was.planes
    ensures View(now) == View(was).(tables := View(was).tables[i := t])
    ensures was.planes[i].table == t ==> View(now) == View(was)
  {
    assert View(now).tables == View(was).tables[i := t];
    assert View(now).handled == View(was).handled;
  }

  // The boot command reaches the system with the guest's number.
  method SendBoot(a: Adaptor, cpid: nat, dsid: nat)
    requires cpid % 0x400 in a.planes && BOOT in a.planes[cpid % 0x400].handled && dsid < 4
    modifies a
    ensures a.sent == old(a.sent) + [Sent(cpid % 0x400, BOOT, ToBytes(dsid, 2), Zeros(4), Zeros(8))]
    ensures View(a.Model()) == View(old(a.Model())).(sent := a.sent)
    ensures cpid % 0x400 in a.planes && a.planes[cpid % 0x400].table == old(a.planes)[cpid % 0x400].table
    ensures LittleEndian(a.sent[|a.sent| - 1].ldom) == dsid
  {
    Pow256Values();
    BytesRoundTrip(dsid, 2);
    ghost var was := a.Model();
    hide ToBytes; hide LittleEndian; hide Pow256;
    a.WriteCommand(BOOT, cpid, ToBytes(dsid, 2), Zeros(4), Zeros(8));
    assert View(a.Model()).tables[cpid % 0x400] == View(was).tables[cpid % 0x400];
  }

  // The whole sequence for a guest that has no row yet.
  method LoadAndBoot(a: Adaptor, sys: System, cpid: nat, dsid: nat, bs: seq<Blob>) returns (row: int)
    requires cpid % 0x400 in a.planes && BOOT in a.planes[cpid % 0x400].handled
    requires SystemTable(a.planes[cpid % 0x400].table) && FreeRowsAreBlank(a.planes[cpid % 0x400].table)
    requires dsid < 4 && HasNoRow(a.planes[cpid % 0x400].table, dsid) && dsid < |sys.tags|
    requires GoodBlobs(bs) && |bs| <= SEGMENT_COUNT && |Flat(bs)| <= CFGMEM_SIZE && BlobsApart(bs)
    requires sys.proxy.cacheLineSize > 0 && dsid in sys.proxy.guests && |sys.proxy.guests[dsid]| >= TABLES_END
    requires BlobsFit(bs, |sys.proxy.guests[dsid]|)
    modifies a, sys, sys.proxy
    ensures row < 0 ==> SearchFails(old(a.planes)[cpid % 0x400].table)
    ensures row < 0 ==>
      && sys.proxy.guests == old(sys.proxy.guests) && sys.running == old(sys.running) && sys.tags == old(sys.tags)
      && View(a.Model()) == View(old(a.Model()))
    ensures row >= 0 ==>
      && var c, v := cpid % 0x400, View(old(a.Model()));
      && c in a.planes && OnlyRow(old(a.planes)[c].table, a.planes[c].table, row)
      && View(a.Model()) == v.(tables := v.tables[c := a.planes[c].table],
                               sent := v.sent + [Sent(c, BOOT, ToBytes(dsid, 2), Zeros(4), Zeros(8))])
    ensures row >= 0 ==>
      && dsid in sys.proxy.guests
      && GuestReady(bs, old(sys.proxy.guests)[dsid], sys.proxy.guests[dsid])
      && sys.proxy.guests == old(sys.proxy.guests)[dsid := sys.proxy.guests[dsid]]
      && sys.running == old(sys.running) + {dsid} && sys.tags == old(sys.tags)[dsid := dsid]
  {
    ghost var t, c := a.planes[cpid % 0x400].table, cpid % 0x400;
    ghost var was := a.Model();
    row := LoadBios(a, cpid, dsid, bs);
    OnlyTableIsView(was, a.Model(), c, a.planes[c].table);
    if row < 0 {
      return;
    }
    LoadedRowIsFound(t, a.planes[c].table, row, dsid, bs);
    assert BOOT in a.planes[c].handled by { assert a.planes[c].handled == was.planes[c].handled; }
    MaskSelects(a.planes[c].table, row, dsid, bs, |sys.tags|);
    hide OnlyTable; hide Describes; hide IsRowOf; hide FreeRowsAreBlank; hide BlobsApart; hide OnlyRow;
    hide GuestReady; hide HoldsTables; hide SameExcept; hide CopyOut; hide GoodBlob; hide ToBytes; hide Flat;
    ghost var t' := a.planes[c].table;
    SendBoot(a, cpid, dsid);
    ghost var mem := sys.proxy.guests[dsid];
    var s;
    ghost var r, tabled;
    s, r, tabled := sys.StartupLDomain(a.planes[cpid % 0x400].table, LittleEndian(a.sent[|a.sent| - 1].ldom));
    FoundOnce(t', dsid, row, r, s);
    if !s.NotOneCore? {
      BootMakesReady(t', row, dsid, bs, mem, tabled);
    }
  }

  lemma FoundOnce(t: Table, dsid: nat, row: nat, r: nat, s: Startup)
    requires SystemTable(t) && IsFirstRowOf(t, dsid, row)
    requires s.UnknownDomain? <==> HasNoRow(t, dsid)
    requires !s.UnknownDomain? ==> IsFirstRowOf(t, dsid, r)
    ensures !s.UnknownDomain? && r == row
  {
    assert IsRowOf(t, dsid, row);
  }
}
