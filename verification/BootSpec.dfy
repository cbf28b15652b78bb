// The parameter table of the system control plane, what the loader leaves
// in it for a guest and what the system makes of that.
module BootSpec {
  import opened ByteSeq
  import opened ControlPlane

  const ROW_SIZE: nat := 88
  const CFGMEM_SIZE: nat := 0x100_0000
  const SEGMENT_COUNT: nat := 4

  type Row = s: seq<byte> | |s| == 88 witness Zeros(88)

  datatype Segment = Segment(base: nat, size: nat, offset: nat)

  // The layout of the system control plane; a row number has eight bits.
  ghost predicate SystemTable(t: Table) {
    && |t.params| < 256 && |t.memory| == CFGMEM_SIZE
    && forall r :: 0 <= r < |t.params| ==> |t.params[r]| == ROW_SIZE
  }

  predicate ValidRow(row: Row) { row[3] >= 0x80 }

  function RowDSid(row: Row): nat { LittleEndian(row[0..2]) }

  function RowMask(row: Row): nat { LittleEndian(row[8..16]) }

  function RowSegment(row: Row, i: nat): Segment
    requires i < SEGMENT_COUNT
  {
    var k := 24 + 16 * i;
    Segment(LittleEndian(row[k..k + 8]), LittleEndian(row[k + 8..k + 12]), LittleEndian(row[k + 12..k + 16]))
  }

  // ---- The search for the row of a guest ----

  ghost predicate IsRowOf(t: Table, dsid: nat, r: nat)
    requires SystemTable(t)
  {
    r < |t.params| && ValidRow(t.params[r]) && RowDSid(t.params[r]) == dsid
  }

  // The first one counts.
  ghost predicate IsFirstRowOf(t: Table, dsid: nat, r: nat)
    requires SystemTable(t)
  {
    IsRowOf(t, dsid, r) && forall k :: 0 <= k < r ==> !IsRowOf(t, dsid, k)
  }

  ghost predicate HasNoRow(t: Table, dsid: nat)
    requires SystemTable(t)
  {
    forall k :: 0 <= k < |t.params| ==> !IsRowOf(t, dsid, k)
  }

  // ---- Copying segments out ----

  datatype Copied = Copied(mem: seq<byte>) | Failed

  // Segments i.. of a row go to guest memory in order.
  function CopyOut(config: seq<byte>, row: Row, i: nat, mem: seq<byte>): (c: Copied)
    requires i <= SEGMENT_COUNT
    ensures c.Copied? ==> |c.mem| == |mem|
    decreases SEGMENT_COUNT - i
  {
    if i == SEGMENT_COUNT then Copied(mem)
    else
      var s := RowSegment(row, i);
      if s.size == 0 then CopyOut(config, row, i + 1, mem)
      else if s.offset + s.size > |config| || s.base + s.size > |mem| then Failed
      else CopyOut(config, row, i + 1, Splice(mem, s.base, config[s.offset..s.offset + s.size]))
  }

  // ---- What the loader is to place ----

  // A piece of data and where the guest is to find it; the loader rounds the
  // size up and takes the bytes that follow.
  datatype Blob = Blob(base: nat, size: nat, bytes: seq<byte>)

  function Padded(n: nat): nat { (n + 7) / 8 * 8 }

  predicate GoodBlob(b: Blob) {
    0 < b.size && Padded(b.size) <= |b.bytes| && b.base < 0x1_0000_0000_0000_0000
  }

  function Data(b: Blob): (d: seq<byte>)
    requires GoodBlob(b)
    ensures |d| == Padded(b.size)
  {
    b.bytes[..Padded(b.size)]
  }

  ghost predicate GoodBlobs(bs: seq<Blob>) {
    forall i :: 0 <= i < |bs| ==> GoodBlob(bs[i])
  }

  // All data end to end, as it goes to configuration memory.
  function Flat(bs: seq<Blob>): seq<byte>
    requires GoodBlobs(bs)
  {
    if bs == [] then [] else Flat(bs[..|bs| - 1]) + Data(bs[|bs| - 1])
  }

  function OffsetOf(bs: seq<Blob>, i: nat): nat
    requires GoodBlobs(bs) && i <= |bs|
  {
    |Flat(bs[..i])|
  }

  lemma FlatNext(bs: seq<Blob>, i: nat)
    requires GoodBlobs(bs) && i < |bs|
    ensures Flat(bs[..i + 1]) == Flat(bs[..i]) + Data(bs[i])
    ensures OffsetOf(bs, i + 1) == OffsetOf(bs, i) + Padded(bs[i].size)
  {
    assert bs[..i + 1][..i] == bs[..i];
  }

  lemma {:induction false} FlatAt(bs: seq<Blob>, i: nat)
    requires GoodBlobs(bs) && i < |bs|
    ensures OffsetOf(bs, i) + Padded(bs[i].size) <= |Flat(bs)|
    ensures Flat(bs)[OffsetOf(bs, i)..OffsetOf(bs, i) + Padded(bs[i].size)] == Data(bs[i])
  {
    var n := |bs| - 1;
    if i < n {
      FlatAt(bs[..n], i);
      assert bs[..n][..i] == bs[..i];
    }
  }

  // ---- A row that describes them ----

  function SegmentBytes(base: nat, size: nat, offset: nat): (b: seq<byte>)
    ensures |b| == 16
  {
    ToBytes(base, 8) + ToBytes(size + 0x1_0000_0000 * offset, 8)
  }

  ghost predicate SlotHolds(row: Row, bs: seq<Blob>, i: nat)
    requires GoodBlobs(bs) && i < |bs| <= SEGMENT_COUNT
  {
    row[24 + 16 * i..40 + 16 * i] == SegmentBytes(bs[i].base, Padded(bs[i].size), OffsetOf(bs, i))
  }

  lemma SegmentRoundTrip(row: Row, i: nat, base: nat, size: nat, offset: nat)
    requires i < SEGMENT_COUNT && row[24 + 16 * i..40 + 16 * i] == SegmentBytes(base, size, offset)
    requires base < 0x1_0000_0000_0000_0000 && size < 0x1_0000_0000 && offset < 0x1_0000_0000
    ensures RowSegment(row, i) == Segment(base, size, offset)
  {
    hide ToBytes; hide LittleEndian; hide Pow256; hide SegmentBytes;
    Pow256Values();
    BytesRoundTrip(base, 8);
    BytesRoundTrip(size, 4);
    BytesRoundTrip(offset, 4);
    SegmentBytesAre(base, size, offset);
    var k := 24 + 16 * i;
    var s := row[k..k + 16];
    assert row[k..k + 8] == s[..8];
    assert row[k + 8..k + 12] == s[8..12];
    assert row[k + 12..k + 16] == s[12..16];
  }

  lemma SegmentBytesAre(base: nat, size: nat, offset: nat)
    requires size < 0x1_0000_0000
    ensures var s := SegmentBytes(base, size, offset);
            s[..8] == ToBytes(base, 8) && s[8..12] == ToBytes(size, 4) && s[12..16] == ToBytes(offset, 4)
  {
    hide ToBytes;
    Halves(size, offset);
  }

  lemma Halves(lo: nat, hi: nat)
    requires lo < 0x1_0000_0000
    ensures ToBytes(lo + 0x1_0000_0000 * hi, 8) == ToBytes(lo, 4) + ToBytes(hi, 4)
  {
    hide ToBytes; hide Pow256;
    Pow256Values();
    BytesOfSum(lo, 4, hi, 4);
  }

  function HeadBytes(dsid: nat): (b: seq<byte>)
    ensures |b| == 8
  {
    ToBytes(0x8000_0000 + dsid, 8)
  }

  lemma HeadRoundTrip(row: Row, dsid: nat)
    requires dsid < 0x1_0000 && row[..8] == HeadBytes(dsid)
    ensures ValidRow(row) && RowDSid(row) == dsid
  {
    Pow256Values();
    BytesOfSum(dsid, 2, 0x8000, 6);
    BytesRoundTrip(dsid, 2);
    assert ToBytes(0x8000, 6)[1] == ToBytes(0x80, 5)[0] == 0x80;
    assert row[0..2] == row[..8][..2] == ToBytes(dsid, 2);
    assert row[3] == row[..8][3] == ToBytes(0x8000, 6)[1];
  }

  // The row of a guest and the configuration memory, ready for the boot.
  ghost predicate Describes(t: Table, r: nat, dsid: nat, bs: seq<Blob>) {
    && SystemTable(t) && r < |t.params| && GoodBlobs(bs) && |bs| <= SEGMENT_COUNT && |Flat(bs)| <= CFGMEM_SIZE
    && t.memory[..|Flat(bs)|] == Flat(bs)
    && (forall i :: 0 <= i < |bs| ==> SlotHolds(t.params[r], bs, i))
    && (forall i :: |bs| <= i < SEGMENT_COUNT ==> RowSegment(t.params[r], i).size == 0)
    && t.params[r][..8] == HeadBytes(dsid)
    && t.params[r][8..16] == ToBytes(Bit(dsid), 8)
  }

  function Bit(n: nat): (b: nat)
    ensures b > 0
  {
    if n == 0 then 1 else 2 * Bit(n - 1)
  }

  ghost predicate BlobsApart(bs: seq<Blob>) {
    forall i, j :: 0 <= i < j < |bs| ==> Apart(bs[i], bs[j])
  }

  predicate Apart(b: Blob, c: Blob) {
    b.base + Padded(b.size) <= c.base || c.base + Padded(c.size) <= b.base
  }

  ghost predicate BlobsFit(bs: seq<Blob>, size: nat) {
    forall i :: 0 <= i < |bs| ==> bs[i].base + Padded(bs[i].size) <= size
  }

  predicate InBlob(b: Blob, a: int) { b.base <= a < b.base + Padded(b.size) }

  // Bytes of segments ..i are in place.
  ghost predicate Placed(bs: seq<Blob>, mem: seq<byte>, i: nat)
    requires GoodBlobs(bs) && i <= |bs|
  {
    BlobsFit(bs, |mem|)
    && forall j :: 0 <= j < i ==> mem[bs[j].base..bs[j].base + Padded(bs[j].size)] == Data(bs[j])
  }

  ghost predicate OnlyBlobs(bs: seq<Blob>, was: seq<byte>, mem: seq<byte>) {
    && |mem| == |was|
    && forall a | 0 <= a < |mem| && (forall j :: 0 <= j < |bs| ==> !InBlob(bs[j], a)) :: mem[a] == was[a]
  }

  lemma SegmentIs(t: Table, r: nat, dsid: nat, bs: seq<Blob>, i: nat)
    requires Describes(t, r, dsid, bs) && i < |bs|
    ensures var s := RowSegment(t.params[r], i);
            && s == Segment(bs[i].base, Padded(bs[i].size), OffsetOf(bs, i))
            && s.size > 0 && s.offset + s.size <= |t.memory|
            && t.memory[s.offset..s.offset + s.size] == Data(bs[i])
  {
    FlatAt(bs, i);
    assert SlotHolds(t.params[r], bs, i);
    SegmentRoundTrip(t.params[r], i, bs[i].base, Padded(bs[i].size), OffsetOf(bs, i));
    var n := |Flat(bs)|;
    var o, e := OffsetOf(bs, i), OffsetOf(bs, i) + Padded(bs[i].size);
    assert t.memory[o..e] == t.memory[..n][o..e];
  }

  lemma PlacedNext(bs: seq<Blob>, mem: seq<byte>, i: nat)
    requires GoodBlobs(bs) && i < |bs| && BlobsApart(bs) && Placed(bs, mem, i)
    ensures Placed(bs, Splice(mem, bs[i].base, Data(bs[i])), i + 1)
  {
    hide Data; hide Padded;
    var b := bs[i];
    var mem' := Splice(mem, b.base, Data(b));
    forall j | 0 <= j < i + 1
      ensures mem'[bs[j].base..bs[j].base + Padded(bs[j].size)] == Data(bs[j])
    {
      if j == i {
        SpliceHolds(mem, b.base, Data(b));
      } else {
        assert Apart(bs[j], b);
        SpliceKeepsApart(mem, b.base, Data(b), bs[j].base, Padded(bs[j].size));
      }
    }
  }

  lemma SpliceStaysInBlobs(bs: seq<Blob>, was: seq<byte>, i: nat)
    requires GoodBlobs(bs) && i < |bs| && BlobsFit(bs, |was|)
    ensures OnlyBlobs(bs, was, Splice(was, bs[i].base, Data(bs[i])))
  {
    forall a | 0 <= a < |was| && (forall j :: 0 <= j < |bs| ==> !InBlob(bs[j], a))
      ensures Splice(was, bs[i].base, Data(bs[i]))[a] == was[a]
    {
      assert !InBlob(bs[i], a);
    }
  }

  lemma CopyOutUnfolds(t: Table, r: nat, dsid: nat, bs: seq<Blob>, i: nat, mem: seq<byte>)
    requires Describes(t, r, dsid, bs) && BlobsFit(bs, |mem|) && i < SEGMENT_COUNT
    ensures CopyOut(t.memory, t.params[r], i, mem)
         == CopyOut(t.memory, t.params[r], i + 1, if i < |bs| then Splice(mem, bs[i].base, Data(bs[i])) else mem)
  {
    if i < |bs| { SegmentIs(t, r, dsid, bs, i); }
    hide RowSegment; hide Data; hide Splice; hide SlotHolds; hide Flat; hide OffsetOf; hide HeadBytes; hide ToBytes;
  }

  lemma OnlyBlobsTwice(bs: seq<Blob>, m0: seq<byte>, m1: seq<byte>, m2: seq<byte>)
    requires OnlyBlobs(bs, m0, m1) && OnlyBlobs(bs, m1, m2)
    ensures OnlyBlobs(bs, m0, m2)
  {}

  lemma PlacedFits(bs: seq<Blob>, mem: seq<byte>, i: nat)
    requires GoodBlobs(bs) && i <= |bs| && Placed(bs, mem, i)
    ensures BlobsFit(bs, |mem|)
  {}

  lemma {:induction false} CopyOutPlaces(t: Table, r: nat, dsid: nat, bs: seq<Blob>, i: nat, mem: seq<byte>)
    requires Describes(t, r, dsid, bs) && BlobsApart(bs) && i <= SEGMENT_COUNT
    requires Placed(bs, mem, if i < |bs| then i else |bs|)
    ensures var c := CopyOut(t.memory, t.params[r], i, mem);
            c.Copied? && Placed(bs, c.mem, |bs|) && OnlyBlobs(bs, mem, c.mem)
    decreases SEGMENT_COUNT - i
  {
    hide CopyOut; hide SlotHolds; hide Flat; hide BlobsApart; hide RowSegment; hide Data; hide Splice;
    hide Placed; hide OnlyBlobs; hide HeadBytes; hide ToBytes; hide OffsetOf;
    if i < SEGMENT_COUNT {
      PlacedFits(bs, mem, if i < |bs| then i else |bs|);
      CopyOutUnfolds(t, r, dsid, bs, i, mem);
      if i < |bs| {
        PlacedNext(bs, mem, i);
        SpliceStaysInBlobs(bs, mem, i);
        var mem' := Splice(mem, bs[i].base, Data(bs[i]));
        CopyOutPlaces(t, r, dsid, bs, i + 1, mem');
        OnlyBlobsTwice(bs, mem, mem', CopyOut(t.memory, t.params[r], i, mem).mem);
      } else {
        CopyOutPlaces(t, r, dsid, bs, i + 1, mem);
      }
    } else {
      NothingIsLeft(t.memory, t.params[r], bs, mem);
    }
  }

  lemma NothingIsLeft(memory: seq<byte>, row: Row, bs: seq<Blob>, mem: seq<byte>)
    ensures CopyOut(memory, row, SEGMENT_COUNT, mem) == Copied(mem) && OnlyBlobs(bs, mem, mem)
  {}

  // From a described row every segment arrives in guest memory, byte for
  // byte, and no other byte changes.
  lemma BootPlacesSegments(t: Table, r: nat, dsid: nat, bs: seq<Blob>, mem: seq<byte>)
    requires Describes(t, r, dsid, bs) && BlobsApart(bs) && BlobsFit(bs, |mem|)
    ensures var c := CopyOut(t.memory, t.params[r], 0, mem);
            && c.Copied? && OnlyBlobs(bs, mem, c.mem)
            && forall j :: 0 <= j < |bs| ==> c.mem[bs[j].base..bs[j].base + Padded(bs[j].size)] == Data(bs[j])
  {
    CopyOutPlaces(t, r, dsid, bs, 0, mem);
  }
}
