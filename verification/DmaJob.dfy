// A DMA command and its PRD table: what is to go where.
module DmaJob {
  import opened ByteSeq
  import opened DiskSpec
  import opened DmaEngine

  datatype Job = Job(prds: seq<Prd>, table: nat, lba: nat, sectors: nat)

  function Total(prds: seq<Prd>): nat {
    if prds == [] then 0 else Total(prds[..|prds| - 1]) + prds[|prds| - 1].count
  }

  // Bytes described by the first k entries.
  function Before(job: Job, k: nat): nat
    requires k <= |job.prds|
  {
    Total(job.prds[..k])
  }

  predicate InRegion(p: Prd, a: int) { p.base <= a < p.base + p.count }

  // A table that a driver may set up: whole sectors, as many as the command
  // asks for, the last entry and only it marked, regions that lie in memory
  // apart from each other and from the table itself.
  ghost predicate GoodCounts(job: Job, size: nat) {
    && job.prds != [] && 1 <= job.sectors <= 256
    && (forall i :: 0 <= i < |job.prds| ==> GoodPrd(job.prds[i], size))
    && (forall i :: 0 <= i < |job.prds| ==> (job.prds[i].eot <==> i == |job.prds| - 1))
    && Total(job.prds) == 512 * job.sectors
    && job.table + PRD_SIZE * |job.prds| <= size && job.table + PRD_SIZE * |job.prds| < 0x1_0000_0000
  }

  predicate GoodPrd(p: Prd, size: nat) {
    0 < p.count <= MAX_SINGLE_DMA && p.count % 512 == 0 && p.base + p.count <= size
  }

  predicate InTable(job: Job, a: int) { job.table <= a < job.table + PRD_SIZE * |job.prds| }

  ghost predicate Apart(job: Job) {
    && (forall i, j, a | 0 <= i < |job.prds| && 0 <= j < |job.prds| ::
          InRegion(job.prds[i], a) && InRegion(job.prds[j], a) ==> i == j)
    && (forall i, a :: 0 <= i < |job.prds| && InRegion(job.prds[i], a) ==> !InTable(job, a))
  }

  ghost predicate TableReads(job: Job, mem: seq<byte>) {
    && job.table + PRD_SIZE * |job.prds| <= |mem|
    && forall i :: 0 <= i < |job.prds| ==> DecodePrd(Entry(job, mem, i)) == job.prds[i]
  }

  ghost predicate WellFormed(job: Job, mem: seq<byte>) {
    GoodCounts(job, |mem|) && Apart(job) && TableReads(job, mem)
  }

  function Entry(job: Job, mem: seq<byte>, i: nat): seq<byte>
    requires i < |job.prds| && job.table + PRD_SIZE * |job.prds| <= |mem|
  {
    mem[job.table + PRD_SIZE * i..job.table + PRD_SIZE * i + PRD_SIZE]
  }

  lemma BeforeNext(job: Job, k: nat)
    requires k < |job.prds|
    ensures Before(job, k + 1) == Before(job, k) + job.prds[k].count
  {
    assert job.prds[..k + 1][..k] == job.prds[..k];
  }

  lemma {:induction false} BeforeGrows(job: Job, k: nat, m: nat)
    requires k <= m <= |job.prds|
    ensures Before(job, k) <= Before(job, m)
  {
    if k < m {
      BeforeGrows(job, k, m - 1);
      BeforeNext(job, m - 1);
    }
  }

  lemma {:induction false} BeforeIsSectors(job: Job, k: nat)
    requires k <= |job.prds| && forall i :: 0 <= i < |job.prds| ==> job.prds[i].count % 512 == 0
    ensures Before(job, k) % 512 == 0
  {
    if k > 0 {
      BeforeIsSectors(job, k - 1);
      BeforeNext(job, k - 1);
    }
  }

  lemma BeforeAll(job: Job)
    ensures Before(job, |job.prds|) == Total(job.prds)
    ensures Before(job, 0) == 0
  {
    assert job.prds[..|job.prds|] == job.prds;
  }

  // Byte x of the sectors of the command.
  function SectorByte(image: seq<Sector>, lba: nat, x: nat): byte
    requires lba + x / 512 < |image|
  {
    image[lba + x / 512][x % 512]
  }

  // ---- The sector loops of the engine ----

  function Slice(b: Buffer, k: nat): Sector
    requires k + 512 <= MAX_DMA_SIZE
  {
    b[k..k + 512]
  }

  lemma OverwriteAt(b: Buffer, k: nat, s: Sector)
    requires k + 512 <= MAX_DMA_SIZE
    ensures Slice(Overwrite(b, k, s), k) == s
    ensures forall o :: 0 <= o < k ==> Overwrite(b, k, s)[o] == b[o]
  {}

  predicate Loading(d: Disk, done: nat, m: nat) {
    && done % 512 == 0 && done + 512 * m <= MAX_SINGLE_DMA
    && FreeCounters(d.devState) && d.curSector + m <= |d.image|
  }

  // m sectors off the counter, which wraps round.
  function LessBy(x: nat, m: nat): nat { if m == 0 then x else (x - 512 * m) % 0x1_0000_0000 }

  lemma LessAgain(x: nat, m: nat)
    requires m > 0
    ensures LessBy(Less(x), m - 1) == LessBy(x, m)
  {}

  lemma LessIsMinus(x: nat, m: nat)
    requires 512 * m <= x < 0x1_0000_0000
    ensures LessBy(x, m) == x - 512 * m
  {}

  function LoadOne(d: Disk, done: nat): Disk
    requires d.curSector < |d.image| && done + 512 <= MAX_SINGLE_DMA
  {
    d.(buffer := Overwrite(d.buffer, done, d.image[d.curSector]),
       curSector := d.curSector + 1, cmdBytesLeft := Less(d.cmdBytesLeft))
  }

  function StoreOne(d: Disk, done: nat): Disk
    requires d.curSector < |d.image| && done + 512 <= MAX_SINGLE_DMA
  {
    d.(image := d.image[d.curSector := d.buffer[done..done + 512]],
       curSector := d.curSector + 1, cmdBytesLeft := Less(d.cmdBytesLeft))
  }

  lemma LoadUnfolds(d: Disk, done: nat, m: nat)
    requires Loading(d, done, m) && m > 0
    ensures Loading(LoadOne(d, done), done + 512, m - 1)
    ensures LoadSectors(d, done, done + 512 * m)
         == LoadSectors(LoadOne(d, done), done + 512, done + 512 + 512 * (m - 1))
  {
    hide Overwrite;
  }

  lemma StoreUnfolds(d: Disk, done: nat, m: nat)
    requires Loading(d, done, m) && m > 0
    ensures Loading(StoreOne(d, done), done + 512, m - 1)
    ensures StoreSectors(d, done, done + 512 * m)
         == StoreSectors(StoreOne(d, done), done + 512, done + 512 + 512 * (m - 1))
  {}

  ghost predicate Loaded(d: Disk, done: nat, m: nat, r: Disk)
    requires Loading(d, done, m)
  {
    && r.curSector == d.curSector + m && r.cmdBytesLeft == LessBy(d.cmdBytesLeft, m)
    && (forall o :: 0 <= o < done ==> r.buffer[o] == d.buffer[o])
    && (forall j :: 0 <= j < m ==> Slice(r.buffer, done + 512 * j) == d.image[d.curSector + j])
  }

  ghost predicate Stored(d: Disk, done: nat, m: nat, r: Disk)
    requires Loading(d, done, m)
  {
    && r.curSector == d.curSector + m && r.cmdBytesLeft == LessBy(d.cmdBytesLeft, m)
    && |r.image| == |d.image|
    && (forall j :: 0 <= j < m ==> r.image[d.curSector + j] == Slice(d.buffer, done + 512 * j))
    && (forall t :: 0 <= t < |d.image| && !(d.curSector <= t < d.curSector + m) ==> r.image[t] == d.image[t])
  }

  lemma LoadedStep(d: Disk, done: nat, m: nat, r: Disk)
    requires Loading(d, done, m) && m > 0
    requires Loading(LoadOne(d, done), done + 512, m - 1)
    requires Loaded(LoadOne(d, done), done + 512, m - 1, r)
    ensures Loaded(d, done, m, r)
  {
    hide Overwrite;
    var d' := LoadOne(d, done);
    LessAgain(d.cmdBytesLeft, m);
    hide Less; hide LessBy;
    OverwriteAt(d.buffer, done, d.image[d.curSector]);
    assert Slice(r.buffer, done) == Slice(d'.buffer, done);
    forall j | 0 < j < m
      ensures Slice(r.buffer, done + 512 * j) == d.image[d.curSector + j]
    {
      assert Slice(r.buffer, done + 512 + 512 * (j - 1)) == d'.image[d'.curSector + (j - 1)];
    }
  }

  lemma StoredStep(d: Disk, done: nat, m: nat, r: Disk)
    requires Loading(d, done, m) && m > 0
    requires Loading(StoreOne(d, done), done + 512, m - 1)
    requires Stored(StoreOne(d, done), done + 512, m - 1, r)
    ensures Stored(d, done, m, r)
  {
    var d' := StoreOne(d, done);
    LessAgain(d.cmdBytesLeft, m);
    hide Less; hide LessBy;
    forall j | 0 <= j < m
      ensures r.image[d.curSector + j] == Slice(d.buffer, done + 512 * j)
    {
      if j > 0 {
        assert r.image[d'.curSector + (j - 1)] == Slice(d'.buffer, done + 512 + 512 * (j - 1));
      } else {
        assert r.image[d.curSector] == d'.image[d.curSector];
      }
    }
  }

  // m sectors of the image go to the buffer from `done` on.
  lemma {:induction false} LoadedSectors(d: Disk, done: nat, m: nat)
    requires Loading(d, done, m)
    ensures LoadSectors(d, done, done + 512 * m).Ok?
    ensures Loaded(d, done, m, LoadSectors(d, done, done + 512 * m).d)
    decreases m
  {
    if m > 0 {
      LoadUnfolds(d, done, m);
      LoadedSectors(LoadOne(d, done), done + 512, m - 1);
      hide LoadOne; hide LoadSectors; hide Loaded;
      LoadedStep(d, done, m, LoadSectors(d, done, done + 512 * m).d);
    }
  }

  // m sectors go from the buffer to the image.
  lemma {:induction false} StoredSectors(d: Disk, done: nat, m: nat)
    requires Loading(d, done, m)
    ensures StoreSectors(d, done, done + 512 * m).Ok?
    ensures Stored(d, done, m, StoreSectors(d, done, done + 512 * m).d)
    decreases m
  {
    if m > 0 {
      StoreUnfolds(d, done, m);
      StoredSectors(StoreOne(d, done), done + 512, m - 1);
      hide StoreOne; hide StoreSectors; hide Stored;
      StoredStep(d, done, m, StoreSectors(d, done, done + 512 * m).d);
    }
  }
}
