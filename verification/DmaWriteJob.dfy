// WRITE DMA: the memory regions of the table end up on the image.
module DmaWriteJob {
  import opened ByteSeq
  import opened DiskSpec
  import opened DiskInvariants
  import opened BusMaster
  import opened DmaEngine
  import opened DmaCoherence
  import opened DmaJob
  import opened DmaTransfer
  import opened PioHost

  // The image holds the regions of the first k entries and is otherwise as
  // it was outside the range of the command.
  ghost predicate Stored(image: seq<Sector>, image0: seq<Sector>, mem: seq<byte>, job: Job, k: nat)
    requires GoodCounts(job, |mem|) && job.lba + job.sectors <= |image0| && k <= |job.prds|
  {
    && |image| == |image0|
    && (forall i, o :: 0 <= i < k && 0 <= o < job.prds[i].count ==> StoredByte(image, mem, job, i, o))
    && (forall t :: 0 <= t < |image0| && !(job.lba <= t < job.lba + job.sectors) ==> image[t] == image0[t])
  }

  ghost predicate StoredByte(image: seq<Sector>, mem: seq<byte>, job: Job, i: nat, o: nat)
    requires GoodCounts(job, |mem|) && job.lba + job.sectors <= |image|
    requires i < |job.prds| && o < job.prds[i].count
  {
    InJob(job, i, o, |mem|);
    SectorByte(image, job.lba, Before(job, i) + o) == mem[job.prds[i].base + o]
  }

  ghost predicate WriteSetup(s: Sys, job: Job, mem: seq<byte>, image0: seq<Sector>) {
    && Working(s) && s.d.dmaRead && s.mem == mem
    && WellFormed(job, mem) && job.lba + job.sectors <= |image0|
  }

  ghost predicate WriteFetching(s: Sys, job: Job, mem: seq<byte>, image0: seq<Sector>, k: nat) {
    && WriteSetup(s, job, mem, image0) && Fetching(s, job, k)
    && Counters(s.d, job, k) && Stored(s.d.image, image0, mem, job, k)
  }

  ghost predicate BufferHasMoved(s: Sys, job: Job, k: nat)
    requires k < |job.prds| && GoodPrd(job.prds[k], |s.mem|)
  {
    forall o :: 0 <= o < job.prds[k].count && DmaTransfer.Moved(s, o) ==>
      s.d.buffer[o] == s.mem[job.prds[k].base + o]
  }

  ghost predicate WriteMoving(s: Sys, job: Job, mem: seq<byte>, image0: seq<Sector>, k: nat) {
    && WriteSetup(s, job, mem, image0) && Moving(s, job, k, ToBuffer, ReadWait)
    && Counters(s.d, job, k) && Stored(s.d.image, image0, mem, job, k)
    && GoodPrd(job.prds[k], |s.mem|) && BufferHasMoved(s, job, k)
  }

  ghost predicate WriteDone(s: Sys, job: Job, mem: seq<byte>, image0: seq<Sector>) {
    && AtRest(s) && s.mem == mem && s.d.cmdBytesLeft == 0
    && WellFormed(job, mem) && job.lba + job.sectors <= |image0|
    && Stored(s.d.image, image0, mem, job, |job.prds|)
  }

  ghost predicate WriteState(s: Sys, job: Job, mem: seq<byte>, image0: seq<Sector>, k: nat) {
    WriteFetching(s, job, mem, image0, k) || WriteMoving(s, job, mem, image0, k)
  }

  lemma StillFetchingWrites(s: Sys, s': Sys, job: Job, mem: seq<byte>, image0: seq<Sector>, k: nat)
    requires WriteFetching(s, job, mem, image0, k) && StillFetching(s, s', job, k)
    ensures WriteFetching(s', job, mem, image0, k)
  {
    hide Coherent; hide WellFormed; hide Stored;
  }

  lemma EntryIsDue(s: Sys, job: Job, mem: seq<byte>, image0: seq<Sector>, k: nat, busy: bool)
    requires WriteFetching(s, job, mem, image0, k) && PrdRead in s.scheduled
    ensures WellTyped(s) && Fire(s, PrdRead, busy).Fine?
    ensures WriteMoving(Fire(s, PrdRead, busy).s, job, mem, image0, k)
  {
    hide Coherent; hide Running; hide DecodePrd; hide Stored; hide Apart; hide Total; hide LoadSectors; hide Zeros;
    OneEvent(s, PrdRead);
    assert PrdRead in multiset{PrdRead};
    StepIsKept(s, Due(PrdRead, busy));
    InJob(job, k, 0, |s.mem|);
    assert s.curPrdAddr + PRD_SIZE < 0x1_0000_0000 && s.d.cmdBytesLeft <= MAX_DMA_SIZE;
    PrdReadDue(s);
    assert Fire(s, PrdRead, busy) == Fire(s, PrdRead, false);
    assert DecodePrd(s.prdBytes) == job.prds[k];
    hide Fire; hide TableReads;
  }

  // ---- Moving a region ----

  lemma PageIsDue(s: Sys, job: Job, mem: seq<byte>, image0: seq<Sector>, k: nat, busy: bool)
    requires WriteMoving(s, job, mem, image0, k) && ReadWait in s.scheduled
    requires busy || Handed(s) < job.prds[k].count
    ensures WellTyped(s) && Fire(s, ReadWait, busy).Fine?
    ensures WriteMoving(Fire(s, ReadWait, busy).s, job, mem, image0, k)
  {
    hide Coherent; hide Running; hide DecodePrd; hide Stored; hide TableReads; hide Apart; hide Total; hide Zeros;
    hide Fire; hide WellFormed; hide EndRead; hide Below; hide CountersFit;
    OneEvent(s, ReadWait);
    StepIsKept(s, Due(ReadWait, busy));
    ReadDue(s, busy);
    var s' := Fire(s, ReadWait, busy).s;
    forall o | 0 <= o < job.prds[k].count && DmaTransfer.Moved(s', o)
      ensures s'.d.buffer[o] == s'.mem[job.prds[k].base + o]
    {
      assert DmaTransfer.Moved(s, o);
    }
  }

  lemma MoveFillsBuffer(s: Sys, prd: Prd, which: set<nat>)
    requires WellTyped(s) && Allowed(s, DmaCoherence.Moved(which)) && GoodPrd(prd, |s.mem|)
    requires MovingPage(s.flight.op, Handed(s), prd, ToBuffer) && Handed(s) <= prd.count
    requires forall o :: 0 <= o < prd.count && DmaTransfer.Moved(s, o) ==> s.d.buffer[o] == s.mem[prd.base + o]
    ensures var s' := Move(s, which);
            && s'.mem == s.mem && s'.d == s.d.(buffer := s'.d.buffer) && s'.prdBytes == s.prdBytes
            && s'.scheduled == s.scheduled && s'.held == s.held && s'.gen == s.gen && s'.curPrdAddr == s.curPrdAddr
            && s'.flight.Busy? && MovingPage(s'.flight.op, Handed(s'), prd, ToBuffer)
            && forall o :: 0 <= o < prd.count && DmaTransfer.Moved(s', o) ==>
                 s'.d.buffer[o] == s.mem[prd.base + o]
  {
    hide Shape;
    var op, s' := s.flight.op, Move(s, which);
    forall o | 0 <= o < prd.count && DmaTransfer.Moved(s', o)
      ensures s'.d.buffer[o] == s.mem[prd.base + o]
    {
      if o - op.offset in which {
        assert op.addr + (o - op.offset) == prd.base + o;
      } else {
        assert DmaTransfer.Moved(s, o);
      }
    }
  }

  lemma RegionMoves(s: Sys, job: Job, mem: seq<byte>, image0: seq<Sector>, k: nat, which: set<nat>)
    requires WriteMoving(s, job, mem, image0, k) && Allowed(s, DmaCoherence.Moved(which))
    ensures WellTyped(s) && WriteMoving(Move(s, which), job, mem, image0, k)
  {
    hide Coherent; hide DecodePrd; hide Stored; hide WellFormed; hide MovingPage; hide DmaTransfer.Moved;
    hide Move; hide Allowed; hide Zeros;
    MoveNeedsFlight(s, which);
    BusyHasNoEvent(s);
    assert ReadWait in multiset{ReadWait};
    MoveIsKept(s, which);
    MoveFillsBuffer(s, job.prds[k], which);
  }

  lemma PageIsMoved(s: Sys, job: Job, mem: seq<byte>, image0: seq<Sector>, k: nat, c: Cont)
    requires WriteMoving(s, job, mem, image0, k) && Allowed(s, Finished(c))
    ensures CompleteOp(s, c).Fine? && WriteMoving(CompleteOp(s, c).s, job, mem, image0, k)
  {
    hide Coherent; hide WellFormed; hide Stored; hide DecodePrd; hide CompleteOp;
    CompleteIsKept(s, c);
    FinishedIs(s, c);
    assert ReadWait in multiset{ReadWait};
    var s' := CompleteOp(s, c).s;
    forall o | 0 <= o < job.prds[k].count && DmaTransfer.Moved(s', o)
      ensures s'.d.buffer[o] == s'.mem[job.prds[k].base + o]
    {
      assert DmaTransfer.Moved(s, o);
    }
  }

  // ---- The end of a region ----

  // The sectors of the region go from the buffer to the image.
  lemma SectorOf(p: nat, n: nat, o: nat)
    requires p % 512 == 0 && n % 512 == 0
    ensures (p + n) / 512 == p / 512 + n / 512 && (p + o) / 512 == p / 512 + o / 512 && (p + o) % 512 == o % 512
    ensures o < n ==> o / 512 < n / 512
  {}

  // The sectors of region k, and no others, have come from the buffer.
  ghost predicate FromBuffer(image: seq<Sector>, image': seq<Sector>, buffer: Buffer, job: Job, k: nat)
    requires k < |job.prds| && job.prds[k].count <= MAX_SINGLE_DMA
  {
    var cur, n := job.lba + Before(job, k) / 512, job.prds[k].count;
    && |image'| == |image| && cur + n / 512 <= |image|
    && (forall j :: 0 <= j < n / 512 ==> image'[cur + j] == Slice(buffer, 512 * j))
    && (forall t :: 0 <= t < |image| && !(cur <= t < cur + n / 512) ==> image'[t] == image[t])
  }

  lemma NewByteIsStored(image: seq<Sector>, image': seq<Sector>, mem: seq<byte>, buffer: Buffer, job: Job, k: nat,
                        o: nat)
    requires GoodCounts(job, |mem|) && job.lba + job.sectors <= |image| && k < |job.prds|
    requires GoodPrd(job.prds[k], |mem|) && FromBuffer(image, image', buffer, job, k)
    requires o < job.prds[k].count && buffer[o] == mem[job.prds[k].base + o]
    ensures StoredByte(image', mem, job, k, o)
  {
    hide Total; hide Before; hide GoodCounts;
    InJob(job, k, o, |mem|);
    SectorOf(Before(job, k), job.prds[k].count, o);
    assert image'[job.lba + Before(job, k) / 512 + o / 512] == Slice(buffer, 512 * (o / 512));
    assert Slice(buffer, 512 * (o / 512))[o % 512] == buffer[o];
  }

  lemma OldByteStays(image: seq<Sector>, image': seq<Sector>, mem: seq<byte>, buffer: Buffer, job: Job, k: nat,
                     i: nat, o: nat)
    requires GoodCounts(job, |mem|) && job.lba + job.sectors <= |image| && i < k < |job.prds|
    requires GoodPrd(job.prds[k], |mem|) && FromBuffer(image, image', buffer, job, k)
    requires o < job.prds[i].count && StoredByte(image, mem, job, i, o)
    ensures StoredByte(image', mem, job, i, o)
  {
    hide Total; hide Before; hide GoodCounts;
    InJob(job, i, o, |mem|);
    InJob(job, k, 0, |mem|);
    BeforeGrows(job, i + 1, k);
    var t := job.lba + (Before(job, i) + o) / 512;
    assert image'[t] == image[t];
  }

  lemma StoredRegion(image: seq<Sector>, image': seq<Sector>, image0: seq<Sector>, mem: seq<byte>,
                     buffer: Buffer, job: Job, k: nat)
    requires GoodCounts(job, |mem|) && job.lba + job.sectors <= |image0| && k < |job.prds|
    requires GoodPrd(job.prds[k], |mem|) && FromBuffer(image, image', buffer, job, k)
    requires Stored(image, image0, mem, job, k)
    requires forall o :: 0 <= o < job.prds[k].count ==> buffer[o] == mem[job.prds[k].base + o]
    ensures Stored(image', image0, mem, job, k + 1)
  {
    hide Total; hide Before; hide StoredByte; hide GoodCounts;
    forall i, o | 0 <= i < k + 1 && 0 <= o < job.prds[i].count
      ensures StoredByte(image', mem, job, i, o)
    {
      if i == k { NewByteIsStored(image, image', mem, buffer, job, k, o); }
      else { OldByteStays(image, image', mem, buffer, job, k, i, o); }
    }
    InJob(job, k, 0, |mem|);
    SectorOf(Before(job, k), job.prds[k].count, 0);
  }

  lemma SectorsAreStored(s: Sys, job: Job, mem: seq<byte>, image0: seq<Sector>, k: nat)
    requires WriteMoving(s, job, mem, image0, k) && s.flight == Free && Handed(s) == job.prds[k].count
    requires s.d.devState == TransferDataDma
    ensures Shape(s.d) && job.prds[k].count <= MAX_SINGLE_DMA
    ensures var r := StoreSectors(s.d, 0, job.prds[k].count);
            r.Ok? && Counters(r.d, job, k + 1) && Stored(r.d.image, image0, mem, job, k + 1)
  {
    hide Coherent; hide DecodePrd; hide StoreSectors; hide Total; hide TableReads; hide Apart; hide Stored;
    hide BlockBytes;
    InJob(job, k, 0, |s.mem|);
    var n, p := job.prds[k].count, Before(job, k);
    assert p / 512 + n / 512 == (p + n) / 512 <= job.sectors;
    assert |s.d.image| == |image0| by { StoredSize(s.d.image, image0, mem, job, k); }
    assert n == 512 * (n / 512);
    StoredSectors(s.d, 0, n / 512);
    LessIsMinus(s.d.cmdBytesLeft, n / 512);
    var image' := StoreSectors(s.d, 0, n).d.image;
    forall j | 0 <= j < n / 512
      ensures image'[job.lba + p / 512 + j] == Slice(s.d.buffer, 512 * j)
    {
      assert image'[s.d.curSector + j] == Slice(s.d.buffer, 0 + 512 * j);
    }
    forall o | 0 <= o < n
      ensures s.d.buffer[o] == mem[job.prds[k].base + o]
    {
      assert DmaTransfer.Moved(s, o);
    }
    StoredRegion(s.d.image, image', image0, mem, s.d.buffer, job, k);
  }

  lemma StoredSize(image: seq<Sector>, image0: seq<Sector>, mem: seq<byte>, job: Job, k: nat)
    requires GoodCounts(job, |mem|) && job.lba + job.sectors <= |image0| && k <= |job.prds|
    requires Stored(image, image0, mem, job, k)
    ensures |image| == |image0|
  {}

  lemma EndReadIs(s: Sys, prd: Prd)
    requires WellTyped(s) && s.d.devState == TransferDataDma && CurPrd(s) == prd && prd.count <= MAX_SINGLE_DMA
    requires StoreSectors(s.d, 0, prd.count).Ok?
    ensures EndRead(s, false) == RegionDone(s.(gen := NoGenerator, d := StoreSectors(s.d, 0, prd.count).d), false)
  {
    hide StoreSectors; hide RegionDone; hide DecodePrd; hide CountersFit;
  }

  lemma LastPageIsDue(s: Sys, job: Job, mem: seq<byte>, image0: seq<Sector>, k: nat)
    requires WriteMoving(s, job, mem, image0, k) && ReadWait in s.scheduled && Handed(s) == job.prds[k].count
    ensures WellTyped(s) && Fire(s, ReadWait, false).Fine?
    ensures if k == |job.prds| - 1 then WriteDone(Fire(s, ReadWait, false).s, job, mem, image0)
            else WriteFetching(Fire(s, ReadWait, false).s, job, mem, image0, k + 1)
  {
    hide Coherent; hide Stored; hide DecodePrd; hide Running; hide Zeros; hide EndRead; hide StoreSectors;
    hide RegionDone; hide TableReads; hide Apart; hide Total; hide BufferHasMoved; hide CountersFit;
    hide Fire; hide Below;
    WriteStateWorks(s, job, mem, image0, k);
    OneEvent(s, ReadWait);
    StepIsKept(s, Due(ReadWait, false));
    ReadDue(s, false);
    InJob(job, k, 0, |s.mem|);
    SectorsAreStored(s, job, mem, image0, k);
    var t := s.(scheduled := multiset{});
    assert OpenRead(s) == s;
    EndReadIs(t, job.prds[k]);
    var r := StoreSectors(s.d, 0, job.prds[k].count);
    var u := t.(gen := NoGenerator, d := r.d);
    DataDoesNotMatter(t, r.d, NoGenerator, t.curPrdAddr);
    assert t.(d := r.d, gen := NoGenerator, curPrdAddr := t.curPrdAddr) == u;
    if k == |job.prds| - 1 {
      BeforeAll(job);
      RegionDoneEnds(u);
    } else {
      RegionDoneGoesOn(u);
    }
  }

  // ---- Runs ----

  lemma HostKeepsWriteState(s: Sys, acc: Access, job: Job, mem: seq<byte>, image0: seq<Sector>, k: nat)
    requires WriteState(s, job, mem, image0, k) && IsQuiet(acc)
    ensures WellTyped(s) && HostAccess(s, acc).Fine? && WriteState(HostAccess(s, acc).s, job, mem, image0, k)
  {
    hide Coherent; hide DecodePrd; hide WellFormed; hide Stored;
    QuietHost(s, acc);
    var s' := HostAccess(s, acc).s;
    hide HostAccess;
    if WriteMoving(s, job, mem, image0, k) {
      assert forall o :: DmaTransfer.Moved(s', o) <==> DmaTransfer.Moved(s, o);
    }
  }

  lemma RegistersKeepWriteState(s: Sys, e: EngineEvent, job: Job, mem: seq<byte>, image0: seq<Sector>, k: nat)
    requires WriteState(s, job, mem, image0, k) && Allowed(s, e) && KeepsStart(s, e)
    ensures WellTyped(s) && Step(s, e).Fine? && WriteState(Step(s, e).s, job, mem, image0, k)
  {
    hide Coherent; hide DecodePrd; hide WellFormed; hide Stored; hide Step; hide Allowed; hide KeepsStart;
    RegistersOnly(s, e);
    var s' := Step(s, e).s;
    if WriteMoving(s, job, mem, image0, k) {
      assert forall o :: DmaTransfer.Moved(s', o) <==> DmaTransfer.Moved(s, o);
    }
  }

  ghost predicate WriteAdvances(r: SysResult, job: Job, mem: seq<byte>, image0: seq<Sector>, k: nat) {
    && r.Fine?
    && (|| WriteState(r.s, job, mem, image0, k)
        || (k + 1 < |job.prds| && WriteState(r.s, job, mem, image0, k + 1))
        || (k + 1 == |job.prds| && WriteDone(r.s, job, mem, image0)))
  }

  lemma WorkingEvent(s: Sys, job: Job, mem: seq<byte>, image0: seq<Sector>, k: nat, c: Cont)
    requires WriteState(s, job, mem, image0, k) && c in s.scheduled
    ensures WellTyped(s) && k < |job.prds| && Working(s)
    ensures WriteFetching(s, job, mem, image0, k) ==> Fetching(s, job, k) && (c == Transfer || c == PrdRead)
    ensures WriteMoving(s, job, mem, image0, k) ==> c == ReadWait && Handed(s) <= job.prds[k].count
  {
    hide Coherent; hide WellFormed; hide Stored; hide DecodePrd; hide Running;
    OneEvent(s, c);
    assert c in multiset{c};
    assert ReadWait in multiset{ReadWait} && Transfer in multiset{Transfer} && PrdRead in multiset{PrdRead};
  }

  lemma DueAdvances(s: Sys, c: Cont, busy: bool, job: Job, mem: seq<byte>, image0: seq<Sector>, k: nat)
    requires WriteState(s, job, mem, image0, k) && c in s.scheduled
    ensures WellTyped(s) && WriteAdvances(Fire(s, c, busy), job, mem, image0, k)
  {
    hide Working; hide Fetching; hide WriteFetching; hide WriteMoving; hide WriteDone; hide Fire;
    WorkingEvent(s, job, mem, image0, k, c);
    if c == Transfer {
      FetchDue(s, job, k, busy);
      StillFetchingWrites(s, Fire(s, Transfer, busy).s, job, mem, image0, k);
    } else if c == PrdRead {
      EntryIsDue(s, job, mem, image0, k, busy);
    } else if busy || Handed(s) < job.prds[k].count {
      PageIsDue(s, job, mem, image0, k, busy);
    } else {
      LastPageIsDue(s, job, mem, image0, k);
    }
  }

  lemma WriteStateWorks(s: Sys, job: Job, mem: seq<byte>, image0: seq<Sector>, k: nat)
    requires WriteState(s, job, mem, image0, k)
    ensures Coherent(s) && WellTyped(s) && Transferring(s.d) && Working(s) && k < |job.prds|
    ensures WriteFetching(s, job, mem, image0, k) ==> Fetching(s, job, k)
  {
    hide Stable; hide StatesFit; hide CountersFit; hide DecodePrd; hide WellFormed; hide Stored;
  }

  lemma WriteStep(s: Sys, e: EngineEvent, job: Job, mem: seq<byte>, image0: seq<Sector>, k: nat)
    requires WriteState(s, job, mem, image0, k) && JobEvent(s, e)
    ensures Coherent(s) && WriteAdvances(Step(s, e), job, mem, image0, k)
  {
    hide WriteFetching; hide WriteMoving; hide WriteDone; hide Coherent; hide WellTyped; hide Working; hide Fetching;
    WriteStateWorks(s, job, mem, image0, k);
    if e.Due? {
      DueAdvances(s, e.c, e.busy, job, mem, image0, k);
    } else if e.Moved? {
      if WriteFetching(s, job, mem, image0, k) {
        FetchMoved(s, job, k, e.which);
        StillFetchingWrites(s, Move(s, e.which), job, mem, image0, k);
      } else {
        RegionMoves(s, job, mem, image0, k, e.which);
      }
    } else if e.Finished? {
      if WriteFetching(s, job, mem, image0, k) {
        FetchFinished(s, job, k, e.c);
        StillFetchingWrites(s, CompleteOp(s, e.c).s, job, mem, image0, k);
      } else {
        PageIsMoved(s, job, mem, image0, k, e.c);
      }
    } else if e.Host? {
      HostKeepsWriteState(s, e.acc, job, mem, image0, k);
    } else {
      RegistersKeepWriteState(s, e, job, mem, image0, k);
    }
  }

  lemma WriteDoneRests(s: Sys, job: Job, mem: seq<byte>, image0: seq<Sector>)
    requires WriteDone(s, job, mem, image0)
    ensures Coherent(s) && !Transferring(s.d)
  {}

  // Every WRITE DMA with a well-formed table, whatever the schedule: no run
  // stops the simulator, and a run in which the command ends has put exactly
  // the bytes of the regions, in table order, onto the requested sectors;
  // memory and all other sectors are as they were.
  lemma {:induction false} WriteDmaStoresRegions(s: Sys, es: seq<EngineEvent>, job: Job, mem: seq<byte>,
                                                 image0: seq<Sector>, k: nat)
    requires WriteState(s, job, mem, image0, k) && Coherent(s) && JobRun(s, es)
    ensures var r := JobEnd(s, es);
            && r.Fine? && Coherent(r.s)
            && (Transferring(r.s.d) ==> exists k' :: k <= k' < |job.prds| && WriteState(r.s, job, mem, image0, k'))
            && (!Transferring(r.s.d) ==> WriteDone(r.s, job, mem, image0))
    decreases |es|
  {
    hide WriteState; hide WriteDone; hide Coherent; hide Step; hide Allowed; hide WellTyped; hide Working;
    WriteStateWorks(s, job, mem, image0, k);
    if es != [] {
      WriteStep(s, es[0], job, mem, image0, k);
      StepIsKept(s, es[0]);
      var r := Step(s, es[0]);
      if WriteState(r.s, job, mem, image0, k) {
        WriteStateWorks(r.s, job, mem, image0, k);
        WriteDmaStoresRegions(r.s, es[1..], job, mem, image0, k);
      } else if k + 1 < |job.prds| && WriteState(r.s, job, mem, image0, k + 1) {
        WriteStateWorks(r.s, job, mem, image0, k + 1);
        WriteDmaStoresRegions(r.s, es[1..], job, mem, image0, k + 1);
      } else {
        WriteDoneRests(r.s, job, mem, image0);
      }
    }
  }

  lemma WriteDmaBegins(s: Sys, v: Bits, job: Job)
    requires Coherent(s) && s.selected && v[START_STOP]
    requires s.d.devState == TransferDataDma && s.d.dmaState == DmaStart && s.d.dmaRead
    requires WellFormed(job, s.mem) && job.table == TableBase(s.bmi)
    requires s.d.cmdBytesLeft == 512 * job.sectors && s.d.curSector == job.lba
    requires job.lba + job.sectors <= |s.d.image|
    ensures WellTyped(s) && WriteBmiCommand(s, v).Fine?
    ensures WriteState(WriteBmiCommand(s, v).s, job, s.mem, s.d.image, 0)
  {
    hide WriteBmiCommand; hide Coherent; hide TableBase; hide DecodePrd; hide Total; hide TableReads; hide Apart;
    StartBitStartsFetch(s, v, job);
    BeforeAll(job);
    assert WriteFetching(WriteBmiCommand(s, v).s, job, s.mem, s.d.image, 0);
  }

  lemma WriteDmaCommandBegins(s: Sys, v: Bits, job: Job)
    requires Coherent(s) && s.selected && s.d.devState == DeviceIdleS && LbaMode(s.d) && v[START_STOP]
    requires WellFormed(job, s.mem) && job.table == TableBase(s.bmi)
    requires job.lba == LbaBase(s.d) && job.sectors == CommandSectors(s.d) && job.lba + job.sectors <= |s.d.image|
    ensures WellTyped(s) && HostAccess(s, WriteCommand(WriteDma)).Fine?
    ensures var s1 := HostAccess(s, WriteCommand(WriteDma)).s;
            && WellTyped(s1) && WriteBmiCommand(s1, v).Fine?
            && WriteState(WriteBmiCommand(s1, v).s, job, s.mem, s.d.image, 0)
  {
    CommandReachesDisk(s, WriteDma);
    hide HostAccess; hide WriteBmiCommand; hide Coherent; hide TableBase; hide WellFormed; hide LbaBase;
    hide CommandSectors;
    WriteDmaBegins(HostAccess(s, WriteCommand(WriteDma)).s, v, job);
  }
}
