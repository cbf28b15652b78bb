// READ DMA: the sectors of the command end up in memory, in table order.
module DmaReadJob {
  import opened ByteSeq
  import opened DiskSpec
  import opened DiskInvariants
  import opened BusMaster
  import opened DmaEngine
  import opened DmaCoherence
  import opened DmaJob
  import opened DmaTransfer
  import opened PioHost

  // The command is over: memory holds every sector, nothing else has changed.
  ghost predicate ReadDone(s: Sys, job: Job, mem0: seq<byte>, image: seq<Sector>) {
    && AtRest(s) && s.d.image == image && s.d.cmdBytesLeft == 0
    && WellFormed(job, mem0) && job.lba + job.sectors <= |image|
    && |s.mem| == |mem0| && RestKept(s.mem, mem0, job) && Filled(s.mem, job, image, |job.prds|)
  }

  ghost predicate ReadState(s: Sys, job: Job, mem0: seq<byte>, image: seq<Sector>, k: nat) {
    ReadFetching(s, job, mem0, image, k) || ReadMoving(s, job, mem0, image, k)
  }

  // ---- Fetching an entry ----

  lemma StillFetchingReads(s: Sys, s': Sys, job: Job, mem0: seq<byte>, image: seq<Sector>, k: nat)
    requires ReadFetching(s, job, mem0, image, k) && StillFetching(s, s', job, k)
    ensures ReadFetching(s', job, mem0, image, k)
  {
    hide Coherent; hide WellFormed; hide Filled; hide RestKept;
  }

  lemma LoadedBytes(d: Disk, job: Job, image: seq<Sector>, k: nat, size: nat)
    requires GoodCounts(job, size) && job.lba + job.sectors <= |image| && k < |job.prds|
    requires job.lba + Before(job, k) / 512 + job.prds[k].count / 512 <= |image|
    requires job.prds[k].count <= MAX_SINGLE_DMA
    requires forall j :: 0 <= j < job.prds[k].count / 512 ==>
               Slice(d.buffer, 512 * j) == image[job.lba + Before(job, k) / 512 + j]
    ensures BufferHolds(d, job, image, k, size)
  {
    var p := Before(job, k);
    hide Before; hide Total;
    forall o | 0 <= o < job.prds[k].count
      ensures (p + o) / 512 < job.sectors && d.buffer[o] == SectorByte(image, job.lba, p + o)
    {
      InJob(job, k, o, size);
      assert (p + o) / 512 == p / 512 + o / 512 && (p + o) % 512 == o % 512;
      assert Slice(d.buffer, 512 * (o / 512))[o % 512] == d.buffer[o];
    }
  }

  // The entry is in: its sectors go to the buffer.
  lemma SectorsAreLoaded(s: Sys, job: Job, mem0: seq<byte>, image: seq<Sector>, k: nat)
    requires ReadFetching(s, job, mem0, image, k) && PrdRead in s.scheduled
    ensures s.d.devState == TransferDataDma && WellTyped(s) && CurPrd(s) == job.prds[k]
    ensures var z := s.d.(buffer := Zeros(MAX_DMA_SIZE));
            var r := LoadSectors(z, 0, job.prds[k].count);
            && r.Ok? && Counters(r.d, job, k + 1) && BufferHolds(r.d, job, image, k, |s.mem|)
  {
    hide Coherent; hide DecodePrd; hide Filled; hide RestKept; hide LoadSectors; hide Zeros; hide Total;
    hide TableReads; hide Apart; hide BufferHolds; hide Running;
    OneEvent(s, PrdRead);
    assert multiset{PrdRead} != multiset{Transfer} by { assert PrdRead in multiset{PrdRead}; }
    TableIsSafe(s, job, mem0, image, k);
    InJob(job, k, 0, |s.mem|);
    var z := s.d.(buffer := Zeros(MAX_DMA_SIZE));
    var n, p := job.prds[k].count, Before(job, k);
    hide Before; hide CountersFit;
    assert p / 512 + n / 512 == (p + n) / 512 <= job.sectors;
    assert n == 512 * (n / 512);
    LoadedSectors(z, 0, n / 512);
    LessIsMinus(z.cmdBytesLeft, n / 512);
    forall j | 0 <= j < n / 512
      ensures Slice(LoadSectors(z, 0, n).d.buffer, 512 * j) == image[job.lba + p / 512 + j]
    {
      assert Slice(LoadSectors(z, 0, n).d.buffer, 0 + 512 * j) == image[job.lba + p / 512 + j];
    }
    LoadedBytes(LoadSectors(z, 0, n).d, job, image, k, |s.mem|);
  }

  lemma EntryIsDue(s: Sys, job: Job, mem0: seq<byte>, image: seq<Sector>, k: nat, busy: bool)
    requires ReadFetching(s, job, mem0, image, k) && PrdRead in s.scheduled
    ensures WellTyped(s) && Fire(s, PrdRead, busy).Fine?
    ensures ReadMoving(Fire(s, PrdRead, busy).s, job, mem0, image, k)
  {
    hide Coherent; hide Running; hide Filled; hide RestKept; hide DecodePrd; hide LoadSectors; hide Zeros;
    hide TableReads; hide Apart; hide BufferHolds; hide Total;
    OneEvent(s, PrdRead);
    StepIsKept(s, Due(PrdRead, busy));
    SectorsAreLoaded(s, job, mem0, image, k);
    InJob(job, k, 0, |s.mem|);
    assert s.curPrdAddr + PRD_SIZE < 0x1_0000_0000 && s.d.cmdBytesLeft <= MAX_DMA_SIZE;
    PrdReadDue(s);
    assert Fire(s, PrdRead, busy) == Fire(s, PrdRead, false);
    hide Fire; hide WellFormed;
  }

  // ---- Moving a region ----

  lemma PageIsDue(s: Sys, job: Job, mem0: seq<byte>, image: seq<Sector>, k: nat, busy: bool)
    requires ReadMoving(s, job, mem0, image, k) && WriteWait in s.scheduled
    requires busy || Handed(s) < job.prds[k].count
    ensures WellTyped(s) && Fire(s, WriteWait, busy).Fine?
    ensures ReadMoving(Fire(s, WriteWait, busy).s, job, mem0, image, k)
  {
    hide Coherent; hide Running; hide TableReads; hide Apart; hide Total; hide Filled; hide RestKept;
    hide DecodePrd; hide BufferHolds;
    OneEvent(s, WriteWait);
    StepIsKept(s, Due(WriteWait, busy));
    WriteDue(s, busy);
    hide Fire;
    hide HoldsByte;
    var s' := Fire(s, WriteWait, busy).s;
    forall o | 0 <= o < job.prds[k].count && DmaTransfer.Moved(s', o)
      ensures HoldsByte(s'.mem, job, image, k, o)
    {
      assert DmaTransfer.Moved(s, o);
    }
  }

  // Memory changes inside one region only.
  ghost predicate Touches(mem: seq<byte>, mem': seq<byte>, prd: Prd) {
    |mem'| == |mem| && forall a :: 0 <= a < |mem| && !InRegion(prd, a) ==> mem'[a] == mem[a]
  }

  lemma OthersUndisturbed(mem: seq<byte>, mem': seq<byte>, job: Job, mem0: seq<byte>, image: seq<Sector>, k: nat)
    requires GoodCounts(job, |mem|) && Apart(job) && job.lba + job.sectors <= |image| && k < |job.prds|
    requires Touches(mem, mem', job.prds[k]) && |mem| == |mem0|
    requires RestKept(mem, mem0, job) && Filled(mem, job, image, k)
    ensures RestKept(mem', mem0, job) && Filled(mem', job, image, k)
  {
    hide Total;
    forall i, o | 0 <= i < k && 0 <= o < job.prds[i].count
      ensures HoldsByte(mem', job, image, i, o)
    {
      InJob(job, i, o, |mem|);
      assert InRegion(job.prds[i], job.prds[i].base + o);
      assert HoldsByte(mem, job, image, i, o);
    }
  }

  // Bytes of the region arrive where they belong.
  lemma MoveTouches(s: Sys, prd: Prd, which: set<nat>)
    requires WellTyped(s) && Allowed(s, DmaCoherence.Moved(which))
    requires MovingPage(s.flight.op, Handed(s), prd, FromBuffer) && Handed(s) <= prd.count
    requires prd.base + prd.count <= |s.mem|
    ensures Touches(s.mem, Move(s, which).mem, prd)
    ensures forall o :: 0 <= o < prd.count && DmaTransfer.Moved(Move(s, which), o) ==>
              Move(s, which).mem[prd.base + o] == s.d.buffer[o] ||
              (DmaTransfer.Moved(s, o) && Move(s, which).mem[prd.base + o] == s.mem[prd.base + o])
  {
    hide Shape;
    var op, s' := s.flight.op, Move(s, which);
    forall a | 0 <= a < |s.mem| && a - op.addr in which
      ensures InRegion(prd, a)
    {
      assert a - op.addr < op.size;
    }
    forall o | 0 <= o < prd.count && DmaTransfer.Moved(s', o)
      ensures s'.mem[prd.base + o] == s.d.buffer[o] ||
              (DmaTransfer.Moved(s, o) && s'.mem[prd.base + o] == s.mem[prd.base + o])
    {
      var a := prd.base + o;
      assert op.offset + (a - op.addr) == o;
      if a - op.addr !in which {
        assert s'.mem[a] == s.mem[a];
        assert DmaTransfer.Moved(s, o);
      }
    }
  }

  lemma MovingGives(s: Sys, job: Job, mem0: seq<byte>, image: seq<Sector>, k: nat)
    requires ReadMoving(s, job, mem0, image, k)
    ensures Coherent(s) && WellTyped(s) && GoodCounts(job, |s.mem|) && Apart(job) && k < |job.prds|
    ensures job.lba + job.sectors <= |image| && |s.mem| == |mem0|
    ensures RestKept(s.mem, mem0, job) && Filled(s.mem, job, image, k)
    ensures BufferHolds(s.d, job, image, k, |s.mem|) && Handed(s) <= job.prds[k].count
    ensures s.flight.Busy? ==> MovingPage(s.flight.op, Handed(s), job.prds[k], FromBuffer)
    ensures GoodPrd(job.prds[k], |s.mem|)
  {
    if s.flight.Busy? { BusyHasNoEvent(s); }
    assert WriteWait in multiset{WriteWait};
    hide Stable; hide StatesFit; hide CountersFit; hide DecodePrd; hide Total; hide TableReads; hide RestKept;
    hide Filled; hide MovingPage; hide Apart; hide DmaTransfer.Moved;
  }

  lemma ByteInPlace(s: Sys, s': Sys, job: Job, image: seq<Sector>, k: nat, o: nat)
    requires GoodCounts(job, |s.mem|) && job.lba + job.sectors <= |image| && k < |job.prds|
    requires o < job.prds[k].count && |s'.mem| == |s.mem| && job.prds[k].base + o < |s.mem|
    requires BufferHolds(s.d, job, image, k, |s.mem|)
    requires s'.mem[job.prds[k].base + o] == s.d.buffer[o] ||
             (HoldsByte(s.mem, job, image, k, o) && s'.mem[job.prds[k].base + o] == s.mem[job.prds[k].base + o])
    ensures HoldsByte(s'.mem, job, image, k, o)
  {
    InJob(job, k, o, |s.mem|);
    hide Total; hide Before; hide SectorByte;
  }

  lemma MovedHolds(s: Sys, job: Job, mem0: seq<byte>, image: seq<Sector>, k: nat, o: nat)
    requires ReadMoving(s, job, mem0, image, k) && o < job.prds[k].count && DmaTransfer.Moved(s, o)
    ensures HoldsByte(s.mem, job, image, k, o)
  {
    hide Coherent; hide DecodePrd; hide Total; hide TableReads; hide RestKept; hide Filled; hide BufferHolds;
    hide DmaTransfer.Moved; hide HoldsByte;
  }

  lemma BytesArrive(s: Sys, job: Job, mem0: seq<byte>, image: seq<Sector>, k: nat, which: set<nat>)
    requires ReadMoving(s, job, mem0, image, k) && Allowed(s, DmaCoherence.Moved(which))
    ensures WellTyped(s)
    ensures var s' := Move(s, which);
            && RestKept(s'.mem, mem0, job) && |s'.mem| == |s.mem|
            && Filled(s'.mem, job, image, k)
            && forall o :: 0 <= o < job.prds[k].count && DmaTransfer.Moved(s', o) ==>
                 HoldsByte(s'.mem, job, image, k, o)
  {
    hide *;
    MovingGives(s, job, mem0, image, k);
    MoveNeedsFlight(s, which);
    GoodPrdGives(job.prds[k], |s.mem|);
    MoveTouches(s, job.prds[k], which);
    var s' := Move(s, which);
    OthersUndisturbed(s.mem, s'.mem, job, mem0, image, k);
    SameSize(s.mem, s'.mem, job.prds[k]);
    forall o | 0 <= o < job.prds[k].count && DmaTransfer.Moved(s', o)
      ensures HoldsByte(s'.mem, job, image, k, o)
    {
      if s'.mem[job.prds[k].base + o] != s.d.buffer[o] { MovedHolds(s, job, mem0, image, k, o); }
      ByteInPlace(s, s', job, image, k, o);
    }
  }

  lemma SameSize(mem: seq<byte>, mem': seq<byte>, prd: Prd)
    requires Touches(mem, mem', prd)
    ensures |mem'| == |mem|
  {}

  lemma MoveKeepsPage(s: Sys, prd: Prd, which: set<nat>)
    requires WellTyped(s) && Allowed(s, DmaCoherence.Moved(which))
    requires MovingPage(s.flight.op, Handed(s), prd, FromBuffer)
    ensures var s' := Move(s, which);
            && s'.d == s.d && s'.prdBytes == s.prdBytes && s'.scheduled == s.scheduled && s'.held == s.held
            && s'.gen == s.gen && s'.curPrdAddr == s.curPrdAddr
            && s'.flight.Busy? && MovingPage(s'.flight.op, Handed(s'), prd, FromBuffer)
  {
    hide Shape;
  }

  lemma RegionMoves(s: Sys, job: Job, mem0: seq<byte>, image: seq<Sector>, k: nat, which: set<nat>)
    requires ReadMoving(s, job, mem0, image, k) && Allowed(s, DmaCoherence.Moved(which))
    ensures WellTyped(s) && ReadMoving(Move(s, which), job, mem0, image, k)
  {
    hide Coherent; hide WellFormed; hide Filled; hide RestKept; hide DecodePrd; hide BufferHolds; hide HoldsByte;
    hide Move; hide MovingPage; hide Allowed; hide DmaTransfer.Moved; hide GoodCounts;
    MovingGives(s, job, mem0, image, k);
    MoveNeedsFlight(s, which);
    BusyHasNoEvent(s);
    assert WriteWait in multiset{WriteWait};
    MoveIsKept(s, which);
    MoveKeepsPage(s, job.prds[k], which);
    BytesArrive(s, job, mem0, image, k, which);
    SizeDoesNotMatter(s.d, job, image, k, |s.mem|, |Move(s, which).mem|);
  }

  lemma SizeDoesNotMatter(d: Disk, job: Job, image: seq<Sector>, k: nat, size: nat, size': nat)
    requires size == size' && GoodCounts(job, size) && job.lba + job.sectors <= |image| && k < |job.prds|
    requires BufferHolds(d, job, image, k, size)
    ensures BufferHolds(d, job, image, k, size')
  {}

  lemma PageIsMoved(s: Sys, job: Job, mem0: seq<byte>, image: seq<Sector>, k: nat, c: Cont)
    requires ReadMoving(s, job, mem0, image, k) && Allowed(s, Finished(c))
    ensures CompleteOp(s, c).Fine? && ReadMoving(CompleteOp(s, c).s, job, mem0, image, k)
  {
    hide Coherent; hide TableReads; hide Apart; hide Total; hide Filled; hide RestKept; hide DecodePrd;
    hide CompleteOp; hide BufferHolds;
    hide HoldsByte;
    CompleteIsKept(s, c);
    FinishedIs(s, c);
    assert multiset{WriteWait} == multiset{c} ==> c == WriteWait by { assert WriteWait in multiset{WriteWait}; }
    var s' := CompleteOp(s, c).s;
    forall o | 0 <= o < job.prds[k].count && DmaTransfer.Moved(s', o)
      ensures HoldsByte(s'.mem, job, image, k, o)
    {
      assert DmaTransfer.Moved(s, o);
    }
  }

  // The whole region is in place.
  lemma RegionIsFilled(s: Sys, job: Job, mem0: seq<byte>, image: seq<Sector>, k: nat)
    requires ReadMoving(s, job, mem0, image, k) && s.flight == Free && Handed(s) == job.prds[k].count
    ensures Filled(s.mem, job, image, k + 1)
  {
    hide Coherent; hide RestKept; hide DecodePrd; hide BufferHolds; hide HoldsByte; hide TableReads; hide Apart;
    forall i, o | 0 <= i < k + 1 && 0 <= o < job.prds[i].count
      ensures HoldsByte(s.mem, job, image, i, o)
    {
      if i == k { assert DmaTransfer.Moved(s, o); }
    }
  }

  lemma LastPageIsDue(s: Sys, job: Job, mem0: seq<byte>, image: seq<Sector>, k: nat)
    requires ReadMoving(s, job, mem0, image, k) && WriteWait in s.scheduled && Handed(s) == job.prds[k].count
    ensures WellTyped(s) && Fire(s, WriteWait, false).Fine?
    ensures if k == |job.prds| - 1 then ReadDone(Fire(s, WriteWait, false).s, job, mem0, image)
            else ReadFetching(Fire(s, WriteWait, false).s, job, mem0, image, k + 1)
  {
    hide Coherent; hide Filled; hide RestKept; hide DecodePrd; hide BufferHolds; hide HoldsByte; hide Running;
    hide RegionDone; hide TableReads; hide Apart; hide Total; hide Fire; hide Below; hide CountersFit; hide SectorByte;
    OneEvent(s, WriteWait);
    StepIsKept(s, Due(WriteWait, false));
    WriteDue(s, false);
    RegionIsFilled(s, job, mem0, image, k);
    TableIsSafe(s, job, mem0, image, k);
    var t := s.(scheduled := multiset{}, gen := NoGenerator);
    OpenIsRunning(s.(scheduled := multiset{}));
    assert s.(scheduled := multiset{}).(gen := NoGenerator) == t;
    if k == |job.prds| - 1 {
      BeforeAll(job);
      RegionDoneEnds(t);
    } else {
      RegionDoneGoesOn(t);
    }
  }

  // ---- Runs ----

  lemma HostKeepsReadState(s: Sys, acc: Access, job: Job, mem0: seq<byte>, image: seq<Sector>, k: nat)
    requires ReadState(s, job, mem0, image, k) && IsQuiet(acc)
    ensures WellTyped(s) && HostAccess(s, acc).Fine? && ReadState(HostAccess(s, acc).s, job, mem0, image, k)
  {
    hide Coherent; hide DecodePrd; hide SectorByte; hide Total;
    QuietHost(s, acc);
    var s' := HostAccess(s, acc).s;
    hide HostAccess; hide WellFormed; hide Filled; hide RestKept; hide HoldsByte;
    if ReadMoving(s, job, mem0, image, k) {
      assert forall o :: DmaTransfer.Moved(s', o) <==> DmaTransfer.Moved(s, o);
      assert BufferHolds(s'.d, job, image, k, |s'.mem|);
    }
  }

  // Whatever is written to the direction bit, the status or the table address
  // during the command, it goes on as before.
  lemma RegistersKeepReadState(s: Sys, e: EngineEvent, job: Job, mem0: seq<byte>, image: seq<Sector>, k: nat)
    requires ReadState(s, job, mem0, image, k) && Allowed(s, e) && KeepsStart(s, e)
    ensures WellTyped(s) && Step(s, e).Fine? && ReadState(Step(s, e).s, job, mem0, image, k)
  {
    hide Coherent; hide DecodePrd; hide WellFormed; hide Filled; hide RestKept; hide HoldsByte; hide BufferHolds;
    hide Step; hide Allowed; hide KeepsStart;
    RegistersOnly(s, e);
    var s' := Step(s, e).s;
    if ReadMoving(s, job, mem0, image, k) {
      assert forall o :: DmaTransfer.Moved(s', o) <==> DmaTransfer.Moved(s, o);
    }
  }

  // One event of a READ DMA: it does not stop the simulator, and leaves the
  // engine at the same entry, at the next one, or done.
  ghost predicate ReadAdvances(r: SysResult, job: Job, mem0: seq<byte>, image: seq<Sector>, k: nat) {
    && r.Fine?
    && (|| ReadState(r.s, job, mem0, image, k)
        || (k + 1 < |job.prds| && ReadState(r.s, job, mem0, image, k + 1))
        || (k + 1 == |job.prds| && ReadDone(r.s, job, mem0, image)))
  }

  lemma DueAdvances(s: Sys, c: Cont, busy: bool, job: Job, mem0: seq<byte>, image: seq<Sector>, k: nat)
    requires ReadState(s, job, mem0, image, k) && c in s.scheduled
    ensures WellTyped(s) && ReadAdvances(Fire(s, c, busy), job, mem0, image, k)
  {
    WorkingEvent(s, job, mem0, image, k, c);
    if ReadFetching(s, job, mem0, image, k) {
      assert c == Transfer || c == PrdRead;
      assert Working(s) && Fetching(s, job, k);
      hide Working; hide Fetching; hide ReadMoving; hide ReadFetching; hide ReadDone; hide Fire;
      if c == Transfer {
        FetchDue(s, job, k, busy);
        StillFetchingReads(s, Fire(s, Transfer, busy).s, job, mem0, image, k);
      } else {
        EntryIsDue(s, job, mem0, image, k, busy);
      }
    } else {
      assert c == WriteWait && Handed(s) <= job.prds[k].count;
      hide ReadFetching; hide ReadMoving; hide ReadDone; hide Fire;
      if busy || Handed(s) < job.prds[k].count {
        PageIsDue(s, job, mem0, image, k, busy);
      } else {
        LastPageIsDue(s, job, mem0, image, k);
      }
    }
  }

  lemma WorkingEvent(s: Sys, job: Job, mem0: seq<byte>, image: seq<Sector>, k: nat, c: Cont)
    requires ReadState(s, job, mem0, image, k) && c in s.scheduled
    ensures WellTyped(s) && k < |job.prds|
    ensures ReadFetching(s, job, mem0, image, k) ==> c == Transfer || c == PrdRead
    ensures ReadMoving(s, job, mem0, image, k) ==> c == WriteWait
  {
    OneEvent(s, c);
    hide Coherent; hide WellFormed; hide Filled; hide RestKept; hide DecodePrd; hide HoldsByte; hide Running;
    assert c in multiset{c};
    assert WriteWait in multiset{WriteWait} && Transfer in multiset{Transfer} && PrdRead in multiset{PrdRead};
  }

  lemma ReadStep(s: Sys, e: EngineEvent, job: Job, mem0: seq<byte>, image: seq<Sector>, k: nat)
    requires ReadState(s, job, mem0, image, k) && JobEvent(s, e)
    ensures Coherent(s) && ReadAdvances(Step(s, e), job, mem0, image, k)
  {
    hide ReadFetching; hide ReadMoving; hide ReadDone; hide Coherent; hide WellTyped; hide Working; hide Fetching;
    ReadStateWorks(s, job, mem0, image, k);
    if e.Due? {
      DueAdvances(s, e.c, e.busy, job, mem0, image, k);
    } else if e.Moved? {
      if ReadFetching(s, job, mem0, image, k) {
        FetchMoved(s, job, k, e.which);
        StillFetchingReads(s, Move(s, e.which), job, mem0, image, k);
      } else { RegionMoves(s, job, mem0, image, k, e.which); }
    } else if e.Finished? {
      if ReadFetching(s, job, mem0, image, k) {
        FetchFinished(s, job, k, e.c);
        StillFetchingReads(s, CompleteOp(s, e.c).s, job, mem0, image, k);
      } else { PageIsMoved(s, job, mem0, image, k, e.c); }
    } else if e.Host? {
      HostKeepsReadState(s, e.acc, job, mem0, image, k);
    } else {
      RegistersKeepReadState(s, e, job, mem0, image, k);
    }
  }

  // Every READ DMA with a well-formed table, whatever the schedule of
  // back-offs, page completions and status reads: no run stops the simulator,
  // and a run in which the command ends has put exactly the requested sectors
  // into the regions of the table, in table order, and changed nothing else.
  lemma {:induction false} ReadDmaDeliversSectors(s: Sys, es: seq<EngineEvent>, job: Job, mem0: seq<byte>,
                                                  image: seq<Sector>, k: nat)
    requires ReadState(s, job, mem0, image, k) && Coherent(s) && JobRun(s, es)
    ensures var r := JobEnd(s, es);
            && r.Fine? && Coherent(r.s)
            && (Transferring(r.s.d) ==> exists k' :: k <= k' < |job.prds| && ReadState(r.s, job, mem0, image, k'))
            && (!Transferring(r.s.d) ==> ReadDone(r.s, job, mem0, image))
    decreases |es|
  {
    hide ReadState; hide ReadDone; hide Coherent; hide Step; hide Allowed; hide WellTyped;
    ReadStateWorks(s, job, mem0, image, k);
    if es != [] {
      ReadStep(s, es[0], job, mem0, image, k);
      StepIsKept(s, es[0]);
      var r := Step(s, es[0]);
      if ReadState(r.s, job, mem0, image, k) {
        ReadStateWorks(r.s, job, mem0, image, k);
        ReadDmaDeliversSectors(r.s, es[1..], job, mem0, image, k);
      } else if k + 1 < |job.prds| && ReadState(r.s, job, mem0, image, k + 1) {
        ReadStateWorks(r.s, job, mem0, image, k + 1);
        ReadDmaDeliversSectors(r.s, es[1..], job, mem0, image, k + 1);
      } else {
        ReadDoneRests(r.s, job, mem0, image);
      }
    }
  }

  lemma ReadStateWorks(s: Sys, job: Job, mem0: seq<byte>, image: seq<Sector>, k: nat)
    requires ReadState(s, job, mem0, image, k)
    ensures Coherent(s) && WellTyped(s) && Transferring(s.d) && Working(s) && k < |job.prds|
    ensures ReadFetching(s, job, mem0, image, k) ==> Fetching(s, job, k)
  {
    hide Stable; hide StatesFit; hide CountersFit; hide DecodePrd; hide WellFormed; hide Filled; hide RestKept;
    hide BufferHolds; hide HoldsByte;
  }

  lemma ReadDoneRests(s: Sys, job: Job, mem0: seq<byte>, image: seq<Sector>)
    requires ReadDone(s, job, mem0, image)
    ensures Coherent(s) && !Transferring(s.d)
  {}

  lemma ReadDmaBegins(s: Sys, v: Bits, job: Job)
    requires Coherent(s) && s.selected && v[START_STOP]
    requires s.d.devState == TransferDataDma && s.d.dmaState == DmaStart && !s.d.dmaRead
    requires WellFormed(job, s.mem) && job.table == TableBase(s.bmi)
    requires s.d.cmdBytesLeft == 512 * job.sectors && s.d.curSector == job.lba
    requires job.lba + job.sectors <= |s.d.image|
    ensures WellTyped(s) && WriteBmiCommand(s, v).Fine?
    ensures ReadState(WriteBmiCommand(s, v).s, job, s.mem, s.d.image, 0)
  {
    StartBitStartsFetch(s, v, job);
    BeforeAll(job);
    hide WriteBmiCommand; hide Coherent; hide TableBase; hide DecodePrd; hide Total; hide TableReads; hide Apart;
    assert ReadFetching(WriteBmiCommand(s, v).s, job, s.mem, s.d.image, 0);
  }

  // From an idle disk: the command and the start bit lead into such a run,
  // for the sectors that the registers name.
  lemma ReadDmaCommandBegins(s: Sys, v: Bits, job: Job)
    requires Coherent(s) && s.selected && s.d.devState == DeviceIdleS && LbaMode(s.d) && v[START_STOP]
    requires WellFormed(job, s.mem) && job.table == TableBase(s.bmi)
    requires job.lba == LbaBase(s.d) && job.sectors == CommandSectors(s.d) && job.lba + job.sectors <= |s.d.image|
    ensures WellTyped(s) && HostAccess(s, WriteCommand(ReadDma)).Fine?
    ensures var s1 := HostAccess(s, WriteCommand(ReadDma)).s;
            && WellTyped(s1) && WriteBmiCommand(s1, v).Fine?
            && ReadState(WriteBmiCommand(s1, v).s, job, s.mem, s.d.image, 0)
  {
    CommandReachesDisk(s, ReadDma);
    hide HostAccess; hide WriteBmiCommand; hide Coherent; hide TableBase; hide WellFormed; hide LbaBase;
    hide CommandSectors;
    ReadDmaBegins(HostAccess(s, WriteCommand(ReadDma)).s, v, job);
  }
}
