// Whole DMA transfers: what is in memory or on the image when they end.
module DmaTransfer {
  import opened ByteSeq
  import opened DiskSpec
  import opened DiskInvariants
  import opened BusMaster
  import opened Chunks
  import opened DmaEngine
  import opened DmaCoherence
  import opened DmaJob
  import opened PioHost

  // The engine is working on a command and has not been told to stop.
  ghost predicate Working(s: Sys) {
    Coherent(s) && Transferring(s.d) && !s.d.dmaAborted
  }

  // ---- Where the engine stands in the table ----

  // Entry k is being fetched: its event is due, or the port is reading it, or
  // it has been read.
  ghost predicate Fetching(s: Sys, job: Job, k: nat) {
    && k < |job.prds| && job.table + PRD_SIZE * |job.prds| <= |s.mem|
    && s.curPrdAddr == job.table + PRD_SIZE * k && s.gen.NoGenerator?
    && (|| s.scheduled == multiset{Transfer}
        || (s.scheduled == multiset{PrdRead} && s.prdBytes == Entry(job, s.mem, k))
        || (s.held == multiset{PrdRead} && s.flight.Busy? && ReadingEntry(s, job, k, s.flight.op)))
  }

  ghost predicate ReadingEntry(s: Sys, job: Job, k: nat, op: Op)
    requires k < |job.prds| && job.table + PRD_SIZE * |job.prds| <= |s.mem|
  {
    && op == Op(ToPrd, job.table + PRD_SIZE * k, PRD_SIZE, 0, op.left) && |s.prdBytes| == PRD_SIZE
    && (forall i :: i in op.left ==> i < PRD_SIZE)
    && forall i :: 0 <= i < PRD_SIZE && i !in op.left ==> s.prdBytes[i] == Entry(job, s.mem, k)[i]
  }

  function Handed(s: Sys): nat { if s.gen.NoGenerator? then 0 else s.gen.complete }

  // The generator, if there is one, is that of this entry.
  predicate MadeFor(g: Generator, p: Prd) { g.At? ==> g.base == p.base && g.count == p.count }

  // The region of entry k is being moved: the first Handed(s) bytes have been
  // given to the port, and the port may still be at work on the last of them.
  ghost predicate Moving(s: Sys, job: Job, k: nat, target: Target, c: Cont) {
    && k < |job.prds| && |s.prdBytes| == PRD_SIZE
    && DecodePrd(s.prdBytes) == job.prds[k] && s.curPrdAddr == job.table + PRD_SIZE * (k + 1)
    && Handed(s) <= job.prds[k].count && MadeFor(s.gen, job.prds[k])
    && (|| s.scheduled == multiset{c}
        || (s.held == multiset{c} && s.flight.Busy? && MovingPage(s.flight.op, Handed(s), job.prds[k], target)))
  }

  ghost predicate MovingPage(op: Op, handed: nat, prd: Prd, target: Target) {
    && op.target == target && op.addr == prd.base + op.offset && op.offset + op.size == handed
    && forall i :: i in op.left ==> i < op.size
  }

  // Byte o of the region has been moved.
  ghost predicate Moved(s: Sys, o: nat) {
    o < Handed(s) && !(s.flight.Busy? && s.flight.op.offset <= o && o - s.flight.op.offset in s.flight.op.left)
  }

  // ---- From the image to memory ----

  // Memory holds the sectors in the regions of the first k entries.
  ghost predicate Filled(mem: seq<byte>, job: Job, image: seq<Sector>, k: nat)
    requires GoodCounts(job, |mem|) && job.lba + job.sectors <= |image| && k <= |job.prds|
  {
    forall i, o :: 0 <= i < k && 0 <= o < job.prds[i].count ==> HoldsByte(mem, job, image, i, o)
  }

  ghost predicate HoldsByte(mem: seq<byte>, job: Job, image: seq<Sector>, i: nat, o: nat)
    requires GoodCounts(job, |mem|) && job.lba + job.sectors <= |image|
    requires i < |job.prds| && o < job.prds[i].count
  {
    InJob(job, i, o, |mem|);
    mem[job.prds[i].base + o] == SectorByte(image, job.lba, Before(job, i) + o)
  }

  lemma InJob(job: Job, i: nat, o: nat, size: nat)
    requires GoodCounts(job, size) && i < |job.prds| && o < job.prds[i].count
    ensures (Before(job, i) + o) / 512 < job.sectors
    ensures Before(job, i) % 512 == 0 && Before(job, i + 1) == Before(job, i) + job.prds[i].count
    ensures Before(job, i + 1) <= 512 * job.sectors
    ensures GoodPrd(job.prds[i], size)
  {
    BeforeNext(job, i);
    BeforeGrows(job, i + 1, |job.prds|);
    BeforeAll(job);
    assert forall j :: 0 <= j < |job.prds| ==> GoodPrd(job.prds[j], size) && job.prds[j].count % 512 == 0;
    BeforeIsSectors(job, i);
  }

  ghost predicate Outside(job: Job, a: int) {
    forall i :: 0 <= i < |job.prds| ==> !InRegion(job.prds[i], a)
  }

  ghost predicate RestKept(mem: seq<byte>, mem0: seq<byte>, job: Job) {
    |mem| == |mem0| && forall a :: 0 <= a < |mem| && Outside(job, a) ==> mem[a] == mem0[a]
  }

  // ---- The state of a READ DMA ----

  ghost predicate Counters(d: Disk, job: Job, k: nat)
    requires k <= |job.prds|
  {
    && d.cmdBytesLeft == 512 * job.sectors - Before(job, k)
    && d.curSector == job.lba + Before(job, k) / 512
  }

  ghost predicate ReadSetup(s: Sys, job: Job, mem0: seq<byte>, image: seq<Sector>) {
    && Working(s) && !s.d.dmaRead && s.d.image == image
    && WellFormed(job, mem0) && job.lba + job.sectors <= |image|
    && |s.mem| == |mem0| && RestKept(s.mem, mem0, job)
  }

  ghost predicate ReadFetching(s: Sys, job: Job, mem0: seq<byte>, image: seq<Sector>, k: nat) {
    && ReadSetup(s, job, mem0, image) && Fetching(s, job, k)
    && Counters(s.d, job, k) && Filled(s.mem, job, image, k)
  }

  ghost predicate BufferHolds(d: Disk, job: Job, image: seq<Sector>, k: nat, size: nat)
    requires GoodCounts(job, size) && job.lba + job.sectors <= |image| && k < |job.prds|
  {
    forall o :: 0 <= o < job.prds[k].count ==>
      (InJob(job, k, o, size); d.buffer[o] == SectorByte(image, job.lba, Before(job, k) + o))
  }

  ghost predicate ReadMoving(s: Sys, job: Job, mem0: seq<byte>, image: seq<Sector>, k: nat) {
    && ReadSetup(s, job, mem0, image) && Moving(s, job, k, FromBuffer, WriteWait)
    && Counters(s.d, job, k + 1) && Filled(s.mem, job, image, k)
    && BufferHolds(s.d, job, image, k, |s.mem|)
    && forall o :: 0 <= o < job.prds[k].count && Moved(s, o) ==> HoldsByte(s.mem, job, image, k, o)
  }

  // ---- Facts that every step uses ----

  lemma TableIsSafe(s: Sys, job: Job, mem0: seq<byte>, image: seq<Sector>, k: nat)
    requires ReadSetup(s, job, mem0, image) && k < |job.prds|
    ensures job.table + PRD_SIZE * |job.prds| <= |s.mem|
    ensures Entry(job, s.mem, k) == Entry(job, mem0, k) && DecodePrd(Entry(job, s.mem, k)) == job.prds[k]
  {
    hide DecodePrd; hide Coherent; hide Total;
    forall i | 0 <= i < PRD_SIZE
      ensures Entry(job, s.mem, k)[i] == Entry(job, mem0, k)[i]
    {
      var a := job.table + PRD_SIZE * k + i;
      assert InTable(job, a);
      assert Outside(job, a);
    }
    assert Entry(job, s.mem, k) == Entry(job, mem0, k);
  }

  // ---- What each event does to a working engine ----

  lemma OneEvent(s: Sys, c: Cont)
    requires Working(s) && c in s.scheduled
    ensures s.scheduled == multiset{c} && s.held == multiset{} && s.flight == Free
    ensures s.d.devState == TransferDataDma && s.d.dmaState == DmaTransfer && !s.d.dmaAborted && WellTyped(s)
    ensures Running(s.(scheduled := multiset{}))
  {
    TakenOff(s, c);
    OnlyOne(s.scheduled, c);
    RunningIsInDma(s.(scheduled := s.scheduled - multiset{c}));
    hide Stable; hide StatesFit; hide CountersFit;
  }

  lemma TransferDue(s: Sys, busy: bool)
    requires Working(s) && Transfer in s.scheduled
    ensures WellTyped(s)
    ensures Fire(s, Transfer, busy) ==
            if busy then Fine(s)
            else Fine(s.(scheduled := multiset{}, held := multiset{PrdRead},
                         flight := Busy(Op(ToPrd, s.curPrdAddr, PRD_SIZE, 0, Below(PRD_SIZE)))))
  {
    hide Working; hide Running; hide CountersFit;
    OneEvent(s, Transfer);
    hide Coherent; hide Below; hide Act;
    assert s.scheduled - multiset{Transfer} == multiset{};
    assert multiset{} + multiset{Transfer} == s.scheduled;
    assert s.held + multiset{PrdRead} == multiset{PrdRead};
  }

  lemma PrdReadDue(s: Sys)
    requires Working(s) && PrdRead in s.scheduled
    requires s.curPrdAddr + PRD_SIZE < 0x1_0000_0000 && s.d.cmdBytesLeft <= MAX_DMA_SIZE
    ensures WellTyped(s) && CurPrd(s).count <= MAX_SINGLE_DMA && s.d.devState == TransferDataDma
    ensures s.d.dmaRead ==>
              Fire(s, PrdRead, false) ==
              Fine(s.(scheduled := multiset{ReadWait}, curPrdAddr := s.curPrdAddr + PRD_SIZE))
    ensures !s.d.dmaRead ==>
              var r := LoadSectors(s.d.(buffer := Zeros(MAX_DMA_SIZE)), 0, CurPrd(s).count);
              r.Ok? ==>
                Fire(s, PrdRead, false) ==
                Fine(s.(scheduled := multiset{WriteWait}, curPrdAddr := s.curPrdAddr + PRD_SIZE, d := r.d))
  {
    hide Working; hide Running; hide CountersFit;
    OneEvent(s, PrdRead);
    PrdCountIsSmall(s.prdBytes);
    hide Coherent; hide Act; hide DecodePrd; hide LoadSectors; hide Zeros;
    assert s.scheduled - multiset{PrdRead} == multiset{};
    assert multiset{} + multiset{ReadWait} == multiset{ReadWait};
    assert multiset{} + multiset{WriteWait} == multiset{WriteWait};
  }

  // A region is being moved and its event is due: back off, hand over the
  // next page, or finish.
  lemma WriteDue(s: Sys, busy: bool)
    requires Working(s) && WriteWait in s.scheduled && WellTyped(s) && MadeFor(s.gen, CurPrd(s))
    ensures WellTyped(s) && s.d.devState == TransferDataDma
    ensures var c, p := Handed(s), CurPrd(s);
            Fire(s, WriteWait, busy) ==
            if busy then Fine(s.(gen := At(p.base, p.count, c)))
            else if c < p.count then
              var n := FirstSize(p.base + c, p.count - c, PAGE);
              Fine(s.(scheduled := multiset{}, held := multiset{WriteWait}, gen := At(p.base, p.count, c + n),
                      flight := Busy(Op(FromBuffer, p.base + c, n, c, Below(n)))))
            else RegionDone(s.(scheduled := multiset{}, gen := NoGenerator), false)
  {
    hide Working; hide Running; hide CountersFit; hide Act; hide DecodePrd; hide RegionDone; hide Below;
    OneEvent(s, WriteWait);
    assert s.scheduled - multiset{WriteWait} == multiset{};
    assert multiset{} + multiset{WriteWait} == s.scheduled;
    assert s.held + multiset{WriteWait} == multiset{WriteWait};
  }

  lemma ReadDue(s: Sys, busy: bool)
    requires Working(s) && ReadWait in s.scheduled && WellTyped(s) && MadeFor(s.gen, CurPrd(s))
    ensures WellTyped(s) && s.d.devState == TransferDataDma
    ensures var c, p := Handed(s), CurPrd(s);
            var o := OpenRead(s);
            Fire(s, ReadWait, busy) ==
            if busy then Fine(o)
            else if c < p.count then
              var n := FirstSize(p.base + c, p.count - c, PAGE);
              Fine(o.(scheduled := multiset{}, held := multiset{ReadWait}, gen := At(p.base, p.count, c + n),
                      flight := Busy(Op(ToBuffer, p.base + c, n, c, Below(n)))))
            else EndRead(o.(scheduled := multiset{}), false)
  {
    hide Working; hide Running; hide CountersFit; hide Act; hide DecodePrd; hide EndRead; hide Below; hide Zeros;
    OneEvent(s, ReadWait);
    assert s.scheduled - multiset{ReadWait} == multiset{};
    assert multiset{} + multiset{ReadWait} == s.scheduled;
    assert s.held + multiset{ReadWait} == multiset{ReadWait};
  }

  // The end of a region that is not the last: the next entry is asked for.
  lemma RegionDoneGoesOn(s: Sys)
    requires Running(s) && !s.d.dmaAborted && !CurPrd(s).eot
    ensures RegionDone(s, false) ==
            Fine(s.(held := multiset{PrdRead},
                    flight := Busy(Op(ToPrd, s.curPrdAddr, PRD_SIZE, 0, Below(PRD_SIZE)))))
  {
    RunningIsInDma(s);
    hide Act; hide DecodePrd; hide Below; hide Stable; hide StatesFit; hide CountersFit;
    assert s.held + multiset{PrdRead} == multiset{PrdRead};
  }

  lemma RegionDoneEnds(s: Sys)
    requires Running(s) && !s.d.dmaAborted && CurPrd(s).eot && s.d.cmdBytesLeft == 0 && s.gen.NoGenerator?
    ensures var r := RegionDone(s, false);
            r.Fine? && AtRest(r.s) && r.s.mem == s.mem && r.s.d.image == s.d.image && r.s.d.cmdBytesLeft == 0
  {
    DoneIsKept(s);
    RunningIsInDma(s);
    hide DecodePrd; hide Stable; hide StatesFit; hide CountersFit; hide AtRest;
  }

  lemma FinishedIs(s: Sys, c: Cont)
    requires Working(s) && s.flight.Busy? && c in s.held
    ensures CompleteOp(s, c) == Fine(s.(flight := Free, held := multiset{}, scheduled := multiset{c}))
    ensures s.scheduled == multiset{} && s.held == multiset{c}
  {
    OnlyOne(s.held, c);
    hide Stable; hide StatesFit; hide CountersFit;
    assert s.scheduled == multiset{};
    assert multiset{} + multiset{c} == multiset{c};
    assert s.held == (s.held - multiset{c}) + multiset{c};
  }

  // ---- Fetching an entry, the same in both directions ----

  // The engine has moved on but the data and the entry are the same.
  ghost predicate StillFetching(s: Sys, s': Sys, job: Job, k: nat) {
    Working(s') && Fetching(s', job, k) && s'.d == s.d && s'.mem == s.mem
  }

  lemma BusyHasNoEvent(s: Sys)
    requires Coherent(s) && s.flight.Busy?
    ensures WellTyped(s) && s.scheduled == multiset{}
  {
    hide Stable; hide StatesFit; hide CountersFit;
  }

  lemma MoveNeedsFlight(s: Sys, which: set<nat>)
    requires Allowed(s, DmaCoherence.Moved(which))
    ensures s.flight.Busy? && which <= s.flight.op.left
    ensures forall i :: i in which ==> i < s.flight.op.size && s.flight.op.addr + i < |s.mem|
    ensures s.flight.op.offset + s.flight.op.size <= if s.flight.op.target.ToPrd? then PRD_SIZE else MAX_DMA_SIZE
  {}

  lemma FetchDue(s: Sys, job: Job, k: nat, busy: bool)
    requires Working(s) && Fetching(s, job, k) && Transfer in s.scheduled
    ensures WellTyped(s) && Fire(s, Transfer, busy).Fine?
    ensures StillFetching(s, Fire(s, Transfer, busy).s, job, k)
  {
    hide Coherent; hide DecodePrd; hide Fire; hide Entry; hide CountersFit;
    StepIsKept(s, Due(Transfer, busy));
    TransferDue(s, busy);
  }

  lemma EntryBytesArrive(s: Sys, job: Job, k: nat, which: set<nat>)
    requires WellTyped(s) && Allowed(s, DmaCoherence.Moved(which))
    requires k < |job.prds| && job.table + PRD_SIZE * |job.prds| <= |s.mem|
    requires ReadingEntry(s, job, k, s.flight.op)
    ensures var s' := Move(s, which);
            && s'.mem == s.mem && s'.d == s.d && s'.scheduled == s.scheduled && s'.held == s.held
            && s'.gen == s.gen && s'.curPrdAddr == s.curPrdAddr && s'.flight.Busy?
            && ReadingEntry(s', job, k, s'.flight.op)
  {
    hide Shape;
  }

  lemma FetchMoved(s: Sys, job: Job, k: nat, which: set<nat>)
    requires Working(s) && Fetching(s, job, k) && Allowed(s, DmaCoherence.Moved(which))
    ensures WellTyped(s) && StillFetching(s, Move(s, which), job, k)
  {
    hide DecodePrd; hide Move; hide ReadingEntry; hide Allowed; hide Coherent;
    MoveNeedsFlight(s, which);
    BusyHasNoEvent(s);
    MoveIsKept(s, which);
    assert Transfer in multiset{Transfer} && PrdRead in multiset{PrdRead};
    EntryBytesArrive(s, job, k, which);
  }

  lemma FetchFinished(s: Sys, job: Job, k: nat, c: Cont)
    requires Working(s) && Fetching(s, job, k) && Allowed(s, Finished(c))
    ensures CompleteOp(s, c).Fine? && StillFetching(s, CompleteOp(s, c).s, job, k)
  {
    hide Coherent; hide DecodePrd; hide CompleteOp;
    CompleteIsKept(s, c);
    FinishedIs(s, c);
    assert PrdRead in multiset{PrdRead} && Transfer in multiset{Transfer};
    assert s.prdBytes == Entry(job, s.mem, k);
  }

  // ---- Runs of the engine ----

  // A write to the bus-master registers that neither starts nor stops: to
  // status, table address or reserved bytes, or to the command register with
  // the start bit as it is and the direction bit as one likes.
  ghost predicate KeepsStart(s: Sys, e: EngineEvent) {
    e.BmiStatus? || e.BmiTable? || e.BmiRaw? || (e.BmiCommand? && e.v[START_STOP] == StartStop(s.bmi))
  }

  // Such a write touches nothing but the registers.
  lemma RegistersOnly(s: Sys, e: EngineEvent)
    requires Working(s) && Allowed(s, e) && KeepsStart(s, e)
    ensures WellTyped(s) && Step(s, e).Fine?
    ensures Working(Step(s, e).s) && Step(s, e).s == s.(bmi := Step(s, e).s.bmi)
  {
    BmiIsKept(s, e);
    hide Stable; hide StatesFit; hide CountersFit; hide RawWrite; hide NewStatus;
  }

  // The engine's own events, register accesses that are not commands, and
  // writes to the bus-master registers that neither start nor stop.
  ghost predicate JobEvent(s: Sys, e: EngineEvent) {
    && Allowed(s, e)
    && (e.Due? || e.Moved? || e.Finished? || KeepsStart(s, e) || (e.Host? && IsQuiet(e.acc)))
  }

  lemma QuietHost(s: Sys, acc: Access)
    requires Working(s) && IsQuiet(acc)
    ensures WellTyped(s) && HostAccess(s, acc).Fine?
    ensures var s' := HostAccess(s, acc).s;
            && Working(s') && s' == s.(d := s'.d) && SameTransfer(s.d, s'.d)
            && s'.d.dmaRead == s.d.dmaRead
  {
    HostIsKept(s, acc);
    QuietKeepsTransfer(s.d, acc, true);
    QuietKeepsEngine(s.d, acc);
    assert SameTransfer(s.d, s.d);
    hide Do; hide Coherent; hide SameTransfer;
    assert s.(d := s.d) == s;
  }

  lemma QuietKeepsEngine(d: Disk, acc: Access)
    requires Stable(d) && InCommand(d.devState) && IsQuiet(acc)
    ensures var r := Do(d, acc, true);
            r.Ok? && r.d.dmaRead == d.dmaRead && r.d.dmaState == d.dmaState && r.d.dmaAborted == d.dmaAborted
  {
    if acc.ReadStatus? {
      StatusReadIs(d, true);
    } else if acc.WriteControl? {
      StableHasShape(d);
      ControlWriteIs(d, acc.nien, true);
    } else {
      QuietIs(d, acc, true);
    }
    hide Do;
  }

  // A run of the engine until the command is over.
  ghost predicate JobRun(s: Sys, es: seq<EngineEvent>)
    requires Coherent(s)
    decreases |es|
  {
    es == [] || !Transferring(s.d) ||
    (JobEvent(s, es[0]) &&
     (StepIsKept(s, es[0]);
      Step(s, es[0]).Fine? ==> JobRun(Step(s, es[0]).s, es[1..])))
  }

  ghost function JobEnd(s: Sys, es: seq<EngineEvent>): SysResult
    requires Coherent(s) && JobRun(s, es)
    decreases |es|
  {
    if es == [] || !Transferring(s.d) then Fine(s)
    else
      StepIsKept(s, es[0]);
      var r := Step(s, es[0]);
      if r.Stop? then r else JobEnd(r.s, es[1..])
  }

  // The command and the start bit: from an idle disk to the first fetch.
  lemma CommandAsksForDma(d: Disk, c: Command, sel: bool)
    requires Stable(d) && d.devState == DeviceIdleS && LbaMode(d) && d.dmaState == DmaIdle
    requires c == ReadDma || c == WriteDma
    ensures var r := Do(d, WriteCommand(c), sel);
            && r.Ok? && r.d.devState == TransferDataDma && r.d.dmaState == DmaStart
            && r.d.cmdBytesLeft == 512 * CommandSectors(d) && r.d.curSector == LbaBase(d)
            && r.d.dmaRead == (c == WriteDma) && r.d.image == d.image && r.d.posts == d.posts
  {
    CommandWriteStarts(d, c, sel);
    hide Do; hide LbaBase; hide CommandSectors;
  }

  lemma CommandReachesDisk(s: Sys, c: Command)
    requires Coherent(s) && s.selected && s.d.devState == DeviceIdleS && LbaMode(s.d)
    requires c == ReadDma || c == WriteDma
    ensures WellTyped(s) && HostAccess(s, WriteCommand(c)).Fine?
    ensures var s1 := HostAccess(s, WriteCommand(c)).s;
            && Coherent(s1) && s1 == s.(d := s1.d) && s1.d.image == s.d.image
            && s1.d.devState == TransferDataDma && s1.d.dmaState == DmaStart && s1.d.dmaRead == (c == WriteDma)
            && s1.d.cmdBytesLeft == 512 * CommandSectors(s.d) && s1.d.curSector == LbaBase(s.d)
  {
    hide Do; hide LbaBase; hide CommandSectors; hide LbaMode; hide Coherent; hide Stable;
    CoherentGives(s);
    HostIsKept(s, WriteCommand(c));
    IdleHasNoDma(s);
    CommandAsksForDma(s.d, c, true);
  }

  lemma IdleHasNoDma(s: Sys)
    requires Coherent(s) && s.d.devState == DeviceIdleS
    ensures s.d.dmaState == DmaIdle
  {}

  lemma StartBitStartsFetch(s: Sys, v: Bits, job: Job)
    requires Coherent(s) && s.selected && v[START_STOP]
    requires s.d.devState == TransferDataDma && s.d.dmaState == DmaStart
    ensures WellTyped(s) && WriteBmiCommand(s, v).Fine?
    ensures var s' := WriteBmiCommand(s, v).s;
            && Working(s') && s' == s.(d := s.d.(dmaState := DmaTransfer), bmi := s'.bmi,
                                       curPrdAddr := TableBase(s.bmi), scheduled := multiset{Transfer})
            && s'.gen.NoGenerator?
  {
    assert !StartStop(s.bmi) && s.scheduled == multiset{} && s.held == multiset{} && s.gen.NoGenerator?;
    StartIsKept(s, v);
    hide TableBase; hide AbortDma; hide Stable; hide StatesFit; hide CountersFit;
    assert TableBase(SetActive(s.bmi, true)) == TableBase(s.bmi) by { TableBaseOfStatus(s.bmi); }
    assert multiset{} + multiset{Transfer} == multiset{Transfer};
  }

  lemma TableBaseOfStatus(m: Bmi)
    ensures TableBase(SetActive(m, true)) == TableBase(m)
  {}

  lemma GoodPrdGives(p: Prd, size: nat)
    requires GoodPrd(p, size)
    ensures p.base + p.count <= size && 0 < p.count <= 0x1_0000
  {}
}
