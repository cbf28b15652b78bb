// The engine, its events and the bus-master registers agree in every run.
module DmaCoherence {
  import opened ByteSeq
  import opened DiskSpec
  import opened DiskInvariants
  import opened BusMaster
  import opened DmaEngine
  import opened Chunks

  predicate Transferring(d: Disk) { d.dmaState == DmaTransfer }

  // Which DMA states go with which device state.
  predicate StatesFit(dev: DevState, dma: DmaState, aborted: bool) {
    match dev
    case TransferDataDma => dma != DmaIdle
    case DeviceDmaAbort => dma == DmaTransfer
    case DeviceSrst => dma != DmaTransfer && !aborted
    case _ => dma == DmaIdle
  }

  predicate DmaFits(d: Disk) { StatesFit(d.devState, d.dmaState, d.dmaAborted) }

  // Exactly one continuation is live while a transfer runs and none
  // otherwise; the start and active bits are set exactly while it runs and
  // has not been aborted.
  ghost predicate Coherent(s: Sys) {
    && WellTyped(s) && Stable(s.d) && DmaFits(s.d)
    && |s.scheduled| + |s.held| == (if Transferring(s.d) then 1 else 0)
    && (s.flight.Busy? <==> |s.held| == 1)
    && StartStop(s.bmi) == (Transferring(s.d) && !s.d.dmaAborted)
    && Active(s.bmi) == (Transferring(s.d) && !s.d.dmaAborted)
    && GeneratorFits(s)
  }

  // The chunk generator exists only while a region is being moved.
  ghost predicate GeneratorFits(s: Sys) {
    s.gen.At? ==> exists c :: c in s.scheduled + s.held && MovesRegion(c)
  }

  predicate MovesRegion(c: Cont) { c == ReadWait || c == WriteWait }

  // What stops the simulator for good reason: a command it does not support,
  // a sector the image does not have, or a PRD table whose counts do not add up.
  predicate Excusable(w: DmaEngine.Why) {
    w == AssertFailed || (w.DiskPanic? && w.why in {ChsAccess, BadCommand, ImageRange, ByteTransfer})
  }

  ghost predicate Kept(r: SysResult) {
    if r.Fine? then Coherent(r.s) else Excusable(r.why)
  }

  // ---- The disk's own steps ----

  // A step of the disk that is none of the engine's business.
  predicate LeavesDma(d: Disk, r: Result) {
    if r.Ok? then DmaFits(r.d) && Transferring(r.d) == Transferring(d) && r.d.dmaAborted == d.dmaAborted
    else r.why != DmaNotIdle
  }

  lemma ProceedLeavesDma(d: Disk)
    requires Shape(d) && IsTransient(d.devState) && d.dmaState == DmaIdle && !d.dmaAborted
    ensures LeavesDma(d, Proceed(d))
  {
    hide Overwrite; hide WordAt;
  }

  lemma LaunchLeavesDma(d: Disk)
    ensures Launch(d).Ok? ==> Launch(d).d.dmaState == d.dmaState
  {
    hide LbaBase; hide CommandSectors; hide LbaMode;
  }

  lemma StartCommandLeavesDma(d: Disk)
    requires d.dmaState == DmaIdle && !d.dmaAborted
    ensures LeavesDma(d, StartCommand(d))
  {
    hide Launch; hide Proceed;
    LaunchLeavesDma(d);
    if Launch(d).Ok? { ProceedLeavesDma(Launch(d).d); }
  }

  lemma IdleLeavesDma(d: Disk, a: Action, sel: bool)
    requires Stable(d) && DmaFits(d)
    ensures d.devState.DeviceIdleS? ==> LeavesDma(d, UpdateIdle(d, a, sel))
    ensures d.devState.DeviceIdleSI? ==> LeavesDma(d, UpdateIdleIntr(d, a, sel))
    ensures d.devState.DeviceIdleNS? ==> LeavesDma(d, UpdateNotSelected(d, a, sel))
  {
    hide StartCommand; hide Finish;
    if d.devState.DeviceIdleS? || d.devState.DeviceIdleSI? {
      StartCommandLeavesDma(d);
      StartCommandLeavesDma(d.(intrPending := false));
    }
  }

  lemma TransferInLeavesDma(d: Disk, a: Action)
    requires Stable(d) && DmaFits(d) && d.devState.TransferDataIn?
    ensures LeavesDma(d, UpdateTransferIn(d, a))
  {
    hide Proceed; hide WordAt;
    if d.drqBytesLeft == 2 && d.cmdBytesLeft != 2 {
      ProceedLeavesDma(NextWord(d).(devState := PrepareDataIn, status := d.status.(bsy := true, drq := false)));
    }
  }

  lemma TransferOutLeavesDma(d: Disk, a: Action)
    requires Stable(d) && DmaFits(d) && d.devState.TransferDataOut?
    ensures LeavesDma(d, UpdateTransferOut(d, a))
  {
    hide Proceed; hide Overwrite;
    if d.drqBytesLeft == 2 && StoreBlock(TakeWord(d)).Ok? {
      ProceedLeavesDma(StoreBlock(TakeWord(d)).d);
    }
  }

  lemma PioLeavesDma(d: Disk, a: Action)
    requires Stable(d) && DmaFits(d)
    ensures d.devState.TransferDataIn? ==> LeavesDma(d, UpdateTransferIn(d, a))
    ensures d.devState.TransferDataOut? ==> LeavesDma(d, UpdateTransferOut(d, a))
    ensures d.devState.DataReadyIntrqIn? ==> LeavesDma(d, UpdateDataReady(d, a, TransferDataIn))
    ensures d.devState.DataReadyIntrqOut? ==> LeavesDma(d, UpdateDataReady(d, a, TransferDataOut))
  {
    hide UpdateTransferIn; hide UpdateTransferOut;
    if d.devState.TransferDataIn? { TransferInLeavesDma(d, a); }
    if d.devState.TransferDataOut? { TransferOutLeavesDma(d, a); }
  }

  lemma ActionLeavesDma(d: Disk, a: Action, sel: bool)
    requires Stable(d) && DmaFits(d) && a != CmdError && a != DmaDone && a != SrstClear
    ensures LeavesDma(d, Update(d, a, sel))
  {
    hide UpdateIdle; hide UpdateIdleIntr; hide UpdateNotSelected; hide UpdateDataReady;
    hide UpdateTransferIn; hide UpdateTransferOut; hide CountersFit;
    IdleLeavesDma(d, a, sel);
    PioLeavesDma(d, a);
  }

  lemma WordLeavesDma(d: Disk, w: Word, sel: bool)
    requires Stable(d) && DmaFits(d)
    ensures LeavesDma(d, ReadWord(d, sel)) && LeavesDma(d, WriteWord(d, w, sel))
  {
    hide Update;
    ActionLeavesDma(d, DataReadShort, sel);
    ActionLeavesDma(d.(data := w), DataWriteShort, sel);
  }

  lemma TwoWordsLeaveDma(d: Disk, w: Word, w': Word, sel: bool)
    requires Stable(d) && DmaFits(d)
    ensures ReadWord(d, sel).Ok? ==> LeavesDma(d, ReadWord(ReadWord(d, sel).d, sel))
    ensures ReadWord(d, sel).Panic? ==> LeavesDma(d, ReadWord(d, sel))
    ensures WriteWord(d, w, sel).Ok? ==> LeavesDma(d, WriteWord(WriteWord(d, w, sel).d, w', sel))
    ensures WriteWord(d, w, sel).Panic? ==> LeavesDma(d, WriteWord(d, w, sel))
  {
    StableGivesShape(d);
    hide Update; hide ReadWord; hide WriteWord; hide Stable; hide StatesFit; hide CountersFit;
    WordLeavesDma(d, w, sel);
    WordKeepsStable(d, w, sel);
    if ReadWord(d, sel).Ok? { WordLeavesDma(ReadWord(d, sel).d, w, sel); }
    if WriteWord(d, w, sel).Ok? { WordLeavesDma(WriteWord(d, w, sel).d, w', sel); }
  }

  lemma StableGivesShape(d: Disk)
    requires Stable(d)
    ensures Shape(d)
  {}

  lemma RegistersDoNotMatter(d: Disk, v: byte, c: Command)
    requires Stable(d)
    ensures Stable(WithDrive(d, v)) && Stable(d.(command := c))
  {
    hide CountersFit;
  }

  lemma ControlLeavesDma(d: Disk, srst: bool, nien: bool)
    requires Stable(d) && DmaFits(d) && (srst ==> !Transferring(d))
    ensures var d' := SetControl(d, srst, nien);
            DmaFits(d') && Transferring(d') == Transferring(d) && d'.dmaAborted == d.dmaAborted
  {}

  predicate MovesWords(acc: Access) {
    acc.ReadData16? || acc.ReadData32? || acc.WriteData16? || acc.WriteData32?
  }

  lemma WordAccessLeavesDma(d: Disk, acc: Access, sel: bool)
    requires Stable(d) && DmaFits(d) && MovesWords(acc)
    ensures Shape(d) && LeavesDma(d, Do(d, acc, sel))
  {
    StableGivesShape(d);
    hide Update; hide ReadWord; hide WriteWord; hide CountersFit; hide SetControl; hide Stable; hide DmaFits;
    hide LeavesDma;
    if acc.ReadData16? { WordLeavesDma(d, d.data, sel); }
    else if acc.ReadData32? { TwoWordsLeaveDma(d, d.data, d.data, sel); }
    else if acc.WriteData16? { WordLeavesDma(d, acc.word, sel); }
    else { TwoWordsLeaveDma(d, acc.first, acc.second, sel); }
  }

  // No register access of the host touches a running transfer, unless it is
  // a software reset.
  lemma AccessLeavesDma(d: Disk, acc: Access, sel: bool)
    requires Stable(d) && DmaFits(d)
    requires acc.WriteControl? && acc.srst ==> !Transferring(d)
    ensures LeavesDma(d, Do(d, acc, sel))
  {
    StableGivesShape(d);
    hide Update; hide ReadWord; hide WriteWord; hide CountersFit; hide SetControl; hide Stable; hide StatesFit;
    hide SetRegister;
    if MovesWords(acc) {
      WordAccessLeavesDma(d, acc, sel);
    } else if acc.ReadStatus? {
      ActionLeavesDma(d, StatRead, sel);
    } else if acc.WriteDrive? {
      RegistersDoNotMatter(d, acc.value, d.command);
      ActionLeavesDma(WithDrive(d, acc.value), SelectWrite, sel);
    } else if acc.WriteCommand? {
      RegistersDoNotMatter(d, d.file.drive, acc.cmd);
      ActionLeavesDma(d.(command := acc.cmd), CmdWrite, sel);
    } else if acc.WriteControl? {
      ControlLeavesDma(d, acc.srst, acc.nien);
    } else if acc.WriteRegister? {
      RegisterLeavesDma(d, acc.to, acc.value);
    }
  }

  lemma RegisterLeavesDma(d: Disk, r: Register, v: byte)
    requires DmaFits(d)
    ensures LeavesDma(d, Ok(SetRegister(d, r, v)))
  {}

  // ---- The continuations ----

  // A continuation has been taken off the queue and is running.
  ghost predicate Running(s: Sys) {
    && WellTyped(s) && Stable(s.d) && DmaFits(s.d) && Transferring(s.d)
    && s.scheduled == multiset{} && s.held == multiset{} && s.flight == Free
    && StartStop(s.bmi) == !s.d.dmaAborted && Active(s.bmi) == !s.d.dmaAborted
  }

  lemma TakenOff(s: Sys, c: Cont)
    requires Coherent(s) && c in s.scheduled
    ensures Running(s.(scheduled := s.scheduled - multiset{c}))
    ensures MovesRegion(c) || s.gen.NoGenerator?
  {
    hide Stable; hide StatesFit; hide CountersFit;
    assert |s.scheduled| >= 1;
    assert |s.scheduled - multiset{c}| == |s.scheduled| - 1;
    assert s.scheduled == (s.scheduled - multiset{c}) + multiset{c};
  }

  lemma RunningWithoutGenerator(s: Sys)
    requires Running(s)
    ensures WellTyped(s) && Running(s.(gen := NoGenerator))
  {
    hide Stable; hide StatesFit; hide CountersFit;
  }

  lemma RunningIsInDma(s: Sys)
    requires Running(s)
    ensures s.d.devState == if s.d.dmaAborted then DeviceDmaAbort else TransferDataDma
  {}

  lemma ScheduleIsKept(s: Sys, c: Cont)
    requires Running(s) && (MovesRegion(c) || s.gen.NoGenerator?)
    ensures Kept(Schedule(s, c))
  {
    hide Stable; hide StatesFit; hide CountersFit;
    assert c in s.scheduled + multiset{c} + s.held;
    assert |s.scheduled + multiset{c}| == 1;
  }

  lemma StartOpIsKept(s: Sys, target: Target, addr: nat, size: nat, offset: nat, c: Cont)
    requires Running(s) && (MovesRegion(c) || s.gen.NoGenerator?)
    ensures Kept(StartOp(s, target, addr, size, offset, c))
  {
    hide Stable; hide StatesFit; hide CountersFit; hide Below;
    assert c in s.scheduled + (s.held + multiset{c});
    assert |s.held + multiset{c}| == 1;
  }

  lemma FinishIsIdle(d: Disk)
    requires Shape(d) && !d.intrPending && !d.dmaAborted && d.dmaState == DmaIdle
    ensures Finish(d).Ok? && Stable(Finish(d).d) && DmaFits(Finish(d).d)
    ensures Finish(d).d.dmaState == DmaIdle && !Finish(d).d.dmaAborted
    ensures Finish(d).d.devState == DeviceIdleS || Finish(d).d.devState == DeviceIdleSI
  {}

  // The engine is at rest.
  ghost predicate AtRest(s: Sys) {
    && Coherent(s) && s.d.dmaState == DmaIdle
    && (s.d.devState == DeviceIdleS || s.d.devState == DeviceIdleSI)
    && s.scheduled == multiset{} && s.held == multiset{} && s.flight == Free && s.gen == NoGenerator
    && !StartStop(s.bmi) && !Active(s.bmi) && s.bmi.status[INT_STATUS]
  }

  lemma AbortIsResolved(s: Sys)
    requires Running(s) && s.d.dmaAborted && s.gen.NoGenerator?
    ensures Act(s, CmdError).Fine? && AtRest(Act(s, CmdError).s)
  {
    RunningIsInDma(s);
    assert !s.d.intrPending;
    FinishIsIdle(s.d.(dmaAborted := false, dmaState := DmaIdle));
    hide Finish; hide Stable; hide StatesFit; hide CountersFit;
  }

  lemma DoneIsKept(s: Sys)
    requires Running(s) && !s.d.dmaAborted && s.gen.NoGenerator?
    ensures WellTyped(s.(d := s.d.(dmaState := DmaIdle)))
    ensures var r := Act(s.(d := s.d.(dmaState := DmaIdle)), DmaDone); r.Fine? && AtRest(r.s)
  {
    RunningIsInDma(s);
    assert !s.d.intrPending;
    FinishIsIdle(s.d.(dmaState := DmaIdle));
    hide Finish; hide Stable; hide StatesFit; hide CountersFit;
  }

  lemma TransferIsKept(s: Sys, busy: bool)
    requires Running(s) && s.gen.NoGenerator?
    ensures Kept(DoDmaTransfer(s, busy))
  {
    RunningIsInDma(s);
    if s.d.dmaAborted {
      AbortIsResolved(s);
    } else if busy {
      ScheduleIsKept(s, Transfer);
    } else {
      StartOpIsKept(s, ToPrd, s.curPrdAddr, PRD_SIZE, 0, PrdRead);
    }
    hide *;
  }

  lemma RegionDoneIsKept(s: Sys, busy: bool)
    requires Running(s) && !s.d.dmaAborted && s.gen.NoGenerator?
    ensures Kept(RegionDone(s, busy))
  {
    hide DoDmaTransfer; hide Act; hide DecodePrd; hide Stable; hide StatesFit; hide CountersFit;
    DoneIsKept(s);
    TransferIsKept(s, busy);
  }

  // Sector data and counters move without any effect on the rest.
  lemma DataDoesNotMatter(s: Sys, d': Disk, g: Generator, addr: nat)
    requires Running(s) && s.d.devState.TransferDataDma?
    requires d' == s.d.(buffer := d'.buffer, image := d'.image, curSector := d'.curSector,
                        cmdBytesLeft := d'.cmdBytesLeft)
    ensures Running(s.(d := d', gen := g, curPrdAddr := addr))
  {}

  lemma PrdReadIsKept(s: Sys)
    requires Running(s) && s.gen.NoGenerator?
    ensures Kept(PrdReadDone(s))
  {
    RunningIsInDma(s);
    if s.d.dmaAborted {
      AbortIsResolved(s);
      hide *;
    } else {
      hide Act; hide Stable; hide StatesFit; hide CountersFit; hide DecodePrd; hide Zeros; hide Schedule;
      PrdCountIsSmall(s.prdBytes);
      var next := (s.curPrdAddr + PRD_SIZE) % 0x1_0000_0000;
      if s.d.dmaRead {
        DataDoesNotMatter(s, s.d, s.gen, next);
        assert s.(d := s.d, gen := s.gen, curPrdAddr := next) == s.(curPrdAddr := next);
        ScheduleIsKept(s.(curPrdAddr := next), ReadWait);
      } else if s.d.cmdBytesLeft <= MAX_DMA_SIZE {
        var r := LoadSectors(s.d.(buffer := Zeros(MAX_DMA_SIZE)), 0, CurPrd(s).count);
        if r.Ok? {
          DataDoesNotMatter(s, r.d, s.gen, next);
          assert s.(d := r.d, gen := s.gen, curPrdAddr := next) == s.(curPrdAddr := next, d := r.d);
          ScheduleIsKept(s.(curPrdAddr := next, d := r.d), WriteWait);
        } else {
          LoadPanic(s.d.(buffer := Zeros(MAX_DMA_SIZE)), 0, CurPrd(s).count);
        }
      }
    }
  }

  lemma {:induction false} LoadPanic(d: Disk, done: nat, count: nat)
    requires done % 512 == 0 && count <= MAX_SINGLE_DMA && Shape(d) && d.devState.TransferDataDma?
    ensures LoadSectors(d, done, count).Panic? ==> LoadSectors(d, done, count).why == ImageRange
    decreases count - done
  {
    hide Overwrite;
    if done < count && d.curSector < |d.image| {
      LoadPanic(d.(buffer := Overwrite(d.buffer, done, d.image[d.curSector]),
                   curSector := d.curSector + 1, cmdBytesLeft := Less(d.cmdBytesLeft)), done + 512, count);
    }
  }

  lemma {:induction false} StorePanic(d: Disk, done: nat, count: nat)
    requires done % 512 == 0 && count <= MAX_SINGLE_DMA && Shape(d) && d.devState.TransferDataDma?
    ensures StoreSectors(d, done, count).Panic? ==> StoreSectors(d, done, count).why == ImageRange
    decreases count - done
  {
    if done < count && d.curSector < |d.image| {
      StorePanic(d.(image := d.image[d.curSector := d.buffer[done..done + 512]],
                    curSector := d.curSector + 1, cmdBytesLeft := Less(d.cmdBytesLeft)), done + 512, count);
    }
  }

  lemma OpenIsRunning(s: Sys)
    requires Running(s) && s.d.devState.TransferDataDma?
    ensures Running(OpenRead(s)) && Running(OpenWrite(s)) && Running(s.(gen := NoGenerator))
  {
    hide StatesFit; hide Zeros;
  }

  lemma NextPageIsKept(s: Sys, target: Target, c: Cont)
    requires Running(s) && !AtEnd(s.gen) && MovesRegion(c)
    ensures Kept(NextPage(s, target, c))
  {
    hide Stable; hide StatesFit; hide CountersFit; hide DecodePrd; hide StartOp; hide FirstSize;
    var g, at := s.gen, s.gen.complete;
    var n := FirstSize(g.base + at, g.count - at, PAGE);
    StartOpIsKept(s.(gen := g.(complete := at + n)), target, g.base + at, n, at, c);
  }

  lemma EndReadIsKept(s: Sys, busy: bool)
    requires Running(s) && s.d.devState.TransferDataDma? && !s.d.dmaAborted
    ensures Kept(EndRead(s, busy))
  {
    assert WellTyped(s);
    hide Stable; hide StatesFit; hide CountersFit; hide DecodePrd; hide RegionDone; hide Running; hide Kept;
    PrdCountIsSmall(s.prdBytes);
    var r := StoreSectors(s.d, 0, CurPrd(s).count);
    if r.Ok? {
      var s' := s.(gen := NoGenerator, d := r.d);
      DataDoesNotMatter(s, r.d, NoGenerator, s.curPrdAddr);
      assert s.(d := r.d, gen := NoGenerator, curPrdAddr := s.curPrdAddr) == s';
      RegionDoneIsKept(s', busy);
    } else {
      StorePanic(s.d, 0, CurPrd(s).count);
      ImageRangeIsKept();
    }
  }

  lemma ImageRangeIsKept()
    ensures Kept(Stop(DiskPanic(ImageRange)))
  {}

  lemma ReadIsKept(s: Sys, busy: bool)
    requires Running(s)
    ensures Kept(DoDmaRead(s, busy))
  {
    RunningIsInDma(s);
    if s.d.dmaAborted {
      AbortIsResolved(s.(gen := NoGenerator));
      hide *;
    } else {
      OpenIsRunning(s);
      hide Act; hide StatesFit; hide DecodePrd; hide Kept;
      hide Schedule; hide NextPage; hide EndRead; hide Zeros;
      if busy {
        ScheduleIsKept(OpenRead(s), ReadWait);
      } else if !AtEnd(OpenRead(s).gen) {
        NextPageIsKept(OpenRead(s), ToBuffer, ReadWait);
      } else {
        EndReadIsKept(OpenRead(s), busy);
      }
    }
  }

  lemma WriteIsKept(s: Sys, busy: bool)
    requires Running(s)
    ensures Kept(DoDmaWrite(s, busy))
  {
    RunningIsInDma(s);
    if s.d.dmaAborted {
      AbortIsResolved(s.(gen := NoGenerator));
      hide *;
    } else {
      OpenIsRunning(s);
      hide Act; hide StatesFit; hide DecodePrd; hide Kept;
      hide Schedule; hide NextPage; hide RegionDone;
      if busy {
        ScheduleIsKept(OpenWrite(s), WriteWait);
      } else if !AtEnd(OpenWrite(s).gen) {
        NextPageIsKept(OpenWrite(s), FromBuffer, WriteWait);
      } else {
        RegionDoneIsKept(OpenWrite(s).(gen := NoGenerator), busy);
      }
    }
  }

  // ---- Steps and runs of the whole ----

  datatype EngineEvent =
    | Host(acc: Access)
    | BmiCommand(v: Bits) | BmiStatus(v: Bits) | BmiTable(table: seq<Bits>) | BmiRaw(offset: nat, data: seq<Bits>)
    | Due(c: Cont, busy: bool)
    | Moved(which: set<nat>)
    | Finished(c: Cont)

  // What the host must not do: reset the disk during a transfer, start one
  // that no DMA command asked for, start or stop with no disk selected, or
  // write the status byte through the reserved byte before it.
  ghost predicate Allowed(s: Sys, e: EngineEvent) {
    match e
    case Host(acc) => acc.WriteControl? && acc.srst && s.selected ==> !Transferring(s.d)
    case BmiCommand(v) =>
      v[START_STOP] != StartStop(s.bmi) ==>
        && s.selected
        && (v[START_STOP] ==> s.d.dmaState == DmaStart && s.d.devState == TransferDataDma)
    case BmiStatus(_) => true
    case BmiTable(table) => |table| == 4
    case BmiRaw(offset, data) =>
      IsRawWrite(offset, data) && (offset != 1 || |data| == 1 || data[1][ACTIVE] == Active(s.bmi))
    case Due(c, _) => c in s.scheduled
    case Moved(which) =>
      && s.flight.Busy? && which <= s.flight.op.left
      && (forall i :: i in which ==> i < s.flight.op.size && s.flight.op.addr + i < |s.mem|)
      && s.flight.op.offset + s.flight.op.size <= if s.flight.op.target.ToPrd? then PRD_SIZE else MAX_DMA_SIZE
    case Finished(c) => s.flight.Busy? && s.flight.op.left == {} && c in s.held
  }

  ghost function Step(s: Sys, e: EngineEvent): SysResult
    requires WellTyped(s) && Allowed(s, e)
  {
    match e
    case Host(acc) => HostAccess(s, acc)
    case BmiCommand(v) => WriteBmiCommand(s, v)
    case BmiStatus(v) => Fine(s.(bmi := s.bmi.(status := NewStatus(s.bmi.status, v))))
    case BmiTable(t) => Fine(s.(bmi := s.bmi.(dtp0 := t[0][0 := false][1 := false], dtp1 := t[1],
                                              dtp2 := t[2], dtp3 := t[3])))
    case BmiRaw(offset, data) => Fine(s.(bmi := RawWrite(s.bmi, offset, data)))
    case Due(c, busy) => Fire(s, c, busy)
    case Moved(which) => Fine(Move(s, which))
    case Finished(c) => CompleteOp(s, c)
  }

  lemma HostIsKept(s: Sys, acc: Access)
    requires Coherent(s) && Allowed(s, Host(acc))
    ensures Kept(HostAccess(s, acc))
  {
    hide Do; hide Stable; hide StatesFit; hide CountersFit;
    if !acc.WriteControl? || s.selected {
      CoherentGives(s);
      AccessKeepsStable(s.d, acc, true);
      AccessLeavesDma(s.d, acc, true);
    }
  }

  lemma CoherentGives(s: Sys)
    requires Coherent(s)
    ensures WellTyped(s) && Stable(s.d) && DmaFits(s.d)
  {}

  lemma StartIsKept(s: Sys, v: Bits)
    requires Coherent(s) && Allowed(s, BmiCommand(v)) && !StartStop(s.bmi) && v[START_STOP]
    ensures Kept(WriteBmiCommand(s, v))
  {
    hide TableBase; hide AbortDma;
    assert s.scheduled == multiset{} && s.held == multiset{};
    assert s.gen.NoGenerator?;
    assert |s.scheduled + multiset{Transfer}| == 1;
  }

  lemma StopIsKept(s: Sys, v: Bits)
    requires Coherent(s) && Allowed(s, BmiCommand(v)) && StartStop(s.bmi) && !v[START_STOP]
    ensures WriteBmiCommand(s, v).Fine? && Coherent(WriteBmiCommand(s, v).s)
    ensures WriteBmiCommand(s, v).s.d.devState == DeviceDmaAbort
  {
    hide StartDma;
  }

  lemma BmiIsKept(s: Sys, e: EngineEvent)
    requires Coherent(s) && Allowed(s, e)
    requires e.BmiCommand? || e.BmiStatus? || e.BmiTable? || e.BmiRaw?
    ensures Kept(Step(s, e))
  {
    hide Stable; hide StatesFit; hide CountersFit;
    match e
    case BmiCommand(v) =>
      if StartStop(s.bmi) != v[START_STOP] {
        hide WriteBmiCommand;
        if v[START_STOP] { StartIsKept(s, v); } else { StopIsKept(s, v); }
      }
    case BmiStatus(_) =>
    case BmiTable(_) =>
    case BmiRaw(offset, data) => RawWriteKeepsActive(s.bmi, offset, data);
  }

  lemma MoveIsKept(s: Sys, which: set<nat>)
    requires Coherent(s) && Allowed(s, Moved(which))
    ensures Coherent(Move(s, which))
  {
    hide StatesFit; hide CountersFit;
  }

  lemma OnlyOne(m: multiset<Cont>, c: Cont)
    requires |m| == 1 && c in m
    ensures m - multiset{c} == multiset{}
  {
    assert |m - multiset{c}| == 0;
  }

  lemma CompleteIsKept(s: Sys, c: Cont)
    requires Coherent(s) && s.flight.Busy? && c in s.held
    ensures Kept(CompleteOp(s, c))
  {
    hide Stable; hide StatesFit; hide CountersFit;
    OnlyOne(s.held, c);
    assert s.scheduled == multiset{};
    assert s.scheduled + multiset{c} == multiset{c};
    assert s.held == (s.held - multiset{c}) + multiset{c};
    assert s.scheduled + multiset{c} + multiset{} == s.scheduled + s.held;
  }

  lemma StepIsKept(s: Sys, e: EngineEvent)
    requires Coherent(s) && Allowed(s, e)
    ensures Kept(Step(s, e))
  {
    if e.Host? {
      HostIsKept(s, e.acc);
    } else if e.Due? {
      TakenOff(s, e.c);
      var s' := s.(scheduled := s.scheduled - multiset{e.c});
      hide Kept; hide Running; hide DoDmaTransfer; hide PrdReadDone; hide DoDmaRead; hide DoDmaWrite;
      match e.c {
        case Transfer => TransferIsKept(s', e.busy);
        case PrdRead => PrdReadIsKept(s');
        case ReadWait => ReadIsKept(s', e.busy);
        case WriteWait => WriteIsKept(s', e.busy);
      }
    } else if e.Moved? {
      MoveIsKept(s, e.which);
      hide Move; hide Coherent;
    } else if e.Finished? {
      CompleteIsKept(s, e.c);
      hide CompleteOp; hide Coherent;
    } else {
      BmiIsKept(s, e);
    }
  }

  ghost predicate Feasible(s: Sys, es: seq<EngineEvent>)
    requires Coherent(s)
    decreases |es|
  {
    es == [] ||
    (Allowed(s, es[0]) &&
     (var r := Step(s, es[0]);
      StepIsKept(s, es[0]);
      r.Fine? ==> Feasible(r.s, es[1..])))
  }

  ghost function Run(s: Sys, es: seq<EngineEvent>): SysResult
    requires Coherent(s) && Feasible(s, es)
    decreases |es|
  {
    if es == [] then Fine(s)
    else
      StepIsKept(s, es[0]);
      var r := Step(s, es[0]);
      if r.Stop? then r else Run(r.s, es[1..])
  }

  // Over every run: the engine never has two continuations live, never loses
  // the one it has, never schedules one twice and never finds itself in a
  // state it does not expect.
  lemma {:induction false} RunsStayCoherent(s: Sys, es: seq<EngineEvent>)
    requires Coherent(s) && Feasible(s, es)
    ensures Kept(Run(s, es))
    decreases |es|
  {
    assert WellTyped(s);
    hide Step; hide Allowed; hide Coherent; hide WellTyped;
    if es != [] {
      StepIsKept(s, es[0]);
      var r := Step(s, es[0]);
      if r.Fine? { RunsStayCoherent(r.s, es[1..]); }
    }
  }

  // An abort is over with the next event of the engine, whichever it is.
  lemma NextEventResolvesAbort(s: Sys, c: Cont, busy: bool)
    requires Coherent(s) && s.d.devState == DeviceDmaAbort && c in s.scheduled
    ensures Fire(s, c, busy).Fine? && AtRest(Fire(s, c, busy).s)
  {
    hide Act; hide AtRest; hide Running; hide Coherent; hide CurPrd; hide StartOp; hide Schedule; hide LoadSectors;
    hide CountersFit; hide NextPage; hide EndRead; hide RegionDone;
    TakenOff(s, c);
    var s' := s.(scheduled := s.scheduled - multiset{c});
    RunningIsInDma(s');
    RunningWithoutGenerator(s');
    if s'.gen.NoGenerator? { AbortIsResolved(s'); }
    AbortIsResolved(s'.(gen := NoGenerator));
  }

  // The premises hold at power-on.
  lemma PowerOnIsCoherent(s: Sys)
    requires |s.prdBytes| == PRD_SIZE && s.d == Reset(s.d)
    requires s.scheduled == multiset{} && s.held == multiset{} && s.flight == Free && s.gen == NoGenerator
    requires !StartStop(s.bmi) && !Active(s.bmi)
    ensures Coherent(s)
  {
    hide Zeros;
  }

  // ---- Software resets ----

  // The premise about resets is exact: setting the reset bit keeps the
  // invariant unless it reaches a disk with a transfer running.
  lemma ResetIsKeptIff(s: Sys, nien: bool)
    requires Coherent(s)
    ensures WellTyped(s)
    ensures Kept(HostAccess(s, WriteControl(true, nien))) <==> !(s.selected && Transferring(s.d))
  {
    if !(s.selected && Transferring(s.d)) {
      HostIsKept(s, WriteControl(true, nien));
    } else {
      hide Update; hide ReadWord; hide WriteWord; hide Zeros;
      assert HostAccess(s, WriteControl(true, nien)).s.d.devState == DeviceSrst;
    }
  }

  function AfterReset(s: Sys, nien: bool): Sys
    requires WellTyped(s)
  {
    Forgetting(s).(d := Reset(s.d).(nIEN := nien))
  }

  lemma ResetIs(s: Sys, nien: bool)
    requires WellTyped(s) && s.selected
    ensures HostAccess(s, WriteControl(true, nien)).Fine?
    ensures var s1 := HostAccess(s, WriteControl(true, nien)).s;
            WellTyped(s1) && HostAccess(s1, WriteControl(false, nien)) == Fine(AfterReset(s, nien))
    ensures WellTyped(AfterReset(s, nien))
  {
    hide HostAccess; hide Reset; hide CountersFit; hide Zeros;
    var d1 := s.d.(devState := DeviceSrst, status := s.d.status.(bsy := true), nIEN := nien);
    ResetSet(s, nien);
    ResetForgets(s.d, d1.devState, d1.status, nien);
    ResetCleared(s.(d := d1), nien);
  }

  lemma ResetForgets(d: Disk, dev: DevState, st: Status, nien: bool)
    ensures Reset(d.(devState := dev, status := st, nIEN := nien)).(nIEN := nien) == Reset(d).(nIEN := nien)
    ensures Shape(Reset(d).(nIEN := nien)) && Shape(d.(devState := DeviceSrst, status := st, nIEN := nien))
  {
    hide Zeros;
  }

  lemma ResetSet(s: Sys, nien: bool)
    requires WellTyped(s) && s.selected
    ensures HostAccess(s, WriteControl(true, nien)) ==
            Fine(s.(d := s.d.(devState := DeviceSrst, status := s.d.status.(bsy := true), nIEN := nien)))
  {
    hide Update; hide ReadWord; hide WriteWord; hide Reset; hide Forgetting;
  }

  lemma ResetCleared(s: Sys, nien: bool)
    requires WellTyped(s) && s.selected && s.d.devState.DeviceSrst?
    ensures HostAccess(s, WriteControl(false, nien)) == Fine(Forgetting(s).(d := Reset(s.d).(nIEN := nien)))
  {
    hide Update; hide ReadWord; hide WriteWord; hide Zeros; hide Orphaned;
  }

  // Clearing it again does not help: the reset has forgotten the transfer, and
  // its event is still there.
  lemma ResetAndClearIff(s: Sys, nien: bool)
    requires Coherent(s) && s.selected
    ensures WellTyped(s) && HostAccess(s, WriteControl(true, nien)).Fine?
    ensures var s1 := HostAccess(s, WriteControl(true, nien)).s;
            && WellTyped(s1) && HostAccess(s1, WriteControl(false, nien)).Fine?
            && (Coherent(HostAccess(s1, WriteControl(false, nien)).s) <==> !Transferring(s.d))
  {
    ResetIs(s, nien);
    hide Zeros; hide HostAccess; hide Stable;
    ResetIsStable(s, nien);
  }

  lemma ResetIsStable(s: Sys, nien: bool)
    requires Coherent(s)
    ensures Stable(AfterReset(s, nien).d) && DmaFits(AfterReset(s, nien).d)
    ensures !Transferring(AfterReset(s, nien).d)
  {
    hide Zeros;
  }
}
