// The channel of the controller and the DMA engine of its disk, updated in
// place.
module IdeChannelDevice {
  import opened ByteSeq
  import opened DiskSpec
  import opened IdeDiskDevice
  import opened BusMaster
  import opened Chunks
  import opened DmaEngine

  datatype Halt = GoingOn | HaltedBy(why: DmaEngine.Why)

  lemma PlainReads(d: Disk, r: Register)
    requires Shape(d)
    ensures Do(d, ReadAltStatus, true) == Ok(d) && Do(d, ReadRegister(r), true) == Ok(d)
  {}

  lemma ActIs(s: Sys, a: Action)
    requires WellTyped(s)
    ensures var done := || (s.d.devState.TransferDataDma? && a == DmaDone)
                        || (s.d.devState.DeviceDmaAbort? && a == CmdError);
            var r, m := Update(s.d, a, s.selected), if done then Completed(s.bmi) else s.bmi;
            Act(s, a) == if r.Panic? then Stop(DiskPanic(r.why))
                         else Fine(s.(d := r.d, bmi := Noticed(m, r.d.posts != s.d.posts)))
  {
    hide Update; hide Completed; hide Noticed;
  }

  class Channel {
    const disk: IdeDisk
    var bmi: Bmi
    var selected: bool
    var scheduled: multiset<Cont>
    var held: multiset<Cont>
    var flight: Flight
    var curPrd: seq<byte>
    var curPrdAddr: nat
    var gen: Generator
    var mem: seq<byte>

    ghost function Model(): Sys
      requires disk.dataBuffer.Length == MAX_DMA_SIZE
      reads this, disk, disk.dataBuffer
    {
      Sys(disk.Model(), bmi, selected, scheduled, held, flight, curPrd, curPrdAddr, gen, mem)
    }

    ghost predicate Valid()
      reads this, disk, disk.dataBuffer
    {
      disk.Valid() && |curPrd| == PRD_SIZE
    }

    ghost predicate Did(h: Halt, r: SysResult)
      reads this, disk, disk.dataBuffer
    {
      match r
      case Fine(s) => h == GoingOn && Valid() && Model() == s
      case Stop(w) => h == HaltedBy(w)
    }

    constructor (d: IdeDisk, memory: seq<byte>)
      requires d.Valid()
      ensures Valid() && disk == d
      ensures Model() == Sys(d.Model(), bmi, true, multiset{}, multiset{}, Free, Zeros(PRD_SIZE), 0,
                             NoGenerator, memory)
      ensures !StartStop(bmi) && !Active(bmi)
    {
      var off: Bits := [false, false, false, false, false, false, false, false];
      disk, mem, selected := d, memory, true;
      bmi := Bmi(off, off, off, off, off, off, off, off);
      scheduled, held, flight := multiset{}, multiset{}, Free;
      curPrd, curPrdAddr, gen := Zeros(PRD_SIZE), 0, NoGenerator;
    }

    // updateState of the disk, with what it tells the controller.
    method UpdateState(a: Action) returns (h: Halt)
      requires Valid()
      modifies this`bmi, disk, disk.dataBuffer
      ensures Did(h, Act(old(Model()), a))
    {
      hide Update; hide Completed; hide Noticed; hide Act; hide CountersFit;
      ActIs(Model(), a);
      if (disk.devState.TransferDataDma? && a == DmaDone) || (disk.devState.DeviceDmaAbort? && a == CmdError) {
        bmi := Completed(bmi);
      }
      var before := disk.posts;
      var o := disk.UpdateState(a, selected);
      bmi := Noticed(bmi, disk.posts != before);
      return if o.Going? then GoingOn else HaltedBy(DiskPanic(o.why));
    }

    method ScheduleEvent(c: Cont) returns (h: Halt)
      requires Valid()
      modifies this`scheduled
      ensures Did(h, Schedule(old(Model()), c))
    {
      if c in scheduled {
        return HaltedBy(Inconsistent);
      }
      scheduled := scheduled + multiset{c};
      return GoingOn;
    }

    method StartAction(target: Target, addr: nat, size: nat, offset: nat, then': Cont) returns (h: Halt)
      requires Valid()
      modifies this`flight, this`held
      ensures Did(h, StartOp(old(Model()), target, addr, size, offset, then'))
    {
      hide Below;
      if flight.Busy? {
        return HaltedBy(Inconsistent);
      }
      flight := Busy(Op(target, addr, size, offset, Below(size)));
      held := held + multiset{then'};
      return GoingOn;
    }

    // accessCommand and accessControl: the drive register selects the disk or
    // the absent slave, then the selected one gets the access.
    method AccessCommand(acc: Access) returns (h: Halt, reply: Reply)
      requires Valid()
      modifies this`selected, this`bmi, this`curPrd, this`curPrdAddr, this`flight, disk, disk.dataBuffer
      ensures Did(h, HostAccess(old(Model()), acc))
      ensures h == GoingOn && selected ==> reply == Answer(old(disk.Model()), acc, true)
      ensures !selected ==> reply == Nothing
    {
      hide Do; hide Answer; hide Noticed;
      if acc.WriteDrive? {
        selected := acc.value as int / 0x10 % 2 == 0;
      }
      if !selected {
        return if IsWide(acc) then HaltedBy(AssertFailed) else GoingOn, Nothing;
      }
      var o;
      var before := disk.posts;
      if disk.devState.DeviceSrst? && acc.WriteControl? && !acc.srst {
        ForgetEntry();
      }
      o, reply := PassOn(acc);
      bmi := Noticed(bmi, disk.posts != before);
      h := if o.Going? then GoingOn else HaltedBy(DiskPanic(o.why));
    }

    // A reset forgets the current table entry and gives up the buffer.
    method ForgetEntry()
      requires disk.dataBuffer.Length == MAX_DMA_SIZE
      modifies this`curPrd, this`curPrdAddr, this`flight
      ensures Model() == Forgetting(old(Model())) && |curPrd| == PRD_SIZE
    {
      curPrd, curPrdAddr := Zeros(PRD_SIZE), 0;
      flight := Orphaned(flight, disk.Contents());
    }

    method PassOn(acc: Access) returns (o: Outcome, reply: Reply)
      requires disk.Valid()
      modifies disk, disk.dataBuffer
      ensures disk.Did(o, Do(old(disk.Model()), acc, true))
      ensures o == Going ==> reply == Answer(old(disk.Model()), acc, true)
    {
      hide Do; hide ReadWord; hide CountersFit;
      o, reply := Going, Nothing;
      match acc
      case ReadData16 =>
        var w;
        o, w := disk.ReadData16(true);
        reply := Words([w]);
      case ReadData32 =>
        var ws;
        o, ws := disk.ReadData32(true);
        reply := Words(ws);
      case ReadStatus =>
        var s;
        o, s := disk.ReadStatus(true);
        reply := StatusIs(s);
      case ReadAltStatus =>
        PlainReads(disk.Model(), SecCount);
        reply := StatusIs(disk.status);
      case ReadRegister(r) =>
        PlainReads(disk.Model(), r);
        reply := ByteIs(RegisterOf(disk.Model(), r));
      case WriteData16(w) => o := disk.WriteData16(w, true);
      case WriteData32(w, w') => o := disk.WriteData32(w, w', true);
      case WriteRegister(r, v) => disk.WriteRegister(r, v);
      case WriteDrive(v) => o := disk.WriteDrive(v, true);
      case WriteCommand(c) => o := disk.WriteCommand(c, true);
      case WriteControl(srst, nien) => disk.WriteControl(srst, nien);
    }

    // ---- The bus-master registers ----

    method StartDmaTransfer() returns (h: Halt)
      requires Valid()
      modifies this, disk
      ensures Did(h, StartDma(old(Model())))
    {
      hide CountersFit;
      if disk.dmaState != DmaStart || disk.devState != TransferDataDma {
        return HaltedBy(Inconsistent);
      }
      curPrdAddr := TableBase(bmi);
      disk.dmaState := DmaTransfer;
      h := ScheduleEvent(Transfer);
    }

    method AbortDmaTransfer() returns (h: Halt)
      requires Valid()
      modifies this, disk, disk.dataBuffer
      ensures Did(h, AbortDma(old(Model())))
    {
      hide Act;
      if disk.dmaState == DmaIdle || (disk.devState != TransferDataDma && disk.devState != PrepareDataDma) {
        return HaltedBy(Inconsistent);
      }
      h := UpdateState(CmdError);
    }

    method WriteCommandRegister(v: Bits) returns (h: Halt)
      requires Valid()
      modifies this, disk, disk.dataBuffer
      ensures Did(h, WriteBmiCommand(old(Model()), v))
    {
      hide StartDma; hide AbortDma; hide CountersFit;
      h := GoingOn;
      if bmi.command[START_STOP] != v[START_STOP] {
        if !selected {
          return HaltedBy(NoDisk);
        }
        if bmi.command[START_STOP] {
          bmi := SetActive(bmi, false);
          h := AbortDmaTransfer();
        } else {
          bmi := SetActive(bmi, true);
          h := StartDmaTransfer();
        }
      }
      if h == GoingOn {
        bmi := bmi.(command := v);
      }
    }

    method WriteStatusRegister(v: Bits)
      requires Valid()
      modifies this`bmi
      ensures Valid() && Model() == old(Model()).(bmi := old(bmi).(status := NewStatus(old(bmi).status, v)))
    {
      var was, new' := bmi.status, v;
      new' := new'[ACTIVE := was[ACTIVE]];
      if was[INT_STATUS] && new'[INT_STATUS] {
        new' := new'[INT_STATUS := false];
      } else {
        new' := new'[INT_STATUS := was[INT_STATUS]];
      }
      if was[DMA_ERROR] && new'[DMA_ERROR] {
        new' := new'[DMA_ERROR := false];
      } else {
        new' := new'[DMA_ERROR := was[DMA_ERROR]];
      }
      bmi := bmi.(status := new');
    }

    // ---- The continuations ----

    method DoTransfer(busy: bool) returns (h: Halt)
      requires Valid()
      modifies this, disk, disk.dataBuffer
      ensures Did(h, DoDmaTransfer(old(Model()), busy))
    {
      hide Act; hide Below; hide CountersFit;
      if disk.dmaAborted {
        h := UpdateState(CmdError);
      } else if disk.dmaState != DmaTransfer || disk.devState != TransferDataDma {
        return HaltedBy(Inconsistent);
      } else if busy {
        h := ScheduleEvent(Transfer);
      } else {
        h := StartAction(ToPrd, curPrdAddr, PRD_SIZE, 0, PrdRead);
      }
    }

    // Sectors of the image go to the buffer until the region is covered.
    method ReadSectors(count: nat) returns (o: Outcome)
      requires disk.Valid() && count <= MAX_SINGLE_DMA && FreeCounters(disk.devState)
      modifies disk, disk.dataBuffer
      ensures disk.Did(o, LoadSectors(old(disk.Model()), 0, count))
    {
      hide Overwrite; hide CountersFit;
      ghost var all := LoadSectors(disk.Model(), 0, count);
      var bytesRead := 0;
      while bytesRead < count
        invariant disk.Valid() && FreeCounters(disk.devState) && bytesRead % 512 == 0
        invariant all == LoadSectors(disk.Model(), bytesRead, count)
        decreases count - bytesRead
      {
        if disk.curSector >= |disk.image| {
          return Halted(ImageRange);
        }
        ReadOne(bytesRead);
        bytesRead := bytesRead + 512;
      }
      return Going;
    }

    method ReadOne(k: nat)
      requires disk.Valid() && k + 512 <= MAX_DMA_SIZE && FreeCounters(disk.devState)
      requires disk.curSector < |disk.image|
      modifies disk, disk.dataBuffer
      ensures disk.Valid()
      ensures var d := old(disk.Model());
              disk.Model() == d.(buffer := Overwrite(d.buffer, k, d.image[d.curSector]), curSector := d.curSector + 1,
                                 cmdBytesLeft := Less(d.cmdBytesLeft))
    {
      hide Overwrite;
      disk.CopyIn(k, disk.image[disk.curSector]);
      disk.curSector := disk.curSector + 1;
      disk.cmdBytesLeft := Less(disk.cmdBytesLeft);
    }

    // And back.
    method WriteSectors(count: nat) returns (o: Outcome)
      requires disk.Valid() && count <= MAX_SINGLE_DMA && FreeCounters(disk.devState)
      modifies disk
      ensures disk.Did(o, StoreSectors(old(disk.Model()), 0, count))
    {
      hide CountersFit;
      ghost var all := StoreSectors(disk.Model(), 0, count);
      var bytesWritten := 0;
      while bytesWritten < count
        invariant disk.Valid() && FreeCounters(disk.devState) && bytesWritten % 512 == 0
        invariant all == StoreSectors(disk.Model(), bytesWritten, count)
        decreases count - bytesWritten
      {
        if disk.curSector >= |disk.image| {
          return Halted(ImageRange);
        }
        WriteOne(bytesWritten);
        bytesWritten := bytesWritten + 512;
      }
      return Going;
    }

    method WriteOne(k: nat)
      requires disk.Valid() && k + 512 <= MAX_DMA_SIZE && FreeCounters(disk.devState)
      requires disk.curSector < |disk.image|
      modifies disk
      ensures disk.Valid()
      ensures var d := old(disk.Model());
              disk.Model() == d.(image := d.image[d.curSector := d.buffer[k..k + 512]], curSector := d.curSector + 1,
                                 cmdBytesLeft := Less(d.cmdBytesLeft))
    {
      disk.cmdBytesLeft := Less(disk.cmdBytesLeft);
      disk.image := disk.image[disk.curSector := disk.dataBuffer[k..k + 512]];
      disk.curSector := disk.curSector + 1;
    }

    // dmaPrdReadDone, with doDmaDataRead and doDmaDataWrite.
    method PrdDone() returns (h: Halt)
      requires Valid()
      modifies this, disk, disk.dataBuffer
      ensures Did(h, PrdReadDone(old(Model())))
    {
      hide Act; hide LoadSectors; hide DecodePrd; hide CountersFit; hide Zeros;
      if disk.dmaAborted {
        h := UpdateState(CmdError);
      } else if !FreeCounters(disk.devState) {
        return HaltedBy(Inconsistent);
      } else {
        PrdCountIsSmall(curPrd);
        curPrdAddr := (curPrdAddr + PRD_SIZE) % 0x1_0000_0000;
        if disk.dmaRead {
          h := ScheduleEvent(ReadWait);
        } else {
          h := LoadRegion();
        }
      }
    }

    method LoadRegion() returns (h: Halt)
      requires Valid() && FreeCounters(disk.devState)
      modifies this`scheduled, disk, disk.dataBuffer
      ensures DecodePrd(curPrd).count <= MAX_SINGLE_DMA
      ensures var s := old(Model());
              var r := LoadSectors(s.d.(buffer := Zeros(MAX_DMA_SIZE)), 0, DecodePrd(old(curPrd)).count);
              Did(h, if s.d.cmdBytesLeft > MAX_DMA_SIZE then Stop(AssertFailed)
                     else if r.Panic? then Stop(DiskPanic(r.why))
                     else Schedule(s.(d := r.d), WriteWait))
    {
      hide LoadSectors; hide DecodePrd; hide CountersFit; hide Zeros;
      PrdCountIsSmall(curPrd);
      disk.ClearBuffer();
      if disk.cmdBytesLeft > MAX_DMA_SIZE {
        return HaltedBy(AssertFailed);
      }
      var o := ReadSectors(DecodePrd(curPrd).count);
      if o.Halted? {
        return HaltedBy(DiskPanic(o.why));
      }
      h := ScheduleEvent(WriteWait);
    }

    method EndOfRegion(busy: bool) returns (h: Halt)
      requires Valid()
      modifies this, disk, disk.dataBuffer
      ensures Did(h, RegionDone(old(Model()), busy))
    {
      hide Act; hide DoDmaTransfer; hide DecodePrd; hide CountersFit;
      if DecodePrd(curPrd).eot {
        if disk.cmdBytesLeft != 0 {
          return HaltedBy(AssertFailed);
        }
        disk.dmaState := DmaIdle;
        h := UpdateState(DmaDone);
      } else {
        h := DoTransfer(busy);
      }
    }

    // The generator hands out the next page.
    method StartPage(target: Target, then': Cont) returns (h: Halt)
      requires Valid() && !AtEnd(gen)
      modifies this`gen, this`flight, this`held
      ensures Did(h, NextPage(old(Model()), target, then'))
    {
      hide DecodePrd; hide StartOp; hide CountersFit;
      var g, c := gen, gen.complete;
      var n := FirstSize(g.base + c, g.count - c, PAGE);
      gen := g.(complete := c + n);
      h := StartAction(target, g.base + c, n, c, then');
    }

    method ReadDone(busy: bool) returns (h: Halt)
      requires Valid() && FreeCounters(disk.devState)
      modifies this, disk, disk.dataBuffer
      ensures Did(h, EndRead(old(Model()), busy))
    {
      hide StoreSectors; hide RegionDone; hide DecodePrd; hide CountersFit;
      PrdCountIsSmall(curPrd);
      gen := NoGenerator;
      var o := WriteSectors(DecodePrd(curPrd).count);
      if o.Halted? {
        return HaltedBy(DiskPanic(o.why));
      }
      h := EndOfRegion(busy);
    }

    method OpenReadRegion()
      requires Valid()
      modifies this`gen, disk.dataBuffer
      ensures Valid() && Model() == OpenRead(old(Model())) && gen.At?
    {
      hide Zeros; hide CountersFit;
      if gen.NoGenerator? {
        disk.ClearBuffer();
        gen := At(DecodePrd(curPrd).base, DecodePrd(curPrd).count, 0);
      }
    }

    method DoRead(busy: bool) returns (h: Halt)
      requires Valid()
      modifies this, disk, disk.dataBuffer
      ensures Did(h, DoDmaRead(old(Model()), busy))
    {
      hide Act; hide NextPage; hide EndRead; hide DecodePrd; hide CountersFit; hide Zeros; hide Schedule;
      if disk.dmaAborted {
        gen := NoGenerator;
        h := UpdateState(CmdError);
      } else if !FreeCounters(disk.devState) {
        return HaltedBy(Inconsistent);
      } else {
        OpenReadRegion();
        if busy {
          h := ScheduleEvent(ReadWait);
        } else if !AtEnd(gen) {
          h := StartPage(ToBuffer, ReadWait);
        } else {
          h := ReadDone(busy);
        }
      }
    }

    method DoWrite(busy: bool) returns (h: Halt)
      requires Valid()
      modifies this, disk, disk.dataBuffer
      ensures Did(h, DoDmaWrite(old(Model()), busy))
    {
      hide Act; hide NextPage; hide RegionDone; hide DecodePrd; hide CountersFit; hide Schedule;
      if disk.dmaAborted {
        gen := NoGenerator;
        h := UpdateState(CmdError);
      } else if !FreeCounters(disk.devState) {
        return HaltedBy(Inconsistent);
      } else {
        if gen.NoGenerator? {
          gen := At(DecodePrd(curPrd).base, DecodePrd(curPrd).count, 0);
        }
        if busy {
          h := ScheduleEvent(WriteWait);
        } else if !AtEnd(gen) {
          h := StartPage(FromBuffer, WriteWait);
        } else {
          gen := NoGenerator;
          h := EndOfRegion(busy);
        }
      }
    }

    // An event comes due.
    method Process(c: Cont, busy: bool) returns (h: Halt)
      requires Valid() && c in scheduled
      modifies this, disk, disk.dataBuffer
      ensures Did(h, Fire(old(Model()), c, busy))
    {
      hide DoDmaTransfer; hide PrdReadDone; hide DoDmaRead; hide DoDmaWrite; hide CountersFit;
      scheduled := scheduled - multiset{c};
      match c
      case Transfer => h := DoTransfer(busy);
      case PrdRead => h := PrdDone();
      case ReadWait => h := DoRead(busy);
      case WriteWait => h := DoWrite(busy);
    }
  }
}
