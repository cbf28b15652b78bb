// The disk updated in place.
module IdeDiskDevice {
  import opened ByteSeq
  import opened DiskSpec

  // Where the simulator would stop, a method says why.
  datatype Outcome = Going | Halted(why: Why)

  datatype CommandReg = CommandReg(data: Word, file: TaskFile, command: Command)

  const NO_COMMAND := CommandReg(Word(0, 0), TaskFile(0, 0, 0, 0, 0), Unsupported)

  function Rank(s: DevState): nat {
    if s.DeviceIdleS? || s.DeviceIdleSI? then 3
    else if s.TransferDataIn? || s.TransferDataOut? then 1
    else 0
  }

  // The nested call is the state machine again.
  lemma ProceedIsUpdate(d: Disk, sel: bool)
    requires Shape(d) && IsTransient(d.devState)
    ensures d.devState.CommandExecution? ==> Update(d, CmdComplete, sel) == Proceed(d)
    ensures d.devState.PrepareDataIn? || d.devState.PrepareDataOut? ==> Update(d, DataReady, sel) == Proceed(d)
    ensures d.devState.PrepareDataDma? ==> Update(d, DmaReady, sel) == Proceed(d)
  {
    hide UpdateExecution; hide UpdatePrepareIn; hide UpdatePrepareOut; hide UpdatePrepareDma;
  }

  class IdeDisk {
    const dataBuffer: array<byte>
    const driveID: Sector
    const place: Place

    var devState: DevState
    var dmaState: DmaState
    var status: Status
    var nIENBit: bool
    var intrPending: bool
    var posts: nat                   // calls of the controller
    var dmaAborted: bool
    var dmaRead: bool
    var cmdReg: CommandReg
    var cmdBytes: nat
    var cmdBytesLeft: nat
    var drqBytesLeft: nat
    var curSector: nat
    var image: seq<Sector>

    function Contents(): Buffer
      requires dataBuffer.Length == MAX_DMA_SIZE
      reads dataBuffer
    {
      dataBuffer[..]
    }

    function Model(): Disk
      requires dataBuffer.Length == MAX_DMA_SIZE
      reads this, dataBuffer
    {
      Disk(devState, dmaState, status, nIENBit, intrPending, posts, dmaAborted, dmaRead,
           cmdReg.data, cmdReg.file, cmdReg.command, cmdBytes, cmdBytesLeft, drqBytesLeft, curSector,
           Contents(), image, driveID, place)
    }

    ghost predicate Valid()
      reads this, dataBuffer
    {
      dataBuffer.Length == MAX_DMA_SIZE && Shape(Model())
    }

    // The disk did what the function says, or stopped where it stops.
    ghost predicate Did(o: Outcome, r: Result)
      reads this, dataBuffer
    {
      match r
      case Ok(d) => o == Going && Valid() && Model() == d
      case Panic(w) => o == Halted(w) && dataBuffer.Length == MAX_DMA_SIZE
    }

    constructor (img: seq<Sector>, id: Sector, p: Place)
      ensures Valid() && Model() == Reset(Model())
      ensures image == img && driveID == id && place == p && !nIENBit && posts == 0
      ensures fresh(dataBuffer)
    {
      dataBuffer := new byte[0x20000](_ => 0);
      driveID, place, image := id, p, img;
      devState := if p.Slave? then DeviceIdleNS else DeviceIdleS;
      dmaState, status := DmaIdle, Status(false, true, false, false, false);
      nIENBit, intrPending, dmaAborted, dmaRead, posts := false, false, false, false, 0;
      cmdReg := NO_COMMAND;
      cmdBytes, cmdBytesLeft, drqBytesLeft, curSector := 0, 0, 0, 0;
      new;
      assert dataBuffer[..] == Zeros(MAX_DMA_SIZE);
    }

    // ---- The buffer ----

    // memcpy into the buffer.
    method CopyIn(k: nat, s: seq<byte>)
      requires dataBuffer.Length == MAX_DMA_SIZE && k + |s| <= MAX_DMA_SIZE
      modifies dataBuffer
      ensures dataBuffer[..] == Overwrite(old(dataBuffer[..]), k, s)
    {
      for i := 0 to |s|
        invariant forall j :: 0 <= j < MAX_DMA_SIZE ==>
          dataBuffer[j] == if k <= j < k + i then s[j - k] else old(dataBuffer[j])
      {
        dataBuffer[k + i] := s[i];
      }
      assert dataBuffer[..] == Overwrite(old(dataBuffer[..]), k, s);
    }

    method ClearBuffer()
      requires dataBuffer.Length == MAX_DMA_SIZE
      modifies dataBuffer
      ensures dataBuffer[..] == Zeros(MAX_DMA_SIZE)
    {
      for i := 0 to MAX_DMA_SIZE
        invariant forall j :: 0 <= j < i ==> dataBuffer[j] == 0
      {
        dataBuffer[i] := 0;
      }
    }

    // ---- Interrupts and the end of a command ----

    method IntrPost() returns (o: Outcome)
      requires Valid()
      modifies this`intrPending, this`posts
      ensures Did(o, Post(old(Model())))
    {
      if intrPending {
        return Halted(PostPending);
      }
      intrPending := true;
      posts := posts + 1;
      return Going;
    }

    method IntrClear() returns (o: Outcome)
      requires Valid()
      modifies this`intrPending
      ensures Did(o, Clear(old(Model())))
    {
      if !intrPending {
        return Halted(ClearNonPending);
      }
      intrPending := false;
      return Going;
    }

    // setComplete, then idle with or without an interrupt.
    method FinishCommand() returns (o: Outcome)
      requires dataBuffer.Length == MAX_DMA_SIZE
      modifies this`status, this`devState, this`intrPending, this`posts
      ensures Did(o, Finish(old(Model())))
    {
      status := Status(false, true, false, true, false);
      if nIENBit {
        devState := DeviceIdleS;
        return Going;
      }
      devState := DeviceIdleSI;
      o := IntrPost();
    }

    method ResetCounters()
      requires dataBuffer.Length == MAX_DMA_SIZE
      modifies this`curSector, this`cmdBytes, this`cmdBytesLeft, this`drqBytesLeft
      ensures Model() == old(Model()).(curSector := 0, cmdBytes := 0, cmdBytesLeft := 0, drqBytesLeft := 0)
    {
      curSector, cmdBytes, cmdBytesLeft, drqBytesLeft := 0, 0, 0, 0;
    }

    method ResetDma()
      requires dataBuffer.Length == MAX_DMA_SIZE
      modifies this`dmaRead, this`intrPending, this`dmaAborted, this`dmaState
      ensures Model() == old(Model()).(dmaRead := false, intrPending := false, dmaAborted := false, dmaState := DmaIdle)
    {
      dmaRead, intrPending, dmaAborted, dmaState := false, false, false, DmaIdle;
    }

    method ResetDevice()
      requires dataBuffer.Length == MAX_DMA_SIZE
      modifies this, dataBuffer
      ensures Valid() && Model() == Reset(old(Model()))
    {
      hide Zeros;
      ClearBuffer();
      cmdReg := NO_COMMAND;
      ResetCounters();
      ResetDma();
      devState := if place.Slave? then DeviceIdleNS else DeviceIdleS;
      status := Status(false, true, false, false, false);
    }

    // ---- The state machine ----

    method UpdateStateSrst(a: Action)
      requires Valid() && devState.DeviceSrst?
      modifies this, dataBuffer
      ensures Valid() && Model() == UpdateSrst(old(Model()), a)
    {
      hide Zeros;
      if a == SrstSet {
        status := status.(bsy := true);
      } else if a == SrstClear {
        status := status.(bsy := false);
        ResetDevice();
      }
    }

    // A block of the image, or the identity, is made ready for the host.
    method PrepareBlock() returns (o: Outcome)
      requires Valid() && devState.PrepareDataIn?
      modifies this`status, this`drqBytesLeft, this`curSector, this`cmdReg, dataBuffer
      ensures LoadBlock(old(Model())).Panic? ==> o == Halted(LoadBlock(old(Model())).why)
      ensures LoadBlock(old(Model())).Ok? ==> o == Going && Model() == LoadBlock(old(Model())).d
    {
      hide Overwrite; hide CountersFit;
      status := status.(bsy := false, drq := true);
      drqBytesLeft := SECTOR_SIZE;
      if cmdReg.command == Identify {
        CopyIn(0, driveID);
        cmdReg := cmdReg.(data := WordAt(driveID, 0));
      } else {
        if curSector >= |image| {
          return Halted(ImageRange);
        }
        CopyIn(0, image[curSector]);
        cmdReg := cmdReg.(data := WordAt(image[curSector], 0));
        curSector := curSector + 1;
      }
      return Going;
    }

    method UpdateStatePrepareIn(a: Action) returns (o: Outcome)
      requires Valid() && devState.PrepareDataIn?
      modifies this, dataBuffer
      ensures Did(o, UpdatePrepareIn(old(Model()), a))
    {
      hide Finish; hide LoadBlock;
      if a == CmdError {
        o := FinishCommand();
      } else if a == DataReady {
        ghost var was := Model();
        o := PrepareBlock();
        if o == Going {
          LoadedBlockFits(was);
          if nIENBit {
            devState := TransferDataIn;
          } else {
            devState := DataReadyIntrqIn;
            o := IntrPost();
          }
        }
      } else {
        o := Going;
      }
    }

    // Room is made for a block from the host.
    method AwaitBlock()
      requires dataBuffer.Length == MAX_DMA_SIZE
      modifies this`status, this`drqBytesLeft, dataBuffer
      ensures Model() == old(Model()).(status := old(status).(bsy := false, drq := true),
                                       buffer := Zeros(MAX_DMA_SIZE), drqBytesLeft := SECTOR_SIZE)
    {
      status := status.(bsy := false, drq := true);
      ClearBuffer();
      drqBytesLeft := SECTOR_SIZE;
    }

    method UpdateStatePrepareOut(a: Action) returns (o: Outcome)
      requires Valid() && devState.PrepareDataOut?
      modifies this, dataBuffer
      ensures Did(o, UpdatePrepareOut(old(Model()), a))
    {
      hide Finish; hide Zeros;
      if a == CmdError || cmdBytesLeft == 0 {
        o := FinishCommand();
      } else if a == DataReady {
        AwaitBlock();
        if cmdBytesLeft == cmdBytes || nIENBit {
          devState := TransferDataOut;
          o := Going;
        } else {
          devState := DataReadyIntrqOut;
          o := IntrPost();
        }
      } else {
        o := Going;
      }
    }

    method UpdateStatePrepareDma(a: Action) returns (o: Outcome)
      requires Valid() && devState.PrepareDataDma?
      modifies this, dataBuffer
      ensures Did(o, UpdatePrepareDma(old(Model()), a))
    {
      hide Finish;
      o := Going;
      if a == CmdError {
        o := FinishCommand();
      } else if a == DmaReady {
        status := status.(bsy := false, drq := true);
        devState := TransferDataDma;
        if dmaState != DmaIdle {
          return Halted(DmaNotIdle);
        }
        dmaState := DmaStart;
      }
    }

    method UpdateStateIdle(a: Action, sel: bool) returns (o: Outcome)
      requires Valid() && devState.DeviceIdleS?
      modifies this, dataBuffer
      ensures Did(o, UpdateIdle(old(Model()), a, sel))
      decreases 3, 0
    {
      hide DiskSpec.StartCommand;
      o := Going;
      if a == SelectWrite && !sel {
        devState := DeviceIdleNS;
      } else if a == CmdWrite {
        o := StartCommand(sel);
      }
    }

    method UpdateStateIdleIntr(a: Action, sel: bool) returns (o: Outcome)
      requires Valid() && devState.DeviceIdleSI?
      modifies this, dataBuffer
      ensures Did(o, UpdateIdleIntr(old(Model()), a, sel))
      decreases 3, 0
    {
      hide DiskSpec.StartCommand;
      o := Going;
      if a == SelectWrite && !sel {
        devState := DeviceIdleNS;
        o := IntrClear();
      } else if a == StatRead || nIENBit {
        devState := DeviceIdleS;
        o := IntrClear();
      } else if a == CmdWrite {
        o := IntrClear();
        if o == Going {
          o := StartCommand(sel);
        }
      }
    }

    method UpdateStateNotSelected(a: Action, sel: bool) returns (o: Outcome)
      requires Valid() && devState.DeviceIdleNS?
      modifies this, dataBuffer
      ensures Did(o, UpdateNotSelected(old(Model()), a, sel))
    {
      o := Going;
      if a == SelectWrite && sel {
        if !nIENBit && intrPending {
          devState := DeviceIdleSI;
          o := IntrPost();
        } else {
          devState := DeviceIdleS;
        }
      }
    }

    method UpdateStateDataReady(a: Action, next: DevState) returns (o: Outcome)
      requires Valid() && BlockShape(Model()) && (next.TransferDataIn? || next.TransferDataOut?)
      modifies this, dataBuffer
      ensures Did(o, UpdateDataReady(old(Model()), a, next))
    {
      o := Going;
      if a == StatRead {
        devState := next;
        o := IntrClear();
      }
    }

    // The host has taken a word.
    method NextWordIn()
      requires dataBuffer.Length == MAX_DMA_SIZE && BlockShape(Model())
      modifies this`drqBytesLeft, this`cmdBytesLeft, this`cmdReg
      ensures Model() == NextWord(old(Model()))
    {
      drqBytesLeft := drqBytesLeft - 2;
      cmdBytesLeft := cmdBytesLeft - 2;
      if drqBytesLeft != 0 {
        var k := SECTOR_SIZE - drqBytesLeft;
        cmdReg := cmdReg.(data := Word(dataBuffer[k], dataBuffer[k + 1]));
      }
    }

    // The block is through and another is to come.
    method NextBlockIn(sel: bool) returns (o: Outcome)
      requires dataBuffer.Length == MAX_DMA_SIZE && cmdBytesLeft > 0 && cmdBytesLeft % SECTOR_SIZE == 0
      modifies this, dataBuffer
      ensures Did(o, Proceed(old(Model()).(devState := PrepareDataIn,
                                           status := old(status).(bsy := true, drq := false))))
      decreases 0, 2
    {
      hide Proceed; hide Update;
      devState := PrepareDataIn;
      status := status.(bsy := true, drq := false);
      ProceedIsUpdate(Model(), sel);
      o := UpdateState(DataReady, sel);
    }

    method UpdateStateTransferIn(a: Action, sel: bool) returns (o: Outcome)
      requires Valid() && devState.TransferDataIn?
      modifies this, dataBuffer
      ensures Did(o, UpdateTransferIn(old(Model()), a))
      decreases 1, 0
    {
      hide Proceed; hide WordAt; hide Update; hide NextWord;
      o := Going;
      if a == DataReadByte {
        return Halted(ByteTransfer);
      } else if a == DataReadShort {
        ghost var was := Model();
        NextWordIn();
        NextWordKeeps(was);
        if drqBytesLeft == 0 {
          if cmdBytesLeft == 0 {
            status := Status(false, true, false, true, false);
            devState := DeviceIdleS;
          } else {
            o := NextBlockIn(sel);
          }
        }
      }
    }

    // The word of the host goes to the buffer.
    method TakeWordOut()
      requires dataBuffer.Length == MAX_DMA_SIZE && BlockShape(Model())
      modifies this`drqBytesLeft, this`cmdBytesLeft, dataBuffer
      ensures Model() == TakeWord(old(Model()))
    {
      hide Overwrite;
      CopyIn(SECTOR_SIZE - drqBytesLeft, [cmdReg.data.lo, cmdReg.data.hi]);
      drqBytesLeft := drqBytesLeft - 2;
      cmdBytesLeft := cmdBytesLeft - 2;
    }

    method WriteBlock() returns (o: Outcome)
      requires dataBuffer.Length == MAX_DMA_SIZE
      modifies this`image, this`curSector, this`status, this`devState
      ensures StoreBlock(old(Model())).Panic? ==> o == Halted(ImageRange)
      ensures StoreBlock(old(Model())).Ok? ==> o == Going && Model() == StoreBlock(old(Model())).d
    {
      if curSector >= |image| {
        return Halted(ImageRange);
      }
      image := image[curSector := dataBuffer[..SECTOR_SIZE]];
      curSector := curSector + 1;
      status := status.(bsy := true, seek := true, drq := false);
      devState := PrepareDataOut;
      return Going;
    }

    method UpdateStateTransferOut(a: Action, sel: bool) returns (o: Outcome)
      requires Valid() && devState.TransferDataOut?
      modifies this, dataBuffer
      ensures Did(o, UpdateTransferOut(old(Model()), a))
      decreases 1, 0
    {
      hide Proceed; hide Overwrite; hide Update; hide TakeWord; hide StoreBlock;
      o := Going;
      if a == DataWriteByte || a == DataWriteShort {
        ghost var was := Model();
        TakeWordOut();
        TakeWordKeeps(was);
        if drqBytesLeft == 0 {
          StoreBlockKeeps(Model());
          o := WriteBlock();
          if o == Going {
            ProceedIsUpdate(Model(), sel);
            o := UpdateState(DataReady, sel);
          }
        }
      }
    }

    // The controller's part of the end of a DMA command is in the channel.
    method UpdateStateTransferDma(a: Action) returns (o: Outcome)
      requires Valid() && devState.TransferDataDma?
      modifies this, dataBuffer
      ensures Did(o, UpdateTransferDma(old(Model()), a))
    {
      hide Finish;
      o := Going;
      if a == CmdError {
        dmaAborted := true;
        devState := DeviceDmaAbort;
      } else if a == DmaDone {
        o := FinishCommand();
      }
    }

    method UpdateStateAbort(a: Action) returns (o: Outcome)
      requires Valid() && devState.DeviceDmaAbort?
      modifies this, dataBuffer
      ensures Did(o, UpdateAbort(old(Model()), a))
    {
      hide Finish;
      o := Going;
      if a == CmdError {
        dmaAborted := false;
        dmaState := DmaIdle;
        o := FinishCommand();
      }
    }

    method UpdateState(a: Action, sel: bool) returns (o: Outcome)
      requires Valid()
      modifies this, dataBuffer
      ensures Did(o, Update(old(Model()), a, sel))
      decreases Rank(devState), 1
    {
      hide UpdateIdle; hide UpdateIdleIntr; hide UpdatePrepareIn; hide UpdateTransferIn;
      hide UpdatePrepareOut; hide UpdateTransferOut; hide DiskSpec.StartCommand; hide Proceed;
      hide UpdateSrst; hide UpdateExecution; hide UpdatePrepareDma; hide UpdateNotSelected;
      hide UpdateTransferDma; hide UpdateAbort; hide UpdateDataReady;
      match devState
      case DeviceSrst => UpdateStateSrst(a); o := Going;
      case DeviceIdleS => o := UpdateStateIdle(a, sel);
      case DeviceIdleSI => o := UpdateStateIdleIntr(a, sel);
      case DeviceIdleNS => o := UpdateStateNotSelected(a, sel);
      case CommandExecution => o := UpdateStateExecution(a);
      case PrepareDataIn => o := UpdateStatePrepareIn(a);
      case DataReadyIntrqIn => o := UpdateStateDataReady(a, TransferDataIn);
      case TransferDataIn => o := UpdateStateTransferIn(a, sel);
      case PrepareDataOut => o := UpdateStatePrepareOut(a);
      case DataReadyIntrqOut => o := UpdateStateDataReady(a, TransferDataOut);
      case TransferDataOut => o := UpdateStateTransferOut(a, sel);
      case PrepareDataDma => o := UpdateStatePrepareDma(a);
      case TransferDataDma => o := UpdateStateTransferDma(a);
      case DeviceDmaAbort => o := UpdateStateAbort(a);
    }

    method UpdateStateExecution(a: Action) returns (o: Outcome)
      requires Valid() && devState.CommandExecution?
      modifies this, dataBuffer
      ensures Did(o, UpdateExecution(old(Model()), a))
    {
      hide Finish;
      o := Going;
      if a == CmdComplete {
        o := FinishCommand();
      }
    }

    // ---- Commands ----

    method DecodeNativeMax()
      requires dataBuffer.Length == MAX_DMA_SIZE && !dmaRead
      modifies this`cmdReg, this`devState, this`status
      ensures var d := old(Model());
              Model() == NativeMax(d).(devState := CommandExecution, status := Busy(d.status), dmaRead := false)
    {
      var n := NativeMax(Model());
      cmdReg := cmdReg.(file := n.file);
      devState := CommandExecution;
      status := Busy(status);
    }

    method DecodeIdentify()
      requires dataBuffer.Length == MAX_DMA_SIZE && !dmaRead
      modifies this`cmdBytes, this`cmdBytesLeft, this`devState, this`status
      ensures var d := old(Model());
              Model() == d.(devState := PrepareDataIn, status := Busy(d.status), dmaRead := false,
                            cmdBytes := SECTOR_SIZE, cmdBytesLeft := SECTOR_SIZE)
    {
      cmdBytes, cmdBytesLeft := SECTOR_SIZE, SECTOR_SIZE;
      devState := PrepareDataIn;
      status := Busy(status);
    }

    // The command is decoded; the state it enters says what comes next.
    method DecodeCommand() returns (o: Outcome)
      requires dataBuffer.Length == MAX_DMA_SIZE && !dmaRead
      modifies this
      ensures Did(o, Launch(old(Model())))
    {
      hide CommandSectors; hide LbaBase; hide LbaMode; hide NativeMax; hide SetUpTransfer;
      o := Going;
      match cmdReg.command
      case ReadNativeMax => DecodeNativeMax();
      case NonData =>
        devState := CommandExecution;
        status := Busy(status);
      case Identify => DecodeIdentify();
      case ReadSectors => o := DecodeTransfer(PrepareDataIn);
      case WriteSectors => o := DecodeTransfer(PrepareDataOut);
      case ReadDma => o := DecodeTransfer(PrepareDataDma);
      case WriteDma => o := DecodeTransfer(PrepareDataDma);
      case Unsupported => return Halted(BadCommand);
    }

    method Decode() returns (o: Outcome)
      requires dataBuffer.Length == MAX_DMA_SIZE
      modifies this
      ensures Did(o, Launch(old(Model())))
    {
      hide Launch;
      LaunchSetsDmaRead(Model());
      dmaRead := false;
      o := DecodeCommand();
    }

    method DecodeTransfer(next: DevState) returns (o: Outcome)
      requires dataBuffer.Length == MAX_DMA_SIZE
      requires next.PrepareDataIn? || next.PrepareDataOut? || next.PrepareDataDma?
      modifies this
      ensures Did(o, if LbaMode(old(Model())) then Ok(SetUpTransfer(old(Model()), next)) else Panic(ChsAccess))
    {
      hide CommandSectors; hide LbaBase; hide LbaMode;
      var d := Model();
      if !LbaMode(d) {
        return Halted(ChsAccess);
      }
      cmdBytes := CommandSectors(d) * SECTOR_SIZE;
      cmdBytesLeft := cmdBytes;
      curSector := LbaBase(d);
      dmaRead := cmdReg.command == WriteDma;
      devState := next;
      status := Busy(status);
      return Going;
    }

    method StartCommand(sel: bool) returns (o: Outcome)
      requires Valid()
      modifies this, dataBuffer
      ensures Did(o, DiskSpec.StartCommand(old(Model())))
      decreases 2, 0
    {
      hide Launch; hide Proceed; hide Update;
      o := Decode();
      if o == Going {
        ProceedIsUpdate(Model(), sel);
        o := UpdateState(if devState.CommandExecution? then CmdComplete
                         else if devState.PrepareDataDma? then DmaReady else DataReady, sel);
      }
    }

    // ---- Register accesses ----

    method ReadData16(sel: bool) returns (o: Outcome, w: Word)
      requires Valid()
      modifies this, dataBuffer
      ensures Did(o, Do(old(Model()), Access.ReadData16, sel))
      ensures Words([w]) == Answer(old(Model()), Access.ReadData16, sel)
    {
      hide Update;
      w := cmdReg.data;
      o := UpdateState(DataReadShort, sel);
    }

    method ReadData32(sel: bool) returns (o: Outcome, ws: seq<Word>)
      requires Valid()
      modifies this, dataBuffer
      ensures Did(o, Do(old(Model()), Access.ReadData32, sel))
      ensures o == Going ==> Words(ws) == Answer(old(Model()), Access.ReadData32, sel)
    {
      hide Update;
      ws := [cmdReg.data];
      o := UpdateState(DataReadShort, sel);
      if o == Going {
        ws := ws + [cmdReg.data];
        o := UpdateState(DataReadShort, sel);
      }
    }

    method ReadStatus(sel: bool) returns (o: Outcome, s: Status)
      requires Valid()
      modifies this, dataBuffer
      ensures Did(o, Do(old(Model()), Access.ReadStatus, sel))
      ensures StatusIs(s) == Answer(old(Model()), Access.ReadStatus, sel)
    {
      hide Update;
      s := status;
      o := UpdateState(StatRead, sel);
    }

    method WriteData16(w: Word, sel: bool) returns (o: Outcome)
      requires Valid()
      modifies this, dataBuffer
      ensures Did(o, Do(old(Model()), Access.WriteData16(w), sel))
    {
      hide Update;
      cmdReg := cmdReg.(data := w);
      o := UpdateState(DataWriteShort, sel);
    }

    method WriteData32(w: Word, w': Word, sel: bool) returns (o: Outcome)
      requires Valid()
      modifies this, dataBuffer
      ensures Did(o, Do(old(Model()), Access.WriteData32(w, w'), sel))
    {
      hide Update;
      o := WriteData16(w, sel);
      if o == Going {
        o := WriteData16(w', sel);
      }
    }

    method WriteRegister(r: Register, v: byte)
      requires Valid()
      modifies this`cmdReg
      ensures Did(Going, Do(old(Model()), Access.WriteRegister(r, v), true))
    {
      match r
      case SecCount => cmdReg := cmdReg.(file := cmdReg.file.(secCount := v));
      case SecNum => cmdReg := cmdReg.(file := cmdReg.file.(secNum := v));
      case CylLow => cmdReg := cmdReg.(file := cmdReg.file.(cylLow := v));
      case CylHigh => cmdReg := cmdReg.(file := cmdReg.file.(cylHigh := v));
    }

    method WriteDrive(v: byte, sel: bool) returns (o: Outcome)
      requires Valid()
      modifies this, dataBuffer
      ensures Did(o, Do(old(Model()), Access.WriteDrive(v), sel))
    {
      hide Update;
      cmdReg := cmdReg.(file := cmdReg.file.(drive := v));
      o := UpdateState(SelectWrite, sel);
    }

    method WriteCommand(c: Command, sel: bool) returns (o: Outcome)
      requires Valid()
      modifies this, dataBuffer
      ensures Did(o, Do(old(Model()), Access.WriteCommand(c), sel))
    {
      hide Update;
      cmdReg := cmdReg.(command := c);
      o := UpdateState(CmdWrite, sel);
    }

    method WriteControl(srst: bool, nien: bool)
      requires Valid()
      modifies this, dataBuffer
      ensures Did(Going, Do(old(Model()), Access.WriteControl(srst, nien), true))
    {
      hide UpdateSrst; hide Do; hide CountersFit;
      ControlIs(Model(), srst, nien);
      if srst {
        devState := DeviceSrst;
        assert Shape(Model()) by { SrstFits(Model()); }
        UpdateStateSrst(SrstSet);
      } else if devState.DeviceSrst? {
        UpdateStateSrst(SrstClear);
      }
      nIENBit := nien;
    }
  }

  lemma SrstFits(d: Disk)
    requires d.devState.DeviceSrst?
    ensures Shape(d)
  {}

  lemma ControlIs(d: Disk, srst: bool, nien: bool)
    requires Shape(d)
    ensures Shape(d.(devState := DeviceSrst))
    ensures Do(d, WriteControl(srst, nien), true) ==
            Ok((if srst then UpdateSrst(d.(devState := DeviceSrst), SrstSet)
                else if d.devState.DeviceSrst? then UpdateSrst(d, SrstClear)
                else d).(nIEN := nien))
  {
    hide UpdateSrst;
  }

  lemma LaunchSetsDmaRead(d: Disk)
    ensures Launch(d.(dmaRead := false)) == Launch(d)
  {
    hide CommandSectors; hide LbaBase; hide LbaMode; hide CountersFit;
    LaunchReadsRegisters(d);
  }

  lemma LaunchReadsRegisters(d: Disk)
    ensures var e := d.(dmaRead := false);
            CommandSectors(e) == CommandSectors(d) && LbaBase(e) == LbaBase(d) && LbaMode(e) == LbaMode(d)
  {}

  lemma NextWordKeeps(d: Disk)
    requires BlockShape(d)
    ensures var e := NextWord(d);
            && e.drqBytesLeft == d.drqBytesLeft - 2 && e.cmdBytesLeft == d.cmdBytesLeft - 2
            && e.status == d.status && e.devState == d.devState
  {
    hide WordAt;
  }

  lemma TakeWordKeeps(d: Disk)
    requires BlockShape(d)
    ensures var e := TakeWord(d);
            && e.drqBytesLeft == d.drqBytesLeft - 2 && e.cmdBytesLeft == d.cmdBytesLeft - 2
            && e.devState == d.devState
  {
    hide Overwrite;
  }

  lemma StoreBlockKeeps(d: Disk)
    ensures StoreBlock(d).Panic? ==> StoreBlock(d).why == ImageRange
    ensures StoreBlock(d).Ok? ==>
      var e := StoreBlock(d).d;
      e.devState == PrepareDataOut && e.cmdBytesLeft == d.cmdBytesLeft && e.drqBytesLeft == d.drqBytesLeft
  {}

  lemma LoadedBlockFits(d: Disk)
    requires Shape(d) && d.devState.PrepareDataIn? && LoadBlock(d).Ok?
    ensures BlockShape(LoadBlock(d).d) && LoadBlock(d).d.nIEN == d.nIEN
  {
    hide Overwrite;
  }
}
