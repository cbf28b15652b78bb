// What holds between any two register accesses of the disk.
module DiskInvariants {
  import opened ByteSeq
  import opened DiskSpec

  predicate HoldsInterrupt(s: DevState) {
    s.DeviceIdleSI? || s.DataReadyIntrqIn? || s.DataReadyIntrqOut?
  }

  predicate HoldsData(s: DevState) {
    || s.DataReadyIntrqIn? || s.TransferDataIn? || s.DataReadyIntrqOut? || s.TransferDataOut?
    || s.TransferDataDma? || s.DeviceDmaAbort?
  }

  // Between accesses the disk is in no state that only a nested call leaves;
  // outside a software reset it is not busy, requests data exactly in the
  // data states, and has an interrupt pending exactly in the three interrupt
  // states.
  predicate Stable(d: Disk) {
    && Shape(d)
    && !IsTransient(d.devState)
    && (!d.devState.DeviceSrst? ==>
          && !d.status.bsy
          && (d.status.drq <==> HoldsData(d.devState))
          && (d.intrPending <==> HoldsInterrupt(d.devState))
          && (d.dmaAborted <==> d.devState.DeviceDmaAbort?))
  }

  // What a nested call starts from.
  predicate Between(d: Disk) {
    Shape(d) && IsTransient(d.devState) && !d.intrPending && !d.dmaAborted
  }

  predicate InterruptError(r: Result) { r == Panic(PostPending) || r == Panic(ClearNonPending) }

  predicate Good(r: Result) {
    if r.Ok? then Stable(r.d) else !InterruptError(r)
  }

  lemma ProceedIsGood(d: Disk)
    requires Between(d)
    ensures Good(Proceed(d))
  {
    hide Overwrite; hide WordAt;
  }

  lemma StartCommandIsGood(d: Disk)
    requires !d.intrPending && !d.dmaAborted
    ensures Good(StartCommand(d))
  {
    hide Launch; hide Proceed;
    if Launch(d).Ok? { ProceedIsGood(Launch(d).d); }
  }

  lemma IdleIsGood(d: Disk, a: Action, sel: bool)
    requires Stable(d)
    ensures d.devState.DeviceIdleS? ==> Good(UpdateIdle(d, a, sel))
    ensures d.devState.DeviceIdleSI? ==> Good(UpdateIdleIntr(d, a, sel))
    ensures d.devState.DeviceIdleNS? ==> Good(UpdateNotSelected(d, a, sel))
  {
    hide StartCommand; hide Finish;
    if d.devState.DeviceIdleS? || d.devState.DeviceIdleSI? {
      StartCommandIsGood(d.(intrPending := false));
      assert !d.intrPending ==> d.(intrPending := false) == d;
    }
  }

  lemma TransferInIsGood(d: Disk, a: Action)
    requires Stable(d) && d.devState.TransferDataIn?
    ensures Good(UpdateTransferIn(d, a))
  {
    if a == DataReadShort && d.drqBytesLeft == 2 && d.cmdBytesLeft != 2 {
      ProceedIsGood(NextWord(d).(devState := PrepareDataIn, status := d.status.(bsy := true, drq := false)));
    }
  }

  lemma TransferOutIsGood(d: Disk, a: Action)
    requires Stable(d) && d.devState.TransferDataOut?
    ensures Good(UpdateTransferOut(d, a))
  {
    if (a == DataWriteByte || a == DataWriteShort) && d.drqBytesLeft == 2 && StoreBlock(TakeWord(d)).Ok? {
      ProceedIsGood(StoreBlock(TakeWord(d)).d);
    }
  }

  lemma DmaStatesAreGood(d: Disk, a: Action)
    requires Stable(d)
    ensures d.devState.TransferDataDma? ==> Good(UpdateTransferDma(d, a))
    ensures d.devState.DeviceDmaAbort? ==> Good(UpdateAbort(d, a))
    ensures d.devState.DeviceSrst? ==> Stable(UpdateSrst(d, a))
  {}

  lemma DataReadyIsGood(d: Disk, a: Action)
    requires Stable(d)
    ensures d.devState.DataReadyIntrqIn? ==> Good(UpdateDataReady(d, a, TransferDataIn))
    ensures d.devState.DataReadyIntrqOut? ==> Good(UpdateDataReady(d, a, TransferDataOut))
  {}

  // Any of the fifteen actions, in any stable state.
  lemma ActionKeepsStable(d: Disk, a: Action, sel: bool)
    requires Stable(d)
    ensures Good(Update(d, a, sel))
  {
    hide UpdateIdle; hide UpdateIdleIntr; hide UpdateNotSelected; hide UpdateSrst; hide UpdateDataReady;
    hide UpdateTransferIn; hide UpdateTransferOut; hide UpdateTransferDma; hide UpdateAbort;
    IdleIsGood(d, a, sel);
    DmaStatesAreGood(d, a);
    DataReadyIsGood(d, a);
    match d.devState
    case TransferDataIn => TransferInIsGood(d, a);
    case TransferDataOut => TransferOutIsGood(d, a);
    case _ =>
  }

  lemma WordKeepsStable(d: Disk, w: Word, sel: bool)
    requires Stable(d)
    ensures Good(ReadWord(d, sel)) && Good(WriteWord(d, w, sel))
  {
    hide Update;
    ActionKeepsStable(d, DataReadShort, sel);
    ActionKeepsStable(d.(data := w), DataWriteShort, sel);
  }

  lemma ControlKeepsStable(d: Disk, srst: bool, nien: bool)
    requires Stable(d)
    ensures Stable(SetControl(d, srst, nien))
  {}

  lemma AccessKeepsStable(d: Disk, acc: Access, sel: bool)
    requires Stable(d)
    ensures Good(Do(d, acc, sel))
  {
    hide Update; hide ReadWord; hide WriteWord; hide SetControl; hide CountersFit;
    match acc
    case ReadData16 => WordKeepsStable(d, d.data, sel);
    case ReadData32 =>
      WordKeepsStable(d, d.data, sel);
      if ReadWord(d, sel).Ok? { WordKeepsStable(ReadWord(d, sel).d, d.data, sel); }
    case ReadStatus => ActionKeepsStable(d, StatRead, sel);
    case WriteData16(w) => WordKeepsStable(d, w, sel);
    case WriteData32(w, w') =>
      WordKeepsStable(d, w, sel);
      if WriteWord(d, w, sel).Ok? { WordKeepsStable(WriteWord(d, w, sel).d, w', sel); }
    case WriteDrive(v) => ActionKeepsStable(WithDrive(d, v), SelectWrite, sel);
    case WriteCommand(c) => ActionKeepsStable(d.(command := c), CmdWrite, sel);
    case WriteControl(srst, nien) => ControlKeepsStable(d, srst, nien);
    case ReadAltStatus =>
    case ReadRegister(_) =>
    case WriteRegister(_, _) =>
  }

  // What reaches the disk: register accesses from the host, and the two
  // actions that the DMA engine and the bus-master registers cause.
  datatype Event = Access(acc: Access, sel: bool) | DmaError(sel: bool) | DmaFinished(sel: bool)

  function Handle(d: Disk, e: Event): Result
    requires Shape(d)
  {
    match e
    case Access(acc, sel) => Do(d, acc, sel)
    case DmaError(sel) => Update(d, CmdError, sel)
    case DmaFinished(sel) => Update(d, DmaDone, sel)
  }

  function Run(d: Disk, es: seq<Event>): Result
    requires Shape(d)
    decreases |es|
  {
    if es == [] then Ok(d)
    else
      var r := Handle(d, es[0]);
      if r.Panic? then r
      else
        assert Shape(r.d);
        Run(r.d, es[1..])
  }

  // From power-on, no run ends in "post with one pending" or "clear a
  // non-pending interrupt", and every state it passes through is stable.
  lemma {:induction false} RunsStayStable(d: Disk, es: seq<Event>)
    requires Stable(d)
    ensures Good(Run(d, es))
    decreases |es|
  {
    if es != [] {
      match es[0] {
        case Access(acc, sel) => AccessKeepsStable(d, acc, sel);
        case DmaError(sel) => ActionKeepsStable(d, CmdError, sel);
        case DmaFinished(sel) => ActionKeepsStable(d, DmaDone, sel);
      }
      var r := Handle(d, es[0]);
      if r.Ok? { RunsStayStable(r.d, es[1..]); }
    }
  }

  lemma PowerOnRunsStayStable(d: Disk, es: seq<Event>)
    ensures Good(Run(Reset(d), es))
  {
    RunsStayStable(Reset(d), es);
  }

  lemma ProceedKeepsBytes(d: Disk)
    requires Shape(d) && (d.devState.PrepareDataIn? || d.devState.PrepareDataOut?)
    ensures Proceed(d).Ok? ==> Proceed(d).d.cmdBytesLeft == d.cmdBytesLeft
  {
    hide Overwrite; hide WordAt; hide Zeros;
  }

  lemma WordIsTaken(d: Disk)
    requires Shape(d) && d.devState.TransferDataIn?
    ensures var r := UpdateTransferIn(d, DataReadShort); r.Ok? ==> r.d.cmdBytesLeft == d.cmdBytesLeft - 2
  {
    hide Proceed; hide WordAt;
    if d.drqBytesLeft == 2 && d.cmdBytesLeft != 2 {
      ProceedKeepsBytes(NextWord(d).(devState := PrepareDataIn, status := d.status.(bsy := true, drq := false)));
    }
  }

  lemma WordIsGiven(d: Disk)
    requires Shape(d) && d.devState.TransferDataOut?
    ensures var r := UpdateTransferOut(d, DataWriteShort); r.Ok? ==> r.d.cmdBytesLeft == d.cmdBytesLeft - 2
  {
    hide Proceed; hide Overwrite;
    if d.drqBytesLeft == 2 && StoreBlock(TakeWord(d)).Ok? {
      ProceedKeepsBytes(StoreBlock(TakeWord(d)).d);
    }
  }

  lemma ReadWordIgnored(d: Disk, sel: bool)
    requires Stable(d)
    ensures ReadWord(d, sel) == Ok(d) <==> d.devState != TransferDataIn && !(d.devState == DeviceIdleSI && d.nIEN)
  {
    hide Proceed; hide WordAt; hide StartCommand; hide UpdateTransferIn;
    if d.devState.TransferDataIn? { WordIsTaken(d); }
  }

  lemma WriteWordIgnored(d: Disk, w: Word, sel: bool)
    requires Stable(d)
    ensures WriteWord(d, w, sel) == Ok(d.(data := w))
            <==> d.devState != TransferDataOut && !(d.devState == DeviceIdleSI && d.nIEN)
  {
    hide Proceed; hide Overwrite; hide StartCommand; hide UpdateTransferOut;
    if d.devState.TransferDataOut? { WordIsGiven(d.(data := w)); }
  }

  // The data register does something exactly when the status asks for data by
  // PIO: with DRQ set and no interrupt pending one of reading and writing moves
  // a word; at any other time an access changes nothing else, but for the
  // interrupt that disabling interrupts has left pending.
  lemma ReadyToMoveData(d: Disk, w: Word, sel: bool)
    requires Stable(d) && !d.devState.DeviceSrst? && !(d.devState == DeviceIdleSI && d.nIEN)
    requires !d.devState.TransferDataDma? && !d.devState.DeviceDmaAbort?
    ensures ReadWord(d, sel) != Ok(d) || WriteWord(d, w, sel) != Ok(d.(data := w))
            <==> d.status.drq && !d.intrPending
    ensures ReadWord(d, sel) == Ok(d) || WriteWord(d, w, sel) == Ok(d.(data := w))
  {
    hide ReadWord; hide WriteWord; hide CountersFit;
    ReadWordIgnored(d, sel);
    WriteWordIgnored(d, w, sel);
  }

  // With interrupts disabled, a command written while an interrupt is pending
  // is not started; with them enabled it is.
  lemma CommandAfterDisable(d: Disk, c: Command, sel: bool)
    requires Stable(d) && d.devState.DeviceIdleSI?
    ensures Do(d, WriteCommand(c), sel) ==
            if d.nIEN then Ok(d.(command := c, devState := DeviceIdleS, intrPending := false))
            else StartCommand(d.(command := c, intrPending := false))
  {
    hide StartCommand; hide Proceed;
  }
}
