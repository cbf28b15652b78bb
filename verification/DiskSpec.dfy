// The IDE disk as functions on values: its registers, its data buffer, the
// image behind it and the 14-state machine that every register access and
// DMA event drives.
module DiskSpec {
  import opened ByteSeq

  const SECTOR_SIZE: nat := 512
  const MAX_DMA_SIZE: nat := 0x20000

  type Sector = s: seq<byte> | |s| == 512 witness seq(512, _ => 0)

  type Buffer = s: seq<byte> | |s| == 0x20000 witness seq(0x20000, _ => 0)

  datatype Word = Word(lo: byte, hi: byte)

  datatype Command =
    | ReadNativeMax | NonData | Identify
    | ReadSectors | WriteSectors | ReadDma | WriteDma
    | Unsupported

  datatype DevState =
    | DeviceIdleS | DeviceIdleSI | DeviceIdleNS | DeviceSrst
    | CommandExecution
    | PrepareDataIn | DataReadyIntrqIn | TransferDataIn
    | PrepareDataOut | DataReadyIntrqOut | TransferDataOut
    | PrepareDataDma | TransferDataDma | DeviceDmaAbort

  datatype DmaState = DmaIdle | DmaStart | DmaTransfer

  datatype Action =
    | None | CmdWrite | CmdComplete | CmdError | SelectWrite | StatRead | DataReady
    | DataReadByte | DataReadShort | DataWriteByte | DataWriteShort
    | DmaReady | DmaDone | SrstSet | SrstClear

  datatype Status = Status(bsy: bool, drdy: bool, drq: bool, seek: bool, df: bool)

  datatype Place = Master | Slave

  datatype TaskFile = TaskFile(secCount: byte, secNum: byte, cylLow: byte, cylHigh: byte, drive: byte)

  // posts: how often the controller has been told of an interrupt.
  datatype Disk = Disk(
    devState: DevState, dmaState: DmaState, status: Status,
    nIEN: bool, intrPending: bool, posts: nat, dmaAborted: bool, dmaRead: bool,
    data: Word, file: TaskFile, command: Command,
    cmdBytes: nat, cmdBytesLeft: nat, drqBytesLeft: nat, curSector: nat,
    buffer: Buffer, image: seq<Sector>, driveId: Sector, place: Place)

  // Where the simulator would stop.
  datatype Why = PostPending | ClearNonPending | ChsAccess | BadCommand | ImageRange | ByteTransfer | DmaNotIdle

  datatype Result = Ok(d: Disk) | Panic(why: Why)

  function WordAt(b: seq<byte>, k: nat): Word
    requires k + 1 < |b|
  {
    Word(b[k], b[k + 1])
  }

  // A splice keeps the buffer a buffer.
  function Overwrite(b: Buffer, k: nat, s: seq<byte>): Buffer
    requires k + |s| <= MAX_DMA_SIZE
  {
    Splice(b, k, s)
  }

  function LbaBase(d: Disk): nat {
    d.file.drive as nat % 16 * 0x100_0000 + d.file.cylHigh as nat * 0x1_0000
    + d.file.cylLow as nat * 0x100 + d.file.secNum as nat
  }

  predicate LbaMode(d: Disk) { d.file.drive as int / 0x40 % 2 == 1 }

  // A sector count of 0 means 256.
  function CommandSectors(d: Disk): (n: nat)
    ensures 1 <= n <= 256
  {
    if d.file.secCount == 0 then 256 else d.file.secCount as nat
  }

  function Reset(d: Disk): Disk {
    d.(buffer := Zeros(MAX_DMA_SIZE),
       data := Word(0, 0), file := TaskFile(0, 0, 0, 0, 0), command := Unsupported,
       curSector := 0, cmdBytes := 0, cmdBytesLeft := 0, drqBytesLeft := 0,
       dmaRead := false, intrPending := false, dmaAborted := false, dmaState := DmaIdle,
       devState := if d.place.Slave? then DeviceIdleNS else DeviceIdleS,
       status := Status(false, true, false, false, false))
  }

  function Post(d: Disk): Result {
    if d.intrPending then Panic(PostPending) else Ok(d.(intrPending := true, posts := d.posts + 1))
  }

  function Clear(d: Disk): Result {
    if !d.intrPending then Panic(ClearNonPending) else Ok(d.(intrPending := false))
  }

  const COMPLETE := Status(false, true, false, true, false)

  // The way out of a command: status complete, then idle with or without an
  // interrupt.
  function Finish(d: Disk): Result {
    if !d.nIEN then Post(d.(status := COMPLETE, devState := DeviceIdleSI))
    else Ok(d.(status := COMPLETE, devState := DeviceIdleS))
  }

  predicate IsTransient(s: DevState) {
    s.CommandExecution? || s.PrepareDataIn? || s.PrepareDataOut? || s.PrepareDataDma?
  }

  // Bytes left in the block and in the command while data moves by PIO.
  predicate BlockBytes(drqLeft: nat, cmdLeft: nat) {
    && 0 < drqLeft <= SECTOR_SIZE && drqLeft % 2 == 0
    && drqLeft <= cmdLeft && (cmdLeft - drqLeft) % SECTOR_SIZE == 0
  }

  predicate BlockShape(d: Disk) { BlockBytes(d.drqBytesLeft, d.cmdBytesLeft) }

  predicate CountersFit(s: DevState, drqLeft: nat, cmdLeft: nat) {
    match s
    case DataReadyIntrqIn => BlockBytes(drqLeft, cmdLeft)
    case TransferDataIn => BlockBytes(drqLeft, cmdLeft)
    case DataReadyIntrqOut => BlockBytes(drqLeft, cmdLeft)
    case TransferDataOut => BlockBytes(drqLeft, cmdLeft)
    case PrepareDataIn => cmdLeft > 0 && cmdLeft % SECTOR_SIZE == 0
    case PrepareDataOut => cmdLeft % SECTOR_SIZE == 0
    case _ => true
  }

  // States in which the counters mean nothing to the host.
  predicate FreeCounters(s: DevState) {
    && !s.PrepareDataIn? && !s.DataReadyIntrqIn? && !s.TransferDataIn?
    && !s.PrepareDataOut? && !s.DataReadyIntrqOut? && !s.TransferDataOut?
  }

  // The counters are what the state needs them to be: no decrement
  // underflows and no buffer index is out of range.
  predicate Shape(d: Disk) { CountersFit(d.devState, d.drqBytesLeft, d.cmdBytesLeft) }

  // The status while a command is being set up.
  function Busy(s: Status): Status { s.(bsy := true, drq := false, df := false) }

  function NativeMax(d: Disk): Disk {
    var last: nat := (|d.image| - 1) % 0x1_0000_0000;
    d.(file := d.file.(
      secNum := (last % 0x100) as byte,
      cylLow := (last / 0x100 % 0x100) as byte,
      cylHigh := (last / 0x1_0000 % 0x100) as byte,
      drive := (last / 0x100_0000 % 0x10) as byte))
  }

  // Registers of a command that moves sectors.
  function SetUpTransfer(d: Disk, s: DevState): (r: Disk)
    ensures s.PrepareDataIn? || s.PrepareDataOut? || s.PrepareDataDma? ==> Shape(r)
  {
    d.(cmdBytes := CommandSectors(d) * SECTOR_SIZE, cmdBytesLeft := CommandSectors(d) * SECTOR_SIZE,
       curSector := LbaBase(d), status := Busy(d.status), devState := s,
       dmaRead := d.command == WriteDma)
  }

  // One block goes from the image (or the identity) to the buffer.
  function LoadBlock(d: Disk): Result {
    if d.command == Identify then
      Ok(d.(buffer := Overwrite(d.buffer, 0, d.driveId), data := WordAt(d.driveId, 0),
            drqBytesLeft := SECTOR_SIZE, status := d.status.(bsy := false, drq := true)))
    else if d.curSector < |d.image| then
      Ok(d.(buffer := Overwrite(d.buffer, 0, d.image[d.curSector]),
            data := WordAt(d.image[d.curSector], 0), curSector := d.curSector + 1,
            drqBytesLeft := SECTOR_SIZE, status := d.status.(bsy := false, drq := true)))
    else Panic(ImageRange)
  }

  // The host has taken the word in the data register.
  function NextWord(d: Disk): Disk
    requires BlockShape(d)
  {
    d.(drqBytesLeft := d.drqBytesLeft - 2, cmdBytesLeft := d.cmdBytesLeft - 2,
       data := if d.drqBytesLeft == 2 then d.data
               else WordAt(d.buffer, SECTOR_SIZE - d.drqBytesLeft + 2))
  }

  // The word in the data register goes to the buffer.
  function TakeWord(d: Disk): Disk
    requires BlockShape(d)
  {
    d.(buffer := Overwrite(d.buffer, SECTOR_SIZE - d.drqBytesLeft, [d.data.lo, d.data.hi]),
       drqBytesLeft := d.drqBytesLeft - 2, cmdBytesLeft := d.cmdBytesLeft - 2)
  }

  // A full block goes from the buffer to the image.
  function StoreBlock(d: Disk): Result {
    if d.curSector < |d.image| then
      Ok(d.(image := d.image[d.curSector := d.buffer[..SECTOR_SIZE]],
            curSector := d.curSector + 1,
            status := d.status.(bsy := true, seek := true, drq := false),
            devState := PrepareDataOut))
    else Panic(ImageRange)
  }

  // ---- The state machine, one function for each state with work to do ----

  function UpdateSrst(d: Disk, a: Action): (r: Disk)
    requires d.devState.DeviceSrst?
    ensures Shape(r)
  {
    if a == SrstSet then d.(status := d.status.(bsy := true))
    else if a == SrstClear then Reset(d)
    else d
  }

  function UpdateExecution(d: Disk, a: Action): (r: Result)
    requires d.devState.CommandExecution?
    ensures r.Ok? ==> Shape(r.d)
  {
    if a == CmdComplete then Finish(d) else Ok(d)
  }

  function UpdatePrepareIn(d: Disk, a: Action): (r: Result)
    requires Shape(d) && d.devState.PrepareDataIn?
    ensures r.Ok? ==> Shape(r.d)
  {
    hide Overwrite; hide WordAt;
    if a == CmdError then Finish(d)
    else if a == DataReady then
      if LoadBlock(d).Panic? then LoadBlock(d)
      else if !d.nIEN then Post(LoadBlock(d).d.(devState := DataReadyIntrqIn))
      else Ok(LoadBlock(d).d.(devState := TransferDataIn))
    else Ok(d)
  }

  function UpdatePrepareOut(d: Disk, a: Action): (r: Result)
    requires Shape(d) && d.devState.PrepareDataOut?
    ensures r.Ok? ==> Shape(r.d)
  {
    if a == CmdError || d.cmdBytesLeft == 0 then Finish(d)
    else if a == DataReady then
      if d.cmdBytesLeft == d.cmdBytes || d.nIEN then
        Ok(d.(status := d.status.(bsy := false, drq := true), buffer := Zeros(MAX_DMA_SIZE),
              drqBytesLeft := SECTOR_SIZE, devState := TransferDataOut))
      else
        Post(d.(status := d.status.(bsy := false, drq := true), buffer := Zeros(MAX_DMA_SIZE),
                drqBytesLeft := SECTOR_SIZE, devState := DataReadyIntrqOut))
    else Ok(d)
  }

  function UpdatePrepareDma(d: Disk, a: Action): (r: Result)
    requires d.devState.PrepareDataDma?
    ensures r.Ok? ==> Shape(r.d)
  {
    if a == CmdError then Finish(d)
    else if a == DmaReady then
      if d.dmaState != DmaIdle then Panic(DmaNotIdle)
      else Ok(d.(status := d.status.(bsy := false, drq := true),
                 devState := TransferDataDma, dmaState := DmaStart))
    else Ok(d)
  }

  // The state a command enters and the action that then drives it on.
  function Launch(d: Disk): (r: Result)
    ensures r.Ok? ==> IsTransient(r.d.devState) && Shape(r.d)
    ensures r.Ok? ==> r.d.intrPending == d.intrPending && r.d.dmaAborted == d.dmaAborted
    ensures r.Panic? ==> r.why == ChsAccess || r.why == BadCommand
  {
    hide CommandSectors; hide LbaBase; hide LbaMode;
    match d.command
    case ReadNativeMax =>
      Ok(NativeMax(d).(devState := CommandExecution, status := Busy(d.status), dmaRead := false))
    case NonData => Ok(d.(devState := CommandExecution, status := Busy(d.status), dmaRead := false))
    case Identify =>
      Ok(d.(devState := PrepareDataIn, status := Busy(d.status), dmaRead := false,
            cmdBytes := SECTOR_SIZE, cmdBytesLeft := SECTOR_SIZE))
    case ReadSectors => if LbaMode(d) then Ok(SetUpTransfer(d, PrepareDataIn)) else Panic(ChsAccess)
    case WriteSectors => if LbaMode(d) then Ok(SetUpTransfer(d, PrepareDataOut)) else Panic(ChsAccess)
    case ReadDma => if LbaMode(d) then Ok(SetUpTransfer(d, PrepareDataDma)) else Panic(ChsAccess)
    case WriteDma => if LbaMode(d) then Ok(SetUpTransfer(d, PrepareDataDma)) else Panic(ChsAccess)
    case Unsupported => Panic(BadCommand)
  }

  // The nested call that takes the disk out of a transient state.
  function Proceed(d: Disk): (r: Result)
    requires Shape(d) && IsTransient(d.devState)
    ensures r.Ok? ==> Shape(r.d)
  {
    match d.devState
    case CommandExecution => UpdateExecution(d, CmdComplete)
    case PrepareDataIn => UpdatePrepareIn(d, DataReady)
    case PrepareDataOut => UpdatePrepareOut(d, DataReady)
    case PrepareDataDma => UpdatePrepareDma(d, DmaReady)
  }

  function StartCommand(d: Disk): (r: Result)
    ensures r.Ok? ==> Shape(r.d)
  {
    if Launch(d).Panic? then Launch(d) else Proceed(Launch(d).d)
  }

  function UpdateIdle(d: Disk, a: Action, sel: bool): (r: Result)
    ensures r.Ok? && d.devState.DeviceIdleS? ==> Shape(r.d)
  {
    if a == SelectWrite && !sel then Ok(d.(devState := DeviceIdleNS))
    else if a == CmdWrite then StartCommand(d)
    else Ok(d)
  }

  function UpdateIdleIntr(d: Disk, a: Action, sel: bool): (r: Result)
    ensures r.Ok? && d.devState.DeviceIdleSI? ==> Shape(r.d)
  {
    if a == SelectWrite && !sel then Clear(d.(devState := DeviceIdleNS))
    else if a == StatRead || d.nIEN then Clear(d.(devState := DeviceIdleS))
    else if a == CmdWrite then
      if Clear(d).Ok? then StartCommand(Clear(d).d) else Clear(d)
    else Ok(d)
  }

  function UpdateNotSelected(d: Disk, a: Action, sel: bool): (r: Result)
    requires d.devState.DeviceIdleNS?
    ensures r.Ok? ==> Shape(r.d)
  {
    if a == SelectWrite && sel then
      if !d.nIEN && d.intrPending then Post(d.(devState := DeviceIdleSI))
      else Ok(d.(devState := DeviceIdleS))
    else Ok(d)
  }

  function UpdateTransferIn(d: Disk, a: Action): (r: Result)
    requires Shape(d) && d.devState.TransferDataIn?
    ensures r.Ok? ==> Shape(r.d)
  {
    hide Proceed; hide WordAt;
    if a == DataReadByte then Panic(ByteTransfer)
    else if a == DataReadShort then
      if d.drqBytesLeft != 2 then Ok(NextWord(d))
      else if d.cmdBytesLeft == 2 then Ok(NextWord(d).(status := COMPLETE, devState := DeviceIdleS))
      else Proceed(NextWord(d).(devState := PrepareDataIn, status := d.status.(bsy := true, drq := false)))
    else Ok(d)
  }

  function UpdateTransferOut(d: Disk, a: Action): (r: Result)
    requires Shape(d) && d.devState.TransferDataOut?
    ensures r.Ok? ==> Shape(r.d)
  {
    hide Proceed; hide Overwrite;
    if a == DataWriteByte || a == DataWriteShort then
      if d.drqBytesLeft != 2 then Ok(TakeWord(d))
      else if StoreBlock(TakeWord(d)).Panic? then StoreBlock(TakeWord(d))
      else Proceed(StoreBlock(TakeWord(d)).d)
    else Ok(d)
  }

  function UpdateTransferDma(d: Disk, a: Action): (r: Result)
    requires d.devState.TransferDataDma?
    ensures r.Ok? ==> Shape(r.d)
  {
    if a == CmdError then Ok(d.(dmaAborted := true, devState := DeviceDmaAbort))
    else if a == DmaDone then Finish(d)
    else Ok(d)
  }

  function UpdateAbort(d: Disk, a: Action): (r: Result)
    requires d.devState.DeviceDmaAbort?
    ensures r.Ok? ==> Shape(r.d)
  {
    if a == CmdError then Finish(d.(dmaAborted := false, dmaState := DmaIdle)) else Ok(d)
  }

  function UpdateDataReady(d: Disk, a: Action, next: DevState): (r: Result)
    requires BlockShape(d) && Shape(d) && (next.TransferDataIn? || next.TransferDataOut?)
    ensures r.Ok? ==> Shape(r.d)
  {
    if a == StatRead then Clear(d.(devState := next)) else Ok(d)
  }

  // updateState; `sel` is whether the controller has this disk selected.
  function Update(d: Disk, a: Action, sel: bool): (r: Result)
    requires Shape(d)
    ensures r.Ok? ==> Shape(r.d)
  {
    hide UpdateIdle; hide UpdateIdleIntr; hide UpdatePrepareIn; hide UpdateTransferIn;
    hide UpdatePrepareOut; hide UpdateTransferOut; hide StartCommand; hide Proceed;
    hide UpdateSrst; hide UpdateExecution; hide UpdatePrepareDma; hide UpdateNotSelected;
    hide UpdateTransferDma; hide UpdateAbort; hide UpdateDataReady;
    match d.devState
    case DeviceSrst => Ok(UpdateSrst(d, a))
    case DeviceIdleS => UpdateIdle(d, a, sel)
    case DeviceIdleSI => UpdateIdleIntr(d, a, sel)
    case DeviceIdleNS => UpdateNotSelected(d, a, sel)
    case CommandExecution => UpdateExecution(d, a)
    case PrepareDataIn => UpdatePrepareIn(d, a)
    case DataReadyIntrqIn => UpdateDataReady(d, a, TransferDataIn)
    case TransferDataIn => UpdateTransferIn(d, a)
    case PrepareDataOut => UpdatePrepareOut(d, a)
    case DataReadyIntrqOut => UpdateDataReady(d, a, TransferDataOut)
    case TransferDataOut => UpdateTransferOut(d, a)
    case PrepareDataDma => UpdatePrepareDma(d, a)
    case TransferDataDma => UpdateTransferDma(d, a)
    case DeviceDmaAbort => UpdateAbort(d, a)
  }

  // ---- Register accesses ----

  datatype Register = SecCount | SecNum | CylLow | CylHigh

  datatype Access =
    | ReadData16 | ReadData32 | ReadStatus | ReadAltStatus | ReadRegister(from: Register)
    | WriteData16(word: Word) | WriteData32(first: Word, second: Word)
    | WriteRegister(to: Register, value: byte) | WriteDrive(value: byte) | WriteCommand(cmd: Command)
    | WriteControl(srst: bool, nien: bool)

  // What an access returns to the host.
  datatype Reply = Nothing | Words(ws: seq<Word>) | StatusIs(status: Status) | ByteIs(b: byte)

  function RegisterOf(d: Disk, r: Register): byte {
    match r
    case SecCount => d.file.secCount
    case SecNum => d.file.secNum
    case CylLow => d.file.cylLow
    case CylHigh => d.file.cylHigh
  }

  function SetRegister(d: Disk, r: Register, v: byte): Disk {
    match r
    case SecCount => d.(file := d.file.(secCount := v))
    case SecNum => d.(file := d.file.(secNum := v))
    case CylLow => d.(file := d.file.(cylLow := v))
    case CylHigh => d.(file := d.file.(cylHigh := v))
  }

  function WithDrive(d: Disk, v: byte): Disk { d.(file := d.file.(drive := v)) }

  function ReadWord(d: Disk, sel: bool): (r: Result)
    requires Shape(d)
    ensures r.Ok? ==> Shape(r.d)
  {
    Update(d, DataReadShort, sel)
  }

  function WriteWord(d: Disk, w: Word, sel: bool): (r: Result)
    requires Shape(d)
    ensures r.Ok? ==> Shape(r.d)
  {
    hide Update; hide CountersFit;
    Update(d.(data := w), DataWriteShort, sel)
  }

  function SetControl(d: Disk, srst: bool, nien: bool): (r: Disk)
    requires Shape(d)
    ensures Shape(r)
  {
    if srst then UpdateSrst(d.(devState := DeviceSrst), SrstSet).(nIEN := nien)
    else if d.devState.DeviceSrst? then UpdateSrst(d, SrstClear).(nIEN := nien)
    else d.(nIEN := nien)
  }

  // readCommand, readControl, writeCommand and writeControl.  A 32-bit data
  // access is two 16-bit ones.
  function Do(d: Disk, acc: Access, sel: bool): (r: Result)
    requires Shape(d)
    ensures r.Ok? ==> Shape(r.d)
  {
    hide Update; hide ReadWord; hide WriteWord; hide SetControl; hide CountersFit;
    match acc
    case ReadData16 => ReadWord(d, sel)
    case ReadData32 => if ReadWord(d, sel).Panic? then ReadWord(d, sel) else ReadWord(ReadWord(d, sel).d, sel)
    case ReadStatus => Update(d, StatRead, sel)
    case ReadAltStatus => Ok(d)
    case ReadRegister(_) => Ok(d)
    case WriteData16(w) => WriteWord(d, w, sel)
    case WriteData32(w, w') =>
      if WriteWord(d, w, sel).Panic? then WriteWord(d, w, sel) else WriteWord(WriteWord(d, w, sel).d, w', sel)
    case WriteRegister(reg, v) => Ok(SetRegister(d, reg, v))
    case WriteDrive(v) => Update(WithDrive(d, v), SelectWrite, sel)
    case WriteCommand(c) => Update(d.(command := c), CmdWrite, sel)
    case WriteControl(srst, nien) => Ok(SetControl(d, srst, nien))
  }

  function Answer(d: Disk, acc: Access, sel: bool): Reply
    requires Shape(d)
  {
    match acc
    case ReadData16 => Words([d.data])
    case ReadData32 =>
      if ReadWord(d, sel).Panic? then Nothing else Words([d.data, ReadWord(d, sel).d.data])
    case ReadStatus => StatusIs(d.status)
    case ReadAltStatus => StatusIs(d.status)
    case ReadRegister(reg) => ByteIs(RegisterOf(d, reg))
    case _ => Nothing
  }
}
