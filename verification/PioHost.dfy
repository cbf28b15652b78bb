// What a host does between moving words: look at status and registers,
// prepare registers for a later command, switch interrupts on and off.
module PioHost {
  import opened ByteSeq
  import opened DiskSpec
  import opened DiskInvariants

  predicate IsQuiet(acc: Access) {
    || acc.ReadStatus? || acc.ReadAltStatus? || acc.ReadRegister? || acc.WriteRegister?
    || (acc.WriteControl? && !acc.srst)
  }

  predicate InCommand(s: DevState) { s == DeviceIdleS || s == DeviceIdleSI || HoldsData(s) }

  // The transfer is where it was; at most an interrupt has been acknowledged.
  predicate SameTransfer(d: Disk, d': Disk) {
    && d'.image == d.image && d'.command == d.command
    && d'.cmdBytes == d.cmdBytes && d'.cmdBytesLeft == d.cmdBytesLeft
    && d'.drqBytesLeft == d.drqBytesLeft && d'.curSector == d.curSector
    && d'.buffer == d.buffer && d'.data == d.data
    && (|| d'.devState == d.devState
        || (d.devState == DataReadyIntrqIn && d'.devState == TransferDataIn)
        || (d.devState == DataReadyIntrqOut && d'.devState == TransferDataOut)
        || (d.devState == DeviceIdleSI && d'.devState == DeviceIdleS))
  }

  lemma CommandWriteStarts(d: Disk, c: Command, sel: bool)
    requires Shape(d) && d.devState == DeviceIdleS
    ensures Do(d, WriteCommand(c), sel) == StartCommand(d.(command := c))
  {
    hide StartCommand;
  }

  // A status read acknowledges the interrupt and does nothing else.
  function Acknowledge(d: Disk): Disk {
    match d.devState
    case DeviceIdleSI => d.(devState := DeviceIdleS, intrPending := false)
    case DataReadyIntrqIn => d.(devState := TransferDataIn, intrPending := false)
    case DataReadyIntrqOut => d.(devState := TransferDataOut, intrPending := false)
    case _ => d
  }

  lemma StatusReadIs(d: Disk, sel: bool)
    requires Stable(d) && InCommand(d.devState)
    ensures Do(d, ReadStatus, sel) == Ok(Acknowledge(d))
  {
    hide StartCommand; hide Proceed;
  }

  lemma ControlWriteIs(d: Disk, nien: bool, sel: bool)
    requires Stable(d) && d.devState != DeviceSrst
    ensures Do(d, WriteControl(false, nien), sel) == Ok(d.(nIEN := nien))
  {
    hide Update; hide ReadWord; hide WriteWord;
  }

  lemma StableHasShape(d: Disk)
    requires Stable(d)
    ensures Shape(d)
    ensures InCommand(d.devState) ==> d.devState != DeviceSrst
  {}

  lemma QuietIs(d: Disk, acc: Access, sel: bool)
    requires Shape(d) && (acc.ReadAltStatus? || acc.ReadRegister? || acc.WriteRegister?)
    ensures Do(d, acc, sel) == Ok(if acc.WriteRegister? then SetRegister(d, acc.to, acc.value) else d)
  {
    hide Update; hide ReadWord; hide WriteWord; hide SetControl; hide CountersFit; hide SetRegister;
  }

  lemma QuietTakesNoWords(d: Disk, acc: Access, sel: bool)
    requires Shape(d) && IsQuiet(acc)
    ensures !Answer(d, acc, sel).Words?
  {
    hide ReadWord; hide CountersFit;
  }

  lemma QuietResultsKeepTransfer(d: Disk, reg: Register, v: byte, nien: bool)
    ensures SameTransfer(d, d) && SameTransfer(d, Acknowledge(d))
    ensures SameTransfer(d, SetRegister(d, reg, v)) && SameTransfer(d, d.(nIEN := nien))
  {}

  lemma QuietKeepsTransfer(d: Disk, acc: Access, sel: bool)
    requires Stable(d) && InCommand(d.devState) && IsQuiet(acc)
    ensures Shape(d)
    ensures var r := Do(d, acc, sel); r.Ok? && Stable(r.d) && SameTransfer(d, r.d)
    ensures !Answer(d, acc, sel).Words?
  {
    StableHasShape(d);
    AccessKeepsStable(d, acc, sel);
    QuietTakesNoWords(d, acc, sel);
    hide Do; hide Stable; hide CountersFit; hide Answer; hide SameTransfer; hide Acknowledge; hide SetRegister;
    if acc.ReadStatus? {
      StatusReadIs(d, sel);
      QuietResultsKeepTransfer(d, SecCount, 0, false);
    } else if acc.WriteControl? {
      ControlWriteIs(d, acc.nien, sel);
      QuietResultsKeepTransfer(d, SecCount, 0, acc.nien);
    } else {
      QuietIs(d, acc, sel);
      if acc.WriteRegister? { QuietResultsKeepTransfer(d, acc.to, acc.value, false); }
      else { QuietResultsKeepTransfer(d, SecCount, 0, false); }
    }
  }
}
