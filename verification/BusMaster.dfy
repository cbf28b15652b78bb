// The bus-master register file of one IDE channel.
module BusMaster {

  // A register byte, bit 0 first.
  type Bits = b: seq<bool> | |b| == 8 witness [false, false, false, false, false, false, false, false]

  // Eight bytes: command, reserved, status, reserved, and the address of the
  // PRD table, least significant byte first.
  datatype Bmi = Bmi(command: Bits, reserved0: Bits, status: Bits, reserved1: Bits,
                     dtp0: Bits, dtp1: Bits, dtp2: Bits, dtp3: Bits)

  const START_STOP := 0   // in command
  const ACTIVE := 0       // in status
  const DMA_ERROR := 1
  const INT_STATUS := 2

  predicate StartStop(m: Bmi) { m.command[START_STOP] }
  predicate Active(m: Bmi) { m.status[ACTIVE] }

  function Value(b: Bits): nat {
    (if b[0] then 1 else 0) + (if b[1] then 2 else 0) + (if b[2] then 4 else 0) + (if b[3] then 8 else 0)
    + (if b[4] then 16 else 0) + (if b[5] then 32 else 0) + (if b[6] then 64 else 0) + (if b[7] then 128 else 0)
  }

  // The table address without its two lowest bits.
  function TableBase(m: Bmi): nat {
    Value(m.dtp0[0 := false][1 := false]) + 0x100 * Value(m.dtp1)
    + 0x1_0000 * Value(m.dtp2) + 0x100_0000 * Value(m.dtp3)
  }

  function SetActive(m: Bmi, v: bool): Bmi { m.(status := m.status[ACTIVE := v]) }

  // intrPost of the controller, if the disk has called it.
  function Noticed(m: Bmi, posted: bool): Bmi {
    if posted then m.(status := m.status[INT_STATUS := true]) else m
  }

  // setDmaComplete
  function Completed(m: Bmi): Bmi {
    m.(command := m.command[START_STOP := false],
       status := m.status[ACTIVE := false][INT_STATUS := true])
  }

  // The status register: the active bit is read-only, the interrupt and error
  // bits are cleared by writing 1 to them and otherwise kept.
  function NewStatus(was: Bits, written: Bits): Bits {
    written[ACTIVE := was[ACTIVE]]
           [INT_STATUS := if was[INT_STATUS] && written[INT_STATUS] then false else was[INT_STATUS]]
           [DMA_ERROR := if was[DMA_ERROR] && written[DMA_ERROR] then false else was[DMA_ERROR]]
  }

  // Any other offset is copied as it comes; the reserved byte at offset 1 is
  // followed by the status byte, so a wider write there reaches it.
  predicate IsRawWrite(offset: nat, data: seq<Bits>) {
    offset in {1, 3, 5, 6, 7} && |data| in {1, 2, 4} && offset + |data| <= 8
  }

  function Patch(was: Bits, k: nat, offset: nat, data: seq<Bits>): Bits {
    if offset <= k < offset + |data| then data[k - offset] else was
  }

  function RawWrite(m: Bmi, offset: nat, data: seq<Bits>): Bmi
    requires IsRawWrite(offset, data)
  {
    m.(reserved0 := Patch(m.reserved0, 1, offset, data), status := Patch(m.status, 2, offset, data),
       reserved1 := Patch(m.reserved1, 3, offset, data), dtp0 := Patch(m.dtp0, 4, offset, data),
       dtp1 := Patch(m.dtp1, 5, offset, data), dtp2 := Patch(m.dtp2, 6, offset, data),
       dtp3 := Patch(m.dtp3, 7, offset, data))
  }

  // Exactly when such a write leaves the active bit alone.
  lemma RawWriteKeepsActive(m: Bmi, offset: nat, data: seq<Bits>)
    requires IsRawWrite(offset, data)
    ensures StartStop(RawWrite(m, offset, data)) == StartStop(m)
    ensures Active(RawWrite(m, offset, data)) == Active(m)
            <==> offset != 1 || |data| == 1 || data[1][ACTIVE] == Active(m)
  {}
}
