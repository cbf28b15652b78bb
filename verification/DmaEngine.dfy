// The DMA engine of the disk together with the bus-master registers of its
// channel, the DMA port and memory: one disk, alone on its channel.
module DmaEngine {
  import opened ByteSeq
  import opened DiskSpec
  import opened BusMaster
  import opened Chunks

  const PAGE: nat := 4096
  const PRD_SIZE: nat := 8
  const MAX_SINGLE_DMA: nat := 0x1_0000

  // A decoded entry of the physical region descriptor table.
  datatype Prd = Prd(base: nat, count: nat, eot: bool)

  function DecodePrd(b: seq<byte>): Prd
    requires |b| == PRD_SIZE
  {
    var base, count := LittleEndian(b[..4]), LittleEndian(b[4..6]);
    Prd(base - base % 2,
        if count == 0 then MAX_SINGLE_DMA else count - count % 2,
        b[7] >= 0x80)
  }

  lemma {:induction false} LittleEndianBound(b: seq<byte>, bound: nat)
    requires |b| == 2 && bound == 0x1_0000
    ensures LittleEndian(b) < bound
  {
    assert b[1..][1..] == [];
    assert LittleEndian(b[1..]) == b[1] as nat + 0x100 * LittleEndian(b[1..][1..]);
  }

  lemma PrdCountIsSmall(b: seq<byte>)
    requires |b| == PRD_SIZE
    ensures DecodePrd(b).count <= MAX_SINGLE_DMA
  {
    LittleEndianBound(b[4..6], 0x1_0000);
  }

  // What the engine does next when the event comes.
  datatype Cont = Transfer | PrdRead | ReadWait | WriteWait

  // A DMA action that the port is carrying out: bytes offset..offset+size of
  // the buffer (or of the PRD register) against memory from addr on.  A reset
  // gives the disk a new buffer; an action begun before goes on with the old.
  datatype Target = ToBuffer | FromBuffer | ToPrd | ToOld | FromOld(given: Buffer)
  datatype Op = Op(target: Target, addr: nat, size: nat, offset: nat, left: set<nat>)

  datatype Flight = Free | Busy(op: Op)

  // Of the region that it was made for complete bytes have been handed to the
  // port.
  datatype Generator = NoGenerator | At(base: nat, count: nat, complete: nat)

  datatype Sys = Sys(
    d: Disk, bmi: Bmi, selected: bool,
    scheduled: multiset<Cont>, held: multiset<Cont>, flight: Flight,
    prdBytes: seq<byte>, curPrdAddr: nat, gen: Generator,
    mem: seq<byte>)

  datatype Why = DiskPanic(why: DiskSpec.Why) | Inconsistent | AssertFailed | NoDisk

  datatype SysResult = Fine(s: Sys) | Stop(why: Why)

  predicate WellTyped(s: Sys) { Shape(s.d) && |s.prdBytes| == PRD_SIZE }

  function CurPrd(s: Sys): Prd
    requires WellTyped(s)
  {
    DecodePrd(s.prdBytes)
  }

  // The disk has moved on; an interrupt it posted shows in the status.
  function FromDisk(s: Sys, r: Result): SysResult {
    if r.Ok? then Fine(s.(d := r.d, bmi := Noticed(s.bmi, r.d.posts != s.d.posts))) else Stop(DiskPanic(r.why))
  }

  // updateState with its effects on the controller.
  function Act(s: Sys, a: Action): SysResult
    requires WellTyped(s)
  {
    var done := (s.d.devState.TransferDataDma? && a == DmaDone) || (s.d.devState.DeviceDmaAbort? && a == CmdError);
    FromDisk(if done then s.(bmi := Completed(s.bmi)) else s, Update(s.d, a, s.selected))
  }

  // schedule(); an event that is already scheduled stops the simulator.
  function Schedule(s: Sys, c: Cont): SysResult {
    if c in s.scheduled then Stop(Inconsistent) else Fine(s.(scheduled := s.scheduled + multiset{c}))
  }

  // dmaRead() and dmaWrite(): the port holds the event until all is moved.
  function StartOp(s: Sys, target: Target, addr: nat, size: nat, offset: nat, then': Cont): SysResult {
    if s.flight.Busy? then Stop(Inconsistent)
    else Fine(s.(flight := Busy(Op(target, addr, size, offset, Below(size))),
                 held := s.held + multiset{then'}))
  }

  // ---- Register accesses ----

  // Accesses of more than one byte.
  predicate IsWide(acc: Access) { acc.ReadData16? || acc.ReadData32? || acc.WriteData16? || acc.WriteData32? }

  predicate LeavesReset(d: Disk, acc: Access) { d.devState.DeviceSrst? && acc.WriteControl? && !acc.srst }

  // What a reset clears besides the registers of the disk.  The generator and
  // the events stay.
  function Forgetting(s: Sys): Sys {
    s.(prdBytes := Zeros(PRD_SIZE), curPrdAddr := 0, flight := Orphaned(s.flight, s.d.buffer))
  }

  function Orphaned(f: Flight, given: Buffer): Flight {
    if f.Busy? && f.op.target.ToBuffer? then Busy(f.op.(target := ToOld))
    else if f.Busy? && f.op.target.FromBuffer? then Busy(f.op.(target := FromOld(given)))
    else f
  }

  // The channel passes an access to the selected disk; selecting the absent
  // slave leaves nobody to pass it to, and then it has to be one byte wide.
  function HostAccess(s: Sys, acc: Access): SysResult
    requires WellTyped(s)
  {
    var s := if acc.WriteDrive? then s.(selected := acc.value as int / 0x10 % 2 == 0) else s;
    if !s.selected then (if IsWide(acc) then Stop(AssertFailed) else Fine(s))
    else FromDisk(if LeavesReset(s.d, acc) then Forgetting(s) else s, Do(s.d, acc, true))
  }

  function StartDma(s: Sys): SysResult {
    if s.d.dmaState != DmaStart || s.d.devState != TransferDataDma then Stop(Inconsistent)
    else Schedule(s.(curPrdAddr := TableBase(s.bmi), d := s.d.(dmaState := DmaTransfer)), Transfer)
  }

  function AbortDma(s: Sys): SysResult
    requires WellTyped(s)
  {
    if s.d.dmaState == DmaIdle || (s.d.devState != TransferDataDma && s.d.devState != PrepareDataDma)
    then Stop(Inconsistent)
    else Act(s, CmdError)
  }

  // The R/W bit of a running transfer is copied like the rest.
  function WriteBmiCommand(s: Sys, v: Bits): SysResult
    requires WellTyped(s)
  {
    var r :=
      if StartStop(s.bmi) == v[START_STOP] then Fine(s)
      else if !s.selected then Stop(NoDisk)
      else if StartStop(s.bmi) then AbortDma(s.(bmi := SetActive(s.bmi, false)))
      else StartDma(s.(bmi := SetActive(s.bmi, true)));
    if r.Stop? then r else Fine(r.s.(bmi := r.s.bmi.(command := v)))
  }

  // ---- The continuations ----

  // A continuation that finds the disk moving data by PIO would spoil its
  // counters; there the model stops.  DmaCoherence shows that no run gets to a
  // continuation outside the DMA states at all.

  function DoDmaTransfer(s: Sys, busy: bool): SysResult
    requires WellTyped(s)
  {
    if s.d.dmaAborted then Act(s, CmdError)
    else if s.d.dmaState != DmaTransfer || s.d.devState != TransferDataDma then Stop(Inconsistent)
    else if busy then Schedule(s, Transfer)
    else StartOp(s, ToPrd, s.curPrdAddr, PRD_SIZE, 0, PrdRead)
  }

  // cmdBytesLeft is an unsigned 32-bit counter.
  function Less(x: nat): nat { (x - 512) % 0x1_0000_0000 }

  // Sectors of the image into the buffer, one per 512 bytes or part of it.
  function LoadSectors(d: Disk, done: nat, count: nat): (r: Result)
    requires done % 512 == 0 && count <= MAX_SINGLE_DMA && Shape(d) && FreeCounters(d.devState)
    ensures r.Ok? ==> r.d == d.(buffer := r.d.buffer, curSector := r.d.curSector, cmdBytesLeft := r.d.cmdBytesLeft)
    decreases count - done
  {
    if done >= count then Ok(d)
    else if d.curSector < |d.image| then
      LoadSectors(d.(buffer := Overwrite(d.buffer, done, d.image[d.curSector]),
                     curSector := d.curSector + 1, cmdBytesLeft := Less(d.cmdBytesLeft)), done + 512, count)
    else Panic(ImageRange)
  }

  function StoreSectors(d: Disk, done: nat, count: nat): (r: Result)
    requires done % 512 == 0 && count <= MAX_SINGLE_DMA && Shape(d) && FreeCounters(d.devState)
    ensures r.Ok? ==> r.d == d.(image := r.d.image, curSector := r.d.curSector, cmdBytesLeft := r.d.cmdBytesLeft)
    decreases count - done
  {
    if done >= count then Ok(d)
    else if d.curSector < |d.image| then
      StoreSectors(d.(image := d.image[d.curSector := d.buffer[done..done + 512]],
                      curSector := d.curSector + 1, cmdBytesLeft := Less(d.cmdBytesLeft)), done + 512, count)
    else Panic(ImageRange)
  }

  function PrdReadDone(s: Sys): SysResult
    requires WellTyped(s)
  {
    if s.d.dmaAborted then Act(s, CmdError)
    else if !FreeCounters(s.d.devState) then Stop(Inconsistent)
    else
      PrdCountIsSmall(s.prdBytes);
      var next := (s.curPrdAddr + PRD_SIZE) % 0x1_0000_0000;
      if s.d.dmaRead then Schedule(s.(curPrdAddr := next), ReadWait)
      else if s.d.cmdBytesLeft > MAX_DMA_SIZE then Stop(AssertFailed)
      else
        var r := LoadSectors(s.d.(buffer := Zeros(MAX_DMA_SIZE)), 0, CurPrd(s).count);
        if r.Panic? then Stop(DiskPanic(r.why))
        else Schedule(s.(curPrdAddr := next, d := r.d), WriteWait)
  }

  // The end of a region: the last one ends the command.
  function RegionDone(s: Sys, busy: bool): SysResult
    requires WellTyped(s)
  {
    if CurPrd(s).eot then
      if s.d.cmdBytesLeft != 0 then Stop(AssertFailed)
      else Act(s.(d := s.d.(dmaState := DmaIdle)), DmaDone)
    else DoDmaTransfer(s, busy)
  }

  // A region is begun with an empty buffer.
  function OpenRead(s: Sys): Sys
    requires WellTyped(s)
  {
    if s.gen.NoGenerator? then Generate(s).(d := s.d.(buffer := Zeros(MAX_DMA_SIZE))) else s
  }

  function OpenWrite(s: Sys): Sys
    requires WellTyped(s)
  {
    if s.gen.NoGenerator? then Generate(s) else s
  }

  function Generate(s: Sys): Sys
    requires WellTyped(s)
  {
    s.(gen := At(CurPrd(s).base, CurPrd(s).count, 0))
  }

  predicate AtEnd(g: Generator) { g.At? ==> g.complete >= g.count }

  // The next page of the region goes to the port.
  function NextPage(s: Sys, target: Target, then': Cont): SysResult
    requires WellTyped(s) && !AtEnd(s.gen)
  {
    var g, c := s.gen, s.gen.complete;
    var n := FirstSize(g.base + c, g.count - c, PAGE);
    StartOp(s.(gen := g.(complete := c + n)), target, g.base + c, n, c, then')
  }

  function EndRead(s: Sys, busy: bool): SysResult
    requires WellTyped(s) && FreeCounters(s.d.devState)
  {
    PrdCountIsSmall(s.prdBytes);
    var r := StoreSectors(s.d, 0, CurPrd(s).count);
    if r.Panic? then Stop(DiskPanic(r.why)) else RegionDone(s.(gen := NoGenerator, d := r.d), busy)
  }

  function DoDmaRead(s: Sys, busy: bool): SysResult
    requires WellTyped(s)
  {
    if s.d.dmaAborted then Act(s.(gen := NoGenerator), CmdError)
    else if !FreeCounters(s.d.devState) then Stop(Inconsistent)
    else if busy then Schedule(OpenRead(s), ReadWait)
    else if !AtEnd(OpenRead(s).gen) then NextPage(OpenRead(s), ToBuffer, ReadWait)
    else EndRead(OpenRead(s), busy)
  }

  function DoDmaWrite(s: Sys, busy: bool): SysResult
    requires WellTyped(s)
  {
    if s.d.dmaAborted then Act(s.(gen := NoGenerator), CmdError)
    else if !FreeCounters(s.d.devState) then Stop(Inconsistent)
    else if busy then Schedule(OpenWrite(s), WriteWait)
    else if !AtEnd(OpenWrite(s).gen) then NextPage(OpenWrite(s), FromBuffer, WriteWait)
    else RegionDone(OpenWrite(s).(gen := NoGenerator), busy)
  }

  // An event comes due; `busy` is whether the port is in use or draining.
  function Fire(s: Sys, c: Cont, busy: bool): SysResult
    requires WellTyped(s) && c in s.scheduled
  {
    var s' := s.(scheduled := s.scheduled - multiset{c});
    match c
    case Transfer => DoDmaTransfer(s', busy)
    case PrdRead => PrdReadDone(s')
    case ReadWait => DoDmaRead(s', busy)
    case WriteWait => DoDmaWrite(s', busy)
  }

  // ---- The port ----

  // Some bytes of the action are answered: data moves for exactly these.
  function Move(s: Sys, which: set<nat>): Sys
    requires WellTyped(s) && s.flight.Busy? && which <= s.flight.op.left
    requires forall i :: i in which ==> i < s.flight.op.size && s.flight.op.addr + i < |s.mem|
    requires s.flight.op.offset + s.flight.op.size <= if s.flight.op.target.ToPrd? then PRD_SIZE else MAX_DMA_SIZE
  {
    var op := s.flight.op;
    var s' := s.(flight := Busy(op.(left := op.left - which)));
    match op.target
    case FromBuffer =>
      s'.(mem := seq(|s.mem|, a requires 0 <= a < |s.mem| =>
            if a - op.addr in which && 0 <= op.offset + (a - op.addr) < MAX_DMA_SIZE
            then s.d.buffer[op.offset + (a - op.addr)] else s.mem[a]))
    case FromOld(given) =>
      s'.(mem := seq(|s.mem|, a requires 0 <= a < |s.mem| =>
            if a - op.addr in which && 0 <= op.offset + (a - op.addr) < MAX_DMA_SIZE
            then given[op.offset + (a - op.addr)] else s.mem[a]))
    case ToOld => s'
    case ToBuffer =>
      s'.(d := s.d.(buffer := seq(MAX_DMA_SIZE, k requires 0 <= k < MAX_DMA_SIZE =>
            if k - op.offset in which && 0 <= op.addr + (k - op.offset) < |s.mem|
            then s.mem[op.addr + (k - op.offset)] else s.d.buffer[k])))
    case ToPrd =>
      s'.(prdBytes := seq(PRD_SIZE, k requires 0 <= k < PRD_SIZE =>
            if k - op.offset in which && 0 <= op.addr + (k - op.offset) < |s.mem|
            then s.mem[op.addr + (k - op.offset)] else s.prdBytes[k]))
  }

  // The last byte is in: the completion event is scheduled.
  function CompleteOp(s: Sys, c: Cont): SysResult
    requires s.flight.Busy? && c in s.held
  {
    Schedule(s.(flight := Free, held := s.held - multiset{c}), c)
  }
}
