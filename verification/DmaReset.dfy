// What a software reset leaves behind of a running transfer.
module DmaReset {
  import opened ByteSeq
  import opened DiskSpec
  import opened Chunks
  import opened DmaEngine
  import opened DmaCoherence
  import opened DmaJob

  // The table entry that a reset leaves: 64 KB at address 0, and not the last.
  const NO_ENTRY: Prd := Prd(0, MAX_SINGLE_DMA, false)
  const SECTORS_OF_NO_ENTRY: nat := 128

  lemma ForgottenEntry(s: Sys)
    requires WellTyped(s) && s.prdBytes == Zeros(PRD_SIZE)
    ensures CurPrd(s) == NO_ENTRY
  {
    var b := s.prdBytes;
    assert LittleEndian(b[..4]) == 0 by { ZerosAreZero(b[..4]); }
    assert LittleEndian(b[4..6]) == 0 by { ZerosAreZero(b[4..6]); }
  }

  // A disk that is idle while an event of a transfer is the only one left.
  ghost predicate Stray(s: Sys, c: Cont) {
    && WellTyped(s) && s.scheduled == multiset{c} && s.held == multiset{} && s.flight == Free
    && s.prdBytes == Zeros(PRD_SIZE) && s.curPrdAddr == 0 && s.d.buffer == Zeros(MAX_DMA_SIZE)
    && s.d.dmaState == DmaIdle && !s.d.dmaAborted && !s.d.dmaRead && s.d.cmdBytesLeft == 0 && s.d.curSector == 0
    && (s.d.devState == DeviceIdleS || s.d.devState == DeviceIdleNS)
  }

  // What the forgotten event then does.  One that would fetch an entry panics.
  // One that has read an entry carries out the empty one, 64 KB from sector 0
  // on, towards memory whatever the direction was, if the image has that many
  // sectors.  A region goes on with the pages it was made for and panics at its
  // end, a WRITE for want of sectors if the image has too few for 64 KB.
  lemma StrayEventAfterReset(s: Sys, nien: bool, c: Cont, busy: bool)
    requires Coherent(s) && Transferring(s.d) && s.selected && c in s.scheduled
    ensures var s2 := AfterReset(s, nien);
            && Stray(s2, c) && c in s2.scheduled && s2.gen == s.gen && s2.mem == s.mem && s2.d.image == s.d.image
            && match c
               case Transfer => Fire(s2, c, busy) == Stop(Inconsistent)
               case PrdRead => CarriesOutNoEntry(s2, Fire(s2, c, busy))
               case ReadWait => 
                 GoesOn(s2, c, busy, Fire(s2, c, busy), ToBuffer,
                        if |s.d.image| >= SECTORS_OF_NO_ENTRY then Inconsistent else DiskPanic(ImageRange))
               case WriteWait => GoesOn(s2, c, busy, Fire(s2, c, busy), FromBuffer, Inconsistent)
  {
    hide Fire; hide AfterReset; hide Coherent; hide CurPrd; hide CarriesOutNoEntry; hide GoesOn;
    CoherentGives(s);
    StrayIs(s, nien, c);
    var s2 := AfterReset(s, nien);
    match c
    case Transfer => StrayFetch(s2, busy);
    case PrdRead => StrayEntry(s2, busy);
    case ReadWait => StrayRead(s2, busy);
    case WriteWait => StrayWrite(s2, busy);
  }

  // The empty entry is begun exactly if the image has its sectors: they are in
  // the buffer, and the counter of bytes left has wrapped round.
  ghost predicate CarriesOutNoEntry(s: Sys, r: SysResult) {
    if |s.d.image| < SECTORS_OF_NO_ENTRY then r == Stop(DiskPanic(ImageRange))
    else
      && r.Fine? && r.s.scheduled == multiset{WriteWait} && r.s.curPrdAddr == PRD_SIZE && r.s.mem == s.mem
      && (forall j :: 0 <= j < SECTORS_OF_NO_ENTRY ==> Slice(r.s.d.buffer, 512 * j) == s.d.image[j])
      && r.s.d.cmdBytesLeft == 0x1_0000_0000 - MAX_SINGLE_DMA && r.s.d.curSector == SECTORS_OF_NO_ENTRY
  }

  // The generator of the region; a new one is made for the empty entry.
  function GeneratorFor(s: Sys): Generator {
    if s.gen.At? then s.gen else At(NO_ENTRY.base, NO_ENTRY.count, 0)
  }

  ghost predicate GoesOn(s: Sys, c: Cont, busy: bool, r: SysResult, target: Target, why: DmaEngine.Why) {
    var g := GeneratorFor(s);
    if busy then r.Fine? && r.s.scheduled == multiset{c} && r.s.gen == g
    else if !AtEnd(g) then
      var n := FirstSize(g.base + g.complete, g.count - g.complete, PAGE);
      && r.Fine? && r.s.scheduled == multiset{} && r.s.held == multiset{c}
      && r.s.gen == g.(complete := g.complete + n)
      && r.s.flight == Busy(Op(target, g.base + g.complete, n, g.complete, Below(n)))
    else r == Stop(why)
  }

  lemma StrayIs(s: Sys, nien: bool, c: Cont)
    requires Coherent(s) && Transferring(s.d) && s.selected && c in s.scheduled
    ensures var s2 := AfterReset(s, nien);
            Stray(s2, c) && s2.gen == s.gen && s2.mem == s.mem && s2.d.image == s.d.image
  {
    hide Zeros; hide DecodePrd;
    TakenOff(s, c);
    assert s.scheduled == (s.scheduled - multiset{c}) + multiset{c};
  }

  lemma StrayFetch(s: Sys, busy: bool)
    requires Stray(s, Transfer)
    ensures Transfer in s.scheduled && Fire(s, Transfer, busy) == Stop(Inconsistent)
  {
    hide Act; hide StartOp; hide Schedule; hide CountersFit;
  }

  lemma StrayEntry(s: Sys, busy: bool)
    requires Stray(s, PrdRead)
    ensures PrdRead in s.scheduled && CarriesOutNoEntry(s, Fire(s, PrdRead, busy))
  {
    hide Act; hide DecodePrd; hide LoadSectors; hide Zeros;
    ForgottenEntry(s);
    assert s.scheduled - multiset{PrdRead} == multiset{};
    LoadsOrPanics(s.d);
    assert multiset{} + multiset{WriteWait} == multiset{WriteWait};
  }

  lemma StrayRead(s: Sys, busy: bool)
    requires Stray(s, ReadWait)
    ensures ReadWait in s.scheduled
    ensures GoesOn(s, ReadWait, busy, Fire(s, ReadWait, busy), ToBuffer,
                   if |s.d.image| >= SECTORS_OF_NO_ENTRY then Inconsistent else DiskPanic(ImageRange))
  {
    hide Act; hide DecodePrd; hide EndRead; hide Zeros; hide Below; hide CountersFit;
    ForgottenEntry(s);
    assert s.scheduled - multiset{ReadWait} == multiset{};
    assert multiset{} + multiset{ReadWait} == multiset{ReadWait};
    StrayReadEnds(OpenRead(s.(scheduled := multiset{})));
  }

  lemma StrayReadEnds(s: Sys)
    requires WellTyped(s) && CurPrd(s) == NO_ENTRY && s.d.dmaState == DmaIdle && !s.d.dmaAborted && s.d.curSector == 0
    requires FreeCounters(s.d.devState)
    ensures EndRead(s, false) ==
            Stop(if |s.d.image| >= SECTORS_OF_NO_ENTRY then Inconsistent else DiskPanic(ImageRange))
  {
    hide Act; hide DecodePrd; hide StoreSectors;
    StoresOrPanics(s.d);
  }

  lemma StrayWrite(s: Sys, busy: bool)
    requires Stray(s, WriteWait)
    ensures WriteWait in s.scheduled
    ensures GoesOn(s, WriteWait, busy, Fire(s, WriteWait, busy), FromBuffer, Inconsistent)
  {
    hide Act; hide DecodePrd; hide Zeros; hide Below; hide CountersFit;
    ForgottenEntry(s);
    assert s.scheduled - multiset{WriteWait} == multiset{};
    assert multiset{} + multiset{WriteWait} == multiset{WriteWait};
  }

  lemma LoadsOrPanics(d: Disk)
    requires Shape(d) && FreeCounters(d.devState) && d.curSector == 0 && d.cmdBytesLeft == 0
    ensures var r := LoadSectors(d, 0, MAX_SINGLE_DMA);
            if |d.image| < SECTORS_OF_NO_ENTRY then r == Panic(ImageRange)
            else && r.Ok? && r.d.curSector == SECTORS_OF_NO_ENTRY
                 && r.d.cmdBytesLeft == 0x1_0000_0000 - MAX_SINGLE_DMA
                 && forall j :: 0 <= j < SECTORS_OF_NO_ENTRY ==> Slice(r.d.buffer, 512 * j) == d.image[j]
  {
    hide LoadSectors;
    if |d.image| < SECTORS_OF_NO_ENTRY {
      TooFewToLoad(d, 0, SECTORS_OF_NO_ENTRY);
    } else {
      LoadedSectors(d, 0, SECTORS_OF_NO_ENTRY);
      var r := LoadSectors(d, 0, MAX_SINGLE_DMA);
      forall j | 0 <= j < SECTORS_OF_NO_ENTRY
        ensures Slice(r.d.buffer, 512 * j) == d.image[j]
      {
        assert Slice(r.d.buffer, 0 + 512 * j) == d.image[d.curSector + j];
      }
    }
  }

  lemma StoresOrPanics(d: Disk)
    requires Shape(d) && FreeCounters(d.devState) && d.curSector == 0
    ensures var r := StoreSectors(d, 0, MAX_SINGLE_DMA);
            if |d.image| < SECTORS_OF_NO_ENTRY then r == Panic(ImageRange) else r.Ok?
  {
    hide StoreSectors;
    if |d.image| < SECTORS_OF_NO_ENTRY { TooFewToStore(d, 0, SECTORS_OF_NO_ENTRY); }
    else { StoredSectors(d, 0, SECTORS_OF_NO_ENTRY); }
  }

  lemma {:induction false} TooFewToLoad(d: Disk, done: nat, m: nat)
    requires done % 512 == 0 && done + 512 * m <= MAX_SINGLE_DMA && FreeCounters(d.devState)
    requires Shape(d) && d.curSector <= |d.image| < d.curSector + m
    ensures LoadSectors(d, done, done + 512 * m) == Panic(ImageRange)
    decreases m
  {
    hide Overwrite;
    if d.curSector < |d.image| {
      assert done + 512 + 512 * (m - 1) == done + 512 * m;
      TooFewToLoad(LoadOne(d, done), done + 512, m - 1);
    }
  }

  lemma {:induction false} TooFewToStore(d: Disk, done: nat, m: nat)
    requires done % 512 == 0 && done + 512 * m <= MAX_SINGLE_DMA && FreeCounters(d.devState)
    requires Shape(d) && d.curSector <= |d.image| < d.curSector + m
    ensures StoreSectors(d, done, done + 512 * m) == Panic(ImageRange)
    decreases m
  {
    if d.curSector < |d.image| {
      assert done + 512 + 512 * (m - 1) == done + 512 * m;
      TooFewToStore(StoreOne(d, done), done + 512, m - 1);
    }
  }

  // ---- A port at work during the reset ----

  // The bytes of a page in flight move as if there had been no reset: a READ
  // gets them from the buffer given up, and a WRITE loses them with it.  Of an
  // entry in flight the bytes answered before the reset are gone.
  lemma PageInFlightGoesOn(s: Sys, nien: bool, which: set<nat>)
    requires WellTyped(s) && s.flight.Busy? && Allowed(s, Moved(which))
    requires !s.flight.op.target.ToOld? && !s.flight.op.target.FromOld?
    ensures var s2 := AfterReset(s, nien);
            && Allowed(s2, Moved(which))
            && var s3 := Move(s2, which);
               && s3.mem == Move(s, which).mem && s3.d == s2.d && s3.scheduled == s2.scheduled && s3.held == s2.held
               && s3.flight.op.left == Move(s, which).flight.op.left
               && forall k :: 0 <= k < PRD_SIZE ==>
                    s3.prdBytes[k] == if s.flight.op.target.ToPrd? && k - s.flight.op.offset in which
                                      then Move(s, which).prdBytes[k] else 0
  {
    hide Reset;
  }

  // When it is all answered, the event is as stray as if it had been scheduled
  // at the reset; only an entry in flight may have got some bytes since.
  lemma StrayAfterPage(s: Sys, nien: bool, which: set<nat>, c: Cont)
    requires Coherent(s) && Transferring(s.d) && s.flight.Busy? && c in s.held && Allowed(s, Moved(which))
    requires !s.flight.op.target.ToOld? && !s.flight.op.target.FromOld?
    ensures Allowed(AfterReset(s, nien), Moved(which))
    ensures var s3 := Move(AfterReset(s, nien), which);
            && s3.flight.Busy? && c in s3.held && CompleteOp(s3, c).Fine?
            && var s4 := CompleteOp(s3, c).s;
               Stray(if s.flight.op.target.ToPrd? then s4.(prdBytes := Zeros(PRD_SIZE)) else s4, c)
  {
    hide Move; hide Coherent;
    StrayWhenDone(s, nien, c);
    CoherentGives(s);
    PageInFlightGoesOn(s, nien, which);
    var s2 := AfterReset(s, nien);
    var s3 := Move(s2, which);
    MoveKeepsRest(s2, which);
    if !s.flight.op.target.ToPrd? { assert s3.prdBytes == Zeros(PRD_SIZE); }
    hide AfterReset; hide Zeros;
  }

  lemma MoveKeepsRest(s: Sys, which: set<nat>)
    requires WellTyped(s) && Allowed(s, Moved(which))
    ensures var s' := Move(s, which);
            s' == s.(flight := s'.flight, mem := s'.mem, prdBytes := s'.prdBytes, d := s'.d)
            && s'.flight.Busy? && |s'.prdBytes| == PRD_SIZE
  {
    hide Shape;
  }

  lemma StrayWhenDone(s: Sys, nien: bool, c: Cont)
    requires Coherent(s) && Transferring(s.d) && c in s.held
    ensures var s2 := AfterReset(s, nien);
            s2.flight.Busy? && CompleteOp(s2, c).Fine? && Stray(CompleteOp(s2, c).s, c)
  {
    hide Zeros; hide StatesFit;
    OnlyOne(s.held, c);
    assert s.scheduled == multiset{};
    assert multiset{} + multiset{c} == multiset{c};
  }
}
