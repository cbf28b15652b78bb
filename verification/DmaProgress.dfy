// DMA commands come to their end: what is left to do shrinks with every
// event that is not a back-off, and there always is such an event.
module DmaProgress {
  import opened ByteSeq
  import opened DiskSpec
  import opened DiskInvariants
  import opened DmaEngine
  import opened DmaCoherence
  import opened DmaJob
  import opened DmaTransfer
  import DmaReadJob
  import DmaWriteJob

  // More than a region ever takes, and more than an entry with its region.
  const REGION: int := 0x3_0002
  const ENTRY: int := 0x3_0010

  // Bytes of the action that are still to be answered.
  function Open(op: Op): nat { |op.left * Below(op.size)| }

  lemma OpenOfAll(target: Target, addr: nat, size: nat, offset: nat)
    ensures Open(Op(target, addr, size, offset, Below(size))) == size
  {
    BelowCard(size);
    assert Below(size) * Below(size) == Below(size);
  }

  lemma OpenOfNone(op: Op)
    requires op.left == {}
    ensures Open(op) == 0
  {
    assert op.left * Below(op.size) == {};
  }

  lemma OpenIsBounded(op: Op)
    ensures Open(op) <= op.size
  {
    BelowCard(op.size);
    SubsetCard(op.left * Below(op.size), Below(op.size));
  }

  lemma {:induction false} SubsetCard(a: set<nat>, b: set<nat>)
    requires a <= b
    ensures |a| <= |b|
    decreases |a|
  {
    if a != {} {
      var x :| x in a;
      SubsetCard(a - {x}, b - {x});
    }
  }

  lemma OpenShrinks(op: Op, which: set<nat>)
    requires which != {} && which <= op.left && forall i :: i in which ==> i < op.size
    ensures Open(op.(left := op.left - which)) < Open(op)
  {
    var x :| x in which;
    var a, b := (op.left - which) * Below(op.size), op.left * Below(op.size);
    assert a <= b - {x};
    SubsetCard(a, b - {x});
  }

  predicate IsFetch(s: Sys) {
    Transfer in s.scheduled || PrdRead in s.scheduled || (s.flight.Busy? && s.flight.op.target == ToPrd)
  }

  // What the entry at hand still takes.
  function Local(s: Sys): int
    requires |s.prdBytes| == PRD_SIZE
  {
    if Transfer in s.scheduled then REGION + 11
    else if s.flight.Busy? && s.flight.op.target == ToPrd then REGION + 2 + Open(s.flight.op)
    else if PrdRead in s.scheduled then REGION + 1
    else 3 * (DecodePrd(s.prdBytes).count - Handed(s)) + if s.flight.Busy? then Open(s.flight.op) + 2 else 1
  }

  // And with the entries after it.
  function Effort(s: Sys, job: Job): int
    requires |s.prdBytes| == PRD_SIZE
  {
    var done := (s.curPrdAddr - job.table) / PRD_SIZE;
    ENTRY * (|job.prds| - done - if IsFetch(s) then 1 else 0) + Local(s)
  }

  // ---- Between what bounds ----

  lemma FetchEffort(s: Sys, job: Job, k: nat)
    requires Working(s) && Fetching(s, job, k)
    ensures |s.prdBytes| == PRD_SIZE && IsFetch(s)
    ensures Effort(s, job) == ENTRY * (|job.prds| - k - 1) + Local(s)
    ensures REGION + 1 <= Local(s) <= REGION + 11
  {
    hide Working; hide DecodePrd; hide Entry; hide ReadingEntry; hide Open;
    WorkingIs(s);
    assert (s.curPrdAddr - job.table) / PRD_SIZE == k;
    assert Transfer in multiset{Transfer} && PrdRead in multiset{PrdRead} && Transfer !in multiset{PrdRead};
    if s.flight.Busy? {
      FetchIsToPrd(s, job, k);
      OpenIsBounded(s.flight.op);
    }
  }

  lemma WorkingIs(s: Sys)
    requires Working(s)
    ensures WellTyped(s) && |s.prdBytes| == PRD_SIZE && (s.flight.Busy? ==> s.scheduled == multiset{})
  {
    hide Stable; hide StatesFit; hide CountersFit;
  }

  lemma FetchIsToPrd(s: Sys, job: Job, k: nat)
    requires Working(s) && Fetching(s, job, k) && s.flight.Busy?
    ensures s.flight.op.target == ToPrd && s.flight.op.size == PRD_SIZE
  {
    hide Working; hide DecodePrd; hide Entry;
    WorkingIs(s);
    assert Transfer in multiset{Transfer} && PrdRead in multiset{PrdRead};
  }

  ghost predicate MovesTo(s: Sys, job: Job, k: nat, target: Target, c: Cont) {
    && Working(s) && Moving(s, job, k, target, c) && MovesRegion(c) && target != ToPrd
    && job.prds[k].count <= MAX_SINGLE_DMA
  }

  lemma MoveEffort(s: Sys, job: Job, k: nat, target: Target, c: Cont)
    requires MovesTo(s, job, k, target, c)
    ensures |s.prdBytes| == PRD_SIZE && !IsFetch(s)
    ensures Effort(s, job) == ENTRY * (|job.prds| - k - 1) + Local(s)
    ensures Local(s) == 3 * (job.prds[k].count - Handed(s)) + if s.flight.Busy? then Open(s.flight.op) + 2 else 1
    ensures 1 <= Local(s) <= REGION
  {
    hide Stable; hide StatesFit; hide CountersFit; hide DecodePrd;
    assert (s.curPrdAddr - job.table) / PRD_SIZE == k + 1;
    if s.flight.Busy? {
      BusyHasNoEvent(s);
      OpenIsBounded(s.flight.op);
    }
    hide Open;
    assert c in multiset{c};
    assert s.scheduled == multiset{c} ==> Transfer !in s.scheduled && PrdRead !in s.scheduled;
  }

  // ---- The events ----

  predicate Productive(e: EngineEvent) {
    (e.Due? && (!e.busy || e.c == PrdRead)) || (e.Moved? && e.which != {}) || e.Finished?
  }

  // The port's events, the same in every phase.
  lemma MoveShrinks(s: Sys, job: Job, which: set<nat>)
    requires Coherent(s) && Allowed(s, DmaCoherence.Moved(which)) && which != {}
    ensures |s.prdBytes| == PRD_SIZE && WellTyped(s) && |Move(s, which).prdBytes| == PRD_SIZE
    ensures Effort(Move(s, which), job) < Effort(s, job)
  {
    hide Open; hide DecodePrd; hide Move; hide Coherent; hide Allowed;
    MoveNeedsFlight(s, which);
    BusyHasNoEvent(s);
    OpenShrinks(s.flight.op, which);
    MoveIs(s, which);
  }

  lemma MoveIs(s: Sys, which: set<nat>)
    requires WellTyped(s) && Allowed(s, DmaCoherence.Moved(which))
    ensures var s' := Move(s, which);
            && s'.scheduled == s.scheduled && s'.gen == s.gen && s'.curPrdAddr == s.curPrdAddr
            && s'.flight == Busy(s.flight.op.(left := s.flight.op.left - which))
            && |s'.prdBytes| == PRD_SIZE && (s.flight.op.target != ToPrd ==> s'.prdBytes == s.prdBytes)
  {}

  lemma FinishShrinks(s: Sys, job: Job, c: Cont)
    requires Working(s) && Allowed(s, Finished(c))
    requires if s.flight.op.target == ToPrd then c == PrdRead else MovesRegion(c)
    ensures |s.prdBytes| == PRD_SIZE && CompleteOp(s, c).Fine? && CompleteOp(s, c).s.prdBytes == s.prdBytes
    ensures Effort(CompleteOp(s, c).s, job) < Effort(s, job)
  {
    hide CompleteOp; hide DecodePrd; hide Working; hide Open;
    WorkingIs(s);
    FinishedIs(s, c);
    OpenOfNone(s.flight.op);
    assert c in multiset{c};
    assert c != Transfer && Transfer !in multiset{c} && (c != PrdRead ==> PrdRead !in multiset{c});
  }

  lemma FetchDueShrinks(s: Sys, job: Job)
    requires Working(s) && Transfer in s.scheduled
    ensures WellTyped(s) && Fire(s, Transfer, false).Fine?
    ensures |Fire(s, Transfer, false).s.prdBytes| == PRD_SIZE
    ensures Effort(Fire(s, Transfer, false).s, job) < Effort(s, job)
  {
    hide Fire; hide Working; hide DecodePrd; hide Below; hide Open;
    WorkingIs(s);
    TransferDue(s, false);
    OpenOfAll(ToPrd, s.curPrdAddr, PRD_SIZE, 0);
    assert Transfer !in multiset{} && PrdRead !in multiset{};
  }

  // A page goes to the port: it costs less than it brings.
  lemma PageShrinks(s: Sys, s': Sys, job: Job, k: nat, target: Target, c: Cont)
    requires MovesTo(s, job, k, target, c) && MovesTo(s', job, k, target, c)
    requires s.flight == Free && s'.flight.Busy?
    requires s'.flight.op.size > 0 && Handed(s') == Handed(s) + s'.flight.op.size
    ensures |s.prdBytes| == |s'.prdBytes| == PRD_SIZE && 0 < Effort(s', job) < Effort(s, job)
  {
    MoveEffort(s, job, k, target, c);
    MoveEffort(s', job, k, target, c);
    OpenIsBounded(s'.flight.op);
    hide Open; hide MovesTo; hide Local; hide Effort;
  }

  // ---- Either direction ----

  // Where the engine is, in the direction given by target and c.
  ghost predicate Phase(s: Sys, job: Job, k: nat, target: Target, c: Cont) {
    && ((Working(s) && Fetching(s, job, k)) || MovesTo(s, job, k, target, c))
    && ((target == FromBuffer && c == WriteWait) || (target == ToBuffer && c == ReadWait))
  }

  lemma PhaseWorks(s: Sys, job: Job, k: nat, target: Target, c: Cont)
    requires Phase(s, job, k, target, c)
    ensures Working(s) && Coherent(s) && WellTyped(s) && |s.prdBytes| == PRD_SIZE && Effort(s, job) > 0
    ensures k < |job.prds|
  {
    hide Coherent; hide Effort; hide Local;
    if MovesTo(s, job, k, target, c) { MoveEffort(s, job, k, target, c); } else { FetchEffort(s, job, k); }
    WorkingIs(s);
  }

  // Which events a phase can have.
  lemma PhaseEvents(s: Sys, job: Job, k: nat, target: Target, c: Cont)
    requires Phase(s, job, k, target, c)
    ensures Transfer in s.scheduled || PrdRead in s.scheduled ==> Fetching(s, job, k)
    ensures ReadWait in s.scheduled || WriteWait in s.scheduled ==> MovesTo(s, job, k, target, c) && c in s.scheduled
    ensures s.flight.Busy? && s.flight.op.target == ToPrd ==> s.held == multiset{PrdRead} && Fetching(s, job, k)
    ensures s.flight.Busy? && s.flight.op.target != ToPrd ==> s.held == multiset{c} && MovesTo(s, job, k, target, c)
    ensures ReadWait in s.scheduled ==> c == ReadWait
    ensures WriteWait in s.scheduled ==> c == WriteWait
  {
    PhaseWorks(s, job, k, target, c);
    WorkingIs(s);
    hide Working; hide DecodePrd; hide Entry;
    assert c in multiset{c} && Transfer in multiset{Transfer} && PrdRead in multiset{PrdRead};
    assert Transfer !in multiset{c} && PrdRead !in multiset{c};
  }

  lemma PrdReadMovesOn(s: Sys, busy: bool, s': Sys)
    requires Working(s) && PrdRead in s.scheduled && s.curPrdAddr + PRD_SIZE < 0x1_0000_0000
    requires WellTyped(s) && Fire(s, PrdRead, busy) == Fine(s')
    ensures s'.curPrdAddr == s.curPrdAddr + PRD_SIZE
  {
    hide Working; hide CountersFit;
    OneEvent(s, PrdRead);
    hide LoadSectors; hide DecodePrd; hide Zeros; hide Act;
  }

  lemma RegionDoneFetches(t: Sys, s': Sys)
    requires Running(t) && !t.d.dmaAborted && RegionDone(t, false) == Fine(s') && Transferring(s'.d)
    ensures s'.flight.Busy? && s'.flight.op.target == ToPrd && s'.curPrdAddr == t.curPrdAddr
  {
    RunningIsInDma(t);
    if CurPrd(t).eot {
      hide DecodePrd; hide Stable; hide StatesFit; hide CountersFit;
    } else {
      RegionDoneGoesOn(t);
    }
  }

  // The last event of a region leads to the next fetch.
  lemma LastWriteFetches(s: Sys, s': Sys)
    requires Working(s) && WriteWait in s.scheduled && WellTyped(s) && Handed(s) >= CurPrd(s).count
    requires MadeFor(s.gen, CurPrd(s))
    requires Fire(s, WriteWait, false) == Fine(s') && Transferring(s'.d)
    ensures s'.flight.Busy? && s'.flight.op.target == ToPrd && s'.curPrdAddr == s.curPrdAddr
  {
    hide Fire; hide Working; hide Running; hide RegionDone; hide DecodePrd; hide Below;
    WriteDue(s, false);
    OneEvent(s, WriteWait);
    RunningWithoutGenerator(s.(scheduled := multiset{}));
    var t := s.(scheduled := multiset{}, gen := NoGenerator);
    assert s.(scheduled := multiset{}).(gen := NoGenerator) == t;
    RegionDoneFetches(t, s');
  }

  lemma LastReadFetches(s: Sys, s': Sys)
    requires Working(s) && ReadWait in s.scheduled && WellTyped(s) && Handed(s) >= CurPrd(s).count
    requires MadeFor(s.gen, CurPrd(s))
    requires Fire(s, ReadWait, false) == Fine(s') && Transferring(s'.d)
    ensures s'.flight.Busy? && s'.flight.op.target == ToPrd && s'.curPrdAddr == s.curPrdAddr
  {
    hide Fire; hide Working; hide RegionDone; hide DecodePrd; hide Below; hide Zeros; hide StoreSectors;
    ReadDue(s, false);
    OneEvent(s, ReadWait);
    var o := OpenRead(s).(scheduled := multiset{});
    PrdCountIsSmall(s.prdBytes);
    var r := StoreSectors(o.d, 0, CurPrd(o).count);
    var t := o.(gen := NoGenerator, d := r.d);
    StoredIsRunning(s, t);
    RegionDoneFetches(t, s');
  }

  lemma StoredIsRunning(s: Sys, t: Sys)
    requires Running(s.(scheduled := multiset{})) && !s.d.dmaAborted && s.d.devState == TransferDataDma
    requires t == s.(scheduled := multiset{}, gen := NoGenerator, d := t.d)
    requires t.d == s.d.(image := t.d.image, curSector := t.d.curSector, cmdBytesLeft := t.d.cmdBytesLeft,
                         buffer := t.d.buffer)
    ensures Running(t) && !t.d.dmaAborted
  {}

  // Each productive event, whatever it leads to in the same direction.
  lemma DueShrinks(s: Sys, e: EngineEvent, s': Sys, job: Job, k: nat, k': nat, target: Target, c: Cont)
    requires Phase(s, job, k, target, c) && Phase(s', job, k', target, c) && (k' == k || k' == k + 1)
    requires e.Due? && e.c in s.scheduled && Productive(e) && WellTyped(s) && Fire(s, e.c, e.busy) == Fine(s')
    requires job.table + PRD_SIZE * |job.prds| < 0x1_0000_0000
    ensures |s.prdBytes| == |s'.prdBytes| == PRD_SIZE && Effort(s', job) < Effort(s, job)
  {
    hide Phase; hide Fire; hide Working; hide Effort; hide Local; hide MovesTo; hide Fetching;
    PhaseWorks(s, job, k, target, c);
    PhaseWorks(s', job, k', target, c);
    PhaseEvents(s, job, k, target, c);
    if e.c == Transfer {
      FetchDueShrinks(s, job);
    } else if e.c == PrdRead {
      FetchEffort(s, job, k);
      FetchAt(s, job, k);
      PrdReadMovesOn(s, e.busy, s');
      AfterEntry(s', job, k, k', target, c);
    } else {
      RegionDueShrinks(s, s', job, k, k', target, c);
    }
  }

  lemma FetchAt(s: Sys, job: Job, k: nat)
    requires Fetching(s, job, k)
    ensures k < |job.prds| && s.curPrdAddr == job.table + PRD_SIZE * k
  {}

  // At the address after entry k the engine is moving its region or past it.
  lemma AfterEntry(s: Sys, job: Job, k: nat, k': nat, target: Target, c: Cont)
    requires Phase(s, job, k', target, c) && (k' == k || k' == k + 1) && s.curPrdAddr == job.table + PRD_SIZE * (k + 1)
    ensures |s.prdBytes| == PRD_SIZE && Effort(s, job) <= ENTRY * (|job.prds| - k - 1) + REGION
  {
    hide Working; hide Effort; hide Local; hide DecodePrd; hide Entry;
    if MovesTo(s, job, k', target, c) { MoveEffort(s, job, k', target, c); } else { FetchEffort(s, job, k'); }
  }

  lemma RegionDueShrinks(s: Sys, s': Sys, job: Job, k: nat, k': nat, target: Target, c: Cont)
    requires MovesTo(s, job, k, target, c) && Phase(s', job, k', target, c) && (k' == k || k' == k + 1)
    requires c in s.scheduled && WellTyped(s) && Fire(s, c, false) == Fine(s')
    ensures |s.prdBytes| == |s'.prdBytes| == PRD_SIZE && Effort(s', job) < Effort(s, job)
  {
    hide Effort; hide Local; hide Fire; hide Coherent; hide DecodePrd; hide Below;
    MoveEffort(s, job, k, target, c);
    PhaseWorks(s', job, k', target, c);
    OneEvent(s, c);
    if c == WriteWait { WriteDue(s, false); } else { ReadDue(s, false); }
    if Handed(s) < job.prds[k].count {
      PhaseEvents(s', job, k', target, c);
      PageShrinks(s, s', job, k, target, c);
    } else {
      if c == WriteWait { LastWriteFetches(s, s'); } else { LastReadFetches(s, s'); }
      PhaseEvents(s', job, k', target, c);
      FetchEffort(s', job, k');
    }
  }

  lemma StepShrinks(s: Sys, e: EngineEvent, s': Sys, job: Job, k: nat, k': nat, target: Target, c: Cont)
    requires Phase(s, job, k, target, c) && Phase(s', job, k', target, c) && (k' == k || k' == k + 1)
    requires JobEvent(s, e) && Productive(e) && WellTyped(s) && Step(s, e) == Fine(s')
    requires job.table + PRD_SIZE * |job.prds| < 0x1_0000_0000
    ensures |s.prdBytes| == |s'.prdBytes| == PRD_SIZE && Effort(s', job) < Effort(s, job)
  {
    hide Phase; hide Fire; hide Working; hide Effort; hide Local; hide MovesTo; hide Fetching; hide Move;
    hide CompleteOp;
    hide Coherent;
    PhaseWorks(s, job, k, target, c);
    PhaseWorks(s', job, k', target, c);
    if e.Due? {
      DueShrinks(s, e, s', job, k, k', target, c);
    } else if e.Moved? {
      MoveShrinks(s, job, e.which);
    } else {
      PhaseEvents(s, job, k, target, c);
      HeldIs(s, e.c, target, c) by { hide *; PhaseShape(s, job, k, target, c); }
      FinishShrinks(s, job, e.c);
    }
  }

  lemma PhaseShape(s: Sys, job: Job, k: nat, target: Target, c: Cont)
    requires Phase(s, job, k, target, c)
    ensures MovesRegion(c)
  {}

  lemma PhaseGenerator(s: Sys, job: Job, k: nat, target: Target, c: Cont)
    requires Phase(s, job, k, target, c) && WellTyped(s)
    ensures MadeFor(s.gen, CurPrd(s))
  {
    hide DecodePrd; hide Working; hide Entry;
  }

  lemma HeldIs(s: Sys, held: Cont, target: Target, c: Cont)
    requires s.flight.Busy? && held in s.held && MovesRegion(c)
    requires s.held == multiset{if s.flight.op.target == ToPrd then PrdRead else c}
    ensures if s.flight.op.target == ToPrd then held == PrdRead else MovesRegion(held)
  {}

  lemma BackOffKeepsEffort(s: Sys, e: EngineEvent, s': Sys, job: Job)
    requires Working(s) && WellTyped(s) && e.Due? && e.busy && e.c != PrdRead && e.c in s.scheduled
    requires MadeFor(s.gen, CurPrd(s)) && Fire(s, e.c, true) == Fine(s')
    ensures |s.prdBytes| == |s'.prdBytes| == PRD_SIZE && Effort(s', job) == Effort(s, job)
  {
    hide Fire; hide Working; hide DecodePrd; hide Zeros; hide Open; hide EndRead; hide RegionDone; hide Below;
    WorkingIs(s);
    if e.c == Transfer { TransferDue(s, true); }
    else if e.c == WriteWait { WriteDue(s, true); }
    else { ReadDue(s, true); }
  }

  // The others do not lengthen the way.
  lemma StepKeepsEffort(s: Sys, e: EngineEvent, s': Sys, job: Job, k: nat, target: Target, c: Cont)
    requires Phase(s, job, k, target, c) && JobEvent(s, e) && !Productive(e) && WellTyped(s) && Step(s, e) == Fine(s')
    ensures |s.prdBytes| == |s'.prdBytes| == PRD_SIZE && Effort(s', job) == Effort(s, job)
  {
    hide Fire; hide Working; hide Move; hide CompleteOp; hide HostAccess; hide DecodePrd;
    hide Phase; hide Open; hide Coherent;
    PhaseWorks(s, job, k, target, c);
    if e.Due? {
      PhaseGenerator(s, job, k, target, c);
      BackOffKeepsEffort(s, e, s', job);
    } else if e.Moved? {
      MoveIs(s, e.which);
      assert s.flight.op.left - e.which == s.flight.op.left;
    } else if e.Host? {
      QuietHost(s, e.acc);
    } else {
      RegistersOnly(s, e);
    }
  }

  // ---- READ DMA ----

  lemma ReadPhase(s: Sys, job: Job, mem0: seq<byte>, image: seq<Sector>, k: nat)
    requires DmaReadJob.ReadState(s, job, mem0, image, k)
    ensures Phase(s, job, k, FromBuffer, WriteWait) && job.table + PRD_SIZE * |job.prds| < 0x1_0000_0000
  {
    hide Coherent; hide Filled; hide RestKept; hide BufferHolds; hide HoldsByte; hide Apart; hide TableReads;
    if k < |job.prds| { assert GoodPrd(job.prds[k], |s.mem|); }
  }

  // Productive events of a run up to its end.
  ghost function Count(s: Sys, es: seq<EngineEvent>): nat
    requires Coherent(s) && JobRun(s, es)
    decreases |es|
  {
    if es == [] || !Transferring(s.d) then 0
    else
      StepIsKept(s, es[0]);
      (if Productive(es[0]) then 1 else 0)
      + if Step(s, es[0]).Fine? then Count(Step(s, es[0]).s, es[1..]) else 0
  }

  // A READ DMA takes no more productive events than its effort says, in
  // whatever order back-offs, answers and status reads come.
  lemma {:induction false} ReadDmaEnds(s: Sys, es: seq<EngineEvent>, job: Job, mem0: seq<byte>,
                                       image: seq<Sector>, k: nat)
    requires DmaReadJob.ReadState(s, job, mem0, image, k) && Coherent(s) && JobRun(s, es) && |s.prdBytes| == PRD_SIZE
    ensures Count(s, es) <= Effort(s, job)
    decreases |es|
  {
    hide DmaReadJob.ReadState; hide DmaReadJob.ReadDone; hide Coherent; hide Step; hide Allowed; hide WellTyped;
    hide Phase; hide Effort; hide Productive; hide Working;
    DmaReadJob.ReadStateWorks(s, job, mem0, image, k);
    ReadPhase(s, job, mem0, image, k);
    PhaseWorks(s, job, k, FromBuffer, WriteWait);
    if es != [] {
      DmaReadJob.ReadStep(s, es[0], job, mem0, image, k);
      StepIsKept(s, es[0]);
      var s' := Step(s, es[0]).s;
      if DmaReadJob.ReadState(s', job, mem0, image, k) {
        ReadPhase(s', job, mem0, image, k);
        OneStep(s, es[0], s', job, k, k, FromBuffer, WriteWait);
        ReadDmaEnds(s', es[1..], job, mem0, image, k);
      } else if k + 1 < |job.prds| && DmaReadJob.ReadState(s', job, mem0, image, k + 1) {
        ReadPhase(s', job, mem0, image, k + 1);
        OneStep(s, es[0], s', job, k, k + 1, FromBuffer, WriteWait);
        ReadDmaEnds(s', es[1..], job, mem0, image, k + 1);
      } else {
        DmaReadJob.ReadDoneRests(s', job, mem0, image);
      }
    }
  }

  lemma OneStep(s: Sys, e: EngineEvent, s': Sys, job: Job, k: nat, k': nat, target: Target, c: Cont)
    requires Phase(s, job, k, target, c) && Phase(s', job, k', target, c) && (k' == k || k' == k + 1)
    requires JobEvent(s, e) && WellTyped(s) && Step(s, e) == Fine(s')
    requires job.table + PRD_SIZE * |job.prds| < 0x1_0000_0000
    ensures Coherent(s') && |s.prdBytes| == |s'.prdBytes| == PRD_SIZE
    ensures Effort(s', job) <= Effort(s, job) - if Productive(e) then 1 else 0
  {
    hide *;
    PhaseWorks(s', job, k', target, c);
    if Productive(e) { StepShrinks(s, e, s', job, k, k', target, c); }
    else { StepKeepsEffort(s, e, s', job, k, target, c); }
  }

  // ---- WRITE DMA ----

  lemma WritePhase(s: Sys, job: Job, mem: seq<byte>, image0: seq<Sector>, k: nat)
    requires DmaWriteJob.WriteState(s, job, mem, image0, k)
    ensures Phase(s, job, k, ToBuffer, ReadWait) && job.table + PRD_SIZE * |job.prds| < 0x1_0000_0000
  {
    hide Coherent; hide DmaWriteJob.Stored; hide DmaWriteJob.BufferHasMoved; hide Apart; hide TableReads;
  }

  lemma {:induction false} WriteDmaEnds(s: Sys, es: seq<EngineEvent>, job: Job, mem: seq<byte>,
                                        image0: seq<Sector>, k: nat)
    requires DmaWriteJob.WriteState(s, job, mem, image0, k) && Coherent(s) && JobRun(s, es) && |s.prdBytes| == PRD_SIZE
    ensures Count(s, es) <= Effort(s, job)
    decreases |es|
  {
    hide DmaWriteJob.WriteState; hide DmaWriteJob.WriteDone; hide Coherent; hide Step; hide Allowed; hide WellTyped;
    hide Phase; hide Effort; hide Productive; hide Working;
    DmaWriteJob.WriteStateWorks(s, job, mem, image0, k);
    WritePhase(s, job, mem, image0, k);
    PhaseWorks(s, job, k, ToBuffer, ReadWait);
    if es != [] {
      DmaWriteJob.WriteStep(s, es[0], job, mem, image0, k);
      StepIsKept(s, es[0]);
      var s' := Step(s, es[0]).s;
      if DmaWriteJob.WriteState(s', job, mem, image0, k) {
        WritePhase(s', job, mem, image0, k);
        OneStep(s, es[0], s', job, k, k, ToBuffer, ReadWait);
        WriteDmaEnds(s', es[1..], job, mem, image0, k);
      } else if k + 1 < |job.prds| && DmaWriteJob.WriteState(s', job, mem, image0, k + 1) {
        WritePhase(s', job, mem, image0, k + 1);
        OneStep(s, es[0], s', job, k, k + 1, ToBuffer, ReadWait);
        WriteDmaEnds(s', es[1..], job, mem, image0, k + 1);
      } else {
        DmaWriteJob.WriteDoneRests(s', job, mem, image0);
      }
    }
  }

  // ---- No standstill ----

  lemma AnswersCanCome(s: Sys, job: Job, k: nat, target: Target, c: Cont)
    requires Phase(s, job, k, target, c) && GoodCounts(job, |s.mem|) && s.flight.Busy?
    ensures Allowed(s, DmaCoherence.Moved(s.flight.op.left))
    ensures s.flight.op.left == {} ==> Allowed(s, Finished(if s.flight.op.target == ToPrd then PrdRead else c))
  {
    hide Working; hide MovesTo; hide Phase; hide Fetching; hide Allowed;
    PhaseWorks(s, job, k, target, c);
    PhaseEvents(s, job, k, target, c);
    if s.flight.op.target == ToPrd {
      FetchAnswers(s, job, k);
    } else {
      assert GoodPrd(job.prds[k], |s.mem|);
      MoveAnswers(s, job, k, target, c);
    }
  }

  lemma FetchAnswers(s: Sys, job: Job, k: nat)
    requires Working(s) && Fetching(s, job, k) && s.flight.Busy?
    ensures Allowed(s, DmaCoherence.Moved(s.flight.op.left))
    ensures s.flight.op.left == {} ==> Allowed(s, Finished(PrdRead))
  {
    hide Working; hide Entry;
    WorkingIs(s);
    assert PrdRead in multiset{PrdRead} && Transfer in multiset{Transfer};
    assert s.scheduled == multiset{};
    assert ReadingEntry(s, job, k, s.flight.op);
  }

  lemma MoveAnswers(s: Sys, job: Job, k: nat, target: Target, c: Cont)
    requires MovesTo(s, job, k, target, c) && s.flight.Busy? && GoodPrd(job.prds[k], |s.mem|)
    ensures Allowed(s, DmaCoherence.Moved(s.flight.op.left))
    ensures s.flight.op.left == {} ==> Allowed(s, Finished(c))
  {
    hide Working; hide DecodePrd;
    WorkingIs(s);
    assert c in multiset{c};
    assert MovingPage(s.flight.op, Handed(s), job.prds[k], target);
  }

  lemma SomethingIsDue(s: Sys, job: Job, k: nat, target: Target, c: Cont)
    requires Phase(s, job, k, target, c) && !s.flight.Busy?
    ensures Transfer in s.scheduled || PrdRead in s.scheduled || c in s.scheduled
  {
    hide Working; hide DecodePrd; hide Entry;
    assert c in multiset{c} && Transfer in multiset{Transfer} && PrdRead in multiset{PrdRead};
  }

  // While a command is not over, a productive event can come.
  lemma DmaCanGoOn(s: Sys, job: Job, k: nat, target: Target, c: Cont) returns (e: EngineEvent)
    requires Phase(s, job, k, target, c) && GoodCounts(job, |s.mem|)
    ensures JobEvent(s, e) && Productive(e)
  {
    hide Phase; hide GoodCounts;
    if s.flight.Busy? {
      AnswersCanCome(s, job, k, target, c);
      if s.flight.op.left == {} {
        e := Finished(if s.flight.op.target == ToPrd then PrdRead else c);
      } else {
        e := DmaCoherence.Moved(s.flight.op.left);
      }
    } else {
      SomethingIsDue(s, job, k, target, c);
      e := Due(if Transfer in s.scheduled then Transfer else if PrdRead in s.scheduled then PrdRead else c, false);
    }
  }
}
