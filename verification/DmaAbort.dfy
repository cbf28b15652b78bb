// DMA commands that the host stops: what they leave in memory and on the
// image.
module DmaAbort {
  import opened ByteSeq
  import opened DiskSpec
  import opened DiskInvariants
  import opened BusMaster
  import opened DmaEngine
  import opened DmaCoherence
  import opened DmaJob
  import opened DmaTransfer
  import DmaReadJob
  import DmaWriteJob

  // What the port may still be doing: reading an entry or a page, or writing
  // inside the region of prd.
  predicate Stays(op: Op, prd: Prd) {
    || op.target.ToPrd? || op.target.ToBuffer?
    || (op.target.FromBuffer? && prd.base <= op.addr && op.addr + op.size <= prd.base + prd.count)
  }

  // The command has been stopped and the next event of the engine is to end it.
  ghost predicate Aborting(s: Sys, prd: Prd) {
    && Coherent(s) && s.d.devState == DeviceDmaAbort
    && (s.flight.Busy? ==> Stays(s.flight.op, prd))
  }

  // Memory has changed in the region of prd only.
  ghost predicate Touches(mem: seq<byte>, mem': seq<byte>, prd: Prd) { DmaReadJob.Touches(mem, mem', prd) }

  const NOWHERE: Prd := Prd(0, 0, true)

  lemma TouchesNowhere(mem: seq<byte>, mem': seq<byte>)
    requires Touches(mem, mem', NOWHERE)
    ensures mem' == mem
  {}

  // ---- The stop ----

  lemma StopIs(s: Sys, v: Bits)
    requires Working(s) && Allowed(s, BmiCommand(v)) && !v[START_STOP]
    ensures WellTyped(s) && WriteBmiCommand(s, v).Fine?
    ensures var s' := WriteBmiCommand(s, v).s;
            && Coherent(s') && s'.d.devState == DeviceDmaAbort
            && s'.mem == s.mem && s'.d.image == s.d.image && s'.flight == s.flight
  {
    StopIsKept(s, v);
    hide StartDma; hide Stable; hide StatesFit; hide CountersFit;
  }

  // ---- The steps after it ----

  // The disk ignores all that the host does, short of a reset.
  lemma HostIsIgnored(d: Disk, acc: Access)
    requires Stable(d) && d.devState == DeviceDmaAbort && !(acc.WriteControl? && acc.srst)
    ensures var r := Do(d, acc, true); r.Ok? && r.d.image == d.image && r.d.devState == DeviceDmaAbort
  {
    StableGivesShape(d);
    hide UpdateIdle; hide UpdateIdleIntr; hide UpdatePrepareIn; hide UpdateTransferIn; hide StartCommand;
    hide UpdatePrepareOut; hide UpdateTransferOut; hide Proceed; hide Stable; hide Finish;
  }

  lemma MoveStays(s: Sys, prd: Prd, which: set<nat>)
    requires WellTyped(s) && Allowed(s, DmaCoherence.Moved(which)) && Stays(s.flight.op, prd)
    ensures var s' := Move(s, which);
            && Touches(s.mem, s'.mem, prd) && s'.d.image == s.d.image && s'.d.devState == s.d.devState
            && s'.flight.Busy? && Stays(s'.flight.op, prd)
  {
    hide Shape;
    var op := s.flight.op;
    forall a | 0 <= a < |s.mem| && a - op.addr in which && op.target.FromBuffer?
      ensures InRegion(prd, a)
    {
      assert a - op.addr < op.size;
    }
  }

  lemma EndKeeps(s: Sys, c: Cont, busy: bool)
    requires Coherent(s) && s.d.devState == DeviceDmaAbort && c in s.scheduled
    ensures Fire(s, c, busy).Fine? && AtRest(Fire(s, c, busy).s)
    ensures Fire(s, c, busy).s.mem == s.mem && Fire(s, c, busy).s.d.image == s.d.image
  {
    NextEventResolvesAbort(s, c, busy);
    hide AtRest; hide Running; hide Coherent; hide CurPrd; hide StartOp; hide Schedule; hide LoadSectors;
    hide CountersFit; hide NextPage; hide EndRead; hide RegionDone; hide DecodePrd;
    TakenOff(s, c);
    RunningIsInDma(s.(scheduled := s.scheduled - multiset{c}));
  }

  // What each step leaves.
  ghost predicate Leaves(s: Sys, r: SysResult, prd: Prd) {
    if r.Stop? then r.why == AssertFailed
    else
      && Touches(s.mem, r.s.mem, prd) && r.s.d.image == s.d.image
      && (Aborting(r.s, prd) || AtRest(r.s))
  }

  lemma HostLeaves(s: Sys, acc: Access, prd: Prd)
    requires Aborting(s, prd) && Allowed(s, Host(acc))
    ensures WellTyped(s) && Leaves(s, HostAccess(s, acc), prd)
  {
    hide Coherent; hide Stable; hide Stays; hide Do; hide AtRest; hide CountersFit;
    CoherentGives(s);
    HostIsKept(s, acc);
    AbortTransfers(s);
    if acc.WriteControl? && acc.srst && !s.selected { return; }
    HostIsIgnored(s.d, acc);
  }

  lemma AbortTransfers(s: Sys)
    requires Coherent(s) && s.d.devState == DeviceDmaAbort
    ensures Transferring(s.d) && !StartStop(s.bmi) && s.d.dmaState == DmaTransfer
  {
    hide Stable; hide CountersFit;
    assert Stable(s.d) && s.d.dmaAborted by { CoherentGives(s); AbortIsAborted(s.d); }
  }

  lemma AbortIsAborted(d: Disk)
    requires Stable(d) && d.devState == DeviceDmaAbort
    ensures d.dmaAborted
  {}

  lemma RegistersLeave(s: Sys, e: EngineEvent, prd: Prd)
    requires Aborting(s, prd) && Allowed(s, e) && (e.BmiCommand? || e.BmiStatus? || e.BmiTable? || e.BmiRaw?)
    ensures WellTyped(s) && Leaves(s, Step(s, e), prd)
  {
    BmiIsKept(s, e);
    AbortTransfers(s);
    hide Coherent; hide RawWrite; hide NewStatus; hide Stays; hide AtRest; hide AbortDma; hide StartDma;
    CoherentGives(s);
  }

  lemma StepLeaves(s: Sys, e: EngineEvent, prd: Prd)
    requires Aborting(s, prd) && Allowed(s, e)
    ensures WellTyped(s) && Leaves(s, Step(s, e), prd)
  {
    hide Coherent; hide HostAccess; hide Fire; hide Move; hide Stays; hide AtRest; hide WriteBmiCommand;
    CoherentGives(s);
    if e.Host? {
      HostLeaves(s, e.acc, prd);
    } else if e.Due? {
      EndKeeps(s, e.c, e.busy);
    } else if e.Moved? {
      MoveStays(s, prd, e.which);
      MoveIsKept(s, e.which);
    } else if e.Finished? {
      CompleteIsKept(s, e.c);
      AbortTransfers(s);
      FinishedSchedules(s, e.c);
    } else {
      RegistersLeave(s, e, prd);
    }
  }

  lemma FinishedSchedules(s: Sys, c: Cont)
    requires Coherent(s) && s.flight.Busy? && c in s.held
    ensures CompleteOp(s, c) == Fine(s.(flight := Free, held := s.held - multiset{c}, scheduled := multiset{c}))
  {
    BusyHasNoEvent(s);
    hide Coherent;
    assert multiset{} + multiset{c} == multiset{c};
  }

  // ---- Runs ----

  // Any events from here on until the engine is at rest.
  ghost predicate RunToRest(s: Sys, es: seq<EngineEvent>)
    requires Coherent(s)
    decreases |es|
  {
    es == [] || !Transferring(s.d) ||
    (Allowed(s, es[0]) &&
     (StepIsKept(s, es[0]);
      Step(s, es[0]).Fine? ==> RunToRest(Step(s, es[0]).s, es[1..])))
  }

  ghost function RestAfter(s: Sys, es: seq<EngineEvent>): SysResult
    requires Coherent(s) && RunToRest(s, es)
    decreases |es|
  {
    if es == [] || !Transferring(s.d) then Fine(s)
    else
      StepIsKept(s, es[0]);
      var r := Step(s, es[0]);
      if r.Stop? then r else RestAfter(r.s, es[1..])
  }

  lemma RestIsRest(s: Sys)
    requires AtRest(s)
    ensures Coherent(s) && !Transferring(s.d)
  {}

  // A stopped command ends at rest or goes on being stopped, whatever the host
  // and the port do; memory changes in one region only and the image does not.
  lemma {:induction false} AbortedRunLeaves(s: Sys, es: seq<EngineEvent>, prd: Prd)
    requires Aborting(s, prd) && RunToRest(s, es)
    ensures Coherent(s) && Leaves(s, RestAfter(s, es), prd)
    decreases |es|
  {
    hide Step; hide Allowed; hide Coherent; hide Stays; hide AtRest; hide WellTyped;
    if es != [] && Transferring(s.d) {
      StepLeaves(s, es[0], prd);
      StepIsKept(s, es[0]);
      var r := Step(s, es[0]);
      if r.Fine? {
        if Aborting(r.s, prd) { AbortedRunLeaves(r.s, es[1..], prd); } else { RestIsRest(r.s); }
      }
    }
  }

  // A READ DMA that is stopped: the regions it has done are as they should be,
  // and outside the regions of its table memory is as it was.
  lemma AbortedReadStaysInside(s: Sys, v: Bits, es: seq<EngineEvent>, job: Job, mem0: seq<byte>, image: seq<Sector>,
                               k: nat)
    requires DmaReadJob.ReadState(s, job, mem0, image, k) && Allowed(s, BmiCommand(v)) && !v[START_STOP]
    ensures WellTyped(s) && WriteBmiCommand(s, v).Fine? && Coherent(WriteBmiCommand(s, v).s)
    ensures var s1 := WriteBmiCommand(s, v).s;
            RunToRest(s1, es) ==>
              var r := RestAfter(s1, es);
              if r.Stop? then r.why == AssertFailed
              else
                && r.s.d.image == image && |r.s.mem| == |mem0| && RestKept(r.s.mem, mem0, job)
                && GoodCounts(job, |r.s.mem|) && job.lba + job.sectors <= |image| && k < |job.prds|
                && Filled(r.s.mem, job, image, k)
                && (Transferring(r.s.d) || AtRest(r.s))
  {
    hide DmaReadJob.ReadState; hide Allowed; hide Coherent; hide WriteBmiCommand; hide Aborting; hide AtRest;
    hide RestKept; hide Filled; hide GoodCounts; hide Apart; hide Touches;
    ReadGives(s, job, mem0, image, k);
    StopIs(s, v);
    var s1 := WriteBmiCommand(s, v).s;
    assert Aborting(s1, job.prds[k]) by { IsAborting(s1, job.prds[k]); }
    if RunToRest(s1, es) {
      AbortedRunLeaves(s1, es, job.prds[k]);
      var r := RestAfter(s1, es);
      if r.Fine? {
        TouchesKeepsSize(s.mem, r.s.mem, job.prds[k]);
        DmaReadJob.OthersUndisturbed(s.mem, r.s.mem, job, mem0, image, k) by { TouchesIs(s.mem, r.s.mem, job.prds[k]); }
        AbortingTransfers(r.s, job.prds[k]);
      }
    }
  }

  lemma TouchesKeepsSize(mem: seq<byte>, mem': seq<byte>, prd: Prd)
    requires Touches(mem, mem', prd)
    ensures |mem'| == |mem|
  {}

  lemma TouchesIs(mem: seq<byte>, mem': seq<byte>, prd: Prd)
    requires Touches(mem, mem', prd)
    ensures DmaReadJob.Touches(mem, mem', prd)
  {}

  lemma IsAborting(s: Sys, prd: Prd)
    requires Coherent(s) && s.d.devState == DeviceDmaAbort && (s.flight.Busy? ==> Stays(s.flight.op, prd))
    ensures Aborting(s, prd)
  {}

  lemma AbortingTransfers(s: Sys, prd: Prd)
    ensures Aborting(s, prd) ==> Transferring(s.d)
  {
    if Aborting(s, prd) { AbortTransfers(s); }
  }

  lemma ReadGives(s: Sys, job: Job, mem0: seq<byte>, image: seq<Sector>, k: nat)
    requires DmaReadJob.ReadState(s, job, mem0, image, k)
    ensures Working(s) && s.d.image == image && |s.mem| == |mem0| && k < |job.prds|
    ensures GoodCounts(job, |s.mem|) && Apart(job) && job.lba + job.sectors <= |image|
    ensures RestKept(s.mem, mem0, job) && Filled(s.mem, job, image, k)
    ensures s.flight.Busy? ==> Stays(s.flight.op, job.prds[k])
  {
    hide Stable; hide StatesFit; hide CountersFit; hide DecodePrd; hide Total; hide TableReads; hide RestKept;
    hide Filled; hide Apart; hide DmaTransfer.Moved; hide HoldsByte; hide BufferHolds;
    if s.flight.Busy? { BusyHasNoEvent(s); }
    assert WriteWait in multiset{WriteWait} && Transfer in multiset{Transfer} && PrdRead in multiset{PrdRead};
  }

  // A WRITE DMA that is stopped: memory is as it was, the regions it has done
  // are on the image, and outside the sectors of the command the image is as
  // it was.
  lemma AbortedWriteStaysInside(s: Sys, v: Bits, es: seq<EngineEvent>, job: Job, mem: seq<byte>, image0: seq<Sector>,
                                k: nat)
    requires DmaWriteJob.WriteState(s, job, mem, image0, k) && Allowed(s, BmiCommand(v)) && !v[START_STOP]
    ensures WellTyped(s) && WriteBmiCommand(s, v).Fine? && Coherent(WriteBmiCommand(s, v).s)
    ensures var s1 := WriteBmiCommand(s, v).s;
            RunToRest(s1, es) ==>
              var r := RestAfter(s1, es);
              if r.Stop? then r.why == AssertFailed
              else
                && r.s.mem == mem && GoodCounts(job, |mem|) && job.lba + job.sectors <= |image0| && k < |job.prds|
                && DmaWriteJob.Stored(r.s.d.image, image0, mem, job, k)
                && (Transferring(r.s.d) || AtRest(r.s))
  {
    hide DmaWriteJob.WriteState; hide Allowed; hide Coherent; hide WriteBmiCommand; hide Aborting; hide AtRest;
    hide DmaWriteJob.Stored; hide GoodCounts; hide Touches;
    WriteGives(s, job, mem, image0, k);
    StopIs(s, v);
    var s1 := WriteBmiCommand(s, v).s;
    assert Aborting(s1, NOWHERE) by { IsAborting(s1, NOWHERE); }
    if RunToRest(s1, es) {
      AbortedRunLeaves(s1, es, NOWHERE);
      var r := RestAfter(s1, es);
      if r.Fine? {
        TouchesNowhere(s.mem, r.s.mem);
        AbortingTransfers(r.s, NOWHERE);
      }
    }
  }

  lemma WriteGives(s: Sys, job: Job, mem: seq<byte>, image0: seq<Sector>, k: nat)
    requires DmaWriteJob.WriteState(s, job, mem, image0, k)
    ensures Working(s) && s.mem == mem && k < |job.prds|
    ensures GoodCounts(job, |mem|) && job.lba + job.sectors <= |image0|
    ensures DmaWriteJob.Stored(s.d.image, image0, mem, job, k)
    ensures s.flight.Busy? ==> Stays(s.flight.op, NOWHERE)
  {
    hide Stable; hide StatesFit; hide CountersFit; hide DecodePrd; hide Total; hide TableReads; hide Apart;
    hide DmaWriteJob.Stored; hide DmaTransfer.Moved; hide DmaWriteJob.BufferHasMoved;
    if s.flight.Busy? { BusyHasNoEvent(s); }
    assert ReadWait in multiset{ReadWait} && Transfer in multiset{Transfer} && PrdRead in multiset{PrdRead};
  }
}
