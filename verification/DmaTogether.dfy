// The disk's engine and the DMA port at work on one command: each run of the
// two is a run of the engine as DmaTransfer has it, with answers and
// completions that come from the port.
module DmaTogether {
  import opened ByteSeq
  import opened DiskSpec
  import opened DiskInvariants
  import opened BusMaster
  import opened DmaEngine
  import opened DmaCoherence
  import opened DmaJob
  import opened DmaTransfer
  import DmaReadJob
  import DmaWriteJob
  import P = DmaPortSpec
  import Ports = DmaPortProofs
  import R = DmaPortRefines

  // a is the number of the action that the engine has begun last.
  datatype Joint = Joint(s: Sys, p: P.Port, a: nat)

  // An event of the engine, with a number for the action it may begin and the
  // answer to the port's first packet; or an event of the port, which may also
  // be about actions of other devices.
  datatype Event = Engine(e: EngineEvent, number: nat, taken: bool) | Port(does: P.Event)

  datatype Outcome = On(j: Joint) | Halt

  // The engine finds the port busy whenever packets are pending.
  ghost predicate May(j: Joint, ev: Event)
    requires WellTyped(j.s) && Ports.Inv(j.p)
  {
    match ev
    case Engine(e, n, _) =>
      && JobEvent(j.s, e) && !e.Moved? && !e.Finished? && n !in j.p.started
      && (e.Due? ==> e.busy || j.p.pendingCount == 0)
    case Port(e) => P.Enabled(j.p, e)
  }

  // A response for the engine's action.
  predicate Mine(j: Joint, e: P.Event)
    requires P.Enabled(j.p, e)
  {
    j.s.flight.Busy? && e.Response? && j.p.flight[e.index].action == j.a
  }

  function HeldBy(s: Sys): Cont {
    if Transfer in s.held then Transfer else if PrdRead in s.held then PrdRead
    else if ReadWait in s.held then ReadWait else WriteWait
  }

  // What happens, and what the engine sees of it.  It would be the end if an
  // answer fell outside memory or a completion came too early.
  ghost function Happens(j: Joint, ev: Event, line: nat): Outcome
    requires WellTyped(j.s) && Ports.Inv(j.p) && line > 0 && May(j, ev)
  {
    match ev
    case Engine(e, n, taken) =>
      var r := Step(j.s, e);
      if r.Stop? then Halt
      else if j.s.flight.Busy? || r.s.flight.Free? then On(j.(s := r.s))
      else
        var op := r.s.flight.op;
        if op.size == 0 then Halt
        else On(Joint(r.s, Ports.Apply(j.p, P.Act(n, op.addr, op.size, true, taken), line), n))
    case Port(e) =>
      var p' := Ports.Apply(j.p, e, line);
      if !Mine(j, e) then On(j.(p := p'))
      else
        var which := R.Span(j.p.flight[e.index]);
        if !Allowed(j.s, Moved(which)) then Halt
        else
          var s1 := Move(j.s, which);
          if j.a in p'.live then On(Joint(s1, p', j.a))
          else if !Allowed(s1, Finished(HeldBy(s1))) then Halt
          else
            var r := CompleteOp(s1, HeldBy(s1));
            if r.Stop? then Halt else On(Joint(r.s, p', j.a))
  }

  ghost function Seen(j: Joint, ev: Event, line: nat): seq<EngineEvent>
    requires WellTyped(j.s) && Ports.Inv(j.p) && line > 0 && May(j, ev)
  {
    match ev
    case Engine(e, _, _) => [e]
    case Port(e) =>
      if !Mine(j, e) then []
      else
        [Moved(R.Span(j.p.flight[e.index]))]
        + if j.a in Ports.Apply(j.p, e, line).live then [] else [Finished(HeldBy(j.s))]
  }

  // ---- The link between the two ----

  ghost predicate Linked(j: Joint) {
    && Ports.Inv(j.p)
    && (j.s.flight.Busy? ==> R.Simulates(j.p, j.a, j.s.flight.op))
  }

  // The engine's action lies in memory and in its buffer.
  predicate InMemory(s: Sys) {
    s.flight.Busy? ==>
      && s.flight.op.addr + s.flight.op.size <= |s.mem|
      && s.flight.op.offset + s.flight.op.size <= if s.flight.op.target.ToPrd? then PRD_SIZE else MAX_DMA_SIZE
  }

  // A freshly begun action is whole.
  ghost predicate Whole(r: SysResult) {
    r.Fine? && r.s.flight.Busy? ==>
      r.s.flight.op.size > 0 && r.s.flight.op.left == Below(r.s.flight.op.size)
  }

  lemma ActKeepsFlight(s: Sys, a: Action)
    requires WellTyped(s)
    ensures Act(s, a).Fine? ==> Act(s, a).s.flight == s.flight
  {
    hide Update;
  }

  lemma TransferIsWhole(s: Sys, busy: bool)
    requires WellTyped(s) && s.flight == Free
    ensures Whole(DoDmaTransfer(s, busy))
  {
    hide Act; hide Below;
    ActKeepsFlight(s, CmdError);
  }

  lemma RegionDoneIsWhole(s: Sys, busy: bool)
    requires WellTyped(s) && s.flight == Free
    ensures Whole(RegionDone(s, busy))
  {
    hide Act; hide DecodePrd; hide DoDmaTransfer; hide Below; hide CountersFit;
    TransferIsWhole(s, busy);
    ActKeepsFlight(s.(d := s.d.(dmaState := DmaIdle)), DmaDone);
  }

  lemma NextPageIsWhole(s: Sys, target: Target, c: Cont)
    requires WellTyped(s) && s.flight == Free && !AtEnd(s.gen)
    ensures Whole(NextPage(s, target, c))
  {
    hide Below;
  }

  lemma EndReadIsWhole(s: Sys, busy: bool)
    requires WellTyped(s) && s.flight == Free && FreeCounters(s.d.devState)
    ensures Whole(EndRead(s, busy))
  {
    hide RegionDone; hide DecodePrd; hide StoreSectors; hide Below;
    PrdCountIsSmall(s.prdBytes);
    var r := StoreSectors(s.d, 0, CurPrd(s).count);
    if r.Ok? { RegionDoneIsWhole(s.(gen := NoGenerator, d := r.d), busy); }
  }

  lemma PrdReadIsWhole(s: Sys)
    requires WellTyped(s) && s.flight == Free
    ensures Whole(PrdReadDone(s))
  {
    hide Act; hide DecodePrd; hide LoadSectors; hide Zeros; hide Below;
    ActKeepsFlight(s, CmdError);
  }

  lemma FireIsWhole(s: Sys, c: Cont, busy: bool)
    requires WellTyped(s) && s.flight == Free && c in s.scheduled
    ensures Whole(Fire(s, c, busy))
  {
    hide Act; hide DecodePrd; hide DoDmaTransfer; hide PrdReadDone; hide NextPage; hide EndRead; hide RegionDone;
    hide Below; hide Zeros; hide CountersFit;
    var t := s.(scheduled := s.scheduled - multiset{c});
    match c
    case Transfer => TransferIsWhole(t, busy);
    case PrdRead => PrdReadIsWhole(t);
    case ReadWait =>
      ActKeepsFlight(t.(gen := NoGenerator), CmdError);
      if !AtEnd(OpenRead(t).gen) { NextPageIsWhole(OpenRead(t), ToBuffer, ReadWait); }
      if FreeCounters(t.d.devState) { EndReadIsWhole(OpenRead(t), busy); }
    case WriteWait =>
      ActKeepsFlight(t.(gen := NoGenerator), CmdError);
      if !AtEnd(OpenWrite(t).gen) { NextPageIsWhole(OpenWrite(t), FromBuffer, WriteWait); }
      RegionDoneIsWhole(OpenWrite(t).(gen := NoGenerator), busy);
  }

  // Everything but a due event leaves the flight alone.
  lemma OthersKeepFlight(s: Sys, e: EngineEvent)
    requires Working(s) && JobEvent(s, e) && !e.Moved? && !e.Finished? && !e.Due?
    ensures WellTyped(s) && Step(s, e).Fine? && Step(s, e).s.flight == s.flight
  {
    hide HostAccess; hide WriteBmiCommand; hide RawWrite; hide NewStatus; hide Working; hide Allowed;
    if e.Host? { QuietHost(s, e.acc); } else { RegistersOnly(s, e); }
  }

  // ---- One event of the two ----

  // The engine begins nothing while the port is at work for it.
  lemma EngineKeepsLink(j: Joint, ev: Event, line: nat)
    requires Working(j.s) && Linked(j) && line > 0 && ev.Engine? && WellTyped(j.s) && May(j, ev)
    requires Step(j.s, ev.e).Fine?
    ensures JobEvent(j.s, ev.e)
    ensures var o := Happens(j, ev, line); o.On? && Step(j.s, ev.e) == Fine(o.j.s) && Linked(o.j)
  {
    hide Step; hide Working; hide Allowed; hide Ports.Inv; hide R.Simulates; hide Ports.Apply;
    var r := Step(j.s, ev.e);
    EngineFlight(j.s, ev.e);
    if j.s.flight.Free? && r.s.flight.Busy? {
      var op := r.s.flight.op;
      R.ActionBegins(j.p, ev.number, op.addr, op.size, true, ev.taken, line, op.target, op.offset);
      Ports.StepKeepsInv(j.p, P.Act(ev.number, op.addr, op.size, true, ev.taken), line);
      assert op == Op(op.target, op.addr, op.size, op.offset, Below(op.size));
    }
  }

  lemma EngineFlight(s: Sys, e: EngineEvent)
    requires Working(s) && WellTyped(s) && JobEvent(s, e) && !e.Moved? && !e.Finished? && Step(s, e).Fine?
    ensures s.flight.Busy? ==> Step(s, e).s.flight == s.flight
    ensures s.flight.Free? ==> Whole(Step(s, e))
  {
    hide Fire; hide HostAccess; hide WriteBmiCommand; hide RawWrite; hide NewStatus; hide Whole; hide Coherent;
    if e.Due? {
      OneEvent(s, e.c);
      FireIsWhole(s, e.c, e.busy);
    } else {
      OthersKeepFlight(s, e);
      if s.flight.Free? { FreeIsWhole(Step(s, e)); }
    }
  }

  lemma FreeIsWhole(r: SysResult)
    requires r.Fine? && r.s.flight.Free?
    ensures Whole(r)
  {}

  lemma PortKeepsLink(j: Joint, ev: Event, line: nat)
    requires Linked(j) && line > 0 && ev.Port? && WellTyped(j.s) && May(j, ev) && !Mine(j, ev.does)
    ensures var o := Happens(j, ev, line); o.On? && o.j.s == j.s && Linked(o.j)
  {
    hide Ports.Inv; hide R.Simulates; hide Ports.Apply;
    Ports.StepKeepsInv(j.p, ev.does, line);
    if j.s.flight.Busy? { R.OthersLeaveAction(j.p, j.a, j.s.flight.op, ev.does, line); }
  }

  // A response for the engine's action is an answer that the engine expects;
  // with the last one comes its completion.
  lemma ResponseIsExpected(j: Joint, i: nat, line: nat)
    requires Working(j.s) && Linked(j) && InMemory(j.s) && line > 0
    requires i < |j.p.flight| && Mine(j, P.Response(i))
    ensures WellTyped(j.s) && P.Enabled(j.p, P.Response(i))
    ensures var which, p' := R.Span(j.p.flight[i]), Ports.Apply(j.p, P.Response(i), line);
            && Allowed(j.s, Moved(which))
            && var s1 := Move(j.s, which);
               && WellTyped(s1) && s1.flight.Busy? && s1.held == j.s.held && Ports.Inv(p')
               && (j.a in p'.live ==> Linked(Joint(s1, p', j.a)))
               && (j.a !in p'.live ==> Allowed(s1, Finished(HeldBy(s1))))
  {
    hide Ports.Inv; hide R.Simulates; hide Ports.Apply; hide Coherent;
    var op := j.s.flight.op;
    R.ResponseMoves(j.p, j.a, op, i, line);
    Ports.StepKeepsInv(j.p, P.Response(i), line);
    var which := R.Span(j.p.flight[i]);
    assert WellTyped(j.s) by { CoherentGives(j.s); }
    MoveIsKept(j.s, which);
    MoveLeaves(j.s, which);
    HeldIsOne(j.s);
    CoherentGives(Move(j.s, which));
  }

  lemma MoveLeaves(s: Sys, which: set<nat>)
    requires WellTyped(s) && Allowed(s, Moved(which))
    ensures Move(s, which).flight == Busy(s.flight.op.(left := s.flight.op.left - which))
    ensures Move(s, which).held == s.held
  {
    hide Shape;
  }

  lemma HeldIsOne(s: Sys)
    requires Coherent(s) && s.flight.Busy?
    ensures HeldBy(s) in s.held
  {
    hide Stable; hide StatesFit; hide CountersFit;
    assert |s.held| == 1;
    assert s.held != multiset{};
    var c :| c in s.held;
    match c
    case Transfer =>
    case PrdRead =>
    case ReadWait =>
    case WriteWait =>
  }

  // ---- The two directions of a command ----

  datatype Command =
    | Reading(job: Job, mem0: seq<byte>, image: seq<Sector>)
    | Writing(job: Job, mem: seq<byte>, image0: seq<Sector>)

  ghost predicate InState(s: Sys, c: Command, k: nat) {
    match c
    case Reading(job, mem0, image) => DmaReadJob.ReadState(s, job, mem0, image, k)
    case Writing(job, mem, image0) => DmaWriteJob.WriteState(s, job, mem, image0, k)
  }

  ghost predicate Done(s: Sys, c: Command) {
    match c
    case Reading(job, mem0, image) => DmaReadJob.ReadDone(s, job, mem0, image)
    case Writing(job, mem, image0) => DmaWriteJob.WriteDone(s, job, mem, image0)
  }

  lemma StateGives(s: Sys, c: Command, k: nat)
    requires InState(s, c, k)
    ensures Working(s) && Coherent(s) && WellTyped(s) && Transferring(s.d) && InMemory(s)
  {
    hide DmaReadJob.ReadState; hide DmaWriteJob.WriteState; hide Working; hide Coherent; hide InMemory;
    match c
    case Reading(job, mem0, image) =>
      DmaReadJob.ReadStateWorks(s, job, mem0, image, k);
      ReadInMemory(s, job, mem0, image, k);
    case Writing(job, mem, image0) =>
      DmaWriteJob.WriteStateWorks(s, job, mem, image0, k);
      WriteInMemory(s, job, mem, image0, k);
  }

  lemma ReadInMemory(s: Sys, job: Job, mem0: seq<byte>, image: seq<Sector>, k: nat)
    requires DmaReadJob.ReadState(s, job, mem0, image, k)
    ensures InMemory(s)
  {
    hide Stable; hide StatesFit; hide CountersFit; hide DecodePrd; hide Total; hide TableReads; hide RestKept;
    hide Filled; hide Apart; hide DmaTransfer.Moved; hide HoldsByte; hide BufferHolds;
    if s.flight.Busy? { BusyHasNoEvent(s); }
    assert WriteWait in multiset{WriteWait} && Transfer in multiset{Transfer} && PrdRead in multiset{PrdRead};
  }

  lemma WriteInMemory(s: Sys, job: Job, mem: seq<byte>, image0: seq<Sector>, k: nat)
    requires DmaWriteJob.WriteState(s, job, mem, image0, k)
    ensures InMemory(s)
  {
    hide Stable; hide StatesFit; hide CountersFit; hide DecodePrd; hide Total; hide TableReads; hide Apart;
    hide DmaWriteJob.Stored; hide DmaTransfer.Moved; hide DmaWriteJob.BufferHasMoved;
    if s.flight.Busy? { BusyHasNoEvent(s); }
    assert ReadWait in multiset{ReadWait} && Transfer in multiset{Transfer} && PrdRead in multiset{PrdRead};
  }

  ghost predicate Advances(r: SysResult, c: Command, k: nat) {
    r.Fine? && (InState(r.s, c, k) || InState(r.s, c, k + 1) || Done(r.s, c))
  }

  lemma StateStep(s: Sys, e: EngineEvent, c: Command, k: nat)
    requires InState(s, c, k) && JobEvent(s, e)
    ensures WellTyped(s) && Advances(Step(s, e), c, k)
  {
    hide DmaReadJob.ReadState; hide DmaWriteJob.WriteState; hide JobEvent; hide Step; hide Coherent; hide WellTyped;
    hide DmaReadJob.ReadDone; hide DmaWriteJob.WriteDone;
    match c
    case Reading(job, mem0, image) =>
      DmaReadJob.ReadStateWorks(s, job, mem0, image, k);
      DmaReadJob.ReadStep(s, e, job, mem0, image, k);
    case Writing(job, mem, image0) =>
      DmaWriteJob.WriteStateWorks(s, job, mem, image0, k);
      DmaWriteJob.WriteStep(s, e, job, mem, image0, k);
  }

  lemma DoneRests(s: Sys, c: Command)
    requires Done(s, c)
    ensures Coherent(s) && !Transferring(s.d) && WellTyped(s)
  {
    match c
    case Reading(job, mem0, image) => DmaReadJob.ReadDoneRests(s, job, mem0, image);
    case Writing(job, mem, image0) => DmaWriteJob.WriteDoneRests(s, job, mem, image0);
  }

  // A move leaves the command where it is.
  lemma MoveStaysInState(s: Sys, which: set<nat>, c: Command, k: nat)
    requires InState(s, c, k) && Allowed(s, Moved(which))
    ensures WellTyped(s) && exists k' :: InState(Move(s, which), c, k')
  {
    hide InState; hide Move; hide Coherent; hide Done; hide Allowed;
    MoveNeedsFlight(s, which);
    StateGives(s, c, k);
    StateStep(s, Moved(which), c, k);
    if Done(Move(s, which), c) {
      DoneRests(Move(s, which), c);
      MoveKeepsTransfer(s, which);
    }
  }

  lemma MoveKeepsTransfer(s: Sys, which: set<nat>)
    requires WellTyped(s) && Allowed(s, Moved(which))
    ensures Transferring(Move(s, which).d) == Transferring(s.d)
  {
    hide Shape;
  }

  // ---- Runs of the two ----

  ghost predicate Fit(j: Joint) { WellTyped(j.s) && Ports.Inv(j.p) }

  // Any events of the two until the command is over.
  ghost predicate RunTogether(j: Joint, evs: seq<Event>, line: nat)
    requires Fit(j) && line > 0
    decreases |evs|
  {
    evs == [] || !Transferring(j.s.d) ||
    (May(j, evs[0]) &&
     (var o := Happens(j, evs[0], line);
      o.On? && Fit(o.j) ==> RunTogether(o.j, evs[1..], line)))
  }

  ghost function EndTogether(j: Joint, evs: seq<Event>, line: nat): Outcome
    requires Fit(j) && line > 0 && RunTogether(j, evs, line)
    decreases |evs|
  {
    if evs == [] || !Transferring(j.s.d) then On(j)
    else
      var o := Happens(j, evs[0], line);
      if o.On? && Fit(o.j) then EndTogether(o.j, evs[1..], line) else Halt
  }

  // es is what the engine sees of a step to s': some of its events.
  ghost predicate Leads(s: Sys, es: seq<EngineEvent>, s': Sys)
    decreases |es|
  {
    if es == [] then s' == s
    else
      && WellTyped(s) && Transferring(s.d) && JobEvent(s, es[0])
      && Step(s, es[0]).Fine? && Leads(Step(s, es[0]).s, es[1..], s')
  }

  // One event of the two is none, one or two events of the engine, and the
  // command goes on or is done.
  lemma StepTogether(j: Joint, ev: Event, line: nat, c: Command, k: nat)
    requires InState(j.s, c, k) && Linked(j) && line > 0 && Fit(j) && May(j, ev)
    ensures var o := Happens(j, ev, line);
            && o.On? && Linked(o.j) && Leads(j.s, Seen(j, ev, line), o.j.s)
            && (Done(o.j.s, c) || exists k' :: InState(o.j.s, c, k'))
  {
    hide InState; hide Done; hide Working; hide Coherent; hide Step; hide Linked; hide Allowed; hide InMemory;
    StateGives(j.s, c, k);
    match ev
    case Engine(e, _, _) =>
      StateStep(j.s, e, c, k);
      EngineKeepsLink(j, ev, line);
      assert Leads(Step(j.s, e).s, [], Step(j.s, e).s);
    case Port(e) =>
      if Mine(j, e) {
        ResponseTogether(j, e.index, line, c, k);
      } else {
        PortKeepsLink(j, ev, line);
      }
  }

  lemma ResponseTogether(j: Joint, i: nat, line: nat, c: Command, k: nat)
    requires InState(j.s, c, k) && Linked(j) && line > 0 && Fit(j)
    requires i < |j.p.flight| && Mine(j, P.Response(i)) && May(j, Port(P.Response(i)))
    ensures var ev := Port(P.Response(i));
            var o := Happens(j, ev, line);
            && o.On? && Linked(o.j) && Leads(j.s, Seen(j, ev, line), o.j.s)
            && (Done(o.j.s, c) || exists k' :: InState(o.j.s, c, k'))
  {
    hide InState; hide Done; hide Coherent; hide Allowed; hide Move; hide CompleteOp; hide Ports.Apply; hide Ports.Inv;
    hide R.Simulates; hide InMemory;
    StateGives(j.s, c, k);
    ResponseIsExpected(j, i, line);
    var which, p' := R.Span(j.p.flight[i]), Ports.Apply(j.p, P.Response(i), line);
    MoveNeedsFlight(j.s, which);
    MoveStaysInState(j.s, which, c, k);
    var s1 := Move(j.s, which);
    var k1 :| InState(s1, c, k1);
    StateGives(s1, c, k1);
    if j.a !in p'.live {
      var h := HeldBy(s1);
      StateStep(s1, Finished(h), c, k1);
      FinishIsFree(s1, h);
      var s2 := CompleteOp(s1, h).s;
      assert Leads(s2, [], s2);
      assert Leads(s1, [Finished(h)], s2);
      assert ([Moved(which)] + [Finished(h)])[1..] == [Finished(h)];
    } else {
      assert Leads(s1, [], s1);
      assert ([Moved(which)] + [])[1..] == [];
    }
  }

  lemma FinishIsFree(s: Sys, c: Cont)
    requires Allowed(s, Finished(c))
    ensures s.flight.Busy? && c in s.held
    ensures CompleteOp(s, c).Fine? ==> CompleteOp(s, c).s.flight == Free
  {}

  lemma {:induction false} LeadsGoesOn(s: Sys, es: seq<EngineEvent>, s': Sys, rest: seq<EngineEvent>)
    requires Leads(s, es, s') && Coherent(s)
    ensures Coherent(s')
    ensures JobRun(s', rest) ==> JobRun(s, es + rest) && JobEnd(s, es + rest) == JobEnd(s', rest)
    decreases |es|
  {
    hide Coherent; hide Step; hide Allowed;
    if es == [] {
      assert es + rest == rest;
    } else {
      StepIsKept(s, es[0]);
      LeadsGoesOn(Step(s, es[0]).s, es[1..], s', rest);
      assert (es + rest)[1..] == es[1..] + rest && (es + rest)[0] == es[0];
    }
  }

  // Every run of engine and port together, with refusals, answers in any order
  // and actions of other devices in between, is a run of the engine alone, and
  // nothing in it is out of place.
  lemma {:induction false} TogetherIsJobRun(j: Joint, evs: seq<Event>, line: nat, c: Command, k: nat)
    returns (es: seq<EngineEvent>)
    requires InState(j.s, c, k) && Linked(j) && line > 0 && Fit(j) && RunTogether(j, evs, line)
    ensures Coherent(j.s) && JobRun(j.s, es)
    ensures EndTogether(j, evs, line).On? && JobEnd(j.s, es) == Fine(EndTogether(j, evs, line).j.s)
    decreases |evs|
  {
    hide InState; hide Done; hide Coherent; hide Linked; hide May; hide Happens; hide Working; hide WellTyped;
    hide JobEvent; hide Ports.Inv; hide Leads;
    StateGives(j.s, c, k);
    es := [];
    if evs != [] {
      StepTogether(j, evs[0], line, c, k);
      var o := Happens(j, evs[0], line);
      LinkedFits(o.j);
      LeadsGoesOn(j.s, Seen(j, evs[0], line), o.j.s, []);
      var rest: seq<EngineEvent> := [];
      if Done(o.j.s, c) {
        DoneRests(o.j.s, c);
      } else {
        var k' :| InState(o.j.s, c, k');
        StateGives(o.j.s, c, k');
        rest := TogetherIsJobRun(o.j, evs[1..], line, c, k');
      }
      LeadsGoesOn(j.s, Seen(j, evs[0], line), o.j.s, rest);
      es := Seen(j, evs[0], line) + rest;
    }
  }

  lemma LinkedFits(j: Joint)
    requires Linked(j)
    ensures Ports.Inv(j.p)
  {}

  // So what is proved of the engine holds of the two: when the command ends,
  // memory holds the sectors, or the sectors the regions, and nothing else has
  // changed.
  lemma ReadDmaDelivers(j: Joint, evs: seq<Event>, line: nat, job: Job, mem0: seq<byte>, image: seq<Sector>, k: nat)
    requires DmaReadJob.ReadState(j.s, job, mem0, image, k) && Linked(j) && line > 0
    requires Fit(j) && RunTogether(j, evs, line)
    ensures var o := EndTogether(j, evs, line);
            o.On? && (!Transferring(o.j.s.d) ==> DmaReadJob.ReadDone(o.j.s, job, mem0, image))
  {
    hide DmaReadJob.ReadState; hide DmaReadJob.ReadDone; hide Coherent; hide Linked; hide Fit; hide RunTogether;
    hide EndTogether; hide JobRun; hide JobEnd;
    var es := TogetherIsJobRun(j, evs, line, Reading(job, mem0, image), k);
    DmaReadJob.ReadDmaDeliversSectors(j.s, es, job, mem0, image, k);
  }

  lemma WriteDmaStores(j: Joint, evs: seq<Event>, line: nat, job: Job, mem: seq<byte>, image0: seq<Sector>, k: nat)
    requires DmaWriteJob.WriteState(j.s, job, mem, image0, k) && Linked(j) && line > 0
    requires Fit(j) && RunTogether(j, evs, line)
    ensures var o := EndTogether(j, evs, line);
            o.On? && (!Transferring(o.j.s.d) ==> DmaWriteJob.WriteDone(o.j.s, job, mem, image0))
  {
    hide DmaWriteJob.WriteState; hide DmaWriteJob.WriteDone; hide Coherent; hide Linked; hide Fit; hide RunTogether;
    hide EndTogether; hide JobRun; hide JobEnd;
    var es := TogetherIsJobRun(j, evs, line, Writing(job, mem, image0), k);
    DmaWriteJob.WriteDmaStoresRegions(j.s, es, job, mem, image0, k);
  }
}
