// Any number of clients share the adaptor.
module AdaptorRuns {
  import opened ByteSeq
  import opened ControlPlane
  import opened AdaptorSpec

  datatype Client = Idle | Waiting(op: Op) | Holding(op: Op, pc: nat, got: seq<byte>)

  datatype Done = Done(client: nat, op: Op, result: seq<byte>)

  datatype Lock = Free | Held(holder: nat)

  // granted: who got the lock for what, in order; history: what has returned.
  datatype Sys = Sys(hw: Hw, lock: Lock, clients: seq<Client>, granted: seq<(nat, Op)>, history: seq<Done>)

  datatype Event = Call(client: nat, op: Op) | Acquire(client: nat) | Touch(client: nat) | Release(client: nat)

  predicate Enabled(s: Sys, e: Event) {
    && e.client < |s.clients|
    && var c := s.clients[e.client];
       match e
       case Call(_, op) => c.Idle? && Known(s.hw, op)
       case Acquire(_) => c.Waiting? && s.lock == Free
       case Touch(_) => c.Holding? && c.pc < |Program(c.op)| && Allowed(s.hw, Program(c.op)[c.pc])
       case Release(_) => c.Holding? && c.pc == |Program(c.op)|
  }

  function Apply(s: Sys, e: Event): Sys
    requires Enabled(s, e)
  {
    var c := s.clients[e.client];
    match e
    case Call(i, op) => s.(clients := s.clients[i := Waiting(op)])
    case Acquire(i) =>
      s.(lock := Held(i), clients := s.clients[i := Holding(c.op, 0, [])], granted := s.granted + [(i, c.op)])
    case Touch(i) =>
      var m := Program(c.op)[c.pc];
      s.(hw := Access(s.hw, m), clients := s.clients[i := Holding(c.op, c.pc + 1, Answer(s.hw, m, c.got))])
    case Release(i) =>
      s.(lock := Free, clients := s.clients[i := Idle], history := s.history + [Done(i, c.op, c.got)])
  }

  ghost predicate IsRun(trace: seq<Sys>) {
    && trace != []
    && trace[0].lock == Free && trace[0].granted == [] && trace[0].history == []
    && (forall i :: 0 <= i < |trace[0].clients| ==> trace[0].clients[i] == Idle)
    && forall k :: 0 <= k < |trace| - 1 ==> Next(trace[k], trace[k + 1])
  }

  ghost predicate Next(s: Sys, s': Sys) { exists e :: Enabled(s, e) && s' == Apply(s, e) }

  // ---- The reference: one operation after the other ----

  predicate AllExist(a: Abstract, h: seq<Done>) {
    forall i :: 0 <= i < |h| ==> Exists(a, h[i].op)
  }

  function Replay(a: Abstract, h: seq<Done>): (r: Abstract)
    requires AllExist(a, h)
    ensures r.tables.Keys == a.tables.Keys && r.handled == a.handled
    decreases |h|
  {
    if h == [] then a else Effect(Replay(a, h[..|h| - 1]), h[|h| - 1].op)
  }

  // Each result is what the operation returns on the tables that the ones
  // before it have left.
  ghost predicate Explains(a: Abstract, h: seq<Done>)
    requires AllExist(a, h)
  {
    forall i :: 0 <= i < |h| ==> h[i].result == Return(Replay(a, h[..i]), h[i].op)
  }

  // ---- The invariant ----

  // `base` is the hardware as it was when the lock was last taken or free.
  ghost predicate HolderIs(s: Sys, base: Hw) {
    match s.lock
    case Free => s.hw == base && (forall i :: 0 <= i < |s.clients| ==> !s.clients[i].Holding?)
    case Held(h) =>
      && h < |s.clients| && s.clients[h].Holding?
      && (forall i :: 0 <= i < |s.clients| && i != h ==> !s.clients[i].Holding?)
      && IsMidway(base, s.clients[h].op, s.clients[h].pc, Outcome(s.hw, s.clients[h].got))
  }

  ghost predicate IsMidway(base: Hw, op: Op, pc: nat, o: Outcome) {
    Known(base, op) && pc <= |Program(op)| && o == Run(base, op, pc)
  }

  ghost predicate OrderFits(s: Sys) {
    && |s.granted| == |s.history| + (if s.lock.Free? then 0 else 1)
    && (forall i :: 0 <= i < |s.history| ==> s.granted[i] == (s.history[i].client, s.history[i].op))
    && (s.lock.Held? && s.lock.holder < |s.clients| && s.clients[s.lock.holder].Holding? ==>
          s.granted[|s.history|] == (s.lock.holder, s.clients[s.lock.holder].op))
  }

  ghost predicate ClientsKnown(s: Sys, a: Abstract) {
    forall i :: 0 <= i < |s.clients| && !s.clients[i].Idle? ==> Exists(a, s.clients[i].op)
  }

  ghost predicate Explained(a: Abstract, base: Hw, h: seq<Done>) {
    && a.tables.Keys == a.handled.Keys == base.planes.Keys
    && AllExist(a, h) && Explains(a, h) && View(base) == Replay(a, h)
  }

  ghost predicate Inv(a: Abstract, s: Sys, base: Hw) {
    && HolderIs(s, base) && OrderFits(s) && ClientsKnown(s, a)
    && s.hw.planes.Keys == base.planes.Keys
    && Explained(a, base, s.history)
  }

  lemma MidwayNext(base: Hw, op: Op, pc: nat, o: Outcome)
    requires IsMidway(base, op, pc, o) && pc < |Program(op)|
    ensures var m := Program(op)[pc];
            && Allowed(o.hw, m)
            && IsMidway(base, op, pc + 1, Outcome(Access(o.hw, m), Answer(o.hw, m, o.got)))
            && Access(o.hw, m).planes.Keys == base.planes.Keys
  {
    RunNext(base, op, pc);
  }

  lemma ExplainedNext(a: Abstract, base: Hw, h: seq<Done>, op: Op, o: Outcome, client: nat)
    requires Explained(a, base, h) && IsMidway(base, op, 5, o)
    ensures Explained(a, o.hw, h + [Done(client, op, o.got)])
  {
    hide Run; hide Effect; hide Return; hide View; hide Program;
    assert Known(base, op) && o == Run(base, op, 5);
    ProgramIsAtomic(base, op);
    ViewKeys(base);
    ViewKeys(o.hw);
    var h' := h + [Done(client, op, o.got)];
    assert h'[..|h|] == h;
    ReplayNext(a, h, Done(client, op, o.got));
    hide Replay;
    forall j | 0 <= j < |h'|
      ensures h'[j].result == Return(Replay(a, h'[..j]), h'[j].op)
    {
      if j < |h| { assert h'[..j] == h[..j]; }
    }
  }

  lemma ReplayNext(a: Abstract, h: seq<Done>, d: Done)
    requires AllExist(a, h) && Exists(a, d.op)
    ensures AllExist(a, h + [d]) && Exists(Replay(a, h), d.op)
    ensures Replay(a, h + [d]) == Effect(Replay(a, h), d.op)
  {
    hide Effect;
    assert (h + [d])[..|h|] == h;
  }

  lemma ViewKeys(hw: Hw)
    ensures View(hw).tables.Keys == View(hw).handled.Keys == hw.planes.Keys
  {}

  lemma CallKeepsInv(a: Abstract, s: Sys, base: Hw, i: nat, op: Op)
    requires Inv(a, s, base) && Enabled(s, Call(i, op))
    ensures Inv(a, Apply(s, Call(i, op)), base)
  {
    hide AllExist; hide Explains; hide Replay; hide View; hide IsMidway;
  }

  lemma AcquireKeepsInv(a: Abstract, s: Sys, base: Hw, i: nat)
    requires Inv(a, s, base) && Enabled(s, Acquire(i))
    ensures Inv(a, Apply(s, Acquire(i)), base)
  {
    hide AllExist; hide Explains; hide Replay; hide View;
    assert Run(base, s.clients[i].op, 0) == Outcome(base, []);
    assert IsMidway(base, s.clients[i].op, 0, Outcome(base, []));
    hide IsMidway; hide Run; hide Explained;
  }

  lemma TouchKeepsInv(a: Abstract, s: Sys, base: Hw, i: nat)
    requires Inv(a, s, base) && Enabled(s, Touch(i))
    ensures Inv(a, Apply(s, Touch(i)), base)
  {
    hide IsMidway; hide Access; hide Answer; hide Program; hide Explained; hide Allowed;
    var c := s.clients[i];
    assert s.lock == Held(i);
    MidwayNext(base, c.op, c.pc, Outcome(s.hw, c.got));
  }

  lemma ReleaseKeepsInv(a: Abstract, s: Sys, base: Hw, i: nat)
    requires Inv(a, s, base) && Enabled(s, Release(i))
    ensures Inv(a, Apply(s, Release(i)), s.hw)
  {
    ReleaseGives(a, s, base, i);
    hide *;
    var c := s.clients[i];
    ExplainedNext(a, base, s.history, c.op, Outcome(s.hw, c.got), i);
    ReleaseFrees(a, s, base, i);
  }

  lemma ReleaseGives(a: Abstract, s: Sys, base: Hw, i: nat)
    requires Inv(a, s, base) && Enabled(s, Release(i))
    ensures i < |s.clients| && s.clients[i].Holding? && s.lock == Held(i) && Explained(a, base, s.history)
    ensures IsMidway(base, s.clients[i].op, 5, Outcome(s.hw, s.clients[i].got))
  {
    hide IsMidway; hide Explained;
    assert |Program(s.clients[i].op)| == 5;
  }

  lemma ReleaseFrees(a: Abstract, s: Sys, base: Hw, i: nat)
    requires Inv(a, s, base) && Enabled(s, Release(i)) && i < |s.clients| && s.clients[i].Holding?
    requires s.lock == Held(i) && Explained(a, s.hw, s.history + [Done(i, s.clients[i].op, s.clients[i].got)])
    ensures Inv(a, Apply(s, Release(i)), s.hw)
  {
    hide IsMidway; hide Explained; hide Program; hide Exists;
  }

  lemma StepKeepsInv(a: Abstract, s: Sys, base: Hw, e: Event) returns (base': Hw)
    requires Inv(a, s, base) && Enabled(s, e)
    ensures Inv(a, Apply(s, e), base')
  {
    hide *;
    base' := base;
    match e
    case Call(i, op) => CallKeepsInv(a, s, base, i, op);
    case Acquire(i) => AcquireKeepsInv(a, s, base, i);
    case Touch(i) => TouchKeepsInv(a, s, base, i);
    case Release(i) =>
      ReleaseKeepsInv(a, s, base, i);
      base' := s.hw;
  }

  lemma NextBy(s: Sys, s': Sys) returns (e: Event)
    requires Next(s, s')
    ensures Enabled(s, e) && s' == Apply(s, e)
  {
    e :| Enabled(s, e) && s' == Apply(s, e);
  }

  lemma InvAtStart(s: Sys)
    requires s.lock == Free && s.granted == [] && s.history == []
    requires forall i :: 0 <= i < |s.clients| ==> s.clients[i] == Idle
    ensures Inv(View(s.hw), s, s.hw)
  {}

  lemma {:induction false} RunKeepsInv(trace: seq<Sys>) returns (base: Hw)
    requires IsRun(trace)
    ensures Inv(View(trace[0].hw), trace[|trace| - 1], base)
    decreases |trace|
  {
    hide Inv; hide Apply; hide Enabled; hide View; hide Next;
    base := trace[0].hw;
    InvAtStart(trace[0]);
    if |trace| > 1 {
      var before := trace[..|trace| - 1];
      assert forall j :: 0 <= j < |before| - 1 ==> Next(before[j], before[j + 1]);
      base := RunKeepsInv(before);
      var k := |trace| - 2;
      assert trace[k] == before[|before| - 1] && Next(trace[k], trace[k + 1]);
      var e := NextBy(trace[k], trace[k + 1]);
      base := StepKeepsInv(View(trace[0].hw), trace[k], base, e);
    }
  }

  // Every interleaving of the clients' accesses is one of whole operations
  // in the order in which the lock was granted: results and, whenever the
  // lock is free, tables and commands are those of the replay.
  lemma InterleavingsAreAtomic(trace: seq<Sys>)
    requires IsRun(trace)
    ensures var a, s := View(trace[0].hw), trace[|trace| - 1];
            && AllExist(a, s.history) && Explains(a, s.history)
            && |s.history| <= |s.granted| <= |s.history| + 1
            && (forall i :: 0 <= i < |s.history| ==> s.granted[i] == (s.history[i].client, s.history[i].op))
            && (s.lock == Free ==> View(s.hw) == Replay(a, s.history) && |s.granted| == |s.history|)
  {
    var base := RunKeepsInv(trace);
  }

  lemma MidwayIsBounded(base: Hw, op: Op, pc: nat, o: Outcome)
    requires IsMidway(base, op, pc, o)
    ensures pc <= |Program(op)|
  {}

  // No client is ever stopped half way: whoever holds the lock can go on, and
  // the register map lets all its accesses through.
  lemma HolderCanGoOn(trace: seq<Sys>, i: nat)
    requires IsRun(trace)
    requires i < |trace[|trace| - 1].clients| && trace[|trace| - 1].clients[i].Holding?
    ensures Enabled(trace[|trace| - 1], Touch(i)) || Enabled(trace[|trace| - 1], Release(i))
  {
    hide Next; hide Explained; hide Allowed; hide OrderFits; hide IsMidway; hide ClientsKnown; hide View; hide Program;
    var base := RunKeepsInv(trace);
    var s := trace[|trace| - 1];
    var c := s.clients[i];
    MidwayIsBounded(base, c.op, c.pc, Outcome(s.hw, c.got));
    if c.pc < |Program(c.op)| { MidwayNext(base, c.op, c.pc, Outcome(s.hw, c.got)); }
  }

  // ---- What a get returns ----

  predicate IsSetTo(op: Op, i: nat) { op.Send? && op.cmd == SET && op.cpid % 0x400 == i }

  // The sets to plane i, in order.
  function SetsTo(h: seq<Done>, i: nat): seq<Update> {
    if h == [] then []
    else
      var op := h[|h| - 1].op;
      SetsTo(h[..|h| - 1], i) + if IsSetTo(op, i) then [Update(LittleEndian(op.addr), op.value)] else []
  }

  lemma EffectOnTable(a: Abstract, op: Op, i: nat)
    requires Exists(a, op) && i in a.tables
    ensures i in Effect(a, op).tables
    ensures Effect(a, op).tables[i] ==
            if IsSetTo(op, i) then UpdateTable(a.tables[i], LittleEndian(op.addr), op.value) else a.tables[i]
  {
    hide LittleEndian; hide UpdateTable;
  }

  lemma {:induction false} ReplayIsUpdates(a: Abstract, h: seq<Done>, i: nat)
    requires AllExist(a, h) && i in a.tables
    ensures Replay(a, h).tables[i] == UpdateAll(a.tables[i], SetsTo(h, i))
    decreases |h|
  {
    hide LittleEndian; hide UpdateTable; hide Effect;
    if h != [] {
      var before, op := h[..|h| - 1], h[|h| - 1].op;
      assert Exists(Replay(a, before), op);
      EffectOnTable(Replay(a, before), op, i);
      ReplayIsUpdates(a, before, i);
      var us := SetsTo(before, i);
      if IsSetTo(op, i) {
        assert SetsTo(h, i)[..|us|] == us;
      } else {
        assert SetsTo(h, i) == us;
      }
    }
  }

  lemma ResultIs(trace: seq<Sys>, n: nat)
    requires IsRun(trace) && n < |trace[|trace| - 1].history|
    ensures var h, a := trace[|trace| - 1].history, View(trace[0].hw);
            AllExist(a, h[..n]) && Exists(a, h[n].op) && h[n].result == Return(Replay(a, h[..n]), h[n].op)
  {
    InterleavingsAreAtomic(trace);
    hide IsRun; hide View; hide Replay; hide Return; hide Exists;
  }

  lemma GetAfter(a: Abstract, h: seq<Done>, op: Op, k: nat)
    requires AllExist(a, h) && Exists(a, op) && op.Get? && k < 8
    ensures var i := op.cpid % 0x400;
            var p, r := ParseAddr(a.tables[i], LittleEndian(op.addr)), Return(Replay(a, h), op);
            && |r| == 8
            && r[k] == if p.Nowhere? then 255 else Latest(a.tables[i], SetsTo(h, i), p.area, p.offset + k)
  {
    hide LittleEndian; hide QueryTable; hide Latest; hide UpdateAll; hide Replay; hide SetsTo; hide AllExist;
    var i, addr := op.cpid % 0x400, LittleEndian(op.addr);
    ReplayIsUpdates(a, h, i);
    QueryReturnsLatest(a.tables[i], SetsTo(h, i), addr);
  }

  // Whatever the interleaving, each byte of each get is the one that the
  // latest earlier set of it left in that plane.
  lemma GetsReturnLatestSets(trace: seq<Sys>, n: nat, k: nat)
    requires IsRun(trace) && k < 8
    requires n < |trace[|trace| - 1].history| && trace[|trace| - 1].history[n].op.Get?
    ensures var h, a := trace[|trace| - 1].history, View(trace[0].hw);
            var i, addr := h[n].op.cpid % 0x400, LittleEndian(h[n].op.addr);
            && i in a.tables && |h[n].result| == 8
            && var p := ParseAddr(a.tables[i], addr);
               h[n].result[k] == if p.Nowhere? then 255
                                 else Latest(a.tables[i], SetsTo(h[..n], i), p.area, p.offset + k)
  {
    ResultIs(trace, n);
    hide IsRun; hide View; hide LittleEndian; hide Latest; hide Replay; hide SetsTo; hide ParseAddr; hide Return;
    var h := trace[|trace| - 1].history;
    GetAfter(View(trace[0].hw), h[..n], h[n].op, k);
  }
}
