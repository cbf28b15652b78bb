// The adaptor, the connectors behind it and the register protocol that
// clients follow under its lock.
module AdaptorSpec {
  import opened ByteSeq
  import opened ControlPlane

  // The register file of a connector: type and identity, then command (16),
  // state (17), domain (18), address (20) and data (24).
  const CMD: nat := 16
  const LDOM: nat := 18
  const DEST: nat := 20
  const DATA: nat := 24

  const GET: byte := 0x47   // 'G'
  const SET: byte := 0x53   // 'S'
  const NONE: byte := 0xFF

  type Regs = s: seq<byte> | |s| == 32 witness Zeros(32)

  type Bytes2 = s: seq<byte> | |s| == 2 witness [0, 0]
  type Bytes4 = s: seq<byte> | |s| == 4 witness [0, 0, 0, 0]

  // A command that a handler has taken.
  datatype Sent = Sent(plane: nat, cmd: byte, ldom: Bytes2, addr: Bytes4, data: Qword)

  datatype Plane = Plane(regs: Regs, table: Table, handled: set<byte>)

  datatype Hw = Hw(select: nat, planes: map<nat, Plane>, sent: seq<Sent>)

  datatype Mmio = Select(value: nat) | Write(at: nat, bytes: seq<byte>) | Read(at: nat, size: nat)

  // What the register map of the adaptor lets through.
  predicate InMap(at: nat, size: nat) {
    (at, size) in {(0, 4), (4, 4), (8, 8), (CMD, 1), (17, 1), (LDOM, 2), (DEST, 4), (DATA, 8)}
  }

  predicate Allowed(hw: Hw, m: Mmio) {
    match m
    case Select(_) => true
    case Write(at, bytes) => hw.select in hw.planes && InMap(at, |bytes|)
    case Read(at, size) => hw.select in hw.planes && InMap(at, size)
  }

  function DomainOf(r: Regs): Bytes2 { r[LDOM..DEST] }
  function AddrOf(r: Regs): Bytes4 { r[DEST..DATA] }
  function DataOf(r: Regs): Qword { r[DATA..] }

  // The command in the command register is carried out.
  function Execute(hw: Hw, p: Plane): Hw {
    var addr := LittleEndian(AddrOf(p.regs));
    if p.regs[CMD] == GET then
      hw.(planes := hw.planes[hw.select := p.(regs := Splice(p.regs, DATA, QueryTable(p.table, addr)))])
    else if p.regs[CMD] == SET then
      hw.(planes := hw.planes[hw.select := p.(table := UpdateTable(p.table, addr, DataOf(p.regs)))])
    else if p.regs[CMD] in p.handled then
      hw.(planes := hw.planes[hw.select := p],
          sent := hw.sent + [Sent(hw.select, p.regs[CMD], DomainOf(p.regs), AddrOf(p.regs), DataOf(p.regs))])
    else
      hw.(planes := hw.planes[hw.select := p.(regs := p.regs[CMD := NONE])])
  }

  // recvAtomic of the selected connector.  Any access to the command
  // register, a read too, carries the command out.
  function AccessData(hw: Hw, p: Plane, at: nat): Hw {
    if at == CMD then Execute(hw, p) else hw.(planes := hw.planes[hw.select := p])
  }

  // One access; only the low ten bits of the select register count.
  function Access(hw: Hw, m: Mmio): Hw
    requires Allowed(hw, m)
  {
    match m
    case Select(v) => hw.(select := v % 0x400)
    case Write(at, bytes) =>
      var p := hw.planes[hw.select];
      AccessData(hw, p.(regs := Splice(p.regs, at, bytes)), at)
    case Read(at, _) => AccessData(hw, hw.planes[hw.select], at)
  }

  // What a read returns: the register as it was before the access.
  function Answer(hw: Hw, m: Mmio, got: seq<byte>): seq<byte>
    requires Allowed(hw, m)
  {
    if m.Read? then hw.planes[hw.select].regs[m.at..m.at + m.size] else got
  }

  // ---- The functions that clients call ----

  datatype Op =
    | Get(cpid: nat, ldom: Bytes2, addr: Bytes4)
    | Send(cmd: byte, cpid: nat, ldom: Bytes2, addr: Bytes4, value: Qword)

  function Program(op: Op): seq<Mmio> {
    match op
    case Get(cp, ldom, addr) =>
      [Select(cp), Write(LDOM, ldom), Write(DEST, addr), Write(CMD, [GET]), Read(DATA, 8)]
    case Send(cmd, cp, ldom, addr, value) =>
      [Select(cp), Write(LDOM, ldom), Write(DEST, addr), Write(DATA, value), Write(CMD, [cmd])]
  }

  datatype Outcome = Outcome(hw: Hw, got: seq<byte>)

  predicate Known(hw: Hw, op: Op) { op.cpid % 0x400 in hw.planes }

  // The first n accesses of a program.
  function Run(hw: Hw, op: Op, n: nat): (o: Outcome)
    requires Known(hw, op) && n <= |Program(op)|
    ensures o.hw.planes.Keys == hw.planes.Keys
    ensures n > 0 ==> o.hw.select == op.cpid % 0x400
  {
    if n == 0 then Outcome(hw, [])
    else
      var o := Run(hw, op, n - 1);
      var m := Program(op)[n - 1];
      Outcome(Access(o.hw, m), Answer(o.hw, m, o.got))
  }

  // ---- The atomic view ----

  datatype Abstract = Abstract(tables: map<nat, Table>, handled: map<nat, set<byte>>, sent: seq<Sent>)

  function View(hw: Hw): Abstract {
    Abstract(map i | i in hw.planes :: hw.planes[i].table, map i | i in hw.planes :: hw.planes[i].handled, hw.sent)
  }

  predicate Exists(a: Abstract, op: Op) { op.cpid % 0x400 in a.tables && op.cpid % 0x400 in a.handled }

  function Effect(a: Abstract, op: Op): Abstract
    requires Exists(a, op)
  {
    var i := op.cpid % 0x400;
    if op.Get? then a
    else if op.cmd == GET then a
    else if op.cmd == SET then
      a.(tables := a.tables[i := UpdateTable(a.tables[i], LittleEndian(op.addr), op.value)])
    else if op.cmd in a.handled[i] then
      a.(sent := a.sent + [Sent(i, op.cmd, op.ldom, op.addr, op.value)])
    else a
  }

  function Return(a: Abstract, op: Op): seq<byte>
    requires Exists(a, op)
  {
    if op.Get? then QueryTable(a.tables[op.cpid % 0x400], LittleEndian(op.addr)) else []
  }

  // ---- A whole program is one atomic operation ----

  lemma RunNext(hw: Hw, op: Op, n: nat)
    requires Known(hw, op) && n < |Program(op)|
    ensures var o, m := Run(hw, op, n), Program(op)[n];
            Allowed(o.hw, m) && Run(hw, op, n + 1) == Outcome(Access(o.hw, m), Answer(o.hw, m, o.got))
  {}

  lemma RegistersAreHidden(hw: Hw, p: Plane)
    requires hw.select in hw.planes
    requires p.table == hw.planes[hw.select].table && p.handled == hw.planes[hw.select].handled
    ensures View(hw.(planes := hw.planes[hw.select := p])) == View(hw)
  {
    var hw' := hw.(planes := hw.planes[hw.select := p]);
    assert View(hw').tables == View(hw).tables;
    assert View(hw').handled == View(hw).handled;
  }

  // An access that does not start a command.
  lemma PlainWrite(hw: Hw, at: nat, bytes: seq<byte>)
    requires Allowed(hw, Write(at, bytes)) && at != CMD
    ensures var hw' := Access(hw, Write(at, bytes));
            && View(hw') == View(hw) && hw'.select == hw.select
            && hw'.planes == hw.planes[hw.select := hw.planes[hw.select].(
                 regs := Splice(hw.planes[hw.select].regs, at, bytes))]
  {
    var p := hw.planes[hw.select];
    RegistersAreHidden(hw, p.(regs := Splice(p.regs, at, bytes)));
    hide View;
  }

  predicate Loaded(r: Regs, op: Op) { DomainOf(r) == op.ldom && AddrOf(r) == op.addr }

  // Select, domain and address: the tables stay as they are and the
  // registers of the selected plane hold the arguments.
  lemma Prologue(hw: Hw, op: Op)
    requires Known(hw, op)
    ensures var o := Run(hw, op, 3);
            View(o.hw) == View(hw) && o.got == [] && Loaded(o.hw.planes[op.cpid % 0x400].regs, op)
  {
    var i := op.cpid % 0x400;
    var o1, o2, o3 := Run(hw, op, 1), Run(hw, op, 2), Run(hw, op, 3);
    assert o1 == Outcome(hw.(select := i), []) by { assert Run(hw, op, 0) == Outcome(hw, []); }
    assert Program(op)[1] == Write(LDOM, op.ldom) && Program(op)[2] == Write(DEST, op.addr);
    RunNext(hw, op, 1);
    RunNext(hw, op, 2);
    hide Run; hide Program;
    assert View(o1.hw) == View(hw);
    PlainWrite(o1.hw, LDOM, op.ldom);
    PlainWrite(o2.hw, DEST, op.addr);
    hide View; hide AccessData;
  }

  // The command finds its arguments in the registers.
  lemma ExecuteIsEffect(hw: Hw, p: Plane, op: Op)
    requires hw.select in hw.planes
    requires p.table == hw.planes[hw.select].table && p.handled == hw.planes[hw.select].handled
    requires op.Send? && Loaded(p.regs, op) && DataOf(p.regs) == op.value && p.regs[CMD] == op.cmd
    requires op.cpid % 0x400 == hw.select
    ensures View(Execute(hw, p)) == Effect(View(hw), op)
  {
    hide UpdateTable; hide QueryTable; hide LittleEndian;
    var hw' := Execute(hw, p);
    assert View(hw').tables == Effect(View(hw), op).tables;
    assert View(hw').handled == View(hw).handled;
  }

  lemma QueryInRegisters(hw: Hw, p: Plane, op: Op)
    requires hw.select in hw.planes
    requires p.table == hw.planes[hw.select].table && p.handled == hw.planes[hw.select].handled
    requires op.Get? && Loaded(p.regs, op) && p.regs[CMD] == GET
    requires op.cpid % 0x400 == hw.select
    ensures View(Execute(hw, p)) == View(hw)
    ensures DataOf(Execute(hw, p).planes[hw.select].regs) == Return(View(hw), op)
  {
    hide QueryTable; hide LittleEndian;
    var hw' := Execute(hw, p);
    assert View(hw').tables == View(hw).tables;
    assert View(hw').handled == View(hw).handled;
  }

  lemma QueryStays(r: Regs, op: Op)
    requires Loaded(r, op)
    ensures var r' := Splice(r, CMD, [GET]); Loaded(r', op) && r'[CMD] == GET
  {}

  lemma GetIsAtomic(hw: Hw, op: Op)
    requires Known(hw, op) && op.Get?
    ensures Run(hw, op, 5).got == Return(View(hw), op)
    ensures View(Run(hw, op, 5).hw) == View(hw)
  {
    hide Run; hide Execute; hide Return; hide View; hide Loaded; hide Splice;
    Prologue(hw, op);
    var i := op.cpid % 0x400;
    var o3, o4, o5 := Run(hw, op, 3), Run(hw, op, 4), Run(hw, op, 5);
    assert Program(op)[3] == Write(CMD, [GET]) && Program(op)[4] == Read(DATA, 8);
    RunNext(hw, op, 3);
    RunNext(hw, op, 4);
    hide Program;
    var p := o3.hw.planes[i];
    QueryStays(p.regs, op);
    QueryInRegisters(o3.hw, p.(regs := Splice(p.regs, CMD, [GET])), op);
    RegistersAreHidden(o4.hw, o4.hw.planes[i]);
  }

  // Data and command leave the arguments before them.
  lemma ArgumentsStay(r: Regs, op: Op)
    requires op.Send? && Loaded(r, op)
    ensures var r' := Splice(Splice(r, DATA, op.value), CMD, [op.cmd]);
            Loaded(r', op) && DataOf(r') == op.value && r'[CMD] == op.cmd
  {}

  lemma SendIsAtomic(hw: Hw, op: Op)
    requires Known(hw, op) && op.Send?
    ensures Run(hw, op, 5).got == []
    ensures View(Run(hw, op, 5).hw) == Effect(View(hw), op)
  {
    hide Run; hide Execute; hide View; hide Effect;
    Prologue(hw, op);
    var i := op.cpid % 0x400;
    var o3, o4, o5 := Run(hw, op, 3), Run(hw, op, 4), Run(hw, op, 5);
    assert Program(op)[3] == Write(DATA, op.value) && Program(op)[4] == Write(CMD, [op.cmd]);
    RunNext(hw, op, 3);
    RunNext(hw, op, 4);
    hide Program;
    PlainWrite(o3.hw, DATA, op.value);
    ArgumentsStay(o3.hw.planes[i].regs, op);
    var p := o4.hw.planes[i];
    hide Loaded; hide DataOf; hide Splice;
    ExecuteIsEffect(o4.hw, p.(regs := Splice(p.regs, CMD, [op.cmd])), op);
  }

  lemma ProgramIsAtomic(hw: Hw, op: Op)
    requires Known(hw, op)
    ensures Run(hw, op, 5).got == Return(View(hw), op)
    ensures View(Run(hw, op, 5).hw) == Effect(View(hw), op)
  {
    if op.Get? { GetIsAtomic(hw, op); } else { SendIsAtomic(hw, op); }
  }

  // ---- Reading the command register ----

  // A read is seen outside exactly when it is of the command register and the
  // command there is a set that still changes something or one that a handler
  // takes.
  lemma ReadIsSeenIff(hw: Hw, at: nat, size: nat)
    requires Allowed(hw, Read(at, size))
    ensures var p := hw.planes[hw.select];
            var cmd, t := p.regs[CMD], p.table;
            View(Access(hw, Read(at, size))) != View(hw) <==>
            && at == CMD && cmd != GET
            && if cmd == SET then UpdateTable(t, LittleEndian(AddrOf(p.regs)), DataOf(p.regs)) != t
               else cmd in p.handled
  {
    hide UpdateTable; hide QueryTable; hide LittleEndian;
    var p, hw' := hw.planes[hw.select], Access(hw, Read(at, size));
    if at == CMD && p.regs[CMD] == SET {
      assert View(hw').tables[hw.select] == UpdateTable(p.table, LittleEndian(AddrOf(p.regs)), DataOf(p.regs));
      assert View(hw).tables[hw.select] == p.table;
    } else if at == CMD && p.regs[CMD] != GET && p.regs[CMD] in p.handled {
      assert |hw'.sent| == |hw.sent| + 1;
    }
    if View(hw').tables[hw.select] == View(hw).tables[hw.select] {
      assert View(hw').tables == View(hw).tables;
    }
    assert View(hw').handled == View(hw).handled;
  }

  // After a command has been sent, reading the register sends it once more.
  lemma ReadSendsAgain(hw: Hw, op: Op)
    requires Known(hw, op) && op.Send? && NONE !in hw.planes[op.cpid % 0x400].handled
    ensures var done := Run(hw, op, 5).hw;
            && Allowed(done, Read(CMD, 1)) && Exists(Effect(View(hw), op), op)
            && View(Access(done, Read(CMD, 1))) == Effect(Effect(View(hw), op), op)
  {
    hide Run; hide View; hide Effect; hide Execute; hide UpdateTable;
    SendIsAtomic(hw, op);
    SendLeaves(hw, op);
    var done := Run(hw, op, 5).hw;
    var p := done.planes[op.cpid % 0x400];
    EffectKeeps(hw, op);
    if op.cmd != GET && (op.cmd == SET || op.cmd in p.handled) {
      ExecuteIsEffect(done, p, op);
    } else {
      ReadIsSeenIff(done, CMD, 1);
    }
  }

  lemma EffectKeeps(hw: Hw, op: Op)
    requires Known(hw, op)
    ensures Exists(View(hw), op) && Exists(Effect(View(hw), op), op)
    ensures !op.Send? || op.cmd == GET || (op.cmd != SET && op.cmd !in hw.planes[op.cpid % 0x400].handled) ==>
      Effect(View(hw), op) == View(hw) == Effect(Effect(View(hw), op), op)
  {
    hide UpdateTable;
  }

  // What a command leaves in the registers.
  predicate Leaves(r: Regs, op: Op, known: bool)
    requires op.Send?
  {
    if known then r[CMD] == op.cmd && Loaded(r, op) && (op.cmd != GET ==> DataOf(r) == op.value)
    else r[CMD] == NONE
  }

  lemma ExecuteLeaves(hw: Hw, p: Plane, op: Op)
    requires hw.select in hw.planes && op.Send? && Loaded(p.regs, op) && DataOf(p.regs) == op.value
    requires p.regs[CMD] == op.cmd
    ensures var done := Execute(hw, p);
            && hw.select in done.planes && done.select == hw.select
            && done.planes[hw.select].handled == p.handled
            && Leaves(done.planes[hw.select].regs, op, op.cmd == GET || op.cmd == SET || op.cmd in p.handled)
  {
    hide QueryTable; hide UpdateTable; hide LittleEndian;
  }

  lemma SendLeaves(hw: Hw, op: Op)
    requires Known(hw, op) && op.Send?
    ensures var done, i := Run(hw, op, 5).hw, op.cpid % 0x400;
            && i in done.planes && done.select == i && done.planes[i].handled == hw.planes[i].handled
            && Leaves(done.planes[i].regs, op, op.cmd == GET || op.cmd == SET || op.cmd in hw.planes[i].handled)
  {
    hide Run; hide Execute; hide Leaves; hide View;
    Prologue(hw, op);
    var i := op.cpid % 0x400;
    var o3, o4 := Run(hw, op, 3), Run(hw, op, 4);
    HandledStays(hw, o3.hw, i);
    assert Program(op)[3] == Write(DATA, op.value) && Program(op)[4] == Write(CMD, [op.cmd]);
    RunNext(hw, op, 3);
    RunNext(hw, op, 4);
    hide Program;
    PlainWrite(o3.hw, DATA, op.value);
    var p := o4.hw.planes[i];
    ExecuteLeaves(o4.hw, p.(regs := Splice(p.regs, CMD, [op.cmd])), op);
  }

  lemma HandledStays(hw: Hw, hw': Hw, i: nat)
    requires View(hw') == View(hw) && i in hw.planes && i in hw'.planes
    ensures hw'.planes[i].handled == hw.planes[i].handled
  {
    assert View(hw).handled[i] == hw.planes[i].handled && View(hw').handled[i] == hw'.planes[i].handled;
  }
}
