// The adaptor updated in place, and the functions of the driver.
module AdaptorDevice {
  import opened ByteSeq
  import opened ControlPlane
  import opened AdaptorSpec

  function RegisterMap(): seq<(nat, nat)> {
    [(0, 4), (4, 4), (8, 8), (16, 1), (17, 1), (18, 2), (20, 4), (24, 8)]
  }

  class Adaptor {
    var command: nat                // the select register, as written
    var planes: map<nat, Plane>
    var sent: seq<Sent>             // what the command handlers were given

    function Model(): Hw
      reads this
    {
      Hw(command % 0x400, planes, sent)
    }

    constructor (ps: map<nat, Plane>)
      ensures Model() == Hw(0, ps, [])
    {
      command, planes, sent := 0, ps, [];
    }

    method AccessCommand(value: nat)
      modifies this`command
      ensures Model() == Access(old(Model()), Select(value))
    {
      command := value;
    }

    // The search that a data access begins with.
    method CheckMap(offset: nat, size: nat) returns (ok: bool)
      ensures ok <==> InMap(offset, size)
    {
      var entries := RegisterMap();
      var i := 0;
      while i < |entries|
        invariant 0 <= i <= |entries|
        invariant forall k :: 0 <= k < i ==> offset != entries[k].0
      {
        if offset == entries[i].0 {
          return size == entries[i].1;
        }
        i := i + 1;
      }
      assert offset != entries[0].0 && offset != entries[1].0 && offset != entries[2].0 && offset != entries[3].0;
      assert offset != entries[4].0 && offset != entries[5].0 && offset != entries[6].0 && offset != entries[7].0;
      return false;
    }

    // The command register of the selected connector has been accessed.
    method RunCommand(p: Plane)
      requires command % 0x400 in planes
      modifies this`planes, this`sent
      ensures Model() == Execute(old(Model()), p)
    {
      var s := command % 0x400;
      var addr := LittleEndian(AddrOf(p.regs));
      if p.regs[CMD] == GET {
        planes := planes[s := p.(regs := Splice(p.regs, DATA, QueryTable(p.table, addr)))];
      } else if p.regs[CMD] == SET {
        planes := planes[s := p.(table := UpdateTable(p.table, addr, DataOf(p.regs)))];
      } else if p.regs[CMD] in p.handled {
        planes := planes[s := p];
        sent := sent + [Sent(s, p.regs[CMD], DomainOf(p.regs), AddrOf(p.regs), DataOf(p.regs))];
      } else {
        planes := planes[s := p.(regs := p.regs[CMD := NONE])];
      }
    }

    // `ok` is false where the simulator would stop.
    method WriteData(offset: nat, bytes: seq<byte>) returns (ok: bool)
      modifies this`planes, this`sent
      ensures ok <==> Allowed(old(Model()), Write(offset, bytes))
      ensures Model() == if ok then Access(old(Model()), Write(offset, bytes)) else old(Model())
    {
      hide Execute; hide Splice;
      ok := CheckMap(offset, |bytes|);
      ok := ok && command % 0x400 in planes;
      if ok {
        var p := planes[command % 0x400];
        p := p.(regs := Splice(p.regs, offset, bytes));
        if offset == CMD {
          RunCommand(p);
        } else {
          planes := planes[command % 0x400 := p];
        }
      }
    }

    method ReadData(offset: nat, size: nat) returns (ok: bool, data: seq<byte>)
      modifies this`planes, this`sent
      ensures ok <==> Allowed(old(Model()), Read(offset, size))
      ensures ok ==> Model() == Access(old(Model()), Read(offset, size))
      ensures ok ==> data == Answer(old(Model()), Read(offset, size), [])
      ensures !ok ==> Model() == old(Model()) && data == []
    {
      hide Execute;
      ok := CheckMap(offset, size);
      ok := ok && command % 0x400 in planes;
      data := [];
      if ok {
        var p := planes[command % 0x400];
        data := p.regs[offset..offset + size];
        if offset == CMD {
          RunCommand(p);
        } else {
          planes := planes[command % 0x400 := p];
        }
      }
    }

    // The part that the three functions of the driver share.
    method Load(ghost op: Op, cpid: nat, ldom: Bytes2, addr: Bytes4)
      requires Known(Model(), op) && op.cpid == cpid && op.ldom == ldom && op.addr == addr
      modifies this
      ensures Outcome(Model(), []) == Run(old(Model()), op, 3)
    {
      ghost var hw := Model();
      assert Run(hw, op, 0) == Outcome(hw, []);
      RunNext(hw, op, 0);
      RunNext(hw, op, 1);
      RunNext(hw, op, 2);
      assert Program(op)[0] == Select(cpid) && Program(op)[1] == Write(LDOM, ldom)
          && Program(op)[2] == Write(DEST, addr);
      hide Access; hide Run; hide Allowed; hide Program;
      AccessCommand(cpid);
      var ok := WriteData(LDOM, ldom);
      ok := WriteData(DEST, addr);
    }

    // One call made alone: the table is read and nothing the outside can see
    // is changed.
    method ReadConfigQword(cpid: nat, ldom: Bytes2, addr: Bytes4) returns (value: Qword)
      requires cpid % 0x400 in planes
      modifies this
      ensures View(Model()) == old(View(Model())) && planes.Keys == old(planes.Keys)
      ensures value == QueryTable(old(planes)[cpid % 0x400].table, LittleEndian(addr))
    {
      ghost var hw, op := Model(), Get(cpid, ldom, addr);
      Load(op, cpid, ldom, addr);
      RunNext(hw, op, 3);
      RunNext(hw, op, 4);
      ProgramIsAtomic(hw, op);
      assert Program(op)[3] == Write(CMD, [GET]) && Program(op)[4] == Read(DATA, 8);
      hide Access; hide Run; hide Allowed; hide Program;
      var ok := WriteData(CMD, [GET]);
      var data;
      ok, data := ReadData(DATA, 8);
      return data;
    }

    method WriteCommand(cmd: byte, cpid: nat, ldom: Bytes2, addr: Bytes4, value: Qword)
      requires cpid % 0x400 in planes
      modifies this
      ensures View(Model()) == Effect(old(View(Model())), Send(cmd, cpid, ldom, addr, value))
      ensures planes.Keys == old(planes.Keys)
    {
      ghost var hw, op := Model(), Send(cmd, cpid, ldom, addr, value);
      Load(op, cpid, ldom, addr);
      RunNext(hw, op, 3);
      RunNext(hw, op, 4);
      ProgramIsAtomic(hw, op);
      assert Program(op)[3] == Write(DATA, value) && Program(op)[4] == Write(CMD, [cmd]);
      hide Access; hide Run; hide Allowed; hide Program; hide Effect;
      var ok := WriteData(DATA, value);
      ok := WriteData(CMD, [cmd]);
    }

    method WriteConfigQword(cpid: nat, ldom: Bytes2, addr: Bytes4, value: Qword)
      requires cpid % 0x400 in planes
      modifies this
      ensures planes.Keys == old(planes.Keys)
      ensures View(Model()).tables == old(View(Model()).tables)[cpid % 0x400 :=
                UpdateTable(old(planes)[cpid % 0x400].table, LittleEndian(addr), value)]
      ensures sent == old(sent)
    {
      hide LittleEndian; hide UpdateTable;
      WriteCommand(SET, cpid, ldom, addr, value);
    }
  }
}
