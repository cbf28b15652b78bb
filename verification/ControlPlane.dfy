// The tables of a control plane, addressed by byte through 32-bit addresses.
module ControlPlane {
  import opened ByteSeq

  type Qword = s: seq<byte> | |s| == 8 witness [0, 0, 0, 0, 0, 0, 0, 0]

  const ALL_ONES: Qword := [255, 255, 255, 255, 255, 255, 255, 255]

  // Rows are byte strings; the system control plane has rows of 88 and 16
  // bytes and 16 MB of configuration memory.
  datatype Table = Table(params: seq<seq<byte>>, stats: seq<seq<byte>>, sysinfo: seq<byte>, memory: seq<byte>)

  datatype Area = ParamRow(row: nat) | StatRow(row: nat) | SysInfo | ConfigMemory

  datatype Place = At(area: Area, offset: nat) | Nowhere

  predicate Has(t: Table, a: Area) {
    match a
    case ParamRow(r) => r < |t.params|
    case StatRow(r) => r < |t.stats|
    case _ => true
  }

  function Content(t: Table, a: Area): seq<byte>
    requires Has(t, a)
  {
    match a
    case ParamRow(r) => t.params[r]
    case StatRow(r) => t.stats[r]
    case SysInfo => t.sysinfo
    case ConfigMemory => t.memory
  }

  function WithContent(t: Table, a: Area, s: seq<byte>): Table
    requires Has(t, a)
  {
    match a
    case ParamRow(r) => t.(params := t.params[r := s])
    case StatRow(r) => t.(stats := t.stats[r := s])
    case SysInfo => t.(sysinfo := s)
    case ConfigMemory => t.(memory := s)
  }

  // The fields of an address: bits 31-30 the kind, bits 29-28 the table,
  // bits 17-10 the row, bits 9-0 the offset in it.
  function Locate(addr: nat): Place {
    match addr / 0x4000_0000 % 4
    case 0 =>
      if addr / 0x1000_0000 % 4 == 0 then At(ParamRow(addr / 0x400 % 0x100), addr % 0x400)
      else if addr / 0x1000_0000 % 4 == 1 then At(StatRow(addr / 0x400 % 0x100), addr % 0x400)
      else Nowhere
    case 1 => At(ConfigMemory, addr % 0x100_0000)
    case 2 => At(SysInfo, addr % 0x100)
    case _ => Nowhere
  }

  predicate Inside(t: Table, p: Place) {
    p.At? && Has(t, p.area) && p.offset + 8 <= |Content(t, p.area)|
  }

  function ParseAddr(t: Table, addr: nat): (p: Place)
    ensures p.At? ==> Inside(t, p)
  {
    if Inside(t, Locate(addr)) then Locate(addr) else Nowhere
  }

  function QueryTable(t: Table, addr: nat): Qword {
    var p := ParseAddr(t, addr);
    if p.Nowhere? then ALL_ONES else Content(t, p.area)[p.offset..p.offset + 8]
  }

  function UpdateTable(t: Table, addr: nat, v: Qword): Table {
    var p := ParseAddr(t, addr);
    if p.Nowhere? then t else WithContent(t, p.area, Splice(Content(t, p.area), p.offset, v))
  }

  // ---- What a query returns after any updates ----

  datatype Update = Update(addr: nat, value: Qword)

  function UpdateAll(t: Table, us: seq<Update>): Table {
    if us == [] then t else UpdateTable(UpdateAll(t, us[..|us| - 1]), us[|us| - 1].addr, us[|us| - 1].value)
  }

  predicate Writes(t: Table, u: Update, a: Area, o: nat) {
    var p := ParseAddr(t, u.addr);
    p.At? && p.area == a && p.offset <= o < p.offset + 8
  }

  // Byte o of an area is the one the latest update of it has left.
  function Latest(t: Table, us: seq<Update>, a: Area, o: nat): byte
    requires Has(t, a) && o < |Content(t, a)|
  {
    if us == [] then Content(t, a)[o]
    else if Writes(t, us[|us| - 1], a, o) then us[|us| - 1].value[o - ParseAddr(t, us[|us| - 1].addr).offset]
    else Latest(t, us[..|us| - 1], a, o)
  }

  ghost predicate SameShape(t: Table, t': Table) {
    forall a :: (Has(t, a) <==> Has(t', a)) && (Has(t, a) ==> |Content(t, a)| == |Content(t', a)|)
  }

  lemma UpdateKeepsShape(t: Table, addr: nat, v: Qword)
    ensures SameShape(t, UpdateTable(t, addr, v))
  {}

  lemma SameShapeSamePlaces(t: Table, t': Table, addr: nat)
    requires SameShape(t, t')
    ensures ParseAddr(t, addr) == ParseAddr(t', addr)
  {
    var p := Locate(addr);
    if p.At? { assert Has(t, p.area) <==> Has(t', p.area); }
  }

  lemma UpdateAt(t: Table, u: Update, a: Area, o: nat)
    requires Has(t, a) && o < |Content(t, a)|
    ensures var t' := UpdateTable(t, u.addr, u.value);
            && Has(t', a) && o < |Content(t', a)|
            && Content(t', a)[o] ==
               if Writes(t, u, a, o) then u.value[o - ParseAddr(t, u.addr).offset] else Content(t, a)[o]
  {}

  lemma {:induction false} BytesAreLatest(t: Table, us: seq<Update>, a: Area, o: nat)
    requires Has(t, a) && o < |Content(t, a)|
    ensures SameShape(t, UpdateAll(t, us))
    ensures Content(UpdateAll(t, us), a)[o] == Latest(t, us, a, o)
    decreases |us|
  {
    if us != [] {
      var u, before := us[|us| - 1], UpdateAll(t, us[..|us| - 1]);
      BytesAreLatest(t, us[..|us| - 1], a, o);
      assert Has(before, a);
      UpdateAt(before, u, a, o);
      UpdateKeepsShape(before, u.addr, u.value);
      SameShapeSamePlaces(t, before, u.addr);
    }
  }

  lemma {:induction false} UpdatesKeepShape(t: Table, us: seq<Update>)
    ensures SameShape(t, UpdateAll(t, us))
    decreases |us|
  {
    if us != [] {
      UpdatesKeepShape(t, us[..|us| - 1]);
      UpdateKeepsShape(UpdateAll(t, us[..|us| - 1]), us[|us| - 1].addr, us[|us| - 1].value);
    }
  }

  // Byte by byte a query sees the latest updates; outside the tables it sees
  // all ones, whatever was written there.
  lemma QueryReturnsLatest(t: Table, us: seq<Update>, addr: nat)
    ensures ParseAddr(t, addr).Nowhere? ==> QueryTable(UpdateAll(t, us), addr) == ALL_ONES
    ensures ParseAddr(t, addr).At? ==>
      forall k :: 0 <= k < 8 ==>
        QueryTable(UpdateAll(t, us), addr)[k]
        == Latest(t, us, ParseAddr(t, addr).area, ParseAddr(t, addr).offset + k)
  {
    UpdatesKeepShape(t, us);
    SameShapeSamePlaces(t, UpdateAll(t, us), addr);
    var p := ParseAddr(t, addr);
    if p.At? {
      forall k | 0 <= k < 8
        ensures QueryTable(UpdateAll(t, us), addr)[k] == Latest(t, us, p.area, p.offset + k)
      {
        BytesAreLatest(t, us, p.area, p.offset + k);
      }
    }
  }
}
