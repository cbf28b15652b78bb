// The I/O APIC: one redirection table and one index register per guest.
module IoApicSpec {
  import opened IchSpec
  import opened IchRuns

  datatype Entry = Entry(top: nat, bottom: nat)

  datatype Apic = Apic(id: nat, arbId: nat, regSel: seq<nat>, tables: seq<seq<Entry>>, pins: seq<bool>)

  ghost predicate Shaped(a: Apic) {
    && |a.regSel| == |a.tables| && |a.pins| == PINS
    && forall g :: 0 <= g < |a.tables| ==> |a.tables[g]| == PINS
  }

  // The last register offset let through is one too far.
  datatype Written = Fine(apic: Apic) | PastTable

  function WriteEntry(e: Entry, odd: bool, v: nat): Entry {
    if odd then e.(top := v / 0x100_0000 * 0x100_0000) else e.(bottom := v % 0x2_0000)
  }

  function WriteReg(a: Apic, g: nat, offset: nat, v: nat): Written
    requires Shaped(a) && g < |a.tables|
  {
    if offset == 0 then Fine(a.(id := v / 0x100_0000 % 0x100))
    else if offset == 2 then Fine(a.(arbId := v / 0x100_0000 % 0x100))
    else if 0x10 <= offset <= 0x10 + 2 * PINS then
      var i := (offset - 0x10) / 2;
      if i == PINS then PastTable
      else Fine(a.(tables := a.tables[g := a.tables[g][i := WriteEntry(a.tables[g][i], offset % 2 == 1, v)]]))
    else Fine(a)
  }

  datatype Access = SetIndex(v: nat) | WriteWindow(v: nat)

  function Perform(a: Apic, g: nat, acc: Access): Written
    requires Shaped(a) && g < |a.tables|
  {
    match acc
    case SetIndex(v) => Fine(a.(regSel := a.regSel[g := v % 0x100]))
    case WriteWindow(v) => WriteReg(a, g, a.regSel[g], v)
  }

  // A rising edge is signalled to the targets of the pin.
  function Raise(a: Apic, rows: seq<Row>, pin: nat): (seq<(nat, int)>, Apic)
    requires Shaped(a) && pin < PINS
  {
    (if a.pins[pin] then [] else Targets(rows, pin, |rows|), a.(pins := a.pins[pin := true]))
  }

  function Lower(a: Apic, pin: nat): Apic
    requires Shaped(a) && pin < PINS
  {
    a.(pins := a.pins[pin := false])
  }

  // The access is safe exactly when the index is not the one past the table.
  lemma AccessIsSafeIff(a: Apic, g: nat, acc: Access)
    requires Shaped(a) && g < |a.tables|
    ensures Perform(a, g, acc).Fine? <==> acc.SetIndex? || a.regSel[g] != 0x40
    ensures Perform(a, g, acc).Fine? ==> Shaped(Perform(a, g, acc).apic)
  {}

  // ---- What guests can do to each other ----

  datatype By = By(guest: nat, access: Access)

  ghost predicate Runs(a: Apic, bys: seq<By>, a': Apic)
    decreases |bys|
  {
    if bys == [] then a == a'
    else
      && Shaped(a) && bys[0].guest < |a.tables|
      && Perform(a, bys[0].guest, bys[0].access).Fine?
      && Runs(Perform(a, bys[0].guest, bys[0].access).apic, bys[1..], a')
  }

  // Whatever the other guests write, a guest's index and table stay.
  lemma {:induction false} OthersLeaveTable(a: Apic, bys: seq<By>, a': Apic, g: nat)
    requires Shaped(a) && g < |a.tables| && Runs(a, bys, a')
    requires forall i :: 0 <= i < |bys| ==> bys[i].guest != g
    ensures Shaped(a') && |a'.tables| == |a.tables| && a'.tables[g] == a.tables[g] && a'.regSel[g] == a.regSel[g]
    ensures a'.pins == a.pins
    decreases |bys|
  {
    if bys != [] {
      AccessIsSafeIff(a, bys[0].guest, bys[0].access);
      OthersLeaveTable(Perform(a, bys[0].guest, bys[0].access).apic, bys[1..], a', g);
    }
  }

  // A rising edge on a pin below 8 with an owner consults one entry of that
  // guest's table, the one it had before the others' accesses; while the
  // pin is up nothing more is signalled.
  lemma EdgeReachesOwner(trace: seq<State>, entries: nat, a: Apic, bys: seq<By>, a': Apic, pin: nat)
    requires IsRun(trace, entries) && trace[|trace| - 1].writing.Quiet?
    requires pin < 8 && pin % 4 < |trace[|trace| - 1].names| <= 4
    requires var g := trace[|trace| - 1].names[pin % 4];
             && Shaped(a) && g < |a.tables| && Runs(a, bys, a') && !a.pins[pin]
             && forall i :: 0 <= i < |bys| ==> bys[i].guest != g
    ensures var st := trace[|trace| - 1];
            var g, line := st.names[pin % 4], if pin < 4 then 2 else 4;
            && Shaped(a') && Raise(a', st.rows, pin).0 == [(g, line)]
            && |a'.tables| == |a.tables| && a'.tables[g][line] == a.tables[g][line]
            && Shaped(Raise(a', st.rows, pin).1) && Raise(Raise(a', st.rows, pin).1, st.rows, pin).0 == []
  {
    RunKeepsInv(trace, entries);
    var st := trace[|trace| - 1];
    hide IsRun; hide Inv; hide Targets;
    TargetsAre(st, pin);
    OwnersAre(st.names, pin, |st.names|);
    OthersLeaveTable(a, bys, a', st.names[pin % 4]);
  }

  // ---- Edges over whole runs ----

  // Pins go up and down while guests write; the table behind a pin may be
  // another one each time.
  datatype PinEvent = Up(pin: nat, rows: seq<Row>) | Down(pin: nat) | Guest(by': By)

  datatype Consult = Consult(pin: nat, targets: seq<(nat, int)>)

  ghost predicate Possible(a: Apic, e: PinEvent) {
    && Shaped(a)
    && match e
       case Up(pin, _) => pin < PINS
       case Down(pin) => pin < PINS
       case Guest(b) => b.guest < |a.tables| && Perform(a, b.guest, b.access).Fine?
  }

  ghost function Happen(a: Apic, e: PinEvent): Apic
    requires Possible(a, e)
  {
    match e
    case Up(pin, rows) => Raise(a, rows, pin).1
    case Down(pin) => Lower(a, pin)
    case Guest(b) => Perform(a, b.guest, b.access).apic
  }

  // The targets consulted, if any are.
  ghost function Consulted(a: Apic, e: PinEvent): seq<Consult>
    requires Possible(a, e)
  {
    if e.Up? && Raise(a, e.rows, e.pin).0 != [] then [Consult(e.pin, Raise(a, e.rows, e.pin).0)] else []
  }

  ghost predicate IsPinRun(trace: seq<Apic>, es: seq<PinEvent>) {
    && |trace| == |es| + 1
    && forall i :: 0 <= i < |es| ==> Possible(trace[i], es[i]) && trace[i + 1] == Happen(trace[i], es[i])
  }

  // The level of a pin as the events alone tell it.
  ghost function Level(es: seq<PinEvent>, pin: nat, init: bool): bool {
    if es == [] then init
    else
      var e := es[|es| - 1];
      if e.Up? && e.pin == pin then true
      else if e.Down? && e.pin == pin then false
      else Level(es[..|es| - 1], pin, init)
  }

  lemma {:induction false} PinsFollowEvents(trace: seq<Apic>, es: seq<PinEvent>, pin: nat)
    requires IsPinRun(trace, es) && pin < PINS && Shaped(trace[0])
    ensures Shaped(trace[|es|]) && trace[|es|].pins[pin] == Level(es, pin, trace[0].pins[pin])
    decreases |es|
  {
    if es != [] {
      var n := |es| - 1;
      PinsFollowEvents(trace[..n + 1], es[..n], pin);
      assert Possible(trace[n], es[n]) && trace[n + 1] == Happen(trace[n], es[n]);
      if es[n].Guest? { AccessIsSafeIff(trace[n], es[n].by'.guest, es[n].by'.access); }
    }
  }

  // In every run, whatever guests write in between, the targets of a pin are
  // consulted exactly at its rising edges: at an event that raises it while
  // the events before have left it down.
  lemma ConsultedAtRisingEdges(trace: seq<Apic>, es: seq<PinEvent>, i: nat)
    requires IsPinRun(trace, es) && Shaped(trace[0]) && i < |es|
    ensures Possible(trace[i], es[i])
    ensures Consulted(trace[i], es[i]) ==
            if es[i].Up? && !Level(es[..i], es[i].pin, trace[0].pins[es[i].pin])
               && Targets(es[i].rows, es[i].pin, |es[i].rows|) != []
            then [Consult(es[i].pin, Targets(es[i].rows, es[i].pin, |es[i].rows|))] else []
  {
    assert Possible(trace[i], es[i]);
    if es[i].Up? {
      PinsFollowEvents(trace[..i + 1], es[..i], es[i].pin);
    }
  }
}
