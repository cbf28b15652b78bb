module IoApicDevice {
  import opened IchSpec
  import opened IoApicSpec
  import opened IchDevice

  class IoApic {
    const cp: IchCp
    var id: nat
    var arbId: nat
    var regSel: seq<nat>
    var tables: seq<seq<Entry>>
    var pins: seq<bool>

    ghost function Model(): Apic
      reads this
    {
      Apic(id, arbId, regSel, tables, pins)
    }

    // Every entry masked, every pin down.
    constructor (ich: IchCp, apicId: nat, guests: nat)
      ensures cp == ich && Shaped(Model()) && |tables| == guests
      ensures forall g, i :: 0 <= g < guests && 0 <= i < PINS ==> tables[g][i] == Entry(0, 0x1_0000) && !pins[i]
    {
      cp, id, arbId := ich, apicId, apicId;
      regSel := seq(guests, _ => 0);
      tables := seq(guests, _ => seq(PINS, _ => Entry(0, 0x1_0000)));
      pins := seq(PINS, _ => false);
    }

    // `ok` is false where the write would go past the table.
    method WriteReg(g: nat, offset: nat, v: nat) returns (ok: bool)
      requires Shaped(Model()) && g < |tables|
      modifies this
      ensures IoApicSpec.WriteReg(old(Model()), g, offset, v) == if ok then Fine(Model()) else PastTable
    {
      if offset == 0 {
        id := v / 0x100_0000 % 0x100;
      } else if offset == 2 {
        arbId := v / 0x100_0000 % 0x100;
      } else if 0x10 <= offset <= 0x10 + 2 * PINS {
        var i := (offset - 0x10) / 2;
        if i == PINS {
          return false;
        }
        var e := tables[g][i];
        if offset % 2 == 1 {
          e := e.(top := v / 0x100_0000 * 0x100_0000);
        } else {
          e := e.(bottom := v % 0x2_0000);
        }
        tables := tables[g := tables[g][i := e]];
      }
      return true;
    }

    method Write(g: nat, acc: Access) returns (ok: bool)
      requires Shaped(Model()) && g < |tables|
      modifies this
      ensures Perform(old(Model()), g, acc) == if ok then Fine(Model()) else PastTable
    {
      ok := true;
      match acc
      case SetIndex(v) => regSel := regSel[g := v % 0x100];
      case WriteWindow(v) => ok := WriteReg(g, regSel[g], v);
    }

    method RaiseInterruptPin(pin: nat) returns (consulted: seq<(nat, int)>)
      requires Shaped(Model()) && pin < PINS
      modifies this
      ensures (consulted, Model()) == Raise(old(Model()), cp.rows, pin)
    {
      consulted := [];
      if !pins[pin] {
        consulted := cp.RemapInterrupt(pin);
      }
      pins := pins[pin := true];
    }

    method LowerInterruptPin(pin: nat)
      requires Shaped(Model()) && pin < PINS
      modifies this
      ensures Model() == Lower(old(Model()), pin) && Shaped(Model())
      // the next edge of this pin is signalled again, and every other pin is as it was
      ensures forall rows :: Raise(Model(), rows, pin).0 == Targets(rows, pin, |rows|)
      ensures forall rows, other | 0 <= other < PINS && other != pin ::
        Raise(Model(), rows, other).0 == Raise(old(Model()), rows, other).0
    {
      pins := pins[pin := false];
    }
  }
}
