// The chipset as guests share it: one table row for each guest says which
// serial port and timer are its own and where interrupt lines go.
module IchSpec {
  const IO: nat := 0x8000_0000_0000_0000
  const IO_APIC: nat := 0xFEC0_0000
  const NO_DSID: nat := 0xFFFF
  const UNSELECTED: nat := 0xFFFF
  const MAX64: nat := 0xFFFF_FFFF_FFFF_FFFF
  const PINS: nat := 24
  const WORDS: nat := 17
  const ENOMEM: int := -12
  const MAX_GUESTS: nat := 20   // beyond, row + 4 is not a line any more

  datatype RowData = Row(flags: nat, dsid: nat, selected: nat, regbase: seq<nat>, lines: seq<int>)

  predicate IsRow(r: RowData) { |r.regbase| == 4 && |r.lines| == 24 }

  type Row = r: RowData | IsRow(r) witness Row(0, 0, 0, [0, 0, 0, 0], seq(24, _ => 0))

  function NoLines(): (s: seq<int>)
    ensures |s| == 24 && forall i :: 0 <= i < 24 ==> s[i] == -1
  {
    seq(24, _ => -1)
  }

  // All ones but for the flags.
  function Blank(): Row { Row(0, NO_DSID, UNSELECTED, [MAX64, MAX64, MAX64, MAX64], NoLines()) }

  predicate IsValid(r: Row) { r.flags % 2 == 1 }

  predicate IsEof(r: Row) { r.flags == 0xFFFF_FFFF && r.dsid == 0xFFFF && r.selected == 0xFFFF }

  // ---- ich_assign ----

  // The row a new guest gets: the usual addresses, timer k on line 2, serial
  // port k on line 4 and the clock on line 8.
  function Wanted(dsid: nat, k: nat): Row
    requires k < MAX_GUESTS
  {
    Row(1, dsid, k, [IO + 0x3f8, IO + 0x70, IO + 0x40, IO_APIC], NoLines()[k := 2][k + 4 := 4][8 := 8])
  }

  // A row is written one 64-bit word after the other: the first holds flags,
  // DSid and selection, then come four bases and twelve pairs of lines.
  function CopyWord(r: Row, src: Row, i: nat): Row
    requires i < WORDS
  {
    if i == 0 then r.(flags := src.flags, dsid := src.dsid, selected := src.selected)
    else if i < 5 then r.(regbase := r.regbase[i - 1 := src.regbase[i - 1]])
    else r.(lines := r.lines[2 * (i - 5) := src.lines[2 * (i - 5)]][2 * (i - 5) + 1 := src.lines[2 * (i - 5) + 1]])
  }

  datatype Scanned = Already | FreeRow(row: nat) | Full

  function Scan(rows: seq<Row>, dsid: nat, i: nat): Scanned
    requires i <= |rows|
    decreases |rows| - i
  {
    if i == |rows| || IsEof(rows[i]) then Full
    else if IsValid(rows[i]) && rows[i].dsid == dsid then Already
    else if !IsValid(rows[i]) then FreeRow(i)
    else Scan(rows, dsid, i + 1)
  }

  // ---- Remapping ----

  // Serial port, clock memory, timer and I/O APIC of set k.
  function PartBase(k: nat, part: nat): nat
    requires k < 4 && part < 4
  {
    match part
    case 0 => IO + [0x3f8, 0x2f8, 0x3e8, 0x2e8][k]
    case 1 => IO + 0x70
    case 2 => IO + 0x40 + 4 * k
    case 3 => IO_APIC
  }

  function PartSize(part: nat): nat
    requires part < 4
  {
    [8, 4, 4, 0x14][part]
  }

  // Rows from i on; the first with this DSid counts, valid or not.
  function FindRow(rows: seq<Row>, dsid: nat, i: nat): (r: nat)
    requires i <= |rows|
    ensures i <= r <= |rows| && (r < |rows| ==> rows[r].dsid == dsid)
    ensures forall k :: i <= k < r ==> rows[k].dsid != dsid
    decreases |rows| - i
  {
    if i == |rows| || rows[i].dsid == dsid then i else FindRow(rows, dsid, i + 1)
  }

  function RemapPart(r: Row, k: nat, a: nat, part: nat): nat
    requires k < 4 && part <= 4
    decreases 4 - part
  {
    if part == 4 then IO
    else if r.regbase[part] <= a < r.regbase[part] + PartSize(part) then PartBase(k, part) + (a - r.regbase[part])
    else RemapPart(r, k, a, part + 1)
  }

  // What a guest has no part of leads to port 0.
  function Remap(rows: seq<Row>, dsid: nat, a: nat): nat {
    var r := FindRow(rows, dsid, 0);
    if r == |rows| || rows[r].selected >= 4 then IO else RemapPart(rows[r], rows[r].selected, a, 0)
  }

  // A selection out of range is made the one for none when it is looked up.
  function Normalise(rows: seq<Row>, dsid: nat): seq<Row> {
    var r := FindRow(rows, dsid, 0);
    if r < |rows| && rows[r].selected >= 4 then rows[r := rows[r].(selected := UNSELECTED)] else rows
  }

  // Who hears of a line: of the first n rows those with a number for it.
  function Targets(rows: seq<Row>, line: nat, n: nat): seq<(nat, int)>
    requires n <= |rows| && line < PINS
  {
    if n == 0 then []
    else Targets(rows, line, n - 1)
         + if rows[n - 1].lines[line] != -1 then [(rows[n - 1].dsid, rows[n - 1].lines[line])] else []
  }
}
