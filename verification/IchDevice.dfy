// Table and tool updated in place.
module IchDevice {
  import opened IchSpec
  import opened IchRuns

  class IchCp {
    var rows: seq<Row>

    constructor (entries: nat)
      ensures rows == seq(entries, _ => Blank())
    {
      rows := seq(entries, _ => Blank());
    }

    method UpdateWord(r: nat, src: Row, i: nat)
      requires r < |rows| && i < WORDS
      modifies this
      ensures rows == old(rows)[r := CopyWord(old(rows)[r], src, i)]
    {
      rows := rows[r := CopyWord(rows[r], src, i)];
    }

    method ScanRows(dsid: nat) returns (s: Scanned)
      ensures s == Scan(rows, dsid, 0)
      ensures s.FreeRow? ==> s.row < |rows|
    {
      var row := 0;
      while true
        invariant 0 <= row <= |rows| && Scan(rows, dsid, 0) == Scan(rows, dsid, row)
        decreases |rows| - row
      {
        if row == |rows| || IsEof(rows[row]) {
          return Full;
        }
        if rows[row].flags % 2 == 1 && rows[row].dsid == dsid {
          return Already;
        }
        if rows[row].flags % 2 != 1 {
          return FreeRow(row);
        }
        row := row + 1;
      }
    }

    // A whole registration, from a state between registrations: the guest is
    // added, or was there, or the table is full.
    method IchAssign(dsid: nat, ghost names: seq<nat>) returns (code: int, ghost names': seq<nat>)
      requires Inv(State(rows, names, Quiet)) && (|names| < MAX_GUESTS || dsid in names)
      modifies this
      ensures Inv(State(rows, names', Quiet)) && |rows| == |old(rows)|
      ensures code == if dsid in names || |names| < |rows| then 0 else ENOMEM
      ensures names' == if dsid in names || code != 0 then names else names + [dsid]
    {
      ghost var st := State(rows, names, Quiet);
      ScanIs(st, dsid, 0);
      var s := ScanRows(dsid);
      names' := names;
      if s.Already? {
        return 0, names';
      }
      if s.Full? {
        return ENOMEM, names';
      }
      StepKeepsInv(st, Begin(dsid));
      var param := Wanted(dsid, s.row);
      ghost var r := s.row;
      hide CopyWord; hide Wanted; hide Scan; hide Half; hide Registered;
      for i := 1 to WORDS
        invariant r == |names| && r < |rows| == |old(rows)|
        invariant Inv(State(rows, names, Copying(dsid, r, i)))
      {
        StepKeepsInv(State(rows, names, Copying(dsid, r, i)), CopyOn);
        UpdateWord(s.row, param, i);
      }
      StepKeepsInv(State(rows, names, Copying(dsid, r, WORDS)), CopyOn);
      UpdateWord(s.row, param, 0);
      names' := names + [dsid];
      return 0, names';
    }

    // A selection out of range is made the one for none.
    method RemapAddr(dsid: nat, addr: nat) returns (phys: nat)
      modifies this
      ensures phys == Remap(old(rows), dsid, addr)
      ensures rows == Normalise(old(rows), dsid)
    {
      ghost var was := rows;
      var r := 0;
      while r < |rows| && rows[r].dsid != dsid
        invariant 0 <= r <= |rows| && rows == was && FindRow(rows, dsid, 0) == FindRow(rows, dsid, r)
      {
        r := r + 1;
      }
      if r < |rows| && rows[r].selected >= 4 {
        rows := rows[r := rows[r].(selected := UNSELECTED)];
      }
      if r == |rows| || rows[r].selected == UNSELECTED {
        return IO;
      }
      var k := rows[r].selected;
      var part := 0;
      while part < 4
        invariant 0 <= part <= 4 && rows == was
        invariant RemapPart(rows[r], k, addr, 0) == RemapPart(rows[r], k, addr, part)
      {
        if rows[r].regbase[part] <= addr < rows[r].regbase[part] + PartSize(part) {
          return PartBase(k, part) + (addr - rows[r].regbase[part]);
        }
        part := part + 1;
      }
      return IO;
    }

    method RemapInterrupt(line: nat) returns (targets: seq<(nat, int)>)
      requires line < PINS
      ensures targets == Targets(rows, line, |rows|)
    {
      targets := [];
      for i := 0 to |rows|
        invariant targets == Targets(rows, line, i)
      {
        if rows[i].lines[line] != -1 {
          targets := targets + [(rows[i].dsid, rows[i].lines[line])];
        }
      }
    }
  }
}
