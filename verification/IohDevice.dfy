// The control plane updated in place, and the tools that scan it.
module IohDevice {
  import opened ByteSeq
  import opened IohSpec
  import opened IohRuns

  class IoHubCp {
    var rows: seq<Row>
    var tags: seq<nat>

    ghost function Model(): Hub
      reads this
    {
      Hub(rows, tags)
    }

    constructor (entries: nat, devices: nat)
      ensures |rows| == entries && |tags| == devices
      ensures forall r :: 0 <= r < entries ==> rows[r] == Row(0, 0, {})
      ensures forall d :: 0 <= d < devices ==> tags[d] == NO_DSID
    {
      rows := seq(entries, _ => Row(0, 0, {}));
      tags := seq(devices, _ => NO_DSID);
    }

    // A word past the table reads all ones.
    method QueryTable(row: nat) returns (eof: bool, value: Row)
      ensures eof <==> row >= |rows| || IsEof(rows[row])
      ensures row < |rows| ==> value == rows[row]
    {
      if row < |rows| {
        return rows[row] == Row(0xFFFF, 0xFFFF, Below(32)), rows[row];
      }
      return true, Row(0xFFFF, 0xFFFF, Below(32));
    }

    method UpdateTable(r: nat, row: Row)
      requires r < |rows| && |tags| <= 32
      requires forall d :: d in rows[r].mask || d in row.mask ==> d < |tags|
      modifies this
      ensures Model() == UpdateRow(old(Model()), r, row)
    {
      var before := rows[r].mask;
      rows := rows[r := row];
      if row.flags % 2 == 1 {
        ghost var was := tags;
        for i := 0 to 32
          invariant rows == old(rows)[r := row] && |tags| == |was|
          invariant forall d :: 0 <= d < |tags| ==> tags[d] == if d < i then Retag(was, before, row)[d] else was[d]
        {
          if (i in row.mask) != (i in before) {
            if i in row.mask {
              tags := tags[i := row.dsid];
            } else {
              tags := tags[i := NO_DSID];
            }
          }
        }
        assert tags == Retag(was, before, row);
      }
    }

    method GetDeviceMask(dsid: nat) returns (mask: set<nat>)
      ensures mask == MaskOf(Model(), dsid)
    {
      mask := {};
      var i := 0;
      while i < |rows|
        invariant 0 <= i <= |rows| && mask == {} && MaskOf(Model(), dsid) == MaskFrom(rows, dsid, i)
      {
        if rows[i].flags % 2 == 1 && rows[i].dsid == dsid {
          return rows[i].mask;
        }
        i := i + 1;
      }
    }

    // The check before an access to configuration space.
    method MayPass(devices: seq<nat>, dsid: nat, pciid: nat) returns (ok: bool)
      requires |devices| <= 32
      ensures ok <==> Sees(Model(), devices, dsid, pciid)
    {
      var mask := GetDeviceMask(dsid);
      for i := 0 to |devices|
        invariant forall d :: 0 <= d < i ==> !(d in mask && devices[d] == pciid)
      {
        if i in mask && devices[i] == pciid {
          return true;
        }
      }
      return false;
    }

    method ScanRows(dsid: nat) returns (select: int, free: int)
      ensures Scanned(select, free) == Scan(rows, dsid, 0, -1)
      ensures -1 <= select < |rows| && -1 <= free < |rows|
    {
      var row := 0;
      select, free := -1, -1;
      while true
        invariant 0 <= row <= |rows| && select == -1 && -1 <= free < |rows|
        invariant Scan(rows, dsid, 0, -1) == Scan(rows, dsid, row, free)
        decreases |rows| - row
      {
        var eof, param := QueryTable(row);
        if eof {
          return;
        }
        if param.flags % 2 == 1 && param.dsid == dsid {
          select := row;
          return;
        }
        if param.flags % 2 != 1 && free == -1 {
          free := row;
        }
        row := row + 1;
      }
    }

    method IohAssign(devices: seq<nat>, dsid: nat, pciids: seq<nat>) returns (code: int)
      requires |tags| == |devices| <= 32
      requires forall r, d :: 0 <= r < |rows| && d in rows[r].mask ==> d < |tags|
      modifies this
      ensures Reply(Model(), code) == Assign(old(Model()), dsid, DeviceMaskOf(devices, pciids))
    {
      var mask := PciidsToDevmask(devices, pciids);
      if mask == {} {
        return ENODEV;
      }
      var select, free := ScanRows(dsid);
      hide Scan; hide Retag; hide DeviceMaskOf;
      if select == -1 {
        if free == -1 {
          return ENOMEM;
        }
        UpdateTable(free, Row(1, dsid, mask));
        return OK;
      }
      UpdateTable(select, rows[select].(mask := rows[select].mask + mask));
      return OK;
    }

    method IohRelease(devices: seq<nat>, dsid: nat, pciids: seq<nat>) returns (code: int)
      requires |tags| == |devices| <= 32
      requires forall r, d :: 0 <= r < |rows| && d in rows[r].mask ==> d < |tags|
      modifies this
      ensures Reply(Model(), code) == Release(old(Model()), dsid, DeviceMaskOf(devices, pciids))
    {
      var mask := PciidsToDevmask(devices, pciids);
      var select, free := ScanRows(dsid);
      hide Scan; hide Retag; hide DeviceMaskOf;
      if select == -1 {
        return ENODEV;
      }
      UpdateTable(select, rows[select].(mask := if mask == {} then {} else rows[select].mask - mask));
      return OK;
    }
  }

  method PciidsToDevmask(devices: seq<nat>, pciids: seq<nat>) returns (mask: set<nat>)
    ensures mask == DeviceMaskOf(devices, pciids)
  {
    mask := {};
    for i := 0 to |pciids|
      invariant mask == DeviceMaskOf(devices, pciids[..i])
    {
      var d := 0;
      while d < |devices| && devices[d] != pciids[i]
        invariant 0 <= d <= |devices|
        invariant DeviceOf(devices, pciids[i]) == d + DeviceOf(devices[d..], pciids[i])
      {
        d := d + 1;
      }
      if d < |devices| {
        mask := mask + {d};
      }
      assert pciids[..i + 1][..i] == pciids[..i];
    }
    assert pciids[..|pciids|] == pciids;
  }
}
