// Which guest owns which device: the parameter table of the IOHub, the DMA
// tags that follow it and the two tools that change it.
module IohSpec {
  import opened ByteSeq

  const NO_DSID: nat := 0xFFFF
  const OK: int := 0
  const ENOMEM: int := -12
  const ENODEV: int := -19

  // A device mask is the set of its bits.
  datatype Row = Row(flags: nat, dsid: nat, mask: set<nat>)

  datatype Hub = Hub(rows: seq<Row>, tags: seq<nat>)

  predicate IsValid(r: Row) { r.flags % 2 == 1 }

  // The word that reads all ones.
  predicate IsEof(r: Row) { r == Row(0xFFFF, 0xFFFF, Below(32)) }

  // ---- The tools ----

  // The device with this PCI address; its position is its number.
  function DeviceOf(devices: seq<nat>, pciid: nat): (i: nat)
    ensures i <= |devices|
    ensures i < |devices| ==> devices[i] == pciid
  {
    if devices == [] || devices[0] == pciid then 0 else 1 + DeviceOf(devices[1..], pciid)
  }

  function DeviceMaskOf(devices: seq<nat>, pciids: seq<nat>): (m: set<nat>)
    ensures forall d :: d in m ==> d < |devices| && devices[d] in pciids
  {
    if pciids == [] then {}
    else
      var i := DeviceOf(devices, pciids[|pciids| - 1]);
      DeviceMaskOf(devices, pciids[..|pciids| - 1]) + if i < |devices| then {i} else {}
  }

  // Nothing is selected or free: -1.
  datatype Scanned = Scanned(select: int, free: int)

  // Rows from i on, up to the end or the row of the guest.
  function Scan(rows: seq<Row>, dsid: nat, i: nat, free: int): Scanned
    requires i <= |rows|
    decreases |rows| - i
  {
    if i == |rows| || IsEof(rows[i]) then Scanned(-1, free)
    else if IsValid(rows[i]) && rows[i].dsid == dsid then Scanned(i, free)
    else Scan(rows, dsid, i + 1, if !IsValid(rows[i]) && free == -1 then i else free)
  }

  // A device goes where its bit says; only changed bits count.
  function Retag(tags: seq<nat>, before: set<nat>, row: Row): (t: seq<nat>)
    ensures |t| == |tags|
  {
    seq(|tags|, d requires 0 <= d < |tags| =>
      if d in row.mask && d !in before then row.dsid
      else if d in before && d !in row.mask then NO_DSID
      else tags[d])
  }

  function UpdateRow(h: Hub, r: nat, row: Row): Hub
    requires r < |h.rows|
  {
    Hub(h.rows[r := row], if IsValid(row) then Retag(h.tags, h.rows[r].mask, row) else h.tags)
  }

  datatype Reply = Reply(hub: Hub, code: int)

  function Assign(h: Hub, dsid: nat, mask: set<nat>): Reply {
    var s := Scan(h.rows, dsid, 0, -1);
    if mask == {} then Reply(h, ENODEV)
    else if 0 <= s.select < |h.rows| then
      var row := h.rows[s.select];
      Reply(UpdateRow(h, s.select, row.(mask := row.mask + mask)), OK)
    else if 0 <= s.free < |h.rows| then Reply(UpdateRow(h, s.free, Row(1, dsid, mask)), OK)
    else Reply(h, ENOMEM)
  }

  // A list with no known device in it clears the whole mask.
  function Release(h: Hub, dsid: nat, mask: set<nat>): Reply {
    var s := Scan(h.rows, dsid, 0, -1);
    if 0 <= s.select < |h.rows| then
      var row := h.rows[s.select];
      Reply(UpdateRow(h, s.select, row.(mask := if mask == {} then {} else row.mask - mask)), OK)
    else Reply(h, ENODEV)
  }

  // getDeviceMask: rows from i on.
  function MaskFrom(rows: seq<Row>, dsid: nat, i: nat): set<nat>
    requires i <= |rows|
    decreases |rows| - i
  {
    if i == |rows| then {}
    else if IsValid(rows[i]) && rows[i].dsid == dsid then rows[i].mask
    else MaskFrom(rows, dsid, i + 1)
  }

  function MaskOf(h: Hub, dsid: nat): set<nat> { MaskFrom(h.rows, dsid, 0) }
}
